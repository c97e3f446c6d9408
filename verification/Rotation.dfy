/**
 * Password rotation: the per-pass decision of internal/rotation/decision.go, and what it adds up
 * to over unbounded sequences of completed passes.
 *
 * Times and periods are integers counting nanoseconds. A stored time comes back truncated to
 * whole seconds, because the API server keeps timestamps as RFC 3339 text.
 */
module Rotation {
  import opened Prelude

  const SECOND: int := 1_000_000_000
  const ROTATE_AT: string := "surrealdb.seamlezz.com/rotate-at"

  datatype Action = Reuse | Generate | Rotate
  datatype Reason = PasswordMissing | ManualTriggerChanged | ScheduledRotationDue | PasswordCurrent

  datatype Decision = Decision(
    action: Action,
    reason: Reason,
    manualTrigger: string,
    next: Option<int>,
    last: Option<int>)

  function ComputeNext(now: int, last: Option<int>, next: Option<int>, period: Option<int>): Option<int> {
    if period.None? then
      None
    else
      var candidate := (if last.Some? then last.value else now) + period.value;
      if next.None? then Some(candidate)
      else if next.value <= candidate then next
      else Some(candidate)
  }

  function ManualRequest(annotations: map<string, string>): string {
    if ROTATE_AT in annotations then annotations[ROTATE_AT] else ""
  }

  function Decide(now: int, hasPassword: bool, annotations: map<string, string>, lastManualTrigger: string,
                  last: Option<int>, next: Option<int>, period: Option<int>): Decision
  {
    var manual := ManualRequest(annotations);
    if !hasPassword then
      Decision(Generate, PasswordMissing, manual, ComputeNext(now, Some(now), None, period), Some(now))
    else if manual != "" && manual != lastManualTrigger then
      Decision(Rotate, ManualTriggerChanged, manual, ComputeNext(now, Some(now), None, period), Some(now))
    else if period.Some? then
      var due := ComputeNext(now, last, next, period);
      if due.Some? && now >= due.value then
        Decision(Rotate, ScheduledRotationDue, lastManualTrigger, ComputeNext(now, Some(now), None, period), Some(now))
      else
        Decision(Reuse, PasswordCurrent, lastManualTrigger, due, last)
    else
      Decision(Reuse, PasswordCurrent, lastManualTrigger, None, last)
  }

  // ----- what a completed pass stores -----

  /** A time as the API server gives it back: whole seconds, rounded down. */
  function Truncate(t: int): (r: int)
    ensures r <= t < r + SECOND && r % SECOND == 0
  {
    t - t % SECOND
  }

  function TruncateTime(t: Option<int>): Option<int> {
    if t.Some? then Some(Truncate(t.value)) else None
  }

  /** The rotation fields of a credential's status. */
  datatype Schedule = Schedule(last: Option<int>, next: Option<int>, trigger: string)

  /** Stored times are whole seconds. */
  predicate Stored(s: Schedule) {
    (s.last.Some? ==> s.last.value % SECOND == 0) && (s.next.Some? ==> s.next.value % SECOND == 0)
  }

  /** What one completed pass saw. */
  datatype Sighting = Sighting(now: int, hasPassword: bool, annotations: map<string, string>, period: Option<int>)

  function DecideOn(s: Schedule, o: Sighting): Decision {
    Decide(o.now, o.hasPassword, o.annotations, s.trigger, s.last, s.next, o.period)
  }

  /** The in-memory rotation fields at the end of a completed pass, before they are stored. */
  function Planned(s: Schedule, d: Decision): Schedule {
    Schedule(if d.action.Reuse? then s.last else d.last, d.next, d.manualTrigger)
  }

  function Persisted(s: Schedule): (r: Schedule)
    ensures Stored(r)
  {
    Schedule(TruncateTime(s.last), TruncateTime(s.next), s.trigger)
  }

  function Complete(s: Schedule, o: Sighting): (r: Schedule)
    ensures Stored(r)
  {
    Persisted(Planned(s, DecideOn(s, o)))
  }

  function CompleteAll(s: Schedule, os: seq<Sighting>): Schedule
    decreases |os|
  {
    if os == [] then s else CompleteAll(Complete(s, os[0]), os[1..])
  }

  /** Every pass of the run keeps the password. */
  predicate AllReuse(s: Schedule, os: seq<Sighting>)
    decreases |os|
  {
    os == [] || (DecideOn(s, os[0]).action.Reuse? && AllReuse(Complete(s, os[0]), os[1..]))
  }

  // ----- truncation arithmetic -----

  lemma TruncateFixesWhole(t: int)
    requires t % SECOND == 0
    ensures Truncate(t) == t
  {
  }

  lemma TruncateShift(whole: int, t: int)
    requires whole % SECOND == 0
    ensures Truncate(whole + t) == whole + Truncate(t)
  {
    assert (whole + t) % SECOND == t % SECOND;
  }

  lemma TruncateMonotone(a: int, b: int)
    requires a <= b
    ensures Truncate(a) <= Truncate(b)
  {
    var qa, qb := a / SECOND, b / SECOND;
    assert Truncate(a) == qa * SECOND && Truncate(b) == qb * SECOND;
  }

  /** Truncating a sum loses a second exactly when the two fractions carry. */
  lemma TruncateSum(a: int, b: int)
    ensures Truncate(a + b) ==
            Truncate(a) + Truncate(b) + (if a % SECOND + b % SECOND < SECOND then 0 else SECOND)
  {
    var fa, fb := a % SECOND, b % SECOND;
    var whole := Truncate(a) + Truncate(b);
    assert whole % SECOND == 0;
    TruncateShift(whole, fa + fb);
    assert a + b == whole + (fa + fb);
    if fa + fb < SECOND {
      assert Truncate(fa + fb) == 0;
    } else {
      TruncateShift(SECOND, fa + fb - SECOND);
    }
  }

  // ----- the schedule over changing periods -----

  /** A stretch of a run that starts with a rotation, then keeps the password, with a period set throughout. */
  predicate SinceRotation(s: Schedule, os: seq<Sighting>) {
    && os != []
    && (forall i :: 0 <= i < |os| ==> os[i].period.Some?)
    && !DecideOn(s, os[0]).action.Reuse?
    && AllReuse(Complete(s, os[0]), os[1..])
  }

  /** The next rotation that pass `i` of a stretch proposes, as stored. */
  function Proposal(os: seq<Sighting>, i: nat): int
    requires i < |os| && os[i].period.Some?
  {
    if i == 0 then Truncate(os[0].now + os[0].period.value)
    else Truncate(os[0].now) + Truncate(os[i].period.value)
  }

  ghost predicate IsEarliestProposal(t: int, os: seq<Sighting>)
    requires forall i :: 0 <= i < |os| ==> os[i].period.Some?
  {
    && (exists i :: 0 <= i < |os| && t == Proposal(os, i))
    && (forall i :: 0 <= i < |os| ==> t <= Proposal(os, i))
  }

  ghost predicate IsSmallestPeriod(p: int, os: seq<Sighting>)
    requires forall i :: 0 <= i < |os| ==> os[i].period.Some?
  {
    && (exists i :: 0 <= i < |os| && p == os[i].period.value)
    && (forall i :: 0 <= i < |os| ==> p <= os[i].period.value)
  }

  /**
   * For every period, whole seconds or not: the stored next rotation is the earliest proposal made
   * since the rotation, so a longer period never delays it and a shorter one may advance it.
   */
  lemma NextIsEarliestProposal(s: Schedule, os: seq<Sighting>)
    requires SinceRotation(s, os)
    ensures var r := CompleteAll(s, os);
            && r.last == Some(Truncate(os[0].now))
            && r.next.Some? && IsEarliestProposal(r.next.value, os)
  {
    RotatedComplete(s, os[0]);
    var last, rest := Complete(s, os[0]).last, os[1..];
    ReusedStretch(Complete(s, os[0]), rest);
    forall i | 1 <= i < |os|
      ensures Proposal(os, i) == KeptProposal(last, rest[i - 1])
    {
      TruncateShift(last.value, os[i].period.value);
    }
    var t := CompleteAll(s, os).next.value;
    if t == Proposal(os, 0) {
    } else {
      var i :| 0 <= i < |rest| && t == KeptProposal(last, rest[i]);
      assert t == Proposal(os, i + 1);
    }
  }

  /** The next rotation a pass proposes that keeps the password: from the last one recorded, else from its own clock. */
  function KeptProposal(last: Option<int>, o: Sighting): int
    requires o.period.Some?
  {
    Truncate((if last.Some? then last.value else o.now) + o.period.value)
  }

  ghost predicate IsEarliestKept(t: int, last: Option<int>, os: seq<Sighting>)
    requires forall i :: 0 <= i < |os| ==> os[i].period.Some?
  {
    && (exists i :: 0 <= i < |os| && t == KeptProposal(last, os[i]))
    && (forall i :: 0 <= i < |os| ==> t <= KeptProposal(last, os[i]))
  }

  /** Passes that keep the password can only bring the next rotation forward, to a time one of them proposes. */
  lemma {:induction false} ReusedStretch(s: Schedule, os: seq<Sighting>)
    requires Stored(s) && AllReuse(s, os)
    requires forall i :: 0 <= i < |os| ==> os[i].period.Some?
    ensures CompleteAll(s, os).last == s.last
    ensures var next := CompleteAll(s, os).next;
            && (os == [] ==> next == s.next)
            && (s.next.Some? || os != [] ==> next.Some?)
            && (s.next.Some? ==> next.value <= s.next.value)
            && (forall i :: 0 <= i < |os| ==> next.value <= KeptProposal(s.last, os[i]))
            && (next == s.next || exists i :: 0 <= i < |os| && next.value == KeptProposal(s.last, os[i]))
    decreases |os|
  {
    if os != [] {
      ReusedNext(s, os[0]);
      ReusedStretch(Complete(s, os[0]), os[1..]);
      var next := CompleteAll(s, os).next;
      assert forall i :: 1 <= i < |os| ==> os[i] == os[1..][i - 1];
      if next == s.next {
      } else if next == Complete(s, os[0]).next {
        assert next.value == KeptProposal(s.last, os[0]);
      } else {
        var i :| 0 <= i < |os[1..]| && next.value == KeptProposal(s.last, os[1..][i]);
        assert os[1..][i] == os[i + 1];
      }
    }
  }

  // ----- the schedule across passes without a period -----

  /** Whatever was stored before, a completed pass leaves a next rotation exactly when it saw a period. */
  lemma NextIffPeriod(s: Schedule, o: Sighting)
    ensures Complete(s, o).next.None? <==> o.period.None?
  {
  }

  /**
   * From any schedule, once a pass saw no period: after passes that keep the password and see one, the
   * next rotation is the earliest of what these propose. Nothing stored before the period was unset counts.
   */
  lemma NextSincePeriodSet(s: Schedule, unset: Sighting, os: seq<Sighting>)
    requires unset.period.None? && os != [] && AllReuse(Complete(s, unset), os)
    requires forall i :: 0 <= i < |os| ==> os[i].period.Some?
    ensures var last, r := Complete(s, unset).last, CompleteAll(s, [unset] + os);
            r.last == last && r.next.Some? && IsEarliestKept(r.next.value, last, os)
  {
    NextIffPeriod(s, unset);
    assert ([unset] + os)[1..] == os;
    ReusedStretch(Complete(s, unset), os);
  }

  /** With whole-second periods that is the recorded rotation plus the smallest period since. */
  lemma NextIsLastPlusSmallestSinceSet(s: Schedule, unset: Sighting, os: seq<Sighting>)
    requires unset.period.None? && os != [] && AllReuse(Complete(s, unset), os) && Complete(s, unset).last.Some?
    requires forall i :: 0 <= i < |os| ==> os[i].period.Some? && os[i].period.value % SECOND == 0
    ensures var r := CompleteAll(s, [unset] + os);
            r.last.Some? && r.next.Some? && IsSmallestPeriod(r.next.value - r.last.value, os)
  {
    NextSincePeriodSet(s, unset, os);
    var r := CompleteAll(s, [unset] + os);
    EarliestIsSmallest(r.next.value, r.last.value, os);
  }

  lemma EarliestIsSmallest(t: int, last: int, os: seq<Sighting>)
    requires forall i :: 0 <= i < |os| ==> os[i].period.Some? && os[i].period.value % SECOND == 0
    requires last % SECOND == 0 && IsEarliestKept(t, Some(last), os)
    ensures IsSmallestPeriod(t - last, os)
  {
    forall i | 0 <= i < |os|
      ensures KeptProposal(Some(last), os[i]) == last + os[i].period.value
    {
      TruncateFixesWhole(last + os[i].period.value);
    }
    var i :| 0 <= i < |os| && t == KeptProposal(Some(last), os[i]);
  }

  /** A period taken away at 30 s and set to an hour again: the rotation stored for 60 s is forgotten. */
  lemma UnsetForgetsNext()
    ensures var s := Schedule(Some(0), Some(60 * SECOND), "");
            var unset := Sighting(30 * SECOND, true, map[], None);
            var later := Sighting(61 * SECOND, true, map[], Some(3600 * SECOND));
            && Complete(s, unset) == Schedule(Some(0), None, "")
            && DecideOn(Complete(s, unset), later).action.Reuse?
            && Complete(Complete(s, unset), later).next == Some(3600 * SECOND)
  {
  }

  lemma RotatedComplete(s: Schedule, o: Sighting)
    requires !DecideOn(s, o).action.Reuse? && o.period.Some?
    ensures Complete(s, o).last == Some(Truncate(o.now))
    ensures Complete(s, o).next == Some(Truncate(o.now + o.period.value))
  {
  }

  lemma ReusedNext(s: Schedule, o: Sighting)
    requires Stored(s) && o.period.Some? && DecideOn(s, o).action.Reuse?
    ensures Complete(s, o).last == s.last
    ensures Complete(s, o).next ==
            Some(if s.next.Some? && s.next.value < KeptProposal(s.last, o) then s.next.value else KeptProposal(s.last, o))
  {
    if s.last.Some? {
      TruncateFixesWhole(s.last.value);
    }
    if s.next.Some? {
      var candidate := (if s.last.Some? then s.last.value else o.now) + o.period.value;
      TruncateFixesWhole(s.next.value);
      if s.next.value <= candidate {
        TruncateMonotone(s.next.value, candidate);
      } else {
        TruncateMonotone(candidate, s.next.value);
      }
    }
  }

  /** With whole-second periods that is the last rotation plus the smallest period since. */
  lemma NextIsLastPlusSmallestPeriod(s: Schedule, os: seq<Sighting>)
    requires SinceRotation(s, os)
    requires forall i :: 0 <= i < |os| ==> os[i].period.value % SECOND == 0
    ensures var r := CompleteAll(s, os);
            r.last.Some? && r.next.Some? && IsSmallestPeriod(r.next.value - r.last.value, os)
  {
    NextIsEarliestProposal(s, os);
    var r := CompleteAll(s, os);
    forall i | 0 <= i < |os|
      ensures Proposal(os, i) == r.last.value + os[i].period.value
    {
      WholeProposal(os[0].now, os[i].period.value);
    }
    var i :| 0 <= i < |os| && r.next.value == Proposal(os, i);
  }

  lemma WholeProposal(now: int, p: int)
    requires p % SECOND == 0
    ensures Truncate(p) == p && Truncate(now + p) == Truncate(now) + p
  {
    TruncateShift(p, now);
  }

  // ----- manual triggers -----

  /** How many passes rotated because of the rotate-at annotation. */
  function ManualRotations(s: Schedule, os: seq<Sighting>): nat
    decreases |os|
  {
    if os == [] then 0
    else
      (if DecideOn(s, os[0]).reason.ManualTriggerChanged? then 1 else 0)
      + ManualRotations(Complete(s, os[0]), os[1..])
  }

  /** The non-empty annotation values, in the order the passes saw them. */
  function Requests(os: seq<Sighting>): seq<string> {
    if os == [] then []
    else
      var v := ManualRequest(os[0].annotations);
      (if v == "" then [] else [v]) + Requests(os[1..])
  }

  /** How often the value changes along start, vs[0], vs[1], ... */
  function Changes(start: string, vs: seq<string>): nat
    decreases |vs|
  {
    if vs == [] then 0
    else (if vs[0] != start then 1 else 0) + Changes(vs[0], vs[1..])
  }

  /** Every new annotation value causes exactly one manual rotation, and nothing else does. */
  lemma {:induction false} ManualTriggersCountedExactly(s: Schedule, os: seq<Sighting>)
    requires forall i :: 0 <= i < |os| ==> os[i].hasPassword
    ensures ManualRotations(s, os) == Changes(s.trigger, Requests(os))
    decreases |os|
  {
    if os != [] {
      TriggerStep(s, os[0]);
      ManualTriggersCountedExactly(Complete(s, os[0]), os[1..]);
      var v, rest := ManualRequest(os[0].annotations), Requests(os[1..]);
      if v == "" {
        assert Requests(os) == rest;
      } else {
        assert ([v] + rest)[1..] == rest;
      }
    }
  }

  lemma TriggerStep(s: Schedule, o: Sighting)
    requires o.hasPassword
    ensures var v := ManualRequest(o.annotations);
            && Complete(s, o).trigger == (if v == "" then s.trigger else v)
            && (DecideOn(s, o).reason.ManualTriggerChanged? <==> v != "" && v != s.trigger)
  {
  }

  /**
   * A pass that finds no password generates one whatever the annotation says, and takes the pending
   * request with it: the same annotation does not rotate the new password.
   */
  lemma GenerationAbsorbsTrigger(s: Schedule, o: Sighting, later: Sighting)
    requires !o.hasPassword && later.hasPassword && later.annotations == o.annotations
    ensures DecideOn(s, o).action.Generate? && DecideOn(s, o).reason.PasswordMissing?
    ensures !DecideOn(Complete(s, o), later).reason.ManualTriggerChanged?
  {
  }

  // ----- password age -----

  /** When the current password was made, if `birth` or a pass of this run says so. */
  function BirthAfter(s: Schedule, birth: Option<int>, os: seq<Sighting>): Option<int>
    decreases |os|
  {
    if os == [] then birth
    else BirthAfter(Complete(s, os[0]), NextBirth(s, birth, os[0]), os[1..])
  }

  function NextBirth(s: Schedule, birth: Option<int>, o: Sighting): Option<int> {
    if DecideOn(s, o).action.Reuse? then birth else Some(o.now)
  }

  /** The status records the true rotation time, rounded down. */
  predicate RecordsBirth(s: Schedule, birth: Option<int>) {
    birth.Some? ==> s.last == Some(Truncate(birth.value))
  }

  /**
   * Over any sequence of completed passes, whatever the clock and the periods did before: once a pass with
   * a positive period completes, a password drawn by one of them is younger than that period. A draw whose
   * pass never completed is not among these; the module Ages covers those too.
   */
  lemma {:induction false} PasswordAgeBound(s: Schedule, birth: Option<int>, os: seq<Sighting>)
    requires Stored(s) && RecordsBirth(s, birth)
    requires os != [] && os[|os| - 1].period.Some? && os[|os| - 1].period.value > 0
    ensures var o := os[|os| - 1];
            var made := BirthAfter(s, birth, os);
            made.Some? ==> o.now - made.value < o.period.value
    decreases |os|
  {
    if |os| == 1 {
      assert BirthAfter(s, birth, os) == NextBirth(s, birth, os[0]);
    } else {
      BirthStep(s, birth, os[0]);
      PasswordAgeBound(Complete(s, os[0]), NextBirth(s, birth, os[0]), os[1..]);
    }
  }

  lemma BirthStep(s: Schedule, birth: Option<int>, o: Sighting)
    requires Stored(s) && RecordsBirth(s, birth)
    ensures RecordsBirth(Complete(s, o), NextBirth(s, birth, o))
  {
    if s.last.Some? {
      TruncateFixesWhole(s.last.value);
    }
  }

  /** A password that may be in place: not made after now, nor before the recorded rotation. */
  predicate MayBeBorn(s: Schedule, birth: int, now: int) {
    birth <= now && (s.last.Some? ==> s.last.value <= birth)
  }

  /**
   * What a pass can promise of a password whose draw it has not recorded itself. With a positive period
   * and a clock that has not gone back, whenever the password may have been made, it is younger than the
   * period after the pass, if and only if a rotation is recorded or the pass makes a new password.
   */
  lemma YoungForSureIff(s: Schedule, o: Sighting)
    requires o.period.Some? && o.period.value > 0 && (s.last.Some? ==> s.last.value <= o.now)
    ensures (forall birth :: MayBeBorn(s, birth, o.now) ==> o.now - NextBirth(s, Some(birth), o).value < o.period.value)
            <==> s.last.Some? || !KeepsPassword(s, o)
  {
    KeepsPasswordIff(s, o);
    if s.last.None? && KeepsPassword(s, o) {
      assert MayBeBorn(s, o.now - o.period.value, o.now);
    }
  }

  /** In memory the planned next rotation always lies ahead, and never beyond the last rotation plus the period. */
  lemma PlannedNextLiesAhead(s: Schedule, o: Sighting)
    requires o.period.Some? && o.period.value > 0
    ensures var p := Planned(s, DecideOn(s, o));
            && p.next.Some? && o.now < p.next.value
            && (p.last.Some? ==> p.next.value <= p.last.value + o.period.value)
  {
  }

  /** The current time lies before the stored next rotation and before the last rotation plus the period. */
  predicate NotYetDue(s: Schedule, o: Sighting)
    requires o.period.Some?
  {
    o.now < (if s.last.Some? then s.last.value else o.now) + o.period.value && (s.next.Some? ==> o.now < s.next.value)
  }

  /** There is a password, no new request, and nothing due. */
  predicate KeepsPassword(s: Schedule, o: Sighting) {
    && o.hasPassword
    && (ManualRequest(o.annotations) == "" || ManualRequest(o.annotations) == s.trigger)
    && (o.period.Some? ==> NotYetDue(s, o))
  }

  lemma KeepsPasswordIff(s: Schedule, o: Sighting)
    ensures DecideOn(s, o).action.Reuse? <==> KeepsPassword(s, o)
  {
  }

  /** What each reason says of the inputs, whichever branch gave it, and which action goes with it. */
  lemma ReasonMeans(s: Schedule, o: Sighting)
    ensures var d := DecideOn(s, o);
            var requested := ManualRequest(o.annotations) != "" && ManualRequest(o.annotations) != s.trigger;
            && (d.reason.PasswordMissing? <==> !o.hasPassword)
            && (d.reason.ManualTriggerChanged? <==> o.hasPassword && requested)
            && (d.reason.ScheduledRotationDue? <==> o.hasPassword && !requested && o.period.Some? && !NotYetDue(s, o))
            && (d.reason.PasswordCurrent? <==> KeepsPassword(s, o))
            && (d.action.Generate? <==> d.reason.PasswordMissing?) && (d.action.Reuse? <==> d.reason.PasswordCurrent?)
  {
  }

  /** The guard under which truncation does not pull the stored next rotation back to the present. */
  predicate KeepsStoredNextAhead(s: Schedule, o: Sighting)
    requires o.period.Some?
  {
    var base := if s.last.Some? then s.last.value else o.now;
    if KeepsPassword(s, o) && s.next.Some? && s.next.value <= base + o.period.value then
      true
    else if KeepsPassword(s, o) && s.last.Some? then
      (o.now - s.last.value) / SECOND < o.period.value / SECOND
    else
      o.now % SECOND + o.period.value >= SECOND
  }

  /** Exactly when the stored next rotation is still ahead of the clock after a completed pass. */
  lemma StoredNextAheadIff(s: Schedule, o: Sighting)
    requires Stored(s) && o.period.Some? && o.period.value > 0
    ensures Complete(s, o).next.Some?
    ensures o.now < Complete(s, o).next.value <==> KeepsStoredNextAhead(s, o)
  {
    var p := o.period.value;
    TruncateSum(o.now, p);
    if s.next.Some? {
      TruncateFixesWhole(s.next.value);
    }
    if s.last.Some? {
      TruncateShift(s.last.value, p);
      WholeSecondsBelow(o.now - s.last.value, p);
    }
    SumPassesNow(o.now, p);
    KeepsPasswordIff(s, o);
  }

  lemma WholeSecondsBelow(age: int, p: int)
    ensures age < Truncate(p) <==> age / SECOND < p / SECOND
  {
    assert Truncate(p) == p / SECOND * SECOND;
  }

  lemma SumPassesNow(now: int, p: int)
    requires p > 0
    ensures now < Truncate(now + p) <==> now % SECOND + p >= SECOND
  {
    var whole, f := Truncate(now), now % SECOND;
    TruncateShift(whole, f + p);
    assert now + p == whole + (f + p);
    if f + p < SECOND {
      assert Truncate(f + p) == 0;
    } else {
      TruncateMonotone(SECOND, f + p);
      TruncateFixesWhole(SECOND);
    }
  }

  /** Whole-second periods always meet the guard. */
  lemma WholePeriodsKeepNextAhead(s: Schedule, o: Sighting)
    requires Stored(s) && o.period.Some? && o.period.value > 0 && o.period.value % SECOND == 0
    ensures o.now < Complete(s, o).next.value
  {
    StoredNextAheadIff(s, o);
    TruncateFixesWhole(o.period.value);
    assert o.period.value >= SECOND;
  }

  /** A period of 1.5 s does not: the pass at 1.2 s keeps the password and stores a next rotation of 1 s. */
  lemma FractionalPeriodFallsBehind()
    ensures var s := Schedule(Some(0), None, "");
            var o := Sighting(1_200_000_000, true, map[], Some(1_500_000_000));
            DecideOn(s, o).action.Reuse? && Complete(s, o).next == Some(SECOND) && Complete(s, o).next.value < o.now
  {
  }

  // ----- fixed point -----

  /** A later pass finding the password, the same period and no new trigger, before the stored next rotation. */
  predicate QuietFollowUp(s: Schedule, first: Sighting, later: Sighting) {
    var r := Complete(s, first);
    && later.hasPassword
    && later.annotations == first.annotations
    && later.period == first.period
    && first.now <= later.now
    && (r.next.Some? ==> later.now < r.next.value)
  }

  /** The pass keeps the password, or its clock and period do not carry into one more second. */
  predicate Settles(s: Schedule, first: Sighting) {
    || KeepsPassword(s, first)
    || first.period.None?
    || first.now % SECOND + first.period.value % SECOND < SECOND
  }

  /** Exactly when a quiet follow-up keeps the password and stores the same schedule again. */
  lemma FixedPointIff(s: Schedule, first: Sighting, later: Sighting)
    requires Stored(s) && QuietFollowUp(s, first, later)
    ensures var r := Complete(s, first);
            Complete(r, later) == r && DecideOn(r, later).action.Reuse? <==> Settles(s, first)
  {
    KeepsPasswordIff(s, first);
    if DecideOn(s, first).action.Reuse? {
      ReusedSettles(s, first, later);
    } else {
      RotatedSettles(s, first, later);
    }
  }

  lemma ReusedSettles(s: Schedule, first: Sighting, later: Sighting)
    requires Stored(s) && QuietFollowUp(s, first, later)
    requires DecideOn(s, first).action.Reuse?
    ensures var r := Complete(s, first);
            Complete(r, later) == r && DecideOn(r, later).action.Reuse?
  {
    var r := Complete(s, first);
    if s.last.Some? {
      TruncateFixesWhole(s.last.value);
    }
    if r.next.Some? {
      TruncateFixesWhole(r.next.value);
    }
  }

  lemma RotatedSettles(s: Schedule, first: Sighting, later: Sighting)
    requires Stored(s) && QuietFollowUp(s, first, later)
    requires !DecideOn(s, first).action.Reuse?
    ensures var r := Complete(s, first);
            Complete(r, later) == r && DecideOn(r, later).action.Reuse? <==> Settles(s, first)
  {
    var r := Complete(s, first);
    TruncateFixesWhole(r.last.value);
    if first.period.Some? {
      var p := first.period.value;
      TruncateSum(first.now, p);
      TruncateShift(r.last.value, p);
      TruncateFixesWhole(r.next.value);
      var candidate := r.last.value + p;
      if !Settles(s, first) {
        assert Truncate(candidate) <= candidate < r.next.value;
        assert DecideOn(r, later).action.Reuse? ==> Complete(r, later).next == Some(Truncate(candidate));
      }
    }
  }

  /** A rotation at 0.9 s with a period of 1.5 s stores 2 s; the next pass moves it to 1 s. */
  lemma FractionalPeriodUnsettled()
    ensures var s := Schedule(None, None, "");
            var first := Sighting(900_000_000, false, map[], Some(1_500_000_000));
            var later := Sighting(1_000_000_000, true, map[], Some(1_500_000_000));
            && QuietFollowUp(s, first, later)
            && Complete(s, first).next == Some(2 * SECOND)
            && Complete(Complete(s, first), later).next == Some(SECOND)
  {
  }
}
