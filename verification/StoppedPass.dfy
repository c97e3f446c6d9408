/**
 * What a pass leaves behind that stops after writing the Secret and before its final status write: a
 * password of which no rotation is recorded, and which the next pass takes for new.
 */
module StoppedPass {
  import opened Prelude
  import opened Platform
  import opened Api
  import opened Cluster
  import opened Policy
  import opened Queries
  import opened QueryMeaning
  import opened TargetSecret
  import opened Protocol
  import opened FixedPoint
  import opened Convergence
  import Ages
  import Providers
  import Rotation
  import Schedules
  import SurrealQL

  /** The events of a pass up to its Secret write, and then a stop. */
  function Stopped(es: seq<Event>): seq<Event>
    requires |es| >= 11
  {
    es[..10] + [Crash]
  }

  lemma TraceReachesSecret(lib: Libraries, l: Live, ts: seq<State>, es: seq<Event>)
    requires Makes(lib, l, es) && ProperDigest(lib) && IsTrace(lib, ts, es) && ts[0].pass.Idle? && ts[0].world == l.w
    ensures ts[10].world == AfterSecret(lib, l)
  {
    assert ts[0 + 1] == Next(lib, ts[0], es[0]);
    LiveStart(lib, l, ts[0]);
    LiveAfter(lib, l, ts, es, 10);
  }

  lemma StoppedPassLeaves(lib: Libraries, l: Live, s: State, es: seq<Event>)
    requires s.pass.Idle? && s.world == l.w && Makes(lib, l, es) && ProperDigest(lib)
    ensures var t := Run(lib, s, Stopped(es)); t.pass.Idle? && t.world == AfterSecret(lib, l)
  {
    var ts := TraceOf(lib, s, es);
    TraceReachesSecret(lib, l, ts, es);
    RunToStop(lib, ts, es);
  }

  lemma RunToStop(lib: Libraries, ts: seq<State>, es: seq<Event>)
    requires IsTrace(lib, ts, es) && |es| >= 11
    ensures Run(lib, ts[0], Stopped(es)) == ts[10].(pass := Idle)
  {
    PrefixIsRun(lib, ts, es, 10);
    RunOneMore(lib, ts[0], es[..10], Crash);
  }

  lemma PrefixIsRun(lib: Libraries, ts: seq<State>, es: seq<Event>, n: nat)
    requires IsTrace(lib, ts, es) && n <= |es|
    ensures ts[n] == Run(lib, ts[0], es[..n])
  {
    forall i | 0 <= i < n
      ensures ts[..n + 1][i + 1] == Next(lib, ts[..n + 1][i], es[..n][i])
    {
      assert ts[i + 1] == Next(lib, ts[i], es[i]);
    }
    TraceIsRun(lib, ts[..n + 1], es[..n]);
  }

  lemma RunOneMore(lib: Libraries, s: State, es: seq<Event>, e: Event)
    ensures Run(lib, s, es + [e]) == Next(lib, Run(lib, s, es), e)
  {
    assert (es + [e])[..|es|] == es;
  }

  /** What the next pass sees of the same credential, once its Secret holds a password. */
  function SeenAgain(c: Credential, now: int): Rotation.Sighting {
    Rotation.Sighting(now, true, c.annotations, c.spec.period)
  }

  /** No Secret yet, no rotation recorded; and nothing asks for a new password by the time of the next pass. */
  predicate Unrecorded(l: Live, now: int)
    requires l.key in l.w.credentials
  {
    var c := Read(l);
    && TargetKey(l.key, c) !in l.w.secrets
    && c.status.lastRotation == None
    && Rotation.KeepsPassword(ScheduleOf(c.status), SeenAgain(c, now))
  }

  /** The next pass, over what the stopped one has left. */
  predicate Resumes(lib: Libraries, l: Live, later: Live)
    requires l.key in l.w.credentials
  {
    later == Live(AfterSecret(lib, l), l.key, l.policy, l.provider, l.r, later.now, later.drawn)
  }

  lemma ResumingCanLive(lib: Libraries, l: Live, later: Live)
    requires CanLive(lib, l) && Resumes(lib, l, later) && TargetKey(l.key, Read(l)) !in Providers.References(l.provider)
    ensures CanLive(lib, later) && Read(later) == Read(l)
  {
    SecretIsWritten(lib, l);
    SecretParts(lib, l);
    DesiredConnects(lib, l.key, Read(l), l.r, PlanOf(l).password);
    OtherSecretsStay(lib, l);
    OrderReadsReferences(lib, l.w.secrets, later.w.secrets, l.provider);
    Providers.MaterialIff(lib, l.w.secrets, l.provider);
    Providers.MaterialIff(lib, later.w.secrets, l.provider);
  }

  /** It finds a password and no recorded rotation, and keeps the password however old it is. */
  lemma ResumingKeepsPassword(lib: Libraries, l: Live, later: Live)
    requires l.key in l.w.credentials && Unrecorded(l, later.now) && Resumes(lib, l, later) && Read(later) == Read(l) && l.drawn != ""
    ensures PlanOf(l).password == l.drawn && PlanOf(l).seen.now == l.now && !PlanOf(l).decision.action.Reuse?
    ensures PlanOf(later).decision.action.Reuse? && PlanOf(later).password == l.drawn
    ensures PlanOf(later).seen == SeenAgain(Read(l), later.now)
  {
    SecretParts(lib, l);
    assert ScheduleOf(InMemory(later).status) == ScheduleOf(Read(l).status);
    Rotation.KeepsPasswordIff(ScheduleOf(Read(l).status), SeenAgain(Read(l), later.now));
  }

  /**
   * However long the delay, so for every period and every multiple of it: a first pass stops after its
   * Secret write, a second one is answered throughout, and Ready is stored over the password that the
   * first one drew.
   */
  lemma StoppedPassOutlivesPeriod(lib: Libraries, l: Live, later: Live, s: State, first: seq<Event>, second: seq<Event>)
    requires s.pass.Idle? && s.world == l.w && Makes(lib, l, first) && ProperDigest(lib)
    requires Unrecorded(l, later.now) && l.drawn != "" && TargetKey(l.key, Read(l)) !in Providers.References(l.provider)
    requires Read(l).spec.period.Some? && Read(l).spec.period.value > 0
    requires Resumes(lib, l, later) && later.now >= l.now + Read(l).spec.period.value
    requires AnsweredPass(l.key, second) && second[6].now == later.now && second[6].drawn == Some(later.drawn)
    ensures var t := Run(lib, s, Stopped(first) + second);
            && LeftReady(lib, later, t)
            && Ages.HoldsPassword(t.world, TargetKey(l.key, Read(l)), l.drawn)
            && second[6].now - first[6].now >= Read(l).spec.period.value
  {
    StoppedPassLeaves(lib, l, s, first);
    ResumingCanLive(lib, l, later);
    ResumingKeepsPassword(lib, l, later);
    RunTwice(lib, s, Stopped(first), second);
    AnsweredPassCompletes(lib, later, Run(lib, s, Stopped(first)), second);
    SpecAfter(lib, later);
  }

  lemma SpecAfter(lib: Libraries, l: Live)
    requires CanLive(lib, l)
    ensures var v := Outcome(lib, l.w, l.key, l.r, l.now, l.drawn);
            l.key in v.credentials && TargetKey(l.key, v.credentials[l.key]) == TargetKey(l.key, Read(l))
  {
    OutcomeParts(lib, l);
  }

  // ----- one such run -----

  const HOUR: int := 3600 * Rotation.SECOND
  const KEY: NamespacedName := NamespacedName("team", "app")
  const ROOT: NamespacedName := NamespacedName("ops", "root")
  const TENANT: PolicySpec := PolicySpec("main", "acme", [], [], true, [Viewer])
  const SERVER: ProviderSpec := ProviderSpec("wss://db", RootReference(ROOT, "", ""), None)

  /** A credential without a Secret, with this schedule stored. */
  function Waiting(st: Rotation.Schedule, annotations: map<string, string>, period: Option<int>): World {
    World(
      map[KEY := Credential("1", 0, 1, false, {FINALIZER}, annotations,
                            CredentialSpec("tenant", Namespace, "", [Viewer], "login", period), WithSchedule(BLANK, st))],
      map[ROOT := Secret(0, map[], [], OPAQUE, map["username" := "root", "password" := "secret"])],
      map[NamespacedName("team", "tenant") := TENANT], map["main" := SERVER], map[], {"1"}, 1)
  }

  const LOGIN: NamespacedName := NamespacedName("team", "login")

  /** A pass in which every call is answered at one reading of the clock. */
  function PassAt(now: int, drawn: string): (es: seq<Event>)
    ensures AnsweredPass(KEY, es) && |es| == 11 && es[6] == Proceed(NoFault, now, Some(drawn))
  {
    [Begin(KEY)] + seq(10, i => Proceed(NoFault, now, Some(drawn)))
  }

  /** Clock readings in order never go back. */
  lemma {:induction false} InOrderIsForward(start: int, es: seq<Event>)
    requires forall i :: 0 <= i < |es| && es[i].Proceed? ==> start <= es[i].now
    requires forall i, j :: 0 <= i < j < |es| && es[i].Proceed? && es[j].Proceed? ==> es[i].now <= es[j].now
    ensures Ages.Forward(start, es)
    ensures Ages.Clock(start, es) == start || exists i :: 0 <= i < |es| && es[i].Proceed? && Ages.Clock(start, es) == es[i].now
    decreases |es|
  {
    if es != [] {
      var n := |es| - 1;
      InOrderIsForward(start, es[..n]);
      if !es[n].Proceed? && Ages.Clock(start, es[..n]) != start {
        var i :| 0 <= i < n && es[..n][i].Proceed? && Ages.Clock(start, es[..n]) == es[..n][i].now;
        assert es[i].Proceed?;
      }
    }
  }

  lemma WaitingResolves(lib: Libraries, st: Rotation.Schedule, annotations: map<string, string>, period: Option<int>)
    ensures var w := Waiting(st, annotations, period); Resolve(lib, w, KEY, w.credentials[KEY]) == Some((TENANT, SERVER))
  {
    assert MissingRoles([Viewer], [Viewer]) == [];
  }

  lemma TenantIsNameable()
    ensures Nameable(UserTarget(Namespace, "acme", ""))
  {
    SurrealQL.SimpleIsPlain("acme");
    SurrealQL.PairsIffTerminated("acme");
    assert UsePrefix(UserTarget(Namespace, "acme", "")).Ok?;
  }

  lemma WaitingCanComplete(lib: Libraries, st: Rotation.Schedule, annotations: map<string, string>, period: Option<int>)
    ensures CanComplete(lib, Waiting(st, annotations, period), KEY, TENANT, SERVER)
  {
    WaitingResolves(lib, st, annotations, period);
    TenantIsNameable();
  }

  /** The stopped pass over such a credential, and the one that resumes. */
  function First(lib: Libraries, w: World, now: int): Live
    requires KEY in w.credentials
  {
    Live(w, KEY, TENANT, SERVER, ResolvedOf(lib, KEY, w.credentials[KEY], TENANT, SERVER), now, "first")
  }

  function Second(lib: Libraries, l: Live, now: int): Live
    requires l.key in l.w.credentials
  {
    Live(AfterSecret(lib, l), l.key, l.policy, l.provider, l.r, now, "second")
  }

  lemma WaitingNames(l: Live)
    requires l.key == KEY && l.provider == SERVER && KEY in l.w.credentials && Read(l).spec.targetSecret == "login"
    ensures TargetKey(l.key, Read(l)) == LOGIN && LOGIN !in Providers.References(l.provider)
  {
  }

  /**
   * With a period of one hour and a clock that never goes back, a password of ten hours is left in place
   * by a pass that stores Ready.
   */
  lemma TenHoursOld(lib: Libraries)
    requires ProperDigest(lib)
    ensures Ages.Forward(0, Stopped(PassAt(0, "first")) + PassAt(10 * HOUR, "second"))
    ensures var w := Waiting(Rotation.Schedule(None, None, ""), map[], Some(HOUR));
            var t := Run(lib, State(w, Idle, []), Stopped(PassAt(0, "first")) + PassAt(10 * HOUR, "second"));
            && KEY in t.world.credentials && IsReady(t.world.credentials[KEY])
            && Ages.HoldsPassword(t.world, LOGIN, "first")
  {
    InOrderIsForward(0, Stopped(PassAt(0, "first")) + PassAt(10 * HOUR, "second"));
    var st, w := Rotation.Schedule(None, None, ""), Waiting(Rotation.Schedule(None, None, ""), map[], Some(HOUR));
    WaitingCanComplete(lib, st, map[], Some(HOUR));
    var l := First(lib, w, 0);
    WaitingNames(l);
    StoppedPassOutlivesPeriod(lib, l, Second(lib, l, 10 * HOUR), State(w, Idle, []), PassAt(0, "first"), PassAt(10 * HOUR, "second"));
  }

  // ----- which stored schedules bound the age -----

  /** A run ends in the completed pass that finds this schedule stored and sees this. */
  ghost predicate Situation(lib: Libraries, s: State, es: seq<Event>, e: Event, key: NamespacedName, k: NamespacedName, start: int,
                            st: Rotation.Schedule, seen: Rotation.Sighting)
  {
    var t := Run(lib, s, es);
    && Ages.Starts(s, key, k, start) && Ages.Forward(start, es) && Ages.AllKeepTarget(key, k, es)
    && Schedules.Completes(t, key, e)
    && ScheduleOf(t.world.credentials[key].status) == st && t.pass.plan.seen == seen
  }

  /** The password in the Secret, if a pass of the run drew it, is younger than the period. */
  predicate Young(lib: Libraries, s: State, es: seq<Event>, k: NamespacedName, seen: Rotation.Sighting)
    requires seen.period.Some?
  {
    var b := Ages.BirthIn(lib, s, es, k);
    b.Some? ==> seen.now - b.value.at < seen.period.value
  }

  /** At its Secret write, and right after it. */
  lemma WritingStages(lib: Libraries, l: Live, ts: seq<State>, es: seq<Event>)
    requires Makes(lib, l, es) && ProperDigest(lib) && IsTrace(lib, ts, es) && ts[0].pass.Idle? && ts[0].world == l.w
    ensures Writing(lib, l, 9, ts[9]) && Writing(lib, l, 10, ts[10]) && Answered(es[9])
  {
    assert ts[0 + 1] == Next(lib, ts[0], es[0]);
    LiveStart(lib, l, ts[0]);
    LiveAfter(lib, l, ts, es, 9);
    LiveAfter(lib, l, ts, es, 10);
  }

  /** The draw of the stopped pass is behind the Secret. */
  lemma StoppedBirth(lib: Libraries, l: Live, ts: seq<State>, es: seq<Event>, k: NamespacedName)
    requires Makes(lib, l, es) && ProperDigest(lib) && IsTrace(lib, ts, es) && ts[0].pass.Idle? && ts[0].world == l.w
    requires k == TargetKey(l.key, Read(l)) && !PlanOf(l).decision.action.Reuse?
    ensures Ages.BirthIn(lib, ts[0], Stopped(es), k) == Some(Ages.Birth(PlanOf(l).password, PlanOf(l).seen.now))
  {
    WritingStages(lib, l, ts, es);
    WrittenBirth(lib, l, ts, es, k);
    PrefixIsRun(lib, ts, es, 10);
    BirthOneMore(lib, ts[0], es[..10], Crash, k);
    SecretParts(lib, l);
    StopKeepsBirth(lib, l, ts[10], k, Ages.BirthIn(lib, ts[0], es[..10], k));
  }

  lemma WrittenBirth(lib: Libraries, l: Live, ts: seq<State>, es: seq<Event>, k: NamespacedName)
    requires l.key in l.w.credentials && IsTrace(lib, ts, es) && |es| >= 11 && Writing(lib, l, 9, ts[9]) && Answered(es[9])
    requires k == TargetKey(l.key, Read(l)) && !PlanOf(l).decision.action.Reuse?
    ensures Ages.BirthIn(lib, ts[0], es[..10], k) == Some(Ages.Birth(PlanOf(l).password, PlanOf(l).seen.now))
  {
    PrefixIsRun(lib, ts, es, 9);
    BirthOneMore(lib, ts[0], es[..9], es[9], k);
    assert es[..9] + [es[9]] == es[..10];
    WritesAtSecret(lib, l, ts[9], es[9], k);
  }

  lemma StopKeepsBirth(lib: Libraries, l: Live, t: State, k: NamespacedName, b: Option<Ages.Birth>)
    requires l.key in l.w.credentials && Writing(lib, l, 10, t) && k in AfterSecret(lib, l).secrets
    ensures Ages.BirthAfter(lib, t, Crash, k, b) == b
  {
  }

  lemma WritesAtSecret(lib: Libraries, l: Live, t: State, e: Event, k: NamespacedName)
    requires l.key in l.w.credentials && Writing(lib, l, 9, t) && Answered(e) && k == TargetKey(l.key, Read(l))
    ensures Ages.Writes(lib, t, e, k) && t.pass.plan == PlanOf(l)
  {
    SecretIsWritten(lib, l);
  }

  lemma BirthOneMore(lib: Libraries, s: State, es: seq<Event>, e: Event, k: NamespacedName)
    ensures Ages.BirthIn(lib, s, es + [e], k) == Ages.BirthAfter(lib, Run(lib, s, es), e, k, Ages.BirthIn(lib, s, es, k))
  {
    assert (es + [e])[..|es|] == es;
  }

  lemma RunIntoSecond(lib: Libraries, s: State, before: seq<Event>, ts: seq<State>, es: seq<Event>, n: nat)
    requires IsTrace(lib, ts, es) && n <= |es| && ts[0] == Run(lib, s, before)
    ensures Run(lib, s, before + es[..n]) == ts[n]
  {
    RunTwice(lib, s, before, es[..n]);
    PrefixIsRun(lib, ts, es, n);
  }

  /** A pass that keeps the password keeps its draw. */
  lemma {:induction false} ResumedBirth(lib: Libraries, later: Live, s: State, before: seq<Event>, ts: seq<State>, es: seq<Event>,
                                        k: NamespacedName, n: nat)
    requires Makes(lib, later, es) && ProperDigest(lib) && IsTrace(lib, ts, es) && n <= 10
    requires ts[0] == Run(lib, s, before) && ts[0].pass.Idle? && ts[0].world == later.w
    requires k == TargetKey(later.key, Read(later)) && k in later.w.secrets && PlanOf(later).decision.action.Reuse?
    ensures Ages.BirthIn(lib, s, before + es[..n], k) == Ages.BirthIn(lib, s, before, k)
    decreases n
  {
    if n == 0 {
      assert before + es[..0] == before;
    } else {
      ResumedBirth(lib, later, s, before, ts, es, k, n - 1);
      BirthOneCallOn(lib, s, before, ts, es, k, n - 1);
      ResumedCallKeepsBirth(lib, later, ts, es, k, n - 1, Ages.BirthIn(lib, s, before, k));
    }
  }

  lemma BirthOneCallOn(lib: Libraries, s: State, before: seq<Event>, ts: seq<State>, es: seq<Event>, k: NamespacedName, n: nat)
    requires IsTrace(lib, ts, es) && n < |es| && ts[0] == Run(lib, s, before)
    ensures Ages.BirthIn(lib, s, before + es[..n + 1], k)
         == Ages.BirthAfter(lib, ts[n], es[n], k, Ages.BirthIn(lib, s, before + es[..n], k))
  {
    RunIntoSecond(lib, s, before, ts, es, n);
    OneMore(before, es, n);
    BirthOneMore(lib, s, before + es[..n], es[n], k);
  }

  lemma OneMore(before: seq<Event>, es: seq<Event>, n: nat)
    requires n < |es|
    ensures (before + es[..n]) + [es[n]] == before + es[..n + 1]
  {
    assert es[..n] + [es[n]] == es[..n + 1];
  }

  lemma ResumedCallKeepsBirth(lib: Libraries, later: Live, ts: seq<State>, es: seq<Event>, k: NamespacedName, n: nat, b: Option<Ages.Birth>)
    requires Makes(lib, later, es) && ProperDigest(lib) && IsTrace(lib, ts, es) && n < 10
    requires ts[0].pass.Idle? && ts[0].world == later.w
    requires k == TargetKey(later.key, Read(later)) && k in later.w.secrets && PlanOf(later).decision.action.Reuse?
    ensures Ages.BirthAfter(lib, ts[n], es[n], k, b) == b
  {
    assert ts[n + 1] == Next(lib, ts[n], es[n]);
    ResumedPlan(lib, later, ts, es, n);
    ResumedHasSecret(lib, later, ts, es, k, n + 1);
    ReuseKeepsBirth(lib, ts[n], es[n], k, b);
  }

  lemma ResumedPlan(lib: Libraries, later: Live, ts: seq<State>, es: seq<Event>, n: nat)
    requires Makes(lib, later, es) && ProperDigest(lib) && IsTrace(lib, ts, es) && n < 10
    requires ts[0].pass.Idle? && ts[0].world == later.w
    ensures ts[n].pass.WriteSecret? ==> ts[n].pass.plan == PlanOf(later)
  {
    if n > 0 {
      assert ts[0 + 1] == Next(lib, ts[0], es[0]);
      LiveStart(lib, later, ts[0]);
      LiveAfter(lib, later, ts, es, n);
      WritesItsPlan(lib, later, n, ts[n]);
    }
  }

  lemma ResumedHasSecret(lib: Libraries, later: Live, ts: seq<State>, es: seq<Event>, k: NamespacedName, n: nat)
    requires Makes(lib, later, es) && ProperDigest(lib) && IsTrace(lib, ts, es) && 1 <= n <= 10
    requires ts[0].pass.Idle? && ts[0].world == later.w
    requires k == TargetKey(later.key, Read(later)) && k in later.w.secrets
    ensures k in ts[n].world.secrets
  {
    assert ts[0 + 1] == Next(lib, ts[0], es[0]);
    LiveStart(lib, later, ts[0]);
    LiveAfter(lib, later, ts, es, n);
    SecretParts(lib, later);
    LiveHasSecret(lib, later, n, ts[n], k);
  }

  lemma ReuseKeepsBirth(lib: Libraries, s: State, e: Event, k: NamespacedName, b: Option<Ages.Birth>)
    requires !e.Outside? && k in Next(lib, s, e).world.secrets
    requires s.pass.WriteSecret? ==> s.pass.plan.decision.action.Reuse?
    ensures Ages.BirthAfter(lib, s, e, k, b) == b
  {
  }

  lemma LiveHasSecret(lib: Libraries, l: Live, n: nat, t: State, k: NamespacedName)
    requires l.key in l.w.credentials && 1 <= n <= 10 && LiveAt(lib, l, n, t)
    requires k in l.w.secrets && k in AfterSecret(lib, l).secrets
    ensures k in t.world.secrets
  {
  }

  lemma WritesItsPlan(lib: Libraries, l: Live, n: nat, t: State)
    requires l.key in l.w.credentials && 1 <= n <= 10 && LiveAt(lib, l, n, t)
    ensures t.pass.WriteSecret? ==> t.pass.plan == PlanOf(l)
  {
  }

  lemma WaitingStarts(st: Rotation.Schedule, annotations: map<string, string>, period: Option<int>, start: int)
    requires Rotation.Stored(st) && st.last.None?
    ensures Ages.Starts(State(Waiting(st, annotations, period), Idle, []), KEY, LOGIN, start)
  {
  }

  lemma OwnEventsKeepTarget(es: seq<Event>, key: NamespacedName, k: NamespacedName)
    requires forall i :: 0 <= i < |es| ==> !es[i].Outside?
    ensures Ages.AllKeepTarget(key, k, es)
  {
  }

  /** The clock the stopped pass reads, and the events up to the final write of the one that resumes. */
  function OldStart(seen: Rotation.Sighting): int
    requires seen.period.Some?
  {
    seen.now - seen.period.value
  }

  function OldEvents(seen: Rotation.Sighting): seq<Event>
    requires seen.period.Some?
  {
    Stopped(PassAt(OldStart(seen), "first")) + PassAt(seen.now, "second")[..10]
  }

  lemma OldEventsAreOrderly(seen: Rotation.Sighting)
    requires seen.period.Some? && seen.period.value > 0
    ensures Ages.Forward(OldStart(seen), OldEvents(seen)) && Ages.AllKeepTarget(KEY, LOGIN, OldEvents(seen))
  {
    InOrderIsForward(OldStart(seen), OldEvents(seen));
    OwnEventsKeepTarget(OldEvents(seen), KEY, LOGIN);
  }

  /** Both passes over such a credential, as lives. */
  lemma OldLives(lib: Libraries, st: Rotation.Schedule, seen: Rotation.Sighting) returns (l: Live, later: Live)
    requires ProperDigest(lib) && seen.period.Some? && st.last.None? && Rotation.KeepsPassword(st, seen)
    ensures l == First(lib, Waiting(st, seen.annotations, seen.period), OldStart(seen)) && later == Second(lib, l, seen.now)
    ensures Makes(lib, l, PassAt(OldStart(seen), "first")) && Makes(lib, later, PassAt(seen.now, "second"))
    ensures PlanOf(l).seen.now == OldStart(seen) && !PlanOf(l).decision.action.Reuse?
    ensures PlanOf(later).decision.action.Reuse? && PlanOf(later).seen == seen
    ensures TargetKey(KEY, Read(l)) == LOGIN && TargetKey(KEY, Read(later)) == LOGIN && ScheduleOf(Read(later).status) == st
    ensures later.w.credentials == l.w.credentials && LOGIN in later.w.secrets
  {
    l := First(lib, Waiting(st, seen.annotations, seen.period), OldStart(seen));
    later := Second(lib, l, seen.now);
    WaitingCanComplete(lib, st, seen.annotations, seen.period);
    WaitingNames(l);
    assert ScheduleOf(Read(l).status) == st && SeenAgain(Read(l), seen.now) == seen;
    ResumingCanLive(lib, l, later);
    ResumingKeepsPassword(lib, l, later);
    SecretIsWritten(lib, l);
    SecretParts(lib, l);
  }

  /** The run that reaches a schedule without a recorded rotation over a password as old as the period. */
  lemma OldSituation(lib: Libraries, st: Rotation.Schedule, seen: Rotation.Sighting)
    requires ProperDigest(lib) && Rotation.Stored(st) && seen.period.Some? && seen.period.value > 0
    requires st.last.None? && Rotation.KeepsPassword(st, seen)
    ensures var s, e := State(Waiting(st, seen.annotations, seen.period), Idle, []), PassAt(seen.now, "second")[10];
            Situation(lib, s, OldEvents(seen), e, KEY, LOGIN, OldStart(seen), st, seen) && !Young(lib, s, OldEvents(seen), LOGIN, seen)
  {
    var s := State(Waiting(st, seen.annotations, seen.period), Idle, []);
    var first, second := PassAt(OldStart(seen), "first"), PassAt(seen.now, "second");
    var l, later := OldLives(lib, st, seen);
    StoppedPassLeaves(lib, l, s, first);
    var ts := TraceOf(lib, s, first);
    StoppedBirth(lib, l, ts, first, LOGIN);
    var us := TraceOf(lib, Run(lib, s, Stopped(first)), second);
    ResumedBirth(lib, later, s, Stopped(first), us, second, LOGIN, 10);
    RunIntoSecond(lib, s, Stopped(first), us, second, 10);
    ResumedPersists(lib, later, us, second);
    WaitingStarts(st, seen.annotations, seen.period, OldStart(seen));
    OldEventsAreOrderly(seen);
  }

  lemma ResumedPersists(lib: Libraries, later: Live, ts: seq<State>, es: seq<Event>)
    requires Makes(lib, later, es) && ProperDigest(lib) && IsTrace(lib, ts, es) && ts[0].pass.Idle? && ts[0].world == later.w
    ensures Schedules.Completes(ts[10], later.key, es[10]) && ts[10].pass.plan == PlanOf(later)
    ensures ts[10].world.credentials == later.w.credentials
  {
    assert ts[0 + 1] == Next(lib, ts[0], es[0]);
    LiveStart(lib, later, ts[0]);
    LiveAfter(lib, later, ts, es, 10);
    SecretIsWritten(lib, later);
    assert Answered(es[10]);
  }

  /**
   * The exact condition. With a positive period and a clock that does not go back, every completed pass
   * of every run that finds this schedule stored leaves a password younger than the period, if and only if
   * the schedule records a rotation or the pass makes a new password.
   */
  lemma AgeIsBoundedIff(lib: Libraries, st: Rotation.Schedule, seen: Rotation.Sighting)
    requires ProperDigest(lib) && Rotation.Stored(st) && seen.period.Some? && seen.period.value > 0
    ensures (forall s, es, e, key, k, start :: Situation(lib, s, es, e, key, k, start, st, seen) ==> Young(lib, s, es, k, seen))
            <==> st.last.Some? || !Rotation.KeepsPassword(st, seen)
  {
    if st.last.Some? || !Rotation.KeepsPassword(st, seen) {
      forall s, es, e, key, k, start | Situation(lib, s, es, e, key, k, start, st, seen)
        ensures Young(lib, s, es, k, seen)
      {
        Ages.CompletedPassBoundsAge(lib, s, es, e, key, k, start);
      }
    } else {
      OldSituation(lib, st, seen);
    }
  }
}
