/**
 * The statuses of whole runs: each one a pass stores is a report on the object it read, over the status
 * that was there.
 */
module Statuses {
  import opened Prelude
  import opened Platform
  import opened Api
  import opened Cluster
  import opened Protocol
  import opened Resolution
  import opened Grounds
  import opened Reports
  import Rotation
  import Schedules

  function AcceptedMarks(generation: int): Conditions {
    map["PolicyAccepted" := Condition(True, "Allowed", generation)]
  }

  function DefinedMarks(generation: int): Conditions {
    map["PolicyAccepted" := Condition(True, "Allowed", generation),
        "UserDefined" := Condition(True, "DefineUserSucceeded", generation)]
  }

  function DoneMarks(generation: int): Conditions {
    map["PolicyAccepted" := Condition(True, "Allowed", generation),
        "UserDefined" := Condition(True, "DefineUserSucceeded", generation),
        "SecretReady" := Condition(True, "SecretWritten", generation),
        "Ready" := Condition(True, "Reconciled", generation)]
  }

  /** The status of the object read, naming the target found, with these conditions set. */
  function Naming(b: Credential, found: Resolved, marks: Conditions): CredentialStatus {
    b.status.(
      observedGeneration := b.generation,
      providerRef := Some(found.policy.providerRef),
      surrealNamespace := found.policy.surrealNamespace,
      database := b.spec.database,
      username := found.username,
      conditions := b.status.conditions + marks)
  }

  /** A refusal before the target was located, or after it. */
  ghost predicate Refusal(lib: Libraries, r: Reads, key: NamespacedName, b: Credential, st: CredentialStatus) {
    || (exists x :: st == b.status.(observedGeneration := b.generation, conditions := b.status.conditions + Told(x, b.generation)))
    || (exists x, found ::
          && Stood(lib, r, key, b, found)
          && (st == Naming(b, found, AcceptedMarks(b.generation) + Told(x, b.generation))
              || st == Naming(b, found, DefinedMarks(b.generation) + Told(x, b.generation))))
  }

  // ----- what a pass has to tell -----

  /** Stages that hold the object as it was read. */
  predicate Untold(pass: Pass) {
    pass.GetPolicy? || PolicyPassed(pass) || pass.ConnectToRemove? || pass.RemoveUser? || pass.DeleteSecret? || pass.ForcedDelete?
  }

  predicate NamesTarget(pass: Pass) {
    pass.GetTarget? || pass.Connect? || pass.Define?
  }

  /** The object in memory came back from a write, and is what is stored under its version. */
  predicate Echoes(w: World, pass: Pass)
    requires pass.WriteStatus?
  {
    pass.cred.version < w.revision && (IsFresh(w, pass.key, pass.cred) ==> w.credentials[pass.key] == pass.cred)
  }

  ghost predicate Telling(lib: Libraries, r: Reads, w: World, pass: Pass) {
    && (HoldsObject(pass) ==>
          && WasRead(r, pass.key)
          && var b := AsRead(r, pass.key);
             && (Untold(pass) ==> pass.cred == b)
             && (NamesTarget(pass) ==> pass.cred.status == Naming(b, pass.resolved, AcceptedMarks(b.generation)))
             && (pass.WriteSecret? ==> pass.cred.status == Naming(b, pass.resolved, DefinedMarks(b.generation)))
             && (pass.PersistReady? ==>
                   pass.cred.status == WithSchedule(Naming(b, pass.resolved, DoneMarks(b.generation)),
                                                    Rotation.Planned(ScheduleOf(b.status), pass.plan.decision))))
    && (pass.WriteStatus? ==>
          || Echoes(w, pass)
          || (Holds(r, w, pass.key, pass.cred) && Refusal(lib, r, pass.key, AsRead(r, pass.key), pass.cred.status)))
  }

  lemma TellingObserves(lib: Libraries, r: Reads, w: World, pass: Pass)
    requires Grounded(lib, r, w, pass) && Telling(lib, r, w, pass)
    ensures Observing(pass)
  {
  }

  // ----- refusals -----

  lemma MoreMarks(cs: Conditions, marks: Conditions, more: Conditions)
    ensures (cs + marks) + more == cs + (marks + more)
  {
  }

  /** A call after the first read keeps what was read of the credential, and all of it once the target is located. */
  predicate KeepsReads(r: Reads, later: Reads, p: Pass) {
    later.credential == r.credential && (!Untold(p) ==> later == r)
  }

  /** The refusal of a pass that has told nothing yet, and of one that has located its target. */
  lemma RefusalIsReport(lib: Libraries, r: Reads, later: Reads, w: World, p: Pass, d: Credential, x: Trouble)
    requires HoldsObject(p) && !p.PersistReady? && Grounded(lib, r, w, p) && Telling(lib, r, w, p) && KeepsReads(r, later, p)
    requires Tells(p.cred, d, Told(x, p.cred.generation))
    ensures Holds(later, w, p.key, d) && Refusal(lib, later, p.key, AsRead(later, p.key), d.status)
  {
    var b := AsRead(r, p.key);
    if Untold(p) {
    } else {
      var marks := if p.WriteSecret? then DefinedMarks(b.generation) else AcceptedMarks(b.generation);
      MoreMarks(b.status.conditions, marks, Told(x, b.generation));
      assert Stood(lib, r, p.key, b, p.resolved);
      assert d.status == Naming(b, p.resolved, marks + Told(x, b.generation));
    }
  }

  lemma RefusalStaysTelling(lib: Libraries, r: Reads, later: Reads, s: State, t: State, x: Trouble)
    requires HoldsObject(s.pass) && !s.pass.PersistReady? && KeepsReads(r, later, s.pass)
    requires Grounded(lib, r, s.world, s.pass) && Telling(lib, r, s.world, s.pass)
    requires t.pass.WriteStatus? && t.pass.key == s.pass.key && Tells(s.pass.cred, t.pass.cred, Told(x, s.pass.cred.generation))
    requires t.world.credentials == s.world.credentials && s.world.revision <= t.world.revision
    ensures Telling(lib, later, t.world, t.pass)
  {
    RefusalIsReport(lib, r, later, s.world, s.pass, t.pass.cred, x);
  }

  /** What every call of a pass that holds its object does to the credentials: nothing, but for the final write. */
  lemma HoldingCallLeaves(lib: Libraries, s: State, e: Event)
    requires e.Proceed? && HoldsObject(s.pass) && !s.pass.PersistReady?
    ensures var t := Next(lib, s, e); t.world.credentials == s.world.credentials && s.world.revision <= t.world.revision
  {
    if s.pass.WriteSecret? {
      SecretWriteLeaves(lib, s.world, s.pass, e.fault);
    } else if s.pass.Define? || s.pass.RemoveUser? {
    } else if s.pass.ForcedDelete? || s.pass.DeleteSecret? {
    } else {
      HoldingReadLeaves(lib, s, e);
    }
  }

  lemma HoldingReadLeaves(lib: Libraries, s: State, e: Event)
    requires e.Proceed?
    requires s.pass.GetPolicy? || PolicyPassed(s.pass) || s.pass.GetTarget? || s.pass.Connect? || s.pass.ConnectToRemove?
    ensures Next(lib, s, e).world == s.world
  {
  }

  lemma RefusingStaysTelling(lib: Libraries, r: Reads, s: State, e: Event)
    requires HoldsObject(s.pass) && !s.pass.PersistReady? && e.Proceed? && WellResolved(s.pass)
    requires Grounded(lib, r, s.world, s.pass) && Telling(lib, r, s.world, s.pass) && Next(lib, s, e).pass.WriteStatus?
    ensures Telling(lib, ReadsAfter(r, s, e), Next(lib, s, e).world, Next(lib, s, e).pass)
  {
    TellingObserves(lib, r, s.world, s.pass);
    HoldingCallLeaves(lib, s, e);
    var x := TroubleOf(lib, s, e);
    RefusalStaysTelling(lib, r, ReadsAfter(r, s, e), s, Next(lib, s, e), x);
  }

  lemma TroubleOf(lib: Libraries, s: State, e: Event) returns (x: Trouble)
    requires e.Proceed? && !s.pass.WriteStatus? && Observing(s.pass) && WellResolved(s.pass) && Next(lib, s, e).pass.WriteStatus?
    ensures var q := Next(lib, s, e).pass; q.key == s.pass.key && Tells(s.pass.cred, q.cred, Told(x, s.pass.cred.generation))
  {
    TroublesAreTold(lib, s, e, PolicyMissing);
    x :| Troubles(lib, s, e, x);
    TroublesAreTold(lib, s, e, x);
  }

  // ----- going on -----

  predicate GoesOn(lib: Libraries, s: State, e: Event) {
    !Next(lib, s, e).pass.WriteStatus?
  }

  /** Reads before the target is located, and all of a deletion, keep the object as it was read. */
  lemma UntoldGoesOn(lib: Libraries, s: State, e: Event)
    requires e.Proceed? && Untold(s.pass) && !s.pass.GetTls? && GoesOn(lib, s, e)
    ensures var q := Next(lib, s, e).pass;
            HoldsObject(q) ==> Untold(q) && q.key == s.pass.key && q.cred == s.pass.cred
  {
  }

  lemma LocatingTells(lib: Libraries, s: State, e: Event)
    requires e.Proceed? && s.pass.GetTls? && GoesOn(lib, s, e)
    ensures var q, b := Next(lib, s, e).pass, s.pass.cred;
            && q.key == s.pass.key
            && (q.ConnectToRemove? ==> q.cred == b)
            && (!q.ConnectToRemove? ==> q.GetTarget? && q.cred.status == Naming(b, q.resolved, AcceptedMarks(b.generation)))
  {
    OneMark(s.pass.cred.status.conditions, "PolicyAccepted", Condition(True, "Allowed", s.pass.cred.generation));
  }

  lemma PlanningTells(lib: Libraries, s: State, e: Event)
    requires e.Proceed? && (s.pass.GetTarget? || s.pass.Connect?) && GoesOn(lib, s, e)
    ensures var q := Next(lib, s, e).pass;
            HoldsObject(q) ==> NamesTarget(q) && q.key == s.pass.key && q.cred == s.pass.cred && q.resolved == s.pass.resolved
  {
  }

  lemma DefiningTells(lib: Libraries, s: State, e: Event)
    requires e.Proceed? && s.pass.Define? && GoesOn(lib, s, e)
    ensures var q, c := Next(lib, s, e).pass, s.pass.cred;
            && q.WriteSecret? && q.key == s.pass.key && q.resolved == s.pass.resolved
            && q.cred.status == c.status.(conditions := c.status.conditions["UserDefined" := Condition(True, "DefineUserSucceeded", c.generation)])
  {
  }

  lemma WritingTells(lib: Libraries, s: State, e: Event)
    requires e.Proceed? && s.pass.WriteSecret? && GoesOn(lib, s, e)
    ensures var q, c := Next(lib, s, e).pass, s.pass.cred;
            && q.PersistReady? && q.key == s.pass.key && q.resolved == s.pass.resolved && q.plan == s.pass.plan
            && q.cred.status ==
               WithSchedule(c.status.(conditions := c.status.conditions["SecretReady" := Condition(True, "SecretWritten", c.generation)]
                                                                       ["Ready" := Condition(True, "Reconciled", c.generation)]),
                            Rotation.Planned(ScheduleOf(c.status), q.plan.decision))
  {
  }

  lemma MarksAddUp(cs: Conditions, g: int)
    ensures (cs + AcceptedMarks(g))["UserDefined" := Condition(True, "DefineUserSucceeded", g)] == cs + DefinedMarks(g)
    ensures (cs + DefinedMarks(g))["SecretReady" := Condition(True, "SecretWritten", g)]["Ready" := Condition(True, "Reconciled", g)]
            == cs + DoneMarks(g)
  {
  }

  /** The pass goes on with the object as it was read, or just names its target. */
  lemma EarlyGoesOn(lib: Libraries, r: Reads, s: State, e: Event)
    requires e.Proceed? && Untold(s.pass) && GoesOn(lib, s, e)
    requires Grounded(lib, r, s.world, s.pass) && Telling(lib, r, s.world, s.pass)
    ensures Telling(lib, ReadsAfter(r, s, e), Next(lib, s, e).world, Next(lib, s, e).pass)
  {
    if s.pass.GetTls? {
      LocatingTells(lib, s, e);
    } else {
      UntoldGoesOn(lib, s, e);
    }
  }

  lemma SamePlanTells(lib: Libraries, r: Reads, w: World, p: Pass, v: World, q: Pass)
    requires NamesTarget(p) && WasRead(r, p.key) && Telling(lib, r, w, p) && !q.WriteStatus?
    requires HoldsObject(q) ==> NamesTarget(q) && q.key == p.key && q.cred == p.cred && q.resolved == p.resolved
    ensures Telling(lib, r, v, q)
  {
  }

  lemma DefinedTells(lib: Libraries, r: Reads, w: World, p: Pass, v: World, q: Pass)
    requires p.Define? && WasRead(r, p.key) && Telling(lib, r, w, p) && Holds(r, w, p.key, p.cred)
    requires q.WriteSecret? && q.key == p.key && q.resolved == p.resolved
    requires q.cred.status == p.cred.status.(conditions :=
               p.cred.status.conditions["UserDefined" := Condition(True, "DefineUserSucceeded", p.cred.generation)])
    ensures Telling(lib, r, v, q)
  {
    var b := AsRead(r, p.key);
    MarksAddUp(b.status.conditions, b.generation);
  }

  lemma WrittenTells(lib: Libraries, r: Reads, w: World, p: Pass, v: World, q: Pass)
    requires p.WriteSecret? && WasRead(r, p.key) && Telling(lib, r, w, p) && Holds(r, w, p.key, p.cred)
    requires q.PersistReady? && q.key == p.key && q.resolved == p.resolved && q.plan == p.plan
    requires q.cred.status ==
             WithSchedule(p.cred.status.(conditions :=
                            p.cred.status.conditions["SecretReady" := Condition(True, "SecretWritten", p.cred.generation)]
                                                    ["Ready" := Condition(True, "Reconciled", p.cred.generation)]),
                          Rotation.Planned(ScheduleOf(p.cred.status), q.plan.decision))
    ensures Telling(lib, r, v, q)
  {
    var b := AsRead(r, p.key);
    MarksAddUp(b.status.conditions, b.generation);
    assert ScheduleOf(p.cred.status) == ScheduleOf(b.status);
  }

  lemma LateGoesOn(lib: Libraries, r: Reads, s: State, e: Event)
    requires e.Proceed? && (NamesTarget(s.pass) || s.pass.WriteSecret?) && GoesOn(lib, s, e)
    requires Grounded(lib, r, s.world, s.pass) && Telling(lib, r, s.world, s.pass)
    ensures Telling(lib, r, Next(lib, s, e).world, Next(lib, s, e).pass)
  {
    var t := Next(lib, s, e);
    if s.pass.Define? {
      DefiningTells(lib, s, e);
      DefinedTells(lib, r, s.world, s.pass, t.world, t.pass);
    } else if s.pass.WriteSecret? {
      WritingTells(lib, s, e);
      WrittenTells(lib, r, s.world, s.pass, t.world, t.pass);
    } else {
      PlanningTells(lib, s, e);
      SamePlanTells(lib, r, s.world, s.pass, t.world, t.pass);
    }
  }

  lemma FirstReadTells(lib: Libraries, r: Reads, s: State, e: Event)
    requires e.Proceed? && s.pass.GetCredential?
    ensures Telling(lib, ReadsAfter(r, s, e), Next(lib, s, e).world, Next(lib, s, e).pass)
  {
  }

  lemma WrittenStatusEchoes(lib: Libraries, r: Reads, s: State, e: Event)
    requires e.Proceed? && s.pass.WriteStatus? && Schedules.Settled(Next(lib, s, e).world)
    ensures Telling(lib, ReadsAfter(r, s, e), Next(lib, s, e).world, Next(lib, s, e).pass)
  {
  }

  lemma OtherCallsTellNothing(lib: Libraries, r: Reads, s: State, e: Event)
    requires e.Proceed?
    requires s.pass.Idle? || s.pass.AddFinalizer? || s.pass.PersistReady? || s.pass.GetLatest? || s.pass.DropFinalizer?
    ensures Telling(lib, ReadsAfter(r, s, e), Next(lib, s, e).world, Next(lib, s, e).pass)
  {
  }

  lemma CallTells(lib: Libraries, r: Reads, s: State, e: Event)
    requires e.Proceed? && WellResolved(s.pass) && Schedules.Settled(Next(lib, s, e).world)
    requires Grounded(lib, r, s.world, s.pass) && Telling(lib, r, s.world, s.pass)
    ensures Telling(lib, ReadsAfter(r, s, e), Next(lib, s, e).world, Next(lib, s, e).pass)
  {
    if s.pass.GetCredential? {
      FirstReadTells(lib, r, s, e);
    } else if s.pass.WriteStatus? {
      WrittenStatusEchoes(lib, r, s, e);
    } else if HoldsObject(s.pass) && !s.pass.PersistReady? {
      if Next(lib, s, e).pass.WriteStatus? {
        RefusingStaysTelling(lib, r, s, e);
      } else if Untold(s.pass) {
        EarlyGoesOn(lib, r, s, e);
      } else {
        LateGoesOn(lib, r, s, e);
      }
    } else {
      OtherCallsTellNothing(lib, r, s, e);
    }
  }

  lemma EditTells(lib: Libraries, r: Reads, w: World, v: World, pass: Pass)
    requires Telling(lib, r, w, pass) && Schedules.Renews(w, v)
    ensures Telling(lib, r, v, pass)
  {
  }

  lemma {:induction false} RunTells(lib: Libraries, s: State, es: seq<Event>)
    requires s.pass.Idle? && Schedules.Settled(s.world) && ProperDigest(lib)
    ensures var t, r := Run(lib, s, es), ReadsIn(lib, s, es);
            Schedules.Settled(t.world) && Grounded(lib, r, t.world, t.pass) && Telling(lib, r, t.world, t.pass)
    decreases |es|
  {
    ResolvedIsGrounded(lib, s, es);
    if es != [] {
      var t, e := Run(lib, s, es[..|es| - 1]), es[|es| - 1];
      RunTells(lib, s, es[..|es| - 1]);
      RunResolvesWell(lib, s, es[..|es| - 1]);
      EventTells(lib, ReadsIn(lib, s, es[..|es| - 1]), t, e);
    }
  }

  lemma EventTells(lib: Libraries, r: Reads, s: State, e: Event)
    requires WellResolved(s.pass) && Schedules.Settled(s.world) && Schedules.Settled(Next(lib, s, e).world)
    requires Grounded(lib, r, s.world, s.pass) && Telling(lib, r, s.world, s.pass)
    ensures Telling(lib, ReadsAfter(r, s, e), Next(lib, s, e).world, Next(lib, s, e).pass)
  {
    match e
    case Outside(edit) =>
      Schedules.EditRenews(s.world, edit);
      EditTells(lib, r, s.world, Apply(s.world, edit), s.pass);
    case Proceed(_, _, _) => CallTells(lib, r, s, e);
    case Begin(_) =>
    case Crash =>
  }

  // ----- what is stored -----

  /** The pass writes a status, and the write takes effect. */
  predicate Stores(s: State, e: Event) {
    (s.pass.WriteStatus? || s.pass.PersistReady?) && e.Proceed? && !e.fault.Lost? && IsFresh(s.world, s.pass.key, s.pass.cred)
  }

  lemma TimesStay(st: CredentialStatus)
    requires Rotation.Stored(ScheduleOf(st))
    ensures StoredStatus(st) == st
  {
    Schedules.PersistedKeepsStored(ScheduleOf(st));
  }

  lemma StoredAs(w: World, key: NamespacedName, c: Credential, fault: Fault)
    requires IsFresh(w, key, c) && !fault.Lost?
    ensures var v := Attempt(w, TryUpdateStatus(w, key, c), fault).0;
            key in v.credentials ==> v.credentials[key].status == StoredStatus(c.status)
  {
    StatusWriteEffect(w, key, c, TryUpdateStatus(w, key, c).value);
  }

  /**
   * The statuses of every run. When the final write of a pass takes effect, over the status of the object
   * it names the provider, namespace and database of the policy that was read, the database requested and
   * the username generated, observes the generation, and sets four conditions, all True; the schedule is
   * what the rotation decision planned. Nothing else in the status changes.
   */
  lemma FinalStatusTells(lib: Libraries, s: State, es: seq<Event>, e: Event)
    requires s.pass.Idle? && Schedules.Settled(s.world) && ProperDigest(lib)
    requires Stores(Run(lib, s, es), e) && Run(lib, s, es).pass.PersistReady?
    ensures var t, r := Run(lib, s, es), ReadsIn(lib, s, es);
            var b, v := t.world.credentials[t.pass.key], Next(lib, t, e).world;
            t.pass.key in v.credentials ==>
              && Stood(lib, r, t.pass.key, b, t.pass.resolved)
              && v.credentials[t.pass.key].status ==
                 WithSchedule(Naming(b, t.pass.resolved, DoneMarks(b.generation)),
                              Rotation.Complete(ScheduleOf(b.status), t.pass.plan.seen))
  {
    var t := Run(lib, s, es);
    RunTells(lib, s, es);
    Schedules.RunIsSound(lib, s, es);
    StoredAs(t.world, t.pass.key, t.pass.cred, e.fault);
  }

  /**
   * When any other status write takes effect, it stores a refusal on the object as it was read, before or
   * after its target was located, or it stores again what is already there.
   */
  lemma RefusalTells(lib: Libraries, s: State, es: seq<Event>, e: Event)
    requires s.pass.Idle? && Schedules.Settled(s.world) && ProperDigest(lib)
    requires Stores(Run(lib, s, es), e) && Run(lib, s, es).pass.WriteStatus?
    ensures var t, r := Run(lib, s, es), ReadsIn(lib, s, es);
            var b, v := t.world.credentials[t.pass.key], Next(lib, t, e).world;
            t.pass.key in v.credentials ==>
              || v.credentials[t.pass.key].status == b.status
              || Refusal(lib, r, t.pass.key, b, v.credentials[t.pass.key].status)
  {
    var t := Run(lib, s, es);
    RunTells(lib, s, es);
    StoredAs(t.world, t.pass.key, t.pass.cred, e.fault);
    TimesStay(t.world.credentials[t.pass.key].status);
    if !Echoes(t.world, t.pass) {
      RefusalKeepsTimes(lib, ReadsIn(lib, s, es), t.pass.key, t.world.credentials[t.pass.key], t.pass.cred.status);
    }
  }

  lemma RefusalKeepsTimes(lib: Libraries, r: Reads, key: NamespacedName, b: Credential, st: CredentialStatus)
    requires Refusal(lib, r, key, b, st) && Rotation.Stored(ScheduleOf(b.status))
    ensures StoredStatus(st) == st
  {
    assert ScheduleOf(st) == ScheduleOf(b.status);
    TimesStay(st);
  }
}
