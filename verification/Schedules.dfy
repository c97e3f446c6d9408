/**
 * Rotation over whole runs of the protocol: the stored schedule of a credential changes only when a
 * pass persists its final status, and then exactly as the decision planned it.
 */
module Schedules {
  import opened Prelude
  import opened Platform
  import opened Api
  import opened Cluster
  import opened Protocol
  import Rotation

  /** Credentials carry versions already given out, and whole-second times. */
  predicate Settled(w: World) {
    forall k :: k in w.credentials ==>
      w.credentials[k].version < w.revision && Rotation.Stored(ScheduleOf(w.credentials[k].status))
  }

  /** The same object and request, whatever the status. */
  predicate SameRequest(c: Credential, d: Credential) {
    c.uid == d.uid && c.spec == d.spec && c.generation == d.generation
  }

  /** The object was read from the store: as long as its version is current, so are its request and schedule. */
  predicate Current(w: World, k: NamespacedName, c: Credential) {
    && c.version < w.revision
    && (IsFresh(w, k, c) ==>
          SameRequest(c, w.credentials[k]) && ScheduleOf(w.credentials[k].status) == ScheduleOf(c.status))
  }

  /** The object carries the schedule its pass planned on top of the stored one. */
  predicate CarriesPlan(w: World, k: NamespacedName, c: Credential, p: Plan) {
    && c.version < w.revision
    && (IsFresh(w, k, c) ==>
          var stored := ScheduleOf(w.credentials[k].status);
          && SameRequest(c, w.credentials[k])
          && p.decision == Rotation.DecideOn(stored, p.seen)
          && ScheduleOf(c.status) == Rotation.Planned(stored, Rotation.DecideOn(stored, p.seen)))
  }

  predicate HoldsRead(pass: Pass) {
    && !pass.Idle? && !pass.GetCredential? && !pass.AddFinalizer? && !pass.GetLatest? && !pass.DropFinalizer?
    && !pass.PersistReady?
  }

  predicate Tracked(w: World, pass: Pass) {
    && (HoldsRead(pass) ==> Current(w, pass.key, pass.cred))
    && (HoldsPlan(pass) ==> pass.plan.decision == Rotation.DecideOn(ScheduleOf(pass.cred.status), pass.plan.seen))
    && (pass.PersistReady? ==> CarriesPlan(w, pass.key, pass.cred, pass.plan))
  }

  predicate Sound(s: State) {
    Settled(s.world) && Tracked(s.world, s.pass)
  }

  // ----- changes of the store -----

  /** Schedules stay, except that a credential stored anew may have a new one under a new version. */
  predicate Renews(w: World, v: World) {
    && w.revision <= v.revision
    && forall k :: k in v.credentials ==>
         (k in w.credentials && v.credentials[k] == w.credentials[k]) || w.revision <= v.credentials[k].version < v.revision
  }

  lemma RenewsKeepsTracked(w: World, v: World, pass: Pass)
    requires Tracked(w, pass) && Renews(w, v)
    ensures Tracked(v, pass)
  {
  }

  /** The stored schedule of every credential still there is as before. */
  predicate SameSchedules(w: World, v: World) {
    forall k :: k in w.credentials && k in v.credentials ==>
      ScheduleOf(v.credentials[k].status) == ScheduleOf(w.credentials[k].status)
  }

  /** One store: the credential may be gone, or stand as it was, or stand as written with a new version. */
  lemma StoreEffect(w: World, k: NamespacedName, c: Credential)
    requires k in w.credentials
    ensures var v := StoreCredential(w, k, c);
            && w.revision <= v.revision
            && (forall j :: j != k ==> Lookup(v.credentials, j) == Lookup(w.credentials, j))
            && (k in v.credentials ==>
                  && v.credentials[k].status == c.status
                  && (v.credentials[k] == w.credentials[k] || w.revision == v.credentials[k].version < v.revision))
  {
  }

  lemma StoreRenews(w: World, k: NamespacedName, c: Credential)
    requires Settled(w) && k in w.credentials && Rotation.Stored(ScheduleOf(c.status))
    ensures var v := StoreCredential(w, k, c);
            && Settled(v) && Renews(w, v)
            && (forall j :: j in v.credentials && j != k ==> j in w.credentials && v.credentials[j] == w.credentials[j])
            && (k in v.credentials ==> ScheduleOf(v.credentials[k].status) == ScheduleOf(c.status))
  {
    StoreEffect(w, k, c);
    OneStoreRenews(w, k, StoreCredential(w, k, c), c);
  }

  lemma OneStoreRenews(w: World, k: NamespacedName, v: World, c: Credential)
    requires Settled(w) && k in w.credentials && Rotation.Stored(ScheduleOf(c.status))
    requires w.revision <= v.revision && forall j :: j != k ==> Lookup(v.credentials, j) == Lookup(w.credentials, j)
    requires k in v.credentials ==>
               && v.credentials[k].status == c.status
               && (v.credentials[k] == w.credentials[k] || w.revision == v.credentials[k].version < v.revision)
    ensures Settled(v) && Renews(w, v)
    ensures forall j :: j in v.credentials && j != k ==> j in w.credentials && v.credentials[j] == w.credentials[j]
  {
    forall j | j in v.credentials
      ensures j == k || (j in w.credentials && v.credentials[j] == w.credentials[j])
    {
      assert Lookup(v.credentials, j).Some?;
    }
  }

  /** The change renews versions and keeps every schedule. */
  predicate KeepsSchedules(w: World, v: World) {
    Settled(v) && Renews(w, v) && SameSchedules(w, v)
  }

  lemma StoreKeepsSchedules(w: World, k: NamespacedName, c: Credential)
    requires Settled(w) && k in w.credentials && c.status == w.credentials[k].status
    ensures KeepsSchedules(w, StoreCredential(w, k, c))
  {
    StoreRenews(w, k, c);
  }

  lemma EditRenews(w: World, e: Edit)
    requires Settled(w)
    ensures KeepsSchedules(w, Apply(w, e))
  {
    if e.EditCredential? && e.key in w.credentials {
      UpdateRenews(w, e);
    } else if e.DeleteCredential? && e.key in w.credentials {
      DeleteRenews(w, e);
    } else if e.CreateCredential? {
      CreateRenews(w, e);
    } else {
      assert Apply(w, e).credentials == w.credentials && w.revision <= Apply(w, e).revision;
    }
  }

  lemma CreateRenews(w: World, e: Edit)
    requires Settled(w) && e.CreateCredential?
    ensures KeepsSchedules(w, Apply(w, e))
  {
    var v := Apply(w, e);
    if v != w {
      assert v.credentials[e.key].status == BLANK;
      assert forall j :: j in v.credentials && j != e.key ==> j in w.credentials && v.credentials[j] == w.credentials[j];
    }
  }

  lemma UpdateRenews(w: World, e: Edit)
    requires Settled(w) && e.EditCredential? && e.key in w.credentials
    ensures KeepsSchedules(w, Apply(w, e))
  {
    StoreKeepsSchedules(w, e.key, Edited(w.credentials[e.key], e.finalizers, e.annotations, e.spec));
  }

  lemma DeleteRenews(w: World, e: Edit)
    requires Settled(w) && e.DeleteCredential? && e.key in w.credentials
    ensures KeepsSchedules(w, Apply(w, e))
  {
    if w.credentials[e.key].finalizers != {} {
      StoreKeepsSchedules(w, e.key, w.credentials[e.key].(deleting := true));
    }
  }

  lemma StatusWriteRenews(w: World, k: NamespacedName, c: Credential, v: World)
    requires Settled(w) && TryUpdateStatus(w, k, c) == Some(v)
    ensures Settled(v) && Renews(w, v)
    ensures forall j :: j in v.credentials && j != k ==> j in w.credentials && v.credentials[j] == w.credentials[j]
    ensures k in v.credentials ==> ScheduleOf(v.credentials[k].status) == Rotation.Persisted(ScheduleOf(c.status))
  {
    StoreRenews(w, k, w.credentials[k].(status := StoredStatus(c.status)));
  }

  lemma ObjectWriteRenews(w: World, k: NamespacedName, c: Credential, v: World)
    requires Settled(w) && TryUpdateObject(w, k, c) == Some(v)
    ensures KeepsSchedules(w, v)
  {
    var before := w.credentials[k];
    StoreKeepsSchedules(w, k, c.(uid := before.uid, deleting := before.deleting, status := before.status));
  }

  lemma PersistedKeepsStored(s: Rotation.Schedule)
    requires Rotation.Stored(s)
    ensures Rotation.Persisted(s) == s
  {
  }

  // ----- what a call does to schedules -----

  /** The call writes the final status of a pass over `key`, and the write takes effect. */
  predicate Completes(s: State, key: NamespacedName, e: Event) {
    && s.pass.PersistReady? && s.pass.key == key && e.Proceed? && !e.fault.Lost?
    && IsFresh(s.world, key, s.pass.cred)
  }

  predicate ScheduleFollows(s: State, t: State, e: Event) {
    forall k :: k in s.world.credentials && k in t.world.credentials ==>
      var before, after := ScheduleOf(s.world.credentials[k].status), ScheduleOf(t.world.credentials[k].status);
      after == if Completes(s, k, e) then Rotation.Complete(before, s.pass.plan.seen) else before
  }

  /** A status write that ends with a new read of the object, or with nothing. */
  lemma AfterStatusTracks(w: World, pass: Pass, ok: bool)
    requires Settled(w) && pass.WriteStatus?
    ensures Tracked(w, AfterWriteStatus(w, pass.key, pass.cred, pass.followUp, ok))
  {
  }

  lemma StatusStepFollows(lib: Libraries, s: State, e: Event)
    requires Sound(s) && s.pass.WriteStatus? && e.Proceed?
    ensures var t := Next(lib, s, e); Sound(t) && ScheduleFollows(s, t, e)
  {
    var w, p := s.world, s.pass;
    var attempt := TryUpdateStatus(w, p.key, p.cred);
    if attempt.Some? {
      StatusWriteRenews(w, p.key, p.cred, attempt.value);
      PersistedKeepsStored(ScheduleOf(p.cred.status));
    }
    var o := Attempt(w, attempt, e.fault);
    assert KeepsSchedules(w, o.0);
    AfterStatusTracks(o.0, p, o.1);
  }

  lemma PersistOutcome(w: World, p: Pass, fault: Fault)
    requires Settled(w) && p.PersistReady? && CarriesPlan(w, p.key, p.cred, p.plan)
    ensures var v := Attempt(w, TryUpdateStatus(w, p.key, p.cred), fault).0;
            && Settled(v)
            && forall k :: k in w.credentials && k in v.credentials ==>
                 var before, after := ScheduleOf(w.credentials[k].status), ScheduleOf(v.credentials[k].status);
                 after == if k == p.key && IsFresh(w, k, p.cred) && !fault.Lost? then Rotation.Complete(before, p.plan.seen) else before
  {
    var attempt := TryUpdateStatus(w, p.key, p.cred);
    if attempt.Some? {
      StatusWriteRenews(w, p.key, p.cred, attempt.value);
    }
  }

  lemma PersistStepFollows(lib: Libraries, s: State, e: Event)
    requires Sound(s) && s.pass.PersistReady? && e.Proceed?
    ensures var t := Next(lib, s, e); Sound(t) && ScheduleFollows(s, t, e)
  {
    PersistOutcome(s.world, s.pass, e.fault);
  }

  lemma ObjectOutcome(w: World, k: NamespacedName, c: Credential, fault: Fault)
    requires Settled(w)
    ensures KeepsSchedules(w, Attempt(w, TryUpdateObject(w, k, c), fault).0)
  {
    if TryUpdateObject(w, k, c).Some? {
      ObjectWriteRenews(w, k, c, TryUpdateObject(w, k, c).value);
    }
  }

  /** A write of anything but the status, after which the pass ends. */
  lemma ObjectStepFollows(lib: Libraries, s: State, e: Event)
    requires Sound(s) && (s.pass.AddFinalizer? || s.pass.DropFinalizer?) && e.Proceed?
    ensures var t := Next(lib, s, e); Sound(t) && ScheduleFollows(s, t, e)
  {
    ObjectOutcome(s.world, s.pass.key, if s.pass.AddFinalizer? then s.pass.cred else s.pass.latest, e.fault);
  }

  /** Calls that leave the credentials alone. */
  predicate LeavesCredentials(w: World, v: World) {
    v.credentials == w.credentials && w.revision <= v.revision
  }

  lemma BeginStepTracks(lib: Libraries, s: State, e: Event)
    requires Sound(s) && e.Proceed? && (s.pass.GetCredential? || s.pass.GetLatest?)
    ensures var t := Next(lib, s, e); Tracked(t.world, t.pass) && LeavesCredentials(s.world, t.world)
  {
  }

  lemma ReadStepTracks(lib: Libraries, s: State, e: Event)
    requires Sound(s) && e.Proceed? && (s.pass.GetPolicy? || s.pass.GetProvider? || s.pass.GetRoot?)
    ensures var t := Next(lib, s, e); Tracked(t.world, t.pass) && LeavesCredentials(s.world, t.world)
  {
  }

  lemma TlsStepTracks(lib: Libraries, s: State, e: Event)
    requires Sound(s) && e.Proceed? && (s.pass.GetTls? || s.pass.ConnectToRemove?)
    ensures var t := Next(lib, s, e); Tracked(t.world, t.pass) && LeavesCredentials(s.world, t.world)
  {
  }

  lemma TargetStepTracks(lib: Libraries, s: State, e: Event)
    requires Sound(s) && e.Proceed? && s.pass.GetTarget?
    ensures var t := Next(lib, s, e); Tracked(t.world, t.pass) && LeavesCredentials(s.world, t.world)
  {
  }

  lemma ConnectStepTracks(lib: Libraries, s: State, e: Event)
    requires Sound(s) && e.Proceed? && s.pass.Connect?
    ensures var t := Next(lib, s, e); Tracked(t.world, t.pass) && LeavesCredentials(s.world, t.world)
  {
  }

  lemma AfterUserTracks(w: World, v: World, pass: Pass, ok: bool)
    requires Tracked(w, pass) && (pass.Define? || pass.RemoveUser?) && LeavesCredentials(w, v)
    ensures pass.Define? ==> Tracked(v, AfterDefine(pass.key, pass.cred, pass.resolved, pass.plan, ok))
    ensures Tracked(v, AfterRemoveUser(pass.key, pass.cred, ok))
  {
  }

  lemma DefineTracks(lib: Libraries, s: State, e: Event)
    requires Sound(s) && e.Proceed? && s.pass.Define?
    ensures var t := Next(lib, s, e); Tracked(t.world, t.pass) && LeavesCredentials(s.world, t.world)
  {
    var p := s.pass;
    var o := Answer(s.world, AskToDefine(lib, s.world, UserOf(p.cred, p.resolved), p.plan.password, p.cred.spec.roles), e.fault);
    AfterUserTracks(s.world, o.0, p, o.1);
  }

  lemma RemoveTracks(lib: Libraries, s: State, e: Event)
    requires Sound(s) && e.Proceed? && s.pass.RemoveUser?
    ensures var t := Next(lib, s, e); Tracked(t.world, t.pass) && LeavesCredentials(s.world, t.world)
  {
    var o := Answer(s.world, AskToRemove(s.world, UserOf(s.pass.cred, s.pass.resolved)), e.fault);
    AfterUserTracks(s.world, o.0, s.pass, o.1);
  }

  lemma AfterSecretTracks(w: World, v: World, pass: Pass, ok: bool)
    requires Tracked(w, pass) && pass.WriteSecret? && LeavesCredentials(w, v)
    ensures Tracked(v, AfterWriteSecret(pass.key, pass.cred, pass.resolved, pass.plan, ok))
  {
  }

  lemma SecretWriteTracks(lib: Libraries, s: State, e: Event)
    requires Sound(s) && e.Proceed? && s.pass.WriteSecret?
    ensures var t := Next(lib, s, e); Tracked(t.world, t.pass) && LeavesCredentials(s.world, t.world)
  {
    var o := Attempt(s.world, SecretWrite(lib, s.world, s.pass.key, s.pass.cred, s.pass.resolved, s.pass.plan), e.fault);
    AfterSecretTracks(s.world, o.0, s.pass, o.1);
  }

  lemma AfterDeleteTracks(w: World, v: World, pass: Pass, ok: bool)
    requires Tracked(w, pass) && (pass.ForcedDelete? || pass.DeleteSecret?) && LeavesCredentials(w, v)
    ensures Tracked(v, AfterDeleteSecret(pass.key, pass.cred, ok))
    ensures Tracked(v, AfterForcedDelete(pass.key, pass.cred, ok))
  {
  }

  lemma SecretDeleteTracks(lib: Libraries, s: State, e: Event)
    requires Sound(s) && e.Proceed? && (s.pass.ForcedDelete? || s.pass.DeleteSecret?)
    ensures var t := Next(lib, s, e); Tracked(t.world, t.pass) && LeavesCredentials(s.world, t.world)
  {
    var p := s.pass;
    var o := Attempt(s.world, Some(DeleteOwnedSecret(s.world, TargetKey(p.key, p.cred), p.key.name, p.cred.uid)), e.fault);
    AfterDeleteTracks(s.world, o.0, p, o.1);
  }

  lemma LeavingFollows(s: State, t: State, e: Event)
    requires Sound(s) && !s.pass.PersistReady? && Tracked(t.world, t.pass) && LeavesCredentials(s.world, t.world)
    ensures Sound(t) && ScheduleFollows(s, t, e)
  {
  }

  lemma CallFollows(lib: Libraries, s: State, e: Event)
    requires Sound(s) && e.Proceed?
    ensures var t := Next(lib, s, e); Sound(t) && ScheduleFollows(s, t, e)
  {
    if s.pass.Idle? {
    } else if s.pass.WriteStatus? {
      StatusStepFollows(lib, s, e);
    } else if s.pass.PersistReady? {
      PersistStepFollows(lib, s, e);
    } else if s.pass.AddFinalizer? || s.pass.DropFinalizer? {
      ObjectStepFollows(lib, s, e);
    } else {
      if s.pass.GetTls? || s.pass.ConnectToRemove? {
        TlsStepTracks(lib, s, e);
      } else if s.pass.GetTarget? {
        TargetStepTracks(lib, s, e);
      } else if s.pass.Connect? {
        ConnectStepTracks(lib, s, e);
      } else if s.pass.Define? {
        DefineTracks(lib, s, e);
      } else if s.pass.RemoveUser? {
        RemoveTracks(lib, s, e);
      } else if s.pass.WriteSecret? {
        SecretWriteTracks(lib, s, e);
      } else if s.pass.ForcedDelete? || s.pass.DeleteSecret? {
        SecretDeleteTracks(lib, s, e);
      } else if s.pass.GetCredential? || s.pass.GetLatest? {
        BeginStepTracks(lib, s, e);
      } else {
        ReadStepTracks(lib, s, e);
      }
      LeavingFollows(s, Next(lib, s, e), e);
    }
  }

  /**
   * One step of a run: unless it is the final status write of a completed pass, taking effect, every
   * stored schedule stays, so a new trigger stays pending; and that write stores what Rotation plans.
   */
  lemma StepFollows(lib: Libraries, s: State, e: Event)
    requires Sound(s)
    ensures var t := Next(lib, s, e); Sound(t) && ScheduleFollows(s, t, e)
  {
    match e
    case Outside(edit) =>
      EditRenews(s.world, edit);
      RenewsKeepsTracked(s.world, Apply(s.world, edit), s.pass);
    case Proceed(_, _, _) => CallFollows(lib, s, e);
    case Begin(_) =>
    case Crash =>
  }

  // ----- whole runs -----

  lemma {:induction false} RunIsSound(lib: Libraries, s: State, es: seq<Event>)
    requires s.pass.Idle? && Settled(s.world)
    ensures Sound(Run(lib, s, es))
    decreases |es|
  {
    if es != [] {
      RunIsSound(lib, s, es[..|es| - 1]);
      StepFollows(lib, Run(lib, s, es[..|es| - 1]), es[|es| - 1]);
    }
  }

  /** What the passes over `key` saw that completed during the run, in order. */
  function Completions(lib: Libraries, s: State, es: seq<Event>, key: NamespacedName): seq<Rotation.Sighting>
    decreases |es|
  {
    if es == [] then []
    else
      var t, e := Run(lib, s, es[..|es| - 1]), es[|es| - 1];
      Completions(lib, s, es[..|es| - 1], key) + (if Completes(t, key, e) then [t.pass.plan.seen] else [])
  }

  /** The credential is there throughout the run. */
  predicate Stays(lib: Libraries, s: State, es: seq<Event>, key: NamespacedName)
    decreases |es|
  {
    key in Run(lib, s, es).world.credentials && (es == [] || Stays(lib, s, es[..|es| - 1], key))
  }

  lemma {:induction false} CompleteAllSnoc(s: Rotation.Schedule, os: seq<Rotation.Sighting>, o: Rotation.Sighting)
    ensures Rotation.CompleteAll(s, os + [o]) == Rotation.Complete(Rotation.CompleteAll(s, os), o)
    decreases |os|
  {
    if os == [] {
      assert [o][1..] == [];
    } else {
      assert (os + [o])[1..] == os[1..] + [o];
      CompleteAllSnoc(Rotation.Complete(s, os[0]), os[1..], o);
    }
  }

  lemma {:induction false} StaysFromStart(lib: Libraries, s: State, es: seq<Event>, key: NamespacedName)
    requires Stays(lib, s, es, key)
    ensures key in s.world.credentials
    decreases |es|
  {
    if es != [] {
      StaysFromStart(lib, s, es[..|es| - 1], key);
    }
  }

  /** The stored schedule of a credential. */
  function ScheduleAt(w: World, key: NamespacedName): Option<Rotation.Schedule> {
    if key in w.credentials then Some(ScheduleOf(w.credentials[key].status)) else None
  }

  lemma StepSchedule(lib: Libraries, s: State, e: Event, key: NamespacedName)
    requires Sound(s) && key in s.world.credentials && key in Next(lib, s, e).world.credentials
    ensures Sound(Next(lib, s, e))
    ensures var before := ScheduleAt(s.world, key).value;
            ScheduleAt(Next(lib, s, e).world, key) ==
            Some(if Completes(s, key, e) then Rotation.Complete(before, s.pass.plan.seen) else before)
  {
    StepFollows(lib, s, e);
  }

  /**
   * The schedule of a run. With any edits, faults and crashes, and passes over any credentials in
   * between: a credential's stored schedule is its first one after exactly the completed passes. Every
   * law proved of sequences of completed passes holds of the protocol.
   */
  lemma {:induction false} StoredScheduleIsCompletions(lib: Libraries, s: State, es: seq<Event>, key: NamespacedName)
    requires s.pass.Idle? && Settled(s.world) && Stays(lib, s, es, key)
    ensures Sound(Run(lib, s, es)) && key in s.world.credentials
    ensures ScheduleAt(Run(lib, s, es).world, key) ==
            Some(Rotation.CompleteAll(ScheduleAt(s.world, key).value, Completions(lib, s, es, key)))
    decreases |es|
  {
    StaysFromStart(lib, s, es, key);
    if es != [] {
      var n := |es| - 1;
      var t, first := Run(lib, s, es[..n]), ScheduleAt(s.world, key).value;
      StoredScheduleIsCompletions(lib, s, es[..n], key);
      StepSchedule(lib, t, es[n], key);
      var os := Completions(lib, s, es[..n], key);
      if Completes(t, key, es[n]) {
        CompleteAllSnoc(first, os, t.pass.plan.seen);
      } else {
        assert os + [] == os;
      }
    }
  }

  function LastOf(start: string, vs: seq<string>): string {
    if vs == [] then start else vs[|vs| - 1]
  }

  lemma {:induction false} LastTriggerStored(s: Rotation.Schedule, os: seq<Rotation.Sighting>)
    requires forall i :: 0 <= i < |os| ==> os[i].hasPassword
    ensures Rotation.CompleteAll(s, os).trigger == LastOf(s.trigger, Rotation.Requests(os))
    decreases |os|
  {
    if os != [] {
      Rotation.TriggerStep(s, os[0]);
      LastTriggerStored(Rotation.Complete(s, os[0]), os[1..]);
    }
  }

  /**
   * In particular the protocol counts manual triggers exactly over every run, and the last non-empty
   * value seen by a completed pass is the one recorded.
   */
  lemma TriggersOfRunsCounted(lib: Libraries, s: State, es: seq<Event>, key: NamespacedName)
    requires s.pass.Idle? && Settled(s.world) && Stays(lib, s, es, key)
    requires var os := Completions(lib, s, es, key); forall i :: 0 <= i < |os| ==> os[i].hasPassword
    ensures key in s.world.credentials && key in Run(lib, s, es).world.credentials
    ensures var os, first := Completions(lib, s, es, key), ScheduleAt(s.world, key).value;
            && Rotation.ManualRotations(first, os) == Rotation.Changes(first.trigger, Rotation.Requests(os))
            && ScheduleAt(Run(lib, s, es).world, key).value.trigger == LastOf(first.trigger, Rotation.Requests(os))
  {
    StoredScheduleIsCompletions(lib, s, es, key);
    var os, first := Completions(lib, s, es, key), ScheduleAt(s.world, key).value;
    Rotation.ManualTriggersCountedExactly(first, os);
    LastTriggerStored(first, os);
  }
}
