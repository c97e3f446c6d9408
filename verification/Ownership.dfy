/**
 * Secret ownership under interleaving: whatever other credentials and outside writers do between a
 * pass's calls, the pass itself leaves every Secret alone that its credential does not own.
 */
module Ownership {
  import opened Prelude
  import opened Platform
  import opened Api
  import opened Cluster
  import opened TargetSecret
  import opened Protocol

  /** A resource version stands for one content: nothing stored carries a version not yet given out. */
  predicate VersionsGivenOut(w: World) {
    forall k :: k in w.secrets ==> w.secrets[k].version < w.revision
  }

  /** `seen` was read under `k`: whatever is stored there now under the same version is what was read. */
  predicate Remembers(w: World, k: NamespacedName, seen: Secret) {
    seen.version < w.revision && (k in w.secrets && w.secrets[k].version == seen.version ==> w.secrets[k] == seen)
  }

  /** A pass that plans an update has checked the owner of the exact version it will replace. */
  predicate CheckedOwner(w: World, pass: Pass) {
    HoldsPlan(pass) && pass.plan.existing.Some? ==>
      && Remembers(w, TargetKey(pass.key, pass.cred), pass.plan.existing.value)
      && IsOwnedByCredential(pass.plan.existing.value, pass.key.name, pass.cred.uid)
  }

  predicate Careful(s: State) {
    VersionsGivenOut(s.world) && CheckedOwner(s.world, s.pass)
  }

  // ----- every step keeps the owner check valid -----

  /** What any change of the stores does: a Secret that is not as before carries a version from `w.revision` on. */
  predicate Advances(w: World, v: World) {
    && w.revision <= v.revision
    && forall k :: k in v.secrets ==>
         (k in w.secrets && v.secrets[k] == w.secrets[k]) || w.revision <= v.secrets[k].version < v.revision
  }

  lemma AdvancesKeepsCare(w: World, v: World, pass: Pass)
    requires Careful(State(w, pass, [])) && Advances(w, v)
    ensures Careful(State(v, pass, []))
  {
  }

  lemma EditAdvances(w: World, e: Edit)
    ensures Advances(w, Apply(w, e))
  {
  }

  lemma SecretWriteAdvances(lib: Libraries, w: World, p: Pass, fault: Fault)
    requires p.WriteSecret?
    ensures Advances(w, Attempt(w, SecretWrite(lib, w, p.key, p.cred, p.resolved, p.plan), fault).0)
  {
  }

  lemma WriteStepAdvances(lib: Libraries, s: State, fault: Fault, now: int, drawn: Option<string>)
    requires s.pass.WriteSecret?
    ensures var t := Advance(lib, s, fault, now, drawn); Advances(s.world, t.world) && !HoldsPlan(t.pass)
  {
    SecretWriteAdvances(lib, s.world, s.pass, fault);
  }

  lemma DeleteStepAdvances(lib: Libraries, s: State, fault: Fault, now: int, drawn: Option<string>)
    requires s.pass.ForcedDelete? || s.pass.DeleteSecret?
    ensures var t := Advance(lib, s, fault, now, drawn); Advances(s.world, t.world) && !HoldsPlan(t.pass)
  {
  }

  /** Writes of credentials leave Secrets alone. */
  predicate LeavesSecrets(w: World, v: World) {
    v.secrets == w.secrets && w.revision <= v.revision
  }

  lemma StatusStepAdvances(lib: Libraries, s: State, fault: Fault, now: int, drawn: Option<string>)
    requires s.pass.WriteStatus? || s.pass.PersistReady?
    ensures var t := Advance(lib, s, fault, now, drawn); LeavesSecrets(s.world, t.world) && !HoldsPlan(t.pass)
  {
    if TryUpdateStatus(s.world, s.pass.key, s.pass.cred).Some? {
      StatusWriteEffect(s.world, s.pass.key, s.pass.cred, TryUpdateStatus(s.world, s.pass.key, s.pass.cred).value);
    }
  }

  lemma ObjectStepAdvances(lib: Libraries, s: State, fault: Fault, now: int, drawn: Option<string>)
    requires s.pass.AddFinalizer? || s.pass.DropFinalizer?
    ensures var t := Advance(lib, s, fault, now, drawn); LeavesSecrets(s.world, t.world) && !HoldsPlan(t.pass)
  {
    var c := if s.pass.AddFinalizer? then s.pass.cred else s.pass.latest;
    if TryUpdateObject(s.world, s.pass.key, c).Some? {
      ObjectWriteEffect(s.world, s.pass.key, c, TryUpdateObject(s.world, s.pass.key, c).value);
    }
  }

  lemma UserStepAdvances(lib: Libraries, s: State, fault: Fault, now: int, drawn: Option<string>)
    requires s.pass.Connect? || s.pass.Define? || s.pass.RemoveUser?
    ensures var t := Advance(lib, s, fault, now, drawn);
            && t.world.secrets == s.world.secrets && t.world.revision == s.world.revision
            && (HoldsPlan(t.pass) ==> HoldsPlan(s.pass) && t.pass.key == s.pass.key && t.pass.plan == s.pass.plan
                                      && t.pass.cred.spec == s.pass.cred.spec && t.pass.cred.uid == s.pass.cred.uid)
  {
  }

  lemma TargetReadChecks(lib: Libraries, s: State, fault: Fault, now: int, drawn: Option<string>)
    requires s.pass.GetTarget? && VersionsGivenOut(s.world)
    ensures Careful(Advance(lib, s, fault, now, drawn))
  {
  }

  lemma OtherStepAdvances(lib: Libraries, s: State, fault: Fault, now: int, drawn: Option<string>)
    requires s.pass.GetCredential? || s.pass.GetPolicy? || s.pass.GetProvider? || s.pass.GetRoot? || s.pass.GetTls?
             || s.pass.ConnectToRemove? || s.pass.GetLatest?
    ensures var t := Advance(lib, s, fault, now, drawn); t.world == s.world && !HoldsPlan(t.pass)
  {
  }

  lemma CallIsCareful(lib: Libraries, s: State, fault: Fault, now: int, drawn: Option<string>)
    requires Careful(s)
    ensures Careful(Advance(lib, s, fault, now, drawn))
  {
    if s.pass.Idle? {
    } else if s.pass.WriteSecret? {
      WriteStepAdvances(lib, s, fault, now, drawn);
    } else if s.pass.ForcedDelete? || s.pass.DeleteSecret? {
      DeleteStepAdvances(lib, s, fault, now, drawn);
    } else if s.pass.WriteStatus? || s.pass.PersistReady? {
      StatusStepAdvances(lib, s, fault, now, drawn);
    } else if s.pass.AddFinalizer? || s.pass.DropFinalizer? {
      ObjectStepAdvances(lib, s, fault, now, drawn);
    } else if s.pass.Connect? || s.pass.Define? || s.pass.RemoveUser? {
      UserStepAdvances(lib, s, fault, now, drawn);
    } else if s.pass.GetTarget? {
      TargetReadChecks(lib, s, fault, now, drawn);
    } else {
      OtherStepAdvances(lib, s, fault, now, drawn);
    }
  }

  lemma {:induction false} RunIsCareful(lib: Libraries, s: State, es: seq<Event>)
    requires Careful(s)
    ensures Careful(Run(lib, s, es))
    decreases |es|
  {
    if es != [] {
      var t, e := Run(lib, s, es[..|es| - 1]), es[|es| - 1];
      RunIsCareful(lib, s, es[..|es| - 1]);
      match e
      case Outside(edit) =>
        EditAdvances(t.world, edit);
        AdvancesKeepsCare(t.world, Apply(t.world, edit), t.pass);
      case Proceed(fault, now, drawn) => CallIsCareful(lib, t, fault, now, drawn);
      case Begin(_) =>
      case Crash =>
    }
  }

  // ----- what one call does to Secrets -----

  /** The Secret belongs to the credential the pass works on. */
  predicate Own(pass: Pass, secret: Secret) {
    (pass.WriteSecret? || pass.ForcedDelete? || pass.DeleteSecret?)
    && IsOwnedByCredential(secret, pass.key.name, pass.cred.uid)
  }

  /** Secrets of others stay as they are, and what the pass writes is its credential's own. */
  predicate SparesOthers(pass: Pass, w: World, v: World) {
    && (forall k :: k in w.secrets && !Own(pass, w.secrets[k]) ==> k in v.secrets && v.secrets[k] == w.secrets[k])
    && (forall k :: k in v.secrets ==> (k in w.secrets && v.secrets[k] == w.secrets[k]) || Own(pass, v.secrets[k]))
  }

  lemma WriteSparesOthers(lib: Libraries, w: World, pass: Pass, v: World)
    requires pass.WriteSecret? && CheckedOwner(w, pass)
    requires SecretWrite(lib, w, pass.key, pass.cred, pass.resolved, pass.plan) == Some(v)
    ensures SparesOthers(pass, w, v)
  {
    var k, desired := TargetKey(pass.key, pass.cred), DesiredSecret(lib, pass.key, pass.cred, pass.resolved, pass.plan.password);
    assert v.secrets[k].owners == desired.owners;
    assert Claims(desired.owners[0], pass.key.name) && desired.owners[0].uid == pass.cred.uid;
  }

  lemma DeleteSparesOthers(w: World, pass: Pass, fault: Fault)
    requires pass.ForcedDelete? || pass.DeleteSecret?
    ensures SparesOthers(pass, w, Attempt(w, Some(DeleteOwnedSecret(w, TargetKey(pass.key, pass.cred), pass.key.name, pass.cred.uid)), fault).0)
  {
  }

  lemma CallSparesOthers(lib: Libraries, s: State, fault: Fault, now: int, drawn: Option<string>)
    requires Careful(s)
    ensures SparesOthers(s.pass, s.world, Advance(lib, s, fault, now, drawn).world)
  {
    if s.pass.WriteSecret? {
      var attempt := SecretWrite(lib, s.world, s.pass.key, s.pass.cred, s.pass.resolved, s.pass.plan);
      if attempt.Some? {
        WriteSparesOthers(lib, s.world, s.pass, attempt.value);
      }
    } else if s.pass.ForcedDelete? || s.pass.DeleteSecret? {
      DeleteSparesOthers(s.world, s.pass, fault);
    } else if s.pass.WriteStatus? || s.pass.PersistReady? {
      StatusStepAdvances(lib, s, fault, now, drawn);
    } else if s.pass.AddFinalizer? || s.pass.DropFinalizer? {
      ObjectStepAdvances(lib, s, fault, now, drawn);
    } else if s.pass.Connect? || s.pass.Define? || s.pass.RemoveUser? {
      UserStepAdvances(lib, s, fault, now, drawn);
    } else if !s.pass.Idle? && !s.pass.GetTarget? {
      OtherStepAdvances(lib, s, fault, now, drawn);
    }
  }

  /**
   * Secret ownership. After every run, with arbitrary edits by anybody at any moment, passes over any
   * credentials, faults and crashes: the next call of the pass in progress changes or removes only
   * Secrets its credential owns, and anything it writes is that credential's own.
   */
  lemma PassSparesOthers(lib: Libraries, s: State, es: seq<Event>, fault: Fault, now: int, drawn: Option<string>)
    requires s.pass.Idle? && VersionsGivenOut(s.world)
    ensures var t := Run(lib, s, es);
            SparesOthers(t.pass, t.world, Advance(lib, t, fault, now, drawn).world)
  {
    RunIsCareful(lib, s, es);
    CallSparesOthers(lib, Run(lib, s, es), fault, now, drawn);
  }
}
