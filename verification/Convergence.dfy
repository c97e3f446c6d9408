/**
 * Convergence: whenever a pass makes its final write, after whatever crashes and leftovers before it,
 * the remote user and the Secret agree.
 */
module Convergence {
  import opened Prelude
  import opened Platform
  import opened Api
  import opened Cluster
  import opened SurrealQL
  import opened Queries
  import opened QueryMeaning
  import opened Server
  import opened TargetSecret
  import opened Protocol
  import opened Resolution
  import Schedules
  import Username

  /** A value under its plain key and under its environment key. */
  predicate Gives(data: map<string, string>, plain: string, environment: string, value: string) {
    plain in data && environment in data && data[plain] == data[environment] == value
  }

  /** The connection data lead to this user. */
  predicate Connects(lib: Libraries, data: map<string, string>, u: RemoteUser) {
    && Gives(data, "url", "SURREAL_URL", u.endpoint)
    && Gives(data, "namespace", "SURREAL_NS", u.target.namespace)
    && Gives(data, "database", "SURREAL_DB", u.target.database)
    && Gives(data, "username", "SURREAL_USER", u.username)
    && "level" in data && data["level"] == Username.LowerAll(lib, LevelText(u.target.level))
  }

  /** The credential's own Secret, and the password it gives under both keys. */
  predicate Keeps(lib: Libraries, w: World, key: NamespacedName, c: Credential, r: Resolved, password: string) {
    var k := TargetKey(key, c);
    && k in w.secrets && IsOwnedByCredential(w.secrets[k], key.name, c.uid)
    && Connects(lib, w.secrets[k].data, UserOf(c, r))
    && Gives(w.secrets[k].data, "password", "SURREAL_PASS", password)
  }

  /** The login the texts of this pass are about, with the requested roles and what the password is read as. */
  predicate Defined(lib: Libraries, w: World, c: Credential, r: Resolved, password: string) {
    && Nameable(SurrealTarget(c, r))
    && Lookup(w.users, LocatedFor(c, r)) == Some(Login(ReadBack(lib, password), Distinct(c.spec.roles)))
  }

  /** The Secret leads to a remote user that has the requested roles and the password it gives. */
  predicate Delivered(lib: Libraries, w: World, key: NamespacedName, c: Credential, r: Resolved, password: string) {
    && Keeps(lib, w, key, c, r, password)
    && Lookup(w.users, UserOf(c, r)) == Some(Login(password, Distinct(c.spec.roles)))
  }

  /**
   * The login that was defined is the one the Secret leads to, with the password it gives, exactly when
   * the target's printed names hold no backslash and all of the password prints.
   */
  lemma DefinedIsDeliveredIff(lib: Libraries, w: World, key: NamespacedName, c: Credential, r: Resolved, password: string)
    requires Scoped(c) && Nameable(SurrealTarget(c, r))
    ensures LocatedFor(c, r) == UserOf(c, r) && ReadBack(lib, password) == password
            <==> PlainTarget(SurrealTarget(c, r)) && AllPrint(lib, password)
    ensures PlainTarget(SurrealTarget(c, r)) && AllPrint(lib, password) ==>
              (Keeps(lib, w, key, c, r, password) && Defined(lib, w, c, r, password) ==> Delivered(lib, w, key, c, r, password))
  {
    ReadAsWrittenIff(SurrealTarget(c, r));
    ReadBackIff(lib, password);
  }

  /** Passes that write a status other than the final one write it not ready; the final one says Ready. */
  predicate Converging(lib: Libraries, s: State) {
    var p := s.pass;
    && (p.WriteSecret? || p.PersistReady? ==> Defined(lib, s.world, p.cred, p.resolved, p.plan.password))
    && (p.PersistReady? ==> Keeps(lib, s.world, p.key, p.cred, p.resolved, p.plan.password) && IsReady(p.cred))
    && (p.WriteStatus? ==> !IsReady(p.cred))
  }

  /** The edit stays away from the login and the Secret a pass has just written. */
  predicate StaysAway(pass: Pass, e: Edit) {
    && ((pass.WriteSecret? || pass.PersistReady?) && (e.PutUser? || e.DropUser?) ==> e.user != LocatedFor(pass.cred, pass.resolved))
    && (pass.PersistReady? && (e.PutSecret? || e.DropSecret?) ==> e.key != TargetKey(pass.key, pass.cred))
  }

  predicate AwayRun(lib: Libraries, s: State, es: seq<Event>)
    decreases |es|
  {
    es == []
    || (AwayRun(lib, s, es[..|es| - 1])
        && (es[|es| - 1].Outside? ==> StaysAway(Run(lib, s, es[..|es| - 1]).pass, es[|es| - 1].edit)))
  }

  // ----- every step keeps it -----

  lemma UserEditConverges(lib: Libraries, s: State, e: Edit)
    requires Converging(lib, s) && StaysAway(s.pass, e) && (e.PutUser? || e.DropUser?)
    ensures Converging(lib, s.(world := Apply(s.world, e)))
  {
  }

  lemma SecretEditConverges(lib: Libraries, s: State, e: Edit)
    requires Converging(lib, s) && StaysAway(s.pass, e) && (e.PutSecret? || e.DropSecret?)
    ensures Converging(lib, s.(world := Apply(s.world, e)))
  {
  }

  lemma OtherEditLeaves(w: World, e: Edit)
    requires !e.PutUser? && !e.DropUser? && !e.PutSecret? && !e.DropSecret?
    ensures Apply(w, e).secrets == w.secrets && Apply(w, e).users == w.users
  {
  }

  lemma EditConverges(lib: Libraries, s: State, e: Edit)
    requires Converging(lib, s) && StaysAway(s.pass, e)
    ensures Converging(lib, s.(world := Apply(s.world, e)))
  {
    if e.PutUser? || e.DropUser? {
      UserEditConverges(lib, s, e);
    } else if e.PutSecret? || e.DropSecret? {
      SecretEditConverges(lib, s, e);
    } else {
      OtherEditLeaves(s.world, e);
    }
  }

  lemma DefineConverges(lib: Libraries, s: State, e: Event)
    requires s.pass.Define? && e.Proceed? && WellResolved(s.pass)
    ensures Converging(lib, Next(lib, s, e))
  {
    var p := s.pass;
    DefinitionEffect(lib, p.resolved.provider.endpoint, s.world.users, SurrealTarget(p.cred, p.resolved), p.resolved.username,
                     p.plan.password, p.cred.spec.roles);
    var o := Answer(s.world, AskToDefine(lib, s.world, UserOf(p.cred, p.resolved), p.plan.password, p.cred.spec.roles), e.fault);
    DefineOutcomeConverges(lib, p, o.0, o.1);
  }

  lemma DefineOutcomeConverges(lib: Libraries, p: Pass, v: World, ok: bool)
    requires p.Define? && (ok ==> Defined(lib, v, p.cred, p.resolved, p.plan.password))
    ensures forall log :: Converging(lib, State(v, AfterDefine(p.key, p.cred, p.resolved, p.plan, ok), log))
  {
  }

  lemma DesiredConnects(lib: Libraries, key: NamespacedName, c: Credential, r: Resolved, password: string)
    ensures var s := DesiredSecret(lib, key, c, r, password);
            && IsOwnedByCredential(s, key.name, c.uid)
            && Connects(lib, s.data, UserOf(c, r)) && Gives(s.data, "password", "SURREAL_PASS", password)
  {
    var s := DesiredSecret(lib, key, c, r, password);
    assert Claims(s.owners[0], key.name) && s.owners[0].uid == c.uid;
  }

  lemma StoredSecret(w: World, k: NamespacedName, s: Secret)
    ensures var v := StoreSecret(w, k, s);
            && v.users == w.users && k in v.secrets
            && v.secrets[k] == s.(version := v.secrets[k].version)
            && forall j :: j != k ==> Lookup(v.secrets, j) == Lookup(w.secrets, j)
  {
  }

  /** The written Secret carries the planned password; all of it is the one wanted, and no other Secret changes. */
  lemma SecretWriteDelivers(lib: Libraries, w: World, p: Pass, v: World)
    requires p.WriteSecret? && SecretWrite(lib, w, p.key, p.cred, p.resolved, p.plan) == Some(v)
    ensures Keeps(lib, v, p.key, p.cred, p.resolved, p.plan.password) && v.users == w.users
    ensures var k := TargetKey(p.key, p.cred);
            && v.secrets[k] == DesiredSecret(lib, p.key, p.cred, p.resolved, p.plan.password).(version := v.secrets[k].version)
            && forall j :: j != k ==> Lookup(v.secrets, j) == Lookup(w.secrets, j)
  {
    var k, desired := TargetKey(p.key, p.cred), DesiredSecret(lib, p.key, p.cred, p.resolved, p.plan.password);
    DesiredConnects(lib, p.key, p.cred, p.resolved, p.plan.password);
    if p.plan.existing.None? {
      StoredSecret(w, k, desired);
    } else {
      StoredSecret(w, k, desired.(version := p.plan.existing.value.version));
    }
  }

  lemma SecretOutcomeConverges(lib: Libraries, p: Pass, v: World, ok: bool)
    requires p.WriteSecret?
    requires ok ==> Keeps(lib, v, p.key, p.cred, p.resolved, p.plan.password) && Defined(lib, v, p.cred, p.resolved, p.plan.password)
    ensures forall log :: Converging(lib, State(v, AfterWriteSecret(p.key, p.cred, p.resolved, p.plan, ok), log))
  {
  }

  lemma WriteConverges(lib: Libraries, s: State, e: Event)
    requires Converging(lib, s) && s.pass.WriteSecret? && e.Proceed?
    ensures Converging(lib, Next(lib, s, e))
  {
    var p := s.pass;
    var attempt := SecretWrite(lib, s.world, p.key, p.cred, p.resolved, p.plan);
    if attempt.Some? {
      SecretWriteDelivers(lib, s.world, p, attempt.value);
    }
    var o := Attempt(s.world, attempt, e.fault);
    SecretOutcomeConverges(lib, p, o.0, o.1);
  }

  lemma StatusConverges(lib: Libraries, s: State, e: Event)
    requires Converging(lib, s) && s.pass.WriteStatus? && e.Proceed?
    ensures Converging(lib, Next(lib, s, e))
  {
    var attempt := TryUpdateStatus(s.world, s.pass.key, s.pass.cred);
    if attempt.Some? {
      StatusWriteEffect(s.world, s.pass.key, s.pass.cred, attempt.value);
    }
  }

  /** Nothing of a live pass is half done, and a status about to be written is not ready. */
  predicate Modest(pass: Pass) {
    !pass.WriteSecret? && !pass.PersistReady? && (pass.WriteStatus? ==> !IsReady(pass.cred))
  }

  lemma ResolveIsModest(lib: Libraries, s: State, e: Event)
    requires e.Proceed? && (s.pass.GetCredential? || s.pass.GetPolicy? || s.pass.GetProvider? || s.pass.GetRoot?)
    ensures Modest(Next(lib, s, e).pass)
  {
  }

  lemma TargetIsModest(lib: Libraries, s: State, e: Event)
    requires e.Proceed? && (s.pass.GetTls? || s.pass.GetTarget? || s.pass.Connect?)
    ensures Modest(Next(lib, s, e).pass)
  {
  }

  lemma DeletionIsModest(lib: Libraries, s: State, e: Event)
    requires e.Proceed?
    requires s.pass.ForcedDelete? || s.pass.ConnectToRemove? || s.pass.RemoveUser? || s.pass.DeleteSecret? || s.pass.GetLatest?
    ensures Modest(Next(lib, s, e).pass)
  {
  }

  lemma StepConverges(lib: Libraries, s: State, e: Event)
    requires Converging(lib, s) && WellResolved(s.pass) && (e.Outside? ==> StaysAway(s.pass, e.edit))
    ensures Converging(lib, Next(lib, s, e))
  {
    if e.Outside? {
      EditConverges(lib, s, e.edit);
    } else if e.Proceed? && !s.pass.Idle? && !s.pass.AddFinalizer? && !s.pass.PersistReady? && !s.pass.DropFinalizer? {
      if s.pass.Define? {
        DefineConverges(lib, s, e);
      } else if s.pass.WriteSecret? {
        WriteConverges(lib, s, e);
      } else if s.pass.WriteStatus? {
        StatusConverges(lib, s, e);
      } else if s.pass.ForcedDelete? || s.pass.ConnectToRemove? || s.pass.RemoveUser? || s.pass.DeleteSecret? || s.pass.GetLatest? {
        DeletionIsModest(lib, s, e);
      } else if s.pass.GetTls? || s.pass.GetTarget? || s.pass.Connect? {
        TargetIsModest(lib, s, e);
      } else {
        ResolveIsModest(lib, s, e);
      }
    }
  }

  lemma {:induction false} RunConverges(lib: Libraries, s: State, es: seq<Event>)
    requires s.pass.Idle? && Schedules.Settled(s.world) && AwayRun(lib, s, es) && ProperDigest(lib)
    ensures Converging(lib, Run(lib, s, es)) && Schedules.Sound(Run(lib, s, es))
    decreases |es|
  {
    if es != [] {
      var t := Run(lib, s, es[..|es| - 1]);
      RunConverges(lib, s, es[..|es| - 1]);
      RunResolvesWell(lib, s, es[..|es| - 1]);
      StepConverges(lib, t, es[|es| - 1]);
      Schedules.StepFollows(lib, t, es[|es| - 1]);
    }
  }

  // ----- storing Ready -----

  /** The call gives the credential a new status. */
  predicate StoresStatus(w: World, v: World, k: NamespacedName) {
    k in v.credentials && !(k in w.credentials && w.credentials[k].status == v.credentials[k].status)
  }

  lemma StatusWriteReaches(w: World, key: NamespacedName, c: Credential, fault: Fault, k: NamespacedName)
    requires var v := Attempt(w, TryUpdateStatus(w, key, c), fault).0; StoresStatus(w, v, k)
    ensures var v := Attempt(w, TryUpdateStatus(w, key, c), fault).0;
            && k == key && IsFresh(w, key, c) && v.secrets == w.secrets && v.users == w.users
            && v.credentials[k].status == StoredStatus(c.status)
            && v.credentials[k] == w.credentials[k].(status := v.credentials[k].status, version := v.credentials[k].version)
  {
    var v := TryUpdateStatus(w, key, c).value;
    StatusWriteEffect(w, key, c, v);
    assert k == key || Lookup(v.credentials, k) == Lookup(w.credentials, k);
  }

  lemma ObjectWriteStoresNoStatus(w: World, key: NamespacedName, c: Credential, fault: Fault, k: NamespacedName)
    ensures !StoresStatus(w, Attempt(w, TryUpdateObject(w, key, c), fault).0, k)
  {
    var attempt := TryUpdateObject(w, key, c);
    if attempt.Some? {
      ObjectWriteEffect(w, key, c, attempt.value);
      assert Lookup(attempt.value.credentials, k) == Lookup(w.credentials, k) || k == key;
    }
  }

  lemma OtherCallsStoreNoStatus(lib: Libraries, s: State, e: Event, k: NamespacedName)
    requires e.Proceed? && !s.pass.WriteStatus? && !s.pass.PersistReady?
    ensures !StoresStatus(s.world, Next(lib, s, e).world, k)
  {
    if s.pass.AddFinalizer? {
      ObjectWriteStoresNoStatus(s.world, s.pass.key, s.pass.cred, e.fault, k);
    } else if s.pass.DropFinalizer? {
      ObjectWriteStoresNoStatus(s.world, s.pass.key, s.pass.latest, e.fault, k);
    } else {
      OtherCallsLeaveCredentials(lib, s, e);
    }
  }

  lemma OtherCallsLeaveCredentials(lib: Libraries, s: State, e: Event)
    requires e.Proceed? && !s.pass.WriteStatus? && !s.pass.PersistReady? && !s.pass.AddFinalizer? && !s.pass.DropFinalizer?
    ensures Next(lib, s, e).world.credentials == s.world.credentials
  {
    if s.pass.WriteSecret? {
      SecretWriteLeavesCredentials(lib, s.world, s.pass, e.fault);
    }
  }

  lemma SecretWriteLeavesCredentials(lib: Libraries, w: World, p: Pass, fault: Fault)
    requires p.WriteSecret?
    ensures Attempt(w, SecretWrite(lib, w, p.key, p.cred, p.resolved, p.plan), fault).0.credentials == w.credentials
  {
    var desired := DesiredSecret(lib, p.key, p.cred, p.resolved, p.plan.password);
    assert StoreSecret(w, TargetKey(p.key, p.cred), desired).credentials == w.credentials;
  }

  /** The write of a status that takes effect, whether or not it changes anything. */
  lemma StatusWriteLeaves(w: World, key: NamespacedName, c: Credential, fault: Fault)
    requires IsFresh(w, key, c) && !fault.Lost?
    ensures var v := Attempt(w, TryUpdateStatus(w, key, c), fault).0;
            && v.secrets == w.secrets && v.users == w.users
            && (key in v.credentials ==>
                  v.credentials[key] == w.credentials[key].(status := StoredStatus(c.status), version := v.credentials[key].version))
  {
    StatusWriteEffect(w, key, c, TryUpdateStatus(w, key, c).value);
  }

  /**
   * Convergence. Start from any stores at all: any remote user, owned or absent Secret, leftovers of a
   * pass that stopped anywhere. Run any passes with any faults, crashes and edits that stay away from
   * what the pass in progress has just written. Whenever the final write of a pass takes effect, even
   * one that finds Ready already stored, Ready is stored and the Secret of the stored credential gives
   * the password of the login just defined; with backslash-free names and a password that prints, it
   * leads to that login.
   */
  lemma ReadyMeansDelivered(lib: Libraries, s: State, es: seq<Event>, e: Event)
    requires s.pass.Idle? && Schedules.Settled(s.world) && AwayRun(lib, s, es) && ProperDigest(lib)
    requires var t := Run(lib, s, es);
             t.pass.PersistReady? && e.Proceed? && !e.fault.Lost? && IsFresh(t.world, t.pass.key, t.pass.cred)
    ensures var p, v := Run(lib, s, es).pass, Next(lib, Run(lib, s, es), e).world;
            p.key in v.credentials ==>
              var c := v.credentials[p.key];
              && IsReady(c)
              && Keeps(lib, v, p.key, c, p.resolved, p.plan.password) && Defined(lib, v, c, p.resolved, p.plan.password)
              && (PlainTarget(SurrealTarget(c, p.resolved)) && AllPrint(lib, p.plan.password) ==>
                    Delivered(lib, v, p.key, c, p.resolved, p.plan.password))
  {
    var t := Run(lib, s, es);
    RunConverges(lib, s, es);
    RunResolvesWell(lib, s, es);
    StatusWriteLeaves(t.world, t.pass.key, t.pass.cred, e.fault);
    FinalWriteDelivers(lib, t.world, Next(lib, t, e).world, t.pass);
  }

  lemma FinalWriteDelivers(lib: Libraries, w: World, v: World, p: Pass)
    requires p.PersistReady? && Converging(lib, State(w, p, [])) && Schedules.Tracked(w, p) && WellResolved(p)
    requires IsFresh(w, p.key, p.cred) && v.secrets == w.secrets && v.users == w.users
    requires p.key in v.credentials ==>
               v.credentials[p.key] == w.credentials[p.key].(status := StoredStatus(p.cred.status), version := v.credentials[p.key].version)
    ensures p.key in v.credentials ==>
              var c := v.credentials[p.key];
              && IsReady(c)
              && Keeps(lib, v, p.key, c, p.resolved, p.plan.password) && Defined(lib, v, c, p.resolved, p.plan.password)
              && (PlainTarget(SurrealTarget(c, p.resolved)) && AllPrint(lib, p.plan.password) ==>
                    Delivered(lib, v, p.key, c, p.resolved, p.plan.password))
  {
    if p.key in v.credentials {
      var c := v.credentials[p.key];
      assert c.spec == p.cred.spec && c.uid == p.cred.uid;
      assert UserOf(c, p.resolved) == UserOf(p.cred, p.resolved) && LocatedFor(c, p.resolved) == LocatedFor(p.cred, p.resolved);
      DefinedIsDeliveredIff(lib, v, p.key, c, p.resolved, p.plan.password);
    }
  }

  /** And nothing else ever stores a status that says Ready. */
  lemma OnlyFinalWritesStoreReady(lib: Libraries, s: State, es: seq<Event>, e: Event, k: NamespacedName)
    requires s.pass.Idle? && Schedules.Settled(s.world) && AwayRun(lib, s, es) && ProperDigest(lib) && e.Proceed?
    requires var t := Run(lib, s, es);
             var v := Next(lib, t, e).world;
             StoresStatus(t.world, v, k) && IsReady(v.credentials[k])
    ensures var t := Run(lib, s, es);
            t.pass.PersistReady? && t.pass.key == k && IsFresh(t.world, k, t.pass.cred)
  {
    var t := Run(lib, s, es);
    RunConverges(lib, s, es);
    if !t.pass.WriteStatus? && !t.pass.PersistReady? {
      OtherCallsStoreNoStatus(lib, t, e, k);
    } else {
      StatusWriteReaches(t.world, t.pass.key, t.pass.cred, e.fault, k);
    }
  }
}
