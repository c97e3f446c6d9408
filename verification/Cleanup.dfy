/**
 * Cleanup over whole runs of the protocol for one credential: with any fault at any call, crashes,
 * and outside edits in between, the managed user and the owned Secret exist only while the finalizer
 * is stored.
 */
module Cleanup {
  import opened Prelude
  import opened Platform
  import opened Api
  import opened Cluster
  import opened Policy
  import opened Queries
  import opened Server
  import opened TargetSecret
  import opened Protocol
  import opened QueryMeaning
  import Tls
  import Username

  /** The credential under study, and the target and Secret name its run keeps fixed. */
  datatype Pin = Pin(
    key: NamespacedName,
    policyRef: string,
    level: UserLevel,
    database: string,
    targetSecret: string,
    provider: string,
    surrealNamespace: string,
    endpoint: string,
    user: RemoteUser)

  function PinnedTarget(pin: Pin): PolicyTarget {
    PolicyTarget(pin.provider, pin.surrealNamespace, pin.database, pin.level)
  }

  function PinnedScope(pin: Pin): UserTarget {
    UserTarget(pin.level, pin.surrealNamespace, pin.database)
  }

  /** `user` is the managed remote user: the generated username, at the place the texts for the pinned target are read as. */
  predicate ManagesUser(lib: Libraries, pin: Pin) {
    pin.user == Located(pin.endpoint, PinnedScope(pin),
                        Username.Username(lib, pin.key.namespace, pin.key.name, PinnedTarget(pin)))
  }

  function SecretKey(pin: Pin): NamespacedName {
    NamespacedName(pin.key.namespace, pin.targetSecret)
  }

  predicate SpecPinned(pin: Pin, c: Credential) {
    && c.spec.policyRef == pin.policyRef && c.spec.level == pin.level
    && c.spec.database == pin.database && c.spec.targetSecret == pin.targetSecret
    && !ForceCleanup(c)
  }

  predicate PolicyPinned(pin: Pin, p: PolicySpec) {
    p.providerRef == pin.provider && p.surrealNamespace == pin.surrealNamespace
  }

  /** The objects that decide the target, where they exist, name the pinned one; no force-cleanup is asked for. */
  predicate WorldPinned(pin: Pin, w: World) {
    var policyKey := NamespacedName(pin.key.namespace, pin.policyRef);
    && (pin.key in w.credentials ==> SpecPinned(pin, w.credentials[pin.key]))
    && (policyKey in w.policies ==> PolicyPinned(pin, w.policies[policyKey]))
    && (pin.provider in w.providers ==> w.providers[pin.provider].endpoint == pin.endpoint)
  }

  // ----- what is guarded -----

  predicate Guarded(pin: Pin, w: World) {
    pin.key in w.credentials && FINALIZER in w.credentials[pin.key].finalizers
  }

  /** The Secret names a credential of this name as its owner. */
  predicate Claimed(pin: Pin, w: World) {
    var k := SecretKey(pin);
    k in w.secrets && exists i :: 0 <= i < |w.secrets[k].owners| && Claims(w.secrets[k].owners[i], pin.key.name)
  }

  /** Every such claim names the stored credential itself. */
  predicate ClaimsTrue(pin: Pin, w: World) {
    var k := SecretKey(pin);
    k in w.secrets ==>
      forall i :: 0 <= i < |w.secrets[k].owners| && Claims(w.secrets[k].owners[i], pin.key.name) ==>
        pin.key in w.credentials && w.secrets[k].owners[i].uid == w.credentials[pin.key].uid
  }

  predicate Safe(pin: Pin, w: World) {
    && (pin.user in w.users || Claimed(pin, w) ==> Guarded(pin, w))
    && ClaimsTrue(pin, w)
  }

  // ----- what a pass knows -----

  /** The object in memory is the stored credential, finalizer included. */
  predicate Held(pin: Pin, w: World, c: Credential) {
    SpecPinned(pin, c) && Guarded(pin, w) && w.credentials[pin.key].uid == c.uid
  }

  predicate ResolvedPinned(pin: Pin, r: Resolved) {
    PolicyPinned(pin, r.policy) && r.provider.endpoint == pin.endpoint && r.username == pin.user.username
  }

  predicate Cleared(pin: Pin, w: World) {
    pin.user !in w.users && !Claimed(pin, w)
  }

  /** Stages past the finalizer check that hold the credential. */
  predicate HasCredential(pass: Pass) {
    !pass.Idle? && !pass.GetCredential? && !pass.AddFinalizer? && !pass.GetLatest? && !pass.DropFinalizer?
  }

  predicate PassKnows(pin: Pin, w: World, pass: Pass) {
    && !pass.ForcedDelete?
    && (!pass.Idle? ==> pass.key == pin.key)
    && (pass.AddFinalizer? ==> SpecPinned(pin, pass.cred) && FINALIZER in pass.cred.finalizers)
    && (HasCredential(pass) ==> Held(pin, w, pass.cred))
    && (pass.GetProvider? || pass.GetRoot? || pass.GetTls? ==> PolicyPinned(pin, pass.policy))
    && (pass.GetRoot? || pass.GetTls? ==> pass.provider.endpoint == pin.endpoint)
    && (HasResolved(pass) ==> ResolvedPinned(pin, pass.resolved))
    && (pass.WriteStatus? ==> !pass.followUp.Unfinalize?)
    && (pass.DeleteSecret? ==> pin.user !in w.users)
    && (pass.GetLatest? || pass.DropFinalizer? ==> Cleared(pin, w))
    && (pass.DropFinalizer? ==> SpecPinned(pin, pass.latest))
  }

  predicate Inv(pin: Pin, s: State) {
    WorldPinned(pin, s.world) && Safe(pin, s.world) && PassKnows(pin, s.world, s.pass)
  }

  // ----- what outside writers may do -----

  /**
   * Anything that keeps the target pinned, leaves this finalizer as it is, does not forge an owner
   * reference to this credential, and does not itself define the managed user.
   */
  predicate Fair(pin: Pin, w: World, e: Edit) {
    && WorldPinned(pin, Apply(w, e))
    && (e.EditCredential? && e.key == pin.key && pin.key in w.credentials ==>
          (FINALIZER in e.finalizers <==> FINALIZER in w.credentials[pin.key].finalizers))
    && (e.PutSecret? && e.key == SecretKey(pin) ==>
          forall i :: 0 <= i < |e.secret.owners| && Claims(e.secret.owners[i], pin.key.name) ==>
            e.key in w.secrets && e.secret.owners[i] in w.secrets[e.key].owners)
    && (e.PutUser? ==> e.user != pin.user)
  }

  predicate EventFair(pin: Pin, s: State, e: Event) {
    match e
    case Outside(edit) => Fair(pin, s.world, edit)
    case Begin(key) => key == pin.key
    case _ => true
  }

  ghost predicate FairRun(lib: Libraries, pin: Pin, s: State, es: seq<Event>)
    decreases |es|
  {
    es == [] || (FairRun(lib, pin, s, es[..|es| - 1]) && EventFair(pin, Run(lib, s, es[..|es| - 1]), es[|es| - 1]))
  }

  // ----- every step keeps the invariant -----

  /** Nothing guarded is lost, and nothing to guard is gained. */
  predicate Preserves(pin: Pin, w: World, v: World) {
    && (Guarded(pin, w) ==> Guarded(pin, v) && v.credentials[pin.key].uid == w.credentials[pin.key].uid)
    && (pin.user in v.users ==> pin.user in w.users)
    && (Claimed(pin, v) ==> Claimed(pin, w))
  }

  lemma PreservesKnows(pin: Pin, w: World, v: World, pass: Pass)
    requires Preserves(pin, w, v) && PassKnows(pin, w, pass)
    ensures PassKnows(pin, v, pass)
  {
  }

  /** An outside step that preserves, keeps the target pinned and forges no claim. */
  lemma OutsideFrame(pin: Pin, s: State, v: World)
    requires Inv(pin, s) && WorldPinned(pin, v)
    requires Preserves(pin, s.world, v) && ClaimsTrue(pin, v)
    ensures Inv(pin, s.(world := v))
  {
    PreservesKnows(pin, s.world, v, s.pass);
  }

  lemma SecretEditKeeps(pin: Pin, s: State, key: NamespacedName, secret: Secret)
    requires Inv(pin, s) && Fair(pin, s.world, Cluster.PutSecret(key, secret))
    ensures Inv(pin, s.(world := Apply(s.world, Cluster.PutSecret(key, secret))))
  {
    var w := s.world;
    var v := Apply(w, Cluster.PutSecret(key, secret));
    var k := SecretKey(pin);
    if key == k && v != w {
      forall i | 0 <= i < |v.secrets[k].owners| && Claims(v.secrets[k].owners[i], pin.key.name)
        ensures Claimed(pin, w)
        ensures pin.key in w.credentials && v.secrets[k].owners[i].uid == w.credentials[pin.key].uid
      {
        var j :| 0 <= j < |w.secrets[k].owners| && w.secrets[k].owners[j] == secret.owners[i];
      }
    }
    OutsideFrame(pin, s, v);
  }

  /** An edit of the pinned credential that leaves its finalizer cannot make it go away. */
  lemma EditPreserves(pin: Pin, w: World, key: NamespacedName, finalizers: set<string>, annotations: map<string, string>, spec: CredentialSpec)
    requires key == pin.key && Guarded(pin, w) ==> FINALIZER in finalizers
    requires Guarded(pin, w)
    ensures var v := Apply(w, EditCredential(key, finalizers, annotations, spec));
            Guarded(pin, v) && v.credentials[pin.key].uid == w.credentials[pin.key].uid
  {
    if key == pin.key {
      var c := w.credentials[key];
      assert FINALIZER in finalizers * c.finalizers;
    }
  }

  lemma DeletePreserves(pin: Pin, w: World, key: NamespacedName)
    requires Guarded(pin, w)
    ensures var v := Apply(w, DeleteCredential(key));
            Guarded(pin, v) && v.credentials[pin.key].uid == w.credentials[pin.key].uid
  {
    if key == pin.key {
      assert w.credentials[key].finalizers != {};
    }
  }

  /** Edits of credentials other than the pinned one, or of the pinned one with its finalizer as it is. */
  lemma CredentialEditPreserves(pin: Pin, w: World, e: Edit)
    requires e.CreateCredential? || e.EditCredential? || e.DeleteCredential?
    requires Fair(pin, w, e)
    ensures var v := Apply(w, e);
            && v.secrets == w.secrets && v.users == w.users
            && (Guarded(pin, w) ==> Guarded(pin, v) && v.credentials[pin.key].uid == w.credentials[pin.key].uid)
  {
    if Guarded(pin, w) {
      match e
      case EditCredential(key, finalizers, annotations, spec) => EditPreserves(pin, w, key, finalizers, annotations, spec);
      case DeleteCredential(key) => DeletePreserves(pin, w, key);
      case CreateCredential(_, _, _, _, _) =>
    }
  }

  lemma CredentialEditKeeps(pin: Pin, s: State, e: Edit)
    requires e.CreateCredential? || e.EditCredential? || e.DeleteCredential?
    requires Inv(pin, s) && Fair(pin, s.world, e)
    ensures Inv(pin, s.(world := Apply(s.world, e)))
  {
    var w, v := s.world, Apply(s.world, e);
    CredentialEditPreserves(pin, w, e);
    assert Claimed(pin, v) <==> Claimed(pin, w);
    assert ClaimsTrue(pin, v) by {
      if Claimed(pin, w) {
        assert Guarded(pin, w);
      }
    }
    OutsideFrame(pin, s, v);
  }

  lemma OutsideKeeps(pin: Pin, s: State, e: Edit)
    requires Inv(pin, s) && Fair(pin, s.world, e)
    ensures Inv(pin, s.(world := Apply(s.world, e)))
  {
    if e.PutSecret? {
      SecretEditKeeps(pin, s, e.key, e.secret);
    } else if e.CreateCredential? || e.EditCredential? || e.DeleteCredential? {
      CredentialEditKeeps(pin, s, e);
    } else {
      OutsideFrame(pin, s, Apply(s.world, e));
    }
  }

  // Reads and connections leave the stores alone and learn pinned facts.

  lemma GetCredentialKnows(pin: Pin, w: World, fault: Fault)
    requires WorldPinned(pin, w)
    ensures PassKnows(pin, w, AfterGetCredential(w, pin.key, fault))
  {
  }

  lemma ResolveKnows(pin: Pin, w: World, pass: Pass, next: Pass, fault: Fault)
    requires WorldPinned(pin, w) && PassKnows(pin, w, pass)
    requires match pass
             case GetPolicy(key, c) => next == AfterGetPolicy(w, key, c, fault)
             case GetProvider(key, c, p) => next == AfterGetProvider(w, key, c, p, fault)
             case GetRoot(key, c, p, v) => next == AfterGetRoot(w, key, c, p, v, fault)
             case _ => false
    ensures PassKnows(pin, w, next)
  {
  }

  lemma GetTlsKnows(lib: Libraries, pin: Pin, w: World, c: Credential, p: PolicySpec, v: ProviderSpec, fault: Fault)
    requires Held(pin, w, c) && PolicyPinned(pin, p) && v.endpoint == pin.endpoint && ManagesUser(lib, pin)
    ensures PassKnows(pin, w, AfterGetTls(lib, w, pin.key, c, p, v, fault))
  {
    assert Evaluate(p, RequestOf(c)).target == PinnedTarget(pin);
    assert ResolvedPinned(pin, ResolvedOf(lib, pin.key, c, p, v));
  }

  lemma GetTargetKnows(pin: Pin, w: World, c: Credential, r: Resolved, fault: Fault, now: int, drawn: Option<string>)
    requires Held(pin, w, c) && ResolvedPinned(pin, r)
    ensures PassKnows(pin, w, AfterGetTarget(w, pin.key, c, r, fault, now, drawn))
  {
  }

  lemma ResolveKeeps(lib: Libraries, pin: Pin, s: State, fault: Fault, now: int, drawn: Option<string>)
    requires Inv(pin, s)
    requires s.pass.GetCredential? || s.pass.GetPolicy? || s.pass.GetProvider? || s.pass.GetRoot?
    ensures Inv(pin, Advance(lib, s, fault, now, drawn))
  {
    var t := Advance(lib, s, fault, now, drawn);
    if s.pass.GetCredential? {
      GetCredentialKnows(pin, s.world, fault);
    } else {
      ResolveKnows(pin, s.world, s.pass, t.pass, fault);
    }
  }

  lemma TlsKeeps(lib: Libraries, pin: Pin, s: State, fault: Fault, now: int, drawn: Option<string>)
    requires Inv(pin, s) && s.pass.GetTls? && ManagesUser(lib, pin)
    ensures Inv(pin, Advance(lib, s, fault, now, drawn))
  {
    GetTlsKnows(lib, pin, s.world, s.pass.cred, s.pass.policy, s.pass.provider, fault);
  }

  lemma TargetKeeps(lib: Libraries, pin: Pin, s: State, fault: Fault, now: int, drawn: Option<string>)
    requires Inv(pin, s) && s.pass.GetTarget?
    ensures Inv(pin, Advance(lib, s, fault, now, drawn))
  {
    GetTargetKnows(pin, s.world, s.pass.cred, s.pass.resolved, fault, now, drawn);
  }

  lemma ConnectKeeps(lib: Libraries, pin: Pin, s: State, fault: Fault, now: int, drawn: Option<string>)
    requires Inv(pin, s) && (s.pass.Connect? || s.pass.ConnectToRemove? || s.pass.GetLatest?)
    ensures Inv(pin, Advance(lib, s, fault, now, drawn))
  {
  }

  /** Writing a credential without touching its finalizer or its identity. */
  lemma StatusWriteKeeps(pin: Pin, w: World, c: Credential, fault: Fault)
    requires WorldPinned(pin, w) && Safe(pin, w) && Held(pin, w, c)
    ensures var v := Attempt(w, TryUpdateStatus(w, pin.key, c), fault).0;
            WorldPinned(pin, v) && Safe(pin, v) && Held(pin, v, c) && SpecPinned(pin, v.credentials[pin.key])
  {
    var v := Attempt(w, TryUpdateStatus(w, pin.key, c), fault).0;
    assert v.secrets == w.secrets && v.users == w.users;
    assert Claimed(pin, v) <==> Claimed(pin, w);
  }

  lemma StatusOutcomeKnows(pin: Pin, w: World, c: Credential, followUp: FollowUp, ok: bool)
    requires Held(pin, w, c) && SpecPinned(pin, w.credentials[pin.key]) && !followUp.Unfinalize?
    ensures PassKnows(pin, w, AfterWriteStatus(w, pin.key, c, followUp, ok))
  {
  }

  lemma StatusKeeps(lib: Libraries, pin: Pin, s: State, fault: Fault, now: int, drawn: Option<string>)
    requires Inv(pin, s) && (s.pass.WriteStatus? || s.pass.PersistReady?)
    ensures Inv(pin, Advance(lib, s, fault, now, drawn))
  {
    var w, c := s.world, s.pass.cred;
    StatusWriteKeeps(pin, w, c, fault);
    if s.pass.WriteStatus? {
      var o := Attempt(w, TryUpdateStatus(w, pin.key, c), fault);
      StatusOutcomeKnows(pin, o.0, c, s.pass.followUp, o.1);
    }
  }

  /** Writing the finalizer. */
  lemma AddFinalizerKeeps(lib: Libraries, pin: Pin, s: State, fault: Fault, now: int, drawn: Option<string>)
    requires Inv(pin, s) && s.pass.AddFinalizer?
    ensures Inv(pin, Advance(lib, s, fault, now, drawn))
  {
    var w, c := s.world, s.pass.cred;
    var attempt := TryUpdateObject(w, pin.key, c);
    assert c.finalizers != {};
    if attempt.Some? {
      var v := attempt.value;
      ObjectWriteEffect(w, pin.key, c, v);
      assert Guarded(pin, v);
      assert WorldPinned(pin, v) && ClaimsTrue(pin, v);
    }
  }

  /** Taking the finalizer away once nothing is left to guard. */
  lemma DropFinalizerKeeps(lib: Libraries, pin: Pin, s: State, fault: Fault, now: int, drawn: Option<string>)
    requires Inv(pin, s) && s.pass.DropFinalizer?
    ensures Inv(pin, Advance(lib, s, fault, now, drawn))
  {
    var w, c := s.world, s.pass.latest;
    var attempt := TryUpdateObject(w, pin.key, c);
    if attempt.Some? {
      ObjectWriteStaysCleared(pin, w, attempt.value, c);
    }
    assert Advance(lib, s, fault, now, drawn) == s.(world := Attempt(w, attempt, fault).0, pass := Idle);
  }

  lemma ObjectWriteStaysCleared(pin: Pin, w: World, v: World, c: Credential)
    requires WorldPinned(pin, w) && Cleared(pin, w) && SpecPinned(pin, c)
    requires TryUpdateObject(w, pin.key, c) == Some(v)
    ensures WorldPinned(pin, v) && Safe(pin, v)
  {
    ObjectWriteEffect(w, pin.key, c, v);
    assert Claimed(pin, v) <==> Claimed(pin, w);
  }

  lemma DefineOutcomeKeeps(pin: Pin, w: World, v: World, c: Credential, r: Resolved, p: Plan, ok: bool)
    requires WorldPinned(pin, w) && Safe(pin, w) && Held(pin, w, c) && ResolvedPinned(pin, r)
    requires v == w.(users := v.users)
    ensures WorldPinned(pin, v) && Safe(pin, v) && PassKnows(pin, v, AfterDefine(pin.key, c, r, p, ok))
  {
    assert Claimed(pin, v) <==> Claimed(pin, w);
  }

  lemma DefineKeeps(lib: Libraries, pin: Pin, s: State, fault: Fault, now: int, drawn: Option<string>)
    requires Inv(pin, s) && s.pass.Define?
    ensures Inv(pin, Advance(lib, s, fault, now, drawn))
  {
    var w, p := s.world, s.pass;
    var o := Answer(w, AskToDefine(lib, w, UserOf(p.cred, p.resolved), p.plan.password, p.cred.spec.roles), fault);
    DefineOutcomeKeeps(pin, w, o.0, p.cred, p.resolved, p.plan, o.1);
  }

  lemma RemoveOutcomeKeeps(pin: Pin, w: World, v: World, c: Credential, ok: bool)
    requires WorldPinned(pin, w) && Safe(pin, w) && Held(pin, w, c)
    requires v == w.(users := v.users)
    requires ok ==> pin.user !in v.users
    ensures WorldPinned(pin, v) && Safe(pin, v) && PassKnows(pin, v, AfterRemoveUser(pin.key, c, ok))
  {
    assert Claimed(pin, v) <==> Claimed(pin, w);
  }

  /** A removal that succeeds has taken the managed user. */
  lemma RemovalTakesManaged(lib: Libraries, pin: Pin, w: World, c: Credential, r: Resolved)
    requires ManagesUser(lib, pin) && ProperDigest(lib) && SpecPinned(pin, c) && ResolvedPinned(pin, r)
    ensures var o := AskToRemove(w, UserOf(c, r));
            && o.0 == w.(users := o.0.users) && o.0.users.Keys <= w.users.Keys
            && (o.1 ==> pin.user !in o.0.users)
            && (o.1 <==> Nameable(PinnedScope(pin)))
            && (!o.1 ==> o.0 == w)
  {
    Username.UsernameIsItsOwnIdentifier(lib, pin.key.namespace, pin.key.name, PinnedTarget(pin));
    RemovalEffect(pin.endpoint, w.users, PinnedScope(pin), r.username);
  }

  lemma RemoveKeeps(lib: Libraries, pin: Pin, s: State, fault: Fault, now: int, drawn: Option<string>)
    requires Inv(pin, s) && s.pass.RemoveUser? && ManagesUser(lib, pin) && ProperDigest(lib)
    ensures Inv(pin, Advance(lib, s, fault, now, drawn))
  {
    var w, p := s.world, s.pass;
    RemovalTakesManaged(lib, pin, w, p.cred, p.resolved);
    var o := Answer(w, AskToRemove(w, UserOf(p.cred, p.resolved)), fault);
    RemoveOutcomeKeeps(pin, w, o.0, p.cred, o.1);
  }

  /** The written Secret claims exactly the credential in memory. */
  lemma SecretWriteClaims(lib: Libraries, pin: Pin, w: World, v: World, c: Credential, r: Resolved, p: Plan)
    requires Held(pin, w, c) && SecretWrite(lib, w, pin.key, c, r, p) == Some(v)
    ensures v.credentials == w.credentials && v.users == w.users
    ensures v.policies == w.policies && v.providers == w.providers
    ensures ClaimsTrue(pin, v)
  {
    assert TargetKey(pin.key, c) == SecretKey(pin);
    assert v.secrets[SecretKey(pin)].owners == DesiredSecret(lib, pin.key, c, r, p.password).owners;
  }

  lemma SecretOutcomeKeeps(pin: Pin, w: World, v: World, c: Credential, r: Resolved, p: Plan, ok: bool)
    requires WorldPinned(pin, w) && Safe(pin, w) && Held(pin, w, c) && ResolvedPinned(pin, r)
    requires v.credentials == w.credentials && v.users == w.users && v.policies == w.policies && v.providers == w.providers
    requires ClaimsTrue(pin, v)
    ensures WorldPinned(pin, v) && Safe(pin, v) && PassKnows(pin, v, AfterWriteSecret(pin.key, c, r, p, ok))
  {
  }

  lemma SecretWriteKeeps(lib: Libraries, pin: Pin, s: State, fault: Fault, now: int, drawn: Option<string>)
    requires Inv(pin, s) && s.pass.WriteSecret?
    ensures Inv(pin, Advance(lib, s, fault, now, drawn))
  {
    var w, p := s.world, s.pass;
    var attempt := SecretWrite(lib, w, p.key, p.cred, p.resolved, p.plan);
    if attempt.Some? {
      SecretWriteClaims(lib, pin, w, attempt.value, p.cred, p.resolved, p.plan);
    }
    var o := Attempt(w, attempt, fault);
    SecretOutcomeKeeps(pin, w, o.0, p.cred, p.resolved, p.plan, o.1);
  }

  /** Deleting the owned Secret leaves no claim behind. */
  lemma SecretDeleteKeeps(lib: Libraries, pin: Pin, s: State, fault: Fault, now: int, drawn: Option<string>)
    requires Inv(pin, s) && s.pass.DeleteSecret?
    ensures Inv(pin, Advance(lib, s, fault, now, drawn))
  {
    var w, v := s.world, Advance(lib, s, fault, now, drawn).world;
    var k, c := SecretKey(pin), s.pass.cred;
    assert TargetKey(s.pass.key, c) == k;
    assert Claimed(pin, w) ==> IsOwnedByCredential(w.secrets[k], pin.key.name, c.uid);
    assert Claimed(pin, v) ==> Claimed(pin, w);
    assert Claimed(pin, DeleteOwnedSecret(w, k, pin.key.name, c.uid)) ==> false;
  }

  lemma LiveStepKeeps(lib: Libraries, pin: Pin, s: State, fault: Fault, now: int, drawn: Option<string>)
    requires Inv(pin, s) && ManagesUser(lib, pin)
    requires s.pass.AddFinalizer? || s.pass.GetTarget? || s.pass.Connect? || s.pass.Define? || s.pass.WriteSecret? || s.pass.PersistReady?
    ensures Inv(pin, Advance(lib, s, fault, now, drawn))
  {
    match s.pass
    case AddFinalizer(_, _) => AddFinalizerKeeps(lib, pin, s, fault, now, drawn);
    case GetTarget(_, _, _) => TargetKeeps(lib, pin, s, fault, now, drawn);
    case Connect(_, _, _, _) => ConnectKeeps(lib, pin, s, fault, now, drawn);
    case Define(_, _, _, _) => DefineKeeps(lib, pin, s, fault, now, drawn);
    case WriteSecret(_, _, _, _) => SecretWriteKeeps(lib, pin, s, fault, now, drawn);
    case PersistReady(_, _, _, _) => StatusKeeps(lib, pin, s, fault, now, drawn);
  }

  lemma DeletionStepKeeps(lib: Libraries, pin: Pin, s: State, fault: Fault, now: int, drawn: Option<string>)
    requires Inv(pin, s) && ManagesUser(lib, pin) && ProperDigest(lib)
    requires s.pass.ConnectToRemove? || s.pass.RemoveUser? || s.pass.DeleteSecret? || s.pass.GetLatest? || s.pass.DropFinalizer?
    ensures Inv(pin, Advance(lib, s, fault, now, drawn))
  {
    match s.pass
    case RemoveUser(_, _, _) => RemoveKeeps(lib, pin, s, fault, now, drawn);
    case DeleteSecret(_, _) => SecretDeleteKeeps(lib, pin, s, fault, now, drawn);
    case DropFinalizer(_, _) => DropFinalizerKeeps(lib, pin, s, fault, now, drawn);
    case _ => ConnectKeeps(lib, pin, s, fault, now, drawn);
  }

  lemma CallKeeps(lib: Libraries, pin: Pin, s: State, fault: Fault, now: int, drawn: Option<string>)
    requires Inv(pin, s) && ManagesUser(lib, pin) && ProperDigest(lib)
    ensures Inv(pin, Advance(lib, s, fault, now, drawn))
  {
    if s.pass.Idle? {
    } else if s.pass.WriteStatus? {
      StatusKeeps(lib, pin, s, fault, now, drawn);
    } else if s.pass.GetTls? {
      TlsKeeps(lib, pin, s, fault, now, drawn);
    } else if s.pass.GetCredential? || s.pass.GetPolicy? || s.pass.GetProvider? || s.pass.GetRoot? {
      ResolveKeeps(lib, pin, s, fault, now, drawn);
    } else if s.pass.ConnectToRemove? || s.pass.RemoveUser? || s.pass.DeleteSecret? || s.pass.GetLatest? || s.pass.DropFinalizer? {
      DeletionStepKeeps(lib, pin, s, fault, now, drawn);
    } else {
      LiveStepKeeps(lib, pin, s, fault, now, drawn);
    }
  }

  lemma StepKeeps(lib: Libraries, pin: Pin, s: State, e: Event)
    requires Inv(pin, s) && EventFair(pin, s, e) && ManagesUser(lib, pin) && ProperDigest(lib)
    ensures Inv(pin, Next(lib, s, e))
  {
    match e
    case Outside(edit) => OutsideKeeps(pin, s, edit);
    case Proceed(fault, now, drawn) => CallKeeps(lib, pin, s, fault, now, drawn);
    case Begin(_) =>
    case Crash =>
  }

  lemma {:induction false} RunKeeps(lib: Libraries, pin: Pin, s: State, es: seq<Event>)
    requires Inv(pin, s) && FairRun(lib, pin, s, es) && ManagesUser(lib, pin) && ProperDigest(lib)
    ensures Inv(pin, Run(lib, s, es))
    decreases |es|
  {
    if es != [] {
      RunKeeps(lib, pin, s, es[..|es| - 1]);
      StepKeeps(lib, pin, Run(lib, s, es[..|es| - 1]), es[|es| - 1]);
    }
  }

  /**
   * Cleanup safety. At every moment of every fair run the managed user, and any Secret at the target
   * name that names this credential as owner, exist only while the finalizer is stored; so once the
   * finalizer is gone neither remains.
   */
  lemma CleanupSafety(lib: Libraries, pin: Pin, s: State, es: seq<Event>)
    requires ManagesUser(lib, pin) && ProperDigest(lib) && s.pass.Idle? && WorldPinned(pin, s.world) && Safe(pin, s.world)
    requires FairRun(lib, pin, s, es)
    ensures var w := Run(lib, s, es).world;
            && (pin.user in w.users ==> Guarded(pin, w))
            && (!Guarded(pin, w) ==> pin.user !in w.users && !Claimed(pin, w))
            && (Claimed(pin, w) ==> Guarded(pin, w) && ClaimsTrue(pin, w))
  {
    RunKeeps(lib, pin, s, es);
  }
}
