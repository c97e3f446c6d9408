/**
 * The credential reconciler in the form of its source: methods that read the stores, change the
 * objects in memory and write them back, with early exits. Each execution is shown to be a run of the
 * machine of Protocol, so everything proved over runs holds of it.
 */
module Reconciler {
  import opened Prelude
  import opened Platform
  import opened Api
  import opened Cluster
  import opened Policy
  import opened Queries
  import opened TargetSecret
  import opened Tls
  import opened Protocol
  import Grounds
  import Providers
  import Rotation
  import Username

  /** What happens around one call: what others write first, how the call is answered, the clock, the draw. */
  datatype Moment = Moment(edits: seq<Edit>, fault: Fault, now: int, drawn: Option<string>)

  /** What resolve returns: an error, a refusal recorded in the status, or the target. */
  datatype Resolution = Failed | Refused | Found(resolved: Resolved)

  /** Nobody else writes, and the call is answered. */
  const CALM: Moment := Moment([], NoFault, 0, None)

  function Outsides(edits: seq<Edit>): seq<Event> {
    if edits == [] then [] else Outsides(edits[..|edits| - 1]) + [Outside(edits[|edits| - 1])]
  }

  function MomentAt(script: seq<Moment>, i: nat): Moment {
    if i < |script| then script[i] else CALM
  }

  /** The events that calls number `i` to `j` of a script make. */
  function Woven(script: seq<Moment>, i: nat, j: nat): seq<Event>
    requires i <= j
    decreases j
  {
    if i == j then []
    else
      var m := MomentAt(script, j - 1);
      Woven(script, i, j - 1) + Outsides(m.edits) + [Proceed(m.fault, m.now, m.drawn)]
  }

  /**
   * `script` says what happens around each call, and `used` counts the calls made. `history` and
   * `trace` follow the machine: the events so far and the states they lead through; the pass in
   * progress began after `base` with call number `first`.
   */
  class CredentialReconciler {
    const lib: Libraries
    const script: seq<Moment>
    ghost const start: State
    var world: World
    var used: nat
    ghost var trace: seq<State>
    ghost var history: seq<Event>
    ghost var base: seq<Event>
    ghost var first: nat

    /** The machine has followed: the events are those of the script, and it was never idle before them. */
    ghost predicate Followed()
      reads this
    {
      && IsTrace(lib, trace, history) && trace[0] == start && |base| <= |history|
      && forall i :: |base| <= i < |history| ==> !trace[i].pass.Idle?
    }

    ghost predicate Valid()
      reads this
    {
      && Followed() && trace[|history|].world == world
      && first <= used && history == base + Woven(script, first, used)
    }

    /** Where the machine stands. */
    ghost function Stage(): Pass
      reads this
      requires Followed()
    {
      trace[|history|].pass
    }

    constructor (libraries: Libraries, stores: World, moments: seq<Moment>)
      ensures Valid() && Stage() == Idle && lib == libraries && script == moments && world == stores
      ensures start == State(stores, Idle, []) && history == [] && used == 0
    {
      lib, world, script, used := libraries, stores, moments, 0;
      start := State(stores, Idle, []);
      trace, history, base, first := [State(stores, Idle, [])], [], [], 0;
    }

    /** The machine follows. */
    ghost method Follow(e: Event)
      requires Followed() && !Stage().Idle?
      modifies `trace, `history
      ensures Followed() && history == old(history) + [e] && trace == old(trace) + [Next(lib, old(trace[|history|]), e)]
    {
      trace, history := trace + [Next(lib, trace[|history|], e)], history + [e];
    }

    /** The machine begins a pass. */
    ghost method Begins(key: NamespacedName)
      requires Valid() && Stage().Idle?
      modifies `trace, `history, `base, `first
      ensures Valid() && Stage() == Pass.GetCredential(key)
      ensures base == old(history) + [Begin(key)] && first == used && history == base
    {
      trace, history := trace + [Next(lib, trace[|history|], Begin(key))], history + [Begin(key)];
      base, first := history, used;
    }

    /** The machine gets the answer to its call. */
    ghost method Answers(m: Moment)
      requires Followed() && !Stage().Idle? && m == MomentAt(script, used) && first <= used
      requires history == base + Woven(script, first, used) + Outsides(m.edits)
      modifies `trace, `history
      ensures Followed() && history == base + Woven(script, first, used + 1)
      ensures trace == old(trace) + [Advance(lib, old(trace[|history|]), m.fault, m.now, m.drawn)]
      ensures |history| == old(|history|) + 1
    {
      Follow(Proceed(m.fault, m.now, m.drawn));
      assert history == base + (Woven(script, first, used) + Outsides(m.edits) + [Proceed(m.fault, m.now, m.drawn)]);
    }

    // ----- calls -----

    /** One call: others write first, then the machine has its answer; a write is still to be made. */
    method Call() returns (m: Moment)
      requires Valid() && !Stage().Idle?
      modifies `world, `used, `trace, `history
      ensures Followed() && first <= used && history == base + Woven(script, first, used) && |history| > 0
      ensures var before := trace[|history| - 1];
              before.world == world && before.pass == old(Stage()) && trace[|history|] == Advance(lib, before, m.fault, m.now, m.drawn)
    {
      m := if used < |script| then script[used] else CALM;
      ghost var made := history;
      for i := 0 to |m.edits|
        invariant Followed() && trace[|history|].world == world && Stage() == old(Stage()) && used == old(used)
        invariant history == made + Outsides(m.edits[..i])
      {
        assert m.edits[..i + 1][..i] == m.edits[..i];
        world := Apply(world, m.edits[i]);
        Follow(Outside(m.edits[i]));
      }
      assert m.edits[..|m.edits|] == m.edits;
      Answers(m);
      used := used + 1;
    }

    method GetCredential(key: NamespacedName) returns (fault: Fault, found: Option<Credential>)
      requires Valid() && (Stage() == Pass.GetCredential(key) || Stage() == Pass.GetLatest(key))
      modifies `world, `used, `trace, `history
      ensures Valid()
      ensures found == Lookup(world.credentials, key)
      ensures old(Stage()).GetCredential? ==> Stage() == AfterGetCredential(world, key, fault)
      ensures old(Stage()).GetLatest? ==> Stage() == AfterGetLatest(world, key, fault)
    {
      var m := Call();
      fault, found := m.fault, Lookup(world.credentials, key);
    }

    method GetPolicy(key: NamespacedName, name: string, ghost c: Credential) returns (fault: Fault, found: Option<PolicySpec>)
      requires Valid() && Stage() == Pass.GetPolicy(key, c) && name == c.spec.policyRef
      modifies `world, `used, `trace, `history
      ensures Valid()
      ensures found == Lookup(world.policies, NamespacedName(key.namespace, name))
      ensures Stage() == AfterGetPolicy(world, key, c, fault)
    {
      var m := Call();
      fault, found := m.fault, Lookup(world.policies, NamespacedName(key.namespace, name));
    }

    method GetProvider(key: NamespacedName, policy: PolicySpec, ghost c: Credential) returns (fault: Fault, found: Option<ProviderSpec>)
      requires Valid() && Stage() == Pass.GetProvider(key, c, policy)
      modifies `world, `used, `trace, `history
      ensures Valid()
      ensures found == Lookup(world.providers, policy.providerRef)
      ensures Stage() == AfterGetProvider(world, key, c, policy, fault)
    {
      var m := Call();
      fault, found := m.fault, Lookup(world.providers, policy.providerRef);
    }

    /** True when the root credential Secret can be read and holds both keys. */
    method LoadRootCredentials(key: NamespacedName, ghost c: Credential, policy: PolicySpec, provider: ProviderSpec) returns (ok: bool)
      requires Valid() && Stage() == GetRoot(key, c, policy, provider)
      modifies `world, `used, `trace, `history
      ensures Valid()
      ensures Stage() == if ok then GetTls(key, c, policy, provider) else Idle
      ensures ok ==> Providers.RootInOrder(world.secrets, provider)
    {
      var m := Call();
      var ref := provider.root;
      var secret := Lookup(world.secrets, ref.secret);
      Providers.RootIff(world.secrets, provider);
      if !m.fault.NoFault? || secret.None? {
        return false;
      }
      var usernameKey := if ref.usernameKey == "" then "username" else ref.usernameKey;
      var passwordKey := if ref.passwordKey == "" then "password" else ref.passwordKey;
      return Field(secret.value, usernameKey) != "" && Field(secret.value, passwordKey) != "";
    }

    /** True when the TLS material loads; without references nothing is read. */
    method LoadTls(key: NamespacedName, ghost c: Credential, policy: PolicySpec, provider: ProviderSpec) returns (ok: bool)
      requires Valid() && Stage() == GetTls(key, c, policy, provider)
      modifies `world, `used, `trace, `history
      ensures Valid()
      ensures !ok ==> Stage() == WriteStatus(key, Observed(NotReady(c, "ProviderSecretInvalid")), if c.deleting then Stop else Again)
      ensures ok ==>
                var r := ResolvedOf(lib, key, c, policy, provider);
                Stage() == if c.deleting then ConnectToRemove(key, c, r) else GetTarget(key, Accepted(c, r), r)
      ensures ok ==> Providers.TlsInOrder(lib, world.secrets, provider)
    {
      var m := Call();
      Providers.TlsIff(lib, world.secrets, provider);
      Grounds.NoTlsToRead(lib, world.secrets, provider);
      var problem, config := LoadTlsConfig(lib, world.secrets, provider.tls);
      ok := !ReadsTls(provider) || (m.fault.NoFault? && problem.None?);
    }

    /** Writes the status; on success the API server's answer replaces the object in memory. */
    method UpdateStatus(key: NamespacedName, c: Credential) returns (ok: bool, answer: Option<Credential>)
      requires Valid()
      requires match Stage()
               case WriteStatus(k, d, _) => k == key && d == c
               case PersistReady(k, d, _, _) => k == key && d == c
               case _ => false
      modifies `world, `used, `trace, `history
      ensures Valid()
      ensures answer == Lookup(world.credentials, key)
      ensures Stage() == if old(Stage()).WriteStatus? then AfterWriteStatus(world, key, c, old(Stage()).followUp, ok) else Idle
    {
      var m := Call();
      var outcome := Attempt(world, TryUpdateStatus(world, key, c), m.fault);
      world, ok := outcome.0, outcome.1;
      answer := Lookup(world.credentials, key);
    }

    method UpdateObject(key: NamespacedName, c: Credential)
      requires Valid() && (Stage() == AddFinalizer(key, c) || Stage() == DropFinalizer(key, c))
      modifies `world, `used, `trace, `history
      ensures Valid() && Stage() == Idle
    {
      var m := Call();
      world := Attempt(world, TryUpdateObject(world, key, c), m.fault).0;
    }

    /** Reads the target Secret, the clock, and the password generator for later use. */
    method GetTargetSecret(key: NamespacedName, c: Credential, ghost r: Resolved)
      returns (fault: Fault, existing: Option<Secret>, now: int, drawn: Option<string>)
      requires Valid() && Stage() == GetTarget(key, c, r)
      modifies `world, `used, `trace, `history
      ensures Valid()
      ensures existing == Lookup(world.secrets, TargetKey(key, c))
      ensures Stage() == AfterGetTarget(world, key, c, r, fault, now, drawn)
    {
      var m := Call();
      fault, now, drawn := m.fault, m.now, m.drawn;
      existing := Lookup(world.secrets, TargetKey(key, c));
    }

    method NewAdmin() returns (ok: bool)
      requires Valid() && (Stage().Connect? || Stage().ConnectToRemove?)
      modifies `world, `used, `trace, `history
      ensures Valid()
      ensures match old(Stage())
              case Connect(key, c, r, p) => Stage() == AfterConnect(key, c, r, p, if ok then NoFault else Lost)
              case ConnectToRemove(key, c, r) => Stage() == AfterConnectToRemove(key, c, r, if ok then NoFault else Lost)
              case _ => false
    {
      var m := Call();
      ok := m.fault.NoFault?;
    }

    method DefineUser(key: NamespacedName, c: Credential, r: Resolved, password: string, ghost p: Plan) returns (ok: bool)
      requires Valid() && Stage() == Define(key, c, r, p) && password == p.password
      modifies `world, `used, `trace, `history
      ensures Valid()
      ensures Stage() == AfterDefine(key, c, r, p, ok)
    {
      var m := Call();
      var outcome := Answer(world, AskToDefine(lib, world, UserOf(c, r), password, c.spec.roles), m.fault);
      world, ok := outcome.0, outcome.1;
    }

    method RemoveUser(key: NamespacedName, c: Credential, r: Resolved) returns (ok: bool)
      requires Valid() && Stage() == Pass.RemoveUser(key, c, r)
      modifies `world, `used, `trace, `history
      ensures Valid()
      ensures Stage() == AfterRemoveUser(key, c, ok)
    {
      var m := Call();
      var outcome := Answer(world, AskToRemove(world, UserOf(c, r)), m.fault);
      world, ok := outcome.0, outcome.1;
    }

    // ----- the methods of the source -----

    /** Creates the Secret if none was read, else replaces the contents of the one read. */
    method ReconcileTargetSecret(key: NamespacedName, c: Credential, r: Resolved, password: string, existing: Option<Secret>, ghost p: Plan)
      returns (ok: bool)
      requires Valid() && Stage() == WriteSecret(key, c, r, p) && password == p.password && existing == p.existing
      modifies `world, `used, `trace, `history
      ensures Valid()
      ensures Stage() == AfterWriteSecret(key, c, r, p, ok)
    {
      var level := Username.LowerAll(lib, LevelText(c.spec.level));
      var desired := BuildTargetSecret(key.name, c.uid, ConnectionData(r.provider.endpoint, r.policy.surrealNamespace,
                                       c.spec.database, r.username, password, level));
      var m := Call();
      var written: Option<World>;
      if existing.None? {
        written := TryCreateSecret(world, TargetKey(key, c), desired);
      } else {
        var updated := existing.value.(labels := desired.labels, owners := desired.owners, kind := desired.kind, data := desired.data);
        written := TryUpdateSecret(world, TargetKey(key, c), updated);
      }
      var outcome := Attempt(world, written, m.fault);
      world, ok := outcome.0, outcome.1;
    }

    /** Deletes the target Secret if there is one and the credential owns it. */
    method DeleteOwnedTargetSecret(key: NamespacedName, c: Credential) returns (ok: bool)
      requires Valid() && (Stage() == DeleteSecret(key, c) || Stage() == ForcedDelete(key, c))
      modifies `world, `used, `trace, `history
      ensures Valid()
      ensures Stage() == if old(Stage()).DeleteSecret? then AfterDeleteSecret(key, c, ok) else AfterForcedDelete(key, c, ok)
    {
      var m := Call();
      var k, deleted := TargetKey(key, c), world;
      if k in world.secrets {
        var owned := OwnedByCredential(world.secrets[k], key.name, c.uid);
        if owned {
          deleted := world.(secrets := world.secrets - {k});
        }
      }
      var outcome := Attempt(world, Some(deleted), m.fault);
      world, ok := outcome.0, outcome.1;
    }

    method RemoveCredentialFinalizer(key: NamespacedName)
      requires Valid() && Stage() == GetLatest(key)
      modifies `world, `used, `trace, `history
      ensures Valid() && Stage() == Idle
    {
      var fault, found := GetCredential(key);
      if !fault.NoFault? || found.None? {
        return;
      }
      var latest := found.value;
      if FINALIZER !in latest.finalizers {
        return;
      }
      latest := latest.(finalizers := latest.finalizers - {FINALIZER});
      UpdateObject(key, latest);
    }

    method RecordDeleteFailure(key: NamespacedName, c: Credential, reason: string, markSecret: bool)
      requires Valid() && Stage().WriteStatus? && Stage().key == key && Stage().cred == DeleteFailed(c, reason, markSecret)
      requires !Stage().followUp.Again?
      modifies `world, `used, `trace, `history
      ensures Valid()
      ensures Stage() == if old(Stage()).followUp.Stop? then Idle else GetLatest(key)
    {
      var credential := c.(status := c.status.(observedGeneration := c.generation));
      credential := SetCondition(credential, READY, False, reason);
      if markSecret {
        credential := SetCondition(credential, SECRET_READY, False, reason);
      }
      var ok, answer := UpdateStatus(key, credential);
    }

    /** The first half of resolve: reads the policy and has it judge the request. */
    method Authorize(key: NamespacedName, c: Credential) returns (fault: Fault, allowed: Option<PolicySpec>, credential: Credential)
      requires Valid() && Stage() == Pass.GetPolicy(key, c)
      modifies `world, `used, `trace, `history
      ensures Valid()
      ensures !fault.NoFault? ==> Stage() == Idle
      ensures fault.NoFault? && allowed.None? ==> Stage() == if c.deleting then Idle else WriteStatus(key, credential, Stop)
      ensures fault.NoFault? && allowed.Some? ==> credential == c && Stage() == Pass.GetProvider(key, c, allowed.value)
    {
      credential := c;
      var foundPolicy;
      fault, foundPolicy := GetPolicy(key, c.spec.policyRef, c);
      if !fault.NoFault? {
        return fault, None, credential;
      }
      if foundPolicy.None? {
        credential := SetCondition(credential, READY, False, "PolicyNotFound");
        credential := credential.(status := credential.status.(observedGeneration := credential.generation));
        return fault, None, credential;
      }
      var evaluation := EvaluateRequest(foundPolicy.value, CredentialRequest(c.spec.level, c.spec.database, c.spec.roles));
      if !evaluation.verdict.Allowed? {
        credential := SetCondition(credential, READY, False, "PolicyDenied");
        credential := SetCondition(credential, POLICY_ACCEPTED, False, "PolicyDenied");
        credential := credential.(status := credential.status.(observedGeneration := credential.generation));
        return fault, None, credential;
      }
      return fault, foundPolicy, credential;
    }

    /** The second half: reads the provider, its root credentials and its TLS material. */
    method Locate(key: NamespacedName, c: Credential, policy: PolicySpec) returns (resolution: Resolution, credential: Credential)
      requires Valid() && Stage() == Pass.GetProvider(key, c, policy)
      modifies `world, `used, `trace, `history
      ensures Valid()
      ensures Resolves(c, key, resolution, credential)
    {
      credential := c;
      var fault, foundProvider := GetProvider(key, policy, c);
      if !fault.NoFault? {
        return Failed, credential;
      }
      if foundProvider.None? {
        credential := SetCondition(credential, READY, False, "ProviderNotFound");
        credential := credential.(status := credential.status.(observedGeneration := credential.generation));
        return Refused, credential;
      }
      var provider := foundProvider.value;
      var rooted := LoadRootCredentials(key, c, policy, provider);
      if !rooted {
        return Failed, credential;
      }
      resolution, credential := Secure(key, c, policy, provider);
    }

    /** The TLS material, whose refusal is written at once and, for a live credential, once more by the caller. */
    method Secure(key: NamespacedName, c: Credential, policy: PolicySpec, provider: ProviderSpec)
      returns (resolution: Resolution, credential: Credential)
      requires Valid() && Stage() == GetTls(key, c, policy, provider)
      modifies `world, `used, `trace, `history
      ensures Valid()
      ensures Resolves(c, key, resolution, credential)
      ensures resolution.Found? ==> Providers.TlsInOrder(lib, world.secrets, provider)
    {
      credential := c;
      var loaded := LoadTls(key, c, policy, provider);
      if !loaded {
        credential := SetCondition(credential, READY, False, "ProviderSecretInvalid");
        credential := credential.(status := credential.status.(observedGeneration := credential.generation));
        var ok, answer := UpdateStatus(key, credential);
        if !ok || answer.None? {
          return Failed, credential;
        }
        return Refused, answer.value;
      }
      return Found(ResolvedOf(lib, key, c, policy, provider)), credential;
    }

    /** What resolve leaves to its caller; a refusal of a live credential is still to be written. */
    ghost predicate Resolves(c: Credential, key: NamespacedName, resolution: Resolution, credential: Credential)
      reads this
      requires Valid()
    {
      match resolution
      case Failed => Stage() == Idle
      case Refused => Stage() == if c.deleting then Idle else WriteStatus(key, credential, Stop)
      case Found(r) =>
        credential == c && Stage() == if c.deleting then ConnectToRemove(key, c, r) else GetTarget(key, Accepted(c, r), r)
    }

    method Resolve(key: NamespacedName, c: Credential) returns (resolution: Resolution, credential: Credential)
      requires Valid() && Stage() == Pass.GetPolicy(key, c)
      modifies `world, `used, `trace, `history
      ensures Valid()
      ensures Resolves(c, key, resolution, credential)
    {
      var fault, allowed;
      fault, allowed, credential := Authorize(key, c);
      if !fault.NoFault? {
        return Failed, credential;
      }
      if allowed.None? {
        return Refused, credential;
      }
      resolution, credential := Locate(key, c, allowed.value);
    }

    /** Force cleanup: the remote user is left, and the finalizer goes even if the Secret stays. */
    method ForceDelete(key: NamespacedName, c: Credential)
      requires Valid() && Stage() == ForcedDelete(key, c)
      modifies `world, `used, `trace, `history
      ensures Valid() && Stage() == Idle
    {
      var deleted := DeleteOwnedTargetSecret(key, c);
      if !deleted {
        RecordDeleteFailure(key, c, "SecretDeleteFailed", true);
      }
      RemoveCredentialFinalizer(key);
    }

    /** Remote user, then Secret, then finalizer. */
    method Dismantle(key: NamespacedName, c: Credential, r: Resolved)
      requires Valid() && Stage() == ConnectToRemove(key, c, r)
      modifies `world, `used, `trace, `history
      ensures Valid() && Stage() == Idle
    {
      var connected := NewAdmin();
      if !connected {
        RecordDeleteFailure(key, c, "SurrealDBUnavailable", false);
        return;
      }
      var removed := RemoveUser(key, c, r);
      if !removed {
        RecordDeleteFailure(key, c, "RemoveUserFailed", false);
        return;
      }
      var deleted := DeleteOwnedTargetSecret(key, c);
      if !deleted {
        RecordDeleteFailure(key, c, "SecretDeleteFailed", true);
        return;
      }
      RemoveCredentialFinalizer(key);
    }

    method ReconcileDelete(key: NamespacedName, c: Credential)
      requires Valid() && c.deleting
      requires Stage() == if FINALIZER !in c.finalizers then Idle else if ForceCleanup(c) then ForcedDelete(key, c) else Pass.GetPolicy(key, c)
      modifies `world, `used, `trace, `history
      ensures Valid() && Stage() == Idle
    {
      if FINALIZER !in c.finalizers {
        return;
      }
      if FORCE_CLEANUP in c.annotations && c.annotations[FORCE_CLEANUP] == "true" {
        ForceDelete(key, c);
        return;
      }
      var resolution, credential := Resolve(key, c);
      if resolution.Found? {
        Dismantle(key, c, resolution.resolved);
      }
    }

    /** Writes the Secret and records the completed pass. */
    method Deliver(key: NamespacedName, c: Credential, r: Resolved, existing: Option<Secret>, password: string, decision: Rotation.Decision,
                   ghost p: Plan)
      requires Valid() && Stage() == WriteSecret(key, c, r, p)
      requires p.existing == existing && p.password == password && p.decision == decision
      modifies `world, `used, `trace, `history
      ensures Valid() && Stage() == Idle
    {
      var credential := c;
      var written := ReconcileTargetSecret(key, credential, r, password, existing, p);
      if !written {
        credential := SetCondition(credential, READY, False, "SecretConflict");
        credential := SetCondition(credential, SECRET_READY, False, "SecretConflict");
        var ok, answer := UpdateStatus(key, credential);
        return;
      }
      credential := SetCondition(credential, SECRET_READY, True, "SecretWritten");
      credential := SetCondition(credential, READY, True, "Reconciled");
      if decision.action.Generate? || decision.action.Rotate? {
        credential := credential.(status := credential.status.(lastRotation := decision.last));
      }
      credential := credential.(status := credential.status.(lastManualTrigger := decision.manualTrigger));
      credential := credential.(status := credential.status.(nextRotation := decision.next));
      var ok, answer := UpdateStatus(key, credential);
    }

    /** The rest of a live pass, once its target is resolved and its Secret may be managed. */
    method Issue(key: NamespacedName, c: Credential, r: Resolved, existing: Option<Secret>, password: string, decision: Rotation.Decision,
                 ghost p: Plan)
      requires Valid() && Stage() == Connect(key, c, r, p)
      requires p.existing == existing && p.password == password && p.decision == decision
      modifies `world, `used, `trace, `history
      ensures Valid() && Stage() == Idle
    {
      var credential := c;
      var connected := NewAdmin();
      if !connected {
        credential := SetCondition(credential, READY, False, "SurrealDBUnavailable");
        var ok, answer := UpdateStatus(key, credential);
        return;
      }
      var defined := DefineUser(key, credential, r, password, p);
      if !defined {
        credential := SetCondition(credential, READY, False, "DefineUserFailed");
        credential := SetCondition(credential, USER_DEFINED, False, "DefineUserFailed");
        var ok, answer := UpdateStatus(key, credential);
        return;
      }
      credential := SetCondition(credential, USER_DEFINED, True, "DefineUserSucceeded");
      Deliver(key, credential, r, existing, password, decision, p);
    }

    /** Reads the target Secret, refuses one it may not manage, and decides on rotation. */
    method Manage(key: NamespacedName, c: Credential, r: Resolved)
      requires Valid() && Stage() == GetTarget(key, c, r)
      modifies `world, `used, `trace, `history
      ensures Valid() && Stage() == Idle
    {
      var credential := c;
      var fault, existing, now, drawn := GetTargetSecret(key, credential, r);
      if !fault.NoFault? {
        return;
      }
      var mayManage := existing.None?;
      if existing.Some? {
        mayManage := OwnedByCredential(existing.value, key.name, credential.uid);
      }
      if !mayManage {
        credential := SetCondition(credential, READY, False, "SecretConflict");
        credential := SetCondition(credential, SECRET_READY, False, "SecretConflict");
        var ok, answer := UpdateStatus(key, credential);
        return;
      }
      var current := ExistingPassword(existing);
      var st := credential.status;
      var decision := Rotation.Decide(now, current.Some?, credential.annotations, st.lastManualTrigger, st.lastRotation, st.nextRotation,
                                      credential.spec.period);
      var password := if current.Some? then current.value else "";
      if decision.action.Generate? || decision.action.Rotate? {
        if drawn.None? {
          credential := SetCondition(credential, READY, False, "RotationFailed");
          var ok, answer := UpdateStatus(key, credential);
          return;
        }
        password := drawn.value;
      }
      ghost var p := Plan(existing, SeenBy(credential, existing, now), decision, password);
      Issue(key, credential, r, existing, password, decision, p);
    }

    /** A live credential that has its finalizer. */
    method ReconcileLive(key: NamespacedName, c: Credential)
      requires Valid() && !c.deleting && Stage() == Pass.GetPolicy(key, c)
      modifies `world, `used, `trace, `history
      ensures Valid() && Stage() == Idle
    {
      var resolution, credential := Resolve(key, c);
      if resolution.Failed? {
        return;
      }
      if resolution.Refused? {
        var ok, answer := UpdateStatus(key, credential);
        return;
      }
      var r := resolution.resolved;
      credential := credential.(status := credential.status.(
        providerRef := Some(r.policy.providerRef), surrealNamespace := r.policy.surrealNamespace,
        database := credential.spec.database, username := r.username, observedGeneration := credential.generation));
      credential := SetCondition(credential, POLICY_ACCEPTED, True, "Allowed");
      Manage(key, credential, r);
    }

    /**
     * One pass. Whatever the script says, the stores change exactly as in the run of the machine that
     * begins a pass on this credential and is fed the script call by call, and the pass ends when the
     * machine does.
     */
    method Reconcile(key: NamespacedName)
      requires Valid() && Stage() == Idle
      modifies this
      ensures Valid() && Stage() == Idle
      ensures base == old(history) + [Begin(key)] && first == old(used)
    {
      Begins(key);
      var fault, found := GetCredential(key);
      if !fault.NoFault? || found.None? {
        return;
      }
      var credential := found.value;
      if !credential.deleting && FINALIZER !in credential.finalizers {
        credential := credential.(finalizers := credential.finalizers + {FINALIZER});
        UpdateObject(key, credential);
        return;
      }
      if credential.deleting {
        ReconcileDelete(key, credential);
        return;
      }
      ReconcileLive(key, credential);
    }
  }

  /** What a valid reconciler holds: its stores are those of the machine after its events. */
  lemma StoresAreTheMachines(r: CredentialReconciler)
    requires r.Valid()
    ensures r.world == Run(r.lib, r.start, r.history).world
    ensures r.Stage() == Run(r.lib, r.start, r.history).pass
  {
    TraceIsRun(r.lib, r.trace, r.history);
  }
}
