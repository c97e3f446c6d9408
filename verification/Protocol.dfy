/**
 * One reconcile pass over a credential as a machine that makes one API call per step:
 * internal/controller/surrealdbcredential_controller.go. Between two steps anybody may edit the
 * stores, and the process may stop.
 */
module Protocol {
  import opened Prelude
  import opened Platform
  import opened Api
  import opened Cluster
  import opened Policy
  import opened Queries
  import opened Server
  import opened TargetSecret
  import opened Tls
  import Providers
  import Rotation
  import Username

  // ----- conditions -----

  const READY: string := "Ready"
  const POLICY_ACCEPTED: string := "PolicyAccepted"
  const USER_DEFINED: string := "UserDefined"
  const SECRET_READY: string := "SecretReady"

  function SetCondition(c: Credential, kind: string, status: ConditionStatus, reason: string): Credential {
    c.(status := c.status.(conditions := c.status.conditions[kind := Condition(status, reason, c.generation)]))
  }

  function NotReady(c: Credential, reason: string): Credential {
    SetCondition(c, READY, False, reason)
  }

  function Observed(c: Credential): Credential {
    c.(status := c.status.(observedGeneration := c.generation))
  }

  predicate IsReady(c: Credential) {
    READY in c.status.conditions && c.status.conditions[READY].status.True?
  }

  // ----- the state of a pass -----

  /** What resolve found. */
  datatype Resolved = Resolved(policy: PolicySpec, provider: ProviderSpec, username: string)

  /** What the pass saw at its target Secret, and what the rotation decision calls for. */
  datatype Plan = Plan(existing: Option<Secret>, seen: Rotation.Sighting, decision: Rotation.Decision, password: string)

  /** What follows a status write: nothing, the caller's own write, or dropping the finalizer anyway. */
  datatype FollowUp = Stop | Again | Unfinalize

  /** The next API call, and the objects held in memory. */
  datatype Pass =
    | Idle
    | GetCredential(key: NamespacedName)
    | AddFinalizer(key: NamespacedName, cred: Credential)
    | GetPolicy(key: NamespacedName, cred: Credential)
    | GetProvider(key: NamespacedName, cred: Credential, policy: PolicySpec)
    | GetRoot(key: NamespacedName, cred: Credential, policy: PolicySpec, provider: ProviderSpec)
    | GetTls(key: NamespacedName, cred: Credential, policy: PolicySpec, provider: ProviderSpec)
    | WriteStatus(key: NamespacedName, cred: Credential, followUp: FollowUp)
    | GetTarget(key: NamespacedName, cred: Credential, resolved: Resolved)
    | Connect(key: NamespacedName, cred: Credential, resolved: Resolved, plan: Plan)
    | Define(key: NamespacedName, cred: Credential, resolved: Resolved, plan: Plan)
    | WriteSecret(key: NamespacedName, cred: Credential, resolved: Resolved, plan: Plan)
    | PersistReady(key: NamespacedName, cred: Credential, resolved: Resolved, plan: Plan)
    | ForcedDelete(key: NamespacedName, cred: Credential)
    | ConnectToRemove(key: NamespacedName, cred: Credential, resolved: Resolved)
    | RemoveUser(key: NamespacedName, cred: Credential, resolved: Resolved)
    | DeleteSecret(key: NamespacedName, cred: Credential)
    | GetLatest(key: NamespacedName)
    | DropFinalizer(key: NamespacedName, latest: Credential)

  /** Stages that hold a plan still to be carried out. */
  predicate HoldsPlan(pass: Pass) {
    pass.Connect? || pass.Define? || pass.WriteSecret?
  }

  /** Stages that have resolved their target. */
  predicate HasResolved(pass: Pass) {
    pass.GetTarget? || pass.Connect? || pass.Define? || pass.WriteSecret? || pass.PersistReady?
    || pass.ConnectToRemove? || pass.RemoveUser?
  }

  // ----- derived names -----

  function TargetKey(key: NamespacedName, c: Credential): NamespacedName {
    NamespacedName(key.namespace, c.spec.targetSecret)
  }

  function RequestOf(c: Credential): CredentialRequest {
    CredentialRequest(c.spec.level, c.spec.database, c.spec.roles)
  }

  function SurrealTarget(c: Credential, r: Resolved): UserTarget {
    UserTarget(c.spec.level, r.policy.surrealNamespace, c.spec.database)
  }

  /** The user a pass asks for. */
  function UserOf(c: Credential, r: Resolved): RemoteUser {
    RemoteUser(r.provider.endpoint, SurrealTarget(c, r), r.username)
  }

  /** The login its texts are about, as the server reads them. */
  function LocatedFor(c: Credential, r: Resolved): RemoteUser {
    Located(r.provider.endpoint, SurrealTarget(c, r), r.username)
  }

  function DesiredSecret(lib: Libraries, key: NamespacedName, c: Credential, r: Resolved, password: string): Secret {
    BuildTargetSecret(key.name, c.uid, ConnectionData(r.provider.endpoint, r.policy.surrealNamespace, c.spec.database,
                      r.username, password, Username.LowerAll(lib, LevelText(c.spec.level))))
  }

  predicate ForceCleanup(c: Credential) {
    FORCE_CLEANUP in c.annotations && c.annotations[FORCE_CLEANUP] == "true"
  }

  // ----- reads -----

  function AfterGetCredential(w: World, key: NamespacedName, fault: Fault): Pass {
    if !fault.NoFault? || key !in w.credentials then Idle
    else
      var c := w.credentials[key];
      if !c.deleting then
        if FINALIZER in c.finalizers then GetPolicy(key, c)
        else AddFinalizer(key, c.(finalizers := c.finalizers + {FINALIZER}))
      else if FINALIZER !in c.finalizers then Idle
      else if ForceCleanup(c) then ForcedDelete(key, c)
      else GetPolicy(key, c)
  }

  /** A credential that cannot be resolved: a live pass writes the status, a deletion just ends. */
  function Unresolved(key: NamespacedName, c: Credential): Pass {
    if c.deleting then Idle else WriteStatus(key, c, Stop)
  }

  function AfterGetPolicy(w: World, key: NamespacedName, c: Credential, fault: Fault): Pass {
    var policyKey := NamespacedName(key.namespace, c.spec.policyRef);
    if !fault.NoFault? then Idle
    else if policyKey !in w.policies then Unresolved(key, Observed(NotReady(c, "PolicyNotFound")))
    else
      var policy := w.policies[policyKey];
      if Evaluate(policy, RequestOf(c)).verdict.Allowed? then GetProvider(key, c, policy)
      else Unresolved(key, Observed(SetCondition(NotReady(c, "PolicyDenied"), POLICY_ACCEPTED, False, "PolicyDenied")))
  }

  function AfterGetProvider(w: World, key: NamespacedName, c: Credential, policy: PolicySpec, fault: Fault): Pass {
    if !fault.NoFault? then Idle
    else if policy.providerRef !in w.providers then Unresolved(key, Observed(NotReady(c, "ProviderNotFound")))
    else GetRoot(key, c, policy, w.providers[policy.providerRef])
  }

  function AfterGetRoot(w: World, key: NamespacedName, c: Credential, policy: PolicySpec, provider: ProviderSpec, fault: Fault): Pass {
    if !fault.NoFault? || Providers.RootProblem(provider.root, Lookup(w.secrets, provider.root.secret)).Some? then Idle
    else GetTls(key, c, policy, provider)
  }

  function ResolvedOf(lib: Libraries, key: NamespacedName, c: Credential, policy: PolicySpec, provider: ProviderSpec): Resolved {
    Resolved(policy, provider, Username.Username(lib, key.namespace, key.name, Evaluate(policy, RequestOf(c)).target))
  }

  /** The status of a live credential whose target is resolved. */
  function Accepted(c: Credential, r: Resolved): Credential {
    var st := c.status.(
      providerRef := Some(r.policy.providerRef),
      surrealNamespace := r.policy.surrealNamespace,
      database := c.spec.database,
      username := r.username);
    SetCondition(Observed(c.(status := st)), POLICY_ACCEPTED, True, "Allowed")
  }

  /** Without TLS references there is nothing to read, so no read to fail. */
  predicate ReadsTls(provider: ProviderSpec) {
    provider.tls.Some? && (provider.tls.value.ca.Some? || provider.tls.value.certificate.Some?)
  }

  function AfterGetTls(lib: Libraries, w: World, key: NamespacedName, c: Credential, policy: PolicySpec, provider: ProviderSpec, fault: Fault): Pass {
    if ReadsTls(provider) && (!fault.NoFault? || TlsProblem(lib, w.secrets, provider.tls).Some?) then
      WriteStatus(key, Observed(NotReady(c, "ProviderSecretInvalid")), if c.deleting then Stop else Again)
    else
      var r := ResolvedOf(lib, key, c, policy, provider);
      if c.deleting then ConnectToRemove(key, c, r) else GetTarget(key, Accepted(c, r), r)
  }

  function SecretConflict(c: Credential): Credential {
    SetCondition(NotReady(c, "SecretConflict"), SECRET_READY, False, "SecretConflict")
  }

  function ScheduleOf(st: CredentialStatus): Rotation.Schedule {
    Rotation.Schedule(st.lastRotation, st.nextRotation, st.lastManualTrigger)
  }

  function SeenBy(c: Credential, existing: Option<Secret>, now: int): Rotation.Sighting {
    Rotation.Sighting(now, ExistingPassword(existing).Some?, c.annotations, c.spec.period)
  }

  /** `drawn` is the password the generator returns if asked, None when the random source fails. */
  function AfterGetTarget(w: World, key: NamespacedName, c: Credential, r: Resolved, fault: Fault, now: int, drawn: Option<string>): Pass {
    if !fault.NoFault? then Idle
    else
      var existing := Lookup(w.secrets, TargetKey(key, c));
      if !CanManage(existing, key.name, c.uid) then WriteStatus(key, SecretConflict(c), Stop)
      else
        var seen := SeenBy(c, existing, now);
        var d := Rotation.DecideOn(ScheduleOf(c.status), seen);
        if d.action.Reuse? then
          Connect(key, c, r, Plan(existing, seen, d, ExistingPassword(existing).value))
        else if drawn.None? then WriteStatus(key, NotReady(c, "RotationFailed"), Stop)
        else Connect(key, c, r, Plan(existing, seen, d, drawn.value))
  }

  function AfterGetLatest(w: World, key: NamespacedName, fault: Fault): Pass {
    if !fault.NoFault? || key !in w.credentials || FINALIZER !in w.credentials[key].finalizers then Idle
    else
      var latest := w.credentials[key];
      DropFinalizer(key, latest.(finalizers := latest.finalizers - {FINALIZER}))
  }

  // ----- connections -----

  function AfterConnect(key: NamespacedName, c: Credential, r: Resolved, p: Plan, fault: Fault): Pass {
    if fault.NoFault? then Define(key, c, r, p) else WriteStatus(key, NotReady(c, "SurrealDBUnavailable"), Stop)
  }

  function DeleteFailed(c: Credential, reason: string, markSecret: bool): Credential {
    var d := NotReady(Observed(c), reason);
    if markSecret then SetCondition(d, SECRET_READY, False, reason) else d
  }

  function AfterConnectToRemove(key: NamespacedName, c: Credential, r: Resolved, fault: Fault): Pass {
    if fault.NoFault? then RemoveUser(key, c, r)
    else WriteStatus(key, DeleteFailed(c, "SurrealDBUnavailable", false), Stop)
  }

  // ----- writes: the attempted effect, and what follows success or failure -----

  function SecretWrite(lib: Libraries, w: World, key: NamespacedName, c: Credential, r: Resolved, p: Plan): Option<World> {
    var desired := DesiredSecret(lib, key, c, r, p.password);
    if p.existing.None? then TryCreateSecret(w, TargetKey(key, c), desired)
    else TryUpdateSecret(w, TargetKey(key, c), desired.(version := p.existing.value.version))
  }

  function AfterDefine(key: NamespacedName, c: Credential, r: Resolved, p: Plan, ok: bool): Pass {
    if ok then WriteSecret(key, SetCondition(c, USER_DEFINED, True, "DefineUserSucceeded"), r, p)
    else WriteStatus(key, SetCondition(NotReady(c, "DefineUserFailed"), USER_DEFINED, False, "DefineUserFailed"), Stop)
  }

  function WithSchedule(st: CredentialStatus, s: Rotation.Schedule): CredentialStatus {
    st.(lastRotation := s.last, nextRotation := s.next, lastManualTrigger := s.trigger)
  }

  /** The status of a pass that has done everything but record it. */
  function Completed(c: Credential, d: Rotation.Decision): Credential {
    var ready := SetCondition(SetCondition(c, SECRET_READY, True, "SecretWritten"), READY, True, "Reconciled");
    ready.(status := WithSchedule(ready.status, Rotation.Planned(ScheduleOf(ready.status), d)))
  }

  function AfterWriteSecret(key: NamespacedName, c: Credential, r: Resolved, p: Plan, ok: bool): Pass {
    if ok then PersistReady(key, Completed(c, p.decision), r, p) else WriteStatus(key, SecretConflict(c), Stop)
  }

  function AfterRemoveUser(key: NamespacedName, c: Credential, ok: bool): Pass {
    if ok then DeleteSecret(key, c) else WriteStatus(key, DeleteFailed(c, "RemoveUserFailed", false), Stop)
  }

  function AfterDeleteSecret(key: NamespacedName, c: Credential, ok: bool): Pass {
    if ok then GetLatest(key) else WriteStatus(key, DeleteFailed(c, "SecretDeleteFailed", true), Stop)
  }

  function AfterForcedDelete(key: NamespacedName, c: Credential, ok: bool): Pass {
    if ok then GetLatest(key) else WriteStatus(key, DeleteFailed(c, "SecretDeleteFailed", true), Unfinalize)
  }

  /** A successful status write refreshes the object in memory. */
  function AfterWriteStatus(w: World, key: NamespacedName, c: Credential, followUp: FollowUp, ok: bool): Pass {
    match followUp
    case Stop => Idle
    case Again => if ok && key in w.credentials then WriteStatus(key, w.credentials[key], Stop) else Idle
    case Unfinalize => GetLatest(key)
  }

  // ----- resolution as one function -----

  /** The policy and provider that resolve finds when every read is answered and nothing is wrong with them. */
  function Resolve(lib: Libraries, w: World, key: NamespacedName, c: Credential): Option<(PolicySpec, ProviderSpec)> {
    var policyKey := NamespacedName(key.namespace, c.spec.policyRef);
    if policyKey !in w.policies then None
    else
      var policy := w.policies[policyKey];
      if !Evaluate(policy, RequestOf(c)).verdict.Allowed? || policy.providerRef !in w.providers then None
      else
        var provider := w.providers[policy.providerRef];
        if Providers.RootProblem(provider.root, Lookup(w.secrets, provider.root.secret)).Some? then None
        else if TlsProblem(lib, w.secrets, provider.tls).Some? then None
        else Some((policy, provider))
  }

  // ----- the machine -----

  /** A record of what passes read and asked of SurrealDB. */
  datatype Entry =
    | Began(key: NamespacedName)
    | PolicyRead(policy: PolicySpec)
    | ProviderRead(name: string, provider: ProviderSpec)
    | DefineIssued(user: RemoteUser, password: string, roles: seq<Role>)

  datatype State = State(world: World, pass: Pass, log: seq<Entry>)

  datatype Event =
    | Outside(edit: Edit)
    | Begin(key: NamespacedName)
    | Proceed(fault: Fault, now: int, drawn: Option<string>)
    | Crash

  function Writes(s: State, outcome: (World, bool), pass: Pass): State {
    s.(world := outcome.0, pass := pass)
  }

  function Advance(lib: Libraries, s: State, fault: Fault, now: int, drawn: Option<string>): State {
    var w := s.world;
    match s.pass
    case Idle => s
    case GetCredential(key) => s.(pass := AfterGetCredential(w, key, fault))
    case AddFinalizer(key, c) => Writes(s, Attempt(w, TryUpdateObject(w, key, c), fault), Idle)
    case GetPolicy(key, c) =>
      var next := s.(pass := AfterGetPolicy(w, key, c, fault));
      if next.pass.GetProvider? then next.(log := s.log + [PolicyRead(next.pass.policy)]) else next
    case GetProvider(key, c, policy) =>
      var next := s.(pass := AfterGetProvider(w, key, c, policy, fault));
      if next.pass.GetRoot? then next.(log := s.log + [ProviderRead(policy.providerRef, next.pass.provider)]) else next
    case GetRoot(key, c, policy, provider) => s.(pass := AfterGetRoot(w, key, c, policy, provider, fault))
    case GetTls(key, c, policy, provider) => s.(pass := AfterGetTls(lib, w, key, c, policy, provider, fault))
    case WriteStatus(key, c, followUp) =>
      var o := Attempt(w, TryUpdateStatus(w, key, c), fault);
      Writes(s, o, AfterWriteStatus(o.0, key, c, followUp, o.1))
    case GetTarget(key, c, r) => s.(pass := AfterGetTarget(w, key, c, r, fault, now, drawn))
    case Connect(key, c, r, p) => s.(pass := AfterConnect(key, c, r, p, fault))
    case Define(key, c, r, p) =>
      var o := Answer(w, AskToDefine(lib, w, UserOf(c, r), p.password, c.spec.roles), fault);
      Writes(s, o, AfterDefine(key, c, r, p, o.1))
      .(log := s.log + [DefineIssued(UserOf(c, r), p.password, c.spec.roles)])
    case WriteSecret(key, c, r, p) =>
      var o := Attempt(w, SecretWrite(lib, w, key, c, r, p), fault);
      Writes(s, o, AfterWriteSecret(key, c, r, p, o.1))
    case PersistReady(key, c, r, p) => Writes(s, Attempt(w, TryUpdateStatus(w, key, c), fault), Idle)
    case ForcedDelete(key, c) =>
      var o := Attempt(w, Some(DeleteOwnedSecret(w, TargetKey(key, c), key.name, c.uid)), fault);
      Writes(s, o, AfterForcedDelete(key, c, o.1))
    case ConnectToRemove(key, c, r) => s.(pass := AfterConnectToRemove(key, c, r, fault))
    case RemoveUser(key, c, r) =>
      var o := Answer(w, AskToRemove(w, UserOf(c, r)), fault);
      Writes(s, o, AfterRemoveUser(key, c, o.1))
    case DeleteSecret(key, c) =>
      var o := Attempt(w, Some(DeleteOwnedSecret(w, TargetKey(key, c), key.name, c.uid)), fault);
      Writes(s, o, AfterDeleteSecret(key, c, o.1))
    case GetLatest(key) => s.(pass := AfterGetLatest(w, key, fault))
    case DropFinalizer(key, latest) => Writes(s, Attempt(w, TryUpdateObject(w, key, latest), fault), Idle)
  }

  function Next(lib: Libraries, s: State, e: Event): State {
    match e
    case Outside(edit) => s.(world := Apply(s.world, edit))
    case Begin(key) => if s.pass.Idle? then s.(pass := GetCredential(key), log := s.log + [Began(key)]) else s
    case Proceed(fault, now, drawn) => Advance(lib, s, fault, now, drawn)
    case Crash => s.(pass := Idle)
  }

  function Run(lib: Libraries, s: State, es: seq<Event>): State
    decreases |es|
  {
    if es == [] then s else Next(lib, Run(lib, s, es[..|es| - 1]), es[|es| - 1])
  }

  lemma {:induction false} RunTwice(lib: Libraries, s: State, first: seq<Event>, second: seq<Event>)
    ensures Run(lib, s, first + second) == Run(lib, Run(lib, s, first), second)
    decreases |second|
  {
    if second == [] {
      assert first + second == first;
    } else {
      var n := |second| - 1;
      RunTwice(lib, s, first, second[..n]);
      assert (first + second)[..|first| + n] == first + second[..n];
    }
  }

  /** The states a run goes through. */
  predicate IsTrace(lib: Libraries, ts: seq<State>, es: seq<Event>) {
    |ts| == |es| + 1 && forall i :: 0 <= i < |es| ==> ts[i + 1] == Next(lib, ts[i], es[i])
  }

  lemma LongerTrace(lib: Libraries, before: seq<State>, es: seq<Event>, t: State)
    requires es != [] && IsTrace(lib, before, es[..|es| - 1]) && t == Next(lib, before[|es| - 1], es[|es| - 1])
    ensures IsTrace(lib, before + [t], es)
  {
    var n, ts := |es| - 1, before + [t];
    forall i | 0 <= i < |es|
      ensures ts[i + 1] == Next(lib, ts[i], es[i])
    {
      if i < n {
        assert before[i + 1] == Next(lib, before[i], es[..n][i]);
      }
    }
  }

  lemma {:induction false} TraceOf(lib: Libraries, s: State, es: seq<Event>) returns (ts: seq<State>)
    ensures IsTrace(lib, ts, es) && ts[0] == s && ts[|es|] == Run(lib, s, es)
    decreases |es|
  {
    if es == [] {
      ts := [s];
    } else {
      var n := |es| - 1;
      var before := TraceOf(lib, s, es[..n]);
      ts := before + [Next(lib, before[n], es[n])];
      LongerTrace(lib, before, es, ts[n + 1]);
    }
  }

  lemma {:induction false} TraceIsRun(lib: Libraries, ts: seq<State>, es: seq<Event>)
    requires IsTrace(lib, ts, es)
    ensures ts[|es|] == Run(lib, ts[0], es)
    decreases |es|
  {
    if es != [] {
      var n := |es| - 1;
      forall i | 0 <= i < n
        ensures ts[..n + 1][i + 1] == Next(lib, ts[..n + 1][i], es[..n][i])
      {
        assert ts[i + 1] == Next(lib, ts[i], es[i]);
      }
      TraceIsRun(lib, ts[..n + 1], es[..n]);
      assert ts[n + 1] == Next(lib, ts[n], es[n]);
    }
  }

  predicate Answered(e: Event) {
    e.Proceed? && e.fault.NoFault?
  }

  /** A pass over one credential whose every call is answered, run to its end. */
  predicate AnsweredPass(key: NamespacedName, es: seq<Event>) {
    |es| >= 11 && es[0] == Begin(key) && forall i :: 1 <= i < |es| ==> Answered(es[i])
  }
}
