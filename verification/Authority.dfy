/**
 * Policy authority: every user definition of every run stays within the policy read in the same pass,
 * and names a target whose identity no other credential shares.
 */
module Authority {
  import opened Prelude
  import opened Platform
  import opened Api
  import opened Cluster
  import opened Policy
  import opened Queries
  import opened Server
  import opened Protocol
  import Identifiers
  import Username

  /** The policy read in the pass the log ends in. */
  function PolicyOf(log: seq<Entry>): Option<PolicySpec> {
    if log == [] then None
    else match log[|log| - 1]
      case Began(_) => None
      case PolicyRead(policy) => Some(policy)
      case _ => PolicyOf(log[..|log| - 1])
  }

  /** The provider read in the pass the log ends in, with the name it was read under. */
  function ProviderOf(log: seq<Entry>): Option<(string, ProviderSpec)> {
    if log == [] then None
    else match log[|log| - 1]
      case Began(_) => None
      case ProviderRead(name, provider) => Some((name, provider))
      case _ => ProviderOf(log[..|log| - 1])
  }

  /** The policy grants these roles on this target, and the endpoint is its provider's. */
  predicate Grant(policy: PolicySpec, provider: (string, ProviderSpec), user: RemoteUser, roles: set<Role>) {
    && Grants(policy, user.target.level, user.target.database, roles)
    && user.target.namespace == policy.surrealNamespace
    && provider.0 == policy.providerRef && user.endpoint == provider.1.endpoint
  }

  /** A definition, if entry `i` is one, is granted by what its own pass had read before it. */
  predicate Authorized(log: seq<Entry>, i: nat)
    requires i < |log|
  {
    log[i].DefineIssued? ==>
      && PolicyOf(log[..i]).Some? && ProviderOf(log[..i]).Some?
      && Grant(PolicyOf(log[..i]).value, ProviderOf(log[..i]).value, log[i].user, RoleSet(log[i].roles))
  }

  predicate AllAuthorized(log: seq<Entry>) {
    forall i :: 0 <= i < |log| ==> Authorized(log, i)
  }

  // ----- what a pass knows -----

  predicate KnowsPolicy(pass: Pass) {
    pass.GetProvider? || pass.GetRoot? || pass.GetTls?
  }

  predicate KnowsResolved(pass: Pass) {
    pass.GetTarget? || pass.Connect? || pass.Define?
  }

  predicate Allows(policy: PolicySpec, c: Credential) {
    Evaluate(policy, RequestOf(c)).verdict.Allowed?
  }

  predicate Informed(log: seq<Entry>, pass: Pass) {
    && (KnowsPolicy(pass) ==> PolicyOf(log) == Some(pass.policy) && Allows(pass.policy, pass.cred))
    && (pass.GetRoot? || pass.GetTls? ==> ProviderOf(log) == Some((pass.policy.providerRef, pass.provider)))
    && (KnowsResolved(pass) ==>
          && PolicyOf(log) == Some(pass.resolved.policy) && Allows(pass.resolved.policy, pass.cred)
          && ProviderOf(log) == Some((pass.resolved.policy.providerRef, pass.resolved.provider)))
  }

  predicate Lawful(s: State) {
    AllAuthorized(s.log) && Informed(s.log, s.pass)
  }

  // ----- every step keeps it -----

  lemma AppendAuthorized(log: seq<Entry>, e: Entry)
    requires AllAuthorized(log) && (e.DefineIssued? ==> Authorized(log + [e], |log|))
    ensures AllAuthorized(log + [e])
    ensures !e.Began? && !e.PolicyRead? ==> PolicyOf(log + [e]) == PolicyOf(log)
    ensures e.PolicyRead? ==> PolicyOf(log + [e]) == Some(e.policy)
    ensures e.ProviderRead? ==> ProviderOf(log + [e]) == Some((e.name, e.provider))
  {
    var longer := log + [e];
    assert longer[..|log|] == log;
    forall i | 0 <= i < |longer|
      ensures Authorized(longer, i)
    {
      if i < |log| {
        assert Authorized(log, i) && longer[..i] == log[..i];
      }
    }
  }

  lemma DefinitionAuthorized(log: seq<Entry>, c: Credential, r: Resolved, password: string)
    requires PolicyOf(log) == Some(r.policy) && Allows(r.policy, c)
    requires ProviderOf(log) == Some((r.policy.providerRef, r.provider))
    ensures Authorized(log + [DefineIssued(UserOf(c, r), password, c.spec.roles)], |log|)
  {
    AllowedIffGranted(r.policy, RequestOf(c));
    var longer := log + [DefineIssued(UserOf(c, r), password, c.spec.roles)];
    assert longer[..|log|] == log;
  }

  /** The step adds no entry and learns nothing it did not know. */
  lemma ReadIsLawful(lib: Libraries, s: State, fault: Fault, now: int, drawn: Option<string>)
    requires Lawful(s)
    requires s.pass.GetCredential? || s.pass.GetRoot? || s.pass.GetTls?
    ensures var t := Advance(lib, s, fault, now, drawn); t.log == s.log && Informed(t.log, t.pass)
  {
  }

  lemma PlanningIsLawful(lib: Libraries, s: State, fault: Fault, now: int, drawn: Option<string>)
    requires Lawful(s) && (s.pass.GetTarget? || s.pass.Connect?)
    ensures var t := Advance(lib, s, fault, now, drawn); t.log == s.log && Informed(t.log, t.pass)
  {
  }

  lemma PolicyReadIsLawful(lib: Libraries, s: State, fault: Fault, now: int, drawn: Option<string>)
    requires Lawful(s) && s.pass.GetPolicy?
    ensures Lawful(Advance(lib, s, fault, now, drawn))
  {
    var t := Advance(lib, s, fault, now, drawn);
    if t.pass.GetProvider? {
      AppendAuthorized(s.log, PolicyRead(t.pass.policy));
    }
  }

  lemma ProviderReadIsLawful(lib: Libraries, s: State, fault: Fault, now: int, drawn: Option<string>)
    requires Lawful(s) && s.pass.GetProvider?
    ensures Lawful(Advance(lib, s, fault, now, drawn))
  {
    var t := Advance(lib, s, fault, now, drawn);
    if t.pass.GetRoot? {
      AppendAuthorized(s.log, ProviderRead(s.pass.policy.providerRef, t.pass.provider));
    }
  }

  lemma DefineIsLawful(lib: Libraries, s: State, fault: Fault, now: int, drawn: Option<string>)
    requires Lawful(s) && s.pass.Define?
    ensures Lawful(Advance(lib, s, fault, now, drawn))
  {
    var c, r, password := s.pass.cred, s.pass.resolved, s.pass.plan.password;
    DefinitionAuthorized(s.log, c, r, password);
    AppendAuthorized(s.log, DefineIssued(UserOf(c, r), password, c.spec.roles));
  }

  lemma WriteIsLawful(lib: Libraries, s: State, fault: Fault, now: int, drawn: Option<string>)
    requires !s.pass.GetCredential? && !s.pass.GetPolicy? && !s.pass.GetProvider? && !s.pass.GetRoot? && !s.pass.GetTls?
    requires !s.pass.GetTarget? && !s.pass.Connect? && !s.pass.Define? && !s.pass.Idle?
    ensures var t := Advance(lib, s, fault, now, drawn);
            t.log == s.log && !KnowsPolicy(t.pass) && !KnowsResolved(t.pass)
  {
  }

  lemma CallIsLawful(lib: Libraries, s: State, fault: Fault, now: int, drawn: Option<string>)
    requires Lawful(s)
    ensures Lawful(Advance(lib, s, fault, now, drawn))
  {
    if s.pass.Idle? {
    } else if s.pass.GetPolicy? {
      PolicyReadIsLawful(lib, s, fault, now, drawn);
    } else if s.pass.GetProvider? {
      ProviderReadIsLawful(lib, s, fault, now, drawn);
    } else if s.pass.Define? {
      DefineIsLawful(lib, s, fault, now, drawn);
    } else if s.pass.GetTarget? || s.pass.Connect? {
      PlanningIsLawful(lib, s, fault, now, drawn);
    } else if s.pass.GetCredential? || s.pass.GetRoot? || s.pass.GetTls? {
      ReadIsLawful(lib, s, fault, now, drawn);
    } else {
      WriteIsLawful(lib, s, fault, now, drawn);
    }
  }

  /**
   * Policy authority over runs: whatever edits, faults and crashes come in between, every definition
   * ever asked of SurrealDB names a target and a role set that the policy read in that same pass
   * grants, on the provider that policy names.
   */
  lemma {:induction false} EveryDefinitionIsGranted(lib: Libraries, s: State, es: seq<Event>)
    requires s.pass.Idle? && s.log == []
    ensures AllAuthorized(Run(lib, s, es).log)
    ensures Lawful(Run(lib, s, es))
    decreases |es|
  {
    if es != [] {
      var t, e := Run(lib, s, es[..|es| - 1]), es[|es| - 1];
      EveryDefinitionIsGranted(lib, s, es[..|es| - 1]);
      match e
      case Outside(_) =>
      case Begin(key) => AppendAuthorized(t.log, Began(key));
      case Proceed(fault, now, drawn) => CallIsLawful(lib, t, fault, now, drawn);
      case Crash =>
    }
  }

  // ----- identities behind accepted definitions -----

  lemma WritableIsNulFree(s: string)
    requires Identifiers.Writable(s)
    ensures Username.NulFree(s)
  {
    Identifiers.AcceptedIff(s);
    Identifiers.AcceptedHasNoControl(s);
  }

  lemma LevelIsNulFree(level: UserLevel)
    requires !level.OtherLevel?
    ensures Username.NulFree(LevelText(level))
  {
  }

  /** A request that is allowed and whose query is accepted names a NUL-free namespace and database. */
  lemma AcceptedScopeIsNulFree(lib: Libraries, policy: PolicySpec, request: CredentialRequest, username: string, password: string)
    requires Evaluate(policy, request).verdict.Allowed?
    requires DefineUserQuery(lib, UserTarget(request.level, policy.surrealNamespace, request.database), username, password, request.roles).Ok?
    ensures Username.NulFree(policy.surrealNamespace) && Username.NulFree(request.database)
    ensures Username.NulFree(LevelText(request.level))
  {
    var target := UserTarget(request.level, policy.surrealNamespace, request.database);
    AllowedIffGranted(policy, request);
    QueriesAcceptedIff(lib, target, username, password, request.roles);
    WritableIsNulFree(target.namespace);
    if target.level.Database? {
      WritableIsNulFree(target.database);
    }
    LevelIsNulFree(target.level);
  }

  /**
   * Kubernetes names hold no NUL, so nobody else feeds the hash the bytes of such a request: whatever
   * credential and target do, they have its namespace, name, provider, SurrealDB namespace, database and
   * level.
   */
  lemma AcceptedIdentityIsUnique(lib: Libraries, namespace: string, name: string, policy: PolicySpec, request: CredentialRequest,
                                 username: string, password: string, otherNamespace: string, otherName: string, other: PolicyTarget)
    requires Username.NulFree(namespace) && Username.NulFree(name) && Username.NulFree(policy.providerRef)
    requires Evaluate(policy, request).verdict.Allowed?
    requires DefineUserQuery(lib, UserTarget(request.level, policy.surrealNamespace, request.database), username, password, request.roles).Ok?
    requires Username.Framed(Username.Identity(otherNamespace, otherName, other))
             == Username.Framed(Username.Identity(namespace, name, Evaluate(policy, request).target))
    ensures otherNamespace == namespace && otherName == name
    ensures other.provider == policy.providerRef && other.namespace == policy.surrealNamespace
    ensures other.database == request.database && LevelText(other.level) == LevelText(request.level)
  {
    AcceptedScopeIsNulFree(lib, policy, request, username, password);
    Username.SameBytesSameIdentity(namespace, name, Evaluate(policy, request).target, otherNamespace, otherName, other);
  }
}
