/**
 * What a pass acts on: the stores as its own reads found them. Whatever it has resolved stood there, in
 * order and granted, when it looked.
 */
module Grounds {
  import opened Prelude
  import opened Platform
  import opened Api
  import opened Cluster
  import opened Policy
  import opened Queries
  import opened Protocol
  import opened Resolution
  import opened Tls
  import Authority
  import Logins
  import Providers
  import Schedules
  import Username

  /** The stores as each read of the pass in progress found them. */
  datatype Reads = Reads(
    credential: Option<World>, policy: Option<World>, provider: Option<World>, root: Option<World>, tls: Option<World>)

  const NOTHING: Reads := Reads(None, None, None, None, None)

  function Noted(r: Reads, s: State): Reads {
    if s.pass.GetCredential? then r.(credential := Some(s.world))
    else if s.pass.GetPolicy? then r.(policy := Some(s.world))
    else if s.pass.GetProvider? then r.(provider := Some(s.world))
    else if s.pass.GetRoot? then r.(root := Some(s.world))
    else if s.pass.GetTls? then r.(tls := Some(s.world))
    else r
  }

  function ReadsAfter(r: Reads, s: State, e: Event): Reads {
    if e.Begin? && s.pass.Idle? then NOTHING
    else if e.Proceed? then Noted(r, s)
    else r
  }

  /** What the pass that a run ends in has read. */
  function ReadsIn(lib: Libraries, s: State, es: seq<Event>): Reads
    decreases |es|
  {
    if es == [] then NOTHING
    else ReadsAfter(ReadsIn(lib, s, es[..|es| - 1]), Run(lib, s, es[..|es| - 1]), es[|es| - 1])
  }

  // ----- what a resolved target rests on -----

  predicate WasRead(r: Reads, key: NamespacedName) {
    r.credential.Some? && key in r.credential.value.credentials
  }

  function AsRead(r: Reads, key: NamespacedName): Credential
    requires WasRead(r, key)
  {
    r.credential.value.credentials[key]
  }

  /** The object read: under its version the store still holds just that, and in memory only the status differs. */
  predicate Holds(r: Reads, w: World, key: NamespacedName, c: Credential) {
    && WasRead(r, key)
    && var b := AsRead(r, key);
       && b.version < w.revision && (IsFresh(w, key, b) ==> w.credentials[key] == b)
       && c == b.(status := c.status)
  }

  /** The policy stood in the credential's namespace under the name it refers to, and grants the request. */
  predicate PolicyStood(r: Reads, key: NamespacedName, c: Credential, policy: PolicySpec) {
    && r.policy.Some?
    && Lookup(r.policy.value.policies, NamespacedName(key.namespace, c.spec.policyRef)) == Some(policy)
    && Grants(policy, c.spec.level, c.spec.database, RoleSet(c.spec.roles))
  }

  /** The provider stood under the name the policy refers to. */
  predicate ProviderStood(r: Reads, policy: PolicySpec, provider: ProviderSpec) {
    r.provider.Some? && Lookup(r.provider.value.providers, policy.providerRef) == Some(provider)
  }

  predicate RootStood(r: Reads, provider: ProviderSpec) {
    r.root.Some? && Providers.RootInOrder(r.root.value.secrets, provider)
  }

  predicate TlsStood(lib: Libraries, r: Reads, provider: ProviderSpec) {
    r.tls.Some? && Providers.TlsInOrder(lib, r.tls.value.secrets, provider)
  }

  /** The username generated for the credential and its target. */
  function NameFor(lib: Libraries, key: NamespacedName, c: Credential, policy: PolicySpec): string {
    Username.Username(lib, key.namespace, key.name,
                      PolicyTarget(policy.providerRef, policy.surrealNamespace, c.spec.database, c.spec.level))
  }

  predicate Stood(lib: Libraries, r: Reads, key: NamespacedName, c: Credential, found: Resolved) {
    && PolicyStood(r, key, c, found.policy)
    && ProviderStood(r, found.policy, found.provider)
    && RootStood(r, found.provider)
    && TlsStood(lib, r, found.provider)
    && found.username == NameFor(lib, key, c, found.policy)
  }

  // ----- what a pass knows -----

  /** Stages that hold the object they read. */
  predicate HoldsObject(pass: Pass) {
    pass.GetPolicy? || pass.ForcedDelete? || pass.DeleteSecret? || PolicyPassed(pass) || HasResolved(pass)
  }

  predicate Grounded(lib: Libraries, r: Reads, w: World, pass: Pass) {
    && (HoldsObject(pass) ==> Holds(r, w, pass.key, pass.cred))
    && (PolicyPassed(pass) ==> PolicyStood(r, pass.key, pass.cred, pass.policy))
    && (pass.GetRoot? || pass.GetTls? ==> ProviderStood(r, pass.policy, pass.provider))
    && (pass.GetTls? ==> RootStood(r, pass.provider))
    && (HasResolved(pass) ==> Stood(lib, r, pass.key, pass.cred, pass.resolved))
  }

  predicate StaysGrounded(lib: Libraries, r: Reads, s: State, e: Event) {
    Grounded(lib, ReadsAfter(r, s, e), Next(lib, s, e).world, Next(lib, s, e).pass)
  }

  lemma EditGrounds(lib: Libraries, r: Reads, s: State, e: Event)
    requires Grounded(lib, r, s.world, s.pass) && Schedules.Settled(s.world) && e.Outside?
    ensures StaysGrounded(lib, r, s, e)
  {
    Schedules.EditRenews(s.world, e.edit);
  }

  lemma CredentialReadGrounds(lib: Libraries, r: Reads, s: State, e: Event)
    requires Schedules.Settled(s.world) && s.pass.GetCredential? && e.Proceed?
    ensures StaysGrounded(lib, r, s, e)
  {
  }

  lemma PolicyReadGrounds(lib: Libraries, r: Reads, s: State, e: Event)
    requires Grounded(lib, r, s.world, s.pass) && s.pass.GetPolicy? && e.Proceed?
    ensures StaysGrounded(lib, r, s, e)
  {
    var k := NamespacedName(s.pass.key.namespace, s.pass.cred.spec.policyRef);
    if k in s.world.policies {
      AllowedIffGranted(s.world.policies[k], RequestOf(s.pass.cred));
    }
  }

  lemma ProviderReadGrounds(lib: Libraries, r: Reads, s: State, e: Event)
    requires Grounded(lib, r, s.world, s.pass) && s.pass.GetProvider? && e.Proceed?
    ensures StaysGrounded(lib, r, s, e)
  {
  }

  lemma RootReadGrounds(lib: Libraries, r: Reads, s: State, e: Event)
    requires Grounded(lib, r, s.world, s.pass) && s.pass.GetRoot? && e.Proceed?
    ensures StaysGrounded(lib, r, s, e)
  {
    Providers.RootIff(s.world.secrets, s.pass.provider);
  }

  lemma NoTlsToRead(lib: Libraries, store: map<NamespacedName, Secret>, provider: ProviderSpec)
    ensures !ReadsTls(provider) <==> Providers.TlsNeeds(provider) == {}
    ensures !ReadsTls(provider) ==> Providers.TlsInOrder(lib, store, provider)
  {
    Providers.MaterialFields(provider);
  }

  /** What a pass goes on with once the TLS material is in order. */
  lemma LocatedAs(lib: Libraries, s: State, e: Event)
    requires s.pass.GetTls? && e.Proceed?
    ensures var t := Next(lib, s, e);
            && t.world == s.world && (HasResolved(t.pass) || t.pass.WriteStatus?)
            && (HasResolved(t.pass) ==>
                  && t.pass.key == s.pass.key && t.pass.cred == s.pass.cred.(status := t.pass.cred.status)
                  && t.pass.resolved == Resolved(s.pass.policy, s.pass.provider, NameFor(lib, s.pass.key, s.pass.cred, s.pass.policy)))
    ensures HasResolved(Next(lib, s, e).pass) ==> !ReadsTls(s.pass.provider) || TlsProblem(lib, s.world.secrets, s.pass.provider.tls).None?
  {
  }

  lemma TlsReadGrounds(lib: Libraries, r: Reads, s: State, e: Event)
    requires Grounded(lib, r, s.world, s.pass) && s.pass.GetTls? && e.Proceed?
    ensures StaysGrounded(lib, r, s, e)
  {
    LocatedAs(lib, s, e);
    Providers.TlsIff(lib, s.world.secrets, s.pass.provider);
    NoTlsToRead(lib, s.world.secrets, s.pass.provider);
    var t := Next(lib, s, e);
    if HasResolved(t.pass) {
      LocatedIsGrounded(lib, r, s.world, s.pass, t.pass);
    }
  }

  lemma LocatedIsGrounded(lib: Libraries, r: Reads, w: World, p: Pass, q: Pass)
    requires Grounded(lib, r, w, p) && p.GetTls? && Providers.TlsInOrder(lib, w.secrets, p.provider)
    requires HasResolved(q) && q.key == p.key && q.cred == p.cred.(status := q.cred.status)
    requires q.resolved == Resolved(p.policy, p.provider, NameFor(lib, p.key, p.cred, p.policy))
    ensures Grounded(lib, r.(tls := Some(w)), w, q)
  {
  }

  /** The pass goes on with what it had. */
  predicate Continues(s: State, t: State) {
    var p, q := s.pass, t.pass;
    && t.world.credentials == s.world.credentials && s.world.revision <= t.world.revision
    && !q.GetPolicy? && !PolicyPassed(q)
    && (HoldsObject(q) ==> HoldsObject(p) && q.key == p.key && q.cred == p.cred.(status := q.cred.status))
    && (HasResolved(q) ==> HasResolved(p) && q.resolved == p.resolved)
  }

  lemma ContinuingStaysGrounded(lib: Libraries, r: Reads, s: State, t: State)
    requires Grounded(lib, r, s.world, s.pass) && Continues(s, t)
    ensures Grounded(lib, r, t.world, t.pass)
  {
  }

  lemma PlanningContinues(lib: Libraries, s: State, e: Event)
    requires e.Proceed? && (s.pass.GetTarget? || s.pass.Connect? || s.pass.ConnectToRemove?)
    ensures Continues(s, Next(lib, s, e))
  {
  }

  lemma DefinitionContinues(lib: Libraries, s: State, e: Event)
    requires e.Proceed? && s.pass.Define?
    ensures Continues(s, Next(lib, s, e))
  {
  }

  lemma RemovalContinues(lib: Libraries, s: State, e: Event)
    requires e.Proceed? && s.pass.RemoveUser?
    ensures Continues(s, Next(lib, s, e))
  {
  }

  lemma SecretWriteLeaves(lib: Libraries, w: World, p: Pass, fault: Fault)
    requires p.WriteSecret?
    ensures var v := Attempt(w, SecretWrite(lib, w, p.key, p.cred, p.resolved, p.plan), fault).0;
            v.credentials == w.credentials && w.revision <= v.revision
  {
  }

  lemma SecretWriteContinues(lib: Libraries, s: State, e: Event)
    requires e.Proceed? && s.pass.WriteSecret?
    ensures Continues(s, Next(lib, s, e))
  {
    SecretWriteLeaves(lib, s.world, s.pass, e.fault);
  }

  lemma OtherCallsHoldNothing(lib: Libraries, s: State, e: Event)
    requires e.Proceed?
    requires s.pass.AddFinalizer? || s.pass.WriteStatus? || s.pass.PersistReady? || s.pass.ForcedDelete? || s.pass.DeleteSecret?
             || s.pass.GetLatest? || s.pass.DropFinalizer?
    ensures !HoldsObject(Next(lib, s, e).pass)
  {
  }

  lemma CallGrounds(lib: Libraries, r: Reads, s: State, e: Event)
    requires Grounded(lib, r, s.world, s.pass) && Schedules.Settled(s.world) && e.Proceed?
    ensures StaysGrounded(lib, r, s, e)
  {
    if s.pass.Idle? {
    } else if s.pass.GetCredential? {
      CredentialReadGrounds(lib, r, s, e);
    } else if s.pass.GetPolicy? {
      PolicyReadGrounds(lib, r, s, e);
    } else if s.pass.GetProvider? {
      ProviderReadGrounds(lib, r, s, e);
    } else if s.pass.GetRoot? {
      RootReadGrounds(lib, r, s, e);
    } else if s.pass.GetTls? {
      TlsReadGrounds(lib, r, s, e);
    } else if s.pass.GetTarget? || s.pass.Connect? || s.pass.ConnectToRemove? || s.pass.Define? || s.pass.RemoveUser? || s.pass.WriteSecret? {
      if s.pass.Define? {
        DefinitionContinues(lib, s, e);
      } else if s.pass.RemoveUser? {
        RemovalContinues(lib, s, e);
      } else if s.pass.WriteSecret? {
        SecretWriteContinues(lib, s, e);
      } else {
        PlanningContinues(lib, s, e);
      }
      ContinuingStaysGrounded(lib, r, s, Next(lib, s, e));
    } else {
      OtherCallsHoldNothing(lib, s, e);
    }
  }

  /**
   * In every run, with any faults, crashes and edits at any moment: a target that a pass has resolved
   * rests on what its own reads found. The policy stood under the credential's reference and grants the
   * request, the provider stood under the policy's reference, every root and TLS field it names was
   * there and parsed, and the username is the one of this credential and target. No user is defined or
   * removed, and no Secret written, on anything less.
   */
  lemma {:induction false} ResolvedIsGrounded(lib: Libraries, s: State, es: seq<Event>)
    requires s.pass.Idle? && Schedules.Settled(s.world)
    ensures var t := Run(lib, s, es); Schedules.Settled(t.world) && Grounded(lib, ReadsIn(lib, s, es), t.world, t.pass)
    decreases |es|
  {
    if es != [] {
      var t, e := Run(lib, s, es[..|es| - 1]), es[|es| - 1];
      ResolvedIsGrounded(lib, s, es[..|es| - 1]);
      Schedules.RunIsSound(lib, s, es);
      EventGrounds(lib, ReadsIn(lib, s, es[..|es| - 1]), t, e);
    }
  }

  lemma EventGrounds(lib: Libraries, r: Reads, s: State, e: Event)
    requires Grounded(lib, r, s.world, s.pass) && Schedules.Settled(s.world)
    ensures StaysGrounded(lib, r, s, e)
  {
    match e
    case Outside(_) => EditGrounds(lib, r, s, e);
    case Proceed(_, _, _) => CallGrounds(lib, r, s, e);
    case Begin(_) =>
    case Crash =>
  }

  /**
   * So every definition asked of SurrealDB, and every change of a login, in every run: the pass that makes
   * the call had found the policy, the provider, its root credentials and its TLS material in order.
   */
  lemma NothingWithoutGrounds(lib: Libraries, s: State, es: seq<Event>, e: Event)
    requires s.pass.Idle? && Schedules.Settled(s.world) && e.Proceed?
    requires var t, u := Run(lib, s, es), Next(lib, Run(lib, s, es), e);
             u.world.users != t.world.users || (exists user, password, roles :: u.log == t.log + [DefineIssued(user, password, roles)])
    ensures var t := Run(lib, s, es);
            HasResolved(t.pass) && Stood(lib, ReadsIn(lib, s, es), t.pass.key, t.pass.cred, t.pass.resolved)
  {
    ResolvedIsGrounded(lib, s, es);
    var t := Run(lib, s, es);
    if !t.pass.Define? && !t.pass.RemoveUser? {
      Logins.OtherCallsChangeNoLogin(lib, t, e.fault, e.now, e.drawn);
      OtherCallsDefineNothing(lib, t, e);
    }
  }

  lemma OtherCallsDefineNothing(lib: Libraries, s: State, e: Event)
    requires e.Proceed? && !s.pass.Define?
    ensures var u := Next(lib, s, e);
            u.log == s.log || (|u.log| == |s.log| + 1 && !u.log[|s.log|].DefineIssued?)
  {
  }

  // ----- when the reads let a pass go on -----

  /** The call reads the policy: it goes on exactly when it is answered and a policy is there that grants the request. */
  lemma PolicyDecides(lib: Libraries, s: State, e: Event)
    requires s.pass.GetPolicy? && e.Proceed?
    ensures var t, c, k := Next(lib, s, e), s.pass.cred, NamespacedName(s.pass.key.namespace, s.pass.cred.spec.policyRef);
            && t.world == s.world
            && (t.pass.GetProvider? <==>
                  Answered(e) && k in s.world.policies && Grants(s.world.policies[k], c.spec.level, c.spec.database, RoleSet(c.spec.roles)))
            && (t.pass.GetProvider? || t.pass.Idle? || (t.pass.WriteStatus? && !c.deleting))
            && (t.pass.GetProvider? ==> t.pass == GetProvider(s.pass.key, c, s.world.policies[k]))
  {
    var k := NamespacedName(s.pass.key.namespace, s.pass.cred.spec.policyRef);
    if k in s.world.policies {
      AllowedIffGranted(s.world.policies[k], RequestOf(s.pass.cred));
    }
  }

  lemma ProviderDecides(lib: Libraries, s: State, e: Event)
    requires s.pass.GetProvider? && e.Proceed?
    ensures var t, c, name := Next(lib, s, e), s.pass.cred, s.pass.policy.providerRef;
            && t.world == s.world
            && (t.pass.GetRoot? <==> Answered(e) && name in s.world.providers)
            && (t.pass.GetRoot? || t.pass.Idle? || (t.pass.WriteStatus? && !c.deleting))
            && (t.pass.GetRoot? ==> t.pass == GetRoot(s.pass.key, c, s.pass.policy, s.world.providers[name]))
  {
  }

  /** The call reads the root credentials: it goes on exactly when it is answered and both keys are there. */
  lemma RootDecides(lib: Libraries, s: State, e: Event)
    requires s.pass.GetRoot? && e.Proceed?
    ensures var t := Next(lib, s, e);
            && t.world == s.world
            && (t.pass.GetTls? <==> Answered(e) && Providers.RootInOrder(s.world.secrets, s.pass.provider))
            && (t.pass.GetTls? || t.pass.Idle?)
  {
    Providers.RootIff(s.world.secrets, s.pass.provider);
  }

  /** The pass knows its target, to be defined or removed. */
  predicate Located(c: Credential, pass: Pass) {
    if c.deleting then pass.ConnectToRemove? else pass.GetTarget?
  }

  /**
   * The call reads the TLS material: the pass goes on exactly when there is nothing to read, or the read
   * is answered with every field there and parsing. Otherwise it refuses the provider's Secrets.
   */
  lemma TlsDecides(lib: Libraries, s: State, e: Event)
    requires s.pass.GetTls? && e.Proceed?
    ensures var t, c := Next(lib, s, e), s.pass.cred;
            && t.world == s.world
            && (Located(c, t.pass) <==>
                  Providers.TlsNeeds(s.pass.provider) == {}
                  || (Answered(e) && Providers.TlsInOrder(lib, s.world.secrets, s.pass.provider)))
            && (Located(c, t.pass) || t.pass.WriteStatus?)
            && (t.pass.WriteStatus? ==>
                  t.pass.cred.status.conditions == c.status.conditions["Ready" := Condition(False, "ProviderSecretInvalid", c.generation)])
  {
    Providers.TlsIff(lib, s.world.secrets, s.pass.provider);
    NoTlsToRead(lib, s.world.secrets, s.pass.provider);
  }

  // ----- usernames of different credentials -----

  /** The bytes behind the username of a credential and its target. */
  function BytesFor(key: NamespacedName, c: Credential, policy: PolicySpec): string {
    Username.Framed(Username.Identity(key.namespace, key.name,
                    PolicyTarget(policy.providerRef, policy.surrealNamespace, c.spec.database, c.spec.level)))
  }

  /** Two different texts whose digests agree in the characters a username keeps. */
  predicate Collide(lib: Libraries, a: string, b: string)
    requires |lib.digest(a)| >= Username.HASH_CHARS && |lib.digest(b)| >= Username.HASH_CHARS
  {
    a != b && lib.digest(a)[..Username.HASH_CHARS] == lib.digest(b)[..Username.HASH_CHARS]
  }

  /** The same credential, for the same provider, namespace, database and level. */
  predicate SameLogin(p: Pass, q: Pass)
    requires HasResolved(p) && HasResolved(q)
  {
    && p.key == q.key && p.resolved.policy.providerRef == q.resolved.policy.providerRef
    && SurrealTarget(p.cred, p.resolved).namespace == SurrealTarget(q.cred, q.resolved).namespace
    && SurrealTarget(p.cred, p.resolved).database == SurrealTarget(q.cred, q.resolved).database
    && LevelText(p.cred.spec.level) == LevelText(q.cred.spec.level)
  }

  /**
   * Two passes, of one run or of two, about to define users under the same name, the first with a text that is
   * accepted and Kubernetes names without NUL: they work on the same credential for the same target, or the kept
   * digits of two different texts collide.
   */
  lemma SharedNameIsSharedLogin(lib: Libraries, s: State, es: seq<Event>, other: State, fs: seq<Event>)
    requires s.pass.Idle? && other.pass.Idle? && Schedules.Settled(s.world) && Schedules.Settled(other.world) && ProperDigest(lib)
    requires var p, q := Run(lib, s, es).pass, Run(lib, other, fs).pass;
             && p.Define? && q.Define? && p.resolved.username == q.resolved.username
             && DefineUserQuery(lib, SurrealTarget(p.cred, p.resolved), p.resolved.username, p.plan.password, p.cred.spec.roles).Ok?
             && Username.NulFree(p.key.namespace) && Username.NulFree(p.key.name) && Username.NulFree(p.resolved.policy.providerRef)
    ensures var p, q := Run(lib, s, es).pass, Run(lib, other, fs).pass;
            SameLogin(p, q)
            || Collide(lib, BytesFor(p.key, p.cred, p.resolved.policy), BytesFor(q.key, q.cred, q.resolved.policy))
  {
    ResolvedIsGrounded(lib, s, es);
    ResolvedIsGrounded(lib, other, fs);
    var p, q := Run(lib, s, es).pass, Run(lib, other, fs).pass;
    SharedNameTells(lib, p.key, p.cred, p.resolved.policy, q.key, q.cred, q.resolved.policy, p.plan.password);
  }

  lemma SharedNameTells(lib: Libraries, key: NamespacedName, c: Credential, policy: PolicySpec,
                        otherKey: NamespacedName, d: Credential, otherPolicy: PolicySpec, password: string)
    requires ProperDigest(lib) && NameFor(lib, key, c, policy) == NameFor(lib, otherKey, d, otherPolicy)
    requires Grants(policy, c.spec.level, c.spec.database, RoleSet(c.spec.roles))
    requires DefineUserQuery(lib, UserTarget(c.spec.level, policy.surrealNamespace, c.spec.database), NameFor(lib, key, c, policy), password,
                             c.spec.roles).Ok?
    requires Username.NulFree(key.namespace) && Username.NulFree(key.name) && Username.NulFree(policy.providerRef)
    ensures (key == otherKey && policy.providerRef == otherPolicy.providerRef && policy.surrealNamespace == otherPolicy.surrealNamespace
             && c.spec.database == d.spec.database && LevelText(c.spec.level) == LevelText(d.spec.level))
            || Collide(lib, BytesFor(key, c, policy), BytesFor(otherKey, d, otherPolicy))
  {
    var target := PolicyTarget(policy.providerRef, policy.surrealNamespace, c.spec.database, c.spec.level);
    var other := PolicyTarget(otherPolicy.providerRef, otherPolicy.surrealNamespace, d.spec.database, d.spec.level);
    Username.SharedUsernameSharesHash(lib, key.namespace, key.name, target, otherKey.namespace, otherKey.name, other);
    if BytesFor(key, c, policy) == BytesFor(otherKey, d, otherPolicy) {
      AllowedIffGranted(policy, RequestOf(c));
      Authority.AcceptedIdentityIsUnique(lib, key.namespace, key.name, policy, RequestOf(c), NameFor(lib, key, c, policy), password,
                                         otherKey.namespace, otherKey.name, other);
    }
  }
}
