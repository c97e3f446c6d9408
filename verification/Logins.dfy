/**
 * Policy authority over the user table: which logins passes make, as the server reads their texts, and
 * exactly when these lie in the scope that the policy grants.
 */
module Logins {
  import opened Prelude
  import opened Platform
  import opened Api
  import opened Cluster
  import opened Policy
  import opened Identifiers
  import opened SurrealQL
  import opened Queries
  import opened QueryMeaning
  import opened Server
  import opened Protocol
  import opened Authority
  import opened Resolution

  // ----- what a call does to the user table -----

  predicate WritesCredential(pass: Pass) {
    pass.AddFinalizer? || pass.WriteStatus? || pass.PersistReady? || pass.DropFinalizer?
  }

  predicate WritesSecret(pass: Pass) {
    pass.WriteSecret? || pass.ForcedDelete? || pass.DeleteSecret?
  }

  lemma CredentialWriteAddsNoLogin(w: World, k: NamespacedName, c: Credential, fault: Fault)
    ensures Attempt(w, TryUpdateStatus(w, k, c), fault).0.users == w.users
    ensures Attempt(w, TryUpdateObject(w, k, c), fault).0.users == w.users
  {
    if TryUpdateStatus(w, k, c).Some? {
      StatusWriteEffect(w, k, c, TryUpdateStatus(w, k, c).value);
    }
    if TryUpdateObject(w, k, c).Some? {
      ObjectWriteEffect(w, k, c, TryUpdateObject(w, k, c).value);
    }
  }

  lemma SecretWriteAddsNoLogin(lib: Libraries, w: World, pass: Pass, fault: Fault)
    requires pass.WriteSecret?
    ensures Attempt(w, SecretWrite(lib, w, pass.key, pass.cred, pass.resolved, pass.plan), fault).0.users == w.users
  {
    var desired := DesiredSecret(lib, pass.key, pass.cred, pass.resolved, pass.plan.password);
    assert StoreSecret(w, TargetKey(pass.key, pass.cred), desired).users == w.users;
  }

  lemma SecretDeleteAddsNoLogin(w: World, k: NamespacedName, name: string, uid: string, fault: Fault)
    ensures Attempt(w, Some(DeleteOwnedSecret(w, k, name, uid)), fault).0.users == w.users
  {
  }

  lemma ReadAddsNoLogin(lib: Libraries, s: State, fault: Fault, now: int, drawn: Option<string>)
    requires !WritesCredential(s.pass) && !WritesSecret(s.pass) && !s.pass.Define? && !s.pass.RemoveUser?
    ensures Advance(lib, s, fault, now, drawn).world == s.world
  {
  }

  lemma RemovalAddsNoLogin(w: World, u: RemoteUser, fault: Fault)
    requires EscapeIdent(u.username) == Ok(u.username)
    ensures var v := Answer(w, AskToRemove(w, u), fault).0;
            forall x :: x in v.users ==> x in w.users && v.users[x] == w.users[x]
  {
    RemovalEffect(u.endpoint, w.users, u.target, u.username);
  }

  /** The query is built and its names are nameable: the server takes it. */
  predicate Taken(lib: Libraries, c: Credential, r: Resolved, password: string) {
    DefineUserQuery(lib, SurrealTarget(c, r), r.username, password, c.spec.roles).Ok? && Nameable(SurrealTarget(c, r))
  }

  lemma DefinitionWrites(lib: Libraries, w: World, c: Credential, r: Resolved, password: string, fault: Fault)
    requires EscapeIdent(r.username) == Ok(r.username)
    ensures Answer(w, AskToDefine(lib, w, UserOf(c, r), password, c.spec.roles), fault).0.users ==
            if Taken(lib, c, r, password) && !fault.Lost?
            then w.users[LocatedFor(c, r) := Login(ReadBack(lib, password), Distinct(c.spec.roles))]
            else w.users
  {
    DefinitionEffect(lib, r.provider.endpoint, w.users, SurrealTarget(c, r), r.username, password, c.spec.roles);
  }

  /** Only a definition that the server takes makes or changes a login, and only its own. */
  lemma LoginsChangeByDefinition(lib: Libraries, s: State, fault: Fault, now: int, drawn: Option<string>, u: RemoteUser)
    requires WellResolved(s.pass)
    requires var v := Advance(lib, s, fault, now, drawn).world;
             u in v.users && !(u in s.world.users && s.world.users[u] == v.users[u])
    ensures s.pass.Define? && u == LocatedFor(s.pass.cred, s.pass.resolved)
    ensures Taken(lib, s.pass.cred, s.pass.resolved, s.pass.plan.password)
    ensures Advance(lib, s, fault, now, drawn).world.users[u] == Login(ReadBack(lib, s.pass.plan.password), Distinct(s.pass.cred.spec.roles))
  {
    if s.pass.RemoveUser? {
      RemovalAddsNoLogin(s.world, UserOf(s.pass.cred, s.pass.resolved), fault);
    } else if s.pass.Define? {
      DefinitionWrites(lib, s.world, s.pass.cred, s.pass.resolved, s.pass.plan.password, fault);
    } else {
      OtherCallsChangeNoLogin(lib, s, fault, now, drawn);
    }
  }

  /** Only a removal takes a login away, and only its own. */
  lemma LoginsGoByRemoval(lib: Libraries, s: State, fault: Fault, now: int, drawn: Option<string>, u: RemoteUser)
    requires WellResolved(s.pass) && u in s.world.users && u !in Advance(lib, s, fault, now, drawn).world.users
    ensures s.pass.RemoveUser? && u == LocatedFor(s.pass.cred, s.pass.resolved)
  {
    if s.pass.RemoveUser? {
      RemovalEffect(s.pass.resolved.provider.endpoint, s.world.users, SurrealTarget(s.pass.cred, s.pass.resolved), s.pass.resolved.username);
    } else if s.pass.Define? {
      DefinitionWrites(lib, s.world, s.pass.cred, s.pass.resolved, s.pass.plan.password, fault);
    } else {
      OtherCallsChangeNoLogin(lib, s, fault, now, drawn);
    }
  }

  lemma OtherCallsChangeNoLogin(lib: Libraries, s: State, fault: Fault, now: int, drawn: Option<string>)
    requires !s.pass.Define? && !s.pass.RemoveUser?
    ensures Advance(lib, s, fault, now, drawn).world.users == s.world.users
  {
    if WritesCredential(s.pass) {
      CredentialWriteAddsNoLogin(s.world, s.pass.key, if s.pass.DropFinalizer? then s.pass.latest else s.pass.cred, fault);
    } else if WritesSecret(s.pass) {
      if s.pass.WriteSecret? {
        SecretWriteAddsNoLogin(lib, s.world, s.pass, fault);
      } else {
        SecretDeleteAddsNoLogin(s.world, TargetKey(s.pass.key, s.pass.cred), s.pass.key.name, s.pass.cred.uid, fault);
      }
    } else {
      ReadAddsNoLogin(lib, s, fault, now, drawn);
    }
  }

  // ----- which logins a policy grants -----

  lemma {:induction false} DistinctRolesCounted(roles: seq<Role>)
    requires forall i, j :: 0 <= i < j < |roles| ==> roles[i] != roles[j]
    ensures |RoleSet(roles)| == |roles|
    decreases |roles|
  {
    if roles != [] {
      var n := |roles| - 1;
      DistinctRolesCounted(roles[..n]);
      assert RoleSet(roles) == RoleSet(roles[..n]) + {roles[n]};
    }
  }

  /** What the names of an allowed target are read as lies within the policy. */
  predicate ReadsWithin(policy: PolicySpec, target: UserTarget) {
    && !HasBackslash(target.namespace)
    && (target.level.Database? ==> Meaning(target.database) in policy.allowedDatabases)
  }

  lemma MeaningIsSome(s: string)
    requires s != ""
    ensures Meaning(s) != ""
  {
  }

  /** Exactly when the login of an allowed request lies in what the policy grants. */
  lemma LocatedIsGrantedIff(c: Credential, r: Resolved, roles: set<Role>)
    requires Allows(r.policy, c) && roles == RoleSet(c.spec.roles) && Nameable(SurrealTarget(c, r))
    ensures Grant(r.policy, (r.policy.providerRef, r.provider), LocatedFor(c, r), roles) <==> ReadsWithin(r.policy, SurrealTarget(c, r))
    ensures PlainTarget(SurrealTarget(c, r)) ==> ReadsWithin(r.policy, SurrealTarget(c, r))
    ensures LocatedFor(c, r) == UserOf(c, r) <==> PlainTarget(SurrealTarget(c, r))
  {
    var target := SurrealTarget(c, r);
    AllowedIffGranted(r.policy, RequestOf(c));
    PairsOfNames(target);
    MeaningIsItselfIff(target.namespace);
    if target.level.Database? {
      MeaningIsItselfIff(target.database);
      MeaningIsSome(target.database);
    }
  }

  /** What the pass at its definition has learned. */
  lemma DefinerKnows(lib: Libraries, s: State, es: seq<Event>)
    requires s.pass.Idle? && s.log == [] && ProperDigest(lib)
    ensures var t := Run(lib, s, es);
            && WellResolved(t.pass)
            && (t.pass.Define? ==>
                  && Allows(t.pass.resolved.policy, t.pass.cred)
                  && PolicyOf(t.log) == Some(t.pass.resolved.policy)
                  && ProviderOf(t.log) == Some((t.pass.resolved.policy.providerRef, t.pass.resolved.provider)))
  {
    EveryDefinitionIsGranted(lib, s, es);
    RunResolvesWell(lib, s, es);
  }

  /** The call makes or changes this login. */
  predicate Changes(w: World, v: World, u: RemoteUser) {
    u in v.users && !(u in w.users && w.users[u] == v.users[u])
  }

  /** What the policy and provider read in the pass of this log grant. */
  predicate GrantedBy(log: seq<Entry>, u: RemoteUser, login: Login) {
    && PolicyOf(log).Some? && ProviderOf(log).Some?
    && Grant(PolicyOf(log).value, ProviderOf(log).value, u, RoleSet(login.roles))
  }

  /**
   * After every run, a login that the next call makes or changes is granted by the policy read in the
   * same pass if and only if the names that were sent are read within it; it names each role once.
   */
  lemma LoginsAreGrantedIff(lib: Libraries, s: State, es: seq<Event>, fault: Fault, now: int, drawn: Option<string>, u: RemoteUser)
    requires s.pass.Idle? && s.log == [] && ProperDigest(lib)
    requires var t := Run(lib, s, es); Changes(t.world, Advance(lib, t, fault, now, drawn).world, u)
    ensures var t := Run(lib, s, es);
            var login := Advance(lib, t, fault, now, drawn).world.users[u];
            && t.pass.Define? && PolicyOf(t.log) == Some(t.pass.resolved.policy)
            && (GrantedBy(t.log, u, login) <==> ReadsWithin(t.pass.resolved.policy, SurrealTarget(t.pass.cred, t.pass.resolved)))
            && |RoleSet(login.roles)| == |login.roles|
  {
    var t := Run(lib, s, es);
    DefinerKnows(lib, s, es);
    LoginsChangeByDefinition(lib, t, fault, now, drawn, u);
    var c, r := t.pass.cred, t.pass.resolved;
    assert RoleSet(Distinct(c.spec.roles)) == RoleSet(c.spec.roles);
    DistinctRolesCounted(Distinct(c.spec.roles));
    LocatedIsGrantedIff(c, r, RoleSet(c.spec.roles));
  }

  /** So no login is made or changed beyond the policy by a pass whose target holds no backslash. */
  lemma LoginsStayGranted(lib: Libraries, s: State, es: seq<Event>, fault: Fault, now: int, drawn: Option<string>, u: RemoteUser)
    requires s.pass.Idle? && s.log == [] && ProperDigest(lib)
    requires var t := Run(lib, s, es);
             && Changes(t.world, Advance(lib, t, fault, now, drawn).world, u)
             && (t.pass.Define? ==> PlainTarget(SurrealTarget(t.pass.cred, t.pass.resolved)))
    ensures var t := Run(lib, s, es);
            && GrantedBy(t.log, u, Advance(lib, t, fault, now, drawn).world.users[u])
            && t.pass.Define? && u == UserOf(t.pass.cred, t.pass.resolved)
  {
    var t := Run(lib, s, es);
    DefinerKnows(lib, s, es);
    LoginsChangeByDefinition(lib, t, fault, now, drawn, u);
    LoginsAreGrantedIff(lib, s, es, fault, now, drawn, u);
    LocatedIsGrantedIff(t.pass.cred, t.pass.resolved, RoleSet(t.pass.cred.spec.roles));
  }

  // ----- a granted request whose login lands outside the policy -----

  const DOUBLED: PolicySpec := PolicySpec("main", "a\\\\", [], [], true, [Viewer])
  const ASKED: CredentialRequest := CredentialRequest(Namespace, "", [Viewer])

  /** A policy for a namespace that ends in two backslashes grants a login that lands in the one that ends in one. */
  lemma GrantedLoginLandsElsewhere(lib: Libraries, provider: ProviderSpec, username: string, password: string)
    requires EscapeIdent(username) == Ok(username)
    ensures var target := UserTarget(Namespace, DOUBLED.surrealNamespace, "");
            var u := RemoteUser(provider.endpoint, UserTarget(Namespace, "a\\", ""), username);
            && Evaluate(DOUBLED, ASKED).verdict.Allowed?
            && u in Ask(provider.endpoint, map[], DefineUserQuery(lib, target, username, password, ASKED.roles)).0
            && !Grant(DOUBLED, (DOUBLED.providerRef, provider), u, RoleSet(ASKED.roles))
  {
    var target := UserTarget(Namespace, DOUBLED.surrealNamespace, "");
    assert MissingRoles([Viewer], [Viewer]) == [];
    TrailingBackslashes();
    assert UsePrefix(target).Ok?;
    assert Supported(ASKED.roles);
    DefinitionEffect(lib, provider.endpoint, map[], target, username, password, ASKED.roles);
  }

  /** With backslash-free names the text sent says so too: it names the granted scope, level and roles. */
  lemma DefinitionTextStaysGranted(lib: Libraries, policy: PolicySpec, request: CredentialRequest, username: string, password: string)
    requires var target := UserTarget(request.level, policy.surrealNamespace, request.database);
             DefineUserQuery(lib, target, username, password, request.roles).Ok? && PlainTarget(target)
    requires EscapeIdent(username) == Ok(username) && Evaluate(policy, request).verdict.Allowed?
    ensures var target := UserTarget(request.level, policy.surrealNamespace, request.database);
            var script := ParseScript(DefineUserQuery(lib, target, username, password, request.roles).value);
            && script.Some? && |script.value| == 2
            && script.value[0] == ScopeOf(target) && script.value[1].DefineUser?
            && Grants(policy, script.value[1].on, request.database, RoleSet(script.value[1].roles))
  {
    var target := UserTarget(request.level, policy.surrealNamespace, request.database);
    ReadAsWrittenIff(target);
    OwnIdentifierIsRead(username);
    DefinitionIsRead(lib, target, username, password, request.roles);
    AllowedIffGranted(policy, request);
    assert RoleSet(Distinct(request.roles)) == RoleSet(request.roles);
  }
}
