/** Tenant policy: internal/policy/evaluate.go. */
module Policy {
  import opened Api

  /** The policy-relevant part of a credential. */
  datatype CredentialRequest = CredentialRequest(level: UserLevel, database: string, roles: seq<Role>)

  /** Where a generated user lives; with the credential's name it determines the username. */
  datatype PolicyTarget = PolicyTarget(provider: string, namespace: string, database: string, level: UserLevel)

  datatype Verdict =
    | Allowed
    | RequestHasNoRoles
    | DatabaseRequired
    | DatabaseDenied(database: string)
    | RoleDenied(missing: seq<Role>)
    | NamespaceUsersDenied
    | DatabaseForbidden
    | InvalidLevel(text: string)

  datatype Evaluation = Evaluation(verdict: Verdict, target: PolicyTarget)

  function MissingRoles(allowed: seq<Role>, requested: seq<Role>): (r: seq<Role>)
    ensures forall x :: x in r <==> x in requested && x !in allowed
    decreases |requested|
  {
    if requested == [] then []
    else
      var n := |requested| - 1;
      assert requested == requested[..n] + [requested[n]];
      MissingRoles(allowed, requested[..n]) + (if requested[n] in allowed then [] else [requested[n]])
  }

  method FindMissingRoles(allowed: seq<Role>, requested: seq<Role>) returns (missing: seq<Role>)
    ensures missing == MissingRoles(allowed, requested)
  {
    var allowedSet: set<Role> := {};
    for k := 0 to |allowed|
      invariant forall x :: x in allowedSet <==> x in allowed[..k]
    {
      assert allowed[..k + 1] == allowed[..k] + [allowed[k]];
      allowedSet := allowedSet + {allowed[k]};
    }
    assert allowed[..|allowed|] == allowed;
    missing := [];
    for k := 0 to |requested|
      invariant missing == MissingRoles(allowed, requested[..k])
    {
      assert requested[..k + 1][..k] == requested[..k];
      if requested[k] !in allowedSet {
        missing := missing + [requested[k]];
      }
    }
    assert requested[..|requested|] == requested;
  }

  method ContainsString(values: seq<string>, needle: string) returns (found: bool)
    ensures found <==> needle in values
  {
    for k := 0 to |values|
      invariant needle !in values[..k]
    {
      if values[k] == needle {
        return true;
      }
      assert values[..k + 1] == values[..k] + [values[k]];
    }
    assert values[..|values|] == values;
    return false;
  }

  function TargetOf(policy: PolicySpec, request: CredentialRequest): PolicyTarget {
    PolicyTarget(policy.providerRef, policy.surrealNamespace, request.database, request.level)
  }

  function Judge(policy: PolicySpec, request: CredentialRequest): Verdict {
    if |request.roles| == 0 then RequestHasNoRoles
    else match request.level
      case Database =>
        if request.database == "" then DatabaseRequired
        else if request.database !in policy.allowedDatabases then DatabaseDenied(request.database)
        else
          var missing := MissingRoles(policy.databaseRoles, request.roles);
          if |missing| > 0 then RoleDenied(missing) else Allowed
      case Namespace =>
        if !policy.namespaceUsersAllowed then NamespaceUsersDenied
        else if request.database != "" then DatabaseForbidden
        else
          var missing := MissingRoles(policy.namespaceRoles, request.roles);
          if |missing| > 0 then RoleDenied(missing) else Allowed
      case OtherLevel(text) => InvalidLevel(text)
  }

  function Evaluate(policy: PolicySpec, request: CredentialRequest): Evaluation {
    Evaluation(Judge(policy, request), TargetOf(policy, request))
  }

  method EvaluateRequest(policy: PolicySpec, request: CredentialRequest) returns (r: Evaluation)
    ensures r == Evaluate(policy, request)
  {
    var target := TargetOf(policy, request);
    if |request.roles| == 0 {
      return Evaluation(RequestHasNoRoles, target);
    }
    match request.level {
      case Database =>
        if request.database == "" {
          return Evaluation(DatabaseRequired, target);
        }
        var listed := ContainsString(policy.allowedDatabases, request.database);
        if !listed {
          return Evaluation(DatabaseDenied(request.database), target);
        }
        var missing := FindMissingRoles(policy.databaseRoles, request.roles);
        return Evaluation(if |missing| > 0 then RoleDenied(missing) else Allowed, target);
      case Namespace =>
        if !policy.namespaceUsersAllowed {
          return Evaluation(NamespaceUsersDenied, target);
        }
        if request.database != "" {
          return Evaluation(DatabaseForbidden, target);
        }
        var missing := FindMissingRoles(policy.namespaceRoles, request.roles);
        return Evaluation(if |missing| > 0 then RoleDenied(missing) else Allowed, target);
      case OtherLevel(text) =>
        return Evaluation(InvalidLevel(text), target);
    }
  }

  /** What a policy grants, as a set of role requests per level and database. */
  predicate Grants(policy: PolicySpec, level: UserLevel, database: string, roles: set<Role>) {
    && roles != {}
    && match level
       case Database => database != "" && database in policy.allowedDatabases && forall x :: x in roles ==> x in policy.databaseRoles
       case Namespace => policy.namespaceUsersAllowed && database == "" && forall x :: x in roles ==> x in policy.namespaceRoles
       case OtherLevel(_) => false
  }

  function RoleSet(roles: seq<Role>): set<Role> {
    set x | x in roles
  }

  /** A request passes exactly when the policy grants it. */
  lemma AllowedIffGranted(policy: PolicySpec, request: CredentialRequest)
    ensures Evaluate(policy, request).verdict.Allowed? <==>
            Grants(policy, request.level, request.database, RoleSet(request.roles))
  {
    var roles := request.roles;
    if |roles| > 0 {
      assert roles[0] in RoleSet(roles);
      NoMissingIffSubset(policy.databaseRoles, roles);
      NoMissingIffSubset(policy.namespaceRoles, roles);
    } else {
      assert RoleSet(roles) == {};
    }
  }

  lemma NoMissingIffSubset(allowed: seq<Role>, requested: seq<Role>)
    ensures |MissingRoles(allowed, requested)| == 0 <==> forall x :: x in RoleSet(requested) ==> x in allowed
  {
    var missing := MissingRoles(allowed, requested);
    if |missing| > 0 {
      assert missing[0] in missing;
      assert missing[0] in RoleSet(requested) && missing[0] !in allowed;
    }
  }

  /** What an answer says of the policy and the request. */
  predicate IsTrueOf(v: Verdict, policy: PolicySpec, request: CredentialRequest) {
    var roles := RoleSet(request.roles);
    match v
    case Allowed => Grants(policy, request.level, request.database, roles)
    case RequestHasNoRoles => roles == {}
    case DatabaseRequired => request.level.Database? && request.database == ""
    case DatabaseDenied(database) => request.level.Database? && database == request.database && database !in policy.allowedDatabases
    case NamespaceUsersDenied => request.level.Namespace? && !policy.namespaceUsersAllowed
    case DatabaseForbidden => request.level.Namespace? && request.database != ""
    case InvalidLevel(text) => request.level == OtherLevel(text)
    case RoleDenied(missing) =>
      && missing != [] && !request.level.OtherLevel?
      && RoleSet(missing) == roles - RoleSet(if request.level.Database? then policy.databaseRoles else policy.namespaceRoles)
  }

  /** The order in which objections are looked for. */
  function Rank(v: Verdict): nat {
    match v
    case RequestHasNoRoles => 0
    case InvalidLevel(_) => 1
    case DatabaseRequired => 1
    case NamespaceUsersDenied => 1
    case DatabaseDenied(_) => 2
    case DatabaseForbidden => 2
    case RoleDenied(_) => 3
    case Allowed => 4
  }

  /** The verdict is true, and no objection that comes before it is. */
  lemma VerdictMeans(policy: PolicySpec, request: CredentialRequest, other: Verdict)
    ensures IsTrueOf(Evaluate(policy, request).verdict, policy, request)
    ensures IsTrueOf(other, policy, request) ==> Rank(Evaluate(policy, request).verdict) <= Rank(other)
  {
    AllowedIffGranted(policy, request);
    if |request.roles| > 0 {
      assert request.roles[0] in RoleSet(request.roles);
    }
    var missing := MissingRoles(if request.level.Database? then policy.databaseRoles else policy.namespaceRoles, request.roles);
    if other.RoleDenied? {
      assert other.missing == [] || other.missing[0] in RoleSet(other.missing);
    }
  }
}
