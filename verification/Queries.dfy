/** The SurrealQL texts of internal/surreal/queries.go, and what SurrealQL makes of them. */
module Queries {
  import opened Prelude
  import opened Platform
  import opened Api
  import opened Text
  import opened Identifiers
  import opened SurrealQL

  datatype UserTarget = UserTarget(level: UserLevel, namespace: string, database: string)

  datatype QueryError =
    | BadNamespace(cause: IdentError)
    | BadDatabase(cause: IdentError)
    | BadUsername(cause: IdentError)
    | DatabaseRequired
    | UnsupportedLevel(text: string)
    | NoRoles
    | UnsupportedRole(text: string)

  function UsePrefix(target: UserTarget): Result<string, QueryError> {
    var ns := EscapeIdent(target.namespace);
    if ns.Err? then Err(BadNamespace(ns.error))
    else match target.level
      case Namespace => Ok("USE NS " + (ns.value + ";"))
      case Database =>
        if target.database == "" then Err(DatabaseRequired)
        else
          var db := EscapeIdent(target.database);
          if db.Err? then Err(BadDatabase(db.error)) else Ok("USE NS " + (ns.value + (" DB " + (db.value + ";"))))
      case OtherLevel(text) => Err(UnsupportedLevel(text))
  }

  // ----- roles -----

  /** The roles in order of first occurrence, each once. */
  function Distinct(roles: seq<Role>): (r: seq<Role>)
    ensures forall x :: x in r <==> x in roles
    ensures forall i, j :: 0 <= i < j < |r| ==> r[i] != r[j]
    decreases |roles|
  {
    if roles == [] then []
    else
      var n := |roles| - 1;
      assert roles == roles[..n] + [roles[n]];
      var d := Distinct(roles[..n]);
      if roles[n] in d then d else d + [roles[n]]
  }

  function FirstIndex(roles: seq<Role>, x: Role): (k: nat)
    requires x in roles
    ensures k < |roles| && roles[k] == x
    ensures forall i :: 0 <= i < k ==> roles[i] != x
  {
    if roles[0] == x then 0 else 1 + FirstIndex(roles[1..], x)
  }

  lemma FirstIndexOfPrefix(roles: seq<Role>, n: nat, x: Role)
    requires n <= |roles| && x in roles[..n]
    ensures x in roles && FirstIndex(roles, x) == FirstIndex(roles[..n], x) < n
  {
    var k := FirstIndex(roles[..n], x);
    assert roles[k] == x;
    assert forall i :: 0 <= i < k ==> roles[i] == roles[..n][i];
  }

  lemma FirstIndexBeyondPrefix(roles: seq<Role>, n: nat, x: Role)
    requires n <= |roles| && x in roles && x !in roles[..n]
    ensures FirstIndex(roles, x) >= n
  {
    assert forall i :: 0 <= i < n ==> roles[i] == roles[..n][i] && roles[..n][i] in roles[..n];
  }

  /** Distinct roles come in the order in which the request first names them. */
  lemma {:induction false} DistinctKeepsFirstOrder(roles: seq<Role>, i: nat, j: nat)
    requires i < j < |Distinct(roles)|
    ensures FirstIndex(roles, Distinct(roles)[i]) < FirstIndex(roles, Distinct(roles)[j])
    decreases |roles|
  {
    var n := |roles| - 1;
    var e := Distinct(roles[..n]);
    var x, y := Distinct(roles)[i], Distinct(roles)[j];
    assert x == e[i] && x in roles[..n];
    FirstIndexOfPrefix(roles, n, x);
    if j < |e| {
      DistinctKeepsFirstOrder(roles[..n], i, j);
      assert y == e[j] && y in roles[..n];
      FirstIndexOfPrefix(roles, n, y);
    } else {
      assert y == roles[n] && y !in roles[..n];
      FirstIndexBeyondPrefix(roles, n, y);
    }
  }

  predicate Supported(roles: seq<Role>) {
    forall i :: 0 <= i < |roles| ==> !roles[i].OtherRole?
  }

  function RoleTexts(roles: seq<Role>): (r: seq<string>)
    ensures |r| == |roles|
    ensures forall i :: 0 <= i < |roles| ==> r[i] == RoleText(roles[i])
  {
    seq(|roles|, i requires 0 <= i < |roles| => RoleText(roles[i]))
  }

  function FirstUnsupported(roles: seq<Role>): string
    requires !Supported(roles)
  {
    if roles[0].OtherRole? then roles[0].text else FirstUnsupported(roles[1..])
  }

  function RenderedRoles(roles: seq<Role>): Result<string, QueryError> {
    if roles == [] then Err(NoRoles)
    else if !Supported(roles) then Err(UnsupportedRole(FirstUnsupported(roles)))
    else Ok(Join(RoleTexts(Distinct(roles)), ", "))
  }

  lemma FirstUnsupportedIs(roles: seq<Role>, k: nat)
    requires k < |roles| && roles[k].OtherRole?
    requires forall i :: 0 <= i < k ==> !roles[i].OtherRole?
    ensures !Supported(roles) && FirstUnsupported(roles) == roles[k].text
  {
    if k > 0 {
      FirstUnsupportedIs(roles[1..], k - 1);
    }
  }

  method RenderRoles(roles: seq<Role>) returns (r: Result<string, QueryError>)
    ensures r == RenderedRoles(roles)
  {
    if |roles| == 0 {
      return Err(NoRoles);
    }
    var out: seq<string> := [];
    var seen: set<Role> := {};
    for k := 0 to |roles|
      invariant out == RoleTexts(Distinct(roles[..k]))
      invariant forall x :: x in seen <==> x in roles[..k]
      invariant forall i :: 0 <= i < k ==> !roles[i].OtherRole?
    {
      assert roles[..k + 1][..k] == roles[..k] && roles[..k + 1] == roles[..k] + [roles[k]];
      if roles[k] in seen {
        continue;
      }
      match roles[k] {
        case OtherRole(text) =>
          FirstUnsupportedIs(roles, k);
          return Err(UnsupportedRole(text));
        case _ =>
          out := out + [RoleText(roles[k])];
          seen := seen + {roles[k]};
      }
    }
    assert roles[..|roles|] == roles;
    return Ok(Join(out, ", "));
  }

  // ----- the two queries -----

  function OnText(level: UserLevel): string {
    if level.Namespace? then "NAMESPACE" else "DATABASE"
  }

  function DefineText(user: string, on: string, password: string, roles: string): string {
    "\nDEFINE USER OVERWRITE " + (user + (" ON " + (on + (" PASSWORD " + (password + (" ROLES " + (roles + ";")))))))
  }

  function RemoveText(user: string, on: string): string {
    "\nREMOVE USER IF EXISTS " + (user + (" ON " + (on + ";")))
  }

  function DefineUserQuery(lib: Libraries, target: UserTarget, username: string, password: string, roles: seq<Role>)
    : Result<string, QueryError>
  {
    var prefix := UsePrefix(target);
    if prefix.Err? then prefix
    else
      var user := EscapeIdent(username);
      if user.Err? then Err(BadUsername(user.error))
      else
        var list := RenderedRoles(roles);
        if list.Err? then list
        else
          Ok(prefix.value + DefineText(user.value, OnText(target.level), Quote(lib, password), list.value))
  }

  function RemoveUserQuery(target: UserTarget, username: string): Result<string, QueryError> {
    var prefix := UsePrefix(target);
    if prefix.Err? then prefix
    else
      var user := EscapeIdent(username);
      if user.Err? then Err(BadUsername(user.error))
      else Ok(prefix.value + RemoveText(user.value, OnText(target.level)))
  }

  /** The scope is a namespace, or a database of one, and its names can be written. */
  predicate WritableScope(target: UserTarget) {
    Writable(target.namespace) && !target.level.OtherLevel? && (target.level.Database? ==> Writable(target.database))
  }

  lemma PrefixAcceptedIff(target: UserTarget)
    ensures UsePrefix(target).Ok? <==> WritableScope(target)
  {
    AcceptedIff(target.namespace);
    AcceptedIff(target.database);
  }

  /** Which queries are built: by scope, username and roles alone, whatever the password. */
  lemma QueriesAcceptedIff(lib: Libraries, target: UserTarget, username: string, password: string, roles: seq<Role>)
    ensures DefineUserQuery(lib, target, username, password, roles).Ok? <==>
            WritableScope(target) && Writable(username) && roles != [] && Supported(roles)
    ensures RemoveUserQuery(target, username).Ok? <==> WritableScope(target) && Writable(username)
  {
    PrefixAcceptedIff(target);
    AcceptedIff(username);
  }
}
