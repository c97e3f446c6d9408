/**
 * SurrealDB as the operator meets it: a table of system users that changes only by the texts a server
 * is sent. A text that cannot be read changes nothing; a script runs statement by statement.
 */
module Server {
  import opened Prelude
  import opened Platform
  import opened Api
  import opened Identifiers
  import opened SurrealQL
  import opened Queries
  import opened QueryMeaning
  import opened Misreading

  /** A system user on a server. */
  datatype RemoteUser = RemoteUser(endpoint: string, target: UserTarget, username: string)
  datatype Login = Login(password: string, roles: seq<Role>)

  type Users = map<RemoteUser, Login>

  /** The namespace and database in use. */
  type Scope = Option<(string, Option<string>)>

  /** Where a user statement acts, if the scope allows it. */
  function Place(scope: Scope, on: UserLevel): Option<UserTarget> {
    if scope.None? then None
    else match on
      case Namespace => Some(UserTarget(Namespace, scope.value.0, ""))
      case Database => if scope.value.1.None? then None else Some(UserTarget(Database, scope.value.0, scope.value.1.value))
      case OtherLevel(_) => None
  }

  /** The users a script leaves behind, and whether every statement succeeded. */
  function Perform(endpoint: string, users: Users, scope: Scope, script: seq<Statement>): (Users, bool)
    decreases |script|
  {
    if script == [] then (users, true)
    else match script[0]
      case UseScope(ns, db) => Perform(endpoint, users, Some((ns, db)), script[1..])
      case DefineUser(name, on, password, roles) =>
        var at := Place(scope, on);
        var rest := Perform(endpoint,
                            if at.None? then users else users[RemoteUser(endpoint, at.value, name) := Login(password, roles)],
                            scope, script[1..]);
        (rest.0, at.Some? && rest.1)
      case RemoveUser(name, on) =>
        var at := Place(scope, on);
        var rest := Perform(endpoint, if at.None? then users else users - {RemoteUser(endpoint, at.value, name)}, scope, script[1..]);
        (rest.0, at.Some? && rest.1)
  }

  /** Sending a query: one that was never built, or cannot be read, changes nothing. */
  function Ask(endpoint: string, users: Users, query: Result<string, QueryError>): (Users, bool) {
    if query.Err? || ParseScript(query.value).None? then (users, false)
    else Perform(endpoint, users, None, ParseScript(query.value).value)
  }

  // ----- what the operator's two queries do -----

  lemma PerformDefinition(endpoint: string, users: Users, target: UserTarget, name: string, password: string, roles: seq<Role>)
    requires !target.level.OtherLevel? && (target.level.Namespace? ==> target.database == "")
    ensures Perform(endpoint, users, None, [ScopeOf(target), DefineUser(name, target.level, password, roles)]) ==
            (users[RemoteUser(endpoint, target, name) := Login(password, roles)], true)
  {
    var first, second := ScopeOf(target), DefineUser(name, target.level, password, roles);
    var scope := Some((first.namespace, first.database));
    assert [first, second][1..] == [second] && [second][1..] == [];
    assert Place(scope, target.level) == Some(target);
    assert Perform(endpoint, users, scope, [second]) == (users[RemoteUser(endpoint, target, name) := Login(password, roles)], true);
  }

  lemma PerformRemoval(endpoint: string, users: Users, target: UserTarget, name: string)
    requires !target.level.OtherLevel? && (target.level.Namespace? ==> target.database == "")
    ensures Perform(endpoint, users, None, [ScopeOf(target), RemoveUser(name, target.level)]) ==
            (users - {RemoteUser(endpoint, target, name)}, true)
  {
    var first, second := ScopeOf(target), RemoveUser(name, target.level);
    var scope := Some((first.namespace, first.database));
    assert [first, second][1..] == [second] && [second][1..] == [];
    assert Place(scope, target.level) == Some(target);
    assert Perform(endpoint, users, scope, [second]) == (users - {RemoteUser(endpoint, target, name)}, true);
  }

  /** A generated username at the place its target is read as. */
  function Located(endpoint: string, target: UserTarget, username: string): RemoteUser {
    RemoteUser(endpoint, ReadTarget(target), username)
  }

  lemma OwnIdentifierIsRead(username: string)
    requires EscapeIdent(username) == Ok(username)
    ensures Pairs(username) && Meaning(username) == username
  {
    OwnIdentifierIsSimple(username);
    SimpleIsPlain(username);
  }

  /**
   * A definition makes one login, where its names are read and with what its password is read as, or it
   * is refused and changes nothing: exactly when its query was built and its names are nameable.
   */
  lemma DefinitionEffect(lib: Libraries, endpoint: string, users: Users, target: UserTarget, username: string,
                         password: string, roles: seq<Role>)
    requires EscapeIdent(username) == Ok(username)
    ensures var query := DefineUserQuery(lib, target, username, password, roles);
            Ask(endpoint, users, query) ==
            if query.Ok? && Nameable(target)
            then (users[Located(endpoint, target, username) := Login(ReadBack(lib, password), Distinct(roles))], true)
            else (users, false)
  {
    if DefineUserQuery(lib, target, username, password, roles).Ok? {
      DefinitionIsReadIff(lib, target, username, password, roles);
      if Nameable(target) {
        OwnIdentifierIsRead(username);
        DefinitionIsRead(lib, target, username, password, roles);
        PerformDefinition(endpoint, users, ReadTarget(target), username, ReadBack(lib, password), Distinct(roles));
      }
    }
  }

  /** A removal takes away the login at that same place, or is refused and changes nothing. */
  lemma RemovalEffect(endpoint: string, users: Users, target: UserTarget, username: string)
    requires EscapeIdent(username) == Ok(username)
    ensures Ask(endpoint, users, RemoveUserQuery(target, username)) ==
            if Nameable(target) then (users - {Located(endpoint, target, username)}, true) else (users, false)
  {
    if UsePrefix(target).Ok? {
      RemovalIsReadIff(target, username);
      if Nameable(target) {
        OwnIdentifierIsRead(username);
        RemovalIsRead(target, username);
        PerformRemoval(endpoint, users, ReadTarget(target), username);
      }
    }
  }
}
