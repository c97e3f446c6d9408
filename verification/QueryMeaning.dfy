/** Parsing the operator's queries recovers exactly what was asked for. */
module QueryMeaning {
  import opened Prelude
  import opened Platform
  import opened Api
  import opened Text
  import opened Identifiers
  import opened SurrealQL
  import opened Queries

  datatype Statement =
    | UseScope(namespace: string, database: Option<string>)
    | DefineUser(name: string, on: UserLevel, password: string, roles: seq<Role>)
    | RemoveUser(name: string, on: UserLevel)

  // ----- the parser -----

  /** The words the statements below are made of, in lower case; OVERWRITE is taken for a name. */
  const KEYWORDS: set<string> := {
    "use", "ns", "db", "define", "user", "on", "namespace", "database", "password", "roles",
    "viewer", "editor", "owner", "remove", "if", "exists"
  }

  predicate IsKeyword(w: string) {
    AsciiLowerAll(w) in KEYWORDS
  }

  /** The operator quotes every keyword, in whatever case. */
  lemma KeywordsAreReserved(w: string)
    requires IsKeyword(w)
    ensures IsReserved(w)
  {
  }

  /** A name is a backticked token or a word that is no keyword. */
  function NameOf(t: Token): Option<string> {
    match t
    case Word(w) => if IsKeyword(w) then None else Some(w)
    case Name(s) => Some(s)
    case _ => None
  }

  function LevelOf(t: Token): Option<UserLevel> {
    if t == Word("NAMESPACE") then Some(Namespace)
    else if t == Word("DATABASE") then Some(Database)
    else None
  }

  function RoleOf(t: Token): Option<Role> {
    if t == Word("VIEWER") then Some(Viewer)
    else if t == Word("EDITOR") then Some(Editor)
    else if t == Word("OWNER") then Some(Owner)
    else None
  }

  /** What remains after the given word. */
  function After(ts: Tokens, w: string): Option<Tokens> {
    if ts.Then? && ts.head == Word(w) then Some(ts.tail) else None
  }

  function AfterAll(ts: Tokens, ws: seq<string>): Option<Tokens> {
    if ws == [] then Some(ts)
    else
      var rest := After(ts, ws[0]);
      if rest.None? then None else AfterAll(rest.value, ws[1..])
  }

  /** A comma-separated role list and what remains after it. */
  function ParseRoles(ts: Tokens): Option<(seq<Role>, Tokens)> {
    if !ts.Then? || RoleOf(ts.head).None? then None
    else if ts.tail.Then? && ts.tail.head.Comma? then
      var rest := ParseRoles(ts.tail.tail);
      if rest.None? then None else Some(([RoleOf(ts.head).value] + rest.value.0, rest.value.1))
    else Some(([RoleOf(ts.head).value], ts.tail))
  }

  /** A semicolon, then the remaining tokens. */
  function Closed(s: Statement, ts: Tokens): Option<(Statement, Tokens)> {
    if ts.Then? && ts.head.Semicolon? then Some((s, ts.tail)) else None
  }

  function ParseUse(ts: Tokens): Option<(Statement, Tokens)> {
    var at := AfterAll(ts, ["USE", "NS"]);
    if at.None? || !at.value.Then? || NameOf(at.value.head).None? then None
    else
      var ns, rest := NameOf(at.value.head).value, at.value.tail;
      var db := After(rest, "DB");
      if db.None? then Closed(UseScope(ns, None), rest)
      else if !db.value.Then? || NameOf(db.value.head).None? then None
      else Closed(UseScope(ns, NameOf(db.value.head)), db.value.tail)
  }

  /** `name ON level`, as both user statements have it. */
  function ParseSubject(ts: Tokens): Option<(string, UserLevel, Tokens)> {
    if !ts.Then? || NameOf(ts.head).None? then None
    else
      var on := After(ts.tail, "ON");
      if on.None? || !on.value.Then? || LevelOf(on.value.head).None? then None
      else Some((NameOf(ts.head).value, LevelOf(on.value.head).value, on.value.tail))
  }

  function ParseDefine(ts: Tokens): Option<(Statement, Tokens)> {
    var at := AfterAll(ts, ["DEFINE", "USER", "OVERWRITE"]);
    var subject := if at.None? then None else ParseSubject(at.value);
    var pass := if subject.None? then None else After(subject.value.2, "PASSWORD");
    if pass.None? || !pass.value.Then? || !pass.value.head.Text? then None
    else
      var list := After(pass.value.tail, "ROLES");
      var roles := if list.None? then None else ParseRoles(list.value);
      if roles.None? then None
      else Closed(DefineUser(subject.value.0, subject.value.1, pass.value.head.text, roles.value.0), roles.value.1)
  }

  function ParseRemove(ts: Tokens): Option<(Statement, Tokens)> {
    var at := AfterAll(ts, ["REMOVE", "USER", "IF", "EXISTS"]);
    var subject := if at.None? then None else ParseSubject(at.value);
    if subject.None? then None
    else Closed(RemoveUser(subject.value.0, subject.value.1), subject.value.2)
  }

  function ParseStatement(ts: Tokens): Option<(Statement, Tokens)> {
    if ParseUse(ts).Some? then ParseUse(ts)
    else if ParseDefine(ts).Some? then ParseDefine(ts)
    else ParseRemove(ts)
  }

  function Size(ts: Tokens): nat {
    if ts.Then? then 1 + Size(ts.tail) else 0
  }

  /** Every statement of a script, each closed by a semicolon. */
  function ParseTokens(ts: Tokens): Option<seq<Statement>>
    decreases Size(ts)
  {
    if ts.End? then Some([])
    else
      var first := ParseStatement(ts);
      if first.None? || Size(first.value.1) >= Size(ts) then None
      else
        var rest := ParseTokens(first.value.1);
        if rest.None? then None else Some([first.value.0] + rest.value)
  }

  function ParseScript(text: string): Option<seq<Statement>> {
    ParseTokens(Lex(text))
  }

  // ----- the tokens of each printed part -----

  function RoleTokens(roles: seq<Role>, rest: Tokens): Tokens
    requires roles != []
  {
    Then(Word(RoleText(roles[0])), if |roles| == 1 then rest else Then(Comma, RoleTokens(roles[1..], rest)))
  }

  lemma {:induction false} LexRoles(roles: seq<Role>)
    requires roles != [] && Supported(roles)
    ensures Lex(Join(RoleTexts(roles), ", ") + ";") == RoleTokens(roles, Then(Semicolon, End))
  {
    var w := RoleText(roles[0]);
    if |roles| == 1 {
      LexWordThen(w, ";");
      LexMark(';', "");
      assert [';'] + "" == ";";
    } else {
      var tail := Join(RoleTexts(roles[1..]), ", ") + ";";
      assert RoleTexts(roles)[1..] == RoleTexts(roles[1..]);
      assert Join(RoleTexts(roles), ", ") + ";" == w + ([','] + ([' '] + tail));
      LexWordThen(w, [','] + ([' '] + tail));
      LexMark(',', [' '] + tail);
      LexBlank(' ', tail);
      LexRoles(roles[1..]);
    }
  }

  lemma {:induction false} ParseRoleTokens(roles: seq<Role>, rest: Tokens)
    requires roles != [] && Supported(roles)
    requires rest.Then? && rest.head.Semicolon?
    ensures ParseRoles(RoleTokens(roles, rest)) == Some((roles, rest))
  {
    assert RoleOf(Word(RoleText(roles[0]))) == Some(roles[0]);
    if |roles| > 1 {
      ParseRoleTokens(roles[1..], rest);
      assert [roles[0]] + roles[1..] == roles;
    } else {
      assert [roles[0]] == roles;
    }
  }

  // ----- what the names of a target are read as -----

  /** The names can be written, and each closes where it ends. */
  predicate Nameable(target: UserTarget) {
    && UsePrefix(target).Ok?
    && Terminated(target.namespace) && (target.level.Database? ==> Terminated(target.database))
  }

  /** The place a nameable target is read as. */
  function ReadTarget(target: UserTarget): UserTarget {
    UserTarget(target.level, Meaning(target.namespace), if target.level.Database? then Meaning(target.database) else "")
  }

  /** No name that is printed holds a backslash. */
  predicate PlainTarget(target: UserTarget) {
    !HasBackslash(target.namespace) && (target.level.Database? ==> !HasBackslash(target.database))
  }

  function ScopeOf(target: UserTarget): Statement {
    UseScope(target.namespace, if target.level.Database? then Some(target.database) else None)
  }

  lemma PairsOfNames(target: UserTarget)
    ensures Nameable(target) <==>
            UsePrefix(target).Ok? && Pairs(target.namespace) && (target.level.Database? ==> Pairs(target.database))
  {
    PairsIffTerminated(target.namespace);
    PairsIffTerminated(target.database);
  }

  /** Plain names are nameable, and exactly they are read as written. */
  lemma ReadAsWrittenIff(target: UserTarget)
    requires UsePrefix(target).Ok?
    ensures PlainTarget(target) ==> Nameable(target)
    ensures Nameable(target) ==> (ScopeOf(ReadTarget(target)) == ScopeOf(target) <==> PlainTarget(target))
  {
    PairsOfNames(target);
    if !HasBackslash(target.namespace) {
      PlainPairs(target.namespace);
    }
    if !HasBackslash(target.database) {
      PlainPairs(target.database);
    }
    if Nameable(target) {
      MeaningIsItselfIff(target.namespace);
      if target.level.Database? {
        MeaningIsItselfIff(target.database);
      }
    }
  }

  function UseTokens(target: UserTarget, rest: Tokens): Tokens {
    Then(Word("USE"), Then(Word("NS"), Then(ReadToken(target.namespace),
      if target.level.Database? then Then(Word("DB"), Then(ReadToken(target.database), Then(Semicolon, rest)))
      else Then(Semicolon, rest))))
  }

  // Each lemma below reads one stretch of text, so that no proof handles many tokens at once.

  lemma LexUseHead(rest: string)
    ensures Lex("USE NS " + rest) == Then(Word("USE"), Then(Word("NS"), Lex(rest)))
  {
    assert "USE NS " + rest == "USE" + (" " + ("NS" + (" " + rest)));
    LexKeyword("USE", "NS" + (" " + rest));
    LexKeyword("NS", rest);
  }

  lemma LexLedKeyword(led: string, w: string, rest: string)
    requires IsSimple(w) && led == " " + w + " "
    ensures Lex(led + rest) == Then(Word(w), Lex(rest)) && Delimits(led + rest)
  {
    assert led + rest == [' '] + (w + (" " + rest));
    LexBlank(' ', w + (" " + rest));
    LexKeyword(w, rest);
  }

  lemma LexClosedName(s: string, rest: string)
    requires EscapeIdent(s).Ok? && Pairs(s)
    ensures Lex(EscapeIdent(s).value + ([';'] + rest)) == Then(ReadToken(s), Then(Semicolon, Lex(rest)))
  {
    LexNameThen(s, [';'] + rest);
    LexMark(';', rest);
  }

  lemma UseText(target: UserTarget, rest: string)
    requires UsePrefix(target).Ok?
    ensures var ns := EscapeIdent(target.namespace).value;
            UsePrefix(target).value + rest ==
            "USE NS " + (ns + (if target.level.Database? then " DB " + (EscapeIdent(target.database).value + ([';'] + rest))
                               else [';'] + rest))
  {
  }

  lemma LexUse(target: UserTarget, rest: string)
    requires UsePrefix(target).Ok? && Pairs(target.namespace) && (target.level.Database? ==> Pairs(target.database))
    ensures Lex(UsePrefix(target).value + rest) == UseTokens(target, Lex(rest))
  {
    UseText(target, rest);
    var ns := EscapeIdent(target.namespace).value;
    if target.level.Database? {
      var db := EscapeIdent(target.database).value + ([';'] + rest);
      LexUseHead(ns + (" DB " + db));
      LexLedKeyword(" DB ", "DB", db);
      LexNameThen(target.namespace, " DB " + db);
      LexClosedName(target.database, rest);
    } else {
      LexUseHead(ns + ([';'] + rest));
      LexClosedName(target.namespace, rest);
    }
  }

  lemma TokenNames(s: string)
    ensures NameOf(ReadToken(s)) == Some(Meaning(s))
  {
    if IsSimple(s) {
      SimpleIsPlain(s);
    }
    if IsKeyword(s) {
      KeywordsAreReserved(s);
    }
  }

  lemma ParseUseTokens(target: UserTarget, rest: Tokens)
    requires UsePrefix(target).Ok?
    ensures ParseStatement(UseTokens(target, rest)) == Some((ScopeOf(ReadTarget(target)), rest))
  {
    var ts := UseTokens(target, rest);
    assert ["USE", "NS"][1..] == ["NS"] && ["NS"][1..] == [];
    assert AfterAll(ts.tail, ["NS"]) == AfterAll(ts.tail.tail, []);
    TokenNames(target.namespace);
    TokenNames(target.database);
  }

  function SubjectTokens(username: string, level: UserLevel, rest: Tokens): Tokens {
    Then(ReadToken(username), Then(Word("ON"), Then(Word(OnText(level)), rest)))
  }

  lemma LexOn(w: string, rest: string)
    requires IsSimple(w) && Delimits(rest)
    ensures Lex(" ON " + (w + rest)) == Then(Word("ON"), Then(Word(w), Lex(rest))) && Delimits(" ON " + (w + rest))
  {
    LexLedKeyword(" ON ", "ON", w + rest);
    LexWordThen(w, rest);
  }

  lemma LexSubject(username: string, level: UserLevel, rest: string)
    requires EscapeIdent(username).Ok? && Pairs(username) && Delimits(rest)
    ensures Lex(EscapeIdent(username).value + (" ON " + (OnText(level) + rest))) == SubjectTokens(username, level, Lex(rest))
  {
    LexOn(OnText(level), rest);
    LexNameThen(username, " ON " + (OnText(level) + rest));
  }

  lemma ParseSubjectTokens(username: string, level: UserLevel, rest: Tokens)
    requires !level.OtherLevel?
    ensures ParseSubject(SubjectTokens(username, level, rest)) == Some((Meaning(username), level, rest))
  {
    TokenNames(username);
  }

  function DefineTokens(username: string, level: UserLevel, password: string, roles: seq<Role>): Tokens
    requires roles != []
  {
    Then(Word("DEFINE"), Then(Word("USER"), Then(Word("OVERWRITE"), SubjectTokens(username, level,
      Then(Word("PASSWORD"), Then(Text(password), Then(Word("ROLES"), RoleTokens(roles, Then(Semicolon, End)))))))))
  }

  function DefineTail(lib: Libraries, password: string, roles: seq<Role>): string {
    " PASSWORD " + (Quote(lib, password) + (" ROLES " + (Join(RoleTexts(roles), ", ") + ";")))
  }

  lemma LexDefineTail(lib: Libraries, password: string, roles: seq<Role>)
    requires roles != [] && Supported(roles)
    ensures Delimits(DefineTail(lib, password, roles))
    ensures Lex(DefineTail(lib, password, roles)) ==
            Then(Word("PASSWORD"), Then(Text(ReadBack(lib, password)), Then(Word("ROLES"), RoleTokens(roles, Then(Semicolon, End)))))
  {
    LexSecret(lib, password, roles);
    LexLedKeyword(" PASSWORD ", "PASSWORD", Quote(lib, password) + (" ROLES " + (Join(RoleTexts(roles), ", ") + ";")));
  }

  lemma DefineTextParts(lib: Libraries, user: string, level: UserLevel, password: string, roles: seq<Role>)
    ensures DefineText(user, OnText(level), Quote(lib, password), Join(RoleTexts(roles), ", ")) ==
            "\nDEFINE USER OVERWRITE " + (user + (" ON " + (OnText(level) + DefineTail(lib, password, roles))))
  {
  }

  lemma LexDefine(lib: Libraries, username: string, level: UserLevel, password: string, roles: seq<Role>)
    requires EscapeIdent(username).Ok? && Pairs(username)
    requires roles != [] && Supported(roles)
    ensures Lex(DefineText(EscapeIdent(username).value, OnText(level), Quote(lib, password), Join(RoleTexts(roles), ", ")))
            == DefineTokens(username, level, ReadBack(lib, password), roles)
  {
    var tail := DefineTail(lib, password, roles);
    DefineTextParts(lib, EscapeIdent(username).value, level, password, roles);
    LexDefineTail(lib, password, roles);
    LexSubject(username, level, tail);
    LexDefineHead(EscapeIdent(username).value + (" ON " + (OnText(level) + tail)));
  }

  lemma LexSecret(lib: Libraries, password: string, roles: seq<Role>)
    requires roles != [] && Supported(roles)
    ensures Lex(Quote(lib, password) + (" ROLES " + (Join(RoleTexts(roles), ", ") + ";"))) ==
            Then(Text(ReadBack(lib, password)), Then(Word("ROLES"), RoleTokens(roles, Then(Semicolon, End))))
  {
    var list := Join(RoleTexts(roles), ", ") + ";";
    LexRoles(roles);
    LexLedKeyword(" ROLES ", "ROLES", list);
    LexTextThen(lib, password, " ROLES " + list);
  }

  lemma DefineHeadText(rest: string)
    ensures "\nDEFINE USER OVERWRITE " + rest ==
            ['\n'] + ("DEFINE" + (" " + ("USER" + (" " + ("OVERWRITE" + (" " + rest))))))
  {
  }

  lemma LexDefineHead(rest: string)
    ensures Lex("\nDEFINE USER OVERWRITE " + rest) == Then(Word("DEFINE"), Then(Word("USER"), Then(Word("OVERWRITE"), Lex(rest))))
  {
    DefineHeadText(rest);
    LexLine("DEFINE", "USER", "OVERWRITE", rest);
  }

  lemma LexLine(a: string, b: string, c: string, rest: string)
    requires IsSimple(a) && IsSimple(b) && IsSimple(c)
    ensures Lex(['\n'] + (a + (" " + (b + (" " + (c + (" " + rest))))))) == Then(Word(a), Then(Word(b), Then(Word(c), Lex(rest))))
  {
    LexBlank('\n', a + (" " + (b + (" " + (c + (" " + rest))))));
    LexWords3(a, b, c, rest);
  }

  lemma LexWords3(a: string, b: string, c: string, rest: string)
    requires IsSimple(a) && IsSimple(b) && IsSimple(c)
    ensures Lex(a + (" " + (b + (" " + (c + (" " + rest)))))) == Then(Word(a), Then(Word(b), Then(Word(c), Lex(rest))))
  {
    LexKeyword(a, b + (" " + (c + (" " + rest))));
    LexKeyword(b, c + (" " + rest));
    LexKeyword(c, rest);
  }

  lemma ParseDefineTokens(username: string, level: UserLevel, password: string, roles: seq<Role>)
    requires roles != [] && Supported(roles) && !level.OtherLevel?
    ensures ParseStatement(DefineTokens(username, level, password, roles)) ==
            Some((DefineUser(Meaning(username), level, password, roles), End))
  {
    var ts := DefineTokens(username, level, password, roles);
    AfterThree(ts, "DEFINE", "USER", "OVERWRITE");
    assert AfterAll(ts, ["USE", "NS"]).None?;
    ParseSubjectTokens(username, level,
      Then(Word("PASSWORD"), Then(Text(password), Then(Word("ROLES"), RoleTokens(roles, Then(Semicolon, End))))));
    ParseRoleTokens(roles, Then(Semicolon, End));
  }

  lemma AfterThree(ts: Tokens, a: string, b: string, c: string)
    requires ts.Then? && ts.head == Word(a)
    requires ts.tail.Then? && ts.tail.head == Word(b)
    requires ts.tail.tail.Then? && ts.tail.tail.head == Word(c)
    ensures AfterAll(ts, [a, b, c]) == Some(ts.tail.tail.tail)
  {
    assert [a, b, c][1..] == [b, c] && [b, c][1..] == [c] && [c][1..] == [];
    assert AfterAll(ts.tail.tail, [c]) == AfterAll(ts.tail.tail.tail, []);
    assert AfterAll(ts.tail, [b, c]) == AfterAll(ts.tail.tail, [c]);
  }

  lemma SizeOfRest(target: UserTarget, rest: Tokens)
    ensures Size(rest) < Size(UseTokens(target, rest))
  {
    var closed := Then(Semicolon, rest);
    assert Size(closed) == 1 + Size(rest);
    if target.level.Database? {
      var db := Then(ReadToken(target.database), closed);
      assert Size(db) == 1 + Size(closed);
      assert Size(Then(Word("DB"), db)) == 1 + Size(db);
    }
    var ts := UseTokens(target, rest);
    assert Size(ts.tail.tail) == 1 + Size(ts.tail.tail.tail);
    assert Size(ts) == 1 + Size(ts.tail) && Size(ts.tail) == 1 + Size(ts.tail.tail);
  }

  lemma ParseTwo(target: UserTarget, rest: Tokens, s: Statement)
    requires UsePrefix(target).Ok?
    requires ParseStatement(rest) == Some((s, End)) && rest.Then?
    ensures ParseTokens(UseTokens(target, rest)) == Some([ScopeOf(ReadTarget(target)), s])
  {
    ParseUseTokens(target, rest);
    SizeOfRest(target, rest);
    assert ParseTokens(End) == Some([]);
    assert [s] + [] == [s];
    assert ParseTokens(rest) == Some([s]);
    assert [ScopeOf(ReadTarget(target))] + [s] == [ScopeOf(ReadTarget(target)), s];
  }

  /**
   * Print, then parse: with nameable names, exactly two statements, carrying what the names and the
   * password are read as, the level, and the distinct roles.
   */
  lemma DefinitionIsRead(lib: Libraries, target: UserTarget, username: string, password: string, roles: seq<Role>)
    requires DefineUserQuery(lib, target, username, password, roles).Ok? && Nameable(target) && Pairs(username)
    ensures ParseScript(DefineUserQuery(lib, target, username, password, roles).value) ==
            Some([ScopeOf(ReadTarget(target)), DefineUser(Meaning(username), target.level, ReadBack(lib, password), Distinct(roles))])
  {
    var list, read := Distinct(roles), ReadBack(lib, password);
    PairsOfNames(target);
    DistinctSupported(roles);
    LexUse(target, DefineText(EscapeIdent(username).value, OnText(target.level), Quote(lib, password),
                              Join(RoleTexts(list), ", ")));
    LexDefine(lib, username, target.level, password, list);
    ParseDefineTokens(username, target.level, read, list);
    ParseTwo(target, DefineTokens(username, target.level, read, list),
             DefineUser(Meaning(username), target.level, read, list));
  }

  lemma DistinctSupported(roles: seq<Role>)
    requires roles != [] && Supported(roles)
    ensures Distinct(roles) != [] && Supported(Distinct(roles))
  {
    var d := Distinct(roles);
    assert roles[0] in d;
    forall i | 0 <= i < |d|
      ensures !d[i].OtherRole?
    {
      assert d[i] in roles;
    }
  }

  function RemoveTokens(username: string, level: UserLevel): Tokens {
    Then(Word("REMOVE"), Then(Word("USER"), Then(Word("IF"), Then(Word("EXISTS"),
      SubjectTokens(username, level, Then(Semicolon, End))))))
  }

  lemma LexRemove(username: string, level: UserLevel)
    requires EscapeIdent(username).Ok? && Pairs(username)
    ensures Lex(RemoveText(EscapeIdent(username).value, OnText(level))) == RemoveTokens(username, level)
  {
    LexRemoveHead(EscapeIdent(username).value + (" ON " + (OnText(level) + ";")));
    LexSubject(username, level, ";");
    LexMark(';', "");
    assert [';'] + "" == ";";
  }

  lemma RemoveHeadText(rest: string)
    ensures "\nREMOVE USER IF EXISTS " + rest ==
            ['\n'] + ("REMOVE" + (" " + ("USER" + (" " + ("IF" + (" " + ("EXISTS" + (" " + rest))))))))
  {
  }

  lemma LexRemoveHead(rest: string)
    ensures Lex("\nREMOVE USER IF EXISTS " + rest) ==
            Then(Word("REMOVE"), Then(Word("USER"), Then(Word("IF"), Then(Word("EXISTS"), Lex(rest)))))
  {
    RemoveHeadText(rest);
    LexLine("REMOVE", "USER", "IF", "EXISTS" + (" " + rest));
    LexKeyword("EXISTS", rest);
  }

  lemma ParseRemoveTokens(username: string, level: UserLevel)
    requires !level.OtherLevel?
    ensures ParseStatement(RemoveTokens(username, level)) == Some((RemoveUser(Meaning(username), level), End))
  {
    var ts := RemoveTokens(username, level);
    assert AfterAll(ts, ["USE", "NS"]).None? && AfterAll(ts, ["DEFINE", "USER", "OVERWRITE"]).None?;
    AfterThree(ts.tail, "USER", "IF", "EXISTS");
    assert ["REMOVE", "USER", "IF", "EXISTS"][1..] == ["USER", "IF", "EXISTS"];
    ParseSubjectTokens(username, level, Then(Semicolon, End));
  }

  lemma RemovalIsRead(target: UserTarget, username: string)
    requires RemoveUserQuery(target, username).Ok? && Nameable(target) && Pairs(username)
    ensures ParseScript(RemoveUserQuery(target, username).value) ==
            Some([ScopeOf(ReadTarget(target)), RemoveUser(Meaning(username), target.level)])
  {
    PairsOfNames(target);
    LexUse(target, RemoveText(EscapeIdent(username).value, OnText(target.level)));
    LexRemove(username, target.level);
    ParseRemoveTokens(username, target.level);
    ParseTwo(target, RemoveTokens(username, target.level), RemoveUser(Meaning(username), target.level));
  }
}
