/**
 * The other half of reading the queries back: which names a reader takes for something else, and
 * which it cannot read at all.
 */
module Misreading {
  import opened Prelude
  import opened Platform
  import opened Api
  import opened Text
  import opened Identifiers
  import opened SurrealQL
  import opened Queries
  import opened QueryMeaning

  // ----- names read as something else -----

  /** A name with a backslash is no token at all, or a token for another name. */
  lemma MisreadName(s: string, rest: string)
    requires EscapeIdent(s).Ok? && HasBackslash(s)
    ensures var ts := Lex(EscapeIdent(s).value + rest); ts.Garbage? || (ts.Then? && ts.head.Name? && ts.head.text != s)
  {
    if IsSimple(s) {
      SimpleIsPlain(s);
    }
    TickedText(s, rest);
    ScanMisreads(s, rest);
    var t := EscapeIdent(s).value + rest;
    assert t[0] == '`' && t[1..] == EscapeTicks(s) + ("`" + rest);
  }

  /** A token, if there is one, that is a name other than `s`. */
  predicate OtherName(ts: Tokens, s: string) {
    ts.Garbage? || (ts.Then? && ts.head.Name? && ts.head.text != s)
  }

  lemma OtherNamespaceParses(ts: Tokens, target: UserTarget)
    requires OtherName(ts, target.namespace)
    ensures var script := ParseTokens(Then(Word("USE"), Then(Word("NS"), ts)));
            script.Some? ==> |script.value| > 0 && script.value[0] != ScopeOf(target)
  {
    var all := Then(Word("USE"), Then(Word("NS"), ts));
    UseHead(ts);
    assert ParseUse(all).Some? ==> ParseUse(all).value.0.namespace != target.namespace;
  }

  lemma UseHead(ts: Tokens)
    ensures var all := Then(Word("USE"), Then(Word("NS"), ts));
            && AfterAll(all, ["USE", "NS"]) == Some(ts)
            && AfterAll(all, ["DEFINE", "USER", "OVERWRITE"]).None? && AfterAll(all, ["REMOVE", "USER", "IF", "EXISTS"]).None?
  {
    var all := Then(Word("USE"), Then(Word("NS"), ts));
    assert ["USE", "NS"][1..] == ["NS"] && ["NS"][1..] == [];
    assert AfterAll(all.tail, ["NS"]) == AfterAll(ts, []);
  }

  lemma OtherDatabaseParses(ts: Tokens, target: UserTarget)
    requires target.level.Database? && OtherName(ts, target.database)
    ensures var script := ParseTokens(Then(Word("USE"), Then(Word("NS"), Then(ReadToken(target.namespace), Then(Word("DB"), ts)))));
            script.Some? ==> |script.value| > 0 && script.value[0] != ScopeOf(target)
  {
    var named := Then(ReadToken(target.namespace), Then(Word("DB"), ts));
    var all := Then(Word("USE"), Then(Word("NS"), named));
    UseHead(named);
    TokenNames(target.namespace);
    assert ParseUse(all).Some? ==> ParseUse(all).value.0.database != Some(target.database);
  }

  /** If a printed name holds a backslash, no reading starts with the intended scope. */
  lemma MisreadScope(target: UserTarget, rest: string)
    requires UsePrefix(target).Ok? && !PlainTarget(target)
    ensures var script := ParseScript(UsePrefix(target).value + rest);
            script.Some? ==> |script.value| > 0 && script.value[0] != ScopeOf(target)
  {
    UseText(target, rest);
    var ns := EscapeIdent(target.namespace).value;
    var after := if target.level.Database? then " DB " + (EscapeIdent(target.database).value + ([';'] + rest)) else [';'] + rest;
    LexUseHead(ns + after);
    if HasBackslash(target.namespace) {
      MisreadName(target.namespace, after);
      OtherNamespaceParses(Lex(ns + after), target);
    } else {
      var db := EscapeIdent(target.database).value + ([';'] + rest);
      PlainPairs(target.namespace);
      LexLedKeyword(" DB ", "DB", db);
      LexNameThen(target.namespace, after);
      MisreadName(target.database, [';'] + rest);
      OtherDatabaseParses(Lex(db), target);
    }
  }

  /** The scope is read, and what is left is what the rest alone is read as. */
  lemma ParseAfterUse(target: UserTarget, rest: Tokens)
    requires UsePrefix(target).Ok?
    ensures ParseTokens(UseTokens(target, rest)) ==
            if ParseTokens(rest).None? then None else Some([ScopeOf(ReadTarget(target))] + ParseTokens(rest).value)
  {
    ParseUseTokens(target, rest);
    SizeOfRest(target, rest);
  }

  lemma OtherDefinitionParses(ts: Tokens, username: string)
    requires OtherName(ts, username)
    ensures var script := ParseTokens(Then(Word("DEFINE"), Then(Word("USER"), Then(Word("OVERWRITE"), ts))));
            script.Some? ==> |script.value| > 0 && (script.value[0].DefineUser? ==> script.value[0].name != username)
  {
    var all := Then(Word("DEFINE"), Then(Word("USER"), Then(Word("OVERWRITE"), ts)));
    AfterThree(all, "DEFINE", "USER", "OVERWRITE");
    assert AfterAll(all, ["USE", "NS"]).None?;
  }

  lemma OtherSecond(scope: Statement, rest: seq<Statement>, wanted: Statement)
    requires |rest| > 0 && rest[0] != wanted
    ensures [scope] + rest != [scope, wanted]
  {
    assert ([scope] + rest)[1] == rest[0];
  }

  /** With plain scope names, the script is the scope and whatever the rest is read as. */
  lemma ScriptAfterScope(target: UserTarget, text: string)
    requires UsePrefix(target).Ok? && PlainTarget(target)
    ensures var script, rest := ParseScript(UsePrefix(target).value + text), ParseTokens(Lex(text));
            script == if rest.None? then None else Some([ScopeOf(target)] + rest.value)
  {
    ReadAsWrittenIff(target);
    PairsOfNames(target);
    LexUse(target, text);
    ParseAfterUse(target, Lex(text));
  }

  lemma MisreadDefinitionText(lib: Libraries, username: string, level: UserLevel, password: string, roles: seq<Role>)
    requires EscapeIdent(username).Ok? && HasBackslash(username)
    ensures var script := ParseTokens(Lex(DefineText(EscapeIdent(username).value, OnText(level), Quote(lib, password), Join(RoleTexts(roles), ", "))));
            script.Some? ==> |script.value| > 0 && (script.value[0].DefineUser? ==> script.value[0].name != username)
  {
    var user, tail := EscapeIdent(username).value, " ON " + (OnText(level) + DefineTail(lib, password, roles));
    DefineTextParts(lib, user, level, password, roles);
    LexDefineHead(user + tail);
    MisreadName(username, tail);
    OtherDefinitionParses(Lex(user + tail), username);
  }

  lemma MisreadUsername(lib: Libraries, target: UserTarget, username: string, password: string, roles: seq<Role>)
    requires DefineUserQuery(lib, target, username, password, roles).Ok? && PlainTarget(target) && HasBackslash(username)
    ensures ParseScript(DefineUserQuery(lib, target, username, password, roles).value) !=
            Some([ScopeOf(target), DefineUser(username, target.level, password, Distinct(roles))])
  {
    var text := DefineText(EscapeIdent(username).value, OnText(target.level), Quote(lib, password), Join(RoleTexts(Distinct(roles)), ", "));
    ScriptAfterScope(target, text);
    MisreadDefinitionText(lib, username, target.level, password, Distinct(roles));
    var rest := ParseTokens(Lex(text));
    if rest.Some? {
      OtherSecond(ScopeOf(target), rest.value, DefineUser(username, target.level, password, Distinct(roles)));
    }
  }

  lemma PlainDefinitionIsRead(lib: Libraries, target: UserTarget, username: string, password: string, roles: seq<Role>)
    requires DefineUserQuery(lib, target, username, password, roles).Ok? && PlainTarget(target) && !HasBackslash(username)
    ensures ParseScript(DefineUserQuery(lib, target, username, password, roles).value) ==
            Some([ScopeOf(target), DefineUser(username, target.level, ReadBack(lib, password), Distinct(roles))])
    ensures ReadBack(lib, password) == password <==> AllPrint(lib, password)
  {
    ReadAsWrittenIff(target);
    PlainPairs(username);
    MeaningIsItselfIff(username);
    ReadBackIff(lib, password);
    DefinitionIsRead(lib, target, username, password, roles);
  }

  /**
   * The definition is read as exactly what was asked for - scope, level, username, password, distinct
   * roles - if and only if no printed name holds a backslash and all of the password prints.
   */
  lemma DefineUserRoundTripIff(lib: Libraries, target: UserTarget, username: string, password: string, roles: seq<Role>)
    requires DefineUserQuery(lib, target, username, password, roles).Ok?
    ensures ParseScript(DefineUserQuery(lib, target, username, password, roles).value) ==
            Some([ScopeOf(target), DefineUser(username, target.level, password, Distinct(roles))])
            <==> PlainTarget(target) && !HasBackslash(username) && AllPrint(lib, password)
  {
    var text := DefineText(EscapeIdent(username).value, OnText(target.level), Quote(lib, password), Join(RoleTexts(Distinct(roles)), ", "));
    if !PlainTarget(target) {
      MisreadScope(target, text);
    } else if HasBackslash(username) {
      MisreadUsername(lib, target, username, password, roles);
    } else {
      PlainDefinitionIsRead(lib, target, username, password, roles);
    }
  }

  lemma OtherRemovalParses(ts: Tokens, username: string)
    requires OtherName(ts, username)
    ensures var script := ParseTokens(Then(Word("REMOVE"), Then(Word("USER"), Then(Word("IF"), Then(Word("EXISTS"), ts)))));
            script.Some? ==> |script.value| > 0 && (script.value[0].RemoveUser? ==> script.value[0].name != username)
  {
    var all := Then(Word("REMOVE"), Then(Word("USER"), Then(Word("IF"), Then(Word("EXISTS"), ts))));
    assert AfterAll(all, ["USE", "NS"]).None? && AfterAll(all, ["DEFINE", "USER", "OVERWRITE"]).None?;
    AfterThree(all.tail, "USER", "IF", "EXISTS");
    assert ["REMOVE", "USER", "IF", "EXISTS"][1..] == ["USER", "IF", "EXISTS"];
  }

  lemma MisreadRemovalText(username: string, level: UserLevel)
    requires EscapeIdent(username).Ok? && HasBackslash(username)
    ensures var script := ParseTokens(Lex(RemoveText(EscapeIdent(username).value, OnText(level))));
            script.Some? ==> |script.value| > 0 && (script.value[0].RemoveUser? ==> script.value[0].name != username)
  {
    var user, tail := EscapeIdent(username).value, " ON " + (OnText(level) + ";");
    LexRemoveHead(user + tail);
    MisreadName(username, tail);
    OtherRemovalParses(Lex(user + tail), username);
  }

  lemma PlainRemovalIsRead(target: UserTarget, username: string)
    requires RemoveUserQuery(target, username).Ok? && PlainTarget(target) && !HasBackslash(username)
    ensures ParseScript(RemoveUserQuery(target, username).value) == Some([ScopeOf(target), RemoveUser(username, target.level)])
  {
    ReadAsWrittenIff(target);
    PlainPairs(username);
    MeaningIsItselfIff(username);
    RemovalIsRead(target, username);
  }

  /** The same of the removal. */
  lemma RemoveUserRoundTripIff(target: UserTarget, username: string)
    requires RemoveUserQuery(target, username).Ok?
    ensures ParseScript(RemoveUserQuery(target, username).value) == Some([ScopeOf(target), RemoveUser(username, target.level)])
            <==> PlainTarget(target) && !HasBackslash(username)
  {
    var text := RemoveText(EscapeIdent(username).value, OnText(target.level));
    if !PlainTarget(target) {
      MisreadScope(target, text);
    } else if HasBackslash(username) {
      ScriptAfterScope(target, text);
      MisreadRemovalText(username, target.level);
      var rest := ParseTokens(Lex(text));
      if rest.Some? {
        OtherSecond(ScopeOf(target), rest.value, RemoveUser(username, target.level));
      }
    } else {
      PlainRemovalIsRead(target, username);
    }
  }

  // ----- texts that cannot be read -----

  /** Somewhere the text stops being lexable. */
  predicate Broken(ts: Tokens) {
    ts.Garbage? || (ts.Then? && Broken(ts.tail))
  }

  lemma {:induction false} AfterAllStaysBroken(ts: Tokens, ws: seq<string>)
    requires Broken(ts)
    ensures AfterAll(ts, ws).Some? ==> Broken(AfterAll(ts, ws).value)
    decreases |ws|
  {
    if ws != [] && After(ts, ws[0]).Some? {
      AfterAllStaysBroken(ts.tail, ws[1..]);
    }
  }

  lemma {:induction false} RolesStayBroken(ts: Tokens)
    requires Broken(ts)
    ensures ParseRoles(ts).Some? ==> Broken(ParseRoles(ts).value.1)
  {
    if ts.Then? && RoleOf(ts.head).Some? && ts.tail.Then? && ts.tail.head.Comma? {
      RolesStayBroken(ts.tail.tail);
    }
  }

  lemma UseStaysBroken(ts: Tokens)
    requires Broken(ts)
    ensures ParseUse(ts).Some? ==> Broken(ParseUse(ts).value.1)
  {
    AfterAllStaysBroken(ts, ["USE", "NS"]);
    if ParseUse(ts).Some? {
      var named := AfterAll(ts, ["USE", "NS"]).value;
      assert Broken(named.tail);
      if After(named.tail, "DB").Some? {
        assert Broken(named.tail.tail);
        assert Broken(named.tail.tail.tail);
      }
    }
  }

  lemma SubjectStaysBroken(ts: Tokens)
    requires Broken(ts)
    ensures ParseSubject(ts).Some? ==> Broken(ParseSubject(ts).value.2)
  {
    if ParseSubject(ts).Some? {
      assert Broken(ts.tail);
      assert Broken(ts.tail.tail);
    }
  }

  lemma RemoveStaysBroken(ts: Tokens)
    requires Broken(ts)
    ensures ParseRemove(ts).Some? ==> Broken(ParseRemove(ts).value.1)
  {
    AfterAllStaysBroken(ts, ["REMOVE", "USER", "IF", "EXISTS"]);
    if ParseRemove(ts).Some? {
      SubjectStaysBroken(AfterAll(ts, ["REMOVE", "USER", "IF", "EXISTS"]).value);
    }
  }

  lemma DefineStaysBroken(ts: Tokens)
    requires Broken(ts)
    ensures ParseDefine(ts).Some? ==> Broken(ParseDefine(ts).value.1)
  {
    AfterAllStaysBroken(ts, ["DEFINE", "USER", "OVERWRITE"]);
    if ParseDefine(ts).Some? {
      var subject := AfterAll(ts, ["DEFINE", "USER", "OVERWRITE"]).value;
      SubjectStaysBroken(subject);
      var pass := ParseSubject(subject).value.2;
      assert Broken(pass.tail);
      assert Broken(pass.tail.tail);
      RolesStayBroken(pass.tail.tail.tail);
    }
  }

  lemma StatementStaysBroken(ts: Tokens)
    requires Broken(ts)
    ensures ParseStatement(ts).Some? ==> Broken(ParseStatement(ts).value.1)
  {
    UseStaysBroken(ts);
    DefineStaysBroken(ts);
    RemoveStaysBroken(ts);
  }

  lemma {:induction false} BrokenIsUnread(ts: Tokens)
    requires Broken(ts)
    ensures ParseTokens(ts).None?
    decreases Size(ts)
  {
    StatementStaysBroken(ts);
    var first := ParseStatement(ts);
    if first.Some? && Size(first.value.1) < Size(ts) {
      BrokenIsUnread(first.value.1);
    }
  }

  /** A quoted token still open before this text never closes, or what comes after it is broken. */
  predicate Hopeless(t: string) {
    var name, quote := ScanQuoted(t, '`'), ScanQuoted(t, '\"');
    (name.Some? ==> Broken(Lex(name.value.1))) && (quote.Some? ==> Broken(Lex(quote.value.1)))
  }

  predicate Free(part: string, mark: char) {
    forall i :: 0 <= i < |part| ==> part[i] != mark && part[i] != '\\'
  }

  lemma {:induction false} ScanPast(part: string, t: string, mark: char)
    requires Free(part, mark)
    ensures var r, on := ScanQuoted(part + t, mark), ScanQuoted(t, mark);
            (r.Some? <==> on.Some?) && (r.Some? ==> r.value.1 == on.value.1)
  {
    if part == "" {
      assert part + t == t;
    } else {
      ScanPast(part[1..], t, mark);
      assert (part + t)[1..] == part[1..] + t;
    }
  }

  lemma HopelessPast(part: string, t: string)
    requires Free(part, '`') && Free(part, '\"') && Hopeless(t)
    ensures Hopeless(part + t)
  {
    ScanPast(part, t, '`');
    ScanPast(part, t, '\"');
  }

  /** Past a backslash and the character it escapes, inside a text. */
  lemma QuoteOverPair(z: string, after: string)
    requires |z| > 1 && z[0] == '\\'
    ensures var r, on := ScanQuoted(EscapeTicks(z) + ("`" + after), '\"'), ScanQuoted(EscapeTicks(z[2..]) + ("`" + after), '\"');
            (r.Some? <==> on.Some?) && (r.Some? ==> r.value.1 == on.value.1)
  {
    var t, tail := EscapeTicks(z) + ("`" + after), EscapeTicks(z[2..]) + ("`" + after);
    PrintedHead(z, after);
    PrintedHead(z[1..], after);
    assert z[1..][1..] == z[2..];
    if z[1] == '`' {
      assert t[2..] == "`" + tail;
      assert t[2..][1..] == tail;
    } else {
      assert t[2..] == tail;
    }
  }

  /** A text quote opened before the rest of an escaped name closes inside it, or goes on behind it. */
  lemma {:induction false} QuoteOverName(z: string, after: string) returns (inside: bool, left: string)
    ensures |left| <= |z|
    ensures var r := ScanQuoted(EscapeTicks(z) + ("`" + after), '\"');
            if inside then r.Some? && r.value.1 == EscapeTicks(left) + ("`" + after)
            else
              var on := ScanQuoted(after, '\"');
              (r.Some? <==> on.Some?) && (r.Some? ==> r.value.1 == on.value.1)
    decreases |z|
  {
    var t := EscapeTicks(z) + ("`" + after);
    if z == "" {
      inside, left := false, "";
      assert t == "`" + after;
      assert t[1..] == after;
    } else {
      PrintedHead(z, after);
      if z[0] == '\"' {
        inside, left := true, z[1..];
        assert t[1..] == EscapeTicks(z[1..]) + ("`" + after);
      } else if z == "\\" {
        inside, left := false, "";
        assert EscapeTicks(z[1..]) == "";
        assert t == "\\`" + after;
        assert t[2..] == after;
      } else if z[0] == '\\' {
        QuoteOverPair(z, after);
        inside, left := QuoteOverName(z[2..], after);
      } else {
        inside, left := QuoteOverName(z[1..], after);
        assert t[if z[0] == '`' then 2 else 1..] == EscapeTicks(z[1..]) + ("`" + after);
      }
    }
  }

  // How a text lexes by its first character.

  lemma SkipHead(c: char, tail: string)
    requires (IsSpace(c) || c == ';' || c == ',') && Broken(Lex(tail))
    ensures Broken(Lex([c] + tail))
  {
    assert ([c] + tail)[1..] == tail;
  }

  lemma NameHead(tail: string)
    requires ScanQuoted(tail, '`').Some? ==> Broken(Lex(ScanQuoted(tail, '`').value.1))
    ensures Broken(Lex(['`'] + tail))
  {
    assert (['`'] + tail)[1..] == tail;
  }

  lemma TextHead(tail: string)
    requires ScanQuoted(tail, '\"').Some? ==> Broken(Lex(ScanQuoted(tail, '\"').value.1))
    ensures Broken(Lex(['\"'] + tail))
  {
    assert (['\"'] + tail)[1..] == tail;
  }

  lemma WordHead(t: string)
    requires t != "" && IsIdentStart(t[0]) && Broken(Lex(t[WordLength(t)..]))
    ensures Broken(Lex(t))
  {
  }

  lemma OtherHead(t: string)
    requires t != "" && !IsSpace(t[0]) && t[0] != ';' && t[0] != ',' && t[0] != '`' && t[0] != '\"' && !IsIdentStart(t[0])
    ensures Broken(Lex(t))
  {
  }

  lemma WordCons(c: char, tail: string)
    requires IsIdentChar(c)
    ensures var n := WordLength(tail); WordLength([c] + tail) == 1 + n && ([c] + tail)[1 + n..] == tail[n..]
  {
    assert ([c] + tail)[1..] == tail;
  }

  lemma {:induction false} WordInName(z: string, after: string)
    ensures WordLength(EscapeTicks(z) + ("`" + after)) <= |z|
    ensures var n := WordLength(EscapeTicks(z) + ("`" + after));
            n <= |z| && (EscapeTicks(z) + ("`" + after))[n..] == EscapeTicks(z[n..]) + ("`" + after)
  {
    if z == "" {
      assert EscapeTicks(z) + ("`" + after) == "`" + after;
    } else {
      PrintedHead(z, after);
      if IsIdentChar(z[0]) {
        WordInName(z[1..], after);
        WordCons(z[0], EscapeTicks(z[1..]) + ("`" + after));
      }
    }
  }

  /** What an early closing leaves of a name can never be lexed to its end. */
  lemma {:induction false} LeftoverIsBroken(z: string, after: string)
    requires Hopeless(after)
    ensures Broken(Lex(EscapeTicks(z) + ("`" + after)))
    decreases |z|
  {
    var t := EscapeTicks(z) + ("`" + after);
    if z == "" {
      assert t == ['`'] + after;
      NameHead(after);
    } else {
      PrintedHead(z, after);
      var tail := EscapeTicks(z[1..]) + ("`" + after);
      if IsSpace(z[0]) || z[0] == ';' || z[0] == ',' {
        LeftoverIsBroken(z[1..], after);
        SkipHead(z[0], tail);
      } else if z[0] == '\"' {
        var inside, left := QuoteOverName(z[1..], after);
        if inside {
          LeftoverIsBroken(left, after);
        }
        TextHead(tail);
      } else if IsIdentStart(z[0]) {
        WordInName(z, after);
        assert t[0] == z[0] && WordLength(t) > 0;
        LeftoverIsBroken(z[WordLength(t)..], after);
        WordHead(t);
      } else {
        OtherHead(t);
      }
    }
  }

  lemma HopelessTicked(s: string, after: string)
    requires Hopeless(after)
    ensures Hopeless(['`'] + (EscapeTicks(s) + ("`" + after)))
  {
    var body := EscapeTicks(s) + ("`" + after);
    var t := ['`'] + body;
    assert t[1..] == body;
    LeftoverIsBroken(s, after);
    var inside, left := QuoteOverName(s, after);
    if inside {
      LeftoverIsBroken(left, after);
    }
  }

  lemma HopelessName(s: string, after: string)
    requires EscapeIdent(s).Ok? && Hopeless(after)
    ensures Hopeless(EscapeIdent(s).value + after)
  {
    if IsSimple(s) && !IsReserved(s) {
      HopelessPast(s, after);
    } else {
      TickedText(s, after);
      HopelessTicked(s, after);
    }
  }

  /** A name that does not close where it ends breaks the text. */
  lemma UnterminatedBreaks(s: string, after: string)
    requires EscapeIdent(s).Ok? && !Pairs(s) && Hopeless(after)
    ensures Broken(Lex(EscapeIdent(s).value + after))
  {
    if IsSimple(s) {
      SimpleIsPlain(s);
    }
    var body := EscapeTicks(s) + ("`" + after);
    TickedText(s, after);
    var early, left := ScanUnterminated(s, after);
    if early {
      LeftoverIsBroken(left, after);
    }
    assert (['`'] + body)[1..] == body;
  }

  lemma UnnameableIsBroken(target: UserTarget, rest: string)
    requires UsePrefix(target).Ok? && !Nameable(target) && Hopeless([';'] + rest)
    ensures Broken(Lex(UsePrefix(target).value + rest))
  {
    PairsOfNames(target);
    UseText(target, rest);
    var ns, closed := EscapeIdent(target.namespace).value, [';'] + rest;
    if target.level.Database? {
      var db := EscapeIdent(target.database).value + closed;
      HopelessName(target.database, closed);
      HopelessPast(" DB ", db);
      LexUseHead(ns + (" DB " + db));
      if !Pairs(target.namespace) {
        UnterminatedBreaks(target.namespace, " DB " + db);
      } else {
        LexLedKeyword(" DB ", "DB", db);
        LexNameThen(target.namespace, " DB " + db);
        UnterminatedBreaks(target.database, closed);
        assert Broken(Lex(" DB " + db));
        assert Broken(Lex(ns + (" DB " + db)));
      }
    } else {
      LexUseHead(ns + closed);
      UnterminatedBreaks(target.namespace, closed);
    }
  }

  predicate Lacks(t: string, mark: char) {
    forall i :: 0 <= i < |t| ==> t[i] != mark
  }

  lemma {:induction false} NeverCloses(t: string, mark: char)
    requires Lacks(t, mark)
    ensures ScanQuoted(t, mark).None?
    decreases |t|
  {
    if t != "" {
      assert forall i :: 0 <= i < |t[1..]| ==> t[1..][i] == t[i + 1];
      NeverCloses(t[1..], mark);
      if |t| > 1 {
        assert forall i :: 0 <= i < |t[2..]| ==> t[2..][i] == t[i + 2];
        NeverCloses(t[2..], mark);
      }
    }
  }

  /**
   * The removal of a generated user can be read at all exactly when no printed name lets a backtick or
   * its end follow an odd number of backslashes.
   */
  lemma RemovalIsReadIff(target: UserTarget, username: string)
    requires EscapeIdent(username) == Ok(username) && UsePrefix(target).Ok?
    ensures RemoveUserQuery(target, username).Ok?
    ensures ParseScript(RemoveUserQuery(target, username).value).Some? <==> Nameable(target)
  {
    OwnIdentifierIsSimple(username);
    if Nameable(target) {
      SimpleIsPlain(username);
      RemovalIsRead(target, username);
    } else {
      var text := RemoveText(username, OnText(target.level));
      RemovalHasNoMark(username, target.level);
      NeverCloses([';'] + text, '`');
      NeverCloses([';'] + text, '\"');
      UnnameableIsBroken(target, text);
      BrokenIsUnread(Lex(UsePrefix(target).value + text));
    }
  }

  lemma TickedIsLonger(s: string)
    requires EscapeIdent(s).Ok? && !(IsSimple(s) && !IsReserved(s))
    ensures |EscapeIdent(s).value| > |s|
  {
    TickedText(s, "");
    TicksLengthen(s);
  }

  lemma OwnIdentifierIsSimple(s: string)
    requires EscapeIdent(s) == Ok(s)
    ensures IsSimple(s) && !IsReserved(s)
  {
    if !(IsSimple(s) && !IsReserved(s)) {
      TickedIsLonger(s);
    }
  }

  lemma {:induction false} TicksLengthen(s: string)
    ensures |EscapeTicks(s)| >= |s|
  {
    if s != "" {
      TicksLengthen(s[1..]);
    }
  }

  lemma RemovalHasNoMark(username: string, level: UserLevel)
    requires IsSimple(username)
    ensures var t := [';'] + RemoveText(username, OnText(level)); Lacks(t, '`') && Lacks(t, '\"')
  {
  }

  /** The escapes of a quoted text hold no backtick and no quote after their first two characters. */
  lemma {:induction false} HexIsFree(n: nat, width: nat)
    ensures Free(Hex(n, width), '`')
    decreases width
  {
    if width > 0 {
      HexIsFree(n / 16, width - 1);
    }
  }

  lemma EscapeIsFree(lib: Libraries, c: char)
    requires !IsPrint(lib, c)
    ensures var e := QuoteChar(lib, c); |e| > 1 && e[0] == '\\' && Free(e[2..], '`')
  {
    HexIsFree(c as int, 2);
    HexIsFree(c as int, 4);
    HexIsFree(c as int, 8);
  }

  /** Past an escape, inside a name. */
  lemma NameOverEscape(c: char, part: string, tail: string)
    requires Free(part, '`')
    ensures var r, on := ScanQuoted(['\\', c] + part + tail, '`'), ScanQuoted(tail, '`');
            (r.Some? <==> on.Some?) && (r.Some? ==> r.value.1 == on.value.1)
  {
    ScanPast(part, tail, '`');
    assert (['\\', c] + part + tail)[2..] == part + tail;
  }

  /** Past one quoted character other than a backtick, inside a name. */
  lemma NameOverChar(lib: Libraries, c: char, tail: string)
    requires c != '`'
    ensures var r, on := ScanQuoted(QuoteChar(lib, c) + tail, '`'), ScanQuoted(tail, '`');
            (r.Some? <==> on.Some?) && (r.Some? ==> r.value.1 == on.value.1)
  {
    var e := QuoteChar(lib, c);
    if c == '\"' || c == '\\' {
      NameOverEscape(c, "", tail);
      assert ['\\', c] + "" == e;
    } else if IsPrint(lib, c) {
      assert (e + tail)[1..] == tail;
    } else {
      EscapeIsFree(lib, c);
      NameOverEscape(e[1], e[2..], tail);
      assert ['\\', e[1]] + e[2..] == e;
    }
  }

  /** A name opened before the rest of a quoted text closes inside it, or never. */
  lemma {:induction false} NameOverBody(lib: Libraries, p: string, list: string) returns (left: string)
    requires Lacks(list, '`')
    ensures var r := ScanQuoted(QuoteBody(lib, p) + ("\"" + list), '`');
            r.Some? ==> |left| < |p| && r.value.1 == QuoteBody(lib, left) + ("\"" + list)
  {
    left := "";
    if p == "" {
      assert QuoteBody(lib, p) + ("\"" + list) == "\"" + list;
      NeverCloses("\"" + list, '`');
    } else {
      var tail := QuoteBody(lib, p[1..]) + ("\"" + list);
      QuoteBodySplits(lib, p, "\"" + list);
      if p[0] == '`' {
        left := p[1..];
        assert (QuoteChar(lib, p[0]) + tail)[1..] == tail;
      } else {
        NameOverChar(lib, p[0], tail);
        left := NameOverBody(lib, p[1..], list);
      }
    }
  }

  lemma QuotedHead(lib: Libraries, c: char)
    ensures QuoteChar(lib, c) != ""
    ensures IsIdentChar(c) || c == '`' ==> QuoteChar(lib, c) == [c]
    ensures QuoteChar(lib, c) == [c] || QuoteChar(lib, c)[0] == '\\'
  {
    if !IsPrint(lib, c) {
      EscapeIsFree(lib, c);
    }
  }

  lemma {:induction false} WordInBody(lib: Libraries, p: string, list: string)
    ensures var t := QuoteBody(lib, p) + ("\"" + list);
            var n := WordLength(t);
            n <= |p| && t[n..] == QuoteBody(lib, p[n..]) + ("\"" + list)
  {
    if p == "" {
      assert QuoteBody(lib, p) + ("\"" + list) == "\"" + list;
    } else {
      QuoteBodySplits(lib, p, "\"" + list);
      QuotedHead(lib, p[0]);
      if IsIdentChar(p[0]) {
        WordInBody(lib, p[1..], list);
        WordCons(p[0], QuoteBody(lib, p[1..]) + ("\"" + list));
      }
    }
  }

  /** Read from outside its quotes, a quoted text and the list after it never come to an end. */
  lemma {:induction false} BodyIsBroken(lib: Libraries, p: string, list: string)
    requires Lacks(list, '`') && Lacks(list, '\"')
    ensures Broken(Lex(QuoteBody(lib, p) + ("\"" + list)))
    decreases |p|
  {
    var t := QuoteBody(lib, p) + ("\"" + list);
    if p == "" {
      assert t == ['\"'] + list;
      NeverCloses(list, '\"');
      TextHead(list);
    } else {
      var tail := QuoteBody(lib, p[1..]) + ("\"" + list);
      QuoteBodySplits(lib, p, "\"" + list);
      QuotedHead(lib, p[0]);
      if QuoteChar(lib, p[0]) != [p[0]] {
        OtherHead(t);
      } else if IsSpace(p[0]) || p[0] == ';' || p[0] == ',' {
        BodyIsBroken(lib, p[1..], list);
        SkipHead(p[0], tail);
      } else if p[0] == '`' {
        var left := NameOverBody(lib, p[1..], list);
        if ScanQuoted(tail, '`').Some? {
          BodyIsBroken(lib, left, list);
        }
        NameHead(tail);
      } else if IsIdentStart(p[0]) {
        WordInBody(lib, p, list);
        assert t[0] == p[0] && WordLength(t) > 0;
        BodyIsBroken(lib, p[WordLength(t)..], list);
        WordHead(t);
      } else {
        assert p[0] != '\"';
        OtherHead(t);
      }
    }
  }

  lemma DefinitionTailIsHopeless(lib: Libraries, username: string, level: UserLevel, password: string, roles: seq<Role>)
    requires IsSimple(username) && Supported(roles)
    ensures Hopeless([';'] + DefineText(username, OnText(level), Quote(lib, password), Join(RoleTexts(roles), ", ")))
  {
    var list := " ROLES " + (Join(RoleTexts(roles), ", ") + ";");
    RolesHaveNoMark(roles);
    ListHasNoMark(Join(RoleTexts(roles), ", "));
    SecretIsHopeless(lib, password, list);
    QuotedThen(lib, password, list);
    SubjectIsHopeless(username, level, Quote(lib, password) + list);
  }

  lemma SubjectIsHopeless(username: string, level: UserLevel, secret: string)
    requires IsSimple(username) && Hopeless(secret)
    ensures Hopeless([';'] + ("\nDEFINE USER OVERWRITE " + (username + (" ON " + (OnText(level) + (" PASSWORD " + secret))))))
  {
    var on := " PASSWORD " + secret;
    HopelessPast(" PASSWORD ", secret);
    HopelessPast(OnText(level), on);
    HopelessPast(" ON ", OnText(level) + on);
    HopelessPast(username, " ON " + (OnText(level) + on));
    HopelessPast("\nDEFINE USER OVERWRITE ", username + (" ON " + (OnText(level) + on)));
    HopelessPast([';'], "\nDEFINE USER OVERWRITE " + (username + (" ON " + (OnText(level) + on))));
  }

  lemma ListHasNoMark(list: string)
    requires Lacks(list, '`') && Lacks(list, '\"')
    ensures Lacks(" ROLES " + (list + ";"), '`') && Lacks(" ROLES " + (list + ";"), '\"')
  {
  }

  lemma SecretIsHopeless(lib: Libraries, password: string, list: string)
    requires Lacks(list, '`') && Lacks(list, '\"')
    ensures Hopeless(['\"'] + (QuoteBody(lib, password) + ("\"" + list)))
  {
    var body := QuoteBody(lib, password) + ("\"" + list);
    assert (['\"'] + body)[1..] == body;
    BodyIsBroken(lib, password, list);
    var left := NameOverBody(lib, password, list);
    if ScanQuoted(body, '`').Some? {
      BodyIsBroken(lib, left, list);
    }
  }

  lemma RoleHasNoMark(r: Role)
    requires !r.OtherRole?
    ensures Lacks(RoleText(r), '`') && Lacks(RoleText(r), '\"')
  {
  }

  lemma {:induction false} RolesHaveNoMark(roles: seq<Role>)
    requires Supported(roles)
    ensures var t := Join(RoleTexts(roles), ", "); Lacks(t, '`') && Lacks(t, '\"')
  {
    if roles != [] {
      assert roles[0] in roles;
      RoleHasNoMark(roles[0]);
      assert RoleTexts(roles)[0] == RoleText(roles[0]);
    }
    if |roles| > 1 {
      RolesHaveNoMark(roles[1..]);
      assert RoleTexts(roles)[1..] == RoleTexts(roles[1..]);
      assert Join(RoleTexts(roles), ", ") == RoleText(roles[0]) + ", " + Join(RoleTexts(roles[1..]), ", ");
    }
  }

  /** The same of a definition, whatever the password holds. */
  lemma DefinitionIsReadIff(lib: Libraries, target: UserTarget, username: string, password: string, roles: seq<Role>)
    requires DefineUserQuery(lib, target, username, password, roles).Ok?
    requires EscapeIdent(username) == Ok(username)
    ensures ParseScript(DefineUserQuery(lib, target, username, password, roles).value).Some? <==> Nameable(target)
  {
    OwnIdentifierIsSimple(username);
    if Nameable(target) {
      SimpleIsPlain(username);
      DefinitionIsRead(lib, target, username, password, roles);
    } else {
      var list := Distinct(roles);
      var text := DefineText(username, OnText(target.level), Quote(lib, password), Join(RoleTexts(list), ", "));
      DistinctSupported(roles);
      DefinitionTailIsHopeless(lib, username, target.level, password, list);
      UnnameableIsBroken(target, text);
      BrokenIsUnread(Lex(UsePrefix(target).value + text));
    }
  }
}
