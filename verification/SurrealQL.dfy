/**
 * How SurrealQL reads the texts the operator sends: a lexer, a statement splitter and a parser for
 * the three statements involved. A backslash inside a quoted token makes the next character literal.
 */
module SurrealQL {
  import opened Prelude
  import opened Platform
  import opened Text
  import opened Identifiers

  datatype Token = Word(text: string) | Name(text: string) | Text(text: string) | Semicolon | Comma

  /** A text as tokens; Garbage where it stops being lexable. */
  datatype Tokens = End | Then(head: Token, tail: Tokens) | Garbage

  function WordLength(t: string): (n: nat)
    ensures n <= |t|
    ensures forall i :: 0 <= i < n ==> IsIdentChar(t[i])
    ensures n < |t| ==> !IsIdentChar(t[n])
  {
    if t == "" || !IsIdentChar(t[0]) then 0 else 1 + WordLength(t[1..])
  }

  /** The rest of a quoted token, up to its closing mark; None when it never closes. */
  function ScanQuoted(t: string, mark: char): (r: Option<(string, string)>)
    ensures r.Some? ==> |r.value.1| < |t|
  {
    if t == "" then None
    else if t[0] == mark then Some(("", t[1..]))
    else if t[0] == '\\' then
      if |t| == 1 then None
      else
        var r := ScanQuoted(t[2..], mark);
        if r.None? then None else Some(([t[1]] + r.value.0, r.value.1))
    else
      var r := ScanQuoted(t[1..], mark);
      if r.None? then None else Some(([t[0]] + r.value.0, r.value.1))
  }

  /** The token a text starts with, and what follows it. */
  function LexOne(t: string): (r: Option<(Token, string)>)
    requires t != ""
    ensures r.Some? ==> |r.value.1| < |t|
  {
    if t[0] == ';' then Some((Semicolon, t[1..]))
    else if t[0] == ',' then Some((Comma, t[1..]))
    else if t[0] == '`' then
      var r := ScanQuoted(t[1..], '`');
      if r.None? then None else Some((Name(r.value.0), r.value.1))
    else if t[0] == '\"' then
      var r := ScanQuoted(t[1..], '\"');
      if r.None? then None else Some((Text(r.value.0), r.value.1))
    else if IsIdentStart(t[0]) then
      var n := WordLength(t);
      Some((Word(t[..n]), t[n..]))
    else None
  }

  predicate IsSpace(c: char) {
    c == ' ' || c == '\n'
  }

  function Lex(t: string): Tokens
    decreases |t|
  {
    if t == "" then End
    else if IsSpace(t[0]) then Lex(t[1..])
    else
      var one := LexOne(t);
      if one.None? then Garbage else Then(one.value.0, Lex(one.value.1))
  }

  // ----- reading back what was printed -----

  /** What a reader makes of an escaped name: each backslash goes, and the character after it stays. */
  function Meaning(s: string): string
    decreases |s|
  {
    if s == "" then ""
    else if s[0] == '\\' && |s| > 1 then [s[1]] + Meaning(s[2..])
    else [s[0]] + Meaning(s[1..])
  }

  /** How many backslashes stand right before position `i`. */
  function RunBefore(s: string, i: nat): nat
    requires i <= |s|
  {
    if i > 0 && s[i - 1] == '\\' then 1 + RunBefore(s, i - 1) else 0
  }

  /** No backtick, nor the end, comes after an odd number of backslashes. */
  predicate Terminated(s: string) {
    && RunBefore(s, |s|) % 2 == 0
    && forall i :: 0 <= i < |s| && s[i] == '`' ==> RunBefore(s, i) % 2 == 0
  }

  /** The same read from the left: every backslash has a partner that is not a backtick. */
  predicate Pairs(s: string)
    decreases |s|
  {
    s == "" || if s[0] == '\\' then |s| > 1 && s[1] != '`' && Pairs(s[2..]) else Pairs(s[1..])
  }

  /** Leaving out a head that ends in no backslash, or is two of them, keeps the parity of every run. */
  lemma {:induction false} RunAfterHead(s: string, n: nat, i: nat)
    requires n <= i <= |s| && (if n == 1 then s[0] != '\\' else n == 2 && s[0] == '\\')
    ensures RunBefore(s, i) % 2 == RunBefore(s[n..], i - n) % 2
    decreases i
  {
    if i > n {
      assert s[n..][i - n - 1] == s[i - 1];
      RunAfterHead(s, n, i - 1);
    } else if n == 2 {
      assert RunBefore(s, 1) == 1;
    }
  }

  lemma {:induction false} PairsIffTerminated(s: string)
    ensures Pairs(s) <==> Terminated(s)
    decreases |s|
  {
    if s != "" {
      if s[0] == '\\' && (|s| == 1 || s[1] == '`') {
        assert RunBefore(s, 1) == 1;
      } else {
        var n := if s[0] == '\\' then 2 else 1;
        PairsIffTerminated(s[n..]);
        TerminatedAfterHead(s, n);
      }
    }
  }

  lemma TerminatedAfterHead(s: string, n: nat)
    requires n <= |s| && (if n == 1 then s[0] != '\\' else n == 2 && s[0] == '\\' && s[1] != '`')
    ensures Terminated(s) <==> Terminated(s[n..])
  {
    RunAfterHead(s, n, |s|);
    if Terminated(s) {
      forall j | 0 <= j < |s| - n && s[n..][j] == '`'
        ensures RunBefore(s[n..], j) % 2 == 0
      {
        RunAfterHead(s, n, j + n);
      }
    }
    if Terminated(s[n..]) {
      forall i | 0 <= i < |s| && s[i] == '`'
        ensures RunBefore(s, i) % 2 == 0
      {
        if i >= n {
          assert s[n..][i - n] == '`';
          RunAfterHead(s, n, i);
        } else {
          assert i == 0;
        }
      }
    }
  }

  /** What is printed for a name and the text after it, one character of the name at a time. */
  lemma PrintedHead(s: string, rest: string)
    requires s != ""
    ensures EscapeTicks(s) + ("`" + rest) == (if s[0] == '`' then "\\`" else [s[0]]) + (EscapeTicks(s[1..]) + ("`" + rest))
  {
  }

  /** A terminated name is scanned up to its own closing backtick, and read as its meaning. */
  lemma {:induction false} ScanTerminated(s: string, rest: string)
    requires Pairs(s)
    ensures ScanQuoted(EscapeTicks(s) + ("`" + rest), '`') == Some((Meaning(s), rest))
    decreases |s|
  {
    var t := EscapeTicks(s) + ("`" + rest);
    if s == "" {
      assert t == "`" + rest;
      assert t[1..] == rest;
    } else {
      PrintedHead(s, rest);
      if s[0] == '\\' {
        PrintedHead(s[1..], rest);
        ScanTerminated(s[2..], rest);
        assert s[1..][1..] == s[2..];
        assert t[2..] == EscapeTicks(s[2..]) + ("`" + rest) && t[1] == s[1];
      } else {
        ScanTerminated(s[1..], rest);
        assert t[if s[0] == '`' then 2 else 1..] == EscapeTicks(s[1..]) + ("`" + rest);
      }
    }
  }

  /**
   * An unterminated name either closes early, at a backtick of its own, and leaves the rest of itself
   * behind, or swallows its closing backtick and goes on into the text after it.
   */
  lemma {:induction false} ScanUnterminated(s: string, rest: string) returns (early: bool, left: string)
    requires !Pairs(s)
    ensures |left| < |s|
    ensures var r := ScanQuoted(EscapeTicks(s) + ("`" + rest), '`');
            if early then r.Some? && r.value.1 == EscapeTicks(left) + ("`" + rest)
            else
              var on := ScanQuoted(rest, '`');
              (r.Some? <==> on.Some?) && (r.Some? ==> r.value.1 == on.value.1)
    decreases |s|
  {
    var t := EscapeTicks(s) + ("`" + rest);
    PrintedHead(s, rest);
    if s[0] != '\\' {
      early, left := ScanUnterminated(s[1..], rest);
      assert t[if s[0] == '`' then 2 else 1..] == EscapeTicks(s[1..]) + ("`" + rest);
    } else if |s| == 1 {
      early, left := false, "";
      assert EscapeTicks(s[1..]) == "";
      assert t == "\\`" + rest;
      assert t[2..] == rest;
    } else {
      PrintedHead(s[1..], rest);
      assert s[1..][1..] == s[2..];
      if s[1] == '`' {
        early, left := true, s[2..];
        assert t[2..] == "`" + (EscapeTicks(s[2..]) + ("`" + rest));
        assert t[2..][1..] == EscapeTicks(s[2..]) + ("`" + rest);
      } else {
        early, left := ScanUnterminated(s[2..], rest);
        assert t[2..] == EscapeTicks(s[2..]) + ("`" + rest);
      }
    }
  }

  /** Whatever follows, a name with a backslash is never read as itself, not even with `k` backslashes of it still owed. */
  lemma {:induction false} ScanNeverOwes(s: string, k: nat, rest: string)
    requires k > 0
    ensures var r := ScanQuoted(EscapeTicks(s) + ("`" + rest), '`');
            r.Some? ==> r.value.0 != Backslashes(k) + s
    decreases |s|
  {
    var t := EscapeTicks(s) + ("`" + rest);
    var owed := Backslashes(k) + s;
    assert owed[0] == '\\';
    if s == "" {
      assert t == "`" + rest;
    } else {
      PrintedHead(s, rest);
      if s[0] == '\\' && |s| > 1 {
        PrintedHead(s[1..], rest);
        assert s[1..][1..] == s[2..];
        if s[1] == '`' {
          assert t[2..] == "`" + (EscapeTicks(s[2..]) + ("`" + rest));
          assert |owed| > 1;
        } else if s[1] == '\\' {
          ScanNeverOwes(s[2..], k + 1, rest);
          assert t[2..] == EscapeTicks(s[2..]) + ("`" + rest) && t[1] == '\\';
          OwedShift(s, k);
        } else {
          assert t[1] == s[1];
        }
      } else if s[0] == '\\' {
        assert t == "\\`" + rest;
      } else {
        assert s[0] == '`' ==> t[1] == '`';
      }
    }
  }

  function Backslashes(k: nat): (r: string)
    ensures |r| == k && forall i :: 0 <= i < k ==> r[i] == '\\'
  {
    if k == 0 then "" else "\\" + Backslashes(k - 1)
  }

  lemma OwedShift(s: string, k: nat)
    requires |s| > 1 && s[0] == s[1] == '\\' && k > 0
    ensures (Backslashes(k) + s)[1..] == Backslashes(k + 1) + s[2..]
  {
  }

  /** Whatever follows, a name with a backslash is not read as itself. */
  lemma {:induction false} ScanMisreads(s: string, rest: string)
    requires HasBackslash(s)
    ensures var r := ScanQuoted(EscapeTicks(s) + ("`" + rest), '`');
            r.Some? ==> r.value.0 != s
  {
    var t := EscapeTicks(s) + ("`" + rest);
    PrintedHead(s, rest);
    if s[0] != '\\' {
      assert HasBackslash(s[1..]) by {
        var i :| 0 <= i < |s| && s[i] == '\\';
        assert s[1..][i - 1] == '\\';
      }
      ScanMisreads(s[1..], rest);
      assert t[if s[0] == '`' then 2 else 1..] == EscapeTicks(s[1..]) + ("`" + rest);
    } else if |s| == 1 {
      assert t == "\\`" + rest;
    } else {
      PrintedHead(s[1..], rest);
      assert s[1..][1..] == s[2..];
      if s[1] == '\\' {
        ScanNeverOwes(s[2..], 1, rest);
        assert t[2..] == EscapeTicks(s[2..]) + ("`" + rest);
        assert s[1..] == Backslashes(1) + s[2..];
      } else if s[1] == '`' {
        assert t[2..] == "`" + (EscapeTicks(s[2..]) + ("`" + rest));
      }
    }
  }

  /** A terminated name means itself exactly when it holds no backslash. */
  lemma {:induction false} MeaningIsItselfIff(s: string)
    requires Pairs(s)
    ensures |Meaning(s)| <= |s|
    ensures Meaning(s) == s <==> !HasBackslash(s)
    decreases |s|
  {
    if s != "" {
      if s[0] == '\\' {
        MeaningIsItselfIff(s[2..]);
      } else {
        MeaningIsItselfIff(s[1..]);
        assert HasBackslash(s) <==> HasBackslash(s[1..]) by {
          if i :| 0 <= i < |s| && s[i] == '\\' {
            assert s[1..][i - 1] == '\\';
          }
        }
        assert Meaning(s)[1..] == Meaning(s[1..]);
      }
    }
  }

  lemma {:induction false} PlainPairs(s: string)
    requires !HasBackslash(s)
    ensures Pairs(s)
    decreases |s|
  {
    if s != "" {
      assert forall i :: 0 <= i < |s[1..]| ==> s[1..][i] == s[i + 1];
      PlainPairs(s[1..]);
    }
  }

  /** The text after a token does not continue it. */
  predicate Delimits(rest: string) {
    rest == "" || !IsIdentChar(rest[0])
  }

  function NameToken(s: string): Token {
    if IsSimple(s) && !IsReserved(s) then Word(s) else Name(s)
  }

  predicate HasBackslash(s: string) {
    exists i :: 0 <= i < |s| && s[i] == '\\'
  }

  lemma {:induction false} WordLengthOf(w: string, rest: string)
    requires forall i :: 0 <= i < |w| ==> IsIdentChar(w[i])
    requires Delimits(rest)
    ensures WordLength(w + rest) == |w|
  {
    if w != "" {
      assert (w + rest)[1..] == w[1..] + rest;
      WordLengthOf(w[1..], rest);
    } else {
      assert w + rest == rest;
    }
  }

  lemma LexWord(w: string, rest: string)
    requires IsSimple(w) && Delimits(rest)
    ensures LexOne(w + rest) == Some((Word(w), rest))
  {
    WordLengthOf(w, rest);
    assert (w + rest)[..|w|] == w && (w + rest)[|w|..] == rest;
  }

  /** The token a rendered name is read as. */
  function ReadToken(s: string): Token {
    if IsSimple(s) && !IsReserved(s) then Word(s) else Name(Meaning(s))
  }

  lemma TickedText(s: string, rest: string)
    requires EscapeIdent(s).Ok? && !(IsSimple(s) && !IsReserved(s))
    ensures EscapeIdent(s).value + rest == ['`'] + (EscapeTicks(s) + ("`" + rest))
  {
    ReplaceAllEscapesTicks(s);
  }

  lemma SimpleIsPlain(s: string)
    requires IsSimple(s)
    ensures !HasBackslash(s) && Pairs(s) && Meaning(s) == s
  {
    PlainPairs(s);
    MeaningIsItselfIff(s);
  }

  /** A terminated name is read up to its own end, and the text after it is untouched. */
  lemma NameIsRead(s: string, rest: string)
    requires EscapeIdent(s).Ok? && Pairs(s) && Delimits(rest)
    ensures LexOne(EscapeIdent(s).value + rest) == Some((ReadToken(s), rest))
  {
    if IsSimple(s) && !IsReserved(s) {
      LexWord(s, rest);
    } else {
      var t := EscapeIdent(s).value + rest;
      TickedText(s, rest);
      ScanTerminated(s, rest);
      assert t[0] == '`' && t[1..] == EscapeTicks(s) + ("`" + rest);
    }
  }

  /** A backslash-free name is read back whole, and the text after it untouched. */
  lemma NameReadsBack(s: string, rest: string)
    requires EscapeIdent(s).Ok? && !HasBackslash(s) && Delimits(rest)
    ensures LexOne(EscapeIdent(s).value + rest) == Some((NameToken(s), rest))
  {
    PlainPairs(s);
    MeaningIsItselfIff(s);
    NameIsRead(s, rest);
  }

  /** Before any text at all, exactly the backslash-free names are read as themselves. */
  lemma NameReadsBackIff(s: string, rest: string)
    requires EscapeIdent(s).Ok? && Delimits(rest)
    ensures var one := LexOne(EscapeIdent(s).value + rest);
            (one.Some? && one.value.0 == NameToken(s)) <==> !HasBackslash(s)
  {
    if !HasBackslash(s) {
      NameReadsBack(s, rest);
    } else {
      if IsSimple(s) {
        SimpleIsPlain(s);
      }
      TickedText(s, rest);
      ScanMisreads(s, rest);
      var t := EscapeIdent(s).value + rest;
      assert t[0] == '`' && t[1..] == EscapeTicks(s) + ("`" + rest);
    }
  }

  /**
   * A rendered name is closed by its own closing backtick, in every context, exactly when neither a
   * backtick of its own nor its end comes after an odd number of backslashes.
   */
  lemma ClosesItselfIff(s: string)
    requires EscapeIdent(s).Ok? && !(IsSimple(s) && !IsReserved(s))
    ensures (forall rest :: LexOne(EscapeIdent(s).value + rest) == Some((Name(Meaning(s)), rest))) <==> Terminated(s)
  {
    PairsIffTerminated(s);
    if Pairs(s) {
      forall rest
        ensures LexOne(EscapeIdent(s).value + rest) == Some((Name(Meaning(s)), rest))
      {
        TickedText(s, rest);
        ScanTerminated(s, rest);
        var t := EscapeIdent(s).value + rest;
        assert t[1..] == EscapeTicks(s) + ("`" + rest);
      }
    } else {
      var early, left := ScanUnterminated(s, "");
      TickedText(s, "");
      var t := EscapeIdent(s).value + "";
      assert t[1..] == EscapeTicks(s) + ("`" + "");
      assert LexOne(t) != Some((Name(Meaning(s)), ""));
    }
  }

  /** A name "a\" swallows its closing backtick; a name "a\\" closes, and is read as "a\". */
  lemma TrailingBackslashes()
    ensures !Terminated("a\\") && LexOne("`a\\`") == None
    ensures Terminated("a\\\\") && Meaning("a\\\\") == "a\\" && LexOne("`a\\\\`") == Some((Name("a\\"), ""))
  {
    assert "a\\"[1..] == "\\" && "a\\\\"[1..] == "\\\\" && "\\\\"[2..] == "";
    assert !Pairs("\\") && Pairs("\\\\") && Meaning("\\\\") == "\\";
    PairsIffTerminated("a\\");
    PairsIffTerminated("a\\\\");
    assert "`a\\`"[1..] == "a\\`" && "a\\`"[1..] == "\\`" && "\\`"[2..] == "";
    assert "`a\\\\`"[1..] == "a\\\\`" && "a\\\\`"[1..] == "\\\\`" && "\\\\`"[2..] == "`" && "`"[1..] == "";
    assert ScanQuoted("\\`", '`').None? && ScanQuoted("`", '`') == Some(("", ""));
    assert ScanQuoted("\\\\`", '`') == Some(("\\", ""));
  }

  // ----- quoted passwords -----

  predicate AllPrint(lib: Libraries, s: string) {
    forall i :: 0 <= i < |s| ==> IsPrint(lib, s[i])
  }

  /** What a reader makes of a quoted character: a printable one is itself, an escape loses its backslash. */
  function ReadChar(lib: Libraries, c: char): string {
    if IsPrint(lib, c) then [c] else QuoteChar(lib, c)[1..]
  }

  function ReadBack(lib: Libraries, s: string): string {
    if s == "" then "" else ReadChar(lib, s[0]) + ReadBack(lib, s[1..])
  }

  /** No quote and no backslash. */
  predicate Unmarked(s: string) {
    forall i :: 0 <= i < |s| ==> s[i] != '\"' && s[i] != '\\'
  }

  lemma {:induction false} HexUnmarked(n: nat, width: nat)
    ensures Unmarked(Hex(n, width))
    decreases width
  {
    if width > 0 {
      HexUnmarked(n / 16, width - 1);
    }
  }

  /** An escape is a backslash, a letter, and unmarked characters. */
  lemma EscapeShape(lib: Libraries, c: char)
    requires !IsPrint(lib, c)
    ensures var e := QuoteChar(lib, c); |e| > 1 && e[0] == '\\' && 'A' <= e[1] <= 'z' && Unmarked(e[2..])
  {
    HexUnmarked(c as int, 2);
    HexUnmarked(c as int, 4);
    HexUnmarked(c as int, 8);
  }

  lemma {:induction false} ScanUnmarked(part: string, tail: string, s: string, rest: string)
    requires Unmarked(part) && ScanQuoted(tail, '\"') == Some((s, rest))
    ensures ScanQuoted(part + tail, '\"') == Some((part + s, rest))
  {
    if part == "" {
      assert part + tail == tail && part + s == s;
    } else {
      ScanUnmarked(part[1..], tail, s, rest);
      assert (part + tail)[1..] == part[1..] + tail;
      assert [part[0]] + (part[1..] + s) == part + s;
    }
  }

  /** An escaped character, and unmarked ones after it. */
  lemma ScanEscape(c: char, part: string, tail: string, s: string, rest: string)
    requires Unmarked(part) && ScanQuoted(tail, '\"') == Some((s, rest))
    ensures ScanQuoted(['\\', c] + part + tail, '\"') == Some(([c] + part + s, rest))
  {
    ScanUnmarked(part, tail, s, rest);
    var t := ['\\', c] + part + tail;
    assert t[2..] == part + tail && t[0] == '\\' && t[1] == c;
    assert [c] + part + s == [c] + (part + s);
  }

  lemma ScanQuotedChar(lib: Libraries, c: char, tail: string, s: string, rest: string)
    requires ScanQuoted(tail, '\"') == Some((s, rest))
    ensures ScanQuoted(QuoteChar(lib, c) + tail, '\"') == Some((ReadChar(lib, c) + s, rest))
  {
    var e := QuoteChar(lib, c);
    if c == '\"' || c == '\\' {
      ScanEscape(c, "", tail, s, rest);
      assert ['\\', c] + "" == e && [c] + "" == [c];
    } else if IsPrint(lib, c) {
      assert (e + tail)[1..] == tail;
    } else {
      EscapeShape(lib, c);
      ScanEscape(e[1], e[2..], tail, s, rest);
      assert ['\\', e[1]] + e[2..] == e && [e[1]] + e[2..] == e[1..];
    }
  }

  lemma QuoteBodySplits(lib: Libraries, s: string, rest: string)
    requires s != ""
    ensures QuoteBody(lib, s) + rest == QuoteChar(lib, s[0]) + (QuoteBody(lib, s[1..]) + rest)
  {
  }

  lemma ReadBackSplits(lib: Libraries, s: string)
    requires s != ""
    ensures ReadBack(lib, s) == ReadChar(lib, s[0]) + ReadBack(lib, s[1..])
  {
  }

  /** Every quoted text closes at its own closing quote. */
  lemma {:induction false} ScanQuotedText(lib: Libraries, s: string, rest: string)
    ensures ScanQuoted(QuoteBody(lib, s) + ("\"" + rest), '\"') == Some((ReadBack(lib, s), rest))
  {
    if s == "" {
      assert QuoteBody(lib, s) + ("\"" + rest) == "\"" + rest;
      assert ("\"" + rest)[1..] == rest;
    } else {
      var tail := QuoteBody(lib, s[1..]) + ("\"" + rest);
      ScanQuotedText(lib, s[1..], rest);
      ScanQuotedChar(lib, s[0], tail, ReadBack(lib, s[1..]), rest);
      QuoteBodySplits(lib, s, "\"" + rest);
      ReadBackSplits(lib, s);
    }
  }

  /** A text is read as itself exactly when all of it prints: the reader does not know Go's other escapes. */
  lemma {:induction false} ReadBackIff(lib: Libraries, s: string)
    ensures ReadBack(lib, s) == s <==> AllPrint(lib, s)
  {
    if s != "" {
      ReadBackIff(lib, s[1..]);
      ReadBackSplits(lib, s);
      if IsPrint(lib, s[0]) {
        assert ReadBack(lib, s)[1..] == ReadBack(lib, s[1..]);
        assert AllPrint(lib, s[1..]) ==> AllPrint(lib, s) by {
          assert forall i :: 1 <= i < |s| ==> s[i] == s[1..][i - 1];
        }
      } else {
        EscapeShape(lib, s[0]);
        assert ReadBack(lib, s)[0] == QuoteChar(lib, s[0])[1];
        assert s[0] != QuoteChar(lib, s[0])[1];
      }
    }
  }

  lemma QuotedThen(lib: Libraries, s: string, rest: string)
    ensures Quote(lib, s) + rest == ['\"'] + (QuoteBody(lib, s) + ("\"" + rest))
  {
  }

  lemma LexText(lib: Libraries, s: string, rest: string)
    ensures LexOne(Quote(lib, s) + rest) == Some((Text(ReadBack(lib, s)), rest))
  {
    var body := QuoteBody(lib, s) + ("\"" + rest);
    QuotedThen(lib, s, rest);
    ScanQuotedText(lib, s, rest);
    assert (['\"'] + body)[1..] == body;
  }

  lemma LexBlank(c: char, t: string)
    requires IsSpace(c)
    ensures Lex([c] + t) == Lex(t)
  {
    assert ([c] + t)[1..] == t;
  }

  lemma LexToken(t: string, token: Token, rest: string)
    requires t != "" && !IsSpace(t[0]) && LexOne(t) == Some((token, rest))
    ensures Lex(t) == Then(token, Lex(rest))
  {
  }

  lemma LexWordThen(w: string, rest: string)
    requires IsSimple(w) && Delimits(rest)
    ensures Lex(w + rest) == Then(Word(w), Lex(rest))
  {
    LexWord(w, rest);
    LexToken(w + rest, Word(w), rest);
  }

  /** A keyword and the blank after it. */
  lemma LexKeyword(w: string, rest: string)
    requires IsSimple(w)
    ensures Lex(w + (" " + rest)) == Then(Word(w), Lex(rest))
  {
    LexWordThen(w, " " + rest);
    LexBlank(' ', rest);
  }

  lemma LexNameThen(s: string, rest: string)
    requires EscapeIdent(s).Ok? && Pairs(s) && Delimits(rest)
    ensures Lex(EscapeIdent(s).value + rest) == Then(ReadToken(s), Lex(rest))
  {
    NameIsRead(s, rest);
    LexToken(EscapeIdent(s).value + rest, ReadToken(s), rest);
  }

  lemma LexTextThen(lib: Libraries, s: string, rest: string)
    ensures Lex(Quote(lib, s) + rest) == Then(Text(ReadBack(lib, s)), Lex(rest))
  {
    LexText(lib, s, rest);
    LexToken(Quote(lib, s) + rest, Text(ReadBack(lib, s)), rest);
  }

  lemma LexMark(mark: char, rest: string)
    requires mark == ';' || mark == ','
    ensures Lex([mark] + rest) == Then(if mark == ';' then Semicolon else Comma, Lex(rest))
  {
    assert ([mark] + rest)[1..] == rest;
  }
}
