/** SurrealQL identifiers: internal/surreal/identifiers.go. */
module Identifiers {
  import opened Prelude
  import opened Text

  datatype IdentError = Empty | ControlCharacter

  predicate IsControl(c: char) {
    var n := c as int;
    n < 0x20 || 0x7f <= n < 0xa0
  }

  predicate IsIdentStart(c: char) {
    ('A' <= c <= 'Z') || ('a' <= c <= 'z') || c == '_'
  }

  predicate IsIdentChar(c: char) {
    IsIdentStart(c) || ('0' <= c <= '9')
  }

  /** ^[A-Za-z_][A-Za-z0-9_]*$ */
  predicate IsSimple(s: string) {
    s != "" && IsIdentStart(s[0]) && forall i :: 0 <= i < |s| ==> IsIdentChar(s[i])
  }

  function AsciiLower(c: char): char {
    if 'A' <= c <= 'Z' then (c as int + 32) as char else c
  }

  function AsciiLowerAll(s: string): (r: string)
    ensures |r| == |s|
  {
    seq(|s|, i requires 0 <= i < |s| => AsciiLower(s[i]))
  }

  const RESERVED: set<string> := {
    "access", "alter", "analyzer", "api", "as",
    "database", "db", "define", "delete", "duration",
    "editor", "exists", "field", "for", "from",
    "if", "index", "namespace", "none", "ns",
    "on", "owner", "param", "password", "passhash",
    "record", "remove", "roles", "select", "table",
    "user", "use", "viewer", "where"
  }

  predicate IsReserved(s: string) {
    AsciiLowerAll(s) in RESERVED
  }

  predicate HasControl(s: string) {
    exists i :: 0 <= i < |s| && IsControl(s[i])
  }

  /** Backticks with a backslash put before them, and nothing else changed. */
  function EscapeTicks(s: string): string {
    if s == "" then ""
    else (if s[0] == '`' then "\\`" else [s[0]]) + EscapeTicks(s[1..])
  }

  function EscapeIdent(input: string): Result<string, IdentError> {
    if input == "" then Err(Empty)
    else if HasControl(input) then Err(ControlCharacter)
    else if IsSimple(input) && !IsReserved(input) then Ok(input)
    else Ok("`" + ReplaceAll(input, "`", "\\`") + "`")
  }

  lemma {:induction false} ReplaceAllEscapesTicks(s: string)
    ensures ReplaceAll(s, "`", "\\`") == EscapeTicks(s)
  {
    if s != "" {
      ReplaceAllEscapesTicks(s[1..]);
      assert "`" <= s <==> s[0] == '`';
    }
  }

  // ----- escaping loses nothing -----

  lemma {:induction false} EscapeTicksInjective(a: string, b: string)
    requires EscapeTicks(a) == EscapeTicks(b)
    ensures a == b
  {
    if a == "" || b == "" {
    } else {
      EscapeTicksHead(a);
      EscapeTicksHead(b);
      EscapeTicksInjective(a[1..], b[1..]);
    }
  }

  /** An escaped text tells its first character apart. */
  lemma EscapeTicksHead(s: string)
    requires s != ""
    ensures var t := EscapeTicks(s);
            if s[0] == '`' then t[..2] == "\\`" && t[2..] == EscapeTicks(s[1..])
            else t[0] == s[0] && t[1..] == EscapeTicks(s[1..]) && (s[0] == '\\' && |t| > 1 ==> t[1] != '`')
  {
    if s[0] == '\\' && |s| > 1 {
      assert EscapeTicks(s[1..])[0] == (if s[1] == '`' then '\\' else s[1]);
    }
  }

  /** Two accepted inputs never render as the same identifier, whatever characters they hold. */
  lemma EscapeIdentInjective(a: string, b: string)
    requires EscapeIdent(a).Ok? && EscapeIdent(a) == EscapeIdent(b)
    ensures a == b
  {
    ReplaceAllEscapesTicks(a);
    ReplaceAllEscapesTicks(b);
    var ta, tb := "`" + EscapeTicks(a) + "`", "`" + EscapeTicks(b) + "`";
    if IsSimple(a) && !IsReserved(a) {
    } else if IsSimple(b) && !IsReserved(b) {
    } else {
      assert ta[1..|ta| - 1] == EscapeTicks(a) && tb[1..|tb| - 1] == EscapeTicks(b);
      EscapeTicksInjective(a, b);
    }
  }

  /** A name that can be written at all. */
  predicate Writable(s: string) {
    s != "" && forall i :: 0 <= i < |s| ==> !IsControl(s[i])
  }

  /** Whatever else a name holds, it is accepted exactly when it is non-empty and free of control characters. */
  lemma AcceptedIff(s: string)
    ensures EscapeIdent(s).Ok? <==> Writable(s)
  {
    if i :| 0 <= i < |s| && IsControl(s[i]) {
      assert HasControl(s);
    }
  }

  /** No accepted input holds a control character, NUL included. */
  lemma AcceptedHasNoControl(s: string)
    requires EscapeIdent(s).Ok?
    ensures forall i :: 0 <= i < |s| ==> !IsControl(s[i]) && s[i] != '\0'
  {
    forall i | 0 <= i < |s|
      ensures !IsControl(s[i]) && s[i] != '\0'
    {
      if IsControl(s[i]) {
        assert HasControl(s);
      }
    }
  }
}
