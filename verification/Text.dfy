/** The string operations of Go's standard library that the operator relies on. */
module Text {
  import opened Platform

  /** `part` stands in `whole` at position `at`. */
  predicate OccursAt(part: string, whole: string, at: nat) {
    at + |part| <= |whole| && whole[at..at + |part|] == part
  }

  ghost predicate Occurs(part: string, whole: string) {
    exists at: nat :: OccursAt(part, whole, at)
  }

  /** strings.ReplaceAll for a non-empty pattern: leftmost matches, left to right, without overlap. */
  function ReplaceAll(s: string, pattern: string, replacement: string): string
    requires pattern != ""
    decreases |s|
  {
    if s == "" then ""
    else if pattern <= s then replacement + ReplaceAll(s[|pattern|..], pattern, replacement)
    else [s[0]] + ReplaceAll(s[1..], pattern, replacement)
  }

  /** A text without the pattern comes back as it was. */
  lemma {:induction false} ReplaceAllAbsent(s: string, pattern: string, replacement: string)
    requires pattern != "" && !Occurs(pattern, s)
    ensures ReplaceAll(s, pattern, replacement) == s
    decreases |s|
  {
    if s != "" {
      assert OccursAt(pattern, s, 0) <==> pattern <= s;
      forall at: nat | OccursAt(pattern, s[1..], at)
        ensures OccursAt(pattern, s, at + 1)
      {
        assert s[1..][at..at + |pattern|] == s[at + 1..at + 1 + |pattern|];
      }
      ReplaceAllAbsent(s[1..], pattern, replacement);
    }
  }

  function Join(parts: seq<string>, sep: string): string {
    if parts == [] then ""
    else if |parts| == 1 then parts[0]
    else parts[0] + sep + Join(parts[1..], sep)
  }

  function TrimLeft(s: string, c: char): string {
    if s != "" && s[0] == c then TrimLeft(s[1..], c) else s
  }

  function TrimRight(s: string, c: char): string
    decreases |s|
  {
    if s != "" && s[|s| - 1] == c then TrimRight(s[..|s| - 1], c) else s
  }

  /** strings.Trim with a one-character cutset. */
  function Trim(s: string, c: char): string {
    TrimRight(TrimLeft(s, c), c)
  }

  // ----- strconv.Quote -----

  function HexDigit(n: nat): char
    requires n < 16
  {
    if n < 10 then ('0' as int + n) as char else ('a' as int + (n - 10)) as char
  }

  function Hex(n: nat, width: nat): string
    decreases width
  {
    if width == 0 then "" else Hex(n / 16, width - 1) + [HexDigit(n % 16)]
  }

  predicate IsPrint(lib: Libraries, c: char) {
    if (c as int) < 128 then ' ' <= c <= '~' else lib.graphic(c)
  }

  function QuoteChar(lib: Libraries, c: char): string {
    var n := c as int;
    if c == '\"' || c == '\\' then ['\\', c]
    else if IsPrint(lib, c) then [c]
    else if n == 7 then "\\a"
    else if n == 8 then "\\b"
    else if n == 12 then "\\f"
    else if c == '\n' then "\\n"
    else if c == '\r' then "\\r"
    else if c == '\t' then "\\t"
    else if n == 11 then "\\v"
    else if n < 32 || n == 127 then "\\x" + Hex(n, 2)
    else if n < 0x10000 then "\\u" + Hex(n, 4)
    else "\\U" + Hex(n, 8)
  }

  function QuoteBody(lib: Libraries, s: string): string {
    if s == "" then "" else QuoteChar(lib, s[0]) + QuoteBody(lib, s[1..])
  }

  function Quote(lib: Libraries, s: string): string {
    ['\"'] + (QuoteBody(lib, s) + ['\"'])
  }
}
