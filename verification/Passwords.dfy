/** Password generation: internal/secrets/password.go, with the random source as a list of draws. */
module Passwords {
  import opened Prelude
  import opened Platform
  import opened Text
  import opened SurrealQL

  const DEFAULT_LENGTH: int := 48
  const UPPER: string := "ABCDEFGHIJKLMNOPQRSTUVWXYZ"
  const LOWER: string := "abcdefghijklmnopqrstuvwxyz"
  const DIGITS_AND_MARKS: string := "0123456789_-"
  const ALPHABET: string := UPPER + LOWER + DIGITS_AND_MARKS

  datatype PasswordError = LengthNotPositive | RandomSourceFailed

  predicate OverAlphabet(p: string) {
    forall i :: 0 <= i < |p| ==> p[i] in ALPHABET
  }

  /** A password the generator can return at its default length. */
  predicate Generated(p: string) {
    |p| == DEFAULT_LENGTH && OverAlphabet(p)
  }

  /**
   * `draws[i]` is the i-th draw of the random source, below the alphabet's size, or None where it fails.
   * The first failed draw, if any falls within the length, decides the outcome.
   */
  method GeneratePassword(length: int, draws: seq<Option<nat>>) returns (r: Result<string, PasswordError>)
    requires |draws| >= length
    requires forall i :: 0 <= i < |draws| && draws[i].Some? ==> draws[i].value < |ALPHABET|
    ensures length <= 0 <==> r == Err(LengthNotPositive)
    ensures length > 0 ==> (r.Ok? <==> forall i :: 0 <= i < length ==> draws[i].Some?)
    ensures r.Ok? ==> |r.value| == length && OverAlphabet(r.value)
    ensures r.Ok? ==> forall i :: 0 <= i < length ==> r.value[i] == ALPHABET[draws[i].value]
  {
    if length <= 0 {
      return Err(LengthNotPositive);
    }
    var out := new char[length];
    for i := 0 to length
      invariant forall k :: 0 <= k < i ==> draws[k].Some? && out[k] == ALPHABET[draws[k].value]
    {
      if draws[i].None? {
        return Err(RandomSourceFailed);
      }
      out[i] := ALPHABET[draws[i].value];
    }
    return Ok(out[..]);
  }

  lemma IsUpper(c: char)
    requires c in UPPER
    ensures 'A' <= c <= 'Z'
  {
  }

  lemma IsLower(c: char)
    requires c in LOWER
    ensures 'a' <= c <= 'z'
  {
  }

  lemma UrlSafe(c: char)
    requires c in ALPHABET
    ensures ('A' <= c <= 'Z') || ('a' <= c <= 'z') || ('0' <= c <= '9') || c == '_' || c == '-'
  {
    if c in UPPER {
      IsUpper(c);
    } else if c in LOWER {
      IsLower(c);
    }
  }

  /** Every character of the alphabet prints as itself inside quotes. */
  lemma AlphabetPrints(lib: Libraries, p: string)
    requires OverAlphabet(p)
    ensures AllPrint(lib, p)
    ensures forall i :: 0 <= i < |p| ==> p[i] != '\"' && p[i] != '\\' && p[i] != '[' && p[i] != ']'
  {
    forall i | 0 <= i < |p|
      ensures IsPrint(lib, p[i]) && p[i] != '\"' && p[i] != '\\' && p[i] != '[' && p[i] != ']'
    {
      UrlSafe(p[i]);
    }
  }
}
