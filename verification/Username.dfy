/** Generated usernames: internal/policy/username.go. */
module Username {
  import opened Prelude
  import opened Platform
  import opened Api
  import opened Text
  import opened Identifiers
  import opened Policy

  const PREFIX: string := "k8s"
  const HASH_CHARS: nat := 8
  const MAX_LENGTH: nat := 63

  predicate IsPart(c: char) {
    ('a' <= c <= 'z') || ('0' <= c <= '9')
  }

  function LowerAll(lib: Libraries, s: string): (r: string)
    ensures |r| == |s|
    ensures forall i :: 0 <= i < |s| ==> r[i] == lib.lower(s[i])
  {
    seq(|s|, i requires 0 <= i < |s| => lib.lower(s[i]))
  }

  // ----- normalization, declaratively -----

  function RunLength(s: string): (n: nat)
    ensures n <= |s|
    ensures forall i :: 0 <= i < n ==> IsPart(s[i])
    ensures n < |s| ==> !IsPart(s[n])
  {
    if s == "" || !IsPart(s[0]) then 0 else 1 + RunLength(s[1..])
  }

  /** The maximal runs of [a-z0-9]. */
  function Words(s: string): (r: seq<string>)
    ensures forall i :: 0 <= i < |r| ==> r[i] != "" && forall k :: 0 <= k < |r[i]| ==> IsPart(r[i][k])
    decreases |s|
  {
    if s == "" then []
    else if IsPart(s[0]) then
      var n := RunLength(s);
      [s[..n]] + Words(s[n..])
    else Words(s[1..])
  }

  function Normalize(lib: Libraries, input: string): string {
    Join(Words(LowerAll(lib, input)), "_")
  }

  // ----- the loop of normalizePart -----

  /** What the loop appends for the remaining characters. */
  function Emitted(s: string, lastUnderscore: bool): string {
    if s == "" then ""
    else if IsPart(s[0]) then [s[0]] + Emitted(s[1..], false)
    else (if lastUnderscore then "" else "_") + Emitted(s[1..], true)
  }

  /** An underscore left behind by separators after the last word. */
  function Trailing(s: string): string {
    if s != "" && !IsPart(s[|s| - 1]) && Words(s) != [] then "_" else ""
  }

  lemma {:induction false} EmittedRun(run: string, rest: string, flag: bool)
    requires run != "" && forall i :: 0 <= i < |run| ==> IsPart(run[i])
    ensures Emitted(run + rest, flag) == run + Emitted(rest, false)
  {
    var s := run + rest;
    assert s[1..] == run[1..] + rest;
    if |run| == 1 {
      assert s[1..] == rest;
    } else {
      EmittedRun(run[1..], rest, false);
      assert [run[0]] + run[1..] == run;
    }
  }

  lemma {:induction false} EmittedIsJoinedWords(s: string)
    ensures Emitted(s, true) == Join(Words(s), "_") + Trailing(s)
    decreases |s|
  {
    if s == "" {
    } else if !IsPart(s[0]) {
      EmittedIsJoinedWords(s[1..]);
    } else {
      var n := RunLength(s);
      EmittedIsJoinedWords(s[n..]);
      EmittedWordFirst(s[..n], s[n..]);
      assert s == s[..n] + s[n..];
    }
  }

  lemma WordsOfRun(run: string, rest: string)
    requires run != "" && forall i :: 0 <= i < |run| ==> IsPart(run[i])
    requires rest == "" || !IsPart(rest[0])
    ensures Words(run + rest) == [run] + Words(rest)
  {
    RunOf(run, rest);
    assert (run + rest)[..|run|] == run && (run + rest)[|run|..] == rest;
  }

  lemma JoinCons(head: string, rest: seq<string>)
    ensures Join([head] + rest, "_") == if rest == [] then head else head + "_" + Join(rest, "_")
  {
    assert ([head] + rest)[1..] == rest;
  }

  lemma TrailingOf(run: string, rest: string)
    requires run != "" && forall i :: 0 <= i < |run| ==> IsPart(run[i])
    requires rest == "" || !IsPart(rest[0])
    ensures Trailing(run + rest) == if rest == "" then "" else if Words(rest) == [] then "_" else Trailing(rest)
  {
    var s := run + rest;
    WordsOfRun(run, rest);
    if rest == "" {
      assert s[|s| - 1] == run[|run| - 1];
    } else {
      assert s[|s| - 1] == rest[|rest| - 1];
      if Words(rest) == [] {
        NoWordsNoParts(rest);
      }
    }
  }

  lemma EmittedWordFirst(run: string, rest: string)
    requires run != "" && forall i :: 0 <= i < |run| ==> IsPart(run[i])
    requires rest == "" || !IsPart(rest[0])
    requires Emitted(rest, true) == Join(Words(rest), "_") + Trailing(rest)
    ensures Emitted(run + rest, true) == Join(Words(run + rest), "_") + Trailing(run + rest)
  {
    EmittedRun(run, rest, true);
    EmittedFromStart(rest);
    WordsOfRun(run, rest);
    JoinCons(run, Words(rest));
    TrailingOf(run, rest);
    Glue(run, Emitted(rest, true), Join(Words(rest), "_"), Trailing(rest), rest == "", Words(rest) == []);
  }

  /** The text equation behind EmittedWordFirst. */
  lemma Glue(run: string, emitted: string, joined: string, trailing: string, atEnd: bool, noWords: bool)
    requires emitted == joined + trailing
    requires noWords ==> joined == "" && trailing == ""
    requires atEnd ==> noWords
    ensures run + ((if atEnd then "" else "_") + emitted) ==
            (if noWords then run else run + "_" + joined) + (if atEnd then "" else if noWords then "_" else trailing)
  {
  }

  lemma {:induction false} NoWordsNoParts(s: string)
    requires Words(s) == []
    ensures forall i :: 0 <= i < |s| ==> !IsPart(s[i])
    decreases |s|
  {
    if s != "" {
      assert !IsPart(s[0]);
      NoWordsNoParts(s[1..]);
      assert forall i :: 1 <= i < |s| ==> s[i] == s[1..][i - 1];
    }
  }

  /** At most one underscore on either side is trimmed away. */
  lemma TrimUnderscores(left: string, core: string, right: string)
    requires left == "" || left == "_"
    requires right == "" || right == "_"
    requires core == "" ==> right == ""
    requires core != "" ==> core[0] != '_' && core[|core| - 1] != '_'
    ensures Trim(left + (core + right), '_') == core
  {
    var s := left + (core + right);
    if left == "_" {
      assert s[1..] == core + right;
      assert TrimLeft(s, '_') == TrimLeft(core + right, '_');
    } else {
      assert s == core + right;
    }
    assert TrimLeft(core + right, '_') == core + right;
    if right == "_" {
      assert (core + right)[..|core|] == core;
      assert TrimRight(core + right, '_') == TrimRight(core, '_');
    } else {
      assert core + right == core;
    }
  }

  /** Only a leading separator tells the two loop states apart. */
  lemma EmittedFromStart(s: string)
    ensures Emitted(s, false) == (if s != "" && !IsPart(s[0]) then "_" else "") + Emitted(s, true)
  {
  }

  lemma TrimmedEmission(s: string)
    ensures Trim(Emitted(s, false), '_') == Join(Words(s), "_")
  {
    var core, right := Join(Words(s), "_"), Trailing(s);
    var left := if s != "" && !IsPart(s[0]) then "_" else "";
    EmittedIsJoinedWords(s);
    EmittedFromStart(s);
    WordsShaped(Words(s));
    TrimUnderscores(left, core, right);
  }

  /** One turn of the loop moves what it emits from the rest of the text to the builder. */
  lemma EmittedStep(b: string, s: string, i: nat, flag: bool)
    requires i < |s|
    ensures IsPart(s[i]) ==> b + [s[i]] + Emitted(s[i + 1..], false) == b + Emitted(s[i..], flag)
    ensures !IsPart(s[i]) && flag ==> b + Emitted(s[i + 1..], true) == b + Emitted(s[i..], flag)
    ensures !IsPart(s[i]) && !flag ==> b + "_" + Emitted(s[i + 1..], true) == b + Emitted(s[i..], flag)
  {
    assert s[i..][1..] == s[i + 1..];
  }

  /** The flag-driven loop yields the maximal runs of the lower-cased text, joined by single underscores. */
  method NormalizePart(lib: Libraries, input: string) returns (r: string)
    ensures r == Normalize(lib, input)
  {
    var low := LowerAll(lib, input);
    var b := "";
    var lastUnderscore := false;
    for i := 0 to |low|
      invariant b + Emitted(low[i..], lastUnderscore) == Emitted(low, false)
    {
      EmittedStep(b, low, i, lastUnderscore);
      if IsPart(low[i]) {
        b := b + [low[i]];
        lastUnderscore := false;
        continue;
      }
      if !lastUnderscore {
        b := b + "_";
        lastUnderscore := true;
      }
    }
    TrimmedEmission(low);
    assert low[|low|..] == "" && b + "" == b;
    return Trim(b, '_');
  }

  // ----- shape -----

  /** Words of [a-z0-9] joined by single underscores. */
  predicate Shaped(s: string) {
    && s != ""
    && (forall i :: 0 <= i < |s| ==> IsPart(s[i]) || s[i] == '_')
    && s[0] != '_' && s[|s| - 1] != '_'
    && (forall i :: 0 <= i < |s| - 1 ==> s[i] != '_' || s[i + 1] != '_')
  }

  lemma ShapedJoin(a: string, b: string)
    requires Shaped(a) && Shaped(b)
    ensures Shaped(a + "_" + b)
  {
    var s := a + "_" + b;
    forall i | 0 <= i < |s|
      ensures IsPart(s[i]) || s[i] == '_'
      ensures i < |s| - 1 ==> s[i] != '_' || s[i + 1] != '_'
    {
      assert s[i] == (if i < |a| then a[i] else if i == |a| then '_' else b[i - |a| - 1]);
      if i < |s| - 1 {
        assert s[i + 1] == (if i + 1 < |a| then a[i + 1] else if i + 1 == |a| then '_' else b[i - |a|]);
      }
    }
  }

  lemma {:induction false} JoinShaped(parts: seq<string>)
    requires parts != [] && forall i :: 0 <= i < |parts| ==> Shaped(parts[i])
    ensures Shaped(Join(parts, "_"))
  {
    if |parts| > 1 {
      JoinShaped(parts[1..]);
      ShapedJoin(parts[0], Join(parts[1..], "_"));
    }
  }

  lemma WordsShaped(ws: seq<string>)
    requires forall i :: 0 <= i < |ws| ==> ws[i] != "" && forall k :: 0 <= k < |ws[i]| ==> IsPart(ws[i][k])
    ensures ws == [] || Shaped(Join(ws, "_"))
  {
    forall i | 0 <= i < |ws|
      ensures Shaped(ws[i])
    {
    }
    if ws != [] {
      JoinShaped(ws);
    }
  }

  lemma ShapedPrefix(s: string, n: nat)
    requires Shaped(s) && 0 < n <= |s|
    ensures var t := TrimRight(s[..n], '_');
            Shaped(t) && n - 1 <= |t| <= n && t <= s
  {
    var p := s[..n];
    if p[n - 1] == '_' {
      assert n > 1 && p[..n - 1] == s[..n - 1] && s[n - 2] != '_';
      assert TrimRight(s[..n - 1], '_') == s[..n - 1];
    }
  }

  /** A normalized part survives normalization, when lower-casing leaves [a-z0-9_] alone. */
  lemma NormalizeIdempotent(lib: Libraries, input: string)
    requires forall c :: IsPart(c) || c == '_' ==> lib.lower(c) == c
    ensures Normalize(lib, Normalize(lib, input)) == Normalize(lib, input)
  {
    var ws := Words(LowerAll(lib, input));
    var n := Join(ws, "_");
    WordsShaped(ws);
    assert LowerAll(lib, n) == n;
    WordsOfJoin(ws);
  }

  lemma {:induction false} WordsOfJoin(ws: seq<string>)
    requires forall i :: 0 <= i < |ws| ==> ws[i] != "" && forall k :: 0 <= k < |ws[i]| ==> IsPart(ws[i][k])
    ensures Words(Join(ws, "_")) == ws
  {
    if ws != [] {
      var w := ws[0];
      var rest := if |ws| == 1 then "" else "_" + Join(ws[1..], "_");
      var s := Join(ws, "_");
      assert s == w + rest;
      RunOf(w, rest);
      assert s[..|w|] == w && s[|w|..] == rest;
      WordsOfJoin(ws[1..]);
      if |ws| > 1 {
        assert rest[1..] == Join(ws[1..], "_");
      }
      assert [w] + ws[1..] == ws;
    }
  }

  lemma {:induction false} RunOf(w: string, rest: string)
    requires forall i :: 0 <= i < |w| ==> IsPart(w[i])
    requires rest == "" || !IsPart(rest[0])
    ensures RunLength(w + rest) == |w|
  {
    if w != "" {
      assert (w + rest)[1..] == w[1..] + rest;
      RunOf(w[1..], rest);
    } else {
      assert w + rest == rest;
    }
  }

  // ----- the username -----

  function NonEmpty(values: seq<string>): (r: seq<string>)
    ensures forall i :: 0 <= i < |r| ==> r[i] != "" && r[i] in values
    decreases |values|
  {
    if values == [] then []
    else
      var n := |values| - 1;
      NonEmpty(values[..n]) + (if values[n] == "" then [] else [values[n]])
  }

  method KeepNonEmpty(values: seq<string>) returns (out: seq<string>)
    ensures out == NonEmpty(values)
  {
    out := [];
    for k := 0 to |values|
      invariant out == NonEmpty(values[..k])
    {
      assert values[..k + 1][..k] == values[..k];
      if values[k] != "" {
        out := out + [values[k]];
      }
    }
    assert values[..|values|] == values;
  }

  /** The bytes fed to the hash: every value, each closed by a zero. */
  function Framed(values: seq<string>): string
    decreases |values|
  {
    if values == [] then ""
    else
      var n := |values| - 1;
      Framed(values[..n]) + values[n] + "\0"
  }

  method FeedHash(values: seq<string>) returns (fed: string)
    ensures fed == Framed(values)
  {
    fed := "";
    for k := 0 to |values|
      invariant fed == Framed(values[..k])
    {
      assert values[..k + 1][..k] == values[..k];
      fed := fed + values[k];
      fed := fed + "\0";
    }
    assert values[..|values|] == values;
  }

  function Identity(namespace: string, name: string, target: PolicyTarget): (r: seq<string>)
    ensures |r| == 6
  {
    [namespace, name, target.provider, target.namespace, target.database, LevelText(target.level)]
  }

  function BaseOf(a: string, b: string): string {
    var base := Join(NonEmpty([PREFIX, a, b]), "_");
    if base == "" || base == PREFIX then PREFIX + "_credential" else base
  }

  function BaseName(lib: Libraries, namespace: string, name: string): string {
    BaseOf(Normalize(lib, namespace), Normalize(lib, name))
  }

  function Cut(base: string, maxBase: nat): string {
    if |base| > maxBase then
      var cut := TrimRight(base[..maxBase], '_');
      if cut == "" then PREFIX else cut
    else base
  }

  /** The first characters of a digest, which always has more than these. */
  function HashChars(hash: string): (r: string)
    ensures |r| <= HASH_CHARS
  {
    if |hash| < HASH_CHARS then hash else hash[..HASH_CHARS]
  }

  function Username(lib: Libraries, namespace: string, name: string, target: PolicyTarget): string {
    var suffix := "_" + HashChars(lib.digest(Framed(Identity(namespace, name, target))));
    Cut(BaseName(lib, namespace, name), MAX_LENGTH - |suffix|) + suffix
  }

  lemma NormalizeShaped(lib: Libraries, input: string)
    ensures Normalize(lib, input) == "" || Shaped(Normalize(lib, input))
  {
    WordsShaped(Words(LowerAll(lib, input)));
  }

  /** The non-empty parts after the prefix, or the word that stands in for them. */
  function LedParts(a: string, b: string): (r: seq<string>)
    ensures r != []
  {
    var kept := (if a == "" then [] else [a]) + (if b == "" then [] else [b]);
    if kept == [] then ["credential"] else kept
  }

  lemma LedPartsShaped(a: string, b: string)
    requires (a == "" || Shaped(a)) && (b == "" || Shaped(b))
    ensures forall i :: 0 <= i < |LedParts(a, b)| ==> Shaped(LedParts(a, b)[i])
  {
  }

  lemma BaseIsLed(a: string, b: string)
    ensures BaseOf(a, b) == Join([PREFIX] + LedParts(a, b), "_")
  {
    var kept := (if a == "" then [] else [a]) + (if b == "" then [] else [b]);
    KeptParts(a, b);
    JoinCons(PREFIX, kept);
    JoinCons(PREFIX, ["credential"]);
  }

  /** The prefix followed by shaped parts. */
  lemma LedShaped(rest: seq<string>)
    requires forall i :: 0 <= i < |rest| ==> Shaped(rest[i])
    ensures var base := Join([PREFIX] + rest, "_");
            Shaped(base) && base[..3] == PREFIX && (rest != [] ==> |base| > 3)
  {
    JoinShaped([PREFIX] + rest);
    JoinCons(PREFIX, rest);
  }

  lemma KeptParts(a: string, b: string)
    ensures NonEmpty([PREFIX, a, b]) == [PREFIX] + ((if a == "" then [] else [a]) + (if b == "" then [] else [b]))
  {
    var none, one, all := [PREFIX], [PREFIX, a], [PREFIX, a, b];
    assert all[..2] == one && one[..1] == none && none[..0] == [];
    assert NonEmpty(none) == [PREFIX];
    assert NonEmpty(one) == [PREFIX] + (if a == "" then [] else [a]);
  }

  lemma BaseShaped(lib: Libraries, namespace: string, name: string)
    ensures var base := BaseName(lib, namespace, name);
            Shaped(base) && |base| > 3 && base[..3] == PREFIX
  {
    var a, b := Normalize(lib, namespace), Normalize(lib, name);
    NormalizeShaped(lib, namespace);
    NormalizeShaped(lib, name);
    BaseIsLed(a, b);
    LedPartsShaped(a, b);
    LedShaped(LedParts(a, b));
  }

  /** For every input: at most 63 characters, led by k8s, words of [a-z0-9] joined by single underscores. */
  lemma UsernameShape(lib: Libraries, namespace: string, name: string, target: PolicyTarget)
    requires ProperDigest(lib)
    ensures var u := Username(lib, namespace, name, target);
            Shaped(u) && |u| <= MAX_LENGTH && u[..3] == PREFIX
  {
    var digest := lib.digest(Framed(Identity(namespace, name, target)));
    var hash := HashChars(digest);
    assert hash == digest[..HASH_CHARS];
    var base := BaseName(lib, namespace, name);
    BaseShaped(lib, namespace, name);
    assert Shaped(hash) by {
      assert forall i :: 0 <= i < |hash| ==> IsHex(hash[i]);
    }
    if |base| > 54 {
      ShapedPrefix(base, 54);
    }
    var cut := Cut(base, 54);
    assert Shaped(cut) && |cut| <= 54 && cut[..3] == PREFIX;
    ShapedJoin(cut, hash);
    assert Username(lib, namespace, name, target) == cut + "_" + hash by {
      assert cut + ("_" + hash) == cut + "_" + hash;
    }
  }

  /** The prefix, then the parts as far as there are any. */
  function ReadableOf(a: string, b: string): string {
    if a == "" && b == "" then "k8s_credential"
    else if b == "" then "k8s_" + a
    else if a == "" then "k8s_" + b
    else "k8s_" + (a + "_" + b)
  }

  /** What a reader sees first. */
  function Readable(lib: Libraries, namespace: string, name: string): string {
    ReadableOf(Normalize(lib, namespace), Normalize(lib, name))
  }

  lemma BaseIsReadable(a: string, b: string)
    ensures BaseOf(a, b) == ReadableOf(a, b)
  {
    var parts := LedParts(a, b);
    BaseIsLed(a, b);
    JoinCons(PREFIX, parts);
    assert PREFIX + "_" == "k8s_";
    if a != "" && b != "" {
      assert parts == [a, b];
      JoinCons(a, [b]);
      assert PREFIX + "_" + (a + "_" + b) == "k8s_" + (a + "_" + b);
    }
  }

  /** Before the hash the username reads as the credential's namespace and name, whole unless they are too long. */
  lemma UsernameIsReadable(lib: Libraries, namespace: string, name: string, target: PolicyTarget)
    requires ProperDigest(lib)
    ensures var u, full := Username(lib, namespace, name, target), Readable(lib, namespace, name);
            && |u| > 9 && u[|u| - 9] == '_'
            && u[..|u| - 9] == (if |full| <= 54 then full else TrimRight(full[..54], '_'))
            && u[..|u| - 9] <= full && (|full| > 54 ==> |u| >= 62)
  {
    var digest := lib.digest(Framed(Identity(namespace, name, target)));
    var base := BaseName(lib, namespace, name);
    BaseShaped(lib, namespace, name);
    BaseIsReadable(Normalize(lib, namespace), Normalize(lib, name));
    if |base| > 54 {
      ShapedPrefix(base, 54);
    }
    var cut, suffix := Cut(base, 54), "_" + digest[..HASH_CHARS];
    assert Username(lib, namespace, name, target) == cut + suffix;
    assert (cut + suffix)[..|cut|] == cut;
  }

  /** The username ends in the hash, however much of the readable part is cut. */
  lemma UsernameEndsInHash(lib: Libraries, namespace: string, name: string, target: PolicyTarget)
    requires ProperDigest(lib)
    ensures var u, hash := Username(lib, namespace, name, target), lib.digest(Framed(Identity(namespace, name, target)));
            |u| > HASH_CHARS && u[|u| - HASH_CHARS..] == hash[..HASH_CHARS]
  {
  }

  /** Two credentials or targets share a username only if their digests share the kept characters. */
  lemma SharedUsernameSharesHash(lib: Libraries, namespace: string, name: string, target: PolicyTarget,
                                 otherNamespace: string, otherName: string, otherTarget: PolicyTarget)
    requires ProperDigest(lib)
    requires Username(lib, namespace, name, target) == Username(lib, otherNamespace, otherName, otherTarget)
    ensures lib.digest(Framed(Identity(namespace, name, target)))[..HASH_CHARS] ==
            lib.digest(Framed(Identity(otherNamespace, otherName, otherTarget)))[..HASH_CHARS]
  {
    UsernameEndsInHash(lib, namespace, name, target);
    UsernameEndsInHash(lib, otherNamespace, otherName, otherTarget);
  }

  lemma ShapedIsSimple(u: string)
    requires Shaped(u) && 'a' <= u[0] <= 'z'
    ensures IsSimple(u) && !HasControl(u)
  {
  }

  lemma LedIsNotReserved(u: string)
    requires |u| > 1 && u[1] == '8'
    ensures !IsReserved(u)
  {
    assert AsciiLowerAll(u)[1] == '8';
    ReservedHaveNoEight();
  }

  /** A generated username is its own SurrealQL spelling: never quoted, never rejected. */
  lemma UsernameIsItsOwnIdentifier(lib: Libraries, namespace: string, name: string, target: PolicyTarget)
    requires ProperDigest(lib)
    ensures var u := Username(lib, namespace, name, target);
            EscapeIdent(u) == Ok(u)
  {
    var u := Username(lib, namespace, name, target);
    UsernameShape(lib, namespace, name, target);
    assert u[0] == u[..3][0] == 'k' && u[1] == u[..3][1] == '8';
    ShapedIsSimple(u);
    LedIsNotReserved(u);
  }

  lemma ReservedHaveNoEight()
    ensures forall w :: w in RESERVED ==> |w| > 1 && w[1] != '8'
  {
  }

  // ----- hash framing -----

  predicate NulFree(s: string) {
    forall i :: 0 <= i < |s| ==> s[i] != '\0'
  }

  function Nuls(s: string): nat {
    if s == "" then 0 else (if s[0] == '\0' then 1 else 0) + Nuls(s[1..])
  }

  lemma {:induction false} NulsAdd(a: string, b: string)
    ensures Nuls(a + b) == Nuls(a) + Nuls(b)
  {
    if a == "" {
      assert a + b == b;
    } else {
      assert (a + b)[1..] == a[1..] + b;
      NulsAdd(a[1..], b);
    }
  }

  lemma {:induction false} NulFreeIffNoNuls(s: string)
    ensures NulFree(s) <==> Nuls(s) == 0
  {
    if s != "" {
      NulFreeIffNoNuls(s[1..]);
      assert NulFree(s) <==> s[0] != '\0' && NulFree(s[1..]) by {
        assert forall i :: 1 <= i < |s| ==> s[i] == s[1..][i - 1];
        assert forall i :: 0 <= i < |s| - 1 ==> s[1..][i] == s[i + 1];
      }
    }
  }

  /** A frame holds one zero per value, and more exactly when some value holds one itself. */
  lemma {:induction false} FrameNuls(values: seq<string>)
    ensures Nuls(Framed(values)) >= |values|
    ensures Nuls(Framed(values)) == |values| <==> forall i :: 0 <= i < |values| ==> NulFree(values[i])
    decreases |values|
  {
    if values != [] {
      var n := |values| - 1;
      FrameNuls(values[..n]);
      NulsAdd(Framed(values[..n]) + values[n], "\0");
      NulsAdd(Framed(values[..n]), values[n]);
      NulFreeIffNoNuls(values[n]);
      assert Nuls("\0") == 1 + Nuls("");
      assert forall i :: 0 <= i < n ==> values[..n][i] == values[i];
    }
  }

  /** A text that ends in a zero reaches no further than one that a NUL-free text follows. */
  lemma LastNulWithin(a: string, x: string, b: string, y: string)
    requires NulFree(x) && a + x == b + y && (b == "" || b[|b| - 1] == '\0')
    ensures |b| <= |a|
  {
    assert forall i :: |a| <= i < |a + x| ==> (a + x)[i] == x[i - |a|];
    assert b != "" ==> (b + y)[|b| - 1] == '\0';
  }

  lemma SplitAtLastNul(a: string, x: string, b: string, y: string)
    requires NulFree(x) && NulFree(y)
    requires a == "" || a[|a| - 1] == '\0'
    requires b == "" || b[|b| - 1] == '\0'
    requires a + x + "\0" == b + y + "\0"
    ensures a == b && x == y
  {
    assert a + x == b + y by {
      assert (a + x + "\0")[..|a + x|] == a + x && (b + y + "\0")[..|b + y|] == b + y;
    }
    LastNulWithin(a, x, b, y);
    LastNulWithin(b, y, a, x);
    assert (a + x)[..|a|] == a && (b + y)[..|b|] == b;
    assert (a + x)[|a|..] == x && (b + y)[|b|..] == y;
  }

  lemma FrameEndsInNul(values: seq<string>)
    ensures var f := Framed(values);
            f == "" || f[|f| - 1] == '\0'
  {
  }

  lemma {:induction false} NulFreeFramesInjective(a: seq<string>, b: seq<string>)
    requires |a| == |b| && Framed(a) == Framed(b)
    requires forall i :: 0 <= i < |a| ==> NulFree(a[i]) && NulFree(b[i])
    ensures a == b
    decreases |a|
  {
    if a != [] {
      var n := |a| - 1;
      FrameEndsInNul(a[..n]);
      FrameEndsInNul(b[..n]);
      SplitAtLastNul(Framed(a[..n]), a[n], Framed(b[..n]), b[n]);
      NulFreeFramesInjective(a[..n], b[..n]);
      assert a == a[..n] + [a[n]] && b == b[..n] + [b[n]];
    }
  }

  /**
   * A NUL-free identity never feeds the hash the same bytes as a different identity, even one that
   * holds NULs: different usernames then rest on SHA-256 alone.
   */
  lemma FramingInjective(a: seq<string>, b: seq<string>)
    requires |a| == |b| && Framed(a) == Framed(b)
    requires forall i :: 0 <= i < |a| ==> NulFree(a[i])
    ensures a == b
  {
    FrameNuls(a);
    FrameNuls(b);
    NulFreeFramesInjective(a, b);
  }

  /**
   * The bytes behind a username tell the credential and its target: whoever feeds the hash the same bytes
   * as a NUL-free identity has the same namespace and name, and the same provider, SurrealDB namespace,
   * database and level.
   */
  lemma SameBytesSameIdentity(namespace: string, name: string, target: PolicyTarget,
                              otherNamespace: string, otherName: string, other: PolicyTarget)
    requires NulFree(namespace) && NulFree(name) && NulFree(target.provider)
    requires NulFree(target.namespace) && NulFree(target.database) && NulFree(LevelText(target.level))
    requires Framed(Identity(namespace, name, target)) == Framed(Identity(otherNamespace, otherName, other))
    ensures otherNamespace == namespace && otherName == name && other.provider == target.provider
    ensures other.namespace == target.namespace && other.database == target.database && LevelText(other.level) == LevelText(target.level)
  {
    var a, b := Identity(namespace, name, target), Identity(otherNamespace, otherName, other);
    FramingInjective(a, b);
    assert a[0] == b[0] && a[1] == b[1] && a[2] == b[2] && a[3] == b[3] && a[4] == b[4] && a[5] == b[5];
  }

  lemma {:induction false} SameTailKeepsFrames(a: seq<string>, b: seq<string>, rest: seq<string>)
    requires Framed(a) == Framed(b)
    ensures Framed(a + rest) == Framed(b + rest)
    decreases |rest|
  {
    if rest == [] {
      assert a + rest == a && b + rest == b;
    } else {
      var n := |rest| - 1;
      SameTailKeepsFrames(a, b, rest[..n]);
      assert (a + rest)[..|a| + n] == a + rest[..n] && (b + rest)[..|b| + n] == b + rest[..n];
    }
  }

  lemma FramedPair(pre: seq<string>, u: string, v: string)
    ensures Framed(pre + [u, v]) == Framed(pre) + u + "\0" + v + "\0"
  {
    var s := pre + [u, v];
    assert s[..|pre| + 1] == pre + [u];
    assert (pre + [u])[..|pre|] == pre;
  }

  /** A NUL can stand for the end of a field or for itself. */
  lemma Resplit(pre: seq<string>, x: string, y: string, z: string, post: seq<string>)
    ensures Framed(pre + [x + "\0" + y, z] + post) == Framed(pre + [x, y + "\0" + z] + post)
  {
    FramedPair(pre, x + "\0" + y, z);
    FramedPair(pre, x, y + "\0" + z);
    var f, n := Framed(pre), "\0";
    assert f + (x + n + y) + n + z + n == f + x + n + (y + n + z) + n;
    SameTailKeepsFrames(pre + [x + "\0" + y, z], pre + [x, y + "\0" + z], post);
  }

  /** A list with a NUL in one of its fields, and another that feeds the hash the same bytes. */
  lemma ConfusedFraming(a: seq<string>, i: nat, k: nat) returns (b: seq<string>)
    requires |a| >= 2 && i < |a| && k < |a[i]| && a[i][k] == '\0'
    ensures |b| == |a| && b != a && Framed(b) == Framed(a)
  {
    var x, y := a[i][..k], a[i][k + 1..];
    assert a[i] == x + "\0" + y;
    if i + 1 < |a| {
      b := a[..i] + [x, y + "\0" + a[i + 1]] + a[i + 2..];
      Resplit(a[..i], x, y, a[i + 1], a[i + 2..]);
      assert a == a[..i] + [x + "\0" + y, a[i + 1]] + a[i + 2..];
    } else {
      b := a[..i - 1] + [a[i - 1] + "\0" + x, y];
      Resplit(a[..i - 1], a[i - 1], x, y, []);
      assert a == a[..i - 1] + [a[i - 1], x + "\0" + y] + [];
      assert b == a[..i - 1] + [a[i - 1] + "\0" + x, y] + [];
    }
    assert |b[i]| != |a[i]|;
  }

  /** No other list of as many fields feeds the hash the same bytes. */
  ghost predicate UniquelyFramed(a: seq<string>) {
    forall b :: |b| == |a| && Framed(b) == Framed(a) ==> b == a
  }

  /** Framing tells a list of fields apart from all others exactly when no field holds a NUL. */
  lemma UniquelyFramedIff(a: seq<string>)
    requires |a| >= 2
    ensures UniquelyFramed(a) <==> forall i :: 0 <= i < |a| ==> NulFree(a[i])
  {
    if i, k :| 0 <= i < |a| && 0 <= k < |a[i]| && a[i][k] == '\0' {
      var b := ConfusedFraming(a, i, k);
      assert !NulFree(a[i]);
    } else {
      forall b | |b| == |a| && Framed(b) == Framed(a)
        ensures b == a
      {
        FramingInjective(a, b);
      }
    }
  }
}
