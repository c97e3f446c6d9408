/** Keeping passwords out of error messages: redactPasswordError in internal/surreal/client.go. */
module Redaction {
  import opened Platform
  import opened Text
  import opened Passwords

  const MARKER: string := "[redacted]"

  function Redact(lib: Libraries, message: string, password: string): string {
    if password == "" then message
    else ReplaceAll(ReplaceAll(message, Quote(lib, password), MARKER), password, MARKER)
  }

  predicate Bracketed(s: string) {
    '[' in s || ']' in s
  }

  /** A replaced text keeps the original characters up to its first opening bracket. */
  lemma {:induction false} KeptPrefix(s: string, p: string, n: nat)
    requires p != ""
    requires n <= |ReplaceAll(s, p, MARKER)| && '[' !in ReplaceAll(s, p, MARKER)[..n]
    ensures n <= |s| && s[..n] == ReplaceAll(s, p, MARKER)[..n]
    decreases |s|
  {
    var r := ReplaceAll(s, p, MARKER);
    if s == "" || n == 0 {
    } else {
      assert r[0] in r[..n];
      assert !(p <= s);
      var tail := ReplaceAll(s[1..], p, MARKER);
      assert r[..n] == [s[0]] + tail[..n - 1];
      KeptPrefix(s[1..], p, n - 1);
      assert s[..n] == [s[0]] + s[1..][..n - 1];
    }
  }

  /** No position of the replaced text starts an occurrence of the password. */
  lemma {:induction false} NoOccurrenceAt(s: string, p: string, at: nat)
    requires p != "" && !Bracketed(p) && !Occurs(p, "redacted")
    ensures !OccursAt(p, ReplaceAll(s, p, MARKER), at)
    decreases |s|
  {
    var r := ReplaceAll(s, p, MARKER);
    if OccursAt(p, r, at) {
      if s == "" {
        assert false;
      } else if p <= s {
        var tail := ReplaceAll(s[|p|..], p, MARKER);
        if at >= |MARKER| {
          assert tail[at - |MARKER|..at - |MARKER| + |p|] == p;
          NoOccurrenceAt(s[|p|..], p, at - |MARKER|);
        } else {
          MarkerBrackets();
          OccurrenceInBrackets(p, "redacted", tail, at);
        }
      } else {
        var tail := ReplaceAll(s[1..], p, MARKER);
        assert r == [s[0]] + tail;
        if at > 0 {
          assert tail[at - 1..at - 1 + |p|] == p;
          NoOccurrenceAt(s[1..], p, at - 1);
        } else {
          assert p == [s[0]] + tail[..|p| - 1];
          assert forall i :: 0 <= i < |p| - 1 ==> tail[i] == p[i + 1];
          KeptPrefix(s[1..], p, |p| - 1);
          PrefixFromTail(s, p);
        }
      }
    }
  }

  lemma PrefixFromTail(s: string, p: string)
    requires p != "" && s != "" && |p| <= |s|
    requires p[0] == s[0] && p[1..] == s[1..][..|p| - 1]
    ensures p <= s
  {
    assert forall i :: 1 <= i < |p| ==> p[i] == p[1..][i - 1] == s[1..][i - 1];
  }

  /** A bracket-free occurrence that starts inside a bracketed word lies inside that word. */
  lemma OccurrenceInBrackets(p: string, word: string, tail: string, at: nat)
    requires p != "" && !Bracketed(p) && at < |word| + 2
    requires OccursAt(p, "[" + word + "]" + tail, at)
    ensures Occurs(p, word)
  {
    var whole := "[" + word + "]" + tail;
    var close := |word| + 1;
    assert forall j :: at <= j < at + |p| ==> whole[j] == p[j - at] && p[j - at] in p;
    assert whole[0] == '[' && whole[close] == ']';
    assert whole[at] != '[' && at + |p| <= close;
    assert word[at - 1..at - 1 + |p|] == p;
    assert OccursAt(p, word, at - 1);
  }

  lemma MarkerBrackets()
    ensures MARKER == "[" + "redacted" + "]"
  {
  }

  /**
   * For bracket-free passwords, every redacted message is free of the password, even where kept text
   * meets an inserted marker, exactly when the password is no part of the word "redacted".
   */
  lemma RedactionCompleteIff(lib: Libraries, password: string)
    requires password != "" && !Bracketed(password)
    ensures (forall message :: !Occurs(password, Redact(lib, message, password))) <==> !Occurs(password, "redacted")
  {
    if Occurs(password, "redacted") {
      MarkerSurvives(lib, password);
    } else {
      forall message
        ensures !Occurs(password, Redact(lib, message, password))
      {
        forall at: nat
          ensures !OccursAt(password, Redact(lib, message, password), at)
        {
          NoOccurrenceAt(ReplaceAll(message, Quote(lib, password), MARKER), password, at);
        }
      }
    }
  }

  /** A part of the word "redacted" reappears in the marker that replaces it. */
  lemma MarkerSurvives(lib: Libraries, password: string)
    requires password != "" && !Bracketed(password) && Occurs(password, "redacted")
    ensures Occurs(password, Redact(lib, password, password))
  {
    QuoteIsLonger(lib, password);
    ShortTextKept(password, Quote(lib, password), lib);
    assert password[|password|..] == "" && ReplaceAll("", password, MARKER) == "";
    assert Redact(lib, password, password) == MARKER + "" == MARKER;
    MarkerBrackets();
    var at: nat :| OccursAt(password, "redacted", at);
    InsideBrackets(password, "redacted", at);
  }

  lemma InsideBrackets(p: string, word: string, at: nat)
    requires OccursAt(p, word, at)
    ensures Occurs(p, "[" + word + "]")
  {
    assert ("[" + word + "]")[at + 1..at + 1 + |p|] == word[at..at + |p|];
    assert OccursAt(p, "[" + word + "]", at + 1);
  }

  lemma QuoteIsLonger(lib: Libraries, p: string)
    ensures |Quote(lib, p)| > |p|
  {
    assert |Quote(lib, p)| == 2 + |QuoteBody(lib, p)|;
    BodyIsLonger(lib, p);
  }

  lemma {:induction false} BodyIsLonger(lib: Libraries, p: string)
    ensures |QuoteBody(lib, p)| >= |p|
  {
    if p != "" {
      BodyIsLonger(lib, p[1..]);
    }
  }

  /** A text shorter than the pattern is left alone. */
  lemma {:induction false} ShortTextKept(s: string, pattern: string, lib: Libraries)
    requires |s| < |pattern|
    ensures ReplaceAll(s, pattern, MARKER) == s
    decreases |s|
  {
    if s != "" {
      ShortTextKept(s[1..], pattern, lib);
    }
  }

  // ----- the quoted form -----

  lemma KeptStart(s: string, p: string, x: string)
    requires p != "" && !Bracketed(x) && OccursAt(x, ReplaceAll(s, p, MARKER), 0)
    ensures OccursAt(x, s, 0)
  {
    var r := ReplaceAll(s, p, MARKER);
    assert forall i :: 0 <= i < |x| ==> r[i] == x[i] && x[i] in x;
    KeptPrefix(s, p, |x|);
  }

  /** Replacing a pattern by the marker makes no new occurrence of a bracket-free text outside the marker's word. */
  lemma {:induction false} NoNewOccurrence(s: string, p: string, x: string, at: nat)
    requires p != "" && x != "" && !Bracketed(x) && !Occurs(x, "redacted") && !Occurs(x, s)
    ensures !OccursAt(x, ReplaceAll(s, p, MARKER), at)
    decreases |s|
  {
    var r := ReplaceAll(s, p, MARKER);
    if OccursAt(x, r, at) {
      if s == "" {
        assert false;
      } else if p <= s {
        var tail := ReplaceAll(s[|p|..], p, MARKER);
        if at >= |MARKER| {
          assert tail[at - |MARKER|..at - |MARKER| + |x|] == x;
          AbsentFromRest(s, x, |p|);
          NoNewOccurrence(s[|p|..], p, x, at - |MARKER|);
        } else {
          MarkerBrackets();
          OccurrenceInBrackets(x, "redacted", tail, at);
        }
      } else if at > 0 {
        var tail := ReplaceAll(s[1..], p, MARKER);
        assert tail[at - 1..at - 1 + |x|] == x;
        AbsentFromRest(s, x, 1);
        NoNewOccurrence(s[1..], p, x, at - 1);
      } else {
        KeptStart(s, p, x);
      }
    }
  }

  lemma AbsentFromRest(s: string, x: string, n: nat)
    requires n <= |s| && !Occurs(x, s)
    ensures !Occurs(x, s[n..])
  {
    forall at: nat | OccursAt(x, s[n..], at)
      ensures OccursAt(x, s, at + n)
    {
      assert s[n..][at..at + |x|] == s[at + n..at + n + |x|];
    }
  }

  lemma ControlPlain(lib: Libraries, c: char)
    requires (c as int) < 32
    ensures !Bracketed(QuoteChar(lib, c))
  {
    HexPlain(c as int, 2);
  }

  lemma AsciiPlain(lib: Libraries, c: char)
    requires 32 <= (c as int) < 128 && c != '[' && c != ']'
    ensures !Bracketed(QuoteChar(lib, c))
  {
    HexPlain(c as int, 2);
  }

  lemma UnicodePlain(lib: Libraries, c: char)
    requires 128 <= (c as int)
    ensures !Bracketed(QuoteChar(lib, c))
  {
    HexPlain(c as int, 4);
    HexPlain(c as int, 8);
  }

  lemma QuotedCharPlain(lib: Libraries, c: char)
    requires c != '[' && c != ']'
    ensures !Bracketed(QuoteChar(lib, c))
  {
    if (c as int) < 32 {
      ControlPlain(lib, c);
    } else if (c as int) < 128 {
      AsciiPlain(lib, c);
    } else {
      UnicodePlain(lib, c);
    }
  }

  lemma {:induction false} HexPlain(n: nat, width: nat)
    ensures !Bracketed(Hex(n, width))
    decreases width
  {
    if width > 0 {
      HexPlain(n / 16, width - 1);
    }
  }

  /** Quoting adds no brackets. */
  lemma {:induction false} QuotedBodyPlain(lib: Libraries, p: string)
    requires !Bracketed(p)
    ensures !Bracketed(QuoteBody(lib, p))
  {
    if p != "" {
      assert p[0] in p;
      assert forall c :: c in p[1..] ==> c in p;
      QuotedCharPlain(lib, p[0]);
      QuotedBodyPlain(lib, p[1..]);
    }
  }

  lemma OccurrenceStarts(s: string, p: string, at: nat)
    ensures p != "" && OccursAt(p, s, at) ==> p[0] in s
  {
    if p != "" && OccursAt(p, s, at) {
      assert s[at] == s[at..at + |p|][0];
    }
  }

  lemma WithoutQuoteMark(s: string, p: string)
    requires p != "" && p[0] !in s
    ensures !Occurs(p, s)
  {
    forall at: nat
      ensures !OccursAt(p, s, at)
    {
      OccurrenceStarts(s, p, at);
    }
  }

  lemma QuotedIsNoWord(lib: Libraries, p: string)
    ensures !Occurs(Quote(lib, p), "redacted")
  {
    WithoutQuoteMark("redacted", Quote(lib, p));
  }

  /**
   * The quoted form, in which the query's own text carries the password, is gone from every redacted
   * message, whatever the password escapes and whether or not it is part of the marker's word.
   */
  lemma QuotedFormNeverSurvives(lib: Libraries, message: string, password: string)
    requires password != "" && !Bracketed(password)
    ensures !Occurs(Quote(lib, password), Redact(lib, message, password))
  {
    var q := Quote(lib, password);
    var once := ReplaceAll(message, q, MARKER);
    QuotedBodyPlain(lib, password);
    QuotedIsNoWord(lib, password);
    forall at: nat
      ensures !OccursAt(q, once, at)
    {
      NoOccurrenceAt(message, q, at);
    }
    forall at: nat
      ensures !OccursAt(q, Redact(lib, message, password), at)
    {
      NoNewOccurrence(once, password, q, at);
    }
  }

  // ----- what a redacted mention looks like -----

  lemma {:induction false} FirstReplaced(pre: string, p: string, post: string)
    requires p != "" && forall i :: 0 <= i < |pre| ==> pre[i] != p[0]
    ensures ReplaceAll(pre + p + post, p, MARKER) == pre + MARKER + ReplaceAll(post, p, MARKER)
    decreases |pre|
  {
    var s := pre + p + post;
    if pre == "" {
      assert s == p + post && s[..|p|] == p && s[|p|..] == post;
    } else {
      assert s[0] == pre[0] && s[1..] == pre[1..] + p + post;
      FirstReplaced(pre[1..], p, post);
      assert [pre[0]] + (pre[1..] + MARKER + ReplaceAll(post, p, MARKER)) == pre + MARKER + ReplaceAll(post, p, MARKER);
    }
  }

  /** A bracket-free text in a text with a marker lies in one of its three parts. */
  lemma OccurrenceAroundMarker(pre: string, post: string, x: string, at: nat)
    requires x != "" && !Bracketed(x) && OccursAt(x, pre + MARKER + post, at)
    ensures Occurs(x, pre) || Occurs(x, "redacted") || Occurs(x, post)
  {
    var whole := pre + MARKER + post;
    var n := |pre|;
    assert forall j :: at <= j < at + |x| ==> whole[j] == x[j - at] && x[j - at] in x;
    assert whole[n] == '[';
    if at + |x| <= n {
      assert pre[at..at + |x|] == x;
      assert OccursAt(x, pre, at);
    } else if at < n {
      assert false;
    } else if at < n + |MARKER| {
      MarkerBrackets();
      assert (MARKER + post)[at - n..at - n + |x|] == x;
      OccurrenceInBrackets(x, "redacted", post, at - n);
    } else {
      assert post[at - n - |MARKER|..at - n - |MARKER| + |x|] == x;
      assert OccursAt(x, post, at - n - |MARKER|);
    }
  }

  /** A message that mentions the password once, in quotes: one marker stands for it, quotes included. */
  lemma QuotedMentionBecomesMarker(lib: Libraries, pre: string, post: string, password: string)
    requires password != "" && !Bracketed(password) && !Occurs(password, "redacted")
    requires '\"' !in pre && '\"' !in post && !Occurs(password, pre) && !Occurs(password, post)
    ensures Redact(lib, pre + Quote(lib, password) + post, password) == pre + MARKER + post
  {
    var q := Quote(lib, password);
    FirstReplaced(pre, q, post);
    WithoutQuoteMark(post, q);
    ReplaceAllAbsent(post, q, MARKER);
    if at: nat :| OccursAt(password, pre + MARKER + post, at) {
      OccurrenceAroundMarker(pre, post, password, at);
    }
    ReplaceAllAbsent(pre + MARKER + post, password, MARKER);
  }

  /** Every generated password is redacted completely from every message. */
  lemma GeneratedPasswordsNeverLeak(lib: Libraries, message: string, password: string)
    requires Generated(password)
    ensures !Occurs(password, Redact(lib, message, password))
  {
    AlphabetPrints(lib, password);
    assert !Occurs(password, "redacted");
    RedactionCompleteIff(lib, password);
  }

  /** A message that mentions the password in neither form is passed on unchanged, and so is any without a password. */
  lemma CleanMessagesKept(lib: Libraries, message: string, password: string)
    requires password == "" || (!Occurs(password, message) && !Occurs(Quote(lib, password), message))
    ensures Redact(lib, message, password) == message
  {
    if password != "" {
      ReplaceAllAbsent(message, Quote(lib, password), MARKER);
      ReplaceAllAbsent(message, password, MARKER);
    }
  }
}
