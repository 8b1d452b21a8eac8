/**
 * The Python string primitives the scraper's normalizers are built from:
 * `str.isspace`, `str.split()` with no argument, `" ".join`, `str.strip()`,
 * the `in` operator on strings, `str.replace` and `str.lower()` as far as the
 * scraper's tests need it.
 */
module Text {

  import opened Wrappers

  /** Python's `str.isspace()` on one character: the separators `str.split()` and `strip()` use. */
  predicate IsSpace(c: char) {
    || c == ' '
    || ('\t' <= c <= '\r')
    || ('\U{1C}' <= c <= '\U{1F}')
    || c == '\U{85}' || c == '\U{A0}' || c == '\U{1680}'
    || ('\U{2000}' <= c <= '\U{200A}')
    || c == '\U{2028}' || c == '\U{2029}' || c == '\U{202F}' || c == '\U{205F}' || c == '\U{3000}'
  }

  /** A decimal digit, as the regular expression class `\d` is used here (ASCII digits). */
  predicate IsDigit(c: char) {
    '0' <= c <= '9'
  }

  /** Python's `t in s` on strings. */
  predicate Contains(s: string, t: string) {
    exists i | 0 <= i <= |s| :: t <= s[i..]
  }

  lemma ContainsAt(s: string, t: string, i: nat)
    requires i <= |s| && t <= s[i..]
    ensures Contains(s, t)
  {
  }

  /** A text contains nothing longer than itself. */
  lemma ContainsLength(s: string, t: string)
    requires Contains(s, t)
    ensures |t| <= |s|
  {
    var i :| 0 <= i <= |s| && t <= s[i..];
  }

  /** An occurrence survives putting more text in front of it. */
  lemma ContainsPrepend(u: string, s: string, t: string)
    requires Contains(s, t)
    ensures Contains(u + s, t)
  {
    var i :| 0 <= i <= |s| && t <= s[i..];
    assert (u + s)[|u| + i..] == s[i..];
    ContainsAt(u + s, t, |u| + i);
  }

  /** An occurrence is either at the front or in the rest. */
  lemma ContainsStep(s: string, t: string)
    requires s != []
    ensures Contains(s, t) <==> t <= s || Contains(s[1..], t)
  {
    if Contains(s[1..], t) {
      ContainsPrepend([s[0]], s[1..], t);
      assert [s[0]] + s[1..] == s;
    }
    if Contains(s, t) && !(t <= s) {
      var i :| 0 <= i <= |s| && t <= s[i..];
      assert s[i..] == s[1..][i - 1..];
      ContainsAt(s[1..], t, i - 1);
    }
    if t <= s {
      ContainsAt(s, t, 0);
    }
  }

  // ---------------------------------------------------------------------------
  // str.split(), " ".join, str.strip()
  // ---------------------------------------------------------------------------

  /** A word of `str.split()`: non-empty and free of whitespace. */
  predicate IsWord(w: string) {
    w != [] && forall i | 0 <= i < |w| :: !IsSpace(w[i])
  }

  /** Length of the longest whitespace-free prefix of `s`. */
  function WordLength(s: string): (n: nat)
    ensures n <= |s|
    ensures forall i | 0 <= i < n :: !IsSpace(s[i])
    ensures n < |s| ==> IsSpace(s[n])
  {
    if s == [] || IsSpace(s[0]) then 0 else 1 + WordLength(s[1..])
  }

  /** Python's `s.split()`: the maximal whitespace-free runs of `s`, in order. */
  function Words(s: string): (ws: seq<string>)
    ensures forall k | 0 <= k < |ws| :: IsWord(ws[k])
    ensures ws == [] <==> forall i | 0 <= i < |s| :: IsSpace(s[i])
    decreases |s|
  {
    if s == [] then []
    else if IsSpace(s[0]) then Words(s[1..])
    else
      var n := WordLength(s);
      [s[..n]] + Words(s[n..])
  }

  /** Python's `" ".join(ws)`. */
  function JoinWords(ws: seq<string>): string {
    if ws == [] then ""
    else if |ws| == 1 then ws[0]
    else ws[0] + " " + JoinWords(ws[1..])
  }

  /** Python's `s.lstrip()`. */
  function TrimStart(s: string): string {
    if s != [] && IsSpace(s[0]) then TrimStart(s[1..]) else s
  }

  /** Python's `s.rstrip()`. */
  function TrimEnd(s: string): string {
    if s != [] && IsSpace(s[|s| - 1]) then TrimEnd(s[..|s| - 1]) else s
  }

  /** Python's `s.strip()`. */
  function Strip(s: string): string {
    TrimEnd(TrimStart(s))
  }

  /**
   * The shape `clean_text` promises: every whitespace character is a plain
   * space, there is none at either end, and no two spaces are adjacent.
   */
  predicate Normalized(t: string) {
    && (forall i | 0 <= i < |t| :: IsSpace(t[i]) ==> t[i] == ' ')
    && (t != [] ==> t[0] != ' ' && t[|t| - 1] != ' ')
    && (forall i | 0 <= i < |t| - 1 :: t[i] == ' ' ==> t[i + 1] != ' ')
  }

  /** Joining words with single spaces gives a normalized string that starts and ends inside a word. */
  lemma {:induction false} JoinNormalized(ws: seq<string>)
    requires forall k | 0 <= k < |ws| :: IsWord(ws[k])
    ensures Normalized(JoinWords(ws))
    ensures ws != [] ==> JoinWords(ws) != [] && JoinWords(ws)[0] == ws[0][0]
  {
    if |ws| > 1 {
      var w, rest := ws[0], JoinWords(ws[1..]);
      JoinNormalized(ws[1..]);
      var t := w + " " + rest;
      assert JoinWords(ws) == t;
      assert t[|t| - 1] == rest[|rest| - 1];
      forall i | 0 <= i < |t|
        ensures IsSpace(t[i]) ==> t[i] == ' '
      {
        if i > |w| {
          assert t[i] == rest[i - |w| - 1];
        }
      }
      forall i | 0 <= i < |t| - 1
        ensures t[i] == ' ' ==> t[i + 1] != ' '
      {
        if i > |w| {
          assert t[i] == rest[i - |w| - 1] && t[i + 1] == rest[i - |w|];
        } else if i == |w| {
          assert t[i + 1] == rest[0];
        }
      }
    }
  }

  /** A word followed by whitespace (or nothing) is the first word of the split. */
  lemma WordsOfWordThen(w: string, t: string)
    requires IsWord(w)
    requires t == [] || IsSpace(t[0])
    ensures Words(w + t) == [w] + Words(t)
  {
    var s := w + t;
    var n := WordLength(s);
    assert forall i | 0 <= i < |w| :: s[i] == w[i];
    assert |w| < |s| ==> s[|w|] == t[0];
    assert n == |w|;
    assert s[..n] == w && s[n..] == t;
  }

  /** A single word splits to itself. */
  lemma WordsOfWord(w: string)
    requires IsWord(w)
    ensures Words(w) == [w]
  {
    WordsOfWordThen(w, "");
    assert w + "" == w;
  }

  /**
   * A whitespace character separates: the words of `u`, a whitespace
   * character, then `v` are the words of `u` followed by those of `v`.
   * Together with `WordsOfWord` this fixes `Words` on every input.
   */
  lemma WordsSplitAtSpace(u: string, c: char, v: string)
    requires IsSpace(c)
    ensures Words(u + [c] + v) == Words(u) + Words(v)
  {
    var t := [c] + v;
    assert u + [c] + v == u + t;
    assert t[1..] == v;
    WordsBeforeSpace(u, t);
  }

  /** `WordsSplitAtSpace` with the whitespace character and what follows it as one string `t`. */
  lemma {:induction false} WordsBeforeSpace(u: string, t: string)
    requires t != [] && IsSpace(t[0])
    ensures Words(u + t) == Words(u) + Words(t[1..])
    decreases |u|
  {
    if u == [] {
      assert u + t == t;
    } else if IsSpace(u[0]) {
      WordsBeforeSpace(u[1..], t);
      LeadingSpaceStep(u, t);
    } else if WordLength(u) < |u| {
      WordsBeforeSpace(u[WordLength(u)..], t);
      LeadingWordStep(u, t);
    } else {
      WordsOfWordThen(u, t);
      WordsOfWord(u);
    }
  }

  lemma LeadingSpaceStep(u: string, t: string)
    requires u != [] && IsSpace(u[0]) && t != []
    requires Words(u[1..] + t) == Words(u[1..]) + Words(t[1..])
    ensures Words(u + t) == Words(u) + Words(t[1..])
  {
    WordsPastLeadingSpace(u, t);
    WordsDropSpace(u);
  }

  lemma WordsPastLeadingSpace(u: string, t: string)
    requires u != [] && IsSpace(u[0])
    ensures Words(u + t) == Words(u[1..] + t)
  {
    assert (u + t)[1..] == u[1..] + t;
  }

  lemma LeadingWordStep(u: string, t: string)
    requires u != [] && !IsSpace(u[0]) && WordLength(u) < |u| && t != []
    requires Words(u[WordLength(u)..] + t) == Words(u[WordLength(u)..]) + Words(t[1..])
    ensures Words(u + t) == Words(u) + Words(t[1..])
  {
    WordsAfterFirstWord(u, t);
    WordsOfLeadingWord(u);
    AppendAssociative([u[..WordLength(u)]], Words(u[WordLength(u)..]), Words(t[1..]));
  }

  lemma AppendAssociative<T>(a: seq<T>, b: seq<T>, c: seq<T>)
    ensures a + (b + c) == a + b + c
  {
  }

  lemma WordsOfLeadingWord(u: string)
    requires u != [] && !IsSpace(u[0])
    ensures Words(u) == [u[..WordLength(u)]] + Words(u[WordLength(u)..])
  {
  }

  lemma WordsDropSpace(s: string)
    requires s != [] && IsSpace(s[0])
    ensures Words(s) == Words(s[1..])
  {
  }

  /** A word that ends before the end of `u` is also the first word of `u + t`. */
  lemma WordsAfterFirstWord(u: string, t: string)
    requires u != [] && !IsSpace(u[0]) && WordLength(u) < |u|
    ensures Words(u + t) == [u[..WordLength(u)]] + Words(u[WordLength(u)..] + t)
  {
    var s, m := u + t, WordLength(u);
    assert forall i | 0 <= i <= m :: s[i] == u[i];
    assert WordLength(s) == m;
    assert s[..m] == u[..m];
    assert s[m..] == u[m..] + t;
  }

  /** Round trip: splitting words joined by single spaces gives the words back. */
  lemma {:induction false} WordsOfJoin(ws: seq<string>)
    requires forall k | 0 <= k < |ws| :: IsWord(ws[k])
    ensures Words(JoinWords(ws)) == ws
  {
    if |ws| == 1 {
      WordsOfWordThen(ws[0], "");
      assert ws[0] + "" == ws[0];
    } else if |ws| > 1 {
      var rest := JoinWords(ws[1..]);
      WordsOfJoin(ws[1..]);
      WordsOfWordThen(ws[0], " " + rest);
      assert JoinWords(ws) == ws[0] + (" " + rest);
      assert (" " + rest)[1..] == rest;
      assert [ws[0]] + ws[1..] == ws;
    }
  }

  /** Round trip the other way: a normalized string is the join of its own words. */
  lemma {:induction false} JoinWordsOfNormalized(t: string)
    requires Normalized(t)
    ensures JoinWords(Words(t)) == t
    decreases |t|
  {
    if t != [] {
      var n := WordLength(t);
      if n == |t| {
        WordsOfWord(t);
      } else {
        NormalizedAfterWord(t, n);
        JoinWordsOfNormalized(t[n + 1..]);
        WordsOfNormalizedStep(t, n);
        JoinWordsCons(t[..n], Words(t[n + 1..]));
        SplitAroundSpace(t, n);
      }
    }
  }

  lemma JoinWordsCons(w: string, ws: seq<string>)
    requires ws != []
    ensures JoinWords([w] + ws) == w + " " + JoinWords(ws)
  {
    assert ([w] + ws)[1..] == ws;
  }

  lemma SplitAroundSpace(t: string, n: nat)
    requires n < |t| && t[n] == ' '
    ensures t == t[..n] + " " + t[n + 1..]
  {
  }

  /** A normalized text that does not end after its first word: that word, one space, and the rest. */
  lemma WordsOfNormalizedStep(t: string, n: nat)
    requires Normalized(t) && n == WordLength(t) < |t|
    ensures t[n] == ' ' && n + 1 < |t| && !IsSpace(t[n + 1])
    ensures Words(t) == [t[..n]] + Words(t[n + 1..]) && Words(t[n + 1..]) != []
  {
    NormalizedAfterWord(t, n);
    WordsAtSpace(t, n);
    WordsOfWord(t[..n]);
  }

  /** `WordsSplitAtSpace` with the whitespace character given by its index. */
  lemma WordsAtSpace(t: string, n: nat)
    requires n < |t| && IsSpace(t[n])
    ensures Words(t) == Words(t[..n]) + Words(t[n + 1..])
  {
    WordsAtSpaceTail(t, n);
    WordsBeforeSpace(t[..n], t[n..]);
  }

  lemma WordsAtSpaceTail(t: string, n: nat)
    requires n < |t|
    ensures Words(t) == Words(t[..n] + t[n..]) && t[n..][1..] == t[n + 1..] && t[n..][0] == t[n]
  {
    assert t[..n] + t[n..] == t;
  }

  lemma NormalizedAfterWord(t: string, n: nat)
    requires Normalized(t) && n == WordLength(t) < |t|
    ensures t[n] == ' ' && n + 1 < |t|
    ensures Normalized(t[n + 1..]) && !IsSpace(t[n + 1])
  {
    var u := t[n + 1..];
    forall i | 0 <= i < |u|
      ensures IsSpace(u[i]) ==> u[i] == ' '
    {
      assert u[i] == t[n + 1 + i];
    }
    forall i | 0 <= i < |u| - 1
      ensures u[i] == ' ' ==> u[i + 1] != ' '
    {
      assert u[i] == t[n + 1 + i] && u[i + 1] == t[n + 2 + i];
    }
  }

  /** `strip()` leaves a string alone when it neither starts nor ends with whitespace. */
  lemma StripUntrimmed(t: string)
    requires t == [] || (!IsSpace(t[0]) && !IsSpace(t[|t| - 1]))
    ensures Strip(t) == t
  {
  }

  // ---------------------------------------------------------------------------
  // clean_text
  // ---------------------------------------------------------------------------

  /**
   * `clean_text` (scrape_bestsellers_updated.py:85-90): `" ".join(s.split()).strip()`,
   * with the empty string mapped to itself. `CleanTextSpec` states what it
   * computes.
   */
  function CleanText(s: string): string {
    if s == "" then "" else Strip(JoinWords(Words(s)))
  }

  /**
   * The result of `clean_text` is normalized, keeps exactly the words of the
   * input, and is empty exactly when the input is all whitespace.
   */
  lemma CleanTextSpec(s: string)
    ensures Normalized(CleanText(s))
    ensures Words(CleanText(s)) == Words(s)
    ensures CleanText(s) == "" <==> forall i | 0 <= i < |s| :: IsSpace(s[i])
  {
    if s != "" {
      var joined := JoinWords(Words(s));
      JoinNormalized(Words(s));
      WordsOfJoin(Words(s));
      StripUntrimmed(joined);
    }
  }

  /** `clean_text` of a value that may be None (an absent attribute): None gives "". */
  function CleanOpt(s: Option<string>): string {
    match s
    case None => ""
    case Some(v) => CleanText(v)
  }

  /** A cleaned optional value is normalized, and empty exactly when it is absent or all whitespace. */
  lemma CleanOptSpec(s: Option<string>)
    ensures Normalized(CleanOpt(s))
    ensures CleanOpt(s) == "" <==> s.None? || forall i | 0 <= i < |s.value| :: IsSpace(s.value[i])
  {
    if s.Some? {
      CleanTextSpec(s.value);
    }
  }

  /** The fixed points of `clean_text` are exactly the normalized strings. */
  lemma CleanTextFixedPoint(t: string)
    ensures CleanText(t) == t <==> Normalized(t)
  {
    CleanTextSpec(t);
    if Normalized(t) && t != "" {
      JoinWordsOfNormalized(t);
      StripUntrimmed(t);
    }
  }

  /** `clean_text` is idempotent. */
  lemma CleanTextIdempotent(s: string)
    ensures CleanText(CleanText(s)) == CleanText(s)
  {
    CleanTextSpec(s);
    CleanTextFixedPoint(CleanText(s));
  }

  /** Two inputs with the same words clean to the same text. */
  lemma CleanTextDeterminedByWords(s: string, t: string)
    requires Words(s) == Words(t)
    ensures CleanText(s) == CleanText(t)
  {
    var a, b := CleanText(s), CleanText(t);
    CleanTextSpec(s);
    CleanTextSpec(t);
    JoinWordsOfNormalized(a);
    JoinWordsOfNormalized(b);
  }

  // ---------------------------------------------------------------------------
  // str.lower() for the containment tests of the scraper
  // ---------------------------------------------------------------------------

  /**
   * Lower-casing of one character, for ASCII letters. Under Python's full
   * `str.lower()` no other character lower-cases to one of the ASCII letters
   * the scraper searches for ("star", "rating"), so a containment test of such
   * a word in `s.lower()` is decided by this mapping.
   */
  function LowerChar(c: char): (d: char)
    ensures 'A' <= c <= 'Z' ==> d as int == c as int + 32
    ensures !('A' <= c <= 'Z') ==> d == c
  {
    if 'A' <= c <= 'Z' then (c as int + 32) as char else c
  }

  function Lower(s: string): (r: string)
    ensures |r| == |s| && forall i | 0 <= i < |s| :: r[i] == LowerChar(s[i])
  {
    seq(|s|, i requires 0 <= i < |s| => LowerChar(s[i]))
  }

  // ---------------------------------------------------------------------------
  // str.replace
  // ---------------------------------------------------------------------------

  /**
   * Python's `s.replace(pat, rep)` for a non-empty pattern: scans left to
   * right and rewrites every non-overlapping occurrence.
   */
  function ReplaceAll(s: string, pat: string, rep: string): (r: string)
    requires pat != []
    ensures |pat| == |rep| ==> |r| == |s|
    decreases |s|
  {
    if |s| < |pat| then s
    else if pat <= s then rep + ReplaceAll(s[|pat|..], pat, rep)
    else [s[0]] + ReplaceAll(s[1..], pat, rep)
  }

  /** With no occurrence of the pattern, `replace` changes nothing. */
  lemma {:induction false} ReplaceAllAbsent(s: string, pat: string, rep: string)
    requires pat != [] && !Contains(s, pat)
    ensures ReplaceAll(s, pat, rep) == s
    decreases |s|
  {
    if |s| >= |pat| {
      assert !(pat <= s[0..]);
      assert s[0..] == s;
      ReplaceAllAbsent(s[1..], pat, rep);
    }
  }

  /**
   * With an occurrence of the pattern and a different replacement of the same
   * length, `replace` changes the string and the replacement occurs in it.
   */
  lemma {:induction false} ReplaceAllPresent(s: string, pat: string, rep: string)
    requires pat != [] && |rep| == |pat| && rep != pat && Contains(s, pat)
    ensures ReplaceAll(s, pat, rep) != s
    ensures Contains(ReplaceAll(s, pat, rep), rep)
    decreases |s|
  {
    var i :| 0 <= i <= |s| && pat <= s[i..];
    var r := ReplaceAll(s, pat, rep);
    if pat <= s {
      assert r[..|pat|] == rep && s[..|pat|] == pat;
      ContainsAt(r, rep, 0);
    } else {
      assert i > 0;
      assert s[1..][i - 1..] == s[i..];
      ContainsAt(s[1..], pat, i - 1);
      ReplaceAllPresent(s[1..], pat, rep);
      var rest := ReplaceAll(s[1..], pat, rep);
      assert r == [s[0]] + rest;
      assert r[1..] == rest && s[1..] != rest;
      ContainsPrepend([s[0]], rest, rep);
    }
  }
}
