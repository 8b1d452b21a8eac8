/**
 * The field normalizers applied to every extracted record
 * (scrape_bestsellers_updated.py:142-178): total, pure functions over strings.
 */
module Normalize {

  import opened Wrappers
  import opened Text

  /** Longest product name kept (scrape_bestsellers_updated.py:156). */
  const MaxNameLength: nat := 500
  /** Longest rating text kept (scrape_bestsellers_updated.py:171). */
  const MaxRatingLength: nat := 100
  /** The marker a product link must contain (scrape_bestsellers_updated.py:161). */
  const ProductPathMarker: string := "/dp/"

  function Min(a: nat, b: nat): nat {
    if a <= b then a else b
  }

  // ---------------------------------------------------------------------------
  // clean_rank: re.search(r"#?(\d+)", text)
  // ---------------------------------------------------------------------------

  /** Length of the run of digits at the start of `s`. */
  function DigitRun(s: string): (n: nat)
    ensures n <= |s|
    ensures forall i | 0 <= i < n :: IsDigit(s[i])
    ensures n < |s| ==> !IsDigit(s[n])
  {
    if s != [] && IsDigit(s[0]) then 1 + DigitRun(s[1..]) else 0
  }

  /** The pattern `#?(\d+)` tried at the start of `s`: its group 1 when it matches there. */
  function RankMatchHere(s: string): Option<string> {
    if |s| >= 2 && s[0] == '#' && IsDigit(s[1]) then Some(s[1..][..DigitRun(s[1..])])
    else if s != [] && IsDigit(s[0]) then Some(s[..DigitRun(s)])
    else None
  }

  /** `re.search(r"#?(\d+)", s)`: group 1 of the match at the leftmost position where there is one. */
  function SearchRank(s: string): (g: Option<string>)
    ensures g.None? <==> forall i | 0 <= i < |s| :: !IsDigit(s[i])
    ensures g.Some? ==> g.value != [] && forall i | 0 <= i < |g.value| :: IsDigit(g.value[i])
    decreases |s|
  {
    if s == [] then None
    else
      match RankMatchHere(s)
      case Some(group) => Some(group)
      case None => SearchRank(s[1..])
  }

  /** `s[j..k]` is the first maximal run of digits in `s`. */
  predicate IsFirstDigitRun(s: string, j: nat, k: nat) {
    && j < k <= |s|
    && (forall i | 0 <= i < j :: !IsDigit(s[i]))
    && (forall i | j <= i < k :: IsDigit(s[i]))
    && (k == |s| || !IsDigit(s[k]))
  }

  /** What `clean_rank` returns when it finds something: "#" then one or more digits. */
  predicate RankShape(r: string) {
    |r| >= 2 && r[0] == '#' && forall i | 1 <= i < |r| :: IsDigit(r[i])
  }

  /**
   * `clean_rank` (scrape_bestsellers_updated.py:142-147): "#" followed by the
   * first group the pattern finds, or "" when there is none.
   */
  function CleanRank(text: string): (r: string)
    ensures r == "" <==> forall i | 0 <= i < |text| :: !IsDigit(text[i])
    ensures r == "" || RankShape(r)
  {
    if text == "" then ""
    else
      match SearchRank(text)
      case Some(group) => "#" + group
      case None => ""
  }

  /** The leftmost match of `#?(\d+)` captures exactly the first maximal digit run. */
  lemma {:induction false} SearchRankFindsFirstRun(s: string, j: nat, k: nat)
    requires IsFirstDigitRun(s, j, k)
    ensures SearchRank(s) == Some(s[j..k])
    decreases |s|
  {
    if j == 0 {
      assert DigitRun(s) == k;
    } else if j == 1 && s[0] == '#' {
      RunAfterHash(s, k);
    } else {
      SkipNonMatch(s, j, k);
      SearchRankFindsFirstRun(s[1..], j - 1, k - 1);
      assert s[1..][j - 1..k - 1] == s[j..k];
    }
  }

  /** A "#" right before the first digit run: the match starts at the "#". */
  lemma RunAfterHash(s: string, k: nat)
    requires IsFirstDigitRun(s, 1, k) && s[0] == '#'
    ensures RankMatchHere(s) == Some(s[1..k])
  {
    assert DigitRun(s[1..]) == k - 1 by {
      assert forall i | 0 <= i < k - 1 :: s[1..][i] == s[i + 1];
      assert k - 1 < |s[1..]| ==> s[1..][k - 1] == s[k];
    }
    assert s[1..][..k - 1] == s[1..k];
  }

  /** Before the first digit run, and not at a "#" right before it, nothing matches. */
  lemma SkipNonMatch(s: string, j: nat, k: nat)
    requires IsFirstDigitRun(s, j, k) && j > 0 && !(j == 1 && s[0] == '#')
    ensures RankMatchHere(s).None?
    ensures IsFirstDigitRun(s[1..], j - 1, k - 1)
  {
    assert !IsDigit(s[0]);
    assert |s| >= 2 && s[0] == '#' ==> !IsDigit(s[1]);
    assert forall i | 0 <= i < |s| - 1 :: s[1..][i] == s[i + 1];
  }

  /** `clean_rank` returns "#" followed by the first maximal digit run of its input. */
  lemma CleanRankIsFirstRun(s: string, j: nat, k: nat)
    requires IsFirstDigitRun(s, j, k)
    ensures CleanRank(s) == "#" + s[j..k]
  {
    SearchRankFindsFirstRun(s, j, k);
  }

  /** A rank already in the form "#<digits>" is returned unchanged, so `clean_rank("#1") == "#1"`. */
  lemma CleanRankOfRank(r: string)
    requires RankShape(r)
    ensures CleanRank(r) == r
  {
    CleanRankIsFirstRun(r, 1, |r|);
    assert r == [r[0]] + r[1..];
  }

  /** `clean_rank` is idempotent. */
  lemma CleanRankIdempotent(s: string)
    ensures CleanRank(CleanRank(s)) == CleanRank(s)
  {
    if CleanRank(s) != "" {
      CleanRankOfRank(CleanRank(s));
    }
  }

  // ---------------------------------------------------------------------------
  // clean_product_name, validate_product_link, clean_rating, clean_price
  // ---------------------------------------------------------------------------

  /**
   * `clean_product_name` (scrape_bestsellers_updated.py:150-156): the cleaned
   * name cut to its first 500 characters.
   */
  function CleanProductName(name: string): (r: string)
    ensures r <= CleanText(name)
    ensures |r| == Min(|CleanText(name)|, MaxNameLength)
  {
    if name == "" then ""
    else
      var cleaned := CleanText(name);
      if |cleaned| > MaxNameLength then cleaned[..MaxNameLength] else cleaned
  }

  /**
   * `validate_product_link` (scrape_bestsellers_updated.py:159-163): the link
   * itself when it contains "/dp/", otherwise "".
   */
  function ValidateProductLink(link: string): (r: string)
    ensures r == link || r == ""
    ensures r != "" <==> Contains(link, ProductPathMarker)
    ensures r != "" ==> Contains(r, ProductPathMarker)
  {
    if link == "" || !Contains(link, ProductPathMarker) then "" else link
  }

  /**
   * `clean_rating` (scrape_bestsellers_updated.py:166-171): the cleaned text cut
   * to its first 100 characters.
   */
  function CleanRating(text: string): (r: string)
    ensures r <= CleanText(text)
    ensures |r| == Min(|CleanText(text)|, MaxRatingLength)
  {
    if text == "" then ""
    else
      var cleaned := CleanText(text);
      cleaned[..Min(|cleaned|, MaxRatingLength)]
  }

  /** `clean_price` (scrape_bestsellers_updated.py:174-178): whitespace-normalized, same words. */
  function CleanPrice(text: string): (r: string)
    ensures Normalized(r)
    ensures Words(r) == Words(text)
  {
    CleanTextSpec(text);
    if text == "" then "" else CleanText(text)
  }

  lemma CleanPriceIdempotent(text: string)
    ensures CleanPrice(CleanPrice(text)) == CleanPrice(text)
  {
    CleanTextFixedPoint(CleanPrice(text));
  }

  lemma ValidateProductLinkIdempotent(link: string)
    ensures ValidateProductLink(ValidateProductLink(link)) == ValidateProductLink(link)
  {
  }

  /** A name that cleans to at most 500 characters is a fixed point of `clean_product_name`. */
  lemma CleanProductNameIdempotentWhenShort(name: string)
    requires |CleanText(name)| <= MaxNameLength
    ensures CleanProductName(CleanProductName(name)) == CleanProductName(name)
  {
    CleanTextIdempotent(name);
  }

  /** A rating that cleans to at most 100 characters is a fixed point of `clean_rating`. */
  lemma CleanRatingIdempotentWhenShort(text: string)
    requires |CleanText(text)| <= MaxRatingLength
    ensures CleanRating(CleanRating(text)) == CleanRating(text)
  {
    var c := CleanText(text);
    assert CleanRating(text) == c;
    if c != "" {
      CleanTextIdempotent(text);
      assert CleanRating(c) == CleanText(c)[..|c|];
    }
  }

  // ---------------------------------------------------------------------------
  // Truncation after cleaning is not idempotent
  // ---------------------------------------------------------------------------

  /** `n - 1` letters, a space, one more letter: normalized, and one character longer than `n`. */
  function CutInsideSpace(n: nat): (s: string)
    requires n >= 2
    ensures |s| == n + 1 && s[n - 1] == ' ' && s[n] == 'b'
    ensures forall i | 0 <= i < n - 1 :: s[i] == 'a'
    ensures Normalized(s)
  {
    var s := seq(n - 1, _ => 'a') + " b";
    assert s[n - 1] == ' ' && s[n] == 'b';
    assert forall i | 0 <= i < n - 1 :: s[i] == 'a';
    assert forall i | 0 <= i < |s| :: s[i] == ' ' <==> i == n - 1;
    assert !IsSpace('a') && !IsSpace('b');
    assert forall i | 0 <= i < |s| :: s[i] == 'a' || s[i] == ' ' || s[i] == 'b';
    s
  }

  /**
   * Cutting the cleaned text of `CutInsideSpace(n)` to `n` characters leaves a
   * trailing space, which a second cleaning removes.
   */
  lemma {:induction false} CutLeavesTrailingSpace(n: nat)
    requires n >= 2
    ensures CleanText(CutInsideSpace(n)) == CutInsideSpace(n)
    ensures CleanText(CutInsideSpace(n)[..n]) == CutInsideSpace(n)[..n - 1]
  {
    var s := CutInsideSpace(n);
    CleanTextFixedPoint(s);
    var w := s[..n - 1];
    assert IsWord(w) by {
      assert forall i | 0 <= i < |w| :: w[i] == s[i];
    }
    assert s[..n] == w + " ";
    WordsOfWordThen(w, " ");
    WordsOfWordThen(w, "");
    assert " "[1..] == "" && w + "" == w;
    assert Words(s[..n]) == [w] == Words(w);
    CleanTextDeterminedByWords(s[..n], w);
    CleanTextFixedPoint(w);
  }

  /** `clean_product_name` is not idempotent: the cut at 500 can end on a space. */
  lemma CleanProductNameNotIdempotent()
    ensures exists name :: CleanProductName(CleanProductName(name)) != CleanProductName(name)
  {
    var name := CutInsideSpace(MaxNameLength);
    CutLeavesTrailingSpace(MaxNameLength);
    assert CleanProductName(name) == name[..MaxNameLength];
    assert |CleanProductName(CleanProductName(name))| < MaxNameLength;
  }

  /** `clean_rating` is not idempotent: the cut at 100 can end on a space. */
  lemma CleanRatingNotIdempotent()
    ensures exists text :: CleanRating(CleanRating(text)) != CleanRating(text)
  {
    var text := CutInsideSpace(MaxRatingLength);
    CutLeavesTrailingSpace(MaxRatingLength);
    assert CleanRating(text) == text[..MaxRatingLength];
    assert |CleanRating(CleanRating(text))| < MaxRatingLength;
  }
}
