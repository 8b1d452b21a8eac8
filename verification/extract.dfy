/**
 * Product extraction from one page (scrape_bestsellers_updated.py:343-536):
 * the ASIN-container extractor, the fallback over page-wide selectors, the
 * choice between them, and the product-name filter both apply. The page is
 * reduced to what those functions read from it; URL resolution against the
 * site's base URL is the parameter `resolve`.
 */
module Extract {

  import opened Wrappers
  import opened Text
  import opened Normalize
  import opened Seqs
  import opened Records
  import opened Validate
  import opened Scroll

  /** A product name must be longer than this (:374, :448). */
  const MinProductNameLength: nat := 15
  /** Containers the container extractor looks at (:351). */
  const MaxContainers: nat := 100
  /** Name links the fallback turns into records (:468). */
  const MaxFallbackItems: nat := 50
  /** Containers needed before the container extractor runs (:517). */
  const ContainerMethodThreshold: nat := 10
  /** Fewer records than this and the fallback runs (:522). */
  const SufficientItems: nat := 15

  // ---------------------------------------------------------------------------
  // The name filter
  // ---------------------------------------------------------------------------

  /*
   * `re.search(r"^\d+\.?\d*\s*out\s*of\s*5", name)` (:376), one predicate
   * per part of the pattern, each saying that the rest of the pattern matches
   * at the start of `s`. Every repetition in the pattern is followed by
   * something it cannot consume, so the greedy reading below is the only one
   * that can match.
   */

  /** `\s*5` */
  predicate FiveFrom(s: string)
    decreases |s|
  {
    s != [] && (s[0] == '5' || (IsSpace(s[0]) && FiveFrom(s[1..])))
  }

  /** `\s*of\s*5` */
  predicate OfFrom(s: string)
    decreases |s|
  {
    s != [] && if IsSpace(s[0]) then OfFrom(s[1..]) else "of" <= s && FiveFrom(s[2..])
  }

  /** `\s*out\s*of\s*5` */
  predicate OutFrom(s: string)
    decreases |s|
  {
    s != [] && if IsSpace(s[0]) then OutFrom(s[1..]) else "out" <= s && OfFrom(s[3..])
  }

  /** `\d*\s*out\s*of\s*5`, after the decimal point. */
  predicate FractionFrom(s: string)
    decreases |s|
  {
    s != [] && if IsDigit(s[0]) then FractionFrom(s[1..]) else OutFrom(s)
  }

  /** `\d*\.?\d*\s*out\s*of\s*5`, after the first digit. */
  predicate IntegerFrom(s: string)
    decreases |s|
  {
    s != [] &&
      if IsDigit(s[0]) then IntegerFrom(s[1..])
      else if s[0] == '.' then FractionFrom(s[1..])
      else OutFrom(s)
  }

  /** The whole pattern, anchored at the start of the name. */
  predicate StartsWithRatingPhrase(s: string) {
    s != [] && IsDigit(s[0]) && IntegerFrom(s[1..])
  }

  /** `"star" in s.lower()`, scanning from the front. */
  predicate HasStar(s: string)
    decreases |s|
  {
    && |s| >= 4
    && ((LowerChar(s[0]) == 's' && LowerChar(s[1]) == 't' && LowerChar(s[2]) == 'a' && LowerChar(s[3]) == 'r')
        || HasStar(s[1..]))
  }

  /** The scan finds "star" exactly when the lower-cased text contains it. */
  lemma {:induction false} HasStarIsContains(s: string)
    ensures HasStar(s) <==> Contains(Lower(s), "star")
    decreases |s|
  {
    if |s| >= 4 {
      HasStarIsContains(s[1..]);
      LowerTail(s);
      StarAtFront(s);
      ContainsStep(Lower(s), "star");
    }
  }

  lemma LowerTail(s: string)
    requires s != []
    ensures Lower(s)[1..] == Lower(s[1..])
  {
  }

  /** "star" is at the front of the lower-cased text exactly when the scan's first test holds. */
  lemma StarAtFront(s: string)
    requires |s| >= 4
    ensures "star" <= Lower(s) <==>
      LowerChar(s[0]) == 's' && LowerChar(s[1]) == 't' && LowerChar(s[2]) == 'a' && LowerChar(s[3]) == 'r'
  {
    assert Lower(s)[..4] == [LowerChar(s[0]), LowerChar(s[1]), LowerChar(s[2]), LowerChar(s[3])];
  }

  /** A name that begins like "4 out of 5" is rejected by the filter. */
  lemma RatingPhraseExample()
    ensures StartsWithRatingPhrase("4 out of 5")
  {
    var s := "4 out of 5";
    assert s[9..] == "5" && FiveFrom(s[9..]);
    assert s[8..][1..] == s[9..] && FiveFrom(s[8..]);
    assert s[6..][2..] == s[8..] && OfFrom(s[6..]);
    assert s[5..][1..] == s[6..] && OfFrom(s[5..]);
    assert s[2..][3..] == s[5..] && OutFrom(s[2..]);
    assert s[1..][1..] == s[2..] && OutFrom(s[1..]);
  }

  // ---------------------------------------------------------------------------
  // The rating pattern as a regular expression
  // ---------------------------------------------------------------------------

  /*
   * The same pattern read as a regular expression: a match is a choice of
   * where each part of `^\d+\.?\d*\s*out\s*of\s*5` ends. Nothing here fixes
   * how the parts are found; the lemmas below show that the greedy
   * predicates above accept exactly the names that have such a match.
   */

  predicate AllSpace(t: string) {
    forall i | 0 <= i < |t| :: IsSpace(t[i])
  }

  predicate AllDigits(t: string) {
    forall i | 0 <= i < |t| :: IsDigit(t[i])
  }

  /** `\s*5` matches at the start of `s`. */
  ghost predicate MatchFive(s: string) {
    exists i | 0 <= i < |s| :: AllSpace(s[..i]) && s[i] == '5'
  }

  /** `\s*of\s*5` matches at the start of `s`. */
  ghost predicate MatchOf(s: string) {
    exists i | 0 <= i && i + 2 <= |s| :: AllSpace(s[..i]) && "of" <= s[i..] && MatchFive(s[i + 2..])
  }

  /** `\s*out\s*of\s*5` matches at the start of `s`. */
  ghost predicate MatchOut(s: string) {
    exists i | 0 <= i && i + 3 <= |s| :: AllSpace(s[..i]) && "out" <= s[i..] && MatchOf(s[i + 3..])
  }

  /** `\d*\s*out\s*of\s*5` matches at the start of `s`. */
  ghost predicate MatchFraction(s: string) {
    exists k | 0 <= k <= |s| :: AllDigits(s[..k]) && MatchOut(s[k..])
  }

  /** `\.?\d*\s*out\s*of\s*5` matches at the start of `s`. */
  ghost predicate MatchAfterDigits(s: string) {
    (s != [] && s[0] == '.' && MatchFraction(s[1..])) || MatchFraction(s)
  }

  /** `\d*\.?\d*\s*out\s*of\s*5` matches at the start of `s`. */
  ghost predicate MatchInteger(s: string) {
    exists i | 0 <= i <= |s| :: AllDigits(s[..i]) && MatchAfterDigits(s[i..])
  }

  /** `re.search(r"^\d+\.?\d*\s*out\s*of\s*5", s)` succeeds. */
  ghost predicate MatchesRatingPattern(s: string) {
    exists i | 1 <= i <= |s| :: AllDigits(s[..i]) && MatchAfterDigits(s[i..])
  }

  lemma AllSpaceStep(s: string, i: nat)
    requires 0 < i <= |s|
    ensures AllSpace(s[..i]) <==> IsSpace(s[0]) && AllSpace(s[1..][..i - 1])
  {
    var p, t := s[..i], s[1..][..i - 1];
    assert p[0] == s[0];
    if AllSpace(p) {
      forall k | 0 <= k < |t|
        ensures IsSpace(t[k])
      {
        assert t[k] == p[k + 1];
      }
    }
    if IsSpace(s[0]) && AllSpace(t) {
      forall k | 0 <= k < |p|
        ensures IsSpace(p[k])
      {
        if k > 0 {
          assert p[k] == t[k - 1];
        }
      }
    }
  }

  lemma AllDigitsStep(s: string, i: nat)
    requires 0 < i <= |s|
    ensures AllDigits(s[..i]) <==> IsDigit(s[0]) && AllDigits(s[1..][..i - 1])
  {
    var p, t := s[..i], s[1..][..i - 1];
    assert p[0] == s[0];
    if AllDigits(p) {
      forall k | 0 <= k < |t|
        ensures IsDigit(t[k])
      {
        assert t[k] == p[k + 1];
      }
    }
    if IsDigit(s[0]) && AllDigits(t) {
      forall k | 0 <= k < |p|
        ensures IsDigit(p[k])
      {
        if k > 0 {
          assert p[k] == t[k - 1];
        }
      }
    }
  }

  /** What `\s*out\s*of\s*5` accepts starts with whitespace or "o", never with a digit or ".". */
  lemma OutFromStart(s: string)
    requires OutFrom(s)
    ensures !IsDigit(s[0]) && s[0] != '.'
  {
    if !IsSpace(s[0]) {
      assert s[0] == "out"[0];
    }
  }

  // Leading whitespace (or a leading digit) extends a match.

  lemma MatchFiveCons(s: string)
    requires s != [] && IsSpace(s[0]) && MatchFive(s[1..])
    ensures MatchFive(s)
  {
    var i :| 0 <= i < |s[1..]| && AllSpace(s[1..][..i]) && s[1..][i] == '5';
    AllSpaceStep(s, i + 1);
    assert AllSpace(s[..i + 1]) && s[i + 1] == '5';
  }

  lemma MatchOfCons(s: string)
    requires s != [] && IsSpace(s[0]) && MatchOf(s[1..])
    ensures MatchOf(s)
  {
    var i :| 0 <= i && i + 2 <= |s[1..]| && AllSpace(s[1..][..i]) && "of" <= s[1..][i..] && MatchFive(s[1..][i + 2..]);
    AllSpaceStep(s, i + 1);
    assert s[1..][i..] == s[i + 1..] && s[1..][i + 2..] == s[i + 3..];
    assert AllSpace(s[..i + 1]) && "of" <= s[i + 1..] && MatchFive(s[i + 3..]);
  }

  lemma MatchOutCons(s: string)
    requires s != [] && IsSpace(s[0]) && MatchOut(s[1..])
    ensures MatchOut(s)
  {
    var i :| 0 <= i && i + 3 <= |s[1..]| && AllSpace(s[1..][..i]) && "out" <= s[1..][i..] && MatchOf(s[1..][i + 3..]);
    AllSpaceStep(s, i + 1);
    assert s[1..][i..] == s[i + 1..] && s[1..][i + 3..] == s[i + 4..];
    assert AllSpace(s[..i + 1]) && "out" <= s[i + 1..] && MatchOf(s[i + 4..]);
  }

  lemma MatchFractionCons(s: string)
    requires s != [] && IsDigit(s[0]) && MatchFraction(s[1..])
    ensures MatchFraction(s)
  {
    var k :| 0 <= k <= |s[1..]| && AllDigits(s[1..][..k]) && MatchOut(s[1..][k..]);
    AllDigitsStep(s, k + 1);
    assert s[1..][k..] == s[k + 1..];
    assert AllDigits(s[..k + 1]) && MatchOut(s[k + 1..]);
  }

  lemma MatchIntegerCons(s: string) returns (j: nat)
    requires s != [] && IsDigit(s[0]) && MatchInteger(s[1..])
    ensures 1 <= j <= |s| && AllDigits(s[..j]) && MatchAfterDigits(s[j..])
  {
    var i :| 0 <= i <= |s[1..]| && AllDigits(s[1..][..i]) && MatchAfterDigits(s[1..][i..]);
    AllDigitsCons(s, i);
    AfterDigitsShift(s, i);
    j := i + 1;
  }

  lemma AllDigitsCons(s: string, i: nat)
    requires i < |s| && IsDigit(s[0]) && AllDigits(s[1..][..i])
    ensures AllDigits(s[..i + 1])
  {
    AllDigitsStep(s, i + 1);
  }

  lemma AfterDigitsShift(s: string, i: nat)
    requires i < |s| && MatchAfterDigits(s[1..][i..])
    ensures MatchAfterDigits(s[i + 1..])
  {
    assert s[1..][i..] == s[i + 1..];
  }

  /** Digits up to `i` followed by a match of the rest is a match of the whole. */
  lemma IntegerWitness(s: string, i: nat)
    requires i <= |s| && AllDigits(s[..i]) && MatchAfterDigits(s[i..])
    ensures MatchInteger(s)
    ensures i >= 1 ==> MatchesRatingPattern(s)
  {
  }

  // The greedy predicates find a match whenever they accept.

  lemma {:induction false} FiveFromMatches(s: string)
    requires FiveFrom(s)
    ensures MatchFive(s)
    decreases |s|
  {
    if s[0] == '5' {
      assert AllSpace(s[..0]);
    } else {
      FiveFromMatches(s[1..]);
      MatchFiveCons(s);
    }
  }

  lemma {:induction false} OfFromMatches(s: string)
    requires OfFrom(s)
    ensures MatchOf(s)
    decreases |s|
  {
    if IsSpace(s[0]) {
      OfFromMatches(s[1..]);
      MatchOfCons(s);
    } else {
      FiveFromMatches(s[2..]);
      assert AllSpace(s[..0]) && "of" <= s[0..] && MatchFive(s[2..]);
    }
  }

  lemma {:induction false} OutFromMatches(s: string)
    requires OutFrom(s)
    ensures MatchOut(s)
    decreases |s|
  {
    if IsSpace(s[0]) {
      OutFromMatches(s[1..]);
      MatchOutCons(s);
    } else {
      OfFromMatches(s[3..]);
      assert AllSpace(s[..0]) && "out" <= s[0..] && MatchOf(s[3..]);
    }
  }

  lemma {:induction false} FractionFromMatches(s: string)
    requires FractionFrom(s)
    ensures MatchFraction(s)
    decreases |s|
  {
    if IsDigit(s[0]) {
      FractionFromMatches(s[1..]);
      MatchFractionCons(s);
    } else {
      OutFromMatches(s);
      assert AllDigits(s[..0]) && MatchOut(s[0..]);
    }
  }

  lemma {:induction false} IntegerFromMatches(s: string)
    requires IntegerFrom(s)
    ensures MatchInteger(s)
    decreases |s|
  {
    if IsDigit(s[0]) {
      IntegerFromMatches(s[1..]);
      var j := MatchIntegerCons(s);
      IntegerWitness(s, j);
    } else if s[0] == '.' {
      FractionFromMatches(s[1..]);
      assert AllDigits(s[..0]) && MatchAfterDigits(s[0..]);
    } else {
      OutFromMatches(s);
      assert AllDigits(s[..0]) && MatchOut(s[0..]);
      assert AllDigits(s[..0]) && MatchAfterDigits(s[0..]);
    }
  }

  // Every match is found by the greedy predicates.

  lemma {:induction false} MatchFiveGreedy(s: string)
    requires MatchFive(s)
    ensures FiveFrom(s)
    decreases |s|
  {
    var i :| 0 <= i < |s| && AllSpace(s[..i]) && s[i] == '5';
    if i > 0 {
      AllSpaceStep(s, i);
      assert AllSpace(s[1..][..i - 1]) && s[1..][i - 1] == '5';
      MatchFiveGreedy(s[1..]);
    }
  }

  lemma {:induction false} MatchOfGreedy(s: string)
    requires MatchOf(s)
    ensures OfFrom(s)
    decreases |s|
  {
    var i :| 0 <= i && i + 2 <= |s| && AllSpace(s[..i]) && "of" <= s[i..] && MatchFive(s[i + 2..]);
    if i == 0 {
      MatchFiveGreedy(s[2..]);
    } else {
      AllSpaceStep(s, i);
      assert s[1..][i - 1..] == s[i..] && s[1..][i + 1..] == s[i + 2..];
      assert AllSpace(s[1..][..i - 1]) && "of" <= s[1..][i - 1..] && MatchFive(s[1..][i + 1..]);
      MatchOfGreedy(s[1..]);
    }
  }

  lemma {:induction false} MatchOutGreedy(s: string)
    requires MatchOut(s)
    ensures OutFrom(s)
    decreases |s|
  {
    var i :| 0 <= i && i + 3 <= |s| && AllSpace(s[..i]) && "out" <= s[i..] && MatchOf(s[i + 3..]);
    if i == 0 {
      MatchOfGreedy(s[3..]);
    } else {
      AllSpaceStep(s, i);
      assert s[1..][i - 1..] == s[i..] && s[1..][i + 2..] == s[i + 3..];
      assert AllSpace(s[1..][..i - 1]) && "out" <= s[1..][i - 1..] && MatchOf(s[1..][i + 2..]);
      MatchOutGreedy(s[1..]);
    }
  }

  lemma {:induction false} MatchFractionGreedy(s: string)
    requires MatchFraction(s)
    ensures FractionFrom(s)
    decreases |s|
  {
    var k :| 0 <= k <= |s| && AllDigits(s[..k]) && MatchOut(s[k..]);
    if k == 0 {
      assert s[0..] == s;
      MatchOutGreedy(s);
      OutFromStart(s);
    } else {
      AllDigitsStep(s, k);
      assert s[1..][k - 1..] == s[k..];
      assert AllDigits(s[1..][..k - 1]) && MatchOut(s[1..][k - 1..]);
      MatchFractionGreedy(s[1..]);
    }
  }

  lemma {:induction false} MatchIntegerGreedy(s: string)
    requires MatchInteger(s)
    ensures IntegerFrom(s)
    decreases |s|
  {
    var i :| 0 <= i <= |s| && AllDigits(s[..i]) && MatchAfterDigits(s[i..]);
    if i > 0 {
      AllDigitsStep(s, i);
      assert s[1..][i - 1..] == s[i..];
      assert AllDigits(s[1..][..i - 1]) && MatchAfterDigits(s[1..][i - 1..]);
      MatchIntegerGreedy(s[1..]);
    } else if s != [] && s[0] == '.' && MatchFraction(s[1..]) {
      MatchFractionGreedy(s[1..]);
    } else {
      MatchFractionGreedy(s);
      FractionIsInteger(s);
    }
  }

  /** After the integer digits, the fraction part alone still completes the pattern. */
  lemma {:induction false} FractionIsInteger(s: string)
    requires FractionFrom(s)
    ensures IntegerFrom(s)
    decreases |s|
  {
    if IsDigit(s[0]) {
      FractionIsInteger(s[1..]);
    } else {
      OutFromStart(s);
    }
  }

  /**
   * The greedy predicates decide the regular expression: a name starts with a
   * rating phrase exactly when `^\d+\.?\d*\s*out\s*of\s*5` matches it.
   */
  lemma RatingPhraseIsPattern(s: string)
    ensures StartsWithRatingPhrase(s) <==> MatchesRatingPattern(s)
  {
    if StartsWithRatingPhrase(s) {
      IntegerFromMatches(s[1..]);
      var j := MatchIntegerCons(s);
      IntegerWitness(s, j);
    }
    if MatchesRatingPattern(s) {
      var i :| 1 <= i <= |s| && AllDigits(s[..i]) && MatchAfterDigits(s[i..]);
      AllDigitsStep(s, i);
      assert s[1..][i - 1..] == s[i..];
      assert AllDigits(s[1..][..i - 1]) && MatchAfterDigits(s[1..][i - 1..]);
      MatchIntegerGreedy(s[1..]);
    }
  }

  /** The pattern is case-sensitive: "4 OUT of 5" is not a rating phrase, so it can be a name. */
  lemma RatingPhraseCaseSensitive()
    ensures !MatchesRatingPattern("4 OUT of 5")
  {
    var s := "4 OUT of 5";
    assert !OutFrom(s[2..]);
    assert s[1..][1..] == s[2..] && !OutFrom(s[1..]);
    assert !IntegerFrom(s[1..]);
    RatingPhraseIsPattern(s);
  }

  /** The pattern is anchored: a rating phrase later in the name does not count. */
  lemma RatingPhraseAnchored()
    ensures !MatchesRatingPattern("Echo 5 out of 5")
  {
    RatingPhraseIsPattern("Echo 5 out of 5");
  }

  /**
   * The filter a link must pass to give the product's name (:372-378); the
   * fallback also asks for "/dp/" in the href (:450).
   */
  predicate IsProductName(name: string, href: Option<string>) {
    && name != ""
    && |name| > MinProductNameLength
    && href.Some? && href.value != ""
    && !StartsWithRatingPhrase(name)
    && !HasStar(name)
  }

  /**
   * The name filter in the terms of the code: a name longer than 15
   * characters, a non-empty href, no match of the anchored rating pattern and
   * no "star" in the lower-cased name.
   */
  lemma ProductNameFilter(name: string, href: Option<string>)
    ensures IsProductName(name, href) <==>
      && |name| > MinProductNameLength
      && href.Some? && href.value != ""
      && !MatchesRatingPattern(name)
      && !Contains(Lower(name), "star")
  {
    RatingPhraseIsPattern(name);
    HasStarIsContains(name);
  }

  /** What is read from one product link: its text and its href attribute. */
  datatype LinkReading = LinkReading(text: string, href: Option<string>)

  predicate IsNameLink(l: LinkReading) {
    IsProductName(CleanText(l.text), l.href)
  }

  /** Index of the first link that passes the filter, or `|links|` when none does. */
  function FirstNameLink(links: seq<LinkReading>): (j: nat)
    ensures j <= |links|
    ensures j < |links| ==> IsNameLink(links[j])
    ensures forall k | 0 <= k < j :: !IsNameLink(links[k])
  {
    FirstWhere(links, IsNameLink)
  }

  /** The first passing link is the one after a run of links that all fail. */
  lemma FirstNameLinkIs(links: seq<LinkReading>, j: nat)
    requires j <= |links|
    requires forall k | 0 <= k < j :: !IsNameLink(links[k])
    requires j < |links| ==> IsNameLink(links[j])
    ensures FirstNameLink(links) == j
  {
  }

  /** The inner loop of the container extractor (:365-381): name and link of the first link that passes. */
  method SelectProductLink(links: seq<LinkReading>, resolve: string -> string) returns (name: string, link: string)
    ensures var j := FirstNameLink(links);
      if j < |links| then name == CleanText(links[j].text) && link == resolve(links[j].href.value)
      else name == "" && link == ""
  {
    // Scan up to the first passing link: the loop's `break`.
    var j := 0;
    while j < |links| && !IsNameLink(links[j])
      invariant j <= |links|
      invariant forall k | 0 <= k < j :: !IsNameLink(links[k])
    {
      j := j + 1;
    }
    FirstNameLinkIs(links, j);
    if j < |links| {
      name := CleanText(links[j].text);
      link := resolve(links[j].href.value);
    } else {
      name, link := "", "";
    }
  }

  // ---------------------------------------------------------------------------
  // Method 1: ASIN containers
  // ---------------------------------------------------------------------------

  /**
   * What is read from one container: its data-asin attribute, its product
   * links, the text of its rank badge, the aria-label of its rating link and
   * the text of its price span (None when the element is absent).
   */
  datatype ContainerReading = ContainerReading(
    asin: Option<string>,
    links: seq<LinkReading>,
    badge: Option<string>,
    ratingLabel: Option<string>,
    priceText: Option<string>)

  /** What every record the extractors build satisfies. */
  predicate ExtractedName(p: Product) {
    && |p.name| > MinProductNameLength
    && Normalized(p.name)
    && !StartsWithRatingPhrase(p.name)
    && !HasStar(p.name)
    && p.link != ""
  }

  /** The record one container gives (:352-407), or None when it gives none. */
  function ContainerItem(c: ContainerReading, resolve: string -> string): (r: Option<Product>)
    ensures var j := FirstNameLink(c.links);
      r.Some? <==> j < |c.links| && resolve(c.links[j].href.value) != ""
    ensures r.Some? ==>
      var j := FirstNameLink(c.links);
      && ExtractedName(r.value)
      && r.value.name == CleanText(c.links[j].text)
      && r.value.link == resolve(c.links[j].href.value)
      && r.value.rank == CleanOpt(c.badge)
      && r.value.rating == CleanOpt(c.ratingLabel)
      && r.value.price == CleanOpt(c.priceText)
      && r.value.asin == c.asin
  {
    var j := FirstNameLink(c.links);
    if j == |c.links| then None // name and link stay ""
    else
      var name := CleanText(c.links[j].text);
      var link := resolve(c.links[j].href.value);
      CleanTextSpec(c.links[j].text);
      if name != "" && link != "" && |name| > MinProductNameLength then
        Some(Product(CleanOpt(c.badge), name, link, CleanOpt(c.ratingLabel), CleanOpt(c.priceText), c.asin))
      else
        None
  }

  /** The records a run of containers gives; a container whose reading raised (None) gives none. */
  function ContainerItems(cs: seq<Option<ContainerReading>>, resolve: string -> string): (items: seq<Product>)
    ensures |items| <= |cs|
    ensures forall k | 0 <= k < |items| :: ExtractedName(items[k])
    decreases |cs|
  {
    if cs == [] then []
    else
      var init := ContainerItems(cs[..|cs| - 1], resolve);
      match cs[|cs| - 1]
      case None => init
      case Some(c) =>
        match ContainerItem(c, resolve)
        case None => init
        case Some(p) => init + [p]
  }

  /** `extract_from_asin_containers_universal` (:343-418): at most 100 records, one per container at most. */
  method ExtractFromAsinContainers(cs: seq<Option<ContainerReading>>, resolve: string -> string)
    returns (items: seq<Product>)
    ensures items == ContainerItems(cs[..Min(|cs|, MaxContainers)], resolve)
    ensures |items| <= MaxContainers
    ensures forall k | 0 <= k < |items| :: ExtractedName(items[k])
  {
    items := [];
    for i := 0 to Min(|cs|, MaxContainers)
      invariant items == ContainerItems(cs[..i], resolve)
    {
      assert cs[..i + 1][..i] == cs[..i];
      if cs[i].None? {
        continue;
      }
      var container := cs[i].value;
      var name, link := SelectProductLink(container.links, resolve);
      var rank := CleanOpt(container.badge);
      var rating := CleanOpt(container.ratingLabel);
      var price := CleanOpt(container.priceText);
      if name != "" && link != "" && |name| > MinProductNameLength {
        items := items + [Product(rank, name, link, rating, price, container.asin)];
      }
    }
  }

  // ---------------------------------------------------------------------------
  // Method 2: page-wide selectors
  // ---------------------------------------------------------------------------

  /**
   * What the fallback reads from the page: every product link (None when
   * reading it raised), the rank badge texts, the price texts and the rating
   * aria-labels, each list in page order. `raised` holds the positions whose
   * record build raised in one of its badge, price or rating reads; the
   * handler of the second loop skips those records.
   */
  datatype FallbackReadings = FallbackReadings(
    links: seq<Option<LinkReading>>,
    badges: seq<string>,
    prices: seq<string>,
    ratingLabels: seq<Option<string>>,
    raised: set<nat>)

  /** A link the fallback keeps: its name and its resolved URL. */
  datatype NamedLink = NamedLink(name: string, link: string)

  predicate IsFallbackLink(l: LinkReading) {
    IsNameLink(l) && Contains(l.href.value, ProductPathMarker)
  }

  /** The first loop of the fallback (:438-463): the links that pass the filter, in page order. */
  function ValidProductLinks(links: seq<Option<LinkReading>>, resolve: string -> string): (vs: seq<NamedLink>)
    ensures |vs| <= |links|
    decreases |links|
  {
    if links == [] then []
    else
      var init := ValidProductLinks(links[..|links| - 1], resolve);
      match links[|links| - 1]
      case None => init
      case Some(l) =>
        if IsFallbackLink(l) then init + [NamedLink(CleanText(l.text), resolve(l.href.value))] else init
  }

  /** Every name the fallback keeps is clean, longer than 15 and passes the filter. */
  lemma {:induction false} ValidLinksPassFilter(links: seq<Option<LinkReading>>, resolve: string -> string)
    ensures forall k | 0 <= k < |ValidProductLinks(links, resolve)| ::
      var name := ValidProductLinks(links, resolve)[k].name;
      |name| > MinProductNameLength && Normalized(name) && !StartsWithRatingPhrase(name) && !HasStar(name)
    decreases |links|
  {
    if links != [] {
      var init := links[..|links| - 1];
      ValidLinksPassFilter(init, resolve);
      match links[|links| - 1]
      case None =>
        assert ValidProductLinks(links, resolve) == ValidProductLinks(init, resolve);
      case Some(l) =>
        if IsFallbackLink(l) {
          CleanTextSpec(l.text);
        }
    }
  }

  /** The record for the `idx`-th kept link: rank, price and rating taken by position (:471-495). */
  function FallbackItem(v: NamedLink, idx: nat, r: FallbackReadings): Product {
    Product(
      if |r.badges| > idx then CleanText(r.badges[idx]) else "",
      v.name,
      v.link,
      if |r.ratingLabels| > idx then CleanOpt(r.ratingLabels[idx]) else "",
      if |r.prices| > idx then CleanText(r.prices[idx]) else "",
      None)
  }

  /** The positions below `n` that the second loop does not skip, in increasing order. */
  function KeptPositions(n: nat, raised: set<nat>): (ks: seq<nat>)
    ensures |ks| <= n
    ensures forall j | 0 <= j < |ks| :: ks[j] < n && ks[j] !in raised
  {
    if n == 0 then []
    else KeptPositions(n - 1, raised) + (if n - 1 in raised then [] else [n - 1])
  }

  /**
   * The kept positions are exactly the positions below `n` that did not
   * raise, each once and in increasing order; with nothing raised, all `n`.
   */
  lemma KeptPositionsExact(n: nat, raised: set<nat>)
    ensures forall i: nat :: i in KeptPositions(n, raised) <==> i < n && i !in raised
    ensures forall a, b | 0 <= a < b < |KeptPositions(n, raised)| ::
      KeptPositions(n, raised)[a] < KeptPositions(n, raised)[b]
    ensures (forall i: nat | i < n :: i !in raised) ==> |KeptPositions(n, raised)| == n
  {
    KeptPositionsMembers(n, raised);
    KeptPositionsIncrease(n, raised);
    if forall i: nat | i < n :: i !in raised {
      KeptPositionsAll(n, raised);
    }
  }

  lemma {:induction false} KeptPositionsMembers(n: nat, raised: set<nat>)
    ensures forall i: nat :: i in KeptPositions(n, raised) <==> i < n && i !in raised
  {
    if n > 0 {
      KeptPositionsMembers(n - 1, raised);
    }
  }

  lemma {:induction false} KeptPositionsIncrease(n: nat, raised: set<nat>)
    ensures forall a, b | 0 <= a < b < |KeptPositions(n, raised)| ::
      KeptPositions(n, raised)[a] < KeptPositions(n, raised)[b]
  {
    if n > 0 {
      KeptPositionsIncrease(n - 1, raised);
    }
  }

  lemma {:induction false} KeptPositionsAll(n: nat, raised: set<nat>)
    requires forall i: nat | i < n :: i !in raised
    ensures |KeptPositions(n, raised)| == n
  {
    if n > 0 {
      KeptPositionsAll(n - 1, raised);
    }
  }

  /** The records for the first `n` kept links, skipping the positions that raised. */
  function FallbackPrefix(valid: seq<NamedLink>, n: nat, r: FallbackReadings): (items: seq<Product>)
    requires n <= |valid|
    ensures |items| == |KeptPositions(n, r.raised)|
  {
    if n == 0 then []
    else FallbackPrefix(valid, n - 1, r) + (if n - 1 in r.raised then [] else [FallbackItem(valid[n - 1], n - 1, r)])
  }

  function FallbackItems(r: FallbackReadings, resolve: string -> string): (items: seq<Product>)
    ensures |items| <= MaxFallbackItems
  {
    var valid := ValidProductLinks(r.links, resolve);
    FallbackPrefix(valid, Min(|valid|, MaxFallbackItems), r)
  }

  /** The positions whose records the fallback returns. */
  function FallbackPositions(r: FallbackReadings, resolve: string -> string): seq<nat> {
    KeptPositions(Min(|ValidProductLinks(r.links, resolve)|, MaxFallbackItems), r.raised)
  }

  /** The `j`-th of the first `n` records is built from the `j`-th kept position. */
  lemma {:induction false} FallbackPrefixAt(valid: seq<NamedLink>, n: nat, r: FallbackReadings, j: nat)
    requires n <= |valid| && j < |KeptPositions(n, r.raised)|
    ensures FallbackPrefix(valid, n, r)[j] ==
      FallbackItem(valid[KeptPositions(n, r.raised)[j]], KeptPositions(n, r.raised)[j], r)
  {
    if j < |KeptPositions(n - 1, r.raised)| {
      FallbackPrefixAt(valid, n - 1, r, j);
    }
  }

  /**
   * The fallback's records: one per kept link among the first 50 whose reads
   * did not raise, in page order. The record for position `idx` takes the
   * `idx`-th badge, price and rating when there are that many and ""
   * otherwise; with nothing raised there is one record per kept link.
   */
  lemma FallbackItemsByPosition(r: FallbackReadings, resolve: string -> string)
    ensures |FallbackItems(r, resolve)| == |FallbackPositions(r, resolve)|
    ensures forall idx: nat :: idx in FallbackPositions(r, resolve) <==>
      idx < Min(|ValidProductLinks(r.links, resolve)|, MaxFallbackItems) && idx !in r.raised
    ensures forall a, b | 0 <= a < b < |FallbackPositions(r, resolve)| ::
      FallbackPositions(r, resolve)[a] < FallbackPositions(r, resolve)[b]
    ensures r.raised == {} ==>
      |FallbackItems(r, resolve)| == Min(|ValidProductLinks(r.links, resolve)|, MaxFallbackItems)
    ensures forall j | 0 <= j < |FallbackItems(r, resolve)| ::
      && FallbackPositions(r, resolve)[j] < |ValidProductLinks(r.links, resolve)|
      && FallbackItems(r, resolve)[j].name == ValidProductLinks(r.links, resolve)[FallbackPositions(r, resolve)[j]].name
      && FallbackItems(r, resolve)[j].link == ValidProductLinks(r.links, resolve)[FallbackPositions(r, resolve)[j]].link
      && FallbackItems(r, resolve)[j].rank ==
         (if FallbackPositions(r, resolve)[j] < |r.badges| then CleanText(r.badges[FallbackPositions(r, resolve)[j]]) else "")
      && FallbackItems(r, resolve)[j].price ==
         (if FallbackPositions(r, resolve)[j] < |r.prices| then CleanText(r.prices[FallbackPositions(r, resolve)[j]]) else "")
      && FallbackItems(r, resolve)[j].rating ==
         (if FallbackPositions(r, resolve)[j] < |r.ratingLabels| then CleanOpt(r.ratingLabels[FallbackPositions(r, resolve)[j]]) else "")
      && FallbackItems(r, resolve)[j].asin.None?
  {
    var valid := ValidProductLinks(r.links, resolve);
    var m := Min(|valid|, MaxFallbackItems);
    KeptPositionsExact(m, r.raised);
    forall j | 0 <= j < |FallbackItems(r, resolve)|
      ensures FallbackItems(r, resolve)[j] == FallbackItem(valid[KeptPositions(m, r.raised)[j]], KeptPositions(m, r.raised)[j], r)
    {
      FallbackPrefixAt(valid, m, r, j);
    }
  }

  /** The first loop of `extract_using_universal_selectors` (:438-463): collect the links that pass. */
  method CollectProductLinks(links: seq<Option<LinkReading>>, resolve: string -> string)
    returns (validProductLinks: seq<NamedLink>)
    ensures validProductLinks == ValidProductLinks(links, resolve)
  {
    validProductLinks := [];
    for i := 0 to |links|
      invariant validProductLinks == ValidProductLinks(links[..i], resolve)
    {
      assert links[..i + 1][..i] == links[..i];
      if links[i].None? {
        continue;
      }
      var text := CleanText(links[i].value.text);
      var href := links[i].value.href;
      if IsProductName(text, href) && Contains(href.value, ProductPathMarker) {
        validProductLinks := validProductLinks + [NamedLink(text, resolve(href.value))];
      }
    }
    assert links[..|links|] == links;
  }

  /**
   * The second loop (:468-496): one record per kept link among the first 50,
   * fields taken by position; a record whose reads raised is skipped.
   */
  method BuildFallbackItems(validProductLinks: seq<NamedLink>, r: FallbackReadings) returns (items: seq<Product>)
    ensures items == FallbackPrefix(validProductLinks, Min(|validProductLinks|, MaxFallbackItems), r)
  {
    items := [];
    for idx := 0 to Min(|validProductLinks|, MaxFallbackItems)
      invariant items == FallbackPrefix(validProductLinks, idx, r)
    {
      if idx in r.raised {
        // A badge, price or rating read raised: the handler moves on.
        continue;
      }
      var rank := if |r.badges| > idx then CleanText(r.badges[idx]) else "";
      var price := if |r.prices| > idx then CleanText(r.prices[idx]) else "";
      var rating := if |r.ratingLabels| > idx then CleanOpt(r.ratingLabels[idx]) else "";
      items := items + [Product(rank, validProductLinks[idx].name, validProductLinks[idx].link, rating, price, None)];
    }
  }

  /** `extract_using_universal_selectors` (:421-498): collect the name links, then build the records. */
  method ExtractUsingUniversalSelectors(r: FallbackReadings, resolve: string -> string)
    returns (items: seq<Product>)
    ensures items == FallbackItems(r, resolve)
  {
    var validProductLinks := CollectProductLinks(r.links, resolve);
    items := BuildFallbackItems(validProductLinks, r);
  }

  // ---------------------------------------------------------------------------
  // extract_products_on_page
  // ---------------------------------------------------------------------------

  /** Everything `extract_products_on_page` reads from one page. */
  datatype PageReadings = PageReadings(
    scrollReadings: seq<nat>,
    finalReading: nat,
    containers: seq<Option<ContainerReading>>,
    fallback: FallbackReadings)

  /** The container extractor's records, or none when there are fewer than 10 containers. */
  function ContainerMethodItems(p: PageReadings, resolve: string -> string): (items: seq<Product>)
    ensures |items| <= MaxContainers
  {
    if |p.containers| >= ContainerMethodThreshold then
      ContainerItems(p.containers[..Min(|p.containers|, MaxContainers)], resolve)
    else []
  }

  /** The records handed to validation (:512-528). */
  function ChosenItems(p: PageReadings, resolve: string -> string): (items: seq<Product>)
    ensures |items| <= MaxContainers
  {
    var fromContainers := ContainerMethodItems(p, resolve);
    if |fromContainers| < SufficientItems then
      var fallbackItems := FallbackItems(p.fallback, resolve);
      if |fallbackItems| > |fromContainers| then fallbackItems else fromContainers
    else fromContainers
  }

  /**
   * The choice between the extractors: with fewer than 10 containers the
   * fallback decides alone; 15 or more container records are kept without
   * consulting the fallback; otherwise the fallback replaces the container
   * records only when it has strictly more.
   */
  lemma ChosenItemsChoice(p: PageReadings, resolve: string -> string)
    ensures var items, fromContainers, fallbackItems :=
      ChosenItems(p, resolve), ContainerMethodItems(p, resolve), FallbackItems(p.fallback, resolve);
      && (|p.containers| < ContainerMethodThreshold ==> items == fallbackItems)
      && (|fromContainers| >= SufficientItems ==> items == fromContainers)
      && (|fromContainers| < SufficientItems && |fallbackItems| <= |fromContainers| ==> items == fromContainers)
      && (|fromContainers| < SufficientItems && |fallbackItems| > |fromContainers| ==> items == fallbackItems)
      && |items| >= |fromContainers|
  {
  }

  /**
   * What a page gives: at most 100 valid records with distinct links, in the
   * order the chosen extractor found them.
   */
  lemma PageItemsValid(p: PageReadings, resolve: string -> string)
    ensures |ValidateAndClean(ChosenItems(p, resolve))| <= MaxContainers
    ensures forall k | 0 <= k < |ValidateAndClean(ChosenItems(p, resolve))| ::
      ValidItem(ValidateAndClean(ChosenItems(p, resolve))[k])
    ensures forall i, j | 0 <= i < j < |ValidateAndClean(ChosenItems(p, resolve))| ::
      ValidateAndClean(ChosenItems(p, resolve))[i].link != ValidateAndClean(ChosenItems(p, resolve))[j].link
    ensures IsSubsequence(ValidateAndClean(ChosenItems(p, resolve)), ValidatedItems(ChosenItems(p, resolve)))
  {
    ValidateAndCleanProperties(ChosenItems(p, resolve));
  }

  /**
   * `extract_products_on_page` (:501-535): scroll, extract with the
   * containers, fall back when they gave too little, then validate.
   */
  method ExtractProductsOnPage(p: PageReadings, resolve: string -> string) returns (validated: seq<Product>)
    requires |p.scrollReadings| >= MaxScrolls
    ensures validated == ValidateAndClean(ChosenItems(p, resolve))
  {
    var finalContainerCount, scrolls, lastCount, stable, extendedWaits :=
      ScrollToBottomEnhanced(p.scrollReadings, MaxScrolls, p.finalReading);

    var items: seq<Product> := [];
    var containerCount := |p.containers|;
    if containerCount >= ContainerMethodThreshold {
      items := ExtractFromAsinContainers(p.containers, resolve);
    }
    if |items| < SufficientItems {
      var fallbackItems := ExtractUsingUniversalSelectors(p.fallback, resolve);
      if |fallbackItems| > |items| {
        items := fallbackItems;
      }
    }
    validated := ValidateAndCleanItems(items);
  }

  // ---------------------------------------------------------------------------
  // Extraction and validation agree
  // ---------------------------------------------------------------------------

  /**
   * A record named by the filter keeps its name through validation: the
   * filter's length bound (> 15) is stricter than validation's (> 10), and
   * the name is already clean.
   */
  lemma {:induction false} ExtractedNameSurvives(p: Product)
    requires ExtractedName(p)
    requires Contains(p.link, ProductPathMarker)
    ensures CleanItem(p).Some?
    ensures CleanItem(p).value.name == CleanProductName(p.name)
    ensures |p.name| <= MaxNameLength ==> CleanItem(p).value.name == p.name
  {
    CleanTextFixedPoint(p.name);
  }

  /** Resolving `href` keeps the "/dp/" marker when `href` has it. */
  predicate ResolveKeepsMarker(resolve: string -> string, href: string) {
    Contains(href, ProductPathMarker) ==> Contains(resolve(href), ProductPathMarker)
  }

  /**
   * When URL resolution keeps "/dp/" in the path, every fallback record passes
   * validation, so validation drops only repeated links.
   */
  lemma FallbackItemsSurviveValidation(r: FallbackReadings, resolve: string -> string)
    requires forall h :: ResolveKeepsMarker(resolve, h)
    ensures var items := FallbackItems(r, resolve);
      forall k | 0 <= k < |items| :: CleanItem(items[k]).Some?
  {
    var valid := ValidProductLinks(r.links, resolve);
    ValidLinksPassFilter(r.links, resolve);
    ValidLinksKeepMarker(r.links, resolve);
    var items := FallbackItems(r, resolve);
    var m := Min(|valid|, MaxFallbackItems);
    forall k | 0 <= k < |items|
      ensures CleanItem(items[k]).Some?
    {
      FallbackPrefixAt(valid, m, r, k);
      var idx := KeptPositions(m, r.raised)[k];
      assert idx < |valid| && items[k] == FallbackItem(valid[idx], idx, r);
      FallbackItemSurvives(valid[idx], idx, r);
    }
  }

  /** One fallback record built from a kept link whose URL has "/dp/" passes validation. */
  lemma FallbackItemSurvives(v: NamedLink, idx: nat, r: FallbackReadings)
    requires |v.name| > MinProductNameLength && Normalized(v.name)
    requires !StartsWithRatingPhrase(v.name) && !HasStar(v.name)
    requires Contains(v.link, ProductPathMarker) && v.link != ""
    ensures CleanItem(FallbackItem(v, idx, r)).Some?
  {
    ExtractedNameSurvives(FallbackItem(v, idx, r));
  }

  /** Under the same assumption, every link the fallback keeps contains "/dp/". */
  lemma {:induction false} ValidLinksKeepMarker(links: seq<Option<LinkReading>>, resolve: string -> string)
    requires forall h :: ResolveKeepsMarker(resolve, h)
    ensures forall k | 0 <= k < |ValidProductLinks(links, resolve)| ::
      Contains(ValidProductLinks(links, resolve)[k].link, ProductPathMarker) && ValidProductLinks(links, resolve)[k].link != ""
    decreases |links|
  {
    if links != [] {
      var init := links[..|links| - 1];
      ValidLinksKeepMarker(init, resolve);
      match links[|links| - 1]
      case None =>
        assert ValidProductLinks(links, resolve) == ValidProductLinks(init, resolve);
      case Some(l) =>
        if IsFallbackLink(l) {
          assert ResolveKeepsMarker(resolve, l.href.value);
          ContainsLength(resolve(l.href.value), ProductPathMarker);
        }
    }
  }
}
