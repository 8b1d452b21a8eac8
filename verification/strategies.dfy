/**
 * The strategy chains of `extract_rating_from_container` and
 * `extract_price_from_container` (scrape_bestsellers_updated.py:186-276).
 * Each strategy either returns a text, which ends the chain, or falls
 * through. A strategy that raises falls through exactly like one that finds
 * nothing, so a raised strategy is given here as readings that match nothing.
 * The source defines both functions but does not call them: the container
 * extractor reads one selector per field (:383-399), as `Extract.ContainerItem`
 * does.
 */
module Strategies {

  import opened Wrappers
  import opened Text
  import opened Normalize

  /** How many matched elements the scanning strategies look at (:210, :224). */
  const ScanLimit: nat := 3

  /** The first strategy that returned something, in chain order. */
  function FirstHit(outcomes: seq<Option<string>>): (r: Option<string>)
    ensures r.None? <==> forall i | 0 <= i < |outcomes| :: outcomes[i].None?
    ensures r.Some? ==>
      exists i | 0 <= i < |outcomes| :: outcomes[i] == r && forall k | 0 <= k < i :: outcomes[k].None?
    decreases |outcomes|
  {
    if outcomes == [] then None
    else if outcomes[0].Some? then outcomes[0]
    else
      var r := FirstHit(outcomes[1..]);
      assert forall i | 0 <= i < |outcomes| - 1 :: outcomes[1..][i] == outcomes[i + 1];
      r
  }

  /** The loop over strategies: return the first hit, or "" when every strategy falls through. */
  method RunStrategies(outcomes: seq<Option<string>>) returns (result: string)
    ensures result == FirstHit(outcomes).GetOr("")
  {
    for i := 0 to |outcomes|
      invariant forall k | 0 <= k < i :: outcomes[k].None?
    {
      if outcomes[i].Some? {
        return outcomes[i].value;
      }
    }
    return "";
  }

  // ---------------------------------------------------------------------------
  // Rating
  // ---------------------------------------------------------------------------

  /**
   * What the rating strategies read from one container: the aria-labels of the
   * links mentioning "out of 5", the text around the first star icon (None when
   * there is no star icon), the texts of the elements whose class mentions
   * "rating", and group 1 of the rating pattern over the container's text.
   */
  datatype RatingReadings = RatingReadings(
    ariaLabels: seq<Option<string>>,
    starParentText: Option<string>,
    ratingTexts: seq<string>,
    patternGroup: Option<string>)

  /** Whether an aria-label is accepted by strategy 1 (:212). */
  predicate IsRatingLabel(aria: Option<string>) {
    aria.Some? && Contains(aria.value, "out of 5")
  }

  /** A label that mentions "out of 5" does not clean to "". */
  lemma RatingLabelNotBlank(text: string)
    requires Contains(text, "out of 5")
    ensures CleanText(text) != ""
  {
    CleanTextSpec(text);
    var i :| 0 <= i <= |text| && "out of 5" <= text[i..];
    assert text[i] == 'o' && !IsSpace('o');
  }

  /** The first accepted label, cleaned. */
  function FirstRatingLabel(labels: seq<Option<string>>): (r: Option<string>)
    ensures r.None? <==> forall i | 0 <= i < |labels| :: !IsRatingLabel(labels[i])
    ensures r.Some? ==> r.value != ""
    decreases |labels|
  {
    if labels == [] then None
    else if IsRatingLabel(labels[0]) then
      RatingLabelNotBlank(labels[0].value);
      Some(CleanText(labels[0].value))
    else
      assert forall i | 0 <= i < |labels| - 1 :: labels[1..][i] == labels[i + 1];
      FirstRatingLabel(labels[1..])
  }

  /** Strategy 1 (:209-213): the first of the first three labels that mentions "out of 5", cleaned. */
  function AriaLabelRating(labels: seq<Option<string>>): (r: Option<string>)
    ensures r.None? <==> forall i | 0 <= i < Min(|labels|, ScanLimit) :: !IsRatingLabel(labels[i])
    ensures r.Some? ==> r.value != ""
  {
    var scanned := labels[..Min(|labels|, ScanLimit)];
    assert forall i | 0 <= i < |scanned| :: scanned[i] == labels[i];
    FirstRatingLabel(scanned)
  }

  /** Strategy 2 (:215-221): the star icon's surrounding text when it says "out of" or "rating". */
  function StarIconRating(parentText: Option<string>): (r: Option<string>)
    ensures r.Some? ==> r.value != "" && (Contains(r.value, "out of") || Contains(Lower(r.value), "rating"))
  {
    if parentText.None? then None
    else
      var text := CleanText(parentText.value);
      if text != "" && (Contains(text, "out of") || Contains(Lower(text), "rating")) then Some(text) else None
  }

  /** Whether a rating-class text is accepted by strategy 3 (:226). */
  predicate IsRatingText(text: string) {
    text != "" && (Contains(text, "out of") || Contains(Lower(text), "star"))
  }

  /** The first accepted rating text, cleaned. */
  function FirstRatingText(texts: seq<string>): (r: Option<string>)
    ensures r.None? <==> forall i | 0 <= i < |texts| :: !IsRatingText(CleanText(texts[i]))
    ensures r.Some? ==> IsRatingText(r.value)
    decreases |texts|
  {
    if texts == [] then None
    else if IsRatingText(CleanText(texts[0])) then Some(CleanText(texts[0]))
    else
      assert forall i | 0 <= i < |texts| - 1 :: texts[1..][i] == texts[i + 1];
      FirstRatingText(texts[1..])
  }

  /** Strategy 3 (:223-227): the first of the first three rating texts that says "out of" or "star". */
  function RatingTextRating(texts: seq<string>): (r: Option<string>)
    ensures r.None? <==> forall i | 0 <= i < Min(|texts|, ScanLimit) :: !IsRatingText(CleanText(texts[i]))
    ensures r.Some? ==> IsRatingText(r.value)
  {
    var scanned := texts[..Min(|texts|, ScanLimit)];
    assert forall i | 0 <= i < |scanned| :: scanned[i] == texts[i];
    FirstRatingText(scanned)
  }

  /** Strategy 4 (:229-233): the number the pattern found, as "<n> out of 5 stars". */
  function PatternRating(group: Option<string>): (r: Option<string>)
    ensures r.Some? <==> group.Some?
    ensures r.Some? ==> r.value != "" && Contains(r.value, " out of 5 stars")
  {
    match group
    case None => None
    case Some(g) =>
      ContainsAt(g + " out of 5 stars", " out of 5 stars", |g|);
      Some(g + " out of 5 stars")
  }

  function RatingOutcomes(r: RatingReadings): seq<Option<string>> {
    [AriaLabelRating(r.ariaLabels), StarIconRating(r.starParentText),
     RatingTextRating(r.ratingTexts), PatternRating(r.patternGroup)]
  }

  /** `extract_rating_from_container`: the first strategy's hit, or "". */
  method ExtractRatingFromContainer(r: RatingReadings) returns (rating: string)
    ensures rating == FirstHit(RatingOutcomes(r)).GetOr("")
    ensures r.patternGroup.Some? ==> rating != ""
  {
    rating := RunStrategies(RatingOutcomes(r));
    var outcomes := RatingOutcomes(r);
    assert forall i | 0 <= i < |outcomes| && outcomes[i].Some? :: outcomes[i].value != "";
    assert r.patternGroup.Some? ==> outcomes[3].Some?;
  }

  // ---------------------------------------------------------------------------
  // Price
  // ---------------------------------------------------------------------------

  /**
   * What the price strategies read from one container: for each price selector
   * in order, the text of its first element (None when nothing matches), and
   * group 1 of the rupee pattern over the container's text.
   */
  datatype PriceReadings = PriceReadings(selectorTexts: seq<Option<string>>, patternGroup: Option<string>)

  /** A text the price chain accepts carries a rupee sign or "Rs". */
  predicate IsPriceText(text: string) {
    text != "" && (Contains(text, "₹") || Contains(text, "Rs"))
  }

  /** A selector strategy (:266-271): its first element's text when it looks like a price. */
  function SelectorPrice(text: Option<string>): (r: Option<string>)
    ensures r.Some? ==> IsPriceText(r.value)
  {
    var cleaned := CleanOpt(text);
    if IsPriceText(cleaned) then Some(cleaned) else None
  }

  /** The pattern strategy (:258-265): "₹" followed by the amount the pattern found. */
  function PatternPrice(group: Option<string>): (r: Option<string>)
    ensures r.Some? <==> group.Some?
    ensures r.Some? ==> IsPriceText(r.value)
  {
    match group
    case None => None
    case Some(g) =>
      ContainsAt("₹" + g, "₹", 0);
      Some("₹" + g)
  }

  function PriceOutcomes(r: PriceReadings): seq<Option<string>> {
    seq(|r.selectorTexts|, i requires 0 <= i < |r.selectorTexts| => SelectorPrice(r.selectorTexts[i]))
      + [PatternPrice(r.patternGroup)]
  }

  /** `extract_price_from_container`: the first strategy's hit, or "". */
  method ExtractPriceFromContainer(r: PriceReadings) returns (price: string)
    ensures price == FirstHit(PriceOutcomes(r)).GetOr("")
  {
    price := RunStrategies(PriceOutcomes(r));
  }

  /** Whatever the price chain returns is "" or carries a rupee sign or "Rs". */
  lemma PriceIsMarked(r: PriceReadings)
    ensures var price := FirstHit(PriceOutcomes(r)).GetOr("");
      price == "" || IsPriceText(price)
  {
    var outcomes := PriceOutcomes(r);
    assert forall i | 0 <= i < |outcomes| && outcomes[i].Some? :: IsPriceText(outcomes[i].value) by {
      forall i | 0 <= i < |outcomes| && outcomes[i].Some?
        ensures IsPriceText(outcomes[i].value)
      {
        if i < |r.selectorTexts| {
          assert outcomes[i] == SelectorPrice(r.selectorTexts[i]);
        } else {
          assert outcomes[i] == PatternPrice(r.patternGroup);
        }
      }
    }
  }

  /** The chain returns a price whenever the pattern finds one, whatever the selectors read. */
  lemma PriceFoundWhenPatternMatches(r: PriceReadings)
    requires r.patternGroup.Some?
    ensures FirstHit(PriceOutcomes(r)).Some?
  {
    assert PriceOutcomes(r)[|r.selectorTexts|] == PatternPrice(r.patternGroup);
  }
}
