/**
 * `scrape_category` (scrape_bestsellers_updated.py:671-771): load the
 * category, extract page 1, move to page 2 when page 1 gave enough, merge
 * both pages without repeats, keep at most 100 records, and report counts.
 * An exception anywhere in these steps gives the same empty result whatever
 * step raised it, so it is an input: the message of the exception, if any.
 */
module Category {

  import opened Wrappers
  import opened Normalize
  import opened Seqs
  import opened Records
  import opened Validate
  import opened Dedup
  import opened Scroll
  import opened Extract
  import opened Paginate

  /** Below this many containers the page is reloaded once (:693). */
  const RefreshBelow: nat := 5
  /** Page 1 must give this many records before page 2 is tried (:710). */
  const SecondPageThreshold: nat := 15
  /** Records kept per category (:737). */
  const MaxCategoryItems: nat := 100

  /**
   * The "extraction_stats" dictionary. A successful run has
   * "initial_asin_count" and no "error"; a failed one the other way round.
   */
  datatype Stats = Stats(
    page1Items: nat,
    page2Items: nat,
    totalBeforeDedup: nat,
    finalUniqueItems: nat,
    initialAsinCount: Option<nat>,
    error: Option<string>)

  /** The dictionary `scrape_category` returns. */
  datatype CategoryResult = CategoryResult(categoryLink: string, categoryItems: seq<Product>, stats: Stats)

  /**
   * What the browser gives one category: the exception raised on the way (if
   * any), the container counts before and after the reload, the readings of
   * page 1, what each navigation strategy did, and the readings of page 2.
   */
  datatype CategoryReadings = CategoryReadings(
    raised: Option<string>,
    initialCount: nat,
    refreshedCount: nat,
    page1: PageReadings,
    attempts: seq<Attempt>,
    page2: PageReadings)

  /** Readings for every scroll of both pages and one outcome per navigation strategy. */
  predicate CompleteReadings(r: CategoryReadings) {
    && |r.page1.scrollReadings| >= MaxScrolls
    && |r.page2.scrollReadings| >= MaxScrolls
    && |r.attempts| == NavigationStrategies
  }

  /** The count reported as "initial_asin_count": re-read after the reload when it was below 5. */
  function InitialAsinCount(r: CategoryReadings): nat {
    if r.initialCount < RefreshBelow then r.refreshedCount else r.initialCount
  }

  /** Whether `navigate_to_next_page` returns True. */
  predicate Navigated(r: CategoryReadings) {
    exists i | 0 <= i < |r.attempts| :: Confirmed(r.attempts[i])
  }

  function FirstBatch(r: CategoryReadings, resolve: string -> string): seq<Product> {
    ValidateAndClean(ChosenItems(r.page1, resolve))
  }

  function SecondBatch(r: CategoryReadings, resolve: string -> string): seq<Product> {
    if |FirstBatch(r, resolve)| >= SecondPageThreshold && Navigated(r) then
      ValidateAndClean(ChosenItems(r.page2, resolve))
    else []
  }

  /** The result of the exception handler (:757-771). */
  function ErrorResult(url: string, message: string): CategoryResult {
    CategoryResult(url, [], Stats(0, 0, 0, 0, None, Some(message)))
  }

  /** What `scrape_category` returns for the readings `r`. */
  function CategoryOutcome(url: string, r: CategoryReadings, resolve: string -> string): (result: CategoryResult)
    ensures result.categoryLink == url
    ensures |result.categoryItems| <= MaxCategoryItems
    ensures r.raised.Some? ==> result.categoryItems == [] && result.stats.error == r.raised
  {
    if r.raised.Some? then ErrorResult(url, r.raised.value)
    else
      var first, second := FirstBatch(r, resolve), SecondBatch(r, resolve);
      var all := first + second;
      var unique := DedupProductsByKey(all);
      var final := unique[..Min(|unique|, MaxCategoryItems)];
      CategoryResult(url, final, Stats(|first|, |second|, |all|, |final|, Some(InitialAsinCount(r)), None))
  }

  /** The two extraction steps (:700-727): page 1, then page 2 when page 1 gave enough and navigation worked. */
  method ExtractBatches(r: CategoryReadings, resolve: string -> string) returns (firstBatch: seq<Product>, secondBatch: seq<Product>)
    requires CompleteReadings(r)
    ensures firstBatch == FirstBatch(r, resolve)
    ensures secondBatch == SecondBatch(r, resolve)
  {
    firstBatch := ExtractProductsOnPage(r.page1, resolve);
    secondBatch := [];
    if |firstBatch| >= SecondPageThreshold {
      var navigated, _ := NavigateToNextPage(r.attempts);
      if navigated {
        secondBatch := ExtractProductsOnPage(r.page2, resolve);
      }
    }
  }

  /** `scrape_category`: the steps in order, each on the readings of its own page. */
  method ScrapeCategory(url: string, r: CategoryReadings, resolve: string -> string) returns (result: CategoryResult)
    requires CompleteReadings(r)
    ensures result == CategoryOutcome(url, r, resolve)
  {
    if r.raised.Some? {
      return ErrorResult(url, r.raised.value);
    }
    var initialAsinCount := r.initialCount;
    if initialAsinCount < RefreshBelow {
      initialAsinCount := r.refreshedCount;
    }

    var firstBatch, secondBatch := ExtractBatches(r, resolve);
    var allItems := firstBatch + secondBatch;
    var uniqueItems := DeduplicateProducts(allItems);
    MergeIsByKey(r, resolve);
    var finalItems := uniqueItems[..Min(|uniqueItems|, MaxCategoryItems)];
    result := CategoryResult(url, finalItems,
      Stats(|firstBatch|, |secondBatch|, |allItems|, |finalItems|, Some(initialAsinCount), None));
  }

  /**
   * The counts agree with the records: at most 100 records, as many as
   * "final_unique_items" says, the total before merging is the sum of the two
   * pages, and page 2 gives nothing unless page 1 gave at least 15 records and
   * navigation succeeded. A failed run returns no records, zero counts and the
   * message.
   */
  lemma CategoryStats(url: string, r: CategoryReadings, resolve: string -> string)
    ensures CategoryOutcome(url, r, resolve).categoryLink == url
    ensures r.raised.None? ==>
      && |CategoryOutcome(url, r, resolve).categoryItems| <= MaxCategoryItems
      && |CategoryOutcome(url, r, resolve).categoryItems| == CategoryOutcome(url, r, resolve).stats.finalUniqueItems
      && CategoryOutcome(url, r, resolve).stats.totalBeforeDedup
         == CategoryOutcome(url, r, resolve).stats.page1Items + CategoryOutcome(url, r, resolve).stats.page2Items
      && CategoryOutcome(url, r, resolve).stats.finalUniqueItems <= CategoryOutcome(url, r, resolve).stats.totalBeforeDedup
      && (CategoryOutcome(url, r, resolve).stats.page1Items < SecondPageThreshold || !Navigated(r) ==>
            CategoryOutcome(url, r, resolve).stats.page2Items == 0)
      && CategoryOutcome(url, r, resolve).stats.initialAsinCount.Some?
      && CategoryOutcome(url, r, resolve).stats.error.None?
    ensures r.raised.Some? ==>
      && CategoryOutcome(url, r, resolve).categoryItems == []
      && CategoryOutcome(url, r, resolve).stats == Stats(0, 0, 0, 0, None, r.raised)
  {
    if r.raised.None? {
      var all := FirstBatch(r, resolve) + SecondBatch(r, resolve);
      MergeIsByKey(r, resolve);
      DedupProductsSubsequence(all, {}, {});
      SubsequenceFacts(DedupProducts(all, {}, {}), StripAll(all));
    }
  }

  /**
   * Validation drops every ASIN, so the merge as written keys on links alone
   * and agrees with the intended ASIN-or-link pass.
   */
  lemma MergeIsByKey(r: CategoryReadings, resolve: string -> string)
    ensures DedupProducts(FirstBatch(r, resolve) + SecondBatch(r, resolve), {}, {})
         == DedupProductsByKey(FirstBatch(r, resolve) + SecondBatch(r, resolve))
  {
    var all := FirstBatch(r, resolve) + SecondBatch(r, resolve);
    BatchesValid(r, resolve);
    assert forall k | 0 <= k < |all| :: AsinOf(all[k]) == "";
    DedupProductsWithoutAsins(all);
  }

  /** Records with no ASIN are left alone by the ASIN removal. */
  lemma {:induction false} StripAllAsinFree(xs: seq<Product>)
    requires forall k | 0 <= k < |xs| :: xs[k].asin.None?
    ensures StripAll(xs) == xs
    decreases |xs|
  {
    if xs != [] {
      StripAllAsinFree(xs[1..]);
      assert StripAsin(xs[0]) == xs[0];
    }
  }

  /** Both pages' records are valid and carry no ASIN. */
  lemma BatchesValid(r: CategoryReadings, resolve: string -> string)
    ensures var all := FirstBatch(r, resolve) + SecondBatch(r, resolve);
      forall k | 0 <= k < |all| :: ValidItem(all[k])
  {
    PageItemsValid(r.page1, resolve);
    PageItemsValid(r.page2, resolve);
    ConcatValid(FirstBatch(r, resolve), SecondBatch(r, resolve));
  }

  lemma ConcatValid(first: seq<Product>, second: seq<Product>)
    requires forall k | 0 <= k < |first| :: ValidItem(first[k])
    requires forall k | 0 <= k < |second| :: ValidItem(second[k])
    ensures forall k | 0 <= k < |first + second| :: ValidItem((first + second)[k])
  {
    var all := first + second;
    forall k | 0 <= k < |all|
      ensures ValidItem(all[k])
    {
      if k < |first| {
        assert all[k] == first[k];
      } else {
        assert all[k] == second[k - |first|];
      }
    }
  }

  /**
   * The records of a category are valid, no link appears twice even across
   * the two pages, and they come in page order: page 1's records, then page
   * 2's, with repeats left out.
   */
  lemma CategoryItemsValid(url: string, r: CategoryReadings, resolve: string -> string)
    ensures forall k | 0 <= k < |CategoryOutcome(url, r, resolve).categoryItems| ::
      ValidItem(CategoryOutcome(url, r, resolve).categoryItems[k])
    ensures forall i, j | 0 <= i < j < |CategoryOutcome(url, r, resolve).categoryItems| ::
      CategoryOutcome(url, r, resolve).categoryItems[i].link != CategoryOutcome(url, r, resolve).categoryItems[j].link
    ensures r.raised.None? ==>
      IsSubsequence(CategoryOutcome(url, r, resolve).categoryItems, FirstBatch(r, resolve) + SecondBatch(r, resolve))
  {
    if r.raised.None? {
      BatchesValid(r, resolve);
      MergeIsByKey(r, resolve);
      MergedItemsValid(FirstBatch(r, resolve) + SecondBatch(r, resolve));
    }
  }

  /**
   * Nothing but repeats is left out. A successful run keeps one record per
   * distinct link of the two pages, up to 100. A record whose link is new is
   * kept, when fewer than 100 distinct links come before it, at the position
   * given by their number.
   */
  lemma CategoryKeepsNewLinks(url: string, r: CategoryReadings, resolve: string -> string)
    ensures r.raised.None? ==>
      var all := FirstBatch(r, resolve) + SecondBatch(r, resolve);
      |CategoryOutcome(url, r, resolve).categoryItems| == Min(|KeySet(all, ProductKey)|, MaxCategoryItems)
    ensures r.raised.None? ==>
      var all := FirstBatch(r, resolve) + SecondBatch(r, resolve);
      forall i | 0 <= i < |all| && ProductKey(all[i]).Some? && ProductKey(all[i]).value !in KeySet(all[..i], ProductKey)
                 && |KeySet(all[..i], ProductKey)| < MaxCategoryItems ::
        && |KeySet(all[..i], ProductKey)| < |CategoryOutcome(url, r, resolve).categoryItems|
        && CategoryOutcome(url, r, resolve).categoryItems[|KeySet(all[..i], ProductKey)|] == all[i]
  {
    if r.raised.None? {
      var all := FirstBatch(r, resolve) + SecondBatch(r, resolve);
      BatchesValid(r, resolve);
      DedupProductsByKeyPositions(all);
    }
  }

  /** Merging valid records and keeping the first 100 gives valid records with distinct links, in order. */
  lemma MergedItemsValid(all: seq<Product>)
    requires forall k | 0 <= k < |all| :: ValidItem(all[k])
    ensures forall k | 0 <= k < Min(|DedupProducts(all, {}, {})|, MaxCategoryItems) ::
      ValidItem(DedupProducts(all, {}, {})[k])
    ensures forall i, j | 0 <= i < j < Min(|DedupProducts(all, {}, {})|, MaxCategoryItems) ::
      DedupProducts(all, {}, {})[i].link != DedupProducts(all, {}, {})[j].link
    ensures IsSubsequence(DedupProducts(all, {}, {})[..Min(|DedupProducts(all, {}, {})|, MaxCategoryItems)], all)
  {
    StripAllAsinFree(all);
    assert forall k | 0 <= k < |all| :: AsinOf(all[k]) == "";
    var unique := DedupProducts(all, {}, {});
    DedupProductsWithoutAsins(all);
    DedupProductsSubsequence(all, {}, {});
    SubsequenceFacts(unique, all);
    forall k | 0 <= k < |unique|
      ensures ValidItem(unique[k])
    {
      assert unique[k] in all;
    }
    PrefixIsSubsequence(unique, all, Min(|unique|, MaxCategoryItems));
  }
}
