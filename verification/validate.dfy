/**
 * `validate_and_clean_items` (scrape_bestsellers_updated.py:103-139): clean
 * every record's fields, keep the meaningful ones, then drop repeated links.
 */
module Validate {

  import opened Wrappers
  import opened Text
  import opened Normalize
  import opened Seqs
  import opened Records

  /** A kept record's name must be longer than this (scrape_bestsellers_updated.py:127). */
  const MinNameLength: nat := 10

  /** What every record leaving validation satisfies. */
  predicate ValidItem(p: Product) {
    && MinNameLength < |p.name| <= MaxNameLength
    && Contains(p.link, ProductPathMarker)
    && (p.rank == "" || RankShape(p.rank))
    && |p.rating| <= MaxRatingLength
    && Normalized(p.price)
    && p.asin.None?
  }

  /**
   * One record through the first loop (scrape_bestsellers_updated.py:109-129):
   * the cleaned record, or None when it is skipped.
   */
  function CleanItem(item: Product): (r: Option<Product>)
    ensures r.Some? <==>
      && item.name != ""
      && Contains(item.link, ProductPathMarker)
      && |CleanText(item.name)| > MinNameLength
    ensures r.Some? ==> ValidItem(r.value)
    ensures r.Some? ==>
      && r.value.name == CleanProductName(item.name)
      && r.value.name <= CleanText(item.name)
      && |r.value.name| == Min(|CleanText(item.name)|, MaxNameLength)
      && r.value.link == item.link
      && r.value.rank == CleanRank(item.rank)
      && r.value.rating == CleanRating(item.rating)
      && r.value.rating <= CleanText(item.rating)
      && |r.value.rating| == Min(|CleanText(item.rating)|, MaxRatingLength)
      && r.value.price == CleanPrice(item.price)
      && Words(r.value.price) == Words(item.price)
  {
    if item.name == "" || item.link == "" then None
    else
      var v := Product(CleanRank(item.rank), CleanProductName(item.name), ValidateProductLink(item.link),
                       CleanRating(item.rating), CleanPrice(item.price), None);
      if v.name != "" && v.link != "" && |v.name| > MinNameLength then Some(v) else None
  }

  /** The list the first loop builds: the cleaned records that were kept, in order. */
  function ValidatedItems(items: seq<Product>): (vs: seq<Product>)
    ensures |vs| <= |items|
    ensures forall k | 0 <= k < |vs| :: ValidItem(vs[k])
    decreases |items|
  {
    if items == [] then []
    else
      var init := ValidatedItems(items[..|items| - 1]);
      match CleanItem(items[|items| - 1])
      case Some(v) => init + [v]
      case None => init
  }

  /** A record survives the first loop exactly when `CleanItem` keeps it. */
  lemma {:induction false} ValidatedItemsComplete(items: seq<Product>, i: nat)
    requires i < |items| && CleanItem(items[i]).Some?
    ensures CleanItem(items[i]).value in ValidatedItems(items)
    decreases |items|
  {
    if i < |items| - 1 {
      assert items[..|items| - 1][i] == items[i];
      ValidatedItemsComplete(items[..|items| - 1], i);
    }
  }

  /** The second loop's key: the record's link. */
  function LinkKey(p: Product): Option<string> {
    Some(p.link)
  }

  /** `validate_and_clean_items` as a function of its input. */
  function ValidateAndClean(items: seq<Product>): (unique: seq<Product>)
    ensures |unique| <= |items|
  {
    DedupBy(ValidatedItems(items), LinkKey, {})
  }

  /**
   * What `validate_and_clean_items` returns: every record is valid, no link
   * repeats, the records keep their order, and every link of a kept record is
   * returned.
   */
  lemma ValidateAndCleanProperties(items: seq<Product>)
    ensures var unique := ValidateAndClean(items);
      && IsSubsequence(unique, ValidatedItems(items))
      && |unique| <= |items|
      && (forall k | 0 <= k < |unique| :: ValidItem(unique[k]))
      && (forall i, j | 0 <= i < j < |unique| :: unique[i].link != unique[j].link)
      && KeySet(unique, LinkKey) == KeySet(ValidatedItems(items), LinkKey)
  {
    var validated := ValidatedItems(items);
    var unique := ValidateAndClean(items);
    DedupByProperties(validated, LinkKey, {});
    forall k | 0 <= k < |unique|
      ensures ValidItem(unique[k])
    {
      assert unique[k] in validated;
    }
  }

  /** `validate_and_clean_items` (scrape_bestsellers_updated.py:103-139): the two loops in turn. */
  method ValidateAndCleanItems(items: seq<Product>) returns (unique: seq<Product>)
    ensures unique == ValidateAndClean(items)
  {
    var validated := CleanEachItem(items);
    unique := DropRepeatedLinks(validated);
  }

  /** The first loop (:109-129): clean every record, keep the ones that pass. */
  method CleanEachItem(items: seq<Product>) returns (validated: seq<Product>)
    ensures validated == ValidatedItems(items)
  {
    validated := [];
    for i := 0 to |items|
      invariant validated == ValidatedItems(items[..i])
    {
      var item := items[i];
      assert items[..i + 1][..i] == items[..i];
      if item.name == "" || item.link == "" {
        continue;
      }
      var validatedItem := Product(CleanRank(item.rank), CleanProductName(item.name),
                                   ValidateProductLink(item.link), CleanRating(item.rating),
                                   CleanPrice(item.price), None);
      if validatedItem.name != "" && validatedItem.link != "" && |validatedItem.name| > MinNameLength {
        validated := validated + [validatedItem];
      }
    }
    assert items[..|items|] == items;
  }

  /** The second loop (:131-137): keep the first record of each link. */
  method DropRepeatedLinks(validated: seq<Product>) returns (unique: seq<Product>)
    ensures unique == DedupBy(validated, LinkKey, {})
  {
    var seenLinks: set<string> := {};
    unique := [];
    for i := 0 to |validated|
      invariant unique + DedupBy(validated[i..], LinkKey, seenLinks) == DedupBy(validated, LinkKey, {})
    {
      assert validated[i..][1..] == validated[i + 1..];
      if validated[i].link !in seenLinks {
        seenLinks := seenLinks + {validated[i].link};
        unique := unique + [validated[i]];
      }
    }
  }
}
