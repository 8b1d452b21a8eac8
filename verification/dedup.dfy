/**
 * `deduplicate_products` (scrape_bestsellers_updated.py:612-639): the pass over
 * the records of both pages of a category, keyed by ASIN where a record has
 * one and by link otherwise, which drops the ASIN from what it returns.
 */
module Dedup {

  import opened Wrappers
  import opened Seqs
  import opened Records

  /** The key a record is meant to be deduplicated by. */
  datatype DedupKey = ByAsin(asin: string) | ByLink(link: string)

  /** `item.get("asin", "")`, with None read as "" (both are falsy). */
  function AsinOf(p: Product): string {
    p.asin.GetOr("")
  }

  /** The record with its "asin" entry removed. */
  function StripAsin(p: Product): (r: Product)
    ensures r.asin.None?
    ensures r.(asin := p.asin) == p
  {
    p.(asin := None)
  }

  function StripAll(ps: seq<Product>): (rs: seq<Product>)
    ensures |rs| == |ps|
    ensures forall k | 0 <= k < |ps| :: rs[k] == StripAsin(ps[k])
    decreases |ps|
  {
    if ps == [] then [] else [StripAsin(ps[0])] + StripAll(ps[1..])
  }

  /** The non-empty ASINs of `xs`. */
  function Asins(xs: seq<Product>): set<string>
    decreases |xs|
  {
    if xs == [] then {} else (if AsinOf(xs[0]) != "" then {AsinOf(xs[0])} else {}) + Asins(xs[1..])
  }

  /** The non-empty links of `xs`. */
  function Links(xs: seq<Product>): set<string>
    decreases |xs|
  {
    if xs == [] then {} else (if xs[0].link != "" then {xs[0].link} else {}) + Links(xs[1..])
  }

  // ---------------------------------------------------------------------------
  // As written
  // ---------------------------------------------------------------------------

  /**
   * The loop of `deduplicate_products` from the sets of ASINs and links seen so
   * far. A record whose ASIN is new is kept; otherwise (its ASIN is empty OR
   * already seen) it is kept when its link is new.
   */
  function DedupProducts(xs: seq<Product>, seenAsins: set<string>, seenLinks: set<string>): (ys: seq<Product>)
    ensures |ys| <= |xs|
    ensures forall k | 0 <= k < |ys| :: ys[k].asin.None?
    decreases |xs|
  {
    if xs == [] then []
    else
      var asin, link := AsinOf(xs[0]), xs[0].link;
      if asin != "" && asin !in seenAsins then
        [StripAsin(xs[0])] + DedupProducts(xs[1..], seenAsins + {asin}, seenLinks)
      else if link != "" && link !in seenLinks then
        [StripAsin(xs[0])] + DedupProducts(xs[1..], seenAsins, seenLinks + {link})
      else
        DedupProducts(xs[1..], seenAsins, seenLinks)
  }

  lemma {:induction false} SubsetCardinality<T>(a: set<T>, b: set<T>)
    requires a <= b
    ensures |a| <= |b|
    decreases |b|
  {
    if a != {} {
      var x :| x in a;
      SubsetCardinality(a - {x}, b - {x});
    }
  }

  /** What the pass keeps is, in order, a selection of the input without the ASIN. */
  lemma {:induction false} DedupProductsSubsequence(xs: seq<Product>, seenAsins: set<string>, seenLinks: set<string>)
    ensures IsSubsequence(DedupProducts(xs, seenAsins, seenLinks), StripAll(xs))
    decreases |xs|
  {
    if xs != [] {
      var asin, link := AsinOf(xs[0]), xs[0].link;
      var ys := DedupProducts(xs, seenAsins, seenLinks);
      var s := StripAll(xs);
      assert s[0] == StripAsin(xs[0]) && s[1..] == StripAll(xs[1..]);
      if asin != "" && asin !in seenAsins {
        DedupProductsSubsequence(xs[1..], seenAsins + {asin}, seenLinks);
        assert ys[1..] == DedupProducts(xs[1..], seenAsins + {asin}, seenLinks);
      } else if link != "" && link !in seenLinks {
        DedupProductsSubsequence(xs[1..], seenAsins, seenLinks + {link});
        assert ys[1..] == DedupProducts(xs[1..], seenAsins, seenLinks + {link});
      } else {
        DedupProductsSubsequence(xs[1..], seenAsins, seenLinks);
      }
    }
  }

  /** The pass keeps at most one record per new ASIN plus one per new link. */
  lemma {:induction false} DedupProductsBound(xs: seq<Product>, seenAsins: set<string>, seenLinks: set<string>)
    ensures |DedupProducts(xs, seenAsins, seenLinks)| <= |Asins(xs) - seenAsins| + |Links(xs) - seenLinks|
    decreases |xs|
  {
    if xs != [] {
      var asin, link := AsinOf(xs[0]), xs[0].link;
      var restA, restL := Asins(xs[1..]), Links(xs[1..]);
      assert restA <= Asins(xs) && restL <= Links(xs);
      SubsetCardinality(restA - seenAsins, Asins(xs) - seenAsins);
      SubsetCardinality(restL - seenLinks, Links(xs) - seenLinks);
      if asin != "" && asin !in seenAsins {
        DedupProductsBound(xs[1..], seenAsins + {asin}, seenLinks);
        assert Asins(xs) - seenAsins == {asin} + (restA - (seenAsins + {asin}));
      } else if link != "" && link !in seenLinks {
        DedupProductsBound(xs[1..], seenAsins, seenLinks + {link});
        assert Links(xs) - seenLinks == {link} + (restL - (seenLinks + {link}));
      } else {
        DedupProductsBound(xs[1..], seenAsins, seenLinks);
      }
    }
  }

  /** Dropping every record that has neither an ASIN nor a link changes nothing. */
  function Keyed(xs: seq<Product>): (ks: seq<Product>)
    ensures forall k | 0 <= k < |ks| :: AsinOf(ks[k]) != "" || ks[k].link != ""
    decreases |xs|
  {
    if xs == [] then []
    else if AsinOf(xs[0]) == "" && xs[0].link == "" then Keyed(xs[1..])
    else [xs[0]] + Keyed(xs[1..])
  }

  lemma {:induction false} DedupProductsIgnoresKeyless(xs: seq<Product>, seenAsins: set<string>, seenLinks: set<string>)
    ensures DedupProducts(xs, seenAsins, seenLinks) == DedupProducts(Keyed(xs), seenAsins, seenLinks)
    decreases |xs|
  {
    if xs != [] {
      var asin, link := AsinOf(xs[0]), xs[0].link;
      if asin != "" && asin !in seenAsins {
        DedupProductsIgnoresKeyless(xs[1..], seenAsins + {asin}, seenLinks);
        assert ([xs[0]] + Keyed(xs[1..]))[1..] == Keyed(xs[1..]);
      } else if link != "" && link !in seenLinks {
        DedupProductsIgnoresKeyless(xs[1..], seenAsins, seenLinks + {link});
        assert ([xs[0]] + Keyed(xs[1..]))[1..] == Keyed(xs[1..]);
      } else {
        DedupProductsIgnoresKeyless(xs[1..], seenAsins, seenLinks);
        if asin != "" || link != "" {
          assert ([xs[0]] + Keyed(xs[1..]))[1..] == Keyed(xs[1..]);
        }
      }
    }
  }

  /** The method's loop, with its two seen-sets and its `dedup_key`. */
  method DeduplicateProducts(items: seq<Product>) returns (unique: seq<Product>)
    ensures unique == DedupProducts(items, {}, {})
  {
    var seenLinks: set<string> := {};
    var seenAsins: set<string> := {};
    unique := [];
    for i := 0 to |items|
      invariant unique + DedupProducts(items[i..], seenAsins, seenLinks) == DedupProducts(items, {}, {})
    {
      assert items[i..][1..] == items[i + 1..];
      var link := items[i].link;
      var asin := AsinOf(items[i]);
      var dedupKey: Option<DedupKey> := None;
      if asin != "" && asin !in seenAsins {
        dedupKey := Some(ByAsin(asin));
        seenAsins := seenAsins + {asin};
      } else if link != "" && link !in seenLinks {
        dedupKey := Some(ByLink(link));
        seenLinks := seenLinks + {link};
      }
      if dedupKey.Some? {
        unique := unique + [StripAsin(items[i])];
      }
    }
    assert items[|items|..] == [];
  }

  /** The properties the method promises, about the pass from empty seen-sets. */
  lemma DedupProductsSummary(items: seq<Product>)
    ensures var unique := DedupProducts(items, {}, {});
      && IsSubsequence(unique, StripAll(items))
      && |unique| <= |Asins(items)| + |Links(items)|
      && (forall k | 0 <= k < |unique| :: unique[k].asin.None?)
  {
    var unique := DedupProducts(items, {}, {});
    DedupProductsSubsequence(items, {}, {});
    DedupProductsBound(items, {}, {});
    SubsequenceFacts(unique, StripAll(items));
    forall k | 0 <= k < |unique|
      ensures unique[k].asin.None?
    {
      assert unique[k] in StripAll(items);
    }
  }

  /** Without ASINs the pass as written is the intended one, and it returns distinct links. */
  lemma DedupProductsWithoutAsins(items: seq<Product>)
    requires forall k | 0 <= k < |items| :: AsinOf(items[k]) == ""
    ensures DedupProducts(items, {}, {}) == DedupProductsByKey(items)
    ensures var unique := DedupProducts(items, {}, {});
      forall i, j | 0 <= i < j < |unique| :: unique[i].link != unique[j].link
  {
    var noLinks: set<string> := {};
    DedupProductsIsByKeyWithoutAsins(items, {}, noLinks);
    assert (set l | l in noLinks :: ByLink(l)) == {};
    DedupProductsByKeyDistinct(items);
  }

  // ---------------------------------------------------------------------------
  // As intended
  // ---------------------------------------------------------------------------

  /** The intended key: the ASIN when there is one, else the link, else none. */
  function ProductKey(p: Product): (k: Option<DedupKey>)
    ensures k.None? <==> AsinOf(p) == "" && p.link == ""
    ensures AsinOf(p) != "" ==> k == Some(ByAsin(AsinOf(p)))
    ensures AsinOf(p) == "" && p.link != "" ==> k == Some(ByLink(p.link))
  {
    if AsinOf(p) != "" then Some(ByAsin(AsinOf(p)))
    else if p.link != "" then Some(ByLink(p.link))
    else None
  }

  /** One record per key, the first one met, without its ASIN. */
  function DedupProductsByKey(items: seq<Product>): (unique: seq<Product>)
    ensures |unique| <= |items|
    ensures forall k | 0 <= k < |unique| :: unique[k].asin.None?
  {
    StripAll(DedupBy(items, ProductKey, {}))
  }

  /**
   * The intended pass keeps at most one record per ASIN, at most one record per
   * link among records without an ASIN, and drops records with neither.
   */
  lemma DedupProductsByKeyAdmitsEachKeyOnce(items: seq<Product>)
    ensures var kept := DedupBy(items, ProductKey, {});
      && DedupProductsByKey(items) == StripAll(kept)
      && IsSubsequence(kept, items)
      && (forall k | 0 <= k < |kept| :: AsinOf(kept[k]) != "" || kept[k].link != "")
      && (forall a, b | 0 <= a < b < |kept| && AsinOf(kept[a]) != "" :: AsinOf(kept[a]) != AsinOf(kept[b]))
      && (forall a, b | 0 <= a < b < |kept| && AsinOf(kept[a]) == "" && AsinOf(kept[b]) == "" ::
            kept[a].link != kept[b].link)
  {
    var kept := DedupBy(items, ProductKey, {});
    DedupByProperties(items, ProductKey, {});
    forall a, b | 0 <= a < b < |kept| && AsinOf(kept[a]) != ""
      ensures AsinOf(kept[a]) != AsinOf(kept[b])
    {
      assert ProductKey(kept[a]) != ProductKey(kept[b]);
    }
    forall a, b | 0 <= a < b < |kept| && AsinOf(kept[a]) == "" && AsinOf(kept[b]) == ""
      ensures kept[a].link != kept[b].link
    {
      assert ProductKey(kept[a]) != ProductKey(kept[b]);
    }
  }

  /** The intended pass keeps the first record of every key, without its ASIN. */
  lemma DedupProductsByKeyKeepsFirst(items: seq<Product>, i: nat)
    requires i < |items|
    requires ProductKey(items[i]).Some? && ProductKey(items[i]).value !in KeySet(items[..i], ProductKey)
    ensures items[i] in DedupBy(items, ProductKey, {})
    ensures StripAsin(items[i]) in DedupProductsByKey(items)
  {
    var kept := DedupBy(items, ProductKey, {});
    DedupByKeepsFirst(items, ProductKey, {}, i);
    var k :| 0 <= k < |kept| && kept[k] == items[i];
    assert DedupProductsByKey(items)[k] == StripAsin(items[i]);
  }

  /**
   * On ASIN-free records the intended pass keeps one record per key, and a
   * record whose key is new sits at the position given by the number of keys
   * before it.
   */
  lemma DedupProductsByKeyPositions(items: seq<Product>)
    requires forall k | 0 <= k < |items| :: items[k].asin.None?
    ensures |DedupProductsByKey(items)| == |KeySet(items, ProductKey)|
    ensures forall i | 0 <= i < |items| && ProductKey(items[i]).Some?
                       && ProductKey(items[i]).value !in KeySet(items[..i], ProductKey) ::
      && |KeySet(items[..i], ProductKey)| < |DedupProductsByKey(items)|
      && DedupProductsByKey(items)[|KeySet(items[..i], ProductKey)|] == items[i]
  {
    DedupByLength(items, ProductKey, {});
    assert KeySet(items, ProductKey) - {} == KeySet(items, ProductKey);
    forall i | 0 <= i < |items| && ProductKey(items[i]).Some?
               && ProductKey(items[i]).value !in KeySet(items[..i], ProductKey)
      ensures |KeySet(items[..i], ProductKey)| < |DedupProductsByKey(items)|
      ensures DedupProductsByKey(items)[|KeySet(items[..i], ProductKey)|] == items[i]
    {
      DedupByKeepsFirstAt(items, ProductKey, {}, i);
      assert KeySet(items[..i], ProductKey) - {} == KeySet(items[..i], ProductKey);
      assert StripAsin(items[i]) == items[i];
    }
  }

  /** Links of the intended pass's output are distinct when no record has an ASIN. */
  lemma DedupProductsByKeyDistinct(items: seq<Product>)
    requires forall k | 0 <= k < |items| :: AsinOf(items[k]) == ""
    ensures var out := DedupProductsByKey(items);
      forall a, b | 0 <= a < b < |out| :: out[a].link != out[b].link
  {
    var kept := DedupBy(items, ProductKey, {});
    DedupByProperties(items, ProductKey, {});
    forall a, b | 0 <= a < b < |kept|
      ensures kept[a].link != kept[b].link
    {
      assert kept[a] in items && kept[b] in items;
      assert ProductKey(kept[a]) != ProductKey(kept[b]);
    }
  }

  /**
   * On records without an ASIN the pass as written is the intended pass: the
   * link branch alone decides, with the seen links as the seen keys.
   */
  lemma {:induction false} DedupProductsIsByKeyWithoutAsins(items: seq<Product>, seenAsins: set<string>, seenLinks: set<string>)
    requires forall k | 0 <= k < |items| :: AsinOf(items[k]) == ""
    ensures DedupProducts(items, seenAsins, seenLinks)
         == StripAll(DedupBy(items, ProductKey, set l | l in seenLinks :: ByLink(l)))
    decreases |items|
  {
    var seen := set l | l in seenLinks :: ByLink(l);
    if items != [] {
      var link := items[0].link;
      DedupProductsIsByKeyWithoutAsins(items[1..], seenAsins, seenLinks + {link});
      DedupProductsIsByKeyWithoutAsins(items[1..], seenAsins, seenLinks);
      assert (set l | l in seenLinks + {link} :: ByLink(l)) == seen + {ByLink(link)};
      assert ByLink(link) in seen <==> link in seenLinks;
      var rest := DedupBy(items[1..], ProductKey, seen + {ByLink(link)});
      assert ([items[0]] + rest)[1..] == rest;
    }
  }

  // ---------------------------------------------------------------------------
  // The discrepancy
  // ---------------------------------------------------------------------------

  /** A record met twice, with the same ASIN both times. */
  function Repeated(): Product {
    Product("#1", "Example product name", "/dp/B000000001", "", "", Some("B000000001"))
  }

  /**
   * As written, a record whose ASIN was already seen falls through to the link
   * branch and is kept again when its link is new: the same record twice, both
   * kept.
   */
  lemma DedupProductsKeepsRepeatedAsin()
    ensures DedupProducts([Repeated(), Repeated()], {}, {}) == [StripAsin(Repeated()), StripAsin(Repeated())]
    ensures DedupProductsByKey([Repeated(), Repeated()]) == [StripAsin(Repeated())]
  {
  }
}
