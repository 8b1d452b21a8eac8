/**
 * Keyed first-occurrence deduplication, the pattern both deduplication
 * passes of the scraper follow: walk the records in order with a set of seen
 * keys, keep a record whose key is new, drop the rest.
 */
module Seqs {

  import opened Wrappers

  /** `ys` is `xs` with some elements left out, order kept. */
  ghost predicate IsSubsequence<T>(ys: seq<T>, xs: seq<T>)
    decreases |xs|
  {
    || ys == []
    || (xs != [] && ((ys[0] == xs[0] && IsSubsequence(ys[1..], xs[1..])) || IsSubsequence(ys, xs[1..])))
  }

  lemma {:induction false} SubsequenceFacts<T>(ys: seq<T>, xs: seq<T>)
    requires IsSubsequence(ys, xs)
    ensures |ys| <= |xs|
    ensures forall y | y in ys :: y in xs
    decreases |xs|
  {
    if ys != [] {
      if ys[0] == xs[0] && IsSubsequence(ys[1..], xs[1..]) {
        SubsequenceFacts(ys[1..], xs[1..]);
        assert ys == [ys[0]] + ys[1..];
      } else {
        SubsequenceFacts(ys, xs[1..]);
      }
    }
  }

  /** Every prefix of a subsequence is a subsequence. */
  lemma {:induction false} PrefixIsSubsequence<T>(ys: seq<T>, xs: seq<T>, n: nat)
    requires IsSubsequence(ys, xs) && n <= |ys|
    ensures IsSubsequence(ys[..n], xs)
    decreases |xs|
  {
    if n > 0 {
      if ys[0] == xs[0] && IsSubsequence(ys[1..], xs[1..]) {
        PrefixIsSubsequence(ys[1..], xs[1..], n - 1);
        assert ys[..n][1..] == ys[1..][..n - 1];
      } else {
        PrefixIsSubsequence(ys, xs[1..], n);
      }
    }
  }

  /** Index of the first element that satisfies `p`, or `|xs|` when none does. */
  function FirstWhere<T>(xs: seq<T>, p: T -> bool): (j: nat)
    ensures j <= |xs|
    ensures j < |xs| ==> p(xs[j])
    ensures forall k | 0 <= k < j :: !p(xs[k])
    decreases |xs|
  {
    if xs == [] || p(xs[0]) then 0
    else 1 + FirstWhere(xs[1..], p)
  }

  /** The keys of `xs`; records without a key contribute nothing. */
  function KeySet<T, K>(xs: seq<T>, key: T -> Option<K>): set<K>
    decreases |xs|
  {
    if xs == [] then {}
    else
      (match key(xs[0]) case None => {} case Some(k) => {k}) + KeySet(xs[1..], key)
  }

  /** Every element has a key and no two elements share one. */
  ghost predicate KeysDistinct<T, K>(ys: seq<T>, key: T -> Option<K>) {
    && (forall i | 0 <= i < |ys| :: key(ys[i]).Some?)
    && (forall i, j | 0 <= i < j < |ys| :: key(ys[i]) != key(ys[j]))
  }

  /**
   * Walk `xs` in order with the set `seen` of keys met so far: a record whose key
   * is absent or already seen is dropped, any other is kept and its key recorded.
   */
  function DedupBy<T, K(==)>(xs: seq<T>, key: T -> Option<K>, seen: set<K>): (ys: seq<T>)
    ensures |ys| <= |xs|
    decreases |xs|
  {
    if xs == [] then []
    else
      match key(xs[0])
      case None => DedupBy(xs[1..], key, seen)
      case Some(k) =>
        if k in seen then DedupBy(xs[1..], key, seen)
        else [xs[0]] + DedupBy(xs[1..], key, seen + {k})
  }

  /**
   * The result keeps order, holds each key not seen before exactly once, and
   * holds nothing else.
   */
  lemma {:induction false} DedupByProperties<T, K>(xs: seq<T>, key: T -> Option<K>, seen: set<K>)
    ensures var ys := DedupBy(xs, key, seen);
      && IsSubsequence(ys, xs)
      && |ys| <= |xs|
      && (forall y | y in ys :: y in xs)
      && KeysDistinct(ys, key)
      && (forall i | 0 <= i < |ys| :: key(ys[i]).value !in seen)
      && KeySet(ys, key) == KeySet(xs, key) - seen
    decreases |xs|
  {
    var ys := DedupBy(xs, key, seen);
    if xs != [] {
      match key(xs[0])
      case None =>
        DedupByProperties(xs[1..], key, seen);
      case Some(k) =>
        if k in seen {
          DedupByProperties(xs[1..], key, seen);
        } else {
          var rest := DedupBy(xs[1..], key, seen + {k});
          DedupByProperties(xs[1..], key, seen + {k});
          assert ys == [xs[0]] + rest;
          assert ys[1..] == rest;
          assert KeySet(ys, key) == {k} + KeySet(rest, key);
        }
      SubsequenceFacts(ys, xs);
    }
  }

  /** Every record whose key is neither seen nor met earlier in `xs` is kept: the first occurrence wins. */
  lemma {:induction false} DedupByKeepsFirst<T, K>(xs: seq<T>, key: T -> Option<K>, seen: set<K>, i: nat)
    requires i < |xs| && key(xs[i]).Some?
    requires key(xs[i]).value !in seen && key(xs[i]).value !in KeySet(xs[..i], key)
    ensures xs[i] in DedupBy(xs, key, seen)
    decreases i
  {
    if i > 0 {
      assert xs[..i][1..] == xs[1..][..i - 1];
      assert xs[1..][i - 1] == xs[i];
      match key(xs[0])
      case None =>
        DedupByKeepsFirst(xs[1..], key, seen, i - 1);
      case Some(k) =>
        if k in seen {
          DedupByKeepsFirst(xs[1..], key, seen, i - 1);
        } else {
          DedupByKeepsFirst(xs[1..], key, seen + {k}, i - 1);
        }
    }
  }

  /** The number of records kept is the number of keys not seen before. */
  lemma {:induction false} DedupByLength<T, K>(xs: seq<T>, key: T -> Option<K>, seen: set<K>)
    ensures |DedupBy(xs, key, seen)| == |KeySet(xs, key) - seen|
    decreases |xs|
  {
    if xs != [] {
      var rest := KeySet(xs[1..], key);
      match key(xs[0])
      case None =>
        DedupByLength(xs[1..], key, seen);
      case Some(k) =>
        assert KeySet(xs, key) == {k} + rest;
        if k in seen {
          DedupByLength(xs[1..], key, seen);
          assert KeySet(xs, key) - seen == rest - seen;
        } else {
          DedupByLength(xs[1..], key, seen + {k});
          NewKeyCount(k, rest, seen);
        }
    }
  }

  /** A pass over `a + b` is the pass over `a`, then a pass over `b` that has seen `a`'s keys too. */
  lemma {:induction false} DedupByAppend<T, K>(a: seq<T>, b: seq<T>, key: T -> Option<K>, seen: set<K>)
    ensures DedupBy(a + b, key, seen) == DedupBy(a, key, seen) + DedupBy(b, key, seen + KeySet(a, key))
    decreases |a|
  {
    if a == [] {
      assert a + b == b;
      assert seen + KeySet(a, key) == seen;
    } else {
      assert (a + b)[0] == a[0];
      assert (a + b)[1..] == a[1..] + b;
      var rest := KeySet(a[1..], key);
      match key(a[0])
      case None =>
        DedupByAppend(a[1..], b, key, seen);
        assert KeySet(a, key) == rest;
      case Some(k) =>
        assert KeySet(a, key) == {k} + rest;
        if k in seen {
          DedupByAppend(a[1..], b, key, seen);
          assert seen + KeySet(a, key) == seen + rest;
        } else {
          DedupByAppend(a[1..], b, key, seen + {k});
          assert seen + {k} + rest == seen + KeySet(a, key);
        }
    }
  }

  /**
   * A record whose key is new is kept at the position given by the number of
   * new keys before it.
   */
  lemma DedupByKeepsFirstAt<T, K>(xs: seq<T>, key: T -> Option<K>, seen: set<K>, i: nat)
    requires i < |xs| && key(xs[i]).Some?
    requires key(xs[i]).value !in seen && key(xs[i]).value !in KeySet(xs[..i], key)
    ensures |KeySet(xs[..i], key) - seen| < |DedupBy(xs, key, seen)|
    ensures DedupBy(xs, key, seen)[|KeySet(xs[..i], key) - seen|] == xs[i]
  {
    var a, b := xs[..i], xs[i..];
    assert a + b == xs;
    DedupByAppend(a, b, key, seen);
    DedupByLength(a, key, seen);
    assert b[0] == xs[i];
    assert DedupBy(b, key, seen + KeySet(a, key))[0] == xs[i];
  }

  /** Adding a fresh key adds one to the count of unseen keys. */
  lemma NewKeyCount<K>(k: K, rest: set<K>, seen: set<K>)
    requires k !in seen
    ensures |({k} + rest) - seen| == 1 + |rest - (seen + {k})|
  {
    assert ({k} + rest) - seen == {k} + (rest - (seen + {k}));
    assert k !in rest - (seen + {k});
  }
}
