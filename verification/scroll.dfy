/**
 * The scroll loop of `scroll_to_bottom_enhanced`
 * (scrape_bestsellers_updated.py:284-335). The page is reduced to the ASIN
 * container counts it reports: `readings[i]` is the count read after scroll
 * `i + 1`, `finalReading` the count read once the loop is over.
 */
module Scroll {

  /** Default number of scrolls (scrape_bestsellers_updated.py:284). */
  const MaxScrolls: nat := 8
  /** Unchanged readings in a row after which the page may count as loaded (:323). */
  const StableThreshold: nat := 2
  /** Containers the page must show before the loop may stop early (:323). */
  const SettledCount: nat := 20
  /** Below this many containers the loop waits longer (:328). */
  const LowCount: nat := 10
  /** The longer wait starts at this (zero-based) scroll number (:328). */
  const LowAfterScroll: nat := 3

  /** `last_asin_count` after `counts`: the largest of 0 and the readings. */
  function MaxCount(counts: seq<nat>): nat
    decreases |counts|
  {
    if counts == [] then 0
    else
      var before := MaxCount(counts[..|counts| - 1]);
      if counts[|counts| - 1] > before then counts[|counts| - 1] else before
  }

  /** `MaxCount` bounds every reading and is 0 or one of them. */
  lemma {:induction false} MaxCountIsMaximum(counts: seq<nat>)
    ensures forall i | 0 <= i < |counts| :: counts[i] <= MaxCount(counts)
    ensures MaxCount(counts) == 0 || exists i | 0 <= i < |counts| :: counts[i] == MaxCount(counts)
    decreases |counts|
  {
    if counts != [] {
      var init := counts[..|counts| - 1];
      MaxCountIsMaximum(init);
      assert forall i | 0 <= i < |init| :: counts[i] == init[i];
    }
  }

  /** Whether reading `i` raised the count above every reading before it. */
  predicate Grew(counts: seq<nat>, i: nat)
    requires i < |counts|
  {
    counts[i] > MaxCount(counts[..i])
  }

  /** `stable_iterations` after `counts`. */
  function StableRun(counts: seq<nat>): (s: nat)
    ensures s <= |counts|
    decreases |counts|
  {
    if counts == [] then 0
    else
      var init := counts[..|counts| - 1];
      if counts[|counts| - 1] > MaxCount(init) then 0 else StableRun(init) + 1
  }

  /**
   * `stable_iterations` is the number of readings since the last one that
   * raised the count (all of them if none did).
   */
  lemma {:induction false} StableRunSinceLastGrowth(counts: seq<nat>)
    ensures var s := StableRun(counts);
      && (forall i | |counts| - s <= i < |counts| :: !Grew(counts, i))
      && (s < |counts| ==> Grew(counts, |counts| - s - 1))
    decreases |counts|
  {
    if counts != [] {
      var init := counts[..|counts| - 1];
      StableRunSinceLastGrowth(init);
      assert forall i | 0 <= i < |init| :: init[..i] == counts[..i];
      assert forall i | 0 <= i < |init| :: Grew(counts, i) == Grew(init, i);
    }
  }

  /** The early-exit test after the readings `counts` (scrape_bestsellers_updated.py:323). */
  predicate Settled(counts: seq<nat>) {
    |counts| > 0 && StableRun(counts) >= StableThreshold && counts[|counts| - 1] >= SettledCount
  }

  /** How many of the readings `counts` were followed by the longer wait (:328-330). */
  function LowWaits(counts: seq<nat>): (w: nat)
    ensures w <= |counts|
    decreases |counts|
  {
    if counts == [] then 0
    else
      var n := |counts| - 1;
      LowWaits(counts[..n]) + if n >= LowAfterScroll && counts[n] < LowCount then 1 else 0
  }

  /** The longer wait follows exactly the readings from scroll 4 on that are below 10. */
  lemma {:induction false} LowWaitsCountsLowReadings(counts: seq<nat>)
    ensures LowWaits(counts) == |set i | 0 <= i < |counts| && i >= LowAfterScroll && counts[i] < LowCount|
    decreases |counts|
  {
    if counts != [] {
      var n := |counts| - 1;
      var init := counts[..n];
      LowWaitsCountsLowReadings(init);
      assert (set i | 0 <= i < |counts| && i >= LowAfterScroll && counts[i] < LowCount)
          == (set i | 0 <= i < |init| && i >= LowAfterScroll && init[i] < LowCount)
           + (if n >= LowAfterScroll && counts[n] < LowCount then {n} else {});
    }
  }

  /**
   * The loop of `scroll_to_bottom_enhanced`, returning the loop state it ends
   * with: it scrolls until the readings settle, at most `maxScrolls` times,
   * and returns the count read after the loop.
   */
  method ScrollToBottomEnhanced(readings: seq<nat>, maxScrolls: nat, finalReading: nat)
    returns (finalCount: nat, scrolls: nat, lastCount: nat, stable: nat, extendedWaits: nat)
    requires |readings| >= maxScrolls
    ensures finalCount == finalReading
    ensures scrolls <= maxScrolls
    ensures lastCount == MaxCount(readings[..scrolls])
    ensures stable == StableRun(readings[..scrolls])
    ensures scrolls == maxScrolls || Settled(readings[..scrolls])
    ensures forall n | 1 <= n < scrolls :: !Settled(readings[..n])
    ensures extendedWaits == LowWaits(readings[..scrolls])
  {
    lastCount, stable, scrolls, extendedWaits := 0, 0, 0, 0;
    while scrolls < maxScrolls
      invariant scrolls <= maxScrolls
      invariant lastCount == MaxCount(readings[..scrolls])
      invariant stable == StableRun(readings[..scrolls])
      invariant forall n | 1 <= n <= scrolls :: !Settled(readings[..n])
      invariant extendedWaits == LowWaits(readings[..scrolls])
    {
      var current := readings[scrolls];
      assert readings[..scrolls + 1] == readings[..scrolls] + [current];
      ReadingStep(readings[..scrolls], current);
      if current > lastCount {
        lastCount := current;
        stable := 0;
      } else {
        stable := stable + 1;
      }
      if stable >= StableThreshold && current >= SettledCount {
        scrolls := scrolls + 1;
        break;
      }
      if current < LowCount && scrolls >= LowAfterScroll {
        extendedWaits := extendedWaits + 1;
      }
      scrolls := scrolls + 1;
    }
    finalCount := finalReading;
  }

  /** What one more reading does to the loop state. */
  lemma ReadingStep(counts: seq<nat>, current: nat)
    ensures MaxCount(counts + [current]) == if current > MaxCount(counts) then current else MaxCount(counts)
    ensures StableRun(counts + [current]) == if current > MaxCount(counts) then 0 else StableRun(counts) + 1
    ensures LowWaits(counts + [current])
         == LowWaits(counts) + if |counts| >= LowAfterScroll && current < LowCount then 1 else 0
  {
    assert (counts + [current])[..|counts|] == counts;
  }

  /** `last_asin_count` never decreases as readings come in. */
  lemma {:induction false} MaxCountMonotone(counts: seq<nat>, n: nat)
    requires n <= |counts|
    ensures MaxCount(counts[..n]) <= MaxCount(counts)
    decreases |counts|
  {
    if n < |counts| {
      var init := counts[..|counts| - 1];
      assert init[..n] == counts[..n];
      MaxCountMonotone(init, n);
      assert MaxCount(init) <= MaxCount(counts);
    } else {
      assert counts[..n] == counts;
    }
  }

  /**
   * An early exit means the last two readings added nothing: the count the loop
   * ends with was already reached two scrolls before, and it is at least 20.
   */
  lemma SettledMeansNoGrowth(counts: seq<nat>)
    requires Settled(counts)
    ensures |counts| >= 2
    ensures MaxCount(counts) == MaxCount(counts[..|counts| - 2])
    ensures MaxCount(counts) >= SettledCount
  {
    MaxCountIsMaximum(counts);
    var n := |counts|;
    StableRunSinceLastGrowth(counts);
    assert !Grew(counts, n - 1) && !Grew(counts, n - 2);
    var init := counts[..n - 1];
    assert init[..n - 2] == counts[..n - 2];
  }

  /** A page that never shows 20 containers is scrolled the full number of times. */
  lemma FewContainersScrollFully(readings: seq<nat>, n: nat)
    requires n <= |readings|
    requires forall i | 0 <= i < |readings| :: readings[i] < SettledCount
    ensures !Settled(readings[..n])
  {
  }
}
