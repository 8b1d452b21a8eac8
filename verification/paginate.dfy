/**
 * Moving from the first page of a category to the second
 * (scrape_bestsellers_updated.py:543-609): the URL rewrite of
 * `navigate_by_url_modification` and the strategy loop of
 * `navigate_to_next_page`. What the browser does with each strategy is an
 * input: the URL it ends up on and the number of ASIN containers it shows, or
 * that the strategy raised.
 */
module Paginate {

  import opened Text

  /** The number of navigation strategies tried, in order (:547-560). */
  const NavigationStrategies: nat := 5
  /** Containers that confirm a new page was loaded (:579). */
  const ConfirmingContainers: nat := 10

  /** `"&" if "?" in url else "?"` (:601, :605). */
  function QuerySeparator(url: string): (sep: string)
    ensures sep == "&" || sep == "?"
    ensures sep == "&" <==> Contains(url, "?")
  {
    if Contains(url, "?") then "&" else "?"
  }

  /** The URL with its page parameter set to 2 by appending it (:602, :606). */
  function AppendSecondPage(url: string): string {
    url + QuerySeparator(url) + "pg=2"
  }

  /**
   * `navigate_by_url_modification`'s target (:591-609): with a "pg=" in the
   * URL, every "pg=1" becomes "pg=2", and when that changes nothing the
   * parameter is appended; without one, it is appended.
   */
  function NextPageUrl(url: string): (r: string)
    ensures Contains(r, "pg=2")
    ensures Contains(url, "pg=1") ==> r == ReplaceAll(url, "pg=1", "pg=2") && |r| == |url|
    ensures !Contains(url, "pg=1") ==> r == AppendSecondPage(url)
  {
    if Contains(url, "pg=") then
      var replaced := ReplaceAll(url, "pg=1", "pg=2");
      if replaced == url then
        ReplaceAllPresentOnlyIfChanged(url);
        ContainsSuffix(url + QuerySeparator(url), "pg=2");
        AppendSecondPage(url)
      else
        ChangedOnlyIfPresent(url);
        ReplaceAllPresent(url, "pg=1", "pg=2");
        replaced
    else
      NoPageParameter(url);
      ContainsSuffix(url + QuerySeparator(url), "pg=2");
      AppendSecondPage(url)
  }

  /** A string contains what it ends with. */
  lemma ContainsSuffix(s: string, t: string)
    ensures Contains(s + t, t)
  {
    ContainsAt(s + t, t, |s|);
  }

  /** Without "pg=" there is no "pg=1". */
  lemma NoPageParameter(url: string)
    requires !Contains(url, "pg=")
    ensures !Contains(url, "pg=1")
  {
  }

  /** `replace` leaves the URL alone exactly when it has no "pg=1". */
  lemma ReplaceAllPresentOnlyIfChanged(url: string)
    requires ReplaceAll(url, "pg=1", "pg=2") == url
    ensures !Contains(url, "pg=1")
  {
    if Contains(url, "pg=1") {
      ReplaceAllPresent(url, "pg=1", "pg=2");
    }
  }

  /** `replace` changes the URL only when it has a "pg=1". */
  lemma ChangedOnlyIfPresent(url: string)
    requires ReplaceAll(url, "pg=1", "pg=2") != url
    ensures Contains(url, "pg=1")
  {
    if !Contains(url, "pg=1") {
      ReplaceAllAbsent(url, "pg=1", "pg=2");
    }
  }

  /** What became of one strategy: it raised, or the page settled on `url` showing `containers`. */
  datatype Attempt = Raised | Landed(url: string, containers: nat)

  /** The check after a strategy (:571-581): the URL names page 2, or enough containers loaded. */
  predicate Confirmed(a: Attempt) {
    a.Landed? && (Contains(a.url, "pg=2") || Contains(a.url, "page=2") || a.containers >= ConfirmingContainers)
  }

  /**
   * `navigate_to_next_page` (:543-588): try the strategies in order and stop at
   * the first whose landing is confirmed. `tried` is the number of strategies
   * run.
   */
  method NavigateToNextPage(attempts: seq<Attempt>) returns (success: bool, tried: nat)
    requires |attempts| == NavigationStrategies
    ensures success <==> exists i | 0 <= i < |attempts| :: Confirmed(attempts[i])
    ensures 1 <= tried <= |attempts|
    ensures success ==> Confirmed(attempts[tried - 1])
    ensures forall k | 0 <= k < tried - 1 :: !Confirmed(attempts[k])
    ensures !success ==> tried == |attempts|
  {
    for i := 0 to |attempts|
      invariant forall k | 0 <= k < i :: !Confirmed(attempts[k])
    {
      match attempts[i]
      case Raised =>
        continue;
      case Landed(url, containers) =>
        if Contains(url, "pg=2") || Contains(url, "page=2") {
          return true, i + 1;
        }
        if containers >= ConfirmingContainers {
          return true, i + 1;
        }
    }
    return false, |attempts|;
  }

  /**
   * The content check (:577-581) does not look at where the browser is. A
   * strategy that left it on page 1, whose own containers number 10 or more,
   * is confirmed, and navigation reports success at once.
   */
  lemma StayingOnPageOneIsConfirmed(attempts: seq<Attempt>, pageOne: string, containers: nat)
    requires |attempts| == NavigationStrategies
    requires !Contains(pageOne, "pg=2") && !Contains(pageOne, "page=2")
    requires containers >= ConfirmingContainers
    requires attempts[0] == Landed(pageOne, containers)
    ensures Confirmed(attempts[0])
    ensures exists i | 0 <= i < |attempts| :: Confirmed(attempts[i])
  {
    assert Confirmed(attempts[0]);
  }

  /**
   * The last strategy goes to `NextPageUrl` of the current URL, which always
   * names page 2, so navigation fails only when that strategy raised or the
   * site sent it somewhere else.
   */
  lemma NavigationFailsOnlyIfRedirected(attempts: seq<Attempt>, current: string)
    requires |attempts| == NavigationStrategies
    requires !Confirmed(attempts[NavigationStrategies - 1])
    ensures attempts[NavigationStrategies - 1].Raised?
         || attempts[NavigationStrategies - 1].url != NextPageUrl(current)
  {
  }
}
