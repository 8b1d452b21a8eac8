# Amazon best-sellers scraper: a Dafny model of its extraction core

This project models the data path of `scrape_bestsellers_updated.py`, a
Playwright scraper that collects the best-seller lists of amazon.in category
by category, and proves properties of that model in Dafny.

The model covers:

- **Text primitives** (`Text`): `clean_text`, built from Python's `split()`,
  `" ".join`, `strip()`, `in`, `replace` and `lower()`.
- **Field normalizers** (`Normalize`): `clean_rank` (the leftmost match of
  `#?(\d+)`), `clean_product_name`, `validate_product_link`, `clean_rating`
  and `clean_price`.
- **Validation** (`Validate`): `validate_and_clean_items` as its two loops.
  The first cleans each record and keeps the meaningful ones. The second
  drops repeated links.
- **Deduplication** (`Dedup`): `deduplicate_products`, keyed by ASIN when a
  record has one and by link otherwise. It comes both as written and as
  evidently intended (see Findings).
- **Scrolling** (`Scroll`): the loop of `scroll_to_bottom_enhanced`, driven by
  the sequence of container counts the page reports.
- **Strategy chains** (`Strategies`): the rating and price chains of
  `extract_rating_from_container` and `extract_price_from_container`. The
  source defines both but calls neither: the container extractor reads one
  selector per field instead (scrape_bestsellers_updated.py:383-399), and the
  model of that extractor does the same.
- **Page extraction** (`Extract`):
  - the product-name filter, with the anchored pattern
    `^\d+\.?\d*\s*out\s*of\s*5` and the test for "star";
  - the ASIN-container extractor and the page-wide fallback;
  - the choice between them in `extract_products_on_page`.
- **Pagination** (`Paginate`): the URL rewrite of
  `navigate_by_url_modification` and the strategy loop of
  `navigate_to_next_page`.
- **Category scraping** (`Category`): `scrape_category`, both its successful
  result and its exception result.
- **Shared helpers:** a generic first-occurrence deduplication with a seen set
  (`Seqs`), the product record (`Records`) and an `Option` type (`Wrappers`).

### How the model stands in for the browser

The browser is replaced by *readings*: plain values holding what the code
reads from the page.

- Container counts, link texts and `href` attributes, badge and price texts,
  and aria-labels are inputs.
- An attribute that can be absent is an `Option`.
- A whole-container read that raised, and a link read that raised in the
  fallback's first loop, are `None`: their handlers skip them.
- In the fallback's second loop a badge, price or rating read that raised
  skips that one record. The positions where this happens are the input set
  `raised`.
- A strategy that raised is given as readings that match nothing.
- An exception in `scrape_category` is an input that carries its message.
- `urljoin(BASE_URL, href)` is the function parameter `resolve`.

Loops in the source are methods with loop invariants. Each method's result is
stated in terms of specification functions, and the properties are lemmas about
those functions.

Three results of note:

- **Validation drops every ASIN.** So the merge in `scrape_category` only ever
  sees records without one. On such records the as-written deduplication and
  the intended one coincide (`Category.MergeIsByKey`), so the category result
  is stated with the intended pass.
- **Two cleaners are not idempotent.** `clean_product_name` and
  `clean_rating` are proved fixed points of themselves when the cleaned text
  fits the limit (500 and 100 characters). Beyond the limit, a cut that ends
  on whitespace is a counterexample: the cut keeps a trailing space, which a
  second call strips (`Normalize.CleanProductNameNotIdempotent`,
  `Normalize.CleanRatingNotIdempotent`). Longer texts whose cut ends inside a
  word may still be fixed points; the model claims nothing about them.
- **Navigation can succeed without leaving page 1.** The content check counts
  the containers of whatever page is loaded. A strategy that did not navigate
  is confirmed by page 1's own containers when they number 10 or more
  (`Paginate.StayingOnPageOneIsConfirmed`). Page 2 then re-reads page 1, and
  the merge drops every repeat. The model follows the code.

## Model

Source paths are relative to the repository; all lines are in `scrape_bestsellers_updated.py`.

Some definitions transcribe a test of the code and carry no contract of their
own. Their rows name the lemmas that state what they mean:

- `Text.CleanText`: `Text.CleanTextSpec`.
- `Extract.IsProductName`: `Extract.ProductNameFilter`.
- `Extract.StartsWithRatingPhrase`: `Extract.RatingPhraseIsPattern`.
- `Extract.HasStar`: `Extract.HasStarIsContains`.
- `Scroll.MaxCount`: `Scroll.MaxCountIsMaximum`.
- `Scroll.Settled`: `Scroll.SettledMeansNoGrowth` and `Scroll.FewContainersScrollFully`.
- `Paginate.Confirmed`: `Paginate.NavigateToNextPage` and `Paginate.NavigationFailsOnlyIfRedirected`.

| member | source | states |
|---|---|---|
| Text.CleanTextSpec | scrape_bestsellers_updated.py:85-90 | `clean_text` returns a normalized string: whitespace only as single spaces, none at either end. It has exactly the words of the input, and it is "" exactly when the input is empty or all whitespace |
| Text.CleanOptSpec | scrape_bestsellers_updated.py:85-90 | `clean_text` of an attribute that may be None is normalized, and "" exactly when the attribute is None or all whitespace |
| Text.CleanTextFixedPoint | scrape_bestsellers_updated.py:85-90 | the strings `clean_text` leaves unchanged are exactly the normalized ones |
| Text.CleanTextIdempotent | scrape_bestsellers_updated.py:85-90 | `clean_text(clean_text(s)) == clean_text(s)` |
| Text.CleanTextDeterminedByWords | scrape_bestsellers_updated.py:85-90 | two inputs with the same `split()` clean to the same text |
| Text.WordsOfJoin | scrape_bestsellers_updated.py:90 | round trip: splitting words joined with single spaces gives the same words |
| Text.JoinWordsOfNormalized | scrape_bestsellers_updated.py:90 | round trip the other way: a normalized string is the join of its own words |
| Text.Words | scrape_bestsellers_updated.py:90 | `split()` returns non-empty, whitespace-free words, and returns none exactly when the text is all whitespace |
| Text.ReplaceAll | scrape_bestsellers_updated.py:599 | `replace` with a replacement as long as the pattern keeps the length of the string |
| Text.WordsOfWord | scrape_bestsellers_updated.py:90 | a single whitespace-free, non-empty word splits to itself alone |
| Text.WordsSplitAtSpace | scrape_bestsellers_updated.py:90 | `split()` at a whitespace character is the words before it followed by the words after it |
| Text.ReplaceAllAbsent | scrape_bestsellers_updated.py:599 | `replace` changes nothing when the pattern does not occur |
| Text.ReplaceAllPresent | scrape_bestsellers_updated.py:599 | when the pattern occurs, `replace` with a different replacement of the same length changes the string, and the replacement then occurs in it |
| Normalize.CleanRank | scrape_bestsellers_updated.py:142-147 | `clean_rank` is "" exactly when the text has no digit; otherwise it is "#" followed by one or more digits |
| Normalize.SearchRankFindsFirstRun | scrape_bestsellers_updated.py:145-146 | the leftmost match of `#?(\d+)` captures exactly the first maximal run of digits |
| Normalize.CleanRankIsFirstRun | scrape_bestsellers_updated.py:142-147 | `clean_rank` is "#" followed by the first maximal digit run, so "Best Sellers Rank #42" gives "#42" |
| Normalize.CleanRankOfRank | scrape_bestsellers_updated.py:142-147 | a rank already of the form "#digits" is returned unchanged (`clean_rank("#1") == "#1"`) |
| Normalize.CleanRankIdempotent | scrape_bestsellers_updated.py:142-147 | `clean_rank` is idempotent |
| Normalize.CleanProductName | scrape_bestsellers_updated.py:150-156 | the result is a prefix of the cleaned name, of length min(cleaned length, 500) |
| Normalize.CleanProductNameIdempotentWhenShort | scrape_bestsellers_updated.py:150-156 | a name whose cleaned text fits in 500 characters is a fixed point of a second call |
| Normalize.CleanProductNameNotIdempotent | scrape_bestsellers_updated.py:155-156 | some name is changed by a second call: the 500-character cut can end on a space |
| Normalize.CutLeavesTrailingSpace | scrape_bestsellers_updated.py:156 | a normalized text cut just after a word cleans to that cut without its trailing space |
| Normalize.ValidateProductLink | scrape_bestsellers_updated.py:159-163 | the link is returned unchanged exactly when it contains "/dp/", and "" otherwise |
| Normalize.ValidateProductLinkIdempotent | scrape_bestsellers_updated.py:159-163 | `validate_product_link` is idempotent |
| Normalize.CleanRating | scrape_bestsellers_updated.py:166-171 | the result is a prefix of the cleaned text, of length min(cleaned length, 100) |
| Normalize.CleanRatingIdempotentWhenShort | scrape_bestsellers_updated.py:166-171 | a rating whose cleaned text fits in 100 characters is a fixed point of a second call |
| Normalize.CleanRatingNotIdempotent | scrape_bestsellers_updated.py:171 | some rating is changed by a second call |
| Normalize.CleanPrice | scrape_bestsellers_updated.py:174-178 | the price is normalized and keeps exactly the words of its input |
| Normalize.CleanPriceIdempotent | scrape_bestsellers_updated.py:174-178 | `clean_price` is idempotent |
| Validate.CleanItem | scrape_bestsellers_updated.py:109-129 | a record is kept exactly when it has a name, its link contains "/dp/" and its cleaned name is longer than 10. A kept record is valid: name of 11..500 characters, "/dp/" link, rank "" or "#digits", rating of at most 100 characters, normalized price, no ASIN. The name is exactly `clean_product_name` of the input (a prefix of its cleaned text, of length min(cleaned length, 500)), the rating exactly `clean_rating` of it (min(cleaned length, 100) characters), the rank `clean_rank` of it, the link unchanged and the price `clean_price` of it, with the same words |
| Validate.ValidatedItems | scrape_bestsellers_updated.py:109-129 | the first loop keeps at most as many records as it is given, all of them valid |
| Validate.ValidatedItemsComplete | scrape_bestsellers_updated.py:109-129 | every record the per-record test accepts reaches the validated list |
| Validate.ValidateAndClean | scrape_bestsellers_updated.py:103-139 | validation never returns more records than it is given |
| Validate.ValidateAndCleanProperties | scrape_bestsellers_updated.py:103-139 | the output is an order-preserving selection of the validated records. Every record is valid and no link repeats. Every link of a validated record is still present |
| Validate.ValidateAndCleanItems | scrape_bestsellers_updated.py:103-139 | the method computes `ValidateAndClean`: the first loop, then first-occurrence deduplication by link |
| Validate.CleanEachItem | scrape_bestsellers_updated.py:109-129 | the first loop builds exactly the list of cleaned records that pass, in input order |
| Validate.DropRepeatedLinks | scrape_bestsellers_updated.py:131-137 | the second loop keeps the first record of each link, in order |
| Seqs.DedupByProperties | scrape_bestsellers_updated.py:131-137 | a seen-set pass returns an order-preserving selection. Every kept record has a key, no key repeats and no kept key was seen before. The kept keys are exactly the input keys not seen before |
| Seqs.DedupBy | scrape_bestsellers_updated.py:131-137 | a seen-set pass never returns more records than it is given |
| Seqs.DedupByKeepsFirst | scrape_bestsellers_updated.py:131-137 | the first record carrying a key not seen before is kept |
| Seqs.DedupByAppend | scrape_bestsellers_updated.py:131-137 | a seen-set pass over two lists is the pass over the first, then a pass over the second that has seen the first's keys too |
| Seqs.DedupByKeepsFirstAt | scrape_bestsellers_updated.py:131-137 | a record with a new key is kept at the position given by the number of new keys before it |
| Seqs.DedupByLength | scrape_bestsellers_updated.py:131-137 | the pass keeps exactly as many records as there are distinct keys not seen before |
| Seqs.PrefixIsSubsequence | scrape_bestsellers_updated.py:737 | the first 100 of an order-preserving selection are still one |
| Dedup.StripAsin | scrape_bestsellers_updated.py:634-637 | the copy without "asin" differs from the record only in that entry |
| Dedup.DedupProducts | scrape_bestsellers_updated.py:612-639 | the pass as written returns at most as many records as it is given, none of them with an ASIN |
| Dedup.DeduplicateProducts | scrape_bestsellers_updated.py:612-639 | the method's loop computes `DedupProducts` from empty ASIN and link sets |
| Dedup.DedupProductsSubsequence | scrape_bestsellers_updated.py:612-639 | the output is an order-preserving selection of the input with ASINs removed |
| Dedup.DedupProductsBound | scrape_bestsellers_updated.py:612-639 | at most one record is kept per new ASIN plus one per new link |
| Dedup.DedupProductsSummary | scrape_bestsellers_updated.py:612-639 | from empty sets: order-preserving selection, bounded by the distinct ASINs plus the distinct links, and no record keeps an ASIN |
| Dedup.DedupProductsIgnoresKeyless | scrape_bestsellers_updated.py:627-632 | records with neither an ASIN nor a link never affect the output |
| Dedup.DedupProductsWithoutAsins | scrape_bestsellers_updated.py:612-639 | on ASIN-free input the pass as written equals the intended pass and returns distinct links |
| Dedup.DedupProductsIsByKeyWithoutAsins | scrape_bestsellers_updated.py:627-632 | on ASIN-free input only the link branch acts, so the seen links play the role of seen keys |
| Dedup.DedupProductsByKey | scrape_bestsellers_updated.py:612-639 | the intended pass returns at most as many records as it is given, none of them with an ASIN |
| Dedup.DedupProductsByKeyAdmitsEachKeyOnce | scrape_bestsellers_updated.py:612-639 | the intended pass is an order-preserving selection that keeps at most one record per ASIN and at most one per link among ASIN-less records, and keeps no record with neither |
| Dedup.DedupProductsByKeyKeepsFirst | scrape_bestsellers_updated.py:612-639 | the intended pass keeps the first record of every key, without its ASIN |
| Dedup.DedupProductsByKeyPositions | scrape_bestsellers_updated.py:612-639 | on ASIN-free records the intended pass returns one record per distinct key. A record whose key is new sits at the position given by the number of distinct keys before it |
| Dedup.DedupProductsByKeyDistinct | scrape_bestsellers_updated.py:612-639 | without ASINs the intended pass returns distinct links |
| Dedup.DedupProductsKeepsRepeatedAsin | scrape_bestsellers_updated.py:627-632 | as written, the same record met twice is kept twice; the intended pass keeps it once |
| Scroll.ScrollToBottomEnhanced | scrape_bestsellers_updated.py:284-335 | after the loop: at most `max_scrolls` scrolls, ending early exactly at the first reading where the page settled. `last_asin_count` is the maximum reading, `stable_iterations` the stable run, and the count of extended waits equals `LowWaits` of the readings. The returned count is the final reading |
| Scroll.MaxCountIsMaximum | scrape_bestsellers_updated.py:299-314 | `last_asin_count` is at least every reading, and is 0 or one of them |
| Scroll.StableRun | scrape_bestsellers_updated.py:310-320 | the stable run never exceeds the number of readings |
| Scroll.StableRunSinceLastGrowth | scrape_bestsellers_updated.py:310-320 | `stable_iterations` counts the readings since the last one that raised the count |
| Scroll.LowWaits | scrape_bestsellers_updated.py:328-330 | there are never more extended waits than readings |
| Scroll.LowWaitsCountsLowReadings | scrape_bestsellers_updated.py:328-330 | an extended wait follows exactly the readings from the fourth scroll on that are below 10 |
| Scroll.MaxCountMonotone | scrape_bestsellers_updated.py:310-315 | `last_asin_count` never decreases |
| Scroll.SettledMeansNoGrowth | scrape_bestsellers_updated.py:323-325 | an early stop means the last two readings added nothing and the page shows at least 20 containers |
| Scroll.FewContainersScrollFully | scrape_bestsellers_updated.py:323-325 | a page that never shows 20 containers is never declared settled |
| Strategies.FirstHit | scrape_bestsellers_updated.py:205-238 | the chain's result is None exactly when every strategy falls through; otherwise it is the first strategy's hit |
| Strategies.RunStrategies | scrape_bestsellers_updated.py:205-238 | the loop returns the first hit, or "" when every strategy falls through |
| Strategies.RatingLabelNotBlank | scrape_bestsellers_updated.py:212-213 | an aria-label containing "out of 5" never cleans to "" |
| Strategies.AriaLabelRating | scrape_bestsellers_updated.py:209-213 | strategy 1 misses exactly when none of the first three labels mentions "out of 5", and never returns "" |
| Strategies.FirstRatingLabel | scrape_bestsellers_updated.py:210-213 | the scan finds nothing exactly when no label is accepted |
| Strategies.StarIconRating | scrape_bestsellers_updated.py:215-221 | strategy 2 returns only non-empty text mentioning "out of" or "rating" |
| Strategies.RatingTextRating | scrape_bestsellers_updated.py:223-227 | strategy 3 misses exactly when none of the first three cleaned texts is accepted, and returns only accepted text |
| Strategies.FirstRatingText | scrape_bestsellers_updated.py:224-227 | the scan finds nothing exactly when no cleaned text is accepted |
| Strategies.PatternRating | scrape_bestsellers_updated.py:229-233 | strategy 4 hits exactly when the pattern matched, with text ending in " out of 5 stars" |
| Strategies.ExtractRatingFromContainer | scrape_bestsellers_updated.py:186-238 | the rating is the first strategy's hit or "", and is never "" when the pattern matched |
| Strategies.SelectorPrice | scrape_bestsellers_updated.py:266-271 | a selector strategy returns only non-empty text with "₹" or "Rs" |
| Strategies.PatternPrice | scrape_bestsellers_updated.py:258-265 | the pattern strategy hits exactly when the pattern matched, with a text carrying "₹" |
| Strategies.ExtractPriceFromContainer | scrape_bestsellers_updated.py:241-276 | the price is the first strategy's hit, or "" |
| Strategies.PriceIsMarked | scrape_bestsellers_updated.py:241-276 | every price returned is "" or carries "₹" or "Rs" |
| Strategies.PriceFoundWhenPatternMatches | scrape_bestsellers_updated.py:258-265 | when the pattern matches, the chain returns a price whatever the selectors read |
| Extract.HasStarIsContains | scrape_bestsellers_updated.py:377 | the scan for "star" agrees with `"star" in name.lower()` |
| Extract.ProductNameFilter | scrape_bestsellers_updated.py:372-378 | a link's text is accepted as a name exactly when it is longer than 15 characters, its href is non-empty, it does not match `^\d+\.?\d*\s*out\s*of\s*5` and its lower-cased form has no "star" |
| Extract.RatingPhraseIsPattern | scrape_bestsellers_updated.py:376 | the greedy scanner used for the name filter accepts exactly the texts that match the anchored pattern, defined separately as the regular expression's own structure |
| Extract.RatingPhraseCaseSensitive | scrape_bestsellers_updated.py:376 | the pattern is case-sensitive: "4 OUT of 5" does not match |
| Extract.RatingPhraseAnchored | scrape_bestsellers_updated.py:376 | the pattern is anchored at the start: "Echo 5 out of 5" does not match |
| Extract.RatingPhraseExample | scrape_bestsellers_updated.py:376 | "4 out of 5" matches the anchored rating pattern, so it is rejected as a name |
| Extract.FirstNameLink | scrape_bestsellers_updated.py:365-381 | the chosen index is the first link that passes the filter, or the end when none does |
| Extract.SelectProductLink | scrape_bestsellers_updated.py:365-381 | the loop returns the cleaned text and resolved href of the first passing link, or two "" when none passes |
| Extract.ContainerItem | scrape_bestsellers_updated.py:352-412 | a container gives a record exactly when some link passes the filter and its resolved URL is non-empty. The record's name (clean, over 15 characters, no rating phrase, no "star") and link come from that first link, and it keeps the container's ASIN. Rank, rating and price are the cleaned texts of the first badge, the first "out of 5" aria-label and the first price span, "" when absent |
| Extract.ContainerItems | scrape_bestsellers_updated.py:351-416 | at most one record per container, each with a name that passes the filter |
| Extract.ExtractFromAsinContainers | scrape_bestsellers_updated.py:343-418 | the loop computes the records of the first 100 containers: at most 100, each passing the name filter |
| Extract.ValidProductLinks | scrape_bestsellers_updated.py:438-463 | the first fallback loop keeps at most one entry per link read |
| Extract.ValidLinksPassFilter | scrape_bestsellers_updated.py:446-453 | every kept name is normalized, longer than 15 characters, not a rating phrase and free of "star" |
| Extract.FallbackItems | scrape_bestsellers_updated.py:468 | the fallback gives at most 50 records |
| Extract.KeptPositions | scrape_bestsellers_updated.py:468-496 | the second fallback loop returns records for at most as many positions as it visits, each below the bound and not one that raised |
| Extract.KeptPositionsExact | scrape_bestsellers_updated.py:468-496 | the positions kept are exactly those below the bound whose reads did not raise, in increasing order; with nothing raised, all of them |
| Extract.FallbackItemsByPosition | scrape_bestsellers_updated.py:466-496 | the fallback gives one record per kept link among the first 50, in page order, skipping exactly the positions whose badge, price or rating read raised; with nothing raised, min(n, 50) records. Record `idx` takes the `idx`-th rank badge, price and rating when there are that many and "" otherwise, and carries no ASIN |
| Extract.CollectProductLinks | scrape_bestsellers_updated.py:438-463 | the first loop computes `ValidProductLinks` |
| Extract.BuildFallbackItems | scrape_bestsellers_updated.py:468-496 | the second loop builds the positional records of the first min(n, 50) kept links, moving on past each position whose read raised |
| Extract.ExtractUsingUniversalSelectors | scrape_bestsellers_updated.py:421-498 | the fallback computes `FallbackItems`: the kept links, then their positional records with raised positions skipped |
| Extract.ContainerMethodItems | scrape_bestsellers_updated.py:513-519 | the container extractor gives at most 100 records |
| Extract.ChosenItems | scrape_bestsellers_updated.py:511-528 | at most 100 records go to validation |
| Extract.ChosenItemsChoice | scrape_bestsellers_updated.py:517-528 | with fewer than 10 containers the fallback decides alone. 15 or more container records are kept. Otherwise the fallback replaces them only when it has strictly more. The choice never has fewer records than the container extractor |
| Extract.PageItemsValid | scrape_bestsellers_updated.py:531-535 | a page yields at most 100 records, all valid, with distinct links, in extraction order |
| Extract.ExtractProductsOnPage | scrape_bestsellers_updated.py:501-535 | the method computes validation of the chosen extractor's records |
| Extract.ExtractedNameSurvives | scrape_bestsellers_updated.py:124-128 | a record that passed the name filter and has a "/dp/" link passes validation, and keeps its name when it is at most 500 characters |
| Extract.FallbackItemSurvives | scrape_bestsellers_updated.py:454-461 | a fallback record built from a kept link with "/dp/" passes validation |
| Extract.ValidLinksKeepMarker | scrape_bestsellers_updated.py:450-458 | when URL resolution keeps "/dp/", every kept fallback link contains "/dp/" |
| Extract.FallbackItemsSurviveValidation | scrape_bestsellers_updated.py:421-498 | when URL resolution keeps "/dp/", every fallback record passes validation, so validation drops only repeated links |
| Paginate.QuerySeparator | scrape_bestsellers_updated.py:601 | the separator is "&" exactly when the URL already has a "?", and "?" otherwise |
| Paginate.NextPageUrl | scrape_bestsellers_updated.py:591-609 | the target URL always contains "pg=2". With a "pg=1" it is the URL with every "pg=1" rewritten, of the same length; otherwise the URL with "pg=2" appended after the separator |
| Paginate.NavigateToNextPage | scrape_bestsellers_updated.py:543-588 | the result is True exactly when some strategy's landing is confirmed. Strategies run in order up to the first confirmed one, and all five run on failure |
| Paginate.StayingOnPageOneIsConfirmed | scrape_bestsellers_updated.py:577-581 | the content check ignores where the browser is: a strategy that left it on page 1, showing 10 or more containers, is confirmed, so navigation reports success |
| Paginate.NavigationFailsOnlyIfRedirected | scrape_bestsellers_updated.py:559 | navigation fails only if the URL strategy raised or landed somewhere other than its target, since that target always names page 2 |
| Category.CategoryOutcome | scrape_bestsellers_updated.py:671-771 | the result names the category's URL and holds at most 100 records; after an exception it holds none and carries the message |
| Category.ExtractBatches | scrape_bestsellers_updated.py:700-727 | page 2 is extracted only when page 1 gave at least 15 records and navigation succeeded |
| Category.ScrapeCategory | scrape_bestsellers_updated.py:671-771 | the method computes `CategoryOutcome`: the exception result, or both pages merged without repeats and cut to 100, with their counts |
| Category.CategoryStats | scrape_bestsellers_updated.py:745-771 | on success there are at most 100 records, as many as "final_unique_items". "total_before_dedup" is the sum of the two pages and is at least the final count, and page 2 is empty unless page 1 gave 15 and navigation succeeded. On an exception: no records, zero counts and the message |
| Category.MergeIsByKey | scrape_bestsellers_updated.py:731-734 | the merge as written equals the intended ASIN-or-link pass on the validated batches |
| Category.BatchesValid | scrape_bestsellers_updated.py:731 | every record of the two batches is valid |
| Category.MergedItemsValid | scrape_bestsellers_updated.py:734-737 | merging valid records and keeping 100 gives valid records with distinct links, an order-preserving selection of the input |
| Category.CategoryItemsValid | scrape_bestsellers_updated.py:731-737 | a category's records are valid and no link appears twice, even across pages. On success they are page 1's records and then page 2's, in order |
| Category.CategoryKeepsNewLinks | scrape_bestsellers_updated.py:731-737 | only repeats are left out. A successful run returns min(distinct links of both pages, 100) records, so 30 and 20 records sharing 5 links give 45. Every record whose link is new, with fewer than 100 distinct links before it, is kept at the position given by their number |

## Left out

- Browser automation: navigation, waits, reloads, scrolling, clicks and timeouts
  are not modelled. Only their observable results enter, as readings.
  `polite_pause` and every `wait_for_timeout` are not modelled.
- `urljoin(BASE_URL, href)` is the uninterpreted parameter `resolve`. Only
  `Extract.FallbackItemsSurviveValidation` assumes anything of it: that it
  keeps a "/dp/" in the path.
- The regular expressions inside the strategy chains are their match results,
  given as inputs. This covers the rating pattern over the container text and
  the rupee price pattern. The name filter's anchored pattern and
  `clean_rank`'s pattern are modelled.
- `\d` and `\s` are ASCII digits and `str.isspace()` characters. Python's
  Unicode digit class is not reproduced. `str.lower()` is reduced to ASCII,
  which decides every containment test the scraper makes with it.
- The rating pattern is matched with `re.IGNORECASE`, so which text matches it
  is not modelled. It is an input.
- `get_categories`, `main`, `save_as_csv`, the JSON dump, `format_duration` and
  all printing are not modelled: file output, timing and the category list
  page are I/O.
- Scroll.ScrollToBottomEnhanced: requires a reading for every scroll it may
  make. The page never runs out of counts to report.
- Paginate.NavigateToNextPage: takes one outcome per strategy (exactly five). It
  does not model the first four strategies' clicks, only where each landed.
- Extract.ContainerReading: a container's links are taken as given. The
  selector's `[href*="/dp/"]` filter (:361) is not imposed, so
  `Extract.ContainerItem` also accepts hrefs the code never reads, and
  `Extract.ExtractedNameSurvives` takes a "/dp/" link as a hypothesis.
- Paginate.NextPageUrl: models `replace("pg=1", "pg=2")` literally. A URL with
  "pg=10" becomes "pg=20", as in the code.
- Category.ScrapeCategory: an exception is an input together with the records
  computed before it. Since every exception gives the same empty result, the
  point where it was raised is not modelled.
- Normalize.CleanProductName and Normalize.CleanRating: not claimed idempotent,
  because the code is not. Idempotence is proved for text within the length
  limit; beyond it only the counterexample of a cut ending on whitespace is
  proved.
- Extract.FallbackReadings: which badge, price or rating read raises is an
  input (the set `raised`). Why a read raises is not modelled.

## Findings

| source | as written | input that shows it | evidently intended | confidence | as-written member | corrected member |
|---|---|---|---|---|---|---|
| scrape_bestsellers_updated.py:627-632 | a record whose ASIN was already seen falls through to the `elif` and is kept again if its link is new. The ASIN branch never records the link | the same record, with ASIN "B000000001" and link "/dp/B000000001", given twice: both copies are kept | a record is a repeat when its key (the ASIN if any, else the link) was seen before: one record per ASIN | not executed; latent, because `validate_and_clean_items` removes every ASIN before the merge in `scrape_category` | Dedup.DedupProductsKeepsRepeatedAsin | Dedup.DedupProductsByKeyAdmitsEachKeyOnce |
