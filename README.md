# Google Maps business crawler: a Dafny model

This project models the decision and normalisation logic of a crawler that
looks up tourist attractions on Google Maps. It has three parts.

- **The business crawler** (`googlemaps_crawler_v2.py`).
  - A keyword search either lands on a place page or on a results list; in the
    second case the crawler follows the first result.
  - On the place page a condition object polls the page. Each poll fills every
    field that is still `None` and adds opening-hours rows whose label is new
    and not blank.
  - The polling stops once all eight values are truthy or the polls allowed by
    the timeout are used up. The record is returned, together with the decoded
    page URL, when any value is truthy.
- **The rating crawler** (`googlemaps_crawler_v1.py`).
  - A single search builds a `(name, rating, address)` triple, with `""` for
    every element it cannot locate. The address falls back from the upper
    XPath to the lower one.
  - `get_rating` tries the direct page first. It then tries the first listed
    result and then the first partially matching result, each followed once.
- **The normaliser** (`main.py`).
  - `crawl_business_data` projects each crawl result onto the stored fields.
  - `parse_business_data` then rewrites the row in place:
    - the review count loses its brackets and commas;
    - the website keeps the trimmed text after its last `:`;
    - the opening hours become a schedule from the day numbers `"1"`–`"7"` to
      lists of open/close spans, with a round-the-clock sentinel and a
      raw-text fallback.

The browser is an oracle. A `Snapshot` maps every selector string to the
elements it matches, and a driver's `render(url, k)` is the snapshot the page
loaded from `url` shows at its `k`-th poll. `WebDriverWait(..).until(cond)`
evaluates `cond` on successive snapshots. It pauses after each failed poll. It
makes a number of polls that depends on the timeout and is at least one.
Python truthiness is written out: `None`, `""` and `{}` are falsy.

Layout:

| file | module | content |
|---|---|---|
| `builtins.dfy` | `Builtins` | `strip`, `split`, `join`, `in` on strings, `any` over strings, an insertion-ordered dict as a sequence of pairs, a loop ended by an exception |
| `browser.dfy` | `Browser` | elements, snapshots, the driver |
| `crawler_v2.dfy` | `GoogleMapsV2` | the business crawler |
| `crawler_v1.dfy` | `GoogleMapsV1` | the rating crawler |
| `main.dfy` | `Normalizer` | `multiple_replace`, `parse_business_data`, `crawl_business_data` |

Each imperative function of the source is a `method`:
- `__call__`, `__single_search` and `get_rating`;
- the loops of `parse_business_data` and `crawl_business_data`;
- the waits.

Each such method is proved against a function of the inputs or the old state.
The properties are proved about those functions, as lemmas.

Where the documented design and the code disagree, the model follows the code:
- The business condition succeeds when every value is *truthy*
  (googlemaps_crawler_v2.py:93). An empty opening-hours dict or a field set to
  `""` therefore keeps the wait polling. It does not succeed as soon as every
  value is non-null.
- The two branch selectors are tried within each poll of a single one-second
  wait (googlemaps_crawler_v2.py:101-110, 147). There are not two separate
  waits.
- A lookup that finds nothing makes `crawl_business_data` raise
  `AttributeError` on `False.get` (main.py:57-59), which ends the batch. The
  attraction is not skipped.

## Model

| member | source | states |
|---|---|---|
| Builtins.StripLeftMeans | main.py:80 | `lstrip()` leaves the suffix that starts at the first non-whitespace character; every dropped character is whitespace |
| Builtins.StripRightMeans | main.py:80 | `rstrip()` leaves the prefix that ends at the last non-whitespace character; every dropped character is whitespace |
| Builtins.Strip | main.py:69 | definition of `str.strip()`; its properties are StripLeftMeans, StripRightMeans, StripEnds and StripIdempotent |
| Builtins.StripEnds | main.py:69 | `strip()` returns a contiguous piece of the input with no whitespace at either end, and only whitespace lies outside it |
| Builtins.StripIdempotent | main.py:69 | stripping twice is stripping once |
| Builtins.Split | main.py:69 | `split` always yields at least one piece, so `[-1]` never fails |
| Builtins.SplitAvoidsSep | main.py:69 | no piece of a split contains the separator |
| Builtins.SplitJoin | main.py:80 | joining the pieces of a split with the separator gives the string back |
| Builtins.SplitCount | main.py:80 | a split has one more piece than the string has separators |
| Builtins.Join | googlemaps_crawler_v2.py:88 | definition of `sep.join(pieces)`; its properties are SplitJoin and JoinLast |
| Builtins.JoinLast | googlemaps_crawler_v2.py:88 | a join of two or more pieces ends with the separator and the last piece |
| Builtins.LastPieceIsSuffix | main.py:69 | `split(sep)[-1]` is the suffix after the last separator, or the whole string when there is none |
| Builtins.ContainsAt | main.py:85 | the substring test `t in s` holds exactly when `t` occurs in `s` at some index |
| Builtins.AnyNonEmptyMeans | googlemaps_crawler_v1.py:77 | `any(ret)` over strings holds exactly when some string is non-empty |
| Builtins.CollectMeans | main.py:55-62 | without an exception every pass of the loop contributes its row, in order; otherwise the loop raises the exception of its first failing pass and only then |
| Builtins.CollectSnoc | main.py:60-61 | one more pass appends its row or ends the loop with its exception |
| Builtins.DictLookup | main.py:89 | definition of `d[k]` on an insertion-ordered dict, `None` standing for `KeyError`; its properties are DictLookupMeans, DictLookupValue and DictLookupOneToOne |
| Builtins.DictLookupMeans | main.py:89 | with distinct keys, `d[k]` succeeds exactly for the keys of `d` and gives the value stored with `k` |
| Builtins.DictLookupValue | main.py:89 | a successful `d[k]` gives the value of some entry |
| Builtins.DictLookupOneToOne | main.py:10 | in a table that is one-to-one, two keys that look up the same value are equal |
| Builtins.Put | main.py:89 | definition of `d[k] = v` on an insertion-ordered dict; its properties are PutMeans and PutReplaces (an existing key is replaced where it stands) |
| Builtins.PutMeans | main.py:89 | `d[k] = v` appends a new key at the end, keeps the length for an existing key, and leaves every entry with another key in place |
| Browser.FindElementFirst | googlemaps_crawler_v2.py:57-59 | `find_element` succeeds exactly when `find_elements` would return a non-empty list, and then returns its first element; on the page and inside an element alike; this is how the browser oracle is defined, not a fact about the crawler |
| Browser.Driver.constructor | googlemaps_crawler_v2.py:114-115 | a new driver shows the start page, has made no navigation and clicked nothing |
| Browser.Driver.Get | googlemaps_crawler_v2.py:144 | `driver.get(url)` loads `url`, restarts the polling and records the navigation |
| Browser.Driver.Sleep | googlemaps_crawler_v2.py:129 | a pause between polls moves the page on by one poll |
| Browser.Driver.MoveAndClick | googlemaps_crawler_v2.py:74-80 | the drop-down is clicked exactly when it is displayed; otherwise `ElementNotInteractableException` is swallowed and nothing is clicked |
| GoogleMapsV2.FieldOrder | googlemaps_crawler_v2.py:42-61 | `BUSINESS_DATA_FIELDS[:4]` and `[4:7]` list the seven string fields once each, in source order; `opening_hours` is the eighth; exactly the first four are read from element text |
| GoogleMapsV2.BusinessData.Set | googlemaps_crawler_v2.py:58 | assigning `data[field]` changes that field and nothing else |
| GoogleMapsV2.InitialDataIsEmpty | googlemaps_crawler_v2.py:126-127 | the initial record has every field `None` and empty opening hours |
| GoogleMapsV2.SameRecord | googlemaps_crawler_v2.py:126-127 | the record has exactly the fixed keys: agreeing on all of them is equality |
| GoogleMapsV2.CompleteMeans | googlemaps_crawler_v2.py:93-95 | `all(data.values())` holds exactly when every field is truthy and the opening hours are not empty |
| GoogleMapsV2.AnyTruthyMeans | googlemaps_crawler_v2.py:132-134 | `any(data.values())` holds exactly when some field is truthy or the opening hours are not empty |
| GoogleMapsV2.AddHoursPrefix | googlemaps_crawler_v2.py:84-88 | the hours loop only appends; existing entries are never replaced |
| GoogleMapsV2.AddHoursNewLabels | googlemaps_crawler_v2.py:87 | every added entry has a label that was absent before and is not blank after `strip()` |
| GoogleMapsV2.AddHoursFromRows | googlemaps_crawler_v2.py:85-88 | every added entry is one row's label with that row's duration texts joined by `/` |
| GoogleMapsV2.AddHoursDistinct | googlemaps_crawler_v2.py:87-88 | the labels of the opening hours stay distinct |
| GoogleMapsV2.FillTextGet | googlemaps_crawler_v2.py:54-60 | the first loop fills each of its fields that is `None` from its element's text, and touches no other field and not the hours |
| GoogleMapsV2.FillAttributesGet | googlemaps_crawler_v2.py:61-67 | the second loop fills each of its fields that is `None` from its element's `aria-label`, and touches no other field and not the hours |
| GoogleMapsV2.PollStep | googlemaps_crawler_v2.py:50-90 | definition of one evaluation of the business condition on one snapshot; its properties are PollStepGet, PollStepHours, PollStepMonotone, PollStepFills and PollStepNewHours, and BusinessElements.Call is proved to perform it |
| GoogleMapsV2.PollStepGet | googlemaps_crawler_v2.py:54-67 | after one poll each field is its old value, or its lookup on the page when it was `None` |
| GoogleMapsV2.PollStepHours | googlemaps_crawler_v2.py:69-90 | a poll changes the opening hours only through the table rows; the field loops and the drop-down click leave them alone |
| GoogleMapsV2.PollStepMonotone | googlemaps_crawler_v2.py:54-88 | a poll never overwrites a field already set and never removes or replaces an opening-hours entry |
| GoogleMapsV2.PollStepFills | googlemaps_crawler_v2.py:54-67 | a `None` field takes the text (first four fields) or `aria-label` (next three) of its element, and stays `None` when the element is missing |
| GoogleMapsV2.PollStepNewHours | googlemaps_crawler_v2.py:82-90 | the entries a poll adds come from the table rows, have fresh non-blank labels and keep the labels distinct |
| GoogleMapsV2.Await | googlemaps_crawler_v2.py:128-131 | definition of the business wait over a sequence of snapshots; its properties are AwaitMonotone, AwaitOutcome, EmptyFieldKeepsPolling, AwaitFieldFromPoll, AwaitStable and AwaitDistinctHours |
| GoogleMapsV2.AwaitMonotone | googlemaps_crawler_v2.py:129 | over any number of polls a set field is never looked up again or overwritten, and hours are only added |
| GoogleMapsV2.AwaitOutcome | googlemaps_crawler_v2.py:93-95 | a wait succeeds exactly when its final record is complete; it stops at the first complete poll and otherwise uses every poll |
| GoogleMapsV2.EmptyFieldKeepsPolling | googlemaps_crawler_v2.py:93-95 | a field set to `""` stays `""` and keeps the wait polling until its polls are used up |
| GoogleMapsV2.AwaitFieldFromPoll | googlemaps_crawler_v2.py:54-67 | a field the wait fills holds what the page offered for it at one of the polls made |
| GoogleMapsV2.AwaitStable | googlemaps_crawler_v2.py:128-131 | when no poll changes an incomplete record or clicks anything, the wait times out with the record unchanged |
| GoogleMapsV2.Ladder | googlemaps_crawler_v2.py:101-110 | definition of the two-rung `try`/`except NoSuchElementException` fallback; its property is LadderPriority |
| GoogleMapsV2.GetBranchUrl | googlemaps_crawler_v2.py:101-110 | definition of `get_branch_url.__call__` as the ladder over the two branch selectors; its properties are LadderPriority and BranchLadderCollapses |
| GoogleMapsV2.LadderPriority | googlemaps_crawler_v2.py:101-110 | the highly-matched anchor wins when present; otherwise the low-matched one is used; `False` exactly when neither is found |
| GoogleMapsV2.BranchLadderCollapses | googlemaps_crawler_v2.py:18-20 | the two branch selectors are the same text, so the ladder equals one lookup on every page |
| GoogleMapsV2.BranchTarget | googlemaps_crawler_v2.py:138 | definition of the value `until` accepts from the branch condition; its property is BranchTargetTruthy |
| GoogleMapsV2.BranchTargetTruthy | googlemaps_crawler_v2.py:138 | the branch wait stops exactly on a truthy `href` (not `None`, `""` or `False`), with the same truthiness as `all()` on the record, and returns that `href` |
| GoogleMapsV2.AwaitBranch | googlemaps_crawler_v2.py:136-141 | definition of the branch wait over a sequence of snapshots; its property is AwaitBranchFirst |
| GoogleMapsV2.AwaitBranchFirst | googlemaps_crawler_v2.py:136-141 | the branch wait returns the `href` of the first poll that offers one, after one pause per earlier poll, and times out exactly when no poll offers one |
| GoogleMapsV2.BusinessElements.constructor | googlemaps_crawler_v2.py:47-48 | the condition holds the given record |
| GoogleMapsV2.BusinessElements.ReadOpeningHours | googlemaps_crawler_v2.py:82-90 | the rows loop changes only the opening hours, as the hours loop over the table rows says |
| GoogleMapsV2.BusinessElements.Call | googlemaps_crawler_v2.py:50-95 | one call is one poll of the page shown now; the drop-down is clicked when it can be; the answer is whether the record is complete |
| GoogleMapsV2.PollWindow | googlemaps_crawler_v2.py:129 | the polling loop stops at the first poll that completes the record, pausing after each failed one, and leaves the record of the trace at that point |
| GoogleMapsV2.UntilBusinessElements | googlemaps_crawler_v2.py:128-131 | the business wait leaves the record, the outcome, the clock and the clicks that the repeated polls give |
| GoogleMapsV2.UntilBranchUrl | googlemaps_crawler_v2.py:137-141 | the branch wait returns what the repeated polls give, `None` on timeout |
| GoogleMapsV2.Lookup | googlemaps_crawler_v2.py:143-158 | definition of `get_business` as a function of the driver's pages; its properties are LookupNavigations, LookupResultFromPage, LookupHoursDistinct and LookupBlank, and BusinessCrawler.GetBusiness is proved to perform it |
| GoogleMapsV2.LookupNavigations | googlemaps_crawler_v2.py:143-151 | `get_business` first loads `BASE_URL + " ".join(keywords)`; it navigates again exactly when some branch poll offers a truthy `href`, and then to the first one |
| GoogleMapsV2.ReadPlace | googlemaps_crawler_v2.py:154-158 | definition of the fully-matched step on the page the crawler ends on; its property is ReadPlaceFromPage |
| GoogleMapsV2.ReadPlaceFromPage | googlemaps_crawler_v2.py:154-158 | a record is returned only when some value is truthy, and each of its fields is what the place page offered at one of the polls |
| GoogleMapsV2.LookupResultFromPage | googlemaps_crawler_v2.py:143-158 | the same for all of `get_business`: the fields come from polls of the page the crawler ends on |
| GoogleMapsV2.LookupHoursDistinct | googlemaps_crawler_v2.py:154-157 | the opening hours of a returned record never hold a label twice |
| GoogleMapsV2.AwaitDistinctHours | googlemaps_crawler_v2.py:87-88 | a wait keeps the opening-hours labels distinct |
| GoogleMapsV2.BlankPoll | googlemaps_crawler_v2.py:50-90 | a page that matches nothing leaves the record as it is and is not clicked |
| GoogleMapsV2.LookupBlank | googlemaps_crawler_v2.py:143-158 | when no page matches anything, `get_business` stays on the search page and returns `False` after using every poll of both waits |
| GoogleMapsV2.BusinessCrawler.constructor | googlemaps_crawler_v2.py:114-115 | the crawler drives the given driver with the source's selector table |
| GoogleMapsV2.BusinessCrawler.FullyMatchedCase | googlemaps_crawler_v2.py:120-134 | the business wait runs from the empty record, which is returned when any value is truthy and `False` otherwise |
| GoogleMapsV2.BusinessCrawler.PartiallyMatchedCase | googlemaps_crawler_v2.py:136-141 | the branch wait, `False` on timeout |
| GoogleMapsV2.BusinessCrawler.GetBusiness | googlemaps_crawler_v2.py:143-158 | the result, the navigations, the final page, the clock and the clicks are those of the lookup function |
| GoogleMapsV2.BusinessCrawler.FinishLookup | googlemaps_crawler_v2.py:154-158 | the record of the business wait, if any, is returned with `map` set to the decoded current URL |
| GoogleMapsV1.PathsDistinct | googlemaps_crawler_v1.py:10-24 | the XPaths of the table that the lookups consult are pairwise different |
| GoogleMapsV1.Visible | googlemaps_crawler_v1.py:35 | definition of `EC.visibility_of_element_located` on one snapshot; its property is ClickableIsVisible |
| GoogleMapsV1.Clickable | googlemaps_crawler_v1.py:45 | definition of `EC.element_to_be_clickable` on one snapshot; its property is ClickableIsVisible |
| GoogleMapsV1.ClickableIsVisible | googlemaps_crawler_v1.py:35-45 | a clickable element is the visible one and is enabled; a visible element is the first match and is displayed |
| GoogleMapsV1.SingleSearchOf | googlemaps_crawler_v1.py:52-79 | definition of `__single_search` on one snapshot; its properties are SingleSearchSlots, SingleSearchFalse, UpperAddressFirst and HotelAddressIgnored |
| GoogleMapsV1.SingleSearchSlots | googlemaps_crawler_v1.py:56-75 | the triple is name, rating, address in that order; each slot is its element's text, or `""` when the element was not located |
| GoogleMapsV1.SingleSearchFalse | googlemaps_crawler_v1.py:77-79 | `__single_search` returns `False` exactly when all three strings are empty; otherwise its tuple has a non-empty slot |
| GoogleMapsV1.UpperAddressFirst | googlemaps_crawler_v1.py:69-71 | once the upper address XPath locates an element, what the lower one matches makes no difference |
| GoogleMapsV1.HotelAddressIgnored | googlemaps_crawler_v1.py:21 | the hotel address XPath is never consulted |
| GoogleMapsV1.Follow | googlemaps_crawler_v1.py:95-96 | definition of following one result link; its properties are ListedFirst and RatedFromLastPage |
| GoogleMapsV1.Rate | googlemaps_crawler_v1.py:81-104 | definition of `get_rating` as a function of the driver's pages; its properties are RateNavigations, DirectResultKept, ListedFirst, NothingToFollow and RatedFromLastPage, and RatingCrawler.GetRating is proved to perform it |
| GoogleMapsV1.RateNavigations | googlemaps_crawler_v1.py:87-100 | the search page `BEGIN_URL + "/search/" + input` is loaded first, and a second page exactly when a result link was followed after a failed direct search |
| GoogleMapsV1.DirectResultKept | googlemaps_crawler_v1.py:90-91 | a successful direct search is returned unchanged and nothing is followed |
| GoogleMapsV1.ListedFirst | googlemaps_crawler_v1.py:93-100 | a clickable listed result wins whatever the partial-match XPath matches, and the outcome is the second search there with no further fallback |
| GoogleMapsV1.NothingToFollow | googlemaps_crawler_v1.py:101-103 | with no direct result and no clickable result link, `get_rating` returns `None` after the one navigation |
| GoogleMapsV1.RatedFromLastPage | googlemaps_crawler_v1.py:94-100 | a returned tuple describes the last page loaded: each slot is empty or the text of a displayed element there |
| GoogleMapsV1.RatingCrawler.constructor | googlemaps_crawler_v1.py:26-27 | the crawler drives the given driver with the source's XPath table |
| GoogleMapsV1.RatingCrawler.SingleSearch | googlemaps_crawler_v1.py:32-79 | building `ret` slot by slot, each slot from one `locate_visible_element` look at the page shown now, gives the single-search result of that page |
| GoogleMapsV1.RatingCrawler.GetRating | googlemaps_crawler_v1.py:81-104 | the outcome and the navigations are those of the rating function, the result links coming from `locate_clickable_element` looks at the search page; the driver ends on the last page navigated to, with its poll count restarted |
| GoogleMapsV1.RatingCrawler.FollowLink | googlemaps_crawler_v1.py:95-96 | following a link navigates to its `href` and searches there once more, ending on that page; a missing `href` is reported and the driver stays where it was |
| Normalizer.ReplacementFor | main.py:43 | a character has a replacement exactly when it is a key of the table |
| Normalizer.ReplaceChars | main.py:41-43 | definition of the substitution of every key character by its value; its properties are ReplacementFor, ReplacementValue and ReplaceDeletes |
| Normalizer.MultipleReplace | main.py:40-43 | `multiple_replace` fails exactly when the table is empty, since the empty pattern matches and its lookup raises `KeyError`; a non-empty table whose values are all `""` deletes exactly its keys and keeps every other character in order |
| Normalizer.ReplaceDeletes | main.py:40-43 | a table whose values are all `""` deletes its keys and keeps every other character in order |
| Normalizer.ReplacementValue | main.py:41-43 | a replacement found is the value of an entry with that key |
| Normalizer.WithoutMeans | main.py:67 | after the deletion no deleted character is left, every other character is, and deleting again changes nothing |
| Normalizer.CleanReviews | main.py:67 | the cleaned review count is the input without `(`, `)` and `,` |
| Normalizer.CleanReviewsMeans | main.py:67 | cleaning removes exactly the brackets and commas and is idempotent |
| Normalizer.CleanReviewsExample | main.py:15 | `'(306)'` is cleaned to `'306'` |
| Normalizer.CleanWebsite | main.py:69 | the cleaned website has no `:` |
| Normalizer.StripKeepsAbsence | main.py:69 | stripping adds no character |
| Normalizer.SplitNoSeparator | main.py:69 | a string without `:` splits into itself |
| Normalizer.CleanWebsiteMeans | main.py:69 | the cleaned website is the stripped text after the last `:`, and cleaning it again changes nothing |
| Normalizer.SplitAtFirst | main.py:69 | splitting `a:b` when `a` has no `:` gives `a` followed by the pieces of `b` |
| Normalizer.StripPadded | main.py:69 | a string with no whitespace at its ends, padded with one space on each side, strips back to itself |
| Normalizer.CleanWebsiteLabelled | main.py:18 | a website shown as `label: site ` is cleaned to `site` |
| Normalizer.CleanWebsiteExample | main.py:18 | `'網站: hunya.com.tw '` is cleaned to `'hunya.com.tw'` |
| Normalizer.FindTimes | main.py:82 | definition of `re.findall(r"\d{2}:\d{2}", s)` as a left-to-right scan; its properties are FindTimesAreTimes, FindTimesPositions and NoColonNoTimes |
| Normalizer.FindTimesAreTimes | main.py:77-82 | every match of `\d{2}:\d{2}` is a five-character `DD:DD` text |
| Normalizer.FindTimesPositions | main.py:82 | the matches occur in the segment left to right and do not overlap, and every `DD:DD` occurrence in the segment lies within one of them |
| Normalizer.NoColonNoTimes | main.py:82 | a segment without `:` has no match |
| Normalizer.PeriodOf | main.py:82-88 | definition of one segment's period; its properties are PeriodOfMeans and PeriodOfRange |
| Normalizer.PeriodOfMeans | main.py:82-88 | two matches give `{open, close}` from the first and second; otherwise the segment becomes `{00:00, 24:00}` exactly when it contains `24` and `小時營業`, and is kept as its text exactly when it has neither two matches nor both of those; every span runs from a time to a time or to `24:00` |
| Normalizer.PeriodOfRange | main.py:83-84 | a segment `a–b` of two times becomes `{open: a, close: b}` |
| Normalizer.StripAllMeans | main.py:80 | `[p.strip() for p in parts]` strips piece `i` into segment `i` |
| Normalizer.PeriodsOfMeans | main.py:81-88 | segment `i` of a day becomes its period `i` |
| Normalizer.DayPeriodsCount | main.py:80-88 | a day has exactly one period per `/`-separated segment |
| Normalizer.RangeIsSegment | main.py:80 | a range of two times has no `/` and nothing to strip |
| Normalizer.DayTwoRanges | main.py:71-74 | a day `a–b/c–d` of times becomes the two spans `a`–`b` and `c`–`d`, in order |
| Normalizer.DayPeriodsExample | main.py:22 | `'09:30–12:30/14:00–17:30'` becomes two pairs |
| Normalizer.PeriodRawExample | main.py:87-88 | `'休息'` is kept as its text |
| Normalizer.PeriodAllDayExample | main.py:85-86 | example: the segment `'24 小時營業'` becomes `{00:00, 24:00}` |
| Normalizer.DayMappingDistinct | main.py:10 | `DAY_MAPPING` is one-to-one, and its `i`-th number is the digit `i + 1` |
| Normalizer.DayMappingValues | main.py:10 | every number of the table is one of `"1"`–`"7"` |
| Normalizer.DayNumberTable | main.py:89 | exactly the seven weekday labels have a number, the one the table gives; it is one of `"1"`–`"7"`, and different labels get different numbers |
| Normalizer.ScheduleFrom | main.py:78-89 | definition of the hours loop over any label table and period function; its properties are ScheduleFromErr, ScheduleFromOk, ScheduleErrStays and ScheduleFromDays |
| Normalizer.ScheduleOf | main.py:76-89 | definition of the hours loop with `DAY_MAPPING`; its properties are ScheduleOfMeans and ScheduleDays |
| Normalizer.ScheduleFromErr | main.py:78-89 | the hours loop raises exactly when some label is not in the table, and then `KeyError` on the first such label |
| Normalizer.ScheduleFromOk | main.py:78-89 | with a one-to-one table and distinct labels, entry `i` of the schedule is the number of label `i` and the periods of its text |
| Normalizer.ScheduleOfMeans | main.py:78-89 | with `DAY_MAPPING`: `KeyError` exactly for an unknown label, the first one; otherwise one entry per weekday, in input order, each its day number and periods, and no day number twice |
| Normalizer.ScheduleErrStays | main.py:89 | once a label fails, the later labels are never looked at |
| Normalizer.ScheduleFromDays | main.py:89 | every key of the schedule is a value of the table |
| Normalizer.ScheduleDays | main.py:89 | every key of the schedule is one of `"1"`–`"7"` |
| Normalizer.PutKeys | main.py:89 | every key after `data_dict[d] = ...` is `d` or an old key |
| Normalizer.ReviewsStep | main.py:66-67 | definition of the review-count step; its properties are ParseRowFrame, ParseRowFields and ParseRowErrors |
| Normalizer.WebsiteStep | main.py:68-69 | definition of the website step; its properties are ParseRowFrame, ParseRowFields and ParseRowErrors |
| Normalizer.HoursStep | main.py:75-90 | definition of the opening-hours step; its properties are ParseRowFrame, ParseRowFields, ParseRowErrors and ScheduleOfMeans |
| Normalizer.ParseRow | main.py:65-90 | definition of `parse_business_data` on values; its properties are ParseRowFrame, ParseRowFields, ParseRowErrors and ParseRowTyped, and ParseBusinessData is proved to perform it |
| Normalizer.ParseRowFrame | main.py:65-90 | the row keeps its keys, and every key other than the three rewritten ones keeps its value, whether or not an exception stops the parse |
| Normalizer.ParseRowFields | main.py:66-90 | a successful parse cleans a string review count and website, leaves `None` alone, and replaces truthy raw hours by their schedule, leaving falsy hours as they are |
| Normalizer.ParseRowErrors | main.py:65-90 | the parse fails exactly for a missing key, a non-string review count or website, truthy hours that are not raw hours, or an unknown weekday label |
| Normalizer.ParseRowTyped | main.py:65-90 | a row with string-or-`None` review count and website and raw hours fails only on an unknown weekday label, with its `KeyError` |
| Normalizer.BusinessRow.constructor | main.py:58-59 | the row holds the given fields |
| Normalizer.ParsePeriods | main.py:79-88 | the inner loop builds a day's periods, one per stripped segment |
| Normalizer.ParseOpeningHours | main.py:76-89 | the outer loop builds the schedule or raises the `KeyError` the schedule function gives |
| Normalizer.ParseBusinessData | main.py:65-90 | the in-place rewrite leaves the row and the exception that the three steps give |
| Normalizer.ParseReviews | main.py:66-67 | the review-count step in place; on an exception the row is unchanged |
| Normalizer.ParseWebsite | main.py:68-69 | the website step in place; on an exception the row is unchanged |
| Normalizer.ParseHours | main.py:75-90 | the opening-hours step in place; on an exception the row is unchanged |
| Normalizer.UpdateFieldsMeans | main.py:59 | `row.update({f: d.get(f, None) for f in fields})` adds the listed keys with their values in `d` or `None` and keeps every other entry |
| Normalizer.Project | main.py:58-59 | definition of the projection onto `Id` and `CRAWLED_BUSINESS_DATA_FIELDS`; its property is ProjectMeans |
| Normalizer.ProjectMeans | main.py:58-59 | the projected row has exactly `Id` and `CRAWLED_BUSINESS_DATA_FIELDS` as keys, the attraction id, and each field's value or `None` |
| Normalizer.ProjectRowParses | main.py:58-60 | the projection drops `address` and `phone_number`, and its parse can fail only with the `KeyError` of an unknown weekday label |
| Normalizer.RowFor | main.py:56-60 | definition of the row one crawl result leads to; its properties are ProjectMeans and ProjectRowParses, and CrawlOne is proved to produce it |
| Normalizer.CrawlOne | main.py:56-61 | one pass looks the attraction's keywords up and gives the row that result leads to |
| Normalizer.CrawlBusinessData | main.py:51-62 | one lookup per attraction, in order, each giving its row; the rows collected, the loop ending at the first exception, and every attraction handled when none is raised |

## Left out

- The Selenium driver is an oracle. Starting and closing the browser, CSS and
  XPath matching, scrolling and page rendering are not modelled; selectors
  are opaque keys.
- The page does not react to clicks: `render(url, k)` depends only on the URL
  and the poll, not on `clicks`. A click on the opening-hours drop-down is
  recorded, but its effect of revealing the table rows is not modelled; the
  rows may appear at any later poll.
- Wall-clock time is not modelled. A wait makes `polls(timeout)` polls, a
  driver constant that is at least one. The poll frequency is not modelled.
- GoogleMapsV1.RatingCrawler.LocateVisibleElement: the ten-second wait is
  reduced to one look at the current page, so a page that changes during the
  wait is not modelled.
- GoogleMapsV1.RatingCrawler.LocateClickableElement: it is reduced to one look
  for the same reason.
- The "[*] ..." messages printed by the rating crawler are not modelled: they
  are console output.
- `urllib.parse.unquote` is an uninterpreted function parameter of the
  crawler.
- `re` is modelled only where it is used:
  - `findall` for the fixed pattern `\d{2}:\d{2}`, with `\d` the ASCII
    digits; Python also accepts other Unicode decimal digits;
  - `multiple_replace` for one-character keys.
- `copy.deepcopy` at main.py:90 is the identity: values have no sharing.
- Dict key order of the stored rows is not modelled; a row is a `map`. The
  order of the opening hours and of the schedule is modelled.
- The `GoogleMapsBusinessCrawler` record holds `opening_hours` and `map`
  apart from its seven string fields, so its key set cannot change.
- Normalizer.CrawlBusinessData: the lookups and rows are stated through the
  ghost parameters `lookup` and `rowFor`. Its precondition pins them to
  `get_business` and to the row function.
- `get_all_attractions`, the `database` module, `store_json`, `json.dumps`
  and the `__main__` blocks are left out: they are SQL, file I/O and
  serialisation. An attraction row is a datatype with the id and three
  nullable keyword columns.
- `definitions.py` contributes only `CRAWLED_BUSINESS_DATA_FIELDS`, as data.
