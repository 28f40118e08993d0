/** The first crawler, `GoogleMapsRatingScrawler`: it looks for a name, a
    rating and an address on the page a search leads to, and when the
    search lands on a list of results it follows the first listed or the
    first partially matching result once.

    The explicit waits of `locate_visible_element` and
    `locate_clickable_element` are reduced to one look at the page the
    driver shows: a located element is the first match of the XPath, and
    the wait succeeds when that element is displayed (and, for the
    clickable wait, enabled). */
module GoogleMapsV1 {
  import opened Builtins
  import opened Browser

  const BeginUrl := "https://www.google.com.tw/maps"

  /** The XPath table of the crawler, one field per entry. */
  datatype XPaths = XPaths(
    listed: string,
    partiallyMatch: string,
    name: string,
    rating: string,
    addrUpper: string,
    addrLower: string,
    addrLowerHotel: string)

  /** The XPaths the crawler uses. */
  const Paths := XPaths(
    "//*[@id=\"QA0Szd\"]/div/div/div[1]/div[2]/div/div[1]/div/div/div[2]/div[1]/div[1]/div/a",
    "//*[@id=\"QA0Szd\"]/div/div/div[1]/div[2]/div/div[1]/div/div/div[2]/div[2]/div[2]/div/a",
    "//*[@id=\"QA0Szd\"]/div/div/div[1]/div[2]/div/div[1]/div/div/div[2]/div/div[1]/div[1]/h1",
    "//*[@id=\"QA0Szd\"]/div/div/div[1]/div[2]/div/div[1]/div/div/div[2]/div/div[1]/div[2]/div/div[1]/div[2]/span[1]/span[1]",
    "//*[@id=\"QA0Szd\"]/div/div/div[1]/div[2]/div/div[1]/div/div/div[7]/div[3]/button/div/div[3]/div[1]",
    "//*[@id=\"QA0Szd\"]/div/div/div[1]/div[2]/div/div[1]/div/div/div[9]/div[3]/button/div/div[3]/div[1]",
    "//*[@id=\"QA0Szd\"]/div/div/div[1]/div[2]/div/div[1]/div/div/div[11]/div[3]/button/div/div[3]/div[1]")

  /** The XPaths of the table are pairwise different, so the lookups of
      one entry do not see what another entry matches. */
  lemma PathsDistinct()
    ensures Paths.addrLower !in {Paths.name, Paths.rating, Paths.addrUpper}
    ensures Paths.addrLowerHotel !in {Paths.name, Paths.rating, Paths.addrUpper, Paths.addrLower}
    ensures Paths.partiallyMatch !in {Paths.listed, Paths.name, Paths.rating, Paths.addrUpper, Paths.addrLower}
  {
    assert |Paths.listed| == |Paths.partiallyMatch| == 85 && |Paths.name| == 86;
    assert |Paths.rating| == 117 && |Paths.addrUpper| == |Paths.addrLower| == 97;
    assert |Paths.addrLowerHotel| == 98;
    assert Paths.addrUpper[63] == '7' && Paths.addrLower[63] == '9';
    assert Paths.listed[70] == '1' && Paths.partiallyMatch[70] == '2';
  }

  // ---------------------------------------------------------------------
  // The element lookups

  /** `EC.visibility_of_element_located`: the first element the XPath
      matches, provided it is displayed. */
  function Visible(s: Snapshot, xpath: string): (r: Option<Element>)
    ensures r.Some? <==> FindElement(s, xpath).Some? && FindElement(s, xpath).value.displayed
    ensures r.Some? ==> r.value == FindElement(s, xpath).value
  {
    match FindElement(s, xpath)
    case Some(e) => if e.displayed then Some(e) else None
    case None => None
  }

  /** `EC.element_to_be_clickable`: a visible element that is also
      enabled. */
  function Clickable(s: Snapshot, xpath: string): (r: Option<Element>)
    ensures r.Some? <==> Visible(s, xpath).Some? && Visible(s, xpath).value.enabled
    ensures r.Some? ==> r.value == FindElement(s, xpath).value
  {
    match Visible(s, xpath)
    case Some(e) => if e.enabled then Some(e) else None
    case None => None
  }

  /** A clickable element is the visible one, enabled; the visible one is
      the element found, displayed. */
  lemma ClickableIsVisible(s: Snapshot, xpath: string)
    ensures Clickable(s, xpath).Some? ==> Visible(s, xpath) == Clickable(s, xpath) && Clickable(s, xpath).value.enabled
    ensures Visible(s, xpath).Some? ==> FindElement(s, xpath) == Visible(s, xpath) && Visible(s, xpath).value.displayed
  {
  }

  // ---------------------------------------------------------------------
  // `__single_search`

  /** The `(name, rating, address)` tuple. */
  datatype Info = Info(name: string, rating: string, address: string)

  /** What `__single_search` returns: the tuple, or `False`. */
  datatype SearchResult = Found(info: Info) | NotFound

  /** The text of a located element, `""` when nothing was located. */
  function TextOr(e: Option<Element>): string {
    match e
    case Some(x) => x.text
    case None => ""
  }

  /** The address element: the upper XPath, and only when that locates
      nothing, the lower one. */
  function AddressElement(paths: XPaths, s: Snapshot): Option<Element> {
    match Visible(s, paths.addrUpper)
    case Some(e) => Some(e)
    case None => Visible(s, paths.addrLower)
  }

  /** The list `ret` that `__single_search` builds. */
  function Slots(paths: XPaths, s: Snapshot): seq<string> {
    [TextOr(Visible(s, paths.name)), TextOr(Visible(s, paths.rating)), TextOr(AddressElement(paths, s))]
  }

  /** The result of `__single_search` on snapshot `s`: `False` when every
      slot is empty, the tuple otherwise. */
  function SingleSearchOf(paths: XPaths, s: Snapshot): SearchResult {
    var ret := Slots(paths, s);
    if !AnyNonEmpty(ret) then NotFound else Found(Info(ret[0], ret[1], ret[2]))
  }

  /** The result has its three slots in the order name, rating, address;
      each slot is the text of its element, or `""` when the element was
      not located. */
  lemma SingleSearchSlots(paths: XPaths, s: Snapshot)
    ensures var r := SingleSearchOf(paths, s);
      && (r.Found? ==> Visible(s, paths.name).None? ==> r.info.name == "")
      && (r.Found? ==> Visible(s, paths.name).Some? ==> r.info.name == Visible(s, paths.name).value.text)
      && (r.Found? ==> Visible(s, paths.rating).None? ==> r.info.rating == "")
      && (r.Found? ==> Visible(s, paths.rating).Some? ==> r.info.rating == Visible(s, paths.rating).value.text)
      && (r.Found? ==> AddressElement(paths, s).None? ==> r.info.address == "")
      && (r.Found? ==> AddressElement(paths, s).Some? ==> r.info.address == AddressElement(paths, s).value.text)
  {
  }

  /** `__single_search` returns `False` exactly when all three strings are
      empty, and otherwise a tuple with some non-empty string. */
  lemma SingleSearchFalse(paths: XPaths, s: Snapshot)
    ensures SingleSearchOf(paths, s) == NotFound <==>
      TextOr(Visible(s, paths.name)) == "" && TextOr(Visible(s, paths.rating)) == ""
      && TextOr(AddressElement(paths, s)) == ""
    ensures SingleSearchOf(paths, s).Found? ==>
      var i := SingleSearchOf(paths, s).info;
      i.name != "" || i.rating != "" || i.address != ""
  {
    var ret := Slots(paths, s);
    AnyNonEmptyMeans(ret);
    if ret[0] != "" || ret[1] != "" || ret[2] != "" {
      assert AnyNonEmpty(ret);
    }
  }

  /** The lower address XPath is consulted only when the upper one locates
      nothing: once the upper one succeeds, what the lower one matches makes
      no difference. */
  lemma UpperAddressFirst(paths: XPaths, s: Snapshot, es: seq<Element>)
    requires paths.addrLower != paths.addrUpper && paths.addrLower != paths.name && paths.addrLower != paths.rating
    requires Visible(s, paths.addrUpper).Some?
    ensures SingleSearchOf(paths, Snapshot(s.url, s.matches[paths.addrLower := es])) == SingleSearchOf(paths, s)
  {
    var t := Snapshot(s.url, s.matches[paths.addrLower := es]);
    assert FindElement(t, paths.name) == FindElement(s, paths.name);
    assert FindElement(t, paths.rating) == FindElement(s, paths.rating);
    assert FindElement(t, paths.addrUpper) == FindElement(s, paths.addrUpper);
    assert Slots(paths, t) == Slots(paths, s);
  }

  /** The hotel address XPath is never consulted: whatever it matches, the
      result is the same. */
  lemma HotelAddressIgnored(paths: XPaths, s: Snapshot, es: seq<Element>)
    requires paths.addrLowerHotel !in {paths.name, paths.rating, paths.addrUpper, paths.addrLower}
    ensures SingleSearchOf(paths, Snapshot(s.url, s.matches[paths.addrLowerHotel := es])) == SingleSearchOf(paths, s)
  {
    var t := Snapshot(s.url, s.matches[paths.addrLowerHotel := es]);
    assert FindElement(t, paths.name) == FindElement(s, paths.name);
    assert FindElement(t, paths.rating) == FindElement(s, paths.rating);
    assert FindElement(t, paths.addrUpper) == FindElement(s, paths.addrUpper);
    assert FindElement(t, paths.addrLower) == FindElement(s, paths.addrLower);
    assert Slots(paths, t) == Slots(paths, s);
  }

  // ---------------------------------------------------------------------
  // `get_rating`

  /** What `get_rating` ends with: a `__single_search` result (a tuple or
      `False`), `None`, or the exception `driver.get` raises when the result
      link has no `href`. */
  datatype RatingOutcome = Searched(result: SearchResult) | NoResult | HrefMissing

  /** The course of a `get_rating` call: its outcome and the URLs it
      navigated to. */
  datatype RatingVisit = RatingVisit(outcome: RatingOutcome, navigations: seq<string>)

  /** `f"{BEGIN_URL}/search/{search_input}"`. */
  function SearchUrl(input: string): string {
    BeginUrl + "/search/" + input
  }

  /** Following a result link found on the search page: navigate to its
      `href` and search the page there once more. */
  function Follow(paths: XPaths, render: (string, nat) -> Snapshot, search: string, link: Element): RatingVisit {
    match GetAttribute(link, "href")
    case None => RatingVisit(HrefMissing, [search])
    case Some(url) => RatingVisit(Searched(SingleSearchOf(paths, render(url, 0))), [search, url])
  }

  /** `get_rating(search_input)` as a function of the pages the browser
      shows right after each navigation. */
  function Rate(paths: XPaths, render: (string, nat) -> Snapshot, input: string): RatingVisit {
    var search := SearchUrl(input);
    var page := render(search, 0);
    var info := SingleSearchOf(paths, page);
    if info.Found? then RatingVisit(Searched(info), [search])
    else
      match Clickable(page, paths.listed)
      case Some(link) => Follow(paths, render, search, link)
      case None =>
        match Clickable(page, paths.partiallyMatch)
        case Some(link) => Follow(paths, render, search, link)
        case None => RatingVisit(NoResult, [search])
  }

  /** The search page is always loaded first, and at most one result link
      is followed afterwards. */
  lemma RateNavigations(paths: XPaths, render: (string, nat) -> Snapshot, input: string)
    ensures var v := Rate(paths, render, input);
      && 1 <= |v.navigations| <= 2
      && v.navigations[0] == BeginUrl + "/search/" + input
      && (|v.navigations| == 2 <==> v.outcome.Searched? && SingleSearchOf(paths, render(SearchUrl(input), 0)).NotFound?)
  {
  }

  /** A successful direct search is returned unchanged and nothing is
      followed. */
  lemma DirectResultKept(paths: XPaths, render: (string, nat) -> Snapshot, input: string)
    requires SingleSearchOf(paths, render(SearchUrl(input), 0)).Found?
    ensures Rate(paths, render, input) ==
      RatingVisit(Searched(SingleSearchOf(paths, render(SearchUrl(input), 0))), [SearchUrl(input)])
  {
  }

  /** The listed result takes priority over the partially matching one:
      when it is clickable, what the partial-match XPath matches makes no
      difference, and the outcome is the second search on the page the
      listed link leads to, with no further fallback. */
  lemma ListedFirst(paths: XPaths, render: (string, nat) -> Snapshot, input: string, es: seq<Element>)
    requires paths.partiallyMatch != paths.listed
    requires paths.partiallyMatch !in {paths.name, paths.rating, paths.addrUpper, paths.addrLower}
    requires SingleSearchOf(paths, render(SearchUrl(input), 0)).NotFound?
    requires Clickable(render(SearchUrl(input), 0), paths.listed).Some?
    ensures var link := Clickable(render(SearchUrl(input), 0), paths.listed).value;
      && Rate(paths, render, input) == Follow(paths, render, SearchUrl(input), link)
      && Rate(paths, render, input) == Rate(paths, PartialMatches(render, SearchUrl(input), paths.partiallyMatch, es), input)
  {
    var search := SearchUrl(input);
    var s := render(search, 0);
    var alt := PartialMatches(render, search, paths.partiallyMatch, es);
    var t := alt(search, 0);
    assert t == Snapshot(s.url, s.matches[paths.partiallyMatch := es]);
    assert FindElement(t, paths.name) == FindElement(s, paths.name);
    assert FindElement(t, paths.rating) == FindElement(s, paths.rating);
    assert FindElement(t, paths.addrUpper) == FindElement(s, paths.addrUpper);
    assert FindElement(t, paths.addrLower) == FindElement(s, paths.addrLower);
    assert FindElement(t, paths.listed) == FindElement(s, paths.listed);
    assert Slots(paths, t) == Slots(paths, s);
    var link := Clickable(s, paths.listed).value;
    match GetAttribute(link, "href")
    case None =>
    case Some(url) =>
      if url != search {
        assert alt(url, 0) == render(url, 0);
      } else {
        assert SingleSearchOf(paths, alt(url, 0)) == SingleSearchOf(paths, t);
      }
  }

  /** The same browser, except that on the first poll of page `page` the
      XPath `xpath` matches `es`. */
  function PartialMatches(render: (string, nat) -> Snapshot, page: string, xpath: string, es: seq<Element>)
    : (string, nat) -> Snapshot
  {
    (u: string, t: nat) =>
      if u == page && t == 0 then Snapshot(render(u, t).url, render(u, t).matches[xpath := es]) else render(u, t)
  }

  /** When the direct search fails and neither result XPath locates a
      clickable link, `get_rating` returns `None` after the one
      navigation. */
  lemma NothingToFollow(paths: XPaths, render: (string, nat) -> Snapshot, input: string)
    requires SingleSearchOf(paths, render(SearchUrl(input), 0)).NotFound?
    requires Clickable(render(SearchUrl(input), 0), paths.listed).None?
    requires Clickable(render(SearchUrl(input), 0), paths.partiallyMatch).None?
    ensures Rate(paths, render, input) == RatingVisit(NoResult, [SearchUrl(input)])
  {
  }

  /** A tuple that `get_rating` returns describes the last page it
      navigated to: each slot is empty or the text of a displayed element
      there. */
  lemma RatedFromLastPage(paths: XPaths, render: (string, nat) -> Snapshot, input: string)
    ensures var v := Rate(paths, render, input);
      v.outcome.Searched? && v.outcome.result.Found? ==>
        var s := render(v.navigations[|v.navigations| - 1], 0);
        var i := v.outcome.result.info;
        && (i.name == "" || (Visible(s, paths.name).Some? && i.name == Visible(s, paths.name).value.text))
        && (i.rating == "" || (Visible(s, paths.rating).Some? && i.rating == Visible(s, paths.rating).value.text))
        && (i.address == "" || (AddressElement(paths, s).Some? && AddressElement(paths, s).value.displayed && i.address == AddressElement(paths, s).value.text))
  {
    var v := Rate(paths, render, input);
    if v.outcome.Searched? && v.outcome.result.Found? {
      var s := render(v.navigations[|v.navigations| - 1], 0);
      assert v.outcome.result == SingleSearchOf(paths, s);
      SingleSearchSlots(paths, s);
    }
  }

  // ---------------------------------------------------------------------
  // The crawler object

  /** `GoogleMapsRatingScrawler` over a driver. */
  class RatingCrawler {
    const driver: Driver
    const paths: XPaths

    constructor (driver: Driver)
      ensures this.driver == driver && paths == Paths
    {
      this.driver := driver;
      paths := Paths;
    }

    /** `locate_visible_element(timeout, (By.XPATH, xpath))`, `None` on
        timeout. */
    method LocateVisibleElement(timeout: nat, xpath: string) returns (e: Option<Element>)
      ensures e == Visible(driver.Page(), xpath)
    {
      e := Visible(driver.Page(), xpath);
    }

    /** `locate_clickable_element(timeout, (By.XPATH, xpath))`, `None` on
        timeout. */
    method LocateClickableElement(timeout: nat, xpath: string) returns (e: Option<Element>)
      ensures e == Clickable(driver.Page(), xpath)
    {
      e := Clickable(driver.Page(), xpath);
    }

    /** `__single_search`: builds `ret` one slot at a time. */
    method SingleSearch() returns (r: SearchResult)
      ensures r == SingleSearchOf(paths, driver.Page())
    {
      var ret: seq<string> := [];
      var nameEle := LocateVisibleElement(10, paths.name);
      if nameEle.Some? {
        ret := ret + [nameEle.value.text];
      } else {
        ret := ret + [""];
      }
      var ratingEle := LocateVisibleElement(10, paths.rating);
      if ratingEle.Some? {
        ret := ret + [ratingEle.value.text];
      } else {
        ret := ret + [""];
      }
      var addrEle := LocateVisibleElement(10, paths.addrUpper);
      if addrEle.None? {
        addrEle := LocateVisibleElement(10, paths.addrLower);
      }
      if addrEle.Some? {
        ret := ret + [addrEle.value.text];
      } else {
        ret := ret + [""];
      }
      assert ret == Slots(paths, driver.Page());
      if !AnyNonEmpty(ret) {
        return NotFound;
      }
      r := Found(Info(ret[0], ret[1], ret[2]));
    }

    /** `get_rating(search_input)`. */
    method GetRating(input: string) returns (outcome: RatingOutcome)
      modifies driver`location, driver`clock, driver`history
      ensures var v := Rate(paths, driver.render, input);
        && outcome == v.outcome
        && driver.history == old(driver.history) + v.navigations
        && driver.location == v.navigations[|v.navigations| - 1]
        && driver.clock == 0
    {
      driver.Get(BeginUrl + "/search/" + input);
      var info := SingleSearch();
      if info.NotFound? {
        var link := LocateClickableElement(10, paths.listed);
        if link.Some? {
          outcome := FollowLink(link.value);
          return;
        }
        link := LocateClickableElement(10, paths.partiallyMatch);
        if link.Some? {
          outcome := FollowLink(link.value);
          return;
        }
        return NoResult;
      }
      outcome := Searched(info);
    }

    /** `self.driver.get(link.get_attribute("href"))` followed by a second
        `__single_search`. */
    method FollowLink(link: Element) returns (outcome: RatingOutcome)
      modifies driver`location, driver`clock, driver`history
      ensures var v := Follow(paths, driver.render, old(driver.location), link);
        && outcome == v.outcome
        && driver.history == old(driver.history) + v.navigations[1..]
        && driver.location == v.navigations[|v.navigations| - 1]
        && driver.clock == if |v.navigations| > 1 then 0 else old(driver.clock)
    {
      var href := GetAttribute(link, "href");
      if href.None? {
        return HrefMissing;
      }
      driver.Get(href.value);
      var r := SingleSearch();
      outcome := Searched(r);
    }
  }
}
