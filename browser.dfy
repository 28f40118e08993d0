/** The browser as the crawlers see it, reduced to an oracle.

    A page is observed as a sequence of snapshots: at each poll the page
    loaded from a URL shows one snapshot, which maps every selector string
    to the elements it matches, in document order.  Selector matching itself
    is not modelled; a selector is an opaque key.  The driver keeps the URL
    last navigated to, the number of polls that have elapsed since, the list
    of navigations and the list of elements it has clicked. */
module Browser {
  import opened Builtins

  /** A located element: its visible text, its attributes, whether it is
      displayed and enabled, and what each selector matches inside it. */
  datatype Element = Element(
    text: string,
    attributes: map<string, string>,
    displayed: bool,
    enabled: bool,
    within: map<string, seq<Element>>)

  /** What the page shows at one poll: the address bar and, for each
      selector, the matching elements in document order. */
  datatype Snapshot = Snapshot(url: string, matches: map<string, seq<Element>>)

  /** `WebElement.get_attribute(name)`: `None` when the attribute is absent. */
  function GetAttribute(e: Element, name: string): Option<string> {
    if name in e.attributes then Some(e.attributes[name]) else None
  }

  function AllOf(m: map<string, seq<Element>>, selector: string): seq<Element> {
    if selector in m then m[selector] else []
  }

  function FirstOf(m: map<string, seq<Element>>, selector: string): (r: Option<Element>)
    ensures r.Some? <==> AllOf(m, selector) != []
    ensures r.Some? ==> r.value == AllOf(m, selector)[0]
  {
    var all := AllOf(m, selector);
    if all == [] then None else Some(all[0])
  }

  /** `driver.find_element`: the first match, `None` standing for
      `NoSuchElementException`. */
  function FindElement(s: Snapshot, selector: string): Option<Element> {
    FirstOf(s.matches, selector)
  }

  /** `driver.find_elements`: every match, possibly none. */
  function FindElements(s: Snapshot, selector: string): seq<Element> {
    AllOf(s.matches, selector)
  }

  /** `element.find_element`, searching inside an element. */
  function FindElementIn(e: Element, selector: string): Option<Element> {
    FirstOf(e.within, selector)
  }

  /** `element.find_elements`, searching inside an element. */
  function FindElementsIn(e: Element, selector: string): seq<Element> {
    AllOf(e.within, selector)
  }

  /** `find_element` and `find_elements` agree: the single lookup succeeds
      exactly when the list of matches is not empty, and then returns its
      first element; on the page and inside an element alike. */
  lemma FindElementFirst(s: Snapshot, e: Element, selector: string)
    ensures FindElement(s, selector).Some? <==> FindElements(s, selector) != []
    ensures FindElement(s, selector).Some? ==> FindElement(s, selector).value == FindElements(s, selector)[0]
    ensures FindElementIn(e, selector).Some? <==> FindElementsIn(e, selector) != []
    ensures FindElementIn(e, selector).Some? ==> FindElementIn(e, selector).value == FindElementsIn(e, selector)[0]
  {
  }

  /** The visible texts of a list of elements, `[e.text for e in es]`. */
  function Texts(es: seq<Element>): (ts: seq<string>)
    ensures |ts| == |es|
    ensures forall i :: 0 <= i < |es| ==> ts[i] == es[i].text
  {
    seq(|es|, i requires 0 <= i < |es| => es[i].text)
  }

  /** How many times `WebDriverWait(driver, timeout).until(...)` evaluates
      its condition before it gives up: at least once. */
  type PollCount = n: nat | 1 <= n witness 1

  /** The snapshots that `n` polls of the page loaded from `location` see,
      starting `start` polls after the navigation. */
  function Window(render: (string, nat) -> Snapshot, location: string, start: nat, n: nat): (w: seq<Snapshot>)
    ensures |w| == n
    ensures forall k :: 0 <= k < n ==> w[k] == render(location, start + k)
  {
    seq(n, k requires 0 <= k < n => render(location, start + k))
  }

  class Driver {
    /** The page loaded from a URL, as it shows at the k-th poll after
        navigating there. */
    const render: (string, nat) -> Snapshot
    /** The number of polls a wait with a given timeout in seconds makes. */
    const polls: nat -> PollCount

    var location: string
    var clock: nat
    var history: seq<string>
    var clicks: seq<Element>

    constructor (render: (string, nat) -> Snapshot, polls: nat -> PollCount, start: string)
      ensures this.render == render && this.polls == polls
      ensures location == start && clock == 0 && history == [] && clicks == []
    {
      this.render := render;
      this.polls := polls;
      location := start;
      clock := 0;
      history := [];
      clicks := [];
    }

    /** What the page shows now. */
    function Page(): Snapshot
      reads this`location, this`clock
    {
      render(location, clock)
    }

    /** `driver.current_url`. */
    function CurrentUrl(): string
      reads this`location, this`clock
    {
      Page().url
    }

    /** `driver.get(url)`: load a new page; polling starts afresh. */
    method Get(url: string)
      modifies this`location, this`clock, this`history
      ensures location == url && clock == 0
      ensures history == old(history) + [url]
    {
      location := url;
      clock := 0;
      history := history + [url];
    }

    /** The pause between two polls of a wait; the page moves on. */
    method Sleep()
      modifies this`clock
      ensures clock == old(clock) + 1
    {
      clock := clock + 1;
    }

    /** `ActionChains(driver).move_to_element(e).perform()` followed by
        `e.click()`.  An element that is not displayed cannot be
        interacted with, which Selenium reports as
        `ElementNotInteractableException`; `ok` is false then and nothing
        is clicked. */
    method MoveAndClick(e: Element) returns (ok: bool)
      modifies this`clicks
      ensures ok == e.displayed
      ensures clicks == old(clicks) + (if ok then [e] else [])
    {
      ok := e.displayed;
      if ok {
        clicks := clicks + [e];
      }
    }
  }
}
