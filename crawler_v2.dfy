/** The business crawler (googlemaps_crawler_v2.py).

    A keyword search either lands on a place page or on a list of results;
    in the second case the crawler follows the first result.  On the place
    page it polls for eight fields, filling each one at most once, until all
    are present or the poll budget runs out, and returns whatever it
    gathered if anything at all was found.

    The CSS selectors are carried as one `Selectors` value: the functions
    that read a page take it as a parameter, the crawler objects hold it as
    a constant, and `Css` is the table the source defines. */
module GoogleMapsV2 {
  import opened Builtins
  import opened Browser

  // ---------------------------------------------------------------------
  // Constants

  const BaseUrl := "https://www.google.com.tw/maps/search/"

  /** The seven string-valued business fields; the eighth, the opening
      hours, is a dict and is kept apart. */
  datatype Field = Name | Rating | TotalReviews | PlaceType | Address | Website | PhoneNumber

  /** `BUSINESS_DATA_FIELDS[:4]`: fields read from the element's text. */
  const TextFields: seq<Field> := [Name, Rating, TotalReviews, PlaceType]
  /** `BUSINESS_DATA_FIELDS[4:7]`: fields read from its `aria-label`. */
  const AttributeFields: seq<Field> := [Address, Website, PhoneNumber]

  const OpeningHoursKey := "opening_hours"
  const BusinessDataFields: seq<string> :=
    ["name", "rating", "total_reviews", "place_type", "address", "website", "phone_number", "opening_hours"]

  function FieldName(f: Field): string {
    match f
    case Name => "name"
    case Rating => "rating"
    case TotalReviews => "total_reviews"
    case PlaceType => "place_type"
    case Address => "address"
    case Website => "website"
    case PhoneNumber => "phone_number"
  }

  /** The fields read from the element's text rather than an attribute. */
  predicate IsTextField(f: Field) {
    f.Name? || f.Rating? || f.TotalReviews? || f.PlaceType?
  }

  /** The two field lists enumerate every field once, in the order of
      `BUSINESS_DATA_FIELDS`, and the opening hours come last. */
  lemma FieldOrder()
    ensures |TextFields + AttributeFields| == 7 == |BusinessDataFields| - 1
    ensures forall i :: 0 <= i < 7 ==> FieldName((TextFields + AttributeFields)[i]) == BusinessDataFields[i]
    ensures BusinessDataFields[7] == OpeningHoursKey
    ensures forall f: Field :: f in TextFields + AttributeFields
    ensures forall f: Field :: IsTextField(f) <==> f in TextFields
    ensures forall f: Field :: !IsTextField(f) <==> f in AttributeFields
  {
    forall f: Field
      ensures f in TextFields + AttributeFields
    {
      var all := TextFields + AttributeFields;
      match f
      case Name => assert all[0] == f;
      case Rating => assert all[1] == f;
      case TotalReviews => assert all[2] == f;
      case PlaceType => assert all[3] == f;
      case Address => assert all[4] == f;
      case Website => assert all[5] == f;
      case PhoneNumber => assert all[6] == f;
    }
  }

  /** The CSS selectors the crawler uses: one per field (`TARGET_ELEMENT_SELECTORS`),
      the opening-hours drop-down and table, and the two branch anchors
      (`PAGE_BRANCH_SELECTORS`). */
  datatype Selectors = Selectors(
    name: string,
    rating: string,
    totalReviews: string,
    placeType: string,
    address: string,
    website: string,
    phoneNumber: string,
    dropDown: string,
    hourItems: string,
    hourWeek: string,
    hourDuration: string,
    highlyMatched: string,
    lowMatched: string)
  {
    /** `TARGET_ELEMENT_SELECTORS[field]`. */
    function Target(f: Field): string {
      match f
      case Name => name
      case Rating => rating
      case TotalReviews => totalReviews
      case PlaceType => placeType
      case Address => address
      case Website => website
      case PhoneNumber => phoneNumber
    }
  }

  const RelativeInfoTargetBlock := "div[class=\"m6QErb \"][role=\"region\"][aria-label$=\"相關資訊\"]"

  /** The selector table of the source. */
  const Css := Selectors(
    "div[role=\"main\"] h1[class=\"DUwDvf fontHeadlineLarge\"]",
    "div[role=\"main\"] div[class=\"F7nice \"] span:nth-child(1) span:nth-child(1)",
    "div[role=\"main\"] div[class=\"F7nice \"] span:nth-child(1) span[aria-label]:nth-child(1)",
    "button[class=\"DkEaL \"]",
    RelativeInfoTargetBlock + " button[class=\"CsEnBe\"][aria-label^=\"地址\"][data-item-id=\"address\"]",
    RelativeInfoTargetBlock + " a[class=\"CsEnBe\"][aria-label^=\"網站\"][data-item-id=\"authority\"]",
    RelativeInfoTargetBlock + " button[class=\"CsEnBe\"][aria-label^=\"電話號碼\"]",
    "div[class=\"OMl5r hH0dDd jBYmhd\"][data-hide-tooltip-on-mouse-move=\"true\"][aria-expanded=\"false\"][role=\"button\"]",
    "table[class^=\"eK4R0e\"] tbody tr[class=\"y0skZc\"]",
    "table[class^=\"eK4R0e\"] tbody tr[class=\"y0skZc\"] td[class^=\"ylH6lf \"] div",
    "table[class^=\"eK4R0e\"] tbody tr[class=\"y0skZc\"] td[class=\"mxowUb\"] li[class=\"G8aQO\"]",
    "div[aria-label$=搜尋結果][role=\"feed\"] a:nth-child(1)",
    "div[aria-label$=搜尋結果][role=\"feed\"] a:nth-child(1)")

  // ---------------------------------------------------------------------
  // The accumulated record

  /** The `data` dict: one optional string per field and the opening hours
      as an insertion-ordered dict from weekday label to duration text.  Its
      key set is fixed by the type: it can be neither extended nor shrunk. */
  datatype BusinessData = BusinessData(
    name: Option<string>,
    rating: Option<string>,
    totalReviews: Option<string>,
    placeType: Option<string>,
    address: Option<string>,
    website: Option<string>,
    phoneNumber: Option<string>,
    openingHours: seq<(string, string)>)
  {
    /** `data[field]`. */
    function Get(f: Field): Option<string> {
      match f
      case Name => name
      case Rating => rating
      case TotalReviews => totalReviews
      case PlaceType => placeType
      case Address => address
      case Website => website
      case PhoneNumber => phoneNumber
    }

    /** `data[field] = v`: that field changes and nothing else does. */
    function Set(f: Field, v: Option<string>): (d: BusinessData)
      ensures d.Get(f) == v
      ensures forall g :: g != f ==> d.Get(g) == Get(g)
      ensures d.openingHours == openingHours
    {
      match f
      case Name => this.(name := v)
      case Rating => this.(rating := v)
      case TotalReviews => this.(totalReviews := v)
      case PlaceType => this.(placeType := v)
      case Address => this.(address := v)
      case Website => this.(website := v)
      case PhoneNumber => this.(phoneNumber := v)
    }
  }

  /** `{k: None for k in BUSINESS_DATA_FIELDS}` with `opening_hours = {}`. */
  function InitialData(): BusinessData {
    BusinessData(None, None, None, None, None, None, None, [])
  }

  lemma InitialDataIsEmpty()
    ensures forall f :: InitialData().Get(f) == None
    ensures InitialData().openingHours == []
  {
  }

  /** Two records are equal when they agree on every field and on the
      opening hours. */
  lemma SameRecord(a: BusinessData, b: BusinessData)
    requires forall f :: a.Get(f) == b.Get(f)
    requires a.openingHours == b.openingHours
    ensures a == b
  {
    assert a.Get(Name) == b.Get(Name) && a.Get(Rating) == b.Get(Rating);
    assert a.Get(TotalReviews) == b.Get(TotalReviews) && a.Get(PlaceType) == b.Get(PlaceType);
    assert a.Get(Address) == b.Get(Address) && a.Get(Website) == b.Get(Website);
    assert a.Get(PhoneNumber) == b.Get(PhoneNumber);
  }

  /** Python truthiness of a field value: `None` and `""` are falsy. */
  predicate Truthy(v: Option<string>) {
    v.Some? && v.value != ""
  }

  /** `all(data.values())`, value by value in the order of the dict. */
  predicate Complete(d: BusinessData) {
    && Truthy(d.name) && Truthy(d.rating) && Truthy(d.totalReviews) && Truthy(d.placeType)
    && Truthy(d.address) && Truthy(d.website) && Truthy(d.phoneNumber) && d.openingHours != []
  }

  /** `any(data.values())`. */
  predicate AnyTruthy(d: BusinessData) {
    || Truthy(d.name) || Truthy(d.rating) || Truthy(d.totalReviews) || Truthy(d.placeType)
    || Truthy(d.address) || Truthy(d.website) || Truthy(d.phoneNumber) || d.openingHours != []
  }

  /** The record is complete exactly when every field is truthy and the
      opening hours are not empty. */
  lemma CompleteMeans(d: BusinessData)
    ensures Complete(d) <==> (forall f :: Truthy(d.Get(f))) && d.openingHours != []
  {
    if !Complete(d) {
      if !Truthy(d.name) { assert !Truthy(d.Get(Name)); }
      else if !Truthy(d.rating) { assert !Truthy(d.Get(Rating)); }
      else if !Truthy(d.totalReviews) { assert !Truthy(d.Get(TotalReviews)); }
      else if !Truthy(d.placeType) { assert !Truthy(d.Get(PlaceType)); }
      else if !Truthy(d.address) { assert !Truthy(d.Get(Address)); }
      else if !Truthy(d.website) { assert !Truthy(d.Get(Website)); }
      else if !Truthy(d.phoneNumber) { assert !Truthy(d.Get(PhoneNumber)); }
    }
  }

  /** Some value of the record is truthy exactly when some field is truthy
      or the opening hours are not empty. */
  lemma AnyTruthyMeans(d: BusinessData)
    ensures AnyTruthy(d) <==> (exists f :: Truthy(d.Get(f))) || d.openingHours != []
  {
    if Truthy(d.name) { assert Truthy(d.Get(Name)); }
    if Truthy(d.rating) { assert Truthy(d.Get(Rating)); }
    if Truthy(d.totalReviews) { assert Truthy(d.Get(TotalReviews)); }
    if Truthy(d.placeType) { assert Truthy(d.Get(PlaceType)); }
    if Truthy(d.address) { assert Truthy(d.Get(Address)); }
    if Truthy(d.website) { assert Truthy(d.Get(Website)); }
    if Truthy(d.phoneNumber) { assert Truthy(d.Get(PhoneNumber)); }
  }

  // ---------------------------------------------------------------------
  // One poll of `CustomCondition.get_business_elements`

  /** What a lookup of field `f` on snapshot `s` yields: the element's text
      for the first four fields, its `aria-label` for the next three, and
      `None` when the element is missing. */
  function Located(css: Selectors, f: Field, s: Snapshot): Option<string> {
    match FindElement(s, css.Target(f))
    case None => None
    case Some(e) => if IsTextField(f) then Some(e.text) else GetAttribute(e, "aria-label")
  }

  /** A field that is still `None` is looked up; any other keeps its value. */
  function Filled(css: Selectors, d: BusinessData, s: Snapshot, f: Field): Option<string> {
    if d.Get(f).None? then Located(css, f, s) else d.Get(f)
  }

  /** One round of the first loop of a poll: field `f`, when still `None`,
      takes the text of its element if there is one. */
  function TextStep(css: Selectors, d: BusinessData, s: Snapshot, f: Field): BusinessData {
    if d.Get(f).Some? then d
    else
      match FindElement(s, css.Target(f))
      case None => d
      case Some(e) => d.Set(f, Some(e.text))
  }

  /** One round of the second loop: field `f`, when still `None`, takes the
      `aria-label` of its element if there is one. */
  function AttributeStep(css: Selectors, d: BusinessData, s: Snapshot, f: Field): BusinessData {
    if d.Get(f).Some? then d
    else
      match FindElement(s, css.Target(f))
      case None => d
      case Some(e) => d.Set(f, GetAttribute(e, "aria-label"))
  }

  /** The first loop over the given fields, in order. */
  function FillText(css: Selectors, d: BusinessData, s: Snapshot, fields: seq<Field>): BusinessData
    decreases |fields|
  {
    if fields == [] then d
    else TextStep(css, FillText(css, d, s, fields[..|fields| - 1]), s, fields[|fields| - 1])
  }

  /** The second loop over the given fields, in order. */
  function FillAttributes(css: Selectors, d: BusinessData, s: Snapshot, fields: seq<Field>): BusinessData
    decreases |fields|
  {
    if fields == [] then d
    else AttributeStep(css, FillAttributes(css, d, s, fields[..|fields| - 1]), s, fields[|fields| - 1])
  }

  /** The entry one opening-hours row contributes: its weekday label and
      its duration texts joined by `/`; `None` when the row has no label
      element. */
  function RowEntry(css: Selectors, row: Element): Option<(string, string)> {
    match FindElementIn(row, css.hourWeek)
    case None => None
    case Some(w) => Some((w.text, Join(Texts(FindElementsIn(row, css.hourDuration)), "/")))
  }

  /** One step of the opening-hours loop: the entry of a row is appended
      when its label is absent and not blank. */
  function AddEntry(hours: seq<(string, string)>, entry: (string, string)): seq<(string, string)> {
    if entry.0 !in Keys(hours) && Strip(entry.0) != "" then hours + [entry] else hours
  }

  /** The opening-hours loop over the table rows.  A row without a label
      element raises `NoSuchElementException`, which ends the loop. */
  function AddHours(css: Selectors, hours: seq<(string, string)>, rows: seq<Element>): seq<(string, string)>
    decreases |rows|
  {
    if rows == [] then hours
    else
      match RowEntry(css, rows[0])
      case None => hours
      case Some(entry) => AddHours(css, AddEntry(hours, entry), rows[1..])
  }

  /** The record after one poll of snapshot `s`: the text fields, then the
      attribute fields, then the rows of the opening-hours table. */
  function PollStep(css: Selectors, d: BusinessData, s: Snapshot): BusinessData {
    var filled := FillAttributes(css, FillText(css, d, s, TextFields), s, AttributeFields);
    filled.(openingHours := AddHours(css, filled.openingHours, FindElements(s, css.hourItems)))
  }

  /** The clicks one poll performs on snapshot `s`: the drop-down, when it
      is there and can be interacted with. */
  function ExpansionClicks(css: Selectors, s: Snapshot): seq<Element> {
    match FindElement(s, css.dropDown)
    case None => []
    case Some(e) => if e.displayed then [e] else []
  }

  /** What the loop already holds stays in place. */
  lemma {:induction false} AddHoursPrefix(css: Selectors, hours: seq<(string, string)>, rows: seq<Element>)
    ensures hours <= AddHours(css, hours, rows)
    decreases |rows|
  {
    if rows != [] && RowEntry(css, rows[0]).Some? {
      AddHoursPrefix(css, AddEntry(hours, RowEntry(css, rows[0]).value), rows[1..]);
    }
  }

  /** Every entry the loop adds has a label that was absent before and is
      not blank after `strip()`. */
  lemma {:induction false} AddHoursNewLabels(css: Selectors, hours: seq<(string, string)>, rows: seq<Element>)
    ensures forall i :: |hours| <= i < |AddHours(css, hours, rows)| ==>
      AddHours(css, hours, rows)[i].0 !in Keys(hours) && Strip(AddHours(css, hours, rows)[i].0) != ""
    decreases |rows|
  {
    if rows != [] && RowEntry(css, rows[0]).Some? {
      var entry := RowEntry(css, rows[0]).value;
      var next := AddEntry(hours, entry);
      var r := AddHours(css, next, rows[1..]);
      AddHoursNewLabels(css, next, rows[1..]);
      AddHoursPrefix(css, next, rows[1..]);
      assert Keys(hours) == Keys(next)[..|hours|];
      forall i | |hours| <= i < |r|
        ensures r[i].0 !in Keys(hours) && Strip(r[i].0) != ""
      {
        if i < |next| {
          assert r[i] == next[i] == entry;
        } else {
          assert r[i].0 !in Keys(next);
        }
      }
    }
  }

  /** `entry` is what one of the rows contributes. */
  predicate FromRow(css: Selectors, rows: seq<Element>, entry: (string, string)) {
    exists j :: 0 <= j < |rows| && RowEntry(css, rows[j]) == Some(entry)
  }

  /** Every entry the loop adds is the entry of one of the rows: the label
      and the duration texts joined by `/`. */
  lemma {:induction false} AddHoursFromRows(css: Selectors, hours: seq<(string, string)>, rows: seq<Element>)
    ensures forall i :: |hours| <= i < |AddHours(css, hours, rows)| ==> FromRow(css, rows, AddHours(css, hours, rows)[i])
    decreases |rows|
  {
    if rows != [] && RowEntry(css, rows[0]).Some? {
      var entry := RowEntry(css, rows[0]).value;
      var next := AddEntry(hours, entry);
      var r := AddHours(css, next, rows[1..]);
      AddHoursFromRows(css, next, rows[1..]);
      AddHoursPrefix(css, next, rows[1..]);
      assert r == AddHours(css, hours, rows);
      forall i | |hours| <= i < |r|
        ensures FromRow(css, rows, r[i])
      {
        if i < |next| {
          assert r[i] == next[i] == entry;
          assert RowEntry(css, rows[0]) == Some(r[i]);
        } else {
          assert FromRow(css, rows[1..], r[i]);
          var j :| 0 <= j < |rows[1..]| && RowEntry(css, rows[1..][j]) == Some(r[i]);
          assert RowEntry(css, rows[j + 1]) == Some(r[i]);
        }
      }
    }
  }

  /** Labels stay distinct, as the keys of a dict must. */
  lemma {:induction false} AddHoursDistinct(css: Selectors, hours: seq<(string, string)>, rows: seq<Element>)
    requires DistinctKeys(hours)
    ensures DistinctKeys(AddHours(css, hours, rows))
    decreases |rows|
  {
    if rows != [] && RowEntry(css, rows[0]).Some? {
      var entry := RowEntry(css, rows[0]).value;
      var next := AddEntry(hours, entry);
      if next != hours {
        forall i, j | 0 <= i < j < |next| ensures next[i].0 != next[j].0 {
          if j == |hours| {
            assert Keys(hours)[i] == hours[i].0;
          }
        }
      }
      AddHoursDistinct(css, next, rows[1..]);
    }
  }

  /** The first loop fills each listed field as `Filled` says and leaves
      every other field and the opening hours alone. */
  lemma {:induction false} FillTextGet(css: Selectors, d: BusinessData, s: Snapshot, fields: seq<Field>, f: Field)
    requires forall i :: 0 <= i < |fields| ==> IsTextField(fields[i])
    ensures FillText(css, d, s, fields).Get(f) == if f in fields then Filled(css, d, s, f) else d.Get(f)
    ensures FillText(css, d, s, fields).openingHours == d.openingHours
    decreases |fields|
  {
    if fields != [] {
      var front := fields[..|fields| - 1];
      var g := fields[|fields| - 1];
      FillTextGet(css, d, s, front, f);
      FillTextGet(css, d, s, front, g);
      assert fields == front + [g];
    }
  }

  /** The second loop fills each listed field as `Filled` says and leaves
      every other field and the opening hours alone. */
  lemma {:induction false} FillAttributesGet(css: Selectors, d: BusinessData, s: Snapshot, fields: seq<Field>, f: Field)
    requires forall i :: 0 <= i < |fields| ==> !IsTextField(fields[i])
    ensures FillAttributes(css, d, s, fields).Get(f) == if f in fields then Filled(css, d, s, f) else d.Get(f)
    ensures FillAttributes(css, d, s, fields).openingHours == d.openingHours
    decreases |fields|
  {
    if fields != [] {
      var front := fields[..|fields| - 1];
      var g := fields[|fields| - 1];
      FillAttributesGet(css, d, s, front, f);
      FillAttributesGet(css, d, s, front, g);
      assert fields == front + [g];
    }
  }

  /** Each field of the polled record is what the per-field reading
      `Filled` gives: the two loops together visit every field once. */
  lemma PollStepGet(css: Selectors, d: BusinessData, s: Snapshot, f: Field)
    ensures PollStep(css, d, s).Get(f) == Filled(css, d, s, f)
  {
    FieldOrder();
    var t := FillText(css, d, s, TextFields);
    FillTextGet(css, d, s, TextFields, f);
    FillAttributesGet(css, t, s, AttributeFields, f);
  }

  /** A poll reads the opening-hours rows onto the hours the record had;
      the two field loops leave the opening hours alone. */
  lemma PollStepHours(css: Selectors, d: BusinessData, s: Snapshot)
    ensures PollStep(css, d, s).openingHours == AddHours(css, d.openingHours, FindElements(s, css.hourItems))
  {
    FieldOrder();
    var t := FillText(css, d, s, TextFields);
    FillTextGet(css, d, s, TextFields, Name);
    FillAttributesGet(css, t, s, AttributeFields, Name);
  }

  /** A poll never overwrites a field that is already set and never
      replaces an opening-hours entry. */
  lemma PollStepMonotone(css: Selectors, d: BusinessData, s: Snapshot)
    ensures forall f :: d.Get(f).Some? ==> PollStep(css, d, s).Get(f) == d.Get(f)
    ensures d.openingHours <= PollStep(css, d, s).openingHours
  {
    forall f | d.Get(f).Some?
      ensures PollStep(css, d, s).Get(f) == d.Get(f)
    {
      PollStepGet(css, d, s, f);
    }
    PollStepHours(css, d, s);
    AddHoursPrefix(css, d.openingHours, FindElements(s, css.hourItems));
  }

  /** A field that is still `None` takes what the page offers: the text of
      its element for the first four fields, its `aria-label` for the next
      three, and stays `None` when the element is missing. */
  lemma PollStepFills(css: Selectors, d: BusinessData, s: Snapshot, f: Field)
    requires d.Get(f).None?
    ensures FindElement(s, css.Target(f)).None? ==> PollStep(css, d, s).Get(f) == None
    ensures FindElement(s, css.Target(f)).Some? && IsTextField(f) ==>
      PollStep(css, d, s).Get(f) == Some(FindElement(s, css.Target(f)).value.text)
    ensures FindElement(s, css.Target(f)).Some? && !IsTextField(f) ==>
      PollStep(css, d, s).Get(f) == GetAttribute(FindElement(s, css.Target(f)).value, "aria-label")
  {
    PollStepGet(css, d, s, f);
  }

  /** The entries a poll adds to the opening hours come from the table rows,
      have fresh non-blank labels, and keep the labels distinct. */
  lemma PollStepNewHours(css: Selectors, d: BusinessData, s: Snapshot)
    requires DistinctKeys(d.openingHours)
    ensures var h := PollStep(css, d, s).openingHours;
      && DistinctKeys(h)
      && forall i :: |d.openingHours| <= i < |h| ==>
           && h[i].0 !in Keys(d.openingHours) && Strip(h[i].0) != ""
           && FromRow(css, FindElements(s, css.hourItems), h[i])
  {
    var rows := FindElements(s, css.hourItems);
    PollStepHours(css, d, s);
    AddHoursDistinct(css, d.openingHours, rows);
    AddHoursNewLabels(css, d.openingHours, rows);
    AddHoursFromRows(css, d.openingHours, rows);
  }

  // ---------------------------------------------------------------------
  // Repeated polls: `WebDriverWait(driver, timeout).until(condition)`

  /** The outcome of a wait: the record, whether the condition held, how
      many pauses between polls elapsed and what the polls clicked. */
  datatype PollRun = PollRun(data: BusinessData, done: bool, sleeps: nat, clicks: seq<Element>)

  /** Polls the given snapshots in turn until the record is complete.  After
      a failed poll the wait pauses, also after the last one, before it
      notices that time is up. */
  function Await(css: Selectors, d: BusinessData, snaps: seq<Snapshot>): PollRun
    decreases |snaps|
  {
    if snaps == [] then PollRun(d, false, 0, [])
    else
      var next := PollStep(css, d, snaps[0]);
      if Complete(next) then PollRun(next, true, 0, ExpansionClicks(css, snaps[0]))
      else
        var run := Await(css, next, snaps[1..]);
        run.(sleeps := run.sleeps + 1, clicks := ExpansionClicks(css, snaps[0]) + run.clicks)
  }

  /** Accumulation is monotone over any number of polls: a field once set is
      never looked up again or overwritten, and opening-hours entries are
      only added. */
  lemma {:induction false} AwaitMonotone(css: Selectors, d: BusinessData, snaps: seq<Snapshot>)
    decreases |snaps|
    ensures forall f :: d.Get(f).Some? ==> Await(css, d, snaps).data.Get(f) == d.Get(f)
    ensures d.openingHours <= Await(css, d, snaps).data.openingHours
  {
    if snaps != [] {
      var next := PollStep(css, d, snaps[0]);
      PollStepMonotone(css, d, snaps[0]);
      if !Complete(next) {
        AwaitMonotone(css, next, snaps[1..]);
      }
    }
  }

  /** A wait with at least one poll succeeds exactly when the record it ends
      with is complete; it stops at the first complete poll and otherwise
      uses up all its polls. */
  lemma {:induction false} AwaitOutcome(css: Selectors, d: BusinessData, snaps: seq<Snapshot>)
    requires |snaps| >= 1
    decreases |snaps|
    ensures Await(css, d, snaps).done <==> Complete(Await(css, d, snaps).data)
    ensures Await(css, d, snaps).done ==> Await(css, d, snaps).sleeps < |snaps|
    ensures !Await(css, d, snaps).done ==> Await(css, d, snaps).sleeps == |snaps|
  {
    var next := PollStep(css, d, snaps[0]);
    if !Complete(next) && |snaps| > 1 {
      AwaitOutcome(css, next, snaps[1..]);
    }
  }

  /** A field set to `""` is never queried again and keeps the record
      incomplete, so the wait runs until its polls are used up. */
  lemma EmptyFieldKeepsPolling(css: Selectors, d: BusinessData, snaps: seq<Snapshot>, f: Field)
    requires |snaps| >= 1
    requires d.Get(f) == Some("")
    ensures Await(css, d, snaps).data.Get(f) == Some("")
    ensures !Await(css, d, snaps).done
    ensures Await(css, d, snaps).sleeps == |snaps|
  {
    AwaitMonotone(css, d, snaps);
    AwaitOutcome(css, d, snaps);
    CompleteMeans(Await(css, d, snaps).data);
  }

  /** A field the wait fills is the value the page offered for it at one of
      the polls. */
  lemma {:induction false} AwaitFieldFromPoll(css: Selectors, d: BusinessData, snaps: seq<Snapshot>, f: Field)
    decreases |snaps|
    requires d.Get(f).None?
    requires Await(css, d, snaps).data.Get(f).Some?
    ensures exists k :: 0 <= k < |snaps| && k <= Await(css, d, snaps).sleeps
                        && Located(css, f, snaps[k]) == Await(css, d, snaps).data.Get(f)
  {
    var next := PollStep(css, d, snaps[0]);
    PollStepGet(css, d, snaps[0], f);
    if next.Get(f).Some? {
      if !Complete(next) {
        AwaitMonotone(css, next, snaps[1..]);
      }
      assert Located(css, f, snaps[0]) == Await(css, d, snaps).data.Get(f);
    } else {
      assert !Truthy(next.Get(f));
      CompleteMeans(next);
      AwaitFieldFromPoll(css, next, snaps[1..], f);
      var k :| 0 <= k < |snaps[1..]| && k <= Await(css, next, snaps[1..]).sleeps
               && Located(css, f, snaps[1..][k]) == Await(css, next, snaps[1..]).data.Get(f);
      assert snaps[1..][k] == snaps[k + 1];
    }
  }

  /** When no poll changes the record or clicks anything and the record is
      incomplete, the wait uses up all its polls and returns the record
      unchanged. */
  lemma {:induction false} AwaitStable(css: Selectors, d: BusinessData, snaps: seq<Snapshot>)
    decreases |snaps|
    requires !Complete(d)
    requires forall k :: 0 <= k < |snaps| ==> PollStep(css, d, snaps[k]) == d && ExpansionClicks(css, snaps[k]) == []
    ensures Await(css, d, snaps) == PollRun(d, false, |snaps|, [])
  {
    if snaps != [] {
      assert PollStep(css, d, snaps[0]) == d;
      AwaitStable(css, d, snaps[1..]);
    }
  }

  // ---------------------------------------------------------------------
  // `CustomCondition.get_branch_url`

  /** What the branch condition returns: `get_attribute("href")` of the
      result anchor (possibly `None`), or `False` when there is none. */
  datatype BranchUrl = Href(href: Option<string>) | NoBranch

  /** A two-level fallback ladder: the first selector, and only when it
      finds nothing, the second. */
  function Ladder(s: Snapshot, first: string, second: string): BranchUrl {
    match FindElement(s, first)
    case Some(e) => Href(GetAttribute(e, "href"))
    case None =>
      match FindElement(s, second)
      case Some(e) => Href(GetAttribute(e, "href"))
      case None => NoBranch
  }

  function GetBranchUrl(css: Selectors, s: Snapshot): BranchUrl {
    Ladder(s, css.highlyMatched, css.lowMatched)
  }

  /** The highly-matched anchor takes priority: when present, its `href` is
      the answer whatever the low-matched selector finds; the answer is
      `False` exactly when neither selector finds anything. */
  lemma LadderPriority(s: Snapshot, first: string, second: string)
    ensures FindElement(s, first).Some? ==>
      Ladder(s, first, second) == Href(GetAttribute(FindElement(s, first).value, "href"))
    ensures FindElement(s, first).None? && FindElement(s, second).Some? ==>
      Ladder(s, first, second) == Href(GetAttribute(FindElement(s, second).value, "href"))
    ensures Ladder(s, first, second) == NoBranch <==>
      FindElement(s, first).None? && FindElement(s, second).None?
  {
  }

  /** Because the two branch selectors of the source are the same text, the
      ladder collapses to a single lookup on any snapshot: its second rung
      can never be taken. */
  lemma BranchLadderCollapses(s: Snapshot)
    ensures Css.highlyMatched == Css.lowMatched
    ensures GetBranchUrl(Css, s) ==
      match FindElement(s, Css.highlyMatched)
      case Some(e) => Href(GetAttribute(e, "href"))
      case None => NoBranch
  {
  }

  /** The value `until` accepts: a non-empty `href`.  `None`, `""` and
      `False` are falsy and the wait goes on. */
  function BranchTarget(b: BranchUrl): (u: Option<string>)
    ensures u.Some? <==> b.Href? && b.href.Some? && b.href.value != ""
    ensures u.Some? ==> u.value == b.href.value
  {
    match b
    case Href(Some(url)) => if url != "" then Some(url) else None
    case _ => None
  }

  /** The branch wait uses Python truthiness, as `all()` does for the
      record: it stops exactly on a truthy `href` (not `None`, not `""`,
      not `False`) and hands that `href` back. */
  lemma BranchTargetTruthy(b: BranchUrl)
    ensures BranchTarget(b).Some? <==> b != NoBranch && Truthy(b.href)
    ensures BranchTarget(b).Some? ==> BranchTarget(b) == b.href
  {
  }

  datatype BranchRun = BranchRun(url: Option<string>, sleeps: nat)

  /** Polls the branch condition on the given snapshots until it returns a
      truthy URL. */
  function AwaitBranch(css: Selectors, snaps: seq<Snapshot>): BranchRun
    decreases |snaps|
  {
    if snaps == [] then BranchRun(None, 0)
    else
      match BranchTarget(GetBranchUrl(css, snaps[0]))
      case Some(url) => BranchRun(Some(url), 0)
      case None =>
        var run := AwaitBranch(css, snaps[1..]);
        run.(sleeps := run.sleeps + 1)
  }

  /** The branch wait returns the URL of the first poll that offers one,
      after one pause per earlier poll, and times out exactly when no poll
      offers one. */
  lemma {:induction false} AwaitBranchFirst(css: Selectors, snaps: seq<Snapshot>)
    ensures AwaitBranch(css, snaps).url.Some? ==>
      var k := AwaitBranch(css, snaps).sleeps;
      && k < |snaps|
      && BranchTarget(GetBranchUrl(css, snaps[k])) == AwaitBranch(css, snaps).url
      && forall j :: 0 <= j < k ==> BranchTarget(GetBranchUrl(css, snaps[j])).None?
    ensures AwaitBranch(css, snaps).url.None? <==>
      forall j :: 0 <= j < |snaps| ==> BranchTarget(GetBranchUrl(css, snaps[j])).None?
    ensures AwaitBranch(css, snaps).url.None? ==> AwaitBranch(css, snaps).sleeps == |snaps|
  {
    if snaps != [] && BranchTarget(GetBranchUrl(css, snaps[0])).None? {
      AwaitBranchFirst(css, snaps[1..]);
      var run := AwaitBranch(css, snaps[1..]);
      if run.url.Some? {
        assert snaps[1..][run.sleeps] == snaps[run.sleeps + 1];
        forall j | 0 <= j < run.sleeps + 1
          ensures BranchTarget(GetBranchUrl(css, snaps[j])).None?
        {
          if j > 0 { assert snaps[j] == snaps[1..][j - 1]; }
        }
      } else {
        forall j | 0 <= j < |snaps| ensures BranchTarget(GetBranchUrl(css, snaps[j])).None? {
          if j > 0 { assert snaps[j] == snaps[1..][j - 1]; }
        }
      }
    }
  }

  // ---------------------------------------------------------------------
  // The condition object and the waits

  /** `CustomCondition.get_business_elements`: holds the `data` dict that
      every poll updates in place. */
  class BusinessElements {
    var data: BusinessData
    const css: Selectors

    constructor (data: BusinessData, css: Selectors)
      ensures this.data == data && this.css == css
    {
      this.data := data;
      this.css := css;
    }

    /** The opening-hours part of `__call__`: reads the table rows in order
        until one lacks a label element. */
    method ReadOpeningHours(page: Snapshot)
      modifies this
      ensures data == old(data).(openingHours := AddHours(css, old(data).openingHours, FindElements(page, css.hourItems)))
    {
      var rows := FindElements(page, css.hourItems);
      var hours := data.openingHours;
      var j := 0;
      while j < |rows|
        invariant 0 <= j <= |rows|
        invariant data == old(data)
        invariant AddHours(css, hours, rows[j..]) == AddHours(css, data.openingHours, rows)
      {
        assert rows[j..][0] == rows[j] && rows[j..][1..] == rows[j + 1..];
        var week := FindElementIn(rows[j], css.hourWeek);
        if week.None? {
          break;
        }
        var day := week.value.text;
        var durations := FindElementsIn(rows[j], css.hourDuration);
        if day !in Keys(hours) && Strip(day) != "" {
          PutMeans(hours, day, Join(Texts(durations), "/"));
          hours := Put(hours, day, Join(Texts(durations), "/"));
        }
        j := j + 1;
      }
      data := data.(openingHours := hours);
    }

    /** `__call__`: one poll of the page the driver shows now.  Absent
        fields are looked up, the opening-hours drop-down is clicked when it
        can be, the table rows are read until one lacks a label, and the
        answer is whether every value is now truthy. */
    method Call(driver: Driver) returns (done: bool)
      modifies this, driver`clicks
      ensures data == PollStep(css, old(data), driver.Page())
      ensures driver.clicks == old(driver.clicks) + ExpansionClicks(css, driver.Page())
      ensures done == Complete(data)
    {
      var page := driver.Page();
      ghost var d0 := data;
      for i := 0 to |TextFields|
        modifies this
        invariant data == FillText(css, d0, page, TextFields[..i])
      {
        var f := TextFields[i];
        assert TextFields[..i + 1][..i] == TextFields[..i];
        if data.Get(f).None? {
          var e := FindElement(page, css.Target(f));
          if e.Some? {
            data := data.Set(f, Some(e.value.text));
          }
        }
      }
      assert TextFields[..|TextFields|] == TextFields;
      ghost var d1 := data;
      for i := 0 to |AttributeFields|
        modifies this
        invariant data == FillAttributes(css, d1, page, AttributeFields[..i])
      {
        var f := AttributeFields[i];
        assert AttributeFields[..i + 1][..i] == AttributeFields[..i];
        if data.Get(f).None? {
          var e := FindElement(page, css.Target(f));
          if e.Some? {
            data := data.Set(f, GetAttribute(e.value, "aria-label"));
          }
        }
      }
      assert AttributeFields[..|AttributeFields|] == AttributeFields;

      var dropDown := FindElement(page, css.dropDown);
      if dropDown.Some? {
        var _ := driver.MoveAndClick(dropDown.value);
      }
      ReadOpeningHours(page);
      done := Complete(data);
    }
  }

  /** The records a wait passes through while no poll completes: the
      record before the first poll, then the record after each poll. */
  function Trace(css: Selectors, d: BusinessData, snaps: seq<Snapshot>): (tr: seq<BusinessData>)
    ensures |tr| == |snaps| + 1 && tr[0] == d
    decreases |snaps|
  {
    if snaps == [] then [d] else [d] + Trace(css, PollStep(css, d, snaps[0]), snaps[1..])
  }

  /** Each record of the trace is one poll of the one before it. */
  lemma {:induction false} TraceStep(css: Selectors, d: BusinessData, snaps: seq<Snapshot>, j: nat)
    requires j < |snaps|
    ensures Trace(css, d, snaps)[j + 1] == PollStep(css, Trace(css, d, snaps)[j], snaps[j])
    decreases j
  {
    if j > 0 {
      TraceStep(css, PollStep(css, d, snaps[0]), snaps[1..], j - 1);
      assert snaps[1..][j - 1] == snaps[j];
    }
  }

  /** The clicks the polls of the given snapshots perform, in order. */
  function Clicks(css: Selectors, snaps: seq<Snapshot>): seq<Element>
    decreases |snaps|
  {
    if snaps == [] then [] else ExpansionClicks(css, snaps[0]) + Clicks(css, snaps[1..])
  }

  /** One more poll adds its clicks at the end. */
  lemma {:induction false} ClicksSnoc(css: Selectors, snaps: seq<Snapshot>, j: nat)
    requires j < |snaps|
    ensures Clicks(css, snaps[..j + 1]) == Clicks(css, snaps[..j]) + ExpansionClicks(css, snaps[j])
    decreases j
  {
    if j == 0 {
      assert snaps[..1] == [snaps[0]];
      assert snaps[..1][1..] == [];
    } else {
      ClicksSnoc(css, snaps[1..], j - 1);
      assert snaps[..j + 1][1..] == snaps[1..][..j];
      assert snaps[..j][1..] == snaps[1..][..j - 1];
      assert snaps[1..][j - 1] == snaps[j];
    }
  }

  /** A wait whose first `k` polls leave the record incomplete either
      stops at poll `k + 1` when that one completes it, or, when there are
      no more polls, times out with the last record of the trace. */
  lemma {:induction false} AwaitByTrace(css: Selectors, d: BusinessData, snaps: seq<Snapshot>, k: nat)
    requires k <= |snaps|
    requires forall j :: 0 < j <= k ==> !Complete(Trace(css, d, snaps)[j])
    ensures k < |snaps| && Complete(Trace(css, d, snaps)[k + 1]) ==>
      Await(css, d, snaps) == PollRun(Trace(css, d, snaps)[k + 1], true, k, Clicks(css, snaps[..k + 1]))
    ensures k == |snaps| ==>
      Await(css, d, snaps) == PollRun(Trace(css, d, snaps)[k], false, k, Clicks(css, snaps))
    decreases k
  {
    var tr := Trace(css, d, snaps);
    if snaps != [] {
      var next := PollStep(css, d, snaps[0]);
      var rest := Trace(css, next, snaps[1..]);
      assert tr == [d] + rest;
      if k == 0 {
        assert snaps[..1] == [snaps[0]];
        assert snaps[..1][1..] == [];
      } else {
        assert !Complete(tr[1]);
        forall j | 0 < j <= k - 1
          ensures !Complete(rest[j])
        {
          assert rest[j] == tr[j + 1];
        }
        AwaitByTrace(css, next, snaps[1..], k - 1);
        if k < |snaps| {
          assert snaps[..k + 1][1..] == snaps[1..][..k];
        }
      }
    }
  }

  /** The polling loop of a wait over the window `w`, the driver showing
      the first snapshot of the window now; `tr` is the trace of the record
      over the window.  The loop stops once a poll completes the record;
      `k` is the number of pauses it made. */
  method PollWindow(driver: Driver, condition: BusinessElements, ghost w: seq<Snapshot>, ghost tr: seq<BusinessData>, n: nat)
    returns (done: bool, ghost k: nat)
    requires |w| == n && |tr| == n + 1 && tr[0] == condition.data
    requires forall j :: 0 <= j < n ==> tr[j + 1] == PollStep(condition.css, tr[j], w[j])
    requires forall j :: 0 <= j < n ==> w[j] == driver.render(driver.location, driver.clock + j)
    modifies condition, driver`clicks, driver`clock
    ensures k <= n && driver.clock == old(driver.clock) + k
    ensures forall j :: 0 < j <= k ==> !Complete(tr[j])
    ensures done ==> k < n && Complete(tr[k + 1]) && condition.data == tr[k + 1]
                     && driver.clicks == old(driver.clicks) + Clicks(condition.css, w[..k + 1])
    ensures !done ==> k == n && condition.data == tr[n] && driver.clicks == old(driver.clicks) + Clicks(condition.css, w)
  {
    ghost var page := driver.location;
    ghost var t0 := driver.clock;
    ghost var c0 := driver.clicks;
    k := 0;
    var i := 0;
    while i < n
      invariant i == k <= n
      invariant driver.location == page && driver.clock == t0 + i
      invariant condition.data == tr[i]
      invariant driver.clicks == c0 + Clicks(condition.css, w[..i])
      invariant forall j :: 0 < j <= i ==> !Complete(tr[j])
    {
      assert w[i] == driver.Page();
      ClicksSnoc(condition.css, w, i);
      done := condition.Call(driver);
      if done {
        return;
      }
      driver.Sleep();
      i := i + 1;
      k := i;
    }
    assert w[..n] == w;
    done := false;
  }

  /** `WebDriverWait(driver, timeout).until(condition)` for the business
      condition: polls the page until the record is complete or the polls
      allowed by the timeout are used up.  A `TimeoutException` is simply
      `done` being false; the record keeps what was gathered. */
  method UntilBusinessElements(driver: Driver, timeout: nat, condition: BusinessElements) returns (done: bool)
    modifies condition, driver`clicks, driver`clock
    ensures var run := Await(condition.css, old(condition.data),
                             Window(driver.render, driver.location, old(driver.clock), driver.polls(timeout)));
      && condition.data == run.data
      && done == run.done
      && driver.clock == old(driver.clock) + run.sleeps
      && driver.clicks == old(driver.clicks) + run.clicks
  {
    var n := driver.polls(timeout);
    ghost var w := Window(driver.render, driver.location, driver.clock, n);
    ghost var d0 := condition.data;
    ghost var tr := Trace(condition.css, d0, w);
    forall j | 0 <= j < n
      ensures tr[j + 1] == PollStep(condition.css, tr[j], w[j])
    {
      TraceStep(condition.css, d0, w, j);
    }
    ghost var k;
    done, k := PollWindow(driver, condition, w, tr, n);
    AwaitByTrace(condition.css, d0, w, k);
  }

  /** `WebDriverWait(driver, timeout).until(get_branch_url())`: the first
      truthy URL, or `None` on `TimeoutException`. */
  method UntilBranchUrl(driver: Driver, css: Selectors, timeout: nat) returns (url: Option<string>)
    modifies driver`clock
    ensures var run := AwaitBranch(css, Window(driver.render, driver.location, old(driver.clock), driver.polls(timeout)));
      url == run.url && driver.clock == old(driver.clock) + run.sleeps
  {
    var n := driver.polls(timeout);
    ghost var w := Window(driver.render, driver.location, driver.clock, n);
    ghost var t0 := driver.clock;
    var k := 0;
    while k < n
      invariant 0 <= k <= n
      invariant driver.clock == t0 + k
      invariant var inner := AwaitBranch(css, w[k..]);
        AwaitBranch(css, w) == BranchRun(inner.url, inner.sleeps + k)
    {
      assert w[k..][0] == driver.Page() && w[k..][1..] == w[k + 1..];
      var found := BranchTarget(GetBranchUrl(css, driver.Page()));
      if found.Some? {
        return found;
      }
      driver.Sleep();
      k := k + 1;
    }
    url := None;
  }

  // ---------------------------------------------------------------------
  // `GoogleMapsBusinessCrawler`

  /** What `get_business` returns when something was found: the `data`
      dict together with its `"map"` entry, the decoded address of the page
      it was read from. */
  datatype Business = Business(data: BusinessData, mapUrl: string)

  /** `BASE_URL + " ".join(search_keywords)`. */
  function SearchUrl(keywords: seq<string>): string {
    BaseUrl + Join(keywords, " ")
  }

  /** The course of one `get_business` call: its result, the URLs it
      navigated to, where the driver is left, the polls elapsed since the
      last navigation and the elements clicked. */
  datatype Visit = Visit(result: Option<Business>, navigations: seq<string>, location: string, clock: nat, clicks: seq<Element>)

  /** `get_business` as a function of the pages the browser shows: a one-
      second branch wait on the search page; when it yields a URL, a
      navigation there; then the business wait on the page the driver is
      on, which for the search page continues where the branch wait
      stopped. */
  function Lookup(css: Selectors, render: (string, nat) -> Snapshot, polls: nat -> PollCount,
                  unquote: string -> string, keywords: seq<string>): Visit
  {
    var search := SearchUrl(keywords);
    var branch := AwaitBranch(css, Window(render, search, 0, polls(1)));
    if branch.url.Some? then
      ReadPlace(css, render, polls, unquote, [search, branch.url.value], branch.url.value, 0)
    else
      ReadPlace(css, render, polls, unquote, [search], search, branch.sleeps)
  }

  /** The end of `get_business` on the page loaded from `place`, `start`
      polls after loading it: a two-second business wait from an empty
      record, whose record is returned with the decoded current URL when any
      of its values is truthy. */
  function ReadPlace(css: Selectors, render: (string, nat) -> Snapshot, polls: nat -> PollCount,
                     unquote: string -> string, navigations: seq<string>, place: string, start: nat): Visit
  {
    var run := Await(css, InitialData(), Window(render, place, start, polls(2)));
    var clock := start + run.sleeps;
    Visit(if AnyTruthy(run.data) then Some(Business(run.data, unquote(render(place, clock).url))) else None,
          navigations, place, clock, run.clicks)
  }

  /** The crawler loads the search URL first; it navigates a second time
      exactly when some poll of the branch wait offers a truthy `href`, and
      then to the first such `href`. */
  lemma LookupNavigations(css: Selectors, render: (string, nat) -> Snapshot, polls: nat -> PollCount,
                          unquote: string -> string, keywords: seq<string>)
    ensures var v := Lookup(css, render, polls, unquote, keywords);
      && 1 <= |v.navigations| <= 2
      && v.navigations[0] == SearchUrl(keywords)
      && v.location == v.navigations[|v.navigations| - 1]
      && (|v.navigations| == 2 <==>
            exists j :: 0 <= j < polls(1) && BranchTarget(GetBranchUrl(css, render(SearchUrl(keywords), j))).Some?)
      && (|v.navigations| == 2 ==>
            exists j :: 0 <= j < polls(1)
              && BranchTarget(GetBranchUrl(css, render(SearchUrl(keywords), j))) == Some(v.navigations[1])
              && forall i :: 0 <= i < j ==> BranchTarget(GetBranchUrl(css, render(SearchUrl(keywords), i))).None?)
  {
    var w := Window(render, SearchUrl(keywords), 0, polls(1));
    AwaitBranchFirst(css, w);
    var branch := AwaitBranch(css, w);
    if branch.url.Some? {
      var j := branch.sleeps;
      assert w[j] == render(SearchUrl(keywords), j);
      forall i | 0 <= i < j
        ensures BranchTarget(GetBranchUrl(css, render(SearchUrl(keywords), i))).None?
      {
        assert w[i] == render(SearchUrl(keywords), i);
      }
    } else {
      forall j | 0 <= j < polls(1)
        ensures BranchTarget(GetBranchUrl(css, render(SearchUrl(keywords), j))).None?
      {
        assert w[j] == render(SearchUrl(keywords), j);
      }
    }
  }

  /** Something is returned only when some value of the record is truthy,
      every field the returned record holds is what the page offered for it
      at one of the polls of the business wait. */
  lemma ReadPlaceFromPage(css: Selectors, render: (string, nat) -> Snapshot, polls: nat -> PollCount,
                          unquote: string -> string, navigations: seq<string>, place: string, start: nat, f: Field)
    ensures var v := ReadPlace(css, render, polls, unquote, navigations, place, start);
      && (v.result.Some? ==> AnyTruthy(v.result.value.data))
      && (v.result.Some? && v.result.value.data.Get(f).Some? ==>
            exists t :: start <= t <= v.clock && Located(css, f, render(place, t)) == v.result.value.data.Get(f))
  {
    var w := Window(render, place, start, polls(2));
    var run := Await(css, InitialData(), w);
    if AnyTruthy(run.data) && run.data.Get(f).Some? {
      InitialDataIsEmpty();
      AwaitFieldFromPoll(css, InitialData(), w, f);
      var k :| 0 <= k < |w| && k <= run.sleeps && Located(css, f, w[k]) == run.data.Get(f);
      assert w[k] == render(place, start + k);
      var v := ReadPlace(css, render, polls, unquote, navigations, place, start);
      assert v.clock == start + run.sleeps && v.result.value.data == run.data;
      assert start <= start + k <= v.clock && Located(css, f, render(place, start + k)) == v.result.value.data.Get(f);
    }
  }

  /** The same for the whole of `get_business`: the fields come from polls
      of the page the crawler ends on. */
  lemma LookupResultFromPage(css: Selectors, render: (string, nat) -> Snapshot, polls: nat -> PollCount,
                             unquote: string -> string, keywords: seq<string>, f: Field)
    ensures var v := Lookup(css, render, polls, unquote, keywords);
      && (v.result.Some? ==> AnyTruthy(v.result.value.data))
      && (v.result.Some? && v.result.value.data.Get(f).Some? ==>
            exists t :: 0 <= t <= v.clock && Located(css, f, render(v.location, t)) == v.result.value.data.Get(f))
  {
    var search := SearchUrl(keywords);
    var branch := AwaitBranch(css, Window(render, search, 0, polls(1)));
    if branch.url.Some? {
      ReadPlaceFromPage(css, render, polls, unquote, [search, branch.url.value], branch.url.value, 0, f);
    } else {
      ReadPlaceFromPage(css, render, polls, unquote, [search], search, branch.sleeps, f);
    }
  }

  /** The opening hours of a returned record never hold a label twice. */
  lemma LookupHoursDistinct(css: Selectors, render: (string, nat) -> Snapshot, polls: nat -> PollCount,
                            unquote: string -> string, keywords: seq<string>)
    ensures var v := Lookup(css, render, polls, unquote, keywords);
      v.result.Some? ==> DistinctKeys(v.result.value.data.openingHours)
  {
    var search := SearchUrl(keywords);
    var branch := AwaitBranch(css, Window(render, search, 0, polls(1)));
    if branch.url.Some? {
      AwaitDistinctHours(css, InitialData(), Window(render, branch.url.value, 0, polls(2)));
    } else {
      AwaitDistinctHours(css, InitialData(), Window(render, search, branch.sleeps, polls(2)));
    }
  }

  /** A wait keeps the labels of the opening hours distinct. */
  lemma {:induction false} AwaitDistinctHours(css: Selectors, d: BusinessData, snaps: seq<Snapshot>)
    requires DistinctKeys(d.openingHours)
    ensures DistinctKeys(Await(css, d, snaps).data.openingHours)
    decreases |snaps|
  {
    if snaps != [] {
      PollStepNewHours(css, d, snaps[0]);
      AwaitDistinctHours(css, PollStep(css, d, snaps[0]), snaps[1..]);
    }
  }

  /** On a page that matches nothing, a poll leaves the record as it is
      and clicks nothing. */
  lemma BlankPoll(css: Selectors, d: BusinessData, s: Snapshot)
    requires s.matches == map[]
    ensures PollStep(css, d, s) == d && ExpansionClicks(css, s) == []
  {
    forall f ensures PollStep(css, d, s).Get(f) == d.Get(f) {
      PollStepGet(css, d, s, f);
    }
    PollStepHours(css, d, s);
    SameRecord(PollStep(css, d, s), d);
  }

  /** When no page the browser shows matches any selector, the crawler
      stays on the search page and returns `False` after using up every
      poll of both waits. */
  lemma LookupBlank(css: Selectors, render: (string, nat) -> Snapshot, polls: nat -> PollCount,
                    unquote: string -> string, keywords: seq<string>)
    requires forall u, t :: render(u, t).matches == map[]
    ensures var v := Lookup(css, render, polls, unquote, keywords);
      && v.result == None
      && v.navigations == [SearchUrl(keywords)]
      && v.clock == polls(1) + polls(2)
      && v.clicks == []
  {
    var search := SearchUrl(keywords);
    var w1 := Window(render, search, 0, polls(1));
    forall j | 0 <= j < |w1|
      ensures BranchTarget(GetBranchUrl(css, w1[j])).None?
    {
      assert w1[j].matches == map[];
    }
    AwaitBranchFirst(css, w1);
    var w2 := Window(render, search, polls(1), polls(2));
    InitialDataIsEmpty();
    forall k | 0 <= k < |w2|
      ensures PollStep(css, InitialData(), w2[k]) == InitialData() && ExpansionClicks(css, w2[k]) == []
    {
      BlankPoll(css, InitialData(), w2[k]);
    }
    AwaitStable(css, InitialData(), w2);
  }

  /** `GoogleMapsBusinessCrawler`: a driver, and the URL decoding of
      `urllib.parse.unquote`, which is not modelled and left a parameter. */
  class BusinessCrawler {
    const driver: Driver
    const unquote: string -> string
    const css: Selectors

    constructor (driver: Driver, unquote: string -> string)
      ensures this.driver == driver && this.unquote == unquote && css == Css
    {
      this.driver := driver;
      this.unquote := unquote;
      css := Css;
    }

    /** `__fully_matched_case(timeout)`: a business wait from an empty
        record; the record when any of its values is truthy, `False`
        otherwise. */
    method FullyMatchedCase(timeout: nat) returns (data: Option<BusinessData>)
      modifies driver`clicks, driver`clock
      ensures var run := Await(css, InitialData(), Window(driver.render, driver.location, old(driver.clock), driver.polls(timeout)));
        && data == (if AnyTruthy(run.data) then Some(run.data) else None)
        && driver.clock == old(driver.clock) + run.sleeps
        && driver.clicks == old(driver.clicks) + run.clicks
    {
      var condition := new BusinessElements(InitialData(), css);
      var _ := UntilBusinessElements(driver, timeout, condition);
      data := if AnyTruthy(condition.data) then Some(condition.data) else None;
    }

    /** `__partially_matched_case(timeout)`: the branch wait. */
    method PartiallyMatchedCase(timeout: nat) returns (url: Option<string>)
      modifies driver`clock
      ensures var run := AwaitBranch(css, Window(driver.render, driver.location, old(driver.clock), driver.polls(timeout)));
        url == run.url && driver.clock == old(driver.clock) + run.sleeps
    {
      url := UntilBranchUrl(driver, css, timeout);
    }

    /** `get_business(search_keywords)`. */
    method GetBusiness(keywords: seq<string>) returns (result: Option<Business>)
      modifies driver`location, driver`clock, driver`history, driver`clicks
      ensures var v := Lookup(css, driver.render, driver.polls, unquote, keywords);
        && result == v.result
        && driver.history == old(driver.history) + v.navigations
        && driver.location == v.location && driver.clock == v.clock
        && driver.clicks == old(driver.clicks) + v.clicks
    {
      driver.Get(BaseUrl + Join(keywords, " "));
      var url := PartiallyMatchedCase(1);
      ghost var navigations := [driver.location];
      if url.Some? {
        driver.Get(url.value);
        navigations := navigations + [url.value];
      }
      result := FinishLookup(navigations);
    }

    /** The last part of `get_business`: the business wait on the page the
        driver shows and the result it leads to. */
    method FinishLookup(ghost navigations: seq<string>) returns (result: Option<Business>)
      modifies driver`clock, driver`clicks
      ensures var v := ReadPlace(css, driver.render, driver.polls, unquote, navigations, driver.location, old(driver.clock));
        && result == v.result && driver.clock == v.clock
        && driver.clicks == old(driver.clicks) + v.clicks
    {
      var data := FullyMatchedCase(2);
      if data.Some? {
        result := Some(Business(data.value, unquote(driver.CurrentUrl())));
      } else {
        result := None;
      }
    }
  }
}
