/** The field normaliser of the pipeline: the projection of each crawled
    record onto the stored fields, and `parse_business_data`, which cleans
    the review count and the website and turns the opening hours into a
    weekday-numbered schedule of open/close pairs. */
module Normalizer {
  import opened Builtins
  import opened Browser
  import GoogleMapsV2

  // ---------------------------------------------------------------------
  // The values of a row

  /** A segment of a day's opening hours: an open/close pair, or the
      segment text itself when it cannot be read as one. */
  datatype Period = Span(open: string, close: string) | Raw(text: string)

  /** The values a row holds: `None`, a string, the attraction id, the raw
      opening hours (label to duration text, insertion ordered) or the
      parsed schedule (day number to periods, insertion ordered). */
  datatype Value =
    | Null
    | Text(s: string)
    | Number(n: int)
    | RawHours(hours: seq<(string, string)>)
    | Schedule(days: seq<(string, seq<Period>)>)

  /** Python truthiness of a value. */
  predicate Truthy(v: Value) {
    match v
    case Null => false
    case Text(s) => s != ""
    case Number(n) => n != 0
    case RawHours(h) => h != []
    case Schedule(d) => d != []
  }

  /** The keys of a row dict: the attraction id, the fields of a crawled
      record and its `"map"` entry, and any other key. */
  datatype Column =
    | Id | Name | Rating | TotalReviews | PlaceType | Address | Website | PhoneNumber | OpeningHours | Map
    | Other(key: string)

  /** The exceptions the normaliser can raise: `KeyError` for a missing
      column of the row and for an unknown weekday label, `TypeError` and
      `AttributeError`. */
  datatype PyError = MissingKey(column: Column) | KeyError(key: string) | TypeError | AttributeError

  // ---------------------------------------------------------------------
  // multiple_replace

  /** The replacement of the first entry whose key is `c`. */
  function ReplacementFor(rep: seq<(char, string)>, c: char): (r: Option<string>)
    ensures r.None? <==> forall i :: 0 <= i < |rep| ==> rep[i].0 != c
  {
    if rep == [] then None
    else if rep[0].0 == c then Some(rep[0].1)
    else ReplacementFor(rep[1..], c)
  }

  /** Every character that is a key is replaced by its value. */
  function ReplaceChars(text: string, rep: seq<(char, string)>): string
    decreases |text|
  {
    if text == [] then []
    else
      (match ReplacementFor(rep, text[0])
       case Some(v) => v
       case None => [text[0]])
      + ReplaceChars(text[1..], rep)
  }

  /** `multiple_replace(text, replace_dict)` for one-character keys: the
      alternation of the escaped keys matched left to right.  With no keys
      the pattern is empty, matches at the start, and the lookup of its
      match in the empty dict raises `KeyError`. */
  function MultipleReplace(text: string, rep: seq<(char, string)>): (r: Result<string, PyError>)
    ensures r.Err? <==> rep == []
    ensures rep != [] && (forall i :: 0 <= i < |rep| ==> rep[i].1 == "") ==> r == Ok(Without(text, KeySet(rep)))
  {
    if rep == [] then Err(KeyError(""))
    else
      assert (forall i :: 0 <= i < |rep| ==> rep[i].1 == "") ==> ReplaceChars(text, rep) == Without(text, KeySet(rep)) by {
        if forall i :: 0 <= i < |rep| ==> rep[i].1 == "" {
          ReplaceDeletes(text, rep);
        }
      }
      Ok(ReplaceChars(text, rep))
  }

  /** The characters of `s` outside `cs`, in their order. */
  function Without(s: string, cs: set<char>): (r: string)
    ensures |r| <= |s|
    decreases |s|
  {
    if s == [] then []
    else if s[0] in cs then Without(s[1..], cs)
    else [s[0]] + Without(s[1..], cs)
  }

  /** The keys of a replacement table. */
  function KeySet(rep: seq<(char, string)>): set<char> {
    set i | 0 <= i < |rep| :: rep[i].0
  }

  /** A table whose every value is `""` deletes its keys and keeps
      everything else in order. */
  lemma {:induction false} ReplaceDeletes(text: string, rep: seq<(char, string)>)
    requires forall i :: 0 <= i < |rep| ==> rep[i].1 == ""
    ensures ReplaceChars(text, rep) == Without(text, KeySet(rep))
    decreases |text|
  {
    if text != [] {
      ReplaceDeletes(text[1..], rep);
      var c := text[0];
      if c in KeySet(rep) {
        var i :| 0 <= i < |rep| && rep[i].0 == c;
        assert ReplacementFor(rep, c).Some?;
        ReplacementValue(rep, c);
      }
    }
  }

  /** A replacement found in a table is one of its values. */
  lemma {:induction false} ReplacementValue(rep: seq<(char, string)>, c: char)
    requires ReplacementFor(rep, c).Some?
    ensures exists i :: 0 <= i < |rep| && rep[i] == (c, ReplacementFor(rep, c).value)
  {
    if rep[0].0 != c {
      ReplacementValue(rep[1..], c);
      var i :| 0 <= i < |rep[1..]| && rep[1..][i] == (c, ReplacementFor(rep[1..], c).value);
      assert rep[i + 1] == rep[1..][i];
    }
  }

  /** After the deletion no character of `cs` is left, every other
      character is, and the deletion changes nothing once done. */
  lemma {:induction false} WithoutMeans(s: string, cs: set<char>)
    ensures forall c :: c in Without(s, cs) <==> c in s && c !in cs
    ensures Without(Without(s, cs), cs) == Without(s, cs)
    decreases |s|
  {
    if s != [] {
      WithoutMeans(s[1..], cs);
      assert forall c :: c in s <==> c == s[0] || c in s[1..];
    }
  }

  // ---------------------------------------------------------------------
  // total_reviews and website

  /** `{"(": "", ")": "", ",": ""}`. */
  const ReviewRemovals: seq<(char, string)> := [('(', ""), (')', ""), (',', "")]

  /** The review count with its brackets and thousands separators
      removed. */
  function CleanReviews(s: string): (r: string)
    ensures r == Without(s, {'(', ')', ','})
  {
    var rep := ReviewRemovals;
    ReplaceDeletes(s, rep);
    assert KeySet(rep) == {'(', ')', ','} by {
      assert rep[0].0 == '(' && rep[1].0 == ')' && rep[2].0 == ',';
    }
    MultipleReplace(s, rep).value
  }

  /** Cleaning the review count removes exactly the brackets and commas and
      is idempotent. */
  lemma CleanReviewsMeans(s: string)
    ensures forall c :: c in CleanReviews(s) <==> c in s && c !in {'(', ')', ','}
    ensures CleanReviews(CleanReviews(s)) == CleanReviews(s)
  {
    WithoutMeans(s, {'(', ')', ','});
  }

  /** The review count of the sample record. */
  lemma CleanReviewsExample()
    ensures CleanReviews("(306)") == "306"
  {
    var cs := {'(', ')', ','};
    assert Without(")", cs) == "";
    assert Without("6)", cs) == "6";
    assert Without("06)", cs) == "06";
    assert Without("306)", cs) == "306";
    assert Without("(306)", cs) == "306";
  }

  /** `website.split(":")[-1].strip()`. */
  function CleanWebsite(s: string): (r: string)
    ensures ':' !in r
  {
    var parts := Split(s, ':');
    var r := Strip(parts[|parts| - 1]);
    SplitAvoidsSep(s, ':');
    StripKeepsAbsence(parts[|parts| - 1], ':');
    r
  }

  /** A character absent from a string is absent from its stripped form. */
  lemma StripKeepsAbsence(s: string, c: char)
    requires c !in s
    ensures c !in Strip(s)
  {
    var k := StripEnds(s);
    assert Strip(s) == s[k..k + |Strip(s)|];
  }

  /** A string without the separator is one piece. */
  lemma {:induction false} SplitNoSeparator(s: string, sep: char)
    requires sep !in s
    ensures Split(s, sep) == [s]
    decreases |s|
  {
    if s != [] {
      SplitNoSeparator(s[1..], sep);
      assert [s[0]] + s[1..] == s;
    }
  }

  /** The cleaned website is the text after the last `:`, trimmed, and
      cleaning it again changes nothing. */
  lemma CleanWebsiteMeans(s: string)
    ensures exists k :: 0 <= k <= |s| && (k == 0 || s[k - 1] == ':') && ':' !in s[k..]
                        && CleanWebsite(s) == Strip(s[k..])
    ensures CleanWebsite(CleanWebsite(s)) == CleanWebsite(s)
  {
    var k := LastPieceIsSuffix(s, ':');
    var t := CleanWebsite(s);
    SplitNoSeparator(t, ':');
    StripIdempotent(Split(s, ':')[|Split(s, ':')| - 1]);
  }

  /** The text before the first separator is the first piece. */
  lemma {:induction false} SplitAtFirst(a: string, b: string, sep: char)
    requires sep !in a
    ensures Split(a + [sep] + b, sep) == [a] + Split(b, sep)
    decreases |a|
  {
    if a == [] {
      assert a + [sep] + b == [sep] + b;
      assert ([sep] + b)[1..] == b;
    } else {
      SplitAtFirst(a[1..], b, sep);
      assert (a + [sep] + b)[1..] == a[1..] + [sep] + b;
      assert [a[0]] + a[1..] == a;
    }
  }

  /** Stripping one space off each end of a string that has no whitespace
      at its ends gives the string back. */
  lemma StripPadded(site: string)
    requires site == [] || (!IsSpace(site[0]) && !IsSpace(site[|site| - 1]))
    ensures Strip(" " + site + " ") == site
  {
    var t := " " + site + " ";
    assert t[1..] == site + " ";
    assert StripLeft(t) == StripLeft(site + " ");
    if site == [] {
      assert StripLeft(" ") == StripLeft(" "[1..]);
    } else {
      assert (site + " ")[0] == site[0];
      assert (site + " ")[..|site|] == site;
    }
  }

  /** A website shown as `name: site ` is cleaned to `site`, when neither
      part has a `:` and `site` has no whitespace at its ends. */
  lemma CleanWebsiteLabelled(name: string, site: string)
    requires ':' !in name && ':' !in site
    requires site == [] || (!IsSpace(site[0]) && !IsSpace(site[|site| - 1]))
    ensures CleanWebsite(name + ": " + site + " ") == site
  {
    var t := " " + site + " ";
    assert name + ": " + site + " " == name + [':'] + t;
    SplitAtFirst(name, t, ':');
    SplitNoSeparator(t, ':');
    StripPadded(site);
  }

  /** The website of the sample record. */
  lemma CleanWebsiteExample()
    ensures CleanWebsite("網站: hunya.com.tw ") == "hunya.com.tw"
  {
    assert "網站: hunya.com.tw " == "網站" + ": " + "hunya.com.tw" + " ";
    CleanWebsiteLabelled("網站", "hunya.com.tw");
  }

  // ---------------------------------------------------------------------
  // re.findall(r"\d{2}:\d{2}", s)

  predicate IsDigit(c: char) {
    '0' <= c <= '9'
  }

  /** The pattern matches at index `i`. */
  predicate TimeAt(s: string, i: nat) {
    i + 5 <= |s| && IsDigit(s[i]) && IsDigit(s[i + 1]) && s[i + 2] == ':' && IsDigit(s[i + 3]) && IsDigit(s[i + 4])
  }

  /** A five-character `DD:DD` text. */
  predicate IsTime(t: string) {
    TimeAt(t, 0) && |t| == 5
  }

  /** The scan from index `i`: at a match, take it and continue after it;
      otherwise move one character on. */
  function FindTimesFrom(s: string, i: nat): seq<string>
    requires i <= |s|
    decreases |s| - i
  {
    if i + 5 > |s| then []
    else if TimeAt(s, i) then [s[i..i + 5]] + FindTimesFrom(s, i + 5)
    else FindTimesFrom(s, i + 1)
  }

  /** Every match is a `DD:DD` text. */
  lemma {:induction false} FindTimesAreTimes(s: string, i: nat)
    requires i <= |s|
    ensures forall j :: 0 <= j < |FindTimesFrom(s, i)| ==> IsTime(FindTimesFrom(s, i)[j])
    decreases |s| - i
  {
    if i + 5 <= |s| {
      if TimeAt(s, i) {
        FindTimesAreTimes(s, i + 5);
        var t := s[i..i + 5];
        assert t[0] == s[i] && t[1] == s[i + 1] && t[2] == s[i + 2] && t[3] == s[i + 3] && t[4] == s[i + 4];
      } else {
        FindTimesAreTimes(s, i + 1);
      }
    }
  }

  /** `re.findall(r"\d{2}:\d{2}", s)`, with `\d` the ASCII digits. */
  function FindTimes(s: string): seq<string> {
    FindTimesFrom(s, 0)
  }

  /** The matches occur in `s`, in order and without overlapping: the
      `j`-th one starts at or after the end of the one before; and every
      `DD:DD` occurrence from `i` on lies within one of them. */
  lemma {:induction false} FindTimesPositions(s: string, i: nat) returns (at: seq<nat>)
    requires i <= |s|
    ensures |at| == |FindTimesFrom(s, i)|
    ensures forall j :: 0 <= j < |at| ==> i <= at[j] && at[j] + 5 <= |s| && s[at[j]..at[j] + 5] == FindTimesFrom(s, i)[j]
    ensures forall j :: 0 < j < |at| ==> at[j - 1] + 5 <= at[j]
    ensures forall p :: i <= p && TimeAt(s, p) ==> exists j :: 0 <= j < |at| && at[j] <= p < at[j] + 5
    decreases |s| - i
  {
    if i + 5 > |s| {
      at := [];
    } else if TimeAt(s, i) {
      var rest := FindTimesPositions(s, i + 5);
      at := PositionsAfterMatch(s, i, rest);
    } else {
      at := FindTimesPositions(s, i + 1);
      assert FindTimesFrom(s, i) == FindTimesFrom(s, i + 1);
    }
  }

  /** The step of the scan that takes a match at `i`: its position goes in
      front of the positions found after it. */
  lemma PositionsAfterMatch(s: string, i: nat, rest: seq<nat>) returns (at: seq<nat>)
    requires i + 5 <= |s| && TimeAt(s, i)
    requires |rest| == |FindTimesFrom(s, i + 5)|
    requires forall j :: 0 <= j < |rest| ==> i + 5 <= rest[j] && rest[j] + 5 <= |s| && s[rest[j]..rest[j] + 5] == FindTimesFrom(s, i + 5)[j]
    requires forall j :: 0 < j < |rest| ==> rest[j - 1] + 5 <= rest[j]
    requires forall p :: i + 5 <= p && TimeAt(s, p) ==> exists j :: 0 <= j < |rest| && rest[j] <= p < rest[j] + 5
    ensures |at| == |FindTimesFrom(s, i)|
    ensures forall j :: 0 <= j < |at| ==> i <= at[j] && at[j] + 5 <= |s| && s[at[j]..at[j] + 5] == FindTimesFrom(s, i)[j]
    ensures forall j :: 0 < j < |at| ==> at[j - 1] + 5 <= at[j]
    ensures forall p :: i <= p && TimeAt(s, p) ==> exists j :: 0 <= j < |at| && at[j] <= p < at[j] + 5
  {
    var m := FindTimesFrom(s, i + 5);
    assert FindTimesFrom(s, i) == [s[i..i + 5]] + m;
    at := [i] + rest;
    forall j | 0 < j < |at| ensures at[j] == rest[j - 1] && FindTimesFrom(s, i)[j] == m[j - 1] { }
    CoverAfterMatch(s, i, rest);
  }

  /** A match taken at `i` covers every occurrence that starts inside it,
      and the positions found after it cover the rest. */
  lemma CoverAfterMatch(s: string, i: nat, rest: seq<nat>)
    requires forall p :: i + 5 <= p && TimeAt(s, p) ==> exists j :: 0 <= j < |rest| && rest[j] <= p < rest[j] + 5
    ensures forall p :: i <= p && TimeAt(s, p) ==> exists j :: 0 <= j < |[i] + rest| && ([i] + rest)[j] <= p < ([i] + rest)[j] + 5
  {
    var at := [i] + rest;
    forall p | i <= p && TimeAt(s, p) ensures exists j :: 0 <= j < |at| && at[j] <= p < at[j] + 5 {
      if p < i + 5 {
        assert at[0] <= p < at[0] + 5;
      } else {
        var j :| 0 <= j < |rest| && rest[j] <= p < rest[j] + 5;
        assert at[j + 1] == rest[j];
      }
    }
  }

  /** A text with no `:` has no match. */
  lemma {:induction false} NoColonNoTimes(s: string, i: nat)
    requires i <= |s| && ':' !in s
    ensures FindTimesFrom(s, i) == []
    decreases |s| - i
  {
    if i + 5 <= |s| {
      assert s[i + 2] in s;
      NoColonNoTimes(s, i + 1);
    }
  }

  // ---------------------------------------------------------------------
  // The opening hours

  /** One stripped segment: two times make an open/close pair; a segment
      naming the round-the-clock opening becomes the whole day; anything
      else is kept as it is. */
  function PeriodOf(p: string): Period {
    var m := FindTimes(p);
    if |m| == 2 then Span(m[0], m[1])
    else if Contains(p, "24") && Contains(p, "小時營業") then Span("00:00", "24:00")
    else Raw(p)
  }

  /** Two matches give the span between them; otherwise the segment is the
      whole day exactly when it names `24` and the round-the-clock opening,
      and is kept as it is exactly when it does neither; a span runs from a
      time to a time or to the end of the day. */
  lemma PeriodOfMeans(p: string)
    ensures |FindTimes(p)| == 2 ==> PeriodOf(p) == Span(FindTimes(p)[0], FindTimes(p)[1])
    ensures |FindTimes(p)| != 2 ==> (PeriodOf(p) == Span("00:00", "24:00") <==> Contains(p, "24") && Contains(p, "小時營業"))
    ensures PeriodOf(p).Raw? <==> |FindTimes(p)| != 2 && !(Contains(p, "24") && Contains(p, "小時營業"))
    ensures PeriodOf(p).Span? ==> IsTime(PeriodOf(p).open) && (IsTime(PeriodOf(p).close) || PeriodOf(p).close == "24:00")
    ensures PeriodOf(p).Raw? ==> PeriodOf(p).text == p
  {
    FindTimesAreTimes(p, 0);
    assert IsTime("00:00");
  }

  /** `[p.strip() for p in parts]`. */
  function StripAll(parts: seq<string>): seq<string>
    decreases |parts|
  {
    if parts == [] then [] else StripAll(parts[..|parts| - 1]) + [Strip(parts[|parts| - 1])]
  }

  /** Piece `i` is stripped into segment `i`. */
  lemma {:induction false} StripAllMeans(parts: seq<string>)
    ensures |StripAll(parts)| == |parts|
    ensures forall i :: 0 <= i < |parts| ==> StripAll(parts)[i] == Strip(parts[i])
    decreases |parts|
  {
    if parts != [] {
      var n := |parts|;
      var front := parts[..n - 1];
      StripAllMeans(front);
      assert StripAll(parts) == StripAll(front) + [Strip(parts[n - 1])];
      forall i | 0 <= i < n - 1 ensures StripAll(parts)[i] == Strip(parts[i]) {
        assert front[i] == parts[i];
        assert StripAll(parts)[i] == StripAll(front)[i];
      }
    }
  }

  /** `[p.strip() for p in v.split("/")]`: a day's segments, stripped. */
  function Segments(v: string): seq<string> {
    StripAll(Split(v, '/'))
  }

  /** The periods of a list of segments, one per segment. */
  function PeriodsOf(ss: seq<string>): seq<Period>
    decreases |ss|
  {
    if ss == [] then [] else PeriodsOf(ss[..|ss| - 1]) + [PeriodOf(ss[|ss| - 1])]
  }

  /** Segment `i` becomes period `i`. */
  lemma {:induction false} PeriodsOfMeans(ss: seq<string>)
    ensures |PeriodsOf(ss)| == |ss|
    ensures forall i :: 0 <= i < |ss| ==> PeriodsOf(ss)[i] == PeriodOf(ss[i])
    decreases |ss|
  {
    if ss != [] {
      var n := |ss|;
      var front := ss[..n - 1];
      PeriodsOfMeans(front);
      assert PeriodsOf(ss) == PeriodsOf(front) + [PeriodOf(ss[n - 1])];
      forall i | 0 <= i < n - 1 ensures PeriodsOf(ss)[i] == PeriodOf(ss[i]) {
        assert front[i] == ss[i];
        assert PeriodsOf(ss)[i] == PeriodsOf(front)[i];
      }
    }
  }

  /** The periods of one day: one per segment. */
  function DayPeriods(v: string): seq<Period> {
    PeriodsOf(Segments(v))
  }

  /** A day has one more period than its text has `/`. */
  lemma DayPeriodsCount(v: string)
    ensures |DayPeriods(v)| == Count(v, '/') + 1
  {
    SplitCount(v, '/');
    StripAllMeans(Split(v, '/'));
    PeriodsOfMeans(Segments(v));
  }

  /** `DAY_MAPPING`. */
  const DayMapping: seq<(string, string)> :=
    [("星期一", "1"), ("星期二", "2"), ("星期三", "3"), ("星期四", "4"), ("星期五", "5"), ("星期六", "6"), ("星期日", "7")]

  /** `DAY_MAPPING[day]`, `None` standing for `KeyError`. */
  function DayNumber(day: string): Option<string> {
    DictLookup(DayMapping, day)
  }

  /** The table is one-to-one, the `i`-th number being the digit `i + 1`. */
  lemma DayMappingDistinct()
    ensures OneToOne(DayMapping)
    ensures forall i :: 0 <= i < |DayMapping| ==> DayMapping[i].1 == [('1' as int + i) as char]
  {
    var m := DayMapping;
    var thirds := "一二三四五六日";
    forall i | 0 <= i < |m| ensures |m[i].0| == 3 && m[i].0[2] == thirds[i] { }
    forall i, j | 0 <= i < j < |m| ensures m[i].0 != m[j].0 {
      assert thirds[i] != thirds[j];
    }
    forall i | 0 <= i < |m| ensures m[i].1 == [('1' as int + i) as char] { }
    forall i, j | 0 <= i < j < |m| ensures m[i].1 != m[j].1 {
      assert m[i].1[0] != m[j].1[0];
    }
  }

  /** A value of the table is one of `"1"` to `"7"`. */
  lemma DayMappingValues(j: int)
    requires 0 <= j < |DayMapping|
    ensures DayMapping[j].1 in {"1", "2", "3", "4", "5", "6", "7"}
  {
  }

  /** Exactly the seven weekday labels of the table have a number; each
      label has the number the table gives it, one of `"1"` to `"7"`; and
      different labels have different numbers. */
  lemma DayNumberTable(a: string, b: string)
    ensures DayNumber(a).Some? <==> a in Keys(DayMapping)
    ensures DayNumber(a).Some? ==> DayNumber(a).value in {"1", "2", "3", "4", "5", "6", "7"}
    ensures forall i :: 0 <= i < |DayMapping| ==> DayNumber(DayMapping[i].0) == Some(DayMapping[i].1)
    ensures DayNumber(a).Some? && DayNumber(a) == DayNumber(b) ==> a == b
  {
    var m := DayMapping;
    DayMappingDistinct();
    DictLookupMeans(m, a);
    DictLookupOneToOne(m, a, b);
    forall i | 0 <= i < |m| ensures DayNumber(m[i].0) == Some(m[i].1) {
      DictLookupMeans(m, m[i].0);
    }
    DictLookupValue(m, a);
    if DayNumber(a).Some? {
      var j :| 0 <= j < |m| && DayNumber(a).value == m[j].1;
      DayMappingValues(j);
    }
  }

  /** The loop over the raw opening hours, looking labels up in `table`:
      each label's periods are stored under its number; an unknown label
      raises `KeyError`. */
  function ScheduleFrom(table: seq<(string, string)>, periodsOf: string -> seq<Period>, hours: seq<(string, string)>)
    : Result<seq<(string, seq<Period>)>, PyError>
    decreases |hours|
  {
    if hours == [] then Ok([])
    else
      var n := |hours|;
      match ScheduleFrom(table, periodsOf, hours[..n - 1])
      case Err(e) => Err(e)
      case Ok(days) =>
        match DictLookup(table, hours[n - 1].0)
        case None => Err(KeyError(hours[n - 1].0))
        case Some(d) => Ok(Put(days, d, periodsOf(hours[n - 1].1)))
  }

  /** The loop over the raw opening hours with `DAY_MAPPING`. */
  function ScheduleOf(hours: seq<(string, string)>): Result<seq<(string, seq<Period>)>, PyError> {
    ScheduleFrom(DayMapping, DayPeriods, hours)
  }

  /** For any table: the schedule fails exactly when some label is not in
      the table, and then with `KeyError` on the first such label. */
  lemma {:induction false} ScheduleFromErr(table: seq<(string, string)>, periodsOf: string -> seq<Period>, hours: seq<(string, string)>)
    ensures ScheduleFrom(table, periodsOf, hours).Err? <==> exists i :: 0 <= i < |hours| && DictLookup(table, hours[i].0).None?
    ensures ScheduleFrom(table, periodsOf, hours).Err? ==>
      exists i :: 0 <= i < |hours| && DictLookup(table, hours[i].0).None? && ScheduleFrom(table, periodsOf, hours).error == KeyError(hours[i].0)
               && forall j :: 0 <= j < i ==> DictLookup(table, hours[j].0).Some?
    decreases |hours|
  {
    if hours != [] {
      var n := |hours|;
      var front := hours[..n - 1];
      ScheduleFromErr(table, periodsOf, front);
      forall i | 0 <= i < n - 1 ensures front[i] == hours[i] { }
      match ScheduleFrom(table, periodsOf, front)
      case Err(e) =>
        var i :| 0 <= i < n - 1 && DictLookup(table, front[i].0).None? && e == KeyError(front[i].0)
                 && forall j :: 0 <= j < i ==> DictLookup(table, front[j].0).Some?;
        assert DictLookup(table, hours[i].0).None?;
      case Ok(days) =>
        assert forall j :: 0 <= j < n - 1 ==> DictLookup(table, hours[j].0).Some?;
        if DictLookup(table, hours[n - 1].0).None? {
          assert ScheduleFrom(table, periodsOf, hours).error == KeyError(hours[n - 1].0);
        }
    }
  }

  /** For a one-to-one table and distinct labels, entry `i` of a
      successful schedule is the number and the periods of entry `i` of
      the raw hours. */
  lemma {:induction false} ScheduleFromOk(table: seq<(string, string)>, periodsOf: string -> seq<Period>, hours: seq<(string, string)>)
    requires OneToOne(table) && DistinctKeys(hours)
    ensures ScheduleFrom(table, periodsOf, hours).Ok? ==>
      var days := ScheduleFrom(table, periodsOf, hours).value;
      && |days| == |hours|
      && forall i :: 0 <= i < |hours| ==>
           DictLookup(table, hours[i].0).Some? && days[i] == (DictLookup(table, hours[i].0).value, periodsOf(hours[i].1))
    decreases |hours|
  {
    if hours != [] {
      var n := |hours|;
      var front := hours[..n - 1];
      assert DistinctKeys(front);
      ScheduleFromOk(table, periodsOf, front);
      var last := hours[n - 1];
      forall i | 0 <= i < n - 1 ensures front[i] == hours[i] { }
      match ScheduleFrom(table, periodsOf, front)
      case Err(e) =>
      case Ok(days) =>
        if DictLookup(table, last.0).Some? {
          var d := DictLookup(table, last.0).value;
          forall i | 0 <= i < |days| ensures days[i].0 != d {
            DictLookupOneToOne(table, hours[i].0, last.0);
            assert hours[i].0 != last.0;
          }
          assert d !in Keys(days);
          PutMeans(days, d, periodsOf(last.1));
          var r := days + [(d, periodsOf(last.1))];
          assert ScheduleFrom(table, periodsOf, hours) == Ok(r);
          forall i | 0 <= i < n
            ensures DictLookup(table, hours[i].0).Some? && r[i] == (DictLookup(table, hours[i].0).value, periodsOf(hours[i].1))
          {
            if i < n - 1 {
              assert r[i] == days[i];
            }
          }
        }
    }
  }

  /** The schedule fails exactly when some label is not a weekday of the
      table, and then with `KeyError` on the first such label; otherwise,
      for labels that are distinct, entry `i` of the schedule is the day
      number and the periods of entry `i` of the raw hours. */
  lemma ScheduleOfMeans(hours: seq<(string, string)>)
    requires DistinctKeys(hours)
    ensures ScheduleOf(hours).Err? <==> exists i :: 0 <= i < |hours| && DayNumber(hours[i].0).None?
    ensures ScheduleOf(hours).Err? ==>
      exists i :: 0 <= i < |hours| && DayNumber(hours[i].0).None? && ScheduleOf(hours).error == KeyError(hours[i].0)
               && forall j :: 0 <= j < i ==> DayNumber(hours[j].0).Some?
    ensures ScheduleOf(hours).Ok? ==>
      var days := ScheduleOf(hours).value;
      && |days| == |hours|
      && (forall i :: 0 <= i < |hours| ==> days[i] == (DayNumber(hours[i].0).value, DayPeriods(hours[i].1)))
      && DistinctKeys(days)
  {
    DayMappingDistinct();
    ScheduleFromErr(DayMapping, DayPeriods, hours);
    ScheduleFromOk(DayMapping, DayPeriods, hours);
    if ScheduleOf(hours).Ok? {
      var days := ScheduleOf(hours).value;
      forall i, j | 0 <= i < j < |days| ensures days[i].0 != days[j].0 {
        DayNumberTable(hours[i].0, hours[j].0);
      }
    }
  }

  /** Once a prefix of the hours fails, the whole loop fails the same
      way: later labels are never looked at. */
  lemma {:induction false} ScheduleErrStays(table: seq<(string, string)>, periodsOf: string -> seq<Period>, hours: seq<(string, string)>, i: nat)
    requires i <= |hours| && ScheduleFrom(table, periodsOf, hours[..i]).Err?
    ensures ScheduleFrom(table, periodsOf, hours) == ScheduleFrom(table, periodsOf, hours[..i])
    decreases |hours|
  {
    if i < |hours| {
      var n := |hours|;
      assert hours[..n - 1][..i] == hours[..i];
      ScheduleErrStays(table, periodsOf, hours[..n - 1], i);
    } else {
      assert hours[..i] == hours;
    }
  }

  /** Every number of a schedule is a value of the table. */
  lemma {:induction false} ScheduleFromDays(table: seq<(string, string)>, periodsOf: string -> seq<Period>, hours: seq<(string, string)>)
    ensures ScheduleFrom(table, periodsOf, hours).Ok? ==>
      forall i :: 0 <= i < |ScheduleFrom(table, periodsOf, hours).value| ==>
        exists j :: 0 <= j < |table| && ScheduleFrom(table, periodsOf, hours).value[i].0 == table[j].1
    decreases |hours|
  {
    if hours != [] {
      var n := |hours|;
      ScheduleFromDays(table, periodsOf, hours[..n - 1]);
      match ScheduleFrom(table, periodsOf, hours[..n - 1])
      case Err(e) =>
      case Ok(days) =>
        DictLookupValue(table, hours[n - 1].0);
        match DictLookup(table, hours[n - 1].0)
        case None =>
        case Some(d) =>
          var r := Put(days, d, periodsOf(hours[n - 1].1));
          forall i | 0 <= i < |r| ensures exists j :: 0 <= j < |table| && r[i].0 == table[j].1 {
            PutKeys(days, d, periodsOf(hours[n - 1].1), i);
          }
    }
  }

  /** Every day number of a schedule is one of `"1"` to `"7"`. */
  lemma ScheduleDays(hours: seq<(string, string)>)
    ensures ScheduleOf(hours).Ok? ==>
      forall i :: 0 <= i < |ScheduleOf(hours).value| ==> ScheduleOf(hours).value[i].0 in {"1", "2", "3", "4", "5", "6", "7"}
  {
    ScheduleFromDays(DayMapping, DayPeriods, hours);
    if ScheduleOf(hours).Ok? {
      var days := ScheduleOf(hours).value;
      forall i | 0 <= i < |days| ensures days[i].0 in {"1", "2", "3", "4", "5", "6", "7"} {
        var j :| 0 <= j < |DayMapping| && days[i].0 == DayMapping[j].1;
        DayMappingValues(j);
      }
    }
  }

  /** Each key of a `Put` result is the new key or an old one. */
  lemma {:induction false} PutKeys<V>(d: seq<(string, V)>, k: string, v: V, i: nat)
    requires i < |Put(d, k, v)|
    ensures Put(d, k, v)[i].0 == k || (i < |d| && Put(d, k, v)[i].0 == d[i].0)
    decreases |d|
  {
    if d != [] && d[0].0 != k && i > 0 {
      PutKeys(d[1..], k, v, i - 1);
    }
  }

  /** A segment `a–b` of two times joined by a non-digit becomes the span
      from `a` to `b`. */
  lemma PeriodOfRange(a: string, dash: char, b: string)
    requires IsTime(a) && IsTime(b) && !IsDigit(dash)
    ensures PeriodOf(a + [dash] + b) == Span(a, b)
  {
    var s := a + [dash] + b;
    assert s[..5] == a && s[6..] == b;
    assert TimeAt(s, 0) && !TimeAt(s, 5) && TimeAt(s, 6);
    assert FindTimesFrom(s, 6) == [s[6..11]] + FindTimesFrom(s, 11);
    assert FindTimesFrom(s, 5) == FindTimesFrom(s, 6);
    assert FindTimes(s) == [s[..5]] + FindTimesFrom(s, 5);
  }

  /** A range of two times has no `/` and nothing to strip. */
  lemma RangeIsSegment(a: string, dash: char, b: string)
    requires IsTime(a) && IsTime(b) && dash != '/'
    ensures '/' !in a + [dash] + b
    ensures Strip(a + [dash] + b) == a + [dash] + b
  {
    var x := a + [dash] + b;
    forall i | 0 <= i < |x| ensures x[i] != '/' {
      if i < 5 { assert x[i] == a[i]; } else if 5 < i { assert x[i] == b[i - 6]; }
    }
    assert x[0] == a[0] && x[10] == b[4];
    assert StripLeft(x) == x;
  }

  /** A day of two ranges separated by `/` has their two spans, in
      order. */
  lemma DayTwoRanges(a1: string, b1: string, a2: string, b2: string, dash: char)
    requires IsTime(a1) && IsTime(b1) && IsTime(a2) && IsTime(b2) && !IsDigit(dash) && dash != '/'
    ensures DayPeriods(a1 + [dash] + b1 + "/" + a2 + [dash] + b2) == [Span(a1, b1), Span(a2, b2)]
  {
    var x := a1 + [dash] + b1;
    var y := a2 + [dash] + b2;
    assert a1 + [dash] + b1 + "/" + a2 + [dash] + b2 == x + ['/'] + y;
    RangeIsSegment(a1, dash, b1);
    RangeIsSegment(a2, dash, b2);
    SplitAtFirst(x, y, '/');
    SplitNoSeparator(y, '/');
    assert Split(x + ['/'] + y, '/') == [x, y];
    assert [x, y][..1] == [x] && [x][..0] == [];
    assert StripAll([x]) == [x];
    assert StripAll([x, y]) == [x, y];
    PeriodOfRange(a1, dash, b1);
    PeriodOfRange(a2, dash, b2);
    assert PeriodsOf([x]) == [Span(a1, b1)];
    assert PeriodsOf([x, y]) == [Span(a1, b1), Span(a2, b2)];
  }

  /** The sample day `09:30–12:30/14:00–17:30` has two spans, in order. */
  lemma DayPeriodsExample()
    ensures DayPeriods("09:30–12:30/14:00–17:30") == [Span("09:30", "12:30"), Span("14:00", "17:30")]
  {
    assert "09:30–12:30/14:00–17:30" == "09:30" + ['–'] + "12:30" + "/" + "14:00" + ['–'] + "17:30";
    DayTwoRanges("09:30", "12:30", "14:00", "17:30", '–');
  }

  /** A rest day is kept as its text. */
  lemma PeriodRawExample()
    ensures PeriodOf("休息") == Raw("休息")
  {
    NoColonNoTimes("休息", 0);
  }

  /** A round-the-clock opening becomes the whole day. */
  lemma PeriodAllDayExample()
    ensures PeriodOf("24 小時營業") == Span("00:00", "24:00")
  {
    NoColonNoTimes("24 小時營業", 0);
    assert "24" <= "24 小時營業";
    assert Contains("24 小時營業"[3..], "小時營業");
  }

  // ---------------------------------------------------------------------
  // parse_business_data

  /** The review-count step: `None` is left alone, a string is cleaned. */
  function ReviewsStep(row: map<Column, Value>): Result<map<Column, Value>, PyError> {
    if TotalReviews !in row then Err(MissingKey(TotalReviews))
    else
      match row[TotalReviews]
      case Null => Ok(row)
      case Text(s) => Ok(row[TotalReviews := Text(CleanReviews(s))])
      case _ => Err(TypeError)
  }

  /** The website step: `None` is left alone, a string is cleaned. */
  function WebsiteStep(row: map<Column, Value>): Result<map<Column, Value>, PyError> {
    if Website !in row then Err(MissingKey(Website))
    else
      match row[Website]
      case Null => Ok(row)
      case Text(s) => Ok(row[Website := Text(CleanWebsite(s))])
      case _ => Err(AttributeError)
  }

  /** The opening-hours step: falsy hours are left alone, raw hours become
      a schedule; anything else truthy has no `.items()` to loop over, and a
      schedule's periods have no `.split()`. */
  function HoursStep(row: map<Column, Value>): Result<map<Column, Value>, PyError> {
    if OpeningHours !in row then Err(MissingKey(OpeningHours))
    else if !Truthy(row[OpeningHours]) then Ok(row)
    else
      match row[OpeningHours]
      case RawHours(h) =>
        (match ScheduleOf(h)
         case Ok(days) => Ok(row[OpeningHours := Schedule(days)])
         case Err(e) => Err(e))
      case _ => Err(AttributeError)
  }

  /** The outcome of `parse_business_data`: the row as the steps that ran
      left it, and the exception that stopped it, if any. */
  datatype Parsed = Parsed(row: map<Column, Value>, error: Option<PyError>)

  function ParseRow(row: map<Column, Value>): Parsed {
    match ReviewsStep(row)
    case Err(e) => Parsed(row, Some(e))
    case Ok(r1) =>
      match WebsiteStep(r1)
      case Err(e) => Parsed(r1, Some(e))
      case Ok(r2) =>
        match HoursStep(r2)
        case Err(e) => Parsed(r2, Some(e))
        case Ok(r3) => Parsed(r3, None)
  }

  /** The three keys `parse_business_data` rewrites. */
  const RewrittenKeys: set<Column> := {TotalReviews, Website, OpeningHours}

  /** The row keeps its keys, and every key other than the three it
      rewrites keeps its value, whether or not an exception stops it. */
  lemma ParseRowFrame(row: map<Column, Value>)
    ensures ParseRow(row).row.Keys == row.Keys
    ensures forall k :: k in row && k !in RewrittenKeys ==> ParseRow(row).row[k] == row[k]
  {
  }

  /** A successful parse cleans a string review count and website, leaves
      `None` alone, and replaces truthy raw hours by their schedule while
      leaving falsy hours as they are. */
  lemma ParseRowFields(row: map<Column, Value>)
    requires ParseRow(row).error.None?
    ensures var out := ParseRow(row).row;
      && (row[TotalReviews].Null? ==> out[TotalReviews] == Null)
      && (row[TotalReviews].Text? ==> out[TotalReviews] == Text(Without(row[TotalReviews].s, {'(', ')', ','})))
      && (row[Website].Null? ==> out[Website] == Null)
      && (row[Website].Text? ==> out[Website] == Text(CleanWebsite(row[Website].s)) && ':' !in out[Website].s)
      && (!Truthy(row[OpeningHours]) ==> out[OpeningHours] == row[OpeningHours])
      && (Truthy(row[OpeningHours]) ==>
            row[OpeningHours].RawHours? && ScheduleOf(row[OpeningHours].hours).Ok?
            && out[OpeningHours] == Schedule(ScheduleOf(row[OpeningHours].hours).value))
  {
  }

  /** The ways `parse_business_data` fails: a missing key, a review count
      or website that is not a string, truthy hours that are not raw hours,
      or an unknown weekday label. */
  lemma ParseRowErrors(row: map<Column, Value>)
    ensures ParseRow(row).error.Some? <==>
      || !(RewrittenKeys <= row.Keys)
      || !(row[TotalReviews].Null? || row[TotalReviews].Text?)
      || !(row[Website].Null? || row[Website].Text?)
      || (Truthy(row[OpeningHours]) &&
            (!row[OpeningHours].RawHours? || ScheduleOf(row[OpeningHours].hours).Err?))
  {
  }

  /** `business_row`, the dict that `parse_business_data` rewrites in
      place. */
  class BusinessRow {
    var fields: map<Column, Value>

    constructor (fields: map<Column, Value>)
      ensures this.fields == fields
    {
      this.fields := fields;
    }
  }

  /** The inner loop: the periods of one day's text, one per stripped
      `/`-separated segment. */
  method ParsePeriods(v: string) returns (periods: seq<Period>)
    ensures periods == DayPeriods(v)
  {
    var strs := Segments(v);
    periods := [];
    for j := 0 to |strs|
      invariant periods == PeriodsOf(strs[..j])
    {
      assert strs[..j + 1][..j] == strs[..j];
      periods := periods + [PeriodOf(strs[j])];
    }
    assert strs[..|strs|] == strs;
  }

  /** The outer loop that builds `data_dict` from the raw opening hours. */
  method ParseOpeningHours(hours: seq<(string, string)>) returns (r: Result<seq<(string, seq<Period>)>, PyError>)
    ensures r == ScheduleOf(hours)
  {
    var days: seq<(string, seq<Period>)> := [];
    for i := 0 to |hours|
      invariant ScheduleOf(hours[..i]) == Ok(days)
    {
      assert hours[..i + 1][..i] == hours[..i];
      var (k, v) := hours[i];
      var periods := ParsePeriods(v);
      var d := DayNumber(k);
      if d.None? {
        ScheduleErrStays(DayMapping, DayPeriods, hours, i + 1);
        return Err(KeyError(k));
      }
      days := Put(days, d.value, periods);
    }
    assert hours[..|hours|] == hours;
    r := Ok(days);
  }

  /** `parse_business_data(business_row)`: the three rewrites in turn, each
      assigned in place; an exception stops it with the earlier rewrites
      kept. */
  method ParseBusinessData(row: BusinessRow) returns (error: Option<PyError>)
    modifies row
    ensures ParseRow(old(row.fields)) == Parsed(row.fields, error)
  {
    error := ParseReviews(row);
    if error.Some? {
      return;
    }
    error := ParseWebsite(row);
    if error.Some? {
      return;
    }
    error := ParseHours(row);
  }

  /** The review-count step of `parse_business_data`, in place. */
  method ParseReviews(row: BusinessRow) returns (error: Option<PyError>)
    modifies row
    ensures match ReviewsStep(old(row.fields))
            case Ok(r) => row.fields == r && error.None?
            case Err(e) => row.fields == old(row.fields) && error == Some(e)
  {
    if TotalReviews !in row.fields {
      return Some(MissingKey(TotalReviews));
    }
    var reviews := row.fields[TotalReviews];
    if !reviews.Null? {
      if !reviews.Text? {
        return Some(TypeError);
      }
      var cleaned := MultipleReplace(reviews.s, ReviewRemovals);
      row.fields := row.fields[TotalReviews := Text(cleaned.value)];
    }
    error := None;
  }

  /** The website step of `parse_business_data`, in place. */
  method ParseWebsite(row: BusinessRow) returns (error: Option<PyError>)
    modifies row
    ensures match WebsiteStep(old(row.fields))
            case Ok(r) => row.fields == r && error.None?
            case Err(e) => row.fields == old(row.fields) && error == Some(e)
  {
    if Website !in row.fields {
      return Some(MissingKey(Website));
    }
    var website := row.fields[Website];
    if !website.Null? {
      if !website.Text? {
        return Some(AttributeError);
      }
      var parts := Split(website.s, ':');
      row.fields := row.fields[Website := Text(Strip(parts[|parts| - 1]))];
    }
    error := None;
  }

  /** The opening-hours step of `parse_business_data`, in place. */
  method ParseHours(row: BusinessRow) returns (error: Option<PyError>)
    modifies row
    ensures match HoursStep(old(row.fields))
            case Ok(r) => row.fields == r && error.None?
            case Err(e) => row.fields == old(row.fields) && error == Some(e)
  {
    if OpeningHours !in row.fields {
      return Some(MissingKey(OpeningHours));
    }
    var hours := row.fields[OpeningHours];
    if Truthy(hours) {
      if !hours.RawHours? {
        return Some(AttributeError);
      }
      var days := ParseOpeningHours(hours.hours);
      if days.Err? {
        return Some(days.error);
      }
      row.fields := row.fields[OpeningHours := Schedule(days.value)];
    }
    error := None;
  }

  // ---------------------------------------------------------------------
  // crawl_business_data

  /** `CRAWLED_BUSINESS_DATA_FIELDS`. */
  const CrawledFields: seq<Column> := [Name, Rating, TotalReviews, PlaceType, Website, OpeningHours, Map]

  /** A string-or-`None` as a row value. */
  function OptionalText(v: Option<string>): Value {
    match v
    case Some(s) => Text(s)
    case None => Null
  }

  /** The dict `get_business` returns: the record's fields, its opening
      hours and its `"map"` entry. */
  function BusinessDict(b: GoogleMapsV2.Business): map<Column, Value> {
    map[
      Name := OptionalText(b.data.name),
      Rating := OptionalText(b.data.rating),
      TotalReviews := OptionalText(b.data.totalReviews),
      PlaceType := OptionalText(b.data.placeType),
      Address := OptionalText(b.data.address),
      Website := OptionalText(b.data.website),
      PhoneNumber := OptionalText(b.data.phoneNumber),
      OpeningHours := RawHours(b.data.openingHours),
      Map := Text(b.mapUrl)]
  }

  /** `business_data.get(field, None)`. */
  function DictGet(d: map<Column, Value>, k: Column): Value {
    if k in d then d[k] else Null
  }

  /** `row.update({f: d.get(f, None) for f in fields})`. */
  function UpdateFields(row: map<Column, Value>, d: map<Column, Value>, fields: seq<Column>): map<Column, Value>
    decreases |fields|
  {
    if fields == [] then row
    else UpdateFields(row[fields[0] := DictGet(d, fields[0])], d, fields[1..])
  }

  /** The update adds the listed keys, each with its value in `d` or
      `None`, and keeps every other entry of the row. */
  lemma {:induction false} UpdateFieldsMeans(row: map<Column, Value>, d: map<Column, Value>, fields: seq<Column>)
    ensures forall k :: k in UpdateFields(row, d, fields) <==> k in row || k in fields
    ensures forall k :: k in UpdateFields(row, d, fields) ==>
      UpdateFields(row, d, fields)[k] == if k in fields then DictGet(d, k) else row[k]
    decreases |fields|
  {
    if fields != [] {
      UpdateFieldsMeans(row[fields[0] := DictGet(d, fields[0])], d, fields[1..]);
      assert forall k :: k in fields <==> k == fields[0] || k in fields[1..];
    }
  }

  /** `{"Id": id}` updated with the crawled fields of the dict `d`. */
  function Project(id: int, d: map<Column, Value>): map<Column, Value> {
    UpdateFields(map[Id := Number(id)], d, CrawledFields)
  }

  /** The projected row has the id and exactly the crawled fields, each
      with its value in `d` or `None`. */
  lemma ProjectMeans(id: int, d: map<Column, Value>)
    ensures forall k :: k in Project(id, d) <==> k == Id || k in CrawledFields
    ensures Project(id, d)[Id] == Number(id)
    ensures forall k :: k in CrawledFields ==> Project(id, d)[k] == DictGet(d, k)
  {
    assert Id !in CrawledFields;
    UpdateFieldsMeans(map[Id := Number(id)], d, CrawledFields);
  }

  /** The row stored for a crawl result before it is parsed. */
  function ProjectRow(id: int, b: GoogleMapsV2.Business): map<Column, Value> {
    Project(id, BusinessDict(b))
  }

  /** A row whose review count and website are strings or `None` and
      whose hours are raw hours can only fail on an unknown weekday
      label. */
  lemma ParseRowTyped(row: map<Column, Value>)
    requires RewrittenKeys <= row.Keys
    requires row[TotalReviews].Null? || row[TotalReviews].Text?
    requires row[Website].Null? || row[Website].Text?
    requires row[OpeningHours].RawHours?
    ensures var h := row[OpeningHours].hours;
      ParseRow(row).error == if h != [] && ScheduleOf(h).Err? then Some(ScheduleOf(h).error) else None
  {
    var r1 := ReviewsStep(row).value;
    assert r1.Keys == row.Keys && r1[Website] == row[Website] && r1[OpeningHours] == row[OpeningHours];
    var r2 := WebsiteStep(r1).value;
    assert r2.Keys == row.Keys && r2[OpeningHours] == row[OpeningHours];
  }

  /** The projection drops the address and the phone number, and the
      projected row always parses without a type error: only an unknown
      weekday label can stop it. */
  lemma ProjectRowParses(id: int, b: GoogleMapsV2.Business)
    ensures Address !in ProjectRow(id, b) && PhoneNumber !in ProjectRow(id, b)
    ensures var p := ParseRow(ProjectRow(id, b));
      p.error.Some? ==> ScheduleOf(b.data.openingHours).Err? && p.error == Some(ScheduleOf(b.data.openingHours).error)
  {
    var d := BusinessDict(b);
    assert Address !in CrawledFields && PhoneNumber !in CrawledFields;
    assert TotalReviews in CrawledFields && Website in CrawledFields && OpeningHours in CrawledFields;
    assert DictGet(d, TotalReviews) == OptionalText(b.data.totalReviews);
    assert DictGet(d, Website) == OptionalText(b.data.website);
    assert DictGet(d, OpeningHours) == RawHours(b.data.openingHours);
    ProjectMeans(id, d);
    var row := Project(id, d);
    ParseRowTyped(row);
  }

  /** A row of the attraction table: the id and the three keyword columns,
      any of which may be `NULL`. */
  datatype Attraction = Attraction(id: int, name: Option<string>, zipcode: Option<string>, address: Option<string>)

  /** `remove_none`. */
  function OrEmpty(v: Option<string>): string {
    match v
    case Some(s) => s
    case None => ""
  }

  /** `[remove_none(word) for word in attraction_row[1:]]`. */
  function Keywords(a: Attraction): seq<string> {
    [OrEmpty(a.name), OrEmpty(a.zipcode), OrEmpty(a.address)]
  }

  /** The stored row for one crawl result: the projection, parsed.  A
      result of `False` has no `.get`, which raises `AttributeError`. */
  function RowFor(id: int, result: Option<GoogleMapsV2.Business>): Result<map<Column, Value>, PyError> {
    match result
    case None => Err(AttributeError)
    case Some(b) =>
      var p := ParseRow(ProjectRow(id, b));
      if p.error.Some? then Err(p.error.value) else Ok(p.row)
  }

  /** `lookup` is what `get_business` returns for each list of keywords. */
  ghost predicate LooksUp(crawler: GoogleMapsV2.BusinessCrawler, lookup: seq<string> -> Option<GoogleMapsV2.Business>) {
    forall keywords {:trigger GoogleMapsV2.Lookup(crawler.css, crawler.driver.render, crawler.driver.polls, crawler.unquote, keywords)} ::
      lookup(keywords) == GoogleMapsV2.Lookup(crawler.css, crawler.driver.render, crawler.driver.polls, crawler.unquote, keywords).result
  }

  /** `rowFor` is the row a lookup leads to. */
  ghost predicate Rows(rowFor: (int, Option<GoogleMapsV2.Business>) -> Result<map<Column, Value>, PyError>) {
    forall id, result {:trigger RowFor(id, result)} :: rowFor(id, result) == RowFor(id, result)
  }

  /** One pass of the loop of `crawl_business_data`: look the attraction
      up, project the result onto the stored fields and parse it in place.
      The lookup runs even when the row then fails. */
  method CrawlOne(crawler: GoogleMapsV2.BusinessCrawler, a: Attraction,
                  ghost lookup: seq<string> -> Option<GoogleMapsV2.Business>,
                  ghost rowFor: (int, Option<GoogleMapsV2.Business>) -> Result<map<Column, Value>, PyError>)
    returns (row: Result<map<Column, Value>, PyError>, business: Option<GoogleMapsV2.Business>)
    requires LooksUp(crawler, lookup) && Rows(rowFor)
    modifies crawler.driver`location, crawler.driver`clock, crawler.driver`history, crawler.driver`clicks
    ensures business == lookup(Keywords(a))
    ensures row == rowFor(a.id, business)
  {
    var keywords := [OrEmpty(a.name), OrEmpty(a.zipcode), OrEmpty(a.address)];
    business := crawler.GetBusiness(keywords);
    if business.None? {
      row := Err(AttributeError);
    } else {
      var businessRow := new BusinessRow(ProjectRow(a.id, business.value));
      var error := ParseBusinessData(businessRow);
      if error.Some? {
        row := Err(error.value);
      } else {
        row := Ok(businessRow.fields);
      }
    }
    assert row == RowFor(a.id, business);
  }

  /** `crawl_business_data(attractions)`: one `get_business` per attraction,
      each result projected, parsed in place and appended.  `results` are
      the lookups made, each the result `lookup` gives for the attraction's
      keywords, and `outcomes` the row each of them led to, as `rowFor`
      (that is, `RowFor`) gives it; the rows are the
      outcomes collected, and an exception ends the loop right after the
      lookup that caused it. */
  method CrawlBusinessData(crawler: GoogleMapsV2.BusinessCrawler, attractions: seq<Attraction>,
                           ghost lookup: seq<string> -> Option<GoogleMapsV2.Business>,
                           ghost rowFor: (int, Option<GoogleMapsV2.Business>) -> Result<map<Column, Value>, PyError>)
    returns (rows: Result<seq<map<Column, Value>>, PyError>,
             ghost results: seq<Option<GoogleMapsV2.Business>>,
             ghost outcomes: seq<Result<map<Column, Value>, PyError>>)
    requires LooksUp(crawler, lookup) && Rows(rowFor)
    modifies crawler.driver`location, crawler.driver`clock, crawler.driver`history, crawler.driver`clicks
    ensures |outcomes| == |results| <= |attractions| && (attractions != [] ==> |results| > 0)
    ensures forall i :: 0 <= i < |results| ==> results[i] == lookup(Keywords(attractions[i]))
    ensures forall i :: 0 <= i < |results| ==> outcomes[i] == rowFor(attractions[i].id, results[i])
    ensures rows == Collect(outcomes)
    ensures forall i :: 0 <= i < |outcomes| - 1 ==> outcomes[i].Ok?
    ensures rows.Ok? ==> |results| == |attractions|
  {
    var list: seq<map<Column, Value>> := [];
    results := [];
    outcomes := [];
    for i := 0 to |attractions|
      invariant |results| == |outcomes| == i
      invariant forall j :: 0 <= j < i ==> results[j] == lookup(Keywords(attractions[j]))
      invariant forall j :: 0 <= j < i ==> outcomes[j] == rowFor(attractions[j].id, results[j])
      invariant forall j :: 0 <= j < i ==> outcomes[j].Ok?
      invariant Collect(outcomes) == Ok(list)
    {
      var row, business := CrawlOne(crawler, attractions[i], lookup, rowFor);
      CollectSnoc(outcomes, list, row);
      results := results + [business];
      outcomes := outcomes + [row];
      if row.Err? {
        rows := Err(row.error);
        return;
      }
      list := list + [row.value];
    }
    rows := Ok(list);
  }
}
