/** The Python built-ins the crawler relies on, stated over Dafny values:
    `None`-able values, the `str` methods `strip`, `split` and `join`, the
    substring test `in`, and an insertion-ordered `dict` kept as a sequence
    of key/value pairs. */
module Builtins {

  datatype Option<+T> = None | Some(value: T)

  datatype Result<+T, +E> = Ok(value: T) | Err(error: E)

  // ---------------------------------------------------------------------
  // str.strip()

  /** The characters for which Python's `str.isspace()` holds; `strip()`
      with no argument removes exactly these from both ends. */
  predicate IsSpace(c: char) {
    || c in {' ', '\t', '\n', '\U{b}', '\U{c}', '\r', '\U{1c}', '\U{1d}', '\U{1e}', '\U{1f}',
             '\U{85}', '\U{a0}', '\U{1680}', '\U{2028}', '\U{2029}', '\U{202f}', '\U{205f}', '\U{3000}'}
    || '\U{2000}' <= c <= '\U{200a}'
  }

  /** `str.lstrip()`: drops leading whitespace. */
  function StripLeft(s: string): string
    decreases |s|
  {
    if |s| > 0 && IsSpace(s[0]) then StripLeft(s[1..]) else s
  }

  /** The lstripped string is the suffix of `s` that starts at its first
      non-whitespace character. */
  lemma {:induction false} StripLeftMeans(s: string)
    ensures var r := StripLeft(s);
      && |r| <= |s| && r == s[|s| - |r|..]
      && (r == [] || !IsSpace(r[0]))
      && forall i :: 0 <= i < |s| - |r| ==> IsSpace(s[i])
    decreases |s|
  {
    if |s| > 0 && IsSpace(s[0]) {
      StripLeftMeans(s[1..]);
      var r := StripLeft(s);
      forall i | 1 <= i < |s| - |r| ensures IsSpace(s[i]) {
        assert s[1..][i - 1] == s[i];
      }
    }
  }

  /** `str.rstrip()`: drops trailing whitespace. */
  function StripRight(s: string): string
    decreases |s|
  {
    if |s| > 0 && IsSpace(s[|s| - 1]) then StripRight(s[..|s| - 1]) else s
  }

  /** The rstripped string is the prefix of `s` that ends at its last
      non-whitespace character. */
  lemma {:induction false} StripRightMeans(s: string)
    ensures var r := StripRight(s);
      && |r| <= |s| && r == s[..|r|]
      && (r == [] || !IsSpace(r[|r| - 1]))
      && forall i :: |r| <= i < |s| ==> IsSpace(s[i])
    decreases |s|
  {
    if |s| > 0 && IsSpace(s[|s| - 1]) {
      StripRightMeans(s[..|s| - 1]);
      var r := StripRight(s);
      forall i | |r| <= i < |s| - 1 ensures IsSpace(s[i]) {
        assert s[..|s| - 1][i] == s[i];
      }
    }
  }

  /** `str.strip()`. */
  function Strip(s: string): string {
    StripRight(StripLeft(s))
  }

  /** A stripped string is a piece of `s` that neither starts nor ends
      with whitespace, and only whitespace was dropped around it. */
  lemma StripEnds(s: string) returns (k: nat)
    ensures var r := Strip(s);
      && k + |r| <= |s| && r == s[k..k + |r|]
      && (r == [] || (!IsSpace(r[0]) && !IsSpace(r[|r| - 1])))
      && (forall i :: 0 <= i < k ==> IsSpace(s[i]))
      && (forall i :: k + |r| <= i < |s| ==> IsSpace(s[i]))
  {
    var l := StripLeft(s);
    StripLeftMeans(s);
    StripRightMeans(l);
    var r := StripRight(l);
    k := |s| - |l|;
    if r != [] {
      assert r[0] == l[0];
    }
    forall i | k + |r| <= i < |s| ensures IsSpace(s[i]) {
      assert l[i - k] == s[i];
    }
  }

  /** Stripping is idempotent: a stripped string has no whitespace at
      either end left to remove. */
  lemma {:induction false} StripIdempotent(s: string)
    ensures Strip(Strip(s)) == Strip(s)
  {
    var t := Strip(s);
    var k := StripEnds(s);
    assert StripLeft(t) == t;
    assert StripRight(t) == t;
  }

  // ---------------------------------------------------------------------
  // str.split(sep) and str.join

  /** `s.split(sep)` for a one-character separator: the pieces between
      separators, in order; there is always at least one piece. */
  function Split(s: string, sep: char): (parts: seq<string>)
    ensures |parts| > 0
  {
    if s == [] then [[]]
    else
      var rest := Split(s[1..], sep);
      if s[0] == sep then [[]] + rest
      else [[s[0]] + rest[0]] + rest[1..]
  }

  /** No piece contains the separator. */
  lemma {:induction false} SplitAvoidsSep(s: string, sep: char)
    ensures forall i :: 0 <= i < |Split(s, sep)| ==> sep !in Split(s, sep)[i]
    decreases |s|
  {
    if s != [] {
      SplitAvoidsSep(s[1..], sep);
    }
  }

  /** `sep.join(parts)`. */
  function Join(parts: seq<string>, sep: string): string {
    if |parts| == 0 then []
    else if |parts| == 1 then parts[0]
    else parts[0] + sep + Join(parts[1..], sep)
  }

  /** Number of occurrences of `c` in `s`. */
  function Count(s: string, c: char): nat {
    if s == [] then 0 else (if s[0] == c then 1 else 0) + Count(s[1..], c)
  }

  lemma {:induction false} JoinConsFirst(c: char, parts: seq<string>, sep: string)
    requires |parts| > 0
    ensures Join([[c] + parts[0]] + parts[1..], sep) == [c] + Join(parts, sep)
  {
    var ps := [[c] + parts[0]] + parts[1..];
    assert ps[1..] == parts[1..];
  }

  /** Splitting on a separator and joining with it again gives back the
      original string. */
  lemma {:induction false} SplitJoin(s: string, sep: char)
    ensures Join(Split(s, sep), [sep]) == s
  {
    if s != [] {
      var rest := Split(s[1..], sep);
      SplitJoin(s[1..], sep);
      if s[0] == sep {
        var ps := [[]] + rest;
        assert ps[1..] == rest;
        if |rest| == 1 {
          assert Join(ps, [sep]) == [] + [sep] + rest[0];
        }
      } else {
        JoinConsFirst(s[0], rest, [sep]);
      }
    }
  }

  /** There is one more piece than there are separators. */
  lemma {:induction false} SplitCount(s: string, sep: char)
    ensures |Split(s, sep)| == Count(s, sep) + 1
  {
    if s != [] {
      SplitCount(s[1..], sep);
    }
  }

  /** Joining pieces with `sep` puts the last piece after everything else
      and one final separator. */
  lemma {:induction false} JoinLast(parts: seq<string>, sep: string)
    requires |parts| >= 2
    ensures Join(parts, sep) == Join(parts[..|parts| - 1], sep) + sep + parts[|parts| - 1]
  {
    if |parts| > 2 {
      JoinLast(parts[1..], sep);
      assert parts[1..][..|parts| - 2] == parts[..|parts| - 1][1..];
    } else {
      assert parts[..1] == [parts[0]];
    }
  }

  /** `s.split(sep)[-1]` is the text after the last separator: `s` is some
      prefix ending in `sep` (or nothing) followed by that last piece. */
  lemma LastPieceIsSuffix(s: string, sep: char) returns (k: nat)
    ensures k <= |s|
    ensures k == 0 || s[k - 1] == sep
    ensures sep !in s[k..]
    ensures s[k..] == Split(s, sep)[|Split(s, sep)| - 1]
  {
    var parts := Split(s, sep);
    var n := |parts|;
    SplitJoin(s, sep);
    SplitAvoidsSep(s, sep);
    if n == 1 {
      k := 0;
    } else {
      JoinLast(parts, [sep]);
      var front := Join(parts[..n - 1], [sep]) + [sep];
      assert s == front + parts[n - 1];
      k := |front|;
      assert s[..k] == front;
      assert s[k..] == parts[n - 1];
    }
  }

  // ---------------------------------------------------------------------
  // The substring test `t in s`

  /** Python's `t in s` for strings: `t` occurs in `s` at some position. */
  predicate Contains(s: string, t: string)
    decreases |s|
  {
    t <= s || (|s| > 0 && Contains(s[1..], t))
  }

  /** `t` occurs in `s` starting at index `i`. */
  predicate OccursAt(s: string, t: string, i: int) {
    0 <= i <= |s| - |t| && s[i..i + |t|] == t
  }

  /** The recursive test agrees with the positional definition of a
      substring. */
  lemma {:induction false} ContainsAt(s: string, t: string)
    ensures Contains(s, t) <==> exists i :: OccursAt(s, t, i)
  {
    if t <= s {
      assert OccursAt(s, t, 0);
    }
    if |s| > 0 {
      ContainsAt(s[1..], t);
      forall i | OccursAt(s[1..], t, i)
        ensures OccursAt(s, t, i + 1)
      {
        assert s[i + 1..i + 1 + |t|] == s[1..][i..i + |t|];
      }
      if exists i :: OccursAt(s, t, i) {
        var i :| OccursAt(s, t, i);
        if i == 0 {
          assert t <= s;
        } else {
          assert s[1..][i - 1..i - 1 + |t|] == s[i..i + |t|];
          assert OccursAt(s[1..], t, i - 1);
        }
      }
    } else {
      if exists i :: OccursAt(s, t, i) {
        var i :| OccursAt(s, t, i);
        assert t == [];
      }
    }
  }

  // ---------------------------------------------------------------------
  // any() over a list of strings

  /** `any(xs)` for a list of strings: some string is non-empty. */
  predicate AnyNonEmpty(xs: seq<string>)
    decreases |xs|
  {
    xs != [] && (xs[0] != "" || AnyNonEmpty(xs[1..]))
  }

  lemma {:induction false} AnyNonEmptyMeans(xs: seq<string>)
    decreases |xs|
    ensures AnyNonEmpty(xs) <==> exists i :: 0 <= i < |xs| && xs[i] != ""
  {
    if xs != [] {
      AnyNonEmptyMeans(xs[1..]);
      if exists i :: 0 <= i < |xs| && xs[i] != "" {
        var i :| 0 <= i < |xs| && xs[i] != "";
        if i > 0 {
          assert xs[1..][i - 1] != "";
        }
      }
      if AnyNonEmpty(xs[1..]) {
        var i :| 0 <= i < |xs[1..]| && xs[1..][i] != "";
        assert xs[i + 1] != "";
      }
    }
  }

  // ---------------------------------------------------------------------
  // A loop that an exception ends

  /** The outcomes of a loop's passes collected in order, the first
      exception ending the loop. */
  function Collect<T, E>(outcomes: seq<Result<T, E>>): Result<seq<T>, E>
    decreases |outcomes|
  {
    if outcomes == [] then Ok([])
    else
      match Collect(outcomes[..|outcomes| - 1])
      case Err(e) => Err(e)
      case Ok(vs) =>
        match outcomes[|outcomes| - 1]
        case Err(e) => Err(e)
        case Ok(v) => Ok(vs + [v])
  }

  /** Without an exception every pass contributes its value, in order; an
      exception is the one of the first pass that raised. */
  lemma {:induction false} CollectMeans<T, E>(outcomes: seq<Result<T, E>>)
    ensures Collect(outcomes).Ok? ==>
      && |Collect(outcomes).value| == |outcomes|
      && forall i :: 0 <= i < |outcomes| ==> outcomes[i] == Ok(Collect(outcomes).value[i])
    ensures Collect(outcomes).Err? <==> exists i :: 0 <= i < |outcomes| && outcomes[i].Err?
    ensures Collect(outcomes).Err? ==>
      exists i :: 0 <= i < |outcomes| && outcomes[i] == Err(Collect(outcomes).error)
               && forall j :: 0 <= j < i ==> outcomes[j].Ok?
    decreases |outcomes|
  {
    if outcomes != [] {
      var n := |outcomes|;
      var front := outcomes[..n - 1];
      CollectMeans(front);
      forall i | 0 <= i < n - 1 ensures front[i] == outcomes[i] { }
      match Collect(front)
      case Err(e) =>
      case Ok(vs) =>
        if outcomes[n - 1].Ok? {
          assert forall i :: 0 <= i < n - 1 ==> (vs + [outcomes[n - 1].value])[i] == vs[i];
        }
    }
  }

  /** One more pass extends the collected values by its value, or ends the
      loop with its exception. */
  lemma CollectSnoc<T, E>(outcomes: seq<Result<T, E>>, vs: seq<T>, last: Result<T, E>)
    requires Collect(outcomes) == Ok(vs)
    ensures Collect(outcomes + [last]) == if last.Ok? then Ok(vs + [last.value]) else Err(last.error)
  {
    assert (outcomes + [last])[..|outcomes|] == outcomes;
  }

  // ---------------------------------------------------------------------
  // An insertion-ordered dict, as a sequence of key/value pairs

  /** The keys of a dict in insertion order. */
  function Keys<K, V>(d: seq<(K, V)>): seq<K> {
    seq(|d|, i requires 0 <= i < |d| => d[i].0)
  }

  /** No key occurs twice, which every Python dict satisfies. */
  predicate DistinctKeys<K(==), V>(d: seq<(K, V)>) {
    forall i, j :: 0 <= i < j < |d| ==> d[i].0 != d[j].0
  }

  /** `d[k]`: the value of the entry with key `k`, `None` standing for
      `KeyError`. */
  function DictLookup<K(==), V>(d: seq<(K, V)>, k: K): Option<V>
    decreases |d|
  {
    if d == [] then None
    else if d[0].0 == k then Some(d[0].1)
    else DictLookup(d[1..], k)
  }

  /** The lookup succeeds exactly for the keys of the dict, and then gives
      the value stored with the key. */
  lemma {:induction false} DictLookupMeans<K, V>(d: seq<(K, V)>, k: K)
    requires DistinctKeys(d)
    ensures DictLookup(d, k).Some? <==> k in Keys(d)
    ensures forall i :: 0 <= i < |d| && d[i].0 == k ==> DictLookup(d, k) == Some(d[i].1)
    decreases |d|
  {
    if d != [] {
      assert Keys(d)[1..] == Keys(d[1..]);
      assert Keys(d) == [d[0].0] + Keys(d[1..]);
      if d[0].0 != k {
        DictLookupMeans(d[1..], k);
        forall i | 0 < i < |d| && d[i].0 == k ensures DictLookup(d, k) == Some(d[i].1) {
          assert d[1..][i - 1] == d[i];
        }
      }
    }
  }

  /** A successful lookup gives the value of some entry. */
  lemma {:induction false} DictLookupValue<K, V>(d: seq<(K, V)>, k: K)
    ensures DictLookup(d, k).Some? ==> exists j :: 0 <= j < |d| && DictLookup(d, k).value == d[j].1
    decreases |d|
  {
    if d != [] && d[0].0 != k {
      DictLookupValue(d[1..], k);
      if DictLookup(d, k).Some? {
        var j :| 0 <= j < |d[1..]| && DictLookup(d, k).value == d[1..][j].1;
        assert d[j + 1] == d[1..][j];
      }
    }
  }

  /** Different keys carry different values as well. */
  predicate OneToOne<K(==), V(==)>(d: seq<(K, V)>) {
    DistinctKeys(d) && forall i, j :: 0 <= i < j < |d| ==> d[i].1 != d[j].1
  }

  /** In a one-to-one dict, two keys that look up the same value are the
      same key. */
  lemma DictLookupOneToOne<K, V>(d: seq<(K, V)>, a: K, b: K)
    requires OneToOne(d)
    ensures DictLookup(d, a).Some? && DictLookup(d, a) == DictLookup(d, b) ==> a == b
  {
    DictLookupMeans(d, a);
    DictLookupMeans(d, b);
    if DictLookup(d, a).Some? && DictLookup(d, a) == DictLookup(d, b) {
      var i :| 0 <= i < |d| && Keys(d)[i] == a;
      var j :| 0 <= j < |d| && Keys(d)[j] == b;
      assert DictLookup(d, a) == Some(d[i].1);
      assert DictLookup(d, b) == Some(d[j].1);
    }
  }

  /** `d[k] = v`: replaces the value of an existing key in place, otherwise
      appends a new entry at the end. */
  function Put<K(==), V>(d: seq<(K, V)>, k: K, v: V): seq<(K, V)>
    decreases |d|
  {
    if d == [] then [(k, v)]
    else if d[0].0 == k then [(k, v)] + d[1..]
    else [d[0]] + Put(d[1..], k, v)
  }

  /** A new key is appended; an existing key keeps its place; every other
      entry stays where it was. */
  lemma {:induction false} PutMeans<K, V>(d: seq<(K, V)>, k: K, v: V)
    ensures |Put(d, k, v)| == |d| + (if k in Keys(d) then 0 else 1)
    ensures k !in Keys(d) ==> Put(d, k, v) == d + [(k, v)]
    ensures forall i :: 0 <= i < |d| && d[i].0 != k ==> Put(d, k, v)[i] == d[i]
    decreases |d|
  {
    if d != [] {
      assert Keys(d)[0] == d[0].0;
      if d[0].0 != k {
        assert Keys(d)[1..] == Keys(d[1..]);
        PutMeans(d[1..], k, v);
        forall i | 1 <= i < |d| ensures d[1..][i - 1] == d[i] { }
      }
    }
  }

  /** With distinct keys, an existing key gets the new value where it
      stands. */
  lemma {:induction false} PutReplaces<K, V>(d: seq<(K, V)>, k: K, v: V)
    requires DistinctKeys(d)
    ensures forall i :: 0 <= i < |d| && d[i].0 == k ==> Put(d, k, v) == d[..i] + [(k, v)] + d[i + 1..]
    decreases |d|
  {
    if d != [] && d[0].0 != k {
      PutReplaces(d[1..], k, v);
      forall i | 1 <= i < |d| && d[i].0 == k
        ensures Put(d, k, v) == d[..i] + [(k, v)] + d[i + 1..]
      {
        assert d[1..][i - 1] == d[i];
        assert d[1..][..i - 1] == d[1..i];
        assert d[1..][i..] == d[i + 1..];
        assert [d[0]] + d[1..i] == d[..i];
      }
    }
  }
}
