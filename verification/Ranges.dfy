/** Half-open line ranges: `coalesce_ranges` and `indices_from_ranges`. */
module Ranges {
  import opened Prelude

  datatype Range = Range(start: int, end: int)

  /** `range(start, end)` as a set. */
  function Interval(start: int, end: int): (s: set<int>)
    ensures forall x :: x in s <==> start <= x < end
    decreases end - start
  {
    if end <= start then {} else Interval(start, end - 1) + {end - 1}
  }

  /** Every index some range of `rs` covers. */
  function Covered(rs: seq<Range>): set<int> {
    if rs == [] then {} else Covered(rs[..|rs| - 1]) + Interval(rs[|rs| - 1].start, rs[|rs| - 1].end)
  }

  /** End of the last range, as `indices_from_ranges` remembers it. */
  function PreviousEnd(rs: seq<Range>): int {
    if rs == [] then -1 else rs[|rs| - 1].end
  }

  predicate Fits(previousEnd: int, r: Range) {
    0 <= r.start < r.end && previousEnd <= r.start
  }

  /** What `indices_from_ranges` accepts: positive ranges, sorted, not overlapping. */
  predicate WellOrdered(rs: seq<Range>) {
    rs == [] || (WellOrdered(rs[..|rs| - 1]) && Fits(PreviousEnd(rs[..|rs| - 1]), rs[|rs| - 1]))
  }

  /** Maximal runs: no two neighbouring ranges touch. */
  predicate Separated(rs: seq<Range>) {
    rs == [] || (Separated(rs[..|rs| - 1]) && PreviousEnd(rs[..|rs| - 1]) < rs[|rs| - 1].start)
  }

  lemma {:induction false} Append(rs: seq<Range>, r: Range)
    ensures Covered(rs + [r]) == Covered(rs) + Interval(r.start, r.end)
    ensures WellOrdered(rs + [r]) <==> WellOrdered(rs) && Fits(PreviousEnd(rs), r)
    ensures Separated(rs + [r]) <==> Separated(rs) && PreviousEnd(rs) < r.start
    ensures PreviousEnd(rs + [r]) == r.end
  {
    assert (rs + [r])[..|rs|] == rs;
  }

  /** Everything covered lies from 0 up to the end of the last range. */
  lemma {:induction false} CoveredBounds(rs: seq<Range>)
    requires WellOrdered(rs)
    ensures forall x :: x in Covered(rs) ==> 0 <= x < PreviousEnd(rs)
  {
    if rs == [] {
    } else {
      CoveredBounds(rs[..|rs| - 1]);
    }
  }

  lemma {:induction false} WithoutLast(rs: seq<Range>)
    requires rs != [] && WellOrdered(rs)
    ensures Covered(rs[..|rs| - 1]) == Covered(rs) - Interval(rs[|rs| - 1].start, rs[|rs| - 1].end)
  {
    CoveredBounds(rs[..|rs| - 1]);
  }

  lemma {:induction false} LastRun(rs: seq<Range>)
    requires rs != [] && WellOrdered(rs) && Separated(rs)
    ensures rs[|rs| - 1].end - 1 in Covered(rs)
    ensures forall x :: rs[|rs| - 1].start <= x < rs[|rs| - 1].end ==> x in Covered(rs)
    ensures rs[|rs| - 1].start - 1 !in Covered(rs)
    ensures forall x :: x in Covered(rs) ==> x < rs[|rs| - 1].end
  {
    CoveredBounds(rs[..|rs| - 1]);
  }

  /** Maximal runs are canonical: the covered set determines them. */
  lemma {:induction false} RunsUnique(a: seq<Range>, b: seq<Range>)
    requires WellOrdered(a) && Separated(a) && WellOrdered(b) && Separated(b)
    requires Covered(a) == Covered(b)
    ensures a == b
  {
    if a != [] { LastRun(a); }
    if b != [] { LastRun(b); }
    if a != [] && b != [] {
      var m, n := |a| - 1, |b| - 1;
      WithoutLast(a);
      WithoutLast(b);
      RunsUnique(a[..m], b[..n]);
      assert a == a[..m] + [a[m]] && b == b[..n] + [b[n]];
    }
  }

  lemma {:induction false} MaxExists(s: set<int>)
    requires s != {}
    ensures exists m :: m in s && forall x :: x in s ==> x <= m
    decreases |s|
  {
    var y := Pick(s);
    var rest := s - {y};
    if rest == {} {
      assert s == {y};
    } else {
      MaxExists(rest);
      var m :| m in rest && forall x :: x in rest ==> x <= m;
      var top := if y < m then m else y;
      assert top in s;
      forall x | x in s ensures x <= top { assert x == y || x in rest; }
    }
  }

  /** One more index, larger than everything covered: extend the last run or open a new one. */
  function AddAbove(rs: seq<Range>, m: int): seq<Range> {
    if rs != [] && PreviousEnd(rs) == m then rs[..|rs| - 1] + [Range(rs[|rs| - 1].start, m + 1)]
    else rs + [Range(m, m + 1)]
  }

  lemma {:induction false} AddAboveCovers(rs: seq<Range>, m: int)
    requires 0 <= m && WellOrdered(rs) && Separated(rs) && PreviousEnd(rs) <= m
    ensures WellOrdered(AddAbove(rs, m)) && Separated(AddAbove(rs, m))
    ensures Covered(AddAbove(rs, m)) == Covered(rs) + {m}
    ensures PreviousEnd(AddAbove(rs, m)) == m + 1
  {
    if rs != [] && PreviousEnd(rs) == m {
      Append(rs[..|rs| - 1], Range(rs[|rs| - 1].start, m + 1));
    } else {
      Append(rs, Range(m, m + 1));
    }
  }

  /** The maximal runs of a set of indices, built from its largest element down. */
  function Coalesce(s: set<int>): seq<Range>
    decreases |s|
  {
    if s == {} then [] else AddAbove(Coalesce(s - {Largest(s)}), Largest(s))
  }

  function Largest(s: set<int>): (m: int)
    requires s != {}
    ensures m in s && forall x :: x in s ==> x <= m
  {
    MaxExists(s);
    var m :| m in s && forall x :: x in s ==> x <= m;
    m
  }

  lemma {:induction false} CoalesceCovers(s: set<int>)
    requires forall x :: x in s ==> 0 <= x
    ensures WellOrdered(Coalesce(s)) && Separated(Coalesce(s)) && Covered(Coalesce(s)) == s
    decreases |s|
  {
    if s != {} {
      var m := Largest(s);
      CoalesceCovers(s - {m});
      CoalesceStep(Coalesce(s - {m}), s, m);
    }
  }

  lemma {:induction false} CoalesceStep(rest: seq<Range>, s: set<int>, m: int)
    requires 0 <= m && m in s && forall x :: x in s ==> x <= m
    requires WellOrdered(rest) && Separated(rest) && Covered(rest) == s - {m}
    ensures WellOrdered(AddAbove(rest, m)) && Separated(AddAbove(rest, m))
    ensures Covered(AddAbove(rest, m)) == s
  {
    if rest != [] { LastRun(rest); }
    AddAboveCovers(rest, m);
    assert s - {m} + {m} == s;
  }

  /** `indices_from_ranges` as a function of its argument. */
  function Expand(rs: seq<Range>): Result<set<int>> {
    if WellOrdered(rs) then Ok(Covered(rs))
    else Raised("NER ranges must be sorted, positive and non-overlapping")
  }

  /** Writing a set as ranges and reading it back loses nothing and never raises. */
  lemma {:induction false} ExpandCoalesce(s: set<int>)
    requires forall x :: x in s ==> 0 <= x
    ensures Expand(Coalesce(s)) == Ok(s)
  {
    CoalesceCovers(s);
  }

  /** The other way round: re-coalescing accepted ranges returns them exactly when they were maximal. */
  lemma {:induction false} CoalesceExpand(rs: seq<Range>)
    requires WellOrdered(rs)
    ensures Coalesce(Covered(rs)) == rs <==> Separated(rs)
  {
    CoveredBounds(rs);
    CoalesceCovers(Covered(rs));
    if Separated(rs) { RunsUnique(Coalesce(Covered(rs)), rs); }
  }

  /** `sorted(set(indices))`, taking the largest remaining element each time. */
  method SortedSet(indices: seq<int>) returns (values: seq<int>)
    ensures Increasing(values)
    ensures Elems(values) == Elems(indices)
  {
    var rest := Elems(indices);
    values := [];
    while rest != {}
      invariant LargestTaken(Elems(indices), values, rest)
      decreases |rest|
    {
      var m := Largest(rest);
      TakeLargest(Elems(indices), values, rest, m);
      values := [m] + values;
      rest := rest - {m};
    }
  }

  /** `values` holds, in order, the largest elements of `all`; `rest` the others. */
  ghost predicate LargestTaken(all: set<int>, values: seq<int>, rest: set<int>) {
    && Increasing(values)
    && all == Elems(values) + rest
    && (values != [] ==> forall x :: x in rest ==> x < values[0])
  }

  lemma {:induction false} TakeLargest(all: set<int>, values: seq<int>, rest: set<int>, m: int)
    requires LargestTaken(all, values, rest)
    requires m in rest && forall x :: x in rest ==> x <= m
    ensures LargestTaken(all, [m] + values, rest - {m})
  {
    Prepend(m, values);
    assert Elems(values) + rest == Elems([m] + values) + (rest - {m});
  }

  lemma {:induction false} Prepend(m: int, values: seq<int>)
    requires Increasing(values) && (values != [] ==> m < values[0])
    ensures Increasing([m] + values)
    ensures Elems([m] + values) == {m} + Elems(values)
  {
    var longer := [m] + values;
    forall i, j | 0 <= i < j < |longer| ensures longer[i] < longer[j] {
      assert longer[j] == values[j - 1];
      if i > 0 { assert longer[i] == values[i - 1]; }
    }
    forall x ensures x in Elems(longer) <==> x in {m} + Elems(values) {
      if x in Elems(values) {
        var k :| 0 <= k < |values| && values[k] == x;
        assert longer[k + 1] == x;
      }
    }
  }

  method CoalesceRanges(indices: seq<int>) returns (r: Result<seq<Range>>)
    ensures r.Ok? <==> forall x :: x in Elems(indices) ==> 0 <= x
    ensures r.Ok? ==> r.value == Coalesce(Elems(indices))
  {
    var values := SortedSet(indices);
    var k := 0;
    while k < |values|
      invariant 0 <= k <= |values|
      invariant forall j :: 0 <= j < k ==> 0 <= values[j]
    {
      if values[k] < 0 {
        assert values[k] in Elems(values);
        return Raised("line indices must be non-negative integers");
      }
      k := k + 1;
    }
    forall x | x in Elems(indices) ensures 0 <= x { assert x in Elems(values); }
    var runs := MaximalRuns(values);
    CoalesceCovers(Elems(indices));
    RunsUnique(runs, Coalesce(Elems(indices)));
    return Ok(runs);
  }

  /** The loop of `coalesce_ranges` over the sorted values. */
  method MaximalRuns(values: seq<int>) returns (result: seq<Range>)
    requires Increasing(values)
    requires forall k :: 0 <= k < |values| ==> 0 <= values[k]
    ensures WellOrdered(result) && Separated(result)
    ensures Covered(result) == Elems(values)
  {
    if values == [] {
      return [];
    }
    result := [];
    var start, previous := values[0], values[0];
    var i := 1;
    while i < |values|
      invariant 1 <= i <= |values|
      invariant 0 <= start <= previous == values[i - 1]
      invariant OpenRun(result, start, previous, Elems(values[..i]))
    {
      var value := values[i];
      assert values[..i + 1] == values[..i] + [value];
      ElemsAppend(values[..i], value);
      RunStep(result, start, previous, value, Elems(values[..i]));
      if value == previous + 1 {
        previous := value;
      } else {
        result := result + [Range(start, previous + 1)];
        start, previous := value, value;
      }
      i := i + 1;
    }
    assert values[..|values|] == values;
    Append(result, Range(start, previous + 1));
    result := result + [Range(start, previous + 1)];
  }

  /** Closed runs plus the run still open cover exactly what was read. */
  ghost predicate OpenRun(closed: seq<Range>, start: int, previous: int, read: set<int>) {
    && WellOrdered(closed) && Separated(closed) && PreviousEnd(closed) < start
    && Covered(closed) + Interval(start, previous + 1) == read
  }

  lemma {:induction false} RunStep(closed: seq<Range>, start: int, previous: int, value: int, read: set<int>)
    requires 0 <= start <= previous < value && OpenRun(closed, start, previous, read)
    ensures value == previous + 1 ==> OpenRun(closed, start, value, read + {value})
    ensures value != previous + 1 ==> OpenRun(closed + [Range(start, previous + 1)], value, value, read + {value})
  {
    Append(closed, Range(start, previous + 1));
    assert Interval(value, value + 1) == {value};
  }

  method IndicesFromRanges(ranges: seq<Range>) returns (r: Result<set<int>>)
    ensures r == Expand(ranges)
  {
    var result: set<int> := {};
    var previousEnd := -1;
    for k := 0 to |ranges|
      invariant WellOrdered(ranges[..k])
      invariant result == Covered(ranges[..k])
      invariant previousEnd == PreviousEnd(ranges[..k])
    {
      var item := ranges[k];
      assert ranges[..k + 1] == ranges[..k] + [item];
      Append(ranges[..k], item);
      if item.start < 0 || item.end <= item.start || item.start < previousEnd {
        PrefixWellOrdered(ranges, k + 1);
        return Raised("NER ranges must be sorted, positive and non-overlapping");
      }
      result := result + Interval(item.start, item.end);
      previousEnd := item.end;
    }
    assert ranges[..|ranges|] == ranges;
    return Ok(result);
  }

  lemma {:induction false} PrefixWellOrdered(rs: seq<Range>, k: nat)
    requires k <= |rs|
    ensures WellOrdered(rs) ==> WellOrdered(rs[..k])
  {
    if k < |rs| {
      assert rs[..|rs| - 1][..k] == rs[..k];
      PrefixWellOrdered(rs[..|rs| - 1], k);
    } else {
      assert rs[..k] == rs;
    }
  }
}
