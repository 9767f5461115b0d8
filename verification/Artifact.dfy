/** Link records and the stable sort that gives a book's published artifact its order. */
module Artifact {
  import opened Prelude

  /** One link of one source line. `source` stands for the line's content hash, which is injective
      in the content; `context` and `direction` are present together, on relative citations only. */
  datatype Record = Record(line: nat, start: nat, end: nat, target: string,
                           source: string, context: Option<string>, direction: Option<string>)

  /** `validate_record`: what `read_artifact` accepts. */
  predicate WellFormed(r: Record) {
    && r.start < r.end && r.target != ""
    && (r.context.Some? <==> r.direction.Some?)
    && (r.context.Some? ==> r.context.value != "") && (r.direction.Some? ==> r.direction.value in {"above", "below"})
  }

  /** `(record.line_index, record.start, record.end, record.target_ref)` */
  datatype Key = Key(line: nat, start: nat, end: nat, target: string)

  function KeyOf(r: Record): Key {
    Key(r.line, r.start, r.end, r.target)
  }

  predicate TextLeq(a: string, b: string) {
    a == [] || (b != [] && (a[0] < b[0] || (a[0] == b[0] && TextLeq(a[1..], b[1..]))))
  }

  predicate Leq(a: Key, b: Key) {
    if a.line != b.line then a.line < b.line
    else if a.start != b.start then a.start < b.start
    else if a.end != b.end then a.end < b.end
    else TextLeq(a.target, b.target)
  }

  lemma {:induction false} TextTotal(a: string, b: string)
    ensures TextLeq(a, b) || TextLeq(b, a)
    ensures TextLeq(a, b) && TextLeq(b, a) ==> a == b
  {
    if a != [] && b != [] && a[0] == b[0] {
      TextTotal(a[1..], b[1..]);
      assert a == [a[0]] + a[1..] && b == [b[0]] + b[1..];
    }
  }

  lemma {:induction false} TextTransitive(a: string, b: string, c: string)
    requires TextLeq(a, b) && TextLeq(b, c)
    ensures TextLeq(a, c)
  {
    if a != [] && a[0] == b[0] == c[0] {
      TextTransitive(a[1..], b[1..], c[1..]);
    }
  }

  lemma {:induction false} KeyTotal(a: Key, b: Key)
    ensures Leq(a, b) || Leq(b, a)
    ensures Leq(a, b) && Leq(b, a) ==> a == b
  {
    TextTotal(a.target, b.target);
  }

  lemma {:induction false} KeyTransitive(a: Key, b: Key, c: Key)
    requires Leq(a, b) && Leq(b, c)
    ensures Leq(a, c)
  {
    if a.line == b.line == c.line && a.start == b.start == c.start && a.end == b.end == c.end {
      TextTransitive(a.target, b.target, c.target);
    }
  }

  /** Insert after every record whose key is not larger: equal keys keep their order. */
  function Insert(sorted: seq<Record>, r: Record): seq<Record> {
    if sorted == [] || Leq(KeyOf(sorted[|sorted| - 1]), KeyOf(r)) then sorted + [r]
    else Insert(sorted[..|sorted| - 1], r) + [sorted[|sorted| - 1]]
  }

  /** `records.sort(key=...)`: Python's sort is stable. */
  function Sort(rs: seq<Record>): seq<Record> {
    if rs == [] then [] else Insert(Sort(rs[..|rs| - 1]), rs[|rs| - 1])
  }

  /** No record comes after one with a larger key. */
  predicate Sorted(rs: seq<Record>) {
    rs == [] || (Sorted(rs[..|rs| - 1]) && AllBelow(rs[..|rs| - 1], KeyOf(rs[|rs| - 1])))
  }

  predicate AllBelow(rs: seq<Record>, k: Key) {
    rs == [] || (AllBelow(rs[..|rs| - 1], k) && Leq(KeyOf(rs[|rs| - 1]), k))
  }

  /** The records carrying one key, in order. */
  function OfKey(rs: seq<Record>, k: Key): seq<Record> {
    if rs == [] then []
    else if KeyOf(rs[|rs| - 1]) == k then OfKey(rs[..|rs| - 1], k) + [rs[|rs| - 1]]
    else OfKey(rs[..|rs| - 1], k)
  }

  lemma {:induction false} AppendRecord(rs: seq<Record>, r: Record, k: Key)
    ensures OfKey(rs + [r], k) == if KeyOf(r) == k then OfKey(rs, k) + [r] else OfKey(rs, k)
    ensures AllBelow(rs + [r], k) <==> AllBelow(rs, k) && Leq(KeyOf(r), k)
    ensures Sorted(rs + [r]) <==> Sorted(rs) && AllBelow(rs, KeyOf(r))
  {
    assert (rs + [r])[..|rs|] == rs;
  }

  lemma {:induction false} OfKeyConcat(a: seq<Record>, b: seq<Record>, k: Key)
    ensures OfKey(a + b, k) == OfKey(a, k) + OfKey(b, k)
  {
    if b == [] {
      assert a + b == a;
    } else {
      assert a + b == (a + b[..|b| - 1]) + [b[|b| - 1]];
      OfKeyConcat(a, b[..|b| - 1], k);
      AppendRecord(a + b[..|b| - 1], b[|b| - 1], k);
    }
  }

  lemma {:induction false} BelowLarger(rs: seq<Record>, j: Key, k: Key)
    requires AllBelow(rs, j) && Leq(j, k)
    ensures AllBelow(rs, k)
  {
    if rs == [] {
    } else {
      BelowLarger(rs[..|rs| - 1], j, k);
      KeyTransitive(KeyOf(rs[|rs| - 1]), j, k);
    }
  }

  lemma {:induction false} BelowNoKey(rs: seq<Record>, j: Key, k: Key)
    requires AllBelow(rs, j) && !Leq(k, j)
    ensures OfKey(rs, k) == []
  {
    if rs == [] {
    } else {
      BelowNoKey(rs[..|rs| - 1], j, k);
    }
  }

  lemma {:induction false} InsertSorts(sorted: seq<Record>, r: Record, k: Key)
    requires Sorted(sorted)
    ensures Sorted(Insert(sorted, r))
    ensures OfKey(Insert(sorted, r), k) == OfKey(sorted + [r], k)
    ensures AllBelow(sorted, k) && Leq(KeyOf(r), k) ==> AllBelow(Insert(sorted, r), k)
    decreases |sorted|
  {
    AppendRecord(sorted, r, k);
    AppendRecord(sorted, r, KeyOf(r));
    if sorted == [] {
    } else {
      var init, last := sorted[..|sorted| - 1], sorted[|sorted| - 1];
      assert sorted == init + [last];
      KeyTotal(KeyOf(last), KeyOf(r));
      if Leq(KeyOf(last), KeyOf(r)) {
        BelowLarger(init, KeyOf(last), KeyOf(r));
      } else {
        InsertSorts(init, r, k);
        InsertSorts(init, r, KeyOf(last));
        AppendRecord(init, r, k);
        AppendRecord(Insert(init, r), last, k);
        AppendRecord(Insert(init, r), last, KeyOf(last));
      }
    }
  }

  /** Sorting orders by key and keeps, for every key, the records and their relative order. */
  lemma {:induction false} SortStable(rs: seq<Record>, k: Key)
    ensures Sorted(Sort(rs))
    ensures OfKey(Sort(rs), k) == OfKey(rs, k)
  {
    if rs != [] {
      var init, last := rs[..|rs| - 1], rs[|rs| - 1];
      SortStable(init, k);
      InsertSorts(Sort(init), last, k);
      AppendRecord(Sort(init), last, k);
      AppendRecord(init, last, k);
      assert rs == init + [last];
    }
  }

  /** A sorted list is determined by what it holds under each key. */
  lemma {:induction false} SortedUnique(a: seq<Record>, b: seq<Record>)
    requires Sorted(a) && Sorted(b)
    requires forall k :: OfKey(a, k) == OfKey(b, k)
    ensures a == b
    decreases |a|
  {
    assert a != [] ==> OfKey(a, KeyOf(a[|a| - 1])) == OfKey(b, KeyOf(a[|a| - 1])) != [];
    assert b != [] ==> OfKey(a, KeyOf(b[|b| - 1])) == OfKey(b, KeyOf(b[|b| - 1])) != [];
    if a != [] && b != [] {
      var la, lb := a[|a| - 1], b[|b| - 1];
      var ka, kb := KeyOf(la), KeyOf(lb);
      var ia, ib := a[..|a| - 1], b[..|b| - 1];
      assert a == ia + [la] && b == ib + [lb];
      LastHasLargestKey(a, kb);
      LastHasLargestKey(b, ka);
      KeyTotal(ka, kb);
      assert OfKey(a, ka)[|OfKey(a, ka)| - 1] == la;
      assert OfKey(b, kb)[|OfKey(b, kb)| - 1] == lb;
      forall k ensures OfKey(ia, k) == OfKey(ib, k) {
        AppendRecord(ia, la, k);
        AppendRecord(ib, lb, k);
        assert OfKey(a, k) == OfKey(b, k);
        if k == ka {
          assert OfKey(ia, k) == OfKey(a, k)[..|OfKey(a, k)| - 1];
          assert OfKey(ib, k) == OfKey(b, k)[..|OfKey(b, k)| - 1];
        }
      }
      SortedUnique(ia, ib);
    }
  }

  lemma {:induction false} LastHasLargestKey(rs: seq<Record>, k: Key)
    requires rs != [] && Sorted(rs) && OfKey(rs, k) != []
    ensures Leq(k, KeyOf(rs[|rs| - 1]))
  {
    var last := rs[|rs| - 1];
    KeyTotal(KeyOf(last), KeyOf(last));
    if !Leq(k, KeyOf(last)) {
      BelowNoKey(rs[..|rs| - 1], KeyOf(last), k);
    }
  }

  /** Whatever order they were collected in, equal contents per key sort to the same artifact. */
  lemma {:induction false} SortCanonical(a: seq<Record>, b: seq<Record>)
    requires forall k :: OfKey(a, k) == OfKey(b, k)
    ensures Sort(a) == Sort(b)
  {
    forall k ensures OfKey(Sort(a), k) == OfKey(Sort(b), k) {
      SortStable(a, k);
      SortStable(b, k);
    }
    SortStable(a, Key(0, 0, 0, ""));
    SortStable(b, Key(0, 0, 0, ""));
    SortedUnique(Sort(a), Sort(b));
  }

  // ---------------------------------------------------------------------------------------
  // The order, position by position
  // ---------------------------------------------------------------------------------------

  /** Code-point order: a prefix comes first, and else the smaller character at the first difference. */
  ghost predicate CodePointOrder(a: string, b: string) {
    a <= b || exists k :: 0 <= k < |a| && k < |b| && a[..k] == b[..k] && a[k] < b[k]
  }

  /** Whether `r` may stand before `s` in a published artifact. */
  ghost predicate MayPrecede(r: Record, s: Record) {
    && r.line <= s.line
    && (r.line == s.line ==> r.start <= s.start)
    && (r.line == s.line && r.start == s.start ==> r.end <= s.end)
    && (r.line == s.line && r.start == s.start && r.end == s.end ==> CodePointOrder(r.target, s.target))
  }

  lemma {:induction false} TextIsCodePoints(a: string, b: string)
    requires TextLeq(a, b)
    ensures CodePointOrder(a, b)
  {
    if a == [] || a[0] < b[0] {
      if a != [] { assert a[..0] == b[..0]; }
    } else {
      TextIsCodePoints(a[1..], b[1..]);
      if a[1..] <= b[1..] {
        assert a == [a[0]] + a[1..] && b == [b[0]] + b[1..];
      } else {
        var k :| 0 <= k < |a[1..]| && k < |b[1..]| && a[1..][..k] == b[1..][..k] && a[1..][k] < b[1..][k];
        assert a[..k + 1] == [a[0]] + a[1..][..k] && b[..k + 1] == [b[0]] + b[1..][..k];
      }
    }
  }

  lemma {:induction false} BelowPrecedes(rs: seq<Record>, r: Record)
    requires AllBelow(rs, KeyOf(r))
    ensures forall i :: 0 <= i < |rs| ==> MayPrecede(rs[i], r)
  {
    if rs == [] {
    } else {
      var n := |rs| - 1;
      BelowPrecedes(rs[..n], r);
      if KeyOf(rs[n]).line == r.line && rs[n].start == r.start && rs[n].end == r.end {
        TextIsCodePoints(rs[n].target, r.target);
      }
      forall i | 0 <= i < |rs| ensures MayPrecede(rs[i], r) {
        if i < n { assert rs[..n][i] == rs[i]; }
      }
    }
  }

  lemma {:induction false} SortedPrecedes(rs: seq<Record>)
    requires Sorted(rs)
    ensures forall i, j :: 0 <= i < j < |rs| ==> MayPrecede(rs[i], rs[j])
  {
    if rs == [] {
    } else {
      var n := |rs| - 1;
      SortedPrecedes(rs[..n]);
      BelowPrecedes(rs[..n], rs[n]);
      forall i, j | 0 <= i < j < |rs| ensures MayPrecede(rs[i], rs[j]) {
        assert rs[..n][i] == rs[i];
        if j < n { assert rs[..n][j] == rs[j]; }
      }
    }
  }

  lemma {:induction false} InsertKeeps(sorted: seq<Record>, r: Record)
    ensures multiset(Insert(sorted, r)) == multiset(sorted) + multiset{r}
  {
    if sorted == [] || Leq(KeyOf(sorted[|sorted| - 1]), KeyOf(r)) {
    } else {
      var n := |sorted| - 1;
      InsertKeeps(sorted[..n], r);
      assert sorted == sorted[..n] + [sorted[n]];
    }
  }

  lemma {:induction false} SortKeeps(rs: seq<Record>)
    ensures multiset(Sort(rs)) == multiset(rs)
  {
    if rs == [] {
    } else {
      var init, last := rs[..|rs| - 1], rs[|rs| - 1];
      SortKeeps(init);
      InsertKeeps(Sort(init), last);
      assert multiset(rs) == multiset(init) + multiset{last} by {
        assert rs == init + [last];
      }
    }
  }

  /** A sorted artifact holds just the records sorted, by line, then by offsets, then by target. */
  lemma {:induction false} SortOrders(rs: seq<Record>)
    ensures multiset(Sort(rs)) == multiset(rs)
    ensures forall i, j :: 0 <= i < j < |Sort(rs)| ==> MayPrecede(Sort(rs)[i], Sort(rs)[j])
  {
    SortStable(rs, Key(0, 0, 0, ""));
    SortedPrecedes(Sort(rs));
    SortKeeps(rs);
  }

  /** Records that agree in line, offsets and target, in the order they were collected. */
  lemma {:induction false} OfKeyFilters(rs: seq<Record>, r: Record, k: Key)
    ensures OfKey([], k) == []
    ensures OfKey(rs + [r], k) ==
      if r.line == k.line && r.start == k.start && r.end == k.end && r.target == k.target then OfKey(rs, k) + [r]
      else OfKey(rs, k)
  {
    AppendRecord(rs, r, k);
  }
}
