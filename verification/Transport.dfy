/** Content-bounded NER/resolver batches: `transport_batches` and `transport_seams`. */
module Transport {
  import opened Prelude

  /** One snapshot row: user-visible line index, stored content and location context. */
  datatype Row = Row(index: nat, content: string, context: string)

  /** LINKER_BATCH_LINES and LINKER_BATCH_CHARS. */
  datatype Limits = Limits(lines: int, chars: int)

  /** `start` is the position of the first row in the book, not its line index. */
  datatype Batch = Batch(start: nat, rows: seq<Row>)

  /** Which rows reach the NER: `None` selects all, and only eligible content is ever sent. */
  datatype Selection = Selection(lines: Option<set<nat>>, eligible: string -> bool) {
    predicate Takes(row: Row) {
      (lines.Some? ==> row.index in lines.value) && eligible(row.content)
    }
  }

  function Chosen(rows: seq<Row>, sel: Selection): seq<Row> {
    if rows == [] then []
    else
      var init, last := rows[..|rows| - 1], rows[|rows| - 1];
      if sel.Takes(last) then Chosen(init, sel) + [last] else Chosen(init, sel)
  }

  function Chars(rows: seq<Row>): nat {
    if rows == [] then 0 else Chars(rows[..|rows| - 1]) + |rows[|rows| - 1].content|
  }

  function Flatten(bs: seq<Batch>): seq<Row> {
    if bs == [] then [] else Flatten(bs[..|bs| - 1]) + bs[|bs| - 1].rows
  }

  /** Whether an open batch takes one more row. */
  predicate Room(open: seq<Row>, row: Row, lim: Limits) {
    |open| < lim.lines && Chars(open) + |row.content| <= lim.chars
  }

  /** The batches of a book, the last one still open. */
  function Batches(rows: seq<Row>, sel: Selection, lim: Limits): seq<Batch> {
    if rows == [] then []
    else
      var init, last := rows[..|rows| - 1], rows[|rows| - 1];
      var bs := Batches(init, sel, lim);
      if sel.Takes(last) then Feed(bs, |init|, last, lim) else bs
  }

  function Feed(bs: seq<Batch>, position: nat, row: Row, lim: Limits): seq<Batch> {
    if bs != [] && Room(bs[|bs| - 1].rows, row, lim) then
      bs[..|bs| - 1] + [Batch(bs[|bs| - 1].start, bs[|bs| - 1].rows + [row])]
    else
      bs + [Batch(position, [row])]
  }

  /** A batch respects both limits unless it is a single, possibly over-budget, row. */
  predicate Bounded(rows: seq<Row>, lim: Limits) {
    |rows| == 1 || (1 < |rows| <= lim.lines && Chars(rows) <= lim.chars)
  }

  /** Every batch is bounded, starts at its first row, and the row opening a later batch
      would not have fitted into the batch before it. */
  ghost predicate GreedyCut(bs: seq<Batch>, rows: seq<Row>, lim: Limits) {
    && (forall k :: 0 <= k < |bs| ==> Bounded(bs[k].rows, lim))
    && (forall k :: 0 <= k < |bs| ==> bs[k].start < |rows| && rows[bs[k].start] == bs[k].rows[0])
    && (forall k :: 0 < k < |bs| ==> !Room(bs[k - 1].rows, bs[k].rows[0], lim))
  }

  /** The rows of a book are stored in strictly increasing line-index order. */
  ghost predicate Ordered(rows: seq<Row>) {
    forall i, j :: 0 <= i < j < |rows| ==> rows[i].index < rows[j].index
  }

  lemma {:induction false} CharsAppend(rows: seq<Row>, row: Row)
    ensures Chars(rows + [row]) == Chars(rows) + |row.content|
  {
    assert (rows + [row])[..|rows|] == rows;
  }

  lemma {:induction false} FlattenAppend(bs: seq<Batch>, b: Batch)
    ensures Flatten(bs + [b]) == Flatten(bs) + b.rows
  {
    assert (bs + [b])[..|bs|] == bs;
  }

  lemma {:induction false} FeedFlattens(bs: seq<Batch>, position: nat, row: Row, lim: Limits)
    ensures Flatten(Feed(bs, position, row, lim)) == Flatten(bs) + [row]
  {
    if bs != [] && Room(bs[|bs| - 1].rows, row, lim) {
      var n := |bs| - 1;
      FlattenAppend(bs[..n], Batch(bs[n].start, bs[n].rows + [row]));
    } else {
      FlattenAppend(bs, Batch(position, [row]));
    }
  }

  lemma {:induction false} FeedCuts(bs: seq<Batch>, rows: seq<Row>, row: Row, lim: Limits)
    requires GreedyCut(bs, rows, lim)
    ensures GreedyCut(Feed(bs, |rows|, row, lim), rows + [row], lim)
  {
    var longer := rows + [row];
    forall k | 0 <= k < |bs| ensures longer[bs[k].start] == bs[k].rows[0] {}
    if bs != [] {
      CharsAppend(bs[|bs| - 1].rows, row);
    }
  }

  /** Nothing is lost, reordered or sent twice, and the cut is greedy within both limits. */
  lemma {:induction false} BatchesCut(rows: seq<Row>, sel: Selection, lim: Limits)
    ensures Flatten(Batches(rows, sel, lim)) == Chosen(rows, sel)
    ensures GreedyCut(Batches(rows, sel, lim), rows, lim)
  {
    if rows == [] {
    } else {
      var init, last := rows[..|rows| - 1], rows[|rows| - 1];
      var bs := Batches(init, sel, lim);
      BatchesCut(init, sel, lim);
      assert rows == init + [last];
      if sel.Takes(last) {
        FeedFlattens(bs, |init|, last, lim);
        FeedCuts(bs, init, last, lim);
      } else {
        WiderBook(bs, init, last, lim);
      }
    }
  }

  lemma {:induction false} WiderBook(bs: seq<Batch>, rows: seq<Row>, row: Row, lim: Limits)
    requires GreedyCut(bs, rows, lim)
    ensures GreedyCut(bs, rows + [row], lim)
  {
    forall k | 0 <= k < |bs| ensures (rows + [row])[bs[k].start] == bs[k].rows[0] {}
  }

  /** Remove the last row sent. */
  function Trim(bs: seq<Batch>): seq<Batch>
    requires bs != [] && bs[|bs| - 1].rows != []
  {
    var n := |bs| - 1;
    var rest := bs[n].rows[..|bs[n].rows| - 1];
    if rest == [] then bs[..n] else bs[..n] + [Batch(bs[n].start, rest)]
  }

  lemma {:induction false} TrimFlattens(bs: seq<Batch>)
    requires bs != [] && bs[|bs| - 1].rows != []
    ensures Flatten(bs) == Flatten(Trim(bs)) + [bs[|bs| - 1].rows[|bs[|bs| - 1].rows| - 1]]
  {
    var n := |bs| - 1;
    var m := |bs[n].rows| - 1;
    assert bs[n].rows == bs[n].rows[..m] + [bs[n].rows[m]];
    if bs[n].rows[..m] != [] {
      FlattenAppend(bs[..n], Batch(bs[n].start, bs[n].rows[..m]));
    }
  }

  /** Trimming and re-feeding the last row rebuilds a greedy cut. */
  lemma {:induction false} RefeedTrimmed(bs: seq<Batch>, rows: seq<Row>, row: Row, lim: Limits)
    requires Ordered(rows + [row]) && GreedyCut(bs, rows + [row], lim)
    requires bs != [] && bs[|bs| - 1].rows[|bs[|bs| - 1].rows| - 1] == row
    ensures Feed(Trim(bs), |rows|, row, lim) == bs
  {
    var n := |bs| - 1;
    var m := |bs[n].rows| - 1;
    var longer := rows + [row];
    assert bs[n].rows == bs[n].rows[..m] + [row];
    CharsAppend(bs[n].rows[..m], row);
    if m == 0 {
      assert longer[bs[n].start] == row == longer[|rows|];
      assert bs[n] == Batch(|rows|, [row]);
      assert bs == bs[..n] + [bs[n]];
    } else {
      assert Room(bs[n].rows[..m], row, lim);
      assert bs == bs[..n] + [bs[n]];
    }
  }

  lemma {:induction false} TrimCuts(bs: seq<Batch>, rows: seq<Row>, lim: Limits)
    requires bs != [] && GreedyCut(bs, rows, lim)
    ensures GreedyCut(Trim(bs), rows, lim)
  {
    var n := |bs| - 1;
    var m := |bs[n].rows| - 1;
    assert bs[n].rows == bs[n].rows[..m] + [bs[n].rows[m]];
    CharsAppend(bs[n].rows[..m], bs[n].rows[m]);
    assert forall k :: 0 <= k < n ==> Trim(bs)[k] == bs[k];
  }

  lemma {:induction false} FlattenHas(bs: seq<Batch>, k: nat)
    requires k < |bs|
    ensures forall r :: r in bs[k].rows ==> r in Flatten(bs)
  {
    var n := |bs| - 1;
    if k < n {
      FlattenHas(bs[..n], k);
    }
  }

  lemma {:induction false} ChosenSubset(rows: seq<Row>, sel: Selection)
    ensures forall r :: r in Chosen(rows, sel) ==> sel.Takes(r) && r in rows
  {
    if rows == [] {
    } else {
      ChosenSubset(rows[..|rows| - 1], sel);
    }
  }

  lemma {:induction false} SameLastRow(a: seq<Row>, x: Row, b: seq<Row>, y: Row)
    requires a + [x] == b + [y]
    ensures a == b && x == y
  {
    assert |a| == |b|;
    assert a == (a + [x])[..|a|] && b == (b + [y])[..|b|];
    assert x == (a + [x])[|a|] && y == (b + [y])[|b|];
  }

  lemma {:induction false} NarrowerBook(bs: seq<Batch>, rows: seq<Row>, row: Row, lim: Limits)
    requires GreedyCut(bs, rows + [row], lim) && row !in Flatten(bs)
    ensures GreedyCut(bs, rows, lim)
  {
    forall k | 0 <= k < |bs| ensures bs[k].start < |rows| {
      FlattenHas(bs, k);
    }
  }

  /** The last row sent can be taken back, and fed again. */
  lemma {:induction false} LastFed(init: seq<Row>, last: Row, sel: Selection, lim: Limits, bs: seq<Batch>)
    requires Ordered(init + [last]) && last !in Chosen(init, sel)
    requires Flatten(bs) == Chosen(init, sel) + [last] && GreedyCut(bs, init + [last], lim)
    ensures bs != [] && bs[|bs| - 1].rows != [] && Flatten(Trim(bs)) == Chosen(init, sel)
    ensures GreedyCut(Trim(bs), init, lim) && Feed(Trim(bs), |init|, last, lim) == bs
  {
    TrimFlattens(bs);
    var sent := bs[|bs| - 1].rows[|bs[|bs| - 1].rows| - 1];
    SameLastRow(Flatten(Trim(bs)), sent, Chosen(init, sel), last);
    TrimCuts(bs, init + [last], lim);
    NarrowerBook(Trim(bs), init, last, lim);
    RefeedTrimmed(bs, init, last, lim);
  }

  lemma {:induction false} OneMoreRow(init: seq<Row>, last: Row, sel: Selection, lim: Limits)
    ensures Chosen(init + [last], sel) == if sel.Takes(last) then Chosen(init, sel) + [last] else Chosen(init, sel)
    ensures Batches(init + [last], sel, lim) ==
      var bs := Batches(init, sel, lim);
      if sel.Takes(last) then Feed(bs, |init|, last, lim) else bs
  {
    assert (init + [last])[..|init|] == init;
  }

  lemma {:induction false} UniqueOn(init: seq<Row>, last: Row, sel: Selection, lim: Limits, bs: seq<Batch>)
    requires Ordered(init + [last]) && last !in Chosen(init, sel)
    requires Flatten(bs) == Chosen(init + [last], sel) && GreedyCut(bs, init + [last], lim)
    ensures sel.Takes(last) ==>
      && bs != [] && bs[|bs| - 1].rows != [] && Flatten(Trim(bs)) == Chosen(init, sel) && GreedyCut(Trim(bs), init, lim)
      && Feed(Trim(bs), |init|, last, lim) == bs
    ensures !sel.Takes(last) ==> Flatten(bs) == Chosen(init, sel) && GreedyCut(bs, init, lim)
  {
    OneMoreRow(init, last, sel, lim);
    if sel.Takes(last) {
      LastFed(init, last, sel, lim, bs);
    } else {
      NarrowerBook(bs, init, last, lim);
    }
  }

  /** The properties of `BatchesCut` leave no freedom: they hold of one list of batches only. */
  lemma {:induction false} BatchesUnique(rows: seq<Row>, sel: Selection, lim: Limits, bs: seq<Batch>)
    requires Ordered(rows)
    requires Flatten(bs) == Chosen(rows, sel) && GreedyCut(bs, rows, lim)
    ensures bs == Batches(rows, sel, lim)
  {
    if rows == [] {
      EmptyCut(bs);
    } else {
      var init, last := rows[..|rows| - 1], rows[|rows| - 1];
      assert rows == init + [last];
      OneMoreRow(init, last, sel, lim);
      LastIsNew(init, last, sel);
      UniqueOn(init, last, sel, lim, bs);
      BatchesUnique(init, sel, lim, if sel.Takes(last) then Trim(bs) else bs);
    }
  }

  lemma {:induction false} LastIsNew(init: seq<Row>, last: Row, sel: Selection)
    requires Ordered(init + [last])
    ensures Ordered(init) && last !in Chosen(init, sel)
  {
    var all := init + [last];
    ChosenSubset(init, sel);
    forall i | 0 <= i < |init| ensures init[i].index < last.index { assert all[i] == init[i] && all[|init|] == last; }
    forall i, j | 0 <= i < j < |init| ensures init[i].index < init[j].index {
      assert all[i] == init[i] && all[j] == init[j];
    }
  }

  /** Batches are never empty. */
  lemma {:induction false} EmptyCut(bs: seq<Batch>)
    requires Flatten(bs) == [] && forall k :: 0 <= k < |bs| ==> bs[k].rows != []
    ensures bs == []
  {
    if bs != [] { assert false; }
  }

  ghost predicate StartsIncrease(bs: seq<Batch>, n: nat) {
    && (forall k :: 0 <= k < |bs| ==> bs[k].start < n)
    && (forall i, k :: 0 <= i < k < |bs| ==> bs[i].start < bs[k].start)
  }

  lemma {:induction false} FeedStarts(bs: seq<Batch>, position: nat, row: Row, lim: Limits)
    requires StartsIncrease(bs, position)
    ensures StartsIncrease(Feed(bs, position, row, lim), position + 1)
  {
    var fed := Feed(bs, position, row, lim);
    assert forall k :: 0 <= k < |fed| ==> fed[k].start == if k < |bs| then bs[k].start else position;
  }

  /** Batch starts strictly increase, so a start names its batch. */
  lemma {:induction false} BatchStarts(rows: seq<Row>, sel: Selection, lim: Limits)
    ensures StartsIncrease(Batches(rows, sel, lim), |rows|)
  {
    if rows == [] {
    } else {
      var n := |rows| - 1;
      BatchStarts(rows[..n], sel, lim);
      FeedStarts(Batches(rows[..n], sel, lim), n, rows[n], lim);
    }
  }

  lemma {:induction false} BatchesStep(rows: seq<Row>, position: nat, sel: Selection, lim: Limits)
    requires position < |rows|
    ensures Batches(rows[..position + 1], sel, lim) ==
            var bs := Batches(rows[..position], sel, lim);
            if sel.Takes(rows[position]) then Feed(bs, position, rows[position], lim) else bs
  {
    assert rows[..position + 1][..position] == rows[..position];
  }

  method TransportBatches(rows: seq<Row>, sel: Selection, lim: Limits) returns (batches: seq<Batch>)
    ensures batches == Batches(rows, sel, lim)
  {
    batches := [];
    var batch: seq<Row> := [];
    var batchChars := 0;
    var batchStart: nat := 0;
    for position := 0 to |rows|
      invariant Batches(rows[..position], sel, lim) ==
                if batch == [] then batches else batches + [Batch(batchStart, batch)]
      invariant batch == [] ==> batches == []
      invariant batchChars == Chars(batch)
    {
      var row := rows[position];
      BatchesStep(rows, position, sel, lim);
      if sel.Takes(row) {
        var size := |row.content|;
        if batch != [] && (|batch| >= lim.lines || batchChars + size > lim.chars) {
          batches := batches + [Batch(batchStart, batch)];
          batch, batchChars := [], 0;
        }
        if batch == [] {
          batchStart := position;
        }
        CharsAppend(batch, row);
        batch := batch + [row];
        batchChars := batchChars + size;
      }
    }
    assert rows[..|rows|] == rows;
    if batch != [] {
      batches := batches + [Batch(batchStart, batch)];
    }
  }

  /** The line opening each batch after the first, over the whole book. */
  function Seams(rows: seq<Row>, eligible: string -> bool, lim: Limits): set<nat> {
    OpeningLines(Batches(rows, Selection(None, eligible), lim))
  }

  function OpeningLines(bs: seq<Batch>): set<nat> {
    if |bs| <= 1 then {}
    else
      var last := bs[|bs| - 1].rows;
      OpeningLines(bs[..|bs| - 1]) + (if last == [] then {} else {last[0].index})
  }
}
