/** From a line plan to a book's artifact: the linked batches plus the records reused from the prior
    artifact (`process_book_checkpointed` without its checkpoints). */
module Linking {
  import opened Prelude
  import opened Transport
  import opened Artifact
  import opened Ibid
  import opened ContextProbe
  import opened Handoff
  import LineMatch

  // ---------------------------------------------------------------------------------------
  // Records of linked lines
  // ---------------------------------------------------------------------------------------

  /** A link of a row as a record: relative citations alone keep the row's context. */
  function Stamp(row: Row, s: LinkSpan): Record {
    Record(row.index, s.start, s.end, s.target, row.content,
           if s.direction.Some? then Some(row.context) else None, s.direction)
  }

  function Stamps(row: Row, spans: seq<LinkSpan>): seq<Record> {
    if spans == [] then [] else Stamps(row, spans[..|spans| - 1]) + [Stamp(row, spans[|spans| - 1])]
  }

  /** The records of the rows sent, in row order. */
  function Emitted(p: Pass, rows: seq<Row>): seq<Record> {
    if rows == [] then []
    else
      var row := rows[|rows| - 1];
      Emitted(p, rows[..|rows| - 1]) + Stamps(row, SpansAt(p, row.index))
  }

  /** The links of a line that carry one key. */
  function KeySpans(spans: seq<LinkSpan>, k: Key): seq<LinkSpan> {
    if spans == [] then []
    else
      var s := spans[|spans| - 1];
      KeySpans(spans[..|spans| - 1], k)
      + if s.start == k.start && s.end == k.end && s.target == k.target then [s] else []
  }

  lemma {:induction false} StampsAppend(row: Row, spans: seq<LinkSpan>, s: LinkSpan)
    ensures Stamps(row, spans + [s]) == Stamps(row, spans) + [Stamp(row, s)]
  {
    assert (spans + [s])[..|spans|] == spans;
  }

  lemma {:induction false} StampsKey(row: Row, spans: seq<LinkSpan>, k: Key)
    ensures OfKey(Stamps(row, spans), k) == if row.index == k.line then Stamps(row, KeySpans(spans, k)) else []
  {
    if spans == [] {
    } else {
      var init, s := spans[..|spans| - 1], spans[|spans| - 1];
      StampsKey(row, init, k);
      AppendRecord(Stamps(row, init), Stamp(row, s), k);
      StampsAppend(row, KeySpans(init, k), s);
      assert KeySpans(init, k) + [] == KeySpans(init, k);
    }
  }

  lemma {:induction false} LastRowKey(p: Pass, rows: seq<Row>, k: Key)
    requires rows != []
    ensures var row, init := rows[|rows| - 1], OfKey(Emitted(p, rows[..|rows| - 1]), k);
      OfKey(Emitted(p, rows), k) ==
        if row.index == k.line then init + Stamps(row, KeySpans(SpansAt(p, k.line), k)) else init
  {
    var row := rows[|rows| - 1];
    OfKeyConcat(Emitted(p, rows[..|rows| - 1]), Stamps(row, SpansAt(p, row.index)), k);
    StampsKey(row, SpansAt(p, row.index), k);
  }

  lemma {:induction false} NoRowNoRecord(p: Pass, rows: seq<Row>, k: Key)
    requires forall j :: 0 <= j < |rows| ==> rows[j].index != k.line
    ensures OfKey(Emitted(p, rows), k) == []
  {
    if rows == [] {
    } else {
      NoRowNoRecord(p, rows[..|rows| - 1], k);
      LastRowKey(p, rows, k);
    }
  }

  /** What a list of rows emits under one key stands on the row of that line. */
  lemma {:induction false} EmittedKey(p: Pass, rows: seq<Row>, j: nat, k: Key)
    requires Ordered(rows) && j < |rows| && rows[j].index == k.line
    ensures OfKey(Emitted(p, rows), k) == Stamps(rows[j], KeySpans(SpansAt(p, k.line), k))
  {
    LastRowKey(p, rows, k);
    if j < |rows| - 1 {
      EmittedKey(p, rows[..|rows| - 1], j, k);
    } else {
      NoRowNoRecord(p, rows[..|rows| - 1], k);
      var stamps := Stamps(rows[j], KeySpans(SpansAt(p, k.line), k));
      assert [] + stamps == stamps;
    }
  }

  // ---------------------------------------------------------------------------------------
  // Each line of a pass was linked from some state
  // ---------------------------------------------------------------------------------------

  ghost predicate LinkedBy(b: Book, rows: seq<Row>, p: Pass, row: Row) {
    row.index in p.links && exists s: State :: p.links[row.index] == Step(b, rows, s, row).spans
  }

  lemma {:induction false} RunRowsLinked(b: Book, rows: seq<Row>, p: Pass, batch: seq<Row>)
    requires Ordered(batch)
    ensures forall r :: r in batch ==> LinkedBy(b, rows, RunRows(b, rows, p, batch), r)
    ensures forall i :: (forall j :: 0 <= j < |batch| ==> batch[j].index != i) ==>
              (i in RunRows(b, rows, p, batch).links <==> i in p.links)
              && (i in p.links ==> RunRows(b, rows, p, batch).links[i] == p.links[i])
  {
    if batch == [] {
    } else {
      var n := |batch| - 1;
      var q := RunRows(b, rows, p, batch[..n]);
      RunRowsLinked(b, rows, p, batch[..n]);
      var done := RunRows(b, rows, p, batch);
      assert done.links[batch[n].index] == Step(b, rows, q.state, batch[n]).spans;
      forall r | r in batch ensures LinkedBy(b, rows, done, r) {
        if r != batch[n] {
          assert r in batch[..n];
          assert LinkedBy(b, rows, q, r);
          assert r.index != batch[n].index;
          assert done.links[r.index] == q.links[r.index];
        }
      }
    }
  }

  lemma {:induction false} OrderedParts(a: seq<Row>, c: seq<Row>)
    requires Ordered(a + c)
    ensures Ordered(a) && Ordered(c)
    ensures forall i, j :: 0 <= i < |a| && 0 <= j < |c| ==> a[i].index < c[j].index
  {
    var all := a + c;
    assert forall i :: 0 <= i < |a| ==> all[i] == a[i];
    assert forall j :: 0 <= j < |c| ==> all[|a| + j] == c[j];
  }

  ghost predicate OnlyRows(p: Pass, rows: seq<Row>) {
    forall i :: i in p.links ==> exists j :: 0 <= j < |rows| && rows[j].index == i
  }

  lemma {:induction false} RunBatchesLinked(b: Book, rows: seq<Row>, stateful: bool, bs: seq<Batch>)
    requires Ordered(Flatten(bs))
    ensures forall r :: r in Flatten(bs) ==> LinkedBy(b, rows, RunBatches(b, rows, stateful, bs), r)
    ensures OnlyRows(RunBatches(b, rows, stateful, bs), Flatten(bs))
  {
    if bs == [] {
    } else {
      var n := |bs| - 1;
      var before, last := Flatten(bs[..n]), bs[n].rows;
      OrderedParts(before, last);
      RunBatchesLinked(b, rows, stateful, bs[..n]);
      var p := RunBatches(b, rows, stateful, bs[..n]);
      var q := p.(state := Cross(b, stateful, p.state));
      RunRowsLinked(b, rows, q, last);
      BatchKeepsLinked(b, rows, p, q, before, last);
    }
  }

  lemma {:induction false} BatchKeepsLinked(b: Book, rows: seq<Row>, p: Pass, q: Pass, before: seq<Row>, last: seq<Row>)
    requires Ordered(before + last) && q.links == p.links
    requires forall r :: r in before ==> LinkedBy(b, rows, p, r)
    requires OnlyRows(p, before)
    ensures forall r :: r in before + last ==> LinkedBy(b, rows, RunRows(b, rows, q, last), r)
    ensures OnlyRows(RunRows(b, rows, q, last), before + last)
  {
    OrderedParts(before, last);
    RunRowsLinked(b, rows, q, last);
    var done := RunRows(b, rows, q, last);
    forall r | r in before ensures LinkedBy(b, rows, done, r) {
      assert LinkedBy(b, rows, p, r);
      var i :| 0 <= i < |before| && before[i] == r;
      assert forall j :: 0 <= j < |last| ==> last[j].index != r.index;
      assert done.links[r.index] == p.links[r.index];
    }
    forall i | i in done.links ensures exists j :: 0 <= j < |before + last| && (before + last)[j].index == i {
      if j :| 0 <= j < |last| && last[j].index == i {
        assert (before + last)[|before| + j].index == i;
      } else {
        assert i in p.links;
        var j :| 0 <= j < |before| && before[j].index == i;
        assert (before + last)[j].index == i;
      }
    }
  }

  // ---------------------------------------------------------------------------------------
  // The pass over a selection of lines
  // ---------------------------------------------------------------------------------------

  function LinesPass(b: Book, rows: seq<Row>, stateful: bool, lines: Option<set<nat>>): Pass {
    RunBatches(b, rows, stateful, Batches(rows, Selection(lines, b.linker.eligible), b.limits))
  }

  lemma {:induction false} ChosenOrdered(rows: seq<Row>, sel: Selection)
    requires Ordered(rows)
    ensures Ordered(Chosen(rows, sel))
    ensures forall r :: r in Chosen(rows, sel) <==> r in rows && sel.Takes(r)
  {
    if rows == [] {
    } else {
      var init, row := rows[..|rows| - 1], rows[|rows| - 1];
      ChosenOrdered(init, sel);
      assert rows == init + [row];
      var chosen := Chosen(init, sel);
      forall k | 0 <= k < |chosen| ensures chosen[k].index < row.index { assert chosen[k] in init; }
    }
  }

  /** A selected eligible row was linked from some state; any other row has no links. */
  lemma {:induction false} LinesPassAt(b: Book, rows: seq<Row>, stateful: bool, lines: Option<set<nat>>, r: Row)
    requires Ordered(rows) && r in rows
    ensures var p := LinesPass(b, rows, stateful, lines);
            if Selection(lines, b.linker.eligible).Takes(r) then LinkedBy(b, rows, p, r) else SpansAt(p, r.index) == []
  {
    var sel := Selection(lines, b.linker.eligible);
    BatchesCut(rows, sel, b.limits);
    ChosenOrdered(rows, sel);
    RunBatchesLinked(b, rows, stateful, Batches(rows, sel, b.limits));
    var p := LinesPass(b, rows, stateful, lines);
    if !sel.Takes(r) && r.index in p.links {
      var chosen := Chosen(rows, sel);
      var j :| 0 <= j < |chosen| && chosen[j].index == r.index;
      assert chosen[j] in rows;
      SameRow(rows, chosen[j], r);
    }
  }

  /** The planner's assumption: a line without the ibid token links the same under any history. */
  ghost predicate HistoryFree(b: Book) {
    forall q: Query, r: Query :: SameSource(b, q, r) ==> b.linker.resolve(q).spans == b.linker.resolve(r).spans
  }

  predicate SameSource(b: Book, q: Query, r: Query) {
    q.content == r.content && q.context == r.context && q.position == r.position && !b.linker.mentionsIbid(q.content)
  }

  /** The links of a line that needs no history. */
  function Alone(b: Book, row: Row): seq<LinkSpan> {
    if HasEntity(b, row) then b.linker.resolve(Query(FRESH, None, None, false, row.content, row.context, None)).spans
    else []
  }

  lemma {:induction false} StepAlone(b: Book, rows: seq<Row>, s: State, r: Row)
    requires HistoryFree(b) && !b.placedByDafHeadings && !b.linker.mentionsIbid(r.content)
        && b.linker.eligible(r.content)
    ensures Step(b, rows, s, r).spans == Alone(b, r)
  {
    if HasEntity(b, r) {
      var q := Query(FRESH, None, None, false, r.content, r.context, None);
      assert SameSource(b, Ask(b, rows, s, r), q);
    }
  }

  lemma {:induction false} LinkedAlone(b: Book, rows: seq<Row>, stateful: bool, lines: Option<set<nat>>, r: Row)
    requires Ordered(rows) && r in rows && HistoryFree(b) && !b.placedByDafHeadings
    requires !b.linker.mentionsIbid(r.content)
    requires lines.Some? ==> r.index in lines.value
    ensures SpansAt(LinesPass(b, rows, stateful, lines), r.index) == Alone(b, r)
  {
    LinesPassAt(b, rows, stateful, lines, r);
    if b.linker.eligible(r.content) {
      var p := LinesPass(b, rows, stateful, lines);
      var s: State :| p.links[r.index] == Step(b, rows, s, r).spans;
      StepAlone(b, rows, s, r);
    }
  }

  /** Rows that are not sent add nothing, so emitting all rows is the same. */
  lemma {:induction false} EmitAll(p: Pass, rows: seq<Row>, sel: Selection)
    requires forall r :: r in rows && !sel.Takes(r) ==> SpansAt(p, r.index) == []
    ensures Emitted(p, Chosen(rows, sel)) == Emitted(p, rows)
  {
    if rows == [] {
    } else {
      var init, row := rows[..|rows| - 1], rows[|rows| - 1];
      EmitAll(p, init, sel);
      var chosen := Chosen(init, sel);
      assert (chosen + [row])[..|chosen|] == chosen;
    }
  }

  lemma {:induction false} EmitLinesPass(b: Book, rows: seq<Row>, stateful: bool, lines: Option<set<nat>>)
    requires Ordered(rows)
    ensures var p := LinesPass(b, rows, stateful, lines);
            Emitted(p, Chosen(rows, Selection(lines, b.linker.eligible))) == Emitted(p, rows)
  {
    var p := LinesPass(b, rows, stateful, lines);
    var sel := Selection(lines, b.linker.eligible);
    forall r | r in rows && !sel.Takes(r) ensures SpansAt(p, r.index) == [] {
      LinesPassAt(b, rows, stateful, lines, r);
    }
    EmitAll(p, rows, sel);
  }

  // ---------------------------------------------------------------------------------------
  // Records reused from the prior artifact
  // ---------------------------------------------------------------------------------------

  function ReuseByOld(reuse: seq<Pair>): map<nat, nat> {
    if reuse == [] then map[] else ReuseByOld(reuse[..|reuse| - 1])[reuse[|reuse| - 1].from := reuse[|reuse| - 1].to]
  }

  function CurrentByIndex(rows: seq<Row>): map<nat, Row> {
    if rows == [] then map[] else CurrentByIndex(rows[..|rows| - 1])[rows[|rows| - 1].index := rows[|rows| - 1]]
  }

  /** Whether a record may stand on a row: same source text, and same context if it kept one. */
  predicate Belongs(r: Record, row: Row) {
    r.source == row.content && (r.context.Some? ==> r.context.value == row.context)
  }

  /** The prior records of reused lines, moved to their new lines. */
  function Relabelled(moved: map<nat, nat>, texts: map<nat, Row>, prior: seq<Record>): Result<seq<Record>>
    requires moved.Values <= texts.Keys
  {
    if prior == [] then Ok([])
    else
      var r := prior[|prior| - 1];
      match Relabelled(moved, texts, prior[..|prior| - 1])
      case Raised(e) => Raised(e)
      case Ok(rs) =>
        if r.line !in moved then Ok(rs)
        else
          assert moved[r.line] in moved.Values;
          if !Belongs(r, texts[moved[r.line]]) then Raised("reused artifact source or context mismatch")
          else Ok(rs + [r.(line := moved[r.line])])
  }

  method ReusedRecords(moved: map<nat, nat>, texts: map<nat, Row>, prior: seq<Record>) returns (r: Result<seq<Record>>)
    requires moved.Values <= texts.Keys
    ensures r == Relabelled(moved, texts, prior)
  {
    var reused: seq<Record> := [];
    for k := 0 to |prior|
      invariant Relabelled(moved, texts, prior[..k]) == Ok(reused)
    {
      var record := prior[k];
      assert prior[..k + 1][..k] == prior[..k];
      if record.line in moved {
        var line := moved[record.line];
        assert line in moved.Values;
        if !Belongs(record, texts[line]) {
          RelabelRaises(moved, texts, prior, k + 1);
          return Raised("reused artifact source or context mismatch");
        }
        reused := reused + [record.(line := line)];
      }
    }
    assert prior[..|prior|] == prior;
    return Ok(reused);
  }

  lemma {:induction false} RelabelRaises(moved: map<nat, nat>, texts: map<nat, Row>, prior: seq<Record>, k: nat)
    requires moved.Values <= texts.Keys && k <= |prior|
    ensures Relabelled(moved, texts, prior[..k]).Raised? ==>
        Relabelled(moved, texts, prior) == Relabelled(moved, texts, prior[..k])
  {
    if k == |prior| {
      assert prior[..k] == prior;
    } else {
      var n := |prior| - 1;
      assert prior[..n][..k] == prior[..k];
      RelabelRaises(moved, texts, prior[..n], k);
    }
  }

  function MoveTo(rs: seq<Record>, line: nat): seq<Record> {
    if rs == [] then [] else MoveTo(rs[..|rs| - 1], line) + [rs[|rs| - 1].(line := line)]
  }

  /** Under a key of a reused line, relabelling moves exactly the old line's records. */
  lemma {:induction false} RelabelKey(moved: map<nat, nat>, texts: map<nat, Row>, prior: seq<Record>, k: Key, from: nat)
    requires moved.Values <= texts.Keys
    requires from in moved && moved[from] == k.line && forall o :: o in moved && moved[o] == k.line ==> o == from
    requires Relabelled(moved, texts, prior).Ok?
    ensures OfKey(Relabelled(moved, texts, prior).value, k) == MoveTo(OfKey(prior, k.(line := from)), k.line)
  {
    if prior == [] {
    } else {
      var init, r := prior[..|prior| - 1], prior[|prior| - 1];
      RelabelKey(moved, texts, init, k, from);
      if r.line in moved {
        AppendRecord(Relabelled(moved, texts, init).value, r.(line := moved[r.line]), k);
      }
      var olds := OfKey(init, k.(line := from));
      assert (olds + [r])[..|olds|] == olds;
    }
  }

  lemma {:induction false} RelabelOther(moved: map<nat, nat>, texts: map<nat, Row>, prior: seq<Record>, k: Key)
    requires moved.Values <= texts.Keys
    requires forall o :: o in moved ==> moved[o] != k.line
    requires Relabelled(moved, texts, prior).Ok?
    ensures OfKey(Relabelled(moved, texts, prior).value, k) == []
  {
    if prior == [] {
    } else {
      var init, r := prior[..|prior| - 1], prior[|prior| - 1];
      RelabelOther(moved, texts, init, k);
      if r.line in moved {
        AppendRecord(Relabelled(moved, texts, init).value, r.(line := moved[r.line]), k);
      }
    }
  }

  lemma {:induction false} RelabelSucceeds(moved: map<nat, nat>, texts: map<nat, Row>, prior: seq<Record>)
    requires moved.Values <= texts.Keys
    requires forall r :: r in prior && r.line in moved && moved[r.line] in texts ==> Belongs(r, texts[moved[r.line]])
    ensures Relabelled(moved, texts, prior).Ok?
  {
    if prior == [] {
    } else {
      var r := prior[|prior| - 1];
      RelabelSucceeds(moved, texts, prior[..|prior| - 1]);
      if r.line in moved { assert moved[r.line] in moved.Values; }
    }
  }

  lemma {:induction false} MovedStamps(x: Row, y: Row, spans: seq<LinkSpan>)
    requires x.content == y.content && x.context == y.context
    ensures MoveTo(Stamps(x, spans), y.index) == Stamps(y, spans)
  {
    if spans == [] {
    } else {
      var init, s := spans[..|spans| - 1], spans[|spans| - 1];
      MovedStamps(x, y, init);
      assert (Stamps(x, init) + [Stamp(x, s)])[..|Stamps(x, init)|] == Stamps(x, init);
    }
  }

  lemma {:induction false} KeySpansLine(spans: seq<LinkSpan>, k: Key, line: nat)
    ensures KeySpans(spans, k.(line := line)) == KeySpans(spans, k)
  {
    if spans == [] {
    } else {
      KeySpansLine(spans[..|spans| - 1], k, line);
    }
  }

  lemma {:induction false} EmittedBelong(p: Pass, rows: seq<Row>)
    ensures forall r :: r in Emitted(p, rows) ==>
        exists j :: 0 <= j < |rows| && rows[j].index == r.line && Belongs(r, rows[j])
  {
    if rows == [] {
    } else {
      var n := |rows| - 1;
      EmittedBelong(p, rows[..n]);
      StampsBelong(rows[n], SpansAt(p, rows[n].index));
      forall r | r in Emitted(p, rows)
        ensures exists j :: 0 <= j < |rows| && rows[j].index == r.line && Belongs(r, rows[j])
      {
        if r in Emitted(p, rows[..n]) {
          var j :| 0 <= j < n && rows[..n][j].index == r.line && Belongs(r, rows[..n][j]);
          assert rows[j] == rows[..n][j];
        } else {
          assert rows[n].index == r.line;
        }
      }
    }
  }

  lemma {:induction false} StampsBelong(row: Row, spans: seq<LinkSpan>)
    ensures forall r :: r in Stamps(row, spans) ==> r.line == row.index && Belongs(r, row)
  {
    if spans == [] {
    } else {
      StampsBelong(row, spans[..|spans| - 1]);
    }
  }

  lemma {:induction false} SortMembers(rs: seq<Record>, r: Record)
    ensures r in Sort(rs) <==> r in rs
  {
    var k := KeyOf(r);
    SortStable(rs, k);
    OfKeyMember(rs, r);
    OfKeyMember(Sort(rs), r);
  }

  lemma {:induction false} OfKeyMember(rs: seq<Record>, r: Record)
    ensures r in OfKey(rs, KeyOf(r)) <==> r in rs
  {
    if rs == [] {
    } else {
      OfKeyMember(rs[..|rs| - 1], r);
    }
  }

  // ---------------------------------------------------------------------------------------
  // A book's artifact
  // ---------------------------------------------------------------------------------------

  /** A book with no links has no file at all. */
  function FileOf(records: seq<Record>): Option<seq<Record>> {
    if records == [] then None else Some(records)
  }

  /** What reading a file that may be missing yields. */
  function RecordsIn(file: Option<seq<Record>>): seq<Record> {
    if file.Some? then file.value else []
  }

  predicate OneToOne(reuse: seq<Pair>) {
    forall i, j :: 0 <= i < j < |reuse| ==> reuse[i].from != reuse[j].from && reuse[i].to != reuse[j].to
  }

  /** The checks `process_book_checkpointed` makes before it links anything. */
  predicate PlanUsable(rows: seq<Row>, plan: LinePlan) {
    var all := Elems(Indices(rows));
    && (plan.stateful ==> plan.reuse == [] && plan.ner == all)
    && OneToOne(plan.reuse)
    && plan.ner * Elems(Tos(plan.reuse)) == {} && plan.ner + Elems(Tos(plan.reuse)) == all
  }

  lemma {:induction false} ReuseByOldAt(reuse: seq<Pair>)
    requires OneToOne(reuse)
    ensures ReuseByOld(reuse).Values == Elems(Tos(reuse))
    ensures forall o :: o in ReuseByOld(reuse) ==> LineMatch.Pair(o, ReuseByOld(reuse)[o]) in reuse
    ensures forall p :: p in reuse ==> p.from in ReuseByOld(reuse) && ReuseByOld(reuse)[p.from] == p.to
  {
    if reuse == [] {
    } else {
      var n := |reuse| - 1;
      ReuseByOldAt(reuse[..n]);
      assert reuse == reuse[..n] + [reuse[n]];
      ElemsAppend(Tos(reuse[..n]), reuse[n].to);
      var init := ReuseByOld(reuse[..n]);
      assert reuse[n].from !in init;
      NewKeyValues(init, reuse[n].from, reuse[n].to);
    }
  }

  lemma {:induction false} NewKeyValues(m: map<nat, nat>, k: nat, v: nat)
    requires k !in m
    ensures m[k := v].Values == m.Values + {v}
  {
    var longer := m[k := v];
    forall x | x in m.Values ensures x in longer.Values {
      var o :| o in m && m[o] == x;
      assert longer[o] == x;
    }
    assert longer[k] == v;
  }

  lemma {:induction false} CurrentByIndexAt(rows: seq<Row>)
    requires Ordered(rows)
    ensures CurrentByIndex(rows).Keys == Elems(Indices(rows))
    ensures forall j :: 0 <= j < |rows| ==>
        rows[j].index in CurrentByIndex(rows) && CurrentByIndex(rows)[rows[j].index] == rows[j]
  {
    if rows == [] {
    } else {
      var n := |rows| - 1;
      CurrentByIndexAt(rows[..n]);
      ElemsAppend(Indices(rows[..n]), rows[n].index);
    }
  }

  /** The artifact a completed book gets under a line plan. */
  function LinkBook(b: Book, rows: seq<Row>, plan: LinePlan, file: Option<seq<Record>>): Result<seq<Record>>
    requires Ordered(rows)
  {
    if !PlanUsable(rows, plan) then Raised("line plan does not exactly partition the book")
    else
      ReuseByOldAt(plan.reuse);
      CurrentByIndexAt(rows);
      match Relabelled(ReuseByOld(plan.reuse), CurrentByIndex(rows), RecordsIn(file))
      case Raised(e) => Raised(e)
      case Ok(reused) =>
        Ok(Sort(reused + Emitted(LinesPass(b, rows, plan.stateful, Some(plan.ner)),
                                 Chosen(rows, Selection(Some(plan.ner), b.linker.eligible)))))
  }

  /** The artifact of a book linked from scratch. */
  function FreshArtifact(b: Book, rows: seq<Row>): seq<Record> {
    Sort(Emitted(Fresh(b, rows, RequiresContext(b, rows)), Chosen(rows, All(b))))
  }

  lemma {:induction false} SameSelection(rows: seq<Row>, s: Selection, t: Selection, lim: Limits)
    requires forall r :: r in rows ==> (s.Takes(r) <==> t.Takes(r))
    ensures Batches(rows, s, lim) == Batches(rows, t, lim) && Chosen(rows, s) == Chosen(rows, t)
  {
    if rows == [] {
    } else {
      SameSelection(rows[..|rows| - 1], s, t, lim);
    }
  }

  /** Selecting every line links the book from scratch. */
  lemma {:induction false} WholeBookIsFresh(b: Book, rows: seq<Row>, file: Option<seq<Record>>)
    requires Ordered(rows)
    ensures LinkBook(b, rows, LinePlan(Elems(Indices(rows)), [], RequiresContext(b, rows)), file) ==
        Ok(FreshArtifact(b, rows))
  {
    var all := Elems(Indices(rows));
    var plan := LinePlan(all, [], RequiresContext(b, rows));
    IndicesAt(rows);
    forall r | r in rows ensures r.index in all {
      var j :| 0 <= j < |rows| && rows[j] == r;
      assert Indices(rows)[j] == r.index;
    }
    SameSelection(rows, Selection(Some(all), b.linker.eligible), All(b), b.limits);
    assert PlanUsable(rows, plan);
    CurrentByIndexAt(rows);
    RelabelNothing(CurrentByIndex(rows), RecordsIn(file));
    assert [] + Emitted(Fresh(b, rows, RequiresContext(b, rows)), Chosen(rows, All(b)))
        == Emitted(Fresh(b, rows, RequiresContext(b, rows)), Chosen(rows, All(b)));
  }

  /** A plan that reuses nothing never looks at the prior artifact. */
  lemma {:induction false} NothingReused(b: Book, rows: seq<Row>, plan: LinePlan,
      file: Option<seq<Record>>, other: Option<seq<Record>>)
    requires Ordered(rows) && plan.reuse == []
    ensures LinkBook(b, rows, plan, file) == LinkBook(b, rows, plan, other)
  {
    CurrentByIndexAt(rows);
    RelabelNothing(CurrentByIndex(rows), RecordsIn(file));
    RelabelNothing(CurrentByIndex(rows), RecordsIn(other));
  }

  lemma {:induction false} RelabelNothing(texts: map<nat, Row>, prior: seq<Record>)
    ensures Relabelled(map[], texts, prior) == Ok([])
  {
    if prior == [] {
    } else {
      RelabelNothing(texts, prior[..|prior| - 1]);
    }
  }

  // ---------------------------------------------------------------------------------------
  // Reuse is exact
  // ---------------------------------------------------------------------------------------

  /** What reuse needs of the links: moved lines keep theirs, and the short run over the NER
      lines finds on each of them what the whole run finds. */
  ghost predicate ReuseSound(b: Book, reuse: seq<Pair>, ner: seq<nat>, olds: Pass, whole: Pass, short: Pass) {
    && (forall p :: p in reuse ==> SpansAt(whole, p.to) == SpansAt(olds, p.from))
    && (forall n :: n in ner ==> SpansAt(whole, n) == SpansAt(short, n))
  }

  lemma {:induction false} MatchOneToOne(was: seq<Row>, cur: seq<Row>, reuse: seq<Pair>, ner: seq<nat>)
    requires MatchOf(was, cur, reuse, ner)
    ensures OneToOne(reuse)
    ensures PlanUsable(cur, LinePlan(Elems(ner), reuse, false))
  {
    MatchPartitions(LinesOf(was), cur, reuse, ner);
    forall i, j | 0 <= i < j < |reuse| ensures reuse[i].from != reuse[j].from && reuse[i].to != reuse[j].to {
      assert reuse[i] in Elems(reuse) && reuse[j] in Elems(reuse);
    }
  }

  lemma {:induction false} PriorRecordBelongs(was: seq<Row>, cur: seq<Row>, reuse: seq<Pair>, ner: seq<nat>, olds: Pass,
      r: Record, p: Pair)
    requires MatchOf(was, cur, reuse, ner) && p in reuse && r in Sort(Emitted(olds, was)) && r.line == p.from
    ensures p.to in CurrentByIndex(cur) && Belongs(r, CurrentByIndex(cur)[p.to])
  {
    CurrentByIndexAt(cur);
    EmittedBelong(olds, was);
    SortMembers(Emitted(olds, was), r);
    var j :| 0 <= j < |was| && was[j].index == r.line && Belongs(r, was[j]);
    var i, k := PairRows(was, cur, reuse, ner, p);
    SameRow(was, was[i], was[j]);
  }

  /** Every prior record of a reused line belongs on its new line: reuse never raises. */
  lemma {:induction false} PriorBelongs(was: seq<Row>, cur: seq<Row>, reuse: seq<Pair>, ner: seq<nat>, olds: Pass)
    requires MatchOf(was, cur, reuse, ner)
    ensures ReuseByOld(reuse).Values <= CurrentByIndex(cur).Keys
    ensures Relabelled(ReuseByOld(reuse), CurrentByIndex(cur), Sort(Emitted(olds, was))).Ok?
  {
    var moved, texts, prior := ReuseByOld(reuse), CurrentByIndex(cur), Sort(Emitted(olds, was));
    MatchOneToOne(was, cur, reuse, ner);
    ReuseByOldAt(reuse);
    CurrentByIndexAt(cur);
    forall r | r in prior && r.line in moved && moved[r.line] in texts ensures Belongs(r, texts[moved[r.line]]) {
      PriorRecordBelongs(was, cur, reuse, ner, olds, r, LineMatch.Pair(r.line, moved[r.line]));
    }
    RelabelSucceeds(moved, texts, prior);
  }

  /** The records under one key are those of a run from scratch, whether reused or linked anew. */
  lemma {:induction false} ReusedKey(was: seq<Row>, cur: seq<Row>, reuse: seq<Pair>, ner: seq<nat>, olds: Pass,
      whole: Pass, k: Key, p: Pair)
    requires MatchOf(was, cur, reuse, ner) && p in reuse && p.to == k.line
    requires SpansAt(whole, p.to) == SpansAt(olds, p.from)
    requires ReuseByOld(reuse).Values <= CurrentByIndex(cur).Keys
    requires Relabelled(ReuseByOld(reuse), CurrentByIndex(cur), Sort(Emitted(olds, was))).Ok?
    ensures OfKey(Relabelled(ReuseByOld(reuse), CurrentByIndex(cur), Sort(Emitted(olds, was))).value, k) ==
        OfKey(Emitted(whole, cur), k)
  {
    var moved := ReuseByOld(reuse);
    MatchOneToOne(was, cur, reuse, ner);
    ReuseByOldAt(reuse);
    forall o | o in moved && moved[o] == k.line ensures o == p.from {
      assert LineMatch.Pair(o, moved[o]) in Elems(reuse) && p in Elems(reuse);
    }
    var before := k.(line := p.from);
    RelabelKey(moved, CurrentByIndex(cur), Sort(Emitted(olds, was)), k, p.from);
    SortStable(Emitted(olds, was), before);
    var i, j := PairRows(was, cur, reuse, ner, p);
    EmittedKey(olds, was, i, before);
    EmittedKey(whole, cur, j, k);
    KeySpansLine(SpansAt(olds, p.from), k, p.from);
    MovedStamps(was[i], cur[j], KeySpans(SpansAt(olds, p.from), k));
  }

  lemma {:induction false} NotReusedKey(was: seq<Row>, cur: seq<Row>, reuse: seq<Pair>, ner: seq<nat>,
      prior: seq<Record>, k: Key)
    requires MatchOf(was, cur, reuse, ner)
    requires forall p :: p in reuse ==> p.to != k.line
    requires ReuseByOld(reuse).Values <= CurrentByIndex(cur).Keys
    requires Relabelled(ReuseByOld(reuse), CurrentByIndex(cur), prior).Ok?
    ensures OfKey(Relabelled(ReuseByOld(reuse), CurrentByIndex(cur), prior).value, k) == []
  {
    MatchOneToOne(was, cur, reuse, ner);
    ReuseByOldAt(reuse);
    RelabelOther(ReuseByOld(reuse), CurrentByIndex(cur), prior, k);
  }

  lemma {:induction false} SameKeys(b: Book, was: seq<Row>, cur: seq<Row>, reuse: seq<Pair>, ner: seq<nat>, olds: Pass,
      whole: Pass, short: Pass, k: Key)
    requires MatchOf(was, cur, reuse, ner) && ReuseSound(b, reuse, ner, olds, whole, short)
    requires forall r :: r in cur && r.index !in ner ==> SpansAt(short, r.index) == []
    requires ReuseByOld(reuse).Values <= CurrentByIndex(cur).Keys
    requires Relabelled(ReuseByOld(reuse), CurrentByIndex(cur), Sort(Emitted(olds, was))).Ok?
    ensures OfKey(Relabelled(ReuseByOld(reuse), CurrentByIndex(cur), Sort(Emitted(olds, was))).value
        + Emitted(short, cur), k) ==
            OfKey(Emitted(whole, cur), k)
  {
    var reused := Relabelled(ReuseByOld(reuse), CurrentByIndex(cur), Sort(Emitted(olds, was))).value;
    OfKeyConcat(reused, Emitted(short, cur), k);
    if j :| 0 <= j < |cur| && cur[j].index == k.line {
      EmittedKey(short, cur, j, k);
      EmittedKey(whole, cur, j, k);
      ReusedOrProbed(was, cur, reuse, ner, j);
      if k.line in ner {
        assert k.line in Elems(ner);
        ReusedFromAt(reuse);
        NotReusedKey(was, cur, reuse, ner, Sort(Emitted(olds, was)), k);
      } else {
        ReusedKey(was, cur, reuse, ner, olds, whole, k, LineMatch.Pair(ReusedFrom(reuse)[k.line], k.line));
      }
    } else {
      NoRowNoRecord(short, cur, k);
      NoRowNoRecord(whole, cur, k);
      forall p | p in reuse ensures p.to != k.line { var i, j := PairRows(was, cur, reuse, ner, p); }
      NotReusedKey(was, cur, reuse, ner, Sort(Emitted(olds, was)), k);
    }
  }

  /** Reusing the prior artifact along a match and linking only the NER lines gives the artifact
      of a run from scratch, and none of the resolver's checks fails. */
  lemma {:induction false} ReuseIsExact(b: Book, was: seq<Row>, cur: seq<Row>, reuse: seq<Pair>, ner: seq<nat>,
      stateful: bool)
    requires MatchOf(was, cur, reuse, ner)
    requires ReuseSound(b, reuse, ner, Fresh(b, was, stateful), Fresh(b, cur, RequiresContext(b, cur)),
        LinesPass(b, cur, false, Some(Elems(ner))))
    ensures LinkBook(b, cur, LinePlan(Elems(ner), reuse, false),
        FileOf(Sort(Emitted(Fresh(b, was, stateful), Chosen(was, All(b)))))) ==
            Ok(FreshArtifact(b, cur))
  {
    var olds, whole, short := Fresh(b, was, stateful), Fresh(b, cur, RequiresContext(b, cur)),
        LinesPass(b, cur, false, Some(Elems(ner)));
    MatchOneToOne(was, cur, reuse, ner);
    EmitLinesPass(b, was, stateful, None);
    EmitLinesPass(b, cur, RequiresContext(b, cur), None);
    EmitLinesPass(b, cur, false, Some(Elems(ner)));
    PriorBelongs(was, cur, reuse, ner, olds);
    var reused := Relabelled(ReuseByOld(reuse), CurrentByIndex(cur), Sort(Emitted(olds, was))).value;
    forall r | r in cur && r.index !in ner ensures SpansAt(short, r.index) == [] {
      LinesPassAt(b, cur, false, Some(Elems(ner)), r);
    }
    forall k ensures OfKey(reused + Emitted(short, cur), k) == OfKey(Emitted(whole, cur), k) {
      SameKeys(b, was, cur, reuse, ner, olds, whole, short, k);
    }
    SortCanonical(reused + Emitted(short, cur), Emitted(whole, cur));
  }

  // ---------------------------------------------------------------------------------------
  // What is published, record by record
  // ---------------------------------------------------------------------------------------

  /** A record of one link: it keeps the row's text, and the row's context just if it is relative. */
  ghost predicate Describes(r: Record, row: Row, s: LinkSpan) {
    && r.line == row.index && r.start == s.start && r.end == s.end && r.target == s.target
    && r.source == row.content && r.direction == s.direction
    && r.context == if s.direction.Some? then Some(row.context) else None
  }

  lemma {:induction false} StampsDescribe(row: Row, spans: seq<LinkSpan>)
    ensures |Stamps(row, spans)| == |spans|
    ensures forall k :: 0 <= k < |spans| ==> Describes(Stamps(row, spans)[k], row, spans[k])
  {
    if spans == [] {
    } else {
      StampsDescribe(row, spans[..|spans| - 1]);
    }
  }

  /** Some link of some row. */
  ghost predicate IsLink(r: Record, p: Pass, rows: seq<Row>) {
    exists row: Row, k: nat :: row in rows && k < |SpansAt(p, row.index)| && Describes(r, row, SpansAt(p, row.index)[k])
  }

  function LinkCount(p: Pass, rows: seq<Row>): nat {
    if rows == [] then 0 else LinkCount(p, rows[..|rows| - 1]) + |SpansAt(p, rows[|rows| - 1].index)|
  }

  lemma {:induction false} StampsLinks(p: Pass, rows: seq<Row>, row: Row, r: Record)
    requires row in rows
    ensures r in Stamps(row, SpansAt(p, row.index)) <==>
      exists k: nat :: k < |SpansAt(p, row.index)| && Describes(r, row, SpansAt(p, row.index)[k])
    ensures r in Stamps(row, SpansAt(p, row.index)) ==> IsLink(r, p, rows)
  {
    var spans := SpansAt(p, row.index);
    StampsDescribe(row, spans);
    if k: nat :| k < |spans| && Describes(r, row, spans[k]) {
      assert r == Stamps(row, spans)[k];
    }
  }

  /** One record per link, and no other. */
  lemma {:induction false} EmittedLinks(p: Pass, rows: seq<Row>, r: Record)
    ensures r in Emitted(p, rows) <==> IsLink(r, p, rows)
    ensures |Emitted(p, rows)| == LinkCount(p, rows)
  {
    if rows == [] {
    } else {
      var init, row := rows[..|rows| - 1], rows[|rows| - 1];
      assert rows == init + [row];
      EmittedLinks(p, init, r);
      StampsLinks(p, rows, row, r);
      StampsDescribe(row, SpansAt(p, row.index));
      if IsLink(r, p, rows) {
        var x: Row, k: nat :| x in rows && k < |SpansAt(p, x.index)| && Describes(r, x, SpansAt(p, x.index)[k]);
        assert x in init || x == row;
        if x in init { assert IsLink(r, p, init); }
      }
      if IsLink(r, p, init) {
        var x: Row, k: nat :| x in init && k < |SpansAt(p, x.index)| && Describes(r, x, SpansAt(p, x.index)[k]);
        assert x in rows;
      }
    }
  }

  /** In the order of a published artifact. */
  ghost predicate InOrder(rs: seq<Record>) {
    forall i, j :: 0 <= i < j < |rs| ==> MayPrecede(rs[i], rs[j])
  }

  /** A from-scratch artifact holds one record for every link of the whole pass, in order. */
  lemma {:induction false} FreshIsEveryLink(b: Book, rows: seq<Row>, r: Record)
    requires Ordered(rows)
    ensures InOrder(FreshArtifact(b, rows))
    ensures r in FreshArtifact(b, rows) <==> IsLink(r, Fresh(b, rows, RequiresContext(b, rows)), rows)
    ensures |FreshArtifact(b, rows)| == LinkCount(Fresh(b, rows, RequiresContext(b, rows)), rows)
  {
    var p := Fresh(b, rows, RequiresContext(b, rows));
    EmitLinesPass(b, rows, RequiresContext(b, rows), None);
    SortOrders(Emitted(p, rows));
    EmittedLinks(p, rows, r);
    SortMembers(Emitted(p, rows), r);
    assert |multiset(Sort(Emitted(p, rows)))| == |multiset(Emitted(p, rows))|;
  }

  /** The plan lists each line of the book once, to be linked or to be reused from one old line. */
  ghost predicate EachLineOnce(rows: seq<Row>, plan: LinePlan) {
    && (forall row :: row in rows ==> (row.index in plan.ner <==> !ReusedTo(plan.reuse, row.index)))
    && (forall i :: i in plan.ner ==> exists row :: row in rows && row.index == i)
    && (forall q :: q in plan.reuse ==> exists row :: row in rows && row.index == q.to)
    && (forall i, j :: 0 <= i < j < |plan.reuse| ==>
          plan.reuse[i].from != plan.reuse[j].from && plan.reuse[i].to != plan.reuse[j].to)
    && (plan.stateful ==> plan.reuse == [])
  }

  ghost predicate ReusedTo(reuse: seq<Pair>, line: nat) {
    exists q :: q in reuse && q.to == line
  }

  /** A prior record of a line that is reused has the text of the line it moves to, and its context if
      it kept one. */
  ghost predicate MayMove(rows: seq<Row>, reuse: seq<Pair>, r: Record) {
    forall q, row :: q in reuse && row in rows && r.line == q.from && row.index == q.to ==>
      r.source == row.content && (r.context.Some? ==> r.context == Some(row.context))
  }

  lemma {:induction false} IndexOf(rows: seq<Row>, i: nat)
    ensures i in Elems(Indices(rows)) <==> exists row :: row in rows && row.index == i
  {
    IndicesAt(rows);
    if row :| row in rows && row.index == i {
      var k :| 0 <= k < |rows| && rows[k] == row;
      assert Indices(rows)[k] == i;
    }
    if i in Elems(Indices(rows)) {
      var k :| 0 <= k < |rows| && Indices(rows)[k] == i;
      assert rows[k] in rows;
    }
  }

  lemma {:induction false} ToOf(reuse: seq<Pair>, i: nat)
    ensures i in Elems(Tos(reuse)) <==> ReusedTo(reuse, i)
  {
    FromsAt(reuse);
    if q :| q in reuse && q.to == i {
      var k :| 0 <= k < |reuse| && reuse[k] == q;
      assert Tos(reuse)[k] == i;
    }
    if i in Elems(Tos(reuse)) {
      var k :| 0 <= k < |reuse| && Tos(reuse)[k] == i;
      assert reuse[k] in reuse;
    }
  }

  lemma {:induction false} UsableIsEachLineOnce(rows: seq<Row>, plan: LinePlan)
    ensures PlanUsable(rows, plan) <==> EachLineOnce(rows, plan)
  {
    var all, tos := Elems(Indices(rows)), Elems(Tos(plan.reuse));
    forall i ensures i in all <==> exists row :: row in rows && row.index == i { IndexOf(rows, i); }
    forall i ensures i in tos <==> ReusedTo(plan.reuse, i) { ToOf(plan.reuse, i); }
    if EachLineOnce(rows, plan) {
      forall i ensures i in plan.ner + tos <==> i in all {}
      assert plan.ner * tos == {};
      assert plan.ner + tos == all;
      if plan.reuse == [] { assert tos == {}; }
    }
    if PlanUsable(rows, plan) {
      forall row | row in rows ensures row.index in plan.ner <==> !ReusedTo(plan.reuse, row.index) {
        assert row.index in all;
        assert row.index in plan.ner + tos && row.index !in plan.ner * tos;
      }
      forall i | i in plan.ner ensures exists row :: row in rows && row.index == i { assert i in all; }
      forall q | q in plan.reuse ensures exists row :: row in rows && row.index == q.to {
        assert ReusedTo(plan.reuse, q.to);
        assert q.to in tos;
      }
    }
  }

  /** Reuse fails exactly on a record that does not fit, and yields the old records, moved. */
  lemma {:induction false} ReuseExactly(rows: seq<Row>, reuse: seq<Pair>, prior: seq<Record>, r: Record)
    requires Ordered(rows) && OneToOne(reuse) && ReuseByOld(reuse).Values <= CurrentByIndex(rows).Keys
    ensures var moved := Relabelled(ReuseByOld(reuse), CurrentByIndex(rows), prior);
      && (moved.Ok? <==> forall o :: o in prior ==> MayMove(rows, reuse, o))
      && (moved.Ok? ==>
          (r in moved.value <==>
           exists o, q :: o in prior && q in reuse && o.line == q.from && r == o.(line := q.to)))
  {
    if prior == [] {
    } else {
      var n := |prior| - 1;
      assert prior == prior[..n] + [prior[n]];
      ReuseExactly(rows, reuse, prior[..n], r);
      MayMoveIsBelongs(rows, reuse, prior[n]);
      ReuseByOldAt(reuse);
      var moved := Relabelled(ReuseByOld(reuse), CurrentByIndex(rows), prior);
      if moved.Ok? {
        if o, q :| o in prior && q in reuse && o.line == q.from && r == o.(line := q.to) {
          assert o in prior[..n] || o == prior[n];
        }
        if prior[n].line in ReuseByOld(reuse) {
          var q := LineMatch.Pair(prior[n].line, ReuseByOld(reuse)[prior[n].line]);
          assert q in reuse;
        }
      }
    }
  }

  lemma {:induction false} MayMoveIsBelongs(rows: seq<Row>, reuse: seq<Pair>, r: Record)
    requires Ordered(rows) && OneToOne(reuse) && ReuseByOld(reuse).Values <= CurrentByIndex(rows).Keys
    ensures r.line !in ReuseByOld(reuse) ==> MayMove(rows, reuse, r)
    ensures r.line in ReuseByOld(reuse) ==>
      && ReuseByOld(reuse)[r.line] in CurrentByIndex(rows)
      && (MayMove(rows, reuse, r) <==> Belongs(r, CurrentByIndex(rows)[ReuseByOld(reuse)[r.line]]))
  {
    ReuseByOldAt(reuse);
    CurrentByIndexAt(rows);
    if r.line in ReuseByOld(reuse) {
      var to := ReuseByOld(reuse)[r.line];
      assert to in ReuseByOld(reuse).Values;
      assert LineMatch.Pair(r.line, to) in reuse;
      IndexOf(rows, to);
      var row :| row in rows && row.index == to;
      var j :| 0 <= j < |rows| && rows[j] == row;
      assert CurrentByIndex(rows)[to] == row;
    }
  }

  /** A book is linked exactly if the plan lists each line once and every reused record fits; its
      artifact, in order, holds the reused records on their new lines and one record per new link. */
  lemma {:induction false} LinkBookExactly(b: Book, rows: seq<Row>, plan: LinePlan, file: Option<seq<Record>>,
      r: Record)
    requires Ordered(rows)
    ensures var made := LinkBook(b, rows, plan, file);
      && (made.Ok? <==> EachLineOnce(rows, plan) && forall o :: o in RecordsIn(file) ==> MayMove(rows, plan.reuse, o))
      && (made.Ok? ==>
            && InOrder(made.value)
            && (r in made.value <==>
                  || (exists o, q ::
                     o in RecordsIn(file) && q in plan.reuse && o.line == q.from && r == o.(line := q.to))
                  || IsLink(r, LinesPass(b, rows, plan.stateful, Some(plan.ner)), rows)))
  {
    UsableIsEachLineOnce(rows, plan);
    if PlanUsable(rows, plan) {
      ReuseByOldAt(plan.reuse);
      CurrentByIndexAt(rows);
      ReuseExactly(rows, plan.reuse, RecordsIn(file), r);
      var reused := Relabelled(ReuseByOld(plan.reuse), CurrentByIndex(rows), RecordsIn(file));
      if reused.Ok? {
        var p := LinesPass(b, rows, plan.stateful, Some(plan.ner));
        EmitLinesPass(b, rows, plan.stateful, Some(plan.ner));
        EmittedLinks(p, rows, r);
        SortOrders(reused.value + Emitted(p, rows));
        SortMembers(reused.value + Emitted(p, rows), r);
      }
    }
  }
}
