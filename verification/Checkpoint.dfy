/** Checkpoint and resume of one book: `process_book_checkpointed` with its shards, ibid sidecars and
    recycle guard, on a disk where a life may end between any two writes. */
module Checkpoint {
  import opened Prelude
  import opened Transport
  import opened Artifact
  import opened Ibid
  import opened ContextProbe
  import opened Handoff
  import opened Linking
  import LineMatch
  import PassTrace

  // ---------------------------------------------------------------------------------------
  // What each batch is, in a life that is never interrupted
  // ---------------------------------------------------------------------------------------

  /** The state an uninterrupted life has reached before batch k. */
  function StateAt(b: Book, rows: seq<Row>, stateful: bool, bs: seq<Batch>, k: nat): State
    requires k <= |bs|
  {
    RunBatches(b, rows, stateful, bs[..k]).state
  }

  function BatchPass(b: Book, rows: seq<Row>, s: State, batch: seq<Row>): Pass {
    RunRows(b, rows, Pass(s, map[]), batch)
  }

  /** The records of batch k in an uninterrupted life. */
  function BatchRecords(b: Book, rows: seq<Row>, stateful: bool, bs: seq<Batch>, k: nat): seq<Record>
    requires k < |bs|
  {
    Emitted(BatchPass(b, rows, Cross(b, stateful, StateAt(b, rows, stateful, bs, k)), bs[k].rows), bs[k].rows)
  }

  function AllRecords(b: Book, rows: seq<Row>, stateful: bool, bs: seq<Batch>, k: nat): seq<Record>
    requires k <= |bs|
  {
    if k == 0 then [] else AllRecords(b, rows, stateful, bs, k - 1) + BatchRecords(b, rows, stateful, bs, k - 1)
  }

  /** The links found earlier have no influence on a batch. */
  lemma {:induction false} EarlierLinks(b: Book, rows: seq<Row>, s: State, links: map<nat, seq<LinkSpan>>,
      batch: seq<Row>)
    ensures RunRows(b, rows, Pass(s, links), batch).state == BatchPass(b, rows, s, batch).state
    ensures forall r :: r in batch ==>
        SpansAt(RunRows(b, rows, Pass(s, links), batch), r.index) == SpansAt(BatchPass(b, rows, s, batch), r.index)
  {
    if batch == [] {
    } else {
      EarlierLinks(b, rows, s, links, batch[..|batch| - 1]);
      assert batch == batch[..|batch| - 1] + [batch[|batch| - 1]];
    }
  }

  lemma {:induction false} NextState(b: Book, rows: seq<Row>, stateful: bool, bs: seq<Batch>, k: nat)
    requires k < |bs|
    ensures StateAt(b, rows, stateful, bs, k + 1) ==
            BatchPass(b, rows, Cross(b, stateful, StateAt(b, rows, stateful, bs, k)), bs[k].rows).state
  {
    assert bs[..k + 1] == bs[..k] + [bs[k]];
    RunBatchesAppend(b, rows, stateful, bs[..k], bs[k]);
    var p := RunBatches(b, rows, stateful, bs[..k]);
    EarlierLinks(b, rows, Cross(b, stateful, p.state), p.links, bs[k].rows);
  }

  lemma {:induction false} EmittedSame(p: Pass, q: Pass, rows: seq<Row>)
    requires forall r :: r in rows ==> SpansAt(p, r.index) == SpansAt(q, r.index)
    ensures Emitted(p, rows) == Emitted(q, rows)
  {
    if rows == [] {
    } else {
      assert rows[|rows| - 1] in rows;
      EmittedSame(p, q, rows[..|rows| - 1]);
    }
  }

  lemma {:induction false} EmittedAppend(p: Pass, rows: seq<Row>, row: Row)
    ensures Emitted(p, rows + [row]) == Emitted(p, rows) + Stamps(row, SpansAt(p, row.index))
  {
    assert (rows + [row])[..|rows|] == rows;
  }

  lemma {:induction false} EmittedConcat(p: Pass, a: seq<Row>, c: seq<Row>)
    ensures Emitted(p, a + c) == Emitted(p, a) + Emitted(p, c)
  {
    if c == [] {
      assert a + c == a;
    } else {
      var init, row := c[..|c| - 1], c[|c| - 1];
      assert a + c == (a + init) + [row];
      EmittedConcat(p, a, init);
      EmittedAppend(p, a + init, row);
      Associative(Emitted(p, a), Emitted(p, init), Stamps(row, SpansAt(p, row.index)));
    }
  }

  lemma {:induction false} OneMoreBatch(b: Book, rows: seq<Row>, stateful: bool, bs: seq<Batch>, j: nat)
    requires j < |bs| && Ordered(Flatten(bs[..j]) + bs[j].rows)
    ensures Emitted(RunBatches(b, rows, stateful, bs[..j + 1]), Flatten(bs[..j]) + bs[j].rows) ==
            Emitted(RunBatches(b, rows, stateful, bs[..j]), Flatten(bs[..j])) + BatchRecords(b, rows, stateful, bs, j)
  {
    var earlier, last := Flatten(bs[..j]), bs[j].rows;
    assert bs[..j + 1] == bs[..j] + [bs[j]];
    var p := RunBatches(b, rows, stateful, bs[..j]);
    var s := Cross(b, stateful, p.state);
    RunBatchesAppend(b, rows, stateful, bs[..j], bs[j]);
    var q := RunRows(b, rows, p.(state := s), last);
    EmittedConcat(q, earlier, last);
    EarlierLinks(b, rows, s, p.links, last);
    EmittedSame(q, BatchPass(b, rows, s, last), last);
    KeptLinks(b, rows, p.(state := s), last, earlier);
    EmittedSame(q, p, earlier);
  }

  /** The shards in order are the whole pass's records. */
  lemma {:induction false} ShardsAreThePass(b: Book, rows: seq<Row>, stateful: bool, bs: seq<Batch>, k: nat)
    requires k <= |bs| && Ordered(Flatten(bs[..k]))
    ensures AllRecords(b, rows, stateful, bs, k) == Emitted(RunBatches(b, rows, stateful, bs[..k]), Flatten(bs[..k]))
  {
    if k == 0 {
    } else {
      assert bs[..k] == bs[..k - 1] + [bs[k - 1]];
      FlattenAppend(bs[..k - 1], bs[k - 1]);
      OrderedParts(Flatten(bs[..k - 1]), bs[k - 1].rows);
      ShardsAreThePass(b, rows, stateful, bs, k - 1);
      OneMoreBatch(b, rows, stateful, bs, k - 1);
    }
  }

  lemma {:induction false} KeptLinks(b: Book, rows: seq<Row>, p: Pass, batch: seq<Row>, earlier: seq<Row>)
    requires Ordered(earlier + batch)
    ensures forall r :: r in earlier ==> SpansAt(RunRows(b, rows, p, batch), r.index) == SpansAt(p, r.index)
  {
    OrderedParts(earlier, batch);
    RunRowsLinked(b, rows, p, batch);
    forall r | r in earlier ensures SpansAt(RunRows(b, rows, p, batch), r.index) == SpansAt(p, r.index) {
      var i :| 0 <= i < |earlier| && earlier[i] == r;
      assert forall j :: 0 <= j < |batch| ==> batch[j].index != r.index;
    }
  }

  // ---------------------------------------------------------------------------------------
  // Reading the prior artifact again after it was replaced
  // ---------------------------------------------------------------------------------------

  /** A file `read_artifact` reads to its end. */
  ghost predicate Readable(file: Option<seq<Record>>) {
    forall r :: r in RecordsIn(file) ==> WellFormed(r)
  }

  /** Linking the book once more, with its own artifact in the prior one's place, changes nothing. */
  ghost predicate Rerun(b: Book, rows: seq<Row>, plan: LinePlan, file: Option<seq<Record>>)
    requires Ordered(rows)
  {
    var first := LinkBook(b, rows, plan, file);
    first.Ok? ==> LinkBook(b, rows, plan, FileOf(first.value)) == first
  }

  /** No reused line changes its index. */
  predicate Unmoved(reuse: seq<Pair>) {
    forall p :: p in reuse ==> p.from == p.to
  }

  function FinalPass(b: Book, rows: seq<Row>, plan: LinePlan): seq<Record> {
    Emitted(LinesPass(b, rows, plan.stateful, Some(plan.ner)),
        Chosen(rows, Selection(Some(plan.ner), b.linker.eligible)))
  }

  /** Linked lines and reused lines do not meet. */
  lemma {:induction false} LinkedOffReused(b: Book, rows: seq<Row>, plan: LinePlan, k: Key)
    requires Ordered(rows) && PlanUsable(rows, plan) && k.line in Elems(Tos(plan.reuse))
    ensures OfKey(FinalPass(b, rows, plan), k) == []
  {
    var sel := Selection(Some(plan.ner), b.linker.eligible);
    ChosenOrdered(rows, sel);
    var sent := Chosen(rows, sel);
    assert k.line !in plan.ner * Elems(Tos(plan.reuse));
    forall j | 0 <= j < |sent| ensures sent[j].index != k.line { assert sent[j] in sent; }
    NoRowNoRecord(LinesPass(b, rows, plan.stateful, Some(plan.ner)), sent, k);
  }

  lemma {:induction false} MoveNowhere(rs: seq<Record>, k: Key)
    ensures MoveTo(OfKey(rs, k), k.line) == OfKey(rs, k)
  {
    if rs == [] {
    } else {
      MoveNowhere(rs[..|rs| - 1], k);
      var olds := OfKey(rs[..|rs| - 1], k);
      assert (olds + [rs[|rs| - 1]])[..|olds|] == olds;
    }
  }

  lemma {:induction false} RelabelledBelong(moved: map<nat, nat>, texts: map<nat, Row>, prior: seq<Record>)
    requires moved.Values <= texts.Keys && Relabelled(moved, texts, prior).Ok?
    ensures forall r :: r in Relabelled(moved, texts, prior).value ==>
        r.line in texts && Belongs(r, texts[r.line]) && r.line in moved.Values
  {
    if prior == [] {
    } else {
      var r := prior[|prior| - 1];
      RelabelledBelong(moved, texts, prior[..|prior| - 1]);
      if r.line in moved { assert moved[r.line] in moved.Values; }
    }
  }

  lemma {:induction false} UnmovedRecords(b: Book, rows: seq<Row>, plan: LinePlan, file: Option<seq<Record>>)
    requires Ordered(rows) && PlanUsable(rows, plan) && Unmoved(plan.reuse) && LinkBook(b, rows, plan, file).Ok?
    ensures ReuseByOld(plan.reuse).Values <= CurrentByIndex(rows).Keys
    ensures Relabelled(ReuseByOld(plan.reuse), CurrentByIndex(rows), LinkBook(b, rows, plan, file).value).Ok?
  {
    var moved, texts, v := ReuseByOld(plan.reuse), CurrentByIndex(rows), LinkBook(b, rows, plan, file).value;
    var prior := RecordsIn(file);
    ReuseByOldAt(plan.reuse);
    CurrentByIndexAt(rows);
    var reused, linked := Relabelled(moved, texts, prior).value, FinalPass(b, rows, plan);
    RelabelledBelong(moved, texts, prior);
    forall r | r in v && r.line in moved && moved[r.line] in texts ensures Belongs(r, texts[moved[r.line]]) {
      assert moved[r.line] == r.line && r.line in moved.Values;
      LinkedOffReused(b, rows, plan, KeyOf(r));
      OfKeyMember(linked, r);
      SortMembers(reused + linked, r);
    }
    RelabelSucceeds(moved, texts, v);
  }

  lemma {:induction false} UnmovedKey(b: Book, rows: seq<Row>, plan: LinePlan, file: Option<seq<Record>>, k: Key)
    requires Ordered(rows) && PlanUsable(rows, plan) && Unmoved(plan.reuse) && LinkBook(b, rows, plan, file).Ok?
    requires ReuseByOld(plan.reuse).Values <= CurrentByIndex(rows).Keys
    requires Relabelled(ReuseByOld(plan.reuse), CurrentByIndex(rows), LinkBook(b, rows, plan, file).value).Ok?
    ensures OfKey(Relabelled(ReuseByOld(plan.reuse), CurrentByIndex(rows), LinkBook(b, rows, plan, file).value).value,
        k) ==
            OfKey(Relabelled(ReuseByOld(plan.reuse), CurrentByIndex(rows), RecordsIn(file)).value, k)
  {
    var moved, texts, v := ReuseByOld(plan.reuse), CurrentByIndex(rows), LinkBook(b, rows, plan, file).value;
    var prior := RecordsIn(file);
    var reused, linked := Relabelled(moved, texts, prior).value, FinalPass(b, rows, plan);
    ReuseByOldAt(plan.reuse);
    if k.line in moved {
      assert moved[k.line] == k.line && k.line in moved.Values;
      forall o | o in moved && moved[o] == k.line ensures o == k.line {}
      RelabelKey(moved, texts, v, k, k.line);
      SortStable(reused + linked, k);
      OfKeyConcat(reused, linked, k);
      LinkedOffReused(b, rows, plan, k);
      assert k.(line := k.line) == k;
      MoveNowhere(v, k);
    } else {
      forall o | o in moved ensures moved[o] != k.line {}
      RelabelOther(moved, texts, v, k);
      RelabelOther(moved, texts, prior, k);
    }
  }

  lemma {:induction false} UnmovedReruns(b: Book, rows: seq<Row>, plan: LinePlan, file: Option<seq<Record>>)
    requires Ordered(rows) && Unmoved(plan.reuse)
    ensures Rerun(b, rows, plan, file)
  {
    if LinkBook(b, rows, plan, file).Ok? {
      var moved, texts, v := ReuseByOld(plan.reuse), CurrentByIndex(rows), LinkBook(b, rows, plan, file).value;
      UnmovedRecords(b, rows, plan, file);
      var reused, linked := Relabelled(moved, texts, RecordsIn(file)).value, FinalPass(b, rows, plan);
      var again := Relabelled(moved, texts, v).value;
      forall k ensures OfKey(again + linked, k) == OfKey(reused + linked, k) {
        UnmovedKey(b, rows, plan, file, k);
        OfKeyConcat(again, linked, k);
        OfKeyConcat(reused, linked, k);
      }
      SortCanonical(again + linked, reused + linked);
    }
  }

  // The other direction: a moved line's links do not survive.

  function Beyond(rs: seq<Record>): nat {
    if rs == [] then 0
    else
      var rest, last := Beyond(rs[..|rs| - 1]), rs[|rs| - 1].start;
      if rest <= last then last + 1 else rest
  }

  lemma {:induction false} NothingBeyond(rs: seq<Record>, k: Key)
    requires Beyond(rs) <= k.start
    ensures OfKey(rs, k) == []
  {
    if rs == [] {
    } else {
      NothingBeyond(rs[..|rs| - 1], k);
    }
  }

  /** One link at the old place of a moved line, out of reach of everything linked anew. */
  function LostLink(b: Book, rows: seq<Row>, plan: LinePlan, p: Pair): Record
    requires Ordered(rows) && p.to in CurrentByIndex(rows)
  {
    var at := Beyond(FinalPass(b, rows, plan));
    Record(p.from, at, at + 1, "x", CurrentByIndex(rows)[p.to].content, None, None)
  }

  lemma {:induction false} RelabelOne(moved: map<nat, nat>, texts: map<nat, Row>, r: Record)
    requires moved.Values <= texts.Keys && r.line in moved && moved[r.line] in texts && Belongs(r, texts[moved[r.line]])
    ensures Relabelled(moved, texts, [r]) == Ok([r.(line := moved[r.line])])
  {
    var one := [r];
    assert one[..|one| - 1] == [] && one[|one| - 1] == r;
    var none: seq<Record> := [];
    assert none + [r.(line := moved[r.line])] == [r.(line := moved[r.line])];
  }

  lemma {:induction false} FirstRun(b: Book, rows: seq<Row>, plan: LinePlan, p: Pair)
    requires Ordered(rows) && PlanUsable(rows, plan) && p in plan.reuse
    ensures p.to in CurrentByIndex(rows)
    ensures var link := LostLink(b, rows, plan, p);
            LinkBook(b, rows, plan, Some([link])) == Ok(Sort([link.(line := p.to)] + FinalPass(b, rows, plan)))
  {
    ReuseByOldAt(plan.reuse);
    CurrentByIndexAt(rows);
    assert ReuseByOld(plan.reuse)[p.from] in ReuseByOld(plan.reuse).Values;
    RelabelOne(ReuseByOld(plan.reuse), CurrentByIndex(rows), LostLink(b, rows, plan, p));
  }

  lemma {:induction false} SecondRun(moved: map<nat, nat>, texts: map<nat, Row>, linked: seq<Record>, there: Record,
      from: nat)
    requires moved.Values <= texts.Keys
    requires from in moved && moved[from] == there.line && from != there.line
    requires forall o :: o in moved && moved[o] == there.line ==> o == from
    requires Beyond(linked) <= there.start && Relabelled(moved, texts, Sort([there] + linked)).Ok?
    ensures OfKey(Relabelled(moved, texts, Sort([there] + linked)).value + linked, KeyOf(there)) == []
  {
    var k := KeyOf(there);
    var v := Sort([there] + linked);
    NothingBeyond(linked, k);
    NothingBeyond(linked, k.(line := from));
    SingleKey([there], linked, there, k.(line := from));
    RelabelKey(moved, texts, v, k, from);
    OfKeyConcat(Relabelled(moved, texts, v).value, linked, k);
  }

  /** So the second run does not publish what the first one did. */
  lemma {:induction false} SecondRunDiffers(moved: map<nat, nat>, texts: map<nat, Row>, linked: seq<Record>,
      there: Record, from: nat)
    requires moved.Values <= texts.Keys
    requires from in moved && moved[from] == there.line && from != there.line
    requires forall o :: o in moved && moved[o] == there.line ==> o == from
    requires Beyond(linked) <= there.start && Relabelled(moved, texts, Sort([there] + linked)).Ok?
    ensures Sort(Relabelled(moved, texts, Sort([there] + linked)).value + linked) != Sort([there] + linked)
  {
    SecondRun(moved, texts, linked, there, from);
    SortStable(Relabelled(moved, texts, Sort([there] + linked)).value + linked, KeyOf(there));
    NothingBeyond(linked, KeyOf(there));
    SingleKey([there], linked, there, KeyOf(there));
  }

  lemma {:induction false} OnlySource(reuse: seq<Pair>, p: Pair)
    requires OneToOne(reuse) && p in reuse
    ensures forall o :: o in ReuseByOld(reuse) && ReuseByOld(reuse)[o] == p.to ==> o == p.from
  {
    ReuseByOldAt(reuse);
    forall o | o in ReuseByOld(reuse) && ReuseByOld(reuse)[o] == p.to ensures o == p.from {
      var q := LineMatch.Pair(o, p.to);
      var i :| 0 <= i < |reuse| && reuse[i] == q;
      var j :| 0 <= j < |reuse| && reuse[j] == p;
    }
  }

  /** The first run moves the link to its new line; the second finds it there no more. */
  lemma {:induction false} MovedLinkLost(b: Book, rows: seq<Row>, plan: LinePlan, p: Pair)
    requires Ordered(rows) && PlanUsable(rows, plan) && p in plan.reuse && p.from != p.to
    ensures p.to in CurrentByIndex(rows)
    ensures var file := Some([LostLink(b, rows, plan, p)]);
            Readable(file) && LinkBook(b, rows, plan, file).Ok? && !Rerun(b, rows, plan, file)
  {
    FirstRun(b, rows, plan, p);
    ReuseByOldAt(plan.reuse);
    CurrentByIndexAt(rows);
    OnlySource(plan.reuse, p);
    var moved, texts, linked := ReuseByOld(plan.reuse), CurrentByIndex(rows), FinalPass(b, rows, plan);
    var there := LostLink(b, rows, plan, p).(line := p.to);
    if Relabelled(moved, texts, Sort([there] + linked)).Ok? {
      SecondRunDiffers(moved, texts, linked, there, p.from);
    }
  }

  lemma {:induction false} SingleKey(one: seq<Record>, linked: seq<Record>, r: Record, k: Key)
    requires one == [r] && OfKey(linked, k) == []
    ensures OfKey(Sort(one + linked), k) == if KeyOf(r) == k then [r] else []
  {
    SortStable(one + linked, k);
    OfKeyConcat(one, linked, k);
    assert one[..0] == [];
  }

  /** Reading one's own artifact as the prior one is harmless for every readable prior artifact
      exactly when no reused line moves. */
  lemma {:induction false} RerunExactlyUnmoved(b: Book, rows: seq<Row>, plan: LinePlan)
    requires Ordered(rows) && PlanUsable(rows, plan)
    ensures (forall file :: Readable(file) ==> Rerun(b, rows, plan, file)) <==> Unmoved(plan.reuse)
  {
    if Unmoved(plan.reuse) {
      forall file | Readable(file) ensures Rerun(b, rows, plan, file) { UnmovedReruns(b, rows, plan, file); }
    } else {
      var p :| p in plan.reuse && p.from != p.to;
      MovedLinkLost(b, rows, plan, p);
    }
  }

  lemma {:induction false} RelabelNone(moved: map<nat, nat>, texts: map<nat, Row>, prior: seq<Record>)
    requires moved.Values <= texts.Keys && forall r :: r in prior ==> r.line !in moved
    ensures Relabelled(moved, texts, prior) == Ok([])
  {
    if prior == [] {
    } else {
      assert prior[|prior| - 1] in prior;
      RelabelNone(moved, texts, prior[..|prior| - 1]);
    }
  }

  /** Where no link of the finished artifact stands at an index lines were reused from, the second
      run keeps the newly linked lines and forgets every reused link. */
  lemma {:induction false} SecondRunForgets(b: Book, rows: seq<Row>, plan: LinePlan, file: Option<seq<Record>>)
    requires Ordered(rows) && PlanUsable(rows, plan)
    requires forall r :: r in RecordsIn(file) ==> r.line !in ReuseByOld(plan.reuse)
    ensures LinkBook(b, rows, plan, file) == Ok(Sort(FinalPass(b, rows, plan)))
  {
    ReuseByOldAt(plan.reuse);
    CurrentByIndexAt(rows);
    RelabelNone(ReuseByOld(plan.reuse), CurrentByIndex(rows), RecordsIn(file));
    assert [] + FinalPass(b, rows, plan) == FinalPass(b, rows, plan);
  }

  // ---------------------------------------------------------------------------------------
  // The published file over the lives of one run
  // ---------------------------------------------------------------------------------------

  /** Where a life of a book ended, as its published file sees it: before the file was replaced,
      killed right after, killed once a file without links was removed again, or marked done. */
  datatype LifeEnd = Early | Replaced | Settled | Done

  /** The published file, and whether the book is marked done. */
  datatype Output = Output(file: Option<seq<Record>>, done: bool)

  /** What a life that could link the book leaves as its file. */
  function Settle(file: Option<seq<Record>>, made: seq<Record>, end: LifeEnd): Option<seq<Record>> {
    match end
    case Early => file
    case Replaced => Some(made)
    case _ => FileOf(made)
  }

  /** One life of a book not yet done. A cooperative life reads the captured old artifact, any other
      life the published file; a life that fails the checks on it changes nothing. */
  function AfterLife(b: Book, rows: seq<Row>, plan: LinePlan, cooperative: bool, before: Option<seq<Record>>,
      at: Output, end: LifeEnd): Output
    requires Ordered(rows)
  {
    if at.done || end.Early? then at
    else
      match LinkBook(b, rows, plan, if cooperative then before else at.file)
      case Raised(_) => at
      case Ok(made) => Output(Settle(at.file, made, end), end.Done?)
  }

  function AfterLives(b: Book, rows: seq<Row>, plan: LinePlan, cooperative: bool, before: Option<seq<Record>>,
      ends: seq<LifeEnd>): Output
    requires Ordered(rows)
  {
    if ends == [] then Output(before, false)
    else
      var earlier := AfterLives(b, rows, plan, cooperative, before, ends[..|ends| - 1]);
      AfterLife(b, rows, plan, cooperative, before, earlier, ends[|ends| - 1])
  }

  lemma {:induction false} OneMoreLife(b: Book, rows: seq<Row>, plan: LinePlan, cooperative: bool,
      before: Option<seq<Record>>, ends: seq<LifeEnd>, file: Option<seq<Record>>, made: seq<Record>, end: LifeEnd)
    requires Ordered(rows) && AfterLives(b, rows, plan, cooperative, before, ends) == Output(file, false)
    requires !end.Early? ==> LinkBook(b, rows, plan, if cooperative then before else file) == Ok(made)
    ensures AfterLives(b, rows, plan, cooperative, before, ends + [end]) == Output(Settle(file, made, end), end.Done?)
  {
    assert (ends + [end])[..|ends|] == ends;
  }

  /** A life was killed between replacing the published file and marking the book done. */
  predicate KilledLate(ends: seq<LifeEnd>) {
    Replaced in ends || Settled in ends
  }

  /** Lives read the same prior artifact: it was captured, or reading the new one is harmless. */
  predicate Repeatable(plan: LinePlan, cooperative: bool) {
    cooperative || Unmoved(plan.reuse)
  }

  /** The file is the one before, or the one a single uninterrupted life writes. */
  ghost predicate OldOrMade(file: Option<seq<Record>>, before: Option<seq<Record>>, goal: Result<seq<Record>>) {
    file == before || (goal.Ok? && (file == Some(goal.value) || file == FileOf(goal.value)))
  }

  lemma {:induction false} SameRecords(b: Book, rows: seq<Row>, plan: LinePlan,
      file: Option<seq<Record>>, other: Option<seq<Record>>)
    requires Ordered(rows) && RecordsIn(file) == RecordsIn(other)
    ensures LinkBook(b, rows, plan, file) == LinkBook(b, rows, plan, other)
  {}

  /** A later life links what the first one would have linked. */
  lemma {:induction false} LinksAlike(b: Book, rows: seq<Row>, plan: LinePlan, cooperative: bool,
      before: Option<seq<Record>>, file: Option<seq<Record>>)
    requires Ordered(rows) && OldOrMade(file, before, LinkBook(b, rows, plan, before))
    requires Repeatable(plan, cooperative) || file == before
    ensures LinkBook(b, rows, plan, if cooperative then before else file) == LinkBook(b, rows, plan, before)
  {
    if !cooperative && file != before {
      UnmovedReruns(b, rows, plan, before);
      SameRecords(b, rows, plan, file, FileOf(LinkBook(b, rows, plan, before).value));
    }
  }

  lemma {:induction false} OneMoreEnd(ends: seq<LifeEnd>, end: LifeEnd)
    ensures KilledLate(ends + [end]) <==> KilledLate(ends) || end.Replaced? || end.Settled?
  {
    assert (ends + [end])[..|ends|] == ends;
    EndsAppend(ends + [end]);
  }

  lemma {:induction false} EndsAppend(ends: seq<LifeEnd>)
    requires ends != []
    ensures var n := |ends| - 1;
      && (Done in ends <==> Done in ends[..n] || ends[n].Done?)
      && (KilledLate(ends) <==> KilledLate(ends[..n]) || ends[n].Replaced? || ends[n].Settled?)
  {
    var n := |ends| - 1;
    assert ends == ends[..n] + [ends[n]];
  }

  /** Lives that read the same prior artifact, or are never killed late, end in the artifact of one
      uninterrupted life; until one completes, the file is the old one or already that artifact. */
  lemma {:induction false} LivesSettle(b: Book, rows: seq<Row>, plan: LinePlan, cooperative: bool,
      before: Option<seq<Record>>, ends: seq<LifeEnd>)
    requires Ordered(rows) && (Repeatable(plan, cooperative) || !KilledLate(ends))
    ensures var goal, now := LinkBook(b, rows, plan, before), AfterLives(b, rows, plan, cooperative, before, ends);
      && (now.done <==> goal.Ok? && Done in ends)
      && (now.done ==> now.file == FileOf(goal.value))
      && OldOrMade(now.file, before, goal)
      && (!now.done && !KilledLate(ends) ==> now.file == before)
  {
    if ends == [] {
    } else {
      EndsAppend(ends);
      LivesSettle(b, rows, plan, cooperative, before, ends[..|ends| - 1]);
      var earlier := AfterLives(b, rows, plan, cooperative, before, ends[..|ends| - 1]);
      if !earlier.done {
        LinksAlike(b, rows, plan, cooperative, before, earlier.file);
      }
    }
  }

  /** Every completed book ends in the artifact of one uninterrupted life. */
  ghost predicate Resumes(b: Book, rows: seq<Row>, plan: LinePlan, cooperative: bool, before: Option<seq<Record>>,
      ends: seq<LifeEnd>)
    requires Ordered(rows)
  {
    var goal := LinkBook(b, rows, plan, before);
    goal.Ok? && Done in ends ==>
        AfterLives(b, rows, plan, cooperative, before, ends) == Output(FileOf(goal.value), true)
  }

  /** That holds for every prior artifact and every schedule of lives exactly when the old artifact
      is captured or no reused line moves. */
  lemma {:induction false} ResumesExactlyRepeatable(b: Book, rows: seq<Row>, plan: LinePlan, cooperative: bool)
    requires Ordered(rows) && PlanUsable(rows, plan)
    ensures (forall before, ends :: Readable(before) ==> Resumes(b, rows, plan, cooperative, before, ends))
            <==> Repeatable(plan, cooperative)
  {
    if Repeatable(plan, cooperative) {
      forall before, ends | Readable(before) ensures Resumes(b, rows, plan, cooperative, before, ends) {
        LivesSettle(b, rows, plan, cooperative, before, ends);
      }
    } else {
      var p :| p in plan.reuse && p.from != p.to;
      MovedLinkLost(b, rows, plan, p);
      LateKillLoses(b, rows, plan, Some([LostLink(b, rows, plan, p)]));
    }
  }

  /** Where reading one's own artifact is not harmless, one late kill is enough. */
  lemma {:induction false} LateKillLoses(b: Book, rows: seq<Row>, plan: LinePlan, before: Option<seq<Record>>)
    requires Ordered(rows) && LinkBook(b, rows, plan, before).Ok? && !Rerun(b, rows, plan, before)
    ensures !Resumes(b, rows, plan, false, before, [Settled, Done])
  {
    var goal := LinkBook(b, rows, plan, before).value;
    assert [Settled, Done][..1] == [Settled] && [Settled][..0] == [];
    assert AfterLives(b, rows, plan, false, before, []) == Output(before, false);
    assert AfterLives(b, rows, plan, false, before, [Settled]) == Output(FileOf(goal), false);
  }

  /** A late kill before such a second run leaves the newly linked lines' links alone. */
  lemma {:induction false} SecondLifeForgets(b: Book, rows: seq<Row>, plan: LinePlan, before: Option<seq<Record>>,
      made: seq<Record>)
    requires Ordered(rows) && PlanUsable(rows, plan) && LinkBook(b, rows, plan, before) == Ok(made)
    requires forall r :: r in made ==> r.line !in ReuseByOld(plan.reuse)
    ensures AfterLives(b, rows, plan, false, before, [Settled, Done]) ==
        Output(FileOf(Sort(FinalPass(b, rows, plan))), true)
  {
    var none: seq<LifeEnd> := [];
    assert none + [Settled] == [Settled] && [Settled] + [Done] == [Settled, Done];
    OneMoreLife(b, rows, plan, false, before, none, before, made, Settled);
    SecondRunForgets(b, rows, plan, FileOf(made));
    OneMoreLife(b, rows, plan, false, before, [Settled], FileOf(made), Sort(FinalPass(b, rows, plan)), Done);
  }

  // ---------------------------------------------------------------------------------------
  // `IbidContext`
  // ---------------------------------------------------------------------------------------

  /** The ibid state beside a shard; `Torn` stands for a file that cannot be read. */
  datatype Sidecar = Torn | Sidecar(start: nat, lines: nat, lastLine: nat, shard: seq<Record>,
                                    refs: seq<Ref>, emitted: Option<Ref>, previous: Option<Previous>)
  {
    /** Captured after exactly this batch, beside exactly this shard. */
    predicate Matches(batch: Batch, records: seq<Record>)
      requires batch.rows != []
    {
      && Sidecar? && start == batch.start && lines == |batch.rows|
      && lastLine == batch.rows[|batch.rows| - 1].index && shard == records
    }

    /** All that a seam keeps of state `s`. */
    ghost predicate Holds(s: State) {
      Sidecar? && refs == s.history.refs && emitted == s.emitted && previous == s.previous
    }

    /** What the batch after it starts from. */
    function Begin(b: Book): State
      requires Sidecar?
    {
      State(Replay(b.linker.titleOf, refs), emitted, previous)
    }
  }

  class IbidContext {
    var initialized: bool
    var refs: seq<Ref>
    var emitted: Option<Ref>
    var previous: Option<Previous>

    constructor ()
      ensures !initialized && refs == [] && emitted == None && previous == None
    {
      initialized, refs, emitted, previous := false, [], None, None;
    }

    /** The state the next batch starts from. */
    function Begin(b: Book): State
      reads this
    {
      State(if initialized then Replay(b.linker.titleOf, refs) else FRESH, emitted, previous)
    }

    /** The context was last moved by a batch that ended in state `s`. */
    ghost predicate Keeps(s: State)
      reads this
    {
      initialized && refs == s.history.refs && emitted == s.emitted && previous == s.previous
    }

    /** The next batch comes after state `s`: kept from the batch before, or the very first. */
    ghost predicate Follows(s: State)
      reads this
    {
      if initialized then Keeps(s) else s == START && refs == [] && emitted == None && previous == None
    }

    lemma {:induction false} BeginsCarried(b: Book, s: State)
      requires Follows(s)
      ensures Begin(b) == Carry(b, s)
    {}

    /** `state`: it fits this batch and shard only, and holds whatever state the context keeps, so
        that a context restored from it begins where this one would. */
    method Capture(batch: Batch, shard: seq<Record>) returns (s: Sidecar)
      requires batch.rows != []
      ensures s.Sidecar?
      ensures forall c: Batch, d: seq<Record> :: c.rows != [] ==>
        (s.Matches(c, d) <==> c.start == batch.start && d == shard && |c.rows| == |batch.rows|
                              && c.rows[|c.rows| - 1].index == batch.rows[|batch.rows| - 1].index)
      ensures forall t :: Keeps(t) ==> s.Holds(t)
      ensures initialized ==> forall b: Book :: s.Begin(b) == Begin(b)
    {
      s := Sidecar(batch.start, |batch.rows|, batch.rows[|batch.rows| - 1].index, shard, refs, emitted, previous);
    }

    /** `restore_state`: adopt a state captured for exactly this shard, or change nothing. */
    method RestoreState(s: Option<Sidecar>, factory: bool, batch: Batch, shard: seq<Record>) returns (ok: bool)
      requires batch.rows != []
      modifies this
      ensures ok <==> factory && s.Some? && s.value.Matches(batch, shard)
      ensures ok ==> forall t :: s.value.Holds(t) ==> Keeps(t)
      ensures ok ==> forall b: Book :: Begin(b) == s.value.Begin(b)
      ensures !ok ==> unchanged(this)
    {
      if !factory || s.None? || !s.value.Matches(batch, shard) {
        return false;
      }
      refs, emitted, previous := s.value.refs, s.value.emitted, s.value.previous;
      initialized := true;
      return true;
    }

    /** Link one batch from the carried history and keep what the next batch may need of it. */
    method Resolve(b: Book, rows: seq<Row>, batch: seq<Row>) returns (records: seq<Record>)
      modifies this
      ensures records == Emitted(BatchPass(b, rows, old(Begin(b)), batch), batch)
      ensures Keeps(BatchPass(b, rows, old(Begin(b)), batch).state)
      ensures Ordered(batch) ==> exists told ::
          PassTrace.Told(b, rows, old(Begin(b)), batch, told) && Keeps(PassTrace.Left(b, old(Begin(b)), told))
    {
      var p := BatchPass(b, rows, Begin(b), batch);
      if Ordered(batch) { ghost var told := PassTrace.BatchAsks(b, rows, Pass(Begin(b), map[]), batch); }
      initialized := true;
      refs, emitted, previous := p.state.history.refs, p.state.emitted, p.state.previous;
      records := Emitted(p, batch);
    }
  }

  // ---------------------------------------------------------------------------------------
  // The book's directory
  // ---------------------------------------------------------------------------------------

  datatype Outcome = Finished | Killed | Recycled | Deferred | InProgress | Error

  function PlanBatches(b: Book, rows: seq<Row>, plan: LinePlan): seq<Batch> {
    Batches(rows, Selection(Some(plan.ner), b.linker.eligible), b.limits)
  }

  /** Batches are never empty and their starts strictly increase. */
  ghost predicate Layout(bs: seq<Batch>) {
    (forall k :: 0 <= k < |bs| ==> bs[k].rows != []) && forall i, k :: 0 <= i < k < |bs| ==> bs[i].start < bs[k].start
  }

  lemma {:induction false} PlanLayout(b: Book, rows: seq<Row>, plan: LinePlan)
    ensures Layout(PlanBatches(b, rows, plan))
  {
    var sel := Selection(Some(plan.ner), b.linker.eligible);
    BatchesCut(rows, sel, b.limits);
    BatchStarts(rows, sel, b.limits);
  }

  /** What an uninterrupted life does: the records of every batch and the state before each. */
  datatype Script = Script(records: seq<seq<Record>>, states: seq<State>)

  ghost predicate Fits(script: Script, bs: seq<Batch>) {
    Layout(bs) && |script.records| == |bs| && |script.states| == |bs| + 1
  }

  /** Batch k of the script is what linking it from the state before it gives. */
  ghost predicate StepAt(b: Book, rows: seq<Row>, stateful: bool, bs: seq<Batch>, script: Script, k: nat)
    requires Fits(script, bs) && k < |bs|
  {
    var p := BatchPass(b, rows, Cross(b, stateful, script.states[k]), bs[k].rows);
    script.records[k] == Emitted(p, bs[k].rows) && script.states[k + 1] == p.state
  }

  /** The script of one uninterrupted life. */
  ghost predicate Uninterrupted(b: Book, rows: seq<Row>, stateful: bool, bs: seq<Batch>, script: Script) {
    && Fits(script, bs) && script.states[0] == START
    && forall k :: 0 <= k < |bs| ==> StepAt(b, rows, stateful, bs, script, k)
  }

  function SidecarOf(script: Script, bs: seq<Batch>, k: nat): Sidecar
    requires k < |bs| && bs[k].rows != [] && Fits(script, bs)
  {
    var after := script.states[k + 1];
    Sidecar(bs[k].start, |bs[k].rows|, bs[k].rows[|bs[k].rows| - 1].index, script.records[k],
            after.history.refs, after.emitted, after.previous)
  }

  /** What an uninterrupted life writes as the shard starting at `s`. */
  ghost predicate TrueShard(script: Script, bs: seq<Batch>, s: nat, shard: seq<Record>)
    requires Fits(script, bs)
  {
    exists k :: 0 <= k < |bs| && bs[k].start == s && shard == script.records[k]
  }

  ghost predicate TrueSidecar(script: Script, bs: seq<Batch>, s: nat, sidecar: Sidecar)
    requires Fits(script, bs)
  {
    sidecar.Torn? || exists k :: 0 <= k < |bs| && bs[k].start == s && sidecar == SidecarOf(script, bs, k)
  }

  lemma {:induction false} ShardAt(script: Script, bs: seq<Batch>, k: nat, shard: seq<Record>)
    requires Fits(script, bs) && k < |bs|
    ensures TrueShard(script, bs, bs[k].start, shard) <==> shard == script.records[k]
  {}

  lemma {:induction false} SidecarAt(script: Script, bs: seq<Batch>, k: nat, sidecar: Sidecar)
    requires Fits(script, bs) && k < |bs|
    ensures TrueSidecar(script, bs, bs[k].start, sidecar) <==> sidecar.Torn? || sidecar == SidecarOf(script, bs, k)
  {}

  /** No more shards than batches. */
  lemma {:induction false} ShardCount(script: Script, bs: seq<Batch>, shards: map<nat, seq<Record>>)
    requires Fits(script, bs) && forall s :: s in shards ==> TrueShard(script, bs, s, shards[s])
    ensures |shards| <= |bs|
    ensures shards != map[] ==> |shards| >= 1
  {
    forall s | s in shards ensures exists k :: 0 <= k < |bs| && bs[k].start == s {}
    StartCount(bs, shards.Keys);
    assert |shards| == |shards.Keys|;
    if shards != map[] {
      assert shards.Keys != {};
    }
  }

  lemma {:induction false} StartCount(bs: seq<Batch>, starts: set<nat>)
    requires forall s :: s in starts ==> exists k :: 0 <= k < |bs| && bs[k].start == s
    ensures |starts| <= |bs|
  {
    if bs != [] {
      var n := |bs| - 1;
      var rest := starts - {bs[n].start};
      forall s | s in rest ensures exists k :: 0 <= k < n && bs[..n][k].start == s {
        var k :| 0 <= k < |bs| && bs[k].start == s;
        assert bs[..n][k].start == s;
      }
      StartCount(bs[..n], rest);
      assert starts <= rest + {bs[n].start};
      LineMatch.SubsetCount(starts, rest + {bs[n].start});
    } else {
      assert starts == {};
    }
  }

  lemma {:induction false} LinkBookIs(b: Book, rows: seq<Row>, plan: LinePlan, prior: Option<seq<Record>>,
      reused: seq<Record>)
    requires Ordered(rows) && PlanUsable(rows, plan) && ReuseByOld(plan.reuse).Values <= CurrentByIndex(rows).Keys
    requires Relabelled(ReuseByOld(plan.reuse), CurrentByIndex(rows), RecordsIn(prior)) == Ok(reused)
    ensures LinkBook(b, rows, plan, prior) == Ok(Sort(reused + FinalPass(b, rows, plan)))
  {}

  /** Counts that strictly increase from at least 1 to at most n. */
  predicate Climbs(counts: seq<nat>, n: nat) {
    counts == [] || (var last := counts[|counts| - 1]; 1 <= last <= n && Climbs(counts[..|counts| - 1], last - 1))
  }

  /** There are at most n of them. */
  lemma {:induction false} RecyclesBounded(counts: seq<nat>, n: nat)
    requires Climbs(counts, n)
    ensures |counts| <= n
  {
    if counts == [] {
    } else {
      RecyclesBounded(counts[..|counts| - 1], counts[|counts| - 1] - 1);
    }
  }

  lemma {:induction false} ClimbsOn(counts: seq<nat>, n: nat, next: nat)
    requires Climbs(counts, n) && 1 <= next <= n && (counts != [] ==> counts[|counts| - 1] < next)
    ensures Climbs(counts + [next], n)
  {
    assert (counts + [next])[..|counts|] == counts;
  }

  predicate AtMost(counts: seq<nat>, n: nat) {
    forall i :: 0 <= i < |counts| ==> counts[i] <= n
  }

  lemma {:induction false} OneMoreChain(chains: seq<nat>, counts: seq<nat>, n: nat)
    requires AtMost(chains, n) && Climbs(counts, n)
    ensures AtMost(chains + [|counts|], n) && Climbs([], n)
  {
    RecyclesBounded(counts, n);
  }

  /** There is such a script, and joined it is the records of the whole pass. */
  lemma {:induction false} ScriptExists(b: Book, rows: seq<Row>, stateful: bool, bs: seq<Batch>)
      returns (script: Script)
    requires Layout(bs)
    ensures Uninterrupted(b, rows, stateful, bs, script)
  {
    script := Script(seq(|bs|, k requires 0 <= k < |bs| => BatchRecords(b, rows, stateful, bs, k)),
                     seq(|bs| + 1, k requires 0 <= k <= |bs| => StateAt(b, rows, stateful, bs, k)));
    forall k | 0 <= k < |bs| ensures StepAt(b, rows, stateful, bs, script, k) {
      NextState(b, rows, stateful, bs, k);
    }
  }

  lemma {:induction false} ScriptStates(b: Book, rows: seq<Row>, stateful: bool, bs: seq<Batch>, script: Script, k: nat)
    requires Uninterrupted(b, rows, stateful, bs, script) && k <= |bs|
    ensures script.states[k] == StateAt(b, rows, stateful, bs, k)
  {
    if k > 0 {
      ScriptStates(b, rows, stateful, bs, script, k - 1);
      assert StepAt(b, rows, stateful, bs, script, k - 1);
      NextState(b, rows, stateful, bs, k - 1);
    }
  }

  lemma {:induction false} ScriptRecordAt(b: Book, rows: seq<Row>, stateful: bool, bs: seq<Batch>, script: Script,
      k: nat)
    requires Uninterrupted(b, rows, stateful, bs, script) && k < |bs|
    ensures script.records[k] == BatchRecords(b, rows, stateful, bs, k)
  {
    ScriptStates(b, rows, stateful, bs, script, k);
    assert StepAt(b, rows, stateful, bs, script, k);
  }

  lemma {:induction false} RecordsJoin(b: Book, rows: seq<Row>, stateful: bool, bs: seq<Batch>,
      records: seq<seq<Record>>, k: nat)
    requires |records| == |bs| && k <= |bs|
    requires forall j :: 0 <= j < |bs| ==> records[j] == BatchRecords(b, rows, stateful, bs, j)
    ensures Concat(records[..k]) == AllRecords(b, rows, stateful, bs, k)
  {
    if k == 0 {
    } else {
      RecordsJoin(b, rows, stateful, bs, records, k - 1);
      ConcatStep(records, k - 1);
    }
  }

  lemma {:induction false} ScriptJoins(b: Book, rows: seq<Row>, plan: LinePlan, bs: seq<Batch>, script: Script)
    requires Ordered(rows) && bs == PlanBatches(b, rows, plan) && Uninterrupted(b, rows, plan.stateful, bs, script)
    ensures Concat(script.records) == FinalPass(b, rows, plan)
  {
    var sel := Selection(Some(plan.ner), b.linker.eligible);
    BatchesCut(rows, sel, b.limits);
    ChosenOrdered(rows, sel);
    assert bs[..|bs|] == bs;
    ShardsAreThePass(b, rows, plan.stateful, bs, |bs|);
    forall j | 0 <= j < |bs| ensures script.records[j] == BatchRecords(b, rows, plan.stateful, bs, j) {
      ScriptRecordAt(b, rows, plan.stateful, bs, script, j);
    }
    RecordsJoin(b, rows, plan.stateful, bs, script.records, |bs|);
    assert script.records[..|bs|] == script.records;
  }

  /** The first k batches have a shard. */
  predicate Committed(bs: seq<Batch>, k: nat, starts: set<nat>)
    requires k <= |bs|
  {
    k == 0 || (Committed(bs, k - 1, starts) && bs[k - 1].start in starts)
  }

  /** A batch not among the first k may lose its shard. */
  lemma {:induction false} CommittedOff(bs: seq<Batch>, k: nat, starts: set<nat>, start: nat)
    requires k < |bs| && bs[k].start == start && Layout(bs) && Committed(bs, k, starts)
    ensures Committed(bs, k, starts - {start})
  {
    AllCommitted(bs, k, starts);
    AllCommitted(bs, k, starts - {start});
  }

  lemma {:induction false} AllCommitted(bs: seq<Batch>, k: nat, starts: set<nat>)
    requires k <= |bs|
    ensures Committed(bs, k, starts) <==> forall j :: 0 <= j < k ==> bs[j].start in starts
  {
    if k == 0 {
    } else {
      AllCommitted(bs, k - 1, starts);
    }
  }

  lemma {:induction false} StaysCommitted(bs: seq<Batch>, k: nat, starts: set<nat>, more: set<nat>)
    requires k <= |bs| && starts <= more && Committed(bs, k, starts)
    ensures Committed(bs, k, more)
  {
    if k == 0 {
    } else {
      StaysCommitted(bs, k - 1, starts, more);
    }
  }

  /** The semantic checks on a resumed shard, but for the offsets. */
  predicate ShardBelongs(shard: seq<Record>, batch: seq<Row>) {
    forall i :: 0 <= i < |shard| ==>
        exists j :: 0 <= j < |batch| && batch[j].index == shard[i].line && Belongs(shard[i], batch[j])
  }

  /** A record may stand in a batch: its line is there, with its text and, if it kept one, its context. */
  ghost predicate StandsIn(r: Record, batch: seq<Row>) {
    exists row :: row in batch && r.line == row.index && r.source == row.content
                  && (r.context.Some? ==> r.context == Some(row.context))
  }

  lemma {:induction false} ShardBelongsExactly(shard: seq<Record>, batch: seq<Row>)
    ensures ShardBelongs(shard, batch) <==> forall r :: r in shard ==> StandsIn(r, batch)
  {
    if ShardBelongs(shard, batch) {
      forall r | r in shard ensures StandsIn(r, batch) {
        var i :| 0 <= i < |shard| && shard[i] == r;
        var j :| 0 <= j < |batch| && batch[j].index == shard[i].line && Belongs(shard[i], batch[j]);
        assert batch[j] in batch;
      }
    }
    if forall r :: r in shard ==> StandsIn(r, batch) {
      forall i | 0 <= i < |shard|
        ensures exists j :: 0 <= j < |batch| && batch[j].index == shard[i].line && Belongs(shard[i], batch[j])
      {
        assert shard[i] in shard;
        var row :| row in batch && shard[i].line == row.index && shard[i].source == row.content
          && (shard[i].context.Some? ==> shard[i].context == Some(row.context));
        var j :| 0 <= j < |batch| && batch[j] == row;
        assert batch[j].index == shard[i].line;
      }
    }
  }

  /** A shard of an uninterrupted life passes the checks on resumption. */
  lemma {:induction false} OwnShardBelongs(b: Book, rows: seq<Row>, stateful: bool, bs: seq<Batch>, script: Script,
      k: nat)
    requires Uninterrupted(b, rows, stateful, bs, script) && k < |bs|
    ensures ShardBelongs(script.records[k], bs[k].rows)
  {
    assert StepAt(b, rows, stateful, bs, script, k);
    var p := BatchPass(b, rows, Cross(b, stateful, script.states[k]), bs[k].rows);
    EmittedBelong(p, bs[k].rows);
    forall i | 0 <= i < |script.records[k]|
      ensures exists j :: 0 <= j < |bs[k].rows| && bs[k].rows[j].index == script.records[k][i].line
                          && Belongs(script.records[k][i], bs[k].rows[j])
    {
      assert script.records[k][i] in script.records[k];
    }
  }

  // ---------------------------------------------------------------------------------------
  // What can happen to a life
  // ---------------------------------------------------------------------------------------

  /** What happens at one batch: nothing; a peer holds its lock; a kill after a useless shard was dropped
      and before its sidecar was; an error, or a kill, before the shard is written; a kill after that; memory
      trouble found after that; a kill once all is written; growth past the heavy threshold; growth past
      the cap. What does not apply to the batch has no effect. */
  datatype Fate = Calm | Held | KilledDropping | Refused | KilledUnwritten | KilledWritten | Tainted | KilledCommitted
    | Grows | Bloats

  /** What happens after the last batch. */
  datatype Last = Goes | MemoryTrouble | KilledReading | KilledReplacing | KilledMarking

  /** What happens to one life: the files lost or torn before it, a kill before its first batch, and the
      rest in order. */
  datatype Weather = Weather(lost: set<nat>, torn: set<nat>, markerLost: bool, killedEarly: bool, fates: seq<Fate>,
                             last: Last)
  {
    function At(k: nat): Fate {
      if k < |fates| then fates[k] else Calm
    }

    /** Files may be lost, but nothing happens to the life itself. */
    predicate Quiet() {
      !killedEarly && last.Goes? && forall k :: 0 <= k < |fates| ==> fates[k].Calm?
    }

    /** A kill between replacing the published file and marking the book done. */
    predicate Late() {
      last.KilledReplacing? || last.KilledMarking?
    }
  }

  predicate NoneLate(weathers: seq<Weather>) {
    weathers == [] || (NoneLate(weathers[..|weathers| - 1]) && !weathers[|weathers| - 1].Late())
  }

  predicate SomeQuiet(weathers: seq<Weather>) {
    weathers != [] && (SomeQuiet(weathers[..|weathers| - 1]) || weathers[|weathers| - 1].Quiet())
  }

  lemma {:induction false} WeathersStep(weathers: seq<Weather>, k: nat)
    requires k < |weathers|
    ensures NoneLate(weathers[..k + 1]) <==> NoneLate(weathers[..k]) && !weathers[k].Late()
    ensures SomeQuiet(weathers[..k + 1]) <==> SomeQuiet(weathers[..k]) || weathers[k].Quiet()
  {
    assert weathers[..k + 1][..k] == weathers[..k];
  }

  lemma {:induction false} NoneLatePrefix(weathers: seq<Weather>, k: nat)
    requires k <= |weathers| && NoneLate(weathers)
    ensures NoneLate(weathers[..k])
  {
    if k == |weathers| {
      assert weathers[..k] == weathers;
    } else {
      var n := |weathers| - 1;
      assert weathers[..n][..k] == weathers[..k];
      NoneLatePrefix(weathers[..n], k);
    }
  }

  /** How a batch may end under its fate. */
  predicate Befalls(fate: Fate, outcome: Outcome) {
    && (fate.Calm? ==> outcome.Finished?)
    && (outcome.Error? ==> fate in {Refused, Tainted, Bloats})
    && (outcome.Killed? ==> fate in {KilledDropping, KilledUnwritten, KilledWritten, KilledCommitted})
    && (outcome.Deferred? ==> fate.Grows?) && (outcome.Recycled? ==> fate.Bloats?) && !outcome.InProgress?
  }

  class BookRun {
    const b: Book
    const rows: seq<Row>
    const plan: LinePlan
    const cooperative: bool
    const factory: bool
    const bs: seq<Batch>
    ghost const script: Script
    ghost const goal: Result<seq<Record>>
    const before: Option<seq<Record>>
    var out: Option<seq<Record>>
    var captured: Option<Option<seq<Record>>>
    var shards: map<nat, seq<Record>>
    var sidecars: map<nat, Sidecar>
    var marker: Option<nat>
    var done: bool
    var ends: seq<LifeEnd>
    ghost var recycles: seq<nat>
    ghost var chains: seq<nat>

    /** The script is an uninterrupted life's. */
    ghost predicate Scripted() {
      Uninterrupted(b, rows, plan.stateful, bs, script)
    }

    /** The layout is the plan's, and the goal what linking the book from the old artifact gives. */
    ghost predicate Planned() {
      Ordered(rows) && bs == PlanBatches(b, rows, plan) && goal == LinkBook(b, rows, plan, before)
    }

    /** Every shard and every readable sidecar on disk is what an uninterrupted life writes there. */
    ghost predicate Faithful()
      requires Fits(script, bs)
      reads this`shards, this`sidecars
    {
      && (forall s :: s in shards ==> TrueShard(script, bs, s, shards[s]))
      && (forall s :: s in sidecars ==> TrueSidecar(script, bs, s, sidecars[s]))
    }

    /** Committed counts at the recycles accepted since the marker was last lost, strictly increasing;
        the marker holds the last. Before each loss there were at most as many as batches. */
    ghost predicate Advancing()
      reads this`marker, this`recycles, this`chains
    {
      && Climbs(recycles, |bs|) && AtMost(chains, |bs|)
      && marker == if recycles == [] then None else Some(recycles[|recycles| - 1])
    }

    ghost predicate Valid()
      reads this`shards, this`sidecars, this`marker, this`recycles, this`chains
    {
      Fits(script, bs) && Faithful() && Advancing()
    }

    /** The published file and the `done` marker are what the lives so far leave, and a capture holds
        the old artifact. */
    ghost predicate Kept()
      requires Ordered(rows)
      reads this`out, this`captured, this`done, this`ends
    {
      && (captured.Some? ==> captured.value == before)
      && (cooperative && plan.reuse != [] && captured.None? ==> out == before)
      && Output(out, done) == AfterLives(b, rows, plan, cooperative, before, ends)
    }

    /** The artifact a life starting now takes for the old one. */
    ghost function PriorFile(): Option<seq<Record>>
      reads this`out
    {
      if cooperative then before else out
    }

    /** Joined with what the batches give, these reused records are what a life starting now makes. */
    ghost predicate Assembles(reused: seq<Record>)
      requires Ordered(rows)
      reads this`out
    {
      LinkBook(b, rows, plan, PriorFile()) == Ok(Sort(reused + Concat(script.records)))
    }

    constructor (b: Book, rows: seq<Row>, plan: LinePlan, cooperative: bool, factory: bool, before: Option<seq<Record>>)
      requires Ordered(rows)
      ensures Valid() && Scripted() && Planned() && Kept() && !done && ends == []
      ensures recycles == [] && chains == []
      ensures this.b == b && this.rows == rows && this.plan == plan && this.cooperative == cooperative
          && this.before == before
    {
      this.b, this.rows, this.plan, this.cooperative, this.factory := b, rows, plan, cooperative, factory;
      this.before, out, captured := before, before, None;
      bs := PlanBatches(b, rows, plan);
      PlanLayout(b, rows, plan);
      ghost var life := ScriptExists(b, rows, plan.stateful, PlanBatches(b, rows, plan));
      script := life;
      goal := LinkBook(b, rows, plan, before);
      shards, sidecars, marker, recycles := map[], map[], None, [];
      done, ends, chains := false, [], [];
    }

    /** Shards and sidecars may vanish or become unreadable between lives. */
    method Disturb(lost: set<nat>, torn: set<nat>)
      requires Valid()
      modifies this`shards, this`sidecars
      ensures Valid()
      ensures shards == old(shards) - lost
    {
      shards := shards - lost;
      sidecars := map s | s in sidecars && s !in lost :: if s in torn then Torn else sidecars[s];
    }

    /** So may the recycle marker, and with it the count the next recycle is measured against. */
    method LoseMarker()
      requires Valid()
      modifies this`marker, this`recycles, this`chains
      ensures Valid()
      ensures marker == None && recycles == [] && chains == old(chains) + [|old(recycles)|]
    {
      OneMoreChain(chains, recycles, |bs|);
      marker, recycles, chains := None, [], chains + [|recycles|];
    }

    /** Drop a shard, then its sidecar. */
    method Discard(start: nat, fate: Fate) returns (killed: bool)
      requires Valid()
      modifies this`shards, this`sidecars
      ensures Valid() && shards == old(shards) - {start}
      ensures killed <==> fate.KilledDropping?
      ensures sidecars == if killed then old(sidecars) else old(sidecars) - {start}
    {
      shards := shards - {start};
      if fate.KilledDropping? { return true; }
      sidecars := sidecars - {start};
      return false;
    }

    /** The shard of batch k is there, and so is the history after it if the book has one. */
    predicate Adoptable(k: nat, resumable: bool)
      requires k < |bs|
      reads this`shards, this`sidecars
    {
      && bs[k].start in shards
      && (plan.stateful ==> resumable && factory && bs[k].start in sidecars && !sidecars[bs[k].start].Torn?)
    }

    /** A shard already there: skip it, or recompute it when the history after it is out of reach. */
    method Adopt(k: nat, ctx: IbidContext, fate: Fate) returns (adopted: bool, killed: bool)
      requires Valid() && k < |bs| && bs[k].start in shards
      modifies this`shards, this`sidecars, ctx
      ensures Valid()
      ensures adopted <==> old(Adoptable(k, true))
      ensures adopted ==> shards == old(shards) && sidecars == old(sidecars) && !killed
      ensures adopted && plan.stateful ==> ctx.Keeps(script.states[k + 1])
      ensures !adopted ==> plan.stateful && shards == old(shards) - {bs[k].start} && unchanged(ctx)
      ensures !adopted ==> (killed <==> fate.KilledDropping?)
    {
      var start := bs[k].start;
      if !plan.stateful {
        return true, false;
      }
      var sidecar := if start in sidecars then Some(sidecars[start]) else None;
      ShardAt(script, bs, k, shards[start]);
      if sidecar.Some? { SidecarAt(script, bs, k, sidecar.value); }
      adopted := ctx.RestoreState(sidecar, factory, bs[k], shards[start]);
      killed := false;
      if adopted {
        assert sidecar.value.Holds(script.states[k + 1]);
      } else {
        killed := Discard(start, fate);
      }
    }

    /** `process_batch` for batch k, from the history in hand or, statelessly, from none. */
    method Compute(k: nat, ctx: IbidContext) returns (records: seq<Record>)
      requires Scripted() && k < |bs|
      requires plan.stateful ==> ctx.Follows(script.states[k])
      modifies ctx
      ensures records == script.records[k]
      ensures plan.stateful ==> ctx.Keeps(script.states[k + 1])
    {
      assert StepAt(b, rows, plan.stateful, bs, script, k);
      if plan.stateful {
        ctx.BeginsCarried(b, script.states[k]);
        records := ctx.Resolve(b, rows, bs[k].rows);
      } else {
        records := Emitted(BatchPass(b, rows, START, bs[k].rows), bs[k].rows);
      }
    }

    method WriteShard(k: nat, records: seq<Record>)
      requires Valid() && k < |bs| && records == script.records[k]
      modifies this`shards
      ensures Valid() && shards == old(shards)[bs[k].start := records]
    {
      ShardAt(script, bs, k, records);
      shards := shards[bs[k].start := records];
    }

    method WriteSidecar(k: nat, sidecar: Sidecar)
      requires Valid() && k < |bs| && sidecar == SidecarOf(script, bs, k)
      modifies this`sidecars
      ensures Valid() && sidecars == old(sidecars)[bs[k].start := sidecar]
    {
      SidecarAt(script, bs, k, sidecar);
      sidecars := sidecars[bs[k].start := sidecar];
    }

    /** Write batch k's shard, then its sidecar: whatever stops it, a new sidecar has its shard. */
    method Commit(k: nat, records: seq<Record>, ctx: IbidContext, fate: Fate) returns (outcome: Outcome)
      requires Valid() && k < |bs| && records == script.records[k]
      requires plan.stateful ==> ctx.Keeps(script.states[k + 1])
      modifies this`shards, this`sidecars
      ensures Valid()
      ensures outcome ==
        if fate.Refused? || (fate.Tainted? && plan.stateful) then Error
        else if fate in {KilledUnwritten, KilledWritten, KilledCommitted} then Killed
        else Finished
      ensures shards ==
        if fate.Refused? || fate.KilledUnwritten? then old(shards)
        else if fate.Tainted? && plan.stateful then old(shards) - {bs[k].start}
        else old(shards)[bs[k].start := script.records[k]]
      ensures sidecars ==
        if !plan.stateful || fate in {Refused, KilledUnwritten, KilledWritten, Tainted} then old(sidecars)
        else old(sidecars)[bs[k].start := SidecarOf(script, bs, k)]
    {
      if fate.Refused? { return Error; }
      if fate.KilledUnwritten? { return Killed; }
      WriteShard(k, records);
      if fate.KilledWritten? { return Killed; }
      if plan.stateful {
        var sidecar := ctx.Capture(bs[k], records);
        assert sidecar.Matches(bs[k], records) && sidecar.Holds(script.states[k + 1]);
        if fate.Tainted? {
          shards := shards - {bs[k].start};
          assert shards == old(shards) - {bs[k].start};
          return Error;
        }
        WriteSidecar(k, sidecar);
      }
      return if fate.KilledCommitted? then Killed else Finished;
    }

    /** `refuse_a_book_that_recycles_without_progress` */
    method RecordRecycle() returns (refused: bool)
      requires Valid() && shards != map[]
      modifies this`marker, this`recycles
      ensures Valid()
      ensures refused <==> old(marker.Some? && |shards| <= marker.value)
      ensures refused ==> recycles == old(recycles)
      ensures !refused ==> recycles == old(recycles) + [|shards|]
    {
      var committed := |shards|;
      if marker.Some? && committed <= marker.value {
        return true;
      }
      ShardCount(script, bs, shards);
      ClimbsOn(recycles, |bs|, committed);
      marker, recycles := Some(committed), recycles + [committed];
      return false;
    }

    /** The artifact to reuse records from: captured once for cooperative reuse, else the published one. */
    method PriorArtifact() returns (prior: Option<seq<Record>>)
      requires Ordered(rows) && Valid() && Kept()
      modifies this`captured
      ensures Valid() && Kept()
      ensures cooperative && plan.reuse != [] ==> prior == before && captured == Some(before)
      ensures !(cooperative && plan.reuse != []) ==> prior == out
    {
      prior := out;
      if cooperative && plan.reuse != [] {
        if captured.None? {
          captured := Some(out);
        }
        prior := captured.value;
      }
    }

    /** What linking a batch comes to. */
    ghost predicate Links(fate: Fate, refused: bool, outcome: Outcome) {
      outcome ==
        if cooperative && fate.Held? then Finished
        else if fate.Refused? || (fate.Tainted? && plan.stateful) || (fate.Bloats? && refused) then Error
        else if fate in {KilledUnwritten, KilledWritten, KilledCommitted} then Killed
        else if fate.Grows? then Outcome.Deferred
        else if fate.Bloats? then Recycled
        else Finished
    }

    /** Link batch k and commit it. */
    method ComputeAndCommit(k: nat, ctx: IbidContext, fate: Fate) returns (outcome: Outcome)
      requires Valid() && Scripted() && k < |bs|
      requires plan.stateful ==> ctx.Follows(script.states[k])
      modifies this`shards, this`sidecars, ctx
      ensures Valid()
      ensures outcome ==
        if fate.Refused? || (fate.Tainted? && plan.stateful) then Error
        else if fate in {KilledUnwritten, KilledWritten, KilledCommitted} then Killed
        else Finished
      ensures outcome.Finished? ==> bs[k].start in shards && shards.Keys == old(shards).Keys + {bs[k].start}
      ensures plan.stateful ==> ctx.Keeps(script.states[k + 1])
    {
      var records := Compute(k, ctx);
      outcome := Commit(k, records, ctx, fate);
    }

    /** A committed batch may end its life: growth defers the book, memory recycles the worker. */
    method Judge(fate: Fate) returns (outcome: Outcome, refused: bool)
      requires Valid() && shards != map[]
      modifies this`marker, this`recycles
      ensures Valid() && (refused ==> old(marker.Some?) && |shards| <= old(marker).value)
      ensures outcome ==
        if fate.Grows? then Outcome.Deferred
        else if !fate.Bloats? then Finished
        else if refused then Error
        else Recycled
      ensures outcome.Recycled? <==> |recycles| == |old(recycles)| + 1
      ensures !outcome.Recycled? ==> recycles == old(recycles)
    {
      outcome, refused := Finished, false;
      if fate.Grows? {
        outcome := Outcome.Deferred;
      } else if fate.Bloats? {
        refused := RecordRecycle();
        outcome := if refused then Error else Recycled;
      }
    }

    /** Link batch k now, if no peer holds its lock; then judge growth and memory. */
    method LinkBatch(k: nat, ctx: IbidContext, fate: Fate) returns (outcome: Outcome)
      requires Valid() && Scripted() && k < |bs|
      requires plan.stateful ==> !cooperative && ctx.Follows(script.states[k])
      modifies this`shards, this`sidecars, this`marker, this`recycles, ctx
      ensures Valid()
      ensures Befalls(fate, outcome)
      ensures exists refused :: Links(fate, refused, outcome)
                                && (refused ==> old(marker.Some?) && |shards| <= old(marker).value)
      ensures !outcome.Error? && !outcome.Killed? ==>
        shards.Keys == if cooperative && fate.Held? then old(shards).Keys else old(shards).Keys + {bs[k].start}
      ensures outcome.Finished? && plan.stateful ==> ctx.Keeps(script.states[k + 1])
      ensures outcome.Recycled? <==> |recycles| == |old(recycles)| + 1
      ensures !outcome.Recycled? ==> recycles == old(recycles)
    {
      if cooperative && fate.Held? {
        assert Links(fate, false, Finished);
        return Finished;
      }
      outcome := ComputeAndCommit(k, ctx, fate);
      if outcome.Finished? {
        var refused;
        outcome, refused := Judge(fate);
        assert Links(fate, refused, outcome);
        return;
      }
      assert Links(fate, false, outcome);
    }

    /** What a shard already there is good for: it is dropped if this life has lost the history, checked,
        and skipped or dropped. */
    method Resume(k: nat, ctx: IbidContext, resumable: bool, fate: Fate)
        returns (adopted: bool, killed: bool, failed: bool, stillResumable: bool)
      requires Valid() && Scripted() && k < |bs|
      modifies this`shards, this`sidecars, ctx
      ensures Valid() && !failed
      ensures adopted <==> old(Adoptable(k, resumable))
      ensures adopted ==> shards == old(shards) && sidecars == old(sidecars) && !killed && stillResumable == resumable
      ensures adopted && plan.stateful ==> ctx.Keeps(script.states[k + 1])
      ensures killed ==> fate.KilledDropping?
      ensures !adopted ==> shards == old(shards) - {bs[k].start} && unchanged(ctx)
    {
      var start := bs[k].start;
      adopted, killed, failed, stillResumable := false, false, false, resumable;
      if start in shards && plan.stateful && !resumable {
        killed := Discard(start, fate);
        return;
      }
      if start in shards {
        ShardAt(script, bs, k, shards[start]);
        OwnShardBelongs(b, rows, plan.stateful, bs, script, k);
        if !ShardBelongs(shards[start], bs[k].rows) {
          failed := true;
          return;
        }
        adopted, killed := Adopt(k, ctx, fate);
        stillResumable := resumable && adopted;
        if !plan.stateful { stillResumable := resumable; }
      }
    }

    /** One batch of a life that has reached it: skip a shard already committed, or link it. */
    method DoBatch(k: nat, ctx: IbidContext, resumable: bool, fate: Fate)
      returns (outcome: Outcome, stillResumable: bool)
      requires Valid() && Scripted() && k < |bs|
      requires plan.stateful ==> !cooperative && ctx.Follows(script.states[k])
      modifies this`shards, this`sidecars, this`marker, this`recycles, ctx
      ensures Valid() && Befalls(fate, outcome)
      ensures old(Adoptable(k, resumable)) ==>
        outcome.Finished? && shards == old(shards) && sidecars == old(sidecars) && stillResumable == resumable
      ensures outcome.Finished? ==> old(shards).Keys - {bs[k].start} <= shards.Keys
      ensures outcome.Finished? && (!cooperative || !fate.Held?) ==> bs[k].start in shards
      ensures outcome.Finished? && plan.stateful ==> ctx.Keeps(script.states[k + 1])
      ensures outcome.Recycled? <==> |recycles| == |old(recycles)| + 1
      ensures !outcome.Recycled? ==> recycles == old(recycles)
    {
      var adopted, killed, failed;
      adopted, killed, failed, stillResumable := Resume(k, ctx, resumable, fate);
      if failed { return Error, stillResumable; }
      if killed { return Killed, stillResumable; }
      if adopted { return Finished, stillResumable; }
      outcome := LinkBatch(k, ctx, fate);
    }

    /** The next batch, with the history of the one before in hand. */
    method NextBatch(k: nat, ctx: IbidContext, resumable: bool, fate: Fate, ghost whole: bool)
        returns (outcome: Outcome, stillResumable: bool)
      requires Valid() && Scripted() && k < |bs|
      requires whole ==> Committed(bs, k, shards.Keys) && (cooperative ==> !fate.Held?)
      requires plan.stateful ==> !cooperative && ctx.Follows(script.states[k])
      modifies this`shards, this`sidecars, this`marker, this`recycles, ctx
      ensures Valid()
      ensures fate.Calm? ==> outcome.Finished?
      ensures outcome.Finished? && whole ==> Committed(bs, k + 1, shards.Keys)
      ensures outcome.Finished? && plan.stateful ==> ctx.Follows(script.states[k + 1])
      ensures outcome.Recycled? <==> |recycles| == |old(recycles)| + 1
      ensures !outcome.Recycled? ==> recycles == old(recycles)
    {
      ghost var earlier := shards.Keys;
      outcome, stillResumable := DoBatch(k, ctx, resumable, fate);
      if outcome.Finished? && whole {
        CommittedOff(bs, k, earlier, bs[k].start);
        StaysCommitted(bs, k, earlier - {bs[k].start}, shards.Keys);
      }
    }

    /** Every batch in turn. */
    method DoBatches(w: Weather) returns (outcome: Outcome)
      requires Valid() && Scripted() && (plan.stateful ==> !cooperative)
      modifies this`shards, this`sidecars, this`marker, this`recycles
      ensures Valid()
      ensures w.Quiet() ==> outcome.Finished?
      ensures outcome.Finished? && (!cooperative || w.Quiet()) ==> Committed(bs, |bs|, shards.Keys)
      ensures outcome.Recycled? <==> |recycles| == |old(recycles)| + 1
      ensures !outcome.Recycled? ==> recycles == old(recycles)
    {
      var ctx := new IbidContext();
      var resumable := plan.stateful && factory;
      outcome := Finished;
      ghost var whole, earlier := !cooperative || w.Quiet(), recycles;
      for k := 0 to |bs|
        invariant Valid() && outcome.Finished? && recycles == earlier
        invariant plan.stateful ==> ctx.Follows(script.states[k])
        invariant whole ==> Committed(bs, k, shards.Keys)
      {
        outcome, resumable := NextBatch(k, ctx, resumable, w.At(k), whole);
        if !outcome.Finished? { return; }
      }
    }

    /** Every shard in batch order. */
    method ReadShards() returns (records: seq<Record>)
      requires Valid() && forall j :: 0 <= j < |bs| ==> bs[j].start in shards
      ensures records == Concat(script.records)
    {
      records := [];
      for k := 0 to |bs|
        invariant records == Concat(script.records[..k])
      {
        ShardAt(script, bs, k, shards[bs[k].start]);
        assert script.records[..k + 1][..k] == script.records[..k];
        records := records + shards[bs[k].start];
      }
      assert script.records[..|bs|] == script.records;
    }

    /** The plan is checked, then the records it reuses are read. */
    method Reuse() returns (reused: Result<seq<Record>>)
      requires Valid() && Scripted() && Planned() && Kept()
      modifies this`captured
      ensures Valid() && Kept()
      ensures reused.Ok? ==> Assembles(reused.value) && (plan.stateful ==> !cooperative)
      ensures reused.Ok? && cooperative && plan.reuse != [] ==> captured.Some?
      ensures reused.Ok? <==> LinkBook(b, rows, plan, PriorFile()).Ok? && (plan.stateful ==> !cooperative)
    {
      if !PlanUsable(rows, plan) || (plan.stateful && cooperative) {
        return Raised("line plan does not exactly partition the book");
      }
      var file := PriorArtifact();
      ReuseByOldAt(plan.reuse);
      CurrentByIndexAt(rows);
      reused := ReusedRecords(ReuseByOld(plan.reuse), CurrentByIndex(rows), RecordsIn(file));
      if plan.reuse == [] { NothingReused(b, rows, plan, file, PriorFile()); }
      if reused.Ok? {
        ScriptJoins(b, rows, plan, bs, script);
        LinkBookIs(b, rows, plan, file, reused.value);
      }
    }

    /** With every shard there, sort all records and replace the published artifact; a file without
        links is removed again, and the book is marked done. */
    method Assemble(reused: seq<Record>, last: Last) returns (outcome: Outcome, end: LifeEnd)
      requires Valid() && !done
      modifies this`out, this`done
      ensures outcome ==
        if last.MemoryTrouble? then Error
        else if !Committed(bs, |bs|, shards.Keys) then InProgress
        else if last.Goes? then Finished
        else Killed
      ensures end ==
        if outcome.Finished? then LifeEnd.Done
        else if outcome.Killed? && last.KilledReplacing? then Replaced
        else if outcome.Killed? && last.KilledMarking? then Settled
        else Early
      ensures out == Settle(old(out), Sort(reused + Concat(script.records)), end)
      ensures done <==> end.Done?
    {
      end := Early;
      AllCommitted(bs, |bs|, shards.Keys);
      if last.MemoryTrouble? { return Error, end; }
      if exists j :: 0 <= j < |bs| && bs[j].start !in shards {
        return InProgress, end;
      }
      var linked := ReadShards();
      if last.KilledReading? { return Killed, end; }
      var records := Sort(reused + linked);
      out, end := Some(records), Replaced;
      if last.KilledReplacing? { return Killed, end; }
      if records == [] {
        out := None;
      }
      end := Settled;
      if last.KilledMarking? { return Killed, end; }
      done, end := true, LifeEnd.Done;
      return Finished, end;
    }

    /** Link every batch, then assemble. */
    method LinkAndAssemble(reused: seq<Record>, w: Weather) returns (outcome: Outcome, end: LifeEnd)
      requires Valid() && Scripted() && !done && (plan.stateful ==> !cooperative)
      modifies this`shards, this`sidecars, this`marker, this`recycles, this`out, this`done
      ensures Valid()
      ensures w.Quiet() ==> outcome.Finished?
      ensures end.Replaced? || end.Settled? ==> w.Late()
      ensures out == Settle(old(out), Sort(reused + Concat(script.records)), end)
      ensures (done <==> outcome.Finished?) && (done <==> end.Done?)
      ensures !outcome.Finished? && !outcome.Killed? ==> end.Early?
      ensures outcome.Recycled? <==> |recycles| == |old(recycles)| + 1
      ensures !outcome.Recycled? ==> recycles == old(recycles)
    {
      end := Early;
      outcome := DoBatches(w);
      if outcome.Finished? {
        outcome, end := Assemble(reused, w.last);
      }
    }

    /** `process_book_checkpointed` and the `done` marker. */
    method LinkOnce(w: Weather) returns (outcome: Outcome, end: LifeEnd, ghost made: seq<Record>)
      requires Valid() && Scripted() && Planned() && Kept() && !done
      modifies this`captured, this`shards, this`sidecars, this`marker, this`recycles, this`out, this`done
      ensures Valid()
      ensures captured.Some? ==> captured.value == before
      ensures cooperative && plan.reuse != [] && captured.None? ==> out == before
      ensures out == Settle(old(out), made, end)
      ensures !end.Early? ==> LinkBook(b, rows, plan, old(PriorFile())) == Ok(made)
      ensures (done <==> outcome.Finished?) && (done <==> end.Done?)
      ensures !outcome.Finished? && !outcome.Killed? ==> end.Early?
      ensures w.Quiet() && LinkBook(b, rows, plan, old(PriorFile())).Ok? && (plan.stateful ==> !cooperative) ==>
        outcome.Finished?
      ensures end.Replaced? || end.Settled? ==> w.Late()
      ensures outcome.Recycled? <==> |recycles| == |old(recycles)| + 1
      ensures !outcome.Recycled? ==> recycles == old(recycles)
    {
      end, made := Early, [];
      var reused := Reuse();
      if w.killedEarly { return Killed, end, made; }
      if reused.Raised? {
        return Error, end, made;
      }
      made := Sort(reused.value + Concat(script.records));
      outcome, end := LinkAndAssemble(reused.value, w);
    }

    /** One life. Only one killed after it replaced the published file leaves that file changed and the
        book undone; one to which nothing happens finishes whatever earlier lives left it, if the book
        can be linked at all. */
    method Life(w: Weather) returns (outcome: Outcome, end: LifeEnd)
      requires Valid() && Scripted() && Planned() && Kept() && !done
      modifies this
      ensures Valid() && Kept() && ends == old(ends) + [end]
      ensures chains == old(chains)
      ensures (done <==> outcome.Finished?) && (done <==> end.Done?)
      ensures !outcome.Finished? && !outcome.Killed? ==> end.Early?
      ensures end.Early? ==> out == old(out)
      ensures !end.Early? ==> LinkBook(b, rows, plan, old(PriorFile())).Ok?
      ensures w.Quiet() && LinkBook(b, rows, plan, old(PriorFile())).Ok? && (plan.stateful ==> !cooperative) ==> done
      ensures end.Replaced? || end.Settled? ==> w.Late()
      ensures outcome.Recycled? <==> |recycles| == |old(recycles)| + 1
      ensures !outcome.Recycled? ==> recycles == old(recycles)
    {
      ghost var was, made := out, [];
      outcome, end, made := LinkOnce(w);
      OneMoreLife(b, rows, plan, cooperative, before, ends, was, made, end);
      ends := ends + [end];
    }

    /** One life, after files may have been lost. */
    method NextLife(w: Weather)
      requires Valid() && Scripted() && Planned() && Kept() && !done
      modifies this
      ensures Valid() && Kept()
      ensures w.Quiet() && LinkBook(b, rows, plan, old(PriorFile())).Ok? && (plan.stateful ==> !cooperative) ==> done
      ensures KilledLate(ends) ==> KilledLate(old(ends)) || w.Late()
    {
      Disturb(w.lost, w.torn);
      if w.markerLost { LoseMarker(); }
      ghost var earlier := ends;
      var outcome, end := Life(w);
      OneMoreEnd(earlier, end);
    }

    lemma {:induction false} FileSettles()
      requires Planned() && Kept()
      ensures done && (Repeatable(plan, cooperative) || !KilledLate(ends)) ==> goal.Ok? && out == FileOf(goal.value)
      ensures Repeatable(plan, cooperative) || !KilledLate(ends) ==> OldOrMade(out, before, goal)
      ensures !done && !KilledLate(ends) ==> out == before
    {
      if Repeatable(plan, cooperative) || !KilledLate(ends) {
        LivesSettle(b, rows, plan, cooperative, before, ends);
      }
    }

    /** Until it is done, a book that can be linked can still be linked. */
    lemma {:induction false} StillLinks()
      requires Planned() && Kept() && !done && goal.Ok? && (Repeatable(plan, cooperative) || !KilledLate(ends))
      ensures LinkBook(b, rows, plan, PriorFile()).Ok?
    {
      FileSettles();
      LinksAlike(b, rows, plan, cooperative, before, out);
    }

    /** Nothing stands in the way of this book. */
    ghost predicate Linkable(weathers: seq<Weather>) {
      && goal.Ok? && (plan.stateful ==> !cooperative)
      && (Repeatable(plan, cooperative) || NoneLate(weathers))
    }

    /** The life in weather k of several. */
    method LifeAt(weathers: seq<Weather>, k: nat)
      requires Valid() && Scripted() && Planned() && Kept() && !done && k < |weathers|
      requires NoneLate(weathers[..k]) ==> !KilledLate(ends)
      requires Linkable(weathers) ==> !SomeQuiet(weathers[..k])
      modifies this
      ensures Valid() && Kept()
      ensures NoneLate(weathers[..k + 1]) ==> !KilledLate(ends)
      ensures Linkable(weathers) && SomeQuiet(weathers[..k + 1]) ==> done
    {
      WeathersStep(weathers, k);
      if NoneLate(weathers) { NoneLatePrefix(weathers, k); }
      if Linkable(weathers) { StillLinks(); }
      NextLife(weathers[k]);
    }

    /** Lives until one finishes, with files lost in between. Unless a life of a book that moves lines
        under live NER is killed late, a finished book is what one uninterrupted life makes of the old
        artifact; until a life is killed late, an unfinished one still has that old artifact. One life to
        which nothing happens is enough to finish it. */
    method Lives(weathers: seq<Weather>)
      requires Valid() && Scripted() && Planned() && Kept() && !done && ends == []
      modifies this
      ensures Valid() && Kept()
      ensures done && (Repeatable(plan, cooperative) || !KilledLate(ends)) ==> goal.Ok? && out == FileOf(goal.value)
      ensures Repeatable(plan, cooperative) || !KilledLate(ends) ==> OldOrMade(out, before, goal)
      ensures !done && !KilledLate(ends) ==> out == before
      ensures NoneLate(weathers) ==> !KilledLate(ends)
      ensures Linkable(weathers) && SomeQuiet(weathers) ==> done && out == FileOf(goal.value)
      ensures |recycles| <= |bs| && AtMost(chains, |bs|)
    {
      var k := 0;
      while k < |weathers| && !done
        invariant 0 <= k <= |weathers| && Valid() && Kept()
        invariant NoneLate(weathers[..k]) ==> !KilledLate(ends)
        invariant Linkable(weathers) && SomeQuiet(weathers[..k]) ==> done
      {
        LifeAt(weathers, k);
        k := k + 1;
      }
      if NoneLate(weathers) { NoneLatePrefix(weathers, k); }
      assert weathers[..|weathers|] == weathers;
      FileSettles();
      RecyclesBounded(recycles, |bs|);
    }
  }
}
