/** The linker of one book: citation history, its truncation at transport seams (`IbidContext`)
    and the pass over a book's batches (`process_batch`, `process_book`). */
module Ibid {
  import opened Prelude
  import opened Transport

  /** A reference, as its normalized string. */
  type Ref = string

  // ---------------------------------------------------------------------------------------
  // Citation history
  // ---------------------------------------------------------------------------------------

  /** The resolver's ibid history: its last three refs, its last three titles and the ref of each title. */
  datatype History = History(refs: seq<Ref>, titles: seq<string>, byTitle: map<string, Ref>)

  const FRESH: History := History([], [], map[])

  function Remember(titleOf: Ref -> string, h: History, ref: Ref): History {
    var title := titleOf(ref);
    var titles := if title in h.byTitle then h.titles else h.titles + [title];
    var byTitle := h.byTitle[title := ref];
    var refs := h.refs + [ref];
    History(if |refs| > 3 then refs[1..] else refs,
            if |titles| > 3 then titles[1..] else titles,
            if |titles| > 3 then byTitle - {titles[0]} else byTitle)
  }

  /** What the resolver does to its history on one line: remember a ref, or reset after a failed citation. */
  datatype Move = Reset | Cite(ref: Ref)

  function Moved(titleOf: Ref -> string, h: History, move: Move): History {
    match move
    case Reset => FRESH
    case Cite(ref) => Remember(titleOf, h, ref)
  }

  function Moves(titleOf: Ref -> string, h: History, moves: seq<Move>): History {
    if moves == [] then h else Moved(titleOf, Moves(titleOf, h, moves[..|moves| - 1]), moves[|moves| - 1])
  }

  /** `IbidContext._restore`: reset, then remember each carried ref again. */
  function Replay(titleOf: Ref -> string, refs: seq<Ref>): History {
    if refs == [] then FRESH else Remember(titleOf, Replay(titleOf, refs[..|refs| - 1]), refs[|refs| - 1])
  }

  lemma {:induction false} MovesKeepThree(titleOf: Ref -> string, h: History, moves: seq<Move>)
    requires |h.refs| <= 3
    ensures |Moves(titleOf, h, moves).refs| <= 3
  {
    if moves == [] {
    } else {
      MovesKeepThree(titleOf, h, moves[..|moves| - 1]);
    }
  }

  /** Replaying at most three refs remembers exactly those refs. */
  lemma {:induction false} ReplayRefs(titleOf: Ref -> string, refs: seq<Ref>)
    requires |refs| <= 3
    ensures Replay(titleOf, refs).refs == refs
  {
    if refs == [] {
    } else {
      ReplayRefs(titleOf, refs[..|refs| - 1]);
      assert refs == refs[..|refs| - 1] + [refs[|refs| - 1]];
    }
  }

  // ---------------------------------------------------------------------------------------
  // One line
  // ---------------------------------------------------------------------------------------

  /** A citation read on some line: where it ended, whether it failed, its candidates and its trusted target. */
  datatype Citation = Citation(end: nat, failed: bool, candidates: seq<Ref>, trusted: Option<Ref>)
  datatype Previous = Previous(line: nat, citation: Citation)

  /** Everything one line hands to the next: resolver history, last emitted ref, preceding citation. */
  datatype State = State(history: History, emitted: Option<Ref>, previous: Option<Previous>)

  const START: State := State(FRESH, None, None)

  /** A link before it is stamped with its line. */
  datatype LinkSpan = LinkSpan(start: nat, end: nat, target: Ref, direction: Option<string>)

  /** All that resolving one line may look at. The line index enters only through `sameLine`,
      the test whether the preceding citation stood on this very line. */
  datatype Query = Query(history: History, emitted: Option<Ref>, preceding: Option<Citation>, sameLine: bool,
                         content: string, context: string, position: Option<Ref>)

  /** What resolving one line yields; `cited` is its last citation, if it had any. */
  datatype Reading = Reading(moves: seq<Move>, emitted: Option<Ref>, cited: Option<Citation>, spans: seq<LinkSpan>)

  /** The foreign parts: NER, text gates, titles and the resolver, all deterministic. */
  datatype Linker = Linker(eligible: string -> bool, mentionsIbid: string -> bool, entities: string -> seq<string>,
                           titleOf: Ref -> string, resolve: Query -> Reading)

  /** One source book. `place` gives a line's amud from the daf headings above it. */
  datatype Book = Book(linker: Linker, limits: Limits, placedByDafHeadings: bool, place: (seq<Row>, nat) -> Option<Ref>)

  /** `talmud_positions` yields nothing unless the book is placed by its daf headings. */
  function Position(b: Book, rows: seq<Row>, line: nat): Option<Ref> {
    if b.placedByDafHeadings then b.place(rows, line) else None
  }

  /** Whether NER sends this row and finds anything on it. */
  predicate HasEntity(b: Book, row: Row) {
    b.linker.eligible(row.content) && b.linker.entities(row.content) != []
  }

  datatype Linked = Linked(state: State, spans: seq<LinkSpan>)

  function Ask(b: Book, rows: seq<Row>, s: State, row: Row): Query {
    Query(s.history, s.emitted,
          if s.previous.Some? then Some(s.previous.value.citation) else None,
          s.previous.Some? && s.previous.value.line == row.index,
          row.content, row.context, Position(b, rows, row.index))
  }

  /** One line of the pass over `rows`. Without an entity there is no citation to loop over. */
  function Step(b: Book, rows: seq<Row>, s: State, row: Row): Linked {
    if b.linker.entities(row.content) == [] then Linked(s, [])
    else
      var r := b.linker.resolve(Ask(b, rows, s, row));
      Linked(State(Moves(b.linker.titleOf, s.history, r.moves), r.emitted,
                   if r.cited.Some? then Some(Previous(row.index, r.cited.value)) else s.previous),
             r.spans)
  }

  /** A seam keeps the remembered refs, the last emitted ref and the preceding citation, nothing else. */
  function Carry(b: Book, s: State): State {
    s.(history := Replay(b.linker.titleOf, s.history.refs))
  }

  /** What a new batch starts from: the carried history, or a fresh one when the book is linked statelessly. */
  function Cross(b: Book, stateful: bool, s: State): State {
    if stateful then Carry(b, s) else START
  }

  /** Crossing a second seam changes nothing more, and a seam before any citation is no seam. */
  lemma {:induction false} CarryLaws(b: Book, s: State)
    requires |s.history.refs| <= 3
    ensures Carry(b, Carry(b, s)) == Carry(b, s)
    ensures Carry(b, START) == START
    ensures |Carry(b, s).history.refs| <= 3
  {
    ReplayRefs(b.linker.titleOf, s.history.refs);
  }

  lemma {:induction false} StepKeepsThree(b: Book, rows: seq<Row>, s: State, row: Row)
    requires |s.history.refs| <= 3
    ensures |Step(b, rows, s, row).state.history.refs| <= 3
  {
    if b.linker.entities(row.content) != [] {
      MovesKeepThree(b.linker.titleOf, s.history, b.linker.resolve(Ask(b, rows, s, row)).moves);
    }
  }

  /** A seam is not a no-op: after one ref of X and three of Y the resolver still knows where it was
      in X; across a seam it does not. This is why the planner compares seam counts. */
  lemma {:induction false} SeamForgets(b: Book, x: Ref, y: Ref, y': Ref, y'': Ref)
    requires var title := b.linker.titleOf; title(y) == title(y') == title(y'') != title(x)
    ensures var h := Moves(b.linker.titleOf, FRESH, [Cite(x), Cite(y), Cite(y'), Cite(y'')]);
      && h.refs == [y, y', y''] && h.byTitle == map[b.linker.titleOf(x) := x, b.linker.titleOf(y) := y'']
      && Carry(b, State(h, None, None)).history.byTitle == map[b.linker.titleOf(y) := y'']
  {
    var t := b.linker.titleOf;
    FourMoves(t, x, y, y', y'');
    var h1 := Remember(t, FRESH, x);
    var h2 := Remember(t, h1, y);
    var h3 := Remember(t, h2, y');
    assert h2 == History([x, y], [t(x), t(y)], map[t(x) := x, t(y) := y]);
    assert h3 == History([x, y, y'], [t(x), t(y)], map[t(x) := x, t(y) := y']);
    assert [x, y, y', y''][1..] == [y, y', y''];
    ReplayThree(t, y, y', y'');
  }

  lemma {:induction false} FourMoves(t: Ref -> string, x: Ref, y: Ref, y': Ref, y'': Ref)
    ensures Moves(t, FRESH, [Cite(x), Cite(y), Cite(y'), Cite(y'')]) ==
        Remember(t, Remember(t, Remember(t, Remember(t, FRESH, x), y), y'), y'')
  {
    var m4 := [Cite(x), Cite(y), Cite(y'), Cite(y'')];
    assert m4[..3] == [Cite(x), Cite(y), Cite(y')] && m4[..3][..2] == [Cite(x), Cite(y)]
        && m4[..3][..2][..1] == [Cite(x)];
    assert m4[..3][..2][..1][..0] == [];
    assert Moves(t, FRESH, m4[..3][..2][..1]) == Remember(t, FRESH, x);
    assert Moves(t, FRESH, m4[..3][..2]) == Remember(t, Remember(t, FRESH, x), y);
  }

  lemma {:induction false} ReplayThree(t: Ref -> string, y: Ref, y': Ref, y'': Ref)
    requires t(y) == t(y') == t(y'')
    ensures Replay(t, [y, y', y'']).byTitle == map[t(y) := y'']
  {
    ReplayAppend(t, [y, y'], y'');
    ReplayAppend(t, [y], y');
    ReplayAppend(t, [], y);
    assert [] + [y] == [y] && [y] + [y'] == [y, y'] && [y, y'] + [y''] == [y, y', y''];
    assert Replay(t, [y]) == History([y], [t(y)], map[t(y) := y]);
    assert Replay(t, [y, y']) == History([y, y'], [t(y)], map[t(y) := y']);
  }

  lemma {:induction false} ReplayAppend(titleOf: Ref -> string, refs: seq<Ref>, ref: Ref)
    ensures Replay(titleOf, refs + [ref]) == Remember(titleOf, Replay(titleOf, refs), ref)
  {
    assert (refs + [ref])[..|refs|] == refs;
  }

  // ---------------------------------------------------------------------------------------
  // A pass: batch by batch, and line by line with seams
  // ---------------------------------------------------------------------------------------

  /** The state reached and the links of every line sent so far. */
  datatype Pass = Pass(state: State, links: map<nat, seq<LinkSpan>>)

  function After(b: Book, rows: seq<Row>, p: Pass, row: Row): Pass {
    var l := Step(b, rows, p.state, row);
    Pass(l.state, p.links[row.index := l.spans])
  }

  /** `process_batch` over the rows of one batch. */
  function RunRows(b: Book, rows: seq<Row>, p: Pass, batch: seq<Row>): Pass {
    if batch == [] then p
    else After(b, rows, RunRows(b, rows, p, batch[..|batch| - 1]), batch[|batch| - 1])
  }

  /** `process_book`: every batch in turn. */
  function RunBatches(b: Book, rows: seq<Row>, stateful: bool, bs: seq<Batch>): Pass {
    if bs == [] then Pass(START, map[])
    else
      var p := RunBatches(b, rows, stateful, bs[..|bs| - 1]);
      RunRows(b, rows, p.(state := Cross(b, stateful, p.state)), bs[|bs| - 1].rows)
  }

  /** The same pass seen line by line: cross before every seam line, skip ineligible ones. */
  function Fold(b: Book, rows: seq<Row>, stateful: bool, seams: set<nat>, done: seq<Row>): Pass {
    if done == [] then Pass(START, map[])
    else
      var row := done[|done| - 1];
      var p := Fold(b, rows, stateful, seams, done[..|done| - 1]);
      var q := if row.index in seams then p.(state := Cross(b, stateful, p.state)) else p;
      if b.linker.eligible(row.content) then After(b, rows, q, row) else q
  }

  lemma {:induction false} RunRowsAppend(b: Book, rows: seq<Row>, p: Pass, batch: seq<Row>, row: Row)
    ensures RunRows(b, rows, p, batch + [row]) == After(b, rows, RunRows(b, rows, p, batch), row)
  {
    assert (batch + [row])[..|batch|] == batch;
  }

  lemma {:induction false} RunBatchesAppend(b: Book, rows: seq<Row>, stateful: bool, bs: seq<Batch>, last: Batch)
    ensures RunBatches(b, rows, stateful, bs + [last]) ==
            var p := RunBatches(b, rows, stateful, bs);
            RunRows(b, rows, p.(state := Cross(b, stateful, p.state)), last.rows)
  {
    assert (bs + [last])[..|bs|] == bs;
  }

  lemma {:induction false} FoldSeams(b: Book, rows: seq<Row>, stateful: bool, seams: set<nat>, more: set<nat>,
      done: seq<Row>)
    requires forall k :: 0 <= k < |done| ==> (done[k].index in seams <==> done[k].index in more)
    ensures Fold(b, rows, stateful, seams, done) == Fold(b, rows, stateful, more, done)
  {
    if done == [] {
    } else {
      FoldSeams(b, rows, stateful, seams, more, done[..|done| - 1]);
    }
  }

  function All(b: Book): Selection {
    Selection(None, b.linker.eligible)
  }

  lemma {:induction false} OpeningLinesBound(bs: seq<Batch>, n: nat)
    requires forall r :: r in Flatten(bs) ==> r.index < n
    ensures forall i :: i in OpeningLines(bs) ==> i < n
  {
    if |bs| > 1 {
      OpeningLinesBound(bs[..|bs| - 1], n);
      if bs[|bs| - 1].rows != [] { assert bs[|bs| - 1].rows[0] in Flatten(bs); }
    }
  }

  /** The seams of a book with one more row. */
  lemma {:induction false} FeedSeams(bs: seq<Batch>, position: nat, row: Row, lim: Limits)
    requires forall k :: 0 <= k < |bs| ==> bs[k].rows != []
    ensures OpeningLines(Feed(bs, position, row, lim)) ==
            if bs != [] && !Room(bs[|bs| - 1].rows, row, lim) then OpeningLines(bs) + {row.index} else OpeningLines(bs)
  {
    var fed := Feed(bs, position, row, lim);
    if bs != [] {
      var n := |bs| - 1;
      if Room(bs[n].rows, row, lim) {
        assert fed[..n] == bs[..n];
      } else {
        assert fed[..n + 1] == bs;
      }
    }
  }

  /** Batch boundaries act exactly at the seam lines `transport_seams` reports. */
  lemma {:induction false} BatchesAreFold(b: Book, rows: seq<Row>, stateful: bool, done: seq<Row>)
    requires Ordered(done)
    ensures RunBatches(b, rows, stateful, Batches(done, All(b), b.limits)) ==
            Fold(b, rows, stateful, Seams(done, b.linker.eligible, b.limits), done)
  {
    if done == [] {
    } else {
      var init, row := done[..|done| - 1], done[|done| - 1];
      var bs := Batches(init, All(b), b.limits);
      BatchesAreFold(b, rows, stateful, init);
      BatchesCut(init, All(b), b.limits);
      ChosenSubset(init, All(b));
      if b.linker.eligible(row.content) {
        OpeningLinesBound(bs, row.index);
        FeedSeams(bs, |init|, row, b.limits);
        FoldSeams(b, rows, stateful, OpeningLines(bs), OpeningLines(Feed(bs, |init|, row, b.limits)), init);
        RunFeed(b, rows, stateful, bs, |init|, row);
      } else {
        OpeningLinesBound(bs, row.index);
      }
    }
  }

  /** Running one more fed row: in the open batch, or in a new one after crossing. */
  lemma {:induction false} RunFeed(b: Book, rows: seq<Row>, stateful: bool, bs: seq<Batch>, position: nat, row: Row)
    ensures RunBatches(b, rows, stateful, Feed(bs, position, row, b.limits)) ==
            var p := RunBatches(b, rows, stateful, bs);
            After(b, rows,
                  if bs != [] && !Room(bs[|bs| - 1].rows, row, b.limits) then p.(state := Cross(b, stateful, p.state))
                      else p, row)
  {
    var p := RunBatches(b, rows, stateful, bs);
    if bs != [] && Room(bs[|bs| - 1].rows, row, b.limits) {
      var n := |bs| - 1;
      var q := RunBatches(b, rows, stateful, bs[..n]);
      RunBatchesAppend(b, rows, stateful, bs[..n], Batch(bs[n].start, bs[n].rows + [row]));
      RunRowsAppend(b, rows, q.(state := Cross(b, stateful, q.state)), bs[n].rows, row);
    } else {
      var q := p.(state := Cross(b, stateful, p.state));
      RunBatchesAppend(b, rows, stateful, bs, Batch(position, [row]));
      RunRowsAppend(b, rows, q, [], row);
      assert [] + [row] == [row];
      if bs == [] {
        CarryLaws(b, START);
      }
    }
  }
}
