/** What linking a batch asks the resolver, line by line, and what it makes of the readings: the pass of
    `process_batch` and `IbidContext.resolve`, seen from outside. */
module PassTrace {
  import opened Prelude
  import opened Transport
  import opened Ibid

  // ---------------------------------------------------------------------------------------
  // The citation history
  // ---------------------------------------------------------------------------------------

  /** The refs cited since the last reset. */
  function Since(moves: seq<Move>): seq<Ref> {
    if moves == [] then []
    else
      match moves[|moves| - 1]
      case Reset => []
      case Cite(ref) => Since(moves[..|moves| - 1]) + [ref]
  }

  function LastThree(refs: seq<Ref>): seq<Ref> {
    if |refs| <= 3 then refs else refs[|refs| - 3..]
  }

  /** The latest ref of a title. */
  function Latest(titleOf: Ref -> string, refs: seq<Ref>, title: string): Option<Ref> {
    if refs == [] then None
    else if titleOf(refs[|refs| - 1]) == title then Some(refs[|refs| - 1])
    else Latest(titleOf, refs[..|refs| - 1], title)
  }

  function TitlesIn(titleOf: Ref -> string, refs: seq<Ref>): set<string> {
    if refs == [] then {} else TitlesIn(titleOf, refs[..|refs| - 1]) + {titleOf(refs[|refs| - 1])}
  }

  ghost predicate KnownLatest(titleOf: Ref -> string, refs: seq<Ref>, known: map<string, Ref>) {
    forall title :: title in known ==> Latest(titleOf, refs, title) == Some(known[title])
  }

  /** The history remembers the last three refs and at most three titles, each with its latest ref: the
      title cited last is always known, and all of them are while there are no more than three. */
  ghost predicate Remembers(titleOf: Ref -> string, refs: seq<Ref>, h: History) {
    && h.refs == LastThree(refs)
    && Consistent(h)
    && KnownLatest(titleOf, refs, h.byTitle)
    && (refs != [] ==> titleOf(refs[|refs| - 1]) in h.byTitle)
    && h.byTitle.Keys <= TitlesIn(titleOf, refs)
    && (|TitlesIn(titleOf, refs)| <= 3 ==> h.byTitle.Keys == TitlesIn(titleOf, refs))
  }

  lemma {:induction false} LastThreeAppend(refs: seq<Ref>, ref: Ref)
    ensures var kept := LastThree(refs) + [ref]; LastThree(refs + [ref]) == if |kept| > 3 then kept[1..] else kept
  {}

  lemma {:induction false} DistinctCount(titles: seq<string>)
    requires forall i, j :: 0 <= i < j < |titles| ==> titles[i] != titles[j]
    ensures |Elems(titles)| == |titles|
  {
    if titles == [] {
      assert Elems(titles) == {};
    } else {
      var n := |titles| - 1;
      DistinctCount(titles[..n]);
      assert titles == titles[..n] + [titles[n]];
      ElemsAppend(titles[..n], titles[n]);
    }
  }

  /** The titles known, oldest first, are the keys of the map. */
  ghost predicate Consistent(h: History) {
    && |h.titles| <= 3 && Elems(h.titles) == h.byTitle.Keys
    && forall i, j :: 0 <= i < j < |h.titles| ==> h.titles[i] != h.titles[j]
  }

  lemma {:induction false} CiteKnown(titleOf: Ref -> string, h: History, ref: Ref)
    requires Consistent(h) && titleOf(ref) in h.byTitle
    ensures var after := Remember(titleOf, h, ref);
      after.titles == h.titles && after.byTitle == h.byTitle[titleOf(ref) := ref]
  {
    DistinctCount(h.titles);
  }

  lemma {:induction false} CiteFew(titleOf: Ref -> string, h: History, ref: Ref)
    requires Consistent(h) && titleOf(ref) !in h.byTitle && |h.titles| < 3
    ensures var after := Remember(titleOf, h, ref); Consistent(after) && after.byTitle == h.byTitle[titleOf(ref) := ref]
  {
    var title := titleOf(ref);
    ElemsAppend(h.titles, title);
    forall i | 0 <= i < |h.titles| ensures h.titles[i] != title { assert h.titles[i] in Elems(h.titles); }
  }

  lemma {:induction false} CiteFourth(titleOf: Ref -> string, h: History, ref: Ref)
    requires Consistent(h) && titleOf(ref) !in h.byTitle && |h.titles| == 3
    ensures var after := Remember(titleOf, h, ref);
      Consistent(after) && after.byTitle == h.byTitle[titleOf(ref) := ref] - {h.titles[0]}
      && h.titles[0] in h.byTitle && h.titles[0] != titleOf(ref)
  {
    var a, b, c, title := h.titles[0], h.titles[1], h.titles[2], titleOf(ref);
    assert h.titles == [a, b, c];
    assert Elems(h.titles) == {a, b, c};
    var after := Remember(titleOf, h, ref);
    assert after.titles == [b, c, title];
    assert Elems(after.titles) == {b, c, title};
    assert after.byTitle.Keys == {b, c, title};
  }

  lemma {:induction false} LatestOn(titleOf: Ref -> string, refs: seq<Ref>, known: map<string,
      Ref>, ref: Ref, after: map<string, Ref>)
    requires KnownLatest(titleOf, refs, known)
    requires forall title :: title in after ==>
      if title == titleOf(ref) then after[title] == ref else title in known && after[title] == known[title]
    ensures KnownLatest(titleOf, refs + [ref], after)
  {
    assert (refs + [ref])[..|refs|] == refs;
  }

  lemma {:induction false} TitlesOn(titleOf: Ref -> string, refs: seq<Ref>, ref: Ref)
    ensures TitlesIn(titleOf, refs + [ref]) == TitlesIn(titleOf, refs) + {titleOf(ref)}
  {
    assert (refs + [ref])[..|refs|] == refs;
  }

  lemma {:induction false} CiteTitles(titleOf: Ref -> string, titles: set<string>, h: History, ref: Ref)
    requires Consistent(h) && h.byTitle.Keys <= titles && (|titles| <= 3 ==> h.byTitle.Keys == titles)
    ensures var after, more := Remember(titleOf, h, ref), titles + {titleOf(ref)};
      && Consistent(after) && titleOf(ref) in after.byTitle
      && after.byTitle.Keys <= more && (|more| <= 3 ==> after.byTitle.Keys == more)
      && (forall title :: title in after.byTitle ==>
            if title == titleOf(ref) then after.byTitle[title] == ref
            else title in h.byTitle && after.byTitle[title] == h.byTitle[title])
  {
    FewTitles(titles, titleOf(ref));
    if titleOf(ref) in h.byTitle {
      CiteKnown(titleOf, h, ref);
    } else if |h.titles| < 3 {
      CiteFew(titleOf, h, ref);
    } else {
      CiteFourth(titleOf, h, ref);
      DistinctCount(h.titles);
      FourTitles(h.byTitle.Keys, titleOf(ref), titles);
    }
  }

  lemma {:induction false} CiteRemembers(titleOf: Ref -> string, refs: seq<Ref>, h: History, ref: Ref)
    requires Remembers(titleOf, refs, h)
    ensures Remembers(titleOf, refs + [ref], Remember(titleOf, h, ref))
  {
    LastThreeAppend(refs, ref);
    TitlesOn(titleOf, refs, ref);
    CiteTitles(titleOf, TitlesIn(titleOf, refs), h, ref);
    LatestOn(titleOf, refs, h.byTitle, ref, Remember(titleOf, h, ref).byTitle);
  }

  lemma {:induction false} FourTitles(known: set<string>, title: string, titles: set<string>)
    requires |known| == 3 && title !in known && known <= titles
    ensures |titles + {title}| > 3
  {
    TooMany(known + {title}, titles + {title});
  }

  lemma {:induction false} TooMany(a: set<string>, b: set<string>)
    requires a <= b
    ensures |a| <= |b|
  {
    if a == {} {
    } else {
      var x := Pick(a);
      TooMany(a - {x}, b - {x});
    }
  }

  lemma {:induction false} FewTitles(titles: set<string>, title: string)
    ensures |titles| <= |titles + {title}|
  {
    TooMany(titles, titles + {title});
  }

  /** What the resolver remembers after any moves. */
  lemma {:induction false} HistoryIs(titleOf: Ref -> string, moves: seq<Move>)
    ensures Remembers(titleOf, Since(moves), Moves(titleOf, FRESH, moves))
  {
    if moves == [] {
    } else {
      var init := moves[..|moves| - 1];
      HistoryIs(titleOf, init);
      if moves[|moves| - 1].Cite? {
        CiteRemembers(titleOf, Since(init), Moves(titleOf, FRESH, init), moves[|moves| - 1].ref);
      }
    }
  }

  /** When a fourth title comes, the one known longest is forgotten. */
  lemma {:induction false} FourthTitleForgetsFirst(titleOf: Ref -> string, h: History, ref: Ref)
    requires Consistent(h) && |h.titles| == 3 && titleOf(ref) !in h.titles
    ensures var after := Remember(titleOf, h, ref);
      after.titles == h.titles[1..] + [titleOf(ref)] && h.titles[0] !in after.byTitle
  {
    assert titleOf(ref) !in Elems(h.titles);
    CiteFourth(titleOf, h, ref);
  }

  lemma {:induction false} OneMoreMove(titleOf: Ref -> string, h: History, moves: seq<Move>, move: Move)
    ensures Moves(titleOf, h, moves + [move]) == Moved(titleOf, Moves(titleOf, h, moves), move)
  {
    assert (moves + [move])[..|moves|] == moves;
  }

  lemma {:induction false} OneMoreTurn(titleOf: Ref -> string, h: History, first: seq<Move>, more: seq<Move>,
      move: Move)
    requires Moves(titleOf, h, first + more) == Moves(titleOf, Moves(titleOf, h, first), more)
    ensures Moves(titleOf, h, first + (more + [move])) == Moves(titleOf, Moves(titleOf, h, first), more + [move])
  {
    OneMoreMove(titleOf, h, first + more, move);
    OneMoreMove(titleOf, Moves(titleOf, h, first), more, move);
    assert first + (more + [move]) == (first + more) + [move];
  }

  lemma {:induction false} MovesInTurn(titleOf: Ref -> string, h: History, first: seq<Move>, more: seq<Move>)
    ensures Moves(titleOf, h, first + more) == Moves(titleOf, Moves(titleOf, h, first), more)
  {
    if more == [] {
      assert first + more == first;
    } else {
      var init, last := more[..|more| - 1], more[|more| - 1];
      MovesInTurn(titleOf, h, first, init);
      OneMoreTurn(titleOf, h, first, init, last);
      assert more == init + [last];
    }
  }

  // ---------------------------------------------------------------------------------------
  // Questions and answers of one batch
  // ---------------------------------------------------------------------------------------

  /** One line put to the resolver. */
  datatype Exchange = Exchange(row: Row, query: Query, reading: Reading)

  /** The rows of a batch on which NER finds anything. */
  function WithEntity(b: Book, batch: seq<Row>): seq<Row> {
    if batch == [] then []
    else
      WithEntity(b, batch[..|batch| - 1])
      + if b.linker.entities(batch[|batch| - 1].content) != [] then [batch[|batch| - 1]] else []
  }

  function RowsOf(told: seq<Exchange>): seq<Row> {
    if told == [] then [] else RowsOf(told[..|told| - 1]) + [told[|told| - 1].row]
  }

  /** All history moves of the readings, in order. */
  function MovesOf(told: seq<Exchange>): seq<Move> {
    if told == [] then [] else MovesOf(told[..|told| - 1]) + told[|told| - 1].reading.moves
  }

  /** The ref emitted last. */
  function EmittedAfter(s: State, told: seq<Exchange>): Option<Ref> {
    if told == [] then s.emitted else told[|told| - 1].reading.emitted
  }

  /** The citation read last, and its line. */
  function CitedAfter(s: State, told: seq<Exchange>): Option<Previous> {
    if told == [] then s.previous
    else
      var last := told[|told| - 1];
      if last.reading.cited.Some? then Some(Previous(last.row.index, last.reading.cited.value))
      else CitedAfter(s, told[..|told| - 1])
  }

  /** The next question, after those told: the history and the citations left by their readings, and the
      row itself. The line enters only as the test whether the preceding citation stood on it. */
  ghost predicate Asks(b: Book, rows: seq<Row>, s: State, told: seq<Exchange>, e: Exchange) {
    var cited := CitedAfter(s, told);
    && e.reading == b.linker.resolve(e.query)
    && e.query.history == Moves(b.linker.titleOf, s.history, MovesOf(told))
    && e.query.emitted == EmittedAfter(s, told)
    && e.query.preceding == (if cited.Some? then Some(cited.value.citation) else None)
    && (e.query.sameLine <==> cited.Some? && cited.value.line == e.row.index)
    && e.query.content == e.row.content && e.query.context == e.row.context
    && e.query.position == if b.placedByDafHeadings then b.place(rows, e.row.index) else None
  }

  /** Each row with an entity is asked about once, in order, knowing what the rows before it left. */
  ghost predicate Told(b: Book, rows: seq<Row>, s: State, batch: seq<Row>, told: seq<Exchange>) {
    RowsOf(told) == WithEntity(b, batch) && forall k :: 0 <= k < |told| ==> Asks(b, rows, s, told[..k], told[k])
  }

  /** What the readings leave behind. */
  function Left(b: Book, s: State, told: seq<Exchange>): State {
    State(Moves(b.linker.titleOf, s.history, MovesOf(told)), EmittedAfter(s, told), CitedAfter(s, told))
  }

  /** A row asked about has the links of its reading. */
  ghost predicate LinksRead(told: seq<Exchange>, links: map<nat, seq<LinkSpan>>) {
    forall k :: 0 <= k < |told| ==> told[k].row.index in links && links[told[k].row.index] == told[k].reading.spans
  }

  /** A row without entities has none. */
  ghost predicate LinksQuiet(b: Book, batch: seq<Row>, links: map<nat, seq<LinkSpan>>) {
    forall row :: row in batch && b.linker.entities(row.content) == [] ==> row.index in links && links[row.index] == []
  }

  /** No other line's links change. */
  ghost predicate LinksKept(batch: seq<Row>, before: map<nat, seq<LinkSpan>>, after: map<nat, seq<LinkSpan>>) {
    forall i :: (forall k :: 0 <= k < |batch| ==> batch[k].index != i) ==>
      (i in after <==> i in before) && (i in before ==> after[i] == before[i])
  }

  lemma {:induction false} ToldAppend(told: seq<Exchange>, e: Exchange, s: State)
    ensures RowsOf(told + [e]) == RowsOf(told) + [e.row]
    ensures MovesOf(told + [e]) == MovesOf(told) + e.reading.moves
    ensures EmittedAfter(s, told + [e]) == e.reading.emitted
    ensures CitedAfter(s, told + [e]) ==
      if e.reading.cited.Some? then Some(Previous(e.row.index, e.reading.cited.value)) else CitedAfter(s, told)
  {
    assert (told + [e])[..|told|] == told;
  }

  lemma {:induction false} RowsAt(told: seq<Exchange>)
    ensures |RowsOf(told)| == |told| && forall k :: 0 <= k < |told| ==> RowsOf(told)[k] == told[k].row
  {
    if told == [] {
    } else {
      RowsAt(told[..|told| - 1]);
    }
  }

  lemma {:induction false} WithEntityMembers(b: Book, batch: seq<Row>)
    ensures forall row :: row in WithEntity(b, batch) <==> row in batch && b.linker.entities(row.content) != []
  {
    if batch == [] {
    } else {
      var n := |batch| - 1;
      WithEntityMembers(b, batch[..n]);
      assert batch == batch[..n] + [batch[n]];
    }
  }

  /** One more row with an entity. */
  lemma {:induction false} OneMoreAsked(b: Book, rows: seq<Row>, s: State, init: seq<Row>, row: Row,
      told: seq<Exchange>)
    returns (e: Exchange)
    requires Told(b, rows, s, init, told) && b.linker.entities(row.content) != []
    ensures e.row == row && Told(b, rows, s, init + [row], told + [e])
    ensures Step(b, rows, Left(b, s, told), row) == Linked(Left(b, s, told + [e]), e.reading.spans)
  {
    var q := Ask(b, rows, Left(b, s, told), row);
    e := Exchange(row, q, b.linker.resolve(q));
    ToldAppend(told, e, s);
    MovesInTurn(b.linker.titleOf, s.history, MovesOf(told), e.reading.moves);
    assert (init + [row])[..|init|] == init;
    var longer := told + [e];
    forall k | 0 <= k < |longer| ensures Asks(b, rows, s, longer[..k], longer[k]) {
      if k < |told| {
        assert longer[..k] == told[..k];
      } else {
        assert longer[..k] == told;
      }
    }
  }

  lemma {:induction false} LastRow(init: seq<Row>, row: Row, r: Row)
    requires Ordered(init + [row]) && r in init
    ensures r.index != row.index
  {
    var more := init + [row];
    var j :| 0 <= j < |init| && init[j] == r;
    assert more[j].index < more[|init|].index;
  }

  lemma {:induction false} ReadOn(b: Book, init: seq<Row>, row: Row, told: seq<Exchange>,
      links: map<nat, seq<LinkSpan>>, spans: seq<LinkSpan>)
    requires Ordered(init + [row]) && RowsOf(told) == WithEntity(b, init) && LinksRead(told, links)
    ensures LinksRead(told, links[row.index := spans])
  {
    RowsAt(told);
    WithEntityMembers(b, init);
    forall k | 0 <= k < |told| ensures told[k].row.index != row.index {
      assert RowsOf(told)[k] in RowsOf(told);
      LastRow(init, row, told[k].row);
    }
  }

  lemma {:induction false} QuietOn(b: Book, init: seq<Row>, row: Row, links: map<nat, seq<LinkSpan>>,
      spans: seq<LinkSpan>)
    requires Ordered(init + [row]) && LinksQuiet(b, init, links)
    requires b.linker.entities(row.content) == [] ==> spans == []
    ensures LinksQuiet(b, init + [row], links[row.index := spans])
  {
    forall r | r in init + [row] && b.linker.entities(r.content) == []
      ensures r.index in links[row.index := spans] && links[row.index := spans][r.index] == []
    {
      if r in init { LastRow(init, row, r); }
    }
  }

  lemma {:induction false} KeptOn(init: seq<Row>, row: Row, before: map<nat, seq<LinkSpan>>,
      after: map<nat, seq<LinkSpan>>, spans: seq<LinkSpan>)
    requires LinksKept(init, before, after)
    ensures LinksKept(init + [row], before, after[row.index := spans])
  {
    var more, last := init + [row], after[row.index := spans];
    forall i | forall k :: 0 <= k < |more| ==> more[k].index != i
      ensures (i in last <==> i in before) && (i in before ==> last[i] == before[i])
    {
      assert more[|init|].index != i;
      forall k | 0 <= k < |init| ensures init[k].index != i { assert more[k].index != i; }
    }
  }

  /** What a batch asks, what it is told, and what it makes of it: the links of the readings, and the
      state they leave. */
  lemma {:induction false} BatchAsks(b: Book, rows: seq<Row>, p: Pass, batch: seq<Row>) returns (told: seq<Exchange>)
    requires Ordered(batch)
    ensures Told(b, rows, p.state, batch, told)
    ensures RunRows(b, rows, p, batch).state == Left(b, p.state, told)
    ensures var links := RunRows(b, rows, p, batch).links;
      LinksRead(told, links) && LinksQuiet(b, batch, links) && LinksKept(batch, p.links, links)
  {
    if batch == [] {
      told := [];
    } else {
      var n := |batch| - 1;
      var init, row := batch[..n], batch[n];
      assert batch == init + [row];
      told := BatchAsks(b, rows, p, init);
      var q := RunRows(b, rows, p, init);
      var spans := Step(b, rows, q.state, row).spans;
      ReadOn(b, init, row, told, q.links, spans);
      QuietOn(b, init, row, q.links, spans);
      KeptOn(init, row, p.links, q.links, spans);
      if b.linker.entities(row.content) != [] {
        var e := OneMoreAsked(b, rows, p.state, init, row, told);
        told := told + [e];
      }
    }
  }

  lemma {:induction false} ToldPrefix(b: Book, rows: seq<Row>, s: State, init: seq<Row>, row: Row, told: seq<Exchange>)
    requires Told(b, rows, s, init + [row], told) && b.linker.entities(row.content) != []
    ensures told != [] && told[|told| - 1].row == row
    ensures Told(b, rows, s, init, told[..|told| - 1])
    ensures Asks(b, rows, s, told[..|told| - 1], told[|told| - 1])
  {
    assert (init + [row])[..|init|] == init;
    RowsAt(told);
    var n := |told| - 1;
    assert RowsOf(told) == RowsOf(told[..n]) + [told[n].row];
    assert RowsOf(told)[..n] == RowsOf(told[..n]) && RowsOf(told)[..n] == WithEntity(b, init);
    forall k | 0 <= k < n ensures Asks(b, rows, s, told[..n][..k], told[..n][k]) { assert told[..n][..k] == told[..k]; }
  }

  lemma {:induction false} SameQuestion(b: Book, rows: seq<Row>, s: State, told: seq<Exchange>, e: Exchange,
      f: Exchange)
    requires Asks(b, rows, s, told, e) && Asks(b, rows, s, told, f) && e.row == f.row
    ensures e == f
  {}

  /** The questions of a batch are determined by where it starts. */
  lemma {:induction false} ToldUnique(b: Book, rows: seq<Row>, s: State, batch: seq<Row>, told: seq<Exchange>,
      other: seq<Exchange>)
    requires Told(b, rows, s, batch, told) && Told(b, rows, s, batch, other)
    ensures told == other
    decreases |batch|, 0
  {
    if batch == [] {
      RowsAt(told);
      RowsAt(other);
    } else {
      var n := |batch| - 1;
      var init, row := batch[..n], batch[n];
      assert batch == init + [row];
      if b.linker.entities(row.content) == [] {
        ToldUnique(b, rows, s, init, told, other);
      } else {
        ToldLast(b, rows, s, init, row, told, other);
      }
    }
  }

  lemma {:induction false} SameEnd(a: seq<Exchange>, c: seq<Exchange>)
    requires a != [] && c != [] && a[..|a| - 1] == c[..|c| - 1] && a[|a| - 1] == c[|c| - 1]
    ensures a == c
  {
    assert a == a[..|a| - 1] + [a[|a| - 1]] && c == c[..|c| - 1] + [c[|c| - 1]];
  }

  lemma {:induction false} ToldLast(b: Book, rows: seq<Row>, s: State, init: seq<Row>, row: Row, told: seq<Exchange>,
      other: seq<Exchange>)
    requires Told(b, rows, s, init + [row], told) && Told(b, rows, s, init + [row], other)
    requires b.linker.entities(row.content) != []
    ensures told == other
    decreases |init|, 1
  {
    ToldPrefix(b, rows, s, init, row, told);
    ToldPrefix(b, rows, s, init, row, other);
    var m, n := |told| - 1, |other| - 1;
    ToldUnique(b, rows, s, init, told[..m], other[..n]);
    SameQuestion(b, rows, s, told[..m], told[m], other[n]);
    SameEnd(told, other);
  }

  // ---------------------------------------------------------------------------------------
  // Questions and answers of a whole pass
  // ---------------------------------------------------------------------------------------

  function Cites(refs: seq<Ref>): (moves: seq<Move>)
    ensures |moves| == |refs|
  {
    seq(|refs|, k requires 0 <= k < |refs| => Cite(refs[k]))
  }

  lemma {:induction false} ReplayIsCites(titleOf: Ref -> string, refs: seq<Ref>)
    ensures Replay(titleOf, refs) == Moves(titleOf, FRESH, Cites(refs))
  {
    if refs == [] {
    } else {
      var n := |refs| - 1;
      ReplayIsCites(titleOf, refs[..n]);
      assert Cites(refs)[..n] == Cites(refs[..n]);
    }
  }

  /** What a batch knows after those told: as if the resolver had just cited the refs it remembers and
      nothing else, with the last emitted ref and the preceding citation in hand; or nothing at all. */
  function Known(b: Book, stateful: bool, tolds: seq<seq<Exchange>>): State {
    if tolds == [] then START
    else
      var n := |tolds| - 1;
      var left := Left(b, Known(b, stateful, tolds[..n]), tolds[n]);
      if stateful then State(Moves(b.linker.titleOf, FRESH, Cites(left.history.refs)), left.emitted, left.previous)
      else START
  }

  /** Each batch is asked about in turn. */
  ghost predicate BookTold(b: Book, rows: seq<Row>, stateful: bool, bs: seq<Batch>, tolds: seq<seq<Exchange>>) {
    |tolds| == |bs| && forall k :: 0 <= k < |bs| ==> Told(b, rows, Known(b, stateful, tolds[..k]), bs[k].rows, tolds[k])
  }

  ghost predicate BookRead(tolds: seq<seq<Exchange>>, links: map<nat, seq<LinkSpan>>) {
    forall k :: 0 <= k < |tolds| ==> LinksRead(tolds[k], links)
  }

  lemma {:induction false} OneMoreTold(b: Book, rows: seq<Row>, stateful: bool, bs: seq<Batch>, last: Batch,
      tolds: seq<seq<Exchange>>, told: seq<Exchange>)
    requires BookTold(b, rows, stateful, bs, tolds) && Told(b, rows, Known(b, stateful, tolds), last.rows, told)
    ensures BookTold(b, rows, stateful, bs + [last], tolds + [told])
  {
    var more := tolds + [told];
    forall k | 0 <= k < |more| ensures Told(b, rows, Known(b, stateful, more[..k]), (bs + [last])[k].rows, more[k]) {
      if k < |tolds| {
        assert more[..k] == tolds[..k];
      } else {
        assert more[..k] == tolds;
      }
    }
  }

  /** The rows asked about are rows of their batch. */
  lemma {:induction false} ToldRows(b: Book, rows: seq<Row>, s: State, batch: seq<Row>, told: seq<Exchange>)
    requires Told(b, rows, s, batch, told)
    ensures forall k :: 0 <= k < |told| ==> told[k].row in batch
  {
    RowsAt(told);
    WithEntityMembers(b, batch);
    forall k | 0 <= k < |told| ensures told[k].row in batch { assert RowsOf(told)[k] in WithEntity(b, batch); }
  }

  /** A later batch leaves the links read before it. */
  lemma {:induction false} StaysRead(told: seq<Exchange>, earlier: seq<Row>, batch: seq<Row>,
      before: map<nat, seq<LinkSpan>>, after: map<nat, seq<LinkSpan>>)
    requires LinksRead(told, before) && LinksKept(batch, before, after) && Ordered(earlier + batch)
    requires forall k :: 0 <= k < |told| ==> told[k].row in earlier
    ensures LinksRead(told, after)
  {
    forall k | 0 <= k < |told|
      ensures told[k].row.index in after && after[told[k].row.index] == told[k].reading.spans
    {
      var i :| 0 <= i < |earlier| && earlier[i] == told[k].row;
      forall j | 0 <= j < |batch| ensures batch[j].index != told[k].row.index {
        assert (earlier + batch)[i] == earlier[i] && (earlier + batch)[|earlier| + j] == batch[j];
      }
    }
  }

  /** What a whole pass asks, and what comes of it. Behind a seam a batch knows no more than three refs, the
      last emitted ref and the preceding citation; linked statelessly it knows nothing. */
  lemma {:induction false} BookAsks(b: Book, rows: seq<Row>, stateful: bool, bs: seq<Batch>)
      returns (tolds: seq<seq<Exchange>>)
    requires Ordered(Flatten(bs))
    ensures BookTold(b, rows, stateful, bs, tolds)
    ensures BookRead(tolds, RunBatches(b, rows, stateful, bs).links)
    ensures Cross(b, stateful, RunBatches(b, rows, stateful, bs).state) == Known(b, stateful, tolds)
  {
    if bs == [] {
      tolds := [];
      CarryLaws(b, START);
    } else {
      var init, last := bs[..|bs| - 1], bs[|bs| - 1];
      assert bs == init + [last];
      RowsSplit(Flatten(init), last.rows);
      tolds := BookAsks(b, rows, stateful, init);
      var p := RunBatches(b, rows, stateful, init);
      var s := Cross(b, stateful, p.state);
      var told := BatchAsks(b, rows, p.(state := s), last.rows);
      ReadBefore(b, rows, stateful, init, last.rows, tolds, p.links, RunBatches(b, rows, stateful, bs).links);
      OneMoreTold(b, rows, stateful, init, last, tolds, told);
      ReplayIsCites(b.linker.titleOf, Left(b, s, told).history.refs);
      assert (tolds + [told])[..|tolds|] == tolds;
      tolds := tolds + [told];
    }
  }

  lemma {:induction false} ReadBefore(b: Book, rows: seq<Row>, stateful: bool, bs: seq<Batch>, batch: seq<Row>,
      tolds: seq<seq<Exchange>>, before: map<nat, seq<LinkSpan>>, after: map<nat, seq<LinkSpan>>)
    requires BookTold(b, rows, stateful, bs, tolds) && BookRead(tolds, before)
    requires LinksKept(batch, before, after) && Ordered(Flatten(bs) + batch)
    ensures BookRead(tolds, after)
  {
    forall k | 0 <= k < |tolds| ensures LinksRead(tolds[k], after) {
      ToldRows(b, rows, Known(b, stateful, tolds[..k]), bs[k].rows, tolds[k]);
      FlattenHas(bs, k);
      StaysRead(tolds[k], Flatten(bs), batch, before, after);
    }
  }

  lemma {:induction false} FlattenHas(bs: seq<Batch>, k: nat)
    requires k < |bs|
    ensures forall row :: row in bs[k].rows ==> row in Flatten(bs)
  {
    if k < |bs| - 1 {
      FlattenHas(bs[..|bs| - 1], k);
    }
  }

  lemma {:induction false} RowsSplit(a: seq<Row>, c: seq<Row>)
    requires Ordered(a + c)
    ensures Ordered(a) && Ordered(c)
  {
    var all := a + c;
    assert forall i :: 0 <= i < |a| ==> all[i] == a[i];
    assert forall j :: 0 <= j < |c| ==> all[|a| + j] == c[j];
  }

  // ---------------------------------------------------------------------------------------
  // A seam changes what is asked
  // ---------------------------------------------------------------------------------------

  /** Every row has entities, and cites its ref whatever the resolver is asked about it. */
  ghost predicate AlwaysCites(b: Book, batch: seq<Row>, refs: seq<Ref>) {
    && |batch| == |refs|
    && (forall k :: 0 <= k < |batch| ==> b.linker.entities(batch[k].content) != [])
    && forall k, q: Query :: 0 <= k < |batch| && q.content == batch[k].content ==>
        b.linker.resolve(q).moves == [Cite(refs[k])]
  }

  lemma {:induction false} AllAsked(b: Book, batch: seq<Row>)
    requires forall k :: 0 <= k < |batch| ==> b.linker.entities(batch[k].content) != []
    ensures WithEntity(b, batch) == batch
  {
    if batch == [] {
    } else {
      AllAsked(b, batch[..|batch| - 1]);
      assert batch == batch[..|batch| - 1] + [batch[|batch| - 1]];
    }
  }

  lemma {:induction false} MovesAreCites(told: seq<Exchange>, refs: seq<Ref>)
    requires |told| == |refs| && forall k :: 0 <= k < |told| ==> told[k].reading.moves == [Cite(refs[k])]
    ensures MovesOf(told) == Cites(refs)
  {
    if told == [] {
    } else {
      var n := |told| - 1;
      MovesAreCites(told[..n], refs[..n]);
      assert Cites(refs) == Cites(refs[..n]) + [Cite(refs[n])];
    }
  }

  lemma {:induction false} ReadingCites(b: Book, batch: seq<Row>, refs: seq<Ref>, e: Exchange, i: nat)
    requires AlwaysCites(b, batch, refs) && i < |batch| && e.query.content == batch[i].content
    requires e.reading == b.linker.resolve(e.query)
    ensures e.reading.moves == [Cite(refs[i])]
  {}

  lemma {:induction false} ToldCites(b: Book, rows: seq<Row>, s: State, batch: seq<Row>, refs: seq<Ref>,
      told: seq<Exchange>, k: nat)
    requires k <= |batch| && AlwaysCites(b, batch[..k], refs) && WithEntity(b, batch) == batch
    requires Told(b, rows, s, batch, told)
    ensures |told| == |batch| && MovesOf(told[..k]) == Cites(refs)
  {
    RowsAt(told);
    var early := told[..k];
    forall i | 0 <= i < k ensures early[i].reading.moves == [Cite(refs[i])] {
      assert early[i].row == batch[i] && Asks(b, rows, s, told[..i], told[i]);
      ReadingCites(b, batch[..k], refs, early[i], i);
    }
    MovesAreCites(early, refs);
  }

  lemma {:induction false} AllCite(b: Book, rows: seq<Row>, s: State, batch: seq<Row>, refs: seq<Ref>,
      told: seq<Exchange>)
    requires AlwaysCites(b, batch, refs) && Told(b, rows, s, batch, told)
    ensures MovesOf(told) == Cites(refs)
  {
    AllAsked(b, batch);
    assert batch[..|batch|] == batch;
    ToldCites(b, rows, s, batch, refs, told, |batch|);
    assert told[..|batch|] == told;
  }

  /** The question after lines with known citations. */
  lemma {:induction false} QuestionAfter(b: Book, rows: seq<Row>, s: State, batch: seq<Row>, refs: seq<Ref>, next: Row,
      told: seq<Exchange>)
    requires AlwaysCites(b, batch, refs) && b.linker.entities(next.content) != []
    requires Told(b, rows, s, batch + [next], told)
    ensures |told| == |batch| + 1 && told[|batch|].row == next && told[|batch|].query.content == next.content
    ensures told[|batch|].query.history == Moves(b.linker.titleOf, s.history, Cites(refs))
  {
    var n := |batch|;
    AllAsked(b, batch + [next]);
    assert (batch + [next])[..n] == batch;
    ToldCites(b, rows, s, batch + [next], refs, told, n);
    RowsAt(told);
    assert Asks(b, rows, s, told[..n], told[n]);
  }

  lemma {:induction false} HistoryAfter(b: Book, rows: seq<Row>, p: Pass, batch: seq<Row>, refs: seq<Ref>)
    requires AlwaysCites(b, batch, refs) && Ordered(batch)
    ensures RunRows(b, rows, p, batch).state.history == Moves(b.linker.titleOf, p.state.history, Cites(refs))
  {
    var told := BatchAsks(b, rows, p, batch);
    AllCite(b, rows, p.state, batch, refs, told);
  }

  /** Behind a seam the question carries the replayed refs alone. */
  lemma {:induction false} QuestionBehind(b: Book, rows: seq<Row>, s: State, next: Row, told: seq<Exchange>)
    requires b.linker.entities(next.content) != [] && Told(b, rows, Cross(b, true, s), [next], told)
    ensures |told| == 1 && told[0].row == next && told[0].query.content == next.content
    ensures told[0].query.history == Replay(b.linker.titleOf, s.history.refs)
  {
    var none: seq<Row> := [];
    var noRefs: seq<Ref> := [];
    assert none + [next] == [next];
    QuestionAfter(b, rows, Cross(b, true, s), none, noRefs, next, told);
    assert Cites(noRefs) == [];
  }

  lemma {:induction false} FourCites(b: Book, x: Ref, y: Ref, y': Ref, y'': Ref, refs: seq<Ref>)
    requires var title := b.linker.titleOf; title(y) == title(y') == title(y'') != title(x)
    requires refs == [x, y, y', y'']
    ensures var h := Moves(b.linker.titleOf, FRESH, Cites(refs));
      b.linker.titleOf(x) in h.byTitle && b.linker.titleOf(x) !in Replay(b.linker.titleOf, h.refs).byTitle
  {
    assert Cites(refs) == [Cite(x), Cite(y), Cite(y'), Cite(y'')];
    SeamForgets(b, x, y, y', y'');
  }

  /** Four lines cite one ref of X and three of Y. Asked about a fifth line in the same batch, the resolver
      still knows where the text was in X; behind a seam it is asked another question, without it. */
  lemma {:induction false} SeamChangesQuestion(b: Book, rows: seq<Row>, four: seq<Row>, fifth: Row,
      x: Ref, y: Ref, y': Ref, y'': Ref, whole: seq<Exchange>, behind: seq<Exchange>)
    requires var title := b.linker.titleOf; title(y) == title(y') == title(y'') != title(x)
    requires AlwaysCites(b, four, [x, y, y', y'']) && Ordered(four) && b.linker.entities(fifth.content) != []
    requires Told(b, rows, START, four + [fifth], whole)
    requires Told(b, rows, Cross(b, true, RunRows(b, rows, Pass(START, map[]), four).state), [fifth], behind)
    ensures |whole| == 5 && |behind| == 1 && whole[4].row == behind[0].row == fifth
    ensures b.linker.titleOf(x) in whole[4].query.history.byTitle
    ensures b.linker.titleOf(x) !in behind[0].query.history.byTitle
    ensures whole[4].query.content == behind[0].query.content && whole[4].query != behind[0].query
  {
    var refs := [x, y, y', y''];
    FourCites(b, x, y, y', y'', refs);
    QuestionAfter(b, rows, START, four, refs, fifth, whole);
    HistoryAfter(b, rows, Pass(START, map[]), four, refs);
    QuestionBehind(b, rows, RunRows(b, rows, Pass(START, map[]), four).state, fifth, behind);
  }
}
