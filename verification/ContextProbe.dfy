/** Planning which old per-line results a changed book may reuse: `compute_line_delta`,
    `_context_probe_delta`, `_checked_delta`, and why an inert context probe is exact. */
module ContextProbe {
  import opened Prelude
  import opened Transport
  import opened Artifact
  import opened Ibid
  import opened SeamCounts
  import LineMatch
  import Ranges

  type Pair = LineMatch.Pair

  /** `artifact` stands for the digest of the prior artifact, injective in its records. */
  datatype Delta = Delta(reuse: seq<Pair>, ner: seq<Ranges.Range>, count: nat,
                         artifact: Option<seq<Record>>, context: Option<seq<Ranges.Range>>)

  /** One book of the prior line baseline; `entities` holds the flags that are not null. */
  datatype Baseline = Baseline(lines: seq<LineMatch.Line>, artifact: Option<seq<Record>>, entities: map<nat, bool>,
                               bookContext: Option<bool>, seams: Option<set<nat>>)

  function LinesOf(rows: seq<Row>): (lines: seq<LineMatch.Line>) {
    if rows == [] then []
    else
      var row := rows[|rows| - 1];
      LinesOf(rows[..|rows| - 1]) + [LineMatch.Line(row.index, LineMatch.Fingerprint(row.content, row.context))]
  }

  function Indices(rows: seq<Row>): seq<nat> {
    if rows == [] then [] else Indices(rows[..|rows| - 1]) + [rows[|rows| - 1].index]
  }

  predicate RequiresContext(b: Book, rows: seq<Row>) {
    exists k :: 0 <= k < |rows| && b.linker.mentionsIbid(rows[k].content)
  }

  /** Old lines with an entity that are reused, in the order of their new places. */
  function CarriedEntities(reuse: seq<Pair>, entities: map<nat, bool>): seq<Pair> {
    if reuse == [] then []
    else
      var p := reuse[|reuse| - 1];
      CarriedEntities(reuse[..|reuse| - 1], entities) + if p.from in entities && entities[p.from] then [p] else []
  }

  function Froms(pairs: seq<Pair>): seq<nat> {
    if pairs == [] then [] else Froms(pairs[..|pairs| - 1]) + [pairs[|pairs| - 1].from]
  }

  function Tos(pairs: seq<Pair>): seq<nat> {
    if pairs == [] then [] else Tos(pairs[..|pairs| - 1]) + [pairs[|pairs| - 1].to]
  }

  /** `reused_from`: new line index to old line index. */
  function ReusedFrom(reuse: seq<Pair>): map<nat, nat> {
    if reuse == [] then map[] else ReusedFrom(reuse[..|reuse| - 1])[reuse[|reuse| - 1].to := reuse[|reuse| - 1].from]
  }

  /** Flags of the current lines, were every probed line free of entities. */
  function CarriedFlags(rows: seq<Row>, from: map<nat, nat>, entities: map<nat, bool>): (flags: seq<bool>)
    ensures |flags| == |rows|
  {
    if rows == [] then []
    else
      var i := rows[|rows| - 1].index;
      CarriedFlags(rows[..|rows| - 1], from, entities) + [Carried(from, entities, i)]
  }

  predicate Carried(from: map<nat, nat>, entities: map<nat, bool>, i: nat) {
    i in from && from[i] in entities && entities[from[i]]
  }

  /** The old book was linked whole, with every entity flag and its seam counts on record. */
  predicate Comparable(prior: Baseline, rows: seq<Row>) {
    && prior.bookContext == Some(true) && prior.seams.Some? && rows != []
    && (forall k :: 0 <= k < |prior.lines| ==> prior.lines[k].index in prior.entities)
  }

  /** Something is reused, dropped old lines had no entity, entity lines keep their order,
      and the seams fall between the same entity lines. */
  predicate KeepsHistory(prior: Baseline, rows: seq<Row>, seams: set<nat>, reuse: seq<Pair>)
    requires Comparable(prior, rows)
  {
    && reuse != []
    && (forall k :: 0 <= k < |prior.lines| && prior.lines[k].index !in Elems(Froms(reuse)) ==>
        !prior.entities[prior.lines[k].index])
    && Increasing(Froms(CarriedEntities(reuse, prior.entities)))
    && Counts(rows, CarriedFlags(rows, ReusedFrom(reuse), prior.entities), seams) == prior.seams.value
  }

  // ---------------------------------------------------------------------------------------
  // Reading the lists above by position
  // ---------------------------------------------------------------------------------------

  lemma {:induction false} FromsAt(pairs: seq<Pair>)
    ensures |Froms(pairs)| == |Tos(pairs)| == |pairs|
    ensures forall k :: 0 <= k < |pairs| ==> Froms(pairs)[k] == pairs[k].from && Tos(pairs)[k] == pairs[k].to
  {
    if pairs == [] {
    } else {
      FromsAt(pairs[..|pairs| - 1]);
    }
  }

  lemma {:induction false} IndicesAt(rows: seq<Row>)
    ensures |Indices(rows)| == |rows|
    ensures forall k :: 0 <= k < |rows| ==> Indices(rows)[k] == rows[k].index
  {
    if rows == [] {
    } else {
      IndicesAt(rows[..|rows| - 1]);
    }
  }

  lemma {:induction false} LinesOrdered(rows: seq<Row>)
    requires Ordered(rows)
    ensures LineMatch.Ordered(LinesOf(rows))
    ensures LineMatch.LastIndex(LinesOf(rows)) == if rows == [] then -1 else rows[|rows| - 1].index
  {
    if rows == [] {
    } else {
      LinesOrdered(rows[..|rows| - 1]);
    }
  }

  lemma {:induction false} PrintsOfRows(rows: seq<Row>)
    requires Ordered(rows)
    ensures LineMatch.Ordered(LinesOf(rows))
    ensures forall k :: 0 <= k < |rows| ==>
      && rows[k].index in LineMatch.Prints(LinesOf(rows))
      && LineMatch.Prints(LinesOf(rows))[rows[k].index] == LineMatch.Fingerprint(rows[k].content, rows[k].context)
    ensures forall i :: i in LineMatch.Prints(LinesOf(rows)) ==> exists k :: 0 <= k < |rows| && rows[k].index == i
  {
    if rows == [] {
    } else {
      LinesOrdered(rows);
      PrintsOfRows(rows[..|rows| - 1]);
    }
  }

  lemma {:induction false} LinesAt(rows: seq<Row>)
    ensures |LinesOf(rows)| == |rows|
    ensures forall k :: 0 <= k < |rows| ==> LinesOf(rows)[k].index == rows[k].index
  {
    if rows == [] {
    } else {
      LinesAt(rows[..|rows| - 1]);
    }
  }

  lemma {:induction false} CarriedMembers(reuse: seq<Pair>, entities: map<nat, bool>)
    requires LineMatch.SortedByNew(reuse)
    ensures forall p :: p in CarriedEntities(reuse, entities) <==> p in reuse && p.from in entities && entities[p.from]
    ensures LineMatch.SortedByNew(CarriedEntities(reuse, entities))
  {
    if reuse == [] {
    } else {
      var n := |reuse| - 1;
      var carried := CarriedEntities(reuse[..n], entities);
      assert reuse == reuse[..n] + [reuse[n]];
      CarriedMembers(reuse[..n], entities);
      forall k | 0 <= k < |carried| ensures carried[k].to < reuse[n].to { assert carried[k] in reuse[..n]; }
    }
  }

  lemma {:induction false} ReusedFromAt(reuse: seq<Pair>)
    requires LineMatch.SortedByNew(reuse)
    ensures forall i :: i in ReusedFrom(reuse) ==> LineMatch.Pair(ReusedFrom(reuse)[i], i) in reuse
    ensures forall p :: p in reuse ==> p.to in ReusedFrom(reuse) && ReusedFrom(reuse)[p.to] == p.from
  {
    if reuse == [] {
    } else {
      var n := |reuse| - 1;
      ReusedFromAt(reuse[..n]);
      assert reuse == reuse[..n] + [reuse[n]];
    }
  }

  // ---------------------------------------------------------------------------------------
  // An inert probe is exact
  // ---------------------------------------------------------------------------------------

  ghost predicate TrueFlags(b: Book, rows: seq<Row>, entities: map<nat, bool>) {
    forall k :: 0 <= k < |rows| && rows[k].index in entities ==> entities[rows[k].index] == HasEntity(b, rows[k])
  }

  /** NER found nothing on the lines probed. */
  ghost predicate ProbeInert(b: Book, rows: seq<Row>, probed: set<nat>) {
    forall k :: 0 <= k < |rows| && rows[k].index in probed ==> !HasEntity(b, rows[k])
  }

  ghost predicate MatchOf(was: seq<Row>, cur: seq<Row>, reuse: seq<Pair>, ner: seq<nat>) {
    Ordered(was) && Ordered(cur) && LineMatch.IsMatch(LinesOf(was), LinesOf(cur), reuse, ner)
  }

  /** A reused pair stands on an old and a new row of the same text. */
  lemma {:induction false} PairRows(was: seq<Row>, cur: seq<Row>, reuse: seq<Pair>, ner: seq<nat>, p: Pair)
      returns (i: nat, j: nat)
    requires MatchOf(was, cur, reuse, ner) && p in reuse
    ensures i < |was| && j < |cur| && was[i].index == p.from && cur[j].index == p.to
    ensures was[i].content == cur[j].content && was[i].context == cur[j].context
  {
    PrintsOfRows(was);
    PrintsOfRows(cur);
    assert p in Elems(reuse);
    i :| 0 <= i < |was| && was[i].index == p.from;
    j :| 0 <= j < |cur| && cur[j].index == p.to;
  }

  /** A current row that no pair reaches is probed. */
  lemma {:induction false} ReusedOrProbed(was: seq<Row>, cur: seq<Row>, reuse: seq<Pair>, ner: seq<nat>, j: nat)
    requires MatchOf(was, cur, reuse, ner) && j < |cur|
    ensures cur[j].index in ReusedFrom(reuse) <==> cur[j].index !in Elems(ner)
    ensures cur[j].index in ReusedFrom(reuse) ==> LineMatch.Pair(ReusedFrom(reuse)[cur[j].index], cur[j].index) in reuse
  {
    PrintsOfRows(cur);
    ReusedFromAt(reuse);
    var i := cur[j].index;
    if i in LineMatch.News(Elems(reuse)) {
      var p :| p in Elems(reuse) && p.to == i;
      assert p in reuse;
    }
    if i in ReusedFrom(reuse) {
      assert LineMatch.Pair(ReusedFrom(reuse)[i], i) in Elems(reuse);
    }
  }

  lemma {:induction false} CarriedFlagsAt(rows: seq<Row>, from: map<nat, nat>, entities: map<nat, bool>)
    ensures forall k :: 0 <= k < |rows| ==>
        CarriedFlags(rows, from, entities)[k] == Carried(from, entities, rows[k].index)
  {
    if rows == [] {
    } else {
      CarriedFlagsAt(rows[..|rows| - 1], from, entities);
    }
  }

  lemma {:induction false} TruthAt(b: Book, rows: seq<Row>)
    ensures forall k :: 0 <= k < |rows| ==> Truth(b, rows)[k] == HasEntity(b, rows[k])
  {
    if rows == [] {
    } else {
      TruthAt(b, rows[..|rows| - 1]);
    }
  }

  /** The flags the planner assumed are the true ones once the probe found nothing. */
  lemma {:induction false} AssumedFlagsTrue(b: Book, was: seq<Row>, cur: seq<Row>, entities: map<nat, bool>,
      reuse: seq<Pair>, ner: seq<nat>)
    requires MatchOf(was, cur, reuse, ner)
    requires TrueFlags(b, was, entities) && forall k :: 0 <= k < |was| ==> was[k].index in entities
    requires ProbeInert(b, cur, Elems(ner))
    ensures CarriedFlags(cur, ReusedFrom(reuse), entities) == Truth(b, cur)
  {
    var from := ReusedFrom(reuse);
    CarriedFlagsAt(cur, from, entities);
    TruthAt(b, cur);
    forall j | 0 <= j < |cur| ensures CarriedFlags(cur, from, entities)[j] == HasEntity(b, cur[j]) {
      ReusedOrProbed(was, cur, reuse, ner, j);
      if cur[j].index in from {
        var i, k := PairRows(was, cur, reuse, ner, LineMatch.Pair(from[cur[j].index], cur[j].index));
        assert k == j;
      }
    }
  }

  lemma {:induction false} IsEntityIndex(b: Book, rows: seq<Row>, x: nat)
    ensures x in Indices(Entities(b, rows)) <==>
        exists i :: 0 <= i < |rows| && rows[i].index == x && HasEntity(b, rows[i])
  {
    if rows == [] {
    } else {
      var n := |rows| - 1;
      var ents := Entities(b, rows[..n]);
      IsEntityIndex(b, rows[..n], x);
      assert (ents + [rows[n]])[..|ents|] == ents;
      if i :| 0 <= i < |rows| && rows[i].index == x && HasEntity(b, rows[i]) {
        if i < n { assert rows[..n][i].index == x; }
      }
    }
  }

  lemma {:induction false} CarriedOn(reuse: seq<Pair>, entities: map<nat, bool>, p: Pair)
    ensures var rest := CarriedEntities(reuse, entities);
      CarriedEntities(reuse + [p], entities) == if p.from in entities && entities[p.from] then rest + [p] else rest
  {
    assert (reuse + [p])[..|reuse|] == reuse;
  }

  lemma {:induction false} OneMorePair(reuse: seq<Pair>, p: Pair)
    ensures Froms(reuse + [p]) == Froms(reuse) + [p.from] && Tos(reuse + [p]) == Tos(reuse) + [p.to]
  {
    assert (reuse + [p])[..|reuse|] == reuse;
  }

  ghost predicate FromCarried(reuse: seq<Pair>, entities: map<nat, bool>, x: nat) {
    x in entities && entities[x] && exists m :: 0 <= m < |reuse| && reuse[m].from == x
  }

  ghost predicate ToCarried(reuse: seq<Pair>, entities: map<nat, bool>, x: nat) {
    exists m :: 0 <= m < |reuse| && reuse[m].to == x && reuse[m].from in entities && entities[reuse[m].from]
  }

  lemma {:induction false} CarriedByLast(init: seq<Pair>, entities: map<nat, bool>, p: Pair, x: nat)
    ensures FromCarried(init + [p], entities, x) <==>
      FromCarried(init, entities, x) || (p.from == x && x in entities && entities[x])
    ensures ToCarried(init + [p], entities, x) <==>
      ToCarried(init, entities, x) || (p.to == x && p.from in entities && entities[p.from])
  {
    var reuse := init + [p];
    assert reuse[|init|] == p && forall m :: 0 <= m < |init| ==> reuse[m] == init[m];
  }

  lemma {:induction false} IsCarried(reuse: seq<Pair>, entities: map<nat, bool>, x: nat)
    ensures x in Froms(CarriedEntities(reuse, entities)) <==> FromCarried(reuse, entities, x)
    ensures x in Tos(CarriedEntities(reuse, entities)) <==> ToCarried(reuse, entities, x)
  {
    if reuse != [] {
      var init, p := reuse[..|reuse| - 1], reuse[|reuse| - 1];
      assert reuse == init + [p];
      IsCarried(init, entities, x);
      CarriedOn(init, entities, p);
      OneMorePair(CarriedEntities(init, entities), p);
      CarriedByLast(init, entities, p, x);
    }
  }

  lemma {:induction false} SameIndices(a: seq<nat>, c: seq<nat>)
    requires Increasing(a) && Increasing(c)
    requires forall x: nat :: x in a <==> x in c
    ensures a == c
  {
    var i: seq<int>, j: seq<int> := a, c;
    forall x: int ensures x in Elems(i) <==> x in Elems(j) {
      if x in i { assert x >= 0; }
      if x in j { assert x >= 0; }
    }
    IncreasingUnique(i, j);
  }

  /** No old line with an entity was dropped. */
  ghost predicate DroppedInert(was: seq<Row>, entities: map<nat, bool>, reuse: seq<Pair>) {
    forall k :: 0 <= k < |was| && was[k].index in entities && entities[was[k].index] ==>
        was[k].index in Elems(Froms(reuse))
  }

  lemma {:induction false} OldEntityCarried(b: Book, was: seq<Row>, cur: seq<Row>, entities: map<nat, bool>,
      reuse: seq<Pair>, ner: seq<nat>, x: nat)
    requires MatchOf(was, cur, reuse, ner)
    requires TrueFlags(b, was, entities) && forall k :: 0 <= k < |was| ==> was[k].index in entities
    requires DroppedInert(was, entities, reuse)
    ensures x in Indices(Entities(b, was)) <==> x in Froms(CarriedEntities(reuse, entities))
  {
    IsEntityIndex(b, was, x);
    IsCarried(reuse, entities, x);
    if i :| 0 <= i < |was| && was[i].index == x && HasEntity(b, was[i]) {
      FromsAt(reuse);
      assert x in Froms(reuse);
    }
    if m :| 0 <= m < |reuse| && reuse[m].from == x {
      var i, j := PairRows(was, cur, reuse, ner, reuse[m]);
    }
  }

  lemma {:induction false} NewEntityCarried(b: Book, was: seq<Row>, cur: seq<Row>, entities: map<nat, bool>,
      reuse: seq<Pair>, ner: seq<nat>, x: nat)
    requires MatchOf(was, cur, reuse, ner)
    requires TrueFlags(b, was, entities) && forall k :: 0 <= k < |was| ==> was[k].index in entities
    requires ProbeInert(b, cur, Elems(ner))
    ensures x in Indices(Entities(b, cur)) <==> x in Tos(CarriedEntities(reuse, entities))
  {
    IsEntityIndex(b, cur, x);
    IsCarried(reuse, entities, x);
    if j :| 0 <= j < |cur| && cur[j].index == x && HasEntity(b, cur[j]) {
      ReusedOrProbed(was, cur, reuse, ner, j);
      var p := LineMatch.Pair(ReusedFrom(reuse)[x], x);
      var i, k := PairRows(was, cur, reuse, ner, p);
      var m :| 0 <= m < |reuse| && reuse[m] == p;
      assert k == j && reuse[m].to == x && entities[reuse[m].from];
    }
    if m :| 0 <= m < |reuse| && reuse[m].to == x && reuse[m].from in entities && entities[reuse[m].from] {
      var i, j := PairRows(was, cur, reuse, ner, reuse[m]);
    }
  }

  lemma {:induction false} OrderedIndices(rows: seq<Row>)
    requires Ordered(rows)
    ensures Increasing(Indices(rows))
  {
    IndicesAt(rows);
  }

  lemma {:induction false} OldIndices(b: Book, was: seq<Row>, cur: seq<Row>, entities: map<nat, bool>, reuse: seq<Pair>,
      ner: seq<nat>)
    requires MatchOf(was, cur, reuse, ner)
    requires TrueFlags(b, was, entities) && forall k :: 0 <= k < |was| ==> was[k].index in entities
    requires DroppedInert(was, entities, reuse)
    requires Increasing(Froms(CarriedEntities(reuse, entities)))
    ensures Indices(Entities(b, was)) == Froms(CarriedEntities(reuse, entities))
  {
    EntitiesOrdered(b, was);
    OrderedIndices(Entities(b, was));
    forall x: nat ensures x in Indices(Entities(b, was)) <==> x in Froms(CarriedEntities(reuse, entities)) {
      OldEntityCarried(b, was, cur, entities, reuse, ner, x);
    }
    SameIndices(Indices(Entities(b, was)), Froms(CarriedEntities(reuse, entities)));
  }

  lemma {:induction false} NewIndices(b: Book, was: seq<Row>, cur: seq<Row>, entities: map<nat, bool>, reuse: seq<Pair>,
      ner: seq<nat>)
    requires MatchOf(was, cur, reuse, ner)
    requires TrueFlags(b, was, entities) && forall k :: 0 <= k < |was| ==> was[k].index in entities
    requires ProbeInert(b, cur, Elems(ner))
    ensures Indices(Entities(b, cur)) == Tos(CarriedEntities(reuse, entities))
  {
    EntitiesOrdered(b, cur);
    OrderedIndices(Entities(b, cur));
    CarriedMembers(reuse, entities);
    FromsAt(CarriedEntities(reuse, entities));
    forall x: nat ensures x in Indices(Entities(b, cur)) <==> x in Tos(CarriedEntities(reuse, entities)) {
      NewEntityCarried(b, was, cur, entities, reuse, ner, x);
    }
    SameIndices(Indices(Entities(b, cur)), Tos(CarriedEntities(reuse, entities)));
  }

  /** The line index names its row. */
  lemma {:induction false} SameRow(rows: seq<Row>, x: Row, y: Row)
    requires Ordered(rows) && x in rows && y in rows && x.index == y.index
    ensures x == y
  {}

  /** The entity lines before and after are the same texts in the same order. */
  lemma {:induction false} SameEntities(b: Book, was: seq<Row>, cur: seq<Row>, entities: map<nat, bool>,
      reuse: seq<Pair>, ner: seq<nat>)
    requires MatchOf(was, cur, reuse, ner)
    requires Indices(Entities(b, was)) == Froms(CarriedEntities(reuse, entities))
    requires Indices(Entities(b, cur)) == Tos(CarriedEntities(reuse, entities))
    ensures SameText(Entities(b, was), Entities(b, cur))
  {
    var olds, news, carried := Entities(b, was), Entities(b, cur), CarriedEntities(reuse, entities);
    IndicesAt(olds);
    IndicesAt(news);
    FromsAt(carried);
    forall k | 0 <= k < |olds| ensures olds[k].content == news[k].content && olds[k].context == news[k].context {
      SameEntity(b, was, cur, entities, reuse, ner, carried[k], olds[k], news[k]);
    }
  }

  lemma {:induction false} SameEntity(b: Book, was: seq<Row>, cur: seq<Row>, entities: map<nat, bool>, reuse: seq<Pair>,
      ner: seq<nat>,
                                      p: Pair, x: Row, y: Row)
    requires MatchOf(was, cur, reuse, ner)
    requires p in CarriedEntities(reuse, entities) && x in Entities(b, was) && y in Entities(b, cur)
    requires x.index == p.from && y.index == p.to
    ensures x.content == y.content && x.context == y.context
  {
    CarriedMembers(reuse, entities);
    EntitiesBelow(b, was);
    EntitiesBelow(b, cur);
    var i, j := PairRows(was, cur, reuse, ner, p);
    SameRow(was, was[i], x);
    SameRow(cur, cur[j], y);
  }

  // ---------------------------------------------------------------------------------------
  // The theorem
  // ---------------------------------------------------------------------------------------

  /** Linking the whole book from scratch, batch by batch. */
  function Fresh(b: Book, rows: seq<Row>, stateful: bool): Pass {
    RunBatches(b, rows, stateful, Batches(rows, All(b), b.limits))
  }

  /** The links of one line; a line that is never sent has none. */
  function SpansAt(p: Pass, line: nat): seq<LinkSpan> {
    if line in p.links then p.links[line] else []
  }

  function SeamsOf(b: Book, rows: seq<Row>): set<nat> {
    Seams(rows, b.linker.eligible, b.limits)
  }

  function TrueCounts(b: Book, rows: seq<Row>): set<nat> {
    Counts(rows, Truth(b, rows), SeamsOf(b, rows))
  }

  /** What the entity lines contribute to a whole-book stateful pass, at every line. */
  lemma {:induction false} FreshAt(b: Book, rows: seq<Row>, line: nat)
    requires Ordered(rows)
    ensures var ents := Entities(b, rows);
            var e := EntityFold(b, rows, ents, TrueCounts(b, rows));
            && |e.spans| == |ents|
            && (forall k :: 0 <= k < |ents| && ents[k].index == line ==>
                SpansAt(Fresh(b, rows, true), line) == e.spans[k])
            && ((forall k :: 0 <= k < |ents| ==> ents[k].index != line) ==> SpansAt(Fresh(b, rows, true), line) == [])
  {
    BatchesAreFold(b, rows, true, rows);
    FoldIsEntityFold(b, rows, SeamsOf(b, rows), rows);
  }

  /** An accepted probe whose probed lines turn out free of entities is exact: the whole-book pass
      over the current lines yields the old pass's links, moved along `reuse`, and none on probed lines. */
  lemma {:induction false} InertProbeIsExact(b: Book, prior: Baseline, was: seq<Row>, cur: seq<Row>, reuse: seq<Pair>,
      ner: seq<nat>)
    requires !b.placedByDafHeadings
    requires MatchOf(was, cur, reuse, ner) && prior.lines == LinesOf(was)
    requires TrueFlags(b, was, prior.entities) && (prior.seams.Some? ==> prior.seams.value == TrueCounts(b, was))
    requires Comparable(prior, cur) && KeepsHistory(prior, cur, SeamsOf(b, cur), reuse)
    requires ProbeInert(b, cur, Elems(ner))
    ensures forall p :: p in reuse ==> SpansAt(Fresh(b, cur, true), p.to) == SpansAt(Fresh(b, was, true), p.from)
    ensures forall n :: n in ner ==> SpansAt(Fresh(b, cur, true), n) == []
    ensures Truth(b, cur) == CarriedFlags(cur, ReusedFrom(reuse), prior.entities)
    ensures TrueCounts(b, cur) == TrueCounts(b, was)
    ensures SameText(Entities(b, was), Entities(b, cur))
  {
    var entities := prior.entities;
    LinesAt(was);
    forall k | 0 <= k < |was| ensures was[k].index in entities { assert LinesOf(was)[k].index in entities; }
    forall k | 0 <= k < |was| && was[k].index in entities && entities[was[k].index]
      ensures was[k].index in Elems(Froms(reuse))
    {
      assert LinesOf(was)[k].index == was[k].index;
    }
    AssumedFlagsTrue(b, was, cur, entities, reuse, ner);
    OldIndices(b, was, cur, entities, reuse, ner);
    NewIndices(b, was, cur, entities, reuse, ner);
    SameEntities(b, was, cur, entities, reuse, ner);
    EntitiesOrdered(b, was);
    EntitiesOrdered(b, cur);
    CountsDetermineLinks(b, was, cur, Entities(b, was), Entities(b, cur), TrueCounts(b, was));
    forall p | p in reuse ensures SpansAt(Fresh(b, cur, true), p.to) == SpansAt(Fresh(b, was, true), p.from) {
      MovedSpans(b, was, cur, entities, reuse, p);
    }
    forall n | n in ner ensures SpansAt(Fresh(b, cur, true), n) == [] {
      ProbedSpans(b, cur, ner, n);
    }
  }

  lemma {:induction false} MovedSpans(b: Book, was: seq<Row>, cur: seq<Row>, entities: map<nat, bool>, reuse: seq<Pair>,
      p: Pair)
    requires Ordered(was) && Ordered(cur) && LineMatch.SortedByNew(reuse) && p in reuse
    requires forall q :: q in reuse && q.from == p.from ==> q == p
    requires Indices(Entities(b, was)) == Froms(CarriedEntities(reuse, entities))
    requires Indices(Entities(b, cur)) == Tos(CarriedEntities(reuse, entities))
    requires EntityFold(b, was, Entities(b, was), TrueCounts(b, was)).spans ==
        EntityFold(b, cur, Entities(b, cur), TrueCounts(b, cur)).spans
    ensures SpansAt(Fresh(b, cur, true), p.to) == SpansAt(Fresh(b, was, true), p.from)
  {
    var carried := CarriedEntities(reuse, entities);
    if p in carried {
      var k :| 0 <= k < |carried| && carried[k] == p;
      FromsAt(carried);
      MovedEntity(b, was, cur, k, p);
    } else {
      NotCarried(reuse, entities, p);
      MovedInert(b, was, cur, p);
    }
  }

  lemma {:induction false} SameTo(reuse: seq<Pair>, p: Pair, q: Pair)
    requires LineMatch.SortedByNew(reuse) && p in reuse && q in reuse && p.to == q.to
    ensures p == q
  {}

  lemma {:induction false} NotCarried(reuse: seq<Pair>, entities: map<nat, bool>, p: Pair)
    requires LineMatch.SortedByNew(reuse) && p in reuse && p !in CarriedEntities(reuse, entities)
    requires forall q :: q in reuse && q.from == p.from ==> q == p
    ensures var carried := CarriedEntities(reuse, entities);
      |Froms(carried)| == |Tos(carried)| && forall k :: 0 <= k < |Froms(carried)| ==>
          Froms(carried)[k] != p.from && Tos(carried)[k] != p.to
  {
    var carried := CarriedEntities(reuse, entities);
    CarriedMembers(reuse, entities);
    FromsAt(carried);
    forall k | 0 <= k < |carried| ensures carried[k].from != p.from && carried[k].to != p.to {
      assert carried[k] in carried;
      if carried[k].to == p.to { SameTo(reuse, p, carried[k]); }
    }
  }

  lemma {:induction false} MovedEntity(b: Book, was: seq<Row>, cur: seq<Row>, k: nat, p: Pair)
    requires Ordered(was) && Ordered(cur)
    requires k < |Indices(Entities(b, was))| && Indices(Entities(b, was))[k] == p.from
    requires k < |Indices(Entities(b, cur))| && Indices(Entities(b, cur))[k] == p.to
    requires EntityFold(b, was, Entities(b, was), TrueCounts(b, was)).spans ==
        EntityFold(b, cur, Entities(b, cur), TrueCounts(b, cur)).spans
    ensures SpansAt(Fresh(b, cur, true), p.to) == SpansAt(Fresh(b, was, true), p.from)
  {
    EntitySpans(b, was, k, p.from);
    EntitySpans(b, cur, k, p.to);
  }

  lemma {:induction false} MovedInert(b: Book, was: seq<Row>, cur: seq<Row>, p: Pair)
    requires Ordered(was) && Ordered(cur)
    requires forall k :: 0 <= k < |Indices(Entities(b, was))| ==> Indices(Entities(b, was))[k] != p.from
    requires forall k :: 0 <= k < |Indices(Entities(b, cur))| ==> Indices(Entities(b, cur))[k] != p.to
    ensures SpansAt(Fresh(b, cur, true), p.to) == SpansAt(Fresh(b, was, true), p.from)
  {
    InertSpans(b, was, p.from);
    InertSpans(b, cur, p.to);
  }

  lemma {:induction false} EntitySpans(b: Book, rows: seq<Row>, k: nat, line: nat)
    requires Ordered(rows) && k < |Indices(Entities(b, rows))| && Indices(Entities(b, rows))[k] == line
    ensures k < |EntityFold(b, rows, Entities(b, rows), TrueCounts(b, rows)).spans|
    ensures SpansAt(Fresh(b, rows, true), line) == EntityFold(b, rows, Entities(b, rows), TrueCounts(b, rows)).spans[k]
  {
    IndicesAt(Entities(b, rows));
    FreshAt(b, rows, line);
  }

  lemma {:induction false} InertSpans(b: Book, rows: seq<Row>, line: nat)
    requires Ordered(rows) && forall k :: 0 <= k < |Indices(Entities(b, rows))| ==>
        Indices(Entities(b, rows))[k] != line
    ensures SpansAt(Fresh(b, rows, true), line) == []
  {
    var ents := Entities(b, rows);
    IndicesAt(ents);
    forall k | 0 <= k < |ents| ensures ents[k].index != line { assert Indices(ents)[k] == ents[k].index; }
    FreshAt(b, rows, line);
  }

  lemma {:induction false} ProbedSpans(b: Book, cur: seq<Row>, ner: seq<nat>, n: nat)
    requires Ordered(cur) && n in ner && ProbeInert(b, cur, Elems(ner))
    ensures SpansAt(Fresh(b, cur, true), n) == []
  {
    FreshAt(b, cur, n);
    EntitiesBelow(b, cur);
    var ents := Entities(b, cur);
    forall k | 0 <= k < |ents| ensures ents[k].index != n { assert ents[k] in ents; }
  }

  // ---------------------------------------------------------------------------------------
  // Planning
  // ---------------------------------------------------------------------------------------

  function WholeBook(rows: seq<Row>): seq<Ranges.Range> {
    Ranges.Coalesce(Elems(Indices(rows)))
  }

  function FullNerDelta(rows: seq<Row>): Delta {
    Delta([], WholeBook(rows), |rows|, None, None)
  }

  /** Reused and NER lines are the current lines, each exactly once. */
  ghost predicate Partitions(rows: seq<Row>, reuse: seq<Pair>, ner: set<nat>) {
    && (forall i, j :: 0 <= i < j < |reuse| ==> reuse[i].to != reuse[j].to)
    && Elems(Tos(reuse)) * ner == {}
    && Elems(Tos(reuse)) + ner == Elems(Indices(rows))
  }

  lemma {:induction false} Destinations(reuse: seq<Pair>)
    ensures Elems(Tos(reuse)) == LineMatch.News(Elems(reuse))
  {
    FromsAt(reuse);
    forall x: nat ensures x in Tos(reuse) <==> x in LineMatch.News(Elems(reuse)) {
      if x in Tos(reuse) {
        var k :| 0 <= k < |reuse| && Tos(reuse)[k] == x;
        assert reuse[k] in Elems(reuse);
      }
      if x in LineMatch.News(Elems(reuse)) {
        var p :| p in Elems(reuse) && p.to == x;
        var k :| 0 <= k < |reuse| && reuse[k] == p;
        assert Tos(reuse)[k] == x;
      }
    }
  }

  lemma {:induction false} CurrentIndices(rows: seq<Row>)
    requires Ordered(rows)
    ensures Elems(Indices(rows)) == LineMatch.Prints(LinesOf(rows)).Keys
  {
    PrintsOfRows(rows);
    IndicesAt(rows);
    forall x: nat ensures x in Indices(rows) <==> x in LineMatch.Prints(LinesOf(rows)) {
      if x in Indices(rows) {
        var k :| 0 <= k < |rows| && Indices(rows)[k] == x;
        assert rows[k].index == x;
      }
      if x in LineMatch.Prints(LinesOf(rows)) {
        var k :| 0 <= k < |rows| && rows[k].index == x;
        assert Indices(rows)[k] == x;
      }
    }
  }

  /** A match always partitions the book, so `_checked_delta` never raises on one. */
  lemma {:induction false} MatchPartitions(was: seq<LineMatch.Line>, rows: seq<Row>, reuse: seq<Pair>, ner: seq<nat>)
    requires Ordered(rows) && LineMatch.IsMatch(was, LinesOf(rows), reuse, ner)
    ensures Partitions(rows, reuse, Elems(ner))
  {
    Destinations(reuse);
    CurrentIndices(rows);
    var r, keys := Elems(reuse), LineMatch.Prints(LinesOf(rows)).Keys;
    assert LineMatch.News(r) <= keys;
  }

  lemma {:induction false} NatElems(s: seq<nat>)
    ensures Elems<int>(s) == Elems<nat>(s)
    ensures forall x :: x in Elems<int>(s) ==> 0 <= x
  {
    forall x: int ensures x in Elems<int>(s) <==> x in s {}
    forall x: nat ensures x in Elems<nat>(s) <==> x in s {}
  }

  lemma {:induction false} DistinctTos(reuse: seq<Pair>)
    ensures |Elems(Tos(reuse))| <= |reuse|
    ensures |Elems(Tos(reuse))| == |reuse| <==> forall i, j :: 0 <= i < j < |reuse| ==> reuse[i].to != reuse[j].to
  {
    FromsAt(reuse);
    if reuse != [] {
      var n := |reuse| - 1;
      var init := Elems(Tos(reuse[..n]));
      DistinctTos(reuse[..n]);
      FromsAt(reuse[..n]);
      assert Elems(Tos(reuse)) == init + {reuse[n].to};
      if reuse[n].to in init {
        assert init + {reuse[n].to} == init;
        var i :| 0 <= i < n && Tos(reuse[..n])[i] == reuse[n].to;
        assert reuse[i].to == reuse[n].to;
      } else {
        forall i | 0 <= i < n ensures reuse[i].to != reuse[n].to { assert Tos(reuse[..n])[i] in init; }
        if i, j :| 0 <= i < j < |reuse| && reuse[i].to == reuse[j].to {
          assert reuse[..n][i].to == reuse[..n][j].to;
        }
      }
    }
  }

  method CheckedDelta(rows: seq<Row>, reuse: seq<Pair>, ner: seq<nat>, artifact: Option<seq<Record>>,
      context: Option<seq<Ranges.Range>>)
    returns (r: Result<Delta>)
    ensures r.Ok? <==> Partitions(rows, reuse, Elems(ner))
    ensures r.Ok? ==> r.value == Delta(reuse, Ranges.Coalesce(Elems(ner)), |rows|, artifact, context)
  {
    NatElems(ner);
    var ranges := Ranges.CoalesceRanges(ner);
    var delta := Delta(reuse, ranges.value, |rows|, artifact, context);
    Ranges.ExpandCoalesce(Elems(ner));
    var nerIndices := Ranges.IndicesFromRanges(delta.ner);
    var destinations, current := Elems(Tos(reuse)), Elems(Indices(rows));
    ghost var nerSet := Elems<nat>(ner);
    assert nerIndices.value == nerSet;
    assert destinations * nerIndices.value == destinations * nerSet;
    assert destinations + nerIndices.value == current <==> destinations + nerSet == current;
    DistinctTos(reuse);
    if |destinations| != |delta.reuse| || destinations * nerIndices.value != {}
        || destinations + nerIndices.value != current {
      return Raised("line delta does not partition the current book exactly");
    }
    return Ok(delta);
  }

  function Somes(flags: seq<bool>): seq<Option<bool>> {
    seq(|flags|, k requires 0 <= k < |flags| => Some(flags[k]))
  }

  lemma {:induction false} KnownSomes(flags: seq<bool>)
    ensures Known(Somes(flags)) == flags
  {
    KnownLength(Somes(flags));
    forall k | 0 <= k < |flags| ensures Known(Somes(flags))[k] == flags[k] { KnownAt(Somes(flags), k); }
  }

  function ProbeFor(prior: Baseline, rows: seq<Row>, seams: set<nat>, reuse: seq<Pair>, ner: seq<nat>): Option<Delta>
    requires Comparable(prior, rows)
  {
    if KeepsHistory(prior, rows, seams, reuse) then
      Some(Delta(reuse, Ranges.Coalesce(Elems(ner)), |rows|, prior.artifact, Some(WholeBook(rows))))
    else None
  }

  /** The probe of some match, if that match keeps the history. */
  ghost predicate IsProbe(prior: Baseline, rows: seq<Row>, seams: Option<set<nat>>, d: Option<Delta>) {
    if seams.None? || !Comparable(prior, rows) then d == None
    else exists reuse: seq<Pair>, ner: seq<nat> ::
        LineMatch.IsMatch(prior.lines, LinesOf(rows), reuse, ner)
        && d == ProbeFor(prior, rows, seams.value, reuse, ner)
  }

  /** The tests on a match, in the planner's order. */
  method JudgeMatch(prior: Baseline, rows: seq<Row>, seams: set<nat>, reuse: seq<Pair>) returns (keeps: bool)
    requires Comparable(prior, rows)
    ensures keeps <==> KeepsHistory(prior, rows, seams, reuse)
  {
    if reuse == [] {
      return false;
    }
    var usedOld := Elems(Froms(reuse));
    if exists k :: 0 <= k < |prior.lines| && prior.lines[k].index !in usedOld && prior.entities[prior.lines[k].index] {
      return false;
    }
    if !Increasing(Froms(CarriedEntities(reuse, prior.entities))) {
      return false;
    }
    var flags := CarriedFlags(rows, ReusedFrom(reuse), prior.entities);
    KnownSomes(flags);
    var counts := IbidSeamCounts(rows, Somes(flags), seams);
    keeps := counts == prior.seams;
  }

  method ContextProbeDelta(prior: Baseline, rows: seq<Row>, seams: Option<set<nat>>) returns (d: Option<Delta>)
    requires Ordered(rows) && LineMatch.Ordered(prior.lines)
    ensures IsProbe(prior, rows, seams, d)
  {
    if seams.None? || !Comparable(prior, rows) {
      return None;
    }
    PrintsOfRows(rows);
    var reuse, ner := LineMatch.MatchLines(prior.lines, LinesOf(rows));
    d := None;
    ghost var plan := ProbeFor(prior, rows, seams.value, reuse, ner);
    var keeps := JudgeMatch(prior, rows, seams.value, reuse);
    if keeps {
      MatchPartitions(prior.lines, rows, reuse, ner);
      var checkedDelta := CheckedDelta(rows, reuse, ner, prior.artifact, Some(WholeBook(rows)));
      d := Some(checkedDelta.value);
    }
    assert d == plan;
  }

  /** Per-line reuse along some match of the lines, for a book without citation history. */
  ghost predicate IsReuse(prior: Baseline, rows: seq<Row>, d: Delta) {
    exists ner: seq<nat> :: LineMatch.IsMatch(prior.lines, LinesOf(rows), d.reuse, ner)
                            && d == Delta(d.reuse, Ranges.Coalesce(Elems(ner)), |rows|, prior.artifact, None)
  }

  /** What `compute_line_delta` may plan. */
  ghost predicate IsDelta(b: Book, prior: Baseline, rows: seq<Row>, seams: Option<set<nat>>, d: Delta) {
    if RequiresContext(b, rows) then
      (IsProbe(prior, rows, seams, None) && d == FullNerDelta(rows)) || IsProbe(prior, rows, seams, Some(d))
    else IsReuse(prior, rows, d)
  }

  method ReuseDelta(prior: Baseline, rows: seq<Row>) returns (d: Delta)
    requires Ordered(rows) && LineMatch.Ordered(prior.lines)
    ensures IsReuse(prior, rows, d)
  {
    PrintsOfRows(rows);
    var reuse, ner := LineMatch.MatchLines(prior.lines, LinesOf(rows));
    MatchPartitions(prior.lines, rows, reuse, ner);
    var checkedDelta := CheckedDelta(rows, reuse, ner, prior.artifact, None);
    return checkedDelta.value;
  }

  /** One book of `plan_changed_books`: without a usable old baseline, or with lines placed by
      daf headings, the whole book goes to NER. */
  ghost predicate IsPlan(b: Book, prior: Option<Baseline>, rows: seq<Row>, seams: Option<set<nat>>, d: Delta) {
    if prior.None? || b.placedByDafHeadings then d == FullNerDelta(rows)
    else IsDelta(b, prior.value, rows, seams, d)
  }

  /** The lines a list of ranges covers. */
  function Sent(rs: seq<Ranges.Range>): set<nat> {
    set x: nat | x in Ranges.Covered(rs)
  }

  lemma {:induction false} SentCoalesce(s: set<nat>)
    ensures Ranges.WellOrdered(Ranges.Coalesce(s)) && Sent(Ranges.Coalesce(s)) == s
  {
    Ranges.CoalesceCovers(s);
  }

  /** Each current line once, either reused or sent to NER; a probe sends strictly less than the book. */
  ghost predicate Covers(rows: seq<Row>, d: Delta) {
    && Ranges.WellOrdered(d.ner)
    && Partitions(rows, d.reuse, Sent(d.ner))
    && (d.context.Some? ==>
          && Ranges.WellOrdered(d.context.value) && Sent(d.context.value) == Elems(Indices(rows))
          && Sent(d.ner) < Sent(d.context.value))
  }

  lemma {:induction false} MatchCovers(was: seq<LineMatch.Line>, rows: seq<Row>, reuse: seq<Pair>, ner: seq<nat>,
      d: Delta)
    requires Ordered(rows) && LineMatch.IsMatch(was, LinesOf(rows), reuse, ner)
    requires d.reuse == reuse && d.ner == Ranges.Coalesce(Elems(ner))
    requires d.context == None || (reuse != [] && d.context == Some(WholeBook(rows)))
    ensures Covers(rows, d)
  {
    MatchPartitions(was, rows, reuse, ner);
    SentCoalesce(Elems(ner));
    SentCoalesce(Elems(Indices(rows)));
    if reuse != [] {
      FromsAt(reuse);
      assert Tos(reuse)[0] in Elems(Tos(reuse));
    }
  }

  lemma {:induction false} PlanCovers(b: Book, prior: Option<Baseline>, rows: seq<Row>, seams: Option<set<nat>>,
      d: Delta)
    requires Ordered(rows) && IsPlan(b, prior, rows, seams, d)
    ensures Covers(rows, d)
  {
    SentCoalesce(Elems(Indices(rows)));
    if prior.Some? && !b.placedByDafHeadings {
      if RequiresContext(b, rows) {
        if IsProbe(prior.value, rows, seams, Some(d)) {
          var reuse: seq<Pair>, ner: seq<nat> :| LineMatch.IsMatch(prior.value.lines, LinesOf(rows), reuse, ner)
                            && Some(d) == ProbeFor(prior.value, rows, seams.value, reuse, ner);
          MatchCovers(prior.value.lines, rows, reuse, ner, d);
        }
      } else {
        var ner: seq<nat> :| LineMatch.IsMatch(prior.value.lines, LinesOf(rows), d.reuse, ner)
                             && d == Delta(d.reuse, Ranges.Coalesce(Elems(ner)), |rows|, prior.value.artifact, None);
        MatchCovers(prior.value.lines, rows, d.reuse, ner, d);
      }
    }
  }

  // ---------------------------------------------------------------------------------------
  // When a probe is planned, in terms of the book
  // ---------------------------------------------------------------------------------------

  /** The lines with an entity, in order, are the two sides of reused pairs. */
  ghost predicate SameEntityLines(b: Book, was: seq<Row>, cur: seq<Row>, reuse: seq<Pair>) {
    var olds, news := Entities(b, was), Entities(b, cur);
    |olds| == |news| && forall k :: 0 <= k < |olds| ==> LineMatch.Pair(olds[k].index, news[k].index) in reuse
  }

  /** The baseline of `was` with every entity flag and the seam counts on record. */
  ghost predicate FullRecord(b: Book, prior: Baseline, was: seq<Row>) {
    && prior.lines == LinesOf(was) && prior.bookContext == Some(true)
    && (forall k :: 0 <= k < |was| ==>
        was[k].index in prior.entities && prior.entities[was[k].index] == HasEntity(b, was[k]))
    && prior.seams == Some(TrueCounts(b, was))
  }

  /** Some line is reused, and the citation history goes through the same entity lines, cut by seams at
      the same places. */
  ghost predicate HistoryUnmoved(b: Book, was: seq<Row>, cur: seq<Row>, reuse: seq<Pair>) {
    reuse != [] && SameEntityLines(b, was, cur, reuse) && TrueCounts(b, was) == TrueCounts(b, cur)
  }

  /** The pairs of entity lines are all the pairs of reused entity lines, in order. */
  lemma {:induction false} PairedCarried(b: Book, was: seq<Row>, cur: seq<Row>, entities: map<nat, bool>,
      reuse: seq<Pair>, ner: seq<nat>)
    requires MatchOf(was, cur, reuse, ner) && ProbeInert(b, cur, Elems(ner))
    requires TrueFlags(b, was, entities) && forall k :: 0 <= k < |was| ==> was[k].index in entities
    requires SameEntityLines(b, was, cur, reuse)
    ensures Froms(CarriedEntities(reuse, entities)) == Indices(Entities(b, was))
  {
    var olds, news, carried := Entities(b, was), Entities(b, cur), CarriedEntities(reuse, entities);
    NewIndices(b, was, cur, entities, reuse, ner);
    IndicesAt(olds);
    IndicesAt(news);
    FromsAt(carried);
    CarriedMembers(reuse, entities);
    forall k | 0 <= k < |olds| ensures carried[k].from == olds[k].index {
      assert carried[k] in carried && Tos(carried)[k] == Indices(news)[k];
      SameTo(reuse, carried[k], LineMatch.Pair(olds[k].index, news[k].index));
    }
  }

  lemma {:induction false} PairedDropped(b: Book, was: seq<Row>, cur: seq<Row>, entities: map<nat, bool>,
      reuse: seq<Pair>)
    requires TrueFlags(b, was, entities) && SameEntityLines(b, was, cur, reuse)
    ensures DroppedInert(was, entities, reuse)
  {
    var olds, news := Entities(b, was), Entities(b, cur);
    forall k | 0 <= k < |was| && was[k].index in entities && entities[was[k].index]
      ensures was[k].index in Elems(Froms(reuse))
    {
      IsEntityIndex(b, was, was[k].index);
      IndicesAt(olds);
      var j :| 0 <= j < |olds| && olds[j].index == was[k].index;
      FromsAt(reuse);
      var m :| 0 <= m < |reuse| && reuse[m] == LineMatch.Pair(olds[j].index, news[j].index);
      assert Froms(reuse)[m] == was[k].index;
    }
  }

  lemma {:induction false} UnmovedKeeps(b: Book, prior: Baseline, was: seq<Row>, cur: seq<Row>, reuse: seq<Pair>,
      ner: seq<nat>)
    requires MatchOf(was, cur, reuse, ner) && FullRecord(b, prior, was) && cur != []
    requires ProbeInert(b, cur, Elems(ner)) && HistoryUnmoved(b, was, cur, reuse)
    ensures Comparable(prior, cur) && KeepsHistory(prior, cur, SeamsOf(b, cur), reuse)
  {
    LinesAt(was);
    AssumedFlagsTrue(b, was, cur, prior.entities, reuse, ner);
    PairedCarried(b, was, cur, prior.entities, reuse, ner);
    PairedDropped(b, was, cur, prior.entities, reuse);
    EntitiesOrdered(b, was);
    OrderedIndices(Entities(b, was));
  }

  lemma {:induction false} KeptUnmoved(b: Book, prior: Baseline, was: seq<Row>, cur: seq<Row>, reuse: seq<Pair>,
      ner: seq<nat>)
    requires MatchOf(was, cur, reuse, ner) && FullRecord(b, prior, was) && Comparable(prior, cur)
    requires ProbeInert(b, cur, Elems(ner)) && KeepsHistory(prior, cur, SeamsOf(b, cur), reuse)
    ensures HistoryUnmoved(b, was, cur, reuse)
  {
    AssumedFlagsTrue(b, was, cur, prior.entities, reuse, ner);
    HistoryIndices(b, prior, was, cur, reuse, ner);
    IndexPairs(b, was, cur, prior.entities, reuse);
  }

  lemma {:induction false} HistoryIndices(b: Book, prior: Baseline, was: seq<Row>, cur: seq<Row>, reuse: seq<Pair>,
      ner: seq<nat>)
    requires MatchOf(was, cur, reuse, ner) && FullRecord(b, prior, was) && Comparable(prior, cur)
    requires ProbeInert(b, cur, Elems(ner)) && KeepsHistory(prior, cur, SeamsOf(b, cur), reuse)
    ensures Indices(Entities(b, was)) == Froms(CarriedEntities(reuse, prior.entities))
    ensures Indices(Entities(b, cur)) == Tos(CarriedEntities(reuse, prior.entities))
  {
    LinesAt(was);
    forall k | 0 <= k < |was| && was[k].index in prior.entities && prior.entities[was[k].index]
      ensures was[k].index in Elems(Froms(reuse))
    {
      assert LinesOf(was)[k].index == was[k].index;
    }
    OldIndices(b, was, cur, prior.entities, reuse, ner);
    NewIndices(b, was, cur, prior.entities, reuse, ner);
  }

  lemma {:induction false} IndexPairs(b: Book, was: seq<Row>, cur: seq<Row>, entities: map<nat, bool>, reuse: seq<Pair>)
    requires LineMatch.SortedByNew(reuse)
    requires Indices(Entities(b, was)) == Froms(CarriedEntities(reuse, entities))
    requires Indices(Entities(b, cur)) == Tos(CarriedEntities(reuse, entities))
    ensures SameEntityLines(b, was, cur, reuse)
  {
    var olds, news, carried := Entities(b, was), Entities(b, cur), CarriedEntities(reuse, entities);
    IndicesAt(olds);
    IndicesAt(news);
    FromsAt(carried);
    CarriedMembers(reuse, entities);
    forall k | 0 <= k < |olds| ensures LineMatch.Pair(olds[k].index, news[k].index) in reuse {
      assert carried[k] in carried && carried[k] == LineMatch.Pair(olds[k].index, news[k].index);
    }
  }

  /** A fully recorded book whose unpaired lines carry no entity gets a probe exactly if its history is
      unmoved, and the probe is that of the match. */
  lemma {:induction false} ProbedExactly(b: Book, prior: Baseline, was: seq<Row>, cur: seq<Row>, reuse: seq<Pair>,
      ner: seq<nat>, d: Option<Delta>)
    requires MatchOf(was, cur, reuse, ner) && FullRecord(b, prior, was) && cur != []
    requires ProbeInert(b, cur, Elems(ner)) && IsProbe(prior, cur, Some(SeamsOf(b, cur)), d)
    ensures d.Some? <==> HistoryUnmoved(b, was, cur, reuse)
    ensures d.Some? ==> d.value.reuse == reuse && Sent(d.value.ner) == Elems(ner) && d.value.context.Some?
  {
    LinesAt(was);
    assert Comparable(prior, cur);
    var again: seq<Pair>, left: seq<nat> :| LineMatch.IsMatch(prior.lines, LinesOf(cur), again, left)
      && d == ProbeFor(prior, cur, SeamsOf(b, cur), again, left);
    LineMatch.MatchUnique(prior.lines, LinesOf(cur), reuse, ner, again, left);
    SentCoalesce(Elems(ner));
    if d.Some? {
      KeptUnmoved(b, prior, was, cur, reuse, ner);
    } else if HistoryUnmoved(b, was, cur, reuse) {
      UnmovedKeeps(b, prior, was, cur, reuse, ner);
    }
  }

  /** Only the unpaired lines go to NER where that is enough, and else the whole book. */
  ghost predicate SendsLeast(b: Book, was: seq<Row>, cur: seq<Row>, reuse: seq<Pair>, ner: seq<nat>, d: Delta) {
    if !RequiresContext(b, cur) || HistoryUnmoved(b, was, cur, reuse) then
      d.reuse == reuse && Sent(d.ner) == Elems(ner) && (d.context.Some? <==> RequiresContext(b, cur))
    else d.reuse == [] && Sent(d.ner) == Elems(Indices(cur)) && d.context.None?
  }

  /** What is known of the old book and of the new lines: nothing is needed where no history is. */
  ghost predicate OnRecord(b: Book, prior: Baseline, was: seq<Row>, cur: seq<Row>, ner: seq<nat>) {
    && prior.lines == LinesOf(was)
    && (RequiresContext(b, cur) ==> FullRecord(b, prior, was) && ProbeInert(b, cur, Elems(ner)))
  }

  lemma {:induction false} DeltaSendsLeast(b: Book, prior: Baseline, was: seq<Row>, cur: seq<Row>, reuse: seq<Pair>,
      ner: seq<nat>, d: Delta)
    requires MatchOf(was, cur, reuse, ner) && OnRecord(b, prior, was, cur, ner)
    requires IsDelta(b, prior, cur, Some(SeamsOf(b, cur)), d)
    ensures SendsLeast(b, was, cur, reuse, ner, d)
  {
    SentCoalesce(Elems(Indices(cur)));
    if RequiresContext(b, cur) {
      if IsProbe(prior, cur, Some(SeamsOf(b, cur)), Some(d)) {
        ProbedExactly(b, prior, was, cur, reuse, ner, Some(d));
      } else {
        ProbedExactly(b, prior, was, cur, reuse, ner, None);
      }
    } else {
      var left: seq<nat> :| LineMatch.IsMatch(prior.lines, LinesOf(cur), d.reuse, left)
        && d == Delta(d.reuse, Ranges.Coalesce(Elems(left)), |cur|, prior.artifact, None);
      LineMatch.MatchUnique(prior.lines, LinesOf(cur), reuse, ner, d.reuse, left);
      SentCoalesce(Elems(ner));
    }
  }

  ghost predicate PlannedLeast(b: Book, prior: Baseline, cur: seq<Row>, d: Delta) {
    forall was: seq<Row>, reuse: seq<Pair>, ner: seq<nat> ::
      MatchOf(was, cur, reuse, ner) && OnRecord(b, prior, was, cur, ner) ==> SendsLeast(b, was, cur, reuse, ner, d)
  }

  lemma {:induction false} LeastPlanned(b: Book, prior: Baseline, cur: seq<Row>, d: Delta)
    requires IsDelta(b, prior, cur, Some(SeamsOf(b, cur)), d)
    ensures PlannedLeast(b, prior, cur, d)
  {
    forall was: seq<Row>, reuse: seq<Pair>, ner: seq<nat>
      | MatchOf(was, cur, reuse, ner) && OnRecord(b, prior, was, cur, ner)
      ensures SendsLeast(b, was, cur, reuse, ner, d)
    {
      DeltaSendsLeast(b, prior, was, cur, reuse, ner, d);
    }
  }

  method ComputeLineDelta(b: Book, prior: Baseline, rows: seq<Row>, seams: Option<set<nat>>) returns (d: Delta)
    requires Ordered(rows) && LineMatch.Ordered(prior.lines)
    ensures IsDelta(b, prior, rows, seams, d)
    ensures seams == Some(SeamsOf(b, rows)) ==> PlannedLeast(b, prior, rows, d)
  {
    if RequiresContext(b, rows) {
      var probe := ContextProbeDelta(prior, rows, seams);
      d := if probe.Some? then probe.value else FullNerDelta(rows);
    } else {
      d := ReuseDelta(prior, rows);
    }
    if seams == Some(SeamsOf(b, rows)) {
      LeastPlanned(b, prior, rows, d);
    }
  }
}
