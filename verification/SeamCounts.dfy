/** `ibid_seam_counts`: how many entity lines precede each transport seam, and why that summary,
    together with the entity lines themselves, determines a whole-book stateful pass. */
module SeamCounts {
  import opened Prelude
  import opened Transport
  import opened Ibid

  // ---------------------------------------------------------------------------------------
  // The counts
  // ---------------------------------------------------------------------------------------

  function EntityCount(flags: seq<bool>): nat {
    if flags == [] then 0
    else EntityCount(flags[..|flags| - 1]) + if flags[|flags| - 1] then 1 else 0
  }

  /** Entity lines before each seam line; a seam before the first entity is no seam. */
  function Counts(rows: seq<Row>, flags: seq<bool>, seams: set<nat>): set<nat>
    requires |flags| == |rows|
  {
    if rows == [] then {}
    else
      var n := |rows| - 1;
      var before := EntityCount(flags[..n]);
      Counts(rows[..n], flags[..n], seams) + if rows[n].index in seams && before > 0 then {before} else {}
  }

  function Known(flags: seq<Option<bool>>): seq<bool>
    requires forall k :: 0 <= k < |flags| ==> flags[k].Some?
  {
    if flags == [] then [] else Known(flags[..|flags| - 1]) + [flags[|flags| - 1].value]
  }

  /** `ibid_seam_counts`; the sorted list of distinct counts is represented by its set. */
  method IbidSeamCounts(rows: seq<Row>, flags: seq<Option<bool>>, seams: set<nat>) returns (result: Option<set<nat>>)
    requires |flags| == |rows|
    ensures result == SeamSummary(rows, flags, seams)
  {
    if exists k :: 0 <= k < |flags| && flags[k].None? {
      return None;
    }
    var counts := CountSeams(rows, flags, seams);
    return Some(counts);
  }

  /** The loop over rows and known flags. */
  method CountSeams(rows: seq<Row>, flags: seq<Option<bool>>, seams: set<nat>) returns (counts: set<nat>)
    requires |flags| == |rows| && forall k :: 0 <= k < |flags| ==> flags[k].Some?
    ensures |Known(flags)| == |rows| && counts == Counts(rows, Known(flags), seams)
  {
    counts := {};
    var entities: nat := 0;
    ghost var known := Known(flags);
    KnownLength(flags);
    for n := 0 to |rows|
      invariant counts == Counts(rows[..n], known[..n], seams)
      invariant entities == EntityCount(known[..n])
    {
      KnownAt(flags, n);
      assert rows[..n + 1][..n] == rows[..n] && known[..n + 1][..n] == known[..n];
      if rows[n].index in seams && entities > 0 {
        counts := counts + {entities};
      }
      entities := entities + if flags[n].value then 1 else 0;
    }
    assert rows[..|rows|] == rows && known[..|rows|] == known;
  }

  function SeamSummary(rows: seq<Row>, flags: seq<Option<bool>>, seams: set<nat>): Option<set<nat>>
    requires |flags| == |rows|
  {
    if exists k :: 0 <= k < |flags| && flags[k].None? then None
    else
      KnownLength(flags);
      Some(Counts(rows, Known(flags), seams))
  }

  lemma {:induction false} KnownLength(flags: seq<Option<bool>>)
    requires forall k :: 0 <= k < |flags| ==> flags[k].Some?
    ensures |Known(flags)| == |flags|
  {
    if flags == [] {
    } else {
      KnownLength(flags[..|flags| - 1]);
    }
  }

  lemma {:induction false} KnownAt(flags: seq<Option<bool>>, n: nat)
    requires n < |flags| && forall k :: 0 <= k < |flags| ==> flags[k].Some?
    ensures |Known(flags)| == |flags| && Known(flags)[n] == flags[n].value
  {
    KnownLength(flags[..|flags| - 1]);
    if n < |flags| - 1 { KnownAt(flags[..|flags| - 1], n); }
  }

  // ---------------------------------------------------------------------------------------
  // The pass over the entity lines alone
  // ---------------------------------------------------------------------------------------

  /** The flags as they really are. */
  function Truth(b: Book, rows: seq<Row>): (flags: seq<bool>)
    ensures |flags| == |rows|
  {
    if rows == [] then [] else Truth(b, rows[..|rows| - 1]) + [HasEntity(b, rows[|rows| - 1])]
  }

  function Entities(b: Book, rows: seq<Row>): seq<Row> {
    if rows == [] then []
    else
      var init, row := rows[..|rows| - 1], rows[|rows| - 1];
      if HasEntity(b, row) then Entities(b, init) + [row] else Entities(b, init)
  }

  datatype EntityPass = EntityPass(state: State, spans: seq<seq<LinkSpan>>)

  /** Link the entity lines in order, crossing a seam before line k exactly when k is a count. */
  function EntityFold(b: Book, rows: seq<Row>, ents: seq<Row>, counts: set<nat>): EntityPass {
    if ents == [] then EntityPass(START, [])
    else
      var k := |ents| - 1;
      var p := EntityFold(b, rows, ents[..k], counts);
      var l := Step(b, rows, if k in counts then Carry(b, p.state) else p.state, ents[k]);
      EntityPass(l.state, p.spans + [l.spans])
  }

  lemma {:induction false} EntityFoldKeepsThree(b: Book, rows: seq<Row>, ents: seq<Row>, counts: set<nat>)
    ensures |EntityFold(b, rows, ents, counts).state.history.refs| <= 3
    ensures |EntityFold(b, rows, ents, counts).spans| == |ents|
  {
    if ents == [] {
    } else {
      var k := |ents| - 1;
      EntityFoldKeepsThree(b, rows, ents[..k], counts);
      var s := EntityFold(b, rows, ents[..k], counts).state;
      CarryLaws(b, s);
      StepKeepsThree(b, rows, if k in counts then Carry(b, s) else s, ents[k]);
    }
  }

  /** Only counts of at most the lines already linked matter. */
  lemma {:induction false} LaterCounts(b: Book, rows: seq<Row>, ents: seq<Row>, counts: set<nat>, more: set<nat>)
    requires forall k :: 0 <= k < |ents| ==> (k in counts <==> k in more)
    ensures EntityFold(b, rows, ents, counts) == EntityFold(b, rows, ents, more)
  {
    if ents == [] {
    } else {
      LaterCounts(b, rows, ents[..|ents| - 1], counts, more);
    }
  }

  lemma {:induction false} CountBounds(b: Book, rows: seq<Row>, seams: set<nat>)
    ensures EntityCount(Truth(b, rows)) == |Entities(b, rows)|
    ensures forall k :: k in Counts(rows, Truth(b, rows), seams) ==> 0 < k <= |Entities(b, rows)|
  {
    if rows == [] {
    } else {
      CountBounds(b, rows[..|rows| - 1], seams);
      assert Truth(b, rows)[..|rows| - 1] == Truth(b, rows[..|rows| - 1]);
    }
  }

  lemma {:induction false} EntitiesBelow(b: Book, rows: seq<Row>)
    ensures forall e :: e in Entities(b, rows) ==> e in rows && HasEntity(b, e)
  {
    if rows == [] {
    } else {
      EntitiesBelow(b, rows[..|rows| - 1]);
    }
  }

  /** What the pass over all rows has in common with the pass over the entity lines. */
  ghost predicate SamePass(p: Pass, e: EntityPass, b: Book, ents: seq<Row>, counts: set<nat>) {
    && |e.spans| == |ents|
    && p.state == (if |ents| in counts then Carry(b, e.state) else e.state)
    && (forall k :: 0 <= k < |ents| ==> ents[k].index in p.links && p.links[ents[k].index] == e.spans[k])
    && (forall i :: i in p.links && (forall k :: 0 <= k < |ents| ==> ents[k].index != i) ==> p.links[i] == [])
  }

  /** The stateful pass over all rows is the pass over the entity lines under the seam counts:
      inert lines, repeated seams and leading seams leave no trace. */
  lemma {:induction false} FoldIsEntityFold(b: Book, rows: seq<Row>, seams: set<nat>, done: seq<Row>)
    requires Ordered(done)
    ensures var counts := Counts(done, Truth(b, done), seams);
            SamePass(Fold(b, rows, true, seams, done), EntityFold(b, rows, Entities(b, done), counts), b,
                Entities(b, done), counts)
  {
    if done == [] {
    } else {
      var n := |done| - 1;
      var init, row := done[..n], done[n];
      var ents, before := Entities(b, init), Counts(init, Truth(b, init), seams);
      var now := Counts(done, Truth(b, done), seams);
      assert Truth(b, done)[..n] == Truth(b, init);
      FoldIsEntityFold(b, rows, seams, init);
      CountBounds(b, init, seams);
      LaterCounts(b, rows, ents, before, now);
      EntityFoldKeepsThree(b, rows, ents, before);
      var p, e := Fold(b, rows, true, seams, init), EntityFold(b, rows, ents, now);
      CrossSeam(b, p, e, ents, before, row.index in seams);
      var q := if row.index in seams then p.(state := Carry(b, p.state)) else p;
      assert SamePass(q, e, b, ents, now);
      EntitiesBelow(b, init);
      if HasEntity(b, row) {
        EntityRow(b, rows, q, e, ents, now, row);
      } else if b.linker.eligible(row.content) {
        InertRow(b, rows, q, e, ents, now, row);
      }
    }
  }

  lemma {:induction false} CrossSeam(b: Book, p: Pass, e: EntityPass, ents: seq<Row>, counts: set<nat>, seam: bool)
    requires SamePass(p, e, b, ents, counts) && |e.state.history.refs| <= 3
    requires ents == [] ==> e.state == START && 0 !in counts
    ensures var now := counts + if seam && |ents| > 0 then {|ents|} else {};
            SamePass(if seam then p.(state := Carry(b, p.state)) else p, e, b, ents, now)
  {
    CarryLaws(b, e.state);
  }

  lemma {:induction false} EntityFoldAppend(b: Book, rows: seq<Row>, ents: seq<Row>, row: Row, counts: set<nat>)
    ensures EntityFold(b, rows, ents + [row], counts) ==
            var e := EntityFold(b, rows, ents, counts);
            var l := Step(b, rows, if |ents| in counts then Carry(b, e.state) else e.state, row);
            EntityPass(l.state, e.spans + [l.spans])
  {
    assert (ents + [row])[..|ents|] == ents;
  }

  lemma {:induction false} EntityRow(b: Book, rows: seq<Row>, p: Pass, e: EntityPass, ents: seq<Row>, counts: set<nat>,
      row: Row)
    requires SamePass(p, e, b, ents, counts) && e == EntityFold(b, rows, ents, counts)
    requires forall k :: k in counts ==> k <= |ents|
    requires forall x :: x in ents ==> x.index != row.index
    ensures SamePass(After(b, rows, p, row), EntityFold(b, rows, ents + [row], counts), b, ents + [row], counts)
  {
    EntityFoldAppend(b, rows, ents, row, counts);
    forall k | 0 <= k < |ents| ensures ents[k].index != row.index { assert ents[k] in ents; }
    LinkedRow(p.links, e.spans, ents, row, Step(b, rows, p.state, row).spans);
  }

  /** One more linked row, on the side of the links. */
  lemma {:induction false} LinkedRow(links: map<nat, seq<LinkSpan>>, spans: seq<seq<LinkSpan>>, ents: seq<Row>,
      row: Row, more: seq<LinkSpan>)
    requires |spans| == |ents| && forall k :: 0 <= k < |ents| ==> ents[k].index != row.index
    requires forall k :: 0 <= k < |ents| ==> ents[k].index in links && links[ents[k].index] == spans[k]
    requires forall i :: i in links && (forall k :: 0 <= k < |ents| ==> ents[k].index != i) ==> links[i] == []
    ensures var q, longer, all := links[row.index := more], ents + [row], spans + [more];
      && (forall k :: 0 <= k < |longer| ==> longer[k].index in q && q[longer[k].index] == all[k])
      && (forall i :: i in q && (forall k :: 0 <= k < |longer| ==> longer[k].index != i) ==> q[i] == [])
  {
    var q, longer := links[row.index := more], ents + [row];
    forall i | i in q && (forall k :: 0 <= k < |longer| ==> longer[k].index != i) ensures q[i] == [] {
      assert longer[|ents|].index != i;
      forall k | 0 <= k < |ents| ensures ents[k].index != i { assert longer[k] == ents[k]; }
    }
  }

  lemma {:induction false} InertRow(b: Book, rows: seq<Row>, p: Pass, e: EntityPass, ents: seq<Row>, counts: set<nat>,
      row: Row)
    requires SamePass(p, e, b, ents, counts)
    requires b.linker.entities(row.content) == []
    requires forall x :: x in ents ==> x.index != row.index
    ensures SamePass(After(b, rows, p, row), e, b, ents, counts)
  {
    forall k | 0 <= k < |ents| ensures ents[k].index != row.index { assert ents[k] in ents; }
  }

  // ---------------------------------------------------------------------------------------
  // Renaming line indices
  // ---------------------------------------------------------------------------------------

  /** Equal content and context, line by line; the line indices may differ. */
  ghost predicate SameText(a: seq<Row>, c: seq<Row>) {
    |a| == |c| && forall k :: 0 <= k < |a| ==> a[k].content == c[k].content && a[k].context == c[k].context
  }

  /** States that differ at most in which earlier line the preceding citation stood on. */
  ghost predicate Twins(s: State, t: State, below: int, under: int) {
    && s.history == t.history && s.emitted == t.emitted
    && s.previous.Some? == t.previous.Some?
    && (s.previous.Some? ==> s.previous.value.citation == t.previous.value.citation
                             && s.previous.value.line < below && t.previous.value.line < under)
  }

  lemma {:induction false} TwinStep(b: Book, rows: seq<Row>, lines: seq<Row>, s: State, t: State, x: Row, y: Row)
    requires !b.placedByDafHeadings
    requires x.content == y.content && x.context == y.context
    requires Twins(s, t, x.index, y.index)
    ensures Step(b, rows, s, x).spans == Step(b, lines, t, y).spans
    ensures Twins(Step(b, rows, s, x).state, Step(b, lines, t, y).state, x.index + 1, y.index + 1)
  {
    assert Ask(b, rows, s, x) == Ask(b, lines, t, y);
  }

  /** `ibid_seam_counts` is a sound summary: the texts of the entity lines and the counts determine
      every entity line's links, whatever the line indices and whatever stands between those lines. */
  lemma {:induction false} CountsDetermineLinks(b: Book, rows: seq<Row>, lines: seq<Row>, a: seq<Row>, c: seq<Row>,
      counts: set<nat>)
    requires !b.placedByDafHeadings
    requires Ordered(a) && Ordered(c) && SameText(a, c)
    ensures EntityFold(b, rows, a, counts).spans == EntityFold(b, lines, c, counts).spans
    ensures a != [] ==> Twins(EntityFold(b, rows, a, counts).state, EntityFold(b, lines, c, counts).state,
                              a[|a| - 1].index + 1, c[|c| - 1].index + 1)
  {
    if a == [] {
    } else {
      var k := |a| - 1;
      CountsDetermineLinks(b, rows, lines, a[..k], c[..k], counts);
      var s, t := EntityFold(b, rows, a[..k], counts).state, EntityFold(b, lines, c[..k], counts).state;
      assert Twins(s, t, a[k].index, c[k].index);
      TwinStep(b, rows, lines, if k in counts then Carry(b, s) else s, if k in counts then Carry(b, t) else t,
               a[k], c[k]);
    }
  }

  lemma {:induction false} EntitiesOrdered(b: Book, rows: seq<Row>)
    requires Ordered(rows)
    ensures Ordered(Entities(b, rows))
  {
    if rows == [] {
    } else {
      var init, row := rows[..|rows| - 1], rows[|rows| - 1];
      EntitiesOrdered(b, init);
      EntitiesBelow(b, init);
      var ents := Entities(b, init);
      forall k | 0 <= k < |ents| ensures ents[k].index < row.index { assert ents[k] in init; }
    }
  }

  /** The summary is sound: two books whose entity lines read the same and whose seams have the same
      counts link alike on those lines, and not at all elsewhere. */
  lemma {:induction false} SummarySound(b: Book, rows: seq<Row>, lines: seq<Row>, seams: set<nat>, others: set<nat>)
    requires !b.placedByDafHeadings && Ordered(rows) && Ordered(lines)
    requires SameText(Entities(b, rows), Entities(b, lines))
    requires Counts(rows, Truth(b, rows), seams) == Counts(lines, Truth(b, lines), others)
    ensures var p, q := Fold(b, rows, true, seams, rows).links, Fold(b, lines, true, others, lines).links;
      && (forall k :: 0 <= k < |Entities(b, rows)| ==>
          SameLinks(p, Entities(b, rows)[k].index, q, Entities(b, lines)[k].index))
      && OnlyThese(p, Entities(b, rows)) && OnlyThese(q, Entities(b, lines))
  {
    EntitiesOrdered(b, rows);
    EntitiesOrdered(b, lines);
    FoldIsEntityFold(b, rows, seams, rows);
    FoldIsEntityFold(b, lines, others, lines);
    CountsDetermineLinks(b, rows, lines, Entities(b, rows), Entities(b, lines), Counts(rows, Truth(b, rows), seams));
  }

  predicate SameLinks(p: map<nat, seq<LinkSpan>>, i: nat, q: map<nat, seq<LinkSpan>>, j: nat) {
    i in p && j in q && p[i] == q[j]
  }

  ghost predicate OnlyThese(p: map<nat, seq<LinkSpan>>, ents: seq<Row>) {
    forall i :: i in p && (forall k :: 0 <= k < |ents| ==> ents[k].index != i) ==> p[i] == []
  }
}
