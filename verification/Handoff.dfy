/** The resolver's side of the NER handoff: `NerBundle` for one book and `book_line_plan`. */
module Handoff {
  import opened Prelude
  import opened Transport
  import opened Ibid
  import opened ContextProbe
  import opened Producer
  import Ranges

  /** A probe whose producer covered the whole book instead. */
  predicate Escalated(context: Option<Layout>, m: Manifest) {
    context.Some? && m.layout == context.value
  }

  /** Whether NER found an entity, per line; no line may appear twice. */
  function LineFlags(lines: seq<LineResult>): Result<map<nat, bool>> {
    if lines == [] then Ok(map[])
    else
      var line := lines[|lines| - 1];
      match LineFlags(lines[..|lines| - 1])
      case Raised(e) => Raised(e)
      case Ok(flags) => if line.index in flags then Raised("invalid NER line")
          else Ok(flags[line.index := line.entities != []])
  }

  /** `entity_lines` as a function of the manifest. */
  function EntityFlags(m: Manifest): Result<map<nat, bool>> {
    match LineFlags(Results(m.sheets))
    case Raised(e) => Raised(e)
    case Ok(flags) =>
      if !Ranges.WellOrdered(m.layout) then Raised("ranges must be sorted, positive and non-overlapping")
      else if flags.Keys <= Sent(m.layout) then Ok(flags)
      else Raised("NER bundle lines fall outside its line plan")
  }

  lemma {:induction false} LineFlagsAppend(lines: seq<LineResult>, line: LineResult)
    ensures LineFlags(lines + [line]) ==
      match LineFlags(lines)
      case Raised(e) => Raised(e)
      case Ok(flags) => if line.index in flags then Raised("invalid NER line")
          else Ok(flags[line.index := line.entities != []])
  {
    assert (lines + [line])[..|lines|] == lines;
  }

  lemma {:induction false} LineFlagsRaise(lines: seq<LineResult>, more: seq<LineResult>)
    ensures LineFlags(lines).Raised? ==> LineFlags(lines + more) == LineFlags(lines)
  {
    if more == [] {
      assert lines + more == lines;
    } else {
      LineFlagsRaise(lines, more[..|more| - 1]);
      assert lines + more == (lines + more[..|more| - 1]) + [more[|more| - 1]];
      LineFlagsAppend(lines + more[..|more| - 1], more[|more| - 1]);
    }
  }

  lemma {:induction false} ResultsPrefix(sheets: seq<Sheet>, k: nat) returns (rest: seq<LineResult>)
    requires k <= |sheets|
    ensures Results(sheets) == Results(sheets[..k]) + rest
  {
    if k == |sheets| {
      assert sheets[..k] == sheets;
      rest := [];
    } else {
      var n := |sheets| - 1;
      assert sheets[..n][..k] == sheets[..k];
      var before := ResultsPrefix(sheets[..n], k);
      rest := before + sheets[n].lines;
    }
  }

  /** The flags of one more batch. */
  method AddBatch(flags: map<nat, bool>, lines: seq<LineResult>, ghost read: seq<LineResult>)
      returns (r: Result<map<nat, bool>>)
    requires LineFlags(read) == Ok(flags)
    ensures r == LineFlags(read + lines)
  {
    var now := flags;
    assert read + [] == read;
    for j := 0 to |lines|
      invariant LineFlags(read + lines[..j]) == Ok(now)
    {
      var line := lines[j];
      assert read + lines[..j + 1] == (read + lines[..j]) + [line];
      LineFlagsAppend(read + lines[..j], line);
      if line.index in now {
        assert read + lines == (read + lines[..j + 1]) + lines[j + 1..];
        LineFlagsRaise(read + lines[..j + 1], lines[j + 1..]);
        return Raised("invalid NER line");
      }
      now := now[line.index := line.entities != []];
    }
    assert lines[..|lines|] == lines;
    return Ok(now);
  }

  method EntityLines(m: Manifest) returns (r: Result<map<nat, bool>>)
    ensures r == EntityFlags(m)
  {
    var flags: map<nat, bool> := map[];
    for i := 0 to |m.sheets|
      invariant LineFlags(Results(m.sheets[..i])) == Ok(flags)
    {
      assert m.sheets[..i + 1] == m.sheets[..i] + [m.sheets[i]];
      ResultsAppend(m.sheets[..i], m.sheets[i]);
      var more := AddBatch(flags, m.sheets[i].lines, Results(m.sheets[..i]));
      if more.Raised? {
        ghost var rest := ResultsPrefix(m.sheets, i + 1);
        LineFlagsRaise(Results(m.sheets[..i + 1]), rest);
        return more;
      }
      flags := more.value;
    }
    assert m.sheets[..|m.sheets|] == m.sheets;
    var covered := Ranges.IndicesFromRanges(m.layout);
    if covered.Raised? {
      return Raised("ranges must be sorted, positive and non-overlapping");
    }
    if !(flags.Keys <= Sent(m.layout)) {
      return Raised("NER bundle lines fall outside its line plan");
    }
    return Ok(flags);
  }

  // ---------------------------------------------------------------------------------------
  // What a completed book tells the resolver
  // ---------------------------------------------------------------------------------------

  /** True flags for exactly the eligible rows among `lines`. */
  ghost predicate FoundFor(b: Book, rows: seq<Row>, lines: set<nat>, flags: map<nat, bool>) {
    && (forall k :: 0 <= k < |rows| ==>
        (rows[k].index in flags <==> rows[k].index in lines && b.linker.eligible(rows[k].content)))
    && (forall k :: 0 <= k < |rows| && rows[k].index in flags ==> flags[rows[k].index] == HasEntity(b, rows[k]))
    && (forall i :: i in flags ==> exists k :: 0 <= k < |rows| && rows[k].index == i)
  }

  lemma {:induction false} AnswersFlags(b: Book, rows: seq<Row>, lines: set<nat>)
    requires Ordered(rows)
    ensures var r := LineFlags(Answers(b, Chosen(rows, Selection(Some(lines), b.linker.eligible))));
            r.Ok? && FoundFor(b, rows, lines, r.value)
  {
    if rows == [] {
    } else {
      var init, row := rows[..|rows| - 1], rows[|rows| - 1];
      var sel := Selection(Some(lines), b.linker.eligible);
      AnswersFlags(b, init, lines);
      var flags := LineFlags(Answers(b, Chosen(init, sel))).value;
      assert row.index !in flags;
      if sel.Takes(row) {
        AnswersAppend(b, Chosen(init, sel), [row]);
        LineFlagsAppend(Answers(b, Chosen(init, sel)), LineResult(row.index, b.linker.entities(row.content)));
        assert Answers(b, [row]) == [LineResult(row.index, b.linker.entities(row.content))];
      }
      FoundStep(b, rows, lines, flags);
    }
  }

  lemma {:induction false} FoundStep(b: Book, rows: seq<Row>, lines: set<nat>, flags: map<nat, bool>)
    requires rows != [] && Ordered(rows) && FoundFor(b, rows[..|rows| - 1], lines, flags)
    ensures var row := rows[|rows| - 1];
            FoundFor(b, rows, lines, if row.index in lines && b.linker.eligible(row.content)
                                     then flags[row.index := b.linker.entities(row.content) != []] else flags)
  {
    var init, n := rows[..|rows| - 1], |rows| - 1;
    forall k | 0 <= k < n ensures init[k] == rows[k] && rows[k].index != rows[n].index {}
    assert rows[n].index !in flags;
    forall i | i in flags ensures exists k :: 0 <= k < |rows| && rows[k].index == i {
      var k :| 0 <= k < |init| && init[k].index == i;
      assert rows[k].index == i;
    }
  }

  /** `entity_lines` never raises on a completed book and reports the truth about every line sent. */
  lemma {:induction false} CompletedFlags(b: Book, rows: seq<Row>, ner: Layout, context: Option<Layout>, m: Manifest)
    requires Ordered(rows) && Complete(b, rows, ner, context, m) && Ranges.WellOrdered(m.layout)
    ensures EntityFlags(m).Ok? && FoundFor(b, rows, Sent(m.layout), EntityFlags(m).value)
  {
    SheetsAnswer(b, LayoutBatches(b, rows, m.layout));
    BatchesCut(rows, Selection(Some(Sent(m.layout)), b.linker.eligible), b.limits);
    AnswersFlags(b, rows, Sent(m.layout));
    var flags := LineFlags(Results(m.sheets)).value;
    forall i | i in flags ensures i in Sent(m.layout) {
      var k :| 0 <= k < |rows| && rows[k].index == i;
    }
  }

  // ---------------------------------------------------------------------------------------
  // `book_line_plan`
  // ---------------------------------------------------------------------------------------

  datatype LinePlan = LinePlan(ner: set<nat>, reuse: seq<Pair>, stateful: bool)

  predicate AnyFlag(flags: map<nat, bool>) {
    exists i :: i in flags && flags[i]
  }

  /** `bundle` is `None` on a run that calls NER live. */
  function BookLinePlan(b: Book, rows: seq<Row>, d: Delta, bundle: Option<Manifest>): Result<LinePlan> {
    var stateful := RequiresContext(b, rows);
    var all := Elems(Indices(rows));
    if !Ranges.WellOrdered(d.ner) then Raised("NER ranges must be sorted, positive and non-overlapping")
    else if d.context.None? then Ok(LinePlan(Sent(d.ner), d.reuse, stateful))
    else if !Ranges.WellOrdered(d.context.value) then Raised("NER ranges must be sorted, positive and non-overlapping")
    else if Sent(d.context.value) != all then Raised("context probe does not cover the book")
    else if bundle.Some? && !Escalated(d.context, bundle.value) then
      if !stateful then Raised("unescalated context probe is not inert")
      else match EntityFlags(bundle.value)
        case Raised(e) => Raised(e)
        case Ok(flags) => if AnyFlag(flags) then Raised("unescalated context probe is not inert")
                          else Ok(LinePlan(Sent(d.ner), d.reuse, false))
    else Ok(LinePlan(all, [], stateful))
  }

  /** With a completed book the resolver never stops, and it takes the narrow stateless path
      for a probe only if no probed line can move the citation history. */
  lemma {:induction false} ProducedPlanAccepted(b: Book, rows: seq<Row>, d: Delta, m: Manifest)
    requires Ordered(rows) && Covers(rows, d) && (d.context.Some? ==> RequiresContext(b, rows))
    requires Complete(b, rows, d.ner, d.context, m)
    ensures var all := Elems(Indices(rows));
            BookLinePlan(b, rows, d, Some(m)) ==
            if d.context.None? then Ok(LinePlan(Sent(d.ner), d.reuse, RequiresContext(b, rows)))
            else if Escalated(d.context, m) then Ok(LinePlan(all, [], true))
            else Ok(LinePlan(Sent(d.ner), d.reuse, false))
    ensures d.context.Some? ==> (Escalated(d.context, m) <==> !ProbeInert(b, rows, Sent(d.ner)))
  {
    if d.context.Some? && !Escalated(d.context, m) {
      CompletedFlags(b, rows, d.ner, d.context, m);
      var flags := EntityFlags(m).value;
      forall i | i in flags ensures !flags[i] {
        var k :| 0 <= k < |rows| && rows[k].index == i;
      }
    }
  }
}
