/** One book over a sequence of runs: plan, digest gate, NER handoff, linking, and the stored state the next
    plan relies on (`plan_changed_books`, `run_incremental`, `next_book_state`). */
module Releases {
  import opened Prelude
  import opened Transport
  import opened Artifact
  import opened Ibid
  import opened SeamCounts
  import opened ContextProbe
  import opened Producer
  import opened Handoff
  import opened Linking
  import opened Checkpoint
  import LineMatch
  import Ranges

  /** A book as one release recorded it: the fingerprint of the engine that linked it, its lines and
      its entry in the line baseline, which digests the artifact. */
  datatype Published = Published(fingerprint: nat, rows: seq<Row>, baseline: Baseline)

  /** What is stored about the lines is true: every flag that is not null is right, and so is every
      seam list. */
  ghost predicate Truthful(b: Book, p: Published) {
    && Ordered(p.rows)
    && p.baseline.lines == LinesOf(p.rows)
    && TrueFlags(b, p.rows, p.baseline.entities)
    && (p.baseline.bookContext.Some? ==> p.baseline.bookContext.value == RequiresContext(b, p.rows))
    && (p.baseline.seams.Some? ==> p.baseline.seams.value == TrueCounts(b, p.rows))
  }

  /** Everything stored is true: the recorded artifact is moreover a from-scratch link of the rows. */
  ghost predicate Accurate(b: Book, p: Published) {
    Truthful(b, p) && p.baseline.artifact == FileOf(FreshArtifact(b, p.rows))
  }

  // ---------------------------------------------------------------------------------------
  // Whatever was planned, the artifact is a from-scratch link of the current lines
  // ---------------------------------------------------------------------------------------

  /** A bundle is a completed book of this very plan; a live run has none. */
  ghost predicate BundleOf(b: Book, rows: seq<Row>, d: Delta, bundle: Option<Manifest>) {
    bundle.Some? ==> Complete(b, rows, d.ner, d.context, bundle.value)
  }

  lemma {:induction false} RowOf(rows: seq<Row>, i: nat) returns (r: Row)
    requires i in Indices(rows)
    ensures r in rows && r.index == i
  {
    IndicesAt(rows);
    var j :| 0 <= j < |rows| && Indices(rows)[j] == i;
    r := rows[j];
  }

  lemma {:induction false} NerRow(was: seq<Row>, cur: seq<Row>, reuse: seq<Pair>, ner: seq<nat>, n: nat)
      returns (r: Row)
    requires MatchOf(was, cur, reuse, ner) && n in ner
    ensures r in cur && r.index == n
  {
    MatchPartitions(LinesOf(was), cur, reuse, ner);
    assert n in Elems(ner);
    r := RowOf(cur, n);
  }

  /** Without the ibid token anywhere, every line links alone. */
  lemma {:induction false} HistoryFreeReuse(b: Book, was: seq<Row>, cur: seq<Row>, reuse: seq<Pair>, ner: seq<nat>,
      stateful: bool)
    requires HistoryFree(b) && !b.placedByDafHeadings && !RequiresContext(b, cur)
    requires MatchOf(was, cur, reuse, ner)
    ensures ReuseSound(b, reuse, ner, Fresh(b, was, stateful), Fresh(b, cur, false),
        LinesPass(b, cur, false, Some(Elems(ner))))
  {
    var olds, whole, short := Fresh(b, was, stateful), Fresh(b, cur, false), LinesPass(b, cur, false, Some(Elems(ner)));
    forall p | p in reuse ensures SpansAt(whole, p.to) == SpansAt(olds, p.from) {
      var i, j := PairRows(was, cur, reuse, ner, p);
      LinkedAlone(b, was, stateful, None, was[i]);
      LinkedAlone(b, cur, false, None, cur[j]);
    }
    forall n | n in ner ensures SpansAt(whole, n) == SpansAt(short, n) {
      var r := NerRow(was, cur, reuse, ner, n);
      assert n in Elems(ner);
      LinkedAlone(b, cur, false, None, r);
      LinkedAlone(b, cur, false, Some(Elems(ner)), r);
    }
  }

  lemma {:induction false} InertReuse(b: Book, prior: Baseline, was: seq<Row>, cur: seq<Row>, reuse: seq<Pair>,
      ner: seq<nat>)
    requires !b.placedByDafHeadings
    requires MatchOf(was, cur, reuse, ner) && prior.lines == LinesOf(was)
    requires TrueFlags(b, was, prior.entities) && (prior.seams.Some? ==> prior.seams.value == TrueCounts(b, was))
    requires Comparable(prior, cur) && KeepsHistory(prior, cur, SeamsOf(b, cur), reuse)
    requires ProbeInert(b, cur, Elems(ner))
    ensures ReuseSound(b, reuse, ner, Fresh(b, was, true), Fresh(b, cur, true),
        LinesPass(b, cur, false, Some(Elems(ner))))
  {
    InertProbeIsExact(b, prior, was, cur, reuse, ner);
    var short := LinesPass(b, cur, false, Some(Elems(ner)));
    forall n | n in ner ensures SpansAt(short, n) == [] {
      var r := NerRow(was, cur, reuse, ner, n);
      var j :| 0 <= j < |cur| && cur[j] == r;
      assert cur[j].index in Elems(ner);
      LinesPassAt(b, cur, false, Some(Elems(ner)), r);
    }
  }

  ghost predicate Links(b: Book, rows: seq<Row>, d: Delta, bundle: Option<Manifest>, file: Option<seq<Record>>) {
    && Ordered(rows)
    && BookLinePlan(b, rows, d, bundle).Ok?
    && LinkBook(b, rows, BookLinePlan(b, rows, d, bundle).value, file) == Ok(FreshArtifact(b, rows))
  }

  lemma {:induction false} FullDeltaLinks(b: Book, rows: seq<Row>, bundle: Option<Manifest>, file: Option<seq<Record>>)
    requires Ordered(rows)
    ensures Links(b, rows, FullNerDelta(rows), bundle, file)
  {
    SentCoalesce(Elems(Indices(rows)));
    WholeBookIsFresh(b, rows, file);
  }

  /** A probe covered whole, whether escalated by the producer or linked live. */
  lemma {:induction false} WholeProbeLinks(b: Book, rows: seq<Row>, d: Delta, bundle: Option<Manifest>,
      file: Option<seq<Record>>)
    requires Ordered(rows) && Covers(rows, d) && d.context.Some?
    requires bundle.Some? ==> Escalated(d.context, bundle.value)
    ensures Links(b, rows, d, bundle, file)
  {
    WholeBookIsFresh(b, rows, file);
  }

  lemma {:induction false} ReuseLinks(b: Book, p: Published, rows: seq<Row>, d: Delta, bundle: Option<Manifest>)
    requires Accurate(b, p) && Ordered(rows) && HistoryFree(b) && !b.placedByDafHeadings
    requires !RequiresContext(b, rows) && IsReuse(p.baseline, rows, d)
    ensures Links(b, rows, d, bundle, p.baseline.artifact)
  {
    var ner: seq<nat> :| LineMatch.IsMatch(LinesOf(p.rows), LinesOf(rows), d.reuse, ner)
                         && d == Delta(d.reuse, Ranges.Coalesce(Elems(ner)), |rows|, p.baseline.artifact, None);
    var stateful := RequiresContext(b, p.rows);
    SentCoalesce(Elems(ner));
    HistoryFreeReuse(b, p.rows, rows, d.reuse, ner, stateful);
    ReuseIsExact(b, p.rows, rows, d.reuse, ner, stateful);
  }

  lemma {:induction false} ProbeLinks(b: Book, p: Published, rows: seq<Row>, d: Delta, bundle: Option<Manifest>)
    requires Accurate(b, p) && Ordered(rows) && !b.placedByDafHeadings
    requires RequiresContext(b, rows) && IsProbe(p.baseline, rows, Some(SeamsOf(b, rows)), Some(d))
    requires BundleOf(b, rows, d, bundle)
    ensures Links(b, rows, d, bundle, p.baseline.artifact)
  {
    var prior, seams := p.baseline, SeamsOf(b, rows);
    var reuse: seq<Pair>, ner: seq<nat> :| LineMatch.IsMatch(prior.lines, LinesOf(rows), reuse, ner)
                                           && Some(d) == ProbeFor(prior, rows, seams, reuse, ner);
    MatchCovers(prior.lines, rows, reuse, ner, d);
    SentCoalesce(Elems(ner));
    if bundle.None? || Escalated(d.context, bundle.value) {
      WholeProbeLinks(b, rows, d, bundle, p.baseline.artifact);
    } else {
      ProducedPlanAccepted(b, rows, d, bundle.value);
      InertReuse(b, prior, p.rows, rows, reuse, ner);
      ReuseIsExact(b, p.rows, rows, reuse, ner, true);
    }
  }

  /** Any plan from an accurate baseline, with any producer outcome, links the book as from scratch. */
  lemma {:induction false} PlanLinks(b: Book, p: Published, rows: seq<Row>, d: Delta, bundle: Option<Manifest>)
    requires Accurate(b, p) && Ordered(rows) && HistoryFree(b)
    requires IsPlan(b, Some(p.baseline), rows, Some(SeamsOf(b, rows)), d)
    requires BundleOf(b, rows, d, bundle)
    ensures Links(b, rows, d, bundle, p.baseline.artifact)
  {
    if d == FullNerDelta(rows) {
      FullDeltaLinks(b, rows, bundle, p.baseline.artifact);
    } else if RequiresContext(b, rows) {
      ProbeLinks(b, p, rows, d, bundle);
    } else {
      ReuseLinks(b, p, rows, d, bundle);
    }
  }

  // ---------------------------------------------------------------------------------------
  // `next_book_state`
  // ---------------------------------------------------------------------------------------

  datatype BookState = BookState(flags: seq<Option<bool>>, seams: Option<set<nat>>)

  /** What is known about the lines of this release: those sent to NER and what NER found on them
      (`None` without a bundle), and those carried over from an old line. */
  datatype Evidence = Evidence(sent: set<nat>, found: Option<map<nat, bool>>, carried: map<nat, nat>,
      prior: Option<Baseline>)

  function FlagOf(b: Book, row: Row, e: Evidence): Result<Option<bool>> {
    if row.index in e.sent then
      if e.found.None? then Ok(None)
      else if row.index in e.found.value then Ok(Some(e.found.value[row.index]))
      else if !b.linker.eligible(row.content) then Ok(Some(false))
      else Raised("NER bundle lacks planned line")
    else if row.index in e.carried && e.prior.Some? then
      var from := e.carried[row.index];
      Ok(if from in e.prior.value.entities then Some(e.prior.value.entities[from]) else None)
    else Ok(None)
  }

  function FlagsOf(b: Book, rows: seq<Row>, e: Evidence): (r: Result<seq<Option<bool>>>)
    ensures r.Ok? ==> |r.value| == |rows|
  {
    if rows == [] then Ok([])
    else
      match FlagsOf(b, rows[..|rows| - 1], e)
      case Raised(error) => Raised(error)
      case Ok(flags) =>
        match FlagOf(b, rows[|rows| - 1], e)
        case Raised(error) => Raised(error)
        case Ok(flag) => Ok(flags + [flag])
  }

  /** `{line: line}` for an unchanged book. */
  function Identity(rows: seq<Row>): map<nat, nat> {
    if rows == [] then map[] else Identity(rows[..|rows| - 1])[rows[|rows| - 1].index := rows[|rows| - 1].index]
  }

  function EvidenceFor(rows: seq<Row>, d: Option<Delta>, prior: Option<Baseline>,
      bundle: Option<Manifest>): Result<Evidence>
  {
    if d.None? then Ok(Evidence({}, None, Identity(rows), prior))
    else
      var escalated := bundle.Some? && Escalated(d.value.context, bundle.value);
      var sent := if escalated then Sent(d.value.context.value) else Sent(d.value.ner);
      if bundle.None? then Ok(Evidence(sent, None, ReusedFrom(d.value.reuse), prior))
      else match EntityFlags(bundle.value)
        case Raised(error) => Raised(error)
        case Ok(found) => Ok(Evidence(sent, Some(found), ReusedFrom(d.value.reuse), prior))
  }

  /** Right flags, and right seams if there are any. */
  ghost predicate TrueState(b: Book, rows: seq<Row>, s: BookState) {
    && FlagsTrue(b, rows, s.flags)
    && (s.seams.Some? ==> s.seams.value == TrueCounts(b, rows))
  }

  ghost predicate TrueFlag(b: Book, row: Row, e: Evidence) {
    FlagOf(b, row, e).Ok? && (FlagOf(b, row, e).value.Some? ==> FlagOf(b, row, e).value.value == HasEntity(b, row))
  }

  ghost predicate TrueEvidence(b: Book, rows: seq<Row>, e: Evidence) {
    forall k :: 0 <= k < |rows| ==> TrueFlag(b, rows[k], e)
  }

  lemma {:induction false} FlagsAt(b: Book, rows: seq<Row>, e: Evidence)
    requires forall k :: 0 <= k < |rows| ==> FlagOf(b, rows[k], e).Ok?
    ensures FlagsOf(b, rows, e).Ok? && |FlagsOf(b, rows, e).value| == |rows|
    ensures forall k :: 0 <= k < |rows| ==> FlagsOf(b, rows, e).value[k] == FlagOf(b, rows[k], e).value
  {
    if rows == [] {
    } else {
      FlagsAt(b, rows[..|rows| - 1], e);
    }
  }

  method Flags(b: Book, rows: seq<Row>, e: Evidence) returns (r: Result<seq<Option<bool>>>)
    ensures r == FlagsOf(b, rows, e)
  {
    var flags: seq<Option<bool>> := [];
    for k := 0 to |rows|
      invariant FlagsOf(b, rows[..k], e) == Ok(flags)
    {
      assert rows[..k + 1][..k] == rows[..k];
      var flag := FlagOf(b, rows[k], e);
      if flag.Raised? {
        FlagsRaise(b, rows, e, k + 1);
        return Raised(flag.error);
      }
      flags := flags + [flag.value];
    }
    assert rows[..|rows|] == rows;
    return Ok(flags);
  }

  lemma {:induction false} FlagsRaise(b: Book, rows: seq<Row>, e: Evidence, k: nat)
    requires k <= |rows|
    ensures FlagsOf(b, rows[..k], e).Raised? ==> FlagsOf(b, rows, e) == FlagsOf(b, rows[..k], e)
  {
    if k == |rows| {
      assert rows[..k] == rows;
    } else {
      var n := |rows| - 1;
      assert rows[..n][..k] == rows[..k];
      FlagsRaise(b, rows[..n], e, k);
    }
  }

  function Unknown(rows: seq<Row>): seq<Option<bool>> {
    seq(|rows|, _ => None)
  }

  /** An unchanged book keeps its seams, a relinked one gets those of its current layout. */
  function NextState(b: Book, rows: seq<Row>, d: Option<Delta>, prior: Option<Baseline>,
      bundle: Option<Manifest>): Result<BookState>
  {
    if !RequiresContext(b, rows) then Ok(BookState(Unknown(rows), None))
    else
      match EvidenceFor(rows, d, prior, bundle)
      case Raised(error) => Raised(error)
      case Ok(e) =>
        match FlagsOf(b, rows, e)
        case Raised(error) => Raised(error)
        case Ok(flags) =>
          if d.None? then Ok(BookState(flags, if prior.Some? then prior.value.seams else None))
          else Ok(BookState(flags, SeamSummary(rows, flags, SeamsOf(b, rows))))
  }

  method NextBookState(b: Book, rows: seq<Row>, d: Option<Delta>, prior: Option<Baseline>, bundle: Option<Manifest>)
    returns (r: Result<BookState>)
    ensures r == NextState(b, rows, d, prior, bundle)
  {
    if !RequiresContext(b, rows) {
      return Ok(BookState(Unknown(rows), None));
    }
    var e := EvidenceFor(rows, d, prior, bundle);
    if e.Raised? {
      return Raised(e.error);
    }
    var flags := Flags(b, rows, e.value);
    if flags.Raised? {
      return Raised(flags.error);
    }
    if d.None? {
      return Ok(BookState(flags.value, if prior.Some? then prior.value.seams else None));
    }
    var seams := IbidSeamCounts(rows, flags.value, SeamsOf(b, rows));
    return Ok(BookState(flags.value, seams));
  }

  ghost predicate FlagsTrue(b: Book, rows: seq<Row>, flags: seq<Option<bool>>) {
    |flags| == |rows| && forall k :: 0 <= k < |rows| && flags[k].Some? ==> flags[k].value == HasEntity(b, rows[k])
  }

  lemma {:induction false} EvidenceFlagsTrue(b: Book, rows: seq<Row>, e: Evidence)
    requires TrueEvidence(b, rows, e)
    ensures FlagsOf(b, rows, e).Ok? && FlagsTrue(b, rows, FlagsOf(b, rows, e).value)
  {
    FlagsAt(b, rows, e);
  }

  lemma {:induction false} SummaryTrue(b: Book, rows: seq<Row>, flags: seq<Option<bool>>)
    requires FlagsTrue(b, rows, flags)
    ensures var seams := SeamSummary(rows, flags, SeamsOf(b, rows)); seams.Some? ==> seams.value == TrueCounts(b, rows)
  {
    KnownIsTruth(b, rows, flags);
  }

  lemma {:induction false} NextStateTrue(b: Book, rows: seq<Row>, d: Option<Delta>, prior: Option<Baseline>,
      bundle: Option<Manifest>)
    requires EvidenceFor(rows, d, prior, bundle).Ok? && TrueEvidence(b, rows, EvidenceFor(rows, d, prior, bundle).value)
    requires d.None? && prior.Some? && prior.value.seams.Some? ==> prior.value.seams.value == TrueCounts(b, rows)
    ensures NextState(b, rows, d, prior, bundle).Ok? && TrueState(b, rows, NextState(b, rows, d, prior, bundle).value)
  {
    if RequiresContext(b, rows) {
      var e := EvidenceFor(rows, d, prior, bundle).value;
      EvidenceFlagsTrue(b, rows, e);
      SummaryTrue(b, rows, FlagsOf(b, rows, e).value);
    }
  }

  lemma {:induction false} KnownIsTruth(b: Book, rows: seq<Row>, flags: seq<Option<bool>>)
    requires FlagsTrue(b, rows, flags)
    ensures (forall k :: 0 <= k < |flags| ==> flags[k].Some?) ==> Known(flags) == Truth(b, rows)
  {
    TruthAt(b, rows);
    if forall k :: 0 <= k < |flags| ==> flags[k].Some? {
      KnownLength(flags);
      forall k | 0 <= k < |rows| ensures Known(flags)[k] == Truth(b, rows)[k] { KnownAt(flags, k); }
    }
  }

  // ---------------------------------------------------------------------------------------
  // The evidence is true
  // ---------------------------------------------------------------------------------------

  lemma {:induction false} IdentityAt(rows: seq<Row>)
    ensures forall i :: i in Identity(rows) ==> Identity(rows)[i] == i
    ensures forall k :: 0 <= k < |rows| ==> rows[k].index in Identity(rows)
  {
    if rows == [] {
    } else {
      IdentityAt(rows[..|rows| - 1]);
    }
  }

  lemma {:induction false} UnchangedEvidence(b: Book, rows: seq<Row>, prior: Option<Baseline>)
    requires prior.Some? ==> TrueFlags(b, rows, prior.value.entities)
    ensures TrueEvidence(b, rows, EvidenceFor(rows, None, prior, None).value)
  {
    IdentityAt(rows);
  }

  /** Flags carried along a plan's reuse stay true: equal text has equal entities. */
  lemma {:induction false} CarriedTrue(b: Book, p: Published, rows: seq<Row>, d: Delta, k: nat)
    requires Truthful(b, p) && Ordered(rows) && k < |rows|
    requires IsPlan(b, Some(p.baseline), rows, Some(SeamsOf(b, rows)), d)
    requires rows[k].index in ReusedFrom(d.reuse)
    ensures var from := ReusedFrom(d.reuse)[rows[k].index];
            from in p.baseline.entities ==> p.baseline.entities[from] == HasEntity(b, rows[k])
  {
    var ner := PlanMatch(b, p, rows, d);
    ReusedOrProbed(p.rows, rows, d.reuse, ner, k);
    var i, j := PairRows(p.rows, rows, d.reuse, ner, LineMatch.Pair(ReusedFrom(d.reuse)[rows[k].index], rows[k].index));
    assert j == k;
  }

  lemma {:induction false} PlanMatch(b: Book, p: Published, rows: seq<Row>, d: Delta) returns (ner: seq<nat>)
    requires Truthful(b, p) && Ordered(rows) && d.reuse != []
    requires IsPlan(b, Some(p.baseline), rows, Some(SeamsOf(b, rows)), d)
    ensures MatchOf(p.rows, rows, d.reuse, ner) && d.artifact == p.baseline.artifact
  {
    if RequiresContext(b, rows) {
      var reuse: seq<Pair>, left: seq<nat> :| LineMatch.IsMatch(p.baseline.lines, LinesOf(rows), reuse, left)
                                              && Some(d) == ProbeFor(p.baseline, rows, SeamsOf(b, rows), reuse, left);
      ner := left;
    } else {
      var left: seq<nat> :| LineMatch.IsMatch(p.baseline.lines, LinesOf(rows), d.reuse, left);
      ner := left;
    }
  }

  lemma {:induction false} ReusedFromEmpty(reuse: seq<Pair>, i: nat)
    requires i in ReusedFrom(reuse)
    ensures reuse != []
  {}

  /** Flags of lines the bundle covers are what NER found. */
  lemma {:induction false} SentTrue(b: Book, rows: seq<Row>, sent: set<nat>, found: map<nat, bool>, e: Evidence, k: nat)
    requires FoundFor(b, rows, sent, found) && k < |rows| && rows[k].index in sent
    requires e.sent == sent && e.found == Some(found)
    ensures FlagOf(b, rows[k], e).Ok? && FlagOf(b, rows[k], e).value == Some(HasEntity(b, rows[k]))
  {}

  lemma {:induction false} BundleFound(b: Book, rows: seq<Row>, d: Delta, m: Manifest)
    requires Ordered(rows) && Covers(rows, d) && Complete(b, rows, d.ner, d.context, m)
    ensures EntityFlags(m).Ok?
    ensures FoundFor(b, rows, if Escalated(d.context, m) then Sent(d.context.value) else Sent(d.ner),
                     EntityFlags(m).value)
  {
    CompletedFlags(b, rows, d.ner, d.context, m);
  }

  function BaselineOf(p: Option<Published>): Option<Baseline> {
    if p.Some? then Some(p.value.baseline) else None
  }

  lemma {:induction false} ChangedFlag(b: Book, p: Option<Published>, rows: seq<Row>, d: Delta, e: Evidence, k: nat)
    requires Ordered(rows) && (p.Some? ==> Truthful(b, p.value)) && k < |rows|
    requires IsPlan(b, BaselineOf(p), rows, Some(SeamsOf(b, rows)), d)
    requires e.carried == ReusedFrom(d.reuse) && e.prior == BaselineOf(p)
    requires e.found.Some? ==> FoundFor(b, rows, e.sent, e.found.value)
    ensures TrueFlag(b, rows[k], e)
  {
    if rows[k].index in e.sent {
      if e.found.Some? { SentTrue(b, rows, e.sent, e.found.value, e, k); }
    } else if rows[k].index in e.carried && p.Some? {
      ReusedFromEmpty(d.reuse, rows[k].index);
      CarriedTrue(b, p.value, rows, d, k);
    }
  }

  lemma {:induction false} ChangedEvidence(b: Book, p: Option<Published>, rows: seq<Row>, d: Delta,
      bundle: Option<Manifest>)
    requires Ordered(rows) && (p.Some? ==> Truthful(b, p.value))
    requires IsPlan(b, BaselineOf(p), rows, Some(SeamsOf(b, rows)), d)
    requires BundleOf(b, rows, d, bundle)
    ensures var e := EvidenceFor(rows, Some(d), BaselineOf(p), bundle); e.Ok? && TrueEvidence(b, rows, e.value)
  {
    PlanCovers(b, BaselineOf(p), rows, Some(SeamsOf(b, rows)), d);
    if bundle.Some? { BundleFound(b, rows, d, bundle.value); }
    var e := EvidenceFor(rows, Some(d), BaselineOf(p), bundle).value;
    forall k | 0 <= k < |rows| ensures TrueFlag(b, rows[k], e) {
      ChangedFlag(b, p, rows, d, e, k);
    }
  }

  // ---------------------------------------------------------------------------------------
  // The next release can probe again
  // ---------------------------------------------------------------------------------------

  ghost predicate AllKnown(flags: seq<Option<bool>>) {
    forall k :: 0 <= k < |flags| ==> flags[k].Some?
  }

  /** Only a comparable baseline is ever reused for a book with citation history. */
  lemma {:induction false} ReuseComparable(b: Book, prior: Baseline, rows: seq<Row>, d: Delta)
    requires RequiresContext(b, rows) && d.reuse != []
    requires IsPlan(b, Some(prior), rows, Some(SeamsOf(b, rows)), d)
    ensures Comparable(prior, rows)
  {
    assert IsProbe(prior, rows, Some(SeamsOf(b, rows)), Some(d));
  }

  /** A reused line of such a book carries a known flag. */
  lemma {:induction false} CarriedKnown(p: Published, rows: seq<Row>, reuse: seq<Pair>, ner: seq<nat>, i: nat)
    requires p.baseline.lines == LinesOf(p.rows) && MatchOf(p.rows, rows, reuse, ner) && i in Tos(reuse)
    requires forall k :: 0 <= k < |p.baseline.lines| ==> p.baseline.lines[k].index in p.baseline.entities
    ensures i in ReusedFrom(reuse) && ReusedFrom(reuse)[i] in p.baseline.entities
  {
    FromsAt(reuse);
    ReusedFromAt(reuse);
    var m :| 0 <= m < |reuse| && Tos(reuse)[m] == i;
    assert reuse[m] in reuse;
    var j, k := PairRows(p.rows, rows, reuse, ner, reuse[m]);
    LinesAt(p.rows);
    assert p.baseline.lines[j].index == reuse[m].from;
  }

  /** With a bundle, every line sent has a flag, and every other line carries one. */
  lemma {:induction false} FlagKnown(b: Book, p: Option<Published>, rows: seq<Row>, d: Delta, e: Evidence, k: nat)
    requires Ordered(rows) && (p.Some? ==> Truthful(b, p.value)) && RequiresContext(b, rows) && k < |rows|
    requires IsPlan(b, BaselineOf(p), rows, Some(SeamsOf(b, rows)), d)
    requires e.carried == ReusedFrom(d.reuse) && e.prior == BaselineOf(p) && Sent(d.ner) <= e.sent
    requires e.found.Some? && FoundFor(b, rows, e.sent, e.found.value)
    ensures FlagOf(b, rows[k], e).Ok? && FlagOf(b, rows[k], e).value.Some?
  {
    PlanCovers(b, BaselineOf(p), rows, Some(SeamsOf(b, rows)), d);
    if rows[k].index in e.sent {
      SentTrue(b, rows, e.sent, e.found.value, e, k);
    } else {
      IndicesAt(rows);
      assert Indices(rows)[k] == rows[k].index;
      assert rows[k].index in Elems(Tos(d.reuse)) + Sent(d.ner);
      assert d.reuse != [];
      ReuseComparable(b, p.value.baseline, rows, d);
      var ner := PlanMatch(b, p.value, rows, d);
      CarriedKnown(p.value, rows, d.reuse, ner, rows[k].index);
    }
  }

  /** A book with citation history that was linked through a bundle can be probed again at the next
      release: all its flags are known, and its true seam counts are on record. */
  lemma {:induction false} ComparableAgain(b: Book, p: Option<Published>, rows: seq<Row>, d: Delta, m: Manifest)
    requires Ordered(rows) && (p.Some? ==> Truthful(b, p.value)) && RequiresContext(b, rows)
    requires IsPlan(b, BaselineOf(p), rows, Some(SeamsOf(b, rows)), d) && Complete(b, rows, d.ner, d.context, m)
    ensures var r := NextState(b, rows, Some(d), BaselineOf(p), Some(m));
            r.Ok? && |r.value.flags| == |rows| && AllKnown(r.value.flags) && r.value.seams == Some(TrueCounts(b, rows))
  {
    ChangedEvidence(b, p, rows, d, Some(m));
    KnownEvidence(b, p, rows, d, m);
    KnownState(b, rows, EvidenceFor(rows, Some(d), BaselineOf(p), Some(m)).value);
  }

  lemma {:induction false} KnownEvidence(b: Book, p: Option<Published>, rows: seq<Row>, d: Delta, m: Manifest)
    requires Ordered(rows) && (p.Some? ==> Truthful(b, p.value)) && RequiresContext(b, rows)
    requires IsPlan(b, BaselineOf(p), rows, Some(SeamsOf(b, rows)), d) && Complete(b, rows, d.ner, d.context, m)
    ensures var e := EvidenceFor(rows, Some(d), BaselineOf(p), Some(m));
      e.Ok? && forall k :: 0 <= k < |rows| ==>
          FlagOf(b, rows[k], e.value).Ok? && FlagOf(b, rows[k], e.value).value.Some?
  {
    PlanCovers(b, BaselineOf(p), rows, Some(SeamsOf(b, rows)), d);
    EvidenceShape(b, BaselineOf(p), rows, d, m);
    var e := EvidenceFor(rows, Some(d), BaselineOf(p), Some(m)).value;
    forall k | 0 <= k < |rows| ensures FlagOf(b, rows[k], e).Ok? && FlagOf(b, rows[k], e).value.Some? {
      FlagKnown(b, p, rows, d, e, k);
    }
  }

  lemma {:induction false} EvidenceShape(b: Book, prior: Option<Baseline>, rows: seq<Row>, d: Delta, m: Manifest)
    requires Ordered(rows) && Covers(rows, d) && Complete(b, rows, d.ner, d.context, m)
    ensures var r := EvidenceFor(rows, Some(d), prior, Some(m));
      && r.Ok? && r.value.carried == ReusedFrom(d.reuse) && r.value.prior == prior && Sent(d.ner) <= r.value.sent
      && r.value.found.Some? && FoundFor(b, rows, r.value.sent, r.value.found.value)
  {
    BundleFound(b, rows, d, m);
  }

  lemma {:induction false} KnownState(b: Book, rows: seq<Row>, e: Evidence)
    requires TrueEvidence(b, rows, e) && forall k :: 0 <= k < |rows| ==>
        FlagOf(b, rows[k], e).Ok? && FlagOf(b, rows[k], e).value.Some?
    ensures var flags := FlagsOf(b, rows, e);
      flags.Ok? && AllKnown(flags.value)
          && SeamSummary(rows, flags.value, SeamsOf(b, rows)) == Some(TrueCounts(b, rows))
  {
    FlagsAt(b, rows, e);
    EvidenceFlagsTrue(b, rows, e);
    KnownIsTruth(b, rows, FlagsOf(b, rows, e).value);
  }

  // ---------------------------------------------------------------------------------------
  // Releases
  // ---------------------------------------------------------------------------------------

  function FlagMap(rows: seq<Row>, flags: seq<Option<bool>>): map<nat, bool>
    requires |flags| == |rows|
  {
    if rows == [] then map[]
    else
      var n := |rows| - 1;
      var m := FlagMap(rows[..n], flags[..n]);
      if flags[n].Some? then m[rows[n].index := flags[n].value] else m
  }

  lemma {:induction false} FlagMapTrue(b: Book, rows: seq<Row>, flags: seq<Option<bool>>)
    requires Ordered(rows) && FlagsTrue(b, rows, flags)
    ensures TrueFlags(b, rows, FlagMap(rows, flags))
    ensures forall i :: i in FlagMap(rows, flags) ==> exists k :: 0 <= k < |rows| && rows[k].index == i
  {
    if rows == [] {
    } else {
      var n := |rows| - 1;
      FlagMapTrue(b, rows[..n], flags[..n]);
      assert rows[n].index !in FlagMap(rows[..n], flags[..n]);
      forall k | 0 <= k < |rows| && rows[k].index in FlagMap(rows, flags)
        ensures FlagMap(rows, flags)[rows[k].index] == HasEntity(b, rows[k])
      {
        if k < n { assert rows[..n][k] == rows[k]; }
      }
    }
  }

  lemma {:induction false} FlagMapKnown(rows: seq<Row>, flags: seq<Option<bool>>)
    requires |flags| == |rows| && AllKnown(flags)
    ensures forall k :: 0 <= k < |rows| ==> rows[k].index in FlagMap(rows, flags)
  {
    if rows == [] {
    } else {
      var n := |rows| - 1;
      FlagMapKnown(rows[..n], flags[..n]);
      forall k | 0 <= k < |rows| ensures rows[k].index in FlagMap(rows, flags) {
        if k < n { assert rows[..n][k] == rows[k]; }
      }
    }
  }

  /** `build_line_baseline` for one book: whatever file is there is digested. */
  function BaselineEntry(b: Book, rows: seq<Row>, file: Option<seq<Record>>, s: BookState): Baseline
    requires |s.flags| == |rows|
  {
    Baseline(LinesOf(rows), file, FlagMap(rows, s.flags), Some(RequiresContext(b, rows)), s.seams)
  }

  /** The new entry is true, and a book with citation history can be probed from it once all its flags
      and its seam counts are known. */
  lemma {:induction false} NewEntry(b: Book, fingerprint: nat, rows: seq<Row>, file: Option<seq<Record>>, s: BookState)
    requires Ordered(rows) && TrueState(b, rows, s)
    ensures Truthful(b, Published(fingerprint, rows, BaselineEntry(b, rows, file, s)))
    ensures RequiresContext(b, rows) && AllKnown(s.flags) && s.seams.Some? ==>
      Comparable(BaselineEntry(b, rows, file, s), rows)
  {
    FlagMapTrue(b, rows, s.flags);
    if AllKnown(s.flags) {
      FlagMapKnown(rows, s.flags);
      LinesAt(rows);
    }
  }

  /** The file of one book in the store, and what the last accepted release recorded of the book. */
  datatype Shelf = Shelf(file: Option<seq<Record>>, published: Option<Published>)

  /** The file that release left. */
  function RecordedFile(p: Option<Published>): Option<seq<Record>> {
    if p.Some? then p.value.baseline.artifact else None
  }

  /** The store still holds what the last accepted release digested. */
  predicate InStep(s: Shelf) {
    s.file == RecordedFile(s.published)
  }

  /** How NER reaches the resolver: called live, as a finished bundle, or not at all. */
  datatype Ner = Live | Handed | Missing

  /** What one run is to do with the book: it left the snapshot, or it has these lines under this
      engine. `readable` says whether the stored line baseline can be used, `lives` where each life of
      the book in the resolver ends. */
  datatype Edit = Removed | Edit(fingerprint: nat, rows: seq<Row>, readable: bool, ner: Ner, lives: seq<LifeEnd>)

  /** The other books of the run: they stop it before anything changes, one of them ends failed or
      not done, or all of them finish. */
  datatype Peers = Stopped | Failed | Fine

  /** `restored`: the store was put back to the last accepted release beforehand. */
  datatype Run = Run(restored: bool, edit: Edit, peers: Peers)

  function Found(was: Shelf, run: Run): Shelf {
    if run.restored then Shelf(RecordedFile(was.published), was.published) else was
  }

  predicate SameEngine(s: Shelf, e: Edit)
    requires e.Edit?
  {
    s.published.Some? && s.published.value.fingerprint == e.fingerprint
  }

  predicate Unchanged(s: Shelf, e: Edit)
    requires e.Edit?
  {
    SameEngine(s, e) && s.published.value.rows == e.rows
  }

  /** Only a readable baseline of the same engine is planned from. */
  function Stored(s: Shelf, e: Edit): Option<Published>
    requires e.Edit?
  {
    if SameEngine(s, e) && e.readable then s.published else None
  }

  ghost predicate StandsTruthful(engines: nat -> Book, p: Option<Published>) {
    p.Some? ==> Truthful(engines(p.value.fingerprint), p.value)
  }

  ghost predicate StandsAccurate(engines: nat -> Book, p: Option<Published>) {
    p.Some? ==> Accurate(engines(p.value.fingerprint), p.value)
  }

  // ---------------------------------------------------------------------------------------
  // One changed book
  // ---------------------------------------------------------------------------------------

  /** `plan_changed_books` for one book. */
  method PlanBook(b: Book, prior: Option<Baseline>, rows: seq<Row>) returns (d: Delta)
    requires Ordered(rows) && (prior.Some? ==> LineMatch.Ordered(prior.value.lines))
    ensures IsPlan(b, prior, rows, Some(SeamsOf(b, rows)), d)
    ensures
      if prior.None? || b.placedByDafHeadings then
        d.reuse == [] && Sent(d.ner) == Elems(Indices(rows)) && d.context.None?
      else PlannedLeast(b, prior.value, rows, d)
  {
    if prior.None? || b.placedByDafHeadings {
      SentCoalesce(Elems(Indices(rows)));
      return FullNerDelta(rows);
    }
    d := ComputeLineDelta(b, prior.value, rows, Some(SeamsOf(b, rows)));
  }

  /** `d` is the plan of this edit. */
  ghost predicate Plans(b: Book, s: Shelf, e: Edit, d: Delta)
    requires e.Edit?
  {
    IsPlan(b, BaselineOf(Stored(s, e)), e.rows, Some(SeamsOf(b, e.rows)), d)
  }

  /** A book has only one plan. */
  lemma {:induction false} PlanUnique(b: Book, prior: Option<Baseline>, rows: seq<Row>, c: Delta, d: Delta)
    requires IsPlan(b, prior, rows, Some(SeamsOf(b, rows)), c) && IsPlan(b, prior, rows, Some(SeamsOf(b, rows)), d)
    ensures c == d
  {
    if prior.Some? && !b.placedByDafHeadings {
      if RequiresContext(b, rows) {
        ProbeUnique(prior.value, rows, SeamsOf(b, rows));
      } else {
        var left: seq<nat> :| LineMatch.IsMatch(prior.value.lines, LinesOf(rows), c.reuse, left)
          && c == Delta(c.reuse, Ranges.Coalesce(Elems(left)), |rows|, prior.value.artifact, None);
        var rest: seq<nat> :| LineMatch.IsMatch(prior.value.lines, LinesOf(rows), d.reuse, rest)
          && d == Delta(d.reuse, Ranges.Coalesce(Elems(rest)), |rows|, prior.value.artifact, None);
        LineMatch.MatchUnique(prior.value.lines, LinesOf(rows), c.reuse, left, d.reuse, rest);
      }
    }
  }

  lemma {:induction false} ProbeUnique(prior: Baseline, rows: seq<Row>, seams: set<nat>)
    ensures forall c, d :: IsProbe(prior, rows, Some(seams), c) && IsProbe(prior, rows, Some(seams), d) ==> c == d
  {
    if Comparable(prior, rows) {
      forall c, d | IsProbe(prior, rows, Some(seams), c) && IsProbe(prior, rows, Some(seams), d) ensures c == d {
        var reuse: seq<Pair>, left: seq<nat> :| LineMatch.IsMatch(prior.lines, LinesOf(rows), reuse, left)
          && c == ProbeFor(prior, rows, seams, reuse, left);
        var again: seq<Pair>, rest: seq<nat> :| LineMatch.IsMatch(prior.lines, LinesOf(rows), again, rest)
          && d == ProbeFor(prior, rows, seams, again, rest);
        LineMatch.MatchUnique(prior.lines, LinesOf(rows), reuse, left, again, rest);
      }
    }
  }

  /** A readable record of the same engine is always planned from: of a book without citation history just
      the unpaired lines go to NER, of one whose history is unmoved they are probed. */
  lemma {:induction false} RecordIsUsed(b: Book, s: Shelf, e: Edit, d: Delta, reuse: seq<Pair>, ner: seq<nat>)
    requires e.Edit? && e.readable && s.published.Some? && s.published.value.fingerprint == e.fingerprint
    requires !b.placedByDafHeadings && Plans(b, s, e, d)
    requires MatchOf(s.published.value.rows, e.rows, reuse, ner)
    requires OnRecord(b, s.published.value.baseline, s.published.value.rows, e.rows, ner)
    ensures SendsLeast(b, s.published.value.rows, e.rows, reuse, ner, d)
  {
    DeltaSendsLeast(b, s.published.value.baseline, s.published.value.rows, e.rows, reuse, ner, d);
  }

  /** Any other book goes to NER whole. */
  lemma {:induction false} NoRecordIsUsed(b: Book, s: Shelf, e: Edit, d: Delta)
    requires e.Edit? && Plans(b, s, e, d)
    requires b.placedByDafHeadings || !e.readable || s.published.None? || s.published.value.fingerprint != e.fingerprint
    ensures d.reuse == [] && Sent(d.ner) == Elems(Indices(e.rows)) && d.context.None?
  {
    SentCoalesce(Elems(Indices(e.rows)));
  }

  /** The digest gate: records are reused only from the very file the baseline describes. */
  predicate Gated(d: Delta, file: Option<seq<Record>>) {
    d.reuse != [] && d.artifact != file
  }

  function BundleFor(b: Book, rows: seq<Row>, d: Delta, ner: Ner): Option<Manifest> {
    if ner.Handed? then Some(Produced(b, rows, d.ner, d.context)) else None
  }

  /** The book after all its lives in the resolver. */
  function Relinked(b: Book, rows: seq<Row>, d: Delta, ner: Ner, file: Option<seq<Record>>, lives: seq<LifeEnd>): Output
    requires Ordered(rows)
  {
    match BookLinePlan(b, rows, d, BundleFor(b, rows, d, ner))
    case Raised(_) => Output(file, false)
    case Ok(plan) => AfterLives(b, rows, plan, ner.Handed? && !plan.stateful, file, lives)
  }

  lemma {:induction false} HandedBundle(b: Book, rows: seq<Row>, d: Delta, ner: Ner)
    requires Covers(rows, d)
    ensures BundleOf(b, rows, d, BundleFor(b, rows, d, ner))
  {
    if ner.Handed? { CompleteIsProduced(b, rows, d.ner, d.context, Produced(b, rows, d.ner, d.context)); }
  }

  lemma {:induction false} PlannedArtifact(b: Book, stored: Option<Published>, rows: seq<Row>, d: Delta)
    requires Ordered(rows) && (stored.Some? ==> Truthful(b, stored.value))
    requires IsPlan(b, BaselineOf(stored), rows, Some(SeamsOf(b, rows)), d)
    ensures d.reuse != [] ==> stored.Some? && d.artifact == stored.value.baseline.artifact
  {
    if d.reuse != [] { var ner := PlanMatch(b, stored.value, rows, d); }
  }

  lemma {:induction false} NoReuseLinks(b: Book, rows: seq<Row>, d: Delta, bundle: Option<Manifest>,
      file: Option<seq<Record>>, other: Option<seq<Record>>)
    requires d.reuse == [] && Links(b, rows, d, bundle, file)
    ensures Links(b, rows, d, bundle, other)
  {
    NothingReused(b, rows, BookLinePlan(b, rows, d, bundle).value, file, other);
  }

  /** Past the digest gate, an accurate baseline links every changed book as from scratch. */
  lemma {:induction false} StoredLinks(b: Book, stored: Option<Published>, file: Option<seq<Record>>, rows: seq<Row>,
      d: Delta, bundle: Option<Manifest>)
    requires Ordered(rows) && HistoryFree(b) && (stored.Some? ==> Accurate(b, stored.value)) && !Gated(d, file)
    requires IsPlan(b, BaselineOf(stored), rows, Some(SeamsOf(b, rows)), d)
    requires BundleOf(b, rows, d, bundle)
    ensures Links(b, rows, d, bundle, file)
  {
    PlannedArtifact(b, stored, rows, d);
    if stored.Some? {
      PlanLinks(b, stored.value, rows, d, bundle);
      if d.reuse == [] { NoReuseLinks(b, rows, d, bundle, stored.value.baseline.artifact, file); }
    } else {
      FullDeltaLinks(b, rows, bundle, file);
    }
  }

  /** No life of this book is killed late, unless that does no harm. */
  predicate Careful(e: Edit, d: Delta)
    requires e.Edit?
  {
    e.ner.Handed? || Unmoved(d.reuse) || !KilledLate(e.lives)
  }

  /** The book is done exactly if some life of it completes, with the artifact of a from-scratch link;
      the file is else the one found, or already that artifact. */
  lemma {:induction false} RelinkedFresh(b: Book, s: Shelf, e: Edit, d: Delta)
    requires e.Edit? && Ordered(e.rows) && HistoryFree(b) && (Stored(s, e).Some? ==> Accurate(b, Stored(s, e).value))
    requires Plans(b, s, e, d) && !Gated(d, s.file) && Careful(e, d)
    ensures var o := Relinked(b, e.rows, d, e.ner, s.file, e.lives);
      && (o.done <==> Done in e.lives)
      && (o.done ==> o.file == FileOf(FreshArtifact(b, e.rows)))
      && OldOrMade(o.file, s.file, Ok(FreshArtifact(b, e.rows)))
      && (!o.done && !KilledLate(e.lives) ==> o.file == s.file)
  {
    var bundle := BundleFor(b, e.rows, d, e.ner);
    PlanCovers(b, BaselineOf(Stored(s, e)), e.rows, Some(SeamsOf(b, e.rows)), d);
    HandedBundle(b, e.rows, d, e.ner);
    StoredLinks(b, Stored(s, e), s.file, e.rows, d, bundle);
    var plan := BookLinePlan(b, e.rows, d, bundle).value;
    assert PlanUsable(e.rows, plan);
    LivesSettle(b, e.rows, plan, e.ner.Handed? && !plan.stateful, s.file, e.lives);
  }

  /** The run leaves this file; if it is accepted, it records that file with the new lines and engine,
      and nothing untrue about them. `known`: all flags and seam counts are known afterwards. */
  ghost predicate Leaves(b: Book, s: Shelf, e: Edit, file: Option<seq<Record>>, accepted: bool, known: bool, now: Shelf)
    requires e.Edit?
  {
    && now.file == file
    && if accepted then
         && now.published.Some? && Truthful(b, now.published.value)
         && now.published.value.fingerprint == e.fingerprint && now.published.value.rows == e.rows
         && now.published.value.baseline.artifact == file
         && (known && RequiresContext(b, e.rows) ==> Comparable(now.published.value.baseline, e.rows))
       else now.published == s.published
  }

  /** The run of a changed book under its plan. */
  ghost predicate Relinks(b: Book, s: Shelf, e: Edit, fine: bool, now: Shelf)
    requires e.Edit? && Ordered(e.rows)
  {
    exists d :: Plans(b, s, e, d) &&
      if e.ner.Missing? || Gated(d, s.file) then now == s
      else
        var o := Relinked(b, e.rows, d, e.ner, s.file, e.lives);
        Leaves(b, s, e, o.file, o.done && fine, e.ner.Handed?, now)
  }

  /** The end of a run for a book linked to `o`: `build_line_baseline` with `next_book_state` if every
      book is done. */
  method Finish(b: Book, s: Shelf, e: Edit, d: Delta, o: Output, fine: bool) returns (now: Shelf)
    requires e.Edit? && Ordered(e.rows) && (Stored(s, e).Some? ==> Truthful(b, Stored(s, e).value))
    requires Plans(b, s, e, d)
    ensures Leaves(b, s, e, o.file, o.done && fine, e.ner.Handed?, now)
  {
    if !o.done || !fine {
      return Shelf(o.file, s.published);
    }
    var prior, bundle := BaselineOf(Stored(s, e)), BundleFor(b, e.rows, d, e.ner);
    PlanCovers(b, prior, e.rows, Some(SeamsOf(b, e.rows)), d);
    HandedBundle(b, e.rows, d, e.ner);
    ChangedEvidence(b, Stored(s, e), e.rows, d, bundle);
    NextStateTrue(b, e.rows, Some(d), prior, bundle);
    if e.ner.Handed? && RequiresContext(b, e.rows) {
      ComparableAgain(b, Stored(s, e), e.rows, d, bundle.value);
    }
    var state := NextBookState(b, e.rows, Some(d), prior, bundle);
    NewEntry(b, e.fingerprint, e.rows, o.file, state.value);
    return Shelf(o.file, Some(Published(e.fingerprint, e.rows, BaselineEntry(b, e.rows, o.file, state.value))));
  }

  /** A changed book, with what happens to NER and in each life given. */
  method Relink(b: Book, s: Shelf, e: Edit, fine: bool) returns (now: Shelf)
    requires e.Edit? && Ordered(e.rows) && (Stored(s, e).Some? ==> Truthful(b, Stored(s, e).value))
    ensures Relinks(b, s, e, fine, now)
  {
    PrintsOfRows(if Stored(s, e).Some? then Stored(s, e).value.rows else []);
    var d := PlanBook(b, BaselineOf(Stored(s, e)), e.rows);
    assert Plans(b, s, e, d);
    if e.ner.Missing? || Gated(d, s.file) {
      return s;
    }
    now := Finish(b, s, e, d, Relinked(b, e.rows, d, e.ner, s.file, e.lives), fine);
  }

  // ---------------------------------------------------------------------------------------
  // What happens to NER and in each life is what the crash models yield
  // ---------------------------------------------------------------------------------------

  /** The GPU producer through attempts that may be killed or fail anywhere, or no producer at all. One
      undisturbed attempt hands the bundle over, unless a kill strands the book before it. */
  method ProduceBundle(b: Book, rows: seq<Row>, d: Delta, live: bool, attempts: seq<Attempt>)
    returns (ner: Ner, bundle: Option<Manifest>)
    requires Covers(rows, d)
    ensures ner.Live? <==> live
    ensures bundle == BundleFor(b, rows, d, ner)
    ensures !live && Producer.NoneStrands(attempts) && Producer.SomeQuiet(attempts) ==> ner.Handed?
  {
    if live {
      return Live, None;
    }
    var disk := new BookDisk(b, rows, d.ner, d.context);
    disk.Lives(attempts);
    var m := disk.Finalize();
    if m.Raised? {
      return Missing, None;
    }
    CompleteIsProduced(b, rows, d.ner, d.context, m.value);
    return Handed, Some(m.value);
  }

  /** The resolver on one book, through lives that may end anywhere and lose files in between. A book that
      can be linked is done if one life is undisturbed, unless a late kill can harm it. */
  method LinkPlanned(b: Book, rows: seq<Row>, d: Delta, ner: Ner, bundle: Option<Manifest>, file: Option<seq<Record>>,
      weathers: seq<Weather>) returns (o: Output, lives: seq<LifeEnd>)
    requires Ordered(rows) && bundle == BundleFor(b, rows, d, ner)
    ensures o == Relinked(b, rows, d, ner, file, lives)
    ensures NoneLate(weathers) ==> !KilledLate(lives)
    ensures Links(b, rows, d, bundle, file) && Checkpoint.SomeQuiet(weathers) && Harmless(d, ner, weathers) ==>
      o.done && Done in lives
  {
    lives := [];
    var plan := BookLinePlan(b, rows, d, bundle);
    if plan.Raised? {
      return Output(file, false), lives;
    }
    var run := new BookRun(b, rows, plan.value, bundle.Some? && !plan.value.stateful, true, file);
    run.Lives(weathers);
    if run.done {
      DoneNeedsLife(b, rows, plan.value, bundle.Some? && !plan.value.stateful, file, run.ends);
    }
    return Output(run.out, run.done), run.ends;
  }

  /** No late kill, or none that does harm. */
  predicate Harmless(d: Delta, ner: Ner, weathers: seq<Weather>) {
    ner.Handed? || Unmoved(d.reuse) || NoneLate(weathers)
  }

  /** A changed book through real crashes: the run it makes is one of those `Relinks` describes, and from
      an accurate record it comes to its end wherever producer and resolver are left alone once. */
  method RelinkUnderCrashes(b: Book, s: Shelf, e: Edit, fine: bool, attempts: seq<Attempt>, weathers: seq<Weather>)
    returns (now: Shelf, seen: Edit)
    requires e.Edit? && !e.ner.Missing? && Ordered(e.rows) && (Stored(s, e).Some? ==> Truthful(b, Stored(s, e).value))
    ensures seen.Edit? && seen == e.(ner := seen.ner, lives := seen.lives) && seen.ner in {e.ner, Missing}
    ensures Relinks(b, s, seen, fine, now)
    ensures e.ner.Live? || (Producer.NoneStrands(attempts) && Producer.SomeQuiet(attempts)) ==> seen.ner == e.ner
    ensures HistoryFree(b) && InStep(s) && (Stored(s, e).Some? ==> Accurate(b, Stored(s, e).value))
            && seen.ner == e.ner && Checkpoint.SomeQuiet(weathers) && (e.ner.Handed? || NoneLate(weathers)) ==>
      Done in seen.lives
  {
    seen := e;
    PrintsOfRows(if Stored(s, e).Some? then Stored(s, e).value.rows else []);
    var d := PlanBook(b, BaselineOf(Stored(s, e)), e.rows);
    PlanCovers(b, BaselineOf(Stored(s, e)), e.rows, Some(SeamsOf(b, e.rows)), d);
    var ner, bundle := ProduceBundle(b, e.rows, d, e.ner.Live?, attempts);
    seen := e.(ner := ner);
    assert Stored(s, seen) == Stored(s, e) && Plans(b, s, seen, d);
    GateExactly(b, s, e, d);
    if ner.Missing? || Gated(d, s.file) {
      return s, seen;
    }
    if HistoryFree(b) && (Stored(s, e).Some? ==> Accurate(b, Stored(s, e).value)) {
      HandedBundle(b, e.rows, d, ner);
      StoredLinks(b, Stored(s, e), s.file, e.rows, d, bundle);
    }
    var o, lives := LinkPlanned(b, e.rows, d, ner, bundle, s.file, weathers);
    seen := seen.(lives := lives);
    assert Stored(s, seen) == Stored(s, e) && Plans(b, s, seen, d);
    now := Finish(b, s, e.(ner := ner), d, o, fine);
  }

  // ---------------------------------------------------------------------------------------
  // One run
  // ---------------------------------------------------------------------------------------

  /** What one run makes of the book. */
  ghost predicate Follows(engines: nat -> Book, run: Run, was: Shelf, now: Shelf)
    requires run.edit.Edit? ==> Ordered(run.edit.rows)
  {
    var s, e := Found(was, run), run.edit;
    if run.peers.Stopped? then now == s
    else if e.Removed? then
      now == Shelf(if s.published.Some? then None else s.file, if run.peers.Fine? then None else s.published)
    else if Unchanged(s, e) then
      Leaves(engines(e.fingerprint), s, e, s.file, run.peers.Fine?,
             e.readable && Comparable(s.published.value.baseline, e.rows), now)
    else Relinks(engines(e.fingerprint), s, e, run.peers.Fine?, now)
  }

  /** A book whose lines and engine are unchanged keeps its file and its flags. */
  method Keep(b: Book, s: Shelf, e: Edit, fine: bool) returns (now: Shelf)
    requires e.Edit? && Unchanged(s, e) && Truthful(b, s.published.value)
    ensures Leaves(b, s, e, s.file, fine, e.readable && Comparable(s.published.value.baseline, e.rows), now)
  {
    if !fine {
      return s;
    }
    var prior := BaselineOf(Stored(s, e));
    UnchangedEvidence(b, e.rows, prior);
    NextStateTrue(b, e.rows, None, prior, None);
    if e.readable && Comparable(s.published.value.baseline, e.rows) && RequiresContext(b, e.rows) {
      KeptKnown(b, s.published.value);
    }
    var state := NextBookState(b, e.rows, None, prior, None);
    NewEntry(b, e.fingerprint, e.rows, s.file, state.value);
    return Shelf(s.file, Some(Published(e.fingerprint, e.rows, BaselineEntry(b, e.rows, s.file, state.value))));
  }

  /** An unchanged book keeps flags and seam counts that were all known. */
  lemma {:induction false} KeptKnown(b: Book, p: Published)
    requires Truthful(b, p) && Comparable(p.baseline, p.rows) && RequiresContext(b, p.rows)
    ensures var r := NextState(b, p.rows, None, Some(p.baseline), None);
      r.Ok? && AllKnown(r.value.flags) && r.value.seams.Some?
  {
    var e := EvidenceFor(p.rows, None, Some(p.baseline), None).value;
    UnchangedEvidence(b, p.rows, Some(p.baseline));
    IdentityAt(p.rows);
    LinesAt(p.rows);
    forall k | 0 <= k < |p.rows| ensures FlagOf(b, p.rows[k], e).Ok? && FlagOf(b, p.rows[k], e).value.Some? {
      assert p.baseline.lines[k].index == p.rows[k].index;
    }
    FlagsAt(b, p.rows, e);
  }

  /** One run of one book. */
  method RunRelease(engines: nat -> Book, run: Run, was: Shelf) returns (now: Shelf)
    requires run.edit.Edit? ==> Ordered(run.edit.rows)
    requires StandsTruthful(engines, was.published)
    ensures Follows(engines, run, was, now)
  {
    var s, e := Found(was, run), run.edit;
    if run.peers.Stopped? {
      return s;
    }
    if e.Removed? {
      return Shelf(if s.published.Some? then None else s.file, if run.peers.Fine? then None else s.published);
    }
    if Unchanged(s, e) {
      now := Keep(engines(e.fingerprint), s, e, run.peers.Fine?);
    } else {
      now := Relink(engines(e.fingerprint), s, e, run.peers.Fine?);
    }
  }

  /** Nothing untrue is ever recorded about a line, whatever fails, drifts or is killed. */
  lemma {:induction false} StaysTruthful(engines: nat -> Book, run: Run, was: Shelf, now: Shelf)
    requires run.edit.Edit? ==> Ordered(run.edit.rows)
    requires StandsTruthful(engines, was.published) && Follows(engines, run, was, now)
    ensures StandsTruthful(engines, now.published)
  {}

  /** The run finishes its work on the book: all books of the run do, and some life of this one, if it
      changed, completes. */
  predicate Delivers(s: Shelf, run: Run) {
    run.peers.Fine? && (run.edit.Edit? && !Unchanged(s, run.edit) ==> !run.edit.ner.Missing? && Done in run.edit.lives)
  }

  /** Nothing stands between the work and its result: an unchanged book still has the recorded file; a
      changed one passes the digest gate and no life is killed late to its harm. */
  ghost predicate Clear(b: Book, s: Shelf, e: Edit) {
    e.Edit? ==>
      if Unchanged(s, e) then InStep(s)
      else exists d :: Plans(b, s, e, d) && !Gated(d, s.file) && Careful(e, d)
  }

  /** The release published what a run from scratch would; if it did not finish, what was published
      before still stands. */
  ghost predicate Serves(engines: nat -> Book, run: Run, was: Shelf, now: Shelf) {
    && StandsAccurate(engines, now.published)
    && (if !Delivers(Found(was, run), run) then now.published == was.published
        else if run.edit.Removed? then now.published == None
            && (was.published.Some? || run.restored ==> now.file == None)
        else
          && InStep(now) && now.published.Some?
          && now.published.value.rows == run.edit.rows && now.published.value.fingerprint == run.edit.fingerprint)
  }

  lemma {:induction false} DoneIsCompleted(b: Book, rows: seq<Row>, d: Delta, ner: Ner, file: Option<seq<Record>>,
      lives: seq<LifeEnd>)
    requires Ordered(rows) && Relinked(b, rows, d, ner, file, lives).done
    ensures Done in lives
  {
    var plan := BookLinePlan(b, rows, d, BundleFor(b, rows, d, ner)).value;
    DoneNeedsLife(b, rows, plan, ner.Handed? && !plan.stateful, file, lives);
  }

  lemma {:induction false} DoneNeedsLife(b: Book, rows: seq<Row>, plan: LinePlan, cooperative: bool,
      file: Option<seq<Record>>, lives: seq<LifeEnd>)
    requires Ordered(rows) && AfterLives(b, rows, plan, cooperative, file, lives).done
    ensures Done in lives
  {
    if lives == [] {
    } else {
      EndsAppend(lives);
      if AfterLives(b, rows, plan, cooperative, file, lives[..|lives| - 1]).done {
        DoneNeedsLife(b, rows, plan, cooperative, file, lives[..|lives| - 1]);
      }
    }
  }

  /** A changed book with nothing in its way is published as linked from scratch. */
  lemma {:induction false} ChangedServes(b: Book, s: Shelf, e: Edit, now: Shelf)
    requires e.Edit? && Ordered(e.rows) && HistoryFree(b) && (Stored(s, e).Some? ==> Accurate(b, Stored(s, e).value))
    requires !Unchanged(s, e) && Clear(b, s, e) && !e.ner.Missing? && Done in e.lives
    requires Relinks(b, s, e, true, now)
    ensures now.published.Some? && Accurate(b, now.published.value) && InStep(now)
    ensures now.published.value.rows == e.rows && now.published.value.fingerprint == e.fingerprint
  {
    var d :| Plans(b, s, e, d) && !Gated(d, s.file) && Careful(e, d);
    var c := RelinksUnder(b, s, e, true, now);
    PlanUnique(b, BaselineOf(Stored(s, e)), e.rows, c, d);
    RelinkedFresh(b, s, e, d);
  }

  lemma {:induction false} RelinksUnder(b: Book, s: Shelf, e: Edit, fine: bool, now: Shelf) returns (d: Delta)
    requires e.Edit? && Ordered(e.rows) && Relinks(b, s, e, fine, now)
    ensures Plans(b, s, e, d)
    ensures
      if e.ner.Missing? || Gated(d, s.file) then now == s
      else
        var o := Relinked(b, e.rows, d, e.ner, s.file, e.lives);
        Leaves(b, s, e, o.file, o.done && fine, e.ner.Handed?, now)
  {
    d :| Plans(b, s, e, d) &&
      if e.ner.Missing? || Gated(d, s.file) then now == s
      else
        var o := Relinked(b, e.rows, d, e.ner, s.file, e.lives);
        Leaves(b, s, e, o.file, o.done && fine, e.ner.Handed?, now);
  }

  /** Without a delivery nothing new is recorded, whatever else happens. */
  lemma {:induction false} UndeliveredStands(engines: nat -> Book, run: Run, was: Shelf, now: Shelf)
    requires run.edit.Edit? ==> Ordered(run.edit.rows)
    requires Follows(engines, run, was, now) && !Delivers(Found(was, run), run)
    ensures now.published == was.published
  {
    var s, e := Found(was, run), run.edit;
    if e.Edit? && !Unchanged(s, e) && !run.peers.Stopped? {
      var b := engines(e.fingerprint);
      var d := RelinksUnder(b, s, e, run.peers.Fine?, now);
      if Relinked(b, e.rows, d, e.ner, s.file, e.lives).done { DoneIsCompleted(b, e.rows, d, e.ner, s.file, e.lives); }
    }
  }

  /** A run with nothing in its way serves. */
  lemma {:induction false} ClearRunServes(engines: nat -> Book, run: Run, was: Shelf, now: Shelf)
    requires run.edit.Edit? ==> Ordered(run.edit.rows) && HistoryFree(engines(run.edit.fingerprint))
    requires StandsAccurate(engines, was.published) && Follows(engines, run, was, now)
    requires run.edit.Edit? && Delivers(Found(was, run), run) ==>
      Clear(engines(run.edit.fingerprint), Found(was, run), run.edit)
    ensures Serves(engines, run, was, now)
  {
    var s, e := Found(was, run), run.edit;
    if !Delivers(s, run) {
      UndeliveredStands(engines, run, was, now);
    } else if e.Edit? && !Unchanged(s, e) {
      ChangedServes(engines(e.fingerprint), s, e, now);
    }
  }

  /** The gate stops exactly the changed books that reuse anything while the store is out of step. */
  lemma {:induction false} GateExactly(b: Book, s: Shelf, e: Edit, d: Delta)
    requires e.Edit? && Ordered(e.rows) && (Stored(s, e).Some? ==> Truthful(b, Stored(s, e).value)) && Plans(b, s, e, d)
    ensures Gated(d, s.file) <==> d.reuse != [] && !InStep(s)
  {
    PlannedArtifact(b, Stored(s, e), e.rows, d);
  }

  /** It does not look at an unchanged book: the file there is taken for the book's artifact, and the
      new record is accurate exactly if the store was in step. */
  lemma {:induction false} UnchangedIsNotGated(engines: nat -> Book, run: Run, was: Shelf, now: Shelf)
    requires run.edit.Edit? && Ordered(run.edit.rows) && run.peers.Fine? && Unchanged(Found(was, run), run.edit)
    requires StandsAccurate(engines, was.published) && Follows(engines, run, was, now)
    ensures now.published.Some? && now.file == Found(was, run).file
    ensures StandsAccurate(engines, now.published) <==> InStep(Found(was, run))
  {}

  /** So a book removed by a run that failed, and back unchanged in the next run over the same store,
      is published without its links. */
  lemma {:induction false} ReturnsWithoutLinks(engines: nat -> Book, out: Run, back: Run, first: Shelf, gone: Shelf,
      now: Shelf)
    requires StandsAccurate(engines, first.published) && first.published.Some?
    requires out.edit.Removed? && out.peers.Failed? && Follows(engines, out, first, gone)
    requires back.edit.Edit? && Ordered(back.edit.rows) && !back.restored && back.peers.Fine?
    requires Unchanged(first, back.edit) && Follows(engines, back, gone, now)
    ensures InStep(now) && now.published.Some? && now.published.value.baseline.artifact == None
    ensures StandsAccurate(engines, now.published) <==>
        FreshArtifact(engines(back.edit.fingerprint), back.edit.rows) == []
  {}

  /** A book whose lines and engine did not change keeps its file, and is accepted whenever its peers are. */
  lemma {:induction false} UnchangedKeepsFile(engines: nat -> Book, run: Run, was: Shelf, now: Shelf)
    requires run.edit.Edit? && Ordered(run.edit.rows) && Follows(engines, run, was, now)
    requires was.published.Some? && was.published.value.rows == run.edit.rows
    requires was.published.value.fingerprint == run.edit.fingerprint
    ensures now.file == if run.restored then was.published.value.baseline.artifact else was.file
    ensures run.peers.Fine? ==> now.published.Some? && now.published.value.baseline.artifact == now.file
  {}

  // ---------------------------------------------------------------------------------------
  // A late kill of a live book
  // ---------------------------------------------------------------------------------------

  lemma {:induction false} NothingEmitted(p: Pass, rows: seq<Row>)
    requires forall r :: r in rows ==> SpansAt(p, r.index) == []
    ensures Emitted(p, rows) == []
  {
    if rows == [] {
    } else {
      assert rows[|rows| - 1] in rows;
      NothingEmitted(p, rows[..|rows| - 1]);
    }
  }

  lemma {:induction false} InertLine(b: Book, rows: seq<Row>, stateful: bool, lines: Option<set<nat>>, r: Row)
    requires Ordered(rows) && r in rows && !HasEntity(b, r)
    ensures SpansAt(LinesPass(b, rows, stateful, lines), r.index) == []
  {
    LinesPassAt(b, rows, stateful, lines, r);
  }

  /** Linking only lines without entities finds nothing. */
  lemma {:induction false} InertPass(b: Book, rows: seq<Row>, plan: LinePlan)
    requires Ordered(rows) && ProbeInert(b, rows, plan.ner)
    ensures FinalPass(b, rows, plan) == []
  {
    var p := LinesPass(b, rows, plan.stateful, Some(plan.ner));
    EmitLinesPass(b, rows, plan.stateful, Some(plan.ner));
    forall r | r in rows ensures SpansAt(p, r.index) == [] {
      if r.index in plan.ner {
        var k :| 0 <= k < |rows| && rows[k] == r;
        InertLine(b, rows, plan.stateful, Some(plan.ner), r);
      } else {
        LinesPassAt(b, rows, plan.stateful, Some(plan.ner), r);
      }
    }
    NothingEmitted(p, rows);
  }

  /** A live book in which only lines without entities are new and no link stands at an index lines
      were reused from loses every link to one late kill. */
  lemma {:induction false} LateKillForgets(b: Book, s: Shelf, e: Edit, d: Delta)
    requires e.Edit? && Ordered(e.rows) && HistoryFree(b) && (Stored(s, e).Some? ==> Accurate(b, Stored(s, e).value))
    requires Plans(b, s, e, d) && d.context.None? && !Gated(d, s.file)
    requires e.ner.Live? && e.lives == [Settled, Done]
    requires ProbeInert(b, e.rows, Sent(d.ner))
    requires forall r :: r in FreshArtifact(b, e.rows) ==> r.line !in ReuseByOld(d.reuse)
    ensures Relinked(b, e.rows, d, e.ner, s.file, e.lives) == Output(None, true)
  {
    PlanCovers(b, BaselineOf(Stored(s, e)), e.rows, Some(SeamsOf(b, e.rows)), d);
    StoredLinks(b, Stored(s, e), s.file, e.rows, d, None);
    var plan := BookLinePlan(b, e.rows, d, None).value;
    SecondLifeForgets(b, e.rows, plan, s.file, FreshArtifact(b, e.rows));
    InertPass(b, e.rows, plan);
  }

  /** The one line of a book that becomes the second of two. */
  ghost predicate InsertedBefore(x: Row, y: Row, z: Row) {
    y.index == x.index < z.index && z.content == x.content && z.context == x.context && y.content != x.content
  }

  lemma {:induction false} InsertedPrints(x: Row, y: Row, z: Row)
    requires InsertedBefore(x, y, z)
    ensures var f, g := LineMatch.Fingerprint(x.content, x.context), LineMatch.Fingerprint(y.content, y.context);
      && LineMatch.Prints(LinesOf([x])) == map[x.index := f]
      && LineMatch.Prints(LinesOf([y, z])) == map[x.index := g, z.index := f] && f != g
  {
    var none: seq<Row> := [];
    assert [x][..0] == none && [y, z][..1] == [y] && [y][..0] == none;
    var f, g := LineMatch.Line(x.index, LineMatch.Fingerprint(x.content, x.context)),
                LineMatch.Line(y.index, LineMatch.Fingerprint(y.content, y.context));
    var h := LineMatch.Line(z.index, f.fp);
    assert LinesOf([x]) == [f] && LinesOf([y]) == [g] && LinesOf([y, z]) == [g, h];
    assert [f][..0] == [] && [g, h][..1] == [g] && [g][..0] == [];
  }

  lemma {:induction false} InsertedMatch(x: Row, y: Row, z: Row)
    requires InsertedBefore(x, y, z)
    ensures LineMatch.IsMatch(LinesOf([x]), LinesOf([y, z]), [LineMatch.Pair(x.index, z.index)], [x.index])
  {
    InsertedPrints(x, y, z);
    var p := LineMatch.Pair(x.index, z.index);
    var one: seq<Pair> := [p];
    assert Elems(one) == {p};
    assert Elems([x.index]) == {x.index};
    assert LineMatch.News({p}) == {z.index} && LineMatch.Olds({p}) == {x.index};
    assert map[x.index := LineMatch.Fingerprint(y.content, y.context),
        z.index := LineMatch.Fingerprint(x.content, x.context)].Keys
        - {z.index} == {x.index};
    assert one[..0] == [];
  }

  lemma {:induction false} InsertedPlan(b: Book, s: Shelf, e: Edit, d: Delta, x: Row, y: Row, z: Row)
    requires e.Edit? && Plans(b, s, e, d) && e.rows == [y, z] && InsertedBefore(x, y, z)
    requires Stored(s, e).Some? && Stored(s, e).value.baseline.lines == LinesOf([x])
    requires !b.placedByDafHeadings && !RequiresContext(b, e.rows)
    ensures d.reuse == [LineMatch.Pair(x.index, z.index)] && Sent(d.ner) == {x.index} && d.context.None?
  {
    var prior := Stored(s, e).value.baseline;
    var ner: seq<nat> :| LineMatch.IsMatch(prior.lines, LinesOf(e.rows), d.reuse, ner)
                         && d == Delta(d.reuse, Ranges.Coalesce(Elems(ner)), |e.rows|, prior.artifact, None);
    InsertedMatch(x, y, z);
    LineMatch.MatchUnique(prior.lines, LinesOf(e.rows), d.reuse, ner, [LineMatch.Pair(x.index, z.index)], [x.index]);
    SentCoalesce(Elems(ner));
    assert Elems([x.index]) == {x.index};
  }

  /** No link of a from-scratch artifact stands on a line without entities. */
  lemma {:induction false} NoLinkOnInert(b: Book, rows: seq<Row>, j: nat)
    requires Ordered(rows) && j < |rows| && !HasEntity(b, rows[j])
    ensures forall r :: r in FreshArtifact(b, rows) ==> r.line != rows[j].index
  {
    var stateful := RequiresContext(b, rows);
    var p := LinesPass(b, rows, stateful, None);
    EmitLinesPass(b, rows, stateful, None);
    InertLine(b, rows, stateful, None, rows[j]);
    forall r | r in FreshArtifact(b, rows) ensures r.line != rows[j].index {
      SortMembers(Emitted(p, rows), r);
      OfKeyMember(Emitted(p, rows), r);
      if r.line == rows[j].index { EmittedKey(p, rows, j, KeyOf(r)); }
    }
  }

  lemma {:induction false} InsertedReuse(b: Book, reuse: seq<Pair>, x: Row, y: Row, z: Row)
    requires InsertedBefore(x, y, z) && !HasEntity(b, y) && reuse == [LineMatch.Pair(x.index, z.index)]
    ensures ProbeInert(b, [y, z], {x.index})
    ensures forall r :: r in FreshArtifact(b, [y, z]) ==> r.line !in ReuseByOld(reuse)
  {
    NoLinkOnInert(b, [y, z], 0);
    ReuseByOldAt(reuse);
  }

  lemma {:induction false} InsertedForgets(b: Book, s: Shelf, e: Edit, d: Delta, x: Row, y: Row, z: Row)
    requires e.Edit? && Plans(b, s, e, d) && e.rows == [y, z] && InsertedBefore(x, y, z)
    requires Stored(s, e).Some? && Accurate(b, Stored(s, e).value) && Stored(s, e).value.rows == [x] && InStep(s)
    requires HistoryFree(b) && !b.placedByDafHeadings && !RequiresContext(b, e.rows) && !HasEntity(b, y)
    requires e.ner.Live? && e.lives == [Settled, Done]
    ensures !Gated(d, s.file) && Relinked(b, e.rows, d, e.ner, s.file, e.lives) == Output(None, true)
  {
    InsertedPlan(b, s, e, d, x, y, z);
    GateExactly(b, s, e, d);
    InsertedReuse(b, d.reuse, x, y, z);
    LateKillForgets(b, s, e, d);
  }

  /** So a line without entities put before the only line of a book, linked live and killed late once,
      is enough to publish the book without its links; the gate and every check pass. */
  lemma {:induction false} InsertedLineLosesLinks(engines: nat -> Book, run: Run, was: Shelf, now: Shelf, x: Row,
      y: Row, z: Row)
    requires was.published.Some? && StandsAccurate(engines, was.published) && InStep(was)
    requires was.published.value.rows == [x] && InsertedBefore(x, y, z)
    requires run.edit == Edit(was.published.value.fingerprint, [y, z], true, Live, [Settled, Done]) && run.peers.Fine?
    requires var b := engines(was.published.value.fingerprint);
      && HistoryFree(b) && !b.placedByDafHeadings && !HasEntity(b, y)
      && !b.linker.mentionsIbid(x.content) && !b.linker.mentionsIbid(y.content)
    requires Follows(engines, run, was, now)
    ensures now.file == None && InStep(now) && now.published.Some? && now.published.value.rows == [y, z]
    ensures StandsAccurate(engines, now.published) <==>
      FreshArtifact(engines(was.published.value.fingerprint), [y, z]) == []
  {
    var s, e := Found(was, run), run.edit;
    var b := engines(e.fingerprint);
    assert Relinks(b, s, e, true, now);
    var d := RelinksUnder(b, s, e, true, now);
    InsertedForgets(b, s, e, d, x, y, z);
  }

  // ---------------------------------------------------------------------------------------
  // Any sequence of runs
  // ---------------------------------------------------------------------------------------

  const EMPTY: Shelf := Shelf(None, None)

  /** What stood on the shelf before run k. */
  function Before(shelves: seq<Shelf>, k: nat): Shelf
    requires k <= |shelves|
  {
    if k == 0 then EMPTY else shelves[k - 1]
  }

  ghost predicate Welcome(engines: nat -> Book, run: Run) {
    run.edit.Edit? ==> Ordered(run.edit.rows) && HistoryFree(engines(run.edit.fingerprint))
  }

  /** A run in a restored store, in which no live book is done after a life of it was killed late. */
  predicate Restored(run: Run) {
    && run.restored
    && (run.edit.Edit? ==> run.edit.ner.Handed? || !KilledLate(run.edit.lives) || Done !in run.edit.lives)
  }

  /** The digest gate never fires in a restored store. */
  lemma {:induction false} RestoredIsClear(engines: nat -> Book, run: Run, was: Shelf, now: Shelf)
    requires run.edit.Edit? && Delivers(Found(was, run), run) && Welcome(engines, run) && Restored(run)
    requires StandsTruthful(engines, was.published) && Follows(engines, run, was, now)
    ensures Clear(engines(run.edit.fingerprint), Found(was, run), run.edit)
  {
    var s, e := Found(was, run), run.edit;
    if !Unchanged(s, e) {
      var b := engines(e.fingerprint);
      var d :| Plans(b, s, e, d);
      GateExactly(b, s, e, d);
    }
  }

  /** Run k as it went; and if every run so far found its store restored, it served. */
  ghost predicate History(engines: nat -> Book, runs: seq<Run>, shelves: seq<Shelf>, k: nat)
    requires k < |runs| && k < |shelves| && Welcome(engines, runs[k])
  {
    && Follows(engines, runs[k], Before(shelves, k), shelves[k])
    && StandsTruthful(engines, shelves[k].published)
    && (AllRestored(runs, k + 1) ==> Serves(engines, runs[k], Before(shelves, k), shelves[k]))
  }

  predicate AllRestored(runs: seq<Run>, n: nat)
    requires n <= |runs|
  {
    forall k :: 0 <= k < n ==> Restored(runs[k])
  }

  lemma {:induction false} NextRun(engines: nat -> Book, runs: seq<Run>, shelves: seq<Shelf>, now: Shelf)
    requires |shelves| < |runs| && Welcome(engines, runs[|shelves|])
    requires StandsTruthful(engines, Before(shelves, |shelves|).published)
    requires AllRestored(runs, |shelves|) ==> StandsAccurate(engines, Before(shelves, |shelves|).published)
    requires Follows(engines, runs[|shelves|], Before(shelves, |shelves|), now)
    ensures History(engines, runs, shelves + [now], |shelves|)
  {
    var k, was := |shelves|, Before(shelves, |shelves|);
    assert Before(shelves + [now], k) == was;
    StaysTruthful(engines, runs[k], was, now);
    if AllRestored(runs, k + 1) {
      assert AllRestored(runs, k);
      if runs[k].edit.Edit? && Delivers(Found(was, runs[k]), runs[k]) {
        RestoredIsClear(engines, runs[k], was, now);
      }
      ClearRunServes(engines, runs[k], was, now);
    }
  }

  /** Over any sequence of runs nothing untrue is recorded about any line. If every run finds its store
      restored and no live book is killed late, every run that does its work publishes a from-scratch
      link of the current lines, and any other leaves standing what was published. */
  method RunReleases(engines: nat -> Book, runs: seq<Run>) returns (shelves: seq<Shelf>)
    requires forall k :: 0 <= k < |runs| ==> Welcome(engines, runs[k])
    ensures |shelves| == |runs|
    ensures forall k :: 0 <= k < |runs| ==> History(engines, runs, shelves, k)
  {
    shelves := [];
    for k := 0 to |runs|
      invariant |shelves| == k
      invariant forall j :: 0 <= j < k ==> History(engines, runs, shelves, j)
      invariant StandsTruthful(engines, Before(shelves, k).published)
      invariant AllRestored(runs, k) ==> StandsAccurate(engines, Before(shelves, k).published)
    {
      var now := RunRelease(engines, runs[k], Before(shelves, k));
      NextRun(engines, runs, shelves, now);
      KeepsHistories(engines, runs, shelves, now);
      shelves := shelves + [now];
    }
  }

  lemma {:induction false} KeepsHistories(engines: nat -> Book, runs: seq<Run>, shelves: seq<Shelf>, now: Shelf)
    requires |shelves| < |runs| && forall k :: 0 <= k < |runs| ==> Welcome(engines, runs[k])
    requires forall j :: 0 <= j < |shelves| ==> History(engines, runs, shelves, j)
    ensures forall j :: 0 <= j < |shelves| ==> History(engines, runs, shelves + [now], j)
  {
    forall j | 0 <= j < |shelves| ensures History(engines, runs, shelves + [now], j) {
      assert History(engines, runs, shelves, j);
      assert (shelves + [now])[j] == shelves[j] && Before(shelves + [now], j) == Before(shelves, j);
    }
  }
}
