/** The NER producer of one book: `_produce_layout`, `_produce_book`, `_prepare_root` and the worker's
    failure path, on a disk where a crash can fall between any two writes. */
module Producer {
  import opened Prelude
  import opened Transport
  import opened Ibid
  import opened ContextProbe
  import Ranges

  type Layout = seq<Ranges.Range>

  /** NER's answer for one line, and the stored answers of one transport batch. */
  datatype LineResult = LineResult(index: nat, entities: seq<string>)
  datatype Sheet = Sheet(start: nat, lines: seq<LineResult>)

  /** `partial_manifest.json` and `book_manifest.json`: the line plan and its batch descriptors. */
  datatype Manifest = Manifest(layout: Layout, sheets: seq<Sheet>)

  function Answers(b: Book, rows: seq<Row>): seq<LineResult> {
    seq(|rows|, k requires 0 <= k < |rows| => LineResult(rows[k].index, b.linker.entities(rows[k].content)))
  }

  function SheetsOf(b: Book, bs: seq<Batch>): (sheets: seq<Sheet>)
    ensures |sheets| == |bs|
  {
    if bs == [] then []
    else SheetsOf(b, bs[..|bs| - 1]) + [Sheet(bs[|bs| - 1].start, Answers(b, bs[|bs| - 1].rows))]
  }

  function Results(sheets: seq<Sheet>): seq<LineResult> {
    if sheets == [] then [] else Results(sheets[..|sheets| - 1]) + sheets[|sheets| - 1].lines
  }

  predicate AnyEntity(lines: seq<LineResult>) {
    lines != [] && (AnyEntity(lines[..|lines| - 1]) || lines[|lines| - 1].entities != [])
  }

  function LayoutBatches(b: Book, rows: seq<Row>, layout: Layout): seq<Batch> {
    Batches(rows, Selection(Some(Sent(layout)), b.linker.eligible), b.limits)
  }

  function LayoutSheets(b: Book, rows: seq<Row>, layout: Layout): seq<Sheet> {
    SheetsOf(b, LayoutBatches(b, rows, layout))
  }

  function Starts(sheets: seq<Sheet>): set<nat> {
    if sheets == [] then {} else Starts(sheets[..|sheets| - 1]) + {sheets[|sheets| - 1].start}
  }

  /** `by_start.get(start)` */
  function ByStart(sheets: seq<Sheet>, start: nat): Option<Sheet> {
    if sheets == [] then None
    else if sheets[|sheets| - 1].start == start then Some(sheets[|sheets| - 1])
    else ByStart(sheets[..|sheets| - 1], start)
  }

  // ---------------------------------------------------------------------------------------
  // Batches, sheets and the entities in them
  // ---------------------------------------------------------------------------------------

  lemma {:induction false} AnyEntityAppend(a: seq<LineResult>, c: seq<LineResult>)
    ensures AnyEntity(a + c) <==> AnyEntity(a) || AnyEntity(c)
  {
    if c == [] {
      assert a + c == a;
    } else {
      AnyEntityAppend(a, c[..|c| - 1]);
      assert (a + c)[..|a + c| - 1] == a + c[..|c| - 1];
    }
  }

  lemma {:induction false} AnswersAppend(b: Book, a: seq<Row>, c: seq<Row>)
    ensures Answers(b, a + c) == Answers(b, a) + Answers(b, c)
  {}

  lemma {:induction false} ResultsAppend(sheets: seq<Sheet>, sheet: Sheet)
    ensures Results(sheets + [sheet]) == Results(sheets) + sheet.lines
    ensures Starts(sheets + [sheet]) == Starts(sheets) + {sheet.start}
  {
    assert (sheets + [sheet])[..|sheets|] == sheets;
  }

  /** The sheets hold the answers to all rows sent, in order. */
  lemma {:induction false} SheetsAnswer(b: Book, bs: seq<Batch>)
    ensures Results(SheetsOf(b, bs)) == Answers(b, Flatten(bs))
  {
    if bs == [] {
    } else {
      SheetsAnswer(b, bs[..|bs| - 1]);
      AnswersAppend(b, Flatten(bs[..|bs| - 1]), bs[|bs| - 1].rows);
      ResultsAppend(SheetsOf(b, bs[..|bs| - 1]), Sheet(bs[|bs| - 1].start, Answers(b, bs[|bs| - 1].rows)));
    }
  }

  lemma {:induction false} SheetAt(b: Book, bs: seq<Batch>, k: nat)
    requires k < |bs|
    ensures SheetsOf(b, bs)[k] == Sheet(bs[k].start, Answers(b, bs[k].rows))
  {
    if k < |bs| - 1 { SheetAt(b, bs[..|bs| - 1], k); }
  }

  lemma {:induction false} ChosenAnswers(b: Book, rows: seq<Row>, lines: set<nat>)
    ensures AnyEntity(Answers(b, Chosen(rows, Selection(Some(lines), b.linker.eligible)))) <==>
        !ProbeInert(b, rows, lines)
  {
    if rows == [] {
    } else {
      var init, row := rows[..|rows| - 1], rows[|rows| - 1];
      var sel := Selection(Some(lines), b.linker.eligible);
      ChosenAnswers(b, init, lines);
      AnswersAppend(b, Chosen(init, sel), [row]);
      assert Answers(b, [row]) == [LineResult(row.index, b.linker.entities(row.content))];
      AnyEntityAppend(Answers(b, Chosen(init, sel)), Answers(b, [row]));
      InertStep(b, rows, lines);
    }
  }

  lemma {:induction false} InertStep(b: Book, rows: seq<Row>, lines: set<nat>)
    requires rows != []
    ensures var init, row := rows[..|rows| - 1], rows[|rows| - 1];
            ProbeInert(b, rows, lines) <==> ProbeInert(b, init, lines) && !(row.index in lines && HasEntity(b, row))
  {
    var init := rows[..|rows| - 1];
    forall k | 0 <= k < |init| ensures init[k] == rows[k] {}
    if ProbeInert(b, rows, lines) {
      forall k | 0 <= k < |init| && init[k].index in lines ensures !HasEntity(b, init[k]) {
        assert rows[k].index in lines;
      }
    }
  }

  /** Some sheet of a layout reports an entity exactly when some line it sends has one. */
  lemma {:induction false} LayoutEntities(b: Book, rows: seq<Row>, layout: Layout)
    ensures AnyEntity(Results(LayoutSheets(b, rows, layout))) <==> !ProbeInert(b, rows, Sent(layout))
  {
    SheetsAnswer(b, LayoutBatches(b, rows, layout));
    BatchesCut(rows, Selection(Some(Sent(layout)), b.linker.eligible), b.limits);
    ChosenAnswers(b, rows, Sent(layout));
  }

  lemma {:induction false} ByStartPrefix(sheets: seq<Sheet>, m: nat, k: nat)
    requires m <= |sheets| && k < |sheets|
    requires forall i, j :: 0 <= i < j < |sheets| ==> sheets[i].start < sheets[j].start
    ensures ByStart(sheets[..m], sheets[k].start) == if k < m then Some(sheets[k]) else None
  {
    if m == 0 {
    } else {
      assert sheets[..m][..m - 1] == sheets[..m - 1];
      ByStartPrefix(sheets, m - 1, k);
    }
  }

  // ---------------------------------------------------------------------------------------
  // The disk and the program
  // ---------------------------------------------------------------------------------------

  /** Every descriptor's file is there with the recorded content. */
  predicate Verified(sheets: seq<Sheet>, files: map<nat, Sheet>) {
    forall i :: 0 <= i < |sheets| ==> sheets[i].start in files && files[sheets[i].start] == sheets[i]
  }

  lemma {:induction false} VerifiedStep(sheets: seq<Sheet>, k: nat, files: map<nat, Sheet>)
    requires k < |sheets|
    requires forall i, j :: 0 <= i < j < |sheets| ==> sheets[i].start < sheets[j].start
    requires Verified(sheets[..k], files)
    ensures Verified(sheets[..k + 1], files[sheets[k].start := sheets[k]])
    ensures sheets[k].start in files && files[sheets[k].start] == sheets[k] ==> Verified(sheets[..k + 1], files)
  {
    VerifiedKeep(sheets[..k], files, sheets[k]);
  }

  lemma {:induction false} VerifiedKeep(sheets: seq<Sheet>, files: map<nat, Sheet>, sheet: Sheet)
    requires forall i :: 0 <= i < |sheets| ==> sheets[i].start < sheet.start
    requires Verified(sheets, files)
    ensures Verified(sheets, files[sheet.start := sheet])
  {}

  lemma {:induction false} FileAdded(sheets: seq<Sheet>, files: map<nat, Sheet>, sheet: Sheet)
    requires forall i :: 0 <= i < |sheets| ==> sheets[i].start < sheet.start
    requires Verified(sheets, files)
    ensures Verified(sheets, files[sheet.start := sheet])
    ensures Verified(sheets + [sheet], files[sheet.start := sheet])
  {
    VerifiedKeep(sheets, files, sheet);
  }

  /** One life of a worker on a book: still going or finished, killed, or stopped by an error. */
  datatype Outcome = Going | Crashed | Failed

  /** What one planned layout promises once every batch is in. */
  lemma {:induction false} LayoutStarts(b: Book, rows: seq<Row>, layout: Layout)
    ensures var all, bs := LayoutSheets(b, rows, layout), LayoutBatches(b, rows, layout);
      && (forall i, j :: 0 <= i < j < |all| ==> all[i].start < all[j].start)
      && forall k :: 0 <= k < |all| ==> all[k].start == bs[k].start
  {
    var bs := LayoutBatches(b, rows, layout);
    BatchStarts(rows, Selection(Some(Sent(layout)), b.linker.eligible), b.limits);
    forall k | 0 <= k < |bs| ensures LayoutSheets(b, rows, layout)[k].start == bs[k].start { SheetAt(b, bs, k); }
  }

  /** `_produce_layout` before batch k, having resumed a ledger of m sheets. */
  ghost predicate Progress(all: seq<Sheet>, k: nat, m: nat, sheets: seq<Sheet>, hasEntity: bool, starts: set<nat>,
      files: map<nat, Sheet>)
  {
    && k <= |all| && m <= |all|
    && sheets == all[..if k < m then m else k]
    && hasEntity == AnyEntity(Results(all[..k]))
    && starts == Starts(all[..k])
    && Verified(all[..k], files)
  }

  lemma {:induction false} ProgressStep(all: seq<Sheet>, k: nat, m: nat, sheets: seq<Sheet>, hasEntity: bool,
      starts: set<nat>, files: map<nat, Sheet>)
    requires Progress(all, k, m, sheets, hasEntity, starts, files) && k < |all|
    requires forall i, j :: 0 <= i < j < |all| ==> all[i].start < all[j].start
    ensures ByStart(sheets, all[k].start) == if k < m then Some(all[k]) else None
    ensures k >= m ==> sheets + [all[k]] <= all
    ensures var has, more := hasEntity || AnyEntity(all[k].lines), starts + {all[k].start};
      && (k < m && all[k].start in files && files[all[k].start] == all[k] ==>
          Progress(all, k + 1, m, sheets, has, more, files))
      && (k >= m ==> Progress(all, k + 1, m, sheets + [all[k]], has, more, files[all[k].start := all[k]]))
  {
    assert all[..k + 1] == all[..k] + [all[k]];
    ResultsAppend(all[..k], all[k]);
    AnyEntityAppend(Results(all[..k]), all[k].lines);
    VerifiedStep(all, k, files);
    ByStartPrefix(all, |sheets|, k);
  }

  /** A sheet already in the ledger is on disk. */
  lemma {:induction false} VerifiedAt(all: seq<Sheet>, k: nat, m: nat, sheets: seq<Sheet>, files: map<nat, Sheet>)
    requires k < |all| && m <= |all| && sheets == all[..if k < m then m else k] && Verified(sheets, files)
    requires forall i, j :: 0 <= i < j < |all| ==> all[i].start < all[j].start
    requires ByStart(sheets, all[k].start).Some?
    ensures ByStart(sheets, all[k].start) == Some(all[k]) && all[k].start in files && files[all[k].start] == all[k]
    ensures k < m
  {
    ByStartPrefix(all, |sheets|, k);
  }

  /** Verified again, it is one more batch done. */
  lemma {:induction false} SheetKept(all: seq<Sheet>, k: nat, m: nat, sheets: seq<Sheet>, hasEntity: bool,
      starts: set<nat>, files: map<nat, Sheet>)
    requires Progress(all, k, m, sheets, hasEntity, starts, files) && k < |all| && Verified(sheets, files)
    requires forall i, j :: 0 <= i < j < |all| ==> all[i].start < all[j].start
    requires ByStart(sheets, all[k].start).Some?
    ensures ByStart(sheets, all[k].start) == Some(all[k]) && all[k].start in files && files[all[k].start] == all[k]
    ensures Progress(all, k + 1, m, sheets, hasEntity || AnyEntity(all[k].lines), starts + {all[k].start}, files)
  {
    ProgressStep(all, k, m, sheets, hasEntity, starts, files);
    VerifiedAt(all, k, m, sheets, files);
  }

  /** A sheet not in the ledger comes right after those that are. */
  lemma {:induction false} NewSheet(all: seq<Sheet>, k: nat, m: nat, sheets: seq<Sheet>, files: map<nat, Sheet>)
    requires k < |all| && m <= |all| && sheets == all[..if k < m then m else k] && Verified(sheets, files)
    requires forall i, j :: 0 <= i < j < |all| ==> all[i].start < all[j].start
    requires ByStart(sheets, all[k].start).None?
    ensures k >= m && sheets == all[..k] && sheets + [all[k]] <= all
    ensures Verified(sheets, files[all[k].start := all[k]])
    ensures Verified(sheets + [all[k]], files[all[k].start := all[k]])
  {
    ByStartPrefix(all, |sheets|, k);
    FileAdded(sheets, files, all[k]);
  }

  lemma {:induction false} ProgressDone(all: seq<Sheet>, m: nat, sheets: seq<Sheet>, hasEntity: bool, starts: set<nat>,
      files: map<nat, Sheet>)
    requires Progress(all, |all|, m, sheets, hasEntity, starts, files)
    ensures sheets == all && starts == Starts(sheets) && Verified(sheets, files)
    ensures hasEntity == AnyEntity(Results(all))
  {
    assert all[..|all|] == all;
  }

  /** `_accepted_layouts` */
  predicate Accepted(ner: Layout, context: Option<Layout>, layout: Layout) {
    layout == ner || (context.Some? && layout == context.value)
  }

  /** The whole book is covered only because a probed line has an entity. */
  ghost predicate Warranted(b: Book, rows: seq<Row>, ner: Layout, context: Option<Layout>, layout: Layout) {
    Accepted(ner, context, layout) && (layout != ner ==> !ProbeInert(b, rows, Sent(ner)))
  }

  /** A book fit to be handed over: one warranted layout in full, and a narrow probe only if inert. */
  ghost predicate Complete(b: Book, rows: seq<Row>, ner: Layout, context: Option<Layout>, m: Manifest) {
    && Warranted(b, rows, ner, context, m.layout)
    && m.sheets == LayoutSheets(b, rows, m.layout)
    && (context.Some? && m.layout == ner ==> ProbeInert(b, rows, Sent(ner)))
  }

  /** What a producer that is never interrupted hands over. */
  function Produced(b: Book, rows: seq<Row>, ner: Layout, context: Option<Layout>): Manifest {
    var narrow := LayoutSheets(b, rows, ner);
    if context.Some? && AnyEntity(Results(narrow)) then Manifest(context.value, LayoutSheets(b, rows, context.value))
    else Manifest(ner, narrow)
  }

  /** There is just one book fit to be handed over. */
  lemma {:induction false} CompleteIsProduced(b: Book, rows: seq<Row>, ner: Layout, context: Option<Layout>,
      m: Manifest)
    requires context.Some? ==> Sent(ner) < Sent(context.value)
    ensures Complete(b, rows, ner, context, m) <==> m == Produced(b, rows, ner, context)
  {
    LayoutEntities(b, rows, ner);
  }

  /** A book fit to be handed over holds NER's own answer to every eligible line of its layout, in order. */
  lemma {:induction false} CompleteAnswers(b: Book, rows: seq<Row>, ner: Layout, context: Option<Layout>, m: Manifest)
    requires Complete(b, rows, ner, context, m)
    ensures var sent, told := Chosen(rows, Selection(Some(Sent(m.layout)), b.linker.eligible)), Results(m.sheets);
      && |told| == |sent|
      && forall k :: 0 <= k < |sent| ==>
        told[k].index == sent[k].index && told[k].entities == b.linker.entities(sent[k].content)
  {
    SheetsAnswer(b, LayoutBatches(b, rows, m.layout));
    BatchesCut(rows, Selection(Some(Sent(m.layout)), b.linker.eligible), b.limits);
  }

  // ---------------------------------------------------------------------------------------
  // What can happen to an attempt
  // ---------------------------------------------------------------------------------------

  /** A directory is removed whole, or a kill leaves these files, and its manifest or not. */
  datatype Removal = Whole | Cut(left: set<nat>, listed: bool)

  /** What happens at one batch to be sent: it is answered and recorded; the service fails twice; a kill
      before the file, between file and ledger, or after the ledger. */
  datatype SheetFate = Answered | Unanswered | KilledUnwritten | KilledUnlisted | KilledListed

  /** The two markers of a failed book are cleared, or a kill falls between them, or after both. */
  datatype Clearing = Cleared | KilledBetween | KilledCleared

  /** Publishing goes through, or a kill falls before the ledger is dropped, after that, or after the
      book is in place. */
  datatype Publishing = InPlace | KilledListing | KilledDelisted | KilledPublished

  /** A failure is recorded, or a kill falls before it is, or between its two markers. */
  datatype Recording = Noted | KilledUnrecorded | KilledHalfRecorded

  /** What happens to one attempt, in order. What does not apply has no effect. */
  datatype Attempt = Attempt(clearing: Clearing, unpublishing: Removal, sweeping: Removal, starting: Removal,
                             narrow: seq<SheetFate>, widening: Removal, killedWidening: bool, wide: seq<SheetFate>,
                             publishing: Publishing, replacing: Removal, recording: Recording)
  {
    /** Nothing happens to it. */
    predicate Quiet() {
      && clearing.Cleared? && unpublishing.Whole? && sweeping.Whole? && starting.Whole? && AllAnswered(narrow)
      && widening.Whole? && !killedWidening && AllAnswered(wide)
      && publishing.InPlace? && replacing.Whole? && recording.Noted?
    }

    /** A kill between the two markers of a failed book, or while a narrow checkpoint is removed. */
    predicate Strands() {
      clearing.KilledBetween? || widening.Cut?
    }
  }

  predicate AllAnswered(fates: seq<SheetFate>) {
    forall k :: 0 <= k < |fates| ==> fates[k].Answered?
  }

  function FateAt(fates: seq<SheetFate>, k: nat): SheetFate {
    if k < |fates| then fates[k] else Answered
  }

  predicate NoneStrands(attempts: seq<Attempt>) {
    attempts == [] || (NoneStrands(attempts[..|attempts| - 1]) && !attempts[|attempts| - 1].Strands())
  }

  predicate SomeQuiet(attempts: seq<Attempt>) {
    attempts != [] && (SomeQuiet(attempts[..|attempts| - 1]) || attempts[|attempts| - 1].Quiet())
  }

  class BookDisk {
    const b: Book
    const rows: seq<Row>
    const ner: Layout
    const context: Option<Layout>
    var partialDir: bool
    var files: map<nat, Sheet>
    var ledger: Option<Manifest>
    var out: Option<Manifest>
    var outFiles: map<nat, Sheet>
    var done: bool
    var failed: bool

    /** `validate_context_ranges`: a probe escalates to a strict superset of its lines. */
    ghost predicate PlanValid() {
      context.Some? ==> Sent(ner) < Sent(context.value)
    }

    /** The plan selects lines of the book only. */
    ghost predicate PlanInBook() {
      Sent(ner) <= Elems(Indices(rows)) && (context.Some? ==> Sent(context.value) <= Elems(Indices(rows)))
    }

    ghost predicate Valid()
      reads this
    {
      && PlanValid()
      && (ledger.Some? ==>
            && partialDir && Warranted(b, rows, ner, context, ledger.value.layout)
            && ledger.value.sheets <= LayoutSheets(b, rows, ledger.value.layout))
      && (out.Some? ==> Complete(b, rows, ner, context, out.value))
    }

    /** Every batch the ledger names is there. */
    predicate Backed()
      reads this`ledger, this`files
    {
      ledger.Some? ==> Verified(ledger.value.sheets, files)
    }

    /** A book finished for good. */
    predicate Good()
      reads this`done, this`failed, this`out, this`outFiles
    {
      done && !failed && out.Some? && Verified(out.value.sheets, outFiles)
    }

    /** Marked done and not failed, with no whole book to show for it: every attempt is refused from here on. */
    predicate Stranded()
      reads this`done, this`failed, this`out, this`outFiles
    {
      done && !failed && !(out.Some? && Verified(out.value.sheets, outFiles))
    }

    /** The next attempt can go on from here: a clean completed book is whole, and so is any other book's
        checkpoint. */
    predicate Resumable()
      reads this`done, this`failed, this`out, this`outFiles, this`ledger, this`files
    {
      if done && !failed then Good() else Backed()
    }

    constructor (b: Book, rows: seq<Row>, ner: Layout, context: Option<Layout>)
      requires context.Some? ==> Sent(ner) < Sent(context.value)
      ensures Valid() && Resumable() && !done && out == None
      ensures this.b == b && this.rows == rows && this.ner == ner && this.context == context
    {
      this.b, this.rows, this.ner, this.context := b, rows, ner, context;
      partialDir, files, ledger := false, map[], None;
      out, outFiles := None, map[];
      done, failed := false, false;
    }

    /** `shutil.rmtree` of the partial directory; a kill may leave any part of it. */
    method RemovePartial(how: Removal) returns (crashed: bool)
      requires Valid()
      modifies this`partialDir, this`files, this`ledger
      ensures Valid() && (crashed <==> how.Cut?)
      ensures !crashed ==> !partialDir && files == map[] && ledger == None
      ensures crashed ==> partialDir == old(partialDir) && (ledger == old(ledger) || ledger == None)
    {
      if how.Cut? {
        files := map k | k in files && k in how.left :: files[k];
        if !how.listed { ledger := None; }
        return true;
      }
      partialDir, files, ledger := false, map[], None;
      return false;
    }

    /** The same for the published directory. */
    method RemovePublished(how: Removal) returns (crashed: bool)
      requires Valid()
      modifies this`out, this`outFiles
      ensures Valid() && (crashed <==> how.Cut?)
      ensures !crashed ==> out == None && outFiles == map[]
    {
      if how.Cut? {
        outFiles := map k | k in outFiles && k in how.left :: outFiles[k];
        if !how.listed { out := None; }
        return true;
      }
      out, outFiles := None, map[];
      return false;
    }

    /** Ask NER, write the batch, then the ledger naming it. */
    method CommitBatch(layout: Layout, sheets: seq<Sheet>, sheet: Sheet, fate: SheetFate) returns (outcome: Outcome)
      requires Valid() && partialDir && Warranted(b, rows, ner, context, layout)
      requires sheets + [sheet] <= LayoutSheets(b, rows, layout)
      modifies this`files, this`ledger
      ensures Valid()
      ensures outcome == if fate.Answered? then Going else if fate.Unanswered? then Failed else Crashed
      ensures files ==
        if fate.Unanswered? || fate.KilledUnwritten? then old(files) else old(files)[sheet.start := sheet]
      ensures ledger ==
        if fate.Answered? || fate.KilledListed? then Some(Manifest(layout, sheets + [sheet])) else old(ledger)
    {
      if fate.Unanswered? { return Failed; }
      if fate.KilledUnwritten? { return Crashed; }
      files := files[sheet.start := sheet];
      if fate.KilledUnlisted? { return Crashed; }
      ledger := Some(Manifest(layout, sheets + [sheet]));
      return if fate.KilledListed? then Crashed else Going;
    }

    /** A batch that is not in the ledger: ask for it and commit it. */
    method AskBatch(layout: Layout, ghost all: seq<Sheet>, ghost m: nat, bs: seq<Batch>, k: nat, fate: SheetFate,
        sheets: seq<Sheet>, ghost hasEntity: bool, ghost starts: set<nat>)
        returns (outcome: Outcome, sheet: Sheet)
      requires Valid() && partialDir && Warranted(b, rows, ner, context, layout)
      requires bs == LayoutBatches(b, rows, layout) && all == LayoutSheets(b, rows, layout) && k < |bs|
      requires Progress(all, k, m, sheets, hasEntity, starts, files) && Verified(sheets, files) && Backed()
      requires ByStart(sheets, bs[k].start).None? && (ledger.Some? ==> ledger.value == Manifest(layout, sheets))
      modifies this`files, this`ledger
      ensures Valid() && Backed() && sheet == all[k]
      ensures fate.Answered? ==> outcome.Going?
      ensures outcome.Going? ==>
        && Progress(all, k + 1, m, sheets + [sheet], hasEntity || AnyEntity(sheet.lines), starts + {sheet.start}, files)
        && Verified(sheets + [sheet], files) && ledger == Some(Manifest(layout, sheets + [sheet]))
    {
      sheet := Sheet(bs[k].start, Answers(b, bs[k].rows));
      LayoutStarts(b, rows, layout);
      SheetAt(b, bs, k);
      ProgressStep(all, k, m, sheets, hasEntity, starts, files);
      NewSheet(all, k, m, sheets, files);
      outcome := CommitBatch(layout, sheets, sheet, fate);
    }

    /** A batch in the ledger is verified again. */
    method KeepBatch(layout: Layout, ghost all: seq<Sheet>, ghost m: nat, k: nat, sheet: Sheet,
        sheets: seq<Sheet>, ghost hasEntity: bool, ghost starts: set<nat>)
        returns (outcome: Outcome)
      requires all == LayoutSheets(b, rows, layout) && k < |all| && ByStart(sheets, all[k].start) == Some(sheet)
      requires Progress(all, k, m, sheets, hasEntity, starts, files) && Verified(sheets, files)
      ensures outcome.Going? && sheet.start == all[k].start
      ensures Progress(all, k + 1, m, sheets, hasEntity || AnyEntity(sheet.lines), starts + {sheet.start}, files)
    {
      LayoutStarts(b, rows, layout);
      SheetKept(all, k, m, sheets, hasEntity, starts, files);
      if sheet.start !in files || files[sheet.start] != sheet {
        return Failed;
      }
      return Going;
    }

    /** One batch of `_produce_layout`: verify it if it is in the ledger, else ask for it. */
    method ProduceBatch(layout: Layout, ghost m: nat, bs: seq<Batch>, k: nat, fate: SheetFate,
        sheets: seq<Sheet>, hasEntity: bool, expectedStarts: set<nat>)
        returns (outcome: Outcome, moreSheets: seq<Sheet>, nowEntity: bool, moreStarts: set<nat>)
      requires Valid() && partialDir && Warranted(b, rows, ner, context, layout) && bs == LayoutBatches(b, rows, layout)
      requires k < |bs| && Progress(LayoutSheets(b, rows, layout), k, m, sheets, hasEntity, expectedStarts, files)
      requires Backed() && (ledger.Some? ==> ledger.value == Manifest(layout, sheets))
      requires Verified(sheets, files)
      modifies this`files, this`ledger
      ensures Valid() && Backed()
      ensures fate.Answered? ==> outcome.Going?
      ensures outcome.Going? ==>
        && Progress(LayoutSheets(b, rows, layout), k + 1, m, moreSheets, nowEntity, moreStarts, files)
        && Verified(moreSheets, files) && (ledger.Some? ==> ledger.value == Manifest(layout, moreSheets))
    {
      ghost var all := LayoutSheets(b, rows, layout);
      LayoutStarts(b, rows, layout);
      moreSheets := sheets;
      var existing := ByStart(sheets, bs[k].start);
      var sheet;
      if existing.Some? {
        sheet := existing.value;
        outcome := KeepBatch(layout, all, m, k, sheet, sheets, hasEntity, expectedStarts);
      } else {
        outcome, sheet := AskBatch(layout, all, m, bs, k, fate, sheets, hasEntity, expectedStarts);
        moreSheets := sheets + [sheet];
      }
      nowEntity, moreStarts := hasEntity || AnyEntity(sheet.lines), expectedStarts + {bs[k].start};
    }

    /** The loop of `_produce_layout`. Appending keeps the ledger sorted, since batch starts increase. */
    method ProduceBatches(layout: Layout, resumed: seq<Sheet>, bs: seq<Batch>, fates: seq<SheetFate>)
        returns (outcome: Outcome, sheets: seq<Sheet>, hasEntity: bool, expectedStarts: set<nat>)
      requires Valid() && partialDir && Warranted(b, rows, ner, context, layout)
      requires resumed <= LayoutSheets(b, rows, layout) && bs == LayoutBatches(b, rows, layout)
      requires Backed() && Verified(resumed, files) && (ledger.Some? ==> ledger.value == Manifest(layout, resumed))
      modifies this`files, this`ledger
      ensures Valid() && Backed()
      ensures AllAnswered(fates) ==> outcome.Going?
      ensures outcome.Going? ==>
          Progress(LayoutSheets(b, rows, layout), |bs|, |resumed|, sheets, hasEntity, expectedStarts, files)
    {
      outcome, sheets, hasEntity, expectedStarts := Going, resumed, false, {};
      for k := 0 to |bs|
        invariant Valid() && partialDir && outcome.Going? && Backed() && Verified(sheets, files)
        invariant ledger.Some? ==> ledger.value == Manifest(layout, sheets)
        invariant Progress(LayoutSheets(b, rows, layout), k, |resumed|, sheets, hasEntity, expectedStarts, files)
      {
        outcome, sheets, hasEntity, expectedStarts :=
          ProduceBatch(layout, |resumed|, bs, k, FateAt(fates, k), sheets, hasEntity, expectedStarts);
        if !outcome.Going? { return; }
      }
    }

    method ProduceLayout(layout: Layout, resumed: seq<Sheet>, fates: seq<SheetFate>)
        returns (outcome: Outcome, sheets: seq<Sheet>, hasEntity: bool)
      requires Valid() && partialDir && Warranted(b, rows, ner, context, layout)
      requires if ledger.Some? then ledger.value == Manifest(layout, resumed) else resumed == []
      requires Backed() && Verified(resumed, files)
      modifies this`files, this`ledger
      ensures Valid() && Backed()
      ensures AllAnswered(fates) && Sent(layout) <= Elems(Indices(rows)) ==> outcome.Going?
      ensures outcome.Going? ==> sheets == LayoutSheets(b, rows, layout) && Verified(sheets, files)
      ensures outcome.Going? ==> (hasEntity <==> !ProbeInert(b, rows, Sent(layout)))
    {
      if !(Sent(layout) <= Elems(Indices(rows))) {
        return Failed, [], false;
      }
      var bs := TransportBatches(rows, Selection(Some(Sent(layout)), b.linker.eligible), b.limits);
      var expectedStarts;
      outcome, sheets, hasEntity, expectedStarts := ProduceBatches(layout, resumed, bs, fates);
      if outcome.Going? {
        ProgressDone(LayoutSheets(b, rows, layout), |resumed|, sheets, hasEntity, expectedStarts, files);
        LayoutEntities(b, rows, layout);
        if Starts(sheets) != expectedStarts {
          outcome := Failed;
        }
      }
    }

    /** Cover the whole book instead: the narrow checkpoint goes first. */
    method Widen(layout: Layout, a: Attempt) returns (outcome: Outcome, sheets: seq<Sheet>)
      requires Valid() && context == Some(layout) && Warranted(b, rows, ner, context, layout)
      modifies this`partialDir, this`files, this`ledger
      ensures Valid() && (!a.widening.Cut? ==> Backed())
      ensures a.Quiet() && PlanInBook() ==> outcome.Going?
      ensures outcome.Going? ==> sheets == LayoutSheets(b, rows, layout) && Verified(sheets, files)
    {
      sheets := [];
      var crashed := RemovePartial(a.widening);
      if crashed { return Crashed, sheets; }
      partialDir := true;
      if a.killedWidening { return Crashed, sheets; }
      var hasEntity;
      outcome, sheets, hasEntity := ProduceLayout(layout, [], a.wide);
    }

    /** The part of `_produce_book` that fills the partial directory. */
    method ProducePartial(a: Attempt) returns (outcome: Outcome, layout: Layout, sheets: seq<Sheet>)
      requires Valid() && Backed()
      modifies this`partialDir, this`files, this`ledger
      ensures Valid() && (!a.widening.Cut? ==> Backed())
      ensures a.Quiet() && PlanInBook() ==> outcome.Going?
      ensures outcome.Going? ==> Complete(b, rows, ner, context, Manifest(layout, sheets)) && Verified(sheets, files)
    {
      layout, sheets := ner, [];
      if ledger.Some? {
        if !Accepted(ner, context, ledger.value.layout) || !Verified(ledger.value.sheets, files) {
          return Failed, layout, sheets;
        }
        layout, sheets := ledger.value.layout, ledger.value.sheets;
      } else {
        var crashed := RemovePartial(a.starting);
        if crashed { return Crashed, layout, sheets; }
        partialDir := true;
      }
      var hasEntity;
      outcome, sheets, hasEntity := ProduceLayout(layout, sheets, a.narrow);
      if outcome.Going? && context.Some? && layout == ner && hasEntity {
        layout := context.value;
        outcome, sheets := Widen(layout, a);
      }
    }

    method ProduceBook(a: Attempt) returns (outcome: Outcome)
      requires Valid() && Backed()
      modifies this`partialDir, this`files, this`ledger, this`out, this`outFiles, this`done
      ensures Valid() && (!a.widening.Cut? ==> Backed())
      ensures a.Quiet() && PlanInBook() ==> outcome.Going?
      ensures outcome.Going? ==> done && out.Some? && Verified(out.value.sheets, outFiles)
      ensures !outcome.Going? ==> done == old(done)
    {
      var layout, sheets;
      outcome, layout, sheets := ProducePartial(a);
      if !outcome.Going? { return; }
      if a.publishing.KilledListing? { return Crashed; }
      ledger := None;
      if a.publishing.KilledDelisted? { return Crashed; }
      var crashed := RemovePublished(a.replacing);
      if crashed { return Crashed; }
      out, outFiles := Some(Manifest(layout, sheets)), files;
      partialDir, files := false, map[];
      if a.publishing.KilledPublished? { return Crashed; }
      done := true;
      return Going;
    }

    /** The markers of a failed book go, then what it had published. */
    method ClearFailed(a: Attempt) returns (crashed: bool)
      requires Valid() && failed
      modifies this`failed, this`done, this`out, this`outFiles
      ensures Valid() && !failed
      ensures crashed <==> !a.clearing.Cleared? || a.unpublishing.Cut?
      ensures if a.clearing.KilledBetween? then done == old(done) && out == old(out) && outFiles == old(outFiles)
              else !done
    {
      failed := false;
      if a.clearing.KilledBetween? { return true; }
      done := false;
      if a.clearing.KilledCleared? { return true; }
      crashed := RemovePublished(a.unpublishing);
    }

    /** `_prepare_root` for this book. A malformed partial or completed book fails closed. */
    method Prepare(a: Attempt) returns (outcome: Outcome)
      requires Valid()
      modifies this
      ensures Valid()
      ensures outcome.Failed? ==> !old(Resumable())
      ensures outcome.Going? ==> !failed && old(Resumable()) && (if done then Good() else Backed())
      ensures outcome.Going? && !done ==> ledger == old(ledger) && (ledger.None? ==> !partialDir)
      ensures a.Quiet() ==> !outcome.Crashed?
      ensures old(Resumable()) && !a.Strands() ==> Resumable()
      ensures old(Good()) ==> Good() && !outcome.Failed?
      ensures old(Stranded()) ==> outcome.Failed? && Stranded()
      ensures old(failed && done && out.None?) && a.clearing.KilledBetween? ==> outcome.Crashed? && Stranded()
    {
      if failed {
        var crashed := ClearFailed(a);
        if crashed { return Crashed; }
      } else if done {
        if out.None? || !Accepted(ner, context, out.value.layout) || !Verified(out.value.sheets, outFiles) {
          return Failed;
        }
        var crashed := RemovePartial(a.sweeping);
        return if crashed then Crashed else Going;
      }
      if ledger.Some? {
        if !Accepted(ner, context, ledger.value.layout) || !Verified(ledger.value.sheets, files) {
          return Failed;
        }
      } else if partialDir {
        var crashed := RemovePartial(a.sweeping);
        if crashed { return Crashed; }
      }
      return Going;
    }

    /** One attempt: prepare, then produce unless already done; an error marks the book failed and done.
        Undisturbed, it finishes the book exactly if it could go on from what it found. A kill between
        the markers of a book that failed before it was ever published strands it for good. */
    method Life(a: Attempt) returns (outcome: Outcome)
      requires Valid()
      modifies this
      ensures Valid()
      ensures outcome.Going? ==> Good()
      ensures a.Quiet() && PlanInBook() ==> (outcome.Going? <==> old(Resumable()))
      ensures old(Resumable()) && !a.Strands() ==> Resumable()
      ensures old(Good()) ==> Good()
      ensures old(Stranded()) ==> outcome.Failed? && Stranded()
      ensures old(failed && done && out.None?) && a.clearing.KilledBetween? ==> Stranded()
    {
      outcome := Prepare(a);
      if outcome.Going? && !done {
        outcome := ProduceBook(a);
        if outcome.Failed? {
          if a.recording.KilledUnrecorded? { return Crashed; }
          failed := true;
          if a.recording.KilledHalfRecorded? { return Crashed; }
          done := true;
        }
      }
    }

    /** Any number of attempts. Unless a kill strands the book, one undisturbed attempt is enough. */
    method Lives(attempts: seq<Attempt>)
      requires Valid()
      modifies this
      ensures Valid()
      ensures old(Stranded()) ==> Stranded()
      ensures NoneStrands(attempts) && old(Resumable()) ==> Resumable()
      ensures NoneStrands(attempts) && old(Resumable()) && SomeQuiet(attempts) && PlanInBook() ==> Good()
    {
      assert attempts[..|attempts|] == attempts;
      for k := 0 to |attempts|
        invariant Valid() && (old(Stranded()) ==> Stranded())
        invariant NoneStrands(attempts[..k]) && old(Resumable()) ==> Resumable()
        invariant NoneStrands(attempts[..k]) && old(Resumable()) && SomeQuiet(attempts[..k]) && PlanInBook() ==> Good()
      {
        assert attempts[..k + 1][..k] == attempts[..k];
        var outcome := Life(attempts[k]);
      }
    }

    /** `finalize`: hand over only a book that is done, not failed and published. */
    method Finalize() returns (r: Result<Manifest>)
      requires Valid()
      ensures r.Ok? <==> done && !failed && out.Some?
      ensures r.Ok? ==> r.value == out.value && Complete(b, rows, ner, context, r.value)
      ensures r.Raised? ==>
          r.error == if failed || !done then "NER handoff incomplete" else "NER handoff missing book manifest"
    {
      if failed || !done {
        return Raised("NER handoff incomplete");
      }
      if out.None? {
        return Raised("NER handoff missing book manifest");
      }
      return Ok(out.value);
    }
  }
}
