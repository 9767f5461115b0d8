/** The worker protocol of one engine run, as a step relation over workers, kernel locks and marker
    files: `BookClaim`, `mark_done`, the heavy phase and its slots, the master's accounting of a killed
    worker, and the driver's gate. Any worker may die at any step; the kernel then drops its locks. */
module Claims {
  import opened Prelude

  /** What a worker does next. The claim is taken in two steps, flock and then the check for `done`,
      and given back in two, the directory and then the lock. */
  datatype Step = Idle | Scanning(next: nat, clean: bool) | Cleared | Seating(next: nat) | Seated
                | Locked | Owns | Linked | Failing | Leaving | Clearing | Released

  datatype Worker = Worker(alive: bool, heavyPhase: bool, step: Step, book: nat, heavy: bool, exclusive: bool)

  /** The pool master accounting a killed worker's book, with or without its lock. */
  datatype Accounting = Resting | Probing(book: nat) | Charging(book: nat, locked: bool) | Closing(book: nat)

  datatype Holder = ByWorker(id: nat) | ByMaster

  datatype State = State(books: nat, slotCount: nat, workers: map<nat, Worker>, locks: map<nat, Holder>,
                         claimDirs: set<nat>, done: set<nat>, failed: set<nat>, heavy: set<nat>, output: set<nat>,
                         slots: map<nat, nat>, master: Accounting,
                         duplicates: nat, recovered: set<nat>, died: set<nat>)

  /** Looking for work, up to the claim; then the claim itself; and the master. */
  datatype Approach = BeginScan | ScanOne | EndScan | Gate(book: nat) | WantSlot(all: bool) | TrySlot | Retry | DropSlot
  datatype Claiming = TakeLock | Refused | CheckDone | Defer | WriteOutput | WriteFailed | GiveUp | MarkDone | DropDir
    | DropLock
  datatype Charge = Account(book: nat) | ProbeLock | ProbeRefused | ChargeHeavy | ChargeRetry | ChargeFailed
    | MasterMarks

  datatype Event = Spawn(w: nat) | Crash(w: nat) | Seeks(w: nat, approach: Approach)
    | Claims(w: nat, claiming: Claiming) | Master(charge: Charge)

  predicate Holds(w: Worker) {
    w.alive && (w.step.Locked? || InCharge(w) || w.step.Leaving? || w.step.Clearing?)
  }

  /** Owning a book whose fate is still open. */
  predicate InCharge(w: Worker) {
    w.alive && (w.step.Owns? || w.step.Linked? || w.step.Failing?)
  }

  /** Past the heavy gate and on the way to, or in possession of, a slot. */
  predicate AtTable(w: Worker) {
    w.alive && w.heavy && !w.step.Idle? && !w.step.Scanning? && !w.step.Cleared?
  }

  predicate MasterLocks(m: Accounting) {
    (m.Charging? && m.locked) || m.Closing?
  }

  function Put(s: State, w: nat, worker: Worker): State {
    s.(workers := s.workers[w := worker])
  }

  function Go(s: State, w: nat, step: Step): State
    requires w in s.workers
  {
    Put(s, w, s.workers[w].(step := step))
  }

  // ---------------------------------------------------------------------------------------
  // The steps
  // ---------------------------------------------------------------------------------------

  predicate Enabled(s: State, e: Event) {
    match e
    case Spawn(w) => w in s.workers ==> !s.workers[w].alive
    case Crash(w) => w in s.workers && s.workers[w].alive
    case Seeks(w, a) => w in s.workers && s.workers[w].alive && MaySeek(s, s.workers[w], a)
    case Claims(w, c) => w in s.workers && s.workers[w].alive && MayClaim(s.workers[w], c)
    case Master(c) => MayCharge(s, c)
  }

  predicate MaySeek(s: State, worker: Worker, a: Approach) {
    match a
    case BeginScan => worker.step.Idle?
    case ScanOne => worker.step.Scanning? && worker.step.next < s.books
    case EndScan => worker.step.Scanning? && worker.step.next >= s.books
    case Gate(book) => worker.step.Idle? && book < s.books
    case WantSlot(all) => worker.step.Cleared? && worker.heavy
    case TrySlot => worker.step.Seating?
    case Retry => worker.step.Released?
    case DropSlot => worker.step.Released?
  }

  predicate MayClaim(worker: Worker, c: Claiming) {
    match c
    case TakeLock => if worker.heavy then worker.step.Seated? else worker.step.Cleared?
    case Refused => if worker.heavy then worker.step.Seated? else worker.step.Cleared?
    case CheckDone => worker.step.Locked?
    case Defer => worker.step.Owns? && !worker.heavy
    case WriteOutput => worker.step.Owns?
    case WriteFailed => worker.step.Owns?
    case GiveUp => worker.step.Owns?
    case MarkDone => worker.step.Linked? || worker.step.Failing?
    case DropDir => worker.step.Leaving?
    case DropLock => worker.step.Clearing?
  }

  predicate MayCharge(s: State, c: Charge) {
    match c
    case Account(book) => s.master.Resting? && book < s.books
    case ProbeLock => s.master.Probing?
    case ProbeRefused => s.master.Probing?
    case ChargeHeavy => s.master.Charging?
    case ChargeRetry => s.master.Charging?
    case ChargeFailed => s.master.Charging?
    case MasterMarks => s.master.Closing?
  }

  function Alone(w: nat, slots: map<nat, nat>): map<nat, nat> {
    map i | i in slots && slots[i] != w :: slots[i]
  }

  function Unlocked(locks: map<nat, Holder>, h: Holder): map<nat, Holder> {
    map b | b in locks && locks[b] != h :: locks[b]
  }

  /** `mark_done`: exclusive creation, and a journal entry if the marker was already there. */
  function Mark(s: State, book: nat): State {
    s.(done := s.done + {book}, duplicates := s.duplicates + if book in s.done then 1 else 0)
  }

  function Next(s: State, e: Event): State
    requires Enabled(s, e)
  {
    match e
    case Spawn(w) => Put(s, w, Worker(true, false, Idle, 0, false, false))
    case Crash(w) => Die(s, w)
    case Seeks(w, a) => Seek(s, w, a)
    case Claims(w, c) => Claim(s, w, c)
    case Master(c) => Charged(s, c)
  }

  /** The kernel drops a dead worker's locks; its claim directory stays. */
  function Die(s: State, w: nat): State
    requires w in s.workers
  {
    Put(s, w, s.workers[w].(alive := false)).(
      locks := Unlocked(s.locks, ByWorker(w)), slots := Alone(w, s.slots),
      died := s.died + if Holds(s.workers[w]) then {s.workers[w].book} else {})
  }

  function Seek(s: State, w: nat, a: Approach): State
    requires w in s.workers && MaySeek(s, s.workers[w], a)
  {
    var worker := s.workers[w];
    match a
    case BeginScan => Go(s, w, Scanning(0, true))
    case ScanOne =>
      Go(s, w, Scanning(worker.step.next + 1,
                        worker.step.clean && (worker.step.next in s.done || worker.step.next in s.heavy)))
    case EndScan => Put(s, w, worker.(step := Idle, heavyPhase := worker.heavyPhase || worker.step.clean))
    case Gate(book) =>
      if book !in s.heavy then Put(s, w, worker.(step := Cleared, book := book, heavy := false, exclusive := false))
      else if worker.heavyPhase then
          Put(s, w, worker.(step := Cleared, book := book, heavy := true, exclusive := false))
      else s
    case WantSlot(all) => Put(s, w, worker.(step := Seating(0), exclusive := all))
    case TrySlot => Sit(s, w)
    case Retry => Go(s, w, if worker.heavy then Seated else Cleared)
    case DropSlot => Go(s, w, Idle).(slots := Alone(w, s.slots))
  }

  function Claim(s: State, w: nat, c: Claiming): State
    requires w in s.workers
  {
    var book := s.workers[w].book;
    match c
    case TakeLock => if book in s.locks then Go(s, w, Released)
        else Go(s, w, Locked).(locks := s.locks[book := ByWorker(w)])
    case Refused => Go(s, w, Released)
    case CheckDone =>
      if book in s.done then Go(s, w, Clearing)
      else Go(s, w, Owns).(claimDirs := s.claimDirs + {book},
                           recovered := s.recovered + if book in s.claimDirs then {book} else {})
    case Defer => Go(s, w, Leaving).(heavy := s.heavy + {book})
    case WriteOutput => Go(s, w, Linked).(output := s.output + {book})
    case WriteFailed => Go(s, w, Failing).(failed := s.failed + {book})
    case GiveUp => Go(s, w, Leaving)
    case MarkDone => Mark(Go(s, w, Leaving), book)
    case DropDir => Go(s, w, Clearing).(claimDirs := s.claimDirs - {book})
    case DropLock => Go(s, w, Released).(locks := s.locks - {book})
  }

  function Charged(s: State, c: Charge): State
    requires MayCharge(s, c)
  {
    match c
    case Account(book) => s.(master := Probing(book))
    case ProbeLock =>
      var book := s.master.book;
      if book in s.done then s.(master := Resting)
      else if book in s.locks then s.(master := Charging(book, false))
      else s.(master := Charging(book, true), locks := s.locks[book := ByMaster])
    case ProbeRefused => s.(master := if s.master.book in s.done then Resting else Charging(s.master.book, false))
    case ChargeHeavy => s.(heavy := s.heavy + {s.master.book}, master := Resting, locks := Unlocked(s.locks, ByMaster))
    case ChargeRetry => s.(master := Resting, locks := Unlocked(s.locks, ByMaster))
    case ChargeFailed =>
      s.(failed := s.failed + {s.master.book}, master := if s.master.locked then Closing(s.master.book) else Resting)
    case MasterMarks => Mark(s, s.master.book).(master := Resting, locks := Unlocked(s.locks, ByMaster))
  }

  /** One try at the next slot: take it if its lock is free. A worker that wants them all drops those
      it took when one is refused; any other settles for the first free one. */
  function Sit(s: State, w: nat): State
    requires w in s.workers && s.workers[w].step.Seating?
  {
    var worker := s.workers[w];
    var i := worker.step.next;
    if worker.exclusive then
      if i >= s.slotCount then Go(s, w, Seated)
      else if i in s.slots then Go(s, w, Idle).(slots := Alone(w, s.slots))
      else Go(s, w, Seating(i + 1)).(slots := s.slots[i := w])
    else
      if i >= s.slotCount then Go(s, w, Idle)
      else if i in s.slots then Go(s, w, Seating(i + 1))
      else Go(s, w, Seated).(slots := s.slots[i := w])
  }

  // ---------------------------------------------------------------------------------------
  // What a worker's own step can change
  // ---------------------------------------------------------------------------------------

  ghost predicate OneWorker(s: State, t: State, w: nat) {
    && w in s.workers && w in t.workers && t.workers == s.workers[w := t.workers[w]]
    && s.workers[w].alive && t.workers[w].alive && t.master == s.master && t.books == s.books
        && t.slotCount == s.slotCount
  }

  /** Seeking work touches no lock and no marker. */
  ghost predicate Sought(s: State, t: State, w: nat) {
    && OneWorker(s, t, w) && t == s.(workers := t.workers, slots := t.slots)
    && !Holds(s.workers[w]) && !Holds(t.workers[w])
  }

  /** The claim: at most the lock of the worker's own book changes hands, and only a book still open
      becomes done, by the step that closes it. */
  ghost predicate Claimed(s: State, t: State, w: nat) {
    && OneWorker(s, t, w) && t.slots == s.slots
    && t.workers[w] == s.workers[w].(step := t.workers[w].step)
    && LockChange(s, t, w, s.workers[w], t.workers[w])
    && (if t.done == s.done then t.duplicates == s.duplicates
        else
          && InCharge(s.workers[w]) && t.done == s.done + {s.workers[w].book}
          && s.workers[w].book !in s.done && t.duplicates == s.duplicates)
    && (InCharge(t.workers[w]) ==> s.workers[w].book !in t.done)
  }

  ghost predicate LockChange(s: State, t: State, w: nat, before: Worker, after: Worker) {
    || (Holds(before) == Holds(after) && t.locks == s.locks)
    || (!Holds(before) && Holds(after) && before.book !in s.locks && t.locks == s.locks[before.book := ByWorker(w)])
    || (Holds(before) && !Holds(after) && t.locks == s.locks - {before.book})
  }

  lemma {:induction false} SeekFrame(s: State, w: nat, a: Approach)
    requires w in s.workers && s.workers[w].alive && MaySeek(s, s.workers[w], a)
    ensures Sought(s, Seek(s, w, a), w)
  {}

  lemma {:induction false} ClaimFrame(s: State, w: nat, c: Claiming)
    requires w in s.workers && s.workers[w].alive && MayClaim(s.workers[w], c)
    requires InCharge(s.workers[w]) ==> s.workers[w].book !in s.done
    ensures Claimed(s, Claim(s, w, c), w)
  {}

  // ---------------------------------------------------------------------------------------
  // What every step keeps
  // ---------------------------------------------------------------------------------------

  /** A book is locked by exactly the worker that holds it, or by the master accounting it. */
  ghost predicate LocksOk(s: State) {
    && (forall b :: b in s.locks ==> LockOk(s, b))
    && (forall w :: w in s.workers && Holds(s.workers[w]) ==>
        s.workers[w].book in s.locks && s.locks[s.workers[w].book] == ByWorker(w))
    && (MasterLocks(s.master) ==> s.master.book in s.locks && s.locks[s.master.book] == ByMaster)
  }

  predicate LockOk(s: State, b: nat)
    requires b in s.locks
  {
    match s.locks[b]
    case ByWorker(w) => w in s.workers && Holds(s.workers[w]) && s.workers[w].book == b
    case ByMaster => MasterLocks(s.master) && s.master.book == b
  }

  lemma {:induction false} LocksDie(s: State, w: nat)
    requires LocksOk(s) && w in s.workers && s.workers[w].alive
    ensures LocksOk(Die(s, w))
  {
    var t := Die(s, w);
    forall b | b in t.locks ensures LockOk(t, b) {
      if b in s.locks { assert LockOk(s, b); }
    }
  }

  lemma {:induction false} LocksOfOne(s: State, t: State, w: nat)
    requires LocksOk(s) && (Sought(s, t, w) || Claimed(s, t, w))
    ensures LocksOk(t)
  {
    forall b | b in t.locks ensures LockOk(t, b) {
      if b in s.locks { assert LockOk(s, b); }
    }
  }

  lemma {:induction false} LocksSeek(s: State, w: nat, a: Approach)
    requires LocksOk(s) && w in s.workers && s.workers[w].alive && MaySeek(s, s.workers[w], a)
    ensures LocksOk(Seek(s, w, a))
  {
    SeekFrame(s, w, a);
    LocksOfOne(s, Seek(s, w, a), w);
  }

  lemma {:induction false} LocksClaim(s: State, w: nat, c: Claiming)
    requires LocksOk(s) && OpenOk(s) && w in s.workers && s.workers[w].alive && MayClaim(s.workers[w], c)
    ensures LocksOk(Claim(s, w, c))
  {
    ClaimFrame(s, w, c);
    LocksOfOne(s, Claim(s, w, c), w);
  }

  lemma {:induction false} LocksCharge(s: State, c: Charge)
    requires LocksOk(s) && MayCharge(s, c)
    ensures LocksOk(Charged(s, c))
  {
    var t := Charged(s, c);
    forall b | b in t.locks ensures LockOk(t, b) {
      if b in s.locks { assert LockOk(s, b); }
    }
  }

  lemma {:induction false} LocksStep(s: State, e: Event)
    requires LocksOk(s) && OpenOk(s) && Enabled(s, e)
    ensures LocksOk(Next(s, e))
  {
    match e
    case Spawn(w) =>
      var t := Next(s, e);
      forall b | b in t.locks ensures LockOk(t, b) { assert LockOk(s, b); }
    case Crash(w) => LocksDie(s, w);
    case Seeks(w, a) => LocksSeek(s, w, a);
    case Claims(w, c) => LocksClaim(s, w, c);
    case Master(c) => LocksCharge(s, c);
  }

  /** While a book's fate is open it is not done. */
  ghost predicate OpenOk(s: State) {
    && (forall w :: w in s.workers && InCharge(s.workers[w]) ==> s.workers[w].book !in s.done)
    && (MasterLocks(s.master) ==> s.master.book !in s.done)
  }

  lemma {:induction false} OpenDie(s: State, w: nat)
    requires LocksOk(s) && OpenOk(s) && w in s.workers && s.workers[w].alive
    ensures OpenOk(Die(s, w)) && Die(s, w).duplicates == s.duplicates
  {}

  lemma {:induction false} OpenOfOne(s: State, t: State, w: nat)
    requires LocksOk(s) && OpenOk(s) && (Sought(s, t, w) || Claimed(s, t, w))
    ensures OpenOk(t) && t.duplicates == s.duplicates
  {
    forall v | v in t.workers && InCharge(t.workers[v]) ensures t.workers[v].book !in t.done {
      if v != w { assert Holds(s.workers[v]); }
    }
  }

  lemma {:induction false} OpenSeek(s: State, w: nat, a: Approach)
    requires LocksOk(s) && OpenOk(s) && w in s.workers && s.workers[w].alive && MaySeek(s, s.workers[w], a)
    ensures OpenOk(Seek(s, w, a)) && Seek(s, w, a).duplicates == s.duplicates
  {
    SeekFrame(s, w, a);
    OpenOfOne(s, Seek(s, w, a), w);
  }

  lemma {:induction false} OpenClaim(s: State, w: nat, c: Claiming)
    requires LocksOk(s) && OpenOk(s) && w in s.workers && s.workers[w].alive && MayClaim(s.workers[w], c)
    ensures OpenOk(Claim(s, w, c)) && Claim(s, w, c).duplicates == s.duplicates
  {
    ClaimFrame(s, w, c);
    OpenOfOne(s, Claim(s, w, c), w);
  }

  lemma {:induction false} OpenCharge(s: State, c: Charge)
    requires LocksOk(s) && OpenOk(s) && MayCharge(s, c)
    ensures OpenOk(Charged(s, c)) && Charged(s, c).duplicates == s.duplicates
  {}

  lemma {:induction false} OpenStep(s: State, e: Event)
    requires LocksOk(s) && OpenOk(s) && Enabled(s, e)
    ensures OpenOk(Next(s, e)) && Next(s, e).duplicates == s.duplicates
  {
    match e
    case Spawn(w) => {}
    case Crash(w) => OpenDie(s, w);
    case Seeks(w, a) => OpenSeek(s, w, a);
    case Claims(w, c) => OpenClaim(s, w, c);
    case Master(c) => OpenCharge(s, c);
  }

  /** A done book failed, or its output is in place. */
  ghost predicate OutcomesOk(s: State) {
    && s.done <= s.failed + s.output
    && (forall w :: w in s.workers ==> OutcomeOk(s, s.workers[w]))
    && (s.master.Closing? ==> s.master.book in s.failed)
  }

  predicate OutcomeOk(s: State, worker: Worker) {
    worker.alive ==>
      && (worker.step.Linked? ==> worker.book in s.output)
      && (worker.step.Failing? ==> worker.book in s.failed)
  }

  lemma {:induction false} OutcomesClaim(s: State, w: nat, c: Claiming)
    requires w in s.workers && s.workers[w].alive && MayClaim(s.workers[w], c)
    requires s.done <= s.failed + s.output && OutcomeOk(s, s.workers[w])
    ensures Claim(s, w, c).done <= Claim(s, w, c).failed + Claim(s, w, c).output
    ensures OutcomeOk(Claim(s, w, c), Claim(s, w, c).workers[w])
  {}

  lemma {:induction false} OutcomesStep(s: State, e: Event)
    requires OutcomesOk(s) && Enabled(s, e)
    ensures OutcomesOk(Next(s, e))
  {
    var t := Next(s, e);
    MarkersGrow(s, e);
    match e
    case Spawn(w) => forall v | v in t.workers && v != w ensures OutcomeOk(t, t.workers[v]) {
      assert OutcomeOk(s, s.workers[v]);
    }
    case Crash(w) => forall v | v in t.workers && v != w ensures OutcomeOk(t, t.workers[v]) {
      assert OutcomeOk(s, s.workers[v]);
    }
    case Seeks(w, a) =>
      SeekFrame(s, w, a);
      forall v | v in t.workers && v != w ensures OutcomeOk(t, t.workers[v]) { assert OutcomeOk(s, s.workers[v]); }
    case Claims(w, c) =>
      OutcomesClaim(s, w, c);
      ClaimGrows(s, w, c);
      forall v | v in t.workers && v != w ensures OutcomeOk(t, t.workers[v]) { assert OutcomeOk(s, s.workers[v]); }
    case Master(c) => forall v | v in t.workers ensures OutcomeOk(t, t.workers[v]) {
      assert OutcomeOk(s, s.workers[v]);
    }
  }

  /** Every book below `n` is done or marked heavy. */
  predicate Settled(s: State, n: nat) {
    forall b :: 0 <= b < n ==> b in s.done || b in s.heavy
  }

  /** A worker is in the heavy phase only when no ordinary book is left. */
  ghost predicate PhaseOk(s: State) {
    forall w :: w in s.workers ==> WorkerPhase(s, s.workers[w])
  }

  ghost predicate WorkerPhase(s: State, worker: Worker) {
    worker.alive ==>
      && (worker.heavyPhase ==> Settled(s, s.books))
      && (worker.step.Scanning? && worker.step.clean ==> Settled(s, worker.step.next))
      && (worker.heavy && !worker.step.Idle? && !worker.step.Scanning? ==> worker.heavyPhase)
      && (worker.step.Seating? ==> worker.heavy)
  }

  /** Markers are never taken back within a run. */
  predicate Grows(s: State, t: State) {
    s.done <= t.done && s.failed <= t.failed && s.heavy <= t.heavy && s.output <= t.output && s.books == t.books
        && s.slotCount == t.slotCount
  }

  lemma {:induction false} MarkersGrow(s: State, e: Event)
    requires Enabled(s, e)
    ensures Grows(s, Next(s, e))
  {
    match e
    case Spawn(w) =>
    case Crash(w) =>
    case Seeks(w, a) => SeekFrame(s, w, a);
    case Claims(w, c) => ClaimGrows(s, w, c);
    case Master(c) =>
  }

  lemma {:induction false} ClaimGrows(s: State, w: nat, c: Claiming)
    requires w in s.workers && s.workers[w].alive && MayClaim(s.workers[w], c)
    ensures Grows(s, Claim(s, w, c))
    ensures Claim(s, w, c).workers == s.workers[w := s.workers[w].(step := Claim(s, w, c).workers[w].step)]
    ensures !Claim(s, w, c).workers[w].step.Scanning? && !Claim(s, w, c).workers[w].step.Idle?
  {}

  lemma {:induction false} PhaseGrows(s: State, t: State, worker: Worker)
    requires Grows(s, t) && WorkerPhase(s, worker)
    ensures WorkerPhase(t, worker)
  {}

  lemma {:induction false} PhaseSeek(s: State, w: nat, a: Approach)
    requires w in s.workers && s.workers[w].alive && WorkerPhase(s, s.workers[w]) && MaySeek(s, s.workers[w], a)
    ensures WorkerPhase(Seek(s, w, a), Seek(s, w, a).workers[w])
  {}

  lemma {:induction false} PhaseStep(s: State, e: Event)
    requires PhaseOk(s) && Enabled(s, e)
    ensures PhaseOk(Next(s, e))
  {
    var t := Next(s, e);
    MarkersGrow(s, e);
    forall v | v in t.workers ensures WorkerPhase(t, t.workers[v]) {
      if v in s.workers {
        assert WorkerPhase(s, s.workers[v]);
        PhaseGrows(s, t, s.workers[v]);
      }
      match e
      case Spawn(w) =>
      case Crash(w) =>
      case Seeks(w, a) =>
        SeekFrame(s, w, a);
        if v == w { PhaseSeek(s, w, a); }
      case Claims(w, c) => ClaimGrows(s, w, c);
      case Master(c) =>
    }
  }

  // ---------------------------------------------------------------------------------------
  // Heavy slots
  // ---------------------------------------------------------------------------------------

  /** Slots are held only by workers on their way through the heavy phase, and such a worker holds
      what it asked for: one slot, or all of them. */
  ghost predicate SlotsOk(s: State) {
    && (forall i :: i in s.slots ==> i < s.slotCount && s.slots[i] in s.workers && AtTable(s.workers[s.slots[i]]))
    && (forall w :: w in s.workers && AtTable(s.workers[w]) ==> SeatOk(s, w, s.workers[w]))
  }

  ghost predicate SeatOk(s: State, w: nat, worker: Worker) {
    if worker.step.Seating? then
      && (worker.exclusive ==> worker.step.next <= s.slotCount && HasSlots(s, w, worker.step.next))
      && (!worker.exclusive ==> !HasSlot(s, w))
    else if worker.exclusive then HasSlots(s, w, s.slotCount)
    else HasSlot(s, w)
  }

  predicate HasSlots(s: State, w: nat, n: nat) {
    forall i :: 0 <= i < n ==> i in s.slots && s.slots[i] == w
  }

  predicate HasSlot(s: State, w: nat) {
    exists i :: i in s.slots && s.slots[i] == w
  }

  lemma {:induction false} SlotsSit(s: State, w: nat)
    requires SlotsOk(s) && w in s.workers && s.workers[w].alive && s.workers[w].step.Seating? && s.workers[w].heavy
    ensures SlotsOk(Sit(s, w))
  {
    var t := Sit(s, w);
    var i := s.workers[w].step.next;
    assert SeatOk(s, w, s.workers[w]);
    forall v | v in t.workers && AtTable(t.workers[v]) ensures SeatOk(t, v, t.workers[v]) {
      if v != w {
        assert SeatOk(s, v, s.workers[v]);
        KeptSeat(s, t, v, w);
      } else if i < s.slotCount && i !in s.slots {
        assert i in t.slots && t.slots[i] == w;
      }
    }
  }

  /** Taking a free slot, or dropping one's own, leaves every other worker's seat alone. */
  lemma {:induction false} KeptSeat(s: State, t: State, v: nat, w: nat)
    requires v != w && v in s.workers && SeatOk(s, v, s.workers[v]) && t.slotCount == s.slotCount
    requires t.slots == Alone(w, s.slots) || t.slots == s.slots
             || exists i: nat :: i !in s.slots && t.slots == s.slots[i := w]
    ensures SeatOk(t, v, s.workers[v])
  {
    if i :| i in s.slots && s.slots[i] == v { assert i in t.slots && t.slots[i] == v; }
  }

  lemma {:induction false} SlotsSeek(s: State, w: nat, a: Approach)
    requires SlotsOk(s) && w in s.workers && s.workers[w].alive && MaySeek(s, s.workers[w], a)
        && WorkerPhase(s, s.workers[w])
    ensures SlotsOk(Seek(s, w, a))
  {
    if a.TrySlot? {
      SlotsSit(s, w);
    } else {
      var t := Seek(s, w, a);
      SeekFrame(s, w, a);
      assert t.slots == s.slots || t.slots == Alone(w, s.slots);
      forall v | v in t.workers && AtTable(t.workers[v]) ensures SeatOk(t, v, t.workers[v]) {
        if v != w {
          assert SeatOk(s, v, s.workers[v]);
          KeptSeat(s, t, v, w);
        } else if AtTable(s.workers[w]) {
          assert SeatOk(s, w, s.workers[w]);
        }
      }
    }
  }

  lemma {:induction false} SlotsClaim(s: State, w: nat, c: Claiming)
    requires SlotsOk(s) && w in s.workers && s.workers[w].alive && MayClaim(s.workers[w], c)
    ensures SlotsOk(Claim(s, w, c))
  {
    var t := Claim(s, w, c);
    ClaimGrows(s, w, c);
    assert AtTable(t.workers[w]) <==> AtTable(s.workers[w]);
    forall v | v in t.workers && AtTable(t.workers[v]) ensures SeatOk(t, v, t.workers[v]) {
      assert SeatOk(s, v, s.workers[v]);
      KeptSeat(s, t, v, v + 1);
    }
  }

  lemma {:induction false} SlotsDie(s: State, w: nat)
    requires SlotsOk(s) && w in s.workers
    ensures SlotsOk(Die(s, w))
  {
    var t := Die(s, w);
    forall v | v in t.workers && AtTable(t.workers[v]) ensures SeatOk(t, v, t.workers[v]) {
      assert SeatOk(s, v, s.workers[v]);
      KeptSeat(s, t, v, w);
    }
  }

  lemma {:induction false} SlotsSpawn(s: State, w: nat)
    requires SlotsOk(s) && (w in s.workers ==> !s.workers[w].alive)
    ensures SlotsOk(Put(s, w, Worker(true, false, Idle, 0, false, false)))
  {
    var t := Put(s, w, Worker(true, false, Idle, 0, false, false));
    forall v | v in t.workers && AtTable(t.workers[v]) ensures SeatOk(t, v, t.workers[v]) {
      assert SeatOk(s, v, s.workers[v]);
      KeptSeat(s, t, v, w);
    }
  }

  lemma {:induction false} SlotsStep(s: State, e: Event)
    requires SlotsOk(s) && PhaseOk(s) && Enabled(s, e)
    ensures SlotsOk(Next(s, e))
  {
    match e
    case Spawn(w) => SlotsSpawn(s, w);
    case Crash(w) => SlotsDie(s, w);
    case Seeks(w, a) =>
      assert WorkerPhase(s, s.workers[w]);
      SlotsSeek(s, w, a);
    case Claims(w, c) => SlotsClaim(s, w, c);
    case Master(c) => SlotsCharge(s, c);
  }

  lemma {:induction false} SlotsCharge(s: State, c: Charge)
    requires SlotsOk(s) && MayCharge(s, c)
    ensures SlotsOk(Charged(s, c))
  {
    var t := Charged(s, c);
    forall v | v in t.workers && AtTable(t.workers[v]) ensures SeatOk(t, v, t.workers[v]) {
      assert SeatOk(s, v, s.workers[v]);
      KeptSeat(s, t, v, v + 1);
    }
  }

  // ---------------------------------------------------------------------------------------
  // Claim directories
  // ---------------------------------------------------------------------------------------

  predicate HasDir(worker: Worker) {
    worker.alive && (InCharge(worker) || worker.step.Leaving?)
  }

  /** A claim directory belongs to a live owner, or to one that died; only the latter is recovered. */
  ghost predicate DirsOk(s: State) {
    && s.recovered <= s.died
    && forall b :: b in s.claimDirs ==> DirOk(s, b)
  }

  predicate DirOk(s: State, b: nat) {
    b in s.died || (b in s.locks && s.locks[b].ByWorker? && s.locks[b].id in s.workers
        && HasDir(s.workers[s.locks[b].id]))
  }

  lemma {:induction false} DirsClaim(s: State, w: nat, c: Claiming)
    requires LocksOk(s) && DirsOk(s) && w in s.workers && s.workers[w].alive && MayClaim(s.workers[w], c)
    ensures DirsOk(Claim(s, w, c))
  {
    var t := Claim(s, w, c);
    var book := s.workers[w].book;
    assert Holds(s.workers[w]) ==> s.locks[book] == ByWorker(w);
    if book in s.claimDirs { assert DirOk(s, book); }
    forall b | b in t.claimDirs ensures DirOk(t, b) {
      if b != book {
        assert b in s.claimDirs && DirOk(s, b);
        if b in s.locks { assert LockOk(s, b); }
      }
    }
  }

  lemma {:induction false} DirsStep(s: State, e: Event)
    requires LocksOk(s) && DirsOk(s) && Enabled(s, e)
    ensures DirsOk(Next(s, e))
  {
    var t := Next(s, e);
    match e
    case Spawn(w) => DirsKept(s, t);
    case Crash(w) => DirsDie(s, w);
    case Seeks(w, a) =>
      SeekFrame(s, w, a);
      DirsKept(s, t);
    case Claims(w, c) => DirsClaim(s, w, c);
    case Master(c) => DirsCharge(s, c);
  }

  lemma {:induction false} DirsCharge(s: State, c: Charge)
    requires DirsOk(s) && MayCharge(s, c)
    ensures DirsOk(Charged(s, c))
  {
    DirsKept(s, Charged(s, c));
  }

  /** Steps that touch neither a directory nor the lock of a worker that has one. */
  lemma {:induction false} DirsKept(s: State, t: State)
    requires DirsOk(s) && t.claimDirs == s.claimDirs && t.died == s.died && t.recovered == s.recovered
    requires forall b :: b in s.locks && s.locks[b].ByWorker? ==> b in t.locks && t.locks[b] == s.locks[b]
    requires forall v :: v in s.workers && HasDir(s.workers[v]) ==> v in t.workers && HasDir(t.workers[v])
    ensures DirsOk(t)
  {
    forall b | b in t.claimDirs ensures DirOk(t, b) { assert DirOk(s, b); }
  }

  lemma {:induction false} DirsDie(s: State, w: nat)
    requires LocksOk(s) && DirsOk(s) && w in s.workers
    ensures DirsOk(Die(s, w))
  {
    var t := Die(s, w);
    forall b | b in t.claimDirs ensures DirOk(t, b) {
      assert DirOk(s, b);
      if b in s.locks { assert LockOk(s, b); }
    }
  }

  // ---------------------------------------------------------------------------------------
  // Every reachable state
  // ---------------------------------------------------------------------------------------

  /** A fresh ledger; the only done books are adopted ones, whose output was restored with them. */
  predicate Init(s: State) {
    && s.workers == map[] && s.locks == map[] && s.slots == map[] && s.master == Resting
    && s.claimDirs == {} && s.failed == {} && s.heavy == {} && s.done <= s.output
    && s.duplicates == 0 && s.recovered == {} && s.died == {}
  }

  ghost predicate Inv(s: State) {
    LocksOk(s) && OpenOk(s) && OutcomesOk(s) && PhaseOk(s) && SlotsOk(s) && DirsOk(s) && s.duplicates == 0
  }

  /** Any schedule; an event that is not enabled is skipped. */
  function Run(s: State, events: seq<Event>): State {
    if events == [] then s
    else
      var t := Run(s, events[..|events| - 1]);
      if Enabled(t, events[|events| - 1]) then Next(t, events[|events| - 1]) else t
  }

  lemma {:induction false} StepKeeps(s: State, e: Event)
    requires Inv(s) && Enabled(s, e)
    ensures Inv(Next(s, e)) && Grows(s, Next(s, e))
  {
    LocksStep(s, e);
    OpenStep(s, e);
    OutcomesStep(s, e);
    PhaseStep(s, e);
    SlotsStep(s, e);
    DirsStep(s, e);
    MarkersGrow(s, e);
  }

  lemma {:induction false} RunKeeps(s: State, events: seq<Event>)
    requires Inv(s)
    ensures Inv(Run(s, events)) && Grows(s, Run(s, events))
  {
    if events == [] {
    } else {
      RunKeeps(s, events[..|events| - 1]);
      var t := Run(s, events[..|events| - 1]);
      if Enabled(t, events[|events| - 1]) { StepKeeps(t, events[|events| - 1]); }
    }
  }

  lemma {:induction false} Reachable(s: State, events: seq<Event>)
    requires Init(s)
    ensures Inv(Run(s, events))
  {
    RunKeeps(s, events);
  }

  /** At any moment a book has one live owner at most, its fate is still open while it has, and
      nobody ever finds its marker already there. */
  lemma {:induction false} OneOwner(s: State, events: seq<Event>, v: nat, w: nat)
    requires Init(s)
    ensures var r := Run(s, events);
      && (v in r.workers && w in r.workers && Holds(r.workers[v]) && Holds(r.workers[w])
          && r.workers[v].book == r.workers[w].book ==>
          v == w)
      && (w in r.workers && InCharge(r.workers[w]) ==> r.workers[w].book !in r.done)
      && (w in r.workers && Holds(r.workers[w]) && MasterLocks(r.master) ==> r.workers[w].book != r.master.book)
      && r.duplicates == 0 && r.recovered <= r.died
  {
    Reachable(s, events);
  }

  /** A done book is never owned again, whatever happens later. */
  lemma {:induction false} DoneForGood(s: State, events: seq<Event>, later: seq<Event>, book: nat, w: nat)
    requires Init(s) && book in Run(s, events).done
    ensures var r := Run(Run(s, events), later);
            book in r.done && (w in r.workers && InCharge(r.workers[w]) ==> r.workers[w].book != book)
  {
    Reachable(s, events);
    RunKeeps(Run(s, events), later);
  }

  ghost function Holders(s: State): set<nat> {
    set i | i in s.slots :: s.slots[i]
  }

  /** While anyone holds a heavy slot, every undone book is marked heavy, now and ever after; there
      are no more holders than slots; and a holder of all of them is the only one. */
  lemma {:induction false} HeavyPhaseSafe(s: State, events: seq<Event>, later: seq<Event>, w: nat)
    requires Init(s) && w in Holders(Run(s, events))
    ensures var r := Run(s, events); Settled(r, r.books) && |Holders(r)| <= r.slotCount
    ensures var r := Run(s, events);
      w in r.workers && r.workers[w].exclusive && !r.workers[w].step.Seating? ==> Holders(r) == {w}
    ensures Settled(Run(Run(s, events), later), s.books)
  {
    var r := Run(s, events);
    Reachable(s, events);
    RunKeeps(s, events);
    RunKeeps(r, later);
    var i :| i in r.slots && r.slots[i] == w;
    assert AtTable(r.workers[w]) && WorkerPhase(r, r.workers[w]) && SeatOk(r, w, r.workers[w]);
    HolderCount(r.slots, r.slotCount);
  }

  lemma {:induction false} HolderCount(slots: map<nat, nat>, n: nat)
    requires forall i :: i in slots ==> i < n
    ensures |set i | i in slots :: slots[i]| <= n
    decreases n
  {
    var holders := set i | i in slots :: slots[i];
    if n == 0 {
      assert holders == {};
    } else {
      var rest := slots - {n - 1};
      HolderCount(rest, n - 1);
      var others := set i | i in rest :: rest[i];
      if n - 1 in slots {
        forall x ensures x in holders <==> x in others + {slots[n - 1]} {
          if i :| i in slots && slots[i] == x {
            if i != n - 1 { assert i in rest && rest[i] == x; }
          }
          if i :| i in rest && rest[i] == x { assert i in slots && slots[i] == x; }
        }
        assert holders == others + {slots[n - 1]};
      } else {
        assert rest == slots;
      }
    }
  }

  // ---------------------------------------------------------------------------------------
  // The driver's gate
  // ---------------------------------------------------------------------------------------

  /** All workers have ended and the master rests: nothing but a new worker could still move. */
  predicate Quiet(s: State) {
    (forall w :: w in s.workers ==> !s.workers[w].alive) && s.master.Resting?
  }

  /** `run_incremental` after the engine: missing books and failed books raise, else the baseline advances. */
  method AdvanceBaseline(s: State, planned: set<nat>) returns (r: Result<set<nat>>)
    ensures r.Ok? <==> planned <= s.done && s.failed == {}
    ensures r.Ok? ==> r.value == planned
  {
    var missing := planned - s.done;
    assert planned == missing + planned * s.done;
    if missing != {} {
      return Raised("requested book(s) finished with neither done nor failed marker");
    }
    if s.failed != {} {
      return Raised("book(s) failed inside the engine");
    }
    return Ok(planned);
  }

  /** If the baseline advances, every planned book is done, none failed, and every output is in place. */
  lemma {:induction false} AdvanceSafe(s: State, events: seq<Event>, planned: set<nat>)
    requires Init(s)
    ensures var r := Run(s, events); planned <= r.done && r.failed == {} ==> planned <= r.output
  {
    Reachable(s, events);
  }

  /** Once quiet, the markers the driver reads one after the other cannot change between its reads. */
  lemma {:induction false} QuietStays(s: State, e: Event)
    requires Quiet(s) && Enabled(s, e)
    ensures e.Spawn? || (e.Master? && e.charge.Account?)
    ensures Next(s, e).done == s.done && Next(s, e).failed == s.failed
  {}

  // ---------------------------------------------------------------------------------------
  // Whatever happened, a worker left alone finishes the run
  // ---------------------------------------------------------------------------------------

  /** Some schedule takes the run from one state to the other. */
  ghost predicate Reaches(s: State, t: State) {
    exists events :: Run(s, events) == t
  }

  lemma {:induction false} RunBoth(s: State, events: seq<Event>, more: seq<Event>)
    ensures Run(s, events + more) == Run(Run(s, events), more)
  {
    if more == [] {
      assert events + more == events;
    } else {
      var n := |more| - 1;
      RunBoth(s, events, more[..n]);
      assert (events + more)[..|events + more| - 1] == events + more[..n];
    }
  }

  lemma {:induction false} ReachesOn(s: State, t: State, u: State)
    requires Reaches(s, t) && Reaches(t, u)
    ensures Reaches(s, u)
  {
    var events :| Run(s, events) == t;
    var more :| Run(t, more) == u;
    RunBoth(s, events, more);
  }

  lemma {:induction false} ReachesNext(s: State, e: Event)
    requires Enabled(s, e)
    ensures Reaches(s, Next(s, e))
  {
    assert [e][..0] == [];
    assert Run(s, []) == s;
    assert Run(s, [e]) == Next(s, e);
  }

  /** One live worker and a resting master. */
  ghost predicate Solo(s: State, w: nat) {
    && Inv(s) && w in s.workers && s.workers[w].alive && s.master.Resting?
    && forall v :: v in s.workers && v != w ==> !s.workers[v].alive
  }

  predicate IsIdle(s: State, w: nat) {
    w in s.workers && s.workers[w].step.Idle?
  }

  lemma {:induction false} IdleIsFree(s: State, w: nat)
    requires Solo(s, w) && IsIdle(s, w)
    ensures s.locks == map[] && s.slots == map[]
  {
    if b :| b in s.locks { assert false; }
    if i :| i in s.slots { assert false; }
  }

  /** No marker appeared, and the run is the same one. */
  ghost predicate SameMarkers(s: State, t: State) {
    && t.done == s.done && t.output == s.output && t.failed == s.failed && t.heavy == s.heavy
    && t.books == s.books && t.slotCount == s.slotCount
  }

  lemma {:induction false} SeekAlone(s: State, w: nat, a: Approach) returns (t: State)
    requires Solo(s, w) && MaySeek(s, s.workers[w], a)
    ensures t == Seek(s, w, a) && Reaches(s, t) && Solo(t, w) && SameMarkers(s, t) && t.locks == s.locks
  {
    t := Next(s, Seeks(w, a));
    StepKeeps(s, Seeks(w, a));
    ReachesNext(s, Seeks(w, a));
    SeekFrame(s, w, a);
  }

  lemma {:induction false} ClaimAlone(s: State, w: nat, c: Claiming) returns (t: State)
    requires Solo(s, w) && MayClaim(s.workers[w], c)
    ensures t == Claim(s, w, c) && Reaches(s, t) && Solo(t, w)
    ensures t.books == s.books && t.slotCount == s.slotCount && t.workers[w] == s.workers[w].(step := t.workers[w].step)
  {
    t := Next(s, Claims(w, c));
    StepKeeps(s, Claims(w, c));
    ReachesNext(s, Claims(w, c));
    ClaimFrame(s, w, c);
  }

  /** Before the lock of a free book that is not done. */
  ghost predicate AtClaim(s: State, w: nat, book: nat) {
    && Solo(s, w) && s.workers[w].book == book && book !in s.done && s.locks == map[]
    && (if s.workers[w].heavy then s.workers[w].step.Seated? else s.workers[w].step.Cleared?)
  }

  /** A book may be tried now: it is not deferred, or the worker has seen that only deferred ones remain. */
  ghost predicate MayTry(s: State, w: nat, book: nat) {
    && Solo(s, w) && IsIdle(s, w) && book < s.books && book !in s.done
    && (book in s.heavy ==> s.workers[w].heavyPhase)
  }

  lemma {:induction false} Seats(s: State, w: nat) returns (t: State)
    requires Solo(s, w) && s.workers[w].step.Cleared? && s.workers[w].heavy && s.slots == map[]
    ensures Reaches(s, t) && Solo(t, w) && SameMarkers(s, t) && t.locks == s.locks
    ensures t.workers[w] == s.workers[w].(step := Seated, exclusive := t.workers[w].exclusive)
  {
    var u := SeekAlone(s, w, WantSlot(s.slotCount == 0));
    t := SeekAlone(u, w, TrySlot);
    ReachesOn(s, u, t);
  }

  lemma {:induction false} Approaches(s: State, w: nat, book: nat) returns (t: State)
    requires MayTry(s, w, book)
    ensures Reaches(s, t) && AtClaim(t, w, book) && SameMarkers(s, t)
    ensures t.workers[w].heavy == (book in s.heavy) && t.workers[w].heavyPhase == s.workers[w].heavyPhase
  {
    IdleIsFree(s, w);
    t := SeekAlone(s, w, Gate(book));
    if book in s.heavy {
      var u := t;
      t := Seats(u, w);
      ReachesOn(s, u, t);
    }
  }

  lemma {:induction false} Owned(s: State, w: nat, book: nat) returns (t: State)
    requires AtClaim(s, w, book)
    ensures Reaches(s, t) && Solo(t, w) && SameMarkers(s, t)
    ensures t.workers[w] == s.workers[w].(step := Owns)
  {
    var u := ClaimAlone(s, w, TakeLock);
    t := ClaimAlone(u, w, CheckDone);
    ReachesOn(s, u, t);
  }

  /** What a try leaves behind: the links of the book, its failure, its deferral, or nothing; and the
      book is done in the first two cases only. */
  ghost predicate Leaves(s: State, t: State, book: nat, result: Claiming) {
    && t.output == (if result.WriteOutput? then s.output + {book} else s.output)
    && t.failed == (if result.WriteFailed? then s.failed + {book} else s.failed)
    && t.heavy == (if result.Defer? then s.heavy + {book} else s.heavy)
    && t.done == (if result.WriteOutput? || result.WriteFailed? then s.done + {book} else s.done)
    && t.books == s.books && t.slotCount == s.slotCount
  }

  predicate IsResult(worker: Worker, result: Claiming) {
    result.WriteOutput? || result.WriteFailed? || result.GiveUp? || (result.Defer? && !worker.heavy)
  }

  lemma {:induction false} Ends(s: State, w: nat, book: nat, result: Claiming) returns (t: State)
    requires Solo(s, w) && s.workers[w].step.Owns? && s.workers[w].book == book && IsResult(s.workers[w], result)
    ensures Reaches(s, t) && Solo(t, w) && t.workers[w] == s.workers[w].(step := Leaving) && Leaves(s, t, book, result)
  {
    t := ClaimAlone(s, w, result);
    if result.WriteOutput? || result.WriteFailed? {
      var u := t;
      t := ClaimAlone(u, w, MarkDone);
      ReachesOn(s, u, t);
    }
  }

  lemma {:induction false} GivesBack(s: State, w: nat) returns (t: State)
    requires Solo(s, w) && s.workers[w].step.Leaving?
    ensures Reaches(s, t) && Solo(t, w) && SameMarkers(s, t) && t.workers[w] == s.workers[w].(step := Idle)
  {
    var u := ClaimAlone(s, w, DropDir);
    var v := ClaimAlone(u, w, DropLock);
    t := SeekAlone(v, w, DropSlot);
    ReachesOn(s, u, v);
    ReachesOn(s, v, t);
  }

  /** A worker alone tries a book: whatever it comes to, the markers say so, and the worker is idle again. */
  lemma {:induction false} Tries(s: State, w: nat, book: nat, result: Claiming) returns (t: State)
    requires MayTry(s, w, book) && IsResult(s.workers[w].(heavy := book in s.heavy), result)
    ensures Reaches(s, t) && Solo(t, w) && IsIdle(t, w) && Leaves(s, t, book, result)
    ensures t.workers[w].heavyPhase == s.workers[w].heavyPhase
  {
    var u := Approaches(s, w, book);
    var v := Owned(u, w, book);
    ReachesOn(s, u, v);
    var x := Ends(v, w, book, result);
    ReachesOn(s, v, x);
    t := GivesBack(x, w);
    ReachesOn(s, x, t);
  }

  /** The first books, those to be tried, have been done as told. */
  ghost predicate Finished(s: State, t: State, tried: set<nat>, fails: set<nat>) {
    && t.done == s.done + tried && t.failed == s.failed + tried * fails && t.output == s.output + (tried - fails)
    && t.heavy == s.heavy && t.books == s.books && t.slotCount == s.slotCount
  }

  lemma {:induction false} FinishedFirst(s: State, u: State, t: State, book: nat, tried: set<nat>, fails: set<nat>)
    requires book in tried && Leaves(s, u, book, if book in fails then WriteFailed else WriteOutput)
    requires Finished(u, t, tried - {book}, fails)
    ensures Finished(s, t, tried, fails)
  {
    assert t.done == s.done + tried;
    assert t.failed == s.failed + tried * fails;
    assert t.output == s.output + (tried - fails);
  }

  lemma {:induction false} FinishesAll(s: State, w: nat, tried: set<nat>, fails: set<nat>) returns (t: State)
    requires Solo(s, w) && IsIdle(s, w) && forall b :: b in tried ==> MayTry(s, w, b)
    ensures Reaches(s, t) && Solo(t, w) && IsIdle(t, w) && Finished(s, t, tried, fails)
    ensures t.workers[w].heavyPhase == s.workers[w].heavyPhase
    decreases |tried|
  {
    if tried == {} {
      t := s;
      assert Run(s, []) == s;
    } else {
      var book :| book in tried;
      var u := Tries(s, w, book, if book in fails then WriteFailed else WriteOutput);
      t := FinishesAll(u, w, tried - {book}, fails);
      ReachesOn(s, u, t);
      FinishedFirst(s, u, t, book, tried, fails);
    }
  }

  lemma {:induction false} Scans(s: State, w: nat) returns (t: State)
    requires Solo(s, w) && s.workers[w].step.Scanning? && s.workers[w].step.clean
    requires s.workers[w].step.next <= s.books
    requires forall b :: 0 <= b < s.books ==> b in s.done || b in s.heavy
    ensures Reaches(s, t) && Solo(t, w) && IsIdle(t, w) && SameMarkers(s, t) && t.workers[w].heavyPhase
    decreases s.books - s.workers[w].step.next
  {
    if s.workers[w].step.next == s.books {
      t := SeekAlone(s, w, EndScan);
    } else {
      var u := SeekAlone(s, w, ScanOne);
      t := Scans(u, w);
      ReachesOn(s, u, t);
    }
  }

  /** Once every undone book is deferred, a scan opens the heavy phase. */
  lemma {:induction false} OpensHeavyPhase(s: State, w: nat) returns (t: State)
    requires Solo(s, w) && IsIdle(s, w)
    requires forall b :: 0 <= b < s.books ==> b in s.done || b in s.heavy
    ensures Reaches(s, t) && Solo(t, w) && IsIdle(t, w) && SameMarkers(s, t) && t.workers[w].heavyPhase
  {
    var u := SeekAlone(s, w, BeginScan);
    t := Scans(u, w);
    ReachesOn(s, u, t);
  }

  /** The books not done yet, deferred or not. */
  function Undone(s: State, heavy: bool): set<nat> {
    set b | 0 <= b < s.books && b !in s.done && (b in s.heavy <==> heavy)
  }

  lemma {:induction false} FinishesAlone(s: State, w: nat, fails: set<nat>) returns (t: State)
    requires Solo(s, w) && IsIdle(s, w)
    ensures Reaches(s, t) && Solo(t, w) && IsIdle(t, w)
    ensures Finished(s, t, Undone(s, false) + Undone(s, true), fails)
  {
    var u := FinishesAll(s, w, Undone(s, false), fails);
    var v := OpensHeavyPhase(u, w);
    ReachesOn(s, u, v);
    t := FinishesAll(v, w, Undone(s, true), fails);
    ReachesOn(s, v, t);
  }

  /** Whatever schedule of workers, crashes and charges went before: once all is quiet, one worker and
      nobody else can finish the run, deferred books included. Every book ends done; a book that was
      not done has failed if its linking fails, and has its output in place otherwise. */
  lemma {:induction false} AlwaysFinishable(s: State, events: seq<Event>, fails: set<nat>) returns (later: seq<Event>)
    requires Init(s) && Quiet(Run(s, events))
    ensures var r, t := Run(s, events), Run(s, events + later);
      && Quiet(t) && t.duplicates == 0
      && (forall b :: 0 <= b < s.books ==> b in t.done)
      && (forall b :: 0 <= b < s.books && b !in r.done ==> if b in fails then b in t.failed else b in t.output)
      && t.failed <= r.failed + fails && r.done <= t.done && r.output <= t.output
  {
    var r := Run(s, events);
    Reachable(s, events);
    RunKeeps(s, events);
    StepKeeps(r, Spawn(0));
    ReachesNext(r, Spawn(0));
    var u := Next(r, Spawn(0));
    var v := FinishesAlone(u, 0, fails);
    ReachesOn(r, u, v);
    StepKeeps(v, Crash(0));
    ReachesNext(v, Crash(0));
    ReachesOn(r, v, Next(v, Crash(0)));
    later :| Run(r, later) == Next(v, Crash(0));
    RunBoth(s, events, later);
    forall b | 0 <= b < s.books ensures b in v.done {
      if b !in r.done { assert b in Undone(u, b in u.heavy); }
    }
  }

  /** The master closes the book of a killed worker that nobody holds: it is failed and done, its lock
      free again, and nothing else is touched. */
  lemma {:induction false} MasterCloses(s: State, book: nat)
    requires Inv(s) && s.master.Resting? && book < s.books && book !in s.done && book !in s.locks
    ensures Reaches(s, s.(failed := s.failed + {book}, done := s.done + {book}))
  {
    var t := Next(s, Master(Account(book)));
    ReachesNext(s, Master(Account(book)));
    var u := Next(t, Master(ProbeLock));
    ReachesNext(t, Master(ProbeLock));
    ReachesOn(s, t, u);
    var v := Next(u, Master(ChargeFailed));
    ReachesNext(u, Master(ChargeFailed));
    ReachesOn(s, u, v);
    ReachesNext(v, Master(MasterMarks));
    ReachesOn(s, v, Next(v, Master(MasterMarks)));
    FreedAgain(s, book);
  }

  lemma {:induction false} FreedAgain(s: State, book: nat)
    requires LocksOk(s) && s.master.Resting? && book !in s.locks
    ensures Unlocked(s.locks[book := ByMaster], ByMaster) == s.locks
  {
    forall b | b in s.locks ensures s.locks[b] != ByMaster { assert LockOk(s, b); }
  }
}
