/** `OrderedMicroBatcher`: one inference thread serving many HTTP waiters. Every method is one critical
    section under the condition lock, so any order of calls is an interleaving of the threads. */
module MicroBatcher {
  import opened Prelude

  datatype Kind = Kind(lang: string, withSpanText: bool)
  type Answer = string

  /** `_Ticket`. Tickets are named by their submission number. */
  datatype Ticket = Ticket(texts: seq<string>, kind: Kind, offset: nat, remaining: nat, results: seq<Option<Answer>>,
                           error: Option<string>, cancelled: bool, complete: bool)

  /** One ticket's share of a model batch: its texts from `start` up to `end`. */
  datatype Segment = Segment(ticket: nat, start: nat, end: nat)

  datatype Batch = Batch(segments: seq<Segment>, texts: seq<string>, kind: Kind)

  /** What the pinned model returns for each text of a batch, in order. */
  function Answers(model: (string, Kind) -> Answer, texts: seq<string>, kind: Kind): seq<Answer> {
    seq(|texts|, i requires 0 <= i < |texts| => model(texts[i], kind))
  }

  function Filled(answers: seq<Answer>): seq<Option<Answer>> {
    seq(|answers|, i requires 0 <= i < |answers| => Some(answers[i]))
  }

  function Blank(n: nat): seq<Option<Answer>> {
    seq(n, _ => None)
  }

  /** Answered up to `offset`, in order, and nothing beyond; ended in exactly one way, or not at all. */
  ghost predicate Sound(model: (string, Kind) -> Answer, t: Ticket) {
    && t.texts != [] && t.offset <= |t.texts| && t.remaining == |t.texts| - t.offset
    && t.results == Filled(Answers(model, t.texts[..t.offset], t.kind)) + Blank(t.remaining)
    && (t.complete ==> !t.cancelled && (t.error.None? <==> t.offset == |t.texts|))
    && (!t.complete ==> t.error.None? && t.offset < |t.texts|)
  }

  /** The texts one share, and a list of shares, stand for. */
  function Part(tickets: seq<Ticket>, s: Segment): seq<string> {
    if InRange(tickets, s) then tickets[s.ticket].texts[s.start..s.end] else []
  }

  function Parts(tickets: seq<Ticket>, segments: seq<Segment>): seq<seq<string>> {
    seq(|segments|, k requires 0 <= k < |segments| => Part(tickets, segments[k]))
  }

  function Gathered(tickets: seq<Ticket>, segments: seq<Segment>): seq<string> {
    Concat(Parts(tickets, segments))
  }

  predicate InRange(tickets: seq<Ticket>, s: Segment) {
    s.ticket < |tickets| && s.start < s.end <= |tickets[s.ticket].texts|
  }

  /** A ticket waiting for the model: not ended, and its texts so far sent are those answered. */
  predicate Waiting(tickets: seq<Ticket>, sent: seq<nat>, id: nat) {
    && id < |tickets| && id < |sent|
    && !tickets[id].complete && !tickets[id].cancelled && sent[id] == tickets[id].offset
  }

  /** A share being computed: it starts where the ticket stands, and was sent once. */
  predicate Flying(tickets: seq<Ticket>, sent: seq<nat>, kind: Kind, s: Segment) {
    && InRange(tickets, s) && s.ticket < |sent|
    && !tickets[s.ticket].complete && tickets[s.ticket].kind == kind
    && s.start == tickets[s.ticket].offset && sent[s.ticket] == s.end
  }

  /** The batch in flight: never empty, at most `max` texts, one kind, only its last share partial. */
  ghost predicate BatchSound(tickets: seq<Ticket>, sent: seq<nat>, max: nat, b: Batch) {
    && b.segments != []
    && (forall k :: 0 <= k < |b.segments| ==> Flying(tickets, sent, b.kind, b.segments[k]))
    && (forall k :: 0 <= k < |b.segments| - 1 ==> b.segments[k].end == |tickets[b.segments[k].ticket].texts|)
    && (forall j, k :: 0 <= j < k < |b.segments| ==> b.segments[j].ticket != b.segments[k].ticket)
    && b.texts == Gathered(tickets, b.segments) && 0 < |b.texts| <= max
  }

  predicate Aboard(segments: seq<Segment>, id: nat) {
    exists k :: 0 <= k < |segments| && segments[k].ticket == id
  }

  /** What no step ever undoes: requests keep their texts, and an ended request stays as it ended. */
  ghost predicate Settled(before: seq<Ticket>, after: seq<Ticket>) {
    && |before| <= |after|
    && (forall id :: 0 <= id < |before| ==> after[id].texts == before[id].texts && after[id].kind == before[id].kind)
    && (forall id :: 0 <= id < |before| && (before[id].complete || before[id].cancelled) ==> after[id] == before[id])
  }

  lemma {:induction false} SettledTransitive(a: seq<Ticket>, b: seq<Ticket>, c: seq<Ticket>)
    requires Settled(a, b) && Settled(b, c)
    ensures Settled(a, c)
  {}

  lemma {:induction false} GatheredSame(a: seq<Ticket>, b: seq<Ticket>, segments: seq<Segment>)
    requires forall k :: 0 <= k < |segments| ==> Part(a, segments[k]) == Part(b, segments[k])
    ensures Gathered(a, segments) == Gathered(b, segments)
  {
    assert Parts(a, segments) == Parts(b, segments);
  }

  // ---------------------------------------------------------------------------------------
  // The invariant, on values
  // ---------------------------------------------------------------------------------------

  ghost predicate TicketsSound(model: (string, Kind) -> Answer, tickets: seq<Ticket>) {
    forall id :: 0 <= id < |tickets| ==> Sound(model, tickets[id])
  }

  ghost predicate QueueSound(tickets: seq<Ticket>, sent: seq<nat>, pending: seq<nat>) {
    && (forall k :: 0 <= k < |pending| ==> Waiting(tickets, sent, pending[k]))
    && (forall j, k :: 0 <= j < k < |pending| ==> pending[j] != pending[k])
  }

  ghost predicate FlightSound(tickets: seq<Ticket>, sent: seq<nat>, pending: seq<nat>, max: nat, running: Option<Batch>)
  {
    running.Some? ==>
      && BatchSound(tickets, sent, max, running.value)
      && (forall k :: 0 <= k < |running.value.segments| ==> running.value.segments[k].ticket !in pending)
  }

  /** Nobody is forgotten: a request has ended, or is queued, or is being computed. */
  ghost predicate NobodyLost(tickets: seq<Ticket>, pending: seq<nat>, running: Option<Batch>) {
    forall id :: 0 <= id < |tickets| ==> Found(tickets, pending, running, id)
  }

  predicate Found(tickets: seq<Ticket>, pending: seq<nat>, running: Option<Batch>, id: nat)
    requires id < |tickets|
  {
    tickets[id].complete || tickets[id].cancelled || id in pending
        || (running.Some? && Aboard(running.value.segments, id))
  }

  lemma {:induction false} SubmitQueue(tickets: seq<Ticket>, sent: seq<nat>, pending: seq<nat>, t: Ticket)
    requires |sent| == |tickets| && QueueSound(tickets, sent, pending) && !t.complete && !t.cancelled && t.offset == 0
    ensures QueueSound(tickets + [t], sent + [0], pending + [|tickets|])
  {
    forall k | 0 <= k < |pending| ensures Waiting(tickets + [t], sent + [0], pending[k]) {
      assert Waiting(tickets, sent, pending[k]);
    }
  }

  lemma {:induction false} SubmitFlight(tickets: seq<Ticket>, sent: seq<nat>, pending: seq<nat>, max: nat,
      running: Option<Batch>, t: Ticket)
    requires |sent| == |tickets| && FlightSound(tickets, sent, pending, max, running)
    ensures FlightSound(tickets + [t], sent + [0], pending + [|tickets|], max, running)
  {
    if running.Some? {
      var b := running.value;
      forall k | 0 <= k < |b.segments| ensures Flying(tickets + [t], sent + [0], b.kind, b.segments[k]) {
        assert Flying(tickets, sent, b.kind, b.segments[k]);
      }
      GatheredSame(tickets, tickets + [t], b.segments);
    }
  }

  lemma {:induction false} SubmitFound(tickets: seq<Ticket>, pending: seq<nat>, running: Option<Batch>, t: Ticket)
    requires NobodyLost(tickets, pending, running)
    ensures NobodyLost(tickets + [t], pending + [|tickets|], running)
  {
    forall id | 0 <= id < |tickets + [t]| ensures Found(tickets + [t], pending + [|tickets|], running, id) {
      if id < |tickets| { assert Found(tickets, pending, running, id); }
    }
  }

  // ---------------------------------------------------------------------------------------
  // Timeouts
  // ---------------------------------------------------------------------------------------

  /** `self._pending.remove(ticket)`, or nothing if it is not there. */
  function Without(queue: seq<nat>, id: nat): seq<nat> {
    if queue == [] then []
    else if queue[|queue| - 1] == id then queue[..|queue| - 1]
    else Without(queue[..|queue| - 1], id) + [queue[|queue| - 1]]
  }

  lemma {:induction false} WithoutMembers(queue: seq<nat>, id: nat)
    requires forall j, k :: 0 <= j < k < |queue| ==> queue[j] != queue[k]
    ensures forall x :: x in Without(queue, id) <==> x in queue && x != id
    ensures forall j, k :: 0 <= j < k < |Without(queue, id)| ==> Without(queue, id)[j] != Without(queue, id)[k]
  {
    if queue == [] {
    } else {
      var n := |queue| - 1;
      var init := Without(queue[..n], id);
      WithoutMembers(queue[..n], id);
      assert queue == queue[..n] + [queue[n]];
      forall k | 0 <= k < |init| ensures init[k] != queue[n] { assert init[k] in queue[..n]; }
    }
  }

  /** The others keep their order. */
  lemma {:induction false} WithoutOrder(front: seq<nat>, id: nat, rest: seq<nat>)
    requires id !in rest
    ensures Without(front + [id] + rest, id) == front + rest
  {
    if rest == [] {
      assert front + [id] + rest == front + [id] && front + rest == front;
      assert (front + [id])[..|front|] == front;
    } else {
      var n := |rest| - 1;
      var queue := front + [id] + rest;
      assert queue[..|queue| - 1] == front + [id] + rest[..n] && queue[|queue| - 1] == rest[n];
      WithoutOrder(front, id, rest[..n]);
      assert front + rest[..n] + [rest[n]] == front + rest;
    }
  }

  lemma {:induction false} WithoutAbsent(queue: seq<nat>, id: nat)
    requires id !in queue
    ensures Without(queue, id) == queue
  {
    if queue == [] {
    } else {
      WithoutAbsent(queue[..|queue| - 1], id);
      assert queue == queue[..|queue| - 1] + [queue[|queue| - 1]];
    }
  }

  /** Just the place of `id` is taken out of the queue. */
  lemma {:induction false} WithoutKeepsOrder(queue: seq<nat>, id: nat)
    requires forall j, k :: 0 <= j < k < |queue| ==> queue[j] != queue[k]
    ensures
      if id in queue then
        exists k :: 0 <= k < |queue| && queue[k] == id && Without(queue, id) == queue[..k] + queue[k + 1..]
      else Without(queue, id) == queue
  {
    if id in queue {
      var k :| 0 <= k < |queue| && queue[k] == id;
      assert queue == queue[..k] + [id] + queue[k + 1..];
      WithoutOrder(queue[..k], id, queue[k + 1..]);
    } else {
      WithoutAbsent(queue, id);
    }
  }

  function Cancel(tickets: seq<Ticket>, id: nat): seq<Ticket>
    requires id < |tickets|
  {
    tickets[id := tickets[id].(cancelled := true)]
  }

  lemma {:induction false} CancelQueue(tickets: seq<Ticket>, sent: seq<nat>, pending: seq<nat>, id: nat)
    requires id < |tickets| == |sent| && QueueSound(tickets, sent, pending)
    ensures QueueSound(Cancel(tickets, id), sent, Without(pending, id))
  {
    WithoutMembers(pending, id);
    var rest := Without(pending, id);
    forall k | 0 <= k < |rest| ensures Waiting(Cancel(tickets, id), sent, rest[k]) {
      assert rest[k] in rest;
      var j :| 0 <= j < |pending| && pending[j] == rest[k];
      assert Waiting(tickets, sent, pending[j]);
    }
  }

  lemma {:induction false} CancelFlight(tickets: seq<Ticket>, sent: seq<nat>, pending: seq<nat>, max: nat,
      running: Option<Batch>, id: nat)
    requires id < |tickets| == |sent| && QueueSound(tickets, sent, pending)
    requires FlightSound(tickets, sent, pending, max, running)
    ensures FlightSound(Cancel(tickets, id), sent, Without(pending, id), max, running)
  {
    WithoutMembers(pending, id);
    if running.Some? {
      var b := running.value;
      forall k | 0 <= k < |b.segments| ensures Flying(Cancel(tickets, id), sent, b.kind, b.segments[k]) {
        assert Flying(tickets, sent, b.kind, b.segments[k]);
      }
      GatheredSame(tickets, Cancel(tickets, id), b.segments);
    }
  }

  lemma {:induction false} CancelFound(tickets: seq<Ticket>, sent: seq<nat>, pending: seq<nat>, running: Option<Batch>,
      id: nat)
    requires id < |tickets| && QueueSound(tickets, sent, pending) && NobodyLost(tickets, pending, running)
    ensures NobodyLost(Cancel(tickets, id), Without(pending, id), running)
  {
    WithoutMembers(pending, id);
    forall j | 0 <= j < |tickets| ensures Found(Cancel(tickets, id), Without(pending, id), running, j) {
      assert Found(tickets, pending, running, j);
    }
  }

  // ---------------------------------------------------------------------------------------
  // Taking a batch
  // ---------------------------------------------------------------------------------------

  /** Unanswered texts of the leading requests of one kind. */
  function Ready(tickets: seq<Ticket>, queue: seq<nat>, kind: Kind): nat
    requires Bounded(tickets, queue)
  {
    if queue == [] || tickets[queue[0]].kind != kind then 0
    else |tickets[queue[0]].texts| - tickets[queue[0]].offset + Ready(tickets, queue[1..], kind)
  }

  predicate Bounded(tickets: seq<Ticket>, queue: seq<nat>) {
    forall k :: 0 <= k < |queue| ==> queue[k] < |tickets| && tickets[queue[k]].offset <= |tickets[queue[k]].texts|
  }

  /** The texts still to be answered, of all requests queued, in order. */
  function Unanswered(tickets: seq<Ticket>, queue: seq<nat>): seq<string>
    requires Bounded(tickets, queue)
  {
    if queue == [] then []
    else
      var last := tickets[queue[|queue| - 1]];
      Unanswered(tickets, queue[..|queue| - 1]) + last.texts[last.offset..]
  }

  /** The first `n` requests are of one kind. */
  predicate OfKind(tickets: seq<Ticket>, queue: seq<nat>, n: nat, kind: Kind)
    requires Bounded(tickets, queue)
  {
    n <= |queue| && forall k :: 0 <= k < n ==> tickets[queue[k]].kind == kind
  }

  lemma {:induction false} UnansweredFront(tickets: seq<Ticket>, queue: seq<nat>)
    requires Bounded(tickets, queue) && queue != []
    ensures Unanswered(tickets, queue) ==
      tickets[queue[0]].texts[tickets[queue[0]].offset..] + Unanswered(tickets, queue[1..])
  {
    var n := |queue| - 1;
    var first := tickets[queue[0]].texts[tickets[queue[0]].offset..];
    if n == 0 {
      assert Unanswered(tickets, queue[..0]) == [] && Unanswered(tickets, queue[1..]) == [];
    } else {
      UnansweredFront(tickets, queue[..n]);
      assert queue[..n][1..] == queue[1..][..n - 1];
      Associative(first, Unanswered(tickets, queue[1..][..n - 1]), tickets[queue[n]].texts[tickets[queue[n]].offset..]);
    }
  }

  /** No leading requests of one kind hold more unanswered texts than `Ready` counts. */
  lemma {:induction false} ReadyCounts(tickets: seq<Ticket>, queue: seq<nat>, kind: Kind, n: nat)
    requires Bounded(tickets, queue) && OfKind(tickets, queue, n, kind)
    ensures |Unanswered(tickets, queue[..n])| <= Ready(tickets, queue, kind)
  {
    if n == 0 {
    } else {
      forall k | 0 <= k < n - 1 ensures tickets[queue[1..][k]].kind == kind { assert queue[1..][k] == queue[k + 1]; }
      ReadyCounts(tickets, queue[1..], kind, n - 1);
      UnansweredFront(tickets, queue[..n]);
      assert queue[..n][1..] == queue[1..][..n - 1];
    }
  }

  /** And some hold just as many. */
  lemma {:induction false} ReadyAttained(tickets: seq<Ticket>, queue: seq<nat>, kind: Kind) returns (n: nat)
    requires Bounded(tickets, queue)
    ensures OfKind(tickets, queue, n, kind) && |Unanswered(tickets, queue[..n])| == Ready(tickets, queue, kind)
  {
    if queue == [] || tickets[queue[0]].kind != kind {
      n := 0;
    } else {
      var m := ReadyAttained(tickets, queue[1..], kind);
      n := m + 1;
      forall k | 0 <= k < n ensures tickets[queue[k]].kind == kind {
        if k > 0 { assert queue[1..][k - 1] == queue[k]; }
      }
      UnansweredFront(tickets, queue[..n]);
      assert queue[..n][1..] == queue[1..][..m];
    }
  }

  /** The leading requests of one kind hold a full batch of unanswered texts. */
  ghost predicate HoldsBatch(tickets: seq<Ticket>, queue: seq<nat>, kind: Kind, max: nat)
    requires Bounded(tickets, queue)
  {
    exists n: nat :: OfKind(tickets, queue, n, kind) && |Unanswered(tickets, queue[..n])| >= max
  }

  lemma {:induction false} ReadyIsFull(tickets: seq<Ticket>, queue: seq<nat>, kind: Kind, max: nat)
    requires Bounded(tickets, queue)
    ensures Ready(tickets, queue, kind) >= max <==> HoldsBatch(tickets, queue, kind, max)
  {
    var n := ReadyAttained(tickets, queue, kind);
    if m: nat :| OfKind(tickets, queue, m, kind) && |Unanswered(tickets, queue[..m])| >= max {
      ReadyCounts(tickets, queue, kind, m);
    }
  }

  predicate Share(tickets: seq<Ticket>, kind: Kind, id: nat, s: Segment) {
    InRange(tickets, s) && s.ticket == id && s.start == tickets[id].offset && tickets[id].kind == kind
  }

  /** The state of `_take_batch` after `n` queued requests have given their share. */
  ghost predicate Loading(tickets: seq<Ticket>, queue: seq<nat>, kind: Kind, max: nat, n: nat, segments: seq<Segment>,
      texts: seq<string>, capacity: nat)
  {
    && n == |segments| <= |queue|
    && (forall k :: 0 <= k < n ==> Share(tickets, kind, queue[k], segments[k]))
    && (forall k :: 0 <= k < n && (k < n - 1 || capacity > 0) ==> segments[k].end == |tickets[queue[k]].texts|)
    && texts == Gathered(tickets, segments)
    && |texts| + capacity == max
    && (n > 0 ==> texts != [])
  }

  lemma {:induction false} LoadOne(tickets: seq<Ticket>, queue: seq<nat>, kind: Kind, max: nat, n: nat,
      segments: seq<Segment>, texts: seq<string>, capacity: nat, s: Segment)
    requires Loading(tickets, queue, kind, max, n, segments, texts, capacity) && n < |queue| && capacity > 0
    requires Share(tickets, kind, queue[n], s)
    requires s.end - s.start <= capacity && (s.end - s.start < capacity ==> s.end == |tickets[s.ticket].texts|)
    ensures Loading(tickets, queue, kind, max, n + 1, segments + [s], texts + tickets[s.ticket].texts[s.start..s.end],
        capacity - (s.end - s.start))
  {
    var longer := segments + [s];
    assert Parts(tickets, longer)[..n] == Parts(tickets, segments);
    forall k | 0 <= k < n + 1 ensures Share(tickets, kind, queue[k], longer[k]) {
      if k < n { assert Share(tickets, kind, queue[k], segments[k]); }
    }
  }

  lemma {:induction false} WholeShares(tickets: seq<Ticket>, queue: seq<nat>, kind: Kind, segments: seq<Segment>)
    requires Bounded(tickets, queue) && |segments| == |queue|
    requires forall k :: 0 <= k < |queue| ==>
      Share(tickets, kind, queue[k], segments[k]) && segments[k].end == |tickets[queue[k]].texts|
    ensures Gathered(tickets, segments) == Unanswered(tickets, queue)
  {
    if queue == [] {
    } else {
      var n := |queue| - 1;
      WholeShares(tickets, queue[..n], kind, segments[..n]);
      assert Parts(tickets, segments)[..n] == Parts(tickets, segments[..n]);
      assert Share(tickets, kind, queue[n], segments[n]);
    }
  }

  /** The texts sent are the first unanswered ones of the leading requests of one kind: a full batch, or
      all there are. */
  ghost predicate Greedy(tickets: seq<Ticket>, queue: seq<nat>, kind: Kind, max: nat, n: nat, texts: seq<string>)
    requires Bounded(tickets, queue)
  {
    && 0 < n && OfKind(tickets, queue, n, kind) && |texts| <= max
    && texts <= Unanswered(tickets, queue[..n])
    && (|texts| < max ==>
          texts == Unanswered(tickets, queue[..n]) && (n < |queue| ==> tickets[queue[n]].kind != kind))
  }

  lemma {:induction false} LoadedTexts(tickets: seq<Ticket>, queue: seq<nat>, kind: Kind, max: nat, n: nat,
      segments: seq<Segment>, texts: seq<string>, capacity: nat)
    requires Bounded(tickets, queue) && 0 < n && Loading(tickets, queue, kind, max, n, segments, texts, capacity)
    requires capacity > 0 && n < |queue| ==> tickets[queue[n]].kind != kind
    ensures Greedy(tickets, queue, kind, max, n, texts)
  {
    forall k | 0 <= k < n ensures tickets[queue[k]].kind == kind { assert Share(tickets, kind, queue[k], segments[k]); }
    var m := n - 1;
    WholeShares(tickets, queue[..m], kind, segments[..m]);
    assert Parts(tickets, segments)[..m] == Parts(tickets, segments[..m]);
    assert queue[..n][..m] == queue[..m];
    assert Share(tickets, kind, queue[m], segments[m]);
    var last := tickets[queue[m]];
    assert last.texts[last.offset..segments[m].end] <= last.texts[last.offset..];
  }

  /** Remember how far each ticket's texts have been sent. */
  ghost function MarkSent(sent: seq<nat>, segments: seq<Segment>): (after: seq<nat>)
    ensures |after| == |sent|
  {
    if segments == [] then sent
    else
      var s, before := segments[|segments| - 1], MarkSent(sent, segments[..|segments| - 1]);
      if s.ticket < |sent| then before[s.ticket := s.end] else before
  }

  /** Every share starts exactly where its ticket's texts were last sent. */
  predicate SentOnce(sent: seq<nat>, segments: seq<Segment>) {
    forall k :: 0 <= k < |segments| ==> segments[k].ticket < |sent| && segments[k].start == sent[segments[k].ticket]
  }

  lemma {:induction false} MarkSentAt(sent: seq<nat>, segments: seq<Segment>)
    requires forall j, k :: 0 <= j < k < |segments| ==> segments[j].ticket != segments[k].ticket
    ensures forall k :: 0 <= k < |segments| && segments[k].ticket < |sent| ==>
        MarkSent(sent, segments)[segments[k].ticket] == segments[k].end
    ensures forall id :: 0 <= id < |sent| && !Aboard(segments, id) ==> MarkSent(sent, segments)[id] == sent[id]
  {
    if segments == [] {
    } else {
      var n := |segments| - 1;
      MarkSentAt(sent, segments[..n]);
      forall id | 0 <= id < |sent| && !Aboard(segments, id) ensures MarkSent(sent, segments)[id] == sent[id] {
        assert segments[n].ticket != id;
        assert !Aboard(segments[..n], id);
      }
    }
  }

  /** Leaving with the first `n` requests: the rest stay queued, and each text goes out once. */
  lemma {:induction false} DepartSound(tickets: seq<Ticket>, sent: seq<nat>, queue: seq<nat>, max: nat, n: nat,
      b: Batch, capacity: nat)
    requires |sent| == |tickets| && QueueSound(tickets, sent, queue) && 0 < n
    requires Loading(tickets, queue, b.kind, max, n, b.segments, b.texts, capacity)
    ensures SentOnce(sent, b.segments)
    ensures QueueSound(tickets, MarkSent(sent, b.segments), queue[n..])
    ensures FlightSound(tickets, MarkSent(sent, b.segments), queue[n..], max, Some(b))
  {
    var after := MarkSent(sent, b.segments);
    MarkSentAt(sent, b.segments);
    forall k | 0 <= k < |queue[n..]| ensures Waiting(tickets, after, queue[n..][k]) {
      assert Waiting(tickets, sent, queue[n + k]);
      assert !Aboard(b.segments, queue[n + k]);
    }
    forall k | 0 <= k < |b.segments| ensures Flying(tickets, after, b.kind, b.segments[k]) {
      assert Waiting(tickets, sent, queue[k]) && Share(tickets, b.kind, queue[k], b.segments[k]);
    }
  }

  lemma {:induction false} DepartFound(tickets: seq<Ticket>, queue: seq<nat>, n: nat, b: Batch)
    requires n == |b.segments| <= |queue| && (forall k :: 0 <= k < n ==> b.segments[k].ticket == queue[k])
    requires NobodyLost(tickets, queue, None)
    ensures NobodyLost(tickets, queue[n..], Some(b))
  {
    forall id | 0 <= id < |tickets| ensures Found(tickets, queue[n..], Some(b), id) {
      assert Found(tickets, queue, None, id);
      if id in queue {
        var k :| 0 <= k < |queue| && queue[k] == id;
        if k < n { assert b.segments[k].ticket == id; } else { assert queue[n..][k - n] == id; }
      }
    }
  }

  function Riders(segments: seq<Segment>): seq<nat> {
    seq(|segments|, k requires 0 <= k < |segments| => segments[k].ticket)
  }

  lemma {:induction false} RidersAre(segments: seq<Segment>, queue: seq<nat>, n: nat)
    requires n == |segments| <= |queue| && forall k :: 0 <= k < n ==> segments[k].ticket == queue[k]
    ensures queue == Riders(segments) + queue[n..]
  {}

  // ---------------------------------------------------------------------------------------
  // Answers and failures
  // ---------------------------------------------------------------------------------------

  /** A ticket credited with the answers to one share. */
  function Credit(t: Ticket, s: Segment, part: seq<Answer>): Ticket
    requires s.start < s.end <= |t.results| && s.end - s.start <= t.remaining
  {
    var left := t.remaining - (s.end - s.start);
    t.(results := t.results[..s.start] + Filled(part) + t.results[s.end..], offset := s.end, remaining := left,
        complete := left == 0)
  }

  function Fail(t: Ticket, error: string): Ticket {
    t.(error := Some(error), complete := true)
  }

  lemma {:induction false} CreditSound(model: (string, Kind) -> Answer, t: Ticket, s: Segment)
    requires Sound(model, t) && !t.complete && s.start == t.offset < s.end <= |t.texts|
    ensures s.end <= |t.results| && s.end - s.start <= t.remaining
    ensures !t.cancelled ==> Sound(model, Credit(t, s, Answers(model, t.texts[s.start..s.end], t.kind)))
  {}

  /** What a step does to the tickets aboard: `update` each that is not cancelled, in turn. */
  function Updated(tickets: seq<Ticket>, segments: seq<Segment>,
      update: (Ticket, Segment) -> Ticket): (after: seq<Ticket>)
    ensures |after| == |tickets|
  {
    if segments == [] then tickets
    else
      var s, before := segments[|segments| - 1], Updated(tickets, segments[..|segments| - 1], update);
      if s.ticket < |before| && !before[s.ticket].cancelled then before[s.ticket := update(before[s.ticket], s)]
      else before
  }

  predicate Distinct(segments: seq<Segment>) {
    forall j, k :: 0 <= j < k < |segments| ==> segments[j].ticket != segments[k].ticket
  }

  lemma {:induction false} UpdatedAt(tickets: seq<Ticket>, segments: seq<Segment>, update: (Ticket, Segment) -> Ticket,
      id: nat)
    requires Distinct(segments) && id < |tickets|
    ensures !Aboard(segments, id) || tickets[id].cancelled ==> Updated(tickets, segments, update)[id] == tickets[id]
    ensures forall k :: 0 <= k < |segments| && segments[k].ticket == id && !tickets[id].cancelled ==>
              Updated(tickets, segments, update)[id] == update(tickets[id], segments[k])
  {
    if segments == [] {
    } else {
      var n := |segments| - 1;
      UpdatedAt(tickets, segments[..n], update, id);
      if segments[n].ticket == id {
        assert !Aboard(segments[..n], id);
      } else if k :| 0 <= k < |segments| && segments[k].ticket == id {
        assert segments[..n][k].ticket == id;
      }
    }
  }

  /** How a well-formed answer, and how a failure, changes a ticket. */
  function Crediting(model: (string, Kind) -> Answer): (Ticket, Segment) -> Ticket {
    (t: Ticket, s: Segment) =>
      if s.start < s.end <= |t.results| && s.end <= |t.texts| && s.end - s.start <= t.remaining
      then Credit(t, s, Answers(model, t.texts[s.start..s.end], t.kind)) else t
  }

  function Failing(error: string): (Ticket, Segment) -> Ticket {
    (t: Ticket, s: Segment) => Fail(t, error)
  }

  /** The requests that wait again after a good answer: the last one aboard, if unanswered and not cancelled. */
  function Requeued(tickets: seq<Ticket>, segments: seq<Segment>): seq<nat>
    requires segments != []
  {
    var s := segments[|segments| - 1];
    if s.ticket < |tickets| && !tickets[s.ticket].cancelled && s.end < |tickets[s.ticket].texts| then [s.ticket] else []
  }

  /** What a good answer makes of one ticket. */
  lemma {:induction false} AnsweredTicket(model: (string, Kind) -> Answer, tickets: seq<Ticket>, sent: seq<nat>,
      max: nat, b: Batch, id: nat)
    requires |sent| == |tickets| && BatchSound(tickets, sent, max, b) && id < |tickets| && Sound(model, tickets[id])
    ensures var before, after := tickets[id], Updated(tickets, b.segments, Crediting(model))[id];
      && Sound(model, after) && after.texts == before.texts && after.kind == before.kind
          && after.cancelled == before.cancelled
      && (!Aboard(b.segments, id) || before.cancelled ==> after == before)
      && (Aboard(b.segments, id) && !before.cancelled ==> after.offset == sent[id] && after.error == None)
  {
    UpdatedAt(tickets, b.segments, Crediting(model), id);
    if k :| 0 <= k < |b.segments| && b.segments[k].ticket == id {
      assert Flying(tickets, sent, b.kind, b.segments[k]);
      CreditSound(model, tickets[id], b.segments[k]);
    }
  }

  lemma {:induction false} AnswerTickets(model: (string, Kind) -> Answer, tickets: seq<Ticket>, sent: seq<nat>,
      max: nat, b: Batch)
    requires |sent| == |tickets| && BatchSound(tickets, sent, max, b) && TicketsSound(model, tickets)
    ensures TicketsSound(model, Updated(tickets, b.segments, Crediting(model)))
    ensures Settled(tickets, Updated(tickets, b.segments, Crediting(model)))
  {
    forall id | 0 <= id < |tickets| ensures var after := Updated(tickets, b.segments, Crediting(model))[id];
      Sound(model, after) && after.texts == tickets[id].texts && after.kind == tickets[id].kind
      && (tickets[id].complete || tickets[id].cancelled ==> after == tickets[id])
    {
      assert Sound(model, tickets[id]);
      AnsweredTicket(model, tickets, sent, max, b, id);
      if k :| 0 <= k < |b.segments| && b.segments[k].ticket == id {
        assert Flying(tickets, sent, b.kind, b.segments[k]);
      }
    }
  }

  lemma {:induction false} AnswerQueue(model: (string, Kind) -> Answer, tickets: seq<Ticket>, sent: seq<nat>,
      pending: seq<nat>, max: nat, b: Batch)
    requires |sent| == |tickets| && TicketsSound(model, tickets)
    requires QueueSound(tickets, sent, pending) && FlightSound(tickets, sent, pending, max, Some(b))
    ensures QueueSound(Updated(tickets, b.segments, Crediting(model)), sent, Requeued(tickets, b.segments) + pending)
  {
    var after, queue := Updated(tickets, b.segments, Crediting(model)), Requeued(tickets, b.segments) + pending;
    var last := b.segments[|b.segments| - 1];
    assert Flying(tickets, sent, b.kind, last);
    forall k | 0 <= k < |queue| ensures Waiting(after, sent, queue[k]) {
      var id := queue[k];
      if k < |Requeued(tickets, b.segments)| {
        assert id == last.ticket && Aboard(b.segments, id);
      } else {
        assert id == pending[k - |Requeued(tickets, b.segments)|];
        assert Waiting(tickets, sent, id) && !Aboard(b.segments, id);
      }
      assert Sound(model, tickets[id]);
      AnsweredTicket(model, tickets, sent, max, b, id);
    }
  }

  lemma {:induction false} AnswerFound(model: (string, Kind) -> Answer, tickets: seq<Ticket>, sent: seq<nat>,
      pending: seq<nat>, max: nat, b: Batch)
    requires |sent| == |tickets| && TicketsSound(model, tickets) && BatchSound(tickets, sent, max, b)
    requires NobodyLost(tickets, pending, Some(b))
    ensures NobodyLost(Updated(tickets, b.segments, Crediting(model)), Requeued(tickets, b.segments) + pending, None)
  {
    var after, queue := Updated(tickets, b.segments, Crediting(model)), Requeued(tickets, b.segments) + pending;
    forall id | 0 <= id < |after| ensures Found(after, queue, None, id) {
      assert Found(tickets, pending, Some(b), id) && Sound(model, tickets[id]);
      AnsweredTicket(model, tickets, sent, max, b, id);
      if k :| 0 <= k < |b.segments| && b.segments[k].ticket == id {
        assert Flying(tickets, sent, b.kind, b.segments[k]);
        if k == |b.segments| - 1 && b.segments[k].end < |tickets[id].texts| && !tickets[id].cancelled {
          assert queue[0] == id;
        }
      }
    }
  }

  /** What a failure makes of one ticket. */
  lemma {:induction false} FailedTicket(model: (string, Kind) -> Answer, tickets: seq<Ticket>, segments: seq<Segment>,
      error: string, id: nat)
    requires Distinct(segments) && id < |tickets| && Sound(model, tickets[id])
    requires Aboard(segments, id) ==> !tickets[id].complete
    ensures var before, after := tickets[id], Updated(tickets, segments, Failing(error))[id];
      && Sound(model, after) && after.texts == before.texts && after.kind == before.kind
          && after.offset == before.offset
      && (!Aboard(segments, id) || before.cancelled ==> after == before)
      && (Aboard(segments, id) && !before.cancelled ==> after.complete && after.error == Some(error))
  {
    UpdatedAt(tickets, segments, Failing(error), id);
  }

  /** A request aboard and not cancelled ends with the error; any other is as before. */
  ghost predicate EndsWith(before: seq<Ticket>, segments: seq<Segment>, error: string, after: seq<Ticket>, id: nat)
    requires id < |before| && id < |after|
  {
    if Aboard(segments, id) && !before[id].cancelled then after[id].complete && after[id].error == Some(error)
    else after[id] == before[id]
  }

  lemma {:induction false} FlyingAlive(tickets: seq<Ticket>, sent: seq<nat>, max: nat, b: Batch, id: nat)
    requires |sent| == |tickets| && BatchSound(tickets, sent, max, b) && id < |tickets|
    ensures Distinct(b.segments) && (Aboard(b.segments, id) ==> !tickets[id].complete)
  {
    if k :| 0 <= k < |b.segments| && b.segments[k].ticket == id {
      assert Flying(tickets, sent, b.kind, b.segments[k]);
    }
  }

  /** A request aboard and not cancelled is answered up to the end of its share, and complete if that is
      all of it; any other is as before. */
  ghost predicate AnsweredTo(before: seq<Ticket>, segments: seq<Segment>, after: seq<Ticket>, id: nat)
    requires id < |before| && id < |after|
  {
    && (!Aboard(segments, id) || before[id].cancelled ==> after[id] == before[id])
    && forall k :: 0 <= k < |segments| && segments[k].ticket == id && !before[id].cancelled ==>
      after[id].offset == segments[k].end && after[id].error == before[id].error
      && (after[id].complete <==> segments[k].end == |before[id].texts|)
  }

  lemma {:induction false} AnsweredShare(model: (string, Kind) -> Answer, tickets: seq<Ticket>, sent: seq<nat>,
      max: nat, b: Batch, id: nat)
    requires |sent| == |tickets| && BatchSound(tickets, sent, max, b) && id < |tickets| && Sound(model, tickets[id])
    ensures AnsweredTo(tickets, b.segments, Updated(tickets, b.segments, Crediting(model)), id)
  {
    AnsweredTicket(model, tickets, sent, max, b, id);
    forall k | 0 <= k < |b.segments| && b.segments[k].ticket == id
      ensures Flying(tickets, sent, b.kind, b.segments[k]) {}
  }

  /** Failing some live requests: they end with the error, everyone else is as before. */
  lemma {:induction false} FailTickets(model: (string, Kind) -> Answer, tickets: seq<Ticket>, segments: seq<Segment>,
      error: string)
    requires TicketsSound(model, tickets) && Distinct(segments)
    requires forall k :: 0 <= k < |segments| ==> segments[k].ticket < |tickets| && !tickets[segments[k].ticket].complete
    ensures TicketsSound(model, Updated(tickets, segments, Failing(error)))
    ensures Settled(tickets, Updated(tickets, segments, Failing(error)))
  {
    forall id | 0 <= id < |tickets| ensures var after := Updated(tickets, segments, Failing(error))[id];
      Sound(model, after) && after.texts == tickets[id].texts && after.kind == tickets[id].kind
      && (tickets[id].complete || tickets[id].cancelled ==> after == tickets[id])
    {
      assert Sound(model, tickets[id]);
      FailedTicket(model, tickets, segments, error, id);
    }
  }

  lemma {:induction false} FailQueue(model: (string, Kind) -> Answer, tickets: seq<Ticket>, sent: seq<nat>,
      pending: seq<nat>, segments: seq<Segment>, error: string)
    requires |sent| == |tickets| && QueueSound(tickets, sent, pending) && Distinct(segments)
    requires forall k :: 0 <= k < |segments| ==> segments[k].ticket !in pending
    ensures QueueSound(Updated(tickets, segments, Failing(error)), sent, pending)
  {
    forall k | 0 <= k < |pending| ensures Waiting(Updated(tickets, segments, Failing(error)), sent, pending[k]) {
      assert Waiting(tickets, sent, pending[k]) && !Aboard(segments, pending[k]);
      UpdatedAt(tickets, segments, Failing(error), pending[k]);
    }
  }

  lemma {:induction false} FailFound(model: (string, Kind) -> Answer, tickets: seq<Ticket>, sent: seq<nat>,
      pending: seq<nat>, max: nat, b: Batch, error: string)
    requires |sent| == |tickets| && TicketsSound(model, tickets) && BatchSound(tickets, sent, max, b)
    requires NobodyLost(tickets, pending, Some(b))
    ensures NobodyLost(Updated(tickets, b.segments, Failing(error)), pending, None)
  {
    var after := Updated(tickets, b.segments, Failing(error));
    forall id | 0 <= id < |after| ensures Found(after, pending, None, id) {
      assert Found(tickets, pending, Some(b), id) && Sound(model, tickets[id]);
      if k :| 0 <= k < |b.segments| && b.segments[k].ticket == id {
        assert Flying(tickets, sent, b.kind, b.segments[k]);
      }
      FailedTicket(model, tickets, b.segments, error, id);
    }
  }

  /** A share ready to be credited. */
  predicate Creditable(tickets: seq<Ticket>, kind: Kind, s: Segment) {
    && InRange(tickets, s) && tickets[s.ticket].kind == kind && s.start == tickets[s.ticket].offset
    && |tickets[s.ticket].results| == |tickets[s.ticket].texts|
        && tickets[s.ticket].remaining == |tickets[s.ticket].texts| - s.start
  }

  /** Delivering share k of a batch is one step of `Updated`. */
  lemma {:induction false} DeliverShare(model: (string, Kind) -> Answer, before: seq<Ticket>, b: Batch, k: nat,
      tickets: seq<Ticket>, part: seq<Answer>)
    requires Distinct(b.segments) && k < |b.segments| && Creditable(before, b.kind, b.segments[k])
    requires tickets == Updated(before, b.segments[..k], Crediting(model))
    requires part == Answers(model, before[b.segments[k].ticket].texts[b.segments[k].start..b.segments[k].end], b.kind)
    ensures var s := b.segments[k];
      && s.ticket < |tickets| && tickets[s.ticket] == before[s.ticket]
      && s.start < s.end <= |tickets[s.ticket].results| && s.end - s.start <= tickets[s.ticket].remaining
      && Updated(before, b.segments[..k + 1], Crediting(model)) ==
         if tickets[s.ticket].cancelled then tickets else tickets[s.ticket := Credit(tickets[s.ticket], s, part)]
  {
    assert !Aboard(b.segments[..k], b.segments[k].ticket);
    UpdatedAt(before, b.segments[..k], Crediting(model), b.segments[k].ticket);
    assert b.segments[..k + 1][..k] == b.segments[..k];
  }

  /** The answers to share k are the slice of the batch's answers at its place. */
  lemma {:induction false} AnswerSlice(model: (string, Kind) -> Answer, tickets: seq<Ticket>, b: Batch, k: nat)
    requires k < |b.segments| && InRange(tickets, b.segments[k]) && b.texts == Gathered(tickets, b.segments)
    ensures var s, parts := b.segments[k], Parts(tickets, b.segments);
      var lo, hi := |Concat(parts[..k])|, |Concat(parts[..k + 1])|;
      && hi == lo + (s.end - s.start) && hi <= |b.texts|
      && Answers(model, b.texts, b.kind)[lo..hi] == Answers(model, tickets[s.ticket].texts[s.start..s.end], b.kind)
  {
    var parts := Parts(tickets, b.segments);
    ConcatSlice(parts, k);
    AnswersSlice(model, b.texts, b.kind, |Concat(parts[..k])|, |Concat(parts[..k + 1])|);
  }

  lemma {:induction false} AnswersSlice(model: (string, Kind) -> Answer, texts: seq<string>, kind: Kind, lo: nat,
      hi: nat)
    requires lo <= hi <= |texts|
    ensures Answers(model, texts, kind)[lo..hi] == Answers(model, texts[lo..hi], kind)
  {}

  predicate CreditReady(before: seq<Ticket>, b: Batch) {
    && b.segments != [] && Distinct(b.segments) && b.texts == Gathered(before, b.segments)
    && (forall k :: 0 <= k < |b.segments| ==> Creditable(before, b.kind, b.segments[k]))
    && (forall k :: 0 <= k < |b.segments| - 1 ==> Whole(before, b.segments[k]))
  }

  /** A share that reaches the end of its ticket. */
  predicate Whole(tickets: seq<Ticket>, s: Segment) {
    s.ticket < |tickets| && s.end == |tickets[s.ticket].texts|
  }

  /** How far delivery has come before share k. */
  ghost predicate Delivered(model: (string, Kind) -> Answer, before: seq<Ticket>, b: Batch, k: nat,
      tickets: seq<Ticket>, cursor: nat)
    requires k <= |b.segments|
  {
    tickets == Updated(before, b.segments[..k], Crediting(model)) && cursor == |Concat(Parts(before, b.segments)[..k])|
  }

  /** One share of a well-formed answer; `left` tells whether its ticket still waits for more. */
  method CreditOne(model: (string, Kind) -> Answer, ghost before: seq<Ticket>, b: Batch, k: nat, tickets: seq<Ticket>,
      payload: seq<Answer>, cursor: nat)
    returns (after: seq<Ticket>, left: bool, next: nat)
    requires Distinct(b.segments) && k < |b.segments| && Creditable(before, b.kind, b.segments[k])
    requires b.texts == Gathered(before, b.segments) && payload == Answers(model, b.texts, b.kind)
    requires Delivered(model, before, b, k, tickets, cursor)
    ensures Delivered(model, before, b, k + 1, after, next)
    ensures left <==> !before[b.segments[k].ticket].cancelled && !Whole(before, b.segments[k])
  {
    var s := b.segments[k];
    AnswerSlice(model, before, b, k);
    next := cursor + (s.end - s.start);
    var part := payload[cursor..next];
    DeliverShare(model, before, b, k, tickets, part);
    after, left := tickets, false;
    if !tickets[s.ticket].cancelled {
      after := tickets[s.ticket := Credit(tickets[s.ticket], s, part)];
      left := after[s.ticket].remaining != 0;
    }
  }

  /** The loop over the shares of a well-formed answer. */
  method CreditAll(model: (string, Kind) -> Answer, before: seq<Ticket>, b: Batch, payload: seq<Answer>)
    returns (tickets: seq<Ticket>, partial: seq<nat>)
    requires CreditReady(before, b) && payload == Answers(model, b.texts, b.kind)
    ensures tickets == Updated(before, b.segments, Crediting(model))
    ensures partial == Requeued(before, b.segments)
  {
    tickets, partial := before, [];
    var cursor: nat := 0;
    for k := 0 to |b.segments|
      invariant Delivered(model, before, b, k, tickets, cursor)
      invariant partial == if k == |b.segments| then Requeued(before, b.segments) else []
    {
      assert Creditable(before, b.kind, b.segments[k]) && (k < |b.segments| - 1 ==> Whole(before, b.segments[k]));
      var left;
      tickets, left, cursor := CreditOne(model, before, b, k, tickets, payload, cursor);
      if left {
        partial := [b.segments[k].ticket];
      }
    }
    assert b.segments[..|b.segments|] == b.segments;
  }

  /** The loop that fails every request aboard that is not cancelled. */
  method FailAll(before: seq<Ticket>, segments: seq<Segment>, error: string) returns (tickets: seq<Ticket>)
    requires forall k :: 0 <= k < |segments| ==> segments[k].ticket < |before|
    ensures tickets == Updated(before, segments, Failing(error))
  {
    tickets := before;
    for k := 0 to |segments|
      invariant tickets == Updated(before, segments[..k], Failing(error))
    {
      assert segments[..k + 1][..k] == segments[..k];
      var id := segments[k].ticket;
      if !tickets[id].cancelled {
        tickets := tickets[id := Fail(tickets[id], error)];
      }
    }
    assert segments[..|segments|] == segments;
  }

  lemma {:induction false} FlyingCreditable(model: (string, Kind) -> Answer, tickets: seq<Ticket>, sent: seq<nat>,
      max: nat, b: Batch)
    requires |sent| == |tickets| && TicketsSound(model, tickets) && BatchSound(tickets, sent, max, b)
    ensures CreditReady(tickets, b)
  {
    forall k | 0 <= k < |b.segments| ensures Creditable(tickets, b.kind, b.segments[k]) {
      assert Flying(tickets, sent, b.kind, b.segments[k]) && Sound(model, tickets[b.segments[k].ticket]);
    }
    forall k | 0 <= k < |b.segments| - 1 ensures Whole(tickets, b.segments[k]) {
      assert Flying(tickets, sent, b.kind, b.segments[k]);
    }
  }

  /** Every queued request, as shares to be failed. */
  function Shares(queue: seq<nat>): seq<Segment> {
    seq(|queue|, k requires 0 <= k < |queue| => Segment(queue[k], 0, 1))
  }

  lemma {:induction false} DrainFound(model: (string, Kind) -> Answer, tickets: seq<Ticket>, sent: seq<nat>,
      pending: seq<nat>, error: string)
    requires |sent| == |tickets| && TicketsSound(model, tickets) && QueueSound(tickets, sent, pending)
        && NobodyLost(tickets, pending, None)
    ensures TicketsSound(model, Updated(tickets, Shares(pending), Failing(error)))
    ensures Settled(tickets, Updated(tickets, Shares(pending), Failing(error)))
    ensures NobodyLost(Updated(tickets, Shares(pending), Failing(error)), [], None)
  {
    var segments := Shares(pending);
    forall k | 0 <= k < |segments| ensures segments[k].ticket < |tickets| && !tickets[segments[k].ticket].complete {
      assert Waiting(tickets, sent, pending[k]);
    }
    FailTickets(model, tickets, segments, error);
    forall id | 0 <= id < |tickets| ensures Found(Updated(tickets, segments, Failing(error)), [], None, id) {
      assert Found(tickets, pending, None, id) && Sound(model, tickets[id]);
      if id in pending {
        var k :| 0 <= k < |pending| && pending[k] == id;
        assert segments[k].ticket == id;
      }
      FailedTicket(model, tickets, segments, error, id);
    }
  }

  /** What a waiter asked for. */
  datatype Request = Request(texts: seq<string>, kind: Kind)

  function Requests(tickets: seq<Ticket>): (requests: seq<Request>)
    ensures |requests| == |tickets|
    ensures forall id :: 0 <= id < |tickets| ==> requests[id] == Request(tickets[id].texts, tickets[id].kind)
  {
    seq(|tickets|, id requires 0 <= id < |tickets| => Request(tickets[id].texts, tickets[id].kind))
  }

  datatype Event = Arrives(texts: seq<string>, kind: Kind) | Expires(id: nat) | Wakes(deadlinePassed: bool) | Answered
    | Broke | Aborts

  /** The requests among the events; an empty list never becomes one. */
  function Arrivals(events: seq<Event>): seq<Request> {
    if events == [] then []
    else
      var last := events[|events| - 1];
      Arrivals(events[..|events| - 1])
      + if last.Arrives? && last.texts != [] then [Request(last.texts, last.kind)] else []
  }

  lemma {:induction false} NoArrival(event: Event)
    ensures Arrivals([event]) ==
      if event.Arrives? && event.texts != [] then [Request(event.texts, event.kind)] else []
  {
    assert [event][..0] == [];
  }

  lemma {:induction false} RequestsSettled(before: seq<Ticket>, after: seq<Ticket>)
    requires Settled(before, after) && |before| == |after|
    ensures Requests(after) == Requests(before) + []
  {
    forall id | 0 <= id < |after| ensures Requests(after)[id] == Requests(before)[id] {
      assert after[id].texts == before[id].texts;
    }
  }

  class OrderedMicroBatcher {
    const model: (string, Kind) -> Answer
    const maxTexts: nat
    const waits: bool
    var tickets: seq<Ticket>
    var pending: seq<nat>
    var running: Option<Batch>
    var coalescing: bool
    var raised: bool
    var fatal: bool
    ghost var sent: seq<nat>

    ghost predicate Valid()
      reads this
    {
      && 1 <= maxTexts && |sent| == |tickets|
      && TicketsSound(model, tickets)
      && QueueSound(tickets, sent, pending)
      && FlightSound(tickets, sent, pending, maxTexts, running)
      && NobodyLost(tickets, pending, running)
      && (raised ==> running.None?)
      && (running.Some? ==> !coalescing)
      && (fatal ==> raised && pending == [])
    }

    constructor (model: (string, Kind) -> Answer, maxTexts: int, waits: bool)
      ensures Valid() && tickets == [] && !fatal
    {
      this.model, this.waits := model, waits;
      this.maxTexts := if maxTexts < 1 then 1 else maxTexts;
      tickets, pending, running, coalescing, raised, fatal, sent := [], [], None, false, false, false, [];
    }

    /** The first half of `submit`: `None` for an empty list, which never reaches the queue. */
    method Submit(texts: seq<string>, kind: Kind) returns (r: Result<Option<nat>>)
      requires Valid()
      modifies this`tickets, this`pending, this`sent
      ensures Valid() && Settled(old(tickets), tickets)
      ensures texts == [] ==> r == Ok(None) && tickets == old(tickets) && pending == old(pending)
      ensures texts != [] && fatal ==> r.Raised? && tickets == old(tickets)
      ensures texts != [] && !fatal ==> r == Ok(Some(|old(tickets)|))
      ensures r.Ok? && r.value.Some? ==>
          tickets == old(tickets) + [Ticket(texts, kind, 0, |texts|, Blank(|texts|), None, false, false)]
      ensures r.Ok? && r.value.Some? ==> pending == old(pending) + [|old(tickets)|]
    {
      if texts == [] {
        return Ok(None);
      }
      if fatal {
        return Raised("micro-batcher inference thread is unavailable");
      }
      var id := |tickets|;
      var t := Ticket(texts, kind, 0, |texts|, Blank(|texts|), None, false, false);
      SubmitQueue(tickets, sent, pending, t);
      SubmitFlight(tickets, sent, pending, maxTexts, running, t);
      SubmitFound(tickets, pending, running, t);
      assert Filled(Answers(model, [], kind)) + Blank(|texts|) == Blank(|texts|);
      tickets, sent, pending := tickets + [t], sent + [0], pending + [id];
      return Ok(Some(id));
    }

    /** The second half of `submit`, when the wait for completion timed out. */
    method Expire(id: nat) returns (timedOut: bool)
      requires Valid() && id < |tickets| && !tickets[id].cancelled
      modifies this`tickets, this`pending
      ensures Valid() && Settled(old(tickets), tickets)
      ensures timedOut <==> !old(tickets)[id].complete
      ensures timedOut ==> tickets == Cancel(old(tickets), id) && pending == Without(old(pending), id)
      ensures timedOut ==>
        if id in old(pending) then
          exists k :: 0 <= k < |old(pending)| && old(pending)[k] == id
                      && pending == old(pending)[..k] + old(pending)[k + 1..]
        else pending == old(pending)
      ensures !timedOut ==> tickets == old(tickets) && pending == old(pending)
    {
      if tickets[id].complete {
        return false;
      }
      CancelQueue(tickets, sent, pending, id);
      CancelFlight(tickets, sent, pending, maxTexts, running, id);
      CancelFound(tickets, sent, pending, running, id);
      WithoutKeepsOrder(pending, id);
      tickets, pending := Cancel(tickets, id), Without(pending, id);
      return true;
    }

    /** Whether the head-of-line requests fill a model batch. */
    method Full(kind: Kind) returns (full: bool)
      requires Valid()
      ensures Bounded(tickets, pending)
      ensures full <==> HoldsBatch(tickets, pending, kind, maxTexts)
    {
      QueueBounds();
      ReadyIsFull(tickets, pending, kind, maxTexts);
      var compatible := 0;
      var k := 0;
      while k < |pending| && tickets[pending[k]].kind == kind && compatible < maxTexts
        invariant 0 <= k <= |pending|
        invariant compatible + Ready(tickets, pending[k..], kind) == Ready(tickets, pending, kind)
      {
        assert pending[k..][1..] == pending[k + 1..];
        compatible := compatible + |tickets[pending[k]].texts| - tickets[pending[k]].offset;
        k := k + 1;
      }
      full := compatible >= maxTexts;
    }

    lemma {:induction false} QueueBounds()
      requires Valid()
      ensures forall k :: 0 <= k < |pending| ==>
          pending[k] < |tickets| && tickets[pending[k]].offset < |tickets[pending[k]].texts|
    {
      forall k | 0 <= k < |pending|
        ensures pending[k] < |tickets| && tickets[pending[k]].offset < |tickets[pending[k]].texts|
      {
        assert Waiting(tickets, sent, pending[k]) && Sound(model, tickets[pending[k]]);
      }
    }

    /** The shares of one batch, oldest request first: all the leading requests of one kind, as far
        as the batch holds. No queued request is exhausted, so that error is never raised. */
    method Load() returns (batch: Batch, ghost capacity: nat)
      requires Valid() && pending != []
      ensures Loading(tickets, pending, batch.kind, maxTexts, |batch.segments|, batch.segments, batch.texts, capacity)
      ensures batch.segments != [] && batch.kind == tickets[pending[0]].kind
      ensures capacity > 0 && |batch.segments| < |pending| ==> tickets[pending[|batch.segments|]].kind != batch.kind
    {
      QueueBounds();
      var kind := tickets[pending[0]].kind;
      var segments: seq<Segment>, texts: seq<string>, room := [], [], maxTexts;
      var n := 0;
      while room > 0 && n < |pending| && tickets[pending[n]].kind == kind
        invariant 0 <= n <= |pending| && 0 <= room && (n == 0 ==> room == maxTexts)
        invariant Loading(tickets, pending, kind, maxTexts, n, segments, texts, room)
      {
        var ticket := tickets[pending[n]];
        var start := ticket.offset;
        var count := if room < |ticket.texts| - start then room else |ticket.texts| - start;
        assert count > 0;
        var s := Segment(pending[n], start, start + count);
        LoadOne(tickets, pending, kind, maxTexts, n, segments, texts, room, s);
        texts, segments := texts + ticket.texts[start..start + count], segments + [s];
        room := room - count;
        n := n + 1;
      }
      batch, capacity := Batch(segments, texts, kind), room;
    }

    /** Take the loaded shares off the queue and hand them to the model: each from where its ticket's
        texts were last sent, so no text goes out twice. */
    method Depart()
      requires Valid() && running.None? && !raised && !coalescing && pending != []
      modifies this`pending, this`running, this`sent
      ensures Valid() && running.Some?
      ensures old(pending) != [] && Bounded(tickets, old(pending))
              && running.value.kind == tickets[old(pending)[0]].kind
      ensures exists n: nat :: Greedy(tickets, old(pending), running.value.kind, maxTexts, n, running.value.texts)
      ensures old(pending) == Riders(running.value.segments) + pending
      ensures SentOnce(old(sent), running.value.segments) && sent == MarkSent(old(sent), running.value.segments)
      ensures |running.value.texts| < maxTexts && pending != [] ==>
          pending[0] < |tickets| && tickets[pending[0]].kind != running.value.kind
    {
      QueueBounds();
      ghost var capacity;
      var batch;
      batch, capacity := Load();
      var n := |batch.segments|;
      LoadedTexts(tickets, pending, batch.kind, maxTexts, n, batch.segments, batch.texts, capacity);
      DepartSound(tickets, sent, pending, maxTexts, n, batch, capacity);
      DepartFound(tickets, pending, n, batch);
      RidersAre(batch.segments, pending, n);
      sent := MarkSent(sent, batch.segments);
      pending, running := pending[n..], Some(batch);
    }

    /** One wake-up of the inference thread. It waits only while a full batch is not there yet; if
        timeouts emptied the queue meanwhile, looking at its head raises. */
    method TakeBatch(deadlinePassed: bool) returns (taken: bool)
      requires Valid() && running.None? && !raised
      modifies this`pending, this`running, this`coalescing, this`raised, this`sent
      ensures Valid()
      ensures raised <==> old(coalescing) && old(pending) == []
      ensures taken <==> running.Some?
      ensures !taken ==> pending == old(pending) && sent == old(sent)
      ensures Bounded(tickets, old(pending))
      ensures !taken && pending != [] ==>
          waits && !deadlinePassed && !HoldsBatch(tickets, pending, tickets[pending[0]].kind, maxTexts)
      ensures taken ==> old(pending) != [] && running.value.kind == tickets[old(pending)[0]].kind
      ensures taken ==>
        exists n: nat :: Greedy(tickets, old(pending), running.value.kind, maxTexts, n, running.value.texts)
      ensures taken ==> old(pending) == Riders(running.value.segments) + pending
      ensures taken ==>
          SentOnce(old(sent), running.value.segments) && sent == MarkSent(old(sent), running.value.segments)
      ensures taken && |running.value.texts| < maxTexts && pending != [] ==>
        pending[0] < |tickets| && tickets[pending[0]].kind != running.value.kind
    {
      QueueBounds();
      if pending == [] {
        raised, coalescing := coalescing, false;
        return false;
      }
      if waits && !deadlinePassed {
        var full := Full(tickets[pending[0]].kind);
        if !full {
          coalescing := true;
          return false;
        }
      }
      coalescing := false;
      Depart();
      return true;
    }

    /** A well-formed answer: every share goes to its ticket, and an unfinished ticket goes back to
        the head of the queue. */
    method Deliver(payload: seq<Answer>)
      requires Valid() && running.Some? && payload == Answers(model, running.value.texts, running.value.kind)
      modifies this`tickets, this`pending, this`running
      ensures Valid() && running.None? && Settled(old(tickets), tickets)
      ensures tickets == Updated(old(tickets), old(running).value.segments, Crediting(model))
      ensures pending == Requeued(old(tickets), old(running).value.segments) + old(pending)
      ensures forall id :: 0 <= id < |tickets| ==> AnsweredTo(old(tickets), old(running).value.segments, tickets, id)
    {
      var b := running.value;
      forall id | 0 <= id < |tickets|
        ensures AnsweredTo(tickets, b.segments, Updated(tickets, b.segments, Crediting(model)), id)
      {
        AnsweredShare(model, tickets, sent, maxTexts, b, id);
      }
      AnswerTickets(model, tickets, sent, maxTexts, b);
      AnswerQueue(model, tickets, sent, pending, maxTexts, b);
      AnswerFound(model, tickets, sent, pending, maxTexts, b);
      FlyingCreditable(model, tickets, sent, maxTexts, b);
      var after, partial := CreditAll(model, tickets, b, payload);
      tickets, pending, running := after, partial + pending, None;
    }

    /** The model raised or answered out of shape: every request aboard that is not cancelled fails,
        and none of them is sent again. */
    method FailBatch(error: string)
      requires Valid() && running.Some?
      modifies this`tickets, this`running
      ensures Valid() && running.None? && Settled(old(tickets), tickets)
      ensures tickets == Updated(old(tickets), old(running).value.segments, Failing(error))
      ensures forall id :: 0 <= id < |tickets| ==>
        EndsWith(old(tickets), old(running).value.segments, error, tickets, id)
    {
      var b := running.value;
      forall id | 0 <= id < |tickets|
        ensures EndsWith(tickets, b.segments, error, Updated(tickets, b.segments, Failing(error)), id)
      {
        FlyingAlive(tickets, sent, maxTexts, b, id);
        FailedTicket(model, tickets, b.segments, error, id);
      }
      FlyingCreditable(model, tickets, sent, maxTexts, b);
      FailTickets(model, tickets, b.segments, error);
      FailQueue(model, tickets, sent, pending, b.segments, error);
      FailFound(model, tickets, sent, pending, maxTexts, b, error);
      tickets := FailAll(tickets, b.segments, error);
      running := None;
    }

    /** What the inference thread does when the model call comes back. */
    method Returned(payload: Option<seq<Answer>>)
      requires Valid() && running.Some?
      requires payload.Some? && |payload.value| == |running.value.texts| ==>
          payload.value == Answers(model, running.value.texts, running.value.kind)
      modifies this`tickets, this`pending, this`running
      ensures Valid() && running.None? && Settled(old(tickets), tickets)
      ensures var segments := old(running).value.segments;
        if payload.None? || |payload.value| != |old(running).value.texts| then
          tickets == Updated(old(tickets), segments, Failing("GPU model returned invalid micro-batch result shape"))
          && pending == old(pending)
        else
          tickets == Updated(old(tickets), segments, Crediting(model))
          && pending == Requeued(old(tickets), segments) + old(pending)
    {
      if payload.None? || |payload.value| != |running.value.texts| {
        FailBatch("GPU model returned invalid micro-batch result shape");
      } else {
        Deliver(payload.value);
      }
    }

    /** After the scheduler raised: fail everyone still queued, and every later request. */
    method Abort()
      requires Valid() && raised && !fatal
      modifies this`tickets, this`pending, this`fatal
      ensures Valid() && fatal && Settled(old(tickets), tickets)
      ensures forall id :: 0 <= id < |tickets| ==> tickets[id].complete || tickets[id].cancelled
      ensures tickets == Updated(old(tickets), Shares(old(pending)), Failing("micro-batcher scheduler failed"))
    {
      var error := "micro-batcher scheduler failed";
      DrainFound(model, tickets, sent, pending, error);
      QueueBounds();
      tickets := FailAll(tickets, Shares(pending), error);
      fatal, pending := true, [];
      forall id | 0 <= id < |tickets| ensures tickets[id].complete || tickets[id].cancelled {
        assert Found(tickets, [], None, id);
      }
    }

    /** The end of `submit` once the ticket completed: its answers in order, or its error; answers are
        never missing. */
    method Collect(id: nat) returns (r: Result<seq<Answer>>)
      requires Valid() && id < |tickets| && tickets[id].complete
      ensures r.Ok? <==> tickets[id].error.None?
      ensures r.Ok? ==> r.value == Answers(model, tickets[id].texts, tickets[id].kind)
    {
      var t := tickets[id];
      assert Sound(model, t);
      if t.error.Some? {
        return Raised(t.error.value);
      }
      assert t.texts[..t.offset] == t.texts;
      assert t.results == Filled(Answers(model, t.texts, t.kind));
      if exists i :: 0 <= i < |t.results| && t.results[i].None? {
        return Raised("micro-batcher completed a request with missing results");
      }
      return Ok(seq(|t.results|, i requires 0 <= i < |t.results| => t.results[i].value));
    }

    /** Any interleaving of waiters and the inference thread: unless the scheduler died, every request that
        arrived has its ticket, in order of arrival. */
    method Run(events: seq<Event>)
      requires Valid()
      modifies this
      ensures Valid() && Settled(old(tickets), tickets)
      ensures !fatal ==> Requests(tickets) == old(Requests(tickets)) + Arrivals(events)
    {
      assert Requests(tickets) + [] == Requests(tickets);
      for k := 0 to |events|
        invariant Valid() && Settled(old(tickets), tickets)
        invariant !fatal ==> Requests(tickets) == old(Requests(tickets)) + Arrivals(events[..k])
      {
        ghost var before := tickets;
        Handle(events[k]);
        SettledTransitive(old(tickets), before, tickets);
        assert events[..k + 1][..k] == events[..k];
      }
      assert events[..|events|] == events;
    }

    /** One event; an event that cannot happen now is skipped. */
    method Handle(event: Event)
      requires Valid()
      modifies this
      ensures Valid() && Settled(old(tickets), tickets) && (old(fatal) ==> fatal)
      ensures !fatal ==> Requests(tickets) == old(Requests(tickets)) + Arrivals([event])
      ensures event.Wakes? && old(running.None? && !raised && pending != []) && (event.deadlinePassed || !waits) ==>
        running.Some?
      ensures event.Answered? || event.Broke? ==> running.None?
      ensures event.Aborts? && old(raised) ==> fatal
    {
      NoArrival(event);
      if event.Arrives? || event.Expires? {
        HandleWaiter(event);
      } else {
        HandleThread(event);
        RequestsSettled(old(tickets), tickets);
      }
    }

    method HandleWaiter(event: Event)
      requires Valid() && (event.Arrives? || event.Expires?)
      modifies this`tickets, this`pending, this`sent
      ensures Valid() && Settled(old(tickets), tickets)
      ensures !fatal ==> Requests(tickets) == old(Requests(tickets)) + Arrivals([event])
      ensures event.Expires? && event.id < |old(tickets)| && !old(tickets)[event.id].complete ==>
        tickets[event.id].cancelled
    {
      NoArrival(event);
      if event.Arrives? {
        var r := Submit(event.texts, event.kind);
        if r == Ok(None) { RequestsSettled(old(tickets), tickets); }
      } else {
        if event.id < |tickets| && !tickets[event.id].cancelled { var timedOut := Expire(event.id); }
        RequestsSettled(old(tickets), tickets);
      }
    }

    method HandleThread(event: Event)
      requires Valid() && !event.Arrives? && !event.Expires?
      modifies this
      ensures Valid() && Settled(old(tickets), tickets) && |tickets| == |old(tickets)| && (old(fatal) ==> fatal)
      ensures event.Wakes? && old(running.None? && !raised && pending != []) && (event.deadlinePassed || !waits) ==>
        running.Some?
      ensures event.Answered? || event.Broke? ==> running.None?
      ensures event.Aborts? && old(raised) ==> fatal
    {
      match event
      case Wakes(deadlinePassed) =>
        if running.None? && !raised { var taken := TakeBatch(deadlinePassed); }
      case Answered =>
        if running.Some? { Returned(Some(Answers(model, running.value.texts, running.value.kind))); }
      case Broke =>
        if running.Some? { Returned(None); }
      case Aborts =>
        if raised && !fatal { Abort(); }
    }
  }
}
