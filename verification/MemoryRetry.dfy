/** Memory retries of one heavy book (`claim_memory_requeue`): when another attempt is granted, and why
    the attempts come to an end. */
module MemoryRetry {
  import opened Prelude

  /** What a retry marker records. `committed` is missing in records that never counted shards. */
  datatype Attempt = Attempt(committed: Option<int>, governor: bool)

  /** A marker as it reads back; a torn one tells nothing. */
  datatype Marker = Torn | Written(attempt: Attempt)

  predicate MadeProgress(before: Marker, after: Attempt) {
    before.Written? && before.attempt.committed.Some? && after.committed.Some?
    && before.attempt.committed.value < after.committed.value
  }

  /** No new batch, by the book's own doing: a governor stop is outside pressure. */
  predicate Standstill(before: Marker, after: Attempt) {
    !after.governor && !MadeProgress(before, after)
  }

  /** Whether one more retry is granted after those on record. */
  predicate Granted(limit: nat, earlier: seq<Marker>, record: Attempt) {
    var n := |earlier|;
    n > 0 ==>
      && n < limit
      && earlier[n - 1].Written?
      && (Standstill(earlier[n - 1], record) ==>
            && !(n >= 2 && Standstill(earlier[n - 2], earlier[n - 1].attempt))
            && earlier[n - 1].attempt.committed.Some?)
  }

  /** The first retry is always granted. A later one needs room below the limit and a last record that can
      be read, and besides: the governor stopped this attempt, or it committed more than the last one; or the
      last record counts its batches, and there is no retry before it, or the governor stopped it, or it
      committed more than the one before it. */
  lemma {:induction false} GrantedExactly(limit: nat, earlier: seq<Marker>, record: Attempt)
    ensures Granted(limit, earlier, record) <==>
      || |earlier| == 0
      || (var n := |earlier|;
          && n < limit && earlier[n - 1].Written?
          && (var last := earlier[n - 1].attempt;
              || record.governor
              || (last.committed.Some? && record.committed.Some? && last.committed.value < record.committed.value)
              || (last.committed.Some?
                  && (|| n == 1 || last.governor
                      || (earlier[n - 2].Written? && earlier[n - 2].attempt.committed.Some?
                          && earlier[n - 2].attempt.committed.value < last.committed.value)))))
  {}

  /** A stop by the governor costs a book nothing: whatever the records say, it is retried within the limit,
      and the standstill after it is forgiven like a first one. */
  lemma {:induction false} GovernorIsForgiven(limit: nat, earlier: seq<Marker>, stop: Attempt, record: Attempt)
    requires |earlier| + 1 < limit && stop.governor && stop.committed.Some?
    requires earlier == [] || earlier[|earlier| - 1].Written?
    ensures Granted(limit, earlier, stop)
    ensures Granted(limit, earlier + [Written(stop)], record)
  {
    var more := earlier + [Written(stop)];
    assert more[|more| - 1] == Written(stop);
    if earlier != [] { assert more[|more| - 2] == earlier[|earlier| - 1]; }
  }

  /** Two standstills in a row never both led to a retry. */
  ghost predicate NeverTwice(grants: seq<Attempt>) {
    forall k :: 2 <= k < |grants| ==>
        !(Standstill(Written(grants[k - 2]), grants[k - 1]) && Standstill(Written(grants[k - 1]), grants[k]))
  }

  class RequeueMarkers {
    const limit: nat
    var markers: seq<Marker>
    ghost var grants: seq<Attempt>

    /** The markers are the grants, some of them torn. */
    ghost predicate Valid()
      reads this
    {
      && |markers| == |grants|
      && (forall k :: 0 <= k < |grants| ==> markers[k].Torn? || markers[k] == Written(grants[k]))
      && NeverTwice(grants)
      && |grants| <= limit && 1 <= limit
    }

    /** MEMORY_RETRY_LIMIT is at least one, whatever the environment says. */
    constructor (wanted: int)
      ensures Valid() && grants == [] && limit == if wanted < 1 then 1 else wanted
    {
      limit, markers, grants := if wanted < 1 then 1 else wanted, [], [];
    }

    /** A marker becomes unreadable. */
    method Tear(k: nat)
      requires Valid() && k < |markers|
      modifies this`markers
      ensures Valid()
    {
      markers := markers[k := Torn];
    }

    /** `claim_memory_requeue`; `raced` if another process linked the same marker first. */
    method Claim(record: Attempt, raced: bool) returns (granted: bool)
      requires Valid()
      modifies this
      ensures Valid()
      ensures granted <==> Granted(limit, old(markers), record) && !raced
      ensures granted ==> markers == old(markers) + [Written(record)] && grants == old(grants) + [record]
      ensures !granted ==> markers == old(markers) && grants == old(grants)
    {
      var n := |markers|;
      if n > 0 {
        if n >= limit {
          return false;
        }
        if markers[n - 1].Torn? {
          return false;
        }
        if Standstill(markers[n - 1], record) {
          var standstillBefore := n >= 2 && Standstill(markers[n - 2], markers[n - 1].attempt);
          if standstillBefore || markers[n - 1].attempt.committed.None? {
            return false;
          }
        }
      }
      if raced {
        return false;
      }
      if n >= 2 { TornStandsStill(markers[n - 2], grants[n - 2], grants[n - 1]); }
      markers, grants := markers + [Written(record)], grants + [record];
      return true;
    }
  }

  /** A torn marker is judged no more leniently than the record it held. */
  lemma {:induction false} TornStandsStill(m: Marker, truth: Attempt, after: Attempt)
    requires m.Torn? || m == Written(truth)
    ensures Standstill(Written(truth), after) ==> Standstill(m, after)
  {}

  // ---------------------------------------------------------------------------------------
  // The attempts come to an end
  // ---------------------------------------------------------------------------------------

  /** Shards are counted, never lost, at most `n`, and the governor stopped no attempt. */
  ghost predicate Steady(grants: seq<Attempt>, n: nat) {
    && (forall k :: 0 <= k < |grants| ==>
        grants[k].committed.Some? && 0 <= grants[k].committed.value <= n && !grants[k].governor)
    && (forall k :: 1 <= k < |grants| ==> grants[k - 1].committed.value <= grants[k].committed.value)
  }

  /** Every second retry at least commits a batch. */
  lemma {:induction false} ProgressEverySecond(grants: seq<Attempt>, n: nat, m: nat)
    requires Steady(grants, n) && NeverTwice(grants) && 0 < m <= |grants|
    ensures 2 * (grants[m - 1].committed.value - grants[0].committed.value) >=
            if m >= 2 && Standstill(Written(grants[m - 2]), grants[m - 1]) then m - 2 else m - 1
  {
    if m > 1 {
      ProgressEverySecond(grants, n, m - 1);
    }
  }

  /** A book of n batches is granted at most 2n + 2 retries, however high the limit. */
  lemma {:induction false} RetriesBounded(grants: seq<Attempt>, n: nat)
    requires Steady(grants, n) && NeverTwice(grants)
    ensures |grants| <= 2 * n + 2
  {
    if grants != [] { ProgressEverySecond(grants, n, |grants|); }
  }

  /** The slowest book: every count twice. */
  function Slowest(n: nat): seq<Attempt> {
    seq(2 * n + 2, k requires 0 <= k < 2 * n + 2 => Attempt(Some(k / 2), false))
  }

  /** No smaller bound holds: the slowest book is granted all of its 2n + 2 retries. */
  lemma {:induction false} BoundAttained(n: nat, limit: nat, m: nat)
    requires m < 2 * n + 2 <= limit
    ensures Steady(Slowest(n), n) && NeverTwice(Slowest(n))
    ensures Granted(limit, Marked(Slowest(n)[..m]), Slowest(n)[m])
  {}

  function Marked(grants: seq<Attempt>): seq<Marker> {
    seq(|grants|, k requires 0 <= k < |grants| => Written(grants[k]))
  }
}
