/** The pool master's exit ledger (`run_pool`) and the number of worker replacements derived from it
    (`add_pool_replacements`). */
module Pool {
  import opened Prelude

  /** The exit code of a child that asks for a fresh life. */
  const RECYCLE_EXIT_CODE := 75

  function Sum(s: seq<nat>): nat {
    if s == [] then 0 else Sum(s[..|s| - 1]) + s[|s| - 1]
  }

  /** `sum(max(0, lives - 1))` over the labels. */
  function Derived(codes: seq<seq<int>>): nat {
    if codes == [] then 0
    else Derived(codes[..|codes| - 1]) + if codes[|codes| - 1] == [] then 0 else |codes[|codes| - 1]| - 1
  }

  method PoolReplacements(codes: seq<seq<int>>) returns (r: Result<nat>)
    ensures r.Ok? <==> codes != []
    ensures r.Ok? ==> r.value == Derived(codes)
  {
    if codes == [] {
      return Raised("not a non-empty {label: [exit codes]} object");
    }
    var total := 0;
    for k := 0 to |codes|
      invariant total == Derived(codes[..k])
    {
      assert codes[..k + 1][..k] == codes[..k];
      total := total + if codes[k] == [] then 0 else |codes[k]| - 1;
    }
    assert codes[..|codes|] == codes;
    return Ok(total);
  }

  function Unaccounted(codes: seq<seq<int>>): nat {
    if codes == [] then 0 else Unaccounted(codes[..|codes| - 1]) + if codes[|codes| - 1] == [] then 1 else 0
  }

  /** `read_pool_replacements` for a ledger that could be read: nothing where another master ran or no
      life was recorded, else the number, called a lower bound if some list is empty. */
  method ReadPoolReplacements(codes: seq<seq<int>>, mastersReplaced: Option<nat>)
      returns (total: Option<nat>, lowerBound: bool)
    ensures total.Some? <==> codes != [] && mastersReplaced == Some(0) && Unaccounted(codes) < |codes|
    ensures total.Some? ==> total.value == Derived(codes) && (lowerBound <==> Unaccounted(codes) > 0)
  {
    UnaccountedBound(codes);
    var r := PoolReplacements(codes);
    if r.Raised? || mastersReplaced != Some(0) || Unaccounted(codes) == |codes| {
      return None, false;
    }
    return Some(r.value), Unaccounted(codes) > 0;
  }

  lemma {:induction false} UnaccountedBound(codes: seq<seq<int>>)
    ensures Unaccounted(codes) <= |codes|
  {
    if codes == [] {
    } else {
      UnaccountedBound(codes[..|codes| - 1]);
    }
  }

  // ---------------------------------------------------------------------------------------
  // The ledger
  // ---------------------------------------------------------------------------------------

  /** Every label has one recorded exit more than replacements, unless its last life is still open:
      running, or reaped but never recorded. */
  ghost predicate Ledger(codes: seq<seq<int>>, restarts: seq<nat>, open: set<nat>) {
    |codes| == |restarts| && forall l :: 0 <= l < |codes| ==> |codes[l]| == restarts[l] + if l in open then 0 else 1
  }

  /** Open labels that were already replaced: their last life is missing from a nonempty list. */
  function OpenReplaced(restarts: seq<nat>, open: set<nat>): nat {
    if restarts == [] then 0
    else
      var n := |restarts| - 1;
      OpenReplaced(restarts[..n], open) + if n in open && restarts[n] > 0 then 1 else 0
  }

  /** The derived number misses exactly the open lives of replaced labels, and never overcounts. */
  lemma {:induction false} DerivedExactly(codes: seq<seq<int>>, restarts: seq<nat>, open: set<nat>)
    requires Ledger(codes, restarts, open)
    ensures Derived(codes) + OpenReplaced(restarts, open) == Sum(restarts)
  {
    if codes == [] {
    } else {
      var n := |codes| - 1;
      forall l | 0 <= l < n ensures |codes[..n][l]| == restarts[..n][l] + if l in open then 0 else 1 {
        assert codes[..n][l] == codes[l] && restarts[..n][l] == restarts[l];
      }
      DerivedExactly(codes[..n], restarts[..n], open);
    }
  }

  lemma {:induction false} NothingOpen(restarts: seq<nat>, open: set<nat>)
    ensures OpenReplaced(restarts, open) == 0 <==> forall l :: 0 <= l < |restarts| && l in open ==> restarts[l] == 0
  {
    if restarts == [] {
    } else {
      var n := |restarts| - 1;
      NothingOpen(restarts[..n], open);
      if forall l :: 0 <= l < n && l in open ==> restarts[..n][l] == 0 {
        forall l | 0 <= l < n && l in open ensures restarts[l] == 0 { assert restarts[..n][l] == restarts[l]; }
      } else {
        var l :| 0 <= l < n && l in open && restarts[..n][l] != 0;
        assert restarts[l] != 0;
      }
    }
  }

  /** The number is exact if and only if no label that was already replaced is open at exit. */
  lemma {:induction false} ExactIffSettled(codes: seq<seq<int>>, restarts: seq<nat>, open: set<nat>)
    requires Ledger(codes, restarts, open)
    ensures Derived(codes) <= Sum(restarts)
    ensures Derived(codes) == Sum(restarts) <==> forall l :: 0 <= l < |restarts| && l in open ==> restarts[l] == 0
  {
    DerivedExactly(codes, restarts, open);
    NothingOpen(restarts, open);
  }

  /** An empty list never hides a replacement: such a label had none. */
  lemma {:induction false} EmptyMeansNone(codes: seq<seq<int>>, restarts: seq<nat>, open: set<nat>, l: nat)
    requires Ledger(codes, restarts, open) && l < |codes| && codes[l] == []
    ensures restarts[l] == 0 && l in open
  {}

  // ---------------------------------------------------------------------------------------
  // The master
  // ---------------------------------------------------------------------------------------

  /** A fork works, fails as the host may let it, or raises something else. */
  datatype Fork = Works | Fails | Raises

  /** A child's end as the master reaps it: its exit code, whether the governor killed it, whether the master
      was told to terminate by then, whether handling it raises, and how a fork in its place would go. */
  datatype Exit = Exit(who: nat, code: int, killed: bool, sigterm: bool, raises: bool, fork: Fork)

  /** One turn of the loop: a child is reaped, or something raises. */
  datatype Turn = Reaped(exit: Exit) | Breaks

  datatype Outcome = Drained | Running | Unwound

  function Labels(n: nat): (labels: set<nat>)
    ensures forall l :: l in labels <==> 0 <= l < n
  {
    if n == 0 then {} else Labels(n - 1) + {n - 1}
  }

  function Zeros(n: nat): seq<nat> {
    seq(n, _ => 0)
  }

  function ForkAt(forks: seq<Fork>, l: nat): Fork {
    if l < |forks| then forks[l] else Works
  }

  class PoolMaster {
    const count: nat
    const restartLimit: nat
    var active: set<nat>
    var codes: seq<seq<int>>
    var restarts: seq<nat>
    var terminating: bool
    ghost var open: set<nat>

    ghost predicate Valid()
      reads this
    {
      && |codes| == count && Ledger(codes, restarts, open)
      && active <= open && (forall l :: l in open ==> l < count)
      && (forall l :: 0 <= l < count ==> restarts[l] <= restartLimit)
    }

    constructor (count: nat, restartLimit: nat)
      ensures Valid() && active == {} && !terminating && this.count == count && this.restartLimit == restartLimit
      ensures forall l :: 0 <= l < count ==> codes[l] == [] && restarts[l] == 0 && l in open
    {
      this.count, this.restartLimit := count, restartLimit;
      active, terminating := {}, false;
      codes, restarts := seq(count, _ => []), Zeros(count);
      open := Labels(count);
    }

    /** A failed fork records one exit and gives the label up; anything else that fails unwinds. */
    method ForkChild(who: nat, fork: Fork) returns (raised: bool)
      requires Valid() && who in open && who !in active
      modifies this`active, this`codes, this`open
      ensures Valid()
      ensures raised <==> fork.Raises?
      ensures active == if fork.Works? then old(active) + {who} else old(active)
      ensures open == if fork.Fails? then old(open) - {who} else old(open)
      ensures codes == if fork.Fails? then old(codes)[who := old(codes)[who] + [1]] else old(codes)
    {
      match fork
      case Raises =>
        return true;
      case Fails =>
        Record(who, 1);
        return false;
      case Works =>
        active := active + {who};
        return false;
    }

    /** `codes[label].append(code)` */
    method Record(who: nat, code: int)
      requires Valid() && who in open && who !in active
      modifies this`codes, this`open
      ensures Valid() && open == old(open) - {who}
      ensures codes == old(codes)[who := old(codes)[who] + [code]]
    {
      codes := codes[who := codes[who] + [code]];
      open := open - {who};
    }

    /** One reaped child. A shutdown records it. A recycle or a governor kill is followed by a fork and not
        recorded. Any other exit is recorded, and a failure answered by one more life within the limit. A
        fork that fails records an exit of its own. */
    method Reap(exit: Exit) returns (raised: bool)
      requires Valid() && open == active && exit.who in active
      modifies this
      ensures Valid() && (!raised ==> open == active)
      ensures terminating == (old(terminating) || exit.sigterm)
      ensures var stopped := terminating || exit.raises;
        var again := exit.killed || exit.code == RECYCLE_EXIT_CODE;
        var replaced := !again && exit.code != 0 && old(restarts)[exit.who] < restartLimit;
        var was := old(codes)[exit.who];
        && raised == (exit.raises || (!stopped && (again || replaced) && exit.fork.Raises?))
        && codes ==
          (if exit.raises then old(codes)
           else if terminating then old(codes)[exit.who := was + [exit.code]]
           else if again then
             if exit.fork.Fails? then old(codes)[exit.who := was + [1]] else old(codes)
           else if replaced && exit.fork.Fails? then old(codes)[exit.who := was + [exit.code, 1]]
           else old(codes)[exit.who := was + [exit.code]])
        && restarts ==
          (if !stopped && replaced then old(restarts)[exit.who := old(restarts)[exit.who] + 1] else old(restarts))
        && active ==
          if !stopped && (again || replaced) && exit.fork.Works? then old(active) else old(active) - {exit.who}
    {
      var who := exit.who;
      active := active - {who};
      terminating := terminating || exit.sigterm;
      if exit.raises { return true; }
      if terminating {
        Record(who, exit.code);
        return false;
      }
      if exit.killed || exit.code == RECYCLE_EXIT_CODE {
        raised := ForkChild(who, exit.fork);
        assert active == if exit.fork.Works? then old(active) else old(active) - {who};
        return;
      }
      Record(who, exit.code);
      if exit.code == 0 || restarts[who] >= restartLimit {
        return false;
      }
      raised := Replace(who, exit.fork);
      assert old(codes)[who] + [exit.code] + [1] == old(codes)[who] + [exit.code, 1];
      assert active == if exit.fork.Works? then old(active) else old(active) - {who};
    }

    /** One more bounded replacement of a child whose exit was just recorded. */
    method Replace(who: nat, fork: Fork) returns (raised: bool)
      requires Valid() && who < count && who !in open && open == active && restarts[who] < restartLimit
      modifies this`restarts, this`active, this`codes, this`open
      ensures Valid() && (!raised ==> open == active) && (raised <==> fork.Raises?)
      ensures restarts == old(restarts)[who := old(restarts)[who] + 1]
      ensures codes == if fork.Fails? then old(codes)[who := old(codes)[who] + [1]] else old(codes)
      ensures active == if fork.Works? then old(active) + {who} else old(active)
    {
      restarts := restarts[who := restarts[who] + 1];
      open := open + {who};
      raised := ForkChild(who, fork);
    }

    /** Every label is forked in turn. */
    method ForkAll(forks: seq<Fork>) returns (raised: bool)
      requires Valid() && active == {} && (forall l :: 0 <= l < count ==> l in open && codes[l] == [])
      modifies this`active, this`codes, this`open
      ensures Valid() && (!raised ==> open == active)
      ensures raised <==> exists l :: 0 <= l < count && ForkAt(forks, l).Raises?
      ensures !raised ==> forall l :: 0 <= l < count ==>
        if ForkAt(forks, l).Works? then l in active && codes[l] == [] else l !in active && codes[l] == [1]
    {
      for l := 0 to count
        invariant Valid() && active <= Labels(l)
        invariant forall k :: 0 <= k < l ==> !ForkAt(forks, k).Raises?
        invariant forall k :: 0 <= k < l ==>
          if ForkAt(forks, k).Works? then k in active && codes[k] == [] else k !in open && codes[k] == [1]
        invariant forall k :: l <= k < count ==> k in open && k !in active && codes[k] == []
      {
        raised := ForkChild(l, ForkAt(forks, l));
        if raised { return; }
      }
      assert open == active;
      return false;
    }

    /** `run_pool` under any sequence of exits and failures. When the loop ends normally the derived number
        is the replacements begun; in any case it is no more. The loop ends when every child has, and
        otherwise only by an exception. */
    method Supervise(forks: seq<Fork>, turns: seq<Turn>) returns (outcome: Outcome)
      requires Valid() && active == {} && (forall l :: 0 <= l < count ==> l in open && codes[l] == [])
      modifies this
      ensures Valid()
      ensures Derived(codes) <= Sum(restarts)
      ensures outcome.Drained? ==> Derived(codes) == Sum(restarts) && active == {}
      ensures outcome.Running? ==> active != {}
      ensures outcome.Unwound? ==> MayUnwind(forks, turns)
      ensures Derived(codes) == Sum(restarts) <==> forall l :: 0 <= l < count && l in open ==> restarts[l] == 0
    {
      outcome := Unwound;
      var raised := ForkAll(forks);
      var k := 0;
      while k < |turns| && active != {} && !raised
        invariant Valid() && (!raised ==> open == active)
        invariant raised ==> MayUnwind(forks, turns)
      {
        if turns[k].Breaks? {
          raised := true;
        } else if turns[k].exit.who in active {
          raised := Reap(turns[k].exit);
        }
        k := k + 1;
      }
      ExactIffSettled(codes, restarts, open);
      if !raised {
        outcome := if active == {} then Drained else Running;
      }
    }

    /** Something in the schedule raises. */
    predicate MayUnwind(forks: seq<Fork>, turns: seq<Turn>) {
      || (exists l :: 0 <= l < count && ForkAt(forks, l).Raises?)
      || exists k :: 0 <= k < |turns| && (turns[k].Breaks? || turns[k].exit.raises || turns[k].exit.fork.Raises?)
    }
  }

  lemma {:induction false} ShortLedger()
    ensures Unaccounted([[1]]) == 0 && Derived([[1]]) < Sum([1])
  {}

  lemma {:induction false} ExactLedger()
    ensures Unaccounted([[0], [], []]) == 2 && Derived([[0], [], []]) == Sum([0, 0, 0])
  {
    var one: seq<seq<int>>, two: seq<seq<int>>, three: seq<seq<int>> := [[0]], [[0], []], [[0], [], []];
    assert one[..0] == [] && two[..1] == one && three[..2] == two;
    assert Unaccounted(one) == 0 && Unaccounted(two) == 1;
    assert Derived(one) == 0 && Derived(two) == 0;
    var a: seq<nat>, c: seq<nat>, d: seq<nat> := [0], [0, 0], [0, 0, 0];
    assert a[..0] == [] && c[..1] == a && d[..2] == c;
    assert Sum(a) == 0 && Sum(c) == 0;
  }

  /** One master replaces its only child after a failure, and the fork raises: no list is empty, and the
      number is one short. */
  method ShortWithoutEmptyList() returns (m: PoolMaster)
    ensures fresh(m) && m.Valid() && m.codes == [[1]] && m.restarts == [1]
    ensures Unaccounted(m.codes) == 0 && Derived(m.codes) < Sum(m.restarts)
  {
    m := new PoolMaster(1, 2);
    var raised := m.ForkAll([Works]);
    assert ForkAt([Works], 0).Works?;
    assert |m.codes| == 1 && m.codes[0] == [] && |m.restarts| == 1 && m.restarts[0] == 0;
    raised := m.Reap(Exit(0, 1, false, false, false, Raises));
    var none: seq<int> := [];
    assert m.codes[0] == none + [1] == [1];
    assert m.codes == [[1]] && m.restarts == [1];
    ShortLedger();
  }

  /** Another sees the first of three children end well, and may break then: two lists are empty, and the
      number is exact. So "an undercount of at most one per empty label" is not the right bound. */
  method ExactWithEmptyLists() returns (m: PoolMaster)
    ensures fresh(m) && m.Valid() && m.codes == [[0], [], []] && m.restarts == [0, 0, 0]
    ensures Unaccounted(m.codes) == 2 && Derived(m.codes) == Sum(m.restarts)
  {
    m := new PoolMaster(3, 2);
    var raised := m.ForkAll([]);
    assert |m.codes| == |m.restarts| == 3;
    assert m.codes[0] == [] && m.codes[1] == [] && m.codes[2] == [];
    assert m.restarts == [0, 0, 0];
    raised := m.Reap(Exit(0, 0, false, false, false, Works));
    var none: seq<int> := [];
    assert m.codes[0] == none + [0] == [0];
    assert m.codes == [[0], [], []];
    ExactLedger();
  }
}
