/** Small shared vocabulary: optional values, raised errors and sorted sequences. */
module Prelude {

  datatype Option<+T> = None | Some(value: T)

  /** A computation that either returns or raises the named error. */
  datatype Result<+T> = Ok(value: T) | Raised(error: string)

  predicate Increasing(s: seq<int>) {
    forall i, j :: 0 <= i < j < |s| ==> s[i] < s[j]
  }

  function Elems<T>(s: seq<T>): set<T> {
    set x | x in s
  }

  lemma {:induction false} IncreasingAppend(s: seq<int>, x: int)
    requires Increasing(s) && forall y :: y in s ==> y < x
    ensures Increasing(s + [x])
  {
    assert forall i :: 0 <= i < |s| ==> s[i] in s;
  }

  ghost function Pick<T>(s: set<T>): (x: T)
    requires s != {}
    ensures x in s
  {
    var x :| x in s; x
  }

  lemma {:induction false} ElemsAppend<T>(s: seq<T>, x: T)
    ensures Elems(s + [x]) == Elems(s) + {x}
  {}

  lemma {:induction false} WithoutLastElement(s: seq<int>)
    requires s != [] && Increasing(s)
    ensures Increasing(s[..|s| - 1])
    ensures Elems(s[..|s| - 1]) == Elems(s) - {s[|s| - 1]}
  {
    var n := |s| - 1;
    assert s == s[..n] + [s[n]];
    ElemsAppend(s[..n], s[n]);
  }

  lemma {:induction false} LastIsLargest(s: seq<int>, x: int)
    requires Increasing(s) && x in Elems(s)
    ensures x <= s[|s| - 1]
  {}

  /** An increasing sequence is determined by its elements. */
  lemma {:induction false} IncreasingUnique(a: seq<int>, b: seq<int>)
    requires Increasing(a) && Increasing(b)
    requires Elems(a) == Elems(b)
    ensures a == b
  {
    assert a != [] ==> a[0] in Elems(a);
    assert b != [] ==> b[0] in Elems(b);
    if a != [] && b != [] {
      SameLargest(a, b);
      WithoutLastElement(a);
      WithoutLastElement(b);
      IncreasingUnique(a[..|a| - 1], b[..|b| - 1]);
      assert a == a[..|a| - 1] + [a[|a| - 1]] && b == b[..|b| - 1] + [b[|b| - 1]];
    }
  }

  lemma {:induction false} SameLargest(a: seq<int>, b: seq<int>)
    requires Increasing(a) && Increasing(b) && Elems(a) == Elems(b) && a != [] && b != []
    ensures a[|a| - 1] == b[|b| - 1]
  {
    assert a[|a| - 1] in Elems(a) && b[|b| - 1] in Elems(b);
    LastIsLargest(a, b[|b| - 1]);
    LastIsLargest(b, a[|a| - 1]);
  }

  lemma {:induction false} Associative<T>(x: seq<T>, y: seq<T>, z: seq<T>)
    ensures (x + y) + z == x + (y + z)
  {}

  function Concat<T>(parts: seq<seq<T>>): seq<T> {
    if parts == [] then [] else Concat(parts[..|parts| - 1]) + parts[|parts| - 1]
  }

  lemma {:induction false} ConcatStep<T>(parts: seq<seq<T>>, k: nat)
    requires k < |parts|
    ensures Concat(parts[..k + 1]) == Concat(parts[..k]) + parts[k]
  {
    assert parts[..k + 1][..k] == parts[..k];
  }

  lemma {:induction false} ConcatPrefix<T>(parts: seq<seq<T>>, k: nat)
    requires k <= |parts|
    ensures Concat(parts[..k]) <= Concat(parts)
  {
    var n := |parts| - 1;
    if k == |parts| {
      assert parts[..k] == parts;
    } else {
      assert parts[..n][..k] == parts[..k];
      ConcatPrefix(parts[..n], k);
    }
  }

  /** Where part k lies in the concatenation. */
  lemma {:induction false} ConcatSlice<T>(parts: seq<seq<T>>, k: nat)
    requires k < |parts|
    ensures var lo, hi := |Concat(parts[..k])|, |Concat(parts[..k + 1])|;
            hi == lo + |parts[k]| && hi <= |Concat(parts)| && Concat(parts)[lo..hi] == parts[k]
  {
    ConcatStep(parts, k);
    ConcatPrefix(parts, k + 1);
    var lo, hi := |Concat(parts[..k])|, |Concat(parts[..k + 1])|;
    assert Concat(parts)[..hi] == Concat(parts[..k + 1]);
    assert Concat(parts)[lo..hi] == Concat(parts[..k + 1])[lo..];
  }
}
