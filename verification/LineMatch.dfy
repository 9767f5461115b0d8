/** Pairing the lines of two versions of a book by fingerprint: `_match_lines`. */
module LineMatch {
  import opened Prelude

  /** A line's fingerprint is injective in its content and location context. */
  datatype Fingerprint = Fingerprint(content: string, context: string)
  datatype Line = Line(index: nat, fp: Fingerprint)
  datatype Pair = Pair(from: nat, to: nat)

  /** Lines come in strictly increasing line-index order. */
  predicate Ordered(lines: seq<Line>) {
    lines == [] || (Ordered(lines[..|lines| - 1]) && LastIndex(lines[..|lines| - 1]) < lines[|lines| - 1].index)
  }

  function LastIndex(lines: seq<Line>): int {
    if lines == [] then -1 else lines[|lines| - 1].index
  }

  /** `dict(rows)`: line index to fingerprint. */
  function Prints(lines: seq<Line>): map<nat, Fingerprint> {
    if lines == [] then map[]
    else Prints(lines[..|lines| - 1])[lines[|lines| - 1].index := lines[|lines| - 1].fp]
  }

  ghost function Olds(r: set<Pair>): set<nat> { set p | p in r :: p.from }
  ghost function News(r: set<Pair>): set<nat> { set p | p in r :: p.to }

  /** A one-to-one pairing of lines with equal fingerprints. */
  ghost predicate Pairing(was: map<nat, Fingerprint>, cur: map<nat, Fingerprint>, r: set<Pair>) {
    && (forall p :: p in r ==> p.from in was && p.to in cur && was[p.from] == cur[p.to])
    && (forall p, q :: p in r && q in r && p.from == q.from ==> p == q)
    && (forall p, q :: p in r && q in r && p.to == q.to ==> p == q)
  }

  /** A line whose index and fingerprint both survive is paired with itself. */
  ghost predicate PrefersStable(was: map<nat, Fingerprint>, cur: map<nat, Fingerprint>, r: set<Pair>) {
    forall i :: i in was && i in cur && was[i] == cur[i] ==> Pair(i, i) in r
  }

  /** Moved lines of one fingerprint keep their order, and the earliest old ones are taken first. */
  ghost predicate FirstComeFirstServed(was: map<nat, Fingerprint>, r: set<Pair>) {
    && (forall p, q :: p in r && q in r && Moved(p) && Moved(q) && Alike(was, p.from, q.from) && p.to < q.to ==>
        p.from < q.from)
    && (forall p, o :: p in r && Moved(p) && Alike(was, p.from, o) && o !in Olds(r) ==> p.from < o)
  }

  /** Of current lines with one fingerprint the earliest are paired, the later ones left to NER. */
  ghost predicate EarliestPaired(cur: map<nat, Fingerprint>, r: set<Pair>, ner: set<nat>) {
    forall p, n :: p in r && n in ner && Moved(p) && Alike(cur, p.to, n) ==> p.to < n
  }

  predicate Alike(m: map<nat, Fingerprint>, a: nat, b: nat) {
    a in m && b in m && m[a] == m[b]
  }

  predicate Moved(p: Pair) { p.from != p.to }

  /** Nothing more can be paired: no unpaired current line equals an unpaired old one. */
  ghost predicate Saturated(was: map<nat, Fingerprint>, cur: map<nat, Fingerprint>, r: set<Pair>) {
    forall o, n :: o in was && n in cur && o !in Olds(r) && n !in News(r) ==> was[o] != cur[n]
  }

  predicate SortedByNew(reuse: seq<Pair>) {
    forall i, j :: 0 <= i < j < |reuse| ==> reuse[i].to < reuse[j].to
  }

  /** What `_match_lines` returns. */
  ghost predicate IsMatch(was: seq<Line>, cur: seq<Line>, reuse: seq<Pair>, ner: seq<nat>) {
    && Pairing(Prints(was), Prints(cur), Elems(reuse))
    && SortedByNew(reuse)
    && Increasing(ner)
    && Elems(ner) == Prints(cur).Keys - News(Elems(reuse))
    && PrefersStable(Prints(was), Prints(cur), Elems(reuse))
    && FirstComeFirstServed(Prints(was), Elems(reuse))
    && EarliestPaired(Prints(cur), Elems(reuse), Elems(ner))
    && Saturated(Prints(was), Prints(cur), Elems(reuse))
  }

  // ---------------------------------------------------------------------------------------
  // The NER set is as small as any one-to-one pairing of equal lines allows
  // ---------------------------------------------------------------------------------------

  ghost predicate FullyMatched(cur: map<nat, Fingerprint>, r: set<Pair>, f: Fingerprint) {
    forall n :: n in cur && cur[n] == f ==> n in News(r)
  }

  /** Pairs of `s` whose fingerprint `r` matches on every current line; the others. */
  ghost function Full(cur: map<nat, Fingerprint>, r: set<Pair>, s: set<Pair>): set<Pair> {
    set p | p in s && p.to in cur && FullyMatched(cur, r, cur[p.to])
  }

  lemma {:induction false} NewsCount(r: set<Pair>)
    requires forall p, q :: p in r && q in r && p.to == q.to ==> p == q
    ensures |News(r)| == |r|
  {
    if r != {} {
      var p := Pick(r);
      NewsCount(r - {p});
      assert News(r) == News(r - {p}) + {p.to};
    }
  }

  lemma {:induction false} OldsCount(r: set<Pair>)
    requires forall p, q :: p in r && q in r && p.from == q.from ==> p == q
    ensures |Olds(r)| == |r|
  {
    if r != {} {
      var p := Pick(r);
      OldsCount(r - {p});
      assert Olds(r) == Olds(r - {p}) + {p.from};
    }
  }

  lemma {:induction false} SubsetCount<T>(a: set<T>, b: set<T>)
    requires a <= b
    ensures |a| <= |b|
  {
    assert b == a + (b - a);
  }

  /** On fingerprints the matching exhausts, no pairing reaches more current lines. */
  lemma {:induction false} FullIsMost(was: map<nat, Fingerprint>, cur: map<nat, Fingerprint>, r: set<Pair>,
      s: set<Pair>)
    requires Pairing(was, cur, r) && Pairing(was, cur, s)
    ensures |Full(cur, r, s)| <= |Full(cur, r, r)|
  {
    var fs, fr := Full(cur, r, s), Full(cur, r, r);
    NewsCount(fs);
    NewsCount(fr);
    forall n | n in News(fs) ensures n in News(fr) {
      var p :| p in fs && p.to == n;
      assert n in News(r);
      var q :| q in r && q.to == n;
      assert q in fr;
    }
    SubsetCount(News(fs), News(fr));
  }

  /** On all other fingerprints a saturated matching uses every old line there is. */
  lemma {:induction false} RestIsMost(was: map<nat, Fingerprint>, cur: map<nat, Fingerprint>, r: set<Pair>,
      s: set<Pair>)
    requires Pairing(was, cur, r) && Pairing(was, cur, s) && Saturated(was, cur, r)
    ensures |s - Full(cur, r, s)| <= |r - Full(cur, r, r)|
  {
    var xs, xr := s - Full(cur, r, s), r - Full(cur, r, r);
    OldsCount(xs);
    OldsCount(xr);
    forall o | o in Olds(xs) ensures o in Olds(xr) {
      var p :| p in xs && p.from == o;
      var n :| n in cur && cur[n] == cur[p.to] && n !in News(r);
      assert o in Olds(r);
      var q :| q in r && q.from == o;
      assert cur[q.to] == cur[n];
      assert q in xr;
    }
    SubsetCount(Olds(xs), Olds(xr));
  }

  lemma {:induction false} PairingMaximum(was: map<nat, Fingerprint>, cur: map<nat, Fingerprint>, r: set<Pair>,
      s: set<Pair>)
    requires Pairing(was, cur, r) && Pairing(was, cur, s) && Saturated(was, cur, r)
    ensures |s| <= |r|
  {
    FullIsMost(was, cur, r, s);
    RestIsMost(was, cur, r, s);
    Divide(s, Full(cur, r, s));
    Divide(r, Full(cur, r, r));
  }

  lemma {:induction false} Divide<T>(s: set<T>, part: set<T>)
    requires part <= s
    ensures |s| == |part| + |s - part|
  {
    assert s == part + (s - part);
  }

  /** No one-to-one pairing of equal lines reuses more lines than `_match_lines` does,
      so its NER list is as short as such a pairing allows. */
  lemma {:induction false} MatchIsMaximum(was: seq<Line>, cur: seq<Line>, reuse: seq<Pair>, ner: seq<nat>, s: set<Pair>)
    requires IsMatch(was, cur, reuse, ner)
    requires Pairing(Prints(was), Prints(cur), s)
    ensures |s| <= |reuse|
    ensures |ner| == |Prints(cur)| - |reuse| <= |Prints(cur)| - |s|
  {
    PairingMaximum(Prints(was), Prints(cur), Elems(reuse), s);
    LeftToNer(Prints(cur).Keys, reuse, ner);
  }

  lemma {:induction false} LeftToNer(lines: set<nat>, reuse: seq<Pair>, ner: seq<nat>)
    requires SortedByNew(reuse) && Increasing(ner)
    requires forall p :: p in Elems(reuse) ==> p.to in lines
    requires forall p, q :: p in Elems(reuse) && q in Elems(reuse) && p.to == q.to ==> p == q
    requires Elems(ner) == lines - News(Elems(reuse))
    ensures |Elems(reuse)| == |reuse|
    ensures |ner| == |lines| - |reuse|
  {
    SortedCount(reuse);
    IncreasingCount(ner);
    NewsCount(Elems(reuse));
    Divide(lines, News(Elems(reuse)));
  }

  lemma {:induction false} SortedCount(reuse: seq<Pair>)
    requires SortedByNew(reuse)
    ensures |Elems(reuse)| == |reuse|
  {
    if reuse == [] {
    } else {
      var n := |reuse| - 1;
      SortedCount(reuse[..n]);
      assert reuse == reuse[..n] + [reuse[n]];
      ElemsAppend(reuse[..n], reuse[n]);
    }
  }

  lemma {:induction false} IncreasingCount(s: seq<nat>)
    requires Increasing(s)
    ensures |Elems(s)| == |s|
  {
    if s == [] {
    } else {
      var n := |s| - 1;
      IncreasingCount(s[..n]);
      assert s == s[..n] + [s[n]];
      ElemsAppend(s[..n], s[n]);
    }
  }

  ghost function WithPrint(m: map<nat, Fingerprint>, f: Fingerprint): set<nat> {
    set i | i in m && m[i] == f
  }

  ghost function PairsOf(cur: map<nat, Fingerprint>, r: set<Pair>, f: Fingerprint): set<Pair> {
    set p | p in r && p.to in cur && cur[p.to] == f
  }

  /** Per fingerprint, as many lines are reused as exist on the scarcer side. */
  lemma {:induction false} MatchedPerFingerprint(was: seq<Line>, cur: seq<Line>, reuse: seq<Pair>, ner: seq<nat>,
      f: Fingerprint)
    requires IsMatch(was, cur, reuse, ner)
    ensures var o, n := |WithPrint(Prints(was), f)|, |WithPrint(Prints(cur), f)|;
            |PairsOf(Prints(cur), Elems(reuse), f)| == if o <= n then o else n
  {
    MatchedCount(Prints(was), Prints(cur), Elems(reuse), f);
  }

  lemma {:induction false} MatchedCount(was: map<nat, Fingerprint>, cur: map<nat, Fingerprint>, r: set<Pair>,
      f: Fingerprint)
    requires Pairing(was, cur, r) && Saturated(was, cur, r)
    ensures var o, n := |WithPrint(was, f)|, |WithPrint(cur, f)|;
            |PairsOf(cur, r, f)| == if o <= n then o else n
  {
    var ps := PairsOf(cur, r, f);
    NewsCount(ps);
    OldsCount(ps);
    assert News(ps) <= WithPrint(cur, f) && Olds(ps) <= WithPrint(was, f);
    SubsetCount(News(ps), WithPrint(cur, f));
    SubsetCount(Olds(ps), WithPrint(was, f));
    if n :| n in WithPrint(cur, f) && n !in News(ps) {
      assert n !in News(r);
      forall o | o in WithPrint(was, f) ensures o in Olds(ps) {
        assert o in Olds(r);
        var p :| p in r && p.from == o;
        assert p in ps;
      }
      assert Olds(ps) == WithPrint(was, f);
    } else {
      assert News(ps) == WithPrint(cur, f);
    }
  }

  // ---------------------------------------------------------------------------------------
  // These properties determine the result
  // ---------------------------------------------------------------------------------------

  /** What `IsMatch` says of the pairs and the lines left over, as sets. */
  ghost predicate Matched(was: map<nat, Fingerprint>, cur: map<nat, Fingerprint>, r: set<Pair>) {
    && Pairing(was, cur, r) && PrefersStable(was, cur, r) && FirstComeFirstServed(was, r)
    && EarliestPaired(cur, r, cur.Keys - News(r)) && Saturated(was, cur, r)
  }

  /** Two matchings agree on the current lines before n. */
  ghost predicate Agree(r: set<Pair>, s: set<Pair>, n: nat) {
    forall p: Pair :: p.to < n ==> (p in r <==> p in s)
  }

  /** A moved pair's old line is not one that stays where it is. */
  lemma {:induction false} NotStable(was: map<nat, Fingerprint>, cur: map<nat, Fingerprint>, r: set<Pair>, s: set<Pair>,
      p: Pair, q: Pair)
    requires Matched(was, cur, r) && Matched(was, cur, s) && p in r && q in s && Moved(p) && q.from == p.from
    ensures Moved(q)
  {
    assert !Moved(q) ==> Pair(q.to, q.to) in r;
  }

  /** If one matching pairs line n, so does the other. */
  lemma {:induction false} BothPair(was: map<nat, Fingerprint>, cur: map<nat, Fingerprint>, r: set<Pair>, s: set<Pair>,
      p: Pair)
    requires Matched(was, cur, r) && Matched(was, cur, s) && Agree(r, s, p.to) && p in r && Moved(p)
    ensures p.to in News(s)
  {
    if p.to !in News(s) {
      assert p.from in Olds(s);
      var q :| q in s && q.from == p.from;
      NotStable(was, cur, r, s, p, q);
      assert Alike(cur, q.to, p.to) && p.to in cur.Keys - News(s);
    }
  }

  /** Of two different old lines for line n, the one a matching chose is the smaller. */
  lemma {:induction false} ChoseSmaller(was: map<nat, Fingerprint>, cur: map<nat, Fingerprint>, r: set<Pair>,
      s: set<Pair>, p: Pair, q: Pair)
    requires Matched(was, cur, r) && Matched(was, cur, s) && Agree(r, s, p.to)
    requires p in r && q in s && p.to == q.to && Moved(p) && Moved(q) && p != q
    ensures p.from < q.from
  {
    assert Alike(was, p.from, q.from);
    if q.from in Olds(r) {
      var x :| x in r && x.from == q.from;
      NotStable(was, cur, s, r, q, x);
      assert x.to != p.to;
      assert x.to < p.to ==> x in s;
    }
  }

  lemma {:induction false} AgreeAt(was: map<nat, Fingerprint>, cur: map<nat, Fingerprint>, r: set<Pair>, s: set<Pair>,
      p: Pair)
    requires Matched(was, cur, r) && Matched(was, cur, s) && Agree(r, s, p.to) && p in r
    ensures p in s
  {
    if Moved(p) {
      BothPair(was, cur, r, s, p);
      var q :| q in s && q.to == p.to;
      assert !Moved(q) ==> Pair(p.to, p.to) in r;
      if q != p {
        ChoseSmaller(was, cur, r, s, p, q);
        ChoseSmaller(was, cur, s, r, q, p);
      }
    }
  }

  lemma {:induction false} AgreeUpTo(was: map<nat, Fingerprint>, cur: map<nat, Fingerprint>, r: set<Pair>, s: set<Pair>,
      n: nat)
    requires Matched(was, cur, r) && Matched(was, cur, s)
    ensures Agree(r, s, n)
  {
    if n == 0 {
    } else {
      AgreeUpTo(was, cur, r, s, n - 1);
      forall p: Pair | p.to == n - 1 ensures p in r <==> p in s {
        if p in r { AgreeAt(was, cur, r, s, p); }
        if p in s { AgreeAt(was, cur, s, r, p); }
      }
    }
  }

  /** `IsMatch` leaves no freedom: it holds of one result only. */
  lemma {:induction false} MatchUnique(was: seq<Line>, cur: seq<Line>, reuse: seq<Pair>, ner: seq<nat>,
      reuse': seq<Pair>, ner': seq<nat>)
    requires IsMatch(was, cur, reuse, ner) && IsMatch(was, cur, reuse', ner')
    ensures reuse == reuse' && ner == ner'
  {
    var r, s := Elems(reuse), Elems(reuse');
    forall p ensures p in r <==> p in s { AgreeUpTo(Prints(was), Prints(cur), r, s, p.to + 1); }
    assert r == s;
    SortedUnique(reuse, reuse');
    var a: seq<int>, b: seq<int> := ner, ner';
    forall x: int ensures x in Elems(a) <==> x in Elems(b) {
      if x in a { assert x as nat in Elems(ner); }
      if x in b { assert x as nat in Elems(ner'); }
    }
    IncreasingUnique(a, b);
  }

  lemma {:induction false} SortedUnique(a: seq<Pair>, b: seq<Pair>)
    requires SortedByNew(a) && SortedByNew(b) && Elems(a) == Elems(b)
    ensures a == b
  {
    assert a != [] ==> a[0] in Elems(a);
    assert b != [] ==> b[0] in Elems(b);
    if a != [] && b != [] {
      var m, n := |a| - 1, |b| - 1;
      assert a[m] in Elems(b) && b[n] in Elems(a);
      assert a[m] == b[n];
      assert a == a[..m] + [a[m]] && b == b[..n] + [b[n]];
      ElemsAppend(a[..m], a[m]);
      ElemsAppend(b[..n], b[n]);
      assert a[m] !in a[..m] && b[n] !in b[..n];
      assert Elems(a[..m]) == Elems(a) - {a[m]} && Elems(b[..n]) == Elems(b) - {b[n]};
      SortedUnique(a[..m], b[..n]);
    }
  }

  // ---------------------------------------------------------------------------------------
  // `_match_lines` itself
  // ---------------------------------------------------------------------------------------

  type Queues = map<Fingerprint, seq<nat>>

  /** `remaining[fingerprint]` of the defaultdict. */
  function Queue(remaining: Queues, f: Fingerprint): seq<nat> {
    if f in remaining then remaining[f] else []
  }

  lemma {:induction false} PrintsBounds(lines: seq<Line>)
    requires Ordered(lines)
    ensures forall i :: i in Prints(lines) ==> i <= LastIndex(lines)
  {
    if lines == [] {
    } else {
      PrintsBounds(lines[..|lines| - 1]);
    }
  }

  lemma {:induction false} AppendLine(lines: seq<Line>, line: Line)
    ensures Prints(lines + [line]) == Prints(lines)[line.index := line.fp]
    ensures Ordered(lines + [line]) <==> Ordered(lines) && LastIndex(lines) < line.index
    ensures LastIndex(lines + [line]) == line.index
  {
    assert (lines + [line])[..|lines|] == lines;
  }

  /** Reading the next line of an ordered list. */
  lemma {:induction false} NextLine(lines: seq<Line>, k: nat)
    requires Ordered(lines) && k < |lines|
    ensures Ordered(lines[..k]) && LastIndex(lines[..k]) < lines[k].index
    ensures lines[k].index !in Prints(lines[..k])
    ensures Prints(lines[..k + 1]) == Prints(lines[..k])[lines[k].index := lines[k].fp]
    ensures LastIndex(lines[..k + 1]) == lines[k].index
  {
    var n := |lines| - 1;
    if k == n {
      PrintsBounds(lines[..k]);
      assert lines[..k + 1] == lines;
    } else {
      assert lines[..n][..k] == lines[..k] && lines[..n][..k + 1] == lines[..k + 1];
      NextLine(lines[..n], k);
    }
  }

  /** Lines whose index and fingerprint both survive. */
  ghost function Stable(was: map<nat, Fingerprint>, cur: map<nat, Fingerprint>): set<nat> {
    set i | i in was && i in cur && was[i] == cur[i]
  }

  /** First loop: pair every surviving line with itself. */
  method PairStable(was: seq<Line>, cur: seq<Line>) returns (usedOld: set<nat>, reuse: seq<Pair>, unmatched: seq<Line>)
    requires Ordered(was) && Ordered(cur)
    ensures usedOld == Stable(Prints(was), Prints(cur))
    ensures Elems(reuse) == SelfPairs(usedOld)
    ensures Ordered(unmatched)
    ensures Prints(unmatched) == Prints(cur) - usedOld
  {
    var oldByIndex := Prints(was);
    usedOld, reuse, unmatched := {}, [], [];
    for k := 0 to |cur|
      invariant usedOld == Stable(oldByIndex, Prints(cur[..k]))
      invariant Elems(reuse) == SelfPairs(usedOld)
      invariant Ordered(unmatched) && LastIndex(unmatched) <= LastIndex(cur[..k])
      invariant Prints(unmatched) == Prints(cur[..k]) - usedOld
    {
      var line := cur[k];
      NextLine(cur, k);
      StableStep(oldByIndex, Prints(cur[..k]), line);
      if line.index in oldByIndex && oldByIndex[line.index] == line.fp {
        ElemsAppend(reuse, Pair(line.index, line.index));
        usedOld := usedOld + {line.index};
        reuse := reuse + [Pair(line.index, line.index)];
      } else {
        AppendLine(unmatched, line);
        unmatched := unmatched + [line];
      }
    }
    assert cur[..|cur|] == cur;
  }

  ghost function SelfPairs(s: set<nat>): set<Pair> {
    set i | i in s :: Pair(i, i)
  }

  lemma {:induction false} StableStep(was: map<nat, Fingerprint>, cur: map<nat, Fingerprint>, line: Line)
    requires line.index !in cur
    ensures var now := cur[line.index := line.fp];
            if line.index in was && was[line.index] == line.fp then
              && Stable(was, now) == Stable(was, cur) + {line.index}
              && now - Stable(was, now) == cur - Stable(was, cur)
              && SelfPairs(Stable(was, now)) == SelfPairs(Stable(was, cur)) + {Pair(line.index, line.index)}
            else
              && Stable(was, now) == Stable(was, cur)
              && now - Stable(was, now) == (cur - Stable(was, cur))[line.index := line.fp]
  {}

  /** Every unused old line waits, in order, in the queue of its fingerprint. */
  ghost predicate Queued(remaining: Queues, was: map<nat, Fingerprint>, used: set<nat>) {
    forall f :: Increasing(Queue(remaining, f)) && Waiting(Queue(remaining, f), was, used, f)
  }

  ghost predicate Waiting(q: seq<nat>, was: map<nat, Fingerprint>, used: set<nat>, f: Fingerprint) {
    forall o :: o in q <==> o in was && was[o] == f && o !in used
  }

  /** Second loop: queue the old lines no current line was paired with. */
  method QueueRemaining(was: seq<Line>, usedOld: set<nat>) returns (remaining: Queues)
    requires Ordered(was)
    ensures Queued(remaining, Prints(was), usedOld)
  {
    remaining := map[];
    for k := 0 to |was|
      invariant Queued(remaining, Prints(was[..k]), usedOld)
    {
      var line := was[k];
      NextLine(was, k);
      PrintsBounds(was[..k]);
      if line.index !in usedOld {
        QueueStep(remaining, Prints(was[..k]), usedOld, line);
        remaining := remaining[line.fp := Queue(remaining, line.fp) + [line.index]];
      } else {
        SkipStep(remaining, Prints(was[..k]), usedOld, line);
      }
    }
    assert was[..|was|] == was;
  }

  lemma {:induction false} QueueStep(remaining: Queues, was: map<nat, Fingerprint>, used: set<nat>, line: Line)
    requires Queued(remaining, was, used) && line.index !in used
    requires forall i :: i in was ==> i < line.index
    ensures Queued(remaining[line.fp := Queue(remaining, line.fp) + [line.index]], was[line.index := line.fp], used)
  {
    var after := remaining[line.fp := Queue(remaining, line.fp) + [line.index]];
    var now := was[line.index := line.fp];
    forall f ensures Increasing(Queue(after, f)) && Waiting(Queue(after, f), now, used, f) {
      var q := Queue(remaining, f);
      assert Increasing(q) && Waiting(q, was, used, f);
      if f == line.fp {
        IncreasingAppend(q, line.index);
      }
    }
  }

  lemma {:induction false} SkipStep(remaining: Queues, was: map<nat, Fingerprint>, used: set<nat>, line: Line)
    requires Queued(remaining, was, used) && line.index in used && line.index !in was
    ensures Queued(remaining, was[line.index := line.fp], used)
  {
    var now := was[line.index := line.fp];
    forall f ensures Increasing(Queue(remaining, f)) && Waiting(Queue(remaining, f), now, used, f) {
      assert Waiting(Queue(remaining, f), was, used, f);
    }
  }

  /** State of the third loop after the current lines in `seen`: who is paired, queued or left over. */
  ghost predicate Drawn(was: map<nat, Fingerprint>, cur: map<nat, Fingerprint>, stable: set<nat>,
      seen: map<nat, Fingerprint>,
                        r: set<Pair>, ner: set<nat>, remaining: Queues)
  {
    && Pairing(was, cur, r)
    && Queued(remaining, was, Olds(r))
    && News(r) + ner == stable + seen.Keys
    && News(r) !! ner
    && (forall n :: n in ner ==> n in seen && Queue(remaining, seen[n]) == [])
    && (forall n :: n in seen ==> n in cur && cur[n] == seen[n])
  }

  /** ... and in which order the moved lines were taken. */
  ghost predicate DrawnInOrder(was: map<nat, Fingerprint>, cur: map<nat, Fingerprint>, seen: map<nat, Fingerprint>,
      r: set<Pair>, ner: set<nat>)
  {
    && (forall p :: p in r && Moved(p) ==> p.to in seen)
    && (forall n :: n in ner ==> n in seen)
    && FirstComeFirstServed(was, r)
    && EarliestPaired(cur, r, ner)
  }

  /** `reuse.append((candidates.popleft(), new_index))` */
  lemma {:induction false} DrawStep(was: map<nat, Fingerprint>, cur: map<nat, Fingerprint>, stable: set<nat>,
      seen: map<nat, Fingerprint>,
                 r: set<Pair>, ner: set<nat>, remaining: Queues, line: Line)
    requires Drawn(was, cur, stable, seen, r, ner, remaining)
    requires line.index in cur && cur[line.index] == line.fp
    requires line.index !in stable && line.index !in seen
    requires Queue(remaining, line.fp) != []
    ensures var q := Queue(remaining, line.fp);
            && Alike(was, q[0], q[0]) && was[q[0]] == line.fp && q[0] !in Olds(r)
            && Drawn(was, cur, stable, seen[line.index := line.fp], r + {Pair(q[0], line.index)}, ner,
                remaining[line.fp := q[1..]])
  {
    var q := Queue(remaining, line.fp);
    var p := Pair(q[0], line.index);
    assert Waiting(q, was, Olds(r), line.fp) && q[0] in q;
    assert line.index !in News(r);
    PairedMore(was, cur, r, p);
    PopStep(remaining, was, Olds(r), line.fp);
  }

  lemma {:induction false} PairedMore(was: map<nat, Fingerprint>, cur: map<nat, Fingerprint>, r: set<Pair>, p: Pair)
    requires Pairing(was, cur, r)
    requires p.from in was && p.to in cur && was[p.from] == cur[p.to]
    requires p.from !in Olds(r) && p.to !in News(r)
    ensures Pairing(was, cur, r + {p})
    ensures News(r + {p}) == News(r) + {p.to} && Olds(r + {p}) == Olds(r) + {p.from}
  {}

  lemma {:induction false} DrawOrder(was: map<nat, Fingerprint>, cur: map<nat, Fingerprint>,
      seen: map<nat, Fingerprint>, r: set<Pair>, ner: set<nat>, line: Line, o: nat)
    requires DrawnInOrder(was, cur, seen, r, ner)
    requires forall n :: n in ner ==> !Alike(cur, line.index, n)
    requires forall i :: i in seen ==> i < line.index
    requires o in was && was[o] == line.fp && o !in Olds(r)
    requires forall x :: Alike(was, o, x) && x !in Olds(r) ==> o <= x
    ensures DrawnInOrder(was, cur, seen[line.index := line.fp], r + {Pair(o, line.index)}, ner)
  {
    assert Olds(r + {Pair(o, line.index)}) == Olds(r) + {o};
  }

  lemma {:induction false} PopStep(remaining: Queues, was: map<nat, Fingerprint>, used: set<nat>, f: Fingerprint)
    requires Queued(remaining, was, used) && Queue(remaining, f) != []
    ensures Queued(remaining[f := Queue(remaining, f)[1..]], was, used + {Queue(remaining, f)[0]})
    ensures forall o :: Alike(was, Queue(remaining, f)[0], o) && o !in used ==> Queue(remaining, f)[0] <= o
  {
    var q := Queue(remaining, f);
    var after := remaining[f := q[1..]];
    assert q == [q[0]] + q[1..];
    assert q[0] in q && Waiting(q, was, used, f);
    forall g ensures Increasing(Queue(after, g)) && Waiting(Queue(after, g), was, used + {q[0]}, g) {
      assert Increasing(Queue(remaining, g)) && Waiting(Queue(remaining, g), was, used, g);
    }
  }

  /** `ner.append(new_index)` */
  lemma {:induction false} MissStep(was: map<nat, Fingerprint>, cur: map<nat, Fingerprint>, stable: set<nat>,
      seen: map<nat, Fingerprint>,
                 r: set<Pair>, ner: set<nat>, remaining: Queues, line: Line)
    requires Drawn(was, cur, stable, seen, r, ner, remaining)
    requires line.index in cur && cur[line.index] == line.fp
    requires line.index !in stable && line.index !in seen
    requires Queue(remaining, line.fp) == []
    ensures Drawn(was, cur, stable, seen[line.index := line.fp], r, ner + {line.index}, remaining)
  {
  }

  /** While old lines of this fingerprint wait, none of its current lines was left over. */
  lemma {:induction false} NoneMissed(was: map<nat, Fingerprint>, cur: map<nat, Fingerprint>, stable: set<nat>,
      seen: map<nat, Fingerprint>,
                   r: set<Pair>, ner: set<nat>, remaining: Queues, line: Line)
    requires Drawn(was, cur, stable, seen, r, ner, remaining)
    requires line.index in cur && cur[line.index] == line.fp && Queue(remaining, line.fp) != []
    ensures forall n :: n in ner ==> !Alike(cur, line.index, n)
  {}

  lemma {:induction false} MissOrder(was: map<nat, Fingerprint>, cur: map<nat, Fingerprint>,
      seen: map<nat, Fingerprint>, r: set<Pair>, ner: set<nat>, line: Line)
    requires DrawnInOrder(was, cur, seen, r, ner)
    requires forall i :: i in seen ==> i < line.index
    ensures DrawnInOrder(was, cur, seen[line.index := line.fp], r, ner + {line.index})
  {}

  /** Third loop: hand the queued old lines, first come first served, to the unmatched current ones. */
  method DrawMoved(ghost was: map<nat, Fingerprint>, ghost cur: map<nat, Fingerprint>, ghost stable: set<nat>,
                   unmatched: seq<Line>, queues: Queues, selfPairs: seq<Pair>)
    returns (reuse: seq<Pair>, ner: seq<nat>, ghost remaining: Queues)
    requires Ordered(unmatched) && Prints(unmatched) == cur - stable && stable == Stable(was, cur)
    requires Queued(queues, was, stable) && Elems(selfPairs) == SelfPairs(stable)
    ensures Drawn(was, cur, stable, Prints(unmatched), Elems(reuse), Elems(ner), remaining)
    ensures DrawnInOrder(was, cur, Prints(unmatched), Elems(reuse), Elems(ner))
    ensures Elems(selfPairs) <= Elems(reuse)
    ensures Increasing(ner)
  {
    var left := queues;
    reuse, ner := selfPairs, [];
    SelfPairsEnds(stable);
    for k := 0 to |unmatched|
      invariant Drawn(was, cur, stable, Prints(unmatched[..k]), Elems(reuse), Elems(ner), left)
      invariant DrawnInOrder(was, cur, Prints(unmatched[..k]), Elems(reuse), Elems(ner))
      invariant Elems(selfPairs) <= Elems(reuse)
      invariant Increasing(ner)
    {
      var line := unmatched[k];
      NextLine(unmatched, k);
      PrintsBounds(unmatched[..k]);
      UnmatchedLine(unmatched, k, cur, stable);
      var candidates := Queue(left, line.fp);
      if candidates != [] {
        DrawStep(was, cur, stable, Prints(unmatched[..k]), Elems(reuse), Elems(ner), left, line);
        PopStep(left, was, Olds(Elems(reuse)), line.fp);
        NoneMissed(was, cur, stable, Prints(unmatched[..k]), Elems(reuse), Elems(ner), left, line);
        DrawOrder(was, cur, Prints(unmatched[..k]), Elems(reuse), Elems(ner), line, candidates[0]);
        ElemsAppend(reuse, Pair(candidates[0], line.index));
        reuse := reuse + [Pair(candidates[0], line.index)];
        left := left[line.fp := candidates[1..]];
      } else {
        MissStep(was, cur, stable, Prints(unmatched[..k]), Elems(reuse), Elems(ner), left, line);
        MissOrder(was, cur, Prints(unmatched[..k]), Elems(reuse), Elems(ner), line);
        ElemsAppend(ner, line.index);
        assert forall n :: n in ner ==> n in Elems(ner);
        IncreasingAppend(ner, line.index);
        ner := ner + [line.index];
      }
    }
    assert unmatched[..|unmatched|] == unmatched;
    remaining := left;
  }

  lemma {:induction false} SelfPairsEnds(s: set<nat>)
    ensures Olds(SelfPairs(s)) == s && News(SelfPairs(s)) == s
  {
    forall i | i in s ensures i in Olds(SelfPairs(s)) && i in News(SelfPairs(s)) {
      assert Pair(i, i) in SelfPairs(s);
    }
  }

  lemma {:induction false} UnmatchedLine(unmatched: seq<Line>, k: nat, cur: map<nat, Fingerprint>, stable: set<nat>)
    requires Ordered(unmatched) && k < |unmatched| && Prints(unmatched) == cur - stable
    ensures unmatched[k].index in cur && cur[unmatched[k].index] == unmatched[k].fp && unmatched[k].index !in stable
  {
    PrintOfLine(unmatched, k);
  }

  lemma {:induction false} PrintOfLine(lines: seq<Line>, k: nat)
    requires Ordered(lines) && k < |lines|
    ensures lines[k].index in Prints(lines) && Prints(lines)[lines[k].index] == lines[k].fp
  {
    var n := |lines| - 1;
    if k < n {
      PrintOfLine(lines[..n], k);
      PrintsBounds(lines[..n]);
    }
  }

  /** `reuse.sort(key=lambda item: item[1])` */
  method SortByNew(pairs: seq<Pair>) returns (sorted: seq<Pair>)
    requires forall p, q :: p in Elems(pairs) && q in Elems(pairs) && p.to == q.to ==> p == q
    ensures Elems(sorted) == Elems(pairs) && SortedByNew(sorted)
  {
    var rest := Elems(pairs);
    sorted := [];
    while rest != {}
      invariant Elems(pairs) == Elems(sorted) + rest
      invariant SortedByNew(sorted)
      invariant forall p, q :: p in Elems(sorted) && q in rest ==> p.to < q.to
      decreases |rest|
    {
      var first := EarliestNew(rest);
      SortStep(Elems(pairs), sorted, rest, first);
      sorted := sorted + [first];
      rest := rest - {first};
    }
  }

  lemma {:induction false} SortStep(all: set<Pair>, sorted: seq<Pair>, rest: set<Pair>, first: Pair)
    requires all == Elems(sorted) + rest && SortedByNew(sorted) && first in rest
    requires forall p, q :: p in Elems(sorted) && q in rest ==> p.to < q.to
    ensures all == Elems(sorted + [first]) + (rest - {first}) && SortedByNew(sorted + [first])
  {
    ElemsAppend(sorted, first);
    assert forall i :: 0 <= i < |sorted| ==> sorted[i] in Elems(sorted);
  }

  method EarliestNew(pairs: set<Pair>) returns (first: Pair)
    requires pairs != {}
    requires forall p, q :: p in pairs && q in pairs && p.to == q.to ==> p == q
    ensures first in pairs && forall q :: q in pairs && q != first ==> first.to < q.to
  {
    ghost var some := Pick(pairs);
    first :| first in pairs;
    var rest := pairs - {first};
    while rest != {}
      invariant first in pairs && rest <= pairs && first !in rest
      invariant forall q :: q in pairs - rest && q != first ==> first.to < q.to
      decreases |rest|
    {
      some := Pick(rest);
      var p :| p in rest;
      rest := rest - {p};
      if p.to < first.to {
        first := p;
      }
    }
  }

  method MatchLines(was: seq<Line>, cur: seq<Line>) returns (reuse: seq<Pair>, ner: seq<nat>)
    requires Ordered(was) && Ordered(cur)
    ensures IsMatch(was, cur, reuse, ner)
  {
    var usedOld, selfPairs, unmatched := PairStable(was, cur);
    var queues := QueueRemaining(was, usedOld);
    ghost var remaining;
    reuse, ner, remaining := DrawMoved(Prints(was), Prints(cur), usedOld, unmatched, queues, selfPairs);
    AllDrawn(Prints(was), Prints(cur), Elems(reuse), Elems(ner), remaining);
    reuse := SortByNew(reuse);
  }

  lemma {:induction false} AllDrawn(was: map<nat, Fingerprint>, cur: map<nat, Fingerprint>, r: set<Pair>, ner: set<nat>,
      remaining: Queues)
    requires Drawn(was, cur, Stable(was, cur), cur - Stable(was, cur), r, ner, remaining)
    requires SelfPairs(Stable(was, cur)) <= r
    ensures ner == cur.Keys - News(r)
    ensures PrefersStable(was, cur, r) && Saturated(was, cur, r)
  {
    forall i | i in was && i in cur && was[i] == cur[i] ensures Pair(i, i) in r {
      assert Pair(i, i) in SelfPairs(Stable(was, cur));
    }
    forall o, n | o in was && n in cur && o !in Olds(r) && n !in News(r) ensures was[o] != cur[n] {
      assert n in ner;
      assert Waiting(Queue(remaining, cur[n]), was, Olds(r), cur[n]);
    }
  }
}
