/** Non-maximum suppression across classes (src/gp4_perception/gp4_perception/detection_visualizer.py).
    Candidates are told apart by their position in the list. */
module Suppression {
  import opened Wrappers
  import opened Boxes

  datatype Candidate = Candidate(classId: string, box: Box, confidence: real, payload: nat)

  /** What lets a candidate of one class be suppressed by a kept one of another. */
  datatype Rule = Rule(suppressor: string, centerInside: bool, iouAbove: Option<real>, fullyInsideOnly: bool)

  datatype Config = Config(classPriority: seq<string>, sameIou: real, crossIou: real, pairs: map<string, seq<Rule>>)

  // ---- the order ----

  /** The last position of a class in the list, or its length: later duplicates override earlier ones. */
  function Priority(order: seq<string>, classId: string): nat {
    PriorityFrom(order, classId, |order|)
  }

  function PriorityFrom(order: seq<string>, classId: string, default: nat): nat {
    if order == [] then default
    else if order[|order| - 1] == classId then |order| - 1
    else PriorityFrom(order[..|order| - 1], classId, default)
  }

  /** A listed class has the priority of its last listing, and every listed class comes before every
      unlisted one. */
  lemma PriorityExactly(order: seq<string>, classId: string)
    ensures var p := Priority(order, classId);
            if classId in order then p < |order| && order[p] == classId
                && forall k | p < k < |order| :: order[k] != classId
            else p == |order|
  {
    PriorityFromExactly(order, classId, |order|);
  }

  lemma {:induction false} PriorityFromExactly(order: seq<string>, classId: string, default: nat)
    ensures var p := PriorityFrom(order, classId, default);
            if classId in order then p < |order| && order[p] == classId
                && forall k | p < k < |order| :: order[k] != classId
            else p == default
    decreases |order|
  {
    if order != [] {
      assert order == order[..|order| - 1] + [order[|order| - 1]];
      PriorityFromExactly(order[..|order| - 1], classId, default);
    }
  }

  /** a's key is at most b's: higher priority, or the same and at least the confidence. */
  predicate Precedes(cfg: Config, a: Candidate, b: Candidate) {
    var p, q := Priority(cfg.classPriority, a.classId), Priority(cfg.classPriority, b.classId);
    p < q || (p == q && a.confidence >= b.confidence)
  }

  predicate SameKey(cfg: Config, a: Candidate, b: Candidate) {
    Precedes(cfg, a, b) && Precedes(cfg, b, a)
  }

  ghost predicate Ordered(cfg: Config, s: seq<Candidate>) {
    forall i, j | 0 <= i < j < |s| :: Precedes(cfg, s[i], s[j])
  }

  /** Insert after everything that does not come later. */
  function Insert(cfg: Config, s: seq<Candidate>, c: Candidate): seq<Candidate> {
    if s == [] then [c]
    else if Precedes(cfg, s[|s| - 1], c) then s + [c]
    else Insert(cfg, s[..|s| - 1], c) + [s[|s| - 1]]
  }

  /** The stable sort by key. */
  function StableSort(cfg: Config, s: seq<Candidate>): seq<Candidate> {
    if s == [] then [] else Insert(cfg, StableSort(cfg, s[..|s| - 1]), s[|s| - 1])
  }

  /** The members of s with the key of c, in their order. */
  function Peers(cfg: Config, s: seq<Candidate>, c: Candidate): seq<Candidate> {
    if s == [] then []
    else
      var rest := Peers(cfg, s[..|s| - 1], c);
      if SameKey(cfg, s[|s| - 1], c) then rest + [s[|s| - 1]] else rest
  }

  lemma KeyOrder(cfg: Config, a: Candidate, b: Candidate, c: Candidate)
    ensures Precedes(cfg, a, b) || Precedes(cfg, b, a)
    ensures Precedes(cfg, a, b) && Precedes(cfg, b, c) ==> Precedes(cfg, a, c)
  {
    hide Priority;
  }

  lemma {:induction false} InsertKeepsMembers(cfg: Config, s: seq<Candidate>, c: Candidate)
    ensures multiset(Insert(cfg, s, c)) == multiset(s) + multiset{c}
    decreases |s|
  {
    hide Precedes;
    if s != [] {
      assert s == s[..|s| - 1] + [s[|s| - 1]];
      InsertKeepsMembers(cfg, s[..|s| - 1], c);
    }
  }

  lemma {:induction false} InsertOrdered(cfg: Config, s: seq<Candidate>, c: Candidate)
    requires Ordered(cfg, s)
    ensures Ordered(cfg, Insert(cfg, s, c))
    decreases |s|
  {
    hide Precedes;
    if s != [] {
      var front, last := s[..|s| - 1], s[|s| - 1];
      if Precedes(cfg, last, c) {
        forall i | 0 <= i < |s| ensures Precedes(cfg, s[i], c) {
          KeyOrder(cfg, s[i], last, c);
        }
      } else {
        InsertOrdered(cfg, front, c);
        var u := Insert(cfg, front, c);
        KeyOrder(cfg, c, last, c);
        forall i | 0 <= i < |u| ensures Precedes(cfg, u[i], last) {
          InsertKeepsMembers(cfg, front, c);
          assert u[i] in multiset(u);
          assert u[i] in front || u[i] == c;
        }
      }
    }
  }

  lemma {:induction false} InsertPeers(cfg: Config, s: seq<Candidate>, c: Candidate, peer: Candidate)
    ensures Peers(cfg, Insert(cfg, s, c), peer) == Peers(cfg, s, peer) + if SameKey(cfg, c, peer) then [c] else []
    decreases |s|
  {
    hide Precedes;
    var t := Insert(cfg, s, c);
    assert t[..|t| - 1] == if s != [] && !Precedes(cfg, s[|s| - 1], c) then Insert(cfg, s[..|s| - 1], c) else s;
    if s != [] && !Precedes(cfg, s[|s| - 1], c) {
      InsertPeers(cfg, s[..|s| - 1], c, peer);
      KeyOrder(cfg, s[|s| - 1], peer, c);
    }
  }

  /** The sort yields the one ordered permutation that keeps candidates with equal keys in their
      order. */
  lemma {:induction false} SortCore(cfg: Config, s: seq<Candidate>, peer: Candidate)
    ensures var t := StableSort(cfg, s);
            Ordered(cfg, t) && multiset(t) == multiset(s) && Peers(cfg, t, peer) == Peers(cfg, s, peer)
    decreases |s|
  {
    if s != [] {
      assert s == s[..|s| - 1] + [s[|s| - 1]];
      SortCore(cfg, s[..|s| - 1], peer);
      InsertOrdered(cfg, StableSort(cfg, s[..|s| - 1]), s[|s| - 1]);
      InsertKeepsMembers(cfg, StableSort(cfg, s[..|s| - 1]), s[|s| - 1]);
      InsertPeers(cfg, StableSort(cfg, s[..|s| - 1]), s[|s| - 1], peer);
    }
  }

  /** Sorting what is in order changes nothing. */
  lemma {:induction false} SortedIsFixed(cfg: Config, s: seq<Candidate>)
    requires Ordered(cfg, s)
    ensures StableSort(cfg, s) == s
    decreases |s|
  {
    hide Precedes;
    if s != [] {
      var front := s[..|s| - 1];
      assert s == front + [s[|s| - 1]];
      SortedIsFixed(cfg, front);
      if front != [] {
        assert Precedes(cfg, s[|s| - 2], s[|s| - 1]);
      }
    }
  }

  // ---- the greedy stage ----

  predicate Conflict(cfg: Config, a: Candidate, b: Candidate) {
    Iou(a.box, b.box) > if a.classId == b.classId then cfg.sameIou else cfg.crossIou
  }

  /** The positions after n in conflict with position n. */
  function Struck(cfg: Config, s: seq<Candidate>, n: nat): set<nat>
    requires n < |s|
  {
    set j | n < j < |s| && Conflict(cfg, s[n], s[j])
  }

  /** The suppressed positions once the first n have been visited. */
  function Suppressed(cfg: Config, s: seq<Candidate>, n: nat): set<nat>
    requires n <= |s|
  {
    if n == 0 then {}
    else
      var before := Suppressed(cfg, s, n - 1);
      if n - 1 in before then before else before + Struck(cfg, s, n - 1)
  }

  predicate KeptAt(cfg: Config, s: seq<Candidate>, i: nat)
    requires i < |s|
  {
    i !in Suppressed(cfg, s, i)
  }

  function KeptSet(cfg: Config, s: seq<Candidate>): set<nat> {
    set i: nat | i < |s| && KeptAt(cfg, s, i)
  }

  /** The positions kept among the first n, in order. */
  function KeptIndices(cfg: Config, s: seq<Candidate>, n: nat): seq<nat>
    requires n <= |s|
  {
    if n == 0 then []
    else KeptIndices(cfg, s, n - 1) + if KeptAt(cfg, s, n - 1) then [n - 1] else []
  }

  ghost predicate AscendingBelow(idx: seq<nat>, n: nat) {
    && (forall i, j | 0 <= i < j < |idx| :: idx[i] < idx[j])
    && (forall i | 0 <= i < |idx| :: idx[i] < n)
  }

  function At(s: seq<Candidate>, idx: seq<nat>): (t: seq<Candidate>)
    requires forall i | 0 <= i < |idx| :: idx[i] < |s|
    ensures |t| == |idx| && forall i | 0 <= i < |idx| :: t[i] == s[idx[i]]
  {
    seq(|idx|, i requires 0 <= i < |idx| => s[idx[i]])
  }

  function KeptFrom(cfg: Config, s: seq<Candidate>, n: nat): seq<Candidate>
    requires n <= |s|
  {
    KeptIndicesCore(cfg, s, n);
    At(s, KeptIndices(cfg, s, n))
  }

  function Kept(cfg: Config, s: seq<Candidate>): seq<Candidate> {
    KeptFrom(cfg, s, |s|)
  }

  lemma KeptFromStep(cfg: Config, s: seq<Candidate>, n: nat)
    requires n < |s|
    ensures KeptFrom(cfg, s, n + 1) == KeptFrom(cfg, s, n) + if KeptAt(cfg, s, n) then [s[n]] else []
  {
    hide KeptAt;
    KeptIndicesCore(cfg, s, n);
    KeptIndicesCore(cfg, s, n + 1);
  }

  lemma {:induction false} KeptIndicesCore(cfg: Config, s: seq<Candidate>, n: nat)
    requires n <= |s|
    ensures AscendingBelow(KeptIndices(cfg, s, n), n)
    ensures forall i: nat :: i in KeptIndices(cfg, s, n) <==> i < n && KeptAt(cfg, s, i)
  {
    hide KeptAt;
    if n > 0 {
      KeptIndicesCore(cfg, s, n - 1);
    }
  }

  lemma KeptMeans(cfg: Config, s: seq<Candidate>, i: nat)
    requires i < |s|
    ensures KeptAt(cfg, s, i) <==> i !in Suppressed(cfg, s, i)
  {
  }

  /** A position is suppressed exactly by an earlier kept one in conflict with it. */
  lemma {:induction false} SuppressedExactly(cfg: Config, s: seq<Candidate>, n: nat, j: nat)
    requires n <= |s|
    ensures j in Suppressed(cfg, s, n) <==>
            j < |s| && exists i: nat :: i < n && i < j && KeptAt(cfg, s, i) && Conflict(cfg, s[i], s[j])
  {
    hide Conflict, KeptAt;
    if n > 0 {
      SuppressedExactly(cfg, s, n - 1, j);
      var i := n - 1;
      KeptMeans(cfg, s, i);
      assert j in Suppressed(cfg, s, n) <==>
             j in Suppressed(cfg, s, n - 1) || (KeptAt(cfg, s, i) && i < j < |s| && Conflict(cfg, s[i], s[j]));
    }
  }

  /** Conflict-free, and everything outside conflicts with an earlier member. */
  ghost predicate Kernel(cfg: Config, s: seq<Candidate>, k: set<nat>) {
    && (forall i | i in k :: i < |s|)
    && (forall i, j | i in k && j in k && i < j :: !Conflict(cfg, s[i], s[j]))
    && (forall j: nat | j < |s| && j !in k :: exists i :: i in k && i < j && Conflict(cfg, s[i], s[j]))
  }

  /** The positions kept are the one set that is free of conflicts and in which every dropped
      candidate conflicts with a kept one earlier in the order. */
  lemma UniqueKernel(cfg: Config, s: seq<Candidate>, k: set<nat>)
    ensures Kernel(cfg, s, k) <==> k == KeptSet(cfg, s)
  {
    hide Conflict, Suppressed;
    KeptIsKernel(cfg, s);
    if Kernel(cfg, s, k) {
      forall i: nat | i < |s| ensures i in k <==> i in KeptSet(cfg, s) {
        KernelsAgree(cfg, s, k, KeptSet(cfg, s), i);
      }
      assert k == KeptSet(cfg, s);
    }
  }

  lemma KeptIsKernel(cfg: Config, s: seq<Candidate>)
    ensures Kernel(cfg, s, KeptSet(cfg, s))
  {
    hide Conflict, Suppressed;
    var k := KeptSet(cfg, s);
    forall j: nat | j < |s|
      ensures KeptAt(cfg, s, j) <==> !exists i: nat :: i < j && KeptAt(cfg, s, i) && Conflict(cfg, s[i], s[j])
    {
      SuppressedExactly(cfg, s, j, j);
    }
    forall j: nat | j < |s| && j !in k ensures exists i :: i in k && i < j && Conflict(cfg, s[i], s[j]) {
      var i: nat :| i < j && KeptAt(cfg, s, i) && Conflict(cfg, s[i], s[j]);
      assert i in k;
    }
  }

  lemma {:induction false} KernelsAgree(cfg: Config, s: seq<Candidate>, k: set<nat>, l: set<nat>, i: nat)
    requires Kernel(cfg, s, k) && Kernel(cfg, s, l) && i < |s|
    ensures i in k <==> i in l
    decreases i
  {
    hide Conflict;
    forall j: nat | j < i ensures j in k <==> j in l {
      KernelsAgree(cfg, s, k, l, j);
    }
  }

  // ---- pair suppression ----

  predicate Fires(rule: Rule, inner: Box, outer: Box) {
    || (rule.centerInside && CenterInside(inner, outer))
    || (rule.iouAbove.Some? && Iou(inner, outer) > rule.iouAbove.value)
    || (rule.fullyInsideOnly && FullyInside(inner, outer))
  }

  predicate FiresAt(s: seq<Candidate>, rule: Rule, i: nat, j: nat)
    requires i < |s| && j < |s|
  {
    s[j].classId == rule.suppressor && j != i && Fires(rule, s[i].box, s[j].box)
  }

  /** Some rule for its class lets another kept candidate suppress the one at position i. */
  predicate PairSuppressed(cfg: Config, s: seq<Candidate>, i: nat)
    requires i < |s|
  {
    && s[i].classId in cfg.pairs
    && exists r, j: nat | 0 <= r < |cfg.pairs[s[i].classId]| && j < |s| :: FiresAt(s, cfg.pairs[s[i].classId][r], i, j)
  }

  function FinalIndices(cfg: Config, s: seq<Candidate>, n: nat): seq<nat>
    requires n <= |s|
  {
    if n == 0 then []
    else FinalIndices(cfg, s, n - 1) + if PairSuppressed(cfg, s, n - 1) then [] else [n - 1]
  }

  lemma {:induction false} FinalIndicesCore(cfg: Config, s: seq<Candidate>, n: nat)
    requires n <= |s|
    ensures AscendingBelow(FinalIndices(cfg, s, n), n)
    ensures forall i: nat :: i in FinalIndices(cfg, s, n) <==> i < n && !PairSuppressed(cfg, s, i)
  {
    hide PairSuppressed;
    if n > 0 {
      FinalIndicesCore(cfg, s, n - 1);
    }
  }

  function FinalFrom(cfg: Config, s: seq<Candidate>, n: nat): seq<Candidate>
    requires n <= |s|
  {
    FinalIndicesCore(cfg, s, n);
    At(s, FinalIndices(cfg, s, n))
  }

  function Final(cfg: Config, s: seq<Candidate>): seq<Candidate> {
    FinalFrom(cfg, s, |s|)
  }

  lemma FinalFromStep(cfg: Config, s: seq<Candidate>, n: nat)
    requires n < |s|
    ensures FinalFrom(cfg, s, n + 1) == FinalFrom(cfg, s, n) + if PairSuppressed(cfg, s, n) then [] else [s[n]]
  {
    hide PairSuppressed;
    FinalIndicesCore(cfg, s, n);
    FinalIndicesCore(cfg, s, n + 1);
  }

  function Nms(cfg: Config, candidates: seq<Candidate>): seq<Candidate> {
    Final(cfg, Kept(cfg, StableSort(cfg, candidates)))
  }

  // ---- idempotence ----

  ghost predicate ConflictFree(cfg: Config, s: seq<Candidate>) {
    forall i, j | 0 <= i < j < |s| :: !Conflict(cfg, s[i], s[j])
  }

  ghost predicate PairFree(cfg: Config, s: seq<Candidate>) {
    forall i: nat | i < |s| :: !PairSuppressed(cfg, s, i)
  }

  function Below(n: nat): (all: set<nat>)
    ensures forall i: nat :: i in all <==> i < n
  {
    if n == 0 then {} else Below(n - 1) + {n - 1}
  }

  lemma {:induction false} AllKept(cfg: Config, s: seq<Candidate>, n: nat)
    requires n <= |s| && forall i: nat | i < n :: KeptAt(cfg, s, i)
    ensures |KeptIndices(cfg, s, n)| == n && forall i | 0 <= i < n :: KeptIndices(cfg, s, n)[i] == i
  {
    hide KeptAt;
    if n > 0 {
      AllKept(cfg, s, n - 1);
    }
  }

  /** The greedy stage drops nothing from a list without conflicts. */
  lemma KeptIsFixed(cfg: Config, s: seq<Candidate>)
    requires ConflictFree(cfg, s)
    ensures Kept(cfg, s) == s
  {
    hide Conflict, Suppressed, KeptAt;
    var all := Below(|s|);
    UniqueKernel(cfg, s, all);
    forall i: nat | i < |s| ensures KeptAt(cfg, s, i) {
      assert i in all;
    }
    AllKept(cfg, s, |s|);
  }

  lemma KeptIsConflictFree(cfg: Config, s: seq<Candidate>)
    ensures ConflictFree(cfg, Kept(cfg, s))
  {
    hide Conflict, Suppressed, KeptIndices;
    KeptIndicesCore(cfg, s, |s|);
    KeptIsKernel(cfg, s);
    var idx := KeptIndices(cfg, s, |s|);
    forall i | 0 <= i < |idx| ensures idx[i] in KeptSet(cfg, s) {
      assert idx[i] in idx;
    }
  }

  lemma {:induction false} NoneSuppressed(cfg: Config, s: seq<Candidate>, n: nat)
    requires n <= |s| && PairFree(cfg, s)
    ensures |FinalIndices(cfg, s, n)| == n && forall i | 0 <= i < n :: FinalIndices(cfg, s, n)[i] == i
  {
    hide PairSuppressed;
    if n > 0 {
      NoneSuppressed(cfg, s, n - 1);
    }
  }

  lemma FinalIsFixed(cfg: Config, s: seq<Candidate>)
    requires PairFree(cfg, s)
    ensures Final(cfg, s) == s
  {
    hide PairSuppressed;
    NoneSuppressed(cfg, s, |s|);
  }

  /** With fewer candidates left fewer are suppressed. */
  lemma PairMonotone(cfg: Config, s: seq<Candidate>, idx: seq<nat>, i: nat)
    requires AscendingBelow(idx, |s|) && i < |idx|
    ensures PairSuppressed(cfg, At(s, idx), i) ==> PairSuppressed(cfg, s, idx[i])
  {
    hide Fires;
    var t := At(s, idx);
    if PairSuppressed(cfg, t, i) {
      var r, j: nat :| 0 <= r < |cfg.pairs[t[i].classId]| && j < |t| && FiresAt(t, cfg.pairs[t[i].classId][r], i, j);
      assert FiresAt(s, cfg.pairs[s[idx[i]].classId][r], idx[i], idx[j]);
    }
  }

  /** What survives the pair rules survives them again. */
  lemma FinalIsPairFree(cfg: Config, s: seq<Candidate>)
    ensures PairFree(cfg, Final(cfg, s))
  {
    hide PairSuppressed, FinalIndices;
    FinalIndicesCore(cfg, s, |s|);
    var idx, t := FinalIndices(cfg, s, |s|), Final(cfg, s);
    forall i: nat | i < |t| ensures !PairSuppressed(cfg, t, i) {
      assert idx[i] in idx;
      PairMonotone(cfg, s, idx, i);
    }
  }

  lemma SublistKeeps(cfg: Config, s: seq<Candidate>, idx: seq<nat>)
    requires AscendingBelow(idx, |s|)
    ensures Ordered(cfg, s) ==> Ordered(cfg, At(s, idx))
    ensures ConflictFree(cfg, s) ==> ConflictFree(cfg, At(s, idx))
  {
    hide Precedes, Conflict;
  }

  /** The output is sorted, free of conflicts and of pair suppression. */
  lemma NmsOutput(cfg: Config, candidates: seq<Candidate>)
    ensures var out := Nms(cfg, candidates);
            Ordered(cfg, out) && ConflictFree(cfg, out) && PairFree(cfg, out)
  {
    hide Ordered, ConflictFree, PairFree, KeptIndices, FinalIndices, StableSort;
    var s := StableSort(cfg, candidates);
    var k := Kept(cfg, s);
    if candidates != [] {
      SortCore(cfg, candidates, candidates[0]);
    } else {
      NothingOrdered(cfg);
    }
    KeptIndicesCore(cfg, s, |s|);
    SublistKeeps(cfg, s, KeptIndices(cfg, s, |s|));
    KeptIsConflictFree(cfg, s);
    FinalIndicesCore(cfg, k, |k|);
    SublistKeeps(cfg, k, FinalIndices(cfg, k, |k|));
    FinalIsPairFree(cfg, k);
  }

  lemma NothingOrdered(cfg: Config)
    ensures Ordered(cfg, StableSort(cfg, []))
  {
  }

  /** Suppressing twice is suppressing once. */
  lemma Idempotent(cfg: Config, candidates: seq<Candidate>)
    ensures Nms(cfg, Nms(cfg, candidates)) == Nms(cfg, candidates)
  {
    hide Ordered, ConflictFree, PairFree, KeptFrom, FinalFrom, StableSort;
    var out := Nms(cfg, candidates);
    NmsOutput(cfg, candidates);
    SortedIsFixed(cfg, out);
    KeptIsFixed(cfg, out);
    FinalIsFixed(cfg, out);
  }

  /** Whatever is not in the output has a reason: an earlier kept candidate it conflicts with, or
      another kept candidate that a pair rule lets suppress it. */
  lemma DroppedForAReason(cfg: Config, candidates: seq<Candidate>, i: nat)
    requires i < |StableSort(cfg, candidates)|
    ensures var s := StableSort(cfg, candidates);
            || (exists j: nat :: j < i && KeptAt(cfg, s, j) && Conflict(cfg, s[j], s[i]))
            || (exists k: nat :: k < |Kept(cfg, s)| && Kept(cfg, s)[k] == s[i] && PairSuppressed(cfg, Kept(cfg, s), k))
            || s[i] in Nms(cfg, candidates)
  {
    hide Conflict, PairSuppressed, Suppressed, StableSort;
    var s := StableSort(cfg, candidates);
    SuppressedExactly(cfg, s, i, i);
    if KeptAt(cfg, s, i) {
      KeptIndicesCore(cfg, s, |s|);
      var idx := KeptIndices(cfg, s, |s|);
      var k: nat :| k < |idx| && idx[k] == i;
      var kept := Kept(cfg, s);
      assert kept[k] == s[i];
      FinalIndicesCore(cfg, kept, |kept|);
      if !PairSuppressed(cfg, kept, k) {
        var f: nat :| f < |FinalIndices(cfg, kept, |kept|)| && FinalIndices(cfg, kept, |kept|)[f] == k;
        assert Nms(cfg, candidates)[f] == s[i];
      }
    }
  }

  // ---- the pass as it runs ----

  method CrossClassNms(cfg: Config, candidates: seq<Candidate>) returns (final: seq<Candidate>)
    ensures final == Nms(cfg, candidates)
  {
    if candidates == [] {
      return [];
    }
    var sorted := StableSort(cfg, candidates);
    var kept := GreedyPass(cfg, sorted);
    final := PairPass(cfg, kept);
  }

  /** One visit of the outer loop: the later positions in conflict with position i. */
  method Strike(cfg: Config, sorted: seq<Candidate>, i: nat, before: set<nat>) returns (suppressed: set<nat>)
    requires i < |sorted|
    ensures suppressed == before + Struck(cfg, sorted, i)
  {
    hide Iou;
    suppressed := before;
    for j := i + 1 to |sorted|
      invariant forall x :: x in suppressed <==> x in before || (i < x < j && Conflict(cfg, sorted[i], sorted[x]))
    {
      if j !in suppressed {
        var iou := Iou(sorted[i].box, sorted[j].box);
        if sorted[i].classId == sorted[j].classId && iou > cfg.sameIou {
          suppressed := suppressed + {j};
        } else if sorted[i].classId != sorted[j].classId && iou > cfg.crossIou {
          suppressed := suppressed + {j};
        }
      }
    }
  }

  method GreedyPass(cfg: Config, sorted: seq<Candidate>) returns (kept: seq<Candidate>)
    ensures kept == Kept(cfg, sorted)
  {
    hide Struck, KeptFrom;
    kept := [];
    var suppressed: set<nat> := {};
    NothingYet(cfg, sorted);
    for i := 0 to |sorted|
      invariant suppressed == Suppressed(cfg, sorted, i)
      invariant kept == KeptFrom(cfg, sorted, i)
    {
      KeptFromStep(cfg, sorted, i);
      if i !in suppressed {
        suppressed := Strike(cfg, sorted, i, suppressed);
        kept := kept + [sorted[i]];
      }
    }
  }

  lemma NothingYet(cfg: Config, s: seq<Candidate>)
    ensures KeptFrom(cfg, s, 0) == [] && FinalFrom(cfg, s, 0) == []
  {
  }

  method PairPass(cfg: Config, kept: seq<Candidate>) returns (final: seq<Candidate>)
    ensures final == Final(cfg, kept)
  {
    hide PairSuppressed, FinalFrom;
    final := [];
    NothingYet(cfg, kept);
    for i := 0 to |kept|
      invariant final == FinalFrom(cfg, kept, i)
    {
      FinalFromStep(cfg, kept, i);
      var suppress := AnyRuleFires(cfg, kept, i);
      if !suppress {
        final := final + [kept[i]];
      }
    }
  }

  method AnyRuleFires(cfg: Config, kept: seq<Candidate>, i: nat) returns (suppress: bool)
    requires i < |kept|
    ensures suppress == PairSuppressed(cfg, kept, i)
  {
    hide Iou, CenterInside, FullyInside;
    suppress := false;
    if kept[i].classId !in cfg.pairs {
      return;
    }
    var rules := cfg.pairs[kept[i].classId];
    for r := 0 to |rules|
      invariant !suppress
      invariant forall q, j: nat | 0 <= q < r && j < |kept| :: !FiresAt(kept, rules[q], i, j)
    {
      for j := 0 to |kept|
        invariant !suppress
        invariant forall x: nat | x < j :: !FiresAt(kept, rules[r], i, x)
      {
        var rule, other := rules[r], kept[j];
        if other.classId == rule.suppressor && j != i {
          if rule.centerInside && CenterInside(kept[i].box, other.box) {
            suppress := true;
          }
          if rule.iouAbove.Some? && Iou(kept[i].box, other.box) > rule.iouAbove.value {
            suppress := true;
          }
          if rule.fullyInsideOnly && FullyInside(kept[i].box, other.box) {
            suppress := true;
          }
        }
        assert suppress == FiresAt(kept, rule, i, j);
        if suppress {
          return;
        }
      }
    }
  }

  // ---- what the stages compare ----

  /** Two candidates conflict when their overlap exceeds the limit for one class, or for two. */
  lemma ConflictExactly(cfg: Config, a: Candidate, b: Candidate)
    ensures Conflict(cfg, a, b) <==>
            || (a.classId == b.classId && Iou(a.box, b.box) > cfg.sameIou)
            || (a.classId != b.classId && Iou(a.box, b.box) > cfg.crossIou)
  {
  }

  /** The rule, for a candidate and another one: the other has the rule's class and covers the candidate's
      center, overlaps it by more than the rule's limit, or holds it whole, each where the rule asks for it. */
  predicate FallsTo(c: Candidate, rule: Rule, other: Candidate) {
    && other.classId == rule.suppressor
    && (|| (rule.centerInside && CenterInside(c.box, other.box))
        || (rule.iouAbove.Some? && Iou(c.box, other.box) > rule.iouAbove.value)
        || (rule.fullyInsideOnly && FullyInside(c.box, other.box)))
  }

  /** A candidate is suppressed under a pair rule exactly when it falls to a rule of its own class and
      another kept candidate. */
  lemma PairSuppressedExactly(cfg: Config, s: seq<Candidate>, i: nat)
    requires i < |s|
    ensures PairSuppressed(cfg, s, i) <==>
            && s[i].classId in cfg.pairs
            && exists rule, other :: rule in cfg.pairs[s[i].classId] && other in Without(s, i) && FallsTo(s[i], rule, other)
  {
    hide CenterInside, FullyInside, Iou, Without;
    if s[i].classId in cfg.pairs {
      var rules := cfg.pairs[s[i].classId];
      if PairSuppressed(cfg, s, i) {
        var r, j: nat :| 0 <= r < |rules| && j < |s| && FiresAt(s, rules[r], i, j);
        WithoutHas(s, i, j);
        assert rules[r] in rules && FallsTo(s[i], rules[r], s[j]);
      }
      if rule, other :| rule in rules && other in Without(s, i) && FallsTo(s[i], rule, other) {
        var r :| 0 <= r < |rules| && rules[r] == rule;
        var j := WithoutAt(s, i, other);
        assert FiresAt(s, rules[r], i, j);
      }
    }
  }

  /** The list without one position. */
  function Without(s: seq<Candidate>, i: nat): seq<Candidate>
    requires i < |s|
  {
    s[..i] + s[i + 1..]
  }

  lemma WithoutHas(s: seq<Candidate>, i: nat, j: nat)
    requires i < |s| && j < |s| && i != j
    ensures s[j] in Without(s, i)
  {
    var k := if j < i then j else j - 1;
    assert Without(s, i)[k] == s[j];
  }

  lemma WithoutAt(s: seq<Candidate>, i: nat, c: Candidate) returns (j: nat)
    requires i < |s| && c in Without(s, i)
    ensures j < |s| && j != i && s[j] == c
  {
    var k :| 0 <= k < |Without(s, i)| && Without(s, i)[k] == c;
    j := if k < i then k else k + 1;
  }

  /** Of two candidates in the output the earlier has the class of at least the priority and, within one
      priority, at least the confidence; they overlap by no more than the limit for one class, or for two. */
  lemma OutputPairs(cfg: Config, candidates: seq<Candidate>, i: nat, j: nat)
    requires i < j < |Nms(cfg, candidates)|
    ensures var out := Nms(cfg, candidates);
            var p, q := Priority(cfg.classPriority, out[i].classId), Priority(cfg.classPriority, out[j].classId);
            && p <= q && (p == q ==> out[j].confidence <= out[i].confidence)
            && Iou(out[i].box, out[j].box) <= if out[i].classId == out[j].classId then cfg.sameIou else cfg.crossIou
  {
    hide Priority, Iou, Nms, PairFree;
    NmsOutput(cfg, candidates);
    var out := Nms(cfg, candidates);
    assert Precedes(cfg, out[i], out[j]) && !Conflict(cfg, out[i], out[j]);
  }
}
