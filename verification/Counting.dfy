/** What both trackers count: hits and misses in a history, and the ages of what they hold. */
module Counting {

  /** The hits in a history. */
  function Sum(hits: seq<bool>): (n: nat)
    ensures n <= |hits|
    ensures n > 0 <==> true in hits
  {
    if hits == [] then 0
    else
      assert hits == hits[..|hits| - 1] + [hits[|hits| - 1]];
      Sum(hits[..|hits| - 1]) + (if hits[|hits| - 1] then 1 else 0)
  }

  /** The misses at the end of a history. */
  function TrailingMisses(history: seq<bool>): nat {
    if history == [] || history[|history| - 1] then 0 else 1 + TrailingMisses(history[..|history| - 1])
  }


  function Occurrences(s: seq<nat>, m: nat): nat {
    if s == [] then 0
    else Occurrences(s[..|s| - 1], m) + (if s[|s| - 1] == m then 1 else 0)
  }

  /** How many entries lie below h, value by value. */
  function OccurrencesBelow(s: seq<nat>, h: nat): nat {
    if h == 0 then 0 else OccurrencesBelow(s, h - 1) + Occurrences(s, h - 1)
  }

  lemma {:induction false} BelowSnoc(s: seq<nat>, x: nat, h: nat)
    ensures OccurrencesBelow(s + [x], h) == OccurrencesBelow(s, h) + (if x < h then 1 else 0)
  {
    if h > 0 {
      BelowSnoc(s, x, h - 1);
      assert (s + [x])[..|s|] == s;
    }
  }

  /** When every entry lies below h, counting value by value counts every entry once. */
  lemma {:induction false} AllBelow(s: seq<nat>, h: nat)
    requires forall x | x in s :: x < h
    ensures OccurrencesBelow(s, h) == |s|
    decreases |s|
  {
    if s == [] {
      NoneBelow(h);
    } else {
      var front := s[..|s| - 1];
      assert s == front + [s[|s| - 1]];
      forall x | x in front ensures x < h {
        assert x in s;
      }
      assert s[|s| - 1] in s;
      AllBelow(front, h);
      BelowSnoc(front, s[|s| - 1], h);
    }
  }

  lemma {:induction false} NoneBelow(h: nat)
    ensures OccurrencesBelow([], h) == 0
  {
    if h > 0 {
      NoneBelow(h - 1);
    }
  }

  lemma {:induction false} Shorter(v: seq<nat>, m: nat, n: nat)
    requires n <= |v|
    ensures Occurrences(v[..n], m) <= Occurrences(v, m)
    decreases |v|
  {
    if n == |v| {
      assert v[..n] == v;
    } else {
      assert v[..|v| - 1][..n] == v[..n];
      Shorter(v[..|v| - 1], m, n);
    }
  }

  /** If wherever u holds a, v holds b, then b occurs in v at least as often as a in u. */
  lemma {:induction false} Dominated(u: seq<nat>, a: nat, v: seq<nat>, b: nat)
    requires forall i | 0 <= i < |u| && u[i] == a :: i < |v| && v[i] == b
    ensures Occurrences(u, a) <= Occurrences(v, b)
    decreases |u|
  {
    if u != [] {
      var n := |u| - 1;
      if u[n] == a {
        Dominated(u[..n], a, v[..n], b);
        Shorter(v, b, n + 1);
        assert v[..n + 1][..n] == v[..n];
      } else {
        Dominated(u[..n], a, v, b);
      }
    }
  }

  /** If u holds a exactly at the given positions, a occurs once for each of them. */
  lemma {:induction false} AtPositions(u: seq<nat>, a: nat, positions: set<nat>)
    requires forall i | i in positions :: i < |u|
    requires forall i | 0 <= i < |u| :: u[i] == a <==> i in positions
    ensures Occurrences(u, a) == |positions|
    decreases |u|
  {
    if u == [] {
      assert positions == {};
    } else {
      var n := |u| - 1;
      AtPositions(u[..n], a, positions - {n});
    }
  }

  // ---- ages and intake ----

  /** Of the things whose ages are listed, at most as many have age m as were taken in m steps ago. */
  ghost predicate Accounted(ages: seq<nat>, intake: seq<nat>) {
    forall m: nat :: Occurrences(ages, m) <= if m < |intake| then intake[|intake| - 1 - m] else 0
  }

  /** The intake of the last h steps. */
  function IntakeWithin(intake: seq<nat>, h: nat): nat {
    if h == 0 || intake == [] then 0
    else IntakeWithin(intake[..|intake| - 1], h - 1) + intake[|intake| - 1]
  }

  lemma NothingAccounted(intake: seq<nat>)
    ensures Accounted([], intake)
  {
  }

  /** One step: what has age 0 now was taken in now, and the rest has grown older or left. */
  lemma AccountedNext(ages: seq<nat>, intake: seq<nat>, next: seq<nat>, n: nat)
    requires Accounted(ages, intake)
    requires Occurrences(next, 0) <= n
    requires forall m: nat :: Occurrences(next, m + 1) <= Occurrences(ages, m)
    ensures Accounted(next, intake + [n])
  {
    hide Occurrences;
    forall m: nat
      ensures Occurrences(next, m) <= if m <= |intake| then (intake + [n])[|intake| - m] else 0
    {
      if m > 0 {
        assert Occurrences(next, (m - 1) + 1) <= Occurrences(ages, m - 1);
      }
    }
  }

  lemma {:induction false} IntakeStep(intake: seq<nat>, h: nat)
    requires h > 0
    ensures IntakeWithin(intake, h) == IntakeWithin(intake, h - 1) + if h <= |intake| then intake[|intake| - h] else 0
    decreases |intake|
  {
    if intake != [] && h > 1 {
      IntakeStep(intake[..|intake| - 1], h - 1);
    }
  }

  lemma {:induction false} BelowAccounted(ages: seq<nat>, intake: seq<nat>, h: nat)
    requires Accounted(ages, intake)
    ensures OccurrencesBelow(ages, h) <= IntakeWithin(intake, h)
  {
    hide Occurrences;
    if h > 0 {
      BelowAccounted(ages, intake, h - 1);
      IntakeStep(intake, h);
    }
  }

  /** If nothing is older than the horizon, there is no more than was taken in within it. */
  lemma AgesBound(ages: seq<nat>, intake: seq<nat>, h: nat)
    requires Accounted(ages, intake) && forall x | x in ages :: x < h
    ensures |ages| <= IntakeWithin(intake, h)
  {
    AllBelow(ages, h);
    BelowAccounted(ages, intake, h);
  }
}
