/** Depth-noise guards with thresholds interpolated between breakpoints
    (src/gp4_perception/gp4_perception/safety_guards.py). */
module SafetyGuards {
  import opened Wrappers

  datatype Breakpoint = Breakpoint(distance: real, noise: real)

  datatype Extrapolation = RejectOutside | Clamp

  // ---- the sorted copy ----

  function Insert(s: seq<Breakpoint>, b: Breakpoint): (t: seq<Breakpoint>)
    ensures |t| == |s| + 1
  {
    if s == [] then [b]
    else if s[|s| - 1].distance <= b.distance then s + [b]
    else Insert(s[..|s| - 1], b) + [s[|s| - 1]]
  }

  /** The stable sort by distance. */
  function Sorted(s: seq<Breakpoint>): (t: seq<Breakpoint>)
    ensures |t| == |s|
  {
    if s == [] then [] else Insert(Sorted(s[..|s| - 1]), s[|s| - 1])
  }

  ghost predicate Ascending(s: seq<Breakpoint>) {
    forall i, j | 0 <= i < j < |s| :: s[i].distance <= s[j].distance
  }

  lemma {:induction false} InsertMembers(s: seq<Breakpoint>, b: Breakpoint)
    ensures multiset(Insert(s, b)) == multiset(s) + multiset{b}
    decreases |s|
  {
    if s != [] {
      assert s == s[..|s| - 1] + [s[|s| - 1]];
      if s[|s| - 1].distance > b.distance {
        InsertMembers(s[..|s| - 1], b);
      }
    }
  }

  lemma {:induction false} InsertAscends(s: seq<Breakpoint>, b: Breakpoint)
    requires Ascending(s)
    ensures Ascending(Insert(s, b))
    ensures forall i | 0 <= i < |Insert(s, b)| :: Insert(s, b)[i] == b || Insert(s, b)[i] in s
    decreases |s|
  {
    if s != [] && s[|s| - 1].distance > b.distance {
      InsertAscends(s[..|s| - 1], b);
    }
  }

  lemma InsertCore(s: seq<Breakpoint>, b: Breakpoint)
    requires Ascending(s)
    ensures Ascending(Insert(s, b)) && multiset(Insert(s, b)) == multiset(s) + multiset{b}
  {
    InsertMembers(s, b);
    InsertAscends(s, b);
  }

  lemma {:induction false} SortedCore(s: seq<Breakpoint>)
    ensures Ascending(Sorted(s)) && multiset(Sorted(s)) == multiset(s)
    decreases |s|
  {
    if s != [] {
      assert s == s[..|s| - 1] + [s[|s| - 1]];
      SortedCore(s[..|s| - 1]);
      InsertCore(Sorted(s[..|s| - 1]), s[|s| - 1]);
    }
  }

  // ---- the threshold ----

  function Part(t: real, whole: real): real { t * whole }

  function Between(a: Breakpoint, b: Breakpoint, d: real): real
    requires a.distance != b.distance
  {
    a.noise + Part((d - a.distance) / (b.distance - a.distance), b.noise - a.noise)
  }

  predicate Spans(bp: seq<Breakpoint>, i: nat, d: real)
    requires i + 1 < |bp|
  {
    bp[i].distance <= d <= bp[i + 1].distance
  }

  /** The first segment, from position i on, that contains the distance. */
  function Segment(bp: seq<Breakpoint>, d: real, i: nat): Option<real>
    decreases |bp| - i
  {
    if i + 1 >= |bp| then None
    else if Spans(bp, i, d) then
      Some(if bp[i].distance == bp[i + 1].distance then bp[i].noise else Between(bp[i], bp[i + 1], d))
    else Segment(bp, d, i + 1)
  }

  /** On a sorted list. */
  function Lookup(bp: seq<Breakpoint>, d: real, mode: Extrapolation): Option<real>
    requires bp != []
  {
    if d < bp[0].distance then if mode == Clamp then Some(bp[0].noise) else None
    else if d > bp[|bp| - 1].distance then if mode == Clamp then Some(bp[|bp| - 1].noise) else None
    else Segment(bp, d, 0)
  }

  function Threshold(d: real, breakpoints: seq<Breakpoint>, mode: Extrapolation): Option<real> {
    if breakpoints == [] then None else Lookup(Sorted(breakpoints), d, mode)
  }

  /** As it runs: a sorted copy, two range checks, one loop with early returns. */
  method InterpolateThreshold(d: real, breakpoints: seq<Breakpoint>,
                              mode: Extrapolation) returns (threshold: Option<real>)
    ensures threshold == Threshold(d, breakpoints, mode)
  {
    if breakpoints == [] {
      return None;
    }
    var bp := Sorted(breakpoints);
    if d < bp[0].distance {
      return if mode == Clamp then Some(bp[0].noise) else None;
    }
    if d > bp[|bp| - 1].distance {
      return if mode == Clamp then Some(bp[|bp| - 1].noise) else None;
    }
    for i := 0 to |bp| - 1
      invariant Segment(bp, d, 0) == Segment(bp, d, i)
    {
      var a, b := bp[i], bp[i + 1];
      if a.distance <= d <= b.distance {
        if b.distance == a.distance {
          return Some(a.noise);
        }
        var t := (d - a.distance) / (b.distance - a.distance);
        return Some(a.noise + Part(t, b.noise - a.noise));
      }
    }
    return None;
  }

  // ---- segments ----

  /** Position i is the first segment containing the distance. */
  ghost predicate FirstSpan(bp: seq<Breakpoint>, d: real, i: nat) {
    i + 1 < |bp| && Spans(bp, i, d) && forall k | 0 <= k < i :: !Spans(bp, k, d)
  }

  function Value(bp: seq<Breakpoint>, d: real, i: nat): real
    requires i + 1 < |bp|
  {
    if bp[i].distance == bp[i + 1].distance then bp[i].noise else Between(bp[i], bp[i + 1], d)
  }

  lemma {:induction false} SegmentIsFirst(bp: seq<Breakpoint>, d: real, i: nat)
    requires Ascending(bp) && i < |bp| && bp[i].distance <= d <= bp[|bp| - 1].distance
    requires forall k | 0 <= k < i && k + 1 < |bp| :: !Spans(bp, k, d)
    ensures match Segment(bp, d, i)
            case None => i + 1 == |bp|
            case Some(v) => exists k: nat :: FirstSpan(bp, d, k) && v == Value(bp, d, k)
    decreases |bp| - i
  {
    hide Between;
    if i + 1 < |bp| {
      if Spans(bp, i, d) {
        assert FirstSpan(bp, d, i);
      } else {
        SegmentIsFirst(bp, d, i + 1);
      }
    }
  }

  /** Inside the range of two or more breakpoints there is always a first segment, and the threshold
      is its value there. */
  lemma LookupInside(bp: seq<Breakpoint>, d: real, mode: Extrapolation)
    requires Ascending(bp) && |bp| >= 2 && bp[0].distance <= d <= bp[|bp| - 1].distance
    ensures Lookup(bp, d, mode).Some?
    ensures exists k: nat :: FirstSpan(bp, d, k) && Lookup(bp, d, mode).value == Value(bp, d, k)
  {
    hide Segment, Value;
    SegmentIsFirst(bp, d, 0);
  }

  // ---- when there is a threshold ----

  /** Without breakpoints there is none.  Under clamp it is missing only when a single breakpoint is
      hit exactly; under reject it exists exactly within the range of two or more breakpoints. */
  lemma DefinedExactly(d: real, breakpoints: seq<Breakpoint>, mode: Extrapolation)
    ensures var bp := Sorted(breakpoints);
            Threshold(d, breakpoints, mode).Some? <==>
              breakpoints != []
              && if d < bp[0].distance || d > bp[|bp| - 1].distance then mode == Clamp else |breakpoints| >= 2
  {
    hide Sorted, Segment;
    SortedCore(breakpoints);
    if breakpoints != [] {
      var bp := Sorted(breakpoints);
      if bp[0].distance <= d <= bp[|bp| - 1].distance {
        if |bp| >= 2 {
          LookupInside(bp, d, mode);
        } else {
          SingleHasNone(bp, d);
        }
      }
    }
  }

  lemma SingleHasNone(bp: seq<Breakpoint>, d: real)
    requires |bp| < 2
    ensures Segment(bp, d, 0) == None
  {
  }

  // ---- between the neighbours ----

  predicate Within(x: real, a: real, b: real) {
    (a <= x <= b) || (b <= x <= a)
  }

  lemma Fraction(p: real, q: real)
    requires 0.0 <= p <= q && q > 0.0
    ensures 0.0 <= p / q <= 1.0
    ensures p == 0.0 ==> p / q == 0.0
    ensures p == q ==> p / q == 1.0
  {
    var t := p / q;
    assert t * q == p;
    if t > 1.0 {
      Product(t - 1.0, q);
      assert (t - 1.0) * q == t * q - q;
    }
    if t < 0.0 {
      Product(-t, q);
    }
  }

  lemma Product(a: real, b: real)
    requires a > 0.0 && b > 0.0
    ensures a * b > 0.0
  {
  }

  lemma PartBounds(t: real, whole: real)
    requires 0.0 <= t <= 1.0
    ensures Within(Part(t, whole), 0.0, whole)
    ensures t == 0.0 ==> Part(t, whole) == 0.0
    ensures t == 1.0 ==> Part(t, whole) == whole
  {
    hide Part;
    PartForms(t, whole);
    Portion(t, if whole >= 0.0 then whole else -whole);
  }

  lemma PartForms(t: real, whole: real)
    ensures Part(t, whole) == -Part(t, -whole)
    ensures t == 0.0 ==> Part(t, whole) == 0.0
    ensures t == 1.0 ==> Part(t, whole) == whole
  {
  }

  lemma Portion(t: real, whole: real)
    requires 0.0 <= t <= 1.0 && whole >= 0.0
    ensures 0.0 <= Part(t, whole) <= whole
  {
    assert whole - t * whole == (1.0 - t) * whole;
  }

  lemma BetweenNeighbours(a: Breakpoint, b: Breakpoint, d: real)
    requires a.distance <= d <= b.distance && a.distance < b.distance
    ensures Within(Between(a, b, d), a.noise, b.noise)
    ensures d == a.distance ==> Between(a, b, d) == a.noise
    ensures d == b.distance ==> Between(a, b, d) == b.noise
  {
    var t := (d - a.distance) / (b.distance - a.distance);
    hide Part;
    Fraction(d - a.distance, b.distance - a.distance);
    PartBounds(t, b.noise - a.noise);
  }

  /** Inside the range the threshold lies between the noise limits of two neighbouring breakpoints
      that enclose the distance. */
  lemma LiesBetween(d: real, breakpoints: seq<Breakpoint>, mode: Extrapolation)
    requires |breakpoints| >= 2
    requires var bp := Sorted(breakpoints); bp[0].distance <= d <= bp[|bp| - 1].distance
    ensures var bp := Sorted(breakpoints);
            var v := Threshold(d, breakpoints, mode);
            v.Some? && exists k: nat :: k + 1 < |bp| && Spans(bp, k, d) && Within(v.value, bp[k].noise, bp[k + 1].noise)
  {
    hide Sorted, Between, Lookup;
    var bp := Sorted(breakpoints);
    SortedCore(breakpoints);
    LookupInside(bp, d, mode);
    var k: nat :| FirstSpan(bp, d, k) && Lookup(bp, d, mode).value == Value(bp, d, k);
    if bp[k].distance < bp[k + 1].distance {
      BetweenNeighbours(bp[k], bp[k + 1], d);
    }
  }

  // ---- order independence ----

  /** Breakpoints at one distance agree on the noise limit. */
  ghost predicate Consistent(s: seq<Breakpoint>) {
    forall a, b | a in s && b in s && a.distance == b.distance :: a.noise == b.noise
  }

  lemma LastAgree(s: seq<Breakpoint>, t: seq<Breakpoint>)
    requires Ascending(s) && Ascending(t) && multiset(s) == multiset(t) && Consistent(s) && s != [] && t != []
    ensures s[|s| - 1] == t[|t| - 1]
  {
    var a, b := s[|s| - 1], t[|t| - 1];
    assert a in multiset(t) && b in multiset(s);
    var i :| 0 <= i < |t| && t[i] == a;
    var j :| 0 <= j < |s| && s[j] == b;
    assert a in s && b in s && a.distance == b.distance;
  }

  lemma FrontMembers(s: seq<Breakpoint>)
    requires s != []
    ensures multiset(s[..|s| - 1]) == multiset(s) - multiset{s[|s| - 1]}
  {
    assert s == s[..|s| - 1] + [s[|s| - 1]];
  }

  /** Two sorted arrangements of consistent breakpoints are the same list. */
  lemma {:induction false} SortedUnique(s: seq<Breakpoint>, t: seq<Breakpoint>)
    requires Ascending(s) && Ascending(t) && multiset(s) == multiset(t) && Consistent(s)
    ensures s == t
    decreases |s|
  {
    assert |multiset(s)| == |multiset(t)|;
    if s != [] {
      var n := |s| - 1;
      LastAgree(s, t);
      FrontMembers(s);
      FrontMembers(t);
      SortedUnique(s[..n], t[..n]);
    }
  }

  /** The threshold does not depend on the order in which consistent breakpoints are listed. */
  lemma OrderIndependent(d: real, s: seq<Breakpoint>, t: seq<Breakpoint>, mode: Extrapolation)
    requires multiset(s) == multiset(t) && Consistent(s)
    ensures Threshold(d, s, mode) == Threshold(d, t, mode)
  {
    hide Sorted, Lookup;
    SortedCore(s);
    SortedCore(t);
    forall a, b | a in Sorted(s) && b in Sorted(s) && a.distance == b.distance ensures a.noise == b.noise {
      assert a in multiset(s) && b in multiset(s);
    }
    SortedUnique(Sorted(s), Sorted(t));
    assert s == [] <==> t == [] by {
      assert |multiset(s)| == |multiset(t)|;
    }
  }

  /** With two limits at one distance the first listed wins there, so the order does matter: over all
      listings of the same breakpoints the threshold is one exactly when they are consistent. */
  lemma OrderIndependentExactly(s: seq<Breakpoint>)
    ensures (forall d, t, mode | multiset(t) == multiset(s) :: Threshold(d, s, mode) == Threshold(d, t, mode))
       <==> Consistent(s)
  {
    hide Threshold;
    if Consistent(s) {
      forall d, t, mode | multiset(t) == multiset(s) ensures Threshold(d, s, mode) == Threshold(d, t, mode) {
        OrderIndependent(d, s, t, mode);
      }
    } else {
      var a, b :| a in s && b in s && a.distance == b.distance && a.noise != b.noise;
      ConflictShows(s, a, b);
    }
  }

  function Without(s: seq<Breakpoint>, b: Breakpoint): seq<Breakpoint> {
    if s == [] then [] else if s[0] == b then s[1..] else [s[0]] + Without(s[1..], b)
  }

  lemma {:induction false} WithoutMembers(s: seq<Breakpoint>, b: Breakpoint)
    requires b in s
    ensures multiset(Without(s, b)) == multiset(s) - multiset{b}
  {
    assert s == [s[0]] + s[1..];
    if s[0] != b {
      WithoutMembers(s[1..], b);
    }
  }

  /** The breakpoint a stands at position i, and everything before it is nearer. */
  ghost predicate FirstAt(s: seq<Breakpoint>, a: Breakpoint, i: nat) {
    i < |s| && s[i] == a && forall k | 0 <= k < i :: s[k].distance < a.distance
  }

  /** The sort keeps the first listed of equal distances first. */
  lemma {:induction false} FirstStaysFirst(a: Breakpoint, s: seq<Breakpoint>)
    ensures exists i: nat :: FirstAt(Sorted([a] + s), a, i)
    decreases |s|
  {
    if s == [] {
      assert ([a] + s)[..0] == [] && FirstAt(Sorted([a] + s), a, 0);
    } else {
      var front, last := s[..|s| - 1], s[|s| - 1];
      assert ([a] + s)[..|s|] == [a] + front;
      FirstStaysFirst(a, front);
      SortedCore([a] + front);
      InsertAfter(a, Sorted([a] + front), last);
      assert Sorted([a] + s) == Insert(Sorted([a] + front), last);
    }
  }

  lemma {:induction false} InsertAfter(a: Breakpoint, s: seq<Breakpoint>, b: Breakpoint)
    requires Ascending(s)
    requires exists i: nat :: FirstAt(s, a, i)
    ensures exists i: nat :: FirstAt(Insert(s, b), a, i)
    decreases |s|
  {
    var i: nat :| FirstAt(s, a, i);
    var t, front, last := Insert(s, b), s[..|s| - 1], s[|s| - 1];
    if last.distance <= b.distance {
      assert FirstAt(t, a, i);
    } else if i < |front| {
      assert FirstAt(front, a, i);
      InsertAfter(a, front, b);
      var j: nat :| FirstAt(Insert(front, b), a, j);
      assert FirstAt(t, a, j);
    } else {
      InsertCore(front, b);
      forall k | 0 <= k < |s| ensures t[k].distance < a.distance {
        assert t[k] == Insert(front, b)[k];
        assert t[k] in multiset(Insert(front, b));
        assert t[k] in front || t[k] == b;
      }
      assert FirstAt(t, a, |s|);
    }
  }

  /** At the distance of the first listed breakpoint the threshold is that breakpoint's limit, once
      there are two. */
  lemma FirstListedWins(a: Breakpoint, s: seq<Breakpoint>, mode: Extrapolation)
    requires s != []
    ensures Threshold(a.distance, [a] + s, mode) == Some(a.noise)
  {
    hide Sorted, Segment, Between;
    var t := Sorted([a] + s);
    FirstStaysFirst(a, s);
    SortedCore([a] + s);
    var i: nat :| FirstAt(t, a, i);
    LookupInside(t, a.distance, mode);
    var k: nat :| FirstSpan(t, a.distance, k) && Lookup(t, a.distance, mode).value == Value(t, a.distance, k);
    ValueAt(t, i, k);
  }

  lemma ValueAt(t: seq<Breakpoint>, i: nat, k: nat)
    requires Ascending(t) && i < |t| && FirstSpan(t, t[i].distance, k)
    requires forall j | 0 <= j < i :: t[j].distance < t[i].distance
    ensures Value(t, t[i].distance, k) == t[i].noise
  {
    hide Between;
    var d := t[i].distance;
    if i == 0 {
      assert Spans(t, 0, d);
      assert k == 0;
      if t[0].distance < t[1].distance {
        BetweenNeighbours(t[0], t[1], d);
      }
    } else {
      assert Spans(t, i - 1, d);
      assert t[k + 1].distance >= d;
      assert k == i - 1;
      BetweenNeighbours(t[i - 1], t[i], d);
    }
  }

  /** Both limits first, in turn. */
  lemma Rebuilt(s: seq<Breakpoint>, a: Breakpoint, b: Breakpoint) returns (ta: seq<Breakpoint>, tb: seq<Breakpoint>)
    requires a in s && b in s && a != b
    ensures multiset(ta) == multiset(s) == multiset(tb)
    ensures |ta| >= 2 && |tb| >= 2 && ta[0] == a && tb[0] == b
  {
    WithoutMembers(s, a);
    var one := Without(s, a);
    assert b in multiset(one);
    WithoutMembers(one, b);
    var rest := Without(one, b);
    ta, tb := [a] + ([b] + rest), [b] + ([a] + rest);
    PutBack(multiset(s), a, b, rest);
  }

  lemma OneInFront(a: Breakpoint, s: seq<Breakpoint>)
    ensures multiset([a] + s) == multiset{a} + multiset(s)
  {
  }

  lemma AddedBack(all: multiset<Breakpoint>, a: Breakpoint, b: Breakpoint)
    requires a in all && b in all && a != b
    ensures multiset{a} + (multiset{b} + (all - multiset{a} - multiset{b})) == all
    ensures multiset{b} + (multiset{a} + (all - multiset{a} - multiset{b})) == all
  {
  }

  lemma PutBack(all: multiset<Breakpoint>, a: Breakpoint, b: Breakpoint, rest: seq<Breakpoint>)
    requires a in all && b in all && a != b && multiset(rest) == all - multiset{a} - multiset{b}
    ensures multiset([a] + ([b] + rest)) == all == multiset([b] + ([a] + rest))
  {
    AddedBack(all, a, b);
    OneInFront(b, rest);
    OneInFront(a, [b] + rest);
    OneInFront(a, rest);
    OneInFront(b, [a] + rest);
  }

  lemma ConflictShows(s: seq<Breakpoint>, a: Breakpoint, b: Breakpoint)
    requires a in s && b in s && a.distance == b.distance && a.noise != b.noise
    ensures exists d, t, mode :: multiset(t) == multiset(s) && Threshold(d, s, mode) != Threshold(d, t, mode)
  {
    hide Threshold;
    var ta, tb := Rebuilt(s, a, b);
    var d := a.distance;
    assert ta == [a] + ta[1..] && tb == [b] + tb[1..];
    FirstListedWins(a, ta[1..], Clamp);
    FirstListedWins(b, tb[1..], Clamp);
    if Threshold(d, s, Clamp) != Threshold(d, ta, Clamp) {
    } else {
      assert Threshold(d, s, Clamp) != Threshold(d, tb, Clamp);
    }
  }

  // ---- monotonicity in the distance ----

  /** Farther breakpoints allow at least as much noise. */
  ghost predicate Rising(s: seq<Breakpoint>) {
    forall a, b | a in s && b in s && a.distance <= b.distance :: a.noise <= b.noise
  }

  lemma DivMonotone(p: real, q: real, w: real)
    requires p <= q && w > 0.0
    ensures p / w <= q / w
  {
    assert q / w - p / w == (q - p) / w;
  }

  lemma PartMonotone(t: real, u: real, whole: real)
    requires t <= u && whole >= 0.0
    ensures Part(t, whole) <= Part(u, whole)
  {
    assert Part(u, whole) - Part(t, whole) == (u - t) * whole;
  }

  lemma BetweenMonotone(a: Breakpoint, b: Breakpoint, d: real, e: real)
    requires a.distance < b.distance && a.noise <= b.noise && d <= e
    ensures Between(a, b, d) <= Between(a, b, e)
  {
    hide Part;
    DivMonotone(d - a.distance, e - a.distance, b.distance - a.distance);
    PartMonotone((d - a.distance) / (b.distance - a.distance), (e - a.distance) / (b.distance - a.distance), b.noise - a.noise);
  }

  /** On a segment of rising limits the value stays between them. */
  lemma ValueWithin(bp: seq<Breakpoint>, d: real, k: nat)
    requires k + 1 < |bp| && Spans(bp, k, d) && bp[k].noise <= bp[k + 1].noise
    ensures bp[k].noise <= Value(bp, d, k) <= bp[k + 1].noise
  {
    hide Between;
    if bp[k].distance != bp[k + 1].distance {
      BetweenNeighbours(bp[k], bp[k + 1], d);
    }
  }

  lemma LookupMonotone(bp: seq<Breakpoint>, d: real, e: real, mode: Extrapolation)
    requires Ascending(bp) && Rising(bp) && bp != [] && d <= e
    requires Lookup(bp, d, mode).Some? && Lookup(bp, e, mode).Some?
    ensures Lookup(bp, d, mode).value <= Lookup(bp, e, mode).value
  {
    hide Segment, Value, Spans;
    var n := |bp| - 1;
    if |bp| == 1 {
      SingleHasNone(bp, d);
      SingleHasNone(bp, e);
    } else if d < bp[0].distance {
      LookupAbove(bp, e, mode);
    } else if e > bp[n].distance {
      LookupBelow(bp, d, mode);
    } else {
      LookupInside(bp, d, mode);
      LookupInside(bp, e, mode);
      var k: nat :| FirstSpan(bp, d, k) && Lookup(bp, d, mode).value == Value(bp, d, k);
      var l: nat :| FirstSpan(bp, e, l) && Lookup(bp, e, mode).value == Value(bp, e, l);
      SpansInOrder(bp, d, e, k, l);
    }
  }

  lemma LookupAbove(bp: seq<Breakpoint>, e: real, mode: Extrapolation)
    requires Ascending(bp) && Rising(bp) && |bp| >= 2 && Lookup(bp, e, mode).Some?
    ensures bp[0].noise <= Lookup(bp, e, mode).value
  {
    hide Segment, Value;
    if bp[0].distance <= e <= bp[|bp| - 1].distance {
      LookupInside(bp, e, mode);
      var l: nat :| FirstSpan(bp, e, l) && Lookup(bp, e, mode).value == Value(bp, e, l);
      assert bp[0] in bp && bp[l] in bp && bp[l + 1] in bp;
      ValueWithin(bp, e, l);
    } else {
      assert bp[0] in bp && bp[|bp| - 1] in bp;
    }
  }

  lemma LookupBelow(bp: seq<Breakpoint>, d: real, mode: Extrapolation)
    requires Ascending(bp) && Rising(bp) && |bp| >= 2 && Lookup(bp, d, mode).Some?
    ensures Lookup(bp, d, mode).value <= bp[|bp| - 1].noise
  {
    hide Segment, Value;
    var last := bp[|bp| - 1];
    if bp[0].distance <= d <= last.distance {
      LookupInside(bp, d, mode);
      var k: nat :| FirstSpan(bp, d, k) && Lookup(bp, d, mode).value == Value(bp, d, k);
      assert bp[k] in bp && bp[k + 1] in bp && last in bp;
      ValueWithin(bp, d, k);
    } else {
      assert bp[0] in bp && last in bp;
    }
  }

  lemma SpansInOrder(bp: seq<Breakpoint>, d: real, e: real, k: nat, l: nat)
    requires Ascending(bp) && Rising(bp) && d <= e && FirstSpan(bp, d, k) && FirstSpan(bp, e, l)
    ensures Value(bp, d, k) <= Value(bp, e, l)
  {
    hide Value, Between;
    assert bp[k] in bp && bp[k + 1] in bp && bp[l] in bp && bp[l + 1] in bp;
    if k == l {
      SameSpan(bp, d, e, k);
    } else {
      FirstSpansAscend(bp, d, e, k, l);
      ValueWithin(bp, d, k);
      ValueWithin(bp, e, l);
      assert bp[k + 1].noise <= bp[l].noise;
    }
  }

  lemma FirstSpansAscend(bp: seq<Breakpoint>, d: real, e: real, k: nat, l: nat)
    requires Ascending(bp) && d <= e && FirstSpan(bp, d, k) && FirstSpan(bp, e, l)
    ensures k <= l
  {
  }

  lemma SameSpan(bp: seq<Breakpoint>, d: real, e: real, k: nat)
    requires k + 1 < |bp| && Spans(bp, k, d) && Spans(bp, k, e) && d <= e && bp[k].noise <= bp[k + 1].noise
    ensures Value(bp, d, k) <= Value(bp, e, k)
  {
    hide Between;
    if bp[k].distance != bp[k + 1].distance {
      BetweenMonotone(bp[k], bp[k + 1], d, e);
    }
  }

  /** When the limits rise with the distance, so does the threshold, wherever it exists. */
  lemma ThresholdMonotone(d: real, e: real, breakpoints: seq<Breakpoint>, mode: Extrapolation)
    requires Rising(breakpoints) && d <= e
    requires Threshold(d, breakpoints, mode).Some? && Threshold(e, breakpoints, mode).Some?
    ensures Threshold(d, breakpoints, mode).value <= Threshold(e, breakpoints, mode).value
  {
    hide Sorted, Lookup;
    SortedCore(breakpoints);
    var bp := Sorted(breakpoints);
    forall a, b | a in bp && b in bp && a.distance <= b.distance ensures a.noise <= b.noise {
      assert a in multiset(breakpoints) && b in multiset(breakpoints);
    }
    LookupMonotone(bp, d, e, mode);
  }

  // ---- the guards ----

  function CheckDepthNoise(d: real, noise: real, breakpoints: seq<Breakpoint>, mode: Extrapolation): bool {
    match Threshold(d, breakpoints, mode)
    case None => false
    case Some(limit) => noise <= limit
  }

  datatype Quality = Good | DegradedDepth | Rejected

  function ClassifyDepthQuality(d: real, noise: real, breakpoints: seq<Breakpoint>, degradedMax: real,
                                mode: Extrapolation): Quality {
    match Threshold(d, breakpoints, mode)
    case None => Rejected
    case Some(limit) => if noise <= limit then Good else if noise <= degradedMax then DegradedDepth else Rejected
  }

  function Badness(q: Quality): nat {
    match q case Good => 0 case DegradedDepth => 1 case Rejected => 2
  }

  /** More noise never improves the tier; where the limits rise with the distance, nor does coming
      nearer, unless only the farther point has no threshold. */
  lemma QualityOnlyWorsens(d: real, e: real, noise: real, more: real, breakpoints: seq<Breakpoint>,
                           degradedMax: real, mode: Extrapolation)
    requires noise <= more && d <= e
    requires d == e || (Rising(breakpoints) && (Threshold(d, breakpoints, mode).Some? ==> Threshold(e, breakpoints, mode).Some?))
    ensures Badness(ClassifyDepthQuality(e, noise, breakpoints, degradedMax, mode))
         <= Badness(ClassifyDepthQuality(d, more, breakpoints, degradedMax, mode))
  {
    hide Threshold;
    if d != e && Threshold(d, breakpoints, mode).Some? {
      ThresholdMonotone(d, e, breakpoints, mode);
    }
  }

  /** At equal noise, coming nearer never improves the tier. */
  ghost predicate NearerIsNoBetter(d: real, e: real, breakpoints: seq<Breakpoint>, degradedMax: real, mode: Extrapolation) {
    forall noise :: Badness(ClassifyDepthQuality(e, noise, breakpoints, degradedMax, mode))
                 <= Badness(ClassifyDepthQuality(d, noise, breakpoints, degradedMax, mode))
  }

  /** Where the limits rise, that holds for all noise exactly when the nearer point's threshold, if there
      is one, is not the only one. */
  lemma NearerIsNoBetterExactly(d: real, e: real, breakpoints: seq<Breakpoint>, degradedMax: real, mode: Extrapolation)
    requires d <= e && Rising(breakpoints)
    ensures NearerIsNoBetter(d, e, breakpoints, degradedMax, mode)
       <==> (Threshold(d, breakpoints, mode).Some? ==> Threshold(e, breakpoints, mode).Some?)
  {
    hide Threshold, Rising;
    if Threshold(d, breakpoints, mode).Some? && Threshold(e, breakpoints, mode).None? {
      var limit := Threshold(d, breakpoints, mode).value;
      assert Badness(ClassifyDepthQuality(e, limit, breakpoints, degradedMax, mode)) == 2;
      assert Badness(ClassifyDepthQuality(d, limit, breakpoints, degradedMax, mode)) == 0;
    } else {
      forall noise ensures Badness(ClassifyDepthQuality(e, noise, breakpoints, degradedMax, mode))
                        <= Badness(ClassifyDepthQuality(d, noise, breakpoints, degradedMax, mode)) {
        QualityOnlyWorsens(d, e, noise, noise, breakpoints, degradedMax, mode);
      }
    }
  }

  /** The top tier is the noise check under the same extrapolation.  Under their defaults the two
      part company exactly outside the range: there the check refuses while the classifier still
      answers by the nearest limit. */
  lemma GoodExactly(d: real, noise: real, breakpoints: seq<Breakpoint>, degradedMax: real)
    ensures forall mode :: ClassifyDepthQuality(d, noise, breakpoints, degradedMax, mode) == Good <==> CheckDepthNoise(d, noise, breakpoints, mode)
    ensures CheckDepthNoise(d, noise, breakpoints, RejectOutside) ==> CheckDepthNoise(d, noise, breakpoints, Clamp)
    ensures var bp := Sorted(breakpoints);
            CheckDepthNoise(d, noise, breakpoints, Clamp) && !CheckDepthNoise(d, noise, breakpoints, RejectOutside)
            <==> bp != [] && ((d < bp[0].distance && noise <= bp[0].noise)
                              || (d > bp[|bp| - 1].distance && noise <= bp[|bp| - 1].noise))
  {
    hide Sorted, Segment;
    SortedCore(breakpoints);
  }

  // ---- inside a segment ----

  /** Inside a segment the threshold is linear: at the point a share of the way along it, the same share of
      the way between the two limits. */
  lemma LinearInside(a: Breakpoint, b: Breakpoint, share: real)
    requires a.distance != b.distance
    ensures Between(a, b, (1.0 - share) * a.distance + share * b.distance) == (1.0 - share) * a.noise + share * b.noise
  {
    var whole := b.distance - a.distance;
    assert ((1.0 - share) * a.distance + share * b.distance) - a.distance == share * whole;
    ShareOf(share, whole);
    assert share * (b.noise - a.noise) == share * b.noise - share * a.noise;
  }

  lemma ShareOf(share: real, whole: real)
    requires whole != 0.0
    ensures (share * whole) / whole == share
  {
  }

  /** The tiers: good up to the threshold, degraded from there up to the given limit, both inclusive, and
      rejected beyond it or without a threshold. */
  lemma TiersExactly(d: real, noise: real, breakpoints: seq<Breakpoint>, degradedMax: real, mode: Extrapolation)
    ensures var t, q := Threshold(d, breakpoints, mode), ClassifyDepthQuality(d, noise, breakpoints, degradedMax, mode);
            && (q == Good <==> t.Some? && noise <= t.value)
            && (q == DegradedDepth <==> t.Some? && t.value < noise && noise <= degradedMax)
            && (q == Rejected <==> t.None? || (t.value < noise && degradedMax < noise))
            && (CheckDepthNoise(d, noise, breakpoints, mode) <==> t.Some? && noise <= t.value)
  {
    hide Threshold;
  }
}
