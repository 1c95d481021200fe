/** The robust rejection of calibration samples
    (src/gp4_perception/gp4_perception/calibration.py, `_reject_outlier_samples`).  The hand-eye
    solve is outside the model: whether it succeeded and the pairwise errors it leads to are data. */
module OutlierRejection {

  // ---- the median ----

  ghost predicate Ascending(s: seq<real>) {
    forall i, j | 0 <= i < j < |s| :: s[i] <= s[j]
  }

  function Insert(s: seq<real>, x: real): (t: seq<real>)
    ensures |t| == |s| + 1
  {
    if s == [] then [x]
    else if s[|s| - 1] <= x then s + [x]
    else Insert(s[..|s| - 1], x) + [s[|s| - 1]]
  }

  function Sorted(s: seq<real>): (t: seq<real>)
    ensures |t| == |s|
  {
    if s == [] then [] else Insert(Sorted(s[..|s| - 1]), s[|s| - 1])
  }

  /** The middle value, or the mean of the two middle values. */
  function Median(s: seq<real>): real
    requires s != []
  {
    var t := Sorted(s);
    if |t| % 2 == 1 then t[|t| / 2] else (t[|t| / 2 - 1] + t[|t| / 2]) / 2.0
  }

  /** How many entries do not exceed m. */
  function AtMost(s: seq<real>, m: real): nat {
    if s == [] then 0 else AtMost(s[..|s| - 1], m) + if s[|s| - 1] <= m then 1 else 0
  }

  lemma {:induction false} InsertCore(s: seq<real>, x: real, m: real)
    requires Ascending(s)
    ensures Ascending(Insert(s, x)) && AtMost(Insert(s, x), m) == AtMost(s, m) + if x <= m then 1 else 0
    ensures forall y | y in Insert(s, x) :: y in s || y == x
    decreases |s|
  {
    var t := Insert(s, x);
    if s == [] {
      assert t[..0] == [];
    } else if s[|s| - 1] <= x {
      assert t[..|s|] == s;
    } else {
      var front := s[..|s| - 1];
      InsertCore(front, x, m);
      assert t[..|s|] == Insert(front, x);
      forall i | 0 <= i < |s| ensures t[i] <= s[|s| - 1] {
        assert t[i] in Insert(front, x);
      }
    }
  }

  lemma {:induction false} SortedCore(s: seq<real>, m: real)
    ensures Ascending(Sorted(s)) && AtMost(Sorted(s), m) == AtMost(s, m)
    decreases |s|
  {
    if s != [] {
      SortedCore(s[..|s| - 1], m);
      InsertCore(Sorted(s[..|s| - 1]), s[|s| - 1], m);
    }
  }

  lemma {:induction false} PrefixAtMost(s: seq<real>, m: real, n: nat)
    requires n <= |s| && forall i | 0 <= i < n :: s[i] <= m
    ensures n <= AtMost(s, m)
    decreases |s|
  {
    if n == |s| > 0 {
      PrefixAtMost(s[..|s| - 1], m, n - 1);
    } else if s != [] {
      PrefixAtMost(s[..|s| - 1], m, n);
    }
  }

  lemma MedianAbove(t: seq<real>, n: nat)
    requires t != [] && Ascending(t) && n == (|t| + 1) / 2
    ensures var m := if |t| % 2 == 1 then t[|t| / 2] else (t[|t| / 2 - 1] + t[|t| / 2]) / 2.0;
            forall i | 0 <= i < n :: t[i] <= m
  {
    var m := if |t| % 2 == 1 then t[|t| / 2] else (t[|t| / 2 - 1] + t[|t| / 2]) / 2.0;
    if |t| % 2 == 1 {
      assert n - 1 == |t| / 2;
    } else {
      assert n == |t| / 2;
      assert t[n - 1] <= t[n];
    }
    assert t[n - 1] <= m;
  }

  /** At least half of the values, rounded up, do not exceed the median. */
  lemma HalfAtMostMedian(s: seq<real>)
    requires s != []
    ensures AtMost(s, Median(s)) >= (|s| + 1) / 2
  {
    hide Sorted;
    var t, m := Sorted(s), Median(s);
    SortedCore(s, m);
    var n := (|s| + 1) / 2;
    MedianAbove(t, n);
    PrefixAtMost(t, m, n);
  }

  // ---- the errors and the threshold ----

  /** Entry i of a sample's row is its error against itself and is skipped. */
  function Others(row: seq<real>, i: nat): (s: seq<real>)
    requires i < |row|
    ensures |s| == |row| - 1
  {
    row[..i] + row[i + 1..]
  }

  ghost predicate Square(pairErrors: seq<seq<real>>) {
    forall i | 0 <= i < |pairErrors| :: |pairErrors[i]| == |pairErrors|
  }

  function SampleErrors(pairErrors: seq<seq<real>>): (errors: seq<real>)
    requires Square(pairErrors) && |pairErrors| >= 2
    ensures |errors| == |pairErrors|
    ensures forall i | 0 <= i < |errors| :: errors[i] == Median(Others(pairErrors[i], i))
  {
    seq(|pairErrors|, i requires 0 <= i < |pairErrors| => Median(Others(pairErrors[i], i)))
  }

  function Abs(x: real): real { if x < 0.0 then -x else x }

  function Deviations(errors: seq<real>, center: real): (s: seq<real>)
    ensures |s| == |errors|
    ensures forall i | 0 <= i < |errors| :: s[i] == Abs(errors[i] - center)
  {
    seq(|errors|, i requires 0 <= i < |errors| => Abs(errors[i] - center))
  }

  const MAD_FLOOR := 0.000001

  function Threshold(errors: seq<real>, sigma: real): real
    requires errors != []
  {
    var median := Median(errors);
    var mad := Median(Deviations(errors, median));
    median + sigma * (if mad > MAD_FLOOR then mad else MAD_FLOOR)
  }

  lemma ThresholdAboveMedian(errors: seq<real>, sigma: real)
    requires errors != []
    ensures sigma >= 0.0 ==> Threshold(errors, sigma) >= Median(errors)
    ensures sigma < 0.0 ==> Threshold(errors, sigma) < Median(errors)
  {
    hide Median;
    var mad := Median(Deviations(errors, Median(errors)));
    var spread := if mad > MAD_FLOOR then mad else MAD_FLOOR;
    SignOfProduct(sigma, spread);
  }

  lemma SignOfProduct(a: real, b: real)
    requires b > 0.0
    ensures a >= 0.0 ==> a * b >= 0.0
    ensures a < 0.0 ==> a * b < 0.0
  {
  }

  // ---- the mask ----

  /** What argsort promises: a permutation of the positions that lists the errors in ascending
      order.  Nothing is promised about ties. */
  ghost predicate IsArgsort(order: seq<nat>, errors: seq<real>) {
    && |order| == |errors|
    && (forall k | 0 <= k < |order| :: order[k] < |errors|)
    && (forall k, l | 0 <= k < l < |order| :: order[k] != order[l] && errors[order[k]] <= errors[order[l]])
  }

  function Within(errors: seq<real>, threshold: real): (mask: seq<bool>)
    ensures |mask| == |errors| && forall i | 0 <= i < |errors| :: mask[i] == (errors[i] <= threshold)
  {
    seq(|errors|, i requires 0 <= i < |errors| => errors[i] <= threshold)
  }

  /** The positions listed first. */
  function Lowest(order: seq<nat>, count: nat, n: nat): (mask: seq<bool>)
    requires count <= |order|
    ensures |mask| == n && forall i | 0 <= i < n :: mask[i] == (i in order[..count])
  {
    seq(n, i requires 0 <= i < n => i in order[..count])
  }

  function KeepMask(errors: seq<real>, sigma: real, minSamples: nat, order: seq<nat>): (mask: seq<bool>)
    requires |errors| == |order| && errors != [] && minSamples <= |errors|
    ensures |mask| == |errors|
  {
    var threshold := Threshold(errors, sigma);
    if AtMost(errors, threshold) < minSamples then Lowest(order, minSamples, |errors|)
    else Within(errors, threshold)
  }

  /** The samples whose bit is set, in order. */
  function Selected<T>(samples: seq<T>, mask: seq<bool>): seq<T>
    requires |samples| == |mask|
  {
    if samples == [] then []
    else
      var n := |samples| - 1;
      Selected(samples[..n], mask[..n]) + if mask[n] then [samples[n]] else []
  }

  function Count(mask: seq<bool>): nat {
    if mask == [] then 0 else Count(mask[..|mask| - 1]) + if mask[|mask| - 1] then 1 else 0
  }

  /** The whole step.  Too few samples or a failed solve leave everything in place. */
  function Reject<T>(samples: seq<T>, solved: bool, pairErrors: seq<seq<real>>, sigma: real, minSamples: nat,
                     order: seq<nat>): (seq<T>, int)
    requires |pairErrors| == |samples| == |order| && Square(pairErrors)
  {
    if |samples| < minSamples + 2 || !solved then (samples, 0)
    else
      var cleaned := Selected(samples, KeepMask(SampleErrors(pairErrors), sigma, minSamples, order));
      (cleaned, |samples| - |cleaned|)
  }

  // ---- what is kept ----

  lemma {:induction false} SelectedCount<T>(samples: seq<T>, mask: seq<bool>)
    requires |samples| == |mask|
    ensures |Selected(samples, mask)| == Count(mask)
    decreases |samples|
  {
    if samples != [] {
      SelectedCount(samples[..|samples| - 1], mask[..|mask| - 1]);
    }
  }

  /** The positions of the kept samples. */
  function Positions(mask: seq<bool>): seq<nat> {
    if mask == [] then []
    else Positions(mask[..|mask| - 1]) + if mask[|mask| - 1] then [|mask| - 1] else []
  }

  lemma {:induction false} PositionsCore(mask: seq<bool>)
    ensures var idx := Positions(mask);
            && (forall k, l | 0 <= k < l < |idx| :: idx[k] < idx[l])
            && (forall k | 0 <= k < |idx| :: idx[k] < |mask|)
            && (forall i: nat :: i in idx <==> i < |mask| && mask[i])
    decreases |mask|
  {
    if mask != [] {
      PositionsCore(mask[..|mask| - 1]);
    }
  }

  lemma {:induction false} AsManyAsPositions<T>(samples: seq<T>, mask: seq<bool>)
    requires |samples| == |mask|
    ensures |Selected(samples, mask)| == |Positions(mask)|
    decreases |samples|
  {
    if samples != [] {
      AsManyAsPositions(samples[..|samples| - 1], mask[..|mask| - 1]);
    }
  }

  lemma {:induction false} SelectedAt<T>(samples: seq<T>, mask: seq<bool>, k: nat)
    requires |samples| == |mask| && k < |Positions(mask)|
    ensures |Selected(samples, mask)| == |Positions(mask)|
    ensures Positions(mask)[k] < |samples| && Selected(samples, mask)[k] == samples[Positions(mask)[k]]
    decreases |samples|
  {
    var n := |samples| - 1;
    AsManyAsPositions(samples, mask);
    AsManyAsPositions(samples[..n], mask[..n]);
    if k < |Positions(mask[..n])| {
      SelectedAt(samples[..n], mask[..n], k);
    }
  }

  /** The result is an order-preserving subsequence: position by position the marked samples. */
  lemma SelectedInOrder<T>(samples: seq<T>, mask: seq<bool>)
    requires |samples| == |mask|
    ensures var idx, kept := Positions(mask), Selected(samples, mask);
            && |kept| == |idx|
            && (forall k, l | 0 <= k < l < |idx| :: idx[k] < idx[l])
            && (forall i: nat :: i in idx <==> i < |mask| && mask[i])
            && (forall k | 0 <= k < |idx| :: idx[k] < |samples| && kept[k] == samples[idx[k]])
  {
    hide Positions, Selected;
    PositionsCore(mask);
    AsManyAsPositions(samples, mask);
    forall k | 0 <= k < |Positions(mask)|
      ensures Positions(mask)[k] < |samples| && Selected(samples, mask)[k] == samples[Positions(mask)[k]]
    {
      SelectedAt(samples, mask, k);
    }
  }

  lemma {:induction false} WithinCount(errors: seq<real>, threshold: real)
    ensures Count(Within(errors, threshold)) == AtMost(errors, threshold)
    decreases |errors|
  {
    if errors != [] {
      WithinCount(errors[..|errors| - 1], threshold);
      assert Within(errors, threshold)[..|errors| - 1] == Within(errors[..|errors| - 1], threshold);
    }
  }

  lemma {:induction false} CountIsCardinality(mask: seq<bool>, marked: set<nat>)
    requires forall i: nat :: i in marked <==> i < |mask| && mask[i]
    ensures Count(mask) == |marked|
    decreases |mask|
  {
    if mask == [] {
      assert marked == {};
    } else {
      var n := |mask| - 1;
      CountIsCardinality(mask[..n], marked - {n});
    }
  }

  lemma {:induction false} DistinctCount(s: seq<nat>, members: set<nat>)
    requires forall k, l | 0 <= k < l < |s| :: s[k] != s[l]
    requires forall x :: x in members <==> x in s
    ensures |members| == |s|
    decreases |s|
  {
    if s == [] {
      assert members == {};
    } else {
      var front, last := s[..|s| - 1], s[|s| - 1];
      assert s == front + [last];
      assert last !in front;
      DistinctCount(front, members - {last});
    }
  }

  function Members(s: seq<nat>): (m: set<nat>)
    ensures forall x :: x in m <==> x in s
  {
    set x | x in s
  }

  lemma LowestCount(order: seq<nat>, errors: seq<real>, count: nat)
    requires IsArgsort(order, errors) && count <= |order|
    ensures Count(Lowest(order, count, |errors|)) == count
  {
    var first := order[..count];
    DistinctCount(first, Members(first));
    forall i: nat | i in first ensures i < |errors| {
      var k :| 0 <= k < |first| && first[k] == i;
      assert order[k] == i;
    }
    CountIsCardinality(Lowest(order, count, |errors|), Members(first));
  }

  /** On either path a kept sample's error is at most a rejected one's, no sample within the
      threshold is rejected, and unless the threshold is
      pushed below the median every sample up to the median error is kept. */
  lemma KeptAreLowest(errors: seq<real>, sigma: real, minSamples: nat, order: seq<nat>, kept: nat, other: nat)
    requires IsArgsort(order, errors) && errors != [] && minSamples <= |errors|
    requires kept < |errors| && other < |errors|
    ensures var mask := KeepMask(errors, sigma, minSamples, order);
            && (mask[kept] && !mask[other] ==> errors[kept] <= errors[other])
            && (errors[kept] <= Threshold(errors, sigma) ==> mask[kept])
            && (sigma >= 0.0 && errors[kept] <= Median(errors) ==> mask[kept])
  {
    hide Median, Threshold, AtMost;
    ThresholdAboveMedian(errors, sigma);
    if AtMost(errors, Threshold(errors, sigma)) < minSamples {
      LowestAreLower(order, errors, minSamples, kept, other);
      if errors[kept] <= Threshold(errors, sigma) {
        BelowThresholdListed(order, errors, Threshold(errors, sigma), minSamples, kept);
      }
    }
  }

  lemma LowestAreLower(order: seq<nat>, errors: seq<real>, count: nat, a: nat, b: nat)
    requires IsArgsort(order, errors) && count <= |order| && a < |errors| && b < |errors|
    ensures a in order[..count] && b !in order[..count] ==> errors[a] <= errors[b]
  {
    if a in order[..count] && b !in order[..count] {
      var k :| 0 <= k < count && order[k] == a;
      ListedSomewhere(order, errors, b);
      var l :| 0 <= l < |order| && order[l] == b;
      forall j | 0 <= j < count ensures order[j] != b {
        assert order[..count][j] == order[j];
      }
      assert count <= l;
    }
  }

  /** A list of n distinct numbers below n contains them all. */
  lemma ListedSomewhere(order: seq<nat>, errors: seq<real>, i: nat)
    requires IsArgsort(order, errors) && i < |errors|
    ensures i in order
  {
    DistinctCount(order, Members(order));
    Pigeonhole(Members(order), |errors|, i);
  }

  lemma {:induction false} Pigeonhole(members: set<nat>, n: nat, i: nat)
    requires (forall x | x in members :: x < n) && |members| == n && i < n
    ensures i in members
  {
    if i !in members {
      Bounded(members + {i}, n);
    }
  }

  lemma {:induction false} Bounded(members: set<nat>, n: nat)
    requires forall x | x in members :: x < n
    ensures |members| <= n
  {
    if n == 0 {
      assert members == {};
    } else {
      Bounded(members - {n - 1}, n - 1);
    }
  }

  /** If fewer than `count` errors reach the threshold, all of them are among the first `count`. */
  lemma BelowThresholdListed(order: seq<nat>, errors: seq<real>, threshold: real, count: nat, i: nat)
    requires IsArgsort(order, errors) && count <= |order| && AtMost(errors, threshold) < count
    requires i < |errors| && errors[i] <= threshold
    ensures i in order[..count]
  {
    hide AtMost, Count;
    if i !in order[..count] {
      var mask := Within(errors, threshold);
      WithinCount(errors, threshold);
      var marked := Members(Positions(mask));
      PositionsCore(mask);
      CountIsCardinality(mask, marked);
      forall x | x in Members(order[..count]) ensures x in marked {
        var k :| 0 <= k < count && order[k] == x;
        LowestAreLower(order, errors, count, x, i);
      }
      DistinctCount(order[..count], Members(order[..count]));
      SubsetSize(Members(order[..count]), marked);
    }
  }

  lemma {:induction false} SubsetSize(a: set<nat>, b: set<nat>)
    requires forall x | x in a :: x in b
    ensures |a| <= |b|
    decreases |a|
  {
    if a != {} {
      var x :| x in a;
      SubsetSize(a - {x}, b - {x});
    }
  }

  /** How many samples are kept, exactly. */
  lemma KeptCount(errors: seq<real>, sigma: real, minSamples: nat, order: seq<nat>)
    requires IsArgsort(order, errors) && errors != [] && minSamples <= |errors|
    ensures var n := AtMost(errors, Threshold(errors, sigma));
            Count(KeepMask(errors, sigma, minSamples, order)) == if n < minSamples then minSamples else n
  {
    hide AtMost, Threshold, Count;
    LowestCount(order, errors, minSamples);
    WithinCount(errors, Threshold(errors, sigma));
  }

  lemma {:induction false} AtMostMonotone(s: seq<real>, m: real, p: real)
    requires m <= p
    ensures AtMost(s, m) <= AtMost(s, p)
    decreases |s|
  {
    if s != [] {
      AtMostMonotone(s[..|s| - 1], m, p);
    }
  }

  /** With a non-negative sigma at least the larger of min_samples and half of the samples, rounded
      up, is kept. */
  lemma HalfKept(errors: seq<real>, sigma: real, minSamples: nat, order: seq<nat>)
    requires IsArgsort(order, errors) && errors != [] && minSamples <= |errors| && sigma >= 0.0
    ensures var n := Count(KeepMask(errors, sigma, minSamples, order));
            n >= minSamples && n >= (|errors| + 1) / 2
  {
    hide AtMost, Threshold, Count, Median, KeepMask;
    KeptCount(errors, sigma, minSamples, order);
    ThresholdAboveMedian(errors, sigma);
    HalfAtMostMedian(errors);
    AtMostMonotone(errors, Median(errors), Threshold(errors, sigma));
  }

  /** With a negative sigma equal errors all fail the threshold, and only min_samples are kept: half
      of the samples is guaranteed exactly when sigma is not negative or min_samples is that many. */
  lemma NegativeSigma(errors: seq<real>, sigma: real, minSamples: nat, order: seq<nat>)
    requires IsArgsort(order, errors) && errors != [] && minSamples <= |errors| && sigma < 0.0
    requires forall i | 0 <= i < |errors| :: errors[i] == errors[0]
    ensures Count(KeepMask(errors, sigma, minSamples, order)) == minSamples
  {
    hide Threshold, Count, Median, KeepMask;
    KeptCount(errors, sigma, minSamples, order);
    ThresholdAboveMedian(errors, sigma);
    ConstantMedian(errors);
    NoneAtMost(errors, Threshold(errors, sigma));
  }

  lemma {:induction false} NoneAtMost(s: seq<real>, m: real)
    requires forall i | 0 <= i < |s| :: s[i] > m
    ensures AtMost(s, m) == 0
    decreases |s|
  {
    if s != [] {
      NoneAtMost(s[..|s| - 1], m);
    }
  }

  lemma ConstantMedian(errors: seq<real>)
    requires errors != [] && forall i | 0 <= i < |errors| :: errors[i] == errors[0]
    ensures Median(errors) == errors[0]
  {
    SortedMembers(errors);
  }

  lemma {:induction false} SortedMembers(s: seq<real>)
    ensures forall i | 0 <= i < |s| :: Sorted(s)[i] in s
    decreases |s|
  {
    if s != [] {
      var front := s[..|s| - 1];
      assert s == front + [s[|s| - 1]];
      SortedMembers(front);
      SortedCore(front, 0.0);
      InsertCore(Sorted(front), s[|s| - 1], 0.0);
      forall i | 0 <= i < |s| ensures Sorted(s)[i] in s {
        assert Sorted(s)[i] in Insert(Sorted(front), s[|s| - 1]);
      }
    }
  }

  /** Half of the samples is guaranteed whatever the errors exactly when sigma is not negative or
      min_samples is already that many. */
  lemma HalfKeptExactly(n: nat, sigma: real, minSamples: nat)
    requires n > 0 && minSamples <= n
    ensures (forall errors, order | |errors| == n && IsArgsort(order, errors) ::
               Count(KeepMask(errors, sigma, minSamples, order)) >= (n + 1) / 2)
       <==> sigma >= 0.0 || minSamples >= (n + 1) / 2
  {
    hide Count, KeepMask, AtMost, Threshold;
    forall errors: seq<real>, order | |errors| == n && IsArgsort(order, errors)
      ensures sigma >= 0.0 ==> Count(KeepMask(errors, sigma, minSamples, order)) >= (n + 1) / 2
      ensures Count(KeepMask(errors, sigma, minSamples, order)) >= minSamples
    {
      KeptCount(errors, sigma, minSamples, order);
      if sigma >= 0.0 {
        HalfKept(errors, sigma, minSamples, order);
      }
    }
    if sigma < 0.0 {
      var errors: seq<real>, order: seq<nat> := seq(n, i => 0.0), seq(n, i => i);
      assert |errors| == n && IsArgsort(order, errors);
      NegativeSigma(errors, sigma, minSamples, order);
    }
  }

  /** The whole step, for what its caller gets: an order-preserving selection that is large enough
      and keeps the samples with the smallest errors. */
  lemma RejectionIsRobust<T>(samples: seq<T>, pairErrors: seq<seq<real>>, sigma: real, minSamples: nat, order: seq<nat>)
    requires |pairErrors| == |samples| == |order| && Square(pairErrors)
    requires |samples| >= minSamples + 2 && sigma >= 0.0
    requires IsArgsort(order, SampleErrors(pairErrors))
    ensures var errors := SampleErrors(pairErrors);
            var mask := KeepMask(errors, sigma, minSamples, order);
            var (cleaned, rejected) := Reject(samples, true, pairErrors, sigma, minSamples, order);
            && cleaned == Selected(samples, mask)
            && |cleaned| + rejected == |samples| && rejected >= 0
            && |cleaned| >= minSamples && |cleaned| >= (|samples| + 1) / 2
            && (forall i, j | 0 <= i < |samples| && 0 <= j < |samples| && mask[i] && !mask[j] :: errors[i] <= errors[j])
  {
    hide Count, KeepMask, AtMost, Selected;
    var errors := SampleErrors(pairErrors);
    var mask := KeepMask(errors, sigma, minSamples, order);
    SelectedCount(samples, mask);
    HalfKept(errors, sigma, minSamples, order);
    CountBound(mask);
    forall i, j | 0 <= i < |samples| && 0 <= j < |samples| && mask[i] && !mask[j] ensures errors[i] <= errors[j] {
      KeptAreLowest(errors, sigma, minSamples, order, i, j);
    }
  }

  lemma {:induction false} CountBound(mask: seq<bool>)
    ensures Count(mask) <= |mask|
    decreases |mask|
  {
    if mask != [] {
      CountBound(mask[..|mask| - 1]);
    }
  }

  // ---- the step as it runs ----

  method RejectOutlierSamples<T>(samples: seq<T>, solved: bool, pairErrors: seq<seq<real>>, sigma: real,
                                 minSamples: nat, order: seq<nat>) returns (cleaned: seq<T>, rejected: int)
    requires |pairErrors| == |samples| == |order| && Square(pairErrors)
    requires forall k | 0 <= k < |order| :: order[k] < |samples|
    ensures (cleaned, rejected) == Reject(samples, solved, pairErrors, sigma, minSamples, order)
  {
    hide Threshold, Median, Others, AtMost, Selected;
    if |samples| < minSamples + 2 || !solved {
      return samples, 0;
    }
    var n := |samples|;
    var errors := new real[n];
    for i := 0 to n
      invariant errors[..i] == SampleErrors(pairErrors)[..i]
    {
      var row := CollectOthers(pairErrors[i], i);
      errors[i] := Median(row);
      assert errors[..i + 1] == errors[..i] + [errors[i]];
    }
    assert errors[..] == errors[..n] == SampleErrors(pairErrors);
    var threshold := Threshold(errors[..], sigma);
    var mask, count := MarkWithin(errors[..], threshold);
    if count < minSamples {
      KeepLowest(mask, order, minSamples);
    }
    cleaned := Collect(samples, mask);
    rejected := n - |cleaned|;
  }

  method CollectOthers(row: seq<real>, i: nat) returns (others: seq<real>)
    requires i < |row|
    ensures others == Others(row, i)
  {
    others := [];
    for j := 0 to |row|
      invariant others == if j <= i then row[..j] else row[..i] + row[i + 1..j]
    {
      if j != i {
        others := others + [row[j]];
      }
    }
  }

  method MarkWithin(errors: seq<real>, threshold: real) returns (mask: array<bool>, count: nat)
    ensures fresh(mask) && mask[..] == Within(errors, threshold) && count == AtMost(errors, threshold)
  {
    mask := new bool[|errors|];
    count := 0;
    for i := 0 to |errors|
      invariant forall k | 0 <= k < i :: mask[k] == (errors[k] <= threshold)
      invariant count == AtMost(errors[..i], threshold)
    {
      assert errors[..i + 1][..i] == errors[..i];
      mask[i] := errors[i] <= threshold;
      if mask[i] {
        count := count + 1;
      }
    }
    assert errors[..|errors|] == errors;
  }

  /** Clear the mask and set the bits of the first `count` positions of the order. */
  method KeepLowest(mask: array<bool>, order: seq<nat>, count: nat)
    requires count <= |order| && forall k | 0 <= k < |order| :: order[k] < mask.Length
    modifies mask
    ensures mask[..] == Lowest(order, count, mask.Length)
  {
    for i := 0 to mask.Length
      invariant forall k | 0 <= k < i :: !mask[k]
    {
      mask[i] := false;
    }
    for k := 0 to count
      invariant forall i | 0 <= i < mask.Length :: mask[i] == (i in order[..k])
    {
      mask[order[k]] := true;
      assert order[..k + 1] == order[..k] + [order[k]];
    }
  }

  method Collect<T>(samples: seq<T>, mask: array<bool>) returns (cleaned: seq<T>)
    requires |samples| == mask.Length
    ensures cleaned == Selected(samples, mask[..])
  {
    cleaned := [];
    for i := 0 to |samples|
      invariant cleaned == Selected(samples[..i], mask[..i])
    {
      assert samples[..i + 1][..i] == samples[..i] && mask[..i + 1][..i] == mask[..i];
      if mask[i] {
        cleaned := cleaned + [samples[i]];
      }
    }
    assert samples[..|samples|] == samples && mask[..|samples|] == mask[..];
  }

  // ---- the threshold, spelled out ----

  /** The distance of every error from the median error. */
  ghost predicate AreDistances(deviations: seq<real>, errors: seq<real>, center: real) {
    && |deviations| == |errors|
    && forall i | 0 <= i < |errors| ::
         deviations[i] >= 0.0 && (deviations[i] == errors[i] - center || deviations[i] == center - errors[i])
  }

  lemma DistancesAreUnique(a: seq<real>, b: seq<real>, errors: seq<real>, center: real)
    requires AreDistances(a, errors, center) && AreDistances(b, errors, center)
    ensures a == b
  {
  }

  /** A sample is within the threshold exactly when its error exceeds the median error by at most sigma times
      the median distance from it, which counts as a millionth where it is smaller. */
  lemma WithinExactly(errors: seq<real>, sigma: real, i: nat, deviations: seq<real>)
    requires i < |errors| && AreDistances(deviations, errors, Median(errors))
    ensures var spread := Median(deviations);
            errors[i] <= Threshold(errors, sigma)
            <==> errors[i] - Median(errors) <= sigma * (if spread < 0.000001 then 0.000001 else spread)
  {
    hide Median;
    var all := Deviations(errors, Median(errors));
    DistancesAreUnique(deviations, all, errors, Median(errors));
    var spread := Median(deviations);
    var used := if spread < 0.000001 then 0.000001 else spread;
    assert used == if Median(all) > MAD_FLOOR then Median(all) else MAD_FLOOR;
    assert Threshold(errors, sigma) == Median(errors) + sigma * used;
  }
}
