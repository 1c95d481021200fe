/** The visual hysteresis tracker (src/gp4_perception/gp4_perception/visual_tracking.py). */
module VisualTracker {
  import opened Wrappers
  import opened Boxes
  import opened Counting

  datatype Pixel = Pixel(u: int, v: int)

  datatype Detection = Detection(classId: string, box: Box, center: Pixel, confidence: real, distance: real, payload: nat)

  /** Pixel distance is a parameter; the overlap is computed. */
  datatype Config = Config(minHits: int, tolerance: int, maxDistance: real, minIou: real, alpha: real,
                           dist: (Pixel, Pixel) -> real)

  /** A track, with the matches and misses of its whole life. */
  datatype Track = Track(classId: string, box: Box, center: Pixel, confidence: real, distance: real,
                         hits: nat, missed: nat, confirmed: bool, last: Detection, history: seq<bool>)

  datatype Emission = Emission(detection: Detection, held: bool)

  /** `int(r)`: truncation toward zero. */
  function Truncate(r: real): int {
    if r >= 0.0 then r.Floor else -(-r).Floor
  }

  /** The exponential moving average of one pixel coordinate. */
  function Blend(alpha: real, new_: int, old_: int): int {
    Truncate(Mean(alpha, new_ as real, old_ as real))
  }

  function Mean(alpha: real, x: real, y: real): real {
    alpha * x + (1.0 - alpha) * y
  }

  /** For coordinates in the image the average stays between the old value and the new one, and
      truncation makes it stick: a coordinate one pixel larger never moves it. */
  lemma BlendBetween(alpha: real, new_: int, old_: int)
    requires 0.0 <= alpha <= 1.0 && new_ >= 0 && old_ >= 0
    ensures Min(new_, old_) <= Blend(alpha, new_, old_) <= Max(new_, old_)
    ensures alpha < 1.0 && new_ == old_ + 1 ==> Blend(alpha, new_, old_) == old_
  {
    hide Truncate, Mean;
    MeanBetween(alpha, new_ as real, old_ as real);
    TruncateWithin(Mean(alpha, new_ as real, old_ as real), Min(new_, old_), Max(new_, old_));
  }

  /** A weighted mean lies between its ends. */
  lemma MeanBetween(alpha: real, x: real, y: real)
    requires 0.0 <= alpha <= 1.0
    ensures if x >= y then y <= Mean(alpha, x, y) <= x else x <= Mean(alpha, x, y) <= y
    ensures alpha < 1.0 && x > y ==> Mean(alpha, x, y) < x
  {
    hide Mean, Part;
    MeanForms(alpha, x, y);
    if x >= y {
      Share(alpha, x - y);
    } else {
      Share(1.0 - alpha, y - x);
    }
  }

  function Part(a: real, d: real): real { a * d }

  lemma MeanForms(alpha: real, x: real, y: real)
    ensures Mean(alpha, x, y) == y + Part(alpha, x - y) == x + Part(1.0 - alpha, y - x)
  {
  }

  lemma Share(a: real, d: real)
    requires 0.0 <= a <= 1.0 && d >= 0.0
    ensures 0.0 <= Part(a, d) <= d
    ensures a < 1.0 && d > 0.0 ==> Part(a, d) < d
  {
    var rest := (1.0 - a) * d;
    assert a * d + rest == d;
    Positive(a, d);
    Positive(1.0 - a, d);
  }

  lemma Positive(a: real, d: real)
    requires a >= 0.0 && d >= 0.0
    ensures a * d >= 0.0
    ensures a > 0.0 && d > 0.0 ==> a * d > 0.0
  {
  }

  lemma TruncateWithin(r: real, lo: nat, hi: nat)
    requires lo as real <= r <= hi as real
    ensures lo <= Truncate(r) <= hi
    ensures r < hi as real ==> Truncate(r) < hi
  {
  }

  function Score(cfg: Config, t: Track, d: Detection): real {
    Iou(t.box, d.box) - cfg.dist(t.center, d.center) * 0.001
  }

  predicate Admissible(cfg: Config, t: Track, d: Detection) {
    d.classId == t.classId && (Iou(t.box, d.box) >= cfg.minIou || cfg.dist(t.center, d.center) <= cfg.maxDistance)
  }

  // ---- one frame ----

  predicate InRange(s: seq<nat>, n: nat) {
    forall i | 0 <= i < |s| :: s[i] < n
  }

  /** The detection at position i of the free ones is admissible for the track. */
  predicate Offers(cfg: Config, t: Track, dets: seq<Detection>, unmatched: seq<nat>, i: nat)
    requires i < |unmatched| && InRange(unmatched, |dets|)
  {
    Admissible(cfg, t, dets[unmatched[i]])
  }

  function ScoreAt(cfg: Config, t: Track, dets: seq<Detection>, unmatched: seq<nat>, i: nat): real
    requires i < |unmatched| && InRange(unmatched, |dets|)
  {
    Score(cfg, t, dets[unmatched[i]])
  }

  /** The search of one track over the first n free detections: the position of the best so far, and
      its score. */
  function Seek(cfg: Config, t: Track, dets: seq<Detection>, unmatched: seq<nat>, n: nat): (Option<nat>, real)
    requires n <= |unmatched| && InRange(unmatched, |dets|)
  {
    if n == 0 then (None, -1.0)
    else
      var (best, bestScore) := Seek(cfg, t, dets, unmatched, n - 1);
      if Offers(cfg, t, dets, unmatched, n - 1) && ScoreAt(cfg, t, dets, unmatched, n - 1) > bestScore then
        (Some(n - 1), ScoreAt(cfg, t, dets, unmatched, n - 1))
      else (best, bestScore)
  }

  function Follow(cfg: Config, t: Track, d: Detection): Track {
    var a := cfg.alpha;
    Track(t.classId,
          Box(Blend(a, d.box.x, t.box.x), Blend(a, d.box.y, t.box.y), Blend(a, d.box.w, t.box.w), Blend(a, d.box.h, t.box.h)),
          Pixel(Blend(a, d.center.u, t.center.u), Blend(a, d.center.v, t.center.v)),
          Mean(a, d.confidence, t.confidence), Mean(a, d.distance, t.distance),
          t.hits + 1, 0, t.confirmed || t.hits + 1 >= cfg.minHits, d, t.history + [true])
  }

  /** The weight is on the detection: at 1 the track becomes it, at 0 it stays where it was, and in
      between every coordinate in the image lies between the two. */
  lemma FollowBlends(cfg: Config, t: Track, d: Detection)
    ensures var u := Follow(cfg, t, d);
            && (cfg.alpha == 1.0 ==> u.box == d.box && u.center == d.center && u.confidence == d.confidence && u.distance == d.distance)
            && (cfg.alpha == 0.0 ==> u.box == t.box && u.center == t.center && u.confidence == t.confidence && u.distance == t.distance)
            && (0.0 <= cfg.alpha <= 1.0 ==>
                  && Pulled(u.box.x, d.box.x, t.box.x) && Pulled(u.box.y, d.box.y, t.box.y)
                  && Pulled(u.box.w, d.box.w, t.box.w) && Pulled(u.box.h, d.box.h, t.box.h)
                  && Pulled(u.center.u, d.center.u, t.center.u) && Pulled(u.center.v, d.center.v, t.center.v))
  {
    hide Mean, Truncate, Pulled;
    MeanEnds(d.confidence, t.confidence);
    MeanEnds(d.distance, t.distance);
    BlendPulls(cfg.alpha, d.box.x, t.box.x);
    BlendPulls(cfg.alpha, d.box.y, t.box.y);
    BlendPulls(cfg.alpha, d.box.w, t.box.w);
    BlendPulls(cfg.alpha, d.box.h, t.box.h);
    BlendPulls(cfg.alpha, d.center.u, t.center.u);
    BlendPulls(cfg.alpha, d.center.v, t.center.v);
  }

  /** Between the two, if neither is negative. */
  predicate Pulled(x: int, new_: int, old_: int) {
    new_ >= 0 && old_ >= 0 ==> Min(new_, old_) <= x <= Max(new_, old_)
  }

  lemma MeanEnds(x: real, y: real)
    ensures Mean(1.0, x, y) == x && Mean(0.0, x, y) == y
  {
  }

  lemma BlendPulls(alpha: real, new_: int, old_: int)
    ensures Blend(1.0, new_, old_) == new_ && Blend(0.0, new_, old_) == old_
    ensures 0.0 <= alpha <= 1.0 ==> Pulled(Blend(alpha, new_, old_), new_, old_)
  {
    hide Mean, Blend;
    BlendEnds(new_, old_);
    if 0.0 <= alpha <= 1.0 && new_ >= 0 && old_ >= 0 {
      BlendBetween(alpha, new_, old_);
    }
  }

  lemma BlendEnds(new_: int, old_: int)
    ensures Blend(1.0, new_, old_) == new_ && Blend(0.0, new_, old_) == old_
  {
    hide Mean;
    MeanEnds(new_ as real, old_ as real);
  }

  function Lose(t: Track): Track {
    t.(missed := t.missed + 1, history := t.history + [false])
  }

  function Born(d: Detection): Track {
    Track(d.classId, d.box, d.center, d.confidence, d.distance, 1, 0, false, d, [true])
  }

  /** `list.remove`: drop the first occurrence. */
  function Remove(s: seq<nat>, x: nat): seq<nat> {
    if s == [] then []
    else if s[0] == x then s[1..]
    else [s[0]] + Remove(s[1..], x)
  }

  function Indices(n: nat): (s: seq<nat>)
    ensures |s| == n
    ensures forall i | 0 <= i < n :: s[i] == i
  {
    seq(n, i => i)
  }

  /** After some tracks have looked for a detection: those tracks, what each took, and the
      detections still free. */
  datatype Stage = Stage(tracks: seq<Track>, taken: seq<Option<nat>>, unmatched: seq<nat>)

  function Advance(cfg: Config, t: Track, dets: seq<Detection>, s: Stage): Stage
    requires InRange(s.unmatched, |dets|)
  {
    match Seek(cfg, t, dets, s.unmatched, |s.unmatched|).0
    case Some(k) =>
      if k < |s.unmatched| then
        var d := s.unmatched[k];
        Stage(s.tracks + [Follow(cfg, t, dets[d])], s.taken + [Some(d)], Remove(s.unmatched, d))
      else s
    case None => Stage(s.tracks + [Lose(t)], s.taken + [None], s.unmatched)
  }

  function Sweep(cfg: Config, ts: seq<Track>, dets: seq<Detection>): (s: Stage)
    ensures InRange(s.unmatched, |dets|)
  {
    if ts == [] then Stage([], [], Indices(|dets|))
    else
      var s := Sweep(cfg, ts[..|ts| - 1], dets);
      AdvanceInRange(cfg, ts[|ts| - 1], dets, s);
      Advance(cfg, ts[|ts| - 1], dets, s)
  }

  lemma AdvanceInRange(cfg: Config, t: Track, dets: seq<Detection>, s: Stage)
    requires InRange(s.unmatched, |dets|)
    ensures InRange(Advance(cfg, t, dets, s).unmatched, |dets|)
  {
    hide Seek, Remove;
    var best := Seek(cfg, t, dets, s.unmatched, |s.unmatched|).0;
    if best.Some? && best.value < |s.unmatched| {
      RemoveInRange(s.unmatched, s.unmatched[best.value], |dets|);
    }
  }

  function Newborns(dets: seq<Detection>, unmatched: seq<nat>): (ts: seq<Track>)
    requires InRange(unmatched, |dets|)
    ensures |ts| == |unmatched|
    ensures forall i | 0 <= i < |ts| :: ts[i] == Born(dets[unmatched[i]])
  {
    seq(|unmatched|, i requires 0 <= i < |unmatched| => Born(dets[unmatched[i]]))
  }

  /** The frame's tracks before eviction. */
  function Candidates(cfg: Config, ts: seq<Track>, dets: seq<Detection>): seq<Track> {
    var s := Sweep(cfg, ts, dets);
    s.tracks + Newborns(dets, s.unmatched)
  }

  predicate Keep(cfg: Config, t: Track) {
    if t.confirmed then t.missed <= cfg.tolerance else t.missed == 0
  }

  function Kept(cfg: Config, ts: seq<Track>): seq<Track> {
    if ts == [] then []
    else
      var rest := Kept(cfg, ts[..|ts| - 1]);
      if Keep(cfg, ts[|ts| - 1]) then rest + [ts[|ts| - 1]] else rest
  }

  function Update(cfg: Config, ts: seq<Track>, dets: seq<Detection>): seq<Track> {
    Kept(cfg, Candidates(cfg, ts, dets))
  }

  function Emissions(ts: seq<Track>): seq<Emission> {
    if ts == [] then []
    else
      var rest := Emissions(ts[..|ts| - 1]);
      var t := ts[|ts| - 1];
      if t.confirmed then rest + [Emission(t.last, t.missed > 0)] else rest
  }

  // ---- the match ----

  /** A track takes the admissible free detection with the highest score, the first of several; it
      takes none exactly when no admissible free detection scores above -1. */
  lemma {:induction false} SeekExactly(cfg: Config, t: Track, dets: seq<Detection>, unmatched: seq<nat>, n: nat)
    requires n <= |unmatched| && InRange(unmatched, |dets|)
    ensures var (best, bestScore) := Seek(cfg, t, dets, unmatched, n);
            && (forall i | 0 <= i < n
                && Offers(cfg, t, dets, unmatched, i) :: ScoreAt(cfg, t, dets, unmatched, i) <= bestScore)
            && match best
               case None => bestScore == -1.0
               case Some(k) =>
                 && k < n && Offers(cfg, t, dets, unmatched, k)
                     && bestScore == ScoreAt(cfg, t, dets, unmatched, k) > -1.0
                 && (forall i | 0 <= i < k
                     && Offers(cfg, t, dets, unmatched, i) :: ScoreAt(cfg, t, dets, unmatched, i) < bestScore)
  {
    hide ScoreAt, Offers, InRange;
    if n > 0 {
      SeekExactly(cfg, t, dets, unmatched, n - 1);
    }
  }

  lemma {:induction false} RemoveMembers(s: seq<nat>, x: nat)
    ensures x in s ==> |Remove(s, x)| == |s| - 1
    ensures forall y | y in s && y != x :: y in Remove(s, x)
  {
    if s != [] && s[0] != x {
      RemoveMembers(s[1..], x);
    }
  }

  lemma {:induction false} RemoveSubset(s: seq<nat>, x: nat)
    ensures forall y | y in Remove(s, x) :: y in s
  {
    if s != [] && s[0] != x {
      RemoveSubset(s[1..], x);
    }
  }

  lemma {:induction false} RemoveInRange(s: seq<nat>, x: nat, n: nat)
    requires InRange(s, n)
    ensures InRange(Remove(s, x), n)
  {
    if s != [] {
      assert forall i | 0 <= i < |s| - 1 :: s[1..][i] == s[i + 1];
      RemoveInRange(s[1..], x, n);
    }
  }

  ghost predicate Ascending(s: seq<nat>) {
    forall i, j | 0 <= i < j < |s| :: s[i] < s[j]
  }

  lemma {:induction false} RemoveAscending(s: seq<nat>, x: nat)
    requires Ascending(s)
    ensures Ascending(Remove(s, x)) && x !in Remove(s, x)
  {
    if s != [] {
      if s[0] != x {
        RemoveAscending(s[1..], x);
        RemoveMembers(s[1..], x);
      }
    }
  }

  // ---- each detection goes to exactly one track ----

  function MissedOf(ts: seq<Track>): (s: seq<nat>)
    ensures |s| == |ts|
    ensures forall i | 0 <= i < |ts| :: s[i] == ts[i].missed
  {
    seq(|ts|, i requires 0 <= i < |ts| => ts[i].missed)
  }

  /** What was taken and what is free divide the numbers below n. */
  ghost predicate Split(taken: seq<Option<nat>>, unmatched: seq<nat>, n: nat) {
    && (forall i | 0 <= i < |taken| && taken[i].Some? :: taken[i].value < n && taken[i].value !in unmatched)
    && (forall i, j | 0 <= i < j < |taken| && taken[i].Some? :: taken[i] != taken[j])
    && (forall d: nat | d < n :: Some(d) in taken || d in unmatched)
    && Ascending(unmatched) && InRange(unmatched, n)
  }

  lemma SplitTake(taken: seq<Option<nat>>, unmatched: seq<nat>, n: nat, k: nat)
    requires Split(taken, unmatched, n) && k < |unmatched|
    ensures Split(taken + [Some(unmatched[k])], Remove(unmatched, unmatched[k]), n)
    ensures |Remove(unmatched, unmatched[k])| == |unmatched| - 1
  {
    var d, rest := unmatched[k], Remove(unmatched, unmatched[k]);
    RemoveMembers(unmatched, d);
    RemoveAscending(unmatched, d);
    RemoveInRange(unmatched, d, n);
    RemoveSubset(unmatched, d);
    var longer := taken + [Some(d)];
    assert longer[|taken|] == Some(d);
    forall x: nat | x < n ensures Some(x) in longer || x in rest {
      assert Some(x) in taken ==> Some(x) in longer;
    }
  }

  lemma SplitSkip(taken: seq<Option<nat>>, unmatched: seq<nat>, n: nat)
    requires Split(taken, unmatched, n)
    ensures Split(taken + [None], unmatched, n)
  {
    forall d: nat | d < n ensures Some(d) in taken + [None] || d in unmatched {
      assert Some(d) in taken ==> Some(d) in taken + [None];
    }
  }

  /** The sweep so far: the detections are divided, and every track followed what it took. */
  ghost predicate Divided(cfg: Config, ts: seq<Track>, dets: seq<Detection>, s: Stage) {
    && |s.tracks| == |s.taken| == |ts|
    && Split(s.taken, s.unmatched, |dets|)
    && (forall i | 0 <= i < |ts| ::
          match s.taken[i]
          case Some(d) => d < |dets| && dets[d].classId == ts[i].classId && s.tracks[i] == Follow(cfg, ts[i], dets[d])
          case None => s.tracks[i] == Lose(ts[i]))
    && Occurrences(MissedOf(s.tracks), 0) + |s.unmatched| == |dets|
  }

  lemma {:induction false} SweepDivides(cfg: Config, ts: seq<Track>, dets: seq<Detection>)
    ensures Divided(cfg, ts, dets, Sweep(cfg, ts, dets))
    decreases |ts|
  {
    hide Divided, Advance, Indices;
    if ts == [] {
      AllFree(cfg, dets);
    } else {
      SweepDivides(cfg, ts[..|ts| - 1], dets);
      AdvanceDivides(cfg, ts, dets, Sweep(cfg, ts[..|ts| - 1], dets));
    }
  }

  lemma AllFree(cfg: Config, dets: seq<Detection>)
    ensures Divided(cfg, [], dets, Stage([], [], Indices(|dets|)))
  {
    forall d: nat | d < |dets| ensures d in Indices(|dets|) {
      assert Indices(|dets|)[d] == d;
    }
  }

  lemma AdvanceDivides(cfg: Config, ts: seq<Track>, dets: seq<Detection>, s: Stage)
    requires ts != [] && InRange(s.unmatched, |dets|) && Divided(cfg, ts[..|ts| - 1], dets, s)
    ensures Divided(cfg, ts, dets, Advance(cfg, ts[|ts| - 1], dets, s))
  {
    hide Follow, Lose, Score, Seek, Occurrences, Split, Remove;
    var t := ts[|ts| - 1];
    SeekExactly(cfg, t, dets, s.unmatched, |s.unmatched|);
    var best := Seek(cfg, t, dets, s.unmatched, |s.unmatched|).0;
    if best.Some? {
      SplitTake(s.taken, s.unmatched, |dets|, best.value);
      OneMore(cfg, s.tracks, t, Some(s.unmatched[best.value]), dets);
    } else {
      SplitSkip(s.taken, s.unmatched, |dets|);
      OneMore(cfg, s.tracks, t, None, dets);
    }
  }

  lemma OccurrencesSnoc(ts: seq<Track>, t: Track, m: nat)
    ensures Occurrences(MissedOf(ts + [t]), m) == Occurrences(MissedOf(ts), m) + if t.missed == m then 1 else 0
  {
    assert MissedOf(ts + [t])[..|ts|] == MissedOf(ts);
  }

  lemma OneMore(cfg: Config, us: seq<Track>, t: Track, best: Option<nat>, dets: seq<Detection>)
    requires best.Some? ==> best.value < |dets|
    ensures var u := if best.Some? then Follow(cfg, t, dets[best.value]) else Lose(t);
            Occurrences(MissedOf(us + [u]), 0) == Occurrences(MissedOf(us), 0) + if best.Some? then 1 else 0
  {
    hide Blend, Mean, MissedOf, Occurrences;
    OccurrencesSnoc(us, if best.Some? then Follow(cfg, t, dets[best.value]) else Lose(t), 0);
  }

  /** What each of the frame's tracks took, newborns included. */
  function TakenBy(s: Stage): (taken: seq<Option<nat>>)
    requires |s.tracks| == |s.taken|
    ensures |taken| == |s.taken| + |s.unmatched|
    ensures forall j | 0 <= j < |taken| :: taken[j] == if j < |s.taken| then s.taken[j] else Some(s.unmatched[j - |s.taken|])
  {
    s.taken + seq(|s.unmatched|, i requires 0 <= i < |s.unmatched| => Some(s.unmatched[i]))
  }

  /** The list names every number below n, and none twice. */
  ghost predicate OnceEach(taken: seq<Option<nat>>, n: nat) {
    && (forall d: nat | d < n :: Some(d) in taken)
    && (forall i, j | 0 <= i < j < |taken| && taken[i].Some? :: taken[i] != taken[j])
  }

  lemma TakenOnce(cfg: Config, ts: seq<Track>, dets: seq<Detection>, s: Stage)
    requires Divided(cfg, ts, dets, s)
    ensures OnceEach(TakenBy(s), |dets|)
  {
    hide Follow, Lose, Occurrences;
    var taken := TakenBy(s);
    forall d: nat | d < |dets| ensures Some(d) in taken {
      if d in s.unmatched {
        var i :| 0 <= i < |s.unmatched| && s.unmatched[i] == d;
        assert taken[|s.taken| + i] == Some(d);
      } else {
        var i :| 0 <= i < |s.taken| && s.taken[i] == Some(d);
        assert taken[i] == Some(d);
      }
    }
  }

  /** What the taking did to one track. */
  ghost predicate TookIt(ts: seq<Track>, dets: seq<Detection>, j: nat, u: Track, took: Option<nat>) {
    match took
    case Some(d) => d < |dets| && u.last == dets[d] && u.missed == 0 && u.classId == dets[d].classId
    case None => j < |ts| && u == Lose(ts[j])
  }

  /** Every detection updates or creates exactly one track, of its own class; a track that took none
      has one more miss. */
  lemma EveryDetectionOnce(cfg: Config, ts: seq<Track>, dets: seq<Detection>)
    ensures var s := Sweep(cfg, ts, dets);
            && |s.tracks| == |s.taken|
            && var us, taken := Candidates(cfg, ts, dets), TakenBy(s);
               && |us| == |taken| && OnceEach(taken, |dets|)
               && forall j | 0 <= j < |taken| :: TookIt(ts, dets, j, us[j], taken[j])
  {
    hide Blend, Occurrences, OnceEach, Sweep;
    SweepDivides(cfg, ts, dets);
    TakenOnce(cfg, ts, dets, Sweep(cfg, ts, dets));
  }

  /** Before eviction exactly as many tracks have no miss as there were detections. */
  lemma CandidateCount(cfg: Config, ts: seq<Track>, dets: seq<Detection>)
    ensures Occurrences(MissedOf(Candidates(cfg, ts, dets)), 0) == |dets|
  {
    SweepDivides(cfg, ts, dets);
    var s := Sweep(cfg, ts, dets);
    NewbornCount(s.tracks, dets, s.unmatched, |s.unmatched|);
    assert Candidates(cfg, ts, dets) == s.tracks + Newborns(dets, s.unmatched)[..|s.unmatched|];
  }

  lemma {:induction false} NewbornCount(us: seq<Track>, dets: seq<Detection>, unmatched: seq<nat>, n: nat)
    requires n <= |unmatched| && InRange(unmatched, |dets|)
    ensures Occurrences(MissedOf(us + Newborns(dets, unmatched)[..n]), 0) == Occurrences(MissedOf(us), 0) + n
  {
    hide MissedOf, Occurrences;
    var born := Newborns(dets, unmatched);
    if n == 0 {
      assert us + born[..0] == us;
    } else {
      NewbornCount(us, dets, unmatched, n - 1);
      OccurrencesSnoc(us + born[..n - 1], born[n - 1], 0);
      assert us + born[..n] == (us + born[..n - 1]) + [born[n - 1]];
    }
  }

  /** After eviction it is still exactly that many, provided the tolerance is not negative or the
      frame confirmed nothing it matched; otherwise it is fewer. */
  lemma LiveCount(cfg: Config, ts: seq<Track>, dets: seq<Detection>)
    ensures Occurrences(MissedOf(Update(cfg, ts, dets)), 0) == |dets|
       <==> cfg.tolerance >= 0 || NoneConfirmedNow(Candidates(cfg, ts, dets))
  {
    hide Candidates, NoneConfirmedNow, Occurrences;
    CandidateCount(cfg, ts, dets);
    KeptCount(cfg, Candidates(cfg, ts, dets));
  }

  /** No matched track is confirmed. */
  ghost predicate NoneConfirmedNow(ts: seq<Track>) {
    forall t | t in ts && t.missed == 0 :: !t.confirmed
  }

  lemma NoneConfirmedSnoc(ts: seq<Track>, t: Track)
    ensures NoneConfirmedNow(ts + [t]) <==> NoneConfirmedNow(ts) && (t.missed == 0 ==> !t.confirmed)
  {
    assert t in ts + [t] && forall u | u in ts :: u in ts + [t];
  }

  lemma {:induction false} KeptCount(cfg: Config, ts: seq<Track>)
    ensures Occurrences(MissedOf(Kept(cfg, ts)), 0) <= Occurrences(MissedOf(ts), 0)
    ensures Occurrences(MissedOf(Kept(cfg, ts)), 0) == Occurrences(MissedOf(ts), 0)
       <==> cfg.tolerance >= 0 || NoneConfirmedNow(ts)
    decreases |ts|
  {
    hide MissedOf, Occurrences, NoneConfirmedNow;
    if ts == [] {
      assert NoneConfirmedNow(ts) by { NobodyConfirmed(ts); }
    } else {
      var front, last := ts[..|ts| - 1], ts[|ts| - 1];
      assert ts == front + [last];
      KeptCount(cfg, front);
      OccurrencesSnoc(front, last, 0);
      OccurrencesSnoc(Kept(cfg, front), last, 0);
      NoneConfirmedSnoc(front, last);
    }
  }

  lemma NobodyConfirmed(ts: seq<Track>)
    requires ts == []
    ensures NoneConfirmedNow(ts)
  {
  }

  lemma {:induction false} KeptMembers(cfg: Config, ts: seq<Track>, t: Track)
    ensures t in Kept(cfg, ts) <==> t in ts && Keep(cfg, t)
    decreases |ts|
  {
    if ts != [] {
      assert ts == ts[..|ts| - 1] + [ts[|ts| - 1]];
      KeptMembers(cfg, ts[..|ts| - 1], t);
    }
  }

  // ---- lives ----

  function Run(cfg: Config, frames: seq<seq<Detection>>): seq<Track> {
    if frames == [] then [] else Update(cfg, Run(cfg, frames[..|frames| - 1]), frames[|frames| - 1])
  }

  /** The consecutive match at which a track is confirmed: a newborn is never confirmed at once. */
  function Threshold(cfg: Config): nat {
    if cfg.minHits > 2 then cfg.minHits else 2
  }

  /** The histories under which a track stays: a match in each of its first frames up to the
      threshold, and from there never more misses in a row than tolerated. */
  ghost predicate Endured(cfg: Config, history: seq<bool>) {
    && (forall j | 0 <= j < |history| && j < Threshold(cfg) :: history[j])
    && (forall j | Threshold(cfg) <= j <= |history| :: TrailingMisses(history[..j]) <= cfg.tolerance)
  }

  ghost predicate Faithful(cfg: Config, t: Track) {
    && t.history != []
    && t.hits == Sum(t.history) && t.missed == TrailingMisses(t.history)
    && (t.confirmed <==> |t.history| >= Threshold(cfg))
    && t.last.classId == t.classId
    && Endured(cfg, t.history)
  }

  lemma {:induction false} AllHits(history: seq<bool>)
    requires forall j | 0 <= j < |history| :: history[j]
    ensures Sum(history) == |history| && TrailingMisses(history) == 0
    decreases |history|
  {
    if history != [] {
      AllHits(history[..|history| - 1]);
    }
  }

  lemma EnduredSnoc(cfg: Config, history: seq<bool>, b: bool)
    requires Endured(cfg, history)
    ensures Endured(cfg, history + [b]) <==>
            && (|history| < Threshold(cfg) ==> b)
            && (|history| + 1 >= Threshold(cfg) ==> TrailingMisses(history + [b]) <= cfg.tolerance)
  {
    hide TrailingMisses;
    var longer := history + [b];
    assert longer[..|longer|] == longer;
    forall j | Threshold(cfg) <= j <= |history| ensures longer[..j] == history[..j] {
    }
    if |history| < Threshold(cfg) && Endured(cfg, longer) {
      assert longer[|history|];
    }
  }

  lemma HistorySnoc(history: seq<bool>, b: bool)
    ensures Sum(history + [b]) == Sum(history) + (if b then 1 else 0)
    ensures TrailingMisses(history + [b]) == if b then 0 else 1 + TrailingMisses(history)
  {
    assert (history + [b])[..|history|] == history;
  }

  /** A live track survives a frame exactly when its longer history is still one that endures, and
      then its counters tell the truth again: it is confirmed exactly at its threshold-th match in
      a row, and evicted exactly when it misses before that or misses once too often after. */
  lemma SurvivesExactly(cfg: Config, t: Track, u: Track)
    requires Faithful(cfg, t)
    requires u == Lose(t) || exists d: Detection :: d.classId == t.classId && u == Follow(cfg, t, d)
    ensures Keep(cfg, u) <==> Endured(cfg, u.history)
    ensures Keep(cfg, u) ==> Faithful(cfg, u)
  {
    hide Blend, Sum, TrailingMisses, Endured;
    EnduredSnoc(cfg, t.history, true);
    EnduredSnoc(cfg, t.history, false);
    HistorySnoc(t.history, true);
    HistorySnoc(t.history, false);
    if |t.history| < Threshold(cfg) {
      YoungHits(cfg, t.history);
    }
  }

  lemma YoungHits(cfg: Config, history: seq<bool>)
    requires Endured(cfg, history) && |history| < Threshold(cfg)
    ensures Sum(history) == |history| && TrailingMisses(history) == 0
  {
    AllHits(history);
  }

  lemma BornFaithful(cfg: Config, d: Detection)
    ensures Faithful(cfg, Born(d)) && Keep(cfg, Born(d))
  {
    AllHits([true]);
  }

  /** After every frame each live track tells the truth about its life. */
  lemma {:induction false} TracksAreFaithful(cfg: Config, frames: seq<seq<Detection>>)
    ensures forall t | t in Run(cfg, frames) :: Faithful(cfg, t) && Keep(cfg, t)
    decreases |frames|
  {
    hide Faithful, Keep, Update;
    if frames != [] {
      var front := frames[..|frames| - 1];
      TracksAreFaithful(cfg, front);
      forall t | t in Run(cfg, frames) ensures Faithful(cfg, t) && Keep(cfg, t) {
        UpdateFaithful(cfg, Run(cfg, front), frames[|frames| - 1], t);
      }
    }
  }

  lemma UpdateFaithful(cfg: Config, ts: seq<Track>, dets: seq<Detection>, u: Track)
    requires (forall t | t in ts :: Faithful(cfg, t)) && u in Update(cfg, ts, dets)
    ensures Faithful(cfg, u) && Keep(cfg, u)
  {
    hide Faithful, Follow, Lose, Keep, Sweep, Occurrences;
    KeptMembers(cfg, Candidates(cfg, ts, dets), u);
    SweepDivides(cfg, ts, dets);
    var s := Sweep(cfg, ts, dets);
    var i :| 0 <= i < |Candidates(cfg, ts, dets)| && Candidates(cfg, ts, dets)[i] == u;
    if i < |ts| {
      assert ts[i] in ts;
      SurvivesExactly(cfg, ts[i], u);
    } else {
      BornFaithful(cfg, dets[s.unmatched[i - |ts|]]);
    }
  }

  // ---- what is emitted, and how much is remembered ----

  lemma {:induction false} EmittedFrom(ts: seq<Track>, e: Emission)
    ensures e in Emissions(ts) <==> exists t :: t in ts && t.confirmed && e == Emission(t.last, t.missed > 0)
    decreases |ts|
  {
    if ts != [] {
      assert ts == ts[..|ts| - 1] + [ts[|ts| - 1]];
      EmittedFrom(ts[..|ts| - 1], e);
    }
  }

  /** A detection is shown exactly for the live tracks past their threshold: from the
      threshold-th match in a row on, in every frame, until the misses exceed the tolerance. */
  lemma EmittedExactly(cfg: Config, frames: seq<seq<Detection>>, e: Emission)
    ensures e in Emissions(Run(cfg, frames)) <==>
            exists t :: t in Run(cfg, frames) && |t.history| >= Threshold(cfg)
                        && e == Emission(t.last, TrailingMisses(t.history) > 0)
  {
    hide Run, Emissions, TrailingMisses, Sum, Keep;
    TracksAreFaithful(cfg, frames);
    EmittedFrom(Run(cfg, frames), e);
  }

  function Intake(frames: seq<seq<Detection>>): (s: seq<nat>)
    ensures |s| == |frames|
    ensures forall n | 0 <= n < |frames| :: s[n] == |frames[n]|
  {
    seq(|frames|, n requires 0 <= n < |frames| => |frames[n]|)
  }

  lemma {:induction false} KeptOccurrences(cfg: Config, ts: seq<Track>, m: nat)
    ensures Occurrences(MissedOf(Kept(cfg, ts)), m) <= Occurrences(MissedOf(ts), m)
    decreases |ts|
  {
    hide Keep, MissedOf, Occurrences;
    if ts != [] {
      var front, last := ts[..|ts| - 1], ts[|ts| - 1];
      assert ts == front + [last];
      KeptOccurrences(cfg, front, m);
      OccurrencesSnoc(front, last, m);
      OccurrencesSnoc(Kept(cfg, front), last, m);
    }
  }

  lemma UpdateCounts(cfg: Config, ts: seq<Track>, dets: seq<Detection>, m: nat)
    ensures Occurrences(MissedOf(Update(cfg, ts, dets)), 0) <= |dets|
    ensures Occurrences(MissedOf(Update(cfg, ts, dets)), m + 1) <= Occurrences(MissedOf(ts), m)
  {
    hide Occurrences, Kept, Blend;
    var us := Candidates(cfg, ts, dets);
    KeptOccurrences(cfg, us, 0);
    KeptOccurrences(cfg, us, m + 1);
    CandidateCount(cfg, ts, dets);
    SweepDivides(cfg, ts, dets);
    Dominated(MissedOf(us), m + 1, MissedOf(ts), m);
  }

  lemma {:induction false} TracksAccounted(cfg: Config, frames: seq<seq<Detection>>)
    ensures Accounted(MissedOf(Run(cfg, frames)), Intake(frames))
    decreases |frames|
  {
    hide Update, Accounted, Occurrences;
    if frames == [] {
      NothingAccounted([]);
    } else {
      var front, dets := frames[..|frames| - 1], frames[|frames| - 1];
      var ts := Run(cfg, front);
      TracksAccounted(cfg, front);
      UpdateCounts(cfg, ts, dets, 0);
      forall m: nat ensures Occurrences(MissedOf(Update(cfg, ts, dets)), m + 1) <= Occurrences(MissedOf(ts), m) {
        UpdateCounts(cfg, ts, dets, m);
      }
      AccountedNext(MissedOf(ts), Intake(front), MissedOf(Update(cfg, ts, dets)), |dets|);
      assert Intake(frames) == Intake(front) + [|dets|];
    }
  }

  /** There are never more live tracks than detections came in over the last tolerance + 1 frames. */
  lemma MemoryBound(cfg: Config, frames: seq<seq<Detection>>)
    ensures |Run(cfg, frames)| <= IntakeWithin(Intake(frames), if cfg.tolerance > 0 then cfg.tolerance + 1 else 1)
  {
    hide Run, Faithful, IntakeWithin, Accounted;
    var ts := Run(cfg, frames);
    var h: nat := if cfg.tolerance > 0 then cfg.tolerance + 1 else 1;
    TracksAreFaithful(cfg, frames);
    forall x | x in MissedOf(ts) ensures x < h {
      var i :| 0 <= i < |ts| && MissedOf(ts)[i] == x;
      assert ts[i] in ts && Keep(cfg, ts[i]);
    }
    TracksAccounted(cfg, frames);
    AgesBound(MissedOf(ts), Intake(frames), h);
  }

  // ---- the tracker as the node runs it ----

  class TrackObject {
    const classId: string
    var box: Box
    var center: Pixel
    var confidence: real
    var distance: real
    var hits: nat
    var missed: nat
    var confirmed: bool
    var last: Detection
    ghost var history: seq<bool>

    ghost function View(): Track
      reads this
    {
      Track(classId, box, center, confidence, distance, hits, missed, confirmed, last, history)
    }

    constructor (d: Detection)
      ensures View() == Born(d)
    {
      classId, box, center, confidence, distance := d.classId, d.box, d.center, d.confidence, d.distance;
      hits, missed, confirmed, last, history := 1, 0, false, d, [true];
    }

    method FollowDetection(cfg: Config, d: Detection)
      modifies this
      ensures View() == Follow(cfg, old(View()), d)
    {
      hide Blend, Mean, Sum;
      var a := cfg.alpha;
      box := Box(Blend(a, d.box.x, box.x), Blend(a, d.box.y, box.y), Blend(a, d.box.w, box.w), Blend(a, d.box.h, box.h));
      center := Pixel(Blend(a, d.center.u, center.u), Blend(a, d.center.v, center.v));
      confidence := Mean(a, d.confidence, confidence);
      distance := Mean(a, d.distance, distance);
      missed := 0;
      hits := hits + 1;
      if hits >= cfg.minHits {
        confirmed := true;
      }
      last := d;
      history := history + [true];
    }

    method RecordMiss()
      modifies this
      ensures View() == Lose(old(View()))
    {
      missed := missed + 1;
      history := history + [false];
    }
  }

  ghost function ViewOf(objects: seq<TrackObject>): (ts: seq<Track>)
    reads objects
    ensures |ts| == |objects|
    ensures forall i | 0 <= i < |objects| :: ts[i] == objects[i].View()
  {
    seq(|objects|, i requires 0 <= i < |objects| reads objects => objects[i].View())
  }

  ghost predicate Distinct(objects: seq<TrackObject>) {
    forall i, j | 0 <= i < j < |objects| :: objects[i] != objects[j]
  }

  class Tracker {
    const cfg: Config
    var tracks: seq<TrackObject>

    constructor (cfg: Config)
      ensures this.cfg == cfg && tracks == []
    {
      this.cfg := cfg;
      tracks := [];
    }

    /** The best free detection for one track. */
    method BestDetection(track: TrackObject, dets: seq<Detection>, unmatched: seq<nat>) returns (best: Option<nat>)
      requires InRange(unmatched, |dets|)
      ensures best == Seek(cfg, track.View(), dets, unmatched, |unmatched|).0
    {
      hide Iou;
      best := None;
      var bestScore := -1.0;
      for i := 0 to |unmatched|
        invariant (best, bestScore) == Seek(cfg, track.View(), dets, unmatched, i)
      {
        var det := dets[unmatched[i]];
        if det.classId == track.classId {
          var iou := Iou(track.box, det.box);
          var dist := cfg.dist(track.center, det.center);
          if iou >= cfg.minIou || dist <= cfg.maxDistance {
            var score := iou - dist * 0.001;
            if score > bestScore {
              best, bestScore := Some(i), score;
            }
          }
        }
      }
    }

    /** One track takes its best free detection, or has a miss. */
    method MatchTrack(track: TrackObject, dets: seq<Detection>, unmatched: seq<nat>,
                      ghost s: Stage) returns (rest: seq<nat>)
      requires InRange(unmatched, |dets|) && s.unmatched == unmatched
      modifies track
      ensures InRange(rest, |dets|)
      ensures var r := Advance(cfg, old(track.View()), dets, s);
              r.tracks == s.tracks + [track.View()] && r.unmatched == rest
    {
      hide Seek, Follow, Lose, Remove, InRange, Offers, ScoreAt;
      ghost var t := track.View();
      SeekExactly(cfg, t, dets, unmatched, |unmatched|);
      AdvanceInRange(cfg, t, dets, s);
      var best := BestDetection(track, dets, unmatched);
      if best.Some? {
        var d := unmatched[best.value];
        InBounds(unmatched, |dets|, best.value);
        track.FollowDetection(cfg, dets[d]);
        rest := Remove(unmatched, d);
      } else {
        track.RecordMiss();
        rest := unmatched;
      }
    }

    /** Every track, in order, takes its best detection from those still free. */
    method MatchTracks(dets: seq<Detection>) returns (unmatched: seq<nat>)
      requires Distinct(tracks)
      modifies tracks
      ensures InRange(unmatched, |dets|)
      ensures var s := Sweep(cfg, old(ViewOf(tracks)), dets); ViewOf(tracks) == s.tracks && unmatched == s.unmatched
    {
      hide Advance, InRange, Indices, TrackObject.View;
      ghost var all := ViewOf(tracks);
      ghost var s := Sweep(cfg, [], dets);
      unmatched := Indices(|dets|);
      for i := 0 to |tracks|
        invariant s == Sweep(cfg, all[..i], dets) && unmatched == s.unmatched
        invariant |s.tracks| == i
        invariant forall j | 0 <= j < i :: tracks[j].View() == s.tracks[j]
        invariant forall j | i <= j < |tracks| :: tracks[j].View() == all[j]
      {
        assert all[..i + 1][..i] == all[..i];
        unmatched := MatchTrack(tracks[i], dets, unmatched, s);
        s := Sweep(cfg, all[..i + 1], dets);
      }
      assert all[..|tracks|] == all;
      assert ViewOf(tracks) == s.tracks;
    }

    method AddNewborns(dets: seq<Detection>, unmatched: seq<nat>)
      requires Distinct(tracks) && InRange(unmatched, |dets|)
      modifies this
      ensures Distinct(tracks)
      ensures ViewOf(tracks) == old(ViewOf(tracks)) + Newborns(dets, unmatched)
      ensures forall i | 0 <= i < |tracks| :: tracks[i] in old(tracks) || fresh(tracks[i])
    {
      hide Born, Newborns, TrackObject.View;
      ghost var before, born := ViewOf(tracks), Newborns(dets, unmatched);
      for n := 0 to |unmatched|
        invariant Distinct(tracks)
        invariant ViewOf(tracks) == before + born[..n]
        invariant forall i | 0 <= i < |tracks| :: tracks[i] in old(tracks) || fresh(tracks[i])
      {
        var t := new TrackObject(dets[unmatched[n]]);
        assert ViewOf(tracks + [t]) == ViewOf(tracks) + [t.View()];
        assert born[..n + 1] == born[..n] + [born[n]];
        tracks := tracks + [t];
      }
    }

    method Evict()
      requires Distinct(tracks)
      modifies this
      ensures Distinct(tracks) && ViewOf(tracks) == Kept(cfg, old(ViewOf(tracks)))
      ensures forall i | 0 <= i < |tracks| :: tracks[i] in old(tracks)
    {
      var kept: seq<TrackObject> := [];
      ghost var all := ViewOf(tracks);
      for i := 0 to |tracks|
        invariant ViewOf(kept) == Kept(cfg, all[..i])
        invariant Distinct(kept) && forall k | 0 <= k < |kept| :: kept[k] in tracks[..i]
      {
        assert all[..i + 1][..i] == all[..i];
        var t := tracks[i];
        assert t !in tracks[..i];
        if (!t.confirmed && t.missed == 0) || (t.confirmed && t.missed <= cfg.tolerance) {
          assert ViewOf(kept + [t]) == ViewOf(kept) + [t.View()];
          kept := kept + [t];
        }
      }
      assert all[..|tracks|] == all;
      tracks := kept;
    }

    method Emit() returns (results: seq<Emission>)
      ensures results == Emissions(ViewOf(tracks))
    {
      results := [];
      ghost var all := ViewOf(tracks);
      for i := 0 to |tracks|
        invariant results == Emissions(all[..i])
      {
        assert all[..i + 1][..i] == all[..i];
        var t := tracks[i];
        if t.confirmed {
          results := results + [Emission(t.last, t.missed > 0)];
        }
      }
      assert all[..|tracks|] == all;
    }

    /** One frame. */
    method UpdateTracks(dets: seq<Detection>) returns (results: seq<Emission>)
      requires Distinct(tracks)
      modifies this, tracks
      ensures Distinct(tracks)
      ensures ViewOf(tracks) == Update(cfg, old(ViewOf(tracks)), dets)
      ensures results == Emissions(ViewOf(tracks))
      ensures forall i | 0 <= i < |tracks| :: tracks[i] in old(tracks) || fresh(tracks[i])
    {
      hide Sweep, Kept, Emissions, Newborns;
      var unmatched := MatchTracks(dets);
      AddNewborns(dets, unmatched);
      Evict();
      results := Emit();
    }

    /** The object's runs are the runs of the model. */
    method UpdateThrough(frames: seq<seq<Detection>>) returns (results: seq<Emission>)
      requires tracks == []
      modifies this
      ensures ViewOf(tracks) == Run(cfg, frames)
      ensures frames != [] ==> results == Emissions(Run(cfg, frames))
    {
      hide Update, Emissions;
      results := [];
      for n := 0 to |frames|
        invariant Distinct(tracks) && fresh(tracks)
        invariant ViewOf(tracks) == Run(cfg, frames[..n])
        invariant n > 0 ==> results == Emissions(Run(cfg, frames[..n]))
      {
        assert frames[..n + 1][..n] == frames[..n];
        results := UpdateTracks(frames[n]);
      }
      assert frames[..|frames|] == frames;
    }
  }

  lemma InBounds(s: seq<nat>, n: nat, i: nat)
    requires InRange(s, n) && i < |s|
    ensures s[i] < n
  {
  }

  // ---- what the match compares ----

  /** A thousand times the overlap, less the distance in pixels. */
  function Milliscore(cfg: Config, t: Track, d: Detection): real {
    1000.0 * Iou(t.box, d.box) - cfg.dist(t.center, d.center)
  }

  /** A detection of the track's class that overlaps it enough or lies near enough. */
  predicate Eligible(cfg: Config, t: Track, d: Detection) {
    t.classId == d.classId && (cfg.minIou <= Iou(t.box, d.box) || cfg.dist(t.center, d.center) <= cfg.maxDistance)
  }

  /** The detection a track takes is eligible, of the largest score among the eligible ones, and that above
      -1000; it takes none exactly when no eligible one is. */
  lemma MatchIsBest(cfg: Config, t: Track, dets: seq<Detection>, unmatched: seq<nat>)
    requires InRange(unmatched, |dets|)
    ensures match Seek(cfg, t, dets, unmatched, |unmatched|).0
            case None => forall i | 0 <= i < |unmatched| && Eligible(cfg, t, dets[unmatched[i]]) ::
                           Milliscore(cfg, t, dets[unmatched[i]]) <= -1000.0
            case Some(k) =>
              && k < |unmatched| && Eligible(cfg, t, dets[unmatched[k]])
              && Milliscore(cfg, t, dets[unmatched[k]]) > -1000.0
              && forall i | 0 <= i < |unmatched| && Eligible(cfg, t, dets[unmatched[i]]) ::
                   Milliscore(cfg, t, dets[unmatched[i]]) <= Milliscore(cfg, t, dets[unmatched[k]])
  {
    hide Iou, Seek;
    SeekExactly(cfg, t, dets, unmatched, |unmatched|);
    var (best, score) := Seek(cfg, t, dets, unmatched, |unmatched|);
    forall i | 0 <= i < |unmatched| && Eligible(cfg, t, dets[unmatched[i]])
      ensures ScoreAt(cfg, t, dets, unmatched, i) <= score
    {
      assert Offers(cfg, t, dets, unmatched, i);
    }
  }

  // ---- how far a track follows ----

  /** The coordinate is the one pixel step at or below the point a share of the way to the detection. */
  predicate StepsTo(x: int, new_: int, old_: int, share: real) {
    old_ >= 0 && new_ >= 0 ==>
      x as real <= old_ as real + share * (new_ as real - old_ as real) < x as real + 1.0
  }

  /** Confidence and distance move by exactly the weight's share of the way, coordinates by the whole pixels
      of it. */
  lemma FollowMoves(cfg: Config, t: Track, d: Detection)
    requires 0.0 <= cfg.alpha <= 1.0
    ensures var u := Follow(cfg, t, d);
            && u.confidence - t.confidence == cfg.alpha * (d.confidence - t.confidence)
            && u.distance - t.distance == cfg.alpha * (d.distance - t.distance)
            && StepsTo(u.box.x, d.box.x, t.box.x, cfg.alpha) && StepsTo(u.box.y, d.box.y, t.box.y, cfg.alpha)
            && StepsTo(u.box.w, d.box.w, t.box.w, cfg.alpha) && StepsTo(u.box.h, d.box.h, t.box.h, cfg.alpha)
            && StepsTo(u.center.u, d.center.u, t.center.u, cfg.alpha) && StepsTo(u.center.v, d.center.v, t.center.v, cfg.alpha)
            && u.classId == t.classId && u.last == d && u.hits == t.hits + 1 && u.missed == 0
  {
    hide Blend, StepsTo, Mean;
    MeanShare(cfg.alpha, d.confidence, t.confidence);
    MeanShare(cfg.alpha, d.distance, t.distance);
    BlendSteps(cfg.alpha, d.box.x, t.box.x);
    BlendSteps(cfg.alpha, d.box.y, t.box.y);
    BlendSteps(cfg.alpha, d.box.w, t.box.w);
    BlendSteps(cfg.alpha, d.box.h, t.box.h);
    BlendSteps(cfg.alpha, d.center.u, t.center.u);
    BlendSteps(cfg.alpha, d.center.v, t.center.v);
  }

  lemma MeanShare(alpha: real, x: real, y: real)
    ensures Mean(alpha, x, y) == y + alpha * (x - y)
  {
    MeanForms(alpha, x, y);
  }

  lemma BlendSteps(alpha: real, new_: int, old_: int)
    requires 0.0 <= alpha <= 1.0
    ensures StepsTo(Blend(alpha, new_, old_), new_, old_, alpha)
  {
    hide Mean, Truncate;
    MeanShare(alpha, new_ as real, old_ as real);
    if old_ >= 0 && new_ >= 0 {
      MeanBetween(alpha, new_ as real, old_ as real);
      TruncateSteps(Mean(alpha, new_ as real, old_ as real));
    }
  }

  lemma TruncateSteps(r: real)
    requires r >= 0.0
    ensures Truncate(r) as real <= r < Truncate(r) as real + 1.0
  {
  }
}
