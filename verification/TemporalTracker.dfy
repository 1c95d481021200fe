/** The temporal voting tracker (src/gp4_perception/gp4_perception/temporal_tracker.py). */
module TemporalTracker {
  import opened Wrappers
  import opened Counting

  datatype Point = Point(x: real, y: real, z: real)

  /** One detection with the data that travels with it. */
  datatype Item = Item(classId: string, centroid: Point, detection: nat, userData: nat)

  /** The norm of the difference is a parameter: only its order matters here. */
  datatype Config = Config(window: nat, minHits: int, jitter: real, tolerance: int, dist: (Point, Point) -> real)

  /** A track, with the hits and misses of its whole life beside the bounded window. */
  datatype Track = Track(classId: string, centroid: Point, hits: seq<bool>, last: Option<Item>,
                         missed: nat, confirmed: bool, history: seq<bool>)

  datatype Emission = Emission(item: Item, score: real)

  // ---- one frame ----

  predicate Eligible(ts: seq<Track>, matched: set<nat>, item: Item, i: nat) {
    i < |ts| && ts[i].classId == item.classId && i !in matched
  }

  /** The search over the first n tracks: the best so far and its distance. */
  function Search(cfg: Config, ts: seq<Track>, matched: set<nat>, item: Item, n: nat): (Option<nat>, real)
    requires n <= |ts|
  {
    if n == 0 then (None, cfg.jitter)
    else
      var (best, bestDist) := Search(cfg, ts, matched, item, n - 1);
      if !Eligible(ts, matched, item, n - 1) then (best, bestDist)
      else
        var d := cfg.dist(ts[n - 1].centroid, item.centroid);
        if d <= bestDist then (Some(n - 1), d) else (best, bestDist)
  }

  function Match(cfg: Config, ts: seq<Track>, matched: set<nat>, item: Item): Option<nat> {
    Search(cfg, ts, matched, item, |ts|).0
  }

  function Born(item: Item): Track {
    Track(item.classId, item.centroid, [], None, 0, false, [])
  }

  function Touch(t: Track, item: Item): Track {
    t.(centroid := item.centroid, last := Some(item), missed := 0, hits := t.hits + [true], history := t.history + [true])
  }

  function Miss(t: Track): Track {
    t.(hits := t.hits + [false], missed := t.missed + 1, history := t.history + [false])
  }

  function Absorb(cfg: Config, ts: seq<Track>, matched: set<nat>, item: Item): (seq<Track>, set<nat>) {
    match Match(cfg, ts, matched, item)
    case Some(k) => if k < |ts| then (ts[k := Touch(ts[k], item)], matched + {k}) else (ts, matched)
    case None => (ts + [Touch(Born(item), item)], matched + {|ts|})
  }

  function AbsorbAll(cfg: Config, ts: seq<Track>, items: seq<Item>): (seq<Track>, set<nat>) {
    if items == [] then (ts, {})
    else
      var (us, matched) := AbsorbAll(cfg, ts, items[..|items| - 1]);
      Absorb(cfg, us, matched, items[|items| - 1])
  }

  function LastN(s: seq<bool>, n: nat): seq<bool> {
    if |s| <= n then s else s[|s| - n..]
  }

  /** What the rest of the frame does to one track. */
  function Settle(cfg: Config, t: Track): Track {
    var trimmed := t.(hits := LastN(t.hits, cfg.window));
    trimmed.(confirmed := t.confirmed || Sum(trimmed.hits) >= cfg.minHits)
  }

  predicate Alive(cfg: Config, t: Track) {
    || (t.confirmed && t.missed <= cfg.tolerance)
    || (!t.confirmed && Sum(t.hits) > 0)
  }

  function Aged(ts: seq<Track>, matched: set<nat>): (us: seq<Track>)
    ensures |us| == |ts|
    ensures forall i | 0 <= i < |ts| :: us[i] == if i in matched then ts[i] else Miss(ts[i])
  {
    seq(|ts|, i requires 0 <= i < |ts| => if i in matched then ts[i] else Miss(ts[i]))
  }

  function Settled(cfg: Config, ts: seq<Track>): (us: seq<Track>)
    ensures |us| == |ts|
    ensures forall i | 0 <= i < |ts| :: us[i] == Settle(cfg, ts[i])
  {
    seq(|ts|, i requires 0 <= i < |ts| => Settle(cfg, ts[i]))
  }

  function Survivors(cfg: Config, ts: seq<Track>): seq<Track> {
    if ts == [] then []
    else
      var rest := Survivors(cfg, ts[..|ts| - 1]);
      if Alive(cfg, ts[|ts| - 1]) then rest + [ts[|ts| - 1]] else rest
  }

  function Update(cfg: Config, ts: seq<Track>, items: seq<Item>): seq<Track> {
    var (us, matched) := AbsorbAll(cfg, ts, items);
    Survivors(cfg, Settled(cfg, Aged(us, matched)))
  }

  function Emissions(cfg: Config, ts: seq<Track>): seq<Emission>
    requires cfg.window > 0
  {
    if ts == [] then []
    else
      var rest := Emissions(cfg, ts[..|ts| - 1]);
      var t := ts[|ts| - 1];
      if t.confirmed && t.last.Some? then
        rest + [Emission(t.last.value, Sum(t.hits) as real / cfg.window as real)]
      else rest
  }

  // ---- the match ----

  /** `_match` finds the nearest eligible track within the jitter radius, the youngest of several
      at the same distance; it finds none exactly when no eligible track is near enough. */
  lemma {:induction false} SearchExactly(cfg: Config, ts: seq<Track>, matched: set<nat>, item: Item, n: nat)
    requires n <= |ts|
    ensures var (best, bestDist) := Search(cfg, ts, matched, item, n);
            match best
            case None => bestDist == cfg.jitter &&
                         forall i: nat | i < n
                             && Eligible(ts, matched, item, i) :: cfg.dist(ts[i].centroid, item.centroid) > cfg.jitter
            case Some(k) =>
              && k < n && Eligible(ts, matched, item, k)
              && bestDist == cfg.dist(ts[k].centroid, item.centroid) <= cfg.jitter
              && (forall i: nat | i < n
                  && Eligible(ts, matched, item, i) :: bestDist <= cfg.dist(ts[i].centroid, item.centroid))
              && (forall i: nat | k < i < n
                  && Eligible(ts, matched, item, i) :: bestDist < cfg.dist(ts[i].centroid, item.centroid))
  {
    if n > 0 {
      SearchExactly(cfg, ts, matched, item, n - 1);
    }
  }

  // ---- each detection is taken by exactly one track ----

  /** The state in the middle of a frame that has absorbed some items. */
  ghost predicate Absorbed(ts: seq<Track>, items: seq<Item>, us: seq<Track>, matched: set<nat>) {
    && |ts| <= |us|
    && |matched| == |items|
    && (forall i | i in matched :: i < |us| && us[i].missed == 0)
    && (forall i | |ts| <= i < |us| :: i in matched)
    && (forall i | 0 <= i < |ts| && i !in matched :: us[i] == ts[i])
  }

  lemma AbsorbedSnoc(ts: seq<Track>, items: seq<Item>, vs: seq<Track>, before: set<nat>, item: Item, k: nat,
                     us: seq<Track>)
    requires items != [] && Absorbed(ts, items[..|items| - 1], vs, before)
    requires k !in before && k <= |vs|
    requires if k < |vs| then us == vs[k := Touch(vs[k], item)] else us == vs + [Touch(Born(item), item)]
    ensures Absorbed(ts, items, us, before + {k})
  {
    hide Touch, Born;
    TouchedZero(if k < |vs| then vs[k] else Born(item), item);
  }

  /** Every item touches exactly one track, and no track is touched twice in a frame. */
  lemma {:induction false} AbsorbAllCore(cfg: Config, ts: seq<Track>, items: seq<Item>)
    ensures var (us, matched) := AbsorbAll(cfg, ts, items); Absorbed(ts, items, us, matched)
    decreases |items|
  {
    hide Absorbed, Match, Touch, Born;
    if items != [] {
      var front, item := items[..|items| - 1], items[|items| - 1];
      AbsorbAllCore(cfg, ts, front);
      var (vs, before) := AbsorbAll(cfg, ts, front);
      var (us, matched) := AbsorbAll(cfg, ts, items);
      MatchIsEligible(cfg, vs, before, item);
      BeforeIsListed(ts, front, vs, before);
      var m := Match(cfg, vs, before, item);
      AbsorbedSnoc(ts, items, vs, before, item, if m.Some? then m.value else |vs|, us);
    } else {
      AbsorbedNothing(ts);
    }
  }

  lemma BeforeIsListed(ts: seq<Track>, items: seq<Item>, us: seq<Track>, matched: set<nat>)
    requires Absorbed(ts, items, us, matched)
    ensures |us| !in matched
  {
  }

  lemma AbsorbedNothing(ts: seq<Track>)
    ensures Absorbed(ts, [], ts, {})
  {
  }

  lemma MatchIsEligible(cfg: Config, ts: seq<Track>, matched: set<nat>, item: Item)
    ensures var m := Match(cfg, ts, matched, item); m.Some? ==> m.value < |ts| && m.value !in matched
  {
    SearchExactly(cfg, ts, matched, item, |ts|);
  }

  lemma TouchedZero(t: Track, item: Item)
    ensures Touch(t, item).missed == 0
  {
  }

  function MissedOf(ts: seq<Track>): (s: seq<nat>)
    ensures |s| == |ts|
    ensures forall i | 0 <= i < |ts| :: s[i] == ts[i].missed
  {
    seq(|ts|, i requires 0 <= i < |ts| => ts[i].missed)
  }

  lemma SettledMisses(cfg: Config, us: seq<Track>, matched: set<nat>, i: nat)
    requires i < |us|
    ensures Settled(cfg, Aged(us, matched))[i].missed == us[i].missed + if i in matched then 0 else 1
  {
    hide Sum, LastN;
  }

  /** Before eviction, exactly as many tracks have no miss as the frame had items, and a track with
      m + 1 misses had m before the frame. */
  lemma FrameCounts(cfg: Config, ts: seq<Track>, items: seq<Item>, m: nat)
    ensures var (us, matched) := AbsorbAll(cfg, ts, items);
            var vs := Settled(cfg, Aged(us, matched));
            && Occurrences(MissedOf(vs), 0) == |items|
            && Occurrences(MissedOf(vs), m + 1) <= Occurrences(MissedOf(ts), m)
  {
    hide Settle, AbsorbAll, Occurrences;
    AbsorbAllCore(cfg, ts, items);
    var (us, matched) := AbsorbAll(cfg, ts, items);
    var vs := Settled(cfg, Aged(us, matched));
    forall i | 0 <= i < |us| ensures vs[i].missed == us[i].missed + if i in matched then 0 else 1 {
      SettledMisses(cfg, us, matched, i);
    }
    AtPositions(MissedOf(vs), 0, matched);
    Dominated(MissedOf(vs), m + 1, MissedOf(ts), m);
  }

  lemma {:induction false} SurvivorsCount(cfg: Config, ts: seq<Track>, m: nat)
    ensures Occurrences(MissedOf(Survivors(cfg, ts)), m) <= Occurrences(MissedOf(ts), m)
    ensures forall t | t in Survivors(cfg, ts) :: t in ts && Alive(cfg, t)
    decreases |ts|
  {
    hide Alive;
    if ts != [] {
      var front, last := ts[..|ts| - 1], ts[|ts| - 1];
      assert ts == front + [last];
      SurvivorsCount(cfg, front, m);
      var rest := Survivors(cfg, front);
      assert MissedOf(ts)[..|front|] == MissedOf(front);
      assert MissedOf(rest + [last])[..|rest|] == MissedOf(rest);
    }
  }

  // ---- runs ----

  function Run(cfg: Config, frames: seq<seq<Item>>): seq<Track> {
    if frames == [] then [] else Update(cfg, Run(cfg, frames[..|frames| - 1]), frames[|frames| - 1])
  }

  /** Some window of the history, ending at one of its frames, held enough hits. */
  predicate OnceEnough(cfg: Config, history: seq<bool>) {
    exists j | 0 < j <= |history| :: EnoughAt(cfg, history, j)
  }

  predicate EnoughAt(cfg: Config, history: seq<bool>, j: nat)
    requires j <= |history|
  {
    Sum(LastN(history[..j], cfg.window)) >= cfg.minHits
  }

  /** What a track's fields say about its whole life. */
  ghost predicate Faithful(cfg: Config, t: Track) {
    && t.history != [] && t.history[0] && t.last.Some?
    && t.last.value.classId == t.classId && t.last.value.centroid == t.centroid
    && t.hits == LastN(t.history, cfg.window)
    && t.missed == TrailingMisses(t.history)
    && (t.confirmed <==> OnceEnough(cfg, t.history))
  }

  lemma LastNSnoc(s: seq<bool>, b: bool, n: nat)
    ensures LastN(LastN(s, n) + [b], n) == LastN(s + [b], n)
  {
    if |s| > n > 0 {
      assert LastN(s, n)[1..] == s[|s| - n + 1..];
    }
  }

  lemma OnceEnoughSnoc(cfg: Config, history: seq<bool>, b: bool)
    ensures OnceEnough(cfg, history + [b])
       <==> OnceEnough(cfg, history) || Sum(LastN(history + [b], cfg.window)) >= cfg.minHits
  {
    hide Sum, LastN;
    var longer := history + [b];
    assert longer[..|longer|] == longer;
    forall j | 0 < j <= |history| ensures EnoughAt(cfg, longer, j) <==> EnoughAt(cfg, history, j) {
      assert longer[..j] == history[..j];
    }
    if OnceEnough(cfg, history) {
      var j :| 0 < j <= |history| && EnoughAt(cfg, history, j);
      assert EnoughAt(cfg, longer, j);
    }
    assert EnoughAt(cfg, longer, |longer|) <==> Sum(LastN(longer, cfg.window)) >= cfg.minHits;
    if OnceEnough(cfg, longer) {
      var j :| 0 < j <= |longer| && EnoughAt(cfg, longer, j);
      assert j < |longer| ==> EnoughAt(cfg, history, j);
    }
  }

  lemma TouchFaithful(cfg: Config, t: Track, item: Item)
    requires Faithful(cfg, t) || t == Born(item)
    requires t.classId == item.classId
    ensures Faithful(cfg, Settle(cfg, Touch(t, item)))
  {
    hide Sum, OnceEnough;
    LastNSnoc(t.history, true, cfg.window);
    assert t == Born(item) ==> !OnceEnough(cfg, t.history) by { NeverEnough(cfg); }
    OnceEnoughSnoc(cfg, t.history, true);
  }

  lemma NeverEnough(cfg: Config)
    ensures !OnceEnough(cfg, [])
  {
  }

  lemma MissFaithful(cfg: Config, t: Track)
    requires Faithful(cfg, t)
    ensures Faithful(cfg, Settle(cfg, Miss(t)))
  {
    hide Sum, OnceEnough;
    LastNSnoc(t.history, false, cfg.window);
    OnceEnoughSnoc(cfg, t.history, false);
    assert (t.history + [false])[..|t.history|] == t.history;
  }

  /** Items only touch tracks of their own class. */
  lemma {:induction false} AbsorbClasses(cfg: Config, ts: seq<Track>, items: seq<Item>, i: nat)
    requires i < |AbsorbAll(cfg, ts, items).0|
    ensures var (us, matched) := AbsorbAll(cfg, ts, items);
            i in matched ==>
              if i < |ts| then exists item: Item :: item.classId == ts[i].classId && us[i] == Touch(ts[i], item)
              else exists item :: us[i] == Touch(Born(item), item)
    decreases |items|
  {
    hide Search;
    if items != [] {
      var front, item := items[..|items| - 1], items[|items| - 1];
      var (vs, before) := AbsorbAll(cfg, ts, front);
      AbsorbAllCore(cfg, ts, front);
      SearchExactly(cfg, vs, before, item, |vs|);
      if i < |vs| {
        AbsorbClasses(cfg, ts, front, i);
      }
      var (us, matched) := AbsorbAll(cfg, ts, items);
      if i in matched && i !in before {
        assert us[i] == Touch(if i < |ts| then ts[i] else Born(item), item);
      }
    }
  }

  /** After every frame each live track tells the truth about its life: its bounded window is the
      end of its full history, its miss counter the trailing misses, and it is confirmed exactly
      when some window it ever had held enough hits. */
  lemma {:induction false} TracksAreFaithful(cfg: Config, frames: seq<seq<Item>>)
    ensures forall t | t in Run(cfg, frames) :: Faithful(cfg, t) && Alive(cfg, t)
    decreases |frames|
  {
    hide Faithful, Alive, Settle, Absorbed;
    if frames != [] {
      var front, items := frames[..|frames| - 1], frames[|frames| - 1];
      TracksAreFaithful(cfg, front);
      var ts := Run(cfg, front);
      var (us, matched) := AbsorbAll(cfg, ts, items);
      var vs := Settled(cfg, Aged(us, matched));
      SurvivorsCount(cfg, vs, 0);
      forall i | 0 <= i < |vs| ensures Faithful(cfg, vs[i]) {
        FrameKeepsFaith(cfg, ts, items, i);
      }
    }
  }

  lemma FrameKeepsFaith(cfg: Config, ts: seq<Track>, items: seq<Item>, i: nat)
    requires forall t | t in ts :: Faithful(cfg, t)
    requires i < |AbsorbAll(cfg, ts, items).0|
    ensures var (us, matched) := AbsorbAll(cfg, ts, items); Faithful(cfg, Settled(cfg, Aged(us, matched))[i])
  {
    hide Faithful, Settle, Touch, Miss;
    AbsorbAllCore(cfg, ts, items);
    AbsorbClasses(cfg, ts, items, i);
    var (us, matched) := AbsorbAll(cfg, ts, items);
    if i !in matched {
      assert ts[i] in ts;
      MissFaithful(cfg, ts[i]);
    } else if i < |ts| {
      var item: Item :| item.classId == ts[i].classId && us[i] == Touch(ts[i], item);
      assert ts[i] in ts;
      TouchFaithful(cfg, ts[i], item);
    } else {
      var item :| us[i] == Touch(Born(item), item);
      TouchFaithful(cfg, Born(item), item);
    }
  }

  // ---- the memory bound ----

  /** The frames a live track can still remember. */
  function Horizon(cfg: Config): nat {
    if cfg.tolerance >= cfg.window then cfg.tolerance + 1 else cfg.window
  }

  lemma LastNMiss(front: seq<bool>, n: nat)
    ensures LastN(front + [false], n) == if n == 0 then [] else LastN(front, n - 1) + [false]
  {
  }

  lemma {:induction false} RecentHit(history: seq<bool>, n: nat)
    requires true in LastN(history, n)
    ensures TrailingMisses(history) < n
    decreases |history|
  {
    hide LastN;
    if history == [] || history[|history| - 1] {
      assert n > 0 by { SomethingLast(history, n); }
    } else {
      var front := history[..|history| - 1];
      assert history == front + [false];
      LastNMiss(front, n);
      RecentHit(front, n - 1);
    }
  }

  lemma SomethingLast(history: seq<bool>, n: nat)
    requires LastN(history, n) != []
    ensures n > 0 && history != []
  {
  }

  /** A live track was matched within the horizon. */
  lemma AliveWithinHorizon(cfg: Config, t: Track)
    requires Faithful(cfg, t) && Alive(cfg, t)
    ensures t.missed < Horizon(cfg)
  {
    if !t.confirmed {
      RecentHit(t.history, cfg.window);
    }
  }

  /** The number of items fed in each frame. */
  function Intake(frames: seq<seq<Item>>): (s: seq<nat>)
    ensures |s| == |frames|
    ensures forall n | 0 <= n < |frames| :: s[n] == |frames[n]|
  {
    seq(|frames|, n requires 0 <= n < |frames| => |frames[n]|)
  }

  lemma UpdateCounts(cfg: Config, ts: seq<Track>, items: seq<Item>, m: nat)
    ensures Occurrences(MissedOf(Update(cfg, ts, items)), 0) <= |items|
    ensures Occurrences(MissedOf(Update(cfg, ts, items)), m + 1) <= Occurrences(MissedOf(ts), m)
  {
    hide Occurrences, MissedOf, Settled, Aged, Survivors;
    var (us, matched) := AbsorbAll(cfg, ts, items);
    SurvivorsCount(cfg, Settled(cfg, Aged(us, matched)), 0);
    SurvivorsCount(cfg, Settled(cfg, Aged(us, matched)), m + 1);
    FrameCounts(cfg, ts, items, m);
  }

  /** At most as many tracks were last matched m frames ago as items were fed then. */
  lemma {:induction false} TracksAccounted(cfg: Config, frames: seq<seq<Item>>)
    ensures Accounted(MissedOf(Run(cfg, frames)), Intake(frames))
    decreases |frames|
  {
    hide Update, Accounted, Occurrences;
    if frames == [] {
      NothingAccounted([]);
    } else {
      var front, items := frames[..|frames| - 1], frames[|frames| - 1];
      var ts := Run(cfg, front);
      TracksAccounted(cfg, front);
      UpdateCounts(cfg, ts, items, 0);
      forall m: nat
        ensures Occurrences(MissedOf(Update(cfg, ts, items)), m + 1) <= Occurrences(MissedOf(ts), m)
      {
        UpdateCounts(cfg, ts, items, m);
      }
      AccountedNext(MissedOf(ts), Intake(front), MissedOf(Update(cfg, ts, items)), |items|);
      assert Intake(frames) == Intake(front) + [|items|];
    }
  }

  /** After every frame there are at most as many live tracks as items were fed within the
      horizon: the tracker's memory is bounded by its recent input. */
  lemma MemoryBound(cfg: Config, frames: seq<seq<Item>>)
    ensures |Run(cfg, frames)| <= IntakeWithin(Intake(frames), Horizon(cfg))
  {
    hide Run, Faithful, Alive, Horizon, IntakeWithin, Accounted;
    var ts := Run(cfg, frames);
    TracksAreFaithful(cfg, frames);
    forall x | x in MissedOf(ts) ensures x < Horizon(cfg) {
      var i :| 0 <= i < |ts| && MissedOf(ts)[i] == x;
      assert ts[i] in ts;
      AliveWithinHorizon(cfg, ts[i]);
    }
    TracksAccounted(cfg, frames);
    AgesBound(MissedOf(ts), Intake(frames), Horizon(cfg));
  }

  // ---- what is emitted ----

  lemma {:induction false} EmittedFrom(cfg: Config, ts: seq<Track>, e: Emission)
    requires cfg.window > 0
    ensures e in Emissions(cfg, ts) <==>
            exists t :: t in ts && t.confirmed && t.last == Some(e.item)
                && e.score == Sum(t.hits) as real / cfg.window as real
    decreases |ts|
  {
    hide Sum;
    if ts != [] {
      assert ts == ts[..|ts| - 1] + [ts[|ts| - 1]];
      EmittedFrom(cfg, ts[..|ts| - 1], e);
    }
  }

  lemma {:induction false} NothingConfirmed(cfg: Config, ts: seq<Track>)
    requires cfg.window > 0 && forall t | t in ts :: !t.confirmed
    ensures Emissions(cfg, ts) == []
    decreases |ts|
  {
    if ts != [] {
      NothingConfirmed(cfg, ts[..|ts| - 1]);
    }
  }

  /** A threshold above the window can never be reached: nothing is ever emitted. */
  lemma ThresholdAboveWindow(cfg: Config, frames: seq<seq<Item>>)
    requires cfg.minHits > cfg.window > 0
    ensures Emissions(cfg, Run(cfg, frames)) == []
  {
    hide Run, Alive, Emissions, Sum;
    TracksAreFaithful(cfg, frames);
    forall t | t in Run(cfg, frames) ensures !t.confirmed {
      assert !OnceEnough(cfg, t.history);
    }
    NothingConfirmed(cfg, Run(cfg, frames));
  }

  /** What is emitted after a frame: the latest detection of every live track that once had enough
      hits in a window, which has at most `tolerance` misses since, scored by its present window. */
  lemma EmittedExactly(cfg: Config, frames: seq<seq<Item>>, e: Emission)
    requires cfg.window > 0
    ensures e in Emissions(cfg, Run(cfg, frames)) <==>
            exists t :: t in Run(cfg, frames) && OnceEnough(cfg, t.history)
                && TrailingMisses(t.history) <= cfg.tolerance
                        && t.last == Some(e.item)
                        && e.score == Sum(LastN(t.history, cfg.window)) as real / cfg.window as real
  {
    hide Run, Emissions, Sum, OnceEnough, LastN, TrailingMisses;
    TracksAreFaithful(cfg, frames);
    EmittedFrom(cfg, Run(cfg, frames), e);
  }

  /** Scoring a frame divides by the window: it raises when the window is zero and something is to be
      emitted. */
  ghost predicate Divides(cfg: Config, ts: seq<Track>) {
    cfg.window == 0 && exists t :: t in ts && t.confirmed && t.last.Some?
  }

  /** With a window of zero some run raises exactly when the hit threshold is not positive and a track
      that was just matched is tolerated; otherwise nothing is ever emitted. */
  lemma ZeroWindowExactly(cfg: Config)
    requires cfg.window == 0
    ensures (exists frames :: Divides(cfg, Run(cfg, frames))) <==> cfg.minHits <= 0 && cfg.tolerance >= 0
  {
    hide Run, Alive, Sum, TrailingMisses;
    forall frames | Divides(cfg, Run(cfg, frames)) ensures cfg.minHits <= 0 && cfg.tolerance >= 0 {
      TracksAreFaithful(cfg, frames);
      var t :| t in Run(cfg, frames) && t.confirmed && t.last.Some?;
      var j :| 0 < j <= |t.history| && EnoughAt(cfg, t.history, j);
      NothingInZero(t.history[..j]);
      assert Alive(cfg, t);
      ConfirmedIsTolerated(cfg, t);
    }
    if cfg.minHits <= 0 && cfg.tolerance >= 0 {
      var item := Item("", Point(0.0, 0.0, 0.0), 0, 0);
      FirstMatchStays(cfg, item);
      SomeRunDivides(cfg, [[item]]);
    }
  }

  lemma SomeRunDivides(cfg: Config, frames: seq<seq<Item>>)
    requires Divides(cfg, Run(cfg, frames))
    ensures exists f :: Divides(cfg, Run(cfg, f))
  {
  }

  lemma NothingInZero(s: seq<bool>)
    ensures Sum(LastN(s, 0)) == 0
  {
  }

  lemma ConfirmedIsTolerated(cfg: Config, t: Track)
    requires Alive(cfg, t) && t.confirmed
    ensures cfg.tolerance >= 0
  {
  }

  lemma FirstAbsorb(cfg: Config, item: Item)
    ensures AbsorbAll(cfg, [], [item]) == ([Touch(Born(item), item)], {0})
  {
    hide Touch, Born;
    var none: seq<Track> := [];
    var nobody: set<nat> := {};
    assert [item][..0] == [];
    assert none + [Touch(Born(item), item)] == [Touch(Born(item), item)] && nobody + {|none|} == {0};
    assert Match(cfg, none, nobody, item) == None;
    assert Absorb(cfg, none, nobody, item) == ([Touch(Born(item), item)], {0});
  }

  lemma OneSurvivor(cfg: Config, t: Track)
    requires Alive(cfg, t)
    ensures Survivors(cfg, [t]) == [t]
  {
    hide Alive;
    assert [t][..0] == [];
  }

  lemma OneSettled(cfg: Config, t: Track)
    ensures Settled(cfg, Aged([t], {0})) == [Settle(cfg, t)]
  {
    hide Settle, Miss;
  }

  lemma FirstRun(cfg: Config, item: Item)
    requires Alive(cfg, Settle(cfg, Touch(Born(item), item)))
    ensures Run(cfg, [[item]]) == [Settle(cfg, Touch(Born(item), item))]
  {
    hide Alive, Settle, Touch, Born, AbsorbAll, Settled, Aged, Survivors;
    assert [[item]][..0] == [];
    FirstAbsorb(cfg, item);
    OneSettled(cfg, Touch(Born(item), item));
    OneSurvivor(cfg, Settle(cfg, Touch(Born(item), item)));
  }

  lemma FirstMatchStays(cfg: Config, item: Item)
    requires cfg.window == 0 && cfg.minHits <= 0 && cfg.tolerance >= 0
    ensures Divides(cfg, Run(cfg, [[item]]))
  {
    hide Run;
    var t := Settle(cfg, Touch(Born(item), item));
    NothingInZero(Touch(Born(item), item).hits);
    FirstRun(cfg, item);
    assert t in Run(cfg, [[item]]);
  }

  // ---- the tracker as the node runs it ----

  /** What a frame returns, or the exception that leaves it. */
  datatype Frame = Shown(emissions: seq<Emission>) | ZeroDivision | PopFromEmpty

  class TrackObject {
    const classId: string
    var centroid: Point
    var hits: seq<bool>
    var lastDetection: Option<Item>
    var missedFrames: nat
    var confirmed: bool
    ghost var history: seq<bool>

    ghost function View(): Track
      reads this
    {
      Track(classId, centroid, hits, lastDetection, missedFrames, confirmed, history)
    }

    constructor (item: Item)
      ensures View() == Born(item)
    {
      classId, centroid := item.classId, item.centroid;
      hits, lastDetection, missedFrames, confirmed, history := [], None, 0, false, [];
    }

    method RecordHit(item: Item)
      modifies this
      ensures View() == Touch(old(View()), item)
    {
      centroid := item.centroid;
      lastDetection := Some(item);
      missedFrames := 0;
      hits := hits + [true];
      history := history + [true];
    }

    method RecordMiss()
      modifies this
      ensures View() == Miss(old(View()))
    {
      hits := hits + [false];
      missedFrames := missedFrames + 1;
      history := history + [false];
    }

    /** Pops from the front down to the window; below zero that empties the deque and pops once more. */
    method Trim(window: int) returns (ok: bool)
      modifies this
      ensures ok <==> window >= 0
      ensures View() == old(View()).(hits := if window >= 0 then LastN(old(hits), window) else [])
    {
      while |hits| > window
        invariant View() == old(View()).(hits := hits)
        invariant |hits| <= |old(hits)| && hits == old(hits)[|old(hits)| - |hits|..]
        invariant |hits| >= window || hits == old(hits)
        decreases |hits|
      {
        if hits == [] {
          return false;
        }
        hits := hits[1..];
      }
      return true;
    }

    method ConfirmIfEnough(minHits: int)
      modifies this
      ensures View() == old(View()).(confirmed := old(confirmed) || Sum(old(hits)) >= minHits)
    {
      if Sum(hits) >= minHits {
        confirmed := true;
      }
    }
  }

  ghost function ViewOf(objects: seq<TrackObject>): (ts: seq<Track>)
    reads objects
    ensures |ts| == |objects|
    ensures forall i | 0 <= i < |objects| :: ts[i] == objects[i].View()
  {
    seq(|objects|, i requires 0 <= i < |objects| reads objects => objects[i].View())
  }

  ghost predicate Distinct(objects: seq<TrackObject>) {
    forall i, j | 0 <= i < j < |objects| :: objects[i] != objects[j]
  }

  /** The identities in a set are those at the given positions. */
  ghost predicate SamePlaces(objects: seq<TrackObject>, matched: set<TrackObject>, positions: set<nat>) {
    && (forall i | 0 <= i < |objects| :: objects[i] in matched <==> i in positions)
    && (forall t | t in matched :: t in objects)
    && (forall i | i in positions :: i < |objects|)
  }

  /** What a frame makes of its live tracks: their emissions, or the division that scoring one raises. */
  ghost function Reported(cfg: Config, ts: seq<Track>): Frame {
    if cfg.window > 0 then Shown(Emissions(cfg, ts)) else if Divides(cfg, ts) then ZeroDivision else Shown([])
  }

  function FirstEmptied(ts: seq<Track>): seq<Track> {
    if ts == [] then [] else [ts[0].(hits := [])] + ts[1..]
  }

  lemma NoneSurvives(cfg: Config)
    ensures Survivors(cfg, Settled(cfg, [])) == []
  {
  }

  class Tracker {
    const windowFrames: int
    const minHits: int
    const jitter: real
    const tolerance: int
    const dist: (Point, Point) -> real
    /** The model's configuration; with a window below zero no frame with a track gets past its trim. */
    const cfg: Config := Config(if windowFrames < 0 then 0 else windowFrames, minHits, jitter, tolerance, dist)
    var tracks: seq<TrackObject>

    constructor (windowFrames: int, minHits: int, jitter: real, tolerance: int, dist: (Point, Point) -> real)
      ensures this.windowFrames == windowFrames && this.minHits == minHits && this.jitter == jitter
      ensures this.tolerance == tolerance && this.dist == dist && tracks == []
    {
      this.windowFrames, this.minHits, this.jitter := windowFrames, minHits, jitter;
      this.tolerance, this.dist := tolerance, dist;
      tracks := [];
    }

    method MatchTrack(item: Item, matched: set<TrackObject>, ghost positions: set<nat>) returns (best: TrackObject?)
      requires SamePlaces(tracks, matched, positions)
      ensures match Match(cfg, ViewOf(tracks), positions, item)
              case None => best == null
              case Some(k) => k < |tracks| && best == tracks[k] && k !in positions
    {
      best := null;
      var bestDist := cfg.jitter;
      ghost var ts := ViewOf(tracks);
      ghost var k: Option<nat> := None;
      for i := 0 to |tracks|
        invariant (k, bestDist) == Search(cfg, ts, positions, item, i)
        invariant match k case None => best == null case Some(j) => j < i && best == tracks[j] && j !in positions
      {
        var track := tracks[i];
        if track.classId == item.classId && track !in matched {
          var dist := cfg.dist(track.centroid, item.centroid);
          if dist <= bestDist {
            best, bestDist, k := track, dist, Some(i);
          }
        }
      }
    }

    method AbsorbItem(item: Item, matched: set<TrackObject>, ghost positions: set<nat>)
      returns (track: TrackObject, ghost position: nat)
      requires Distinct(tracks) && SamePlaces(tracks, matched, positions)
      modifies this, tracks
      ensures Distinct(tracks) && SamePlaces(tracks, matched + {track}, positions + {position})
      ensures (ViewOf(tracks), positions + {position}) == Absorb(cfg, old(ViewOf(tracks)), positions, item)
      ensures forall i | 0 <= i < |tracks| :: tracks[i] in old(tracks) || fresh(tracks[i])
    {
      hide Match, Touch, Born;
      ghost var before := ViewOf(tracks);
      var found := MatchTrack(item, matched, positions);
      if found == null {
        track := new TrackObject(item);
        position := |tracks|;
        tracks := tracks + [track];
      } else {
        track := found;
        position := Match(cfg, before, positions, item).value;
      }
      track.RecordHit(item);
      assert ViewOf(tracks) == if position < |before| then before[position := Touch(before[position], item)]
                               else before + [Touch(Born(item), item)];
    }

    method AbsorbItems(items: seq<Item>) returns (matched: set<TrackObject>, ghost positions: set<nat>)
      requires Distinct(tracks)
      modifies this, tracks
      ensures Distinct(tracks) && SamePlaces(tracks, matched, positions)
      ensures (ViewOf(tracks), positions) == AbsorbAll(cfg, old(ViewOf(tracks)), items)
      ensures forall i | 0 <= i < |tracks| :: tracks[i] in old(tracks) || fresh(tracks[i])
    {
      hide Absorb;
      matched, positions := {}, {};
      for n := 0 to |items|
        invariant Distinct(tracks) && SamePlaces(tracks, matched, positions)
        invariant (ViewOf(tracks), positions) == AbsorbAll(cfg, old(ViewOf(tracks)), items[..n])
        invariant forall i | 0 <= i < |tracks| :: tracks[i] in old(tracks) || fresh(tracks[i])
      {
        assert items[..n + 1][..n] == items[..n];
        var track, position := AbsorbItem(items[n], matched, positions);
        matched, positions := matched + {track}, positions + {position};
      }
      assert items[..|items|] == items;
    }

    method MissUnmatched(matched: set<TrackObject>, ghost positions: set<nat>)
      requires Distinct(tracks) && SamePlaces(tracks, matched, positions)
      modifies tracks
      ensures ViewOf(tracks) == Aged(old(ViewOf(tracks)), positions)
    {
      for i := 0 to |tracks|
        invariant forall j | i <= j < |tracks| :: tracks[j].View() == old(ViewOf(tracks))[j]
        invariant forall j | 0 <= j < i ::
                    tracks[j].View() == var t := old(ViewOf(tracks))[j]; if j in positions then t else Miss(t)
      {
        if tracks[i] !in matched {
          tracks[i].RecordMiss();
        }
      }
    }

    /** Below zero the first track's trim raises and the others are not reached. */
    method TrimWindows() returns (ok: bool)
      requires Distinct(tracks)
      modifies tracks
      ensures ok <==> windowFrames >= 0 || tracks == []
      ensures ok ==>
                forall j | 0 <= j < |tracks| ::
                  tracks[j].View() == var t := old(ViewOf(tracks))[j]; t.(hits := LastN(t.hits, cfg.window))
      ensures !ok ==> ViewOf(tracks) == FirstEmptied(old(ViewOf(tracks)))
    {
      hide LastN;
      for i := 0 to |tracks|
        invariant i > 0 ==> windowFrames >= 0
        invariant forall j | i <= j < |tracks| :: tracks[j].View() == old(ViewOf(tracks))[j]
        invariant forall j | 0 <= j < i ::
                    tracks[j].View() == var t := old(ViewOf(tracks))[j]; t.(hits := LastN(t.hits, cfg.window))
      {
        var trimmed := tracks[i].Trim(windowFrames);
        if !trimmed {
          return false;
        }
      }
      return true;
    }

    method ConfirmTracks()
      requires Distinct(tracks)
      modifies tracks
      ensures forall j | 0 <= j < |tracks| ::
                tracks[j].View() == var t := old(ViewOf(tracks))[j]; t.(confirmed := t.confirmed || Sum(t.hits) >= cfg.minHits)
    {
      hide Sum;
      for i := 0 to |tracks|
        invariant forall j | i <= j < |tracks| :: tracks[j].View() == old(ViewOf(tracks))[j]
        invariant forall j | 0 <= j < i ::
                    tracks[j].View() == var t := old(ViewOf(tracks))[j]; t.(confirmed := t.confirmed || Sum(t.hits) >= cfg.minHits)
      {
        tracks[i].ConfirmIfEnough(cfg.minHits);
      }
    }

    method EvictDead()
      requires Distinct(tracks)
      modifies this
      ensures Distinct(tracks) && ViewOf(tracks) == Survivors(cfg, old(ViewOf(tracks)))
      ensures forall i | 0 <= i < |tracks| :: tracks[i] in old(tracks)
    {
      hide Sum;
      var kept: seq<TrackObject> := [];
      ghost var all := ViewOf(tracks);
      for i := 0 to |tracks|
        invariant ViewOf(kept) == Survivors(cfg, all[..i])
        invariant Distinct(kept) && forall k | 0 <= k < |kept| :: kept[k] in tracks[..i]
      {
        assert all[..i + 1][..i] == all[..i];
        var t := tracks[i];
        assert t !in tracks[..i];
        if (t.confirmed && t.missedFrames <= cfg.tolerance) || (!t.confirmed && Sum(t.hits) > 0) {
          assert ViewOf(kept + [t]) == ViewOf(kept) + [t.View()];
          kept := kept + [t];
        }
      }
      assert all[..|tracks|] == all;
      tracks := kept;
    }

    method EmitConfirmed() returns (results: Frame)
      requires windowFrames >= 0
      ensures results == Reported(cfg, ViewOf(tracks))
    {
      hide Sum;
      var emissions: seq<Emission> := [];
      ghost var all := ViewOf(tracks);
      for i := 0 to |tracks|
        invariant cfg.window > 0 ==> emissions == Emissions(cfg, all[..i])
        invariant cfg.window == 0 ==> emissions == [] && forall j | 0 <= j < i :: !(all[j].confirmed && all[j].last.Some?)
      {
        assert all[..i + 1][..i] == all[..i];
        var t := tracks[i];
        if t.confirmed && t.lastDetection.Some? {
          if windowFrames == 0 {
            assert all[i] in all;
            return ZeroDivision;
          }
          emissions := emissions + [Emission(t.lastDetection.value, Sum(t.hits) as real / windowFrames as real)];
        }
      }
      assert all[..|tracks|] == all;
      return Shown(emissions);
    }

    /** The per-track loops of a frame, up to an exception of the first trim. */
    method SettleTracks(matched: set<TrackObject>, ghost positions: set<nat>) returns (ok: bool)
      requires Distinct(tracks) && SamePlaces(tracks, matched, positions)
      modifies tracks
      ensures ok <==> windowFrames >= 0 || tracks == []
      ensures ok ==> ViewOf(tracks) == Settled(cfg, Aged(old(ViewOf(tracks)), positions))
      ensures !ok ==> ViewOf(tracks) == FirstEmptied(Aged(old(ViewOf(tracks)), positions))
    {
      hide Sum, LastN, Miss, FirstEmptied;
      MissUnmatched(matched, positions);
      ok := TrimWindows();
      if ok {
        ConfirmTracks();
      }
    }

    /** One frame, for every window the constructor takes: the model's update and emissions, or the
        exception its trim or its scoring raises and the state that leaves. */
    method UpdateTracks(items: seq<Item>) returns (results: Frame)
      requires Distinct(tracks)
      modifies this, tracks
      ensures Distinct(tracks)
      ensures windowFrames >= 0 ==>
                && ViewOf(tracks) == Update(cfg, old(ViewOf(tracks)), items)
                && results == Reported(cfg, ViewOf(tracks))
      ensures windowFrames < 0 ==>
                var (us, positions) := AbsorbAll(cfg, old(ViewOf(tracks)), items);
                if us == [] then ViewOf(tracks) == [] && results == Shown([])
                else ViewOf(tracks) == FirstEmptied(Aged(us, positions)) && results == PopFromEmpty
      ensures forall i | 0 <= i < |tracks| :: tracks[i] in old(tracks) || fresh(tracks[i])
    {
      hide AbsorbAll, Survivors, Emissions, Settled, Aged, SamePlaces, FirstEmptied, Reported;
      var matched, positions := AbsorbItems(items);
      var ok := SettleTracks(matched, positions);
      if !ok {
        return PopFromEmpty;
      }
      EvictDead();
      if windowFrames < 0 {
        NoneSurvives(cfg);
        return Shown([]);
      }
      results := EmitConfirmed();
    }

    /** The object's runs are the runs of the model. */
    method UpdateThrough(frames: seq<seq<Item>>) returns (results: seq<Emission>)
      requires tracks == [] && windowFrames > 0
      modifies this
      ensures ViewOf(tracks) == Run(cfg, frames)
      ensures frames != [] ==> results == Emissions(cfg, Run(cfg, frames))
    {
      hide Update, Emissions;
      results := [];
      for n := 0 to |frames|
        invariant Distinct(tracks) && fresh(tracks)
        invariant ViewOf(tracks) == Run(cfg, frames[..n])
        invariant n > 0 ==> results == Emissions(cfg, Run(cfg, frames[..n]))
      {
        assert frames[..n + 1][..n] == frames[..n];
        var frame := UpdateTracks(frames[n]);
        results := frame.emissions;
      }
      assert frames[..|frames|] == frames;
    }
  }
}
