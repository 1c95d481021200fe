/** The telemetry change log (hmi/backend/services/telemetry_bridge_service.py): snapshots are
    compared, and only what changed is written to the audit log. */
module TelemetryLog {
  import opened Wrappers
  import Gate = Validation

  datatype Health = Healthy | Degraded | Down

  datatype Freshness = Fresh | Stale | Unavailable

  datatype Transport = Connected | Connecting | Disconnected

  datatype Connection = Connection(name: string, caption: string, health: Health)

  datatype Source = Source(name: string, freshness: Freshness, active: bool, topic: string, lastSeenAt: int)

  /** The runtime's state, its text, and the rest of what it serialises. */
  datatype Runtime = Runtime(systemState: string, statusText: string, mode: string, robotStatus: string)

  datatype Joint = Joint(name: string, degrees: Option<real>, low: Option<real>, high: Option<real>)

  /** What one build reads from the ROS adapter and the clock. */
  datatype Reading = Reading(now: int, runtime: Runtime, connections: seq<Connection>, joints: seq<Joint>, sources: seq<Source>)

  datatype Snapshot = Snapshot(generatedAt: int, transport: Transport, telemetry: Freshness, connections: seq<Connection>,
                               runtime: Runtime, joints: seq<Joint>, sources: seq<Source>)

  // ---- building a snapshot ----

  function TransportState(connections: seq<Connection>): Transport {
    if connections == [] then Disconnected
    else if connections[0].health == Healthy then Connected
    else if exists c | c in connections :: c.health != Down then Connecting
    else Disconnected
  }

  function TelemetryState(transport: Transport, sources: seq<Source>): Freshness {
    if transport == Disconnected then Unavailable
    else if exists s | s in sources :: s.active && s.freshness != Fresh then Stale
    else Fresh
  }

  function Build(r: Reading): Snapshot {
    var transport := TransportState(r.connections);
    Snapshot(r.now, transport, TelemetryState(transport, r.sources), r.connections, r.runtime, r.joints, r.sources)
  }

  /** The same sources as the command gate sees them. */
  function GateSources(sources: seq<Source>): (s: seq<Gate.Source>)
    ensures |s| == |sources|
    ensures forall i | 0 <= i < |s| ::
              && s[i].name == sources[i].name && s[i].active == sources[i].active
              && (s[i].freshness == Gate.Fresh <==> sources[i].freshness == Fresh)
  {
    seq(|sources|, i requires 0 <= i < |sources| =>
      Gate.Source(sources[i].name, sources[i].active,
        match sources[i].freshness case Fresh => Gate.Fresh case Stale => Gate.Stale case Unavailable => Gate.Unavailable))
  }

  /** The telemetry state is FRESH exactly when the transport is up and no active source is stale, none
      being ignored.  Then the command gate, which ignores some names, finds no stale source either. */
  lemma FreshExactly(r: Reading)
    ensures Build(r).telemetry == Fresh <==>
            Build(r).transport != Disconnected && Gate.StaleNames(GateSources(r.sources), {}) == []
    ensures Build(r).telemetry == Fresh ==> forall ignored :: Gate.StaleNames(GateSources(r.sources), ignored) == []
  {
    var s := GateSources(r.sources);
    assert (exists x | x in r.sources :: x.active && x.freshness != Fresh)
      <==> !(forall x | x in s && x.active :: x.freshness == Gate.Fresh) by {
      forall i | 0 <= i < |s| ensures s[i] in s && r.sources[i] in r.sources {
      }
    }
  }

  /** The gate's half of the panel's verdict. */
  ghost predicate GateFresh(r: Reading, enforce: bool) {
    && Build(r).transport != Disconnected
    && Gate.StaleNames(GateSources(r.sources), Gate.NonblockingSourceNames(enforce)) == []
  }

  /** Panel and command gate disagree exactly when the panel says STALE on account of nothing but sources
      the gate ignores. */
  lemma PanelDisagreesExactly(r: Reading, enforce: bool)
    ensures (Build(r).telemetry == Fresh) != GateFresh(r, enforce)
       <==> && Build(r).telemetry == Stale
            && forall x | x in r.sources && x.active && x.freshness != Fresh :: x.name in Gate.NonblockingSourceNames(enforce)
  {
    FreshExactly(r);
    var s := GateSources(r.sources);
    forall i | 0 <= i < |s| ensures s[i] in s && r.sources[i] in r.sources {
    }
  }

  // ---- fingerprints and channels ----

  /** The part of a snapshot that is compared; timestamps and topics are not in it. */
  datatype Stable = Stable(transport: Transport, telemetry: Freshness, connections: seq<Connection>, runtime: Runtime,
                           joints: seq<Joint>, sources: seq<(string, Freshness, bool)>)

  function StableSources(sources: seq<Source>): (s: seq<(string, Freshness, bool)>)
    ensures |s| == |sources|
    ensures forall i | 0 <= i < |s| :: s[i] == (sources[i].name, sources[i].freshness, sources[i].active)
  {
    seq(|sources|, i requires 0 <= i < |sources| => (sources[i].name, sources[i].freshness, sources[i].active))
  }

  function Fingerprint(s: Snapshot): Stable {
    Stable(s.transport, s.telemetry, s.connections, s.runtime, s.joints, StableSources(s.sources))
  }

  datatype Channel =
    | TransportChannel | TelemetryChannel | RuntimeChannel
    | ConnectionChannel(name: string) | SourceChannel(name: string)

  datatype Value =
    | TransportValue(transport: Transport) | FreshnessValue(freshness: Freshness) | RuntimeValue(systemState: string)
    | HealthValue(health: Health) | SourceValue(sourceFreshness: Freshness, active: bool)

  datatype Entry = Entry(channel: Channel, value: Value)

  /** One row of the transition log. */
  datatype Row = Row(channel: Channel, previous: Option<Value>, next: Value)

  function ConnectionEntries(cs: seq<Connection>): (es: seq<Entry>)
    ensures |es| == |cs|
    ensures forall i | 0 <= i < |es| :: es[i] == Entry(ConnectionChannel(cs[i].name), HealthValue(cs[i].health))
  {
    seq(|cs|, i requires 0 <= i < |cs| => Entry(ConnectionChannel(cs[i].name), HealthValue(cs[i].health)))
  }

  function SourceEntries(ss: seq<Source>): (es: seq<Entry>)
    ensures |es| == |ss|
    ensures forall i | 0 <= i < |es| :: es[i] == Entry(SourceChannel(ss[i].name), SourceValue(ss[i].freshness, ss[i].active))
  {
    seq(|ss|, i requires 0 <= i < |ss| => Entry(SourceChannel(ss[i].name), SourceValue(ss[i].freshness, ss[i].active)))
  }

  function HeadEntries(s: Snapshot): seq<Entry> {
    [Entry(TransportChannel, TransportValue(s.transport)), Entry(TelemetryChannel, FreshnessValue(s.telemetry)),
     Entry(RuntimeChannel, RuntimeValue(s.runtime.systemState))]
  }

  /** Everything a snapshot says, channel by channel. */
  function Entries(s: Snapshot): seq<Entry> {
    HeadEntries(s) + ConnectionEntries(s.connections) + SourceEntries(s.sources)
  }

  /** A list of entries as a map; a later entry for a channel overrides an earlier one. */
  function Collected(es: seq<Entry>): map<Channel, Value> {
    if es == [] then map[] else Collected(es[..|es| - 1])[es[|es| - 1].channel := es[|es| - 1].value]
  }

  function Projection(s: Snapshot): map<Channel, Value> {
    Collected(Entries(s))
  }

  function Lookup(m: map<Channel, Value>, c: Channel): Option<Value> {
    if c in m then Some(m[c]) else None
  }

  /** The rows written for entries that differ from what the previous snapshot says. */
  function Changes(previous: map<Channel, Value>, es: seq<Entry>): seq<Row> {
    if es == [] then []
    else
      Changes(previous, es[..|es| - 1]) + ChangeOf(Lookup(previous, es[|es| - 1].channel), es[|es| - 1])
  }

  function ChangeOf(previous: Option<Value>, e: Entry): seq<Row> {
    if previous == Some(e.value) then [] else [Row(e.channel, previous, e.value)]
  }

  lemma ChangesSnoc(previous: map<Channel, Value>, es: seq<Entry>, e: Entry)
    ensures Changes(previous, es + [e]) == Changes(previous, es) + ChangeOf(Lookup(previous, e.channel), e)
  {
    assert (es + [e])[..|es|] == es;
  }

  // ---- the service's state ----

  datatype Bridge = Bridge(base: Snapshot, rows: seq<Row>)

  function Start(r: Reading): Bridge {
    Bridge(Build(r), [])
  }

  function Refresh(b: Bridge, r: Reading): (Bridge, bool) {
    var next := Build(r);
    if Fingerprint(next) == Fingerprint(b.base) then (b, false)
    else (Bridge(next, b.rows + Changes(Projection(b.base), Entries(next))), true)
  }

  function Run(b: Bridge, readings: seq<Reading>): Bridge {
    if readings == [] then b else Refresh(Run(b, readings[..|readings| - 1]), readings[|readings| - 1]).0
  }

  // ---- replay ----

  function Replay(m: map<Channel, Value>, rows: seq<Row>): map<Channel, Value> {
    if rows == [] then m else Replay(m, rows[..|rows| - 1])[rows[|rows| - 1].channel := rows[|rows| - 1].next]
  }

  lemma {:induction false} ReplayAppend(m: map<Channel, Value>, a: seq<Row>, b: seq<Row>)
    ensures Replay(m, a + b) == Replay(Replay(m, a), b)
    decreases |b|
  {
    if b == [] {
      assert a + b == a;
    } else {
      assert (a + b)[..|a + b| - 1] == a + b[..|b| - 1];
      ReplayAppend(m, a, b[..|b| - 1]);
    }
  }

  ghost predicate DistinctChannels(es: seq<Entry>) {
    forall i, j | 0 <= i < j < |es| :: es[i].channel != es[j].channel
  }

  /** No two connections and no two sources of the reading share a name. */
  ghost predicate DistinctNames(r: Reading) {
    && (forall i, j | 0 <= i < j < |r.connections| :: r.connections[i].name != r.connections[j].name)
    && (forall i, j | 0 <= i < j < |r.sources| :: r.sources[i].name != r.sources[j].name)
  }

  lemma NamesGiveChannels(r: Reading)
    requires DistinctNames(r)
    ensures DistinctChannels(Entries(Build(r)))
  {
    var s := Build(r);
    var es, head, cs := Entries(s), HeadEntries(s), ConnectionEntries(s.connections);
    forall i | 0 <= i < |es| ensures es[i] == if i < 3 then head[i] else if i < 3 + |cs| then cs[i - 3]
                                              else SourceEntries(s.sources)[i - 3 - |cs|]
    {
    }
  }

  lemma {:induction false} CollectedMembers(es: seq<Entry>, c: Channel)
    ensures c in Collected(es) <==> exists i :: 0 <= i < |es| && es[i].channel == c
    ensures DistinctChannels(es) ==> forall i | 0 <= i < |es| :: es[i].channel in Collected(es) && Collected(es)[es[i].channel] == es[i].value
    decreases |es|
  {
    if es != [] {
      CollectedMembers(es[..|es| - 1], c);
    }
  }

  lemma OverlayPut(m: map<Channel, Value>, k: map<Channel, Value>, c: Channel, v: Value)
    ensures m + k[c := v] == (m + k)[c := v]
    ensures c !in k && c in m && m[c] == v ==> m + k[c := v] == m + k
  {
  }

  lemma ReplayChange(m: map<Channel, Value>, rows: seq<Row>, previous: Option<Value>, e: Entry)
    ensures Replay(m, rows + ChangeOf(previous, e))
         == if previous == Some(e.value) then Replay(m, rows) else Replay(m, rows)[e.channel := e.value]
  {
    assert (rows + [Row(e.channel, previous, e.value)])[..|rows|] == rows;
    assert rows + [] == rows;
  }

  /** Replaying the changes from one snapshot to the next turns a map that agrees with the first
      into its overlay by the second. */
  lemma {:induction false} ChangesReplay(m: map<Channel, Value>, previous: map<Channel, Value>, es: seq<Entry>)
    requires DistinctChannels(es)
    requires forall c | c in previous :: c in m && m[c] == previous[c]
    ensures Replay(m, Changes(previous, es)) == m + Collected(es)
    decreases |es|
  {
    hide Replay, ChangeOf;
    if es == [] {
      ReplayNothing(m);
      assert m + map[] == m;
    } else {
      var front, e := es[..|es| - 1], es[|es| - 1];
      ChangesReplay(m, previous, front);
      LastIsNew(es);
      ReplayChange(m, Changes(previous, front), Lookup(previous, e.channel), e);
      OverlayPut(m, Collected(front), e.channel, e.value);
    }
  }

  lemma ReplayNothing(m: map<Channel, Value>)
    ensures Replay(m, []) == m
  {
  }

  lemma LastIsNew(es: seq<Entry>)
    requires DistinctChannels(es) && es != []
    ensures es[|es| - 1].channel !in Collected(es[..|es| - 1])
  {
    CollectedMembers(es[..|es| - 1], es[|es| - 1].channel);
  }

  /** What the latest snapshot containing a channel says of it. */
  function LatestSaid(base: Snapshot, snapshots: seq<Snapshot>): map<Channel, Value> {
    if snapshots == [] then Projection(base)
    else LatestSaid(base, snapshots[..|snapshots| - 1]) + Projection(snapshots[|snapshots| - 1])
  }

  function Built(readings: seq<Reading>): (s: seq<Snapshot>)
    ensures |s| == |readings| && forall i | 0 <= i < |s| :: s[i] == Build(readings[i])
  {
    seq(|readings|, i requires 0 <= i < |readings| => Build(readings[i]))
  }

  /** Equal fingerprints mean equal projections: a skipped refresh loses nothing. */
  lemma SkippedLosesNothing(a: Snapshot, b: Snapshot)
    requires Fingerprint(a) == Fingerprint(b)
    ensures Projection(a) == Projection(b)
  {
    assert forall i | 0 <= i < |a.sources| :: StableSources(a.sources)[i] == StableSources(b.sources)[i];
    assert SourceEntries(a.sources) == SourceEntries(b.sources);
    assert Entries(a) == Entries(b);
  }

  /** From the baseline, replaying the log gives for every channel ever seen what the latest snapshot
      containing it says, skipped snapshots included; and the base in memory has the projection of
      the latest snapshot built. */
  lemma {:induction false} ReplayIsLatest(first: Reading, readings: seq<Reading>)
    requires forall r | r in readings :: DistinctNames(r)
    ensures var b := Run(Start(first), readings);
            && Replay(Projection(Build(first)), b.rows) == LatestSaid(Build(first), Built(readings))
            && Projection(b.base) == Projection(if readings == [] then Build(first) else Build(readings[|readings| - 1]))
    decreases |readings|
  {
    hide Build, Projection, Fingerprint, Changes;
    if readings != [] {
      var front, r := readings[..|readings| - 1], readings[|readings| - 1];
      assert readings == front + [r];
      ReplayIsLatest(first, front);
      assert Built(readings)[..|front|] == Built(front);
      var b := Run(Start(first), front);
      BaseIsSaid(first, front, b.base);
      RefreshReplay(Projection(Build(first)), LatestSaid(Build(first), Built(front)), b, r);
    }
  }

  lemma RefreshReplay(base0: map<Channel, Value>, said: map<Channel, Value>, b: Bridge, r: Reading)
    requires DistinctNames(r) && Replay(base0, b.rows) == said
    requires forall c | c in Projection(b.base) :: c in said && said[c] == Projection(b.base)[c]
    ensures var after := Refresh(b, r).0;
            Replay(base0, after.rows) == said + Projection(Build(r)) && Projection(after.base) == Projection(Build(r))
  {
    hide Build, Entries, Fingerprint, Changes, Collected, Replay, DistinctChannels, DistinctNames;
    var next := Build(r);
    if Fingerprint(next) == Fingerprint(b.base) {
      SkippedLosesNothing(next, b.base);
      assert said + Projection(next) == said;
    } else {
      ReplayAppend(base0, b.rows, Changes(Projection(b.base), Entries(next)));
      NamesGiveChannels(r);
      ChangesReplay(said, Projection(b.base), Entries(next));
    }
  }

  lemma BaseIsSaid(first: Reading, front: seq<Reading>, base: Snapshot)
    requires Projection(base) == Projection(if front == [] then Build(first) else Build(front[|front| - 1]))
    ensures var said := LatestSaid(Build(first), Built(front));
            forall c | c in Projection(base) :: c in said && said[c] == Projection(base)[c]
  {
    hide Build, Projection;
  }

  /** In particular the log always replays to the live snapshot: every channel the latest snapshot
      has, transport, telemetry, runtime, connection or source, has its value there. */
  lemma ReplayIsLive(first: Reading, readings: seq<Reading>, c: Channel)
    requires readings != [] && forall r | r in readings :: DistinctNames(r)
    ensures var live := Projection(Build(readings[|readings| - 1]));
            c in live ==> Lookup(Replay(Projection(Build(first)), Run(Start(first), readings).rows), c) == Lookup(live, c)
  {
    hide Build, Projection, Run;
    ReplayIsLatest(first, readings);
  }

  /** A name that disappears leaves its channel at the last value it had. */
  lemma VanishedStays(first: Reading, readings: seq<Reading>, r: Reading, c: Channel)
    requires (forall x | x in readings :: DistinctNames(x)) && DistinctNames(r)
    requires c !in Projection(Build(r))
    ensures Lookup(Replay(Projection(Build(first)), Run(Start(first), readings + [r]).rows), c)
         == Lookup(Replay(Projection(Build(first)), Run(Start(first), readings).rows), c)
  {
    hide Build, Projection, Run;
    var longer := readings + [r];
    ReplayIsLatest(first, readings);
    ReplayIsLatest(first, longer);
    assert Built(longer)[..|readings|] == Built(readings);
  }

  // ---- exactly when the log replays, names repeated or not ----

  /** Every entry of the channel says what the previous snapshot said. */
  ghost predicate AllAsBefore(previous: map<Channel, Value>, es: seq<Entry>, c: Channel) {
    forall i | 0 <= i < |es| && es[i].channel == c :: Lookup(previous, c) == Some(es[i].value)
  }

  lemma AllAsBeforeSnoc(previous: map<Channel, Value>, es: seq<Entry>, c: Channel)
    requires es != []
    ensures var e := es[|es| - 1];
            AllAsBefore(previous, es, c)
            <==> AllAsBefore(previous, es[..|es| - 1], c) && (e.channel == c ==> Lookup(previous, c) == Some(e.value))
  {
    hide Lookup;
    var front := es[..|es| - 1];
    assert forall i | 0 <= i < |front| :: front[i] == es[i];
  }

  /** Replaying the changes leaves a channel at its previous value exactly when no entry changes it. */
  lemma {:induction false} UnchangedExactly(m: map<Channel, Value>, previous: map<Channel, Value>, es: seq<Entry>, c: Channel)
    requires Lookup(m, c) == Lookup(previous, c)
    ensures Lookup(Replay(m, Changes(previous, es)), c) == Lookup(previous, c) <==> AllAsBefore(previous, es, c)
    decreases |es|
  {
    hide Replay, ChangeOf, AllAsBefore;
    if es == [] {
      ReplayNothing(m);
      NothingChanged(previous, c);
    } else {
      var front, e := es[..|es| - 1], es[|es| - 1];
      UnchangedExactly(m, previous, front, c);
      ReplayChange(m, Changes(previous, front), Lookup(previous, e.channel), e);
      AllAsBeforeSnoc(previous, es, c);
    }
  }

  lemma NothingChanged(previous: map<Channel, Value>, c: Channel)
    ensures AllAsBefore(previous, [], c)
  {
  }

  /** For any list of entries, repeated channels included, replaying the changes gives a channel of
      the list its value there exactly when that value is new or no entry of the channel changes. */
  lemma {:induction false} ReplayExactly(m: map<Channel, Value>, previous: map<Channel, Value>, es: seq<Entry>, c: Channel)
    requires c in Collected(es) && (c in previous ==> Lookup(m, c) == Lookup(previous, c))
    ensures Lookup(Replay(m, Changes(previous, es)), c) == Lookup(Collected(es), c)
       <==> Lookup(previous, c) != Lookup(Collected(es), c) || AllAsBefore(previous, es, c)
    decreases |es|
  {
    hide Replay, ChangeOf, AllAsBefore;
    var front, e := es[..|es| - 1], es[|es| - 1];
    ReplayChange(m, Changes(previous, front), Lookup(previous, e.channel), e);
    AllAsBeforeSnoc(previous, es, c);
    if e.channel != c {
      ReplayExactly(m, previous, front, c);
    } else if Lookup(previous, c) == Some(e.value) {
      UnchangedExactly(m, previous, front, c);
    }
  }

  /** What a caller can check before a refresh: it is skipped, or the channel's last value differs
      from the base's, or all entries of the channel agree with the base's. */
  ghost predicate RefreshKeeps(base: Snapshot, next: Snapshot, c: Channel) {
    || Fingerprint(next) == Fingerprint(base)
    || Lookup(Projection(base), c) != Lookup(Projection(next), c)
    || AllAsBefore(Projection(base), Entries(next), c)
  }

  /** The log replays the channel to what the base in memory says of it. */
  ghost predicate Agrees(base0: map<Channel, Value>, b: Bridge, c: Channel) {
    c in Projection(b.base) ==> Lookup(Replay(base0, b.rows), c) == Lookup(Projection(b.base), c)
  }

  /** One refresh, whatever names its reading repeats, keeps the log true to a channel the reading
      has exactly under that check. */
  lemma RefreshExactly(base0: map<Channel, Value>, b: Bridge, r: Reading, c: Channel)
    requires Agrees(base0, b, c) && c in Projection(Build(r))
    ensures Agrees(base0, Refresh(b, r).0, c) <==> RefreshKeeps(b.base, Build(r), c)
    ensures Lookup(Replay(base0, Refresh(b, r).0.rows), c) == Lookup(Projection(Build(r)), c)
       <==> RefreshKeeps(b.base, Build(r), c)
  {
    hide Build, Entries, Fingerprint, Changes, Collected, Replay, AllAsBefore, Lookup;
    var next := Build(r);
    if Fingerprint(next) == Fingerprint(b.base) {
      SkippedLosesNothing(next, b.base);
    } else {
      ReplayAppend(base0, b.rows, Changes(Projection(b.base), Entries(next)));
      ReplayExactly(Replay(base0, b.rows), Projection(b.base), Entries(next), c);
    }
  }

  /** The n-th refresh meets the check, if its reading has the channel. */
  ghost predicate KeptAt(first: Reading, readings: seq<Reading>, n: nat, c: Channel)
    requires n < |readings|
  {
    c in Projection(Build(readings[n])) ==> RefreshKeeps(Run(Start(first), readings[..n]).base, Build(readings[n]), c)
  }

  ghost predicate KeptThroughout(first: Reading, readings: seq<Reading>, c: Channel) {
    forall n: nat | n < |readings| :: KeptAt(first, readings, n, c)
  }

  ghost predicate AgreesAfter(first: Reading, readings: seq<Reading>, n: nat, c: Channel)
    requires n <= |readings|
  {
    Agrees(Projection(Build(first)), Run(Start(first), readings[..n]), c)
  }

  ghost predicate AgreesThroughout(first: Reading, readings: seq<Reading>, c: Channel) {
    forall n: nat | n <= |readings| :: AgreesAfter(first, readings, n, c)
  }

  lemma KeptSnoc(first: Reading, front: seq<Reading>, r: Reading, c: Channel)
    ensures KeptThroughout(first, front + [r], c) <==>
            KeptThroughout(first, front, c) && KeptAt(first, front + [r], |front|, c)
  {
    hide KeptAt;
    var all := front + [r];
    forall n: nat | n < |front| ensures KeptAt(first, all, n, c) == KeptAt(first, front, n, c) {
      KeptPrefix(first, front, r, n, c);
    }
  }

  lemma KeptPrefix(first: Reading, front: seq<Reading>, r: Reading, n: nat, c: Channel)
    requires n < |front|
    ensures KeptAt(first, front + [r], n, c) == KeptAt(first, front, n, c)
  {
    hide Run, RefreshKeeps, Build, Projection;
    assert (front + [r])[..n] == front[..n];
  }

  lemma AgreesSnoc(first: Reading, front: seq<Reading>, r: Reading, c: Channel)
    ensures AgreesThroughout(first, front + [r], c) <==>
            AgreesThroughout(first, front, c) && AgreesAfter(first, front + [r], |front| + 1, c)
  {
    hide AgreesAfter;
    forall n: nat | n <= |front| ensures AgreesAfter(first, front + [r], n, c) == AgreesAfter(first, front, n, c) {
      AgreesPrefix(first, front, r, n, c);
    }
  }

  lemma AgreesPrefix(first: Reading, front: seq<Reading>, r: Reading, n: nat, c: Channel)
    requires n <= |front|
    ensures AgreesAfter(first, front + [r], n, c) == AgreesAfter(first, front, n, c)
  {
    hide Run, Agrees, Build, Projection;
    assert (front + [r])[..n] == front[..n];
  }

  lemma LastOf(first: Reading, front: seq<Reading>, r: Reading, c: Channel)
    ensures AgreesAfter(first, front + [r], |front| + 1, c)
         == Agrees(Projection(Build(first)), Refresh(Run(Start(first), front), r).0, c)
    ensures KeptAt(first, front + [r], |front|, c)
         == (c in Projection(Build(r)) ==> RefreshKeeps(Run(Start(first), front).base, Build(r), c))
  {
    hide Agrees, RefreshKeeps, Build, Projection, Refresh;
    var all := front + [r];
    assert all[..|front|] == front && all[..|all|] == all && all[..|all| - 1] == front;
  }

  /** Over a run, with any repetitions of names, the log is true to a channel after every refresh
      exactly when every refresh meets the check. */
  lemma {:induction false} ReplayKeptExactly(first: Reading, readings: seq<Reading>, c: Channel)
    ensures AgreesThroughout(first, readings, c) <==> KeptThroughout(first, readings, c)
    decreases |readings|
  {
    hide Agrees, RefreshKeeps, Build, Projection, AgreesThroughout, KeptThroughout, AgreesAfter, KeptAt, Refresh;
    if readings == [] {
      AgreesAtStart(first, c);
    } else {
      var front, r := readings[..|readings| - 1], readings[|readings| - 1];
      assert readings == front + [r];
      ReplayKeptExactly(first, front, c);
      KeptSnoc(first, front, r, c);
      AgreesSnoc(first, front, r, c);
      LastOf(first, front, r, c);
      if AgreesThroughout(first, front, c) {
        AgreesNow(first, front, c);
        LastRefresh(first, front, r, c);
      }
    }
  }

  lemma AgreesNow(first: Reading, readings: seq<Reading>, c: Channel)
    requires AgreesThroughout(first, readings, c)
    ensures Agrees(Projection(Build(first)), Run(Start(first), readings), c)
  {
    hide Agrees, Build, Projection, Run;
    assert AgreesAfter(first, readings, |readings|, c) && readings[..|readings|] == readings;
  }

  lemma AgreesAtStart(first: Reading, c: Channel)
    ensures AgreesThroughout(first, [], c) && KeptThroughout(first, [], c)
  {
    hide Agrees, Build, Projection;
    StartAgrees(first, c);
    assert AgreesAfter(first, [], 0, c);
  }

  lemma StartAgrees(first: Reading, c: Channel)
    ensures Agrees(Projection(Build(first)), Run(Start(first), []), c)
  {
    hide Build, Projection;
  }

  lemma LastRefresh(first: Reading, front: seq<Reading>, r: Reading, c: Channel)
    requires Agrees(Projection(Build(first)), Run(Start(first), front), c)
    ensures Agrees(Projection(Build(first)), Refresh(Run(Start(first), front), r).0, c)
       <==> (c in Projection(Build(r)) ==> RefreshKeeps(Run(Start(first), front).base, Build(r), c))
  {
    hide Build, Fingerprint, Run, Changes, Replay, AllAsBefore, Lookup, Entries, Collected;
    var b := Run(Start(first), front);
    if c in Projection(Build(r)) {
      RefreshExactly(Projection(Build(first)), b, r, c);
    } else if Fingerprint(Build(r)) == Fingerprint(b.base) {
      SkippedLosesNothing(Build(r), b.base);
    }
  }

  /** The failing family: a reading whose last entry of a source repeats the base's value while an
      earlier entry of the same name changes it. */
  lemma RepeatedNameBreaks(base0: map<Channel, Value>, b: Bridge, r: Reading, i: nat, j: nat)
    requires i < j < |r.sources| && r.sources[i].name == r.sources[j].name
    requires var c := SourceChannel(r.sources[j].name);
             && Agrees(base0, b, c) && c in Projection(Build(r))
             && Lookup(Projection(Build(r)), c) == Lookup(Projection(b.base), c)
             && Lookup(Projection(b.base), c) != Some(SourceValue(r.sources[i].freshness, r.sources[i].active))
    requires Fingerprint(Build(r)) != Fingerprint(b.base)
    ensures var c := SourceChannel(r.sources[j].name);
            Lookup(Replay(base0, Refresh(b, r).0.rows), c) != Lookup(Projection(Build(r)), c)
  {
    hide Lookup, Projection, Fingerprint, Replay, Refresh;
    var c, next := SourceChannel(r.sources[j].name), Build(r);
    RefreshExactly(base0, b, r, c);
    var es := Entries(next);
    var k := |HeadEntries(next)| + |ConnectionEntries(next.connections)| + i;
    assert es[k] == SourceEntries(next.sources)[i];
  }

  lemma SmallestEntries(first: Reading, name: string, topic: string)
    requires first.connections == [Connection("ros", "ROS", Healthy)]
        && first.sources == [Source(name, Fresh, true, topic, 0)]
    ensures var twice := first.(sources := [Source(name, Stale, true, topic, 1), Source(name, Fresh, true, topic, 1)]);
            var a, b := Build(first), Build(twice);
            var conn, c := Entry(ConnectionChannel("ros"), HealthValue(Healthy)), SourceChannel(name);
            && Entries(a) == HeadEntries(a) + [conn, Entry(c, SourceValue(Fresh, true))]
            && Entries(b) == HeadEntries(b) + [conn, Entry(c, SourceValue(Stale, true)), Entry(c, SourceValue(Fresh, true))]
            && Fingerprint(a) != Fingerprint(b)
  {
    var twice := first.(sources := [Source(name, Stale, true, topic, 1), Source(name, Fresh, true, topic, 1)]);
    assert twice.sources[0] in twice.sources;
    assert Build(twice).telemetry == Stale && Build(first).telemetry == Fresh;
  }

  /** The smallest input of that family: when a reading lists a source twice, the first time changed and
      the second time not, the log ends with a value the map of the snapshot does not have. */
  lemma DuplicateNamesBreakReplay(first: Reading, name: string, topic: string)
    requires first.connections == [Connection("ros", "ROS", Healthy)]
        && first.sources == [Source(name, Fresh, true, topic, 0)]
    ensures var twice := first.(sources := [Source(name, Stale, true, topic, 1), Source(name, Fresh, true, topic, 1)]);
            var c := SourceChannel(name);
            && Lookup(Projection(Build(twice)), c) == Some(SourceValue(Fresh, true))
            && Lookup(Replay(Projection(Build(first)), Run(Start(first), [twice]).rows), c) == Some(SourceValue(Stale, true))
  {
    hide Build, Entries, Fingerprint, HeadEntries;
    var twice := first.(sources := [Source(name, Stale, true, topic, 1), Source(name, Fresh, true, topic, 1)]);
    var a, b, c := Build(first), Build(twice), SourceChannel(name);
    SmallestEntries(first, name, topic);
    var before, now := Entries(a), Entries(b);
    var said := Projection(a);
    assert said[c] == SourceValue(Fresh, true);
    assert now[..|now| - 1][|now| - 2] == Entry(c, SourceValue(Stale, true));
    var rows := Changes(said, now);
    assert rows == Changes(said, now[..|now| - 1]);
    assert rows[|rows| - 1] == Row(c, Some(SourceValue(Fresh, true)), SourceValue(Stale, true));
    assert [twice][..0] == [];
    assert Run(Start(first), [twice]) == Refresh(Start(first), twice).0;
  }

  // ---- the names of the shipped adapter ----

  const CONNECTION_NAMES: seq<string> := ["ros2", "moveit2", "llm", "motoros2"]

  const SOURCE_NAMES: seq<string> := [
    "gateway_status", "llm_debug", "llm_command", "readiness", "supervisor_alerts", "robot_status",
    "joint_states_primary", "joint_states_fallback", "validate_command_service", "execute_motion_action",
    "review_intent_service"]

  /** The reading lists the adapter's fixed names, in its order. */
  ghost predicate FromAdapter(r: Reading) {
    && |r.connections| == |CONNECTION_NAMES| && |r.sources| == |SOURCE_NAMES|
    && (forall i | 0 <= i < |r.connections| :: r.connections[i].name == CONNECTION_NAMES[i])
    && (forall i | 0 <= i < |r.sources| :: r.sources[i].name == SOURCE_NAMES[i])
  }

  /** The shipped adapter never repeats a name: its log always replays every channel to the live
      snapshot. */
  lemma AdapterLogIsLive(first: Reading, readings: seq<Reading>, c: Channel)
    requires readings != [] && forall r | r in readings :: FromAdapter(r)
    ensures var live := Projection(Build(readings[|readings| - 1]));
            c in live ==> Lookup(Replay(Projection(Build(first)), Run(Start(first), readings).rows), c) == Lookup(live, c)
  {
    hide Build, Projection, Run, Start, Lookup, Replay, FromAdapter, DistinctNames;
    AdapterRunDistinct(readings);
    ReplayIsLive(first, readings, c);
  }

  /** The shipped adapter meets the disagreement: its first source is ignored by the gate, so a stale
      gateway alone turns the panel STALE while the gate finds nothing. */
  lemma StaleGatewayDisagrees(r: Reading, enforce: bool)
    requires FromAdapter(r) && Build(r).transport != Disconnected
    requires r.sources[0].active && r.sources[0].freshness != Fresh
    requires forall i | 0 < i < |r.sources| :: r.sources[i].freshness == Fresh
    ensures Build(r).telemetry == Stale && GateFresh(r, enforce)
  {
    assert r.sources[0] in r.sources;
    PanelDisagreesExactly(r, enforce);
  }

  lemma AdapterRunDistinct(readings: seq<Reading>)
    requires forall r | r in readings :: FromAdapter(r)
    ensures forall r | r in readings :: DistinctNames(r)
  {
    hide FromAdapter, DistinctNames;
    forall r | r in readings ensures DistinctNames(r) {
      AdapterNamesDistinct(r);
    }
  }

  lemma AdapterNamesDistinct(r: Reading)
    requires FromAdapter(r)
    ensures DistinctNames(r)
  {
    LengthsTell(r);
  }

  lemma LengthsTell(r: Reading)
    requires FromAdapter(r)
    ensures forall i, j | 0 <= i < j < |r.connections| :: CONNECTION_NAMES[i] != CONNECTION_NAMES[j]
    ensures forall i, j | 0 <= i < j < |r.sources| :: SOURCE_NAMES[i] != SOURCE_NAMES[j]
  {
  }

  // ---- the service as it runs ----

  class TelemetryBridge {
    var latestBase: Snapshot
    var latestFingerprint: Stable
    var transitions: seq<Row>

    function View(): Bridge
      reads this
    {
      Bridge(latestBase, transitions)
    }

    ghost predicate Valid()
      reads this
    {
      latestFingerprint == Fingerprint(latestBase)
    }

    constructor (r: Reading)
      ensures Valid() && View() == Start(r)
    {
      latestBase := Build(r);
      latestFingerprint := Fingerprint(Build(r));
      transitions := [];
    }

    /** Append a row when a value differs from the previous one. */
    method RecordIfChanged(previous: Option<Value>, e: Entry)
      modifies this`transitions
      ensures transitions == old(transitions) + ChangeOf(previous, e)
    {
      if previous != Some(e.value) {
        transitions := transitions + [Row(e.channel, previous, e.value)];
      }
    }

    /** Three comparisons and two loops, all against the previous snapshot. */
    method RecordStateChanges(previous: Snapshot, current: Snapshot)
      modifies this`transitions
      ensures transitions == old(transitions) + Changes(Projection(previous), Entries(current))
    {
      hide Projection, Lookup, Changes, ChangeOf;
      var known := Projection(previous);
      HeadLookup(previous);
      HeadChanges(known, current);
      RecordIfChanged(Some(TransportValue(previous.transport)), Entry(TransportChannel, TransportValue(current.transport)));
      RecordIfChanged(Some(FreshnessValue(previous.telemetry)), Entry(TelemetryChannel, FreshnessValue(current.telemetry)));
      RecordIfChanged(Some(RuntimeValue(previous.runtime.systemState)),
                      Entry(RuntimeChannel, RuntimeValue(current.runtime.systemState)));
      ghost var done := HeadEntries(current);
      ghost var cs, ss := ConnectionEntries(current.connections), SourceEntries(current.sources);
      for i := 0 to |current.connections|
        invariant done == HeadEntries(current) + cs[..i]
        invariant transitions == old(transitions) + Changes(known, done)
      {
        var c := current.connections[i];
        var e := Entry(ConnectionChannel(c.name), HealthValue(c.health));
        ChangesSnoc(known, done, e);
        RecordIfChanged(Lookup(known, ConnectionChannel(c.name)), e);
        assert cs[..i + 1] == cs[..i] + [e];
        done := done + [e];
      }
      for i := 0 to |current.sources|
        invariant done == HeadEntries(current) + cs + ss[..i]
        invariant transitions == old(transitions) + Changes(known, done)
      {
        var s := current.sources[i];
        var e := Entry(SourceChannel(s.name), SourceValue(s.freshness, s.active));
        ChangesSnoc(known, done, e);
        RecordIfChanged(Lookup(known, SourceChannel(s.name)), e);
        assert ss[..i + 1] == ss[..i] + [e];
        done := done + [e];
      }
      assert done == Entries(current);
    }

    method RefreshIfNeeded(r: Reading) returns (snapshot: Snapshot, changed: bool)
      requires Valid()
      modifies this
      ensures Valid() && snapshot == Build(r)
      ensures (View(), changed) == Refresh(old(View()), r)
    {
      hide Build, Fingerprint, Projection, Entries, Changes;
      var next := Build(r);
      var fingerprint := Fingerprint(next);
      if fingerprint == latestFingerprint {
        return next, false;
      }
      RecordStateChanges(latestBase, next);
      latestBase := next;
      latestFingerprint := fingerprint;
      return next, true;
    }
  }

  lemma HeadLookup(s: Snapshot)
    ensures Lookup(Projection(s), TransportChannel) == Some(TransportValue(s.transport))
    ensures Lookup(Projection(s), TelemetryChannel) == Some(FreshnessValue(s.telemetry))
    ensures Lookup(Projection(s), RuntimeChannel) == Some(RuntimeValue(s.runtime.systemState))
  {
    var h, tail := HeadEntries(s), ConnectionEntries(s.connections) + SourceEntries(s.sources);
    assert Entries(s) == h + tail;
    HeadKept(h, tail, TransportChannel);
    HeadKept(h, tail, TelemetryChannel);
    HeadKept(h, tail, RuntimeChannel);
    assert DistinctChannels(h);
    CollectedMembers(h, TransportChannel);
    assert h[0].channel == TransportChannel && h[1].channel == TelemetryChannel && h[2].channel == RuntimeChannel;
  }

  lemma {:induction false} HeadKept(head: seq<Entry>, tail: seq<Entry>, c: Channel)
    requires forall e | e in tail :: e.channel != c
    ensures Lookup(Collected(head + tail), c) == Lookup(Collected(head), c)
    decreases |tail|
  {
    if tail == [] {
      assert head + tail == head;
    } else {
      var front := tail[..|tail| - 1];
      assert (head + tail)[..|head + tail| - 1] == head + front;
      HeadKept(head, front, c);
      assert tail[|tail| - 1] in tail;
    }
  }

  lemma HeadChanges(previous: map<Channel, Value>, s: Snapshot)
    ensures var h := HeadEntries(s);
            Changes(previous, h) == ChangeOf(Lookup(previous, TransportChannel), h[0])
                                  + ChangeOf(Lookup(previous, TelemetryChannel), h[1])
                                  + ChangeOf(Lookup(previous, RuntimeChannel), h[2])
  {
    hide Lookup, ChangeOf;
    var h := HeadEntries(s);
    ChangesSnoc(previous, [], h[0]);
    ChangesSnoc(previous, [h[0]], h[1]);
    ChangesSnoc(previous, [h[0], h[1]], h[2]);
    assert [] + [h[0]] == [h[0]] && [h[0]] + [h[1]] == [h[0], h[1]] && [h[0], h[1]] + [h[2]] == h;
  }

  // ---- event queues ----

  const QUEUE_CAPACITY: nat := 8

  type Event = string

  /** A full queue drops its oldest event to make room. */
  function Offer(queue: seq<Event>, e: Event): seq<Event> {
    (if |queue| >= QUEUE_CAPACITY then queue[1..] else queue) + [e]
  }

  class Subscriber {
    const sessionId: string
    const operatorId: string
    var queue: seq<Event>

    constructor (sessionId: string, operatorId: string)
      ensures queue == []
    {
      this.sessionId, this.operatorId := sessionId, operatorId;
      queue := [];
    }
  }

  /** Every subscriber is offered what the factory makes for it, if anything. */
  method BroadcastEvent(subscribers: seq<Subscriber>, factory: (string, string) -> Option<Event>)
    requires forall i, j | 0 <= i < j < |subscribers| :: subscribers[i] != subscribers[j]
    modifies subscribers
    ensures forall i | 0 <= i < |subscribers| ::
              var s := subscribers[i];
              s.queue == match factory(s.sessionId, s.operatorId) case Some(e) => Offer(old(s.queue), e) case None => old(s.queue)
  {
    hide Offer;
    for n := 0 to |subscribers|
      invariant forall i | n <= i < |subscribers| :: subscribers[i].queue == old(subscribers[i].queue)
      invariant forall i | 0 <= i < n ::
                  var s := subscribers[i];
                  s.queue == match factory(s.sessionId, s.operatorId) case Some(e) => Offer(old(s.queue), e) case None => old(s.queue)
    {
      var s := subscribers[n];
      var payload := factory(s.sessionId, s.operatorId);
      if payload.Some? {
        s.queue := Offer(s.queue, payload.value);
      }
    }
  }

  datatype FeedStep = Sent(event: Event) | Taken

  /** One subscriber's queue over time, with what was sent to it and what it took. */
  datatype Feed = Feed(queue: seq<Event>, sent: seq<Event>, taken: seq<Event>, dropped: nat)

  function FeedStepped(f: Feed, step: FeedStep): Feed {
    match step
    case Sent(e) =>
      Feed(Offer(f.queue, e), f.sent + [e], f.taken, f.dropped + if |f.queue| >= QUEUE_CAPACITY then 1 else 0)
    case Taken => if f.queue == [] then f else f.(queue := f.queue[1..], taken := f.taken + [f.queue[0]])
  }

  function FeedRun(steps: seq<FeedStep>): Feed {
    if steps == [] then Feed([], [], [], 0)
    else
      FeedStepped(FeedRun(steps[..|steps| - 1]), steps[|steps| - 1])
  }

  /** A queue always holds the newest events sent, in order and without gaps; only older ones are
      lost, and a subscriber that lost none has seen or will see exactly what was sent. */
  lemma {:induction false} QueueHoldsNewest(steps: seq<FeedStep>)
    ensures Newest(FeedRun(steps))
    decreases |steps|
  {
    hide FeedStepped, Newest;
    if steps == [] {
      NothingFed();
    } else {
      QueueHoldsNewest(steps[..|steps| - 1]);
      FeedNext(FeedRun(steps[..|steps| - 1]), steps[|steps| - 1]);
    }
  }

  ghost predicate Newest(f: Feed) {
    && |f.queue| <= QUEUE_CAPACITY && |f.sent| == |f.taken| + |f.queue| + f.dropped
    && f.queue == f.sent[|f.sent| - |f.queue|..]
    && (f.dropped == 0 <==> f.taken + f.queue == f.sent)
  }

  lemma NothingFed()
    ensures Newest(Feed([], [], [], 0))
  {
  }

  lemma FeedNext(f: Feed, step: FeedStep)
    requires Newest(f)
    ensures Newest(FeedStepped(f, step))
  {
    if step.Sent? {
      FeedSent(f, step.event);
    } else if f.queue != [] {
      var g := FeedStepped(f, step);
      assert g.taken + g.queue == f.taken + f.queue;
    }
  }

  lemma FeedSent(f: Feed, e: Event)
    requires Newest(f)
    ensures Newest(FeedStepped(f, Sent(e)))
  {
    var g := FeedStepped(f, Sent(e));
    assert |g.taken + g.queue| == |g.sent| - g.dropped;
    if g.dropped == 0 {
      assert g.taken + g.queue == (f.taken + f.queue) + [e];
    }
  }

  // ---- the two states of a snapshot ----

  /** The transport is the first connection's health, or, where that one is not healthy, whether any is still
      alive; the telemetry state is unavailable without it, and stale as soon as an active source is. */
  lemma StatesExactly(r: Reading)
    ensures var s := Build(r);
            && (s.transport == Connected <==> r.connections != [] && r.connections[0].health == Healthy)
            && (s.transport == Disconnected <==>
                  r.connections == [] || (r.connections[0].health != Healthy && forall c | c in r.connections :: c.health == Down))
            && (s.telemetry == Unavailable <==> s.transport == Disconnected)
            && (s.telemetry == Stale <==>
                  s.transport != Disconnected && exists x :: x in r.sources && x.active && x.freshness != Fresh)
            && s.generatedAt == r.now && s.connections == r.connections && s.runtime == r.runtime
            && s.joints == r.joints && s.sources == r.sources
  {
    if r.connections != [] {
      assert r.connections[0] in r.connections;
    }
  }

  lemma EntrySays(es: seq<Entry>, i: nat)
    requires DistinctChannels(es) && i < |es|
    ensures Lookup(Collected(es), es[i].channel) == Some(es[i].value)
  {
    CollectedMembers(es, es[i].channel);
  }

  /** The channels of a projection and what they say, name by name. */
  lemma ProjectionSays(r: Reading)
    requires DistinctNames(r)
    ensures var s := Build(r);
            var p := Projection(s);
            && Lookup(p, TransportChannel) == Some(TransportValue(s.transport))
            && Lookup(p, TelemetryChannel) == Some(FreshnessValue(s.telemetry))
            && Lookup(p, RuntimeChannel) == Some(RuntimeValue(r.runtime.systemState))
            && (forall c | c in r.connections :: Lookup(p, ConnectionChannel(c.name)) == Some(HealthValue(c.health)))
            && (forall x | x in r.sources :: Lookup(p, SourceChannel(x.name)) == Some(SourceValue(x.freshness, x.active)))
  {
    hide Build, Collected, Lookup;
    var s := Build(r);
    var es := Entries(s);
    NamesGiveChannels(r);
    assert s.connections == r.connections && s.sources == r.sources && s.runtime == r.runtime by { StatesExactly(r); }
    EntrySays(es, 0);
    EntrySays(es, 1);
    EntrySays(es, 2);
    forall c | c in r.connections ensures Lookup(Projection(s), ConnectionChannel(c.name)) == Some(HealthValue(c.health)) {
      var i :| 0 <= i < |r.connections| && r.connections[i] == c;
      EntrySays(es, 3 + i);
    }
    forall x | x in r.sources ensures Lookup(Projection(s), SourceChannel(x.name)) == Some(SourceValue(x.freshness, x.active)) {
      var i :| 0 <= i < |r.sources| && r.sources[i] == x;
      EntrySays(es, 3 + |r.connections| + i);
    }
  }

  /** Nothing that is serialised differs; timestamps and topics are not. */
  ghost predicate SameView(a: Snapshot, b: Snapshot) {
    && a.transport == b.transport && a.telemetry == b.telemetry && a.runtime == b.runtime
    && a.connections == b.connections && a.joints == b.joints && |a.sources| == |b.sources|
    && forall i | 0 <= i < |a.sources| ::
         a.sources[i].name == b.sources[i].name && a.sources[i].freshness == b.sources[i].freshness
         && a.sources[i].active == b.sources[i].active
  }

  /** A refresh reports a change exactly when something serialised differs, and then replaces the base;
      otherwise it leaves base and log alone. */
  lemma ChangeReportedExactly(b: Bridge, r: Reading)
    ensures var (c, changed) := Refresh(b, r);
            && (changed <==> !SameView(Build(r), b.base))
            && (changed ==> c.base == Build(r) && b.rows <= c.rows)
            && (!changed ==> c == b)
  {
    hide Build, Changes, Entries, Projection;
    var next := Build(r);
    var n, o := StableSources(next.sources), StableSources(b.base.sources);
    if SameView(next, b.base) {
      assert n == o;
    }
    if n == o {
      assert forall i | 0 <= i < |n| :: n[i] == o[i];
    }
  }
}
