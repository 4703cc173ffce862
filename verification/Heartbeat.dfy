/**
 The orchestrator's heartbeat emitter, and what it and a node's dead-man switch
 achieve together across a link that delays, jitters and loses beats.

 Emitter instants are nanoseconds of a steady clock; a node sees an instant as
 whole milliseconds.
 */
module Heartbeat {
  import opened WireTypes
  import opened SafetyCore
  import opened SafetyRuns
  import CanId

  const PERIOD_MS := 10
  const NS := 1_000_000

  const CLS_SAFETY: Byte := 0
  const NODE_BROADCAST: Byte := 0
  const NODE_ORCH: Byte := 8
  const T_HEARTBEAT: Byte := 0x01

  datatype Gate = Gate(transportHealthy: bool, estopLatched: bool, rclcppOk: bool)
  {
    predicate Open() {
      transportHealthy && !estopLatched && rclcppOk
    }
  }

  /** The CAN record a beat travels in, its fields as plain numbers. */
  datatype BeatRecord = BeatRecord(id: int, bus: Byte, dlc: Byte, tsMs: U16, data: seq<Byte>)

  function Flags(estopLatched: bool, degraded: bool, cloudUp: bool): Byte {
    (if estopLatched then 1 else 0) + (if degraded then 2 else 0) + (if cloudUp then 4 else 0)
  }

  /** The eight payload bytes: sequence, flags, state, uptime, little-endian. */
  function Payload(seqNo: U16, flags: Byte, srcState: Byte, uptimeMs: Ms): (r: seq<Byte>)
    ensures |r| == 8
  {
    [seqNo % 256, seqNo / 256, flags, srcState,
     uptimeMs % 256, uptimeMs / 0x100 % 256, uptimeMs / 0x1_0000 % 256, uptimeMs / 0x100_0000]
  }

  /** How a node reads a heartbeat payload that reached it at `now` ms. */
  function ReadBeat(now: int, data: seq<Byte>): Event
    requires |data| == 8
  {
    var lo: int, hi: int := data[0], data[1];
    Event.Heartbeat(now, lo + 256 * hi, data[2] % 2 == 1)
  }

  /** The other fields of the payload: each flag has its own bit, and the rest reads back. */
  ghost predicate Carries(data: seq<Byte>, estopLatched: bool, degraded: bool, cloudUp: bool, srcState: Byte, uptimeMs: Ms) {
    && |data| == 8
    && data[2] < 8
    && (data[2] % 2 == 1 <==> estopLatched)
    && (data[2] / 2 % 2 == 1 <==> degraded)
    && (data[2] / 4 == 1 <==> cloudUp)
    && data[3] == srcState
    && var b0: int, b1: int, b2: int, b3: int := data[4], data[5], data[6], data[7];
       uptimeMs == b0 + 0x100 * b1 + 0x1_0000 * b2 + 0x100_0000 * b3
  }

  lemma {:induction false} PayloadCarries(seqNo: U16, estopLatched: bool, degraded: bool, cloudUp: bool,
                                          srcState: Byte, uptimeMs: Ms)
    ensures Carries(Payload(seqNo, Flags(estopLatched, degraded, cloudUp), srcState, uptimeMs),
                    estopLatched, degraded, cloudUp, srcState, uptimeMs)
  {
    assert uptimeMs / 0x1_0000 == uptimeMs / 0x100 / 0x100 && uptimeMs / 0x100_0000 == uptimeMs / 0x1_0000 / 0x100;
  }

  lemma {:induction false} PayloadRead(now: int, seqNo: U16, estopLatched: bool, degraded: bool, cloudUp: bool,
                                       srcState: Byte, uptimeMs: Ms)
    ensures ReadBeat(now, Payload(seqNo, Flags(estopLatched, degraded, cloudUp), srcState, uptimeMs))
            == Event.Heartbeat(now, seqNo, estopLatched)
  {
  }

  // ---------------------------------------------------------------------------
  // The emitter
  // ---------------------------------------------------------------------------

  datatype Emitter = Emitter(seqNo: U16, haveLast: bool, lastEmit: int)

  datatype EmitTick = EmitTick(at: int, gate: Gate)

  const FRESH := Emitter(0, false, 0)

  /** Whole milliseconds, truncated toward zero. */
  function Millis(ns: int): int {
    if ns < 0 then -(-ns / NS) else ns / NS
  }

  predicate Emits(s: Emitter, t: EmitTick) {
    t.gate.Open() && (!s.haveLast || Millis(t.at - s.lastEmit) >= PERIOD_MS)
  }

  function EmitStep(s: Emitter, t: EmitTick): Emitter {
    if Emits(s, t) then Emitter((s.seqNo + 1) % 0x1_0000, true, t.at) else s
  }

  class HeartbeatEmitter {
    var seqNo: U16
    var haveLastEmit: bool
    var lastEmit: int

    function View(): Emitter
      reads this
    {
      Emitter(seqNo, haveLastEmit, lastEmit)
    }

    constructor ()
      ensures View() == FRESH
    {
      seqNo, haveLastEmit, lastEmit := 0, false, 0;
    }

    method Tick(now: int, gate: Gate, cloudUp: bool, degraded: bool, srcState: Byte, uptimeMs: Ms)
      returns (rec: Option<BeatRecord>)
      modifies this
      ensures View() == EmitStep(old(View()), EmitTick(now, gate))
      ensures rec.Some? == Emits(old(View()), EmitTick(now, gate))
      ensures rec.Some? ==>
                && gate.transportHealthy && !gate.estopLatched && gate.rclcppOk
                && rec.value.dlc == 8 && rec.value.bus == 0
                && CanId.Cls(rec.value.id) == 0 && CanId.Src(rec.value.id) == 8 && CanId.Dst(rec.value.id) == 0
                && CanId.Type(rec.value.id) == 0x01 && CanId.Low(rec.value.id) == old(seqNo) % 256
                && Carries(rec.value.data, false, degraded, cloudUp, srcState, uptimeMs)
                && forall t :: ReadBeat(t, rec.value.data) == Event.Heartbeat(t, old(seqNo), false)
    {
      hide CanId.Pack, CanId.Cls, CanId.Src, CanId.Dst, CanId.Type, CanId.Low, Payload, ReadBeat, Flags, Millis;
      if !gate.Open() {
        return None;
      }
      if haveLastEmit {
        var elapsed := Millis(now - lastEmit);
        if elapsed < PERIOD_MS {
          return None;
        }
      }
      lastEmit := now;
      haveLastEmit := true;
      var n := seqNo;
      seqNo := (seqNo + 1) % 0x1_0000;
      var data := Payload(n, Flags(gate.estopLatched, degraded, cloudUp), srcState, uptimeMs);
      var id := CanId.Pack(CLS_SAFETY, NODE_ORCH, NODE_BROADCAST, T_HEARTBEAT, n % 256);
      CanId.FieldsSurvive(CLS_SAFETY, NODE_ORCH, NODE_BROADCAST, T_HEARTBEAT, n % 256);
      PayloadCarries(n, gate.estopLatched, degraded, cloudUp, srcState, uptimeMs);
      forall t ensures ReadBeat(t, data) == Event.Heartbeat(t, n, false) {
        PayloadRead(t, n, gate.estopLatched, degraded, cloudUp, srcState, uptimeMs);
      }
      return Some(BeatRecord(id, 0, 8, 0, data));
    }
  }

  function EmitRun(ticks: seq<EmitTick>): Emitter
    decreases |ticks|
  {
    if ticks == [] then FRESH else EmitStep(EmitRun(ticks[..|ticks| - 1]), ticks[|ticks| - 1])
  }

  /** The instants at which beats go out; beat number `m` is the m-th. */
  function Emissions(ticks: seq<EmitTick>): seq<int>
    decreases |ticks|
  {
    if ticks == [] then []
    else
      var n := |ticks| - 1;
      Emissions(ticks[..n]) + if Emits(EmitRun(ticks[..n]), ticks[n]) then [ticks[n].at] else []
  }

  /** Beats are numbered in order, and the emitter remembers the latest. */
  lemma {:induction false} EmitterRemembers(ticks: seq<EmitTick>)
    ensures var e := Emissions(ticks); var s := EmitRun(ticks);
            && s.seqNo == |e| % 0x1_0000
            && (s.haveLast <==> e != [])
            && (e != [] ==> s.lastEmit == e[|e| - 1])
    decreases |ticks|
  {
    hide Millis;
    if ticks != [] {
      EmitterRemembers(ticks[..|ticks| - 1]);
    }
  }

  /** A shut gate emits nothing: every beat leaves at a tick whose gate was open. */
  lemma {:induction false} NeverFakesLiveness(ticks: seq<EmitTick>, m: nat) returns (i: nat)
    requires m < |Emissions(ticks)|
    ensures i < |ticks| && ticks[i].at == Emissions(ticks)[m]
    ensures ticks[i].gate.transportHealthy && !ticks[i].gate.estopLatched && ticks[i].gate.rclcppOk
    decreases |ticks|
  {
    hide Millis;
    var n := |ticks| - 1;
    if m < |Emissions(ticks[..n])| {
      i := NeverFakesLiveness(ticks[..n], m);
    } else {
      i := n;
    }
  }

  ghost predicate Ascending(ticks: seq<EmitTick>) {
    forall i, j :: 0 <= i < j < |ticks| ==> ticks[i].at <= ticks[j].at
  }

  /** From tick `from` on the gate stays open and ticks are at most `gap` ns apart. */
  ghost predicate Ticking(ticks: seq<EmitTick>, from: nat, gap: nat) {
    && from < |ticks| && Ascending(ticks)
    && (forall i :: from <= i < |ticks| ==> ticks[i].gate.Open())
    && (forall i :: from < i < |ticks| ==> ticks[i].at - ticks[i - 1].at <= gap)
  }

  /** How many beats went out before tick `p`. */
  function SentBy(ticks: seq<EmitTick>, p: nat): nat
    requires p <= |ticks|
  {
    |Emissions(ticks[..p])|
  }

  lemma {:induction false} EmissionsWithin(ticks: seq<EmitTick>, m: nat)
    requires Ascending(ticks) && m < |Emissions(ticks)|
    ensures ticks != [] && ticks[0].at <= Emissions(ticks)[m] <= ticks[|ticks| - 1].at
    decreases |ticks|
  {
    hide Emits;
    var n := |ticks| - 1;
    if m < |Emissions(ticks[..n])| {
      EmissionsWithin(ticks[..n], m);
    }
  }

  /** Beats at most `w` apart from beat `f` on. */
  ghost predicate Spaced(e: seq<int>, f: nat, w: int) {
    forall x :: f < x < |e| ==> 0 <= e[x] - e[x - 1] < w
  }

  lemma {:induction false} TickingPrefix(ticks: seq<EmitTick>, from: nat, gap: nat)
    requires Ticking(ticks, from, gap)
    ensures ticks[|ticks| - 1].gate.Open() && Ascending(ticks)
    ensures var n := |ticks| - 1;
            from < n ==> Ticking(ticks[..n], from, gap) && ticks[n - 1].at <= ticks[n].at <= ticks[n - 1].at + gap
  {
  }

  /** The newest beat is less than a period old at `at`, and from beat `f` on beats come less than `w` apart. */
  ghost predicate Flowing(e: seq<int>, f: int, at: int, w: int) {
    0 <= f < |e| && 0 <= at - e[|e| - 1] < 10_000_000 && Spaced(e, f, w)
  }

  /**
   Once the gate stays open: the newest beat is less than a period old at every tick, and
   from the one that is newest at tick `from` on, beats are less than a period and a tick
   apart. An emitter with its gate open from the start sends its first beat at once.
   */
  lemma {:induction false} EmissionSpacing(ticks: seq<EmitTick>, from: nat, gap: nat)
    requires Ticking(ticks, from, gap)
    ensures var e, f := Emissions(ticks), SentBy(ticks, from + 1) - 1;
            && Flowing(e, f, ticks[|ticks| - 1].at, 10_000_000 + gap)
            && e[f] <= ticks[from].at && (from == 0 ==> f == 0 && e[0] == ticks[0].at)
    decreases |ticks|
  {
    hide Emissions, Ticking, Ascending, Flowing, SentBy;
    TickingFrom(ticks, from, gap);
    TickingPrefix(ticks, from, gap);
    if |ticks| - 1 == from {
      FirstOpenTick(ticks, gap);
    } else {
      var n := |ticks| - 1;
      var before := ticks[..n];
      SentBySame(ticks, n, from + 1);
      EmissionSpacing(before, from, gap);
      OpenTick(ticks);
      FlowingStep(Emissions(before), SentBy(ticks, from + 1) - 1, ticks[n - 1].at, ticks[n].at, gap);
    }
  }

  lemma {:induction false} SentBySame(ticks: seq<EmitTick>, n: nat, p: nat)
    requires p <= n <= |ticks|
    ensures SentBy(ticks[..n], p) == SentBy(ticks, p)
  {
    hide Emissions;
    assert ticks[..n][..p] == ticks[..p];
  }

  lemma {:induction false} FirstOpenTick(ticks: seq<EmitTick>, gap: nat)
    requires ticks != [] && Ascending(ticks) && ticks[|ticks| - 1].gate.Open()
    ensures var e, n := Emissions(ticks), |ticks| - 1;
            && SentBy(ticks, n + 1) == |e| && Flowing(e, |e| - 1, ticks[n].at, 10_000_000 + gap)
            && e[|e| - 1] <= ticks[n].at && (n == 0 ==> e == [ticks[0].at])
  {
    hide Emissions, Ascending;
    OpenTick(ticks);
    var n := |ticks| - 1;
    assert ticks[..n + 1] == ticks;
    if n == 0 {
      NoTicksNoBeats();
      assert ticks[..0] == [];
    }
  }

  lemma {:induction false} NoTicksNoBeats()
    ensures Emissions([]) == []
  {
  }

  lemma {:induction false} FlowingStep(e: seq<int>, f: int, previous: int, at: int, gap: nat)
    requires Flowing(e, f, previous, 10_000_000 + gap) && previous <= at <= previous + gap
    ensures var e' := if at - e[|e| - 1] >= 10_000_000 then e + [at] else e;
            Flowing(e', f, at, 10_000_000 + gap) && e'[f] == e[f] && e'[0] == e[0]
  {
    var w := 10_000_000 + gap;
    if at - e[|e| - 1] >= 10_000_000 {
      var e' := e + [at];
      forall x | f < x < |e'| ensures 0 <= e'[x] - e'[x - 1] < w {
        assert x < |e| ==> e'[x] - e'[x - 1] == e[x] - e[x - 1];
      }
    }
  }

  /** A tick with the gate open emits unless a beat went out less than a period ago. */
  lemma {:induction false} OpenTick(ticks: seq<EmitTick>)
    requires ticks != [] && Ascending(ticks) && ticks[|ticks| - 1].gate.Open()
    ensures var e, at := Emissions(ticks[..|ticks| - 1]), ticks[|ticks| - 1].at;
            && (e != [] ==> e[|e| - 1] <= at)
            && Emissions(ticks) == if e == [] || at - e[|e| - 1] >= 10_000_000 then e + [at] else e
  {
    hide EmitRun, Millis;
    var n := |ticks| - 1;
    var before := ticks[..n];
    EmitterRemembers(before);
    if Emissions(before) != [] {
      var last := |Emissions(before)| - 1;
      EmissionsWithin(before, last);
      MillisFloor(ticks[n].at - Emissions(before)[last]);
    }
  }

  /** The emitter never gets ahead of its rate: consecutive beats are at least ten milliseconds apart. */
  lemma {:induction false} NeverTooOften(ticks: seq<EmitTick>, m: nat)
    requires Ascending(ticks) && 0 < m < |Emissions(ticks)|
    ensures Emissions(ticks)[m] - Emissions(ticks)[m - 1] >= 10_000_000
    decreases |ticks|
  {
    hide EmitRun, Millis, Ascending;
    var n := |ticks| - 1;
    AscendingPrefix(ticks);
    if m < |Emissions(ticks[..n])| {
      NeverTooOften(ticks[..n], m);
    } else {
      OpenTick(ticks);
    }
  }

  lemma {:induction false} AscendingPrefix(ticks: seq<EmitTick>)
    requires ticks != [] && Ascending(ticks)
    ensures Ascending(ticks[..|ticks| - 1])
  {
  }

  lemma {:induction false} MillisFloor(ns: int)
    requires ns >= 0
    ensures Millis(ns) >= PERIOD_MS <==> ns >= 10_000_000
  {
  }

  lemma {:induction false} EmissionsPrefix(ticks: seq<EmitTick>, p: nat)
    requires p <= |ticks|
    ensures Emissions(ticks[..p]) <= Emissions(ticks)
    decreases |ticks|
  {
    hide Emits;
    var n := |ticks| - 1;
    if p <= n {
      assert ticks[..n][..p] == ticks[..p];
      EmissionsPrefix(ticks[..n], p);
    } else {
      assert ticks[..p] == ticks;
    }
  }

  /** Going back from beat `j` to beat `i` loses at most `w` per beat, and never gains. */
  lemma {:induction false} FallBack(e: seq<int>, f: nat, i: nat, j: nat, w: int)
    requires f <= i <= j < |e| && Spaced(e, f, w)
    ensures e[j] - (j - i) * w <= e[i] <= e[j]
    decreases j - i
  {
    if i < j {
      FallBack(e, f, i + 1, j, w);
      assert e[i + 1] - e[i + 1 - 1] < w;
      assert (j - i) * w == (j - i - 1) * w + w;
    }
  }

  /** How many of the ticks are at or before `u`. */
  lemma {:induction false} TicksUpTo(ticks: seq<EmitTick>, u: int) returns (p: nat)
    requires Ascending(ticks)
    ensures p <= |ticks|
    ensures forall i :: 0 <= i < p ==> ticks[i].at <= u
    ensures forall i :: 0 <= i < |ticks| && ticks[i].at <= u ==> i < p
    ensures p < |ticks| ==> ticks[p].at > u
  {
    p := 0;
    while p < |ticks| && ticks[p].at <= u
      invariant p <= |ticks| && forall i :: 0 <= i < p ==> ticks[i].at <= u
    {
      p := p + 1;
    }
  }

  /** While the gate stays open, some beat went out within the last period and tick. */
  lemma {:induction false} RecentBeat(ticks: seq<EmitTick>, from: nat, gap: nat, u: int) returns (j: nat)
    requires Ticking(ticks, from, gap)
    requires ticks[from].at <= u <= ticks[|ticks| - 1].at + gap
    ensures SentBy(ticks, from + 1) - 1 <= j < |Emissions(ticks)|
    ensures u - (10_000_000 + gap) < Emissions(ticks)[j] <= u
  {
    hide Emissions;
    var p := TicksUpTo(ticks, u);
    var seen := ticks[..p];
    assert Ticking(seen, from, gap);
    assert seen[..from + 1] == ticks[..from + 1];
    EmissionSpacing(seen, from, gap);
    EmissionsPrefix(ticks, p);
    j := |Emissions(seen)| - 1;
    assert Emissions(ticks)[j] == Emissions(seen)[j];
    assert seen[p - 1] == ticks[p - 1];
    assert u - ticks[p - 1].at <= gap by {
      if p < |ticks| {
        assert ticks[p].at - ticks[p - 1].at <= gap;
      }
    }
  }

  // ---------------------------------------------------------------------------
  // The link and the node's events
  // ---------------------------------------------------------------------------

  /** Beat number `m` reaching the node at an instant. */
  datatype Arrival = Arrival(m: nat, at: int)

  /** Arrivals keep order, and each takes between `delay` and `delay + jitter`. */
  ghost predicate Carried(e: seq<int>, arr: seq<Arrival>, delay: nat, jitter: nat) {
    && (forall a :: 0 <= a < |arr| ==>
          arr[a].m < |e| && e[arr[a].m] + delay <= arr[a].at <= e[arr[a].m] + delay + jitter)
    && (forall a, b :: 0 <= a < b < |arr| ==> arr[a].m < arr[b].m && arr[a].at <= arr[b].at)
  }

  /** Some beat of the numbers `i..i + k` arrives. */
  ghost predicate SomeArrives(arr: seq<Arrival>, i: nat, k: nat) {
    exists a :: 0 <= a < |arr| && i <= arr[a].m <= i + k
  }

  /** At most `k` beats in a row are lost. */
  ghost predicate LossesBounded(e: seq<int>, arr: seq<Arrival>, k: nat) {
    forall i: nat :: i + k < |e| ==> SomeArrives(arr, i, k)
  }

  datatype Stamped = Stamped(at: int, e: Event)

  function Events(st: seq<Stamped>): seq<Event> {
    seq(|st|, i requires 0 <= i < |st| => st[i].e)
  }

  /** The node's events in time order, stamped in whole milliseconds, with the bus up throughout. */
  ghost predicate NodeStream(boot: int, st: seq<Stamped>) {
    && (forall i :: 0 <= i < |st| ==> st[i].e.now == st[i].at / NS && boot <= st[i].e.now && !st[i].e.BusDown?)
    && (forall i, j :: 0 <= i < j < |st| ==> st[i].at <= st[j].at)
  }

  function BeatCount(st: seq<Stamped>): nat
    decreases |st|
  {
    if st == [] then 0
    else BeatCount(st[..|st| - 1]) + if st[|st| - 1].e.Heartbeat? then 1 else 0
  }

  /** Event `i`, if it is a heartbeat, is the next arrival. */
  ghost predicate IsArrival(arr: seq<Arrival>, st: seq<Stamped>, i: nat)
    requires i < |st|
  {
    st[i].e.Heartbeat? ==>
      var a := BeatCount(st[..i]);
      a < |arr| && st[i] == Stamped(arr[a].at, Event.Heartbeat(arr[a].at / NS, arr[a].m % 0x1_0000, false))
  }

  /** The node's heartbeats are the arrivals in order, and none that has arrived is outstanding. */
  ghost predicate Fed(arr: seq<Arrival>, st: seq<Stamped>) {
    && (forall i :: 0 <= i < |st| ==> IsArrival(arr, st, i))
    && (forall a, q :: 0 <= a < |arr| && 0 <= q < |st| && arr[a].at < st[q].at ==> a < BeatCount(st[..q]))
  }

  lemma {:induction false} MillisMonotone(x: int, y: int, ms: nat)
    ensures x <= y ==> x / NS <= y / NS
    ensures x <= y + ms * NS ==> x / NS <= y / NS + ms
  {
    assert (y + ms * NS) / NS == y / NS + ms;
  }

  lemma {:induction false} StreamIsTimed(boot: int, st: seq<Stamped>)
    requires NodeStream(boot, st)
    ensures Timed(boot, Events(st))
  {
    forall i, j | 0 <= i < j < |st| ensures st[i].e.now <= st[j].e.now {
      MillisMonotone(st[i].at, st[j].at, 0);
    }
  }

  /** Between neighbouring arrivals at most `k` beats are missing. */
  lemma {:induction false} NeighboursClose(e: seq<int>, arr: seq<Arrival>, k: nat, delay: nat, jitter: nat, a: nat)
    requires Carried(e, arr, delay, jitter) && LossesBounded(e, arr, k) && 0 < a < |arr|
    ensures 0 < arr[a].m - arr[a - 1].m <= k + 1
  {
    var lo := arr[a - 1].m;
    if lo + 1 + k < |e| {
      assert SomeArrives(arr, lo + 1, k);
      var x :| 0 <= x < |arr| && lo + 1 <= arr[x].m <= lo + 1 + k;
      assert x >= a;
    }
  }

  /** Numbers less than 65536 apart stay different in sixteen bits. */
  lemma {:induction false} TruncationSeparates(lo: nat, d: nat)
    requires 0 < d < 0x1_0000
    ensures (lo + d) % 0x1_0000 != lo % 0x1_0000
  {
    var q, r := lo / 0x1_0000, lo % 0x1_0000;
    assert lo + d == 0x1_0000 * q + (r + d);
  }

  lemma {:induction false} NeighboursDiffer(e: seq<int>, arr: seq<Arrival>, k: nat, delay: nat, jitter: nat, a: nat)
    requires Carried(e, arr, delay, jitter) && LossesBounded(e, arr, k) && k < 0xFFFF && 0 < a < |arr|
    ensures arr[a].m % 0x1_0000 != arr[a - 1].m % 0x1_0000
  {
    NeighboursClose(e, arr, k, delay, jitter, a);
    TruncationSeparates(arr[a - 1].m, arr[a].m - arr[a - 1].m);
  }

  /** Every arrival counts: the latest accepted beat is the latest arrival. */
  lemma {:induction false} ArrivalsCount(e: seq<int>, arr: seq<Arrival>, k: nat, delay: nat, jitter: nat,
                                         boot: int, st: seq<Stamped>, n: nat)
    requires Carried(e, arr, delay, jitter) && LossesBounded(e, arr, k) && k < 0xFFFF
    requires NodeStream(boot, st) && Fed(arr, st) && n <= |st|
    ensures var c, b := BeatCount(st[..n]), LastBeat(Events(st)[..n]);
            if c == 0 then b < 0 else b >= 0 && BeatCount(st[..b]) == c - 1
    decreases n
  {
    hide Carried, LossesBounded, Fed, NodeStream, BeatCount, LastBeat;
    if n == 0 {
      NoEventsNoBeats(st);
    } else {
      ArrivalsCount(e, arr, k, delay, jitter, boot, st, n - 1);
      BusUpAt(boot, st, n - 1);
      CountsStep(st, n);
      var c, b := BeatCount(st[..n - 1]), LastBeat(Events(st)[..n - 1]);
      if st[n - 1].e.Heartbeat? && c > 0 {
        FedAt(arr, st, n - 1);
        FedAt(arr, st, b);
        NeighboursDiffer(e, arr, k, delay, jitter, c);
      }
    }
  }

  lemma {:induction false} NoEventsNoBeats(st: seq<Stamped>)
    ensures BeatCount(st[..0]) == 0 && LastBeat(Events(st)[..0]) == -1
  {
  }

  lemma {:induction false} BusUpAt(boot: int, st: seq<Stamped>, i: nat)
    requires NodeStream(boot, st) && i < |st|
    ensures !st[i].e.BusDown?
  {
  }

  /** What one more event does to the count of beats and to the latest accepted one. */
  lemma {:induction false} CountsStep(st: seq<Stamped>, n: nat)
    requires 0 < n <= |st| && !st[n - 1].e.BusDown?
    ensures BeatCount(st[..n]) == BeatCount(st[..n - 1]) + if st[n - 1].e.Heartbeat? then 1 else 0
    ensures var b, next := LastBeat(Events(st)[..n - 1]), st[n - 1].e;
            && (b >= 0 ==> b < n - 1 && st[b].e.Heartbeat?)
            && LastBeat(Events(st)[..n])
               == if next.Heartbeat? && (b < 0 || st[b].e.seqNo != next.seqNo) then n - 1 else b
  {
    var evs := Events(st);
    assert evs[..n][..n - 1] == evs[..n - 1] && st[..n][..n - 1] == st[..n - 1];
    assert evs[..n][n - 1] == st[n - 1].e;
    var b := LastBeat(evs[..n - 1]);
    assert b >= 0 ==> evs[..n - 1][b] == st[b].e && evs[..n][b] == st[b].e;
  }

  lemma {:induction false} FedAt(arr: seq<Arrival>, st: seq<Stamped>, i: nat)
    requires Fed(arr, st) && i < |st|
    ensures IsArrival(arr, st, i)
  {
  }

  lemma {:induction false} TimesOrdered(x: int, y: int, w: int)
    requires w > 0
    ensures x <= y <==> x * w <= y * w
  {
    assert y * w - x * w == (y - x) * w;
  }

  lemma {:induction false} EnoughBeats(e: seq<int>, f: nat, j: nat, u: int, k: nat, w: int)
    requires w > 0 && Spaced(e, f, w) && f <= j < |e| && e[j] <= u && u - w < e[j] && e[f] + (k + 1) * w <= u
    ensures k <= j - f
  {
    FallBack(e, f, f, j, w);
    assert (k + 1) * w == k * w + w;
    TimesOrdered(k, j - f, w);
  }

  lemma {:induction false} BeatInWindow(e: seq<int>, f: nat, m: nat, j: nat, u: int, k: nat, w: int)
    requires w > 0 && Spaced(e, f, w) && f <= m && j - k <= m <= j < |e| && u - w < e[j] <= u
    ensures u - (k + 1) * w < e[m] <= u
  {
    FallBack(e, f, m, j, w);
    assert (k + 1) * w == k * w + w;
    TimesOrdered(j - m, k, w);
  }

  /** Some beat sent at or before `u` arrives within the watchdog window. */
  lemma {:induction false} ArrivalInTime(ticks: seq<EmitTick>, from: nat, gap: nat, arr: seq<Arrival>, k: nat,
                                         delay: nat, jitter: nat, u: int) returns (a: nat)
    requires Ticking(ticks, from, gap)
    requires Carried(Emissions(ticks), arr, delay, jitter) && LossesBounded(Emissions(ticks), arr, k)
    requires ticks[from].at + (k + 1) * (10_000_000 + gap) <= u <= ticks[|ticks| - 1].at + gap
    ensures a < |arr|
    ensures u + delay - (k + 1) * (10_000_000 + gap) < arr[a].at <= u + delay + jitter
  {
    hide Emissions, Ticking, SentBy;
    TickingFrom(ticks, from, gap);
    var w := 10_000_000 + gap;
    assert (k + 1) * w >= 0;
    var e := Emissions(ticks);
    var j := RecentBeat(ticks, from, gap, u);
    EmissionSpacing(ticks, from, gap);
    var f := SentBy(ticks, from + 1) - 1;
    EnoughBeats(e, f, j, u, k, w);
    assert SomeArrives(arr, j - k, k);
    a :| 0 <= a < |arr| && j - k <= arr[a].m <= j;
    BeatInWindow(e, f, arr[a].m, j, u, k, w);
  }

  lemma {:induction false} TickingFrom(ticks: seq<EmitTick>, from: nat, gap: nat)
    requires Ticking(ticks, from, gap)
    ensures from < |ticks| && Ascending(ticks)
  {
  }

  lemma {:induction false} LossCount(k: nat, gap: nat, jitter: nat)
    requires (k + 1) * (10_000_000 + gap) + jitter <= HEARTBEAT_TIMEOUT_MS * NS
    ensures k < 5
  {
    assert (k + 1) * (10_000_000 + gap) == (k + 1) * (10_000_000) + (k + 1) * gap;
  }

  /** The latest beat before event `q` is at least as late as any arrival already seen. */
  lemma {:induction false} LatestBeatIsLater(arr: seq<Arrival>, boot: int, st: seq<Stamped>, q: nat, b: int, a: nat)
    requires NodeStream(boot, st) && Fed(arr, st) && q < |st| && 0 <= b < q && st[b].e.Heartbeat?
    requires a <= BeatCount(st[..b]) && forall x, y :: 0 <= x < y < |arr| ==> arr[x].at <= arr[y].at
    ensures a < |arr| && arr[a].at <= st[b].at
  {
    assert IsArrival(arr, st, b);
  }

  /** The latest beat the node has accepted before event `q` left the emitter at instant `since` or later. */
  ghost predicate HeardSince(ticks: seq<EmitTick>, since: int, arr: seq<Arrival>, st: seq<Stamped>, q: nat) {
    && q <= |st|
    && var b := LastBeat(Events(st)[..q]);
       && b >= 0
       && var a := BeatCount(st[..b]);
          a < |arr| && arr[a].m < |Emissions(ticks)| && since <= Emissions(ticks)[arr[a].m]
  }

  /** An OPERATIONAL node fed by this emitter has heard a beat of it. */
  lemma {:induction false} HeardSinceFirst(ticks: seq<EmitTick>, arr: seq<Arrival>, delay: nat, jitter: nat,
                                           boot: int, st: seq<Stamped>, q: nat)
    requires Ascending(ticks) && ticks != [] && Carried(Emissions(ticks), arr, delay, jitter)
    requires NodeStream(boot, st) && Fed(arr, st) && q < |st|
    requires After(boot, Events(st)[..q]).state == OPERATIONAL
    ensures HeardSince(ticks, ticks[0].at, arr, st, q)
  {
    hide After, Emissions, LastBeat, BeatCount;
    var evs := Events(st);
    LiveWhileOperational(boot, evs[..q]);
    HistoryRemembered(boot, evs[..q]);
    var b := LastBeat(evs[..q]);
    assert evs[..q][b] == st[b].e;
    assert IsArrival(arr, st, b);
    EmissionsWithin(ticks, arr[BeatCount(st[..b])].m);
  }

  /** A beat sent since then is at most 50 ms old for as long as that instant is. */
  lemma {:induction false} EarlyBeatIsRecent(ticks: seq<EmitTick>, since: int, arr: seq<Arrival>, delay: nat, jitter: nat,
                                             boot: int, st: seq<Stamped>, q: nat)
    requires Carried(Emissions(ticks), arr, delay, jitter)
    requires NodeStream(boot, st) && Fed(arr, st) && q < |st| && HeardSince(ticks, since, arr, st, q)
    requires st[q].at <= since + delay + HEARTBEAT_TIMEOUT_MS * NS
    ensures var b := LastBeat(Events(st)[..q]); b >= 0 && st[q].at <= st[b].at + HEARTBEAT_TIMEOUT_MS * NS
  {
    hide Emissions, LastBeat, BeatCount;
    var evs := Events(st);
    var b := LastBeat(evs[..q]);
    assert evs[..q][b] == st[b].e;
    assert IsArrival(arr, st, b);
  }

  /** Later on, a beat sent recently enough has arrived. */
  lemma {:induction false} LateBeatIsRecent(ticks: seq<EmitTick>, from: nat, gap: nat, arr: seq<Arrival>, k: nat,
                                            delay: nat, jitter: nat, boot: int, st: seq<Stamped>, q: nat)
    requires Ticking(ticks, from, gap)
    requires Carried(Emissions(ticks), arr, delay, jitter) && LossesBounded(Emissions(ticks), arr, k)
    requires NodeStream(boot, st) && Fed(arr, st)
    requires (k + 1) * (10_000_000 + gap) + jitter <= HEARTBEAT_TIMEOUT_MS * NS
    requires q < |st| && ticks[from].at + delay + HEARTBEAT_TIMEOUT_MS * NS < st[q].at
    requires st[q].at <= ticks[|ticks| - 1].at + gap + delay + jitter
    ensures var b := LastBeat(Events(st)[..q]); b >= 0 && st[q].at <= st[b].at + HEARTBEAT_TIMEOUT_MS * NS
  {
    hide Emissions, LastBeat, LossesBounded, BeatCount, IsArrival;
    LossCount(k, gap, jitter);
    var u := st[q].at - delay - jitter - 1;
    var a := ArrivalInTime(ticks, from, gap, arr, k, delay, jitter, u);
    assert arr[a].at < st[q].at;
    ArrivalsCount(Emissions(ticks), arr, k, delay, jitter, boot, st, q);
    var evs := Events(st);
    var b := LastBeat(evs[..q]);
    assert evs[..q][b] == st[b].e;
    LatestBeatIsLater(arr, boot, st, q, b, a);
  }

  /**
   No false trip. From tick `from` on the gate stays open and the emitter is ticked every
   `gap` ns or less, at most `k` beats in a row are lost, and (k + 1)(10 ms + gap) + jitter
   <= 50 ms: a tick of an OPERATIONAL node leaves it OPERATIONAL. With the gate open from the
   start that holds at once; after a reopening it holds as soon as the node has heard a beat
   sent since, and in any case once a beat sent then would be 50 ms old.
   */
  lemma {:induction false} NoFalseTrip(ticks: seq<EmitTick>, from: nat, gap: nat, arr: seq<Arrival>, k: nat,
                                       delay: nat, jitter: nat, boot: int, st: seq<Stamped>, q: nat)
    requires Ticking(ticks, from, gap)
    requires Carried(Emissions(ticks), arr, delay, jitter) && LossesBounded(Emissions(ticks), arr, k)
    requires NodeStream(boot, st) && Fed(arr, st)
    requires (k + 1) * (10_000_000 + gap) + jitter <= HEARTBEAT_TIMEOUT_MS * NS
    requires q < |st| && st[q].e.Tick?
    requires || from == 0 || HeardSince(ticks, ticks[from].at, arr, st, q)
             || ticks[from].at + delay + HEARTBEAT_TIMEOUT_MS * NS < st[q].at
    requires st[q].at <= ticks[|ticks| - 1].at + gap + delay + jitter
    requires After(boot, Events(st)[..q]).state == OPERATIONAL
    ensures After(boot, Events(st)[..q + 1]).state == OPERATIONAL
  {
    hide After, Emissions, LastBeat, Ticking, LossesBounded, Carried, Fed, NodeStream, Events, HeardSince;
    TickingFrom(ticks, from, gap);
    if st[q].at <= ticks[from].at + delay + HEARTBEAT_TIMEOUT_MS * NS {
      if from == 0 {
        HeardSinceFirst(ticks, arr, delay, jitter, boot, st, q);
      }
      EarlyBeatIsRecent(ticks, ticks[from].at, arr, delay, jitter, boot, st, q);
    } else {
      LateBeatIsRecent(ticks, from, gap, arr, k, delay, jitter, boot, st, q);
    }
    RecentBeatHolds(boot, st, q);
  }

  /** A tick whose latest beat is at most 50 ms old leaves OPERATIONAL alone. */
  lemma {:induction false} RecentBeatHolds(boot: int, st: seq<Stamped>, q: nat)
    requires NodeStream(boot, st) && q < |st| && st[q].e.Tick?
    requires var b := LastBeat(Events(st)[..q]); b >= 0 && st[q].at <= st[b].at + HEARTBEAT_TIMEOUT_MS * NS
    requires After(boot, Events(st)[..q]).state == OPERATIONAL
    ensures After(boot, Events(st)[..q + 1]).state == OPERATIONAL
  {
    hide After, LastBeat;
    var evs := Events(st);
    var b := LastBeat(evs[..q]);
    MillisMonotone(st[q].at, st[b].at, HEARTBEAT_TIMEOUT_MS);
    HistoryRemembered(boot, evs[..q]);
    assert evs[..q][b] == st[b].e;
    assert evs[..q + 1][..q] == evs[..q];
    AfterLast(boot, evs[..q + 1]);
  }

  /** With the gate shut from `shut` on, every arrival left the emitter before then. */
  lemma {:induction false} ArrivalsBeforeShut(ticks: seq<EmitTick>, shut: int, arr: seq<Arrival>, delay: nat,
                                              jitter: nat, a: nat)
    requires forall i :: 0 <= i < |ticks| && ticks[i].at >= shut ==> !ticks[i].gate.Open()
    requires Carried(Emissions(ticks), arr, delay, jitter) && a < |arr|
    ensures arr[a].at < shut + delay + jitter
  {
    hide Emissions;
    var i := NeverFakesLiveness(ticks, arr[a].m);
  }

  /**
   A shut gate trips. If the gate is shut from instant `shut` on, a node ticked more than
   50 ms after the last beat could still arrive is not OPERATIONAL.
   */
  lemma {:induction false} ShutGateTrips(ticks: seq<EmitTick>, shut: int, arr: seq<Arrival>, delay: nat, jitter: nat,
                                         boot: int, st: seq<Stamped>, m: nat)
    requires forall i :: 0 <= i < |ticks| && ticks[i].at >= shut ==> !ticks[i].gate.Open()
    requires Carried(Emissions(ticks), arr, delay, jitter)
    requires NodeStream(boot, st) && Fed(arr, st)
    requires m < |st| && st[m].e.Tick? && shut + delay + jitter + (HEARTBEAT_TIMEOUT_MS + 1) * NS <= st[m].at
    ensures After(boot, Events(st)).state != OPERATIONAL
  {
    hide After, Emissions;
    var evs := Events(st);
    forall b | Beat(evs, b) ensures evs[b].now < evs[m].now - HEARTBEAT_TIMEOUT_MS {
      assert IsArrival(arr, st, b);
      ArrivalsBeforeShut(ticks, shut, arr, delay, jitter, BeatCount(st[..b]));
      MillisMonotone(st[b].at, st[m].at - (HEARTBEAT_TIMEOUT_MS + 1) * NS, 0);
      assert (st[m].at - (HEARTBEAT_TIMEOUT_MS + 1) * NS) / NS == st[m].at / NS - (HEARTBEAT_TIMEOUT_MS + 1);
    }
    StreamIsTimed(boot, st);
    if After(boot, evs).state == OPERATIONAL {
      var b := OperationalHasBeat(boot, evs, m);
    }
  }
}
