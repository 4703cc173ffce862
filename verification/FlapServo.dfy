/**
 The flap pipeline: every 10 ms twelve commanded positions pass the envelope clamp, the
 pairwise exclusion of overlapping segments and the slew limit before they become pulse
 widths. Positions are in permille of half throw, pulses in microseconds.
 */
module FlapServo {
  import opened WireTypes

  const FLAPS := 12
  const PAIRS := 4
  const PERIOD_MS := 10

  type I16 = v: int | -32768 <= v < 32768
  type Flap = i: nat | i < FLAPS
  type Scale = r: real | 0.05 <= r <= 1.0 witness 1.0

  datatype Config = Config(env: int, brake: int, slewMax: nat, slewDefault: nat)

  const PULSE_MIN := 900
  const PULSE_NEUTRAL := 1500
  const PULSE_MAX := 2100

  /** Root, middle and tip segments, the same on both wings; envelopes are symmetric. */
  function ConfigOf(i: Flap): Config {
    if i % 6 < 2 then Config(900, 800, 250, 120)
    else if i % 6 < 4 then Config(1000, 900, 250, 120)
    else Config(800, 700, 200, 100)
  }

  /** The positions a root, middle or tip segment may take, as the flap table lists them. */
  const ENVELOPE: seq<int> := [900, 900, 1000, 1000, 800, 800]

  datatype Pair = Pair(a: Flap, b: Flap, max: int)

  function PairOf(p: nat): Pair
    requires p < PAIRS
  {
    if p == 0 then Pair(0, 1, 1400)
    else if p == 1 then Pair(2, 3, 1600)
    else if p == 2 then Pair(6, 7, 1400)
    else Pair(8, 9, 1600)
  }

  /** The pair a flap belongs to, or `PAIRS`. */
  function PairIndex(i: Flap): nat {
    if i < 2 then 0 else if i < 4 then 1 else if i < 6 then PAIRS else if i < 8 then 2 else if i < 10 then 3 else PAIRS
  }

  datatype Target = Target(pos: I16, rateLim: Byte, brake: bool)

  type Targets = s: seq<Target> | |s| == FLAPS witness seq(FLAPS, _ => Target(0, 0, false))
  type Positions = s: seq<int> | |s| == FLAPS witness seq(FLAPS, _ => 0)

  function Clamp(v: int, lo: int, hi: int): int {
    if v < lo then lo else if v > hi then hi else v
  }

  /** Division that rounds toward zero. */
  function Quotient(n: int, d: int): int
    requires d > 0
  {
    if n >= 0 then n / d else -(-n / d)
  }

  function Pulse(pos: int): int {
    PULSE_NEUTRAL + Quotient(pos * (if pos >= 0 then PULSE_MAX - PULSE_NEUTRAL else PULSE_NEUTRAL - PULSE_MIN), 1000)
  }

  // ---------------------------------------------------------------------------
  // One flap, one pair
  // ---------------------------------------------------------------------------

  predicate InEnvelope(i: Flap, pos: int) {
    Abs(pos) <= ConfigOf(i).env
  }

  function Asked(i: Flap, canAct: bool, t: Target): int {
    if !canAct then 0 else if t.brake then ConfigOf(i).brake else t.pos
  }

  function Clamped(i: Flap, canAct: bool, t: Target): int {
    Clamp(Asked(i, canAct, t), -ConfigOf(i).env, ConfigOf(i).env)
  }

  /** How much each magnitude of a pair is cut. */
  function Cut(a: int, b: int, max: int): nat {
    if Abs(a) + Abs(b) > max then (Abs(a) + Abs(b) - max + 1) / 2 else 0
  }

  /** A position pulled toward neutral, never past it. */
  function Shrunk(v: int, cut: nat): int {
    var mag := if Abs(v) < cut then 0 else Abs(v) - cut;
    if v < 0 then -mag else mag
  }

  function PairCut(p: nat, canAct: bool, t: Targets): nat
    requires p < PAIRS
  {
    var pr := PairOf(p);
    Cut(Clamped(pr.a, canAct, t[pr.a]), Clamped(pr.b, canAct, t[pr.b]), pr.max)
  }

  function Wanted(i: Flap, canAct: bool, t: Targets): int {
    var p := PairIndex(i);
    var v := Clamped(i, canAct, t[i]);
    if p == PAIRS then v else Shrunk(v, PairCut(p, canAct, t))
  }

  /** Reported as being at a limit. */
  predicate Pinned(i: Flap, canAct: bool, t: Target) {
    var clamped := Clamped(i, canAct, t);
    clamped != Asked(i, canAct, t) || Abs(clamped) == ConfigOf(i).env
  }

  predicate Limited(i: Flap, canAct: bool, t: Targets) {
    Pinned(i, canAct, t[i]) || (PairIndex(i) < PAIRS && PairCut(PairIndex(i), canAct, t) > 0)
  }

  function Percent(i: Flap, canAct: bool, t: Target): nat {
    var c := ConfigOf(i);
    var pct := if canAct && t.rateLim != 0 && t.rateLim < c.slewDefault then t.rateLim else c.slewDefault;
    if pct > c.slewMax then c.slewMax else pct
  }

  function Permille(pct: nat, scale: Scale): int {
    (pct as real * 10.0 * scale).Floor
  }

  function SlewStep(i: Flap, canAct: bool, t: Target, scale: Scale): int {
    var step := Quotient(Permille(Percent(i, canAct, t), scale) * PERIOD_MS, 1000);
    if step < 1 then 1 else step
  }

  function Moved(cur: int, want: int, step: int): int {
    cur + Clamp(want - cur, -step, step)
  }

  datatype Input = Input(canAct: bool, targets: Targets, scale: Scale)

  function Next(cur: Positions, inp: Input, i: Flap): int {
    Moved(cur[i], Wanted(i, inp.canAct, inp.targets), SlewStep(i, inp.canAct, inp.targets[i], inp.scale))
  }

  function Tick(cur: Positions, inp: Input): Positions {
    seq(FLAPS, i requires 0 <= i < FLAPS => Next(cur, inp, i))
  }

  const NEUTRAL: Positions := seq(FLAPS, _ => 0)

  function Run(cur: Positions, inputs: seq<Input>): Positions
    decreases |inputs|
  {
    if inputs == [] then cur else Tick(Run(cur, inputs[..|inputs| - 1]), inputs[|inputs| - 1])
  }

  // ---------------------------------------------------------------------------
  // The task
  // ---------------------------------------------------------------------------

  class ServoTask {
    const cur: array<int>
    const want: array<int>
    const limited: array<bool>
    const pulse: array<int>

    ghost predicate Valid() {
      && cur.Length == FLAPS && want.Length == FLAPS && limited.Length == FLAPS && pulse.Length == FLAPS
      && cur != want && cur != pulse && want != pulse
    }

    constructor ()
      ensures Valid() && cur[..] == NEUTRAL
      ensures fresh(cur) && fresh(want) && fresh(limited) && fresh(pulse)
    {
      cur := new int[FLAPS](_ => 0);
      want := new int[FLAPS](_ => 0);
      limited := new bool[FLAPS](_ => false);
      pulse := new int[FLAPS](_ => PULSE_NEUTRAL);
    }

    /** The single write path. A position inside its envelope reaches the servo unclamped. */
    method FlapWrite(flap: Flap, pos: int)
      requires Valid()
      modifies pulse
      ensures pulse[..] == old(pulse[..])[flap := pulse[flap]]
      ensures 900 <= pulse[flap] <= 2100
      ensures pulse[flap] == Pulse(if pos > ENVELOPE[flap % 6] then ENVELOPE[flap % 6]
                                   else if pos < -ENVELOPE[flap % 6] then -ENVELOPE[flap % 6]
                                   else pos)
      ensures -ENVELOPE[flap % 6] <= pos <= ENVELOPE[flap % 6] ==> Abs(1000 * (pulse[flap] - 1500) - 600 * pos) < 1000
    {
      var p := Clamp(pos, -ConfigOf(flap).env, ConfigOf(flap).env);
      var width := Pulse(p);
      PulseInRange(p);
      PulseMeaning(p);
      if width < PULSE_MIN {
        width := PULSE_MIN;
      }
      if width > PULSE_MAX {
        width := PULSE_MAX;
      }
      pulse[flap] := width;
    }

    method ClampAll(canAct: bool, t: Targets)
      requires Valid()
      modifies want, limited
      ensures forall i :: 0 <= i < FLAPS ==> want[i] == Clamped(i, canAct, t[i])
      ensures forall i :: 0 <= i < FLAPS ==> limited[i] == Pinned(i, canAct, t[i])
    {
      for i := 0 to FLAPS
        invariant forall j :: 0 <= j < i ==> want[j] == Clamped(j, canAct, t[j])
        invariant forall j :: 0 <= j < i ==> limited[j] == Pinned(j, canAct, t[j])
      {
        var w := Asked(i, canAct, t[i]);
        var clamped := Clamp(w, -ConfigOf(i).env, ConfigOf(i).env);
        limited[i] := clamped != w || clamped == -ConfigOf(i).env || clamped == ConfigOf(i).env;
        want[i] := clamped;
      }
    }

    /** Pull both members of every overlapping pair to the nearest legal point. */
    method ExcludePairs(canAct: bool, t: Targets)
      requires Valid()
      requires forall i :: 0 <= i < FLAPS ==> want[i] == Clamped(i, canAct, t[i])
      requires forall i :: 0 <= i < FLAPS ==> limited[i] == Pinned(i, canAct, t[i])
      modifies want, limited
      ensures forall i :: 0 <= i < FLAPS ==> want[i] == Wanted(i, canAct, t)
      ensures forall i :: 0 <= i < FLAPS ==> limited[i] == Limited(i, canAct, t)
    {
      hide Clamped, Cut, Shrunk, Pinned;
      for p := 0 to PAIRS
        invariant forall i :: 0 <= i < FLAPS ==>
                    want[i] == if PairIndex(i) < p then Wanted(i, canAct, t) else Clamped(i, canAct, t[i])
        invariant forall i :: 0 <= i < FLAPS ==>
                    limited[i] == if PairIndex(i) < p then Limited(i, canAct, t) else Pinned(i, canAct, t[i])
      {
        PairMembers(p);
        CutPair(PairOf(p));
      }
    }

    method CutPair(pr: Pair)
      requires Valid() && pr.a != pr.b
      modifies want, limited
      ensures var cut := Cut(old(want[pr.a]), old(want[pr.b]), pr.max);
              && want[pr.a] == Shrunk(old(want[pr.a]), cut) && want[pr.b] == Shrunk(old(want[pr.b]), cut)
              && limited[pr.a] == (old(limited[pr.a]) || cut > 0)
              && limited[pr.b] == (old(limited[pr.b]) || cut > 0)
      ensures forall i :: 0 <= i < FLAPS && i != pr.a && i != pr.b ==>
                want[i] == old(want[i]) && limited[i] == old(limited[i])
    {
      hide Cut, Shrunk;
      CutWhenOver(want[pr.a], want[pr.b], pr.max);
      var sum := Abs(want[pr.a]) + Abs(want[pr.b]);
      if sum > pr.max {
        var cut := Cut(want[pr.a], want[pr.b], pr.max);
        want[pr.a] := Shrunk(want[pr.a], cut);
        limited[pr.a] := true;
        want[pr.b] := Shrunk(want[pr.b], cut);
        limited[pr.b] := true;
      } else {
        NoCut(want[pr.a], want[pr.b], pr.max);
      }
    }

    /** One period of the task. */
    method Period(inp: Input)
      requires Valid()
      requires forall i :: 0 <= i < FLAPS ==> InEnvelope(i, cur[i])
      modifies cur, want, limited, pulse
      ensures cur[..] == Tick(old(cur[..]), inp)
      ensures forall i :: 0 <= i < FLAPS ==> want[i] == Wanted(i, inp.canAct, inp.targets)
      ensures forall i :: 0 <= i < FLAPS ==> limited[i] == Limited(i, inp.canAct, inp.targets)
      ensures forall i :: 0 <= i < FLAPS ==> InEnvelope(i, cur[i]) && pulse[i] == Pulse(cur[i])
    {
      hide Wanted, SlewStep, InEnvelope, Pulse, Moved, Limited, Pinned;
      ClampAll(inp.canAct, inp.targets);
      ExcludePairs(inp.canAct, inp.targets);
      ghost var was := cur[..];
      for i := 0 to FLAPS
        invariant forall j :: 0 <= j < FLAPS ==> want[j] == Wanted(j, inp.canAct, inp.targets)
        invariant forall j :: 0 <= j < FLAPS ==> limited[j] == Limited(j, inp.canAct, inp.targets)
        invariant forall j :: 0 <= j < i ==> cur[j] == Next(was, inp, j)
        invariant forall j :: i <= j < FLAPS ==> cur[j] == was[j]
        invariant forall j :: 0 <= j < i ==> InEnvelope(j, cur[j]) && pulse[j] == Pulse(cur[j])
      {
        NextInEnvelope(was, inp, i);
        EnvelopeTable(i, Next(was, inp, i));
        cur[i] := Moved(cur[i], want[i], SlewStep(i, inp.canAct, inp.targets[i], inp.scale));
        FlapWrite(i, cur[i]);
      }
    }
  }

  // ---------------------------------------------------------------------------
  // Envelope, exclusion, slew
  // ---------------------------------------------------------------------------

  /** Inside the widest envelope the mechanical clamp has nothing to do. */
  lemma {:induction false} PulseInRange(pos: int)
    requires Abs(pos) <= 1000
    ensures PULSE_MIN <= Pulse(pos) <= PULSE_MAX
  {
  }

  /** Full throw either way is 600 us from neutral, and the pulse is proportional to the position, rounded toward neutral. */
  lemma {:induction false} PulseMeaning(pos: int)
    ensures Pulse(-1000) == 900 && Pulse(0) == 1500 && Pulse(1000) == 2100
    ensures pos >= 0 ==> 1000 * (Pulse(pos) - 1500) <= 600 * pos < 1000 * (Pulse(pos) - 1500) + 1000
    ensures pos <= 0 ==> 1000 * (Pulse(pos) - 1500) - 1000 < 600 * pos <= 1000 * (Pulse(pos) - 1500)
  {
  }

  lemma {:induction false} PulseRises(p: int, q: int)
    requires p <= q
    ensures Pulse(p) <= Pulse(q)
  {
    hide Pulse;
    PulseMeaning(p);
    PulseMeaning(q);
  }

  lemma {:induction false} PairMembers(p: nat)
    requires p < PAIRS
    ensures var pr := PairOf(p); pr.a < pr.b && PairIndex(pr.a) == p && PairIndex(pr.b) == p
    ensures forall i: Flap :: PairIndex(i) == p <==> i == PairOf(p).a || i == PairOf(p).b
  {
  }

  lemma {:induction false} CutWhenOver(a: int, b: int, max: int)
    ensures Cut(a, b, max) > 0 <==> Abs(a) + Abs(b) > max
  {
  }

  lemma {:induction false} NoCut(a: int, b: int, max: int)
    requires Abs(a) + Abs(b) <= max
    ensures Shrunk(a, Cut(a, b, max)) == a && Shrunk(b, Cut(a, b, max)) == b
  {
  }

  lemma {:induction false} EnvelopeTable(i: Flap, pos: int)
    ensures InEnvelope(i, pos) <==> -ENVELOPE[i % 6] <= pos <= ENVELOPE[i % 6]
  {
  }

  lemma {:induction false} WantedInEnvelope(i: Flap, canAct: bool, t: Targets)
    ensures InEnvelope(i, Wanted(i, canAct, t))
  {
    hide Cut;
  }

  lemma {:induction false} SlewAtLeastOne(i: Flap, canAct: bool, t: Target, scale: Scale)
    ensures SlewStep(i, canAct, t, scale) >= 1
  {
  }

  lemma {:induction false} NextInEnvelope(cur: Positions, inp: Input, i: Flap)
    requires InEnvelope(i, cur[i])
    ensures InEnvelope(i, Next(cur, inp, i))
  {
    hide Wanted, SlewStep;
    WantedInEnvelope(i, inp.canAct, inp.targets);
    SlewAtLeastOne(i, inp.canAct, inp.targets[i], inp.scale);
  }

  /** Horn positions never leave their envelope, whatever is commanded. */
  lemma {:induction false} EnvelopeKept(inputs: seq<Input>, i: Flap)
    ensures InEnvelope(i, Run(NEUTRAL, inputs)[i])
    decreases |inputs|
  {
    hide InEnvelope, Next;
    if inputs == [] {
      assert InEnvelope(i, 0) by {
        NeutralInEnvelope(i);
      }
    } else {
      var n := |inputs| - 1;
      EnvelopeKept(inputs[..n], i);
      NextInEnvelope(Run(NEUTRAL, inputs[..n]), inputs[n], i);
    }
  }

  lemma {:induction false} NeutralInEnvelope(i: Flap)
    ensures InEnvelope(i, 0)
  {
  }

  /**
   Exclusion on two positions inside equal envelopes: the result is legal, both
   magnitudes lose the same amount and keep their sign, and one permille less would
   still be over the limit.
   */
  lemma {:induction false} ExclusionNearest(a: int, b: int, env: int, max: int)
    requires Abs(a) <= env && Abs(b) <= env && env <= max && 3 * env <= 2 * max
    ensures var cut := Cut(a, b, max);
            var a', b' := Shrunk(a, cut), Shrunk(b, cut);
            && Abs(a') + Abs(b') <= max
            && Abs(a') == Abs(a) - cut && Abs(b') == Abs(b) - cut
            && (a' > 0 ==> a > 0) && (a' < 0 ==> a < 0) && (b' > 0 ==> b > 0) && (b' < 0 ==> b < 0)
            && (cut > 0 ==> Abs(a) + Abs(b) - 2 * (cut - 1) > max)
  {
  }

  ghost predicate PairLegal(p: nat, cur: Positions)
    requires p < PAIRS
  {
    var pr := PairOf(p);
    Abs(cur[pr.a]) + Abs(cur[pr.b]) <= pr.max
  }

  function AllWanted(canAct: bool, t: Targets): Positions {
    seq(FLAPS, i requires 0 <= i < FLAPS => Wanted(i, canAct, t))
  }

  /** The targets of every tick satisfy every pair limit. */
  lemma {:induction false} TargetsLegal(p: nat, canAct: bool, t: Targets)
    requires p < PAIRS
    ensures PairLegal(p, AllWanted(canAct, t))
  {
    hide Cut, Shrunk, Clamped;
    var pr := PairOf(p);
    PairMembers(p);
    ClampedInEnvelope(pr.a, canAct, t[pr.a]);
    ClampedInEnvelope(pr.b, canAct, t[pr.b]);
    ExclusionNearest(Clamped(pr.a, canAct, t[pr.a]), Clamped(pr.b, canAct, t[pr.b]), ConfigOf(pr.a).env, pr.max);
  }

  /** The limit flag is up exactly when the request was changed or the clamped request is on the envelope. */
  lemma {:induction false} LimitFlagExact(i: Flap, canAct: bool, t: Targets)
    ensures Limited(i, canAct, t)
            <==> Wanted(i, canAct, t) != Asked(i, canAct, t[i]) || Abs(Clamped(i, canAct, t[i])) == ConfigOf(i).env
  {
    var p := PairIndex(i);
    if p < PAIRS {
      PairCutSmall(i, canAct, t);
      hide PairCut, Shrunk, Asked, PairIndex, ConfigOf;
      ShrinkDiffers(Asked(i, canAct, t[i]), ConfigOf(i).env, PairCut(p, canAct, t));
    }
  }

  /** A pair's cut never exceeds the magnitude it is taken from. */
  lemma {:induction false} PairCutSmall(i: Flap, canAct: bool, t: Targets)
    requires PairIndex(i) < PAIRS
    ensures PairCut(PairIndex(i), canAct, t) <= Abs(Clamped(i, canAct, t[i])) && ConfigOf(i).env >= 0
  {
    hide Cut, Shrunk, Clamped;
    var p := PairIndex(i);
    var pr := PairOf(p);
    PairMembers(p);
    ClampedInEnvelope(pr.a, canAct, t[pr.a]);
    ClampedInEnvelope(pr.b, canAct, t[pr.b]);
    ExclusionNearest(Clamped(pr.a, canAct, t[pr.a]), Clamped(pr.b, canAct, t[pr.b]), ConfigOf(pr.a).env, pr.max);
  }

  /** A clamped and cut request equals the request only when nothing was done to it. */
  lemma {:induction false} ShrinkDiffers(asked: int, env: int, cut: nat)
    requires env >= 0 && cut <= Abs(Clamp(asked, -env, env))
    ensures Shrunk(Clamp(asked, -env, env), cut) == asked <==> cut == 0 && Clamp(asked, -env, env) == asked
  {
  }

  lemma {:induction false} ClampedInEnvelope(i: Flap, canAct: bool, t: Target)
    ensures InEnvelope(i, Clamped(i, canAct, t))
  {
  }

  /** A move is at most one step, goes toward the target and stops there. */
  lemma {:induction false} MoveBounded(cur: int, want: int, step: int)
    requires step >= 1
    ensures var next := Moved(cur, want, step);
            && Abs(next - cur) <= step
            && (cur <= next <= want || want <= next <= cur)
            && Abs(want - next) == if Abs(want - cur) <= step then 0 else Abs(want - cur) - step
  {
  }

  /** A tick moves a flap at most as far as its rate allows, or by one permille. */
  lemma {:induction false} SlewCap(i: Flap, canAct: bool, t: Target, scale: Scale)
    ensures var step := SlewStep(i, canAct, t, scale);
            step == 1 || step * 1000 <= Permille(Percent(i, canAct, t), scale) * PERIOD_MS
    ensures Permille(Percent(i, canAct, t), scale) <= 10 * Percent(i, canAct, t)
    ensures Percent(i, canAct, t) <= ConfigOf(i).slewMax && (canAct && t.rateLim != 0 ==> Percent(i, canAct, t) <= t.rateLim)
  {
    hide Permille;
    Floored(Percent(i, canAct, t), scale);
  }

  /**
   The exact rate: a lower limit in the command replaces the segment's own (120 percent of
   half throw a second, 100 at the tip), the pack's derating scales it, and a tick is a
   hundredth of a second; but a flap always moves by at least one permille.
   */
  lemma {:induction false} SlewExact(i: Flap, canAct: bool, t: Target, scale: Scale)
    ensures var own := if i % 6 < 4 then 120 else 100;
            var pct := if canAct && 0 < t.rateLim < own then t.rateLim else own;
            var step := SlewStep(i, canAct, t, scale);
            && (step == 1 || step as real <= pct as real * scale / 10.0)
            && pct as real * scale / 10.0 < step as real + 1.0
  {
    hide Permille;
    var own := if i % 6 < 4 then 120 else 100;
    var pct := if canAct && 0 < t.rateLim < own then t.rateLim else own;
    assert Percent(i, canAct, t) == pct;
    PermilleExact(pct, scale);
    var step, permille := SlewStep(i, canAct, t, scale), Permille(pct, scale);
    assert step == 1 || step * 100 <= permille;
    assert permille + 1 <= step * 100 + 100;
  }

  lemma {:induction false} PermilleExact(pct: nat, scale: Scale)
    ensures Permille(pct, scale) >= 0
    ensures Permille(pct, scale) as real <= 100.0 * (pct as real * scale / 10.0) < Permille(pct, scale) as real + 1.0
  {
    Floored(pct, scale);
    Rescaled(pct as real, scale);
  }

  lemma {:induction false} Rescaled(x: real, scale: real)
    ensures x * 10.0 * scale == 100.0 * (x * scale / 10.0)
  {
  }

  lemma {:induction false} Floored(pct: nat, scale: Scale)
    ensures 0 <= Permille(pct, scale) <= 10 * pct
  {
    Derated(pct as real * 10.0, scale);
    assert Permille(pct, scale) as real <= pct as real * 10.0;
  }

  lemma {:induction false} Derated(x: real, scale: Scale)
    requires x >= 0.0
    ensures 0.0 <= x * scale <= x
  {
  }

  // ---------------------------------------------------------------------------
  // Reaching the target
  // ---------------------------------------------------------------------------

  function Same(inp: Input, n: nat): seq<Input> {
    seq(n, _ => inp)
  }

  /** Held commands close the distance by exactly one step a tick until there is none. */
  lemma {:induction false} Approach(cur: Positions, inp: Input, n: nat, i: Flap)
    ensures var want := Wanted(i, inp.canAct, inp.targets);
            var step := SlewStep(i, inp.canAct, inp.targets[i], inp.scale);
            var pos := Run(cur, Same(inp, n))[i];
            && (cur[i] <= pos <= want || want <= pos <= cur[i])
            && Abs(want - pos) == if n * step >= Abs(want - cur[i]) then 0 else Abs(want - cur[i]) - n * step
  {
    hide Wanted, SlewStep;
    if n == 0 {
      assert Same(inp, 0) == [];
    } else {
      assert Same(inp, n)[..n - 1] == Same(inp, n - 1);
      Approach(cur, inp, n - 1, i);
      var before := Run(cur, Same(inp, n - 1));
      SlewAtLeastOne(i, inp.canAct, inp.targets[i], inp.scale);
      var want, step := Wanted(i, inp.canAct, inp.targets), SlewStep(i, inp.canAct, inp.targets[i], inp.scale);
      MoveBounded(before[i], want, step);
      OneMore(n, step);
    }
  }

  lemma {:induction false} OneMore(n: nat, step: int)
    ensures n * step == (n - 1) * step + step
  {
  }

  /** Commands held fixed are reached, in no more ticks than the distance divided by the step. */
  lemma {:induction false} FixedTargetReached(cur: Positions, inp: Input, n: nat, i: Flap)
    requires n * SlewStep(i, inp.canAct, inp.targets[i], inp.scale)
             >= Abs(Wanted(i, inp.canAct, inp.targets) - cur[i])
    ensures Run(cur, Same(inp, n))[i] == Wanted(i, inp.canAct, inp.targets)
  {
    hide Wanted, SlewStep, Run;
    Approach(cur, inp, n, i);
  }

  /** A command inside its envelope whose pair stays inside its limit is carried out as it stands. */
  lemma {:induction false} LegalCommandKept(i: Flap, t: Targets)
    requires !t[i].brake && Abs(t[i].pos) <= ENVELOPE[i % 6]
    requires PairIndex(i) < PAIRS ==>
               var pr := PairOf(PairIndex(i));
               Abs(Clamped(pr.a, true, t[pr.a])) + Abs(Clamped(pr.b, true, t[pr.b])) <= pr.max
    ensures Wanted(i, true, t) == t[i].pos
  {
    hide Shrunk, Cut;
    var p := PairIndex(i);
    if p < PAIRS {
      var pr := PairOf(p);
      PairMembers(p);
      NoCut(Clamped(pr.a, true, t[pr.a]), Clamped(pr.b, true, t[pr.b]), pr.max);
    }
  }

  /** One flap commanded, the rest at neutral, nothing limited. */
  function Lone(i: Flap, pos: I16): Input {
    Input(true, seq(FLAPS, k => if k == i then Target(pos, 0, false) else Target(0, 0, false)), 1.0)
  }

  lemma {:induction false} LoneWants(i: Flap, pos: I16, k: Flap)
    ensures var inp := Lone(i, pos);
            Wanted(k, true, inp.targets) == if k != i then 0 else Clamp(pos, -ENVELOPE[i % 6], ENVELOPE[i % 6])
  {
    hide Clamped, Cut, Shrunk;
    var t := Lone(i, pos).targets;
    var p := PairIndex(k);
    LoneClamped(i, pos, k);
    if p < PAIRS {
      var pr := PairOf(p);
      PairMembers(p);
      LoneClamped(i, pos, pr.a);
      LoneClamped(i, pos, pr.b);
      NoCut(Clamped(pr.a, true, t[pr.a]), Clamped(pr.b, true, t[pr.b]), pr.max);
    }
  }

  lemma {:induction false} LoneClamped(i: Flap, pos: I16, k: Flap)
    ensures Clamped(k, true, Lone(i, pos).targets[k])
         == if k != i then 0 else Clamp(pos, -ENVELOPE[i % 6], ENVELOPE[i % 6])
  {
  }

  lemma {:induction false} LoneStep(i: Flap, pos: I16, k: Flap)
    ensures var inp := Lone(i, pos);
            SlewStep(k, true, inp.targets[k], inp.scale) == if k % 6 < 4 then 12 else 10
  {
    hide SlewStep;
    var inp := Lone(i, pos);
    SlewExact(k, true, inp.targets[k], inp.scale);
  }

  /** How far a lone flap has come after `n` ticks: its rate times the ticks, up to its command or its envelope. */
  function LoneReach(i: Flap, pos: I16, n: nat): int {
    var end := if Abs(pos) < ENVELOPE[i % 6] then Abs(pos) else ENVELOPE[i % 6];
    var run := n * if i % 6 < 4 then 12 else 10;
    var far := if run < end then run else end;
    if pos < 0 then -far else far
  }

  lemma {:induction false} LoneAt(i: Flap, pos: I16, n: nat, k: Flap)
    ensures Run(NEUTRAL, Same(Lone(i, pos), n))[k] == if k == i then LoneReach(i, pos, n) else 0
  {
    hide Run, Wanted, SlewStep;
    Approach(NEUTRAL, Lone(i, pos), n, k);
    LoneWants(i, pos, k);
    LoneStep(i, pos, k);
  }

  /**
   From neutral a lone flap travels 12 permille a tick, 10 at the tip, to its command or
   the end of its envelope, and no other flap stirs.
   */
  lemma {:induction false} LoneTrajectory(i: Flap, pos: I16, n: nat)
    ensures Run(NEUTRAL, Same(Lone(i, pos), n)) == NEUTRAL[i := LoneReach(i, pos, n)]
  {
    hide Run, LoneReach;
    forall k | 0 <= k < FLAPS
      ensures Run(NEUTRAL, Same(Lone(i, pos), n))[k] == NEUTRAL[i := LoneReach(i, pos, n)][k]
    {
      LoneAt(i, pos, n, k);
    }
  }

  /** Where the brakes rest: each pair backed off its limit by the same amount on both members. */
  const BRAKED: Positions := [700, 700, 800, 800, 700, 700, 700, 700, 800, 800, 700, 700]

  predicate Braking(inp: Input) {
    inp.canAct && forall i :: 0 <= i < FLAPS ==> inp.targets[i].brake
  }

  lemma {:induction false} BrakesWant(inp: Input, i: Flap)
    requires Braking(inp)
    ensures Wanted(i, true, inp.targets) == BRAKED[i]
  {
    hide Clamped;
    BrakeClamped(inp, i);
    if PairIndex(i) < PAIRS {
      var pr := PairOf(PairIndex(i));
      BrakeClamped(inp, pr.a);
      BrakeClamped(inp, pr.b);
    }
  }

  lemma {:induction false} BrakeClamped(inp: Input, i: Flap)
    requires Braking(inp)
    ensures Clamped(i, true, inp.targets[i]) == [800, 800, 900, 900, 700, 700][i % 6]
  {
    assert inp.targets[i].brake;
  }

  /** Held brakes deploy the whole bank, whatever positions the commands also carry and wherever the flaps were. */
  lemma {:induction false} BrakesDeploy(before: seq<Input>, inp: Input, n: nat)
    requires Braking(inp) && n >= 1800
    ensures Run(Run(NEUTRAL, before), Same(inp, n)) == BRAKED
  {
    hide Run, Wanted, SlewStep, InEnvelope;
    var cur := Run(NEUTRAL, before);
    forall i | 0 <= i < FLAPS ensures Run(cur, Same(inp, n))[i] == BRAKED[i] {
      EnvelopeKept(before, i);
      AtMostThousand(i, cur[i]);
      BrakesWant(inp, i);
      SlewAtLeastOne(i, true, inp.targets[i], inp.scale);
      AtLeastOneEach(n, SlewStep(i, true, inp.targets[i], inp.scale));
      FixedTargetReached(cur, inp, n, i);
    }
  }

  lemma {:induction false} AtLeastOneEach(n: nat, step: int)
    requires step >= 1
    ensures n * step >= n
  {
  }

  // ---------------------------------------------------------------------------
  // Actuation refused
  // ---------------------------------------------------------------------------

  predicate Refused(inputs: seq<Input>) {
    forall k :: 0 <= k < |inputs| ==> !inputs[k].canAct
  }

  lemma {:induction false} RefusedWantsNeutral(i: Flap, t: Targets)
    ensures Wanted(i, false, t) == 0
  {
  }

  lemma {:induction false} RefusedShrinks(cur: Positions, inp: Input, i: Flap)
    requires !inp.canAct
    ensures var next := Next(cur, inp, i);
            && (next == 0 || Abs(next) < Abs(cur[i]))
            && (next > 0 ==> cur[i] > 0) && (next < 0 ==> cur[i] < 0)
  {
    hide Wanted, SlewStep;
    RefusedWantsNeutral(i, inp.targets);
    SlewAtLeastOne(i, inp.canAct, inp.targets[i], inp.scale);
  }

  /** While actuation is refused every flap falls to neutral without changing side. */
  lemma {:induction false} RefusalNeutralises(cur: Positions, inputs: seq<Input>, i: Flap)
    requires Refused(inputs)
    ensures var pos := Run(cur, inputs)[i];
            && (pos == 0 || Abs(pos) + |inputs| <= Abs(cur[i]))
            && (pos > 0 ==> cur[i] > 0) && (pos < 0 ==> cur[i] < 0)
    decreases |inputs|
  {
    hide Next;
    if inputs == [] {
    } else {
      var n := |inputs| - 1;
      RefusalNeutralises(cur, inputs[..n], i);
      RefusedShrinks(Run(cur, inputs[..n]), inputs[n], i);
    }
  }

  /** From anywhere a run can have left it, a refused bank is neutral within 1000 ticks. */
  lemma {:induction false} NeutralInTime(before: seq<Input>, refused: seq<Input>)
    requires Refused(refused) && |refused| >= 1000
    ensures Run(Run(NEUTRAL, before), refused) == NEUTRAL
  {
    hide Run, InEnvelope;
    var cur := Run(NEUTRAL, before);
    forall i | 0 <= i < FLAPS ensures Run(cur, refused)[i] == NEUTRAL[i] {
      EnvelopeKept(before, i);
      RefusalNeutralises(cur, refused, i);
      AtMostThousand(i, cur[i]);
    }
  }

  lemma {:induction false} AtMostThousand(i: Flap, pos: int)
    requires InEnvelope(i, pos)
    ensures Abs(pos) <= 1000
  {
  }

  /** Pair sums never rise while actuation is refused. */
  lemma {:induction false} RefusedPairsFall(p: nat, cur: Positions, inp: Input)
    requires p < PAIRS && !inp.canAct
    ensures var pr := PairOf(p);
            var next := Tick(cur, inp);
            Abs(next[pr.a]) + Abs(next[pr.b]) <= Abs(cur[pr.a]) + Abs(cur[pr.b])
  {
    hide Next;
    RefusedShrinks(cur, inp, PairOf(p).a);
    RefusedShrinks(cur, inp, PairOf(p).b);
  }

  // ---------------------------------------------------------------------------
  // Pairs in transit
  // ---------------------------------------------------------------------------

  /** Either the position is within its target's magnitude, or it just shrank by a full step. */
  lemma {:induction false} MoveShape(cur: int, want: int, step: int)
    requires step >= 1
    ensures var next := Moved(cur, want, step);
            && (Abs(next) <= Abs(want) || Abs(next) == Abs(cur) - step)
            && Abs(next) <= Abs(cur) + step
  {
  }

  predicate LegalPoint(env: nat, max: nat, a: int, b: int) {
    Abs(a) <= env && Abs(b) <= env && Abs(a) + Abs(b) <= max
  }

  /** Every move between legal points ends on a legal sum. */
  ghost predicate TransitSafe(env: nat, max: nat, stepA: int, stepB: int) {
    forall a, b, wantA, wantB :: LegalPoint(env, max, a, b) && LegalPoint(env, max, wantA, wantB) ==>
      Abs(Moved(a, wantA, stepA)) + Abs(Moved(b, wantB, stepB)) <= max
  }

  lemma {:induction false} EqualStepsSafe(a: int, b: int, wantA: int, wantB: int, step: int, max: nat)
    requires step >= 1 && Abs(a) + Abs(b) <= max && Abs(wantA) + Abs(wantB) <= max
    ensures Abs(Moved(a, wantA, step)) + Abs(Moved(b, wantB, step)) <= max
  {
    hide Moved;
    MoveShape(a, wantA, step);
    MoveShape(b, wantB, step);
  }

  lemma {:induction false} EqualStepsTransit(env: nat, max: nat, step: int)
    requires step >= 1
    ensures TransitSafe(env, max, step, step)
  {
    hide Moved;
    forall a, b, wantA, wantB | LegalPoint(env, max, a, b) && LegalPoint(env, max, wantA, wantB)
      ensures Abs(Moved(a, wantA, step)) + Abs(Moved(b, wantB, step)) <= max
    {
      EqualStepsSafe(a, b, wantA, wantB, step, max);
    }
  }

  /** A pair limit survives every move between legal points exactly when both members slew alike. */
  lemma {:induction false} TransitExact(env: nat, max: nat, stepA: int, stepB: int)
    requires env < max < 2 * env && 1 <= stepA <= 2 * env - max && 1 <= stepB <= 2 * env - max
    ensures TransitSafe(env, max, stepA, stepB) <==> stepA == stepB
  {
    hide Moved, LegalPoint;
    if stepA == stepB {
      EqualStepsTransit(env, max, stepA);
    } else if stepA < stepB {
      SwapBreaks(env, max, stepA, stepB);
    } else {
      SwapBreaks(env, max, stepB, stepA);
    }
  }

  /** Two members at the limit change places, the falling one more slowly. */
  lemma {:induction false} SwapBreaks(env: nat, max: nat, slow: int, fast: int)
    requires env < max < 2 * env && 1 <= slow < fast <= 2 * env - max
    ensures var lo: int := max - env;
            && LegalPoint(env, max, lo, env) && LegalPoint(env, max, env, lo)
            && Abs(Moved(env, lo, slow)) + Abs(Moved(lo, env, fast)) > max
  {
  }

  /** The steps the two members of a pair take on a tick. */
  predicate EvenlySlewed(p: nat, inp: Input)
    requires p < PAIRS
  {
    var pr := PairOf(p);
    SlewStep(pr.a, inp.canAct, inp.targets[pr.a], inp.scale) == SlewStep(pr.b, inp.canAct, inp.targets[pr.b], inp.scale)
  }

  /** Runs in which both members always slew alike keep the pair legal in transit too. */
  lemma {:induction false} PairLegalInTransit(p: nat, inputs: seq<Input>)
    requires p < PAIRS && forall k :: 0 <= k < |inputs| ==> EvenlySlewed(p, inputs[k])
    ensures PairLegal(p, Run(NEUTRAL, inputs))
    decreases |inputs|
  {
    hide SlewStep, Wanted;
    var pr := PairOf(p);
    if inputs == [] {
    } else {
      var n := |inputs| - 1;
      var inp := inputs[n];
      PairLegalInTransit(p, inputs[..n]);
      var cur := Run(NEUTRAL, inputs[..n]);
      TargetsLegal(p, inp.canAct, inp.targets);
      assert EvenlySlewed(p, inp);
      SlewAtLeastOne(pr.a, inp.canAct, inp.targets[pr.a], inp.scale);
      EqualStepsSafe(cur[pr.a], cur[pr.b], Wanted(pr.a, inp.canAct, inp.targets), Wanted(pr.b, inp.canAct, inp.targets),
                     SlewStep(pr.a, inp.canAct, inp.targets[pr.a], inp.scale), pr.max);
    }
  }

  // ---------------------------------------------------------------------------
  // A run that breaks a pair limit in transit
  // ---------------------------------------------------------------------------

  function Commanding(a: I16, b: I16, rateA: Byte): Input {
    Input(true, [Target(a, rateA, false), Target(b, 0, false)] + seq(10, _ => Target(0, 0, false)), 1.0)
  }

  lemma {:induction false} FullRate()
    ensures Permille(120, 1.0) == 1200 && Permille(10, 1.0) == 100
  {
  }

  /** Both flaps sit legally at (900, 500); swapping them with one rate-limited overshoots 1400. */
  lemma {:induction false} UnevenSlewBreaksPair()
    ensures !PairLegal(0, Run(NEUTRAL, Same(Commanding(900, 500, 0), 75) + [Commanding(500, 900, 10)]))
  {
    hide Run, Permille;
    FullRate();
    var there, back := Commanding(900, 500, 0), Commanding(500, 900, 10);
    var inputs := Same(there, 75) + [back];
    assert there.targets[0] == Target(900, 0, false) && there.targets[1] == Target(500, 0, false);
    assert back.targets[0] == Target(500, 10, false) && back.targets[1] == Target(900, 0, false);
    FixedTargetReached(NEUTRAL, there, 75, 0);
    FixedTargetReached(NEUTRAL, there, 75, 1);
    var cur := Run(NEUTRAL, Same(there, 75));
    LastTick(NEUTRAL, Same(there, 75), back);
    assert Next(cur, back, 0) == 899 && Next(cur, back, 1) == 512;
  }

  lemma {:induction false} LastTick(cur: Positions, inputs: seq<Input>, inp: Input)
    ensures Run(cur, inputs + [inp]) == Tick(Run(cur, inputs), inp)
  {
    hide Tick;
    assert (inputs + [inp])[..|inputs|] == inputs;
  }
}
