/**
 The 32-bit clock: while no compared pair of times is 2^31 ms apart, the wrapping
 machine takes exactly the transitions of the one on unbounded time.
 */
module SafetyWrap {
  import opened SafetyCore

  const HALF := U32 / 2

  function ReduceCore(c: Core): Core {
    c.(lastHbMs := c.lastHbMs % U32, streakStartMs := c.streakStartMs % U32,
       lastCmdMs := c.lastCmdMs % U32, estopSinceMs := c.estopSinceMs % U32)
  }

  function ReduceEvent(e: Event): Event {
    match e
    case Heartbeat(now, seqNo, latched) => Heartbeat(now % U32, seqNo, latched)
    case Estop(now, cause) => Estop(now % U32, cause)
    case Clear(now, magic, counter) => Clear(now % U32, magic, counter)
    case Cmd(now) => Cmd(now % U32)
    case ModeSet(now, target) => ModeSet(now % U32, target)
    case BusDown(now) => BusDown(now % U32)
    case Tick(now) => Tick(now % U32)
  }

  function ReduceEvents(evs: seq<Event>): seq<Event> {
    seq(|evs|, i requires 0 <= i < |evs| => ReduceEvent(evs[i]))
  }

  predicate Comparable(a: int, b: int) {
    -HALF <= a - b < HALF
  }

  /** The times the machine may compare when `e` arrives; without a beat it compares none. */
  predicate Near(c: Core, e: Event) {
    c.haveHb ==>
      && Comparable(e.now, c.lastHbMs)
      && Comparable(e.now, c.streakStartMs)
      && Comparable(e.now, c.lastCmdMs)
      && Comparable(c.lastCmdMs, c.streakStartMs)
  }

  lemma {:induction false} ElapsedAgrees(now: int, since: int)
    requires Comparable(now, since)
    ensures Elapsed(Wrapping, now % U32, since % U32) == now - since
  {
    ModDifference(now, since);
    var d := now - since;
    assert d % U32 == if d >= 0 then d else d + U32;
  }

  lemma {:induction false} ModDifference(a: int, b: int)
    ensures (a % U32 - b % U32) % U32 == (a - b) % U32
  {
    var q := a / U32 - b / U32;
    assert a - b == (a % U32 - b % U32) + U32 * q;
    ModShift(a % U32 - b % U32, q);
  }

  lemma {:induction false} ModShift(x: int, q: int)
    ensures (x + U32 * q) % U32 == x % U32
    decreases if q < 0 then -q else q
  {
    if q > 0 {
      ModShift(x, q - 1);
    } else if q < 0 {
      ModShift(x, q + 1);
    }
  }

  lemma {:induction false} StepAgrees(c: Core, e: Event)
    requires Near(c, e)
    ensures Step(Wrapping, ReduceCore(c), ReduceEvent(e)) == ReduceCore(Step(Unbounded, c, e))
  {
    hide Elapsed, Comparable;
    if c.haveHb {
      ElapsedAgrees(e.now, c.lastHbMs);
      ElapsedAgrees(e.now, c.streakStartMs);
      ElapsedAgrees(e.now, c.lastCmdMs);
      ElapsedAgrees(c.lastCmdMs, c.streakStartMs);
      UnboundedElapsed(e.now, c.lastHbMs);
      UnboundedElapsed(e.now, c.streakStartMs);
      UnboundedElapsed(e.now, c.lastCmdMs);
      UnboundedElapsed(c.lastCmdMs, c.streakStartMs);
    }
  }

  lemma {:induction false} UnboundedElapsed(now: int, since: int)
    ensures Elapsed(Unbounded, now, since) == now - since
  {
  }

  /** Every event of the run finds its times within half the clock's range. */
  ghost predicate NearAlways(c: Core, evs: seq<Event>) {
    forall i :: 0 <= i < |evs| ==> Near(Run(Unbounded, c, evs[..i]), evs[i])
  }

  /** Over whole runs: same states, same flags, and every stored time reduced modulo 2^32. */
  lemma {:induction false} RunAgrees(c: Core, evs: seq<Event>)
    requires NearAlways(c, evs)
    ensures Run(Wrapping, ReduceCore(c), ReduceEvents(evs)) == ReduceCore(Run(Unbounded, c, evs))
    decreases |evs|
  {
    hide Step, ReduceEvent, ReduceCore, Near;
    if evs != [] {
      var n := |evs| - 1;
      forall i | 0 <= i < n ensures Near(Run(Unbounded, c, evs[..n][..i]), evs[..n][i]) {
        assert evs[..n][..i] == evs[..i];
      }
      RunAgrees(c, evs[..n]);
      assert ReduceEvents(evs)[..n] == ReduceEvents(evs[..n]);
      StepAgrees(Run(Unbounded, c, evs[..n]), evs[n]);
    }
  }

  /** A node booted at any instant: the code's machine refines the unbounded one. */
  lemma {:induction false} BootAgrees(boot: int, evs: seq<Event>)
    requires NearAlways(Init(Unbounded, boot), evs)
    ensures var u := Run(Wrapping, Init(Wrapping, boot % U32), ReduceEvents(evs));
            var c := Run(Unbounded, Init(Unbounded, boot), evs);
            && u == ReduceCore(c)
            && u.state == c.state
  {
    hide Run, NearAlways;
    InitAgrees(boot);
    RunAgrees(Init(Unbounded, boot), evs);
  }

  lemma {:induction false} InitAgrees(boot: int)
    ensures Init(Wrapping, boot % U32) == ReduceCore(Init(Unbounded, boot))
  {
    ModDifference(boot, HEARTBEAT_TIMEOUT_MS + 1);
    ModDifference(boot, CMD_STALE_MS + 1);
  }

  /** Exactly when the 32-bit watchdog test gives the right answer for a beat of any age. */
  lemma {:induction false} WatchdogTestExact(now: int, lastBeat: int)
    requires lastBeat <= now
    ensures var age := now - lastBeat;
            (Elapsed(Wrapping, now % U32, lastBeat % U32) <= HEARTBEAT_TIMEOUT_MS <==> age <= HEARTBEAT_TIMEOUT_MS)
            <==> (age <= HEARTBEAT_TIMEOUT_MS || HEARTBEAT_TIMEOUT_MS < age % U32 < HALF)
  {
    ModDifference(now, lastBeat);
  }

  /** Boot, one beat, a request to operate, and nothing more for 2^31 ms. */
  function Ancient(boot: int): seq<Event> {
    [Tick(boot), Heartbeat(boot, 1, false), ModeSet(boot, OPERATIONAL), Tick(boot + HALF)]
  }

  /** Past the limit it matters: in this run a beat 2^31 ms old still makes the 32-bit machine OPERATIONAL. */
  lemma {:induction false} AncientBeatRevives(boot: int)
    ensures Run(Unbounded, Init(Unbounded, boot), Ancient(boot)).state == STANDBY
    ensures Run(Wrapping, Init(Wrapping, boot % U32), ReduceEvents(Ancient(boot))).state == OPERATIONAL
  {
    var evs := Ancient(boot);
    var before := evs[..3];
    AncientStart(boot);
    InitAgrees(boot);
    RunAgrees(Init(Unbounded, boot), before);
    var c := Run(Unbounded, Init(Unbounded, boot), before);
    assert ReduceEvents(evs)[..3] == ReduceEvents(before);
    ModDifference(boot + HALF, boot);
  }

  lemma {:induction false} AncientStart(boot: int)
    ensures NearAlways(Init(Unbounded, boot), Ancient(boot)[..3])
    ensures var c := Run(Unbounded, Init(Unbounded, boot), Ancient(boot)[..3]);
            c.state == STANDBY && c.haveHb && c.lastHbMs == boot && c.wantOperational
  {
    var evs := Ancient(boot)[..3];
    var c0 := Init(Unbounded, boot);
    assert evs[..0] == [] && evs[..1][..0] == [] && evs[..2][..1] == evs[..1] && evs[..3][..2] == evs[..2];
    assert evs[..3] == evs;
    var c1 := Step(Unbounded, c0, evs[0]);
    var c2 := Step(Unbounded, c1, evs[1]);
    assert Run(Unbounded, c0, evs[..1]) == c1;
    assert Run(Unbounded, c0, evs[..2]) == c2;
    assert Run(Unbounded, c0, evs) == Step(Unbounded, c2, evs[2]);
  }
}
