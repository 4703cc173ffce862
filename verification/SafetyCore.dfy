/**
 The node safety state machine: dead-man switch, re-arm window and e-stop latch.

 The transition functions take a clock. `Wrapping` is the code's: 32-bit
 milliseconds compared by signed difference. `Unbounded` is the same machine on
 times that never wrap, which is what the promises are stated about.
 */
module SafetyCore {
  import opened WireTypes

  const HEARTBEAT_TIMEOUT_MS := 50
  const REARM_WINDOW_MS := 250
  const CMD_STALE_MS := 200
  const ESTOP_REARM_MS := 1000
  const CLEAR_ESTOP_MAGIC := 0x52A4_C13A

  type NodeState = s: int | 0 <= s <= 5
  const BOOT: NodeState := 0
  const STANDBY: NodeState := 1
  const OPERATIONAL: NodeState := 2
  const PASSIVE: NodeState := 3
  const ESTOP: NodeState := 4
  const FAULT: NodeState := 5

  const CAUSE_OPERATOR: Byte := 4
  const CAUSE_COMM_LOSS: Byte := 6
  const CAUSE_SOFTWARE: Byte := 7

  const U32 := 0x1_0000_0000

  datatype Clock = Wrapping | Unbounded

  /** A time as the clock stores it. */
  function Stamp(clk: Clock, ms: int): int {
    if clk.Wrapping? then ms % U32 else ms
  }

  /** `now - since`, read as a signed 32-bit number when the clock wraps. */
  function Elapsed(clk: Clock, now: int, since: int): int {
    if clk.Unbounded? then now - since
    else
      var d := (now - since) % U32;
      if d >= U32 / 2 then d - U32 else d
  }

  datatype Core = Core(
    state: NodeState,
    estopCause: Byte,
    lastHbSeq: U16,
    lastHbMs: int,
    streakStartMs: int,
    lastCmdMs: int,
    clearCounter: int,
    estopSinceMs: int,
    haveHb: bool,
    wantOperational: bool)
  {
    predicate HeartbeatOk(clk: Clock, now: int) {
      haveHb && Elapsed(clk, now, lastHbMs) <= HEARTBEAT_TIMEOUT_MS
    }

    function StreakMs(clk: Clock, now: int): int {
      if haveHb then Elapsed(clk, now, streakStartMs) else 0
    }

    predicate CmdFresh(clk: Clock, now: int) {
      Elapsed(clk, now, lastCmdMs) < CMD_STALE_MS
    }

    /** Latched, with no accepted clear since. */
    predicate Latched() {
      state == ESTOP && estopCause != 0
    }
  }

  function Init(clk: Clock, now: int): Core {
    var stale := Stamp(clk, now - HEARTBEAT_TIMEOUT_MS - 1);
    Core(BOOT, 0, 0, stale, stale, Stamp(clk, now - CMD_STALE_MS - 1), 0, 0, false, false)
  }

  function OnEstop(c: Core, now: int, cause: Byte): Core {
    if c.Latched() then c
    else
      c.(estopCause := if cause != 0 then cause else CAUSE_SOFTWARE, estopSinceMs := now,
         wantOperational := false, state := ESTOP)
  }

  function OnHeartbeat(clk: Clock, c: Core, now: int, seqNo: U16, latched: bool): Core {
    if c.haveHb && seqNo == c.lastHbSeq then c
    else
      var fresh_ := !c.haveHb || Elapsed(clk, now, c.lastHbMs) > HEARTBEAT_TIMEOUT_MS;
      var c' := c.(streakStartMs := if fresh_ then now else c.streakStartMs,
                   haveHb := true, lastHbMs := now, lastHbSeq := seqNo);
      if latched then OnEstop(c', now, CAUSE_OPERATOR) else c'
  }

  predicate ClearAccepted(c: Core, magic: int, counter: int) {
    magic == CLEAR_ESTOP_MAGIC && counter > c.clearCounter
  }

  function OnClear(c: Core, now: int, magic: int, counter: int): Core {
    if !ClearAccepted(c, magic, counter) then c
    else if c.state == ESTOP then c.(clearCounter := counter, estopCause := 0, estopSinceMs := now)
    else c.(clearCounter := counter)
  }

  function OnModeSet(c: Core, now: int, target: Byte): Core {
    if target == OPERATIONAL then c.(wantOperational := true)
    else if target == STANDBY then
      var s := if c.state == OPERATIONAL || c.state == PASSIVE then STANDBY else c.state;
      c.(wantOperational := false, state := s)
    else if target == PASSIVE then
      var s := if c.state == OPERATIONAL || c.state == STANDBY then PASSIVE else c.state;
      c.(wantOperational := false, state := s)
    else if target == ESTOP then OnEstop(c, now, CAUSE_OPERATOR)
    else c
  }

  function OnBusDown(c: Core): Core {
    c.(haveHb := false, state := if c.state == OPERATIONAL then PASSIVE else c.state)
  }

  predicate RearmReady(clk: Clock, c: Core, now: int) {
    && c.wantOperational
    && c.HeartbeatOk(clk, now)
    && c.StreakMs(clk, now) >= REARM_WINDOW_MS
    && Elapsed(clk, c.lastCmdMs, c.streakStartMs) >= 0
    && c.CmdFresh(clk, now)
  }

  function OnTick(clk: Clock, c: Core, now: int): Core {
    if c.state == BOOT then c.(state := STANDBY)
    else if c.state == ESTOP then
      if c.estopCause == 0 && c.HeartbeatOk(clk, now) && c.StreakMs(clk, now) >= ESTOP_REARM_MS
      then c.(state := STANDBY) else c
    else if c.state == OPERATIONAL then
      if !c.HeartbeatOk(clk, now) then c.(state := PASSIVE) else c
    else if c.state == STANDBY then
      if c.wantOperational && c.HeartbeatOk(clk, now) then c.(state := OPERATIONAL) else c
    else if c.state == PASSIVE then
      if RearmReady(clk, c, now) then c.(state := OPERATIONAL) else c
    else c
  }

  datatype Event =
    | Heartbeat(now: int, seqNo: U16, latched: bool)
    | Estop(now: int, cause: Byte)
    | Clear(now: int, magic: int, counter: int)
    | Cmd(now: int)
    | ModeSet(now: int, target: Byte)
    | BusDown(now: int)
    | Tick(now: int)

  function Step(clk: Clock, c: Core, e: Event): Core {
    match e
    case Heartbeat(now, seqNo, latched) => OnHeartbeat(clk, c, now, seqNo, latched)
    case Estop(now, cause) => OnEstop(c, now, cause)
    case Clear(now, magic, counter) => OnClear(c, now, magic, counter)
    case Cmd(now) => c.(lastCmdMs := now)
    case ModeSet(now, target) => OnModeSet(c, now, target)
    case BusDown(_) => OnBusDown(c)
    case Tick(now) => OnTick(clk, c, now)
  }

  function Run(clk: Clock, c: Core, evs: seq<Event>): Core
    decreases |evs|
  {
    if evs == [] then c else Step(clk, Run(clk, c, evs[..|evs| - 1]), evs[|evs| - 1])
  }

  // ---------------------------------------------------------------------------
  // The machine as an object
  // ---------------------------------------------------------------------------

  datatype Transition = Transition(from: NodeState, to: NodeState, cause: Byte)

  /** What the transition callback is told: nothing unless the state changed. */
  function Reported(from: NodeState, to: NodeState, cause: Byte): seq<Transition> {
    if from == to then [] else [Transition(from, to, cause)]
  }

  type Ms = t: int | 0 <= t < U32

  class SafetyMachine {
    var state: NodeState
    var estopCause: Byte
    var lastHbSeq: U16
    var lastHbMs: Ms
    var streakStartMs: Ms
    var lastCmdMs: Ms
    var clearCounter: Ms
    var estopSinceMs: Ms
    var haveHb: bool
    var wantOperational: bool
    /** Calls made to the transition callback so far. */
    var transitions: seq<Transition>

    function View(): Core
      reads this
    {
      Core(state, estopCause, lastHbSeq, lastHbMs, streakStartMs, lastCmdMs, clearCounter, estopSinceMs,
           haveHb, wantOperational)
    }

    constructor (now: Ms)
      ensures View() == Init(Wrapping, now)
      ensures lastHbMs == streakStartMs == (now - 51) % 0x1_0000_0000 && lastCmdMs == (now - 201) % 0x1_0000_0000
      ensures transitions == []
    {
      state, estopCause, lastHbSeq := BOOT, 0, 0;
      lastHbMs := (now - HEARTBEAT_TIMEOUT_MS - 1) % U32;
      streakStartMs := (now - HEARTBEAT_TIMEOUT_MS - 1) % U32;
      lastCmdMs := (now - CMD_STALE_MS - 1) % U32;
      clearCounter, estopSinceMs := 0, 0;
      haveHb, wantOperational := false, false;
      transitions := [];
    }

    method Go(next: NodeState, cause: Byte)
      modifies this`state, this`transitions
      ensures state == next
      ensures transitions == old(transitions) + Reported(old(state), next, cause)
      ensures old(state) == next ==> transitions == old(transitions)
      ensures old(state) != next ==> transitions == old(transitions) + [Transition(old(state), next, cause)]
    {
      if state == next {
        return;
      }
      transitions := transitions + [Transition(state, next, cause)];
      state := next;
    }

    method HandleEstop(now: Ms, cause: Byte)
      modifies this
      ensures View() == OnEstop(old(View()), now, cause)
      ensures transitions == old(transitions) + Reported(old(state), state, estopCause)
    {
      if state == ESTOP && estopCause != 0 {
        return;
      }
      estopCause := if cause != 0 then cause else CAUSE_SOFTWARE;
      estopSinceMs := now;
      wantOperational := false;
      Go(ESTOP, estopCause);
    }

    method HandleHeartbeat(now: Ms, seqNo: U16, latched: bool)
      modifies this
      ensures View() == OnHeartbeat(Wrapping, old(View()), now, seqNo, latched)
      ensures transitions == old(transitions) + Reported(old(state), state, estopCause)
    {
      if haveHb && seqNo == lastHbSeq {
        return;
      }
      if !haveHb || Elapsed(Wrapping, now, lastHbMs) > HEARTBEAT_TIMEOUT_MS {
        streakStartMs := now;
      }
      haveHb := true;
      lastHbMs := now;
      lastHbSeq := seqNo;
      if latched {
        HandleEstop(now, CAUSE_OPERATOR);
      }
    }

    method HandleClear(now: Ms, magic: Ms, counter: Ms) returns (accepted: bool)
      modifies this
      ensures View() == OnClear(old(View()), now, magic, counter)
      ensures accepted == ClearAccepted(old(View()), magic, counter)
      ensures transitions == old(transitions)
    {
      if magic != CLEAR_ESTOP_MAGIC {
        return false;
      }
      if counter <= clearCounter {
        return false;
      }
      clearCounter := counter;
      if state == ESTOP {
        estopCause := 0;
        estopSinceMs := now;
      }
      return true;
    }

    method HandleCmd(now: Ms)
      modifies this
      ensures View() == Step(Wrapping, old(View()), Cmd(now))
      ensures transitions == old(transitions)
    {
      lastCmdMs := now;
    }

    method HandleModeSet(now: Ms, target: Byte)
      modifies this
      ensures View() == OnModeSet(old(View()), now, target)
      ensures target == 1 ==> !wantOperational && state == if old(state) == 2 || old(state) == 3 then 1 else old(state)
      ensures target == 2 ==> wantOperational && state == old(state)
      ensures target == 3 ==> !wantOperational && state == if old(state) == 2 || old(state) == 1 then 3 else old(state)
      ensures target == 4 ==> state == 4 && estopCause != 0
      ensures target == 0 || target > 4 ==> View() == old(View())
      ensures transitions == old(transitions) + Reported(old(state), state, if target == ESTOP then estopCause else 0)
    {
      if target == OPERATIONAL {
        wantOperational := true;
      } else if target == STANDBY {
        wantOperational := false;
        if state == OPERATIONAL || state == PASSIVE {
          Go(STANDBY, 0);
        }
      } else if target == PASSIVE {
        wantOperational := false;
        if state == OPERATIONAL || state == STANDBY {
          Go(PASSIVE, 0);
        }
      } else if target == ESTOP {
        HandleEstop(now, CAUSE_OPERATOR);
      }
    }

    method HandleBusDown(now: Ms)
      modifies this
      ensures View() == OnBusDown(old(View()))
      ensures transitions == old(transitions) + Reported(old(state), state, 6)
    {
      haveHb := false;
      if state == OPERATIONAL {
        Go(PASSIVE, CAUSE_COMM_LOSS);
      }
    }

    method HandleTick(now: Ms) returns (s: NodeState)
      modifies this
      ensures View() == OnTick(Wrapping, old(View()), now)
      ensures s == state
      ensures transitions == old(transitions)
                             + Reported(old(state), state, if state == PASSIVE then 6 else 0)
    {
      if state == BOOT {
        Go(STANDBY, 0);
      } else if state == ESTOP {
        if estopCause == 0 && View().HeartbeatOk(Wrapping, now)
           && View().StreakMs(Wrapping, now) >= ESTOP_REARM_MS {
          Go(STANDBY, 0);
        }
      } else if state == OPERATIONAL {
        if !View().HeartbeatOk(Wrapping, now) {
          Go(PASSIVE, CAUSE_COMM_LOSS);
        }
      } else if state == STANDBY {
        if wantOperational && View().HeartbeatOk(Wrapping, now) {
          Go(OPERATIONAL, 0);
        }
      } else if state == PASSIVE {
        if RearmReady(Wrapping, View(), now) {
          Go(OPERATIONAL, 0);
        }
      }
      s := state;
    }
  }
}
