/**
 Whole runs of the battery interlock, as a state machine whose events are the points
 where the battery task, the gateway, the safety timer and the latch interrupt can
 interleave.
 */
module BatteryRuns {
  import opened BatteryInterlock
  import opened WireTypes
  import Safety = SafetyCore
  import SafetyRuns

  /** The battery task between its atomic steps. */
  datatype Task =
    | Free
    | Raising(cause: Byte)  // tripped, mirror not latched yet
    | Ready                 // re-arm requested and the mirror read as STANDBY
    | Strobing              // comparator clear, strobe on its way

  /** `owed` counts accepted clears whose re-arm request is still to be posted. */
  datatype Hub = Hub(bat: Battery, mirror: Safety.Core, task: Task, owed: nat)

  datatype Event =
    | Check(f: nat, crit: bool, cause: Byte)
    | LatchIrq
    | SeeShort
    | Raise(now: int)
    | Look
    | Rearm(compHigh: bool)
    | Feedback(gateClosed: bool)
    | Mirror(e: Safety.Event)
    | Notify

  predicate Enabled(h: Hub, e: Event) {
    && Sized(h.bat)
    && match e
       case Check(f, _, _) => h.task.Free? && f < FAMILIES
       case LatchIrq => true
       case SeeShort => h.task.Free? && h.bat.tripFlag
       case Raise(_) => h.task.Raising?
       case Look => h.task.Free? && h.bat.rearmRequested && h.mirror.state == Safety.STANDBY
       case Rearm(_) => h.task.Ready?
       case Feedback(_) => h.task.Strobing?
       case Mirror(_) => true
       case Notify => h.owed > 0
  }

  predicate Clears(h: Hub, e: Event) {
    e.Mirror? && e.e.Clear? && Safety.ClearAccepted(h.mirror, e.e.magic, e.e.counter)
  }

  function Step(clk: Safety.Clock, h: Hub, e: Event): Hub
    requires Enabled(h, e)
  {
    match e
    case Check(f, crit, cause) =>
      h.(bat := Checked(h.bat, f, crit), task := if Trips(h.bat, f, crit) then Raising(cause) else Free)
    case LatchIrq => h.(bat := h.bat.(tripFlag := true))
    case SeeShort => h.(bat := ShortSeen(h.bat), task := Raising(CAUSE_SHORT))
    case Raise(now) => h.(mirror := Safety.OnEstop(h.mirror, now, h.task.cause), task := Free)
    case Look => h.(task := Ready)
    case Rearm(compHigh) =>
      var spent := h.bat.(rearmRequested := false);
      if !spent.shortLatched then h.(bat := PlainRearmed(spent), task := Free)
      else h.(bat := spent, task := if compHigh then Free else Strobing)
    case Feedback(gateClosed) => h.(bat := if gateClosed then GateRearmed(h.bat) else h.bat, task := Free)
    case Mirror(e') => h.(mirror := Safety.Step(clk, h.mirror, e'), owed := h.owed + if Clears(h, e) then 1 else 0)
    case Notify => h.(owed := h.owed - 1, bat := h.bat.(rearmRequested := true))
  }

  /** How a run begins: the latch input, and the mirror's clock. */
  datatype Setup = Setup(clk: Safety.Clock, boot: int, latchIdle: bool)

  function Begin(s: Setup): Hub {
    Hub(PowerUp(s.latchIdle), Safety.Init(s.clk, s.boot), Free, 0)
  }

  predicate Legal(s: Setup, evs: seq<Event>)
    decreases |evs|, 0
  {
    evs == [] || (Legal(s, evs[..|evs| - 1]) && Enabled(After(s, evs[..|evs| - 1]), evs[|evs| - 1]))
  }

  function After(s: Setup, evs: seq<Event>): Hub
    requires Legal(s, evs)
    decreases |evs|, 1
  {
    if evs == [] then Begin(s) else Step(s.clk, After(s, evs[..|evs| - 1]), evs[|evs| - 1])
  }

  lemma {:induction false} LegalPrefix(s: Setup, evs: seq<Event>, n: nat)
    requires Legal(s, evs) && n <= |evs|
    ensures Legal(s, evs[..n])
    decreases |evs|
  {
    hide Enabled;
    if n == |evs| {
      assert evs[..n] == evs;
    } else {
      LegalPrefix(s, evs[..|evs| - 1], n);
      assert evs[..|evs| - 1][..n] == evs[..n];
    }
  }

  /** The state just before event `n`, and after the run when `n` is its length. */
  function At(s: Setup, evs: seq<Event>, n: nat): Hub
    requires Legal(s, evs) && n <= |evs|
  {
    LegalPrefix(s, evs, n);
    After(s, evs[..n])
  }

  lemma {:induction false} AtNext(s: Setup, evs: seq<Event>, n: nat)
    requires Legal(s, evs) && n < |evs|
    ensures Enabled(At(s, evs, n), evs[n]) && At(s, evs, n + 1) == Step(s.clk, At(s, evs, n), evs[n])
  {
    hide Enabled, Step;
    LegalPrefix(s, evs, n + 1);
    assert evs[..n + 1][..n] == evs[..n];
  }

  // ---------------------------------------------------------------------------
  // The short latch and its two bits
  // ---------------------------------------------------------------------------

  ghost predicate LatchConsistent(b: Battery) {
    && Sized(b)
    && (ShortLatch in b.faults <==> b.shortLatched)
    && (CompArmed in b.faults <==> !b.shortLatched)
  }

  /** COMP_ARMED and SHORT_LATCH are complementary and agree with the latch flag in every run. */
  lemma {:induction false} LatchBitsComplementary(s: Setup, evs: seq<Event>)
    requires Legal(s, evs)
    ensures LatchConsistent(After(s, evs).bat)
    decreases |evs|
  {
    if evs == [] {
    } else {
      var n := |evs| - 1;
      LatchBitsComplementary(s, evs[..n]);
      LatchStep(s.clk, After(s, evs[..n]), evs[n]);
    }
  }

  lemma {:induction false} LatchStep(clk: Safety.Clock, h: Hub, e: Event)
    requires LatchConsistent(h.bat) && Enabled(h, e)
    ensures LatchConsistent(Step(clk, h, e).bat)
  {
  }

  // ---------------------------------------------------------------------------
  // What each flag remembers
  // ---------------------------------------------------------------------------

  /** The three flags, each raised by one kind of event and taken down by another. */
  datatype Flag = Short | Seen | Wanted

  predicate Raises(flag: Flag, e: Event) {
    match flag
    case Short => e.SeeShort?
    case Seen => e.LatchIrq?
    case Wanted => e.Notify?
  }

  predicate Lowers(flag: Flag, e: Event) {
    match flag
    case Short => e == Feedback(true)
    case Seen => e.SeeShort?
    case Wanted => e.Rearm?
  }

  ghost predicate StillUp(flag: Flag, evs: seq<Event>, from: int) {
    forall i :: 0 <= i < |evs| && from < i ==> !Lowers(flag, evs[i])
  }

  /** Raised at some event and not lowered after it. */
  ghost predicate Up(flag: Flag, evs: seq<Event>) {
    exists j :: 0 <= j < |evs| && Raises(flag, evs[j]) && StillUp(flag, evs, j)
  }

  lemma {:induction false} StillUpStep(flag: Flag, evs: seq<Event>, from: int)
    requires evs != [] && from < |evs| - 1
    ensures StillUp(flag, evs, from)
            <==> StillUp(flag, evs[..|evs| - 1], from) && !Lowers(flag, evs[|evs| - 1])
  {
    hide Lowers;
    var n := |evs| - 1;
    if StillUp(flag, evs, from) {
      forall i | 0 <= i < n && from < i ensures !Lowers(flag, evs[..n][i]) {
        assert !Lowers(flag, evs[i]);
      }
    }
    if StillUp(flag, evs[..n], from) && !Lowers(flag, evs[n]) {
      forall i | 0 <= i <= n && from < i ensures !Lowers(flag, evs[i]) {
        assert i < n ==> !Lowers(flag, evs[..n][i]);
      }
    }
  }

  lemma {:induction false} UpStep(flag: Flag, evs: seq<Event>)
    requires evs != []
    ensures var n := |evs| - 1;
            Up(flag, evs) <==> Raises(flag, evs[n]) || (!Lowers(flag, evs[n]) && Up(flag, evs[..n]))
  {
    hide Lowers, Raises, StillUp;
    var n := |evs| - 1;
    NewestStillUp(flag, evs);
    forall j | 0 <= j < n ensures StillUp(flag, evs, j) <==> StillUp(flag, evs[..n], j) && !Lowers(flag, evs[n]) {
      StillUpStep(flag, evs, j);
    }
    if Up(flag, evs[..n]) && !Lowers(flag, evs[n]) {
      var j :| 0 <= j < n && Raises(flag, evs[..n][j]) && StillUp(flag, evs[..n], j);
      assert Raises(flag, evs[j]) && StillUp(flag, evs, j);
    }
    if Up(flag, evs) && !Raises(flag, evs[n]) {
      var j :| 0 <= j < |evs| && Raises(flag, evs[j]) && StillUp(flag, evs, j);
      assert Raises(flag, evs[..n][j]) && StillUp(flag, evs[..n], j);
    }
  }

  lemma {:induction false} NewestStillUp(flag: Flag, evs: seq<Event>)
    requires evs != []
    ensures StillUp(flag, evs, |evs| - 1)
  {
  }

  /**
   In every run: the short latch is up if a short was seen, or found at power-up, and the
   gate has not closed again since; the interrupt's flag, if the latch fired since a short
   was last seen; and a re-arm is wanted if an accepted clear was posted since the last attempt.
   */
  lemma {:induction false} FlagsRemember(s: Setup, evs: seq<Event>)
    requires Legal(s, evs)
    ensures var b := After(s, evs).bat;
            && (b.shortLatched <==> Up(Short, evs) || (!s.latchIdle && StillUp(Short, evs, -1)))
            && (b.tripFlag <==> Up(Seen, evs))
            && (b.rearmRequested <==> Up(Wanted, evs))
            && (After(s, evs).task.Strobing? ==> b.shortLatched)
    decreases |evs|
  {
    hide Up, StillUp, Safety.Step;
    if evs == [] {
      NothingUp();
    } else {
      var n := |evs| - 1;
      FlagsRemember(s, evs[..n]);
      UpStep(Short, evs);
      UpStep(Seen, evs);
      UpStep(Wanted, evs);
      StillUpStep(Short, evs, -1);
      FlagStep(s.clk, After(s, evs[..n]), evs[n]);
    }
  }

  lemma {:induction false} NothingUp()
    ensures !Up(Short, []) && !Up(Seen, []) && !Up(Wanted, []) && StillUp(Short, [], -1)
  {
  }

  lemma {:induction false} FlagStep(clk: Safety.Clock, h: Hub, e: Event)
    requires Enabled(h, e) && (h.task.Strobing? ==> h.bat.shortLatched)
    ensures var b, h' := h.bat, Step(clk, h, e); var b' := h'.bat;
            && b'.shortLatched == (Raises(Short, e) || (b.shortLatched && !Lowers(Short, e)))
            && b'.tripFlag == (Raises(Seen, e) || (b.tripFlag && !Lowers(Seen, e)))
            && b'.rearmRequested == (Raises(Wanted, e) || (b.rearmRequested && !Lowers(Wanted, e)))
            && (h'.task.Strobing? ==> b'.shortLatched)
  {
    hide Safety.Step;
  }

  /** Re-arm attempts so far, and clears accepted so far. */
  function Attempts(evs: seq<Event>): nat
    decreases |evs|
  {
    if evs == [] then 0 else Attempts(evs[..|evs| - 1]) + if evs[|evs| - 1].Rearm? then 1 else 0
  }

  function Cleared(s: Setup, evs: seq<Event>): nat
    requires Legal(s, evs)
    decreases |evs|
  {
    if evs == [] then 0
    else Cleared(s, evs[..|evs| - 1]) + if Clears(After(s, evs[..|evs| - 1]), evs[|evs| - 1]) then 1 else 0
  }

  /** Every re-arm attempt spends an accepted clear of its own. */
  lemma {:induction false} AttemptsSpendClears(s: Setup, evs: seq<Event>)
    requires Legal(s, evs)
    ensures var h := After(s, evs);
            && Attempts(evs) + h.owed + (if h.bat.rearmRequested then 1 else 0) <= Cleared(s, evs)
            && (h.task.Ready? ==> h.bat.rearmRequested)
    decreases |evs|
  {
    hide Safety.Step, Clears;
    if evs == [] {
    } else {
      AttemptsSpendClears(s, evs[..|evs| - 1]);
    }
  }

  /**
   A check that trips hands its own cause on, a short that is seen hands on cause 1, and
   raising latches the mirror: under that cause if it was not latched already.
   */
  lemma {:induction false} TripReachesMirror(clk: Safety.Clock, h: Hub, e: Event)
    requires Enabled(h, e)
    ensures e.Check? ==> (Step(clk, h, e).task == if Trips(h.bat, e.f, e.crit) then Raising(e.cause) else Free)
    ensures e.SeeShort? ==> Step(clk, h, e).task == Raising(1)
    ensures e.Raise? ==>
              var m := Step(clk, h, e).mirror;
              && m.state == Safety.ESTOP && m.estopCause != 0 && Step(clk, h, e).task == Free
              && (!h.mirror.Latched() ==> m.estopSinceMs == e.now && !m.wantOperational)
              && (!h.mirror.Latched() && h.task.cause != 0 ==> m.estopCause == h.task.cause)
              && (h.mirror.Latched() ==> m == h.mirror)
    ensures h.task.Raising? && !e.Raise? ==> Step(clk, h, e).task == h.task
  {
    hide Safety.Step;
  }

  // ---------------------------------------------------------------------------
  // The fiftieth consecutive critical check
  // ---------------------------------------------------------------------------

  predicate PlainRearms(h: Hub, e: Event) {
    e.Rearm? && !h.bat.shortLatched
  }

  predicate Rearms(h: Hub, e: Event) {
    PlainRearms(h, e) || (e.Feedback? && e.gateClosed)
  }

  /** Critical checks of a family since its last non-critical check or re-arm. */
  function Streak(s: Setup, evs: seq<Event>, f: nat): nat
    requires Legal(s, evs)
    decreases |evs|
  {
    if evs == [] then 0
    else
      var e, before := evs[|evs| - 1], evs[..|evs| - 1];
      if e.Check? && e.f == f then if e.crit then Streak(s, before, f) + 1 else 0
      else if Rearms(After(s, before), e) then 0
      else Streak(s, before, f)
  }

  /** A streak of the family reached fifty with event `j`. */
  predicate Reaches(s: Setup, evs: seq<Event>, f: nat, j: nat)
    requires Legal(s, evs)
  {
    && j < |evs| && evs[j].Check? && evs[j].f == f
    && Legal(s, evs[..j + 1]) && Streak(s, evs[..j + 1], f) == 50
  }

  ghost predicate NoRearm(s: Setup, evs: seq<Event>, from: nat)
    requires Legal(s, evs)
  {
    forall i :: from < i < |evs| ==> !RearmAt(s, evs, i)
  }

  predicate RearmAt(s: Setup, evs: seq<Event>, i: nat)
    requires Legal(s, evs)
  {
    i < |evs| && Rearms(At(s, evs, i), evs[i])
  }

  /** Some streak of the family reached fifty since the last re-arm. */
  ghost predicate Reached(s: Setup, evs: seq<Event>, f: nat)
    requires Legal(s, evs)
  {
    exists j :: 0 <= j < |evs| && Reaches(s, evs, f, j) && NoRearm(s, evs, j)
  }

  ghost predicate Debounced(s: Setup, evs: seq<Event>, f: nat)
    requires Legal(s, evs) && f < FAMILIES
  {
    var b, n := After(s, evs).bat, Streak(s, evs, f);
    && Sized(b)
    && b.deb[f] == (if n < 65535 then n else 65535)
    && (b.tripped[f] <==> Reached(s, evs, f))
    && (n >= 50 ==> b.tripped[f])
  }

  lemma {:induction false} ReachedStep(s: Setup, evs: seq<Event>, f: nat)
    requires Legal(s, evs) && evs != []
    ensures Legal(s, evs[..|evs| - 1])
    ensures var n := |evs| - 1;
            Reached(s, evs, f) <==>
            Reaches(s, evs, f, n) || (!Rearms(After(s, evs[..n]), evs[n]) && Reached(s, evs[..n], f))
  {
    hide Enabled, Streak, After, Rearms;
    var n := |evs| - 1;
    var init := evs[..n];
    forall j | 0 <= j < n
      ensures Reaches(s, evs, f, j) <==> Reaches(s, init, f, j)
      ensures NoRearm(s, evs, j) <==> NoRearm(s, init, j) && !Rearms(After(s, init), evs[n])
    {
      LegalPrefix(s, evs, j + 1);
      assert init[..j + 1] == evs[..j + 1];
      NoRearmStep(s, evs, j);
    }
    if Reached(s, init, f) && !Rearms(After(s, init), evs[n]) {
      var j :| 0 <= j < |init| && Reaches(s, init, f, j) && NoRearm(s, init, j);
      assert Reaches(s, evs, f, j) && NoRearm(s, evs, j);
    }
  }

  lemma {:induction false} NoRearmStep(s: Setup, evs: seq<Event>, j: nat)
    requires Legal(s, evs) && j < |evs| - 1
    ensures Legal(s, evs[..|evs| - 1])
    ensures NoRearm(s, evs, j)
            <==> NoRearm(s, evs[..|evs| - 1], j) && !Rearms(After(s, evs[..|evs| - 1]), evs[|evs| - 1])
  {
    hide Enabled, After, Rearms, Legal;
    var n := |evs| - 1;
    LegalPrefix(s, evs, n);
    var init := evs[..n];
    forall i | 0 <= i < n ensures RearmAt(s, evs, i) <==> RearmAt(s, init, i) {
      assert init[..i] == evs[..i];
    }
    assert RearmAt(s, evs, n) <==> Rearms(After(s, init), evs[n]);
    if NoRearm(s, evs, j) {
      forall i | j < i < n ensures !RearmAt(s, init, i) {
        assert !RearmAt(s, evs, i);
      }
    }
    if NoRearm(s, init, j) && !Rearms(After(s, init), evs[n]) {
      forall i | j < i < |evs| ensures !RearmAt(s, evs, i) {
        assert i < n ==> !RearmAt(s, init, i);
      }
    }
  }

  /** The counter is the streak, and the trip mark is "some streak reached fifty since the last re-arm". */
  lemma {:induction false} DebounceMeansStreak(s: Setup, evs: seq<Event>, f: nat)
    requires Legal(s, evs) && f < FAMILIES
    ensures Debounced(s, evs, f)
    decreases |evs|
  {
    hide Reached, Reaches;
    if evs == [] {
      NothingReached(s, f);
    } else {
      var n := |evs| - 1;
      DebounceMeansStreak(s, evs[..n], f);
      ReachedStep(s, evs, f);
      assert evs[..n + 1] == evs;
      DebounceStep(s, evs, f);
    }
  }

  lemma {:induction false} NothingReached(s: Setup, f: nat)
    ensures !Reached(s, [], f)
  {
  }

  lemma {:induction false} DebounceStep(s: Setup, evs: seq<Event>, f: nat)
    requires Legal(s, evs) && evs != [] && f < FAMILIES
    requires Legal(s, evs[..|evs| - 1]) && Debounced(s, evs[..|evs| - 1], f)
    requires Reached(s, evs, f) <==>
             || Reaches(s, evs, f, |evs| - 1)
             || (!Rearms(After(s, evs[..|evs| - 1]), evs[|evs| - 1]) && Reached(s, evs[..|evs| - 1], f))
    ensures Debounced(s, evs, f)
  {
    hide Reached;
    var n := |evs| - 1;
    assert evs[..n + 1] == evs;
    var h, e := After(s, evs[..n]), evs[n];
    CounterStep(s.clk, h, e, f);
  }

  lemma {:induction false} CounterStep(clk: Safety.Clock, h: Hub, e: Event, f: nat)
    requires Enabled(h, e) && f < FAMILIES
    ensures var b, b' := h.bat, Step(clk, h, e).bat;
            && Sized(b')
            && b'.deb[f] == (if e.Check? && e.f == f then Counted(b.deb[f], e.crit)
                             else if Rearms(h, e) then 0 else b.deb[f])
            && b'.tripped[f] == (if e.Check? && e.f == f && Trips(b, f, e.crit) then true
                                 else if Rearms(h, e) then false else b.tripped[f])
  {
  }

  /**
   A check trips its family exactly when it is the fiftieth critical check in a row since
   the last non-critical one or re-arm, and no earlier row since the re-arm got that far.
   */
  lemma {:induction false} TripsAtFifty(s: Setup, evs: seq<Event>)
    requires Legal(s, evs) && evs != [] && evs[|evs| - 1].Check?
    ensures Legal(s, evs[..|evs| - 1])
    ensures var n, e := |evs| - 1, evs[|evs| - 1];
            && e.f < FAMILIES && Sized(After(s, evs[..n]).bat)
            && (Trips(After(s, evs[..n]).bat, e.f, e.crit)
                <==> Streak(s, evs, e.f) == 50 && !Reached(s, evs[..n], e.f))
  {
    hide Reached, After;
    var n := |evs| - 1;
    DebounceMeansStreak(s, evs[..n], evs[n].f);
  }

  // ---------------------------------------------------------------------------
  // Two trips have a clear and a return to STANDBY between them
  // ---------------------------------------------------------------------------

  predicate TripAt(s: Setup, evs: seq<Event>, f: nat, i: nat)
    requires Legal(s, evs)
  {
    && i < |evs| && evs[i].Check? && evs[i].f == f && f < FAMILIES
    && Sized(At(s, evs, i).bat) && Trips(At(s, evs, i).bat, f, evs[i].crit)
  }

  predicate ClearAt(s: Setup, evs: seq<Event>, k: nat)
    requires Legal(s, evs)
  {
    k < |evs| && Clears(At(s, evs, k), evs[k])
  }

  /** No re-arm can be under way: a trip is being raised, or the mirror is latched. */
  predicate Shut(h: Hub) {
    (h.task.Raising? || h.mirror.Latched()) && !h.task.Ready? && !h.task.Strobing?
  }

  lemma {:induction false} LatchedStays(clk: Safety.Clock, c: Safety.Core, e: Safety.Event)
    requires c.Latched() && !(e.Clear? && Safety.ClearAccepted(c, e.magic, e.counter))
    ensures Safety.Step(clk, c, e).Latched()
  {
  }

  lemma {:induction false} ShutStays(clk: Safety.Clock, h: Hub, e: Event)
    requires Enabled(h, e) && Shut(h) && !Clears(h, e)
    ensures Shut(Step(clk, h, e))
  {
    hide Safety.Step, Checked, ShortSeen, PlainRearmed, GateRearmed;
    if e.Mirror? && h.mirror.Latched() {
      LatchedStays(clk, h.mirror, e.e);
    }
  }

  ghost predicate ClearedSince(s: Setup, evs: seq<Event>, i: nat, n: nat)
    requires Legal(s, evs)
  {
    exists k :: i < k < n && ClearAt(s, evs, k)
  }

  ghost predicate LookedSince(s: Setup, evs: seq<Event>, i: nat, n: nat)
    requires Legal(s, evs)
  {
    exists q :: i < q < n && q < |evs| && evs[q].Look? && ClearedSince(s, evs, i, q)
  }

  lemma {:induction false} ShutUntilCleared(s: Setup, evs: seq<Event>, f: nat, i: nat, n: nat)
    requires Legal(s, evs) && TripAt(s, evs, f, i) && i < n <= |evs|
    ensures Shut(At(s, evs, n)) || ClearedSince(s, evs, i, n)
    ensures At(s, evs, n).task.Ready? || At(s, evs, n).task.Strobing? ==> LookedSince(s, evs, i, n)
    decreases n
  {
    hide At, Legal, Enabled, Step, Clears;
    AtNext(s, evs, n - 1);
    if n == i + 1 {
      TripRaises(s.clk, At(s, evs, i), evs[i]);
    } else {
      var h, e := At(s, evs, n - 1), evs[n - 1];
      ShutUntilCleared(s, evs, f, i, n - 1);
      if Clears(h, e) {
        assert ClearAt(s, evs, n - 1);
      } else if Shut(h) {
        ShutStays(s.clk, h, e);
      }
      LookFirst(s.clk, h, e);
      if e.Look? {
        NoLookWhenShut(h);
        assert ClearedSince(s, evs, i, n - 1);
      }
    }
  }

  lemma {:induction false} TripRaises(clk: Safety.Clock, h: Hub, e: Event)
    requires Enabled(h, e) && e.Check? && Trips(h.bat, e.f, e.crit)
    ensures Step(clk, h, e).task.Raising?
  {
  }

  lemma {:induction false} NoLookWhenShut(h: Hub)
    ensures Enabled(h, Look) ==> !Shut(h)
  {
  }

  lemma {:induction false} LookFirst(clk: Safety.Clock, h: Hub, e: Event)
    requires Enabled(h, e)
    ensures var h' := Step(clk, h, e);
            h'.task.Ready? || h'.task.Strobing? ==> e.Look? || h.task.Ready? || h.task.Strobing?
  {
  }

  lemma {:induction false} TrippedUntilRearm(s: Setup, evs: seq<Event>, f: nat, i: nat, n: nat)
    requires Legal(s, evs) && TripAt(s, evs, f, i) && i < n <= |evs|
    requires forall r :: i < r < n ==> !RearmAt(s, evs, r)
    ensures Sized(At(s, evs, n).bat) && At(s, evs, n).bat.tripped[f]
    decreases n
  {
    hide At, Legal, Step, Rearms;
    AtNext(s, evs, n - 1);
    if n > i + 1 {
      TrippedUntilRearm(s, evs, f, i, n - 1);
      assert !RearmAt(s, evs, n - 1);
    }
    CounterStep(s.clk, At(s, evs, n - 1), evs[n - 1], f);
  }

  /**
   Between two trips of one family the hub accepted a clear, then found the mirror in
   STANDBY, then re-armed.
   */
  lemma {:induction false} TwoTripsNeedClear(s: Setup, evs: seq<Event>, f: nat, i: nat, j: nat)
      returns (k: nat, q: nat, r: nat)
    requires Legal(s, evs) && i < j && TripAt(s, evs, f, i) && TripAt(s, evs, f, j)
    ensures i < k < q < r < j
    ensures ClearAt(s, evs, k)
    ensures evs[q].Look? && At(s, evs, q).mirror.state == Safety.STANDBY
    ensures RearmAt(s, evs, r)
  {
    hide At, Legal, Step;
    if forall r :: i < r < j ==> !RearmAt(s, evs, r) {
      TrippedUntilRearm(s, evs, f, i, j);
    }
    r :| i < r < j && RearmAt(s, evs, r);
    AtNext(s, evs, r);
    ShutUntilCleared(s, evs, f, i, r);
    q :| i < q < r && q < |evs| && evs[q].Look? && ClearedSince(s, evs, i, q);
    AtNext(s, evs, q);
    k :| i < k < q && ClearAt(s, evs, k);
  }

  // ---------------------------------------------------------------------------
  // What the published family bits mean
  // ---------------------------------------------------------------------------

  predicate PlainRearmAt(s: Setup, evs: seq<Event>, i: nat)
    requires Legal(s, evs)
  {
    i < |evs| && PlainRearms(At(s, evs, i), evs[i])
  }

  ghost predicate TrippedSincePlain(s: Setup, evs: seq<Event>, f: nat, n: nat)
    requires Legal(s, evs) && n <= |evs|
  {
    exists i :: 0 <= i < n && TripAt(s, evs, f, i) && NoPlain(s, evs, i, n)
  }

  ghost predicate NoPlain(s: Setup, evs: seq<Event>, i: nat, n: nat)
    requires Legal(s, evs) && n <= |evs|
  {
    forall r :: i < r < n ==> !PlainRearmAt(s, evs, r)
  }

  /** A family's bit says that it tripped since the last re-arm that was not a gate re-arm. */
  lemma {:induction false} BitMeansTrippedSincePlain(s: Setup, evs: seq<Event>, f: nat, n: nat)
    requires Legal(s, evs) && n <= |evs| && f < FAMILIES
    ensures Tripped(f) in At(s, evs, n).bat.faults <==> TrippedSincePlain(s, evs, f, n)
    decreases n
  {
    hide At, Legal, Step, PlainRearms, Trips;
    if n == 0 {
      NoBitsAtStart(s, evs, f);
    } else {
      BitMeansTrippedSincePlain(s, evs, f, n - 1);
      AtNext(s, evs, n - 1);
      BitStep(s.clk, At(s, evs, n - 1), evs[n - 1], f);
      if TripAt(s, evs, f, n - 1) {
        assert NoPlain(s, evs, n - 1, n);
      } else if TrippedSincePlain(s, evs, f, n - 1) && !PlainRearmAt(s, evs, n - 1) {
        var i :| 0 <= i < n - 1 && TripAt(s, evs, f, i) && NoPlain(s, evs, i, n - 1);
        assert NoPlain(s, evs, i, n);
      }
    }
  }

  lemma {:induction false} NoBitsAtStart(s: Setup, evs: seq<Event>, f: nat)
    requires Legal(s, evs)
    ensures Tripped(f) !in At(s, evs, 0).bat.faults
  {
  }

  lemma {:induction false} BitStep(clk: Safety.Clock, h: Hub, e: Event, f: nat)
    requires Enabled(h, e) && f < FAMILIES
    ensures Tripped(f) in Step(clk, h, e).bat.faults
            <==> (e.Check? && e.f == f && Trips(h.bat, f, e.crit))
                 || (Tripped(f) in h.bat.faults && !PlainRearms(h, e))
  {
  }

  ghost predicate BitsAgree(b: Battery) {
    Sized(b) && forall f :: 0 <= f < FAMILIES ==> (Tripped(f) in b.faults <==> b.tripped[f])
  }

  /** Bits and trip marks part exactly when the gate is re-armed while a family is tripped. */
  lemma {:induction false} AgreementExact(clk: Safety.Clock, h: Hub, e: Event)
    requires Enabled(h, e) && BitsAgree(h.bat)
    ensures BitsAgree(Step(clk, h, e).bat)
            <==> !(e == Feedback(true) && exists f :: 0 <= f < FAMILIES && h.bat.tripped[f])
  {
    var b' := Step(clk, h, e).bat;
    forall f | 0 <= f < FAMILIES
      ensures (Tripped(f) in b'.faults <==> b'.tripped[f]) <==> !(e == Feedback(true) && h.bat.tripped[f])
    {
      BitStep(clk, h, e, f);
      CounterStep(clk, h, e, f);
    }
    CounterStep(clk, h, e, 0);
  }

  // ---------------------------------------------------------------------------
  // A run that leaves a stale bit
  // ---------------------------------------------------------------------------

  lemma {:induction false} Extend(s: Setup, evs: seq<Event>, e: Event)
    requires Legal(s, evs) && Enabled(After(s, evs), e)
    ensures Legal(s, evs + [e]) && After(s, evs + [e]) == Step(s.clk, After(s, evs), e)
  {
    hide Enabled, Step;
    assert (evs + [e])[..|evs|] == evs;
  }

  function Lifted(evs: seq<Safety.Event>): seq<Event>
    decreases |evs|
  {
    if evs == [] then [] else Lifted(evs[..|evs| - 1]) + [Mirror(evs[|evs| - 1])]
  }

  predicate NoClears(evs: seq<Safety.Event>) {
    forall i :: 0 <= i < |evs| ==> !evs[i].Clear?
  }

  lemma {:induction false} LiftedRun(s: Setup, evs: seq<Safety.Event>)
    requires NoClears(evs)
    ensures Legal(s, Lifted(evs))
    ensures After(s, Lifted(evs)) == Begin(s).(mirror := Safety.Run(s.clk, Begin(s).mirror, evs))
    decreases |evs|
  {
    hide Safety.Step;
    if evs == [] {
    } else {
      var n := |evs| - 1;
      LiftedRun(s, evs[..n]);
      Extend(s, Lifted(evs[..n]), Mirror(evs[n]));
    }
  }

  function Overvolts(n: nat): seq<Event> {
    if n == 0 then [] else Overvolts(n - 1) + [Check(0, true, 2)]
  }

  /** Up to the fiftieth critical check only the counter moves. */
  lemma {:induction false} OvervoltRun(s: Setup, evs: seq<Event>, n: nat)
    requires Legal(s, evs) && After(s, evs).task.Free? && After(s, evs).bat == PowerUp(s.latchIdle) && n < DEBOUNCE
    ensures Legal(s, evs + Overvolts(n))
    ensures After(s, evs + Overvolts(n)) == After(s, evs).(bat := PowerUp(s.latchIdle).(deb := NO_COUNTS[0 := n]))
  {
    hide Legal, After;
    if n == 0 {
      assert evs + Overvolts(0) == evs;
      assert NO_COUNTS[0 := 0] == NO_COUNTS;
    } else {
      OvervoltRun(s, evs, n - 1);
      Extend(s, evs + Overvolts(n - 1), Check(0, true, 2));
      assert evs + Overvolts(n) == evs + Overvolts(n - 1) + [Check(0, true, 2)];
    }
  }

  lemma {:induction false} TrainHasNoClears(boot: int, n: nat)
    ensures NoClears(SafetyRuns.BeatTrain(boot, n))
  {
    if n == 0 {
    } else {
      TrainHasNoClears(boot, n - 1);
    }
  }

  function Spent(boot: int): seq<Event> {
    Lifted(SafetyRuns.BeatTrain(boot, 20)) + Overvolts(49) + [Check(0, true, 2)] + [Raise(boot + 1000)]
    + [Mirror(Safety.Clear(boot + 1000, Safety.CLEAR_ESTOP_MAGIC, 1))] + [Notify] + [Mirror(Safety.Tick(boot + 1000))]
    + [Look] + [Rearm(false)] + [Feedback(true)]
  }

  lemma {:induction false} TripAndRaise(s: Setup, evs: seq<Event>, now: int)
    requires Legal(s, evs) && After(s, evs).task.Free? && After(s, evs).bat == PowerUp(false) && !s.latchIdle
    requires After(s, evs).mirror.Latched()
    ensures var evs' := evs + Overvolts(49) + [Check(0, true, 2)] + [Raise(now)];
            && Legal(s, evs')
            && After(s, evs') == After(s, evs).(bat := Battery(NO_COUNTS[0 := 50], NO_FAMILIES[0 := true],
                                                               {ShortLatch, Tripped(0)}, true, false, false))
  {
    hide Legal, After;
    OvervoltRun(s, evs, 49);
    Extend(s, evs + Overvolts(49), Check(0, true, 2));
    Extend(s, evs + Overvolts(49) + [Check(0, true, 2)], Raise(now));
  }

  /** Powered up into a tripped latch, an overvoltage trip, then a gate re-arm: the bit outlives the trip. */
  lemma {:induction false} GateRearmLeavesBit(boot: int)
    ensures var s := Setup(Safety.Unbounded, boot, false);
            && Legal(s, Spent(boot))
            && Tripped(0) in After(s, Spent(boot)).bat.faults
            && Sized(After(s, Spent(boot)).bat) && !After(s, Spent(boot)).bat.tripped[0]
  {
    hide Legal, After, SafetyRuns.BeatTrain, Safety.Run, Lifted, Overvolts, Safety.Step;
    var s := Setup(Safety.Unbounded, boot, false);
    var train := SafetyRuns.BeatTrain(boot, 20);
    TrainHasNoClears(boot, 20);
    LiftedRun(s, train);
    SafetyRuns.BeatTrainState(boot, 20);
    var evs := Lifted(train);
    TripAndRaise(s, evs, boot + 1000);
    var e1 := evs + Overvolts(49) + [Check(0, true, 2)] + [Raise(boot + 1000)];
    SafetyRuns.ClearThenTick(After(s, e1).mirror, boot + 1000);
    ClearAndRearm(s, e1, boot + 1000);
  }

  /** From a latched short with an overvoltage trip: clear, release, strobe, gate closed. */
  lemma {:induction false} ClearAndRearm(s: Setup, evs: seq<Event>, now: int)
    requires Legal(s, evs) && After(s, evs).task.Free? && Sized(After(s, evs).bat)
    requires After(s, evs).bat.shortLatched && Tripped(0) in After(s, evs).bat.faults
    requires var clear := Safety.Clear(now, Safety.CLEAR_ESTOP_MAGIC, 1);
             var c := After(s, evs).mirror;
             && Safety.ClearAccepted(c, clear.magic, clear.counter)
             && Safety.Step(s.clk, Safety.Step(s.clk, c, clear), Safety.Tick(now)).state == Safety.STANDBY
    ensures var run := evs + [Mirror(Safety.Clear(now, Safety.CLEAR_ESTOP_MAGIC, 1))] + [Notify]
                       + [Mirror(Safety.Tick(now))] + [Look] + [Rearm(false)] + [Feedback(true)];
            && Legal(s, run) && Sized(After(s, run).bat)
            && Tripped(0) in After(s, run).bat.faults && !After(s, run).bat.tripped[0]
  {
    hide Legal, After, Safety.Step;
    var clear := Mirror(Safety.Clear(now, Safety.CLEAR_ESTOP_MAGIC, 1));
    Extend(s, evs, clear);
    Extend(s, evs + [clear], Notify);
    var e2 := evs + [clear] + [Notify];
    Extend(s, e2, Mirror(Safety.Tick(now)));
    var e3 := e2 + [Mirror(Safety.Tick(now))];
    Extend(s, e3, Look);
    Extend(s, e3 + [Look], Rearm(false));
    Extend(s, e3 + [Look] + [Rearm(false)], Feedback(true));
  }
}
