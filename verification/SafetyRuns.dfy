/**
 Promises of the safety machine over every run, on unbounded time.

 `LastBeat` and `StreakStart` read the accepted beats off the event history; the
 machine's two time stamps are shown to be the times of those events.
 */
module SafetyRuns {
  import opened SafetyCore
  import opened WireTypes

  /** The machine after a history of events, for a node booted at `boot`. */
  function After(boot: int, evs: seq<Event>): Core {
    Run(Unbounded, Init(Unbounded, boot), evs)
  }

  /** Event times never run backwards, and none precedes boot. */
  ghost predicate Timed(boot: int, evs: seq<Event>) {
    && (forall i :: 0 <= i < |evs| ==> boot <= evs[i].now)
    && (forall i, j :: 0 <= i < j < |evs| ==> evs[i].now <= evs[j].now)
  }

  lemma {:induction false} TimedPrefix(boot: int, evs: seq<Event>, n: nat)
    requires Timed(boot, evs) && n <= |evs|
    ensures Timed(boot, evs[..n])
  {
  }

  lemma {:induction false} AfterLast(boot: int, evs: seq<Event>)
    requires evs != []
    ensures After(boot, evs) == Step(Unbounded, After(boot, evs[..|evs| - 1]), evs[|evs| - 1])
  {
  }

  // ---------------------------------------------------------------------------
  // Accepted beats, read off the history
  // ---------------------------------------------------------------------------

  /** Index of the latest accepted beat since the bus was last down, or -1. */
  function LastBeat(evs: seq<Event>): (b: int)
    ensures -1 <= b < |evs| && (b >= 0 ==> evs[b].Heartbeat?)
    decreases |evs|
  {
    if evs == [] then -1
    else
      var n := |evs| - 1;
      var b := LastBeat(evs[..n]);
      if evs[n].BusDown? then -1
      else if evs[n].Heartbeat? && (b < 0 || evs[b].seqNo != evs[n].seqNo) then n
      else b
  }

  /** Event `i` is a beat that counted: not a repeat of the sequence number accepted last. */
  predicate Beat(evs: seq<Event>, i: int) {
    0 <= i < |evs| && LastBeat(evs[..i + 1]) == i
  }

  /** Index of the beat that began the current streak, or -1. */
  function StreakStart(evs: seq<Event>): (s: int)
    ensures -1 <= s < |evs| && (s >= 0 ==> evs[s].Heartbeat?)
    decreases |evs|
  {
    if evs == [] then -1
    else
      var n := |evs| - 1;
      var b := LastBeat(evs[..n]);
      if evs[n].BusDown? then -1
      else if LastBeat(evs) == n && (b < 0 || evs[n].now - evs[b].now > 50) then n
      else StreakStart(evs[..n])
  }

  lemma {:induction false} PrefixBeats(evs: seq<Event>, n: nat, i: int)
    requires n <= |evs| && i < n
    ensures Beat(evs[..n], i) <==> Beat(evs, i)
  {
    if 0 <= i {
      assert evs[..n][..i + 1] == evs[..i + 1];
    }
  }

  /** What the machine stores about beats is what the history says. */
  ghost predicate Remembers(c: Core, evs: seq<Event>) {
    var b, s := LastBeat(evs), StreakStart(evs);
    && (c.haveHb <==> b >= 0)
    && (b >= 0 ==> s >= 0 && c.lastHbMs == evs[b].now && c.lastHbSeq == evs[b].seqNo && c.streakStartMs == evs[s].now)
  }

  lemma {:induction false} HistoryRemembered(boot: int, evs: seq<Event>)
    ensures Remembers(After(boot, evs), evs)
    decreases |evs|
  {
    hide OnTick, OnModeSet, OnClear, After;
    if evs == [] {
      NothingYet(boot);
    } else {
      var n := |evs| - 1;
      HistoryRemembered(boot, evs[..n]);
      AfterLast(boot, evs);
      if !evs[n].Heartbeat? && !evs[n].BusDown? {
        OtherEventsKeepBeats(After(boot, evs[..n]), evs[n]);
      }
    }
  }

  lemma {:induction false} NothingYet(boot: int)
    ensures After(boot, []) == Init(Unbounded, boot)
  {
  }

  lemma {:induction false} OtherEventsKeepBeats(c: Core, e: Event)
    requires !e.Heartbeat? && !e.BusDown?
    ensures var c' := Step(Unbounded, c, e);
            c'.haveHb == c.haveHb && c'.lastHbMs == c.lastHbMs && c'.lastHbSeq == c.lastHbSeq
            && c'.streakStartMs == c.streakStartMs
  {
  }

  /**
   Every beat from `b` back to `s` was accepted at most 50 ms after the one before it,
   with the bus up in between (`LastBeat` is -1 across a bus-down).
   */
  ghost predicate Unbroken(evs: seq<Event>, s: int, b: int)
    decreases b
  {
    && Beat(evs, b)
    && 0 <= s <= b
    && (s < b ==>
          var previous := LastBeat(evs[..b]);
          previous >= 0 && evs[b].now - evs[previous].now <= HEARTBEAT_TIMEOUT_MS && Unbroken(evs, s, previous))
  }

  lemma {:induction false} UnbrokenPrefix(evs: seq<Event>, n: nat, s: int, b: int)
    requires n <= |evs| && b < n && Unbroken(evs[..n], s, b)
    ensures Unbroken(evs, s, b)
    decreases b
  {
    hide LastBeat;
    PrefixBeats(evs, n, b);
    assert evs[..n][..b] == evs[..b];
    if s < b {
      UnbrokenPrefix(evs, n, s, LastBeat(evs[..b]));
    }
  }

  lemma {:induction false} LastBeatIsBeat(evs: seq<Event>)
    requires LastBeat(evs) >= 0
    ensures Beat(evs, LastBeat(evs))
    ensures forall i :: LastBeat(evs) < i < |evs| ==> !evs[i].BusDown?
    decreases |evs|
  {
    var n := |evs| - 1;
    assert evs[..n + 1] == evs;
    if LastBeat(evs) < n {
      LastBeatIsBeat(evs[..n]);
      PrefixBeats(evs, n, LastBeat(evs));
      forall i | LastBeat(evs) < i < |evs| ensures !evs[i].BusDown? {
        assert i < n ==> evs[..n][i] == evs[i];
      }
    }
  }

  /** The current streak is one unbroken run of beats. */
  lemma {:induction false} StreakUnbroken(evs: seq<Event>)
    requires LastBeat(evs) >= 0
    ensures Unbroken(evs, StreakStart(evs), LastBeat(evs))
    decreases |evs|
  {
    var n := |evs| - 1;
    var b, s := LastBeat(evs), StreakStart(evs);
    LastBeatIsBeat(evs);
    if s < n {
      var b0 := LastBeat(evs[..n]);
      assert b0 >= 0 && s == StreakStart(evs[..n]);
      StreakUnbroken(evs[..n]);
      UnbrokenPrefix(evs, n, s, b0);
    }
  }

  /** A beat repeating the number accepted last changes nothing at all. */
  lemma {:induction false} RepeatsNeverCount(boot: int, evs: seq<Event>, again: Event)
    requires again.Heartbeat? && LastBeat(evs) >= 0 && again.seqNo == evs[LastBeat(evs)].seqNo
    ensures After(boot, evs + [again]) == After(boot, evs)
    ensures !Beat(evs + [again], |evs|)
  {
    HistoryRemembered(boot, evs);
    var all := evs + [again];
    assert all[..|evs|] == evs && all[..|evs| + 1] == all;
  }

  // ---------------------------------------------------------------------------
  // Dead-man switch
  // ---------------------------------------------------------------------------

  /** Only a tick enters OPERATIONAL, and only on a live heartbeat. */
  lemma {:induction false} OnlyTicksOperate(c: Core, e: Event)
    requires Step(Unbounded, c, e).state == OPERATIONAL
    ensures !e.Tick? ==> c.state == OPERATIONAL && !e.BusDown?
    ensures e.Tick? ==> c.haveHb && e.now - c.lastHbMs <= HEARTBEAT_TIMEOUT_MS
    ensures e.Tick? && c.state != OPERATIONAL ==> c.wantOperational && (c.state == STANDBY || c.state == PASSIVE)
  {
  }

  lemma {:induction false} StaysLive(c: Core, e: Event)
    requires c.state == OPERATIONAL ==> c.haveHb
    ensures Step(Unbounded, c, e).state == OPERATIONAL ==> Step(Unbounded, c, e).haveHb
  {
  }

  /** An OPERATIONAL node has heard a beat since the bus was last down. */
  lemma {:induction false} LiveWhileOperational(boot: int, evs: seq<Event>)
    ensures After(boot, evs).state == OPERATIONAL ==> After(boot, evs).haveHb
    decreases |evs|
  {
    hide After, Step;
    if evs == [] {
      NothingYet(boot);
    } else {
      LiveWhileOperational(boot, evs[..|evs| - 1]);
      AfterLast(boot, evs);
      StaysLive(After(boot, evs[..|evs| - 1]), evs[|evs| - 1]);
    }
  }

  /**
   If the node is OPERATIONAL and was ticked at event `m`, a beat was accepted no
   earlier than 50 ms before that tick, and the bus has not been down since.
   */
  lemma {:induction false} OperationalHasBeat(boot: int, evs: seq<Event>, m: nat) returns (b: int)
    requires Timed(boot, evs) && m < |evs| && evs[m].Tick?
    requires After(boot, evs).state == OPERATIONAL
    ensures Beat(evs, b) && evs[b].now >= evs[m].now - HEARTBEAT_TIMEOUT_MS
    ensures forall i :: b < i < |evs| ==> !evs[i].BusDown?
    decreases |evs|
  {
    hide Step;
    var n := |evs| - 1;
    AfterLast(boot, evs);
    OnlyTicksOperate(After(boot, evs[..n]), evs[n]);
    if evs[n].Tick? {
      b := LastBeat(evs[..n]);
      HistoryRemembered(boot, evs[..n]);
      LastBeatIsBeat(evs[..n]);
      PrefixBeats(evs, n, b);
      forall i | b < i < |evs| ensures !evs[i].BusDown? {
        assert i < n ==> evs[..n][i] == evs[i];
      }
    } else {
      TimedPrefix(boot, evs, n);
      b := OperationalHasBeat(boot, evs[..n], m);
      PrefixBeats(evs, n, b);
      forall i | b < i < |evs| ensures !evs[i].BusDown? {
        assert i < n ==> evs[..n][i] == evs[i];
      }
    }
  }

  /** Ticked at least every `period` ms, an OPERATIONAL node heard a beat in the last 50 + period ms. */
  lemma {:induction false} DeadManBound(boot: int, evs: seq<Event>, m: nat, instant: int, period: nat) returns (b: int)
    requires Timed(boot, evs) && m < |evs| && evs[m].Tick? && instant - period <= evs[m].now
    requires After(boot, evs).state == OPERATIONAL
    ensures Beat(evs, b) && evs[b].now >= instant - period - HEARTBEAT_TIMEOUT_MS
  {
    b := OperationalHasBeat(boot, evs, m);
  }

  // ---------------------------------------------------------------------------
  // Coming back from a comm-loss trip
  // ---------------------------------------------------------------------------

  ghost predicate CommLossTrip(boot: int, evs: seq<Event>, p: nat) {
    && p < |evs| && (evs[p].Tick? || evs[p].BusDown?)
    && After(boot, evs[..p]).state == OPERATIONAL
    && After(boot, evs[..p + 1]).state == PASSIVE
  }

  /** Index of the latest actuation command, or -1. */
  function LastCmd(evs: seq<Event>): (c: int)
    ensures -1 <= c < |evs| && (c >= 0 ==> evs[c].Cmd?)
    decreases |evs|
  {
    if evs == [] then -1
    else if evs[|evs| - 1].Cmd? then |evs| - 1
    else LastCmd(evs[..|evs| - 1])
  }

  lemma {:induction false} CmdRemembered(boot: int, evs: seq<Event>)
    ensures var c := LastCmd(evs);
            After(boot, evs).lastCmdMs == if c < 0 then boot - CMD_STALE_MS - 1 else evs[c].now
    decreases |evs|
  {
    hide After;
    if evs == [] {
      NothingYet(boot);
    } else {
      CmdRemembered(boot, evs[..|evs| - 1]);
      AfterLast(boot, evs);
    }
  }

  /** After a trip no streak reaches back past it: old beats are stale, new ones start afresh. */
  ghost predicate StreakForgotten(evs: seq<Event>, p: nat, n: nat)
    requires p < n <= |evs|
  {
    var b := LastBeat(evs[..n]);
    || b < 0
    || p < StreakStart(evs[..n])
    || (b <= p && evs[p].now - evs[b].now > HEARTBEAT_TIMEOUT_MS)
  }

  lemma {:induction false} TripForgetsStreak(boot: int, evs: seq<Event>, p: nat)
    requires CommLossTrip(boot, evs, p)
    ensures StreakForgotten(evs, p, p + 1)
  {
    HistoryRemembered(boot, evs[..p]);
    assert evs[..p + 1][..p] == evs[..p];
    AfterLast(boot, evs[..p + 1]);
  }

  lemma {:induction false} StreakStaysForgotten(boot: int, evs: seq<Event>, p: nat, n: nat)
    requires Timed(boot, evs) && CommLossTrip(boot, evs, p) && p < n <= |evs|
    ensures StreakForgotten(evs, p, n)
    decreases n
  {
    hide After;
    if n == p + 1 {
      TripForgetsStreak(boot, evs, p);
    } else {
      StreakStaysForgotten(boot, evs, p, n - 1);
      assert evs[..n][..n - 1] == evs[..n - 1];
    }
  }

  /**
   A run that trips at `p` and returns to OPERATIONAL at `q` out of PASSIVE spent at
   least 250 ms since the trip on one unbroken streak of beats begun after the trip,
   with a command received inside that streak and less than 200 ms old.
   */
  lemma {:induction false} ReturnAfterTrip(boot: int, evs: seq<Event>, p: nat, q: nat) returns (s: int, c: int)
    requires Timed(boot, evs) && CommLossTrip(boot, evs, p) && p < q < |evs|
    requires After(boot, evs[..q]).state == PASSIVE && After(boot, evs[..q + 1]).state == OPERATIONAL
    ensures evs[q].Tick?
    ensures p < s && Unbroken(evs, s, LastBeat(evs[..q]))
    ensures evs[q].now - evs[LastBeat(evs[..q])].now <= HEARTBEAT_TIMEOUT_MS
    ensures evs[q].now - evs[p].now >= evs[q].now - evs[s].now >= REARM_WINDOW_MS
    ensures 0 <= c < q && evs[c].Cmd? && evs[s].now <= evs[c].now && evs[q].now - evs[c].now < CMD_STALE_MS
  {
    hide After, LastBeat, StreakStart;
    assert evs[..q + 1][..q] == evs[..q];
    AfterLast(boot, evs[..q + 1]);
    HistoryRemembered(boot, evs[..q]);
    CmdRemembered(boot, evs[..q]);
    StreakStaysForgotten(boot, evs, p, q);
    s, c := StreakStart(evs[..q]), LastCmd(evs[..q]);
    StreakUnbroken(evs[..q]);
    UnbrokenPrefix(evs, q, s, LastBeat(evs[..q]));
  }

  /** The state before event `n`. */
  function StateAt(boot: int, evs: seq<Event>, n: nat): NodeState
    requires n <= |evs|
  {
    After(boot, evs[..n]).state
  }

  /** A beat at most 50 ms old. */
  predicate LiveBeat(evs: seq<Event>, q: nat)
    requires q < |evs|
  {
    var b := LastBeat(evs[..q]);
    b >= 0 && evs[q].now - evs[b].now <= 50
  }

  /** The re-arm window read off the history: a 250 ms streak with a fresh command inside it. */
  predicate WindowMet(evs: seq<Event>, q: nat)
    requires q < |evs|
  {
    var s, c := StreakStart(evs[..q]), LastCmd(evs[..q]);
    && LiveBeat(evs, q) && s >= 0 && c >= 0
    && evs[q].now - evs[s].now >= 250
    && evs[s].now <= evs[c].now && evs[q].now - evs[c].now < 200
  }

  /** Event `i` withdraws any wish to operate: a latch, or a request for a lesser state. */
  ghost predicate Withdraws(boot: int, evs: seq<Event>, i: int) {
    || Latches(boot, evs, i)
    || (0 <= i < |evs| && evs[i].ModeSet? && (evs[i].target == STANDBY || evs[i].target == PASSIVE))
  }

  /** MODE_SET(OPERATIONAL) at `m`, not withdrawn since. */
  ghost predicate WishAt(boot: int, evs: seq<Event>, m: nat) {
    && m < |evs| && evs[m].ModeSet? && evs[m].target == OPERATIONAL
    && forall i :: m < i < |evs| ==> !Withdraws(boot, evs, i)
  }

  ghost predicate Wished(boot: int, evs: seq<Event>) {
    exists m: nat :: WishAt(boot, evs, m)
  }

  lemma {:induction false} WishStep(k: Core, e: Event)
    ensures var k' := Step(Unbounded, k, e);
            k'.wantOperational
            <==> (e.ModeSet? && e.target == OPERATIONAL)
                 || (k.wantOperational && !(!k.Latched() && k'.Latched())
                     && !(e.ModeSet? && (e.target == STANDBY || e.target == PASSIVE)))
  {
  }

  lemma {:induction false} WishAtStep(boot: int, evs: seq<Event>, m: nat)
    requires m < |evs| - 1
    ensures WishAt(boot, evs, m) <==> WishAt(boot, evs[..|evs| - 1], m) && !Withdraws(boot, evs, |evs| - 1)
  {
    hide Latches;
    var n := |evs| - 1;
    forall i | m < i < n ensures Withdraws(boot, evs[..n], i) <==> Withdraws(boot, evs, i) {
      PrefixEstop(boot, evs, n, i);
    }
    if WishAt(boot, evs, m) {
      assert !Withdraws(boot, evs, n);
      forall i | m < i < n ensures !Withdraws(boot, evs[..n], i) {
        assert !Withdraws(boot, evs, i);
      }
    }
    if WishAt(boot, evs[..n], m) && !Withdraws(boot, evs, n) {
      forall i | m < i < |evs| ensures !Withdraws(boot, evs, i) {
        assert i < n ==> !Withdraws(boot, evs[..n], i);
      }
    }
  }

  /** The stored wish is the one read off the history. */
  lemma {:induction false} WishRemembered(boot: int, evs: seq<Event>)
    ensures After(boot, evs).wantOperational <==> Wished(boot, evs)
    decreases |evs|
  {
    hide After, Step;
    if evs == [] {
      NothingYet(boot);
    } else {
      var n := |evs| - 1;
      WishRemembered(boot, evs[..n]);
      AfterLast(boot, evs);
      WishStep(After(boot, evs[..n]), evs[n]);
      assert evs[..n + 1] == evs;
      assert Latches(boot, evs, n) <==> !After(boot, evs[..n]).Latched() && After(boot, evs).Latched();
      hide Latches;
      WishedStep(boot, evs);
    }
  }

  lemma {:induction false} WishedStep(boot: int, evs: seq<Event>)
    requires evs != []
    ensures var n := |evs| - 1;
            Wished(boot, evs) <==> (evs[n].ModeSet? && evs[n].target == OPERATIONAL)
                                   || (Wished(boot, evs[..n]) && !Withdraws(boot, evs, n))
  {
    hide Withdraws;
    var n := |evs| - 1;
    if Wished(boot, evs) {
      var m: nat :| WishAt(boot, evs, m);
      if m < n {
        WishAtStep(boot, evs, m);
      }
    }
    if evs[n].ModeSet? && evs[n].target == OPERATIONAL {
      assert WishAt(boot, evs, n);
    }
    if Wished(boot, evs[..n]) && !Withdraws(boot, evs, n) {
      var m: nat :| WishAt(boot, evs[..n], m);
      WishAtStep(boot, evs, m);
    }
  }

  /** Exactly when a tick makes a node OPERATIONAL, read off the history. */
  lemma {:induction false} TickOperatesExact(boot: int, evs: seq<Event>, q: nat)
    requires Timed(boot, evs) && q < |evs| && evs[q].Tick? && StateAt(boot, evs, q) != OPERATIONAL
    ensures StateAt(boot, evs, q + 1) == OPERATIONAL
            <==> && Wished(boot, evs[..q]) && LiveBeat(evs, q)
                 && (StateAt(boot, evs, q) == STANDBY || (StateAt(boot, evs, q) == PASSIVE && WindowMet(evs, q)))
  {
    hide After, LastBeat, StreakStart, LastCmd, Wished;
    assert evs[..q + 1][..q] == evs[..q];
    AfterLast(boot, evs[..q + 1]);
    HistoryRemembered(boot, evs[..q]);
    CmdRemembered(boot, evs[..q]);
    WishRemembered(boot, evs[..q]);
  }

  /** A fresh command in a full window falls more than 50 ms after the streak began: its order never decides. */
  lemma {:induction false} FreshCommandFallsInside(c: Core, now: int)
    requires c.StreakMs(Unbounded, now) >= 250 && c.CmdFresh(Unbounded, now)
    ensures Elapsed(Unbounded, c.lastCmdMs, c.streakStartMs) > 50
    ensures RearmReady(Unbounded, c, now) <==> c.wantOperational && c.HeartbeatOk(Unbounded, now)
  {
  }

  /** OPERATIONAL always rests on a MODE_SET(OPERATIONAL) that nothing has withdrawn. */
  lemma {:induction false} OperationalMeansWished(boot: int, evs: seq<Event>)
    ensures After(boot, evs).state == OPERATIONAL ==> Wished(boot, evs)
    decreases |evs|
  {
    hide Wished;
    OperationalKeepsWish(boot, evs);
    WishRemembered(boot, evs);
  }

  lemma {:induction false} OperationalKeepsWish(boot: int, evs: seq<Event>)
    ensures After(boot, evs).state == OPERATIONAL ==> After(boot, evs).wantOperational
    decreases |evs|
  {
    hide After, Step;
    if evs == [] {
      NothingYet(boot);
    } else {
      OperationalKeepsWish(boot, evs[..|evs| - 1]);
      AfterLast(boot, evs);
      KeepsWishStep(After(boot, evs[..|evs| - 1]), evs[|evs| - 1]);
    }
  }

  lemma {:induction false} KeepsWishStep(k: Core, e: Event)
    requires k.state == OPERATIONAL ==> k.wantOperational
    ensures Step(Unbounded, k, e).state == OPERATIONAL ==> Step(Unbounded, k, e).wantOperational
  {
  }

  /**
   Told to stand down, by a latch, MODE_SET(STANDBY) or MODE_SET(PASSIVE), a node is never
   OPERATIONAL again, from that very event on, before a new MODE_SET(OPERATIONAL).
   */
  lemma {:induction false} StandDownHolds(boot: int, evs: seq<Event>, i: nat, n: nat) returns (m: nat)
    requires i < n <= |evs| && Withdraws(boot, evs, i) && StateAt(boot, evs, n) == OPERATIONAL
    ensures i < m < n && evs[m].ModeSet? && evs[m].target == OPERATIONAL
  {
    hide After, Step;
    OperationalMeansWished(boot, evs[..n]);
    m :| WishAt(boot, evs[..n], m);
    assert evs[..i + 1][..i] == evs[..i];
    AfterLast(boot, evs[..i + 1]);
    if evs[i].ModeSet? && evs[i].target == OPERATIONAL {
      WishNeverLatches(After(boot, evs[..i]), evs[i]);
    }
    hide Latches;
    PrefixEstop(boot, evs, n, i);
    assert Withdraws(boot, evs[..n], i);
  }

  lemma {:induction false} WishNeverLatches(k: Core, e: Event)
    requires e.ModeSet? && e.target == OPERATIONAL
    ensures Step(Unbounded, k, e).Latched() ==> k.Latched()
  {
  }

  /** Event `q` calls for an e-stop: a fault, a request, or a beat that counts and carries the latch flag. */
  predicate CallsEstop(evs: seq<Event>, q: nat)
    requires q < |evs|
  {
    var e := evs[q];
    e.Estop? || (e.ModeSet? && e.target == 4) || (e.Heartbeat? && e.latched && Beat(evs, q))
  }

  /**
   The state diagram, read off the history alone: where each event takes the node from each
   state. BOOT is 0, STANDBY 1, OPERATIONAL 2, PASSIVE 3, ESTOP 4.
   */
  ghost function NextState(boot: int, evs: seq<Event>, q: nat): NodeState
    requires q < |evs|
  {
    var s, e := StateAt(boot, evs, q), evs[q];
    if CallsEstop(evs, q) then 4
    else if e.ModeSet? && e.target == 1 && s in {2, 3} then 1
    else if e.ModeSet? && e.target == 3 && s in {2, 1} then 3
    else if e.BusDown? && s == 2 then 3
    else if !e.Tick? then s
    else if s == 0 then 1
    else if s == 4 then if MayLeaveEstop(boot, evs, q) then 1 else 4
    else if s == 1 then if Wished(boot, evs[..q]) && LiveBeat(evs, q) then 2 else 1
    else if s == 3 then if Wished(boot, evs[..q]) && WindowMet(evs, q) then 2 else 3
    else if s == 2 then if LiveBeat(evs, q) then 2 else 3
    else s
  }

  /** A standing clear, a live beat and 1000 ms of its streak. */
  ghost predicate MayLeaveEstop(boot: int, evs: seq<Event>, q: nat)
    requires q < |evs|
  {
    && (exists c :: ClearStands(boot, evs, c, q))
    && LiveBeat(evs, q) && StreakStart(evs[..q]) >= 0
    && evs[q].now - evs[StreakStart(evs[..q])].now >= 1000
  }

  /** Every event of every run takes the node exactly where the diagram says. */
  lemma {:induction false} StateDiagramExact(boot: int, evs: seq<Event>, q: nat)
    requires Timed(boot, evs) && q < |evs|
    ensures StateAt(boot, evs, q + 1) == NextState(boot, evs, q)
  {
    hide After, LastBeat, StreakStart, Wished, WindowMet, Step, ClearStands;
    assert evs[..q + 1][..q] == evs[..q];
    AfterLast(boot, evs[..q + 1]);
    var k, e := After(boot, evs[..q]), evs[q];
    HistoryRemembered(boot, evs[..q]);
    if e.Tick? {
      TickDiagram(boot, evs, q);
    } else if e.Heartbeat? {
      BeatCounts(evs, q);
      BeatDiagram(k, e);
    } else {
      OtherDiagram(k, e);
    }
  }

  lemma {:induction false} BeatCounts(evs: seq<Event>, q: nat)
    requires q < |evs| && evs[q].Heartbeat?
    ensures var b := LastBeat(evs[..q]); Beat(evs, q) <==> b < 0 || evs[b].seqNo != evs[q].seqNo
  {
    assert evs[..q + 1][..q] == evs[..q];
  }

  lemma {:induction false} BeatDiagram(k: Core, e: Event)
    requires e.Heartbeat?
    ensures var counts := !k.haveHb || e.seqNo != k.lastHbSeq;
            Step(Unbounded, k, e).state == if counts && e.latched then ESTOP else k.state
  {
  }

  lemma {:induction false} OtherDiagram(k: Core, e: Event)
    requires !e.Tick? && !e.Heartbeat?
    ensures Step(Unbounded, k, e).state ==
            if e.Estop? || (e.ModeSet? && e.target == ESTOP) then ESTOP
            else if e.ModeSet? && e.target == STANDBY && k.state in {OPERATIONAL, PASSIVE} then STANDBY
            else if e.ModeSet? && e.target == PASSIVE && k.state in {OPERATIONAL, STANDBY} then PASSIVE
            else if e.BusDown? && k.state == OPERATIONAL then PASSIVE
            else k.state
  {
  }

  lemma {:induction false} TickDiagram(boot: int, evs: seq<Event>, q: nat)
    requires Timed(boot, evs) && q < |evs| && evs[q].Tick?
    ensures StateAt(boot, evs, q + 1) == NextState(boot, evs, q)
  {
    hide After, LastBeat, StreakStart, Wished, WindowMet, Step, ClearStands;
    assert evs[..q + 1][..q] == evs[..q];
    AfterLast(boot, evs[..q + 1]);
    var k, e, s := After(boot, evs[..q]), evs[q], StateAt(boot, evs, q);
    HistoryRemembered(boot, evs[..q]);
    OneEdge(k, e);
    if s == ESTOP {
      ExitExact(boot, evs, q);
    } else if s == STANDBY || s == PASSIVE {
      TickOperatesExact(boot, evs, q);
      WindowIsLive(evs, q);
    }
  }

  /** From each state a tick can lead to at most one other. */
  lemma {:induction false} OneEdge(k: Core, e: Event)
    requires e.Tick?
    ensures var s, s' := k.state, Step(Unbounded, k, e).state;
            && (s == BOOT ==> s' == STANDBY) && (s == ESTOP ==> s' in {ESTOP, STANDBY})
            && (s == STANDBY ==> s' in {STANDBY, OPERATIONAL}) && (s == PASSIVE ==> s' in {PASSIVE, OPERATIONAL})
            && (s == OPERATIONAL ==>
                  s' == if k.haveHb && e.now - k.lastHbMs <= HEARTBEAT_TIMEOUT_MS then OPERATIONAL else PASSIVE)
            && (s == FAULT ==> s' == FAULT)
  {
  }

  lemma {:induction false} WindowIsLive(evs: seq<Event>, q: nat)
    requires q < |evs|
    ensures WindowMet(evs, q) ==> LiveBeat(evs, q)
  {
    hide LastBeat, StreakStart, LastCmd;
  }

  /** Event `m` put the node into STANDBY, where it stayed up to `q`. */
  ghost predicate StandbySince(boot: int, evs: seq<Event>, m: nat, q: nat) {
    && m < q <= |evs| && StateAt(boot, evs, m) != STANDBY
    && forall n :: m < n <= q ==> StateAt(boot, evs, n) == STANDBY
  }

  /** The two ways into STANDBY after boot: asked for, or released from ESTOP. */
  lemma {:induction false} StandbyEntries(c: Core, e: Event)
    requires c.state != BOOT && c.state != STANDBY && Step(Unbounded, c, e).state == STANDBY
    ensures (e.ModeSet? && e.target == STANDBY && (c.state == OPERATIONAL || c.state == PASSIVE))
            || (e.Tick? && c.state == ESTOP)
  {
  }

  lemma {:induction false} BootIsLeft(c: Core, e: Event)
    requires c.state != BOOT
    ensures Step(Unbounded, c, e).state != BOOT
  {
  }

  lemma {:induction false} StandbyEntered(boot: int, evs: seq<Event>, p: nat, q: nat) returns (m: nat)
    requires p < q <= |evs| && StateAt(boot, evs, p) != BOOT && StateAt(boot, evs, p) != STANDBY
    requires StateAt(boot, evs, q) == STANDBY
    ensures p <= m && StandbySince(boot, evs, m, q) && StateAt(boot, evs, m) != BOOT
    decreases q
  {
    hide After;
    NeverBoot(boot, evs, p, q - 1);
    if StateAt(boot, evs, q - 1) == STANDBY {
      m := StandbyEntered(boot, evs, p, q - 1);
    } else {
      m := q - 1;
    }
  }

  lemma {:induction false} NeverBoot(boot: int, evs: seq<Event>, p: nat, n: nat)
    requires p <= n <= |evs| && StateAt(boot, evs, p) != BOOT
    ensures StateAt(boot, evs, n) != BOOT
    decreases n
  {
    hide After, Step;
    if p < n {
      NeverBoot(boot, evs, p, n - 1);
      assert evs[..n][..n - 1] == evs[..n - 1];
      AfterLast(boot, evs[..n]);
      BootIsLeft(After(boot, evs[..n - 1]), evs[n - 1]);
    }
  }

  /**
   A return at `q` after a comm-loss trip at `p` escapes the re-arm window if and only if
   the last state entered before it was STANDBY; the event that put it there is a
   MODE_SET(STANDBY) or the tick that released an e-stop. Otherwise the window is met.
   */
  lemma {:induction false} ReturnExact(boot: int, evs: seq<Event>, p: nat, q: nat)
    requires Timed(boot, evs) && CommLossTrip(boot, evs, p) && p < q < |evs|
    requires StateAt(boot, evs, q) != OPERATIONAL && StateAt(boot, evs, q + 1) == OPERATIONAL
    ensures evs[q].Tick?
    ensures StateAt(boot, evs, q) == STANDBY
            <==> exists m: nat :: && p < m && StandbySince(boot, evs, m, q)
                                  && ((evs[m].ModeSet? && evs[m].target == STANDBY)
                                      || (evs[m].Tick? && StateAt(boot, evs, m) == ESTOP))
    ensures StateAt(boot, evs, q) != STANDBY ==> WindowMet(evs, q) && p < StreakStart(evs[..q])
  {
    hide After, LastBeat, StreakStart, LastCmd, WindowMet;
    assert evs[..q + 1][..q] == evs[..q];
    AfterLast(boot, evs[..q + 1]);
    OnlyTicksOperate(After(boot, evs[..q]), evs[q]);
    TickOperatesExact(boot, evs, q);
    if StateAt(boot, evs, q) == STANDBY {
      var m := StandbyEntered(boot, evs, p + 1, q);
      assert evs[..m + 1][..m] == evs[..m];
      AfterLast(boot, evs[..m + 1]);
      assert StateAt(boot, evs, m + 1) == STANDBY;
      StandbyEntries(After(boot, evs[..m]), evs[m]);
    } else {
      StreakStaysForgotten(boot, evs, p, q);
      WindowStreak(evs, p, q);
    }
  }

  /** A live streak that cannot reach back past the trip began after it. */
  lemma {:induction false} WindowStreak(evs: seq<Event>, p: nat, q: nat)
    requires p < q < |evs| && StreakForgotten(evs, p, q) && LiveBeat(evs, q) && evs[p].now <= evs[q].now
    ensures p < StreakStart(evs[..q])
  {
    hide LastBeat, StreakStart;
  }

  /** Boot, operate, trip, then MODE_SET(STANDBY) and MODE_SET(OPERATIONAL) on the first new beat. */
  function Shortcut(boot: int): seq<Event> {
    [Tick(boot), Heartbeat(boot, 0, false), ModeSet(boot, OPERATIONAL), Tick(boot), Tick(boot + 51),
     Heartbeat(boot + 51, 1, false), ModeSet(boot + 51, STANDBY), ModeSet(boot + 51, OPERATIONAL), Tick(boot + 51)]
  }

  lemma {:induction false} StepTo(boot: int, evs: seq<Event>, q: nat)
    requires q < |evs|
    ensures After(boot, evs[..q + 1]) == Step(Unbounded, After(boot, evs[..q]), evs[q])
  {
    hide Step;
    assert evs[..q + 1][..q] == evs[..q];
    AfterLast(boot, evs[..q + 1]);
  }

  lemma {:induction false} ShortcutTrips(boot: int)
    ensures var c := After(boot, Shortcut(boot)[..4]);
            && c.state == OPERATIONAL && c.haveHb && c.lastHbMs == boot && c.lastHbSeq == 0 && c.wantOperational
  {
    hide After;
    var evs := Shortcut(boot);
    NothingYet(boot);
    assert evs[..0] == [];
    StepTo(boot, evs, 0);
    StepTo(boot, evs, 1);
    StepTo(boot, evs, 2);
    StepTo(boot, evs, 3);
  }

  /** What the rest of the run does to a node that was operating. */
  lemma {:induction false} ShortcutReturns(c: Core, now: int)
    requires c.state == OPERATIONAL && c.haveHb && c.lastHbMs == now - 51 && c.lastHbSeq == 0
    ensures var c5 := Step(Unbounded, c, Tick(now));
            var c6 := Step(Unbounded, c5, Heartbeat(now, 1, false));
            var c7 := Step(Unbounded, c6, ModeSet(now, STANDBY));
            var c8 := Step(Unbounded, c7, ModeSet(now, OPERATIONAL));
            c5.state == PASSIVE && c8.state == STANDBY && Step(Unbounded, c8, Tick(now)).state == OPERATIONAL
  {
  }

  /** A run from boot that trips and is OPERATIONAL again in the same instant, with a streak of 0 ms and no command. */
  lemma {:induction false} StandbyShortcut(boot: int)
    ensures var evs := Shortcut(boot);
            && CommLossTrip(boot, evs, 4)
            && StateAt(boot, evs, 8) == STANDBY && StateAt(boot, evs, 9) == OPERATIONAL
            && !WindowMet(evs, 8)
  {
    hide LastBeat, StreakStart, After, Step;
    var evs := Shortcut(boot);
    ShortcutTrips(boot);
    ShortcutReturns(After(boot, evs[..4]), boot + 51);
    StepTo(boot, evs, 4);
    StepTo(boot, evs, 5);
    StepTo(boot, evs, 6);
    StepTo(boot, evs, 7);
    StepTo(boot, evs, 8);
    NoCommand(evs[..8]);
  }

  lemma {:induction false} NoCommand(evs: seq<Event>)
    requires forall i :: 0 <= i < |evs| ==> !evs[i].Cmd?
    ensures LastCmd(evs) == -1
    decreases |evs|
  {
    if evs == [] {
    } else {
      NoCommand(evs[..|evs| - 1]);
    }
  }

  // ---------------------------------------------------------------------------
  // E-stop latch
  // ---------------------------------------------------------------------------

  /** Event `i` latches: before it the node was not latched, after it it is. */
  ghost predicate Latches(boot: int, evs: seq<Event>, i: int) {
    0 <= i < |evs| && !After(boot, evs[..i]).Latched() && After(boot, evs[..i + 1]).Latched()
  }

  /** Event `i` is a CLEAR_ESTOP the node accepted. */
  ghost predicate Accepts(boot: int, evs: seq<Event>, i: int) {
    && 0 <= i < |evs| && evs[i].Clear?
    && ClearAccepted(After(boot, evs[..i]), evs[i].magic, evs[i].counter)
  }

  lemma {:induction false} PrefixEstop(boot: int, evs: seq<Event>, n: nat, i: int)
    requires n <= |evs| && i < n
    ensures Latches(boot, evs[..n], i) <==> Latches(boot, evs, i)
    ensures Accepts(boot, evs[..n], i) <==> Accepts(boot, evs, i)
  {
    hide After;
    if 0 <= i {
      assert evs[..n][..i] == evs[..i] && evs[..n][..i + 1] == evs[..i + 1];
    }
  }

  /** One step into, inside or out of ESTOP. */
  lemma {:induction false} EstopStep(c: Core, e: Event)
    ensures var c' := Step(Unbounded, c, e);
            && (c'.state == ESTOP && c.state != ESTOP ==> c'.Latched())
            && (c'.state == ESTOP && c'.estopCause == 0 ==>
                  c.state == ESTOP && (c.estopCause == 0 || (e.Clear? && ClearAccepted(c, e.magic, e.counter))))
            && (c.state == ESTOP && c'.state != ESTOP ==> e.Tick? && c'.state == STANDBY && c.estopCause == 0)
            && (!c.Latched() && c'.Latched() ==> !c'.wantOperational)
            && c.clearCounter <= c'.clearCounter
            && (e.Clear? && ClearAccepted(c, e.magic, e.counter) ==> c'.clearCounter == e.counter)
            && (c'.wantOperational ==> c.wantOperational || (e.ModeSet? && e.target == OPERATIONAL))
            && (c.state != FAULT ==> c'.state != FAULT)
  {
  }

  /** In ESTOP there is a latest latch; if the cause is gone a clear was accepted after it. */
  lemma {:induction false} EstopHasLatch(boot: int, evs: seq<Event>) returns (l: int, c: int)
    requires After(boot, evs).state == ESTOP
    ensures Latches(boot, evs, l) && forall i :: l < i ==> !Latches(boot, evs, i)
    ensures After(boot, evs).estopCause == 0 ==> l < c && Accepts(boot, evs, c)
    decreases |evs|
  {
    hide After, Step;
    if evs == [] {
      NothingYet(boot);
    }
    var n := |evs| - 1;
    AfterLast(boot, evs);
    assert evs[..n + 1] == evs;
    EstopStep(After(boot, evs[..n]), evs[n]);
    if Latches(boot, evs, n) {
      l, c := n, n;
    } else {
      l, c := EstopHasLatch(boot, evs[..n]);
      forall i | i < n ensures Latches(boot, evs[..n], i) <==> Latches(boot, evs, i) {
        PrefixEstop(boot, evs, n, i);
      }
      if After(boot, evs[..n]).estopCause == 0 {
        PrefixEstop(boot, evs, n, c);
      } else {
        c := n;
      }
    }
  }

  ghost predicate LeavesEstop(boot: int, evs: seq<Event>, q: nat) {
    q < |evs| && After(boot, evs[..q]).state == ESTOP && After(boot, evs[..q + 1]).state != ESTOP
  }

  /**
   ESTOP is left only to STANDBY, by a tick, with a clear accepted since the latest latch
   and a current unbroken streak of at least 1000 ms.
   */
  lemma {:induction false} ExitNeedsClear(boot: int, evs: seq<Event>, q: nat) returns (l: int, c: int)
    requires LeavesEstop(boot, evs, q)
    ensures evs[q].Tick? && After(boot, evs[..q + 1]).state == STANDBY
    ensures Latches(boot, evs, l) && l < c < q && Accepts(boot, evs, c)
    ensures forall i :: l < i < q ==> !Latches(boot, evs, i)
    ensures var b, s := LastBeat(evs[..q]), StreakStart(evs[..q]);
            && Unbroken(evs, s, b)
            && evs[q].now - evs[b].now <= HEARTBEAT_TIMEOUT_MS
            && evs[q].now - evs[s].now >= ESTOP_REARM_MS
  {
    hide After, LastBeat, StreakStart, Step;
    assert evs[..q + 1][..q] == evs[..q];
    AfterLast(boot, evs[..q + 1]);
    EstopStep(After(boot, evs[..q]), evs[q]);
    l, c := EstopHasLatch(boot, evs[..q]);
    forall i | i < q ensures Latches(boot, evs[..q], i) <==> Latches(boot, evs, i) {
      PrefixEstop(boot, evs, q, i);
    }
    PrefixEstop(boot, evs, q, c);
    HistoryRemembered(boot, evs[..q]);
    ExitIsLive(After(boot, evs[..q]), evs[q]);
    StreakUnbroken(evs[..q]);
    UnbrokenPrefix(evs, q, StreakStart(evs[..q]), LastBeat(evs[..q]));
  }

  lemma {:induction false} ExitIsLive(c: Core, e: Event)
    requires c.state == ESTOP && Step(Unbounded, c, e).state != ESTOP
    ensures c.haveHb && e.now - c.lastHbMs <= HEARTBEAT_TIMEOUT_MS && e.now - c.streakStartMs >= ESTOP_REARM_MS
  {
  }

  /** An accepted clear with no latch after it leaves no cause behind, as long as the node is in ESTOP. */
  lemma {:induction false} CauseGone(boot: int, evs: seq<Event>, c: nat, n: nat)
    requires c < n <= |evs| && Accepts(boot, evs, c) && forall l :: c < l < n ==> !Latches(boot, evs, l)
    ensures StateAt(boot, evs, n) == ESTOP ==> After(boot, evs[..n]).estopCause == 0
    decreases n
  {
    hide After, Step;
    assert evs[..n][..n - 1] == evs[..n - 1];
    AfterLast(boot, evs[..n]);
    if n == c + 1 {
      ClearedCause(After(boot, evs[..c]), evs[c]);
    } else {
      CauseGone(boot, evs, c, n - 1);
      assert !Latches(boot, evs, n - 1);
    }
  }

  lemma {:induction false} ClearedCause(c: Core, e: Event)
    requires e.Clear? && ClearAccepted(c, e.magic, e.counter)
    ensures Step(Unbounded, c, e).state == ESTOP ==> Step(Unbounded, c, e).estopCause == 0
  {
  }

  /** A clear was accepted before `q` and nothing latched after it. */
  ghost predicate ClearStands(boot: int, evs: seq<Event>, c: int, q: nat) {
    0 <= c < q && Accepts(boot, evs, c) && forall l :: c < l < q ==> !Latches(boot, evs, l)
  }

  /**
   Exactly when a tick releases a latched node: a clear was accepted with no latch after it,
   the latest beat is at most 50 ms old and its streak at least 1000 ms.
   */
  lemma {:induction false} ExitExact(boot: int, evs: seq<Event>, q: nat)
    requires q < |evs| && evs[q].Tick? && StateAt(boot, evs, q) == ESTOP
    ensures LeavesEstop(boot, evs, q)
            <==> && (exists c :: ClearStands(boot, evs, c, q))
                 && LiveBeat(evs, q) && StreakStart(evs[..q]) >= 0
                 && evs[q].now - evs[StreakStart(evs[..q])].now >= ESTOP_REARM_MS
  {
    hide After, LastBeat, StreakStart;
    assert evs[..q + 1][..q] == evs[..q];
    AfterLast(boot, evs[..q + 1]);
    HistoryRemembered(boot, evs[..q]);
    if LeavesEstop(boot, evs, q) {
      var l, c := ExitNeedsClear(boot, evs, q);
      assert ClearStands(boot, evs, c, q);
    }
    if c :| ClearStands(boot, evs, c, q) {
      CauseGone(boot, evs, c, q);
    }
  }

  /** In this run the node leaves ESTOP at `q` on the strength of the clear at `c`. */
  ghost predicate RestsOn(boot: int, run: seq<Event>, c: nat, q: nat) {
    Timed(boot, run) && LeavesEstop(boot, run, q) && ClearStands(boot, run, c, q)
  }

  /** However the run goes on, the clear at its end lets the node out no sooner than 1000 ms later. */
  ghost predicate ReleasesLate(boot: int, evs: seq<Event>)
    requires evs != []
  {
    var c := |evs| - 1;
    forall more: seq<Event>, q: nat :: RestsOn(boot, evs + more, c, q) ==>
      (evs + more)[q].now - evs[c].now >= ESTOP_REARM_MS
  }

  /** At event `c` a live streak is already under way that began at an earlier instant. */
  predicate StreakUnderWay(evs: seq<Event>, c: nat)
    requires c < |evs|
  {
    var s := StreakStart(evs[..c]);
    LiveBeat(evs, c) && s >= 0 && evs[s].now < evs[c].now
  }

  /** No streak that can still go on began before the instant of event `c`. */
  predicate StreakSince(evs: seq<Event>, c: nat, n: nat)
    requires c < n <= |evs|
  {
    var b, s := LastBeat(evs[..n]), StreakStart(evs[..n]);
    || b < 0
    || (s >= 0 && evs[c].now <= evs[s].now)
    || (b <= c && evs[c].now - evs[b].now > HEARTBEAT_TIMEOUT_MS)
  }

  lemma {:induction false} StreakStaysSince(boot: int, evs: seq<Event>, c: nat, n: nat)
    requires Timed(boot, evs) && c < n <= |evs| && evs[c].Clear? && !StreakUnderWay(evs, c)
    ensures StreakSince(evs, c, n)
    decreases n
  {
    assert evs[..n][..n - 1] == evs[..n - 1];
    if n == c + 1 {
      HistoryRemembered(boot, evs[..c]);
    } else {
      StreakStaysSince(boot, evs, c, n - 1);
    }
  }

  /** Without such a streak at the clear, every exit that rests on it takes its full window after it. */
  lemma {:induction false} LateWithoutStreak(boot: int, run: seq<Event>, c: nat, q: nat)
    requires RestsOn(boot, run, c, q)
    requires StateAt(boot, run, c) != ESTOP || !StreakUnderWay(run, c)
    ensures run[q].now - run[c].now >= ESTOP_REARM_MS
  {
    hide After, LastBeat, StreakStart, StreakUnderWay;
    if StateAt(boot, run, c) != ESTOP {
      var l := EntryLatches(boot, run, c, q);
      assert run[..c + 1][..c] == run[..c];
      AfterLast(boot, run[..c + 1]);
      ClearNeverLatches(After(boot, run[..c]), run[c]);
    } else {
      StreakStaysSince(boot, run, c, q);
      var l, c' := ExitNeedsClear(boot, run, q);
      ExitExact(boot, run, q);
      SinceMeansLate(run, c, q);
    }
  }

  lemma {:induction false} ClearNeverLatches(k: Core, e: Event)
    requires e.Clear?
    ensures Step(Unbounded, k, e).Latched() ==> k.Latched()
  {
  }

  lemma {:induction false} SinceMeansLate(run: seq<Event>, c: nat, q: nat)
    requires c < q < |run| && StreakSince(run, c, q) && run[c].now <= run[q].now
    requires LiveBeat(run, q) && StreakStart(run[..q]) >= 0
    requires run[q].now - run[StreakStart(run[..q])].now >= ESTOP_REARM_MS
    ensures run[q].now - run[c].now >= ESTOP_REARM_MS
  {
    hide LastBeat, StreakStart;
  }

  /** `n` beats, one every 50 ms from `now` on, numbered after `seqNo`. */
  function Train(now: int, seqNo: U16, n: nat): (t: seq<Event>)
    ensures |t| == n && forall i :: 0 <= i < n ==> t[i].Heartbeat? && !t[i].latched && t[i].now == now + 50 * i
  {
    if n == 0 then []
    else Train(now, seqNo, n - 1) + [Heartbeat(now + 50 * (n - 1), (seqNo + n) % 0x1_0000, false)]
  }

  lemma {:induction false} TrainPrefix(now: int, seqNo: U16, n: nat, i: nat)
    requires i <= n
    ensures Train(now, seqNo, n)[..i] == Train(now, seqNo, i)
    decreases n
  {
    if i < n {
      TrainPrefix(now, seqNo, n - 1, i);
      assert Train(now, seqNo, n)[..i] == Train(now, seqNo, n - 1)[..i];
    } else {
      assert Train(now, seqNo, n)[..i] == Train(now, seqNo, n);
    }
  }

  /** One beat inside the watchdog window only moves the latest beat. */
  lemma {:induction false} BeatContinues(k: Core, now: int, seqNo: U16)
    requires k.haveHb && now - k.lastHbMs <= HEARTBEAT_TIMEOUT_MS && seqNo != k.lastHbSeq
    ensures Step(Unbounded, k, Heartbeat(now, seqNo, false)) == k.(lastHbMs := now, lastHbSeq := seqNo)
  {
  }

  /** A train that starts on a live beat continues its streak and changes nothing else. */
  lemma {:induction false} TrainContinues(boot: int, evs: seq<Event>, now: int, n: nat)
    requires var k := After(boot, evs); k.haveHb && now - k.lastHbMs <= HEARTBEAT_TIMEOUT_MS
    ensures var k := After(boot, evs);
            After(boot, evs + Train(now, k.lastHbSeq, n))
            == if n == 0 then k
               else k.(lastHbMs := now + 50 * (n - 1), lastHbSeq := (k.lastHbSeq + n) % 0x1_0000)
  {
    hide After, Step;
    var k := After(boot, evs);
    var train := Train(now, k.lastHbSeq, n);
    if n == 0 {
      assert evs + train == evs;
    } else {
      TrainContinues(boot, evs, now, n - 1);
      var before := evs + Train(now, k.lastHbSeq, n - 1);
      assert (evs + train)[..|evs + train| - 1] == before;
      AfterLast(boot, evs + train);
      NumbersDiffer(k.lastHbSeq, n);
      BeatContinues(After(boot, before), now + 50 * (n - 1), (k.lastHbSeq + n) % 0x1_0000);
    }
  }

  lemma {:induction false} NumbersDiffer(seqNo: U16, n: nat)
    requires n > 0
    ensures (seqNo + n) % 0x1_0000 != (seqNo + (n - 1)) % 0x1_0000
    ensures n == 1 ==> (seqNo + n) % 0x1_0000 != seqNo
  {
    var m: int := seqNo + (n - 1);
    var q, r := m / 0x1_0000, m % 0x1_0000;
    assert m + 1 == 0x1_0000 * q + (r + 1);
  }

  /** The instant a running streak is 1000 ms old, or now if it already is. */
  function ReleaseAt(evs: seq<Event>): int
    requires evs != [] && StreakStart(evs[..|evs| - 1]) >= 0
  {
    var c := |evs| - 1;
    var full := evs[StreakStart(evs[..c])].now + ESTOP_REARM_MS;
    if full <= evs[c].now then evs[c].now else full
  }

  /** Beats that keep the streak going from the clear on, then a tick when it is 1000 ms old. */
  function EarlyRelease(boot: int, evs: seq<Event>): seq<Event>
    requires evs != [] && StreakStart(evs[..|evs| - 1]) >= 0
  {
    var now, at := evs[|evs| - 1].now, ReleaseAt(evs);
    var n := if at < now then 0 else (at - now) / 50 + 1;
    Train(now, After(boot, evs).lastHbSeq, n) + [Tick(at)]
  }

  /** What the node knows right after a clear that finds a streak under way. */
  lemma {:induction false} AfterTheClear(boot: int, evs: seq<Event>)
    requires evs != [] && Accepts(boot, evs, |evs| - 1) && StateAt(boot, evs, |evs| - 1) == ESTOP
    requires StreakUnderWay(evs, |evs| - 1)
    ensures var c, k := |evs| - 1, After(boot, evs);
            && k.state == ESTOP && k.estopCause == 0 && k.haveHb
            && evs[c].now - k.lastHbMs <= HEARTBEAT_TIMEOUT_MS && k.streakStartMs == evs[StreakStart(evs[..c])].now
  {
    hide After, LastBeat, StreakStart;
    AfterLast(boot, evs);
    HistoryRemembered(boot, evs[..|evs| - 1]);
  }

  /** When that tick comes, and how many beats come before it. */
  lemma {:induction false} ReleaseTimes(evs: seq<Event>)
    requires evs != [] && StreakUnderWay(evs, |evs| - 1)
    ensures var c, at := |evs| - 1, ReleaseAt(evs);
            var n := (at - evs[c].now) / 50 + 1;
            && evs[c].now <= at < evs[c].now + ESTOP_REARM_MS
            && at - evs[StreakStart(evs[..c])].now >= ESTOP_REARM_MS
            && n > 0 && evs[c].now + 50 * (n - 1) <= at <= evs[c].now + 50 * (n - 1) + HEARTBEAT_TIMEOUT_MS
  {
    hide LastBeat, StreakStart;
  }

  /** The node is let out by that continuation, less than 1000 ms after the clear. */
  lemma {:induction false} EarlyReleaseWorks(boot: int, evs: seq<Event>)
    requires Timed(boot, evs) && evs != [] && Accepts(boot, evs, |evs| - 1)
    requires StateAt(boot, evs, |evs| - 1) == ESTOP && StreakUnderWay(evs, |evs| - 1)
    ensures var c, more := |evs| - 1, EarlyRelease(boot, evs);
            var q := |evs + more| - 1;
            RestsOn(boot, evs + more, c, q) && (evs + more)[q].now - evs[c].now < ESTOP_REARM_MS
  {
    hide After, LastBeat, StreakStart, Train, EarlyRelease, ReleaseAt, Latches, Accepts, Timed, LiveBeat, ClearStands,
         LeavesEstop;
    UnderWayStarted(evs);
    AfterTheClear(boot, evs);
    ReleaseTimes(evs);
    EarlyReleaseIs(boot, evs);
    var c, at := |evs| - 1, ReleaseAt(evs);
    var now := evs[c].now;
    var n := (at - now) / 50 + 1;
    TrainReleases(boot, evs, now, n, at);
    TrainTimed(boot, evs, now, After(boot, evs).lastHbSeq, n, at);
    NoLatchOnTheWay(boot, evs, now, n, at);
  }

  lemma {:induction false} UnderWayStarted(evs: seq<Event>)
    requires evs != [] && StreakUnderWay(evs, |evs| - 1)
    ensures StreakStart(evs[..|evs| - 1]) >= 0
  {
  }

  lemma {:induction false} EarlyReleaseIs(boot: int, evs: seq<Event>)
    requires evs != [] && StreakStart(evs[..|evs| - 1]) >= 0 && evs[|evs| - 1].now <= ReleaseAt(evs)
    ensures var now, at := evs[|evs| - 1].now, ReleaseAt(evs);
            var run := evs + Train(now, After(boot, evs).lastHbSeq, (at - now) / 50 + 1) + [Tick(at)];
            evs + EarlyRelease(boot, evs) == run && run[|run| - 1] == Tick(at)
  {
    hide After, StreakStart, Train, ReleaseAt;
  }

  lemma {:induction false} TrainReleases(boot: int, evs: seq<Event>, now: int, n: nat, at: int)
    requires var k := After(boot, evs);
             && k.state == ESTOP && k.estopCause == 0 && k.haveHb && now - k.lastHbMs <= HEARTBEAT_TIMEOUT_MS
             && at - k.streakStartMs >= ESTOP_REARM_MS
    requires n > 0 && at <= now + 50 * (n - 1) + HEARTBEAT_TIMEOUT_MS
    ensures var run := evs + Train(now, After(boot, evs).lastHbSeq, n) + [Tick(at)];
            LeavesEstop(boot, run, |run| - 1)
  {
    hide After, Step, Train;
    var before := evs + Train(now, After(boot, evs).lastHbSeq, n);
    var run := before + [Tick(at)];
    TrainContinues(boot, evs, now, n);
    assert run[..|run| - 1] == before && run[..|run|] == run;
    AfterLast(boot, run);
    ReleaseTick(After(boot, before), at);
  }

  lemma {:induction false} ReleaseTick(k: Core, at: int)
    requires k.state == ESTOP && k.estopCause == 0 && k.haveHb
    requires at - k.lastHbMs <= HEARTBEAT_TIMEOUT_MS && at - k.streakStartMs >= ESTOP_REARM_MS
    ensures Step(Unbounded, k, Tick(at)).state == STANDBY
  {
  }

  lemma {:induction false} TrainTimed(boot: int, evs: seq<Event>, now: int, seqNo: U16, n: nat, at: int)
    requires Timed(boot, evs) && evs != [] && evs[|evs| - 1].now == now && now + 50 * n <= at + 50 && now <= at
    ensures Timed(boot, evs + Train(now, seqNo, n) + [Tick(at)])
  {
  }

  /** The clear at the end of `evs` still stands when the train has passed. */
  lemma {:induction false} NoLatchOnTheWay(boot: int, evs: seq<Event>, now: int, n: nat, at: int)
    requires evs != [] && Accepts(boot, evs, |evs| - 1)
    requires var k := After(boot, evs); k.haveHb && now - k.lastHbMs <= HEARTBEAT_TIMEOUT_MS && k.estopCause == 0
    ensures var run := evs + Train(now, After(boot, evs).lastHbSeq, n) + [Tick(at)];
            ClearStands(boot, run, |evs| - 1, |run| - 1)
  {
    hide After;
    var seqNo := After(boot, evs).lastHbSeq;
    var run := evs + Train(now, seqNo, n) + [Tick(at)];
    assert run[..|evs|] == evs;
    PrefixEstop(boot, run, |evs|, |evs| - 1);
    forall l | |evs| <= l < |run| - 1 ensures !Latches(boot, run, l) {
      TrainPrefix(now, seqNo, n, l + 1 - |evs|);
      assert run[..l + 1] == evs + Train(now, seqNo, l + 1 - |evs|);
      TrainContinues(boot, evs, now, l + 1 - |evs|);
    }
  }

  /**
   The e-stop window asked for after the clear. Every exit that rests on the clear, in every
   continuation, comes at least 1000 ms after it if and only if the clear does not find the
   node in ESTOP with a live streak that began at an earlier instant.
   */
  lemma {:induction false} ClearWindowExact(boot: int, evs: seq<Event>)
    requires Timed(boot, evs) && evs != [] && Accepts(boot, evs, |evs| - 1)
    ensures ReleasesLate(boot, evs)
            <==> StateAt(boot, evs, |evs| - 1) != ESTOP || !StreakUnderWay(evs, |evs| - 1)
  {
    hide After, RestsOn, LastBeat, StreakStart, EarlyRelease;
    var c := |evs| - 1;
    if StateAt(boot, evs, c) == ESTOP && StreakUnderWay(evs, c) {
      EarlyReleaseWorks(boot, evs);
      var more := EarlyRelease(boot, evs);
      assert RestsOn(boot, evs + more, c, |evs + more| - 1);
    } else {
      forall more: seq<Event>, q: nat | RestsOn(boot, evs + more, c, q)
        ensures c < q < |evs + more| && (evs + more)[q].now - evs[c].now >= ESTOP_REARM_MS
      {
        RestsWithin(boot, evs + more, c, q);
        assert (evs + more)[..c] == evs[..c];
        LateWithoutStreak(boot, evs + more, c, q);
      }
    }
  }

  lemma {:induction false} RestsWithin(boot: int, run: seq<Event>, c: nat, q: nat)
    requires RestsOn(boot, run, c, q)
    ensures c < q < |run|
  {
  }

  /** A clear releases in its own instant exactly when a live one-second streak is already there. */
  lemma {:induction false} ReleaseAtOnceExact(boot: int, evs: seq<Event>, now: int, magic: int, counter: int)
    requires After(boot, evs).state == ESTOP && ClearAccepted(After(boot, evs), magic, counter)
    ensures var run := evs + [Clear(now, magic, counter)] + [Tick(now)];
            After(boot, run).state == STANDBY
            <==> && LastBeat(evs) >= 0 && now - evs[LastBeat(evs)].now <= HEARTBEAT_TIMEOUT_MS
                 && StreakStart(evs) >= 0 && now - evs[StreakStart(evs)].now >= ESTOP_REARM_MS
  {
    hide After, LastBeat, StreakStart;
    var cleared := evs + [Clear(now, magic, counter)];
    var run := cleared + [Tick(now)];
    assert cleared[..|evs|] == evs && run[..|cleared|] == cleared;
    AfterLast(boot, cleared);
    AfterLast(boot, run);
    HistoryRemembered(boot, evs);
  }

  lemma {:induction false} EntryLatches(boot: int, evs: seq<Event>, m: nat, n: nat) returns (l: int)
    requires m <= n <= |evs|
    requires After(boot, evs[..m]).state != ESTOP && After(boot, evs[..n]).state == ESTOP
    ensures m <= l < n && Latches(boot, evs, l)
    decreases n
  {
    hide After, Step;
    assert evs[..n][..n - 1] == evs[..n - 1];
    AfterLast(boot, evs[..n]);
    EstopStep(After(boot, evs[..n - 1]), evs[n - 1]);
    if After(boot, evs[..n - 1]).state == ESTOP {
      l := EntryLatches(boot, evs, m, n - 1);
    } else {
      l := n - 1;
    }
  }

  lemma {:induction false} CounterKept(boot: int, evs: seq<Event>, i: nat, n: nat)
    requires Accepts(boot, evs, i) && i < n <= |evs|
    ensures evs[i].counter <= After(boot, evs[..n]).clearCounter
    decreases n
  {
    hide After, Step;
    assert evs[..n][..n - 1] == evs[..n - 1];
    AfterLast(boot, evs[..n]);
    EstopStep(After(boot, evs[..n - 1]), evs[n - 1]);
    if i < n - 1 {
      CounterKept(boot, evs, i, n - 1);
    }
  }

  /** Accepted clears carry strictly rising counters, so none is ever accepted twice. */
  lemma {:induction false} ClearsNeverReplay(boot: int, evs: seq<Event>, i: nat, j: nat)
    requires Accepts(boot, evs, i) && Accepts(boot, evs, j) && i < j
    ensures evs[i].counter < evs[j].counter
  {
    hide After;
    CounterKept(boot, evs, i, j);
  }

  /** Each exit from ESTOP spends its own clear, with a strictly larger counter than any earlier exit's. */
  lemma {:induction false} ExitsSpendFreshClears(boot: int, evs: seq<Event>, q1: nat, q2: nat) returns (c1: int, c2: int)
    requires LeavesEstop(boot, evs, q1) && LeavesEstop(boot, evs, q2) && q1 < q2
    ensures c1 < q1 < c2 < q2 && Accepts(boot, evs, c1) && Accepts(boot, evs, c2)
    ensures evs[c1].counter < evs[c2].counter
  {
    hide After, Latches, LastBeat, StreakStart, Unbroken;
    var l1, l2;
    l1, c1 := ExitNeedsClear(boot, evs, q1);
    l2, c2 := ExitNeedsClear(boot, evs, q2);
    var l := EntryLatches(boot, evs, q1 + 1, q2);
    ClearsNeverReplay(boot, evs, c1, c2);
  }

  /** The highest counter among the clears accepted so far, or zero. */
  ghost function HighestCleared(boot: int, evs: seq<Event>): int
    decreases |evs|
  {
    if evs == [] then 0
    else if Accepts(boot, evs, |evs| - 1) then evs[|evs| - 1].counter
    else HighestCleared(boot, evs[..|evs| - 1])
  }

  /** A clear is accepted exactly when it carries the magic and a counter above every one accepted before. */
  lemma {:induction false} ClearAcceptedExact(boot: int, evs: seq<Event>, i: nat)
    requires i < |evs| && evs[i].Clear?
    ensures Accepts(boot, evs, i)
            <==> evs[i].magic == 0x52A4_C13A && evs[i].counter > HighestCleared(boot, evs[..i])
  {
    hide After, HighestCleared;
    CounterRemembered(boot, evs[..i]);
  }

  lemma {:induction false} CounterRemembered(boot: int, evs: seq<Event>)
    ensures After(boot, evs).clearCounter == HighestCleared(boot, evs)
    decreases |evs|
  {
    hide After, Step;
    if evs == [] {
      NothingYet(boot);
      ZeroCounter(boot);
    } else {
      var n := |evs| - 1;
      CounterRemembered(boot, evs[..n]);
      AfterLast(boot, evs);
      CounterStep(After(boot, evs[..n]), evs[n]);
    }
  }

  lemma {:induction false} ZeroCounter(boot: int)
    ensures After(boot, []).clearCounter == 0
  {
  }

  lemma {:induction false} CounterStep(k: Core, e: Event)
    ensures Step(Unbounded, k, e).clearCounter
            == if e.Clear? && ClearAccepted(k, e.magic, e.counter) then e.counter else k.clearCounter
  {
  }

  /** The cause an event latches with: its own, or a stand-in where it names none. */
  function LatchCause(e: Event): Byte {
    if e.Estop? then if e.cause != 0 then e.cause else 7 else 4
  }

  /** While latched, the reported cause is that of the event that latched, whatever came later. */
  lemma {:induction false} CauseOfLatchKept(boot: int, evs: seq<Event>, l: nat, n: nat)
    requires Latches(boot, evs, l) && l < n <= |evs|
    requires forall i :: l < i <= n ==> After(boot, evs[..i]).Latched()
    ensures After(boot, evs[..n]).estopCause == LatchCause(evs[l])
    decreases n
  {
    hide After, Step;
    assert evs[..n][..n - 1] == evs[..n - 1];
    AfterLast(boot, evs[..n]);
    CauseStep(After(boot, evs[..n - 1]), evs[n - 1]);
    if l < n - 1 {
      CauseOfLatchKept(boot, evs, l, n - 1);
      assert After(boot, evs[..n]).Latched() && After(boot, evs[..n - 1]).Latched();
    }
  }

  lemma {:induction false} CauseStep(k: Core, e: Event)
    ensures var k' := Step(Unbounded, k, e);
            k'.Latched() ==> k'.estopCause == if k.Latched() then k.estopCause else LatchCause(e)
  {
  }

  /** Index of the event that last latched, or cleared a latch, or -1. */
  ghost function LastStamp(boot: int, evs: seq<Event>): (i: int)
    ensures -1 <= i < |evs|
    decreases |evs|
  {
    if evs == [] then -1
    else
      var n := |evs| - 1;
      var k, e := After(boot, evs[..n]), evs[n];
      if (!k.Latched() && CallsEstop(evs, n)) || (k.state == 4 && e.Clear? && ClearAccepted(k, e.magic, e.counter))
      then n else LastStamp(boot, evs[..n])
  }

  /** The time kept with an e-stop is that of the latch or of the clear that lifted it, and no cause outlives the state. */
  lemma {:induction false} EstopStampExact(boot: int, evs: seq<Event>)
    ensures var k, i := After(boot, evs), LastStamp(boot, evs);
            && k.estopSinceMs == (if i < 0 then 0 else evs[i].now)
            && (k.estopCause != 0 ==> k.state == 4)
    decreases |evs|
  {
    hide After, LastBeat;
    if evs == [] {
      NothingYet(boot);
    } else {
      var n := |evs| - 1;
      EstopStampExact(boot, evs[..n]);
      AfterLast(boot, evs);
      HistoryRemembered(boot, evs[..n]);
      if evs[n].Heartbeat? {
        BeatCounts(evs, n);
      }
      StampStep(After(boot, evs[..n]), evs[n]);
    }
  }

  lemma {:induction false} StampStep(k: Core, e: Event)
    requires k.estopCause != 0 ==> k.state == 4
    ensures var k' := Step(Unbounded, k, e);
            var counts := e.Heartbeat? && e.latched && (!k.haveHb || e.seqNo != k.lastHbSeq);
            && (k'.estopCause != 0 ==> k'.state == 4)
            && k'.estopSinceMs == if (!k.Latched() && (e.Estop? || (e.ModeSet? && e.target == 4) || counts))
                                     || (k.state == 4 && e.Clear? && ClearAccepted(k, e.magic, e.counter))
                                  then e.now else k.estopSinceMs
  {
  }

  lemma {:induction false} WantNeedsModeSet(boot: int, evs: seq<Event>, l: nat, n: nat) returns (m: int)
    requires Latches(boot, evs, l) && l < n <= |evs| && After(boot, evs[..n]).wantOperational
    ensures l < m < n && evs[m].ModeSet? && evs[m].target == OPERATIONAL
    decreases n
  {
    hide After, Step;
    assert evs[..n][..n - 1] == evs[..n - 1];
    AfterLast(boot, evs[..n]);
    EstopStep(After(boot, evs[..n - 1]), evs[n - 1]);
    if evs[n - 1].ModeSet? && evs[n - 1].target == OPERATIONAL {
      m := n - 1;
    } else {
      m := WantNeedsModeSet(boot, evs, l, n - 1);
    }
  }

  /** After any latch, OPERATIONAL needs a MODE_SET(OPERATIONAL) received since that latch. */
  lemma {:induction false} OperationalNeedsModeSet(boot: int, evs: seq<Event>, l: nat, n: nat) returns (m: int)
    requires Latches(boot, evs, l) && l < n <= |evs| && After(boot, evs[..n]).state == OPERATIONAL
    ensures l < m < n && evs[m].ModeSet? && evs[m].target == OPERATIONAL
    decreases n
  {
    hide After, Step;
    assert evs[..n][..n - 1] == evs[..n - 1];
    AfterLast(boot, evs[..n]);
    OnlyTicksOperate(After(boot, evs[..n - 1]), evs[n - 1]);
    assert l < n - 1;
    if After(boot, evs[..n - 1]).state == OPERATIONAL {
      m := OperationalNeedsModeSet(boot, evs, l, n - 1);
    } else {
      m := WantNeedsModeSet(boot, evs, l, n - 1);
    }
  }

  lemma {:induction false} FaultUnreachable(boot: int, evs: seq<Event>)
    ensures After(boot, evs).state != FAULT
    decreases |evs|
  {
    hide After, Step;
    if evs == [] {
      NothingYet(boot);
    } else {
      FaultUnreachable(boot, evs[..|evs| - 1]);
      AfterLast(boot, evs);
      EstopStep(After(boot, evs[..|evs| - 1]), evs[|evs| - 1]);
    }
  }

  // ---------------------------------------------------------------------------
  // The 1000 ms may lie before the clear
  // ---------------------------------------------------------------------------

  /** Boot, e-stop, then a beat every 50 ms. */
  function BeatTrain(boot: int, n: nat): seq<Event> {
    if n == 0 then [Tick(boot), Estop(boot, CAUSE_OPERATOR), Heartbeat(boot, 0, false)]
    else BeatTrain(boot, n - 1) + [Heartbeat(boot + 50 * n, n % 0x1_0000, false)]
  }

  lemma {:induction false} BeatTrainState(boot: int, n: nat)
    requires n < 0x1_0000
    ensures var c := After(boot, BeatTrain(boot, n));
            && c.state == ESTOP && c.estopCause == CAUSE_OPERATOR && c.clearCounter == 0
            && c.haveHb && c.lastHbSeq == n && c.lastHbMs == boot + 50 * n && c.streakStartMs == boot
    decreases n
  {
    var evs := BeatTrain(boot, n);
    if n == 0 {
      assert evs[..2][..1] == [Tick(boot)] && evs[..2][..1][..0] == [];
      AfterLast(boot, evs);
      AfterLast(boot, evs[..2]);
      AfterLast(boot, evs[..2][..1]);
    } else {
      BeatTrainState(boot, n - 1);
      assert evs[..|evs| - 1] == BeatTrain(boot, n - 1);
      AfterLast(boot, evs);
    }
  }

  /**
   A node that kept hearing beats while latched leaves ESTOP at the very instant a clear is
   accepted: the 1000 ms window is measured from the streak, not from the clear.
   */
  lemma {:induction false} ClearCanReleaseAtOnce(boot: int)
    ensures var evs := BeatTrain(boot, 20) + [Clear(boot + 1000, CLEAR_ESTOP_MAGIC, 1), Tick(boot + 1000)];
            && After(boot, evs[..|evs| - 2]).Latched()
            && After(boot, evs).state == STANDBY
  {
    hide After, Step;
    var train := BeatTrain(boot, 20);
    var evs := train + [Clear(boot + 1000, CLEAR_ESTOP_MAGIC, 1), Tick(boot + 1000)];
    BeatTrainState(boot, 20);
    assert evs[..|evs| - 1][..|evs| - 2] == train == evs[..|evs| - 2];
    AfterLast(boot, evs[..|evs| - 1]);
    AfterLast(boot, evs);
    ClearThenTick(After(boot, train), boot + 1000);
  }

  lemma {:induction false} ClearThenTick(c: Core, now: int)
    requires c.state == ESTOP && c.clearCounter == 0
    requires c.HeartbeatOk(Unbounded, now) && c.StreakMs(Unbounded, now) >= ESTOP_REARM_MS
    ensures Step(Unbounded, Step(Unbounded, c, Clear(now, CLEAR_ESTOP_MAGIC, 1)), Tick(now)).state == STANDBY
  {
  }
}
