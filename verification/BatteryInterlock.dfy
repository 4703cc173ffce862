/**
 The hub's battery interlock: debounced trips per fault family, the short-circuit latch
 and the interlocked re-arm, running against the hub's mirror of the suit's safety state.

 `BatteryTask` is the task's code, one call at a time.
 */
module BatteryInterlock {
  import opened WireTypes
  import Safety = SafetyCore

  const FAMILIES := 6
  const DEBOUNCE := 50
  const DEB_MAX := 0xFFFF
  const CAUSE_SHORT: Byte := 1

  /** The published fault bits, one per family besides the two of the short latch. */
  datatype Fault = ShortLatch | CompArmed | Tripped(family: nat)

  datatype Battery = Battery(deb: seq<nat>, tripped: seq<bool>, faults: set<Fault>,
                             shortLatched: bool, rearmRequested: bool, tripFlag: bool)

  predicate Sized(b: Battery) {
    |b.deb| == FAMILIES && |b.tripped| == FAMILIES
  }

  /** The latch input at power-up decides whether the comparator counts as armed. */
  function PowerUp(latchIdle: bool): Battery {
    Battery([0, 0, 0, 0, 0, 0], [false, false, false, false, false, false],
            if latchIdle then {CompArmed} else {ShortLatch}, !latchIdle, false, false)
  }

  function Counted(deb: nat, crit: bool): nat {
    if !crit then 0 else if deb < DEB_MAX then deb + 1 else deb
  }

  predicate Trips(b: Battery, f: nat, crit: bool)
    requires Sized(b) && f < FAMILIES
  {
    !b.tripped[f] && Counted(b.deb[f], crit) >= DEBOUNCE
  }

  function Checked(b: Battery, f: nat, crit: bool): Battery
    requires Sized(b) && f < FAMILIES
  {
    var b' := b.(deb := b.deb[f := Counted(b.deb[f], crit)]);
    if Trips(b, f, crit) then b'.(tripped := b.tripped[f := true], faults := b.faults + {Tripped(f)}) else b'
  }

  function ShortSeen(b: Battery): Battery {
    b.(tripFlag := false, shortLatched := true, faults := b.faults + {ShortLatch} - {CompArmed})
  }

  const FAMILY_BITS := {Tripped(0), Tripped(1), Tripped(2), Tripped(3), Tripped(4), Tripped(5)}
  const NO_FAMILIES := [false, false, false, false, false, false]
  const NO_COUNTS := [0, 0, 0, 0, 0, 0]

  /** Re-arm after a trip that was not a short: families and their bits are cleared. */
  function PlainRearmed(b: Battery): Battery {
    b.(tripped := NO_FAMILIES, deb := NO_COUNTS, faults := b.faults - FAMILY_BITS)
  }

  /** Re-arm of the discharge gate: families are cleared, their published bits are not. */
  function GateRearmed(b: Battery): Battery {
    b.(tripped := NO_FAMILIES, deb := NO_COUNTS, shortLatched := false,
       faults := b.faults - {ShortLatch} + {CompArmed})
  }

  // ---------------------------------------------------------------------------
  // The task's code
  // ---------------------------------------------------------------------------

  class BatteryTask {
    const deb: array<nat>
    const tripped: array<bool>
    const mirror: Safety.SafetyMachine
    var faults: set<Fault>
    var shortLatched: bool
    var rearmRequested: bool
    var tripFlag: bool

    ghost predicate Valid() {
      deb.Length == FAMILIES && tripped.Length == FAMILIES
    }

    function View(): Battery
      reads this, deb, tripped
    {
      Battery(deb[..], tripped[..], faults, shortLatched, rearmRequested, tripFlag)
    }

    constructor (latchIdle: bool, now: Safety.Ms)
      ensures Valid() && View() == PowerUp(latchIdle) && mirror.View() == Safety.Init(Safety.Wrapping, now)
      ensures faults == {if latchIdle then CompArmed else ShortLatch} && shortLatched == !latchIdle
      ensures !rearmRequested && !tripFlag && deb[..] == NO_COUNTS && tripped[..] == NO_FAMILIES
      ensures fresh(deb) && fresh(tripped) && fresh(mirror)
    {
      deb := new nat[FAMILIES](_ => 0);
      tripped := new bool[FAMILIES](_ => false);
      mirror := new Safety.SafetyMachine(now);
      faults := if latchIdle then {CompArmed} else {ShortLatch};
      shortLatched, rearmRequested, tripFlag := !latchIdle, false, false;
    }

    /** A trip latches the mirror before the call returns. */
    method Check(f: nat, crit: bool, cause: Byte, now: Safety.Ms)
      requires Valid() && f < FAMILIES
      modifies this`faults, deb, tripped, mirror
      ensures View() == Checked(old(View()), f, crit)
      ensures mirror.View() == if Trips(old(View()), f, crit)
                               then Safety.OnEstop(old(mirror.View()), now, cause) else old(mirror.View())
    {
      if crit {
        if deb[f] < DEB_MAX {
          deb[f] := deb[f] + 1;
        }
      } else {
        deb[f] := 0;
      }
      if tripped[f] {
        return;
      }
      if deb[f] >= DEBOUNCE {
        tripped[f] := true;
        faults := faults + {Tripped(f)};
        mirror.HandleEstop(now, cause);
      }
    }

    method HandleShortTrip(now: Safety.Ms)
      requires Valid()
      modifies this, mirror
      ensures View() == if old(tripFlag) then ShortSeen(old(View())) else old(View())
      ensures mirror.View() == if old(tripFlag)
                               then Safety.OnEstop(old(mirror.View()), now, CAUSE_SHORT) else old(mirror.View())
    {
      if !tripFlag {
        return;
      }
      tripFlag := false;
      shortLatched := true;
      faults := faults + {ShortLatch};
      faults := faults - {CompArmed};
      mirror.HandleEstop(now, CAUSE_SHORT);
    }

    /** The gateway's clear: an accepted one also asks the battery task to re-arm. */
    method HandleClear(now: Safety.Ms, magic: Safety.Ms, counter: Safety.Ms)
      requires Valid()
      modifies this`rearmRequested, mirror
      ensures mirror.View() == Safety.OnClear(old(mirror.View()), now, magic, counter)
      ensures rearmRequested == (old(rearmRequested) || Safety.ClearAccepted(old(mirror.View()), magic, counter))
    {
      var accepted := mirror.HandleClear(now, magic, counter);
      if accepted {
        rearmRequested := true;
      }
    }

    method ClearFamilies()
      requires Valid()
      modifies deb, tripped
      ensures deb[..] == NO_COUNTS && tripped[..] == NO_FAMILIES
    {
      for f := 0 to FAMILIES
        invariant forall j :: 0 <= j < f ==> deb[j] == 0 && !tripped[j]
      {
        deb[f] := 0;
        tripped[f] := false;
      }
    }

    /** `compHigh` and `gateClosed` are the comparator and kill-gate inputs. */
    method TryRearm(compHigh: bool, gateClosed: bool)
      requires Valid()
      modifies this, deb, tripped
      ensures var was := old(View());
              View() == if !was.rearmRequested || mirror.state != Safety.STANDBY then was
                        else var spent := was.(rearmRequested := false);
                             if !was.shortLatched then PlainRearmed(spent)
                             else if compHigh || !gateClosed then spent
                             else GateRearmed(spent)
    {
      if !rearmRequested {
        return;
      }
      if mirror.state != Safety.STANDBY {
        return;
      }
      rearmRequested := false;
      if !shortLatched {
        ClearFamilies();
        faults := faults - FAMILY_BITS;
        return;
      }
      if compHigh {
        return;
      }
      if gateClosed {
        shortLatched := false;
        faults := faults - {ShortLatch};
        faults := faults + {CompArmed};
        ClearFamilies();
      }
    }
  }
}
