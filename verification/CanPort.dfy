/**
 The transmitter's context object. Each method is the code of one atomic step, on the
 real rings, and is proved to be that step of the state machine.
 */
module CanPort {
  import opened CanTransmit
  import opened TxQueue

  class Context {
    const txq: Rings
    var free: seq<nat>
    var busy: bool
    var slot: nat

    ghost predicate Valid()
      reads this, txq.head, txq.count
    {
      txq.Valid()
    }

    /** The object holds the machine's shared state. */
    ghost predicate Matches(p: Port)
      requires Valid()
      reads this, txq.ring, txq.head, txq.count
    {
      free == p.free && txq.Contents() == p.txq && busy == p.busy && slot == p.slot
    }

    constructor ()
      ensures Valid() && Matches(START) && |free| == 16
      ensures fresh(txq) && fresh(txq.ring) && fresh(txq.head) && fresh(txq.count)
    {
      txq := new Rings();
      free, busy, slot := [], false, 0;
      new;
      for i := 0 to SLOTS
        invariant free == Upto(i) && !busy && slot == 0 && Valid() && txq.Contents() == EMPTY
        invariant fresh(txq) && fresh(txq.ring) && fresh(txq.head) && fresh(txq.count)
      {
        UptoOnce(i, 0);
        free := Sent(free, i);
      }
      UptoOnce(SLOTS, 0);
    }

    /** The sender's wait-free receive from the free queue; an oversized frame or identifier is refused first. */
    method TakeSlot(m: Msg, ghost p: Port) returns (s: int)
      requires Valid() && Matches(p)
      modifies this`free
      ensures Valid()
      ensures s >= 0 <==> 0 <= m.id <= 0x1FFF_FFFF && |m.data| <= 8 && old(free) != []
      ensures s >= 0 ==> Enabled(p, Take(m)) && s == p.free[0] && Matches(Step(p, Take(m)))
      ensures s < 0 ==> Matches(p)
    {
      if !Sendable(m) || free == [] {
        return -1;
      }
      s := free[0];
      free := free[1..];
    }

    /** The sender's critical section. */
    method Enqueue(s: nat, m: Msg, ghost p: Port) returns (queued: bool)
      requires Valid() && Matches(p) && Enabled(p, Queue(s)) && p.msgs[s] == m
      modifies txq.ring, txq.count
      ensures Valid() && Matches(Step(p, Queue(s)))
      ensures queued <==> HasRoom(p, s)
    {
      queued := txq.Push(ClassOf(m), s);
    }

    /** The transmit task's critical section: mark one slot busy, most urgent first. */
    method CommitNext(ghost p: Port) returns (s: int)
      requires Valid() && Matches(p) && p.task.Idle?
      modifies this`busy, this`slot, txq.head, txq.count
      ensures Valid()
      ensures s >= 0 <==> Enabled(p, Commit)
      ensures s >= 0 ==> Step(p, Commit).task == Committed(s) && Matches(Step(p, Commit))
      ensures s < 0 ==> Matches(p)
    {
      s := -1;
      if !busy {
        s := txq.Pop();
        if s >= 0 {
          busy := true;
          slot := s;
        }
      }
    }

    /** After a refusal. */
    method ClearBusy(ghost p: Port)
      requires Valid() && Matches(p) && Enabled(p, Unlock)
      modifies this`busy
      ensures Valid() && Matches(Step(p, Unlock))
    {
      busy := false;
    }

    /** The flush's critical section: waiting frames first, then the one in flight. */
    method FlushNext(ghost p: Port) returns (s: int)
      requires Valid() && Matches(p) && p.task.Idle?
      modifies this`busy, txq.head, txq.count
      ensures Valid()
      ensures s >= 0 <==> Enabled(p, FlushPop)
      ensures s >= 0 ==> Step(p, FlushPop).task == Dropping(s) && Matches(Step(p, FlushPop))
      ensures s < 0 ==> Matches(p)
    {
      s := txq.Pop();
      if s < 0 && busy {
        s := slot;
        busy := false;
      }
    }

    /** The tx-done interrupt's critical section. */
    method TxDone(s: nat, success: bool, ghost p: Port) returns (mine: bool)
      requires Valid() && Matches(p) && Enabled(p, Report(s, success))
      modifies this`busy
      ensures Valid() && Matches(Step(p, Report(s, success)))
      ensures mine <==> Step(p, Report(s, success)).isr == Freeing(s, success)
    {
      mine := false;
      if busy && slot == s {
        busy := false;
        mine := true;
      }
    }

    /** Return a slot; with the slots partitioned there is always room for it. */
    method Release(s: nat, e: Event, ghost p: Port)
      requires Valid() && Matches(p) && Tidy(p) && Enabled(p, e)
      requires (e == Drop && s == p.task.s) || (e == Free && s == p.isr.s) || e == GiveBack(s)
      modifies this`free
      ensures Valid() && Matches(Step(p, e))
      ensures free == old(free) + [s]
    {
      hide Tidy, PipeAt;
      assert |free| < SLOTS by {
        HolderFound(p, e, s);
        ReturnHasRoom(p, s);
      }
      free := Sent(free, s);
    }
  }

  lemma {:induction false} HolderFound(p: Port, e: Event, s: nat)
    requires Enabled(p, e)
    requires (e == Drop && s == p.task.s) || (e == Free && s == p.isr.s) || e == GiveBack(s)
    ensures p.sending[s] + p.returning[s] + PipeAt(p, s) > 0
  {
    hide QueuedAt;
  }
}
