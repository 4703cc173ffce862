/**
 A node's CAN transmitter as a state machine over its atomic steps: each FreeRTOS
 queue operation and each critical section is one event, and senders, the transmit
 task (sending or flushing), the driver and the tx-done interrupt interleave freely.

 A slot number is the handle of a pooled frame buffer. `Port` is what the code keeps;
 `Log` only watches.
 */
module CanTransmit {
  import opened TxQueue
  import opened WireTypes
  import CanId

  const SLOTS := 16

  datatype Msg = Msg(id: int, data: seq<Byte>)

  predicate Sendable(m: Msg) {
    0 <= m.id < 0x2000_0000 && |m.data| <= 8
  }

  function ClassOf(m: Msg): (c: nat)
    ensures c < CLASSES
  {
    CanId.Cls(m.id)
  }

  /** The transmit task between its atomic steps. */
  datatype Task =
    | Idle
    | Committed(s: nat)  // marked busy, about to call the driver
    | Refused(s: nat)    // the driver said no
    | Dropping(s: nat)   // about to return the slot

  datatype Isr = Quiet | Freeing(s: nat, success: bool)

  /** `sending` and `returning` are slots held by senders before and after a push. */
  datatype Port = Port(free: seq<nat>, txq: Queues, busy: bool, slot: nat, msgs: map<nat, Msg>,
                       sending: multiset<nat>, returning: multiset<nat>,
                       task: Task, isr: Isr, wire: Option<nat>)

  datatype Event =
    | Take(m: Msg)
    | Queue(s: nat)
    | GiveBack(s: nat)
    | Commit
    | Accept
    | Refuse
    | Unlock
    | FlushPop
    | Drop
    | Report(s: nat, success: bool)
    | Free

  predicate Enabled(p: Port, e: Event) {
    match e
    case Take(m) => Sendable(m) && p.free != []
    case Queue(s) => s in p.sending && s in p.msgs
    case GiveBack(s) => s in p.returning
    case Commit => p.task.Idle? && !p.busy && Lowest(p.txq) < CLASSES
    case Accept => p.task.Committed?
    case Refuse => p.task.Committed?
    case Unlock => p.task.Refused?
    case FlushPop => p.task.Idle? && (p.busy || Lowest(p.txq) < CLASSES)
    case Drop => p.task.Dropping?
    case Report(_, _) => p.isr.Quiet?
    case Free => p.isr.Freeing?
  }

  /** A send to the free queue that does not wait is lost when the queue is full. */
  function Sent(free: seq<nat>, s: nat): seq<nat> {
    if |free| < SLOTS then free + [s] else free
  }

  function Head(q: Queues): nat
    requires Lowest(q) < CLASSES
  {
    q[Lowest(q)][0]
  }

  predicate HasRoom(p: Port, s: nat)
    requires s in p.msgs
  {
    |p.txq[ClassOf(p.msgs[s])]| < DEPTH
  }

  function Step(p: Port, e: Event): Port
    requires Enabled(p, e)
  {
    match e
    case Take(m) =>
      var s := p.free[0];
      p.(free := p.free[1..], sending := p.sending + multiset{s}, msgs := p.msgs[s := m])
    case Queue(s) =>
      var q := p.(sending := p.sending - multiset{s});
      if HasRoom(p, s) then q.(txq := Pushed(p.txq, ClassOf(p.msgs[s]), s))
      else q.(returning := p.returning + multiset{s})
    case GiveBack(s) => p.(returning := p.returning - multiset{s}, free := Sent(p.free, s))
    case Commit =>
      var s := Head(p.txq);
      p.(txq := Popped(p.txq), busy := true, slot := s, task := Committed(s))
    case Accept => p.(wire := Some(p.task.s), task := Idle)
    case Refuse => p.(task := Refused(p.task.s))
    case Unlock => p.(busy := false, task := Dropping(p.task.s))
    case FlushPop =>
      if Lowest(p.txq) < CLASSES then p.(txq := Popped(p.txq), task := Dropping(Head(p.txq)))
      else p.(busy := false, task := Dropping(p.slot), wire := None)
    case Drop => p.(free := Sent(p.free, p.task.s), task := Idle)
    case Report(s, success) =>
      if p.busy && p.slot == s then p.(busy := false, isr := Freeing(s, success), wire := None) else p
    case Free => p.(free := Sent(p.free, p.isr.s), isr := Quiet)
  }

  // ---------------------------------------------------------------------------
  // Every slot is in exactly one place
  // ---------------------------------------------------------------------------

  function Upto(n: nat): seq<nat> {
    if n == 0 then [] else Upto(n - 1) + [n - 1]
  }

  function One(b: bool): nat {
    if b then 1 else 0
  }

  function Occurs(q: seq<nat>, s: nat): nat {
    multiset(q)[s]
  }

  function QueuedAt(q: Queues, n: nat, s: nat): nat
    requires n <= CLASSES
  {
    if n == 0 then 0 else QueuedAt(q, n - 1, s) + Occurs(q[n - 1], s)
  }

  /** How often a slot is among those that hold an accepted frame. */
  function PipeAt(p: Port, s: nat): nat {
    QueuedAt(p.txq, CLASSES, s) + One(p.wire == Some(s))
    + One(!p.task.Idle? && p.task.s == s) + One(p.isr.Freeing? && p.isr.s == s)
  }

  /** How many places a slot is in. */
  function Places(p: Port, s: nat): nat {
    Occurs(p.free, s) + p.sending[s] + p.returning[s] + PipeAt(p, s)
  }

  predicate Pending(t: Task) {
    t.Committed? || t.Refused?
  }

  /** The busy mark means: one slot is with the driver, or on its way there or back. */
  predicate Coupled(p: Port) {
    && (p.busy <==> p.wire.Some? || Pending(p.task))
    && (p.wire.Some? ==> p.wire.value == p.slot && !Pending(p.task))
    && (Pending(p.task) ==> p.task.s == p.slot)
    && Filled(p)
  }

  /** A sender fills the buffer of the slot it took. */
  predicate Filled(p: Port) {
    forall s :: s in p.sending ==> s in p.msgs
  }

  ghost predicate Tidy(p: Port) {
    (forall s: nat :: Places(p, s) == One(s < SLOTS)) && Coupled(p)
  }

  const START := Port(Upto(SLOTS), EMPTY, false, 0, map[], multiset{}, multiset{}, Idle, Quiet, None)

  /** The driver's side of the bargain: the slot marked busy is reported only after it was accepted. */
  predicate Honest(p: Port, e: Event) {
    e.Report? && p.busy && p.slot == e.s ==> p.wire == Some(e.s)
  }

  lemma {:induction false} UptoOnce(n: nat, s: nat)
    ensures Occurs(Upto(n), s) == One(s < n)
    ensures |Upto(n)| == n
  {
    if n == 0 {
    } else {
      hide Occurs;
      UptoOnce(n - 1, s);
      OccursAppend(Upto(n - 1), n - 1, s);
    }
  }

  lemma {:induction false} OccursAppend(q: seq<nat>, x: nat, s: nat)
    ensures Occurs(q + [x], s) == Occurs(q, s) + One(x == s)
  {
  }

  lemma {:induction false} OccursTail(q: seq<nat>, s: nat)
    requires q != []
    ensures Occurs(q, s) == Occurs(q[1..], s) + One(q[0] == s)
  {
    assert q == [q[0]] + q[1..];
  }

  lemma {:induction false} QueuedAtSame(q: Queues, q': Queues, n: nat, s: nat)
    requires n <= CLASSES && forall i :: 0 <= i < n ==> q[i] == q'[i]
    ensures QueuedAt(q, n, s) == QueuedAt(q', n, s)
  {
    if n == 0 {
    } else {
      QueuedAtSame(q, q', n - 1, s);
    }
  }

  /** Changing one class changes the total by that class. */
  lemma {:induction false} QueuedAtUpdate(q: Queues, c: nat, items: seq<nat>, n: nat, s: nat)
    requires c < n <= CLASSES
    ensures QueuedAt(q[c := items], n, s) + Occurs(q[c], s) == QueuedAt(q, n, s) + Occurs(items, s)
  {
    hide Occurs;
    if c == n - 1 {
      QueuedAtSame(q, q[c := items], n - 1, s);
    } else {
      QueuedAtUpdate(q, c, items, n - 1, s);
    }
  }

  lemma {:induction false} PushCounts(q: Queues, c: nat, x: nat, s: nat)
    requires c < CLASSES
    ensures QueuedAt(Pushed(q, c, x), CLASSES, s) == QueuedAt(q, CLASSES, s) + One(x == s)
  {
    hide QueuedAt, Occurs;
    QueuedAtUpdate(q, c, q[c] + [x], CLASSES, s);
    OccursAppend(q[c], x, s);
  }

  lemma {:induction false} PopCounts(q: Queues, s: nat)
    requires Lowest(q) < CLASSES
    ensures QueuedAt(q, CLASSES, s) == QueuedAt(Popped(q), CLASSES, s) + One(Head(q) == s)
  {
    hide QueuedAt, Occurs;
    var c := Lowest(q);
    QueuedAtUpdate(q, c, q[c][1..], CLASSES, s);
    OccursTail(q[c], s);
  }

  lemma {:induction false} QueuedAtHolds(q: Queues, c: nat, n: nat, s: nat)
    requires c < n <= CLASSES
    ensures Occurs(q[c], s) <= QueuedAt(q, n, s)
  {
    hide Occurs;
    if c < n - 1 {
      QueuedAtHolds(q, c, n - 1, s);
    }
  }

  /** A list of distinct slots that misses one is shorter than the pool. */
  lemma {:induction false} MissingOne(q: seq<nat>, x: nat)
    requires x < SLOTS && forall s: nat :: Occurs(q, s) <= One(s < SLOTS && s != x)
    ensures |q| < SLOTS
  {
    hide Upto;
    var all := multiset(Upto(SLOTS));
    forall s: nat ensures (multiset(q) + multiset{x})[s] <= all[s] {
      UptoOnce(SLOTS, s);
      assert Occurs(q, s) <= One(s < SLOTS && s != x);
    }
    UptoOnce(SLOTS, 0);
    Larger(multiset(q) + multiset{x}, all);
  }

  lemma {:induction false} Larger(a: multiset<nat>, b: multiset<nat>)
    requires forall s: nat :: a[s] <= b[s]
    ensures |a| <= |b|
  {
    assert b == a + (b - a);
  }

  /** While anyone holds a slot the free queue has room, so no return is ever lost. */
  lemma {:induction false} ReturnHasRoom(p: Port, x: nat)
    requires Tidy(p) && p.sending[x] + p.returning[x] + PipeAt(p, x) > 0
    ensures |p.free| < SLOTS && x < SLOTS
  {
    hide Occurs, PipeAt, Coupled;
    assert Places(p, x) == One(x < SLOTS);
    forall s: nat ensures Occurs(p.free, s) <= One(s < SLOTS && s != x) {
      assert Places(p, s) == One(s < SLOTS);
    }
    MissingOne(p.free, x);
  }

  /** A sender that holds a slot always finds room in its class. */
  lemma {:induction false} PushHasRoom(p: Port, x: nat, c: nat)
    requires Tidy(p) && x in p.sending && c < CLASSES
    ensures |p.txq[c]| < DEPTH
  {
    hide Occurs, QueuedAt, Coupled;
    assert Places(p, x) == One(x < SLOTS);
    forall s: nat ensures Occurs(p.txq[c], s) <= One(s < SLOTS && s != x) {
      assert Places(p, s) == One(s < SLOTS);
      QueuedAtHolds(p.txq, c, CLASSES, s);
    }
    MissingOne(p.txq[c], x);
  }

  lemma {:induction false} TakeKeepsPlaces(p: Port, m: Msg, s: nat)
    requires Enabled(p, Take(m))
    ensures Places(Step(p, Take(m)), s) == Places(p, s)
  {
    hide Occurs, QueuedAt, PipeAt, Lowest;
    OccursTail(p.free, s);
    PipeSame(p, Step(p, Take(m)), s);
  }

  lemma {:induction false} PipeSame(p: Port, p': Port, s: nat)
    requires p'.txq == p.txq && p'.wire == p.wire && p'.task == p.task && p'.isr == p.isr
    ensures PipeAt(p', s) == PipeAt(p, s)
  {
  }

  lemma {:induction false} QueueKeepsPlaces(p: Port, x: nat, s: nat)
    requires Tidy(p) && Enabled(p, Queue(x))
    ensures Places(Step(p, Queue(x)), s) == Places(p, s)
  {
    hide Occurs, QueuedAt, Pushed, ClassOf, Tidy, Lowest;
    PushHasRoom(p, x, ClassOf(p.msgs[x]));
    PushCounts(p.txq, ClassOf(p.msgs[x]), x, s);
  }

  lemma {:induction false} GiveBackKeepsPlaces(p: Port, x: nat, s: nat)
    requires Tidy(p) && Enabled(p, GiveBack(x))
    ensures Places(Step(p, GiveBack(x)), s) == Places(p, s)
  {
    hide Occurs, QueuedAt, PipeAt, Tidy, Lowest;
    ReturnHasRoom(p, x);
    OccursAppend(p.free, x, s);
    PipeSame(p, Step(p, GiveBack(x)), s);
  }

  lemma {:induction false} PopKeepsPlaces(p: Port, e: Event, s: nat)
    requires Coupled(p) && Enabled(p, e) && (e.Commit? || e.FlushPop?)
    ensures Places(Step(p, e), s) == Places(p, s)
  {
    hide Occurs, QueuedAt, Popped, Head;
    if Lowest(p.txq) < CLASSES {
      PopCounts(p.txq, s);
    }
  }

  lemma {:induction false} ReturnKeepsPlaces(p: Port, e: Event, s: nat)
    requires Tidy(p) && Enabled(p, e) && (e.Drop? || e.Free?)
    ensures Places(Step(p, e), s) == Places(p, s)
  {
    hide Occurs, QueuedAt, Tidy, Lowest;
    var x := if e.Drop? then p.task.s else p.isr.s;
    ReturnHasRoom(p, x);
    OccursAppend(p.free, x, s);
  }

  lemma {:induction false} StepKeepsPlaces(p: Port, e: Event, s: nat)
    requires Tidy(p) && Enabled(p, e) && Honest(p, e)
    ensures Places(Step(p, e), s) == Places(p, s)
  {
    TidyCoupled(p);
    if e.Take? {
      TakeKeepsPlaces(p, e.m, s);
    } else if e.Queue? {
      QueueKeepsPlaces(p, e.s, s);
    } else if e.GiveBack? {
      GiveBackKeepsPlaces(p, e.s, s);
    } else if e.Commit? || e.FlushPop? {
      PopKeepsPlaces(p, e, s);
    } else if e.Drop? || e.Free? {
      ReturnKeepsPlaces(p, e, s);
    } else {
      hide Occurs, QueuedAt, Tidy, Lowest;
    }
  }

  lemma {:induction false} TidyCoupled(p: Port)
    requires Tidy(p)
    ensures Coupled(p)
  {
  }

  lemma {:induction false} StepFilled(p: Port, e: Event)
    requires Filled(p) && Enabled(p, e)
    ensures Filled(Step(p, e))
  {
    hide Pushed, Popped, Head, HasRoom, Sent, Lowest, ClassOf;
  }

  lemma {:induction false} StepCoupled(p: Port, e: Event)
    requires Coupled(p) && Enabled(p, e) && Honest(p, e)
    ensures Coupled(Step(p, e))
  {
    hide Pushed, Popped, Head, HasRoom, Sent, Lowest, ClassOf, Filled;
    StepFilled(p, e);
  }

  lemma {:induction false} StepTidy(p: Port, e: Event)
    requires Tidy(p) && Enabled(p, e) && Honest(p, e)
    ensures Tidy(Step(p, e))
  {
    hide Places, Step, Coupled;
    StepCoupled(p, e);
    forall s: nat ensures Places(Step(p, e), s) == One(s < SLOTS) {
      StepKeepsPlaces(p, e, s);
      assert Places(p, s) == One(s < SLOTS);
    }
  }

  lemma {:induction false} StartTidy()
    ensures Tidy(START)
  {
    hide Occurs, Upto;
    forall s: nat ensures Places(START, s) == One(s < SLOTS) {
      NothingQueued(START.txq, CLASSES, s);
      UptoOnce(SLOTS, s);
    }
  }

  lemma {:induction false} NothingQueued(q: Queues, n: nat, s: nat)
    requires n <= CLASSES && forall i :: 0 <= i < n ==> q[i] == []
    ensures QueuedAt(q, n, s) == 0
  {
    if n == 0 {
    } else {
      NothingQueued(q, n - 1, s);
    }
  }

  /** The driver's honesty is exactly what a report needs to keep the slots apart. */
  lemma {:induction false} ReportExact(p: Port, s: nat, success: bool)
    requires Tidy(p) && p.isr.Quiet?
    ensures Tidy(Step(p, Report(s, success))) <==> Honest(p, Report(s, success))
  {
    hide QueuedAt, Occurs, Places, Tidy;
    var e := Report(s, success);
    if Honest(p, e) {
      StepTidy(p, e);
    } else {
      TidyCoupled(p);
      Doubled(Step(p, e), s);
    }
  }

  lemma {:induction false} Doubled(p: Port, s: nat)
    requires !p.task.Idle? && p.task.s == s && p.isr.Freeing? && p.isr.s == s
    ensures !Tidy(p)
  {
    hide QueuedAt, Occurs;
    assert Places(p, s) >= 2;
  }
}
