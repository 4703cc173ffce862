/**
 Whole runs of the CAN transmitter: every accepted frame ends exactly once, frames of
 one class leave in the order they were accepted, and urgent classes go first.
 */
module CanRuns {
  import opened CanTransmit
  import opened TxQueue
  import opened WireTypes

  /** An accepted frame was reported by the driver, or dropped without being sent. */
  datatype Fate = Reported(success: bool) | Dropped

  datatype End = End(ticket: nat, fate: Fate)

  /**
   Accepted frames are numbered in order; `ticket` says which one a slot carries, `left`
   which ones left their class queue, and `ends` how each one ended.
   */
  datatype Log = Log(ticket: map<nat, nat>, accepted: seq<Msg>, left: Queues, ends: seq<End>)

  datatype World = World(port: Port, log: Log)

  const BEGIN := World(START, Log(map[], [], EMPTY, []))

  function TicketOf(l: Log, s: nat): nat {
    if s in l.ticket then l.ticket[s] else 0
  }

  predicate Accepts(p: Port, e: Event)
    requires Enabled(p, e)
  {
    e.Queue? && HasRoom(p, e.s)
  }

  predicate Pops(p: Port, e: Event) {
    Lowest(p.txq) < CLASSES && (e.Commit? || e.FlushPop?)
  }

  function Note(p: Port, l: Log, e: Event): Log
    requires Enabled(p, e)
  {
    if Accepts(p, e) then l.(ticket := l.ticket[e.s := |l.accepted|], accepted := l.accepted + [p.msgs[e.s]])
    else if Pops(p, e) then l.(left := Pushed(l.left, Lowest(p.txq), TicketOf(l, Head(p.txq))))
    else if e.Drop? then l.(ends := l.ends + [End(TicketOf(l, p.task.s), Dropped)])
    else if e.Free? then l.(ends := l.ends + [End(TicketOf(l, p.isr.s), Reported(p.isr.success))])
    else l
  }

  predicate Legal(evs: seq<Event>)
    decreases |evs|, 0
  {
    evs == [] ||
    (&& Legal(evs[..|evs| - 1])
     && Enabled(After(evs[..|evs| - 1]).port, evs[|evs| - 1])
     && Honest(After(evs[..|evs| - 1]).port, evs[|evs| - 1]))
  }

  function After(evs: seq<Event>): World
    requires Legal(evs)
    decreases |evs|, 1
  {
    if evs == [] then BEGIN
    else
      var n := |evs| - 1;
      var w := After(evs[..n]);
      World(Step(w.port, evs[n]), Note(w.port, w.log, evs[n]))
  }

  /** In every run the sixteen slots are partitioned: no slot lost, none in two places. */
  lemma {:induction false} SlotsPartitioned(evs: seq<Event>)
    requires Legal(evs)
    ensures Tidy(After(evs).port)
    decreases |evs|
  {
    hide Tidy, Step, Enabled, Honest, Note;
    if evs == [] {
      StartTidy();
    } else {
      var n := |evs| - 1;
      SlotsPartitioned(evs[..n]);
      StepTidy(After(evs[..n]).port, evs[n]);
    }
  }

  // ---------------------------------------------------------------------------
  // Accepted frames end exactly once
  // ---------------------------------------------------------------------------

  predicate InPipe(p: Port, s: nat) {
    PipeAt(p, s) > 0
  }

  predicate Ended(l: Log, t: nat) {
    exists i :: 0 <= i < |l.ends| && l.ends[i].ticket == t
  }

  /** The slot carries a frame that was accepted and has not ended. */
  predicate Carries(p: Port, l: Log, s: nat) {
    && s in l.ticket && s in p.msgs
    && l.ticket[s] < |l.accepted| && l.accepted[l.ticket[s]] == p.msgs[s]
    && !Ended(l, l.ticket[s])
  }

  ghost predicate Held(p: Port, l: Log, t: nat) {
    exists s: nat :: InPipe(p, s) && TicketOf(l, s) == t
  }

  ghost predicate Accounted(p: Port, l: Log) {
    && (forall s: nat :: InPipe(p, s) ==> Carries(p, l, s))
    && (forall s: nat, r: nat :: InPipe(p, s) && InPipe(p, r) && s != r ==> TicketOf(l, s) != TicketOf(l, r))
    && (forall t: nat :: t < |l.accepted| && !Ended(l, t) ==> Held(p, l, t))
    && (forall i, j :: 0 <= i < j < |l.ends| ==> l.ends[i].ticket != l.ends[j].ticket)
    && (forall i :: 0 <= i < |l.ends| ==> l.ends[i].ticket < |l.accepted|)
  }

  /** How each kind of step changes the set of slots that hold an accepted frame. */
  lemma {:induction false} PipeChanges(p: Port, e: Event, s: nat)
    requires Tidy(p) && Enabled(p, e) && Honest(p, e)
    ensures PipeAt(Step(p, e), s) + One(e.Drop? && p.task.s == s) + One(e.Free? && p.isr.s == s)
            == PipeAt(p, s) + One(Accepts(p, e) && e.s == s)
  {
    hide Occurs, Tidy, PipeAt, Lowest, ClassOf, Pushed, Popped, Head;
    StepKeepsPlaces(p, e, s);
    if e.Drop? {
      DropFound(p);
      ReturnHasRoom(p, p.task.s);
      OccursAppend(p.free, p.task.s, s);
    } else if e.Free? {
      FreeFound(p);
      ReturnHasRoom(p, p.isr.s);
      OccursAppend(p.free, p.isr.s, s);
    } else if e.Queue? {
      PushHasRoom(p, e.s, ClassOf(p.msgs[e.s]));
    } else if e.Take? {
      PipeSame(p, Step(p, e), s);
    } else if e.GiveBack? {
      PipeSame(p, Step(p, e), s);
    }
  }

  lemma {:induction false} DropFound(p: Port)
    requires p.task.Dropping?
    ensures PipeAt(p, p.task.s) > 0
  {
    hide QueuedAt;
  }

  lemma {:induction false} FreeFound(p: Port)
    requires p.isr.Freeing?
    ensures PipeAt(p, p.isr.s) > 0
  {
    hide QueuedAt;
  }

  /** A slot outside the pipeline is not in it; one inside is there once. */
  lemma {:induction false} PipeApart(p: Port, s: nat)
    requires Tidy(p)
    ensures PipeAt(p, s) <= 1
    ensures s in p.sending || s in p.free ==> PipeAt(p, s) == 0
  {
    hide Occurs, PipeAt, Coupled;
    assert Places(p, s) == One(s < SLOTS);
    if s in p.free {
      FoundOccurs(p.free, s);
    }
  }

  lemma {:induction false} FoundOccurs(q: seq<nat>, s: nat)
    requires s in q
    ensures Occurs(q, s) > 0
  {
  }

  /** Accepting: one more frame, carried by the slot just pushed. */
  lemma {:induction false} AcceptAccounted(p: Port, p': Port, l: Log, l': Log, x: nat)
    requires Accounted(p, l) && x in p.msgs && !InPipe(p, x) && p'.msgs == p.msgs
    requires forall s: nat :: InPipe(p', s) <==> InPipe(p, s) || s == x
    requires l' == l.(ticket := l.ticket[x := |l.accepted|], accepted := l.accepted + [p.msgs[x]])
    ensures Accounted(p', l')
  {
    hide InPipe;
    assert forall t: nat :: Ended(l', t) <==> Ended(l, t);
    assert !Ended(l, |l.accepted|);
    forall s: nat | InPipe(p', s) ensures Carries(p', l', s) {
      assert s != x ==> Carries(p, l, s);
    }
    forall t: nat | t < |l'.accepted| && !Ended(l', t) ensures Held(p', l', t) {
      if t == |l.accepted| {
        assert InPipe(p', x) && TicketOf(l', x) == t;
      } else {
        assert Held(p, l, t);
        var s: nat :| InPipe(p, s) && TicketOf(l, s) == t;
        assert InPipe(p', s) && TicketOf(l', s) == t;
      }
    }
    forall s: nat, r: nat | InPipe(p', s) && InPipe(p', r) && s != r ensures TicketOf(l', s) != TicketOf(l', r) {
      assert s != x ==> Carries(p, l, s);
      assert r != x ==> Carries(p, l, r);
    }
  }

  /** Ending: the frame its slot carried gets its one end. */
  lemma {:induction false} EndAccounted(p: Port, p': Port, l: Log, l': Log, x: nat, fate: Fate)
    requires Accounted(p, l) && InPipe(p, x) && p'.msgs == p.msgs
    requires forall s: nat :: InPipe(p', s) <==> InPipe(p, s) && s != x
    requires l' == l.(ends := l.ends + [End(TicketOf(l, x), fate)])
    ensures Accounted(p', l')
  {
    hide InPipe;
    assert Carries(p, l, x);
    var gone := TicketOf(l, x);
    forall t: nat ensures Ended(l', t) <==> Ended(l, t) || t == gone {
      if Ended(l, t) {
        var i :| 0 <= i < |l.ends| && l.ends[i].ticket == t;
        assert l'.ends[i].ticket == t;
      }
      assert l'.ends[|l.ends|].ticket == gone;
    }
    forall s: nat | InPipe(p', s) ensures Carries(p', l', s) {
      assert Carries(p, l, s);
    }
    forall t: nat | t < |l'.accepted| && !Ended(l', t) ensures Held(p', l', t) {
      assert Held(p, l, t);
      var s: nat :| InPipe(p, s) && TicketOf(l, s) == t;
      assert InPipe(p', s) && TicketOf(l', s) == t;
    }
  }

  /** Moving: the same slots, and the frames in them, in other places. */
  lemma {:induction false} MoveAccounted(p: Port, p': Port, l: Log, l': Log)
    requires Accounted(p, l) && l' == l.(left := l'.left)
    requires forall s: nat :: InPipe(p', s) <==> InPipe(p, s)
    requires forall s: nat :: InPipe(p, s) ==> s in p.msgs && s in p'.msgs && p'.msgs[s] == p.msgs[s]
    ensures Accounted(p', l')
  {
    hide InPipe;
    assert forall t: nat :: Ended(l', t) <==> Ended(l, t);
    forall s: nat | InPipe(p', s) ensures Carries(p', l', s) {
      assert Carries(p, l, s);
    }
    forall t: nat | t < |l'.accepted| && !Ended(l', t) ensures Held(p', l', t) {
      assert Held(p, l, t);
      var s: nat :| InPipe(p, s) && TicketOf(l, s) == t;
      assert InPipe(p', s) && TicketOf(l', s) == t;
    }
  }

  lemma {:induction false} StepAccounted(p: Port, l: Log, e: Event)
    requires Tidy(p) && Accounted(p, l) && Enabled(p, e) && Honest(p, e)
    ensures Accounted(Step(p, e), Note(p, l, e))
  {
    hide Tidy, Accounted, PipeAt, Lowest, Pushed, Popped, Head, HasRoom;
    var p', l' := Step(p, e), Note(p, l, e);
    forall s: nat ensures PipeAt(p', s) + One(e.Drop? && p.task.s == s) + One(e.Free? && p.isr.s == s)
                          == PipeAt(p, s) + One(Accepts(p, e) && e.s == s) && PipeAt(p, s) <= 1 {
      PipeChanges(p, e, s);
      PipeApart(p, s);
    }
    if Accepts(p, e) {
      PipeApart(p, e.s);
      AcceptAccounted(p, p', l, l', e.s);
    } else if e.Drop? {
      DropFound(p);
      EndAccounted(p, p', l, l', p.task.s, Dropped);
    } else if e.Free? {
      FreeFound(p);
      EndAccounted(p, p', l, l', p.isr.s, Reported(p.isr.success));
    } else {
      MessagesKept(p, l, e);
      MoveAccounted(p, p', l, l');
    }
  }

  /** A buffer is written only by the sender that holds it. */
  lemma {:induction false} MessagesKept(p: Port, l: Log, e: Event)
    requires Tidy(p) && Accounted(p, l) && Enabled(p, e)
    ensures forall s: nat :: InPipe(p, s) ==> s in p.msgs && s in Step(p, e).msgs && Step(p, e).msgs[s] == p.msgs[s]
  {
    hide Tidy, PipeAt, Lowest, Pushed, Popped, Head, HasRoom;
    forall s: nat | InPipe(p, s) ensures s in p.msgs && s in Step(p, e).msgs && Step(p, e).msgs[s] == p.msgs[s] {
      assert Carries(p, l, s);
      if e.Take? {
        PipeApart(p, p.free[0]);
      }
    }
  }

  lemma {:induction false} BeginAccounted()
    ensures Accounted(BEGIN.port, BEGIN.log)
  {
    hide QueuedAt, Occurs;
    forall s: nat ensures !InPipe(START, s) {
      NothingQueued(START.txq, CLASSES, s);
    }
  }

  /**
   In every run each accepted frame is either still carried by exactly one slot,
   unchanged, or has ended exactly once.
   */
  lemma {:induction false} EveryFrameEndsOnce(evs: seq<Event>)
    requires Legal(evs)
    ensures Accounted(After(evs).port, After(evs).log)
    decreases |evs|
  {
    hide Tidy, Step, Enabled, Honest, Note, Accounted;
    if evs == [] {
      BeginAccounted();
    } else {
      var n := |evs| - 1;
      EveryFrameEndsOnce(evs[..n]);
      SlotsPartitioned(evs[..n]);
      StepAccounted(After(evs[..n]).port, After(evs[..n]).log, evs[n]);
    }
  }

  /** When the transmitter has run dry, every accepted frame was reported or dropped. */
  lemma {:induction false} DryMeansEnded(evs: seq<Event>, t: nat)
    requires Legal(evs) && t < |After(evs).log.accepted|
    requires forall s: nat :: !InPipe(After(evs).port, s)
    ensures exists i :: 0 <= i < |After(evs).log.ends| && After(evs).log.ends[i].ticket == t
  {
    hide InPipe, After;
    EveryFrameEndsOnce(evs);
    var w := After(evs);
    assert !Ended(w.log, t) ==> Held(w.port, w.log, t);
  }

  // ---------------------------------------------------------------------------
  // Order
  // ---------------------------------------------------------------------------

  /** Numbers of the accepted frames of one class, in order of acceptance. */
  function OfClass(accepted: seq<Msg>, c: nat): seq<nat>
    decreases |accepted|
  {
    if accepted == [] then []
    else
      var n := |accepted| - 1;
      OfClass(accepted[..n], c) + if ClassOf(accepted[n]) == c then [n] else []
  }

  function Tickets(l: Log, q: seq<nat>): (t: seq<nat>)
    ensures |t| == |q|
  {
    seq(|q|, i requires 0 <= i < |q| => TicketOf(l, q[i]))
  }

  /** What left a class, followed by what still waits in it, is what it was given. */
  predicate Fifo(p: Port, l: Log, c: nat)
    requires c < CLASSES
  {
    OfClass(l.accepted, c) == l.left[c] + Tickets(l, p.txq[c])
  }

  lemma {:induction false} PushFifo(p: Port, l: Log, x: nat, c: nat)
    requires x in p.msgs && c < CLASSES && x !in p.txq[c] && Fifo(p, l, c)
    ensures var l' := l.(ticket := l.ticket[x := |l.accepted|], accepted := l.accepted + [p.msgs[x]]);
            var q := Pushed(p.txq, ClassOf(p.msgs[x]), x);
            OfClass(l'.accepted, c) == l'.left[c] + Tickets(l', q[c])
  {
    hide ClassOf;
    var l' := l.(ticket := l.ticket[x := |l.accepted|], accepted := l.accepted + [p.msgs[x]]);
    assert l'.accepted[..|l.accepted|] == l.accepted;
    assert Tickets(l', p.txq[c]) == Tickets(l, p.txq[c]);
    assert Tickets(l', p.txq[c] + [x]) == Tickets(l, p.txq[c]) + [|l.accepted|];
  }

  lemma {:induction false} PopFifo(p: Port, l: Log, c: nat)
    requires c < CLASSES && Lowest(p.txq) < CLASSES && Fifo(p, l, c)
    ensures var l' := l.(left := Pushed(l.left, Lowest(p.txq), TicketOf(l, Head(p.txq))));
            OfClass(l'.accepted, c) == l'.left[c] + Tickets(l', Popped(p.txq)[c])
  {
    hide OfClass;
    var l' := l.(left := Pushed(l.left, Lowest(p.txq), TicketOf(l, Head(p.txq))));
    var q := p.txq[c];
    if c == Lowest(p.txq) {
      assert Tickets(l, q) == [TicketOf(l, q[0])] + Tickets(l', q[1..]);
    } else {
      assert Tickets(l', q) == Tickets(l, q);
    }
  }

  lemma {:induction false} SenderApart(p: Port, x: nat, c: nat)
    requires Tidy(p) && x in p.sending && c < CLASSES
    ensures x !in p.txq[c]
  {
    hide Occurs, QueuedAt;
    assert Places(p, x) == One(x < SLOTS);
    QueuedAtHolds(p.txq, c, CLASSES, x);
    if x in p.txq[c] {
      FoundOccurs(p.txq[c], x);
    }
  }

  lemma {:induction false} StepFifo(p: Port, l: Log, e: Event, c: nat)
    requires Tidy(p) && Enabled(p, e) && c < CLASSES && Fifo(p, l, c)
    ensures Fifo(Step(p, e), Note(p, l, e), c)
  {
    hide Tidy, OfClass, Lowest, ClassOf, Pushed, Popped, Head;
    if e.Queue? {
      PushHasRoom(p, e.s, ClassOf(p.msgs[e.s]));
      SenderApart(p, e.s, c);
      PushFifo(p, l, e.s, c);
    } else if Pops(p, e) {
      PopFifo(p, l, c);
    } else {
      assert Step(p, e).txq == p.txq;
      assert Tickets(Note(p, l, e), p.txq[c]) == Tickets(l, p.txq[c]);
    }
  }

  /** In every run the frames of a class leave in the order they were accepted. */
  lemma {:induction false} ClassOrderKept(evs: seq<Event>, c: nat)
    requires Legal(evs) && c < CLASSES
    ensures Fifo(After(evs).port, After(evs).log, c)
    decreases |evs|
  {
    hide Tidy, Step, Enabled, Honest, Note, Fifo;
    if evs == [] {
      BeginFifo(c);
    } else {
      var n := |evs| - 1;
      ClassOrderKept(evs[..n], c);
      SlotsPartitioned(evs[..n]);
      StepFifo(After(evs[..n]).port, After(evs[..n]).log, evs[n], c);
    }
  }

  lemma {:induction false} BeginFifo(c: nat)
    requires c < CLASSES
    ensures Fifo(BEGIN.port, BEGIN.log, c)
  {
  }

  /**
   Whenever a frame is committed to the driver, every accepted frame of a more urgent
   class has already left, and so has every earlier frame of its own class.
   */
  lemma {:induction false} CommitIsMostUrgent(evs: seq<Event>)
    requires Legal(evs + [Commit])
    ensures Legal(evs)
    ensures var w := After(evs);
            var k := Lowest(w.port.txq);
            && k < CLASSES
            && (forall c :: 0 <= c < k ==> OfClass(w.log.accepted, c) == w.log.left[c])
            && |w.log.left[k]| < |OfClass(w.log.accepted, k)|
            && TicketOf(w.log, Head(w.port.txq)) == OfClass(w.log.accepted, k)[|w.log.left[k]|]
  {
    CommitNeedsQueue(evs);
    hide After, Legal, Fifo, OfClass, Tickets, Lowest, Head, TicketOf, Enabled;
    var w := After(evs);
    forall c | 0 <= c < CLASSES ensures Fifo(w.port, w.log, c) {
      ClassOrderKept(evs, c);
    }
    LowestIsNext(w.port, w.log);
  }

  lemma {:induction false} CommitNeedsQueue(evs: seq<Event>)
    requires Legal(evs + [Commit])
    ensures Legal(evs) && Lowest(After(evs).port.txq) < CLASSES
  {
    hide After, Lowest, Honest;
    assert (evs + [Commit])[..|evs|] == evs;
  }

  lemma {:induction false} LowestIsNext(p: Port, l: Log)
    requires Lowest(p.txq) < CLASSES && forall c :: 0 <= c < CLASSES ==> Fifo(p, l, c)
    ensures var k := Lowest(p.txq);
            && (forall c :: 0 <= c < k ==> OfClass(l.accepted, c) == l.left[c])
            && |l.left[k]| < |OfClass(l.accepted, k)|
            && TicketOf(l, Head(p.txq)) == OfClass(l.accepted, k)[|l.left[k]|]
  {
    hide OfClass;
    var k := Lowest(p.txq);
    forall c | 0 <= c < k ensures OfClass(l.accepted, c) == l.left[c] {
      assert Fifo(p, l, c) && p.txq[c] == [];
    }
    assert Fifo(p, l, k);
  }

  /** Accepted and not yet taken from its class. */
  ghost predicate Waits(l: Log, t: nat) {
    t < |l.accepted| && forall c :: 0 <= c < CLASSES ==> t !in l.left[c]
  }

  /**
   A committed frame goes before every other frame that waits: none has a lower class field
   in its identifier, and of those with the same one none was accepted earlier.
   */
  lemma {:induction false} CommitBeatsWaiting(evs: seq<Event>, t: nat)
    requires Legal(evs + [Commit]) && Legal(evs) && Waits(After(evs).log, t)
    ensures Lowest(After(evs).port.txq) < CLASSES
    ensures TicketOf(After(evs).log, Head(After(evs).port.txq)) < |After(evs).log.accepted|
    ensures var l := After(evs).log; var first := TicketOf(l, Head(After(evs).port.txq));
            var a, b := l.accepted[first].id / 0x400_0000 % 8, l.accepted[t].id / 0x400_0000 % 8;
            a < b || (a == b && first <= t)
  {
    hide After, Legal, Fifo, OfClass, Tickets, Head, TicketOf;
    CommitIsMostUrgent(evs);
    var l, p := After(evs).log, After(evs).port;
    var k, c := Lowest(p.txq), ClassOf(l.accepted[t]);
    ClassOrderKept(evs, k);
    OfClassExact(l.accepted, k);
    OfClassExact(l.accepted, c);
    NextOfClass(p, l, k, t);
    assert OfClass(l.accepted, k)[|l.left[k]|] in OfClass(l.accepted, k);
  }

  lemma {:induction false} NextOfClass(p: Port, l: Log, k: nat, t: nat)
    requires k < CLASSES && Fifo(p, l, k) && |l.left[k]| < |OfClass(l.accepted, k)| && t !in l.left[k]
    requires forall i, j :: 0 <= i < j < |OfClass(l.accepted, k)| ==> OfClass(l.accepted, k)[i] < OfClass(l.accepted, k)[j]
    ensures t in OfClass(l.accepted, k) ==> OfClass(l.accepted, k)[|l.left[k]|] <= t
  {
    hide OfClass, Tickets;
    var o, rest := OfClass(l.accepted, k), Tickets(l, p.txq[k]);
    if t in o {
      InTail(l.left[k], rest, t);
      var j :| 0 <= j < |rest| && rest[j] == t;
      assert o[|l.left[k]| + j] == t;
    }
  }

  lemma {:induction false} InTail<T>(a: seq<T>, b: seq<T>, t: T)
    requires t in a + b && t !in a
    ensures t in b
  {
  }

  // ---------------------------------------------------------------------------
  // Reports and flushes
  // ---------------------------------------------------------------------------

  /** The driver reported this slot while it had it, and the interrupt has not freed it since. */
  ghost predicate ReportedAt(evs: seq<Event>, j: nat, s: nat, success: bool)
    requires Legal(evs)
  {
    && j < |evs| && evs[j] == Report(s, success)
    && Legal(evs[..j]) && After(evs[..j]).port.wire == Some(s)
    && forall i :: j < i < |evs| ==> !evs[i].Free?
  }

  /** A slot on its way back from the driver was on the wire, and carries the verdict of its own report. */
  lemma {:induction false} FreeingWasReported(evs: seq<Event>)
    requires Legal(evs) && After(evs).port.isr.Freeing?
    ensures var isr := After(evs).port.isr; exists j: nat :: ReportedAt(evs, j, isr.s, isr.success)
    decreases |evs|
  {
    LastStep(evs);
    var n := |evs| - 1;
    var before, e := evs[..n], evs[n];
    hide Step, Note, Enabled, After, Legal, Honest, ReportedAt;
    IsrStep(After(before).port, e);
    if After(before).port.isr.Freeing? {
      FreeingWasReported(before);
      var isr := After(before).port.isr;
      var j: nat :| ReportedAt(before, j, isr.s, isr.success);
      ReportedStays(evs, j, isr.s, isr.success);
    } else {
      ReportedLast(evs);
    }
  }

  lemma {:induction false} LastStep(evs: seq<Event>)
    requires Legal(evs) && After(evs).port.isr.Freeing?
    ensures evs != [] && Legal(evs[..|evs| - 1])
    ensures var p, e := After(evs[..|evs| - 1]).port, evs[|evs| - 1];
            Enabled(p, e) && Honest(p, e) && After(evs).port == Step(p, e)
  {
    hide Step, Note, Enabled, Honest;
  }

  lemma {:induction false} ReportedStays(evs: seq<Event>, j: nat, s: nat, success: bool)
    requires evs != [] && Legal(evs) && Legal(evs[..|evs| - 1]) && !evs[|evs| - 1].Free?
    requires ReportedAt(evs[..|evs| - 1], j, s, success)
    ensures ReportedAt(evs, j, s, success)
  {
    hide Legal, After;
    assert evs[..|evs| - 1][..j] == evs[..j];
  }

  lemma {:induction false} ReportedLast(evs: seq<Event>)
    requires evs != [] && Legal(evs) && Legal(evs[..|evs| - 1]) && evs[|evs| - 1].Report?
    requires After(evs[..|evs| - 1]).port.wire == Some(evs[|evs| - 1].s)
    ensures ReportedAt(evs, |evs| - 1, evs[|evs| - 1].s, evs[|evs| - 1].success)
  {
    hide Legal, After;
  }

  lemma {:induction false} IsrStep(p: Port, e: Event)
    requires Enabled(p, e) && Honest(p, e)
    ensures Step(p, e).isr.Freeing? ==>
              if p.isr.Freeing? then !e.Free? && Step(p, e).isr == p.isr
              else e.Report? && Step(p, e).isr == Freeing(e.s, e.success) && p.wire == Some(e.s)
  {
    hide Lowest, Pushed, Popped, Head, Sent, HasRoom;
  }

  /** A flush that is not interrupted: take, drop, and again. */
  function Flushed(p: Port, rounds: nat): Port
    requires p.task.Idle?
    decreases rounds
  {
    if rounds == 0 || !Enabled(p, FlushPop) then p
    else Flushed(Step(Step(p, FlushPop), Drop), rounds - 1)
  }

  lemma {:induction false} FlushRound(p: Port)
    requires p.task.Idle? && Enabled(p, FlushPop)
    ensures var p' := Step(Step(p, FlushPop), Drop); var n := Total(p.txq, CLASSES);
            && p'.task.Idle?
            && (n > 0 ==> Total(p'.txq, CLASSES) == n - 1 && p'.busy == p.busy && p'.wire == p.wire)
            && (n == 0 ==> p'.txq == EMPTY && !p'.busy && p'.wire == None)
  {
    hide Lowest, Popped, Head, Total;
    PopTakesOne(p.txq);
  }

  /**
   Every waiting frame is dropped before the one in flight is taken back, and one round
   more leaves nothing waiting and nothing in flight.
   */
  lemma {:induction false} FlushEmpties(p: Port, rounds: nat)
    requires p.task.Idle? && Coupled(p)
    ensures var r, n := Flushed(p, rounds), Total(p.txq, CLASSES);
            && r.task.Idle?
            && (rounds <= n ==> Total(r.txq, CLASSES) == n - rounds && r.busy == p.busy && r.wire == p.wire)
            && (rounds > n ==> r.txq == EMPTY && !r.busy && r.wire == None)
    decreases rounds
  {
    hide Lowest, Popped, Head, Total, Step, Filled;
    PopTakesOne(p.txq);
    if rounds > 0 && Enabled(p, FlushPop) {
      FlushCoupled(p);
      FlushRound(p);
      var p' := Step(Step(p, FlushPop), Drop);
      FlushEmpties(p', rounds - 1);
      if Total(p.txq, CLASSES) == 0 {
        NothingToFlush(p', rounds - 1);
      }
    }
  }

  lemma {:induction false} NothingToFlush(p: Port, rounds: nat)
    requires p.task.Idle? && p.txq == EMPTY && !p.busy
    ensures Flushed(p, rounds) == p
  {
    hide Step;
  }

  lemma {:induction false} FlushCoupled(p: Port)
    requires p.task.Idle? && Coupled(p) && Enabled(p, FlushPop)
    ensures Enabled(Step(p, FlushPop), Drop) && Coupled(Step(Step(p, FlushPop), Drop))
  {
    hide Coupled, Lowest, Popped, Head, Sent;
    StepCoupled(p, FlushPop);
    StepCoupled(Step(p, FlushPop), Drop);
  }

  /** The numbers of a class are exactly its frames, rising. */
  lemma {:induction false} OfClassExact(accepted: seq<Msg>, c: nat)
    ensures var o := OfClass(accepted, c);
            && (forall i, j :: 0 <= i < j < |o| ==> o[i] < o[j])
            && (forall t :: t in o <==> 0 <= t < |accepted| && ClassOf(accepted[t]) == c)
    decreases |accepted|
  {
    hide ClassOf;
    if accepted == [] {
    } else {
      var n := |accepted| - 1;
      OfClassExact(accepted[..n], c);
      assert forall t :: 0 <= t < n ==> accepted[..n][t] == accepted[t];
      var before, o := OfClass(accepted[..n], c), OfClass(accepted, c);
      forall i, j | 0 <= i < j < |o| ensures o[i] < o[j] {
        assert o[i] == before[i] && before[i] in before;
      }
    }
  }

  // ---------------------------------------------------------------------------
  // Why the driver's honesty matters
  // ---------------------------------------------------------------------------

  /** One sender holds slot 1 while the driver has refused the frame in slot 0. */
  function AfterRefusal(m: Msg): Port {
    Port(Upto(SLOTS)[2..], EMPTY, true, 0, map[0 := m, 1 := m], multiset{1}, multiset{}, Refused(0), Quiet, None)
  }

  function ToRefusal(m: Msg): seq<Event> {
    [] + [Take(m)] + [Take(m)] + [Queue(0)] + [Commit] + [Refuse]
  }

  lemma {:induction false} Extend(evs: seq<Event>, e: Event)
    requires Legal(evs) && Enabled(After(evs).port, e) && Honest(After(evs).port, e)
    ensures Legal(evs + [e]) && After(evs + [e]).port == Step(After(evs).port, e)
  {
    hide Enabled, Honest, Step;
    assert (evs + [e])[..|evs|] == evs;
  }

  lemma {:induction false} RefusalReached(m: Msg)
    requires Sendable(m)
    ensures Legal(ToRefusal(m)) && After(ToRefusal(m)).port == AfterRefusal(m)
  {
    hide Upto, ClassOf, Lowest, Popped, Head, Legal, After, Note;
    StartFree();
    FirstOnly(ClassOf(m));
    assert Legal([]) && After([]).port == START by {
      NothingYet();
    }
    var e0: seq<Event> := [];
    Extend(e0, Take(m));
    Extend(e0 + [Take(m)], Take(m));
    var two := e0 + [Take(m)] + [Take(m)];
    assert Upto(SLOTS)[1..][1..] == Upto(SLOTS)[2..];
    QueueOne(two, m);
    Extend(two + [Queue(0)], Commit);
    Extend(two + [Queue(0)] + [Commit], Refuse);
  }

  lemma {:induction false} NothingYet()
    ensures Legal([]) && After([]).port == START
  {
  }

  lemma {:induction false} QueueOne(evs: seq<Event>, m: Msg)
    requires Legal(evs)
    requires After(evs).port
             == START.(free := Upto(SLOTS)[2..], sending := multiset{0, 1}, msgs := map[0 := m, 1 := m])
    ensures Legal(evs + [Queue(0)])
    ensures After(evs + [Queue(0)]).port
            == START.(free := Upto(SLOTS)[2..], sending := multiset{1}, msgs := map[0 := m, 1 := m],
                      txq := EMPTY[ClassOf(m) := [0]])
  {
    hide Upto, ClassOf, Lowest, Legal, After, Note;
    Extend(evs, Queue(0));
    assert multiset{0, 1} - multiset{0} == multiset{1};
    assert forall i :: 0 <= i < CLASSES ==> EMPTY[i] == [];
    assert [] + [0] == [0];
  }

  lemma {:induction false} FirstOnly(c: nat)
    requires c < CLASSES
    ensures var q := EMPTY[c := [0]]; Lowest(q) == c && Head(q) == 0 && Popped(q) == EMPTY
  {
    var q := EMPTY[c := [0]];
    assert forall i :: 0 <= i < CLASSES ==> EMPTY[i] == [];
    assert q[c] == [0] && forall i :: 0 <= i < CLASSES && i != c ==> q[i] == [];
    assert Lowest(q) == c;
    assert [0][1..] == [];
    assert forall i :: 0 <= i < CLASSES ==> Popped(q)[i] == EMPTY[i];
  }

  /** A report for a frame the driver has just refused, and its slot is freed twice. */
  lemma {:induction false} LyingReportFreesTwice(m: Msg)
    requires Sendable(m)
    ensures Legal(ToRefusal(m))
    ensures var p := After(ToRefusal(m)).port;
            var told := p.(busy := false, isr := Freeing(0, true));
            var freed := told.(isr := Quiet, free := p.free + [0]);
            var unlocked := freed.(task := Dropping(0));
            && Enabled(p, Report(0, true)) && !Honest(p, Report(0, true)) && Step(p, Report(0, true)) == told
            && Enabled(told, Free) && Step(told, Free) == freed
            && Enabled(freed, Unlock) && Step(freed, Unlock) == unlocked
            && Enabled(unlocked, Drop) && Occurs(Step(unlocked, Drop).free, 0) == 2
  {
    hide Upto, Occurs, Legal, After;
    RefusalReached(m);
    StartFree();
    var rest := Upto(SLOTS)[2..];
    OccursAppend(rest, 0, 0);
    OccursAppend(rest + [0], 0, 0);
  }

  lemma {:induction false} StartFree()
    ensures |Upto(SLOTS)| == SLOTS && Upto(SLOTS)[0] == 0 && Upto(SLOTS)[1] == 1
    ensures Occurs(Upto(SLOTS)[2..], 0) == 0
  {
    hide Occurs;
    UptoOnce(SLOTS, 0);
    UptoAt(SLOTS, 0);
    UptoAt(SLOTS, 1);
    OccursTail(Upto(SLOTS), 0);
    OccursTail(Upto(SLOTS)[1..], 0);
    assert Upto(SLOTS)[1..][1..] == Upto(SLOTS)[2..];
  }

  lemma {:induction false} UptoAt(n: nat, i: nat)
    requires i < n
    ensures |Upto(n)| == n && Upto(n)[i] == i
  {
    if i < n - 1 {
      UptoAt(n - 1, i);
    } else {
      UptoOnce(n - 1, 0);
    }
  }
}
