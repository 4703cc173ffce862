/**
 A session's audio credit ledger: grants that may come before their stream, senders that
 block on an event until credit arrives, and the lifecycle calls that must wake them.

 A coroutine runs undisturbed between two awaits, so one pass of the consume loop is one
 step. An event object is a number; setting it resumes every task suspended on it, and a
 resumed task stays runnable whatever happens to the event afterwards.
 */
module CreditLedger {

  /** What a suspended task waits for. */
  datatype Wait = Wait(sid: int, ev: nat)

  datatype Ledger = Ledger(credits: map<int, int>, pending: map<int, int>, events: map<int, nat>,
                           waiting: map<nat, Wait>, nextStream: int, nextEvent: nat, live: bool)

  const FRESH := Ledger(map[], map[], map[], map[], 0, 0, false)

  function Get(m: map<int, int>, k: int): int {
    if k in m then m[k] else 0
  }

  /** The tasks still suspended after one event is set. */
  function Without(waiting: map<nat, Wait>, ev: nat): map<nat, Wait> {
    map w | w in waiting && waiting[w].ev != ev :: waiting[w]
  }

  function WithoutAny(waiting: map<nat, Wait>, evs: set<nat>): map<nat, Wait> {
    map w | w in waiting && waiting[w].ev !in evs :: waiting[w]
  }

  function Registered(events: map<int, nat>): set<nat> {
    set sid | sid in events :: events[sid]
  }

  datatype Outcome = Raised | Taken | Blocked

  function PollOutcome(l: Ledger, sid: int): Outcome {
    if !l.live then Raised else if Get(l.credits, sid) > 0 then Taken else Blocked
  }

  datatype Event =
    | Alloc
    | Grant(sid: int, n: int)
    | Poll(task: nat, sid: int)
    | Close(sid: int)
    | Attach
    | Detach
    | Cancel(task: nat)

  /** A suspended task does not run. */
  predicate Enabled(l: Ledger, e: Event) {
    e.Poll? ==> e.task !in l.waiting
  }

  function Granted(l: Ledger, sid: int, n: int): Ledger {
    var l' := if sid in l.credits then l.(credits := l.credits[sid := l.credits[sid] + n])
              else l.(pending := l.pending[sid := Get(l.pending, sid) + n]);
    if sid in l.events then l'.(waiting := Without(l.waiting, l.events[sid])) else l'
  }

  function Suspended(l: Ledger, task: nat, sid: int): Ledger {
    if sid in l.events then l.(waiting := l.waiting[task := Wait(sid, l.events[sid])])
    else l.(events := l.events[sid := l.nextEvent], nextEvent := l.nextEvent + 1,
            waiting := l.waiting[task := Wait(sid, l.nextEvent)])
  }

  function Polled(l: Ledger, task: nat, sid: int): Ledger {
    match PollOutcome(l, sid)
    case Raised => l
    case Taken => l.(credits := l.credits[sid := Get(l.credits, sid) - 1])
    case Blocked => Suspended(l, task, sid)
  }

  function Step(initial: int, l: Ledger, e: Event): Ledger {
    match e
    case Alloc =>
      var sid := l.nextStream + 1;
      l.(nextStream := sid, credits := l.credits[sid := initial + Get(l.pending, sid)], pending := l.pending - {sid})
    case Grant(sid, n) => if n <= 0 then l else Granted(l, sid, n)
    case Poll(task, sid) => Polled(l, task, sid)
    case Close(sid) => l.(credits := l.credits - {sid}, events := l.events - {sid})
    case Attach => l.(live := true)
    case Detach => l.(live := false, waiting := WithoutAny(l.waiting, Registered(l.events)))
    case Cancel(task) => l.(waiting := l.waiting - {task})
  }

  class Session {
    const initial: int
    var credits: map<int, int>
    var pending: map<int, int>
    var events: map<int, nat>
    var waiting: map<nat, Wait>
    var nextStream: int
    var nextEvent: nat
    var live: bool

    function View(): Ledger
      reads this
    {
      Ledger(credits, pending, events, waiting, nextStream, nextEvent, live)
    }

    constructor (initial: int)
      ensures View() == FRESH && this.initial == initial
    {
      this.initial := initial;
      credits, pending, events, waiting, nextStream, nextEvent, live := map[], map[], map[], map[], 0, 0, false;
    }

    method AllocStream() returns (sid: int)
      modifies this
      ensures View() == Step(initial, old(View()), Alloc) && sid == nextStream
    {
      nextStream := nextStream + 1;
      sid := nextStream;
      credits := credits[sid := initial + Get(pending, sid)];
      pending := pending - {sid};
    }

    method AddGrant(sid: int, n: int)
      modifies this
      ensures View() == Step(initial, old(View()), Grant(sid, n))
    {
      if n <= 0 {
        return;
      }
      if sid in credits {
        credits := credits[sid := credits[sid] + n];
      } else {
        pending := pending[sid := Get(pending, sid) + n];
      }
      if sid in events {
        waiting := Without(waiting, events[sid]);
      }
    }

    /** One pass of the consume loop, up to its return, its exception or its await. */
    method ConsumePass(task: nat, sid: int) returns (o: Outcome)
      requires task !in waiting
      modifies this
      ensures View() == Step(initial, old(View()), Poll(task, sid)) && o == PollOutcome(old(View()), sid)
    {
      if !live {
        return Raised;
      }
      if Get(credits, sid) > 0 {
        credits := credits[sid := credits[sid] - 1];
        return Taken;
      }
      if sid !in events {
        events := events[sid := nextEvent];
        nextEvent := nextEvent + 1;
      }
      waiting := waiting[task := Wait(sid, events[sid])];
      return Blocked;
    }

    method CloseStream(sid: int)
      modifies this
      ensures View() == Step(initial, old(View()), Close(sid))
    {
      credits := credits - {sid};
      events := events - {sid};
    }

    method AttachSocket()
      modifies this
      ensures View() == Step(initial, old(View()), Attach)
    {
      live := true;
    }

    method DetachSocket()
      modifies this
      ensures View() == Step(initial, old(View()), Detach)
    {
      live := false;
      waiting := WithoutAny(waiting, Registered(events));
    }

    /** Cancel every task of the session; a suspended one stops waiting. */
    method CancelTasks(tasks: seq<nat>)
      modifies this`waiting
      ensures View() == CancelAll(initial, old(View()), tasks)
    {
      for i := 0 to |tasks|
        invariant View() == CancelAll(initial, old(View()), tasks[..i])
      {
        assert tasks[..i + 1][..i] == tasks[..i];
        waiting := waiting - {tasks[i]};
      }
      assert tasks[..|tasks|] == tasks;
    }
  }

  /** One cancellation per task. */
  function CancelAll(initial: int, l: Ledger, tasks: seq<nat>): Ledger
    decreases |tasks|
  {
    if tasks == [] then l
    else Step(initial, CancelAll(initial, l, tasks[..|tasks| - 1]), Cancel(tasks[|tasks| - 1]))
  }

  // ---------------------------------------------------------------------------
  // Runs
  // ---------------------------------------------------------------------------

  predicate Legal(initial: int, evs: seq<Event>)
    decreases |evs|, 0
  {
    evs == [] || (Legal(initial, evs[..|evs| - 1]) && Enabled(After(initial, evs[..|evs| - 1]), evs[|evs| - 1]))
  }

  function After(initial: int, evs: seq<Event>): Ledger
    requires Legal(initial, evs)
    decreases |evs|, 1
  {
    if evs == [] then FRESH else Step(initial, After(initial, evs[..|evs| - 1]), evs[|evs| - 1])
  }

  /** Positive grants to a stream id, whenever they came. */
  function GrantSum(evs: seq<Event>, sid: int): nat
    decreases |evs|
  {
    if evs == [] then 0
    else
      var e := evs[|evs| - 1];
      GrantSum(evs[..|evs| - 1], sid) + if e.Grant? && e.sid == sid && e.n > 0 then e.n else 0
  }

  /** Credits senders took from a stream. */
  function TakenSum(initial: int, evs: seq<Event>, sid: int): nat
    requires Legal(initial, evs)
    decreases |evs|
  {
    if evs == [] then 0
    else
      var e, before := evs[|evs| - 1], evs[..|evs| - 1];
      TakenSum(initial, before, sid)
      + if e.Poll? && e.sid == sid && PollOutcome(After(initial, before), sid).Taken? then 1 else 0
  }

  // ---------------------------------------------------------------------------
  // Conservation
  // ---------------------------------------------------------------------------

  /** An open stream's books; a stream still to come only has its held grants. */
  predicate Balanced(initial: int, l: Ledger, sid: int, granted: nat, taken: nat) {
    && (sid in l.credits ==> sid <= l.nextStream && taken + l.credits[sid] == initial + granted)
    && (sid in l.credits ==> l.credits[sid] >= if initial < 0 then initial else 0)
    && (sid > l.nextStream ==> taken == 0 && Get(l.pending, sid) == granted)
  }

  lemma {:induction false} BalancedStep(initial: int, l: Ledger, e: Event, sid: int, granted: nat, taken: nat)
    requires Balanced(initial, l, sid, granted, taken)
    ensures Balanced(initial, Step(initial, l, e), sid,
                     granted + (if e.Grant? && e.sid == sid && e.n > 0 then e.n else 0),
                     taken + if e.Poll? && e.sid == sid && PollOutcome(l, sid).Taken? then 1 else 0)
  {
    hide Without, WithoutAny;
    if e.Poll? {
      hide Granted;
      PollBalanced(initial, l, e.task, e.sid, sid, granted, taken);
    } else if e.Grant? {
      hide Polled, PollOutcome;
    } else {
      hide Polled, PollOutcome, Granted;
    }
  }

  lemma {:induction false} PollBalanced(initial: int, l: Ledger, task: nat, from: int, sid: int, granted: nat, taken: nat)
    requires Balanced(initial, l, sid, granted, taken)
    ensures Balanced(initial, Polled(l, task, from), sid, granted,
                     taken + if from == sid && PollOutcome(l, sid).Taken? then 1 else 0)
  {
  }

  /**
   In every run, for every open stream: credits taken plus credits left equal the initial
   credits plus all positive grants to its id, early ones included.
   */
  lemma {:induction false} CreditsConserved(initial: int, evs: seq<Event>, sid: int)
    requires Legal(initial, evs)
    ensures Balanced(initial, After(initial, evs), sid, GrantSum(evs, sid), TakenSum(initial, evs, sid))
    decreases |evs|
  {
    hide Step, Balanced;
    if evs == [] {
      FreshBalanced(initial, sid);
    } else {
      var n := |evs| - 1;
      CreditsConserved(initial, evs[..n], sid);
      BalancedStep(initial, After(initial, evs[..n]), evs[n], sid, GrantSum(evs[..n], sid),
                   TakenSum(initial, evs[..n], sid));
    }
  }

  lemma {:induction false} FreshBalanced(initial: int, sid: int)
    ensures Balanced(initial, FRESH, sid, 0, 0)
  {
  }

  // ---------------------------------------------------------------------------
  // What a sender is answered
  // ---------------------------------------------------------------------------

  function Allocs(evs: seq<Event>): nat
    decreases |evs|
  {
    if evs == [] then 0 else Allocs(evs[..|evs| - 1]) + if evs[|evs| - 1].Alloc? then 1 else 0
  }

  ghost predicate NotClosed(evs: seq<Event>, from: nat, sid: int) {
    forall i :: from < i < |evs| ==> evs[i] != Close(sid)
  }

  /** The `sid`-th allocation has happened, and no close of that stream since. */
  ghost predicate Open(evs: seq<Event>, sid: int) {
    exists j :: 0 <= j < |evs| && Opens(evs, j, sid) && NotClosed(evs, j, sid)
  }

  predicate Opens(evs: seq<Event>, j: nat, sid: int) {
    j < |evs| && evs[j].Alloc? && Allocs(evs[..j]) + 1 == sid
  }

  ghost predicate NotDetached(evs: seq<Event>, from: nat) {
    forall i :: from < i < |evs| ==> !evs[i].Detach?
  }

  /** A socket was attached and not detached since. */
  ghost predicate Attached(evs: seq<Event>) {
    exists j :: 0 <= j < |evs| && evs[j].Attach? && NotDetached(evs, j)
  }

  lemma {:induction false} NotClosedStep(evs: seq<Event>, from: nat, sid: int)
    requires from < |evs| - 1
    ensures NotClosed(evs, from, sid) <==> NotClosed(evs[..|evs| - 1], from, sid) && evs[|evs| - 1] != Close(sid)
  {
    var n := |evs| - 1;
    if NotClosed(evs, from, sid) {
      forall i | from < i < n ensures evs[..n][i] != Close(sid) {
        assert evs[i] != Close(sid);
      }
    }
    if NotClosed(evs[..n], from, sid) && evs[n] != Close(sid) {
      forall i | from < i < |evs| ensures evs[i] != Close(sid) {
        assert i < n ==> evs[..n][i] != Close(sid);
      }
    }
  }

  lemma {:induction false} OpenStep(evs: seq<Event>, sid: int)
    requires evs != []
    ensures var n := |evs| - 1;
            Open(evs, sid) <==> Opens(evs, n, sid) || (evs[n] != Close(sid) && Open(evs[..n], sid))
  {
    hide NotClosed;
    var n := |evs| - 1;
    NewestNotClosed(evs, sid);
    forall j | 0 <= j < n
      ensures Opens(evs, j, sid) <==> Opens(evs[..n], j, sid)
      ensures NotClosed(evs, j, sid) <==> NotClosed(evs[..n], j, sid) && evs[n] != Close(sid)
    {
      assert evs[..n][..j] == evs[..j];
      NotClosedStep(evs, j, sid);
    }
    hide Opens;
    if Open(evs[..n], sid) && evs[n] != Close(sid) {
      var j :| 0 <= j < n && Opens(evs[..n], j, sid) && NotClosed(evs[..n], j, sid);
      assert Opens(evs, j, sid) && NotClosed(evs, j, sid);
    }
    if Open(evs, sid) && !Opens(evs, n, sid) {
      var j :| 0 <= j < |evs| && Opens(evs, j, sid) && NotClosed(evs, j, sid);
      assert Opens(evs[..n], j, sid) && NotClosed(evs[..n], j, sid);
    }
  }

  lemma {:induction false} NewestNotClosed(evs: seq<Event>, sid: int)
    requires evs != []
    ensures NotClosed(evs, |evs| - 1, sid) && NotDetached(evs, |evs| - 1)
  {
  }

  lemma {:induction false} NotDetachedStep(evs: seq<Event>, from: nat)
    requires from < |evs| - 1
    ensures NotDetached(evs, from) <==> NotDetached(evs[..|evs| - 1], from) && !evs[|evs| - 1].Detach?
  {
    var n := |evs| - 1;
    if NotDetached(evs, from) {
      forall i | from < i < n ensures !evs[..n][i].Detach? {
        assert !evs[i].Detach?;
      }
    }
    if NotDetached(evs[..n], from) && !evs[n].Detach? {
      forall i | from < i < |evs| ensures !evs[i].Detach? {
        assert i < n ==> !evs[..n][i].Detach?;
      }
    }
  }

  lemma {:induction false} AttachedStep(evs: seq<Event>)
    requires evs != []
    ensures var n := |evs| - 1;
            Attached(evs) <==> evs[n].Attach? || (!evs[n].Detach? && Attached(evs[..n]))
  {
    hide NotDetached;
    var n := |evs| - 1;
    NewestNotClosed(evs, 0);
    forall j | 0 <= j < n ensures NotDetached(evs, j) <==> NotDetached(evs[..n], j) && !evs[n].Detach? {
      NotDetachedStep(evs, j);
    }
    if Attached(evs[..n]) && !evs[n].Detach? {
      var j :| 0 <= j < n && evs[..n][j].Attach? && NotDetached(evs[..n], j);
      assert evs[j].Attach? && NotDetached(evs, j);
    }
    if Attached(evs) && !evs[n].Attach? {
      var j :| 0 <= j < |evs| && evs[j].Attach? && NotDetached(evs, j);
      assert evs[..n][j].Attach? && NotDetached(evs[..n], j);
    }
  }

  /** Streams are numbered 1, 2, 3 and so on; the ledger holds exactly the open ones, and no grant back from those. */
  lemma {:induction false} LedgerMatchesHistory(initial: int, evs: seq<Event>, sid: int)
    requires Legal(initial, evs)
    ensures var l := After(initial, evs);
            && l.nextStream == Allocs(evs)
            && (sid in l.credits <==> Open(evs, sid))
            && (sid in l.credits ==> sid <= l.nextStream && sid !in l.pending)
            && (l.live <==> Attached(evs))
    decreases |evs|
  {
    hide Open, Attached, Opens, Without, WithoutAny;
    if evs == [] {
      NothingOpen(sid);
    } else {
      var n := |evs| - 1;
      LedgerMatchesHistory(initial, evs[..n], sid);
      OpenStep(evs, sid);
      AttachedStep(evs);
      OpensLast(evs, sid);
      HistoryStep(initial, After(initial, evs[..n]), evs[n], sid);
    }
  }

  lemma {:induction false} NothingOpen(sid: int)
    ensures !Open([], sid) && !Attached([])
  {
  }

  lemma {:induction false} OpensLast(evs: seq<Event>, sid: int)
    requires evs != []
    ensures Opens(evs, |evs| - 1, sid) <==> evs[|evs| - 1].Alloc? && Allocs(evs[..|evs| - 1]) + 1 == sid
  {
  }

  lemma {:induction false} HistoryStep(initial: int, l: Ledger, e: Event, sid: int)
    requires sid in l.credits ==> sid <= l.nextStream && sid !in l.pending
    ensures var l' := Step(initial, l, e);
            && l'.nextStream == l.nextStream + (if e.Alloc? then 1 else 0)
            && (sid in l'.credits <==> (e.Alloc? && sid == l.nextStream + 1) || (e != Close(sid) && sid in l.credits))
            && (sid in l'.credits ==> sid <= l'.nextStream && sid !in l'.pending)
            && (l'.live <==> e.Attach? || (!e.Detach? && l.live))
  {
    hide Without, WithoutAny;
    if e.Poll? {
      hide Granted;
      PollKeepsStreams(l, e.task, e.sid);
    } else if e.Grant? {
      hide Polled;
    } else {
      hide Polled, Granted;
    }
  }

  lemma {:induction false} PollKeepsStreams(l: Ledger, task: nat, from: int)
    ensures var l' := Polled(l, task, from);
            && l'.credits.Keys == l.credits.Keys && l'.pending == l.pending
            && l'.nextStream == l.nextStream && l'.live == l.live
  {
  }

  /**
   What a pass of the consume loop does, from the history alone: it raises while no socket
   is attached, takes a credit if the stream is open and has any left of its initial ones
   and its grants, and blocks otherwise; a closed stream never yields again.
   */
  lemma {:induction false} PollExact(initial: int, evs: seq<Event>, sid: int)
    requires Legal(initial, evs)
    ensures var o := PollOutcome(After(initial, evs), sid);
            && (o == Raised <==> !Attached(evs))
            && (o == Taken <==> Attached(evs) && Open(evs, sid)
                                && initial + GrantSum(evs, sid) > TakenSum(initial, evs, sid))
  {
    hide Open, Attached, After, GrantSum, TakenSum;
    LedgerMatchesHistory(initial, evs, sid);
    CreditsConserved(initial, evs, sid);
  }

  // ---------------------------------------------------------------------------
  // Wake-ups
  // ---------------------------------------------------------------------------

  /** The event a task waits on is the one its stream's next grant will set. */
  predicate Reachable(l: Ledger, w: Wait) {
    w.sid in l.events && l.events[w.sid] == w.ev
  }

  /** Blocked for a reason, and within reach of the call that ends it. */
  predicate Justified(l: Ledger, w: Wait) {
    l.live && Get(l.credits, w.sid) <= 0 && Reachable(l, w)
  }

  ghost predicate Settled(l: Ledger) {
    forall t :: t in l.waiting ==> Justified(l, l.waiting[t])
  }

  /** Event numbers are never reused and belong to one stream. */
  ghost predicate Numbered(l: Ledger) {
    && (forall sid :: sid in l.events ==> l.events[sid] < l.nextEvent)
    && (forall t :: t in l.waiting ==> l.waiting[t].ev < l.nextEvent)
    && (forall sid, t :: sid in l.events && t in l.waiting && l.waiting[t].ev == l.events[sid] ==>
          l.waiting[t].sid == sid)
    && (forall a, b :: a in l.events && b in l.events && l.events[a] == l.events[b] ==> a == b)
  }

  predicate WaitsFor(l: Ledger, sid: int) {
    exists t :: t in l.waiting && l.waiting[t].sid == sid
  }

  /** The two calls that leave a blocked sender behind. */
  predicate Strands(initial: int, l: Ledger, e: Event) {
    || (e.Close? && WaitsFor(l, e.sid))
    || (e.Alloc? && WaitsFor(l, l.nextStream + 1) && initial + Get(l.pending, l.nextStream + 1) > 0)
  }

  lemma {:induction false} NumberedStep(initial: int, l: Ledger, e: Event)
    requires Numbered(l)
    ensures Numbered(Step(initial, l, e))
  {
    hide Numbered, Suspended;
    if e.Poll? && PollOutcome(l, e.sid).Blocked? {
      SuspendNumbered(l, e.task, e.sid);
    } else {
      NumberedShrinks(l, Step(initial, l, e));
    }
  }

  /** Forgetting events and waking tasks cannot mix the numbers up. */
  lemma {:induction false} NumberedShrinks(l: Ledger, l': Ledger)
    requires Numbered(l) && l'.nextEvent == l.nextEvent
    requires forall sid :: sid in l'.events ==> sid in l.events && l'.events[sid] == l.events[sid]
    requires forall t :: t in l'.waiting ==> t in l.waiting && l'.waiting[t] == l.waiting[t]
    ensures Numbered(l')
  {
  }

  lemma {:induction false} SuspendNumbered(l: Ledger, task: nat, sid: int)
    requires Numbered(l)
    ensures Numbered(Suspended(l, task, sid))
  {
    if sid in l.events {
      WaitNumbered(l, task, sid);
    } else {
      var named := l.(events := l.events[sid := l.nextEvent], nextEvent := l.nextEvent + 1);
      assert Numbered(named);
      hide Numbered;
      WaitNumbered(named, task, sid);
    }
  }

  lemma {:induction false} WaitNumbered(l: Ledger, task: nat, sid: int)
    requires Numbered(l) && sid in l.events
    ensures Numbered(l.(waiting := l.waiting[task := Wait(sid, l.events[sid])]))
  {
  }

  lemma {:induction false} AlwaysNumbered(initial: int, evs: seq<Event>)
    requires Legal(initial, evs)
    ensures Numbered(After(initial, evs))
    decreases |evs|
  {
    hide Numbered, Step;
    if evs == [] {
      FreshNumbered();
    } else {
      AlwaysNumbered(initial, evs[..|evs| - 1]);
      NumberedStep(initial, After(initial, evs[..|evs| - 1]), evs[|evs| - 1]);
    }
  }

  lemma {:induction false} FreshNumbered()
    ensures Numbered(FRESH) && Settled(FRESH)
  {
  }

  /** One step keeps every blocked sender justified exactly when it strands none. */
  lemma {:induction false} SettledStep(initial: int, l: Ledger, e: Event)
    requires Settled(l) && Numbered(l) && Enabled(l, e)
    ensures Settled(Step(initial, l, e)) <==> !Strands(initial, l, e)
  {
    var l' := Step(initial, l, e);
    if Strands(initial, l, e) {
      var sid := if e.Close? then e.sid else l.nextStream + 1;
      var t :| t in l.waiting && l.waiting[t].sid == sid;
      assert t in l'.waiting && !Justified(l', l'.waiting[t]);
    } else {
      forall t | t in l'.waiting ensures Justified(l', l'.waiting[t]) {
        KeptJustified(initial, l, e, t);
      }
    }
  }

  lemma {:induction false} KeptJustified(initial: int, l: Ledger, e: Event, t: nat)
    requires Settled(l) && Numbered(l) && Enabled(l, e) && !Strands(initial, l, e)
    requires t in Step(initial, l, e).waiting
    ensures Justified(Step(initial, l, e), Step(initial, l, e).waiting[t])
  {
    hide Numbered, WithoutAny;
    assert t in l.waiting ==> Justified(l, l.waiting[t]);
    match e {
      case Close(sid) =>
        hide Granted, Polled;
        assert l.waiting[t].sid != sid;
      case Alloc =>
        hide Granted, Polled;
        if initial + Get(l.pending, l.nextStream + 1) > 0 {
          assert l.waiting[t].sid != l.nextStream + 1;
        }
      case Detach =>
        hide Granted, Polled;
        DetachWakes(l);
      case Grant(sid, n) =>
        hide Granted, Polled, Justified;
        if n > 0 {
          GrantKeeps(l, sid, n, t);
        }
      case Poll(task, sid) =>
        hide Granted, Polled, Justified;
        PollKeeps(l, task, sid, t);
      case _ =>
        hide Granted, Polled;
    }
  }

  lemma {:induction false} GrantKeeps(l: Ledger, sid: int, n: int, t: nat)
    requires n > 0 && t in Granted(l, sid, n).waiting && (t in l.waiting ==> Justified(l, l.waiting[t]))
    ensures Justified(Granted(l, sid, n), Granted(l, sid, n).waiting[t])
  {
  }

  lemma {:induction false} PollKeeps(l: Ledger, task: nat, sid: int, t: nat)
    requires t in Polled(l, task, sid).waiting && (t in l.waiting ==> Justified(l, l.waiting[t]))
    ensures Justified(Polled(l, task, sid), Polled(l, task, sid).waiting[t])
  {
  }

  /** Setting every registered event resumes each task within its reach. */
  lemma {:induction false} DetachWakes(l: Ledger)
    requires Settled(l)
    ensures WithoutAny(l.waiting, Registered(l.events)) == map[]
  {
    forall t | t in l.waiting ensures l.waiting[t].ev in Registered(l.events) {
      assert Justified(l, l.waiting[t]);
    }
  }

  lemma {:induction false} LegalPrefix(initial: int, evs: seq<Event>, n: nat)
    requires Legal(initial, evs) && n <= |evs|
    ensures Legal(initial, evs[..n])
    decreases |evs|
  {
    hide Enabled;
    if n == |evs| {
      assert evs[..n] == evs;
    } else {
      LegalPrefix(initial, evs[..|evs| - 1], n);
      assert evs[..|evs| - 1][..n] == evs[..n];
    }
  }

  function At(initial: int, evs: seq<Event>, n: nat): Ledger
    requires Legal(initial, evs) && n <= |evs|
  {
    LegalPrefix(initial, evs, n);
    After(initial, evs[..n])
  }

  lemma {:induction false} AtNext(initial: int, evs: seq<Event>, n: nat)
    requires Legal(initial, evs) && n < |evs|
    ensures Enabled(At(initial, evs, n), evs[n])
    ensures At(initial, evs, n + 1) == Step(initial, At(initial, evs, n), evs[n])
  {
    hide Enabled, Step;
    LegalPrefix(initial, evs, n + 1);
    assert evs[..n + 1][..n] == evs[..n];
  }

  /**
   No wake-up is ever lost in a run if and only if the run never closes a stream someone
   is blocked on and never allocates one, with credit, that someone already waits for.
   */
  lemma {:induction false} NoLostWakeUps(initial: int, evs: seq<Event>)
    requires Legal(initial, evs)
    ensures (forall n: nat :: n <= |evs| ==> Settled(At(initial, evs, n)))
            <==> (forall n: nat :: n < |evs| ==> !Strands(initial, At(initial, evs, n), evs[n]))
  {
    hide At, Settled, Strands, Numbered, Step, Enabled, Legal;
    if forall n: nat :: n <= |evs| ==> Settled(At(initial, evs, n)) {
      forall n: nat | n < |evs| ensures !Strands(initial, At(initial, evs, n), evs[n]) {
        AtNumbered(initial, evs, n);
        AtNext(initial, evs, n);
        assert Settled(At(initial, evs, n)) && Settled(At(initial, evs, n + 1));
        SettledStep(initial, At(initial, evs, n), evs[n]);
      }
    }
    if forall n: nat :: n < |evs| ==> !Strands(initial, At(initial, evs, n), evs[n]) {
      forall n: nat | n <= |evs| ensures Settled(At(initial, evs, n)) {
        SettledThrough(initial, evs, n);
      }
    }
  }

  lemma {:induction false} AtNumbered(initial: int, evs: seq<Event>, n: nat)
    requires Legal(initial, evs) && n <= |evs|
    ensures Numbered(At(initial, evs, n))
  {
    hide Numbered, After;
    LegalPrefix(initial, evs, n);
    AlwaysNumbered(initial, evs[..n]);
  }

  lemma {:induction false} SettledThrough(initial: int, evs: seq<Event>, n: nat)
    requires Legal(initial, evs) && n <= |evs|
    requires forall i: nat :: i < |evs| ==> !Strands(initial, At(initial, evs, i), evs[i])
    ensures Settled(At(initial, evs, n))
    decreases n
  {
    hide At, Settled, Strands, Numbered, Step, Enabled, Legal;
    if n == 0 {
      AtStart(initial, evs);
      FreshNumbered();
    } else {
      SettledThrough(initial, evs, n - 1);
      AtNumbered(initial, evs, n - 1);
      AtNext(initial, evs, n - 1);
      SettledStep(initial, At(initial, evs, n - 1), evs[n - 1]);
    }
  }

  lemma {:induction false} AtStart(initial: int, evs: seq<Event>)
    requires Legal(initial, evs)
    ensures At(initial, evs, 0) == FRESH
  {
  }

  // ---------------------------------------------------------------------------
  // What becomes of a stranded sender
  // ---------------------------------------------------------------------------

  /** A task suspended on an event no stream owns any more. */
  predicate Orphan(l: Ledger, t: nat, w: Wait) {
    t in l.waiting && l.waiting[t] == w && w.ev < l.nextEvent && forall sid :: sid in l.events ==> l.events[sid] != w.ev
  }

  function Continue(initial: int, l: Ledger, evs: seq<Event>): Ledger
    decreases |evs|
  {
    if evs == [] then l else Step(initial, Continue(initial, l, evs[..|evs| - 1]), evs[|evs| - 1])
  }

  /** Closing a stream under a blocked sender orphans it. */
  lemma {:induction false} CloseOrphans(initial: int, l: Ledger, t: nat)
    requires Numbered(l) && t in l.waiting
    ensures Orphan(Step(initial, l, Close(l.waiting[t].sid)), t, l.waiting[t])
  {
    var w := l.waiting[t];
    var l' := Step(initial, l, Close(w.sid));
    forall sid | sid in l'.events ensures l'.events[sid] != w.ev {
      assert sid in l.events && sid != w.sid && l'.events[sid] == l.events[sid];
    }
  }

  lemma {:induction false} OrphanStep(initial: int, l: Ledger, e: Event, t: nat, w: Wait)
    requires Orphan(l, t, w) && Enabled(l, e)
    ensures Orphan(Step(initial, l, e), t, w) <==> e != Cancel(t)
  {
    if e.Detach? {
      assert w.ev !in Registered(l.events);
    } else if e.Poll? {
      hide Granted;
    }
  }

  ghost predicate ContinuesLegally(initial: int, l: Ledger, evs: seq<Event>)
    decreases |evs|
  {
    evs == [] ||
    (&& ContinuesLegally(initial, l, evs[..|evs| - 1])
     && Enabled(Continue(initial, l, evs[..|evs| - 1]), evs[|evs| - 1]))
  }

  /**
   An orphan waits on through any continuation, grants and even a detach included, exactly
   until its own task is cancelled.
   */
  lemma {:induction false} OrphanWaitsUntilCancelled(initial: int, l: Ledger, evs: seq<Event>, t: nat, w: Wait)
    requires Orphan(l, t, w) && ContinuesLegally(initial, l, evs)
    requires forall i :: 0 <= i < |evs| - 1 ==> evs[i] != Cancel(t)
    ensures Orphan(Continue(initial, l, evs), t, w) <==> evs == [] || evs[|evs| - 1] != Cancel(t)
    decreases |evs|
  {
    hide Orphan, Step, Enabled;
    if evs == [] {
    } else {
      var n := |evs| - 1;
      OrphanWaitsUntilCancelled(initial, l, evs[..n], t, w);
      OrphanStep(initial, Continue(initial, l, evs[..n]), evs[n], t, w);
    }
  }

  lemma {:induction false} Extend(initial: int, evs: seq<Event>, e: Event)
    requires Legal(initial, evs) && Enabled(After(initial, evs), e)
    ensures Legal(initial, evs + [e]) && After(initial, evs + [e]) == Step(initial, After(initial, evs), e)
  {
    hide Enabled, Step;
    assert (evs + [e])[..|evs|] == evs;
  }

  lemma {:induction false} NothingYet(initial: int)
    ensures Legal(initial, []) && After(initial, []) == FRESH
  {
  }

  /** A stream without credit, a sender blocked on it, the stream closed, the socket gone. */
  function Abandoned(): seq<Event> {
    [] + [Attach] + [Alloc] + [Poll(0, 1)] + [Close(1)] + [Detach]
  }

  /** A run from a fresh session that leaves a sender blocked on a dead socket. */
  lemma {:induction false} ClosedSenderStranded()
    ensures Legal(0, Abandoned())
    ensures var l := After(0, Abandoned()); !l.live && Orphan(l, 0, Wait(1, 0))
  {
    hide Legal, After;
    NothingYet(0);
    var e0: seq<Event> := [];
    Extend(0, e0, Attach);
    Extend(0, e0 + [Attach], Alloc);
    Extend(0, e0 + [Attach] + [Alloc], Poll(0, 1));
    var e3 := e0 + [Attach] + [Alloc] + [Poll(0, 1)];
    assert After(0, e3) == Ledger(map[1 := 0], map[], map[1 := 0], map[0 := Wait(1, 0)], 1, 1, true);
    Extend(0, e3, Close(1));
    assert Orphan(After(0, e3 + [Close(1)]), 0, Wait(1, 0));
    Extend(0, e3 + [Close(1)], Detach);
    OrphanStep(0, After(0, e3 + [Close(1)]), Detach, 0, Wait(1, 0));
  }

  /** A sender that starts before its stream is allocated stays blocked with credit to spend. */
  lemma {:induction false} EarlySenderStranded(initial: int)
    requires initial > 0
    ensures Legal(initial, [Attach, Poll(0, 1), Alloc])
    ensures var l := After(initial, [Attach, Poll(0, 1), Alloc]);
            l.live && 0 in l.waiting && l.waiting[0].sid == 1 && Get(l.credits, 1) == initial
  {
    var e0: seq<Event>, e1, e2, e3 := [], [Attach], [Attach, Poll(0, 1)], [Attach, Poll(0, 1), Alloc];
    assert e1[..0] == e0 && e2[..1] == e1 && e3[..2] == e2;
    assert Legal(initial, e1) && After(initial, e1) == Step(initial, FRESH, Attach);
    assert Legal(initial, e2) && After(initial, e2) == Step(initial, After(initial, e1), Poll(0, 1));
  }
}
