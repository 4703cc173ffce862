/**
 The uplink as a state machine. Producers push while one pump task turns the queue
 into frames, two transfer slots deep, and the orchestrator clocks the armed slots out
 in order; the events are the points where these can interleave.
 */
module SpiLink {
  import opened Crc16
  import opened SpiBridge
  import opened SpiFrame
  import opened WireTypes
  import FrameParser

  datatype Pump =
    | Waiting
    | Draining(recs: seq<Record>)
    | Drained(recs: seq<Record>)
    | Flagged(recs: seq<Record>, flags: Bits8)
    | Looked(recs: seq<Record>, flags: Bits8)

  datatype Batch = Batch(flags: Bits8, seqNo: Bits8, recs: seq<Record>)

  /**
   `armed` are the slots waiting to be clocked, `done` those waiting for the pump;
   `unnoted` counts producers whose send has failed and who have not noted it yet.
   */
  datatype Hub = Hub(queue: seq<Record>, sticky: Bits8, unnoted: nat, overflow: bool, txSeq: Bits8,
                     armed: seq<Batch>, done: nat, pump: Pump,
                     pi: FrameParser.Link, received: seq<Record>)

  datatype Event =
    | Push(rec: Record)
    | Note
    | SetFlag(flag: Bits8, on: bool)
    | Pick
    | Drain
    | DrainEnd
    | TakeFlags
    | Look
    | Arm
    | Transfer(got: seq<Bits8>)
    | Underrun(got: seq<Bits8>)

  /** Both slots still have to be filled for the first time. */
  const START := Hub([], 0, 0, false, 0, [], 2, Waiting, FrameParser.LINK_INITIAL, [])

  /** A transfer arrives meaning what was sent, or is rejected. */
  ghost predicate Carried(sent: Batch, got: seq<Bits8>) {
    |sent.recs| <= MAX_RECORDS &&
    (Parse(got) == Parse(Frame(sent.flags, sent.seqNo, sent.recs)) || !Parse(got).Ok?)
  }

  ghost predicate Enabled(h: Hub, e: Event) {
    match e
    case Push(_) => true
    case Note => h.unnoted > 0
    case SetFlag(_, _) => true
    case Pick => h.pump.Waiting? && h.done > 0
    case Drain => h.pump.Draining? && |h.pump.recs| < MAX_RECORDS && h.queue != []
    case DrainEnd => h.pump.Draining? && (|h.pump.recs| == MAX_RECORDS || h.queue == [])
    case TakeFlags => h.pump.Drained?
    case Look => h.pump.Flagged?
    case Arm => h.pump.Looked?
    case Transfer(got) => h.armed != [] && Carried(h.armed[0], got)
    case Underrun(got) => h.armed == [] && !Parse(got).Ok?
  }

  predicate Refuses(cap: nat, h: Hub, e: Event) {
    e.Push? && |h.queue| >= cap
  }

  ghost function Step(cap: nat, h: Hub, e: Event): Hub
    requires Enabled(h, e)
  {
    match e
    case Push(rec) => if Refuses(cap, h, e) then h.(unnoted := h.unnoted + 1) else h.(queue := h.queue + [rec])
    case Note => h.(unnoted := h.unnoted - 1, overflow := true)
    case SetFlag(flag, on) => h.(sticky := Switched(h.sticky, flag, on))
    case Pick => h.(done := h.done - 1, pump := Draining([]))
    case Drain => h.(queue := h.queue[1..], pump := Draining(h.pump.recs + [h.queue[0]]))
    case DrainEnd => h.(pump := Drained(h.pump.recs))
    case TakeFlags => h.(overflow := false, pump := Flagged(h.pump.recs, WithOverflow(h.sticky, h.overflow)))
    case Look => h.(pump := Looked(h.pump.recs, WithMore(h.pump.flags, |h.queue| > 0)))
    case Arm =>
      h.(armed := h.armed + [Batch(h.pump.flags, h.txSeq, h.pump.recs)],
         txSeq := FrameParser.Next(h.txSeq), pump := Waiting)
    case Transfer(got) =>
      var r := FrameParser.ParseStep(h.pi, got);
      h.(armed := h.armed[1..], done := h.done + 1, pi := r.link,
         received := h.received + if r.outcome.Got? then r.outcome.records else [])
    case Underrun(got) => h.(pi := FrameParser.ParseStep(h.pi, got).link)
  }

  function Init<T>(s: seq<T>): seq<T>
    requires s != []
  {
    s[..|s| - 1]
  }

  function Last<T>(s: seq<T>): T
    requires s != []
  {
    s[|s| - 1]
  }

  ghost predicate Legal(cap: nat, evs: seq<Event>)
    decreases |evs|, 0
  {
    evs == [] || (Legal(cap, Init(evs)) && Enabled(After(cap, Init(evs)), Last(evs)))
  }

  ghost function After(cap: nat, evs: seq<Event>): Hub
    requires Legal(cap, evs)
    decreases |evs|, 1
  {
    if evs == [] then START else Step(cap, After(cap, Init(evs)), Last(evs))
  }

  // ---------------------------------------------------------------------------
  // What a run did, read off its events
  // ---------------------------------------------------------------------------

  /** Records the uplink queue took in. */
  ghost function Accepted(cap: nat, evs: seq<Event>): seq<Record>
    requires Legal(cap, evs)
    decreases |evs|
  {
    if evs == [] then []
    else
      var e := Last(evs);
      Accepted(cap, Init(evs)) +
      if e.Push? && !Refuses(cap, After(cap, Init(evs)), e) then [e.rec] else []
  }

  /** The frame an event arms and the buffer it shows the orchestrator, if any. */
  function Arms(h: Hub, e: Event): seq<Batch>
    requires e.Arm? ==> h.pump.Looked?
  {
    if e.Arm? then [Batch(h.pump.flags, h.txSeq, h.pump.recs)] else []
  }

  function Shows(e: Event): seq<seq<Bits8>> {
    if e.Transfer? then [e.got] else []
  }

  /** Buffers the orchestrator was shown for armed frames. */
  ghost function Seen(evs: seq<Event>): seq<seq<Bits8>>
    decreases |evs|
  {
    if evs == [] then [] else Seen(Init(evs)) + Shows(Last(evs))
  }

  /** Frames the pump armed. */
  ghost function Built(cap: nat, evs: seq<Event>): seq<Batch>
    requires Legal(cap, evs)
    decreases |evs|
  {
    if evs == [] then []
    else
      var h := After(cap, Init(evs));
      Built(cap, Init(evs)) + Arms(h, Last(evs))
  }

  function Records(bs: seq<Batch>): seq<Record>
    decreases |bs|
  {
    if bs == [] then [] else Records(Init(bs)) + Last(bs).recs
  }

  /** Records of those sent frames whose transfer was accepted. */
  ghost function Intact(sent: seq<Batch>, seen: seq<seq<Bits8>>): seq<Record>
    requires |sent| == |seen|
    decreases |sent|
  {
    if sent == [] then []
    else Intact(Init(sent), Init(seen)) + if Parse(Last(seen)).Ok? then Last(sent).recs else []
  }

  function InHand(p: Pump): seq<Record> {
    if p.Waiting? then [] else p.recs
  }

  /** What a header reading must report. */
  datatype Notice = Notice(sticky: Bits8, noted: bool)

  /** Some producer noted a refusal after the last header reading. */
  ghost predicate NotedSince(evs: seq<Event>) {
    exists j :: 0 <= j < |evs| && evs[j].Note? && NoReading(evs, j)
  }

  /** Some push was refused after the last header reading. */
  ghost predicate RefusedSince(cap: nat, evs: seq<Event>)
    requires Legal(cap, evs)
  {
    exists j :: 0 <= j < |evs| && RefusedAt(cap, evs, j) && NoReading(evs, j)
  }

  ghost predicate NoReading(evs: seq<Event>, from: nat) {
    forall i :: from < i < |evs| ==> !evs[i].TakeFlags?
  }

  ghost predicate RefusedAt(cap: nat, evs: seq<Event>, j: nat)
    requires Legal(cap, evs)
  {
    j < |evs| && Legal(cap, evs[..j]) && Refuses(cap, After(cap, evs[..j]), evs[j])
  }

  ghost function Notices(cap: nat, evs: seq<Event>): seq<Notice>
    requires Legal(cap, evs)
    decreases |evs|
  {
    if evs == [] then []
    else
      Notices(cap, Init(evs)) +
      if Last(evs).TakeFlags? then [Notice(After(cap, Init(evs)).sticky, NotedSince(Init(evs)))] else []
  }

  lemma {:induction false} DeliverableConcat(a: seq<Record>, b: seq<Record>)
    ensures Deliverable(a + b) == Deliverable(a) + Deliverable(b)
    decreases |b|
  {
    if b == [] {
      assert a + b == a;
    } else {
      DeliverableConcat(a, b[..|b| - 1]);
      assert (a + b)[..|a + b| - 1] == a + b[..|b| - 1];
    }
  }

  lemma {:induction false} RecordsConcat(a: seq<Batch>, b: seq<Batch>)
    ensures Records(a + b) == Records(a) + Records(b)
    decreases |b|
  {
    if b == [] {
      assert a + b == a;
    } else {
      RecordsConcat(a, Init(b));
      assert Init(a + b) == a + Init(b) && Last(a + b) == Last(b);
      assert Records(a + b) == Records(a + Init(b)) + Last(b).recs;
      assert Records(a) + Records(Init(b)) + Last(b).recs == Records(a) + (Records(Init(b)) + Last(b).recs);
    }
  }

  /** Every corruption the frame check is proved to catch is one this link allows for. */
  lemma {:induction false} BurstsAreCarried(sent: Batch, got: seq<Bits8>, cov': seq<Bits8>, at: nat)
    requires |sent.recs| <= MAX_RECORDS
    requires var buf := Frame(sent.flags, sent.seqNo, sent.recs);
             Parse(buf).Ok? && Tampered(buf, got, cov') && Burst(Bits(Covered(buf)), Bits(cov'), at)
    ensures Carried(sent, got)
  {
    hide Frame, Parse, Tampered, Covered, Bits, Burst;
    BurstRejected(Frame(sent.flags, sent.seqNo, sent.recs), got, cov', at);
  }

  /** The two slots are always accounted for, and nothing outgrows its bound. */
  ghost predicate Sound(cap: nat, h: Hub) {
    && |h.armed| + h.done + (if h.pump.Waiting? then 0 else 1) == 2
    && |h.queue| <= cap
    && h.sticky & STICKY == h.sticky
    && |InHand(h.pump)| <= MAX_RECORDS
    && (forall i :: 0 <= i < |h.armed| ==> |h.armed[i].recs| <= MAX_RECORDS)
  }

  lemma {:induction false} StepSound(cap: nat, h: Hub, e: Event)
    requires Sound(cap, h) && Enabled(h, e)
    ensures Sound(cap, Step(cap, h, e))
  {
    hide Carried, Switched, WithOverflow, WithMore, FrameParser.ParseStep, FrameParser.Next;
    if e.SetFlag? {
      SwitchedSticky(h.sticky, e.flag, e.on);
    }
  }

  lemma {:induction false} AlwaysSound(cap: nat, evs: seq<Event>)
    requires Legal(cap, evs)
    ensures Sound(cap, After(cap, evs))
    decreases |evs|
  {
    hide Enabled, Step, Sound;
    if evs == [] {
      StartSound(cap);
    } else {
      AlwaysSound(cap, Init(evs));
      StepSound(cap, After(cap, Init(evs)), Last(evs));
    }
  }

  lemma {:induction false} StartSound(cap: nat)
    ensures Sound(cap, START)
  {
  }

  // ---------------------------------------------------------------------------
  // No record lost, repeated or reordered
  // ---------------------------------------------------------------------------

  /** Every accepted record is in a built frame, in the pump's hands or still queued, in order. */
  lemma {:induction false} StreamKept(cap: nat, evs: seq<Event>)
    requires Legal(cap, evs)
    ensures var h := After(cap, evs);
            Accepted(cap, evs) == Records(Built(cap, evs)) + InHand(h.pump) + h.queue
    decreases |evs|
  {
    if evs == [] {
    } else {
      StreamKept(cap, Init(evs));
      StreamStep(cap, After(cap, Init(evs)), Last(evs), Built(cap, Init(evs)), Accepted(cap, Init(evs)));
    }
  }

  lemma {:induction false} StreamStep(cap: nat, h: Hub, e: Event, built: seq<Batch>, accepted: seq<Record>)
    requires Enabled(h, e)
    requires accepted == Records(built) + InHand(h.pump) + h.queue
    ensures var h' := Step(cap, h, e);
            var built' := built + Arms(h, e);
            accepted + (if e.Push? && !Refuses(cap, h, e) then [e.rec] else [])
            == Records(built') + InHand(h'.pump) + h'.queue
  {
    hide Carried, Switched, WithOverflow, WithMore, FrameParser.ParseStep, FrameParser.Next;
    hide Records;
    var past := Records(built);
    if e.Arm? {
      RecordsConcat(built, Arms(h, e));
      OneBatch(Arms(h, e)[0]);
      assert past + h.pump.recs + [] + h.queue == past + h.pump.recs + h.queue;
    } else {
      assert built + Arms(h, e) == built;
      if e.Drain? {
        DrainRegroups(past, h.pump.recs, h.queue);
      } else if e.Push? {
        assert past + InHand(h.pump) + h.queue + [e.rec] == past + InHand(h.pump) + (h.queue + [e.rec]);
      }
    }
  }

  lemma {:induction false} OneBatch(b: Batch)
    ensures Records([b]) == b.recs
  {
    assert Init([b]) == [];
  }

  lemma {:induction false} DrainRegroups<T>(past: seq<T>, hand: seq<T>, queue: seq<T>)
    requires queue != []
    ensures past + hand + queue == past + (hand + [queue[0]]) + queue[1..]
  {
  }

  /** Frames leave in the order they were built, numbered by a wrapping counter. */
  ghost predicate Ordered(h: Hub, built: seq<Batch>, seen: seq<seq<Bits8>>) {
    && |built| == |seen| + |h.armed|
    && built[|seen|..] == h.armed
    && h.txSeq == FrameParser.SeqOf(|built|)
    && (forall i :: 0 <= i < |built| ==> Numbered(built, i))
    && (forall i :: 0 <= i < |seen| ==> Carried(built[i], seen[i]))
  }

  predicate Numbered(built: seq<Batch>, i: nat)
    requires i < |built|
  {
    |built[i].recs| <= MAX_RECORDS && built[i].seqNo == FrameParser.SeqOf(i)
  }

  lemma {:induction false} AlwaysOrdered(cap: nat, evs: seq<Event>)
    requires Legal(cap, evs)
    ensures Ordered(After(cap, evs), Built(cap, evs), Seen(evs))
    decreases |evs|
  {
    hide Step, Sound, Ordered, Carried;
    if evs == [] {
      StartOrdered();
    } else {
      AlwaysOrdered(cap, Init(evs));
      AlwaysSound(cap, Init(evs));
      OrderedStep(cap, After(cap, Init(evs)), Last(evs), Built(cap, Init(evs)), Seen(Init(evs)));
    }
  }

  lemma {:induction false} StartOrdered()
    ensures Ordered(START, [], [])
  {
  }

  lemma {:induction false} OrderedStep(cap: nat, h: Hub, e: Event, built: seq<Batch>, seen: seq<seq<Bits8>>)
    requires Enabled(h, e) && Ordered(h, built, seen) && Sound(cap, h)
    ensures Ordered(Step(cap, h, e), built + Arms(h, e), seen + Shows(e))
  {
    hide Carried, Switched, WithOverflow, WithMore, FrameParser.ParseStep, FrameParser.Next, Refuses;
    if e.Transfer? {
      hide Numbered, FrameParser.SeqOf;
      assert built + Arms(h, e) == built;
      assert built[|seen|] == h.armed[0];
      assert built[|seen| + 1..] == h.armed[1..];
    } else if e.Arm? {
      ArmOrdered(cap, h, built, seen);
      assert seen + Shows(e) == seen;
    } else {
      hide Numbered, FrameParser.SeqOf;
      assert built + Arms(h, e) == built && seen + Shows(e) == seen;
    }
  }

  lemma {:induction false} ArmOrdered(cap: nat, h: Hub, built: seq<Batch>, seen: seq<seq<Bits8>>)
    requires Enabled(h, Arm) && Ordered(h, built, seen) && Sound(cap, h)
    ensures Ordered(Step(cap, h, Arm), built + Arms(h, Arm), seen)
  {
    hide Carried, FrameParser.ParseStep, FrameParser.Next;
    var built' := built + Arms(h, Arm);
    assert built'[|seen|..] == h.armed + Arms(h, Arm);
    forall i | 0 <= i < |built'| ensures Numbered(built', i) {
      assert i < |built| ==> Numbered(built, i);
    }
    forall i | 0 <= i < |seen| ensures Carried(built'[i], seen[i]) {
      assert built'[i] == built[i];
    }
    assert FrameParser.SeqOf(|built'|) == FrameParser.Next(FrameParser.SeqOf(|built|));
  }

  /** What an accepted or rejected transfer hands over. */
  lemma {:induction false} TransferYields(l: FrameParser.Link, sent: Batch, got: seq<Bits8>)
    requires Carried(sent, got)
    ensures var o := FrameParser.ParseStep(l, got).outcome;
            (if o.Got? then o.records else []) == if Parse(got).Ok? then Deliverable(sent.recs) else []
    ensures Parse(got).Ok? ==> Parse(got).view.seqNo == sent.seqNo
  {
    hide Frame, Deliverable, Readable, Serialized, Parse;
    if Parse(got).Ok? {
      FrameRoundTrip(sent.flags, sent.seqNo, sent.recs);
      FrameParser.ParsedIsNotIdle(got);
      SerializedReadable(sent.recs);
    }
  }

  /** The orchestrator holds the deliverable records of the transfers it accepted. */
  ghost predicate Heard(h: Hub, built: seq<Batch>, seen: seq<seq<Bits8>>) {
    && |built| >= |seen|
    && h.received == Deliverable(Intact(built[..|seen|], seen))
  }

  lemma {:induction false} ReceivedIntact(cap: nat, evs: seq<Event>)
    requires Legal(cap, evs)
    ensures Heard(After(cap, evs), Built(cap, evs), Seen(evs))
    decreases |evs|
  {
    hide Step, Heard, Ordered, Carried;
    if evs == [] {
      StartHeard();
    } else {
      ReceivedIntact(cap, Init(evs));
      AlwaysOrdered(cap, Init(evs));
      HeardStep(cap, After(cap, Init(evs)), Last(evs), Built(cap, Init(evs)), Seen(Init(evs)));
    }
  }

  lemma {:induction false} StartHeard()
    ensures Heard(START, [], [])
  {
  }

  lemma {:induction false} HeardStep(cap: nat, h: Hub, e: Event, built: seq<Batch>, seen: seq<seq<Bits8>>)
    requires Enabled(h, e) && Ordered(h, built, seen) && Heard(h, built, seen)
    ensures Heard(Step(cap, h, e), built + Arms(h, e), seen + Shows(e))
  {
    hide Deliverable, Carried, FrameParser.ParseStep, Parse, FrameParser.Next, Numbered, Intact;
    hide Switched, WithOverflow, WithMore, FrameParser.SeqOf, Refuses;
    if e.Transfer? {
      HeardTransfer(cap, h, e.got, built, seen);
      assert built + Arms(h, e) == built;
    } else {
      assert seen + Shows(e) == seen;
      assert (built + Arms(h, e))[..|seen|] == built[..|seen|];
    }
  }

  lemma {:induction false} HeardTransfer(cap: nat, h: Hub, got: seq<Bits8>, built: seq<Batch>, seen: seq<seq<Bits8>>)
    requires Enabled(h, Transfer(got)) && Ordered(h, built, seen) && Heard(h, built, seen)
    ensures Heard(Step(cap, h, Transfer(got)), built, seen + [got])
  {
    hide Deliverable, Carried, FrameParser.ParseStep, Parse, Numbered, FrameParser.SeqOf;
    var n := |seen|;
    var now := seen + [got];
    assert built[n] == h.armed[0];
    assert Init(now) == seen && now[..n] == seen && Init(built[..n + 1]) == built[..n];
    TransferYields(h.pi, built[n], got);
    DeliverableConcat(Intact(built[..n], seen), if Parse(got).Ok? then built[n].recs else []);
    DeliverableNothing();
  }

  lemma {:induction false} DeliverableNothing()
    ensures Deliverable([]) == []
  {
  }

  lemma {:induction false} AllIntact(sent: seq<Batch>, seen: seq<seq<Bits8>>)
    requires |sent| == |seen| && forall i :: 0 <= i < |seen| ==> Parse(seen[i]).Ok?
    ensures Intact(sent, seen) == Records(sent)
    decreases |sent|
  {
    hide Parse;
    if sent == [] {
    } else {
      AllIntact(Init(sent), Init(seen));
    }
  }

  /**
   Over a link that rejects no transfer, whatever the producers, the pump and the
   transfers do in between, the orchestrator holds exactly the accepted records that
   have left the hub: the rest follows in order from the armed slots, the pump and
   the queue.
   */
  lemma {:induction false} CleanLinkDelivers(cap: nat, evs: seq<Event>)
    requires Legal(cap, evs)
    requires forall i :: 0 <= i < |Seen(evs)| ==> Parse(Seen(evs)[i]).Ok?
    ensures var h := After(cap, evs);
            Deliverable(Accepted(cap, evs))
            == h.received + Deliverable(Records(h.armed) + InHand(h.pump) + h.queue)
  {
    hide Deliverable, Parse, After, Accepted, Built, Records, InHand, Intact, Carried, Numbered, FrameParser.SeqOf;
    var h, built, n := After(cap, evs), Built(cap, evs), |Seen(evs)|;
    StreamKept(cap, evs);
    ReceivedIntact(cap, evs);
    AlwaysOrdered(cap, evs);
    AllIntact(built[..n], Seen(evs));
    assert built == built[..n] + h.armed;
    RecordsConcat(built[..n], h.armed);
    Regroup(Records(built[..n]), Records(h.armed), InHand(h.pump), h.queue);
    DeliverableConcat(Records(built[..n]), Records(h.armed) + InHand(h.pump) + h.queue);
  }

  lemma {:induction false} Regroup<T>(a: seq<T>, b: seq<T>, c: seq<T>, d: seq<T>)
    ensures a + b + c + d == a + (b + c + d)
  {
  }

  /** What every clocked transfer brought: an intact frame by its number, or nothing usable. */
  ghost function Arrivals(evs: seq<Event>): seq<FrameParser.Arrival>
    decreases |evs|
  {
    if evs == [] then []
    else
      Arrivals(Init(evs)) +
      match Last(evs)
      case Transfer(got) => [if Parse(got).Ok? then FrameParser.Good(|Seen(Init(evs))|) else FrameParser.Bad]
      case Underrun(_) => [FrameParser.Bad]
      case _ => []
  }

  /** Every buffer the orchestrator clocked in. */
  function Clocked(evs: seq<Event>): seq<seq<Bits8>>
    decreases |evs|
  {
    if evs == [] then []
    else Clocked(Init(evs)) + if Last(evs).Transfer? || Last(evs).Underrun? then [Last(evs).got] else []
  }

  /** The orchestrator's link state is that of its parser run over all of them. */
  lemma {:induction false} LinkFollows(cap: nat, evs: seq<Event>)
    requires Legal(cap, evs)
    ensures After(cap, evs).pi == FrameParser.LinkRun(Clocked(evs))
    decreases |evs|
  {
    hide Step, Enabled;
    if evs == [] {
    } else {
      var h, e := After(cap, Init(evs)), Last(evs);
      LinkFollows(cap, Init(evs));
      if e.Transfer? || e.Underrun? {
        ClockParses(cap, h, e);
        assert Clocked(evs)[..|Clocked(evs)| - 1] == Clocked(Init(evs));
      } else {
        PiUntouched(cap, h, e);
        assert Clocked(evs) == Clocked(Init(evs));
      }
    }
  }

  lemma {:induction false} ClockParses(cap: nat, h: Hub, e: Event)
    requires Enabled(h, e) && (e.Transfer? || e.Underrun?)
    ensures Step(cap, h, e).pi == FrameParser.ParseStep(h.pi, e.got).link
  {
    hide Carried, Switched, WithOverflow, WithMore, FrameParser.ParseStep, FrameParser.Next, Refuses, Parse;
  }

  /** Intact frames in rising order, all among those sent, and the link's statistics of them. */
  ghost predicate Counted(h: Hub, good: seq<nat>, sent: nat, clocked: nat) {
    FrameParser.Rising(good) && (good != [] ==> good[|good| - 1] < sent) && FrameParser.Tallies(h.pi, good, clocked)
  }

  /**
   Over a whole run the orchestrator counts one gap per run of frames lost between accepted
   ones, apart from lengths divisible by 256, and every clocked transfer exactly once.
   */
  lemma {:induction false} GapsMatchRejections(cap: nat, evs: seq<Event>)
    requires Legal(cap, evs)
    ensures Counted(After(cap, evs), FrameParser.Goods(Arrivals(evs)), |Seen(evs)|, |Arrivals(evs)|)
    decreases |evs|
  {
    hide Step, Parse, Counted, Carried, Ordered, FrameParser.Goods;
    if evs == [] {
      StartCounted();
    } else {
      var init, e := Init(evs), Last(evs);
      GapsMatchRejections(cap, init);
      AlwaysOrdered(cap, init);
      var h, good := After(cap, init), FrameParser.Goods(Arrivals(init));
      if e.Transfer? {
        var a := if Parse(e.got).Ok? then FrameParser.Good(|Seen(init)|) else FrameParser.Bad;
        GoodsSnoc(Arrivals(init), a);
        TransferCounted(cap, h, e.got, Built(cap, init), Seen(init), good, |Arrivals(init)|);
      } else if e.Underrun? {
        GoodsSnoc(Arrivals(init), FrameParser.Bad);
        UnderrunCounted(cap, h, e.got, good, |Seen(init)|, |Arrivals(init)|);
      } else {
        PiUntouched(cap, h, e);
        SameLinkCounted(h, After(cap, evs), good, |Seen(init)|, |Arrivals(init)|);
        assert Arrivals(evs) == Arrivals(init) && Seen(evs) == Seen(init);
      }
    }
  }

  lemma {:induction false} StartCounted()
    ensures Counted(START, FrameParser.Goods([]), 0, 0)
  {
  }

  lemma {:induction false} SameLinkCounted(h: Hub, h': Hub, good: seq<nat>, sent: nat, clocked: nat)
    requires Counted(h, good, sent, clocked) && h'.pi == h.pi
    ensures Counted(h', good, sent, clocked)
  {
  }

  lemma {:induction false} GoodsSnoc(arrivals: seq<FrameParser.Arrival>, a: FrameParser.Arrival)
    ensures FrameParser.Goods(arrivals + [a]) == FrameParser.Goods(arrivals) + if a.Good? then [a.k] else []
  {
    assert (arrivals + [a])[..|arrivals|] == arrivals;
  }

  lemma {:induction false} PiUntouched(cap: nat, h: Hub, e: Event)
    requires Enabled(h, e) && !e.Transfer? && !e.Underrun?
    ensures Step(cap, h, e).pi == h.pi
  {
    hide Carried, Switched, WithOverflow, WithMore, FrameParser.ParseStep, FrameParser.Next, Refuses;
  }

  lemma {:induction false} TransferCounted(cap: nat, h: Hub, got: seq<Bits8>, built: seq<Batch>, seen: seq<seq<Bits8>>,
                                           good: seq<nat>, clocked: nat)
    requires Enabled(h, Transfer(got)) && Ordered(h, built, seen) && Counted(h, good, |seen|, clocked)
    ensures Counted(Step(cap, h, Transfer(got)), good + (if Parse(got).Ok? then [|seen|] else []), |seen| + 1, clocked + 1)
  {
    hide Parse, Carried, FrameParser.ParseStep, FrameParser.Tallies, FrameParser.SeqOf;
    var n := |seen|;
    assert built[n] == h.armed[0] && Numbered(built, n);
    TransferYields(h.pi, built[n], got);
    if Parse(got).Ok? {
      FrameParser.GoodTallies(h.pi, got, n, good, clocked);
    } else {
      assert good + [] == good;
      FrameParser.BadTallies(h.pi, got, good, clocked);
    }
  }

  lemma {:induction false} UnderrunCounted(cap: nat, h: Hub, got: seq<Bits8>, good: seq<nat>, sent: nat, clocked: nat)
    requires Enabled(h, Underrun(got)) && Counted(h, good, sent, clocked)
    ensures Counted(Step(cap, h, Underrun(got)), good + [], sent, clocked + 1)
  {
    hide Parse, FrameParser.ParseStep, FrameParser.Tallies;
    assert good + [] == good;
    FrameParser.BadTallies(h.pi, got, good, clocked);
  }

  // ---------------------------------------------------------------------------
  // The overflow note
  // ---------------------------------------------------------------------------

  lemma {:induction false} LegalPrefix(cap: nat, evs: seq<Event>, j: nat)
    requires Legal(cap, evs) && j <= |evs|
    ensures Legal(cap, evs[..j])
    decreases |evs|
  {
    hide Enabled;
    if j == |evs| {
      assert evs[..j] == evs;
    } else {
      LegalPrefix(cap, Init(evs), j);
      assert Init(evs)[..j] == evs[..j];
    }
  }

  /** The one-shot flag remembers a note exactly until the next header reading. */
  lemma {:induction false} NoteRemembers(cap: nat, evs: seq<Event>)
    requires Legal(cap, evs)
    ensures After(cap, evs).overflow <==> NotedSince(evs)
    decreases |evs|
  {
    hide Enabled, Switched, WithOverflow, WithMore, FrameParser.ParseStep, FrameParser.Next;
    if evs == [] {
    } else {
      NoteRemembers(cap, Init(evs));
      NotedSinceStep(evs);
    }
  }

  lemma {:induction false} NotedSinceStep(evs: seq<Event>)
    requires evs != []
    ensures NotedSince(evs) <==> Last(evs).Note? || (!Last(evs).TakeFlags? && NotedSince(Init(evs)))
  {
    hide NoReading;
    var n, init := |evs| - 1, Init(evs);
    forall j | 0 <= j < n ensures NoReading(evs, j) <==> NoReading(init, j) && !Last(evs).TakeFlags? {
      NoReadingStep(evs, j);
    }
    LastReading(evs);
    if NotedSince(init) && !Last(evs).TakeFlags? {
      var j :| 0 <= j < |init| && init[j].Note? && NoReading(init, j);
      assert evs[j].Note? && NoReading(evs, j);
    }
  }

  lemma {:induction false} LastReading(evs: seq<Event>)
    requires evs != []
    ensures NoReading(evs, |evs| - 1)
  {
  }

  lemma {:induction false} RefusedSinceStep(cap: nat, evs: seq<Event>)
    requires Legal(cap, evs) && evs != []
    ensures RefusedSince(cap, evs) <==>
            Refuses(cap, After(cap, Init(evs)), Last(evs)) || (!Last(evs).TakeFlags? && RefusedSince(cap, Init(evs)))
  {
    hide Enabled, After, Refuses;
    var n, init := |evs| - 1, Init(evs);
    assert evs[..n] == init && NoReading(evs, n);
    assert RefusedAt(cap, evs, n) <==> Refuses(cap, After(cap, init), Last(evs));
    forall j | 0 <= j < n ensures RefusedAt(cap, evs, j) <==> RefusedAt(cap, init, j) {
      LegalPrefix(cap, init, j);
      assert init[..j] == evs[..j];
    }
    forall j | 0 <= j < n ensures NoReading(evs, j) <==> NoReading(init, j) && !Last(evs).TakeFlags? {
      NoReadingStep(evs, j);
    }
    if RefusedSince(cap, init) && !Last(evs).TakeFlags? {
      var j :| 0 <= j < n && RefusedAt(cap, init, j) && NoReading(init, j);
      assert RefusedAt(cap, evs, j) && NoReading(evs, j);
    }
  }

  lemma {:induction false} NoReadingStep(evs: seq<Event>, j: nat)
    requires j < |evs| - 1
    ensures NoReading(evs, j) <==> NoReading(Init(evs), j) && !Last(evs).TakeFlags?
  {
    var init := Init(evs);
    if NoReading(evs, j) {
      forall i | j < i < |init| ensures !init[i].TakeFlags? {
        assert !evs[i].TakeFlags?;
      }
      assert !evs[|evs| - 1].TakeFlags?;
    }
    if NoReading(init, j) && !Last(evs).TakeFlags? {
      forall i | j < i < |evs| ensures !evs[i].TakeFlags? {
        assert i < |init| ==> !init[i].TakeFlags?;
      }
    }
  }

  /** Whether records were still queued when the pump looked, look by look. */
  ghost function Looks(cap: nat, evs: seq<Event>): seq<bool>
    requires Legal(cap, evs)
    decreases |evs|
  {
    if evs == [] then []
    else Looks(cap, Init(evs)) + if Last(evs).Look? then [After(cap, Init(evs)).queue != []] else []
  }

  /** The header says what its reading and its look found, and nothing else. */
  ghost predicate Reports(flags: Bits8, n: Notice, more: bool) {
    Announces(flags, n.sticky, n.noted, more)
  }

  /** Each frame's header answers to its own reading and its own look. */
  ghost predicate Answered(h: Hub, built: seq<Batch>, notices: seq<Notice>, looks: seq<bool>) {
    && |notices| == |built| + (if h.pump.Flagged? || h.pump.Looked? then 1 else 0)
    && |looks| == |built| + (if h.pump.Looked? then 1 else 0)
    && (forall k :: 0 <= k < |built| ==> Reports(built[k].flags, notices[k], looks[k]))
    && (h.pump.Flagged? ==> h.pump.flags == WithOverflow(notices[|built|].sticky, notices[|built|].noted))
    && (h.pump.Flagged? ==> notices[|built|].sticky & 9 == notices[|built|].sticky)
    && (h.pump.Looked? ==> Reports(h.pump.flags, notices[|built|], looks[|built|]))
  }

  /**
   Frame `k` carries the overflow bit exactly when some refusal was noted since the
   header of frame `k - 1` was read, the sticky bits as they stood at its reading, and the
   more-pending bit exactly when records were still queued at the look before it was armed.
   */
  lemma {:induction false} OverflowReportedOnce(cap: nat, evs: seq<Event>)
    requires Legal(cap, evs)
    ensures Answered(After(cap, evs), Built(cap, evs), Notices(cap, evs), Looks(cap, evs))
    decreases |evs|
  {
    hide Step, NotedSince, Answered, Carried;
    if evs == [] {
      StartAnswered();
    } else {
      var h, e := After(cap, Init(evs)), Last(evs);
      OverflowReportedOnce(cap, Init(evs));
      AlwaysSound(cap, Init(evs));
      NoteRemembers(cap, Init(evs));
      AnsweredStep(cap, h, e, Built(cap, Init(evs)), Notices(cap, Init(evs)), Looks(cap, Init(evs)));
    }
  }

  lemma {:induction false} StartAnswered()
    ensures Answered(START, [], [], [])
  {
  }

  lemma {:induction false} AnsweredStep(cap: nat, h: Hub, e: Event, built: seq<Batch>, notices: seq<Notice>,
                                        looks: seq<bool>)
    requires Enabled(h, e) && Answered(h, built, notices, looks) && Sound(cap, h)
    ensures Answered(Step(cap, h, e), built + Arms(h, e),
                     notices + (if e.TakeFlags? then [Notice(h.sticky, h.overflow)] else []),
                     looks + if e.Look? then [h.queue != []] else [])
  {
    hide Carried, Switched, WithOverflow, WithMore, FrameParser.ParseStep, FrameParser.Next, Refuses, Reports;
    assert !e.Arm? ==> built + Arms(h, e) == built;
    assert notices + [] == notices && looks + [] == looks;
    if e.Look? {
      hide Sound;
      LookReports(notices[|built|], h.queue != []);
    }
  }

  lemma {:induction false} LookReports(n: Notice, more: bool)
    requires n.sticky & 9 == n.sticky
    ensures Reports(WithMore(WithOverflow(n.sticky, n.noted), more), n, more)
  {
    FlagsExact(n.sticky, n.noted, more);
  }

  // ---------------------------------------------------------------------------
  // Refused is not yet noted
  // ---------------------------------------------------------------------------

  /** Pushes refused since the last reading. */
  ghost function RefusedCount(cap: nat, evs: seq<Event>): nat
    requires Legal(cap, evs)
    decreases |evs|
  {
    if evs == [] || Last(evs).TakeFlags? then 0
    else RefusedCount(cap, Init(evs)) + if Refuses(cap, After(cap, Init(evs)), Last(evs)) then 1 else 0
  }

  /** Notes made since the last reading. */
  function NotedCount(evs: seq<Event>): nat
    decreases |evs|
  {
    if evs == [] || Last(evs).TakeFlags? then 0 else NotedCount(Init(evs)) + if Last(evs).Note? then 1 else 0
  }

  /** Refusals that were still unnoted at the last reading. */
  ghost function CarriedOver(cap: nat, evs: seq<Event>): nat
    requires Legal(cap, evs)
    decreases |evs|
  {
    if evs == [] then 0 else if Last(evs).TakeFlags? then After(cap, evs).unnoted else CarriedOver(cap, Init(evs))
  }

  /** Every refusal is noted once: carried over plus new equals noted plus waiting. */
  lemma {:induction false} NotesBalance(cap: nat, evs: seq<Event>)
    requires Legal(cap, evs)
    ensures CarriedOver(cap, evs) + RefusedCount(cap, evs) == NotedCount(evs) + After(cap, evs).unnoted
    ensures RefusedCount(cap, evs) > 0 <==> RefusedSince(cap, evs)
    ensures NotedCount(evs) > 0 <==> NotedSince(evs)
    decreases |evs|
  {
    hide RefusedSince, NotedSince, Carried, Switched, WithOverflow, WithMore, FrameParser.ParseStep, FrameParser.Next;
    if evs == [] {
      NothingSince(cap);
    } else {
      NotesBalance(cap, Init(evs));
      RefusedSinceStep(cap, evs);
      NotedSinceStep(evs);
    }
  }

  lemma {:induction false} NothingSince(cap: nat)
    ensures !RefusedSince(cap, []) && !NotedSince([])
  {
  }

  /**
   After a reading that left no refusal unnoted, the flag at any later point means "a push
   was refused since" exactly when it is set or nothing is waiting to be noted.
   */
  lemma {:induction false} PromptNotesAgree(cap: nat, evs: seq<Event>)
    requires Legal(cap, evs) && CarriedOver(cap, evs) == 0
    ensures (After(cap, evs).overflow <==> RefusedSince(cap, evs))
            <==> After(cap, evs).overflow || After(cap, evs).unnoted == 0
  {
    hide After, RefusedSince, NotedSince, RefusedCount, NotedCount, CarriedOver;
    NoteRemembers(cap, evs);
    NotesBalance(cap, evs);
  }

  /** A full queue of one, a second push refused, the header read before the note is made. */
  function UpToLateReading(rec: Record): seq<Event> {
    [] + [Push(rec)] + [Push(rec)] + [Pick] + [Drain] + [DrainEnd]
  }

  function UpToNextReading(rec: Record): seq<Event> {
    UpToLateReading(rec) + [TakeFlags] + [Look] + [Arm] + [Note] + [Pick] + [DrainEnd]
  }

  lemma {:induction false} LegalExtend(cap: nat, evs: seq<Event>, e: Event)
    requires Legal(cap, evs) && Enabled(After(cap, evs), e)
    ensures Legal(cap, evs + [e]) && After(cap, evs + [e]) == Step(cap, After(cap, evs), e)
  {
    hide Enabled, Step;
    assert Init(evs + [e]) == evs;
  }

  lemma {:induction false} NothingYet(cap: nat)
    ensures Legal(cap, []) && After(cap, []) == START
  {
  }

  lemma {:induction false} LateReading(rec: Record)
    ensures var evs := UpToLateReading(rec);
            && Legal(1, evs)
            && After(1, evs) == START.(unnoted := 1, done := 1, pump := Drained([rec]))
  {
    hide Legal, After;
    NothingYet(1);
    var e0: seq<Event> := [];
    LegalExtend(1, e0, Push(rec));
    var e1 := e0 + [Push(rec)];
    assert After(1, e1).queue == [rec];
    LegalExtend(1, e1, Push(rec));
    LegalExtend(1, e1 + [Push(rec)], Pick);
    LegalExtend(1, e1 + [Push(rec)] + [Pick], Drain);
    LegalExtend(1, e1 + [Push(rec)] + [Pick] + [Drain], DrainEnd);
  }

  lemma {:induction false} NextReading(rec: Record)
    ensures var evs := UpToNextReading(rec);
            && Legal(1, evs) && After(1, evs).pump.Drained? && After(1, evs).overflow
            && Legal(1, UpToLateReading(rec) + [TakeFlags]) && After(1, evs).unnoted == 0
  {
    hide Legal, After, WithMore, WithOverflow, FrameParser.Next, UpToLateReading;
    LateReading(rec);
    var e := UpToLateReading(rec);
    LegalExtend(1, e, TakeFlags);
    LegalExtend(1, e + [TakeFlags], Look);
    LegalExtend(1, e + [TakeFlags] + [Look], Arm);
    LegalExtend(1, e + [TakeFlags] + [Look] + [Arm], Note);
    LegalExtend(1, e + [TakeFlags] + [Look] + [Arm] + [Note], Pick);
    LegalExtend(1, e + [TakeFlags] + [Look] + [Arm] + [Note] + [Pick], DrainEnd);
  }

  /**
   A run in which the first header is silent about a refused push and the second reports a
   refusal although none happened since.
   */
  lemma {:induction false} LateNoteMisreports(rec: Record)
    ensures var first := UpToLateReading(rec);
            && Legal(1, first) && After(1, first).pump.Drained?
            && !After(1, first).overflow && RefusedSince(1, first)
    ensures var second := UpToNextReading(rec);
            && Legal(1, second) && After(1, second).pump.Drained?
            && After(1, second).overflow && !RefusedSince(1, second)
  {
    hide Legal, After, RefusedSince, UpToLateReading;
    var e := UpToLateReading(rec);
    LateReading(rec);
    NextReading(rec);
    NotesBalance(1, e);
    NotesBalance(1, UpToNextReading(rec));
    NothingNoted(rec);
    NothingRefusedLater(rec);
  }

  lemma {:induction false} NothingNoted(rec: Record)
    requires Legal(1, UpToLateReading(rec))
    ensures NotedCount(UpToLateReading(rec)) == 0 && CarriedOver(1, UpToLateReading(rec)) == 0
  {
    hide Legal, After;
    var e1: seq<Event> := [] + [Push(rec)];
    var e2 := e1 + [Push(rec)];
    var e3 := e2 + [Pick];
    var e4 := e3 + [Drain];
    var e5 := e4 + [DrainEnd];
    assert Init(e1) == [] && Init(e2) == e1 && Init(e3) == e2 && Init(e4) == e3 && Init(e5) == e4;
    LegalInits(1, e5);
    LegalInits(1, e4);
    LegalInits(1, e3);
    LegalInits(1, e2);
    assert NotedCount(e1) == 0 && NotedCount(e2) == 0 && NotedCount(e3) == 0;
    assert CarriedOver(1, e1) == 0 && CarriedOver(1, e2) == 0 && CarriedOver(1, e3) == 0;
  }

  lemma {:induction false} LegalInits(cap: nat, evs: seq<Event>)
    requires Legal(cap, evs) && evs != []
    ensures Legal(cap, Init(evs))
  {
    hide Enabled;
  }

  lemma {:induction false} NothingRefusedLater(rec: Record)
    requires Legal(1, UpToNextReading(rec))
    ensures RefusedCount(1, UpToNextReading(rec)) == 0
  {
    hide Legal, After, UpToLateReading;
    var e1 := UpToLateReading(rec) + [TakeFlags];
    var e2 := e1 + [Look];
    var e3 := e2 + [Arm];
    var e4 := e3 + [Note];
    var e5 := e4 + [Pick];
    var e6 := e5 + [DrainEnd];
    assert Init(e2) == e1 && Init(e3) == e2 && Init(e4) == e3 && Init(e5) == e4 && Init(e6) == e5;
    LegalInits(1, e6);
    LegalInits(1, e5);
    LegalInits(1, e4);
    LegalInits(1, e3);
    LegalInits(1, e2);
    assert RefusedCount(1, e1) == 0 && RefusedCount(1, e2) == 0 && RefusedCount(1, e3) == 0;
    assert RefusedCount(1, e4) == 0;
  }

  // ---------------------------------------------------------------------------
  // The driver's build is the pump's steps without interruption
  // ---------------------------------------------------------------------------

  ghost function Play(cap: nat, h: Hub, evs: seq<Event>): Hub
    requires Playable(cap, h, evs)
    decreases |evs|, 1
  {
    if evs == [] then h else Step(cap, Play(cap, h, Init(evs)), Last(evs))
  }

  ghost predicate Playable(cap: nat, h: Hub, evs: seq<Event>)
    decreases |evs|, 0
  {
    evs == [] || (Playable(cap, h, Init(evs)) && Enabled(Play(cap, h, Init(evs)), Last(evs)))
  }

  function Drains(n: nat): seq<Event>
    ensures |Drains(n)| == n + 1
  {
    if n == 0 then [Pick] else Drains(n - 1) + [Drain]
  }

  lemma {:induction false} PickFirst(cap: nat, h: Hub)
    requires h.pump.Waiting? && h.done > 0
    ensures Playable(cap, h, [Pick])
    ensures Play(cap, h, [Pick]) == h.(done := h.done - 1, queue := h.queue[0..], pump := Draining(h.queue[..0]))
  {
    hide Carried, Switched, WithOverflow, WithMore, FrameParser.ParseStep, FrameParser.Next, Refuses;
    assert Init([Pick]) == [];
    assert h.queue[0..] == h.queue;
  }

  lemma {:induction false} DrainOne(cap: nat, h: Hub, n: nat)
    requires 0 < n <= Fit(|h.queue|) && h.done > 0
    ensures var before := h.(done := h.done - 1, queue := h.queue[n - 1..], pump := Draining(h.queue[..n - 1]));
            && Enabled(before, Drain)
            && Step(cap, before, Drain) == h.(done := h.done - 1, queue := h.queue[n..], pump := Draining(h.queue[..n]))
  {
    hide Carried, Switched, WithOverflow, WithMore, FrameParser.ParseStep, FrameParser.Next, Refuses;
    DrainSlices(h.queue, n);
  }

  lemma {:induction false} DrainSlices<T>(q: seq<T>, n: nat)
    requires 0 < n <= |q|
    ensures q[n - 1..] != [] && q[n - 1..][0] == q[n - 1] && q[n - 1..][1..] == q[n..]
    ensures q[..n - 1] + [q[n - 1]] == q[..n]
  {
  }

  lemma {:induction false} DrainsMove(cap: nat, h: Hub, n: nat)
    requires h.pump.Waiting? && h.done > 0 && n <= Fit(|h.queue|)
    ensures Playable(cap, h, Drains(n))
    ensures Play(cap, h, Drains(n)) == h.(done := h.done - 1, queue := h.queue[n..], pump := Draining(h.queue[..n]))
  {
    hide Step, Enabled, Play, Playable;
    if n == 0 {
      PickFirst(cap, h);
    } else {
      DrainsMove(cap, h, n - 1);
      DrainOne(cap, h, n);
      Extend(cap, h, Drains(n - 1), Drain);
    }
  }

  lemma {:induction false} Extend(cap: nat, h: Hub, evs: seq<Event>, e: Event)
    requires Playable(cap, h, evs) && Enabled(Play(cap, h, evs), e)
    ensures Playable(cap, h, evs + [e]) && Play(cap, h, evs + [e]) == Step(cap, Play(cap, h, evs), e)
  {
    hide Enabled, Step;
    assert Init(evs + [e]) == evs;
  }

  /** Left alone, the pump arms the very frame that `Bridge.BuildTx` writes. */
  lemma {:induction false} BuildUninterrupted(cap: nat, h: Hub)
    requires h.pump.Waiting? && h.done > 0
    ensures var n := Fit(|h.queue|);
            var evs := Drains(n) + [DrainEnd] + [TakeFlags] + [Look] + [Arm];
            && Playable(cap, h, evs)
            && Play(cap, h, evs) ==
               h.(done := h.done - 1, queue := h.queue[n..], overflow := false, txSeq := FrameParser.Next(h.txSeq),
                  armed := h.armed + [Batch(WithMore(WithOverflow(h.sticky, h.overflow), n < |h.queue|),
                                            h.txSeq, h.queue[..n])])
  {
    hide Carried, Switched, WithOverflow, WithMore, FrameParser.ParseStep, FrameParser.Next, Play, Playable, Drains;
    var n := Fit(|h.queue|);
    DrainsMove(cap, h, n);
    Extend(cap, h, Drains(n), DrainEnd);
    Extend(cap, h, Drains(n) + [DrainEnd], TakeFlags);
    Extend(cap, h, Drains(n) + [DrainEnd] + [TakeFlags], Look);
    Extend(cap, h, Drains(n) + [DrainEnd] + [TakeFlags] + [Look], Arm);
  }

  // ---------------------------------------------------------------------------
  // When the next header can be trusted
  // ---------------------------------------------------------------------------

  predicate NoReadings(more: seq<Event>) {
    forall i :: 0 <= i < |more| ==> !more[i].TakeFlags?
  }

  /** `more` leads from one reading to the point of the next, with nothing left to note there. */
  ghost predicate LeadsToReading(cap: nat, evs: seq<Event>, more: seq<Event>) {
    var run := evs + [TakeFlags] + more;
    && Legal(cap, run) && NoReadings(more)
    && After(cap, run).pump.Drained? && After(cap, run).unnoted == 0
  }

  /** However the run goes on from a reading, the next one that finds nothing unnoted tells the truth. */
  ghost predicate NextTruthful(cap: nat, evs: seq<Event>) {
    forall more: seq<Event> :: LeadsToReading(cap, evs, more) ==>
      (After(cap, evs + [TakeFlags] + more).overflow <==> RefusedSince(cap, evs + [TakeFlags] + more))
  }

  /** Until the next reading the number carried over stays what the last one left. */
  lemma {:induction false} CarriedOverStays(cap: nat, evs: seq<Event>, more: seq<Event>)
    requires Legal(cap, evs + [TakeFlags] + more) && NoReadings(more)
    ensures Legal(cap, evs + [TakeFlags])
    ensures CarriedOver(cap, evs + [TakeFlags] + more) == After(cap, evs + [TakeFlags]).unnoted
    decreases |more|
  {
    hide Enabled, After;
    var read := evs + [TakeFlags];
    if more == [] {
      assert read + more == read;
    } else {
      assert Init(read + more) == read + Init(more);
      CarriedOverStays(cap, evs, Init(more));
    }
  }

  lemma {:induction false} ReadingKeepsUnnoted(cap: nat, evs: seq<Event>)
    requires Legal(cap, evs) && After(cap, evs).pump.Drained?
    ensures Legal(cap, evs + [TakeFlags])
    ensures var h := After(cap, evs);
            After(cap, evs + [TakeFlags])
            == h.(overflow := false, pump := Flagged(h.pump.recs, WithOverflow(h.sticky, h.overflow)))
  {
    hide After, Legal, WithOverflow;
    LegalExtend(cap, evs, TakeFlags);
  }

  lemma {:induction false} TruthfulWithoutDebt(cap: nat, evs: seq<Event>, more: seq<Event>)
    requires Legal(cap, evs) && After(cap, evs).pump.Drained? && After(cap, evs).unnoted == 0
    requires LeadsToReading(cap, evs, more)
    ensures After(cap, evs + [TakeFlags] + more).overflow <==> RefusedSince(cap, evs + [TakeFlags] + more)
  {
    hide After, Legal, RefusedSince, CarriedOver, WithOverflow;
    ReadingKeepsUnnoted(cap, evs);
    CarriedOverStays(cap, evs, more);
    PromptNotesAgree(cap, evs + [TakeFlags] + more);
  }

  function Notes(n: nat): (t: seq<Event>)
    ensures |t| == n && forall i :: 0 <= i < n ==> t[i] == Note
  {
    seq(n, _ => Note)
  }

  lemma {:induction false} NotesMade(cap: nat, h: Hub, n: nat)
    requires n <= h.unnoted
    ensures Playable(cap, h, Notes(n))
    ensures Play(cap, h, Notes(n)) == h.(unnoted := h.unnoted - n, overflow := h.overflow || n > 0)
  {
    hide Carried, Switched, WithOverflow, WithMore, FrameParser.ParseStep, FrameParser.Next, Refuses;
    if n == 0 {
      assert Notes(0) == [];
    } else {
      NotesMade(cap, h, n - 1);
      hide Play, Playable;
      Extend(cap, h, Notes(n - 1), Note);
      assert Notes(n) == Notes(n - 1) + [Note];
    }
  }

  lemma {:induction false} PlayOn(cap: nat, h: Hub, a: seq<Event>, b: seq<Event>)
    requires Playable(cap, h, a) && Playable(cap, Play(cap, h, a), b)
    ensures Playable(cap, h, a + b) && Play(cap, h, a + b) == Play(cap, Play(cap, h, a), b)
    decreases |b|
  {
    hide Enabled, Step;
    if b == [] {
      assert a + b == a;
    } else {
      PlayOn(cap, h, a, Init(b));
      assert Init(a + b) == a + Init(b);
    }
  }

  lemma {:induction false} PlayFromRun(cap: nat, evs: seq<Event>, more: seq<Event>)
    requires Legal(cap, evs) && Playable(cap, After(cap, evs), more)
    ensures Legal(cap, evs + more) && After(cap, evs + more) == Play(cap, After(cap, evs), more)
    decreases |more|
  {
    hide Enabled, Step;
    if more == [] {
      assert evs + more == evs;
    } else {
      PlayFromRun(cap, evs, Init(more));
      assert Init(evs + more) == evs + Init(more);
    }
  }

  /** Finish the frame, lose it, make every note, then get ready to read again: nobody pushes. */
  function Catching(unnoted: nat, drained: nat): seq<Event> {
    ([] + [Look] + [Arm] + [Transfer([])]) + Notes(unnoted) + (Drains(drained) + [DrainEnd])
  }

  lemma {:induction false} FrameLost(cap: nat, h: Hub)
    requires h.pump.Flagged? && Sound(cap, h)
    ensures var more := [] + [Look] + [Arm] + [Transfer([])];
            && Playable(cap, h, more)
            && var p := Play(cap, h, more);
               p.pump.Waiting? && p.done > 0 && p.queue == h.queue && p.unnoted == h.unnoted && p.overflow == h.overflow
  {
    hide WithMore, FrameParser.ParseStep, FrameParser.Next, Play, Playable;
    assert Playable(cap, h, []) && Play(cap, h, []) == h by {
      PlayNothing(cap, h);
    }
    var e0: seq<Event> := [];
    Extend(cap, h, e0, Look);
    Extend(cap, h, e0 + [Look], Arm);
    var p := Play(cap, h, e0 + [Look] + [Arm]);
    assert p.armed != [] && |p.armed[0].recs| <= MAX_RECORDS;
    Extend(cap, h, e0 + [Look] + [Arm], Transfer([]));
  }

  lemma {:induction false} PlayNothing(cap: nat, h: Hub)
    ensures Playable(cap, h, []) && Play(cap, h, []) == h
  {
  }

  lemma {:induction false} ReadyAgain(cap: nat, h: Hub)
    requires h.pump.Waiting? && h.done > 0
    ensures var more := Drains(Fit(|h.queue|)) + [DrainEnd];
            && Playable(cap, h, more)
            && var p := Play(cap, h, more); p.pump.Drained? && p.unnoted == h.unnoted && p.overflow == h.overflow
  {
    hide Carried, Switched, WithOverflow, WithMore, FrameParser.ParseStep, FrameParser.Next, Play, Playable, Drains;
    var n := Fit(|h.queue|);
    DrainsMove(cap, h, n);
    Extend(cap, h, Drains(n), DrainEnd);
  }

  lemma {:induction false} CatchingPlays(cap: nat, h: Hub)
    requires h.pump.Flagged? && Sound(cap, h) && h.unnoted > 0
    ensures var more := Catching(h.unnoted, Fit(|h.queue|));
            && Playable(cap, h, more)
            && var p := Play(cap, h, more); p.pump.Drained? && p.unnoted == 0 && p.overflow
  {
    hide Play, Playable, Drains, Notes, Enabled, Step, Sound, Fit;
    var a := [] + [Look] + [Arm] + [Transfer([])];
    FrameLost(cap, h);
    var p := Play(cap, h, a);
    NotesMade(cap, p, h.unnoted);
    PlayOn(cap, h, a, Notes(h.unnoted));
    var noted := Play(cap, h, a + Notes(h.unnoted));
    ReadyAgain(cap, noted);
    PlayOn(cap, h, a + Notes(h.unnoted), Drains(Fit(|h.queue|)) + [DrainEnd]);
  }

  lemma {:induction false} DrainsQuiet(n: nat)
    ensures forall i :: 0 <= i < |Drains(n)| ==> Drains(n)[i].Pick? || Drains(n)[i].Drain?
  {
    if n == 0 {
    } else {
      DrainsQuiet(n - 1);
    }
  }

  lemma {:induction false} CatchingQuiet(unnoted: nat, drained: nat)
    ensures var more := Catching(unnoted, drained);
            NoReadings(more) && forall i :: 0 <= i < |more| ==> !more[i].Push?
  {
    hide Drains, Notes;
    DrainsQuiet(drained);
  }

  /** Where nobody pushes, nobody is refused. */
  lemma {:induction false} NothingRefused(cap: nat, evs: seq<Event>, more: seq<Event>)
    requires Legal(cap, evs + [TakeFlags] + more) && forall i :: 0 <= i < |more| ==> !more[i].Push?
    ensures RefusedCount(cap, evs + [TakeFlags] + more) == 0
    decreases |more|
  {
    hide Enabled, After;
    var read := evs + [TakeFlags];
    if more == [] {
      assert read + more == read;
    } else {
      assert Init(read + more) == read + Init(more) && Last(read + more) == Last(more);
      LegalInits(cap, read + more);
      NothingRefused(cap, evs, Init(more));
    }
  }

  /**
   At the moment a header is about to be read: however the run goes on, the next header that
   finds nothing unnoted is truthful about refused pushes, if and only if nothing is unnoted
   now.
   */
  lemma {:induction false} NextHeaderExact(cap: nat, evs: seq<Event>)
    requires Legal(cap, evs) && After(cap, evs).pump.Drained?
    ensures NextTruthful(cap, evs) <==> After(cap, evs).unnoted == 0
  {
    hide After, Legal, RefusedSince, LeadsToReading;
    if After(cap, evs).unnoted == 0 {
      forall more: seq<Event> | LeadsToReading(cap, evs, more)
        ensures Legal(cap, evs + [TakeFlags] + more)
        ensures After(cap, evs + [TakeFlags] + more).overflow <==> RefusedSince(cap, evs + [TakeFlags] + more)
      {
        LeadsLegally(cap, evs, more);
        TruthfulWithoutDebt(cap, evs, more);
      }
    } else {
      var more := DebtMisleads(cap, evs);
      assert LeadsToReading(cap, evs, more);
    }
  }

  lemma {:induction false} LeadsLegally(cap: nat, evs: seq<Event>, more: seq<Event>)
    requires LeadsToReading(cap, evs, more)
    ensures Legal(cap, evs + [TakeFlags] + more)
  {
  }

  /** With a refusal unnoted at a reading there is a continuation whose next header reports one that is not there. */
  lemma {:induction false} DebtMisleads(cap: nat, evs: seq<Event>) returns (more: seq<Event>)
    requires Legal(cap, evs) && After(cap, evs).pump.Drained? && After(cap, evs).unnoted > 0
    ensures LeadsToReading(cap, evs, more)
    ensures After(cap, evs + [TakeFlags] + more).overflow && !RefusedSince(cap, evs + [TakeFlags] + more)
  {
    hide After, Legal, RefusedSince, Play, Playable, Catching, Sound, WithOverflow;
    ReadingKeepsUnnoted(cap, evs);
    AlwaysSound(cap, evs + [TakeFlags]);
    var h := After(cap, evs + [TakeFlags]);
    more := Catching(h.unnoted, Fit(|h.queue|));
    CatchingPlays(cap, h);
    PlayFromRun(cap, evs + [TakeFlags], more);
    CatchingQuiet(h.unnoted, Fit(|h.queue|));
    NothingRefused(cap, evs, more);
    NotesBalance(cap, evs + [TakeFlags] + more);
  }
}
