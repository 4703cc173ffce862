/**
 Transmitter and receiver over a lossy, order-preserving link.

 A label names what a wire frame is about: SYNC for frame `k`, or audio frame `k`.
 Deliveries are any subsequence of what was sent.
 */
module AudioLink {
  import opened WireTypes
  import opened AdpcmCodec
  import opened AudioPacket
  import CanId

  // ---------------------------------------------------------------------------
  // What a run of the transmitter puts on the wire
  // ---------------------------------------------------------------------------

  /** Calls on the transmitter: a push of any length, or an explicit SYNC. */
  datatype Call = Push(pcm: seq<Sample>) | SyncNow

  datatype Event = In(x: Sample) | Resync

  function CallStep(a: Address, t: TxState, c: Call): Sent {
    match c
    case Push(pcm) => TakeAll(a, t, pcm)
    case SyncNow => TakeSync(a, t)
  }

  function EventStep(a: Address, t: TxState, e: Event): Sent {
    match e
    case In(x) => TakeSample(a, t, x)
    case Resync => TakeSync(a, t)
  }

  function CallRun(a: Address, t: TxState, calls: seq<Call>): Sent
    decreases |calls|
  {
    if calls == [] then Sent(t, [])
    else
      var before := CallRun(a, t, calls[..|calls| - 1]);
      var last := CallStep(a, before.tx, calls[|calls| - 1]);
      Sent(last.tx, before.frames + last.frames)
  }

  function EventRun(a: Address, t: TxState, evs: seq<Event>): Sent
    decreases |evs|
  {
    if evs == [] then Sent(t, [])
    else
      var before := EventRun(a, t, evs[..|evs| - 1]);
      var last := EventStep(a, before.tx, evs[|evs| - 1]);
      Sent(last.tx, before.frames + last.frames)
  }

  function Inputs(pcm: seq<Sample>): seq<Event> {
    seq(|pcm|, i requires 0 <= i < |pcm| => In(pcm[i]))
  }

  function Flatten(calls: seq<Call>): seq<Event>
    decreases |calls|
  {
    if calls == [] then []
    else
      Flatten(calls[..|calls| - 1])
      + match calls[|calls| - 1] { case Push(pcm) => Inputs(pcm) case SyncNow => [Resync] }
  }

  lemma {:induction false} EventRunConcat(a: Address, t: TxState, p: seq<Event>, q: seq<Event>)
    ensures EventRun(a, t, p + q).tx == EventRun(a, EventRun(a, t, p).tx, q).tx
    ensures EventRun(a, t, p + q).frames == EventRun(a, t, p).frames + EventRun(a, EventRun(a, t, p).tx, q).frames
    decreases |q|
  {
    hide EventStep;
    if q == [] {
      assert p + q == p;
    } else {
      var n := |q| - 1;
      assert (p + q)[..|p + q| - 1] == p + q[..n];
      EventRunConcat(a, t, p, q[..n]);
    }
  }

  lemma {:induction false} PushIsInputs(a: Address, t: TxState, pcm: seq<Sample>)
    ensures EventRun(a, t, Inputs(pcm)) == TakeAll(a, t, pcm)
    decreases |pcm|
  {
    hide TakeSample;
    if pcm != [] {
      var n := |pcm| - 1;
      assert Inputs(pcm)[..n] == Inputs(pcm[..n]);
      PushIsInputs(a, t, pcm[..n]);
      assert pcm == pcm[..n] + [pcm[n]];
      TakeAllConcat(a, t, pcm[..n], [pcm[n]]);
      var t' := TakeAll(a, t, pcm[..n]).tx;
      var last := TakeSample(a, t', pcm[n]);
      assert [pcm[n]][1..] == [];
      assert TakeAll(a, t', [pcm[n]]) == Sent(last.tx, last.frames + []);
    }
  }

  /** However the samples are grouped into pushes, the same frames leave in the same order. */
  lemma {:induction false} ChunkingIrrelevant(a: Address, t: TxState, calls: seq<Call>)
    ensures CallRun(a, t, calls) == EventRun(a, t, Flatten(calls))
    decreases |calls|
  {
    hide TakeSample, TakeSync, TakeAll;
    if calls != [] {
      var n := |calls| - 1;
      ChunkingIrrelevant(a, t, calls[..n]);
      var t' := CallRun(a, t, calls[..n]).tx;
      match calls[n] {
        case Push(pcm) =>
          PushIsInputs(a, t', pcm);
          EventRunConcat(a, t, Flatten(calls[..n]), Inputs(pcm));
        case SyncNow =>
          EventRunConcat(a, t, Flatten(calls[..n]), [Resync]);
          assert EventRun(a, t', []) == Sent(t', []);
          assert [Resync][..0] == [];
          var last := TakeSync(a, t');
          assert EventRun(a, t', [Resync]) == Sent(last.tx, [] + last.frames);
      }
    }
  }

  // ---------------------------------------------------------------------------
  // Labels
  // ---------------------------------------------------------------------------

  datatype Label = Sync(k: nat) | Audio(k: nat)
  {
    /** The frame number expected right after this. */
    function After(): nat {
      if Sync? then k else k + 1
    }
  }

  function Pcm(evs: seq<Event>): seq<Sample>
    decreases |evs|
  {
    if evs == [] then []
    else Pcm(evs[..|evs| - 1]) + match evs[|evs| - 1] { case In(x) => [x] case Resync => [] }
  }

  function EventLabels(t: TxState, e: Event): seq<Label> {
    match e
    case Resync => [Sync(t.sent)]
    case In(_) =>
      if |t.pending| + 1 < FRAME_SAMPLES then []
      else if t.SyncDue() then [Sync(t.sent), Audio(t.sent)]
      else [Audio(t.sent)]
  }

  function Labels(a: Address, evs: seq<Event>): seq<Label>
    decreases |evs|
  {
    if evs == [] then []
    else
      var before := evs[..|evs| - 1];
      Labels(a, before) + EventLabels(EventRun(a, TX_INITIAL, before).tx, evs[|evs| - 1])
  }

  /** Codec state before frame `k` of a stream. */
  function StateAt(pcm: seq<Sample>, k: nat): State
    requires FRAME_SAMPLES * k <= |pcm|
  {
    StateAfter(INITIAL, pcm[..FRAME_SAMPLES * k])
  }

  function Block(pcm: seq<Sample>, k: nat): seq<Sample>
    requires FRAME_SAMPLES * (k + 1) <= |pcm|
  {
    pcm[FRAME_SAMPLES * k..FRAME_SAMPLES * (k + 1)]
  }

  predicate InStream(pcm: seq<Sample>, l: Label) {
    FRAME_SAMPLES * l.After() <= |pcm|
  }

  function FrameOf(a: Address, pcm: seq<Sample>, l: Label): Frame
    requires InStream(pcm, l)
  {
    match l
    case Sync(k) => SyncFrame(a, StateAt(pcm, k), k)
    case Audio(k) => AudioFrame(a, k, EncodedBytes(StateAt(pcm, k), Block(pcm, k)))
  }

  lemma {:induction false} FrameOfStable(a: Address, pcm: seq<Sample>, more: seq<Sample>, l: Label)
    requires InStream(pcm, l)
    ensures InStream(pcm + more, l) && FrameOf(a, pcm + more, l) == FrameOf(a, pcm, l)
  {
    assert (pcm + more)[..FRAME_SAMPLES * l.k] == pcm[..FRAME_SAMPLES * l.k];
    if l.Audio? {
      assert Block(pcm + more, l.k) == Block(pcm, l.k);
    }
  }

  /** What holds between the transmitter and the stream it has been fed. */
  ghost predicate TxTracks(t: TxState, pcm: seq<Sample>) {
    && t.Valid()
    && FRAME_SAMPLES * t.sent + |t.pending| == |pcm|
    && t.pending == pcm[FRAME_SAMPLES * t.sent..]
    && t.enc == StateAt(pcm, t.sent)
  }

  ghost predicate Describes(a: Address, pcm: seq<Sample>, ls: seq<Label>, frames: seq<Frame>) {
    && |ls| == |frames|
    && forall i :: 0 <= i < |ls| ==> InStream(pcm, ls[i]) && frames[i] == FrameOf(a, pcm, ls[i])
  }

  lemma {:induction false} TxTracksStep(a: Address, t: TxState, pcm: seq<Sample>, e: Event)
    requires TxTracks(t, pcm)
    ensures var pcm' := pcm + match e { case In(x) => [x] case Resync => [] };
            && TxTracks(EventStep(a, t, e).tx, pcm')
            && Describes(a, pcm', EventLabels(t, e), EventStep(a, t, e).frames)
  {
    hide SyncFrame, AudioFrame, EncodedBytes, StateAfter;
    match e {
      case Resync =>
        assert pcm + [] == pcm;
      case In(x) =>
        var pcm' := pcm + [x];
        var block := t.pending + [x];
        var n := FRAME_SAMPLES * t.sent;
        assert pcm'[..n] == pcm[..n];
        assert pcm'[n..] == block;
        if |block| == FRAME_SAMPLES {
          assert Block(pcm', t.sent) == block;
          assert pcm'[..n] + block == pcm'[..FRAME_SAMPLES * (t.sent + 1)];
          StateAfterConcat(INITIAL, pcm'[..n], block);
        }
    }
  }

  lemma {:induction false} DescribesMore(a: Address, pcm: seq<Sample>, more: seq<Sample>, ls: seq<Label>, frames: seq<Frame>,
                      ls': seq<Label>, frames': seq<Frame>)
    requires Describes(a, pcm, ls, frames) && Describes(a, pcm + more, ls', frames')
    ensures Describes(a, pcm + more, ls + ls', frames + frames')
  {
    hide FrameOf, InStream;
    forall i | 0 <= i < |ls|
      ensures InStream(pcm + more, ls[i]) && frames[i] == FrameOf(a, pcm + more, ls[i])
    {
      FrameOfStable(a, pcm, more, ls[i]);
    }
  }

  /** Every frame of every run is the one its label calls for. */
  lemma {:induction false} WireIsLabelled(a: Address, evs: seq<Event>)
    ensures TxTracks(EventRun(a, TX_INITIAL, evs).tx, Pcm(evs))
    ensures Describes(a, Pcm(evs), Labels(a, evs), EventRun(a, TX_INITIAL, evs).frames)
    decreases |evs|
  {
    hide EventStep, EventLabels, Describes, TxTracks;
    if evs == [] {
      StartTracks(a);
    } else {
      var n := |evs| - 1;
      WireIsLabelled(a, evs[..n]);
      var before := EventRun(a, TX_INITIAL, evs[..n]);
      TxTracksStep(a, before.tx, Pcm(evs[..n]), evs[n]);
      var more := match evs[n] { case In(x) => [x] case Resync => [] };
      DescribesMore(a, Pcm(evs[..n]), more, Labels(a, evs[..n]), before.frames,
                    EventLabels(before.tx, evs[n]), EventStep(a, before.tx, evs[n]).frames);
    }
  }

  lemma {:induction false} StartTracks(a: Address)
    ensures TxTracks(TX_INITIAL, [])
    ensures Describes(a, [], [], [])
  {
    assert StateAt([], 0) == StateAfter(INITIAL, []);
  }

  /** Labels run on: each starts where its predecessor ended. */
  ghost predicate Chained(ls: seq<Label>, end: nat) {
    && (forall i :: 0 <= i < |ls| - 1 ==> ls[i + 1].k == ls[i].After())
    && (ls != [] ==> ls[|ls| - 1].After() == end)
  }

  lemma {:induction false} LabelsChained(a: Address, evs: seq<Event>)
    ensures Chained(Labels(a, evs), EventRun(a, TX_INITIAL, evs).tx.sent)
    decreases |evs|
  {
    hide TakeSync, SyncFrame, AudioFrame, EncodedBytes, StateAfter;
    if evs != [] {
      var n := |evs| - 1;
      LabelsChained(a, evs[..n]);
      var t := EventRun(a, TX_INITIAL, evs[..n]).tx;
      WireIsLabelled(a, evs[..n]);
      FreshLabelsChained(a, t, evs[n]);
    }
  }

  lemma {:induction false} FreshLabelsChained(a: Address, t: TxState, e: Event)
    requires t.Valid()
    ensures Chained(EventLabels(t, e), EventStep(a, t, e).tx.sent)
    ensures EventLabels(t, e) != [] ==> EventLabels(t, e)[0].k == t.sent
    ensures EventLabels(t, e) == [] ==> EventStep(a, t, e).tx.sent == t.sent
  {
    hide SyncFrame, AudioFrame, EncodedBytes, StateAfter;
  }

  lemma {:induction false} ChainedApart(ls: seq<Label>, end: nat, p: nat, q: nat)
    requires Chained(ls, end) && p < q < |ls|
    ensures ls[p].After() <= ls[q].k
    decreases q
  {
    assert ls[q - 1 + 1].k == ls[q - 1].After();
    if p < q - 1 {
      ChainedApart(ls, end, p, q - 1);
    }
  }

  /** No more than fifty audio frames go out in a row without a SYNC among them. */
  lemma {:induction false} SyncsComeOften(a: Address, evs: seq<Event>, p: nat)
    requires p <= |Labels(a, evs)|
    requires forall i :: p <= i < |Labels(a, evs)| ==> Labels(a, evs)[i].Audio?
    ensures |Labels(a, evs)| - p <= 50
    ensures var t := EventRun(a, TX_INITIAL, evs).tx;
            if t.started then |Labels(a, evs)| - p <= t.sinceSync else Labels(a, evs) == []
    decreases |evs|
  {
    hide EventStep, EventLabels, Describes;
    if evs != [] {
      var n := |evs| - 1;
      var t := EventRun(a, TX_INITIAL, evs[..n]).tx;
      var before, fresh_ := Labels(a, evs[..n]), EventLabels(t, evs[n]);
      WireIsLabelled(a, evs);
      WireIsLabelled(a, evs[..n]);
      FreshCount(a, t, evs[n]);
      var q := if p <= |before| then p else |before|;
      SplitTail(before, fresh_, p);
      SyncsComeOften(a, evs[..n], q);
    }
  }

  /** `n` frames with a SYNC in front of every fiftieth, from the first on. */
  function Schedule(n: nat): seq<Label> {
    if n == 0 then [] else Schedule(n - 1) + (if (n - 1) % 50 == 0 then [Sync(n - 1)] else []) + [Audio(n - 1)]
  }

  /** The transmitter's counters after `n` samples and no request for a SYNC. */
  ghost predicate OnSchedule(t: TxState, n: nat) {
    && t.sent == n / 16 && |t.pending| == n % 16
    && (t.started <==> t.sent > 0)
    && (t.sent > 0 ==> t.sinceSync == (t.sent - 1) % 50 + 1)
  }

  lemma {:induction false} ScheduleStep(a: Address, t: TxState, n: nat, x: Sample)
    requires OnSchedule(t, n)
    ensures OnSchedule(EventStep(a, t, In(x)).tx, n + 1)
    ensures Schedule((n + 1) / 16) == Schedule(n / 16) + EventLabels(t, In(x))
  {
    hide EventStep, EventLabels, Schedule;
    CountersStep(a, t, x);
    Sixteenth(n);
    if n % 16 == 15 {
      Fiftieth(t.sent);
      ScheduleNext(t.sent);
    }
  }

  lemma {:induction false} Sixteenth(n: nat)
    ensures if n % 16 == 15 then (n + 1) / 16 == n / 16 + 1 && (n + 1) % 16 == 0
            else (n + 1) / 16 == n / 16 && (n + 1) % 16 == n % 16 + 1
  {
  }

  lemma {:induction false} ScheduleNext(k: nat)
    ensures Schedule(k + 1) == Schedule(k) + ((if k % 50 == 0 then [Sync(k)] else []) + [Audio(k)])
  {
    assert Schedule(k) + (if k % 50 == 0 then [Sync(k)] else []) + [Audio(k)]
        == Schedule(k) + ((if k % 50 == 0 then [Sync(k)] else []) + [Audio(k)]);
  }

  lemma {:induction false} CountersStep(a: Address, t: TxState, x: Sample)
    requires |t.pending| < 16
    ensures var t' := EventStep(a, t, In(x)).tx; var ls := EventLabels(t, In(x));
            if |t.pending| < 15 then
              ls == [] && t'.sent == t.sent && |t'.pending| == |t.pending| + 1
              && t'.started == t.started && t'.sinceSync == t.sinceSync
            else
              var due := !t.started || t.sinceSync >= 50;
              && ls == (if due then [Sync(t.sent)] else []) + [Audio(t.sent)]
              && t'.sent == t.sent + 1 && t'.pending == [] && t'.started
              && t'.sinceSync == if due then 1 else t.sinceSync + 1
  {
    hide EncodedBytes, StateAfter, SyncFrame, AudioFrame;
  }

  lemma {:induction false} Fiftieth(k: nat)
    ensures k > 0 ==> (k % 50 == 0 <==> (k - 1) % 50 + 1 == 50) && (k % 50 != 0 ==> k % 50 == (k - 1) % 50 + 1)
  {
  }

  /** Left to itself the transmitter keeps to the schedule: SYNC before frame 0 and every fiftieth, nothing else. */
  lemma {:induction false} SyncsOnSchedule(a: Address, evs: seq<Event>)
    requires forall i :: 0 <= i < |evs| ==> evs[i].In?
    ensures Labels(a, evs) == Schedule(|evs| / 16) && OnSchedule(EventRun(a, TX_INITIAL, evs).tx, |evs|)
    decreases |evs|
  {
    hide EventStep, EventLabels, OnSchedule;
    if evs == [] {
      assert OnSchedule(TX_INITIAL, 0) by {
        StartsOnSchedule();
      }
    } else {
      var n := |evs| - 1;
      SyncsOnSchedule(a, evs[..n]);
      ScheduleStep(a, EventRun(a, TX_INITIAL, evs[..n]).tx, n, evs[n].x);
    }
  }

  lemma {:induction false} StartsOnSchedule()
    ensures OnSchedule(TX_INITIAL, 0)
  {
  }

  /** The audio tail of a concatenation lies in its parts. */
  lemma {:induction false} SplitTail(before: seq<Label>, fresh_: seq<Label>, p: nat)
    requires p <= |before + fresh_| && forall i :: p <= i < |before + fresh_| ==> (before + fresh_)[i].Audio?
    ensures forall i :: p <= i < |before| ==> before[i].Audio?
    ensures forall i :: 0 <= i < |fresh_| && p <= |before| + i ==> fresh_[i].Audio?
  {
    forall i | p <= i < |before| ensures before[i].Audio? {
      assert (before + fresh_)[i] == before[i];
    }
    forall i | 0 <= i < |fresh_| && p <= |before| + i ensures fresh_[i].Audio? {
      assert (before + fresh_)[|before| + i] == fresh_[i];
    }
  }

  lemma {:induction false} FreshCount(a: Address, t: TxState, e: Event)
    requires t.Valid()
    ensures var ls := EventLabels(t, e); var t' := EventStep(a, t, e).tx;
            && |ls| <= 2
            && (ls == [] ==> t'.started == t.started && t'.sinceSync == t.sinceSync)
            && (ls != [] ==> t'.started)
            && (ls != [] && ls[0].Audio? ==> |ls| == 1 && t.started && t'.sinceSync == t.sinceSync + 1)
            && (|ls| == 2 ==> ls[0].Sync? && ls[1].Audio? && t'.sinceSync == 1)
  {
  }

  // ---------------------------------------------------------------------------
  // The receiver's end
  // ---------------------------------------------------------------------------

  function RxRun(r: RxState, frames: seq<Frame>): Heard
    decreases |frames|
  {
    if frames == [] then Heard(r, [])
    else
      var before := RxRun(r, frames[..|frames| - 1]);
      var last := Receive(before.rx, frames[|frames| - 1]);
      Heard(last.rx, before.pcm + last.pcm)
  }

  /** The reference: one continuous encode and one continuous decode of the stream. */
  function LossFree(pcm: seq<Sample>): seq<Sample> {
    DecodedBytes(INITIAL, EncodedBytes(INITIAL, pcm))
  }

  /** Frame `k` of the loss-free decode. */
  function Reference(pcm: seq<Sample>, k: nat): seq<Sample>
    requires FRAME_SAMPLES * (k + 1) <= |pcm|
  {
    LossFreeHolds(pcm, k);
    LossFree(pcm)[FRAME_SAMPLES * k..FRAME_SAMPLES * (k + 1)]
  }

  lemma {:induction false} DecodedSize(st: State, bytes: seq<Byte>)
    ensures |DecodedBytes(st, bytes)| == 2 * |bytes|
    decreases |bytes|
  {
    hide Apply;
    if bytes != [] {
      DecodedSize(Apply(Apply(st, bytes[0] % 16), bytes[0] / 16), bytes[1..]);
    }
  }

  lemma {:induction false} LossFreeHolds(pcm: seq<Sample>, k: nat)
    requires FRAME_SAMPLES * (k + 1) <= |pcm|
    ensures FRAME_SAMPLES * (k + 1) <= |LossFree(pcm)|
  {
    hide LossFree;
    LossFreeSize(pcm);
    FramesAreEven(|pcm|, k);
  }

  lemma {:induction false} FramesAreEven(n: nat, k: nat)
    requires FRAME_SAMPLES * (k + 1) <= n
    ensures FRAME_SAMPLES * (k + 1) <= n - n % 2
  {
    var half := n / 2;
    assert n == 2 * half + n % 2;
    assert 8 * (k + 1) <= half;
  }

  lemma {:induction false} LossFreeSize(pcm: seq<Sample>)
    ensures |LossFree(pcm)| == |pcm| - |pcm| % 2
  {
    hide EncodedBytes, DecodedBytes, StateAfter, StateAfterBytes, Reconstruction;
    Lockstep(INITIAL, pcm);
    DecodedSize(INITIAL, EncodedBytes(INITIAL, pcm));
  }

  /** A stretch of the stream decodes by itself, once the decoder has the state before it. */
  lemma {:induction false} MiddleDecodes(pre: seq<Sample>, block: seq<Sample>, rest: seq<Sample>)
    requires |pre| % 2 == 0 && |block| % 2 == 0
    ensures var st := StateAfter(INITIAL, pre); var bytes := EncodedBytes(st, block);
            && 2 * |bytes| == |block|
            && |pre| + |block| <= |LossFree(pre + (block + rest))|
            && LossFree(pre + (block + rest))[|pre|..|pre| + |block|] == DecodedBytes(st, bytes)
            && StateAfterBytes(st, bytes) == StateAfter(INITIAL, pre + block)
  {
    hide EncodedBytes, DecodedBytes, StateAfterBytes, StateAfter, Reconstruction;
    var st := StateAfter(INITIAL, pre);
    var st1 := StateAfter(st, block);
    var b0, b1, b2 := EncodedBytes(INITIAL, pre), EncodedBytes(st, block), EncodedBytes(st1, rest);
    EncodedConcat(INITIAL, pre, block + rest);
    EncodedConcat(st, block, rest);
    Lockstep(INITIAL, pre);
    Lockstep(st, block);
    assert EvenPart(pre) == pre && EvenPart(block) == block;
    BytesConcat(INITIAL, b0, b1 + b2);
    BytesConcat(st, b1, b2);
    DecodedSize(INITIAL, b0);
    DecodedSize(st, b1);
    var p0, p1, p2 := DecodedBytes(INITIAL, b0), DecodedBytes(st, b1), DecodedBytes(st1, b2);
    assert LossFree(pre + (block + rest)) == p0 + (p1 + p2);
    assert (p0 + (p1 + p2))[|p0|..|p0| + |p1|] == p1;
    StateAfterConcat(INITIAL, pre, block);
  }

  /** Seeded with the state before frame `k`, its bytes decode to the reference. */
  lemma {:induction false} FrameDecodesToReference(pcm: seq<Sample>, k: nat)
    requires FRAME_SAMPLES * (k + 1) <= |pcm|
    ensures var bytes := EncodedBytes(StateAt(pcm, k), Block(pcm, k));
            && |bytes| == FRAME_BYTES
            && DecodedBytes(StateAt(pcm, k), bytes) == Reference(pcm, k)
            && StateAfterBytes(StateAt(pcm, k), bytes) == StateAt(pcm, k + 1)
  {
    hide EncodedBytes, DecodedBytes, StateAfterBytes, StateAfter, LossFree;
    var n := FRAME_SAMPLES * k;
    var pre, block, rest := pcm[..n], Block(pcm, k), pcm[n + FRAME_SAMPLES..];
    assert |pre| % 2 == 0 by { assert n == 2 * (8 * k); }
    assert pcm == pre + (block + rest) by { assert pcm[n..] == block + rest; }
    MiddleDecodes(pre, block, rest);
    assert pre + block == pcm[..FRAME_SAMPLES * (k + 1)];
  }

  lemma {:induction false} ReceiveSync(r: RxState, a: Address, st: State, k: nat)
    ensures Receive(r, SyncFrame(a, st, k)) == Heard(RxState(st, k % 256, true, r.gaps), [])
  {
    hide CanId.Pack, CanId.Cls, CanId.Type, CanId.Low;
    CanId.FieldsSurvive(CanId.CLS_AUDIO, a.src, a.dst, CanId.T_AUDIO_SYNC, k % 256);
    LowByte(k);
    var u := ToU16(st.predictor);
    assert JoinU16(u % 256, u / 256) == u;
  }

  /** An audio frame is decoded exactly when the receiver is locked and the low bytes agree. */
  lemma {:induction false} ReceiveAudio(r: RxState, a: Address, k: nat, adpcm: seq<Byte>)
    requires |adpcm| == FRAME_BYTES
    ensures Receive(r, AudioFrame(a, k, adpcm))
            == if !r.locked then Heard(r, [])
               else if k % 256 == r.expected then
                 Heard(r.(dec := StateAfterBytes(r.dec, adpcm), expected := (k + 1) % 256), DecodedBytes(r.dec, adpcm))
               else Heard(r.(gaps := (r.gaps + 1) % U32, locked := false), SILENCE)
  {
    hide CanId.Pack, CanId.Cls, CanId.Type, CanId.Low, DecodedBytes, StateAfterBytes;
    var typ := if a.dir == DIR_UP then CanId.T_AUDIO_UP else CanId.T_AUDIO_DOWN;
    CanId.FieldsSurvive(CanId.CLS_AUDIO, a.src, a.dst, typ, k % 256);
    assert (k % 256 + 1) % 256 == (k + 1) % 256;
  }

  // ---------------------------------------------------------------------------
  // Deliveries, and what ought to be heard
  // ---------------------------------------------------------------------------

  /** `at` lists, in order, which of `n` sent frames arrived. */
  predicate Subsequence(at: seq<nat>, n: nat) {
    && (forall i :: 0 <= i < |at| ==> at[i] < n)
    && (forall i, j :: 0 <= i < j < |at| ==> at[i] < at[j])
  }

  function Pick<T>(s: seq<T>, at: seq<nat>): seq<T>
    requires Subsequence(at, |s|)
  {
    seq(|at|, i requires 0 <= i < |at| => s[at[i]])
  }

  /** Deliveries in order: no label starts before its predecessor ended. */
  ghost predicate InOrder(d: seq<Label>) {
    forall i :: 0 < i < |d| ==> d[i - 1].After() <= d[i].k
  }

  /** A delivered SYNC, and since then nothing but the frames that follow it, none missing. */
  ghost predicate Locked(d: seq<Label>) {
    exists s :: LockedSince(d, s)
  }

  ghost predicate LockedSince(d: seq<Label>, s: nat) {
    && s < |d| && d[s].Sync?
    && forall i :: s < i < |d| ==> d[i].Audio? && d[i].k == d[i - 1].After()
  }

  /** Audio delivery `i` follows, while locked, a loss of a positive multiple of 256 frames. */
  ghost predicate Aliased(d: seq<Label>, i: nat) {
    && 0 < i < |d| && d[i].Audio? && Locked(d[..i])
    && var missing := d[i].k - d[i - 1].After(); missing > 0 && missing % 256 == 0
  }

  /** No loss that an eight-bit sequence number cannot show happens while it matters. */
  ghost predicate NoAliasedLoss(d: seq<Label>) {
    forall i: nat :: !Aliased(d, i)
  }

  lemma {:induction false} AliasedPrefix(d: seq<Label>, n: nat, i: nat)
    requires i < n <= |d|
    ensures Aliased(d[..n], i) <==> Aliased(d, i)
  {
    hide Locked;
    assert d[..n][..i] == d[..i];
  }

  /** The samples that should be heard: reference frames while locked, one silence per break. */
  ghost function Played(pcm: seq<Sample>, d: seq<Label>): seq<Sample>
    requires forall i :: 0 <= i < |d| ==> InStream(pcm, d[i])
    decreases |d|
  {
    if d == [] then []
    else
      var n := |d| - 1;
      assert InStream(pcm, d[n]);
      Played(pcm, d[..n])
      + if d[n].Sync? then []
        else if Locked(d) then Reference(pcm, d[n].k)
        else if Locked(d[..n]) then SILENCE
        else []
  }

  ghost function Breaks(d: seq<Label>): nat
    decreases |d|
  {
    if d == [] then 0
    else Breaks(d[..|d| - 1]) + if Locked(d[..|d| - 1]) && !Locked(d) then 1 else 0
  }

  lemma {:induction false} LockedStep(d: seq<Label>)
    requires d != []
    ensures var n := |d| - 1;
            Locked(d) <==> d[n].Sync? || (Locked(d[..n]) && d[n].k == d[n - 1].After())
  {
    var n := |d| - 1;
    if d[n].Sync? {
      assert LockedSince(d, n);
    } else {
      if Locked(d) {
        var s :| LockedSince(d, s);
        assert LockedSince(d[..n], s);
      }
      if Locked(d[..n]) && d[n].k == d[n - 1].After() {
        var s :| LockedSince(d[..n], s);
        assert LockedSince(d, s);
      }
    }
  }

  /** The receiver after deliveries `d` of the stream `pcm`. */
  ghost predicate RxTracks(r: RxState, pcm: seq<Sample>, d: seq<Label>) {
    && r.gaps == Breaks(d) % U32
    && r.locked == Locked(d)
    && (r.locked ==>
          d != [] && InStream(pcm, d[|d| - 1])
          && var k := d[|d| - 1].After(); r.expected == k % 256 && r.dec == StateAt(pcm, k))
  }

  lemma {:induction false} RxTracksSync(r: RxState, a: Address, pcm: seq<Sample>, d: seq<Label>)
    requires d != [] && d[|d| - 1].Sync? && InStream(pcm, d[|d| - 1])
    requires RxTracks(r, pcm, d[..|d| - 1])
    ensures var h := Receive(r, FrameOf(a, pcm, d[|d| - 1])); RxTracks(h.rx, pcm, d) && h.pcm == []
  {
    hide Receive, SyncFrame, Locked, StateAfter;
    LockedStep(d);
    var k := d[|d| - 1].k;
    ReceiveSync(r, a, StateAt(pcm, k), k);
  }

  lemma {:induction false} RxTracksAudio(r: RxState, a: Address, pcm: seq<Sample>, d: seq<Label>)
    requires d != [] && d[|d| - 1].Audio? && InStream(pcm, d[|d| - 1])
    requires InOrder(d) && NoAliasedLoss(d)
    requires RxTracks(r, pcm, d[..|d| - 1])
    ensures var n := |d| - 1; var h := Receive(r, FrameOf(a, pcm, d[n]));
            && RxTracks(h.rx, pcm, d)
            && h.pcm == if Locked(d) then Reference(pcm, d[n].k) else if Locked(d[..n]) then SILENCE else []
  {
    hide Receive, AudioFrame, Locked, StateAt, Reference, Block, EncodedBytes, DecodedBytes, StateAfterBytes;
    var n := |d| - 1;
    var k := d[n].k;
    LockedStep(d);
    FrameDecodesToReference(pcm, k);
    ReceiveAudio(r, a, k, EncodedBytes(StateAt(pcm, k), Block(pcm, k)));
    if r.locked {
      var from := d[..n][n - 1].After();
      assert from == d[n - 1].After();
      AliasArithmetic(from, k);
      assert !Aliased(d, n);
    }
  }

  lemma {:induction false} RxTracksStep(r: RxState, a: Address, pcm: seq<Sample>, d: seq<Label>)
    requires d != [] && InOrder(d) && NoAliasedLoss(d)
    requires forall i :: 0 <= i < |d| ==> InStream(pcm, d[i])
    requires RxTracks(r, pcm, d[..|d| - 1])
    ensures var h := Receive(r, FrameOf(a, pcm, d[|d| - 1]));
            && RxTracks(h.rx, pcm, d)
            && Played(pcm, d) == Played(pcm, d[..|d| - 1]) + h.pcm
  {
    hide Receive, FrameOf, Locked, RxTracks, Reference;
    if d[|d| - 1].Sync? {
      RxTracksSync(r, a, pcm, d);
    } else {
      RxTracksAudio(r, a, pcm, d);
    }
  }

  lemma {:induction false} AliasArithmetic(from: nat, k: nat)
    requires from <= k
    ensures k % 256 == from % 256 <==> (k - from) % 256 == 0
  {
  }

  /**
   For every run of the transmitter and every in-order delivery whose losses do not
   alias, what the receiver appends is exactly `Played`: bit-identical reference
   frames, and one frame of silence per break.
   */
  lemma {:induction false} ReceiverHearsReference(a: Address, evs: seq<Event>, at: seq<nat>)
    requires Subsequence(at, |Labels(a, evs)|)
    requires NoAliasedLoss(Pick(Labels(a, evs), at))
    ensures Subsequence(at, |EventRun(a, TX_INITIAL, evs).frames|)
    ensures var d := Pick(Labels(a, evs), at);
            var h := RxRun(RX_INITIAL, Pick(EventRun(a, TX_INITIAL, evs).frames, at));
            && (forall i :: 0 <= i < |d| ==> InStream(Pcm(evs), d[i]))
            && h.pcm == Played(Pcm(evs), d)
            && RxTracks(h.rx, Pcm(evs), d)
  {
    hide FrameOf, Labels, EventRun, Pcm, Played, RxTracks, Receive;
    var frames, ls := EventRun(a, TX_INITIAL, evs).frames, Labels(a, evs);
    WireIsLabelled(a, evs);
    LabelsChained(a, evs);
    var d := Pick(ls, at);
    forall i | 0 < i < |d| ensures d[i - 1].After() <= d[i].k {
      ChainedApart(ls, EventRun(a, TX_INITIAL, evs).tx.sent, at[i - 1], at[i]);
    }
    DeliveriesPlayed(a, Pcm(evs), d, Pick(frames, at));
  }

  lemma {:induction false} PrefixDelivered(a: Address, pcm: seq<Sample>, d: seq<Label>, frames: seq<Frame>)
    requires Describes(a, pcm, d, frames) && InOrder(d) && NoAliasedLoss(d) && d != []
    ensures var n := |d| - 1;
            Describes(a, pcm, d[..n], frames[..n]) && InOrder(d[..n]) && NoAliasedLoss(d[..n])
  {
    hide FrameOf, Aliased;
    var n := |d| - 1;
    forall i: nat ensures !Aliased(d[..n], i) {
      NotAliasedBefore(d, n, i);
    }
  }

  lemma {:induction false} DeliveriesPlayed(a: Address, pcm: seq<Sample>, d: seq<Label>, frames: seq<Frame>)
    requires Describes(a, pcm, d, frames) && InOrder(d) && NoAliasedLoss(d)
    ensures RxTracks(RxRun(RX_INITIAL, frames).rx, pcm, d)
    ensures RxRun(RX_INITIAL, frames).pcm == Played(pcm, d)
    decreases |d|
  {
    hide FrameOf, RxTracks, Receive;
    if d == [] {
      NothingHeard(pcm);
    } else {
      var n := |d| - 1;
      PrefixDelivered(a, pcm, d, frames);
      DeliveriesPlayed(a, pcm, d[..n], frames[..n]);
      hide NoAliasedLoss, InOrder, Played;
      RxTracksStep(RxRun(RX_INITIAL, frames[..n]).rx, a, pcm, d);
    }
  }

  lemma {:induction false} NothingHeard(pcm: seq<Sample>)
    ensures RxTracks(RX_INITIAL, pcm, [])
  {
  }

  /** The exact limit: a locked receiver takes audio frame `k` for the expected one iff the loss aliases. */
  lemma {:induction false} AcceptedIffAliased(r: RxState, a: Address, pcm: seq<Sample>, d: seq<Label>, k: nat)
    requires RxTracks(r, pcm, d) && Locked(d) && d[|d| - 1].After() <= k
    requires FRAME_SAMPLES * (k + 1) <= |pcm|
    ensures var h := Receive(r, FrameOf(a, pcm, Audio(k)));
            && (h.rx.locked <==> (k - d[|d| - 1].After()) % 256 == 0)
            && (h.rx.gaps == r.gaps <==> h.rx.locked)
  {
    hide Receive, Locked, Breaks, AudioFrame, StateAt, Block, Reference, EncodedBytes, DecodedBytes, StateAfterBytes;
    var adpcm := EncodedBytes(StateAt(pcm, k), Block(pcm, k));
    FrameDecodesToReference(pcm, k);
    ReceiveAudio(r, a, k, adpcm);
    AliasArithmetic(d[|d| - 1].After(), k);
    GapCounts(r.gaps);
  }

  lemma {:induction false} GapCounts(gaps: nat)
    requires gaps < U32
    ensures (gaps + 1) % U32 != gaps
  {
  }

  /** An aliased loss leaves the receiver locked on frames it takes for others. */
  lemma {:induction false} AliasMisleads(r: RxState, a: Address, pcm: seq<Sample>, d: seq<Label>, i: nat)
    requires Aliased(d, i) && InStream(pcm, d[i]) && RxTracks(r, pcm, d[..i])
    ensures !RxTracks(Receive(r, FrameOf(a, pcm, d[i])).rx, pcm, d[..i + 1])
  {
    hide Receive, FrameOf, Locked, StateAt, Breaks;
    var now := d[..i + 1];
    assert d[..i][i - 1] == d[i - 1] && now[..i] == d[..i] && now[i - 1] == d[i - 1] && now[i] == d[i];
    LockedStep(now);
    AcceptedIffAliased(r, a, pcm, d[..i], d[i].k);
  }

  lemma {:induction false} RxRunNext(frames: seq<Frame>, n: nat)
    requires n < |frames|
    ensures RxRun(RX_INITIAL, frames[..n + 1]).rx == Receive(RxRun(RX_INITIAL, frames[..n]).rx, frames[n]).rx
  {
    hide Receive;
    assert frames[..n + 1][..n] == frames[..n];
  }

  /** The receiver follows the deliveries at every point if and only if no loss aliases. */
  lemma {:induction false} TracksExactly(a: Address, pcm: seq<Sample>, d: seq<Label>, frames: seq<Frame>)
    requires Describes(a, pcm, d, frames) && InOrder(d)
    ensures NoAliasedLoss(d)
            <==> forall n: nat :: n <= |d| ==> RxTracks(RxRun(RX_INITIAL, frames[..n]).rx, pcm, d[..n])
  {
    hide RxTracks, RxRun, FrameOf, Aliased;
    if NoAliasedLoss(d) {
      forall n: nat | n <= |d| ensures RxTracks(RxRun(RX_INITIAL, frames[..n]).rx, pcm, d[..n]) {
        forall i: nat ensures !Aliased(d[..n], i) {
          NotAliasedBefore(d, n, i);
        }
        DeliveriesPlayed(a, pcm, d[..n], frames[..n]);
      }
    } else {
      var i: nat :| Aliased(d, i);
      AliasedWithin(d, i);
      RxRunNext(frames, i);
      if RxTracks(RxRun(RX_INITIAL, frames[..i]).rx, pcm, d[..i]) {
        AliasMisleads(RxRun(RX_INITIAL, frames[..i]).rx, a, pcm, d, i);
      }
    }
  }

  lemma {:induction false} AliasedWithin(d: seq<Label>, i: nat)
    requires Aliased(d, i)
    ensures i < |d|
  {
  }

  lemma {:induction false} NotAliasedBefore(d: seq<Label>, n: nat, i: nat)
    requires n <= |d| && !Aliased(d, i)
    ensures !Aliased(d[..n], i)
  {
    if i < n {
      AliasedPrefix(d, n, i);
    }
  }

  /** The same for every run of the transmitter and every in-order delivery of its frames. */
  lemma {:induction false} ReceiverTracksExactly(a: Address, evs: seq<Event>, at: seq<nat>)
    requires Subsequence(at, |Labels(a, evs)|)
    ensures Subsequence(at, |EventRun(a, TX_INITIAL, evs).frames|)
    ensures var d := Pick(Labels(a, evs), at);
            var frames := Pick(EventRun(a, TX_INITIAL, evs).frames, at);
            NoAliasedLoss(d)
            <==> forall n: nat :: n <= |d| ==> RxTracks(RxRun(RX_INITIAL, frames[..n]).rx, Pcm(evs), d[..n])
  {
    hide FrameOf, Labels, EventRun, Pcm, RxTracks, RxRun, NoAliasedLoss;
    var frames, ls := EventRun(a, TX_INITIAL, evs).frames, Labels(a, evs);
    WireIsLabelled(a, evs);
    LabelsChained(a, evs);
    var d := Pick(ls, at);
    forall i | 0 < i < |d| ensures d[i - 1].After() <= d[i].k {
      ChainedApart(ls, EventRun(a, TX_INITIAL, evs).tx.sent, at[i - 1], at[i]);
    }
    TracksExactly(a, Pcm(evs), d, Pick(frames, at));
  }

  // ---------------------------------------------------------------------------
  // Nothing lost
  // ---------------------------------------------------------------------------

  lemma {:induction false} StartsWithSync(a: Address, evs: seq<Event>)
    ensures Labels(a, evs) != [] ==> Labels(a, evs)[0] == Sync(0)
    ensures var t := EventRun(a, TX_INITIAL, evs).tx;
            Labels(a, evs) == [] ==> t.sent == 0 && !t.started
    decreases |evs|
  {
    hide EventStep, Describes, Labels;
    if evs == [] {
      assert Labels(a, evs) == [] by { NoLabels(a); }
    } else {
      var n := |evs| - 1;
      StartsWithSync(a, evs[..n]);
      WireIsLabelled(a, evs[..n]);
      var t := EventRun(a, TX_INITIAL, evs[..n]).tx;
      FreshLabelsChained(a, t, evs[n]);
      FreshCount(a, t, evs[n]);
      LabelsUnfold(a, evs);
    }
  }

  lemma {:induction false} NoLabels(a: Address)
    ensures Labels(a, []) == []
  {
  }

  lemma {:induction false} LabelsUnfold(a: Address, evs: seq<Event>)
    requires evs != []
    ensures var before := evs[..|evs| - 1];
            Labels(a, evs) == Labels(a, before) + EventLabels(EventRun(a, TX_INITIAL, before).tx, evs[|evs| - 1])
  {
  }

  function WholeFrames(pcm: seq<Sample>): seq<Sample> {
    pcm[..|pcm| - |pcm| % FRAME_SAMPLES]
  }

  lemma {:induction false} LabelsInStream(a: Address, pcm: seq<Sample>, ls: seq<Label>, frames: seq<Frame>)
    requires Describes(a, pcm, ls, frames)
    ensures |ls| == |frames| && forall i :: 0 <= i < |ls| ==> InStream(pcm, ls[i])
  {
  }

  lemma {:induction false} WholeFramesSent(t: TxState, pcm: seq<Sample>)
    requires TxTracks(t, pcm)
    ensures WholeFrames(pcm) == pcm[..FRAME_SAMPLES * t.sent]
  {
    hide StateAt;
    Remainder(t.sent, |t.pending|);
  }

  lemma {:induction false} Remainder(q: nat, r: nat)
    requires r < FRAME_SAMPLES
    ensures (FRAME_SAMPLES * q + r) % FRAME_SAMPLES == r
  {
  }

  /** With no losses every complete frame of the stream is heard, and nothing else. */
  lemma {:induction false} NoLossesNoSilence(a: Address, evs: seq<Event>)
    ensures var h := RxRun(RX_INITIAL, EventRun(a, TX_INITIAL, evs).frames);
            && h.pcm == LossFree(WholeFrames(Pcm(evs)))
            && h.rx.gaps == 0
  {
    hide FrameOf, Labels, EventRun, Pcm, Played, Receive, LossFree, StateAt, Locked, WholeFrames, Describes, TxTracks;
    var pcm, ls := Pcm(evs), Labels(a, evs);
    var run := EventRun(a, TX_INITIAL, evs);
    WireIsLabelled(a, evs);
    LabelsInStream(a, pcm, ls, run.frames);
    LabelsChained(a, evs);
    StartsWithSync(a, evs);
    forall i | 0 < i < |ls| ensures ls[i - 1].After() == ls[i].k {
      assert ls[i - 1 + 1].k == ls[i - 1].After();
    }
    DeliveriesPlayed(a, pcm, ls, run.frames);
    AllPlayed(pcm, ls);
    WholeFramesSent(run.tx, pcm);
  }

  lemma {:induction false} AllPlayed(pcm: seq<Sample>, ls: seq<Label>)
    requires forall i :: 0 <= i < |ls| ==> InStream(pcm, ls[i])
    requires forall i :: 0 < i < |ls| ==> ls[i - 1].After() == ls[i].k
    requires ls != [] ==> ls[0] == Sync(0)
    ensures Breaks(ls) == 0
    ensures var k := if ls == [] then 0 else ls[|ls| - 1].After();
            Played(pcm, ls) == LossFree(pcm[..FRAME_SAMPLES * k])
    ensures ls != [] ==> Locked(ls)
    decreases |ls|
  {
    hide Locked, LossFree, Reference;
    if ls == [] {
      NothingToDecode(pcm);
    } else {
      var n := |ls| - 1;
      AllPlayed(pcm, ls[..n]);
      LockedStep(ls);
      if ls[n].Audio? {
        LossFreeGrows(pcm, ls[n].k);
      }
    }
  }

  lemma {:induction false} NothingToDecode(pcm: seq<Sample>)
    ensures LossFree(pcm[..0]) == []
  {
  }

  lemma {:induction false} LossFreeGrows(pcm: seq<Sample>, k: nat)
    requires FRAME_SAMPLES * (k + 1) <= |pcm|
    ensures LossFree(pcm[..FRAME_SAMPLES * (k + 1)]) == LossFree(pcm[..FRAME_SAMPLES * k]) + Reference(pcm, k)
  {
    hide EncodedBytes, DecodedBytes, StateAfterBytes, StateAfter, Reference, EvenPart;
    FrameDecodesToReference(pcm, k);
    var n := FRAME_SAMPLES * k;
    var pre, block := pcm[..n], Block(pcm, k);
    FrameBehind(pcm, n);
    BlockAppended(pre, block);
  }

  lemma {:induction false} FrameBehind(pcm: seq<Sample>, n: nat)
    requires n + FRAME_SAMPLES <= |pcm|
    ensures pcm[..n + FRAME_SAMPLES] == pcm[..n] + pcm[n..n + FRAME_SAMPLES]
  {
  }

  lemma {:induction false} BlockAppended(pre: seq<Sample>, block: seq<Sample>)
    requires |pre| % 2 == 0
    ensures LossFree(pre + block)
         == LossFree(pre) + DecodedBytes(StateAfter(INITIAL, pre), EncodedBytes(StateAfter(INITIAL, pre), block))
  {
    hide EncodedBytes, DecodedBytes, StateAfterBytes, StateAfter;
    EncodedConcat(INITIAL, pre, block);
    Lockstep(INITIAL, pre);
    assert EvenPart(pre) == pre;
    BytesConcat(INITIAL, EncodedBytes(INITIAL, pre), EncodedBytes(StateAfter(INITIAL, pre), block));
  }
}
