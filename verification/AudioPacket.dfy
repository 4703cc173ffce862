/**
 The AUDIO plane: sixteen-sample frames of ADPCM, a SYNC frame before frame 0 and
 every fiftieth frame, and a receiver that accepts frames in sequence only.

 A frame's sequence number travels as its low byte, so the model counts frames
 with an unbounded `sent` and reduces it where the code truncates.
 */
module AudioPacket {
  import opened WireTypes
  import opened AdpcmCodec
  import opened Bounded
  import CanId

  const FRAME_SAMPLES := 16
  const FRAME_BYTES := 8
  const SYNC_INTERVAL := 50
  const RING_SAMPLES := 4096
  const DIR_UP := 1

  /** A CAN frame; its data length code is the length of `data`. */
  datatype Frame = Frame(id: int, data: seq<Byte>)

  datatype Address = Address(dir: Byte, src: Byte, dst: Byte)

  function ToU16(x: Sample): U16 {
    if x < 0 then x + 65536 else x
  }

  function JoinU16(lo: int, hi: int): U16
    requires 0 <= lo < 256 && 0 <= hi < 256
  {
    lo + 256 * hi
  }

  function FromU16(u: U16): Sample {
    if u >= 32768 then u - 65536 else u
  }

  /** SYNC for frame `k`: the encoder state that holds before that frame. */
  function SyncFrame(a: Address, st: State, k: nat): Frame {
    Frame(CanId.Pack(CanId.CLS_AUDIO, a.src, a.dst, CanId.T_AUDIO_SYNC, k % 256),
          [a.dir, st.stepIndex, ToU16(st.predictor) % 256, ToU16(st.predictor) / 256,
           k % 65536 % 256, k % 65536 / 256, 0, 0])
  }

  function AudioFrame(a: Address, k: nat, adpcm: seq<Byte>): Frame {
    var typ := if a.dir == DIR_UP then CanId.T_AUDIO_UP else CanId.T_AUDIO_DOWN;
    Frame(CanId.Pack(CanId.CLS_AUDIO, a.src, a.dst, typ, k % 256), adpcm)
  }

  /** The transmitter's sixteen-bit counter builds the same frames as the true number. */
  lemma {:induction false} CounterSuffices(a: Address, st: State, k: nat, adpcm: seq<Byte>)
    ensures SyncFrame(a, st, k % 65536) == SyncFrame(a, st, k)
    ensures AudioFrame(a, k % 65536, adpcm) == AudioFrame(a, k, adpcm)
  {
    hide CanId.Pack;
    LowByte(k);
  }

  /**
   What a receiver is shown of a frame number: an audio frame carries it modulo 256, a SYNC
   carries it modulo 65536 and shows the same low byte.
   */
  lemma {:induction false} SequenceTruncates(a: Address, st: State, k: nat, adpcm: seq<Byte>)
    ensures CanId.Low(AudioFrame(a, k, adpcm).id) == k % 256 && CanId.Low(SyncFrame(a, st, k).id) == k % 256
    ensures var d := SyncFrame(a, st, k).data; |d| == 8 && JoinU16(d[4], d[5]) == k % 65536 && d[4] == k % 256
    ensures AudioFrame(a, k % 256, adpcm) == AudioFrame(a, k, adpcm)
  {
    hide CanId.Pack, CanId.Cls, CanId.Type, CanId.Low;
    LowByte(k);
    CanId.FieldsSurvive(CanId.CLS_AUDIO, a.src, a.dst, CanId.T_AUDIO_SYNC, k % 256);
    var typ := if a.dir == DIR_UP then CanId.T_AUDIO_UP else CanId.T_AUDIO_DOWN;
    CanId.FieldsSurvive(CanId.CLS_AUDIO, a.src, a.dst, typ, k % 256);
  }

  /** A SYNC payload: direction, step index, predictor and frame number low byte first, two zeros. */
  ghost predicate SyncPayload(d: seq<Byte>, dir: Byte, st: State, k: nat) {
    |d| == 8 &&
    var lo: int, hi: int, kLo: int, kHi: int := d[2], d[3], d[4], d[5];
    && d[0] == dir && d[1] == st.stepIndex && d[6] == 0 && d[7] == 0
    && lo + 256 * hi == (if st.predictor < 0 then 65536 + st.predictor else st.predictor)
    && kLo + 256 * kHi == k % 65536
  }

  /** On the wire: class 4, types 0x41 up, 0x40 down and 0x42 for SYNC, between the two addresses. */
  lemma {:induction false} FramesOnTheWire(a: Address, st: State, k: nat, adpcm: seq<Byte>)
    ensures var f := AudioFrame(a, k, adpcm);
            && CanId.Cls(f.id) == 4 && CanId.Src(f.id) == a.src % 32 && CanId.Dst(f.id) == a.dst % 32
            && CanId.Type(f.id) == (if a.dir == 1 then 0x41 else 0x40) && f.data == adpcm
    ensures var f := SyncFrame(a, st, k);
            && CanId.Cls(f.id) == 4 && CanId.Src(f.id) == a.src % 32 && CanId.Dst(f.id) == a.dst % 32
            && CanId.Type(f.id) == 0x42 && SyncPayload(f.data, a.dir, st, k)
  {
    hide CanId.Pack, CanId.Cls, CanId.Src, CanId.Dst, CanId.Type, CanId.Low;
    CanId.FieldsSurvive(CanId.CLS_AUDIO, a.src, a.dst, CanId.T_AUDIO_SYNC, k % 256);
    var typ := if a.dir == DIR_UP then CanId.T_AUDIO_UP else CanId.T_AUDIO_DOWN;
    CanId.FieldsSurvive(CanId.CLS_AUDIO, a.src, a.dst, typ, k % 256);
  }

  lemma {:induction false} LowByte(k: nat)
    ensures k % 65536 % 256 == k % 256
  {
    var q, r := k / 65536, k % 65536;
    assert k == 65536 * q + r && r == 256 * (r / 256) + r % 256;
    RemainderIs(k, 256 * q + r / 256, r % 256);
  }

  lemma {:induction false} RemainderIs(k: nat, a: nat, b: nat)
    requires k == 256 * a + b && b < 256
    ensures k % 256 == b
  {
  }

  // ---------------------------------------------------------------------------
  // Transmitter
  // ---------------------------------------------------------------------------

  datatype TxState = TxState(enc: State, sent: nat, sinceSync: nat, started: bool, pending: seq<Sample>)
  {
    predicate Valid() {
      |pending| < FRAME_SAMPLES && sinceSync <= SYNC_INTERVAL
    }

    predicate SyncDue() {
      !started || sinceSync >= SYNC_INTERVAL
    }
  }

  datatype Sent = Sent(tx: TxState, frames: seq<Frame>)

  const TX_INITIAL := TxState(INITIAL, 0, 0, false, [])

  function TakeSync(a: Address, t: TxState): Sent {
    Sent(t.(sinceSync := 0, started := true), [SyncFrame(a, t.enc, t.sent)])
  }

  /** A full block: encoded and emitted, with a SYNC in front of it when one is due. */
  function TakeBlock(a: Address, t: TxState, block: seq<Sample>): Sent {
    var synced := if t.SyncDue() then TakeSync(a, t) else Sent(t, []);
    Sent(TxState(StateAfter(t.enc, block), t.sent + 1, synced.tx.sinceSync + 1, synced.tx.started, []),
         synced.frames + [AudioFrame(a, t.sent, EncodedBytes(t.enc, block))])
  }

  /** One more sample: buffered, or the one that completes a frame. */
  function TakeSample(a: Address, t: TxState, x: Sample): Sent {
    var block := t.pending + [x];
    if |block| < FRAME_SAMPLES then Sent(t.(pending := block), []) else TakeBlock(a, t, block)
  }

  /** A whole push is its samples taken one at a time, so how a stream is cut up cannot matter. */
  function TakeAll(a: Address, t: TxState, pcm: seq<Sample>): Sent
    decreases |pcm|
  {
    if pcm == [] then Sent(t, [])
    else
      var first := TakeSample(a, t, pcm[0]);
      var rest := TakeAll(a, first.tx, pcm[1..]);
      Sent(rest.tx, first.frames + rest.frames)
  }

  lemma {:induction false} TakeAllConcat(a: Address, t: TxState, p: seq<Sample>, q: seq<Sample>)
    ensures TakeAll(a, t, p + q)
            == Sent(TakeAll(a, TakeAll(a, t, p).tx, q).tx,
                    TakeAll(a, t, p).frames + TakeAll(a, TakeAll(a, t, p).tx, q).frames)
    decreases |p|
  {
    hide TakeSample;
    if p == [] {
      assert p + q == q;
    } else {
      assert (p + q)[1..] == p[1..] + q;
      TakeAllConcat(a, TakeSample(a, t, p[0]).tx, p[1..], q);
    }
  }

  /** However a stream is pushed, every sixteenth sample completes a frame and the rest wait. */
  lemma {:induction false} TakeAllCounts(a: Address, t: TxState, pcm: seq<Sample>)
    requires |t.pending| < 16
    ensures var t' := TakeAll(a, t, pcm).tx;
            t'.sent == t.sent + (|t.pending| + |pcm|) / 16 && |t'.pending| == (|t.pending| + |pcm|) % 16
    decreases |pcm|
  {
    hide TakeSample;
    if pcm == [] {
    } else {
      TakeSampleCounts(a, t, pcm[0]);
      TakeAllCounts(a, TakeSample(a, t, pcm[0]).tx, pcm[1..]);
    }
  }

  lemma {:induction false} TakeSampleCounts(a: Address, t: TxState, x: Sample)
    requires |t.pending| < 16
    ensures var t' := TakeSample(a, t, x).tx;
            if |t.pending| == 15 then t'.sent == t.sent + 1 && t'.pending == []
            else t'.sent == t.sent && |t'.pending| == |t.pending| + 1
  {
    hide EncodedBytes, StateAfter, SyncFrame, AudioFrame;
  }

  lemma {:induction false} BufferOne(a: Address, t: TxState, x: Sample)
    requires |t.pending| + 1 < FRAME_SAMPLES
    ensures TakeSample(a, t, x) == Sent(t.(pending := t.pending + [x]), [])
  {
  }

  lemma {:induction false} TakeFirst(a: Address, t: TxState, pcm: seq<Sample>)
    requires pcm != []
    ensures var first := TakeSample(a, t, pcm[0]); var rest := TakeAll(a, first.tx, pcm[1..]);
            TakeAll(a, t, pcm) == Sent(rest.tx, first.frames + rest.frames)
  {
    hide TakeSample;
  }

  /** Samples that do not complete a frame are only buffered. */
  lemma {:induction false} TakeAllBuffers(a: Address, t: TxState, pcm: seq<Sample>)
    requires |t.pending| + |pcm| < FRAME_SAMPLES
    ensures TakeAll(a, t, pcm) == Sent(t.(pending := t.pending + pcm), [])
    decreases |pcm|
  {
    hide TakeSample;
    if pcm == [] {
      assert t.pending + pcm == t.pending;
    } else {
      var block := t.pending + [pcm[0]];
      BufferOne(a, t, pcm[0]);
      TakeAllBuffers(a, t.(pending := block), pcm[1..]);
      TakeFirst(a, t, pcm);
      hide TakeAll;
      assert block + pcm[1..] == t.pending + pcm;
    }
  }

  /** Samples that exactly fill the pending frame emit that frame. */
  lemma {:induction false} TakeAllCompletes(a: Address, t: TxState, pcm: seq<Sample>)
    requires |t.pending| < FRAME_SAMPLES && |t.pending| + |pcm| == FRAME_SAMPLES
    ensures TakeAll(a, t, pcm) == TakeBlock(a, t, t.pending + pcm)
  {
    hide TakeBlock;
    var n := |pcm| - 1;
    assert pcm == pcm[..n] + [pcm[n]];
    TakeAllConcat(a, t, pcm[..n], [pcm[n]]);
    TakeAllBuffers(a, t, pcm[..n]);
    var t' := t.(pending := t.pending + pcm[..n]);
    assert t'.pending + [pcm[n]] == t.pending + pcm;
    var last := TakeSample(a, t', pcm[n]);
    assert [pcm[n]][1..] == [];
    assert TakeAll(a, t', [pcm[n]]) == Sent(last.tx, last.frames + []);
    PendingIsSpent(a, t, t', t.pending + pcm);
  }

  /** What a block becomes does not depend on what was pending. */
  lemma {:induction false} PendingIsSpent(a: Address, t: TxState, t': TxState, block: seq<Sample>)
    requires t'.(pending := t.pending) == t
    ensures TakeBlock(a, t, block) == TakeBlock(a, t', block)
  {
  }

  lemma {:induction false} TakeNothing(a: Address, t: TxState)
    ensures TakeAll(a, t, []) == Sent(t, [])
  {
  }

  class Transmitter {
    const addr: Address
    const enc: Codec
    const pending: array<Sample>
    var pendingN: nat
    var frameSeq: U16
    var framesSinceSync: nat
    var started: bool
    /** Frames encoded since the stream began; the code keeps it modulo 65536. */
    ghost var sent: nat

    ghost predicate Valid()
      reads this
    {
      && pending.Length == FRAME_SAMPLES
      && pendingN < FRAME_SAMPLES
      && framesSinceSync <= SYNC_INTERVAL
      && frameSeq == sent % 65536
    }

    ghost function View(): TxState
      reads this, enc, pending
      requires pendingN <= pending.Length
    {
      TxState(enc.View(), sent, framesSinceSync, started, pending[..pendingN])
    }

    constructor (addr: Address)
      ensures Valid() && fresh(enc) && fresh(pending) && this.addr == addr
      ensures View() == TX_INITIAL
    {
      this.addr := addr;
      enc := new Codec();
      pending := new Sample[FRAME_SAMPLES](i => 0);
      pendingN := 0;
      frameSeq := 0;
      framesSinceSync := 0;
      started := false;
      sent := 0;
    }

    method EmitSync() returns (frame: Frame)
      requires pendingN <= pending.Length && frameSeq == sent % 65536
      modifies this`framesSinceSync, this`started
      ensures View() == TakeSync(addr, old(View())).tx
      ensures [frame] == TakeSync(addr, old(View())).frames
    {
      hide SyncFrame, AudioFrame;
      CounterSuffices(addr, enc.View(), sent, []);
      frame := SyncFrame(addr, enc.View(), frameSeq);
      framesSinceSync := 0;
      started := true;
    }

    /** Encode and emit the full pending frame, with a SYNC in front of it when one is due. */
    method EmitFrame() returns (frames: seq<Frame>)
      requires pending.Length == FRAME_SAMPLES && pendingN == FRAME_SAMPLES
      requires framesSinceSync <= SYNC_INTERVAL && frameSeq == sent % 65536
      modifies this, enc
      ensures Valid()
      ensures Sent(View(), frames) == TakeBlock(addr, old(View()), old(pending[..]))
      ensures sent == old(sent) + 1
    {
      hide StateAfter, EncodedBytes, SyncFrame, AudioFrame;
      ghost var t, block := View(), pending[..];
      frames := [];
      if !started || framesSinceSync >= SYNC_INTERVAL {
        var sync := EmitSync();
        frames := [sync];
      }
      var adpcm := EncodePending();
      CounterSuffices(addr, t.enc, sent, adpcm);
      frames := frames + [AudioFrame(addr, frameSeq, adpcm)];
      frameSeq := (frameSeq + 1) % 65536;
      sent := sent + 1;
      framesSinceSync := framesSinceSync + 1;
      pendingN := 0;
    }

    method EncodePending() returns (adpcm: seq<Byte>)
      requires pending.Length == FRAME_SAMPLES
      modifies enc
      ensures adpcm == EncodedBytes(old(enc.View()), pending[..]) && |adpcm| == FRAME_BYTES
      ensures enc.View() == StateAfter(old(enc.View()), pending[..])
    {
      hide StateAfter, EncodedBytes;
      ghost var block := pending[..];
      var out := new Byte[FRAME_BYTES](i => 0);
      var n := enc.Encode(pending[..], out);
      assert EvenPart(block) == block;
      assert out[..] == out[..n];
      adpcm := out[..];
    }

    method Push(pcm: seq<Sample>) returns (emitted: nat, frames: seq<Frame>)
      requires Valid()
      modifies this, enc, pending
      ensures Valid()
      ensures Sent(View(), frames) == TakeAll(addr, old(View()), pcm)
      ensures emitted == (old(pendingN) + |pcm|) / 16 && pendingN == (old(pendingN) + |pcm|) % 16
    {
      hide TakeBlock, TakeAll;
      emitted, frames := 0, [];
      var at := 0;
      ghost var t0 := View();
      TakeNothing(addr, t0);
      while at < |pcm|
        invariant 0 <= at <= |pcm|
        invariant Valid()
        invariant Sent(View(), frames) == TakeAll(addr, t0, pcm[..at])
        invariant emitted == sent - t0.sent
      {
        var take := FRAME_SAMPLES - pendingN;
        if take > |pcm| - at {
          take := |pcm| - at;
        }
        ghost var t := View();
        ghost var chunk := pcm[at..at + take];
        assert pcm[..at + take] == pcm[..at] + chunk;
        TakeAllConcat(addr, t0, pcm[..at], chunk);
        Fill(pcm, at, take);
        at := at + take;
        if pendingN == FRAME_SAMPLES {
          TakeAllCompletes(addr, t, chunk);
          assert pending[..] == t.pending + chunk;
          PendingIsSpent(addr, t, View(), pending[..]);
          var more := EmitFrame();
          frames := frames + more;
          emitted := emitted + 1;
        } else {
          TakeAllBuffers(addr, t, chunk);
          assert frames == frames + [];
        }
      }
      assert pcm[..at] == pcm;
      TakeAllCounts(addr, t0, pcm);
    }

    /** Copy `take` samples behind those already pending. */
    method Fill(pcm: seq<Sample>, at: nat, take: nat)
      requires Valid() && at + take <= |pcm| && pendingN + take <= FRAME_SAMPLES
      modifies this`pendingN, pending
      ensures pendingN == old(pendingN) + take
      ensures pending[..pendingN] == old(pending[..pendingN]) + pcm[at..at + take]
    {
      for i := 0 to take
        invariant pendingN == old(pendingN)
        invariant pending[..pendingN + i] == old(pending[..pendingN]) + pcm[at..at + i]
      {
        pending[pendingN + i] := pcm[at + i];
        assert pending[..pendingN + i + 1] == pending[..pendingN + i] + [pcm[at + i]];
        assert pcm[at..at + i + 1] == pcm[at..at + i] + [pcm[at + i]];
      }
      pendingN := pendingN + take;
    }
  }

  // ---------------------------------------------------------------------------
  // Receiver
  // ---------------------------------------------------------------------------

  datatype RxState = RxState(dec: State, expected: Byte, locked: bool, gaps: nat)

  /** A receiver's new state and the samples it appended to its ring. */
  datatype Heard = Heard(rx: RxState, pcm: seq<Sample>)

  const RX_INITIAL := RxState(INITIAL, 0, false, 0)
  const SILENCE: seq<Sample> := [0, 0, 0, 0, 0, 0, 0, 0, 0, 0, 0, 0, 0, 0, 0, 0]
  const U32 := 0x1_0000_0000

  /** SYNC payload: reseed the decoder and the expected number; a wild step index is capped. */
  function Reseed(r: RxState, data: seq<Byte>): RxState
    requires |data| >= 8
  {
    RxState(State(FromU16(JoinU16(data[2], data[3])), if data[1] > 88 then 88 else data[1]), data[4], true, r.gaps)
  }

  function Receive(r: RxState, f: Frame): Heard {
    var typ := CanId.Type(f.id);
    if CanId.Cls(f.id) != CanId.CLS_AUDIO then Heard(r, [])
    else if typ == CanId.T_AUDIO_SYNC then
      Heard(if |f.data| < 8 then r else Reseed(r, f.data), [])
    else if typ != CanId.T_AUDIO_UP && typ != CanId.T_AUDIO_DOWN then Heard(r, [])
    else if |f.data| != FRAME_BYTES || !r.locked then Heard(r, [])
    else if CanId.Low(f.id) == r.expected then
      Heard(r.(dec := StateAfterBytes(r.dec, f.data), expected := (r.expected + 1) % 256),
            DecodedBytes(r.dec, f.data))
    else Heard(r.(gaps := (r.gaps + 1) % U32, locked := false), SILENCE)
  }

  /** Not for this receiver: another class, another type, the wrong length, or audio before any SYNC. */
  predicate Foreign(r: RxState, f: Frame) {
    || CanId.Cls(f.id) != 4
    || CanId.Type(f.id) !in {0x40, 0x41, 0x42}
    || (CanId.Type(f.id) == 0x42 && |f.data| < 8)
    || (CanId.Type(f.id) != 0x42 && (|f.data| != 8 || !r.locked))
  }

  /**
   Every frame: a foreign one leaves no trace; a SYNC locks and reseeds, whatever came
   before, with its step index capped; any other is the frame expected, which is decoded, or
   a discontinuity, which plays a frame of silence, counts a gap and unlocks.
   */
  lemma {:induction false} ReceiveExact(r: RxState, f: Frame)
    ensures Foreign(r, f) ==> Receive(r, f) == Heard(r, [])
    ensures !Foreign(r, f) && CanId.Type(f.id) == 0x42 ==>
              var h := Receive(r, f); var lo: int, hi: int := f.data[2], f.data[3];
              && h.pcm == [] && h.rx.locked && h.rx.gaps == r.gaps && h.rx.expected == f.data[4]
              && h.rx.dec.stepIndex == (if f.data[1] <= 88 then f.data[1] else 88)
              && (h.rx.dec.predictor - (lo + 256 * hi)) % 65536 == 0
    ensures !Foreign(r, f) && CanId.Type(f.id) != 0x42 && CanId.Low(f.id) == r.expected ==>
              var h := Receive(r, f);
              && h.pcm == DecodedBytes(r.dec, f.data) && h.rx.dec == StateAfterBytes(r.dec, f.data)
              && h.rx.locked && h.rx.gaps == r.gaps && h.rx.expected == (if r.expected == 255 then 0 else r.expected + 1)
    ensures !Foreign(r, f) && CanId.Type(f.id) != 0x42 && CanId.Low(f.id) != r.expected ==>
              var h := Receive(r, f);
              && |h.pcm| == 16 && (forall i :: 0 <= i < 16 ==> h.pcm[i] == 0)
              && !h.rx.locked && h.rx.gaps == (r.gaps + 1) % 0x1_0000_0000 && h.rx.dec == r.dec
  {
    hide DecodedBytes, StateAfterBytes, CanId.Cls, CanId.Type, CanId.Low;
  }

  /** The samples between tail and head of a wrapping buffer. */
  function Occupied(buf: seq<Sample>, head: nat, tail: nat): (held: seq<Sample>)
    requires head < |buf| && tail < |buf|
    ensures |held| < |buf|
  {
    if tail <= head then buf[tail..head] else buf[tail..] + buf[..head]
  }

  /** Writing at head appends; if head runs into tail the oldest sample is given up. */
  lemma {:induction false} OccupiedPush(buf: seq<Sample>, head: nat, tail: nat, x: Sample)
    requires head < |buf| && tail < |buf| && |buf| == RING_SAMPLES
    ensures var c := Occupied(buf, head, tail); var head' := (head + 1) % RING_SAMPLES;
            var tail' := if head' == tail then (tail + 1) % RING_SAMPLES else tail;
            Occupied(buf[head := x], head', tail') == Newest(c + [x], RING_SAMPLES - 1)
  {
    hide Newest, Occupied;
    var c := Occupied(buf, head, tail);
    NewestIs(c + [x], RING_SAMPLES - 1);
    if head + 1 < RING_SAMPLES {
      PushInside(buf, head, tail, x);
    } else {
      PushAtEnd(buf, head, tail, x);
    }
  }

  lemma {:induction false} PushInside(buf: seq<Sample>, head: nat, tail: nat, x: Sample)
    requires head + 1 < |buf| && tail < |buf| && |buf| == RING_SAMPLES
    ensures var c := Occupied(buf, head, tail); var buf' := buf[head := x];
            if head + 1 != tail then Occupied(buf', head + 1, tail) == c + [x]
            else |c| == RING_SAMPLES - 1 && Occupied(buf', head + 1, (tail + 1) % RING_SAMPLES) == (c + [x])[1..]
  {
    var c := Occupied(buf, head, tail);
    var buf' := buf[head := x];
    if tail <= head {
      assert buf'[tail..head + 1] == c + [x];
    } else {
      assert buf'[tail..] + buf'[..head + 1] == c + [x];
      assert buf'[tail..][1..] == buf'[tail + 1..];
      if tail == head + 1 {
        assert (c + [x])[1..] == buf'[tail..][1..] + buf'[..head + 1];
      }
    }
  }

  lemma {:induction false} PushAtEnd(buf: seq<Sample>, head: nat, tail: nat, x: Sample)
    requires head + 1 == |buf| == RING_SAMPLES && tail < |buf|
    ensures var c := Occupied(buf, head, tail); var buf' := buf[head := x];
            if tail != 0 then Occupied(buf', 0, tail) == c + [x]
            else |c| == RING_SAMPLES - 1 && Occupied(buf', 0, 1) == (c + [x])[1..]
  {
    var c := Occupied(buf, head, tail);
    var buf' := buf[head := x];
    assert buf'[tail..] == c + [x];
    assert buf'[tail..] + buf'[..0] == buf'[tail..];
    if tail == 0 {
      assert buf'[1..] + buf'[..0] == buf'[1..] == buf'[0..][1..];
    }
  }

  lemma {:induction false} OccupiedPop(buf: seq<Sample>, head: nat, tail: nat)
    requires head < |buf| && tail < |buf| && |buf| == RING_SAMPLES
    requires Occupied(buf, head, tail) != []
    ensures Occupied(buf, head, tail) == [buf[tail]] + Occupied(buf, head, (tail + 1) % RING_SAMPLES)
  {
    var next := if tail + 1 == RING_SAMPLES then 0 else tail + 1;
    assert next == (tail + 1) % RING_SAMPLES;
    OccupiedNext(buf, head, tail, next);
  }

  lemma {:induction false} OccupiedNext(buf: seq<Sample>, head: nat, tail: nat, next: nat)
    requires head < |buf| && tail < |buf| && head != tail
    requires next == if tail + 1 == |buf| then 0 else tail + 1
    ensures Occupied(buf, head, tail) == [buf[tail]] + Occupied(buf, head, next)
  {
    assert next <= head ==> Occupied(buf, head, next) == buf[next..head];
  }

  lemma {:induction false} FirstAndRest<T>(c: seq<T>, i: nat, x: T, rest: seq<T>)
    requires i <= |c| && c[i..] == [x] + rest
    ensures i < |c| && x == c[i] && rest == c[i + 1..] && c[..i + 1] == c[..i] + [x]
  {
    assert |c[i..]| == 1 + |rest|;
    assert c[i..][0] == x && c[i..][1..] == rest;
  }

  class Receiver {
    const dec: Codec
    const ring: array<Sample>
    var expectSeq: U16
    var locked: bool
    var gaps: nat
    var head: nat
    var tail: nat

    ghost predicate Valid()
      reads this
    {
      && ring.Length == RING_SAMPLES
      && head < RING_SAMPLES && tail < RING_SAMPLES
      && expectSeq < 256
      && gaps < U32
    }

    ghost function View(): RxState
      reads this, dec
      requires Valid()
    {
      RxState(dec.View(), expectSeq, locked, gaps)
    }

    /** Samples received and not yet pulled, oldest first. */
    ghost function Contents(): seq<Sample>
      reads this, ring
      requires Valid()
    {
      Occupied(ring[..], head, tail)
    }

    constructor ()
      ensures Valid() && fresh(dec) && fresh(ring)
      ensures View() == RX_INITIAL && Contents() == []
    {
      dec := new Codec();
      ring := new Sample[RING_SAMPLES](i => 0);
      expectSeq, locked, gaps, head, tail := 0, false, 0, 0, 0;
    }

    /** One sample in; when the ring is full the oldest sample makes way. */
    method PushSample(x: Sample)
      requires Valid()
      modifies this`head, this`tail, ring
      ensures Valid()
      ensures Contents() == Newest(old(Contents()) + [x], 4095)
    {
      hide Occupied, Newest;
      ghost var buf := ring[..];
      OccupiedPush(buf, head, tail, x);
      ring[head] := x;
      assert ring[..] == buf[head := x];
      head := (head + 1) % RING_SAMPLES;
      if head == tail {
        tail := (tail + 1) % RING_SAMPLES;
      }
    }

    method RingPush(s: seq<Sample>)
      requires Valid()
      modifies this`head, this`tail, ring
      ensures Valid()
      ensures Contents() == Newest(old(Contents()) + s, 4095)
    {
      hide Occupied, Newest;
      ghost var c := Contents();
      assert c + s[..0] == c;
      NewestShort(c, RING_SAMPLES - 1);
      for i := 0 to |s|
        invariant Valid()
        invariant Contents() == Newest(c + s[..i], RING_SAMPLES - 1)
      {
        PushSample(s[i]);
        assert c + s[..i + 1] == c + s[..i] + [s[i]];
        NewestAppend(c + s[..i], [s[i]], RING_SAMPLES - 1);
      }
      assert s[..|s|] == s;
    }

    method OnFrame(f: Frame)
      requires Valid()
      modifies this, dec, ring
      ensures Valid()
      ensures View() == Receive(old(View()), f).rx
      ensures Contents() == Newest(old(Contents()) + Receive(old(View()), f).pcm, 4095)
    {
      hide DecodedBytes, StateAfterBytes, Occupied, CanId.Cls, CanId.Type, CanId.Low;
      assert old(Contents()) + [] == old(Contents());
      if CanId.Cls(f.id) != CanId.CLS_AUDIO {
        return;
      }
      var typ := CanId.Type(f.id);
      if typ == CanId.T_AUDIO_SYNC {
        if |f.data| < 8 {
          return;
        }
        dec.predictor := FromU16(JoinU16(f.data[2], f.data[3]));
        dec.stepIndex := if f.data[1] > 88 then 88 else f.data[1];
        expectSeq := JoinU16(f.data[4], f.data[5]) % 256;
        locked := true;
      } else if typ == CanId.T_AUDIO_UP || typ == CanId.T_AUDIO_DOWN {
        if |f.data| != FRAME_BYTES || !locked {
          return;
        }
        if CanId.Low(f.id) == expectSeq {
          var pcm := new Sample[FRAME_SAMPLES](i => 0);
          var n := dec.Decode(f.data, pcm);
          assert pcm[..n] == pcm[..];
          RingPush(pcm[..]);
          expectSeq := (expectSeq + 1) % 256;
        } else {
          RingPush(SILENCE);
          gaps := (gaps + 1) % U32;
          locked := false;
        }
      }
    }

    method Available() returns (n: nat)
      requires Valid()
      ensures n == |Contents()|
    {
      n := (head + RING_SAMPLES - tail) % RING_SAMPLES;
    }

    /** The oldest sample comes off the ring. */
    method PopSample() returns (x: Sample)
      requires Valid() && Contents() != []
      modifies this`tail
      ensures Valid() && old(Contents()) == [x] + Contents()
    {
      hide Occupied;
      OccupiedPop(ring[..], head, tail);
      x := ring[tail];
      tail := (tail + 1) % RING_SAMPLES;
    }

    /** Takes the oldest samples, as many as asked for and available. */
    method Pull(pcm: array<Sample>, maxSamples: nat) returns (n: nat)
      requires Valid() && pcm.Length >= maxSamples && pcm != ring
      modifies this`tail, pcm
      ensures Valid()
      ensures n == if maxSamples < |old(Contents())| then maxSamples else |old(Contents())|
      ensures pcm[..n] + Contents() == old(Contents())
      ensures pcm[n..] == old(pcm[n..])
    {
      hide Occupied;
      ghost var c := Contents();
      var avail := Available();
      n := if maxSamples < avail then maxSamples else avail;
      for i := 0 to n
        invariant Valid()
        invariant n <= |c| && pcm[..i] == c[..i] && Contents() == c[i..]
        invariant pcm[n..] == old(pcm[n..])
      {
        var x := PopSample();
        FirstAndRest(c, i, x, Contents());
        pcm[i] := x;
        assert pcm[..i + 1] == pcm[..i] + [x];
      }
      assert c[..n] + c[n..] == c;
    }
  }
}
