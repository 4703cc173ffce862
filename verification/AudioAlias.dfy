/**
 A run of the voice plane in which the eight-bit frame number misleads the receiver:
 one tone, then another, with exactly 256 frames lost in between.
 */
module AudioAlias {
  import opened AdpcmCodec
  import opened AudioLink
  import opened AudioPacket
  import opened WireTypes

  function Steady(x: Sample, n: nat): seq<Sample> {
    seq(n, _ => x)
  }

  function Zeros(n: nat): seq<Byte> {
    seq(n, _ => 0)
  }

  // ---------------------------------------------------------------------------
  // A settled codec sends zeros, and zeros keep a settled codec where it is
  // ---------------------------------------------------------------------------

  lemma {:induction false} QuietStep(x: Sample)
    ensures Quantise(StepSize(0), 0) == 0 && Apply(State(x, 0), 0) == State(x, 0)
  {
    assert StepSize(0) == 7;
  }

  lemma {:induction false} QuietEncoded(x: Sample, n: nat)
    ensures EncodedBytes(State(x, 0), Steady(x, 2 * n)) == Zeros(n)
  {
    hide Quantise, Apply, StepSize;
    if n == 0 {
    } else {
      QuietStep(x);
      QuietEncoded(x, n - 1);
      assert Steady(x, 2 * n)[2..] == Steady(x, 2 * (n - 1));
      assert Zeros(n) == [0] + Zeros(n - 1);
    }
  }

  lemma {:induction false} QuietDecoded(y: Sample, n: nat)
    ensures DecodedBytes(State(y, 0), Zeros(n)) == Steady(y, 2 * n)
    ensures StateAfterBytes(State(y, 0), Zeros(n)) == State(y, 0)
  {
    hide Apply;
    if n == 0 {
    } else {
      QuietStep(y);
      QuietDecoded(y, n - 1);
      assert Zeros(n)[1..] == Zeros(n - 1);
      assert Steady(y, 2 * n) == [y, y] + Steady(y, 2 * (n - 1));
    }
  }

  lemma {:induction false} SteadySettles(st: State, x: Sample, n: nat)
    requires n >= 104
    ensures StateAfter(st, Steady(x, n)) == State(x, 0)
  {
    hide StateAfter, Feed;
    FeedIsStateAfter(st, x, Steady(x, n));
    ConstantInputConverges(st, x, n);
  }

  // ---------------------------------------------------------------------------
  // The run
  // ---------------------------------------------------------------------------

  /** Seven frames of one tone, a SYNC on request, then 257 frames of another. */
  function Tones(y: Sample, x: Sample): seq<Event> {
    Inputs(Steady(y, 112)) + [Resync] + Inputs(Steady(x, 4112))
  }

  lemma {:induction false} PcmConcat(p: seq<Event>, q: seq<Event>)
    ensures Pcm(p + q) == Pcm(p) + Pcm(q)
    decreases |q|
  {
    if q == [] {
      assert p + q == p;
    } else {
      var n := |q| - 1;
      PcmConcat(p, q[..n]);
      assert (p + q)[..|p + q| - 1] == p + q[..n] && (p + q)[|p + q| - 1] == q[n];
    }
  }

  lemma {:induction false} PcmInputs(pcm: seq<Sample>)
    ensures Pcm(Inputs(pcm)) == pcm
    decreases |pcm|
  {
    if pcm == [] {
    } else {
      var n := |pcm| - 1;
      PcmInputs(pcm[..n]);
      assert Inputs(pcm)[..n] == Inputs(pcm[..n]);
      assert pcm == pcm[..n] + [pcm[n]];
    }
  }

  lemma {:induction false} TonesPcm(y: Sample, x: Sample)
    ensures Pcm(Tones(y, x)) == Steady(y, 112) + Steady(x, 4112)
  {
    hide Pcm, Inputs;
    PcmInputs(Steady(y, 112));
    PcmInputs(Steady(x, 4112));
    assert Pcm([Resync]) == [] by {
      SyncIsSilent();
    }
    PcmConcat(Inputs(Steady(y, 112)), [Resync]);
    PcmConcat(Inputs(Steady(y, 112)) + [Resync], Inputs(Steady(x, 4112)));
  }

  lemma {:induction false} SyncIsSilent()
    ensures Pcm([Resync]) == []
  {
    assert [Resync][..0] == [];
  }

  lemma {:induction false} LabelsGrow(a: Address, p: seq<Event>, q: seq<Event>)
    ensures Labels(a, p) <= Labels(a, p + q)
    decreases |q|
  {
    hide EventLabels, EventRun;
    if q == [] {
      assert p + q == p;
    } else {
      var n := |q| - 1;
      LabelsGrow(a, p, q[..n]);
      assert (p + q)[..|p + q| - 1] == p + q[..n];
    }
  }

  /** The requested SYNC is labelled with frame seven. */
  lemma {:induction false} SyncSent(a: Address, y: Sample, x: Sample) returns (i: nat)
    ensures i < |Labels(a, Tones(y, x))| && Labels(a, Tones(y, x))[i] == Sync(7)
  {
    var lead := Inputs(Steady(y, 112));
    i := |Labels(a, lead)|;
    WireIsLabelled(a, lead);
    PcmInputs(Steady(y, 112));
    SevenSent(EventRun(a, TX_INITIAL, lead).tx, Steady(y, 112));
    assert (lead + [Resync])[..|lead|] == lead;
    LabelsUnfold(a, lead + [Resync]);
    hide Labels, EventRun, Inputs;
    LabelsGrow(a, lead + [Resync], Inputs(Steady(x, 4112)));
  }

  lemma {:induction false} SevenSent(t: TxState, pcm: seq<Sample>)
    requires TxTracks(t, pcm) && |pcm| == 112
    ensures t.sent == 7
  {
    hide StateAt;
  }

  lemma {:induction false} AllSent(t: TxState, pcm: seq<Sample>)
    requires TxTracks(t, pcm) && |pcm| == 4224
    ensures t.sent == 264
  {
    hide StateAt;
  }

  /** Every frame sent has its audio label somewhere on the wire. */
  lemma {:induction false} FindAudio(ls: seq<Label>, end: nat, k: nat) returns (i: nat)
    requires ls != [] && ls[0] == Sync(0) && Chained(ls, end) && k < end
    ensures i < |ls| && ls[i] == Audio(k)
    decreases |ls|
  {
    var n := |ls| - 1;
    if ls[n] == Audio(k) {
      i := n;
    } else {
      assert n > 0;
      assert ls[n - 1 + 1].k == ls[n - 1].After();
      i := FindAudio(ls[..n], ls[n].k, k);
    }
  }

  /** Both tones are settled where it matters. */
  lemma {:induction false} TonesSettled(y: Sample, x: Sample)
    ensures var pcm := Steady(y, 112) + Steady(x, 4112);
            && StateAt(pcm, 7) == State(y, 0) && StateAt(pcm, 263) == State(x, 0)
            && Block(pcm, 263) == Steady(x, 16)
  {
    hide StateAfter;
    var pcm := Steady(y, 112) + Steady(x, 4112);
    assert pcm[..112] == Steady(y, 112);
    SteadySettles(INITIAL, y, 112);
    assert pcm[..4208] == Steady(y, 112) + Steady(x, 4096);
    StateAfterConcat(INITIAL, Steady(y, 112), Steady(x, 4096));
    SteadySettles(State(y, 0), x, 4096);
    assert pcm[4208..4224] == Steady(x, 16);
  }

  /** What the receiver makes of the two frames that arrive. */
  lemma {:induction false} Misheard(a: Address, y: Sample, x: Sample)
    ensures var pcm := Steady(y, 112) + Steady(x, 4112);
            var frames := [FrameOf(a, pcm, Sync(7)), FrameOf(a, pcm, Audio(263))];
            var h := RxRun(RX_INITIAL, frames);
            && h.pcm == Steady(y, 16) && h.rx.gaps == 0 && h.rx.locked
            && Reference(pcm, 263) == Steady(x, 16)
  {
    hide Receive, SyncFrame, AudioFrame, StateAt, Block, EncodedBytes, DecodedBytes, StateAfterBytes, Reference;
    var pcm := Steady(y, 112) + Steady(x, 4112);
    TonesSettled(y, x);
    QuietEncoded(x, 8);
    QuietDecoded(y, 8);
    QuietDecoded(x, 8);
    FrameDecodesToReference(pcm, 263);
    var sync, audio := FrameOf(a, pcm, Sync(7)), FrameOf(a, pcm, Audio(263));
    ReceiveSync(RX_INITIAL, a, State(y, 0), 7);
    ReceiveAudio(RxState(State(y, 0), 7, true, 0), a, 263, Zeros(8));
    assert [sync, audio][..1] == [sync] && [sync][..0] == [];
    assert RxRun(RX_INITIAL, [sync]) == Heard(RxState(State(y, 0), 7, true, 0), []);
  }

  /**
   Of all frames sent only the SYNC at frame 7 and audio frame 263 arrive. The receiver
   counts no gap, stays locked and plays the first tone where the second was sent.
   */
  lemma {:induction false} AliasedLossHeardWrong(a: Address, y: Sample, x: Sample) returns (at: seq<nat>)
    ensures Subsequence(at, |Labels(a, Tones(y, x))|) && Subsequence(at, |EventRun(a, TX_INITIAL, Tones(y, x)).frames|)
    ensures Pick(Labels(a, Tones(y, x)), at) == [Sync(7), Audio(263)]
    ensures FRAME_SAMPLES * 264 <= |Pcm(Tones(y, x))|
    ensures var h := RxRun(RX_INITIAL, Pick(EventRun(a, TX_INITIAL, Tones(y, x)).frames, at));
            && h.pcm == Steady(y, 16) && h.rx.gaps == 0 && h.rx.locked
            && Reference(Pcm(Tones(y, x)), 263) == Steady(x, 16)
  {
    hide Labels, EventRun, Pcm, Tones, Steady, FrameOf, RxRun, Reference, StateAt;
    var evs := Tones(y, x);
    var run, ls := EventRun(a, TX_INITIAL, evs), Labels(a, evs);
    TonesPcm(y, x);
    SteadyLength(y, x);
    WireIsLabelled(a, evs);
    LabelsChained(a, evs);
    StartsWithSync(a, evs);
    AllSent(run.tx, Pcm(evs));
    var i := SyncSent(a, y, x);
    var j := FindAudio(ls, 264, 263);
    if j < i {
      ChainedApart(ls, 264, j, i);
    }
    at := [i, j];
    assert Pick(ls, at) == [Sync(7), Audio(263)];
    assert Pick(run.frames, at) == [FrameOf(a, Pcm(evs), Sync(7)), FrameOf(a, Pcm(evs), Audio(263))];
    Misheard(a, y, x);
  }

  lemma {:induction false} SteadyLength(y: Sample, x: Sample)
    ensures |Steady(y, 112) + Steady(x, 4112)| == 4224
  {
  }
}
