/**
 The suit's voice codec: IMA ADPCM, four bits per sample, low nibble first.

 `Apply` is what a code does to a codec state, and is shared by both ends of the
 link; the class `Codec` is the C code, whose encoder keeps its own running sum
 of the quantiser steps instead of calling the decoder.
 */
module AdpcmCodec {
  import opened WireTypes

  type Sample = x: int | -32768 <= x <= 32767
  type StepIndex = i: int | 0 <= i <= 88
  type Nibble = c: int | 0 <= c < 16

  /** The 89 quantiser steps, ten to a row. */
  const STEP_TABLE: seq<seq<int>> := [
    [7, 8, 9, 10, 11, 12, 13, 14, 16, 17],
    [19, 21, 23, 25, 28, 31, 34, 37, 41, 45],
    [50, 55, 60, 66, 73, 80, 88, 97, 107, 118],
    [130, 143, 157, 173, 190, 209, 230, 253, 279, 307],
    [337, 371, 408, 449, 494, 544, 598, 658, 724, 796],
    [876, 963, 1060, 1166, 1282, 1411, 1552, 1707, 1878, 2066],
    [2272, 2499, 2749, 3024, 3327, 3660, 4026, 4428, 4871, 5358],
    [5894, 6484, 7132, 7845, 8630, 9493, 10442, 11487, 12635, 13899],
    [15289, 16818, 18500, 20350, 22385, 24623, 27086, 29794, 32767]
  ]

  const INDEX_TABLE: seq<int> := [-1, -1, -1, -1, 2, 4, 6, 8, -1, -1, -1, -1, 2, 4, 6, 8]

  function StepSize(i: StepIndex): int {
    STEP_TABLE[i / 10][i % 10]
  }

  datatype State = State(predictor: Sample, stepIndex: StepIndex)

  const INITIAL := State(0, 0)

  function Clamp16(v: int): Sample {
    if v > 32767 then 32767 else if v < -32768 then -32768 else v
  }

  function ClampIndex(i: int): StepIndex {
    if i < 0 then 0 else if i > 88 then 88 else i
  }

  /** How far a code moves the predictor when the quantiser step is `step`. */
  function Displacement(step: int, code: Nibble): int {
    step / 8
    + (if code / 4 % 2 == 1 then step else 0)
    + (if code / 2 % 2 == 1 then step / 2 else 0)
    + (if code % 2 == 1 then step / 4 else 0)
  }

  /** The state after `code`, at either end of the link. */
  function Apply(st: State, code: Nibble): State {
    var d := Displacement(StepSize(st.stepIndex), code);
    State(Clamp16(if code >= 8 then st.predictor - d else st.predictor + d),
          ClampIndex(st.stepIndex + INDEX_TABLE[code]))
  }

  /** The code the encoder picks for a difference, by successive halving. */
  function Quantise(step: int, diff: int): Nibble {
    var a := Abs(diff);
    var a1 := if a >= step then a - step else a;
    var a2 := if a1 >= step / 2 then a1 - step / 2 else a1;
    (if diff < 0 then 8 else 0)
    + (if a >= step then 4 else 0)
    + (if a1 >= step / 2 then 2 else 0)
    + (if a2 >= step / 4 then 1 else 0)
  }

  // ---------------------------------------------------------------------------
  // The step table
  // ---------------------------------------------------------------------------

  /**
   Consecutive steps grow by a tenth, to within 0.8, except for the last, which is the
   largest sample; and an eighth of one stays well below its predecessor.
   */
  ghost predicate Graded(i: StepIndex) {
    && 7 <= StepSize(i) <= 32767
    && (i < 87 ==> -8 <= 10 * StepSize(i + 1) - 11 * StepSize(i) <= 8)
    && (i < 88 ==> StepSize(i) < StepSize(i + 1) && StepSize(i + 1) / 8 + 2 < StepSize(i))
  }

  lemma {:induction false} GradedRow0(i: StepIndex) requires i < 10 ensures Graded(i) {}
  lemma {:induction false} GradedRow1(i: StepIndex) requires 10 <= i < 20 ensures Graded(i) {}
  lemma {:induction false} GradedRow2(i: StepIndex) requires 20 <= i < 30 ensures Graded(i) {}
  lemma {:induction false} GradedRow3(i: StepIndex) requires 30 <= i < 40 ensures Graded(i) {}
  lemma {:induction false} GradedRow4(i: StepIndex) requires 40 <= i < 50 ensures Graded(i) {}
  lemma {:induction false} GradedRow5(i: StepIndex) requires 50 <= i < 60 ensures Graded(i) {}
  lemma {:induction false} GradedRow6(i: StepIndex) requires 60 <= i < 70 ensures Graded(i) {}
  lemma {:induction false} GradedRow7(i: StepIndex) requires 70 <= i < 80 ensures Graded(i) {}
  lemma {:induction false} GradedRow8(i: StepIndex) requires 80 <= i ensures Graded(i) {}

  lemma {:induction false} TableGraded(i: StepIndex)
    ensures Graded(i)
  {
    hide StepSize;
    if i < 10 { GradedRow0(i); }
    else if i < 20 { GradedRow1(i); }
    else if i < 30 { GradedRow2(i); }
    else if i < 40 { GradedRow3(i); }
    else if i < 50 { GradedRow4(i); }
    else if i < 60 { GradedRow5(i); }
    else if i < 70 { GradedRow6(i); }
    else if i < 80 { GradedRow7(i); }
    else { GradedRow8(i); }
  }

  lemma {:induction false} StepsGrow(i: StepIndex, j: StepIndex)
    requires i <= j
    ensures StepSize(i) <= StepSize(j)
    decreases j - i
  {
    hide StepSize;
    if i < j {
      TableGraded(i);
      StepsGrow(i + 1, j);
    }
  }

  // ---------------------------------------------------------------------------
  // Accuracy of one sample
  // ---------------------------------------------------------------------------

  /** The encoder's move for one input sample. */
  function Encode1(st: State, x: Sample): State {
    Apply(st, Quantise(StepSize(st.stepIndex), x - st.predictor))
  }

  /** Inside two steps the displacement lands within an eighth of a step of the difference. */
  lemma {:induction false} QuantiserError(step: int, diff: int)
    requires step >= 7
    ensures var code := Quantise(step, diff); var d := Displacement(step, code);
            && (code >= 8 <==> diff < 0)
            && (code % 8 < 4 <==> Abs(diff) < step)
            && (Abs(diff) < 2 * step ==> Abs(Abs(diff) - d) <= step / 8 + 2)
            && (Abs(diff) >= 2 * step ==>
                  code % 8 == 7 && d == step + step / 2 + step / 4 + step / 8 && step < d < 2 * step)
  {
    QuantisedDisplacement(step, diff);
    hide Displacement;
  }

  lemma {:induction false} ClampCloser(v: int, x: Sample)
    ensures Abs(x - Clamp16(v)) <= Abs(x - v)
  {
  }

  lemma {:induction false} IndexMove(i: StepIndex, code: Nibble)
    ensures code % 8 < 4 ==> ClampIndex(i + INDEX_TABLE[code]) == if i == 0 then 0 else i - 1
    ensures code % 8 >= 4 ==> ClampIndex(i + INDEX_TABLE[code]) >= i
    ensures code % 8 == 7 ==> ClampIndex(i + INDEX_TABLE[code]) == if i + 8 > 88 then 88 else i + 8
  {
  }

  /** Either the new error is at most an eighth of a step plus two, or it strictly shrank. */
  lemma {:induction false} SampleError(st: State, x: Sample)
    ensures var step := StepSize(st.stepIndex); var e := Abs(x - st.predictor);
            var st' := Encode1(st, x); var e' := Abs(x - st'.predictor);
            && step >= 7
            && (e < step ==> st'.stepIndex == if st.stepIndex == 0 then 0 else st.stepIndex - 1)
            && (step <= e ==> st'.stepIndex >= st.stepIndex)
            && (e < 2 * step ==> e' <= step / 8 + 2)
            && (2 * step <= e ==>
                  && e' <= e - (step + step / 2 + step / 4 + step / 8) < e
                  && st'.stepIndex == if st.stepIndex + 8 > 88 then 88 else st.stepIndex + 8)
  {
    hide StepSize, Quantise, Displacement, ClampIndex, Clamp16;
    TableGraded(st.stepIndex);
    var step := StepSize(st.stepIndex);
    var diff := x - st.predictor;
    var code := Quantise(step, diff);
    var d := Displacement(step, code);
    QuantiserError(step, diff);
    IndexMove(st.stepIndex, code);
    ClampCloser(if code >= 8 then st.predictor - d else st.predictor + d, x);
  }

  /** How far each magnitude moves the step index. */
  function Growth(magnitude: nat): int {
    if magnitude < 4 then -1 else 2 * magnitude - 6
  }

  lemma {:induction false} GrowthIs(code: Nibble)
    ensures INDEX_TABLE[code] == Growth(code % 8)
  {
  }

  /** How far the step index moves for an error `e`, before it is kept in range. */
  function Adaptation(step: int, e: nat): int {
    if e < step then -1
    else if e < step + step / 4 then 2
    else if e < step + step / 2 then 4
    else if e < step + step / 2 + step / 4 then 6
    else 8
  }

  /** The quantiser step adapts to the size of the error alone, faster the larger it is. */
  lemma {:induction false} AdaptsBySize(st: State, x: Sample)
    ensures var step, i := StepSize(st.stepIndex), st.stepIndex + Adaptation(StepSize(st.stepIndex), Abs(x - st.predictor));
            Encode1(st, x).stepIndex == if i < 0 then 0 else if i > 88 then 88 else i
  {
    hide StepSize, Clamp16;
    TableGraded(st.stepIndex);
    CodeBySize(StepSize(st.stepIndex), x - st.predictor);
  }

  lemma {:induction false} CodeBySize(step: int, diff: int)
    requires step >= 7
    ensures INDEX_TABLE[Quantise(step, diff)] == Adaptation(step, Abs(diff))
  {
  }

  // ---------------------------------------------------------------------------
  // Convergence on a constant input
  // ---------------------------------------------------------------------------

  function Feed(st: State, x: Sample, n: nat): State
    decreases n
  {
    if n == 0 then st else Feed(Encode1(st, x), x, n - 1)
  }

  lemma {:induction false} FeedSplit(st: State, x: Sample, m: nat, n: nat)
    ensures Feed(st, x, m + n) == Feed(Feed(st, x, m), x, n)
    decreases m
  {
    hide Encode1;
    if m > 0 {
      FeedSplit(Encode1(st, x), x, m - 1, n);
    }
  }

  /** The predictor is inside one quantiser step of the input. */
  ghost predicate Tracking(st: State, x: Sample) {
    Abs(x - st.predictor) < StepSize(st.stepIndex)
  }

  /** Once tracking, every sample lowers the step index and stays inside the smaller step. */
  lemma {:induction false} TrackingStays(st: State, x: Sample)
    requires Tracking(st, x)
    ensures Tracking(Encode1(st, x), x)
    ensures Encode1(st, x).stepIndex == if st.stepIndex == 0 then 0 else st.stepIndex - 1
  {
    hide StepSize;
    SampleError(st, x);
    if st.stepIndex > 0 {
      TableGraded(st.stepIndex - 1);
    }
  }

  lemma {:induction false} TrackingDescends(st: State, x: Sample)
    requires Tracking(st, x)
    ensures Tracking(Feed(st, x, st.stepIndex), x)
    ensures Feed(st, x, st.stepIndex).stepIndex == 0
    decreases st.stepIndex
  {
    hide StepSize, Encode1;
    if st.stepIndex > 0 {
      TrackingStays(st, x);
      TrackingDescends(Encode1(st, x), x);
    }
  }

  /** At the smallest step an error below seven is gone after three samples, for good. */
  lemma {:induction false} SmallestStep(st: State, x: Sample)
    requires st.stepIndex == 0 && Tracking(st, x)
    ensures Encode1(st, x).stepIndex == 0
    ensures Abs(x - Encode1(st, x).predictor) <= 2
    ensures Abs(x - st.predictor) <= 2 ==> Abs(x - Encode1(st, x).predictor) <= 1
    ensures Abs(x - st.predictor) <= 1 ==> Encode1(st, x).predictor == x
  {
    assert StepSize(0) == 7;
    hide StepSize, Quantise, Displacement;
    SmallDifference(x - st.predictor);
  }

  /** The seven differences the smallest step can meet on either side. */
  lemma {:induction false} SmallDifference(diff: int)
    requires Abs(diff) < 7
    ensures var code := Quantise(7, diff); var d := Displacement(7, code);
            && INDEX_TABLE[code] == -1 && (code >= 8 <==> diff < 0)
            && Abs(Abs(diff) - d) <= 2
            && (Abs(diff) <= 2 ==> Abs(Abs(diff) - d) <= 1)
            && (Abs(diff) <= 1 ==> d == Abs(diff))
  {
    QuantiserError(7, diff);
  }

  lemma {:induction false} ExactStays(x: Sample, n: nat)
    ensures Feed(State(x, 0), x, n) == State(x, 0)
  {
    hide Encode1;
    if n > 0 {
      ExactStep(x);
      ExactStays(x, n - 1);
    }
  }

  lemma {:induction false} ExactStep(x: Sample)
    ensures Encode1(State(x, 0), x) == State(x, 0)
  {
    assert StepSize(0) == 7;
    hide Encode1, StepSize;
    SmallestStep(State(x, 0), x);
  }

  /** Once tracking, the input is reached exactly after as many samples as the step index plus three, and kept. */
  lemma {:induction false} TrackingSettles(st: State, x: Sample, n: nat)
    requires Tracking(st, x) && n >= st.stepIndex + 3
    ensures Feed(st, x, n) == State(x, 0)
  {
    hide StepSize, Encode1;
    TrackingDescends(st, x);
    var s0 := Feed(st, x, st.stepIndex);
    SmallestStep(s0, x);
    var s1 := Encode1(s0, x);
    TrackingStays(s0, x);
    SmallestStep(s1, x);
    var s2 := Encode1(s1, x);
    TrackingStays(s1, x);
    SmallestStep(s2, x);
    FeedSplit(st, x, st.stepIndex, 3);
    assert Feed(s0, x, 3) == Feed(s1, x, 2) == Feed(s2, x, 1) == Encode1(s2, x);
    var settled := st.stepIndex + 3;
    FeedSplit(st, x, settled, n - settled);
    ExactStays(x, n - settled);
  }

  /** Samples that may be spent climbing to a step comparable with the error. */
  function ClimbBound(st: State): nat {
    (88 - st.stepIndex + 7) / 8 + 2
  }

  /** From any state the predictor comes within one step of a constant input. */
  lemma {:induction false} CatchUp(st: State, x: Sample) returns (n: nat)
    ensures n <= ClimbBound(st)
    ensures Tracking(Feed(st, x, n), x)
    decreases 88 - st.stepIndex, Abs(x - st.predictor)
  {
    hide StepSize, Encode1;
    var step := StepSize(st.stepIndex);
    var e := Abs(x - st.predictor);
    SampleError(st, x);
    var st' := Encode1(st, x);
    if e < step {
      n := 0;
    } else if e < 2 * step {
      StepsGrow(st.stepIndex, st'.stepIndex);
      n := 1;
      assert Feed(st, x, 1) == Feed(st', x, 0) == st';
    } else if st.stepIndex == 88 {
      LastStep();
      n := 1;
      assert Feed(st, x, 1) == Feed(st', x, 0) == st';
    } else {
      n := CatchUp(st', x);
      n := n + 1;
    }
  }

  lemma {:induction false} LastStep()
    ensures StepSize(88) == 32767
  {
  }

  /** Any constant input is reproduced exactly within 104 samples, and stays exact. */
  lemma {:induction false} ConstantInputConverges(st: State, x: Sample, n: nat)
    requires n >= 104
    ensures Feed(st, x, n) == State(x, 0)
  {
    hide StepSize, Encode1;
    var k := CatchUp(st, x);
    var near := Feed(st, x, k);
    assert k + near.stepIndex + 3 <= 13 + 88 + 3;
    TrackingSettles(near, x, n - k);
    FeedSplit(st, x, k, n - k);
  }

  // ---------------------------------------------------------------------------
  // Streams
  // ---------------------------------------------------------------------------

  function StateAfter(st: State, pcm: seq<Sample>): State
    decreases |pcm|
  {
    if pcm == [] then st else StateAfter(Encode1(st, pcm[0]), pcm[1..])
  }

  /** What a decoder in step with the encoder plays for `pcm`: the predictor after each sample. */
  function Reconstruction(st: State, pcm: seq<Sample>): seq<Sample>
    decreases |pcm|
  {
    if pcm == [] then []
    else
      var st' := Encode1(st, pcm[0]);
      [st'.predictor] + Reconstruction(st', pcm[1..])
  }

  /** The bytes for `pcm`, two samples to a byte, first sample low; an odd last sample is not sent. */
  function EncodedBytes(st: State, pcm: seq<Sample>): seq<Byte>
    decreases |pcm|
  {
    if |pcm| < 2 then []
    else
      var lo := Quantise(StepSize(st.stepIndex), pcm[0] - st.predictor);
      var mid := Apply(st, lo);
      var hi := Quantise(StepSize(mid.stepIndex), pcm[1] - mid.predictor);
      [lo + 16 * hi] + EncodedBytes(Apply(mid, hi), pcm[2..])
  }

  function StateAfterBytes(st: State, bytes: seq<Byte>): State
    decreases |bytes|
  {
    if bytes == [] then st
    else StateAfterBytes(Apply(Apply(st, bytes[0] % 16), bytes[0] / 16), bytes[1..])
  }

  function DecodedBytes(st: State, bytes: seq<Byte>): seq<Sample>
    decreases |bytes|
  {
    if bytes == [] then []
    else
      var first := Apply(st, bytes[0] % 16);
      var second := Apply(first, bytes[0] / 16);
      [first.predictor, second.predictor] + DecodedBytes(second, bytes[1..])
  }

  function EvenPart(pcm: seq<Sample>): seq<Sample> {
    pcm[..|pcm| - |pcm| % 2]
  }

  /** Encoder and decoder stay in lockstep: same samples heard as predicted, same final state. */
  lemma {:induction false} Lockstep(st: State, pcm: seq<Sample>)
    ensures |EncodedBytes(st, pcm)| == |pcm| / 2
    ensures DecodedBytes(st, EncodedBytes(st, pcm)) == Reconstruction(st, EvenPart(pcm))
    ensures StateAfterBytes(st, EncodedBytes(st, pcm)) == StateAfter(st, EvenPart(pcm))
    decreases |pcm|
  {
    hide Apply, Quantise, StepSize;
    if |pcm| >= 2 {
      var mid := Encode1(st, pcm[0]);
      var st' := Encode1(mid, pcm[1]);
      Lockstep(st', pcm[2..]);
      var even := EvenPart(pcm);
      assert even[1..][1..] == EvenPart(pcm[2..]);
      assert StateAfter(st, even) == StateAfter(mid, even[1..]) == StateAfter(st', even[1..][1..]);
      assert Reconstruction(mid, even[1..]) == [st'.predictor] + Reconstruction(st', even[1..][1..]);
      var bytes := EncodedBytes(st, pcm);
      assert bytes[1..] == EncodedBytes(st', pcm[2..]);
    }
  }

  lemma {:induction false} StateAfterConcat(st: State, a: seq<Sample>, b: seq<Sample>)
    ensures StateAfter(st, a + b) == StateAfter(StateAfter(st, a), b)
    decreases |a|
  {
    hide Encode1;
    if a == [] {
      assert a + b == b;
    } else {
      assert (a + b)[1..] == a[1..] + b;
      StateAfterConcat(Encode1(st, a[0]), a[1..], b);
    }
  }

  lemma {:induction false} BytesConcat(st: State, a: seq<Byte>, b: seq<Byte>)
    ensures StateAfterBytes(st, a + b) == StateAfterBytes(StateAfterBytes(st, a), b)
    ensures DecodedBytes(st, a + b) == DecodedBytes(st, a) + DecodedBytes(StateAfterBytes(st, a), b)
    decreases |a|
  {
    hide Apply;
    if a == [] {
      assert a + b == b;
    } else {
      assert (a + b)[1..] == a[1..] + b;
      BytesConcat(Apply(Apply(st, a[0] % 16), a[0] / 16), a[1..], b);
    }
  }

  lemma {:induction false} EncodedConcat(st: State, a: seq<Sample>, b: seq<Sample>)
    requires |a| % 2 == 0
    ensures EncodedBytes(st, a + b) == EncodedBytes(st, a) + EncodedBytes(StateAfter(st, a), b)
    decreases |a|
  {
    hide Apply, Quantise, StepSize;
    if a == [] {
      assert a + b == b;
    } else {
      assert (a + b)[2..] == a[2..] + b;
      var st' := Encode1(Encode1(st, a[0]), a[1]);
      EncodedConcat(st', a[2..], b);
      assert a[1..][1..] == a[2..];
      assert StateAfter(st, a) == StateAfter(Encode1(st, a[0]), a[1..]) == StateAfter(st', a[2..]);
    }
  }

  lemma {:induction false} ReconstructionAt(st: State, pcm: seq<Sample>, i: nat)
    requires i < |pcm|
    ensures |Reconstruction(st, pcm)| == |pcm|
    ensures Reconstruction(st, pcm)[i] == StateAfter(st, pcm[..i + 1]).predictor
    decreases |pcm|
  {
    hide Encode1;
    var st' := Encode1(st, pcm[0]);
    assert pcm[..i + 1][1..] == pcm[1..][..i];
    assert StateAfter(st, pcm[..i + 1]) == StateAfter(st', pcm[1..][..i]);
    if i > 0 {
      ReconstructionAt(st', pcm[1..], i - 1);
    } else if |pcm| > 1 {
      ReconstructionAt(st', pcm[1..], 0);
    }
  }

  lemma {:induction false} FeedIsStateAfter(st: State, x: Sample, run: seq<Sample>)
    requires forall i :: 0 <= i < |run| ==> run[i] == x
    ensures StateAfter(st, run) == Feed(st, x, |run|)
    decreases |run|
  {
    hide Encode1;
    if run != [] {
      FeedIsStateAfter(Encode1(st, x), x, run[1..]);
    }
  }

  /**
   Over the air: after any stream `pre`, a constant run of `x` is played back as exactly
   `x` from its 104th sample on, as far as whole pairs of samples were sent.
   */
  lemma {:induction false} ConstantRunIsHeard(st: State, pre: seq<Sample>, x: Sample, run: seq<Sample>, i: nat)
    requires forall j :: 0 <= j < |run| ==> run[j] == x
    requires 104 <= i + 1 && |pre| + i < |EvenPart(pre + run)|
    ensures |DecodedBytes(st, EncodedBytes(st, pre + run))| == |EvenPart(pre + run)|
    ensures DecodedBytes(st, EncodedBytes(st, pre + run))[|pre| + i] == x
  {
    hide Encode1, Apply, Quantise, StepSize, Feed, StateAfter, EncodedBytes, DecodedBytes;
    var pcm := EvenPart(pre + run);
    Lockstep(st, pre + run);
    ReconstructionAt(st, pcm, |pre| + i);
    assert pcm[..|pre| + i + 1] == pre + run[..i + 1];
    StateAfterConcat(st, pre, run[..i + 1]);
    FeedIsStateAfter(StateAfter(st, pre), x, run[..i + 1]);
    ConstantInputConverges(StateAfter(st, pre), x, i + 1);
  }

  /** One more pair of samples: the encoder loop's step. */
  lemma {:induction false} AppendPair(st0: State, pcm: seq<Sample>, i: nat)
    requires 2 * i + 2 <= |pcm|
    ensures var st := StateAfter(st0, pcm[..2 * i]);
            var lo := Quantise(StepSize(st.stepIndex), pcm[2 * i] - st.predictor);
            var mid := Apply(st, lo);
            var hi := Quantise(StepSize(mid.stepIndex), pcm[2 * i + 1] - mid.predictor);
            && EncodedBytes(st0, pcm[..2 * (i + 1)]) == EncodedBytes(st0, pcm[..2 * i]) + [lo + 16 * hi]
            && StateAfter(st0, pcm[..2 * (i + 1)]) == Apply(mid, hi)
  {
    hide Apply, Quantise, StepSize;
    var st := StateAfter(st0, pcm[..2 * i]);
    var pair := pcm[2 * i..2 * i + 2];
    assert pcm[..2 * (i + 1)] == pcm[..2 * i] + pair;
    EncodedConcat(st0, pcm[..2 * i], pair);
    StateAfterConcat(st0, pcm[..2 * i], pair);
    assert pair[2..] == [] && pair[1..][1..] == [];
    var mid := Encode1(st, pair[0]);
    assert StateAfter(st, pair) == StateAfter(mid, pair[1..]) == StateAfter(Encode1(mid, pair[1]), pair[1..][1..]);
  }

  /** The encoder's running sum of steps is the displacement its code stands for. */
  lemma {:induction false} QuantisedDisplacement(step: int, diff: int)
    ensures var a := Abs(diff);
            var a1 := if a >= step then a - step else a;
            var a2 := if a1 >= step / 2 then a1 - step / 2 else a1;
            Displacement(step, Quantise(step, diff))
            == step / 8 + (if a >= step then step else 0)
               + (if a1 >= step / 2 then step / 2 else 0) + (if a2 >= step / 4 then step / 4 else 0)
  {
    var code := Quantise(step, diff);
    var a := Abs(diff);
    var a1 := if a >= step then a - step else a;
    var a2 := if a1 >= step / 2 then a1 - step / 2 else a1;
    NibbleBits(diff < 0, a >= step, a1 >= step / 2, a2 >= step / 4);
  }

  lemma {:induction false} NibbleBits(b8: bool, b4: bool, b2: bool, b1: bool)
    ensures var code := (if b8 then 8 else 0) + (if b4 then 4 else 0) + (if b2 then 2 else 0) + (if b1 then 1 else 0);
            (code / 4 % 2 == 1) == b4 && (code / 2 % 2 == 1) == b2 && (code % 2 == 1) == b1
  {
  }

  // ---------------------------------------------------------------------------
  // The codec object
  // ---------------------------------------------------------------------------

  /** The encoder's search, which halves the step and sums what it has used. */
  method ChooseCode(fullStep: int, difference: int) returns (code: Nibble, vpdiff: int)
    requires fullStep >= 0
    ensures code == Quantise(fullStep, difference)
    ensures vpdiff == Displacement(fullStep, code)
  {
    hide Displacement;
    var step, diff := fullStep, difference;
    code := 0;
    if diff < 0 {
      code := 8;
      diff := -diff;
    }
    vpdiff := step / 8;
    if diff >= step {
      code := code + 4;
      diff := diff - step;
      vpdiff := vpdiff + step;
    }
    step := step / 2;
    if diff >= step {
      code := code + 2;
      diff := diff - step;
      vpdiff := vpdiff + step;
    }
    step := step / 2;
    assert step == fullStep / 4;
    if diff >= step {
      code := code + 1;
      vpdiff := vpdiff + step;
    }
    QuantisedDisplacement(fullStep, difference);
  }

  class Codec {
    var predictor: Sample
    var stepIndex: StepIndex

    function View(): State
      reads this
    {
      State(predictor, stepIndex)
    }

    constructor ()
      ensures View() == INITIAL
    {
      predictor := 0;
      stepIndex := 0;
    }

    method Move(code: Nibble, vpdiff: int)
      modifies this
      ensures predictor == Clamp16(if code >= 8 then old(predictor) - vpdiff else old(predictor) + vpdiff)
      ensures stepIndex == ClampIndex(old(stepIndex) + INDEX_TABLE[code])
    {
      predictor := Clamp16(if code >= 8 then predictor - vpdiff else predictor + vpdiff);
      stepIndex := ClampIndex(stepIndex + INDEX_TABLE[code]);
    }

    method EncodeSample(sample: Sample) returns (code: Nibble)
      modifies this
      ensures code == Quantise(StepSize(old(stepIndex)), sample - old(predictor))
      ensures View() == Apply(old(View()), code)
      ensures var i := old(stepIndex) + Adaptation(StepSize(old(stepIndex)), Abs(sample - old(predictor)));
              stepIndex == if i < 0 then 0 else if i > 88 then 88 else i
    {
      hide StepSize, Displacement, Quantise, Adaptation;
      TableGraded(stepIndex);
      AdaptsBySize(View(), sample);
      var vpdiff;
      code, vpdiff := ChooseCode(StepSize(stepIndex), sample - predictor);
      Move(code, vpdiff);
    }

    method DecodeSample(code: Nibble) returns (sample: Sample)
      modifies this
      ensures View() == Apply(old(View()), code)
      ensures sample == predictor
      ensures var i := old(stepIndex) + Growth(code % 8);
              stepIndex == if i < 0 then 0 else if i > 88 then 88 else i
    {
      hide StepSize, Growth;
      GrowthIs(code);
      var step := StepSize(stepIndex);
      var vpdiff := step / 8;
      if code / 4 % 2 == 1 {
        vpdiff := vpdiff + step;
      }
      if code / 2 % 2 == 1 {
        vpdiff := vpdiff + step / 2;
      }
      if code % 2 == 1 {
        vpdiff := vpdiff + step / 4;
      }
      Move(code, vpdiff);
      sample := predictor;
    }

    method Encode(pcm: seq<Sample>, out: array<Byte>) returns (nbytes: nat)
      requires out.Length >= |pcm| / 2
      modifies this, out
      ensures nbytes == |pcm| / 2
      ensures out[..nbytes] == EncodedBytes(old(View()), pcm)
      ensures out[nbytes..] == old(out[nbytes..])
      ensures View() == StateAfter(old(View()), EvenPart(pcm))
    {
      hide Apply, Quantise, StepSize;
      nbytes := |pcm| / 2;
      ghost var st0 := View();
      for i := 0 to nbytes
        invariant out[..i] == EncodedBytes(st0, pcm[..2 * i])
        invariant out[nbytes..] == old(out[nbytes..])
        invariant View() == StateAfter(st0, pcm[..2 * i])
      {
        var lo: int := EncodeSample(pcm[2 * i]);
        var hi: int := EncodeSample(pcm[2 * i + 1]);
        out[i] := lo + 16 * hi;
        AppendPair(st0, pcm, i);
        assert out[..i + 1] == out[..i] + [lo + 16 * hi];
      }
      assert pcm[..2 * nbytes] == EvenPart(pcm);
      TrailingSampleIgnored(st0, pcm);
    }

    method Decode(bytes: seq<Byte>, pcm: array<Sample>) returns (n: nat)
      requires pcm.Length >= 2 * |bytes|
      modifies this, pcm
      ensures n == 2 * |bytes|
      ensures pcm[..n] == DecodedBytes(old(View()), bytes)
      ensures pcm[n..] == old(pcm[n..])
      ensures View() == StateAfterBytes(old(View()), bytes)
    {
      hide Apply, StepSize;
      n := 2 * |bytes|;
      ghost var st0 := View();
      for i := 0 to |bytes|
        invariant pcm[..2 * i] == DecodedBytes(st0, bytes[..i])
        invariant pcm[n..] == old(pcm[n..])
        invariant View() == StateAfterBytes(st0, bytes[..i])
      {
        ghost var st := View();
        ghost var before := pcm[..2 * i];
        var first := DecodeSample(bytes[i] % 16);
        pcm[2 * i] := first;
        var second := DecodeSample(bytes[i] / 16);
        pcm[2 * i + 1] := second;

        assert bytes[..i + 1] == bytes[..i] + [bytes[i]];
        BytesConcat(st0, bytes[..i], [bytes[i]]);
        assert DecodedBytes(st, [bytes[i]]) == [first, second] + DecodedBytes(View(), []);
        assert pcm[..2 * (i + 1)] == before + [first, second];
      }
      assert bytes[..|bytes|] == bytes;
    }
  }

  lemma {:induction false} TrailingSampleIgnored(st: State, pcm: seq<Sample>)
    ensures EncodedBytes(st, EvenPart(pcm)) == EncodedBytes(st, pcm)
    ensures StateAfterBytes(st, EncodedBytes(st, pcm)) == StateAfter(st, EvenPart(pcm))
  {
    hide Apply, Quantise, StepSize;
    Lockstep(st, pcm);
    var even := EvenPart(pcm);
    var tail := pcm[|even|..];
    assert even + tail == pcm;
    EncodedConcat(st, even, tail);
  }

  // ---------------------------------------------------------------------------
  // A known answer
  // ---------------------------------------------------------------------------

  /** The encoder on one pair of samples, the rest to follow. */
  lemma {:induction false} PairFirst(st: State, a: Sample, b: Sample, rest: seq<Sample>, lo: Nibble, hi: Nibble)
    requires lo == Quantise(StepSize(st.stepIndex), a - st.predictor)
    requires var mid := Encode1(st, a); hi == Quantise(StepSize(mid.stepIndex), b - mid.predictor)
    ensures EncodedBytes(st, [a, b] + rest) == [lo + 16 * hi] + EncodedBytes(Encode1(Encode1(st, a), b), rest)
  {
    hide Quantise, StepSize, Apply;
    assert ([a, b] + rest)[2..] == rest;
  }

  lemma {:induction false} Known0(rest: seq<Sample>)
    ensures EncodedBytes(State(0, 0), [-191, 4097] + rest) == [0x7F] + EncodedBytes(State(19, 16), rest)
  {
    hide EncodedBytes;
    assert StepSize(0) == 7 && StepSize(8) == 16;
    hide StepSize;
    assert Encode1(State(0, 0), -191) == State(-11, 8);
    PairFirst(State(0, 0), -191, 4097, rest, 15, 7);
  }

  lemma {:induction false} Known1(rest: seq<Sample>)
    ensures EncodedBytes(State(19, 16), [6845, 8319] + rest) == [0x77] + EncodedBytes(State(218, 32), rest)
  {
    hide EncodedBytes;
    assert StepSize(16) == 34 && StepSize(24) == 73;
    hide StepSize;
    assert Encode1(State(19, 16), 6845) == State(82, 24);
    PairFirst(State(19, 16), 6845, 8319, rest, 7, 7);
  }

  lemma {:induction false} Known2(rest: seq<Sample>)
    ensures EncodedBytes(State(218, 32), [7103, 4716] + rest) == [0x77] + EncodedBytes(State(1142, 48), rest)
  {
    hide EncodedBytes;
    assert StepSize(32) == 157 && StepSize(40) == 337;
    hide StepSize;
    assert Encode1(State(218, 32), 7103) == State(511, 40);
    PairFirst(State(218, 32), 7103, 4716, rest, 7, 7);
  }

  lemma {:induction false} Known3(rest: seq<Sample>)
    ensures EncodedBytes(State(1142, 48), [4046, 4859] + rest) == [0x67] + EncodedBytes(State(5021, 62), rest)
  {
    hide EncodedBytes;
    assert StepSize(48) == 724 && StepSize(56) == 1552;
    hide StepSize;
    assert Encode1(State(1142, 48), 4046) == State(2499, 56);
    PairFirst(State(1142, 48), 4046, 4859, rest, 7, 6);
  }

  lemma {:induction false} Known4(rest: seq<Sample>)
    ensures EncodedBytes(State(5021, 62), [7133, 9844] + rest) == [0x33] + EncodedBytes(State(9610, 60), rest)
  {
    hide EncodedBytes;
    assert StepSize(62) == 2749 && StepSize(61) == 2499;
    hide StepSize;
    assert Encode1(State(5021, 62), 7133) == State(7425, 61);
    PairFirst(State(5021, 62), 7133, 9844, rest, 3, 3);
  }

  lemma {:induction false} Known5(rest: seq<Sample>)
    ensures EncodedBytes(State(9610, 60), [12822, 12513] + rest) == [0x85] + EncodedBytes(State(12319, 63), rest)
  {
    hide EncodedBytes;
    assert StepSize(60) == 2272 && StepSize(64) == 3327;
    hide StepSize;
    assert Encode1(State(9610, 60), 12822) == State(12734, 64);
    PairFirst(State(9610, 60), 12822, 12513, rest, 5, 8);
  }

  lemma {:induction false} Known6(rest: seq<Sample>)
    ensures EncodedBytes(State(12319, 63), [9111, 6058] + rest) == [0xBC] + EncodedBytes(State(5715, 64), rest)
  {
    hide EncodedBytes;
    assert StepSize(63) == 3024 && StepSize(65) == 3660;
    hide StepSize;
    assert Encode1(State(12319, 63), 9111) == State(8917, 65);
    PairFirst(State(12319, 63), 9111, 6058, rest, 12, 11);
  }

  lemma {:induction false} Known7(rest: seq<Sample>)
    ensures EncodedBytes(State(5715, 64), [1304, -519] + rest) == [0x9D] + EncodedBytes(State(-683, 67), rest)
  {
    hide EncodedBytes;
    assert StepSize(64) == 3327 && StepSize(68) == 4871;
    hide StepSize;
    assert Encode1(State(5715, 64), 1304) == State(1142, 68);
    PairFirst(State(5715, 64), 1304, -519, rest, 13, 9);
  }

  lemma {:induction false} KnownOpening(rest: seq<Sample>)
    ensures EncodedBytes(State(0, 0), [-191, 4097, 6845, 8319, 7103, 4716, 4046, 4859] + rest)
         == [0x7F, 0x77, 0x77, 0x67] + EncodedBytes(State(5021, 62), rest)
  {
    hide EncodedBytes;
    assert [-191, 4097, 6845, 8319, 7103, 4716, 4046, 4859] + rest
        == [-191, 4097] + ([6845, 8319, 7103, 4716, 4046, 4859] + rest);
    Known0([6845, 8319, 7103, 4716, 4046, 4859] + rest);
    assert [6845, 8319, 7103, 4716, 4046, 4859] + rest == [6845, 8319] + ([7103, 4716, 4046, 4859] + rest);
    Known1([7103, 4716, 4046, 4859] + rest);
    assert [7103, 4716, 4046, 4859] + rest == [7103, 4716] + ([4046, 4859] + rest);
    Known2([4046, 4859] + rest);
    Known3(rest);
  }

  lemma {:induction false} KnownRest(rest: seq<Sample>)
    ensures EncodedBytes(State(5021, 62), [7133, 9844, 12822, 12513, 9111, 6058, 1304, -519] + rest)
         == [0x33, 0x85, 0xBC, 0x9D] + EncodedBytes(State(-683, 67), rest)
  {
    hide EncodedBytes;
    assert [7133, 9844, 12822, 12513, 9111, 6058, 1304, -519] + rest
        == [7133, 9844] + ([12822, 12513, 9111, 6058, 1304, -519] + rest);
    Known4([12822, 12513, 9111, 6058, 1304, -519] + rest);
    assert [12822, 12513, 9111, 6058, 1304, -519] + rest == [12822, 12513] + ([9111, 6058, 1304, -519] + rest);
    Known5([9111, 6058, 1304, -519] + rest);
    assert [9111, 6058, 1304, -519] + rest == [9111, 6058] + ([1304, -519] + rest);
    Known6([1304, -519] + rest);
    Known7(rest);
  }

  /** The first sixteen samples of the vector that locks the implementations together. */
  lemma {:induction false} KnownAnswer()
    ensures EncodedBytes(INITIAL, [-191, 4097, 6845, 8319, 7103, 4716, 4046, 4859] +
                                  [7133, 9844, 12822, 12513, 9111, 6058, 1304, -519])
         == [0x7F, 0x77, 0x77, 0x67, 0x33, 0x85, 0xBC, 0x9D]
  {
    hide EncodedBytes;
    var rest: seq<Sample> := [7133, 9844, 12822, 12513, 9111, 6058, 1304, -519];
    KnownOpening(rest);
    KnownRest([]);
    assert rest + [] == rest;
    NothingEncoded(State(-683, 67));
  }

  lemma {:induction false} NothingEncoded(st: State)
    ensures EncodedBytes(st, []) == []
  {
  }
}
