/**
 The receiver's other end: frames fill the sample ring while the audio output draws from
 it. Over any interleaving, what was drawn and what is still held is what ought to be
 heard, exactly as long as the ring never overflows.
 */
module AudioPlayout {
  import opened AdpcmCodec
  import opened AudioLink
  import opened AudioPacket
  import opened Bounded

  const CAPACITY := RING_SAMPLES - 1

  /** A frame arrives, or the output asks for some samples. */
  datatype Use = Arrive(f: Frame) | Draw(n: nat)

  datatype Player = Player(rx: RxState, ring: seq<Sample>, drawn: seq<Sample>)

  const IDLE := Player(RX_INITIAL, [], [])

  function Drawable(p: Player, n: nat): nat {
    if n < |p.ring| then n else |p.ring|
  }

  /** The effects of `Receiver.OnFrame` and `Receiver.Pull`. */
  function Step(p: Player, u: Use): Player {
    match u
    case Arrive(f) =>
      var h := Receive(p.rx, f);
      p.(rx := h.rx, ring := Newest(p.ring + h.pcm, CAPACITY))
    case Draw(n) =>
      var k := Drawable(p, n);
      p.(ring := p.ring[k..], drawn := p.drawn + p.ring[..k])
  }

  function Run(uses: seq<Use>): Player
    decreases |uses|
  {
    if uses == [] then IDLE else Step(Run(uses[..|uses| - 1]), uses[|uses| - 1])
  }

  function Frames(uses: seq<Use>): seq<Frame>
    decreases |uses|
  {
    if uses == [] then []
    else
      var u := uses[|uses| - 1];
      Frames(uses[..|uses| - 1]) + if u.Arrive? then [u.f] else []
  }

  /** Samples pushed out of the ring unheard. */
  function Lost(uses: seq<Use>): nat
    decreases |uses|
  {
    if uses == [] then 0
    else
      var p, u := Run(uses[..|uses| - 1]), uses[|uses| - 1];
      Lost(uses[..|uses| - 1]) + if u.Arrive? then Spill(p, u.f) else 0
  }

  function Spill(p: Player, f: Frame): nat {
    var n := |p.ring + Receive(p.rx, f).pcm|;
    if n <= CAPACITY then 0 else n - CAPACITY
  }

  /** Frame `i` arrives when the ring has no room for all its samples. */
  predicate Overflows(uses: seq<Use>, i: nat) {
    i < |uses| && uses[i].Arrive? && Spill(Run(uses[..i]), uses[i].f) > 0
  }

  ghost predicate NeverOverflows(uses: seq<Use>) {
    forall i: nat :: !Overflows(uses, i)
  }

  lemma {:induction false} LostMeansOverflow(uses: seq<Use>)
    ensures Lost(uses) == 0 <==> NeverOverflows(uses)
    decreases |uses|
  {
    hide Run, Spill;
    if uses == [] {
    } else {
      var n := |uses| - 1;
      LostMeansOverflow(uses[..n]);
      forall i: nat | i < n ensures Overflows(uses[..n], i) <==> Overflows(uses, i) {
        assert uses[..n][..i] == uses[..i];
      }
      if !NeverOverflows(uses[..n]) {
        var i: nat :| Overflows(uses[..n], i);
        assert Overflows(uses, i);
      }
      assert Overflows(uses, n) <==> uses[n].Arrive? && Spill(Run(uses[..n]), uses[n].f) > 0;
    }
  }

  /** Drawing moves samples without changing them or their order. */
  lemma {:induction false} DrawKeeps(p: Player, n: nat)
    ensures Step(p, Draw(n)).drawn + Step(p, Draw(n)).ring == p.drawn + p.ring
  {
    var k := Drawable(p, n);
    assert p.ring[..k] + p.ring[k..] == p.ring;
  }

  lemma {:induction false} ArriveKeeps(p: Player, f: Frame)
    ensures Spill(p, f) == 0 ==>
              Step(p, Arrive(f)).drawn + Step(p, Arrive(f)).ring == p.drawn + p.ring + Receive(p.rx, f).pcm
    ensures |Step(p, Arrive(f)).ring| + Spill(p, f) == |p.ring + Receive(p.rx, f).pcm|
  {
    hide Receive, Newest;
    NewestIs(p.ring + Receive(p.rx, f).pcm, CAPACITY);
  }

  /** The receiver's state, and how many samples are accounted for. */
  lemma {:induction false} Accounted(uses: seq<Use>)
    ensures var p, h := Run(uses), RxRun(RX_INITIAL, Frames(uses));
            && p.rx == h.rx
            && |p.drawn| + |p.ring| + Lost(uses) == |h.pcm|
            && (Lost(uses) == 0 ==> p.drawn + p.ring == h.pcm)
    decreases |uses|
  {
    hide Receive, Spill, Newest, Drawable;
    if uses == [] {
    } else {
      var n := |uses| - 1;
      var p, u := Run(uses[..n]), uses[n];
      Accounted(uses[..n]);
      match u {
        case Draw(k) =>
          DrawKeeps(p, k);
          assert Frames(uses) == Frames(uses[..n]);
          assert |Run(uses).drawn + Run(uses).ring| == |p.drawn + p.ring|;
        case Arrive(f) =>
          ArriveKeeps(p, f);
          assert Frames(uses)[..|Frames(uses)| - 1] == Frames(uses[..n]);
      }
    }
  }

  /** What was drawn, followed by what the ring holds, is all the receiver appended iff nothing overflowed. */
  lemma {:induction false} PlayoutExact(uses: seq<Use>)
    ensures Run(uses).drawn + Run(uses).ring == RxRun(RX_INITIAL, Frames(uses)).pcm <==> NeverOverflows(uses)
  {
    hide Run, Frames, NeverOverflows, Lost;
    Accounted(uses);
    LostMeansOverflow(uses);
    assert |Run(uses).drawn + Run(uses).ring| == |Run(uses).drawn| + |Run(uses).ring|;
  }

  /**
   From microphone to loudspeaker: for every run of the transmitter, every in-order delivery
   whose losses do not alias, and every way of drawing that lets nothing overflow, the output
   gets the reference frames and one silence per break, in order, up to what the ring holds.
   */
  lemma {:induction false} OutputHearsReference(a: Address, evs: seq<Event>, at: seq<nat>, uses: seq<Use>)
    requires Subsequence(at, |Labels(a, evs)|) && NoAliasedLoss(Pick(Labels(a, evs), at))
    requires Subsequence(at, |EventRun(a, TX_INITIAL, evs).frames|)
    requires Frames(uses) == Pick(EventRun(a, TX_INITIAL, evs).frames, at) && NeverOverflows(uses)
    ensures var d := Pick(Labels(a, evs), at);
            && (forall i :: 0 <= i < |d| ==> InStream(Pcm(evs), d[i]))
            && Run(uses).drawn + Run(uses).ring == Played(Pcm(evs), d)
  {
    hide Labels, EventRun, Pcm, Played, Run, Frames, NeverOverflows, NoAliasedLoss, RxTracks, RxRun;
    ReceiverHearsReference(a, evs, at);
    PlayoutExact(uses);
  }
}
