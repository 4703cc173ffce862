/**
 The orchestrator's end of the SPI link: transfer buffers in, records and link
 statistics out, with a gap check on the eight-bit frame sequence.
 */
module FrameParser {
  import opened SpiFrame
  import opened WireTypes

  datatype Stats = Stats(framesOk: nat, idleFrames: nat, crcErrors: nat, seqGaps: nat, resyncs: nat)

  datatype Link = Link(haveRx: bool, lastRx: Bits8, stats: Stats)

  datatype Outcome = Idle | Error | Got(flags: Bits8, seqNo: Bits8, records: seq<Record>)

  datatype Result = Result(link: Link, outcome: Outcome)

  const LINK_INITIAL := Link(false, 0, Stats(0, 0, 0, 0, 0))

  /** Eight-bit increment. */
  function Next(b: Bits8): Bits8 {
    b + 1
  }

  predicate AllZero(buf: seq<Bits8>) {
    forall i :: 0 <= i < |buf| ==> buf[i] == 0
  }

  function ParseStep(l: Link, buf: seq<Bits8>): Result {
    if AllZero(buf) then
      Result(l.(stats := l.stats.(idleFrames := l.stats.idleFrames + 1)), Idle)
    else
      match Parse(buf)
      case BadMagic => Result(l.(stats := l.stats.(resyncs := l.stats.resyncs + 1)), Error)
      case Ok(view) =>
        var gap := l.haveRx && view.seqNo != Next(l.lastRx);
        var stats := l.stats.(framesOk := l.stats.framesOk + 1,
                              seqGaps := l.stats.seqGaps + if gap then 1 else 0);
        Result(Link(true, view.seqNo, stats), Got(view.flags, view.seqNo, Readable(view.records, view.count)))
      case _ => Result(l.(stats := l.stats.(crcErrors := l.stats.crcErrors + 1)), Error)
  }

  class Parser {
    var txSeq: Bits8
    var haveRxSeq: bool
    var lastRxSeq: Bits8
    var stats: Stats

    function View(): Link
      reads this
    {
      Link(haveRxSeq, lastRxSeq, stats)
    }

    constructor ()
      ensures View() == LINK_INITIAL && txSeq == 0
    {
      txSeq, haveRxSeq, lastRxSeq, stats := 0, false, 0, Stats(0, 0, 0, 0, 0);
    }

    /** Serialize with the next transmit number; a list that does not fit uses none up. */
    method BuildFrame(buf: array<Bits8>, flags: Bits8, recs: seq<Record>) returns (used: nat)
      requires buf.Length == XFER_SIZE
      modifies this, buf
      ensures View() == old(View())
      ensures |recs| > MAX_RECORDS ==> used == 0 && txSeq == old(txSeq) && buf[..] == old(buf[..])
      ensures |recs| <= MAX_RECORDS ==>
                used > 0 && txSeq == Next(old(txSeq)) && buf[..] == Frame(flags, old(txSeq), recs)
    {
      used := Build(buf, flags, txSeq, recs);
      if used > 0 {
        txSeq := Next(txSeq);
      }
    }

    method IsAllZero(buf: seq<Bits8>) returns (zero: bool)
      ensures zero <==> AllZero(buf)
    {
      for i := 0 to |buf|
        invariant forall j :: 0 <= j < i ==> buf[j] == 0
      {
        if buf[i] != 0 {
          return false;
        }
      }
      return true;
    }

    method ParseBuffer(buf: seq<Bits8>) returns (outcome: Outcome)
      modifies this
      ensures Result(View(), outcome) == ParseStep(old(View()), buf)
      ensures txSeq == old(txSeq)
    {
      hide Parse, Readable, Next;
      var zero := IsAllZero(buf);
      if zero {
        stats := stats.(idleFrames := stats.idleFrames + 1);
        return Idle;
      }
      var p := Parse(buf);
      if !p.Ok? {
        if p.BadMagic? {
          stats := stats.(resyncs := stats.resyncs + 1);
        } else {
          stats := stats.(crcErrors := stats.crcErrors + 1);
        }
        return Error;
      }
      var view := p.view;
      if haveRxSeq {
        if view.seqNo != Next(lastRxSeq) {
          stats := stats.(seqGaps := stats.seqGaps + 1);
        }
      }
      haveRxSeq := true;
      lastRxSeq := view.seqNo;
      var records := Collect(view);
      stats := stats.(framesOk := stats.framesOk + 1);
      return Got(view.flags, view.seqNo, records);
    }

    method Collect(view: SpiFrame.View) returns (records: seq<Record>)
      requires |view.records| == REC_SIZE * view.count
      ensures records == Readable(view.records, view.count)
    {
      hide ReadRecord;
      records := [];
      for i := 0 to view.count
        invariant records == Readable(view.records, i)
      {
        var r := ReadRecord(Slot(view.records, i));
        if r.Some? {
          records := records + [r.value];
        }
      }
    }
  }

  /** A clean frame hands over exactly the deliverable records it was built from. */
  lemma {:induction false} CleanFrameParsed(l: Link, flags: Bits8, seqNo: Bits8, recs: seq<Record>)
    requires |recs| <= MAX_RECORDS
    ensures ParseStep(l, Frame(flags, seqNo, recs)).outcome == Got(flags, seqNo, Deliverable(recs))
  {
    hide Frame, Serialized, Readable, Deliverable;
    FrameRoundTrip(flags, seqNo, recs);
    FrameStart(flags, seqNo, recs);
    SerializedReadable(recs);
    assert Frame(flags, seqNo, recs)[0] != 0;
  }

  // ---------------------------------------------------------------------------
  // Gap counting
  // ---------------------------------------------------------------------------

  /** The sequence byte of frame number `k`: a counter that starts at zero and wraps. */
  function SeqOf(k: nat): Bits8 {
    if k == 0 then 0 else Next(SeqOf(k - 1))
  }

  lemma {:induction false} NextValue(b: Bits8)
    ensures Next(b) as int == if b as int == 255 then 0 else b as int + 1
  {
  }

  lemma {:induction false} SeqOfValue(k: nat)
    ensures SeqOf(k) as int == k % 256
  {
    hide Next;
    if k == 0 {
    } else {
      SeqOfValue(k - 1);
      NextValue(SeqOf(k - 1));
      hide SeqOf;
      NextRemainder(k);
    }
  }

  lemma {:induction false} NextRemainder(k: nat)
    requires k > 0
    ensures k % 256 == if (k - 1) % 256 == 255 then 0 else (k - 1) % 256 + 1
  {
    var q := (k - 1) / 256;
    assert k - 1 == 256 * q + (k - 1) % 256;
  }

  lemma {:induction false} SeqOfSame(a: nat, b: nat)
    ensures SeqOf(a) == SeqOf(b) <==> a % 256 == b % 256
  {
    hide SeqOf;
    SeqOfValue(a);
    SeqOfValue(b);
    SameByte(SeqOf(a), SeqOf(b));
  }

  lemma {:induction false} SameByte(a: Bits8, b: Bits8)
    ensures a as int == b as int <==> a == b
  {
  }

  /** What arrived in a transfer: frame number `k` intact, or nothing usable. */
  datatype Arrival = Good(k: nat) | Bad

  ghost predicate Carries(buf: seq<Bits8>, a: Arrival) {
    match a
    case Good(k) => Parse(buf).Ok? && Parse(buf).view.seqNo == SeqOf(k)
    case Bad => !Parse(buf).Ok?
  }

  function LinkRun(bufs: seq<seq<Bits8>>): Link
    decreases |bufs|
  {
    if bufs == [] then LINK_INITIAL else ParseStep(LinkRun(bufs[..|bufs| - 1]), bufs[|bufs| - 1]).link
  }

  /** Numbers of the frames that arrived intact. */
  function Goods(arrivals: seq<Arrival>): seq<nat>
    decreases |arrivals|
  {
    if arrivals == [] then []
    else Goods(arrivals[..|arrivals| - 1]) + match arrivals[|arrivals| - 1] { case Good(k) => [k] case Bad => [] }
  }

  predicate Rising(good: seq<nat>) {
    forall i :: 0 < i < |good| ==> good[i - 1] < good[i]
  }

  /** Runs of missing frames between neighbouring good ones, apart from lengths divisible by 256. */
  function VisibleGaps(good: seq<nat>): nat
    requires Rising(good)
    decreases |good|
  {
    if |good| < 2 then 0
    else
      var n := |good| - 1;
      var missing := good[n] - good[n - 1] - 1;
      VisibleGaps(good[..n]) + if missing % 256 != 0 then 1 else 0
  }

  lemma {:induction false} GapShows(previous: nat, k: nat)
    requires previous < k
    ensures SeqOf(k) != Next(SeqOf(previous)) <==> (k - previous - 1) % 256 != 0
  {
    hide Next;
    assert SeqOf(previous + 1) == Next(SeqOf(previous));
    SeqOfSame(previous + 1, k);
    var d := k - (previous + 1);
    assert (previous + 1 + d) % 256 == (previous + 1) % 256 <==> d % 256 == 0;
  }

  lemma {:induction false} ParsedIsNotIdle(buf: seq<Bits8>)
    ensures Parse(buf).Ok? ==> !AllZero(buf)
  {
    if Parse(buf).Ok? {
      assert buf[0] == MAGIC_LO != 0;
    }
  }

  /** The link's memory and statistics after `n` transfers of which `good` arrived intact. */
  ghost predicate Tallies(l: Link, good: seq<nat>, n: nat)
    requires Rising(good)
  {
    && l.stats.seqGaps == VisibleGaps(good)
    && l.stats.framesOk == |good|
    && l.stats.framesOk + l.stats.idleFrames + l.stats.crcErrors + l.stats.resyncs == n
    && (l.haveRx <==> good != [])
    && (good != [] ==> l.lastRx == SeqOf(good[|good| - 1]))
  }

  lemma {:induction false} GoodTallies(l: Link, buf: seq<Bits8>, k: nat, good: seq<nat>, n: nat)
    requires Carries(buf, Good(k)) && Rising(good) && Rising(good + [k]) && Tallies(l, good, n)
    ensures Tallies(ParseStep(l, buf).link, good + [k], n + 1)
  {
    hide Parse, SeqOf, Next, Readable, AllZero;
    ParsedIsNotIdle(buf);
    assert (good + [k])[..|good|] == good;
    if good != [] {
      assert (good + [k])[|good| - 1] < (good + [k])[|good|];
      GapShows(good[|good| - 1], k);
    }
  }

  lemma {:induction false} BadTallies(l: Link, buf: seq<Bits8>, good: seq<nat>, n: nat)
    requires Carries(buf, Bad) && Rising(good) && Tallies(l, good, n)
    ensures Tallies(ParseStep(l, buf).link, good, n + 1)
  {
    hide Parse, SeqOf, Next, Readable, AllZero, VisibleGaps;
  }

  /**
   For any pattern of lost and rejected frames the link counts one gap per run of
   missing frames whose length is not a multiple of 256, and one good frame each.
   */
  lemma {:induction false} GapsCounted(bufs: seq<seq<Bits8>>, arrivals: seq<Arrival>)
    requires |bufs| == |arrivals| && forall i :: 0 <= i < |bufs| ==> Carries(bufs[i], arrivals[i])
    requires Rising(Goods(arrivals))
    ensures Tallies(LinkRun(bufs), Goods(arrivals), |bufs|)
    decreases |bufs|
  {
    hide Carries, ParseStep;
    if bufs == [] {
    } else {
      hide Tallies;
      var n := |bufs| - 1;
      var before, good := Goods(arrivals[..n]), Goods(arrivals);
      forall i | 0 < i < |before| ensures before[i - 1] < before[i] {
        assert before[i - 1] == good[i - 1] && before[i] == good[i];
      }
      GapsCounted(bufs[..n], arrivals[..n]);
      if arrivals[n].Good? {
        GoodTallies(LinkRun(bufs[..n]), bufs[n], arrivals[n].k, before, n);
      } else {
        assert good == before;
        BadTallies(LinkRun(bufs[..n]), bufs[n], before, n);
      }
    }
  }

  // ---------------------------------------------------------------------------
  // Where every transfer is counted
  // ---------------------------------------------------------------------------

  /** How many buffers are zero throughout, the empty one included. */
  function Silent(bufs: seq<seq<Bits8>>): nat
    decreases |bufs|
  {
    if bufs == [] then 0
    else Silent(bufs[..|bufs| - 1]) + if bufs[|bufs| - 1] == Zeros(|bufs[|bufs| - 1]|) then 1 else 0
  }

  /** How many others hold a header's worth of bytes but do not begin with the magic pair. */
  function Astray(bufs: seq<seq<Bits8>>): nat
    decreases |bufs|
  {
    if bufs == [] then 0
    else Astray(bufs[..|bufs| - 1]) + if LosesMagic(bufs[|bufs| - 1]) then 1 else 0
  }

  predicate LosesMagic(buf: seq<Bits8>) {
    |buf| >= 8 && buf[..2] != [0x5A, 0xA5] && buf != Zeros(|buf|)
  }

  function Accepted(bufs: seq<seq<Bits8>>): nat
    decreases |bufs|
  {
    if bufs == [] then 0 else Accepted(bufs[..|bufs| - 1]) + if Parse(bufs[|bufs| - 1]).Ok? then 1 else 0
  }

  /** For every list of buffers the four counters are these numbers, and errors take the rest. */
  lemma {:induction false} StatsExact(bufs: seq<seq<Bits8>>)
    ensures var st := LinkRun(bufs).stats;
            && st.idleFrames == Silent(bufs) && st.resyncs == Astray(bufs) && st.framesOk == Accepted(bufs)
            && st.crcErrors == |bufs| - Silent(bufs) - Astray(bufs) - Accepted(bufs)
    decreases |bufs|
  {
    hide ParseStep, Parse, LosesMagic;
    if bufs == [] {
    } else {
      var n := |bufs| - 1;
      StatsExact(bufs[..n]);
      StatsStep(LinkRun(bufs[..n]), bufs[n]);
    }
  }

  lemma {:induction false} ZeroThroughout(buf: seq<Bits8>)
    ensures AllZero(buf) <==> buf == Zeros(|buf|)
  {
    if AllZero(buf) {
      assert forall i :: 0 <= i < |buf| ==> buf[i] == Zeros(|buf|)[i];
    } else {
      var i :| 0 <= i < |buf| && buf[i] != 0;
      assert Zeros(|buf|)[i] == 0;
    }
  }

  lemma {:induction false} StatsStep(l: Link, buf: seq<Bits8>)
    ensures var st, st' := l.stats, ParseStep(l, buf).link.stats;
            var silent, lost, ok := buf == Zeros(|buf|), LosesMagic(buf), Parse(buf).Ok?;
            && st'.idleFrames == st.idleFrames + (if silent then 1 else 0)
            && st'.resyncs == st.resyncs + (if lost then 1 else 0)
            && st'.framesOk == st.framesOk + (if ok then 1 else 0)
            && st'.crcErrors == st.crcErrors + (if silent || lost || ok then 0 else 1)
            && !(silent && lost) && !(silent && ok) && !(lost && ok)
  {
    hide Parse, Readable, Next;
    ParseExact(buf);
    ParsedIsNotIdle(buf);
    ZeroThroughout(buf);
    hide AllZero, Zeros;
  }
}
