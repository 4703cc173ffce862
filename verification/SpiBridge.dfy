/**
 The hub's SPI driver object, one call at a time: a bounded uplink queue that becomes
 frames, and received frames that become a bounded downlink queue.
 */
module SpiBridge {
  import opened Bounded
  import opened SpiFrame
  import opened WireTypes
  import FrameParser

  const UPLINK_DEFAULT := 256
  const DOWNLINK_DEFAULT := 128

  const OVERFLOW: Bits8 := 2
  const MORE_PENDING: Bits8 := 4
  /** ESTOP_LATCHED and HUB_FAULT, at 1 and 8. */
  const STICKY: Bits8 := 9

  function WithOverflow(flags: Bits8, overflow: bool): Bits8 {
    if overflow then flags | OVERFLOW else flags
  }

  function WithMore(flags: Bits8, more: bool): Bits8 {
    if more then flags | MORE_PENDING else flags
  }

  /** Only the two sticky bits can be switched from outside. */
  function Switched(sticky: Bits8, flag: Bits8, on: bool): Bits8 {
    if on then sticky | (flag & STICKY) else sticky & !(flag & STICKY)
  }

  /** Switching a set of bits sets or clears exactly the sticky ones among them. */
  lemma {:induction false} SwitchedBits(sticky: Bits8, flag: Bits8, on: bool)
    ensures var s := Switched(sticky, flag, on);
            && (s & 1 != 0 <==> if flag & 1 != 0 then on else sticky & 1 != 0)
            && (s & 8 != 0 <==> if flag & 8 != 0 then on else sticky & 8 != 0)
            && s & 0xF6 == sticky & 0xF6
  {
  }

  lemma {:induction false} SwitchedSticky(sticky: Bits8, flag: Bits8, on: bool)
    requires sticky & STICKY == sticky
    ensures Switched(sticky, flag, on) & STICKY == Switched(sticky, flag, on)
  {
  }

  /** A header's flags, bit by bit: the two sticky ones, overflow at 2, more pending at 4, and no others. */
  ghost predicate Announces(flags: Bits8, sticky: Bits8, overflow: bool, more: bool) {
    && flags & 9 == sticky
    && (flags & 2 != 0 <==> overflow)
    && (flags & 4 != 0 <==> more)
    && flags & 0xF0 == 0
  }

  lemma {:induction false} FlagsExact(sticky: Bits8, overflow: bool, more: bool)
    requires sticky & 9 == sticky
    ensures Announces(WithMore(WithOverflow(sticky, overflow), more), sticky, overflow, more)
  {
  }

  lemma {:induction false} HeaderCarries(flags: Bits8, seqNo: Bits8, recs: seq<Record>)
    requires |recs| <= 31
    ensures Frame(flags, seqNo, recs)[3] == flags && Frame(flags, seqNo, recs)[4] as int == |recs|
    ensures |recs| == 31 ==> Frame(flags, seqNo, recs)[4] == 31
  {
    hide Frame, SlotAt, WriteRecord;
    WireLayout(flags, seqNo, recs);
  }

  // ---------------------------------------------------------------------------
  // The driver object
  // ---------------------------------------------------------------------------

  function Fit(n: nat): nat {
    if n < MAX_RECORDS then n else MAX_RECORDS
  }

  predicate IdleHeader(rx: seq<Bits8>) {
    rx == [] || (|rx| >= HDR_SIZE && forall i :: 0 <= i < HDR_SIZE ==> rx[i] == 0)
  }

  class Bridge {
    const uplinkCap: nat
    const downlinkCap: nat
    var started: bool
    var uplink: seq<Record>
    var downlink: seq<Record>
    var stickyFlags: Bits8
    var overflowPending: bool
    var txSeq: Bits8
    var rxSeq: Bits8
    var haveRxSeq: bool
    var uplinkOverflows: nat
    var crcErrors: nat
    var seqGaps: nat
    var downlinkRecords: nat

    /** A queue length of zero asks for the default. */
    constructor (uplinkLen: nat, downlinkLen: nat)
      ensures uplinkCap == if uplinkLen > 0 then uplinkLen else 256
      ensures downlinkCap == if downlinkLen > 0 then downlinkLen else 128
      ensures uplink == [] && downlink == [] && stickyFlags == 0 && !overflowPending && txSeq == 0
      ensures !haveRxSeq && !started
    {
      uplinkCap := if uplinkLen > 0 then uplinkLen else UPLINK_DEFAULT;
      downlinkCap := if downlinkLen > 0 then downlinkLen else DOWNLINK_DEFAULT;
      started, uplink, downlink := false, [], [];
      stickyFlags, overflowPending, txSeq, rxSeq, haveRxSeq := 0, false, 0, 0, false;
      uplinkOverflows, crcErrors, seqGaps, downlinkRecords := 0, 0, 0, 0;
    }

    /** A full queue refuses the record and leaves a note for the next header. */
    method UplinkPush(rec: Record) returns (ok: bool)
      modifies `uplink, `overflowPending, `uplinkOverflows
      ensures ok <==> started && |old(uplink)| < uplinkCap
      ensures uplink == if ok then old(uplink) + [rec] else old(uplink)
      ensures overflowPending == (old(overflowPending) || (started && !ok))
      ensures uplinkOverflows == old(uplinkOverflows) + if started && !ok then 1 else 0
    {
      if !started {
        return false;
      }
      if |uplink| >= uplinkCap {
        overflowPending := true;
        uplinkOverflows := uplinkOverflows + 1;
        return false;
      }
      uplink := uplink + [rec];
      return true;
    }

    /** Each sticky bit named in `flag` becomes `on`; every other bit stays as it was. */
    method SetFlag(flag: Bits8, on: bool)
      modifies `stickyFlags
      ensures stickyFlags & 1 != 0 <==> if flag & 1 != 0 then on else old(stickyFlags) & 1 != 0
      ensures stickyFlags & 8 != 0 <==> if flag & 8 != 0 then on else old(stickyFlags) & 8 != 0
      ensures stickyFlags & 0xF6 == old(stickyFlags) & 0xF6
      ensures stickyFlags == Switched(old(stickyFlags), flag, on)
    {
      SwitchedBits(stickyFlags, flag, on);
      var bits := flag & STICKY;
      if on {
        stickyFlags := stickyFlags | bits;
      } else {
        stickyFlags := stickyFlags & !bits;
      }
    }

    /** Fill both transfer slots and open the uplink; a second start is refused and changes nothing. */
    method Start(first: array<Bits8>, second: array<Bits8>) returns (ok: bool)
      requires first.Length == XFER_SIZE && second.Length == XFER_SIZE && first != second
      requires !started ==> uplink == []
      modifies `started, `uplink, `overflowPending, `txSeq, first, second
      ensures ok <==> !old(started)
      ensures started && uplink == old(uplink)
      ensures ok ==> var flags := WithOverflow(stickyFlags, old(overflowPending));
                     && first[..] == Frame(WithMore(flags, false), old(txSeq), [])
                     && second[..] == Frame(WithMore(WithOverflow(stickyFlags, false), false),
                                            FrameParser.Next(old(txSeq)), [])
                     && txSeq == FrameParser.Next(FrameParser.Next(old(txSeq))) && !overflowPending
      ensures !ok ==> first[..] == old(first[..]) && second[..] == old(second[..])
                      && txSeq == old(txSeq) && overflowPending == old(overflowPending)
    {
      hide Frame, WithMore, WithOverflow, FrameParser.Next;
      if started {
        return false;
      }
      BuildTx(first);
      BuildTx(second);
      started := true;
      return true;
    }

    /** Up to 31 of the oldest records become one frame, and the overflow note is spent. */
    method BuildTx(buf: array<Bits8>)
      requires buf.Length == XFER_SIZE
      modifies `uplink, `overflowPending, `txSeq, buf
      ensures var n := Fit(|old(uplink)|);
              && uplink == old(uplink)[n..]
              && buf[..] == Frame(WithMore(WithOverflow(stickyFlags, old(overflowPending)), n < |old(uplink)|),
                                  old(txSeq), old(uplink)[..n])
      ensures buf[4] as int == |old(uplink)| - |uplink| && (uplink != [] ==> buf[4] == 31)
      ensures stickyFlags & 9 == stickyFlags ==> Announces(buf[3], stickyFlags, old(overflowPending), uplink != [])
      ensures !overflowPending && txSeq == FrameParser.Next(old(txSeq))
    {
      hide Frame, WithMore, WithOverflow, Announces, FrameParser.Next;
      var recs := DrainUplink();
      var flags := WithOverflow(stickyFlags, overflowPending);
      flags := WithMore(flags, |uplink| > 0);
      if stickyFlags & 9 == stickyFlags {
        FlagsExact(stickyFlags, overflowPending, |uplink| > 0);
      }
      overflowPending := false;
      var seqNo := txSeq;
      txSeq := FrameParser.Next(txSeq);
      HeaderCarries(flags, seqNo, recs);
      var used := Build(buf, flags, seqNo, recs);
    }

    /** Receive from the uplink queue without waiting, until it is empty or a frame is full. */
    method DrainUplink() returns (recs: seq<Record>)
      modifies `uplink
      ensures var n := Fit(|old(uplink)|); recs == old(uplink)[..n] && uplink == old(uplink)[n..]
    {
      recs := [];
      while |recs| < MAX_RECORDS && uplink != []
        invariant |recs| <= Fit(|old(uplink)|) && recs == old(uplink)[..|recs|] && uplink == old(uplink)[|recs|..]
        decreases |uplink|
      {
        recs := recs + [uplink[0]];
        uplink := uplink[1..];
      }
    }

    method RxIsIdle(rx: seq<Bits8>) returns (idle: bool)
      ensures idle <==> IdleHeader(rx)
      ensures idle <==> rx == [] || (|rx| >= 8 && FrameParser.AllZero(rx[..8]))
    {
      if |rx| == 0 {
        return true;
      }
      if |rx| < HDR_SIZE {
        return false;
      }
      for i := 0 to HDR_SIZE
        invariant forall j :: 0 <= j < i ==> rx[j] == 0
      {
        if rx[i] != 0 {
          return false;
        }
      }
      return true;
    }

    /** Queue one downlink record, dropping the oldest to make room. */
    method Deliver(rec: Record)
      requires 0 < downlinkCap && |downlink| <= downlinkCap
      modifies `downlink
      ensures downlink == Newest(old(downlink) + [rec], downlinkCap) && |downlink| <= downlinkCap
    {
      if |downlink| >= downlinkCap {
        downlink := downlink[1..];
      }
      downlink := downlink + [rec];
    }

    /** A rejected transfer leaves no trace in the downlink; a good one leaves its newest records. */
    method HandleRx(rx: seq<Bits8>)
      requires 0 < downlinkCap && |downlink| <= downlinkCap
      modifies `downlink, `crcErrors, `seqGaps, `rxSeq, `haveRxSeq, `downlinkRecords
      ensures |downlink| <= downlinkCap
      ensures !Parse(rx).Ok? ==>
                && downlink == old(downlink) && haveRxSeq == old(haveRxSeq) && rxSeq == old(rxSeq)
                && seqGaps == old(seqGaps) && downlinkRecords == old(downlinkRecords)
                && crcErrors == old(crcErrors) + if IdleHeader(rx) then 0 else 1
      ensures Parse(rx).Ok? ==>
                var view := Parse(rx).view;
                var recs := Readable(view.records, view.count);
                && downlink == Newest(old(downlink) + recs, downlinkCap)
                && haveRxSeq && rxSeq == view.seqNo
                && seqGaps == old(seqGaps) + (if old(haveRxSeq) && view.seqNo != FrameParser.Next(old(rxSeq)) then 1 else 0)
                && downlinkRecords == old(downlinkRecords) + |recs|
                && crcErrors == old(crcErrors) + view.count - |recs|
    {
      hide Parse, Readable, Newest, FrameParser.Next;
      var p := Parse(rx);
      if !p.Ok? {
        var idle := RxIsIdle(rx);
        if !idle {
          crcErrors := crcErrors + 1;
        }
        return;
      }
      var view := p.view;
      if haveRxSeq && view.seqNo != FrameParser.Next(rxSeq) {
        seqGaps := seqGaps + 1;
      }
      rxSeq := view.seqNo;
      haveRxSeq := true;
      DeliverAll(view);
    }

    method DeliverAll(view: View)
      requires |view.records| == REC_SIZE * view.count
      requires 0 < downlinkCap && |downlink| <= downlinkCap
      modifies `downlink, `crcErrors, `downlinkRecords
      ensures var recs := Readable(view.records, view.count);
              && downlink == Newest(old(downlink) + recs, downlinkCap) && |downlink| <= downlinkCap
              && downlinkRecords == old(downlinkRecords) + |recs|
              && crcErrors == old(crcErrors) + view.count - |recs|
    {
      hide ReadRecord, Newest;
      ghost var was := downlink;
      assert was + Readable(view.records, 0) == was;
      NewestShort(was, downlinkCap);
      for i := 0 to view.count
        invariant downlink == Newest(was + Readable(view.records, i), downlinkCap)
        invariant |downlink| <= downlinkCap
        invariant downlinkRecords == old(downlinkRecords) + |Readable(view.records, i)|
        invariant crcErrors == old(crcErrors) + i - |Readable(view.records, i)|
      {
        ghost var before := Readable(view.records, i);
        var r := ReadRecord(Slot(view.records, i));
        if r.None? {
          crcErrors := crcErrors + 1;
          assert Readable(view.records, i + 1) == before;
          continue;
        }
        NewestAppend(was + before, [r.value], downlinkCap);
        assert was + before + [r.value] == was + (before + [r.value]);
        Deliver(r.value);
        downlinkRecords := downlinkRecords + 1;
      }
    }
  }
}
