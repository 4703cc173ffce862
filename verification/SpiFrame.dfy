/**
 SPI bridge framing: 512-byte transfers of an 8-byte header and up to 31 CAN
 records of 16 bytes, protected by a CRC over version, flags, count, sequence and
 the record bytes.
 */
module SpiFrame {
  import opened Crc16
  import opened WireTypes

  const XFER_SIZE := 512
  const HDR_SIZE := 8
  const REC_SIZE := 16
  const MAX_RECORDS := 31
  const MAGIC_LO: Bits8 := 0x5A
  const MAGIC_HI: Bits8 := 0xA5
  const VERSION: Bits8 := 1

  // ---------------------------------------------------------------------------
  // Records
  // ---------------------------------------------------------------------------

  datatype RawRecord = RawRecord(id: bv32, bus: Bits8, dlc: Bits8, tsMs: bv16, data: seq<Bits8>)
  type Record = r: RawRecord | |r.data| == 8 witness RawRecord(0, 0, 0, 0, [0, 0, 0, 0, 0, 0, 0, 0])

  /** Little-endian fields. */
  function U16Bytes(v: bv16): seq<Bits8> {
    [(v & 0xFF) as Bits8, (v >> 8) as Bits8]
  }

  function U16At(lo: Bits8, hi: Bits8): bv16 {
    (lo as bv16) | ((hi as bv16) << 8)
  }

  function U32Bytes(v: bv32): seq<Bits8> {
    [(v & 0xFF) as Bits8, ((v >> 8) & 0xFF) as Bits8, ((v >> 16) & 0xFF) as Bits8, (v >> 24) as Bits8]
  }

  function U32At(b0: Bits8, b1: Bits8, b2: Bits8, b3: Bits8): bv32 {
    (b0 as bv32) | ((b1 as bv32) << 8) | ((b2 as bv32) << 16) | ((b3 as bv32) << 24)
  }

  lemma {:induction false} U16RoundTrip(v: bv16)
    ensures |U16Bytes(v)| == 2 && U16At(U16Bytes(v)[0], U16Bytes(v)[1]) == v
  {
  }

  lemma {:induction false} U32RoundTrip(v: bv32)
    ensures var b := U32Bytes(v); |b| == 4 && U32At(b[0], b[1], b[2], b[3]) == v
  {
  }

  /** A record as it can be represented on the wire. */
  function Canon(r: Record): Record {
    RawRecord(r.id & 0x1FFF_FFFF, r.bus & 0xF, r.dlc & 0xF, r.tsMs, r.data)
  }

  function WriteRecord(r: Record): (s: seq<Bits8>)
    ensures |s| == REC_SIZE
  {
    U32Bytes(r.id & 0x1FFF_FFFF) + [NibblePair(r.bus, r.dlc), 0] + U16Bytes(r.tsMs) + r.data
  }

  /** Two nibbles in a byte, first one high. */
  function NibblePair(hi: Bits8, lo: Bits8): Bits8 {
    ((hi & 0xF) << 4) | (lo & 0xF)
  }

  /** A sixteen-byte slot read back; a data length above eight is refused. */
  function ReadRecord(s: seq<Bits8>): Option<Record>
    requires |s| == REC_SIZE
  {
    Assemble(U32At(s[0], s[1], s[2], s[3]), s[4], U16At(s[6], s[7]), s[8..])
  }

  function Assemble(id: bv32, nibbles: Bits8, tsMs: bv16, data: seq<Bits8>): Option<Record>
    requires |data| == 8
  {
    var r := RawRecord(id & 0x1FFF_FFFF, nibbles >> 4, nibbles & 0xF, tsMs, data);
    if r.dlc <= 8 then Some(r) else None
  }

  lemma {:induction false} NibblesRead(hi: Bits8, lo: Bits8)
    ensures NibblePair(hi, lo) >> 4 == hi & 0xF && NibblePair(hi, lo) & 0xF == lo & 0xF
  {
  }

  lemma {:induction false} MaskTwice(v: bv32)
    ensures (v & 0x1FFF_FFFF) & 0x1FFF_FFFF == v & 0x1FFF_FFFF
  {
  }

  /** Where each field of a record lands in its slot. */
  lemma {:induction false} SlotLayout(r: Record)
    ensures var s := WriteRecord(r); var id := U32Bytes(r.id & 0x1FFF_FFFF); var ts := U16Bytes(r.tsMs);
            && |s| == REC_SIZE && |id| == 4 && |ts| == 2
            && s[0] == id[0] && s[1] == id[1] && s[2] == id[2] && s[3] == id[3]
            && s[4] == NibblePair(r.bus, r.dlc) && s[5] == 0 && s[6] == ts[0] && s[7] == ts[1]
            && s[8..] == r.data
  {
    hide NibblePair, U16Bytes, U32Bytes;
    FourBytes(r.id & 0x1FFF_FFFF);
    TwoBytes(r.tsMs);
    Layout(U32Bytes(r.id & 0x1FFF_FFFF), NibblePair(r.bus, r.dlc), U16Bytes(r.tsMs), r.data);
  }

  lemma {:induction false} FourBytes(v: bv32)
    ensures |U32Bytes(v)| == 4
  {
  }

  lemma {:induction false} Layout(id: seq<Bits8>, pair: Bits8, ts: seq<Bits8>, data: seq<Bits8>)
    requires |id| == 4 && |ts| == 2
    ensures var s := id + [pair, 0] + ts + data;
            && s[0] == id[0] && s[1] == id[1] && s[2] == id[2] && s[3] == id[3]
            && s[4] == pair && s[5] == 0 && s[6] == ts[0] && s[7] == ts[1] && s[8..] == data
  {
  }

  /** A written record reads back as its wire form, or not at all when its length field is bad. */
  lemma {:induction false} RecordRoundTrip(r: Record)
    ensures ReadRecord(WriteRecord(r)) == if r.dlc & 0xF <= 8 then Some(Canon(r)) else None
  {
    hide U16At, U16Bytes, U32At, U32Bytes, WriteRecord, NibblePair, Assemble, Canon;
    SlotLayout(r);
    U32RoundTrip(r.id & 0x1FFF_FFFF);
    U16RoundTrip(r.tsMs);
    AssembleCanon(r);
  }

  lemma {:induction false} AssembleCanon(r: Record)
    ensures Assemble(r.id & 0x1FFF_FFFF, NibblePair(r.bus, r.dlc), r.tsMs, r.data)
            == if r.dlc & 0xF <= 8 then Some(Canon(r)) else None
  {
    hide NibblePair;
    MaskTwice(r.id);
    NibblesRead(r.bus, r.dlc);
  }

  lemma {:induction false} TwoBytes(v: bv16)
    ensures |U16Bytes(v)| == 2
  {
  }

  /** A slot is readable exactly when its length nibble is at most eight. */
  lemma {:induction false} SlotReadable(s: seq<Bits8>)
    requires |s| == 16
    ensures ReadRecord(s).Some? <==> s[4] & 0xF <= 8
  {
    hide U16At, U32At;
  }

  /** The sixteen bytes, low byte first: 29 bits of identifier, bus above length, a zero, the time, the data. */
  lemma {:induction false} SlotBytes(r: Record)
    ensures var s := WriteRecord(r);
            && |s| == 16 && SpellsId(r.id, s[0], s[1], s[2], s[3]) && SpellsNibbles(r.bus, r.dlc, s[4])
            && s[5] == 0 && SpellsTime(r.tsMs, s[6], s[7]) && s[8..] == r.data
  {
    hide WriteRecord, U32Bytes, U16Bytes, NibblePair, SpellsId, SpellsTime, SpellsNibbles;
    SlotLayout(r);
    NibblesSpelt(r.bus, r.dlc);
    IdSpelt(r.id);
    TimeSpelt(r.tsMs);
  }

  predicate SpellsId(id: bv32, b0: Bits8, b1: Bits8, b2: Bits8, b3: Bits8) {
    && b0 as bv32 == id & 0xFF && b1 as bv32 == (id >> 8) & 0xFF
    && b2 as bv32 == (id >> 16) & 0xFF && b3 as bv32 == (id >> 24) & 0x1F
  }

  predicate SpellsTime(v: bv16, lo: Bits8, hi: Bits8) {
    lo as bv16 == v & 0xFF && hi as bv16 == v >> 8
  }

  predicate SpellsNibbles(bus: Bits8, dlc: Bits8, b: Bits8) {
    b >> 4 == bus & 0xF && b & 0xF == dlc & 0xF
  }

  lemma {:induction false} IdSpelt(id: bv32)
    ensures var b := U32Bytes(id & 0x1FFF_FFFF); |b| == 4 && SpellsId(id, b[0], b[1], b[2], b[3])
  {
  }

  lemma {:induction false} TimeSpelt(v: bv16)
    ensures var b := U16Bytes(v); |b| == 2 && SpellsTime(v, b[0], b[1])
  {
  }

  lemma {:induction false} NibblesSpelt(bus: Bits8, dlc: Bits8)
    ensures SpellsNibbles(bus, dlc, NibblePair(bus, dlc))
  {
  }

  // ---------------------------------------------------------------------------
  // Frames
  // ---------------------------------------------------------------------------

  function Serialized(recs: seq<Record>): (s: seq<Bits8>)
    ensures |s| == REC_SIZE * |recs|
    decreases |recs|
  {
    if recs == [] then [] else Serialized(recs[..|recs| - 1]) + WriteRecord(recs[|recs| - 1])
  }

  function FrameCrc(flags: Bits8, count: Bits8, seqNo: Bits8, body: seq<Bits8>): bv16 {
    Update(Update(SEED, [VERSION, flags, count, seqNo]), body)
  }

  function Zeros(n: nat): seq<Bits8> {
    seq(n, _ => 0)
  }

  /** The whole 512-byte transfer for up to 31 records. */
  function Frame(flags: Bits8, seqNo: Bits8, recs: seq<Record>): (buf: seq<Bits8>)
    requires |recs| <= MAX_RECORDS
    ensures |buf| == XFER_SIZE
  {
    var count := |recs| as Bits8;
    var body := Serialized(recs);
    var crc := U16Bytes(FrameCrc(flags, count, seqNo, body));
    [MAGIC_LO, MAGIC_HI, VERSION, flags, count, seqNo] + crc + body + Zeros(XFER_SIZE - HDR_SIZE - |body|)
  }

  datatype View = View(flags: Bits8, count: nat, seqNo: Bits8, records: seq<Bits8>)

  datatype Parsed = Ok(view: View) | BadMagic | BadVersion | BadCount | BadCrc | TooShort

  function Parse(buf: seq<Bits8>): (p: Parsed)
    ensures p.Ok? ==> p.view.count <= MAX_RECORDS && |p.view.records| == REC_SIZE * p.view.count
  {
    if |buf| < HDR_SIZE then TooShort
    else if buf[0] != MAGIC_LO || buf[1] != MAGIC_HI then BadMagic
    else if buf[2] != VERSION then BadVersion
    else
      var count := buf[4] as int;
      if count > MAX_RECORDS then BadCount
      else if |buf| < HDR_SIZE + REC_SIZE * count then TooShort
      else
        var body := buf[HDR_SIZE..HDR_SIZE + REC_SIZE * count];
        if Update(Update(SEED, buf[2..6]), body) != U16At(buf[6], buf[7]) then BadCrc
        else Ok(View(buf[3], count, buf[5], body))
  }

  function Slot(records: seq<Bits8>, i: nat): seq<Bits8>
    requires REC_SIZE * (i + 1) <= |records|
  {
    records[REC_SIZE * i..REC_SIZE * (i + 1)]
  }

  /** The records of a body that read back well, in order. */
  function Readable(body: seq<Bits8>, n: nat): seq<Record>
    requires REC_SIZE * n <= |body|
    decreases n
  {
    if n == 0 then []
    else
      var r := ReadRecord(Slot(body, n - 1));
      Readable(body, n - 1) + if r.Some? then [r.value] else []
  }

  lemma {:induction false} CountFits(n: nat)
    requires n <= MAX_RECORDS
    ensures (n as Bits8) as int == n
  {
  }

  /** Printer and parser agree, for every flag byte, sequence number and record list. */
  lemma {:induction false} FrameRoundTrip(flags: Bits8, seqNo: Bits8, recs: seq<Record>)
    requires |recs| <= MAX_RECORDS
    ensures Parse(Frame(flags, seqNo, recs)) == Ok(View(flags, |recs|, seqNo, Serialized(recs)))
  {
    hide Update, U16At, U16Bytes, Serialized;
    var buf := Frame(flags, seqNo, recs);
    var count := |recs| as Bits8;
    CountFits(|recs|);
    var body := Serialized(recs);
    var crc := FrameCrc(flags, count, seqNo, body);
    TwoBytes(crc);
    U16RoundTrip(crc);
    assert buf[2..6] == [VERSION, flags, count, seqNo];
    assert buf[6] == U16Bytes(crc)[0] && buf[7] == U16Bytes(crc)[1];
    assert buf[HDR_SIZE..HDR_SIZE + |body|] == body;
  }

  /** Where everything stands in a transfer: the header, the records behind it in order, and zeros. */
  lemma {:induction false} WireLayout(flags: Bits8, seqNo: Bits8, recs: seq<Record>)
    requires |recs| <= 31
    ensures var buf := Frame(flags, seqNo, recs); var end := 8 + 16 * |recs|;
            && |buf| == 512
            && buf[..3] == [0x5A, 0xA5, 1] && buf[3] == flags && buf[4] as int == |recs| && buf[5] == seqNo
            && U16At(buf[6], buf[7]) == Update(0xFFFF, buf[2..6] + buf[8..end])
            && (forall i :: 0 <= i < |recs| ==> SlotAt(buf, i) == WriteRecord(recs[i]))
            && (forall j :: end <= j < 512 ==> buf[j] == 0)
  {
    hide Update, U16At, Serialized, WriteRecord, SlotAt, Frame, FrameCrc;
    var buf, body := Frame(flags, seqNo, recs), Serialized(recs);
    FrameRegions(flags, seqNo, recs);
    CountFits(|recs|);
    CrcAtOnce(flags, |recs| as Bits8, seqNo, body);
    forall i | 0 <= i < |recs| ensures SlotAt(buf, i) == WriteRecord(recs[i]) {
      SerializedAt(recs, i);
      SlotInside(buf, body, i);
    }
  }

  lemma {:induction false} CrcAtOnce(flags: Bits8, count: Bits8, seqNo: Bits8, body: seq<Bits8>)
    ensures FrameCrc(flags, count, seqNo, body) == Update(0xFFFF, [1, flags, count, seqNo] + body)
  {
    hide Update;
    UpdateConcat(SEED, [VERSION, flags, count, seqNo], body);
  }

  lemma {:induction false} FrameRegions(flags: Bits8, seqNo: Bits8, recs: seq<Record>)
    requires |recs| <= 31
    ensures var buf := Frame(flags, seqNo, recs); var count, body := |recs| as Bits8, Serialized(recs);
            && |buf| == 512 && |body| == 16 * |recs|
            && buf[..3] == [0x5A, 0xA5, 1] && buf[3] == flags && buf[4] == count && buf[5] == seqNo
            && buf[2..6] == [1, flags, count, seqNo]
            && U16At(buf[6], buf[7]) == FrameCrc(flags, count, seqNo, body)
            && buf[8..8 + |body|] == body
            && (forall j :: 8 + |body| <= j < 512 ==> buf[j] == 0)
  {
    hide U16At, U16Bytes, Serialized, Zeros, FrameCrc, Frame;
    var count, body := |recs| as Bits8, Serialized(recs);
    var crc := FrameCrc(flags, count, seqNo, body);
    FrameIs(flags, seqNo, recs);
    TwoBytes(crc);
    U16RoundTrip(crc);
    AllZeros(XFER_SIZE - HDR_SIZE - |body|);
    HeadSlices(flags, count, seqNo);
    Regions([MAGIC_LO, MAGIC_HI, VERSION, flags, count, seqNo], U16Bytes(crc), body, Zeros(XFER_SIZE - HDR_SIZE - |body|));
  }

  lemma {:induction false} HeadSlices(flags: Bits8, count: Bits8, seqNo: Bits8)
    ensures var head := [MAGIC_LO, MAGIC_HI, VERSION, flags, count, seqNo];
            head[2..6] == [1, flags, count, seqNo] && head[..3] == [0x5A, 0xA5, 1]
  {
  }

  lemma {:induction false} AllZeros(n: nat)
    ensures |Zeros(n)| == n && forall j :: 0 <= j < n ==> Zeros(n)[j] == 0
  {
  }

  lemma {:induction false} SlotInside(buf: seq<Bits8>, body: seq<Bits8>, i: nat)
    requires 8 + |body| <= |buf| && buf[8..8 + |body|] == body && 16 * i + 16 <= |body|
    ensures SlotAt(buf, i) == body[16 * i..16 * i + 16]
  {
    forall k | 0 <= k < 16 ensures SlotAt(buf, i)[k] == body[16 * i + k] {
      assert buf[8..8 + |body|][16 * i + k] == buf[8 + 16 * i + k];
    }
  }

  lemma {:induction false} Regions(head: seq<Bits8>, crc: seq<Bits8>, body: seq<Bits8>, rest: seq<Bits8>)
    requires |head| == 6 && |crc| == 2
    ensures var buf := head + crc + body + rest;
            && buf[..3] == head[..3] && buf[2..6] == head[2..6]
            && buf[3] == head[3] && buf[4] == head[4] && buf[5] == head[5]
            && buf[6] == crc[0] && buf[7] == crc[1] && buf[8..8 + |body|] == body
            && forall j :: 8 + |body| <= j < |buf| ==> buf[j] == rest[j - 8 - |body|]
  {
  }

  /** The bytes of record `i` of a transfer. */
  function SlotAt(buf: seq<Bits8>, i: nat): seq<Bits8>
    requires 8 + 16 * i + 16 <= |buf|
  {
    buf[8 + 16 * i..8 + 16 * i + 16]
  }

  lemma {:induction false} SerializedAt(recs: seq<Record>, i: nat)
    requires i < |recs|
    ensures Serialized(recs)[16 * i..16 * i + 16] == WriteRecord(recs[i])
    decreases |recs|
  {
    hide WriteRecord;
    var n := |recs| - 1;
    if i < n {
      SerializedAt(recs[..n], i);
      var front, last := Serialized(recs[..n]), WriteRecord(recs[n]);
      assert (front + last)[16 * i..16 * i + 16] == front[16 * i..16 * i + 16];
    }
  }

  /**
   What is accepted, and why anything else is not: the first of magic, version, count,
   length and checksum that is wrong. The checksum runs over version to sequence and then
   the records, as one stream.
   */
  lemma {:induction false} ParseExact(buf: seq<Bits8>)
    ensures Parse(buf) == BadMagic <==> |buf| >= 8 && buf[..2] != [0x5A, 0xA5]
    ensures Parse(buf) == BadVersion <==> |buf| >= 8 && buf[..2] == [0x5A, 0xA5] && buf[2] != 1
    ensures Parse(buf) == BadCount <==> |buf| >= 8 && buf[..3] == [0x5A, 0xA5, 1] && buf[4] > 31
    ensures Parse(buf) == TooShort <==>
            |buf| < 8 || (buf[..3] == [0x5A, 0xA5, 1] && buf[4] <= 31 && |buf| < 8 + 16 * (buf[4] as int))
    ensures Parse(buf).Ok? <==>
            && |buf| >= 8 && buf[..3] == [0x5A, 0xA5, 1] && buf[4] <= 31 && |buf| >= 8 + 16 * (buf[4] as int)
            && Update(0xFFFF, buf[2..6] + buf[8..8 + 16 * (buf[4] as int)]) == U16At(buf[6], buf[7])
  {
    hide Update, U16At;
    if |buf| >= 8 {
      FirstThree(buf);
      CountInRange(buf[4]);
      if |buf| >= 8 + 16 * (buf[4] as int) {
        UpdateConcat(SEED, buf[2..6], buf[8..8 + 16 * (buf[4] as int)]);
      }
    }
  }

  lemma {:induction false} FirstThree(buf: seq<Bits8>)
    requires |buf| >= 8
    ensures buf[..2] == [0x5A, 0xA5] <==> buf[0] == 0x5A && buf[1] == 0xA5
    ensures buf[..3] == [0x5A, 0xA5, 1] <==> buf[0] == 0x5A && buf[1] == 0xA5 && buf[2] == 1
  {
    assert buf[..2] == [buf[0], buf[1]] && buf[..3] == [buf[0], buf[1], buf[2]];
  }

  lemma {:induction false} CountInRange(b: Bits8)
    ensures b <= 31 <==> b as int <= 31
  {
  }

  /** What the far end gets of a list of records. */
  function Deliverable(recs: seq<Record>): seq<Record>
    decreases |recs|
  {
    if recs == [] then []
    else
      var n := |recs| - 1;
      Deliverable(recs[..n]) + if recs[n].dlc & 0xF <= 8 then [Canon(recs[n])] else []
  }

  lemma {:induction false} ReadablePrefix(a: seq<Bits8>, b: seq<Bits8>, n: nat)
    requires REC_SIZE * n <= |a|
    ensures Readable(a + b, n) == Readable(a, n)
    decreases n
  {
    hide ReadRecord;
    if n > 0 {
      ReadablePrefix(a, b, n - 1);
      assert Slot(a + b, n - 1) == Slot(a, n - 1);
    }
  }

  lemma {:induction false} SerializedReadable(recs: seq<Record>)
    ensures Readable(Serialized(recs), |recs|) == Deliverable(recs)
    decreases |recs|
  {
    hide ReadRecord, WriteRecord, Canon;
    if recs != [] {
      var n := |recs| - 1;
      SerializedReadable(recs[..n]);
      var body, last := Serialized(recs[..n]), WriteRecord(recs[n]);
      ReadablePrefix(body, last, n);
      assert Slot(body + last, n) == last;
      RecordRoundTrip(recs[n]);
    }
  }

  // ---------------------------------------------------------------------------
  // Corruption
  // ---------------------------------------------------------------------------

  /** The bytes a frame's CRC covers: version, flags, count, sequence, then the records. */
  function Covered(buf: seq<Bits8>): seq<Bits8>
    requires Parse(buf).Ok?
  {
    buf[2..6] + Parse(buf).view.records
  }

  /** `buf'` is `buf` with covered bytes other than the count byte replaced by `cov'`. */
  ghost predicate Tampered(buf: seq<Bits8>, buf': seq<Bits8>, cov': seq<Bits8>)
    requires Parse(buf).Ok?
  {
    var end := HDR_SIZE + REC_SIZE * Parse(buf).view.count;
    && |buf'| == |buf| && |cov'| == |Covered(buf)|
    && buf'[..2] == buf[..2] && buf'[4] == buf[4] && buf'[6..8] == buf[6..8] && buf'[end..] == buf[end..]
    && buf'[2..6] == cov'[..4] && buf'[8..end] == cov'[4..]
  }

  /** Any corruption of covered bytes confined to sixteen consecutive bits makes the frame unparseable. */
  lemma {:induction false} BurstRejected(buf: seq<Bits8>, buf': seq<Bits8>, cov': seq<Bits8>, at: nat)
    requires Parse(buf).Ok? && Tampered(buf, buf', cov') && Burst(Bits(Covered(buf)), Bits(cov'), at)
    ensures Parse(buf').BadVersion? || Parse(buf').BadCrc?
  {
    hide Update, Bits, U16At;
    var cov := Covered(buf);
    BurstDetected(SEED, cov, cov', at);
    UpdateConcat(SEED, buf[2..6], Parse(buf).view.records);
    UpdateConcat(SEED, cov'[..4], cov'[4..]);
    assert cov'[..4] + cov'[4..] == cov';
    assert buf'[0] == buf'[..2][0] == buf[..2][0] && buf'[1] == buf'[..2][1] == buf[..2][1];
    assert buf'[6] == buf'[6..8][0] == buf[6..8][0] && buf'[7] == buf'[6..8][1] == buf[6..8][1];
  }

  // ---------------------------------------------------------------------------
  // Building in place
  // ---------------------------------------------------------------------------

  method Build(buf: array<Bits8>, flags: Bits8, seqNo: Bits8, recs: seq<Record>) returns (used: nat)
    requires buf.Length == XFER_SIZE
    modifies buf
    ensures |recs| > MAX_RECORDS ==> used == 0 && buf[..] == old(buf[..])
    ensures |recs| <= MAX_RECORDS ==> used == HDR_SIZE + REC_SIZE * |recs| && buf[..] == Frame(flags, seqNo, recs)
  {
    hide Update, U16Bytes, Serialized, Zeros, FrameCrc, Frame;
    if |recs| > MAX_RECORDS {
      return 0;
    }
    var count := |recs| as Bits8;
    var head := [MAGIC_LO, MAGIC_HI, VERSION, flags, count, seqNo];
    Lay(buf, head, recs);
    used := HDR_SIZE + REC_SIZE * |recs|;
    ghost var laid := buf[..];
    Seal(buf, used);
    CrcOf(laid, flags, count, seqNo, used);
    TwoBytes(FrameCrc(flags, count, seqNo, Serialized(recs)));
    Laid(buf[..], head, U16Bytes(FrameCrc(flags, count, seqNo, Serialized(recs))), Serialized(recs));
    FrameIs(flags, seqNo, recs);
  }

  /** Header, records and zero fill; the CRC is still zero. */
  method Lay(buf: array<Bits8>, head: seq<Bits8>, recs: seq<Record>)
    requires buf.Length == XFER_SIZE && |head| == 6 && |recs| <= MAX_RECORDS
    modifies buf
    ensures buf[..6] == head
    ensures buf[HDR_SIZE..HDR_SIZE + REC_SIZE * |recs|] == Serialized(recs)
    ensures forall j :: HDR_SIZE + REC_SIZE * |recs| <= j < XFER_SIZE ==> buf[j] == 0
  {
    hide Serialized;
    forall i | 0 <= i < XFER_SIZE {
      buf[i] := 0;
    }
    PutAll(buf, 0, head);
    assert buf[..6] == buf[0..0 + |head|];
    PutRecords(buf, recs);
    assert buf[..6] == head;
  }

  /** Computes the CRC in two pieces and stores it. */
  method Seal(buf: array<Bits8>, used: nat)
    requires buf.Length == XFER_SIZE && HDR_SIZE <= used <= XFER_SIZE
    modifies buf
    ensures buf[6..8] == U16Bytes(Update(Update(SEED, old(buf[2..6])), old(buf[HDR_SIZE..used])))
    ensures buf[..6] == old(buf[..6]) && buf[HDR_SIZE..used] == old(buf[HDR_SIZE..used])
    ensures forall j :: used <= j < XFER_SIZE ==> buf[j] == old(buf[j])
  {
    hide Update, U16Bytes;
    var crc := ComputeUpdate(SEED, buf[2..6]);
    crc := ComputeUpdate(crc, buf[HDR_SIZE..used]);
    TwoBytes(crc);
    PutAll(buf, 6, U16Bytes(crc));
  }

  /** The checksum of a buffer that starts with this header. */
  lemma {:induction false} CrcOf(laid: seq<Bits8>, flags: Bits8, count: Bits8, seqNo: Bits8, used: nat)
    requires |laid| == XFER_SIZE && HDR_SIZE <= used <= XFER_SIZE
    requires laid[..6] == [MAGIC_LO, MAGIC_HI, VERSION, flags, count, seqNo]
    ensures Update(Update(SEED, laid[2..6]), laid[HDR_SIZE..used]) == FrameCrc(flags, count, seqNo, laid[HDR_SIZE..used])
  {
    hide Update;
    assert laid[2..6] == laid[..6][2..6] == [VERSION, flags, count, seqNo];
  }

  lemma {:induction false} FrameIs(flags: Bits8, seqNo: Bits8, recs: seq<Record>)
    requires |recs| <= MAX_RECORDS
    ensures var count, body := |recs| as Bits8, Serialized(recs);
            Frame(flags, seqNo, recs) == [MAGIC_LO, MAGIC_HI, VERSION, flags, count, seqNo]
                                         + U16Bytes(FrameCrc(flags, count, seqNo, body)) + body
                                         + Zeros(XFER_SIZE - HDR_SIZE - |body|)
  {
  }

  lemma {:induction false} Laid(buf: seq<Bits8>, head: seq<Bits8>, crc: seq<Bits8>, body: seq<Bits8>)
    requires |buf| == XFER_SIZE && |head| == 6 && |crc| == 2 && |body| <= XFER_SIZE - HDR_SIZE
    requires buf[..6] == head && buf[6..8] == crc && buf[HDR_SIZE..HDR_SIZE + |body|] == body
    requires forall j :: HDR_SIZE + |body| <= j < XFER_SIZE ==> buf[j] == 0
    ensures buf == head + crc + body + Zeros(XFER_SIZE - HDR_SIZE - |body|)
  {
    assert buf[HDR_SIZE + |body|..] == Zeros(XFER_SIZE - HDR_SIZE - |body|);
  }

  /** Serializes the records behind the header, sixteen bytes each. */
  lemma {:induction false} SerializedSnoc(recs: seq<Record>, i: nat)
    requires i < |recs|
    ensures Serialized(recs[..i + 1]) == Serialized(recs[..i]) + WriteRecord(recs[i])
  {
    assert recs[..i + 1][..i] == recs[..i];
  }

  method PutRecords(buf: array<Bits8>, recs: seq<Record>)
    requires buf.Length == XFER_SIZE && |recs| <= MAX_RECORDS
    modifies buf
    ensures buf[HDR_SIZE..HDR_SIZE + REC_SIZE * |recs|] == Serialized(recs)
    ensures forall j :: 0 <= j < XFER_SIZE && !(HDR_SIZE <= j < HDR_SIZE + REC_SIZE * |recs|) ==> buf[j] == old(buf[j])
  {
    hide WriteRecord;
    var at := HDR_SIZE;
    for i := 0 to |recs|
      invariant at == HDR_SIZE + REC_SIZE * i
      invariant buf[HDR_SIZE..at] == Serialized(recs[..i])
      invariant forall j :: 0 <= j < XFER_SIZE && !(HDR_SIZE <= j < at) ==> buf[j] == old(buf[j])
    {
      SerializedSnoc(recs, i);
      hide Serialized;
      ghost var before := buf[HDR_SIZE..at];
      PutAll(buf, at, WriteRecord(recs[i]));
      assert buf[HDR_SIZE..at] == before;
      assert buf[HDR_SIZE..at + REC_SIZE] == buf[HDR_SIZE..at] + buf[at..at + REC_SIZE];
      at := at + REC_SIZE;
    }
    assert recs[..|recs|] == recs;
  }

  /** Writes `s` at `at` and nothing else. */
  method PutAll(buf: array<Bits8>, at: nat, s: seq<Bits8>)
    requires at + |s| <= buf.Length
    modifies buf
    ensures buf[at..at + |s|] == s
    ensures forall j :: 0 <= j < buf.Length && !(at <= j < at + |s|) ==> buf[j] == old(buf[j])
  {
    forall i | 0 <= i < |s| {
      buf[at + i] := s[i];
    }
  }

  // ---------------------------------------------------------------------------
  // Scanning
  // ---------------------------------------------------------------------------

  predicate MagicAt(buf: seq<Bits8>, i: nat) {
    i + 1 < |buf| && buf[i] == MAGIC_LO && buf[i + 1] == MAGIC_HI
  }

  /** The first plausible frame start at or after `from`, or -1. */
  method Scan(buf: seq<Bits8>, from: nat) returns (at: int)
    ensures at >= 0 ==> from <= at && MagicAt(buf, at) && forall i: nat :: from <= i < at ==> !MagicAt(buf, i)
    ensures at < 0 ==> at == -1 && forall i: nat :: from <= i ==> !MagicAt(buf, i)
  {
    if |buf| < 2 {
      return -1;
    }
    at := from;
    while at + 1 < |buf|
      invariant from <= at
      invariant forall i: nat :: from <= i < at ==> !MagicAt(buf, i)
    {
      if MagicAt(buf, at) {
        return;
      }
      at := at + 1;
    }
    at := -1;
  }

  lemma {:induction false} NoMagicBeforeFrame(garbage: seq<Bits8>, frame: seq<Bits8>, i: nat)
    requires forall j: nat :: !MagicAt(garbage, j)
    requires |frame| >= 2 && frame[0] == MAGIC_LO && i < |garbage|
    ensures !MagicAt(garbage + frame, i)
  {
    assert !MagicAt(garbage, i);
  }

  /** Garbage that holds no magic pair, followed by a frame: a scan from the start finds the frame exactly. */
  lemma {:induction false} ScanFindsFrame(garbage: seq<Bits8>, flags: Bits8, seqNo: Bits8, recs: seq<Record>, at: nat)
    requires |recs| <= MAX_RECORDS && forall i: nat :: !MagicAt(garbage, i)
    requires var buf := garbage + Frame(flags, seqNo, recs);
             MagicAt(buf, at) && forall i: nat :: i < at ==> !MagicAt(buf, i)
    ensures at == |garbage|
  {
    hide FrameCrc, U16Bytes, Frame;
    var frame := Frame(flags, seqNo, recs);
    FrameStart(flags, seqNo, recs);
    forall i: nat | i < |garbage| ensures !MagicAt(garbage + frame, i) {
      NoMagicBeforeFrame(garbage, frame, i);
    }
    assert MagicAt(garbage + frame, |garbage|);
  }

  lemma {:induction false} FrameStart(flags: Bits8, seqNo: Bits8, recs: seq<Record>)
    requires |recs| <= MAX_RECORDS
    ensures Frame(flags, seqNo, recs)[0] == MAGIC_LO && Frame(flags, seqNo, recs)[1] == MAGIC_HI
  {
  }
}
