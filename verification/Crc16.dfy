/**
 CRC16-CCITT: register of sixteen bits, polynomial 0x1021, bits fed high first.

 Error detection rests on two facts about one register step: it is linear over
 exclusive-or, and only zero maps to zero.
 */
module Crc16 {
  import opened WireTypes

  const SEED: bv16 := 0xFFFF

  /** One shift of the register; a bit falling off the top adds the polynomial. */
  function Shift(crc: bv16): bv16 {
    if Top(crc) then Xor(crc << 1, 0x1021) else crc << 1
  }

  predicate Top(x: bv16) {
    x & 0x8000 != 0
  }

  function Xor(x: bv16, y: bv16): bv16 {
    x ^ y
  }

  function Shifts(crc: bv16, n: nat): bv16
    decreases n
  {
    if n == 0 then crc else Shift(Shifts(crc, n - 1))
  }

  function FeedByte(crc: bv16, b: Bits8): bv16 {
    Shifts(Xor(crc, (b as bv16) << 8), 8)
  }

  function Update(crc: bv16, data: seq<Bits8>): bv16
    decreases |data|
  {
    if data == [] then crc else FeedByte(Update(crc, data[..|data| - 1]), data[|data| - 1])
  }

  lemma {:induction false} UpdateConcat(crc: bv16, a: seq<Bits8>, b: seq<Bits8>)
    ensures Update(crc, a + b) == Update(Update(crc, a), b)
    decreases |b|
  {
    hide FeedByte;
    if b == [] {
      assert a + b == a;
    } else {
      assert (a + b)[..|a + b| - 1] == a + b[..|b| - 1];
      UpdateConcat(crc, a, b[..|b| - 1]);
    }
  }

  /** The inner loop: eight shifts. */
  method ShiftEight(loaded: bv16) returns (crc: bv16)
    ensures crc == Shifts(loaded, 8)
  {
    hide Shift;
    crc := loaded;
    for b := 0 to 8
      invariant crc == Shifts(loaded, b)
    {
      ShiftIs(crc);
      if crc & 0x8000 != 0 {
        crc := (crc << 1) ^ 0x1021;
      } else {
        crc := crc << 1;
      }
    }
  }

  /** The register after `data`, computed bit by bit as the code does. */
  method ComputeUpdate(start: bv16, data: seq<Bits8>) returns (crc: bv16)
    ensures crc == Update(start, data)
  {
    hide Shifts;
    crc := start;
    for i := 0 to |data|
      invariant crc == Update(start, data[..i])
    {
      assert data[..i + 1][..i] == data[..i];
      crc := crc ^ ((data[i] as bv16) << 8);
      crc := ShiftEight(crc);
    }
    assert data[..|data|] == data;
  }

  lemma {:induction false} ShiftIs(x: bv16)
    ensures Shift(x) == if Top(x) then (x << 1) ^ 0x1021 else x << 1
  {
  }

  // ---------------------------------------------------------------------------
  // Linearity and injectivity
  // ---------------------------------------------------------------------------

  lemma {:induction false} TopBit(x: bv16, y: bv16)
    ensures (x ^ y) & 0x8000 == (x & 0x8000) ^ (y & 0x8000)
    ensures x & 0x8000 == 0 || x & 0x8000 == 0x8000
    ensures (x ^ y) << 1 == (x << 1) ^ (y << 1)
  {
  }

  lemma {:induction false} XorLaws(x: bv16, y: bv16, p: bv16)
    ensures (x ^ p) ^ (y ^ p) == x ^ y
    ensures (x ^ y) ^ p == (x ^ p) ^ y
    ensures (x ^ y) ^ p == x ^ (y ^ p)
    ensures x ^ y == y ^ x
  {
  }

  lemma {:induction false} ShiftLinearLow(x: bv16, y: bv16)
    requires !Top(y)
    ensures Shift(Xor(x, y)) == Xor(Shift(x), Shift(y))
  {
    TopBit(x, y);
    XorLaws(x << 1, y << 1, 0x1021);
  }

  lemma {:induction false} ShiftLinearHigh(x: bv16, y: bv16)
    requires Top(x) && Top(y)
    ensures Shift(Xor(x, y)) == Xor(Shift(x), Shift(y))
  {
    TopBit(x, y);
    TopBit(y, x);
    XorLaws(x << 1, y << 1, 0x1021);
  }

  lemma {:induction false} XorCommutes(x: bv16, y: bv16)
    ensures Xor(x, y) == Xor(y, x)
  {
  }

  /** The register step distributes over exclusive-or. */
  lemma {:induction false} ShiftLinear(x: bv16, y: bv16)
    ensures Shift(Xor(x, y)) == Xor(Shift(x), Shift(y))
  {
    hide Shift, Xor, Top;
    if !Top(y) {
      ShiftLinearLow(x, y);
    } else if !Top(x) {
      ShiftLinearLow(y, x);
      XorCommutes(x, y);
      XorCommutes(Shift(x), Shift(y));
    } else {
      ShiftLinearHigh(x, y);
    }
  }

  /** The polynomial's low bit shows whether it was added... */
  lemma {:induction false} PolynomialShows(x: bv16, y: bv16)
    ensures (x << 1) ^ 0x1021 != y << 1
  {
  }

  /** ... and the shift itself loses only the top bit. */
  lemma {:induction false} ShiftLosesTop(x: bv16, y: bv16)
    requires x << 1 == y << 1 && x & 0x8000 == y & 0x8000
    ensures x == y
  {
  }

  lemma {:induction false} TopShows(x: bv16, y: bv16)
    requires Top(x) && !Top(y)
    ensures Shift(x) != Shift(y)
  {
    PolynomialShows(x, y);
  }

  lemma {:induction false} SameTopHigh(x: bv16, y: bv16)
    requires Top(x) && Top(y) && Shift(x) == Shift(y)
    ensures x == y
  {
    hide Shift, Top;
    HighShifts(x, y);
    TopIs(x);
    TopIs(y);
    HighRecovered(x, y);
  }

  lemma {:induction false} HighRecovered(x: bv16, y: bv16)
    requires (x << 1) ^ 0x1021 == (y << 1) ^ 0x1021 && x & 0x8000 == 0x8000 && y & 0x8000 == 0x8000
    ensures x == y
  {
  }

  lemma {:induction false} HighShifts(x: bv16, y: bv16)
    requires Top(x) && Top(y) && Shift(x) == Shift(y)
    ensures (x << 1) ^ 0x1021 == (y << 1) ^ 0x1021
  {
  }

  lemma {:induction false} TopIs(x: bv16)
    requires Top(x)
    ensures x & 0x8000 == 0x8000
  {
  }

  lemma {:induction false} SameTopLow(x: bv16, y: bv16)
    requires !Top(x) && !Top(y) && Shift(x) == Shift(y)
    ensures x == y
  {
    ShiftLosesTop(x, y);
  }

  /** Registers that agree after a shift agreed before it. */
  lemma {:induction false} ShiftInjective(x: bv16, y: bv16)
    requires Shift(x) == Shift(y)
    ensures x == y
  {
    hide Shift, Top;
    if Top(x) {
      if Top(y) {
        SameTopHigh(x, y);
      } else {
        TopShows(x, y);
      }
    } else if Top(y) {
      TopShows(y, x);
    } else {
      SameTopLow(x, y);
    }
  }

  lemma {:induction false} ShiftsLinear(x: bv16, y: bv16, n: nat)
    ensures Shifts(Xor(x, y), n) == Xor(Shifts(x, n), Shifts(y, n))
    decreases n
  {
    hide Shift, Xor;
    if n > 0 {
      ShiftsLinear(x, y, n - 1);
      ShiftLinear(Shifts(x, n - 1), Shifts(y, n - 1));
    }
  }

  lemma {:induction false} ShiftsInjective(x: bv16, y: bv16, n: nat)
    requires Shifts(x, n) == Shifts(y, n)
    ensures x == y
    decreases n
  {
    hide Shift;
    if n > 0 {
      ShiftInjective(Shifts(x, n - 1), Shifts(y, n - 1));
      ShiftsInjective(x, y, n - 1);
    }
  }

  // ---------------------------------------------------------------------------
  // Feeding single bits
  // ---------------------------------------------------------------------------

  function Mask(bit: bool): bv16 {
    if bit then 0x8000 else 0
  }

  function FeedBit(crc: bv16, bit: bool): bv16 {
    Shift(Xor(crc, Mask(bit)))
  }

  function FeedBits(crc: bv16, bits: seq<bool>): bv16
    decreases |bits|
  {
    if bits == [] then crc else FeedBit(FeedBits(crc, bits[..|bits| - 1]), bits[|bits| - 1])
  }

  /** The single bit that reaches the top after `n` shifts. */
  function Below(n: nat): bv16
    requires n < 16
    decreases n
  {
    if n == 0 then 0x8000 else Below(n - 1) >> 1
  }

  /** Up to sixteen bits laid out in a word, first bit on top. */
  function Word(bits: seq<bool>): bv16
    requires |bits| <= 16
    decreases |bits|
  {
    if bits == [] then 0
    else Xor(Word(bits[..|bits| - 1]), if bits[|bits| - 1] then Below(|bits| - 1) else 0)
  }

  lemma {:induction false} BelowRises(n: nat)
    requires n < 16
    ensures Shifts(Below(n), n) == 0x8000
    decreases n
  {
    if n > 0 {
      BelowRises(n - 1);
      BelowShifts(n);
      ShiftsFromBelow(Below(n), n);
    }
  }

  /** Shifting first or last makes no difference. */
  lemma {:induction false} ShiftsFromBelow(x: bv16, n: nat)
    requires n > 0
    ensures Shifts(x, n) == Shifts(Shift(x), n - 1)
    decreases n
  {
    hide Shift;
    if n > 1 {
      ShiftsFromBelow(x, n - 1);
    }
  }

  lemma {:induction false} BelowShifts(n: nat)
    requires 0 < n < 16
    ensures Shift(Below(n)) == Below(n - 1)
    ensures Below(n) & 0x8000 == 0
  {
    BelowValue(n);
    BelowValue(n - 1);
  }

  lemma {:induction false} BelowValue(n: nat)
    requires n < 16
    ensures Below(n) == (0x8000 as bv16 >> n)
    decreases n
  {
    if n > 0 {
      BelowValue(n - 1);
    }
  }

  lemma {:induction false} MaskRises(bit: bool, n: nat)
    requires n < 16
    ensures Shifts(if bit then Below(n) else 0, n) == Mask(bit)
  {
    if bit {
      BelowRises(n);
    } else {
      ZeroStays(n);
    }
  }

  lemma {:induction false} ZeroStays(n: nat)
    ensures Shifts(0, n) == 0
    decreases n
  {
    if n > 0 {
      ZeroStays(n - 1);
    }
  }

  lemma {:induction false} XorAssociates(x: bv16, y: bv16, z: bv16)
    ensures Xor(Xor(x, y), z) == Xor(x, Xor(y, z))
  {
  }

  /** Feeding up to sixteen bits one by one is loading them as a word and shifting. */
  lemma {:induction false} BitsAsWord(crc: bv16, bits: seq<bool>)
    requires |bits| <= 16
    ensures FeedBits(crc, bits) == Shifts(Xor(crc, Word(bits)), |bits|)
    decreases |bits|
  {
    hide Shift, Xor, Mask, Below;
    if bits == [] {
      XorZero(crc);
    } else {
      var n := |bits| - 1;
      var pre, bit := bits[..n], bits[n];
      BitsAsWord(crc, pre);
      MaskRises(bit, n);
      var loaded, low := Xor(crc, Word(pre)), if bit then Below(n) else 0;
      ShiftsLinear(loaded, low, n);
      XorAssociates(crc, Word(pre), low);
    }
  }

  lemma {:induction false} XorZero(x: bv16)
    ensures Xor(x, 0) == x && Xor(0, x) == x
  {
  }

  lemma {:induction false} TopOfXor(x: bv16, y: bv16)
    ensures Top(Xor(x, y)) <==> Top(x) != Top(y)
  {
    TopBit(x, y);
    TopBit(y, x);
  }

  /** The first bit of a word decides its top. */
  lemma {:induction false} WordTop(bits: seq<bool>)
    requires 0 < |bits| <= 16
    ensures Top(Word(bits)) <==> bits[0]
    decreases |bits|
  {
    hide Xor, Top;
    var n := |bits| - 1;
    var low: bv16 := if bits[n] then Below(n) else 0;
    TopOfXor(Word(bits[..n]), low);
    TopOfLow(bits[n], n);
    if n == 0 {
      TopOfLow(false, 1);
    } else {
      WordTop(bits[..n]);
    }
  }

  lemma {:induction false} TopOfLow(bit: bool, n: nat)
    requires n < 16
    ensures Top(if bit then Below(n) else 0) <==> bit && n == 0
  {
    if n > 0 {
      BelowShifts(n);
    }
  }

  // ---------------------------------------------------------------------------
  // Bytes as bits
  // ---------------------------------------------------------------------------

  /** High bit first, the order in which they enter the register. */
  function BitsOf(b: Bits8): seq<bool> {
    [b & 0x80 != 0, b & 0x40 != 0, b & 0x20 != 0, b & 0x10 != 0,
     b & 0x08 != 0, b & 0x04 != 0, b & 0x02 != 0, b & 0x01 != 0]
  }

  function Bits(data: seq<Bits8>): seq<bool>
    decreases |data|
  {
    if data == [] then [] else Bits(data[..|data| - 1]) + BitsOf(data[|data| - 1])
  }

  function Bit(on: bool, value: bv16): bv16 {
    if on then value else 0
  }

  lemma {:induction false} ByteSplits(b: Bits8)
    ensures (b as bv16) << 8
            == Xor(Xor(Xor(Xor(Xor(Xor(Xor(Bit(b & 0x80 != 0, 0x8000), Bit(b & 0x40 != 0, 0x4000)),
                                       Bit(b & 0x20 != 0, 0x2000)), Bit(b & 0x10 != 0, 0x1000)),
                               Bit(b & 0x08 != 0, 0x0800)), Bit(b & 0x04 != 0, 0x0400)),
                       Bit(b & 0x02 != 0, 0x0200)), Bit(b & 0x01 != 0, 0x0100))
  {
  }

  lemma {:induction false} WordSnoc(bits: seq<bool>, bit: bool)
    requires |bits| < 16
    ensures Word(bits + [bit]) == Xor(Word(bits), Bit(bit, Below(|bits|)))
  {
    assert (bits + [bit])[..|bits|] == bits;
  }

  lemma {:induction false} BelowValues()
    ensures Below(0) == 0x8000 && Below(1) == 0x4000 && Below(2) == 0x2000 && Below(3) == 0x1000
    ensures Below(4) == 0x0800 && Below(5) == 0x0400 && Below(6) == 0x0200 && Below(7) == 0x0100
  {
  }

  lemma {:induction false} ByteWord(b: Bits8)
    ensures Word(BitsOf(b)) == (b as bv16) << 8
  {
    hide Below, Word, Xor, Bit;
    BelowValues();
    ByteSplits(b);
    var s := BitsOf(b);
    EmptyWord();
    assert [] + [s[0]] == s[..1] && s[..1] + [s[1]] == s[..2] && s[..2] + [s[2]] == s[..3] && s[..3] + [s[3]] == s[..4];
    assert s[..4] + [s[4]] == s[..5] && s[..5] + [s[5]] == s[..6] && s[..6] + [s[6]] == s[..7] && s[..7] + [s[7]] == s;
    WordSnoc([], s[0]);
    WordSnoc(s[..1], s[1]);
    WordSnoc(s[..2], s[2]);
    WordSnoc(s[..3], s[3]);
    WordSnoc(s[..4], s[4]);
    WordSnoc(s[..5], s[5]);
    WordSnoc(s[..6], s[6]);
    WordSnoc(s[..7], s[7]);
    XorZero(Bit(s[0], 0x8000));
  }

  lemma {:induction false} EmptyWord()
    ensures Word([]) == 0
  {
  }

  lemma {:induction false} ByteAsBits(crc: bv16, b: Bits8)
    ensures FeedByte(crc, b) == FeedBits(crc, BitsOf(b))
  {
    hide Shifts, Word, FeedBits, Xor;
    BitsAsWord(crc, BitsOf(b));
    ByteWord(b);
  }

  lemma {:induction false} FeedBitsConcat(crc: bv16, a: seq<bool>, b: seq<bool>)
    ensures FeedBits(crc, a + b) == FeedBits(FeedBits(crc, a), b)
    decreases |b|
  {
    hide FeedBit;
    if b == [] {
      assert a + b == a;
    } else {
      assert (a + b)[..|a + b| - 1] == a + b[..|b| - 1];
      FeedBitsConcat(crc, a, b[..|b| - 1]);
    }
  }

  /** The register sees nothing but the bit stream. */
  lemma {:induction false} UpdateAsBits(crc: bv16, data: seq<Bits8>)
    ensures Update(crc, data) == FeedBits(crc, Bits(data))
    decreases |data|
  {
    hide FeedByte, FeedBit, BitsOf;
    if data != [] {
      var n := |data| - 1;
      UpdateAsBits(crc, data[..n]);
      ByteAsBits(Update(crc, data[..n]), data[n]);
      FeedBitsConcat(crc, Bits(data[..n]), BitsOf(data[n]));
    }
  }

  // ---------------------------------------------------------------------------
  // Burst errors
  // ---------------------------------------------------------------------------

  /** Two different bit streams of one length that agree outside sixteen consecutive bits. */
  ghost predicate Burst(a: seq<bool>, b: seq<bool>, at: nat) {
    && |a| == |b| && a != b
    && forall i :: 0 <= i < |a| && !(at <= i < at + 16) ==> a[i] == b[i]
  }

  lemma {:induction false} XorKeepsApart(x: bv16, y: bv16, m: bv16)
    requires x != y
    ensures Xor(x, m) != Xor(y, m) && Xor(m, x) != Xor(m, y)
  {
  }

  lemma {:induction false} ShiftsKeepApart(x: bv16, y: bv16, n: nat)
    requires x != y
    ensures Shifts(x, n) != Shifts(y, n)
  {
    hide Shifts;
    if Shifts(x, n) == Shifts(y, n) {
      ShiftsInjective(x, y, n);
    }
  }

  /** Registers that differ still differ after the same bits. */
  lemma {:induction false} SameBitsKeepApart(x: bv16, y: bv16, bits: seq<bool>)
    requires x != y
    ensures FeedBits(x, bits) != FeedBits(y, bits)
    decreases |bits|
  {
    hide Xor, Shift, Mask;
    if bits != [] {
      var n := |bits| - 1;
      SameBitsKeepApart(x, y, bits[..n]);
      var x', y', m := FeedBits(x, bits[..n]), FeedBits(y, bits[..n]), Mask(bits[n]);
      XorKeepsApart(x', y', m);
      ShiftsKeepApart(Xor(x', m), Xor(y', m), 1);
      assert Shifts(Xor(x', m), 1) == Shift(Shifts(Xor(x', m), 0)) && Shifts(Xor(y', m), 1) == Shift(Shifts(Xor(y', m), 0));
    }
  }

  /** From one register, windows of up to sixteen bits that differ in their first bit lead apart. */
  lemma {:induction false} WindowsLeadApart(crc: bv16, w: seq<bool>, w': seq<bool>)
    requires 0 < |w| == |w'| <= 16 && w[0] != w'[0]
    ensures FeedBits(crc, w) != FeedBits(crc, w')
  {
    hide FeedBits, Shifts, Xor, Word, Top;
    BitsAsWord(crc, w);
    BitsAsWord(crc, w');
    WordTop(w);
    WordTop(w');
    assert Word(w) != Word(w');
    XorKeepsApart(Word(w), Word(w'), crc);
    ShiftsKeepApart(Xor(crc, Word(w)), Xor(crc, Word(w')), |w|);
  }

  lemma {:induction false} FirstDifference(a: seq<bool>, b: seq<bool>, at: nat) returns (f: nat)
    requires Burst(a, b, at)
    ensures at <= f < |a| && f < at + 16 && a[f] != b[f] && a[..f] == b[..f]
  {
    f := 0;
    while f < |a| && a[f] == b[f]
      invariant f <= |a| && a[..f] == b[..f]
    {
      f := f + 1;
    }
    assert a[..|a|] == a && b[..|b|] == b;
  }

  /** Every burst of at most sixteen bits, anywhere in a stream of any length, changes the register. */
  lemma {:induction false} BurstChangesCrc(crc: bv16, a: seq<bool>, b: seq<bool>, at: nat)
    requires Burst(a, b, at)
    ensures FeedBits(crc, a) != FeedBits(crc, b)
  {
    hide FeedBits;
    var f := FirstDifference(a, b, at);
    var e := if f + 16 <= |a| then f + 16 else |a|;
    var c := FeedBits(crc, a[..f]);
    assert a == a[..f] + (a[f..e] + a[e..]) && b == b[..f] + (b[f..e] + b[e..]);
    FeedBitsConcat(crc, a[..f], a[f..e] + a[e..]);
    FeedBitsConcat(crc, b[..f], b[f..e] + b[e..]);
    FeedBitsConcat(c, a[f..e], a[e..]);
    FeedBitsConcat(c, b[f..e], b[e..]);
    WindowsLeadApart(c, a[f..e], b[f..e]);
    assert a[e..] == b[e..];
    SameBitsKeepApart(FeedBits(c, a[f..e]), FeedBits(c, b[f..e]), a[e..]);
  }

  /** Burst detection for bytes: the form the frame check uses. */
  lemma {:induction false} BurstDetected(crc: bv16, data: seq<Bits8>, data': seq<Bits8>, at: nat)
    requires Burst(Bits(data), Bits(data'), at)
    ensures Update(crc, data) != Update(crc, data')
  {
    hide FeedBits, Update, Bits;
    UpdateAsBits(crc, data);
    UpdateAsBits(crc, data');
    BurstChangesCrc(crc, Bits(data), Bits(data'), at);
  }

  // ---------------------------------------------------------------------------
  // A known answer
  // ---------------------------------------------------------------------------

  lemma {:induction false} UpdateSnoc(crc: bv16, data: seq<Bits8>, b: Bits8)
    ensures Update(crc, data + [b]) == FeedByte(Update(crc, data), b)
  {
    hide FeedByte;
    assert (data + [b])[..|data|] == data;
  }

  /** Eight shifts, one at a time. */
  lemma {:induction false} EightShifts(c0: bv16)
    ensures Shifts(c0, 8) == Shift(Shift(Shift(Shift(Shift(Shift(Shift(Shift(c0))))))))
  {
    hide Shift;
    assert Shifts(c0, 4) == Shift(Shift(Shift(Shift(c0))));
    assert Shifts(c0, 8) == Shift(Shift(Shift(Shift(Shifts(c0, 4)))));
  }

  lemma {:induction false} Digit1() ensures FeedByte(0xFFFF, 0x31) == 0xC782 {
    EightShifts(0xCEFF);
  }

  lemma {:induction false} Digit2() ensures FeedByte(0xC782, 0x32) == 0x3DBA {
    EightShifts(0xF582);
  }

  lemma {:induction false} Digit3() ensures FeedByte(0x3DBA, 0x33) == 0x5BCE {
    EightShifts(0x0EBA);
  }

  lemma {:induction false} Digit4() ensures FeedByte(0x5BCE, 0x34) == 0x5349 {
    EightShifts(0x6FCE);
  }

  lemma {:induction false} Digit5() ensures FeedByte(0x5349, 0x35) == 0x4560 {
    EightShifts(0x6649);
  }

  lemma {:induction false} Digit6() ensures FeedByte(0x4560, 0x36) == 0x2EF4 {
    EightShifts(0x7360);
  }

  lemma {:induction false} Digit7() ensures FeedByte(0x2EF4, 0x37) == 0x7718 {
    EightShifts(0x19F4);
  }

  lemma {:induction false} Digit8() ensures FeedByte(0x7718, 0x38) == 0xA12B {
    EightShifts(0x4F18);
  }

  lemma {:induction false} Digit9() ensures FeedByte(0xA12B, 0x39) == 0x29B1 {
    EightShifts(0x982B);
  }

  /** The nine digits "123456789" give the published check value. */
  lemma {:induction false} KnownAnswer()
    ensures Update(SEED, [0x31, 0x32, 0x33, 0x34, 0x35, 0x36, 0x37, 0x38, 0x39]) == 0x29B1
  {
    hide FeedByte, Update;
    assert Update(SEED, []) == 0xFFFF by {
      NothingFed();
    }
    var d: seq<Bits8> := [];
    UpdateSnoc(SEED, d, 0x31);
    Digit1();
    d := d + [0x31];
    UpdateSnoc(SEED, d, 0x32);
    Digit2();
    d := d + [0x32];
    UpdateSnoc(SEED, d, 0x33);
    Digit3();
    d := d + [0x33];
    UpdateSnoc(SEED, d, 0x34);
    Digit4();
    d := d + [0x34];
    UpdateSnoc(SEED, d, 0x35);
    Digit5();
    d := d + [0x35];
    UpdateSnoc(SEED, d, 0x36);
    Digit6();
    d := d + [0x36];
    UpdateSnoc(SEED, d, 0x37);
    Digit7();
    d := d + [0x37];
    UpdateSnoc(SEED, d, 0x38);
    Digit8();
    d := d + [0x38];
    UpdateSnoc(SEED, d, 0x39);
    Digit9();
    d := d + [0x39];
    assert d == [0x31, 0x32, 0x33, 0x34, 0x35, 0x36, 0x37, 0x38, 0x39];
  }

  lemma {:induction false} NothingFed()
    ensures Update(SEED, []) == 0xFFFF
  {
  }
}
