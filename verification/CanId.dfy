/**
 The 29-bit CAN identifier: class(3) | source(5) | destination(5) | type(8) | low(8).
 */
module CanId {
  import opened WireTypes

  const CLS_AUDIO := 4

  const T_AUDIO_DOWN := 0x40
  const T_AUDIO_UP := 0x41
  const T_AUDIO_SYNC := 0x42

  function Pack(cls: Byte, src: Byte, dst: Byte, typ: Byte, low: Byte): int {
    (cls % 8) * 0x400_0000 + (src % 32) * 0x20_0000 + (dst % 32) * 0x1_0000 + typ * 0x100 + low
  }

  function Cls(id: int): Byte {
    id / 0x400_0000 % 8
  }

  function Src(id: int): Byte {
    id / 0x20_0000 % 32
  }

  function Dst(id: int): Byte {
    id / 0x1_0000 % 32
  }

  function Type(id: int): Byte {
    id / 0x100 % 0x100
  }

  function Low(id: int): Byte {
    id % 0x100
  }

  /** Every field survives packing, the two addresses cut to five bits. */
  lemma {:induction false} FieldsSurvive(cls: Byte, src: Byte, dst: Byte, typ: Byte, low: Byte)
    requires cls < 8
    ensures var id := Pack(cls, src, dst, typ, low);
            && 0 <= id < 0x2000_0000 && Cls(id) == cls && Type(id) == typ && Low(id) == low
            && Src(id) == src % 32 && Dst(id) == dst % 32
  {
    Fields(cls, (src % 32) * 32 + dst % 32, typ, low);
    Addresses(cls, src % 32, dst % 32, typ * 0x100 + low);
  }

  lemma {:induction false} Addresses(cls: int, src: int, dst: int, rest: int)
    requires 0 <= cls < 8 && 0 <= src < 32 && 0 <= dst < 32 && 0 <= rest < 0x1_0000
    ensures var id := cls * 0x400_0000 + src * 0x20_0000 + dst * 0x1_0000 + rest;
            id / 0x20_0000 % 32 == src && id / 0x1_0000 % 32 == dst
  {
    var id := cls * 0x400_0000 + src * 0x20_0000 + dst * 0x1_0000 + rest;
    assert id / 0x1_0000 == (cls * 32 + src) * 32 + dst;
    assert id / 0x20_0000 == cls * 32 + src;
  }

  /** Identifiers arbitrate by class first: the lower class has the smaller identifier, whatever follows. */
  lemma {:induction false} LowerClassWins(a: int, b: int)
    requires 0 <= a < 0x2000_0000 && 0 <= b < 0x2000_0000
    ensures Cls(a) < Cls(b) ==> a < b
    ensures a <= b ==> Cls(a) <= Cls(b)
  {
  }

  /** A telemetry fragment from the right arm to the orchestrator: class 2, nodes 1 and 8, type 0x20. */
  lemma {:induction false} KnownIdentifier()
    ensures Pack(2, 1, 8, 0x20, 5) == 0x0828_2005
  {
  }

  /** The same with the two addresses as one number. */
  lemma {:induction false} Fields(cls: int, addresses: int, typ: int, low: int)
    requires 0 <= cls < 8 && 0 <= addresses < 1024 && 0 <= typ < 256 && 0 <= low < 256
    ensures var id := cls * 0x400_0000 + addresses * 0x1_0000 + typ * 0x100 + low;
            0 <= id < 0x2000_0000 && id / 0x400_0000 % 8 == cls && id / 0x100 % 0x100 == typ && id % 0x100 == low
  {
    var id := cls * 0x400_0000 + addresses * 0x1_0000 + typ * 0x100 + low;
    assert id == cls * 0x400_0000 + (addresses * 0x1_0000 + typ * 0x100 + low);
    assert id / 0x100 == (cls * 1024 + addresses) * 256 + typ;
  }
}
