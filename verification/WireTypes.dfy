/**
 Fixed-width integers as they appear in fields and on the wire, magnitudes and optional
 values. A byte is an integer where the code counts with it and a bit vector, `Bits8`,
 where it masks, shifts or combines bits.
 */
module WireTypes {
  function Abs(x: int): nat {
    if x < 0 then -x else x
  }

  datatype Option<+T> = None | Some(value: T)

  type Byte = b: int | 0 <= b < 0x100
  type Bits8 = bv8
  type U16 = u: int | 0 <= u < 0x1_0000
}
