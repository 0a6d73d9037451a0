/** Machine types and small helpers shared by every module. */
module Base {

  newtype byte = x: int | 0 <= x < 0x100
  newtype u16 = x: int | 0 <= x < 0x1_0000
  newtype size_t = x: int | 0 <= x < 0x1_0000_0000_0000_0000

  const SIZE_MAX: int := 0xFFFF_FFFF_FFFF_FFFF
  const UINT16_MAX: nat := 65535

  datatype Option<+T> = None | Some(value: T)

  function Min(a: nat, b: nat): nat {
    if a < b then a else b
  }

  /** All pieces of a stream, in order. */
  function Flatten(chunks: seq<seq<byte>>): seq<byte> {
    if chunks == [] then [] else chunks[0] + Flatten(chunks[1..])
  }

  lemma Regroup(a: seq<byte>, b: seq<byte>, c: seq<byte>, d: seq<byte>)
    ensures a + (b + c) + d == a + b + (c + d)
    ensures a + b + c + d == a + (b + c) + d
  {
  }
}
