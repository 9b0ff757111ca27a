/** Types shared by every part of the model. */
module Prelude {
  datatype Option<+T> = None | Some(value: T)

  newtype byte = x: int | 0 <= x < 256

  function Padding(b: byte, n: nat): (s: seq<byte>)
    ensures |s| == n
    ensures forall i :: 0 <= i < n ==> s[i] == b
  {
    if n == 0 then [] else [b] + Padding(b, n - 1)
  }

  type ParaId = n: nat | n < 0x1_0000_0000

  const U64_MAX: nat := 0xFFFF_FFFF_FFFF_FFFF
  const U128_MAX: nat := 0xFFFF_FFFF_FFFF_FFFF_FFFF_FFFF_FFFF_FFFF

  function Min(a: nat, b: nat): nat {
    if a <= b then a else b
  }

  function TotalOf(items: seq<nat>): nat {
    if items == [] then 0 else items[0] + TotalOf(items[1..])
  }

  datatype Weight = Weight(refTime: nat, proofSize: nat)
}
