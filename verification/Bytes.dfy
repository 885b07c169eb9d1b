/** Byte-level vocabulary shared by the wire-format modules. */
module Bytes {
  type byte = x: int | 0 <= x < 256

  datatype Option<+T> = None | Some(value: T)

  /** `u16::from_be_bytes([hi, lo])`. */
  function U16(hi: byte, lo: byte): nat {
    256 * hi + lo
  }

  /** The most significant byte comes first. */
  lemma U16Digits(hi: byte, lo: byte)
    ensures U16(hi, lo) / 256 == hi && U16(hi, lo) % 256 == lo
  {
  }

  /** `u16::to_be_bytes`. */
  function Be16(v: nat): (r: seq<byte>)
    requires v < 0x1_0000
    ensures |r| == 2 && U16(r[0], r[1]) == v
  {
    [v / 256, v % 256]
  }

  /** `u32::to_be_bytes`. */
  function Be32(v: nat): (r: seq<byte>)
    requires v < 0x1_0000_0000
    ensures |r| == 4 && U16(r[0], r[1]) * 0x1_0000 + U16(r[2], r[3]) == v
  {
    Be16(v / 0x1_0000) + Be16(v % 0x1_0000)
  }

  /** What `dst[at..at + src.len()].copy_from_slice(src)` leaves in `dst`. */
  function Splice(dst: seq<byte>, at: nat, src: seq<byte>): (r: seq<byte>)
    requires at + |src| <= |dst|
    ensures |r| == |dst|
    ensures r[at..at + |src|] == src
    ensures forall i :: 0 <= i < |dst| && !(at <= i < at + |src|) ==> r[i] == dst[i]
  {
    dst[..at] + src + dst[at + |src|..]
  }

  function Zeros(n: nat): (r: seq<byte>)
    ensures |r| == n && forall i :: 0 <= i < n ==> r[i] == 0
  {
    seq(n, _ => 0)
  }

  /** `copy_from_slice` on a mutable buffer. */
  method CopyFromSlice(dst: array<byte>, at: nat, src: seq<byte>)
    requires at + |src| <= dst.Length
    modifies dst
    ensures forall i :: 0 <= i < dst.Length ==>
              dst[i] == if at <= i < at + |src| then src[i - at] else old(dst[i])
  {
    for n := 0 to |src|
      invariant forall i :: 0 <= i < dst.Length ==>
                  dst[i] == if at <= i < at + n then src[i - at] else old(dst[i])
    {
      dst[at + n] := src[n];
    }
  }
}
