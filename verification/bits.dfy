/** Bytes, big-endian bit strings and unsigned field values, as the
    `bitstring.BitArray` class provides them to the decoder: a byte string
    becomes a bit string whose bit 0 is the most significant bit of byte 0,
    and a slice `bits[a:b]` read with `.uint` is a big-endian unsigned value. */
module Bits {

  type byte = x: int | 0 <= x < 256

  /** 2 to the power n */
  function Pow2(n: nat): (r: nat)
    ensures r >= 1
  {
    if n == 0 then 1 else 2 * Pow2(n - 1)
  }

  lemma Pow2Values()
    ensures Pow2(7) == 128 && Pow2(8) == 256 && Pow2(14) == 16384
  {
  }

  /** The unsigned value of a big-endian bit string (`BitArray.uint`). */
  function Uint(s: seq<bool>): (r: nat)
    ensures r < Pow2(|s|)
    ensures |s| > 0 ==> (s[0] <==> r >= Pow2(|s| - 1))
    decreases |s|
  {
    if |s| == 0 then 0
    else (if s[0] then Pow2(|s| - 1) else 0) + Uint(s[1..])
  }

  /** Bit j, counted from the most significant end, of the w-bit
      representation of v: peel off the top bits one at a time. */
  function Bit(v: nat, w: nat, j: nat): bool
    requires j < w
    decreases j
  {
    var top := v >= Pow2(w - 1);
    if j == 0 then top else Bit(if top then v - Pow2(w - 1) else v, w - 1, j - 1)
  }

  /** The w-bit big-endian representation of v. */
  function ToBits(v: nat, w: nat): (r: seq<bool>)
    requires v < Pow2(w)
    ensures |r| == w
  {
    seq(w, j requires 0 <= j < w => Bit(v, w, j))
  }

  /** Dropping the top bit of a representation leaves the representation of
      the remainder one bit narrower. */
  lemma ToBitsTail(v: nat, w: nat)
    requires 0 < w && v < Pow2(w)
    ensures v >= Pow2(w - 1) ==> v - Pow2(w - 1) < Pow2(w - 1)
    ensures ToBits(v, w)[0] == (v >= Pow2(w - 1))
    ensures ToBits(v, w)[1..] == ToBits(if v >= Pow2(w - 1) then v - Pow2(w - 1) else v, w - 1)
  {
    var low := if v >= Pow2(w - 1) then v - Pow2(w - 1) else v;
    var s := ToBits(v, w);
    var t := ToBits(low, w - 1);
    forall j | 0 <= j < w - 1
      ensures s[1..][j] == t[j]
    {
      assert s[1 + j] == Bit(v, w, 1 + j);
    }
  }

  /** Writing a value at a width it fits and reading it back gives the value. */
  lemma {:induction false} UintOfToBits(v: nat, w: nat)
    requires v < Pow2(w)
    ensures Uint(ToBits(v, w)) == v
    decreases w
  {
    if w > 0 {
      ToBitsTail(v, w);
      var low := if v >= Pow2(w - 1) then v - Pow2(w - 1) else v;
      UintOfToBits(low, w - 1);
    }
  }

  /** Reading a bit string and writing it back at the same width gives it back. */
  lemma {:induction false} ToBitsOfUint(s: seq<bool>)
    ensures ToBits(Uint(s), |s|) == s
    decreases |s|
  {
    if |s| > 0 {
      var v := Uint(s);
      ToBitsTail(v, |s|);
      ToBitsOfUint(s[1..]);
      assert v == (if s[0] then Pow2(|s| - 1) else 0) + Uint(s[1..]);
      var t := ToBits(v, |s|);
      assert t == [t[0]] + t[1..];
      assert s == [s[0]] + s[1..];
    }
  }

  /** Two bit strings of one width with the same unsigned value are equal. */
  lemma UintInjective(s: seq<bool>, t: seq<bool>)
    requires |s| == |t| && Uint(s) == Uint(t)
    ensures s == t
  {
    ToBitsOfUint(s);
    ToBitsOfUint(t);
  }

  /** The eight bits of one byte, most significant first. */
  function ByteBits(b: byte): (r: seq<bool>)
    ensures |r| == 8
  {
    Pow2Values();
    ToBits(b, 8)
  }

  /** Bit k of a byte string, or false past its end. */
  function BitAt(bytes: seq<byte>, k: int): bool
  {
    if 0 <= k && k / 8 < |bytes| then ByteBits(bytes[k / 8])[k % 8] else false
  }

  /** `BitArray(bytes=...)`: the bytes' bits, most significant bit first. */
  function BitsOf(bytes: seq<byte>): (r: seq<bool>)
    ensures |r| == 8 * |bytes|
  {
    seq(8 * |bytes|, k => BitAt(bytes, k))
  }

  lemma DivMod8(i: nat, j: nat)
    requires j < 8
    ensures (8 * i + j) / 8 == i && (8 * i + j) % 8 == j
  {
  }

  /** Bit j of byte i of a byte string is bit 8i+j of its bit string. */
  lemma BitsOfBit(bytes: seq<byte>, i: nat, j: nat)
    requires i < |bytes| && j < 8
    ensures BitsOf(bytes)[8 * i + j] == ByteBits(bytes[i])[j]
  {
    DivMod8(i, j);
    assert BitsOf(bytes)[8 * i + j] == BitAt(bytes, 8 * i + j);
  }

  /** Byte i of a byte string is read back from bits 8i..8i+7. */
  lemma BitsOfByte(bytes: seq<byte>, i: nat)
    requires i < |bytes|
    ensures Uint(BitsOf(bytes)[8 * i..8 * i + 8]) == bytes[i]
  {
    var all := BitsOf(bytes);
    var lo := 8 * i;
    var slice := all[lo..lo + 8];
    var want := ByteBits(bytes[i]);
    forall j | 0 <= j < 8
      ensures slice[j] == want[j]
    {
      BitsOfBit(bytes, i, j);
      assert slice[j] == all[lo + j];
    }
    assert slice == want;
    Pow2Values();
    UintOfToBits(bytes[i], 8);
  }
}
