/** Bytes, byte order and the fixed-width integers of the wire format. */
module Bytes {

  type byte = b: int | 0 <= b < 256

  const TWO31: int := 0x8000_0000
  const TWO32: int := 0x1_0000_0000
  const TWO64: int := 0x1_0000_0000_0000_0000

  type uint32 = v: int | 0 <= v < TWO32
  type int32 = v: int | -TWO31 <= v < TWO31
  type uint64 = v: int | 0 <= v < TWO64

  datatype Option<+T> = None | Some(value: T)

  /** The byte order of the machine the program runs on. */
  datatype Endian = Little | Big

  /** `static_cast<int32_t>` of a size: reduction modulo 2^32 into the signed range. */
  function WrapInt32(v: int): (r: int32)
    ensures (r - v) % TWO32 == 0
    ensures -TWO31 <= v < TWO31 ==> r == v
  {
    var u := v % TWO32;
    if u < TWO31 then u else u - TWO32
  }

  function Pow256(n: nat): (p: nat)
    ensures p > 0
  {
    if n == 0 then 1 else 256 * Pow256(n - 1)
  }

  /** The base-256 digit of weight 256^k. */
  function Digit(v: nat, k: nat): byte {
    if k == 0 then v % 256 else Digit(v / 256, k - 1)
  }

  /** Least significant byte first. */
  function LittleEndian(v: nat, width: nat): (s: seq<byte>)
    ensures |s| == width
  {
    seq(width, i requires 0 <= i < width => Digit(v, i))
  }

  /** Most significant byte first: network order (Appendix B of RFC 791). */
  function BigEndian(v: nat, width: nat): (s: seq<byte>)
    ensures |s| == width
  {
    seq(width, i requires 0 <= i < width => Digit(v, width - 1 - i))
  }

  lemma LittleCons(v: nat, width: nat)
    requires width > 0
    ensures LittleEndian(v, width) == [v % 256] + LittleEndian(v / 256, width - 1)
    ensures LittleEndian(v, width)[1..] == LittleEndian(v / 256, width - 1)
  {
  }

  lemma BigSnoc(v: nat, width: nat)
    requires width > 0
    ensures BigEndian(v, width) == BigEndian(v / 256, width - 1) + [v % 256]
    ensures BigEndian(v, width)[..width - 1] == BigEndian(v / 256, width - 1)
  {
    forall i | 0 <= i < width - 1
      ensures BigEndian(v, width)[i] == BigEndian(v / 256, width - 1)[i]
    {
      assert Digit(v, width - 1 - i) == Digit(v / 256, width - 1 - 1 - i);
    }
    assert BigEndian(v, width)[width - 1] == Digit(v, 0);
  }

  function FromLittle(s: seq<byte>): nat {
    if s == [] then 0 else s[0] + 256 * FromLittle(s[1..])
  }

  function FromBig(s: seq<byte>): nat {
    if s == [] then 0 else 256 * FromBig(s[..|s| - 1]) + s[|s| - 1]
  }

  lemma PowerValues()
    ensures Pow256(4) == TWO32 && Pow256(8) == TWO64
  {
  }

  lemma {:induction false} FromBigBound(s: seq<byte>)
    ensures FromBig(s) < Pow256(|s|)
  {
    if s != [] {
      FromBigBound(s[..|s| - 1]);
    }
  }

  lemma {:induction false} FromLittleBound(s: seq<byte>)
    ensures FromLittle(s) < Pow256(|s|)
  {
    if s != [] {
      FromLittleBound(s[1..]);
    }
  }

  /** Reading back what was written, in either order. */
  lemma {:induction false} BigEndianRoundTrip(v: nat, width: nat)
    requires v < Pow256(width)
    ensures FromBig(BigEndian(v, width)) == v
  {
    if width > 0 {
      BigEndianRoundTrip(v / 256, width - 1);
      BigSnoc(v, width);
    }
  }

  lemma {:induction false} LittleEndianRoundTrip(v: nat, width: nat)
    requires v < Pow256(width)
    ensures FromLittle(LittleEndian(v, width)) == v
  {
    if width > 0 {
      LittleEndianRoundTrip(v / 256, width - 1);
      LittleCons(v, width);
    }
  }

  lemma {:induction false} FromLittleRoundTrip(s: seq<byte>)
    ensures LittleEndian(FromLittle(s), |s|) == s
  {
    if s != [] {
      FromLittleRoundTrip(s[1..]);
      LittleCons(FromLittle(s), |s|);
      assert FromLittle(s) % 256 == s[0] && FromLittle(s) / 256 == FromLittle(s[1..]);
    }
  }

  /** The memory image of a host integer. */
  function HostImage(order: Endian, v: nat, width: nat): (s: seq<byte>)
    ensures |s| == width
  {
    if order.Little? then LittleEndian(v, width) else BigEndian(v, width)
  }

  /** The host integer a memory image holds, as `memcpy` into an integer reads it. */
  function HostValue(order: Endian, s: seq<byte>): nat {
    if order.Little? then FromLittle(s) else FromBig(s)
  }

  /** `htonl`, which is its own inverse `ntohl`. */
  function Htonl(order: Endian, v: uint32): (r: uint32) {
    PowerValues();
    FromLittleBound(BigEndian(v, 4));
    if order.Little? then FromLittle(BigEndian(v, 4)) else v
  }

  /** `htonll`: swap each half and exchange the halves; `ntohll` is the same function. */
  function Htonll(order: Endian, v: uint64): (r: uint64) {
    if order.Little? then Htonl(order, v % TWO32) * TWO32 + Htonl(order, v / TWO32) else v
  }

  /** Cutting the lowest byte off a number given by its high and low parts. */
  lemma LowByte(hi: nat, lo: nat, p: nat)
    ensures (hi * (256 * p) + lo) / 256 == hi * p + lo / 256 && (hi * (256 * p) + lo) % 256 == lo % 256
  {
    assert hi * (256 * p) == 256 * (hi * p);
  }

  lemma {:induction false} LittleEndianSplit(hi: nat, lo: nat, k: nat, m: nat)
    requires lo < Pow256(k)
    ensures LittleEndian(hi * Pow256(k) + lo, k + m) == LittleEndian(lo, k) + LittleEndian(hi, m)
  {
    if k == 0 {
      assert hi * Pow256(0) + lo == hi && LittleEndian(lo, k) == [];
    } else {
      LowByte(hi, lo, Pow256(k - 1));
      LittleEndianSplit(hi, lo / 256, k - 1, m);
      LittleCons(hi * Pow256(k) + lo, k + m);
      LittleCons(lo, k);
    }
  }

  lemma {:induction false} BigEndianSplit(hi: nat, lo: nat, k: nat, m: nat)
    requires lo < Pow256(m)
    ensures BigEndian(hi * Pow256(m) + lo, k + m) == BigEndian(hi, k) + BigEndian(lo, m)
  {
    if m == 0 {
      assert hi * Pow256(0) + lo == hi && BigEndian(lo, m) == [];
    } else {
      LowByte(hi, lo, Pow256(m - 1));
      BigEndianSplit(hi, lo / 256, k, m - 1);
      BigSnoc(hi * Pow256(m) + lo, k + m);
      BigSnoc(lo, m);
    }
  }

  /** `htonll` puts big-endian bytes in memory, on a machine of either order. */
  lemma HtonllIsNetworkOrder(order: Endian, v: uint64)
    ensures HostImage(order, Htonll(order, v), 8) == BigEndian(v, 8)
  {
    if order.Little? {
      PowerValues();
      var lo, hi := v % TWO32, v / TWO32;
      LittleEndianSplit(Htonl(order, lo), Htonl(order, hi), 4, 4);
      FromLittleRoundTrip(BigEndian(lo, 4));
      FromLittleRoundTrip(BigEndian(hi, 4));
      BigEndianSplit(hi, lo, 4, 4);
    }
  }

  lemma HtonlIsNetworkOrder(order: Endian, v: uint32)
    ensures HostImage(order, Htonl(order, v), 4) == BigEndian(v, 4)
  {
    if order.Little? {
      FromLittleRoundTrip(BigEndian(v, 4));
    }
  }

  /** `ntohll` of the integer read from memory is the big-endian value of the bytes. */
  lemma NtohllReadsNetworkOrder(order: Endian, s: seq<byte>)
    requires |s| == 8
    ensures 0 <= HostValue(order, s) < TWO64
    ensures Htonll(order, HostValue(order, s)) == FromBig(s)
  {
    PowerValues();
    FromBigBound(s);
    FromLittleBound(s);
    if order.Little? {
      var v := FromBig(s);
      HtonllIsNetworkOrder(order, v);
      BigOfFromBig(s);
      LittleEndianRoundTrip(Htonll(order, v), 8);
      assert FromLittle(s) == Htonll(order, v);
      HtonllInvolution(order, v);
    }
  }

  lemma NtohlReadsNetworkOrder(order: Endian, s: seq<byte>)
    requires |s| == 4
    ensures 0 <= HostValue(order, s) < TWO32
    ensures Htonl(order, HostValue(order, s)) == FromBig(s)
  {
    PowerValues();
    FromBigBound(s);
    FromLittleBound(s);
    if order.Little? {
      ReverseValue(s);
    }
  }

  function Reverse(s: seq<byte>): (r: seq<byte>)
    ensures |r| == |s|
  {
    seq(|s|, i requires 0 <= i < |s| => s[|s| - 1 - i])
  }

  lemma BigIsReversedLittle(v: nat, width: nat)
    ensures BigEndian(v, width) == Reverse(LittleEndian(v, width))
  {
  }

  lemma {:induction false} FromLittleOfReverse(s: seq<byte>)
    ensures FromLittle(Reverse(s)) == FromBig(s)
  {
    if s != [] {
      FromLittleOfReverse(s[..|s| - 1]);
      assert Reverse(s)[1..] == Reverse(s[..|s| - 1]);
    }
  }

  lemma ReverseValue(s: seq<byte>)
    ensures FromLittle(BigEndian(FromLittle(s), |s|)) == FromBig(s)
  {
    BigIsReversedLittle(FromLittle(s), |s|);
    FromLittleRoundTrip(s);
    FromLittleOfReverse(s);
  }

  lemma {:induction false} BigOfFromBig(s: seq<byte>)
    ensures BigEndian(FromBig(s), |s|) == s
  {
    if s != [] {
      BigOfFromBig(s[..|s| - 1]);
      BigSnoc(FromBig(s), |s|);
      assert FromBig(s) / 256 == FromBig(s[..|s| - 1]) && FromBig(s) % 256 == s[|s| - 1];
    }
  }

  /** `htonll` and `ntohll` undo each other on all 64-bit values. */
  lemma HtonllInvolution(order: Endian, v: uint64)
    ensures Htonll(order, Htonll(order, v)) == v
  {
    if order.Little? {
      var lo, hi := v % TWO32, v / TWO32;
      var w := Htonll(order, v);
      assert w / TWO32 == Htonl(order, lo) && w % TWO32 == Htonl(order, hi);
      HtonlInvolution(order, lo);
      HtonlInvolution(order, hi);
    }
  }

  lemma HtonlInvolution(order: Endian, v: uint32)
    ensures Htonl(order, Htonl(order, v)) == v
  {
    if order.Little? {
      PowerValues();
      var s := BigEndian(v, 4);
      ReverseValue(s);
      BigEndianRoundTrip(v, 4);
    }
  }
}
