/** The frame format: a 4-byte length, an 8-byte id and the payload, all in network order. */
module Codec {
  import opened Sequences
  import opened Bytes

  const MAX_LENGTH: int := 64 * 1024 * 1024
  const ID_SIZE: int := 8
  const HEADER_SIZE: int := 12

  datatype Frame = Frame(id: uint64, payload: seq<byte>)

  /** What one call of the decoder leaves: the payload it returns, the id out-parameter and the unread bytes. */
  datatype Unpacked = Unpacked(data: seq<byte>, id: nat, rest: seq<byte>)

  /** The frame fits under the decoder's length cap. */
  predicate Fits(f: Frame) { ID_SIZE + |f.payload| <= MAX_LENGTH }

  /** The frames a stream can carry: within the cap, and not mistaken for "incomplete". */
  predicate Good(f: Frame) { Fits(f) && f.payload != [] }

  predicate AllGood(fs: seq<Frame>) { forall i :: 0 <= i < |fs| ==> Good(fs[i]) }

  predicate AllFit(fs: seq<Frame>) { forall i :: 0 <= i < |fs| ==> Fits(fs[i]) }

  /** The bytes of a frame; the length field is what `static_cast<int32_t>` leaves of the size. */
  function Encode(f: Frame): (s: seq<byte>)
    ensures |s| == HEADER_SIZE + |f.payload|
  {
    BigEndian((ID_SIZE + |f.payload|) % TWO32, 4) + BigEndian(f.id, 8) + f.payload
  }

  function EncodeAll(fs: seq<Frame>): seq<byte> {
    if fs == [] then [] else Encode(fs[0]) + EncodeAll(fs[1..])
  }

  /** `tryUnpackWithId` on the readable bytes `q`; `id` is the out-parameter's value before the call. */
  function UnpackWithId(q: seq<byte>, id: nat): (u: Unpacked)
    ensures |u.rest| <= |q|
    ensures u.data != [] ==> |u.rest| + HEADER_SIZE + 1 <= |q|
  {
    if |q| < 4 then Unpacked([], id, q) else
    var len := WrapInt32(FromBig(q[..4]));
    if len < 0 || len > MAX_LENGTH then Unpacked([], 0, [])
    else if |q| < 4 + len then Unpacked([], id, q)
    else if len < ID_SIZE then Unpacked([], 0, [])
    else Unpacked(q[HEADER_SIZE..4 + len], FromBig(q[4..HEADER_SIZE]), q[4 + len..])
  }

  /** Each of the header's fields, read from any buffer that begins with the frame. */
  lemma HeaderFields(f: Frame, q: seq<byte>)
    requires |q| >= 4 && q[..4] == Encode(f)[..4]
    ensures WrapInt32(FromBig(q[..4])) == WrapInt32(ID_SIZE + |f.payload|)
    ensures |q| >= HEADER_SIZE && q[..HEADER_SIZE] == Encode(f)[..HEADER_SIZE] ==> FromBig(q[4..HEADER_SIZE]) == f.id
  {
    PowerValues();
    var n := (ID_SIZE + |f.payload|) % TWO32;
    assert Encode(f)[..4] == BigEndian(n, 4);
    BigEndianRoundTrip(n, 4);
    if |q| >= HEADER_SIZE && q[..HEADER_SIZE] == Encode(f)[..HEADER_SIZE] {
      assert q[4..HEADER_SIZE] == q[..HEADER_SIZE][4..] == Encode(f)[..HEADER_SIZE][4..] == BigEndian(f.id, 8);
      BigEndianRoundTrip(f.id, 8);
    }
  }

  /** A buffer that starts with a whole frame yields exactly that frame and keeps what follows it. */
  lemma UnpackWhole(f: Frame, rest: seq<byte>, id: nat)
    requires Fits(f)
    ensures UnpackWithId(Encode(f) + rest, id) == Unpacked(f.payload, f.id, rest)
  {
    var q := Encode(f) + rest;
    assert q[..4] == Encode(f)[..4] && q[..HEADER_SIZE] == Encode(f)[..HEADER_SIZE];
    HeaderFields(f, q);
  }

  /** A strict prefix of a frame is left alone. */
  lemma UnpackPartial(f: Frame, q: seq<byte>, id: nat)
    requires Fits(f)
    requires |q| < |Encode(f)| && q == Encode(f)[..|q|]
    ensures UnpackWithId(q, id) == Unpacked([], id, q)
  {
    if |q| >= 4 {
      assert q[..4] == Encode(f)[..4];
      HeaderFields(f, q);
    }
  }

  /** An oversized payload is never returned: its length field is rejected or names fewer bytes. */
  lemma UnpackOversized(f: Frame, rest: seq<byte>, id: nat)
    requires !Fits(f)
    ensures UnpackWithId(Encode(f) + rest, id).data != f.payload
  {
  }

  /** Decoding undoes encoding exactly for the frames under the cap, whatever bytes follow. */
  lemma CodecRoundTrip(f: Frame, rest: seq<byte>, id: nat)
    ensures UnpackWithId(Encode(f) + rest, id) == Unpacked(f.payload, f.id, rest) <==> Fits(f)
  {
    if Fits(f) {
      UnpackWhole(f, rest, id);
    } else {
      UnpackOversized(f, rest, id);
    }
  }

  /** The length that a buffer announces, as a signed 32-bit number in network order. */
  function Announced(q: seq<byte>): int32
    requires |q| >= 4
  {
    WrapInt32(FromBig(q[..4]))
  }

  /** A buffer that announces a length within bounds, and holds that much, begins with the frame it spells. */
  lemma FrameInFront(q: seq<byte>) returns (f: Frame, rest: seq<byte>)
    requires |q| >= 4 && ID_SIZE <= Announced(q) <= MAX_LENGTH && |q| >= 4 + Announced(q)
    ensures Fits(f) && q == Encode(f) + rest && ID_SIZE + |f.payload| == Announced(q)
  {
    var len := Announced(q);
    PowerValues();
    FromBigBound(q[4..HEADER_SIZE]);
    FromBigBound(q[..4]);
    f, rest := Frame(FromBig(q[4..HEADER_SIZE]), q[HEADER_SIZE..4 + len]), q[4 + len..];
    assert FromBig(q[..4]) == len;
    BigOfFromBig(q[..4]);
    BigOfFromBig(q[4..HEADER_SIZE]);
    FourParts(q, 4 + len);
  }

  lemma FourParts(q: seq<byte>, n: nat)
    requires HEADER_SIZE <= n <= |q|
    ensures q == q[..4] + q[4..HEADER_SIZE] + q[HEADER_SIZE..n] + q[n..]
  {
  }

  /**
   * The decoder on any buffer whatever: with a length within bounds it takes the frame in front, if that
   * is whole, and otherwise waits; a negative or excessive length makes it throw everything away; and so
   * does a length too short for an id, once that many bytes are there.
   */
  lemma UnpackExactly(q: seq<byte>, id: nat)
    ensures var u := UnpackWithId(q, id);
            if |q| < 4 || (0 <= Announced(q) <= MAX_LENGTH && |q| < 4 + Announced(q)) then u == Unpacked([], id, q)
            else if ID_SIZE <= Announced(q) <= MAX_LENGTH then
              exists f, rest :: q == Encode(f) + rest && ID_SIZE + |f.payload| == Announced(q) && u == Unpacked(f.payload, f.id, rest)
            else u == Unpacked([], 0, [])
  {
    if |q| >= 4 && ID_SIZE <= Announced(q) <= MAX_LENGTH && |q| >= 4 + Announced(q) {
      var f, rest := FrameInFront(q);
      UnpackWhole(f, rest, id);
    }
  }

  /** One decode of the received part `q` of a stream of frames, `tail` being still in flight. */
  lemma UnpackFront(q: seq<byte>, tail: seq<byte>, fs: seq<Frame>, id: nat)
    requires q + tail == EncodeAll(fs) && AllFit(fs)
    ensures fs == [] ==> q == [] && UnpackWithId(q, id) == Unpacked([], id, q)
    ensures fs != [] && |q| < |Encode(fs[0])| ==> UnpackWithId(q, id) == Unpacked([], id, q)
    ensures fs != [] && |q| >= |Encode(fs[0])| ==>
              var u := UnpackWithId(q, id);
              u.data == fs[0].payload && u.id == fs[0].id && u.rest + tail == EncodeAll(fs[1..])
              && |q| == |Encode(fs[0])| + |u.rest|
  {
    if fs != [] {
      var e := Encode(fs[0]);
      assert q + tail == e + EncodeAll(fs[1..]);
      if |q| < |e| {
        assert q == (q + tail)[..|q|] == e[..|q|];
        UnpackPartial(fs[0], q, id);
      } else {
        assert e == (q + tail)[..|e|] == q[..|e|];
        var rest := q[|e|..];
        assert q == e + rest;
        assert rest + tail == (q + tail)[|e|..] == EncodeAll(fs[1..]);
        UnpackWhole(fs[0], rest, id);
      }
    }
  }

  lemma {:induction false} EncodeAllAppend(a: seq<Frame>, b: seq<Frame>)
    ensures EncodeAll(a + b) == EncodeAll(a) + EncodeAll(b)
  {
    if a == [] {
      assert a + b == b;
    } else {
      EncodeAllAppend(a[1..], b);
      FrontOfAppend(a, b);
    }
  }

  lemma EncodeAllOne(f: Frame)
    ensures EncodeAll([f]) == Encode(f)
  {
  }

  /** `packWithId`: the result string is built by appending the memory images of host integers. */
  method PackWithId(order: Endian, id: uint64, data: seq<byte>) returns (result: seq<byte>)
    ensures result == Encode(Frame(id, data))
  {
    result := [];
    var len: int32 := WrapInt32(ID_SIZE + |data|);
    var netLen := Htonl(order, len % TWO32);
    HtonlIsNetworkOrder(order, len % TWO32);
    result := result + HostImage(order, netLen, 4);
    var netId := Htonll(order, id);
    HtonllIsNetworkOrder(order, id);
    result := result + HostImage(order, netId, 8);
    result := result + data;
  }

  // The id-less pair `pack` and `tryUnpack`.

  function EncodePlain(data: seq<byte>): (s: seq<byte>)
    ensures |s| == 4 + |data|
  {
    BigEndian(|data| % TWO32, 4) + data
  }

  datatype Plain = Plain(data: seq<byte>, rest: seq<byte>)

  function Unpack(q: seq<byte>): Plain {
    if |q| < 4 then Plain([], q) else
    var len := WrapInt32(FromBig(q[..4]));
    if len < 0 || len > MAX_LENGTH then Plain([], [])
    else if |q| < 4 + len then Plain([], q)
    else Plain(q[4..4 + len], q[4 + len..])
  }

  lemma PlainRoundTrip(data: seq<byte>, rest: seq<byte>)
    ensures Unpack(EncodePlain(data) + rest) == Plain(data, rest) <==> |data| <= MAX_LENGTH
  {
    PowerValues();
    var q := EncodePlain(data) + rest;
    assert q[..4] == BigEndian(|data| % TWO32, 4);
    BigEndianRoundTrip(|data| % TWO32, 4);
    var len := WrapInt32(FromBig(q[..4]));
    assert len == WrapInt32(|data|);
    if |data| <= MAX_LENGTH {
      assert q[4..4 + len] == data && q[4 + len..] == rest;
    } else if 0 <= len <= MAX_LENGTH {
      assert len < |data|;
    }
  }

  /** The decoder without ids on any buffer whatever. */
  lemma UnpackPlainExactly(q: seq<byte>)
    ensures var u := Unpack(q);
            if |q| < 4 || (0 <= Announced(q) <= MAX_LENGTH && |q| < 4 + Announced(q)) then u == Plain([], q)
            else if 0 <= Announced(q) <= MAX_LENGTH then q == EncodePlain(u.data) + u.rest && |u.data| == Announced(q)
            else u == Plain([], [])
  {
    if |q| >= 4 && 0 <= Announced(q) <= MAX_LENGTH && |q| >= 4 + Announced(q) {
      PowerValues();
      FromBigBound(q[..4]);
      BigOfFromBig(q[..4]);
      assert FromBig(q[..4]) == Announced(q);
      assert q == q[..4] + q[4..4 + Announced(q)] + q[4 + Announced(q)..];
    }
  }
}
