/** The generated messages: parsing, serialising, sizing and merging. */
module Messages {
  import opened Sequences
  import opened Bytes
  import opened Wire

  // ---- UTF-8 (section 4 of RFC 3629), which string fields must satisfy to be parsed

  predicate Trail(b: byte) { 0x80 <= b < 0xC0 }

  /** The length of the well-formed sequence at the front, or 0 if there is none. */
  function Utf8Step(s: seq<byte>): (n: nat)
    requires s != []
    ensures n <= |s|
  {
    if s[0] < 0x80 then 1
    else if 0xC2 <= s[0] < 0xE0 then
      if |s| >= 2 && Trail(s[1]) then 2 else 0
    else if 0xE0 <= s[0] < 0xF0 then
      if |s| >= 3 && Trail(s[1]) && Trail(s[2])
         && (s[0] == 0xE0 ==> s[1] >= 0xA0) && (s[0] == 0xED ==> s[1] < 0xA0) then 3 else 0
    else if 0xF0 <= s[0] < 0xF5 then
      if |s| >= 4 && Trail(s[1]) && Trail(s[2]) && Trail(s[3])
         && (s[0] == 0xF0 ==> s[1] >= 0x90) && (s[0] == 0xF4 ==> s[1] < 0x90) then 4 else 0
    else 0
  }

  predicate Utf8(s: seq<byte>) {
    s == [] || (Utf8Step(s) > 0 && Utf8(s[Utf8Step(s)..]))
  }

  /** A Unicode scalar value (section 3.9 of the Unicode Standard): any code point but the surrogates. */
  predicate Scalar(v: int) { 0 <= v < 0xD800 || 0xE000 <= v < 0x110000 }

  /** Its bytes, as section 3 of RFC 3629 lays the bits out. */
  function EncodeScalar(v: int): seq<byte>
    requires Scalar(v)
  {
    if v < 0x80 then [v]
    else if v < 0x800 then [0xC0 + v / 64, 0x80 + v % 64]
    else if v < 0x10000 then [0xE0 + v / 4096, 0x80 + v / 64 % 64, 0x80 + v % 64]
    else [0xF0 + v / 262144, 0x80 + v / 4096 % 64, 0x80 + v / 64 % 64, 0x80 + v % 64]
  }

  predicate Scalars(vs: seq<int>) { forall i :: 0 <= i < |vs| ==> Scalar(vs[i]) }

  function EncodeText(vs: seq<int>): seq<byte>
    requires Scalars(vs)
  {
    if vs == [] then [] else EncodeScalar(vs[0]) + EncodeText(vs[1..])
  }

  lemma StepOfScalar(v: int, rest: seq<byte>)
    requires Scalar(v)
    ensures Utf8Step(EncodeScalar(v) + rest) == |EncodeScalar(v)|
  {
    var s := EncodeScalar(v) + rest;
    assert s[0] == EncodeScalar(v)[0];
    if v >= 0x80 {
      assert s[1] == EncodeScalar(v)[1] && Trail(s[1]);
      if v >= 0x800 {
        assert s[2] == EncodeScalar(v)[2] && Trail(s[2]);
        if v >= 0x10000 {
          assert s[3] == EncodeScalar(v)[3] && Trail(s[3]);
          LeadOfFour(v);
        } else {
          LeadOfThree(v);
        }
      }
    }
  }

  lemma LeadOfThree(v: int)
    requires 0x800 <= v < 0x10000 && Scalar(v)
    ensures 0 <= v / 4096 < 16 && (v / 4096 == 0 ==> v / 64 % 64 >= 0x20) && (v / 4096 == 13 ==> v / 64 % 64 < 0x20)
  {
  }

  lemma LeadOfFour(v: int)
    requires 0x10000 <= v < 0x110000
    ensures 0 <= v / 262144 < 5 && (v / 262144 == 0 ==> v / 4096 % 64 >= 0x10) && (v / 262144 == 4 ==> v / 4096 % 64 < 0x10)
  {
  }

  lemma TwoBits(a: int, b: int) returns (v: int)
    requires 2 <= a < 32 && 0 <= b < 64
    ensures 0x80 <= v < 0x800 && Scalar(v) && EncodeScalar(v) == [0xC0 + a, 0x80 + b]
  {
    v := 64 * a + b;
  }

  lemma ThreeBits(a: int, b: int, c: int) returns (v: int)
    requires 0 <= a < 16 && 0 <= b < 64 && 0 <= c < 64 && (a == 0 ==> b >= 32) && (a == 13 ==> b < 32)
    ensures 0x800 <= v < 0x10000 && Scalar(v) && EncodeScalar(v) == [0xE0 + a, 0x80 + b, 0x80 + c]
  {
    v := 4096 * a + 64 * b + c;
    assert v / 64 == 64 * a + b && v % 64 == c;
    assert v / 4096 == a;
  }

  lemma FourBits(a: int, b: int, c: int, d: int) returns (v: int)
    requires 0 <= a < 5 && 0 <= b < 64 && 0 <= c < 64 && 0 <= d < 64 && (a == 0 ==> b >= 16) && (a == 4 ==> b < 16)
    ensures 0x10000 <= v < 0x110000 && EncodeScalar(v) == [0xF0 + a, 0x80 + b, 0x80 + c, 0x80 + d]
  {
    v := 262144 * a + 4096 * b + 64 * c + d;
    assert v / 64 == 4096 * a + 64 * b + c && v % 64 == d;
    assert v / 4096 == 64 * a + b;
    assert v / 262144 == a;
  }

  /** The scalar value that the sequence at the front encodes. */
  lemma ScalarInFront(s: seq<byte>) returns (v: int)
    requires s != [] && Utf8Step(s) > 0
    ensures Scalar(v) && EncodeScalar(v) == s[..Utf8Step(s)]
  {
    if s[0] < 0x80 {
      v := s[0];
    } else if s[0] < 0xE0 {
      v := TwoBits(s[0] as int - 0xC0, s[1] as int - 0x80);
    } else if s[0] < 0xF0 {
      v := ThreeBits(s[0] as int - 0xE0, s[1] as int - 0x80, s[2] as int - 0x80);
    } else {
      v := FourBits(s[0] as int - 0xF0, s[1] as int - 0x80, s[2] as int - 0x80, s[3] as int - 0x80);
    }
  }

  lemma {:induction false} TextIsUtf8(vs: seq<int>)
    requires Scalars(vs)
    ensures Utf8(EncodeText(vs))
  {
    if vs != [] {
      TextIsUtf8(vs[1..]);
      StepOfScalar(vs[0], EncodeText(vs[1..]));
      DropFront(EncodeScalar(vs[0]), EncodeText(vs[1..]));
    }
  }

  lemma DropFront(a: seq<byte>, b: seq<byte>)
    ensures (a + b)[|a|..] == b
  {
  }

  lemma {:induction false} Utf8IsText(s: seq<byte>) returns (vs: seq<int>)
    requires Utf8(s)
    ensures Scalars(vs) && EncodeText(vs) == s
    decreases |s|
  {
    vs := [];
    if s != [] {
      var n := Utf8Step(s);
      var v := ScalarInFront(s);
      var later := Utf8IsText(s[n..]);
      vs := [v] + later;
      assert vs[1..] == later;
      TakeDrop(s, n);
    }
  }

  /** The strings accepted are exactly the encodings of sequences of scalar values. */
  lemma Utf8Exactly(s: seq<byte>)
    ensures Utf8(s) <==> exists vs: seq<int> :: Scalars(vs) && EncodeText(vs) == s
  {
    if Utf8(s) {
      var vs := Utf8IsText(s);
    }
    if exists vs: seq<int> :: Scalars(vs) && EncodeText(vs) == s {
      var vs: seq<int> :| Scalars(vs) && EncodeText(vs) == s;
      TextIsUtf8(vs);
    }
  }

  // ---- The parse loop, for any message: `put` is the body of its switch

  type Put<!M> = (M, Field) -> Option<M>

  function PutAll<M>(put: Put<M>, m: M, fs: seq<Field>): Option<M>
    decreases |fs|
  {
    if fs == [] then Some(m) else
    match put(m, fs[0])
    case None => None
    case Some(m') => PutAll(put, m', fs[1..])
  }

  /** Parsing on top of the values a message already holds. */
  function ParseInto<M>(put: Put<M>, m: M, s: seq<byte>): Option<M> {
    match ReadFields(s)
    case None => None
    case Some(fs) => PutAll(put, m, fs)
  }

  lemma {:induction false} PutAllAppend<M>(put: Put<M>, m: M, a: seq<Field>, b: seq<Field>)
    ensures PutAll(put, m, a + b)
         == match PutAll(put, m, a) case None => None case Some(m') => PutAll(put, m', b)
    decreases |a|
  {
    if a == [] {
      assert a + b == b;
    } else {
      assert (a + b)[0] == a[0] && (a + b)[1..] == a[1..] + b;
      match put(m, a[0])
      case None =>
      case Some(m') => PutAllAppend(put, m', a[1..], b);
    }
  }

  lemma PutAtMostOne<M>(put: Put<M>, m: M, fs: seq<Field>)
    requires |fs| <= 1
    ensures PutAll(put, m, fs) == if fs == [] then Some(m) else put(m, fs[0])
  {
  }

  /** Written fields in front of any bytes: parse them, then parse the bytes on top. */
  lemma ParseWritten<M>(put: Put<M>, m: M, fs: seq<Field>, rest: seq<byte>)
    requires AllWritable(fs)
    ensures ParseInto(put, m, WriteFields(fs) + rest)
         == if SizesOk(fs) && PutAll(put, m, fs).Some?
            then ParseInto(put, PutAll(put, m, fs).value, rest) else None
  {
    FieldsRoundTrip(fs, rest);
    match ReadFields(rest)
    case None =>
    case Some(back) => PutAllAppend(put, m, fs, back);
  }

  lemma ParseNothing<M>(put: Put<M>, m: M, s: seq<byte>)
    ensures ParseInto(put, m, []) == Some(m)
    ensures s + [] == s
  {
  }

  /** `_InternalParse`: read a field, store it, until the input is used up. */
  method ParseBytes<M>(put: Put<M>, start: M, s: seq<byte>) returns (r: Option<M>)
    ensures r == ParseInto(put, start, s)
  {
    var m, at := start, s;
    while at != []
      invariant ParseInto(put, start, s) == ParseInto(put, m, at)
      decreases |at|
    {
      var f := ReadField(at, MAX_DEPTH);
      if f.None? {
        return None;
      }
      ParseStep(put, m, at, f.value);
      var stored := put(m, f.value.value);
      if stored.None? {
        return None;
      }
      m, at := stored.value, f.value.rest;
    }
    r := Some(m);
  }

  lemma ParseStep<M>(put: Put<M>, m: M, s: seq<byte>, f: Read<Field>)
    requires s != [] && ReadField(s, MAX_DEPTH) == Some(f)
    ensures ParseInto(put, m, s)
         == match put(m, f.value) case None => None case Some(m') => ParseInto(put, m', f.rest)
  {
  }

  // ---- What a sequence of fields means: the last one wins, and others are skipped

  predicate IsBytes(f: Field, number: nat) { f.LenField? && f.number == number }

  predicate IsNumber(f: Field, number: nat) { f.VarintField? && f.number == number }

  /** The data of the last field with this number, or `absent`. */
  function LastBytes(fs: seq<Field>, number: nat, absent: seq<byte>): seq<byte> {
    if fs == [] then absent
    else if IsBytes(fs[|fs| - 1], number) then fs[|fs| - 1].data
    else LastBytes(fs[..|fs| - 1], number, absent)
  }

  /** The last number under this field number, cut to 32 bits. */
  function LastNumber(fs: seq<Field>, number: nat): Option<int32> {
    if fs == [] then None
    else if IsNumber(fs[|fs| - 1], number) then Some(WrapInt32(fs[|fs| - 1].value))
    else LastNumber(fs[..|fs| - 1], number)
  }

  predicate TextOk(fs: seq<Field>, number: nat) {
    forall i :: 0 <= i < |fs| && IsBytes(fs[i], number) ==> Utf8(fs[i].data)
  }

  lemma TextOkSnoc(fs: seq<Field>, number: nat)
    requires fs != []
    ensures TextOk(fs, number)
            <==> TextOk(fs[..|fs| - 1], number) && (IsBytes(fs[|fs| - 1], number) ==> Utf8(fs[|fs| - 1].data))
  {
    var n := |fs| - 1;
    if TextOk(fs[..n], number) && (IsBytes(fs[n], number) ==> Utf8(fs[n].data)) {
      forall i | 0 <= i < |fs| && IsBytes(fs[i], number) ensures Utf8(fs[i].data) {
        assert i < n ==> fs[..n][i] == fs[i];
      }
    }
    if TextOk(fs, number) {
      forall i | 0 <= i < n && IsBytes(fs[..n][i], number) ensures Utf8(fs[..n][i].data) {
        assert fs[..n][i] == fs[i];
      }
    }
  }

  /** Folding in the last field after the others. */
  lemma PutAllSnoc<M>(put: Put<M>, m: M, fs: seq<Field>)
    requires fs != []
    ensures var n := |fs| - 1;
            PutAll(put, m, fs) == match PutAll(put, m, fs[..n]) case None => None case Some(m') => put(m', fs[n])
  {
    var n := |fs| - 1;
    assert fs == fs[..n] + [fs[n]];
    PutAllAppend(put, m, fs[..n], [fs[n]]);
    match PutAll(put, m, fs[..n])
    case None =>
    case Some(m') => PutAtMostOne(put, m', [fs[n]]);
  }

  // ---- What the serialisers write

  /** A string or bytes field of proto3 is written only when it is not empty. */
  function IfPresent(number: nat, data: seq<byte>): seq<Field> {
    if data == [] then [] else [LenField(number, data)]
  }

  /** Signed numbers are sign-extended to 64 bits before they are written. */
  function SignExtend(v: int32): uint64 { if v < 0 then v + TWO64 else v }

  function Signed(number: nat, v: int32): Field { VarintField(number, SignExtend(v)) }

  /** The size a LEN field takes beyond its one-byte tag. */
  function LengthDelimitedSize(data: seq<byte>): nat { |data| + VarintSize(|data|) }

  /** The size of a signed number: ten bytes when it is negative. */
  function Int32Size(v: int32): nat { if v < 0 then 10 else VarintSize(v) }

  lemma NegativeTakesTen(v: int32)
    ensures VarintSize(SignExtend(v)) == Int32Size(v)
  {
    if v < 0 {
      VarintSizes();
      VarintSizeBound(SignExtend(v), 10);
      VarintSizeBound(SignExtend(v), 9);
      assert Pow128(10) == 128 * Pow128(9);
    }
  }

  lemma WrittenSize(f: Field)
    requires Writable(f) && f.number < 16
    ensures WriteFields([f]) == WriteField(f)
    ensures f.LenField? ==> |WriteField(f)| == 1 + LengthDelimitedSize(f.data)
    ensures f.VarintField? ==> |WriteField(f)| == 1 + VarintSize(f.value)
  {
  }

  lemma {:induction false} WriteFieldsAppend(a: seq<Field>, b: seq<Field>)
    requires AllWritable(a) && AllWritable(b)
    ensures AllWritable(a + b)
    ensures WriteFields(a + b) == WriteFields(a) + WriteFields(b)
  {
    if a == [] {
      assert a + b == b;
    } else {
      FrontOfAppend(a, b);
      WriteFieldsAppend(a[1..], b);
      Regroup(WriteField(a[0]), WriteFields(a[1..]), WriteFields(b));
    }
  }

  lemma SizesOkAppend(a: seq<Field>, b: seq<Field>)
    ensures SizesOk(a + b) <==> SizesOk(a) && SizesOk(b)
  {
    if SizesOk(a + b) {
      forall i | 0 <= i < |a| ensures SizeOk(a[i]) { assert SizeOk((a + b)[i]); }
      forall i | 0 <= i < |b| ensures SizeOk(b[i]) { assert SizeOk((a + b)[|a| + i]); }
    }
  }

  lemma SizesOkOne(number: nat, data: seq<byte>)
    ensures SizesOk(IfPresent(number, data)) <==> |data| <= MAX_SIZE
  {
    if data != [] {
      assert IfPresent(number, data)[0] == LenField(number, data);
    }
  }

  function Prefer(from: seq<byte>, to: seq<byte>): seq<byte> { if from != [] then from else to }

  // ---- RpcRequest

  datatype RpcRequest = RpcRequest(serviceName: seq<byte>, methodName: seq<byte>, args: seq<byte>)

  const EMPTY_REQUEST: RpcRequest := RpcRequest([], [], [])

  function RequestFields(m: RpcRequest): (fs: seq<Field>)
    ensures AllWritable(fs)
  {
    IfPresent(1, m.serviceName) + IfPresent(2, m.methodName) + IfPresent(3, m.args)
  }

  function SerializeRequest(m: RpcRequest): seq<byte> { WriteFields(RequestFields(m)) }

  /** The parse switch: the last occurrence of a field wins, and unknown fields are skipped. */
  function PutRequest(m: RpcRequest, f: Field): Option<RpcRequest> {
    if f.LenField? && f.number == 1 then
      if Utf8(f.data) then Some(m.(serviceName := f.data)) else None
    else if f.LenField? && f.number == 2 then
      if Utf8(f.data) then Some(m.(methodName := f.data)) else None
    else if f.LenField? && f.number == 3 then Some(m.(args := f.data))
    else Some(m)
  }

  function ParseRequest(s: seq<byte>): Option<RpcRequest> { ParseInto(PutRequest, EMPTY_REQUEST, s) }

  /** `MergeImpl`: non-empty fields of `from` replace those of `to`. */
  function MergeRequest(to: RpcRequest, from: RpcRequest): RpcRequest {
    RpcRequest(Prefer(from.serviceName, to.serviceName),
               Prefer(from.methodName, to.methodName),
               Prefer(from.args, to.args))
  }

  /** The messages a parser will give back. */
  predicate ParseableRequest(m: RpcRequest) {
    && Utf8(m.serviceName) && Utf8(m.methodName)
    && |m.serviceName| <= MAX_SIZE && |m.methodName| <= MAX_SIZE && |m.args| <= MAX_SIZE
  }

  lemma PutOwnRequestFields(to: RpcRequest, m: RpcRequest)
    ensures PutAll(PutRequest, to, RequestFields(m))
         == if Utf8(m.serviceName) && Utf8(m.methodName) then Some(MergeRequest(to, m)) else None
  {
    var a, b, c := IfPresent(1, m.serviceName), IfPresent(2, m.methodName), IfPresent(3, m.args);
    PutAllAppend(PutRequest, to, a + b, c);
    PutAllAppend(PutRequest, to, a, b);
    PutAtMostOne(PutRequest, to, a);
    if Utf8(m.serviceName) {
      var to1 := to.(serviceName := Prefer(m.serviceName, to.serviceName));
      PutAtMostOne(PutRequest, to1, b);
      if Utf8(m.methodName) {
        PutAtMostOne(PutRequest, to1.(methodName := Prefer(m.methodName, to1.methodName)), c);
      }
    }
  }

  lemma RequestSizesOk(m: RpcRequest)
    ensures SizesOk(RequestFields(m)) <==>
            |m.serviceName| <= MAX_SIZE && |m.methodName| <= MAX_SIZE && |m.args| <= MAX_SIZE
  {
    SizesOkAppend(IfPresent(1, m.serviceName) + IfPresent(2, m.methodName), IfPresent(3, m.args));
    SizesOkAppend(IfPresent(1, m.serviceName), IfPresent(2, m.methodName));
    SizesOkOne(1, m.serviceName);
    SizesOkOne(2, m.methodName);
    SizesOkOne(3, m.args);
  }

  /**
   * Parsing a serialised message in front of any bytes, on top of any message, is parsing those
   * bytes on top of the merge; and it fails exactly when a string is not UTF-8 or a field is too long.
   */
  lemma ParseRequestIsMerge(to: RpcRequest, m: RpcRequest, rest: seq<byte>)
    ensures ParseInto(PutRequest, to, SerializeRequest(m) + rest)
         == if ParseableRequest(m) then ParseInto(PutRequest, MergeRequest(to, m), rest) else None
  {
    ParseWritten(PutRequest, to, RequestFields(m), rest);
    RequestSizesOk(m);
    PutOwnRequestFields(to, m);
  }

  /** A request is parsed back as it was written, or not at all. */
  lemma RequestRoundTrip(m: RpcRequest)
    ensures ParseRequest(SerializeRequest(m)) == if ParseableRequest(m) then Some(m) else None
  {
    ParseRequestIsMerge(EMPTY_REQUEST, m, []);
    ParseNothing(PutRequest, m, SerializeRequest(m));
  }

  lemma RequestConcatenation(a: RpcRequest, b: RpcRequest)
    requires ParseableRequest(a) && ParseableRequest(b)
    ensures ParseRequest(SerializeRequest(a) + SerializeRequest(b)) == Some(MergeRequest(a, b))
  {
    ParseRequestIsMerge(EMPTY_REQUEST, a, SerializeRequest(b));
    ParseRequestIsMerge(a, b, []);
    ParseNothing(PutRequest, MergeRequest(a, b), SerializeRequest(b));
  }

  lemma {:induction false} ParsedRequestIsParseable(m: RpcRequest, fs: seq<Field>)
    requires ParseableRequest(m) && SizesOk(fs)
    ensures PutAll(PutRequest, m, fs).Some? ==> ParseableRequest(PutAll(PutRequest, m, fs).value)
    decreases |fs|
  {
    if fs != [] && PutRequest(m, fs[0]).Some? {
      assert SizeOk(fs[0]);
      ParsedRequestIsParseable(PutRequest(m, fs[0]).value, fs[1..]);
    }
  }

  lemma {:induction false} ReadFieldsSizesOk(s: seq<byte>)
    ensures ReadFields(s).Some? ==> SizesOk(ReadFields(s).value)
    decreases |s|
  {
    if s != [] && ReadField(s, MAX_DEPTH).Some? {
      ReadFieldsSizesOk(ReadField(s, MAX_DEPTH).value.rest);
    }
  }

  /** Whatever bytes a request was parsed from, writing it again gives bytes that parse to the same request. */
  lemma ReserialiseRequest(s: seq<byte>)
    ensures ParseRequest(s).Some? ==> ParseRequest(SerializeRequest(ParseRequest(s).value)) == ParseRequest(s)
  {
    ReadFieldsSizesOk(s);
    if ReadFields(s).Some? {
      ParsedRequestIsParseable(EMPTY_REQUEST, ReadFields(s).value);
      if ParseRequest(s).Some? {
        RequestRoundTrip(ParseRequest(s).value);
      }
    }
  }

  lemma {:induction false} PutRequestMeans(m: RpcRequest, fs: seq<Field>)
    ensures PutAll(PutRequest, m, fs)
         == if TextOk(fs, 1) && TextOk(fs, 2)
            then Some(RpcRequest(LastBytes(fs, 1, m.serviceName), LastBytes(fs, 2, m.methodName), LastBytes(fs, 3, m.args)))
            else None
    decreases |fs|
  {
    if fs != [] {
      PutRequestMeans(m, fs[..|fs| - 1]);
      PutAllSnoc(PutRequest, m, fs);
      TextOkSnoc(fs, 1);
      TextOkSnoc(fs, 2);
    }
  }

  /** What any bytes mean as a request: each field is its last occurrence, and the others are skipped. */
  lemma RequestMeans(s: seq<byte>)
    ensures ParseRequest(s)
         == match ReadFields(s)
            case None => None
            case Some(fs) =>
              if TextOk(fs, 1) && TextOk(fs, 2)
              then Some(RpcRequest(LastBytes(fs, 1, []), LastBytes(fs, 2, []), LastBytes(fs, 3, []))) else None
  {
    if ReadFields(s).Some? {
      PutRequestMeans(EMPTY_REQUEST, ReadFields(s).value);
    }
  }

  /** A field with this tag byte, left out when it is empty. */
  function Tagged(tag: byte, data: seq<byte>): seq<byte> {
    if data == [] then [] else [tag] + Varint(|data|) + data
  }

  lemma TaggedField(number: nat, data: seq<byte>)
    requires 1 <= number < 16
    ensures WriteFields(IfPresent(number, data)) == Tagged(8 * number + 2, data)
  {
    if data != [] {
      WrittenSize(LenField(number, data));
      assert Varint(Tag(number, 2)) == [8 * number + 2];
      Regroup([8 * number + 2], Varint(|data|), data);
    }
  }

  /** The bytes of a request: service name under tag 10, method name under 18, arguments under 26. */
  lemma RequestBytes(m: RpcRequest)
    ensures SerializeRequest(m) == Tagged(10, m.serviceName) + Tagged(18, m.methodName) + Tagged(26, m.args)
  {
    Layout(IfPresent(1, m.serviceName), IfPresent(2, m.methodName), IfPresent(3, m.args));
    TaggedField(1, m.serviceName);
    TaggedField(2, m.methodName);
    TaggedField(3, m.args);
  }

  lemma NamedRequestNotEmpty(m: RpcRequest)
    requires m.serviceName != []
    ensures SerializeRequest(m) != []
  {
  }

  /** `ByteSizeLong`. */
  method RequestByteSize(m: RpcRequest) returns (total: nat)
    ensures total == |SerializeRequest(m)|
  {
    total := 0;
    if m.serviceName != [] {
      total := total + 1 + LengthDelimitedSize(m.serviceName);
      WrittenSize(LenField(1, m.serviceName));
    }
    if m.methodName != [] {
      total := total + 1 + LengthDelimitedSize(m.methodName);
      WrittenSize(LenField(2, m.methodName));
    }
    if m.args != [] {
      total := total + 1 + LengthDelimitedSize(m.args);
      WrittenSize(LenField(3, m.args));
    }
    WriteFieldsAppend(IfPresent(1, m.serviceName) + IfPresent(2, m.methodName), IfPresent(3, m.args));
    WriteFieldsAppend(IfPresent(1, m.serviceName), IfPresent(2, m.methodName));
  }

  /** The target pointer advances past a field if it is present. */
  method WritePresent(target: seq<byte>, number: nat, data: seq<byte>) returns (next: seq<byte>)
    requires 1 <= number < 16
    ensures next == target + WriteFields(IfPresent(number, data))
  {
    next := target;
    if data != [] {
      next := target + WriteField(LenField(number, data));
      WrittenSize(LenField(number, data));
    }
  }

  /** `_InternalSerialize`. */
  method WriteRequest(m: RpcRequest) returns (target: seq<byte>)
    ensures target == SerializeRequest(m)
  {
    target := WritePresent([], 1, m.serviceName);
    target := WritePresent(target, 2, m.methodName);
    target := WritePresent(target, 3, m.args);
    Layout(IfPresent(1, m.serviceName), IfPresent(2, m.methodName), IfPresent(3, m.args));
    NilUnit(WriteFields(IfPresent(1, m.serviceName)));
  }

  lemma Layout(a: seq<Field>, b: seq<Field>, c: seq<Field>)
    requires AllWritable(a) && AllWritable(b) && AllWritable(c)
    ensures AllWritable(a + b + c) && WriteFields(a + b + c) == WriteFields(a) + WriteFields(b) + WriteFields(c)
  {
    WriteFieldsAppend(a + b, c);
    WriteFieldsAppend(a, b);
  }

  // ---- RpcResponse

  datatype RpcResponse = RpcResponse(errorCode: int32, errorMsg: seq<byte>, result: seq<byte>)

  const NO_ERROR: int32 := 0
  const WRONG_PROTO: int32 := 1
  const NO_SERVICE: int32 := 2
  const NO_METHOD: int32 := 3
  const INVALID_ARGUMENT: int32 := 4
  const INTERNAL_ERROR: int32 := 5

  const EMPTY_RESPONSE: RpcResponse := RpcResponse(NO_ERROR, [], [])

  function IfNonZero(number: nat, v: int32): seq<Field> {
    if v == 0 then [] else [Signed(number, v)]
  }

  function ResponseFields(m: RpcResponse): (fs: seq<Field>)
    ensures AllWritable(fs)
  {
    IfNonZero(1, m.errorCode) + IfPresent(2, m.errorMsg) + IfPresent(3, m.result)
  }

  function SerializeResponse(m: RpcResponse): seq<byte> { WriteFields(ResponseFields(m)) }

  function PutResponse(m: RpcResponse, f: Field): Option<RpcResponse> {
    if f.VarintField? && f.number == 1 then Some(m.(errorCode := WrapInt32(f.value)))
    else if f.LenField? && f.number == 2 then
      if Utf8(f.data) then Some(m.(errorMsg := f.data)) else None
    else if f.LenField? && f.number == 3 then Some(m.(result := f.data))
    else Some(m)
  }

  function ParseResponse(s: seq<byte>): Option<RpcResponse> { ParseInto(PutResponse, EMPTY_RESPONSE, s) }

  function MergeResponse(to: RpcResponse, from: RpcResponse): RpcResponse {
    RpcResponse(if from.errorCode != 0 then from.errorCode else to.errorCode,
                Prefer(from.errorMsg, to.errorMsg),
                Prefer(from.result, to.result))
  }

  predicate ParseableResponse(m: RpcResponse) {
    Utf8(m.errorMsg) && |m.errorMsg| <= MAX_SIZE && |m.result| <= MAX_SIZE
  }

  lemma PutOwnResponseFields(to: RpcResponse, m: RpcResponse)
    ensures PutAll(PutResponse, to, ResponseFields(m))
         == if Utf8(m.errorMsg) then Some(MergeResponse(to, m)) else None
  {
    var a, b, c := IfNonZero(1, m.errorCode), IfPresent(2, m.errorMsg), IfPresent(3, m.result);
    PutAllAppend(PutResponse, to, a + b, c);
    PutAllAppend(PutResponse, to, a, b);
    PutAtMostOne(PutResponse, to, a);
    assert WrapInt32(SignExtend(m.errorCode)) == m.errorCode;
    var to1 := to.(errorCode := if m.errorCode != 0 then m.errorCode else to.errorCode);
    PutAtMostOne(PutResponse, to1, b);
    if Utf8(m.errorMsg) {
      PutAtMostOne(PutResponse, to1.(errorMsg := Prefer(m.errorMsg, to1.errorMsg)), c);
    }
  }

  lemma ResponseSizesOk(m: RpcResponse)
    ensures SizesOk(ResponseFields(m)) <==> |m.errorMsg| <= MAX_SIZE && |m.result| <= MAX_SIZE
  {
    SizesOkAppend(IfNonZero(1, m.errorCode) + IfPresent(2, m.errorMsg), IfPresent(3, m.result));
    SizesOkAppend(IfNonZero(1, m.errorCode), IfPresent(2, m.errorMsg));
    SizesOkOne(2, m.errorMsg);
    SizesOkOne(3, m.result);
  }

  lemma ParseResponseIsMerge(to: RpcResponse, m: RpcResponse, rest: seq<byte>)
    ensures ParseInto(PutResponse, to, SerializeResponse(m) + rest)
         == if ParseableResponse(m) then ParseInto(PutResponse, MergeResponse(to, m), rest) else None
  {
    ParseWritten(PutResponse, to, ResponseFields(m), rest);
    ResponseSizesOk(m);
    PutOwnResponseFields(to, m);
  }

  /** A response is parsed back as it was written, or not at all. */
  lemma ResponseRoundTrip(m: RpcResponse)
    ensures ParseResponse(SerializeResponse(m)) == if ParseableResponse(m) then Some(m) else None
  {
    ParseResponseIsMerge(EMPTY_RESPONSE, m, []);
    ParseNothing(PutResponse, m, SerializeResponse(m));
  }

  lemma ResponseConcatenation(a: RpcResponse, b: RpcResponse)
    requires ParseableResponse(a) && ParseableResponse(b)
    ensures ParseResponse(SerializeResponse(a) + SerializeResponse(b)) == Some(MergeResponse(a, b))
  {
    ParseResponseIsMerge(EMPTY_RESPONSE, a, SerializeResponse(b));
    ParseResponseIsMerge(a, b, []);
    ParseNothing(PutResponse, MergeResponse(a, b), SerializeResponse(b));
  }

  /** The only response with no bytes at all is the all-default one, a success with no result. */
  lemma ResponseEmptyExactly(m: RpcResponse)
    ensures SerializeResponse(m) == [] <==> m == EMPTY_RESPONSE
  {
  }

  lemma {:induction false} PutResponseMeans(m: RpcResponse, fs: seq<Field>)
    ensures PutAll(PutResponse, m, fs)
         == if TextOk(fs, 2)
            then Some(RpcResponse(if LastNumber(fs, 1).Some? then LastNumber(fs, 1).value else m.errorCode,
                                  LastBytes(fs, 2, m.errorMsg), LastBytes(fs, 3, m.result)))
            else None
    decreases |fs|
  {
    if fs != [] {
      PutResponseMeans(m, fs[..|fs| - 1]);
      PutAllSnoc(PutResponse, m, fs);
      TextOkSnoc(fs, 2);
    }
  }

  /** What any bytes mean as a response. */
  lemma ResponseMeans(s: seq<byte>)
    ensures ParseResponse(s)
         == match ReadFields(s)
            case None => None
            case Some(fs) =>
              if TextOk(fs, 2)
              then Some(RpcResponse(if LastNumber(fs, 1).Some? then LastNumber(fs, 1).value else NO_ERROR,
                                    LastBytes(fs, 2, []), LastBytes(fs, 3, [])))
              else None
  {
    if ReadFields(s).Some? {
      PutResponseMeans(EMPTY_RESPONSE, ReadFields(s).value);
    }
  }

  lemma TaggedNumber(number: nat, v: int32)
    requires 1 <= number < 16
    ensures WriteFields([Signed(number, v)]) == [8 * number] + Varint(SignExtend(v))
  {
    WrittenSize(Signed(number, v));
    assert Varint(Tag(number, 0)) == [8 * number];
  }

  /** The bytes of a response: error code under tag 8, text under 18, result under 26. */
  lemma ResponseBytes(m: RpcResponse)
    ensures SerializeResponse(m)
         == (if m.errorCode == 0 then [] else [8] + Varint(SignExtend(m.errorCode)))
            + Tagged(18, m.errorMsg) + Tagged(26, m.result)
  {
    Layout(IfNonZero(1, m.errorCode), IfPresent(2, m.errorMsg), IfPresent(3, m.result));
    TaggedNumber(1, m.errorCode);
    TaggedField(2, m.errorMsg);
    TaggedField(3, m.result);
  }

  method ResponseByteSize(m: RpcResponse) returns (total: nat)
    ensures total == |SerializeResponse(m)|
  {
    total := 0;
    if m.errorMsg != [] {
      total := total + 1 + LengthDelimitedSize(m.errorMsg);
      WrittenSize(LenField(2, m.errorMsg));
    }
    if m.result != [] {
      total := total + 1 + LengthDelimitedSize(m.result);
      WrittenSize(LenField(3, m.result));
    }
    if m.errorCode != 0 {
      total := total + 1 + Int32Size(m.errorCode);
      NegativeTakesTen(m.errorCode);
      WrittenSize(Signed(1, m.errorCode));
    }
    WriteFieldsAppend(IfNonZero(1, m.errorCode) + IfPresent(2, m.errorMsg), IfPresent(3, m.result));
    WriteFieldsAppend(IfNonZero(1, m.errorCode), IfPresent(2, m.errorMsg));
  }

  // ---- AddRequest: proto2, with presence bits

  datatype AddRequest = AddRequest(a: Option<int32>, b: Option<int32>)

  const EMPTY_ADD: AddRequest := AddRequest(None, None)

  /** A present field is written even when its value is zero. */
  function IfSet(number: nat, v: Option<int32>): seq<Field> {
    if v.None? then [] else [Signed(number, v.value)]
  }

  function AddFields(m: AddRequest): (fs: seq<Field>)
    ensures AllWritable(fs) && SizesOk(fs)
  {
    IfSet(1, m.a) + IfSet(2, m.b)
  }

  function SerializeAdd(m: AddRequest): seq<byte> { WriteFields(AddFields(m)) }

  function PutAdd(m: AddRequest, f: Field): Option<AddRequest> {
    if f.VarintField? && f.number == 1 then Some(m.(a := Some(WrapInt32(f.value))))
    else if f.VarintField? && f.number == 2 then Some(m.(b := Some(WrapInt32(f.value))))
    else Some(m)
  }

  function ParseAdd(s: seq<byte>): Option<AddRequest> { ParseInto(PutAdd, EMPTY_ADD, s) }

  function MergeAdd(to: AddRequest, from: AddRequest): AddRequest {
    AddRequest(if from.a.Some? then from.a else to.a, if from.b.Some? then from.b else to.b)
  }

  /** Negative numbers and presence survive, and repeated fields merge. */
  lemma ParseAddIsMerge(to: AddRequest, m: AddRequest, rest: seq<byte>)
    ensures ParseInto(PutAdd, to, SerializeAdd(m) + rest) == ParseInto(PutAdd, MergeAdd(to, m), rest)
  {
    ParseWritten(PutAdd, to, AddFields(m), rest);
    PutOwnAddFields(to, m);
  }

  lemma PutOwnAddFields(to: AddRequest, m: AddRequest)
    ensures PutAll(PutAdd, to, AddFields(m)) == Some(MergeAdd(to, m))
  {
    PutAllAppend(PutAdd, to, IfSet(1, m.a), IfSet(2, m.b));
    PutAtMostOne(PutAdd, to, IfSet(1, m.a));
    assert m.a.Some? ==> WrapInt32(SignExtend(m.a.value)) == m.a.value;
    PutAtMostOne(PutAdd, to.(a := MergeAdd(to, m).a), IfSet(2, m.b));
    assert m.b.Some? ==> WrapInt32(SignExtend(m.b.value)) == m.b.value;
  }

  lemma AddRoundTrip(m: AddRequest)
    ensures ParseAdd(SerializeAdd(m)) == Some(m)
  {
    ParseAddIsMerge(EMPTY_ADD, m, []);
    ParseNothing(PutAdd, m, SerializeAdd(m));
  }

  lemma AddConcatenation(a: AddRequest, b: AddRequest)
    ensures ParseAdd(SerializeAdd(a) + SerializeAdd(b)) == Some(MergeAdd(a, b))
  {
    ParseAddIsMerge(EMPTY_ADD, a, SerializeAdd(b));
    ParseAddIsMerge(a, b, []);
    ParseNothing(PutAdd, MergeAdd(a, b), SerializeAdd(b));
  }

  lemma {:induction false} PutAddMeans(m: AddRequest, fs: seq<Field>)
    ensures PutAll(PutAdd, m, fs)
         == Some(AddRequest(if LastNumber(fs, 1).Some? then LastNumber(fs, 1) else m.a,
                            if LastNumber(fs, 2).Some? then LastNumber(fs, 2) else m.b))
    decreases |fs|
  {
    if fs != [] {
      PutAddMeans(m, fs[..|fs| - 1]);
      PutAllSnoc(PutAdd, m, fs);
    }
  }

  /** What any bytes mean as an AddRequest: presence and value are those of the last occurrence. */
  lemma AddMeans(s: seq<byte>)
    ensures ParseAdd(s)
         == match ReadFields(s)
            case None => None
            case Some(fs) => Some(AddRequest(LastNumber(fs, 1), LastNumber(fs, 2)))
  {
    if ReadFields(s).Some? {
      PutAddMeans(EMPTY_ADD, ReadFields(s).value);
    }
  }

  /** The bytes of an AddRequest: `a` under tag 8 and `b` under 16, when present. */
  lemma AddBytes(m: AddRequest)
    ensures SerializeAdd(m)
         == (if m.a.None? then [] else [8] + Varint(SignExtend(m.a.value)))
            + (if m.b.None? then [] else [16] + Varint(SignExtend(m.b.value)))
  {
    WriteFieldsAppend(IfSet(1, m.a), IfSet(2, m.b));
    if m.a.Some? {
      TaggedNumber(1, m.a.value);
    }
    if m.b.Some? {
      TaggedNumber(2, m.b.value);
    }
  }

  method AddByteSize(m: AddRequest) returns (total: nat)
    ensures total == |SerializeAdd(m)|
  {
    total := 0;
    if m.a.Some? {
      total := total + 1 + Int32Size(m.a.value);
      NegativeTakesTen(m.a.value);
      WrittenSize(Signed(1, m.a.value));
    }
    if m.b.Some? {
      total := total + 1 + Int32Size(m.b.value);
      NegativeTakesTen(m.b.value);
      WrittenSize(Signed(2, m.b.value));
    }
    WriteFieldsAppend(IfSet(1, m.a), IfSet(2, m.b));
  }
}
