/**
 * The message encoding under the generated classes: base-128 varints, tags and fields, as the
 * Protocol Buffers encoding guide defines them ("Base 128 Varints", "Message Structure").
 */
module Wire {
  import opened Sequences
  import opened Bytes

  datatype Read<+T> = Read(value: T, rest: seq<byte>)

  const MAX_TAG_BYTES: nat := 5
  const MAX_VARINT_BYTES: nat := 10
  const MAX_SIZE: int := 0x7fff_ffff - 16   // the largest length prefix a parser accepts
  const MAX_DEPTH: nat := 100               // nesting of unknown groups
  const TWO29: int := 0x2000_0000

  // ---- Varints

  function Varint(v: nat): (s: seq<byte>)
    ensures |s| == VarintSize(v)
  {
    if v < 128 then [v] else [v % 128 + 128] + Varint(v / 128)
  }

  /** Seven bits a byte. */
  function VarintSize(v: nat): (n: nat)
    ensures n >= 1
  {
    if v < 128 then 1 else 1 + VarintSize(v / 128)
  }

  /** Reads at most `limit` bytes; the bits are not yet cut to the target width. */
  function ReadVarint(s: seq<byte>, limit: nat): (r: Option<Read<nat>>)
    ensures r.Some? ==> |r.value.rest| < |s|
  {
    if s == [] || limit == 0 then None
    else if s[0] < 128 then Some(Read(s[0], s[1..]))
    else
      match ReadVarint(s[1..], limit - 1)
      case None => None
      case Some(r) => Some(Read(s[0] - 128 + 128 * r.value, r.rest))
  }

  /** A written varint is read back, unless it is longer than the reader allows. */
  lemma {:induction false} VarintRoundTrip(v: nat, rest: seq<byte>, limit: nat)
    ensures ReadVarint(Varint(v) + rest, limit)
         == if VarintSize(v) <= limit then Some(Read(v, rest)) else None
  {
    var s := Varint(v) + rest;
    if v < 128 {
      assert s[1..] == rest;
    } else {
      assert s[1..] == Varint(v / 128) + rest;
      if limit > 0 {
        VarintRoundTrip(v / 128, rest, limit - 1);
      }
    }
  }

  /** The number that the bytes of a varint spell: seven bits a byte, the lowest first. */
  function Value(s: seq<byte>): nat {
    if s == [] then 0 else s[0] % 128 + 128 * Value(s[1..])
  }

  /** A varint spells its number, with the top bit set on every byte but the last, and no byte wasted. */
  lemma {:induction false} VarintShape(v: nat)
    ensures var s := Varint(v);
            && Value(s) == v && s[|s| - 1] < 128
            && (forall i :: 0 <= i < |s| - 1 ==> s[i] >= 128)
            && (|s| > 1 ==> s[|s| - 1] > 0)
  {
    if v >= 128 {
      VarintShape(v / 128);
      var t := Varint(v / 128);
      assert Varint(v)[1..] == t;
      assert |t| == 1 ==> t == [v / 128];
    }
  }

  /** A varint cut short is not read. */
  lemma {:induction false} VarintTruncated(v: nat, k: nat, limit: nat)
    requires k < |Varint(v)|
    ensures ReadVarint(Varint(v)[..k], limit) == None
  {
    if v >= 128 && k > 0 && limit > 0 {
      TailOfTake(Varint(v), k);
      assert Varint(v)[1..] == Varint(v / 128);
      VarintTruncated(v / 128, k - 1, limit - 1);
    }
  }

  function Pow128(n: nat): (p: nat)
    ensures p > 0
  {
    if n == 0 then 1 else 128 * Pow128(n - 1)
  }

  lemma {:induction false} VarintSizeBound(v: nat, n: nat)
    requires n >= 1
    ensures VarintSize(v) <= n <==> v < Pow128(n)
  {
    if v >= 128 {
      if n == 1 {
        assert Pow128(1) == 128;
      } else {
        VarintSizeBound(v / 128, n - 1);
      }
    } else {
      PowAtLeast(n);
    }
  }

  lemma {:induction false} PowAtLeast(n: nat)
    requires n >= 1
    ensures Pow128(n) >= 128
  {
  }

  lemma VarintSizes()
    ensures Pow128(5) == 0x8_0000_0000 && Pow128(10) == 64 * TWO64
  {
  }

  // ---- Fields

  /** A field as it stands on the wire; the last three forms are only ever skipped here. */
  datatype Field =
    | VarintField(number: nat, value: uint64)
    | LenField(number: nat, data: seq<byte>)
    | Fixed64Field(number: nat, data: seq<byte>)
    | Fixed32Field(number: nat, data: seq<byte>)
    | GroupField(number: nat)

  function Tag(number: nat, wireType: nat): nat { 8 * number + wireType }

  function ReadSize(s: seq<byte>): (r: Option<Read<nat>>)
    ensures r.Some? ==> |r.value.rest| < |s|
  {
    match ReadVarint(s, MAX_TAG_BYTES)
    case None => None
    case Some(r) => if r.value > MAX_SIZE then None else Some(r)
  }

  function ReadBytes(s: seq<byte>, n: nat): (r: Option<Read<seq<byte>>>)
    ensures r.Some? ==> |r.value.rest| <= |s|
  {
    if |s| < n then None else Some(Read(s[..n], s[n..]))
  }

  /** One turn of the parse loop: a tag and the value its wire type announces. */
  function ReadField(s: seq<byte>, depth: nat): (r: Option<Read<Field>>)
    ensures r.Some? ==> |r.value.rest| < |s| && SizeOk(r.value.value)
    decreases |s|, 0
  {
    match ReadVarint(s, MAX_TAG_BYTES)
    case None => None
    case Some(t) => ReadBody(t.value % TWO32, t.rest, depth)
  }

  /**
   * What stands behind a tag. A zero tag or an end-group tag stops the loop short of the end of input,
   * which a top-level parse rejects.
   */
  function ReadBody(tag: nat, s: seq<byte>, depth: nat): (r: Option<Read<Field>>)
    ensures r.Some? ==> |r.value.rest| <= |s| && SizeOk(r.value.value)
    decreases |s|, 2
  {
    var number := tag / 8;
    if number == 0 then None
    else if tag % 8 == 0 then
      match ReadVarint(s, MAX_VARINT_BYTES)
      case None => None
      case Some(v) => Some(Read(VarintField(number, v.value % TWO64), v.rest))
    else if tag % 8 == 1 then
      match ReadBytes(s, 8)
      case None => None
      case Some(b) => Some(Read(Fixed64Field(number, b.value), b.rest))
    else if tag % 8 == 2 then
      match ReadSize(s)
      case None => None
      case Some(n) =>
        match ReadBytes(n.rest, n.value) {
          case None => None
          case Some(b) => Some(Read(LenField(number, b.value), b.rest))
        }
    else if tag % 8 == 3 then
      if depth == 0 then None else
      match ReadGroup(s, number, depth - 1)
      case None => None
      case Some(rest) => Some(Read(GroupField(number), rest))
    else if tag % 8 == 5 then
      match ReadBytes(s, 4)
      case None => None
      case Some(b) => Some(Read(Fixed32Field(number, b.value), b.rest))
    else None
  }

  /** Skips an unknown group up to the end tag of its own number. */
  function ReadGroup(s: seq<byte>, number: nat, depth: nat): (r: Option<seq<byte>>)
    ensures r.Some? ==> |r.value| < |s|
    decreases |s|, 1
  {
    match ReadVarint(s, MAX_TAG_BYTES)
    case None => None
    case Some(t) =>
      var tag := t.value % TWO32;
      if tag == 0 || tag % 8 == 4 then
        if tag == Tag(number, 4) then Some(t.rest) else None
      else
        match ReadField(s, depth)
        case None => None
        case Some(f) => ReadGroup(f.rest, number, depth)
  }

  /** All the fields of a message, or None if the parse loop fails on any of them. */
  function ReadFields(s: seq<byte>): (r: Option<seq<Field>>)
    decreases |s|
  {
    if s == [] then Some([]) else
    match ReadField(s, MAX_DEPTH)
    case None => None
    case Some(f) => Prepend(f.value, ReadFields(f.rest))
  }

  function Prepend(f: Field, fs: Option<seq<Field>>): Option<seq<Field>> {
    match fs
    case None => None
    case Some(rest) => Some([f] + rest)
  }

  /** A field that can stand on the wire in one piece; the generated serialisers write the first two forms. */
  predicate Writable(f: Field) {
    && 1 <= f.number < TWO29
    && match f
       case VarintField(_, _) => true
       case LenField(_, _) => true
       case Fixed64Field(_, d) => |d| == 8
       case Fixed32Field(_, d) => |d| == 4
       case GroupField(_) => false
  }

  predicate AllWritable(fs: seq<Field>) { forall i :: 0 <= i < |fs| ==> Writable(fs[i]) }

  /** A length prefix the reader accepts. */
  predicate SizeOk(f: Field) { f.LenField? ==> |f.data| <= MAX_SIZE }

  predicate SizesOk(fs: seq<Field>) { forall i :: 0 <= i < |fs| ==> SizeOk(fs[i]) }

  function WriteField(f: Field): (s: seq<byte>)
    requires Writable(f)
    ensures |s| >= 2
  {
    match f
    case VarintField(n, v) => Varint(Tag(n, 0)) + Varint(v)
    case LenField(n, d) => Varint(Tag(n, 2)) + (Varint(|d|) + d)
    case Fixed64Field(n, d) => Varint(Tag(n, 1)) + d
    case Fixed32Field(n, d) => Varint(Tag(n, 5)) + d
  }

  function WriteFields(fs: seq<Field>): seq<byte>
    requires AllWritable(fs)
  {
    if fs == [] then [] else WriteField(fs[0]) + WriteFields(fs[1..])
  }

  lemma TagRoundTrip(number: nat, wireType: nat, rest: seq<byte>)
    requires number < TWO29 && wireType < 8
    ensures ReadVarint(Varint(Tag(number, wireType)) + rest, MAX_TAG_BYTES) == Some(Read(Tag(number, wireType), rest))
    ensures Tag(number, wireType) % TWO32 == Tag(number, wireType)
    ensures Tag(number, wireType) / 8 == number && Tag(number, wireType) % 8 == wireType
  {
    TagParts(number, wireType);
    ShortRoundTrip(Tag(number, wireType), rest);
  }

  lemma TagParts(number: nat, wireType: nat)
    requires number < TWO29 && wireType < 8
    ensures Tag(number, wireType) < TWO32
    ensures Tag(number, wireType) % TWO32 == Tag(number, wireType)
    ensures Tag(number, wireType) / 8 == number && Tag(number, wireType) % 8 == wireType
  {
  }

  lemma ShortRoundTrip(v: nat, rest: seq<byte>)
    requires v < TWO32
    ensures ReadVarint(Varint(v) + rest, MAX_TAG_BYTES) == Some(Read(v, rest))
  {
    VarintSizes();
    VarintSizeBound(v, MAX_TAG_BYTES);
    VarintRoundTrip(v, rest, MAX_TAG_BYTES);
  }

  lemma SizeRoundTrip(n: nat, rest: seq<byte>)
    ensures ReadSize(Varint(n) + rest) == if n <= MAX_SIZE then Some(Read(n, rest)) else None
  {
    VarintSizes();
    VarintSizeBound(n, MAX_TAG_BYTES);
    VarintRoundTrip(n, rest, MAX_TAG_BYTES);
  }

  /** A written field is read back whole, unless its length prefix is too large to be accepted. */
  lemma FieldRoundTrip(f: Field, rest: seq<byte>, depth: nat)
    requires Writable(f)
    ensures ReadField(WriteField(f) + rest, depth) == if SizeOk(f) then Some(Read(f, rest)) else None
  {
    match f
    case VarintField(n, v) => NumberRoundTrip(n, v, rest, depth);
    case LenField(n, d) => BytesRoundTrip(n, d, rest, depth);
    case Fixed64Field(n, d) => FixedRoundTrip(f, 1, rest, depth);
    case Fixed32Field(n, d) => FixedRoundTrip(f, 5, rest, depth);
  }

  lemma FixedRoundTrip(f: Field, wireType: nat, rest: seq<byte>, depth: nat)
    requires Writable(f) && ((f.Fixed64Field? && wireType == 1) || (f.Fixed32Field? && wireType == 5))
    ensures ReadField(WriteField(f) + rest, depth) == Some(Read(f, rest))
  {
    Regroup(Varint(Tag(f.number, wireType)), f.data, rest);
    TagRoundTrip(f.number, wireType, f.data + rest);
    BytesFront(f.data, rest);
  }

  lemma NumberRoundTrip(n: nat, v: uint64, rest: seq<byte>, depth: nat)
    requires Writable(VarintField(n, v))
    ensures ReadField(WriteField(VarintField(n, v)) + rest, depth) == Some(Read(VarintField(n, v), rest))
  {
    Regroup(Varint(Tag(n, 0)), Varint(v), rest);
    TagRoundTrip(n, 0, Varint(v) + rest);
    VarintSizes();
    VarintSizeBound(v, MAX_VARINT_BYTES);
    VarintRoundTrip(v, rest, MAX_VARINT_BYTES);
  }

  lemma BytesRoundTrip(n: nat, d: seq<byte>, rest: seq<byte>, depth: nat)
    requires Writable(LenField(n, d))
    ensures ReadField(WriteField(LenField(n, d)) + rest, depth)
         == if |d| <= MAX_SIZE then Some(Read(LenField(n, d), rest)) else None
  {
    Regroup(Varint(Tag(n, 2)), Varint(|d|) + d, rest);
    Regroup(Varint(|d|), d, rest);
    TagRoundTrip(n, 2, Varint(|d|) + (d + rest));
    SizeRoundTrip(|d|, d + rest);
    BytesFront(d, rest);
  }

  lemma BytesFront(d: seq<byte>, rest: seq<byte>)
    ensures (d + rest)[..|d|] == d && (d + rest)[|d|..] == rest
  {
  }

  /** The result of reading `front` and then the rest. */
  function Join(front: seq<Field>, back: Option<seq<Field>>): Option<seq<Field>> {
    match back
    case None => None
    case Some(fs) => Some(front + fs)
  }

  /** Fields written in front of any bytes are read in front of whatever those bytes hold. */
  lemma {:induction false} FieldsRoundTrip(fs: seq<Field>, rest: seq<byte>)
    requires AllWritable(fs)
    ensures ReadFields(WriteFields(fs) + rest) == if SizesOk(fs) then Join(fs, ReadFields(rest)) else None
  {
    if fs == [] {
      assert WriteFields(fs) + rest == rest;
      assert ReadFields(rest).Some? ==> [] + ReadFields(rest).value == ReadFields(rest).value;
    } else {
      Regroup(WriteField(fs[0]), WriteFields(fs[1..]), rest);
      FieldRoundTrip(fs[0], WriteFields(fs[1..]) + rest, MAX_DEPTH);
      FieldsRoundTrip(fs[1..], rest);
      SizesOkCons(fs);
      JoinCons(fs, ReadFields(rest));
    }
  }

  lemma SizesOkCons(fs: seq<Field>)
    requires fs != []
    ensures SizesOk(fs) <==> SizeOk(fs[0]) && SizesOk(fs[1..])
  {
  }

  lemma JoinCons(fs: seq<Field>, back: Option<seq<Field>>)
    requires fs != []
    ensures Join(fs, back) == Prepend(fs[0], Join(fs[1..], back))
  {
    assert back.Some? ==> [fs[0]] + (fs[1..] + back.value) == fs + back.value;
  }

  // ---- Numbers that are too wide

  /** Bits of a tag beyond the 32nd, and of a number beyond the 64th, are dropped. */
  lemma TagWraps(t: nat, rest: seq<byte>, depth: nat)
    requires t < Pow128(MAX_TAG_BYTES)
    ensures ReadField(Varint(t) + rest, depth) == ReadField(Varint(t % TWO32) + rest, depth)
  {
    VarintSizeBound(t, MAX_TAG_BYTES);
    VarintRoundTrip(t, rest, MAX_TAG_BYTES);
    ShortRoundTrip(t % TWO32, rest);
    SameTag(Varint(t) + rest, Varint(t % TWO32) + rest, Read(t, rest), Read(t % TWO32, rest), depth);
  }

  lemma SameTag(s: seq<byte>, s': seq<byte>, t: Read<nat>, t': Read<nat>, depth: nat)
    requires ReadVarint(s, MAX_TAG_BYTES) == Some(t) && ReadVarint(s', MAX_TAG_BYTES) == Some(t')
    requires t'.value == t.value % TWO32 && t'.rest == t.rest
    ensures ReadField(s, depth) == ReadField(s', depth)
  {
  }

  lemma NumberWraps(n: nat, v: nat, rest: seq<byte>, depth: nat)
    requires 1 <= n < TWO29
    ensures ReadField(Varint(Tag(n, 0)) + (Varint(v) + rest), depth)
         == if v < Pow128(MAX_VARINT_BYTES) then Some(Read(VarintField(n, v % TWO64), rest)) else None
  {
    TagRoundTrip(n, 0, Varint(v) + rest);
    VarintSizeBound(v, MAX_VARINT_BYTES);
    VarintRoundTrip(v, rest, MAX_VARINT_BYTES);
  }

  // ---- What is refused

  /** Field number zero, the reserved wire types, and an end-group tag outside a group. */
  lemma TagRefused(t: nat, rest: seq<byte>, depth: nat)
    requires t < TWO32 && (t / 8 == 0 || t % 8 == 4 || t % 8 == 6 || t % 8 == 7)
    ensures ReadField(Varint(t) + rest, depth) == None
  {
    ShortRoundTrip(t, rest);
  }

  lemma Cut(head: seq<byte>, body: seq<byte>, k: nat)
    requires k < |head + body|
    ensures (head + body)[..k] == if k < |head| then head[..k] else head + body[..k - |head|]
  {
  }

  /** A field cut short anywhere. */
  lemma FieldTruncated(f: Field, k: nat, depth: nat)
    requires Writable(f) && SizeOk(f) && k < |WriteField(f)|
    ensures ReadField(WriteField(f)[..k], depth) == None
  {
    var wireType := match f case VarintField(_, _) => 0 case LenField(_, _) => 2 case Fixed64Field(_, _) => 1 case Fixed32Field(_, _) => 5;
    var head := Varint(Tag(f.number, wireType));
    var body := WriteField(f)[|head|..];
    assert WriteField(f) == head + body;
    Cut(head, body, k);
    if k < |head| {
      VarintTruncated(Tag(f.number, wireType), k, MAX_TAG_BYTES);
    } else {
      TagRoundTrip(f.number, wireType, body[..k - |head|]);
      BodyTruncated(f, body, k - |head|);
    }
  }

  lemma BodyTruncated(f: Field, body: seq<byte>, k: nat)
    requires Writable(f) && k < |body|
    requires f.VarintField? ==> body == Varint(f.value)
    requires f.LenField? ==> body == Varint(|f.data|) + f.data
    requires f.Fixed64Field? || f.Fixed32Field? ==> body == f.data
    ensures f.VarintField? ==> ReadVarint(body[..k], MAX_VARINT_BYTES) == None
    ensures f.LenField? ==> ReadSize(body[..k]) == None || |ReadSize(body[..k]).value.rest| < ReadSize(body[..k]).value.value
    ensures f.Fixed64Field? || f.Fixed32Field? ==> |body[..k]| < |f.data|
  {
    if f.VarintField? {
      VarintTruncated(f.value, k, MAX_VARINT_BYTES);
    } else if f.LenField? {
      Cut(Varint(|f.data|), f.data, k);
      if k < |Varint(|f.data|)| {
        VarintTruncated(|f.data|, k, MAX_TAG_BYTES);
      } else {
        SizeRoundTrip(|f.data|, f.data[..k - |Varint(|f.data|)|]);
      }
    }
  }

  // ---- Groups, which are skipped

  /** A field, or a group of items between a start tag and an end tag. */
  datatype Item = Leaf(field: Field) | Group(number: nat, items: seq<Item>)

  predicate ItemOk(i: Item) {
    match i
    case Leaf(f) => Writable(f) && SizeOk(f)
    case Group(n, items) => 1 <= n < TWO29 && forall x :: x in items ==> ItemOk(x)
  }

  predicate ItemsOk(items: seq<Item>) { forall x :: x in items ==> ItemOk(x) }

  function WriteItem(i: Item): seq<byte>
    requires ItemOk(i)
  {
    match i
    case Leaf(f) => WriteField(f)
    case Group(n, items) => Varint(Tag(n, 3)) + (WriteItems(items) + Varint(Tag(n, 4)))
  }

  function WriteItems(items: seq<Item>): seq<byte>
    requires ItemsOk(items)
  {
    if items == [] then [] else WriteItem(items[0]) + WriteItems(items[1..])
  }

  function Depth(i: Item): nat {
    match i
    case Leaf(_) => 0
    case Group(_, items) => 1 + Depths(items)
  }

  function Depths(items: seq<Item>): nat {
    if items == [] then 0
    else if Depth(items[0]) > Depths(items[1..]) then Depth(items[0]) else Depths(items[1..])
  }

  /** How an item appears to the parser. */
  function Flat(i: Item): Field {
    match i
    case Leaf(f) => f
    case Group(n, _) => GroupField(n)
  }

  /** What stands first in an item: a tag that ends no group. */
  lemma ItemTag(i: Item, rest: seq<byte>) returns (t: nat, after: seq<byte>)
    requires ItemOk(i)
    ensures ReadVarint(WriteItem(i) + rest, MAX_TAG_BYTES) == Some(Read(t, after))
    ensures t < TWO32 && t != 0 && t % 8 != 4
  {
    var n, wireType := Flat(i).number, match i
      case Group(_, _) => 3
      case Leaf(VarintField(_, _)) => 0
      case Leaf(LenField(_, _)) => 2
      case Leaf(Fixed64Field(_, _)) => 1
      case Leaf(Fixed32Field(_, _)) => 5;
    t := Tag(n, wireType);
    TagParts(n, wireType);
    var body := WriteItem(i)[|Varint(t)|..];
    assert WriteItem(i) == Varint(t) + body;
    Regroup(Varint(t), body, rest);
    after := body + rest;
    TagRoundTrip(n, wireType, after);
  }

  /** A field or group is read whole, with groups nested as deep as `depth` and no deeper. */
  lemma {:induction false} ItemRoundTrip(i: Item, rest: seq<byte>, depth: nat)
    requires ItemOk(i)
    ensures ReadField(WriteItem(i) + rest, depth) == if Depth(i) <= depth then Some(Read(Flat(i), rest)) else None
    decreases i, 0
  {
    match i
    case Leaf(f) => FieldRoundTrip(f, rest, depth);
    case Group(n, items) =>
      var end := Varint(Tag(n, 4));
      Regroup(Varint(Tag(n, 3)), WriteItems(items) + end, rest);
      Regroup(WriteItems(items), end, rest);
      TagRoundTrip(n, 3, WriteItems(items) + (end + rest));
      if depth > 0 {
        GroupRoundTrip(items, n, rest, depth - 1);
      }
  }

  lemma {:induction false} GroupRoundTrip(items: seq<Item>, n: nat, rest: seq<byte>, depth: nat)
    requires ItemsOk(items) && 1 <= n < TWO29
    ensures ReadGroup(WriteItems(items) + (Varint(Tag(n, 4)) + rest), n, depth)
         == if Depths(items) <= depth then Some(rest) else None
    decreases items, 1
  {
    var end := Varint(Tag(n, 4)) + rest;
    if items == [] {
      NilUnit(end);
      GroupEnd(n, rest, depth);
    } else {
      var more := WriteItems(items[1..]) + end;
      Regroup(WriteItem(items[0]), WriteItems(items[1..]), end);
      ItemRoundTrip(items[0], more, depth);
      GroupRoundTrip(items[1..], n, rest, depth);
      GroupStep(items[0], more, n, depth);
    }
  }

  lemma GroupEnd(n: nat, rest: seq<byte>, depth: nat)
    requires 1 <= n < TWO29
    ensures ReadGroup(Varint(Tag(n, 4)) + rest, n, depth) == Some(rest)
  {
    TagRoundTrip(n, 4, rest);
    TagParts(n, 4);
    EndTag(Varint(Tag(n, 4)) + rest, Tag(n, 4), rest, n, depth);
  }

  /** An item in a group is read and the group goes on. */
  lemma GroupStep(i: Item, more: seq<byte>, n: nat, depth: nat)
    requires ItemOk(i)
    ensures ReadGroup(WriteItem(i) + more, n, depth)
         == match ReadField(WriteItem(i) + more, depth) case None => None case Some(f) => ReadGroup(f.rest, n, depth)
  {
    var t, after := ItemTag(i, more);
    GroupGoesOn(WriteItem(i) + more, t, after, n, depth);
  }

  lemma GroupGoesOn(s: seq<byte>, t: nat, after: seq<byte>, n: nat, depth: nat)
    requires ReadVarint(s, MAX_TAG_BYTES) == Some(Read(t, after)) && t < TWO32 && t != 0 && t % 8 != 4
    ensures ReadGroup(s, n, depth)
         == match ReadField(s, depth) case None => None case Some(f) => ReadGroup(f.rest, n, depth)
  {
  }

  /** Nothing, or a tag that ends another group or is zero. */
  ghost predicate WrongEnd(n: nat, end: seq<byte>) {
    end == [] || exists t: nat, rest :: t < TWO32 && (t == 0 || t % 8 == 4) && t != Tag(n, 4) && end == Varint(t) + rest
  }

  lemma WrongEndRefused(n: nat, end: seq<byte>, depth: nat)
    requires WrongEnd(n, end)
    ensures ReadGroup(end, n, depth) == None
  {
    if end != [] {
      var t: nat, rest :| t < TWO32 && (t == 0 || t % 8 == 4) && t != Tag(n, 4) && end == Varint(t) + rest;
      ShortRoundTrip(t, rest);
      EndTag(end, t, rest, n, depth);
    }
  }

  lemma EndTag(s: seq<byte>, t: nat, rest: seq<byte>, n: nat, depth: nat)
    requires ReadVarint(s, MAX_TAG_BYTES) == Some(Read(t, rest)) && t < TWO32 && (t == 0 || t % 8 == 4)
    ensures ReadGroup(s, n, depth) == if t == Tag(n, 4) then Some(rest) else None
  {
  }

  /** A group that is not ended by its own end tag is refused. */
  lemma {:induction false} GroupRefused(items: seq<Item>, n: nat, end: seq<byte>, depth: nat)
    requires ItemsOk(items) && ReadGroup(end, n, depth) == None
    ensures ReadGroup(WriteItems(items) + end, n, depth) == None
    decreases |items|
  {
    if items == [] {
      NilUnit(end);
    } else {
      var more := WriteItems(items[1..]) + end;
      Regroup(WriteItem(items[0]), WriteItems(items[1..]), end);
      ItemRoundTrip(items[0], more, depth);
      GroupRefused(items[1..], n, end, depth);
      GroupStep(items[0], more, n, depth);
    }
  }

  lemma GroupNeedsItsEnd(items: seq<Item>, n: nat, end: seq<byte>, depth: nat)
    requires ItemsOk(items) && WrongEnd(n, end)
    ensures ReadGroup(WriteItems(items) + end, n, depth) == None
  {
    WrongEndRefused(n, end, depth);
    GroupRefused(items, n, end, depth);
  }

  function Flats(items: seq<Item>): (fs: seq<Field>)
    ensures |fs| == |items|
  {
    seq(|items|, i requires 0 <= i < |items| => Flat(items[i]))
  }

  /** Items in front of any bytes are read in front of whatever those bytes hold, unless they nest too deep. */
  lemma {:induction false} ItemsRoundTrip(items: seq<Item>, rest: seq<byte>)
    requires ItemsOk(items)
    ensures ReadFields(WriteItems(items) + rest)
         == if Depths(items) <= MAX_DEPTH then Join(Flats(items), ReadFields(rest)) else None
  {
    if items == [] {
      NilUnit(rest);
      assert ReadFields(rest).Some? ==> Flats(items) + ReadFields(rest).value == ReadFields(rest).value;
    } else {
      Regroup(WriteItem(items[0]), WriteItems(items[1..]), rest);
      ItemRoundTrip(items[0], WriteItems(items[1..]) + rest, MAX_DEPTH);
      ItemsRoundTrip(items[1..], rest);
      assert Flats(items)[1..] == Flats(items[1..]);
      JoinCons(Flats(items), ReadFields(rest));
      NotEmpty(items[0], WriteItems(items[1..]) + rest);
    }
  }

  lemma NotEmpty(i: Item, rest: seq<byte>)
    requires ItemOk(i)
    ensures WriteItem(i) + rest != []
  {
    var t, after := ItemTag(i, rest);
  }
}
