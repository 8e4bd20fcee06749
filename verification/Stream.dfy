/** Reading a byte stream in arbitrary chunks: the server drains, the client takes one frame a read. */
module Stream {
  import opened Sequences
  import opened Bytes
  import opened Codec

  type Chunks = seq<seq<byte>>

  function Flatten(chunks: Chunks): seq<byte> {
    if chunks == [] then [] else chunks[0] + Flatten(chunks[1..])
  }

  /** What a reader produced and what it has not consumed. */
  datatype Decoded = Decoded(frames: seq<Frame>, rest: seq<byte>)

  /** The frame the decoder returned; an unset or rejected id is 0. */
  function Taken(u: Unpacked): Frame
    requires 0 <= u.id < TWO64
  {
    Frame(u.id, u.data)
  }

  lemma UnpackedIdInRange(q: seq<byte>, id: uint64)
    ensures 0 <= UnpackWithId(q, id).id < TWO64
  {
    PowerValues();
    if |q| >= HEADER_SIZE {
      FromBigBound(q[4..HEADER_SIZE]);
    }
  }

  /** The server's `onMessage` loop: unpack until nothing comes out. */
  function Drain(q: seq<byte>): (d: Decoded)
    ensures AllGood(d.frames)
    decreases |q|
  {
    UnpackedIdInRange(q, 0);
    var u := UnpackWithId(q, 0);
    if u.data == [] then Decoded([], u.rest)
    else
      var d := Drain(u.rest);
      Decoded([Taken(u)] + d.frames, d.rest)
  }

  /** The server's reads, one drain after each. */
  function Serve(q: seq<byte>, chunks: Chunks): (d: Decoded)
    ensures AllGood(d.frames)
    decreases |chunks|
  {
    if chunks == [] then Decoded([], q)
    else
      var now := Drain(q + chunks[0]);
      var later := Serve(now.rest, chunks[1..]);
      Decoded(now.frames + later.frames, later.rest)
  }

  /** The client's `onRpcResponse`: one unpack a read. */
  function TakeOne(q: seq<byte>): (d: Decoded)
    ensures |d.frames| <= 1 && AllGood(d.frames)
  {
    UnpackedIdInRange(q, 0);
    var u := UnpackWithId(q, 0);
    Decoded(if u.data == [] then [] else [Taken(u)], u.rest)
  }

  function Receive(q: seq<byte>, chunks: Chunks): (d: Decoded)
    ensures |d.frames| <= |chunks| && AllGood(d.frames)
    decreases |chunks|
  {
    if chunks == [] then Decoded([], q)
    else
      var now := TakeOne(q + chunks[0]);
      var later := Receive(now.rest, chunks[1..]);
      Decoded(now.frames + later.frames, later.rest)
  }

  /** How many frames the client consumed: the reads that made the buffer shorter than it had become. */
  function Consumed(q: seq<byte>, chunks: Chunks): (n: nat)
    ensures n <= |chunks|
    decreases |chunks|
  {
    if chunks == [] then 0
    else
      var c := q + chunks[0];
      var rest := TakeOne(c).rest;
      (if |rest| < |c| then 1 else 0) + Consumed(rest, chunks[1..])
  }

  /** The frames that come out of a decoder: an empty payload is consumed and taken for "incomplete". */
  function Visible(fs: seq<Frame>): (vs: seq<Frame>)
    ensures |vs| <= |fs|
  {
    if fs == [] then [] else (if fs[0].payload == [] then [] else [fs[0]]) + Visible(fs[1..])
  }

  lemma {:induction false} VisibleAppend(a: seq<Frame>, b: seq<Frame>)
    ensures Visible(a + b) == Visible(a) + Visible(b)
  {
    if a == [] {
      NilUnit(b);
    } else {
      FrontOfAppend(a, b);
      VisibleAppend(a[1..], b);
    }
  }

  lemma {:induction false} VisibleGood(fs: seq<Frame>)
    requires AllGood(fs)
    ensures Visible(fs) == fs
  {
    if fs != [] {
      VisibleGood(fs[1..]);
    }
  }

  /** How many of the frames lie wholly within the first `n` bytes of their encoding. */
  function Whole(fs: seq<Frame>, n: int): (k: nat)
    ensures k <= |fs|
  {
    if fs == [] || n < |Encode(fs[0])| then 0 else 1 + Whole(fs[1..], n - |Encode(fs[0])|)
  }

  lemma {:induction false} WholeMonotone(fs: seq<Frame>, m: int, n: int)
    requires m <= n
    ensures Whole(fs, m) <= Whole(fs, n)
  {
    if fs != [] && m >= |Encode(fs[0])| {
      WholeMonotone(fs[1..], m - |Encode(fs[0])|, n - |Encode(fs[0])|);
    }
  }

  lemma {:induction false} WholeOfAll(fs: seq<Frame>)
    ensures Whole(fs, |EncodeAll(fs)|) == |fs|
  {
    if fs != [] {
      WholeOfAll(fs[1..]);
    }
  }

  /** Moving the first chunk from the wire into the buffer. */
  lemma Shift(q: seq<byte>, chunks: Chunks, tail: seq<byte>)
    requires chunks != []
    ensures q + (Flatten(chunks) + tail) == q + chunks[0] + (Flatten(chunks[1..]) + tail)
    ensures |Flatten(chunks)| == |chunks[0]| + |Flatten(chunks[1..])|
  {
    Reassociate(q, chunks[0], Flatten(chunks[1..]), tail);
  }

  lemma Reassociate(a: seq<byte>, b: seq<byte>, c: seq<byte>, d: seq<byte>)
    ensures a + (b + c + d) == a + b + (c + d)
  {
  }

  lemma EncodeAllSplit(fs: seq<Frame>, k: nat)
    requires k <= |fs|
    ensures EncodeAll(fs) == EncodeAll(fs[..k]) + EncodeAll(fs[k..])
  {
    TakeDrop(fs, k);
    EncodeAllAppend(fs[..k], fs[k..]);
  }

  lemma {:induction false} WholeAfter(fs: seq<Frame>, k: nat, n: int)
    requires k <= |fs| && |EncodeAll(fs[..k])| <= n
    ensures Whole(fs, n) == k + Whole(fs[k..], n - |EncodeAll(fs[..k])|)
  {
    if k == 0 {
      assert fs[0..] == fs;
    } else {
      TailOfTake(fs, k);
      DropDrop(fs, 1, k);
      WholeAfter(fs[1..], k - 1, n - |Encode(fs[0])|);
    }
  }

  // ---- The server

  /** Where the first of `k` frames with an empty payload stands, or `k`. */
  function FirstEmpty(fs: seq<Frame>, k: nat): (e: nat)
    requires k <= |fs|
    ensures e <= k
  {
    if k == 0 || fs[0].payload == [] then 0 else 1 + FirstEmpty(fs[1..], k - 1)
  }

  /** Where a drain of `k` whole frames stops: behind the first that is empty, or at the end. */
  function Stop(fs: seq<Frame>, k: nat): (c: nat)
    requires k <= |fs|
    ensures c <= k && (k > 0 ==> c > 0)
  {
    if FirstEmpty(fs, k) < k then FirstEmpty(fs, k) + 1 else k
  }

  /** How many frames a drain consumes, and how many the drains of several reads. */
  function DrainedCount(q: seq<byte>): nat
    decreases |q|
  {
    var u := UnpackWithId(q, 0);
    if u.data != [] then 1 + DrainedCount(u.rest) else if |u.rest| < |q| then 1 else 0
  }

  function ServedCount(q: seq<byte>, chunks: Chunks): nat
    decreases |chunks|
  {
    if chunks == [] then 0
    else DrainedCount(q + chunks[0]) + ServedCount(Drain(q + chunks[0]).rest, chunks[1..])
  }

  /**
   * Of `k` frames that have arrived whole a drain produces those before the first empty one, and it
   * consumes that one too.
   */
  ghost predicate DrainIs(q: seq<byte>, tail: seq<byte>, fs: seq<Frame>, k: nat) {
    && k <= |fs|
    && Drain(q).frames == fs[..FirstEmpty(fs, k)]
    && Drain(q).rest + tail == EncodeAll(fs[Stop(fs, k)..])
    && DrainedCount(q) == Stop(fs, k)
  }

  /** One drain of the received part of a stream. */
  lemma {:induction false} DrainFront(q: seq<byte>, tail: seq<byte>, fs: seq<Frame>)
    requires q + tail == EncodeAll(fs) && AllFit(fs)
    ensures DrainIs(q, tail, fs, Whole(fs, |q|))
    decreases |fs|
  {
    UnpackFront(q, tail, fs, 0);
    if fs == [] || |q| < |Encode(fs[0])| {
      DropNone(fs);
    } else {
      var rest := UnpackWithId(q, 0).rest;
      DrainFront(rest, tail, fs[1..]);
      DrainCons(q, tail, fs, rest, Whole(fs[1..], |rest|), Whole(fs, |q|));
    }
  }

  /** The first frame is consumed, and unless it is empty the drain goes on. */
  lemma DrainCons(q: seq<byte>, tail: seq<byte>, fs: seq<Frame>, rest: seq<byte>, k: nat, all: nat)
    requires fs != [] && UnpackWithId(q, 0) == Unpacked(fs[0].payload, fs[0].id, rest) && |rest| < |q|
    requires rest + tail == EncodeAll(fs[1..]) && DrainIs(rest, tail, fs[1..], k) && all == k + 1
    ensures DrainIs(q, tail, fs, all)
  {
    DropCons(fs, FirstEmpty(fs[1..], k));
    DropCons(fs, Stop(fs[1..], k));
  }

  lemma DropCons(fs: seq<Frame>, k: nat)
    requires k < |fs|
    ensures fs[..k + 1] == [fs[0]] + fs[1..][..k] && fs[1..][k..] == fs[k + 1..]
  {
  }

  lemma {:induction false} StopsEarly(fs: seq<Frame>, k: nat)
    requires k <= |fs|
    ensures Stop(fs, k) < k <==> exists i :: 0 <= i < k - 1 && fs[i].payload == []
  {
    if k > 1 && fs[0].payload != [] {
      StopsEarly(fs[1..], k - 1);
      if Stop(fs[1..], k - 1) < k - 1 {
        var i :| 0 <= i < k - 2 && fs[1..][i].payload == [];
        assert fs[i + 1].payload == [];
      } else if exists i :: 0 <= i < k - 1 && fs[i].payload == [] {
        var i :| 0 <= i < k - 1 && fs[i].payload == [];
        assert fs[1..][i - 1].payload == [];
      }
    }
  }

  /** A drain leaves a whole frame behind exactly when a whole frame other than the last is empty. */
  lemma DrainStallsExactly(q: seq<byte>, tail: seq<byte>, fs: seq<Frame>)
    requires q + tail == EncodeAll(fs) && AllFit(fs)
    ensures DrainedCount(q) <= |fs| && Drain(q).rest + tail == EncodeAll(fs[DrainedCount(q)..])
    ensures Whole(fs[DrainedCount(q)..], |Drain(q).rest|) > 0
            <==> exists i :: 0 <= i < Whole(fs, |q|) - 1 && fs[i].payload == []
  {
    DrainFront(q, tail, fs);
    var k, c := Whole(fs, |q|), DrainedCount(q);
    LeftBehind(q, Drain(q).rest, tail, fs, c);
    StopsEarly(fs, k);
  }

  lemma LeftBehind(q: seq<byte>, rest: seq<byte>, tail: seq<byte>, fs: seq<Frame>, c: nat)
    requires c <= |fs| && q + tail == EncodeAll(fs) && rest + tail == EncodeAll(fs[c..])
    ensures Whole(fs, |q|) == c + Whole(fs[c..], |rest|)
  {
    Lengths(q, rest, tail, fs, c);
    WholeFrom(fs, c, |q|, |rest|);
  }

  lemma WholeFrom(fs: seq<Frame>, c: nat, n: nat, r: nat)
    requires c <= |fs| && n == |EncodeAll(fs[..c])| + r
    ensures Whole(fs, n) == c + Whole(fs[c..], r)
  {
    WholeAfter(fs, c, n);
  }

  lemma {:induction false} VisibleStop(fs: seq<Frame>, k: nat)
    requires k <= |fs|
    ensures Visible(fs[..Stop(fs, k)]) == fs[..FirstEmpty(fs, k)]
  {
    if k > 0 && fs[0].payload == [] {
      VisibleOne(fs);
    } else if k > 0 {
      VisibleStop(fs[1..], k - 1);
      DropCons(fs, FirstEmpty(fs[1..], k - 1));
      VisibleCons(fs, Stop(fs[1..], k - 1));
    }
  }

  lemma VisibleCons(fs: seq<Frame>, k: nat)
    requires k < |fs| && fs[0].payload != []
    ensures Visible(fs[..k + 1]) == [fs[0]] + Visible(fs[1..][..k])
  {
    assert fs[..k + 1][1..] == fs[1..][..k];
  }

  /** What the first of several reads does to the stream and to the count. */
  lemma FirstServe(q: seq<byte>, chunks: Chunks, tail: seq<byte>, fs: seq<Frame>) returns (c: nat, rest: seq<byte>)
    requires chunks != [] && q + (Flatten(chunks) + tail) == EncodeAll(fs) && AllFit(fs)
    ensures c <= |fs| && AllFit(fs[c..]) && rest + (Flatten(chunks[1..]) + tail) == EncodeAll(fs[c..])
    ensures c == Stop(fs, Arrived(fs, q, chunks, 1))
    ensures ServedCount(q, chunks) == c + ServedCount(rest, chunks[1..])
    ensures Serve(q, chunks) == Decoded(Visible(fs[..c]) + Serve(rest, chunks[1..]).frames, Serve(rest, chunks[1..]).rest)
    ensures |q| + |chunks[0]| == |EncodeAll(fs[..c])| + |rest|
  {
    var b, after := q + chunks[0], Flatten(chunks[1..]) + tail;
    Shift(q, chunks, tail);
    DrainFront(b, after, fs);
    c, rest := DrainedCount(b), Drain(b).rest;
    ArrivedFirst(fs, q, chunks);
    VisibleStop(fs, Whole(fs, |b|));
    Lengths(b, rest, after, fs, c);
  }

  /**
   * The server's decoding is safe under every chunking of every prefix of a stream that fits: it has
   * consumed a prefix of the frames sent, it has produced those of them that are not empty, and
   * re-encoding them in front of the unread bytes gives back all that was received.
   */
  lemma {:induction false} ServerDecodingSafe(q: seq<byte>, chunks: Chunks, tail: seq<byte>, fs: seq<Frame>)
    requires q + (Flatten(chunks) + tail) == EncodeAll(fs) && AllFit(fs)
    ensures Reads(Serve(q, chunks), ServedCount(q, chunks), q, chunks, tail, fs)
    decreases |chunks|
  {
    if chunks == [] {
      NothingRead(q, tail, fs);
    } else {
      var c, rest := FirstServe(q, chunks, tail, fs);
      ServerDecodingSafe(rest, chunks[1..], tail, fs[c..]);
      ReadsCons(Serve(rest, chunks[1..]), ServedCount(rest, chunks[1..]), q, chunks, tail, fs, c, rest,
                Serve(q, chunks), ServedCount(q, chunks));
    }
  }

  // ---- How many drains a stream needs

  /** The drains it takes to consume frames that have all arrived: one for each empty frame and the rest. */
  function Drains(fs: seq<Frame>): nat {
    if fs == [] then 0 else 1 + Drains(fs[Stop(fs, |fs|)..])
  }

  /** The drains from frame `a` to frame `b`. */
  function DrainsTo(fs: seq<Frame>, a: nat, b: nat): nat {
    if a <= b <= |fs| then Drains(fs[a..b]) else 0
  }

  lemma {:induction false} StopSuffix(fs: seq<Frame>, m: nat)
    requires m < Stop(fs, |fs|)
    ensures Stop(fs[m..], |fs| - m) == Stop(fs, |fs|) - m
  {
    if m == 0 {
      DropNone(fs);
    } else {
      StopSuffix(fs[1..], m - 1);
      assert fs[1..][m - 1..] == fs[m..];
    }
  }

  lemma {:induction false} DrainsSuffix(fs: seq<Frame>, m: nat)
    requires m <= |fs|
    ensures Drains(fs[m..]) <= Drains(fs)
    decreases |fs|
  {
    var c := Stop(fs, |fs|);
    if fs != [] && m >= c {
      DrainsSuffix(fs[c..], m - c);
      DropDrop(fs, c, m);
    } else if fs != [] {
      StopSuffix(fs, m);
      DropDrop(fs, m, c);
    }
  }

  lemma {:induction false} StopMin(fs: seq<Frame>, k: nat, b: nat)
    requires k <= b <= |fs|
    ensures Stop(fs, k) == if Stop(fs[..b], b) < k then Stop(fs[..b], b) else k
  {
    if k > 0 && fs[0].payload != [] {
      StopMin(fs[1..], k - 1, b - 1);
      assert fs[..b][1..] == fs[1..][..b - 1];
    }
  }

  /** The earlier of two starting points needs the more drains. */
  lemma DrainsOrder(fs: seq<Frame>, a: nat, b: nat)
    requires a <= b <= |fs|
    ensures Drains(fs[b..]) <= Drains(fs[a..])
  {
    DrainsSuffix(fs[a..], b - a);
    DropDrop(fs, a, b);
  }

  /** From no point of the reads on are more drains needed than there are reads left. */
  ghost predicate Pace(fs: seq<Frame>, q: seq<byte>, chunks: Chunks, b: nat) {
    && DrainsTo(fs, 0, b) <= |chunks|
    && (forall j :: 1 <= j <= |chunks| ==> OnTime(fs, q, chunks, b, j))
  }

  predicate OnTime(fs: seq<Frame>, q: seq<byte>, chunks: Chunks, b: nat, j: nat)
    requires j <= |chunks|
  {
    DrainsTo(fs, Arrived(fs, q, chunks, j), b) <= |chunks| - j
  }

  /** The first read, where the frames up to `b` have arrived in the end. */
  lemma FirstOnTime(fs: seq<Frame>, k: nat, b: nat, t: nat)
    requires k <= b <= |fs|
    ensures DrainsTo(fs[Stop(fs, k)..], 0, b - Stop(fs, k)) <= t <==> DrainsTo(fs, 0, b) <= t + 1 && DrainsTo(fs, k, b) <= t
  {
    var g, c := fs[..b], Stop(fs, k);
    StopMin(fs, k, b);
    Slices(fs, c, k, b);
    var stop := Stop(g, b);
    if stop <= k {
      DrainsOrder(g, stop, k);
    } else {
      DrainsOrder(g, k, stop);
    }
    assert b > 0 ==> Drains(g) == 1 + Drains(g[stop..]);
  }

  lemma Slices(fs: seq<Frame>, c: nat, k: nat, b: nat)
    requires c <= k <= b <= |fs|
    ensures fs[c..][0..b - c] == fs[..b][c..] && fs[0..b] == fs[..b] && fs[k..b] == fs[..b][k..]
  {
  }

  lemma DrainsShift(fs: seq<Frame>, c: nat, a: nat, b: nat)
    requires c <= |fs|
    ensures DrainsTo(fs, c + a, c + b) == DrainsTo(fs[c..], a, b)
  {
    if a <= b && c + b <= |fs| {
      assert fs[c..][a..b] == fs[c + a..c + b];
    }
  }

  lemma PaceCons(q: seq<byte>, chunks: Chunks, fs: seq<Frame>, c: nat, rest: seq<byte>, b: nat)
    requires chunks != [] && Arrived(fs, q, chunks, 1) <= b <= |fs| && c == Stop(fs, Arrived(fs, q, chunks, 1))
    requires |q| + |chunks[0]| == |EncodeAll(fs[..c])| + |rest|
    ensures Pace(fs, q, chunks, b) <==> Pace(fs[c..], rest, chunks[1..], b - c)
  {
    var gs, more, b' := fs[c..], chunks[1..], b - c;
    FirstOnTime(fs, Arrived(fs, q, chunks, 1), b, |more|);
    forall j | 2 <= j <= |chunks| ensures OnTime(fs, q, chunks, b, j) <==> OnTime(gs, rest, more, b', j - 1) {
      ArrivedTail(q, chunks, fs, c, rest, j);
      DrainsShift(fs, c, Arrived(gs, rest, more, j - 1), b');
    }
    if Pace(fs, q, chunks, b) {
      assert OnTime(fs, q, chunks, b, 1);
      forall j | 1 <= j <= |more| ensures OnTime(gs, rest, more, b', j) {
        assert OnTime(fs, q, chunks, b, j + 1);
      }
    }
    if Pace(gs, rest, more, b') {
      forall j | 1 <= j <= |chunks| ensures OnTime(fs, q, chunks, b, j) {
        assert j > 1 ==> OnTime(gs, rest, more, b', j - 1);
      }
    }
  }

  lemma ArrivedMonotone(fs: seq<Frame>, q: seq<byte>, chunks: Chunks, j: nat)
    requires j <= |chunks|
    ensures Arrived(fs, q, chunks, j) <= Arrived(fs, q, chunks, |chunks|) <= |fs|
  {
    FlattenPrefix(chunks, j);
    assert chunks[..|chunks|] == chunks;
    WholeMonotone(fs, |q| + |Flatten(chunks[..j])|, |q| + |Flatten(chunks)|);
  }

  lemma {:induction false} FlattenPrefix(chunks: Chunks, j: nat)
    requires j <= |chunks|
    ensures |Flatten(chunks[..j])| <= |Flatten(chunks)|
  {
    if j > 0 {
      assert chunks[..j][1..] == chunks[1..][..j - 1];
      FlattenPrefix(chunks[1..], j - 1);
    }
  }

  /** All that has arrived whole has been consumed exactly if the server kept pace. */
  ghost predicate PaceTells(n: nat, fs: seq<Frame>, q: seq<byte>, chunks: Chunks, b: nat) {
    n <= b <= |fs| && (n == b <==> Pace(fs, q, chunks, b))
  }

  lemma PaceAtEnd(fs: seq<Frame>, q: seq<byte>, b: nat)
    requires b <= |fs|
    ensures PaceTells(0, fs, q, [], b)
  {
    assert fs[0..b] != [] <==> b > 0;
  }

  lemma PaceStep(n: nat, m: nat, q: seq<byte>, chunks: Chunks, fs: seq<Frame>, c: nat, rest: seq<byte>, b: nat)
    requires chunks != [] && c <= |fs| && c == Stop(fs, Arrived(fs, q, chunks, 1)) && b == Arrived(fs, q, chunks, |chunks|)
    requires |q| + |chunks[0]| == |EncodeAll(fs[..c])| + |rest|
    requires n == c + m && PaceTells(m, fs[c..], rest, chunks[1..], Arrived(fs[c..], rest, chunks[1..], |chunks| - 1))
    ensures PaceTells(n, fs, q, chunks, b)
  {
    ArrivedMonotone(fs, q, chunks, 1);
    ArrivedTail(q, chunks, fs, c, rest, |chunks|);
    PaceCons(q, chunks, fs, c, rest, b);
  }

  lemma {:induction false} ServePaceFrom(q: seq<byte>, chunks: Chunks, tail: seq<byte>, fs: seq<Frame>, b: nat)
    requires q + (Flatten(chunks) + tail) == EncodeAll(fs) && AllFit(fs) && b == Arrived(fs, q, chunks, |chunks|)
    ensures PaceTells(ServedCount(q, chunks), fs, q, chunks, b)
    decreases |chunks|
  {
    if chunks == [] {
      PaceAtEnd(fs, q, b);
    } else {
      var c, rest := FirstServe(q, chunks, tail, fs);
      ServePaceFrom(rest, chunks[1..], tail, fs[c..], Arrived(fs[c..], rest, chunks[1..], |chunks| - 1));
      PaceStep(ServedCount(q, chunks), ServedCount(rest, chunks[1..]), q, chunks, fs, c, rest, b);
    }
  }

  /** From no point of the reads on are more drains needed than there are reads left. */
  ghost predicate KeepsPace(chunks: Chunks, fs: seq<Frame>) {
    forall j :: 0 <= j <= |chunks| ==> OnTime(fs, [], chunks, Arrived(fs, [], chunks, |chunks|), j)
  }

  lemma PaceFromStart(chunks: Chunks, fs: seq<Frame>)
    ensures KeepsPace(chunks, fs) <==> Pace(fs, [], chunks, Arrived(fs, [], chunks, |chunks|))
  {
    assert Arrived(fs, [], chunks, 0) == 0;
    var b := Arrived(fs, [], chunks, |chunks|);
    assert OnTime(fs, [], chunks, b, 0) <==> DrainsTo(fs, 0, b) <= |chunks|;
  }

  lemma {:induction false} NoneEmptyStop(fs: seq<Frame>, k: nat)
    requires k <= |fs| && AllGood(fs)
    ensures Stop(fs, k) == k
  {
    if k > 0 {
      NoneEmptyStop(fs[1..], k - 1);
    }
  }

  lemma GoodKeepsPace(chunks: Chunks, fs: seq<Frame>)
    requires AllGood(fs)
    ensures KeepsPace(chunks, fs)
  {
    var b := Arrived(fs, [], chunks, |chunks|);
    forall j | 0 <= j <= |chunks| ensures OnTime(fs, [], chunks, b, j) {
      var a := Arrived(fs, [], chunks, j);
      ArrivedMonotone(fs, [], chunks, j);
      NoneEmptyStop(fs[a..b], b - a);
      assert fs[a..b][b - a..] == [];
      assert Drains(fs[a..b]) <= if a < b then 1 else 0;
    }
  }

  /**
   * After any reads the server has produced the non-empty ones of the frames it has consumed, and it
   * has consumed every frame that has arrived whole exactly when it kept pace; with no empty payload
   * it always does.
   */
  lemma ServeIsPrompt(chunks: Chunks, tail: seq<byte>, fs: seq<Frame>)
    requires Flatten(chunks) + tail == EncodeAll(fs) && AllFit(fs)
    ensures ServedCount([], chunks) <= Whole(fs, |Flatten(chunks)|)
    ensures Serve([], chunks).frames == Visible(fs[..ServedCount([], chunks)])
    ensures ServedCount([], chunks) == Whole(fs, |Flatten(chunks)|) <==> KeepsPace(chunks, fs)
    ensures AllGood(fs) ==> Serve([], chunks).frames == fs[..Whole(fs, |Flatten(chunks)|)]
  {
    NilUnit(Flatten(chunks) + tail);
    assert chunks[..|chunks|] == chunks;
    ServePaceFrom([], chunks, tail, fs, Whole(fs, |Flatten(chunks)|));
    PaceFromStart(chunks, fs);
    ServerDecodingSafe([], chunks, tail, fs);
    if AllGood(fs) {
      GoodKeepsPace(chunks, fs);
      VisibleGood(fs[..ServedCount([], chunks)]);
    }
  }

  /**
   * The server has produced all the non-empty frames of a stream, and holds no byte, exactly when it
   * kept pace: when each empty frame and what follows it had a read left to be drained by.
   */
  lemma ServerCatchesUp(chunks: Chunks, fs: seq<Frame>)
    requires Flatten(chunks) == EncodeAll(fs) && AllFit(fs)
    ensures Serve([], chunks) == Decoded(Visible(fs), []) <==> KeepsPace(chunks, fs)
  {
    NilUnit(Flatten(chunks));
    NilUnit(Flatten(chunks) + []);
    ServeIsPrompt(chunks, [], fs);
    ServerDecodingSafe([], chunks, [], fs);
    WholeOfAll(fs);
    ReadToTheEnd(Serve([], chunks), ServedCount([], chunks), chunks, fs);
  }

  /**
   * Chunking independence: however the encoding of a list of frames is cut into reads, the server
   * produces that list and keeps no byte, if and only if every payload is non-empty and under the cap.
   */
  lemma ChunkingIndependence(chunks: Chunks, fs: seq<Frame>)
    requires Flatten(chunks) == EncodeAll(fs)
    ensures Serve([], chunks) == Decoded(fs, []) <==> AllGood(fs)
  {
    if AllGood(fs) {
      ServerCatchesUp(chunks, fs);
      GoodKeepsPace(chunks, fs);
      VisibleGood(fs);
    }
  }

  /** A read that brings one whole frame and more, as the drain sees it. */
  lemma DrainWhole(f: Frame, rest: seq<byte>)
    requires Fits(f)
    ensures Drain(Encode(f) + rest) ==
            if f.payload == [] then Decoded([], rest) else Decoded([f] + Drain(rest).frames, Drain(rest).rest)
  {
    UnpackWhole(f, rest, 0);
  }

  lemma DrainSingle(f: Frame)
    requires Fits(f)
    ensures Drain(Encode(f)) == Decoded(if f.payload == [] then [] else [f], [])
  {
    DrainWhole(f, []);
    NilUnit(Encode(f));
    assert Drain([]) == Decoded([], []);
  }

  lemma ServeOne(q: seq<byte>)
    ensures Serve([], [q]) == Drain(q)
  {
    NilUnit(q);
    assert Drain(q).frames + [] == Drain(q).frames;
  }

  /** An empty payload stops the drain: the frame behind it waits for another read. */
  lemma EmptyPayloadStalls(id: uint64, next: Frame)
    requires Good(next)
    ensures var empty := Frame(id, []);
            Serve([], [Encode(empty) + Encode(next)]) == Decoded([], Encode(next))
            && Serve([], [Encode(empty), Encode(next)]) == Decoded([next], [])
  {
    var a, b := Encode(Frame(id, [])), Encode(next);
    DrainWhole(Frame(id, []), b);
    ServeOne(a + b);
    DrainSingle(Frame(id, []));
    DrainSingle(next);
    ServeOne(b);
    NilUnit(a);
    assert [a, b][1..] == [b];
  }

  // ---- The client

  lemma TakeOneFront(q: seq<byte>, tail: seq<byte>, fs: seq<Frame>) returns (k: nat)
    requires q + tail == EncodeAll(fs) && AllFit(fs)
    ensures k == if Whole(fs, |q|) > 0 then 1 else 0
    ensures TakeOne(q).frames == Visible(fs[..k]) && TakeOne(q).rest + tail == EncodeAll(fs[k..])
    ensures |TakeOne(q).rest| < |q| <==> k == 1
  {
    UnpackFront(q, tail, fs, 0);
    if Whole(fs, |q|) > 0 {
      k := 1;
      VisibleOne(fs);
    } else {
      k := 0;
      DropNone(fs);
    }
  }

  lemma VisibleOne(fs: seq<Frame>)
    requires fs != []
    ensures Visible(fs[..1]) == if fs[0].payload == [] then [] else [fs[0]]
  {
    assert fs[..1] == [fs[0]] && [fs[0]][1..] == [];
  }

  // ---- Reading frames off a stream, by whichever reader

  /**
   * A reader has consumed the first `n` frames, produced those of them that are not empty and kept the
   * rest: re-encoding what it consumed in front of the unread bytes gives back all that was received.
   */
  ghost predicate Reads(d: Decoded, n: nat, q: seq<byte>, chunks: Chunks, tail: seq<byte>, fs: seq<Frame>) {
    && n <= |fs|
    && d.frames == Visible(fs[..n])
    && EncodeAll(fs[..n]) + d.rest == q + Flatten(chunks)
    && d.rest + tail == EncodeAll(fs[n..])
  }

  lemma NothingRead(q: seq<byte>, tail: seq<byte>, fs: seq<Frame>)
    requires q + (Flatten([]) + tail) == EncodeAll(fs)
    ensures Reads(Decoded([], q), 0, q, [], tail, fs)
  {
    DropNone(fs);
    NilUnit(q);
    NilUnit(tail);
  }

  /** A first read that consumed `c` frames, then the others. */
  lemma ReadsCons(later: Decoded, m: nat, q: seq<byte>, chunks: Chunks, tail: seq<byte>, fs: seq<Frame>, c: nat,
                  rest: seq<byte>, d: Decoded, n: nat)
    requires chunks != [] && c <= |fs| && q + (Flatten(chunks) + tail) == EncodeAll(fs)
    requires rest + (Flatten(chunks[1..]) + tail) == EncodeAll(fs[c..])
    requires Reads(later, m, rest, chunks[1..], tail, fs[c..])
    requires d == Decoded(Visible(fs[..c]) + later.frames, later.rest) && n == c + m
    ensures Reads(d, n, q, chunks, tail, fs)
  {
    var b, more := q + chunks[0], Flatten(chunks[1..]);
    Shift(q, chunks, tail);
    VisibleJoin(fs, c, m, n);
    Reassemble(fs, c, m, n, rest, b, later.rest, more, tail);
    Regroup(q, chunks[0], more);
  }

  lemma VisibleJoin(fs: seq<Frame>, c: nat, m: nat, n: nat)
    requires n == c + m <= |fs|
    ensures Visible(fs[..c]) + Visible(fs[c..][..m]) == Visible(fs[..n])
  {
    SliceJoin(fs, c, m);
    VisibleAppend(fs[..c], fs[c..][..m]);
  }

  lemma Reassemble(fs: seq<Frame>, c: nat, m: nat, n: nat, r: seq<byte>, b: seq<byte>, rest: seq<byte>, more: seq<byte>, tail: seq<byte>)
    requires n == c + m <= |fs|
    requires b + (more + tail) == EncodeAll(fs) && r + (more + tail) == EncodeAll(fs[c..])
    requires EncodeAll(fs[c..][..m]) + rest == r + more && rest + tail == EncodeAll(fs[c..][m..])
    ensures EncodeAll(fs[..n]) + rest == b + more && rest + tail == EncodeAll(fs[n..])
  {
    EncodeAllSplit(fs, c);
    EncodeAllJoin(fs, c, m, n);
    Chain(EncodeAll(fs[..c]), EncodeAll(fs[c..][..m]), rest, r, more, b, tail);
  }

  lemma EncodeAllJoin(fs: seq<Frame>, c: nat, m: nat, n: nat)
    requires n == c + m <= |fs|
    ensures EncodeAll(fs[..c]) + EncodeAll(fs[c..][..m]) == EncodeAll(fs[..n])
    ensures EncodeAll(fs[c..][m..]) == EncodeAll(fs[n..])
  {
    SliceJoin(fs, c, m);
    EncodeAllAppend(fs[..c], fs[c..][..m]);
  }

  lemma Chain(x: seq<byte>, y: seq<byte>, rest: seq<byte>, r: seq<byte>, more: seq<byte>, b: seq<byte>, tail: seq<byte>)
    requires y + rest == r + more && b + (more + tail) == x + (r + (more + tail))
    ensures x + y + rest == b + more
  {
    CancelTail(x, r, b, more + tail);
    Regroup(x, y, rest);
    Regroup(x, r, more);
  }

  /** A reader with no byte left has consumed all the frames that were sent, and the other way round. */
  lemma ReadToTheEnd(d: Decoded, n: nat, chunks: Chunks, fs: seq<Frame>)
    requires Reads(d, n, [], chunks, [], fs)
    ensures d == Decoded(Visible(fs), []) <==> n == |fs|
    ensures d.rest == [] <==> n == |fs|
  {
    NilUnit(d.rest);
    if n == |fs| {
      assert fs[..n] == fs;
    } else {
      DropNext(fs, n);
    }
  }

  lemma CancelTail(a: seq<byte>, r: seq<byte>, c: seq<byte>, tail: seq<byte>)
    requires a + (r + tail) == c + tail
    ensures a + r == c
  {
    Regroup(a, r, tail);
    assert a + r == (a + r + tail)[..|c|] && c == (c + tail)[..|c|];
  }

  /**
   * The client's decoding is safe under every chunking of every prefix of a stream that fits: it has
   * consumed a prefix of the frames sent, at most one a read, it has delivered those of them that are
   * not empty, and re-encoding them in front of the unread bytes gives back all that was received.
   */
  lemma {:induction false} ClientDecodingSafe(q: seq<byte>, chunks: Chunks, tail: seq<byte>, fs: seq<Frame>)
    requires q + (Flatten(chunks) + tail) == EncodeAll(fs) && AllFit(fs)
    ensures Consumed(q, chunks) <= |chunks|
    ensures Reads(Receive(q, chunks), Consumed(q, chunks), q, chunks, tail, fs)
    decreases |chunks|
  {
    if chunks == [] {
      NothingRead(q, tail, fs);
    } else {
      var k, rest := FirstRead(q, chunks, tail, fs);
      ClientDecodingSafe(rest, chunks[1..], tail, fs[k..]);
      ReadsCons(Receive(rest, chunks[1..]), Consumed(rest, chunks[1..]), q, chunks, tail, fs, k, rest,
                Receive(q, chunks), Consumed(q, chunks));
    }
  }

  /** Frames whole after the first `j` reads, counting the bytes already buffered. */
  function Arrived(fs: seq<Frame>, q: seq<byte>, chunks: Chunks, j: nat): nat
    requires j <= |chunks|
  {
    Whole(fs, |q| + |Flatten(chunks[..j])|)
  }

  lemma ArrivedFirst(fs: seq<Frame>, q: seq<byte>, chunks: Chunks)
    requires chunks != []
    ensures Arrived(fs, q, chunks, 0) == Whole(fs, |q|)
    ensures Arrived(fs, q, chunks, 1) == Whole(fs, |q + chunks[0]|)
  {
    assert chunks[..1] == [chunks[0]];
    assert Flatten(chunks[..1]) == chunks[0] + Flatten(chunks[..1][1..]) == chunks[0];
  }

  lemma ArrivedTail(q: seq<byte>, chunks: Chunks, fs: seq<Frame>, k: nat, rest: seq<byte>, j: nat)
    requires 1 <= j <= |chunks| && k <= |fs|
    requires |q| + |chunks[0]| == |EncodeAll(fs[..k])| + |rest|
    ensures Arrived(fs, q, chunks, j) == k + Arrived(fs[k..], rest, chunks[1..], j - 1)
  {
    assert chunks[..j][1..] == chunks[1..][..j - 1] && chunks[..j][0] == chunks[0];
    Shift([], chunks[..j], []);
    WholeAfter(fs, k, |q| + |Flatten(chunks[..j])|);
  }

  /** The delivery of a client after `n` reads is bounded by every earlier arrival plus one a read since. */
  predicate Bounded(d: nat, fs: seq<Frame>, q: seq<byte>, chunks: Chunks, j: nat)
    requires j <= |chunks|
  {
    d <= Arrived(fs, q, chunks, j) + (|chunks| - j)
  }

  predicate Tight(d: nat, fs: seq<Frame>, q: seq<byte>, chunks: Chunks, j: nat)
    requires j <= |chunks|
  {
    d == Arrived(fs, q, chunks, j) + (|chunks| - j)
  }

  lemma Lengths(c: seq<byte>, rest: seq<byte>, tail: seq<byte>, fs: seq<Frame>, k: nat)
    requires k <= |fs| && c + tail == EncodeAll(fs) && rest + tail == EncodeAll(fs[k..])
    ensures |c| == |EncodeAll(fs[..k])| + |rest|
  {
    EncodeAllSplit(fs, k);
  }

  lemma BoundedCons(q: seq<byte>, chunks: Chunks, fs: seq<Frame>, k: nat, rest: seq<byte>, d: nat, all: nat)
    requires all == k + d && chunks != [] && k <= |fs| && k <= Arrived(fs, q, chunks, 1)
    requires |q| + |chunks[0]| == |EncodeAll(fs[..k])| + |rest|
    requires d <= |chunks| - 1
    requires forall j :: 1 <= j <= |chunks| - 1 ==> Bounded(d, fs[k..], rest, chunks[1..], j)
    ensures forall j :: 1 <= j <= |chunks| ==> Bounded(all, fs, q, chunks, j)
  {
    forall j | 1 <= j <= |chunks|
      ensures Bounded(all, fs, q, chunks, j)
    {
      ArrivedTail(q, chunks, fs, k, rest, j);
      assert j > 1 ==> Bounded(d, fs[k..], rest, chunks[1..], j - 1);
    }
  }

  /** What the first of several reads does to the stream and to the count. */
  lemma FirstRead(q: seq<byte>, chunks: Chunks, tail: seq<byte>, fs: seq<Frame>) returns (k: nat, rest: seq<byte>)
    requires chunks != [] && q + (Flatten(chunks) + tail) == EncodeAll(fs) && AllFit(fs)
    ensures k <= |fs| && AllFit(fs[k..]) && rest + (Flatten(chunks[1..]) + tail) == EncodeAll(fs[k..])
    ensures k == if Arrived(fs, q, chunks, 1) > 0 then 1 else 0
    ensures Receive(q, chunks) == Decoded(Visible(fs[..k]) + Receive(rest, chunks[1..]).frames, Receive(rest, chunks[1..]).rest)
    ensures Consumed(q, chunks) == k + Consumed(rest, chunks[1..])
    ensures |q| + |chunks[0]| == |EncodeAll(fs[..k])| + |rest|
  {
    var c, after := q + chunks[0], Flatten(chunks[1..]) + tail;
    Shift(q, chunks, tail);
    k := TakeOneFront(c, after, fs);
    rest := TakeOne(c).rest;
    ArrivedFirst(fs, q, chunks);
    Lengths(c, rest, after, fs, k);
  }

  /** After all the reads: every bound holds, and one of them, or one frame a read, is met. */
  ghost predicate LagIs(d: nat, fs: seq<Frame>, q: seq<byte>, chunks: Chunks, tight: nat) {
    && tight <= |chunks| && d <= |chunks|
    && (forall j :: 1 <= j <= |chunks| ==> Bounded(d, fs, q, chunks, j))
    && (if tight == 0 then d == |chunks| else Tight(d, fs, q, chunks, tight))
  }

  lemma LagCons(q: seq<byte>, chunks: Chunks, fs: seq<Frame>, k: nat, rest: seq<byte>, d: nat, t: nat, all: nat) returns (tight: nat)
    requires all == k + d && chunks != [] && k <= |fs| && k == (if Arrived(fs, q, chunks, 1) > 0 then 1 else 0)
    requires |q| + |chunks[0]| == |EncodeAll(fs[..k])| + |rest|
    requires LagIs(d, fs[k..], rest, chunks[1..], t)
    ensures LagIs(all, fs, q, chunks, tight)
  {
    BoundedCons(q, chunks, fs, k, rest, d, all);
    tight := if t > 0 then t + 1 else if k == 0 then 1 else 0;
    if t > 0 {
      ArrivedTail(q, chunks, fs, k, rest, tight);
    }
  }

  lemma {:induction false} ClientLagFrom(q: seq<byte>, chunks: Chunks, tail: seq<byte>, fs: seq<Frame>) returns (tight: nat)
    requires q + (Flatten(chunks) + tail) == EncodeAll(fs) && AllFit(fs)
    ensures LagIs(Consumed(q, chunks), fs, q, chunks, tight)
    decreases |chunks|
  {
    tight := 0;
    if chunks != [] {
      var k, rest := FirstRead(q, chunks, tail, fs);
      var t := ClientLagFrom(rest, chunks[1..], tail, fs[k..]);
      tight := LagCons(q, chunks, fs, k, rest, Consumed(rest, chunks[1..]), t, Consumed(q, chunks));
    }
  }

  /** `d` is the least, over all points `j` of the reads, of the frames arrived by then plus one for each read since. */
  ghost predicate Lags(d: nat, fs: seq<Frame>, chunks: Chunks) {
    && (forall j :: 0 <= j <= |chunks| ==> Bounded(d, fs, [], chunks, j))
    && (exists j :: 0 <= j <= |chunks| && Tight(d, fs, [], chunks, j))
  }

  /** How far a client that takes one frame a read has got. */
  lemma ClientLag(chunks: Chunks, tail: seq<byte>, fs: seq<Frame>)
    requires Flatten(chunks) + tail == EncodeAll(fs) && AllFit(fs)
    ensures Lags(Consumed([], chunks), fs, chunks)
  {
    NilUnit(Flatten(chunks) + tail);
    var t := ClientLagFrom([], chunks, tail, fs);
    LagFromStart(Consumed([], chunks), fs, chunks, t);
  }

  lemma LagFromStart(d: nat, fs: seq<Frame>, chunks: Chunks, t: nat)
    requires LagIs(d, fs, [], chunks, t)
    ensures Lags(d, fs, chunks)
  {
    assert Arrived(fs, [], chunks, 0) == 0;
    assert Bounded(d, fs, [], chunks, 0) && Tight(d, fs, [], chunks, t);
  }

  /** No point of the run was too far behind for the reads that were left. */
  predicate KeepsUp(chunks: Chunks, fs: seq<Frame>) {
    forall j :: 0 <= j <= |chunks| ==> Bounded(|fs|, fs, [], chunks, j)
  }

  /**
   * The client has delivered all of a stream that it can ever see, and holds no byte, exactly when it
   * kept up; and that is the whole stream exactly when, besides, no payload was empty.
   */
  lemma ClientCatchesUp(chunks: Chunks, fs: seq<Frame>)
    requires Flatten(chunks) == EncodeAll(fs) && AllFit(fs)
    ensures Receive([], chunks) == Decoded(Visible(fs), []) <==> KeepsUp(chunks, fs)
    ensures Receive([], chunks) == Decoded(fs, []) <==> AllGood(fs) && KeepsUp(chunks, fs)
  {
    CompleteByCount(chunks, fs);
    KeepsUpByCount(chunks, fs);
    if AllGood(fs) {
      VisibleGood(fs);
    }
  }

  lemma KeepsUpByCount(chunks: Chunks, fs: seq<Frame>)
    requires Flatten(chunks) == EncodeAll(fs) && AllFit(fs) && Consumed([], chunks) <= |fs|
    ensures Consumed([], chunks) == |fs| <==> KeepsUp(chunks, fs)
  {
    NilUnit(Flatten(chunks));
    ClientLag(chunks, [], fs);
    var d := Consumed([], chunks);
    if KeepsUp(chunks, fs) {
      var j :| 0 <= j <= |chunks| && Tight(d, fs, [], chunks, j);
      TightBounds(d, |fs|, fs, chunks, j);
    }
  }

  lemma TightBounds(d: nat, n: nat, fs: seq<Frame>, chunks: Chunks, j: nat)
    requires j <= |chunks| && Tight(d, fs, [], chunks, j) && Bounded(n, fs, [], chunks, j)
    ensures n <= d
  {
  }

  lemma CompleteByCount(chunks: Chunks, fs: seq<Frame>)
    requires Flatten(chunks) == EncodeAll(fs) && AllFit(fs)
    ensures Consumed([], chunks) <= |fs|
    ensures Receive([], chunks) == Decoded(Visible(fs), []) <==> Consumed([], chunks) == |fs|
    ensures Receive([], chunks).rest == [] <==> Consumed([], chunks) == |fs|
  {
    NilUnit(Flatten(chunks));
    NilUnit(Flatten(chunks) + []);
    ClientDecodingSafe([], chunks, [], fs);
    ReadToTheEnd(Receive([], chunks), Consumed([], chunks), chunks, fs);
  }
}
