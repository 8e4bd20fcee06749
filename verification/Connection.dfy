/** Decoding in place from a Buffer, and the two directions of a TcpConnection. */
module Connections {
  import opened Sequences
  import opened Bytes
  import opened Buffers
  import opened Codec
  import Stream

  /** The length field at the front of the buffer, through the host's byte order. */
  method PeekLength(order: Endian, buf: Buffer) returns (len: int32)
    requires buf.Valid() && |buf.Contents()| >= 4
    ensures len == WrapInt32(FromBig(buf.Contents()[..4]))
  {
    var head := buf.Peek(4);
    NtohlReadsNetworkOrder(order, head);
    len := WrapInt32(Htonl(order, HostValue(order, head)));
  }

  /** The id behind the length field. */
  method PeekId(order: Endian, buf: Buffer) returns (id: uint64)
    requires buf.Valid() && |buf.Contents()| >= ID_SIZE
    ensures id == FromBig(buf.Contents()[..ID_SIZE])
  {
    var netId := buf.Peek(ID_SIZE);
    NtohllReadsNetworkOrder(order, netId);
    id := Htonll(order, HostValue(order, netId));
  }

  /** The id and payload behind the length field, which has been consumed. */
  method TakeBody(order: Endian, buf: Buffer, len: nat) returns (data: seq<byte>, id: uint64)
    requires buf.Valid() && ID_SIZE <= len <= |buf.Contents()|
    modifies buf`readIndex, buf`writeIndex
    ensures buf.Valid()
    ensures data == old(buf.Contents())[ID_SIZE..len] && buf.Contents() == old(buf.Contents())[len..]
    ensures id == FromBig(old(buf.Contents())[..ID_SIZE])
  {
    id := PeekId(order, buf);
    ghost var q := buf.Contents();
    Slice(q, ID_SIZE, len);
    buf.Retrieve(ID_SIZE);
    assert buf.Contents() == q[ID_SIZE..];
    data := buf.RetrieveAsString(len - ID_SIZE);
  }

  lemma Slice(q: seq<byte>, a: nat, b: nat)
    requires a <= b <= |q|
    ensures q[a..][..b - a] == q[a..b] && q[a..][b - a..] == q[b..]
  {
  }

  lemma Slices(q: seq<byte>, len: nat)
    requires 4 + len <= |q| && ID_SIZE <= len
    ensures q[4..][ID_SIZE..len] == q[HEADER_SIZE..4 + len] && q[4..][len..] == q[4 + len..]
    ensures q[4..][..ID_SIZE] == q[4..HEADER_SIZE]
  {
  }

  /** `tryUnpackWithId`: the buffer is consumed in place and the id goes out by reference. */
  method TryUnpackWithId(order: Endian, buf: Buffer, id0: uint64) returns (data: seq<byte>, id: uint64)
    requires buf.Valid()
    modifies buf`readIndex, buf`writeIndex
    ensures buf.Valid()
    ensures Unpacked(data, id, buf.Contents()) == UnpackWithId(old(buf.Contents()), id0)
  {
    data, id := [], id0;
    var readable := buf.ReadableBytes();
    if readable < 4 {
      return;
    }
    var len := PeekLength(order, buf);
    if len < 0 || len > MAX_LENGTH {
      buf.RetrieveAll();
      id := 0;
      return;
    }
    if readable < 4 + len {
      return;
    }
    buf.Retrieve(4);
    if len < ID_SIZE {
      buf.RetrieveAll();
      id := 0;
      return;
    }
    data, id := TakeBody(order, buf, len);
    Slices(old(buf.Contents()), len);
  }

  /** `tryUnpack`, the decoder without an id. */
  method TryUnpack(order: Endian, buf: Buffer) returns (data: seq<byte>)
    requires buf.Valid()
    modifies buf`readIndex, buf`writeIndex
    ensures buf.Valid()
    ensures Plain(data, buf.Contents()) == Unpack(old(buf.Contents()))
  {
    ghost var q := buf.Contents();
    data := [];
    var readable := buf.ReadableBytes();
    if readable < 4 {
      return;
    }
    var len := PeekLength(order, buf);
    if len < 0 || len > MAX_LENGTH {
      buf.RetrieveAll();
      return;
    }
    if readable < 4 + len {
      return;
    }
    buf.Retrieve(4);
    assert len > 0 ==> buf.Contents() == q[4..];
    data := buf.RetrieveAsString(len);
    assert data == q[4..4 + len] && buf.Contents() == q[4 + len..];
  }

  /** The rest of a drain, after `frames` have been taken. */
  ghost predicate Resumes(all: Stream.Decoded, frames: seq<Frame>, q: seq<byte>) {
    var d := Stream.Drain(q);
    all == Stream.Decoded(frames + d.frames, d.rest)
  }

  lemma ResumeAfter(all: Stream.Decoded, frames: seq<Frame>, q: seq<byte>, u: Unpacked)
    requires Resumes(all, frames, q) && u == UnpackWithId(q, 0) && 0 <= u.id < TWO64
    ensures u.data == [] ==> all == Stream.Decoded(frames, u.rest)
    ensures u.data != [] ==> Resumes(all, frames + [Frame(u.id, u.data)], u.rest)
  {
  }

  /** The server's `onMessage` loop; each turn that yields a frame consumes at least 13 bytes. */
  method DrainBuffer(order: Endian, buf: Buffer) returns (frames: seq<Frame>)
    requires buf.Valid()
    modifies buf`readIndex, buf`writeIndex
    ensures buf.Valid()
    ensures Stream.Decoded(frames, buf.Contents()) == Stream.Drain(old(buf.Contents()))
  {
    frames := [];
    ghost var all := Stream.Drain(buf.Contents());
    while true
      invariant buf.Valid()
      invariant Resumes(all, frames, buf.Contents())
      decreases |buf.Contents()|
    {
      ghost var q := buf.Contents();
      var data, id := TryUnpackWithId(order, buf, 0);
      ResumeAfter(all, frames, q, Unpacked(data, id, buf.Contents()));
      if data == [] {
        return;
      }
      frames := frames + [Frame(id, data)];
    }
  }

  /** One turn of the client's `onRpcResponse`: a single decode, whatever else is buffered. */
  method TakeFromBuffer(order: Endian, buf: Buffer) returns (frames: seq<Frame>)
    requires buf.Valid()
    modifies buf`readIndex, buf`writeIndex
    ensures buf.Valid()
    ensures Stream.Decoded(frames, buf.Contents()) == Stream.TakeOne(old(buf.Contents()))
  {
    var data, id := TryUnpackWithId(order, buf, 0);
    frames := if data == [] then [] else [Frame(id, data)];
  }

  datatype ReadEvent = Message | Closed | Retry

  class TcpConnection {
    const inputBuffer: Buffer
    const outputBuffer: Buffer
    var writing: bool                // EPOLLOUT interest of the channel
    ghost var wire: seq<byte>        // all bytes the socket has accepted
    ghost var submitted: seq<byte>   // all messages given to Send, concatenated

    ghost predicate Valid()
      reads this, inputBuffer, outputBuffer, inputBuffer.store, outputBuffer.store
    {
      && inputBuffer != outputBuffer && inputBuffer.store != outputBuffer.store
      && inputBuffer.Valid() && outputBuffer.Valid()
      && wire + outputBuffer.Contents() == submitted
      && (outputBuffer.Contents() != [] ==> writing)
    }

    constructor ()
      ensures Valid() && fresh({inputBuffer, outputBuffer}) && fresh({inputBuffer.store, outputBuffer.store})
      ensures inputBuffer.Contents() == [] && submitted == [] && !writing
    {
      inputBuffer := new Buffer(INITIAL_SIZE);
      outputBuffer := new Buffer(INITIAL_SIZE);
      writing := false;
      wire := [];
      submitted := [];
    }

    /** Bytes that must wait for the socket. */
    method Queue(data: seq<byte>)
      requires inputBuffer != outputBuffer && inputBuffer.store != outputBuffer.store
      requires inputBuffer.Valid() && outputBuffer.Valid()
      modifies this`writing, outputBuffer, outputBuffer.store
      ensures inputBuffer.store != outputBuffer.store && inputBuffer.Valid() && outputBuffer.Valid()
      ensures outputBuffer.store == old(outputBuffer.store) || fresh(outputBuffer.store)
      ensures inputBuffer.Contents() == old(inputBuffer.Contents())
      ensures outputBuffer.Contents() == old(outputBuffer.Contents()) + data && writing
    {
      outputBuffer.Append(data);
      writing := true;
    }

    /**
     * `send`; `wrote` is what `write` would return for the whole message: -1, or a byte count.
     * Every byte of the message is on the wire or queued behind what was queued before.
     */
    method Send(msg: seq<byte>, wrote: int)
      requires Valid() && -1 <= wrote <= |msg|
      modifies this`writing, this`wire, this`submitted, outputBuffer, outputBuffer.store
      ensures Valid() && (outputBuffer.store == old(outputBuffer.store) || fresh(outputBuffer.store))
      ensures submitted == old(submitted) + msg
      ensures old(wire) <= wire
      ensures |wire| == |old(wire)| + (if old(outputBuffer.Contents()) == [] && wrote > 0 then wrote else 0)
      ensures writing <==> old(writing) || msg == [] || outputBuffer.Contents() != []
      ensures inputBuffer.Contents() == old(inputBuffer.Contents())
    {
      ghost var queued := outputBuffer.Contents();
      var pending := outputBuffer.ReadableBytes();
      if pending == 0 && |msg| > 0 && wrote >= 0 {
        if wrote < |msg| {
          Queue(msg[wrote..]);
        }
        Transfer(wire, queued, msg, wrote);
        wire := wire + msg[..wrote];
        submitted := submitted + msg;
        return;
      }
      Queue(msg);
      Regroup(wire, queued, msg);
      submitted := submitted + msg;
    }

    /** `handleWrite`; `wrote` is what `write` would return for the queued bytes. */
    method HandleWrite(wrote: int)
      requires Valid() && -1 <= wrote <= |outputBuffer.Contents()|
      modifies this`writing, this`wire, outputBuffer`readIndex, outputBuffer`writeIndex
      ensures Valid() && submitted == old(submitted)
      ensures old(wire) <= wire && |wire| == |old(wire)| + (if wrote > 0 then wrote else 0)
      ensures outputBuffer.Contents() == [] ==> !writing
    {
      var pending := outputBuffer.ReadableBytes();
      if pending > 0 {
        if wrote > 0 {
          ghost var queued := outputBuffer.Contents();
          outputBuffer.Retrieve(wrote);
          assert outputBuffer.Contents() == queued[wrote..];
          MoveFront(wire, queued, wrote);
          wire := wire + queued[..wrote];
          var left := outputBuffer.ReadableBytes();
          if left == 0 {
            writing := false;
          }
        }
      } else {
        writing := false;
      }
    }

    /** `handleRead` with the server's message callback; `wouldBlock` is an errno of EAGAIN or EWOULDBLOCK. */
    method HandleRead(order: Endian, arrived: Option<seq<byte>>, wouldBlock: bool)
      returns (frames: seq<Frame>, event: ReadEvent)
      requires Valid()
      requires arrived.Some? ==> |arrived.value| <= inputBuffer.store.Length - inputBuffer.writeIndex + EXTRA_SIZE
      modifies inputBuffer, inputBuffer.store
      ensures Valid() && (inputBuffer.store == old(inputBuffer.store) || fresh(inputBuffer.store))
      ensures arrived.Some? && arrived.value != [] ==>
                event == Message
                && Stream.Decoded(frames, inputBuffer.Contents()) == Stream.Drain(old(inputBuffer.Contents()) + arrived.value)
      ensures arrived == Some([]) ==> event == Closed && frames == [] && inputBuffer.Contents() == old(inputBuffer.Contents())
      ensures arrived.None? ==> event == (if wouldBlock then Retry else Closed) && frames == [] && inputBuffer.Contents() == old(inputBuffer.Contents())
    {
      frames := [];
      var n := inputBuffer.ReadFd(arrived);
      if n > 0 {
        frames := DrainBuffer(order, inputBuffer);
        event := Message;
      } else if n == 0 {
        event := Closed;
      } else {
        event := if wouldBlock then Retry else Closed;
      }
    }
  }

  lemma Transfer(wire: seq<byte>, queued: seq<byte>, msg: seq<byte>, n: nat)
    requires queued == [] && n <= |msg|
    ensures wire + msg[..n] + msg[n..] == wire + queued + msg
    ensures n == |msg| ==> wire + msg[..n] + queued == wire + queued + msg
    ensures n < |msg| ==> queued + msg[n..] == msg[n..]
  {
  }

}
