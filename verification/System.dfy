/**
 * One client channel, its connections, and a server at the far end of each: byte streams cut
 * anywhere, workers that dispatch in any order, other clients that may send the servers anything.
 */
module System {
  import opened Sequences
  import opened Bytes
  import opened Codec
  import opened Messages
  import Stream
  import Server
  import Client

  /**
   * Request and response encoding, which requests the client may send, and which response the servers
   * may give to a request of this channel; what they answer other clients is left open.
   */
  datatype Protocol = Protocol(
    writeRequest: RpcRequest -> seq<byte>,
    parseRequest: seq<byte> -> Option<RpcRequest>,
    writeResponse: RpcResponse -> seq<byte>,
    parseResponse: seq<byte> -> Option<RpcResponse>,
    sendable: RpcRequest -> bool,
    answers: (RpcRequest, RpcResponse) -> bool)

  /** Requests come through as sent. */
  ghost predicate RequestsSound(p: Protocol) {
    forall q :: p.sendable(q) ==> p.parseRequest(p.writeRequest(q)) == Some(q) && Good(Frame(0, p.writeRequest(q)))
  }

  /** A response comes through as sent or not at all. */
  ghost predicate ResponsesSound(p: Protocol) {
    forall r :: p.parseResponse(p.writeResponse(r)).Some? ==> p.parseResponse(p.writeResponse(r)) == Some(r)
  }

  /** And no reply to this channel is over the decoder's cap. */
  ghost predicate Sound(p: Protocol) {
    && RequestsSound(p) && ResponsesSound(p)
    && (forall q, r :: p.answers(q, r) ==> Fits(Frame(0, p.writeResponse(r))))
  }

  function ServerFormat(p: Protocol): Server.Format { Server.Format(p.parseRequest, p.writeResponse) }

  /** A connection of the channel (number 0 of its server), seen from both ends. */
  datatype Node = Node(
    server: Server.State,
    c2s: seq<byte>,          // bytes on their way to the server
    sent: seq<Frame>,        // history: the frames the client sent here
    inbox: seq<byte>,        // the client's input buffer
    taken: nat)              // history: how many reply frames the client has consumed

  datatype Origin = Origin(node: nat, index: nat)

  datatype State = State(
    client: Client.State,
    nodes: seq<Node>,
    origin: map<nat, Origin>)   // history: where each id was sent

  datatype Step =
    | ClientStep(move: Client.Step)
    | ClientSend(call: nat)
    | ServerStep(node: nat, turn: Server.Step)
    | DeliverRequest(node: nat, count: nat)
    | DeliverReply(node: nat, count: nat)

  function NewNode(conns: nat, threads: nat): Node { Node(Server.Init(conns + 1, threads), [], [], [], 0) }

  function Init(nodes: nat, conns: nat, threads: nat): State {
    State(Client.Init(), seq(nodes, _ => NewNode(conns, threads)), map[])
  }

  predicate ClientStepEnabled(p: Protocol, s: State, step: Client.Step) {
    && Client.Enabled(s.client, step) && !step.Send? && !step.Receive?
    && (step.Begin? ==> p.sendable(step.request))
    && (step.Issue? ==> step.conn < |s.nodes|)
  }

  /** Anything the server does, on any of its connections, except moving bytes of connection 0. */
  predicate ServerStepEnabled(p: Protocol, n: Node, step: Server.Step) {
    && Server.Enabled(n.server, step)
    && !(step.Receive? && step.conn == 0) && !(step.Transmit? && step.conn == 0)
    && (step.Dispatch? ==> AnswerOk(p, Server.Reply(n.server.pool.workers[step.worker].task, step.response)))
  }

  predicate AnswerOk(p: Protocol, r: Server.Reply) { r.job.conn == 0 ==> p.answers(r.job.request, r.response) }

  predicate Sending(s: State, c: nat) {
    c < |s.client.calls| && s.client.calls[c].pc.Registered?
    && s.client.calls[c].pc.conn < |s.nodes| && s.client.calls[c].pc.id < TWO64
  }

  predicate Enabled(p: Protocol, s: State, step: Step) {
    match step
    case ClientStep(move) => ClientStepEnabled(p, s, move)
    case ClientSend(c) => Sending(s, c)
    case ServerStep(n, turn) => n < |s.nodes| && ServerStepEnabled(p, s.nodes[n], turn)
    case DeliverRequest(n, k) =>
      n < |s.nodes| && 0 < k <= |s.nodes[n].c2s|
      && Server.Enabled(s.nodes[n].server, Server.Receive(0, s.nodes[n].c2s[..k]))
    case DeliverReply(n, k) =>
      n < |s.nodes| && 0 < k && Server.Enabled(s.nodes[n].server, Server.Transmit(0, k)) && s.client.loopPc.Idle?
  }

  function NodeSend(n: Node, f: Frame): Node { n.(c2s := n.c2s + Encode(f), sent := n.sent + [f]) }

  function NodeServer(p: Protocol, n: Node, step: Server.Step): Node
    requires Server.Enabled(n.server, step)
  {
    n.(server := Server.Apply(ServerFormat(p), n.server, step))
  }

  function NodeDeliver(p: Protocol, n: Node, k: nat): Node
    requires k <= |n.c2s| && Server.Enabled(n.server, Server.Receive(0, n.c2s[..k]))
  {
    NodeServer(p, n, Server.Receive(0, n.c2s[..k])).(c2s := n.c2s[k..])
  }

  /** The client reads `k` bytes and decodes once, whatever else its buffer holds. */
  function Fetch(n: Node, k: nat): (u: Unpacked)
    requires Server.Enabled(n.server, Server.Transmit(0, k))
  {
    UnpackWithId(n.inbox + n.server.conns[0].outbox[..k], 0)
  }

  function NodeFetch(p: Protocol, n: Node, k: nat): Node
    requires Server.Enabled(n.server, Server.Transmit(0, k))
  {
    var u := Fetch(n, k);
    NodeServer(p, n, Server.Transmit(0, k))
      .(inbox := u.rest, taken := if |u.rest| < |n.inbox| + k then n.taken + 1 else n.taken)
  }

  function Apply(p: Protocol, s: State, step: Step): State
    requires Enabled(p, s, step)
  {
    match step
    case ClientStep(move) => s.(client := Client.Apply(s.client, move))
    case ClientSend(c) =>
      var call := s.client.calls[c];
      var id, n := call.pc.id, call.pc.conn;
      s.(client := Client.Apply(s.client, Client.Send(c)),
         nodes := s.nodes[n := NodeSend(s.nodes[n], Frame(id, p.writeRequest(call.request)))],
         origin := s.origin[id := Origin(n, |s.nodes[n].sent|)])
    case ServerStep(n, turn) => s.(nodes := s.nodes[n := NodeServer(p, s.nodes[n], turn)])
    case DeliverRequest(n, k) => s.(nodes := s.nodes[n := NodeDeliver(p, s.nodes[n], k)])
    case DeliverReply(n, k) =>
      var u := Fetch(s.nodes[n], k);
      var s' := s.(nodes := s.nodes[n := NodeFetch(p, s.nodes[n], k)]);
      if u.data == [] then s' else
      match p.parseResponse(u.data)
      case None => s'
      case Some(response) => s'.(client := Client.Apply(s.client, Client.Receive(u.id, response)))
  }

  // ---- One node

  function Decoded(n: Node): seq<Frame>
    requires n.server.conns != []
  {
    n.server.conns[0].decoded
  }

  function Replies(n: Node): seq<Frame>
    requires n.server.conns != []
  {
    Server.Frames(n.server.conns[0].sent)
  }

  /** Requests: the server has decoded a prefix of what was sent, and holds or awaits exactly the rest. */
  ghost predicate RequestsInOrder(n: Node)
    requires n.server.conns != []
  {
    && Decoded(n) <= n.sent
    && n.server.conns[0].inbox + n.c2s == EncodeAll(n.sent[|Decoded(n)|..])
  }

  /** Between reads, what is buffered is not yet a whole frame. */
  ghost predicate Drained(n: Node)
    requires n.server.conns != []
  {
    n.server.draining != Some(0) && |Decoded(n)| < |n.sent| ==>
      |n.server.conns[0].inbox| < |Encode(n.sent[|Decoded(n)|])|
  }

  /** Replies: the client has consumed a prefix of what was sent, and holds or awaits exactly the rest. */
  ghost predicate RepliesInOrder(n: Node)
    requires n.server.conns != []
  {
    && n.taken <= |Replies(n)|
    && n.inbox + n.server.conns[0].outbox == EncodeAll(Replies(n)[n.taken..])
  }

  ghost predicate AllAnswers(p: Protocol, rs: seq<Server.Reply>) {
    forall i :: 0 <= i < |rs| ==> AnswerOk(p, rs[i])
  }

  ghost predicate AllParse(p: Protocol, fs: seq<Frame>) {
    forall i :: 0 <= i < |fs| ==> p.parseRequest(fs[i].payload).Some?
  }

  ghost predicate NodeInv(p: Protocol, n: Node) {
    && n.server.conns != [] && |n.server.pool.workers| > 0
    && Server.Inv(ServerFormat(p), n.server)
    && AllAnswers(p, n.server.loop.posted)
    && AllGood(n.sent) && AllParse(p, n.sent)
    && RequestsInOrder(n) && Drained(n) && RepliesInOrder(n)
  }

  /** What an executed reply says about the request that was sent. */
  lemma ExecutedJob(p: Protocol, n: Node, r: Server.Reply)
    requires NodeInv(p, n) && r in n.server.loop.executed
    ensures r.job in n.server.pool.pushed && Server.JobOk(ServerFormat(p), n.server, r.job)
  {
    Server.ExecutedPushed(n.server, r);
    assert Server.JobOk(ServerFormat(p), n.server, r.job);
  }

  /** No request of this channel is unparseable, so all its replies come from dispatched jobs. */
  lemma ReplyIsDispatched(p: Protocol, n: Node, k: nat)
    requires NodeInv(p, n) && k < |Replies(n)|
    ensures var x := n.server.conns[0].sent[k];
            && x.cause.Dispatched? && x.cause.reply in n.server.loop.executed && x.cause.reply.job.conn == 0
            && Replies(n)[k] == Frame(x.cause.reply.job.id, p.writeResponse(x.cause.reply.response))
  {
    var fmt := ServerFormat(p);
    assert Server.ConnOk(fmt, n.server, 0);
    var x := n.server.conns[0].sent[k];
    assert Server.SentOk(fmt, n.server, 0, x);
  }

  lemma RepliesFit(p: Protocol, n: Node)
    requires Sound(p) && NodeInv(p, n)
    ensures AllFit(Replies(n))
  {
    forall k | 0 <= k < |Replies(n)| ensures Fits(Replies(n)[k]) {
      ReplyIsDispatched(p, n, k);
      var r := n.server.conns[0].sent[k].cause.reply;
      ExecutedAnswers(p, n.server, r);
      assert Fits(Frame(0, p.writeResponse(r.response)));
    }
  }

  lemma ExecutedAnswers(p: Protocol, s: Server.State, r: Server.Reply)
    requires Server.Kernels(s) && AllAnswers(p, s.loop.posted) && r in s.loop.executed
    ensures AnswerOk(p, r)
  {
    var i :| 0 <= i < |s.loop.executed| && s.loop.executed[i] == r;
    assert s.loop.posted[i] == r;
  }

  // Streams of frames.

  lemma AppendStream(q: seq<byte>, tail: seq<byte>, fs: seq<Frame>, f: Frame)
    requires q + tail == EncodeAll(fs)
    ensures q + (tail + Encode(f)) == EncodeAll(fs + [f])
  {
    EncodeAllAppend(fs, [f]);
    EncodeAllOne(f);
    Regroup(q, tail, Encode(f));
  }

  lemma NodeSendKept(p: Protocol, n: Node, f: Frame)
    requires NodeInv(p, n) && Good(f) && p.parseRequest(f.payload).Some?
    ensures NodeInv(p, NodeSend(n, f))
  {
    var k := |Decoded(n)|;
    DropAppend(n.sent, k, f);
    AppendStream(n.server.conns[0].inbox, n.c2s, n.sent[k..], f);
    if k == |n.sent| {
      assert |n.server.conns[0].inbox| <= |n.server.conns[0].inbox + n.c2s| == 0;
    }
  }

  lemma NodeDeliverKept(p: Protocol, n: Node, k: nat)
    requires NodeInv(p, n) && k <= |n.c2s| && Server.Enabled(n.server, Server.Receive(0, n.c2s[..k]))
    ensures NodeInv(p, NodeDeliver(p, n, k))
  {
    var step := Server.Receive(0, n.c2s[..k]);
    Server.StepKeepsInv(ServerFormat(p), n.server, step);
    MoveFront(n.server.conns[0].inbox, n.c2s, k);
  }

  /** The next frame sent is what the decoder yields, unless it is not whole yet. */
  lemma NextRequest(q: seq<byte>, tail: seq<byte>, sent: seq<Frame>, k: nat)
    requires k <= |sent| && AllGood(sent) && q + tail == EncodeAll(sent[k..])
    ensures var u := UnpackWithId(q, 0);
            && (u.data == [] ==> u.rest == q && (k < |sent| ==> |q| < |Encode(sent[k])|))
            && (u.data != [] ==> k < |sent| && u.id == sent[k].id && u.data == sent[k].payload
                                 && u.rest + tail == EncodeAll(sent[k + 1..]))
  {
    UnpackFront(q, tail, sent[k..], 0);
    if k < |sent| {
      DropNext(sent, k);
      assert Good(sent[k]);
    }
  }

  /** What a turn of the onMessage loop does to connection 0. */
  lemma DecodeShape(p: Protocol, n: Node)
    requires n.server.conns != [] && Server.Enabled(n.server, Server.Decode) && n.server.draining == Some(0)
    ensures var s', c, u := NodeServer(p, n, Server.Decode).server, n.server.conns[0], UnpackWithId(n.server.conns[0].inbox, 0);
            && s'.conns != [] && s'.conns[0].inbox == u.rest
            && (u.data == [] ==> s'.conns[0].decoded == c.decoded)
            && (u.data != [] ==> 0 <= u.id < TWO64 && s'.conns[0].decoded == c.decoded + [Frame(u.id, u.data)] && s'.draining == Some(0))
  {
    Stream.UnpackedIdInRange(n.server.conns[0].inbox, 0);
  }

  /** The drain loop on connection 0 takes the next frame sent, or stops because it is not whole yet. */
  lemma DecodeKeepsRequests(p: Protocol, n: Node)
    requires n.server.conns != [] && AllGood(n.sent) && RequestsInOrder(n)
    requires Server.Enabled(n.server, Server.Decode) && n.server.draining == Some(0)
    ensures var n' := NodeServer(p, n, Server.Decode);
            n'.server.conns != [] && RequestsInOrder(n') && Drained(n')
  {
    DecodeShape(p, n);
    NextRequest(n.server.conns[0].inbox, n.c2s, n.sent, |Decoded(n)|);
  }

  ghost predicate SameRequests(n: Node, n': Node) {
    && n'.server.conns != [] && n.server.conns != []
    && n'.server.conns[0].decoded == n.server.conns[0].decoded
    && n'.server.conns[0].inbox == n.server.conns[0].inbox
    && (n.server.draining == Some(0) ==> n'.server.draining == Some(0))
  }

  lemma OtherStepKeepsRequests(p: Protocol, n: Node, step: Server.Step)
    requires n.server.conns != [] && ServerStepEnabled(p, n, step)
    requires !(step.Decode? && n.server.draining == Some(0))
    ensures SameRequests(n, NodeServer(p, n, step))
  {
  }

  /** A server step either sends nothing on connection 0 or appends one frame to it. */
  ghost predicate RepliesGrow(c: Server.Conn, c': Server.Conn) {
    || (c'.sent == c.sent && c'.outbox == c.outbox)
    || (exists x :: c'.sent == c.sent + [x] && c'.outbox == c.outbox + Encode(x.frame))
  }

  lemma StepRepliesGrow(p: Protocol, n: Node, step: Server.Step)
    requires n.server.conns != [] && ServerStepEnabled(p, n, step)
    ensures NodeServer(p, n, step).server.conns != []
    ensures RepliesGrow(n.server.conns[0], NodeServer(p, n, step).server.conns[0])
  {
    var c, c' := n.server.conns[0], NodeServer(p, n, step).server.conns[0];
    if |c'.sent| > |c.sent| {
      var x := c'.sent[|c.sent|];
      assert c'.sent == c.sent + [x] && c'.outbox == c.outbox + Encode(x.frame);
    }
  }

  lemma RepliesKept(n: Node, n': Node)
    requires n.server.conns != [] && n'.server.conns != [] && RepliesInOrder(n)
    requires n'.inbox == n.inbox && n'.taken == n.taken
    requires RepliesGrow(n.server.conns[0], n'.server.conns[0])
    ensures RepliesInOrder(n')
  {
    var c, c' := n.server.conns[0], n'.server.conns[0];
    if c'.sent != c.sent || c'.outbox != c.outbox {
      var x :| c'.sent == c.sent + [x] && c'.outbox == c.outbox + Encode(x.frame);
      assert Server.Frames(c.sent + [x]) == Server.Frames(c.sent) + [x.frame];
      DropAppend(Replies(n), n.taken, x.frame);
      AppendStream(n.inbox, c.outbox, Replies(n)[n.taken..], x.frame);
    }
  }

  lemma PostedAnswers(p: Protocol, n: Node, step: Server.Step)
    requires AllAnswers(p, n.server.loop.posted) && ServerStepEnabled(p, n, step)
    ensures AllAnswers(p, NodeServer(p, n, step).server.loop.posted)
  {
  }

  lemma WorkersKept(p: Protocol, n: Node, step: Server.Step)
    requires Server.Kernels(n.server) && Server.Enabled(n.server, step)
    ensures |NodeServer(p, n, step).server.pool.workers| == |n.server.pool.workers|
  {
  }

  lemma NodeServerKept(p: Protocol, n: Node, step: Server.Step)
    requires NodeInv(p, n) && ServerStepEnabled(p, n, step)
    ensures NodeInv(p, NodeServer(p, n, step))
  {
    Server.StepKeepsInv(ServerFormat(p), n.server, step);
    WorkersKept(p, n, step);
    PostedAnswers(p, n, step);
    StepRepliesGrow(p, n, step);
    RepliesKept(n, NodeServer(p, n, step));
    if step.Decode? && n.server.draining == Some(0) {
      DecodeKeepsRequests(p, n);
    } else {
      OtherStepKeepsRequests(p, n, step);
    }
  }

  lemma NodeFetchKept(p: Protocol, n: Node, k: nat)
    requires Sound(p) && NodeInv(p, n) && Server.Enabled(n.server, Server.Transmit(0, k))
    ensures NodeInv(p, NodeFetch(p, n, k))
  {
    Server.StepKeepsInv(ServerFormat(p), n.server, Server.Transmit(0, k));
    FetchFront(p, n, k);
  }

  /** One read by the client takes the next reply frame, or nothing. */
  lemma FetchFront(p: Protocol, n: Node, k: nat)
    requires Sound(p) && NodeInv(p, n) && Server.Enabled(n.server, Server.Transmit(0, k))
    ensures var n', u := NodeFetch(p, n, k), Fetch(n, k);
            && n'.server.conns != [] && RepliesInOrder(n')
            && (n'.taken == n.taken ==> u.data == [])
            && (n'.taken > n.taken ==>
                  n.taken < |Replies(n)| && Replies(n)[n.taken].id == u.id && Replies(n)[n.taken].payload == u.data)
  {
    var out, fs := n.server.conns[0].outbox, Replies(n)[n.taken..];
    RepliesFit(p, n);
    MoveFront(n.inbox, out, k);
    UnpackFront(n.inbox + out[..k], out[k..], fs, 0);
    if n.taken < |Replies(n)| {
      DropNext(Replies(n), n.taken);
    }
  }

  // ---- The whole system

  ghost predicate Nodes(p: Protocol, s: State) {
    forall n :: 0 <= n < |s.nodes| ==> NodeInv(p, s.nodes[n])
  }

  ghost predicate Known(c: Client.State, id: nat) { id < |c.owner| && id < TWO64 && c.owner[id] < |c.calls| }

  /** The request of the call an id was issued for. */
  ghost function RequestOf(c: Client.State, id: nat): RpcRequest
    requires Known(c, id)
  {
    c.calls[c.owner[id]].request
  }

  /** The recorded origin of an id is the frame that carries it. */
  ghost predicate OriginOk(p: Protocol, s: State, id: nat)
    requires id in s.origin
  {
    var o := s.origin[id];
    && Known(s.client, id) && o.node < |s.nodes| && o.index < |s.nodes[o.node].sent|
    && id < |s.client.routes| && s.client.routes[id] == o.node
    && s.nodes[o.node].sent[o.index] == Frame(id, p.writeRequest(RequestOf(s.client, id)))
  }

  ghost predicate SentOnce(s: State, n: nat, j: nat)
    requires n < |s.nodes| && j < |s.nodes[n].sent|
  {
    var id := s.nodes[n].sent[j].id;
    id in s.origin && s.origin[id] == Origin(n, j)
  }

  ghost predicate CallSendable(p: Protocol, s: State, c: Client.Call) {
    && p.sendable(c.request)
    && (Client.Holding(c.pc) ==> c.pc.id !in s.origin && c.pc.conn < |s.nodes|)
  }

  /** Every frame on every connection carries an id of its own, with the request of that id's call. */
  ghost predicate Origins(p: Protocol, s: State) {
    && (forall id :: id in s.origin ==> OriginOk(p, s, id))
    && (forall n, j :: 0 <= n < |s.nodes| && 0 <= j < |s.nodes[n].sent| ==> SentOnce(s, n, j))
    && (forall c :: 0 <= c < |s.client.calls| ==> CallSendable(p, s, s.client.calls[c]))
  }

  /** The response is what the server computed when it dispatched the very frame sent under the id. */
  ghost predicate Genuine(s: State, d: Client.Delivered) {
    && d.id in s.origin && Known(s.client, d.id) && s.origin[d.id].node < |s.nodes|
    && var o := s.origin[d.id];
       Server.Reply(Server.Job(0, o.index, d.id, RequestOf(s.client, d.id)), d.response)
         in s.nodes[o.node].server.loop.executed
  }

  /** Genuine, and such that the client can tell it from an incomplete frame and parse it. */
  ghost predicate DeliveryOk(p: Protocol, s: State, d: Client.Delivered) {
    Genuine(s, d) && Audible(p, Frame(0, p.writeResponse(d.response)))
  }

  /** Every reply that onRpcResponse was given is so. */
  ghost predicate Deliveries(p: Protocol, s: State) {
    forall i :: 0 <= i < |s.client.received| ==> DeliveryOk(p, s, s.client.received[i])
  }

  /** A reply frame that gets past the decoder's "incomplete" test and the parser. */
  predicate Audible(p: Protocol, f: Frame) { f.payload != [] && p.parseResponse(f.payload).Some? }

  /** A consumed reply frame has been given to onRpcResponse if it could be. */
  ghost predicate HeardAt(p: Protocol, c: Client.State, n: Node, k: nat)
    requires n.server.conns != [] && k < |Replies(n)|
  {
    var f := Replies(n)[k];
    Audible(p, f) ==> Client.Delivered(f.id, p.parseResponse(f.payload).value) in c.received
  }

  ghost predicate NodeHeard(p: Protocol, c: Client.State, n: Node) {
    && n.server.conns != [] && n.taken <= |Replies(n)|
    && (forall k :: 0 <= k < n.taken ==> HeardAt(p, c, n, k))
  }

  /** A reply that was received has taken its id out of its table, or found it gone, or is about to look. */
  ghost predicate Settled(c: Client.State, id: nat) {
    id in c.left || (c.loopPc.LookupAsync? && c.loopPc.id == id)
  }

  ghost predicate Hearing(p: Protocol, s: State) {
    && (forall n :: 0 <= n < |s.nodes| ==> NodeHeard(p, s.client, s.nodes[n]))
    && (forall i :: 0 <= i < |s.client.received| ==> Settled(s.client, s.client.received[i].id))
    && (s.client.loopPc.LookupAsync? ==> s.client.loopPc.id !in s.client.pendingSync)
  }

  ghost predicate Inv(p: Protocol, s: State) {
    Client.Inv(s.client) && Nodes(p, s) && Origins(p, s) && Deliveries(p, s) && Hearing(p, s)
  }

  /** What a later state keeps of an earlier one. */
  ghost predicate Later(s: State, s': State) {
    && Client.OwnersKept(s.client, s'.client)
    && |s'.nodes| == |s.nodes|
    && (forall n :: 0 <= n < |s.nodes| ==>
          s.nodes[n].sent <= s'.nodes[n].sent && s.nodes[n].server.loop.executed <= s'.nodes[n].server.loop.executed)
    && (forall id :: id in s.origin ==> id in s'.origin && s'.origin[id] == s.origin[id])
  }

  lemma GenuineStays(s: State, s': State, d: Client.Delivered)
    requires Later(s, s') && Genuine(s, d)
    ensures Genuine(s', d)
  {
  }

  lemma NewNodeInv(p: Protocol, conns: nat, threads: nat)
    requires threads > 0
    ensures NodeInv(p, NewNode(conns, threads)) && NodeHeard(p, Client.Init(), NewNode(conns, threads))
  {
    Server.InitInv(ServerFormat(p), conns + 1, threads);
    assert Server.Frames([]) == [] && EncodeAll([]) == [];
  }

  lemma InitInv(p: Protocol, nodes: nat, conns: nat, threads: nat)
    requires threads > 0
    ensures Inv(p, Init(nodes, conns, threads))
  {
    NewNodeInv(p, conns, threads);
    FreshInv(p, Init(nodes, conns, threads), NewNode(conns, threads));
  }

  lemma FreshInv(p: Protocol, s: State, n: Node)
    requires NodeInv(p, n) && NodeHeard(p, Client.Init(), n) && n.sent == []
    requires s.client == Client.Init() && s.origin == map[] && forall i :: 0 <= i < |s.nodes| ==> s.nodes[i] == n
    ensures Inv(p, s)
  {
    Client.FreshInv(s.client);
    FreshNodes(p, s, n);
  }

  lemma FreshNodes(p: Protocol, s: State, n: Node)
    requires NodeInv(p, n) && NodeHeard(p, s.client, n) && n.sent == []
    requires s.client == Client.Init() && s.origin == map[] && forall i :: 0 <= i < |s.nodes| ==> s.nodes[i] == n
    ensures Nodes(p, s) && Origins(p, s) && Deliveries(p, s) && Hearing(p, s)
  {
  }

  // Client steps.

  lemma ClientStepLater(p: Protocol, s: State, move: Client.Step)
    requires ClientStepEnabled(p, s, move)
    ensures Later(s, Apply(p, s, ClientStep(move)))
  {
    Client.StepOwners(s.client, move);
  }

  lemma OriginsClient(p: Protocol, s: State, move: Client.Step)
    requires Origins(p, s) && Client.Ids(s.client) && ClientStepEnabled(p, s, move) && Client.Fresh(s.client, move)
    ensures Origins(p, Apply(p, s, ClientStep(move)))
  {
    var s' := Apply(p, s, ClientStep(move));
    ClientStepLater(p, s, move);
    forall id | id in s'.origin ensures OriginOk(p, s', id) {
      assert OriginOk(p, s, id);
    }
    forall n, j | 0 <= n < |s'.nodes| && 0 <= j < |s'.nodes[n].sent| ensures SentOnce(s', n, j) {
      assert SentOnce(s, n, j);
    }
    forall c | 0 <= c < |s'.client.calls| ensures CallSendable(p, s', s'.client.calls[c]) {
      CallStaysSendable(p, s, move, c);
    }
  }

  lemma CallStaysSendable(p: Protocol, s: State, move: Client.Step, c: nat)
    requires Origins(p, s) && Client.Ids(s.client) && ClientStepEnabled(p, s, move) && Client.Fresh(s.client, move)
    requires c < |Client.Apply(s.client, move).calls|
    ensures CallSendable(p, s, Client.Apply(s.client, move).calls[c])
  {
    if c < |s.client.calls| {
      assert CallSendable(p, s, s.client.calls[c]);
      Client.StepHolding(s.client, move, c);
      Client.StepOwners(s.client, move);
      NextIdUnsent(p, s, move);
      SendableFrom(p, s, s.client.calls[c], Client.Apply(s.client, move).calls[c]);
    } else {
      Client.StepBegins(s.client, move);
    }
  }

  lemma SendableFrom(p: Protocol, s: State, a: Client.Call, b: Client.Call)
    requires CallSendable(p, s, a) && b.request == a.request
    requires Client.Holding(b.pc) ==>
               || (Client.Holding(a.pc) && b.pc.id == a.pc.id && b.pc.conn == a.pc.conn)
               || (b.pc.id !in s.origin && b.pc.conn < |s.nodes|)
    ensures CallSendable(p, s, b)
  {
  }

  lemma NextIdUnsent(p: Protocol, s: State, move: Client.Step)
    requires Origins(p, s) && Client.Ids(s.client) && Client.Fresh(s.client, move)
    ensures move.Issue? ==> s.client.nextId !in s.origin
  {
  }

  lemma DeliveriesFrame(p: Protocol, s: State, s': State)
    requires Deliveries(p, s) && Later(s, s') && s'.client.received == s.client.received
    ensures Deliveries(p, s')
  {
    forall i | 0 <= i < |s'.client.received| ensures DeliveryOk(p, s', s'.client.received[i]) {
      GenuineStays(s, s', s.client.received[i]);
    }
  }

  lemma StepReceived(s: Client.State, step: Client.Step)
    requires Client.Enabled(s, step) && !step.Receive?
    ensures Client.Apply(s, step).received == s.received
  {
  }

  // The send.

  lemma SendLater(p: Protocol, s: State, c: nat)
    requires Origins(p, s) && Sending(s, c)
    ensures Later(s, Apply(p, s, ClientSend(c)))
  {
  }

  lemma OriginsSend(p: Protocol, s: State, c: nat)
    requires Origins(p, s) && Client.Routed(s.client) && Client.Ids(s.client) && Client.Calls(s.client) && Sending(s, c)
    ensures Origins(p, Apply(p, s, ClientSend(c)))
  {
    var s' := Apply(p, s, ClientSend(c));
    OriginOkSend(p, s, c);
    SentOnceSend(p, s, c);
    forall d | 0 <= d < |s'.client.calls| ensures CallSendable(p, s', s'.client.calls[d]) {
      SendableAfterSend(p, s, c, d);
    }
  }

  lemma SendableAfterSend(p: Protocol, s: State, c: nat, d: nat)
    requires Origins(p, s) && Client.Ids(s.client) && Client.Calls(s.client) && Sending(s, c) && d < |s.client.calls|
    ensures CallSendable(p, Apply(p, s, ClientSend(c)), Apply(p, s, ClientSend(c)).client.calls[d])
  {
    assert CallSendable(p, s, s.client.calls[d]);
    OtherIdUnsent(s, c, d);
  }

  lemma OriginOkSend(p: Protocol, s: State, c: nat)
    requires Origins(p, s) && Client.Routed(s.client) && Client.Ids(s.client) && Client.Calls(s.client) && Sending(s, c)
    ensures var s' := Apply(p, s, ClientSend(c));
            forall x :: x in s'.origin ==> OriginOk(p, s', x)
  {
  }

  lemma SentOnceSend(p: Protocol, s: State, c: nat)
    requires Origins(p, s) && Sending(s, c)
    ensures var s' := Apply(p, s, ClientSend(c));
            forall n, j :: 0 <= n < |s'.nodes| && 0 <= j < |s'.nodes[n].sent| ==> SentOnce(s', n, j)
  {
    var s' := Apply(p, s, ClientSend(c));
    assert CallSendable(p, s, s.client.calls[c]);
    forall n, j | 0 <= n < |s'.nodes| && 0 <= j < |s'.nodes[n].sent| ensures SentOnce(s', n, j) {
      if j < |s.nodes[n].sent| {
        assert SentOnce(s, n, j);
      }
    }
  }

  lemma OtherIdUnsent(s: State, c: nat, d: nat)
    requires Client.Ids(s.client) && Client.Calls(s.client) && Sending(s, c) && d < |s.client.calls|
    ensures d != c && Client.Holding(s.client.calls[d].pc) ==> s.client.calls[d].pc.id != s.client.calls[c].pc.id
  {
  }

  // Steps of a node.

  /** A node step that leaves the client and the sent frames alone. */
  ghost predicate NodeStep(s: State, s': State, n: nat, node: Node) {
    && n < |s.nodes| && s'.nodes == s.nodes[n := node] && s'.origin == s.origin
    && node.sent == s.nodes[n].sent
    && s.nodes[n].server.loop.executed <= node.server.loop.executed
  }

  lemma OriginsNode(p: Protocol, s: State, s': State, n: nat, node: Node)
    requires Origins(p, s) && NodeStep(s, s', n, node) && Client.OwnersKept(s.client, s'.client)
    requires s'.client.calls == s.client.calls
    ensures Origins(p, s')
  {
    forall id | id in s'.origin ensures OriginOk(p, s', id) {
      assert OriginOk(p, s, id);
    }
    forall m, j | 0 <= m < |s'.nodes| && 0 <= j < |s'.nodes[m].sent| ensures SentOnce(s', m, j) {
      assert SentOnce(s, m, j);
    }
    forall c | 0 <= c < |s'.client.calls| ensures CallSendable(p, s', s'.client.calls[c]) {
      assert CallSendable(p, s, s.client.calls[c]);
    }
  }

  lemma NodesUpdate(p: Protocol, s: State, s': State, n: nat, node: Node)
    requires Nodes(p, s) && n < |s.nodes| && s'.nodes == s.nodes[n := node] && NodeInv(p, node)
    ensures Nodes(p, s')
  {
  }

  lemma ExecutedGrows(p: Protocol, n: Node, step: Server.Step)
    requires Server.Enabled(n.server, step)
    ensures n.server.loop.executed <= NodeServer(p, n, step).server.loop.executed
  {
  }

  /** A reply the client parses is genuine: its id leads back to the frame it answers. */
  lemma FetchedGenuine(p: Protocol, s: State, n: nat, k: nat)
    requires Sound(p) && Nodes(p, s) && Origins(p, s) && Enabled(p, s, DeliverReply(n, k))
    requires Incoming(p, s.nodes[n], k).Some?
    ensures DeliveryOk(p, s, Incoming(p, s.nodes[n], k).value)
  {
    assert NodeInv(p, s.nodes[n]);
    var r := FetchedReply(p, s.nodes[n], k);
    RequestReached(p, s, n, r.job);
  }

  /** A reply the client parses is one the server executed. */
  lemma FetchedReply(p: Protocol, n: Node, k: nat) returns (r: Server.Reply)
    requires Sound(p) && NodeInv(p, n) && Server.Enabled(n.server, Server.Transmit(0, k))
    requires Incoming(p, n, k).Some?
    ensures r in n.server.loop.executed && r.job.conn == 0 && Server.JobOk(ServerFormat(p), n.server, r.job)
    ensures Incoming(p, n, k).value == Client.Delivered(r.job.id, r.response)
    ensures Audible(p, Frame(0, p.writeResponse(r.response)))
  {
    FetchFront(p, n, k);
    ReplyIsDispatched(p, n, n.taken);
    r := n.server.conns[0].sent[n.taken].cause.reply;
    ExecutedJob(p, n, r);
    assert Fetch(n, k).data == p.writeResponse(r.response);
  }

  lemma RequestReached(p: Protocol, s: State, n: nat, j: Server.Job)
    requires Sound(p) && Origins(p, s) && n < |s.nodes| && j.conn == 0
    requires s.nodes[n].server.conns != [] && Decoded(s.nodes[n]) <= s.nodes[n].sent
    requires Server.JobOk(ServerFormat(p), s.nodes[n].server, j)
    ensures j.id in s.origin && s.origin[j.id] == Origin(n, j.index)
    ensures Known(s.client, j.id) && j.request == RequestOf(s.client, j.id)
  {
    var node := s.nodes[n];
    assert Decoded(node)[j.index] == node.sent[j.index];
    assert SentOnce(s, n, j.index) && OriginOk(p, s, j.id);
    var c := s.client.owner[j.id];
    assert CallSendable(p, s, s.client.calls[c]);
  }

  // What the client has heard.

  lemma HeardFrame(p: Protocol, c: Client.State, c': Client.State, n: Node, n': Node)
    requires NodeHeard(p, c, n) && n'.server.conns != [] && n'.taken == n.taken && Replies(n) <= Replies(n')
    requires c.received <= c'.received
    ensures NodeHeard(p, c', n')
  {
    forall k | 0 <= k < n'.taken ensures HeardAt(p, c', n', k) {
      assert HeardAt(p, c, n, k) && Replies(n')[k] == Replies(n)[k];
    }
  }

  lemma StepKeepsHeard(p: Protocol, c: Client.State, n: Node, step: Server.Step)
    requires NodeHeard(p, c, n) && ServerStepEnabled(p, n, step)
    ensures NodeHeard(p, c, NodeServer(p, n, step))
  {
    StepRepliesGrow(p, n, step);
    RepliesPrefix(n.server.conns[0], NodeServer(p, n, step).server.conns[0]);
    HeardFrame(p, c, c, n, NodeServer(p, n, step));
  }

  lemma RepliesPrefix(c: Server.Conn, c': Server.Conn)
    requires RepliesGrow(c, c')
    ensures Server.Frames(c.sent) <= Server.Frames(c'.sent)
  {
  }

  /** An id that was sent is in a table or has left one. */
  lemma SentIsHeld(p: Protocol, s: State, id: nat)
    requires Client.Placed(s.client) && Origins(p, s) && id in s.origin
    ensures Client.Held(s.client, id)
  {
    assert OriginOk(p, s, id);
    assert CallSendable(p, s, s.client.calls[s.client.owner[id]]);
  }

  lemma ReceivedWasSent(p: Protocol, s: State, id: nat, response: RpcResponse)
    requires Deliveries(p, s) && Client.Delivered(id, response) in s.client.received
    ensures id in s.origin
  {
    var i :| 0 <= i < |s.client.received| && s.client.received[i] == Client.Delivered(id, response);
    assert DeliveryOk(p, s, s.client.received[i]);
  }

  lemma SettledKept(c: Client.State, move: Client.Step, id: nat)
    requires Client.Enabled(c, move) && !move.Receive? && Settled(c, id) && Client.Held(c, id)
    requires c.loopPc.LookupAsync? ==> c.loopPc.id !in c.pendingSync
    ensures Settled(Client.Apply(c, move), id)
  {
    Client.StepLeft(c, move);
  }

  lemma PassedKept(c: Client.State, move: Client.Step)
    requires Client.Enabled(c, move) && !move.Receive?
    requires c.loopPc.LookupAsync? ==> c.loopPc.id !in c.pendingSync
    requires c.loopPc.LookupAsync? && move.Register? ==> c.calls[move.call].pc.id != c.loopPc.id
    ensures var c' := Client.Apply(c, move);
            c'.loopPc.LookupAsync? ==> c'.loopPc.id !in c'.pendingSync
  {
  }

  /** The client moves and the nodes keep their replies. */
  ghost predicate ClientMoves(s: State, s': State, move: Client.Step) {
    && Client.Enabled(s.client, move) && !move.Receive? && s'.client == Client.Apply(s.client, move)
    && |s'.nodes| == |s.nodes|
    && (forall n :: 0 <= n < |s.nodes| ==>
          s'.nodes[n].server == s.nodes[n].server && s'.nodes[n].taken == s.nodes[n].taken)
  }

  lemma HearingClient(p: Protocol, s: State, s': State, move: Client.Step)
    requires Inv(p, s) && ClientMoves(s, s', move)
    ensures Hearing(p, s')
  {
    StepReceived(s.client, move);
    forall n | 0 <= n < |s'.nodes| ensures NodeHeard(p, s'.client, s'.nodes[n]) {
      HeardFrame(p, s.client, s'.client, s.nodes[n], s'.nodes[n]);
    }
    forall i | 0 <= i < |s'.client.received| ensures Settled(s'.client, s'.client.received[i].id) {
      var d := s.client.received[i];
      ReceivedWasSent(p, s, d.id, d.response);
      SentIsHeld(p, s, d.id);
      SettledKept(s.client, move, d.id);
    }
    HearingLookup(p, s, move);
  }

  lemma HearingLookup(p: Protocol, s: State, move: Client.Step)
    requires Inv(p, s) && Client.Enabled(s.client, move) && !move.Receive?
    ensures var c' := Client.Apply(s.client, move);
            c'.loopPc.LookupAsync? ==> c'.loopPc.id !in c'.pendingSync
  {
    if s.client.loopPc.LookupAsync? && move.Register? {
      ReceivedWasSent(p, s, s.client.loopPc.id, s.client.loopPc.response);
      assert CallSendable(p, s, s.client.calls[move.call]);
    }
    PassedKept(s.client, move);
  }

  lemma FetchKeepsHeard(p: Protocol, s: State, n: nat, k: nat)
    requires Sound(p) && Enabled(p, s, DeliverReply(n, k))
    requires NodeInv(p, s.nodes[n]) && NodeHeard(p, s.client, s.nodes[n])
    ensures NodeHeard(p, Apply(p, s, DeliverReply(n, k)).client, NodeFetch(p, s.nodes[n], k))
  {
    var c', n0, n' := Apply(p, s, DeliverReply(n, k)).client, s.nodes[n], NodeFetch(p, s.nodes[n], k);
    HeardNow(p, s, n, k);
    FetchRecords(p, n0, k);
    var before := n'.(taken := n0.taken);
    HeardFrame(p, s.client, c', n0, before);
    if n'.taken > n0.taken {
      HeardOneMore(p, c', before, n');
    }
  }

  /** What a read consumes is the next reply, and what it brings is that reply. */
  lemma FetchRecords(p: Protocol, n: Node, k: nat)
    requires Sound(p) && NodeInv(p, n) && Server.Enabled(n.server, Server.Transmit(0, k))
    ensures var n', d := NodeFetch(p, n, k), Incoming(p, n, k);
            && n'.server.conns != [] && Replies(n') == Replies(n) && n.taken <= n'.taken <= n.taken + 1
            && (n'.taken > n.taken ==>
                  && n.taken < |Replies(n)|
                  && (Audible(p, Replies(n)[n.taken]) ==>
                        d == Some(Client.Delivered(Replies(n)[n.taken].id, p.parseResponse(Replies(n)[n.taken].payload).value))))
  {
    FetchFront(p, n, k);
  }

  lemma HeardOneMore(p: Protocol, c: Client.State, n: Node, n': Node)
    requires NodeHeard(p, c, n) && n' == n.(taken := n.taken + 1)
    requires n.taken < |Replies(n)| && HeardAt(p, c, n, n.taken)
    ensures NodeHeard(p, c, n')
  {
    forall k | 0 <= k < n'.taken ensures HeardAt(p, c, n', k) {
      assert HeardAt(p, c, n, k);
    }
  }

  lemma HeardNow(p: Protocol, s: State, n: nat, k: nat)
    requires Enabled(p, s, DeliverReply(n, k))
    ensures var d, c' := Incoming(p, s.nodes[n], k), Apply(p, s, DeliverReply(n, k)).client;
            s.client.received <= c'.received && (d.Some? ==> d.value in c'.received)
  {
    FetchClient(p, s, n, k);
    var d, c' := Incoming(p, s.nodes[n], k), Apply(p, s, DeliverReply(n, k)).client;
    if d.Some? {
      assert c'.received[|s.client.received|] == d.value;
    }
  }

  lemma FetchSettles(p: Protocol, s: State, n: nat, k: nat)
    requires Hearing(p, s) && Enabled(p, s, DeliverReply(n, k))
    ensures var c' := Apply(p, s, DeliverReply(n, k)).client;
            && (forall i :: 0 <= i < |c'.received| ==> Settled(c', c'.received[i].id))
            && (c'.loopPc.LookupAsync? ==> c'.loopPc.id !in c'.pendingSync)
  {
    FetchClient(p, s, n, k);
    var d, c' := Incoming(p, s.nodes[n], k), Apply(p, s, DeliverReply(n, k)).client;
    forall i | 0 <= i < |c'.received| ensures Settled(c', c'.received[i].id) {
      assert i < |s.client.received| ==> Settled(s.client, s.client.received[i].id);
      if d.Some? {
        Client.StepLeft(s.client, Client.Receive(d.value.id, d.value.response));
      }
    }
  }

  lemma FetchKeepsHearing(p: Protocol, s: State, n: nat, k: nat)
    requires Sound(p) && Nodes(p, s) && Hearing(p, s) && Enabled(p, s, DeliverReply(n, k))
    ensures Hearing(p, Apply(p, s, DeliverReply(n, k)))
  {
    var s' := Apply(p, s, DeliverReply(n, k));
    FetchSettles(p, s, n, k);
    FetchLater(p, s, n, k);
    HeardNow(p, s, n, k);
    forall m | 0 <= m < |s'.nodes| ensures NodeHeard(p, s'.client, s'.nodes[m]) {
      if m == n {
        FetchKeepsHeard(p, s, n, k);
      } else {
        HeardFrame(p, s.client, s'.client, s.nodes[m], s'.nodes[m]);
      }
    }
  }

  // One lemma for each kind of step.

  lemma ClientStepKept(p: Protocol, s: State, move: Client.Step)
    requires Inv(p, s) && ClientStepEnabled(p, s, move) && Client.Fresh(s.client, move)
    ensures Inv(p, Apply(p, s, ClientStep(move)))
  {
    Client.StepKeepsInv(s.client, move);
    OriginsClient(p, s, move);
    ClientStepLater(p, s, move);
    StepReceived(s.client, move);
    DeliveriesFrame(p, s, Apply(p, s, ClientStep(move)));
    HearingClient(p, s, Apply(p, s, ClientStep(move)), move);
  }

  lemma ClientSendKept(p: Protocol, s: State, c: nat)
    requires Sound(p) && Inv(p, s) && Sending(s, c)
    ensures Inv(p, Apply(p, s, ClientSend(c)))
  {
    var s' := Apply(p, s, ClientSend(c));
    Client.StepKeepsInv(s.client, Client.Send(c));
    SendKeepsNodes(p, s, c);
    OriginsSend(p, s, c);
    SendLater(p, s, c);
    SendMoves(p, s, c);
    StepReceived(s.client, Client.Send(c));
    DeliveriesFrame(p, s, s');
    HearingClient(p, s, s', Client.Send(c));
  }

  lemma SendKeepsNodes(p: Protocol, s: State, c: nat)
    requires Sound(p) && Nodes(p, s) && Origins(p, s) && Sending(s, c)
    ensures Nodes(p, Apply(p, s, ClientSend(c)))
  {
    var s', call := Apply(p, s, ClientSend(c)), s.client.calls[c];
    assert CallSendable(p, s, call);
    assert Good(Frame(0, p.writeRequest(call.request)));
    NodeSendKept(p, s.nodes[call.pc.conn], Frame(call.pc.id, p.writeRequest(call.request)));
    NodesUpdate(p, s, s', call.pc.conn, s'.nodes[call.pc.conn]);
  }

  lemma SendMoves(p: Protocol, s: State, c: nat)
    requires Sending(s, c)
    ensures ClientMoves(s, Apply(p, s, ClientSend(c)), Client.Send(c))
  {
  }

  lemma NodeStepKept(p: Protocol, s: State, s': State, n: nat, node: Node)
    requires Inv(p, s) && NodeStep(s, s', n, node) && s'.client == s.client
    requires NodeInv(p, node) && NodeHeard(p, s.client, node)
    ensures Inv(p, s')
  {
    NodesUpdate(p, s, s', n, node);
    OriginsNode(p, s, s', n, node);
    NodeStepLater(s, s', n, node);
    DeliveriesFrame(p, s, s');
    HearingNode(p, s, s', n, node);
  }

  lemma HearingNode(p: Protocol, s: State, s': State, n: nat, node: Node)
    requires Hearing(p, s) && n < |s.nodes| && s'.nodes == s.nodes[n := node] && s'.client == s.client
    requires NodeHeard(p, s.client, node)
    ensures Hearing(p, s')
  {
  }

  lemma NodeStepLater(s: State, s': State, n: nat, node: Node)
    requires NodeStep(s, s', n, node) && s'.client == s.client
    ensures Later(s, s')
  {
  }

  lemma ServerStepKept(p: Protocol, s: State, n: nat, turn: Server.Step)
    requires Inv(p, s) && n < |s.nodes| && ServerStepEnabled(p, s.nodes[n], turn)
    ensures Inv(p, Apply(p, s, ServerStep(n, turn)))
  {
    NodeServerKept(p, s.nodes[n], turn);
    ExecutedGrows(p, s.nodes[n], turn);
    StepKeepsHeard(p, s.client, s.nodes[n], turn);
    NodeStepKept(p, s, Apply(p, s, ServerStep(n, turn)), n, NodeServer(p, s.nodes[n], turn));
  }

  lemma DeliverRequestKept(p: Protocol, s: State, n: nat, k: nat)
    requires Inv(p, s) && Enabled(p, s, DeliverRequest(n, k))
    ensures Inv(p, Apply(p, s, DeliverRequest(n, k)))
  {
    NodeDeliverKept(p, s.nodes[n], k);
    HeardFrame(p, s.client, s.client, s.nodes[n], NodeDeliver(p, s.nodes[n], k));
    NodeStepKept(p, s, Apply(p, s, DeliverRequest(n, k)), n, NodeDeliver(p, s.nodes[n], k));
  }

  lemma FetchLater(p: Protocol, s: State, n: nat, k: nat)
    requires Enabled(p, s, DeliverReply(n, k))
    ensures var s' := Apply(p, s, DeliverReply(n, k));
            && NodeStep(s, s', n, NodeFetch(p, s.nodes[n], k))
            && Client.OwnersKept(s.client, s'.client) && s'.client.calls == s.client.calls
            && Later(s, s')
  {
  }

  lemma ReceiveKeepsDeliveries(p: Protocol, s: State, s': State, d: Client.Delivered)
    requires Deliveries(p, s) && Later(s, s') && s.client.loopPc.Idle? && DeliveryOk(p, s, d)
    requires s'.client == Client.Apply(s.client, Client.Receive(d.id, d.response))
    ensures Deliveries(p, s')
  {
    GenuineStays(s, s', d);
    forall i | 0 <= i < |s'.client.received| ensures DeliveryOk(p, s', s'.client.received[i]) {
      if i < |s.client.received| {
        GenuineStays(s, s', s.client.received[i]);
      }
    }
  }

  lemma FetchKeepsNodes(p: Protocol, s: State, n: nat, k: nat)
    requires Sound(p) && Nodes(p, s) && Origins(p, s) && Enabled(p, s, DeliverReply(n, k))
    ensures Nodes(p, Apply(p, s, DeliverReply(n, k))) && Origins(p, Apply(p, s, DeliverReply(n, k)))
  {
    var s' := Apply(p, s, DeliverReply(n, k));
    FetchLater(p, s, n, k);
    NodeFetchKept(p, s.nodes[n], k);
    NodesUpdate(p, s, s', n, NodeFetch(p, s.nodes[n], k));
    OriginsNode(p, s, s', n, NodeFetch(p, s.nodes[n], k));
  }

  /** What a read does to the client: nothing, or one reply for onRpcResponse. */
  function Incoming(p: Protocol, n: Node, k: nat): Option<Client.Delivered>
    requires Server.Enabled(n.server, Server.Transmit(0, k))
  {
    var u := Fetch(n, k);
    if u.data == [] || p.parseResponse(u.data).None? then None
    else Some(Client.Delivered(u.id, p.parseResponse(u.data).value))
  }

  lemma FetchClient(p: Protocol, s: State, n: nat, k: nat)
    requires Enabled(p, s, DeliverReply(n, k))
    ensures var d := Incoming(p, s.nodes[n], k);
            Apply(p, s, DeliverReply(n, k)).client ==
            if d.Some? then Client.Apply(s.client, Client.Receive(d.value.id, d.value.response)) else s.client
  {
  }

  lemma FetchKeepsClient(p: Protocol, s: State, n: nat, k: nat)
    requires Client.Inv(s.client) && Enabled(p, s, DeliverReply(n, k))
    ensures Client.Inv(Apply(p, s, DeliverReply(n, k)).client)
  {
    FetchClient(p, s, n, k);
    var d := Incoming(p, s.nodes[n], k);
    if d.Some? {
      Client.StepKeepsInv(s.client, Client.Receive(d.value.id, d.value.response));
    }
  }

  lemma FetchKeepsDeliveries(p: Protocol, s: State, n: nat, k: nat)
    requires Sound(p) && Inv(p, s) && Enabled(p, s, DeliverReply(n, k))
    ensures Deliveries(p, Apply(p, s, DeliverReply(n, k)))
  {
    var s', d := Apply(p, s, DeliverReply(n, k)), Incoming(p, s.nodes[n], k);
    FetchClient(p, s, n, k);
    FetchLater(p, s, n, k);
    if d.Some? {
      FetchedGenuine(p, s, n, k);
      ReceiveKeepsDeliveries(p, s, s', d.value);
    } else {
      DeliveriesFrame(p, s, s');
    }
  }

  lemma DeliverReplyKept(p: Protocol, s: State, n: nat, k: nat)
    requires Sound(p) && Inv(p, s) && Enabled(p, s, DeliverReply(n, k))
    ensures Inv(p, Apply(p, s, DeliverReply(n, k)))
  {
    FetchKeepsNodes(p, s, n, k);
    FetchKeepsClient(p, s, n, k);
    FetchKeepsDeliveries(p, s, n, k);
    FetchKeepsHearing(p, s, n, k);
  }

  lemma StepKeepsInv(p: Protocol, s: State, step: Step)
    requires Sound(p) && Inv(p, s) && Enabled(p, s, step)
    requires |Apply(p, s, step).client.owner| <= TWO64
    ensures Inv(p, Apply(p, s, step))
  {
    match step
    case ClientStep(move) => ClientStepKept(p, s, move);
    case ClientSend(c) => ClientSendKept(p, s, c);
    case ServerStep(n, turn) => ServerStepKept(p, s, n, turn);
    case DeliverRequest(n, k) => DeliverRequestKept(p, s, n, k);
    case DeliverReply(n, k) => DeliverReplyKept(p, s, n, k);
  }

  // ---- Whole runs

  ghost predicate Runs(p: Protocol, s: State, steps: seq<Step>)
    decreases |steps|
  {
    steps == [] || (Enabled(p, s, steps[0]) && Runs(p, Apply(p, s, steps[0]), steps[1..]))
  }

  ghost function After(p: Protocol, s: State, steps: seq<Step>): State
    requires Runs(p, s, steps)
    decreases |steps|
  {
    if steps == [] then s else After(p, Apply(p, s, steps[0]), steps[1..])
  }

  lemma StepIssues(p: Protocol, s: State, step: Step)
    requires Enabled(p, s, step)
    ensures s.client.owner <= Apply(p, s, step).client.owner
  {
    match step
    case ClientStep(move) => Client.StepOwners(s.client, move);
    case ClientSend(c) => Client.StepOwners(s.client, Client.Send(c));
    case ServerStep(_, _) =>
    case DeliverRequest(_, _) =>
    case DeliverReply(n, k) => FetchLater(p, s, n, k);
  }

  lemma {:induction false} RunIssues(p: Protocol, s: State, steps: seq<Step>)
    requires Runs(p, s, steps)
    ensures s.client.owner <= After(p, s, steps).client.owner
    decreases |steps|
  {
    if steps != [] {
      StepIssues(p, s, steps[0]);
      RunIssues(p, Apply(p, s, steps[0]), steps[1..]);
    }
  }

  lemma {:induction false} RunKeepsInv(p: Protocol, s: State, steps: seq<Step>)
    requires Sound(p) && Inv(p, s) && Runs(p, s, steps) && |After(p, s, steps).client.owner| <= TWO64
    ensures Inv(p, After(p, s, steps))
    decreases |steps|
  {
    if steps != [] {
      var s' := Apply(p, s, steps[0]);
      RunIssues(p, s', steps[1..]);
      StepKeepsInv(p, s, steps[0]);
      RunKeepsInv(p, s', steps[1..]);
    }
  }

  /** The states that runs of at most 2^64 issued ids reach. */
  ghost predicate Reachable(p: Protocol, s: State) {
    exists nodes: nat, conns: nat, threads: nat, steps ::
      threads > 0 && Runs(p, Init(nodes, conns, threads), steps)
      && s == After(p, Init(nodes, conns, threads), steps) && |s.client.owner| <= TWO64
  }

  lemma ReachableInv(p: Protocol, s: State)
    requires Sound(p) && Reachable(p, s)
    ensures Inv(p, s)
  {
    var nodes: nat, conns: nat, threads: nat, steps :|
      threads > 0 && Runs(p, Init(nodes, conns, threads), steps)
      && s == After(p, Init(nodes, conns, threads), steps) && |s.client.owner| <= TWO64;
    InitInv(p, nodes, conns, threads);
    RunKeepsInv(p, Init(nodes, conns, threads), steps);
  }

  /** Genuine, from the connection the id was issued for, and an answer the servers give to the request of the call the id was issued for. */
  ghost predicate Matched(p: Protocol, s: State, d: Client.Delivered) {
    && Genuine(s, d) && p.answers(RequestOf(s.client, d.id), d.response)
    && d.id < |s.client.routes| && s.origin[d.id].node == s.client.routes[d.id]
  }

  lemma GenuineMatched(p: Protocol, s: State, d: Client.Delivered)
    requires Nodes(p, s) && Origins(p, s) && Deliveries(p, s) && d in s.client.received
    ensures Matched(p, s, d)
  {
    assert DeliveryOk(p, s, d) && OriginOk(p, s, d.id);
    var o := s.origin[d.id];
    assert NodeInv(p, s.nodes[o.node]);
    ExecutedAnswers(p, s.nodes[o.node].server,
      Server.Reply(Server.Job(0, o.index, d.id, RequestOf(s.client, d.id)), d.response));
  }

  ghost predicate SucceededWithOwnReply(p: Protocol, s: State, c: Client.Call)
    requires c.pc.Succeeded?
  {
    && c.attempts != [] && c.pc.id == c.attempts[|c.attempts| - 1]
    && c.pc.response.errorCode == NO_ERROR
    && Matched(p, s, Client.Delivered(c.pc.id, c.pc.response))
  }

  /**
   * End-to-end matching: in every reachable state, each promise set and each reply handed to a done
   * closure is the result of dispatching the very frame that was sent under its id, and answers the
   * request of the call the id was issued for; and a call that succeeded did so with the reply to its
   * last attempt, never with a late reply to an earlier one.
   */
  lemma EndToEndMatching(p: Protocol, s: State)
    requires Sound(p) && Reachable(p, s)
    ensures forall i :: 0 <= i < |s.client.promised| ==> Matched(p, s, s.client.promised[i])
    ensures forall i :: 0 <= i < |s.client.fired| ==> Matched(p, s, s.client.fired[i])
    ensures forall c :: 0 <= c < |s.client.calls| && s.client.calls[c].pc.Succeeded? ==>
              SucceededWithOwnReply(p, s, s.client.calls[c])
  {
    ReachableInv(p, s);
    forall i | 0 <= i < |s.client.promised| ensures Matched(p, s, s.client.promised[i]) {
      GenuineMatched(p, s, s.client.promised[i]);
    }
    forall i | 0 <= i < |s.client.fired| ensures Matched(p, s, s.client.fired[i]) {
      GenuineMatched(p, s, s.client.fired[i]);
    }
    forall c | 0 <= c < |s.client.calls| && s.client.calls[c].pc.Succeeded?
      ensures SucceededWithOwnReply(p, s, s.client.calls[c])
    {
      SuccessMatched(p, s, c);
    }
  }

  lemma SuccessMatched(p: Protocol, s: State, c: nat)
    requires Inv(p, s) && c < |s.client.calls| && s.client.calls[c].pc.Succeeded?
    ensures SucceededWithOwnReply(p, s, s.client.calls[c])
  {
    var call := s.client.calls[c];
    assert Client.CallOk(s.client, call);
    var d := Client.Delivered(call.pc.id, call.pc.response);
    assert d in s.client.promised;
    GenuineMatched(p, s, d);
  }

  // ---- At most once

  /** The `i`-th job started at node `n` runs an attempt of call `c`. */
  ghost predicate Attempt(s: State, c: nat, n: nat, i: nat) {
    && n < |s.nodes| && i < |s.nodes[n].server.pool.started|
    && var j := s.nodes[n].server.pool.started[i];
       j.conn == 0 && j.id < |s.client.owner| && s.client.owner[j.id] == c
  }

  /** Every dispatch, on any server, of any attempt of a call. */
  ghost function Dispatches(s: State, c: nat): set<(nat, nat)> {
    set n: nat, i: nat | n < |s.nodes| && i < |s.nodes[n].server.pool.started| && Attempt(s, c, n, i) :: (n, i)
  }

  ghost function StartedId(s: State, d: (nat, nat)): nat
    requires d.0 < |s.nodes| && d.1 < |s.nodes[d.0].server.pool.started|
  {
    s.nodes[d.0].server.pool.started[d.1].id
  }

  lemma StartedJob(p: Protocol, s: State, n: nat, i: nat)
    requires Nodes(p, s) && n < |s.nodes| && i < |s.nodes[n].server.pool.started|
    ensures var v := s.nodes[n].server;
            && i < |v.pool.pushed| && v.pool.pushed[i] == v.pool.started[i]
            && Server.JobOk(ServerFormat(p), v, v.pool.started[i])
            && v.conns != [] && Decoded(s.nodes[n]) <= s.nodes[n].sent
  {
  }

  /** Two dispatches under one id are the same dispatch. */
  lemma DispatchedOnce(p: Protocol, s: State, n: nat, i: nat, m: nat, k: nat)
    requires Sound(p) && Nodes(p, s) && Origins(p, s)
    requires n < |s.nodes| && i < |s.nodes[n].server.pool.started| && s.nodes[n].server.pool.started[i].conn == 0
    requires m < |s.nodes| && k < |s.nodes[m].server.pool.started| && s.nodes[m].server.pool.started[k].conn == 0
    requires s.nodes[n].server.pool.started[i].id == s.nodes[m].server.pool.started[k].id
    ensures n == m && i == k
  {
    StartedJob(p, s, n, i);
    StartedJob(p, s, m, k);
    RequestReached(p, s, n, s.nodes[n].server.pool.started[i]);
    RequestReached(p, s, m, s.nodes[m].server.pool.started[k]);
    DistinctPushed(p, s.nodes[n], i, k);
  }

  lemma DistinctPushed(p: Protocol, n: Node, i: nat, k: nat)
    requires NodeInv(p, n) && i < |n.server.pool.pushed| && k < |n.server.pool.pushed|
    requires n.server.pool.pushed[i].conn == n.server.pool.pushed[k].conn
    requires n.server.pool.pushed[i].index == n.server.pool.pushed[k].index
    ensures i == k
  {
  }

  lemma {:induction false} InjectionBound<A, B>(f: map<A, B>, t: set<B>)
    requires forall a :: a in f ==> f[a] in t
    requires forall a, b :: a in f && b in f && f[a] == f[b] ==> a == b
    ensures |f| <= |t|
    decreases |t|
  {
    if f != map[] {
      var a :| a in f;
      var f', t' := f - {a}, t - {f[a]};
      assert f'.Keys == f.Keys - {a};
      InjectionBound(f', t');
    }
  }

  function Elements(xs: seq<nat>): set<nat> { set x | x in xs }

  lemma {:induction false} ElementsBound(xs: seq<nat>)
    ensures |Elements(xs)| <= |xs|
  {
    if xs != [] {
      var n := |xs| - 1;
      assert xs == xs[..n] + [xs[n]];
      assert Elements(xs) == Elements(xs[..n]) + {xs[n]};
      ElementsBound(xs[..n]);
    }
  }

  lemma DispatchIsAttempt(s: State, c: nat, d: (nat, nat))
    requires Client.Ids(s.client) && c < |s.client.calls| && d in Dispatches(s, c)
    ensures StartedId(s, d) in Elements(s.client.calls[c].attempts)
  {
  }

  lemma SameDispatch(p: Protocol, s: State, c: nat, a: (nat, nat), b: (nat, nat))
    requires Sound(p) && Nodes(p, s) && Origins(p, s)
    requires a in Dispatches(s, c) && b in Dispatches(s, c) && StartedId(s, a) == StartedId(s, b)
    ensures a == b
  {
    assert Attempt(s, c, a.0, a.1) && Attempt(s, c, b.0, b.1);
    DispatchedOnce(p, s, a.0, a.1, b.0, b.1);
  }

  /** The id of each dispatch. */
  ghost function DispatchIds(s: State, c: nat): (f: map<(nat, nat), nat>)
    ensures f.Keys == Dispatches(s, c)
  {
    map d | d in Dispatches(s, c) :: StartedId(s, d)
  }

  lemma DispatchesBounded(p: Protocol, s: State, c: nat)
    requires Sound(p) && Nodes(p, s) && Origins(p, s) && Client.Ids(s.client) && c < |s.client.calls|
    ensures |Dispatches(s, c)| <= |s.client.calls[c].attempts|
  {
    var f, t := DispatchIds(s, c), Elements(s.client.calls[c].attempts);
    forall a | a in f ensures f[a] in t {
      DispatchIsAttempt(s, c, a);
    }
    forall a, b | a in f && b in f && f[a] == f[b] ensures a == b {
      SameDispatch(p, s, c, a, b);
    }
    InjectionBound(f, t);
    ElementsBound(s.client.calls[c].attempts);
  }

  /**
   * At most once: over all servers and all retries, a call is dispatched no more often than it made
   * attempts, which is at most max(0, maxRetries + 1), and at most once if it is not idempotent.
   */
  lemma AtMostOnce(p: Protocol, s: State, c: nat)
    requires Sound(p) && Reachable(p, s) && c < |s.client.calls|
    ensures |Dispatches(s, c)| <= |s.client.calls[c].attempts| <= Client.Limit(s.client.calls[c].kind)
  {
    ReachableInv(p, s);
    DispatchesBounded(p, s, c);
    assert Client.CallOk(s.client, s.client.calls[c]);
  }

  // ---- At rest

  /** No request byte is in flight and the server has nothing left to do. */
  predicate AtRest(n: Node) { n.c2s == [] && Server.Quiescent(n.server) }

  lemma FirstFits(fs: seq<Frame>)
    requires fs != []
    ensures |EncodeAll(fs)| >= |Encode(fs[0])|
  {
  }

  lemma RestingNodeDecoded(p: Protocol, n: Node)
    requires NodeInv(p, n) && AtRest(n)
    ensures Decoded(n) == n.sent
  {
    var k, q := |Decoded(n)|, n.server.conns[0].inbox;
    NilUnit(q);
    if k < |n.sent| {
      DropNext(n.sent, k);
      FirstFits(n.sent[k..]);
    }
  }

  lemma RestingNodeAnswered(p: Protocol, n: Node, j: nat) returns (r: Server.Reply)
    requires NodeInv(p, n) && AtRest(n) && j < |n.sent|
    ensures r in n.server.loop.executed && Server.ReplySent(ServerFormat(p), n.server, r)
    ensures r.job == Server.Job(0, j, n.sent[j].id, p.parseRequest(n.sent[j].payload).value)
  {
    RestingNodeDecoded(p, n);
    assert Server.Queued(ServerFormat(p), n.server, 0, j);
    r := Server.AcceptedIsReplied(ServerFormat(p), n.server,
      Server.Job(0, j, n.sent[j].id, p.parseRequest(n.sent[j].payload).value));
  }

  /** The frame that carries a reply has been given to send on the channel's connection. */
  ghost predicate ReplyFrameSent(p: Protocol, s: State, d: Client.Delivered) {
    && d.id in s.origin && s.origin[d.id].node < |s.nodes| && d.id < TWO64
    && var n := s.nodes[s.origin[d.id].node];
       n.server.conns != [] && Frame(d.id, p.writeResponse(d.response)) in Replies(n)
  }

  /**
   * No request is lost: when a server has come to rest, every request sent to it has been dispatched
   * and the frame with its genuine reply has been sent.
   */
  lemma RestingSystemAnswered(p: Protocol, s: State, id: nat) returns (response: RpcResponse)
    requires Sound(p) && Reachable(p, s) && id in s.origin
    requires s.origin[id].node < |s.nodes| && AtRest(s.nodes[s.origin[id].node])
    ensures Genuine(s, Client.Delivered(id, response)) && ReplyFrameSent(p, s, Client.Delivered(id, response))
  {
    ReachableInv(p, s);
    assert OriginOk(p, s, id);
    var o := s.origin[id];
    var r := RestingNodeAnswered(p, s.nodes[o.node], o.index);
    assert CallSendable(p, s, s.client.calls[s.client.owner[id]]);
    response := r.response;
    SentFrame(p, s.nodes[o.node].server, r);
  }

  lemma SentFrame(p: Protocol, v: Server.State, r: Server.Reply)
    requires r.job.conn < |v.conns| && Server.ReplySent(ServerFormat(p), v, r)
    ensures Frame(r.job.id, p.writeResponse(r.response)) in Server.Frames(v.conns[r.job.conn].sent)
  {
    var xs, x := v.conns[r.job.conn].sent, Server.Sent(Frame(r.job.id, p.writeResponse(r.response)), Server.Dispatched(r));
    var i :| 0 <= i < |xs| && xs[i] == x;
    assert Server.Frames(xs)[i] == x.frame;
  }

  /** The client has read every byte of the replies and is between two of them. */
  predicate AllRead(s: State, n: Node) {
    n.server.conns != [] && n.inbox == [] && n.server.conns[0].outbox == [] && s.client.loopPc.Idle?
  }

  lemma EmptyStream(fs: seq<Frame>)
    requires EncodeAll(fs) == []
    ensures fs == []
  {
  }

  lemma AllReadTaken(p: Protocol, n: Node)
    requires NodeInv(p, n) && n.inbox == [] && n.server.conns[0].outbox == []
    ensures n.taken == |Replies(n)|
  {
    EmptyStream(Replies(n)[n.taken..]);
  }

  /** There is one genuine reply to an id. */
  lemma OneGenuine(p: Protocol, s: State, id: nat, a: RpcResponse, b: RpcResponse)
    requires Nodes(p, s) && Genuine(s, Client.Delivered(id, a)) && Genuine(s, Client.Delivered(id, b))
    ensures a == b
  {
    var o := s.origin[id];
    var job := Server.Job(0, o.index, id, RequestOf(s.client, id));
    assert NodeInv(p, s.nodes[o.node]);
    Server.OneReply(ServerFormat(p), s.nodes[o.node].server, Server.Reply(job, a), Server.Reply(job, b));
  }

  /** What the client holds for an id whose reply it has consumed. */
  ghost predicate Concluded(c: Client.State, d: Client.Delivered) {
    d in c.promised || d in c.fired || d.id in c.expired
  }

  lemma ReceivedOutcome(p: Protocol, s: State, d: Client.Delivered)
    requires Inv(p, s) && d in s.client.received && s.client.loopPc.Idle?
    ensures Concluded(s.client, d)
  {
    var c := s.client;
    assert DeliveryOk(p, s, d);
    var i :| 0 <= i < |c.received| && c.received[i] == d;
    assert Settled(c, c.received[i].id);
    assert Client.LeftBecause(c, d.id);
    if d.id in c.promises {
      SameDelivery(p, s, d, Client.Delivered(d.id, c.promises[d.id]));
    } else if d.id !in c.expired {
      var j :| 0 <= j < |c.fired| && c.fired[j].id == d.id;
      SameDelivery(p, s, d, c.fired[j]);
    }
  }

  lemma SameDelivery(p: Protocol, s: State, a: Client.Delivered, b: Client.Delivered)
    requires Nodes(p, s) && Deliveries(p, s) && a in s.client.received && b in s.client.received && a.id == b.id
    ensures a == b
  {
    assert DeliveryOk(p, s, a) && DeliveryOk(p, s, b);
    OneGenuine(p, s, a.id, a.response, b.response);
  }

  /**
   * In every reachable state, of the reply frames the client has consumed exactly those that are not
   * empty and parse have been given to onRpcResponse.
   */
  lemma ConsumedHeardExactly(p: Protocol, s: State, n: nat, k: nat)
    requires Sound(p) && Reachable(p, s) && n < |s.nodes| && k < s.nodes[n].taken
    ensures s.nodes[n].server.conns != [] && k < |s.nodes[n].server.conns[0].sent|
    ensures var x := s.nodes[n].server.conns[0].sent[k];
            && x.cause.Dispatched?
            && (Client.Delivered(x.frame.id, x.cause.reply.response) in s.client.received <==> Audible(p, x.frame))
  {
    ReachableInv(p, s);
    assert NodeHeard(p, s.client, s.nodes[n]) && NodeInv(p, s.nodes[n]);
    assert HeardAt(p, s.client, s.nodes[n], k);
    ReplyIsDispatched(p, s.nodes[n], k);
    var x := s.nodes[n].server.conns[0].sent[k];
    var d := Client.Delivered(x.frame.id, x.cause.reply.response);
    assert d in s.client.received ==> DeliveryOk(p, s, d);
  }

  /** The same for the reply to an id, once all the replies have been read. */
  lemma HeardExactly(p: Protocol, s: State, d: Client.Delivered)
    requires Sound(p) && Inv(p, s) && ReplyFrameSent(p, s, d) && AllRead(s, s.nodes[s.origin[d.id].node])
    ensures d in s.client.received <==> Audible(p, Frame(0, p.writeResponse(d.response)))
  {
    if d in s.client.received {
      assert DeliveryOk(p, s, d);
    } else {
      var n := s.nodes[s.origin[d.id].node];
      AllReadTaken(p, n);
      ReadAndHeard(p, s.client, n, d);
    }
  }

  lemma ReadAndHeard(p: Protocol, c: Client.State, n: Node, d: Client.Delivered)
    requires Sound(p) && NodeHeard(p, c, n) && n.taken == |Replies(n)|
    requires d.id < TWO64 && Frame(d.id, p.writeResponse(d.response)) in Replies(n)
    ensures Audible(p, Frame(0, p.writeResponse(d.response))) ==> d in c.received
  {
    var k :| 0 <= k < |Replies(n)| && Replies(n)[k] == Frame(d.id, p.writeResponse(d.response));
    assert HeardAt(p, c, n, k);
  }

  /**
   * What becomes of a call's attempt once its server is at rest and the client has read all its
   * replies: if the reply is not empty and parses, it was put in the promise or given to the closure,
   * or the attempt had timed out; and otherwise neither happened, and the attempt has timed out or is
   * still waiting.
   */
  lemma RestingClientSettled(p: Protocol, s: State, id: nat) returns (response: RpcResponse)
    requires Sound(p) && Reachable(p, s) && id in s.origin
    requires s.origin[id].node < |s.nodes| && AtRest(s.nodes[s.origin[id].node]) && AllRead(s, s.nodes[s.origin[id].node])
    ensures Genuine(s, Client.Delivered(id, response)) && ReplyFrameSent(p, s, Client.Delivered(id, response))
    ensures if Audible(p, Frame(0, p.writeResponse(response))) then Concluded(s.client, Client.Delivered(id, response))
            else Client.Held(s.client, id) && Unheard(s.client, id)
                 && (id in s.client.left ==> id in s.client.expired)
  {
    response := RestingSystemAnswered(p, s, id);
    ReachableInv(p, s);
    var d := Client.Delivered(id, response);
    HeardExactly(p, s, d);
    if d in s.client.received {
      ReceivedOutcome(p, s, d);
    } else {
      SentIsHeld(p, s, id);
      UnheardOutcome(p, s, d);
    }
  }

  ghost predicate Unheard(c: Client.State, id: nat) {
    id !in c.promises && !Client.FiredFor(c, id) && (forall i :: 0 <= i < |c.received| ==> c.received[i].id != id)
  }

  lemma UnheardOutcome(p: Protocol, s: State, d: Client.Delivered)
    requires Inv(p, s) && Genuine(s, d) && d !in s.client.received && s.client.loopPc.Idle?
    ensures Unheard(s.client, d.id) && (d.id in s.client.left ==> d.id in s.client.expired)
  {
    forall i | 0 <= i < |s.client.received| ensures s.client.received[i].id != d.id {
      OtherReceived(p, s, d, s.client.received[i]);
    }
    NothingHeard(s.client, d.id);
  }

  lemma OtherReceived(p: Protocol, s: State, d: Client.Delivered, x: Client.Delivered)
    requires Nodes(p, s) && Deliveries(p, s) && Genuine(s, d) && d !in s.client.received && x in s.client.received
    ensures x.id != d.id
  {
    assert DeliveryOk(p, s, x);
    if x.id == d.id {
      OneGenuine(p, s, d.id, d.response, x.response);
    }
  }

  lemma NothingHeard(c: Client.State, id: nat)
    requires Client.PromisesOk(c) && Client.Reasons(c) && Client.Sources(c)
    requires forall i :: 0 <= i < |c.received| ==> c.received[i].id != id
    ensures Unheard(c, id) && (id in c.left ==> id in c.expired)
  {
    assert id in c.left ==> Client.LeftBecause(c, id);
  }

  // ---- The protocol of the repository

  /**
   * The generated messages, and dispatchRequest over the registered services; payloads are not empty
   * and frames stay under the decoder's cap.
   */
  function Protobuf(services: Server.Services): Protocol {
    Protocol(SerializeRequest, ParseRequest, SerializeResponse, ParseResponse,
             q => ParseableRequest(q) && Good(Frame(0, SerializeRequest(q))),
             (q, r) => r == Server.DispatchRequest(services, q) && Fits(Frame(0, SerializeResponse(r))))
  }

  lemma ProtobufSound(services: Server.Services)
    ensures Sound(Protobuf(services))
  {
    var p := Protobuf(services);
    forall q | p.sendable(q)
      ensures p.parseRequest(p.writeRequest(q)) == Some(q) && Good(Frame(0, p.writeRequest(q)))
    {
      RequestRoundTrip(q);
    }
    forall r | p.parseResponse(p.writeResponse(r)).Some?
      ensures p.parseResponse(p.writeResponse(r)) == Some(r)
    {
      ResponseRoundTrip(r);
    }
  }

  /** The reply of a call is what dispatchRequest computes for the call's request. */
  ghost predicate OwnResult(services: Server.Services, c: Client.State, d: Client.Delivered) {
    Known(c, d.id) && d.response == Server.DispatchRequest(services, RequestOf(c, d.id))
  }

  /**
   * End-to-end matching of the repository's own messages: every promise, every done closure and every
   * successful call gets the dispatch result of the request that the call was made with.
   */
  lemma RepliesAreDispatchResults(services: Server.Services, s: State)
    requires Reachable(Protobuf(services), s)
    ensures forall i :: 0 <= i < |s.client.promised| ==> OwnResult(services, s.client, s.client.promised[i])
    ensures forall i :: 0 <= i < |s.client.fired| ==> OwnResult(services, s.client, s.client.fired[i])
    ensures forall c :: 0 <= c < |s.client.calls| && s.client.calls[c].pc.Succeeded? ==>
              s.client.calls[c].pc.response == Server.DispatchRequest(services, s.client.calls[c].request)
  {
    var p := Protobuf(services);
    ProtobufSound(services);
    EndToEndMatching(p, s);
    ReachableInv(p, s);
    forall i | 0 <= i < |s.client.promised| ensures OwnResult(services, s.client, s.client.promised[i]) {
      assert Matched(p, s, s.client.promised[i]);
    }
    forall i | 0 <= i < |s.client.fired| ensures OwnResult(services, s.client, s.client.fired[i]) {
      assert Matched(p, s, s.client.fired[i]);
    }
    forall c | 0 <= c < |s.client.calls| && s.client.calls[c].pc.Succeeded?
      ensures s.client.calls[c].pc.response == Server.DispatchRequest(services, s.client.calls[c].request)
    {
      assert SucceededWithOwnReply(p, s, s.client.calls[c]);
      Client.Owns(s.client, c);
    }
  }

  // ---- The reply that cannot be heard

  lemma EmptyNotReceived(services: Server.Services, s: State, id: nat)
    requires Inv(Protobuf(services), s) && Known(s.client, id)
    requires Server.Succeeds(services, RequestOf(s.client, id), [])
    ensures forall i :: 0 <= i < |s.client.received| ==> s.client.received[i].id != id
  {
    var p := Protobuf(services);
    forall i | 0 <= i < |s.client.received| ensures s.client.received[i].id != id {
      var d := s.client.received[i];
      assert DeliveryOk(p, s, d);
      if d.id == id {
        GenuineMatched(p, s, d);
        Server.EmptyReplyExactly(services, RequestOf(s.client, id));
      }
    }
  }

  /**
   * A call whose method succeeds with a result that serialises to nothing: in every reachable state no
   * reply to any of its attempts has been received, it has not succeeded, and its closure has not run,
   * unless it never sent anything.
   */
  lemma EmptyResultNeverSeen(services: Server.Services, s: State, c: nat)
    requires Reachable(Protobuf(services), s) && c < |s.client.calls|
    requires Server.Succeeds(services, s.client.calls[c].request, [])
    ensures !s.client.calls[c].pc.Succeeded?
    ensures forall id :: id in s.client.calls[c].attempts ==> Unheard(s.client, id)
    ensures c in s.client.done ==> s.client.calls[c].attempts == []
  {
    ProtobufSound(services);
    ReachableInv(Protobuf(services), s);
    forall id | id in s.client.calls[c].attempts
      ensures Unheard(s.client, id) && (id in s.client.left ==> id in s.client.expired)
    {
      AttemptKnown(s.client, c, id);
      EmptyNotReceived(services, s, id);
      NothingHeard(s.client, id);
    }
    UnheardCall(s.client, c);
  }

  /** A call none of whose attempts was heard of has not succeeded, and has run no closure after sending. */
  lemma UnheardCall(c: Client.State, call: nat)
    requires Client.Inv(c) && call < |c.calls|
    requires forall id :: id in c.calls[call].attempts ==> Unheard(c, id)
    ensures !c.calls[call].pc.Succeeded?
    ensures call in c.done ==> c.calls[call].attempts == []
  {
    assert Client.CallOk(c, c.calls[call]);
  }

  lemma AttemptKnown(c: Client.State, call: nat, id: nat)
    requires Client.Ids(c) && call < |c.calls| && id in c.calls[call].attempts && |c.owner| <= TWO64
    ensures Known(c, id) && c.owner[id] == call && RequestOf(c, id) == c.calls[call].request
  {
  }
}
