/**
 * The server: the I/O thread decodes requests and queues jobs, pool workers dispatch them in any
 * order and post the replies back to the event loop, which sends them with the id they came with.
 * The thread pool and the event loop are the machines of ThreadPool and EventLoop.
 */
module Server {
  import opened Sequences
  import opened Bytes
  import opened Codec
  import opened Messages
  import Stream
  import Pool = ThreadPool
  import Loop = EventLoop

  // ---- dispatchRequest

  /** What a business method does with the serialised arguments. */
  datatype Outcome =
    | Unparseable
    | Throws(what: seq<byte>)
    | ThrowsUnknown
    | Returns(result: seq<byte>)

  type Method = seq<byte> -> Outcome
  type Services = map<seq<byte>, map<seq<byte>, Method>>

  const EXCEPTION_PREFIX: seq<byte>   // "Service exception: "
    := [83, 101, 114, 118, 105, 99, 101, 32, 101, 120, 99, 101, 112, 116, 105, 111, 110, 58, 32]
  const UNKNOWN_EXCEPTION: seq<byte>  // "Unknown service exception"
    := [85, 110, 107, 110, 111, 119, 110, 32, 115, 101, 114, 118, 105, 99, 101, 32,
        101, 120, 99, 101, 112, 116, 105, 111, 110]

  function DispatchRequest(services: Services, request: RpcRequest): RpcResponse {
    if request.serviceName !in services then EMPTY_RESPONSE.(errorCode := NO_SERVICE) else
    var methods := services[request.serviceName];
    if request.methodName !in methods then EMPTY_RESPONSE.(errorCode := NO_METHOD) else
    match methods[request.methodName](request.args)
    case Unparseable => EMPTY_RESPONSE.(errorCode := INVALID_ARGUMENT)
    case Throws(what) => RpcResponse(INTERNAL_ERROR, EXCEPTION_PREFIX + what, [])
    case ThrowsUnknown => RpcResponse(INTERNAL_ERROR, UNKNOWN_EXCEPTION, [])
    case Returns(result) => RpcResponse(NO_ERROR, [], result)
  }

  predicate Found(services: Services, request: RpcRequest) {
    request.serviceName in services && request.methodName in services[request.serviceName]
  }

  /** What the method that a request names does with its arguments. */
  function OutcomeOf(services: Services, request: RpcRequest): Outcome
    requires Found(services, request)
  {
    services[request.serviceName][request.methodName](request.args)
  }

  /** The method a request names returned this result. */
  predicate Succeeds(services: Services, request: RpcRequest, result: seq<byte>) {
    Found(services, request) && OutcomeOf(services, request) == Returns(result)
  }

  /**
   * A reply frame has an empty payload, which the client's decoder cannot tell from an incomplete
   * frame, exactly when the method succeeded with a result that serialises to nothing.
   */
  lemma EmptyReplyExactly(services: Services, request: RpcRequest)
    ensures SerializeResponse(DispatchRequest(services, request)) == []
            <==> Succeeds(services, request, [])
  {
    ResponseEmptyExactly(DispatchRequest(services, request));
  }

  /**
   * What an error code tells the caller: which lookup failed, that the arguments did not parse, or that
   * the method threw, and then what; a result comes with NO_ERROR only, a message with INTERNAL_ERROR
   * only, and WRONG_PROTO is left to unparseable requests.
   */
  lemma DispatchTells(services: Services, request: RpcRequest)
    ensures var r := DispatchRequest(services, request);
            && (r.errorCode == NO_SERVICE <==> request.serviceName !in services)
            && (r.errorCode == NO_METHOD <==> request.serviceName in services && !Found(services, request))
            && (r.errorCode == INVALID_ARGUMENT <==>
                  Found(services, request) && OutcomeOf(services, request).Unparseable?)
            && (r.errorCode == INTERNAL_ERROR <==>
                  Found(services, request)
                  && (OutcomeOf(services, request).Throws? || OutcomeOf(services, request).ThrowsUnknown?))
            && (r.errorCode == NO_ERROR <==> Succeeds(services, request, r.result))
            && (r.errorCode == INTERNAL_ERROR ==>
                  r.errorMsg == match OutcomeOf(services, request)
                                case Throws(what) => EXCEPTION_PREFIX + what
                                case _ => UNKNOWN_EXCEPTION)
            && (r.errorMsg != [] <==> r.errorCode == INTERNAL_ERROR)
            && (r.result != [] ==> r.errorCode == NO_ERROR)
            && r.errorCode != WRONG_PROTO
  {
  }

  // ---- The machine

  /** A decoded request; `index` is the frame's position among those decoded on its connection. */
  datatype Job = Job(conn: nat, index: nat, id: uint64, request: RpcRequest)

  datatype Reply = Reply(job: Job, response: RpcResponse)

  /** Why a frame was sent: a dispatched job, or the unparseable request at an index. */
  datatype Cause = Dispatched(reply: Reply) | Unparsed(index: nat)

  datatype Sent = Sent(frame: Frame, cause: Cause)

  datatype Conn = Conn(
    inbox: seq<byte>,        // received and not consumed
    decoded: seq<Frame>,     // history: every frame the decoder produced
    sent: seq<Sent>,         // history: every frame given to send
    wire: seq<byte>,         // history: the bytes that have left
    outbox: seq<byte>)       // the bytes still to leave

  /** How payloads are read and written; the proofs need nothing more about the encoding. */
  datatype Format = Format(parse: seq<byte> -> Option<RpcRequest>, write: RpcResponse -> seq<byte>)

  datatype State = State(
    conns: seq<Conn>,
    pool: Pool.State<Job>,
    loop: Loop.State<Reply>,
    draining: Option<nat>)   // the connection whose onMessage loop is running

  datatype Step =
    | Receive(conn: nat, chunk: seq<byte>)     // handleRead
    | Decode                                   // one turn of the onMessage loop
    | Notify(woken: nat)                       // the notify_one of enqueue
    | WorkerWake(worker: nat)
    | WorkerCheck(worker: nat)
    | Dispatch(worker: nat, response: RpcResponse)  // run the task and post the reply
    | WorkerWrite(worker: nat)                 // the eventfd write after the post
    | EpollReturn(wakeup: bool)
    | ReadWakeup
    | SwapFunctors
    | RunFunctor                               // send one reply
    | Iterate
    | Transmit(conn: nat, count: nat)          // bytes leave through the socket

  function NewConn(): Conn { Conn([], [], [], [], []) }

  function Init(conns: nat, threads: nat): State {
    State(seq(conns, _ => NewConn()), Pool.Init(threads), Loop.Init(threads), None)
  }

  function ErrorReply(): RpcResponse { EMPTY_RESPONSE.(errorCode := WRONG_PROTO) }

  function Send(c: Conn, sent: Sent): Conn {
    c.(sent := c.sent + [sent], outbox := c.outbox + Encode(sent.frame))
  }

  predicate RunningAt(s: State, w: nat) { w < |s.pool.workers| && s.pool.workers[w].Running? }

  predicate Enabled(s: State, step: Step) {
    match step
    case Receive(c, chunk) => s.loop.pc.Handling? && s.draining.None? && c < |s.conns| && chunk != []
    case Decode => s.draining.Some? && s.draining.value < |s.conns| && s.pool.notifies == 0
    case Notify(w) => Pool.Enabled(s.pool, Pool.NotifyOne(w))
    case WorkerWake(w) => Pool.Enabled(s.pool, Pool.Wake(w))
    case WorkerCheck(w) => Pool.Enabled(s.pool, Pool.Check(w)) && w !in s.loop.owing
    case Dispatch(w, _) => RunningAt(s, w) && w !in s.loop.owing
    case WorkerWrite(w) => w in s.loop.owing
    case EpollReturn(b) => Loop.Enabled(s.loop, Loop.Return(b))
    case ReadWakeup => Loop.Enabled(s.loop, Loop.ReadWakeup) && s.draining.None?
    case SwapFunctors => Loop.Enabled(s.loop, Loop.Swap) && s.draining.None?
    case RunFunctor => Loop.Enabled(s.loop, Loop.RunOne) && s.loop.pc.batch[0].functor.job.conn < |s.conns|
    case Iterate => Loop.Enabled(s.loop, Loop.Iterate)
    case Transmit(c, n) => c < |s.conns| && n <= |s.conns[c].outbox|
  }

  /** One turn of the onMessage loop on connection `c`. */
  function DecodeOne(fmt: Format, s: State, c: nat): State
    requires c < |s.conns|
  {
    var conn := s.conns[c];
    Stream.UnpackedIdInRange(conn.inbox, 0);
    var u := UnpackWithId(conn.inbox, 0);
    if u.data == [] then
      s.(conns := s.conns[c := conn.(inbox := u.rest)], draining := None)
    else
      var f := Frame(u.id, u.data);
      var read := conn.(inbox := u.rest, decoded := conn.decoded + [f]);
      match fmt.parse(f.payload)
      case Some(request) =>
        s.(conns := s.conns[c := read],
           pool := Pool.Apply(s.pool, Pool.Push(Job(c, |conn.decoded|, f.id, request))))
      case None =>
        s.(conns := s.conns[c := Send(read, Sent(Frame(f.id, fmt.write(ErrorReply())), Unparsed(|conn.decoded|)))])
  }

  function SendReply(fmt: Format, s: State): State
    requires Enabled(s, RunFunctor)
  {
    var r := s.loop.pc.batch[0].functor;
    var c := r.job.conn;
    s.(conns := s.conns[c := Send(s.conns[c], Sent(Frame(r.job.id, fmt.write(r.response)), Dispatched(r)))],
       loop := Loop.Apply(s.loop, Loop.RunOne))
  }

  function Apply(fmt: Format, s: State, step: Step): State
    requires Enabled(s, step)
  {
    match step
    case Receive(c, chunk) =>
      s.(conns := s.conns[c := s.conns[c].(inbox := s.conns[c].inbox + chunk)], draining := Some(c))
    case Decode => DecodeOne(fmt, s, s.draining.value)
    case Notify(w) => s.(pool := Pool.Apply(s.pool, Pool.NotifyOne(w)))
    case WorkerWake(w) => s.(pool := Pool.Apply(s.pool, Pool.Wake(w)))
    case WorkerCheck(w) => s.(pool := Pool.Apply(s.pool, Pool.Check(w)))
    case Dispatch(w, response) =>
      s.(pool := Pool.Apply(s.pool, Pool.Finish(w)),
         loop := Loop.Apply(s.loop, Loop.Post(w, Reply(s.pool.workers[w].task, response))))
    case WorkerWrite(w) => s.(loop := Loop.Apply(s.loop, Loop.Write(w)))
    case EpollReturn(b) => s.(loop := Loop.Apply(s.loop, Loop.Return(b)))
    case ReadWakeup => s.(loop := Loop.Apply(s.loop, Loop.ReadWakeup))
    case SwapFunctors => s.(loop := Loop.Apply(s.loop, Loop.Swap))
    case RunFunctor => SendReply(fmt, s)
    case Iterate => s.(loop := Loop.Apply(s.loop, Loop.Iterate))
    case Transmit(c, n) =>
      var conn := s.conns[c];
      s.(conns := s.conns[c := conn.(wire := conn.wire + conn.outbox[..n], outbox := conn.outbox[n..])])
  }

  // ---- The invariant

  function Jobs(rs: seq<Reply>): (js: seq<Job>)
    ensures |js| == |rs|
  {
    seq(|rs|, i requires 0 <= i < |rs| => rs[i].job)
  }

  ghost predicate DrainsInHandler(s: State) {
    s.draining.Some? ==> s.loop.pc.Handling? && s.draining.value < |s.conns|
  }

  /** The two machines keep their own invariants, and a task finishes as its reply is posted. */
  ghost predicate Kernels(s: State) {
    && Pool.Inv(s.pool) && Loop.Inv(s.loop)
    && !s.pool.stop
    && DrainsInHandler(s)
    && s.loop.owner == |s.pool.workers|
    && (forall i :: 0 <= i < |s.loop.pending| ==> s.loop.pending[i].poster < s.loop.owner)
    && Jobs(s.loop.posted) == s.pool.finished
  }

  /** A job is the request parsed from the frame it points at. */
  ghost predicate JobOk(fmt: Format, s: State, j: Job) {
    && j.conn < |s.conns| && j.index < |s.conns[j.conn].decoded|
    && s.conns[j.conn].decoded[j.index].id == j.id
    && fmt.parse(s.conns[j.conn].decoded[j.index].payload) == Some(j.request)
  }

  /** Jobs and parseable decoded frames correspond one to one. */
  ghost predicate Accepted(fmt: Format, s: State) {
    && (forall i :: 0 <= i < |s.pool.pushed| ==> JobOk(fmt, s, s.pool.pushed[i]))
    && (forall i, j :: 0 <= i < j < |s.pool.pushed| ==>
          s.pool.pushed[i].conn != s.pool.pushed[j].conn || s.pool.pushed[i].index != s.pool.pushed[j].index)
    && (forall c, k :: 0 <= c < |s.conns| && 0 <= k < |s.conns[c].decoded| ==> Queued(fmt, s, c, k))
  }

  ghost predicate Queued(fmt: Format, s: State, c: nat, k: nat)
    requires c < |s.conns| && k < |s.conns[c].decoded|
  {
    var f := s.conns[c].decoded[k];
    fmt.parse(f.payload).Some? ==> Job(c, k, f.id, fmt.parse(f.payload).value) in s.pool.pushed
  }

  ghost predicate SentOk(fmt: Format, s: State, c: nat, x: Sent)
    requires c < |s.conns|
  {
    match x.cause
    case Dispatched(r) =>
      r in s.loop.executed && r.job.conn == c && x.frame == Frame(r.job.id, fmt.write(r.response))
    case Unparsed(k) =>
      k < |s.conns[c].decoded| && fmt.parse(s.conns[c].decoded[k].payload).None?
      && x.frame == Frame(s.conns[c].decoded[k].id, fmt.write(ErrorReply()))
  }

  function Frames(xs: seq<Sent>): (fs: seq<Frame>)
    ensures |fs| == |xs|
  {
    seq(|xs|, i requires 0 <= i < |xs| => xs[i].frame)
  }

  ghost predicate ConnOk(fmt: Format, s: State, c: nat)
    requires c < |s.conns|
  {
    && (forall k :: 0 <= k < |s.conns[c].sent| ==> SentOk(fmt, s, c, s.conns[c].sent[k]))
    && s.conns[c].wire + s.conns[c].outbox == EncodeAll(Frames(s.conns[c].sent))
  }

  // ---- Keeping account of what was sent

  /** The values `f` finds, in order. */
  function Pick<A, B>(f: A -> Option<B>, xs: seq<A>): (ys: seq<B>)
    ensures |ys| <= |xs|
  {
    if xs == [] then [] else
    var n := |xs| - 1;
    Pick(f, xs[..n]) + (match f(xs[n]) case None => [] case Some(y) => [y])
  }

  lemma PickSnoc<A, B>(f: A -> Option<B>, xs: seq<A>, x: A)
    ensures Pick(f, xs + [x]) == Pick(f, xs) + (match f(x) case None => [] case Some(y) => [y])
  {
    Snoc(xs, x);
  }

  /** How often `f` finds `y`. */
  ghost function Finds<A, B>(f: A -> Option<B>, xs: seq<A>, y: B): nat {
    if xs == [] then 0 else Finds(f, xs[..|xs| - 1], y) + if f(xs[|xs| - 1]) == Some(y) then 1 else 0
  }

  lemma {:induction false} FindsPicked<A, B>(f: A -> Option<B>, xs: seq<A>, y: B)
    ensures multiset(Pick(f, xs))[y] == Finds(f, xs, y)
  {
    if xs != [] {
      var n := |xs| - 1;
      FindsPicked(f, xs[..n], y);
      var front := Pick(f, xs[..n]);
      match f(xs[n])
      case None => assert Pick(f, xs) == front;
      case Some(z) =>
        assert Pick(f, xs) == front + [z];
        assert multiset(front + [z]) == multiset(front) + multiset{z};
    }
  }

  /** What is found in one place is counted, and what is found in two places is counted twice. */
  lemma {:induction false} FindsBoth<A, B>(f: A -> Option<B>, xs: seq<A>, i: nat, j: nat, y: B)
    requires i <= j < |xs| && f(xs[i]) == Some(y) && f(xs[j]) == Some(y)
    ensures Finds(f, xs, y) >= if i < j then 2 else 1
  {
    var n := |xs| - 1;
    if j < n {
      FindsBoth(f, xs[..n], i, j, y);
    } else if i < n {
      FindsBoth(f, xs[..n], i, i, y);
    }
  }

  lemma {:induction false} PickedFrom<A, B>(f: A -> Option<B>, xs: seq<A>, y: B) returns (i: nat)
    requires y in Pick(f, xs)
    ensures i < |xs| && f(xs[i]) == Some(y)
  {
    var n := |xs| - 1;
    if f(xs[n]) == Some(y) {
      i := n;
    } else {
      i := PickedFrom(f, xs[..n], y);
    }
  }

  function ReplyOf(x: Sent): Option<Reply> { if x.cause.Dispatched? then Some(x.cause.reply) else None }

  function UnparsedOf(x: Sent): Option<nat> { if x.cause.Unparsed? then Some(x.cause.index) else None }

  /** Which of the decoded frames a sent frame answers. */
  function IndexOf(x: Sent): nat { if x.cause.Dispatched? then x.cause.reply.job.index else x.cause.index }

  function IfOn(c: nat): Reply -> Option<Reply> { (r: Reply) => if r.job.conn == c then Some(r) else None }

  /** The indices of the frames that do not parse, in order. */
  function UnparseableIn(fmt: Format, fs: seq<Frame>): seq<nat> {
    if fs == [] then [] else
    var n := |fs| - 1;
    UnparseableIn(fmt, fs[..n]) + (if fmt.parse(fs[n].payload).None? then [n] else [])
  }

  lemma UnparseableSnoc(fmt: Format, fs: seq<Frame>, f: Frame)
    ensures UnparseableIn(fmt, fs + [f])
         == UnparseableIn(fmt, fs) + (if fmt.parse(f.payload).None? then [|fs|] else [])
  {
    Snoc(fs, f);
  }

  lemma {:induction false} UnparseableOnce(fmt: Format, fs: seq<Frame>, k: nat)
    ensures multiset(UnparseableIn(fmt, fs))[k] == if k < |fs| && fmt.parse(fs[k].payload).None? then 1 else 0
  {
    if fs != [] {
      UnparseableOnce(fmt, fs[..|fs| - 1], k);
    }
  }

  /**
   * The replies sent on a connection are, in order, the executed replies that belong to it, and the
   * error replies sent on it are, in order, those to the frames that did not parse.
   */
  ghost predicate AccountOk(fmt: Format, s: State, c: nat)
    requires c < |s.conns|
  {
    && Pick(ReplyOf, s.conns[c].sent) == Pick(IfOn(c), s.loop.executed)
    && Pick(UnparsedOf, s.conns[c].sent) == UnparseableIn(fmt, s.conns[c].decoded)
  }

  lemma AccountKept(fmt: Format, s: State, step: Step, c: nat)
    requires Enabled(s, step) && c < |s.conns| && AccountOk(fmt, s, c)
    ensures c < |Apply(fmt, s, step).conns| && AccountOk(fmt, Apply(fmt, s, step), c)
  {
    if step.RunFunctor? {
      SendReplyKeepsAccount(fmt, s, c);
    } else if step.Decode? {
      DecodeKeepsAccount(fmt, s, s.draining.value, c);
    } else {
      RecordsStay(fmt, s, step, c);
    }
  }

  lemma RecordsStay(fmt: Format, s: State, step: Step, c: nat)
    requires Enabled(s, step) && c < |s.conns| && !step.RunFunctor? && !step.Decode?
    ensures var s' := Apply(fmt, s, step);
            && c < |s'.conns| && s'.conns[c].sent == s.conns[c].sent && s'.conns[c].decoded == s.conns[c].decoded
            && s'.loop.executed == s.loop.executed
  {
  }

  lemma SendReplyKeepsAccount(fmt: Format, s: State, c: nat)
    requires Enabled(s, RunFunctor) && c < |s.conns| && AccountOk(fmt, s, c)
    ensures AccountOk(fmt, SendReply(fmt, s), c)
  {
    var r := s.loop.pc.batch[0].functor;
    PickSnoc(IfOn(c), s.loop.executed, r);
    SentSnoc(s.conns[c].sent, Sent(Frame(r.job.id, fmt.write(r.response)), Dispatched(r)));
  }

  lemma DecodeKeepsAccount(fmt: Format, s: State, d: nat, c: nat)
    requires d < |s.conns| && c < |s.conns| && AccountOk(fmt, s, c)
    ensures AccountOk(fmt, DecodeOne(fmt, s, d), c)
  {
    DecodeShape(fmt, s, d, c);
    AccountGrows(fmt, s, DecodeOne(fmt, s, d), c);
  }

  function ErrorTo(fmt: Format, f: Frame, k: nat): Sent { Sent(Frame(f.id, fmt.write(ErrorReply())), Unparsed(k)) }

  /** What decoding does to the records of a connection: nothing, or one frame, answered if it does not parse. */
  ghost predicate RecordsGrow(fmt: Format, a: Conn, b: Conn) {
    || (b.decoded == a.decoded && b.sent == a.sent)
    || (|b.decoded| == |a.decoded| + 1
        && var f := b.decoded[|a.decoded|];
           b.decoded == a.decoded + [f]
           && b.sent == if fmt.parse(f.payload).None? then a.sent + [ErrorTo(fmt, f, |a.decoded|)] else a.sent)
  }

  lemma DecodeShape(fmt: Format, s: State, d: nat, c: nat)
    requires d < |s.conns| && c < |s.conns|
    ensures RecordsGrow(fmt, s.conns[c], DecodeOne(fmt, s, d).conns[c])
    ensures DecodeOne(fmt, s, d).loop == s.loop
  {
  }

  lemma AccountGrows(fmt: Format, s: State, s': State, c: nat)
    requires c < |s.conns| && c < |s'.conns| && AccountOk(fmt, s, c)
    requires RecordsGrow(fmt, s.conns[c], s'.conns[c]) && s'.loop.executed == s.loop.executed
    ensures AccountOk(fmt, s', c)
  {
    var a, b := s.conns[c], s'.conns[c];
    if b.decoded != a.decoded {
      var f := b.decoded[|a.decoded|];
      UnparseableSnoc(fmt, a.decoded, f);
      SentSnoc(a.sent, ErrorTo(fmt, f, |a.decoded|));
    }
  }

  lemma SentSnoc(xs: seq<Sent>, x: Sent)
    ensures Pick(ReplyOf, xs + [x]) == Pick(ReplyOf, xs) + (if x.cause.Dispatched? then [x.cause.reply] else [])
    ensures Pick(UnparsedOf, xs + [x]) == Pick(UnparsedOf, xs) + (if x.cause.Unparsed? then [x.cause.index] else [])
  {
    PickSnoc(ReplyOf, xs, x);
    PickSnoc(UnparsedOf, xs, x);
  }

  ghost predicate ReplySent(fmt: Format, s: State, r: Reply) {
    r.job.conn < |s.conns|
    && Sent(Frame(r.job.id, fmt.write(r.response)), Dispatched(r)) in s.conns[r.job.conn].sent
  }

  /** What is sent is what was executed, each once, and the bytes that leave are the encoded frames. */
  ghost predicate Answered(fmt: Format, s: State) {
    && (forall c :: 0 <= c < |s.conns| ==> ConnOk(fmt, s, c) && AccountOk(fmt, s, c))
    && (forall i :: 0 <= i < |s.loop.executed| ==> ReplySent(fmt, s, s.loop.executed[i]))
  }

  ghost predicate Inv(fmt: Format, s: State) {
    Kernels(s) && Accepted(fmt, s) && Answered(fmt, s)
  }

  lemma InitInv(fmt: Format, conns: nat, threads: nat)
    ensures Inv(fmt, Init(conns, threads))
  {
    Pool.InitInv<Job>(threads);
    assert Loop.Inv<Reply>(Loop.Init(threads));
    var s := Init(conns, threads);
    forall c | 0 <= c < |s.conns| ensures ConnOk(fmt, s, c) && AccountOk(fmt, s, c) {
      assert [] + [] == EncodeAll(Frames([]));
    }
  }

  // The steps of the two machines that a server step takes.

  function PoolStep(fmt: Format, s: State, step: Step): Option<Pool.Step<Job>>
    requires Enabled(s, step)
  {
    match step
    case Notify(w) => Some(Pool.NotifyOne(w))
    case WorkerWake(w) => Some(Pool.Wake(w))
    case WorkerCheck(w) => Some(Pool.Check(w))
    case Dispatch(w, _) => Some(Pool.Finish(w))
    case Decode =>
      var conn := s.conns[s.draining.value];
      Stream.UnpackedIdInRange(conn.inbox, 0);
      var u := UnpackWithId(conn.inbox, 0);
      if u.data == [] || fmt.parse(u.data).None? then None
      else Some(Pool.Push(Job(s.draining.value, |conn.decoded|, u.id, fmt.parse(u.data).value)))
    case _ => None
  }

  function LoopStep(s: State, step: Step): Option<Loop.Step<Reply>>
    requires Enabled(s, step)
  {
    match step
    case Dispatch(w, response) => Some(Loop.Post(w, Reply(s.pool.workers[w].task, response)))
    case WorkerWrite(w) => Some(Loop.Write(w))
    case EpollReturn(b) => Some(Loop.Return(b))
    case ReadWakeup => Some(Loop.ReadWakeup)
    case SwapFunctors => Some(Loop.Swap)
    case RunFunctor => Some(Loop.RunOne)
    case Iterate => Some(Loop.Iterate)
    case _ => None
  }

  lemma StepsProject(fmt: Format, s: State, step: Step)
    requires Enabled(s, step)
    ensures var p := PoolStep(fmt, s, step);
            p.Some? ==> Pool.Enabled(s.pool, p.value)
    ensures var p, s' := PoolStep(fmt, s, step), Apply(fmt, s, step);
            s'.pool == if p.Some? then Pool.Apply(s.pool, p.value) else s.pool
    ensures var l := LoopStep(s, step);
            l.Some? ==> Loop.Enabled(s.loop, l.value)
    ensures var l, s' := LoopStep(s, step), Apply(fmt, s, step);
            s'.loop == if l.Some? then Loop.Apply(s.loop, l.value) else s.loop
  {
  }

  lemma DrainsInHandlerKept(fmt: Format, s: State, step: Step)
    requires DrainsInHandler(s) && Enabled(s, step)
    ensures DrainsInHandler(Apply(fmt, s, step))
  {
  }

  lemma KernelsKept(fmt: Format, s: State, step: Step)
    requires Kernels(s) && Enabled(s, step)
    ensures Kernels(Apply(fmt, s, step))
  {
    StepsProject(fmt, s, step);
    var p, l := PoolStep(fmt, s, step), LoopStep(s, step);
    if p.Some? {
      Pool.StepKeepsInv(s.pool, p.value);
    }
    if l.Some? {
      Loop.StepKeepsInv(s.loop, l.value);
      PendingPosters(s.loop, l.value);
    }
    DrainsInHandlerKept(fmt, s, step);
    PostedFinished(fmt, s, step);
  }

  lemma PostedFinished(fmt: Format, s: State, step: Step)
    requires Enabled(s, step) && Jobs(s.loop.posted) == s.pool.finished
    ensures Jobs(Apply(fmt, s, step).loop.posted) == Apply(fmt, s, step).pool.finished
  {
  }

  lemma PendingPosters(s: Loop.State<Reply>, step: Loop.Step<Reply>)
    requires Loop.Enabled(s, step) && (step.Post? ==> step.poster < s.owner)
    requires forall i :: 0 <= i < |s.pending| ==> s.pending[i].poster < s.owner
    ensures var s' := Loop.Apply(s, step);
            s'.owner == s.owner && forall i :: 0 <= i < |s'.pending| ==> s'.pending[i].poster < s'.owner
  {
  }

  // Decoded frames only accumulate, so what was said of the old ones stays true.

  ghost predicate Extends(s: State, s': State) {
    && |s'.conns| == |s.conns|
    && (forall c :: 0 <= c < |s.conns| ==> s.conns[c].decoded <= s'.conns[c].decoded)
    && s.pool.pushed <= s'.pool.pushed
    && s.loop.executed <= s'.loop.executed
  }

  lemma StepExtends(fmt: Format, s: State, step: Step)
    requires Enabled(s, step)
    ensures Extends(s, Apply(fmt, s, step))
  {
  }

  lemma AcceptedKept(fmt: Format, s: State, step: Step)
    requires Accepted(fmt, s) && Enabled(s, step)
    ensures Accepted(fmt, Apply(fmt, s, step))
  {
    var s' := Apply(fmt, s, step);
    StepExtends(fmt, s, step);
    if step.Decode? {
      AcceptedDecode(fmt, s, s.draining.value);
    } else {
      assert s'.pool.pushed == s.pool.pushed;
      forall i | 0 <= i < |s'.pool.pushed| ensures JobOk(fmt, s', s'.pool.pushed[i]) {
        assert JobOk(fmt, s, s.pool.pushed[i]);
      }
      forall c, k | 0 <= c < |s'.conns| && 0 <= k < |s'.conns[c].decoded| ensures Queued(fmt, s', c, k) {
        assert Queued(fmt, s, c, k);
      }
    }
  }

  lemma AcceptedDecode(fmt: Format, s: State, c: nat)
    requires Accepted(fmt, s) && c < |s.conns|
    ensures Accepted(fmt, DecodeOne(fmt, s, c))
  {
    var s' := DecodeOne(fmt, s, c);
    var n := |s.conns[c].decoded|;
    forall i | 0 <= i < |s'.pool.pushed| ensures JobOk(fmt, s', s'.pool.pushed[i]) {
      if i < |s.pool.pushed| {
        assert JobOk(fmt, s, s.pool.pushed[i]);
      }
    }
    forall i, j | 0 <= i < j < |s'.pool.pushed|
      ensures s'.pool.pushed[i].conn != s'.pool.pushed[j].conn || s'.pool.pushed[i].index != s'.pool.pushed[j].index
    {
      assert JobOk(fmt, s, s.pool.pushed[i]);
    }
    forall d, k | 0 <= d < |s'.conns| && 0 <= k < |s'.conns[d].decoded| ensures Queued(fmt, s', d, k) {
      if d == c && k == n {
        assert fmt.parse(s'.conns[c].decoded[n].payload).Some? ==> s'.pool.pushed[|s.pool.pushed|].index == n;
      } else {
        assert Queued(fmt, s, d, k);
      }
    }
  }

  lemma AnsweredKept(fmt: Format, s: State, step: Step)
    requires Answered(fmt, s) && Enabled(s, step)
    ensures Answered(fmt, Apply(fmt, s, step))
  {
    var s' := Apply(fmt, s, step);
    StepExtends(fmt, s, step);
    forall c | 0 <= c < |s'.conns| ensures ConnOk(fmt, s', c) && AccountOk(fmt, s', c) {
      ConnKept(fmt, s, step, c);
      AccountKept(fmt, s, step, c);
    }
    RepliesKept(fmt, s, step);
  }

  lemma ConnKept(fmt: Format, s: State, step: Step, c: nat)
    requires Enabled(s, step) && c < |s.conns| && ConnOk(fmt, s, c) && Extends(s, Apply(fmt, s, step))
    ensures ConnOk(fmt, Apply(fmt, s, step), c)
  {
    var s' := Apply(fmt, s, step);
    ConnShape(fmt, s, step, c);
    if s'.conns[c].sent == s.conns[c].sent {
      ConnCarried(fmt, s, s', c);
    } else {
      ConnSent(fmt, s, s', c);
    }
  }

  /** A step leaves the bytes to leave as they were, or adds one frame it has reason to send. */
  lemma ConnShape(fmt: Format, s: State, step: Step, c: nat)
    requires Enabled(s, step) && c < |s.conns|
    ensures var s' := Apply(fmt, s, step);
            var a, b := s.conns[c], s'.conns[c];
            || (b.sent == a.sent && b.wire + b.outbox == a.wire + a.outbox)
            || (&& |b.sent| == |a.sent| + 1 && a.sent <= b.sent && b.wire == a.wire
                && b.outbox == a.outbox + Encode(b.sent[|a.sent|].frame)
                && SentOk(fmt, s', c, b.sent[|a.sent|]))
  {
  }

  lemma RepliesKept(fmt: Format, s: State, step: Step)
    requires Answered(fmt, s) && Enabled(s, step)
    ensures var s' := Apply(fmt, s, step);
            forall i :: 0 <= i < |s'.loop.executed| ==> ReplySent(fmt, s', s'.loop.executed[i])
  {
  }

  lemma ConnCarried(fmt: Format, s: State, s': State, c: nat)
    requires Extends(s, s') && c < |s.conns| && s'.conns[c].sent == s.conns[c].sent
    requires forall k :: 0 <= k < |s.conns[c].sent| ==> SentOk(fmt, s, c, s.conns[c].sent[k])
    ensures forall k :: 0 <= k < |s'.conns[c].sent| ==> SentOk(fmt, s', c, s'.conns[c].sent[k])
  {
  }

  lemma ConnSent(fmt: Format, s: State, s': State, c: nat)
    requires Extends(s, s') && c < |s.conns| && ConnOk(fmt, s, c)
    requires |s'.conns[c].sent| == |s.conns[c].sent| + 1 && s.conns[c].sent <= s'.conns[c].sent
    requires var x := s'.conns[c].sent[|s.conns[c].sent|];
             SentOk(fmt, s', c, x) && s'.conns[c].wire == s.conns[c].wire
             && s'.conns[c].outbox == s.conns[c].outbox + Encode(x.frame)
    ensures ConnOk(fmt, s', c)
  {
    var old_, x := s.conns[c].sent, s'.conns[c].sent[|s.conns[c].sent|];
    forall k | 0 <= k < |s'.conns[c].sent| ensures SentOk(fmt, s', c, s'.conns[c].sent[k]) {
      if k < |old_| {
        assert SentOk(fmt, s, c, old_[k]);
      }
    }
    assert s'.conns[c].sent == old_ + [x];
    SentBytes(s.conns[c].wire, s.conns[c].outbox, old_, x);
  }

  lemma SentBytes(wire: seq<byte>, out: seq<byte>, xs: seq<Sent>, x: Sent)
    requires wire + out == EncodeAll(Frames(xs))
    ensures wire + (out + Encode(x.frame)) == EncodeAll(Frames(xs + [x]))
  {
    assert Frames(xs + [x]) == Frames(xs) + [x.frame];
    EncodeAllAppend(Frames(xs), [x.frame]);
    EncodeAllOne(x.frame);
    assert wire + (out + Encode(x.frame)) == wire + out + Encode(x.frame);
  }

  lemma StepKeepsInv(fmt: Format, s: State, step: Step)
    requires Inv(fmt, s) && Enabled(s, step)
    ensures Inv(fmt, Apply(fmt, s, step))
  {
    KernelsKept(fmt, s, step);
    AcceptedKept(fmt, s, step);
    AnsweredKept(fmt, s, step);
  }

  // ---- Whole runs

  ghost predicate Runs(fmt: Format, s: State, steps: seq<Step>)
    decreases |steps|
  {
    steps == [] || (Enabled(s, steps[0]) && Runs(fmt, Apply(fmt, s, steps[0]), steps[1..]))
  }

  ghost function After(fmt: Format, s: State, steps: seq<Step>): State
    requires Runs(fmt, s, steps)
    decreases |steps|
  {
    if steps == [] then s else After(fmt, Apply(fmt, s, steps[0]), steps[1..])
  }

  lemma {:induction false} RunKeepsInv(fmt: Format, s: State, steps: seq<Step>)
    requires Inv(fmt, s) && Runs(fmt, s, steps)
    ensures Inv(fmt, After(fmt, s, steps))
    ensures |After(fmt, s, steps).pool.workers| == |s.pool.workers|
    decreases |steps|
  {
    if steps != [] {
      StepKeepsInv(fmt, s, steps[0]);
      StepsProject(fmt, s, steps[0]);
      if PoolStep(fmt, s, steps[0]).Some? {
        Pool.StepKeepsInv(s.pool, PoolStep(fmt, s, steps[0]).value);
      }
      RunKeepsInv(fmt, Apply(fmt, s, steps[0]), steps[1..]);
    }
  }

  ghost function PendingJobs(s: State): seq<Job> { Jobs(Loop.Functors(s.loop.pending)) }

  ghost function SwappedJobs(s: State): seq<Job> { Jobs(Loop.Functors(Loop.Batch(s.loop))) }

  ghost function AnsweredJobs(s: State): seq<Job> { Jobs(s.loop.executed) }

  /** Where every accepted request is: queued, in a worker, posted, swapped out, or its functor has run. */
  ghost predicate Tracked(s: State) {
    multiset(s.pool.pushed) == multiset(s.pool.queue) + Pool.InHand(s.pool.workers)
      + multiset(PendingJobs(s)) + multiset(SwappedJobs(s)) + multiset(AnsweredJobs(s))
  }

  lemma KernelsConserve(s: State)
    requires Kernels(s)
    ensures Tracked(s)
  {
    var a, b, c := s.loop.executed, Loop.Functors(Loop.Batch(s.loop)), Loop.Functors(s.loop.pending);
    JobsConcat(a + b, c);
    JobsConcat(a, b);
    Tally(s.pool.started, s.pool.queue, s.pool.finished, Pool.InHand(s.pool.workers), Jobs(a), Jobs(b), Jobs(c));
  }

  lemma JobsConcat(a: seq<Reply>, b: seq<Reply>)
    ensures Jobs(a + b) == Jobs(a) + Jobs(b)
  {
  }

  lemma Tally(started: seq<Job>, queue: seq<Job>, finished: seq<Job>, hand: multiset<Job>, a: seq<Job>, b: seq<Job>, c: seq<Job>)
    requires multiset(started) == multiset(finished) + hand && finished == a + b + c
    ensures multiset(started + queue) == multiset(queue) + hand + multiset(c) + multiset(b) + multiset(a)
  {
  }

  /** The jobs that the replies sent on a connection answer. */
  ghost function RepliedJobs(conn: Conn): seq<Job> { Jobs(Pick(ReplyOf, conn.sent)) }

  /** A request is, once, in one of five places, the last being the replies sent on its connection. */
  ghost predicate Conserved(s: State, j: Job)
    requires j.conn < |s.conns|
  {
    multiset(s.pool.pushed)[j] == multiset(s.pool.queue)[j] + Pool.InHand(s.pool.workers)[j]
      + multiset(PendingJobs(s))[j] + multiset(SwappedJobs(s))[j] + multiset(RepliedJobs(s.conns[j.conn]))[j]
  }

  lemma {:induction false} OnConnCounts(rs: seq<Reply>, j: Job)
    ensures multiset(Jobs(Pick(IfOn(j.conn), rs)))[j] == multiset(Jobs(rs))[j]
  {
    if rs != [] {
      var n := |rs| - 1;
      OnConnCounts(rs[..n], j);
      var front := Pick(IfOn(j.conn), rs[..n]);
      assert rs == rs[..n] + [rs[n]];
      JobsSnoc(rs[..n], rs[n]);
      JobsSnoc(front, rs[n]);
      NilUnit(front);
    }
  }

  lemma JobsSnoc(rs: seq<Reply>, r: Reply)
    ensures multiset(Jobs(rs + [r])) == multiset(Jobs(rs)) + multiset{r.job}
  {
    assert Jobs(rs + [r]) == Jobs(rs) + [r.job];
  }

  lemma JobConserved(fmt: Format, s: State, j: Job)
    requires Inv(fmt, s) && j.conn < |s.conns|
    ensures Conserved(s, j)
    ensures multiset(s.pool.pushed)[j] <= 1
  {
    KernelsConserve(s);
    OnConnCounts(s.loop.executed, j);
    assert AccountOk(fmt, s, j.conn);
    PushedOnce(s.pool.pushed, j);
  }

  /** No decoded frame is answered twice, by a reply or by an error reply. */
  lemma AnsweredOnce(fmt: Format, s: State, c: nat, i: nat, j: nat)
    requires Inv(fmt, s) && c < |s.conns| && i < j < |s.conns[c].sent|
    ensures IndexOf(s.conns[c].sent[i]) != IndexOf(s.conns[c].sent[j])
  {
    var xs := s.conns[c].sent;
    SentIndex(fmt, s, c, i);
    SentIndex(fmt, s, c, j);
    var k := IndexOf(xs[i]);
    if k == IndexOf(xs[j]) {
      if xs[i].cause.Unparsed? {
        assert AccountOk(fmt, s, c);
        FindsBoth(UnparsedOf, xs, i, j, k);
        FindsPicked(UnparsedOf, xs, k);
        UnparseableOnce(fmt, s.conns[c].decoded, k);
      } else {
        SameJob(fmt, s, xs[i].cause.reply.job, xs[j].cause.reply.job);
        JobRepliedTwice(s.conns[c], i, j);
        JobConserved(fmt, s, xs[i].cause.reply.job);
      }
    }
  }

  /** What a sent frame answers: a parseable frame through its job, or one that does not parse. */
  lemma SentIndex(fmt: Format, s: State, c: nat, i: nat)
    requires Inv(fmt, s) && c < |s.conns| && i < |s.conns[c].sent|
    ensures var x := s.conns[c].sent[i];
            && IndexOf(x) < |s.conns[c].decoded|
            && (x.cause.Unparsed? <==> fmt.parse(s.conns[c].decoded[IndexOf(x)].payload).None?)
            && (x.cause.Dispatched? ==>
                  x.cause.reply.job in s.pool.pushed && x.cause.reply.job.conn == c
                  && JobOk(fmt, s, x.cause.reply.job))
  {
    assert ConnOk(fmt, s, c);
    var x := s.conns[c].sent[i];
    assert SentOk(fmt, s, c, x);
    if x.cause.Dispatched? {
      ExecutedPushed(s, x.cause.reply);
      assert JobOk(fmt, s, x.cause.reply.job);
    }
  }

  lemma ExecutedPushed(s: State, r: Reply)
    requires Kernels(s) && r in s.loop.executed
    ensures r.job in s.pool.pushed
  {
    KernelsConserve(s);
    var i :| 0 <= i < |s.loop.executed| && s.loop.executed[i] == r;
    assert AnsweredJobs(s)[i] == r.job;
    assert r.job in multiset(AnsweredJobs(s));
    assert r.job in multiset(s.pool.pushed);
  }

  /** A job has one reply. */
  lemma OneReply(fmt: Format, s: State, a: Reply, b: Reply)
    requires Inv(fmt, s) && a in s.loop.executed && b in s.loop.executed && a.job == b.job
    ensures a == b
  {
    var i :| 0 <= i < |s.loop.executed| && s.loop.executed[i] == a;
    var j :| 0 <= j < |s.loop.executed| && s.loop.executed[j] == b;
    if i < j {
      ExecutedTwice(fmt, s, i, j);
    } else if j < i {
      ExecutedTwice(fmt, s, j, i);
    }
  }

  lemma ExecutedTwice(fmt: Format, s: State, i: nat, j: nat)
    requires Inv(fmt, s) && i < j < |s.loop.executed|
    ensures s.loop.executed[i].job != s.loop.executed[j].job
  {
    var js, job := AnsweredJobs(s), s.loop.executed[i].job;
    if job == s.loop.executed[j].job {
      CountTwice(js, i, j);
      KernelsConserve(s);
      PushedOnce(s.pool.pushed, job);
    }
  }

  lemma CountTwice<T>(xs: seq<T>, i: nat, j: nat)
    requires i < j < |xs| && xs[i] == xs[j]
    ensures multiset(xs)[xs[i]] >= 2
  {
    var x, front, back := xs[i], xs[..j], xs[j..];
    assert xs == front + back;
    assert front[i] == x && back[0] == x;
    assert x in multiset(front) && x in multiset(back);
  }

  lemma SameJob(fmt: Format, s: State, a: Job, b: Job)
    requires Accepted(fmt, s) && a in s.pool.pushed && b in s.pool.pushed && a.conn == b.conn && a.index == b.index
    ensures a == b
  {
  }

  lemma JobRepliedTwice(conn: Conn, i: nat, j: nat)
    requires i < j < |conn.sent| && conn.sent[i].cause.Dispatched? && conn.sent[j].cause.Dispatched?
    requires conn.sent[i].cause.reply.job == conn.sent[j].cause.reply.job
    ensures multiset(RepliedJobs(conn))[conn.sent[i].cause.reply.job] >= 2
  {
    JobsPicked(conn.sent);
    FindsBoth(JobOf, conn.sent, i, j, conn.sent[i].cause.reply.job);
    FindsPicked(JobOf, conn.sent, conn.sent[i].cause.reply.job);
  }

  function JobOf(x: Sent): Option<Job> { if x.cause.Dispatched? then Some(x.cause.reply.job) else None }

  lemma {:induction false} JobsPicked(xs: seq<Sent>)
    ensures Jobs(Pick(ReplyOf, xs)) == Pick(JobOf, xs)
  {
    if xs != [] {
      JobsPicked(xs[..|xs| - 1]);
    }
  }

  /**
   * Conservation, in every run and on whatever bytes arrive: each accepted request is, as often as it
   * was accepted, which is once, queued, in a worker, posted, swapped out, or among the replies sent
   * on its connection; the error replies sent are those to the frames that do not parse, each once and
   * in order; and no two frames sent answer the same decoded frame.
   */
  lemma ServerConservation(fmt: Format, conns: nat, threads: nat, steps: seq<Step>)
    requires Runs(fmt, Init(conns, threads), steps)
    ensures var s := After(fmt, Init(conns, threads), steps);
            && Accepted(fmt, s)
            && (forall j: Job :: j.conn < |s.conns| ==> Conserved(s, j) && multiset(s.pool.pushed)[j] <= 1)
            && (forall c :: 0 <= c < |s.conns| ==>
                  Pick(UnparsedOf, s.conns[c].sent) == UnparseableIn(fmt, s.conns[c].decoded))
            && (forall c, i, j :: 0 <= c < |s.conns| && 0 <= i < j < |s.conns[c].sent| ==>
                  IndexOf(s.conns[c].sent[i]) != IndexOf(s.conns[c].sent[j]))
  {
    InitInv(fmt, conns, threads);
    RunKeepsInv(fmt, Init(conns, threads), steps);
    var s := After(fmt, Init(conns, threads), steps);
    forall j: Job | j.conn < |s.conns| ensures Conserved(s, j) && multiset(s.pool.pushed)[j] <= 1 {
      JobConserved(fmt, s, j);
    }
    forall c | 0 <= c < |s.conns|
      ensures Pick(UnparsedOf, s.conns[c].sent) == UnparseableIn(fmt, s.conns[c].decoded)
    {
      assert AccountOk(fmt, s, c);
    }
    forall c, i, j | 0 <= c < |s.conns| && 0 <= i < j < |s.conns[c].sent|
      ensures IndexOf(s.conns[c].sent[i]) != IndexOf(s.conns[c].sent[j])
    {
      AnsweredOnce(fmt, s, c, i, j);
    }
  }

  lemma {:induction false} PushedOnce(js: seq<Job>, j: Job)
    requires forall a, b :: 0 <= a < b < |js| ==> js[a].conn != js[b].conn || js[a].index != js[b].index
    ensures multiset(js)[j] <= 1
  {
    if js != [] {
      var n := |js| - 1;
      assert js == js[..n] + [js[n]];
      PushedOnce(js[..n], j);
      if j == js[n] {
        assert j !in js[..n];
      }
    }
  }

  /** Neither the loop nor a worker has anything to do before the next event or timeout. */
  predicate Quiescent(s: State) {
    Loop.Asleep(s.loop) && s.pool.notifies == 0 && !Pool.SomeAwake(s.pool)
  }

  /** Some frame sent on the connection answers the `k`-th frame decoded on it. */
  ghost predicate AnsweredAt(conn: Conn, k: nat) {
    exists i :: 0 <= i < |conn.sent| && IndexOf(conn.sent[i]) == k
  }

  lemma RestingServerHasRun(fmt: Format, s: State)
    requires Inv(fmt, s) && Quiescent(s) && |s.pool.workers| > 0
    ensures multiset(s.pool.pushed) == multiset(AnsweredJobs(s))
  {
    KernelsConserve(s);
    assert !s.pool.workers[0].Exited?;
    assert s.pool.queue == [];
    Pool.NothingInHand(s.pool.workers);
    if s.loop.pending != [] {
      Loop.SleepingHead(s.loop);
    }
    assert PendingJobs(s) == [] && SwappedJobs(s) == [];
  }

  /** The reply to a job that has run, as it was sent. */
  lemma AcceptedIsReplied(fmt: Format, s: State, j: Job) returns (r: Reply)
    requires Inv(fmt, s) && Quiescent(s) && |s.pool.workers| > 0 && j in s.pool.pushed
    ensures r in s.loop.executed && r.job == j && ReplySent(fmt, s, r)
  {
    RestingServerHasRun(fmt, s);
    assert j in multiset(s.pool.pushed);
    assert j in AnsweredJobs(s);
    var i :| 0 <= i < |s.loop.executed| && AnsweredJobs(s)[i] == j;
    r := s.loop.executed[i];
  }

  /**
   * The two wakeup protocols together: a server at rest has answered every frame it has decoded, by the
   * reply to its job or by an error reply.
   */
  lemma RestingServerHasAnswered(fmt: Format, s: State, c: nat, k: nat)
    requires Inv(fmt, s) && Quiescent(s) && |s.pool.workers| > 0
    requires c < |s.conns| && k < |s.conns[c].decoded|
    ensures AnsweredAt(s.conns[c], k)
  {
    if fmt.parse(s.conns[c].decoded[k].payload).None? {
      UnparseableAnswered(fmt, s, c, k);
    } else {
      ParseableAnswered(fmt, s, c, k);
    }
  }

  lemma UnparseableAnswered(fmt: Format, s: State, c: nat, k: nat)
    requires c < |s.conns| && AccountOk(fmt, s, c)
    requires k < |s.conns[c].decoded| && fmt.parse(s.conns[c].decoded[k].payload).None?
    ensures AnsweredAt(s.conns[c], k)
  {
    UnparseableOnce(fmt, s.conns[c].decoded, k);
    assert k in multiset(Pick(UnparsedOf, s.conns[c].sent));
    var i := PickedFrom(UnparsedOf, s.conns[c].sent, k);
    assert IndexOf(s.conns[c].sent[i]) == k;
  }

  lemma ParseableAnswered(fmt: Format, s: State, c: nat, k: nat)
    requires Inv(fmt, s) && Quiescent(s) && |s.pool.workers| > 0
    requires c < |s.conns| && k < |s.conns[c].decoded| && fmt.parse(s.conns[c].decoded[k].payload).Some?
    ensures AnsweredAt(s.conns[c], k)
  {
    var f := s.conns[c].decoded[k];
    assert Queued(fmt, s, c, k);
    var r := AcceptedIsReplied(fmt, s, Job(c, k, f.id, fmt.parse(f.payload).value));
    SentIsAnswer(s.conns[c], Sent(Frame(r.job.id, fmt.write(r.response)), Dispatched(r)));
  }

  lemma SentIsAnswer(conn: Conn, x: Sent)
    requires x in conn.sent
    ensures AnsweredAt(conn, IndexOf(x))
  {
    var i :| 0 <= i < |conn.sent| && conn.sent[i] == x;
    assert IndexOf(conn.sent[i]) == IndexOf(x);
  }

  /** In every run: each decoded frame is answered at most once, and once the server is at rest, once. */
  lemma EveryRequestAnswered(fmt: Format, conns: nat, threads: nat, steps: seq<Step>, c: nat, k: nat)
    requires threads > 0 && Runs(fmt, Init(conns, threads), steps)
    requires c < |After(fmt, Init(conns, threads), steps).conns|
    requires k < |After(fmt, Init(conns, threads), steps).conns[c].decoded|
    ensures var s := After(fmt, Init(conns, threads), steps);
            && (Quiescent(s) ==> AnsweredAt(s.conns[c], k))
            && (forall i, j :: 0 <= i < j < |s.conns[c].sent| && IndexOf(s.conns[c].sent[i]) == k ==>
                  IndexOf(s.conns[c].sent[j]) != k)
  {
    InitInv(fmt, conns, threads);
    RunKeepsInv(fmt, Init(conns, threads), steps);
    ServerConservation(fmt, conns, threads, steps);
    var s := After(fmt, Init(conns, threads), steps);
    if Quiescent(s) {
      RestingServerHasAnswered(fmt, s, c, k);
    }
  }

  // ---- What is decoded

  /** The reads of a connection in a run. */
  function Chunks(steps: seq<Step>, c: nat): Stream.Chunks {
    if steps == [] then []
    else (if steps[0].Receive? && steps[0].conn == c then [steps[0].chunk] else []) + Chunks(steps[1..], c)
  }

  /** What a connection will have decoded, and what it will hold, when its drain is done. */
  ghost function Decoding(s: State, c: nat): Stream.Decoded
    requires c < |s.conns|
  {
    var conn := s.conns[c];
    if s.draining == Some(c) then Continue(Stream.Decoded(conn.decoded, conn.inbox), Stream.Drain(conn.inbox))
    else Stream.Decoded(conn.decoded, conn.inbox)
  }

  function Continue(a: Stream.Decoded, b: Stream.Decoded): Stream.Decoded {
    Stream.Decoded(a.frames + b.frames, b.rest)
  }

  lemma ContinueTwice(a: Stream.Decoded, b: Stream.Decoded, c: Stream.Decoded)
    ensures Continue(Continue(a, b), c) == Continue(a, Continue(b, c))
  {
    Regroup(a.frames, b.frames, c.frames);
  }

  lemma TurnKeepsDecoding(fmt: Format, s: State, c: nat)
    requires Enabled(s, Decode) && s.draining == Some(c)
    ensures Decoding(Apply(fmt, s, Decode), c) == Decoding(s, c)
  {
    var conn := s.conns[c];
    Stream.UnpackedIdInRange(conn.inbox, 0);
    var u := UnpackWithId(conn.inbox, 0);
    if u.data == [] {
      NilUnit(conn.decoded);
    } else {
      Regroup(conn.decoded, [Frame(u.id, u.data)], Stream.Drain(u.rest).frames);
    }
  }

  lemma StepKeepsDecoding(fmt: Format, s: State, step: Step, c: nat)
    requires Enabled(s, step) && c < |s.conns|
    ensures c < |Apply(fmt, s, step).conns|
    ensures Decoding(Apply(fmt, s, step), c)
         == if step.Receive? && step.conn == c
            then Continue(Decoding(s, c), Stream.Drain(Decoding(s, c).rest + step.chunk)) else Decoding(s, c)
  {
    if step.Decode? && s.draining == Some(c) {
      TurnKeepsDecoding(fmt, s, c);
    }
  }

  lemma ServeCons(q: seq<byte>, chunk: seq<byte>, chunks: Stream.Chunks)
    ensures var now := Stream.Drain(q + chunk);
            Stream.Serve(q, [chunk] + chunks) == Continue(now, Stream.Serve(now.rest, chunks))
  {
    assert ([chunk] + chunks)[1..] == chunks;
  }

  lemma {:induction false} RunDecodes(fmt: Format, s: State, steps: seq<Step>, c: nat)
    requires Runs(fmt, s, steps) && c < |s.conns|
    ensures c < |After(fmt, s, steps).conns|
    ensures Decoding(After(fmt, s, steps), c)
         == Continue(Decoding(s, c), Stream.Serve(Decoding(s, c).rest, Chunks(steps, c)))
    decreases |steps|
  {
    if steps == [] {
      NilUnit(Decoding(s, c).frames);
    } else {
      var step, s' := steps[0], Apply(fmt, s, steps[0]);
      StepKeepsDecoding(fmt, s, step, c);
      RunDecodes(fmt, s', steps[1..], c);
      if step.Receive? && step.conn == c {
        var now := Stream.Drain(Decoding(s, c).rest + step.chunk);
        ServeCons(Decoding(s, c).rest, step.chunk, Chunks(steps[1..], c));
        ContinueTwice(Decoding(s, c), now, Stream.Serve(now.rest, Chunks(steps[1..], c)));
      } else {
        NilUnit(Chunks(steps[1..], c));
      }
    }
  }

  /**
   * The machine decodes what the stream functions say, whatever bytes arrive on whatever connection:
   * between drains, the frames it has decoded and the bytes it holds are those of `Stream.Serve` on
   * the reads of that connection.
   */
  lemma DecodesTheStream(fmt: Format, conns: nat, threads: nat, steps: seq<Step>, c: nat)
    requires Runs(fmt, Init(conns, threads), steps) && c < conns
    ensures var s := After(fmt, Init(conns, threads), steps);
            c < |s.conns|
            && (s.draining != Some(c) ==>
                  Stream.Decoded(s.conns[c].decoded, s.conns[c].inbox) == Stream.Serve([], Chunks(steps, c)))
  {
    RunDecodes(fmt, Init(conns, threads), steps, c);
    NilUnit(Stream.Serve([], Chunks(steps, c)).frames);
  }

  // ---- Error replies

  /** The repository's own messages. */
  function Repository(): Format { Format(ParseRequest, SerializeResponse) }

  /**
   * In every run with these messages, a frame that does not parse is answered under its id by a reply
   * that reads as WRONG_PROTO with no text and no result, which is what no dispatched request is
   * answered with, so the caller can tell the two apart.
   */
  lemma ErrorRepliesTell(services: Services, conns: nat, threads: nat, steps: seq<Step>, c: nat, i: nat)
    requires Runs(Repository(), Init(conns, threads), steps)
    requires c < |After(Repository(), Init(conns, threads), steps).conns|
    requires i < |After(Repository(), Init(conns, threads), steps).conns[c].sent|
    requires After(Repository(), Init(conns, threads), steps).conns[c].sent[i].cause.Unparsed?
    ensures var conn := After(Repository(), Init(conns, threads), steps).conns[c];
            var x := conn.sent[i];
            && x.cause.index < |conn.decoded| && x.frame.id == conn.decoded[x.cause.index].id
            && ParseRequest(conn.decoded[x.cause.index].payload).None?
            && ParseResponse(x.frame.payload) == Some(RpcResponse(WRONG_PROTO, [], []))
    ensures forall q :: DispatchRequest(services, q) != RpcResponse(WRONG_PROTO, [], [])
  {
    InitInv(Repository(), conns, threads);
    RunKeepsInv(Repository(), Init(conns, threads), steps);
    var s := After(Repository(), Init(conns, threads), steps);
    assert ConnOk(Repository(), s, c);
    assert SentOk(Repository(), s, c, s.conns[c].sent[i]);
    ResponseRoundTrip(RpcResponse(WRONG_PROTO, [], []));
    forall q ensures DispatchRequest(services, q) != RpcResponse(WRONG_PROTO, [], []) {
      DispatchTells(services, q);
    }
  }

  // ---- Coming to rest

  /** What starts new work from outside: bytes, a spurious wakeup, epoll_wait returning without a wakeup. */
  predicate Disturbs(step: Step) {
    step.Receive? || step.WorkerWake? || (step.EpollReturn? && !step.wakeup)
  }

  function InboxBytes(conns: seq<Conn>): nat {
    if conns == [] then 0 else |conns[0].inbox| + InboxBytes(conns[1..])
  }

  lemma {:induction false} InboxUpdate(conns: seq<Conn>, c: nat, conn: Conn)
    requires c < |conns|
    ensures InboxBytes(conns[c := conn]) + |conns[c].inbox| == InboxBytes(conns) + |conn.inbox|
  {
    if c == 0 {
      assert conns[0 := conn][1..] == conns[1..];
    } else {
      assert conns[c := conn][1..] == conns[1..][c - 1 := conn];
      InboxUpdate(conns[1..], c - 1, conn);
    }
  }

  function Effort(w: Pool.Worker<Job>): nat {
    match w
    case Running(_) => 8
    case Checking => 1
    case Waiting => 0
    case Exited => 0
  }

  function Efforts(ws: seq<Pool.Worker<Job>>): nat {
    if ws == [] then 0 else Effort(ws[0]) + Efforts(ws[1..])
  }

  lemma {:induction false} EffortUpdate(ws: seq<Pool.Worker<Job>>, i: nat, w: Pool.Worker<Job>)
    requires i < |ws|
    ensures Efforts(ws[i := w]) + Effort(ws[i]) == Efforts(ws) + Effort(w)
  {
    if i == 0 {
      assert ws[0 := w][1..] == ws[1..];
    } else {
      assert ws[i := w][1..] == ws[1..][i - 1 := w];
      EffortUpdate(ws[1..], i - 1, w);
    }
  }

  /** How far the loop thread is from blocking with nothing to wake it. */
  function Phase(l: Loop.State<Reply>): nat {
    match l.pc
    case Blocked => if l.counter > 0 then 4 else 0
    case Running(_) => if l.counter > 0 then 5 else 1
    case Handling(wakeup) => if wakeup then 3 else if l.counter > 0 then 6 else 2
  }

  function PoolUnrest(p: Pool.State<Job>): nat { 8 * |p.queue| + 2 * p.notifies + Efforts(p.workers) }

  function LoopUnrest(l: Loop.State<Reply>): nat { 5 * |l.owing| + Phase(l) + |l.pending| + |Loop.Batch(l)| }

  function ConnUnrest(s: State): nat { InboxBytes(s.conns) + if s.draining.Some? then 1 else 0 }

  /** What the server has left to do with what it has received. */
  function Unrest(s: State): nat { ConnUnrest(s) + PoolUnrest(s.pool) + LoopUnrest(s.loop) }

  lemma PoolUnrestFalls(p: Pool.State<Job>, step: Pool.Step<Job>)
    requires Pool.Enabled(p, step) && (step.Push? || step.NotifyOne? || step.Check? || step.Finish?)
    ensures PoolUnrest(Pool.Apply(p, step)) + (if step.Finish? then 7 else 1) <= PoolUnrest(p) + if step.Push? then 11 else 0
  {
    match step
    case Push(_) =>
    case NotifyOne(w) => if Pool.SomeWaiting(p) { EffortUpdate(p.workers, w, Pool.Checking); }
    case Check(w) => EffortUpdate(p.workers, w, Pool.Apply(p, step).workers[w]);
    case Finish(w) => EffortUpdate(p.workers, w, Pool.Checking);
  }

  lemma LoopUnrestFalls(l: Loop.State<Reply>, step: Loop.Step<Reply>)
    requires Loop.Enabled(l, step) && (step.Return? ==> step.wakeup)
    ensures LoopUnrest(Loop.Apply(l, step)) + 1 <= LoopUnrest(l) + if step.Post? then 7 else 0
  {
    if step.Write? {
      assert |l.owing - {step.poster}| == |l.owing| - 1;
    }
  }

  lemma ConnUnrestFalls(fmt: Format, s: State, step: Step)
    requires Enabled(s, step) && !step.Receive?
    ensures var s' := Apply(fmt, s, step);
            ConnUnrest(s') + (if !step.Decode? then 0 else if PoolStep(fmt, s, step).Some? then 13 else 1) <= ConnUnrest(s)
  {
    if step.Decode? {
      InboxUpdate(s.conns, s.draining.value, Apply(fmt, s, step).conns[s.draining.value]);
    } else if step.Transmit? {
      InboxUpdate(s.conns, step.conn, Apply(fmt, s, step).conns[step.conn]);
    } else if step.RunFunctor? {
      var c := s.loop.pc.batch[0].functor.job.conn;
      InboxUpdate(s.conns, c, Apply(fmt, s, step).conns[c]);
    }
  }

  /** Every step of the server's own brings it closer to rest; only sending bytes off leaves it where it is. */
  lemma UnrestFalls(fmt: Format, s: State, step: Step)
    requires Enabled(s, step) && !Disturbs(step)
    ensures Unrest(Apply(fmt, s, step)) + (if step.Transmit? then 0 else 1) <= Unrest(s)
  {
    StepsProject(fmt, s, step);
    ConnUnrestFalls(fmt, s, step);
    var p, l := PoolStep(fmt, s, step), LoopStep(s, step);
    if p.Some? {
      PoolUnrestFalls(s.pool, p.value);
    }
    if l.Some? {
      LoopUnrestFalls(s.loop, l.value);
    }
  }

  ghost predicate Undisturbed(steps: seq<Step>) { forall i :: 0 <= i < |steps| ==> !Disturbs(steps[i]) }

  /** The steps of a run that are not mere transmission. */
  function Moves(steps: seq<Step>): nat {
    if steps == [] then 0 else Moves(steps[1..]) + if steps[0].Transmit? then 0 else 1
  }

  lemma {:induction false} UnrestBounds(fmt: Format, s: State, steps: seq<Step>)
    requires Runs(fmt, s, steps) && Undisturbed(steps)
    ensures Moves(steps) + Unrest(After(fmt, s, steps)) <= Unrest(s)
    decreases |steps|
  {
    if steps != [] {
      assert !Disturbs(steps[0]);
      UnrestFalls(fmt, s, steps[0]);
      UnrestBounds(fmt, Apply(fmt, s, steps[0]), steps[1..]);
    }
  }

  /** The server can do nothing more on its own, except send bytes off. */
  ghost predicate Stuck(s: State) {
    forall step :: Enabled(s, step) ==> Disturbs(step) || step.Transmit?
  }

  lemma StuckPool(fmt: Format, s: State)
    requires Kernels(s) && Stuck(s)
    ensures s.loop.owing == {} && s.pool.notifies == 0 && !Pool.SomeAwake(s.pool)
  {
    forall w | w in s.loop.owing ensures false {
      assert Enabled(s, WorkerWrite(w));
    }
    if s.pool.notifies > 0 {
      var w: nat :| Pool.SomeWaiting(s.pool) ==> w < |s.pool.workers| && s.pool.workers[w].Waiting?;
      assert Enabled(s, Notify(w));
    }
    forall w | 0 <= w < |s.pool.workers| ensures !Pool.Awake(s.pool.workers[w]) {
      assert !Enabled(s, WorkerCheck(w)) && !Enabled(s, Dispatch(w, ErrorReply()));
    }
  }

  /** The batch's jobs are accepted ones, so their connections exist. */
  lemma BatchConn(fmt: Format, s: State)
    requires Inv(fmt, s) && s.loop.pc.Running? && s.loop.pc.batch != []
    ensures s.loop.pc.batch[0].functor.job.conn < |s.conns|
  {
    KernelsConserve(s);
    var j := s.loop.pc.batch[0].functor.job;
    assert SwappedJobs(s)[0] == j;
    assert j in multiset(SwappedJobs(s));
    assert j in multiset(s.pool.pushed);
    assert JobOk(fmt, s, j);
  }

  lemma StuckLoop(fmt: Format, s: State)
    requires Inv(fmt, s) && Stuck(s) && s.pool.notifies == 0
    ensures s.loop.pc.Blocked? && s.loop.counter == 0
  {
    assert !Enabled(s, Decode) && !Enabled(s, ReadWakeup) && !Enabled(s, SwapFunctors);
    assert !Enabled(s, RunFunctor) && !Enabled(s, Iterate) && !Enabled(s, EpollReturn(true));
    if s.loop.pc.Running? && s.loop.pc.batch != [] {
      BatchConn(fmt, s);
    }
  }

  /**
   * The server comes to rest: from every reachable state, a run that nothing disturbs makes no more
   * moves than there is work left, and one that cannot go on is at rest, with every decoded frame
   * answered.
   */
  lemma ComesToRest(fmt: Format, conns: nat, threads: nat, before: seq<Step>, after: seq<Step>)
    requires threads > 0 && Runs(fmt, Init(conns, threads), before)
    requires Runs(fmt, After(fmt, Init(conns, threads), before), after) && Undisturbed(after)
    ensures var s := After(fmt, Init(conns, threads), before);
            var e := After(fmt, s, after);
            && Moves(after) <= Unrest(s)
            && (Stuck(e) ==>
                  && Quiescent(e)
                  && (forall c, k :: 0 <= c < |e.conns| && 0 <= k < |e.conns[c].decoded| ==> AnsweredAt(e.conns[c], k)))
  {
    var s := After(fmt, Init(conns, threads), before);
    InitInv(fmt, conns, threads);
    RunKeepsInv(fmt, Init(conns, threads), before);
    RunKeepsInv(fmt, s, after);
    UnrestBounds(fmt, s, after);
    var e := After(fmt, s, after);
    if Stuck(e) {
      StuckPool(fmt, e);
      StuckLoop(fmt, e);
      forall c, k | 0 <= c < |e.conns| && 0 <= k < |e.conns[c].decoded| ensures AnsweredAt(e.conns[c], k) {
        RestingServerHasAnswered(fmt, e, c, k);
      }
    }
  }
}
