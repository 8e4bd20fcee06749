/**
 * One synchronous call without retries, to one server with one worker, followed step by step to the
 * point where its reply has been read. It shows when a call can succeed at all.
 */
module Scenario {
  import opened Sequences
  import opened Bytes
  import opened Codec
  import opened Messages
  import Wire
  import Server
  import Client
  import opened System

  // ---- Runs can be continued

  lemma {:induction false} RunOn(p: Protocol, s: State, steps: seq<Step>, step: Step)
    requires Runs(p, s, steps) && Enabled(p, After(p, s, steps), step)
    ensures Runs(p, s, steps + [step]) && After(p, s, steps + [step]) == Apply(p, After(p, s, steps), step)
    decreases |steps|
  {
    if steps == [] {
      assert steps + [step] == [step] && [step][1..] == [];
    } else {
      FrontOfAppend(steps, [step]);
      RunOn(p, Apply(p, s, steps[0]), steps[1..], step);
    }
  }

  lemma ReachOn(p: Protocol, s: State, step: Step)
    requires Reachable(p, s) && Enabled(p, s, step) && |Apply(p, s, step).client.owner| <= TWO64
    ensures Reachable(p, Apply(p, s, step))
  {
    var nodes: nat, conns: nat, threads: nat, steps :|
      threads > 0 && Runs(p, System.Init(nodes, conns, threads), steps)
      && s == After(p, System.Init(nodes, conns, threads), steps) && |s.client.owner| <= TWO64;
    RunOn(p, System.Init(nodes, conns, threads), steps, step);
  }

  // ---- The states on the way

  function TheCall(q: RpcRequest, attempts: seq<nat>, pc: Client.Pc): Client.Call {
    Client.Call(Client.Sync(0, true), q, 0, attempts, pc)
  }

  /** The client has sent the call's request, under id 0, and waits. */
  function Waiting(q: RpcRequest): Client.State {
    Client.Init().(nextId := 1, calls := [TheCall(q, [0], Client.Waiting(0))], pendingSync := map[0 := 0], owner := [0], routes := [0])
  }

  function Request(p: Protocol, q: RpcRequest): Frame { Frame(0, p.writeRequest(q)) }

  function Response(p: Protocol, r: RpcResponse): Frame { Frame(0, p.writeResponse(r)) }

  /** A state with that client and one node. */
  function With(c: Client.State, n: Node): State { State(c, [n], map[0 := Origin(0, 0)]) }

  function Sent(p: Protocol, q: RpcRequest): Node {
    Node(Server.Init(1, 1), Encode(Request(p, q)), [Request(p, q)], [], 0)
  }

  function At(p: Protocol, q: RpcRequest, v: Server.State): Node { Node(v, [], [Request(p, q)], [], 0) }

  function TheJob(q: RpcRequest): Server.Job { Server.Job(0, 0, 0, q) }

  function TheReply(q: RpcRequest, r: RpcResponse): Server.Reply { Server.Reply(TheJob(q), r) }

  function Loop(pc: Server.Loop.Pc<Server.Reply>): Server.Loop.State<Server.Reply> {
    Server.Loop.State(1, [], 0, {}, pc, [], [])
  }

  const IDLE_POOL: Server.Pool.State<Server.Job> := Server.Pool.Init(1)

  /** The server has received the request and decodes. */
  function Received(p: Protocol, q: RpcRequest): Server.State {
    Server.State([Server.NewConn().(inbox := Encode(Request(p, q)))], IDLE_POOL,
                 Loop(Server.Loop.Handling(false)), Some(0))
  }

  function Decoding(p: Protocol, q: RpcRequest, notifies: nat, draining: Option<nat>): Server.State {
    Server.State([Server.NewConn().(decoded := [Request(p, q)])],
                 IDLE_POOL.(queue := [TheJob(q)], pushed := [TheJob(q)], notifies := notifies),
                 Loop(Server.Loop.Handling(false)), draining)
  }

  function Working(p: Protocol, q: RpcRequest): Server.State {
    Decoding(p, q, 0, None).(pool :=
      IDLE_POOL.(workers := [Server.Pool.Running(TheJob(q))], pushed := [TheJob(q)], started := [TheJob(q)]))
  }

  function Worked(q: RpcRequest): Server.Pool.State<Server.Job> {
    IDLE_POOL.(pushed := [TheJob(q)], started := [TheJob(q)], finished := [TheJob(q)])
  }

  /** The reply is posted; the eventfd has been written or not. */
  function Posted(p: Protocol, q: RpcRequest, r: RpcResponse, owing: set<nat>, counter: nat): Server.State {
    Server.State([Server.NewConn().(decoded := [Request(p, q)])], Worked(q),
                 Loop(Server.Loop.Handling(false)).(
                   pending := [Server.Loop.Posted(TheReply(q, r), 0, true)], posted := [TheReply(q, r)],
                   owing := owing, counter := counter), None)
  }

  function Swapped(p: Protocol, q: RpcRequest, r: RpcResponse): Server.State {
    Posted(p, q, r, {}, 1).(loop :=
      Loop(Server.Loop.Running([Server.Loop.Posted(TheReply(q, r), 0, true)])).(posted := [TheReply(q, r)], counter := 1))
  }

  /** The reply is sent; the loop and the worker are still about, or have come to rest. */
  function Replied(p: Protocol, q: RpcRequest, r: RpcResponse, wire: seq<byte>, outbox: seq<byte>, pool: Server.Pool.State<Server.Job>,
                   pc: Server.Loop.Pc<Server.Reply>, counter: nat): Server.State
  {
    Server.State([Server.Conn([], [Request(p, q)], [Server.Sent(Response(p, r), Server.Dispatched(TheReply(q, r)))], wire, outbox)],
                 pool,
                 Loop(pc).(posted := [TheReply(q, r)], executed := [TheReply(q, r)], counter := counter),
                 None)
  }

  /** At rest, with `wire` gone and `outbox` to go, and the client having consumed `taken` frames. */
  function Resting(p: Protocol, q: RpcRequest, r: RpcResponse, wire: seq<byte>, outbox: seq<byte>, taken: nat): Node {
    At(p, q, Replied(p, q, r, wire, outbox, Worked(q).(workers := [Server.Pool.Waiting]), Server.Loop.Blocked, 0)).(taken := taken)
  }

  // ---- The client sends

  lemma ClientTurn(p: Protocol, c: Client.State, nodes: seq<Node>, move: Client.Step, c': Client.State)
    requires Reachable(p, State(c, nodes, map[])) && ClientStepEnabled(p, State(c, nodes, map[]), move)
    requires Client.Apply(c, move) == c' && |c'.owner| <= TWO64
    ensures Reachable(p, State(c', nodes, map[]))
  {
    ReachOn(p, State(c, nodes, map[]), ClientStep(move));
  }

  function Begun(q: RpcRequest): Client.State { Client.Init().(calls := [TheCall(q, [], Client.Ready)]) }

  function Issued(q: RpcRequest): Client.State {
    Client.Init().(nextId := 1, calls := [TheCall(q, [0], Client.Issued(0, 0))], owner := [0], routes := [0])
  }

  function Registered(q: RpcRequest): Client.State {
    Issued(q).(calls := [TheCall(q, [0], Client.Registered(0, 0))], pendingSync := map[0 := 0])
  }

  lemma IssueTurn(q: RpcRequest)
    ensures Client.Enabled(Begun(q), Client.Issue(0, 0)) && Client.Apply(Begun(q), Client.Issue(0, 0)) == Issued(q)
  {
    var c' := Client.Apply(Begun(q), Client.Issue(0, 0));
    assert c'.calls[0].attempts == [0] && c'.owner == [0] && c'.routes == [0];
    assert c'.calls == Issued(q).calls;
  }

  lemma BeginRun(p: Protocol, q: RpcRequest)
    requires p.sendable(q)
    ensures Reachable(p, State(Begun(q), [NewNode(0, 1)], map[]))
  {
    var nodes, none := [NewNode(0, 1)], [];
    assert System.Init(1, 0, 1) == State(Client.Init(), nodes, map[]);
    assert Runs(p, System.Init(1, 0, 1), none) && System.Init(1, 0, 1) == After(p, System.Init(1, 0, 1), none);
    assert Reachable(p, State(Client.Init(), nodes, map[]));
    ClientTurn(p, Client.Init(), nodes, Client.Begin(Client.Sync(0, true), q), Begun(q));
  }

  lemma RegisterRun(p: Protocol, q: RpcRequest)
    requires p.sendable(q)
    ensures Reachable(p, State(Registered(q), [NewNode(0, 1)], map[]))
  {
    var nodes := [NewNode(0, 1)];
    BeginRun(p, q);
    IssueTurn(q);
    ClientTurn(p, Begun(q), nodes, Client.Issue(0, 0), Issued(q));
    ClientTurn(p, Issued(q), nodes, Client.Register(0), Registered(q));
  }

  lemma SendTurn(p: Protocol, q: RpcRequest)
    ensures var s := State(Registered(q), [NewNode(0, 1)], map[]);
            Enabled(p, s, ClientSend(0)) && Apply(p, s, ClientSend(0)) == With(Waiting(q), Sent(p, q))
  {
    NilUnit(Encode(Request(p, q)));
    assert NodeSend(NewNode(0, 1), Request(p, q)) == Sent(p, q);
    assert Client.Apply(Registered(q), Client.Send(0)) == Waiting(q);
    var s := State(Registered(q), [NewNode(0, 1)], map[]);
    assert [NewNode(0, 1)][0 := Sent(p, q)] == [Sent(p, q)];
    assert Apply(p, s, ClientSend(0)).nodes == [Sent(p, q)];
  }

  lemma SendRun(p: Protocol, q: RpcRequest)
    requires p.sendable(q)
    ensures Reachable(p, With(Waiting(q), Sent(p, q)))
  {
    RegisterRun(p, q);
    SendTurn(p, q);
    ReachOn(p, State(Registered(q), [NewNode(0, 1)], map[]), ClientSend(0));
  }

  // ---- The server works

  /** The request is one the client may send, and the response one the server may give to it. */
  ghost predicate Case(p: Protocol, q: RpcRequest, r: RpcResponse) {
    RequestsSound(p) && p.sendable(q) && p.answers(q, r)
  }

  lemma Turn(p: Protocol, q: RpcRequest, v: Server.State, turn: Server.Step, v': Server.State)
    requires Reachable(p, With(Waiting(q), At(p, q, v))) && ServerStepEnabled(p, At(p, q, v), turn)
    requires Server.Apply(ServerFormat(p), v, turn) == v'
    ensures Reachable(p, With(Waiting(q), At(p, q, v')))
  {
    ReachOn(p, With(Waiting(q), At(p, q, v)), ServerStep(0, turn));
  }

  lemma ReceiveTurn(p: Protocol, q: RpcRequest)
    ensures var n := Sent(p, q).(server := Server.Init(1, 1).(loop := Loop(Server.Loop.Handling(false))));
            && Server.Enabled(n.server, Server.Receive(0, n.c2s[..|n.c2s|]))
            && NodeDeliver(p, n, |n.c2s|) == At(p, q, Received(p, q))
  {
    var n := Sent(p, q).(server := Server.Init(1, 1).(loop := Loop(Server.Loop.Handling(false))));
    var bytes := Encode(Request(p, q));
    assert bytes[..|bytes|] == bytes && bytes[|bytes|..] == [];
    NilUnit(bytes);
    assert NodeDeliver(p, n, |n.c2s|).server.conns == Received(p, q).conns;
  }

  lemma ReceiveRun(p: Protocol, q: RpcRequest)
    requires p.sendable(q)
    ensures Reachable(p, With(Waiting(q), At(p, q, Received(p, q))))
  {
    SendRun(p, q);
    ReachOn(p, With(Waiting(q), Sent(p, q)), ServerStep(0, Server.EpollReturn(false)));
    ReceiveTurn(p, q);
    var n := Sent(p, q).(server := Server.Init(1, 1).(loop := Loop(Server.Loop.Handling(false))));
    assert Apply(p, With(Waiting(q), Sent(p, q)), ServerStep(0, Server.EpollReturn(false))) == With(Waiting(q), n);
    ReachOn(p, With(Waiting(q), n), DeliverRequest(0, |n.c2s|));
    assert Apply(p, With(Waiting(q), n), DeliverRequest(0, |n.c2s|)) == With(Waiting(q), At(p, q, Received(p, q)));
  }

  lemma DecodeTurn(p: Protocol, q: RpcRequest)
    requires RequestsSound(p) && p.sendable(q)
    ensures Server.Apply(ServerFormat(p), Received(p, q), Server.Decode) == Decoding(p, q, 1, Some(0))
  {
    var f, v := Request(p, q), Decoding(p, q, 1, Some(0));
    UnpackRequest(p, q);
    NilUnit([f]);
    NilUnit([TheJob(q)]);
    var v' := Server.DecodeOne(ServerFormat(p), Received(p, q), 0);
    assert v'.conns[0] == v.conns[0];
    assert v'.pool == v.pool;
  }

  lemma UnpackRequest(p: Protocol, q: RpcRequest)
    requires RequestsSound(p) && p.sendable(q)
    ensures UnpackWithId(Encode(Request(p, q)), 0) == Unpacked(p.writeRequest(q), 0, []) && p.writeRequest(q) != []
    ensures p.parseRequest(p.writeRequest(q)) == Some(q)
  {
    assert Good(Frame(0, p.writeRequest(q)));
    UnpackWhole(Request(p, q), [], 0);
    NilUnit(Encode(Request(p, q)));
  }

  lemma DecodeRun(p: Protocol, q: RpcRequest)
    requires RequestsSound(p) && p.sendable(q)
    ensures Reachable(p, With(Waiting(q), At(p, q, Decoding(p, q, 0, None))))
  {
    ReceiveRun(p, q);
    DecodeTurn(p, q);
    Turn(p, q, Received(p, q), Server.Decode, Decoding(p, q, 1, Some(0)));
    Turn(p, q, Decoding(p, q, 1, Some(0)), Server.Notify(0), Decoding(p, q, 0, Some(0)));
    assert Server.Apply(ServerFormat(p), Decoding(p, q, 0, Some(0)), Server.Decode).conns == Decoding(p, q, 0, None).conns;
    Turn(p, q, Decoding(p, q, 0, Some(0)), Server.Decode, Decoding(p, q, 0, None));
  }

  lemma CheckTurn(p: Protocol, q: RpcRequest)
    ensures Server.Apply(ServerFormat(p), Decoding(p, q, 0, None), Server.WorkerCheck(0)) == Working(p, q)
  {
    var v := Server.Apply(ServerFormat(p), Decoding(p, q, 0, None), Server.WorkerCheck(0));
    assert v.pool.workers == Working(p, q).pool.workers && v.pool.started == [TheJob(q)];
  }

  lemma DispatchTurn(p: Protocol, q: RpcRequest, r: RpcResponse)
    ensures Server.Apply(ServerFormat(p), Working(p, q), Server.Dispatch(0, r)) == Posted(p, q, r, {0}, 0)
  {
    var v := Server.Apply(ServerFormat(p), Working(p, q), Server.Dispatch(0, r));
    assert v.pool.workers == Worked(q).workers && v.pool.finished == [TheJob(q)];
    assert v.loop.pending == Posted(p, q, r, {0}, 0).loop.pending && v.loop.posted == [TheReply(q, r)];
    assert v.loop.owing == {0};
  }

  lemma WriteTurn(p: Protocol, q: RpcRequest, r: RpcResponse)
    ensures ServerStepEnabled(p, At(p, q, Posted(p, q, r, {0}, 0)), Server.WorkerWrite(0))
    ensures Server.Apply(ServerFormat(p), Posted(p, q, r, {0}, 0), Server.WorkerWrite(0)) == Posted(p, q, r, {}, 1)
  {
    assert {0} - {0} == {};
  }

  lemma WorkRun(p: Protocol, q: RpcRequest, r: RpcResponse)
    requires Case(p, q, r)
    ensures Reachable(p, With(Waiting(q), At(p, q, Posted(p, q, r, {}, 1))))
  {
    DecodeRun(p, q);
    CheckTurn(p, q);
    Turn(p, q, Decoding(p, q, 0, None), Server.WorkerCheck(0), Working(p, q));
    DispatchTurn(p, q, r);
    Turn(p, q, Working(p, q), Server.Dispatch(0, r), Posted(p, q, r, {0}, 0));
    WriteTurn(p, q, r);
    Turn(p, q, Posted(p, q, r, {0}, 0), Server.WorkerWrite(0), Posted(p, q, r, {}, 1));
  }

  lemma SwapTurn(p: Protocol, q: RpcRequest, r: RpcResponse)
    ensures ServerStepEnabled(p, At(p, q, Posted(p, q, r, {}, 1)), Server.SwapFunctors)
    ensures Server.Apply(ServerFormat(p), Posted(p, q, r, {}, 1), Server.SwapFunctors) == Swapped(p, q, r)
  {
  }

  /** The reply is sent; the loop is on its way back to sleep. */
  function Late(p: Protocol, q: RpcRequest, r: RpcResponse, pc: Server.Loop.Pc<Server.Reply>, counter: nat): Server.State {
    Replied(p, q, r, [], Encode(Response(p, r)), Worked(q), pc, counter)
  }

  lemma ReplyTurn(p: Protocol, q: RpcRequest, r: RpcResponse)
    ensures ServerStepEnabled(p, At(p, q, Swapped(p, q, r)), Server.RunFunctor)
    ensures Server.Apply(ServerFormat(p), Swapped(p, q, r), Server.RunFunctor) == Late(p, q, r, Server.Loop.Running([]), 1)
  {
    NilUnit(Encode(Response(p, r)));
    var v := Server.Apply(ServerFormat(p), Swapped(p, q, r), Server.RunFunctor);
    assert v.loop.executed == [TheReply(q, r)] && v.loop.pc == Server.Loop.Running([]);
    assert v.conns[0].sent == [Server.Sent(Response(p, r), Server.Dispatched(TheReply(q, r)))];
    assert v.conns[0].outbox == Encode(Response(p, r));
    assert v.conns == Late(p, q, r, Server.Loop.Running([]), 1).conns;
  }

  lemma ReplyRun(p: Protocol, q: RpcRequest, r: RpcResponse)
    requires Case(p, q, r)
    ensures Reachable(p, With(Waiting(q), At(p, q, Late(p, q, r, Server.Loop.Running([]), 1))))
  {
    WorkRun(p, q, r);
    SwapTurn(p, q, r);
    Turn(p, q, Posted(p, q, r, {}, 1), Server.SwapFunctors, Swapped(p, q, r));
    ReplyTurn(p, q, r);
    Turn(p, q, Swapped(p, q, r), Server.RunFunctor, Late(p, q, r, Server.Loop.Running([]), 1));
  }

  // ---- The server comes to rest

  lemma IterateTurn(p: Protocol, q: RpcRequest, r: RpcResponse, counter: nat)
    ensures ServerStepEnabled(p, At(p, q, Late(p, q, r, Server.Loop.Running([]), counter)), Server.Iterate)
    ensures Server.Apply(ServerFormat(p), Late(p, q, r, Server.Loop.Running([]), counter), Server.Iterate)
         == Late(p, q, r, Server.Loop.Blocked, counter)
  {
  }

  lemma WakeupTurns(p: Protocol, q: RpcRequest, r: RpcResponse)
    ensures ServerStepEnabled(p, At(p, q, Late(p, q, r, Server.Loop.Blocked, 1)), Server.EpollReturn(true))
    ensures Server.Apply(ServerFormat(p), Late(p, q, r, Server.Loop.Blocked, 1), Server.EpollReturn(true))
         == Late(p, q, r, Server.Loop.Handling(true), 1)
    ensures ServerStepEnabled(p, At(p, q, Late(p, q, r, Server.Loop.Handling(true), 1)), Server.ReadWakeup)
    ensures Server.Apply(ServerFormat(p), Late(p, q, r, Server.Loop.Handling(true), 1), Server.ReadWakeup)
         == Late(p, q, r, Server.Loop.Handling(false), 0)
  {
  }

  lemma ParkTurns(p: Protocol, q: RpcRequest, r: RpcResponse)
    ensures ServerStepEnabled(p, At(p, q, Late(p, q, r, Server.Loop.Handling(false), 0)), Server.SwapFunctors)
    ensures Server.Apply(ServerFormat(p), Late(p, q, r, Server.Loop.Handling(false), 0), Server.SwapFunctors)
         == Late(p, q, r, Server.Loop.Running([]), 0)
    ensures ServerStepEnabled(p, At(p, q, Late(p, q, r, Server.Loop.Blocked, 0)), Server.WorkerCheck(0))
    ensures Server.Apply(ServerFormat(p), Late(p, q, r, Server.Loop.Blocked, 0), Server.WorkerCheck(0))
         == Resting(p, q, r, [], Encode(Response(p, r)), 0).server
  {
    var v := Server.Apply(ServerFormat(p), Late(p, q, r, Server.Loop.Blocked, 0), Server.WorkerCheck(0));
    assert v.pool.workers == [Server.Pool.Waiting];
  }

  lemma WakeupRun(p: Protocol, q: RpcRequest, r: RpcResponse)
    requires Case(p, q, r)
    ensures Reachable(p, With(Waiting(q), At(p, q, Late(p, q, r, Server.Loop.Handling(false), 0))))
  {
    ReplyRun(p, q, r);
    IterateTurn(p, q, r, 1);
    Turn(p, q, Late(p, q, r, Server.Loop.Running([]), 1), Server.Iterate, Late(p, q, r, Server.Loop.Blocked, 1));
    WakeupTurns(p, q, r);
    Turn(p, q, Late(p, q, r, Server.Loop.Blocked, 1), Server.EpollReturn(true), Late(p, q, r, Server.Loop.Handling(true), 1));
    Turn(p, q, Late(p, q, r, Server.Loop.Handling(true), 1), Server.ReadWakeup, Late(p, q, r, Server.Loop.Handling(false), 0));
  }

  /** The reply is sent and the server is at rest. */
  lemma RestRun(p: Protocol, q: RpcRequest, r: RpcResponse)
    requires Case(p, q, r)
    ensures Reachable(p, With(Waiting(q), Resting(p, q, r, [], Encode(Response(p, r)), 0)))
  {
    WakeupRun(p, q, r);
    ParkTurns(p, q, r);
    Turn(p, q, Late(p, q, r, Server.Loop.Handling(false), 0), Server.SwapFunctors, Late(p, q, r, Server.Loop.Running([]), 0));
    IterateTurn(p, q, r, 0);
    Turn(p, q, Late(p, q, r, Server.Loop.Running([]), 0), Server.Iterate, Late(p, q, r, Server.Loop.Blocked, 0));
    Turn(p, q, Late(p, q, r, Server.Loop.Blocked, 0), Server.WorkerCheck(0), Resting(p, q, r, [], Encode(Response(p, r)), 0).server);
  }

  // ---- The client reads

  function Heard(q: RpcRequest, r: RpcResponse): Client.State {
    Waiting(q).(pendingSync := map[], promises := map[0 := r], left := [0],
                received := [Client.Delivered(0, r)], promised := [Client.Delivered(0, r)])
  }

  lemma HearTurn(q: RpcRequest, r: RpcResponse)
    ensures Client.Apply(Waiting(q), Client.Receive(0, r)) == Heard(q, r)
  {
    var c := Client.Apply(Waiting(q), Client.Receive(0, r));
    assert c.pendingSync == map[] && c.left == [0];
    assert c.received == [Client.Delivered(0, r)] && c.promised == [Client.Delivered(0, r)];
  }

  /** A read of `chunk`, with `rest` still to come. */
  lemma FetchTurn(p: Protocol, q: RpcRequest, r: RpcResponse, wire: seq<byte>, chunk: seq<byte>, rest: seq<byte>, taken: nat)
    requires UnpackWithId(chunk, 0).rest == [] && chunk != []
    ensures var n, k := Resting(p, q, r, wire, chunk + rest, taken), |chunk|;
            && Server.Enabled(n.server, Server.Transmit(0, k))
            && Fetch(n, k) == UnpackWithId(chunk, 0)
            && NodeFetch(p, n, k) == Resting(p, q, r, wire + chunk, rest, taken + 1)
  {
    var n := Resting(p, q, r, wire, chunk + rest, taken);
    assert (chunk + rest)[..|chunk|] == chunk && (chunk + rest)[|chunk|..] == rest;
    NilUnit(chunk);
    assert NodeFetch(p, n, |chunk|).server.conns == Resting(p, q, r, wire + chunk, rest, taken + 1).server.conns;
  }

  /** What the read leaves the client with, if it was waiting. */
  function Told(p: Protocol, q: RpcRequest, u: Unpacked): Client.State {
    if u.data != [] && p.parseResponse(u.data).Some? then Heard(q, p.parseResponse(u.data).value) else Waiting(q)
  }

  lemma FetchRun(p: Protocol, q: RpcRequest, r: RpcResponse, wire: seq<byte>, out: seq<byte>, taken: nat,
                 chunk: seq<byte>, wire': seq<byte>, rest: seq<byte>, taken': nat, c': Client.State)
    requires Reachable(p, With(Waiting(q), Resting(p, q, r, wire, out, taken)))
    requires out == chunk + rest && wire' == wire + chunk && taken' == taken + 1 && chunk != []
    requires UnpackWithId(chunk, 0).rest == [] && UnpackWithId(chunk, 0).id == 0 && c' == Told(p, q, UnpackWithId(chunk, 0))
    ensures Reachable(p, With(c', Resting(p, q, r, wire', rest, taken')))
  {
    var s, k := With(Waiting(q), Resting(p, q, r, wire, out, taken)), |chunk|;
    var u := UnpackWithId(chunk, 0);
    FetchTurn(p, q, r, wire, chunk, rest, taken);
    if u.data != [] && p.parseResponse(u.data).Some? {
      HearTurn(q, p.parseResponse(u.data).value);
    }
    FetchClient(p, s, 0, k);
    assert Apply(p, s, DeliverReply(0, k)).client == c';
    assert Apply(p, s, DeliverReply(0, k)).nodes == [Resting(p, q, r, wire', rest, taken')];
    ReachOn(p, s, DeliverReply(0, k));
  }

  /** The whole reply has been read. */
  function Read(p: Protocol, q: RpcRequest, r: RpcResponse): Node { Resting(p, q, r, Encode(Response(p, r)), [], 1) }

  /** The client once the whole reply has been read. */
  function Informed(p: Protocol, q: RpcRequest, r: RpcResponse): Client.State {
    if Audible(p, Response(p, r)) then Heard(q, r) else Waiting(q)
  }

  lemma ToldReply(p: Protocol, q: RpcRequest, r: RpcResponse)
    requires ResponsesSound(p) && Fits(Response(p, r))
    ensures UnpackWithId(Encode(Response(p, r)), 0) == Unpacked(p.writeResponse(r), 0, [])
    ensures Informed(p, q, r) == Told(p, q, UnpackWithId(Encode(Response(p, r)), 0))
  {
    UnpackWhole(Response(p, r), [], 0);
    NilUnit(Encode(Response(p, r)));
  }

  lemma ReadRun(p: Protocol, q: RpcRequest, r: RpcResponse)
    requires Case(p, q, r) && ResponsesSound(p) && Fits(Response(p, r))
    ensures Reachable(p, With(Informed(p, q, r), Read(p, q, r)))
  {
    var bytes := Encode(Response(p, r));
    RestRun(p, q, r);
    NilUnit(bytes);
    ToldReply(p, q, r);
    FetchRun(p, q, r, [], bytes, 0, bytes, bytes, [], 1, Informed(p, q, r));
  }

  // ---- How the call ends

  lemma LastTurn(p: Protocol, c: Client.State, n: Node, move: Client.Step, c': Client.State)
    requires Reachable(p, With(c, n)) && ClientStepEnabled(p, With(c, n), move)
    requires Client.Apply(c, move) == c' && |c'.owner| <= TWO64
    ensures Reachable(p, With(c', n))
  {
    ReachOn(p, With(c, n), ClientStep(move));
  }

  function Success(q: RpcRequest, r: RpcResponse): Client.State {
    Heard(q, r).(calls := [TheCall(q, [0], Client.Succeeded(0, r))])
  }

  lemma CollectRun(p: Protocol, q: RpcRequest, r: RpcResponse, n: Node)
    requires Reachable(p, With(Heard(q, r), n)) && r.errorCode == NO_ERROR
    ensures Reachable(p, With(Success(q, r), n))
  {
    LastTurn(p, Heard(q, r), n, Client.Collect(0), Success(q, r));
  }

  function TimedOut(q: RpcRequest): Client.State {
    Waiting(q).(calls := [TheCall(q, [0], Client.TimedOut(0))], timedOut := [0])
  }

  function GivenUp(q: RpcRequest, pc: Client.Pc): Client.State {
    Waiting(q).(calls := [TheCall(q, [0], pc).(tries := 1)], pendingSync := map[], left := [0], expired := [0], timedOut := [0])
  }

  lemma TimeoutTurns(q: RpcRequest)
    ensures Client.Enabled(Waiting(q), Client.Timeout(0)) && Client.Apply(Waiting(q), Client.Timeout(0)) == TimedOut(q)
    ensures Client.Enabled(TimedOut(q), Client.RemovePending(0))
         && Client.Apply(TimedOut(q), Client.RemovePending(0)) == GivenUp(q, Client.Ready)
    ensures Client.Enabled(GivenUp(q, Client.Ready), Client.GiveUp(0))
         && Client.Apply(GivenUp(q, Client.Ready), Client.GiveUp(0)) == GivenUp(q, Client.Failed)
  {
    var c := Client.Apply(TimedOut(q), Client.RemovePending(0));
    assert c.pendingSync == map[] && c.left == [0] && c.expired == [0];
  }

  lemma GiveUpRun(p: Protocol, q: RpcRequest, n: Node)
    requires Reachable(p, With(Waiting(q), n))
    ensures Reachable(p, With(GivenUp(q, Client.Failed), n))
  {
    TimeoutTurns(q);
    LastTurn(p, Waiting(q), n, Client.Timeout(0), TimedOut(q));
    LastTurn(p, TimedOut(q), n, Client.RemovePending(0), GivenUp(q, Client.Ready));
    LastTurn(p, GivenUp(q, Client.Ready), n, Client.GiveUp(0), GivenUp(q, Client.Failed));
  }

  // ---- When a call can succeed

  ghost predicate SucceededIn(s: State, q: RpcRequest) {
    exists c :: 0 <= c < |s.client.calls| && s.client.calls[c].request == q && s.client.calls[c].pc.Succeeded?
  }

  /** In some run, some call with this request succeeds. */
  ghost predicate CanSucceed(services: Server.Services, q: RpcRequest) {
    exists s :: Reachable(Protobuf(services), s) && SucceededIn(s, q)
  }

  /** A successful response ends with its result. */
  lemma ResultLast(m: RpcResponse) returns (head: seq<byte>)
    requires m.errorCode == NO_ERROR && m.errorMsg == [] && m.result != []
    ensures SerializeResponse(m) == head + m.result && |head| == 1 + Wire.VarintSize(|m.result|)
  {
    var f := Wire.LenField(3, m.result);
    assert ResponseFields(m) == [f];
    WrittenSize(f);
    head := Wire.Varint(Wire.Tag(3, 2)) + Wire.Varint(|m.result|);
    Regroup(Wire.Varint(Wire.Tag(3, 2)), Wire.Varint(|m.result|), m.result);
  }

  lemma ResultAudible(services: Server.Services, q: RpcRequest)
    requires var r := Server.DispatchRequest(services, q);
             r.errorCode == NO_ERROR && r.result != [] && Fits(Frame(0, SerializeResponse(r)))
    ensures Audible(Protobuf(services), Response(Protobuf(services), Server.DispatchRequest(services, q)))
  {
    var r := Server.DispatchRequest(services, q);
    Server.DispatchTells(services, q);
    ResponseEmptyExactly(r);
    var head := ResultLast(r);
    ResponseRoundTrip(r);
  }

  lemma SuccessNeeds(services: Server.Services, s: State, q: RpcRequest)
    requires Reachable(Protobuf(services), s) && SucceededIn(s, q)
    ensures Server.DispatchRequest(services, q).errorCode == NO_ERROR && Server.DispatchRequest(services, q).result != []
  {
    var p := Protobuf(services);
    var c :| 0 <= c < |s.client.calls| && s.client.calls[c].request == q && s.client.calls[c].pc.Succeeded?;
    ProtobufSound(services);
    ReachableInv(p, s);
    SuccessMatched(p, s, c);
    Client.Owns(s.client, c);
    Server.DispatchTells(services, q);
    if Server.DispatchRequest(services, q).result == [] {
      EmptyResultNeverSeen(services, s, c);
    }
  }

  /**
   * For a request that can be sent and a reply under the cap: a call can succeed exactly when the
   * method it names returns a result that is not empty on the wire. What a reply over the cap can do
   * is shown by OversizedReplyForges.
   */
  lemma SuccessExactly(services: Server.Services, q: RpcRequest)
    requires Protobuf(services).sendable(q)
    requires Fits(Frame(0, SerializeResponse(Server.DispatchRequest(services, q))))
    ensures CanSucceed(services, q) <==>
            var r := Server.DispatchRequest(services, q);
            r.errorCode == NO_ERROR && r.result != []
  {
    var p, r := Protobuf(services), Server.DispatchRequest(services, q);
    if CanSucceed(services, q) {
      var s :| Reachable(p, s) && SucceededIn(s, q);
      SuccessNeeds(services, s, q);
    }
    if r.errorCode == NO_ERROR && r.result != [] {
      ProtobufSound(services);
      ResultAudible(services, q);
      ReadRun(p, q, r);
      CollectRun(p, q, r, Read(p, q, r));
      SuccessSucceeds(q, r, Read(p, q, r));
    }
  }

  lemma SuccessSucceeds(q: RpcRequest, r: RpcResponse, n: Node)
    ensures SucceededIn(With(Success(q, r), n), q)
  {
    assert With(Success(q, r), n).client.calls[0].pc.Succeeded?;
  }

  /**
   * A method that succeeds with an empty result: there is a run in which the server has dispatched the
   * request, sent the reply and come to rest, the client has read all of it, and the call has failed.
   */
  lemma EmptyResultFails(services: Server.Services, q: RpcRequest)
    requires Protobuf(services).sendable(q) && Server.Succeeds(services, q, [])
    ensures var p, r := Protobuf(services), Server.DispatchRequest(services, q);
            var s := With(GivenUp(q, Client.Failed), Read(p, q, r));
            Reachable(p, s) && FailedAlthoughAnswered(s, q, r)
  {
    var p, r := Protobuf(services), Server.DispatchRequest(services, q);
    Server.EmptyReplyExactly(services, q);
    ProtobufSound(services);
    ReadRun(p, q, r);
    GiveUpRun(p, q, Read(p, q, r));
    FailedState(p, q, r);
  }

  /** The server is at rest and has executed the reply, the client has read it all, and the call has failed. */
  ghost predicate FailedAlthoughAnswered(s: State, q: RpcRequest, r: RpcResponse) {
    && |s.nodes| == 1 && AtRest(s.nodes[0]) && AllRead(s, s.nodes[0])
    && TheReply(q, r) in s.nodes[0].server.loop.executed
    && |s.client.calls| == 1 && s.client.calls[0].request == q && s.client.calls[0].pc.Failed?
  }

  lemma FailedState(p: Protocol, q: RpcRequest, r: RpcResponse)
    ensures FailedAlthoughAnswered(With(GivenUp(q, Client.Failed), Read(p, q, r)), q, r)
  {
  }

  function Ping(args: seq<byte>): Server.Outcome { Server.Returns([]) }

  /** And there are such methods: service "A" with a method "B" that returns an empty message. */
  lemma EmptyResultExample()
    ensures var services, q := map[[65] := map[[66] := Ping]], RpcRequest([65], [66], []);
            Protobuf(services).sendable(q) && Server.Succeeds(services, q, []) && !CanSucceed(services, q)
  {
    var services, q := map[[65] := map[[66] := Ping]], RpcRequest([65], [66], []);
    ExampleSendable();
    Server.EmptyReplyExactly(services, q);
    SuccessExactly(services, q);
  }

  lemma ExampleSendable()
    ensures var q := RpcRequest([65], [66], []);
            ParseableRequest(q) && Good(Frame(0, SerializeRequest(q)))
  {
    NamedRequestNotEmpty(RpcRequest([65], [66], []));
    ExampleSize();
    assert Utf8([65]) && Utf8([66]);
  }

  lemma ExampleSize()
    ensures Fits(Frame(0, SerializeRequest(RpcRequest([65], [66], []))))
  {
    var fs := RequestFields(RpcRequest([65], [66], []));
    assert fs == [Wire.LenField(1, [65]), Wire.LenField(2, [66])];
    WrittenSize(fs[0]);
    WrittenSize(fs[1]);
    WriteFieldsAppend([fs[0]], [fs[1]]);
    assert fs == [fs[0]] + [fs[1]];
  }

  // ---- Why the cap is needed

  /** The generated messages and dispatchRequest, with no bound on what a method may return. */
  function Uncapped(services: Server.Services): Protocol {
    Protobuf(services).(answers := (q, r) => r == Server.DispatchRequest(services, q))
  }

  /** The first read ends inside a frame that is too long: the client throws away what it has read. */
  lemma OversizedDropped(f: Frame, k: nat)
    requires MAX_LENGTH < ID_SIZE + |f.payload| < TWO32 / 2 && HEADER_SIZE <= k <= |Encode(f)|
    ensures UnpackWithId(Encode(f)[..k], 0) == Unpacked([], 0, [])
  {
    var q := Encode(f)[..k];
    assert q[..4] == Encode(f)[..4];
    HeaderFields(f, q);
  }

  /** A result that begins with a reply frame of its own, and is long enough to be over the cap. */
  ghost predicate Forges(services: Server.Services, q: RpcRequest, forged: RpcResponse, pad: seq<byte>) {
    var r, g := Server.DispatchRequest(services, q), Frame(0, SerializeResponse(forged));
    && r.errorCode == NO_ERROR && r.result == Encode(g) + pad
    && MAX_LENGTH < ID_SIZE + |SerializeResponse(r)| < TWO32 / 2
    && Good(g) && ParseableResponse(forged) && forged.errorCode == NO_ERROR
  }

  lemma ForgedLayout(services: Server.Services, q: RpcRequest, forged: RpcResponse, pad: seq<byte>) returns (k: nat)
    requires Forges(services, q, forged, pad)
    ensures var e := Encode(Frame(0, SerializeResponse(Server.DispatchRequest(services, q))));
            HEADER_SIZE <= k <= |e| && e[k..] == Encode(Frame(0, SerializeResponse(forged))) + pad
  {
    var r := Server.DispatchRequest(services, q);
    Server.DispatchTells(services, q);
    var head := ResultLast(r);
    var f := Frame(0, SerializeResponse(r));
    k := HEADER_SIZE + |head|;
    var front := BigEndian((ID_SIZE + |f.payload|) % TWO32, 4) + BigEndian(f.id, 8);
    assert Encode(f) == front + f.payload && |front| == HEADER_SIZE;
    assert (front + (head + r.result))[k..] == r.result;
  }

  /**
   * Without the cap matching fails: a method whose result is over it and begins with the bytes of a
   * reply frame makes the call succeed with that reply, although dispatchRequest computed another.
   */
  lemma OversizedReplyForges(services: Server.Services, q: RpcRequest, forged: RpcResponse, pad: seq<byte>) returns (n: Node)
    requires Uncapped(services).sendable(q) && Forges(services, q, forged, pad)
    ensures Reachable(Uncapped(services), With(Success(q, forged), n))
    ensures forged != Server.DispatchRequest(services, q)
  {
    UncappedRequests(services);
    var k := ForgedLayout(services, q, forged, pad);
    ResponseRoundTrip(forged);
    n := ForgedRun(Uncapped(services), q, Server.DispatchRequest(services, q), forged, pad, k);
  }

  lemma ForgedRun(p: Protocol, q: RpcRequest, r: RpcResponse, forged: RpcResponse, pad: seq<byte>, k: nat) returns (n: Node)
    requires Case(p, q, r) && MAX_LENGTH < ID_SIZE + |p.writeResponse(r)| < TWO32 / 2
    requires HEADER_SIZE <= k <= |Encode(Response(p, r))|
    requires Encode(Response(p, r))[k..] == Encode(Response(p, forged)) + pad
    requires Good(Response(p, forged)) && p.parseResponse(p.writeResponse(forged)) == Some(forged)
    requires forged.errorCode == NO_ERROR
    ensures Reachable(p, With(Success(q, forged), n))
  {
    DropRun(p, q, r, k);
    n := ForgeRun(p, q, r, Encode(Response(p, r))[..k], Encode(Response(p, r))[k..], forged, pad);
    CollectRun(p, q, forged, n);
  }

  lemma DropRun(p: Protocol, q: RpcRequest, r: RpcResponse, k: nat)
    requires Case(p, q, r) && MAX_LENGTH < ID_SIZE + |p.writeResponse(r)| < TWO32 / 2
    requires HEADER_SIZE <= k <= |Encode(Response(p, r))|
    ensures Reachable(p, With(Waiting(q), Resting(p, q, r, Encode(Response(p, r))[..k], Encode(Response(p, r))[k..], 1)))
  {
    var e := Encode(Response(p, r));
    RestRun(p, q, r);
    OversizedDropped(Response(p, r), k);
    TakeDrop(e, k);
    NilUnit(e[..k]);
    FetchRun(p, q, r, [], e, 0, e[..k], e[..k], e[k..], 1, Waiting(q));
  }

  lemma ForgeRun(p: Protocol, q: RpcRequest, r: RpcResponse, wire: seq<byte>, out: seq<byte>, forged: RpcResponse, pad: seq<byte>)
    returns (n: Node)
    requires Reachable(p, With(Waiting(q), Resting(p, q, r, wire, out, 1)))
    requires Good(Response(p, forged)) && p.parseResponse(p.writeResponse(forged)) == Some(forged)
    requires out == Encode(Response(p, forged)) + pad
    ensures Reachable(p, With(Heard(q, forged), n))
  {
    var chunk := Encode(Response(p, forged));
    UnpackWhole(Response(p, forged), [], 0);
    NilUnit(chunk);
    n := Resting(p, q, r, wire + chunk, pad, 2);
    FetchRun(p, q, r, wire, out, 1, chunk, wire + chunk, pad, 2, Heard(q, forged));
  }

  lemma UncappedRequests(services: Server.Services)
    ensures RequestsSound(Uncapped(services))
  {
    ProtobufSound(services);
    var p := Uncapped(services);
    forall q | p.sendable(q)
      ensures p.parseRequest(p.writeRequest(q)) == Some(q) && Good(Frame(0, p.writeRequest(q)))
    {
      assert Protobuf(services).sendable(q);
    }
  }

  const FORGED: RpcResponse := RpcResponse(NO_ERROR, [], [66])

  function Padding(): seq<byte> { seq(MAX_LENGTH, _ => 0) }

  function Echo(args: seq<byte>): Server.Outcome { Server.Returns(Encode(Frame(0, SerializeResponse(FORGED))) + Padding()) }

  lemma ForgedSize()
    ensures |SerializeResponse(FORGED)| == 3
  {
    var head := ResultLast(FORGED);
  }

  lemma OversizedSize(m: RpcResponse)
    requires m.errorCode == NO_ERROR && m.errorMsg == [] && MAX_LENGTH < |m.result| < MAX_LENGTH + 100
    ensures MAX_LENGTH < ID_SIZE + |SerializeResponse(m)| < TWO32 / 2
  {
    var head := ResultLast(m);
    Wire.VarintSizes();
    Wire.VarintSizeBound(|m.result|, 5);
  }

  /** There are such methods. */
  lemma ForgeExample()
    ensures var services, q := map[[65] := map[[66] := Echo]], RpcRequest([65], [66], []);
            Uncapped(services).sendable(q) && Forges(services, q, FORGED, Padding())
  {
    var services, q := map[[65] := map[[66] := Echo]], RpcRequest([65], [66], []);
    ExampleSendable();
    ForgedSize();
    OversizedSize(Server.DispatchRequest(services, q));
  }
}
