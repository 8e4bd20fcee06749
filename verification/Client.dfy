/**
 * The client channel: calls issue ids, register in a pending table, send, wait, time out and retry;
 * the loop thread hands replies to the call registered under their id. Each lock-protected section
 * is one step, and any reply may arrive at any time.
 */
module Client {
  import opened Sequences
  import opened Bytes
  import opened Messages

  datatype Kind = Sync(maxRetries: int, idempotent: bool) | Async

  /** Where the thread of a call stands. */
  datatype Pc =
    | Ready                                  // about to test the loop condition and start an attempt
    | Issued(id: nat, conn: nat)             // nextId_.fetch_add(1) done
    | Registered(id: nat, conn: nat)         // in pendingSync_ or pendingAsync_
    | Waiting(id: nat)                       // sent; a sync call waits on its future
    | TimedOut(id: nat)                      // wait_for returned timeout, removePending still to come
    | Succeeded(id: nat, response: RpcResponse)
    | Failed                                 // all retries exhausted, or an async call that never started

  datatype Call = Call(
    kind: Kind,
    request: RpcRequest,
    tries: nat,              // the loop variable of CallMethod
    attempts: seq<nat>,      // history: the ids issued for this call
    pc: Pc)

  datatype Delivered = Delivered(id: nat, response: RpcResponse)

  /** The loop thread between the locked sections of onRpcResponse. */
  datatype LoopPc = Idle | LookupAsync(id: nat, response: RpcResponse) | Firing(id: nat, response: RpcResponse)

  datatype State = State(
    nextId: uint64,
    calls: seq<Call>,
    pendingSync: map<nat, nat>,
    pendingAsync: map<nat, nat>,
    promises: map<nat, RpcResponse>,
    loopPc: LoopPc,
    owner: seq<nat>,             // history: the call each issue of an id was for,
    routes: seq<nat>,            //          the connection it was issued for,
    left: seq<nat>,              //          the ids that left a table,
    expired: seq<nat>,           //          those of them that a timeout took out,
    timedOut: seq<nat>,          //          the ids whose wait timed out,
    received: seq<Delivered>,    //          the replies handed to onRpcResponse,
    promised: seq<Delivered>,    //          the promises set,
    fired: seq<Delivered>,       //          the replies handed to done closures,
    done: seq<nat>)              //          the calls whose done closure ran

  datatype Step =
    | Begin(kind: Kind, request: RpcRequest)
    | EarlyFail(call: nat)               // no address, or no connection
    | Issue(call: nat, conn: nat)
    | Register(call: nat)
    | Send(call: nat)
    | Timeout(call: nat)
    | RemovePending(call: nat)
    | Collect(call: nat)
    | GiveUp(call: nat)
    | Receive(id: nat, response: RpcResponse)   // onRpcResponse up to the sync lookup
    | LookUp                                    // the async lookup
    | Fire                                      // done->Run()

  function Init(): State { State(0, [], map[], map[], map[], Idle, [], [], [], [], [], [], [], [], []) }

  /** The most attempts CallMethod can make. */
  function Limit(kind: Kind): nat {
    match kind
    case Async => 1
    case Sync(maxRetries, idempotent) =>
      if maxRetries < 0 then 0 else if idempotent then maxRetries + 1 else 1
  }

  /** The loop condition and the break of CallMethod; an async call tries once. */
  predicate MayTry(c: Call) {
    c.kind.Sync? ==> c.tries <= c.kind.maxRetries && (c.tries == 0 || c.kind.idempotent)
  }

  predicate At(s: State, c: nat) { c < |s.calls| }

  predicate Enabled(s: State, step: Step) {
    match step
    case Begin(_, _) => true
    case EarlyFail(c) => At(s, c) && s.calls[c].pc.Ready? && MayTry(s.calls[c])
    case Issue(c, _) => At(s, c) && s.calls[c].pc.Ready? && MayTry(s.calls[c])
    case Register(c) => At(s, c) && s.calls[c].pc.Issued?
    case Send(c) => At(s, c) && s.calls[c].pc.Registered?
    case Timeout(c) => At(s, c) && s.calls[c].kind.Sync? && s.calls[c].pc.Waiting? && s.calls[c].pc.id !in s.promises
    case RemovePending(c) => At(s, c) && s.calls[c].pc.TimedOut?
    case Collect(c) => At(s, c) && s.calls[c].kind.Sync? && s.calls[c].pc.Waiting? && s.calls[c].pc.id in s.promises
    case GiveUp(c) => At(s, c) && s.calls[c].pc.Ready? && !MayTry(s.calls[c])
    case Receive(_, _) => s.loopPc.Idle?
    case LookUp => s.loopPc.LookupAsync?
    case Fire => s.loopPc.Firing? && s.loopPc.id < |s.owner|
  }

  function With(s: State, c: nat, call: Call): State
    requires At(s, c)
  {
    s.(calls := s.calls[c := call])
  }

  function Retry(call: Call): Call { call.(tries := call.tries + 1, pc := Ready) }

  function Apply(s: State, step: Step): (s': State)
    requires Enabled(s, step)
    ensures |s.calls| <= |s'.calls|
  {
    match step
    case Begin(kind, request) => s.(calls := s.calls + [Call(kind, request, 0, [], Ready)])
    case EarlyFail(c) =>
      var call := s.calls[c];
      if call.kind.Sync? then With(s, c, Retry(call))
      else With(s, c, call.(pc := Failed)).(done := s.done + [c])
    case Issue(c, conn) =>
      var call := s.calls[c];
      With(s, c, call.(attempts := call.attempts + [s.nextId], pc := Issued(s.nextId, conn)))
        .(nextId := (s.nextId + 1) % TWO64, owner := s.owner + [c], routes := s.routes + [conn])
    case Register(c) =>
      var call := s.calls[c];
      var s' := With(s, c, call.(pc := Registered(call.pc.id, call.pc.conn)));
      if call.kind.Sync? then s'.(pendingSync := s.pendingSync[call.pc.id := c])
      else s'.(pendingAsync := s.pendingAsync[call.pc.id := c])
    case Send(c) => With(s, c, s.calls[c].(pc := Waiting(s.calls[c].pc.id)))
    case Timeout(c) =>
      With(s, c, s.calls[c].(pc := TimedOut(s.calls[c].pc.id))).(timedOut := s.timedOut + [s.calls[c].pc.id])
    case RemovePending(c) =>
      var id := s.calls[c].pc.id;
      With(s, c, Retry(s.calls[c]))
        .(pendingSync := s.pendingSync - {id},
          left := if id in s.pendingSync then s.left + [id] else s.left,
          expired := if id in s.pendingSync then s.expired + [id] else s.expired)
    case Collect(c) =>
      var call := s.calls[c];
      var response := s.promises[call.pc.id];
      With(s, c, if response.errorCode != NO_ERROR then Retry(call)
                 else call.(pc := Succeeded(call.pc.id, response)))
    case GiveUp(c) => With(s, c, s.calls[c].(pc := Failed))
    case Receive(id, response) =>
      var s' := s.(received := s.received + [Delivered(id, response)]);
      if id in s.pendingSync then
        s'.(pendingSync := s.pendingSync - {id}, left := s.left + [id],
            promises := s.promises[id := response], promised := s.promised + [Delivered(id, response)])
      else s'.(loopPc := LookupAsync(id, response))
    case LookUp =>
      var id := s.loopPc.id;
      if id in s.pendingAsync then
        s.(pendingAsync := s.pendingAsync - {id}, left := s.left + [id], loopPc := Firing(id, s.loopPc.response))
      else s.(loopPc := Idle)
    case Fire =>
      s.(done := s.done + [s.owner[s.loopPc.id]], fired := s.fired + [Delivered(s.loopPc.id, s.loopPc.response)],
         loopPc := Idle)
  }

  // ---- The invariant, for as long as the 64-bit counter has not gone round

  predicate Distinct(xs: seq<nat>) { forall i, j :: 0 <= i < j < |xs| ==> xs[i] != xs[j] }

  /** An id is issued once, to one call, which remembers it. */
  ghost predicate Ids(s: State) {
    && s.nextId == |s.owner| % TWO64
    && (forall id :: 0 <= id < |s.owner| ==> s.owner[id] < |s.calls| && id in s.calls[s.owner[id]].attempts)
    && (forall c, k :: 0 <= c < |s.calls| && 0 <= k < |s.calls[c].attempts| ==>
          s.calls[c].attempts[k] < |s.owner| && s.owner[s.calls[c].attempts[k]] == c)
    && (forall c :: 0 <= c < |s.calls| ==> Distinct(s.calls[c].attempts))
  }

  ghost predicate InSync(s: State, id: nat) {
    id < |s.owner| && s.owner[id] < |s.calls| && s.calls[s.owner[id]].kind.Sync?
  }

  ghost predicate InAsync(s: State, id: nat) {
    id < |s.owner| && s.owner[id] < |s.calls| && s.calls[s.owner[id]].kind.Async?
  }

  /** A table holds issued ids under their calls, and none that has left before. */
  ghost predicate Tables(s: State) {
    && (forall id :: id in s.pendingSync ==> InSync(s, id) && s.pendingSync[id] == s.owner[id] && id !in s.left)
    && (forall id :: id in s.pendingAsync ==> InAsync(s, id) && s.pendingAsync[id] == s.owner[id] && id !in s.left)
  }

  /** Each id leaves at most once. */
  ghost predicate LeftOk(s: State) {
    Distinct(s.left) && forall i :: 0 <= i < |s.left| ==> s.left[i] < |s.owner|
  }

  /** Each promise is set at most once, by the reply that took its id out of the table. */
  ghost predicate PromisesOk(s: State) {
    && (forall id :: id in s.promises ==> id in s.left && InSync(s, id))
    && (forall id :: id in s.promises ==> Delivered(id, s.promises[id]) in s.promised)
    && (forall i :: 0 <= i < |s.promised| ==>
          s.promised[i].id in s.promises && s.promises[s.promised[i].id] == s.promised[i].response)
    && (forall i, j :: 0 <= i < j < |s.promised| ==> s.promised[i].id != s.promised[j].id)
  }

  /** Each done closure runs at most once, over the early-failure path and the reply path. */
  ghost predicate ClosuresOk(s: State) {
    && Distinct(s.done)
    && (forall i :: 0 <= i < |s.done| ==> s.done[i] < |s.calls| && DoneOk(s, s.calls[s.done[i]]))
    && (forall i :: 0 <= i < |s.fired| ==> InAsync(s, s.fired[i].id))
  }

  /** Why a closure may have run: the call never started, or its only id has left the table. */
  ghost predicate DoneOk(s: State, c: Call) {
    c.kind.Async? && (if c.attempts == [] then c.pc.Failed? else c.attempts[0] in s.left)
  }

  ghost predicate LoopOk(s: State) {
    s.loopPc.Firing? ==>
      InAsync(s, s.loopPc.id) && s.loopPc.id in s.left && s.owner[s.loopPc.id] !in s.done
  }

  predicate InFlight(pc: Pc) { pc.Issued? || pc.Registered? || pc.Waiting? || pc.TimedOut? || pc.Succeeded? }

  /** An id that has been issued and not yet registered is in no table and no history. */
  ghost predicate Unused(s: State, id: nat) {
    id !in s.pendingSync && id !in s.pendingAsync && id !in s.left && id !in s.promises
  }

  /** An attempt in progress stays within the limit, and its id is the last one issued for the call. */
  ghost predicate Attempting(c: Call)
    requires InFlight(c.pc)
  {
    c.tries < Limit(c.kind) && 0 < |c.attempts| <= c.tries + 1 && c.attempts[|c.attempts| - 1] == c.pc.id
  }

  /** A call succeeds with what its promise was set to. */
  ghost predicate Collected(s: State, pc: Pc)
    requires pc.Succeeded?
  {
    pc.id in s.promises && s.promises[pc.id] == pc.response && pc.response.errorCode == NO_ERROR
  }

  ghost predicate CallOk(s: State, c: Call) {
    && c.tries <= Limit(c.kind)
    && (if InFlight(c.pc) then Attempting(c) else |c.attempts| <= c.tries)
    && (c.pc.Issued? ==> Unused(s, c.pc.id))
    && (c.pc.Succeeded? ==> Collected(s, c.pc))
    && (c.kind.Async? ==> c.tries == 0 && !c.pc.TimedOut? && !c.pc.Succeeded?)
    && (c.kind.Sync? && c.pc.Failed? ==> c.tries == Limit(c.kind))
  }

  ghost predicate Calls(s: State) { forall c :: 0 <= c < |s.calls| ==> CallOk(s, s.calls[c]) }

  /** The call of a pending id is at work on it: it has registered it and not yet moved on. */
  ghost predicate AtWork(s: State, id: nat) {
    && id < |s.owner| && s.owner[id] < |s.calls|
    && var pc := s.calls[s.owner[id]].pc;
       (pc.Registered? || pc.Waiting? || pc.TimedOut?) && pc.id == id
  }

  /** So a call that is over, or that goes on to another attempt, leaves nothing behind. */
  ghost predicate Awaited(s: State) {
    forall id :: id in s.pendingSync || id in s.pendingAsync ==> AtWork(s, id)
  }

  predicate Held(s: State, id: nat) { id in s.pendingSync || id in s.pendingAsync || id in s.left }

  ghost predicate Issuing(s: State, id: nat)
    requires id < |s.owner|
  {
    s.owner[id] < |s.calls| && s.calls[s.owner[id]].pc.Issued? && s.calls[s.owner[id]].pc.id == id
  }

  /** An issued id is about to be registered, or is in a table, or has left one. */
  ghost predicate Placed(s: State) { forall id :: 0 <= id < |s.owner| ==> Held(s, id) || Issuing(s, id) }

  predicate FiredFor(s: State, id: nat) { exists i :: 0 <= i < |s.fired| && s.fired[i].id == id }

  /** Why an id has left: a matching reply set its promise or goes to its closure, or it timed out. */
  ghost predicate LeftBecause(s: State, id: nat) {
    id in s.promises || id in s.expired || FiredFor(s, id) || (s.loopPc.Firing? && s.loopPc.id == id)
  }

  ghost predicate Reasons(s: State) {
    && (forall id :: id in s.left ==> LeftBecause(s, id))
    && (forall id :: id in s.expired ==> id in s.left && id !in s.promises && InSync(s, id))
  }

  /** Why the closure of a call has run: the call failed before it sent anything, or a reply was given to it. */
  ghost predicate RanFor(s: State, c: Call) {
    if c.attempts == [] then c.pc.Failed? else FiredFor(s, c.attempts[0])
  }

  /** A reply given to a closure runs it, and nothing else does but an early failure. */
  ghost predicate ClosuresRun(s: State) {
    && (forall i :: 0 <= i < |s.fired| ==> s.fired[i].id < |s.owner| && s.owner[s.fired[i].id] in s.done)
    && (forall i :: 0 <= i < |s.done| ==> s.done[i] < |s.calls| && RanFor(s, s.calls[s.done[i]]))
    && (forall c :: 0 <= c < |s.calls| && s.calls[c].kind.Async? && s.calls[c].pc.Failed? ==> c in s.done)
  }

  /** Ids go out where they were issued for. */
  ghost predicate Routed(s: State) {
    && |s.routes| == |s.owner|
    && (forall c :: 0 <= c < |s.calls| ==> RouteOk(s, s.calls[c]))
  }

  ghost predicate RouteOk(s: State, c: Call) {
    Holding(c.pc) ==> c.pc.id < |s.routes| && s.routes[c.pc.id] == c.pc.conn
  }

  /** An attempt came to nothing: its wait timed out, or it was answered with an error. */
  predicate Lost(s: State, id: nat) {
    id in s.timedOut || (id in s.promises && s.promises[id].errorCode != NO_ERROR)
  }

  /** The attempts a sync call has behind it came to nothing, and one that timed out is never the one it succeeds with. */
  ghost predicate OutcomeOk(s: State, c: Call) {
    && (forall k :: 0 <= k < |c.attempts| && !(InFlight(c.pc) && k == |c.attempts| - 1) ==> Lost(s, c.attempts[k]))
    && (c.pc.TimedOut? ==> c.pc.id in s.timedOut)
    && (InFlight(c.pc) && !c.pc.TimedOut? ==> c.pc.id !in s.timedOut)
  }

  ghost predicate Outcomes(s: State) {
    && (forall c :: 0 <= c < |s.calls| && s.calls[c].kind.Sync? ==> OutcomeOk(s, s.calls[c]))
    && (forall id :: id in s.timedOut ==> InSync(s, id))
  }

  /** Nothing reaches a promise or a closure that was not received. */
  ghost predicate Sources(s: State) {
    && (forall i :: 0 <= i < |s.promised| ==> s.promised[i] in s.received)
    && (forall i :: 0 <= i < |s.fired| ==> s.fired[i] in s.received)
    && (!s.loopPc.Idle? ==> Delivered(s.loopPc.id, s.loopPc.response) in s.received)
  }

  ghost predicate Lifecycle(s: State) { Awaited(s) && Placed(s) && Reasons(s) && Sources(s) && ClosuresRun(s) && Routed(s) && Outcomes(s) }

  ghost predicate Inv(s: State) {
    Ids(s) && Tables(s) && LeftOk(s) && PromisesOk(s) && ClosuresOk(s) && LoopOk(s) && Calls(s) && Lifecycle(s)
  }

  /** The ids have not run out: fewer than 2^64 were issued before this step. */
  predicate Fresh(s: State, step: Step) { step.Issue? ==> |s.owner| < TWO64 }

  lemma FreshInv(s: State)
    requires s == Init()
    ensures Inv(s)
  {
  }

  lemma InitInv()
    ensures Inv(Init())
  {
    FreshInv(Init());
  }

  // ---- What a step leaves alone

  /** Ids keep their calls and calls keep their kind and request. */
  ghost predicate OwnersKept(s: State, s': State) {
    && s.owner <= s'.owner && s.routes <= s'.routes
    && |s.calls| <= |s'.calls|
    && (forall c :: 0 <= c < |s.calls| ==>
          s'.calls[c].kind == s.calls[c].kind && s'.calls[c].request == s.calls[c].request)
  }

  lemma StepOwners(s: State, step: Step)
    requires Enabled(s, step)
    ensures OwnersKept(s, Apply(s, step))
  {
  }

  /** A call that is new was begun. */
  lemma StepBegins(s: State, step: Step)
    requires Enabled(s, step)
    ensures var n, calls := |s.calls|, Apply(s, step).calls;
            if step.Begin? then |calls| == n + 1 && calls[n] == Call(step.kind, step.request, 0, [], Ready) else |calls| == n
  {
  }

  /** At most one id leaves, and it was in a table. */
  lemma StepLeft(s: State, step: Step)
    requires Enabled(s, step)
    ensures var s' := Apply(s, step);
            || s'.left == s.left
            || (exists id :: s'.left == s.left + [id] && (id in s.pendingSync || id in s.pendingAsync))
  {
  }

  /** Only Issue adds an attempt. */
  ghost predicate AttemptsKept(s: State, s': State) {
    && s'.owner == s.owner && s'.nextId == s.nextId
    && |s.calls| <= |s'.calls|
    && (forall c :: 0 <= c < |s.calls| ==> s'.calls[c].attempts == s.calls[c].attempts)
    && (forall c :: |s.calls| <= c < |s'.calls| ==> s'.calls[c].attempts == [])
  }

  lemma StepAttempts(s: State, step: Step)
    requires Enabled(s, step) && !step.Issue?
    ensures AttemptsKept(s, Apply(s, step))
  {
  }

  lemma Owns(s: State, c: nat)
    requires Ids(s) && Calls(s) && c < |s.calls| && InFlight(s.calls[c].pc)
    ensures s.calls[c].pc.id < |s.owner| && s.owner[s.calls[c].pc.id] == c
  {
  }

  /** An id is in the hands of its call, issued and not yet sent. */
  predicate Holding(pc: Pc) { pc.Issued? || pc.Registered? }

  /** A call holds an id only because Issue just gave it the next one, or because it held it before. */
  lemma StepHolding(s: State, step: Step, c: nat)
    requires Enabled(s, step) && c < |s.calls|
    ensures var pc, pc' := s.calls[c].pc, Apply(s, step).calls[c].pc;
            Holding(pc') ==>
              || (Holding(pc) && pc'.id == pc.id && pc'.conn == pc.conn)
              || (step.Issue? && step.call == c && pc'.id == s.nextId && pc'.conn == step.conn)
  {
  }

  // ---- Ids

  lemma IdsFrame(s: State, s': State)
    requires Ids(s) && AttemptsKept(s, s')
    ensures Ids(s')
  {
  }

  lemma IdsKept(s: State, step: Step)
    requires Ids(s) && Enabled(s, step) && Fresh(s, step)
    ensures Ids(Apply(s, step))
  {
    if step.Issue? {
      IssueKeepsIds(s, step.call, step.conn);
    } else {
      StepAttempts(s, step);
      IdsFrame(s, Apply(s, step));
    }
  }

  lemma IssueKeepsIds(s: State, c: nat, conn: nat)
    requires Ids(s) && Enabled(s, Issue(c, conn)) && |s.owner| < TWO64
    ensures Ids(Apply(s, Issue(c, conn)))
  {
    IdsGrow(s, Apply(s, Issue(c, conn)), c);
  }

  /** One more id, for call `c`. */
  lemma IdsGrow(s: State, s': State, c: nat)
    requires Ids(s) && c < |s.calls| && s'.owner == s.owner + [c] && s'.nextId == |s'.owner| % TWO64
    requires |s'.calls| == |s.calls| && s'.calls[c].attempts == s.calls[c].attempts + [|s.owner|]
    requires forall d :: 0 <= d < |s.calls| && d != c ==> s'.calls[d].attempts == s.calls[d].attempts
    ensures Ids(s')
  {
    forall id | 0 <= id < |s'.owner| ensures s'.owner[id] < |s'.calls| && id in s'.calls[s'.owner[id]].attempts {
      assert id < |s.owner| ==> id in s.calls[s.owner[id]].attempts;
      assert s'.calls[c].attempts[|s.calls[c].attempts|] == |s.owner|;
    }
    forall d | 0 <= d < |s'.calls| ensures Distinct(s'.calls[d].attempts) {
      assert Distinct(s.calls[d].attempts);
    }
  }

  // ---- Tables

  lemma TablesFrame(s: State, s': State)
    requires Tables(s) && OwnersKept(s, s')
    requires s'.left == s.left && s'.pendingSync == s.pendingSync && s'.pendingAsync == s.pendingAsync
    ensures Tables(s')
  {
  }

  /** Taking an id out of a table and recording that it left. */
  lemma TablesTake(s: State, s': State, id: nat)
    requires Tables(s) && OwnersKept(s, s') && s'.owner == s.owner
    requires s'.pendingSync == s.pendingSync - {id} && s'.pendingAsync == s.pendingAsync - {id}
    requires s'.left == s.left || s'.left == s.left + [id]
    ensures Tables(s')
  {
  }

  lemma NotInAsync(s: State, id: nat)
    requires Tables(s) && (id in s.pendingSync || InSync(s, id))
    ensures s.pendingAsync - {id} == s.pendingAsync
  {
  }

  lemma NotInSync(s: State, id: nat)
    requires Tables(s) && id in s.pendingAsync
    ensures s.pendingSync - {id} == s.pendingSync
  {
  }

  lemma TablesAddSync(s: State, s': State, id: nat)
    requires Tables(s) && OwnersKept(s, s') && s'.left == s.left && s'.pendingAsync == s.pendingAsync
    requires InSync(s, id) && id !in s.left && s'.pendingSync == s.pendingSync[id := s.owner[id]]
    ensures Tables(s')
  {
  }

  lemma TablesAddAsync(s: State, s': State, id: nat)
    requires Tables(s) && OwnersKept(s, s') && s'.left == s.left && s'.pendingSync == s.pendingSync
    requires InAsync(s, id) && id !in s.left && s'.pendingAsync == s.pendingAsync[id := s.owner[id]]
    ensures Tables(s')
  {
  }

  lemma RegisterKeepsTables(s: State, c: nat)
    requires Tables(s) && Ids(s) && Calls(s) && Enabled(s, Register(c))
    ensures Tables(Apply(s, Register(c)))
  {
    Owns(s, c);
    StepOwners(s, Register(c));
    assert CallOk(s, s.calls[c]);
    if s.calls[c].kind.Sync? {
      TablesAddSync(s, Apply(s, Register(c)), s.calls[c].pc.id);
    } else {
      TablesAddAsync(s, Apply(s, Register(c)), s.calls[c].pc.id);
    }
  }

  lemma RemoveKeepsTables(s: State, c: nat)
    requires Tables(s) && Ids(s) && Calls(s) && Enabled(s, RemovePending(c))
    ensures Tables(Apply(s, RemovePending(c)))
  {
    Owns(s, c);
    assert CallOk(s, s.calls[c]);
    var id := s.calls[c].pc.id;
    NotInAsync(s, id);
    StepOwners(s, RemovePending(c));
    TablesTake(s, Apply(s, RemovePending(c)), id);
  }

  lemma TablesKept(s: State, step: Step)
    requires Ids(s) && Tables(s) && Calls(s) && Enabled(s, step)
    ensures Tables(Apply(s, step))
  {
    match step
    case Register(c) => RegisterKeepsTables(s, c);
    case RemovePending(c) => RemoveKeepsTables(s, c);
    case Receive(_, _) => ReplyKeepsTables(s, step);
    case LookUp => ReplyKeepsTables(s, step);
    case _ =>
      StepOwners(s, step);
      TablesFrame(s, Apply(s, step));
  }

  lemma ReplyKeepsTables(s: State, step: Step)
    requires Tables(s) && Enabled(s, step) && (step.Receive? || step.LookUp?)
    ensures Tables(Apply(s, step))
  {
    var s' := Apply(s, step);
    StepOwners(s, step);
    var id := if step.Receive? then step.id else s.loopPc.id;
    if step.Receive? && id in s.pendingSync {
      NotInAsync(s, id);
      TablesTake(s, s', id);
    } else if step.LookUp? && id in s.pendingAsync {
      NotInSync(s, id);
      TablesTake(s, s', id);
    } else {
      TablesFrame(s, s');
    }
  }

  // ---- Histories

  lemma LeftKept(s: State, step: Step)
    requires Tables(s) && LeftOk(s) && Enabled(s, step)
    ensures LeftOk(Apply(s, step))
  {
    StepOwners(s, step);
    StepLeft(s, step);
    LeftGrows(s, Apply(s, step));
  }

  lemma LeftGrows(s: State, s': State)
    requires Tables(s) && LeftOk(s) && s.owner <= s'.owner
    requires s'.left == s.left
          || exists id :: s'.left == s.left + [id] && (id in s.pendingSync || id in s.pendingAsync)
    ensures LeftOk(s')
  {
    if s'.left != s.left {
      var id :| s'.left == s.left + [id] && (id in s.pendingSync || id in s.pendingAsync);
      assert InSync(s, id) || InAsync(s, id);
    }
  }

  lemma PromisesFrame(s: State, s': State)
    requires PromisesOk(s) && OwnersKept(s, s') && s.left <= s'.left
    requires s'.promises == s.promises && s'.promised == s.promised
    ensures PromisesOk(s')
  {
  }

  lemma ReceiveLogs(s: State, s': State, id: nat, response: RpcResponse)
    requires PromisesOk(s) && id !in s.promises
    requires s'.promises == s.promises[id := response] && s'.promised == s.promised + [Delivered(id, response)]
    ensures forall x :: x in s'.promises ==> Delivered(x, s'.promises[x]) in s'.promised
    ensures forall i :: 0 <= i < |s'.promised| ==>
              s'.promised[i].id in s'.promises && s'.promises[s'.promised[i].id] == s'.promised[i].response
    ensures forall i, j :: 0 <= i < j < |s'.promised| ==> s'.promised[i].id != s'.promised[j].id
  {
  }

  lemma ReceiveKeepsPromises(s: State, id: nat, response: RpcResponse)
    requires Tables(s) && PromisesOk(s) && Enabled(s, Receive(id, response)) && id in s.pendingSync
    ensures PromisesOk(Apply(s, Receive(id, response)))
  {
    var s' := Apply(s, Receive(id, response));
    assert InSync(s, id) && id !in s.left && id !in s.promises;
    ReceiveLogs(s, s', id, response);
    forall x | x in s'.promises ensures x in s'.left && InSync(s', x) {
      if x == id {
        assert s'.left[|s.left|] == id;
      } else {
        assert x in s.left && InSync(s, x);
      }
    }
  }

  lemma PromisesKept(s: State, step: Step)
    requires Tables(s) && PromisesOk(s) && Enabled(s, step)
    ensures PromisesOk(Apply(s, step))
  {
    if step.Receive? && step.id in s.pendingSync {
      ReceiveKeepsPromises(s, step.id, step.response);
    } else {
      StepOwners(s, step);
      StepLeft(s, step);
      StepPromises(s, step);
      PromisesFrame(s, Apply(s, step));
    }
  }

  lemma StepPromises(s: State, step: Step)
    requires Enabled(s, step) && !(step.Receive? && step.id in s.pendingSync)
    ensures Apply(s, step).promises == s.promises && Apply(s, step).promised == s.promised
  {
  }

  /** A call whose closure has run does nothing more that could run it again. */
  lemma DoneStays(s: State, step: Step, c: nat)
    requires Calls(s) && Enabled(s, step) && c < |s.calls| && DoneOk(s, s.calls[c])
    ensures DoneOk(Apply(s, step), Apply(s, step).calls[c])
  {
    StepLeft(s, step);
    assert CallOk(s, s.calls[c]);
    var call, call' := s.calls[c], Apply(s, step).calls[c];
    if call.attempts != [] {
      assert call.attempts <= call'.attempts;
    }
  }

  lemma FiredFrame(s: State, s': State)
    requires ClosuresOk(s) && OwnersKept(s, s') && s'.fired == s.fired
    ensures forall i :: 0 <= i < |s'.fired| ==> InAsync(s', s'.fired[i].id)
  {
  }

  lemma ClosuresFrame(s: State, step: Step)
    requires ClosuresOk(s) && Calls(s) && Enabled(s, step)
    requires Apply(s, step).done == s.done && Apply(s, step).fired == s.fired
    ensures ClosuresOk(Apply(s, step))
  {
    var s' := Apply(s, step);
    StepOwners(s, step);
    forall i | 0 <= i < |s'.done| ensures s'.done[i] < |s'.calls| && DoneOk(s', s'.calls[s'.done[i]]) {
      DoneStays(s, step, s.done[i]);
    }
    FiredFrame(s, s');
  }

  lemma EarlyFailKeepsClosures(s: State, c: nat)
    requires ClosuresOk(s) && Calls(s) && Enabled(s, EarlyFail(c)) && s.calls[c].kind.Async?
    ensures ClosuresOk(Apply(s, EarlyFail(c)))
  {
  }

  lemma FireKeepsClosures(s: State)
    requires ClosuresOk(s) && Ids(s) && Calls(s) && LoopOk(s) && Enabled(s, Fire)
    ensures ClosuresOk(Apply(s, Fire))
  {
  }

  lemma ClosuresKept(s: State, step: Step)
    requires Ids(s) && ClosuresOk(s) && LoopOk(s) && Calls(s) && Enabled(s, step)
    ensures ClosuresOk(Apply(s, step))
  {
    if step.Fire? {
      FireKeepsClosures(s);
    } else if step.EarlyFail? && s.calls[step.call].kind.Async? {
      EarlyFailKeepsClosures(s, step.call);
    } else {
      ClosuresFrame(s, step);
    }
  }

  lemma LookUpStartsOnce(s: State)
    requires Ids(s) && Tables(s) && ClosuresOk(s) && Calls(s) && Enabled(s, LookUp) && s.loopPc.id in s.pendingAsync
    ensures LoopOk(Apply(s, LookUp))
  {
  }

  lemma LoopKept(s: State, step: Step)
    requires Ids(s) && Tables(s) && ClosuresOk(s) && LoopOk(s) && Calls(s) && Enabled(s, step)
    ensures LoopOk(Apply(s, step))
  {
    if step.LookUp? {
      if s.loopPc.id in s.pendingAsync {
        LookUpStartsOnce(s);
      }
    } else if s.loopPc.Firing? && !step.Fire? {
      StepDone(s, step);
      FiringStays(s, step);
    }
  }

  lemma FiringStays(s: State, step: Step)
    requires LoopOk(s) && Enabled(s, step) && s.loopPc.Firing?
    ensures InAsync(Apply(s, step), s.loopPc.id) && s.loopPc.id in Apply(s, step).left
    ensures Apply(s, step).owner[s.loopPc.id] == s.owner[s.loopPc.id]
  {
    StepOwners(s, step);
    StepLeft(s, step);
  }

  lemma StepDone(s: State, step: Step)
    requires Ids(s) && LoopOk(s) && Calls(s) && Enabled(s, step) && s.loopPc.Firing? && !step.Fire?
    ensures Apply(s, step).loopPc == s.loopPc
    ensures s.owner[s.loopPc.id] !in Apply(s, step).done
  {
  }

  // ---- Calls

  lemma UnusedKept(s: State, step: Step, id: nat)
    requires Tables(s) && Unused(s, id) && Enabled(s, step)
    requires step.Register? ==> s.calls[step.call].pc.id != id
    ensures Unused(Apply(s, step), id)
  {
  }

  lemma PromiseStays(s: State, step: Step, id: nat)
    requires Tables(s) && PromisesOk(s) && Enabled(s, step) && id in s.promises
    ensures id in Apply(s, step).promises && Apply(s, step).promises[id] == s.promises[id]
  {
  }

  lemma OtherCallKept(s: State, step: Step, c: nat)
    requires Ids(s) && Tables(s) && PromisesOk(s) && Calls(s) && Enabled(s, step)
    requires c < |s.calls| && !Moves(step, c)
    ensures CallOk(Apply(s, step), s.calls[c])
  {
    var call := s.calls[c];
    assert CallOk(s, call);
    if call.pc.Issued? {
      Owns(s, c);
      if step.Register? {
        Owns(s, step.call);
      }
      UnusedKept(s, step, call.pc.id);
    }
    if call.pc.Succeeded? {
      PromiseStays(s, step, call.pc.id);
    }
  }

  lemma IssueKeepsCall(s: State, c: nat, conn: nat)
    requires Ids(s) && Tables(s) && LeftOk(s) && PromisesOk(s) && Calls(s) && Enabled(s, Issue(c, conn)) && |s.owner| < TWO64
    ensures CallOk(Apply(s, Issue(c, conn)), Apply(s, Issue(c, conn)).calls[c])
  {
  }

  lemma RetryOk(s: State, c: Call)
    requires c.kind.Sync? && c.tries < Limit(c.kind) && |c.attempts| <= c.tries + 1
    ensures CallOk(s, Retry(c))
  {
  }

  lemma AdvanceOk(s: State, s': State, c: Call, pc: Pc)
    requires CallOk(s, c) && InFlight(c.pc) && InFlight(pc) && !pc.Issued? && pc.id == c.pc.id
    requires pc.Succeeded? ==> Collected(s', pc)
    requires c.kind.Async? ==> !pc.TimedOut? && !pc.Succeeded?
    ensures CallOk(s', c.(pc := pc))
  {
  }

  /** The step is one of the thread of call `c`. */
  predicate Moves(step: Step, c: nat) {
    match step
    case EarlyFail(d) => d == c
    case Issue(d, _) => d == c
    case Register(d) => d == c
    case Send(d) => d == c
    case Timeout(d) => d == c
    case RemovePending(d) => d == c
    case Collect(d) => d == c
    case GiveUp(d) => d == c
    case _ => false
  }

  lemma OnlyOwnMoves(s: State, step: Step, c: nat)
    requires Enabled(s, step) && c < |s.calls| && !Moves(step, c)
    ensures Apply(s, step).calls[c] == s.calls[c]
  {
  }

  lemma OwnCallKept(s: State, step: Step, c: nat)
    requires Enabled(s, step) && Moves(step, c) && !step.Issue? && CallOk(s, s.calls[c])
    ensures CallOk(Apply(s, step), Apply(s, step).calls[c])
  {
    var s', call := Apply(s, step), s.calls[c];
    match step
    case EarlyFail(_) => EarlyFailKeepsCall(s, c);
    case Register(_) => AdvanceOk(s, s', call, Registered(call.pc.id, call.pc.conn));
    case Send(_) => AdvanceOk(s, s', call, Waiting(call.pc.id));
    case Timeout(_) => AdvanceOk(s, s', call, TimedOut(call.pc.id));
    case RemovePending(_) => RetryOk(s', call);
    case Collect(_) => CollectKeepsCall(s, c);
    case GiveUp(_) =>
  }

  lemma EarlyFailKeepsCall(s: State, c: nat)
    requires Enabled(s, EarlyFail(c)) && CallOk(s, s.calls[c])
    ensures CallOk(Apply(s, EarlyFail(c)), Apply(s, EarlyFail(c)).calls[c])
  {
  }

  lemma CollectKeepsCall(s: State, c: nat)
    requires Enabled(s, Collect(c)) && CallOk(s, s.calls[c])
    ensures CallOk(Apply(s, Collect(c)), Apply(s, Collect(c)).calls[c])
  {
  }

  lemma CallKept(s: State, step: Step, c: nat)
    requires Inv(s) && Enabled(s, step) && Fresh(s, step) && c < |s.calls|
    ensures CallOk(Apply(s, step), Apply(s, step).calls[c])
  {
    if !Moves(step, c) {
      OnlyOwnMoves(s, step, c);
      OtherCallKept(s, step, c);
    } else if step.Issue? {
      IssueKeepsCall(s, step.call, step.conn);
    } else {
      OwnCallKept(s, step, c);
    }
  }

  lemma CallsKept(s: State, step: Step)
    requires Inv(s) && Enabled(s, step) && Fresh(s, step)
    ensures Calls(Apply(s, step))
  {
    var s' := Apply(s, step);
    forall c | 0 <= c < |s'.calls| ensures CallOk(s', s'.calls[c]) {
      if c < |s.calls| {
        CallKept(s, step, c);
      }
    }
  }

  // ---- The life of an id

  lemma HeldStays(s: State, step: Step, id: nat)
    requires Enabled(s, step) && Held(s, id)
    ensures Held(Apply(s, step), id)
  {
  }

  /** The steps by which a call leaves its attempt behind. */
  predicate MovesOn(step: Step, c: nat) { (step.RemovePending? || step.Collect?) && step.call == c }

  lemma WorkStays(s: State, step: Step, id: nat)
    requires Enabled(s, step) && AtWork(s, id) && !MovesOn(step, s.owner[id])
    ensures AtWork(Apply(s, step), id)
  {
    StepOwners(s, step);
  }

  /** A call moves on only after its id has left the table, or by taking it out. */
  lemma MovesOnClean(s: State, step: Step, id: nat)
    requires Tables(s) && PromisesOk(s) && Calls(s) && Enabled(s, step) && AtWork(s, id) && MovesOn(step, s.owner[id])
    ensures id !in Apply(s, step).pendingSync && id !in Apply(s, step).pendingAsync
  {
    assert CallOk(s, s.calls[s.owner[id]]);
    assert InSync(s, id);
    NotInAsync(s, id);
  }

  lemma Registers(s: State, step: Step, id: nat)
    requires Enabled(s, step) && !(id in s.pendingSync || id in s.pendingAsync)
    ensures id in Apply(s, step).pendingSync || id in Apply(s, step).pendingAsync ==>
              step.Register? && s.calls[step.call].pc.id == id
  {
  }

  lemma AwaitedKept(s: State, step: Step)
    requires Ids(s) && Tables(s) && PromisesOk(s) && Calls(s) && Awaited(s) && Enabled(s, step)
    ensures Awaited(Apply(s, step))
  {
    var s' := Apply(s, step);
    forall id | id in s'.pendingSync || id in s'.pendingAsync ensures AtWork(s', id) {
      if id in s.pendingSync || id in s.pendingAsync {
        if MovesOn(step, s.owner[id]) {
          MovesOnClean(s, step, id);
        } else {
          WorkStays(s, step, id);
        }
      } else {
        Registers(s, step, id);
        Owns(s, step.call);
      }
    }
  }

  lemma PlacedKept(s: State, step: Step)
    requires Ids(s) && Placed(s) && Enabled(s, step) && Fresh(s, step)
    ensures Placed(Apply(s, step))
  {
    var s' := Apply(s, step);
    forall id | 0 <= id < |s'.owner| ensures Held(s', id) || Issuing(s', id) {
      if id < |s.owner| {
        PlaceKept(s, step, id);
      } else {
        IssuesNext(s, step);
      }
    }
  }

  lemma PlaceKept(s: State, step: Step, id: nat)
    requires Enabled(s, step) && id < |s.owner| && (Held(s, id) || Issuing(s, id))
    ensures id < |Apply(s, step).owner| && (Held(Apply(s, step), id) || Issuing(Apply(s, step), id))
  {
    StepOwners(s, step);
    if Held(s, id) {
      HeldStays(s, step, id);
    }
  }

  lemma IssuesNext(s: State, step: Step)
    requires Ids(s) && Enabled(s, step) && Fresh(s, step)
    ensures var s' := Apply(s, step);
            |s'.owner| > |s.owner| ==> |s'.owner| == |s.owner| + 1 && Issuing(s', |s.owner|)
  {
  }

  lemma ReasonStays(s: State, step: Step, id: nat)
    requires Tables(s) && PromisesOk(s) && Enabled(s, step) && LeftBecause(s, id)
    ensures LeftBecause(Apply(s, step), id)
  {
    var s' := Apply(s, step);
    if id in s.promises {
      PromiseStays(s, step, id);
    } else if FiredFor(s, id) {
      var i :| 0 <= i < |s.fired| && s.fired[i].id == id;
      assert s'.fired[i].id == id;
    } else if id !in s.expired && step.Fire? {
      assert s'.fired[|s.fired|].id == id;
    }
  }

  /** What a timeout takes out was in the table, and no promise is set for an id that has left. */
  lemma StepExpired(s: State, step: Step)
    requires Enabled(s, step)
    ensures var s' := Apply(s, step);
            && (s'.expired == s.expired
                || exists id :: s'.expired == s.expired + [id] && s'.left == s.left + [id] && id in s.pendingSync
                                && s'.promises == s.promises)
            && (forall id :: id in s'.promises ==> id in s.promises || id in s.pendingSync)
  {
  }

  lemma ExpiredKept(s: State, step: Step)
    requires Tables(s) && PromisesOk(s) && Reasons(s) && Enabled(s, step)
    ensures var s' := Apply(s, step);
            forall id :: id in s'.expired ==> id in s'.left && id !in s'.promises && InSync(s', id)
  {
    StepOwners(s, step);
    StepLeft(s, step);
    StepExpired(s, step);
    forall id | id in Apply(s, step).expired
      ensures id in Apply(s, step).left && id !in Apply(s, step).promises && InSync(Apply(s, step), id)
    {
      ExpiredStays(s, Apply(s, step), id);
    }
  }

  lemma ExpiredStays(s: State, s': State, id: nat)
    requires Tables(s) && PromisesOk(s) && Reasons(s) && OwnersKept(s, s') && s.left <= s'.left && id in s'.expired
    requires s'.expired == s.expired
          || exists x :: s'.expired == s.expired + [x] && s'.left == s.left + [x] && x in s.pendingSync
                         && s'.promises == s.promises
    requires forall x :: x in s'.promises ==> x in s.promises || x in s.pendingSync
    ensures id in s'.left && id !in s'.promises && InSync(s', id)
  {
    assert InSync(s, id);
  }

  lemma ReasonsKept(s: State, step: Step)
    requires Tables(s) && PromisesOk(s) && LeftOk(s) && Reasons(s) && Enabled(s, step)
    ensures Reasons(Apply(s, step))
  {
    var s' := Apply(s, step);
    StepLeft(s, step);
    forall id | id in s'.left ensures LeftBecause(s', id) {
      if id in s.left {
        ReasonStays(s, step, id);
      }
    }
    ExpiredKept(s, step);
  }

  lemma SourcesKept(s: State, step: Step)
    requires Sources(s) && Enabled(s, step)
    ensures Sources(Apply(s, step))
  {
    if step.Receive? {
      var s', d := Apply(s, step), Delivered(step.id, step.response);
      assert s'.received[|s.received|] == d;
      assert forall x :: x in s.received ==> x in s'.received;
    }
  }

  lemma RanStays(s: State, step: Step, c: nat)
    requires Enabled(s, step) && c < |s.calls| && RanFor(s, s.calls[c])
    ensures RanFor(Apply(s, step), Apply(s, step).calls[c])
  {
    var s', call, call' := Apply(s, step), s.calls[c], Apply(s, step).calls[c];
    if call.attempts != [] {
      assert call.attempts <= call'.attempts;
      var i :| 0 <= i < |s.fired| && s.fired[i].id == call.attempts[0];
      assert s'.fired[i].id == call'.attempts[0];
    }
  }

  /** An async call makes a single attempt. */
  lemma AsyncSingle(s: State, id: nat)
    requires Ids(s) && Calls(s) && InAsync(s, id)
    ensures s.calls[s.owner[id]].attempts == [id]
  {
    assert CallOk(s, s.calls[s.owner[id]]) && id in s.calls[s.owner[id]].attempts;
  }

  /** A closure that runs now has its reason. */
  lemma RunsNow(s: State, step: Step)
    requires Ids(s) && LoopOk(s) && Calls(s) && Enabled(s, step)
    ensures var s' := Apply(s, step);
            || (s'.done == s.done && s'.fired == s.fired)
            || (&& |s'.done| == |s.done| + 1 && s.done <= s'.done && s.fired <= s'.fired
                && s'.done[|s.done|] < |s'.calls| && RanFor(s', s'.calls[s'.done[|s.done|]])
                && (forall i :: |s.fired| <= i < |s'.fired| ==>
                      s'.fired[i].id < |s'.owner| && s'.owner[s'.fired[i].id] == s'.done[|s.done|]))
  {
    if step.Fire? {
      AsyncSingle(s, s.loopPc.id);
      assert Apply(s, step).fired[|s.fired|].id == s.loopPc.id;
    } else if step.EarlyFail? {
      assert CallOk(s, s.calls[step.call]);
    }
  }

  lemma ClosuresRunKept(s: State, step: Step)
    requires Ids(s) && LoopOk(s) && Calls(s) && ClosuresRun(s) && Enabled(s, step)
    ensures ClosuresRun(Apply(s, step))
  {
    var s' := Apply(s, step);
    StepOwners(s, step);
    RunsNow(s, step);
    forall i | 0 <= i < |s'.done| ensures s'.done[i] < |s'.calls| && RanFor(s', s'.calls[s'.done[i]]) {
      if i < |s.done| {
        RanStays(s, step, s.done[i]);
      }
    }
    FailedRun(s, step);
  }

  /** An async call that fails runs its closure. */
  lemma FailedRun(s: State, step: Step)
    requires Calls(s) && ClosuresRun(s) && Enabled(s, step)
    ensures var s' := Apply(s, step);
            forall c :: 0 <= c < |s'.calls| && s'.calls[c].kind.Async? && s'.calls[c].pc.Failed? ==> c in s'.done
  {
    var s' := Apply(s, step);
    forall c | 0 <= c < |s'.calls| && s'.calls[c].kind.Async? && s'.calls[c].pc.Failed? ensures c in s'.done {
      if c < |s.calls| && !s.calls[c].pc.Failed? {
        FailsNow(s, step, c);
      }
    }
  }

  lemma FailsNow(s: State, step: Step, c: nat)
    requires Calls(s) && Enabled(s, step) && c < |s.calls| && s.calls[c].kind.Async? && !s.calls[c].pc.Failed?
    requires Apply(s, step).calls[c].pc.Failed?
    ensures c in Apply(s, step).done
  {
    assert CallOk(s, s.calls[c]);
    var s' := Apply(s, step);
    assert step == EarlyFail(c);
    assert s'.done[|s.done|] == c;
  }

  lemma RoutedKept(s: State, step: Step)
    requires Ids(s) && Routed(s) && Enabled(s, step) && Fresh(s, step)
    ensures Routed(Apply(s, step))
  {
    var s' := Apply(s, step);
    forall c | 0 <= c < |s'.calls| ensures RouteOk(s', s'.calls[c]) {
      if c < |s.calls| {
        assert RouteOk(s, s.calls[c]);
        StepHolding(s, step, c);
        StepRoutes(s, step);
      }
    }
    StepRoutes(s, step);
  }

  lemma StepRoutes(s: State, step: Step)
    requires Enabled(s, step)
    ensures var s' := Apply(s, step);
            if step.Issue? then s'.routes == s.routes + [step.conn] && |s'.owner| == |s.owner| + 1
            else s'.routes == s.routes && s'.owner == s.owner
  {
  }

  lemma LostStays(s: State, step: Step, id: nat)
    requires Tables(s) && PromisesOk(s) && Enabled(s, step) && Lost(s, id)
    ensures Lost(Apply(s, step), id)
  {
    if id in s.promises {
      PromiseStays(s, step, id);
    }
  }

  /** What happens to the ids whose wait timed out. */
  lemma StepTimedOut(s: State, step: Step)
    requires Enabled(s, step)
    ensures Apply(s, step).timedOut
         == if step.Timeout? then s.timedOut + [s.calls[step.call].pc.id] else s.timedOut
  {
  }

  lemma OtherOutcomeKept(s: State, step: Step, c: nat)
    requires Ids(s) && Calls(s) && Tables(s) && PromisesOk(s) && Enabled(s, step)
    requires c < |s.calls| && !Moves(step, c) && OutcomeOk(s, s.calls[c])
    ensures OutcomeOk(Apply(s, step), s.calls[c])
  {
    var call := s.calls[c];
    StepTimedOut(s, step);
    forall k | 0 <= k < |call.attempts| && !(InFlight(call.pc) && k == |call.attempts| - 1)
      ensures Lost(Apply(s, step), call.attempts[k])
    {
      LostStays(s, step, call.attempts[k]);
    }
    if InFlight(call.pc) {
      Owns(s, c);
    }
    if step.Timeout? {
      Owns(s, step.call);
    }
  }

  /** What one step of its own does to the attempts of a sync call. */
  lemma OwnAttempts(s: State, step: Step, c: nat)
    requires Enabled(s, step) && Moves(step, c) && s.calls[c].kind.Sync? && CallOk(s, s.calls[c]) && OutcomeOk(s, s.calls[c])
    requires Tables(s) && PromisesOk(s)
    ensures var s', call' := Apply(s, step), Apply(s, step).calls[c];
            forall k :: 0 <= k < |call'.attempts| && !(InFlight(call'.pc) && k == |call'.attempts| - 1) ==>
              Lost(s', call'.attempts[k])
  {
    var s', call, call' := Apply(s, step), s.calls[c], Apply(s, step).calls[c];
    StepTimedOut(s, step);
    forall k | 0 <= k < |call'.attempts| && !(InFlight(call'.pc) && k == |call'.attempts| - 1)
      ensures Lost(s', call'.attempts[k])
    {
      assert call'.attempts[k] == call.attempts[k];
      if Lost(s, call.attempts[k]) {
        LostStays(s, step, call.attempts[k]);
      }
    }
  }

  lemma NextNotTimedOut(s: State)
    requires Ids(s) && Outcomes(s) && |s.owner| < TWO64
    ensures s.nextId !in s.timedOut
  {
    assert s.nextId == |s.owner|;
  }

  lemma OwnWait(s: State, step: Step, c: nat)
    requires Enabled(s, step) && Moves(step, c) && s.calls[c].kind.Sync? && OutcomeOk(s, s.calls[c])
    requires step.Issue? ==> s.nextId !in s.timedOut
    ensures var s', pc' := Apply(s, step), Apply(s, step).calls[c].pc;
            && (pc'.TimedOut? ==> pc'.id in s'.timedOut)
            && (InFlight(pc') && !pc'.TimedOut? ==> pc'.id !in s'.timedOut)
  {
    StepTimedOut(s, step);
  }

  lemma OwnOutcomeKept(s: State, step: Step, c: nat)
    requires Inv(s) && Enabled(s, step) && Fresh(s, step) && Moves(step, c) && s.calls[c].kind.Sync?
    ensures OutcomeOk(Apply(s, step), Apply(s, step).calls[c])
  {
    assert CallOk(s, s.calls[c]) && OutcomeOk(s, s.calls[c]);
    OwnAttempts(s, step, c);
    if step.Issue? {
      NextNotTimedOut(s);
    }
    OwnWait(s, step, c);
  }

  lemma OutcomesKept(s: State, step: Step)
    requires Inv(s) && Enabled(s, step) && Fresh(s, step)
    ensures Outcomes(Apply(s, step))
  {
    var s' := Apply(s, step);
    StepOwners(s, step);
    forall c | 0 <= c < |s'.calls| && s'.calls[c].kind.Sync? ensures OutcomeOk(s', s'.calls[c]) {
      if c < |s.calls| {
        OutcomeKept(s, step, c);
      } else {
        StepBegins(s, step);
      }
    }
    TimedOutSync(s, step);
  }

  lemma OutcomeKept(s: State, step: Step, c: nat)
    requires Inv(s) && Enabled(s, step) && Fresh(s, step) && c < |s.calls| && s.calls[c].kind.Sync?
    ensures OutcomeOk(Apply(s, step), Apply(s, step).calls[c])
  {
    if Moves(step, c) {
      OwnOutcomeKept(s, step, c);
    } else {
      OnlyOwnMoves(s, step, c);
      OtherOutcomeKept(s, step, c);
    }
  }

  lemma TimedOutSync(s: State, step: Step)
    requires Ids(s) && Calls(s) && Outcomes(s) && Enabled(s, step)
    ensures forall id :: id in Apply(s, step).timedOut ==> InSync(Apply(s, step), id)
  {
    StepOwners(s, step);
    StepTimedOut(s, step);
    if step.Timeout? {
      Owns(s, step.call);
    }
  }

  lemma LifecycleKept(s: State, step: Step)
    requires Inv(s) && Enabled(s, step) && Fresh(s, step)
    ensures Lifecycle(Apply(s, step))
  {
    AwaitedKept(s, step);
    PlacedKept(s, step);
    ReasonsKept(s, step);
    SourcesKept(s, step);
    ClosuresRunKept(s, step);
    RoutedKept(s, step);
    OutcomesKept(s, step);
  }

  lemma StepKeepsInv(s: State, step: Step)
    requires Inv(s) && Enabled(s, step) && Fresh(s, step)
    ensures Inv(Apply(s, step))
  {
    IdsKept(s, step);
    TablesKept(s, step);
    LeftKept(s, step);
    PromisesKept(s, step);
    ClosuresKept(s, step);
    LoopKept(s, step);
    CallsKept(s, step);
    LifecycleKept(s, step);
  }

  // ---- Whole runs

  ghost predicate Runs(s: State, steps: seq<Step>)
    decreases |steps|
  {
    steps == [] || (Enabled(s, steps[0]) && Runs(Apply(s, steps[0]), steps[1..]))
  }

  ghost function After(s: State, steps: seq<Step>): State
    requires Runs(s, steps)
    decreases |steps|
  {
    if steps == [] then s else After(Apply(s, steps[0]), steps[1..])
  }

  lemma {:induction false} RunIssues(s: State, steps: seq<Step>)
    requires Runs(s, steps)
    ensures s.owner <= After(s, steps).owner
    decreases |steps|
  {
    if steps != [] {
      StepOwners(s, steps[0]);
      RunIssues(Apply(s, steps[0]), steps[1..]);
    }
  }

  lemma {:induction false} RunKeepsInv(s: State, steps: seq<Step>)
    requires Inv(s) && Runs(s, steps) && |After(s, steps).owner| <= TWO64
    ensures Inv(After(s, steps))
    decreases |steps|
  {
    if steps != [] {
      RunIssues(Apply(s, steps[0]), steps[1..]);
      StepKeepsInv(s, steps[0]);
      RunKeepsInv(Apply(s, steps[0]), steps[1..]);
    }
  }

  /**
   * The life of a pending entry, in every run that issues at most 2^64 ids and whatever replies
   * arrive: the tables share no key, and a key is the id its call is at work on, so a call that is over
   * leaves none; every issued id is about to be registered, in a table, or has left; each id leaves at
   * most once, because of a matching reply or of a timeout and not both; each promise is set at most
   * once; each done closure runs at most once, and it has run exactly if a reply was given to it or its
   * call failed, which an async call does only before sending anything.
   */
  lemma PendingLifecycle(steps: seq<Step>)
    requires Runs(Init(), steps) && |After(Init(), steps).owner| <= TWO64
    ensures var s := After(Init(), steps);
            && s.pendingSync.Keys !! s.pendingAsync.Keys
            && (forall id :: id in s.pendingSync || id in s.pendingAsync ==> AtWork(s, id) && id !in s.left)
            && Placed(s)
            && Distinct(s.left)
            && Reasons(s)
            && (forall i, j :: 0 <= i < j < |s.promised| ==> s.promised[i].id != s.promised[j].id)
            && Distinct(s.done)
            && ClosuresRun(s)
  {
    InitInv();
    RunKeepsInv(Init(), steps);
    var s := After(Init(), steps);
    forall id | id in s.pendingSync ensures id !in s.pendingAsync {
      assert InSync(s, id);
    }
  }

  // ---- What the records mean, in terms of the steps

  function Begun(steps: seq<Step>): seq<(Kind, RpcRequest)> {
    if steps == [] then [] else (if steps[0].Begin? then [(steps[0].kind, steps[0].request)] else []) + Begun(steps[1..])
  }

  function Issues(steps: seq<Step>): seq<(nat, nat)> {
    if steps == [] then [] else (if steps[0].Issue? then [(steps[0].call, steps[0].conn)] else []) + Issues(steps[1..])
  }

  function Received(steps: seq<Step>): seq<Delivered> {
    if steps == [] then []
    else (if steps[0].Receive? then [Delivered(steps[0].id, steps[0].response)] else []) + Received(steps[1..])
  }

  function Timeouts(steps: seq<Step>): nat {
    if steps == [] then 0 else (if steps[0].Timeout? then 1 else 0) + Timeouts(steps[1..])
  }

  function EarlyFails(steps: seq<Step>, c: nat): nat {
    if steps == [] then 0 else (if steps[0] == EarlyFail(c) then 1 else 0) + EarlyFails(steps[1..], c)
  }

  function Asked(calls: seq<Call>): (qs: seq<(Kind, RpcRequest)>)
    ensures |qs| == |calls|
  {
    seq(|calls|, i requires 0 <= i < |calls| => (calls[i].kind, calls[i].request))
  }

  function Assigned(s: State): seq<(nat, nat)> {
    seq(|s.owner|, i requires 0 <= i < |s.owner| => (s.owner[i], if i < |s.routes| then s.routes[i] else 0))
  }

  /** What one step adds to the records. */
  lemma StepRecords(s: State, step: Step)
    requires Enabled(s, step) && |s.routes| == |s.owner|
    ensures var s' := Apply(s, step);
            && |s'.routes| == |s'.owner|
            && Asked(s'.calls) == Asked(s.calls) + (if step.Begin? then [(step.kind, step.request)] else [])
            && Assigned(s') == Assigned(s) + (if step.Issue? then [(step.call, step.conn)] else [])
            && s'.received == s.received + (if step.Receive? then [Delivered(step.id, step.response)] else [])
            && |s'.timedOut| == |s.timedOut| + (if step.Timeout? then 1 else 0)
  {
    var s' := Apply(s, step);
    StepOwners(s, step);
    StepBegins(s, step);
    StepRoutes(s, step);
    StepTimedOut(s, step);
    StepReceives(s, step);
    assert Asked(s'.calls) == Asked(s.calls) + (if step.Begin? then [(step.kind, step.request)] else []);
    StepIssues(s, step);
  }

  lemma StepReceives(s: State, step: Step)
    requires Enabled(s, step)
    ensures Apply(s, step).received
         == s.received + (if step.Receive? then [Delivered(step.id, step.response)] else [])
  {
    NilUnit(s.received);
  }

  lemma StepIssues(s: State, step: Step)
    requires Enabled(s, step) && |s.routes| == |s.owner|
    ensures Assigned(Apply(s, step)) == Assigned(s) + (if step.Issue? then [(step.call, step.conn)] else [])
  {
    var s' := Apply(s, step);
    StepRoutes(s, step);
    if step.Issue? {
      assert s'.owner == s.owner + [step.call];
    }
  }

  lemma {:induction false} RunRecords(s: State, steps: seq<Step>)
    requires Runs(s, steps) && |s.routes| == |s.owner|
    ensures var e := After(s, steps);
            && Asked(e.calls) == Asked(s.calls) + Begun(steps)
            && Assigned(e) == Assigned(s) + Issues(steps)
            && e.received == s.received + Received(steps)
            && |e.timedOut| == |s.timedOut| + Timeouts(steps)
    decreases |steps|
  {
    if steps == [] {
      NilUnit(Asked(s.calls));
      NilUnit(Assigned(s));
      NilUnit(s.received);
    } else {
      var step, s' := steps[0], Apply(s, steps[0]);
      StepRecords(s, step);
      RunRecords(s', steps[1..]);
      Regroup(Asked(s.calls), if step.Begin? then [(step.kind, step.request)] else [], Begun(steps[1..]));
      Regroup(Assigned(s), if step.Issue? then [(step.call, step.conn)] else [], Issues(steps[1..]));
      Regroup(s.received, if step.Receive? then [Delivered(step.id, step.response)] else [], Received(steps[1..]));
    }
  }

  /**
   * The records are the run's own: the calls are those begun, in order; ids went to calls and
   * connections as they were issued; the replies received are those that arrived; and as many waits
   * timed out as there were timeouts.
   */
  lemma RecordsAreTheRun(steps: seq<Step>)
    requires Runs(Init(), steps)
    ensures var s := After(Init(), steps);
            && Asked(s.calls) == Begun(steps)
            && Assigned(s) == Issues(steps)
            && s.received == Received(steps)
            && |s.timedOut| == Timeouts(steps)
  {
    RunRecords(Init(), steps);
    NilUnit(Begun(steps));
    NilUnit(Issues(steps));
    NilUnit(Received(steps));
  }

  /** The rounds a sync call has begun, without those that made an attempt. */
  function Fruitless(s: State, c: nat): int {
    if c < |s.calls| then s.calls[c].tries + (if InFlight(s.calls[c].pc) then 1 else 0) - |s.calls[c].attempts| else 0
  }

  lemma StepRounds(s: State, step: Step, c: nat)
    requires Enabled(s, step) && (c < |s.calls| ==> s.calls[c].kind.Sync?)
    ensures Fruitless(Apply(s, step), c) == Fruitless(s, c) + if step == EarlyFail(c) then 1 else 0
  {
    StepBegins(s, step);
    if c < |s.calls| && !Moves(step, c) {
      OnlyOwnMoves(s, step, c);
    }
  }

  lemma {:induction false} RunRounds(s: State, steps: seq<Step>, c: nat)
    requires Runs(s, steps) && c < |After(s, steps).calls| && After(s, steps).calls[c].kind.Sync?
    ensures Fruitless(After(s, steps), c) == Fruitless(s, c) + EarlyFails(steps, c)
    ensures c < |s.calls| ==> s.calls[c].kind.Sync?
    decreases |steps|
  {
    if steps != [] {
      RunRounds(Apply(s, steps[0]), steps[1..], c);
      StepOwners(s, steps[0]);
      StepRounds(s, steps[0], c);
    }
  }

  /**
   * A call that is neither over nor an async call waiting for its reply can take its next step; and a
   * sync call waits until its promise is set or the time is up, and takes the promise if it is set.
   */
  lemma CallProgress(s: State, c: nat) returns (step: Step)
    requires c < |s.calls| && !s.calls[c].pc.Succeeded? && !s.calls[c].pc.Failed?
    requires s.calls[c].pc.Waiting? ==> s.calls[c].kind.Sync?
    ensures Enabled(s, step) && Moves(step, c)
    ensures s.calls[c].pc.Waiting? ==>
              step == (if s.calls[c].pc.id in s.promises then Collect(c) else Timeout(c))
              && forall other :: Enabled(s, other) && Moves(other, c) ==> other == step
  {
    match s.calls[c].pc
    case Ready => step := if MayTry(s.calls[c]) then Issue(c, 0) else GiveUp(c);
    case Issued(_, _) => step := Register(c);
    case Registered(_, _) => step := Send(c);
    case Waiting(id) => step := if id in s.promises then Collect(c) else Timeout(c);
    case TimedOut(_) => step := RemovePending(c);
  }

  /** What holds of a call of which `unlucky` rounds found no server. */
  ghost predicate Retried(s: State, c: Call, unlucky: nat) {
    && |c.attempts| <= Limit(c.kind)
    && Distinct(c.attempts)
    && (c.pc.Succeeded? ==>
          && c.attempts != [] && c.pc.id == c.attempts[|c.attempts| - 1]
          && c.pc.id in s.promises && s.promises[c.pc.id] == c.pc.response
          && c.pc.response.errorCode == NO_ERROR)
    && (c.kind.Sync? ==>
          && (c.pc.Succeeded? ==> c.pc.id !in s.timedOut)
          && (forall k :: 0 <= k < |c.attempts| && !(InFlight(c.pc) && k == |c.attempts| - 1) ==> Lost(s, c.attempts[k]))
          && (c.pc.Failed? ==> |c.attempts| + unlucky == Limit(c.kind)))
  }

  lemma RetriedHolds(s: State, c: nat, unlucky: nat)
    requires Ids(s) && Calls(s) && Outcomes(s) && c < |s.calls|
    requires s.calls[c].kind.Sync? ==> Fruitless(s, c) == unlucky
    ensures Retried(s, s.calls[c], unlucky)
  {
    assert CallOk(s, s.calls[c]);
    assert s.calls[c].kind.Sync? ==> OutcomeOk(s, s.calls[c]);
  }

  /**
   * Retries, in every such run: a call makes at most `Limit` attempts (one if it is not idempotent),
   * each under an id no other attempt of any call has; it succeeds only with the reply to the last, when
   * that wait did not time out, and every attempt before came to nothing, timed out or answered with an
   * error; and a sync call fails only when each of its rounds was an attempt that came to nothing or
   * found no server, and there were as many as its limit.
   */
  lemma AttemptsBounded(steps: seq<Step>, c: nat, d: nat)
    requires Runs(Init(), steps) && |After(Init(), steps).owner| <= TWO64
    requires c < |After(Init(), steps).calls| && d < |After(Init(), steps).calls|
    ensures var s := After(Init(), steps);
            && Retried(s, s.calls[c], EarlyFails(steps, c))
            && (c != d ==> forall id :: id in s.calls[c].attempts ==> id !in s.calls[d].attempts)
  {
    InitInv();
    RunKeepsInv(Init(), steps);
    var s := After(Init(), steps);
    if s.calls[c].kind.Sync? {
      RunRounds(Init(), steps, c);
    }
    RetriedHolds(s, c, EarlyFails(steps, c));
    forall id | c != d && id in s.calls[c].attempts ensures id !in s.calls[d].attempts {
      assert s.owner[id] == c;
    }
  }
}
