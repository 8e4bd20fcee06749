/**
 * The event loop's functor queue and its eventfd wakeup, as a machine whose steps are the locked
 * sections and the system calls. `owner` is the thread that constructed the loop: the one that
 * `isInLoopThread` recognises, whichever thread runs `loop`.
 */
module EventLoop {
  import opened Sequences

  const MAX_COUNTER: nat := 0xffff_ffff_ffff_fffe   // an eventfd holds no more; writes then fail

  /** A queued functor, who posted it, and whether that was between epoll_wait returning and the swap. */
  datatype Posted<+F> = Posted(functor: F, poster: nat, early: bool)

  /** Blocked in epoll_wait; handling events (is the eventfd among them, unread?); running a batch. */
  datatype Pc<+F> = Blocked | Handling(wakeup: bool) | Running(batch: seq<Posted<F>>)

  datatype State<+F> = State(
    owner: nat,
    pending: seq<Posted<F>>,
    counter: nat,             // the eventfd
    owing: set<nat>,          // threads that have pushed and not yet written the eventfd
    pc: Pc<F>,
    posted: seq<F>,           // history: functors in the order they were queued,
    executed: seq<F>)         //          and in the order they ran

  datatype Step<+F> =
    | Post(poster: nat, functor: F)   // queueInLoop: the locked push
    | Write(poster: nat)              // queueInLoop: wakeup()
    | Return(wakeup: bool)            // epoll_wait returns, on the eventfd, another event or its timeout
    | ReadWakeup                      // the wakeup channel's read callback
    | Swap                            // doPendingFunctors: the locked swap
    | RunOne                          // doPendingFunctors: one functor
    | Iterate                         // back to epoll_wait

  function Init<F>(owner: nat): State<F> { State(owner, [], 0, {}, Blocked, [], []) }

  predicate Enabled<F>(s: State<F>, step: Step<F>) {
    match step
    case Post(p, _) => p !in s.owing
    case Write(p) => p in s.owing
    case Return(wakeup) => s.pc.Blocked? && (wakeup ==> s.counter > 0)
    case ReadWakeup => s.pc.Handling? && s.pc.wakeup
    case Swap => s.pc.Handling? && !s.pc.wakeup
    case RunOne => s.pc.Running? && s.pc.batch != []
    case Iterate => s.pc.Running? && s.pc.batch == []
  }

  function Apply<F>(s: State<F>, step: Step<F>): State<F>
    requires Enabled(s, step)
  {
    match step
    case Post(p, f) =>
      s.(pending := s.pending + [Posted(f, p, s.pc.Handling?)], posted := s.posted + [f],
         owing := if p == s.owner then s.owing else s.owing + {p})
    case Write(p) =>
      s.(owing := s.owing - {p}, counter := if s.counter < MAX_COUNTER then s.counter + 1 else s.counter)
    case Return(wakeup) => s.(pc := Handling(wakeup))
    case ReadWakeup => s.(pc := Handling(false), counter := 0)
    case Swap => s.(pc := Running(s.pending), pending := [])
    case RunOne => s.(pc := Running(s.pc.batch[1..]), executed := s.executed + [s.pc.batch[0].functor])
    case Iterate => s.(pc := Blocked)
  }

  // ---- The invariant

  function Functors<F>(ps: seq<Posted<F>>): (fs: seq<F>)
    ensures |fs| == |ps|
  {
    seq(|ps|, i requires 0 <= i < |ps| => ps[i].functor)
  }

  function Batch<F>(s: State<F>): seq<Posted<F>> {
    if s.pc.Running? then s.pc.batch else []
  }

  /** Every functor posted is executed, swapped out or pending, in the order of posting. */
  ghost predicate InOrder<F>(s: State<F>) {
    s.posted == s.executed + Functors(Batch(s)) + Functors(s.pending)
  }

  /** Something will get this functor run: its poster's write, a readable eventfd, or the coming swap. */
  predicate Covered<F>(s: State<F>, p: Posted<F>) {
    p.poster in s.owing || s.counter > 0 || s.pc.Handling?
  }

  ghost predicate NoLostWakeup<F>(s: State<F>) {
    forall i :: 0 <= i < |s.pending| ==>
      (s.pending[i].poster != s.owner || s.pending[i].early ==> Covered(s, s.pending[i]))
      && (s.pending[i].early ==> s.pc.Handling?)
  }

  ghost predicate Inv<F>(s: State<F>) { InOrder(s) && NoLostWakeup(s) && s.counter <= MAX_COUNTER }

  lemma StepKeepsInv<F>(s: State<F>, step: Step<F>)
    requires Inv(s) && Enabled(s, step)
    ensures Inv(Apply(s, step))
  {
  }

  // ---- Whole runs

  ghost predicate Runs<F>(s: State<F>, steps: seq<Step<F>>)
    decreases |steps|
  {
    steps == [] || (Enabled(s, steps[0]) && Runs(Apply(s, steps[0]), steps[1..]))
  }

  ghost function After<F>(s: State<F>, steps: seq<Step<F>>): State<F>
    requires Runs(s, steps)
    decreases |steps|
  {
    if steps == [] then s else After(Apply(s, steps[0]), steps[1..])
  }

  lemma {:induction false} RunKeepsInv<F>(s: State<F>, steps: seq<Step<F>>)
    requires Inv(s) && Runs(s, steps)
    ensures Inv(After(s, steps)) && After(s, steps).owner == s.owner
    decreases |steps|
  {
    if steps != [] {
      StepKeepsInv(s, steps[0]);
      RunKeepsInv(Apply(s, steps[0]), steps[1..]);
    }
  }

  /** The loop sleeps and, short of a timeout or a socket event, nothing is on its way to wake it. */
  predicate Asleep<F>(s: State<F>) { s.pc.Blocked? && s.counter == 0 && s.owing == {} }

  lemma SleepingLoopHolds<F>(s: State<F>)
    requires NoLostWakeup(s) && Asleep(s)
    ensures forall i :: 0 <= i < |s.pending| ==> s.pending[i].poster == s.owner && !s.pending[i].early
  {
  }

  lemma SleepingHead<F>(s: State<F>)
    requires NoLostWakeup(s) && Asleep(s) && s.pending != []
    ensures s.pending[0].poster == s.owner
  {
  }

  /** The functors that the steps of a run queue, in order, and how many of its steps run one. */
  function Queued<F>(steps: seq<Step<F>>): seq<F> {
    if steps == [] then [] else (if steps[0].Post? then [steps[0].functor] else []) + Queued(steps[1..])
  }

  function Calls<F>(steps: seq<Step<F>>): nat {
    if steps == [] then 0 else (if steps[0].RunOne? then 1 else 0) + Calls(steps[1..])
  }

  lemma {:induction false} RunRecords<F>(s: State<F>, steps: seq<Step<F>>)
    requires Runs(s, steps)
    ensures After(s, steps).posted == s.posted + Queued(steps)
    ensures |After(s, steps).executed| == |s.executed| + Calls(steps)
    decreases |steps|
  {
    if steps == [] {
      NilUnit(s.posted);
    } else {
      RunRecords(Apply(s, steps[0]), steps[1..]);
      Regroup(s.posted, if steps[0].Post? then [steps[0].functor] else [], Queued(steps[1..]));
      NilUnit(s.posted);
    }
  }

  /**
   * In every interleaving: functors run in the order the steps queued them, each once, one for each
   * step that runs one; the eventfd counter never passes its maximum; a pending functor
   * from any thread but the owner has its poster's write to come, or a readable eventfd, or the swap
   * ahead; so a loop blocked with no wakeup coming holds only functors that its owner thread queued
   * outside that window, and these wait for the timeout of epoll_wait.
   */
  lemma LoopSafety<F>(owner: nat, steps: seq<Step<F>>)
    requires Runs(Init<F>(owner), steps)
    ensures var s := After(Init(owner), steps);
            && Queued(steps) == s.executed + Functors(Batch(s)) + Functors(s.pending)
            && |s.executed| == Calls(steps)
            && s.counter <= MAX_COUNTER
            && (forall i :: 0 <= i < |s.pending| && s.pending[i].poster != owner ==> Covered(s, s.pending[i]))
            && (Asleep(s) ==> forall i :: 0 <= i < |s.pending| ==> s.pending[i].poster == owner && !s.pending[i].early)
  {
    assert Inv<F>(Init(owner));
    RunKeepsInv(Init(owner), steps);
    RunRecords(Init(owner), steps);
    NilUnit(Queued(steps));
    var s := After(Init(owner), steps);
    if Asleep(s) {
      SleepingLoopHolds(s);
    }
  }

  // ---- The loop thread on its own

  /** `n` functors one after the other. */
  function RunMany<F>(n: nat): seq<Step<F>> { seq(n, _ => RunOne) }

  /** What the loop thread does from where it stands until it next blocks in epoll_wait. */
  function ToNextBlock<F>(s: State<F>): seq<Step<F>> {
    match s.pc
    case Blocked => []
    case Handling(wakeup) => (if wakeup then [ReadWakeup] else []) + [Swap] + (RunMany(|s.pending|) + [Iterate])
    case Running(batch) => RunMany(|batch|) + [Iterate]
  }

  lemma {:induction false} FinishBatch<F>(s: State<F>)
    requires s.pc.Running?
    ensures Runs(s, RunMany(|s.pc.batch|) + [Iterate])
    ensures After(s, RunMany(|s.pc.batch|) + [Iterate])
         == s.(pc := Blocked, executed := s.executed + Functors(s.pc.batch))
    decreases |s.pc.batch|
  {
    var steps := RunMany<F>(|s.pc.batch|) + [Iterate];
    if s.pc.batch == [] {
      assert steps == [Iterate] && steps[1..] == [];
      assert s.executed + Functors<F>([]) == s.executed;
    } else {
      var s' := Apply(s, RunOne);
      assert steps[1..] == RunMany<F>(|s'.pc.batch|) + [Iterate];
      FinishBatch(s');
      assert s.executed + Functors(s.pc.batch) == s'.executed + Functors(s'.pc.batch);
    }
  }

  /** The state in which the loop next blocks if no other thread moves. */
  function NextBlocked<F>(s: State<F>): State<F> {
    match s.pc
    case Blocked => s
    case Handling(wakeup) =>
      s.(pc := Blocked, pending := [], executed := s.executed + Functors(s.pending),
         counter := if wakeup then 0 else s.counter)
    case Running(batch) => s.(pc := Blocked, executed := s.executed + Functors(batch))
  }

  lemma ReachesNextBlock<F>(s: State<F>)
    ensures Runs(s, ToNextBlock(s)) && After(s, ToNextBlock(s)) == NextBlocked(s)
  {
    match s.pc
    case Blocked =>
    case Running(_) => FinishBatch(s);
    case Handling(wakeup) =>
      var steps := ToNextBlock(s);
      var t := if wakeup then Apply(s, ReadWakeup) else s;
      var u := Apply(t, Swap);
      FinishBatch(u);
      var rest := if wakeup then steps[1..] else steps;
      assert rest == [Swap] + (RunMany<F>(|s.pending|) + [Iterate]);
      assert rest[1..] == RunMany<F>(|u.pc.batch|) + [Iterate];
      assert Runs(t, rest) && After(t, rest) == After(u, rest[1..]);
  }

  /** `f` was queued last and is still queued, while the loop sleeps with no wakeup coming. */
  ghost predicate Stranded<F>(s: State<F>, f: F) {
    Asleep(s) && s.pending != [] && s.pending[|s.pending| - 1].functor == f
  }

  /**
   * Queueing a functor from any thread, wherever the loop stands, and letting the loop thread go on to
   * its next wait: the functor is left behind without a wakeup exactly when the owner thread queued
   * it, not between epoll_wait returning and the swap, and no other wakeup was on its way. In
   * particular a functor that queues another one on its own loop while the batch is being called gets
   * no wakeup for it.
   */
  lemma WakeupLostExactly<F>(s: State<F>, poster: nat, f: F)
    requires Enabled(s, Post(poster, f))
    ensures var s' := Apply(s, Post(poster, f));
            && Runs(s', ToNextBlock(s')) && After(s', ToNextBlock(s')).pc.Blocked?
            && (Stranded(After(s', ToNextBlock(s')), f) <==>
                  poster == s.owner && !s.pc.Handling? && s.counter == 0 && s.owing == {})
  {
    var s' := Apply(s, Post(poster, f));
    ReachesNextBlock(s');
    assert poster != s.owner ==> poster in s'.owing;
  }

  /** The loop's own thread queues a functor from inside one: the functor waits for a timeout. */
  lemma QueuedWhileCalling<F>(s: State<F>, f: F)
    requires s.pc.Running? && s.counter == 0 && s.owing == {}
    ensures Runs(Apply(s, Post(s.owner, f)), RunMany(|s.pc.batch|) + [Iterate])
    ensures var e := After(Apply(s, Post(s.owner, f)), RunMany(|s.pc.batch|) + [Iterate]);
            && Asleep(e) && e.pending == s.pending + [Posted(f, s.owner, false)]
            && e.executed == s.executed + Functors(s.pc.batch)
  {
    FinishBatch(Apply(s, Post(s.owner, f)));
  }
}
