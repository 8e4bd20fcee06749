/**
 * The thread pool as a machine whose steps are its lock-protected sections and its notifications,
 * with a program counter for every worker.
 */
module ThreadPool {
  import opened Sequences

  /** Awake and about to take the lock; blocked on the condition; running a task; returned. */
  datatype Worker<+T> = Checking | Waiting | Running(task: T) | Exited

  datatype State<+T> = State(
    queue: seq<T>,
    stop: bool,
    broadcasting: bool,       // the destructor has set stop_ and not yet called notify_all
    notifies: nat,            // enqueuers that have pushed and not yet called notify_one
    workers: seq<Worker<T>>,
    pushed: seq<T>,           // history: tasks in the order they were enqueued,
    started: seq<T>,          //          taken by a worker,
    finished: seq<T>)         //          and completed

  datatype Step<+T> =
    | Push(task: T)           // enqueue: the locked push
    | NotifyOne(woken: nat)   // enqueue: cond_.notify_one()
    | Wake(worker: nat)       // a spurious wakeup
    | Check(worker: nat)      // the locked section of the worker loop
    | Finish(worker: nat)     // task() returns
    | Stop                    // destructor: the locked section
    | NotifyAll               // destructor: cond_.notify_all()

  function Init<T>(threads: nat): State<T> {
    State([], false, false, 0, seq(threads, _ => Checking), [], [], [])
  }

  predicate SomeWaiting<T>(s: State<T>) {
    exists w :: 0 <= w < |s.workers| && s.workers[w].Waiting?
  }

  predicate Enabled<T>(s: State<T>, step: Step<T>) {
    match step
    case Push(_) => true
    case NotifyOne(w) => s.notifies > 0 && (SomeWaiting(s) ==> w < |s.workers| && s.workers[w].Waiting?)
    case Wake(w) => w < |s.workers| && s.workers[w].Waiting?
    case Check(w) => w < |s.workers| && s.workers[w].Checking?
    case Finish(w) => w < |s.workers| && s.workers[w].Running?
    case Stop => !s.stop
    case NotifyAll => s.broadcasting
  }

  function WakeAll<T>(ws: seq<Worker<T>>): seq<Worker<T>> {
    seq(|ws|, i requires 0 <= i < |ws| => if ws[i].Waiting? then Checking else ws[i])
  }

  /** The wait predicate, the exit test and the pop, in one locked section. */
  function CheckQueue<T>(s: State<T>, w: nat): State<T>
    requires w < |s.workers|
  {
    if s.queue != [] then
      s.(queue := s.queue[1..], started := s.started + [s.queue[0]], workers := s.workers[w := Running(s.queue[0])])
    else if s.stop then s.(workers := s.workers[w := Exited])
    else s.(workers := s.workers[w := Waiting])
  }

  function Apply<T>(s: State<T>, step: Step<T>): State<T>
    requires Enabled(s, step)
  {
    match step
    case Push(t) => s.(queue := s.queue + [t], pushed := s.pushed + [t], notifies := s.notifies + 1)
    case NotifyOne(w) =>
      var s' := s.(notifies := s.notifies - 1);
      if SomeWaiting(s) then s'.(workers := s.workers[w := Checking]) else s'
    case Wake(w) => s.(workers := s.workers[w := Checking])
    case Check(w) => CheckQueue(s, w)
    case Finish(w) => s.(workers := s.workers[w := Checking], finished := s.finished + [s.workers[w].task])
    case Stop => s.(stop := true, broadcasting := true)
    case NotifyAll => s.(broadcasting := false, workers := WakeAll(s.workers))
  }

  // ---- The invariant

  /** The tasks in the hands of the workers. */
  ghost function InHand<T>(ws: seq<Worker<T>>): multiset<T> {
    if ws == [] then multiset{} else Held(ws[0]) + InHand(ws[1..])
  }

  ghost function Held<T>(w: Worker<T>): multiset<T> {
    if w.Running? then multiset{w.task} else multiset{}
  }

  predicate Awake<T>(w: Worker<T>) { w.Checking? || w.Running? }

  predicate SomeAwake<T>(s: State<T>) { exists w :: 0 <= w < |s.workers| && Awake(s.workers[w]) }

  predicate AllExited<T>(s: State<T>) { forall w :: 0 <= w < |s.workers| ==> s.workers[w].Exited? }

  /** Tasks leave the queue in the order they entered it, and each is in hand or done once started. */
  ghost predicate Fifo<T>(s: State<T>) {
    && s.pushed == s.started + s.queue
    && multiset(s.started) == multiset(s.finished) + InHand(s.workers)
  }

  /** A queued task is never left to sleeping workers without a notification on its way. */
  ghost predicate NoLostNotify<T>(s: State<T>) {
    s.queue != [] && !AllExited(s) ==> SomeAwake(s) || s.notifies > 0 || s.broadcasting
  }

  /** Workers exit only after stop, and none of them sleeps through it. */
  ghost predicate OrderlyStop<T>(s: State<T>) {
    && (s.broadcasting ==> s.stop)
    && (forall w :: 0 <= w < |s.workers| && s.workers[w].Exited? ==> s.stop)
    && (s.stop && !s.broadcasting ==> !SomeWaiting(s))
  }

  ghost predicate Inv<T>(s: State<T>) { Fifo(s) && NoLostNotify(s) && OrderlyStop(s) }

  lemma {:induction false} InHandUpdate<T>(ws: seq<Worker<T>>, i: nat, w: Worker<T>)
    requires i < |ws|
    ensures InHand(ws[i := w]) + Held(ws[i]) == InHand(ws) + Held(w)
  {
    if i == 0 {
      assert ws[0 := w][1..] == ws[1..];
    } else {
      assert ws[i := w][1..] == ws[1..][i - 1 := w];
      InHandUpdate(ws[1..], i - 1, w);
      AddBoth(Held(ws[0]), InHand(ws[1..][i - 1 := w]), Held(ws[i]), InHand(ws[1..]), Held(w));
    }
  }

  lemma AddBoth<T>(h: multiset<T>, x: multiset<T>, a: multiset<T>, y: multiset<T>, b: multiset<T>)
    requires x + a == y + b
    ensures h + x + a == h + y + b
  {
    assert h + x + a == h + (x + a) && h + y + b == h + (y + b);
  }

  lemma InHandSame<T>(ws: seq<Worker<T>>, i: nat, w: Worker<T>)
    requires i < |ws| && !ws[i].Running? && !w.Running?
    ensures InHand(ws[i := w]) == InHand(ws)
  {
    InHandUpdate(ws, i, w);
    assert InHand(ws[i := w]) + multiset{} == InHand(ws[i := w]) && InHand(ws) + multiset{} == InHand(ws);
  }

  lemma InHandTake<T>(ws: seq<Worker<T>>, i: nat, t: T)
    requires i < |ws| && !ws[i].Running?
    ensures InHand(ws[i := Running(t)]) == InHand(ws) + multiset{t}
  {
    InHandUpdate(ws, i, Running(t));
    assert InHand(ws[i := Running(t)]) + multiset{} == InHand(ws[i := Running(t)]);
  }

  lemma InHandGive<T>(ws: seq<Worker<T>>, i: nat, w: Worker<T>)
    requires i < |ws| && ws[i].Running? && !w.Running?
    ensures InHand(ws) == InHand(ws[i := w]) + multiset{ws[i].task}
  {
    InHandUpdate(ws, i, w);
    assert InHand(ws) + multiset{} == InHand(ws);
  }

  lemma {:induction false} InHandWakeAll<T>(ws: seq<Worker<T>>)
    ensures InHand(WakeAll(ws)) == InHand(ws)
  {
    if ws != [] {
      assert WakeAll(ws)[1..] == WakeAll(ws[1..]);
      InHandWakeAll(ws[1..]);
    }
  }

  lemma {:induction false} NothingInHand<T>(ws: seq<Worker<T>>)
    requires forall w :: 0 <= w < |ws| ==> !ws[w].Running?
    ensures InHand(ws) == multiset{}
  {
    if ws != [] {
      NothingInHand(ws[1..]);
    }
  }

  lemma InitInv<T>(threads: nat)
    ensures Inv<T>(Init(threads))
  {
    NothingInHand<T>(Init<T>(threads).workers);
  }

  lemma FifoKept<T>(s: State<T>, step: Step<T>)
    requires Inv(s) && Enabled(s, step)
    ensures Fifo(Apply(s, step))
  {
    match step
    case Push(t) => assert s.started + s.queue + [t] == s.started + (s.queue + [t]);
    case NotifyOne(w) => if SomeWaiting(s) { InHandSame(s.workers, w, Checking); }
    case Wake(w) => InHandSame(s.workers, w, Checking);
    case Check(w) => CheckKeepsFifo(s, w);
    case Finish(w) =>
      InHandGive(s.workers, w, Checking);
      var t := s.workers[w].task;
      Done(s.finished, t, InHand(s.workers[w := Checking]));
    case Stop =>
    case NotifyAll => InHandWakeAll(s.workers);
  }

  lemma CheckKeepsFifo<T>(s: State<T>, w: nat)
    requires Fifo(s) && w < |s.workers| && s.workers[w].Checking?
    ensures Fifo(CheckQueue(s, w))
  {
    if s.queue != [] {
      InHandTake(s.workers, w, s.queue[0]);
      MoveHead(s.started, s.queue);
      Count(s.started, s.queue[0], multiset(s.finished), InHand(s.workers));
    } else {
      InHandSame(s.workers, w, if s.stop then Exited else Waiting);
    }
  }

  lemma Done<T>(finished: seq<T>, t: T, others: multiset<T>)
    ensures multiset(finished) + (others + multiset{t}) == multiset(finished + [t]) + others
  {
  }

  lemma MoveHead<T>(a: seq<T>, q: seq<T>)
    requires q != []
    ensures a + [q[0]] + q[1..] == a + q
  {
  }

  lemma Count<T>(a: seq<T>, t: T, x: multiset<T>, y: multiset<T>)
    requires multiset(a) == x + y
    ensures multiset(a + [t]) == x + (y + multiset{t})
    ensures multiset(a + [t]) == multiset(a) + multiset{t}
  {
  }

  lemma NoLostNotifyKept<T>(s: State<T>, step: Step<T>)
    requires Inv(s) && Enabled(s, step)
    ensures NoLostNotify(Apply(s, step))
  {
    var s' := Apply(s, step);
    match step
    case NotifyOne(w) =>
      if SomeWaiting(s) { assert Awake(s'.workers[w]); }
      else if !AllExited(s) {
        var v :| 0 <= v < |s.workers| && !s.workers[v].Exited?;
        assert Awake(s'.workers[v]);
      }
    case Wake(w) => assert Awake(s'.workers[w]);
    case Check(w) =>
      if s.queue != [] { assert Awake(s'.workers[w]); }
    case Finish(w) => assert Awake(s'.workers[w]);
    case NotifyAll =>
      if !AllExited(s') {
        var v :| 0 <= v < |s'.workers| && !s'.workers[v].Exited?;
        assert Awake(s'.workers[v]);
      }
    case Push(_) =>
    case Stop =>
  }

  lemma OrderlyStopKept<T>(s: State<T>, step: Step<T>)
    requires Inv(s) && Enabled(s, step)
    ensures OrderlyStop(Apply(s, step))
  {
  }

  lemma StepKeepsInv<T>(s: State<T>, step: Step<T>)
    requires Inv(s) && Enabled(s, step)
    ensures Inv(Apply(s, step)) && |Apply(s, step).workers| == |s.workers|
  {
    FifoKept(s, step);
    NoLostNotifyKept(s, step);
    OrderlyStopKept(s, step);
  }

  // ---- Whole runs

  ghost predicate Runs<T>(s: State<T>, steps: seq<Step<T>>)
    decreases |steps|
  {
    steps == [] || (Enabled(s, steps[0]) && Runs(Apply(s, steps[0]), steps[1..]))
  }

  ghost function After<T>(s: State<T>, steps: seq<Step<T>>): State<T>
    requires Runs(s, steps)
    decreases |steps|
  {
    if steps == [] then s else After(Apply(s, steps[0]), steps[1..])
  }

  lemma {:induction false} RunKeepsInv<T>(s: State<T>, steps: seq<Step<T>>)
    requires Inv(s) && Runs(s, steps)
    ensures Inv(After(s, steps)) && |After(s, steps).workers| == |s.workers|
    decreases |steps|
  {
    if steps != [] {
      StepKeepsInv(s, steps[0]);
      RunKeepsInv(Apply(s, steps[0]), steps[1..]);
    }
  }

  /** The tasks that the steps of a run enqueue, in order. */
  function Tasks<T>(steps: seq<Step<T>>): seq<T> {
    if steps == [] then [] else (if steps[0].Push? then [steps[0].task] else []) + Tasks(steps[1..])
  }

  ghost predicate Stops<T>(steps: seq<Step<T>>) { exists i :: 0 <= i < |steps| && steps[i].Stop? }

  /** If the worker has exited, the first `mark` tasks have been started. */
  ghost predicate Drained<T>(s: State<T>, w: nat, mark: nat) {
    mark <= |s.pushed| && (w < |s.workers| && s.workers[w].Exited? ==> mark <= |s.started|)
  }

  lemma DrainedKept<T>(s: State<T>, step: Step<T>, w: nat, mark: nat)
    requires Inv(s) && Enabled(s, step) && Drained(s, w, mark)
    ensures Drained(Apply(s, step), w, mark)
  {
    assert |s.pushed| == |s.started| + |s.queue|;
  }

  lemma {:induction false} RunPushed<T>(s: State<T>, steps: seq<Step<T>>)
    requires Runs(s, steps)
    ensures After(s, steps).pushed == s.pushed + Tasks(steps)
    decreases |steps|
  {
    if steps == [] {
      NilUnit(s.pushed);
    } else {
      RunPushed(Apply(s, steps[0]), steps[1..]);
      Regroup(s.pushed, if steps[0].Push? then [steps[0].task] else [], Tasks(steps[1..]));
      NilUnit(s.pushed);
    }
  }

  /** How many steps of a run complete a task. */
  function Finishes<T>(steps: seq<Step<T>>): nat {
    if steps == [] then 0 else (if steps[0].Finish? then 1 else 0) + Finishes(steps[1..])
  }

  lemma {:induction false} RunFinishes<T>(s: State<T>, steps: seq<Step<T>>)
    requires Runs(s, steps)
    ensures |After(s, steps).finished| == |s.finished| + Finishes(steps)
    decreases |steps|
  {
    if steps != [] {
      RunFinishes(Apply(s, steps[0]), steps[1..]);
    }
  }

  lemma {:induction false} RunStops<T>(s: State<T>, steps: seq<Step<T>>)
    requires Runs(s, steps)
    ensures After(s, steps).stop <==> s.stop || Stops(steps)
    decreases |steps|
  {
    if steps != [] {
      RunStops(Apply(s, steps[0]), steps[1..]);
      StopsCons(steps);
    }
  }

  lemma {:induction false} RunDrains<T>(s: State<T>, steps: seq<Step<T>>, w: nat, mark: nat)
    requires Inv(s) && Runs(s, steps) && Drained(s, w, mark)
    ensures Drained(After(s, steps), w, mark)
    decreases |steps|
  {
    if steps != [] {
      StepKeepsInv(s, steps[0]);
      DrainedKept(s, steps[0], w, mark);
      RunDrains(Apply(s, steps[0]), steps[1..], w, mark);
    }
  }

  lemma StopsCons<T>(steps: seq<Step<T>>)
    requires steps != []
    ensures Stops(steps) <==> steps[0].Stop? || Stops(steps[1..])
  {
    if Stops(steps) && !steps[0].Stop? {
      var i :| 0 <= i < |steps| && steps[i].Stop?;
      assert steps[1..][i - 1].Stop?;
    }
    if Stops(steps[1..]) {
      var i :| 0 <= i < |steps| - 1 && steps[1..][i].Stop?;
      assert steps[i + 1].Stop?;
    }
  }

  /**
   * In every run, cut anywhere in two: tasks start in the order in which the steps enqueued them, none
   * twice; a queued task has an awake worker or a notification coming, until all workers have returned,
   * which happens only after a stop; a worker that returns in the second part has left no task of the
   * first part unstarted; a started task is in the hands of a worker or has been completed, by as many
   * completions as there were; and once all have returned, every started task has been completed.
   */
  lemma PoolSafety<T>(threads: nat, before: seq<Step<T>>, after: seq<Step<T>>)
    requires threads > 0 && Runs(Init<T>(threads), before) && Runs(After(Init<T>(threads), before), after)
    ensures var s := After(Init<T>(threads), before);
            var e := After(s, after);
            && |s.workers| == |e.workers| == threads
            && e.pushed == Tasks(before) + Tasks(after) == e.started + e.queue
            && (e.queue != [] && !AllExited(e) ==> SomeAwake(e) || e.notifies > 0 || e.broadcasting)
            && (e.stop <==> Stops(before) || Stops(after))
            && (forall w :: 0 <= w < threads && e.workers[w].Exited? ==> e.stop)
            && (forall w :: 0 <= w < threads && !s.workers[w].Exited? && e.workers[w].Exited? ==>
                  Tasks(before) <= e.started)
            && multiset(e.started) == multiset(e.finished) + InHand(e.workers)
            && |e.finished| == Finishes(before) + Finishes(after)
            && (AllExited(e) ==> multiset(e.started) == multiset(e.finished))
  {
    var s := After(Init<T>(threads), before);
    var e := After(s, after);
    RunFinishes(Init<T>(threads), before);
    RunFinishes(s, after);
    InitInv<T>(threads);
    RunKeepsInv(Init<T>(threads), before);
    RunKeepsInv(s, after);
    RunPushed(Init<T>(threads), before);
    RunPushed(s, after);
    NilUnit(Tasks(before));
    RunStops(Init<T>(threads), before);
    RunStops(s, after);
    forall w | 0 <= w < threads && !s.workers[w].Exited? && e.workers[w].Exited?
      ensures Tasks(before) <= e.started
    {
      ExitDrained(s, after, w);
    }
    if AllExited(e) {
      NothingInHand(e.workers);
    }
  }

  /** What was pushed when a worker had not returned is started when it has. */
  lemma ExitDrained<T>(s: State<T>, after: seq<Step<T>>, w: nat)
    requires Inv(s) && Runs(s, after) && Inv(After(s, after)) && w < |s.workers| == |After(s, after).workers|
    requires !s.workers[w].Exited? && After(s, after).workers[w].Exited?
    ensures s.pushed <= After(s, after).started
  {
    var e := After(s, after);
    RunDrains(s, after, w, |s.pushed|);
    RunPushed(s, after);
    PrefixOf(s.pushed, Tasks(after), e.started, e.queue);
  }

  lemma PrefixOf<T>(a: seq<T>, b: seq<T>, c: seq<T>, d: seq<T>)
    requires a + b == c + d && |a| <= |c|
    ensures a <= c
  {
    assert a == (a + b)[..|a|] == (c + d)[..|a|];
  }

  // ---- Shutdown terminates

  function Weight<T>(w: Worker<T>): nat {
    match w
    case Waiting => 2
    case Running(_) => 2
    case Checking => 1
    case Exited => 0
  }

  function Load<T>(ws: seq<Worker<T>>): nat {
    if ws == [] then 0 else Weight(ws[0]) + Load(ws[1..])
  }

  lemma {:induction false} LoadUpdate<T>(ws: seq<Worker<T>>, i: nat, w: Worker<T>)
    requires i < |ws|
    ensures Load(ws[i := w]) + Weight(ws[i]) == Load(ws) + Weight(w)
  {
    if i == 0 {
      assert ws[0 := w][1..] == ws[1..];
    } else {
      assert ws[i := w][1..] == ws[1..][i - 1 := w];
      LoadUpdate(ws[1..], i - 1, w);
    }
  }

  lemma {:induction false} LoadWakeAll<T>(ws: seq<Worker<T>>)
    ensures Load(WakeAll(ws)) <= Load(ws)
  {
    if ws != [] {
      assert WakeAll(ws)[1..] == WakeAll(ws[1..]);
      LoadWakeAll(ws[1..]);
    }
  }

  /** What is left to do: tasks, workers to bring home, and notifications under way. */
  function Remaining<T>(s: State<T>): nat {
    3 * |s.queue| + Load(s.workers) + s.notifies + (if s.broadcasting then 1 else 0)
  }

  /** After stop, every step except a late enqueue brings the pool strictly closer to the end. */
  lemma ShutdownDecreases<T>(s: State<T>, step: Step<T>)
    requires s.stop && Enabled(s, step) && !step.Push?
    ensures Remaining(Apply(s, step)) < Remaining(s)
  {
    match step
    case NotifyAll => LoadWakeAll(s.workers);
    case NotifyOne(w) => if SomeWaiting(s) { LoadUpdate(s.workers, w, Checking); }
    case Wake(w) => LoadUpdate(s.workers, w, Checking);
    case Check(w) => LoadUpdate(s.workers, w, Apply(s, step).workers[w]);
    case Finish(w) => LoadUpdate(s.workers, w, Checking);
    case Stop =>
  }

  ghost predicate NoPush<T>(steps: seq<Step<T>>) { forall i :: 0 <= i < |steps| ==> !steps[i].Push? }

  lemma {:induction false} ShutdownLength<T>(s: State<T>, steps: seq<Step<T>>)
    requires s.stop && Runs(s, steps) && NoPush(steps)
    ensures var e := After(s, steps);
            |steps| + Remaining(e) <= Remaining(s)
    decreases |steps|
  {
    if steps != [] {
      assert !steps[0].Push?;
      ShutdownDecreases(s, steps[0]);
      ShutdownLength(Apply(s, steps[0]), steps[1..]);
    }
  }

  /** The pool cannot move unless someone enqueues another task. */
  ghost predicate Stuck<T(!new)>(s: State<T>) { forall step :: Enabled(s, step) ==> step.Push? }

  lemma StuckIsOver<T(!new)>(s: State<T>)
    requires Stuck(s)
    ensures AllExited(s) && !s.broadcasting && s.stop
  {
    assert !Enabled(s, NotifyAll) && !Enabled(s, Stop);
    forall w | 0 <= w < |s.workers| ensures s.workers[w].Exited? {
      assert !Enabled(s, Wake(w)) && !Enabled(s, Check(w)) && !Enabled(s, Finish(w));
    }
  }

  /**
   * Shutdown terminates: after any run, a stop, and steps among which nothing is enqueued, the pool has
   * taken no more steps since the stop than there was left to do; and if it cannot go on, all workers
   * have returned, so that join() returns, and every task that was enqueued before the stop has been
   * run to completion as often as it was enqueued.
   */
  lemma ShutdownTerminates<T(!new)>(threads: nat, before: seq<Step<T>>, after: seq<Step<T>>)
    requires threads > 0 && Runs(Init<T>(threads), before)
    requires Enabled(After(Init<T>(threads), before), Stop)
    requires Runs(Apply(After(Init<T>(threads), before), Stop), after) && NoPush(after)
    ensures var s := Apply(After(Init<T>(threads), before), Stop);
            var e := After(s, after);
            && |after| <= Remaining(s)
            && (Stuck(e) ==> AllExited(e))
            && (AllExited(e) ==> multiset(Tasks(before)) == multiset(e.finished))
  {
    var r := After(Init<T>(threads), before);
    var s := Apply(r, Stop);
    var e := After(s, after);
    InitInv<T>(threads);
    RunKeepsInv(Init<T>(threads), before);
    StepKeepsInv(r, Stop);
    RunKeepsInv(s, after);
    ShutdownLength(s, after);
    if Stuck(e) {
      StuckIsOver(e);
    }
    if AllExited(e) {
      AllDone(threads, before, s, after);
    }
  }

  lemma AllDone<T>(threads: nat, before: seq<Step<T>>, s: State<T>, after: seq<Step<T>>)
    requires threads > 0 && Runs(Init<T>(threads), before) && Enabled(After(Init<T>(threads), before), Stop)
    requires s == Apply(After(Init<T>(threads), before), Stop) && Inv(s) && |s.workers| == threads
    requires Runs(s, after) && NoPush(after) && AllExited(After(s, after)) && Inv(After(s, after))
    requires |After(s, after).workers| == threads
    ensures multiset(Tasks(before)) == multiset(After(s, after).finished)
  {
    var r, e := After(Init<T>(threads), before), After(s, after);
    InitInv<T>(threads);
    RunKeepsInv(Init<T>(threads), before);
    RunPushed(Init<T>(threads), before);
    NilUnit(Tasks(before));
    assert !r.workers[0].Exited? && e.workers[0].Exited?;
    ExitDrained(s, after, 0);
    RunPushed(s, after);
    NoTasks(after);
    NilUnit(s.pushed);
    NothingInHand(e.workers);
  }

  lemma {:induction false} NoTasks<T>(steps: seq<Step<T>>)
    requires NoPush(steps)
    ensures Tasks(steps) == []
  {
    if steps != [] {
      assert !steps[0].Push?;
      NoTasks(steps[1..]);
    }
  }
}
