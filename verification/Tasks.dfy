/**
  The ordered task queue and its workers (mproxy/src/useless/task.cpp, mproxy/src/useless/worker.cpp).
  Any number of threads run `enqueue`, `increment_count` and the worker loop at the same time; a step
  is one statement of one thread, and any interleaving is allowed that the mutex and the semaphore
  allow.
 */
module Tasks {
  import opened Wrappers

  /** A `Task *`. */
  type Task = nat

  /** A thread, by number. */
  type Thread = nat

  /** The statement a thread executes next. */
  datatype Pc =
    | Outside                // calls enqueue or increment_count some time
    | Pushing(task: Task)    // enqueue: mut is locked, push_back comes next
    | Posting                // enqueue: sem_post comes next
    | Releasing              // enqueue: mut.unlock comes next
    | Counting(left: nat)    // increment_count: `left` posts to go
    | Looping                // run: the test of can_run
    | Waiting                // dequeue: sem_wait
    | Woken                  // dequeue: mut.lock
    | Looking                // dequeue: the test of the queue's size, then front
    | Popping(task: Task)    // dequeue: pop_front
    | Leaving(task: Task)    // dequeue: mut.unlock, with a task to return
    | Failing                // dequeue: mut.unlock, with NULL to return
    | Empty                  // run: dequeue has returned NULL
    | Holding(task: Task)    // run: t->ready.lock
    | Running(task: Task)    // run: the action of the task
    | Stopped

  datatype Entry = Entry(worker: Thread, task: Task)

  /** `free` holds the tasks whose `ready` mutex is not locked. The histories record, in order, what
      was pushed, what was popped and run and by whom, how often `dequeue` returned NULL, and how often
      `increment_count` posted. */
  datatype System = System(
    queue: seq<Task>,
    mut: Option<Thread>,
    count: nat,
    pcs: map<Thread, Pc>,
    free: set<Task>,
    told: set<Thread>,
    pushed: seq<Task>,
    popped: seq<Entry>,
    ran: seq<Entry>,
    nulls: nat,
    bonus: nat)

  datatype Action =
    | Spawn(t: Thread, worker: bool)
    | Enqueue(t: Thread, task: Task)
    | Increment(t: Thread, c: nat)
    | Advance(t: Thread)
    | Unlock(task: Task)     // some thread unlocks the `ready` mutex of a task
    | Tell(t: Thread)        // can_run of a worker becomes false

  /** The thread can execute its next statement: nothing it waits for is missing. (`pop_front` on an
      empty list has no meaning; `InsideRuns` shows that it does not happen.) */
  predicate Ready(s: System, t: Thread)
    requires t in s.pcs
  {
    match s.pcs[t]
    case Outside => false
    case Stopped => false
    case Waiting => s.count > 0
    case Woken => s.mut == None
    case Holding(task) => task in s.free
    case Popping(_) => s.queue != []
    case _ => true
  }

  predicate Legal(s: System, a: Action) {
    match a
    case Spawn(t, _) => t !in s.pcs
    case Enqueue(t, _) => t in s.pcs && s.pcs[t] == Outside && s.mut == None
    case Increment(t, _) => t in s.pcs && s.pcs[t] == Outside
    case Advance(t) => t in s.pcs && Ready(s, t)
    case Unlock(_) => true
    case Tell(_) => true
  }

  function Goto(s: System, t: Thread, pc: Pc): System {
    s.(pcs := s.pcs[t := pc])
  }

  function AdvanceThread(s: System, t: Thread): System
    requires t in s.pcs && Ready(s, t)
  {
    match s.pcs[t]
    case Pushing(task) => Goto(s.(queue := s.queue + [task], pushed := s.pushed + [task]), t, Posting)
    case Posting => Goto(s.(count := s.count + 1), t, Releasing)
    case Releasing => Goto(s.(mut := None), t, Outside)
    case Counting(left) =>
      if left == 0 then Goto(s, t, Outside)
      else Goto(s.(count := s.count + 1, bonus := s.bonus + 1), t, Counting(left - 1))
    case Looping => Goto(s, t, if t in s.told then Stopped else Waiting)
    case Waiting => Goto(s.(count := s.count - 1), t, Woken)
    case Woken => Goto(s.(mut := Some(t)), t, Looking)
    case Looking => if s.queue == [] then Goto(s.(nulls := s.nulls + 1), t, Failing)
        else Goto(s, t, Popping(s.queue[0]))
    case Popping(task) => Goto(s.(queue := s.queue[1..], popped := s.popped + [Entry(t, task)]), t, Leaving(task))
    case Leaving(task) => Goto(s.(mut := None), t, Holding(task))
    case Failing => Goto(s.(mut := None), t, Empty)
    case Empty => Goto(s, t, if t in s.told then Stopped else Looping)
    case Holding(task) => Goto(s.(free := s.free - {task}), t, Running(task))
    case Running(task) => Goto(s.(ran := s.ran + [Entry(t, task)]), t, Looping)
  }

  function Step(s: System, a: Action): System
    requires Legal(s, a)
  {
    match a
    case Spawn(t, worker) => Goto(s, t, if worker then Looping else Outside)
    case Enqueue(t, task) => Goto(s.(mut := Some(t)), t, Pushing(task))
    case Increment(t, c) => Goto(s, t, Counting(c))
    case Advance(t) => AdvanceThread(s, t)
    case Unlock(task) => s.(free := s.free + {task})
    case Tell(t) => s.(told := s.told + {t})
  }

  const START := System([], None, 0, map[], {}, {}, [], [], [], 0, 0)

  predicate LegalRun(s: System, run: seq<Action>)
    decreases |run|
  {
    run != [] ==> Legal(s, run[0]) && LegalRun(Step(s, run[0]), run[1..])
  }

  function Run(s: System, run: seq<Action>): System
    requires LegalRun(s, run)
    decreases |run|
  {
    if run == [] then s else Run(Step(s, run[0]), run[1..])
  }

  // ----- Invariant -----

  /** The thread is between `mut.lock` and `mut.unlock`. */
  predicate Inside(pc: Pc) {
    pc.Pushing? || pc.Posting? || pc.Releasing? || pc.Looking? || pc.Popping? || pc.Leaving? || pc.Failing?
  }

  ghost predicate Exclusive(s: System) {
    && (forall t :: t in s.pcs ==> (Inside(s.pcs[t]) <==> s.mut == Some(t)))
    && (s.mut.Some? ==> s.mut.value in s.pcs)
  }

  /** The thread has taken a unit of the semaphore and not yet a task, or NULL, for it. */
  predicate Owes(pc: Pc) {
    pc.Woken? || pc.Looking? || pc.Popping?
  }

  function Debtors(pcs: map<Thread, Pc>): set<Thread> {
    set t | t in pcs && Owes(pcs[t])
  }

  predicate Unposted(s: System) {
    s.mut.Some? && s.mut.value in s.pcs && s.pcs[s.mut.value].Posting?
  }

  function TasksOf(entries: seq<Entry>): seq<Task> {
    seq(|entries|, (i: nat) requires i < |entries| => entries[i].task)
  }

  /** The tasks of one worker. */
  function Of(entries: seq<Entry>, t: Thread): seq<Task> {
    if entries == [] then []
    else
      var last := entries[|entries| - 1];
      Of(entries[..|entries| - 1], t) + if last.worker == t then [last.task] else []
  }

  /** The task a worker has popped and not yet run. */
  function InHand(s: System, t: Thread): seq<Task> {
    if t !in s.pcs then []
    else
      match s.pcs[t]
      case Leaving(task) => [task]
      case Holding(task) => [task]
      case Running(task) => [task]
      case _ => []
  }

  ghost predicate Honest(s: System, t: Thread) {
    Of(s.ran, t) + InHand(s, t) == Of(s.popped, t)
  }

  /** How far the books are from balancing. */
  function Imbalance(s: System): int {
    s.count + |Debtors(s.pcs)| + s.nulls + |s.popped| + (if Unposted(s) then 1 else 0) - |s.pushed| - s.bonus
  }

  ghost predicate Inv(s: System) {
    && Exclusive(s)
    && s.pushed == TasksOf(s.popped) + s.queue
    && (forall t :: t in s.pcs && s.pcs[t].Popping? ==> s.queue != [] && s.queue[0] == s.pcs[t].task)
    && Imbalance(s) == 0
    && s.nulls <= s.bonus
    && (forall t {:trigger Honest(s, t)} :: Honest(s, t))
  }

  lemma DebtorsAfter(pcs: map<Thread, Pc>, t: Thread, pc: Pc)
    ensures Debtors(pcs[t := pc]) == if Owes(pc) then Debtors(pcs) + {t} else Debtors(pcs) - {t}
  {
  }

  lemma OfMore(entries: seq<Entry>, e: Entry, t: Thread)
    ensures Of(entries + [e], t) == Of(entries, t) + if e.worker == t then [e.task] else []
  {
    assert (entries + [e])[..|entries|] == entries;
  }

  lemma PopHonest(s: System, t: Thread, w: Thread)
    requires t in s.pcs && s.pcs[t].Popping? && s.queue != [] && Honest(s, w)
    ensures Honest(AdvanceThread(s, t), w)
  {
    var v, task := AdvanceThread(s, t), s.pcs[t].task;
    assert v.ran == s.ran && v.popped == s.popped + [Entry(t, task)];
    assert Of(v.popped, w) == Of(s.popped, w) + if t == w then [task] else [] by {
      OfMore(s.popped, Entry(t, task), w);
    }
    if t == w {
      assert InHand(s, w) == [] && InHand(v, w) == [task];
    } else {
      assert InHand(v, w) == InHand(s, w);
    }
  }

  lemma RunHonest(s: System, t: Thread, w: Thread)
    requires t in s.pcs && s.pcs[t].Running? && Honest(s, w)
    ensures Honest(AdvanceThread(s, t), w)
  {
    var v, task := AdvanceThread(s, t), s.pcs[t].task;
    assert v.popped == s.popped && v.ran == s.ran + [Entry(t, task)];
    assert Of(v.ran, w) == Of(s.ran, w) + if t == w then [task] else [] by {
      OfMore(s.ran, Entry(t, task), w);
    }
    if t == w {
      assert InHand(s, w) == [task] && InHand(v, w) == [];
    } else {
      assert InHand(v, w) == InHand(s, w);
    }
  }

  lemma OtherHonest(s: System, t: Thread, w: Thread)
    requires t in s.pcs && Ready(s, t) && !s.pcs[t].Popping? && !s.pcs[t].Running? && Honest(s, w)
    ensures Honest(AdvanceThread(s, t), w)
  {
    var v := AdvanceThread(s, t);
    assert v.ran == s.ran && v.popped == s.popped;
    if t == w {
      assert InHand(v, t) == InHand(s, t);
    }
  }

  lemma HonestAdvance(s: System, t: Thread, w: Thread)
    requires t in s.pcs && Ready(s, t) && Honest(s, w)
    ensures Honest(AdvanceThread(s, t), w)
  {
    if s.pcs[t].Popping? {
      PopHonest(s, t, w);
    } else if s.pcs[t].Running? {
      RunHonest(s, t, w);
    } else {
      OtherHonest(s, t, w);
    }
  }

  lemma HonestAfter(s: System, a: Action, w: Thread)
    requires Honest(s, w) && Legal(s, a)
    ensures Honest(Step(s, a), w)
  {
    if a.Advance? {
      HonestAdvance(s, a.t, w);
    }
  }

  /** The queue after a step, in front of which stands what has been popped. */
  lemma QueueAfter(s: System, a: Action)
    requires Inv(s) && Legal(s, a)
    ensures var v := Step(s, a);
            && v.pushed == TasksOf(v.popped) + v.queue
            && (forall t :: t in v.pcs && v.pcs[t].Popping? ==> v.queue != [] && v.queue[0] == v.pcs[t].task)
  {
    var v := Step(s, a);
    if a.Advance? && s.pcs[a.t].Popping? {
      assert TasksOf(v.popped) == TasksOf(s.popped) + [s.queue[0]];
    }
  }

  lemma DebtorsCount(pcs: map<Thread, Pc>, t: Thread, pc: Pc)
    ensures |Debtors(pcs[t := pc])| ==
            |Debtors(pcs)| + (if Owes(pc) then 1 else 0) - (if t in pcs && Owes(pcs[t]) then 1 else 0)
  {
    DebtorsAfter(pcs, t, pc);
    assert t in Debtors(pcs) <==> t in pcs && Owes(pcs[t]);
  }

  /** A thread inside has locked `mut`; so whether a post is due depends on this thread alone. */
  lemma UnpostedAfter(s: System, a: Action)
    requires Exclusive(s) && Legal(s, a)
    ensures Unposted(Step(s, a)) ==
            if a.Advance? && s.pcs[a.t].Pushing? then true
            else if a.Advance? && s.pcs[a.t].Posting? then false
            else Unposted(s)
  {
  }

  lemma BalanceAfter(s: System, a: Action)
    requires Exclusive(s) && Legal(s, a)
    ensures Imbalance(Step(s, a)) == Imbalance(s)
  {
    UnpostedAfter(s, a);
    if !a.Unlock? && !a.Tell? {
      var v := Step(s, a);
      DebtorsCount(s.pcs, a.t, v.pcs[a.t]);
      assert v.pcs == s.pcs[a.t := v.pcs[a.t]];
    }
  }

  /** NULL is returned only while there is a bonus unit left for it. */
  lemma NullsAfter(s: System, a: Action)
    requires Inv(s) && Legal(s, a)
    ensures Step(s, a).nulls <= Step(s, a).bonus
  {
    if a.Advance? && s.pcs[a.t].Looking? {
      assert a.t in Debtors(s.pcs);
    }
  }

  lemma ExclusiveAfter(s: System, a: Action)
    requires Exclusive(s) && Legal(s, a)
    ensures Exclusive(Step(s, a))
  {
  }

  lemma StepKeepsInv(s: System, a: Action)
    requires Inv(s) && Legal(s, a)
    ensures Inv(Step(s, a))
  {
    ExclusiveAfter(s, a);
    QueueAfter(s, a);
    BalanceAfter(s, a);
    NullsAfter(s, a);
    forall t: Thread
      ensures Honest(Step(s, a), t)
    {
      assert Honest(s, t);
      HonestAfter(s, a, t);
    }
  }

  lemma {:induction false} RunKeepsInv(s: System, run: seq<Action>)
    requires Inv(s) && LegalRun(s, run)
    ensures Inv(Run(s, run))
    decreases |run|
  {
    if run != [] {
      StepKeepsInv(s, run[0]);
      RunKeepsInv(Step(s, run[0]), run[1..]);
    }
  }

  lemma StartInv()
    ensures Inv(START)
  {
    assert TasksOf([]) == [];
    assert Debtors(START.pcs) == {};
    forall t: Thread
      ensures Honest(START, t)
    {
    }
  }

  // ----- What follows for every run -----

  /** Tasks leave the queue in the order in which they entered it, none of them lost or twice. */
  lemma FirstInFirstOut(run: seq<Action>)
    requires LegalRun(START, run)
    ensures var s := Run(START, run);
            TasksOf(s.popped) <= s.pushed && s.queue == s.pushed[|s.popped|..]
  {
    StartInv();
    RunKeepsInv(START, run);
  }

  /** `dequeue` returns NULL at most as often as `increment_count` has posted, so never if it has not.
      And no task is stranded: for every task in the queue whose `sem_post` has been done there is a
      unit left in the semaphore or a worker on its way to the queue. */
  lemma NullsAndTasks(run: seq<Action>)
    requires LegalRun(START, run)
    ensures var s := Run(START, run);
            && s.nulls <= s.bonus
            && s.count + |Debtors(s.pcs)| == |s.queue| - (if Unposted(s) then 1 else 0) + s.bonus - s.nulls
  {
    StartInv();
    RunKeepsInv(START, run);
  }

  /** Every worker runs exactly the tasks it has popped, in that order, up to the one it holds. */
  lemma WorkersRunWhatTheyPop(run: seq<Action>, t: Thread)
    requires LegalRun(START, run)
    ensures var s := Run(START, run);
            Of(s.ran, t) + InHand(s, t) == Of(s.popped, t) && |InHand(s, t)| <= 1
  {
    StartInv();
    RunKeepsInv(START, run);
    assert Honest(Run(START, run), t);
  }

  lemma {:induction false} OfAll(entries: seq<Entry>, t: Thread)
    requires forall i :: 0 <= i < |entries| ==> entries[i].worker == t
    ensures Of(entries, t) == TasksOf(entries)
    decreases |entries|
  {
    if entries != [] {
      var n := |entries| - 1;
      OfAll(entries[..n], t);
      assert TasksOf(entries) == TasksOf(entries[..n]) + [entries[n].task];
    }
  }

  /** All workers are `w`, and so are all entries in the histories. */
  ghost predicate Only(s: System, w: Thread) {
    && (forall t :: t in s.pcs && t != w ==> Produces(s.pcs[t]))
    && (forall i :: 0 <= i < |s.popped| ==> s.popped[i].worker == w)
    && (forall i :: 0 <= i < |s.ran| ==> s.ran[i].worker == w)
  }

  predicate Produces(pc: Pc) {
    pc.Outside? || pc.Pushing? || pc.Posting? || pc.Releasing? || pc.Counting?
  }

  lemma {:induction false} OnlyStays(s: System, run: seq<Action>, w: Thread)
    requires LegalRun(s, run) && Only(s, w)
    requires forall i :: 0 <= i < |run| && run[i].Spawn? && run[i].worker ==> run[i].t == w
    ensures Only(Run(s, run), w)
    decreases |run|
  {
    if run != [] {
      assert forall i :: 0 <= i < |run[1..]| ==> run[1..][i] == run[i + 1];
      OnlyStays(Step(s, run[0]), run[1..], w);
    }
  }

  /** A single worker runs the tasks in the order in which they were enqueued, whatever the order in
      which their `ready` mutexes are unlocked. */
  lemma SingleWorkerKeepsOrder(run: seq<Action>, w: Thread)
    requires LegalRun(START, run)
    requires forall i :: 0 <= i < |run| && run[i].Spawn? && run[i].worker ==> run[i].t == w
    ensures var s := Run(START, run);
            TasksOf(s.ran) <= s.pushed && TasksOf(s.ran) + InHand(s, w) + s.queue == s.pushed
  {
    var s := Run(START, run);
    OnlyStays(START, run, w);
    WorkersRunWhatTheyPop(run, w);
    OfAll(s.popped, w);
    OfAll(s.ran, w);
    StartInv();
    RunKeepsInv(START, run);
  }

  /** A thread that has locked `mut` is never held up before it unlocks it, and no two threads have
      locked it. */
  lemma InsideRuns(run: seq<Action>, t: Thread, u: Thread)
    requires LegalRun(START, run)
    requires var s := Run(START, run); t in s.pcs && u in s.pcs && Inside(s.pcs[t])
    ensures var s := Run(START, run);
            Ready(s, t) && (Inside(s.pcs[u]) ==> u == t)
  {
    StartInv();
    RunKeepsInv(START, run);
  }

  /** Some statements of one thread. */
  function Advances(t: Thread, n: nat): seq<Action> {
    if n == 0 then [] else [Advance(t)] + Advances(t, n - 1)
  }

  /** `increment_count` posts exactly as often as it is asked to, and is never held up. */
  lemma {:induction false} CountingPosts(s: System, t: Thread, left: nat)
    requires t in s.pcs && s.pcs[t] == Counting(left)
    ensures LegalRun(s, Advances(t, left + 1))
    ensures Run(s, Advances(t, left + 1)) ==
            s.(count := s.count + left, bonus := s.bonus + left, pcs := s.pcs[t := Outside])
    decreases left
  {
    var run, v := Advances(t, left + 1), AdvanceThread(s, t);
    assert run[0] == Advance(t) && run[1..] == Advances(t, left);
    if left > 0 {
      CountingPosts(v, t, left - 1);
      assert v.pcs[t := Outside] == s.pcs[t := Outside];
    }
  }

  /** One statement of a thread, and those after it. */
  lemma AdvancesMore(s: System, t: Thread, v: System, n: nat)
    requires t in s.pcs && Ready(s, t) && v == AdvanceThread(s, t) && LegalRun(v, Advances(t, n))
    ensures LegalRun(s, Advances(t, n + 1)) && Run(s, Advances(t, n + 1)) == Run(v, Advances(t, n))
  {
    assert Advances(t, n + 1)[1..] == Advances(t, n);
  }

  lemma ThenAdvances(s: System, a: Action, v: System, t: Thread, n: nat)
    requires Legal(s, a) && v == Step(s, a) && LegalRun(v, Advances(t, n))
    ensures LegalRun(s, [a] + Advances(t, n)) && Run(s, [a] + Advances(t, n)) == Run(v, Advances(t, n))
  {
    assert ([a] + Advances(t, n))[1..] == Advances(t, n);
  }

  /** `increment_count` adds its argument to the semaphore. */
  lemma IncrementAlone(s: System, t: Thread, c: nat)
    requires t in s.pcs && s.pcs[t] == Outside
    ensures var run := [Increment(t, c)] + Advances(t, c + 1);
            LegalRun(s, run) && Run(s, run) == s.(count := s.count + c, bonus := s.bonus + c)
  {
    var v := Step(s, Increment(t, c));
    CountingPosts(v, t, c);
    ThenAdvances(s, Increment(t, c), v, t, c + 1);
    assert v.pcs[t := Outside] == s.pcs;
  }

  /** `enqueue` puts its task at the end of the queue, adds one to the semaphore and gives the mutex back. */
  lemma EnqueueAlone(s: System, t: Thread, task: Task)
    requires t in s.pcs && s.pcs[t] == Outside && s.mut == None
    ensures var run := [Enqueue(t, task)] + Advances(t, 3);
            LegalRun(s, run) && Run(s, run) ==
                                s.(queue := s.queue + [task], count := s.count + 1, pushed := s.pushed + [task])
  {
    var v := Step(s, Enqueue(t, task));
    var v1 := AdvanceThread(v, t);
    var v2 := AdvanceThread(v1, t);
    var v3 := AdvanceThread(v2, t);
    AdvancesMore(v2, t, v3, 0);
    AdvancesMore(v1, t, v2, 1);
    AdvancesMore(v, t, v1, 2);
    ThenAdvances(s, Enqueue(t, task), v, t, 3);
    assert v3.pcs == s.pcs;
  }

  // A worker that is alone, from some statement of its cycle on.

  lemma HoldingAlone(s: System, t: Thread, task: Task)
    requires t in s.pcs && s.pcs[t] == Holding(task) && task in s.free
    ensures LegalRun(s, Advances(t, 2))
    ensures Run(s, Advances(t, 2)) ==
            s.(free := s.free - {task}, ran := s.ran + [Entry(t, task)], pcs := s.pcs[t := Looping])
  {
    var v1 := AdvanceThread(s, t);
    var v2 := AdvanceThread(v1, t);
    AdvancesMore(v1, t, v2, 0);
    AdvancesMore(s, t, v1, 1);
    assert v2.pcs == s.pcs[t := Looping];
  }

  lemma PoppingAlone(s: System, t: Thread, task: Task)
    requires t in s.pcs && s.pcs[t] == Popping(task) && s.queue != [] && task in s.free
    ensures LegalRun(s, Advances(t, 4))
    ensures Run(s, Advances(t, 4)) ==
            s.(queue := s.queue[1..], mut := None, free := s.free - {task}, pcs := s.pcs[t := Looping],
            popped := s.popped + [Entry(t, task)], ran := s.ran + [Entry(t, task)])
  {
    var v1 := AdvanceThread(s, t);
    var v2 := AdvanceThread(v1, t);
    HoldingAlone(v2, t, task);
    AdvancesMore(v1, t, v2, 2);
    AdvancesMore(s, t, v1, 3);
    assert v2.pcs[t := Looping] == s.pcs[t := Looping];
  }

  lemma WokenAlone(s: System, t: Thread, task: Task)
    requires t in s.pcs && s.pcs[t] == Woken && s.mut == None && s.queue != [] && task == s.queue[0] && task in s.free
    ensures LegalRun(s, Advances(t, 6))
    ensures Run(s, Advances(t, 6)) ==
            s.(queue := s.queue[1..], free := s.free - {task}, pcs := s.pcs[t := Looping],
            popped := s.popped + [Entry(t, task)], ran := s.ran + [Entry(t, task)])
  {
    var v1 := AdvanceThread(s, t);
    var v2 := AdvanceThread(v1, t);
    PoppingAlone(v2, t, task);
    AdvancesMore(v1, t, v2, 4);
    AdvancesMore(s, t, v1, 5);
    assert v2.pcs[t := Looping] == s.pcs[t := Looping];
  }

  /** A worker that is alone takes the first task of the queue and runs it, locking its mutex. */
  lemma WorkAlone(s: System, t: Thread, task: Task)
    requires t in s.pcs && s.pcs[t] == Looping && t !in s.told && s.mut == None
    requires s.count > 0 && s.queue != [] && task == s.queue[0] && task in s.free
    ensures LegalRun(s, Advances(t, 8))
    ensures Run(s, Advances(t, 8)) ==
            s.(queue := s.queue[1..], count := s.count - 1, free := s.free - {task},
            popped := s.popped + [Entry(t, task)], ran := s.ran + [Entry(t, task)])
  {
    var v1 := AdvanceThread(s, t);
    var v2 := AdvanceThread(v1, t);
    WokenAlone(v2, t, task);
    AdvancesMore(v1, t, v2, 6);
    AdvancesMore(s, t, v1, 7);
    assert v2.pcs[t := Looping] == s.pcs;
  }

  /** A worker that finds the queue empty gets NULL, and stops if it has been told to. */
  lemma FailingAlone(s: System, t: Thread)
    requires t in s.pcs && s.pcs[t] == Looking && s.queue == []
    ensures LegalRun(s, Advances(t, 3))
    ensures var next := if t in s.told then Stopped else Looping;
            Run(s, Advances(t, 3)) == s.(mut := None, nulls := s.nulls + 1, pcs := s.pcs[t := next])
  {
    var v1 := AdvanceThread(s, t);
    var v2 := AdvanceThread(v1, t);
    var v3 := AdvanceThread(v2, t);
    AdvancesMore(v2, t, v3, 0);
    AdvancesMore(v1, t, v2, 1);
    AdvancesMore(s, t, v1, 2);
    assert v3.pcs == s.pcs[t := if t in s.told then Stopped else Looping];
  }

  lemma WokenIdle(s: System, t: Thread)
    requires t in s.pcs && s.pcs[t] == Woken && t !in s.told && s.mut == None && s.queue == []
    ensures LegalRun(s, Advances(t, 4))
    ensures Run(s, Advances(t, 4)) == s.(nulls := s.nulls + 1, pcs := s.pcs[t := Looping])
  {
    var v1 := AdvanceThread(s, t);
    FailingAlone(v1, t);
    AdvancesMore(s, t, v1, 3);
    assert v1.pcs[t := Looping] == s.pcs[t := Looping];
  }

  /** With an empty queue, a worker that has not been told to stop takes a unit, gets NULL and starts anew. */
  lemma NothingToDo(s: System, t: Thread)
    requires t in s.pcs && s.pcs[t] == Looping && t !in s.told && s.mut == None && s.count > 0 && s.queue == []
    ensures LegalRun(s, Advances(t, 6)) && Run(s, Advances(t, 6)) == s.(count := s.count - 1, nulls := s.nulls + 1)
  {
    var v1 := AdvanceThread(s, t);
    var v2 := AdvanceThread(v1, t);
    WokenIdle(v2, t);
    AdvancesMore(v1, t, v2, 4);
    AdvancesMore(s, t, v1, 5);
    assert v2.pcs[t := Looping] == s.pcs;
  }

  // ----- The `ready` mutexes -----

  /** How often a task has been run, or is being run. */
  function Times(entries: seq<Entry>, task: Task): nat {
    if entries == [] then 0
    else
      var last := entries[|entries| - 1];
      Times(entries[..|entries| - 1], task) + if last.task == task then 1 else 0
  }

  function Runners(pcs: map<Thread, Pc>, task: Task): set<Thread> {
    set t | t in pcs && pcs[t] == Running(task)
  }

  /** The locks of its `ready` mutex: one for every run of the task. */
  function Locks(s: System, task: Task): nat {
    Times(s.ran, task) + |Runners(s.pcs, task)|
  }

  function Unlocks(run: seq<Action>, task: Task): nat
    decreases |run|
  {
    if run == [] then 0 else (if run[0] == Unlock(task) then 1 else 0) + Unlocks(run[1..], task)
  }

  /** The mutex can be locked. */
  function Chance(s: System, task: Task): nat {
    if task in s.free then 1 else 0
  }

  lemma RunnersAfter(pcs: map<Thread, Pc>, t: Thread, pc: Pc, task: Task)
    ensures Runners(pcs[t := pc], task) ==
            if pc == Running(task) then Runners(pcs, task) + {t} else Runners(pcs, task) - {t}
  {
  }

  lemma RunnersCount(pcs: map<Thread, Pc>, t: Thread, pc: Pc, task: Task)
    ensures |Runners(pcs[t := pc], task)| ==
            |Runners(pcs, task)| + (if pc == Running(task) then 1 else 0)
            - (if t in pcs && pcs[t] == Running(task) then 1 else 0)
  {
    RunnersAfter(pcs, t, pc, task);
    assert t in Runners(pcs, task) <==> t in pcs && pcs[t] == Running(task);
  }

  lemma TimesMore(entries: seq<Entry>, e: Entry, task: Task)
    ensures Times(entries + [e], task) == Times(entries, task) + if e.task == task then 1 else 0
  {
    assert (entries + [e])[..|entries|] == entries;
  }

  /** The end of an action is no further lock. */
  lemma RanLocks(s: System, t: Thread, task: Task)
    requires t in s.pcs && s.pcs[t].Running?
    ensures Locks(AdvanceThread(s, t), task) == Locks(s, task)
    ensures Chance(AdvanceThread(s, t), task) == Chance(s, task)
  {
    TimesMore(s.ran, Entry(t, s.pcs[t].task), task);
    RunnersCount(s.pcs, t, Looping, task);
  }

  /** A worker that gets the mutex takes the chance of all others. */
  lemma HeldLocks(s: System, t: Thread, task: Task)
    requires t in s.pcs && s.pcs[t].Holding? && Ready(s, t)
    ensures Locks(AdvanceThread(s, t), task) + Chance(AdvanceThread(s, t), task) == Locks(s, task) + Chance(s, task)
  {
    RunnersCount(s.pcs, t, Running(s.pcs[t].task), task);
  }

  lemma OtherLocks(s: System, a: Action, task: Task)
    requires Legal(s, a) && (a.Advance? ==> !s.pcs[a.t].Running? && !s.pcs[a.t].Holding?)
    ensures Locks(Step(s, a), task) == Locks(s, task)
    ensures Chance(Step(s, a), task) <= Chance(s, task) + if a == Unlock(task) then 1 else 0
  {
    var v := Step(s, a);
    if !a.Unlock? && !a.Tell? {
      RunnersCount(s.pcs, a.t, v.pcs[a.t], task);
      assert v.pcs == s.pcs[a.t := v.pcs[a.t]];
    }
  }

  lemma LocksAfter(s: System, a: Action, task: Task)
    requires Legal(s, a)
    ensures Locks(Step(s, a), task) + Chance(Step(s, a), task) <=
            Locks(s, task) + Chance(s, task) + if a == Unlock(task) then 1 else 0
  {
    if a.Advance? && s.pcs[a.t].Running? {
      RanLocks(s, a.t, task);
    } else if a.Advance? && s.pcs[a.t].Holding? {
      HeldLocks(s, a.t, task);
    } else {
      OtherLocks(s, a, task);
    }
  }

  lemma {:induction false} LocksOfRun(s: System, run: seq<Action>, task: Task)
    requires LegalRun(s, run)
    ensures Locks(Run(s, run), task) + Chance(Run(s, run), task) <=
            Locks(s, task) + Chance(s, task) + Unlocks(run, task)
    decreases |run|
  {
    if run != [] {
      LocksAfter(s, run[0], task);
      LocksOfRun(Step(s, run[0]), run[1..], task);
    }
  }

  /** A task is run, or being run, at most as often as its `ready` mutex has been unlocked: a worker waits for
      it before the action. */
  lemma RunsNeedUnlocks(run: seq<Action>, task: Task)
    requires LegalRun(START, run)
    ensures var s := Run(START, run);
            Times(s.ran, task) + |Runners(s.pcs, task)| <= Unlocks(run, task)
  {
    LocksOfRun(START, run, task);
    assert Runners(START.pcs, task) == {};
  }

  // ----- The end of a worker -----

  lemma {:induction false} StoppedWereTold(s: System, run: seq<Action>, t: Thread)
    requires LegalRun(s, run) && (t in s.pcs && s.pcs[t].Stopped? ==> t in s.told)
    ensures var v := Run(s, run);
            && (t in v.pcs && v.pcs[t].Stopped? ==> t in v.told)
            && (t in v.told <==> t in s.told || Tell(t) in run)
    decreases |run|
  {
    if run != [] {
      StoppedWereTold(Step(s, run[0]), run[1..], t);
      assert run == [run[0]] + run[1..];
    }
  }

  /** A worker stops only after it has been told to. */
  lemma StopsWhenTold(run: seq<Action>, t: Thread)
    requires LegalRun(START, run)
    ensures var s := Run(START, run);
            t in s.pcs && s.pcs[t].Stopped? ==> Tell(t) in run
  {
    StoppedWereTold(START, run, t);
  }

  /** The worker has passed the test of `can_run`, and not yet popped a task. */
  predicate OnItsWay(pc: Pc) {
    pc.Waiting? || pc.Woken? || pc.Looking? || pc.Popping?
  }

  /** The tasks that a worker has popped, and the one it is on its way to. */
  function Claims(s: System, t: Thread): nat
    requires t in s.pcs
  {
    |Of(s.popped, t)| + if OnItsWay(s.pcs[t]) then 1 else 0
  }

  lemma PopClaims(s: System, u: Thread, t: Thread)
    requires u in s.pcs && s.pcs[u].Popping? && s.queue != [] && t in s.pcs
    ensures Claims(AdvanceThread(s, u), t) == Claims(s, t)
  {
    OfMore(s.popped, Entry(u, s.pcs[u].task), t);
  }

  lemma ToldAfter(s: System, a: Action, t: Thread)
    requires Legal(s, a) && t in s.pcs && t in s.told
    ensures var v := Step(s, a);
            t in v.pcs && t in v.told && Claims(v, t) <= Claims(s, t)
  {
    if a.Advance? && s.pcs[a.t].Popping? {
      PopClaims(s, a.t, t);
    } else {
      assert Step(s, a).popped == s.popped;
    }
  }

  /** A worker that has been told to stop pops at most one more task, and none unless it was on its way to the
      queue. */
  lemma {:induction false} ToldPopsNoMore(s: System, run: seq<Action>, t: Thread)
    requires LegalRun(s, run) && t in s.pcs && t in s.told
    ensures var v := Run(s, run);
            && t in v.pcs && |Of(v.popped, t)| <= Claims(v, t) <= Claims(s, t) <= |Of(s.popped, t)| + 1
            && (s.pcs[t].Looping? ==> |Of(v.popped, t)| <= |Of(s.popped, t)|)
    decreases |run|
  {
    if run != [] {
      ToldAfter(s, run[0], t);
      ToldPopsNoMore(Step(s, run[0]), run[1..], t);
    }
  }
}
