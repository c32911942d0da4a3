/** The worker pool of ext/io/event/worker_pool.c as a transition system. One step is one region that the mutex or
    Ruby's global lock makes atomic. Condition variables follow POSIX.1-2017 (System Interfaces,
    pthread_cond_signal and pthread_cond_broadcast): a signal wakes at least one waiter, and a waiter may also
    wake spuriously. */
module WorkerPool {
  import opened Collections

  /** Where a worker thread is: about to take the mutex, waiting on the condition, woken but not yet holding
      the mutex again, carrying a dequeued item, or finished. */
  datatype Place = Ready | Parked | Woken | Holding(work: nat, executed: bool) | Exited

  datatype Worker = Worker(place: Place, interrupted: bool)

  /** A work item lives on the stack of the calling fiber until that call returns. */
  datatype Work = Work(executions: nat, completed: bool, returned: bool)

  /** Items are numbered in the order they are enqueued; `dequeued` is the history of the queue's front. */
  datatype Pool = Pool(
    queue: seq<nat>,
    dequeued: seq<nat>,
    works: seq<Work>,
    workers: seq<Worker>,
    shutdown: bool,
    completedCount: nat)

  datatype Action =
    | Call(signalled: set<nat>)     // worker_pool_call up to the unlock; the condition wakes `signalled`
    | Check(worker: nat)            // the critical section of worker_wait_and_execute
    | Execute(worker: nat)          // the blocking operation, without the global lock
    | Complete(worker: nat)         // worker_thread_func, with the global lock
    | Spurious(worker: nat)
    | Interrupt(worker: nat)        // worker_unblock_func
    | Unblock(work: nat)            // the calling fiber looks at `completed` again
    | Close                         // worker_pool_close up to the unlock

  function Initial(workers: nat): Pool {
    Pool([], [], [], seq(workers, _ => Worker(Ready, false)), false, 0)
  }

  function ParkedIn(workers: seq<Worker>): set<nat> {
    set i | 0 <= i < |workers| && workers[i].place.Parked?
  }

  function ParkedSet(s: Pool): set<nat> {
    ParkedIn(s.workers)
  }

  /** Workers that were woken, may still take an item and have not looked at the queue since. */
  function AlertIn(workers: seq<Worker>): set<nat> {
    set i | 0 <= i < |workers| && workers[i].place.Woken? && !workers[i].interrupted
  }

  function AlertSet(s: Pool): set<nat> {
    AlertIn(s.workers)
  }

  predicate Carries(s: Pool, i: nat) {
    i < |s.workers| && s.workers[i].place.Holding? && s.workers[i].place.work < |s.works|
  }

  predicate Enabled(s: Pool, a: Action) {
    match a
    case Call(signalled) => !s.shutdown && signalled <= ParkedSet(s) && (ParkedSet(s) != {} ==> signalled != {})
    case Check(i) => i < |s.workers| && (s.workers[i].place.Ready? || s.workers[i].place.Woken?)
    case Execute(i) => Carries(s, i) && !s.workers[i].place.executed
    case Complete(i) => Carries(s, i) && s.workers[i].place.executed
    case Spurious(i) => i < |s.workers| && s.workers[i].place.Parked?
    case Interrupt(i) => i < |s.workers|
    case Unblock(w) => w < |s.works| && !s.works[w].returned
    case Close => !s.shutdown
  }

  function Wake(workers: seq<Worker>, who: set<nat>): (r: seq<Worker>)
    ensures |r| == |workers|
    ensures forall i | 0 <= i < |r| ::
              r[i] == if workers[i].place.Parked? && i in who then workers[i].(place := Woken) else workers[i]
  {
    if workers == [] then []
    else
      var n := |workers| - 1;
      Wake(workers[..n], who)
      + [if workers[n].place.Parked? && n in who then workers[n].(place := Woken) else workers[n]]
  }

  /** pthread_cond_broadcast: every parked worker is woken. */
  function Broadcast(workers: seq<Worker>): (r: seq<Worker>)
    ensures |r| == |workers| && ParkedIn(r) == {}
  {
    Wake(workers, ParkedIn(workers))
  }

  function Move(s: Pool, i: nat, place: Place): (r: Pool)
    requires i < |s.workers|
  {
    s.(workers := s.workers[i := s.workers[i].(place := place)])
  }

  function Apply(s: Pool, a: Action): (r: Pool)
    requires Enabled(s, a)
  {
    match a
    case Call(signalled) =>
      s.(queue := s.queue + [|s.works|],
         works := s.works + [Work(0, false, false)],
         workers := Wake(s.workers, signalled))
    case Check(i) =>
      if s.shutdown || s.workers[i].interrupted then Move(s, i, Exited)
      else if s.queue == [] then Move(s, i, Parked)
      else Move(s, i, Holding(s.queue[0], false)).(queue := s.queue[1..], dequeued := s.dequeued + [s.queue[0]])
    case Execute(i) =>
      var w := s.workers[i].place.work;
      Move(s, i, Holding(w, true)).(works := s.works[w := s.works[w].(executions := s.works[w].executions + 1)])
    case Complete(i) =>
      var w := s.workers[i].place.work;
      Move(s, i, Ready).(
        works := s.works[w := s.works[w].(completed := true)],
        completedCount := s.completedCount + 1)
    case Spurious(i) => Move(s, i, Woken)
    case Interrupt(i) =>
      var workers := Broadcast(s.workers);
      s.(workers := workers[i := workers[i].(interrupted := true)])
    case Unblock(w) =>
      if s.works[w].completed then s.(works := s.works[w := s.works[w].(returned := true)]) else s
    case Close =>
      s.(shutdown := true, workers := Broadcast(s.workers))
  }

  function Next(s: Pool, a: Action): Pool {
    if Enabled(s, a) then Apply(s, a) else s
  }

  function Run(s: Pool, actions: seq<Action>): Pool {
    if actions == [] then s else Next(Run(s, actions[..|actions| - 1]), actions[|actions| - 1])
  }

  // ----- Ownership -----

  ghost predicate Holds(s: Pool, i: nat, w: nat) {
    i < |s.workers| && s.workers[i].place.Holding? && s.workers[i].place.work == w
  }

  ghost predicate Held(s: Pool, w: nat) {
    exists i: nat :: Holds(s, i, w)
  }

  function CompletedSet(s: Pool): set<nat> {
    set w | 0 <= w < |s.works| && s.works[w].completed
  }

  /** Items leave the queue in the order they entered it, and the queue holds exactly those that have not left. */
  ghost predicate Fifo(s: Pool) {
    && |s.dequeued| + |s.queue| == |s.works|
    && (forall k | 0 <= k < |s.dequeued| :: s.dequeued[k] == k)
    && (forall k | 0 <= k < |s.queue| :: s.queue[k] == |s.dequeued| + k)
  }

  /** An item outside the queue is completed or else held by one worker, never both; a queued one is neither. */
  ghost predicate Owned(s: Pool) {
    && |s.dequeued| <= |s.works|
    && (forall i: nat, w: nat | Holds(s, i, w) :: w < |s.dequeued| && !s.works[w].completed)
    && (forall i: nat, j: nat, w: nat | Holds(s, i, w) && Holds(s, j, w) :: i == j)
    && (forall w: nat | w < |s.dequeued| :: s.works[w].completed || Held(s, w))
    && (forall w: nat | |s.dequeued| <= w < |s.works| :: !s.works[w].completed)
  }

  /** An item was executed once if it is completed or its worker has run it, and not at all otherwise. */
  ghost predicate RunsOnce(s: Pool) {
    && (forall w: nat | w < |s.works| && s.works[w].completed :: s.works[w].executions == 1)
    && (forall i: nat, w: nat | Holds(s, i, w) && w < |s.works| ::
          s.works[w].executions == if s.workers[i].place.executed then 1 else 0)
    && (forall w: nat | |s.dequeued| <= w < |s.works| :: s.works[w].executions == 0)
  }

  ghost predicate Inv(s: Pool) {
    && Fifo(s)
    && Owned(s)
    && RunsOnce(s)
    && (forall w: nat | w < |s.works| && s.works[w].returned :: s.works[w].completed)
    && s.completedCount == |CompletedSet(s)|
  }

  lemma WakingMovesNoItem(s: Pool, t: Pool)
    requires |t.workers| == |s.workers|
    requires forall i | 0 <= i < |s.workers| ::
               s.workers[i].place.Holding? || t.workers[i].place.Holding? ==> t.workers[i].place == s.workers[i].place
    ensures forall i: nat, w: nat :: Holds(t, i, w) <==> Holds(s, i, w)
    ensures forall w: nat :: Held(t, w) <==> Held(s, w)
  {
  }

  lemma CallKeepsInv(s: Pool, signalled: set<nat>)
    requires Inv(s) && Enabled(s, Call(signalled))
    ensures Inv(Apply(s, Call(signalled)))
  {
    var t := Apply(s, Call(signalled));
    WakingMovesNoItem(s, t);
    assert CompletedSet(t) == CompletedSet(s);
  }

  lemma CheckKeepsInv(s: Pool, i: nat)
    requires Inv(s) && Enabled(s, Check(i))
    ensures Inv(Apply(s, Check(i)))
  {
    var t := Apply(s, Check(i));
    assert CompletedSet(t) == CompletedSet(s);
    if t.queue == s.queue {
      WakingMovesNoItem(s, t);
    } else {
      var n := s.queue[0];
      forall j: nat, w: nat ensures Holds(t, j, w) <==> Holds(s, j, w) || (j == i && w == n) {}
      forall w: nat | w < |t.dequeued| ensures t.works[w].completed || Held(t, w) {
        if w == n {
          assert Holds(t, i, w);
        } else if Held(s, w) {
          var j: nat :| Holds(s, j, w);
          assert Holds(t, j, w);
        }
      }
    }
  }

  lemma ExecuteKeepsInv(s: Pool, i: nat)
    requires Inv(s) && Enabled(s, Execute(i))
    ensures Inv(Apply(s, Execute(i)))
  {
    var t := Apply(s, Execute(i));
    assert Holds(s, i, s.workers[i].place.work);
    forall j: nat, w: nat ensures Holds(t, j, w) <==> Holds(s, j, w) {}
    forall w: nat | Held(s, w) ensures Held(t, w) {
      var j: nat :| Holds(s, j, w);
      assert Holds(t, j, w);
    }
    assert CompletedSet(t) == CompletedSet(s);
  }

  lemma CompleteKeepsInv(s: Pool, i: nat)
    requires Inv(s) && Enabled(s, Complete(i))
    ensures Inv(Apply(s, Complete(i)))
  {
    var t := Apply(s, Complete(i));
    var n := s.workers[i].place.work;
    assert Holds(s, i, n);
    forall j: nat, w: nat ensures Holds(t, j, w) <==> Holds(s, j, w) && j != i {}
    forall w: nat | w < |t.dequeued| ensures t.works[w].completed || Held(t, w) {
      if Held(s, w) && w != n {
        var j: nat :| Holds(s, j, w);
        assert Holds(t, j, w);
      }
    }
    assert CompletedSet(t) == CompletedSet(s) + {n};
  }

  lemma WakingKeepsInv(s: Pool, t: Pool)
    requires Inv(s) && t == s.(workers := t.workers, shutdown := t.shutdown) && |t.workers| == |s.workers|
    requires forall i | 0 <= i < |s.workers| ::
               s.workers[i].place.Holding? || t.workers[i].place.Holding? ==> t.workers[i].place == s.workers[i].place
    ensures Inv(t)
  {
    WakingMovesNoItem(s, t);
    assert CompletedSet(t) == CompletedSet(s);
  }

  lemma UnblockKeepsInv(s: Pool, w: nat)
    requires Inv(s) && Enabled(s, Unblock(w))
    ensures Inv(Apply(s, Unblock(w)))
  {
    var t := Apply(s, Unblock(w));
    WakingMovesNoItem(s, t);
    assert CompletedSet(t) == CompletedSet(s);
  }

  lemma StepKeepsInv(s: Pool, a: Action)
    requires Inv(s)
    ensures Inv(Next(s, a))
  {
    if Enabled(s, a) {
      var t := Apply(s, a);
      match a {
        case Call(signalled) => CallKeepsInv(s, signalled);
        case Check(i) => CheckKeepsInv(s, i);
        case Execute(i) => ExecuteKeepsInv(s, i);
        case Complete(i) => CompleteKeepsInv(s, i);
        case Spurious(_) | Interrupt(_) | Close => WakingKeepsInv(s, t);
        case Unblock(w) => UnblockKeepsInv(s, w);
      }
    }
  }

  lemma {:induction false} RunKeepsInv(workers: nat, actions: seq<Action>)
    ensures Inv(Run(Initial(workers), actions))
  {
    if actions == [] {
      assert CompletedSet(Initial(workers)) == {};
    } else {
      var n := |actions| - 1;
      RunKeepsInv(workers, actions[..n]);
      StepKeepsInv(Run(Initial(workers), actions[..n]), actions[n]);
    }
  }

  // ----- Wakeups -----

  /** Nobody sleeps through shutdown or its own interruption, and while anybody sleeps there is an alert worker
      for every queued item. */
  ghost predicate NoLostWakeup(s: Pool) {
    && (forall i | 0 <= i < |s.workers| && s.workers[i].place.Parked? :: !s.workers[i].interrupted && !s.shutdown)
    && (ParkedSet(s) != {} ==> |s.queue| <= |AlertSet(s)|)
  }

  lemma CallKeepsWakeups(s: Pool, signalled: set<nat>)
    requires NoLostWakeup(s) && Enabled(s, Call(signalled))
    ensures NoLostWakeup(Apply(s, Call(signalled)))
  {
    WakeSets(s.workers, signalled);
    if ParkedSet(s) != {} {
      var i :| i in signalled;
      SubsetIsSmaller({i}, signalled);
    }
  }

  lemma WakeSets(workers: seq<Worker>, signalled: set<nat>)
    requires signalled <= ParkedIn(workers)
    requires forall i | 0 <= i < |workers| && workers[i].place.Parked? :: !workers[i].interrupted
    ensures ParkedIn(Wake(workers, signalled)) == ParkedIn(workers) - signalled
    ensures AlertIn(Wake(workers, signalled)) == AlertIn(workers) + signalled && AlertIn(workers) !! signalled
  {
  }

  lemma MoveSets(workers: seq<Worker>, i: nat, place: Place)
    requires i < |workers| && !place.Woken?
    ensures var r := workers[i := workers[i].(place := place)];
            && AlertIn(r) == AlertIn(workers) - {i}
            && ParkedIn(r) == if place.Parked? then ParkedIn(workers) + {i} else ParkedIn(workers) - {i}
  {
  }

  lemma CheckKeepsWakeups(s: Pool, i: nat)
    requires NoLostWakeup(s) && Enabled(s, Check(i))
    ensures NoLostWakeup(Apply(s, Check(i)))
  {
    MoveSets(s.workers, i, Apply(s, Check(i)).workers[i].place);
  }

  lemma WorkKeepsWakeups(s: Pool, i: nat, t: Pool)
    requires NoLostWakeup(s) && i < |s.workers| && s.workers[i].place.Holding?
    requires t.queue == s.queue && t.shutdown == s.shutdown
    requires exists place: Place :: !place.Parked? && !place.Woken? && t.workers == Move(s, i, place).workers
    ensures NoLostWakeup(t)
  {
    assert ParkedSet(t) == ParkedSet(s) && AlertSet(t) == AlertSet(s);
  }

  lemma SpuriousKeepsWakeups(s: Pool, i: nat)
    requires NoLostWakeup(s) && Enabled(s, Spurious(i))
    ensures NoLostWakeup(Apply(s, Spurious(i)))
  {
    var t := Apply(s, Spurious(i));
    assert ParkedSet(t) <= ParkedSet(s);
    SubsetIsSmaller(AlertSet(s), AlertSet(t));
  }

  lemma StepKeepsWakeups(s: Pool, a: Action)
    requires NoLostWakeup(s)
    ensures NoLostWakeup(Next(s, a))
  {
    if Enabled(s, a) {
      var t := Apply(s, a);
      match a {
        case Call(signalled) => CallKeepsWakeups(s, signalled);
        case Check(i) => CheckKeepsWakeups(s, i);
        case Execute(i) => WorkKeepsWakeups(s, i, t);
        case Complete(i) => WorkKeepsWakeups(s, i, t);
        case Spurious(i) => SpuriousKeepsWakeups(s, i);
        case Interrupt(_) | Close => assert ParkedSet(t) == {};
        case Unblock(_) => assert ParkedSet(t) == ParkedSet(s) && AlertSet(t) == AlertSet(s);
      }
    }
  }

  lemma {:induction false} RunKeepsWakeups(workers: nat, actions: seq<Action>)
    ensures NoLostWakeup(Run(Initial(workers), actions))
  {
    if actions == [] {
      assert ParkedSet(Initial(workers)) == {};
    } else {
      var n := |actions| - 1;
      RunKeepsWakeups(workers, actions[..n]);
      StepKeepsWakeups(Run(Initial(workers), actions[..n]), actions[n]);
    }
  }

  // ----- What callers and `close` rely on -----

  ghost predicate Queued(s: Pool, w: nat) {
    w in s.queue
  }

  /** At all times every item is in exactly one of three places: queued, held by exactly one worker, completed. */
  lemma EveryItemHasOnePlace(workers: nat, actions: seq<Action>, w: nat)
    requires w < |Run(Initial(workers), actions).works|
    ensures var s := Run(Initial(workers), actions);
            && (Queued(s, w) || Held(s, w) || s.works[w].completed)
            && !(Queued(s, w) && Held(s, w)) && !(Queued(s, w) && s.works[w].completed)
            && !(Held(s, w) && s.works[w].completed)
            && (forall i: nat, j: nat | Holds(s, i, w) && Holds(s, j, w) :: i == j)
            && (forall k, l | 0 <= k < l < |s.queue| :: s.queue[k] != s.queue[l])
  {
    RunKeepsInv(workers, actions);
    var s := Run(Initial(workers), actions);
    if w >= |s.dequeued| {
      assert s.queue[w - |s.dequeued|] == w;
    }
  }

  /** Completed means executed exactly once; nothing is ever executed twice. */
  lemma ExecutedAtMostOnce(workers: nat, actions: seq<Action>, w: nat)
    requires w < |Run(Initial(workers), actions).works|
    ensures var s := Run(Initial(workers), actions);
            s.works[w].executions <= 1 && (s.works[w].completed ==> s.works[w].executions == 1)
  {
    RunKeepsInv(workers, actions);
    var s := Run(Initial(workers), actions);
    if w < |s.dequeued| && !s.works[w].completed {
      assert Held(s, w);
      var i: nat :| Holds(s, i, w);
    }
  }

  /** Once `call` has returned, its stack item is referred to by no worker and no queue link. */
  lemma ReturnedItemsAreUnreferenced(workers: nat, actions: seq<Action>, w: nat)
    requires w < |Run(Initial(workers), actions).works|
    requires Run(Initial(workers), actions).works[w].returned
    ensures var s := Run(Initial(workers), actions);
            s.works[w].completed && !Queued(s, w) && !Held(s, w)
  {
    RunKeepsInv(workers, actions);
    EveryItemHasOnePlace(workers, actions, w);
  }

  /** Whenever somebody sleeps on a non-empty queue, a woken worker's next look at the queue takes its front. */
  lemma SomeoneTakesTheNextItem(workers: nat, actions: seq<Action>) returns (i: nat)
    requires var s := Run(Initial(workers), actions); ParkedSet(s) != {} && s.queue != []
    ensures var s := Run(Initial(workers), actions);
            && Enabled(s, Check(i))
            && Holds(Next(s, Check(i)), i, s.queue[0]) && Next(s, Check(i)).queue == s.queue[1..]
  {
    RunKeepsWakeups(workers, actions);
    var s := Run(Initial(workers), actions);
    assert AlertSet(s) != {};
    i :| i in AlertSet(s);
    var sleeper :| sleeper in ParkedSet(s);
    assert s.workers[sleeper].place.Parked?;
  }

  /** How many more steps of its own a worker has to take after shutdown. */
  function Remaining(w: Worker): nat {
    match w.place
    case Exited => 0
    case Parked => 1
    case Ready => 1
    case Woken => 1
    case Holding(_, executed) => if executed then 2 else 3
  }

  function Own(s: Pool, i: nat): Action
    requires i < |s.workers|
  {
    match s.workers[i].place
    case Holding(_, executed) => if executed then Complete(i) else Execute(i)
    case _ => Check(i)
  }

  /** After shutdown nothing is dequeued or enqueued any more, no step delays a worker, and every worker that has
      not exited has a step of its own that brings it nearer to exiting: joining the threads terminates. */
  lemma ShutdownDrains(workers: nat, actions: seq<Action>, a: Action, i: nat)
    requires var s := Run(Initial(workers), actions); s.shutdown && i < |s.workers|
    ensures var s := Run(Initial(workers), actions);
            && Next(s, a).shutdown && Next(s, a).queue == s.queue && |Next(s, a).workers| == |s.workers|
            && Remaining(Next(s, a).workers[i]) <= Remaining(s.workers[i])
            && (Remaining(s.workers[i]) > 0 ==>
                  Enabled(s, Own(s, i)) && Remaining(Next(s, Own(s, i)).workers[i]) < Remaining(s.workers[i]))
  {
    RunKeepsInv(workers, actions);
    RunKeepsWakeups(workers, actions);
    var s := Run(Initial(workers), actions);
    if s.workers[i].place.Holding? {
      assert Holds(s, i, s.workers[i].place.work);
    }
  }

  /** `close` returns once every worker has exited; then every item is completed or was left in the queue. */
  lemma NothingHeldAfterClose(workers: nat, actions: seq<Action>, w: nat)
    requires var s := Run(Initial(workers), actions);
             w < |s.works| && forall i | 0 <= i < |s.workers| :: s.workers[i].place.Exited?
    ensures var s := Run(Initial(workers), actions);
            && !Held(s, w)
            && (s.works[w].completed <==> w < |s.dequeued|)
            && s.completedCount == |s.dequeued|
  {
    RunKeepsInv(workers, actions);
    var s := Run(Initial(workers), actions);
    forall k: nat | k < |s.dequeued| ensures !Held(s, k) && s.works[k].completed {}
    assert CompletedSet(s) == Below(|s.dequeued|);
  }

  function Below(n: nat): (r: set<nat>)
    ensures |r| == n && forall k: nat :: k in r <==> k < n
  {
    if n == 0 then {} else Below(n - 1) + {n - 1}
  }
}
