/** That the worker pool of module WorkerPool gets its work done: who leaves it, who goes on, and exactly when every
    item enqueued so far can still be completed. */
module WorkerProgress {
  import opened WorkerPool

  // ----- Who leaves -----

  /** A worker has left only because of shutdown or its own interruption. */
  ghost predicate LeftForCause(s: Pool) {
    forall i | 0 <= i < |s.workers| && s.workers[i].place.Exited? :: s.shutdown || s.workers[i].interrupted
  }

  ghost predicate Sound(s: Pool) {
    Inv(s) && NoLostWakeup(s) && LeftForCause(s)
  }

  lemma StepKeepsCause(s: Pool, a: Action)
    requires LeftForCause(s)
    ensures LeftForCause(Next(s, a))
  {
  }

  lemma {:induction false} RunKeepsCause(workers: nat, actions: seq<Action>)
    ensures LeftForCause(Run(Initial(workers), actions))
  {
    if actions == [] {
    } else {
      RunKeepsCause(workers, actions[..|actions| - 1]);
      StepKeepsCause(Run(Initial(workers), actions[..|actions| - 1]), actions[|actions| - 1]);
    }
  }

  lemma RunIsSound(workers: nat, actions: seq<Action>)
    ensures Sound(Run(Initial(workers), actions))
  {
    RunKeepsInv(workers, actions);
    RunKeepsWakeups(workers, actions);
    RunKeepsCause(workers, actions);
  }

  lemma StepIsSound(s: Pool, a: Action)
    requires Sound(s)
    ensures Sound(Next(s, a))
  {
    StepKeepsInv(s, a);
    StepKeepsWakeups(s, a);
    StepKeepsCause(s, a);
  }

  // ----- Who goes on -----

  /** Somebody may still take items: there is an uninterrupted worker, and no shutdown. */
  ghost predicate Serving(s: Pool) {
    !s.shutdown && exists i :: 0 <= i < |s.workers| && !s.workers[i].interrupted
  }

  /** The next step of worker `i` itself takes the front of the queue. */
  ghost predicate TakesFront(s: Pool, i: nat) {
    && i < |s.workers| && Enabled(s, Check(i)) && s.queue != []
    && var t := Next(s, Check(i));
       t.workers[i].place == Holding(s.queue[0], false) && s.queue == [s.queue[0]] + t.queue
  }

  /** Whenever something is queued and somebody may take it, whether anybody sleeps or not, there is a worker with an
      item in its hands and a step to make, or one whose next look at the queue takes the front. */
  lemma SomebodyGoesOn(workers: nat, actions: seq<Action>) returns (i: nat)
    requires var s := Run(Initial(workers), actions); Serving(s) && s.queue != []
    ensures var s := Run(Initial(workers), actions);
            && i < |s.workers| && Enabled(s, Own(s, i))
            && (s.workers[i].place.Holding? || TakesFront(s, i))
  {
    RunIsSound(workers, actions);
    i := GoesOn(Run(Initial(workers), actions));
  }

  lemma GoesOn(s: Pool) returns (i: nat)
    requires Sound(s) && Serving(s) && s.queue != []
    ensures i < |s.workers| && Enabled(s, Own(s, i))
    ensures s.workers[i].place.Holding? || TakesFront(s, i)
  {
    i :| 0 <= i < |s.workers| && !s.workers[i].interrupted;
    if s.workers[i].place.Parked? {
      assert i in ParkedSet(s);
      assert AlertSet(s) != {};
      i :| i in AlertSet(s);
    }
    if s.workers[i].place.Holding? { assert Holds(s, i, s.workers[i].place.work); }
  }

  // ----- How much is left to do -----

  function Sum(workers: seq<Worker>, weight: Worker -> nat): nat {
    if workers == [] then 0 else Sum(workers[..|workers| - 1], weight) + weight(workers[|workers| - 1])
  }

  lemma {:induction false} SumUpdated(workers: seq<Worker>, weight: Worker -> nat, i: nat, worker: Worker)
    requires i < |workers|
    ensures Sum(workers[i := worker], weight) + weight(workers[i]) == Sum(workers, weight) + weight(worker)
  {
    var n := |workers| - 1;
    var changed := workers[i := worker];
    if i == n {
      assert changed[..n] == workers[..n];
    } else {
      SumUpdated(workers[..n], weight, i, worker);
      assert changed[..n] == workers[..n][i := worker];
    }
  }

  lemma {:induction false} SumIsPositive(workers: seq<Worker>, weight: Worker -> nat) returns (i: nat)
    requires Sum(workers, weight) > 0
    ensures i < |workers| && weight(workers[i]) > 0
  {
    if weight(workers[|workers| - 1]) > 0 {
      i := |workers| - 1;
    } else {
      i := SumIsPositive(workers[..|workers| - 1], weight);
    }
  }

  lemma {:induction false} SumIsZero(workers: seq<Worker>, weight: Worker -> nat, i: nat)
    requires Sum(workers, weight) == 0 && i < |workers|
    ensures weight(workers[i]) == 0
  {
    if i == |workers| - 1 {
    } else {
      SumIsZero(workers[..|workers| - 1], weight, i);
    }
  }

  /** The steps a worker needs for the item in its hands. */
  function Load(w: Worker): nat {
    match w.place
    case Holding(_, executed) => if executed then 1 else 2
    case _ => 0
  }

  function Outstanding(s: Pool): nat {
    3 * |s.queue| + Sum(s.workers, Load)
  }

  lemma {:induction false} RunFrom(s: Pool, a: Action, rest: seq<Action>)
    ensures Run(s, [a] + rest) == Run(Next(s, a), rest)
    decreases |rest|
  {
    if rest == [] {
      assert [a] + rest == [a] && [a][..0] == [];
    } else {
      var n := |rest| - 1;
      RunFrom(s, a, rest[..n]);
      assert ([a] + rest)[..n + 1] == [a] + rest[..n];
    }
  }

  /** A worker's own step that carries on with an item, or takes one. */
  lemma OwnStepProgresses(s: Pool, i: nat)
    requires Sound(s) && i < |s.workers| && (s.workers[i].place.Holding? || TakesFront(s, i))
    ensures var t := Next(s, Own(s, i));
            && Outstanding(t) < Outstanding(s) && |t.works| == |s.works|
            && (Serving(s) ==> Serving(t)) && (s.queue == [] ==> t.queue == [])
  {
    var t := Next(s, Own(s, i));
    if s.workers[i].place.Holding? { assert Holds(s, i, s.workers[i].place.work); }
    SumUpdated(s.workers, Load, i, t.workers[i]);
    assert t.workers == s.workers[i := t.workers[i]];
    if Serving(s) {
      var j :| 0 <= j < |s.workers| && !s.workers[j].interrupted;
      assert !t.workers[j].interrupted;
    }
  }

  ghost predicate Done(s: Pool, n: nat) {
    n <= |s.works| && forall w | 0 <= w < n :: s.works[w].completed
  }

  lemma NothingLeft(s: Pool)
    requires Sound(s) && Outstanding(s) == 0
    ensures Done(s, |s.works|)
  {
    forall w | 0 <= w < |s.works| ensures s.works[w].completed {
      if Held(s, w) {
        var i: nat :| Holds(s, i, w);
        SumIsZero(s.workers, Load, i);
      }
    }
  }

  /** The calls that made the first `n` items have returned. */
  ghost predicate Returned(s: Pool, n: nat) {
    n <= |s.works| && forall w | 0 <= w < n :: s.works[w].returned
  }

  /** A fiber that is resumed returns from its call exactly if its item is completed. */
  lemma UnblockReturns(s: Pool, w: nat)
    requires Inv(s) && w < |s.works|
    ensures var t := Next(s, Unblock(w));
            && |t.works| == |s.works| && (t.works[w].returned <==> s.works[w].completed)
            && t.works[w].completed == s.works[w].completed
            && forall v | 0 <= v < |s.works| && v != w :: t.works[v] == s.works[v]
  {
  }

  lemma {:induction false} AllReturn(s: Pool, n: nat) returns (actions: seq<Action>)
    requires Sound(s) && n <= |s.works| && Done(s, |s.works|)
    ensures var t := Run(s, actions);
            Sound(t) && Done(t, |s.works|) && |t.works| == |s.works| && Returned(t, n)
  {
    if n == 0 {
      actions := [];
    } else {
      var first := AllReturn(s, n - 1);
      actions := first + [Unblock(n - 1)];
      assert actions[..|first|] == first;
      UnblockReturns(Run(s, first), n - 1);
      StepIsSound(Run(s, first), Unblock(n - 1));
    }
  }

  lemma {:induction false} RunThen(s: Pool, first: seq<Action>, second: seq<Action>)
    ensures Run(s, first + second) == Run(Run(s, first), second)
    decreases |second|
  {
    if second == [] {
      assert first + second == first;
    } else {
      var n := |second| - 1;
      RunThen(s, first, second[..n]);
      assert (first + second)[..|first| + n] == first + second[..n];
    }
  }

  /** A schedule of the workers' own steps that completes everything. */
  lemma {:induction false} Drains(s: Pool) returns (actions: seq<Action>)
    requires Sound(s) && (Serving(s) || s.queue == [])
    ensures Done(Run(s, actions), |s.works|) && |Run(s, actions).works| == |s.works|
    decreases Outstanding(s)
  {
    if Outstanding(s) == 0 {
      actions := [];
      NothingLeft(s);
    } else {
      var i: nat;
      if s.queue != [] { i := GoesOn(s); } else { i := SumIsPositive(s.workers, Load); }
      OwnStepProgresses(s, i);
      StepIsSound(s, Own(s, i));
      var rest := Drains(Next(s, Own(s, i)));
      actions := [Own(s, i)] + rest;
      RunFrom(s, Own(s, i), rest);
    }
  }

  /** When nobody may take items any more, nobody ever will. */
  lemma {:induction false} NobodyTakes(s: Pool, actions: seq<Action>)
    requires !Serving(s)
    ensures var t := Run(s, actions);
            !Serving(t) && t.dequeued == s.dequeued
  {
    if actions == [] {
    } else {
      NobodyTakes(s, actions[..|actions| - 1]);
      StaysIdle(Run(s, actions[..|actions| - 1]), actions[|actions| - 1]);
    }
  }

  lemma StaysIdle(s: Pool, a: Action)
    requires !Serving(s)
    ensures !Serving(Next(s, a)) && Next(s, a).dequeued == s.dequeued
  {
    var t := Next(s, a);
    if !s.shutdown {
      forall i | 0 <= i < |t.workers| ensures t.workers[i].interrupted {
        assert s.workers[i].interrupted;
      }
    }
  }

  lemma {:induction false} RunIsSoundFrom(s: Pool, actions: seq<Action>)
    requires Sound(s)
    ensures Sound(Run(s, actions))
  {
    if actions == [] {
    } else {
      RunIsSoundFrom(s, actions[..|actions| - 1]);
      StepIsSound(Run(s, actions[..|actions| - 1]), actions[|actions| - 1]);
    }
  }

  /** In some continuation every call made so far returns. */
  ghost predicate CanFinish(s: Pool) {
    exists actions :: Returned(Run(s, actions), |s.works|)
  }

  /** At any moment of any run, all calls made so far can still return exactly when nothing is queued, or the pool is
      not shut down and has a worker that was never interrupted. */
  lemma ServedExactly(workers: nat, before: seq<Action>)
    ensures var s := Run(Initial(workers), before);
            CanFinish(s) <==> s.queue == [] || Serving(s)
  {
    var s := Run(Initial(workers), before);
    RunIsSound(workers, before);
    if s.queue == [] || Serving(s) {
      Finishes(s);
    } else {
      forall actions ensures !Returned(Run(s, actions), |s.works|) { FrontStays(s, actions); }
    }
  }

  lemma Finishes(s: Pool)
    requires Sound(s) && (Serving(s) || s.queue == [])
    ensures CanFinish(s)
  {
    var first := Drains(s);
    RunIsSoundFrom(s, first);
    var second := AllReturn(Run(s, first), |s.works|);
    RunThen(s, first, second);
    assert Returned(Run(s, first + second), |s.works|);
  }

  lemma FrontStays(s: Pool, actions: seq<Action>)
    requires Sound(s) && !Serving(s) && s.queue != []
    ensures !Returned(Run(s, actions), |s.works|)
  {
    var t := Run(s, actions);
    NobodyTakes(s, actions);
    RunIsSoundFrom(s, actions);
    assert |t.dequeued| < |s.works|;
    assert |t.dequeued| < |t.works| ==> !t.works[|t.dequeued|].completed;
  }

  /** A worker that wakes without a reason changes nothing by it: at its next look it takes the front of the queue, or
      it waits again as before. */
  lemma SpuriousIsHarmless(workers: nat, before: seq<Action>, i: nat)
    requires Enabled(Run(Initial(workers), before), Spurious(i))
    ensures var s := Run(Initial(workers), before);
            var t := Next(s, Spurious(i));
            Enabled(t, Check(i)) && (if s.queue == [] then Next(t, Check(i)) == s else TakesFront(t, i))
  {
    RunKeepsWakeups(workers, before);
    var s := Run(Initial(workers), before);
    var t := Next(s, Spurious(i));
    if s.queue == [] {
      assert s.workers[i].place == Parked;
      assert Next(t, Check(i)).workers == s.workers;
    }
  }

  /** Interrupting a worker at any moment of any run lets it leave, after what it has in its hands, by at most three
      steps of its own; it takes nothing more. */
  lemma InterruptedLeaves(workers: nat, before: seq<Action>, i: nat) returns (actions: seq<Action>)
    requires i < |Run(Initial(workers), before).workers|
    ensures |actions| <= 3
    ensures var s := Run(Initial(workers), before);
            var t := Run(Next(s, Interrupt(i)), actions);
            && |t.workers| == |s.workers| && t.workers[i].place.Exited? && t.queue == s.queue
            && t.shutdown == s.shutdown
  {
    RunIsSound(workers, before);
    var s := Run(Initial(workers), before);
    StepIsSound(s, Interrupt(i));
    actions := Leaves(Next(s, Interrupt(i)), i);
  }

  lemma {:induction false} Leaves(s: Pool, i: nat) returns (actions: seq<Action>)
    requires Sound(s) && i < |s.workers| && s.workers[i].interrupted
    ensures |actions| == Remaining(s.workers[i]) <= 3
    ensures var t := Run(s, actions);
            && |t.workers| == |s.workers| && t.workers[i].place.Exited? && t.queue == s.queue
            && t.shutdown == s.shutdown
    decreases Remaining(s.workers[i])
  {
    if s.workers[i].place.Exited? {
      actions := [];
    } else {
      var a := Own(s, i);
      if s.workers[i].place.Holding? { assert Holds(s, i, s.workers[i].place.work); }
      StepIsSound(s, a);
      var rest := Leaves(Next(s, a), i);
      actions := [a] + rest;
      RunFrom(s, a, rest);
    }
  }

  // ----- Closing -----

  ghost predicate AllGone(s: Pool) {
    forall i | 0 <= i < |s.workers| :: s.workers[i].place.Exited?
  }

  /** Closing the pool at any moment of any run lets every worker leave, each by steps of its own, with what it has in
      its hands completed and the queue as it was. */
  lemma CloseReturns(workers: nat, before: seq<Action>) returns (actions: seq<Action>)
    requires !Run(Initial(workers), before).shutdown
    ensures var s := Run(Initial(workers), before);
            var t := Run(Next(s, Close), actions);
            AllGone(t) && t.shutdown && t.queue == s.queue && |t.workers| == |s.workers|
  {
    RunIsSound(workers, before);
    var s := Run(Initial(workers), before);
    StepIsSound(s, Close);
    actions := AllLeave(Next(s, Close));
  }

  lemma {:induction false} AllLeave(s: Pool) returns (actions: seq<Action>)
    requires Sound(s) && s.shutdown
    ensures var t := Run(s, actions);
            AllGone(t) && t.shutdown && t.queue == s.queue && |t.workers| == |s.workers|
    decreases Sum(s.workers, Remaining)
  {
    if Sum(s.workers, Remaining) == 0 {
      actions := [];
      forall i | 0 <= i < |s.workers| ensures s.workers[i].place.Exited? { SumIsZero(s.workers, Remaining, i); }
    } else {
      var i := SumIsPositive(s.workers, Remaining);
      OwnStepLeaves(s, i);
      StepIsSound(s, Own(s, i));
      var rest := AllLeave(Next(s, Own(s, i)));
      actions := [Own(s, i)] + rest;
      RunFrom(s, Own(s, i), rest);
    }
  }

  lemma OwnStepLeaves(s: Pool, i: nat)
    requires Sound(s) && s.shutdown && i < |s.workers| && Remaining(s.workers[i]) > 0
    ensures var t := Next(s, Own(s, i));
            && t.shutdown && t.queue == s.queue && |t.workers| == |s.workers|
            && Sum(t.workers, Remaining) < Sum(s.workers, Remaining)
  {
    var t := Next(s, Own(s, i));
    if s.workers[i].place.Holding? { assert Holds(s, i, s.workers[i].place.work); }
    SumUpdated(s.workers, Remaining, i, t.workers[i]);
    assert t.workers == s.workers[i := t.workers[i]];
  }
}
