/** That a timer is kept, as it was scheduled, until it is called or cancelled: what module TimerReference promises of
    timers pending and deferred alike, and of those that blocks schedule. */
module TimerConservation {
  import opened Collections
  import opened TimerReference

  /** The timers that have not been called or cancelled. */
  function Live(a: TimerSet): map<nat, Timer> {
    a.pending + a.deferred
  }

  /** A flush loses no timer and changes none: all of them are pending afterwards. */
  lemma FlushKeepsAll(a: TimerSet)
    requires WellNumbered(a)
    ensures var f := Flushed(a);
            && Live(f) == Live(a) == f.pending && f.deferred == map[] && f.created == a.created
            && (forall id | id in a.pending :: f.pending[id] == a.pending[id])
            && (forall id | id in a.deferred :: f.pending[id] == a.deferred[id])
  {
  }

  /** A block that asks for the size or the wait interval flushes too. */
  lemma AskingFlushes(a: TimerSet, action: Action)
    requires WellNumbered(a) && (action.Size? || action.WaitInterval?)
    ensures Act(a, action).pending == Live(a) && Act(a, action).deferred == map[]
  {
    FlushKeepsAll(a);
  }

  /** From `a` to `r` exactly the timers `gone` were lost, nobody else changed, and whoever is new has a new number. */
  ghost predicate Keeps(a: TimerSet, gone: set<nat>, r: TimerSet) {
    && WellNumbered(r)
    && a.created <= r.created
    && (forall id | id in Live(a) :: id in Live(r) <==> id !in gone)
    && (forall id | id in Live(a) && id in Live(r) :: Live(r)[id] == Live(a)[id])
    && (forall id | id in Live(r) :: id in Live(a) || a.created <= id < r.created)
  }

  lemma KeepsThen(a: TimerSet, first: set<nat>, m: TimerSet, second: set<nat>, r: TimerSet)
    requires WellNumbered(a) && Keeps(a, first, m) && Keeps(m, second, r)
    ensures Keeps(a, first + second, r)
  {
    forall id | id in Live(a) ensures id in Live(r) <==> id !in first + second {
      if id !in Live(m) {
        assert id < a.created <= m.created;
      }
    }
  }

  lemma ActKeepsTimers(a: TimerSet, action: Action)
    requires WellNumbered(a)
    ensures Keeps(a, if action.Cancel? then {action.id} else {}, Act(a, action))
  {
    ActFollows(a, action);
  }

  lemma {:induction false} RunKeepsTimers(a: TimerSet, block: Block)
    requires WellNumbered(a)
    ensures Keeps(a, Cancels(block), Run(a, block))
  {
    if block == [] {
    } else {
      var first, last := block[..|block| - 1], block[|block| - 1];
      var step := if last.Cancel? then {last.id} else {};
      RunKeepsTimers(a, first);
      ActKeepsTimers(Run(a, first), last);
      KeepsThen(a, Cancels(first), Run(a, first), step, Run(a, block));
      assert block == first + [last];
      assert Cancels(block) == Cancels(first) + step;
    }
  }

  lemma FiredKeepsTimers(a: TimerSet, id: nat)
    requires WellNumbered(a) && id in a.pending
    ensures Keeps(a, {id} + Cancels(a.pending[id].block), Fired(a, id))
  {
    var c := a.(pending := a.pending - {id});
    RunKeepsTimers(c, a.pending[id].block);
    KeepsThen(a, {id}, c, Cancels(a.pending[id].block), Fired(a, id));
  }

  /** During a fire exactly the called timers and those that called blocks cancelled are lost, whether they were pending
      or deferred at its start; the others are as they were scheduled. */
  lemma {:induction false} FireKeepsTimers(a: TimerSet, now: real, fired: seq<nat>)
    requires WellNumbered(a) && FirePrefix(a, now, fired)
    ensures Keeps(a, SetOf(fired) + CancelledBy(a, fired), After(a, fired))
  {
    if fired == [] {
    } else {
      var first, id := fired[..|fired| - 1], fired[|fired| - 1];
      FireKeepsTimers(a, now, first);
      FiredKeepsTimers(After(a, first), id);
      var step := {id} + Cancels(After(a, first).pending[id].block);
      KeepsThen(a, SetOf(first) + CancelledBy(a, first), After(a, first), step, After(a, fired));
      assert fired == first + [id];
      assert SetOf(fired) + CancelledBy(a, fired) == SetOf(first) + CancelledBy(a, first) + step;
    }
  }

  // ----- What blocks schedule -----

  /** The timers that a block schedules, in order. */
  function Scheduled(block: Block): seq<Timer> {
    if block == [] then []
    else
      Scheduled(block[..|block| - 1]) +
      match block[|block| - 1]
      case Schedule(time, inner) => [Timer(time, inner)]
      case _ => []
  }

  /** The `k`-th of the timers `made`, which have the numbers from `first` on, is live in `r` unless cancelled. */
  ghost predicate IsMade(first: nat, made: seq<Timer>, k: nat, cancelled: set<nat>, r: TimerSet)
    requires k < |made|
  {
    && (first + k in Live(r) ==> Live(r)[first + k] == made[k])
    && (first + k !in cancelled ==> first + k in Live(r))
  }

  ghost predicate Made(first: nat, made: seq<Timer>, cancelled: set<nat>, r: TimerSet) {
    WellNumbered(r) && r.created == first + |made| && forall k: nat | k < |made| :: IsMade(first, made, k, cancelled, r)
  }

  lemma ActMakes(first: nat, made: seq<Timer>, cancelled: set<nat>, m: TimerSet, action: Action)
    requires Made(first, made, cancelled, m)
    ensures Made(first, made + (if action.Schedule? then [Timer(action.time, action.block)] else []),
                 cancelled + (if action.Cancel? then {action.id} else {}), Act(m, action))
  {
    var more := made + (if action.Schedule? then [Timer(action.time, action.block)] else []);
    var names := cancelled + (if action.Cancel? then {action.id} else {});
    var r := Act(m, action);
    ActKeepsTimers(m, action);
    forall k: nat | k < |more| ensures IsMade(first, more, k, names, r) {
      if k < |made| { assert IsMade(first, made, k, cancelled, m); }
    }
  }

  /** What a block schedules it schedules: each timer with its time and its block, under the next number. */
  lemma {:induction false} RunMakes(a: TimerSet, block: Block)
    requires WellNumbered(a)
    ensures Made(a.created, Scheduled(block), Cancels(block), Run(a, block))
  {
    if block == [] {
    } else {
      var first, last := block[..|block| - 1], block[|block| - 1];
      RunMakes(a, first);
      ActMakes(a.created, Scheduled(first), Cancels(first), Run(a, first), last);
      assert block == first + [last];
      assert Cancels(block) == Cancels(first) + if last.Cancel? then {last.id} else {};
      assert Scheduled(first) + [] == Scheduled(first);
    }
  }

  // ----- From scheduling to calling -----

  /** A timer that is scheduled is called by the next fire, if it is due by then, and else is pending after it as it was
      scheduled; in either case unless a called block cancels it. */
  lemma ScheduledIsCalled(a: TimerSet, time: real, block: Block, now: real, fired: seq<nat>, b: TimerSet)
    requires WellNumbered(a)
    requires FireRun(Flushed(Act(a, Schedule(time, block))), now, fired, b)
    ensures var start := Flushed(Act(a, Schedule(time, block)));
            && (time <= now ==> a.created in fired || a.created in CancelledBy(start, fired))
            && (now < time ==> a.created !in fired)
            && (now < time && a.created !in CancelledBy(start, fired) ==>
                  a.created in b.pending && b.pending[a.created] == Timer(time, block))
  {
    var s := Act(a, Schedule(time, block));
    var start := Flushed(s);
    FlushKeepsAll(s);
    assert start.pending[a.created] == Timer(time, block);
    FireCallsExactlyTheDue(start, now, fired, b);
    if a.created in fired {
      var k: nat :| k < |fired| && fired[k] == a.created;
    }
  }
}
