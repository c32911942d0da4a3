/** Cross-thread wakeup: the `blocked` flag, the ready check and the interrupt descriptor, as a protocol between the
    loop and other threads. One step is one region under Ruby's global lock, or one kernel step. */
module Wakeup {

  /** The interrupt descriptor, as the loop's kernel object sees it: a level-triggered counter that holds up to
      `capacity` signals and of which one handling reads up to `batch`; or a counter consumed whole by an asynchronous
      read whose completion waits in the ring (uring.c). An eventfd is read at once, so its batch is its capacity; a
      pipe is read by 128 (interrupt.c) or by single bytes (interrupt.rb). */
  datatype Interrupt =
    | Level(counter: nat, batch: nat, capacity: nat)
    | Ring(counter: nat, registered: bool, reading: bool, completed: bool)

  /** The loop either runs, or has seen an empty ready queue but not yet set the flag (only the pure Ruby selector
      releases the lock there), or waits in the kernel, or is back from the kernel and waits for the lock. */
  datatype Place = Running | Checked | Waiting | Returning

  datatype System = System(
    atomic: bool,           // the ready check and the flag are one region (selector.c); false for select.rb
    place: Place,
    blocked: bool,
    ready: nat,             // length of the ready queue
    pushed: seq<bool>,      // thread `t` is between its `push` and its `wakeup`
    interrupt: Interrupt)

  datatype Action =
    | Push(thread: nat)
    | Wakeup(thread: nat)
    | LoopPush              // a fiber of the loop's own thread becomes ready
    | Flush(left: nat)      // ready_flush; fibers it resumes may leave entries behind
    | Handle                // the interrupt event or completion is handled
    | Check                 // the ready check; atomically with setting the flag when `atomic`
    | SetBlocked
    | Kernel                // the asynchronous read completes
    | Return                // the wait returns: for the interrupt, a timeout, or another event
    | Resume                // the loop has the lock back and clears the flag

  function Initial(atomic: bool, threads: nat, interrupt: Interrupt): System {
    System(atomic, Running, false, 0, seq(threads, _ => false), interrupt)
  }

  predicate Enabled(s: System, a: Action) {
    match a
    case Push(t) => t < |s.pushed| && !s.pushed[t]
    case Wakeup(t) => t < |s.pushed| && s.pushed[t]
    case LoopPush => s.place.Running?
    case Flush(left) => s.place.Running?
    case Handle => s.place.Running?
    case Check => s.place.Running? && s.ready == 0
    case SetBlocked => s.place.Checked?
    case Kernel => s.interrupt.Ring? && s.interrupt.reading && s.interrupt.counter > 0
    case Return => s.place.Waiting?
    case Resume => s.place.Returning?
  }

  /** What does not fit is dropped. */
  function Signal(k: Interrupt): Interrupt {
    if k.Level? && k.counter >= k.capacity then k else k.(counter := k.counter + 1)
  }

  /** Before waiting, uring.c submits the read unless one is registered. */
  function Arm(k: Interrupt): Interrupt {
    if k.Ring? && !k.registered then k.(registered := true, reading := true) else k
  }

  function Handled(k: Interrupt): Interrupt {
    match k
    case Level(counter, batch, capacity) => Level(if counter > batch then counter - batch else 0, batch, capacity)
    case Ring(_, _, _, completed) => if completed then k.(registered := false, completed := false) else k
  }

  function Apply(s: System, a: Action): System
    requires Enabled(s, a)
  {
    match a
    case Push(t) => s.(ready := s.ready + 1, pushed := s.pushed[t := true])
    case Wakeup(t) =>
      var k := if s.blocked then Signal(s.interrupt) else s.interrupt;
      s.(pushed := s.pushed[t := false], interrupt := k)
    case LoopPush => s.(ready := s.ready + 1)
    case Flush(left) => s.(ready := left)
    case Handle => s.(interrupt := Handled(s.interrupt))
    case Check =>
      if s.atomic then s.(place := Waiting, blocked := true, interrupt := Arm(s.interrupt))
      else s.(place := Checked)
    case SetBlocked => s.(place := Waiting, blocked := true, interrupt := Arm(s.interrupt))
    case Kernel => s.(interrupt := s.interrupt.(counter := 0, reading := false, completed := true))
    case Return => s.(place := Returning)
    case Resume => s.(place := Running, blocked := false)
  }

  function Next(s: System, a: Action): System {
    if Enabled(s, a) then Apply(s, a) else s
  }

  function Run(s: System, actions: seq<Action>): System {
    if actions == [] then s else Next(Run(s, actions[..|actions| - 1]), actions[|actions| - 1])
  }

  predicate Fresh(k: Interrupt) {
    match k
    case Level(counter, batch, capacity) => counter == 0 && batch > 0 && capacity > 0
    case Ring(counter, registered, reading, completed) => counter == 0 && !registered && !reading && !completed
  }

  /** The interrupt makes the kernel wait return. */
  predicate Signalled(k: Interrupt) {
    match k
    case Level(counter, _, _) => counter > 0
    case Ring(counter, _, reading, completed) => completed || (reading && counter > 0)
  }

  predicate Delivering(s: System) {
    exists t :: 0 <= t < |s.pushed| && s.pushed[t]
  }

  /** At most one read is outstanding and `wakeup_registered` tells whether there is one; while the loop is
      blocked there is one, and a non-empty ready queue has a thread about to signal or a signal pending. */
  ghost predicate Inv(s: System) {
    && (s.blocked <==> s.place.Waiting? || s.place.Returning?)
    && (s.atomic ==> !s.place.Checked?)
    && (s.interrupt.Level? ==>
          0 < s.interrupt.batch && 0 < s.interrupt.capacity && s.interrupt.counter <= s.interrupt.capacity)
    && (s.interrupt.Ring? ==>
          && (s.interrupt.registered <==> s.interrupt.reading || s.interrupt.completed)
          && !(s.interrupt.reading && s.interrupt.completed)
          && (s.blocked ==> s.interrupt.registered))
  }

  ghost predicate NoLostWakeup(s: System) {
    s.blocked && s.ready > 0 && !Delivering(s) ==> Signalled(s.interrupt)
  }

  lemma StepKeepsInv(s: System, a: Action)
    requires Inv(s)
    ensures Inv(Next(s, a))
  {
  }

  /** With the ready check and the flag in one region, or with no wakeup falling in between, no step loses one. */
  lemma StepKeepsWakeups(s: System, a: Action)
    requires Inv(s) && NoLostWakeup(s)
    requires s.place.Checked? ==> !a.Wakeup? && (s.ready > 0 ==> Delivering(s))
    ensures NoLostWakeup(Next(s, a))
    ensures Next(s, a).place.Checked? && Next(s, a).ready > 0 ==> Delivering(Next(s, a))
  {
    var n := Next(s, a);
    if Enabled(s, a) {
      match a {
        case Push(t) => assert n.pushed[t];
        case Wakeup(t) =>
        case _ => assert Delivering(n) <==> Delivering(s);
      }
    }
  }

  /** In the native selectors every run keeps the promise: if the loop is blocked while fibers are ready and nobody
      is about to signal, then the interrupt is signalled. */
  lemma {:induction false} NativeSelectorsLoseNoWakeup(threads: nat, interrupt: Interrupt, actions: seq<Action>)
    requires Fresh(interrupt)
    ensures var s := Run(Initial(true, threads, interrupt), actions);
            Inv(s) && NoLostWakeup(s) && s.atomic
  {
    if actions == [] {
    } else {
      var n := |actions| - 1;
      NativeSelectorsLoseNoWakeup(threads, interrupt, actions[..n]);
      var s := Run(Initial(true, threads, interrupt), actions[..n]);
      StepKeepsInv(s, actions[n]);
      StepKeepsWakeups(s, actions[n]);
    }
  }

  /** From such a state the kernel and the loop alone reach a point where the loop runs, the entries are still
      queued, and it cannot wait again before flushing them. */
  lemma BlockedLoopComesBack(threads: nat, interrupt: Interrupt, actions: seq<Action>)
    returns (more: seq<Action>)
    requires Fresh(interrupt)
    requires var s := Run(Initial(true, threads, interrupt), actions); s.blocked && s.ready > 0 && !Delivering(s)
    ensures |more| <= 3 && forall k | 0 <= k < |more| :: more[k] in {Kernel, Return, Resume}
    ensures var s := Run(Initial(true, threads, interrupt), actions);
            && (s.place.Waiting? ==>
                  |more| >= 2 && more[|more| - 2] == Return && Signalled(Run(s, more[..|more| - 2]).interrupt))
            && Run(s, more).place.Running? && Run(s, more).ready == s.ready
            && !Enabled(Run(s, more), Check)
  {
    NativeSelectorsLoseNoWakeup(threads, interrupt, actions);
    var s := Run(Initial(true, threads, interrupt), actions);
    if s.place.Returning? {
      more := [Resume];
      assert Run(s, [Resume][..0]) == s;
    } else if s.interrupt.Ring? && !s.interrupt.completed {
      more := [Kernel, Return, Resume];
      assert more[..2] == [Kernel, Return] && more[..2][..1] == [Kernel];
      assert more[..1] == [Kernel] && more[..1][..0] == [];
      assert Run(s, [Kernel]) == Next(s, Kernel);
      assert Run(s, more[..2]) == Next(Next(s, Kernel), Return);
    } else {
      more := [Return, Resume];
      assert more[..1] == [Return] && more[..1][..0] == [] && more[..0] == [];
      assert Run(s, more[..1]) == Next(s, Return);
    }
  }

  /** Signals are sent only to a blocked loop. */
  lemma NoSignalWhileRunning(s: System, a: Action)
    requires Inv(s) && !s.blocked
    ensures Next(s, a).interrupt.counter <= s.interrupt.counter
  {
  }

  /** One handling takes everything: always for an eventfd, whose batch is its capacity. */
  predicate EmptiedAtOnce(k: Interrupt) {
    match k
    case Level(counter, batch, _) => counter <= batch
    case Ring(_, _, reading, _) => !reading
  }

  lemma EventfdIsEmptiedAtOnce(s: System)
    requires Inv(s) && s.interrupt.Level? && s.interrupt.capacity <= s.interrupt.batch
    ensures EmptiedAtOnce(s.interrupt)
  {
  }

  /** How often an interrupt must still be handled: once for every batch of the counter, or for a read that is
      outstanding or has completed. */
  function Stale(k: Interrupt): nat {
    match k
    case Level(counter, batch, _) => Batches(counter, batch)
    case Ring(_, _, reading, completed) => if reading || completed then 1 else 0
  }

  function Batches(counter: nat, batch: nat): nat {
    if counter == 0 then 0 else if counter <= batch || batch == 0 then 1 else 1 + Batches(counter - batch, batch)
  }

  /** Step `a` finds something to handle. */
  predicate Finds(s: System, a: Action) {
    a.Handle? && Enabled(s, Handle) && Handled(s.interrupt) != s.interrupt
  }

  /** How often the loop finds something to handle. */
  function Found(s: System, actions: seq<Action>): nat {
    if actions == [] then 0
    else
      var n := |actions| - 1;
      Found(s, actions[..n]) + if Finds(Run(s, actions[..n]), actions[n]) then 1 else 0
  }

  lemma StepFinds(s: System, a: Action)
    requires Inv(s) && s.place.Running? && !a.Check?
    ensures Inv(Next(s, a)) && Next(s, a).place.Running?
    ensures (if Finds(s, a) then 1 else 0) + Stale(Next(s, a).interrupt) == Stale(s.interrupt)
  {
    StepKeepsInv(s, a);
  }

  /** Stale signals cost one early return for each batch and no more: until the loop blocks again, what it has found
      to handle and what is left to be found are what was left at the start, whatever anybody pushes. */
  lemma {:induction false} StaleSignalsAreFoundOnce(s: System, actions: seq<Action>)
    requires Inv(s) && s.place.Running?
    requires forall k | 0 <= k < |actions| :: !actions[k].Check?
    ensures var t := Run(s, actions);
            Inv(t) && t.place.Running? && Found(s, actions) + Stale(t.interrupt) == Stale(s.interrupt)
  {
    if actions == [] {
    } else {
      var n := |actions| - 1;
      StaleSignalsAreFoundOnce(s, actions[..n]);
      StepFinds(Run(s, actions[..n]), actions[n]);
    }
  }

  /** A ring and an eventfd bring at most one. */
  lemma OneStaleSignalAtMost(s: System)
    requires Inv(s) && (s.interrupt.Level? ==> s.interrupt.capacity <= s.interrupt.batch)
    ensures Stale(s.interrupt) <= 1
  {
  }

  /** Once the loop has handled the interrupt, it stays unsignalled until the loop blocks again, whatever anybody
      pushes, if that one handling took everything. */
  lemma {:induction false} HandledUntilBlockedAgain(s: System, actions: seq<Action>)
    requires Inv(s) && s.place.Running? && EmptiedAtOnce(s.interrupt)
    requires forall k | 0 <= k < |actions| :: !actions[k].Check?
    ensures var t := Run(Next(s, Handle), actions);
            Inv(t) && t.place.Running? && !Signalled(t.interrupt) && (t.interrupt.Ring? ==> !t.interrupt.reading)
  {
    StepKeepsInv(s, Handle);
    if actions == [] {
    } else {
      var n := |actions| - 1;
      HandledUntilBlockedAgain(s, actions[..n]);
      StepFinds(Run(Next(s, Handle), actions[..n]), actions[n]);
    }
  }

  /** Otherwise the counter, or the outstanding read, is still there after it. */
  lemma HandledInPart(s: System)
    requires Inv(s) && s.place.Running?
    ensures Stale(Next(s, Handle).interrupt) > 0 <==> !EmptiedAtOnce(s.interrupt)
  {
  }

  // ----- One wakeup, one return -----

  /** Nothing is left that would make the next wait return. */
  predicate Spent(k: Interrupt) {
    match k
    case Level(counter, _, _) => counter == 0
    case Ring(counter, _, _, completed) => counter == 0 && !completed
  }

  /** The loop blocks exactly when nobody is ready, and then the wait returns at once exactly if something is left. */
  lemma LoopBlocks(s: System)
    requires Inv(s) && s.place.Running?
    ensures Enabled(s, Check) <==> s.ready == 0
    ensures s.ready == 0 ==>
              var checked := Next(s, Check);
              var t := if s.atomic then checked else Next(checked, SetBlocked);
              t.place.Waiting? && t.blocked && t.ready == 0 && (Signalled(t.interrupt) <==> !Spent(s.interrupt))
  {
  }

  /** Whoever makes a fiber ready while the loop runs, on its own thread or another, keeps it from blocking. */
  lemma ReadyKeepsRunning(s: System, a: Action)
    requires s.place.Running? && (a.LoopPush? || a.Push?) && Enabled(s, a)
    ensures Next(s, a).ready == s.ready + 1 && Next(s, a).place.Running? && !Enabled(Next(s, a), Check)
  {
  }

  /** As long as no thread calls `wakeup`, nothing makes a wait return, however often the loop goes round. */
  lemma {:induction false} SpentStaysSpent(s: System, actions: seq<Action>)
    requires Inv(s) && Spent(s.interrupt) && forall k | 0 <= k < |actions| :: !actions[k].Wakeup?
    ensures var t := Run(s, actions); Inv(t) && Spent(t.interrupt) && !Signalled(t.interrupt)
  {
    if actions == [] {
    } else {
      var n := |actions| - 1;
      SpentStaysSpent(s, actions[..n]);
      StepKeepsInv(Run(s, actions[..n]), actions[n]);
    }
  }

  /** A handling leaves nothing exactly if it takes the whole counter, or if no signal came after the read was done. */
  lemma HandlingSpends(s: System)
    requires Inv(s) && s.place.Running?
    ensures Spent(Next(s, Handle).interrupt) <==>
            match s.interrupt
            case Level(counter, batch, _) => counter <= batch
            case Ring(counter, _, _, _) => counter == 0
  {
  }

  /** A thread that pushes a fiber and calls `wakeup` on an idle loop gets it out of its wait once: the loop runs with
      the fiber queued and the flag down, one handling takes the signal, and when the fiber has been resumed the loop
      blocks again and nothing makes it return. */
  lemma OneWakeupOneReturn(s: System, thread: nat)
    requires Inv(s) && s.place.Waiting? && s.ready == 0 && Spent(s.interrupt)
    requires thread < |s.pushed| && !s.pushed[thread]
    ensures var called := Next(Next(s, Push(thread)), Wakeup(thread));
            var found := if s.interrupt.Ring? then Next(called, Kernel) else called;
            var back := Next(Next(found, Return), Resume);
            var idle := Next(Next(back, Handle), Flush(0));
            var checked := Next(idle, Check);
            var again := if s.atomic then checked else Next(checked, SetBlocked);
            && called.ready == 1 && called.pushed == s.pushed && Signalled(called.interrupt)
            && back.place.Running? && !back.blocked && back.ready == 1 && !Enabled(back, Check)
            && Spent(Next(back, Handle).interrupt)
            && again.place.Waiting? && again.blocked && again.ready == 0 && !Signalled(again.interrupt)
  {
    assert s.pushed[thread := true][thread := false] == s.pushed;
  }

  // ----- The pure Ruby selector -----

  /** The pure Ruby selector after a run from its start, with a pipe that is read byte by byte. */
  function Ruby(threads: nat, capacity: nat, actions: seq<Action>): System {
    Run(Initial(false, threads, Level(0, 1, capacity)), actions)
  }

  /** The pure Ruby selector does lose a wakeup when one falls between its ready check and its flag. */
  lemma RubySelectCanLoseAWakeup(capacity: nat)
    ensures var s := Ruby(1, capacity, [Check, Push(0), Wakeup(0), SetBlocked]);
            s.place.Waiting? && s.blocked && s.ready == 1 && !Delivering(s) && !Signalled(s.interrupt)
  {
    var all := [Check, Push(0), Wakeup(0), SetBlocked];
    var i := Initial(false, 1, Level(0, 1, capacity));
    assert all[..3] == [Check, Push(0), Wakeup(0)] && all[..3][..2] == [Check, Push(0)];
    assert all[..3][..2][..1] == [Check] && all[..3][..2][..1][..0] == [];
    var s1 := Next(i, Check);
    var s2 := Next(s1, Push(0));
    var s3 := Next(s2, Wakeup(0));
    assert Run(i, [Check]) == s1;
    assert Run(i, [Check, Push(0)]) == s2;
    assert Run(i, all[..3]) == s3;
    assert Run(i, all) == Next(s3, SetBlocked);
  }

  /** It loses none in a run where no thread calls `wakeup` inside that window. */
  lemma {:induction false} RubySelectWindowIsTheOnlyGap(threads: nat, capacity: nat, actions: seq<Action>)
    requires capacity > 0
    requires forall k | 0 <= k < |actions| ::
               actions[k].Wakeup? ==> !Ruby(threads, capacity, actions[..k]).place.Checked?
    ensures var s := Ruby(threads, capacity, actions);
            Inv(s) && NoLostWakeup(s) && (s.place.Checked? && s.ready > 0 ==> Delivering(s))
  {
    if actions == [] {
    } else {
      var n := |actions| - 1;
      var first := actions[..n];
      forall k | 0 <= k < |first|
        ensures first[k].Wakeup? ==> !Ruby(threads, capacity, first[..k]).place.Checked?
      {
        assert first[..k] == actions[..k] && first[k] == actions[k];
      }
      RubySelectWindowIsTheOnlyGap(threads, capacity, first);
      var s := Ruby(threads, capacity, first);
      StepKeepsInv(s, actions[n]);
      StepKeepsWakeups(s, actions[n]);
    }
  }

  /** After `actions` the Ruby loop is between its check and its flag, and a thread pushed since the check. */
  ghost predicate PushedInWindow(threads: nat, capacity: nat, actions: seq<Action>) {
    exists k: nat :: k < |actions| && PushedAt(threads, capacity, actions, k)
  }

  /** Step `k` is a push, and the loop was between check and flag ever since. */
  ghost predicate PushedAt(threads: nat, capacity: nat, actions: seq<Action>, k: nat)
    requires k < |actions|
  {
    && actions[k].Push?
    && Enabled(Ruby(threads, capacity, actions[..k]), actions[k])
    && forall j: nat | k <= j <= |actions| :: Ruby(threads, capacity, actions[..j]).place.Checked?
  }

  lemma PushedBefore(threads: nat, capacity: nat, before: seq<Action>, a: Action, k: nat)
    requires k < |before| && Ruby(threads, capacity, before + [a]).place.Checked?
    ensures PushedAt(threads, capacity, before + [a], k) <==> PushedAt(threads, capacity, before, k)
  {
    var actions := before + [a];
    assert actions[..|actions|] == actions;
    assert forall j: nat | j <= |before| :: before[..j] == actions[..j];
    if PushedAt(threads, capacity, before, k) {
      forall j: nat | k <= j <= |actions| ensures Ruby(threads, capacity, actions[..j]).place.Checked? {
        assert j <= |before| ==> before[..j] == actions[..j];
      }
    }
    if PushedAt(threads, capacity, actions, k) {
      forall j: nat | k <= j <= |before| ensures Ruby(threads, capacity, before[..j]).place.Checked? {
        assert before[..j] == actions[..j];
      }
    }
  }

  lemma PushedLast(threads: nat, capacity: nat, before: seq<Action>, a: Action)
    requires Ruby(threads, capacity, before + [a]).place.Checked?
    ensures PushedAt(threads, capacity, before + [a], |before|) <==>
            a.Push? && Enabled(Ruby(threads, capacity, before), a) && Ruby(threads, capacity, before).place.Checked?
  {
    var actions := before + [a];
    assert actions[..|before|] == before && actions[..|actions|] == actions;
  }

  /** A run's last step either enters the window, or it was in the window before. */
  lemma LastStep(threads: nat, capacity: nat, before: seq<Action>, a: Action)
    requires Ruby(threads, capacity, before + [a]).place.Checked?
    ensures var s, t := Ruby(threads, capacity, before), Ruby(threads, capacity, before + [a]);
            if s.place.Checked? then t.ready == s.ready + (if a.Push? && Enabled(s, a) then 1 else 0)
            else a.Check? && t.ready == 0
  {
    assert (before + [a])[..|before|] == before;
  }

  /** The ready queue was empty at the check, so what it holds before the flag was pushed in between. */
  lemma {:induction false} WindowHoldsWhatWasPushed(threads: nat, capacity: nat, actions: seq<Action>)
    requires Ruby(threads, capacity, actions).place.Checked?
    ensures Ruby(threads, capacity, actions).ready > 0 <==> PushedInWindow(threads, capacity, actions)
  {
    var before, a := actions[..|actions| - 1], actions[|actions| - 1];
    assert actions == before + [a];
    LastStep(threads, capacity, before, a);
    PushedLast(threads, capacity, before, a);
    if Ruby(threads, capacity, before).place.Checked? {
      WindowHoldsWhatWasPushed(threads, capacity, before);
      StillPushed(threads, capacity, before, a);
    } else {
      forall k: nat | k < |actions| ensures !PushedAt(threads, capacity, actions, k) {
        assert actions[..|before|] == before && k <= |before|;
      }
    }
  }

  lemma StillPushed(threads: nat, capacity: nat, before: seq<Action>, a: Action)
    requires Ruby(threads, capacity, before + [a]).place.Checked?
    ensures PushedInWindow(threads, capacity, before + [a]) <==>
            PushedInWindow(threads, capacity, before) || PushedAt(threads, capacity, before + [a], |before|)
  {
    forall k: nat | k < |before|
      ensures PushedAt(threads, capacity, before + [a], k) <==> PushedAt(threads, capacity, before, k)
    {
      PushedBefore(threads, capacity, before, a, k);
    }
  }

  /** When the Ruby loop sets its flag, a wakeup is lost exactly if a thread pushed since the check, no thread is still
      to call `wakeup`, and no signal is pending. */
  lemma RubySelectLosesExactly(threads: nat, capacity: nat, actions: seq<Action>)
    requires Ruby(threads, capacity, actions).place.Checked?
    ensures var s := Ruby(threads, capacity, actions);
            && Enabled(s, SetBlocked)
            && (!NoLostWakeup(Next(s, SetBlocked)) <==>
                PushedInWindow(threads, capacity, actions) && !Delivering(s) && !Signalled(s.interrupt))
  {
    WindowHoldsWhatWasPushed(threads, capacity, actions);
    RubyStaysLevel(threads, capacity, actions);
    var s := Ruby(threads, capacity, actions);
    assert Delivering(Next(s, SetBlocked)) <==> Delivering(s);
  }

  lemma {:induction false} RubyStaysLevel(threads: nat, capacity: nat, actions: seq<Action>)
    ensures Ruby(threads, capacity, actions).interrupt.Level? && !Ruby(threads, capacity, actions).atomic
  {
    if actions == [] {
    } else {
      RubyStaysLevel(threads, capacity, actions[..|actions| - 1]);
    }
  }
}
