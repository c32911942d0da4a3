/** What the steps of module CompletionSlots bring about, told by where slots, requests and results are before and after
    them, and what every fiber can rely on over a whole run. */
module CompletionService {
  import opened Collections
  import opened CompletionSlots
  import opened Optional

  // ----- What each step changes -----

  /** A submission takes the first free slot if there are two, and a new one otherwise; slot and waiter point at each
      other, nothing else carries the slot, and the kernel holds one request more. */
  lemma SubmitStarts(s: Selector) returns (c: nat)
    requires Inv(s)
    ensures var t, w := Submitted(s), |s.waiters|;
            && t.waiters == s.waiters + [Some(c)]
            && t.kernel == s.kernel + [Operation(c, w, false)]
            && c < |t.slots| && t.slots[c] == Some(w)
            && (if |s.free| < 2 then c == |s.slots| && t.free == s.free && |t.slots| == |s.slots| + 1
                else s.free == [c] + t.free && |t.slots| == |s.slots|)
            && (forall d: nat | d < |s.slots| && d != c :: t.slots[d] == s.slots[d])
            && t.queue == s.queue && t.registered == s.registered && t.delivered == s.delivered
    ensures c < |s.slots| ==> s.slots[c] == None
    ensures forall r | r in s.kernel && r.Operation? :: r.slot != c
    ensures forall e | e in s.queue && e.request.Operation? :: e.request.slot != c
  {
    c := Acquire(s).1;
    NotInFlight(s, c);
  }

  /** The request of a fiber: the operation it submitted, or any other that is not `w`'s, unchanged. */
  function CancelledFor(r: Request, w: nat): Request {
    if r.Operation? && r.owner == w then Operation(r.slot, w, true) else r
  }

  /** The kernel got one cancel request, and marks the operations of `w` where they are and nothing else; or, if there
      is nothing to cancel, it sees nothing of it. */
  ghost predicate KernelCancels(before: seq<Request>, after: seq<Request>, w: nat, cancels: bool) {
    if cancels then
      && |after| == |before| + 1 && after[|before|] == CancelRequest
      && forall i: nat | i < |before| :: after[i] == CancelledFor(before[i], w)
    else
      after == before
  }

  /** Leaving a wait that is in progress, with `cancel`, submits one cancel request; the kernel marks the operations of
      that fiber where they are and nothing else. Otherwise the kernel sees nothing of it. Slot and waiter forget each
      other, and nothing else changes. */
  lemma LeaveCancels(s: Selector, w: nat, cancel: bool)
    requires Inv(s) && w < |s.waiters|
    ensures var t := Left(s, w, cancel);
            && KernelCancels(s.kernel, t.kernel, w, s.waiters[w].Some? && cancel)
            && t.waiters == s.waiters[w := None]
            && t.slots == (if s.waiters[w].Some? then s.slots[s.waiters[w].value := None] else s.slots)
            && t.free == s.free && t.queue == s.queue
            && t.registered == s.registered && t.delivered == s.delivered
  {
    assert s.waiters[w].None? ==> s.waiters[w := None] == s.waiters;
    if s.waiters[w].Some? && cancel {
      forall i: nat | i < |s.kernel| ensures Left(s, w, cancel).kernel[i] == CancelledFor(s.kernel[i], w) {
        MarkedAt(s.kernel, s.waiters[w].value, i);
        assert s.kernel[i] in s.kernel;
      }
    }
  }

  /** Processing takes the head of the queue. An operation gives its slot back, first in line, and its result goes to
      the fiber that submitted it, if that still waits; the interrupt read may then be submitted again. */
  lemma ProcessDelivers(s: Selector)
    requires Inv(s) && s.queue != []
    ensures var t, e := Processed(s), s.queue[0];
            && s.queue == [e] + t.queue && t.kernel == s.kernel
            && t.registered == (s.registered && !e.request.InterruptRead?)
            && match e.request
               case Operation(c, w, _) =>
                 && c < |s.slots| && w < |s.waiters|
                 && t.free == [c] + s.free && t.slots == s.slots[c := None] && t.waiters == s.waiters[w := None]
                 && t.delivered == s.delivered + if s.waiters[w].Some? then [Delivery(w, w, e.result)] else []
               case _ =>
                 t.free == s.free && t.slots == s.slots && t.waiters == s.waiters && t.delivered == s.delivered
  {
    HeadIsOwned(s.slots, s.waiters, s.queue);
    if s.queue[0].request.Operation? { OperationServed(s); } else { OtherServed(s); }
  }

  lemma HeadIsOwned(slots: seq<Option<nat>>, waiters: seq<Option<nat>>, queue: seq<Entry>)
    requires QueueOwned(slots, waiters, queue) && queue != []
    ensures Owned(slots, waiters, queue[0].request)
  {
    assert queue[0] in queue;
  }

  lemma OtherServed(s: Selector)
    requires s.queue != [] && !s.queue[0].request.Operation? && Links(s.slots, s.waiters)
    ensures Processed(s) == s.(queue := s.queue[1..], registered := s.registered && !s.queue[0].request.InterruptRead?)
  {
  }

  lemma OperationServed(s: Selector)
    requires s.queue != [] && s.queue[0].request.Operation?
    requires Links(s.slots, s.waiters) && Owned(s.slots, s.waiters, s.queue[0].request)
    ensures var t, e := Processed(s), s.queue[0];
            var c, w := e.request.slot, e.request.owner;
            && t.kernel == s.kernel && t.registered == s.registered
            && t.queue == s.queue[1..] && t.free == [c] + s.free
            && t.slots == s.slots[c := None] && t.waiters == s.waiters[w := None]
            && t.delivered == s.delivered + if s.waiters[w].Some? then [Delivery(w, w, e.result)] else []
  {
    var r := s.queue[0].request;
    if s.slots[r.slot].None? {
      assert s.waiters[r.owner].None?;
      assert s.slots[r.slot := None] == s.slots && s.waiters[r.owner := None] == s.waiters;
    }
  }

  /** Completing a request moves it, with its result, from the kernel to the end of the completion queue. */
  lemma FinishMoves(s: Selector, i: nat, result: int)
    requires Inv(s) && Enabled(s, Finish(i, result))
    ensures var t := Next(s, Finish(i, result));
            && t.kernel == s.kernel[..i] + s.kernel[i + 1..]
            && t.queue == s.queue + [Entry(s.kernel[i], result)]
            && t.slots == s.slots && t.free == s.free && t.waiters == s.waiters
            && t.registered == s.registered && t.delivered == s.delivered
  {
  }

  /** Before the loop blocks one interrupt read is outstanding: a new one unless there was one. */
  lemma BlockListens(s: Selector)
    requires Inv(s)
    ensures var t := Next(s, Block);
            && t.registered && t.kernel == s.kernel + (if s.registered then [] else [InterruptRead])
            && Reads(t.kernel) + Reads(Requests(t.queue)) == 1
            && t.slots == s.slots && t.free == s.free && t.waiters == s.waiters
            && t.queue == s.queue && t.delivered == s.delivered
  {
    BlockKeepsInv(s);
    assert s.registered ==> s.kernel + [] == s.kernel;
  }

  // ----- What a fiber can rely on -----

  ghost predicate Queued(queue: seq<Entry>, r: Request) {
    exists e :: e in queue && e.request == r
  }

  /** While `w` waits, its operation is with the kernel or completed in the queue, and nobody asked to cancel it; once
      it does not wait any more, it was given a result. */
  ghost predicate Promised(s: Selector, w: nat) {
    && w < |s.waiters|
    && match s.waiters[w]
       case Some(c) => Operation(c, w, false) in s.kernel || Queued(s.queue, Operation(c, w, false))
       case None => exists d :: d in s.delivered && d.waiter == w
  }

  lemma SubmitPromises(s: Selector)
    requires Inv(s)
    ensures Promised(Submitted(s), |s.waiters|)
    ensures forall w: nat | Promised(s, w) :: Promised(Submitted(s), w)
  {
    var c := SubmitStarts(s);
    var t := Submitted(s);
    assert t.kernel[|s.kernel|] == Operation(c, |s.waiters|, false);
    forall w: nat | Promised(s, w) ensures Promised(t, w) {
      assert forall r | r in s.kernel :: r in t.kernel;
      assert t.waiters[w] == s.waiters[w];
    }
  }

  lemma LeavePromises(s: Selector, v: nat, cancel: bool, w: nat)
    requires Inv(s) && v < |s.waiters| && Promised(s, w)
    requires v == w ==> s.waiters[w] == None
    ensures Promised(Left(s, v, cancel), w)
  {
    LeaveCancels(s, v, cancel);
    if s.waiters[w].Some? {
      var r, t := Operation(s.waiters[w].value, w, false), Left(s, v, cancel);
      if r in s.kernel {
        var i: nat :| i < |s.kernel| && s.kernel[i] == r;
        assert t.kernel[i] == r;
      }
    }
  }

  lemma FinishPromises(s: Selector, i: nat, result: int, w: nat)
    requires Inv(s) && Enabled(s, Finish(i, result)) && Promised(s, w)
    ensures Promised(Next(s, Finish(i, result)), w)
  {
    var t := Next(s, Finish(i, result));
    FinishMoves(s, i, result);
    if s.waiters[w].Some? {
      var r := Operation(s.waiters[w].value, w, false);
      if r in s.kernel {
        var k: nat :| k < |s.kernel| && s.kernel[k] == r;
        if k == i {
          assert t.queue[|s.queue|].request == r;
        } else {
          assert t.kernel[if k < i then k else k - 1] == r;
        }
      } else {
        var e :| e in s.queue && e.request == r;
        assert e in t.queue;
      }
    }
  }

  lemma ProcessPromises(s: Selector, w: nat)
    requires Inv(s) && s.queue != [] && Promised(s, w)
    ensures Promised(Processed(s), w)
  {
    ProcessDelivers(s);
    var e, t := s.queue[0], Processed(s);
    if s.waiters[w].Some? {
      var r := Operation(s.waiters[w].value, w, false);
      if e.request.Operation? && e.request.owner == w {
        assert t.delivered[|s.delivered|] == Delivery(w, w, e.result);
      } else if r !in s.kernel {
        var f :| f in s.queue && f.request == r;
        assert f in t.queue;
      }
    } else {
      var d :| d in s.delivered && d.waiter == w;
      assert d in t.delivered;
    }
  }

  /** No step breaks a promise except the fiber's own, when it leaves without waiting for the result. */
  lemma StepPromises(s: Selector, a: Action, w: nat)
    requires Inv(s) && Enabled(s, a) && Promised(s, w)
    requires a.Leave? && a.waiter == w ==> s.waiters[w] == None
    ensures Promised(Next(s, a), w)
  {
    match a
    case Submit => SubmitPromises(s);
    case Leave(v, cancel) => LeavePromises(s, v, cancel, w);
    case Finish(i, result) => FinishPromises(s, i, result, w);
    case Process => ProcessPromises(s, w);
    case Block =>
      BlockListens(s);
      assert forall r | r in s.kernel :: r in Next(s, Block).kernel;
  }

  // ----- Whole runs -----

  /** `a` makes `w` leave although its operation is in progress. */
  ghost predicate LeavesEarly(s: Selector, a: Action, w: nat) {
    a.Leave? && a.waiter == w && w < |s.waiters| && s.waiters[w].Some?
  }

  /** At some moment of the run `w` leaves although its operation is in progress. */
  ghost predicate LeftEarly(actions: seq<Action>, w: nat)
    decreases |actions|
  {
    && actions != []
    && var before, a := actions[..|actions| - 1], actions[|actions| - 1];
       LeftEarly(before, w) || LeavesEarly(FromStart(before), a, w)
  }

  /** What one who left early finds: it does not wait, and it was given nothing. */
  ghost predicate Forgotten(s: Selector, w: nat) {
    w < |s.waiters| && s.waiters[w] == None && forall d | d in s.delivered :: d.waiter != w
  }

  lemma LeavingForgets(s: Selector, a: Action, w: nat)
    requires Inv(s) && Enabled(s, a) && LeavesEarly(s, a, w)
    ensures Forgotten(Next(s, a), w)
  {
    LeaveCancels(s, w, a.cancel);
    assert forall d | d in s.delivered :: d.waiter != w;
  }

  lemma StaysForgotten(s: Selector, a: Action, w: nat)
    requires Inv(s) && Enabled(s, a) && Forgotten(s, w)
    ensures Forgotten(Next(s, a), w)
  {
    LeftAlone(s, a, w);
  }

  /** Waiters stay, and only a submission adds one. */
  lemma StepAddsWaiter(s: Selector, a: Action)
    requires Inv(s) && Enabled(s, a)
    ensures |Next(s, a).waiters| == |s.waiters| + if a.Submit? then 1 else 0
  {
    match a
    case Submit => var c := SubmitStarts(s);
    case Leave(v, cancel) => LeaveCancels(s, v, cancel);
    case Finish(i, result) => FinishMoves(s, i, result);
    case Process => ProcessDelivers(s);
    case Block => BlockListens(s);
  }

  /** `w` has submitted an operation by now, and if it did not leave early it has not been let down. */
  ghost predicate ServedUnlessLeft(actions: seq<Action>, w: nat) {
    var s := FromStart(actions);
    w < |s.waiters| ==> if LeftEarly(actions, w) then Forgotten(s, w) else Promised(s, w)
  }

  /** In every run, at every moment, each fiber that submitted an operation either left early and was given nothing, or
      its operation is in progress and uncancelled, or it was given the result. */
  lemma {:induction false} EveryFiberIsServedUnlessItLeft(actions: seq<Action>, w: nat)
    ensures ServedUnlessLeft(actions, w)
    decreases |actions|
  {
    if actions == [] {
    } else {
      var before, a := actions[..|actions| - 1], actions[|actions| - 1];
      assert actions == before + [a];
      EveryFiberIsServedUnlessItLeft(before, w);
      OneMoreServed(before, a, w);
    }
  }

  lemma OneMoreServed(before: seq<Action>, a: Action, w: nat)
    requires ServedUnlessLeft(before, w)
    ensures ServedUnlessLeft(before + [a], w)
  {
    var s, t := FromStart(before), FromStart(before + [a]);
    OneMore(before, a);
    LeftLast(before, a, w);
    RunKeepsInv(Initial(), before);
    assert t == if Enabled(s, a) then Next(s, a) else s;
    if w < |s.waiters| {
      if Enabled(s, a) { StepServes(s, a, w); }
    } else if w < |t.waiters| {
      NotLeftBefore(before, w);
      NewIsPromised(s, a, w);
    }
  }

  lemma LeftLast(before: seq<Action>, a: Action, w: nat)
    ensures LeftEarly(before + [a], w) <==> LeftEarly(before, w) || LeavesEarly(FromStart(before), a, w)
  {
    assert (before + [a])[..|before|] == before;
  }

  lemma NewIsPromised(s: Selector, a: Action, w: nat)
    requires Inv(s) && Enabled(s, a) && |s.waiters| <= w < |Next(s, a).waiters|
    ensures Promised(Next(s, a), w)
  {
    StepAddsWaiter(s, a);
    SubmitPromises(s);
  }

  lemma StepServes(s: Selector, a: Action, w: nat)
    requires Inv(s) && Enabled(s, a) && (Promised(s, w) || Forgotten(s, w))
    ensures w < |Next(s, a).waiters|
    ensures LeavesEarly(s, a, w) ==> Forgotten(Next(s, a), w)
    ensures Forgotten(s, w) ==> Forgotten(Next(s, a), w)
    ensures Promised(s, w) && !LeavesEarly(s, a, w) ==> Promised(Next(s, a), w)
  {
    if LeavesEarly(s, a, w) { LeavingForgets(s, a, w); }
    if Forgotten(s, w) { StaysForgotten(s, a, w); }
    if Promised(s, w) && !LeavesEarly(s, a, w) { StepPromises(s, a, w); }
  }

  lemma {:induction false} NotLeftBefore(actions: seq<Action>, w: nat)
    requires |FromStart(actions).waiters| <= w
    ensures !LeftEarly(actions, w)
    decreases |actions|
  {
    if actions == [] {
    } else {
      var before, a := actions[..|actions| - 1], actions[|actions| - 1];
      RunKeepsInv(Initial(), before);
      if Enabled(FromStart(before), a) { StepAddsWaiter(FromStart(before), a); }
      NotLeftBefore(before, w);
    }
  }

  // ----- The loop gets there -----

  /** The state after the loop has processed `n` entries, or all there are. */
  ghost function Turned(s: Selector, n: nat): Selector
    decreases n
  {
    if n == 0 || s.queue == [] || !Linked(s) then s
    else
      assert s.queue[0] in s.queue;
      Turned(Processed(s), n - 1)
  }

  /** Two entries of the queue do not carry one slot. */
  lemma SlotsDiffer(s: Selector, i: nat)
    requires Inv(s) && 0 < i < |s.queue| && s.queue[0].request.Operation? && s.queue[i].request.Operation?
    ensures s.queue[0].request.slot != s.queue[i].request.slot
  {
    var c, rest := s.queue[i].request.slot, s.queue[1..];
    QueueAdvanced(s.queue);
    assert rest[i - 1] == s.queue[i];
    QueueHolds(rest, s.queue[i]);
    assert s.queue[0] in s.queue;
    BelowCounts(|s.slots|, c);
    assert Places(s)[c] <= 1;
  }

  /** The operation of `w`, which waits, has completed and is the `i`-th entry of the queue, with `result`. */
  ghost predicate Due(s: Selector, i: nat, w: nat, result: int) {
    && w < |s.waiters| && s.waiters[w].Some?
    && i < |s.queue| && s.queue[i] == Entry(Operation(s.waiters[w].value, w, false), result)
  }

  lemma OneTurn(s: Selector, n: nat)
    requires Linked(s) && s.queue != []
    ensures Turned(s, n + 1) == Turned(Processed(s), n)
  {
  }

  /** A fiber whose operation has completed is given its result once the loop has processed the entries before it and
      its own. */
  lemma {:induction false} ResultArrives(s: Selector, i: nat, w: nat, result: int)
    requires Inv(s) && Due(s, i, w, result)
    ensures Delivery(w, w, result) in Turned(s, i + 1).delivered
    decreases i, 1
  {
    OneTurn(s, i);
    if i == 0 {
      HeadServed(s, w, result);
    } else {
      ArrivesLater(s, i, w, result);
    }
  }

  lemma ArrivesLater(s: Selector, i: nat, w: nat, result: int)
    requires Inv(s) && i > 0 && Due(s, i, w, result)
    ensures Delivery(w, w, result) in Turned(Processed(s), i).delivered
    decreases i, 0
  {
    NearerByOne(s, i, w, result);
    ResultArrives(Processed(s), i - 1, w, result);
  }

  lemma HeadServed(s: Selector, w: nat, result: int)
    requires Inv(s) && Due(s, 0, w, result)
    ensures Delivery(w, w, result) in Processed(s).delivered
  {
    ProcessDelivers(s);
    assert Processed(s).delivered[|s.delivered|] == Delivery(w, w, result);
  }

  lemma NearerByOne(s: Selector, i: nat, w: nat, result: int)
    requires Inv(s) && i > 0 && Due(s, i, w, result)
    ensures Inv(Processed(s)) && Due(Processed(s), i - 1, w, result)
  {
    ProcessKeepsInv(s);
    OtherIsServed(s, i, w, result);
    assert Due(Processed(s), i - 1, w, result) by {
      ProcessDelivers(s);
      assert Processed(s).queue[i - 1] == s.queue[i];
    }
  }

  lemma OtherIsServed(s: Selector, i: nat, w: nat, result: int)
    requires Inv(s) && i > 0 && Due(s, i, w, result)
    ensures s.queue[0].request.Operation? ==> s.queue[0].request.owner != w
  {
    assert s.queue[0] in s.queue;
    if s.queue[0].request.Operation? { SlotsDiffer(s, i); }
  }
}
