/** The pool of completion slots of ext/io/event/selector/uring.c as a transition system: fibers submit operations and
    leave early, the kernel completes requests in any order, the loop processes the completion queue. */
module CompletionSlots {
  import opened Collections
  import opened Optional

  const ECANCELED: int := 125

  /** A submitted request; its user data is a slot, nothing, or the address of the interrupt. `owner` (the waiter it
      was submitted for) and `cancelled` (a cancel request named its slot) are not visible to the selector. */
  datatype Request = Operation(slot: nat, owner: nat, cancelled: bool) | CancelRequest | InterruptRead

  /** An entry of the completion queue. */
  datatype Entry = Entry(request: Request, result: int)

  /** A result stored in a waiter whose fiber was then resumed. */
  datatype Delivery = Delivery(owner: nat, waiter: nat, result: int)

  /** `slots[c]` is the waiter slot `c` points to and `waiters[w]` the slot waiter `w` points to; waiters are numbered
      in the order they submit. */
  datatype Selector = Selector(
    slots: seq<Option<nat>>,
    free: seq<nat>,
    waiters: seq<Option<nat>>,
    kernel: seq<Request>,
    queue: seq<Entry>,
    registered: bool,
    delivered: seq<Delivery>)

  datatype Action =
    | Submit                            // a fiber acquires a slot and submits an operation with it
    | Leave(waiter: nat, cancel: bool)  // the ensure of its wait; process_wait does not cancel
    | Finish(index: nat, result: int)   // the kernel completes a request
    | Process                           // the loop handles the entry at the head of the completion queue
    | Block                             // before a blocking wait the interrupt read is submitted if necessary

  function Initial(): Selector {
    Selector([], [], [], [], [], false, [])
  }

  // ----- Steps -----

  /** The kernel reports a cancellation only for a request that a cancel request named. */
  predicate Enabled(s: Selector, a: Action) {
    match a
    case Submit => true
    case Leave(w, _) => w < |s.waiters|
    case Finish(i, result) =>
      i < |s.kernel| && (s.kernel[i].Operation? && result == -ECANCELED ==> s.kernel[i].cancelled)
    case Process => s.queue != []
    case Block => true
  }

  /** IO_Event_List_empty of the free list: it also holds of a single free slot. */
  predicate FreeListEmpty(s: Selector) {
    |s.free| < 2
  }

  /** Completion_acquire for the next waiter: the slot, its links, and the free list without it. */
  function Acquire(s: Selector): (r: (Selector, nat))
    requires Idle(s.slots, s.free)
    ensures r.1 < |r.0.slots|
  {
    var w := |s.waiters|;
    if FreeListEmpty(s) then
      (s.(slots := s.slots + [Some(w)], waiters := s.waiters + [Some(|s.slots|)]), |s.slots|)
    else
      var c := s.free[0];
      assert c in s.free;
      (s.(slots := s.slots[c := Some(w)], waiters := s.waiters + [Some(c)], free := s.free[1..]), c)
  }

  /** What a cancel request does when it is submitted: it names requests by their user data. */
  function MarkCancelled(kernel: seq<Request>, slot: nat): (r: seq<Request>)
    ensures |r| == |kernel|
  {
    if kernel == [] then []
    else
      var q := kernel[|kernel| - 1];
      MarkCancelled(kernel[..|kernel| - 1], slot) + [Marked(q, slot)]
  }

  function Detach(s: Selector, w: nat): Selector
    requires w < |s.waiters| && (s.waiters[w].Some? ==> s.waiters[w].value < |s.slots|)
  {
    if s.waiters[w].None? then s
    else s.(slots := s.slots[s.waiters[w].value := None], waiters := s.waiters[w := None])
  }

  /** Completion_release. */
  function Release(s: Selector, c: nat): Selector
    requires c < |s.slots| && (s.slots[c].Some? ==> s.slots[c].value < |s.waiters|)
  {
    var t := if s.slots[c].None? then s
             else s.(slots := s.slots[c := None], waiters := s.waiters[s.slots[c].value := None]);
    t.(free := [c] + t.free)
  }

  function InUse(s: Selector): int {
    |s.slots| - |s.free|
  }

  function Submitted(s: Selector): Selector
    requires Idle(s.slots, s.free)
  {
    var (t, c) := Acquire(s);
    t.(kernel := t.kernel + [Operation(c, |s.waiters|, false)])
  }

  function Left(s: Selector, w: nat, cancel: bool): Selector
    requires w < |s.waiters| && (s.waiters[w].Some? ==> s.waiters[w].value < |s.slots|)
  {
    if s.waiters[w].Some? && cancel then
      Detach(s.(kernel := MarkCancelled(s.kernel, s.waiters[w].value) + [CancelRequest]), w)
    else
      Detach(s, w)
  }

  function Processed(s: Selector): Selector
    requires s.queue != []
    requires s.queue[0].request.Operation? ==> s.queue[0].request.slot < |s.slots|
    requires forall c | 0 <= c < |s.slots| && s.slots[c].Some? :: s.slots[c].value < |s.waiters|
  {
    var e := s.queue[0];
    var t := s.(queue := s.queue[1..]);
    match e.request
    case CancelRequest => t
    case InterruptRead => t.(registered := false)
    case Operation(c, owner, _) =>
      var delivered := if s.slots[c].Some? then [Delivery(owner, s.slots[c].value, e.result)] else [];
      Release(t.(delivered := t.delivered + delivered), c)
  }

  function Next(s: Selector, a: Action): Selector
    requires Linked(s) && Enabled(s, a)
  {
    match a
    case Submit => Submitted(s)
    case Leave(w, cancel) => Left(s, w, cancel)
    case Finish(i, result) =>
      s.(kernel := RemovedAt(s.kernel, i), queue := s.queue + [Entry(s.kernel[i], result)])
    case Process => Processed(s)
    case Block => if s.registered then s else s.(kernel := s.kernel + [InterruptRead], registered := true)
  }

  // ----- Invariants -----

  /** Slots and waiters point at each other. */
  ghost predicate Links(slots: seq<Option<nat>>, waiters: seq<Option<nat>>) {
    && (forall c: nat | c < |slots| && slots[c].Some? ::
          slots[c].value < |waiters| && waiters[slots[c].value] == Some(c))
    && (forall w: nat | w < |waiters| && waiters[w].Some? ::
          waiters[w].value < |slots| && slots[waiters[w].value] == Some(w))
  }

  /** Free slots exist and point to nobody. */
  ghost predicate Idle(slots: seq<Option<nat>>, free: seq<nat>) {
    forall c | c in free :: c < |slots| && slots[c] == None
  }

  ghost predicate InRange(slots: nat, queue: seq<Entry>) {
    forall e | e in queue && e.request.Operation? :: e.request.slot < slots
  }

  ghost predicate Linked(s: Selector) {
    Links(s.slots, s.waiters) && Idle(s.slots, s.free) && InRange(|s.slots|, s.queue)
  }

  function RequestSlot(r: Request): multiset<nat> {
    if r.Operation? then multiset{r.slot} else multiset{}
  }

  /** The slots that requests carry. */
  function Slots(rs: seq<Request>): multiset<nat> {
    if rs == [] then multiset{} else Slots(rs[..|rs| - 1]) + RequestSlot(rs[|rs| - 1])
  }

  function Requests(queue: seq<Entry>): (rs: seq<Request>)
    ensures |rs| == |queue|
    ensures forall i | 0 <= i < |queue| :: rs[i] == queue[i].request
  {
    if queue == [] then [] else Requests(queue[..|queue| - 1]) + [queue[|queue| - 1].request]
  }

  function Below(n: nat): multiset<nat> {
    if n == 0 then multiset{} else Below(n - 1) + multiset{n - 1}
  }

  /** Where each slot is: on the free list, in the kernel or in the completion queue. */
  function Places(s: Selector): multiset<nat> {
    multiset(s.free) + Slots(s.kernel) + Slots(Requests(s.queue))
  }

  function Reads(rs: seq<Request>): nat {
    if rs == [] then 0 else Reads(rs[..|rs| - 1]) + if rs[|rs| - 1].InterruptRead? then 1 else 0
  }

  /** A request in flight belongs to the waiter its slot points to, if any; a cancelled one belongs to nobody. */
  ghost predicate Owned(slots: seq<Option<nat>>, waiters: seq<Option<nat>>, r: Request) {
    r.Operation? ==>
      && r.slot < |slots| && r.owner < |waiters|
      && (slots[r.slot].Some? ==> slots[r.slot].value == r.owner && !r.cancelled)
      && (waiters[r.owner].Some? ==> waiters[r.owner].value == r.slot)
  }

  ghost predicate KernelOwned(slots: seq<Option<nat>>, waiters: seq<Option<nat>>, kernel: seq<Request>) {
    forall r | r in kernel :: Owned(slots, waiters, r)
  }

  ghost predicate QueueOwned(slots: seq<Option<nat>>, waiters: seq<Option<nat>>, queue: seq<Entry>) {
    forall e | e in queue ::
      Owned(slots, waiters, e.request) && (e.request.Operation? && e.result == -ECANCELED ==> e.request.cancelled)
  }

  /** Every delivery was to the waiter that submitted, once, and was not a cancellation. */
  ghost predicate Right(waiters: seq<Option<nat>>, delivered: seq<Delivery>) {
    && (forall d | d in delivered ::
          d.waiter == d.owner && d.result != -ECANCELED && d.waiter < |waiters| && waiters[d.waiter] == None)
    && (forall i, j | 0 <= i < j < |delivered| :: delivered[i].waiter != delivered[j].waiter)
  }

  /** At most one interrupt read is outstanding, so its buffer has one writer. */
  ghost predicate OneRead(s: Selector) {
    Reads(s.kernel) + Reads(Requests(s.queue)) == if s.registered then 1 else 0
  }

  ghost predicate Inv(s: Selector) {
    && Linked(s)
    && Places(s) == Below(|s.slots|)
    && KernelOwned(s.slots, s.waiters, s.kernel)
    && QueueOwned(s.slots, s.waiters, s.queue)
    && Right(s.waiters, s.delivered)
    && OneRead(s)
  }

  // ----- Counting slots and reads -----

  lemma {:induction false} BelowCounts(n: nat, c: nat)
    ensures Below(n)[c] == if c < n then 1 else 0
  {
    if n == 0 {
    } else {
      BelowCounts(n - 1, c);
    }
  }

  lemma Appended(rs: seq<Request>, r: Request)
    ensures Slots(rs + [r]) == Slots(rs) + RequestSlot(r)
    ensures Reads(rs + [r]) == Reads(rs) + if r.InterruptRead? then 1 else 0
  {
    assert (rs + [r])[..|rs|] == rs;
  }

  lemma {:induction false} Between(before: seq<Request>, r: Request, after: seq<Request>)
    ensures Slots(before + [r] + after) == Slots(before + after) + RequestSlot(r)
    ensures Reads(before + [r] + after) == Reads(before + after) + if r.InterruptRead? then 1 else 0
    decreases |after|
  {
    if after == [] {
      assert before + [r] + after == before + [r] && before + after == before;
      Appended(before, r);
    } else {
      var n := |after| - 1;
      var rest, last := after[..n], after[n];
      Between(before, r, rest);
      assert before + [r] + after == before + [r] + rest + [last] && before + after == before + rest + [last];
      Appended(before + [r] + rest, last);
      Appended(before + rest, last);
      Swapped(Slots(before + rest), RequestSlot(r), RequestSlot(last));
    }
  }

  lemma Swapped(all: multiset<nat>, one: multiset<nat>, other: multiset<nat>)
    ensures all + one + other == all + other + one
  {
  }

  lemma Removed(rs: seq<Request>, i: nat)
    requires i < |rs|
    ensures Slots(rs) == Slots(RemovedAt(rs, i)) + RequestSlot(rs[i])
    ensures Reads(rs) == Reads(RemovedAt(rs, i)) + if rs[i].InterruptRead? then 1 else 0
  {
    var before, after := rs[..i], rs[i + 1..];
    var whole := before + [rs[i]] + after;
    Between(before, rs[i], after);
    Parts(rs, i);
    assert Slots(whole) == Slots(rs) && Reads(whole) == Reads(rs);
  }

  lemma Parts<T>(s: seq<T>, i: nat)
    requires i < |s|
    ensures s[..i] + [s[i]] + s[i + 1..] == s
  {
  }

  lemma Holds(rs: seq<Request>, r: Request)
    requires r in rs && r.Operation?
    ensures Slots(rs)[r.slot] >= 1
  {
    var i :| 0 <= i < |rs| && rs[i] == r;
    Removed(rs, i);
  }

  function Marked(q: Request, slot: nat): Request {
    if q.Operation? && q.slot == slot then q.(cancelled := true) else q
  }

  /** A cancel request changes nothing but the mark of the requests that carry the slot. */
  lemma {:induction false} MarksCount(kernel: seq<Request>, slot: nat)
    ensures Slots(MarkCancelled(kernel, slot)) == Slots(kernel)
    ensures Reads(MarkCancelled(kernel, slot)) == Reads(kernel)
  {
    if kernel == [] {
    } else {
      var n := |kernel| - 1;
      MarksCount(kernel[..n], slot);
      Appended(MarkCancelled(kernel[..n], slot), Marked(kernel[n], slot));
    }
  }

  lemma {:induction false} MarksEach(kernel: seq<Request>, slot: nat, r: Request)
    requires r in MarkCancelled(kernel, slot)
    ensures exists q :: q in kernel && r == Marked(q, slot)
  {
    if kernel == [] {
    } else {
      var n := |kernel| - 1;
      assert kernel[n] in kernel;
      if r != Marked(kernel[n], slot) {
        MarksEach(kernel[..n], slot, r);
        var q :| q in kernel[..n] && r == Marked(q, slot);
        assert q in kernel;
      }
    }
  }

  lemma QueueAppended(queue: seq<Entry>, e: Entry)
    ensures Requests(queue + [e]) == Requests(queue) + [e.request]
  {
  }

  lemma QueueAdvanced(queue: seq<Entry>)
    requires queue != []
    ensures Requests(queue) == [queue[0].request] + Requests(queue[1..])
    ensures Slots(Requests(queue)) == Slots(Requests(queue[1..])) + RequestSlot(queue[0].request)
    ensures Reads(Requests(queue)) == Reads(Requests(queue[1..])) + if queue[0].request.InterruptRead? then 1 else 0
  {
    RequestsTail(queue);
    RemovedFirst(queue[0].request, Requests(queue[1..]));
  }

  lemma RequestsTail(queue: seq<Entry>)
    requires queue != []
    ensures Requests(queue) == [queue[0].request] + Requests(queue[1..])
  {
  }

  lemma RemovedFirst(r: Request, rest: seq<Request>)
    ensures Slots([r] + rest) == Slots(rest) + RequestSlot(r)
    ensures Reads([r] + rest) == Reads(rest) + if r.InterruptRead? then 1 else 0
  {
    Removed([r] + rest, 0);
    assert RemovedAt([r] + rest, 0) == rest;
  }

  // ----- Every step keeps the invariant -----

  /** A slot that no request carries belongs to no request: nothing refers to a free slot. */
  lemma FreeIsNotInFlight(s: Selector, c: nat)
    requires Inv(s) && c in s.free
    ensures forall r | r in s.kernel && r.Operation? :: r.slot != c
    ensures forall e | e in s.queue && e.request.Operation? :: e.request.slot != c
  {
    BelowCounts(|s.slots|, c);
    assert multiset(s.free)[c] >= 1;
    forall r | r in s.kernel && r.Operation? ensures r.slot != c { Holds(s.kernel, r); }
    forall e | e in s.queue && e.request.Operation? ensures e.request.slot != c { QueueHolds(s.queue, e); }
  }

  lemma QueueHolds(queue: seq<Entry>, e: Entry)
    requires e in queue && e.request.Operation?
    ensures Slots(Requests(queue))[e.request.slot] >= 1
  {
    var i :| 0 <= i < |queue| && queue[i] == e;
    assert Requests(queue)[i] == e.request;
    Holds(Requests(queue), e.request);
  }

  function Attach(slots: seq<Option<nat>>, c: nat, w: nat): seq<Option<nat>>
    requires c <= |slots|
  {
    if c == |slots| then slots + [Some(w)] else slots[c := Some(w)]
  }

  lemma AttachLinks(slots: seq<Option<nat>>, waiters: seq<Option<nat>>, c: nat)
    requires Links(slots, waiters) && c <= |slots| && (c < |slots| ==> slots[c] == None)
    ensures Links(Attach(slots, c, |waiters|), waiters + [Some(c)])
  {
    var s, w := Attach(slots, c, |waiters|), waiters + [Some(c)];
    assert s[c] == Some(|waiters|) && w[|waiters|] == Some(c);
    assert forall d: nat | d < |slots| && d != c :: s[d] == slots[d];
    assert forall v: nat | v < |waiters| :: w[v] == waiters[v];
  }

  lemma AttachOwned(slots: seq<Option<nat>>, waiters: seq<Option<nat>>, kernel: seq<Request>, queue: seq<Entry>, c: nat)
    requires KernelOwned(slots, waiters, kernel) && QueueOwned(slots, waiters, queue) && c <= |slots|
    requires forall r | r in kernel && r.Operation? :: r.slot != c
    requires forall e | e in queue && e.request.Operation? :: e.request.slot != c
    ensures KernelOwned(Attach(slots, c, |waiters|), waiters + [Some(c)], kernel + [Operation(c, |waiters|, false)])
    ensures QueueOwned(Attach(slots, c, |waiters|), waiters + [Some(c)], queue)
  {
  }

  lemma DetachLinks(slots: seq<Option<nat>>, waiters: seq<Option<nat>>, w: nat)
    requires Links(slots, waiters) && w < |waiters| && waiters[w].Some?
    ensures waiters[w].value < |slots| && Links(slots[waiters[w].value := None], waiters[w := None])
  {
  }

  lemma DetachOwned(slots: seq<Option<nat>>, waiters: seq<Option<nat>>, kernel: seq<Request>, queue: seq<Entry>,
                    c: nat, w: nat)
    requires KernelOwned(slots, waiters, kernel) && QueueOwned(slots, waiters, queue) && c < |slots| && w < |waiters|
    ensures KernelOwned(slots[c := None], waiters[w := None], kernel)
    ensures QueueOwned(slots[c := None], waiters[w := None], queue)
  {
  }

  lemma DetachRight(waiters: seq<Option<nat>>, delivered: seq<Delivery>, w: nat)
    requires Right(waiters, delivered) && w < |waiters|
    ensures Right(waiters[w := None], delivered)
  {
  }

  lemma AttachRight(waiters: seq<Option<nat>>, delivered: seq<Delivery>, c: nat)
    requires Right(waiters, delivered)
    ensures Right(waiters + [Some(c)], delivered)
  {
  }

  lemma SubmitKeepsInv(s: Selector)
    requires Inv(s)
    ensures Inv(Submitted(s))
  {
    var c, w, t := Acquire(s).1, |s.waiters|, Submitted(s);
    NotInFlight(s, c);
    AttachLinks(s.slots, s.waiters, c);
    AttachOwned(s.slots, s.waiters, s.kernel, s.queue, c);
    AttachRight(s.waiters, s.delivered, c);
    if FreeListEmpty(s) { NewSubmitPlaces(s); } else { FreeSubmitPlaces(s); }
    SubmitIdle(s);
    SubmitReads(s);
    assert t.slots == Attach(s.slots, c, w) && t.waiters == s.waiters + [Some(c)];
  }

  /** The acquired slot was free or is new, and no request carries it. */
  lemma NotInFlight(s: Selector, c: nat)
    requires Inv(s) && c == Acquire(s).1
    ensures c <= |s.slots| && (c < |s.slots| ==> s.slots[c] == None)
    ensures forall r | r in s.kernel && r.Operation? :: r.slot != c
    ensures forall e | e in s.queue && e.request.Operation? :: e.request.slot != c
  {
    if !FreeListEmpty(s) {
      assert c in s.free;
      FreeIsNotInFlight(s, c);
    }
  }

  lemma NewSubmitPlaces(s: Selector)
    requires Inv(s) && FreeListEmpty(s)
    ensures Places(Submitted(s)) == Below(|Submitted(s).slots|)
  {
    NewSlotPlaces(s.free, s.kernel, Slots(Requests(s.queue)), |s.slots|, |s.waiters|);
  }

  lemma FreeSubmitPlaces(s: Selector)
    requires Inv(s) && !FreeListEmpty(s)
    ensures Places(Submitted(s)) == Below(|Submitted(s).slots|)
  {
    var t := Submitted(s);
    assert s.free[0] in s.free;
    assert t.free == s.free[1..] && t.queue == s.queue && |t.slots| == |s.slots|;
    assert t.kernel == s.kernel + [Operation(s.free[0], |s.waiters|, false)];
    FreeSlotPlaces(s.slots, s.free, s.kernel, Slots(Requests(s.queue)), |s.waiters|);
  }

  lemma SubmitIdle(s: Selector)
    requires Inv(s)
    ensures Idle(Submitted(s).slots, Submitted(s).free)
  {
    if FreeListEmpty(s) {
      NewSlotIdle(s.slots, s.free, |s.waiters|);
    } else {
      FreeSlotPlaces(s.slots, s.free, s.kernel, Slots(Requests(s.queue)), |s.waiters|);
    }
  }

  lemma SubmitReads(s: Selector)
    requires Inv(s)
    ensures OneRead(Submitted(s))
  {
    Appended(s.kernel, Operation(Acquire(s).1, |s.waiters|, false));
  }

  lemma NewSlotIdle(slots: seq<Option<nat>>, free: seq<nat>, w: nat)
    requires Idle(slots, free)
    ensures Idle(slots + [Some(w)], free)
  {
  }

  lemma NewSlotPlaces(free: seq<nat>, kernel: seq<Request>, queued: multiset<nat>, n: nat, w: nat)
    requires multiset(free) + Slots(kernel) + queued == Below(n)
    ensures multiset(free) + Slots(kernel + [Operation(n, w, false)]) + queued == Below(n + 1)
  {
    Appended(kernel, Operation(n, w, false));
    NewPlace(multiset(free), Slots(kernel), queued, n);
  }

  lemma FreeSlotPlaces(slots: seq<Option<nat>>, free: seq<nat>, kernel: seq<Request>, queued: multiset<nat>, w: nat)
    requires free != [] && Idle(slots, free)
    requires multiset(free) + Slots(kernel) + queued == Below(|slots|)
    ensures multiset(free[1..]) + Slots(kernel + [Operation(free[0], w, false)]) + queued == Below(|slots|)
    ensures free[0] < |slots| && Idle(slots[free[0] := Some(w)], free[1..])
  {
    Appended(kernel, Operation(free[0], w, false));
    BelowCounts(|slots|, free[0]);
    FirstFree(slots, free, Slots(kernel) + queued);
    Reused(multiset(free), multiset(free[1..]), Slots(kernel), queued, free[0]);
  }

  lemma Reused(free: multiset<nat>, rest: multiset<nat>, kernel: multiset<nat>, queue: multiset<nat>, c: nat)
    requires free == rest + multiset{c}
    ensures rest + (kernel + multiset{c}) + queue == free + kernel + queue
  {
  }

  lemma NewPlace(free: multiset<nat>, kernel: multiset<nat>, queue: multiset<nat>, n: nat)
    requires free + kernel + queue == Below(n)
    ensures free + (kernel + multiset{n}) + queue == Below(n + 1)
  {
  }

  /** Popping the first free slot removes its only occurrence. */
  lemma FirstFree(slots: seq<Option<nat>>, free: seq<nat>, held: multiset<nat>)
    requires free != [] && Idle(slots, free) && (multiset(free) + held)[free[0]] <= 1
    ensures multiset(free) == multiset(free[1..]) + multiset{free[0]}
    ensures free[0] < |slots|
    ensures forall w: nat :: Idle(slots[free[0] := Some(w)], free[1..])
  {
    var c, rest := free[0], free[1..];
    assert c in free && free == [c] + rest;
    assert multiset(free) == multiset{c} + multiset(rest);
    assert c !in rest;
    assert forall d | d in rest :: d in free;
  }

  lemma FinishKeepsInv(s: Selector, i: nat, result: int)
    requires Inv(s) && Enabled(s, Finish(i, result))
    ensures Inv(Next(s, Finish(i, result)))
  {
    assert s.kernel[i] in s.kernel;
    FinishPlaces(s, i, result);
    FinishOwned(s.slots, s.waiters, s.kernel, s.queue, i, result);
  }

  lemma FinishOwned(slots: seq<Option<nat>>, waiters: seq<Option<nat>>, kernel: seq<Request>, queue: seq<Entry>,
                    i: nat, result: int)
    requires KernelOwned(slots, waiters, kernel) && QueueOwned(slots, waiters, queue) && i < |kernel|
    requires kernel[i].Operation? && result == -ECANCELED ==> kernel[i].cancelled
    ensures KernelOwned(slots, waiters, RemovedAt(kernel, i))
    ensures QueueOwned(slots, waiters, queue + [Entry(kernel[i], result)])
  {
    assert kernel[i] in kernel;
    assert forall r | r in RemovedAt(kernel, i) :: r in kernel;
  }

  lemma Moved(free: multiset<nat>, from: multiset<nat>, rest: multiset<nat>, to: multiset<nat>, one: multiset<nat>)
    requires from == rest + one
    ensures free + rest + (to + one) == free + from + to
  {
  }

  lemma FinishPlaces(s: Selector, i: nat, result: int)
    requires Inv(s) && Enabled(s, Finish(i, result))
    ensures Places(Next(s, Finish(i, result))) == Below(|s.slots|)
    ensures OneRead(Next(s, Finish(i, result)))
  {
    var r, t := s.kernel[i], Next(s, Finish(i, result));
    Removed(s.kernel, i);
    QueueAppended(s.queue, Entry(r, result));
    Appended(Requests(s.queue), r);
    Moved(multiset(s.free), Slots(s.kernel), Slots(t.kernel), Slots(Requests(s.queue)), RequestSlot(r));
  }

  lemma BlockKeepsInv(s: Selector)
    requires Inv(s)
    ensures Inv(Next(s, Block))
  {
    if !s.registered {
      var t := Next(s, Block);
      Appended(s.kernel, InterruptRead);
      assert Slots(t.kernel) == Slots(s.kernel) && Places(t) == Places(s);
      assert KernelOwned(t.slots, t.waiters, t.kernel) by {
        assert forall r | r in t.kernel :: r in s.kernel || r == InterruptRead;
      }
    }
  }

  lemma DetachKeeps(s: Selector, w: nat)
    requires Inv(s) && w < |s.waiters|
    ensures Inv(Detach(s, w))
  {
    if s.waiters[w].Some? {
      DetachLinks(s.slots, s.waiters, w);
      DetachOwned(s.slots, s.waiters, s.kernel, s.queue, s.waiters[w].value, w);
      DetachRight(s.waiters, s.delivered, w);
      var t := Detach(s, w);
      assert Idle(t.slots, t.free);
    }
  }

  lemma CancelKeeps(s: Selector, w: nat)
    requires Inv(s) && w < |s.waiters| && s.waiters[w].Some?
    ensures Inv(Left(s, w, true))
  {
    var c, t := s.waiters[w].value, Left(s, w, true);
    DetachKeeps(s, w);
    MarksCount(s.kernel, c);
    Appended(MarkCancelled(s.kernel, c), CancelRequest);
    CancelOwned(t.slots, t.waiters, s.kernel, c);
  }

  lemma CancelOwned(slots: seq<Option<nat>>, waiters: seq<Option<nat>>, kernel: seq<Request>, c: nat)
    requires KernelOwned(slots, waiters, kernel) && c < |slots| && slots[c] == None
    ensures KernelOwned(slots, waiters, MarkCancelled(kernel, c) + [CancelRequest])
  {
    forall r | r in MarkCancelled(kernel, c) ensures Owned(slots, waiters, r) {
      MarksEach(kernel, c, r);
    }
  }

  /** The head of the queue is taken; what it carried is not held any more. */
  lemma HeadTaken(s: Selector)
    requires Inv(s) && s.queue != []
    ensures var r := s.queue[0].request;
            && Owned(s.slots, s.waiters, r)
            && multiset(s.free) + Slots(s.kernel) + Slots(Requests(s.queue[1..])) + RequestSlot(r) == Below(|s.slots|)
            && Reads(s.kernel) + Reads(Requests(s.queue[1..])) + (if r.InterruptRead? then 1 else 0)
               == (if s.registered then 1 else 0)
            && QueueOwned(s.slots, s.waiters, s.queue[1..])
  {
    QueueAdvanced(s.queue);
    assert s.queue[0] in s.queue;
    assert forall e | e in s.queue[1..] :: e in s.queue;
  }

  lemma ProcessKeepsInv(s: Selector)
    requires Inv(s) && s.queue != []
    ensures Inv(Processed(s))
  {
    var e := s.queue[0];
    HeadTaken(s);
    if e.request.Operation? {
      ReleaseKeepsInv(s);
    }
  }

  lemma ReleaseKeepsInv(s: Selector)
    requires Inv(s) && s.queue != [] && s.queue[0].request.Operation?
    ensures Inv(Processed(s))
  {
    var e := s.queue[0];
    var c, t := e.request.slot, Processed(s);
    HeadTaken(s);
    ReleasedPlaces(s.slots, s.free, Slots(s.kernel), Slots(Requests(s.queue[1..])), c);
    if s.slots[c].Some? {
      var w := s.slots[c].value;
      DetachOwned(s.slots, s.waiters, s.kernel, s.queue[1..], c, w);
      DetachLinks(s.slots, s.waiters, w);
      DetachRight(s.waiters, s.delivered, w);
      DeliverRight(s.waiters[w := None], s.waiters, s.delivered, Delivery(e.request.owner, w, e.result));
    }
  }

  lemma ReleasedPlaces(slots: seq<Option<nat>>, free: seq<nat>, kernel: multiset<nat>, queue: multiset<nat>, c: nat)
    requires Idle(slots, free) && c < |slots|
    ensures multiset([c] + free) + kernel + queue == multiset(free) + kernel + queue + multiset{c}
    ensures Idle(slots[c := None], [c] + free)
    ensures slots[c] == None ==> Idle(slots, [c] + free)
  {
  }

  lemma DeliverRight(after: seq<Option<nat>>, before: seq<Option<nat>>, delivered: seq<Delivery>, d: Delivery)
    requires Right(before, delivered) && Right(after, delivered)
    requires d.waiter == d.owner && d.result != -ECANCELED && d.waiter < |before| == |after|
    requires after[d.waiter] == None && before[d.waiter] != None
    ensures Right(after, delivered + [d])
  {
  }

  // ----- Whole runs -----

  lemma StepKeepsInv(s: Selector, a: Action)
    requires Inv(s) && Enabled(s, a)
    ensures Inv(Next(s, a))
  {
    match a
    case Submit => SubmitKeepsInv(s);
    case Leave(w, cancel) => if cancel && s.waiters[w].Some? { CancelKeeps(s, w); } else { DetachKeeps(s, w); }
    case Finish(i, result) => FinishKeepsInv(s, i, result);
    case Process => ProcessKeepsInv(s);
    case Block => BlockKeepsInv(s);
  }

  /** The state after `actions`; one that is not enabled does nothing. RunKeepsInv shows that Linked always holds. */
  ghost function After(s: Selector, actions: seq<Action>): Selector
    decreases |actions|
  {
    if actions == [] then s
    else
      var t := After(s, actions[..|actions| - 1]);
      var a := actions[|actions| - 1];
      if Linked(t) && Enabled(t, a) then Next(t, a) else t
  }

  lemma {:induction false} RunKeepsInv(s: Selector, actions: seq<Action>)
    requires Inv(s)
    ensures Inv(After(s, actions))
    decreases |actions|
  {
    if actions == [] {
    } else {
      var t := After(s, actions[..|actions| - 1]);
      RunKeepsInv(s, actions[..|actions| - 1]);
      if Enabled(t, actions[|actions| - 1]) { StepKeepsInv(t, actions[|actions| - 1]); }
    }
  }

  ghost function FromStart(actions: seq<Action>): Selector {
    After(Initial(), actions)
  }

  /** In every run every slot is at every moment in exactly one place: free, in the kernel, or in the completion
      queue. It is never reused before its own completion was processed. */
  lemma EverySlotHasOnePlace(actions: seq<Action>, c: nat)
    requires c < |FromStart(actions).slots|
    ensures var s := FromStart(actions);
            multiset(s.free)[c] + Slots(s.kernel)[c] + Slots(Requests(s.queue))[c] == 1
  {
    var s := FromStart(actions);
    RunKeepsInv(Initial(), actions);
    BelowCounts(|s.slots|, c);
    assert Places(s)[c] == 1;
  }

  /** In every run a result reaches the waiter that submitted the operation or nobody, at most once, and no fiber is
      resumed with a cancellation. */
  lemma ResultsReachTheirSubmitter(actions: seq<Action>)
    ensures var delivered := FromStart(actions).delivered;
            && (forall d | d in delivered :: d.waiter == d.owner && d.result != -ECANCELED)
            && (forall j, k | 0 <= j < k < |delivered| :: delivered[j].waiter != delivered[k].waiter)
  {
    RunKeepsInv(Initial(), actions);
    assert Right(FromStart(actions).waiters, FromStart(actions).delivered);
  }

  /** A fiber that is still waiting does get the result of its operation when the completion is processed. */
  lemma WaitingFiberIsServed(s: Selector)
    requires Inv(s) && s.queue != [] && s.queue[0].request.Operation?
    ensures var e := s.queue[0];
            var owner := e.request.owner;
            && owner < |s.waiters|
            && Processed(s).delivered ==
               s.delivered + if s.waiters[owner].Some? then [Delivery(owner, owner, e.result)] else []
  {
    var r := s.queue[0].request;
    HeadTaken(s);
    assert s.slots[r.slot].Some? <==> s.waiters[r.owner].Some?;
  }

  lemma OneMore(actions: seq<Action>, a: Action)
    ensures var s := FromStart(actions);
            FromStart(actions + [a]) == if Linked(s) && Enabled(s, a) then Next(s, a) else s
  {
    assert (actions + [a])[..|actions|] == actions;
  }

  /** What a step does to the pool: it allocates one slot, for a submission that finds fewer than two free ones, or
      none; and once a slot is free, one stays free. */
  lemma StepAllocates(s: Selector, a: Action)
    requires Linked(s) && Enabled(s, a)
    ensures var t := Next(s, a);
            && |t.slots| == |s.slots| + (if a.Submit? && FreeListEmpty(s) then 1 else 0)
            && (a.Submit? && FreeListEmpty(s) ==> t.free == s.free)
            && (s.free != [] ==> t.free != [])
  {
    if a.Submit? {
      assert s.free != [] ==> s.free[0] in s.free;
    }
  }

  /** The same between any two moments of a run. */
  lemma {:induction false} PoolGrows(actions: seq<Action>, k: nat)
    requires k <= |actions|
    ensures var s, t := FromStart(actions[..k]), FromStart(actions);
            |s.slots| <= |t.slots| && (s.free != [] ==> t.free != [])
    decreases |actions|
  {
    if k == |actions| {
      assert actions[..k] == actions;
    } else {
      var before, a := actions[..|actions| - 1], actions[|actions| - 1];
      assert actions == before + [a] && before[..k] == actions[..k];
      PoolGrows(before, k);
      OneMore(before, a);
      if Linked(FromStart(before)) && Enabled(FromStart(before), a) { StepAllocates(FromStart(before), a); }
    }
  }

  /** The slots ever allocated exceed what was in use at some moment by at most one, the free slot that counts as an
      empty list; so they exceed the peak by at most one. */
  lemma {:induction false} AllocationIsBounded(actions: seq<Action>) returns (k: nat)
    ensures k <= |actions|
    ensures |FromStart(actions).slots| <= InUse(FromStart(actions[..k])) + 1
    ensures !SubmitsWithOneFree(actions) ==> |FromStart(actions).slots| <= InUse(FromStart(actions[..k]))
    decreases |actions|
  {
    if actions == [] {
      k := 0;
    } else {
      var before, a := actions[..|actions| - 1], actions[|actions| - 1];
      assert actions == before + [a];
      if |FromStart(actions).slots| > |FromStart(before).slots| {
        LastAllocates(before, a);
        if |FromStart(before).free| == 1 { LastSubmitsWithOneFree(before, a); }
        k := |actions|;
        assert actions[..k] == actions;
      } else {
        k := AllocationIsBounded(before);
        assert before[..k] == actions[..k];
        if SubmitsWithOneFree(before) { SubmitsBefore(actions); }
      }
    }
  }

  /** Right after an allocation at most one slot is unused, and then the submission found it free. */
  lemma LastAllocates(actions: seq<Action>, a: Action)
    requires |FromStart(actions + [a]).slots| > |FromStart(actions).slots|
    ensures a.Submit? && |FromStart(actions).free| <= 1
    ensures |FromStart(actions + [a]).slots| == InUse(FromStart(actions + [a])) + |FromStart(actions).free|
  {
    OneMore(actions, a);
    AllocationFillsThePool(FromStart(actions), a, FromStart(actions + [a]));
  }

  lemma LastSubmitsWithOneFree(actions: seq<Action>, a: Action)
    requires a.Submit? && |FromStart(actions).free| == 1
    ensures SubmitsWithOneFree(actions + [a])
  {
    assert (actions + [a])[|actions|].Submit? && (actions + [a])[..|actions|] == actions;
  }

  lemma AllocationFillsThePool(s: Selector, a: Action, t: Selector)
    requires t == (if Linked(s) && Enabled(s, a) then Next(s, a) else s) && |t.slots| > |s.slots|
    ensures a.Submit? && |s.free| < 2
    ensures |t.slots| == InUse(t) + |s.free|
  {
    StepAllocates(s, a);
  }

  /** Some submission of the run finds exactly one free slot, which the list test overlooks. */
  ghost predicate SubmitsWithOneFree(actions: seq<Action>) {
    exists k: nat :: k < |actions| && actions[k].Submit? && |FromStart(actions[..k]).free| == 1
  }

  lemma SubmitsBefore(actions: seq<Action>)
    requires actions != [] && SubmitsWithOneFree(actions[..|actions| - 1])
    ensures SubmitsWithOneFree(actions)
  {
    var before := actions[..|actions| - 1];
    var k: nat :| k < |before| && before[k].Submit? && |FromStart(before[..k]).free| == 1;
    assert before[..k] == actions[..k] && actions[k].Submit?;
  }

  /** The pool is larger than anything that was ever in use exactly when a submission found a single free slot. */
  lemma PoolExceedsPeak(actions: seq<Action>)
    ensures (forall m: nat | m <= |actions| :: InUse(FromStart(actions[..m])) < |FromStart(actions).slots|) <==>
            SubmitsWithOneFree(actions)
  {
    if SubmitsWithOneFree(actions) {
      var k: nat :| k < |actions| && actions[k].Submit? && |FromStart(actions[..k]).free| == 1;
      forall m: nat | m <= |actions| ensures InUse(FromStart(actions[..m])) < |FromStart(actions).slots| {
        UseBeforeAndAfter(actions, k, m);
      }
    } else {
      var k := AllocationIsBounded(actions);
    }
  }

  lemma UseBeforeAndAfter(actions: seq<Action>, k: nat, m: nat)
    requires k < |actions| && actions[k].Submit? && |FromStart(actions[..k]).free| == 1 && m <= |actions|
    ensures InUse(FromStart(actions[..m])) < |FromStart(actions).slots|
  {
    SubmitLeavesOneFree(actions, k);
    if m <= k {
      Grows(actions, m, k);
      Grows(actions, k + 1, |actions|);
    } else {
      Grows(actions, k + 1, m);
      Grows(actions, m, |actions|);
    }
    assert actions[..|actions|] == actions;
  }

  lemma Grows(actions: seq<Action>, k: nat, m: nat)
    requires k <= m <= |actions|
    ensures |FromStart(actions[..k]).slots| <= |FromStart(actions[..m]).slots|
    ensures FromStart(actions[..k]).free != [] ==> FromStart(actions[..m]).free != []
  {
    assert actions[..m][..k] == actions[..k];
    PoolGrows(actions[..m], k);
  }

  /** The free slot that the list test overlooks is still free afterwards, beside the new one. */
  lemma SubmitLeavesOneFree(actions: seq<Action>, k: nat)
    requires k < |actions| && actions[k].Submit? && |FromStart(actions[..k]).free| == 1
    ensures |FromStart(actions[..k + 1]).slots| == |FromStart(actions[..k]).slots| + 1
    ensures FromStart(actions[..k + 1]).free != []
  {
    assert actions[..k + 1] == actions[..k] + [actions[k]];
    OneMore(actions[..k], actions[k]);
    RunKeepsInv(Initial(), actions[..k]);
    StepAllocates(FromStart(actions[..k]), actions[k]);
  }

  /** Nothing reaches a waiter once its fiber has left the wait. */
  lemma {:induction false} NothingAfterLeaving(s: Selector, actions: seq<Action>, w: nat)
    requires Inv(s) && w < |s.waiters| && s.waiters[w] == None
    ensures var t := After(s, actions);
            && w < |t.waiters| && t.waiters[w] == None
            && forall d | d in t.delivered && d.waiter == w :: d in s.delivered
    decreases |actions|
  {
    if actions == [] {
    } else {
      var t := After(s, actions[..|actions| - 1]);
      var a := actions[|actions| - 1];
      NothingAfterLeaving(s, actions[..|actions| - 1], w);
      RunKeepsInv(s, actions[..|actions| - 1]);
      if Enabled(t, a) {
        LeftAlone(t, a, w);
      }
    }
  }

  lemma LeftAlone(s: Selector, a: Action, w: nat)
    requires Inv(s) && Enabled(s, a) && w < |s.waiters| && s.waiters[w] == None
    ensures w < |Next(s, a).waiters| && Next(s, a).waiters[w] == None
    ensures forall d | d in Next(s, a).delivered && d.waiter == w :: d in s.delivered
  {
    match a
    case Submit => SubmittedAlone(s);
    case Process => ProcessedAlone(s, w);
    case Leave(_, _) =>
    case Finish(_, _) =>
    case Block =>
  }

  lemma SubmittedAlone(s: Selector)
    requires Idle(s.slots, s.free)
    ensures s.waiters <= Submitted(s).waiters && Submitted(s).delivered == s.delivered
  {
  }

  lemma ProcessedAlone(s: Selector, w: nat)
    requires Inv(s) && s.queue != [] && w < |s.waiters| && s.waiters[w] == None
    ensures |Processed(s).waiters| == |s.waiters| && Processed(s).waiters[w] == None
    ensures forall d | d in Processed(s).delivered && d.waiter == w :: d in s.delivered
  {
    var r := s.queue[0].request;
    assert s.queue[0] in s.queue;
    if r.Operation? { WaiterElsewhere(s, r.slot, w); }
  }

  lemma WaiterElsewhere(s: Selector, c: nat, w: nat)
    requires Links(s.slots, s.waiters) && c < |s.slots| && w < |s.waiters| && s.waiters[w] == None
    ensures s.slots[c].Some? ==> s.slots[c].value < |s.waiters| && s.slots[c].value != w
  {
  }

  /** A cancel request names the slot of the fiber that leaves, and whatever it marks belongs to that fiber. */
  lemma CancelHitsItsOwn(s: Selector, w: nat, i: nat)
    requires Inv(s) && w < |s.waiters| && s.waiters[w].Some? && i < |s.kernel|
    ensures i < |Left(s, w, true).kernel|
    ensures Left(s, w, true).kernel[i] != s.kernel[i] ==> s.kernel[i].Operation? && s.kernel[i].owner == w
  {
    var c := s.waiters[w].value;
    MarkedAt(s.kernel, c, i);
    assert s.kernel[i] in s.kernel;
  }

  lemma {:induction false} MarkedAt(kernel: seq<Request>, slot: nat, i: nat)
    requires i < |kernel|
    ensures MarkCancelled(kernel, slot)[i] == Marked(kernel[i], slot)
  {
    if i == |kernel| - 1 {
    } else {
      MarkedAt(kernel[..|kernel| - 1], slot, i);
    }
  }

  /** The bound is met: two operations one after the other allocate two slots although one is in use at a time. */
  lemma OneSlotMoreThanThePeak() returns (s: Selector, t: Selector, v: Selector, u: Selector)
    ensures s == Submitted(Initial()) && InUse(s) == 1
    ensures Linked(s) && Enabled(s, Finish(0, 1)) && t == Next(s, Finish(0, 1)) && InUse(t) == 1
    ensures Linked(t) && Enabled(t, Process) && v == Next(t, Process) && InUse(v) == 0
    ensures Linked(v) && u == Next(v, Submit) && InUse(u) == 1 && |u.slots| == 2
  {
    s := Selector([Some(0)], [], [Some(0)], [Operation(0, 0, false)], [], false, []);
    t := Selector([Some(0)], [], [Some(0)], [], [Entry(Operation(0, 0, false), 1)], false, []);
    v := Selector([None], [0], [None], [], [], false, [Delivery(0, 0, 1)]);
    u := Submitted(v);
    GiveOut(s);
    TakeBack(t, v);
  }

  lemma GiveOut(s: Selector)
    requires s == Selector([Some(0)], [], [Some(0)], [Operation(0, 0, false)], [], false, [])
    ensures s == Submitted(Initial())
    ensures RemovedAt(s.kernel, 0) == []
  {
  }

  lemma TakeBack(t: Selector, v: Selector)
    requires t == Selector([Some(0)], [], [Some(0)], [], [Entry(Operation(0, 0, false), 1)], false, [])
    requires v == Selector([None], [0], [None], [], [], false, [Delivery(0, 0, 1)])
    ensures Linked(t) && Processed(t) == v
  {
    assert [Some(0)][0 := None] == [None];
  }
}
