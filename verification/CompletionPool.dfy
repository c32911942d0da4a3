/** The completion slots of ext/io/event/selector/uring.c as linked structures: slots in an array, waiting records on
    fiber stacks, both pointing at each other, and the free list threaded through the slots. */
module CompletionPool {
  import opened Collections
  import opened EventList
  import opened Optional
  import C = CompletionSlots
  import S = CompletionService

  /** A record on the stack of a fiber; `number` counts submissions. */
  class Waiting {
    const number: nat
    var completion: Completion?
    var fiber: bool
    var result: int

    constructor (number: nat)
      ensures this.number == number && completion == null && fiber
    {
      this.number := number;
      completion, fiber, result := null, true, 0;
    }
  }

  /** A slot; `list` is its node in the free list and carries its number in the array. */
  class Completion {
    const list: Node<nat>
    var waiting: Waiting?

    /** IO_Event_Selector_URing_Completion_initialize and IO_Event_List_clear. */
    constructor (index: nat)
      ensures waiting == null && fresh(list)
      ensures list.item == index && list.head == null && list.tail == null
    {
      list := new Node.Detached(index);
      waiting := null;
    }
  }

  // ----- How the structures stand for the model -----

  ghost function Nodes(completions: seq<Completion>): set<Node<nat>> {
    set c | c in completions :: c.list
  }

  /** The slots are numbered by their place, so they are different objects with different nodes. */
  ghost predicate Numbered(completions: seq<Completion>) {
    forall c: nat | c < |completions| :: completions[c].list.item == c
  }

  /** Pointers of the slots, by the model's numbers. */
  ghost predicate SlotPointers(completions: seq<Completion>, records: seq<Waiting>, slots: seq<Option<nat>>)
    reads SetOf(completions)
  {
    && |completions| == |slots|
    && forall c: nat | c < |slots| ::
         match slots[c]
         case None => completions[c].waiting == null
         case Some(w) => w < |records| && completions[c].waiting == records[w]
  }

  ghost predicate RecordPointers(completions: seq<Completion>, records: seq<Waiting>, waiters: seq<Option<nat>>)
    reads SetOf(records)
  {
    && |records| == |waiters|
    && (forall w: nat | w < |waiters| ::
          && records[w].number == w
          && match waiters[w]
             case None => records[w].completion == null
             case Some(c) => c < |completions| && records[w].completion == completions[c] && records[w].fiber)
  }

  /** The free list: its nodes are those of the free slots, in order; the nodes of the others are in no list. */
  ghost predicate FreeList(list: Node<nat>, links: seq<Node<nat>>, completions: seq<Completion>, free: seq<nat>)
    reads SetOf(links), Nodes(completions)
  {
    && Ring(links)
    && links[0] == list
    && |links| == |free| + 1
    && (forall i: nat | i < |free| :: free[i] < |completions| && links[i + 1] == completions[free[i]].list)
    && (forall c: nat | c < |completions| && c !in free ::
          completions[c].list.head == null && completions[c].list.tail == null && completions[c].list !in links)
  }

  /** The node of slot `c` was linked in after the sentinel. */
  lemma FreeListGrows(list: Node<nat>, links: seq<Node<nat>>, completions: seq<Completion>, free: seq<nat>, c: nat)
    requires Numbered(completions) && c < |completions| && c !in free && links != [] && links[0] == list
    requires Ring(Inserted(links, 1, completions[c].list)) && |links| == |free| + 1
    requires forall i: nat | i < |free| :: free[i] < |completions| && links[i + 1] == completions[free[i]].list
    requires forall d: nat | d < |completions| && d !in free && d != c ::
               completions[d].list.head == null && completions[d].list.tail == null && completions[d].list !in links
    ensures FreeList(list, Inserted(links, 1, completions[c].list), completions, [c] + free)
  {
    var more, longer := Inserted(links, 1, completions[c].list), [c] + free;
    forall i: nat | i < |longer| ensures longer[i] < |completions| && more[i + 1] == completions[longer[i]].list {
      assert i > 0 ==> longer[i] == free[i - 1] && more[i + 1] == links[i];
    }
    forall d: nat | d < |completions| && d !in longer ensures completions[d].list !in more {
      assert d !in free && d != c;
    }
  }

  /** What fibers were resumed with, from the model's deliveries. */
  function Resumptions(delivered: seq<C.Delivery>): (r: seq<(nat, int)>)
    ensures |r| == |delivered|
    ensures forall i | 0 <= i < |r| :: r[i] == (delivered[i].waiter, delivered[i].result)
  {
    if delivered == [] then []
    else
      var d := delivered[|delivered| - 1];
      Resumptions(delivered[..|delivered| - 1]) + [(d.waiter, d.result)]
  }

  lemma ResumptionsThen(first: seq<C.Delivery>, second: seq<C.Delivery>)
    ensures Resumptions(first + second) == Resumptions(first) + Resumptions(second)
  {
  }

  ghost function Acquired(m: C.Selector): nat
    requires C.Inv(m)
  {
    C.Acquire(m).1
  }

  ghost function FreeAfter(m: C.Selector): seq<nat>
    requires C.Inv(m)
  {
    C.Acquire(m).0.free
  }

  /** The slots of `m` with room for the acquired one. */
  ghost function Room(m: C.Selector): seq<Option<nat>> {
    if C.FreeListEmpty(m) then m.slots + [None] else m.slots
  }

  lemma FirstFreeOnce(m: C.Selector)
    requires C.Inv(m) && !C.FreeListEmpty(m)
    ensures m.free[0] < |m.slots| && m.slots[m.free[0]] == None && m.free[0] !in m.free[1..]
    ensures Acquired(m) == m.free[0] && FreeAfter(m) == m.free[1..]
  {
    assert m.free[0] in m.free;
    C.BelowCounts(|m.slots|, m.free[0]);
    assert C.Places(m)[m.free[0]] == 1;
    C.FirstFree(m.slots, m.free, C.Slots(m.kernel) + C.Slots(C.Requests(m.queue)));
  }

  lemma SubmittedShape(m: C.Selector)
    requires C.Inv(m)
    ensures var t := C.Submitted(m);
            && t.free == FreeAfter(m)
            && Acquired(m) < |Room(m)|
            && t.slots == Room(m)[Acquired(m) := Some(|m.waiters|)]
            && t.waiters == m.waiters + [Some(Acquired(m))]
            && t.kernel == m.kernel + [C.Operation(Acquired(m), |m.waiters|, false)]
            && t.queue == m.queue && t.registered == m.registered && t.delivered == m.delivered
  {
    if !C.FreeListEmpty(m) { FirstFreeOnce(m); }
  }

  lemma LeftSound(m: C.Selector, w: nat, cancel: bool)
    requires C.Inv(m) && w < |m.waiters|
    ensures var t, d := C.Left(m, w, cancel), C.Detach(m, w);
            C.Linked(m) && C.Inv(t) && t.free == d.free && t.slots == d.slots && t.waiters == d.waiters
  {
    C.StepKeepsInv(m, C.Leave(w, cancel));
  }

  /** A result is delivered to the record that the slot points to, if any. */
  ghost function Delivered(m: C.Selector, c: nat, result: int): seq<C.Delivery>
    requires c < |m.slots|
  {
    match m.slots[c] case None => [] case Some(w) => [C.Delivery(w, w, result)]
  }

  lemma ProcessedSound(m: C.Selector)
    requires C.Inv(m) && m.queue != []
    ensures C.Links(m.slots, m.waiters) && C.Inv(C.Processed(m))
  {
    C.ProcessKeepsInv(m);
  }

  /** The slots of `t` are those of `m` once `c` is released. */
  ghost predicate Frees(m: C.Selector, c: nat, t: C.Selector) {
    && c < |m.slots|
    && (m.slots[c].Some? ==> m.slots[c].value < |m.waiters|)
    && var r := C.Release(m, c);
       t.free == r.free && t.slots == r.slots && t.waiters == r.waiters
  }

  /** What the rest of Process has to bring about once the entry `e` was taken from the queue of `m`. */
  ghost predicate Follows(m: C.Selector, e: C.Entry, t: C.Selector) {
    && t.kernel == m.kernel
    && t.registered == (m.registered && !e.request.InterruptRead?)
    && match e.request
       case Operation(c, _, _) =>
         && c !in m.free && Frees(m, c, t)
         && t.delivered == m.delivered + Delivered(m, c, e.result)
       case _ => t.free == m.free && t.slots == m.slots && t.waiters == m.waiters && t.delivered == m.delivered
  }

  lemma ProcessedFields(m: C.Selector)
    requires C.Inv(m) && m.queue != []
    ensures Follows(m, m.queue[0], C.Processed(m)) && C.Processed(m).queue == m.queue[1..]
  {
    assert m.queue[0] in m.queue;
    if m.queue[0].request.Operation? { CarriedIsNotFree(m, m.queue[0].request.slot); }
    HeadFollows(m);
  }

  lemma HeadFollows(m: C.Selector)
    requires m.queue != [] && C.Links(m.slots, m.waiters) && C.Owned(m.slots, m.waiters, m.queue[0].request)
    requires m.queue[0].request.Operation? ==> m.queue[0].request.slot !in m.free
    ensures Follows(m, m.queue[0], C.Processed(m)) && C.Processed(m).queue == m.queue[1..]
  {
  }

  lemma CarriedIsNotFree(m: C.Selector, c: nat)
    requires C.Inv(m) && m.queue != [] && m.queue[0].request.Operation? && m.queue[0].request.slot == c
    ensures c !in m.free
  {
    assert m.queue[0] in m.queue;
    if c in m.free { C.FreeIsNotInFlight(m, c); }
  }

  class Selector {
    var completions: seq<Completion>
    const freeList: Node<nat>
    /** The ring: requests the kernel holds and the completion queue. A request's user data is a slot number here. */
    var kernel: seq<C.Request>
    var queue: seq<C.Entry>
    var wakeupRegistered: bool
    /** The fibers resumed by the loop so far, and the result each found in its record. */
    var resumed: seq<(nat, int)>

    ghost var records: seq<Waiting>
    ghost var links: seq<Node<nat>>
    ghost var model: C.Selector

    /** The structures are those of a free list, slots and waiters. */
    ghost predicate Shape(free: seq<nat>, slots: seq<Option<nat>>, waiters: seq<Option<nat>>)
      reads this`completions, this`links, this`records, SetOf(completions), SetOf(records), SetOf(links)
      reads Nodes(completions)
    {
      && Numbered(completions)
      && FreeList(freeList, links, completions, free)
      && SlotPointers(completions, records, slots)
      && RecordPointers(completions, records, waiters)
    }

    ghost predicate Fields(m: C.Selector)
      reads this`kernel, this`queue, this`wakeupRegistered, this`resumed
    {
      && kernel == m.kernel
      && queue == m.queue
      && wakeupRegistered == m.registered
      && resumed == Resumptions(m.delivered)
    }

    ghost predicate Valid()
      reads this, SetOf(completions), SetOf(records), SetOf(links), Nodes(completions)
    {
      C.Inv(model) && Shape(model.free, model.slots, model.waiters) && Fields(model)
    }

    /** The structures have become those of `m`. */
    ghost method Become(m: C.Selector)
      requires C.Inv(m) && Shape(m.free, m.slots, m.waiters) && Fields(m)
      modifies this`model
      ensures Valid() && model == m
    {
      model := m;
    }

    constructor ()
      ensures Valid() && model == C.Initial()
    {
      freeList := new Node.Sentinel(0);
      completions, kernel, queue, wakeupRegistered, resumed := [], [], [], false, [];
      records, model := [], C.Initial();
      links := [];
      new;
      links := [freeList];
    }

    // ----- Completion_acquire -----

    method PopFree(ghost free: seq<nat>) returns (completion: Completion)
      requires Numbered(completions) && FreeList(freeList, links, completions, free) && free != []
      modifies this`links, SetOf(links)
      ensures free[0] < |completions| && completion == completions[free[0]]
      ensures free[0] !in free[1..] ==> FreeList(freeList, links, completions, free[1..])
      ensures forall n | n in links :: n in old(links)
    {
      assert links[0].tail == After(links, 0);
      assert completions[free[0]].list == links[1];
      completion := completions[freeList.tail.item];
      Pop(completion.list, links, 1);
      links := RemovedAt(links, 1);
    }

    method PushNew(ghost free: seq<nat>, ghost slots: seq<Option<nat>>) returns (completion: Completion)
      requires Numbered(completions) && FreeList(freeList, links, completions, free)
      requires SlotPointers(completions, records, slots)
      modifies this`completions
      ensures fresh(completion) && fresh(completion.list)
      ensures completions == old(completions) + [completion]
      ensures SlotPointers(completions, records, slots + [None])
      ensures Numbered(completions) && FreeList(freeList, links, completions, free)
    {
      completion := new Completion(|completions|);
      completions := completions + [completion];
    }

    /** A slot from the free list, or a new one; it points to nobody yet. */
    method TakeSlot() returns (completion: Completion)
      requires Valid()
      modifies this`completions, this`links, SetOf(links)
      ensures Acquired(model) < |completions| && completion == completions[Acquired(model)]
      ensures completion.list.item == Acquired(model)
      ensures Shape(FreeAfter(model), Room(model), model.waiters)
      ensures forall c | c in completions :: c in old(completions) || fresh(c)
    {
      var empty := Empty(freeList, links);
      assert model.free == [] || model.free[0] in model.free;
      if !empty {
        FirstFreeOnce(model);
        completion := PopFree(model.free);
      } else {
        completion := PushNew(model.free, model.slots);
      }
    }

    /** The slot and the record point at each other. */
    method Attach(waiting: Waiting, completion: Completion, ghost c: nat, ghost slots: seq<Option<nat>>,
                  ghost waiters: seq<Option<nat>>, ghost t: C.Selector)
      requires c < |completions| && completions[c] == completion
      requires Shape(t.free, slots, waiters)
      requires t.slots == slots[c := Some(|records|)] && t.waiters == waiters + [Some(c)]
      requires waiting !in records && waiting.number == |records| && waiting.fiber
      modifies this`records, completion`waiting, waiting`completion
      ensures records == old(records) + [waiting]
      ensures Shape(t.free, t.slots, t.waiters)
    {
      PointAtSlot(waiting, completion, c, waiters);
      PointAtRecord(waiting, completion, c, slots);
      AddRecord(waiting, t.free, t.slots, t.waiters);
    }

    ghost method AddRecord(waiting: Waiting, free: seq<nat>, slots: seq<Option<nat>>, waiters: seq<Option<nat>>)
      requires Numbered(completions) && FreeList(freeList, links, completions, free)
      requires SlotPointers(completions, records + [waiting], slots)
      requires RecordPointers(completions, records + [waiting], waiters)
      modifies this`records
      ensures records == old(records) + [waiting] && Shape(free, slots, waiters)
    {
      records := records + [waiting];
    }

    method PointAtSlot(waiting: Waiting, completion: Completion, ghost c: nat, ghost waiters: seq<Option<nat>>)
      requires RecordPointers(completions, records, waiters) && c < |completions| && completions[c] == completion
      requires waiting !in records && waiting.number == |records| && waiting.fiber
      modifies waiting`completion
      ensures RecordPointers(completions, records + [waiting], waiters + [Some(c)])
    {
      waiting.completion := completion;
    }

    method PointAtRecord(waiting: Waiting, completion: Completion, ghost c: nat, ghost slots: seq<Option<nat>>)
      requires Numbered(completions) && SlotPointers(completions, records, slots)
      requires c < |completions| && completions[c] == completion
      modifies completion`waiting
      ensures SlotPointers(completions, records + [waiting], slots[c := Some(|records|)])
    {
      completion.waiting := waiting;
      forall d: nat | d < |completions| && d != c ensures completions[d] != completion {
        assert completions[d].list.item == d;
      }
    }

    /** IO_Event_Selector_URing_Completion_acquire. */
    method Acquire(waiting: Waiting) returns (completion: Completion)
      requires Valid() && waiting !in records && waiting.number == |records| && waiting.fiber
      modifies this`completions, this`links, this`records, SetOf(links), SetOf(completions)`waiting, waiting`completion
      ensures completion.list.item == Acquired(model)
      ensures var t := C.Submitted(model); Shape(t.free, t.slots, t.waiters)
      ensures records == old(records) + [waiting]
    {
      assert waiting.number == |model.waiters|;
      SubmittedShape(model);
      completion := TakeSlot();
      Attach(waiting, completion, Acquired(model), Room(model), model.waiters, C.Submitted(model));
    }

    /** io_get_sqe, io_uring_sqe_set_data and the submission: the kernel holds one more request. */
    method Push(completion: Completion, waiting: Waiting)
      requires C.Inv(model) && Fields(model) && waiting.number == |model.waiters|
      requires var t := C.Submitted(model); Shape(t.free, t.slots, t.waiters)
      requires completion.list.item == Acquired(model)
      modifies this`kernel, this`model
      ensures Valid() && model == C.Submitted(old(model))
    {
      ghost var t := C.Submitted(model);
      SubmittedShape(model);
      C.SubmitKeepsInv(model);
      PushRequest(C.Operation(completion.list.item, waiting.number, false), t);
    }

    method PushRequest(request: C.Request, ghost t: C.Selector)
      requires Fields(model) && Shape(t.free, t.slots, t.waiters) && C.Inv(t) && t.kernel == model.kernel + [request]
      requires t.queue == model.queue && t.registered == model.registered && t.delivered == model.delivered
      modifies this`kernel, this`model
      ensures Valid() && model == t
    {
      kernel := kernel + [request];
      Become(t);
    }

    /** A fiber acquires a slot for its record and submits an operation that carries it. */
    method Submit(waiting: Waiting)
      requires Valid() && waiting !in records && waiting.number == |records| && waiting.fiber
      modifies this`completions, this`links, this`records, this`kernel, this`model
      modifies SetOf(links), SetOf(completions)`waiting, waiting`completion
      ensures Valid() && model == C.Submitted(old(model))
      ensures records == old(records) + [waiting]
      ensures waiting.completion != null && waiting.completion in completions && waiting.completion.waiting == waiting
      ensures kernel == old(kernel) + [C.Operation(waiting.completion.list.item, waiting.number, false)]
    {
      ghost var c := S.SubmitStarts(model);
      assert waiting.number == |model.waiters|;
      Start(waiting);
      PointersAt(waiting, c, model.free, model.slots, model.waiters);
    }

    method Start(waiting: Waiting)
      requires Valid() && waiting !in records && waiting.number == |records| == |model.waiters| && waiting.fiber
      modifies this`completions, this`links, this`records, this`kernel, this`model
      modifies SetOf(links), SetOf(completions)`waiting, waiting`completion
      ensures Valid() && model == C.Submitted(old(model))
      ensures records == old(records) + [waiting]
    {
      var completion := Acquire(waiting);
      Push(completion, waiting);
    }

    lemma PointersAt(waiting: Waiting, c: nat, free: seq<nat>, slots: seq<Option<nat>>, waiters: seq<Option<nat>>)
      requires Shape(free, slots, waiters) && waiting.number < |records| && records[waiting.number] == waiting
      requires waiters[waiting.number] == Some(c) && c < |slots| && slots[c] == Some(waiting.number)
      ensures waiting.completion != null && waiting.completion in completions && waiting.completion.waiting == waiting
      ensures waiting.completion.list.item == c
    {
    }

    // ----- Leaving -----

    /** The slot and the record forget each other. */
    method Part(waiting: Waiting, completion: Completion, ghost c: nat, ghost free: seq<nat>,
                ghost slots: seq<Option<nat>>, ghost waiters: seq<Option<nat>>)
      requires c < |completions| && completions[c] == completion && completion.waiting == waiting
      requires Shape(free, slots, waiters) && C.Links(slots, waiters)
      modifies completion`waiting, waiting`completion
      ensures c < |slots| && waiting.number < |waiters| && slots[c] == Some(waiting.number)
      ensures Shape(free, slots[c := None], waiters[waiting.number := None])
      ensures completion.waiting == null
    {
      assert slots[c].Some? && records[slots[c].value] == waiting && waiting.number == slots[c].value;
      completion.waiting := null;
      waiting.completion := null;
    }

    /** IO_Event_Selector_URing_Waiting_cancel. */
    method WaitingCancel(waiting: Waiting, ghost t: C.Selector)
      requires Shape(model.free, model.slots, model.waiters) && C.Linked(model) && waiting in records
      requires waiting.number < |model.waiters| && Fields(t)
      requires var d := C.Detach(model, waiting.number);
               t.free == d.free && t.slots == d.slots && t.waiters == d.waiters
      modifies waiting, SetOf(completions)`waiting
      ensures Shape(t.free, t.slots, t.waiters) && Fields(t)
      ensures waiting.completion == null && !waiting.fiber
      ensures old(waiting.completion) != null ==> old(waiting.completion).waiting == null
    {
      RecordAt(waiting);
      if waiting.completion != null {
        Part(waiting, waiting.completion, model.waiters[waiting.number].value, model.free, model.slots, model.waiters);
      }
      ClearFiber(waiting, t.free, t.slots, t.waiters);
    }

    lemma RecordAt(waiting: Waiting)
      requires Shape(model.free, model.slots, model.waiters) && C.Linked(model) && waiting in records
      ensures waiting.number < |records| == |model.waiters| && records[waiting.number] == waiting
      ensures match model.waiters[waiting.number]
              case None => waiting.completion == null
              case Some(c) => c < |completions| && waiting.completion == completions[c] && waiting.fiber
                              && completions[c].waiting == waiting
    {
      var w: nat :| w < |records| && records[w] == waiting;
      assert records[w].number == w;
    }

    method ClearFiber(waiting: Waiting, ghost free: seq<nat>, ghost slots: seq<Option<nat>>,
                      ghost waiters: seq<Option<nat>>)
      requires Shape(free, slots, waiters) && waiting in records && waiting.completion == null
      modifies waiting`fiber
      ensures Shape(free, slots, waiters) && !waiting.fiber && waiting.completion == null
    {
      waiting.fiber := false;
    }

    /** If the operation is in progress, a cancel request for whatever carries its slot is submitted at once. */
    method PushCancel(waiting: Waiting, cancel: bool, ghost c: Option<nat>, ghost t: C.Selector)
      requires Shape(model.free, model.slots, model.waiters)
      requires waiting.completion == null <==> c.None?
      requires waiting.completion != null ==> waiting.completion.list.item == c.value
      requires t.kernel == if c.Some? && cancel then C.MarkCancelled(kernel, c.value) + [C.CancelRequest] else kernel
      requires t.queue == queue && t.registered == wakeupRegistered && Resumptions(t.delivered) == resumed
      modifies this`kernel
      ensures Shape(model.free, model.slots, model.waiters) && Fields(t)
    {
      if waiting.completion != null && cancel {
        kernel := C.MarkCancelled(kernel, waiting.completion.list.item) + [C.CancelRequest];
      }
    }

    lemma CancelFits(waiting: Waiting, cancel: bool)
      requires Valid() && waiting in records && waiting.number < |model.waiters|
      ensures var t, c := C.Left(model, waiting.number, cancel), model.waiters[waiting.number];
              && (waiting.completion == null <==> c.None?)
              && (waiting.completion != null ==> waiting.completion.list.item == c.value)
              && t.kernel ==
                 (if c.Some? && cancel then C.MarkCancelled(kernel, c.value) + [C.CancelRequest] else kernel)
              && t.queue == queue && t.registered == wakeupRegistered && Resumptions(t.delivered) == resumed
              && S.KernelCancels(kernel, t.kernel, waiting.number, waiting.completion != null && cancel)
    {
      RecordAt(waiting);
      S.LeaveCancels(model, waiting.number, cancel);
    }

    /** io_wait_ensure and io_read_ensure (with `cancel`), or process_wait_ensure: the fiber leaves its wait. */
    method Leave(waiting: Waiting, cancel: bool)
      requires Valid() && waiting in records
      modifies this`kernel, this`model, waiting, SetOf(completions)`waiting
      ensures Valid() && waiting.number < |old(model).waiters|
      ensures model == C.Left(old(model), waiting.number, cancel)
      ensures waiting.completion == null && !waiting.fiber
      ensures old(waiting.completion) != null ==> old(waiting.completion).waiting == null
      ensures S.KernelCancels(old(kernel), kernel, waiting.number, old(waiting.completion) != null && cancel)
    {
      RecordAt(waiting);
      ghost var t := C.Left(model, waiting.number, cancel);
      LeftSound(model, waiting.number, cancel);
      CancelFits(waiting, cancel);
      PushCancel(waiting, cancel, model.waiters[waiting.number], t);
      WaitingCancel(waiting, t);
      Become(t);
    }

    // ----- Completions -----

    /** IO_Event_Selector_URing_Completion_cancel. */
    method CompletionCancel(completion: Completion, ghost c: nat, ghost free: seq<nat>, ghost slots: seq<Option<nat>>,
                            ghost waiters: seq<Option<nat>>)
      requires c < |completions| && completions[c] == completion
      requires Shape(free, slots, waiters) && C.Links(slots, waiters)
      modifies completion`waiting, SetOf(records)`completion
      ensures c < |slots| && (slots[c].Some? ==> slots[c].value < |waiters|)
      ensures Shape(free, slots[c := None], if slots[c].Some? then waiters[slots[c].value := None] else waiters)
    {
      if completion.waiting != null {
        assert completion.waiting.number == slots[c].value;
        Part(completion.waiting, completion, c, free, slots, waiters);
      } else {
        assert slots[c := None] == slots;
      }
    }

    /** IO_Event_Selector_URing_Completion_release. */
    method Release(completion: Completion, ghost c: nat, ghost m: C.Selector, ghost t: C.Selector)
      requires c < |completions| && completions[c] == completion && c !in m.free && Frees(m, c, t)
      requires Shape(m.free, m.slots, m.waiters) && C.Links(m.slots, m.waiters)
      modifies this`links, completion`waiting, SetOf(records)`completion, SetOf(links), completion.list
      ensures Shape(t.free, t.slots, t.waiters)
    {
      CompletionCancel(completion, c, m.free, m.slots, m.waiters);
      assert m.slots[c].None? ==> m.slots[c := None] == m.slots;
      PrependFree(completion, c, m.free, t.slots, t.waiters);
    }

    method PrependFree(completion: Completion, ghost c: nat, ghost free: seq<nat>, ghost slots: seq<Option<nat>>,
                       ghost waiters: seq<Option<nat>>)
      requires c < |completions| && completions[c] == completion && c !in free && Shape(free, slots, waiters)
      modifies this`links, SetOf(links), completion.list
      ensures Shape([c] + free, slots, waiters)
    {
      Prepend(freeList, completion.list, links, 1);
      FreeListGrows(freeList, links, completions, free, c);
      links := Inserted(links, 1, completion.list);
    }

    /** The record of a fiber that still waits and finds `result` in it; or nobody waits. */
    ghost predicate Finds(waiting: Waiting?, result: int)
      reads (if waiting == null then {} else {waiting})`fiber, (if waiting == null then {} else {waiting})`result
    {
      waiting != null ==> waiting.fiber && waiting.result == result
    }

    ghost function DeliveredTo(waiting: Waiting?, result: int): seq<C.Delivery> {
      if waiting == null then [] else [C.Delivery(waiting.number, waiting.number, result)]
    }

    /** The result is stored in the record the slot points to, if any; that record's fiber is waiting. */
    method StoreResult(completion: Completion, result: int, ghost c: nat) returns (waiting: Waiting?)
      requires c < |completions| && completions[c] == completion && c < |model.slots|
      requires Shape(model.free, model.slots, model.waiters) && C.Links(model.slots, model.waiters)
      modifies SetOf(records)`result
      ensures Shape(model.free, model.slots, model.waiters)
      ensures Finds(waiting, result) && DeliveredTo(waiting, result) == Delivered(model, c, result)
    {
      Attached(completion, c);
      waiting := completion.waiting;
      if waiting != null {
        waiting.result := result;
      }
    }

    /** Resumes the fiber, if it still waits; it finds the result in its record. */
    method Resume(waiting: Waiting?, ghost result: int, ghost m: C.Selector, ghost t: C.Selector)
      requires resumed == Resumptions(m.delivered) && Shape(t.free, t.slots, t.waiters)
      requires queue == t.queue && kernel == t.kernel && wakeupRegistered == t.registered
      requires Finds(waiting, result) && t.delivered == m.delivered + DeliveredTo(waiting, result)
      modifies this`resumed
      ensures Shape(t.free, t.slots, t.waiters) && Fields(t)
    {
      if waiting != null && waiting.fiber {
        resumed := resumed + [(waiting.number, waiting.result)];
      }
    }

    /** The completion of an operation: the result goes to the record the slot points to, the slot is released, and
        then the fiber of that record is resumed. */
    method Complete(completion: Completion, result: int, ghost c: nat, ghost t: C.Selector)
      requires c < |completions| && completions[c] == completion && c !in model.free && Frees(model, c, t)
      requires Shape(model.free, model.slots, model.waiters) && C.Links(model.slots, model.waiters)
      requires resumed == Resumptions(model.delivered)
      requires t.delivered == model.delivered + Delivered(model, c, result)
      requires queue == t.queue && kernel == t.kernel && wakeupRegistered == t.registered
      modifies this`links, this`resumed, completion`waiting, SetOf(records)`completion, SetOf(records)`result
      modifies SetOf(links), completion.list
      ensures Shape(t.free, t.slots, t.waiters) && Fields(t)
    {
      var waiting := StoreResult(completion, result, c);
      ReleaseAndResume(waiting, completion, result, c, t);
    }

    method ReleaseAndResume(waiting: Waiting?, completion: Completion, ghost result: int, ghost c: nat,
                            ghost t: C.Selector)
      requires c < |completions| && completions[c] == completion && c !in model.free && Frees(model, c, t)
      requires Shape(model.free, model.slots, model.waiters) && C.Links(model.slots, model.waiters)
      requires Finds(waiting, result) && t.delivered == model.delivered + DeliveredTo(waiting, result)
      requires resumed == Resumptions(model.delivered)
      requires queue == t.queue && kernel == t.kernel && wakeupRegistered == t.registered
      modifies this`links, this`resumed, completion`waiting, SetOf(records)`completion
      modifies SetOf(links), completion.list
      ensures Shape(t.free, t.slots, t.waiters) && Fields(t)
    {
      Release(completion, c, model, t);
      Resume(waiting, result, model, t);
    }

    lemma Attached(completion: Completion, c: nat)
      requires c < |completions| && completions[c] == completion && c < |model.slots|
      requires Shape(model.free, model.slots, model.waiters) && C.Links(model.slots, model.waiters)
      ensures match model.slots[c]
              case None => completion.waiting == null
              case Some(w) => completion.waiting != null && completion.waiting in records
                              && completion.waiting.number == w && completion.waiting.fiber
    {
    }

    /** io_uring_cq_advance. */
    method Advance() returns (entry: C.Entry)
      requires Fields(model) && Shape(model.free, model.slots, model.waiters) && queue != []
      modifies this`queue
      ensures entry == model.queue[0] && queue == model.queue[1..] && kernel == model.kernel
      ensures wakeupRegistered == model.registered && resumed == Resumptions(model.delivered)
      ensures Shape(model.free, model.slots, model.waiters)
    {
      entry := queue[0];
      queue := queue[1..];
    }

    /** An entry of no operation: the interrupt read completed, or a cancel request. */
    method Ignore(interrupt: bool, ghost t: C.Selector)
      requires Shape(model.free, model.slots, model.waiters)
      requires t.free == model.free && t.slots == model.slots && t.waiters == model.waiters
      requires queue == t.queue && kernel == t.kernel && resumed == Resumptions(t.delivered)
      requires wakeupRegistered == model.registered && t.registered == (model.registered && !interrupt)
      modifies this`wakeupRegistered
      ensures Shape(t.free, t.slots, t.waiters) && Fields(t)
    {
      if interrupt {
        wakeupRegistered := false;
      }
    }

    /** What an entry taken from the completion queue brings about. */
    method HandleEntry(entry: C.Entry, ghost t: C.Selector)
      requires Shape(model.free, model.slots, model.waiters) && C.Links(model.slots, model.waiters)
      requires Follows(model, entry, t) && C.Inv(t)
      requires queue == t.queue && kernel == model.kernel && wakeupRegistered == model.registered
      requires resumed == Resumptions(model.delivered)
      modifies this`links, this`resumed, this`wakeupRegistered, this`model, SetOf(completions)`waiting, SetOf(records)
      modifies SetOf(links), Nodes(completions)
      ensures Valid() && model == t
    {
      if entry.request.Operation? {
        var completion := completions[entry.request.slot];
        Complete(completion, entry.result, entry.request.slot, t);
      } else {
        Ignore(entry.request.InterruptRead?, t);
      }
      Become(t);
    }

    /** select_process_completions, for the entry at the head of the completion queue. */
    method Process()
      requires Valid() && queue != []
      modifies this`links, this`queue, this`resumed, this`wakeupRegistered, this`model
      modifies SetOf(completions)`waiting, SetOf(records), SetOf(links), Nodes(completions)
      ensures Valid() && old(model).queue != [] && model == C.Processed(old(model))
      ensures old(queue) == [old(queue)[0]] + queue
      ensures wakeupRegistered == (old(wakeupRegistered) && !old(queue)[0].request.InterruptRead?)
      ensures FirstInLine(old(queue)[0].request)
      ensures resumed == old(resumed) + old(Resumed())
    {
      S.ProcessDelivers(model);
      HeadResumes(model);
      ProcessEntry();
      if old(queue)[0].request.Operation? { Reclaimed(old(queue)[0].request.slot, model); }
    }

    /** The slot of an operation points to nobody and is the first that a submission takes. */
    ghost predicate FirstInLine(request: C.Request)
      reads this`completions, SetOf(completions)`waiting, freeList`tail
    {
      match request
      case Operation(c, _, _) =>
        c < |completions| && completions[c].waiting == null && freeList.tail == completions[c].list
      case _ => true
    }

    method ProcessEntry()
      requires Valid() && queue != []
      modifies this`links, this`queue, this`resumed, this`wakeupRegistered, this`model
      modifies SetOf(completions)`waiting, SetOf(records), SetOf(links), Nodes(completions)
      ensures Valid() && old(model).queue != [] && model == C.Processed(old(model))
    {
      ProcessedSound(model);
      ProcessedFields(model);
      ProcessHead(C.Processed(model));
    }

    /** What processing the head of the queue resumes: the fiber that submitted it, if it waits. */
    ghost function Resumed(): seq<(nat, int)>
      requires queue != []
      reads this`queue, this`completions, SetOf(completions)`waiting
    {
      match queue[0].request
      case Operation(c, w, _) =>
        if c < |completions| && completions[c].waiting != null then [(w, queue[0].result)] else []
      case _ => []
    }

    lemma HeadResumes(m: C.Selector)
      requires C.Inv(m) && m.queue == queue != [] && SlotPointers(completions, records, m.slots)
      ensures Resumptions(C.Processed(m).delivered) == Resumptions(m.delivered) + Resumed()
    {
      var served := HeadServed(m);
      ServedIsResumed(m, served);
      ResumptionsThen(m.delivered, served);
    }

    lemma ServedIsResumed(m: C.Selector, served: seq<C.Delivery>)
      requires C.Inv(m) && m.queue == queue != [] && SlotPointers(completions, records, m.slots)
      requires match m.queue[0].request
               case Operation(_, w, _) =>
                 && w < |m.waiters|
                 && served == if m.waiters[w].Some? then [C.Delivery(w, w, m.queue[0].result)] else []
               case _ => served == []
      ensures Resumptions(served) == Resumed()
    {
      HeadOwned(m);
      HeadAttached(m.slots, m.waiters, m.queue[0].request);
    }

    lemma HeadServed(m: C.Selector) returns (served: seq<C.Delivery>)
      requires C.Inv(m) && m.queue != []
      ensures C.Processed(m).delivered == m.delivered + served
      ensures match m.queue[0].request
              case Operation(_, w, _) =>
                && w < |m.waiters|
                && served == if m.waiters[w].Some? then [C.Delivery(w, w, m.queue[0].result)] else []
              case _ => served == []
    {
      S.ProcessDelivers(m);
      served := C.Processed(m).delivered[|m.delivered|..];
    }

    lemma HeadOwned(m: C.Selector)
      requires C.Inv(m) && m.queue != []
      ensures C.Links(m.slots, m.waiters) && C.Owned(m.slots, m.waiters, m.queue[0].request)
    {
      assert m.queue[0] in m.queue;
    }

    lemma HeadAttached(slots: seq<Option<nat>>, waiters: seq<Option<nat>>, r: C.Request)
      requires SlotPointers(completions, records, slots) && C.Links(slots, waiters) && C.Owned(slots, waiters, r)
      ensures r.Operation? ==>
                r.slot < |completions| && (completions[r.slot].waiting != null <==> waiters[r.owner].Some?)
    {
    }

    /** A slot that is first on the free list of `m` is there in the structures, and points to nobody. */
    lemma Reclaimed(c: nat, m: C.Selector)
      requires Shape(m.free, m.slots, m.waiters) && m.free != [] && m.free[0] == c
      requires c < |m.slots| && m.slots[c] == None
      ensures c < |completions| && completions[c].waiting == null && freeList.tail == completions[c].list
    {
      assert links[0].tail == After(links, 0);
    }

    method ProcessHead(ghost t: C.Selector)
      requires Fields(model) && Shape(model.free, model.slots, model.waiters) && C.Links(model.slots, model.waiters)
      requires model.queue != [] && Follows(model, model.queue[0], t) && t.queue == model.queue[1..] && C.Inv(t)
      modifies this`links, this`queue, this`resumed, this`wakeupRegistered, this`model
      modifies SetOf(completions)`waiting, SetOf(records), SetOf(links), Nodes(completions)
      ensures Valid() && model == t
    {
      var entry := Advance();
      HandleEntry(entry, t);
    }

    // ----- The kernel, and the interrupt read -----

    method SetRing(kernel: seq<C.Request>, queue: seq<C.Entry>, registered: bool, ghost t: C.Selector)
      requires Shape(t.free, t.slots, t.waiters) && C.Inv(t)
      requires kernel == t.kernel && queue == t.queue && registered == t.registered
      requires resumed == Resumptions(t.delivered)
      modifies this`kernel, this`queue, this`wakeupRegistered, this`model
      ensures Valid() && model == t
    {
      this.kernel, this.queue, wakeupRegistered := kernel, queue, registered;
      Become(t);
    }

    /** The kernel completes a request it holds. */
    method Finish(index: nat, result: int)
      requires Valid() && C.Enabled(model, C.Finish(index, result))
      modifies this`kernel, this`queue, this`wakeupRegistered, this`model
      ensures Valid() && old(C.Enabled(model, C.Finish(index, result)))
      ensures model == C.Next(old(model), C.Finish(index, result))
      ensures kernel == old(kernel)[..index] + old(kernel)[index + 1..]
      ensures queue == old(queue) + [C.Entry(old(kernel)[index], result)] && wakeupRegistered == old(wakeupRegistered)
    {
      ghost var t := C.Next(model, C.Finish(index, result));
      C.FinishKeepsInv(model, index, result);
      SetRing(kernel[..index] + kernel[index + 1..], queue + [C.Entry(kernel[index], result)], wakeupRegistered, t);
    }

    /** select_internal_without_gvl submits the interrupt read unless one is outstanding. */
    method Block()
      requires Valid()
      modifies this`kernel, this`queue, this`wakeupRegistered, this`model
      ensures Valid() && model == C.Next(old(model), C.Block)
      ensures wakeupRegistered && queue == old(queue)
      ensures kernel == old(kernel) + if old(wakeupRegistered) then [] else [C.InterruptRead]
    {
      ghost var t := C.Next(model, C.Block);
      C.BlockKeepsInv(model);
      if !wakeupRegistered {
        SetRing(kernel + [C.InterruptRead], queue, true, t);
      }
    }
  }
}
