/** The shared state of ext/io/event/worker_pool.c with its pointers: stack-allocated items linked into a queue,
    and the critical sections that move them, each proved to be one step of module WorkerPool. */
module WorkQueue {
  import opened Collections
  import opened Optional
  import opened WorkerPool

  /** One work item; `number` is the order in which it was enqueued. */
  class Item {
    const number: nat
    var completed: bool
    var next: Item?

    constructor (number: nat)
      ensures this.number == number && !completed && next == null
    {
      this.number := number;
      completed := false;
      next := null;
    }
  }

  ghost function Following(items: seq<Item>, i: nat): Item?
    requires i < |items|
  {
    if i + 1 < |items| then items[i + 1] else null
  }

  /** `enqueue_work` and `dequeue_work` over the two end pointers. */
  class Queue {
    var head: Item?
    var tail: Item?
    ghost var items: seq<Item>

    ghost predicate Valid()
      reads this, items
    {
      && (forall i, j | 0 <= i < j < |items| :: items[i] != items[j])
      && (items == [] ==> head == null && tail == null)
      && (items != [] ==> head == items[0] && tail == items[|items| - 1])
      && (forall i | 0 <= i < |items| :: items[i].next == Following(items, i))
    }

    constructor ()
      ensures Valid() && items == []
    {
      head, tail, items := null, null, [];
    }

    method Enqueue(work: Item)
      requires Valid() && work !in items && work.next == null
      modifies this, (if tail == null then {} else {tail})`next
      ensures Valid() && items == old(items) + [work]
    {
      if tail != null {
        tail.next := work;
      } else {
        head := work;
      }
      tail := work;
      items := items + [work];
    }

    method Dequeue() returns (work: Item?)
      requires Valid()
      modifies this, SetOf(items)`next
      ensures Valid()
      ensures old(items) == [] ==> work == null && items == []
      ensures old(items) != [] ==> work == old(items)[0] && work.next == null && items == old(items)[1..]
    {
      work := head;
      if work != null {
        assert work.next == Following(items, 0);
        head := work.next;
        ghost var rest := items[1..];
        forall i | 0 <= i < |rest| ensures rest[i] != work && rest[i].next == Following(rest, i) {
          assert items[i + 1].next == Following(items, i + 1);
        }
        items := rest;
        if head == null {
          tail := null;
        }
        work.next := null;
      }
    }
  }

  /** The queued items are the ones the queue of the model numbers; no field is read. */
  ghost predicate QueuedAs(queued: seq<Item>, items: seq<Item>, numbers: seq<nat>) {
    && |numbers| == |queued|
    && forall k | 0 <= k < |queued| :: queued[k].number == numbers[k] < |items| && items[numbers[k]] == queued[k]
  }

  lemma QueuedAreOld(queued: seq<Item>, items: seq<Item>, numbers: seq<nat>)
    requires QueuedAs(queued, items, numbers)
    ensures forall item | item in queued :: item in items
  {
  }

  lemma QueuedThen(queued: seq<Item>, items: seq<Item>, numbers: seq<nat>, work: Item)
    requires QueuedAs(queued, items, numbers) && work.number == |items|
    ensures QueuedAs(queued + [work], items + [work], numbers + [|items|])
  {
  }

  lemma QueuedRest(queued: seq<Item>, items: seq<Item>, numbers: seq<nat>)
    requires QueuedAs(queued, items, numbers)
    ensures queued != [] ==> queued[0].number == numbers[0] && QueuedAs(queued[1..], items, numbers[1..])
  {
  }

  /** What a broadcast does to a worker. */
  function Roused(worker: Worker): Worker {
    if worker.place.Parked? then Worker(Woken, worker.interrupted) else worker
  }

  /** A worker that has noted an operation carries its item. */
  ghost predicate Busy(current: seq<Option<nat>>, workers: seq<Worker>) {
    && |current| == |workers|
    && forall i | 0 <= i < |workers| && current[i].Some? ::
         workers[i].place.Holding? && workers[i].place.work == current[i].value
  }

  lemma WakingKeepsBusy(current: seq<Option<nat>>, workers: seq<Worker>, who: set<nat>)
    requires Busy(current, workers)
    ensures Busy(current, Wake(workers, who))
  {
  }

  lemma MovingKeepsBusy(current: seq<Option<nat>>, workers: seq<Worker>, i: nat, worker: Worker)
    requires Busy(current, workers) && i < |workers|
    requires current[i].Some? ==> worker.place.Holding? && worker.place.work == current[i].value
    ensures Busy(current, workers[i := worker])
  {
  }

  class SharedPool {
    const queue: Queue
    var shutdown: bool
    var callCount: nat
    var completedCount: nat
    var workers: seq<Worker>
    /** Which item's operation each worker has noted as its current one, while it runs. */
    var current: seq<Option<nat>>
    /** The items for which the scheduler was asked to unblock the calling fiber, and those whose running operation was
        asked to stop, in order. */
    var unblocked: seq<nat>
    var cancelled: seq<nat>
    /** Every item ever enqueued, in order. */
    ghost var items: seq<Item>
    /** The state of module WorkerPool that the fields stand for. */
    ghost var model: Pool

    ghost predicate Valid()
      reads this, queue, queue.items, items
    {
      queue.Valid() && Models(model) && Inv(model) && Busy(current, workers)
    }

    /** The fields stand for `m`. */
    ghost predicate Models(m: Pool)
      reads this`shutdown, this`callCount, this`completedCount, this`workers, this`items, queue`items
      reads SetOf(items)`completed
    {
      && QueuedAs(queue.items, items, m.queue)
      && ItemsModelled(m.works)
      && m.workers == workers && m.shutdown == shutdown && m.completedCount == completedCount
    }

    ghost predicate ItemsModelled(works: seq<Work>)
      reads this`callCount, this`items, SetOf(items)`completed
    {
      && callCount == |items| == |works|
      && forall i | 0 <= i < |items| :: items[i].number == i && items[i].completed == works[i].completed
    }

    constructor (count: nat)
      ensures Valid() && fresh(queue) && model == Initial(count)
    {
      RunKeepsInv(count, []);
      queue := new Queue();
      shutdown := false;
      callCount, completedCount := 0, 0;
      workers, current := Initial(count).workers, seq(count, _ => None);
      unblocked, cancelled := [], [];
      items, model := [], Initial(count);
    }

    /** worker_pool_call up to the unlock; `signalled` is the choice the condition variable makes. */
    method Call(signalled: set<nat>) returns (work: Item)
      requires Valid() && Enabled(model, Action.Call(signalled))
      modifies this`callCount, this`workers, this`items, this`model, queue, SetOf(items)`next
      ensures Valid() && model == Next(old(model), Action.Call(signalled))
      ensures fresh(work) && items == old(items) + [work] && queue.items == old(queue.items) + [work]
      ensures callCount == old(callCount) + 1 && work.number == old(|items|) && !work.completed
      ensures |workers| == old(|workers|)
      ensures forall i | 0 <= i < |workers| ::
                workers[i] == if i in signalled then Worker(Woken, old(workers[i].interrupted)) else old(workers[i])
    {
      work := new Item(callCount);
      Post(work, signalled);
    }

    method Post(work: Item, signalled: set<nat>)
      requires Valid() && Enabled(model, Action.Call(signalled))
      requires work !in items && work !in queue.items && work.number == callCount
      requires work.next == null && !work.completed
      modifies this`callCount, this`workers, this`items, this`model, queue, SetOf(items)`next
      ensures Valid() && model == Next(old(model), Action.Call(signalled))
      ensures items == old(items) + [work] && queue.items == old(queue.items) + [work]
      ensures callCount == old(callCount) + 1 && workers == old(Wake(workers, signalled))
    {
      ghost var m := Called(signalled);
      QueuedThen(queue.items, items, model.queue, work);
      Enlist(work);
      Move(Wake(workers, signalled), m);
    }

    lemma Called(signalled: set<nat>) returns (m: Pool)
      requires Valid() && Enabled(model, Action.Call(signalled))
      ensures m == Next(model, Action.Call(signalled)) && Inv(m) && Busy(current, m.workers)
      ensures m.queue == model.queue + [|items|] && m.works == model.works + [Work(0, false, false)]
      ensures m.workers == Wake(workers, signalled)
      ensures m.shutdown == shutdown && m.completedCount == completedCount
    {
      m := Next(model, Action.Call(signalled));
      StepKeepsInv(model, Action.Call(signalled));
      WakingKeepsBusy(current, workers, signalled);
    }

    /** enqueue_work, and the number of calls. */
    method Enlist(work: Item)
      requires Valid() && work !in items && work !in queue.items && work.next == null && !work.completed
      requires work.number == |items| && QueuedAs(queue.items + [work], items + [work], model.queue + [|items|])
      modifies this`callCount, this`items, queue, SetOf(items)`next
      ensures queue.Valid() && QueuedAs(queue.items, items, model.queue + [old(|items|)])
      ensures queue.items == old(queue.items) + [work] && callCount == old(callCount) + 1
      ensures items == old(items) + [work] && ItemsModelled(model.works + [Work(0, false, false)])
    {
      assert queue.tail != null ==> queue.tail in queue.items;
      QueuedAreOld(queue.items, items, model.queue);
      callCount := callCount + 1;
      items := items + [work];
      assert ItemsModelled(model.works + [Work(0, false, false)]);
      queue.Enqueue(work);
    }

    /** The workers are where `m` has them; everything else is as in `m` already. */
    method Move(workers: seq<Worker>, ghost m: Pool)
      requires queue.Valid() && QueuedAs(queue.items, items, m.queue) && ItemsModelled(m.works)
      requires m.workers == workers && m.shutdown == shutdown && m.completedCount == completedCount
      requires Inv(m) && Busy(current, workers)
      modifies this`workers, this`model
      ensures Valid() && model == m
    {
      this.workers := workers;
      Become(m);
    }

    ghost method Become(m: Pool)
      requires queue.Valid() && QueuedAs(queue.items, items, m.queue) && ItemsModelled(m.works)
      requires m.workers == workers && m.shutdown == shutdown && m.completedCount == completedCount
      requires Inv(m) && Busy(current, workers)
      modifies this`model
      ensures Valid() && model == m
    {
      model := m;
    }

    /** One pass of worker `i` through the locked region: park, leave, or take the front item. */
    method Check(i: nat) returns (work: Item?)
      requires Valid() && Enabled(model, Action.Check(i))
      modifies this`workers, this`model, queue, SetOf(items)`next
      ensures Valid() && items == old(items) && model == Next(old(model), Action.Check(i))
      ensures work != null ==> work in items
      ensures old(shutdown || workers[i].interrupted) ==>
                work == null && workers == old(workers[i := workers[i].(place := Exited)])
                && queue.items == old(queue.items)
      ensures old(!shutdown && !workers[i].interrupted && queue.items == []) ==>
                work == null && workers == old(workers[i := workers[i].(place := Parked)]) && queue.items == []
      ensures old(!shutdown && !workers[i].interrupted && queue.items != []) ==>
                work == old(queue.items[0]) && queue.items == old(queue.items[1..])
                && workers == old(workers)[i := Worker(Holding(work.number, false), false)]
    {
      StepKeepsInv(model, Action.Check(i));
      MovingKeepsBusy(current, workers, i, workers[i].(place := Exited));
      if shutdown || workers[i].interrupted {
        work := null;
        Move(workers[i := workers[i].(place := Exited)], Next(model, Action.Check(i)));
      } else {
        work := TakeOrPark(i);
      }
    }

    method TakeOrPark(i: nat) returns (work: Item?)
      requires Valid() && Enabled(model, Action.Check(i)) && !shutdown && !workers[i].interrupted
      modifies this`workers, this`model, queue, SetOf(items)`next
      ensures Valid() && items == old(items) && model == Next(old(model), Action.Check(i))
      ensures work != null ==> work in items
      ensures old(queue.items) == [] ==>
                work == null && workers == old(workers[i := workers[i].(place := Parked)]) && queue.items == []
      ensures old(queue.items) != [] ==>
                work == old(queue.items[0]) && queue.items == old(queue.items[1..])
                && workers == old(workers)[i := Worker(Holding(work.number, false), false)]
    {
      QueuedAreOld(queue.items, items, model.queue);
      QueuedRest(queue.items, items, model.queue);
      StepKeepsInv(model, Action.Check(i));
      MovingKeepsBusy(current, workers, i, Next(model, Action.Check(i)).workers[i]);
      work := queue.Dequeue();
      var place := if work == null then Parked else Holding(work.number, false);
      Move(workers[i := workers[i].(place := place)], Next(model, Action.Check(i)));
    }

    /** Before it runs an operation the worker notes it. */
    method Begin(i: nat, work: Item)
      requires Valid() && i < |workers| && work in items && workers[i].place == Holding(work.number, false)
      modifies this`current
      ensures Valid() && current == old(current)[i := Some(work.number)]
    {
      current := current[i := Some(work.number)];
    }

    /** The blocking operation of the item that worker `i` carries has run. */
    method Execute(i: nat, work: Item)
      requires Valid() && Enabled(model, Action.Execute(i))
      requires work in items && current[i] == Some(work.number)
      modifies this`workers, this`model
      ensures Valid() && items == old(items) && model == Next(old(model), Action.Execute(i))
      ensures workers == old(workers[i := Worker(Holding(work.number, true), workers[i].interrupted)])
    {
      StepKeepsInv(model, Action.Execute(i));
      MovingKeepsBusy(current, workers, i, workers[i].(place := Holding(work.number, true)));
      Move(workers[i := workers[i].(place := Holding(work.number, true))], Next(model, Action.Execute(i)));
    }

    /** After it the worker has no current operation. */
    method End(i: nat)
      requires Valid() && i < |workers|
      modifies this`current
      ensures Valid() && current == old(current)[i := None]
    {
      current := current[i := None];
    }

    /** worker_thread_func after the operation, with the global lock: the item is completed before its fiber is
        unblocked. */
    method Complete(i: nat, work: Item)
      requires Valid() && Enabled(model, Action.Complete(i))
      requires work in items && workers[i].place == Holding(work.number, true) && current[i].None?
      modifies this`workers, this`completedCount, this`unblocked, this`model, work`completed
      ensures Valid() && items == old(items) && model == Next(old(model), Action.Complete(i))
      ensures work.completed && unblocked == old(unblocked) + [work.number]
      ensures completedCount == old(completedCount) + 1
      ensures workers == old(workers[i := Worker(Ready, workers[i].interrupted)])
    {
      ghost var m := Next(model, Action.Complete(i));
      StepKeepsInv(model, Action.Complete(i));
      MovingKeepsBusy(current, workers, i, workers[i].(place := Ready));
      assert m.works == model.works[work.number := model.works[work.number].(completed := true)];
      MarkCompleted(work);
      Move(workers[i := workers[i].(place := Ready)], m);
    }

    method MarkCompleted(work: Item)
      requires work in items && ItemsModelled(model.works)
      modifies work`completed, this`completedCount, this`unblocked
      ensures work.number < |model.works|
      ensures ItemsModelled(model.works[work.number := model.works[work.number].(completed := true)])
      ensures work.completed && completedCount == old(completedCount) + 1 && unblocked == old(unblocked) + [work.number]
    {
      work.completed := true;
      completedCount := completedCount + 1;
      unblocked := unblocked + [work.number];
    }

    /** worker_unblock_func up to the unlock. */
    method Interrupt(i: nat)
      requires Valid() && Enabled(model, Action.Interrupt(i))
      modifies this`workers, this`model
      ensures Valid() && items == old(items) && model == Next(old(model), Action.Interrupt(i))
      ensures |workers| == old(|workers|)
      ensures forall j | 0 <= j < |workers| ::
                workers[j] == Roused(old(workers[j])).(interrupted := j == i || old(workers[j].interrupted))
    {
      var woken := Broadcast(workers);
      ghost var m := model.(workers := woken[i := woken[i].(interrupted := true)]);
      assert m == Next(model, Action.Interrupt(i));
      StepKeepsInv(model, Action.Interrupt(i));
      WakingKeepsBusy(current, workers, ParkedIn(workers));
      MovingKeepsBusy(current, woken, i, woken[i].(interrupted := true));
      Move(woken[i := woken[i].(interrupted := true)], m);
    }

    /** worker_unblock_func after the unlock, when the worker may have moved on: its current operation, if it has one,
        is asked to stop. That is the operation of an item which this worker and no other carries, and which is not
        completed, so its caller still waits. */
    method CancelCurrent(i: nat)
      requires Valid() && i < |workers|
      modifies this`cancelled
      ensures Valid()
      ensures cancelled == old(cancelled) + if current[i].Some? then [current[i].value] else []
      ensures current[i].Some? ==>
                var n := current[i].value;
                && n < |items| && !items[n].completed && n !in model.queue
                && forall j: nat :: Holds(model, j, n) <==> j == i
    {
      if current[i].Some? {
        assert Holds(model, i, current[i].value);
        cancelled := cancelled + [current[i].value];
      }
    }

    /** worker_pool_close up to the unlock. */
    method Close()
      requires Valid()
      modifies this`workers, this`shutdown, this`model
      ensures Valid() && items == old(items) && model == Next(old(model), Action.Close)
      ensures shutdown && |workers| == old(|workers|)
      ensures forall j | 0 <= j < |workers| ::
                workers[j] == if old(shutdown) then old(workers[j]) else Roused(old(workers[j]))
    {
      if shutdown {
        return;
      }
      ghost var m := model.(shutdown := true, workers := Broadcast(workers));
      assert m == Next(model, Action.Close);
      StepKeepsInv(model, Action.Close);
      WakingKeepsBusy(current, workers, ParkedIn(workers));
      shutdown := true;
      Move(Broadcast(workers), m);
    }

    /** The calling fiber looks at `completed` after being resumed; `call` returns when it is set. */
    method Unblock(work: Item) returns (done: bool)
      requires Valid() && work in items && Enabled(model, Action.Unblock(work.number))
      modifies this`model
      ensures Valid() && items == old(items) && model == Next(old(model), Action.Unblock(work.number))
      ensures done == work.completed == model.works[work.number].returned
    {
      done := work.completed;
      StepKeepsInv(model, Action.Unblock(work.number));
      Become(Next(model, Action.Unblock(work.number)));
    }
  }
}
