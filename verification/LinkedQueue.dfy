/** The ready queue of ext/io/event/selector/selector.c as linked structures: entries on fiber stacks or on the C heap,
    doubly linked between the two end pointers `waiting` (newest) and `ready` (oldest). */
module LinkedQueue {
  import opened Collections
  import opened ReadyQueue

  class Item {
    var head: Item?
    var tail: Item?
    /** What the entry stands for; `own` distinguishes IO_EVENT_SELECTOR_QUEUE_FIBER from _INTERNAL. */
    const entry: Entry

    constructor (entry: Entry)
      ensures this.entry == entry && head == null && tail == null
    {
      this.entry := entry;
      head, tail := null, null;
    }
  }

  ghost function At(items: seq<Item>, k: int): Item? {
    if 0 <= k < |items| then items[k] else null
  }

  function Before(k: nat, i: int): int {
    if i < k then i else i + 1
  }

  /** `items` lists the queue from the newest; links and ends agree with it, and are null together when it is empty. */
  ghost predicate Chained(items: seq<Item>, waiting: Item?, ready: Item?)
    reads SetOf(items)
  {
    && (forall i, j | 0 <= i < j < |items| :: items[i] != items[j])
    && (forall i {:trigger items[i].head} | 0 <= i < |items| :: items[i].head == At(items, i - 1))
    && (forall i {:trigger items[i].tail} | 0 <= i < |items| :: items[i].tail == At(items, i + 1))
    && waiting == At(items, 0)
    && ready == At(items, |items| - 1)
  }

  /** Once the neighbours of item `k` and the ends point past it, the others form a chain. */
  lemma Relinked(items: seq<Item>, k: nat, waiting: Item?, ready: Item?)
    requires k < |items| && forall i, j | 0 <= i < j < |items| :: items[i] != items[j]
    requires forall i {:trigger items[i].head} | 0 <= i < |items| && i != k ::
               items[i].head == At(items, if i == k + 1 then k - 1 else i - 1)
    requires forall i {:trigger items[i].tail} | 0 <= i < |items| && i != k ::
               items[i].tail == At(items, if i == k - 1 then k + 1 else i + 1)
    requires waiting == At(items, if k == 0 then 1 else 0)
    requires ready == At(items, if k == |items| - 1 then k - 1 else |items| - 1)
    ensures Chained(RemovedAt(items, k), waiting, ready)
  {
    DistinctWithout(items, k);
    LinksWithout(items, k);
  }

  lemma DistinctWithout(items: seq<Item>, k: nat)
    requires k < |items| && forall i, j | 0 <= i < j < |items| :: items[i] != items[j]
    ensures var r := RemovedAt(items, k); forall i, j | 0 <= i < j < |r| :: r[i] != r[j]
  {
    var r := RemovedAt(items, k);
    forall i, j | 0 <= i < j < |r| ensures r[i] != r[j] {
      assert r[i] == items[Before(k, i)] && r[j] == items[Before(k, j)];
    }
  }

  lemma LinksWithout(items: seq<Item>, k: nat)
    requires k < |items|
    requires forall i {:trigger items[i].head} | 0 <= i < |items| && i != k ::
               items[i].head == At(items, if i == k + 1 then k - 1 else i - 1)
    requires forall i {:trigger items[i].tail} | 0 <= i < |items| && i != k ::
               items[i].tail == At(items, if i == k - 1 then k + 1 else i + 1)
    ensures var r := RemovedAt(items, k);
            && (forall i {:trigger r[i].head} | 0 <= i < |r| :: r[i].head == At(r, i - 1))
            && (forall i {:trigger r[i].tail} | 0 <= i < |r| :: r[i].tail == At(r, i + 1))
  {
    var r := RemovedAt(items, k);
    forall i | 0 <= i < |r| ensures r[i].head == At(r, i - 1) && r[i].tail == At(r, i + 1) {
      var j := Before(k, i);
      assert r[i] == items[j];
      assert r[i].head == At(items, if j == k + 1 then k - 1 else j - 1);
      assert r[i].tail == At(items, if j == k - 1 then k + 1 else j + 1);
    }
  }

  ghost predicate Stands(items: seq<Item>, entries: seq<Entry>) {
    |items| == |entries| && forall i | 0 <= i < |items| :: items[i].entry == entries[i]
  }

  /** The items of fibers that wait in `resume`, `yield` or `raise`: their stack frames hold them. */
  ghost predicate Framed(frames: map<nat, Item>, items: seq<Item>) {
    && (forall n | n in items && n.entry.own :: n.entry.id in frames && frames[n.entry.id] == n)
    && (forall id | id in frames :: frames[id] in items && frames[id].entry.own && frames[id].entry.id == id)
  }

  lemma StandsCut(items: seq<Item>, entries: seq<Entry>, k: nat)
    requires Stands(items, entries) && k < |items|
    ensures Stands(RemovedAt(items, k), entries[..k] + entries[k + 1..])
  {
  }

  lemma FramedCut(frames: map<nat, Item>, items: seq<Item>, k: nat)
    requires Framed(frames, items) && k < |items|
    requires forall i, j | 0 <= i < j < |items| :: items[i] != items[j]
    ensures Framed(if items[k].entry.own then frames - {items[k].entry.id} else frames, RemovedAt(items, k))
  {
    var n, r := items[k], RemovedAt(items, k);
    forall i | 0 <= i < |r| ensures r[i] in items && r[i] != n {
      assert r[i] == items[Before(k, i)];
    }
    forall m | m in items && m != n ensures m in r {
      var i :| 0 <= i < |items| && items[i] == m;
      assert r[if i < k then i else i - 1] == m;
    }
  }

  /** Numbers are unique, so one entry is dropped. */
  lemma {:induction false} DroppedAt(entries: seq<Entry>, k: nat, nextId: nat)
    requires Ordered(entries, nextId) && k < |entries| && entries[k].own
    ensures Dropped(entries, entries[k].id) == entries[..k] + entries[k + 1..]
  {
    var id := entries[k].id;
    if k == 0 {
      DroppedNone(entries[1..], id);
      assert entries[..0] + entries[1..] == entries[1..];
    } else {
      var rest := entries[1..];
      DroppedAt(rest, k - 1, nextId);
      assert entries[..k] + entries[k + 1..] == [entries[0]] + (rest[..k - 1] + rest[k..]);
    }
  }

  lemma {:induction false} DroppedNone(entries: seq<Entry>, id: nat)
    requires forall e | e in entries :: e.id != id
    ensures Dropped(entries, id) == entries
  {
    if entries == [] {
    } else {
      DroppedNone(entries[1..], id);
    }
  }

  lemma StandsFirst(items: seq<Item>, item: Item, entries: seq<Entry>)
    requires Stands(items, entries)
    ensures Stands([item] + items, [item.entry] + entries)
  {
  }

  lemma FramedFirst(frames: map<nat, Item>, items: seq<Item>, item: Item)
    requires item !in items && Framed(frames, items) && forall n | n in items :: n.entry.id != item.entry.id
    ensures Framed(if item.entry.own then frames[item.entry.id := item] else frames, [item] + items)
  {
    assert forall n | n in [item] + items :: n == item || n in items;
    assert item in [item] + items;
    assert forall n | n in items :: n in [item] + items;
  }

  lemma NumbersBelow(items: seq<Item>, q: Queue)
    requires Stands(items, q.entries) && Conserved(q)
    ensures forall n | n in items :: n.entry.id < q.nextId
  {
    forall n | n in items ensures n.entry.id < q.nextId {
      var i :| 0 <= i < |items| && items[i] == n;
      assert n.entry == q.entries[i];
    }
  }

  lemma AddedFits(frames: map<nat, Item>, items: seq<Item>, item: Item, q: Queue)
    requires Stands(items, q.entries) && Framed(frames, items) && Conserved(q)
    requires item !in items && item.entry.id == q.nextId
    ensures var m := Added(q, item.entry.fiber, item.entry.own); Stands([item] + items, m.entries) && Conserved(m)
    ensures Framed(if item.entry.own then frames[item.entry.id := item] else frames, [item] + items)
  {
    NumbersBelow(items, q);
    StandsFirst(items, item, q.entries);
    FramedFirst(frames, items, item);
    AddConserves(q, item.entry.fiber, item.entry.own);
  }

  /** A listed record of a fiber is the only item that its departure drops. */
  lemma DepartedFits(items: seq<Item>, item: Item, q: Queue) returns (k: nat)
    requires Stands(items, q.entries) && Conserved(q) && item in items && item.entry.own
    ensures k < |items| && items[k] == item
    ensures var m := Act(q, Depart(item.entry.id));
            && Conserved(m) && m.nextId == q.nextId && m.resumed == q.resumed
            && m.entries == q.entries[..k] + q.entries[k + 1..]
  {
    k :| k < |items| && items[k] == item;
    ActConserves(q, Depart(item.entry.id));
    OwnEntry(items, q.entries, k);
    DroppedAt(q.entries, k, q.nextId);
  }

  lemma OwnEntry(items: seq<Item>, entries: seq<Entry>, k: nat)
    requires Stands(items, entries) && k < |items| && items[k].entry.own
    ensures Present(entries, items[k].entry.id)
  {
    assert entries[k] in entries;
  }

  lemma NoEntry(frames: map<nat, Item>, items: seq<Item>, entries: seq<Entry>, id: nat)
    requires Stands(items, entries) && Framed(frames, items) && id !in frames
    ensures !Present(entries, id)
  {
    forall i | 0 <= i < |entries| ensures !(entries[i].id == id && entries[i].own) {
      assert items[i] in items;
    }
  }

  lemma CutMembers(items: seq<Item>, k: nat)
    requires k < |items| && forall i, j | 0 <= i < j < |items| :: items[i] != items[j]
    ensures forall n | n in RemovedAt(items, k) :: n in items && n != items[k]
  {
    var r := RemovedAt(items, k);
    forall i | 0 <= i < |r| ensures r[i] in items && r[i] != items[k] {
      assert r[i] == items[Before(k, i)];
    }
  }

  lemma CutSet(items: seq<Item>, k: nat)
    requires k < |items| && forall i, j | 0 <= i < j < |items| :: items[i] != items[j]
    ensures SetOf(RemovedAt(items, k)) == SetOf(items) - {items[k]}
  {
    CutMembers(items, k);
    var r := RemovedAt(items, k);
    forall n | n in items && n != items[k] ensures n in r {
      var i :| 0 <= i < |items| && items[i] == n;
      assert r[if i < k then i else i - 1] == n;
    }
  }

  lemma FramedIs(frames: map<nat, Item>, items: seq<Item>, id: nat)
    requires Framed(frames, items) && id in frames
    ensures frames[id] in items && frames[id].entry.own && frames[id].entry.id == id
  {
  }

  /** The newest entry is the only one with its number. */
  lemma NewestFirst(items: seq<Item>, entries: seq<Entry>)
    requires Stands(items, entries) && forall i, j | 0 <= i < j < |entries| :: entries[i].id > entries[j].id
    ensures items != [] ==> items[0].entry == entries[0]
    ensures items != [] ==> forall n | n in items :: n.entry.id == entries[0].id ==> n == items[0]
  {
  }

  class Backend {
    var waiting: Item?
    var ready: Item?
    var frames: map<nat, Item>
    var nextId: nat
    /** The entries whose fibers the loop transferred to, in order. */
    var resumed: seq<nat>

    ghost var items: seq<Item>
    ghost var model: Queue

    ghost predicate Valid()
      reads this, SetOf(items)
    {
      && Chained(items, waiting, ready)
      && Stands(items, model.entries)
      && Framed(frames, items)
      && Conserved(model)
      && nextId == model.nextId
      && resumed == model.resumed
    }

    constructor ()
      ensures Valid() && model == Queue([], 0, [], {})
    {
      waiting, ready, frames, nextId, resumed := null, null, map[], 0, [];
      items, model := [], Queue([], 0, [], {});
    }

    // ----- queue_push and queue_pop -----

    /** queue_push: at the front. */
    method Push(item: Item)
      requires Chained(items, waiting, ready) && item !in items && item.head == null && item.tail == null
      modifies this`waiting, this`ready, this`items, SetOf(items), item
      ensures items == [item] + old(items) && Chained(items, waiting, ready)
    {
      if waiting != null {
        waiting.head := item;
        item.tail := waiting;
      } else {
        ready := item;
      }
      waiting := item;
      items := [item] + items;
    }

    /** queue_pop: from anywhere. */
    method Pop(item: Item, ghost k: nat)
      requires Chained(items, waiting, ready) && k < |items| && items[k] == item
      modifies this`waiting, this`ready, this`items, SetOf(items)
      ensures items == RemovedAt(old(items), k) && Chained(items, waiting, ready)
      ensures item.head == null && item.tail == null
    {
      assert item.head == At(items, k - 1) && item.tail == At(items, k + 1);
      if item.head != null {
        item.head.tail := item.tail;
      } else {
        waiting := item.tail;
      }
      if item.tail != null {
        item.tail.head := item.head;
      } else {
        ready := item.head;
      }
      item.head, item.tail := null, null;
      Relinked(items, k, waiting, ready);
      items := RemovedAt(items, k);
    }

    /** The fields have become those of `m`. */
    ghost method Become(m: Queue)
      requires Chained(items, waiting, ready) && Stands(items, m.entries) && Framed(frames, items) && Conserved(m)
      requires nextId == m.nextId && resumed == m.resumed
      modifies this`model
      ensures Valid() && model == m
    {
      model := m;
    }

    /** The item is pushed; the queue has become `m`. */
    method Join(item: Item, ghost m: Queue)
      requires Chained(items, waiting, ready) && item !in items && item.head == null && item.tail == null
      requires Stands([item] + items, m.entries) && Framed(frames, [item] + items) && Conserved(m)
      requires nextId == m.nextId && resumed == m.resumed
      modifies this`waiting, this`ready, this`items, this`model, SetOf(items), item
      ensures Valid() && model == m && items == [item] + old(items)
    {
      Push(item);
      Become(m);
    }

    /** ready_push, or the record that `resume`, `yield` and `raise` put on the stack of their fiber. */
    method Add(fiber: nat, own: bool) returns (item: Item)
      requires Valid()
      modifies this`waiting, this`ready, this`frames, this`nextId, this`items, this`model, SetOf(items)
      ensures Valid() && model == Added(old(model), fiber, own)
      ensures fresh(item) && item.entry == Entry(old(nextId), fiber, own) && items == [item] + old(items)
      ensures nextId == old(nextId) + 1 && resumed == old(resumed)
      ensures frames == if own then old(frames)[old(nextId) := item] else old(frames)
    {
      item := new Item(Entry(nextId, fiber, own));
      Frame(item);
      Join(item, Added(model, fiber, own));
    }

    /** The record that `resume`, `yield` and `raise` keep on their stack; ready_push keeps none. */
    method Frame(item: Item)
      requires Stands(items, model.entries) && Framed(frames, items) && Conserved(model) && nextId == model.nextId
      requires item !in items && item.entry.id == nextId
      modifies this`frames, this`nextId
      ensures var m := Added(model, item.entry.fiber, item.entry.own);
              Stands([item] + items, m.entries) && Framed(frames, [item] + items) && Conserved(m) && nextId == m.nextId
      ensures nextId == old(nextId) + 1
      ensures frames == if item.entry.own then old(frames)[item.entry.id := item] else old(frames)
    {
      AddedFits(frames, items, item, model);
      if item.entry.own {
        frames := frames[item.entry.id := item];
      }
      nextId := nextId + 1;
    }

    /** queue_pop of an item and, for a stack record, the end of its frame. */
    method Unlink(item: Item, ghost k: nat, ghost rest: seq<Entry>)
      requires Chained(items, waiting, ready) && Framed(frames, items) && Stands(items, model.entries)
      requires k < |items| && items[k] == item && rest == model.entries[..k] + model.entries[k + 1..]
      modifies this`waiting, this`ready, this`items, this`frames, SetOf(items)
      ensures Chained(items, waiting, ready) && Framed(frames, items) && Stands(items, rest)
      ensures item.head == null && item.tail == null && items == RemovedAt(old(items), k)
      ensures frames == if item.entry.own then old(frames) - {item.entry.id} else old(frames)
      ensures forall n | n in items :: n in old(items) && n != item
    {
      FramedCut(frames, items, k);
      StandsCut(items, model.entries, k);
      CutMembers(items, k);
      if item.entry.own {
        frames := frames - {item.entry.id};
      }
      Pop(item, k);
    }

    /** Unlinks the item; the queue has become `m`. */
    method Remove(item: Item, ghost k: nat, ghost m: Queue)
      requires Chained(items, waiting, ready) && Framed(frames, items) && Stands(items, model.entries)
      requires k < |items| && items[k] == item && Conserved(m)
      requires m.entries == model.entries[..k] + model.entries[k + 1..]
      requires nextId == m.nextId && resumed == m.resumed
      modifies this`waiting, this`ready, this`items, this`frames, this`model, SetOf(items)
      ensures Valid() && model == m && items == RemovedAt(old(items), k)
      ensures frames == if item.entry.own then old(frames) - {item.entry.id} else old(frames)
      ensures item.head == null && item.tail == null
      ensures forall n | n in items :: n in old(items) && n != item
    {
      Unlink(item, k, m.entries);
      Become(m);
    }

    /** wait_and_transfer_ensure, on normal and on exceptional exit: the fiber removes its own record, once. */
    method Depart(id: nat)
      requires Valid()
      modifies this`waiting, this`ready, this`items, this`frames, this`model, SetOf(items)
      ensures Valid() && model == Act(old(model), ReadyQueue.Depart(id))
      ensures nextId == old(nextId) && resumed == old(resumed) && frames == old(frames) - {id}
      ensures forall n | n in items :: n in old(items)
      ensures id in old(frames) ==>
                && old(frames)[id] in old(items) && SetOf(items) == old(SetOf(items)) - {old(frames)[id]}
                && old(frames)[id].head == null && old(frames)[id].tail == null
      ensures id !in old(frames) ==> items == old(items)
    {
      if id in frames {
        FramedIs(frames, items, id);
        Withdraw(frames[id]);
      } else {
        NotFramed(id);
      }
    }

    lemma NotFramed(id: nat)
      requires Valid() && id !in frames
      ensures Act(model, ReadyQueue.Depart(id)) == model && frames - {id} == frames
    {
      NoEntry(frames, items, model.entries, id);
    }

    method Withdraw(item: Item)
      requires Valid() && item in items && item.entry.own
      modifies this`waiting, this`ready, this`items, this`frames, this`model, SetOf(items)
      ensures Valid() && model == Act(old(model), ReadyQueue.Depart(item.entry.id))
      ensures SetOf(items) == old(SetOf(items)) - {item} && frames == old(frames) - {item.entry.id}
      ensures item.head == null && item.tail == null
      ensures forall n | n in items :: n in old(items)
    {
      ghost var k := DepartedFits(items, item, model);
      CutSet(items, k);
      Remove(item, k, Act(model, ReadyQueue.Depart(item.entry.id)));
    }

    /** What a running fiber does to the queue. */
    method RunScript(script: Script)
      requires Valid()
      modifies this, SetOf(items)
      ensures Valid() && model == Run(old(model), script)
      ensures forall n | n in items :: n in old(items) || (fresh(n) && n.entry.id >= old(nextId))
    {
      var i := 0;
      assert script[..0] == [];
      while i < |script|
        invariant 0 <= i <= |script|
        invariant Valid() && model == Run(old(model), script[..i])
        invariant nextId >= old(nextId)
        invariant forall n | n in items :: n in old(items) || (fresh(n) && n.entry.id >= old(nextId))
      {
        assert script[..i + 1][..i] == script[..i];
        Perform(script[i]);
        i := i + 1;
      }
      assert script[..i] == script;
    }

    method Perform(a: Action)
      requires Valid()
      modifies this, SetOf(items)
      ensures Valid() && model == Act(old(model), a) && nextId >= old(nextId)
      ensures forall n | n in items :: n in old(items) || (fresh(n) && n.entry.id >= old(nextId))
    {
      match a {
        case Push(fiber) => var _ := Add(fiber, false);
        case Enter(fiber) => var _ := Add(fiber, true);
        case Depart(id) => Depart(id);
      }
    }

    /** IO_Event_Selector_ready_pop: the selector unlinks an entry of its own, a fiber unlinks its record as soon as it
        runs; then the fiber runs on. */
    method ReadyPop(item: Item, script: Script)
      requires Valid() && items != [] && item == items[|items| - 1]
      modifies this, SetOf(items)
      ensures Valid() && old(model).entries != [] && model == ReadyQueue.Pop(old(model), script)
      ensures forall n | n in items :: n != item && (n in old(items) || (fresh(n) && n.entry.id >= old(nextId)))
    {
      Take(item);
      RunScript(script);
    }

    method Take(item: Item)
      requires Valid() && items != [] && item == items[|items| - 1]
      modifies this, SetOf(items)
      ensures Valid() && old(model).entries != [] && model == ReadyQueue.Pop(old(model), [])
      ensures forall n | n in items :: n != item && n in old(items)
      ensures nextId == old(nextId) && resumed == old(resumed) + [item.entry.id]
      ensures items == RemovedAt(old(items), |old(items)| - 1)
      ensures frames == if item.entry.own then old(frames) - {item.entry.id} else old(frames)
    {
      ghost var k := |items| - 1;
      ghost var m := ReadyQueue.Pop(model, []);
      PopGrows(model, []);
      assert m.entries == model.entries[..k] + model.entries[k + 1..];
      resumed := resumed + [item.entry.id];
      Remove(item, k, m);
    }

    /** `newest` is the item that ends the flush, or has departed; no other item has its number. */
    ghost predicate Marks(newest: Item)
      reads this`items, this`nextId
    {
      newest.entry.id < nextId && forall n | n in items :: n.entry.id == newest.entry.id ==> n == newest
    }

    /** One turn of the flush. */
    method Turn(newest: Item, script: Script) returns (item: Item)
      requires Valid() && items != [] && Marks(newest)
      modifies this, SetOf(items)
      ensures Valid() && Marks(newest)
      ensures old(model).entries != [] && model == ReadyQueue.Pop(old(model), script)
      ensures item == newest <==> Oldest(old(model)).id == newest.entry.id
      ensures |resumed| == |old(resumed)| + 1
      ensures forall n | n in items :: n in old(items) || fresh(n)
    {
      item := ready;
      assert item == items[|items| - 1] && item.entry == Oldest(model);
      PopGrows(model, script);
      ReadyPop(item, script);
    }

    /** IO_Event_Selector_ready_flush: the loop notes the newest entry and stops once it has processed it. */
    method Flush(scripts: seq<Script>) returns (count: nat)
      requires Valid()
      modifies this, SetOf(items)
      ensures Valid() && model == ReadyQueue.Flush(old(model), scripts)
      ensures |resumed| == |old(resumed)| + count
      ensures old(resumed) <= resumed && Increasing(resumed[|old(resumed)|..])
      ensures old(items) != [] && (forall s | s in scripts :: ReadyQueue.Depart(old(items)[0].entry.id) !in s) ==>
                forall id: nat :: id in resumed[|old(resumed)|..] <==>
                  id in Ids(old(model).entries) && id !in model.departed
    {
      FlushInOrder(model, scripts);
      if items != [] && forall s | s in scripts :: ReadyQueue.Depart(items[0].entry.id) !in s {
        FlushIsReference(model, scripts);
      }
      count := FlushLoop(scripts);
    }

    method FlushLoop(scripts: seq<Script>) returns (count: nat)
      requires Valid()
      modifies this, SetOf(items)
      ensures Valid() && model == ReadyQueue.Flush(old(model), scripts)
      ensures |resumed| == |old(resumed)| + count
    {
      count := 0;
      if waiting == null {
        return;
      }
      var newest := waiting;
      var rest := scripts;
      NewestFirst(items, model.entries);
      ghost var flushed := FlushUntil(model, newest.entry.id, scripts);
      while ready != null
        invariant Valid() && Marks(newest)
        invariant flushed == FlushUntil(model, newest.entry.id, rest)
        invariant |resumed| == |old(resumed)| + count
        invariant forall n | n in items :: n in old(items) || fresh(n)
        decreases |rest|, |items|
      {
        count := count + 1;
        var item := Turn(newest, First(rest));
        rest := Rest(rest);
        if item == newest { break; }
      }
    }
  }
}
