/** The timers of lib/io/event/timers.rb: handles are inserted lazily, cancelled in place and dropped later. */
module Timers {
  import opened Collections
  import opened Optional
  import opened PriorityHeap
  import opened TimerConservation
  import opened TimerReference

  const COMPACT_MINIMUM_COUNT := 128

  // ----- Handles -----

  class Handle {
    const id: nat
    const time: real
    var block: Option<Block>
    var timers: Timers?

    constructor (id: nat, time: real, block: Block)
      ensures this.id == id && this.time == time && this.block == Some(block) && timers == null
    {
      this.id := id;
      this.time := time;
      this.block := Some(block);
      timers := null;
    }

    method ScheduleInto(timers: Timers)
      modifies this`timers
      ensures this.timers == timers
    {
      this.timers := timers;
    }

    method Removed()
      modifies this`timers
      ensures timers == null
    {
      timers := null;
    }

    method Cancel()
      modifies this, (if timers == null then {} else {timers})`cancelled
      ensures block == None
      ensures old(block.Some?) ==> timers == null
      ensures old(block.None?) ==> timers == old(timers)
      ensures var t := old(timers);
              t != null ==>
                t.cancelled == old(t.cancelled) + (if old(block.Some?) then 1 else 0)
    {
      if block.None? {
        return;
      }
      block := None;
      if timers != null {
        var t := timers;
        timers := null;
        t.cancelled := t.cancelled + 1;
      }
    }
  }

  function TimeOf(h: Handle): real {
    h.time
  }

  ghost function LiveOf(s: seq<Handle>): set<Handle>
    reads SetOf(s)`block
  {
    set h | h in s && h.block.Some?
  }

  ghost function DeadOf(s: seq<Handle>): set<Handle>
    reads SetOf(s)`block
  {
    set h | h in s && h.block.None?
  }

  /** `r` is the time from `now` to the earliest pending timer; none if there is none. */
  ghost predicate Waits(pending: map<nat, Timer>, now: real, r: Option<real>) {
    && (r.None? <==> pending == map[])
    && (r.Some? ==>
          && (exists id :: id in pending && r.value == pending[id].time - now)
          && (forall id | id in pending :: r.value <= pending[id].time - now))
  }

  class Timers {
    var heap: Heap<Handle>
    var scheduled: seq<Handle>
    /** How many cancelled handles the heap still retains. */
    var cancelled: int
    /** Every handle ever returned to a caller, by creation number. */
    var handles: seq<Handle>

    ghost predicate Structure()
      reads this, heap
    {
      && heap.Valid()
      && heap.key == TimeOf
      && (forall i: nat | i < |handles| :: handles[i].id == i)
      && (forall h | h in heap.contents :: h in handles && h !in scheduled)
      && (forall h | h in scheduled :: h in handles)
      && NoRepeats(heap.contents)
      && NoRepeats(scheduled)
    }

    /** A handle points back to its timers exactly while it is live in the heap, and `cancelled` counts the
        dead handles in the heap. */
    ghost predicate Valid()
      reads this, heap, heap.contents, handles
    {
      && Structure()
      && (forall h | h in handles :: h.timers == if h in heap.contents && h.block.Some? then this else null)
      && cancelled == |DeadOf(heap.contents)|
    }

    ghost predicate Pending(i: nat)
      reads this, heap, heap.contents, handles
    {
      i < |handles| && handles[i] in heap.contents && handles[i].block.Some?
    }

    ghost predicate Deferred(i: nat)
      reads this, heap, heap.contents, handles
    {
      i < |handles| && handles[i] in scheduled && handles[i].block.Some?
    }

    ghost function TimerAt(i: nat): Timer
      requires i < |handles| && handles[i].block.Some?
      reads this, handles
    {
      Timer(handles[i].time, handles[i].block.value)
    }

    /** The plain collection this structure stands for. */
    ghost function View(): TimerSet
      reads this, heap, heap.contents, handles
    {
      TimerSet(map i: nat | i < |handles| && Pending(i) :: TimerAt(i),
              map i: nat | i < |handles| && Deferred(i) :: TimerAt(i),
              |handles|)
    }

    lemma ViewIs(a: TimerSet)
      requires forall i: nat :: Pending(i) <==> i in a.pending
      requires forall i: nat | Pending(i) :: a.pending[i] == TimerAt(i)
      requires forall i: nat :: Deferred(i) <==> i in a.deferred
      requires forall i: nat | Deferred(i) :: a.deferred[i] == TimerAt(i)
      requires a.created == |handles|
      ensures View() == a
    {
      assert View().pending == a.pending;
      assert View().deferred == a.deferred;
    }

    constructor ()
      ensures Valid() && fresh(heap) && handles == []
      ensures View() == TimerSet(map[], map[], 0)
    {
      heap := new Heap(TimeOf);
      scheduled := [];
      cancelled := 0;
      handles := [];
    }

    method Schedule(time: real, block: Block) returns (handle: Handle)
      requires Valid()
      modifies this`scheduled, this`handles
      ensures Valid() && heap == old(heap)
      ensures View() == Act(old(View()), TimerReference.Action.Schedule(time, block))
      ensures fresh(handle) && handles == old(handles) + [handle] && scheduled == old(scheduled) + [handle]
      ensures handle.id == old(|handles|) && handle.time == time && handle.block == Some(block)
    {
      handle := new Handle(|handles|, time, block);
      assert forall h | h in handles :: h != handle;
      scheduled := scheduled + [handle];
      handles := handles + [handle];
      ScheduledValid(handle);
      ScheduledView(handle);
    }

    twostate lemma ScheduledValid(new h: Handle)
      requires old(Valid()) && heap == old(heap) && heap.contents == old(heap.contents) && heap.Valid()
      requires h.id == old(|handles|) && h !in old(handles) && h.timers == null && cancelled == old(cancelled)
      requires handles == old(handles) + [h] && scheduled == old(scheduled) + [h]
      requires forall i | 0 <= i < old(|handles|) ::
                 handles[i].block == old(handles[i].block) && handles[i].timers == old(handles[i].timers)
      ensures Valid()
    {
      assert forall g | g in old(handles) :: g in handles && g.block == old(g.block) && g.timers == old(g.timers);
      assert h !in heap.contents && h !in SetOf(old(scheduled));
      DistinctSnoc(old(scheduled), h);
      SameLiveAndDead(heap.contents);
    }

    twostate lemma ScheduledView(new h: Handle)
      requires old(Structure()) && heap == old(heap)
      requires heap.contents == old(heap.contents) && h !in heap.contents && h !in old(handles)
      requires handles == old(handles) + [h] && scheduled == old(scheduled) + [h] && h.block.Some?
      requires forall i | 0 <= i < old(|handles|) :: handles[i].block == old(handles[i].block)
      ensures View() == Act(old(View()), TimerReference.Action.Schedule(h.time, h.block.value))
    {
      var a := Act(old(View()), TimerReference.Action.Schedule(h.time, h.block.value));
      forall i: nat
        ensures Pending(i) <==> i in a.pending
        ensures Deferred(i) <==> i in a.deferred
      {
        if i < old(|handles|) {
          assert handles[i] == old(handles[i]) != h;
          assert handles[i] in scheduled <==> old(handles[i] in scheduled);
        }
      }
      ViewIs(a);
    }

    method CancelHandle(id: nat)
      requires Valid()
      modifies this`cancelled, handles
      ensures Valid() && heap == old(heap)
      ensures View() == Act(old(View()), TimerReference.Action.Cancel(id))
      ensures handles == old(handles) && heap.contents == old(heap.contents)
      ensures id < |handles| ==> handles[id].block == None
      ensures forall i | 0 <= i < |handles| && i != id :: handles[i].block == old(handles[i].block)
    {
      if id >= |handles| {
        ViewIs(Act(old(View()), TimerReference.Action.Cancel(id)));
        return;
      }
      var h := handles[id];
      h.Cancel();
      CancelledCount(id);
      CancelledView(id);
    }

    twostate lemma CancelledCount(id: nat)
      requires old(Structure()) && heap == old(heap) && heap.contents == old(heap.contents)
      requires handles == old(handles) && id < |handles| && handles[id].block.None?
      requires forall i | 0 <= i < |handles| && i != id :: handles[i].block == old(handles[i].block)
      ensures |DeadOf(heap.contents)| == old(|DeadOf(heap.contents)|)
                + if handles[id] in heap.contents && old(handles[id].block.Some?) then 1 else 0
    {
      var h := handles[id];
      var dead, was := DeadOf(heap.contents), old(DeadOf(heap.contents));
      if h in heap.contents && old(h.block.Some?) {
        assert dead == was + {h};
      } else {
        assert dead == was;
      }
    }

    twostate lemma CancelledView(id: nat)
      requires old(Structure()) && heap == old(heap) && heap.contents == old(heap.contents)
      requires handles == old(handles) && scheduled == old(scheduled)
      requires id < |handles| && handles[id].block.None?
      requires forall i | 0 <= i < |handles| && i != id :: handles[i].block == old(handles[i].block)
      ensures View() == Act(old(View()), TimerReference.Action.Cancel(id))
    {
      ViewIs(Act(old(View()), TimerReference.Action.Cancel(id)));
    }

    // ----- Flushing -----

    /** `contents.delete_if`: the live part of the heap, with every dropped handle marked removed. */
    method DropDead() returns (kept: seq<Handle>)
      requires Valid()
      modifies SetOf(handles)`timers
      ensures NoRepeats(kept) && SetOf(kept) == old(LiveOf(heap.contents))
      ensures forall h | h in handles :: h.timers == old(h.timers)
    {
      kept := [];
      for i := 0 to |heap.contents|
        invariant NoRepeats(kept) && SetOf(kept) == LiveOf(heap.contents[..i])
        invariant forall h | h in handles :: h.timers == old(h.timers)
      {
        var h := heap.contents[i];
        KeepOneMore(kept, heap.contents, i);
        if h.block.None? {
          h.Removed();
        } else {
          kept := kept + [h];
        }
      }
      assert heap.contents[..|heap.contents|] == heap.contents;
    }

    /** The live part of `scheduled`, with every kept handle marked as inserted into the heap. */
    method AdmitScheduled() returns (kept: seq<Handle>)
      requires Structure()
      modifies SetOf(handles)`timers
      ensures Admitted(kept)
    {
      kept := [];
      for i := 0 to |scheduled|
        invariant NoRepeats(kept) && SetOf(kept) == LiveOf(scheduled[..i])
        invariant forall h | h in handles ::
                    h.timers == if h in scheduled[..i] && h.block.Some? then this else old(h.timers)
      {
        var h := scheduled[i];
        KeepOneMore(kept, scheduled, i);
        if h.block.Some? {
          h.ScheduleInto(this);
          kept := kept + [h];
        }
      }
      assert scheduled[..|scheduled|] == scheduled;
    }

    /** Cancelled handles are both numerous and more than half of the heap. */
    predicate Compacts()
      reads this`cancelled, this`heap, heap`contents
    {
      cancelled >= COMPACT_MINIMUM_COUNT && cancelled * 2 > |heap.contents|
    }

    method Flush()
      requires Valid()
      modifies this`scheduled, this`cancelled, heap, SetOf(handles)`timers
      ensures Valid() && scheduled == []
      ensures View() == Flushed(old(View()))
      ensures cancelled ==
              if old(Compacts()) || (old(cancelled) == old(|heap.contents|) && old(LiveOf(scheduled)) == {}) then 0
              else old(cancelled)
      ensures cancelled < COMPACT_MINIMUM_COUNT || cancelled <= |LiveOf(heap.contents)|
      ensures heap.contents == [] <==> LiveOf(heap.contents) == {}
    {
      CompactOrAdd();
      FlushedView();
      assert heap.contents == [] ==> LiveOf(heap.contents) == {};
    }

    method CompactOrAdd()
      requires Valid()
      modifies this`scheduled, this`cancelled, heap, SetOf(handles)`timers
      ensures Valid() && scheduled == []
      ensures LiveOf(heap.contents) == old(LiveOf(heap.contents)) + old(LiveOf(scheduled))
      ensures LiveOf(heap.contents) == {} ==> heap.contents == []
      ensures cancelled ==
              if old(Compacts()) || (old(cancelled) == old(|heap.contents|) && old(LiveOf(scheduled)) == {}) then 0
              else old(cancelled)
      ensures cancelled < COMPACT_MINIMUM_COUNT || cancelled <= |LiveOf(heap.contents)|
    {
      if Compacts() {
        FlushCompacting();
      } else {
        FlushLazily();
      }
    }

    /** Dead handles leave the heap in the same pass that admits the live scheduled ones. */
    method FlushCompacting()
      requires Valid()
      modifies this`scheduled, this`cancelled, heap, SetOf(handles)`timers
      ensures Valid() && scheduled == []
      ensures LiveOf(heap.contents) == old(LiveOf(heap.contents)) + old(LiveOf(scheduled))
      ensures LiveOf(heap.contents) == {} ==> heap.contents == []
      ensures cancelled == 0
    {
      var contents := DropDead();
      var added := AdmitScheduled();
      heap.Heapify(contents + added);
      cancelled := 0;
      scheduled := [];
      Compacted(contents, added);
    }

    twostate lemma Compacted(new contents: seq<Handle>, new added: seq<Handle>)
      requires old(Valid()) && heap == old(heap) && handles == old(handles) && scheduled == [] && cancelled == 0
      requires NoRepeats(contents) && SetOf(contents) == old(LiveOf(heap.contents))
      requires heap.Valid() && multiset(heap.contents) == multiset(contents + added)
      requires Admitted(added)
      ensures Valid()
      ensures LiveOf(heap.contents) == old(LiveOf(heap.contents)) + old(LiveOf(scheduled))
      ensures LiveOf(heap.contents) == {} ==> heap.contents == []
    {
      AdmittedAreLive(added);
      AllLive(contents);
      Joined(heap.contents, contents, added);
      FlushedValid(added);
    }

    /** The effect of admitting the scheduled handles on the handles themselves. */
    twostate predicate Admitted(new added: seq<Handle>)
      reads this, handles
    {
      && NoRepeats(added) && SetOf(added) == old(LiveOf(scheduled))
      && handles == old(handles)
      && forall h | h in old(handles) ::
           && h.block == old(h.block)
           && h.timers == if h in old(scheduled) && old(h.block.Some?) then this else old(h.timers)
    }

    /** Dead handles stay in the heap, unless nothing else is left in it. */
    method FlushLazily()
      requires Valid()
      requires !Compacts()
      modifies this`scheduled, this`cancelled, heap, SetOf(handles)`timers
      ensures Valid() && scheduled == []
      ensures LiveOf(heap.contents) == old(LiveOf(heap.contents)) + old(LiveOf(scheduled))
      ensures LiveOf(heap.contents) == {} ==> heap.contents == []
      ensures cancelled ==
              if old(cancelled) == old(|heap.contents|) && old(LiveOf(scheduled)) == {} then 0 else old(cancelled)
      ensures cancelled < COMPACT_MINIMUM_COUNT || cancelled <= |LiveOf(heap.contents)|
    {
      var added := AdmitScheduled();
      assert added == [] <==> SetOf(added) == {} by { assert added != [] ==> added[0] in SetOf(added); }
      if cancelled == |heap.contents| && added == [] {
        heap.Clear();
        cancelled := 0;
        scheduled := [];
        Cleared(added);
      } else {
        heap.Concat(added);
        scheduled := [];
        Concatenated(added);
      }
    }

    twostate lemma Cleared(new added: seq<Handle>)
      requires old(Valid()) && heap == old(heap) && handles == old(handles) && scheduled == [] && cancelled == 0
      requires heap.Valid() && heap.contents == []
      requires old(cancelled == |heap.contents|) && added == []
      requires Admitted(added)
      ensures Valid()
      ensures LiveOf(heap.contents) == {} == old(LiveOf(heap.contents)) + old(LiveOf(scheduled))
    {
      SameLiveAndDead(old(heap.contents));
      NobodyLive(old(heap.contents));
      FlushedValid(added);
    }

    twostate lemma Concatenated(new added: seq<Handle>)
      requires old(Valid()) && heap == old(heap) && handles == old(handles) && scheduled == []
      requires cancelled == old(cancelled)
      requires cancelled < COMPACT_MINIMUM_COUNT || cancelled * 2 <= old(|heap.contents|)
      requires cancelled != old(|heap.contents|) || added != []
      requires heap.Valid() && multiset(heap.contents) == multiset(old(heap.contents)) + multiset(added)
      requires Admitted(added)
      ensures Valid()
      ensures LiveOf(heap.contents) == old(LiveOf(heap.contents)) + old(LiveOf(scheduled))
      ensures LiveOf(heap.contents) != {}
      ensures cancelled < COMPACT_MINIMUM_COUNT || cancelled <= |LiveOf(heap.contents)|
    {
      var contents := old(heap.contents);
      AdmittedAreLive(added);
      SameLiveAndDead(contents);
      Joined(heap.contents, contents, added);
      MostlyLive(heap.contents, contents, added);
      FlushedValid(added);
    }

    twostate lemma AdmittedAreLive(new added: seq<Handle>)
      requires old(Structure()) && Admitted(added)
      ensures DeadOf(added) == {}
    {
      AllLive(added);
    }

    twostate lemma SameLiveAndDead(s: seq<Handle>)
      requires forall h | h in s :: h.block == old(h.block)
      ensures LiveOf(s) == old(LiveOf(s)) && DeadOf(s) == old(DeadOf(s))
    {
    }

    twostate lemma FlushedValid(new added: seq<Handle>)
      requires old(Valid()) && heap == old(heap) && handles == old(handles) && scheduled == []
      requires heap.Valid() && NoRepeats(heap.contents)
      requires SetOf(heap.contents) <= old(SetOf(heap.contents)) + old(SetOf(scheduled))
      requires LiveOf(heap.contents) == old(LiveOf(heap.contents)) + old(LiveOf(scheduled))
      requires cancelled == |DeadOf(heap.contents)|
      requires forall i | 0 <= i < |handles| :: handles[i].block == old(handles[i].block)
      requires Admitted(added)
      ensures Valid()
    {
      forall h | h in heap.contents ensures h in handles {
        assert h in SetOf(heap.contents);
      }
      forall h | h in handles ensures h.timers == if h in heap.contents && h.block.Some? then this else null {
        assert h in LiveOf(heap.contents) <==> h in old(LiveOf(heap.contents)) || h in old(LiveOf(scheduled));
      }
      assert SetOf<Handle>([]) == {};
    }

    twostate lemma FlushedView()
      requires old(Structure()) && heap == old(heap) && handles == old(handles) && scheduled == []
      requires forall i | 0 <= i < |handles| :: handles[i].block == old(handles[i].block)
      requires LiveOf(heap.contents) == old(LiveOf(heap.contents)) + old(LiveOf(scheduled))
      ensures View() == Flushed(old(View()))
    {
      var a := Flushed(old(View()));
      forall i: nat ensures Pending(i) <==> i in a.pending {
        if i < |handles| {
          var h := handles[i];
          assert h in LiveOf(heap.contents) <==> h in old(LiveOf(heap.contents)) || h in old(LiveOf(scheduled));
        }
      }
      ViewIs(a);
    }

    // ----- Taking timers out -----

    /** The root is a cancelled handle: drop it. The counter is positive, so its guard never holds back. */
    method PopDead()
      requires Valid() && heap.contents != [] && heap.contents[0].block.None?
      modifies this`cancelled, heap, SetOf(handles)`timers
      ensures Valid() && View() == old(View())
      ensures |heap.contents| < old(|heap.contents|)
      ensures cancelled == old(cancelled) - 1
    {
      var popped := heap.Pop();
      var handle := popped.value;
      handle.Removed();
      if cancelled > 0 {
        cancelled := cancelled - 1;
      }
      Popped(handle);
    }

    /** The root is live: take it out of the collection. */
    method PopLive() returns (handle: Handle)
      requires Valid() && heap.contents != [] && heap.contents[0].block.Some?
      modifies heap, SetOf(handles)`timers
      ensures Valid() && handle == old(heap.contents[0]) && handle in handles
      ensures View() == old(View()).(pending := old(View()).pending - {handle.id})
      ensures |heap.contents| < old(|heap.contents|)
    {
      var popped := heap.Pop();
      handle := popped.value;
      handle.Removed();
      Popped(handle);
    }

    /** What popping the root `h` and marking it removed has done. */
    twostate predicate RootPopped(h: Handle)
      reads this, heap, handles
    {
      && old(Valid()) && heap == old(heap) && handles == old(handles) && scheduled == old(scheduled)
      && heap.Valid() && old(heap.contents) != [] && h == old(heap.contents[0])
      && multiset(heap.contents) == multiset(old(heap.contents)) - multiset{h}
      && (forall g | g in handles ::
            && g.block == old(g.block)
            && g.timers == if g == h then null else old(g.timers))
    }

    twostate lemma PoppedSets(h: Handle)
      requires RootPopped(h)
      ensures Structure() && |heap.contents| < old(|heap.contents|)
      ensures SetOf(heap.contents) == old(SetOf(heap.contents)) - {h}
      ensures LiveOf(heap.contents) == old(LiveOf(heap.contents)) - {h}
      ensures h.block.None? ==> old(cancelled) > 0
      ensures |DeadOf(heap.contents)| == old(cancelled) - if h.block.None? then 1 else 0
    {
      var dead := old(DeadOf(heap.contents));
      SameLiveAndDead(old(heap.contents));
      Shrunk(heap.contents, old(heap.contents), h);
      assert forall g | g in heap.contents :: g in SetOf(heap.contents);
      if h.block.None? {
        assert h in dead;
      } else {
        assert dead - {h} == dead;
      }
    }

    twostate lemma Popped(h: Handle)
      requires RootPopped(h)
      requires h.block.None? && old(cancelled) > 0 ==> cancelled == old(cancelled) - 1
      requires h.block.Some? ==> cancelled == old(cancelled)
      ensures Valid() && |heap.contents| < old(|heap.contents|)
      ensures h.block.None? ==> View() == old(View()) && old(cancelled) > 0
      ensures h.block.Some? ==> View() == old(View()).(pending := old(View()).pending - {h.id})
    {
      PoppedSets(h);
      assert forall g | g in handles :: g in SetOf(heap.contents) <==> g in heap.contents;
      PoppedView(h);
      if h.block.None? {
        assert h.id !in old(View()).pending;
        assert View().pending == old(View()).pending;
      }
    }

    twostate lemma PoppedView(h: Handle)
      requires RootPopped(h)
      requires LiveOf(heap.contents) == old(LiveOf(heap.contents)) - {h}
      ensures View() == old(View()).(pending := old(View()).pending - {h.id})
    {
      assert h in old(heap.contents);
      assert h in handles;
      var k: nat :| k < |handles| && handles[k] == h;
      var was := old(View()).pending;
      var a := old(View()).(pending := was - {h.id});
      forall i: nat ensures Pending(i) <==> i in a.pending {
        assert i in was <==> old(Pending(i));
        if i < |handles| {
          var g := handles[i];
          assert old(Pending(i)) <==> g in old(LiveOf(heap.contents));
          assert Pending(i) <==> g in LiveOf(heap.contents);
          assert g == h <==> i == h.id;
        }
      }
      ViewIs(a);
    }

    /** A root that is live stands for an earliest pending timer. */
    lemma LiveRootIsEarliest()
      requires Valid() && heap.contents != [] && heap.contents[0].block.Some?
      ensures var id := heap.contents[0].id;
              && id in View().pending
              && View().pending[id] == Timer(heap.contents[0].time, heap.contents[0].block.value)
              && forall other | other in View().pending :: heap.contents[0].time <= View().pending[other].time
    {
      assert Pending(heap.contents[0].id);
      forall other | other in View().pending ensures heap.contents[0].time <= View().pending[other].time {
        assert Pending(other);
        var i: nat :| i < |heap.contents| && heap.contents[i] == handles[other];
        RootIsMinimum(TimeOf, heap.contents, i);
      }
    }

    lemma RootTellsWait(now: real)
      requires Valid() && heap.contents != [] && heap.contents[0].block.Some?
      ensures Waits(View().pending, now, Some(heap.contents[0].time - now))
    {
      LiveRootIsEarliest();
      assert heap.contents[0].id in View().pending;
    }

    lemma NothingPending(now: real)
      requires Valid() && heap.contents == []
      ensures Waits(View().pending, now, None)
    {
      assert View().pending == map[];
    }

    method WaitInterval(now: real) returns (r: Option<real>)
      requires Valid()
      modifies this`scheduled, this`cancelled, heap, SetOf(handles)`timers
      ensures Valid() && View() == Flushed(old(View()))
      ensures Waits(View().pending, now, r)
    {
      Flush();
      r := EarliestWait(now);
    }

    /** The loop of wait_interval: dead roots are dropped. */
    method EarliestWait(now: real) returns (r: Option<real>)
      requires Valid()
      modifies this`cancelled, heap, SetOf(handles)`timers
      ensures Valid() && View() == old(View()) && Waits(View().pending, now, r)
    {
      while heap.contents != []
        invariant Valid() && View() == old(View())
        decreases |heap.contents|
      {
        var handle := heap.contents[0];
        if handle.block.None? {
          PopDead();
        } else {
          RootTellsWait(now);
          return Some(handle.time - now);
        }
      }
      NothingPending(now);
      return None;
    }

    method Size() returns (size: nat)
      requires Valid()
      modifies this`scheduled, this`cancelled, heap, SetOf(handles)`timers
      ensures Valid() && View() == Flushed(old(View()))
      ensures size == 0 <==> View().pending == map[]
      ensures size == |View().pending| + cancelled
      ensures 0 <= cancelled && (cancelled < COMPACT_MINIMUM_COUNT || cancelled <= |View().pending|)
    {
      Flush();
      size := |heap.contents|;
      DeadAndLive(heap.contents);
      LiveCount();
    }

    lemma LiveCount()
      requires Structure()
      ensures |View().pending| == |LiveOf(heap.contents)|
    {
      SameCount(LiveOf(heap.contents), View().pending.Keys);
    }

    /** Numbering handles is injective. */
    lemma {:induction false} SameCount(live: set<Handle>, ids: set<nat>)
      requires Structure()
      requires forall h | h in live :: h in handles && h.id in ids
      requires forall i | i in ids :: i < |handles| && handles[i] in live
      ensures |live| == |ids|
      decreases live
    {
      if live == {} {
        assert ids == {};
      } else {
        var h :| h in live;
        SameCount(live - {h}, ids - {h.id});
      }
    }

    // ----- Firing -----

    method RunBlock(block: Block)
      requires Valid()
      modifies this`scheduled, this`handles, this`cancelled, heap, SetOf(handles)
      ensures Valid() && heap == old(heap)
      ensures View() == Run(old(View()), block)
      ensures forall h | h in handles :: h in old(handles) || fresh(h)
    {
      for i := 0 to |block|
        invariant Valid() && heap == old(heap)
        invariant View() == Run(old(View()), block[..i])
        invariant forall h | h in handles :: h in old(handles) || fresh(h)
      {
        assert block[..i + 1][..i] == block[..i];
        Perform(block[i]);
      }
      assert block[..|block|] == block;
    }

    method Perform(action: Action)
      requires Valid()
      modifies this`scheduled, this`handles, this`cancelled, heap, SetOf(handles)
      ensures Valid() && heap == old(heap)
      ensures View() == Act(old(View()), action)
      ensures forall h | h in handles :: h in old(handles) || fresh(h)
    {
      match action {
        case Schedule(time, inner) => var _ := Schedule(time, inner);
        case Cancel(id) => CancelHandle(id);
        case Size => var _ := Size();
        case WaitInterval(now) => var _ := WaitInterval(now);
      }
    }

    lemma ViewIsWellNumbered()
      requires Valid()
      ensures WellNumbered(View()) && WellNumbered(Flushed(View()))
    {
    }

    /** The root is live and due: its block is called. */
    method FireRoot(now: real, ghost start: TimerSet, ghost fired: seq<nat>)
      requires Valid() && heap.contents != [] && heap.contents[0].block.Some? && heap.contents[0].time <= now
      requires FirePrefix(start, now, fired) && View() == After(start, fired)
      modifies this`scheduled, this`handles, this`cancelled, heap, SetOf(handles)
      ensures Valid() && heap == old(heap) && Weight(View()) < old(Weight(View()))
      ensures var longer := fired + [old(heap.contents[0].id)];
              FirePrefix(start, now, longer) && View() == After(start, longer)
      ensures forall h | h in handles :: h in old(handles) || fresh(h)
    {
      ghost var id := heap.contents[0].id;
      assert Due(View(), id, now) by { LiveRootIsEarliest(); }
      assert WellNumbered(View()) by { ViewIsWellNumbered(); }
      FireOneMore(start, now, fired, id);
      var handle := PopLive();
      RunBlock(handle.block.value);
    }

    /** `fired` numbers the handles whose blocks were called, in order: nobody twice, of the timers there at the start
        exactly those that are due and not cancelled before their turn, and every other one is kept as it was. */
    method Fire(now: real) returns (fired: seq<nat>)
      requires Valid()
      modifies this, heap, SetOf(handles)
      ensures Valid() && heap == old(heap)
      ensures WellNumbered(Flushed(old(View()))) && FireRun(Flushed(old(View())), now, fired, View())
      ensures forall h | h in handles :: h in old(handles) || fresh(h)
      ensures Distinct(fired)
      ensures forall id | id in Live(old(View())) ::
                && (Live(old(View()))[id].time <= now ==> id in fired || id in CancelledBy(Flushed(old(View())), fired))
                && (Live(old(View()))[id].time > now ==> id !in fired)
                && (id !in fired && id !in CancelledBy(Flushed(old(View())), fired) ==>
                      id in View().pending && View().pending[id] == Live(old(View()))[id])
    {
      ghost var start := View();
      ViewIsWellNumbered();
      FlushKeepsAll(start);
      fired := FireLoop(now);
      FireServes(Flushed(start), now, fired, View());
    }

    method FireLoop(now: real) returns (fired: seq<nat>)
      requires Valid()
      modifies this, heap, SetOf(handles)
      ensures Valid() && heap == old(heap)
      ensures WellNumbered(Flushed(old(View()))) && FireRun(Flushed(old(View())), now, fired, View())
      ensures forall h | h in handles :: h in old(handles) || fresh(h)
    {
      ghost var start := Flushed(View());
      ViewIsWellNumbered();
      Flush();
      fired := [];
      while heap.contents != []
        invariant Valid() && heap == old(heap)
        invariant FirePrefix(start, now, fired) && View() == After(start, fired)
        invariant forall h | h in handles :: h in old(handles) || fresh(h)
        decreases Weight(View()), |heap.contents|
      {
        var handle := heap.contents[0];
        if handle.block.None? {
          PopDead();
        } else if handle.time <= now {
          FireRoot(now, start, fired);
          fired := fired + [handle.id];
        } else {
          LiveRootIsEarliest();
          return;
        }
      }
    }
  }

  lemma FireServes(a: TimerSet, now: real, fired: seq<nat>, b: TimerSet)
    requires WellNumbered(a) && FireRun(a, now, fired, b)
    ensures Distinct(fired)
    ensures forall id | id in a.pending ::
              && (a.pending[id].time <= now ==> id in fired || id in CancelledBy(a, fired))
              && (a.pending[id].time > now ==> id !in fired)
              && (id !in fired && id !in CancelledBy(a, fired) ==> id in b.pending && b.pending[id] == a.pending[id])
  {
    FireCallsExactlyTheDue(a, now, fired, b);
    forall id | id in a.pending && id in fired ensures a.pending[id].time <= now {
      var k: nat :| k < |fired| && fired[k] == id;
    }
  }

  // ----- Distinct sequences of handles -----

  lemma DistinctIsAMultisetMatter(s: seq<Handle>)
    ensures NoRepeats(s) <==> multiset(s) == multiset(SetOf(s))
  {
    var m, n := multiset(s), multiset(SetOf(s));
    assert |m| == |s| && |n| == |SetOf(s)|;
    forall h ensures n[h] <= m[h] {
      assert h in s <==> h in m;
    }
    assert m == n + (m - n);
  }

  lemma NotSeen(s: seq<Handle>, i: nat)
    requires NoRepeats(s) && i < |s|
    ensures s[i] !in s[..i]
  {
    DistinctIsAMultisetMatter(s);
    var before, after := s[..i], s[i + 1..];
    assert s == before + [s[i]] + after;
    assert multiset(s) == multiset(before) + multiset{s[i]} + multiset(after);
    assert multiset(SetOf(s))[s[i]] == 1;
    assert multiset(before)[s[i]] == 0;
  }

  lemma DistinctSnoc(s: seq<Handle>, h: Handle)
    requires NoRepeats(s) && h !in SetOf(s)
    ensures NoRepeats(s + [h]) && SetOf(s + [h]) == SetOf(s) + {h}
  {
    assert SetOf(s + [h]) == SetOf(s) + {h};
  }

  /** One step of filtering the live handles of `s` into `kept`. */
  lemma KeepOneMore(kept: seq<Handle>, s: seq<Handle>, i: nat)
    requires NoRepeats(s) && i < |s|
    requires NoRepeats(kept) && SetOf(kept) == LiveOf(s[..i])
    ensures s[..i + 1] == s[..i] + [s[i]]
    ensures s[i].block.None? ==> SetOf(kept) == LiveOf(s[..i + 1])
    ensures s[i].block.Some? ==> NoRepeats(kept + [s[i]]) && SetOf(kept + [s[i]]) == LiveOf(s[..i + 1])
  {
    NotSeen(s, i);
    if s[i].block.Some? {
      DistinctSnoc(kept, s[i]);
    }
  }

  lemma DistinctUnion(t: seq<Handle>, s: seq<Handle>, added: seq<Handle>)
    requires multiset(t) == multiset(s) + multiset(added)
    requires NoRepeats(s) && NoRepeats(added) && SetOf(s) !! SetOf(added)
    ensures NoRepeats(t) && SetOf(t) == SetOf(s) + SetOf(added)
  {
    forall h ensures h in t <==> h in s || h in added {
      assert h in t <==> h in multiset(t);
    }
    assert SetOf(t) == SetOf(s) + SetOf(added);
    assert |multiset(t)| == |t| && |multiset(s)| == |s| && |multiset(added)| == |added|;
  }

  lemma AllLive(s: seq<Handle>)
    requires forall h | h in SetOf(s) :: h.block.Some?
    ensures DeadOf(s) == {} && LiveOf(s) == SetOf(s)
  {
    assert forall h | h in s :: h in SetOf(s);
  }

  lemma NobodyLive(s: seq<Handle>)
    requires NoRepeats(s) && |s| == |DeadOf(s)|
    ensures LiveOf(s) == {}
  {
    DeadAndLive(s);
  }

  /** Adding distinct live handles to `s` keeps its dead ones and grows its live ones. */
  lemma Joined(t: seq<Handle>, s: seq<Handle>, added: seq<Handle>)
    requires multiset(t) == multiset(s) + multiset(added)
    requires NoRepeats(s) && NoRepeats(added) && SetOf(s) !! SetOf(added)
    requires DeadOf(added) == {}
    ensures NoRepeats(t) && SetOf(t) == SetOf(s) + SetOf(added)
    ensures LiveOf(t) == LiveOf(s) + SetOf(added) && DeadOf(t) == DeadOf(s)
    ensures DeadOf(t) == {} ==> LiveOf(t) == SetOf(t)
    ensures SetOf(t) == {} ==> t == []
  {
    DistinctUnion(t, s, added);
    forall h ensures h in t <==> h in s || h in SetOf(added) {
      assert h in t <==> h in SetOf(t);
      assert h in s <==> h in SetOf(s);
    }
    forall h | h in added ensures h.block.Some? {
      assert h !in DeadOf(added);
    }
    DeadAndLive(t);
    assert t != [] ==> t[0] in SetOf(t);
  }

  /** Taking one element out of a distinct sequence. */
  lemma Shrunk(t: seq<Handle>, s: seq<Handle>, h: Handle)
    requires NoRepeats(s) && h in s && multiset(t) == multiset(s) - multiset{h}
    ensures NoRepeats(t) && |t| == |s| - 1 && SetOf(t) == SetOf(s) - {h}
    ensures LiveOf(t) == LiveOf(s) - {h} && DeadOf(t) == DeadOf(s) - {h}
  {
    DistinctIsAMultisetMatter(s);
    forall g ensures g in t <==> g in s && g != h {
      assert g in t <==> g in multiset(t);
    }
    assert SetOf(t) == SetOf(s) - {h};
    assert |multiset(t)| == |t| && |multiset(s)| == |s|;
  }

  /** What is left after a flush without compaction and without clearing. */
  lemma MostlyLive(t: seq<Handle>, s: seq<Handle>, added: seq<Handle>)
    requires NoRepeats(s) && NoRepeats(t) && SetOf(s) !! SetOf(added)
    requires LiveOf(t) == LiveOf(s) + SetOf(added) && DeadOf(t) == DeadOf(s)
    requires |DeadOf(s)| != |s| || added != []
    ensures LiveOf(t) != {}
    ensures |DeadOf(s)| * 2 <= |s| ==> |DeadOf(t)| <= |LiveOf(t)|
  {
    DeadAndLive(s);
    DeadAndLive(t);
    if added != [] {
      assert added[0] in SetOf(added);
    }
    SubsetIsSmaller(LiveOf(s), LiveOf(t));
  }

  /** A distinct sequence has as many elements as live and dead ones together. */
  lemma DeadAndLive(s: seq<Handle>)
    requires NoRepeats(s)
    ensures |s| == |LiveOf(s)| + |DeadOf(s)|
    ensures LiveOf(s) + DeadOf(s) == SetOf(s)
  {
    assert LiveOf(s) + DeadOf(s) == SetOf(s) && LiveOf(s) !! DeadOf(s);
  }
}
