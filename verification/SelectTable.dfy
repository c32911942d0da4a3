/** The waiters of lib/io/event/selector/select.rb as linked objects: a hash from IO to the first waiter of a chain, and
    Waiter#dispatch, which rewires `tail` while it walks. */
module SelectTable {
  import opened Collections
  import opened Interest
  import S = SelectWaiters
  import R = SelectRounds

  class Waiter {
    const id: nat
    const events: Events
    /** Whether the waiter still refers to its fiber. */
    var fiber: bool
    var tail: Waiter?

    constructor (id: nat, events: Events, tail: Waiter?)
      ensures this.id == id && this.events == events && fiber && this.tail == tail
    {
      this.id, this.events, this.tail := id, events, tail;
      fiber := true;
    }
  }

  ghost function At(waiters: seq<Waiter>, ids: seq<nat>, k: nat): Waiter? {
    if k < |ids| && ids[k] < |waiters| then waiters[ids[k]] else null
  }

  /** The tails thread the waiters of `ids`, starting at `first`, and end. */
  ghost predicate Threaded(waiters: seq<Waiter>, ids: seq<nat>, first: Waiter?)
    reads SetOf(waiters)`tail
  {
    && first == At(waiters, ids, 0)
    && (forall k: nat | k < |ids| :: ids[k] < |waiters|)
    && (forall k: nat {:trigger waiters[ids[k]].tail} | k < |ids| :: waiters[ids[k]].tail == At(waiters, ids, k + 1))
  }

  ghost predicate Created(waiters: seq<Waiter>, calls: seq<S.Call>) {
    |waiters| == |calls| && forall k: nat | k < |waiters| :: waiters[k].id == k && waiters[k].events == calls[k].events
  }

  lemma ThreadFirst(waiters: seq<Waiter>, ids: seq<nat>, id: nat, first: Waiter?)
    requires id < |waiters| && Threaded(waiters, ids, first) && waiters[id].tail == first
    ensures Threaded(waiters, [id] + ids, waiters[id])
  {
    var r := [id] + ids;
    forall k: nat | k < |r| ensures waiters[r[k]].tail == At(waiters, r, k + 1) {
      if k > 0 { assert r[k] == ids[k - 1]; }
    }
  }

  lemma ThreadRest(waiters: seq<Waiter>, ids: seq<nat>, first: Waiter?)
    requires Threaded(waiters, ids, first) && ids != []
    ensures first == waiters[ids[0]] && Threaded(waiters, ids[1..], waiters[ids[0]].tail)
  {
    var r := ids[1..];
    assert waiters[ids[0]].tail == At(waiters, ids, 1);
    forall k: nat | k < |r| ensures waiters[r[k]].tail == At(waiters, r, k + 1) {
      assert r[k] == ids[k + 1];
      assert waiters[ids[k + 1]].tail == At(waiters, ids, k + 2);
    }
  }

  /** The hash holds the first waiter of each chain, and no empty chains. */
  ghost predicate Table(waiters: seq<Waiter>, waiting: map<nat, Waiter>, chains: map<nat, seq<nat>>)
    reads SetOf(waiters)`tail
  {
    && waiting.Keys == chains.Keys
    && forall io | io in waiting :: chains[io] != [] && Threaded(waiters, chains[io], waiting[io])
  }

  lemma ThreadMore(waiters: seq<Waiter>, more: seq<Waiter>, ids: seq<nat>, first: Waiter?)
    requires Threaded(waiters, ids, first)
    ensures Threaded(waiters + more, ids, first)
  {
    var all := waiters + more;
    forall k: nat | k < |ids| ensures ids[k] < |all| && all[ids[k]].tail == At(all, ids, k + 1) {
      assert waiters[ids[k]].tail == At(waiters, ids, k + 1);
    }
  }

  ghost function Tails(waiters: seq<Waiter>): (tails: seq<Waiter?>)
    reads SetOf(waiters)`tail
    ensures |tails| == |waiters| && forall k: nat | k < |waiters| :: tails[k] == waiters[k].tail
  {
    if waiters == [] then []
    else
      var n := |waiters| - 1;
      assert forall w | w in waiters[..n] :: w in waiters;
      Tails(waiters[..n]) + [waiters[n].tail]
  }

  /** `tails` is a record of the tails, but perhaps for waiter `id`. */
  ghost predicate Recorded(waiters: seq<Waiter>, tails: seq<Waiter?>, id: nat)
    reads SetOf(waiters)`tail
  {
    |tails| == |waiters| && forall k: nat | k < |waiters| && k != id :: waiters[k].tail == tails[k]
  }

  /** The chain as recorded. */
  ghost predicate Thread(waiters: seq<Waiter>, tails: seq<Waiter?>, ids: seq<nat>, first: Waiter?) {
    && |tails| == |waiters|
    && first == At(waiters, ids, 0)
    && (forall k: nat | k < |ids| :: ids[k] < |waiters|)
    && (forall k: nat {:trigger tails[ids[k]]} | k < |ids| :: tails[ids[k]] == At(waiters, ids, k + 1))
  }

  /** A chain does not notice a change of the tail of a waiter outside it. */
  lemma ThreadKept(waiters: seq<Waiter>, tails: seq<Waiter?>, ids: seq<nat>, first: Waiter?, id: nat)
    requires Recorded(waiters, tails, id) && id !in ids
    ensures Threaded(waiters, ids, first) <==> Thread(waiters, tails, ids, first)
  {
    if forall k: nat | k < |ids| :: ids[k] < |waiters| {
      forall k: nat | k < |ids| ensures waiters[ids[k]].tail == tails[ids[k]] {
        assert ids[k] in ids;
      }
    }
  }

  lemma TableKept(waiters: seq<Waiter>, tails: seq<Waiter?>, waiting: map<nat, Waiter>, chains: map<nat, seq<nat>>,
                  id: nat)
    requires Recorded(waiters, tails, id) && forall io | io in chains :: id !in chains[io]
    ensures Table(waiters, waiting, chains) <==>
            waiting.Keys == chains.Keys &&
            forall io | io in waiting :: chains[io] != [] && Thread(waiters, tails, chains[io], waiting[io])
  {
    if waiting.Keys == chains.Keys {
      forall io | io in waiting
        ensures Threaded(waiters, chains[io], waiting[io]) <==> Thread(waiters, tails, chains[io], waiting[io])
      {
        ThreadKept(waiters, tails, chains[io], waiting[io], id);
      }
    }
  }

  /** The waiter `id`, whose tail is the chain of `io`, becomes its first. */
  lemma TableFirst(waiters: seq<Waiter>, waiting: map<nat, Waiter>, chains: map<nat, seq<nat>>, io: nat, id: nat)
    requires Table(waiters, waiting, chains) && id < |waiters|
    requires waiters[id].tail == if io in waiting then waiting[io] else null
    ensures var chain := if io in chains then chains[io] else [];
            Table(waiters, waiting[io := waiters[id]], chains[io := [id] + chain])
  {
    var chain := if io in chains then chains[io] else [];
    assert io !in chains ==> Threaded(waiters, [], null);
    ThreadFirst(waiters, chain, id, waiters[id].tail);
  }

  lemma TableMore(waiters: seq<Waiter>, more: seq<Waiter>, waiting: map<nat, Waiter>, chains: map<nat, seq<nat>>)
    requires Table(waiters, waiting, chains)
    ensures Table(waiters + more, waiting, chains)
  {
    forall io | io in waiting ensures Threaded(waiters + more, chains[io], waiting[io]) {
      ThreadMore(waiters, more, chains[io], waiting[io]);
    }
  }

  /** A waiter refers to its fiber exactly while its call is live. */
  ghost predicate Alive(waiters: seq<Waiter>, live: set<nat>)
    reads SetOf(waiters)`fiber
  {
    forall k: nat | k < |waiters| :: waiters[k].fiber <==> k in live
  }

  lemma AliveMore(waiters: seq<Waiter>, calls: seq<S.Call>, live: set<nat>, waiter: Waiter, call: S.Call)
    requires Created(waiters, calls) && Alive(waiters, live)
    requires waiter.fiber && waiter.id == |waiters| && waiter.events == call.events
    ensures Created(waiters + [waiter], calls + [call]) && Alive(waiters + [waiter], live + {|waiters|})
  {
  }

  // ----- The arrays of IO.select -----

  /** `readable`, `writable` and `priority`; an IO may be there several times. */
  datatype Arrays = Arrays(readable: seq<nat>, writable: seq<nat>, priority: seq<nat>)

  predicate Asked(a: Arrays, io: nat, e: Event) {
    match e
    case Readable => io in a.readable
    case Writable => io in a.writable
    case Priority => io in a.priority
    case Exit => false
  }

  method Append(a: Arrays, io: nat, events: Events) returns (r: Arrays)
    ensures forall x, e :: Asked(r, x, e) <==> Asked(a, x, e) || (x == io && e in events && e in S.SELECTABLE)
  {
    r := a;
    if Readable in events { r := r.(readable := r.readable + [io]); }
    if Writable in events { r := r.(writable := r.writable + [io]); }
    if Priority in events { r := r.(priority := r.priority + [io]); }
  }

  /** The IOs of one array that are ready, in their order. */
  method Filter(ios: seq<nat>, available: map<nat, Events>, e: Event) returns (r: seq<nat>)
    ensures forall io :: io in r <==> io in ios && io in available && e in available[io]
  {
    r := [];
    for i := 0 to |ios|
      invariant forall io :: io in r <==> io in ios[..i] && io in available && e in available[io]
    {
      if ios[i] in available && e in available[ios[i]] { r := r + [ios[i]]; }
    }
  }

  /** IO.select, when it finds `available`: those of the given IOs that are ready. */
  method IOSelect(a: Arrays, available: map<nat, Events>) returns (r: Arrays)
    ensures forall io, e :: Asked(r, io, e) <==> Asked(a, io, e) && io in available && e in available[io]
  {
    var readable := Filter(a.readable, available, Readable);
    var writable := Filter(a.writable, available, Writable);
    var priority := Filter(a.priority, available, Priority);
    r := Arrays(readable, writable, priority);
  }

  /** `ready[io] |= e`, in a hash that keeps the order of its first assignments. */
  function Marked(ready: seq<(nat, Events)>, io: nat, e: Event): (r: seq<(nat, Events)>)
    ensures |ready| <= |r| <= |ready| + 1
    ensures forall k | 0 <= k < |ready| :: r[k].0 == ready[k].0
    ensures |r| > |ready| ==> r[|ready|].0 == io && forall k | 0 <= k < |ready| :: ready[k].0 != io
    ensures (forall k | 0 <= k < |ready| :: ready[k].1 != {}) ==> forall k | 0 <= k < |r| :: r[k].1 != {}
  {
    if ready == [] then [(io, {e})]
    else if ready[0].0 == io then [(io, ready[0].1 + {e})] + ready[1..]
    else [ready[0]] + Marked(ready[1..], io, e)
  }

  lemma {:induction false} MarkedEvents(ready: seq<(nat, Events)>, io: nat, e: Event, x: nat)
    ensures S.EventsOf(Marked(ready, io, e), x) == S.EventsOf(ready, x) + if x == io then {e} else {}
  {
    if ready == [] {
    } else {
      var first, rest := ready[0], ready[1..];
      if first.0 == io {
        EventsCons((io, first.1 + {e}), rest, x);
      } else {
        MarkedEvents(rest, io, e, x);
        EventsCons(first, Marked(rest, io, e), x);
        UnionLater(if first.0 == x then first.1 else {}, S.EventsOf(rest, x), if x == io then {e} else {});
      }
    }
  }

  lemma UnionLater(a: Events, b: Events, c: Events)
    ensures a + (b + c) == a + b + c
  {
  }

  lemma EventsCons(first: (nat, Events), rest: seq<(nat, Events)>, x: nat)
    ensures S.EventsOf([first] + rest, x) == (if first.0 == x then first.1 else {}) + S.EventsOf(rest, x)
  {
    assert ([first] + rest)[1..] == rest;
  }

  ghost predicate Hash(ready: seq<(nat, Events)>) {
    S.Once(ready) && forall k | 0 <= k < |ready| :: ready[k].1 != {}
  }

  /** The loop over one array that IO.select returned. */
  method MergeArray(ready: seq<(nat, Events)>, ios: seq<nat>, e: Event) returns (r: seq<(nat, Events)>)
    requires Hash(ready)
    ensures Hash(r)
    ensures forall x :: S.EventsOf(r, x) == S.EventsOf(ready, x) + if x in ios then {e} else {}
  {
    r := ready;
    for i := 0 to |ios|
      invariant Hash(r)
      invariant forall x :: S.EventsOf(r, x) == S.EventsOf(ready, x) + if x in ios[..i] then {e} else {}
    {
      forall x
        ensures S.EventsOf(Marked(r, ios[i], e), x) == S.EventsOf(ready, x) + if x in ios[..i + 1] then {e} else {}
      {
        MarkedEvents(r, ios[i], e, x);
        assert ios[..i + 1] == ios[..i] + [ios[i]];
      }
      r := Marked(r, ios[i], e);
    }
    assert ios[..|ios|] == ios;
  }

  /** The ready table. */
  method Merge(a: Arrays) returns (ready: seq<(nat, Events)>)
    ensures Hash(ready)
    ensures forall x, e :: e in S.EventsOf(ready, x) <==> Asked(a, x, e)
  {
    ready := MergeArray([], a.readable, Readable);
    ready := MergeArray(ready, a.writable, Writable);
    ready := MergeArray(ready, a.priority, Priority);
  }

  /** The arrays ask about every selectable event that a live waiter on one of the IOs `done` wants. */
  ghost predicate Gathered(s: S.Select, done: set<nat>, a: Arrays) {
    forall io, e :: Asked(a, io, e) <==> io in done && e in S.SELECTABLE && e in S.WantedOn(s, io)
  }

  lemma GatheredMore(s: S.Select, done: set<nat>, more: set<nat>, io: nat, a: Arrays, r: Arrays)
    requires Gathered(s, done, a) && more == done + {io}
    requires forall x, e :: Asked(r, x, e) <==>
               Asked(a, x, e) || (x == io && e in S.SELECTABLE && e in S.WantedOn(s, io))
    ensures Gathered(s, more, r)
  {
  }

  lemma MergedIsReported(s: S.Select, available: map<nat, Events>, asked: Arrays, found: Arrays,
                         ready: seq<(nat, Events)>)
    requires Hash(ready) && Gathered(s, s.waiting.Keys, asked)
    requires forall io, e :: Asked(found, io, e) <==> Asked(asked, io, e) && io in available && e in available[io]
    requires forall io, e :: e in S.EventsOf(ready, io) <==> Asked(found, io, e)
    ensures S.Reported(s, available, ready)
  {
    forall io
      ensures S.EventsOf(ready, io) == if io in available then S.WantedOn(s, io) * available[io] * S.SELECTABLE else {}
    {
      forall e ensures e in S.EventsOf(ready, io) <==>
                       io in available && e in S.WantedOn(s, io) * available[io] * S.SELECTABLE
      {
        assert Asked(found, io, e) <==> Asked(asked, io, e) && io in available && e in available[io];
      }
    }
  }

  class Selector {
    /** The first waiter of each chain. */
    var waiting: map<nat, Waiter>
    /** The waiters of all calls of io_wait, which their frames hold, by number. */
    var waiters: seq<Waiter>
    var ended: set<nat>
    var log: seq<S.Event>

    ghost var model: S.Select

    ghost predicate Chains(m: S.Select)
      reads this`waiting, this`waiters, SetOf(waiters)`tail
    {
      Table(waiters, waiting, m.waiting)
    }

    ghost predicate Fields(m: S.Select)
      reads this`waiters, this`ended, this`log, SetOf(waiters)`fiber
    {
      && Created(waiters, m.calls)
      && Alive(waiters, m.live)
      && ended == m.ended
      && log == m.log
    }

    /** While the chain `rest` of `io`, which starts at `first`, is being dispatched. */
    ghost predicate Valid(io: nat, rest: seq<nat>, first: Waiter?)
      reads this, SetOf(waiters)
    {
      && S.Inv(model, io, rest)
      && Chains(model)
      && Fields(model)
      && Threaded(waiters, rest, first)
    }

    constructor ()
      ensures Valid(0, [], null) && model == S.Initial()
    {
      waiting, waiters, ended, log := map[], [], {}, [];
      model := S.Initial();
    }

    /** The fields take the values that stand for `m`. */
    method Become(waiting: map<nat, Waiter>, waiters: seq<Waiter>, ghost m: S.Select, ghost io: nat,
                  ghost rest: seq<nat>, ghost first: Waiter?)
      requires S.Inv(m, io, rest) && ended == m.ended && log == m.log
      requires Table(waiters, waiting, m.waiting) && Created(waiters, m.calls) && Alive(waiters, m.live)
      requires Threaded(waiters, rest, first)
      modifies this`waiting, this`waiters, this`model
      ensures Valid(io, rest, first) && model == m && this.waiting == waiting && this.waiters == waiters
    {
      this.waiting, this.waiters, model := waiting, waiters, m;
    }

    // ----- io_wait -----

    /** The waiter becomes the first of its chain. */
    method Enlist(waiter: Waiter, on: nat, ghost io: nat, ghost rest: seq<nat>, ghost first: Waiter?)
      requires Valid(io, rest, first) && waiter !in waiters && waiter.id == |waiters| && waiter.fiber
      requires waiter.tail == if on in waiting then waiting[on] else null
      modifies this`waiting, this`waiters, this`model
      ensures Valid(io, rest, first) && model == S.Waited(old(model), on, waiter.events)
      ensures waiters == old(waiters) + [waiter] && waiting == old(waiting)[on := waiter]
    {
      ghost var m := S.Waited(model, on, waiter.events);
      S.WaitKeeps(model, io, rest, on, waiter.events);
      AliveMore(waiters, model.calls, model.live, waiter, S.Call(on, waiter.events));
      TableMore(waiters, [waiter], waiting, model.waiting);
      ThreadMore(waiters, [waiter], rest, first);
      TableFirst(waiters + [waiter], waiting, model.waiting, on, |waiters|);
      Become(waiting[on := waiter], waiters + [waiter], m, io, rest, first);
    }

    /** io_wait up to its transfer to the loop. */
    method IoWait(on: nat, events: Events, ghost io: nat, ghost rest: seq<nat>, ghost first: Waiter?)
      returns (waiter: Waiter)
      requires Valid(io, rest, first)
      modifies this`waiting, this`waiters, this`model
      ensures Valid(io, rest, first) && model == S.Waited(old(model), on, events)
      ensures fresh(waiter) && waiters == old(waiters) + [waiter] && waiter.fiber && waiter.events == events
      ensures waiting == old(waiting)[on := waiter]
      ensures waiter.tail == old(if on in waiting then waiting[on] else null)
    {
      waiter := new Waiter(|waiters|, events, if on in waiting then waiting[on] else null);
      Enlist(waiter, on, io, rest, first);
    }

    /** Waiter#invalidate, or `self.fiber = nil`. */
    method Invalidate(id: nat, ghost rest: seq<nat>, ghost first: Waiter?)
      requires id < |waiters| && Created(waiters, model.calls) && Alive(waiters, model.live)
      requires Table(waiters, waiting, model.waiting) && Threaded(waiters, rest, first)
      modifies SetOf(waiters)`fiber
      ensures Alive(waiters, model.live - {id}) && Created(waiters, model.calls) && !waiters[id].fiber
      ensures Table(waiters, waiting, model.waiting) && Threaded(waiters, rest, first)
    {
      DifferentWaiters();
      waiters[id].fiber := false;
    }

    lemma DifferentWaiters()
      requires Created(waiters, model.calls)
      ensures forall j, k | 0 <= j < k < |waiters| :: waiters[j] != waiters[k]
    {
      forall j, k | 0 <= j < k < |waiters| ensures waiters[j] != waiters[k] {
        assert waiters[j].id == j && waiters[k].id == k;
      }
    }

    /** The ensure of io_wait, for a fiber that was resumed by something else. */
    method Return(id: nat, ghost io: nat, ghost rest: seq<nat>, ghost first: Waiter?)
      requires Valid(io, rest, first)
      modifies this`waiting, this`waiters, this`log, this`model, SetOf(waiters)`fiber
      ensures Valid(io, rest, first) && model == S.Act(old(model), S.Return(id))
      ensures waiters == old(waiters) && waiting == old(waiting)
      ensures id < |waiters| ==> !waiters[id].fiber
      ensures log == old(log) + if id < |waiters| && old(waiters[id].fiber) then [S.Returned(id)] else []
    {
      if id < |waiters| && waiters[id].fiber {
        ReturnLive(id, io, rest, first);
      }
    }

    method ReturnLive(id: nat, ghost io: nat, ghost rest: seq<nat>, ghost first: Waiter?)
      requires Valid(io, rest, first) && id < |waiters| && waiters[id].fiber
      modifies this`waiting, this`waiters, this`log, this`model, SetOf(waiters)`fiber
      ensures Valid(io, rest, first) && model == S.Act(old(model), S.Return(id))
      ensures waiters == old(waiters) && waiting == old(waiting)
      ensures !waiters[id].fiber && log == old(log) + [S.Returned(id)]
    {
      S.ReturnKeeps(model, io, rest, id);
      Withdraw(id, S.Act(model, S.Return(id)), io, rest, first);
    }

    method Withdraw(id: nat, ghost m: S.Select, ghost io: nat, ghost rest: seq<nat>, ghost first: Waiter?)
      requires Chains(model) && Fields(model) && Threaded(waiters, rest, first) && S.Inv(m, io, rest)
      requires id < |waiters| && m == model.(live := model.live - {id}, log := model.log + [S.Returned(id)])
      modifies this`waiting, this`waiters, this`log, this`model, SetOf(waiters)`fiber
      ensures Valid(io, rest, first) && model == m
      ensures waiters == old(waiters) && waiting == old(waiting)
      ensures !waiters[id].fiber && log == old(log) + [S.Returned(id)]
    {
      log := log + [S.Returned(id)];
      Invalidate(id, rest, first);
      Become(waiting, waiters, m, io, rest, first);
    }

    /** The fiber of a waiter terminates without leaving io_wait. */
    method End(id: nat, ghost io: nat, ghost rest: seq<nat>, ghost first: Waiter?)
      requires Valid(io, rest, first)
      modifies this
      ensures Valid(io, rest, first) && model == S.Act(old(model), S.End(id))
      ensures waiters == old(waiters) && waiting == old(waiting) && log == old(log) && ended == old(ended) + {id}
    {
      ghost var m := S.Act(model, S.End(id));
      S.ActKeeps(model, io, rest, S.End(id));
      ended := ended + {id};
      Become(waiting, waiters, m, io, rest, first);
    }

    method Perform(a: S.Action, ghost io: nat, ghost rest: seq<nat>, ghost first: Waiter?)
      requires Valid(io, rest, first)
      modifies this, SetOf(waiters)`fiber
      ensures Valid(io, rest, first) && model == S.Act(old(model), a)
      ensures forall w | w in waiters :: w in old(waiters) || fresh(w)
    {
      match a {
        case Wait(on, events) => var _ := IoWait(on, events, io, rest, first);
        case Return(id) => Return(id, io, rest, first);
        case End(id) => End(id, io, rest, first);
      }
    }

    /** What a resumed fiber does. */
    method RunScript(script: S.Script, ghost io: nat, ghost rest: seq<nat>, ghost first: Waiter?)
      requires Valid(io, rest, first)
      modifies this, SetOf(waiters)`fiber
      ensures Valid(io, rest, first) && model == S.Run(old(model), script)
      ensures forall w | w in waiters :: w in old(waiters) || fresh(w)
    {
      var i := 0;
      assert script[..0] == [];
      while i < |script|
        invariant 0 <= i <= |script|
        invariant Valid(io, rest, first) && model == S.Run(old(model), script[..i])
        invariant forall w | w in waiters :: w in old(waiters) || fresh(w)
      {
        S.RunStep(old(model), script, i);
        Perform(script[i], io, rest, first);
        i := i + 1;
      }
      assert script[..i] == script;
    }

    // ----- Waiter#dispatch -----

    /** The waiter at the front of `rest`: its number, and what it refers to. */
    lemma Front(io: nat, rest: seq<nat>, first: Waiter)
      requires Valid(io, rest, first)
      ensures rest != [] && rest[0] < |waiters| == |model.calls| && waiters[rest[0]] == first
      ensures first.id == rest[0] && first.events == model.calls[rest[0]].events
      ensures first.fiber <==> rest[0] in model.live
      ensures Threaded(waiters, rest[1..], first.tail)
    {
      ThreadRest(waiters, rest, first);
    }

    /** A waiter without a fiber is passed over. */
    ghost method PassOver(io: nat, rest: seq<nat>, first: Waiter)
      requires Valid(io, rest, first) && !first.fiber
      ensures rest != [] && Valid(io, rest[1..], first.tail)
    {
      Front(io, rest, first);
      S.TailKeeps(model, io, rest);
    }

    /** The fiber has terminated: the waiter forgets it. */
    method Forget(first: Waiter, ghost io: nat, ghost rest: seq<nat>)
      requires Valid(io, rest, first) && first.fiber
      modifies this, SetOf(waiters)`fiber
      ensures rest != [] && Valid(io, rest[1..], first.tail)
      ensures model == old(model).(live := old(model).live - {rest[0]})
      ensures waiters == old(waiters)
    {
      Front(io, rest, first);
      ghost var id := rest[0];
      ghost var m := model.(live := model.live - {id});
      assert S.Inv(m, io, rest);
      S.TailKeeps(m, io, rest);
      Invalidate(first.id, rest[1..], first.tail);
      Become(waiting, waiters, m, io, rest[1..], first.tail);
    }

    /** The reactivate block: the waiter becomes the first of the chain that grew meanwhile. */
    method Reactivate(first: Waiter, io: nat, ghost rest: seq<nat>)
      requires Valid(io, rest, first) && first.fiber
      modifies this, SetOf(waiters)`tail
      ensures rest != [] && Valid(io, rest[1..], old(first.tail))
      ensures model == old(model).(waiting := old(model).waiting[io := [rest[0]] + S.Chain(old(model), io)])
      ensures waiters == old(waiters) && waiting == old(waiting)[io := first]
      ensures first.tail == old(if io in waiting then waiting[io] else null)
    {
      Front(io, rest, first);
      ghost var m := model.(waiting := model.waiting[io := [rest[0]] + S.Chain(model, io)]);
      ghost var tail := first.tail;
      S.KeptKeeps(model, io, rest);
      Rewire(first, if io in waiting then waiting[io] else null, rest[0], rest[1..], tail);
      TableFirst(waiters, waiting, model.waiting, io, rest[0]);
      Become(waiting[io := first], waiters, m, io, rest[1..], tail);
    }

    /** The tail of a waiter that is in no chain changes. */
    method Rewire(waiter: Waiter, tail: Waiter?, ghost id: nat, ghost rest: seq<nat>, ghost first: Waiter?)
      requires id < |waiters| && waiters[id] == waiter && Created(waiters, model.calls) && Alive(waiters, model.live)
      requires Table(waiters, waiting, model.waiting) && Threaded(waiters, rest, first)
      requires id !in rest && forall io | io in model.waiting :: id !in model.waiting[io]
      modifies waiter`tail
      ensures waiter.tail == tail && Created(waiters, model.calls) && Alive(waiters, model.live)
      ensures Table(waiters, waiting, model.waiting) && Threaded(waiters, rest, first)
    {
      DifferentWaiters();
      ghost var tails := Tails(waiters);
      ThreadKept(waiters, tails, rest, first, id);
      TableKept(waiters, tails, waiting, model.waiting, id);
      waiter.tail := tail;
      ThreadKept(waiters, tails, rest, first, id);
      TableKept(waiters, tails, waiting, model.waiting, id);
    }

    /** The fiber of a matching waiter is resumed; the waiter forgets it first. */
    method Resume(first: Waiter, io: nat, revents: Events, script: S.Script, ghost rest: seq<nat>)
      requires Valid(io, rest, first) && first.fiber
      modifies this, SetOf(waiters)`fiber
      ensures rest != [] && Valid(io, rest[1..], first.tail)
      ensures model == S.Run(old(model).(live := old(model).live - {rest[0]},
                                         log := old(model).log + [S.Transferred(rest[0], revents)]), script)
      ensures forall w | w in waiters :: w in old(waiters) || fresh(w)
    {
      Front(io, rest, first);
      ghost var m := model.(live := model.live - {rest[0]}, log := model.log + [S.Transferred(rest[0], revents)]);
      S.ResumedKeeps(model, io, rest, revents);
      log := log + [S.Transferred(first.id, revents)];
      Invalidate(first.id, rest[1..], first.tail);
      Become(waiting, waiters, m, io, rest[1..], first.tail);
      RunScript(script, io, rest[1..], first.tail);
    }

    /** Waiter#dispatch for one waiter. */
    method Visit(first: Waiter, io: nat, events: Events, script: S.Script, ghost rest: seq<nat>) returns (resumed: bool)
      requires Valid(io, rest, first)
      modifies this, SetOf(waiters)
      ensures rest != [] && Valid(io, rest[1..], old(first.tail))
      ensures rest[0] < |old(model).calls| && resumed == S.Resumes(old(model), rest[0], events)
      ensures model == S.Visit(old(model), io, rest[0], events, script)
      ensures forall w | w in waiters :: w in old(waiters) || fresh(w)
    {
      Front(io, rest, first);
      resumed := false;
      if !first.fiber {
        PassOver(io, rest, first);
      } else if first.id in ended {
        Forget(first, io, rest);
      } else {
        var revents := first.events * events;
        if revents == {} {
          Reactivate(first, io, rest);
        } else {
          Resume(first, io, revents, script, rest);
          resumed := true;
        }
      }
    }

    /** Waiter#dispatch: the tail is captured before the waiter is rewired or its fiber runs. */
    method Dispatch(waiter: Waiter?, io: nat, events: Events, scripts: seq<S.Script>, ghost rest: seq<nat>)
      returns (left: seq<S.Script>)
      requires Valid(io, rest, waiter)
      modifies this, SetOf(waiters)
      ensures Valid(io, [], null)
      ensures forall id | id in rest :: id < |old(model).calls|
      ensures (model, left) == S.Dispatch(old(model), io, rest, events, scripts)
      ensures forall w | w in waiters :: w in old(waiters) || fresh(w)
      decreases |rest|
    {
      if waiter == null {
        left := scripts;
      } else {
        var tail := waiter.tail;
        var resumed := Visit(waiter, io, events, First(scripts), rest);
        left := Dispatch(tail, io, events, if resumed then Rest(scripts) else scripts, rest[1..]);
      }
    }

    /** One IO of the ready table: `@waiting.delete(io).dispatch(events)`. */
    method DispatchIO(io: nat, events: Events, scripts: seq<S.Script>) returns (left: seq<S.Script>)
      requires Valid(0, [], null) && io in waiting
      modifies this, SetOf(waiters)
      ensures Valid(0, [], null)
      ensures S.Quiet(old(model)) && io in old(model).waiting
      ensures (model, left) == S.DispatchIO(old(model), io, events, scripts)
      ensures forall w | w in waiters :: w in old(waiters) || fresh(w)
    {
      var waiter := waiting[io];
      ghost var m := model.(waiting := model.waiting - {io});
      S.TakenOut(model, io);
      ghost var chain := model.waiting[io];
      Become(waiting - {io}, waiters, m, io, chain, waiter);
      left := Dispatch(waiter, io, events, scripts, chain);
    }

    /** The loop of select over the ready table, whose IOs are different and had an entry when it was built. */
    method DispatchReady(ready: seq<(nat, Events)>, scripts: seq<S.Script>)
      requires Valid(0, [], null) && S.Pending(model, ready)
      modifies this, SetOf(waiters)
      ensures Valid(0, [], null)
      ensures S.Quiet(old(model)) && S.Pending(old(model), ready)
      ensures model == S.Round(old(model), ready, scripts)
      ensures old(log) <= log && old(|waiters|) <= |waiters| == |model.calls|
      ensures forall e | e in log[old(|log|)..] && e.Transferred? :: exists k :: R.TransferFor(model, e, ready, k)
      ensures forall id | 0 <= id < old(|waiters|) && old(waiters[id].fiber) ::
                FiberOutcome(id, waiters[id].events * S.EventsOf(ready, model.calls[id].io), log[old(|log|)..])
    {
      ghost var s := model;
      R.RoundTold(s, ready, scripts);
      Walk(ready, scripts);
      forall id | 0 <= id < old(|waiters|) && old(waiters[id].fiber)
        ensures id < |waiters|
        ensures FiberOutcome(id, waiters[id].events * S.EventsOf(ready, model.calls[id].io), log[|s.log|..])
      {
        OutcomeTold(s, id, s.calls[id].events * S.EventsOf(ready, s.calls[id].io));
      }
    }

    /** The fields tell of a waiter what the model does. */
    lemma OutcomeTold(s: S.Select, id: nat, matching: Events)
      requires Fields(model) && R.Forward(s, model) && id < |s.calls| && R.Outcome(s, model, id, matching)
      ensures id < |waiters| == |model.calls| && model.calls[id] == s.calls[id]
      ensures waiters[id].events == s.calls[id].events
      ensures FiberOutcome(id, matching, log[|s.log|..])
    {
    }

    /** What became of a waiter that was offered `matching` of what it wants; `since` is what was logged. */
    ghost predicate FiberOutcome(id: nat, matching: Events, since: seq<S.Event>)
      requires id < |waiters|
      reads this`waiters, this`ended, SetOf(waiters)`fiber
    {
      && (matching == {} ==> waiters[id].fiber || id in ended || S.Returned(id) in since)
      && (matching != {} ==>
            !waiters[id].fiber
            && (id in ended || S.Transferred(id, matching) in since || S.Returned(id) in since))
    }

    method Walk(ready: seq<(nat, Events)>, scripts: seq<S.Script>)
      requires Valid(0, [], null) && S.Pending(model, ready)
      modifies this, SetOf(waiters)
      ensures Valid(0, [], null)
      ensures S.Quiet(old(model)) && S.Pending(old(model), ready)
      ensures model == S.Round(old(model), ready, scripts)
    {
      var left := scripts;
      var rest := ready;
      ghost var done := S.Round(model, ready, scripts);
      while rest != []
        invariant Valid(0, [], null) && S.Pending(model, rest)
        invariant done == S.Round(model, rest, left)
        invariant forall w | w in waiters :: w in old(waiters) || fresh(w)
        decreases |rest|
      {
        S.RoundStep(model, rest, left);
        left := DispatchIO(rest[0].0, rest[0].1, left);
        rest := rest[1..];
      }
    }

    // ----- select -----

    /** Waiter#each, with the block of select: the IO is asked about once for every waiter that wants an event. */
    method Each(waiter: Waiter?, io: nat, ghost chain: seq<nat>, arrays: Arrays) returns (r: Arrays)
      requires Threaded(waiters, chain, waiter) && Fields(model)
      ensures forall x, e :: Asked(r, x, e) <==>
                Asked(arrays, x, e) || (x == io && e in S.SELECTABLE && e in WantedIn(chain))
      decreases |chain|
    {
      if waiter == null {
        r := arrays;
      } else {
        ThreadRest(waiters, chain, waiter);
        var more := arrays;
        if waiter.fiber {
          more := Append(arrays, io, waiter.events);
        }
        r := Each(waiter.tail, io, chain[1..], more);
      }
    }

    ghost function WantedIn(chain: seq<nat>): Events
      requires Fields(model)
      requires forall k: nat | k < |chain| :: chain[k] < |waiters|
      reads this, SetOf(waiters)`fiber
    {
      S.Wanted(model, chain)
    }

    /** One entry of the table. */
    method GatherNext(ios: set<nat>, arrays: Arrays) returns (left: set<nat>, r: Arrays)
      requires Valid(0, [], null) && ios != {} && ios <= waiting.Keys
      requires Gathered(model, waiting.Keys - ios, arrays)
      ensures left < ios && Gathered(model, waiting.Keys - left, r)
    {
      var io :| io in ios;
      r := Each(waiting[io], io, model.waiting[io], arrays);
      left := ios - {io};
      GatheredMore(model, waiting.Keys - ios, waiting.Keys - left, io, arrays, r);
    }

    /** The first loop of select over the table. */
    method Gather() returns (arrays: Arrays)
      requires Valid(0, [], null)
      ensures Gathered(model, model.waiting.Keys, arrays)
    {
      arrays := Arrays([], [], []);
      var ios := waiting.Keys;
      while ios != {}
        invariant ios <= waiting.Keys
        invariant Gathered(model, waiting.Keys - ios, arrays)
        decreases ios
      {
        ios, arrays := GatherNext(ios, arrays);
      }
      assert waiting.Keys - ios == model.waiting.Keys;
    }

    /** select from the first loop on, when IO.select finds `available`. */
    method Select(available: map<nat, Events>, scripts: seq<S.Script>) returns (ready: seq<(nat, Events)>)
      requires Valid(0, [], null)
      modifies this, SetOf(waiters)
      ensures Valid(0, [], null)
      ensures S.Quiet(old(model)) && S.Reported(old(model), available, ready) && S.Pending(old(model), ready)
      ensures model == S.Round(old(model), ready, scripts)
      ensures old(log) <= log && old(|waiters|) <= |waiters| == |model.calls|
      ensures forall e | e in log[old(|log|)..] && e.Transferred? ::
                && e.id < |waiters| && e.events != {}
                && e.events <= waiters[e.id].events * R.Found(available, model.calls[e.id].io)
      ensures forall id | 0 <= id < old(|waiters|) && old(waiters[id].fiber) ::
                FiberOutcome(id, waiters[id].events * R.Found(available, model.calls[id].io), log[old(|log|)..])
    {
      ghost var s := model;
      ready := Answer(available, scripts);
      R.SelectServes(s, available, ready, scripts);
      forall id | 0 <= id < old(|waiters|) && old(waiters[id].fiber)
        ensures id < |waiters|
        ensures FiberOutcome(id, waiters[id].events * R.Found(available, model.calls[id].io), log[|s.log|..])
      {
        OutcomeTold(s, id, s.calls[id].events * R.Found(available, s.calls[id].io));
      }
    }

    method Answer(available: map<nat, Events>, scripts: seq<S.Script>) returns (ready: seq<(nat, Events)>)
      requires Valid(0, [], null)
      modifies this, SetOf(waiters)
      ensures Valid(0, [], null)
      ensures S.Quiet(old(model)) && S.Reported(old(model), available, ready) && S.Pending(old(model), ready)
      ensures model == S.Round(old(model), ready, scripts)
    {
      var asked := Gather();
      var found := IOSelect(asked, available);
      ready := Merge(found);
      MergedIsReported(model, available, asked, found, ready);
      S.ReportedArePending(model, available, ready);
      DispatchReady(ready, scripts);
    }
  }
}
