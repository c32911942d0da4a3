/** The waiters of the pure Ruby selector, lib/io/event/selector/select.rb: one chain per IO, taken out of the table
    and walked while the fibers it resumes wait on the same IO again. */
module SelectWaiters {
  import opened Collections
  import opened Interest

  /** A call of io_wait. */
  datatype Call = Call(io: nat, events: Events)

  datatype Event = Transferred(id: nat, events: Events) | Returned(id: nat)

  /** Calls of io_wait are numbered; `waiting` maps an IO to the numbers in its chain. A waiter is live while it
      refers to its fiber; `ended` are those whose fiber terminated without leaving io_wait. `log` records transfers
      and calls that returned on their own. */
  datatype Select = Select(
    calls: seq<Call>,
    waiting: map<nat, seq<nat>>,
    live: set<nat>,
    ended: set<nat>,
    log: seq<Event>)

  /** What a fiber may do while it runs: wait on an IO (and suspend), make another call return early, or terminate
      the fiber of another call. */
  datatype Action = Wait(io: nat, events: Events) | Return(id: nat) | End(id: nat)

  type Script = seq<Action>

  function Chain(s: Select, io: nat): seq<nat> {
    if io in s.waiting then s.waiting[io] else []
  }

  /** io_wait up to its transfer: the new waiter is put in front of the chain. */
  function Waited(s: Select, io: nat, events: Events): Select {
    var id := |s.calls|;
    s.(calls := s.calls + [Call(io, events)], waiting := s.waiting[io := [id] + Chain(s, io)], live := s.live + {id})
  }

  function Act(s: Select, a: Action): Select {
    match a
    case Wait(io, events) => Waited(s, io, events)
    case Return(id) => if id in s.live then s.(live := s.live - {id}, log := s.log + [Returned(id)]) else s
    case End(id) => s.(ended := s.ended + {id})
  }

  function Run(s: Select, script: Script): Select {
    if script == [] then s else Act(Run(s, script[..|script| - 1]), script[|script| - 1])
  }

  /** Waiter#dispatch up to the recursive call, for the waiter of call `id` on `io`. */
  function Visit(s: Select, io: nat, id: nat, events: Events, script: Script): Select
    requires id < |s.calls|
  {
    if id !in s.live then s
    else if id in s.ended then s.(live := s.live - {id})
    else
      var matching := s.calls[id].events * events;
      if matching == {} then s.(waiting := s.waiting[io := [id] + Chain(s, io)])
      else Run(s.(live := s.live - {id}, log := s.log + [Transferred(id, matching)]), script)
  }

  predicate Resumes(s: Select, id: nat, events: Events)
    requires id < |s.calls|
  {
    id in s.live && id !in s.ended && s.calls[id].events * events != {}
  }

  lemma RunStep(s: Select, script: Script, i: nat)
    requires i < |script|
    ensures Run(s, script[..i + 1]) == Act(Run(s, script[..i]), script[i])
  {
    assert script[..i + 1][..i] == script[..i];
  }

  lemma {:induction false} RunExtends(s: Select, script: Script)
    ensures s.calls <= Run(s, script).calls && s.waiting.Keys <= Run(s, script).waiting.Keys
  {
    if script == [] {
    } else {
      RunExtends(s, script[..|script| - 1]);
    }
  }

  /** The rest of a chain that was taken out of the table; resumed fibers use up the scripts. */
  function Dispatch(s: Select, io: nat, chain: seq<nat>, events: Events, scripts: seq<Script>)
    : (r: (Select, seq<Script>))
    requires forall id | id in chain :: id < |s.calls|
    ensures s.waiting.Keys <= r.0.waiting.Keys && |s.calls| <= |r.0.calls|
    decreases |chain|
  {
    if chain == [] then (s, scripts)
    else
      var id := chain[0];
      assert id in chain && forall x | x in chain[1..] :: x in chain;
      var resumes := Resumes(s, id, events);
      var t := Visit(s, io, id, events, First(scripts));
      assert s.calls <= t.calls && s.waiting.Keys <= t.waiting.Keys by {
        VisitExtends(s, io, id, events, First(scripts));
      }
      Dispatch(t, io, chain[1..], events, if resumes then Rest(scripts) else scripts)
  }

  lemma VisitExtends(s: Select, io: nat, id: nat, events: Events, script: Script)
    requires id < |s.calls|
    ensures s.calls <= Visit(s, io, id, events, script).calls
    ensures s.waiting.Keys <= Visit(s, io, id, events, script).waiting.Keys
  {
    if Resumes(s, id, events) {
      RunExtends(s.(live := s.live - {id}, log := s.log + [Transferred(id, s.calls[id].events * events)]), script);
    }
  }

  /** One IO of the ready table: its chain leaves the table and is dispatched. */
  function DispatchIO(s: Select, io: nat, events: Events, scripts: seq<Script>): (Select, seq<Script>)
    requires io in s.waiting && forall id | id in s.waiting[io] :: id < |s.calls|
  {
    Dispatch(s.(waiting := s.waiting - {io}), io, s.waiting[io], events, scripts)
  }

  // ----- Invariant -----

  function LogIds(log: seq<Event>): seq<nat> {
    seq(|log|, i requires 0 <= i < |log| => log[i].id)
  }

  /** Outside the chain `rest` of `io` that is being dispatched, every live waiter is in the chain of its IO, once; no
      call is transferred to twice, nor after it returned. */
  ghost predicate Inv(s: Select, io: nat, rest: seq<nat>) {
    && (forall x | x in s.waiting :: Distinct(s.waiting[x]) &&
          forall id | id in s.waiting[x] :: id < |s.calls| && s.calls[id].io == x)
    && Distinct(rest)
    && (forall id | id in rest :: id < |s.calls| && s.calls[id].io == io && id !in Chain(s, io))
    && (forall id | id in s.live :: id < |s.calls| && (id in Chain(s, s.calls[id].io) || id in rest))
    && Distinct(LogIds(s.log))
    && (forall e | e in s.log :: e.id < |s.calls| && e.id !in s.live)
  }

  // ----- Every step keeps the invariant -----

  lemma FirstDistinct(id: nat, ids: seq<nat>)
    requires Distinct(ids) && id !in ids
    ensures Distinct([id] + ids) && forall x :: x in [id] + ids <==> x == id || x in ids
  {
  }

  lemma WaitKeeps(s: Select, io: nat, rest: seq<nat>, on: nat, events: Events)
    requires Inv(s, io, rest)
    ensures Inv(Waited(s, on, events), io, rest)
  {
    var id := |s.calls|;
    FirstDistinct(id, Chain(s, on));
  }

  lemma ReturnKeeps(s: Select, io: nat, rest: seq<nat>, id: nat)
    requires Inv(s, io, rest) && id in s.live
    ensures Inv(Act(s, Return(id)), io, rest)
  {
    LogOnce(s, Returned(id));
  }

  /** The log grows by an event of a live call, which is no longer live. */
  lemma LogOnce(s: Select, e: Event)
    requires Distinct(LogIds(s.log)) && forall f | f in s.log :: f.id != e.id
    ensures Distinct(LogIds(s.log + [e]))
  {
    var ids := LogIds(s.log);
    assert LogIds(s.log + [e]) == ids + [e.id];
    forall i | 0 <= i < |ids| ensures ids[i] != e.id { assert s.log[i] in s.log; }
  }

  lemma ActKeeps(s: Select, io: nat, rest: seq<nat>, a: Action)
    requires Inv(s, io, rest)
    ensures Inv(Act(s, a), io, rest)
  {
    match a
    case Wait(on, events) => WaitKeeps(s, io, rest, on, events);
    case Return(id) => if id in s.live { ReturnKeeps(s, io, rest, id); }
    case End(_) =>
  }

  lemma {:induction false} RunKeeps(s: Select, io: nat, rest: seq<nat>, script: Script)
    requires Inv(s, io, rest)
    ensures Inv(Run(s, script), io, rest)
  {
    if script == [] {
    } else {
      RunKeeps(s, io, rest, script[..|script| - 1]);
      ActKeeps(Run(s, script[..|script| - 1]), io, rest, script[|script| - 1]);
    }
  }

  lemma TailKeeps(s: Select, io: nat, rest: seq<nat>)
    requires Inv(s, io, rest) && rest != [] && rest[0] !in s.live
    ensures Inv(s, io, rest[1..])
  {
    assert rest == [rest[0]] + rest[1..];
  }

  lemma KeptKeeps(s: Select, io: nat, rest: seq<nat>)
    requires Inv(s, io, rest) && rest != []
    ensures Inv(s.(waiting := s.waiting[io := [rest[0]] + Chain(s, io)]), io, rest[1..])
  {
    var id, t := rest[0], s.(waiting := s.waiting[io := [rest[0]] + Chain(s, io)]);
    Members(rest);
    FirstDistinct(id, Chain(s, io));
    assert Chain(t, io) == [id] + Chain(s, io);
    forall x | x in s.live ensures x in Chain(t, s.calls[x].io) || x in rest[1..] {
      assert s.calls[x].io != io ==> Chain(t, s.calls[x].io) == Chain(s, s.calls[x].io);
    }
  }

  lemma Members(rest: seq<nat>)
    requires Distinct(rest) && rest != []
    ensures rest[0] in rest && Distinct(rest[1..])
    ensures forall x :: x in rest[1..] <==> x in rest && x != rest[0]
  {
    assert rest == [rest[0]] + rest[1..];
  }

  lemma ResumedKeeps(s: Select, io: nat, rest: seq<nat>, matching: Events)
    requires Inv(s, io, rest) && rest != [] && rest[0] in s.live
    ensures Inv(s.(live := s.live - {rest[0]}, log := s.log + [Transferred(rest[0], matching)]), io, rest[1..])
  {
    var t := s.(live := s.live - {rest[0]}, log := s.log + [Transferred(rest[0], matching)]);
    LogOnce(s, Transferred(rest[0], matching));
    assert Inv(t, io, rest);
    TailKeeps(t, io, rest);
  }

  lemma VisitKeeps(s: Select, io: nat, rest: seq<nat>, events: Events, script: Script)
    requires Inv(s, io, rest) && rest != []
    ensures rest[0] < |s.calls| && Inv(Visit(s, io, rest[0], events, script), io, rest[1..])
  {
    var id := rest[0];
    assert id in rest;
    if id !in s.live {
      TailKeeps(s, io, rest);
    } else if id in s.ended {
      assert Inv(s.(live := s.live - {id}), io, rest);
      TailKeeps(s.(live := s.live - {id}), io, rest);
    } else if s.calls[id].events * events == {} {
      KeptKeeps(s, io, rest);
    } else {
      var matching := s.calls[id].events * events;
      ResumedKeeps(s, io, rest, matching);
      RunKeeps(s.(live := s.live - {id}, log := s.log + [Transferred(id, matching)]), io, rest[1..], script);
    }
  }

  // ----- What a dispatch does to the waiters of its chain -----

  /** What was logged between `s` and a later state `r`. */
  function Since(s: Select, r: Select): seq<Event>
    requires s.log <= r.log
  {
    r.log[|s.log|..]
  }

  /** From `s` to `r` time passes: calls and logs grow, live calls leave with a log entry or with their fiber, and calls
      that were not live stay so. */
  ghost predicate Later(s: Select, r: Select) {
    && s.calls <= r.calls
    && s.log <= r.log
    && s.ended <= r.ended
    && s.waiting.Keys <= r.waiting.Keys
    && forall id | 0 <= id < |s.calls| ::
         && (id in r.live ==> id in s.live)
         && (id in s.live && id !in r.live ==> id in r.ended || exists e :: e in Since(s, r) && e.id == id)
  }

  /** Nobody was transferred to. */
  ghost predicate NoTransfer(s: Select, r: Select) {
    s.log <= r.log && forall e | e in Since(s, r) :: e.Returned?
  }

  lemma LaterThen(s: Select, t: Select, r: Select)
    requires Later(s, t) && Later(t, r)
    ensures Later(s, r) && Since(s, r) == Since(s, t) + Since(t, r)
  {
    assert Since(s, r) == Since(s, t) + Since(t, r);
    forall id | 0 <= id < |s.calls| && id in s.live && id !in r.live && id !in r.ended
      ensures exists e :: e in Since(s, r) && e.id == id
    {
      if id in t.live {
        var e :| e in Since(t, r) && e.id == id;
        assert e in Since(s, r);
      } else {
        var e :| e in Since(s, t) && e.id == id;
        assert e in Since(s, r);
      }
    }
  }

  lemma LoggedLater(s: Select, r: Select, e: Event)
    requires s.calls <= r.calls && r.log == s.log + [e] && r.live == s.live - {e.id}
    requires s.ended == r.ended && s.waiting == r.waiting
    ensures Later(s, r) && Since(s, r) == [e]
  {
    assert Since(s, r) == [e] && e in [e];
  }

  lemma ActLater(s: Select, a: Action)
    ensures Later(s, Act(s, a)) && NoTransfer(s, Act(s, a))
  {
    if a.Return? && a.id in s.live {
      LoggedLater(s, Act(s, a), Returned(a.id));
    } else {
      assert Since(s, Act(s, a)) == [];
    }
  }

  lemma {:induction false} RunLater(s: Select, script: Script)
    ensures Later(s, Run(s, script)) && NoTransfer(s, Run(s, script))
  {
    if script == [] {
      assert Since(s, s) == [];
    } else {
      var t := Run(s, script[..|script| - 1]);
      RunLater(s, script[..|script| - 1]);
      ActLater(t, script[|script| - 1]);
      LaterThen(s, t, Run(s, script));
    }
  }

  /** The outcome of `id` on the way from `s` to `r`: who is still live did not match and is listed again; who left was
      resumed with the matching events, or returned or ended by itself. */
  ghost predicate Settled(s: Select, r: Select, io: nat, id: nat, events: Events) {
    && Later(s, r)
    && id < |s.calls|
    && var matching := s.calls[id].events * events;
       && (id in r.live ==> matching == {} && id in Chain(r, io))
       && (id in s.live && matching != {} ==>
             id in r.ended || Transferred(id, matching) in Since(s, r) || Returned(id) in Since(s, r))
       && (id in s.live && matching == {} ==> id in r.live || id in r.ended || Returned(id) in Since(s, r))
       && (forall e | e in Since(s, r) && e.Transferred? && e.id == id ::
             id in s.live && id !in s.ended && e.events == matching && matching != {})
  }

  /** Transfers go to the chain only. */
  ghost predicate TransfersIn(s: Select, r: Select, chain: seq<nat>) {
    s.log <= r.log && forall e | e in Since(s, r) && e.Transferred? :: e.id in chain
  }

  /** One visit: the only transfer is to `id`, with its matching events, and only if there are any. */
  ghost predicate Visited(s: Select, t: Select, id: nat, events: Events) {
    && Later(s, t)
    && id < |s.calls|
    && var matching := s.calls[id].events * events;
       && (forall e | e in Since(s, t) && e.Transferred? ::
             id in s.live && id !in s.ended && e == Transferred(id, matching) && matching != {})
       && (id in s.live && matching != {} ==> id in t.ended || Transferred(id, matching) in Since(s, t))
       && (id in s.live && matching == {} ==> id in t.ended || id in t.live)
       && (id in t.live ==> matching == {})
  }

  lemma ResumedVisited(s: Select, id: nat, events: Events, script: Script)
    requires id < |s.calls| && Resumes(s, id, events)
    ensures var c := s.(live := s.live - {id}, log := s.log + [Transferred(id, s.calls[id].events * events)]);
            Visited(s, Run(c, script), id, events)
  {
    var e := Transferred(id, s.calls[id].events * events);
    var c := s.(live := s.live - {id}, log := s.log + [e]);
    LoggedLater(s, c, e);
    RunLater(c, script);
    LaterThen(s, c, Run(c, script));
    assert e in Since(s, c);
    assert id !in c.live && id !in Run(c, script).live;
  }

  lemma VisitVisited(s: Select, io: nat, id: nat, events: Events, script: Script)
    requires id < |s.calls|
    ensures Visited(s, Visit(s, io, id, events, script), id, events)
  {
    if Resumes(s, id, events) {
      ResumedVisited(s, id, events, script);
    } else {
      assert Since(s, Visit(s, io, id, events, script)) == [];
    }
  }

  lemma FirstSettled(s: Select, t: Select, r: Select, io: nat, id: nat, rest: seq<nat>, events: Events)
    requires Visited(s, t, id, events) && Later(t, r) && TransfersIn(t, r, rest) && id !in rest
    requires Inv(r, io, []) && s.calls[id].io == io
    ensures Settled(s, r, io, id, events)
  {
    LaterThen(s, t, r);
    if id in t.live && id !in r.live && id !in r.ended {
      var e :| e in Since(t, r) && e.id == id;
      assert e == Returned(id) && e in Since(s, r);
    }
  }

  lemma OtherSettled(s: Select, t: Select, r: Select, io: nat, id: nat, x: nat, events: Events)
    requires Visited(s, t, id, events) && Settled(t, r, io, x, events) && x != id && x < |s.calls|
    ensures Settled(s, r, io, x, events)
  {
    LaterThen(s, t, r);
    if x in s.live && x !in t.live && x !in t.ended {
      var e :| e in Since(s, t) && e.id == x;
      assert e == Returned(x) && e in Since(s, r);
    }
  }

  lemma TransfersThen(s: Select, t: Select, r: Select, id: nat, rest: seq<nat>, events: Events)
    requires Visited(s, t, id, events) && Later(t, r) && TransfersIn(t, r, rest)
    ensures TransfersIn(s, r, [id] + rest)
  {
    LaterThen(s, t, r);
  }

  lemma RestDiffers(ids: seq<nat>)
    requires Distinct(ids) && ids != []
    ensures ids[0] !in ids[1..]
  {
  }

  /** Waiter#dispatch under every re-entrant behaviour: the invariant holds again, so no live waiter is lost or
      listed twice; every waiter of the chain is settled as Settled says; nobody else is transferred to. */
  lemma {:induction false} DispatchSettles(s: Select, io: nat, chain: seq<nat>, events: Events, scripts: seq<Script>)
    requires Inv(s, io, chain)
    ensures var r := Dispatch(s, io, chain, events, scripts).0;
            && Inv(r, io, [])
            && Later(s, r)
            && TransfersIn(s, r, chain)
            && forall id | id in chain :: Settled(s, r, io, id, events)
    decreases |chain|
  {
    if chain == [] {
      assert Since(s, s) == [];
    } else {
      var id, rest := chain[0], chain[1..];
      assert id in chain && chain == [id] + rest;
      RestDiffers(chain);
      assert forall x | x in rest :: x in chain && x < |s.calls|;
      var t := Visit(s, io, id, events, First(scripts));
      var left := if Resumes(s, id, events) then Rest(scripts) else scripts;
      VisitKeeps(s, io, chain, events, First(scripts));
      var r := Dispatch(t, io, rest, events, left).0;
      VisitVisited(s, io, id, events, First(scripts));
      DispatchSettles(t, io, rest, events, left);
      LaterThen(s, t, r);
      TransfersThen(s, t, r, id, rest, events);
      FirstSettled(s, t, r, io, id, rest, events);
      forall x | x in rest ensures Settled(s, r, io, x, events) {
        OtherSettled(s, t, r, io, id, x, events);
      }
      assert r == Dispatch(s, io, chain, events, scripts).0;
    }
  }

  // ----- One round of select -----

  /** Nothing is being dispatched. */
  ghost predicate Quiet(s: Select) {
    Inv(s, 0, [])
  }

  lemma TakenOut(s: Select, io: nat)
    requires Quiet(s) && io in s.waiting
    ensures Inv(s.(waiting := s.waiting - {io}), io, s.waiting[io])
  {
  }

  predicate Pending(s: Select, ready: seq<(nat, Events)>) {
    && (forall k | 0 <= k < |ready| :: ready[k].0 in s.waiting)
    && (forall j, k | 0 <= j < k < |ready| :: ready[j].0 != ready[k].0)
  }

  /** The loop over the ready table, whose IOs are different and had an entry when it was built: each still has one
      when its turn comes. */
  ghost function Round(s: Select, ready: seq<(nat, Events)>, scripts: seq<Script>): (r: Select)
    requires Quiet(s) && Pending(s, ready)
    ensures Quiet(r)
    decreases |ready|
  {
    if ready == [] then s
    else
      RoundStep(s, ready, scripts);
      var (t, left) := DispatchIO(s, ready[0].0, ready[0].1, scripts);
      Round(t, ready[1..], left)
  }

  /** The IOs that are still to come keep their entries. */
  lemma RoundStep(s: Select, ready: seq<(nat, Events)>, scripts: seq<Script>)
    requires Quiet(s) && Pending(s, ready) && ready != []
    ensures ready[0].0 in s.waiting && forall id | id in s.waiting[ready[0].0] :: id < |s.calls|
    ensures var t := DispatchIO(s, ready[0].0, ready[0].1, scripts).0;
            Quiet(t) && Pending(t, ready[1..])
  {
    var (io, events) := ready[0];
    TakenOut(s, io);
    DispatchSettles(s.(waiting := s.waiting - {io}), io, s.waiting[io], events, scripts);
  }

  // ----- What is selected -----

  /** The events IO.select is asked about. */
  const SELECTABLE: Events := {Readable, Writable, Priority}

  /** Waiter#each: what the waiters of a chain that still refer to their fibers ask for. */
  function Wanted(s: Select, chain: seq<nat>): Events
    requires forall id | id in chain :: id < |s.calls|
  {
    if chain == [] then {}
    else
      assert chain[0] in chain && forall x | x in chain[1..] :: x in chain;
      (if chain[0] in s.live then s.calls[chain[0]].events else {}) + Wanted(s, chain[1..])
  }

  function WantedOn(s: Select, io: nat): Events {
    if forall id | id in Chain(s, io) :: id < |s.calls| then Wanted(s, Chain(s, io)) else {}
  }

  /** What `ready` reports of one IO. */
  function EventsOf(ready: seq<(nat, Events)>, io: nat): Events {
    if ready == [] then {}
    else (if ready[0].0 == io then ready[0].1 else {}) + EventsOf(ready[1..], io)
  }

  ghost predicate Once(ready: seq<(nat, Events)>) {
    forall j, k | 0 <= j < k < |ready| :: ready[j].0 != ready[k].0
  }

  /** The ready table once IO.select has found `available`: each IO at most once, with the events that a waiter asked
      for and that are there. */
  ghost predicate Reported(s: Select, available: map<nat, Events>, ready: seq<(nat, Events)>) {
    && Once(ready)
    && (forall k | 0 <= k < |ready| :: ready[k].1 != {})
    && forall io :: EventsOf(ready, io) ==
                    if io in available then WantedOn(s, io) * available[io] * SELECTABLE else {}
  }

  lemma {:induction false} ReportAt(ready: seq<(nat, Events)>, k: nat)
    requires Once(ready) && k < |ready|
    ensures EventsOf(ready, ready[k].0) == ready[k].1
  {
    if k == 0 {
      NoReport(ready[1..], ready[0].0);
    } else {
      ReportAt(ready[1..], k - 1);
    }
  }

  lemma {:induction false} NoReport(ready: seq<(nat, Events)>, io: nat)
    requires forall k | 0 <= k < |ready| :: ready[k].0 != io
    ensures EventsOf(ready, io) == {}
  {
    if ready == [] {
    } else {
      NoReport(ready[1..], io);
    }
  }

  /** Every IO of the ready table has an entry. */
  lemma ReportedArePending(s: Select, available: map<nat, Events>, ready: seq<(nat, Events)>)
    requires Reported(s, available, ready)
    ensures Pending(s, ready)
  {
    forall k | 0 <= k < |ready| ensures ready[k].0 in s.waiting { ReportAt(ready, k); }
  }

  lemma {:induction false} Asker(s: Select, chain: seq<nat>, found: Events) returns (id: nat)
    requires (forall x | x in chain :: x < |s.calls|) && Wanted(s, chain) * found != {}
    ensures id in chain && id in s.live && s.calls[id].events * found != {}
  {
    if chain == [] {
    } else {
      id := chain[0];
      assert id in chain && forall x | x in chain[1..] :: x in chain;
      if id !in s.live || s.calls[id].events * found == {} {
        assert Wanted(s, chain[1..]) * found != {};
        id := Asker(s, chain[1..], found);
      }
    }
  }

  /** A live waiter asks for something that `report` offers. */
  predicate Asks(s: Select, id: nat, report: (nat, Events)) {
    id in s.live && id < |s.calls| && s.calls[id].io == report.0 && s.calls[id].events * report.1 != {}
  }

  /** Calls keep their numbers, and a call that is not live stays so. */
  ghost predicate Onward(s: Select, r: Select) {
    s.calls <= r.calls && forall id | id in r.live && id < |s.calls| :: id in s.live
  }

  lemma StepServes(s: Select, ready: seq<(nat, Events)>, scripts: seq<Script>)
    requires Quiet(s) && Pending(s, ready) && ready != []
    ensures ready[0].0 in s.waiting && forall id | id in s.waiting[ready[0].0] :: id < |s.calls|
    ensures var t := DispatchIO(s, ready[0].0, ready[0].1, scripts).0;
            Onward(s, t) && forall id | Asks(s, id, ready[0]) :: id !in t.live
  {
    var (io, events) := ready[0];
    TakenOut(s, io);
    DispatchSettles(s.(waiting := s.waiting - {io}), io, s.waiting[io], events, scripts);
  }

  /** A round resumes every waiter that asked for something reported, unless it leaves by itself. */
  lemma {:induction false} RoundServes(s: Select, ready: seq<(nat, Events)>, scripts: seq<Script>)
    requires Quiet(s) && Pending(s, ready)
    ensures var r := Round(s, ready, scripts);
            Onward(s, r) && forall k, id | 0 <= k < |ready| && Asks(s, id, ready[k]) :: id !in r.live
    decreases |ready|
  {
    if ready == [] {
    } else {
      var (t, left) := DispatchIO(s, ready[0].0, ready[0].1, scripts);
      RoundStep(s, ready, scripts);
      StepServes(s, ready, scripts);
      RoundServes(t, ready[1..], left);
      var r := Round(s, ready, scripts);
      assert r == Round(t, ready[1..], left);
      forall k, id | 0 <= k < |ready| && Asks(s, id, ready[k]) ensures id !in r.live {
        if k > 0 && id in t.live {
          assert ready[1..][k - 1] == ready[k] && Asks(t, id, ready[1..][k - 1]);
        }
      }
    }
  }

  /** Hence no IO stays ready for the same waiters: for each reported IO some waiter that was there is gone. */
  lemma RoundMakesProgress(s: Select, available: map<nat, Events>, ready: seq<(nat, Events)>, scripts: seq<Script>,
                           k: nat)
    returns (id: nat)
    requires Quiet(s) && Reported(s, available, ready) && k < |ready|
    ensures Pending(s, ready) && Asks(s, id, ready[k]) && id !in Round(s, ready, scripts).live
  {
    var (io, events) := ready[k];
    ReportedArePending(s, available, ready);
    ReportAt(ready, k);
    assert events <= WantedOn(s, io) == Wanted(s, s.waiting[io]);
    id := Asker(s, s.waiting[io], events);
    RoundServes(s, ready, scripts);
  }

  function Initial(): Select {
    Select([], map[], {}, {}, [])
  }

  /** Between rounds fibers run; a round is made for what IO.select reports. */
  datatype Command =
    | Env(script: Script)
    | Ready(available: map<nat, Events>, ready: seq<(nat, Events)>, scripts: seq<Script>)

  /** A whole run; `ready` is the ready table in the order in which it was filled. */
  ghost function After(commands: seq<Command>): (s: Select)
    ensures Quiet(s)
  {
    if commands == [] then Initial()
    else
      var s := After(commands[..|commands| - 1]);
      match commands[|commands| - 1]
      case Env(script) => RunKeeps(s, 0, [], script); Run(s, script)
      case Ready(available, ready, scripts) =>
        if Reported(s, available, ready) then
          ReportedArePending(s, available, ready);
          Round(s, ready, scripts)
        else s
  }

  /** In every run every live waiter is in the chain of its IO exactly once, and nobody was resumed twice or after its
      io_wait had returned. */
  lemma EveryRunKeepsItsWaiters(commands: seq<Command>)
    ensures var s := After(commands);
            && (forall id | id in s.live :: id < |s.calls| && multiset(Chain(s, s.calls[id].io))[id] == 1)
            && (forall j, k | 0 <= j < k < |s.log| :: s.log[j].id != s.log[k].id)
  {
    QuietMeans(After(commands));
  }

  /** What Quiet says of the waiters: every live one is in the chain of its IO exactly once, and nobody was resumed
      twice or after its io_wait had returned. */
  lemma QuietMeans(s: Select)
    requires Quiet(s)
    ensures forall id | id in s.live :: id < |s.calls| && multiset(Chain(s, s.calls[id].io))[id] == 1
    ensures forall j, k | 0 <= j < k < |s.log| :: s.log[j].id != s.log[k].id
    ensures forall e | e in s.log :: e.id !in s.live
  {
    forall id | id in s.live ensures id < |s.calls| && multiset(Chain(s, s.calls[id].io))[id] == 1 {
      DistinctOnce(Chain(s, s.calls[id].io), id);
    }
    forall j, k | 0 <= j < k < |s.log| ensures s.log[j].id != s.log[k].id {
      assert LogIds(s.log)[j] == s.log[j].id && LogIds(s.log)[k] == s.log[k].id;
    }
  }

  lemma {:induction false} DistinctOnce(ids: seq<nat>, id: nat)
    requires Distinct(ids) && id in ids
    ensures multiset(ids)[id] == 1
  {
    var n := |ids| - 1;
    assert ids == ids[..n] + [ids[n]];
    if ids[n] == id {
    } else {
      DistinctOnce(ids[..n], id);
    }
  }
}
