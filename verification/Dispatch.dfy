/** The dispatch loop that ext/io/event/selector/epoll.c and kqueue.c share, on plain sequences: a cursor walks the
    waiting list of one descriptor while the fibers it resumes register, cancel and reopen at will. */
module Dispatch {
  import opened Interest
  import opened Optional

  datatype Waiter = Waiter(id: nat, events: Events)

  /** What a fiber may do to this descriptor while it runs; `fault` is a failing system call. */
  datatype Action = Register(events: Events, fault: bool) | Cancel(id: nat) | Close

  type Script = seq<Action>

  /** What happened, for the record: a visit that resumed or kept a waiter, and cancellations of waiters that were
      ahead of the cursor or behind it. */
  datatype Entry = Resumed(id: nat, matching: Events) | Kept(id: nat) | Dropped(id: nat) | Withdrawn(id: nat)

  /** `behind` and `ahead` are the list before and after the cursor; outside a pass `ahead` is empty. Waiters are
      numbered in the order they register. */
  datatype Descriptor = Descriptor(
    behind: seq<Waiter>,
    ahead: seq<Waiter>,
    waiting: Events,
    backend: Backend,
    nextId: nat,
    log: seq<Entry>)

  /** The waiters of `ws` but those in `ids`, in order. */
  function Without(ws: seq<Waiter>, ids: set<nat>): (r: seq<Waiter>)
    ensures |r| <= |ws|
  {
    if ws == [] then []
    else if ws[0].id in ids then Without(ws[1..], ids)
    else [ws[0]] + Without(ws[1..], ids)
  }

  function Ids(ws: seq<Waiter>): set<nat> {
    set w | w in ws :: w.id
  }

  /** The first half of Waiting_register: the interest grows, and the kernel is told. */
  function Widened(d: Descriptor, events: Events, fault: bool): (Descriptor, Result) {
    var waiting := d.waiting + events;
    var (backend, result) := Update(d.backend, waiting, if d.backend.EPoll? then d.backend.open else 0, fault);
    (d.(waiting := waiting, backend := backend, nextId := d.nextId + 1), result)
  }

  /** Waiting_register: the waiter goes to the front unless the update failed. */
  function Registered(d: Descriptor, events: Events, fault: bool): (Descriptor, Result) {
    var (c, result) := Widened(d, events, fault);
    (if result == Failed then c else c.(behind := [Waiter(d.nextId, events)] + d.behind), result)
  }

  function Act(d: Descriptor, a: Action): (r: Descriptor)
    ensures |r.ahead| <= |d.ahead|
  {
    match a
    case Register(events, fault) => Registered(d, events, fault).0
    case Cancel(id) =>
      d.(behind := Without(d.behind, {id}),
         ahead := Without(d.ahead, {id}),
         log := d.log + [if id in Ids(d.ahead) then Dropped(id) else Withdrawn(id)])
    case Close => d.(backend := Reopen(d.backend))
  }

  function Run(d: Descriptor, script: Script): (r: Descriptor)
    ensures |r.ahead| <= |d.ahead|
  {
    if script == [] then d else Act(Run(d, script[..|script| - 1]), script[|script| - 1])
  }

  /** One visit: the waiter at the cursor is resumed, unlinks itself and runs `script`, or is kept. */
  function Visit(d: Descriptor, ready: Events, script: Script): (r: Descriptor)
    requires d.ahead != []
    ensures |r.ahead| < |d.ahead|
  {
    var w := d.ahead[0];
    var matching := w.events * ready;
    if matching != {} then
      Run(d.(ahead := d.ahead[1..], log := d.log + [Resumed(w.id, matching)]), script)
    else
      d.(behind := d.behind + [w], ahead := d.ahead[1..], waiting := d.waiting + w.events, log := d.log + [Kept(w.id)])
  }

  function Resumes(d: Descriptor, ready: Events): bool {
    d.ahead != [] && d.ahead[0].events * ready != {}
  }

  /** The loop; every resumed fiber consumes one script, and does nothing once there are none left. */
  function Pass(d: Descriptor, ready: Events, scripts: seq<Script>): (r: Descriptor)
    ensures r.ahead == []
    decreases |d.ahead|
  {
    if d.ahead == [] then d
    else if !Resumes(d, ready) then Pass(Visit(d, ready, []), ready, scripts)
    else if scripts == [] then Pass(Visit(d, ready, []), ready, [])
    else Pass(Visit(d, ready, scripts[0]), ready, scripts[1..])
  }

  function Start(d: Descriptor): Descriptor {
    d.(behind := [], ahead := d.behind + d.ahead, waiting := {})
  }

  /** The state in which a handle call reaches its final update. */
  function BeforeUpdate(d: Descriptor, ready: Events, scripts: seq<Script>): Descriptor {
    Pass(Start(d), ready, scripts)
  }

  /** The update that follows a pass, for the IO object registered at that point. */
  function Finished(d: Descriptor, fault: bool): (Descriptor, Result) {
    var (backend, result) := Update(d.backend, d.waiting, if d.backend.EPoll? then d.backend.io else 0, fault);
    (d.(backend := backend), result)
  }

  /** The pass and the update. */
  function Handled(d: Descriptor, ready: Events, scripts: seq<Script>, fault: bool): (Descriptor, Result) {
    Finished(BeforeUpdate(d, ready, scripts), fault)
  }

  /** IO_Event_Selector_EPoll_handle. */
  function EPollHandle(d: Descriptor, ready: Events, scripts: seq<Script>, fault: bool): (Descriptor, Result) {
    Handled(d, ready, scripts, fault)
  }

  /** IO_Event_Selector_KQueue_handle: takes what was delivered; the delivered one-shot filters need re-arming. */
  function KQueueHandle(d: Descriptor, scripts: seq<Script>, fault: bool): (Descriptor, Result)
    requires d.backend.KQueue?
  {
    var ready := d.backend.ready;
    if ready == {} then (d, Unchanged)
    else
      var b := d.backend.(ready := {}, registered := d.backend.registered - ready);
      Handled(d.(backend := b), ready, scripts, fault)
  }

  /** The kernel hands over one-shot filters that were armed; the first loop of select_handle_events merges them. */
  function Deliver(d: Descriptor, filters: Events): Descriptor
    requires d.backend.KQueue?
  {
    var f := filters * d.backend.armed;
    d.(backend := d.backend.(armed := d.backend.armed - f, ready := d.backend.ready + f))
  }

  // ----- What a log says -----

  /** The waiters whose cancellation `log` records while they were ahead of the cursor. */
  function DroppedIds(log: seq<Entry>): set<nat> {
    set e | e in log && e.Dropped? :: e.id
  }

  /** The waiters `log` records as resumed or cancelled: they have left the list. */
  function GoneIds(log: seq<Entry>): set<nat> {
    set e | e in log && !e.Kept? :: e.id
  }

  /** The visits a log records, in order. */
  function Visits(log: seq<Entry>): seq<Entry> {
    if log == [] then []
    else if log[0].Resumed? || log[0].Kept? then [log[0]] + Visits(log[1..])
    else Visits(log[1..])
  }

  /** One visit to each of `ws`, in order: resumed with its matching events, or kept when nothing matches. */
  function VisitEach(ws: seq<Waiter>, ready: Events): (r: seq<Entry>)
    ensures |r| == |ws|
    ensures forall i | 0 <= i < |ws| :: r[i].id == ws[i].id
  {
    if ws == [] then []
    else
      [if ws[0].events * ready != {} then Resumed(ws[0].id, ws[0].events * ready) else Kept(ws[0].id)]
      + VisitEach(ws[1..], ready)
  }

  /** What was logged between `d` and a later state `r`. */
  function Since(d: Descriptor, r: Descriptor): seq<Entry>
    requires d.log <= r.log
  {
    r.log[|d.log|..]
  }

  // ----- Well-formed descriptors -----

  predicate DistinctIds(ws: seq<Waiter>) {
    forall i, j | 0 <= i < j < |ws| :: ws[i].id != ws[j].id
  }

  function List(d: Descriptor): seq<Waiter> {
    d.behind + d.ahead
  }

  predicate WellFormed(d: Descriptor) {
    && DistinctIds(List(d))
    && forall w | w in List(d) :: w.id < d.nextId
  }

  lemma {:induction false} WithoutMembers(ws: seq<Waiter>, ids: set<nat>)
    ensures forall w :: w in Without(ws, ids) <==> w in ws && w.id !in ids
    ensures Ids(Without(ws, ids)) == Ids(ws) - ids
  {
    if ws == [] {
    } else {
      WithoutMembers(ws[1..], ids);
      assert ws == [ws[0]] + ws[1..];
    }
  }

  lemma WithoutCons(w: Waiter, ws: seq<Waiter>, ids: set<nat>)
    ensures Without([w] + ws, ids) == if w.id in ids then Without(ws, ids) else [w] + Without(ws, ids)
  {
    assert ([w] + ws)[1..] == ws;
  }

  lemma {:induction false} WithoutBoth(ws: seq<Waiter>, a: set<nat>, b: set<nat>)
    ensures Without(Without(ws, a), b) == Without(ws, a + b)
  {
    if ws == [] {
    } else {
      WithoutBoth(ws[1..], a, b);
      WithoutCons(ws[0], Without(ws[1..], a), b);
    }
  }

  lemma Regrouped(w: Waiter, a: seq<Waiter>, b: seq<Waiter>)
    ensures [w] + (a + b) == [w] + a + b
  {
  }

  lemma {:induction false} WithoutConcat(xs: seq<Waiter>, ys: seq<Waiter>, ids: set<nat>)
    ensures Without(xs + ys, ids) == Without(xs, ids) + Without(ys, ids)
  {
    if xs == [] {
      assert xs + ys == ys;
    } else {
      var w, tail := xs[0], xs[1..];
      WithoutConcat(tail, ys, ids);
      assert xs + ys == [w] + (tail + ys);
      WithoutCons(w, tail + ys, ids);
      Regrouped(w, Without(tail, ids), Without(ys, ids));
    }
  }

  lemma {:induction false} WithoutNone(ws: seq<Waiter>, ids: set<nat>)
    requires forall w | w in ws :: w.id !in ids
    ensures Without(ws, ids) == ws
  {
    if ws == [] {
    } else {
      WithoutNone(ws[1..], ids);
    }
  }

  lemma {:induction false} WithoutDistinct(ws: seq<Waiter>, ids: set<nat>)
    requires DistinctIds(ws)
    ensures DistinctIds(Without(ws, ids))
  {
    if ws == [] {
    } else {
      WithoutDistinct(ws[1..], ids);
      WithoutMembers(ws[1..], ids);
      assert forall w | w in ws[1..] :: w.id != ws[0].id;
    }
  }

  lemma IdsOfConcat(a: seq<Entry>, b: seq<Entry>)
    ensures DroppedIds(a + b) == DroppedIds(a) + DroppedIds(b)
    ensures GoneIds(a + b) == GoneIds(a) + GoneIds(b)
  {
  }

  lemma VisitsCons(e: Entry, log: seq<Entry>)
    ensures Visits([e] + log) == if e.Resumed? || e.Kept? then [e] + Visits(log) else Visits(log)
  {
    assert ([e] + log)[1..] == log;
  }

  lemma {:induction false} VisitsConcat(a: seq<Entry>, b: seq<Entry>)
    ensures Visits(a + b) == Visits(a) + Visits(b)
  {
    if a == [] {
      assert a + b == b;
    } else {
      var rest := a[1..] + b;
      VisitsConcat(a[1..], b);
      assert a + b == [a[0]] + rest;
      VisitsCons(a[0], rest);
    }
  }

  // ----- Who is visited -----

  /** From `d` to `r` nobody was visited, and those who left from ahead of the cursor are the recorded drops. */
  ghost predicate OnlyDropped(d: Descriptor, r: Descriptor) {
    && d.log <= r.log
    && Visits(Since(d, r)) == []
    && DroppedIds(Since(d, r)) <= Ids(d.ahead)
    && r.ahead == Without(d.ahead, DroppedIds(Since(d, r)))
  }

  /** From `d` to `r` exactly the waiters ahead that were not dropped were visited, each once and in order: resumed
      when its events meet the ready ones, kept otherwise. */
  ghost predicate AllVisited(d: Descriptor, r: Descriptor, ready: Events) {
    && d.log <= r.log
    && DroppedIds(Since(d, r)) <= Ids(d.ahead)
    && Visits(Since(d, r)) == VisitEach(Without(d.ahead, DroppedIds(Since(d, r))), ready)
  }

  lemma SinceThen(d: Descriptor, c: Descriptor, r: Descriptor)
    requires d.log <= c.log <= r.log
    ensures Since(d, r) == Since(d, c) + Since(c, r)
    ensures DroppedIds(Since(d, r)) == DroppedIds(Since(d, c)) + DroppedIds(Since(c, r))
    ensures GoneIds(Since(d, r)) == GoneIds(Since(d, c)) + GoneIds(Since(c, r))
    ensures Visits(Since(d, r)) == Visits(Since(d, c)) + Visits(Since(c, r))
  {
    assert Since(d, r) == Since(d, c) + Since(c, r);
    IdsOfConcat(Since(d, c), Since(c, r));
    VisitsConcat(Since(d, c), Since(c, r));
  }

  lemma NothingHappened(d: Descriptor, r: Descriptor)
    requires r.log == d.log && r.ahead == d.ahead
    ensures OnlyDropped(d, r)
  {
    assert Since(d, r) == [];
    assert DroppedIds([]) == {};
    WithoutNone(d.ahead, {});
  }

  lemma OnlyDroppedThen(d: Descriptor, c: Descriptor, r: Descriptor)
    requires OnlyDropped(d, c) && OnlyDropped(c, r)
    ensures OnlyDropped(d, r)
  {
    SinceThen(d, c, r);
    WithoutBoth(d.ahead, DroppedIds(Since(d, c)), DroppedIds(Since(c, r)));
    WithoutMembers(d.ahead, DroppedIds(Since(d, c)));
  }

  lemma CancelDrops(d: Descriptor, id: nat)
    ensures OnlyDropped(d, Act(d, Cancel(id)))
  {
    var r := Act(d, Cancel(id));
    var e := if id in Ids(d.ahead) then Dropped(id) else Withdrawn(id);
    assert Since(d, r) == [e];
    if e.Dropped? {
      assert e in [e];
      assert DroppedIds([e]) == {id};
    } else {
      assert DroppedIds([e]) == {};
      WithoutNone(d.ahead, {id});
      WithoutNone(d.ahead, {});
    }
  }

  lemma {:induction false} RunDrops(d: Descriptor, script: Script)
    ensures OnlyDropped(d, Run(d, script))
  {
    if script == [] {
      NothingHappened(d, d);
    } else {
      var c := Run(d, script[..|script| - 1]);
      var a := script[|script| - 1];
      RunDrops(d, script[..|script| - 1]);
      if a.Cancel? { CancelDrops(c, a.id); } else { NothingHappened(c, Act(c, a)); }
      OnlyDroppedThen(d, c, Act(c, a));
    }
  }

  /** The waiter at the cursor is logged, and what its script did not drop is still ahead. */
  ghost predicate FirstVisited(d: Descriptor, c: Descriptor, ready: Events) {
    && d.ahead != []
    && d.log <= c.log
    && DroppedIds(Since(d, c)) <= Ids(d.ahead[1..])
    && Visits(Since(d, c)) == VisitEach([d.ahead[0]], ready)
    && c.ahead == Without(d.ahead[1..], DroppedIds(Since(d, c)))
  }

  lemma VisitIsFirst(d: Descriptor, ready: Events, script: Script)
    requires d.ahead != []
    ensures FirstVisited(d, Visit(d, ready, script), ready)
  {
    var w := d.ahead[0];
    var e := VisitEach([w], ready)[0];
    var c := d.(ahead := d.ahead[1..], log := d.log + [e]);
    var r := Visit(d, ready, script);
    assert VisitEach([w], ready) == [e];
    assert Since(d, c) == [e] && DroppedIds([e]) == {} && Visits([e]) == [e];
    if w.events * ready != {} {
      RunDrops(c, script);
    } else {
      NothingHappened(c, r);
    }
    SinceThen(d, c, r);
    assert DroppedIds(Since(d, r)) == DroppedIds(Since(c, r));
    assert d.ahead[..1] == [w];
  }

  lemma FirstThenRest(d: Descriptor, c: Descriptor, r: Descriptor, ready: Events)
    requires FirstVisited(d, c, ready) && AllVisited(c, r, ready) && DistinctIds(d.ahead)
    ensures AllVisited(d, r, ready)
  {
    var w, tail := d.ahead[0], d.ahead[1..];
    var ids := DroppedIds(Since(d, r));
    SinceThen(d, c, r);
    WithoutBoth(tail, DroppedIds(Since(d, c)), DroppedIds(Since(c, r)));
    WithoutMembers(tail, DroppedIds(Since(d, c)));
    assert ids <= Ids(tail) && w.id !in Ids(tail);
    assert d.ahead == [w] + tail;
    WithoutCons(w, tail, ids);
    VisitEachCons(w, Without(tail, ids), ready);
  }

  lemma VisitEachCons(w: Waiter, ws: seq<Waiter>, ready: Events)
    ensures VisitEach([w] + ws, ready) == VisitEach([w], ready) + VisitEach(ws, ready)
  {
    assert ([w] + ws)[1..] == ws;
    assert VisitEach([w][1..], ready) == [];
  }

  /** The dispatch loop under every re-entrant behaviour: AllVisited says who was resumed and who was not, and by its
      order that nobody is visited twice; a waiter that registers on the way is not among those visited. */
  lemma {:induction false} PassVisits(d: Descriptor, ready: Events, scripts: seq<Script>)
    requires DistinctIds(d.ahead)
    ensures AllVisited(d, Pass(d, ready, scripts), ready)
    decreases |d.ahead|
  {
    if d.ahead == [] {
      assert Since(d, d) == [];
    } else {
      var script := if !Resumes(d, ready) || scripts == [] then [] else scripts[0];
      var rest := if Resumes(d, ready) && scripts != [] then scripts[1..] else scripts;
      var c := Visit(d, ready, script);
      VisitIsFirst(d, ready, script);
      WithoutDistinct(d.ahead[1..], DroppedIds(Since(d, c)));
      PassVisits(c, ready, rest);
      FirstThenRest(d, c, Pass(c, ready, rest), ready);
    }
  }

  // ----- Who is left in the list -----

  /** What the list of `r` owes to the list of `d`: those who were not resumed or cancelled, in their old order, behind
      waiters that are all newer. */
  ghost predicate Evolved(d: Descriptor, r: Descriptor) {
    && d.log <= r.log
    && d.nextId <= r.nextId
    && var left := Without(List(d), GoneIds(Since(d, r)));
       var newer := |List(r)| - |left|;
       && 0 <= newer
       && List(r)[newer..] == left
       && forall w | w in List(r)[..newer] :: d.nextId <= w.id < r.nextId
  }

  lemma EvolvedBy(d: Descriptor, r: Descriptor, newer: seq<Waiter>)
    requires d.log <= r.log && d.nextId <= r.nextId
    requires List(r) == newer + Without(List(d), GoneIds(Since(d, r)))
    requires forall w | w in newer :: d.nextId <= w.id < r.nextId
    ensures Evolved(d, r)
  {
    assert List(r)[..|newer|] == newer;
  }

  lemma EvolvedThen(d: Descriptor, c: Descriptor, r: Descriptor)
    requires Evolved(d, c) && Evolved(c, r)
    ensures Evolved(d, r)
  {
    var a, b := GoneIds(Since(d, c)), GoneIds(Since(c, r));
    var left, mid := Without(List(d), a), Without(List(c), b);
    var first := List(c)[..|List(c)| - |left|];
    var second := List(r)[..|List(r)| - |mid|];
    assert List(c) == first + left && List(r) == second + mid;
    SinceThen(d, c, r);
    WithoutConcat(first, left, b);
    WithoutBoth(List(d), a, b);
    WithoutMembers(first, b);
    assert List(r) == (second + Without(first, b)) + Without(left, b);
    EvolvedBy(d, r, second + Without(first, b));
  }

  /** What every state keeps, inside a pass and outside: distinct waiters, an interest that covers every waiter behind
      the cursor, and bookkeeping that agrees with the kernel. */
  ghost predicate Sound(d: Descriptor) {
    && WellFormed(d)
    && (forall w | w in d.behind :: w.events <= d.waiting)
    && Synchronised(d.backend)
  }

  lemma Relisted(d: Descriptor, r: Descriptor)
    requires d.log == r.log && d.nextId == r.nextId && List(r) == List(d)
    ensures Evolved(d, r)
  {
    assert Since(d, r) == [] && GoneIds([]) == {};
    WithoutNone(List(d), {});
    EvolvedBy(d, r, []);
  }

  lemma RegisterKeeps(d: Descriptor, events: Events, fault: bool)
    requires Sound(d)
    ensures Sound(Registered(d, events, fault).0) && Evolved(d, Registered(d, events, fault).0)
  {
    var (r, result) := Registered(d, events, fault);
    if d.backend.EPoll? {
      UpdateSynchronises(d.backend, d.waiting + events, d.backend.open, fault);
    }
    ListedFirst(d, r, if result == Failed then [] else [Waiter(d.nextId, events)]);
  }

  lemma ListedFirst(d: Descriptor, r: Descriptor, newer: seq<Waiter>)
    requires WellFormed(d) && r.log == d.log && r.nextId == d.nextId + 1
    requires |newer| <= 1 && forall w | w in newer :: w.id == d.nextId
    requires r.behind == newer + d.behind && r.ahead == d.ahead
    ensures WellFormed(r) && Evolved(d, r)
  {
    assert List(r) == newer + List(d);
    if newer == [] {
      assert newer + List(d) == List(d);
    } else {
      assert newer == [newer[0]];
      DistinctFirst(newer[0], List(d));
    }
    assert Evolved(d, r) by {
      assert Since(d, r) == [] && GoneIds([]) == {};
      WithoutNone(List(d), {});
      EvolvedBy(d, r, newer);
    }
  }

  lemma DistinctFirst(w: Waiter, ws: seq<Waiter>)
    requires DistinctIds(ws) && forall x | x in ws :: x.id < w.id
    ensures DistinctIds([w] + ws) && forall x | x in [w] + ws :: x.id <= w.id
  {
    var r := [w] + ws;
    forall i, j | 0 <= i < j < |r| ensures r[i].id != r[j].id {
      assert r[j] == ws[j - 1] && ws[j - 1] in ws;
      assert i > 0 ==> r[i] == ws[i - 1];
    }
  }

  lemma CancelKeeps(d: Descriptor, id: nat)
    requires Sound(d)
    ensures Sound(Act(d, Cancel(id))) && Evolved(d, Act(d, Cancel(id)))
  {
    var r := Act(d, Cancel(id));
    var e := if id in Ids(d.ahead) then Dropped(id) else Withdrawn(id);
    assert Since(d, r) == [e] && e in [e] && GoneIds([e]) == {id};
    WithoutConcat(d.behind, d.ahead, {id});
    WithoutMembers(d.behind, {id});
    WithoutMembers(d.ahead, {id});
    WithoutDistinct(List(d), {id});
    EvolvedBy(d, r, []);
  }

  lemma ActKeeps(d: Descriptor, a: Action)
    requires Sound(d)
    ensures Sound(Act(d, a)) && Evolved(d, Act(d, a))
  {
    match a
    case Register(events, fault) => RegisterKeeps(d, events, fault);
    case Cancel(id) => CancelKeeps(d, id);
    case Close => Relisted(d, Act(d, a));
  }

  lemma {:induction false} RunKeeps(d: Descriptor, script: Script)
    requires Sound(d)
    ensures Sound(Run(d, script)) && Evolved(d, Run(d, script))
  {
    if script == [] {
      Relisted(d, d);
    } else {
      var c := Run(d, script[..|script| - 1]);
      RunKeeps(d, script[..|script| - 1]);
      ActKeeps(c, script[|script| - 1]);
      EvolvedThen(d, c, Run(d, script));
    }
  }

  lemma LeavesTheList(d: Descriptor, c: Descriptor, e: Entry)
    requires Sound(d) && d.ahead != [] && !e.Kept? && e.id == d.ahead[0].id
    requires c == d.(ahead := d.ahead[1..], log := d.log + [e])
    ensures Sound(c) && Evolved(d, c)
  {
    var w, tail := d.ahead[0], d.ahead[1..];
    assert Since(d, c) == [e] && e in [e] && GoneIds([e]) == {w.id};
    assert List(d)[|d.behind|] == w && List(d)[|d.behind| + 1..] == tail;
    forall i | 0 <= i < |d.behind| ensures d.behind[i].id != w.id {
      assert List(d)[i] == d.behind[i];
    }
    forall i | 0 <= i < |tail| ensures tail[i].id != w.id {
      assert List(d)[|d.behind| + 1 + i] == tail[i];
    }
    WithoutNone(d.behind, {w.id});
    WithoutNone(tail, {w.id});
    WithoutConcat(d.behind, d.ahead, {w.id});
    WithoutDistinct(List(d), {w.id});
    WithoutMembers(List(d), {w.id});
    EvolvedBy(d, c, []);
  }

  lemma StaysInTheList(d: Descriptor, c: Descriptor, e: Entry)
    requires Sound(d) && d.ahead != [] && e.Kept?
    requires c == d.(behind := d.behind + [d.ahead[0]], ahead := d.ahead[1..],
                     waiting := d.waiting + d.ahead[0].events, log := d.log + [e])
    ensures Sound(c) && Evolved(d, c)
  {
    assert List(c) == List(d);
    assert Evolved(d, c) by {
      assert Since(d, c) == [e] && GoneIds([e]) == {};
      WithoutNone(List(d), {});
      EvolvedBy(d, c, []);
    }
    CoveredLast(d.behind, d.ahead[0], d.waiting);
  }

  lemma CoveredLast(ws: seq<Waiter>, w: Waiter, waiting: Events)
    requires forall x | x in ws :: x.events <= waiting
    ensures forall x | x in ws + [w] :: x.events <= waiting + w.events
  {
  }

  lemma VisitKeeps(d: Descriptor, ready: Events, script: Script)
    requires Sound(d) && d.ahead != []
    ensures Sound(Visit(d, ready, script)) && Evolved(d, Visit(d, ready, script))
  {
    var w := d.ahead[0];
    if w.events * ready != {} {
      var e := Resumed(w.id, w.events * ready);
      var c := d.(ahead := d.ahead[1..], log := d.log + [e]);
      LeavesTheList(d, c, e);
      RunKeeps(c, script);
      EvolvedThen(d, c, Run(c, script));
    } else {
      StaysInTheList(d, Visit(d, ready, script), Kept(w.id));
    }
  }

  lemma {:induction false} PassKeeps(d: Descriptor, ready: Events, scripts: seq<Script>)
    requires Sound(d)
    ensures Sound(Pass(d, ready, scripts)) && Evolved(d, Pass(d, ready, scripts))
    decreases |d.ahead|
  {
    if d.ahead == [] {
      Relisted(d, d);
    } else {
      var script := if !Resumes(d, ready) || scripts == [] then [] else scripts[0];
      var rest := if Resumes(d, ready) && scripts != [] then scripts[1..] else scripts;
      var c := Visit(d, ready, script);
      VisitKeeps(d, ready, script);
      PassKeeps(c, ready, rest);
      EvolvedThen(d, c, Pass(c, ready, rest));
    }
  }

  // ----- Whole calls -----

  /** A descriptor between two calls. */
  ghost predicate Settled(d: Descriptor) {
    Sound(d) && d.ahead == []
  }

  /** One handle call: who is visited, who is left, and that the interest covers everyone left. */
  lemma HandleVisitsAndKeeps(d: Descriptor, ready: Events, scripts: seq<Script>, fault: bool)
    requires Settled(d)
    ensures var r := Handled(d, ready, scripts, fault).0;
            Settled(r) && AllVisited(Start(d), r, ready) && Evolved(d, r)
  {
    var s, p := Start(d), BeforeUpdate(d, ready, scripts);
    StartKeeps(d);
    PassVisits(s, ready, scripts);
    PassKeeps(s, ready, scripts);
    FinishedKeeps(p, fault);
    EvolvedThen(d, s, p);
    EvolvedThen(d, p, Finished(p, fault).0);
  }

  lemma StartKeeps(d: Descriptor)
    requires Settled(d)
    ensures Sound(Start(d)) && Evolved(d, Start(d)) && Start(d).ahead == d.behind
  {
    assert d.behind + [] == d.behind;
    assert List(Start(d)) == List(d);
    Relisted(d, Start(d));
  }

  lemma FinishedKeeps(d: Descriptor, fault: bool)
    requires Sound(d)
    ensures Sound(Finished(d, fault).0) && Evolved(d, Finished(d, fault).0)
  {
    if d.backend.EPoll? {
      UpdateSynchronises(d.backend, d.waiting, d.backend.io, fault);
    }
    assert List(Finished(d, fault).0) == List(d);
    Relisted(d, Finished(d, fault).0);
  }

  /** A registration that succeeds lists the waiter, and the kernel watches for the events of every listed one. */
  lemma RegisterCovers(d: Descriptor, events: Events, fault: bool)
    requires Settled(d) && d.backend.EPoll?
    ensures var (r, result) := Registered(d, events, fault);
            result != Failed ==>
              && r.behind == [Waiter(d.nextId, events)] + d.behind
              && r.backend.registered == r.waiting
              && (r.waiting != {} ==> r.backend.kernel == Some(r.waiting) && r.backend.io == r.backend.open)
              && forall w | w in r.behind :: w.events <= r.waiting
  {
    RegisterKeeps(d, events, fault);
    UpdateSynchronises(d.backend, d.waiting + events, d.backend.open, fault);
  }

  /** A handle call that succeeds registers the interest of everyone left, however callbacks shrank the mask meanwhile.
      The kernel agrees unless the update takes its early return for a descriptor that was closed after the kernel had
      accepted that very mask; in every other case the update repairs what a close undid. */
  lemma HandleCovers(d: Descriptor, ready: Events, scripts: seq<Script>, fault: bool)
    requires Settled(d) && d.backend.EPoll?
    ensures var p := BeforeUpdate(d, ready, scripts);
            var (r, result) := EPollHandle(d, ready, scripts, fault);
            p.backend.EPoll? && r.backend.EPoll? &&
            (result != Failed ==>
              && r.backend.registered == r.waiting == p.waiting
              && (forall w | w in r.behind :: w.events <= r.waiting)
              && (r.waiting != {} ==>
                    (r.backend.kernel == Some(r.waiting) <==>
                     !(p.backend.dropped && p.backend.registered == p.waiting)))
              && (r.waiting != {} && r.backend.io == r.backend.open ==> r.backend.kernel == Some(r.waiting)))
  {
    var s := Start(d);
    assert List(s) == List(d);
    var p := Pass(s, ready, scripts);
    PassKeeps(s, ready, scripts);
    PassKeepsBackendKind(s, ready, scripts);
    UpdateSynchronises(p.backend, p.waiting, p.backend.io, fault);
  }

  predicate Closes(script: Script) {
    Close in script
  }

  /** The kind of backend never changes, and only a close drops the kernel's registration. */
  ghost predicate SameBackend(b: Backend, c: Backend, closed: bool) {
    (b.EPoll? <==> c.EPoll?) && (b.EPoll? && !closed ==> c.open == b.open && (c.dropped ==> b.dropped))
  }

  lemma ActKeepsBackendKind(d: Descriptor, a: Action)
    ensures SameBackend(d.backend, Act(d, a).backend, a.Close?)
  {
  }

  lemma {:induction false} RunKeepsBackendKind(d: Descriptor, script: Script)
    ensures SameBackend(d.backend, Run(d, script).backend, Closes(script))
  {
    if script == [] {
    } else {
      var a := script[|script| - 1];
      RunKeepsBackendKind(d, script[..|script| - 1]);
      ActKeepsBackendKind(Run(d, script[..|script| - 1]), a);
      assert script == script[..|script| - 1] + [a];
    }
  }

  lemma {:induction false} PassKeepsBackendKind(d: Descriptor, ready: Events, scripts: seq<Script>)
    ensures SameBackend(d.backend, Pass(d, ready, scripts).backend, exists s | s in scripts :: Closes(s))
    decreases |d.ahead|
  {
    if d.ahead == [] {
    } else {
      var script := if !Resumes(d, ready) || scripts == [] then [] else scripts[0];
      var rest := if Resumes(d, ready) && scripts != [] then scripts[1..] else scripts;
      if Resumes(d, ready) {
        var w := d.ahead[0];
        RunKeepsBackendKind(d.(ahead := d.ahead[1..], log := d.log + [Resumed(w.id, w.events * ready)]), script);
      }
      PassKeepsBackendKind(Visit(d, ready, script), ready, rest);
      assert Closes(script) ==> script in scripts;
      assert forall s | s in rest :: s in scripts;
    }
  }

  /** As long as nobody closes the descriptor, the kernel watches for everything the listed waiters want. */
  lemma OpenDescriptorsStayCovered(d: Descriptor, ready: Events, scripts: seq<Script>, fault: bool)
    requires Settled(d) && d.backend.EPoll? && !d.backend.dropped
    requires forall s | s in scripts :: !Closes(s)
    ensures var (r, result) := EPollHandle(d, ready, scripts, fault);
            result != Failed && r.backend.EPoll? ==>
              forall w | w in r.behind && w.events != {} ::
                r.backend.kernel.Some? && w.events <= r.backend.kernel.value
  {
    HandleCovers(d, ready, scripts, fault);
    PassKeepsBackendKind(Start(d), ready, scripts);
  }

  /** A closed descriptor is the one gap: a resumed reader registers again and then the descriptor is closed; the
      update finds the mask it expects and the kernel watches for nothing, although two waiters are listed. */
  lemma ClosedDescriptorIsNotCovered()
    ensures var b := EPoll(1, {Readable, Writable}, 1, Some({Readable, Writable}), false);
            var d := Descriptor([Waiter(1, {Writable}), Waiter(0, {Readable})], [], {Readable, Writable}, b, 2, []);
            var (r, result) := EPollHandle(d, {Readable}, [[Register({Readable}, false), Close]], false);
            && Settled(d)
            && result == Unchanged
            && r.behind == [Waiter(2, {Readable}), Waiter(1, {Writable})]
            && r.backend.EPoll? && r.backend.kernel == None
  {
    var b := EPoll(1, {Readable, Writable}, 1, Some({Readable, Writable}), false);
    var writer, reader := Waiter(1, {Writable}), Waiter(0, {Readable});
    var d := Descriptor([writer, reader], [], {Readable, Writable}, b, 2, []);
    var script := [Register({Readable}, false), Close];
    var s := Start(d);
    var t := Visit(s, {Readable}, []);
    assert s.ahead[1..] == [reader];
    assert t.ahead == [reader] && t.behind == [writer] && t.waiting == {Writable};
    assert reader.events * {Readable} == {Readable};
    var u := t.(ahead := [], log := t.log + [Resumed(0, {Readable})]);
    assert t.ahead[1..] == [];
    RegistersAndCloses(u);
    assert Pass(t, {Readable}, [script]) == Pass(Run(u, script), {Readable}, []);
    assert Pass(s, {Readable}, [script]) == Run(u, script);
  }

  lemma RegistersAndCloses(u: Descriptor)
    requires u.backend == EPoll(1, {Readable, Writable}, 1, Some({Readable, Writable}), false)
    requires u.waiting == {Writable} && u.nextId == 2
    ensures Run(u, [Register({Readable}, false), Close])
         == u.(behind := [Waiter(2, {Readable})] + u.behind, waiting := {Readable, Writable}, nextId := 3,
               backend := Reopen(u.backend))
  {
    var script := [Register({Readable}, false), Close];
    assert script[..1] == [Register({Readable}, false)] && script[..1][..0] == [];
    assert {Writable} + {Readable} == {Readable, Writable};
    assert UpdateEPoll(u.backend, u.waiting + {Readable}, 1, false) == (u.backend, Unchanged);
    assert Run(u, script[..1]) == Act(u, Register({Readable}, false));
    assert Run(u, script) == Act(Run(u, script[..1]), Close);
  }

  /** Nobody is visited twice in one pass, and nobody who registered during it. */
  lemma VisitedAtMostOnce(d: Descriptor, r: Descriptor, ready: Events)
    requires WellFormed(d) && AllVisited(d, r, ready)
    ensures var visits := Visits(Since(d, r));
            && (forall e | e in visits :: e.id < d.nextId)
            && forall i, j | 0 <= i < j < |visits| :: visits[i].id != visits[j].id
  {
    var visited := Without(d.ahead, DroppedIds(Since(d, r)));
    forall i, j | 0 <= i < j < |d.ahead| ensures d.ahead[i].id != d.ahead[j].id {
      assert List(d)[|d.behind| + i] == d.ahead[i] && List(d)[|d.behind| + j] == d.ahead[j];
    }
    WithoutDistinct(d.ahead, DroppedIds(Since(d, r)));
    WithoutMembers(d.ahead, DroppedIds(Since(d, r)));
    var visits := Visits(Since(d, r));
    forall i | 0 <= i < |visits| ensures visits[i].id == visited[i].id && visited[i] in List(d) {
    }
  }

  // ----- Whole runs -----

  /** Outside a pass: fibers run, a handle call is made, or (KQueue) the kernel delivers filters. */
  datatype Command =
    | Env(script: Script)
    | Handle(ready: Events, scripts: seq<Script>, fault: bool)
    | Delivered(filters: Events)

  function Step(d: Descriptor, c: Command): Descriptor {
    match c
    case Env(script) => Run(d, script)
    case Handle(ready, scripts, fault) =>
      if d.backend.KQueue? then KQueueHandle(d, scripts, fault).0 else EPollHandle(d, ready, scripts, fault).0
    case Delivered(filters) => if d.backend.KQueue? then Deliver(d, filters) else d
  }

  function Steps(d: Descriptor, cs: seq<Command>): Descriptor {
    if cs == [] then d else Step(Steps(d, cs[..|cs| - 1]), cs[|cs| - 1])
  }

  function Initial(b: Backend): Descriptor {
    Descriptor([], [], {}, b, 0, [])
  }

  lemma EnvSettles(d: Descriptor, script: Script)
    requires Settled(d)
    ensures Settled(Run(d, script))
  {
    RunKeeps(d, script);
  }

  lemma KQueueHandleVisitsAndKeeps(d: Descriptor, scripts: seq<Script>, fault: bool)
    requires Settled(d) && d.backend.KQueue?
    ensures var r := KQueueHandle(d, scripts, fault).0;
            && Settled(r)
            && (d.backend.ready == {} ==> r == d)
            && (d.backend.ready != {} ==> AllVisited(Start(d), r, d.backend.ready) && Evolved(d, r))
  {
    var ready := d.backend.ready;
    if ready != {} {
      var c := d.(backend := d.backend.(ready := {}, registered := d.backend.registered - ready));
      assert List(c) == List(d);
      HandleVisitsAndKeeps(c, ready, scripts, fault);
    }
  }

  lemma StepSettles(d: Descriptor, c: Command)
    requires Settled(d)
    ensures Settled(Step(d, c))
  {
    match c
    case Env(script) => EnvSettles(d, script);
    case Handle(ready, scripts, fault) =>
      if d.backend.KQueue? {
        KQueueHandleVisitsAndKeeps(d, scripts, fault);
      } else {
        HandleVisitsAndKeeps(d, ready, scripts, fault);
      }
    case Delivered(_) =>
  }

  /** Hence RegisterCovers, HandleCovers and HandleVisitsAndKeeps apply at every point of every run. */
  lemma {:induction false} EveryRunSettles(b: Backend, cs: seq<Command>)
    requires b == EPoll(0, {}, 1, None, false) || b == KQueue({}, {}, {})
    ensures Settled(Steps(Initial(b), cs))
  {
    if cs == [] {
    } else {
      EveryRunSettles(b, cs[..|cs| - 1]);
      StepSettles(Steps(Initial(b), cs[..|cs| - 1]), cs[|cs| - 1]);
    }
  }

  // ----- EPoll: what the kernel watches for -----

  /** The kernel watches for everything a listed waiter wants. */
  ghost predicate Watched(d: Descriptor) {
    && d.backend.EPoll?
    && forall w | w in d.behind && w.events != {} ::
         d.backend.kernel.Some? && w.events <= d.backend.kernel.value
  }

  /** A close takes nothing from the listed waiters: they want nothing (EPoll), or all they want to read and write was
      delivered already (KQueue). */
  ghost predicate Harmless(d: Descriptor) {
    match d.backend
    case EPoll(_, _, _, _, _) => forall w | w in d.behind :: w.events == {}
    case KQueue(_, _, ready) => forall w | w in d.behind :: w.events * {Readable, Writable} <= ready
  }

  ghost predicate ClosedHarmlessly(d: Descriptor, script: Script) {
    forall k | 0 <= k < |script| && script[k].Close? :: Harmless(Run(d, script[..k]))
  }

  /** The exact effect of a close on what the kernel watches for. */
  lemma CloseUnwatches(d: Descriptor)
    requires Settled(d) && Watched(d)
    ensures Watched(Act(d, Close)) <==> Harmless(d)
  {
  }

  lemma RegisterWatches(d: Descriptor, events: Events, fault: bool)
    requires Settled(d) && Watched(d)
    ensures Watched(Registered(d, events, fault).0)
  {
    var (r, result) := Registered(d, events, fault);
    RegisterCovers(d, events, fault);
    if result == Failed {
      assert r.backend.EPoll? && r.backend.kernel == d.backend.kernel && r.behind == d.behind;
    } else {
      assert forall w | w in r.behind && w.events != {} :: r.waiting != {};
    }
  }

  lemma HarmlessBefore(d: Descriptor, script: Script)
    requires script != [] && ClosedHarmlessly(d, script)
    ensures ClosedHarmlessly(d, script[..|script| - 1])
    ensures script[|script| - 1].Close? ==> Harmless(Run(d, script[..|script| - 1]))
  {
    var first := script[..|script| - 1];
    assert forall k | 0 <= k < |first| :: first[k] == script[k] && first[..k] == script[..k];
  }

  lemma ActKeepsWatched(d: Descriptor, a: Action)
    requires Settled(d) && Watched(d) && (a.Close? ==> Harmless(d))
    ensures Watched(Act(d, a))
  {
    match a
    case Cancel(id) => WithoutMembers(d.behind, {id});
    case Register(events, fault) => RegisterWatches(d, events, fault);
    case Close => CloseUnwatches(d);
  }

  lemma {:induction false} RunKeepsWatched(d: Descriptor, script: Script)
    requires Settled(d) && Watched(d) && ClosedHarmlessly(d, script)
    ensures Watched(Run(d, script))
  {
    if script == [] {
    } else {
      var first := script[..|script| - 1];
      HarmlessBefore(d, script);
      RunKeepsWatched(d, first);
      RunKeeps(d, first);
      ActKeepsWatched(Run(d, first), script[|script| - 1]);
    }
  }

  /** The final update of a handle call does not take its early return for a mask that a close has undone, or nobody
      is left who wants anything. */
  ghost predicate Repaired(p: Descriptor) {
    p.backend.EPoll? && p.backend.dropped && p.backend.registered == p.waiting ==> Harmless(p)
  }

  /** After a handle call that succeeds the kernel watches for what is wanted exactly if the update repairs what was
      closed, whatever callbacks did. */
  lemma HandleWatches(d: Descriptor, ready: Events, scripts: seq<Script>, fault: bool)
    requires Settled(d) && d.backend.EPoll? && EPollHandle(d, ready, scripts, fault).1 != Failed
    ensures Watched(EPollHandle(d, ready, scripts, fault).0) <==> Repaired(BeforeUpdate(d, ready, scripts))
  {
    var p, r := BeforeUpdate(d, ready, scripts), EPollHandle(d, ready, scripts, fault).0;
    HandleCovers(d, ready, scripts, fault);
    StartKeeps(d);
    PassKeeps(Start(d), ready, scripts);
    assert r.behind == p.behind;
    if p.backend.dropped && p.backend.registered == p.waiting {
      assert r.backend == p.backend && r.backend.kernel == None;
    } else {
      assert forall w | w in r.behind && w.events != {} :: r.waiting != {};
    }
  }

  /** A step that serves the waiters: a handle call succeeds, and with EPoll repairs what its callbacks closed; outside
      handle calls every close is harmless. */
  ghost predicate SteadyStep(d: Descriptor, c: Command) {
    match c
    case Env(script) => ClosedHarmlessly(d, script)
    case Handle(ready, scripts, _) => HandleSucceeds(d, c) && Repaired(BeforeUpdate(d, ready, scripts))
    case Delivered(_) => true
  }

  ghost predicate Steady(b: Backend, cs: seq<Command>) {
    cs == [] ||
    var first := cs[..|cs| - 1];
    Steady(b, first) && SteadyStep(Steps(Initial(b), first), cs[|cs| - 1])
  }

  lemma StepWatches(d: Descriptor, c: Command)
    requires Settled(d) && Watched(d) && SteadyStep(d, c)
    ensures Watched(Step(d, c))
  {
    match c
    case Env(script) => RunKeepsWatched(d, script);
    case Handle(ready, scripts, fault) => HandleWatches(d, ready, scripts, fault);
    case Delivered(_) =>
  }

  predicate HandleSucceeds(d: Descriptor, c: Command)
    requires c.Handle?
  {
    if d.backend.KQueue? then KQueueHandle(d, c.scripts, c.fault).1 != Failed
    else EPollHandle(d, c.ready, c.scripts, c.fault).1 != Failed
  }

  /** Over every run of such steps the kernel watches for everything the listed waiters want. */
  lemma {:induction false} KernelStaysWatching(cs: seq<Command>)
    requires Steady(EPoll(0, {}, 1, None, false), cs)
    ensures Watched(Steps(Initial(EPoll(0, {}, 1, None, false)), cs))
  {
    var b := EPoll(0, {}, 1, None, false);
    if cs == [] {
    } else {
      var first := cs[..|cs| - 1];
      KernelStaysWatching(first);
      EveryRunSettles(b, first);
      StepWatches(Steps(Initial(b), first), cs[|first|]);
    }
  }

  // ----- KQueue: one-shot filters -----

  /** Whatever a listed waiter wants and a filter exists for is armed in the kernel or delivered and not handled. */
  ghost predicate Armed(d: Descriptor) {
    d.backend.KQueue? && forall w | w in d.behind :: w.events * FILTERED <= d.backend.armed + d.backend.ready
  }

  lemma RegisterArms(d: Descriptor, events: Events, fault: bool)
    requires Settled(d) && Armed(d)
    ensures Armed(Registered(d, events, fault).0)
    ensures Registered(d, events, fault).0.backend.ready == d.backend.ready
  {
    var (r, result) := Registered(d, events, fault);
    assert result == Failed ==> r.behind == d.behind;
    assert events * FILTERED <= (d.waiting + events) * FILTERED;
    if result != Failed {
      assert r.behind == [Waiter(d.nextId, events)] + d.behind;
      assert r.backend.armed == d.backend.armed + (d.waiting + events) * FILTERED;
    }
  }

  /** A handle call that succeeds re-arms everything the waiters left in the list want, even after a close. */
  lemma HandleArms(d: Descriptor, ready: Events, scripts: seq<Script>, fault: bool)
    requires Settled(d) && d.backend.KQueue? && Handled(d, ready, scripts, fault).1 != Failed
    ensures Armed(Handled(d, ready, scripts, fault).0)
  {
    var s, p := Start(d), BeforeUpdate(d, ready, scripts);
    StartKeeps(d);
    PassKeeps(s, ready, scripts);
    PassKeepsBackendKind(s, ready, scripts);
    forall w | w in p.behind ensures w.events * FILTERED <= p.waiting * FILTERED {
    }
  }

  /** A close takes the read and write filters with it: what the listed waiters want stays armed or delivered exactly
      when all of it that those filters stand for was delivered already. */
  lemma CloseDisarms(d: Descriptor)
    requires Settled(d) && Armed(d)
    ensures Armed(Act(d, Close)) <==> Harmless(d)
  {
    var r := Act(d, Close);
    assert r.backend.armed == d.backend.armed - {Readable, Writable};
    forall w | w in d.behind
      ensures w.events * FILTERED <= r.backend.armed + r.backend.ready <==>
              w.events * {Readable, Writable} <= d.backend.ready
    {
      CloseDisarmsOne(w.events, d.backend.armed, d.backend.ready);
    }
  }

  lemma CloseDisarmsOne(events: Events, armed: Events, ready: Events)
    requires events * FILTERED <= armed + ready
    ensures events * FILTERED <= armed - {Readable, Writable} + ready <==> events * {Readable, Writable} <= ready
  {
    var left := armed - {Readable, Writable} + ready;
    if events * {Readable, Writable} <= ready {
      forall e | e in events * FILTERED ensures e in left {
        assert e in {Readable, Writable} ==> e in events * {Readable, Writable};
      }
    }
    if events * FILTERED <= left {
      forall e | e in events * {Readable, Writable} ensures e in ready {
        assert e in events * FILTERED;
      }
    }
  }

  lemma ActKeepsArmed(d: Descriptor, a: Action)
    requires Settled(d) && Armed(d) && (a.Close? ==> Harmless(d))
    ensures Armed(Act(d, a))
  {
    match a
    case Cancel(id) => WithoutMembers(d.behind, {id});
    case Register(events, fault) => RegisterArms(d, events, fault);
    case Close => CloseDisarms(d);
  }

  lemma {:induction false} RunKeepsArmed(d: Descriptor, script: Script)
    requires Settled(d) && Armed(d) && ClosedHarmlessly(d, script)
    ensures Armed(Run(d, script))
  {
    if script == [] {
    } else {
      var first := script[..|script| - 1];
      HarmlessBefore(d, script);
      RunKeepsArmed(d, first);
      RunKeeps(d, first);
      ActKeepsArmed(Run(d, first), script[|script| - 1]);
    }
  }

  lemma StepArms(d: Descriptor, c: Command)
    requires Settled(d) && Armed(d) && SteadyStep(d, c)
    ensures Armed(Step(d, c))
  {
    match c
    case Env(script) => RunKeepsArmed(d, script);
    case Handle(_, scripts, fault) => KQueueHandleArms(d, scripts, fault);
    case Delivered(_) =>
  }

  /** Over every run of steady steps what listed waiters want is armed or delivered. */
  lemma {:induction false} FiltersStayArmed(cs: seq<Command>)
    requires Steady(KQueue({}, {}, {}), cs)
    ensures Armed(Steps(Initial(KQueue({}, {}, {})), cs))
  {
    var b := KQueue({}, {}, {});
    if cs == [] {
    } else {
      var first := cs[..|cs| - 1];
      FiltersStayArmed(first);
      EveryRunSettles(b, first);
      StepArms(Steps(Initial(b), first), cs[|first|]);
    }
  }

  lemma KQueueHandleArms(d: Descriptor, scripts: seq<Script>, fault: bool)
    requires Settled(d) && Armed(d) && KQueueHandle(d, scripts, fault).1 != Failed
    ensures Armed(KQueueHandle(d, scripts, fault).0)
  {
    var c := d.(backend := d.backend.(ready := {}, registered := d.backend.registered - d.backend.ready));
    assert List(c) == List(d);
    if d.backend.ready != {} {
      HandleArms(c, d.backend.ready, scripts, fault);
    }
  }

  // ----- The exact condition -----

  /** Everything that listed waiters want is watched for, or armed or delivered. */
  ghost predicate Served(d: Descriptor) {
    if d.backend.EPoll? then Watched(d) else Armed(d)
  }

  ghost predicate ServedThroughout(b: Backend, cs: seq<Command>) {
    && Served(Steps(Initial(b), cs))
    && (cs != [] ==> ServedThroughout(b, cs[..|cs| - 1]))
  }

  /** One action between handle calls, or a handle call that succeeds. */
  ghost predicate Single(d: Descriptor, c: Command) {
    match c
    case Env(script) => |script| <= 1
    case Handle(_, _, _) => HandleSucceeds(d, c)
    case Delivered(_) => true
  }

  ghost predicate StepByStep(b: Backend, cs: seq<Command>) {
    cs == [] ||
    var first := cs[..|cs| - 1];
    StepByStep(b, first) && Single(Steps(Initial(b), first), cs[|cs| - 1])
  }

  /** Such a step leaves served waiters unserved exactly if it is not steady. */
  lemma StepServes(d: Descriptor, c: Command)
    requires Settled(d) && Served(d) && Single(d, c)
    ensures Served(Step(d, c)) <==> SteadyStep(d, c)
  {
    match c
    case Env(script) => ScriptServes(d, script);
    case Delivered(_) =>
    case Handle(ready, scripts, fault) =>
      PassKeepsBackendKind(Start(d), ready, scripts);
      if d.backend.KQueue? {
        KQueueHandleArms(d, scripts, fault);
      } else {
        HandleWatches(d, ready, scripts, fault);
      }
  }

  lemma ScriptServes(d: Descriptor, script: Script)
    requires Settled(d) && Served(d) && |script| <= 1
    ensures Served(Run(d, script)) <==> ClosedHarmlessly(d, script)
  {
    if script == [] {
    } else {
      assert script == [script[0]] && script[..0] == [];
      ActServes(d, script[0]);
    }
  }

  lemma ActServes(d: Descriptor, a: Action)
    requires Settled(d) && Served(d)
    ensures Served(Act(d, a)) <==> (a.Close? ==> Harmless(d))
  {
    if d.backend.EPoll? {
      if a.Close? { CloseUnwatches(d); } else { ActKeepsWatched(d, a); }
    } else {
      if a.Close? { CloseDisarms(d); } else { ActKeepsArmed(d, a); }
    }
  }

  /** In every run of actions and handle calls that succeed, the listed waiters are served at all times if and only if
      every step is steady. */
  lemma {:induction false} ServedExactly(b: Backend, cs: seq<Command>)
    requires b == EPoll(0, {}, 1, None, false) || b == KQueue({}, {}, {})
    requires StepByStep(b, cs)
    ensures ServedThroughout(b, cs) <==> Steady(b, cs)
  {
    if cs == [] {
    } else {
      var first := cs[..|cs| - 1];
      ServedExactly(b, first);
      EveryRunSettles(b, first);
      if Steady(b, first) { StepServes(Steps(Initial(b), first), cs[|first|]); }
    }
  }

  /** Several kevents of one batch are merged before the first is handled. */
  function DeliverAll(d: Descriptor, filters: seq<Events>): (r: Descriptor)
    requires d.backend.KQueue?
    ensures r.backend.KQueue?
    decreases |filters|
  {
    if filters == [] then d else DeliverAll(Deliver(d, filters[0]), filters[1..])
  }

  function Union(sets: seq<Events>): Events {
    if sets == [] then {} else sets[0] + Union(sets[1..])
  }

  lemma {:induction false} DeliveriesMerge(d: Descriptor, filters: seq<Events>)
    requires d.backend.KQueue?
    ensures DeliverAll(d, filters) == Deliver(d, Union(filters))
    decreases |filters|
  {
    if filters != [] {
      DeliveriesMerge(Deliver(d, filters[0]), filters[1..]);
      var a, b := filters[0], Union(filters[1..]);
      assert d.backend.armed - a * d.backend.armed - b * (d.backend.armed - a * d.backend.armed)
          == d.backend.armed - (a + b) * d.backend.armed;
      assert d.backend.ready + a * d.backend.armed + b * (d.backend.armed - a * d.backend.armed)
          == d.backend.ready + (a + b) * d.backend.armed;
    } else {
      assert d.backend.armed - {} * d.backend.armed == d.backend.armed;
      assert d.backend.ready + {} * d.backend.armed == d.backend.ready;
    }
  }

  /** One kevent of a batch that names this descriptor: the scripts of the fibers it resumes, whether the update fails,
      and what fibers resumed for other descriptors do before the next such kevent. */
  datatype Kevent = Kevent(scripts: seq<Script>, fault: bool, others: Script)

  function HandleEntry(d: Descriptor, k: Kevent): Descriptor
    requires d.backend.KQueue?
  {
    Run(KQueueHandle(d, k.scripts, k.fault).0, k.others)
  }

  /** The second loop of a batch. */
  function HandleEntries(d: Descriptor, batch: seq<Kevent>): Descriptor
    requires d.backend.KQueue?
    decreases |batch|
  {
    if batch == [] then d
    else
      EntryKeepsKind(d, batch[0]);
      HandleEntries(HandleEntry(d, batch[0]), batch[1..])
  }

  lemma EntryKeepsKind(d: Descriptor, k: Kevent)
    requires d.backend.KQueue?
    ensures HandleEntry(d, k).backend.KQueue? && HandleEntry(d, k).backend.ready == {}
  {
    HandleKeepsKind(d, k.scripts, k.fault);
    RunKeepsReady(KQueueHandle(d, k.scripts, k.fault).0, k.others);
  }

  lemma HandleKeepsKind(d: Descriptor, scripts: seq<Script>, fault: bool)
    requires d.backend.KQueue?
    ensures KQueueHandle(d, scripts, fault).0.backend.KQueue?
    ensures KQueueHandle(d, scripts, fault).0.backend.ready == {}
  {
    var ready := d.backend.ready;
    var c := d.(backend := d.backend.(ready := {}, registered := d.backend.registered - ready));
    PassKeepsBackendKind(Start(c), ready, scripts);
    PassKeepsReady(Start(c), ready, scripts);
  }

  lemma {:induction false} RunKeepsReady(d: Descriptor, script: Script)
    requires d.backend.KQueue?
    ensures Run(d, script).backend.KQueue? && Run(d, script).backend.ready == d.backend.ready
  {
    if script == [] {
    } else {
      RunKeepsReady(d, script[..|script| - 1]);
    }
  }

  lemma {:induction false} PassKeepsReady(d: Descriptor, ready: Events, scripts: seq<Script>)
    requires d.backend.KQueue?
    ensures Pass(d, ready, scripts).backend.KQueue? && Pass(d, ready, scripts).backend.ready == d.backend.ready
    decreases |d.ahead|
  {
    if d.ahead == [] {
    } else {
      var script := if !Resumes(d, ready) || scripts == [] then [] else scripts[0];
      var rest := if Resumes(d, ready) && scripts != [] then scripts[1..] else scripts;
      if Resumes(d, ready) {
        var w := d.ahead[0];
        RunKeepsReady(d.(ahead := d.ahead[1..], log := d.log + [Resumed(w.id, w.events * ready)]), script);
      }
      PassKeepsReady(Visit(d, ready, script), ready, rest);
    }
  }

  lemma EntryVisits(d: Descriptor, k: Kevent)
    requires Settled(d) && d.backend.KQueue?
    ensures Settled(HandleEntry(d, k))
    ensures if d.backend.ready == {} then OnlyDropped(d, HandleEntry(d, k))
            else AllVisited(Start(d), HandleEntry(d, k), d.backend.ready)
  {
    var h := KQueueHandle(d, k.scripts, k.fault).0;
    KQueueHandleVisitsAndKeeps(d, k.scripts, k.fault);
    EnvSettles(h, k.others);
    RunDrops(h, k.others);
    if d.backend.ready != {} {
      VisitedThenQuiet(Start(d), h, HandleEntry(d, k), d.backend.ready);
    }
  }

  lemma VisitedThenQuiet(d: Descriptor, h: Descriptor, r: Descriptor, ready: Events)
    requires AllVisited(d, h, ready) && OnlyDropped(h, r) && h.ahead == []
    ensures AllVisited(d, r, ready)
  {
    SinceThen(d, h, r);
    assert DroppedIds(Since(h, r)) == {};
    assert Visits(Since(d, h)) + [] == Visits(Since(d, h));
    assert DroppedIds(Since(d, r)) == DroppedIds(Since(d, h));
  }

  lemma {:induction false} LaterEntriesVisitNobody(d: Descriptor, batch: seq<Kevent>)
    requires Settled(d) && d.backend.KQueue? && d.backend.ready == {}
    ensures OnlyDropped(d, HandleEntries(d, batch))
    decreases |batch|
  {
    if batch == [] {
      NothingHappened(d, d);
    } else {
      var h := HandleEntry(d, batch[0]);
      EntryKeepsKind(d, batch[0]);
      EntryVisits(d, batch[0]);
      LaterEntriesVisitNobody(h, batch[1..]);
      OnlyDroppedThen(d, h, HandleEntries(d, batch));
    }
  }

  /** However many kevents of a batch name the descriptor, its waiters are visited by the first of its entries only,
      with the union of the events, so each is resumed at most once. */
  lemma BatchVisitsOnce(d: Descriptor, filters: seq<Events>, batch: seq<Kevent>)
    requires Settled(d) && d.backend.KQueue? && batch != []
    ensures var m := DeliverAll(d, filters);
            var ready := d.backend.ready + Union(filters) * d.backend.armed;
            m.backend.ready == ready &&
            if ready == {} then OnlyDropped(m, HandleEntries(m, batch))
            else AllVisited(Start(m), HandleEntries(m, batch), ready)
  {
    var m := DeliverAll(d, filters);
    DeliveriesMerge(d, filters);
    assert Settled(m);
    var h := HandleEntry(m, batch[0]);
    EntryKeepsKind(m, batch[0]);
    EntryVisits(m, batch[0]);
    LaterEntriesVisitNobody(h, batch[1..]);
    BatchTail(m, h, HandleEntries(m, batch));
  }

  lemma BatchTail(m: Descriptor, h: Descriptor, r: Descriptor)
    requires m.backend.KQueue? && h.ahead == [] && OnlyDropped(h, r)
    requires if m.backend.ready == {} then OnlyDropped(m, h) else AllVisited(Start(m), h, m.backend.ready)
    ensures if m.backend.ready == {} then OnlyDropped(m, r) else AllVisited(Start(m), r, m.backend.ready)
  {
    if m.backend.ready == {} {
      OnlyDroppedThen(m, h, r);
    } else {
      VisitedThenQuiet(Start(m), h, r, m.backend.ready);
    }
  }
}
