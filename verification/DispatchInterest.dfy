/** What a descriptor asks the kernel for after the operations of module Dispatch: exactly what is still wanted. */
module DispatchInterest {
  import opened Dispatch
  import opened Interest
  import opened Optional

  // ----- Updates -----

  /** When an update fails, and when the kernel accepts a new mask. */
  lemma UpdateOutcome(b: Backend, waiting: Events, io: nat, fault: bool)
    ensures var same, asked := b.EPoll? && b.io == io && b.registered == waiting,
                               if b.EPoll? then waiting else waiting * FILTERED;
            var result := Update(b, waiting, io, fault).1;
            && (result == Failed <==> !same && asked != {} && fault)
            && (result == Changed <==> !same && asked != {} && !fault)
  {
  }

  /** The kernel holds exactly the registered mask, and nothing for an empty one or once the descriptor was closed. */
  ghost predicate Exact(b: Backend) {
    b.EPoll? ==> b.kernel == if b.registered == {} || b.dropped then None else Some(b.registered)
  }

  /** An update without a fault leaves exactly the mask asked for: nothing for an empty one, and nothing if the early
      return is taken for what a close has undone. The one exception is an empty mask for an IO other than the one that
      is registered. */
  lemma UpdateExactly(b: Backend, waiting: Events, io: nat)
    requires b.EPoll? && Synchronised(b) && Exact(b)
    ensures var c := Update(b, waiting, io, false).0;
            && c.EPoll? && c.registered == waiting && c.open == b.open
            && (Exact(c) <==> !(waiting == {} && io != b.io && b.registered != {} && !b.dropped))
            && (c.dropped <==> b.dropped && (waiting == {} || (b.io == io && b.registered == waiting)))
            && c.io == if waiting == {} && (io != b.io || b.registered != {}) then 0 else io
  {
  }

  /** Such an update: the kernel still has the entry of an earlier IO, and it stays although nothing is asked for. */
  lemma StaleEntryStays()
    ensures var b := EPoll(1, {Readable}, 2, Some({Readable}), false);
            && Synchronised(b) && Exact(b)
            && Update(b, {}, 2, false) == (EPoll(0, {}, 2, Some({Readable}), false), Unchanged)
  {
  }

  /** A KQueue update without a fault arms the filters of the mask, and disarms none; it notes the mask if there is a
      filter for it. */
  lemma UpdateArms(b: Backend, waiting: Events, io: nat)
    requires b.KQueue?
    ensures var c := Update(b, waiting, io, false).0;
            && c.KQueue? && c.armed == b.armed + waiting * FILTERED && c.ready == b.ready
            && c.registered == if waiting * FILTERED == {} then b.registered else waiting
  {
  }

  /** A one-shot filter is delivered once for each time it is armed. */
  lemma DeliveredOnce(d: Descriptor, filters: Events)
    requires d.backend.KQueue?
    ensures var c := Deliver(d, filters);
            && c.backend.KQueue? && c.backend.armed == d.backend.armed - filters
            && (forall e :: e in c.backend.ready <==> e in d.backend.ready || (e in filters && e in d.backend.armed))
            && Deliver(c, filters) == c
  {
  }

  // ----- Registrations -----

  /** A registration without a fault asks for what was asked for before and what the new waiter wants, and lists it
      first. */
  lemma RegisterExactly(d: Descriptor, events: Events)
    requires Sound(d) && Exact(d.backend)
    ensures var (r, result) := Registered(d, events, false);
            && result != Failed
            && r.waiting == d.waiting + events
            && r.behind == [Waiter(d.nextId, events)] + d.behind && r.ahead == d.ahead && r.log == d.log
            && r.nextId == d.nextId + 1
            && (d.backend.EPoll? && events != {} ==> r.backend.EPoll? && r.backend.kernel == Some(d.waiting + events))
            && (d.backend.KQueue? ==>
                  r.backend.KQueue? && r.backend.armed == d.backend.armed + (d.waiting + events) * FILTERED)
  {
    UpdateOutcome(d.backend, d.waiting + events, if d.backend.EPoll? then d.backend.open else 0, false);
    if d.backend.EPoll? { UpdateSynchronises(d.backend, d.waiting + events, d.backend.open, false); }
  }

  /** A cancellation takes the waiter out of the list, wherever the cursor is, and touches nobody else; what is asked
      for stays until the next handle call. */
  lemma CancelExactly(d: Descriptor, id: nat)
    requires Sound(d)
    ensures var r := Act(d, Cancel(id));
            && (forall w :: w in r.behind <==> w in d.behind && w.id != id)
            && (forall w :: w in r.ahead <==> w in d.ahead && w.id != id)
            && r.waiting == d.waiting && r.backend == d.backend && r.nextId == d.nextId
  {
    WithoutMembers(d.behind, {id});
    WithoutMembers(d.ahead, {id});
  }

  /** Whoever a script cancels, of the waiters that were there, is not listed after it. */
  lemma {:induction false} RunCancels(d: Descriptor, script: Script, id: nat)
    requires Sound(d) && Cancel(id) in script && id < d.nextId
    ensures id !in Ids(List(Run(d, script)))
  {
    var first, a := script[..|script| - 1], script[|script| - 1];
    var c := Run(d, first);
    assert script == first + [a];
    RunKeeps(d, first);
    if a == Cancel(id) {
      CancelExactly(c, id);
    } else {
      RunCancels(d, first, id);
      if a.Cancel? { CancelExactly(c, a.id); }
    }
  }

  // ----- What a pass asks for -----

  /** What the registrations of a script name. */
  function Named(script: Script): Events {
    if script == [] then {}
    else
      var a := script[|script| - 1];
      Named(script[..|script| - 1]) + if a.Register? then a.events else {}
  }

  lemma {:induction false} RunNames(d: Descriptor, script: Script)
    ensures Run(d, script).waiting == d.waiting + Named(script)
  {
    if script == [] {
    } else {
      RunNames(d, script[..|script| - 1]);
    }
  }

  /** What the first `n` scripts name. */
  function NamedBy(scripts: seq<Script>, n: nat): Events {
    if n == 0 || scripts == [] then {} else Named(scripts[0]) + NamedBy(scripts[1..], n - 1)
  }

  /** How many waiters a log records as resumed. */
  function Resumptions(log: seq<Entry>): nat {
    if log == [] then 0 else (if log[0].Resumed? then 1 else 0) + Resumptions(log[1..])
  }

  lemma {:induction false} ResumptionsConcat(a: seq<Entry>, b: seq<Entry>)
    ensures Resumptions(a + b) == Resumptions(a) + Resumptions(b)
  {
    if a == [] {
      assert a + b == b;
    } else {
      ResumptionsConcat(a[1..], b);
      assert a + b == [a[0]] + (a[1..] + b);
    }
  }

  lemma {:induction false} VisitsMember(log: seq<Entry>, e: Entry)
    ensures e in Visits(log) <==> e in log && (e.Resumed? || e.Kept?)
  {
    if log == [] {
    } else {
      VisitsMember(log[1..], e);
      assert log == [log[0]] + log[1..];
    }
  }

  lemma {:induction false} NoVisitsNoResumptions(log: seq<Entry>)
    requires Visits(log) == []
    ensures Resumptions(log) == 0
  {
    if log == [] {
    } else {
      NoVisitsNoResumptions(log[1..]);
    }
  }

  /** A waiter ahead of the cursor in `d` that was kept on the way to `r` wants `e`. */
  ghost predicate KeptWants(d: Descriptor, r: Descriptor, e: Event) {
    d.log <= r.log && exists w :: w in d.ahead && Kept(w.id) in Since(d, r) && e in w.events
  }

  /** What one visit adds to the interest: what the waiter wants if it is kept, what its script registers otherwise. */
  lemma VisitWants(d: Descriptor, ready: Events, script: Script)
    requires d.ahead != []
    ensures var c, w := Visit(d, ready, script), d.ahead[0];
            && d.log <= c.log
            && c.waiting == d.waiting + (if Resumes(d, ready) then Named(script) else w.events)
            && Resumptions(Since(d, c)) == (if Resumes(d, ready) then 1 else 0)
            && forall id: nat :: Kept(id) in Since(d, c) <==> id == w.id && !Resumes(d, ready)
  {
    var w, c := d.ahead[0], Visit(d, ready, script);
    if Resumes(d, ready) {
      var e := Resumed(w.id, w.events * ready);
      var m := d.(ahead := d.ahead[1..], log := d.log + [e]);
      RunNames(m, script);
      RunDrops(m, script);
      assert Since(d, c) == [e] + Since(m, c);
      assert Resumptions([e]) == 1 by { assert [e][1..] == []; }
      ResumptionsConcat([e], Since(m, c));
      NoVisitsNoResumptions(Since(m, c));
      forall id: nat ensures Kept(id) !in Since(d, c) { VisitsMember(Since(m, c), Kept(id)); }
    } else {
      assert Since(d, c) == [Kept(w.id)];
      assert Resumptions([Kept(w.id)]) == 0 by { assert [Kept(w.id)][1..] == []; }
    }
  }

  /** Who is kept was ahead. */
  lemma KeptWasAhead(c: Descriptor, p: Descriptor, ready: Events, id: nat)
    requires AllVisited(c, p, ready) && Kept(id) in Since(c, p)
    ensures id in Ids(c.ahead)
  {
    var visited := Without(c.ahead, DroppedIds(Since(c, p)));
    VisitsMember(Since(c, p), Kept(id));
    var i :| 0 <= i < |visited| && VisitEach(visited, ready)[i] == Kept(id);
    WithoutMembers(c.ahead, DroppedIds(Since(c, p)));
    assert visited[i] in c.ahead;
  }

  lemma KeptFirst(d: Descriptor, c: Descriptor, p: Descriptor, ready: Events, e: Event)
    requires FirstVisited(d, c, ready) && AllVisited(c, p, ready) && DistinctIds(d.ahead)
    requires forall id: nat :: Kept(id) in Since(d, c) <==> id == d.ahead[0].id && !Resumes(d, ready)
    ensures KeptWants(d, p, e) <==> KeptWants(c, p, e) || (!Resumes(d, ready) && e in d.ahead[0].events)
  {
    var w, tail := d.ahead[0], d.ahead[1..];
    assert d.ahead == [w] + tail;
    SinceThen(d, c, p);
    WithoutMembers(tail, DroppedIds(Since(d, c)));
    if KeptWants(d, p, e) {
      var x :| x in d.ahead && Kept(x.id) in Since(d, p) && e in x.events;
      if Kept(x.id) in Since(c, p) {
        KeptWasAhead(c, p, ready, x.id);
        var y :| y in c.ahead && y.id == x.id;
        SameWaiter(d.ahead, x, y);
      } else {
        SameWaiter(d.ahead, x, w);
      }
    }
    if KeptWants(c, p, e) {
      var x :| x in c.ahead && Kept(x.id) in Since(c, p) && e in x.events;
      assert x in d.ahead && Kept(x.id) in Since(d, p);
    }
    if !Resumes(d, ready) && e in w.events {
      assert w in d.ahead && Kept(w.id) in Since(d, p);
    }
  }

  lemma SameWaiter(ws: seq<Waiter>, x: Waiter, y: Waiter)
    requires DistinctIds(ws) && x in ws && y in ws && x.id == y.id
    ensures x == y
  {
  }

  /** `e` is asked for in `p`, as PassWants says. */
  ghost predicate AskedFor(d: Descriptor, p: Descriptor, scripts: seq<Script>, e: Event) {
    && d.log <= p.log
    && (e in p.waiting <==>
          e in d.waiting || KeptWants(d, p, e) || e in NamedBy(scripts, Resumptions(Since(d, p))))
  }

  /** The interest after a pass, exactly: what it was before, what the waiters that were kept want, and what the
      scripts of those that were resumed registered. */
  lemma {:induction false} PassWants(d: Descriptor, ready: Events, scripts: seq<Script>, e: Event)
    requires DistinctIds(d.ahead)
    ensures AskedFor(d, Pass(d, ready, scripts), scripts, e)
    decreases |d.ahead|
  {
    if d.ahead == [] {
      assert Since(d, d) == [];
    } else {
      var script := if !Resumes(d, ready) || scripts == [] then [] else scripts[0];
      var rest := if Resumes(d, ready) && scripts != [] then scripts[1..] else scripts;
      var c := Visit(d, ready, script);
      VisitIsFirst(d, ready, script);
      WithoutDistinct(d.ahead[1..], DroppedIds(Since(d, c)));
      PassWants(c, ready, rest, e);
      PassVisits(c, ready, rest);
      VisitThenWants(d, c, Pass(c, ready, rest), ready, scripts, e);
    }
  }

  lemma VisitThenWants(d: Descriptor, c: Descriptor, p: Descriptor, ready: Events, scripts: seq<Script>, e: Event)
    requires FirstVisited(d, c, ready) && AllVisited(c, p, ready) && DistinctIds(d.ahead)
    requires var script := if !Resumes(d, ready) || scripts == [] then [] else scripts[0];
             var rest := if Resumes(d, ready) && scripts != [] then scripts[1..] else scripts;
             c == Visit(d, ready, script) && AskedFor(c, p, rest, e)
    ensures AskedFor(d, p, scripts, e)
  {
    var script := if !Resumes(d, ready) || scripts == [] then [] else scripts[0];
    var rest := if Resumes(d, ready) && scripts != [] then scripts[1..] else scripts;
    VisitWants(d, ready, script);
    KeptFirst(d, c, p, ready, e);
    var n := Resumptions(Since(c, p));
    assert Resumptions(Since(d, p)) == n + if Resumes(d, ready) then 1 else 0 by {
      SinceThen(d, c, p);
      ResumptionsConcat(Since(d, c), Since(c, p));
    }
    if Resumes(d, ready) { NamedFirst(scripts, n); }
  }

  lemma NamedFirst(scripts: seq<Script>, n: nat)
    ensures NamedBy(scripts, n + 1) ==
            if scripts == [] then {} else Named(scripts[0]) + NamedBy(scripts[1..], n)
    ensures Named([]) == {} && NamedBy([], n) == {}
  {
  }

  /** A handle call asks for an event, before its update, exactly if a listed waiter that it kept wants it, or a fiber
      it resumed registered for it. */
  lemma HandleWants(d: Descriptor, ready: Events, scripts: seq<Script>, e: Event)
    requires Settled(d)
    ensures var s, p := Start(d), BeforeUpdate(d, ready, scripts);
            && s.log == d.log <= p.log
            && (e in p.waiting <==>
                  || (exists w :: w in d.behind && Kept(w.id) in Since(d, p) && e in w.events)
                  || e in NamedBy(scripts, Resumptions(Since(d, p))))
  {
    var s, p := Start(d), BeforeUpdate(d, ready, scripts);
    assert d.behind + [] == d.behind && s.ahead == List(d);
    PassWants(s, ready, scripts, e);
    assert Since(s, p) == Since(d, p);
  }

  // ----- What the kernel is left with -----

  predicate Faultless(script: Script) {
    forall a | a in script && a.Register? :: !a.fault
  }

  predicate Names(script: Script) {
    forall a | a in script && a.Register? :: a.events != {}
  }

  /** The entry of the kernel, if there is one, is that of the IO the descriptor belongs to now. */
  predicate Current(b: Backend) {
    b.EPoll? ==> b.io == b.open || b.registered == {} || b.dropped
  }

  /** Nothing fails, and no registration asks for nothing while the kernel has the entry of another IO: all of them name
      events, or the entry is the current one's and nobody closes it. */
  predicate Plain(b: Backend, scripts: seq<Script>) {
    && (forall s | s in scripts :: Faultless(s))
    && ((forall s | s in scripts :: Names(s)) || (Current(b) && forall s | s in scripts :: !Closes(s)))
  }

  lemma {:induction false} RunIsExact(d: Descriptor, script: Script, open: bool)
    requires Sound(d) && Exact(d.backend) && Faultless(script)
    requires if open then Current(d.backend) && !Closes(script) else Names(script)
    ensures Exact(Run(d, script).backend) && (open ==> Current(Run(d, script).backend))
  {
    if script == [] {
    } else {
      var first, a := script[..|script| - 1], script[|script| - 1];
      assert a in script && forall x | x in first :: x in script;
      RunIsExact(d, first, open);
      RunKeeps(d, first);
      var c := Run(d, first);
      if a.Register? && c.backend.EPoll? { UpdateExactly(c.backend, c.waiting + a.events, c.backend.open); }
    }
  }

  lemma {:induction false} PassIsExact(d: Descriptor, ready: Events, scripts: seq<Script>, open: bool)
    requires Sound(d) && Exact(d.backend) && forall s | s in scripts :: Faultless(s)
    requires if open then Current(d.backend) && forall s | s in scripts :: !Closes(s)
             else forall s | s in scripts :: Names(s)
    ensures Exact(Pass(d, ready, scripts).backend)
    decreases |d.ahead|
  {
    if d.ahead == [] {
    } else {
      var script := if !Resumes(d, ready) || scripts == [] then [] else scripts[0];
      var rest := if Resumes(d, ready) && scripts != [] then scripts[1..] else scripts;
      assert script == [] || script in scripts;
      assert forall s | s in rest :: s in scripts;
      VisitIsExact(d, ready, script, open);
      VisitKeeps(d, ready, script);
      PassIsExact(Visit(d, ready, script), ready, rest, open);
    }
  }

  lemma VisitIsExact(d: Descriptor, ready: Events, script: Script, open: bool)
    requires Sound(d) && Exact(d.backend) && Faultless(script) && d.ahead != []
    requires if open then Current(d.backend) && !Closes(script) else Names(script)
    ensures var c := Visit(d, ready, script); Exact(c.backend) && (open ==> Current(c.backend))
  {
    var w := d.ahead[0];
    if Resumes(d, ready) {
      var e := Resumed(w.id, w.events * ready);
      LeavesTheList(d, d.(ahead := d.ahead[1..], log := d.log + [e]), e);
      RunIsExact(d.(ahead := d.ahead[1..], log := d.log + [e]), script, open);
    }
  }

  /** After an EPoll handle call in which nothing fails the kernel holds exactly the interest that HandleWants tells:
      no entry at all if there is none, and none either when the early return is taken for a mask that a close undid. */
  lemma EPollHandleExactly(d: Descriptor, ready: Events, scripts: seq<Script>)
    requires Settled(d) && d.backend.EPoll? && Exact(d.backend) && Plain(d.backend, scripts)
    ensures var p := BeforeUpdate(d, ready, scripts);
            var (r, result) := EPollHandle(d, ready, scripts, false);
            && p.backend.EPoll? && r.backend.EPoll? && result != Failed && Exact(r.backend)
            && r.waiting == p.waiting && r.behind == p.behind
            && r.backend.kernel ==
               if p.waiting == {} || (p.backend.dropped && p.backend.registered == p.waiting) then None
               else Some(p.waiting)
  {
    var s, p := Start(d), BeforeUpdate(d, ready, scripts);
    StartKeeps(d);
    PassKeeps(s, ready, scripts);
    PassKeepsBackendKind(s, ready, scripts);
    PassIsExact(s, ready, scripts, !forall s | s in scripts :: Names(s));
    UpdateExactly(p.backend, p.waiting, p.backend.io);
    UpdateOutcome(p.backend, p.waiting, p.backend.io, false);
  }

  /** After a KQueue handle call whose update does not fail, what is armed is what was armed before the update and
      what it asked for. */
  lemma KQueueHandleExactly(d: Descriptor, ready: Events, scripts: seq<Script>)
    requires Settled(d) && d.backend.KQueue?
    ensures var p := BeforeUpdate(d, ready, scripts);
            var (r, result) := Handled(d, ready, scripts, false);
            && p.backend.KQueue? && r.backend.KQueue? && result != Failed
            && r.waiting == p.waiting && r.behind == p.behind
            && r.backend.armed == p.backend.armed + p.waiting * FILTERED
  {
    PassKeepsBackendKind(Start(d), ready, scripts);
    var p := BeforeUpdate(d, ready, scripts);
    UpdateArms(p.backend, p.waiting, 0);
    UpdateOutcome(p.backend, p.waiting, 0, false);
  }

  // ----- When no fiber acts -----

  function Unmatched(ws: seq<Waiter>, ready: Events): (r: seq<Waiter>) {
    if ws == [] then []
    else if ws[0].events * ready != {} then Unmatched(ws[1..], ready)
    else [ws[0]] + Unmatched(ws[1..], ready)
  }

  /** What the waiters of a list want. */
  function Wants(ws: seq<Waiter>): (events: Events)
    ensures forall e :: e in events <==> exists w :: w in ws && e in w.events
  {
    if ws == [] then {}
    else
      assert ws == [ws[0]] + ws[1..];
      ws[0].events + Wants(ws[1..])
  }

  lemma QuietVisit(d: Descriptor, ready: Events)
    requires d.ahead != []
    ensures var c, w := Visit(d, ready, []), d.ahead[0];
            && c.behind == d.behind + (if Resumes(d, ready) then [] else [w])
            && c.waiting == d.waiting + (if Resumes(d, ready) then {} else w.events)
            && c.ahead == d.ahead[1..] && c.backend == d.backend
  {
  }

  lemma UnmatchedFirst(behind: seq<Waiter>, w: Waiter, tail: seq<Waiter>, ready: Events)
    ensures var first := if w.events * ready != {} then [] else [w];
            && Unmatched([w] + tail, ready) == first + Unmatched(tail, ready)
            && behind + Unmatched([w] + tail, ready) == behind + first + Unmatched(tail, ready)
            && Wants(Unmatched([w] + tail, ready))
               == (if w.events * ready != {} then {} else w.events) + Wants(Unmatched(tail, ready))
  {
    assert ([w] + tail)[1..] == tail;
    assert [] + Unmatched(tail, ready) == Unmatched(tail, ready);
    assert ([w] + Unmatched(tail, ready))[1..] == Unmatched(tail, ready);
  }

  lemma UnionJoins(a: Events, b: Events, c: Events)
    ensures a + (b + c) == a + b + c
  {
  }

  /** A pass whose fibers do nothing to the descriptor keeps those that do not match, and what they want. */
  lemma {:induction false} QuietPass(d: Descriptor, ready: Events, scripts: seq<Script>)
    requires forall s | s in scripts :: s == []
    ensures var p := Pass(d, ready, scripts);
            && p.behind == d.behind + Unmatched(d.ahead, ready)
            && p.waiting == d.waiting + Wants(Unmatched(d.ahead, ready))
            && p.backend == d.backend
    decreases |d.ahead|
  {
    if d.ahead == [] {
      assert d.behind + [] == d.behind;
    } else {
      var rest := if Resumes(d, ready) && scripts != [] then scripts[1..] else scripts;
      var w, tail := d.ahead[0], d.ahead[1..];
      assert scripts != [] ==> scripts[0] in scripts && scripts[0] == [];
      assert forall s | s in rest :: s in scripts;
      QuietVisit(d, ready);
      QuietPass(Visit(d, ready, []), ready, rest);
      assert d.ahead == [w] + tail;
      UnmatchedFirst(d.behind, w, tail, ready);
      UnionJoins(d.waiting, if Resumes(d, ready) then {} else w.events, Wants(Unmatched(tail, ready)));
    }
  }

  /** A handle call whose fibers do nothing to the descriptor leaves the waiters that did not match, and the kernel
      watches for exactly what they want; for nothing if they want nothing. */
  lemma QuietHandleExactly(d: Descriptor, ready: Events, scripts: seq<Script>)
    requires Settled(d) && Exact(d.backend) && forall s | s in scripts :: s == []
    ensures var left := Unmatched(d.behind, ready);
            var (r, result) := Handled(d, ready, scripts, false);
            && result != Failed && r.behind == left && r.waiting == Wants(left)
            && (d.backend.EPoll? && !d.backend.dropped ==>
                  r.backend.EPoll? && r.backend.kernel == if Wants(left) == {} then None else Some(Wants(left)))
            && (d.backend.KQueue? ==>
                  r.backend.KQueue? && r.backend.armed == d.backend.armed + Wants(left) * FILTERED)
  {
    assert d.behind + [] == d.behind;
    QuietPass(Start(d), ready, scripts);
    assert [] + Unmatched(d.behind, ready) == Unmatched(d.behind, ready);
    if d.backend.EPoll? {
      EPollHandleExactly(d, ready, scripts);
    } else {
      KQueueHandleExactly(d, ready, scripts);
    }
  }

  /** A waiter listed in `d` that was kept on the way to `r` wants `e`, or a fiber resumed on the way registered for
      it. */
  ghost predicate StillWanted(d: Descriptor, r: Descriptor, scripts: seq<Script>, e: Event) {
    && d.log <= r.log
    && (|| (exists w :: w in d.behind && Kept(w.id) in Since(d, r) && e in w.events)
        || e in NamedBy(scripts, Resumptions(Since(d, r))))
  }

  /** One handle call: HandleWants, EPollHandleExactly and QuietHandleExactly together. */
  lemma HandleAsks(d: Descriptor, ready: Events, scripts: seq<Script>, fault: bool)
    requires Settled(d)
    ensures var (r, result) := Handled(d, ready, scripts, fault);
            && d.log <= r.log && (result == Failed ==> fault)
            && (forall e :: e in r.waiting <==> StillWanted(d, r, scripts, e))
            && (!fault && d.backend.EPoll? && Exact(d.backend) && Plain(d.backend, scripts) ==>
                  && r.backend.EPoll? && r.backend.registered == r.waiting
                  && r.backend.kernel == if r.waiting == {} || r.backend.dropped then None else Some(r.waiting))
            && (!fault && Exact(d.backend) && (forall s | s in scripts :: s == []) ==>
                  && r.behind == Unmatched(d.behind, ready)
                  && r.waiting == Wants(r.behind)
                  && match d.backend
                     case EPoll(_, _, _, _, dropped) =>
                       r.backend.EPoll? && (!dropped ==>
                         r.backend.kernel == if r.waiting == {} then None else Some(r.waiting))
                     case KQueue(_, armed, _) =>
                       r.backend.KQueue? && r.backend.armed == armed + r.waiting * FILTERED)
  {
    var p, r := BeforeUpdate(d, ready, scripts), Handled(d, ready, scripts, fault).0;
    UpdateOutcome(p.backend, p.waiting, if p.backend.EPoll? then p.backend.io else 0, fault);
    forall e ensures e in r.waiting <==> StillWanted(d, r, scripts, e) { HandleWants(d, ready, scripts, e); }
    HandleWants(d, ready, scripts, Exit);
    if !fault && d.backend.EPoll? && Exact(d.backend) && Plain(d.backend, scripts) {
      EPollHandleExactly(d, ready, scripts);
    }
    if !fault && Exact(d.backend) && forall s | s in scripts :: s == [] {
      QuietHandleExactly(d, ready, scripts);
    }
  }

  // ----- Whole runs -----

  /** Nothing fails, and every registration names events. */
  predicate PlainCommand(c: Command) {
    match c
    case Env(script) => Faultless(script) && Names(script)
    case Handle(_, scripts, fault) => !fault && forall s | s in scripts :: Faultless(s) && Names(s)
    case Delivered(_) => true
  }

  /** Over every run in which nothing fails the kernel's entry is exactly the registered mask, so EPollHandleExactly
      tells what every handle call leaves there. */
  lemma {:induction false} KernelStaysExact(cs: seq<Command>)
    requires forall c | c in cs :: PlainCommand(c)
    ensures Exact(Steps(Initial(EPoll(0, {}, 1, None, false)), cs).backend)
    ensures Steps(Initial(EPoll(0, {}, 1, None, false)), cs).backend.EPoll?
  {
    var b := EPoll(0, {}, 1, None, false);
    if cs == [] {
    } else {
      var first, c := cs[..|cs| - 1], cs[|cs| - 1];
      assert c in cs && forall x | x in first :: x in cs;
      KernelStaysExact(first);
      EveryRunSettles(b, first);
      var d := Steps(Initial(b), first);
      match c
      case Env(script) => RunIsExact(d, script, false); RunKeepsBackendKind(d, script);
      case Handle(ready, scripts, _) => EPollHandleExactly(d, ready, scripts);
      case Delivered(_) =>
    }
  }
}
