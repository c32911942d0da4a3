/** What one round of select does to every waiter: who is resumed, with which events, and who goes on waiting. */
module SelectRounds {
  import opened Collections
  import I = Interest
  import opened SelectWaiters

  // ----- What is asked for -----

  /** A chain asks for an event exactly if a waiter in it that still refers to its fiber does. */
  lemma {:induction false} WantedExactly(s: Select, chain: seq<nat>, e: I.Event)
    requires forall id | id in chain :: id < |s.calls|
    ensures e in Wanted(s, chain) <==> exists id :: id in chain && id in s.live && e in s.calls[id].events
  {
    if chain == [] {
    } else {
      assert chain[0] in chain && forall x | x in chain[1..] :: x in chain;
      WantedExactly(s, chain[1..], e);
      if id: nat :| id in chain && id in s.live && e in s.calls[id].events {
        assert id == chain[0] || id in chain[1..];
      }
    }
  }

  // ----- One dispatch -----

  /** What became of a waiter on the way from `s` to `r`, when `matching` is what it was offered of what it wants. */
  ghost predicate Outcome(s: Select, r: Select, id: nat, matching: I.Events) {
    && s.log <= r.log
    && (matching == {} ==> id in r.live || id in r.ended || Returned(id) in Since(s, r))
    && (matching != {} ==>
          id !in r.live && (id in r.ended || Transferred(id, matching) in Since(s, r) || Returned(id) in Since(s, r)))
  }

  /** Calls, log and ended fibers grow; a call that is not live stays so. */
  ghost predicate Forward(s: Select, r: Select) {
    && s.calls <= r.calls && s.log <= r.log && s.ended <= r.ended
    && forall id | id in r.live && id < |s.calls| :: id in s.live
  }

  /** Every transfer on the way from `s` to `r` is to a waiter on `io`, live unless it came on the way, with what it
      wants of `events`. */
  ghost predicate TransfersOf(s: Select, r: Select, io: nat, events: I.Events) {
    && s.log <= r.log
    && forall e | e in Since(s, r) && e.Transferred? ::
         && e.id < |r.calls| && r.calls[e.id].io == io
         && e.events == r.calls[e.id].events * events && e.events != {}
         && (e.id < |s.calls| ==> e.id in s.live && e.id !in s.ended)
  }

  /** What an entry of the ready table offers to waiters on `on`. */
  function Offer(report: (nat, I.Events), on: nat): I.Events {
    if report.0 == on then report.1 else {}
  }

  lemma DispatchOutcomes(s: Select, report: (nat, I.Events), scripts: seq<Script>)
    requires Quiet(s) && report.0 in s.waiting
    ensures forall id | id in s.waiting[report.0] :: id < |s.calls|
    ensures var t := DispatchIO(s, report.0, report.1, scripts).0;
            && Forward(s, t) && TransfersOf(s, t, report.0, report.1)
            && forall id | id in s.live ::
                 id < |s.calls| && Outcome(s, t, id, s.calls[id].events * Offer(report, s.calls[id].io))
  {
    var (io, events) := report;
    var c := s.(waiting := s.waiting - {io});
    var t := DispatchIO(s, io, events, scripts).0;
    TakenOut(s, io);
    DispatchSettles(c, io, s.waiting[io], events, scripts);
    assert Later(c, t) && Since(s, t) == Since(c, t);
    forall id | id in s.live
      ensures id < |s.calls| && Outcome(s, t, id, s.calls[id].events * Offer(report, s.calls[id].io))
    {
      if id in s.waiting[io] {
        assert Settled(c, t, io, id, events);
      } else {
        LeftAside(c, t, id, s.waiting[io]);
      }
    }
  }

  /** Who is not in the chain is not transferred to. */
  lemma LeftAside(s: Select, t: Select, id: nat, chain: seq<nat>)
    requires Later(s, t) && TransfersIn(s, t, chain) && id in s.live && id < |s.calls| && id !in chain
    ensures id in t.live || id in t.ended || Returned(id) in Since(s, t)
  {
    if id !in t.live && id !in t.ended {
      var e :| e in Since(s, t) && e.id == id;
      assert e == Returned(id);
    }
  }

  // ----- One round -----

  lemma SinceThen(s: Select, t: Select, r: Select)
    requires s.log <= t.log <= r.log
    ensures Since(s, r) == Since(s, t) + Since(t, r)
  {
  }

  lemma OutcomeThen(s: Select, t: Select, r: Select, id: nat, first: I.Events, second: I.Events)
    requires Forward(s, t) && Forward(t, r) && id in s.live && id < |s.calls|
    requires Outcome(s, t, id, first) && (id in t.live ==> Outcome(t, r, id, second)) && (first == {} || second == {})
    ensures Outcome(s, r, id, first + second)
  {
    SinceThen(s, t, r);
    assert first + second == if first == {} then second else first;
    assert s.calls <= t.calls && id < |t.calls|;
  }

  /** After a round every waiter that was live is as the ready table says: one whose IO is not there, or not with
      anything it wants, goes on waiting, and one whose IO is there with something it wants does not wait any more and
      was resumed with exactly that, unless either returned or ended by itself. */
  lemma {:induction false} RoundSettles(s: Select, ready: seq<(nat, I.Events)>, scripts: seq<Script>)
    requires Quiet(s) && Pending(s, ready)
    ensures var r := Round(s, ready, scripts);
            && Forward(s, r)
            && forall id | id in s.live ::
                 id < |s.calls| && Outcome(s, r, id, s.calls[id].events * EventsOf(ready, s.calls[id].io))
    decreases |ready|
  {
    if ready == [] {
    } else {
      var (t, left) := DispatchIO(s, ready[0].0, ready[0].1, scripts);
      var r := Round(s, ready, scripts);
      RoundStep(s, ready, scripts);
      DispatchOutcomes(s, ready[0], scripts);
      RoundSettles(t, ready[1..], left);
      assert r == Round(t, ready[1..], left);
      forall id | id in s.live
        ensures id < |s.calls| && Outcome(s, r, id, s.calls[id].events * EventsOf(ready, s.calls[id].io))
      {
        StepSettles(s, t, r, ready, id);
      }
    }
  }

  lemma StepSettles(s: Select, t: Select, r: Select, ready: seq<(nat, I.Events)>, id: nat)
    requires Forward(s, t) && Forward(t, r) && id in s.live && id < |s.calls| && ready != [] && Pending(s, ready)
    requires Outcome(s, t, id, s.calls[id].events * Offer(ready[0], s.calls[id].io))
    requires id in t.live ==>
               id < |t.calls| && Outcome(t, r, id, t.calls[id].events * EventsOf(ready[1..], t.calls[id].io))
    ensures Outcome(s, r, id, s.calls[id].events * EventsOf(ready, s.calls[id].io))
  {
    var call := s.calls[id];
    if ready[0].0 == call.io { NoReport(ready[1..], call.io); }
    var first, second := call.events * Offer(ready[0], call.io), call.events * EventsOf(ready[1..], call.io);
    OutcomeThen(s, t, r, id, first, second);
    assert first + second == call.events * EventsOf(ready, call.io);
  }

  /** `e` is a transfer for entry `k` of the ready table. */
  ghost predicate TransferFor(r: Select, e: Event, ready: seq<(nat, I.Events)>, k: nat) {
    && e.Transferred? && e.id < |r.calls| && k < |ready|
    && r.calls[e.id].io == ready[k].0 && e.events == r.calls[e.id].events * ready[k].1 && e.events != {}
  }

  /** Every transfer of a round is to a waiter on a reported IO, which was live unless it came during the round, with
      exactly what it wants of what was reported, and with something. */
  lemma {:induction false} RoundTransfers(s: Select, ready: seq<(nat, I.Events)>, scripts: seq<Script>)
    requires Quiet(s) && Pending(s, ready)
    ensures var r := Round(s, ready, scripts);
            && Forward(s, r)
            && forall e | e in Since(s, r) && e.Transferred? ::
                 && (e.id < |s.calls| ==> e.id in s.live && e.id !in s.ended)
                 && exists k :: TransferFor(r, e, ready, k)
    decreases |ready|
  {
    if ready == [] {
    } else {
      var (t, left) := DispatchIO(s, ready[0].0, ready[0].1, scripts);
      var r := Round(s, ready, scripts);
      RoundStep(s, ready, scripts);
      DispatchOutcomes(s, ready[0], scripts);
      RoundTransfers(t, ready[1..], left);
      assert r == Round(t, ready[1..], left);
      SinceThen(s, t, r);
      forall e | e in Since(s, r) && e.Transferred?
        ensures e.id < |s.calls| ==> e.id in s.live && e.id !in s.ended
        ensures exists k :: TransferFor(r, e, ready, k)
      {
        if e in Since(s, t) {
          assert TransferFor(r, e, ready, 0);
        } else {
          assert e in Since(t, r);
          var k: nat :| TransferFor(r, e, ready[1..], k);
          assert TransferFor(r, e, ready, k + 1);
        }
      }
    }
  }

  /** A fiber that has terminated without leaving io_wait is not resumed. */
  lemma EndedIsNotResumed(s: Select, id: nat, ready: seq<(nat, I.Events)>, scripts: seq<Script>)
    requires Quiet(s) && id < |s.calls|
    ensures var c := Act(s, End(id));
            Quiet(c) && (Pending(c, ready) ==>
              var r := Round(c, ready, scripts);
              Forward(c, r) && forall e | e in Since(c, r) && e.Transferred? :: e.id != id)
  {
    ActKeeps(s, 0, [], End(id));
    if Pending(Act(s, End(id)), ready) { RoundTransfers(Act(s, End(id)), ready, scripts); }
  }

  /** RoundSettles and RoundTransfers together. */
  ghost predicate Told(s: Select, r: Select, ready: seq<(nat, I.Events)>) {
    && Forward(s, r)
    && (forall id | id in s.live ::
          id < |s.calls| && Outcome(s, r, id, s.calls[id].events * EventsOf(ready, s.calls[id].io)))
    && (forall e | e in Since(s, r) && e.Transferred? :: exists k :: TransferFor(r, e, ready, k))
  }

  lemma RoundTold(s: Select, ready: seq<(nat, I.Events)>, scripts: seq<Script>)
    requires Quiet(s) && Pending(s, ready)
    ensures Told(s, Round(s, ready, scripts), ready)
  {
    RoundSettles(s, ready, scripts);
    RoundTransfers(s, ready, scripts);
  }

  // ----- One call of select -----

  /** What IO.select finds of one IO. */
  function Found(available: map<nat, I.Events>, io: nat): I.Events {
    if io in available then available[io] * SELECTABLE else {}
  }

  /** The same told by what IO.select found: every waiter that was live is resumed with exactly what it wants of that,
      if there is any, and goes on waiting otherwise, unless it returned or ended by itself; and every transfer is to a
      waiter on an IO that was found, with something it wants that was found there. */
  lemma SelectServes(s: Select, available: map<nat, I.Events>, ready: seq<(nat, I.Events)>, scripts: seq<Script>)
    requires Quiet(s) && Reported(s, available, ready)
    ensures Pending(s, ready) && Served(s, Round(s, ready, scripts), available)
  {
    ReportedArePending(s, available, ready);
    RoundSettles(s, ready, scripts);
    RoundTransfers(s, ready, scripts);
    var r := Round(s, ready, scripts);
    forall id | id in s.live
      ensures id < |s.calls| && Outcome(s, r, id, s.calls[id].events * Found(available, s.calls[id].io))
    {
      LiveOffer(s, available, ready, id);
    }
    forall e | e in Since(s, r) && e.Transferred? ensures FoundFor(s, r, available, e) {
      var k: nat :| TransferFor(r, e, ready, k);
      ReportAt(ready, k);
      if e.id < |s.calls| { LiveOffer(s, available, ready, e.id); }
    }
  }

  ghost predicate Served(s: Select, r: Select, available: map<nat, I.Events>) {
    && Forward(s, r)
    && (forall id | id in s.live ::
          id < |s.calls| && Outcome(s, r, id, s.calls[id].events * Found(available, s.calls[id].io)))
    && (forall e | e in Since(s, r) && e.Transferred? :: FoundFor(s, r, available, e))
  }

  ghost predicate FoundFor(s: Select, r: Select, available: map<nat, I.Events>, e: Event) {
    && e.Transferred? && e.id < |r.calls| && e.events != {}
    && e.events <= r.calls[e.id].events * Found(available, r.calls[e.id].io)
    && (e.id < |s.calls| ==>
          e.id in s.live && e.events == s.calls[e.id].events * Found(available, s.calls[e.id].io))
  }

  lemma LiveOffer(s: Select, available: map<nat, I.Events>, ready: seq<(nat, I.Events)>, id: nat)
    requires Quiet(s) && Reported(s, available, ready) && id in s.live
    ensures id < |s.calls|
    ensures var call := s.calls[id];
            call.events * EventsOf(ready, call.io) == call.events * Found(available, call.io)
  {
    LiveIsWanted(s, id);
  }

  lemma LiveIsWanted(s: Select, id: nat)
    requires Quiet(s) && id in s.live
    ensures id < |s.calls| && s.calls[id].events <= WantedOn(s, s.calls[id].io)
  {
    var chain := Chain(s, s.calls[id].io);
    forall e | e in s.calls[id].events ensures e in Wanted(s, chain) { WantedExactly(s, chain, e); }
  }

  // ----- The order -----

  ghost predicate Before(chain: seq<nat>, x: nat, y: nat) {
    exists a, b :: 0 <= a < b < |chain| && chain[a] == x && chain[b] == y
  }

  /** Transfers follow the order of the chain. */
  ghost predicate InOrder(log: seq<Event>, chain: seq<nat>) {
    forall i, j | 0 <= i < j < |log| && log[i].Transferred? && log[j].Transferred? ::
      Before(chain, log[i].id, log[j].id)
  }

  lemma OrderThen(first: seq<Event>, second: seq<Event>, id: nat, rest: seq<nat>)
    requires forall i, j | 0 <= i < j < |first| && first[i].Transferred? :: !first[j].Transferred?
    requires forall e | e in first && e.Transferred? :: e.id == id
    requires InOrder(second, rest) && forall e | e in second && e.Transferred? :: e.id in rest
    ensures InOrder(first + second, [id] + rest)
  {
    var log, chain := first + second, [id] + rest;
    forall i, j | 0 <= i < j < |log| && log[i].Transferred? && log[j].Transferred?
      ensures Before(chain, log[i].id, log[j].id)
    {
      if i < |first| {
        assert log[i] in first && log[j] in second;
        var b :| 0 <= b < |rest| && rest[b] == log[j].id;
        assert chain[0] == log[i].id && chain[b + 1] == log[j].id;
      } else {
        var x, y := log[i].id, log[j].id;
        assert Before(rest, second[i - |first|].id, second[j - |first|].id);
        var a, b :| 0 <= a < b < |rest| && rest[a] == x && rest[b] == y;
        assert chain[a + 1] == x && chain[b + 1] == y;
      }
    }
  }

  lemma VisitTransfersOnce(s: Select, io: nat, id: nat, events: I.Events, script: Script)
    requires id < |s.calls|
    ensures var t := Visit(s, io, id, events, script);
            && s.log <= t.log
            && forall i, j | 0 <= i < j < |Since(s, t)| && Since(s, t)[i].Transferred? :: !Since(s, t)[j].Transferred?
  {
    if Resumes(s, id, events) {
      var c := s.(live := s.live - {id}, log := s.log + [Transferred(id, s.calls[id].events * events)]);
      RunLater(c, script);
      var t := Run(c, script);
      forall j | 0 < j < |Since(s, t)| ensures !Since(s, t)[j].Transferred? {
        assert Since(s, t)[j] == Since(c, t)[j - 1];
        assert Since(c, t)[j - 1] in Since(c, t);
      }
    }
  }

  /** The waiters of a chain are resumed in its order: the last one that began to wait comes first. */
  lemma {:induction false} DispatchInOrder(s: Select, io: nat, chain: seq<nat>, events: I.Events, scripts: seq<Script>)
    requires Inv(s, io, chain)
    ensures forall id | id in chain :: id < |s.calls|
    ensures var r := Dispatch(s, io, chain, events, scripts).0;
            s.log <= r.log && InOrder(Since(s, r), chain)
    decreases |chain|
  {
    DispatchSettles(s, io, chain, events, scripts);
    if chain == [] {
    } else {
      var id, rest := chain[0], chain[1..];
      assert id in chain && chain == [id] + rest;
      var t := Visit(s, io, id, events, First(scripts));
      var left := if Resumes(s, id, events) then Rest(scripts) else scripts;
      VisitKeeps(s, io, chain, events, First(scripts));
      DispatchInOrder(t, io, rest, events, left);
      DispatchSettles(t, io, rest, events, left);
      var r := Dispatch(t, io, rest, events, left).0;
      VisitVisited(s, io, id, events, First(scripts));
      VisitTransfersOnce(s, io, id, events, First(scripts));
      OrderThen(Since(s, t), Since(t, r), id, rest);
      SinceThen(s, t, r);
      assert r == Dispatch(s, io, chain, events, scripts).0;
    }
  }

  // ----- The resumed fibers run -----

  /** The calls of io_wait that a script makes. */
  function Waits(script: Script): seq<Call> {
    if script == [] then []
    else
      var a := script[|script| - 1];
      Waits(script[..|script| - 1]) + if a.Wait? then [Call(a.io, a.events)] else []
  }

  lemma {:induction false} RunWaits(s: Select, script: Script)
    ensures Run(s, script).calls == s.calls + Waits(script)
  {
    if script == [] {
    } else {
      RunWaits(s, script[..|script| - 1]);
    }
  }

  function WaitsBy(scripts: seq<Script>, n: nat): seq<Call> {
    if n == 0 || scripts == [] then [] else Waits(scripts[0]) + WaitsBy(scripts[1..], n - 1)
  }

  function Left(scripts: seq<Script>, n: nat): seq<Script> {
    if n == 0 || scripts == [] then scripts else Left(scripts[1..], n - 1)
  }

  /** How many transfers a log records. */
  function Transfers(log: seq<Event>): nat {
    if log == [] then 0 else (if log[0].Transferred? then 1 else 0) + Transfers(log[1..])
  }

  lemma {:induction false} TransfersConcat(a: seq<Event>, b: seq<Event>)
    ensures Transfers(a + b) == Transfers(a) + Transfers(b)
  {
    if a == [] {
      assert a + b == b;
    } else {
      TransfersConcat(a[1..], b);
      assert a + b == [a[0]] + (a[1..] + b);
    }
  }

  lemma {:induction false} NoTransfers(log: seq<Event>)
    requires forall e | e in log :: e.Returned?
    ensures Transfers(log) == 0
  {
    if log == [] {
    } else {
      assert log[0] in log && forall e | e in log[1..] :: e in log;
      NoTransfers(log[1..]);
    }
  }

  /** From `s` to `r` as many scripts ran as fibers were transferred to, and `left` are left. */
  ghost predicate Ran(s: Select, r: Select, scripts: seq<Script>, left: seq<Script>) {
    && s.log <= r.log
    && var n := Transfers(Since(s, r));
       r.calls == s.calls + WaitsBy(scripts, n) && left == Left(scripts, n)
  }

  lemma VisitRuns(s: Select, io: nat, id: nat, events: I.Events, scripts: seq<Script>)
    requires id < |s.calls|
    ensures Ran(s, Visit(s, io, id, events, First(scripts)), scripts,
                if Resumes(s, id, events) then Rest(scripts) else scripts)
  {
    var t := Visit(s, io, id, events, First(scripts));
    if Resumes(s, id, events) {
      var e := Transferred(id, s.calls[id].events * events);
      var c := s.(live := s.live - {id}, log := s.log + [e]);
      RunWaits(c, First(scripts));
      RunLater(c, First(scripts));
      NoTransfers(Since(c, t));
      assert Since(s, t) == [e] + Since(c, t);
      TransfersConcat([e], Since(c, t));
      assert Transfers([e]) == 1 by { assert [e][1..] == []; }
      OneScript(scripts);
    } else {
      assert Since(s, t) == [];
    }
  }

  lemma OneScript(scripts: seq<Script>)
    ensures WaitsBy(scripts, 1) == Waits(First(scripts)) && Left(scripts, 1) == Rest(scripts)
  {
    if scripts != [] { assert WaitsBy(scripts[1..], 0) == []; }
  }

  lemma {:induction false} ScriptsJoin(scripts: seq<Script>, m: nat, n: nat)
    ensures WaitsBy(scripts, m + n) == WaitsBy(scripts, m) + WaitsBy(Left(scripts, m), n)
    ensures Left(scripts, m + n) == Left(Left(scripts, m), n)
  {
    if m == 0 || scripts == [] {
    } else {
      ScriptsJoin(scripts[1..], m - 1, n);
    }
  }

  lemma RanThen(s: Select, t: Select, r: Select, scripts: seq<Script>, more: seq<Script>, left: seq<Script>)
    requires Ran(s, t, scripts, more) && Ran(t, r, more, left)
    ensures Ran(s, r, scripts, left)
  {
    var m, n := Transfers(Since(s, t)), Transfers(Since(t, r));
    assert Transfers(Since(s, r)) == m + n by {
      SinceThen(s, t, r);
      TransfersConcat(Since(s, t), Since(t, r));
    }
    assert WaitsBy(scripts, m + n) == WaitsBy(scripts, m) + WaitsBy(more, n) && left == Left(scripts, m + n) by {
      ScriptsJoin(scripts, m, n);
    }
    CallsJoin(s.calls, WaitsBy(scripts, m), WaitsBy(more, n));
  }

  lemma CallsJoin(calls: seq<Call>, first: seq<Call>, second: seq<Call>)
    ensures calls + first + second == calls + (first + second)
  {
  }

  lemma {:induction false} DispatchRuns(s: Select, io: nat, chain: seq<nat>, events: I.Events, scripts: seq<Script>)
    requires forall id | id in chain :: id < |s.calls|
    ensures var (r, left) := Dispatch(s, io, chain, events, scripts); Ran(s, r, scripts, left)
    decreases |chain|
  {
    if chain == [] {
      assert Since(s, s) == [];
    } else {
      var id, rest := chain[0], chain[1..];
      assert id in chain && forall x | x in rest :: x in chain;
      var t := Visit(s, io, id, events, First(scripts));
      var more := if Resumes(s, id, events) then Rest(scripts) else scripts;
      VisitRuns(s, io, id, events, scripts);
      DispatchRuns(t, io, rest, events, more);
      var (r, left) := Dispatch(t, io, rest, events, more);
      RanThen(s, t, r, scripts, more, left);
    }
  }

  lemma DispatchIORuns(s: Select, report: (nat, I.Events), scripts: seq<Script>)
    requires Quiet(s) && report.0 in s.waiting
    ensures forall id | id in s.waiting[report.0] :: id < |s.calls|
    ensures var (t, left) := DispatchIO(s, report.0, report.1, scripts); Ran(s, t, scripts, left)
  {
    var c := s.(waiting := s.waiting - {report.0});
    DispatchRuns(c, report.0, s.waiting[report.0], report.1, scripts);
    var t := DispatchIO(s, report.0, report.1, scripts).0;
    assert Since(c, t) == Since(s, t);
  }

  /** Every fiber that a round resumes runs, one script after the other, and every call of io_wait it makes is there
      afterwards. */
  lemma {:induction false} RoundRuns(s: Select, ready: seq<(nat, I.Events)>, scripts: seq<Script>)
    returns (over: seq<Script>)
    requires Quiet(s) && Pending(s, ready)
    ensures Ran(s, Round(s, ready, scripts), scripts, over)
    decreases |ready|
  {
    if ready == [] {
      over := scripts;
      assert Since(s, s) == [];
    } else {
      RoundStep(s, ready, scripts);
      DispatchIORuns(s, ready[0], scripts);
      var (t, left) := DispatchIO(s, ready[0].0, ready[0].1, scripts);
      over := RoundRuns(t, ready[1..], left);
      RanThen(s, t, Round(t, ready[1..], left), scripts, left, over);
    }
  }

  // ----- Whole runs -----

  /** Every call of io_wait goes on waiting, or was resumed or returned, or its fiber ended. */
  ghost predicate Accounted(s: Select) {
    forall id | 0 <= id < |s.calls| :: id in s.live || id in s.ended || exists e :: e in s.log && e.id == id
  }

  /** A call of io_wait puts its waiter first in the chain of its IO. */
  lemma WaitedIsLive(s: Select, io: nat, events: I.Events)
    ensures var t := Waited(s, io, events);
            && t.calls == s.calls + [Call(io, events)] && t.live == s.live + {|s.calls|}
            && t.log == s.log && t.ended == s.ended
            && Chain(t, io) == [|s.calls|] + Chain(s, io)
            && forall x | x != io :: Chain(t, x) == Chain(s, x)
  {
  }

  lemma ActAccounts(s: Select, a: Action)
    requires Accounted(s)
    ensures Accounted(Act(s, a))
  {
    var t := Act(s, a);
    if a.Wait? { WaitedIsLive(s, a.io, a.events); }
    if a.Return? && a.id in s.live { assert t.log[|s.log|] == Returned(a.id); }
    forall id | 0 <= id < |t.calls| ensures id in t.live || id in t.ended || exists e :: e in t.log && e.id == id {
      if id < |s.calls| && !(id in s.live || id in s.ended) {
        var e :| e in s.log && e.id == id;
        assert e in t.log;
      }
    }
  }

  lemma {:induction false} RunAccounts(s: Select, script: Script)
    requires Accounted(s)
    ensures Accounted(Run(s, script))
  {
    if script == [] {
    } else {
      RunAccounts(s, script[..|script| - 1]);
      ActAccounts(Run(s, script[..|script| - 1]), script[|script| - 1]);
    }
  }

  lemma VisitAccounts(s: Select, io: nat, id: nat, events: I.Events, script: Script)
    requires Accounted(s) && id < |s.calls|
    ensures Accounted(Visit(s, io, id, events, script))
  {
    if Resumes(s, id, events) {
      var e := Transferred(id, s.calls[id].events * events);
      var c := s.(live := s.live - {id}, log := s.log + [e]);
      assert e in c.log && forall f | f in s.log :: f in c.log;
      RunAccounts(c, script);
    }
  }

  lemma {:induction false} DispatchAccounts(s: Select, io: nat, chain: seq<nat>, events: I.Events, scripts: seq<Script>)
    requires Accounted(s) && forall id | id in chain :: id < |s.calls|
    ensures Accounted(Dispatch(s, io, chain, events, scripts).0)
    decreases |chain|
  {
    if chain == [] {
    } else {
      var id, rest := chain[0], chain[1..];
      assert id in chain && forall x | x in rest :: x in chain;
      var t := Visit(s, io, id, events, First(scripts));
      VisitAccounts(s, io, id, events, First(scripts));
      VisitExtends(s, io, id, events, First(scripts));
      DispatchAccounts(t, io, rest, events, if Resumes(s, id, events) then Rest(scripts) else scripts);
    }
  }

  lemma {:induction false} RoundAccounts(s: Select, ready: seq<(nat, I.Events)>, scripts: seq<Script>)
    requires Quiet(s) && Pending(s, ready) && Accounted(s)
    ensures Accounted(Round(s, ready, scripts))
    decreases |ready|
  {
    if ready == [] {
    } else {
      var io := ready[0].0;
      var (t, left) := DispatchIO(s, io, ready[0].1, scripts);
      RoundStep(s, ready, scripts);
      assert Accounted(s.(waiting := s.waiting - {io}));
      DispatchAccounts(s.(waiting := s.waiting - {io}), io, s.waiting[io], ready[0].1, scripts);
      RoundAccounts(t, ready[1..], left);
    }
  }

  /** In every run no call of io_wait is forgotten: it is live, and then once in the chain of its IO, or it was resumed
      or returned, once, or its fiber ended. */
  lemma {:induction false} NoCallIsForgotten(commands: seq<Command>)
    ensures Accounted(After(commands))
    decreases |commands|
  {
    if commands == [] {
    } else {
      var s := After(commands[..|commands| - 1]);
      NoCallIsForgotten(commands[..|commands| - 1]);
      match commands[|commands| - 1]
      case Env(script) => RunAccounts(s, script);
      case Ready(available, ready, scripts) =>
        if Reported(s, available, ready) {
          ReportedArePending(s, available, ready);
          RoundAccounts(s, ready, scripts);
        }
    }
  }
}
