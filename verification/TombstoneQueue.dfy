/** The ready queue of lib/io/event/selector/select.rb: an entry whose fiber ran is not removed but nullified, and the
    loop pops as many entries as it counted at its start. */
module TombstoneQueue {
  import opened Collections
  import opened ReadyQueue

  datatype Slot = Slot(entry: Entry, live: bool)

  /** `slots` lists the newest first. */
  datatype Tombs = Tombs(slots: seq<Slot>, nextId: nat, resumed: seq<nat>, departed: set<nat>)

  /** The live entries are the linked queue. */
  function Live(slots: seq<Slot>): seq<Entry> {
    if slots == [] then []
    else if slots[0].live then [slots[0].entry] + Live(slots[1..])
    else Live(slots[1..])
  }

  function Linked(t: Tombs): Queue {
    Queue(Live(t.slots), t.nextId, t.resumed, t.departed)
  }

  function TombAdded(t: Tombs, fiber: nat, own: bool): Tombs {
    t.(slots := [Slot(Entry(t.nextId, fiber, own), true)] + t.slots, nextId := t.nextId + 1)
  }

  /** Optional#nullify. */
  function Nullified(slots: seq<Slot>, id: nat): (r: seq<Slot>)
    ensures |r| == |slots|
    ensures forall i | 0 <= i < |slots| :: r[i].entry == slots[i].entry
  {
    if slots == [] then []
    else
      [if slots[0].entry.id == id && slots[0].entry.own then slots[0].(live := false) else slots[0]]
      + Nullified(slots[1..], id)
  }

  function TombAct(t: Tombs, a: Action): (r: Tombs)
    ensures |t.slots| <= |r.slots|
  {
    match a
    case Push(fiber) => TombAdded(t, fiber, false)
    case Enter(fiber) => TombAdded(t, fiber, true)
    case Depart(id) =>
      if Present(Live(t.slots), id) then t.(slots := Nullified(t.slots, id), departed := t.departed + {id}) else t
  }

  function TombRun(t: Tombs, script: Script): (r: Tombs)
    ensures |t.slots| <= |r.slots|
  {
    if script == [] then t else TombAct(TombRun(t, script[..|script| - 1]), script[|script| - 1])
  }

  /** One turn of pop_ready: the oldest entry is popped, and its fiber runs if it is still there. */
  function TombPop(t: Tombs, script: Script): (r: Tombs)
    requires t.slots != []
    ensures |t.slots| <= |r.slots| + 1
  {
    var n := |t.slots| - 1;
    var s := t.slots[n];
    var c := t.(slots := t.slots[..n]);
    if s.live then TombRun(c.(resumed := c.resumed + [s.entry.id]), script) else c
  }

  function PopTimes(t: Tombs, count: nat, scripts: seq<Script>): Tombs
    requires count <= |t.slots|
    decreases count
  {
    if count == 0 then t
    else if t.slots[|t.slots| - 1].live then PopTimes(TombPop(t, First(scripts)), count - 1, Rest(scripts))
    else PopTimes(TombPop(t, []), count - 1, scripts)
  }

  /** pop_ready. */
  function PopReady(t: Tombs, scripts: seq<Script>): Tombs {
    PopTimes(t, |t.slots|, scripts)
  }

  // ----- Laws -----

  lemma {:induction false} LiveConcat(a: seq<Slot>, b: seq<Slot>)
    ensures Live(a + b) == Live(a) + Live(b)
  {
    if a == [] {
      assert a + b == b;
    } else {
      var rest := a[1..] + b;
      LiveConcat(a[1..], b);
      assert a + b == [a[0]] + rest;
      assert (a + b)[1..] == rest;
    }
  }

  lemma {:induction false} NullifiedLive(slots: seq<Slot>, id: nat)
    ensures Live(Nullified(slots, id)) == Dropped(Live(slots), id)
  {
    if slots == [] {
    } else {
      NullifiedLive(slots[1..], id);
      var s := Nullified(slots, id);
      assert s[1..] == Nullified(slots[1..], id);
      if slots[0].live {
        assert Live(slots)[1..] == Live(slots[1..]);
      }
    }
  }

  lemma ActLinks(t: Tombs, a: Action)
    ensures Linked(TombAct(t, a)) == Act(Linked(t), a)
  {
    match a
    case Push(fiber) => assert TombAct(t, a).slots[1..] == t.slots;
    case Enter(fiber) => assert TombAct(t, a).slots[1..] == t.slots;
    case Depart(id) => NullifiedLive(t.slots, id);
  }

  lemma {:induction false} RunLinks(t: Tombs, script: Script)
    ensures Linked(TombRun(t, script)) == Run(Linked(t), script)
  {
    if script == [] {
    } else {
      RunLinks(t, script[..|script| - 1]);
      ActLinks(TombRun(t, script[..|script| - 1]), script[|script| - 1]);
    }
  }

  /** A tombstone is popped without effect; a live entry is popped as the linked queue pops its oldest. */
  lemma PopLinks(t: Tombs, script: Script)
    requires t.slots != []
    ensures var s := t.slots[|t.slots| - 1];
            if s.live then
              Linked(t).entries != [] && Oldest(Linked(t)) == s.entry
              && Linked(TombPop(t, script)) == Pop(Linked(t), script)
            else Linked(TombPop(t, script)) == Linked(t)
  {
    var n := |t.slots| - 1;
    var s := t.slots[n];
    assert t.slots == t.slots[..n] + [s];
    LiveConcat(t.slots[..n], [s]);
    if s.live {
      assert Live([s]) == [s.entry];
      assert Live(t.slots)[..|Live(t.slots)| - 1] == Live(t.slots[..n]);
      RunLinks(t.(slots := t.slots[..n], resumed := t.resumed + [s.entry.id]), script);
    } else {
      assert Live([s]) == [];
    }
  }

  /** The last `count` slots are the ones numbered below `limit`. */
  ghost predicate Counted(t: Tombs, count: nat, limit: nat) {
    && count <= |t.slots|
    && limit <= t.nextId
    && forall i | 0 <= i < |t.slots| :: t.slots[i].entry.id < limit <==> i >= |t.slots| - count
  }

  lemma ActCounted(t: Tombs, a: Action, count: nat, limit: nat)
    requires Counted(t, count, limit)
    ensures Counted(TombAct(t, a), count, limit)
  {
    var r := TombAct(t, a);
    if !a.Depart? {
      assert forall i | 0 < i < |r.slots| :: r.slots[i] == t.slots[i - 1];
    }
  }

  lemma {:induction false} RunCounted(t: Tombs, script: Script, count: nat, limit: nat)
    requires Counted(t, count, limit)
    ensures Counted(TombRun(t, script), count, limit)
  {
    if script == [] {
    } else {
      RunCounted(t, script[..|script| - 1], count, limit);
      ActCounted(TombRun(t, script[..|script| - 1]), script[|script| - 1], count, limit);
    }
  }

  lemma PopCounted(t: Tombs, script: Script, count: nat, limit: nat)
    requires Counted(t, count, limit) && count > 0
    ensures Counted(TombPop(t, script), count - 1, limit)
  {
    var n := |t.slots| - 1;
    var c := t.(slots := t.slots[..n]);
    assert Counted(c, count - 1, limit);
    RunCounted(c.(resumed := c.resumed + [t.slots[n].entry.id]), script, count - 1, limit);
  }

  lemma {:induction false} LiveNumbers(slots: seq<Slot>, limit: nat)
    requires forall i | 0 <= i < |slots| :: slots[i].entry.id >= limit
    ensures forall e | e in Live(slots) :: e.id >= limit
  {
    if slots == [] {
    } else {
      LiveNumbers(slots[1..], limit);
    }
  }

  lemma {:induction false} PopTimesIsReference(t: Tombs, count: nat, limit: nat, scripts: seq<Script>)
    requires Counted(t, count, limit)
    ensures Linked(PopTimes(t, count, scripts)) == FlushOld(Linked(t), limit, scripts).0
    decreases count
  {
    if count == 0 {
      LiveNumbers(t.slots, limit);
      assert Linked(t).entries != [] ==> Oldest(Linked(t)) in Linked(t).entries;
    } else {
      var s := t.slots[|t.slots| - 1];
      var script := if s.live then First(scripts) else [];
      PopLinks(t, script);
      PopCounted(t, script, count, limit);
      PopTimesIsReference(TombPop(t, script), count - 1, limit, if s.live then Rest(scripts) else scripts);
    }
  }

  // ----- Whole runs -----

  /** Code runs outside the loop, or pop_ready is called. */
  datatype Command = Code(script: Script) | Ready(scripts: seq<Script>)

  function Done(t: Tombs, c: Command): Tombs {
    match c
    case Code(script) => TombRun(t, script)
    case Ready(scripts) => PopReady(t, scripts)
  }

  /** What a selector has come to after `commands`. */
  function Reached(commands: seq<Command>): Tombs {
    if commands == [] then Tombs([], 0, [], {})
    else Done(Reached(commands[..|commands| - 1]), commands[|commands| - 1])
  }

  /** Every slot has a number that was given out. */
  ghost predicate Issued(t: Tombs) {
    forall s | s in t.slots :: s.entry.id < t.nextId
  }

  /** The live entries are conserved. */
  ghost predicate Sound(t: Tombs) {
    Conserved(Linked(t)) && Issued(t)
  }

  lemma ActIssues(t: Tombs, a: Action)
    requires Issued(t)
    ensures Issued(TombAct(t, a))
  {
    var r := TombAct(t, a);
    forall i | 0 <= i < |r.slots| ensures r.slots[i].entry.id < r.nextId {
      assert a.Depart? ==> r.slots[i].entry == t.slots[i].entry && t.slots[i] in t.slots;
      assert !a.Depart? && i > 0 ==> r.slots[i] == t.slots[i - 1] && t.slots[i - 1] in t.slots;
    }
  }

  lemma {:induction false} RunIssues(t: Tombs, script: Script)
    requires Issued(t)
    ensures Issued(TombRun(t, script))
  {
    if script == [] {
    } else {
      RunIssues(t, script[..|script| - 1]);
      ActIssues(TombRun(t, script[..|script| - 1]), script[|script| - 1]);
    }
  }

  lemma {:induction false} PopTimesIssues(t: Tombs, count: nat, scripts: seq<Script>)
    requires Issued(t) && count <= |t.slots|
    ensures Issued(PopTimes(t, count, scripts))
    decreases count
  {
    if count == 0 {
    } else {
      var s := t.slots[|t.slots| - 1];
      var script := if s.live then First(scripts) else [];
      RunIssues(t.(slots := t.slots[..|t.slots| - 1], resumed := t.resumed + [s.entry.id]), script);
      PopTimesIssues(TombPop(t, script), count - 1, if s.live then Rest(scripts) else scripts);
    }
  }

  /** The queue of every selector is sound, whatever fibers did. */
  lemma {:induction false} EveryRunIsSound(commands: seq<Command>)
    ensures Sound(Reached(commands))
  {
    if commands == [] {
    } else {
      var t, c := Reached(commands[..|commands| - 1]), commands[|commands| - 1];
      EveryRunIsSound(commands[..|commands| - 1]);
      match c
      case Code(script) =>
        RunLinks(t, script);
        RunGrows(Linked(t), script);
        RunIssues(t, script);
      case Ready(scripts) =>
        PopReadySound(t, scripts);
    }
  }

  lemma PopReadySound(t: Tombs, scripts: seq<Script>)
    requires Sound(t)
    ensures Sound(PopReady(t, scripts))
  {
    AllCounted(t);
    PopTimesIsReference(t, |t.slots|, t.nextId, scripts);
    PopTimesIssues(t, |t.slots|, scripts);
    assert forall e | e in Linked(t).entries :: e.id > -1;
    if t.nextId == 0 {
      assert Linked(t).entries == [];
    } else {
      OldInOrder(Linked(t), t.nextId, scripts, -1);
    }
  }

  /** pop_ready counts exactly the slots numbered so far. */
  lemma AllCounted(t: Tombs)
    requires Sound(t)
    ensures Counted(t, |t.slots|, t.nextId)
  {
    assert forall i | 0 <= i < |t.slots| :: t.slots[i] in t.slots;
  }

  /** Nobody makes the fiber of the newest entry depart while the ready fibers run. */
  ghost predicate NewestStays(q: Queue, scripts: seq<Script>) {
    q.entries != [] ==> forall s | s in scripts :: Depart(q.entries[0].id) !in s
  }

  /** The tombstone queue always processes exactly what was there. Hence it resumes the same fibers in the same order
      as the linked queue, and leaves the same entries, whenever the newest entry's fiber does not depart. */
  lemma BothQueuesAgree(t: Tombs, scripts: seq<Script>)
    requires Sound(t) && NewestStays(Linked(t), scripts)
    ensures Linked(PopReady(t, scripts)) == Flush(Linked(t), scripts)
  {
    AllCounted(t);
    PopTimesIsReference(t, |t.slots|, t.nextId, scripts);
    if Linked(t).entries != [] {
      FlushIsReference(Linked(t), scripts);
    }
  }

  /** The same history on the linked queue. */
  function LinkedReached(commands: seq<Command>): Queue {
    if commands == [] then Queue([], 0, [], {})
    else
      var q := LinkedReached(commands[..|commands| - 1]);
      match commands[|commands| - 1]
      case Code(script) => Run(q, script)
      case Ready(scripts) => Flush(q, scripts)
  }

  ghost predicate NewestAlwaysStays(commands: seq<Command>) {
    commands == [] ||
    var first, c := commands[..|commands| - 1], commands[|commands| - 1];
    NewestAlwaysStays(first) && (c.Ready? ==> NewestStays(LinkedReached(first), c.scripts))
  }

  /** Over whole histories: as long as that proviso holds of every flush, no caller can tell the two queues apart. */
  lemma {:induction false} WholeRunsAgree(commands: seq<Command>)
    requires NewestAlwaysStays(commands)
    ensures Linked(Reached(commands)) == LinkedReached(commands)
  {
    if commands == [] {
    } else {
      var first, c := commands[..|commands| - 1], commands[|commands| - 1];
      WholeRunsAgree(first);
      EveryRunIsSound(first);
      match c
      case Code(script) => RunLinks(Reached(first), script);
      case Ready(scripts) => BothQueuesAgree(Reached(first), scripts);
    }
  }
}
