/** The queue of fibers that are ready to run: the linked queue of ext/io/event/selector/selector.c, which forgets an
    entry when its fiber runs, and the tombstone queue of lib/io/event/selector/select.rb, which counts. */
module ReadyQueue {
  import opened Collections

  /** An entry is put by the selector (`push`), or by a fiber for itself while it runs another (`resume`, `yield`,
      `raise`); then the fiber removes it when it runs again, whoever transferred to it. */
  datatype Entry = Entry(id: nat, fiber: nat, own: bool)

  /** What a running fiber may do: make a fiber ready, or enter the queue itself (and suspend), or transfer to the fiber
      of an `own` entry, which thereby departs. */
  datatype Action = Push(fiber: nat) | Enter(fiber: nat) | Depart(id: nat)

  type Script = seq<Action>

  /** `entries` lists the newest first. Entries are numbered in the order they are made; `resumed` and `departed` record
      how they left. */
  datatype Queue = Queue(entries: seq<Entry>, nextId: nat, resumed: seq<nat>, departed: set<nat>)

  function Added(q: Queue, fiber: nat, own: bool): Queue {
    q.(entries := [Entry(q.nextId, fiber, own)] + q.entries, nextId := q.nextId + 1)
  }

  /** The `own` entry `id` leaves, if it is there. */
  function Dropped(entries: seq<Entry>, id: nat): (r: seq<Entry>)
    ensures |r| <= |entries|
  {
    if entries == [] then []
    else if entries[0].id == id && entries[0].own then Dropped(entries[1..], id)
    else [entries[0]] + Dropped(entries[1..], id)
  }

  predicate Present(entries: seq<Entry>, id: nat) {
    exists e :: e in entries && e.id == id && e.own
  }

  function Act(q: Queue, a: Action): Queue {
    match a
    case Push(fiber) => Added(q, fiber, false)
    case Enter(fiber) => Added(q, fiber, true)
    case Depart(id) =>
      if Present(q.entries, id) then q.(entries := Dropped(q.entries, id), departed := q.departed + {id}) else q
  }

  function Run(q: Queue, script: Script): Queue {
    if script == [] then q else Act(Run(q, script[..|script| - 1]), script[|script| - 1])
  }

  // ----- ready_flush -----

  function Oldest(q: Queue): Entry
    requires q.entries != []
  {
    q.entries[|q.entries| - 1]
  }

  /** ready_pop: the oldest entry is unlinked, by the selector or by its own fiber, and then its fiber runs. */
  function Pop(q: Queue, script: Script): Queue
    requires q.entries != []
  {
    Run(q.(entries := q.entries[..|q.entries| - 1], resumed := q.resumed + [Oldest(q).id]), script)
  }

  /** The loop, until it has processed entry `newest` or nothing is left; fibers do nothing once the scripts end. */
  function FlushUntil(q: Queue, newest: nat, scripts: seq<Script>): Queue
    decreases |scripts|, |q.entries|
  {
    if q.entries == [] then q
    else
      var r := Pop(q, First(scripts));
      if Oldest(q).id == newest then r else FlushUntil(r, newest, Rest(scripts))
  }

  /** IO_Event_Selector_ready_flush. */
  function Flush(q: Queue, scripts: seq<Script>): Queue {
    if q.entries == [] then q else FlushUntil(q, q.entries[0].id, scripts)
  }

  // ----- The reference: only what was there -----

  /** Processes entries numbered below `limit`, oldest first; the result and the scripts that are left. */
  function FlushOld(q: Queue, limit: nat, scripts: seq<Script>): (Queue, seq<Script>)
    decreases |scripts|, |q.entries|
  {
    if q.entries == [] || Oldest(q).id >= limit then (q, scripts)
    else FlushOld(Pop(q, First(scripts)), limit, Rest(scripts))
  }

  /** Newer entries come first. */
  predicate Ordered(entries: seq<Entry>, nextId: nat) {
    && (forall i, j | 0 <= i < j < |entries| :: entries[i].id > entries[j].id)
    && (forall i | 0 <= i < |entries| :: entries[i].id < nextId)
  }

  function Ids(entries: seq<Entry>): set<nat> {
    set e | e in entries :: e.id
  }

  /** Every entry ever made is in exactly one place: queued, resumed, or departed; it leaves the queue once. */
  ghost predicate Conserved(q: Queue) {
    && Ordered(q.entries, q.nextId)
    && (forall id | id in q.resumed :: id < q.nextId)
    && (forall id | id in q.departed :: id < q.nextId)
    && (forall i, j | 0 <= i < j < |q.resumed| :: q.resumed[i] != q.resumed[j])
    && (forall e | e in q.entries :: e.id !in q.resumed && e.id !in q.departed)
    && (forall id | id in q.resumed :: id !in q.departed)
    && (forall id: nat | id < q.nextId :: id in Ids(q.entries) || id in q.resumed || id in q.departed)
  }

  // ----- Laws -----

  lemma {:induction false} DroppedMembers(entries: seq<Entry>, id: nat)
    ensures forall e :: e in Dropped(entries, id) <==> e in entries && !(e.id == id && e.own)
  {
    if entries == [] {
    } else {
      DroppedMembers(entries[1..], id);
      assert entries == [entries[0]] + entries[1..];
    }
  }

  lemma {:induction false} DroppedOrdered(entries: seq<Entry>, id: nat, nextId: nat)
    requires Ordered(entries, nextId)
    ensures Ordered(Dropped(entries, id), nextId)
  {
    if entries == [] {
    } else {
      DroppedOrdered(entries[1..], id, nextId);
      DroppedMembers(entries[1..], id);
    }
  }

  lemma DepartConserves(q: Queue, id: nat)
    requires Conserved(q) && Present(q.entries, id)
    ensures Conserved(Act(q, Depart(id)))
  {
    var r := Act(q, Depart(id));
    DroppedMembers(q.entries, id);
    DroppedOrdered(q.entries, id, q.nextId);
    DroppedIds(q.entries, id);
    var e :| e in q.entries && e.id == id && e.own;
    assert id < q.nextId && id !in q.resumed;
  }

  lemma DroppedIds(entries: seq<Entry>, id: nat)
    ensures forall x | x in Ids(entries) && x != id :: x in Ids(Dropped(entries, id))
  {
    DroppedMembers(entries, id);
    forall x | x in Ids(entries) && x != id ensures x in Ids(Dropped(entries, id)) {
      var f :| f in entries && f.id == x;
      assert f in Dropped(entries, id);
    }
  }

  lemma AddConserves(q: Queue, fiber: nat, own: bool)
    requires Conserved(q)
    ensures Conserved(Added(q, fiber, own))
  {
    var e := Entry(q.nextId, fiber, own);
    OrderedFirst(e, q.entries, q.nextId);
    assert Ids([e] + q.entries) == {q.nextId} + Ids(q.entries);
    assert forall x | x in [e] + q.entries :: x == e || x in q.entries;
  }

  lemma OrderedFirst(e: Entry, entries: seq<Entry>, nextId: nat)
    requires Ordered(entries, nextId) && e.id == nextId
    ensures Ordered([e] + entries, nextId + 1)
  {
  }

  lemma ActConserves(q: Queue, a: Action)
    requires Conserved(q)
    ensures Conserved(Act(q, a))
  {
    match a
    case Push(fiber) => AddConserves(q, fiber, false);
    case Enter(fiber) => AddConserves(q, fiber, true);
    case Depart(id) => if Present(q.entries, id) { DepartConserves(q, id); }
  }

  /** What running code does to the queue: it resumes nobody itself, entries that stay keep their order, and new ones
      are numbered from `q.nextId`. */
  ghost predicate Grown(q: Queue, r: Queue) {
    && Conserved(r)
    && r.resumed == q.resumed
    && q.departed <= r.departed
    && q.nextId <= r.nextId
    && forall e | e in r.entries && e !in q.entries :: q.nextId <= e.id
  }

  lemma {:induction false} RunGrows(q: Queue, script: Script)
    requires Conserved(q)
    ensures Grown(q, Run(q, script))
  {
    if script == [] {
    } else {
      var c, a := Run(q, script[..|script| - 1]), script[|script| - 1];
      RunGrows(q, script[..|script| - 1]);
      ActConserves(c, a);
      if a.Depart? { DroppedMembers(c.entries, a.id); }
    }
  }

  /** A fiber that runs takes its own entry out, and no other; an entry of the selector's does not leave this way. */
  lemma DepartTakesItsOwn(q: Queue, id: nat)
    requires Conserved(q)
    ensures var r := Act(q, Depart(id));
            if exists e :: e in q.entries && e.id == id && e.own then
              && (forall e :: e in r.entries <==> e in q.entries && e.id != id)
              && r.departed == q.departed + {id} && r.resumed == q.resumed && r.nextId == q.nextId
            else r == q
  {
    DroppedMembers(q.entries, id);
    forall e, f | e in q.entries && f in q.entries && e.id == f.id ensures e == f {
      SameEntry(q.entries, q.nextId, e, f);
    }
  }

  lemma SameEntry(entries: seq<Entry>, nextId: nat, e: Entry, f: Entry)
    requires Ordered(entries, nextId) && e in entries && f in entries && e.id == f.id
    ensures e == f
  {
    var i :| 0 <= i < |entries| && entries[i] == e;
    var j :| 0 <= j < |entries| && entries[j] == f;
  }

  /** The fibers that a script makes ready, in order, each with whether it entered by itself. */
  function Made(script: Script): seq<(nat, bool)> {
    if script == [] then []
    else
      Made(script[..|script| - 1]) +
      match script[|script| - 1]
      case Push(fiber) => [(fiber, false)]
      case Enter(fiber) => [(fiber, true)]
      case Depart(_) => []
  }

  /** Every fiber that running code makes ready gets one entry, under the next number, and every entry keeps its fiber
      for as long as it is queued. */
  lemma {:induction false} RunMakes(q: Queue, script: Script)
    requires Conserved(q)
    ensures var r, made := Run(q, script), Made(script);
            && r.nextId == q.nextId + |made|
            && forall e | e in r.entries ::
                 e in q.entries ||
                 (q.nextId <= e.id < r.nextId && (e.fiber, e.own) == made[e.id - q.nextId])
  {
    if script == [] {
    } else {
      var c, a := Run(q, script[..|script| - 1]), script[|script| - 1];
      RunMakes(q, script[..|script| - 1]);
      RunGrows(q, script[..|script| - 1]);
      if a.Depart? { DroppedMembers(c.entries, a.id); }
    }
  }

  /** Popping conserves entries; what stays is newer than the popped entry, what is new is numbered higher. */
  lemma PopGrows(q: Queue, script: Script)
    requires Conserved(q) && q.entries != []
    ensures var x, r := Oldest(q), Pop(q, script);
            && Conserved(r)
            && r.resumed == q.resumed + [x.id]
            && q.departed <= r.departed
            && q.nextId <= r.nextId
            && forall e | e in r.entries :: e.id > x.id && (e in q.entries || q.nextId <= e.id)
  {
    var n := |q.entries| - 1;
    var c := q.(entries := q.entries[..n], resumed := q.resumed + [q.entries[n].id]);
    assert q.entries == q.entries[..n] + [q.entries[n]];
    assert Ids(q.entries) == Ids(q.entries[..n]) + {q.entries[n].id};
    RunGrows(c, script);
  }

  // ----- In order, each once, and nothing is lost -----

  /** What was resumed between `q` and `r`. */
  function Since(q: Queue, r: Queue): seq<nat>
    requires q.resumed <= r.resumed
  {
    r.resumed[|q.resumed|..]
  }

  predicate Increasing(s: seq<nat>) {
    forall i, j | 0 <= i < j < |s| :: s[i] < s[j]
  }

  /** From `q` to `r` entries are resumed in increasing order, all above `floor`. */
  ghost predicate InOrder(q: Queue, r: Queue, floor: int) {
    && q.resumed <= r.resumed
    && Increasing(Since(q, r))
    && forall id | id in Since(q, r) :: id > floor
  }

  lemma InOrderThen(q: Queue, r: Queue, t: Queue, x: nat, floor: int)
    requires r.resumed == q.resumed + [x] && floor < x && InOrder(r, t, x)
    ensures InOrder(q, t, floor) && Since(q, t) == [x] + Since(r, t)
  {
    Tail(t.resumed, |q.resumed|);
    assert t.resumed[|q.resumed|] == r.resumed[|q.resumed|] == x;
    IncreasingCons(x, Since(r, t));
  }

  lemma Tail(s: seq<nat>, k: nat)
    requires k < |s|
    ensures s[k..] == [s[k]] + s[k + 1..]
  {
  }

  lemma IncreasingCons(x: nat, s: seq<nat>)
    requires Increasing(s) && forall y | y in s :: x < y
    ensures Increasing([x] + s)
    ensures forall y | y in [x] + s :: y == x || y in s
  {
    var t := [x] + s;
    forall i, j | 0 <= i < j < |t| ensures t[i] < t[j] {
      assert t[j] == s[j - 1] && s[j - 1] in s;
      assert i > 0 ==> t[i] == s[i - 1];
    }
  }

  lemma {:induction false} UntilInOrder(q: Queue, newest: nat, scripts: seq<Script>, floor: int)
    requires Conserved(q) && forall e | e in q.entries :: e.id > floor
    requires floor < q.nextId
    ensures var r := FlushUntil(q, newest, scripts);
            Conserved(r) && InOrder(q, r, floor)
    decreases |scripts|, |q.entries|
  {
    if q.entries == [] {
    } else {
      var x, r := Oldest(q), Pop(q, First(scripts));
      PopGrows(q, First(scripts));
      if x.id != newest {
        UntilInOrder(r, newest, Rest(scripts), x.id);
        InOrderThen(q, r, FlushUntil(r, newest, Rest(scripts)), x.id, floor);
      } else {
        InOrderThen(q, r, r, x.id, floor);
      }
    }
  }

  /** The flush is strictly oldest first and conserves entries, whatever the resumed fibers do. */
  lemma FlushInOrder(q: Queue, scripts: seq<Script>)
    requires Conserved(q)
    ensures var r := Flush(q, scripts);
            Conserved(r) && q.resumed <= r.resumed && Increasing(Since(q, r))
  {
    if q.entries != [] {
      UntilInOrder(q, q.entries[0].id, scripts, -1);
    }
  }

  lemma OldestIsLeast(q: Queue)
    requires Ordered(q.entries, q.nextId) && q.entries != []
    ensures forall e | e in q.entries :: e.id >= Oldest(q).id
  {
    forall e | e in q.entries ensures e.id >= Oldest(q).id {
      var i :| 0 <= i < |q.entries| && q.entries[i] == e;
    }
  }

  lemma {:induction false} OldInOrder(q: Queue, limit: nat, scripts: seq<Script>, floor: int)
    requires Conserved(q) && (forall e | e in q.entries :: e.id > floor) && floor < q.nextId
    ensures Conserved(FlushOld(q, limit, scripts).0) && InOrder(q, FlushOld(q, limit, scripts).0, floor)
    decreases |scripts|, |q.entries|
  {
    if q.entries == [] || Oldest(q).id >= limit {
    } else {
      var x, r := Oldest(q), Pop(q, First(scripts));
      PopGrows(q, First(scripts));
      OldInOrder(r, limit, Rest(scripts), x.id);
      InOrderThen(q, r, FlushOld(r, limit, Rest(scripts)).0, x.id, floor);
    }
  }

  lemma {:induction false} OldBounds(q: Queue, limit: nat, scripts: seq<Script>)
    requires Conserved(q)
    ensures var p := FlushOld(q, limit, scripts).0;
            && q.nextId <= p.nextId && q.departed <= p.departed
            && (forall id | id in p.resumed && id !in q.resumed :: id < limit)
            && (forall e | e in p.entries :: e.id >= limit)
    decreases |scripts|, |q.entries|
  {
    if q.entries == [] {
    } else if Oldest(q).id >= limit {
      OldestIsLeast(q);
    } else {
      PopGrows(q, First(scripts));
      OldBounds(Pop(q, First(scripts)), limit, Rest(scripts));
    }
  }

  /** The reference resumes exactly the entries that were there and did not depart before their turn; by OldInOrder
      each once and oldest first. */
  lemma OldResumesWhoStays(q: Queue, scripts: seq<Script>)
    requires Conserved(q)
    ensures var p := FlushOld(q, q.nextId, scripts).0;
            && q.resumed <= p.resumed && Increasing(Since(q, p))
            && forall id: nat :: id in Since(q, p) <==> id in Ids(q.entries) && id !in p.departed
  {
    var p := FlushOld(q, q.nextId, scripts).0;
    OldInOrder(q, q.nextId, scripts, -1);
    OldBounds(q, q.nextId, scripts);
    assert p.resumed == q.resumed + Since(q, p);
    forall id: nat ensures id in Since(q, p) <==> id in Ids(q.entries) && id !in p.departed {
      if id in Since(q, p) {
        Unrepeated(q.resumed, Since(q, p), id);
        assert id in p.resumed && id < q.nextId;
      } else if id in Ids(q.entries) {
        assert id !in q.resumed && id !in p.resumed;
        assert id !in Ids(p.entries);
      }
    }
  }

  lemma Unrepeated(a: seq<nat>, b: seq<nat>, id: nat)
    requires forall i, j | 0 <= i < j < |a + b| :: (a + b)[i] != (a + b)[j]
    requires id in b
    ensures id !in a
  {
    var j :| 0 <= j < |b| && b[j] == id;
    assert (a + b)[|a| + j] == id;
    forall i | 0 <= i < |a| ensures a[i] != id { assert (a + b)[i] == a[i]; }
  }

  // ----- When the flush stops -----

  lemma OnlyOld(q: Queue, p: Queue, limit: nat)
    requires Conserved(p) && q.resumed <= p.resumed
    requires forall id | id in p.resumed && id !in q.resumed :: id < limit
    ensures forall id | id in Since(q, p) :: id < limit
  {
    assert p.resumed == q.resumed + Since(q, p);
    forall id | id in Since(q, p) ensures id < limit {
      Unrepeated(q.resumed, Since(q, p), id);
      assert id in p.resumed;
    }
  }

  /** As long as the newest entry of the start is still to come, the loop does what the reference does; when it departed
      the loop goes on with whatever was added since. */
  lemma {:induction false} UntilSplits(q: Queue, newest: nat, limit: nat, scripts: seq<Script>)
    requires Conserved(q) && newest < limit <= q.nextId && newest !in q.resumed
    requires forall e | e in q.entries && e.id < limit :: e.id <= newest
    ensures var (p, rest) := FlushOld(q, limit, scripts);
            FlushUntil(q, newest, scripts) == if newest in p.resumed then p else FlushUntil(p, newest, rest)
    decreases |scripts|, |q.entries|
  {
    if q.entries == [] || Oldest(q).id >= limit {
    } else {
      var x, r := Oldest(q), Pop(q, First(scripts));
      assert x in q.entries;
      PopGrows(q, First(scripts));
      if x.id == newest {
        assert forall e | e in r.entries :: e.id >= limit;
        assert FlushOld(r, limit, Rest(scripts)) == (r, Rest(scripts));
      } else {
        UntilSplits(r, newest, limit, Rest(scripts));
      }
    }
  }

  lemma UntilResumesOldest(p: Queue, newest: nat, scripts: seq<Script>)
    requires Conserved(p) && p.entries != []
    ensures p.resumed <= FlushUntil(p, newest, scripts).resumed
    ensures Oldest(p).id in Since(p, FlushUntil(p, newest, scripts))
  {
    var x, r := Oldest(p), Pop(p, First(scripts));
    PopGrows(p, First(scripts));
    if x.id != newest {
      UntilInOrder(r, newest, Rest(scripts), x.id);
      InOrderThen(p, r, FlushUntil(r, newest, Rest(scripts)), x.id, -1);
    } else {
      InOrderThen(p, r, r, x.id, -1);
    }
  }

  /** The exact condition under which a flush resumes only entries that were there at its start: the newest of them is
      reached, or nothing was queued when the others had been processed. */
  lemma FlushResumesOnlyOld(q: Queue, scripts: seq<Script>)
    requires Conserved(q) && q.entries != []
    ensures var r := Flush(q, scripts);
            var p := FlushOld(q, q.nextId, scripts).0;
            && q.resumed <= r.resumed
            && ((forall id | id in Since(q, r) :: id < q.nextId) <==> q.entries[0].id in p.resumed || p.entries == [])
  {
    var newest, limit, r := q.entries[0].id, q.nextId, Flush(q, scripts);
    var (p, rest) := FlushOld(q, limit, scripts);
    assert q.entries[0] in q.entries;
    FlushInOrder(q, scripts);
    OldInOrder(q, limit, scripts, -1);
    OldBounds(q, limit, scripts);
    OnlyOld(q, p, limit);
    UntilSplits(q, newest, limit, scripts);
    if newest !in p.resumed && p.entries != [] {
      UntilResumesOldest(p, newest, rest);
      assert Oldest(p) in p.entries && Oldest(p).id in Since(q, r);
    }
  }

  /** The newest entry is still reached if nobody makes its fiber depart. */
  lemma {:induction false} DepartsOnlyIfTold(q: Queue, limit: nat, scripts: seq<Script>, id: nat)
    requires forall s | s in scripts :: Depart(id) !in s
    ensures id in FlushOld(q, limit, scripts).0.departed ==> id in q.departed
    decreases |scripts|, |q.entries|
  {
    if q.entries == [] || Oldest(q).id >= limit {
    } else {
      var c := q.(entries := q.entries[..|q.entries| - 1], resumed := q.resumed + [Oldest(q).id]);
      RunDeparts(c, First(scripts), id);
      assert forall s | s in Rest(scripts) :: s in scripts;
      DepartsOnlyIfTold(Pop(q, First(scripts)), limit, Rest(scripts), id);
    }
  }

  lemma {:induction false} RunDeparts(q: Queue, script: Script, id: nat)
    requires Depart(id) !in script
    ensures id in Run(q, script).departed ==> id in q.departed
  {
    if script == [] {
    } else {
      assert script[|script| - 1] in script;
      RunDeparts(q, script[..|script| - 1], id);
    }
  }

  /** As long as nobody makes the newest entry depart, the flush processes exactly the entries that were there and
      did not depart before their turn, each once and oldest first; so it ends after at most that many. */
  lemma FlushIsReference(q: Queue, scripts: seq<Script>)
    requires Conserved(q) && q.entries != []
    requires forall s | s in scripts :: Depart(q.entries[0].id) !in s
    ensures var r := Flush(q, scripts);
            && r == FlushOld(q, q.nextId, scripts).0
            && q.resumed <= r.resumed && Increasing(Since(q, r))
            && (forall id: nat :: id in Since(q, r) <==> id in Ids(q.entries) && id !in r.departed)
            && |Since(q, r)| <= |q.entries|
  {
    var newest, p := q.entries[0].id, FlushOld(q, q.nextId, scripts).0;
    assert q.entries[0] in q.entries;
    OldResumesWhoStays(q, scripts);
    DepartsOnlyIfTold(q, q.nextId, scripts, newest);
    assert newest in Ids(q.entries) && newest in p.resumed;
    UntilSplits(q, newest, q.nextId, scripts);
    Counted(Since(q, p), q.entries);
  }

  lemma {:induction false} Counted(ids: seq<nat>, entries: seq<Entry>)
    requires Increasing(ids) && forall id | id in ids :: id in Ids(entries)
    ensures |ids| <= |entries|
    decreases |ids|
  {
    if ids == [] {
    } else {
      var id := ids[0];
      assert id in Ids(entries);
      var k :| 0 <= k < |entries| && entries[k].id == id;
      var rest := entries[..k] + entries[k + 1..];
      forall x | x in ids[1..] ensures x in Ids(rest) {
        assert x in Ids(entries);
        var e :| e in entries && e.id == x;
        assert e in rest;
      }
      Counted(ids[1..], rest);
    }
  }

  /** `n` fibers that each make one more ready. */
  function Pushing(n: nat): seq<Script> {
    if n == 0 then [] else [[Push(0)]] + Pushing(n - 1)
  }

  /** Without that proviso the loop has no bound of its own: when the newest entry departed, it follows fibers that make
      each other ready for as long as they do. */
  lemma {:induction false} LoopFollowsNewEntries(q: Queue, newest: nat, n: nat)
    requires |q.entries| == 1 && newest < q.entries[0].id < q.nextId
    ensures |FlushUntil(q, newest, Pushing(n)).resumed| == |q.resumed| + n + 1
    decreases n
  {
    var scripts := Pushing(n);
    var r := Pop(q, First(scripts));
    if n == 0 {
      assert FlushUntil(r, newest, Rest(scripts)) == r;
    } else {
      var c := q.(entries := [], resumed := q.resumed + [q.entries[0].id]);
      assert First(scripts) == [Push(0)] && [Push(0)][..0] == [];
      assert q.entries[..0] == [] && Run(c, [Push(0)]) == Act(c, Push(0));
      assert r == Added(c, 0, false);
      assert Rest(scripts) == Pushing(n - 1);
      LoopFollowsNewEntries(r, newest, n - 1);
    }
  }

  /** Such a flush of two entries resumes any number of fibers. */
  lemma FlushHasNoBound(n: nat)
    ensures var q := Queue([Entry(1, 1, true), Entry(0, 0, false)], 2, [], {});
            Conserved(q) && |Flush(q, [[Depart(1), Push(0)]] + Pushing(n)).resumed| == n + 2
  {
    var a, b := Entry(0, 0, false), Entry(1, 1, true);
    var q := Queue([b, a], 2, [], {});
    var rest := Pushing(n);
    var scripts := [[Depart(1), Push(0)]] + rest;
    assert Ids([b, a]) == {0, 1} by { assert a in [b, a] && b in [b, a]; }
    assert Conserved(q);
    var c := q.(entries := [b], resumed := [0]);
    assert q.entries[..1] == [b];
    assert Run(c, [Depart(1)]) == Act(c, Depart(1)) by { assert [Depart(1)][..0] == []; }
    assert Present([b], 1) by { assert b in [b]; }
    assert Act(c, Depart(1)).entries == [];
    var script := [Depart(1), Push(0)];
    assert script[..1] == [Depart(1)];
    var r := Pop(q, First(scripts));
    assert First(scripts) == script && q.resumed + [0] == [0];
    assert r == Run(c, script);
    assert Run(c, script) == Act(Run(c, script[..1]), Push(0));
    assert r == Added(Act(c, Depart(1)), 0, false);
    assert Rest(scripts) == rest;
    LoopFollowsNewEntries(r, 1, n);
  }

  // ----- The resumed fibers run -----

  /** How many entries the first `n` scripts make. */
  function MadeBy(scripts: seq<Script>, n: nat): nat {
    if n == 0 || scripts == [] then 0 else |Made(scripts[0])| + MadeBy(scripts[1..], n - 1)
  }

  lemma {:induction false} UntilRuns(q: Queue, newest: nat, scripts: seq<Script>)
    requires Conserved(q)
    ensures var r := FlushUntil(q, newest, scripts);
            q.resumed <= r.resumed && r.nextId == q.nextId + MadeBy(scripts, |Since(q, r)|)
    decreases |scripts|, |q.entries|
  {
    if q.entries == [] {
    } else {
      var x, p := Oldest(q), Pop(q, First(scripts));
      PopGrows(q, First(scripts));
      PopRuns(q, First(scripts));
      if x.id != newest {
        UntilRuns(p, newest, Rest(scripts));
        RunsThen(q, p, FlushUntil(p, newest, Rest(scripts)), x.id, scripts);
      } else {
        RunsThen(q, p, p, x.id, scripts);
      }
    }
  }

  lemma RunsThen(q: Queue, p: Queue, r: Queue, x: nat, scripts: seq<Script>)
    requires p.resumed == q.resumed + [x] && p.nextId == q.nextId + |Made(First(scripts))|
    requires p.resumed <= r.resumed && r.nextId == p.nextId + MadeBy(Rest(scripts), |Since(p, r)|)
    ensures q.resumed <= r.resumed && r.nextId == q.nextId + MadeBy(scripts, |Since(q, r)|)
  {
    assert |Since(q, r)| == |Since(p, r)| + 1;
  }

  lemma PopRuns(q: Queue, script: Script)
    requires Conserved(q) && q.entries != []
    ensures Pop(q, script).nextId == q.nextId + |Made(script)|
  {
    var n := |q.entries| - 1;
    var c := q.(entries := q.entries[..n], resumed := q.resumed + [q.entries[n].id]);
    assert q.entries == q.entries[..n] + [q.entries[n]];
    assert Ids(q.entries) == Ids(q.entries[..n]) + {q.entries[n].id};
    RunMakes(c, script);
  }

  /** Every fiber that a flush resumes runs, one script after the other: the entries made during the flush are those
      that as many scripts make as fibers were resumed. */
  lemma FlushRuns(q: Queue, scripts: seq<Script>)
    requires Conserved(q)
    ensures var r := Flush(q, scripts);
            q.resumed <= r.resumed && r.nextId == q.nextId + MadeBy(scripts, |Since(q, r)|)
  {
    if q.entries != [] { UntilRuns(q, q.entries[0].id, scripts); }
  }
}
