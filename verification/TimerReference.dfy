/** What a collection of timers is for, without a heap: the reference that module Timers refines, and its laws. */
module TimerReference {
  import opened Collections

  /** What a timer block may do while it runs: schedule a timer, cancel the handle created as number `id`, or ask for
      the size or the wait interval, which flushes. */
  datatype Action = Schedule(time: real, block: seq<Action>) | Cancel(id: nat) | Size | WaitInterval(now: real)

  type Block = seq<Action>

  // ----- The reference: a plain collection of live timers -----

  datatype Timer = Timer(time: real, block: Block)

  /** `pending` timers may fire, `deferred` ones were scheduled since the last flush; `created` numbers handles. */
  datatype TimerSet = TimerSet(pending: map<nat, Timer>, deferred: map<nat, Timer>, created: nat)

  function Flushed(a: TimerSet): TimerSet {
    a.(pending := a.pending + a.deferred, deferred := map[])
  }

  function Act(a: TimerSet, action: Action): TimerSet {
    match action
    case Schedule(time, block) =>
      a.(deferred := a.deferred[a.created := Timer(time, block)], created := a.created + 1)
    case Cancel(id) =>
      a.(pending := a.pending - {id}, deferred := a.deferred - {id})
    case Size => Flushed(a)
    case WaitInterval(_) => Flushed(a)
  }

  function Run(a: TimerSet, block: Block): TimerSet {
    if block == [] then a else Act(Run(a, block[..|block| - 1]), block[|block| - 1])
  }

  /** `id` is an earliest pending timer and it is due. */
  ghost predicate Due(a: TimerSet, id: nat, now: real) {
    && id in a.pending
    && a.pending[id].time <= now
    && forall other | other in a.pending :: a.pending[id].time <= a.pending[other].time
  }

  /** Timer `id` leaves, then its block runs. */
  function Fired(a: TimerSet, id: nat): TimerSet {
    if id in a.pending then Run(a.(pending := a.pending - {id}), a.pending[id].block) else a
  }

  function After(a: TimerSet, fired: seq<nat>): TimerSet {
    if fired == [] then a else Fired(After(a, fired[..|fired| - 1]), fired[|fired| - 1])
  }

  /** Each of `fired` was an earliest due timer when its turn came. */
  ghost predicate FirePrefix(a: TimerSet, now: real, fired: seq<nat>) {
    fired == [] ||
    var first := fired[..|fired| - 1];
    FirePrefix(a, now, first) && Due(After(a, first), fired[|fired| - 1], now)
  }

  /** `fired` is a complete `fire(now)`: always an earliest due timer, until nothing pending is due. */
  ghost predicate FireRun(a: TimerSet, now: real, fired: seq<nat>, b: TimerSet) {
    && FirePrefix(a, now, fired)
    && b == After(a, fired)
    && forall id | id in b.pending :: now < b.pending[id].time
  }

  /** Numbers were given out by the collection, and no timer is both pending and deferred. */
  ghost predicate WellNumbered(a: TimerSet) {
    && (forall id | id in a.pending :: id < a.created && id !in a.deferred)
    && (forall id | id in a.deferred :: id < a.created)
  }

  // ----- What running blocks does to the pending timers -----

  function Cancels(block: Block): (r: set<nat>) {
    set action | action in block && action.Cancel? :: action.id
  }

  /** Every handle number cancelled by the blocks of `fired`. */
  function CancelledBy(a: TimerSet, fired: seq<nat>): set<nat> {
    if fired == [] then {}
    else
      var (first, id) := (fired[..|fired| - 1], fired[|fired| - 1]);
      var mid := After(a, first);
      CancelledBy(a, first) + if id in mid.pending then Cancels(mid.pending[id].block) else {}
  }

  /** From `a` to `r` exactly the timers `gone` stopped pending; what is pending or deferred besides was deferred
      before, or is new. */
  ghost predicate Follows(a: TimerSet, gone: set<nat>, r: TimerSet) {
    && WellNumbered(r)
    && a.created <= r.created
    && (forall id | id in a.pending :: id in r.pending <==> id !in gone)
    && (forall id | id in a.pending && id in r.pending :: r.pending[id] == a.pending[id])
    && (forall id | id in r.pending :: id in a.pending || id in a.deferred || a.created <= id)
    && (forall id | id in r.deferred :: id in a.deferred || a.created <= id)
  }

  lemma FollowsThen(a: TimerSet, first: set<nat>, m: TimerSet, second: set<nat>, r: TimerSet)
    requires WellNumbered(a) && Follows(a, first, m) && Follows(m, second, r)
    ensures Follows(a, first + second, r)
  {
    forall id | id in a.pending ensures id in r.pending <==> id !in first + second {
      if id !in m.pending {
        assert id !in m.deferred && id < m.created;
      }
    }
  }

  lemma ActFollows(a: TimerSet, action: Action)
    requires WellNumbered(a)
    ensures Follows(a, if action.Cancel? then {action.id} else {}, Act(a, action))
  {
  }

  lemma {:induction false} RunFollows(a: TimerSet, block: Block)
    requires WellNumbered(a)
    ensures Follows(a, Cancels(block), Run(a, block))
  {
    if block == [] {
    } else {
      var first, last := block[..|block| - 1], block[|block| - 1];
      var step := if last.Cancel? then {last.id} else {};
      RunFollows(a, first);
      ActFollows(Run(a, first), last);
      FollowsThen(a, Cancels(first), Run(a, first), step, Run(a, block));
      assert block == first + [last];
      assert Cancels(block) == Cancels(first) + step;
    }
  }

  lemma FiredFollows(a: TimerSet, id: nat)
    requires WellNumbered(a) && id in a.pending
    ensures Follows(a, {id} + Cancels(a.pending[id].block), Fired(a, id))
  {
    var c := a.(pending := a.pending - {id});
    RunFollows(c, a.pending[id].block);
    FollowsThen(a, {id}, c, Cancels(a.pending[id].block), Fired(a, id));
  }

  /** After any prefix of a run: exactly the fired and the cancelled ones of the timers pending at its start are
      gone. */
  lemma {:induction false} AfterFollows(a: TimerSet, now: real, fired: seq<nat>)
    requires WellNumbered(a) && FirePrefix(a, now, fired)
    ensures Follows(a, SetOf(fired) + CancelledBy(a, fired), After(a, fired))
  {
    if fired == [] {
    } else {
      var first, id := fired[..|fired| - 1], fired[|fired| - 1];
      AfterFollows(a, now, first);
      FiredFollows(After(a, first), id);
      var step := {id} + Cancels(After(a, first).pending[id].block);
      FollowsThen(a, SetOf(first) + CancelledBy(a, first), After(a, first), step, After(a, fired));
      assert fired == first + [id];
      assert SetOf(fired) + CancelledBy(a, fired) == SetOf(first) + CancelledBy(a, first) + step;
    }
  }

  // ----- Parts of a run -----

  /** What the last call of a run means. */
  lemma LastCall(a: TimerSet, now: real, first: seq<nat>, id: nat)
    ensures FirePrefix(a, now, first + [id]) <==> FirePrefix(a, now, first) && Due(After(a, first), id, now)
    ensures After(a, first + [id]) == Fired(After(a, first), id)
    ensures CancelledBy(a, first + [id]) == CancelledBy(a, first) + CancelledBy(After(a, first), [id])
  {
    assert (first + [id])[..|first|] == first && [id][..0] == [];
  }

  /** A run goes on as a run of its own from every point. */
  ghost predicate GoesOn(a: TimerSet, now: real, first: seq<nat>, rest: seq<nat>) {
    var mid := After(a, first);
    && (FirePrefix(a, now, first + rest) <==> FirePrefix(a, now, first) && FirePrefix(mid, now, rest))
    && After(a, first + rest) == After(mid, rest)
    && CancelledBy(a, first + rest) == CancelledBy(a, first) + CancelledBy(mid, rest)
  }

  lemma {:induction false} RunsJoin(a: TimerSet, now: real, first: seq<nat>, rest: seq<nat>)
    ensures GoesOn(a, now, first, rest)
    decreases |rest|
  {
    if rest == [] {
      assert first + rest == first;
    } else {
      var most, id := rest[..|rest| - 1], rest[|rest| - 1];
      RunsJoin(a, now, first, most);
      GoesOnThen(a, now, first, most, id);
      assert rest == most + [id];
    }
  }

  lemma GoesOnThen(a: TimerSet, now: real, first: seq<nat>, most: seq<nat>, id: nat)
    requires GoesOn(a, now, first, most)
    ensures GoesOn(a, now, first, most + [id])
  {
    LastCall(a, now, first + most, id);
    LastCall(After(a, first), now, most, id);
    assert first + (most + [id]) == (first + most) + [id];
  }

  lemma RunFrom(a: TimerSet, now: real, fired: seq<nat>, k: nat)
    requires FirePrefix(a, now, fired) && k <= |fired|
    ensures FirePrefix(a, now, fired[..k])
    ensures FirePrefix(After(a, fired[..k]), now, fired[k..])
    ensures After(After(a, fired[..k]), fired[k..]) == After(a, fired)
    ensures CancelledBy(a, fired) == CancelledBy(a, fired[..k]) + CancelledBy(After(a, fired[..k]), fired[k..])
  {
    var first, rest := fired[..k], fired[k..];
    RunsJoin(a, now, first, rest);
    assert first + rest == fired;
  }

  /** `fired[k]` was pending, due and earliest after the `k` blocks before it. */
  lemma FiredWasPending(a: TimerSet, now: real, fired: seq<nat>, k: nat)
    requires WellNumbered(a) && FirePrefix(a, now, fired) && k < |fired|
    ensures Due(After(a, fired[..k]), fired[k], now)
    ensures WellNumbered(After(a, fired[..k]))
    ensures fired[k] in a.pending ==>
              && fired[k] !in fired[..k] && fired[k] !in CancelledBy(a, fired[..k])
              && After(a, fired[..k]).pending[fired[k]] == a.pending[fired[k]]
  {
    RunFrom(a, now, fired, k + 1);
    assert fired[..k + 1][..k] == fired[..k];
    AfterFollows(a, now, fired[..k]);
  }

  // ----- Laws of `fire` -----

  /** Who is called, whatever the blocks do: nobody twice; of the timers pending at the start exactly those that are due
      and that no called block cancelled before; and in the end nothing pending is due. */
  lemma FireCallsExactlyTheDue(a: TimerSet, now: real, fired: seq<nat>, b: TimerSet)
    requires WellNumbered(a) && FireRun(a, now, fired, b)
    ensures Distinct(fired)
    ensures forall k | 0 <= k < |fired| && fired[k] in a.pending ::
              a.pending[fired[k]].time <= now && fired[k] !in CancelledBy(a, fired[..k])
    ensures forall id | id in a.pending && a.pending[id].time <= now :: id in fired || id in CancelledBy(a, fired)
    ensures forall id | id in a.pending ::
              (id in b.pending <==> id !in fired && id !in CancelledBy(a, fired))
              && (id in b.pending ==> b.pending[id] == a.pending[id] && now < a.pending[id].time)
  {
    AfterFollows(a, now, fired);
    forall k: nat | k < |fired| && fired[k] in a.pending
      ensures a.pending[fired[k]].time <= now && fired[k] !in CancelledBy(a, fired[..k])
    {
      FiredWasPending(a, now, fired, k);
    }
    forall i, j | 0 <= i < j < |fired| ensures fired[i] != fired[j] { NotTwice(a, now, fired, i, j); }
  }

  lemma NotTwice(a: TimerSet, now: real, fired: seq<nat>, i: nat, j: nat)
    requires WellNumbered(a) && FirePrefix(a, now, fired) && i < j < |fired|
    ensures fired[i] != fired[j]
  {
    var mid := After(a, fired[..i]);
    FiredWasPending(a, now, fired, i);
    RunFrom(a, now, fired, i);
    FiredWasPending(mid, now, fired[i..], j - i);
    assert fired[i..][..j - i][0] == fired[i];
  }

  /** The same holds from every point of the run on, so of the timers that blocks schedule and flush meanwhile. */
  lemma FireGoesOnExactly(a: TimerSet, now: real, fired: seq<nat>, b: TimerSet, k: nat, id: nat)
    requires WellNumbered(a) && FireRun(a, now, fired, b) && k <= |fired|
    requires id in After(a, fired[..k]).pending && After(a, fired[..k]).pending[id].time <= now
    ensures id in fired[k..] || id in CancelledBy(After(a, fired[..k]), fired[k..])
  {
    RunFrom(a, now, fired, k);
    AfterFollows(a, now, fired[..k]);
    FireCallsExactlyTheDue(After(a, fired[..k]), now, fired[k..], b);
  }

  /** In which order: a timer that was pending when an earlier call was made is not due before it. */
  lemma FireIsInTimeOrder(a: TimerSet, now: real, fired: seq<nat>, i: nat, j: nat)
    requires WellNumbered(a) && FirePrefix(a, now, fired) && i <= j < |fired|
    requires fired[j] in After(a, fired[..i]).pending
    ensures fired[i] in After(a, fired[..i]).pending && fired[j] in After(a, fired[..j]).pending
    ensures After(a, fired[..i]).pending[fired[i]].time <= After(a, fired[..j]).pending[fired[j]].time
  {
    FiredWasPending(a, now, fired, i);
    FiredWasPending(a, now, fired, j);
    StillPending(a, now, fired, i, j);
  }

  lemma StillPending(a: TimerSet, now: real, fired: seq<nat>, i: nat, j: nat)
    requires WellNumbered(a) && FirePrefix(a, now, fired) && i <= j < |fired|
    requires fired[j] in After(a, fired[..i]).pending && fired[j] in After(a, fired[..j]).pending
    ensures After(a, fired[..j]).pending[fired[j]] == After(a, fired[..i]).pending[fired[j]]
  {
    var sofar := fired[..j];
    RunFrom(a, now, fired, j);
    RunFrom(a, now, sofar, i);
    assert sofar[..i] == fired[..i];
    AfterFollows(a, now, sofar[..i]);
    AfterFollows(After(a, sofar[..i]), now, sofar[i..]);
  }

  // ----- How long -----

  /** All the timers that a block schedules, and those that their blocks would schedule. */
  function Cost(block: Block): nat {
    if block == [] then 0
    else
      Cost(block[..|block| - 1]) +
      match block[|block| - 1]
      case Schedule(_, inner) => 1 + Cost(inner)
      case _ => 0
  }

  /** The timers of `m` numbered below `n`, each with what it would schedule. */
  function WeightBelow(m: map<nat, Timer>, n: nat): nat {
    if n == 0 then 0 else WeightBelow(m, n - 1) + if n - 1 in m then 1 + Cost(m[n - 1].block) else 0
  }

  function Weight(a: TimerSet): nat {
    WeightBelow(a.pending, a.created) + WeightBelow(a.deferred, a.created)
  }

  lemma {:induction false} WeightOfPart(m: map<nat, Timer>, k: map<nat, Timer>, n: nat)
    requires forall i | 0 <= i < n && i in m :: i in k && k[i] == m[i]
    ensures WeightBelow(m, n) <= WeightBelow(k, n)
  {
    if n == 0 {
    } else {
      WeightOfPart(m, k, n - 1);
    }
  }

  lemma {:induction false} WeightRemoved(m: map<nat, Timer>, id: nat, n: nat)
    requires id in m && id < n
    ensures WeightBelow(m - {id}, n) + 1 + Cost(m[id].block) == WeightBelow(m, n)
  {
    if n == id + 1 {
      WeightOfPart(m, m - {id}, id);
      WeightOfPart(m - {id}, m, id);
    } else {
      WeightRemoved(m, id, n - 1);
    }
  }

  lemma WeightAdded(m: map<nat, Timer>, n: nat, timer: Timer)
    ensures WeightBelow(m[n := timer], n + 1) == WeightBelow(m, n) + 1 + Cost(timer.block)
  {
    WeightOfPart(m, m[n := timer], n);
    WeightOfPart(m[n := timer], m, n);
  }

  lemma {:induction false} WeightJoined(m: map<nat, Timer>, k: map<nat, Timer>, n: nat)
    ensures WeightBelow(m + k, n) <= WeightBelow(m, n) + WeightBelow(k, n)
  {
    if n == 0 {
    } else {
      WeightJoined(m, k, n - 1);
    }
  }

  lemma {:induction false} WeightOfNone(n: nat)
    ensures WeightBelow(map[], n) == 0
  {
    if n == 0 {
    } else {
      WeightOfNone(n - 1);
    }
  }

  lemma ActWeighs(a: TimerSet, action: Action)
    requires WellNumbered(a)
    ensures Weight(Act(a, action)) <= Weight(a) + if action.Schedule? then 1 + Cost(action.block) else 0
  {
    match action
    case Schedule(time, block) => WeightAdded(a.deferred, a.created, Timer(time, block));
    case Cancel(id) =>
      WeightOfPart(a.pending - {id}, a.pending, a.created);
      WeightOfPart(a.deferred - {id}, a.deferred, a.created);
    case _ =>
      WeightJoined(a.pending, a.deferred, a.created);
      WeightOfNone(a.created);
  }

  lemma {:induction false} RunWeighs(a: TimerSet, block: Block)
    requires WellNumbered(a)
    ensures Weight(Run(a, block)) <= Weight(a) + Cost(block)
  {
    if block == [] {
    } else {
      var first := block[..|block| - 1];
      RunWeighs(a, first);
      RunFollows(a, first);
      ActWeighs(Run(a, first), block[|block| - 1]);
    }
  }

  lemma FiredWeighsLess(a: TimerSet, id: nat)
    requires WellNumbered(a) && id in a.pending
    ensures WellNumbered(Fired(a, id)) && Weight(Fired(a, id)) < Weight(a)
  {
    WeightRemoved(a.pending, id, a.created);
    RunWeighs(a.(pending := a.pending - {id}), a.pending[id].block);
    FiredFollows(a, id);
  }

  lemma FireOneMore(a: TimerSet, now: real, fired: seq<nat>, id: nat)
    requires FirePrefix(a, now, fired) && WellNumbered(After(a, fired)) && Due(After(a, fired), id, now)
    ensures FirePrefix(a, now, fired + [id]) && After(a, fired + [id]) == Fired(After(a, fired), id)
    ensures Weight(After(a, fired + [id])) < Weight(After(a, fired))
  {
    LastCall(a, now, fired, id);
    FiredWeighsLess(After(a, fired), id);
  }

  /** Every prefix of a run is bounded by the timers of the collection and those that their blocks schedule. */
  lemma {:induction false} FireTerminates(a: TimerSet, now: real, fired: seq<nat>)
    requires WellNumbered(a) && FirePrefix(a, now, fired)
    ensures |fired| + Weight(After(a, fired)) <= Weight(a)
  {
    if fired == [] {
    } else {
      var first := fired[..|fired| - 1];
      FireTerminates(a, now, first);
      AfterFollows(a, now, first);
      FiredWeighsLess(After(a, first), fired[|fired| - 1]);
    }
  }

  // ----- Blocks that do not flush -----

  predicate Flushes(block: Block) {
    exists action :: action in block && (action.Size? || action.WaitInterval?)
  }

  /** No block of a pending timer flushes. */
  ghost predicate Quiet(a: TimerSet) {
    forall id | id in a.pending :: !Flushes(a.pending[id].block)
  }

  lemma {:induction false} RunOnlyCancels(a: TimerSet, block: Block)
    requires !Flushes(block)
    ensures forall id | id in Run(a, block).pending :: id in a.pending
  {
    if block == [] {
    } else {
      var first, last := block[..|block| - 1], block[|block| - 1];
      assert last in block && forall action | action in first :: action in block;
      RunOnlyCancels(a, first);
    }
  }

  lemma {:induction false} QuietPrefix(a: TimerSet, now: real, fired: seq<nat>)
    requires WellNumbered(a) && Quiet(a) && FirePrefix(a, now, fired)
    ensures forall id | id in fired || id in After(a, fired).pending :: id in a.pending
  {
    if fired == [] {
    } else {
      var first, id := fired[..|fired| - 1], fired[|fired| - 1];
      QuietPrefix(a, now, first);
      AfterFollows(a, now, first);
      var mid := After(a, first);
      assert mid.pending[id] == a.pending[id];
      RunOnlyCancels(mid.(pending := mid.pending - {id}), mid.pending[id].block);
    }
  }

  /** As long as no block flushes, `fire` calls only timers that were pending at its start, and what blocks schedule
      stays deferred; so the calls are at most as many as those timers. */
  lemma FireDefersNewTimers(a: TimerSet, now: real, fired: seq<nat>, b: TimerSet)
    requires WellNumbered(a) && Quiet(a) && FireRun(a, now, fired, b)
    ensures forall id | id in fired :: id in a.pending
    ensures b.pending == a.pending - SetOf(fired) - CancelledBy(a, fired)
    ensures forall id | id in b.deferred :: id in a.deferred || (a.created <= id < b.created && id !in fired)
    ensures |fired| + |b.pending| <= |a.pending|
  {
    QuietPrefix(a, now, fired);
    AfterFollows(a, now, fired);
    QuietRest(a, SetOf(fired), CancelledBy(a, fired), b);
    assert Distinct(fired) by { FireCallsExactlyTheDue(a, now, fired, b); }
    QuietCount(a.pending.Keys, fired, b.pending.Keys);
  }

  lemma QuietRest(a: TimerSet, fired: set<nat>, cancelled: set<nat>, b: TimerSet)
    requires Follows(a, fired + cancelled, b) && forall id | id in b.pending :: id in a.pending
    ensures b.pending == a.pending - fired - cancelled
    ensures forall id | id in b.deferred :: id in a.deferred || a.created <= id < b.created
    ensures |a.pending.Keys| == |a.pending| && |b.pending.Keys| == |b.pending|
  {
  }

  /** Timers that were pending at the start are called in time order, in any case. */
  lemma PendingFireInTimeOrder(a: TimerSet, now: real, fired: seq<nat>, i: nat, j: nat)
    requires WellNumbered(a) && FirePrefix(a, now, fired) && i <= j < |fired|
    requires fired[i] in a.pending && fired[j] in a.pending
    ensures a.pending[fired[i]].time <= a.pending[fired[j]].time
  {
    FiredWasPending(a, now, fired, i);
    FiredWasPending(a, now, fired, j);
    PendingUntilCalled(a, now, fired, i, j);
    FireIsInTimeOrder(a, now, fired, i, j);
  }

  lemma PendingUntilCalled(a: TimerSet, now: real, fired: seq<nat>, i: nat, j: nat)
    requires WellNumbered(a) && FirePrefix(a, now, fired) && i <= j < |fired| && fired[j] in a.pending
    ensures fired[j] in After(a, fired[..i]).pending
  {
    FiredWasPending(a, now, fired, j);
    RunFrom(a, now, fired, j);
    var first, rest := fired[..i], fired[i..j];
    assert fired[..j] == first + rest;
    NotGoneBefore(a, now, first, rest, fired[j]);
  }

  lemma NotGoneBefore(a: TimerSet, now: real, first: seq<nat>, rest: seq<nat>, id: nat)
    requires WellNumbered(a) && FirePrefix(a, now, first + rest) && id in a.pending
    requires id !in first + rest && id !in CancelledBy(a, first + rest)
    ensures id in After(a, first).pending
  {
    RunsJoin(a, now, first, rest);
    AfterFollows(a, now, first);
  }

  lemma QuietCount(pending: set<nat>, fired: seq<nat>, left: set<nat>)
    requires Distinct(fired) && left <= pending && forall id | id in fired :: id in pending && id !in left
    ensures |fired| + |left| <= |pending|
  {
    DistinctSize(fired);
    assert SetOf(fired) !! left;
    SubsetIsSmaller(SetOf(fired) + left, pending);
  }

  // ----- Blocks that do -----

  /** A block that schedules the next one and flushes, `n` times over. */
  function Chain(n: nat): Block {
    if n == 0 then [] else [Schedule(0.0, Chain(n - 1)), Size]
  }

  lemma ChainStep(a: TimerSet, id: nat, n: nat)
    requires a.pending == map[id := Timer(0.0, Chain(n + 1))] && a.deferred == map[]
    ensures Fired(a, id) == TimerSet(map[a.created := Timer(0.0, Chain(n))], map[], a.created + 1)
  {
    var block, c := Chain(n + 1), a.(pending := a.pending - {id});
    assert c.pending == map[] && c.deferred == map[];
    assert block[..1] == [Schedule(0.0, Chain(n))] && block[..1][..0] == [];
    assert Run(c, block[..1]) == Act(c, Schedule(0.0, Chain(n)));
    assert Run(c, block) == Act(Run(c, block[..1]), Size);
    assert map[] + map[a.created := Timer(0.0, Chain(n))] == map[a.created := Timer(0.0, Chain(n))];
  }

  lemma FireFirst(a: TimerSet, now: real, id: nat, rest: seq<nat>)
    requires Due(a, id, now) && FirePrefix(Fired(a, id), now, rest)
    ensures FirePrefix(a, now, [id] + rest) && After(a, [id] + rest) == After(Fired(a, id), rest)
  {
    LastCall(a, now, [], id);
    assert [] + [id] == [id];
    RunsJoin(a, now, [id], rest);
  }

  /** Then calls have no bound in the number of timers: one pending timer, and any number of calls in one `fire`. */
  lemma {:induction false} FireFollowsFlushes(a: TimerSet, id: nat, n: nat) returns (fired: seq<nat>)
    requires a.pending == map[id := Timer(0.0, Chain(n))] && a.deferred == map[] && id < a.created
    ensures |fired| == n + 1 && FireRun(a, 0.0, fired, After(a, fired))
    decreases n
  {
    assert Due(a, id, 0.0);
    if n == 0 {
      fired := [id];
      assert fired[..0] == [] && After(a, fired) == Fired(a, id);
      assert Fired(a, id).pending == map[];
    } else {
      ChainStep(a, id, n - 1);
      var rest := FireFollowsFlushes(Fired(a, id), a.created, n - 1);
      FireFirst(a, 0.0, id, rest);
      fired := [id] + rest;
    }
  }
}
