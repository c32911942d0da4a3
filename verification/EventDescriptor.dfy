/** One descriptor of the EPoll or KQueue selector as linked structures: the waiting list threads the records on the
    stacks of suspended fibers, and the handle loop marks its place with the `saved` node while a fiber runs. */
module EventDescriptor {
  import opened Collections
  import opened EventList
  import opened Interest
  import opened Optional
  import D = Dispatch
  import I = DispatchInterest

  /** A list node inside a waiting record carries the record; the sentinel and `saved` carry nothing. */
  type Link = Node<Option<D.Waiter>>

  // ----- Facts about nodes and the waiters they carry -----

  ghost predicate Carry(nodes: seq<Link>, ws: seq<D.Waiter>) {
    |nodes| == |ws| && forall i | 0 <= i < |ws| :: nodes[i].item == Some(ws[i])
  }

  /** The records still on fiber stacks are exactly those of the listed nodes. */
  ghost predicate Framed(frames: map<nat, Link>, nodes: seq<Link>) {
    && (forall n | n in nodes :: n.item.Some? && n.item.value.id in frames && frames[n.item.value.id] == n)
    && (forall id | id in frames :: frames[id] in nodes && frames[id].item.Some? && frames[id].item.value.id == id)
  }

  lemma {:induction false} WithoutIndex(ws: seq<D.Waiter>, k: nat)
    requires D.DistinctIds(ws) && k < |ws|
    ensures D.Without(ws, {ws[k].id}) == ws[..k] + ws[k + 1..]
  {
    var ids := {ws[k].id};
    assert ws == ws[..k] + ([ws[k]] + ws[k + 1..]);
    D.WithoutConcat(ws[..k], [ws[k]] + ws[k + 1..], ids);
    D.WithoutCons(ws[k], ws[k + 1..], ids);
    D.WithoutNone(ws[..k], ids);
    D.WithoutNone(ws[k + 1..], ids);
  }

  lemma CarryCut(nodes: seq<Link>, ws: seq<D.Waiter>, k: nat)
    requires Carry(nodes, ws) && D.DistinctIds(ws) && k < |ws|
    ensures Carry(RemovedAt(nodes, k), D.Without(ws, {ws[k].id}))
  {
    WithoutIndex(ws, k);
  }

  lemma FramedCut(frames: map<nat, Link>, nodes: seq<Link>, k: nat)
    requires Framed(frames, nodes) && k < |nodes|
    requires Distinct(nodes)
    ensures nodes[k].item.Some? && Framed(frames - {nodes[k].item.value.id}, RemovedAt(nodes, k))
  {
    var n := nodes[k];
    assert n in nodes;
    var rest := RemovedAt(nodes, k);
    forall i | 0 <= i < |rest| ensures rest[i] in nodes && rest[i] != n {
      assert rest[i] == nodes[if i < k then i else i + 1];
    }
    forall m | m in nodes && m != n ensures m in rest {
      var i :| 0 <= i < |nodes| && nodes[i] == m;
      assert rest[if i < k then i else i - 1] == m;
    }
  }

  lemma CarryFirst(nodes: seq<Link>, ws: seq<D.Waiter>, link: Link, w: D.Waiter)
    requires Carry(nodes, ws) && link.item == Some(w)
    ensures Carry([link] + nodes, [w] + ws)
  {
  }

  lemma FramedFirst(frames: map<nat, Link>, nodes: seq<Link>, link: Link, d: D.Descriptor, w: D.Waiter)
    requires Framed(frames, nodes) && link !in nodes && link.item == Some(w)
    requires Carry(nodes, D.List(d)) && D.WellFormed(d.(behind := [w] + d.behind))
    ensures w.id !in frames && Framed(frames[w.id := link], [link] + nodes)
  {
    var e := d.(behind := [w] + d.behind);
    assert D.List(e) == [w] + D.List(d) && D.List(e)[0] == w;
    forall i | 0 <= i < |nodes| ensures nodes[i].item.value.id != w.id {
      assert D.List(e)[i + 1] == D.List(d)[i] && nodes[i] in nodes;
    }
  }

  ghost function Chain(list: Link, behind: seq<Link>, marker: seq<Link>, ahead: seq<Link>): seq<Link> {
    [list] + behind + marker + ahead
  }

  lemma InsertedFirst(list: Link, behind: seq<Link>, marker: seq<Link>, ahead: seq<Link>, link: Link)
    ensures Inserted(Chain(list, behind, marker, ahead), 1, link) == Chain(list, [link] + behind, marker, ahead)
  {
  }

  lemma CutBehind(list: Link, behind: seq<Link>, marker: seq<Link>, ahead: seq<Link>, k: nat)
    requires k < |behind|
    ensures RemovedAt(Chain(list, behind, marker, ahead), 1 + k) == Chain(list, RemovedAt(behind, k), marker, ahead)
  {
  }

  lemma CutAhead(list: Link, behind: seq<Link>, marker: seq<Link>, ahead: seq<Link>, k: nat)
    requires k < |ahead|
    ensures RemovedAt(Chain(list, behind, marker, ahead), 1 + |behind| + |marker| + k)
         == Chain(list, behind, marker, RemovedAt(ahead, k))
  {
  }

  /** The model once a waiter has left its list, not counting the log. */
  function Gone(d: D.Descriptor, id: nat): D.Descriptor {
    d.(behind := D.Without(d.behind, {id}), ahead := D.Without(d.ahead, {id}))
  }

  lemma GoneSound(d: D.Descriptor, id: nat)
    requires D.Sound(d)
    ensures D.Sound(Gone(d, id))
  {
    D.CancelKeeps(d, id);
    assert D.List(Gone(d, id)) == D.List(D.Act(d, D.Cancel(id)));
  }

  lemma LogSound(d: D.Descriptor, log: seq<D.Entry>)
    requires D.Sound(d)
    ensures D.Sound(d.(log := log))
  {
    assert D.List(d.(log := log)) == D.List(d);
  }

  lemma CarryGone(nodes: seq<Link>, ws: seq<D.Waiter>, others: seq<D.Waiter>, k: nat)
    requires Carry(nodes, ws) && D.DistinctIds(ws) && k < |nodes|
    requires forall w | w in others :: w.id != ws[k].id
    ensures nodes[k].item == Some(ws[k])
    ensures Carry(RemovedAt(nodes, k), D.Without(ws, {ws[k].id}))
    ensures D.Without(others, {ws[k].id}) == others
  {
    CarryCut(nodes, ws, k);
    D.WithoutNone(others, {ws[k].id});
  }

  /** What a descriptor looks like while its lists agree with the model; no node is read. */
  ghost predicate Agree(frames: map<nat, Link>, behind: seq<Link>, ahead: seq<Link>, d: D.Descriptor) {
    && Carry(behind, d.behind)
    && Carry(ahead, d.ahead)
    && Framed(frames, behind + ahead)
    && D.Sound(d)
  }

  lemma CutConcat(xs: seq<Link>, ys: seq<Link>, k: nat)
    requires k < |xs + ys|
    ensures RemovedAt(xs + ys, k) == if k < |xs| then RemovedAt(xs, k) + ys else xs + RemovedAt(ys, k - |xs|)
  {
  }

  lemma BehindGone(frames: map<nat, Link>, behind: seq<Link>, ahead: seq<Link>, d: D.Descriptor, k: nat)
    requires Agree(frames, behind, ahead, d) && k < |behind|
    requires Distinct(behind + ahead)
    ensures behind[k].item.Some?
    ensures var id := behind[k].item.value.id; Agree(frames - {id}, RemovedAt(behind, k), ahead, Gone(d, id))
  {
    BehindCarried(behind, ahead, d, k);
    BehindUnframed(frames, behind, ahead, k);
    GoneSound(d, d.behind[k].id);
  }

  lemma BehindCarried(behind: seq<Link>, ahead: seq<Link>, d: D.Descriptor, k: nat)
    requires Carry(behind, d.behind) && Carry(ahead, d.ahead) && D.WellFormed(d) && k < |behind|
    ensures behind[k].item == Some(d.behind[k])
    ensures var r := Gone(d, d.behind[k].id); Carry(RemovedAt(behind, k), r.behind) && Carry(ahead, r.ahead)
  {
    DistinctParts(d);
    CarryGone(behind, d.behind, d.ahead, k);
  }

  lemma BehindUnframed(frames: map<nat, Link>, behind: seq<Link>, ahead: seq<Link>, k: nat)
    requires Framed(frames, behind + ahead) && k < |behind|
    requires Distinct(behind + ahead)
    ensures behind[k].item.Some? && Framed(frames - {behind[k].item.value.id}, RemovedAt(behind, k) + ahead)
  {
    var nodes := behind + ahead;
    assert nodes[k] == behind[k];
    assert RemovedAt(nodes, k) == RemovedAt(behind, k) + ahead by { CutConcat(behind, ahead, k); }
    FramedCut(frames, nodes, k);
  }

  lemma AheadGone(frames: map<nat, Link>, behind: seq<Link>, ahead: seq<Link>, d: D.Descriptor, k: nat)
    requires Agree(frames, behind, ahead, d) && k < |ahead|
    requires Distinct(behind + ahead)
    ensures ahead[k].item.Some?
    ensures var id := ahead[k].item.value.id; Agree(frames - {id}, behind, RemovedAt(ahead, k), Gone(d, id))
  {
    AheadCarried(behind, ahead, d, k);
    AheadUnframed(frames, behind, ahead, k);
    GoneSound(d, d.ahead[k].id);
  }

  lemma AheadCarried(behind: seq<Link>, ahead: seq<Link>, d: D.Descriptor, k: nat)
    requires Carry(behind, d.behind) && Carry(ahead, d.ahead) && D.WellFormed(d) && k < |ahead|
    ensures ahead[k].item == Some(d.ahead[k])
    ensures var r := Gone(d, d.ahead[k].id); Carry(behind, r.behind) && Carry(RemovedAt(ahead, k), r.ahead)
  {
    DistinctParts(d);
    CarryGone(ahead, d.ahead, d.behind, k);
  }

  lemma AheadUnframed(frames: map<nat, Link>, behind: seq<Link>, ahead: seq<Link>, k: nat)
    requires Framed(frames, behind + ahead) && k < |ahead|
    requires Distinct(behind + ahead)
    ensures ahead[k].item.Some? && Framed(frames - {ahead[k].item.value.id}, behind + RemovedAt(ahead, k))
  {
    var nodes, at := behind + ahead, |behind| + k;
    assert nodes[at] == ahead[k];
    assert RemovedAt(nodes, at) == behind + RemovedAt(ahead, k) by { CutConcat(behind, ahead, at); }
    FramedCut(frames, nodes, at);
  }

  lemma AgreeFirst(frames: map<nat, Link>, behind: seq<Link>, ahead: seq<Link>, d: D.Descriptor,
                   link: Link, w: D.Waiter)
    requires Agree(frames, behind, ahead, d) && link !in behind && link !in ahead && link.item == Some(w)
    requires D.Sound(d.(behind := [w] + d.behind))
    ensures Agree(frames[w.id := link], [link] + behind, ahead, d.(behind := [w] + d.behind))
  {
    CarryFirst(behind, d.behind, link, w);
    FramedFirst(frames, behind + ahead, link, d, w);
    assert [link] + (behind + ahead) == ([link] + behind) + ahead;
  }

  lemma RingApart(list: Link, behind: seq<Link>, marker: seq<Link>, ahead: seq<Link>)
    requires Ring(Chain(list, behind, marker, ahead))
    ensures Distinct(behind + ahead)
  {
    var ring, both := Chain(list, behind, marker, ahead), behind + ahead;
    forall i | 0 <= i < |both| ensures both[i] == ring[Place(|behind|, |marker|, i)] {
    }
  }

  function Place(behind: nat, marker: nat, i: nat): nat {
    if i < behind then 1 + i else 1 + marker + i
  }

  /** `link` stands at `at` in the ring; `b` and `a` are the lists once it has left. */
  ghost predicate Leaving(links: seq<Link>, at: nat, list: Link, frames: map<nat, Link>, b: seq<Link>,
                          marker: seq<Link>, a: seq<Link>, d: D.Descriptor, link: Link) {
    && 0 < at < |links|
    && links[at] == link
    && RemovedAt(links, at) == Chain(list, b, marker, a)
    && link.item.Some?
    && Agree(frames - {link.item.value.id}, b, a, Gone(d, link.item.value.id))
  }

  lemma BehindLeaves(links: seq<Link>, list: Link, frames: map<nat, Link>, behind: seq<Link>, marker: seq<Link>,
                     ahead: seq<Link>, d: D.Descriptor, k: nat)
    requires Agree(frames, behind, ahead, d) && k < |behind|
    requires Ring(links) && links == Chain(list, behind, marker, ahead)
    ensures Leaving(links, 1 + k, list, frames, RemovedAt(behind, k), marker, ahead, d, behind[k])
  {
    RingApart(list, behind, marker, ahead);
    BehindGone(frames, behind, ahead, d, k);
    CutBehind(list, behind, marker, ahead, k);
  }

  lemma AheadLeaves(links: seq<Link>, list: Link, frames: map<nat, Link>, behind: seq<Link>, marker: seq<Link>,
                    ahead: seq<Link>, d: D.Descriptor, k: nat)
    requires Agree(frames, behind, ahead, d) && k < |ahead|
    requires Ring(links) && links == Chain(list, behind, marker, ahead)
    ensures Leaving(links, 1 + |behind| + |marker| + k, list, frames, behind, marker, RemovedAt(ahead, k), d, ahead[k])
  {
    RingApart(list, behind, marker, ahead);
    AheadGone(frames, behind, ahead, d, k);
    CutAhead(list, behind, marker, ahead, k);
  }

  lemma AheadPlace(links: seq<Link>, list: Link, frames: map<nat, Link>, behind: seq<Link>, marker: seq<Link>,
                   ahead: seq<Link>, d: D.Descriptor, link: Link)
    returns (at: nat, a: seq<Link>)
    requires Agree(frames, behind, ahead, d) && link in ahead
    requires Ring(links) && links == Chain(list, behind, marker, ahead)
    ensures Leaving(links, at, list, frames, behind, marker, a, d, link)
  {
    var k: nat :| k < |ahead| && ahead[k] == link;
    AheadLeaves(links, list, frames, behind, marker, ahead, d, k);
    at, a := 1 + |behind| + |marker| + k, RemovedAt(ahead, k);
  }

  lemma BehindPlace(links: seq<Link>, list: Link, frames: map<nat, Link>, behind: seq<Link>, marker: seq<Link>,
                    ahead: seq<Link>, d: D.Descriptor, link: Link)
    returns (at: nat, b: seq<Link>)
    requires Agree(frames, behind, ahead, d) && link in behind
    requires Ring(links) && links == Chain(list, behind, marker, ahead)
    ensures Leaving(links, at, list, frames, b, marker, ahead, d, link)
  {
    var k: nat :| k < |behind| && behind[k] == link;
    BehindLeaves(links, list, frames, behind, marker, ahead, d, k);
    at, b := 1 + k, RemovedAt(behind, k);
  }

  /** A listed record is found at one place of the ring; `b` and `a` are the lists once it has left. */
  lemma Leaves(links: seq<Link>, list: Link, frames: map<nat, Link>, behind: seq<Link>, marker: seq<Link>,
               ahead: seq<Link>, d: D.Descriptor, link: Link)
    returns (at: nat, b: seq<Link>, a: seq<Link>)
    requires Agree(frames, behind, ahead, d) && (link in behind || link in ahead)
    requires Ring(links) && links == Chain(list, behind, marker, ahead)
    ensures Leaving(links, at, list, frames, b, marker, a, d, link)
  {
    b, a := behind, ahead;
    if link in ahead {
      at, a := AheadPlace(links, list, frames, behind, marker, ahead, d, link);
    } else {
      at, b := BehindPlace(links, list, frames, behind, marker, ahead, d, link);
    }
  }

  lemma Closed(frames: map<nat, Link>, behind: seq<Link>, ahead: seq<Link>, d: D.Descriptor)
    requires Agree(frames, behind, ahead, d)
    ensures Agree(frames, behind, ahead, D.Act(d, D.Close))
  {
    D.ActKeeps(d, D.Close);
  }

  lemma Logged(frames: map<nat, Link>, behind: seq<Link>, ahead: seq<Link>, d: D.Descriptor, e: D.Entry)
    requires Agree(frames, behind, ahead, d)
    ensures Agree(frames, behind, ahead, d.(log := d.log + [e]))
  {
    LogSound(d, d.log + [e]);
  }

  lemma GoneFirst(d: D.Descriptor)
    requires D.WellFormed(d) && d.ahead != []
    ensures Gone(d, d.ahead[0].id) == d.(ahead := d.ahead[1..])
  {
    DistinctParts(d);
    WithoutIndex(d.ahead, 0);
    D.WithoutNone(d.behind, {d.ahead[0].id});
    assert d.ahead[..0] + d.ahead[1..] == d.ahead[1..];
  }

  lemma Marked(links: seq<Link>, list: Link, behind: seq<Link>, ahead: seq<Link>, saved: Link)
    requires links == Chain(list, behind, [], ahead) && ahead != []
    ensures Inserted(links, 1 + |behind|, saved) == Chain(list, behind, [saved], ahead)
    ensures After(links, |behind|) == ahead[0]
  {
  }

  lemma Unmarked(links: seq<Link>, list: Link, behind: seq<Link>, ahead: seq<Link>, saved: Link)
    requires links == Chain(list, behind, [saved], ahead)
    ensures links[1 + |behind|] == saved && RemovedAt(links, 1 + |behind|) == Chain(list, behind, [], ahead)
    ensures After(links, 1 + |behind|) == Cursor(list, ahead)
  {
  }

  lemma Started(frames: map<nat, Link>, links: seq<Link>, list: Link, behind: seq<Link>, d: D.Descriptor)
    requires Agree(frames, behind, [], d) && links == Chain(list, behind, [], [])
    ensures Agree(frames, [], behind, D.Start(d))
    ensures links == Chain(list, [], [], behind)
    ensures links[0] == list && After(links, 0) == Cursor(list, behind)
  {
    StartedAgree(frames, behind, d);
    ChainStart(list, behind);
  }

  lemma StartedAgree(frames: map<nat, Link>, behind: seq<Link>, d: D.Descriptor)
    requires Agree(frames, behind, [], d)
    ensures Agree(frames, [], behind, D.Start(d))
  {
    assert behind + [] == behind && [] + behind == behind;
    D.StartKeeps(d);
  }

  lemma ChainStart(list: Link, behind: seq<Link>)
    ensures Chain(list, behind, [], []) == Chain(list, [], [], behind)
    ensures After(Chain(list, [], [], behind), 0) == Cursor(list, behind)
  {
  }

  /** The node the loop looks at next; the sentinel when nothing is ahead. */
  ghost function Cursor(list: Link, ahead: seq<Link>): Link {
    if ahead == [] then list else ahead[0]
  }

  lemma Passed(frames: map<nat, Link>, links: seq<Link>, list: Link, behind: seq<Link>, ahead: seq<Link>,
               d: D.Descriptor)
    requires Agree(frames, behind, ahead, d) && ahead != [] && links == Chain(list, behind, [], ahead)
    requires D.Sound(Passing(d))
    ensures Agree(frames, behind + [ahead[0]], ahead[1..], Passing(d))
    ensures links == Chain(list, behind + [ahead[0]], [], ahead[1..])
    ensures After(links, 1 + |behind|) == Cursor(list, ahead[1..]) && links[1 + |behind|] == ahead[0]
  {
    PassedAgree(frames, behind, ahead, d);
    ChainPass(list, behind, ahead);
  }

  lemma PassedAgree(frames: map<nat, Link>, behind: seq<Link>, ahead: seq<Link>, d: D.Descriptor)
    requires Agree(frames, behind, ahead, d) && ahead != [] && D.Sound(Passing(d))
    ensures Agree(frames, behind + [ahead[0]], ahead[1..], Passing(d))
  {
    assert (behind + [ahead[0]]) + ahead[1..] == behind + ahead;
  }

  lemma ChainPass(list: Link, behind: seq<Link>, ahead: seq<Link>)
    requires ahead != []
    ensures var links := Chain(list, behind, [], ahead);
            && links == Chain(list, behind + [ahead[0]], [], ahead[1..])
            && links[1 + |behind|] == ahead[0]
            && After(links, 1 + |behind|) == Cursor(list, ahead[1..])
  {
    assert (behind + [ahead[0]]) + ahead[1..] == behind + ahead;
  }

  /** The waiter at the cursor is kept. */
  function Passing(d: D.Descriptor): D.Descriptor {
    if d.ahead == [] then d else
      d.(behind := d.behind + [d.ahead[0]], ahead := d.ahead[1..], waiting := d.waiting + d.ahead[0].events,
         log := d.log + [D.Kept(d.ahead[0].id)])
  }

  /** The waiter at the cursor is resumed and its fiber does as `script` says. */
  function Resuming(d: D.Descriptor, matching: Events, script: D.Script): D.Descriptor {
    if d.ahead == [] then d else
      D.Run(d.(ahead := d.ahead[1..], log := d.log + [D.Resumed(d.ahead[0].id, matching)]), script)
  }

  lemma FinishedAgree(frames: map<nat, Link>, behind: seq<Link>, ahead: seq<Link>, d: D.Descriptor, fault: bool)
    requires Agree(frames, behind, ahead, d)
    ensures Agree(frames, behind, ahead, D.Finished(d, fault).0)
  {
    D.FinishedKeeps(d, fault);
  }

  lemma Alone(links: seq<Link>, k: nat)
    requires Ring(links) && k < |links|
    ensures links[k] !in RemovedAt(links, k)
  {
  }

  lemma CursorAtEnd(links: seq<Link>, list: Link, behind: seq<Link>, ahead: seq<Link>)
    requires Ring(links) && links == Chain(list, behind, [], ahead)
    ensures Cursor(list, ahead) == list <==> ahead == []
  {
    if ahead != [] {
      assert links[0] == list && links[1 + |behind|] == ahead[0];
    }
  }

  lemma AtCursor(frames: map<nat, Link>, behind: seq<Link>, ahead: seq<Link>, d: D.Descriptor)
    requires Agree(frames, behind, ahead, d) && ahead != []
    ensures d.ahead != [] && ahead[0].item == Some(d.ahead[0])
  {
  }

  lemma DeliversNothing(d: D.Descriptor)
    ensures Deliveries(Passing(d).log) == Deliveries(d.log)
  {
    if d.ahead != [] { DeliveriesThen(d.log, D.Kept(d.ahead[0].id)); }
  }

  lemma NotListed(frames: map<nat, Link>, behind: seq<Link>, ahead: seq<Link>, d: D.Descriptor, id: nat)
    requires Agree(frames, behind, ahead, d) && id !in frames
    ensures Gone(d, id) == d
  {
    forall i | 0 <= i < |d.behind| ensures d.behind[i].id != id {
      assert behind[i] in behind + ahead;
    }
    forall i | 0 <= i < |d.ahead| ensures d.ahead[i].id != id {
      assert ahead[i] in behind + ahead;
    }
    D.WithoutNone(d.behind, {id});
    D.WithoutNone(d.ahead, {id});
  }

  function CancelEntry(d: D.Descriptor, id: nat): D.Entry {
    if id in D.Ids(d.ahead) then D.Dropped(id) else D.Withdrawn(id)
  }

  /** A cancellation is the unlinking and a log entry. */
  lemma CancelLogs(d: D.Descriptor, id: nat)
    ensures D.Act(d, D.Cancel(id)) == Gone(d, id).(log := d.log + [CancelEntry(d, id)])
  {
  }

  lemma DistinctParts(d: D.Descriptor)
    requires D.WellFormed(d)
    ensures D.DistinctIds(d.behind) && D.DistinctIds(d.ahead)
    ensures forall v, w | v in d.behind && w in d.ahead :: v.id != w.id
  {
    forall i, j | 0 <= i < j < |d.ahead| ensures d.ahead[i].id != d.ahead[j].id {
      assert D.List(d)[|d.behind| + i] == d.ahead[i] && D.List(d)[|d.behind| + j] == d.ahead[j];
    }
    forall i, j | 0 <= i < j < |d.behind| ensures d.behind[i].id != d.behind[j].id {
      assert D.List(d)[i] == d.behind[i] && D.List(d)[j] == d.behind[j];
    }
    forall i, j | 0 <= i < |d.behind| && 0 <= j < |d.ahead| ensures d.behind[i].id != d.ahead[j].id {
      assert D.List(d)[i] == d.behind[i] && D.List(d)[|d.behind| + j] == d.ahead[j];
    }
  }

  /** What the log says fibers were resumed with. */
  function Deliveries(log: seq<D.Entry>): seq<(nat, Events)> {
    if log == [] then []
    else
      var e := log[|log| - 1];
      Deliveries(log[..|log| - 1]) + if e.Resumed? then [(e.id, e.matching)] else []
  }

  lemma DeliveriesResumed(log: seq<D.Entry>, id: nat, matching: Events)
    ensures Deliveries(log + [D.Resumed(id, matching)]) == Deliveries(log) + [(id, matching)]
  {
    DeliveriesThen(log, D.Resumed(id, matching));
  }

  lemma DeliveriesThen(log: seq<D.Entry>, e: D.Entry)
    ensures Deliveries(log + [e]) == Deliveries(log) + if e.Resumed? then [(e.id, e.matching)] else []
  {
    assert (log + [e])[..|log|] == log;
  }

  /** A fiber was given exactly what the log says it was resumed with. */
  lemma {:induction false} DeliveredExactly(log: seq<D.Entry>, id: nat, matching: Events)
    ensures (id, matching) in Deliveries(log) <==> D.Resumed(id, matching) in log
  {
    if log == [] {
    } else {
      DeliveredExactly(log[..|log| - 1], id, matching);
      assert log == log[..|log| - 1] + [log[|log| - 1]];
    }
  }

  lemma WidenedSound(d: D.Descriptor, events: Events, fault: bool)
    requires D.Sound(d)
    ensures D.Sound(D.Widened(d, events, fault).0)
  {
    var e := D.Widened(d, events, fault).0;
    D.RegisterKeeps(d, events, fault);
    assert D.List(e) == D.List(d);
  }

  /** What a registration leaves with the kernel. */
  lemma RegisterAsks(d: D.Descriptor, events: Events, fault: bool)
    requires D.Sound(d)
    ensures var (r, result) := D.Registered(d, events, fault);
            && (result == Failed ==> fault)
            && (result != Failed && r.backend.EPoll? && r.waiting != {} ==>
                  r.backend.kernel == Some(r.waiting) && r.backend.io == r.backend.open)
            && (result != Failed && r.backend.KQueue? ==> r.waiting * FILTERED <= r.backend.armed)
  {
    I.UpdateOutcome(d.backend, d.waiting + events, if d.backend.EPoll? then d.backend.open else 0, fault);
    if d.backend.EPoll? { UpdateSynchronises(d.backend, d.waiting + events, d.backend.open, fault); }
  }

  lemma WidenedAgree(frames: map<nat, Link>, behind: seq<Link>, ahead: seq<Link>, d: D.Descriptor,
                     events: Events, fault: bool)
    requires Agree(frames, behind, ahead, d)
    ensures Agree(frames, behind, ahead, D.Widened(d, events, fault).0)
  {
    WidenedSound(d, events, fault);
  }

  // ----- The descriptor -----

  class Descriptor {
    const list: Link
    var waitingEvents: Events
    var backend: Backend
    /** The waiting records of the suspended fibers, by number. */
    var frames: map<nat, Link>
    var nextId: nat
    /** The transfers to fibers so far, with the `ready` events stored in their records. */
    var transfers: seq<(nat, Events)>

    /** The list is the sentinel, then `behind`, the `saved` node during a transfer, and `ahead`. */
    ghost var links: seq<Link>
    ghost var behind: seq<Link>
    ghost var marker: seq<Link>
    ghost var ahead: seq<Link>
    ghost var model: D.Descriptor

    ghost predicate Valid()
      reads this, SetOf(links)
    {
      Ring(links) && links == Chain(list, behind, marker, ahead) && Agrees()
    }

    /** The lists and fields are those of the model. */
    ghost predicate Agrees()
      reads this`frames, this`behind, this`ahead, this`model
      reads this`waitingEvents, this`backend, this`nextId, this`transfers
    {
      Agree(frames, behind, ahead, model) && SameFields(model)
    }

    ghost predicate SameFields(d: D.Descriptor)
      reads this`waitingEvents, this`backend, this`nextId, this`transfers
    {
      && waitingEvents == d.waiting
      && backend == d.backend
      && nextId == d.nextId
      && transfers == Deliveries(d.log)
    }

    constructor (backend: Backend)
      requires backend == EPoll(0, {}, 1, None, false) || backend == KQueue({}, {}, {})
      ensures Valid() && marker == [] && model == D.Initial(backend)
      ensures fresh(SetOf(links))
    {
      list := new Node.Sentinel(None);
      this.backend := backend;
      waitingEvents, frames, nextId, transfers := {}, map[], 0, [];
      behind, marker, ahead := [], [], [];
      model := D.Initial(backend);
      links := [list];
    }

    // ----- Descriptor_update -----

    /** epoll_ctl: the kernel answers, and keeps what it accepted. */
    method Control(operation: Operation, mask: Events, fault: bool) returns (reply: Reply)
      requires backend.EPoll?
      modifies this`backend
      ensures reply == Interest.Control(old(backend).kernel, operation, mask, fault)
      ensures backend == if reply.Accepted? then old(backend).(kernel := reply.kernel) else old(backend)
    {
      reply := Interest.Control(backend.kernel, operation, mask, fault);
      if reply.Accepted? {
        backend := backend.(kernel := reply.kernel);
      }
    }

    /** IO_Event_Selector_EPoll_Descriptor_update. */
    method UpdateEPoll(io: nat, fault: bool) returns (result: Result)
      requires backend.EPoll?
      modifies this`backend
      ensures (backend, result) == Interest.UpdateEPoll(old(backend), waitingEvents, io, fault)
    {
      if backend.io == io {
        if backend.registered == waitingEvents {
          return Unchanged;
        }
      } else {
        backend := backend.(registered := {}, io := io);
      }
      if waitingEvents == {} {
        if backend.registered != {} {
          var _ := Control(Delete, {}, fault);
          backend := EPoll(backend.io, {}, backend.open, backend.kernel, backend.dropped);
        }
        backend := backend.(io := 0);
        return Unchanged;
      }
      var operation := if backend.registered != {} then Modify else Add;
      var reply := Control(operation, waitingEvents, fault);
      if reply.Refused? {
        if reply.errno == ENOENT {
          reply := Control(Add, waitingEvents, fault);
        } else if reply.errno == EEXIST {
          reply := Control(Modify, waitingEvents, fault);
        }
        if reply.Refused? {
          return Failed;
        }
      }
      backend := backend.(registered := waitingEvents, dropped := false);
      return Changed;
    }

    /** The EV_ADD | EV_ONESHOT changes of an update: every wanted filter once, in an array of three. */
    method Changes() returns (kevents: seq<Event>)
      ensures |kevents| <= 3
      ensures forall e :: e in kevents <==> e in waitingEvents && e in FILTERED
      ensures forall i, j | 0 <= i < j < |kevents| :: kevents[i] != kevents[j]
    {
      kevents := [];
      if Readable in waitingEvents { kevents := kevents + [Readable]; }
      if Writable in waitingEvents { kevents := kevents + [Writable]; }
      if Exit in waitingEvents { kevents := kevents + [Exit]; }
    }

    /** kevent with a list of changes: the kernel arms each of the filters, or refuses the call. */
    method Submit(kevents: seq<Event>, fault: bool)
      requires backend.KQueue?
      modifies this`backend
      ensures backend == if fault then old(backend) else old(backend).(armed := old(backend).armed + SetOf(kevents))
    {
      if !fault {
        var armed := backend.armed;
        for i := 0 to |kevents|
          invariant armed == backend.armed + SetOf(kevents[..i])
        {
          assert SetOf(kevents[..i + 1]) == SetOf(kevents[..i]) + {kevents[i]};
          armed := armed + {kevents[i]};
        }
        assert kevents[..|kevents|] == kevents;
        backend := backend.(armed := armed);
      }
    }

    /** IO_Event_Selector_KQueue_Descriptor_update; `kevents` is what it submits, if anything. */
    method UpdateKQueue(fault: bool) returns (result: Result, kevents: seq<Event>)
      requires backend.KQueue?
      modifies this`backend
      ensures (backend, result) == Interest.UpdateKQueue(old(backend), waitingEvents, fault)
      ensures SetOf(kevents) == waitingEvents * FILTERED && |kevents| == |SetOf(kevents)| <= 3
    {
      kevents := Changes();
      assert SetOf(kevents) == waitingEvents * FILTERED;
      DistinctSize(kevents);
      if |kevents| == 0 {
        return Unchanged, kevents;
      }
      assert kevents[0] in SetOf(kevents);
      Submit(kevents, fault);
      if fault {
        return Failed, kevents;
      }
      backend := KQueue(waitingEvents, backend.armed, backend.ready);
      return Changed, kevents;
    }

    method Update(io: nat, fault: bool) returns (result: Result)
      modifies this`backend
      ensures (backend, result) == Interest.Update(old(backend), waitingEvents, io, fault)
    {
      if backend.EPoll? {
        result := UpdateEPoll(io, fault);
      } else {
        var changes: seq<Event>;
        result, changes := UpdateKQueue(fault);
      }
    }

    // ----- The waiting list -----

    /** Links a record at the front of the list; its fiber is about to suspend. */
    method LinkFirst(link: Link, waiter: D.Waiter)
      requires Valid()
      requires link !in links && link.head == null && link.tail == null && link.item == Some(waiter)
      requires D.Sound(model.(behind := [waiter] + model.behind))
      modifies this`frames, this`behind, this`ahead, this`links, this`model, SetOf(links), link
      ensures Valid() && frames == old(frames)[waiter.id := link]
      ensures behind == [link] + old(behind) && ahead == old(ahead)
      ensures model == old(model).(behind := [waiter] + old(model).behind)
    {
      InsertedFirst(list, behind, marker, ahead, link);
      AgreeFirst(frames, behind, ahead, model, link, waiter);
      PrependFirst(link);
      frames := frames[waiter.id := link];
      Adopt([link] + behind, ahead, model.(behind := [waiter] + model.behind));
    }

    /** IO_Event_List_prepend after the sentinel. */
    method PrependFirst(link: Link)
      requires Ring(links) && links[0] == list && link !in links && link.head == null && link.tail == null
      modifies this`links, SetOf(links), link
      ensures links == Inserted(old(links), 1, link) && Ring(links)
    {
      Prepend(list, link, links, 1);
      links := Inserted(links, 1, link);
    }

    /** The first half of Waiting_register: the interest grows, and the kernel is told. */
    method Interested(events: Events, fault: bool) returns (result: Result)
      requires Valid()
      modifies this`waitingEvents, this`backend, this`nextId, this`model
      ensures Valid()
      ensures model == D.Widened(old(model), events, fault).0 && result == D.Widened(old(model), events, fault).1
      ensures waitingEvents == old(waitingEvents) + events && nextId == old(nextId) + 1
    {
      WidenedAgree(frames, behind, ahead, model, events, fault);
      model := D.Widened(model, events, fault).0;
      waitingEvents := waitingEvents + events;
      result := Update(if backend.EPoll? then backend.open else 0, fault);
      nextId := nextId + 1;
    }

    /** Waiting_register, for a record on the stack of the fiber that calls it. */
    method Register(events: Events, fault: bool) returns (result: Result)
      requires Valid()
      modifies this, SetOf(links)
      ensures Valid() && marker == old(marker) && ahead == old(ahead)
      ensures model == D.Registered(old(model), events, fault).0 && result == D.Registered(old(model), events, fault).1
      ensures forall n | n in links :: n in old(links) || fresh(n)
      ensures waitingEvents == old(waitingEvents) + events && nextId == old(nextId) + 1
      ensures result == Failed ==> fault && behind == old(behind) && frames == old(frames)
      ensures result != Failed ==>
                && behind != [] && behind[1..] == old(behind)
                && behind[0].item == Some(D.Waiter(old(nextId), events))
                && frames == old(frames)[old(nextId) := behind[0]]
      ensures result != Failed && backend.EPoll? && waitingEvents != {} ==>
                backend.kernel == Some(waitingEvents) && backend.io == backend.open
      ensures result != Failed && backend.KQueue? ==> waitingEvents * FILTERED <= backend.armed
    {
      RegisterAsks(model, events, fault);
      var waiter := D.Waiter(nextId, events);
      var link := new Node.Detached(Some(waiter));
      D.RegisterKeeps(model, events, fault);
      result := Interested(events, fault);
      if result != Failed {
        LinkFirst(link, waiter);
      }
    }

    /** IO_Event_List_pop of the node at `k`, which leaves `rest`. */
    method PopAt(link: Link, ghost k: nat, ghost rest: seq<Link>)
      requires Ring(links) && 0 < k < |links| && links[k] == link && RemovedAt(links, k) == rest
      modifies this`links, SetOf(links)
      ensures links == rest && Ring(links)
      ensures forall n | n in links :: n in old(links)
      ensures link.head == null && link.tail == null
    {
      Pop(link, links, k);
      links := rest;
    }

    /** The record of `id` leaves its stack; the lists have become `b` and `a`. */
    method Forget(id: nat, ghost b: seq<Link>, ghost a: seq<Link>)
      requires Ring(links) && links == Chain(list, b, marker, a)
      requires Agree(frames - {id}, b, a, Gone(model, id)) && SameFields(model)
      modifies this`frames, this`behind, this`ahead, this`model
      ensures Valid()
      ensures behind == b && ahead == a && model == Gone(old(model), id) && frames == old(frames) - {id}
    {
      frames := frames - {id};
      Adopt(b, a, Gone(model, id));
    }

    /** Waiting_cancel of a record that is in the list, wherever that is. */
    method Unlink(link: Link)
      requires Valid() && (link in behind || link in ahead)
      modifies this`frames, this`behind, this`ahead, this`links, this`model, SetOf(links)
      ensures Valid()
      ensures forall n | n in links :: n in old(links)
      ensures link.head == null && link.tail == null && link.item.Some?
      ensures model == Gone(old(model), link.item.value.id) && frames == old(frames) - {link.item.value.id}
    {
      ghost var at, b, a := Leaves(links, list, frames, behind, marker, ahead, model, link);
      PopAt(link, at, Chain(list, b, marker, a));
      Forget(link.item.value.id, b, a);
    }

    /** The log grows by an entry that delivers nothing. */
    ghost method Record(e: D.Entry)
      requires Valid() && !e.Resumed?
      modifies this`model
      ensures Valid() && model == old(model).(log := old(model).log + [e])
    {
      DeliveriesThen(model.log, e);
      Logged(frames, behind, ahead, model, e);
      model := model.(log := model.log + [e]);
    }

    /** Waiting_cancel, called by the fiber whose record it is; there is nothing to do once it has left. */
    method Cancel(id: nat)
      requires Valid()
      modifies this, SetOf(links)
      ensures Valid() && marker == old(marker)
      ensures model == D.Act(old(model), D.Cancel(id))
      ensures forall n | n in links :: n in old(links)
      ensures frames == old(frames) - {id} && waitingEvents == old(waitingEvents) && backend == old(backend)
    {
      CancelLogs(model, id);
      Withdraw(id);
      Record(CancelEntry(old(model), id));
    }

    /** The record leaves the list, if it is still there. */
    method Withdraw(id: nat)
      requires Valid()
      modifies this`frames, this`behind, this`ahead, this`links, this`model, SetOf(links)
      ensures Valid() && frames == old(frames) - {id}
      ensures model == Gone(old(model), id)
      ensures forall n | n in links :: n in old(links)
    {
      if id in frames {
        assert frames[id] in behind + ahead;
        Unlink(frames[id]);
      } else {
        NotListed(frames, behind, ahead, model, id);
      }
    }

    // ----- Fibers -----

    /** What a running fiber does to the descriptor, one action after the other. */
    method RunScript(script: D.Script)
      requires Valid()
      modifies this, SetOf(links)
      ensures Valid() && marker == old(marker)
      ensures model == D.Run(old(model), script)
      ensures forall n | n in links :: n in old(links) || fresh(n)
    {
      var i := 0;
      assert script[..0] == [];
      while i < |script|
        invariant 0 <= i <= |script|
        invariant Valid() && marker == old(marker)
        invariant model == D.Run(old(model), script[..i])
        invariant forall n | n in links :: n in old(links) || fresh(n)
      {
        assert script[..i + 1][..i] == script[..i];
        match script[i] {
          case Register(events, fault) => var _ := Register(events, fault);
          case Cancel(id) => Cancel(id);
          case Close => CloseDescriptor();
        }
        i := i + 1;
      }
      assert script[..i] == script;
    }

    /** The owner closes the descriptor and its number is reused; the selector is not told. */
    method CloseDescriptor()
      requires Valid()
      modifies this`backend, this`model
      ensures Valid() && model == D.Act(old(model), D.Close)
      ensures match old(backend)
              case EPoll(io, registered, open, _, _) => backend == EPoll(io, registered, open + 1, None, true)
              case KQueue(registered, armed, ready) =>
                backend == KQueue(registered, armed - {Readable, Writable}, ready)
    {
      Closed(frames, behind, ahead, model);
      backend := Reopen(backend);
      model := D.Act(model, D.Close);
    }

    /** IO_Event_Selector_loop_resume: the fiber at the cursor runs, unlinks its record and does as `script` says. */
    method Resume(link: Link, matching: Events, script: D.Script)
      requires Valid() && ahead != [] && link == ahead[0]
      modifies this, SetOf(links)
      ensures Valid() && marker == old(marker)
      ensures model == Resuming(old(model), matching, script)
      ensures forall n | n in links :: n in old(links) || fresh(n)
    {
      assert link.item == Some(model.ahead[0]);
      Transfer(link.item.value.id, matching);
      GoneFirst(model);
      Unlink(link);
      RunScript(script);
    }

    method Transfer(id: nat, matching: Events)
      requires Valid()
      modifies this`transfers, this`behind, this`ahead, this`model
      ensures Valid() && behind == old(behind) && ahead == old(ahead)
      ensures model == old(model).(log := old(model).log + [D.Resumed(id, matching)])
      ensures transfers == old(transfers) + [(id, matching)]
    {
      ghost var d := model.(log := model.log + [D.Resumed(id, matching)]);
      assert Agree(frames, behind, ahead, d) by { Logged(frames, behind, ahead, model, D.Resumed(id, matching)); }
      assert Deliveries(d.log) == transfers + [(id, matching)] by { DeliveriesResumed(model.log, id, matching); }
      transfers := transfers + [(id, matching)];
      Adopt(behind, ahead, d);
    }

    // ----- The handle loop -----

    /** IO_Event_List_append(node, saved): the loop marks its place before the node at the cursor. */
    method Mark(node: Link, saved: Link)
      requires Valid() && marker == [] && ahead != [] && node == ahead[0]
      requires saved !in links && saved.head == null && saved.tail == null
      modifies this`marker, this`links, saved, SetOf(links)
      ensures Valid() && marker == [saved]
      ensures forall n | n in links :: n in old(links) || n == saved
    {
      Marked(links, list, behind, ahead, saved);
      AppendAt(node, saved, 1 + |behind|);
      SetMarker([saved]);
    }

    /** The mark stands between the lists, or is gone. */
    ghost method SetMarker(m: seq<Link>)
      requires Ring(links) && links == Chain(list, behind, m, ahead) && Agrees()
      modifies this`marker
      ensures Valid() && marker == m
    {
      marker := m;
    }

    /** IO_Event_List_append before the node at `k`. */
    method AppendAt(node: Link, saved: Link, ghost k: nat)
      requires Ring(links) && 0 < k < |links| && node == After(links, k - 1)
      requires saved !in links && saved.head == null && saved.tail == null
      modifies this`links, SetOf(links), saved
      ensures links == Inserted(old(links), k, saved) && Ring(links)
    {
      Append(node, saved, links, k);
      links := Inserted(links, k, saved);
    }

    method DropMark(saved: Link, ghost at: nat, ghost rest: seq<Link>)
      requires Ring(links) && 0 < at < |links| && links[at] == saved && RemovedAt(links, at) == rest
      requires rest == Chain(list, behind, [], ahead) && Agrees()
      modifies this`marker, this`links, SetOf(links)
      ensures Valid() && marker == [] && links == rest
      ensures saved.head == null && saved.tail == null
      ensures forall n | n in links :: n in old(links)
    {
      PopAt(saved, at, rest);
      SetMarker([]);
    }

    /** The cursor moves to what follows the mark, which leaves the list. */
    method Unmark(saved: Link) returns (node: Link)
      requires Valid() && marker == [saved]
      modifies this`marker, this`links, SetOf(links)
      ensures Valid() && marker == [] && node == Cursor(list, ahead)
      ensures saved !in links && saved.head == null && saved.tail == null
      ensures forall n | n in links :: n in old(links)
    {
      Unmarked(links, list, behind, ahead, saved);
      node := saved.tail;
      Alone(links, 1 + |behind|);
      DropMark(saved, 1 + |behind|, Chain(list, behind, [], ahead));
    }

    /** The waiter at the cursor has nothing to do with the ready events. */
    method Pass(node: Link) returns (next: Link)
      requires Valid() && marker == [] && ahead != [] && node == ahead[0]
      requires D.Sound(Passing(model))
      modifies this`behind, this`ahead, this`model, this`waitingEvents
      ensures Valid() && next == Cursor(list, ahead)
      ensures model == Passing(old(model))
    {
      Passed(frames, links, list, behind, ahead, model);
      AtCursor(frames, behind, ahead, model);
      DeliversNothing(model);
      waitingEvents := waitingEvents + node.item.value.events;
      next := node.tail;
      Adopt(behind + [ahead[0]], ahead[1..], Passing(model));
    }

    /** The lists are read differently: `b` is behind the cursor and `a` ahead. */
    ghost method Adopt(b: seq<Link>, a: seq<Link>, d: D.Descriptor)
      requires Ring(links) && links == Chain(list, b, marker, a) && Agree(frames, b, a, d) && SameFields(d)
      modifies this`behind, this`ahead, this`model
      ensures Valid() && behind == b && ahead == a && model == d
    {
      behind, ahead, model := b, a, d;
    }

    /** The interest is forgotten and the cursor stands at the first waiter. */
    method StartPass() returns (node: Link)
      requires Valid() && marker == [] && ahead == []
      modifies this`behind, this`ahead, this`model, this`waitingEvents
      ensures Valid() && node == Cursor(list, ahead)
      ensures model == D.Start(old(model))
    {
      Started(frames, links, list, behind, model);
      assert After(links, 0) == links[0].tail;
      waitingEvents := {};
      node := list.tail;
      Adopt([], behind, D.Start(model));
    }

    /** The update that follows the pass, for the IO object registered by then. */
    method FinishPass(fault: bool) returns (result: Result)
      requires Valid() && marker == [] && ahead == []
      modifies this`backend, this`model
      ensures Valid()
      ensures model == D.Finished(old(model), fault).0 && result == D.Finished(old(model), fault).1
    {
      FinishedAgree(frames, behind, ahead, model, fault);
      model := D.Finished(model, fault).0;
      result := Update(if backend.EPoll? then backend.io else 0, fault);
    }

    method ResumeMarked(node: Link, saved: Link, matching: Events, script: D.Script)
      requires Valid() && marker == [] && ahead != [] && node == ahead[0]
      requires saved !in links && saved.head == null && saved.tail == null
      modifies this, SetOf(links), saved
      ensures Valid() && marker == [saved]
      ensures model == Resuming(old(model), matching, script)
      ensures forall n | n in links :: n in old(links) || n == saved || fresh(n)
    {
      Mark(node, saved);
      Resume(node, matching, script);
    }

    /** The fiber at the cursor runs while `saved` keeps the place in the list. */
    method Transferred(node: Link, saved: Link, matching: Events, script: D.Script) returns (next: Link)
      requires Valid() && marker == [] && ahead != [] && node == ahead[0]
      requires saved !in links && saved.head == null && saved.tail == null
      modifies this, SetOf(links), saved
      ensures Valid() && marker == [] && next == Cursor(list, ahead)
      ensures model == Resuming(old(model), matching, script)
      ensures saved !in links && saved.head == null && saved.tail == null
      ensures forall n | n in links :: n in old(links) || fresh(n)
    {
      ResumeMarked(node, saved, matching, script);
      next := Unmark(saved);
    }

    /** One turn of the loop. */
    method Visit(node: Link, saved: Link, ready: Events, script: D.Script) returns (next: Link)
      requires Valid() && marker == [] && ahead != [] && node == ahead[0] && node.item.Some?
      requires saved !in links && saved.head == null && saved.tail == null
      modifies this, SetOf(links), saved
      ensures Valid() && marker == [] && next == Cursor(list, ahead)
      ensures old(model.ahead) != [] && model == D.Visit(old(model), ready, script)
      ensures saved !in links && saved.head == null && saved.tail == null
      ensures forall n | n in links :: n in old(links) || fresh(n)
    {
      D.VisitKeeps(model, ready, script);
      AtCursor(frames, behind, ahead, model);
      var matching := node.item.value.events * ready;
      if matching != {} {
        next := Transferred(node, saved, matching, script);
      } else {
        next := Pass(node);
      }
    }

    /** The loop, and the update. */
    method PassAndUpdate(saved: Link, ready: Events, scripts: seq<D.Script>, fault: bool) returns (result: Result)
      requires Valid() && marker == [] && ahead == []
      requires saved !in links && saved.head == null && saved.tail == null
      modifies this, SetOf(links), saved
      ensures Valid() && marker == [] && ahead == []
      ensures model == D.Handled(old(model), ready, scripts, fault).0
      ensures result == D.Handled(old(model), ready, scripts, fault).1
      ensures saved !in links && saved.head == null && saved.tail == null
      ensures forall n | n in links :: n in old(links) || fresh(n)
    {
      var node := StartPass();
      ghost var start := model;
      var rest := scripts;
      CursorAtEnd(links, list, behind, ahead);
      while node != list
        invariant Valid() && marker == [] && node == Cursor(list, ahead)
        invariant node == list <==> ahead == []
        invariant D.Pass(start, ready, scripts) == D.Pass(model, ready, rest)
        invariant saved !in links && saved.head == null && saved.tail == null
        invariant forall n | n in links :: n in old(links) || fresh(n)
        decreases |model.ahead|
      {
        AtCursor(frames, behind, ahead, model);
        var resumes := node.item.value.events * ready != {} && rest != [];
        node := Visit(node, saved, ready, if resumes then rest[0] else []);
        rest := if resumes then rest[1..] else rest;
        CursorAtEnd(links, list, behind, ahead);
      }
      result := FinishPass(fault);
    }

    /** IO_Event_Selector_EPoll_handle, and the same in KQueue_handle. Afterwards exactly those events are asked for
        that a waiter kept on the way wants or a resumed fiber registered for, and if nothing fails the kernel watches
        for exactly those, unless a close went unnoticed. If no fiber acts, it is what the waiters left want. */
    method Handle(saved: Link, ready: Events, scripts: seq<D.Script>, fault: bool) returns (result: Result)
      requires Valid() && marker == [] && ahead == []
      requires saved !in links && saved.head == null && saved.tail == null
      modifies this, SetOf(links), saved
      ensures Valid() && marker == [] && ahead == []
      ensures model == D.Handled(old(model), ready, scripts, fault).0
      ensures result == D.Handled(old(model), ready, scripts, fault).1
      ensures saved !in links && saved.head == null && saved.tail == null
      ensures forall n | n in links :: n in old(links) || fresh(n)
      ensures old(model).log <= model.log && (result == Failed ==> fault)
      ensures forall e :: e in waitingEvents <==> I.StillWanted(old(model), model, scripts, e)
      ensures !fault && old(backend.EPoll? && I.Exact(backend) && I.Plain(backend, scripts)) ==>
                && backend.EPoll? && backend.registered == waitingEvents
                && backend.kernel == if waitingEvents == {} || backend.dropped then None else Some(waitingEvents)
      ensures !fault && old(I.Exact(backend)) && (forall s | s in scripts :: s == []) ==>
                && model.behind == I.Unmatched(old(model).behind, ready)
                && waitingEvents == I.Wants(model.behind)
                && match old(backend)
                   case EPoll(_, _, _, _, dropped) =>
                     backend.EPoll? && (!dropped ==>
                       backend.kernel == if waitingEvents == {} then None else Some(waitingEvents))
                   case KQueue(_, armed, _) => backend.KQueue? && backend.armed == armed + waitingEvents * FILTERED
    {
      I.HandleAsks(model, ready, scripts, fault);
      result := PassAndUpdate(saved, ready, scripts, fault);
    }

    // ----- KQueue -----

    /** The kernel hands over an armed one-shot filter; the first loop over the batch only collects it. */
    method Collect(filters: Events)
      requires Valid() && backend.KQueue?
      modifies this`backend, this`model
      ensures Valid() && old(model).backend.KQueue? && model == D.Deliver(old(model), filters)
      ensures backend.KQueue? && backend.armed == old(backend).armed - filters
      ensures backend.ready == old(backend).ready + filters * old(backend).armed
    {
      var delivered := filters * backend.armed;
      model := D.Deliver(model, filters);
      backend := backend.(armed := backend.armed - delivered, ready := backend.ready + delivered);
      assert D.List(model) == D.List(old(model));
    }

    /** IO_Event_Selector_KQueue_handle: nothing is left to do when an earlier entry of the batch took the events. */
    method KQueueHandle(saved: Link, scripts: seq<D.Script>, fault: bool) returns (result: Result)
      requires Valid() && marker == [] && ahead == [] && backend.KQueue?
      requires saved !in links && saved.head == null && saved.tail == null
      modifies this, SetOf(links), saved
      ensures Valid() && marker == [] && ahead == []
      ensures old(model).backend.KQueue? && model == D.KQueueHandle(old(model), scripts, fault).0
      ensures result == D.KQueueHandle(old(model), scripts, fault).1
      ensures saved !in links && saved.head == null && saved.tail == null
      ensures forall n | n in links :: n in old(links) || fresh(n)
      ensures backend.KQueue? && backend.ready == {} && old(model).log <= model.log && (result == Failed ==> fault)
      ensures old(backend).ready == {} ==>
                waitingEvents == old(waitingEvents) && backend == old(backend) && transfers == old(transfers)
      ensures old(backend).ready != {} ==>
                forall e :: e in waitingEvents <==> I.StillWanted(old(model), model, scripts, e)
      ensures old(backend).ready != {} && !fault && (forall s | s in scripts :: s == []) ==>
                && model.behind == I.Unmatched(old(model).behind, old(backend).ready)
                && waitingEvents == I.Wants(model.behind)
                && backend.armed == old(backend).armed + waitingEvents * FILTERED
    {
      D.HandleKeepsKind(model, scripts, fault);
      var ready := backend.ready;
      if ready == {} {
        return Unchanged;
      }
      Take(ready);
      result := Handle(saved, ready, scripts, fault);
    }

    method Take(ready: Events)
      requires Valid() && backend.KQueue?
      modifies this`backend, this`model
      ensures Valid() && old(model).backend.KQueue?
      ensures var b := old(model).backend;
              model == old(model).(backend := b.(ready := {}, registered := b.registered - ready))
    {
      backend := backend.(ready := {}, registered := backend.registered - ready);
      model := model.(backend := backend);
      assert D.List(model) == D.List(old(model));
    }
  }
}
