/** The interest a selector keeps registered with the kernel for one descriptor: the update steps of
    ext/io/event/selector/epoll.c and kqueue.c. Event masks are sets of events. */
module Interest {
  import opened Optional

  datatype Event = Readable | Priority | Writable | Exit

  type Events = set<Event>

  /** The events for which kqueue.c has a filter. */
  const FILTERED: Events := {Readable, Writable, Exit}

  /** What the selector and the kernel remember about one descriptor, apart from the waiting list.

      EPoll: `io` is the IO object last registered (0: none) and `open` the one that owns the descriptor now; an
      identity is never used again once its descriptor is closed. `kernel` is the registered mask, if any, and
      `dropped` records that the descriptor was closed since the kernel last accepted a mask.
      KQueue: `armed` are the one-shot filters armed in the kernel, `ready` the delivered but unhandled ones. */
  datatype Backend =
    | EPoll(io: nat, registered: Events, open: nat, kernel: Option<Events>, dropped: bool)
    | KQueue(registered: Events, armed: Events, ready: Events)

  // ----- The kernel: epoll_ctl -----

  datatype Operation = Add | Modify | Delete

  datatype Errno = ENOENT | EEXIST | OTHER

  datatype Reply = Accepted(kernel: Option<Events>) | Refused(errno: Errno)

  /** `fault`: a call that would be accepted fails for another reason. */
  function Control(kernel: Option<Events>, operation: Operation, mask: Events, fault: bool): (reply: Reply)
    ensures reply.Accepted? <==> !fault && (operation == Add <==> kernel == None)
    ensures reply.Accepted? ==> reply.kernel == if operation == Delete then None else Some(mask)
    ensures reply == Refused(ENOENT) <==> operation != Add && kernel == None
    ensures reply == Refused(EEXIST) <==> operation == Add && kernel != None
  {
    match (operation, kernel)
    case (Add, Some(_)) => Refused(EEXIST)
    case (Add, None) => if fault then Refused(OTHER) else Accepted(Some(mask))
    case (Modify, None) => Refused(ENOENT)
    case (Modify, Some(_)) => if fault then Refused(OTHER) else Accepted(Some(mask))
    case (Delete, None) => Refused(ENOENT)
    case (Delete, Some(_)) => if fault then Refused(OTHER) else Accepted(None)
  }

  // ----- Descriptor_update -----

  /** Failed is the -1 of the source; Changed tells whether the kernel accepted a new mask. */
  datatype Result = Failed | Unchanged | Changed

  function Update(b: Backend, waiting: Events, io: nat, fault: bool): (Backend, Result) {
    match b
    case EPoll(_, _, _, _, _) => UpdateEPoll(b, waiting, io, fault)
    case KQueue(_, _, _) => UpdateKQueue(b, waiting, fault)
  }

  function UpdateEPoll(b: Backend, waiting: Events, io: nat, fault: bool): (Backend, Result)
    requires b.EPoll?
  {
    if b.io == io && b.registered == waiting then (b, Unchanged)
    else
      var c := if b.io == io then b else b.(io := io, registered := {});
      if waiting == {} then
        if c.registered != {} then
          var kernel := match Control(c.kernel, Delete, {}, fault)
            case Accepted(kernel) => kernel
            case Refused(_) => c.kernel;
          (c.(io := 0, registered := {}, kernel := kernel), Unchanged)
        else
          (c.(io := 0), Unchanged)
      else
        var operation := if c.registered != {} then Modify else Add;
        match Retry(c.kernel, operation, waiting, fault)
        case Refused(_) => (c, Failed)
        case Accepted(kernel) => (c.(registered := waiting, kernel := kernel, dropped := false), Changed)
  }

  /** A missing entry is added instead of modified, an existing one modified instead of added. */
  function Retry(kernel: Option<Events>, operation: Operation, mask: Events, fault: bool): Reply {
    match Control(kernel, operation, mask, fault)
    case Refused(ENOENT) => Control(kernel, Add, mask, fault)
    case Refused(EEXIST) => Control(kernel, Modify, mask, fault)
    case reply => reply
  }

  function UpdateKQueue(b: Backend, waiting: Events, fault: bool): (Backend, Result)
    requires b.KQueue?
  {
    if waiting * FILTERED == {} then (b, Unchanged)
    else if fault then (b, Failed)
    else (b.(registered := waiting, armed := b.armed + waiting * FILTERED), Changed)
  }

  /** The descriptor is closed and its number belongs to a new IO: the kernel forgets the old registration. */
  function Reopen(b: Backend): Backend {
    match b
    case EPoll(_, _, open, _, _) => b.(open := open + 1, kernel := None, dropped := true)
    case KQueue(_, _, _) => b.(armed := b.armed - {Readable, Writable})
  }

  // ----- Laws -----

  /** What the bookkeeping is worth: as long as the descriptor was not closed since, a non-empty `registered` is
      exactly the kernel's mask. Being registered for the current owner implies that it was not. */
  ghost predicate Synchronised(b: Backend) {
    b.EPoll? ==>
      && b.open > 0 && b.io <= b.open
      && (b.io == b.open && b.registered != {} ==> !b.dropped)
      && (b.dropped ==> b.kernel == None)
      && (b.registered != {} && !b.dropped ==> b.kernel == Some(b.registered))
  }

  lemma UpdateSynchronises(b: Backend, waiting: Events, io: nat, fault: bool)
    requires Synchronised(b) && b.EPoll?
    requires io == b.open || io == b.io
    ensures Synchronised(Update(b, waiting, io, fault).0)
    ensures var (c, result) := Update(b, waiting, io, fault);
            && c.open == b.open
            && (result != Failed ==> c.registered == waiting)
            && (result == Changed ==> c.kernel == Some(waiting) && !c.dropped)
            && (io == b.open && waiting != {} && result != Failed ==> c.io == c.open && c.kernel == Some(waiting))
  {
  }
}
