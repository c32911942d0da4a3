/** The read loops of the three selectors (ext/io/event/selector/epoll.c and uring.c, lib/io/event/selector/select.rb):
    one behaviour, counted in three ways. */
module ReadLoop {

  newtype byte = x: int | 0 <= x < 256

  type Errno = x: int | 0 < x witness 1

  const EINVAL: Errno := 22
  const EAGAIN: Errno := 11

  /** What one read call finds: up to `count` bytes, the end of the stream, or an error; EAGAIN is nothing yet. */
  datatype Reply = Bytes(count: nat) | End | Failed(errno: Errno)

  datatype Outcome = Total(count: nat) | Error(errno: Errno)

  /** The outcome of a whole io_read, the bytes it took from the stream, whether it met the end, and the replies that no
      call has met. */
  datatype Result = Result(outcome: Outcome, taken: nat, end: bool, left: seq<Reply>)

  function Min(a: nat, b: nat): nat {
    if a < b then a else b
  }

  /** The reply to the next call; after the last one the stream ends. */
  function Next(replies: seq<Reply>): Reply {
    if replies == [] then End else replies[0]
  }

  function Later(replies: seq<Reply>): seq<Reply> {
    if replies == [] then [] else replies[1..]
  }

  /** How many bytes a call with room for `max` gets out of `available` ones. */
  function Got(reply: Reply, max: nat, available: nat): (n: nat)
    ensures n <= max && n <= available
  {
    if reply.Bytes? then Min(reply.count, Min(max, available)) else 0
  }

  /** What the call returns: the number of bytes, or minus the error. */
  function Returned(reply: Reply, max: nat, available: nat): int {
    if reply.Failed? then 0 - reply.errno else Got(reply, max, available)
  }

  // ----- The behaviour -----

  /** Reads until `length` bytes are there, the room is used up, the stream ends, or a call fails. */
  function Reads(replies: seq<Reply>, available: nat, room: nat, length: nat, total: nat): (r: Result)
    requires total <= room && total <= available
    decreases |replies|
  {
    if total == room then Result(Total(total), total, false, replies)
    else
      match Next(replies)
      case End => Result(Total(total), total, true, Later(replies))
      case Failed(errno) =>
        if errno == EAGAIN && length > 0 then Reads(Later(replies), available, room, length, total)
        else Result(Error(errno), total, false, Later(replies))
      case Bytes(_) =>
        var n := Got(Next(replies), room - total, available - total);
        if n == 0 then Result(Total(total), total, true, Later(replies))
        else if total + n >= length then Result(Total(total + n), total + n, false, Later(replies))
        else Reads(Later(replies), available, room, length, total + n)
  }

  /** io_read: the offset is checked first. */
  function IoRead(replies: seq<Reply>, available: nat, size: nat, length: nat, offset: nat): Result {
    if offset > size then Result(Error(EINVAL), 0, false, replies)
    else if offset == size then Result(Total(0), 0, false, replies)
    else Reads(replies, available, size - offset, length, 0)
  }

  /** The buffer once `n` bytes of the stream are at `offset`, and nothing else changed. */
  function Filled(buffer: seq<byte>, offset: nat, stream: seq<byte>, n: nat): (r: seq<byte>)
    requires offset + n <= |buffer| && n <= |stream|
    ensures |r| == |buffer|
    ensures forall k | 0 <= k < |r| :: r[k] == if offset <= k < offset + n then stream[k - offset] else buffer[k]
  {
    if n == 0 then buffer else Filled(buffer, offset, stream, n - 1)[offset + n - 1 := stream[n - 1]]
  }

  // ----- Laws -----

  /** All that the calls have to give. */
  function Offered(replies: seq<Reply>): nat {
    if replies == [] then 0 else (if replies[0].Bytes? then replies[0].count else 0) + Offered(replies[1..])
  }

  predicate Ends(reply: Reply) {
    reply == End || reply == Bytes(0)
  }

  /** A successful read has at least `length` bytes, or all there is room for, unless the stream ended: a call said so,
      or everything in the stream or on offer was taken. */
  lemma {:induction false} EnoughUnlessEnd(replies: seq<Reply>, available: nat, room: nat, length: nat, total: nat)
    requires total <= room && total <= available
    ensures var r := Reads(replies, available, room, length, total);
            && total <= r.taken <= room && r.taken <= available
            && (r.outcome.Total? ==> r.outcome.count == r.taken)
            && (r.outcome.Total? && !r.end ==> r.taken >= Min(length, room))
            && (r.end ==> r.outcome.Total?)
            && (r.end ==>
                  r.taken == available || r.taken == total + Offered(replies) || exists q :: q in replies && Ends(q))
    decreases |replies|
  {
    if total >= room || replies == [] {
    } else {
      var n := Got(replies[0], room - total, available - total);
      assert replies[0] in replies && forall q | q in Later(replies) :: q in replies;
      if replies[0] == Failed(EAGAIN) && length > 0 {
        EnoughUnlessEnd(Later(replies), available, room, length, total);
      } else if replies[0].Bytes? && 0 < n && total + n < length {
        EnoughUnlessEnd(Later(replies), available, room, length, total + n);
      } else {
        assert Ends(replies[0]) || !(replies[0].Bytes? && n == 0) || total == available;
      }
    }
  }

  // ----- When a read stops -----

  /** The bytes that are there after the first `i` calls: what they offered, as far as the stream and the room go. */
  function Taken(replies: seq<Reply>, available: nat, room: nat, total: nat, i: nat): nat
    requires i <= |replies|
  {
    Min(total + Offered(replies[..i]), Min(available, room))
  }

  /** Call `i` is the last: it meets the end or an error, it finds nothing, or it brings the bytes to `length` or to the
      room. */
  predicate Stops(replies: seq<Reply>, available: nat, room: nat, length: nat, total: nat, i: nat)
    requires i < |replies|
  {
    match replies[i]
    case End => true
    case Failed(errno) => errno != EAGAIN || length == 0
    case Bytes(_) =>
      var before, now := Taken(replies, available, room, total, i), Taken(replies, available, room, total, i + 1);
      now == before || now >= Min(length, room)
  }

  /** Call `k` is the first that stops; or none does, and the stream ends after the last reply. */
  ghost predicate StopsAt(replies: seq<Reply>, available: nat, room: nat, length: nat, total: nat, k: nat) {
    && k <= |replies|
    && (forall i | 0 <= i < k :: !Stops(replies, available, room, length, total, i))
    && (k < |replies| ==> Stops(replies, available, room, length, total, k))
  }

  /** What a read that stops at `k` comes to. */
  function Stopped(replies: seq<Reply>, available: nat, room: nat, total: nat, k: nat): Result
    requires k <= |replies|
  {
    if k == |replies| then
      var n := Taken(replies, available, room, total, k);
      Result(Total(n), n, true, [])
    else
      var before, now := Taken(replies, available, room, total, k), Taken(replies, available, room, total, k + 1);
      if replies[k].Failed? then Result(Error(replies[k].errno), now, false, replies[k + 1..])
      else Result(Total(now), now, now == before, replies[k + 1..])
  }

  /** One reply is met, and the counting goes on behind it. */
  lemma TakenOn(replies: seq<Reply>, available: nat, room: nat, total: nat, i: nat)
    requires replies != [] && i < |replies| && total <= room && total <= available
    ensures var n := Got(replies[0], room - total, available - total);
            Taken(replies, available, room, total, i + 1) == Taken(replies[1..], available, room, total + n, i)
  {
    assert replies[..i + 1] == [replies[0]] + replies[1..][..i];
    assert Offered(replies[..i + 1])
        == (if replies[0].Bytes? then replies[0].count else 0) + Offered(replies[1..][..i]);
  }

  lemma StopsOn(replies: seq<Reply>, available: nat, room: nat, length: nat, total: nat, i: nat)
    requires replies != [] && i < |replies| - 1 && total <= room && total <= available
    ensures var n := Got(replies[0], room - total, available - total);
            Stops(replies, available, room, length, total, i + 1)
            <==> Stops(replies[1..], available, room, length, total + n, i)
  {
    TakenOn(replies, available, room, total, i);
    TakenOn(replies, available, room, total, i + 1);
  }

  lemma StopsAtOn(replies: seq<Reply>, available: nat, room: nat, length: nat, total: nat, k: nat)
    requires StopsAt(replies, available, room, length, total, k) && 0 < k && total <= room && total <= available
    ensures var n := Got(replies[0], room - total, available - total);
            && StopsAt(replies[1..], available, room, length, total + n, k - 1)
            && Stopped(replies, available, room, total, k) == Stopped(replies[1..], available, room, total + n, k - 1)
  {
    var now := total + Got(replies[0], room - total, available - total);
    forall i | 0 <= i < k - 1 ensures !Stops(replies[1..], available, room, length, now, i) {
      StopsOn(replies, available, room, length, total, i);
    }
    if k < |replies| {
      StopsOn(replies, available, room, length, total, k - 1);
      TakenOn(replies, available, room, total, k);
      assert replies[1..][k..] == replies[k + 1..];
    }
    TakenOn(replies, available, room, total, k - 1);
  }

  lemma TakenAtStart(replies: seq<Reply>, available: nat, room: nat, total: nat)
    requires total <= room && total <= available
    ensures Taken(replies, available, room, total, 0) == total
    ensures replies != [] ==>
              Taken(replies, available, room, total, 1) == total + Got(replies[0], room - total, available - total)
  {
    if replies != [] { TakenOn(replies, available, room, total, 0); }
  }

  lemma {:induction false} ReadsStopAt(replies: seq<Reply>, available: nat, room: nat, length: nat, total: nat, k: nat)
    requires total < room && total <= available && StopsAt(replies, available, room, length, total, k)
    ensures Reads(replies, available, room, length, total) == Stopped(replies, available, room, total, k)
    decreases |replies|
  {
    TakenAtStart(replies, available, room, total);
    if k == 0 {
    } else {
      assert !Stops(replies, available, room, length, total, 0);
      StopsAtOn(replies, available, room, length, total, k);
      ReadsStopAt(replies[1..], available, room, length, Taken(replies, available, room, total, 1), k - 1);
    }
  }

  /** io_read, without a loop: beyond the buffer it fails, at its end it reads nothing, and otherwise it makes calls up
      to and including the first that stops, keeps what they gave, and reports that, or the error that stopped it. */
  lemma IoReadExactly(replies: seq<Reply>, available: nat, size: nat, length: nat, offset: nat, k: nat)
    ensures var r := IoRead(replies, available, size, length, offset);
            && (offset > size ==> r == Result(Error(EINVAL), 0, false, replies))
            && (offset == size ==> r == Result(Total(0), 0, false, replies))
            && (offset < size && StopsAt(replies, available, size - offset, length, 0, k) ==>
                  r == Stopped(replies, available, size - offset, 0, k))
  {
    if offset < size && StopsAt(replies, available, size - offset, length, 0, k) {
      ReadsStopAt(replies, available, size - offset, length, 0, k);
    }
  }

  /** There is such a call in every case. */
  lemma {:induction false} StopsSomewhere(replies: seq<Reply>, available: nat, room: nat, length: nat, from: nat)
    returns (k: nat)
    requires from <= |replies| && forall i | 0 <= i < from :: !Stops(replies, available, room, length, 0, i)
    ensures StopsAt(replies, available, room, length, 0, k)
    decreases |replies| - from
  {
    if from == |replies| || Stops(replies, available, room, length, 0, from) {
      k := from;
    } else {
      k := StopsSomewhere(replies, available, room, length, from + 1);
    }
  }

  /** `r` is what an io_read comes to whose call `k` is the first that stops. */
  ghost predicate IsStopped(r: Result, replies: seq<Reply>, available: nat, size: nat, length: nat, offset: nat,
                            k: nat) {
    && offset < size
    && StopsAt(replies, available, size - offset, length, 0, k)
    && r == Stopped(replies, available, size - offset, 0, k)
  }

  lemma IoReadStops(replies: seq<Reply>, available: nat, size: nat, length: nat, offset: nat) returns (k: nat)
    requires offset < size
    ensures IsStopped(IoRead(replies, available, size, length, offset), replies, available, size, length, offset, k)
  {
    k := StopsSomewhere(replies, available, size - offset, length, 0);
    IoReadExactly(replies, available, size, length, offset, k);
  }

  /** A successful io_read has `length` bytes, or all the buffer has room for, unless the stream ended; and it makes no
      call once they are there. */
  lemma EnoughAndNoMore(replies: seq<Reply>, available: nat, size: nat, length: nat, offset: nat, i: nat)
    requires offset < size && 0 < i <= |replies|
    ensures var r, enough := IoRead(replies, available, size, length, offset), Min(length, size - offset);
            && (r.outcome.Total? && !r.end ==> r.taken >= enough)
            && (Taken(replies, available, size - offset, 0, i) >= enough ==> |r.left| >= |replies| - i)
  {
    var room := size - offset;
    EnoughUnlessEnd(replies, available, room, length, 0);
    var k := StopsSomewhere(replies, available, room, length, 0);
    IoReadExactly(replies, available, size, length, offset, k);
    if k >= i && Taken(replies, available, room, 0, i) >= Min(length, room) {
      WaitsOrLacks(replies, available, room, length, i);
    }
  }

  /** As long as no call stopped, the bytes are short of what is enough, unless nothing has come yet. */
  lemma {:induction false} WaitsOrLacks(replies: seq<Reply>, available: nat, room: nat, length: nat, i: nat)
    requires i <= |replies| && room > 0 && forall j | 0 <= j < i :: !Stops(replies, available, room, length, 0, j)
    ensures i > 0 ==> Taken(replies, available, room, 0, i) < Min(length, room)
  {
    if i == 0 {
    } else {
      WaitsOrLacks(replies, available, room, length, i - 1);
      assert !Stops(replies, available, room, length, 0, i - 1);
      if replies[i - 1].Failed? {
        OfferedThen(replies[..i - 1], replies[i - 1]);
        assert replies[..i] == replies[..i - 1] + [replies[i - 1]];
      }
    }
  }

  lemma {:induction false} OfferedThen(replies: seq<Reply>, reply: Reply)
    ensures Offered(replies + [reply]) == Offered(replies) + if reply.Bytes? then reply.count else 0
  {
    if replies == [] {
    } else {
      OfferedThen(replies[1..], reply);
      assert (replies + [reply])[1..] == replies[1..] + [reply];
    }
  }

  /** Waiting for the descriptor changes nothing: the outcome is that of the calls that found something. */
  lemma {:induction false} WaitingIsInvisible(replies: seq<Reply>, available: nat, room: nat, length: nat, total: nat)
    requires total <= room && total <= available && length > 0
    ensures var r := Reads(replies, available, room, length, total);
            Reads(Found(replies), available, room, length, total) == r.(left := Found(r.left))
    decreases |replies|
  {
    if replies == [] || total >= room {
    } else {
      var n := Got(replies[0], room - total, available - total);
      if replies[0] == Failed(EAGAIN) {
        WaitingIsInvisible(replies[1..], available, room, length, total);
      } else {
        assert Found(replies)[1..] == Found(replies[1..]);
        if replies[0].Bytes? && 0 < n && total + n < length {
          WaitingIsInvisible(replies[1..], available, room, length, total + n);
        }
      }
    }
  }

  function Found(replies: seq<Reply>): seq<Reply> {
    if replies == [] then []
    else if replies[0] == Failed(EAGAIN) then Found(replies[1..])
    else [replies[0]] + Found(replies[1..])
  }

  /** What one call contributes, told by the number it returns. */
  lemma ReadsStep(replies: seq<Reply>, available: nat, room: nat, length: nat, total: nat, result: int)
    requires total < room && total <= available
    requires result == Returned(Next(replies), room - total, available - total)
    ensures var r := Reads(replies, available, room, length, total);
            if result > 0 then
              && replies != [] && total + result <= room && total + result <= available
              && if total + result < length then r == Reads(Later(replies), available, room, length, total + result)
                 else r == Result(Total(total + result), total + result, false, Later(replies))
            else if result == 0 then r == Result(Total(total), total, true, Later(replies))
            else if length > 0 && -result == EAGAIN then
              replies != [] && r == Reads(Later(replies), available, room, length, total)
            else r == Result(Error(-result), total, false, Later(replies))
  {
  }

  // ----- The loops -----

  /** read(2): up to `max` bytes of the stream from `position` on are stored at `at`. */
  method Read(buffer: array<byte>, at: nat, max: nat, stream: seq<byte>, position: nat, reply: Reply)
    returns (result: int)
    requires at + max <= buffer.Length && position <= |stream|
    modifies buffer
    ensures result == Returned(reply, max, |stream| - position)
    ensures var n := Got(reply, max, |stream| - position);
            forall k | 0 <= k < buffer.Length ::
              buffer[k] == if at <= k < at + n then stream[position + k - at] else old(buffer[k])
  {
    var n := Got(reply, max, |stream| - position);
    var i := 0;
    while i < n
      invariant 0 <= i <= n
      invariant forall k | 0 <= k < buffer.Length ::
                  buffer[k] == if at <= k < at + i then stream[position + k - at] else old(buffer[k])
    {
      buffer[at + i] := stream[position + i];
      i := i + 1;
    }
    result := Returned(reply, max, |stream| - position);
  }

  ghost predicate Stored(buffer: seq<byte>, before: seq<byte>, offset: nat, stream: seq<byte>, n: nat) {
    offset + n <= |before| && n <= |stream| && buffer == Filled(before, offset, stream, n)
  }

  /** One more read right behind the bytes that are there. */
  method ReadOn(buffer: array<byte>, offset: nat, total: nat, max: nat, stream: seq<byte>, reply: Reply,
                ghost before: seq<byte>) returns (result: int)
    requires offset + total + max <= buffer.Length && total <= |stream|
    requires Stored(buffer[..], before, offset, stream, total)
    modifies buffer
    ensures result == Returned(reply, max, |stream| - total)
    ensures Stored(buffer[..], before, offset, stream, total + if result > 0 then result else 0)
  {
    result := Read(buffer, offset + total, max, stream, total, reply);
  }

  /** io_read_loop of epoll.c: `maximum_size` and `length` count down. */
  method EPollLoop(buffer: array<byte>, length: nat, offset: nat, stream: seq<byte>, replies: seq<Reply>)
    returns (outcome: Outcome, left: seq<Reply>)
    requires offset <= buffer.Length
    modifies buffer
    ensures var r := Reads(replies, |stream|, buffer.Length - offset, length, 0);
            outcome == r.outcome && left == r.left && Stored(buffer[..], old(buffer[..]), offset, stream, r.taken)
  {
    var remaining: nat, total: nat, maximumSize: nat := length, 0, buffer.Length - offset;
    left := replies;
    ghost var before := buffer[..];
    ghost var size := buffer.Length - offset;
    ghost var reference := Reads(replies, |stream|, size, length, 0);
    while maximumSize != 0
      invariant total + maximumSize == size && total <= |stream| && length == remaining + total
      invariant reference == Reads(left, |stream|, size, length, total)
      invariant Stored(buffer[..], before, offset, stream, total)
      invariant length > 0 ==> remaining > 0
      decreases |left|
    {
      var result := ReadOn(buffer, offset, total, maximumSize, stream, Next(left), before);
      ReadsStep(left, |stream|, size, length, total, result);
      left := Later(left);
      if result > 0 {
        total := total + result;
        if result >= remaining { break; }
        maximumSize := maximumSize - result;
        remaining := remaining - result;
      } else if result == 0 {
        break;
      } else if remaining > 0 && -result == EAGAIN {
        // The fiber waits until the descriptor is readable.
      } else {
        return Error(-result), left;
      }
    }
    outcome := Total(total);
  }

  /** The state after io_read: what it took is at the offset, and nothing else changed. */
  ghost predicate After(buffer: seq<byte>, before: seq<byte>, offset: nat, stream: seq<byte>, r: Result) {
    if offset > |before| then buffer == before else Stored(buffer, before, offset, stream, r.taken)
  }

  /** IO_Event_Selector_EPoll_io_read. */
  method EPollRead(buffer: array<byte>, length: nat, offset: nat, stream: seq<byte>, replies: seq<Reply>)
    returns (outcome: Outcome, left: seq<Reply>)
    modifies buffer
    ensures offset > buffer.Length ==> outcome == Error(EINVAL) && left == replies
    ensures offset == buffer.Length ==> outcome == Total(0) && left == replies
    ensures var r := IoRead(replies, |stream|, buffer.Length, length, offset);
            && outcome == r.outcome && left == r.left && After(buffer[..], old(buffer[..]), offset, stream, r)
            && (offset < buffer.Length ==>
                  exists k :: IsStopped(r, replies, |stream|, buffer.Length, length, offset, k))
  {
    if offset > buffer.Length {
      return Error(EINVAL), replies;
    } else if offset == buffer.Length {
      return Total(0), replies;
    }
    ghost var k := IoReadStops(replies, |stream|, buffer.Length, length, offset);
    outcome, left := EPollLoop(buffer, length, offset, stream, replies);
  }

  /** The loop of IO_Event_Selector_URing_io_read and io_pread: `offset` moves and `maximum_size` follows it. */
  method URingLoop(buffer: array<byte>, length: nat, start: nat, stream: seq<byte>, replies: seq<Reply>)
    returns (outcome: Outcome, left: seq<Reply>)
    requires start <= buffer.Length
    modifies buffer
    ensures var r := Reads(replies, |stream|, buffer.Length - start, length, 0);
            outcome == r.outcome && left == r.left && Stored(buffer[..], old(buffer[..]), start, stream, r.taken)
  {
    var remaining: nat, offset: nat, total: nat := length, start, 0;
    var maximumSize: nat := buffer.Length - offset;
    left := replies;
    ghost var before := buffer[..];
    ghost var reference := Reads(replies, |stream|, buffer.Length - start, length, 0);
    while maximumSize != 0
      invariant offset == start + total && maximumSize == buffer.Length - offset
      invariant total <= |stream| && length == remaining + total
      invariant reference == Reads(left, |stream|, buffer.Length - start, length, total)
      invariant Stored(buffer[..], before, start, stream, total)
      invariant length > 0 ==> remaining > 0
      decreases |left|
    {
      var result := ReadOn(buffer, start, total, maximumSize, stream, Next(left), before);
      ReadsStep(left, |stream|, buffer.Length - start, length, total, result);
      left := Later(left);
      if result > 0 {
        total := total + result;
        offset := offset + result;
        if result >= remaining { break; }
        remaining := remaining - result;
      } else if result == 0 {
        break;
      } else if remaining > 0 && -result == EAGAIN {
        // The fiber waits until the descriptor is readable.
      } else {
        return Error(-result), left;
      }
      maximumSize := buffer.Length - offset;
    }
    outcome := Total(total);
  }

  /** IO_Event_Selector_URing_io_read: a length of zero is one read that does not block. */
  method URingRead(buffer: array<byte>, length: nat, offset: nat, stream: seq<byte>, replies: seq<Reply>)
    returns (outcome: Outcome, left: seq<Reply>)
    modifies buffer
    ensures offset > buffer.Length ==> outcome == Error(EINVAL) && left == replies
    ensures offset == buffer.Length ==> outcome == Total(0) && left == replies
    ensures var r := IoRead(replies, |stream|, buffer.Length, length, offset);
            && outcome == r.outcome && left == r.left && After(buffer[..], old(buffer[..]), offset, stream, r)
            && (offset < buffer.Length ==>
                  exists k :: IsStopped(r, replies, |stream|, buffer.Length, length, offset, k))
  {
    if offset > buffer.Length {
      return Error(EINVAL), replies;
    } else if offset == buffer.Length {
      return Total(0), replies;
    }
    ghost var k := IoReadStops(replies, |stream|, buffer.Length, length, offset);
    if length == 0 {
      var result := ReadOn(buffer, offset, 0, buffer.Length - offset, stream, Next(replies), old(buffer[..]));
      return if result >= 0 then Total(result) else Error(-result), Later(replies);
    }
    outcome, left := URingLoop(buffer, length, offset, stream, replies);
  }

  /** The reply that ends the waiting. */
  function FirstFound(replies: seq<Reply>): Reply {
    Next(Found(replies))
  }

  /** The outcome of a loop that notices a full buffer by a last read only: if that may report errors, the reply that
      ends the waiting replaces the bytes that were read short of `length`. */
  function SelectOutcome(r: Result, room: nat, length: nat, strict: bool): Outcome {
    var last := FirstFound(r.left);
    if strict && r.outcome == Total(room) && room < length && last.Failed? then Error(last.errno) else r.outcome
  }

  /** The replies that such a last read leaves: it waits, and takes a reply only if that is an error. */
  function Drained(replies: seq<Reply>): seq<Reply> {
    if Next(replies) == Failed(EAGAIN) then Drained(Later(replies))
    else if Next(replies).Failed? then Later(replies)
    else replies
  }

  function SelectLeft(r: Result, room: nat, length: nat, strict: bool): seq<Reply> {
    if strict && r.outcome == Total(room) && room < length then Drained(r.left) else r.left
  }

  /** Four bytes fill the buffer, eight were asked for, and the last read fails: the four bytes are not reported. */
  lemma FilledBufferCanFail()
    ensures var r := IoRead([Bytes(4), Failed(5)], 10, 4, 8, 0);
            r.outcome == Total(4) && SelectOutcome(r, 4, 8, true) == Error(5)
  {
    var replies := [Bytes(4), Failed(5)];
    assert Later(replies) == [Failed(5)];
    assert Reads(replies, 10, 4, 8, 0) == Reads([Failed(5)], 10, 4, 8, 4);
  }

  lemma FoundLater(replies: seq<Reply>)
    ensures Next(replies) == Failed(EAGAIN) ==> FirstFound(Later(replies)) == FirstFound(replies)
    ensures Next(replies) != Failed(EAGAIN) ==> FirstFound(replies) == Next(replies)
  {
  }

  /** The loop has `total` bytes and `rest` to come on its way to `r`; with a full buffer only the last read is left. */
  ghost predicate Ahead(r: Result, rest: seq<Reply>, available: nat, room: nat, length: nat, total: nat, strict: bool) {
    && total <= room && total <= available
    && if total < room then r == Reads(rest, available, room, length, total)
       else
         && r.outcome == Total(room) && r.taken == room && FirstFound(r.left) == FirstFound(rest)
         && Drained(r.left) == Drained(rest) && (!strict ==> r.left == rest)
  }

  /** What `buffer.read` returns: without room it is 0, but a `strict` read reports the next error instead. */
  function SelectReturned(reply: Reply, max: nat, available: nat, strict: bool): int {
    if Meets(reply, max, strict) then Returned(reply, max, available) else 0
  }

  /** Whether it makes a call at all. */
  predicate Meets(reply: Reply, max: nat, strict: bool) {
    max > 0 || (strict && reply.Failed?)
  }

  lemma AheadStep(r: Result, rest: seq<Reply>, available: nat, room: nat, length: nat, total: nat,
                  strict: bool, result: int)
    requires Ahead(r, rest, available, room, length, total, strict) && 0 < room && (total > 0 ==> total < length)
    requires result == SelectReturned(Next(rest), room - total, available - total, strict)
    ensures var left := if Meets(Next(rest), room - total, strict) then Later(rest) else rest;
            if result > 0 then
              && rest != [] && total + result <= room && total + result <= available
              && if total + result < length then Ahead(r, left, available, room, length, total + result, strict)
                 else
                   && r.taken == total + result
                   && EndsWith(r, room, length, strict, Total(total + result), left)
            else if result == 0 then r.taken == total && EndsWith(r, room, length, strict, Total(total), left)
            else if length > 0 && -result == EAGAIN then
              rest != [] && left == Later(rest) && Ahead(r, left, available, room, length, total, strict)
            else r.taken == total && EndsWith(r, room, length, strict, Error(-result), left)
  {
    if total < room {
      ReadsStep(rest, available, room, length, total, result);
    } else {
      FoundLater(rest);
    }
  }

  /** The loop ends with `outcome`, and no call has met `left`. */
  ghost predicate EndsWith(r: Result, room: nat, length: nat, strict: bool, outcome: Outcome, left: seq<Reply>) {
    outcome == SelectOutcome(r, room, length, strict) && left == SelectLeft(r, room, length, strict)
  }

  /** The loop of Select#io_read: only `total` is compared with the length, so a full buffer shows as an empty read. */
  method SelectLoop(buffer: array<byte>, length: nat, start: nat, stream: seq<byte>, replies: seq<Reply>, strict: bool)
    returns (outcome: Outcome, left: seq<Reply>)
    requires start < buffer.Length
    modifies buffer
    ensures var r := Reads(replies, |stream|, buffer.Length - start, length, 0);
            && EndsWith(r, buffer.Length - start, length, strict, outcome, left)
            && Stored(buffer[..], old(buffer[..]), start, stream, r.taken)
  {
    var offset: nat, total: nat := start, 0;
    left := replies;
    var room := buffer.Length - start;
    ghost var before := buffer[..];
    ghost var reference := Reads(replies, |stream|, room, length, 0);
    while true
      invariant offset == start + total <= buffer.Length && total <= |stream| && (total > 0 ==> total < length)
      invariant Stored(buffer[..], before, start, stream, total)
      invariant Ahead(reference, left, |stream|, room, length, total, strict)
      decreases |left|
    {
      var result := SelectOnce(buffer, start, total, stream, Next(left), strict, before);
      AheadStep(reference, left, |stream|, room, length, total, strict, result);
      left := if Meets(Next(left), room - total, strict) then Later(left) else left;
      if result < 0 {
        if length > 0 && -result == EAGAIN {
          // The fiber waits until the IO is readable.
        } else {
          return Error(-result), left;
        }
      } else if result == 0 {
        break;
      } else {
        total := total + result;
        if total >= length { break; }
        offset := offset + result;
      }
    }
    outcome := Total(total);
  }

  method SelectOnce(buffer: array<byte>, start: nat, total: nat, stream: seq<byte>, reply: Reply, strict: bool,
                    ghost before: seq<byte>) returns (result: int)
    requires start + total <= buffer.Length && total <= |stream|
    requires Stored(buffer[..], before, start, stream, total)
    modifies buffer
    ensures result == SelectReturned(reply, buffer.Length - start - total, |stream| - total, strict)
    ensures Stored(buffer[..], before, start, stream, total + if result > 0 then result else 0)
  {
    var max := buffer.Length - start - total;
    result := 0;
    if Meets(reply, max, strict) {
      result := ReadOn(buffer, start, total, max, stream, reply, before);
    }
  }

  /** Select#io_read: the reference, except for a strict read that fills the buffer short of the length. */
  method SelectRead(buffer: array<byte>, length: nat, offset: nat, stream: seq<byte>, replies: seq<Reply>, strict: bool)
    returns (outcome: Outcome, left: seq<Reply>)
    modifies buffer
    ensures offset > buffer.Length ==> outcome == Error(EINVAL) && left == replies
    ensures offset == buffer.Length ==> outcome == Total(0) && left == replies
    ensures var r := IoRead(replies, |stream|, buffer.Length, length, offset);
            && After(buffer[..], old(buffer[..]), offset, stream, r)
            && (outcome != r.outcome <==>
                  strict && offset < buffer.Length && r.outcome == Total(buffer.Length - offset)
                  && buffer.Length - offset < length && FirstFound(r.left).Failed?)
            && (outcome != r.outcome ==> outcome == Error(FirstFound(r.left).errno))
            && (offset < buffer.Length ==>
                  && left == SelectLeft(r, buffer.Length - offset, length, strict)
                  && exists k :: IsStopped(r, replies, |stream|, buffer.Length, length, offset, k))
  {
    if offset > buffer.Length {
      return Error(EINVAL), replies;
    } else if offset == buffer.Length {
      return Total(0), replies;
    }
    ghost var k := IoReadStops(replies, |stream|, buffer.Length, length, offset);
    outcome, left := SelectLoop(buffer, length, offset, stream, replies, strict);
  }
}
