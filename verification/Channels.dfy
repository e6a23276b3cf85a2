/** Notification queues: bounded, dropping the oldest frame when full, and read with a timeout. */
module Channels {
  import opened Bytes

  // What a consumer finds when it waits: a frame, silence for longer than the timeout, or a queue that
  // has dropped frames.
  datatype Incoming = Arrived(data: bytes) | Silence | Overflowed

  datatype ChannelError = Overflow | Timeout | DeviceError(data: bytes) | WriteError

  datatype Queue = Queue(items: seq<bytes>, dropped: nat)

  function Put(q: Queue, data: bytes, maxsize: nat): Queue
  {
    if 0 < maxsize <= |q.items| then Queue(q.items[1..] + [data], q.dropped + 1) else q.(items := q.items + [data])
  }

  class ChannelQueue {
    const maxsize: nat
    var items: seq<bytes>
    var dropped: nat

    constructor (maxsize: nat)
      ensures this.maxsize == maxsize && Now() == Queue([], 0)
    {
      this.maxsize := maxsize;
      items, dropped := [], 0;
    }

    function Now(): Queue
      reads this
    {
      Queue(items, dropped)
    }

    predicate Full()
      reads this
    {
      0 < maxsize <= |items|
    }

    // The notification handler.
    method OnNotify(data: bytes)
      modifies this
      ensures Now() == Put(old(Now()), data, maxsize)
    {
      if Full() {
        items := items[1..];
        dropped := dropped + 1;
      }
      items := items + [data];
    }

    method Get() returns (data: bytes)
      requires items != []
      modifies this`items
      ensures old(items) == [data] + items
    {
      data := items[0];
      items := items[1..];
    }
  }

  // ---------------------------------------------------------------- any use

  datatype Operation = Notify(data: bytes) | Take

  // The queue, what was taken out of it, and everything that was ever notified.
  datatype History = History(queue: Queue, taken: seq<bytes>, notified: seq<bytes>)

  function Perform(h: History, op: Operation, maxsize: nat): History
  {
    match op
    case Notify(data) => h.(queue := Put(h.queue, data, maxsize), notified := h.notified + [data])
    case Take =>
      if h.queue.items == [] then h
      else h.(queue := h.queue.(items := h.queue.items[1..]), taken := h.taken + [h.queue.items[0]])
  }

  function PerformAll(h: History, ops: seq<Operation>, maxsize: nat): History
    decreases |ops|
  {
    if ops == [] then h else PerformAll(Perform(h, ops[0], maxsize), ops[1..], maxsize)
  }

  // Every notified frame was taken, waits, or was counted as dropped; the newest wait, in order; and
  // until a frame is dropped nothing is lost or reordered.
  ghost predicate Conserved(h: History, maxsize: nat)
  {
    && |h.taken| + |h.queue.items| + h.queue.dropped == |h.notified|
    && h.queue.items == h.notified[|h.notified| - |h.queue.items|..]
    && (h.queue.dropped == 0 ==> h.taken + h.queue.items == h.notified)
    && (maxsize > 0 ==> |h.queue.items| <= maxsize)
  }

  lemma NotifyConserves(h: History, data: bytes, maxsize: nat)
    requires Conserved(h, maxsize)
    ensures Conserved(Perform(h, Notify(data), maxsize), maxsize)
  {
    var items, next := h.queue.items, Perform(h, Notify(data), maxsize);
    var n := |h.notified|;
    if 0 < maxsize <= |items| {
      assert next.notified[n + 1 - |items|..] == h.notified[n - |items| + 1..] + [data];
      assert items[1..] == h.notified[n - |items| + 1..];
    } else {
      assert next.notified[n - |items|..] == h.notified[n - |items|..] + [data];
      AppendAssociates(h.taken, items, [data]);
    }
  }

  lemma TakeConserves(h: History, maxsize: nat)
    requires Conserved(h, maxsize) && h.queue.items != []
    ensures Conserved(Perform(h, Take, maxsize), maxsize)
  {
    var items := h.queue.items;
    assert items[1..] == h.notified[|h.notified| - |items| + 1..];
    assert items == [items[0]] + items[1..];
    AppendAssociates(h.taken, [items[0]], items[1..]);
  }

  lemma PerformConserves(h: History, op: Operation, maxsize: nat)
    requires Conserved(h, maxsize)
    ensures Conserved(Perform(h, op, maxsize), maxsize)
  {
    match op
    case Notify(data) => NotifyConserves(h, data, maxsize);
    case Take =>
      if h.queue.items != [] {
        TakeConserves(h, maxsize);
      }
  }

  lemma {:induction false} QueueConserves(h: History, ops: seq<Operation>, maxsize: nat)
    requires Conserved(h, maxsize)
    ensures Conserved(PerformAll(h, ops, maxsize), maxsize)
    decreases |ops|
  {
    if ops != [] {
      PerformConserves(h, ops[0], maxsize);
      QueueConserves(Perform(h, ops[0], maxsize), ops[1..], maxsize);
    }
  }

  function Notifications(data: seq<bytes>): seq<Operation>
  {
    if data == [] then [] else [Notify(data[0])] + Notifications(data[1..])
  }

  lemma {:induction false} UnreadCounts(h: History, data: seq<bytes>, maxsize: nat)
    requires maxsize > 0 && Conserved(h, maxsize) && h.taken == []
    requires h.queue.dropped > 0 ==> |h.queue.items| == maxsize
    ensures var r := PerformAll(h, Notifications(data), maxsize);
            r.taken == [] && r.notified == h.notified + data && (r.queue.dropped > 0 ==> |r.queue.items| == maxsize)
    decreases |data|
  {
    if data == [] {
      assert h.notified + data == h.notified;
    } else {
      var next := Perform(h, Notify(data[0]), maxsize);
      PerformConserves(h, Notify(data[0]), maxsize);
      UnreadCounts(next, data[1..], maxsize);
      assert Notifications(data)[1..] == Notifications(data[1..]);
      AppendAssociates(h.notified, [data[0]], data[1..]);
      assert [data[0]] + data[1..] == data;
    }
  }

  lemma UnreadIsNewest(h: History, data: seq<bytes>, maxsize: nat)
    requires maxsize > 0 && Conserved(h, maxsize) && h.taken == [] && h.notified == data
    requires h.queue.dropped > 0 ==> |h.queue.items| == maxsize
    ensures h.queue.items == (if |data| <= maxsize then data else data[|data| - maxsize..])
    ensures h.queue.dropped == |data| - |h.queue.items|
  {
    if |data| <= maxsize {
      assert data[0..] == data;
    }
  }

  // Unread, a queue of size m holds exactly the last m of n frames and has counted the other n - m.
  lemma UnreadQueueHoldsTheNewest(data: seq<bytes>, maxsize: nat)
    requires maxsize > 0
    ensures var q := PerformAll(History(Queue([], 0), [], []), Notifications(data), maxsize).queue;
            && q.items == (if |data| <= maxsize then data else data[|data| - maxsize..])
            && q.dropped == |data| - |q.items|
  {
    var h := History(Queue([], 0), [], []);
    UnreadCounts(h, data, maxsize);
    QueueConserves(h, Notifications(data), maxsize);
    assert [] + data == data;
    UnreadIsNewest(PerformAll(h, Notifications(data), maxsize), data, maxsize);
  }

  // ---------------------------------------------------------------- waiting

  // `_recv`: one frame, unless the channel failed.
  function Receive(inbox: seq<Incoming>, errors: set<bytes>): (r: (Result<bytes, ChannelError>, seq<Incoming>))
    ensures r.0.Ok? ==> |r.1| < |inbox| && inbox[0] == Arrived(r.0.value) && r.0.value !in errors
    ensures |r.1| <= |inbox|
  {
    if inbox == [] then (Err(Timeout), inbox) else
    match inbox[0]
    case Overflowed => (Err(Overflow), inbox)
    case Silence => (Err(Timeout), inbox[1..])
    case Arrived(data) => if data in errors then (Err(DeviceError(data)), inbox[1..]) else (Ok(data), inbox[1..])
  }

  // `_recv_until`: drops frames until the expected one.
  function Await(inbox: seq<Incoming>, expected: bytes, errors: set<bytes>): (Result<(), ChannelError>, seq<Incoming>)
    decreases |inbox|
  {
    match Receive(inbox, errors)
    case (Err(e), rest) => (Err(e), rest)
    case (Ok(data), rest) => if data == expected then (Ok(()), rest) else Await(rest, expected, errors)
  }

  method RecvUntil(inbox: seq<Incoming>, expected: bytes, errors: set<bytes>)
    returns (r: Result<(), ChannelError>, rest: seq<Incoming>)
    ensures (r, rest) == Await(inbox, expected, errors)
  {
    rest := inbox;
    while true
      invariant Await(rest, expected, errors) == Await(inbox, expected, errors)
      decreases |rest|
    {
      var (one, next) := Receive(rest, errors);
      if one.Err? {
        return Err(one.error), next;
      }
      rest := next;
      if one.value == expected {
        return Ok(()), rest;
      }
    }
  }

  // It succeeds exactly when the expected frame comes before anything that fails.
  lemma {:induction false} AwaitIff(inbox: seq<Incoming>, expected: bytes, errors: set<bytes>)
    ensures Await(inbox, expected, errors).0.Ok? <==>
              exists k :: 0 <= k < |inbox| && inbox[k] == Arrived(expected) && expected !in errors
                && forall j :: 0 <= j < k ==> inbox[j].Arrived? && inbox[j].data !in errors
    decreases |inbox|
  {
    if Receive(inbox, errors).0.Ok? && inbox[0] != Arrived(expected) {
      AwaitIff(inbox[1..], expected, errors);
      if k :| 0 <= k < |inbox| && inbox[k] == Arrived(expected) && expected !in errors
                && forall j :: 0 <= j < k ==> inbox[j].Arrived? && inbox[j].data !in errors {
        assert inbox[1..][k - 1] == inbox[k];
      }
      if k :| 0 <= k < |inbox[1..]| && inbox[1..][k] == Arrived(expected) && expected !in errors
                && forall j :: 0 <= j < k ==> inbox[1..][j].Arrived? && inbox[1..][j].data !in errors {
        assert inbox[k + 1] == Arrived(expected);
        assert forall j :: 1 <= j < k + 1 ==> inbox[j] == inbox[1..][j - 1];
      }
    }
  }
}
