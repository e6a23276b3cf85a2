/**
 * The inbound side of an encrypted MIOT session: `_recv_encrypted` acknowledges frames, collects the
 * parcels of long messages, and defers inline frames that arrive in between.
 */
module MiotTransport {
  import opened Bytes
  import opened Parcels

  const MAX_CAPTURED_FRAMES := 16
  const MAX_MIOT_PARCELS := 64
  const RCV_RDY: bytes := [0x00, 0x00, 0x01, 0x01]
  const RCV_OK: bytes := [0x00, 0x00, 0x01, 0x00]
  const OFFICIAL_ACK: bytes := [0x00, 0x00, 0x03, 0x00]
  const INLINE_CODE: bytes := [0x00, 0x00, 0x02, 0x00]
  const ANNOUNCE_CODE: bytes := [0x00, 0x00, 0x00, 0x00]

  datatype MiotFrame = MiotFrame(counter: nat, ciphertext: bytes)

  // What the notification queue yields: a frame, or nothing for longer than the timeout.
  datatype Arrival = Frame(data: bytes) | Quiet

  datatype TransportError =
    | BadParcelCount | TooManyInline | BadParcelIndex | MissingCounter | TimedOut | WriteFailed | AssertionFailed

  datatype Received = Delivered(frame: MiotFrame) | Blocked | Failed(error: TransportError)

  // `writable` more writes succeed before the link breaks; `written` is what was written so far;
  // `history` is the bounded diagnostic buffer.
  datatype Wire = Wire(
    inbox: seq<Arrival>, writable: nat, deferred: seq<MiotFrame>, history: seq<MiotFrame>, written: seq<bytes>)

  function Remember(history: seq<MiotFrame>, frame: MiotFrame): seq<MiotFrame>
  {
    var all := history + [frame];
    if |all| > MAX_CAPTURED_FRAMES then all[|all| - MAX_CAPTURED_FRAMES..] else all
  }

  function Acknowledged(w: Wire, ack: bytes): Wire
    requires w.writable > 0
  {
    w.(writable := w.writable - 1, written := w.written + [ack])
  }

  function Keep(w: Wire, frame: MiotFrame): Wire
  {
    w.(history := Remember(w.history, frame))
  }

  predicate IsInline(data: bytes)
  {
    |data| >= 6 && data[..4] == INLINE_CODE
  }

  function InlineFrame(data: bytes): MiotFrame
    requires |data| >= 6
  {
    MiotFrame(U16(data, 4), data[6..])
  }

  // An upper bound on the frames still to come.
  function Pending(w: Wire): nat
  {
    2 * |w.inbox| + |w.deferred|
  }

  function Receive(w: Wire): (r: (Received, Wire))
    ensures Pending(r.1) <= Pending(w)
    ensures r.0.Delivered? ==> Pending(r.1) < Pending(w)
  {
    if w.deferred != [] then (Delivered(w.deferred[0]), w.(deferred := w.deferred[1..])) else Scan(w)
  }

  function Scan(w: Wire): (r: (Received, Wire))
    ensures Pending(r.1) <= Pending(w)
    ensures r.0.Delivered? ==> Pending(r.1) < Pending(w)
    decreases |w.inbox|
  {
    if w.inbox == [] then (Blocked, w) else
    var next := w.(inbox := w.inbox[1..]);
    if w.inbox[0].Quiet? || |w.inbox[0].data| < 6 then Scan(next) else
    var data := w.inbox[0].data;
    if data[..4] == INLINE_CODE then
      if w.writable == 0 then (Failed(WriteFailed), next)
      else (Delivered(InlineFrame(data)), Keep(Acknowledged(next, OFFICIAL_ACK), InlineFrame(data)))
    else if data[..4] == ANNOUNCE_CODE then
      var expected := U16(data, 4);
      if !(1 <= expected <= MAX_MIOT_PARCELS) then (Failed(BadParcelCount), next)
      else if w.writable == 0 then (Failed(WriteFailed), next)
      else Collect(Acknowledged(next, RCV_RDY), expected, map[], None)
    else Scan(next)
  }

  function Collect(w: Wire, expected: nat, parts: Parts, counter: Option<nat>): (r: (Received, Wire))
    ensures Pending(r.1) <= Pending(w)
    decreases |w.inbox|
  {
    if |parts| >= expected then Complete(w, expected, parts, counter)
    else if w.inbox == [] then (Failed(TimedOut), w) else
    var next := w.(inbox := w.inbox[1..]);
    if w.inbox[0].Quiet? then (Failed(TimedOut), next) else
    var part := w.inbox[0].data;
    if IsInline(part) then
      if w.writable == 0 then (Failed(WriteFailed), next)
      else if |w.deferred| >= MAX_CAPTURED_FRAMES then (Failed(TooManyInline), Acknowledged(next, OFFICIAL_ACK))
      else Collect(Defer(next, InlineFrame(part)), expected, parts, counter)
    else if |part| < 2 then Collect(next, expected, parts, counter)
    else
      var idx := U16(part, 0);
      if !(1 <= idx <= expected) then (Failed(BadParcelIndex), next)
      else if idx != 1 then Collect(next, expected, parts[idx := part[2..]], counter)
      else if |part| < 4 then (Failed(MissingCounter), next)
      else Collect(next, expected, parts[1 := part[4..]], Some(U16(part, 2)))
  }

  function Defer(w: Wire, frame: MiotFrame): Wire
    requires w.writable > 0
  {
    Keep(Acknowledged(w, OFFICIAL_ACK), frame).(deferred := w.deferred + [frame])
  }

  function Complete(w: Wire, expected: nat, parts: Parts, counter: Option<nat>): (Received, Wire)
  {
    if w.writable == 0 then (Failed(WriteFailed), w) else
    var done := Acknowledged(w, RCV_OK);
    if counter.None? then (Failed(AssertionFailed), done) else
    var frame := MiotFrame(counter.value, Join(parts, 1, expected));
    (Delivered(frame), Keep(done, frame))
  }

  // -------------------------------------------------- the assertion never fails

  ghost predicate Collecting(expected: nat, parts: Parts, counter: Option<nat>)
  {
    expected >= 1 && InRange(parts, expected) && (counter.Some? <==> 1 in parts)
  }

  lemma {:induction false} CollectNeverAsserts(w: Wire, expected: nat, parts: Parts, counter: Option<nat>)
    requires Collecting(expected, parts, counter)
    ensures Collect(w, expected, parts, counter).0 != Failed(AssertionFailed)
    decreases |w.inbox|
  {
    if |parts| >= expected {
      if 1 !in parts {
        FewerWhenMissing(parts, expected, 1);
        assert false;
      }
    } else if w.inbox != [] && w.inbox[0].Frame? {
      var next, part := w.(inbox := w.inbox[1..]), w.inbox[0].data;
      if IsInline(part) {
        if w.writable > 0 && |w.deferred| < MAX_CAPTURED_FRAMES {
          CollectNeverAsserts(Defer(next, InlineFrame(part)), expected, parts, counter);
        }
      } else if |part| < 2 {
        CollectNeverAsserts(next, expected, parts, counter);
      } else if 1 <= U16(part, 0) <= expected {
        if U16(part, 0) != 1 {
          CollectNeverAsserts(next, expected, parts[U16(part, 0) := part[2..]], counter);
        } else if |part| >= 4 {
          CollectNeverAsserts(next, expected, parts[1 := part[4..]], Some(U16(part, 2)));
        }
      }
    }
  }

  // Whatever arrives, a message whose parcels are all there has its counter.
  lemma {:induction false} NeverAsserts(w: Wire)
    ensures Receive(w).0 != Failed(AssertionFailed)
    decreases |w.inbox|
  {
    if w.deferred == [] && w.inbox != [] {
      var next := w.(inbox := w.inbox[1..]);
      if w.inbox[0].Quiet? || |w.inbox[0].data| < 6 {
        NeverAsserts(next);
      } else {
        var data := w.inbox[0].data;
        if data[..4] == ANNOUNCE_CODE {
          if 1 <= U16(data, 4) <= MAX_MIOT_PARCELS && w.writable > 0 {
            CollectNeverAsserts(Acknowledged(next, RCV_RDY), U16(data, 4), map[], None);
          }
        } else if data[..4] != INLINE_CODE {
          NeverAsserts(next);
        }
      }
    }
  }

  // ------------------------------------------------------ what a peer may send

  // While a message is open: one of its parcels, a whole inline frame, or a fragment too short to be either.
  datatype Item = Part(index: nat) | Inline(frame: MiotFrame) | Runt(data: bytes)

  // Only the first parcel carries the counter.
  function ParcelBytes(counter: nat, chunks: seq<bytes>, i: nat): bytes
    requires counter < 0x10000 && 1 <= i <= |chunks| < 0x10000
  {
    Le16(i) + (if i == 1 then Le16(counter) else []) + chunks[i - 1]
  }

  function InlineBytes(frame: MiotFrame): bytes
    requires frame.counter < 0x10000
  {
    INLINE_CODE + Le16(frame.counter) + frame.ciphertext
  }

  function AnnounceBytes(count: nat): bytes
    requires count < 0x10000
  {
    ANNOUNCE_CODE + Le16(count)
  }

  predicate LegalItem(item: Item, count: nat)
  {
    match item
    case Part(i) => 1 <= i <= count
    case Inline(frame) => frame.counter < 0x10000
    case Runt(data) => |data| < 2
  }

  function ItemBytes(item: Item, counter: nat, chunks: seq<bytes>): bytes
    requires counter < 0x10000 && |chunks| < 0x10000 && LegalItem(item, |chunks|)
  {
    match item
    case Part(i) => ParcelBytes(counter, chunks, i)
    case Inline(frame) => InlineBytes(frame)
    case Runt(data) => data
  }

  function Arrivals(items: seq<Item>, counter: nat, chunks: seq<bytes>): seq<Arrival>
    requires counter < 0x10000 && |chunks| < 0x10000
    requires forall item <- items :: LegalItem(item, |chunks|)
  {
    if items == [] then [] else [Frame(ItemBytes(items[0], counter, chunks))] + Arrivals(items[1..], counter, chunks)
  }

  function Inlines(items: seq<Item>): seq<MiotFrame>
  {
    if items == [] then []
    else (if items[0].Inline? then [items[0].frame] else []) + Inlines(items[1..])
  }

  function Indexes(items: seq<Item>): set<nat>
  {
    if items == [] then {} else (if items[0].Part? then {items[0].index} else {}) + Indexes(items[1..])
  }

  lemma ParcelIsNeverInline(counter: nat, chunks: seq<bytes>, i: nat)
    requires counter < 0x10000 && 1 <= i <= |chunks| <= MAX_MIOT_PARCELS
    ensures var b := ParcelBytes(counter, chunks, i);
            && !IsInline(b) && |b| >= 2 && U16(b, 0) == i
            && (|b| >= 4 ==> b[..4] != INLINE_CODE && b[..4] != ANNOUNCE_CODE)
            && (i == 1 ==> |b| >= 4 && U16(b, 2) == counter && b[4..] == chunks[0])
            && (i != 1 ==> b[2..] == chunks[i - 1])
  {
    var b := ParcelBytes(counter, chunks, i);
    assert b[0] as nat == i && b[1] == 0;
    if |b| >= 4 {
      assert b[..4][0] == b[0];
    }
    if i == 1 {
      assert b[2..4] == Le16(counter);
    }
  }

  lemma InlineIsInline(frame: MiotFrame)
    requires frame.counter < 0x10000
    ensures IsInline(InlineBytes(frame)) && InlineFrame(InlineBytes(frame)) == frame
  {
    var b := InlineBytes(frame);
    assert b[..4] == INLINE_CODE;
    assert b[4..6] == Le16(frame.counter);
    assert b[6..] == frame.ciphertext;
  }
}
