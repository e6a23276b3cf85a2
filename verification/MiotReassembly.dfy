/** What `_recv_encrypted` yields for every order in which the parts of a message can arrive. */
module MiotReassembly {
  import opened Bytes
  import opened Parcels
  import opened MiotTransport

  ghost predicate AllOf(have: set<nat>, count: nat)
  {
    forall i: nat :: 1 <= i <= count ==> i in have
  }

  function With(have: set<nat>, item: Item): set<nat>
  {
    if item.Part? then have + {item.index} else have
  }

  // The last item of `body` is the one that completes the message.
  ghost predicate Completes(have: set<nat>, body: seq<Item>, count: nat)
    decreases |body|
  {
    body != [] &&
    if |body| == 1 then AllOf(With(have, body[0]), count)
    else !AllOf(With(have, body[0]), count) && Completes(With(have, body[0]), body[1..], count)
  }

  ghost predicate Legal(items: seq<Item>, counter: nat, chunks: seq<bytes>)
  {
    && counter < 0x10000 && 1 <= |chunks| <= MAX_MIOT_PARCELS
    && forall item <- items :: LegalItem(item, |chunks|)
  }

  function RememberAll(history: seq<MiotFrame>, frames: seq<MiotFrame>): seq<MiotFrame>
    decreases |frames|
  {
    if frames == [] then history else RememberAll(Remember(history, frames[0]), frames[1..])
  }

  function Acks(n: nat): seq<bytes>
  {
    if n == 0 then [] else [OFFICIAL_ACK] + Acks(n - 1)
  }

  // The wire once the message is delivered: inline frames deferred and acknowledged one by one.
  function AfterMessage(w: Wire, inlines: seq<MiotFrame>, message: MiotFrame, rest: seq<Arrival>): Wire
    requires w.writable > |inlines|
  {
    Wire(rest, w.writable - |inlines| - 1, w.deferred + inlines,
         RememberAll(w.history, inlines + [message]), w.written + Acks(|inlines|) + [RCV_OK])
  }

  lemma AfterLastParcel(w: Wire, message: MiotFrame)
    requires w.writable > 0
    ensures AfterMessage(w, [], message, w.inbox) == Keep(Acknowledged(w, RCV_OK), message)
  {
    assert w.written + Acks(0) + [RCV_OK] == w.written + [RCV_OK];
    assert [] + [message] == [message] && [message][1..] == [];
    assert RememberAll(w.history, [message]) == RememberAll(Remember(w.history, message), []);
    assert w.deferred + [] == w.deferred;
  }

  // Completion seen from the table of collected parcels.
  lemma AllCollected(parts: Parts, chunks: seq<bytes>)
    requires HoldsChunks(parts, chunks) && AllOf(parts.Keys, |chunks|)
    ensures |parts| == |chunks| && Join(parts, 1, |chunks|) == Flatten(chunks)
  {
    IndicesSize(|chunks|);
    SubsetSize(parts.Keys, Indices(|chunks|));
    SubsetSize(Indices(|chunks|), parts.Keys);
    assert |parts.Keys| == |parts|;
    JoinComplete(parts, chunks);
  }

  lemma CompleteNow(w: Wire, parts: Parts, counter: nat, chunks: seq<bytes>)
    requires HoldsChunks(parts, chunks) && AllOf(parts.Keys, |chunks|) && w.writable > 0
    ensures Collect(w, |chunks|, parts, Some(counter))
      == (Delivered(MiotFrame(counter, Flatten(chunks))),
          AfterMessage(w, [], MiotFrame(counter, Flatten(chunks)), w.inbox))
  {
    AllCollected(parts, chunks);
    AfterLastParcel(w, MiotFrame(counter, Flatten(chunks)));
  }

  // One parcel arrives.
  lemma CollectPart(w: Wire, counter: nat, chunks: seq<bytes>, parts: Parts, i: nat, tail: seq<Arrival>)
    requires Legal([], counter, chunks) && 1 <= i <= |chunks| && |parts| < |chunks|
    requires HoldsChunks(parts, chunks)
    requires w.inbox == [Frame(ParcelBytes(counter, chunks, i))] + tail
    ensures HoldsChunks(parts[i := chunks[i - 1]], chunks)
    ensures Collect(w, |chunks|, parts, Seen(parts, counter))
      == Collect(w.(inbox := tail), |chunks|, parts[i := chunks[i - 1]], Seen(parts[i := chunks[i - 1]], counter))
  {
    ParcelIsNeverInline(counter, chunks, i);
    assert w.inbox[1..] == tail;
  }

  // One inline frame arrives, and there is room for it.
  lemma CollectInline(w: Wire, counter: nat, chunks: seq<bytes>, parts: Parts, frame: MiotFrame, tail: seq<Arrival>)
    requires Legal([], counter, chunks) && frame.counter < 0x10000 && |parts| < |chunks|
    requires w.inbox == [Frame(InlineBytes(frame))] + tail
    requires w.writable > 0 && |w.deferred| < MAX_CAPTURED_FRAMES
    ensures Collect(w, |chunks|, parts, Seen(parts, counter))
      == Collect(Defer(w.(inbox := tail), frame), |chunks|, parts, Seen(parts, counter))
  {
    InlineIsInline(frame);
    assert w.inbox[1..] == tail;
  }

  lemma CollectRunt(w: Wire, chunks: seq<bytes>, parts: Parts, seen: Option<nat>, data: bytes, tail: seq<Arrival>)
    requires |data| < 2 && |parts| < |chunks|
    requires w.inbox == [Frame(data)] + tail
    ensures Collect(w, |chunks|, parts, seen) == Collect(w.(inbox := tail), |chunks|, parts, seen)
  {
    assert w.inbox[1..] == tail;
  }

  lemma AfterOneMore(w: Wire, frame: MiotFrame, inlines: seq<MiotFrame>, message: MiotFrame, rest: seq<Arrival>)
    requires w.writable > |inlines| + 1
    ensures AfterMessage(Defer(w, frame), inlines, message, rest) == AfterMessage(w, [frame] + inlines, message, rest)
  {
    assert ([frame] + inlines + [message])[1..] == inlines + [message];
    assert w.written + Acks(1 + |inlines|) == (w.written + [OFFICIAL_ACK]) + Acks(|inlines|);
    assert w.deferred + ([frame] + inlines) == (w.deferred + [frame]) + inlines;
  }

  lemma MissingMeansFewer(parts: Parts, chunks: seq<bytes>)
    requires HoldsChunks(parts, chunks) && !AllOf(parts.Keys, |chunks|)
    ensures |parts| < |chunks|
  {
    var i: nat :| 1 <= i <= |chunks| && i !in parts.Keys;
    FewerWhenMissing(parts, |chunks|, i);
  }

  lemma NotInline(items: seq<Item>)
    requires items != [] && !items[0].Inline?
    ensures Inlines(items) == Inlines(items[1..])
  {
    assert [] + Inlines(items[1..]) == Inlines(items[1..]);
  }

  // An open message, one item later.
  ghost predicate Open(parts: Parts, body: seq<Item>, counter: nat, chunks: seq<bytes>)
  {
    && Legal(body, counter, chunks) && HoldsChunks(parts, chunks)
    && !AllOf(parts.Keys, |chunks|) && Completes(parts.Keys, body, |chunks|)
  }

  lemma OpenPart(parts: Parts, body: seq<Item>, counter: nat, chunks: seq<bytes>)
    requires Open(parts, body, counter, chunks) && body[0].Part?
    ensures 1 <= body[0].index <= |chunks|
    ensures var more := parts[body[0].index := chunks[body[0].index - 1]];
            if |body| == 1 then AllOf(more.Keys, |chunks|) && HoldsChunks(more, chunks)
            else Open(more, body[1..], counter, chunks)
  {
    assert LegalItem(body[0], |chunks|);
    assert parts[body[0].index := chunks[body[0].index - 1]].Keys == With(parts.Keys, body[0]);
  }

  lemma OpenOther(parts: Parts, body: seq<Item>, counter: nat, chunks: seq<bytes>)
    requires Open(parts, body, counter, chunks) && !body[0].Part?
    ensures LegalItem(body[0], |chunks|) && |body| > 1 && Open(parts, body[1..], counter, chunks)
  {
  }

  lemma FirstArrival(body: seq<Item>, counter: nat, chunks: seq<bytes>, rest: seq<Arrival>)
    requires Legal(body, counter, chunks) && body != []
    ensures LegalItem(body[0], |chunks|)
    ensures Arrivals(body, counter, chunks) + rest
      == [Frame(ItemBytes(body[0], counter, chunks))] + (Arrivals(body[1..], counter, chunks) + rest)
  {
  }

  function Seen(parts: Parts, counter: nat): Option<nat>
  {
    if 1 in parts then Some(counter) else None
  }

  lemma {:induction false} CollectsMessage(
    w: Wire, counter: nat, chunks: seq<bytes>, parts: Parts, body: seq<Item>, rest: seq<Arrival>)
    requires Open(parts, body, counter, chunks)
    requires |w.deferred| + |Inlines(body)| <= MAX_CAPTURED_FRAMES && w.writable > |Inlines(body)|
    requires w.inbox == Arrivals(body, counter, chunks) + rest
    ensures Collect(w, |chunks|, parts, Seen(parts, counter))
      == (Delivered(MiotFrame(counter, Flatten(chunks))),
          AfterMessage(w, Inlines(body), MiotFrame(counter, Flatten(chunks)), rest))
    decreases |body|, 1
  {
    match body[0]
    case Part(_) => PartThenRest(w, counter, chunks, parts, body, rest);
    case Inline(_) => InlineThenRest(w, counter, chunks, parts, body, rest);
    case Runt(_) => RuntThenRest(w, counter, chunks, parts, body, rest);
  }

  lemma AfterIgnoresInbox(w: Wire, inbox: seq<Arrival>, inlines: seq<MiotFrame>, message: MiotFrame, rest: seq<Arrival>)
    requires w.writable > |inlines|
    ensures AfterMessage(w.(inbox := inbox), inlines, message, rest) == AfterMessage(w, inlines, message, rest)
  {
  }

  lemma {:induction false} PartThenRest(
    w: Wire, counter: nat, chunks: seq<bytes>, parts: Parts, body: seq<Item>, rest: seq<Arrival>)
    requires Open(parts, body, counter, chunks) && body[0].Part?
    requires |w.deferred| + |Inlines(body)| <= MAX_CAPTURED_FRAMES && w.writable > |Inlines(body)|
    requires w.inbox == Arrivals(body, counter, chunks) + rest
    ensures Collect(w, |chunks|, parts, Seen(parts, counter))
      == (Delivered(MiotFrame(counter, Flatten(chunks))),
          AfterMessage(w, Inlines(body), MiotFrame(counter, Flatten(chunks)), rest))
    decreases |body|, 0
  {
    var i, message := body[0].index, MiotFrame(counter, Flatten(chunks));
    var tail := Arrivals(body[1..], counter, chunks) + rest;
    OpenPart(parts, body, counter, chunks);
    var more := parts[i := chunks[i - 1]];
    FirstArrival(body, counter, chunks, rest);
    MissingMeansFewer(parts, chunks);
    CollectPart(w, counter, chunks, parts, i, tail);
    NotInline(body);
    AfterIgnoresInbox(w, tail, Inlines(body), message, rest);
    if |body| == 1 {
      assert tail == rest;
      CompleteNow(w.(inbox := tail), more, counter, chunks);
    } else {
      CollectsMessage(w.(inbox := tail), counter, chunks, more, body[1..], rest);
    }
  }

  lemma {:induction false} InlineThenRest(
    w: Wire, counter: nat, chunks: seq<bytes>, parts: Parts, body: seq<Item>, rest: seq<Arrival>)
    requires Open(parts, body, counter, chunks) && body[0].Inline?
    requires |w.deferred| + |Inlines(body)| <= MAX_CAPTURED_FRAMES && w.writable > |Inlines(body)|
    requires w.inbox == Arrivals(body, counter, chunks) + rest
    ensures Collect(w, |chunks|, parts, Seen(parts, counter))
      == (Delivered(MiotFrame(counter, Flatten(chunks))),
          AfterMessage(w, Inlines(body), MiotFrame(counter, Flatten(chunks)), rest))
    decreases |body|, 0
  {
    var frame, message := body[0].frame, MiotFrame(counter, Flatten(chunks));
    var tail := Arrivals(body[1..], counter, chunks) + rest;
    var next := w.(inbox := tail);
    OpenOther(parts, body, counter, chunks);
    FirstArrival(body, counter, chunks, rest);
    MissingMeansFewer(parts, chunks);
    CollectInline(w, counter, chunks, parts, frame, tail);
    CollectsMessage(Defer(next, frame), counter, chunks, parts, body[1..], rest);
    AfterOneMore(next, frame, Inlines(body[1..]), message, rest);
    AfterIgnoresInbox(w, tail, Inlines(body), message, rest);
  }

  lemma {:induction false} RuntThenRest(
    w: Wire, counter: nat, chunks: seq<bytes>, parts: Parts, body: seq<Item>, rest: seq<Arrival>)
    requires Open(parts, body, counter, chunks) && body[0].Runt?
    requires |w.deferred| + |Inlines(body)| <= MAX_CAPTURED_FRAMES && w.writable > |Inlines(body)|
    requires w.inbox == Arrivals(body, counter, chunks) + rest
    ensures Collect(w, |chunks|, parts, Seen(parts, counter))
      == (Delivered(MiotFrame(counter, Flatten(chunks))),
          AfterMessage(w, Inlines(body), MiotFrame(counter, Flatten(chunks)), rest))
    decreases |body|, 0
  {
    var tail := Arrivals(body[1..], counter, chunks) + rest;
    OpenOther(parts, body, counter, chunks);
    FirstArrival(body, counter, chunks, rest);
    MissingMeansFewer(parts, chunks);
    CollectRunt(w, chunks, parts, Seen(parts, counter), body[0].data, tail);
    NotInline(body);
    AfterIgnoresInbox(w, tail, Inlines(body), MiotFrame(counter, Flatten(chunks)), rest);
    CollectsMessage(w.(inbox := tail), counter, chunks, parts, body[1..], rest);
  }

  // The seventeenth inline frame inside one message ends the session instead.
  lemma {:induction false} CollectOverflows(
    w: Wire, counter: nat, chunks: seq<bytes>, parts: Parts, body: seq<Item>, rest: seq<Arrival>)
    requires Open(parts, body, counter, chunks)
    requires |w.deferred| <= MAX_CAPTURED_FRAMES < |w.deferred| + |Inlines(body)| && w.writable > |Inlines(body)|
    requires w.inbox == Arrivals(body, counter, chunks) + rest
    ensures Collect(w, |chunks|, parts, Seen(parts, counter)).0 == Failed(TooManyInline)
    decreases |body|
  {
    var tail := Arrivals(body[1..], counter, chunks) + rest;
    var next := w.(inbox := tail);
    FirstArrival(body, counter, chunks, rest);
    MissingMeansFewer(parts, chunks);
    match body[0]
    case Part(i) =>
      OpenPart(parts, body, counter, chunks);
      NotInline(body);
      CollectPart(w, counter, chunks, parts, i, tail);
      CollectOverflows(next, counter, chunks, parts[i := chunks[i - 1]], body[1..], rest);
    case Inline(frame) =>
      OpenOther(parts, body, counter, chunks);
      if |w.deferred| < MAX_CAPTURED_FRAMES {
        CollectInline(w, counter, chunks, parts, frame, tail);
        CollectOverflows(Defer(next, frame), counter, chunks, parts, body[1..], rest);
      } else {
        InlineIsInline(frame);
      }
    case Runt(data) =>
      OpenOther(parts, body, counter, chunks);
      NotInline(body);
      CollectRunt(w, chunks, parts, Seen(parts, counter), data, tail);
      CollectOverflows(next, counter, chunks, parts, body[1..], rest);
  }

  lemma AnnounceOpens(w: Wire, count: nat, tail: seq<Arrival>)
    requires w.deferred == [] && 1 <= count <= MAX_MIOT_PARCELS && w.writable > 0
    requires w.inbox == [Frame(AnnounceBytes(count))] + tail
    ensures Receive(w) == Collect(Acknowledged(w.(inbox := tail), RCV_RDY), count, map[], None)
  {
    var b := AnnounceBytes(count);
    assert b[..4] == ANNOUNCE_CODE && b[4..6] == Le16(count);
    assert w.inbox[1..] == tail;
  }

  // A message is delivered first, whole and with its counter, exactly when at most 16 inline frames
  // came in before its last parcel; those frames are then the deferred ones, in arrival order.
  lemma MessageDeliveredIff(w: Wire, counter: nat, chunks: seq<bytes>, body: seq<Item>, rest: seq<Arrival>)
    requires Legal(body, counter, chunks) && Completes({}, body, |chunks|)
    requires w.deferred == [] && w.writable > |Inlines(body)| + 1
    requires w.inbox == [Frame(AnnounceBytes(|chunks|))] + (Arrivals(body, counter, chunks) + rest)
    ensures Receive(w).0.Delivered? <==> |Inlines(body)| <= MAX_CAPTURED_FRAMES
    ensures |Inlines(body)| <= MAX_CAPTURED_FRAMES ==>
      Receive(w) == (Delivered(MiotFrame(counter, Flatten(chunks))),
                     AfterMessage(Acknowledged(w, RCV_RDY), Inlines(body), MiotFrame(counter, Flatten(chunks)), rest))
  {
    var tail := Arrivals(body, counter, chunks) + rest;
    var open := Acknowledged(w.(inbox := tail), RCV_RDY);
    var none: Parts := map[];
    AnnounceOpens(w, |chunks|, tail);
    assert !AllOf(none.Keys, |chunks|) by { assert 1 !in none.Keys; }
    assert none.Keys == {};
    if |Inlines(body)| <= MAX_CAPTURED_FRAMES {
      CollectsMessage(open, counter, chunks, none, body, rest);
    } else {
      CollectOverflows(open, counter, chunks, none, body, rest);
    }
  }

  // ------------------------------------------------------- the frames of a run

  // Receiving until nothing more arrives or the transport fails.
  function Drain(w: Wire): (seq<MiotFrame>, Received, Wire)
    decreases Pending(w)
  {
    var (r, next) := Receive(w);
    match r
    case Delivered(frame) =>
      var (frames, last, end) := Drain(next);
      ([frame] + frames, last, end)
    case _ => ([], r, next)
  }

  // Late repeats of parcels are skipped, inline frames go straight through.
  lemma {:induction false} DrainTail(w: Wire, counter: nat, chunks: seq<bytes>, items: seq<Item>)
    requires Legal(items, counter, chunks) && w.deferred == [] && w.writable >= |Inlines(items)|
    requires w.inbox == Arrivals(items, counter, chunks)
    ensures Drain(w).0 == Inlines(items) && Drain(w).1 == Blocked
    ensures Drain(w).2.written == w.written + Acks(|Inlines(items)|)
    decreases |items|
  {
    if items == [] {
      assert w.written + [] == w.written;
    } else {
      var next := w.(inbox := Arrivals(items[1..], counter, chunks));
      assert w.inbox[1..] == next.inbox;
      assert LegalItem(items[0], |chunks|);
      match items[0]
      case Part(i) =>
        ParcelIsNeverInline(counter, chunks, i);
        DrainTail(next, counter, chunks, items[1..]);
        NotInline(items);
        assert Scan(w) == Scan(next);
      case Inline(frame) =>
        InlineIsInline(frame);
        var acked := Keep(Acknowledged(next, OFFICIAL_ACK), frame);
        DrainTail(acked, counter, chunks, items[1..]);
        assert Receive(w) == (Delivered(frame), acked);
        AppendAssociates(w.written, [OFFICIAL_ACK], Acks(|Inlines(items[1..])|));
      case Runt(data) =>
        DrainTail(next, counter, chunks, items[1..]);
        NotInline(items);
        assert Scan(w) == Scan(next);
    }
  }

  lemma {:induction false} DrainDeferred(w: Wire)
    ensures Drain(w).0 == w.deferred + Drain(w.(deferred := [])).0
    ensures Drain(w).1 == Drain(w.(deferred := [])).1 && Drain(w).2 == Drain(w.(deferred := [])).2
    decreases |w.deferred|
  {
    if w.deferred != [] {
      var next := w.(deferred := w.deferred[1..]);
      assert Receive(w) == (Delivered(w.deferred[0]), next);
      DrainDeferred(next);
      assert next.(deferred := []) == w.(deferred := []);
      assert w.deferred == [w.deferred[0]] + w.deferred[1..];
    }
  }

  // ----------------------------------------------- any arrangement of one message

  lemma OneItem(have: set<nat>, items: seq<Item>)
    requires items != []
    ensures With(have, items[0]) + Indexes(items[1..]) == have + Indexes(items)
    ensures items[1..] == [] ==> With(have, items[0]) == have + Indexes(items)
  {
  }

  lemma {:induction false} FirstCompletion(have: set<nat>, items: seq<Item>, count: nat) returns (k: nat)
    requires items != [] && !AllOf(have, count) && AllOf(have + Indexes(items), count)
    ensures 0 < k <= |items| && Completes(have, items[..k], count)
    decreases |items|
  {
    OneItem(have, items);
    if AllOf(With(have, items[0]), count) {
      k := 1;
    } else {
      var j := FirstCompletion(With(have, items[0]), items[1..], count);
      k := j + 1;
      assert items[..k][1..] == items[1..][..j];
    }
  }

  lemma {:induction false} ArrivalsAppend(a: seq<Item>, b: seq<Item>, counter: nat, chunks: seq<bytes>)
    requires Legal(a, counter, chunks) && Legal(b, counter, chunks) && Legal(a + b, counter, chunks)
    ensures Arrivals(a + b, counter, chunks) == Arrivals(a, counter, chunks) + Arrivals(b, counter, chunks)
  {
    if a == [] {
      assert a + b == b;
    } else {
      assert (a + b)[0] == a[0] && (a + b)[1..] == a[1..] + b;
      ArrivalsAppend(a[1..], b, counter, chunks);
      AppendAssociates([Frame(ItemBytes(a[0], counter, chunks))], Arrivals(a[1..], counter, chunks),
          Arrivals(b, counter, chunks));
    }
  }

  lemma {:induction false} InlinesAppend(a: seq<Item>, b: seq<Item>)
    ensures Inlines(a + b) == Inlines(a) + Inlines(b)
  {
    if a == [] {
      assert a + b == b;
    } else {
      assert (a + b)[0] == a[0] && (a + b)[1..] == a[1..] + b;
      InlinesAppend(a[1..], b);
      AppendAssociates(if a[0].Inline? then [a[0].frame] else [], Inlines(a[1..]), Inlines(b));
    }
  }

  // The parcels of a message in any order, with repeats before and after completion, and up to 16
  // inline frames anywhere in between: the message comes out first and whole, then every inline frame
  // in arrival order, none lost, each acknowledged once.
  lemma MessageThenInlines(w: Wire, counter: nat, chunks: seq<bytes>, items: seq<Item>)
    requires Legal(items, counter, chunks) && AllOf(Indexes(items), |chunks|)
    requires |Inlines(items)| <= MAX_CAPTURED_FRAMES
    requires w.deferred == [] && w.writable > |Inlines(items)| + 1
    requires w.inbox == [Frame(AnnounceBytes(|chunks|))] + Arrivals(items, counter, chunks)
    ensures Drain(w).0 == [MiotFrame(counter, Flatten(chunks))] + Inlines(items)
    ensures Drain(w).1 == Blocked
    ensures exists k: nat | k <= |Inlines(items)| ::
              Drain(w).2.written == w.written + [RCV_RDY] + Acks(k) + [RCV_OK] + Acks(|Inlines(items)| - k)
  {
    assert {} + Indexes(items) == Indexes(items);
    var none: set<nat> := {};
    assert 1 !in none;
    if items == [] { assert false; }
    var k := FirstCompletion({}, items, |chunks|);
    var body, late := items[..k], items[k..];
    assert items == body + late;
    ArrivalsAppend(body, late, counter, chunks);
    InlinesAppend(body, late);
    var rest := Arrivals(late, counter, chunks);
    MessageDeliveredIff(w, counter, chunks, body, rest);
    var after := Receive(w).1;
    DrainDeferred(after);
    DrainTail(after.(deferred := []), counter, chunks, late);
    assert [] + Inlines(body) == Inlines(body);
    assert w.written + [RCV_RDY] + Acks(|Inlines(body)|) + [RCV_OK] + Acks(|Inlines(late)|)
        == (w.written + [RCV_RDY] + Acks(|Inlines(body)|) + [RCV_OK]) + Acks(|Inlines(late)|);
    assert |Inlines(items)| - |Inlines(body)| == |Inlines(late)|;
  }
}
