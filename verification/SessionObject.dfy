/**
 * The session as the object it is: the reader's two loops, the routing of one frame, and the steps of a
 * request, each tied to the specification of the transport and of the machine.
 */
module SessionObject {
  import opened Bytes
  import opened Parcels
  import opened MiotTransport
  import opened MiotReassembly
  import opened SessionModel

  // One pass of the reader: receive, then route. The flag says whether another pass follows.
  function ReadOnce(w: Wire, s: Session, dec: Decrypt): (r: (Wire, Session, bool))
    ensures r.2 ==> MiotTransport.Pending(r.0) < MiotTransport.Pending(w)
  {
    match Receive(w)
    case (Delivered(frame), next) => (next, Inbound(s, dec, frame), true)
    case (Blocked, next) => (next, s, false)
    case (Failed(_), next) => (next, StopReader(s), false)
  }

  // The reader until it blocks or stops. Before each pass it looks whether its queue dropped a notification;
  // `overflow` is the number of passes after which it did.
  function ReadAll(w: Wire, s: Session, dec: Decrypt, overflow: Option<nat>): (Wire, Session)
    decreases MiotTransport.Pending(w)
  {
    if s.reader != Running then (w, s)
    else if overflow == Some(0) then (w, StopReader(s)) else
    var (next, after, more) := ReadOnce(w, s, dec);
    if more then ReadAll(next, after, dec, OnePassLess(overflow)) else (next, after)
  }

  function OnePassLess(overflow: Option<nat>): Option<nat>
  {
    match overflow
    case None => None
    case Some(n) => if n == 0 then Some(0) else Some(n - 1)
  }

  function Halted(s: Session): Session
  {
    if s.reader == Running then StopReader(s) else s
  }

  function Feed(s: Session, dec: Decrypt, frames: seq<MiotFrame>): Session
    decreases |frames|
  {
    if frames == [] then s else Feed(Inbound(s, dec, frames[0]), dec, frames[1..])
  }

  lemma {:induction false} FeedStopped(s: Session, dec: Decrypt, frames: seq<MiotFrame>)
    requires s.reader != Running
    ensures Feed(s, dec, frames) == s
    decreases |frames|
  {
    if frames != [] {
      FeedStopped(s, dec, frames[1..]);
    }
  }

  // The reader routes exactly what the transport yields, in order, up to the frame behind which a dropped
  // notification is noticed.
  lemma {:induction false} ReadAllFeeds(w: Wire, s: Session, dec: Decrypt, overflow: Option<nat>)
    requires Drain(w).1 == Blocked
    ensures var frames := Drain(w).0;
            ReadAll(w, s, dec, overflow).1
            == if overflow.Some? && overflow.value <= |frames| then Halted(Feed(s, dec, frames[..overflow.value]))
               else Feed(s, dec, frames)
    decreases MiotTransport.Pending(w)
  {
    var frames := Drain(w).0;
    if s.reader != Running {
      FeedStopped(s, dec, frames);
      if overflow.Some? && overflow.value <= |frames| {
        FeedStopped(s, dec, frames[..overflow.value]);
      }
    } else if overflow != Some(0) && Receive(w).0.Delivered? {
      var (r, next) := Receive(w);
      ReadAllFeeds(next, Inbound(s, dec, r.frame), dec, OnePassLess(overflow));
      assert frames == [r.frame] + Drain(next).0 && frames[1..] == Drain(next).0;
      if overflow.Some? && overflow.value <= |frames| {
        var part := frames[..overflow.value];
        assert part[0] == r.frame && part[1..] == Drain(next).0[..overflow.value - 1];
      }
    }
  }

  // The device's frames in the order it sent them: fresh, rising counters, all decryptable.
  ghost predicate InOrder(dec: Decrypt, from: nat, frames: seq<MiotFrame>)
    decreases |frames|
  {
    frames == [] ||
    (from <= frames[0].counter < MAX_MIOT_COUNTER && dec(frames[0].ciphertext, frames[0].counter).Some?
     && InOrder(dec, frames[0].counter + 1, frames[1..]))
  }

  function CountersOf(frames: seq<MiotFrame>): seq<nat>
  {
    if frames == [] then [] else [frames[0].counter] + CountersOf(frames[1..])
  }

  function PlaintextsOf(routes: seq<Route>): seq<bytes>
  {
    if routes == [] then [] else [routes[0].plaintext] + PlaintextsOf(routes[1..])
  }

  function Decrypted(dec: Decrypt, frames: seq<MiotFrame>): seq<bytes>
    requires forall f <- frames :: dec(f.ciphertext, f.counter).Some?
  {
    if frames == [] then []
    else [dec(frames[0].ciphertext, frames[0].counter).value] + Decrypted(dec, frames[1..])
  }

  lemma {:induction false} PlaintextsAppend(a: seq<Route>, b: seq<Route>)
    ensures PlaintextsOf(a + b) == PlaintextsOf(a) + PlaintextsOf(b)
  {
    if a == [] {
      assert a + b == b;
    } else {
      PlaintextsAppend(a[1..], b);
      assert (a + b)[0] == a[0] && (a + b)[1..] == a[1..] + b;
      AppendAssociates([a[0].plaintext], PlaintextsOf(a[1..]), PlaintextsOf(b));
    }
  }

  // Frames in order are all delivered and routed, and the reader goes on.
  lemma {:induction false} FeedDelivers(s: Session, dec: Decrypt, frames: seq<MiotFrame>)
    requires s.reader == Running && InOrder(dec, s.rxCounter, frames)
    requires forall f <- frames :: dec(f.ciphertext, f.counter).Some?
    ensures var t := Feed(s, dec, frames);
            && t.reader == Running
            && t.delivered == s.delivered + CountersOf(frames)
            && PlaintextsOf(t.routes) == PlaintextsOf(s.routes) + Decrypted(dec, frames)
    decreases |frames|
  {
    if frames == [] {
      assert s.delivered + [] == s.delivered && PlaintextsOf(s.routes) + [] == PlaintextsOf(s.routes);
    } else {
      var next := Inbound(s, dec, frames[0]);
      var pt := dec(frames[0].ciphertext, frames[0].counter).value;
      assert next == Deliver(s, frames[0].counter, pt);
      PlaintextsAppend(s.routes, [RouteOf(s, pt)]);
      assert PlaintextsOf([RouteOf(s, pt)]) == [pt];
      FeedDelivers(next, dec, frames[1..]);
      AppendAssociates(s.delivered, [frames[0].counter], CountersOf(frames[1..]));
      AppendAssociates(PlaintextsOf(s.routes), [pt], Decrypted(dec, frames[1..]));
    }
  }

  // Of frames that all decrypt, the reader survives exactly those in order: a counter that was used up, or
  // the last possible one, stops it.
  lemma {:induction false} SurvivesIff(s: Session, dec: Decrypt, frames: seq<MiotFrame>)
    requires s.reader == Running && forall f <- frames :: dec(f.ciphertext, f.counter).Some?
    ensures Feed(s, dec, frames).reader == Running <==> InOrder(dec, s.rxCounter, frames)
    decreases |frames|
  {
    if frames != [] {
      var next := Inbound(s, dec, frames[0]);
      assert frames[0] in frames && forall f <- frames[1..] :: f in frames;
      if next.reader == Running {
        SurvivesIff(next, dec, frames[1..]);
      } else {
        FeedStopped(next, dec, frames[1..]);
      }
    }
  }

  // From bytes to plaintexts: a parcelled message with inline frames in between, whose parcels arrive in
  // any order and repeatedly. The reader lives on, having decrypted and routed the message first and then
  // every inline frame, if and only if the counters rise in that order; an inline frame that was sent before
  // the message is delivered after it, and its lower counter stops the reader.
  lemma MessageIsRead(
    w: Wire, s: Session, dec: Decrypt, counter: nat, chunks: seq<bytes>, items: seq<Item>)
    requires Legal(items, counter, chunks) && AllOf(Indexes(items), |chunks|)
    requires |Inlines(items)| <= MAX_CAPTURED_FRAMES && w.deferred == [] && w.writable > |Inlines(items)| + 1
    requires w.inbox == [Frame(AnnounceBytes(|chunks|))] + Arrivals(items, counter, chunks)
    requires s.reader == Running
    requires forall f <- [MiotFrame(counter, Flatten(chunks))] + Inlines(items) :: dec(f.ciphertext, f.counter).Some?
    ensures var frames := [MiotFrame(counter, Flatten(chunks))] + Inlines(items);
            var t := ReadAll(w, s, dec, None).1;
            && (t.reader == Running <==> InOrder(dec, s.rxCounter, frames))
            && (t.reader == Running ==>
                  && t.delivered == s.delivered + CountersOf(frames)
                  && PlaintextsOf(t.routes) == PlaintextsOf(s.routes) + Decrypted(dec, frames))
  {
    var frames := [MiotFrame(counter, Flatten(chunks))] + Inlines(items);
    MessageThenInlines(w, counter, chunks, items);
    ReadAllFeeds(w, s, dec, None);
    SurvivesIff(s, dec, frames);
    if InOrder(dec, s.rxCounter, frames) {
      FeedDelivers(s, dec, frames);
    }
  }

  class MiSession {
    // transport: what is still to arrive, how many writes still succeed, and the deques
    var arriving: seq<Arrival>
    var writesLeft: nat
    var deferredFrames: seq<MiotFrame>
    var rxRaw: seq<MiotFrame>
    var written: seq<bytes>

    var txCounter: nat
    var rxCounter: nat
    var requestSeq: nat
    var active: Option<Requester>
    var closing: bool
    var reader: Reader
    var fatalErrorReported: bool
    const dec: Decrypt

    var requests: seq<bytes>
    ghost var encrypted: seq<nat>
    ghost var delivered: seq<nat>
    ghost var routes: seq<Route>
    ghost var returned: seq<(nat, bytes)>
    ghost var fatals: seq<bool>

    ghost function WireNow(): Wire
      reads this`arriving, this`writesLeft, this`deferredFrames, this`rxRaw, this`written
    {
      Wire(arriving, writesLeft, deferredFrames, rxRaw, written)
    }

    ghost function SessionNow(): Session
      reads this`txCounter, this`rxCounter, this`requestSeq, this`active, this`closing, this`reader,
          this`fatalErrorReported,
            this`requests, this`encrypted, this`delivered, this`routes, this`returned, this`fatals
    {
      Session(txCounter, rxCounter, requestSeq, active, closing, reader, fatalErrorReported,
              requests, encrypted, delivered, routes, returned, fatals)
    }

    constructor (dec: Decrypt, arriving: seq<Arrival>, writesLeft: nat)
      ensures SessionNow() == Initial() && WireNow() == Wire(arriving, writesLeft, [], [], [])
      ensures this.dec == dec
    {
      this.dec, this.arriving, this.writesLeft := dec, arriving, writesLeft;
      deferredFrames, rxRaw, written := [], [], [];
      txCounter, rxCounter, requestSeq := 0, 0, 2;
      active, closing, reader, fatalErrorReported := None, false, Absent, false;
      requests, encrypted, delivered, routes, returned, fatals := [], [], [], [], [], [];
    }

    // --------------------------------------------------------------- transport

    method Write(payload: bytes) returns (ok: bool)
      modifies this`writesLeft, this`written
      ensures ok == (old(writesLeft) > 0)
      ensures if ok then WireNow() == Acknowledged(old(WireNow()), payload) else WireNow() == old(WireNow())
    {
      ok := writesLeft > 0;
      if ok {
        writesLeft := writesLeft - 1;
        written := written + [payload];
      }
    }

    method Record(frame: MiotFrame)
      modifies this`rxRaw
      ensures WireNow() == Keep(old(WireNow()), frame)
    {
      rxRaw := rxRaw + [frame];
      if |rxRaw| > MAX_CAPTURED_FRAMES {
        rxRaw := rxRaw[|rxRaw| - MAX_CAPTURED_FRAMES..];
      }
    }

    // The inner loop of `_recv_encrypted`, after the announcement was acknowledged.
    method CollectParcels(expected: nat) returns (r: Received)
      modifies this`arriving, this`writesLeft, this`deferredFrames, this`rxRaw, this`written
      ensures (r, WireNow()) == Collect(old(WireNow()), expected, map[], None)
    {
      var parts: Parts := map[];
      var parcelCounter: Option<nat> := None;
      while |parts| < expected
        invariant Collect(WireNow(), expected, parts, parcelCounter) == Collect(old(WireNow()), expected, map[], None)
        decreases |arriving|
      {
        if arriving == [] {
          return Failed(TimedOut);
        }
        var arrival := arriving[0];
        arriving := arriving[1..];
        if arrival.Quiet? {
          return Failed(TimedOut);
        }
        var part := arrival.data;
        if IsInline(part) {
          var ok := Write(OFFICIAL_ACK);
          if !ok {
            return Failed(WriteFailed);
          }
          if |deferredFrames| >= MAX_CAPTURED_FRAMES {
            return Failed(TooManyInline);
          }
          var deferred := InlineFrame(part);
          Record(deferred);
          deferredFrames := deferredFrames + [deferred];
        } else if |part| >= 2 {
          var idx := U16(part, 0);
          if !(1 <= idx <= expected) {
            return Failed(BadParcelIndex);
          }
          if idx == 1 {
            if |part| < 4 {
              return Failed(MissingCounter);
            }
            parcelCounter := Some(U16(part, 2));
            parts := parts[idx := part[4..]];
          } else {
            parts := parts[idx := part[2..]];
          }
        }
      }
      var ok := Write(RCV_OK);
      if !ok {
        return Failed(WriteFailed);
      }
      if parcelCounter.None? {
        return Failed(AssertionFailed);
      }
      var frame := MiotFrame(parcelCounter.value, Join(parts, 1, expected));
      Record(frame);
      return Delivered(frame);
    }

    method RecvEncrypted() returns (r: Received)
      modifies this`arriving, this`writesLeft, this`deferredFrames, this`rxRaw, this`written
      ensures (r, WireNow()) == Receive(old(WireNow()))
      ensures r != Failed(AssertionFailed)
    {
      NeverAsserts(WireNow());
      if deferredFrames != [] {
        r := Delivered(deferredFrames[0]);
        deferredFrames := deferredFrames[1..];
        return;
      }
      while true
        invariant deferredFrames == [] && Scan(WireNow()) == Scan(old(WireNow()))
        decreases |arriving|
      {
        if arriving == [] {
          return Blocked;
        }
        var arrival := arriving[0];
        arriving := arriving[1..];
        if arrival.Quiet? || |arrival.data| < 6 {
          continue;
        }
        var data := arrival.data;
        if data[..4] == INLINE_CODE {
          var ok := Write(OFFICIAL_ACK);
          if !ok {
            return Failed(WriteFailed);
          }
          Record(InlineFrame(data));
          return Delivered(InlineFrame(data));
        }
        if data[..4] == ANNOUNCE_CODE {
          var expected := U16(data, 4);
          if !(1 <= expected <= MAX_MIOT_PARCELS) {
            return Failed(BadParcelCount);
          }
          var ok := Write(RCV_RDY);
          if !ok {
            return Failed(WriteFailed);
          }
          r := CollectParcels(expected);
          return;
        }
      }
    }

    // ------------------------------------------------------------------ reader

    method ReportFatalError()
      modifies this`fatalErrorReported, this`fatals
      ensures SessionNow() == ReportFatal(old(SessionNow()))
    {
      if closing || fatalErrorReported {
        return;
      }
      fatalErrorReported := true;
      fatals := fatals + [closing];
    }

    method StopReading()
      modifies this`active, this`reader, this`fatalErrorReported, this`fatals
      ensures SessionNow() == StopReader(old(SessionNow()))
    {
      reader := Stopped;
      if active.Some? && active.value.listed && active.value.future == Open {
        active := Some(active.value.(future := Broken));
      }
      ReportFatalError();
    }

    method RoutePlaintext(counter: nat, plaintext: bytes)
      modifies this`rxCounter, this`active, this`delivered, this`routes
      ensures SessionNow() == Deliver(old(SessionNow()), counter, plaintext)
    {
      ghost var route := RouteOf(SessionNow(), plaintext);
      rxCounter := counter + 1;
      delivered := delivered + [counter];
      if active.Some? && Answers(active.value, plaintext) {
        active := Some(active.value.(future := Answered(plaintext)));
      }
      routes := routes + [route];
    }

    method HandleFrame(frame: MiotFrame)
      requires reader == Running
      modifies this`rxCounter, this`active, this`delivered, this`routes, this`reader, this`fatalErrorReported,
          this`fatals
      ensures SessionNow() == Inbound(old(SessionNow()), dec, frame)
    {
      if frame.counter < rxCounter {
        StopReading();
        return;
      }
      match dec(frame.ciphertext, frame.counter)
      case None =>
      case Some(plaintext) =>
        RoutePlaintext(frame.counter, plaintext);
        if rxCounter > MAX_MIOT_COUNTER {
          StopReading();
        }
    }

    method ReadNext() returns (more: bool)
      requires reader == Running
      modifies this
      ensures (WireNow(), SessionNow(), more) == ReadOnce(old(WireNow()), old(SessionNow()), dec)
    {
      var r := RecvEncrypted();
      match r
      case Delivered(frame) =>
        HandleFrame(frame);
        return true;
      case Blocked =>
        return false;
      case Failed(_) =>
        StopReading();
        return false;
    }

    // `overflow` says after how many passes the queue has dropped a notification.
    method ReaderLoop(overflow: Option<nat>)
      modifies this
      ensures (WireNow(), SessionNow()) == ReadAll(old(WireNow()), old(SessionNow()), dec, overflow)
    {
      var more, left := true, overflow;
      while reader == Running && more
        invariant more ==>
                    ReadAll(WireNow(), SessionNow(), dec, left)
                        == ReadAll(old(WireNow()), old(SessionNow()), dec, overflow)
        invariant !more ==>
                    (WireNow(), SessionNow()) == ReadAll(old(WireNow()), old(SessionNow()), dec, overflow)
        decreases more, MiotTransport.Pending(WireNow())
      {
        if left == Some(0) {
          StopReading();
          return;
        }
        more := ReadNext();
        left := OnePassLess(left);
      }
    }

    // ---------------------------------------------------------------- requests

    method TakeNextSequence() returns (sequence: nat)
      requires requestSeq < 0x10000
      modifies this`requestSeq
      ensures sequence == old(requestSeq)
      ensures SessionNow() == NextSequence(old(SessionNow()))
    {
      sequence := requestSeq;
      requestSeq := (sequence + 1) % 0x10000;
      if requestSeq == 0 {
        requestSeq := 1;
      }
    }

    // `send_request` up to its first await: the counter is spent before anything can fail.
    method BeginSend(request: bytes) returns (counter: Option<nat>)
      requires active.None?
      modifies this
      ensures SessionNow() == Begin(old(SessionNow()), request)
      ensures counter.Some? <==> SessionNow().encrypted == old(SessionNow()).encrypted + [old(txCounter)]
      ensures counter.Some? ==> counter.value == old(txCounter) <= MAX_MIOT_COUNTER
    {
      counter := None;
      if |request| < 4 || closing || reader != Running {
        return;
      }
      var id := |requests|;
      requests := requests + [request];
      if txCounter > MAX_MIOT_COUNTER {
        ReportFatalError();
        return;
      }
      counter := Some(txCounter);
      active := Some(Requester(id, request, Open, true, false));
      encrypted := encrypted + [txCounter];
      txCounter := txCounter + 1;
    }
  }
}
