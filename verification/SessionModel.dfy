/**
 * The encrypted MIOT session as a machine: the request slot, the counters, the reader's routing, and
 * closing. One event is the code between two awaits of a requester, the reader, or (un)subscribing.
 * `dec` stands for AES-CCM decryption with the device key: it returns a plaintext or rejects the frame.
 */
module SessionModel {
  import opened Bytes
  import opened MiotTransport

  const MAX_MIOT_COUNTER := 0xFFFF

  type Decrypt = (bytes, nat) -> Option<bytes>

  function ExpectedResponses(opcode: bytes): set<bytes>
  {
    if opcode == [0x05, 0x20] then {[0x05, 0x20]}
    else if opcode == [0x0c, 0x20] then {[0x0b, 0x20]}
    else if opcode == [0x24, 0x20] then {[0x66, 0x20]}
    else if opcode == [0x33, 0x20] then {[0x0e, 0x20], [0x1c, 0x20], [0x93, 0x20]}
    else {opcode}
  }

  predicate IsPropertyEvent(pt: bytes)
  {
    |pt| >= 2 && (pt[..2] == [0x0f, 0x20] || (|pt| >= 5 && pt[..2] == [0x0c, 0x20] && pt[4] == 0x04))
  }

  // The future a requester waits for.
  datatype Future = Open | Answered(plaintext: bytes) | Broken | Withdrawn

  // The requester holding the request lock: the number of its request, what it sent, and its future.
  // `listed` tells whether the session still knows about it; `sent` whether its parcels are out.
  datatype Requester = Requester(id: nat, request: bytes, future: Future, listed: bool, sent: bool)

  datatype Reader = Absent | Running | Stopped

  // Where one decrypted frame went.
  datatype Route = Response(id: nat, plaintext: bytes) | Callback(plaintext: bytes) | Ignored(plaintext: bytes)

  datatype Session = Session(
    txCounter: nat, rxCounter: nat, requestSeq: nat,
    active: Option<Requester>, closing: bool, reader: Reader, fatalReported: bool,
    // history
    requests: seq<bytes>, encrypted: seq<nat>, delivered: seq<nat>, routes: seq<Route>,
    returned: seq<(nat, bytes)>, fatals: seq<bool>)

  function Initial(): Session
  {
    Session(0, 0, 2, None, false, Absent, false, [], [], [], [], [], [])
  }

  // The owner is told once that the session is lost, and not while the session is closing.
  function ReportFatal(s: Session): Session
  {
    if s.closing || s.fatalReported then s
    else s.(fatalReported := true, fatals := s.fatals + [s.closing])
  }

  // ---------------------------------------------------------------- requests

  // `send_request` up to its first await. A request that is too short, a closing session or a dead
  // reader is refused; an exhausted counter ends the session.
  function Begin(s: Session, request: bytes): Session
  {
    if s.active.Some? || |request| < 4 || s.closing || s.reader != Running then s else
    var begun := s.(requests := s.requests + [request]);
    if s.txCounter > MAX_MIOT_COUNTER then ReportFatal(begun)
    else begun.(active := Some(Requester(|s.requests|, request, Open, true, false)),
                txCounter := s.txCounter + 1, encrypted := s.encrypted + [s.txCounter])
  }

  function Sent(s: Session): Session
  {
    if s.active.Some? then s.(active := Some(s.active.value.(sent := true))) else s
  }

  // A write failed, the control channel or the response timed out, or the caller was cancelled.
  function Fail(s: Session): Session
  {
    s.(active := None)
  }

  function Return(s: Session): Session
  {
    if s.active.Some? && s.active.value.sent && s.active.value.future.Answered?
    then s.(active := None, returned := s.returned + [(s.active.value.id, s.active.value.future.plaintext)])
    else s
  }

  function NextSequence(s: Session): Session
  {
    var next := (s.requestSeq + 1) % 0x10000;
    s.(requestSeq := if next == 0 then 1 else next)
  }

  // ------------------------------------------------------------------ reader

  predicate Answers(r: Requester, pt: bytes)
  {
    && r.listed && r.future == Open && |r.request| >= 4 && |pt| >= 4
    && pt[2..4] == r.request[2..4] && pt[..2] in ExpectedResponses(r.request[..2])
  }

  function RouteOf(s: Session, pt: bytes): Route
  {
    if s.active.Some? && Answers(s.active.value, pt) then Response(s.active.value.id, pt)
    else if IsPropertyEvent(pt) then Callback(pt)
    else Ignored(pt)
  }

  function StopReader(s: Session): Session
  {
    var broken := if s.active.Some? && s.active.value.listed && s.active.value.future == Open
                  then s.(active := Some(s.active.value.(future := Broken))) else s;
    ReportFatal(broken.(reader := Stopped))
  }

  // A frame that decrypted: its counter is used up and its plaintext goes to exactly one place.
  function Deliver(s: Session, counter: nat, pt: bytes): Session
  {
    s.(rxCounter := counter + 1, delivered := s.delivered + [counter], routes := s.routes + [RouteOf(s, pt)],
       active := if RouteOf(s, pt).Response? then Some(s.active.value.(future := Answered(pt))) else s.active)
  }

  // The reader's work on one frame it received.
  function Inbound(s: Session, dec: Decrypt, frame: MiotFrame): Session
  {
    if s.reader != Running then s
    else if frame.counter < s.rxCounter then StopReader(s) else
    match dec(frame.ciphertext, frame.counter)
    case None => s
    case Some(pt) =>
      if frame.counter >= MAX_MIOT_COUNTER then StopReader(Deliver(s, frame.counter, pt))
      else Deliver(s, frame.counter, pt)
  }

  // ------------------------------------------------------------------- events

  datatype Event =
    | BeginRequest(request: bytes) | RequestSent | RequestFails | RequestReturns | TakeSequence
    | InboundFrame(frame: MiotFrame) | ReaderFails
    | Unsubscribe | ReaderCancelled | SlotCleared
    | Subscribe | ReaderStarted

  function Apply(s: Session, dec: Decrypt, e: Event): Session
  {
    match e
    case BeginRequest(request) => Begin(s, request)
    case RequestSent => Sent(s)
    case RequestFails => Fail(s)
    case RequestReturns => Return(s)
    case TakeSequence => NextSequence(s)
    case InboundFrame(frame) => Inbound(s, dec, frame)
    case ReaderFails => if s.reader == Running then StopReader(s) else s
    case Unsubscribe => s.(closing := true)
    case ReaderCancelled => s.(reader := Absent)
    case SlotCleared =>
      if s.active.Some? && s.active.value.listed
      then s.(active := Some(s.active.value.(listed := false,
                future := if s.active.value.future == Open then Withdrawn else s.active.value.future)))
      else s
    case Subscribe => s.(closing := false)
    case ReaderStarted => if s.reader == Absent then s.(reader := Running) else s
  }

  function Run(dec: Decrypt, events: seq<Event>): Session
    decreases |events|
  {
    if events == [] then Initial() else Apply(Run(dec, events[..|events| - 1]), dec, events[|events| - 1])
  }

  // ------------------------------------------------- what every run maintains

  ghost predicate Increasing(s: seq<nat>)
  {
    forall i, j :: 0 <= i < j < |s| ==> s[i] < s[j]
  }

  ghost predicate ProperAnswer(s: Session, id: nat, pt: bytes)
  {
    && id < |s.requests| && |s.requests[id]| >= 4 && |pt| >= 4
    && pt[2..4] == s.requests[id][2..4] && pt[..2] in ExpectedResponses(s.requests[id][..2])
  }

  ghost predicate RightRoute(s: Session, i: nat)
    requires i < |s.routes|
  {
    match s.routes[i]
    case Response(id, pt) => ProperAnswer(s, id, pt)
    case Callback(pt) => IsPropertyEvent(pt)
    case Ignored(pt) => !IsPropertyEvent(pt)
  }

  ghost predicate Counters(s: Session)
  {
    && s.txCounter <= MAX_MIOT_COUNTER + 1
    && |s.encrypted| == s.txCounter && (forall i :: 0 <= i < |s.encrypted| ==> s.encrypted[i] == i)
    && |s.delivered| == |s.routes|
    && Increasing(s.delivered)
    && (forall i :: 0 <= i < |s.delivered| ==> s.delivered[i] < s.rxCounter)
    && (s.delivered != [] ==> s.rxCounter == s.delivered[|s.delivered| - 1] + 1)
  }

  ghost predicate Slot(s: Session)
  {
    && (s.active.Some? ==>
          && s.active.value.id < |s.requests| && s.active.value.request == s.requests[s.active.value.id]
          && |s.active.value.request| >= 4)
    && (s.active.Some? && s.active.value.future.Answered? ==>
          Response(s.active.value.id, s.active.value.future.plaintext) in s.routes)
  }

  // A request is answered at most once, and only while it is open.
  ghost predicate Answered1(s: Session)
  {
    && (forall i, j ::
          0 <= i < j < |s.routes| && s.routes[i].Response? && s.routes[j].Response? ==> s.routes[i].id < s.routes[j].id)
    && (forall i :: 0 <= i < |s.routes| && s.routes[i].Response? ==> s.routes[i].id < |s.requests|)
    && (s.active.Some? && s.active.value.future == Open ==>
          forall i :: 0 <= i < |s.routes| && s.routes[i].Response? ==> s.routes[i].id < s.active.value.id)
    && (s.active.Some? ==> s.active.value.id == |s.requests| - 1)
    && (forall i, j :: 0 <= i < j < |s.returned| ==> s.returned[i].0 < s.returned[j].0)
    && (forall r <- s.returned :: r.0 < |s.requests| && (s.active.Some? ==> r.0 < s.active.value.id))
  }

  ghost predicate Routed(s: Session)
  {
    && (forall i :: 0 <= i < |s.routes| ==> RightRoute(s, i))
    && (forall r <- s.returned :: Response(r.0, r.1) in s.routes)
  }

  ghost predicate Fatal(s: Session)
  {
    && |s.fatals| == (if s.fatalReported then 1 else 0)
    && (forall closing <- s.fatals :: !closing)
  }

  ghost predicate Sound(s: Session)
  {
    Counters(s) && Slot(s) && Answered1(s) && Routed(s) && Fatal(s)
  }

  lemma BeginSound(s: Session, request: bytes)
    requires Sound(s)
    ensures Sound(Begin(s, request))
  {
    var t := Begin(s, request);
    assert t.routes == s.routes;
    forall i | 0 <= i < |t.routes| ensures RightRoute(t, i) {
      assert RightRoute(s, i);
    }
  }

  lemma StopReaderSound(s: Session)
    requires Sound(s)
    ensures Sound(StopReader(s))
  {
    var t := StopReader(s);
    forall i | 0 <= i < |t.routes| ensures RightRoute(t, i) {
      assert RightRoute(s, i);
    }
  }

  lemma InboundSound(s: Session, dec: Decrypt, frame: MiotFrame)
    requires Sound(s)
    ensures Sound(Inbound(s, dec, frame))
  {
    if s.reader == Running {
      if frame.counter < s.rxCounter {
        StopReaderSound(s);
      } else if dec(frame.ciphertext, frame.counter).Some? {
        var pt := dec(frame.ciphertext, frame.counter).value;
        DeliverSound(s, frame.counter, pt);
        StopReaderSound(Deliver(s, frame.counter, pt));
      }
    }
  }

  lemma DeliverSound(s: Session, counter: nat, pt: bytes)
    requires Sound(s) && counter >= s.rxCounter
    ensures Sound(Deliver(s, counter, pt))
  {
    var t := Deliver(s, counter, pt);
    forall i | 0 <= i < |t.routes| ensures RightRoute(t, i) {
      if i < |s.routes| {
        assert RightRoute(s, i);
      }
    }
    forall r <- t.returned ensures Response(r.0, r.1) in t.routes {
      assert Response(r.0, r.1) in s.routes;
    }
    if t.active.Some? && t.active.value.future.Answered? {
      if RouteOf(s, pt).Response? {
        assert t.routes[|s.routes|] == RouteOf(s, pt);
      } else {
        assert Response(t.active.value.id, t.active.value.future.plaintext) in s.routes;
      }
    }
  }

  lemma SoundKept(s: Session, dec: Decrypt, e: Event)
    requires Sound(s)
    ensures Sound(Apply(s, dec, e))
  {
    match e
    case BeginRequest(request) => BeginSound(s, request);
    case InboundFrame(frame) => InboundSound(s, dec, frame);
    case ReaderFails => StopReaderSound(s);
    case _ => OtherSound(s, dec, e);
  }

  lemma OtherSound(s: Session, dec: Decrypt, e: Event)
    requires Sound(s) && !e.BeginRequest? && !e.InboundFrame? && !e.ReaderFails?
    ensures Sound(Apply(s, dec, e))
  {
    var t := Apply(s, dec, e);
    forall i | 0 <= i < |t.routes| ensures RightRoute(t, i) {
      assert RightRoute(s, i);
    }
  }

  lemma {:induction false} SoundRun(dec: Decrypt, events: seq<Event>)
    ensures Sound(Run(dec, events))
    decreases |events|
  {
    if events != [] {
      SoundRun(dec, events[..|events| - 1]);
      SoundKept(Run(dec, events[..|events| - 1]), dec, events[|events| - 1]);
    }
  }
}
