/** The session's routing and the property codec belong together: what the one lets through, the other reads. */
module SessionCodec {
  import opened Bytes
  import opened Properties
  import opened MiotTransport
  import opened SessionModel
  import opened SessionTheorems

  lemma GetRequestBytes(sequence: int, tuples: seq<(int, int)>)
    requires GetRequest(sequence, tuples).Ok?
    ensures var q := GetRequest(sequence, tuples).value;
            0 <= sequence < 0x10000 && |q| >= 6 && q[0] == 0x33 && q[1] == 0x20 && U16(q, 2) == sequence
  {
    var q := GetRequest(sequence, tuples).value;
    var head: bytes := [0x33, 0x20] + Le16(sequence) + [0x02, |tuples| as byte];
    assert q[..6] == head && head[2] == Le16(sequence)[0] && head[3] == Le16(sequence)[1];
  }

  lemma SequencesAgree(request: bytes, pt: bytes)
    requires |request| >= 4 && |pt| >= 4 && U16(request, 2) == U16(pt, 2)
    ensures SameSequence(request, pt)
  {
    Le16OfU16(request, 2);
    Le16OfU16(pt, 2);
    assert request[2..4][0] == request[2] && request[2..4][1] == request[3];
    assert pt[2..4][0] == pt[2] && pt[2..4][1] == pt[3];
  }

  // A poll over a whole run: whatever answer to its request the codec accepts, the session lets it through, and
  // the caller reads it.
  lemma PollIsAnswered(
    dec: Decrypt, events: seq<Event>, sequence: int, tuples: seq<(int, int)>, frame: MiotFrame, pt: bytes)
    requires GetRequest(sequence, tuples).Ok? && ParseResponse(pt).Ok? && U16(pt, 2) == sequence
    requires CanAsk(Run(dec, events)) && Run(dec, events).rxCounter <= frame.counter
    requires dec(frame.ciphertext, frame.counter) == Some(pt)
    ensures var request := GetRequest(sequence, tuples).value;
            var t := Run(dec, events + [BeginRequest(request), RequestSent, InboundFrame(frame), RequestReturns]);
            t.returned == Run(dec, events).returned + [(|Run(dec, events).requests|, pt)]
  {
    GetRequestBytes(sequence, tuples);
    var request := GetRequest(sequence, tuples).value;
    ResponseAcceptedIff(pt, ParseResponse(pt).value);
    SequencesAgree(request, pt);
    RequestCompletes(dec, events, request, frame, pt);
  }

  // A write over a whole run: the one answer that `set_property` accepts for this sequence completes it.
  lemma WriteIsAnswered(
    dec: Decrypt, events: seq<Event>, sequence: int, siid: byte, piid: nat, value: Setting, u32: bool,
    frame: MiotFrame, pt: bytes)
    requires piid < 0x10000 && SetRequest(sequence, siid as int, piid, value, u32).Ok?
    requires SetVerdict(pt, siid, piid).Ok? && U16(pt, 2) == sequence
    requires CanAsk(Run(dec, events)) && Run(dec, events).rxCounter <= frame.counter
    requires dec(frame.ciphertext, frame.counter) == Some(pt)
    ensures var request := SetRequest(sequence, siid as int, piid, value, u32).value;
            var t := Run(dec, events + [BeginRequest(request), RequestSent, InboundFrame(frame), RequestReturns]);
            t.returned == Run(dec, events).returned + [(|Run(dec, events).requests|, pt)]
  {
    SetRequestRoundTrip(sequence, siid as int, piid, value, u32);
    var request := SetRequest(sequence, siid as int, piid, value, u32).value;
    assert request[0] == request[..2][0] && request[1] == request[..2][1];
    assert pt[0] == pt[..2][0] && pt[1] == pt[..2][1];
    SequencesAgree(request, pt);
    RequestCompletes(dec, events, request, frame, pt);
  }

  // Whatever the codec reads as an event reaches the owner, unless it completes a request, which must then be
  // one that carries the event's own opcode.
  lemma EventsReachTheOwner(dec: Decrypt, events: seq<Event>, frame: MiotFrame, pt: bytes)
    requires var s := Run(dec, events);
             && s.reader == Running && s.rxCounter <= frame.counter && dec(frame.ciphertext, frame.counter) == Some(pt)
    requires ParseNotification(pt).Ok?
    ensures var s := Run(dec, events);
            var t := Run(dec, events + [InboundFrame(frame)]);
            || t.routes == s.routes + [Callback(pt)]
            || (s.active.Some? && |s.active.value.request| >= 4 && s.active.value.request[0] == 0x0f
                && s.active.value.request[1] == 0x20 && t.routes == s.routes + [Response(s.active.value.id, pt)])
  {
    NotificationAcceptedIff(pt, ParseNotification(pt).value);
    FrameGoesWhere(dec, events, frame);
  }
}
