/** The session's promises, for every run of requests, frames, failures and (un)subscriptions. */
module SessionTheorems {
  import opened Bytes
  import opened MiotTransport
  import opened SessionModel

  // ------------------------------------------------------------------ nonces

  function Nonce(iv: bytes, counter: nat): bytes
    requires |iv| == 4 && counter < 0x1_0000_0000
  {
    iv + [0, 0, 0, 0] + Le32(counter)
  }

  // A nonce is the four IV bytes, four zero bytes, and the counter with its low byte first.
  lemma NonceLayout(iv: bytes, counter: nat)
    requires |iv| == 4 && counter < 0x1_0000_0000
    ensures var n := Nonce(iv, counter);
            && |n| == 12 && n[..4] == iv && n[4..8] == [0, 0, 0, 0]
            && counter == n[8] as nat + 0x100 * n[9] as nat + 0x1_0000 * n[10] as nat + 0x100_0000 * n[11] as nat
  {
    var n := Nonce(iv, counter);
    assert n[8..] == Le32(counter);
    assert U32(n[8..], 0) == counter;
  }

  lemma NonceInjective(iv: bytes, a: nat, b: nat)
    requires |iv| == 4 && a < 0x1_0000_0000 && b < 0x1_0000_0000
    ensures |Nonce(iv, a)| == 12
    ensures Nonce(iv, a) == Nonce(iv, b) ==> a == b
  {
    assert Nonce(iv, a)[8..] == Le32(a) && Nonce(iv, b)[8..] == Le32(b);
    assert U32(Le32(a), 0) == a && U32(Le32(b), 0) == b;
  }

  // Whatever fails, is cancelled or is resubscribed: the counters handed to encryption are 0, 1, 2, ...
  // up to at most 65535, so no two encryptions ever share a nonce.
  lemma SendCountersNeverReused(dec: Decrypt, events: seq<Event>, iv: bytes)
    requires |iv| == 4
    ensures var e := Run(dec, events).encrypted;
            && |e| <= 65536
            && (forall i :: 0 <= i < |e| ==> 0 <= e[i] <= 65535)
            && Increasing(e)
            && (forall i, j :: 0 <= i < j < |e| ==> Nonce(iv, e[i]) != Nonce(iv, e[j]))
  {
    SoundRun(dec, events);
    var e := Run(dec, events).encrypted;
    forall i, j | 0 <= i < j < |e| ensures Nonce(iv, e[i]) != Nonce(iv, e[j]) {
      NonceInjective(iv, e[i], e[j]);
    }
  }

  // ----------------------------------------------------------- receive order

  lemma ReceiveOrder(dec: Decrypt, events: seq<Event>)
    ensures Increasing(Run(dec, events).delivered)
    ensures |Run(dec, events).delivered| == |Run(dec, events).routes|
    ensures |Run(dec, events).fatals| <= 1 && forall closing <- Run(dec, events).fatals :: !closing
  {
    SoundRun(dec, events);
  }

  // A frame that does not decrypt leaves no trace exactly when its counter is not used up: the counter is
  // looked at before the ciphertext. With a used-up counter the same garbled frame ends the session: the
  // pending request breaks, the reader stops, and the owner is told unless it is closing or was told before.
  lemma UndecryptableFrame(s: Session, dec: Decrypt, frame: MiotFrame)
    requires dec(frame.ciphertext, frame.counter).None?
    ensures var t := Inbound(s, dec, frame);
            && t.rxCounter == s.rxCounter && t.txCounter == s.txCounter
            && t.delivered == s.delivered && t.routes == s.routes && t.returned == s.returned
            && (t == s <==> s.reader != Running || frame.counter >= s.rxCounter)
            && (t != s ==>
                  && t.reader == Stopped
                  && t.fatals == s.fatals + (if s.closing || s.fatalReported then [] else [false])
                  && t.active == (if s.active.Some? && s.active.value.listed && s.active.value.future == Open
                                  then Some(s.active.value.(future := Broken)) else s.active))
  {
    var t := Inbound(s, dec, frame);
    if t != s {
      assert t == StopReader(s);
      assert s.fatals + [] == s.fatals;
    }
  }

  // Decrypts everything but the empty ciphertext.
  function AnyCipher(ciphertext: bytes, counter: nat): Option<bytes>
  {
    if ciphertext == [] then None else Some(ciphertext)
  }

  // A run in which that happens: a request waits for its answer, an event arrives, and then a garbled frame
  // with the event's counter.
  lemma GarbledFrameBreaksPendingRequest()
    ensures var request, event: bytes := [0x33, 0x20, 0x02, 0x00], [0x0f, 0x20, 0x00, 0x00];
            var before := [ReaderStarted, BeginRequest(request), InboundFrame(MiotFrame(0, event))];
            var s := Run(AnyCipher, before);
            var t := Run(AnyCipher, before + [InboundFrame(MiotFrame(0, []))]);
            && AnyCipher([], 0).None?
            && s.reader == Running && s.active == Some(Requester(0, request, Open, true, false)) && s.fatals == []
            && t.reader == Stopped && t.active == Some(Requester(0, request, Broken, true, false))
                && t.fatals == [false]
  {
    var request, event: bytes := [0x33, 0x20, 0x02, 0x00], [0x0f, 0x20, 0x00, 0x00];
    var before := [ReaderStarted, BeginRequest(request), InboundFrame(MiotFrame(0, event))];
    assert before[..2][..1] == before[..1] && before[..1][..0] == [];
    var s1 := Initial().(reader := Running);
    assert Run(AnyCipher, before[..1]) == s1;
    var s2 := Begin(s1, request);
    assert Run(AnyCipher, before[..2]) == s2;
    assert event[..2] == [0x0f, 0x20] && request[..2] == [0x33, 0x20] && !Answers(s2.active.value, event);
    assert Run(AnyCipher, before) == Deliver(s2, 0, event);
    var garbled := [InboundFrame(MiotFrame(0, []))];
    assert (before + garbled)[..3] == before;
  }

  // The last possible counter is still delivered, and then the reader stops.
  lemma LastCounterIsDelivered(s: Session, dec: Decrypt, frame: MiotFrame)
    requires s.reader == Running && s.rxCounter <= frame.counter == MAX_MIOT_COUNTER
    requires dec(frame.ciphertext, frame.counter).Some?
    ensures var t := Inbound(s, dec, frame);
            && t.delivered == s.delivered + [MAX_MIOT_COUNTER] && t.reader == Stopped
            && |t.routes| == |s.routes| + 1 && t.rxCounter > MAX_MIOT_COUNTER
  {
  }

  lemma SpentStays(s: Session, dec: Decrypt, e: Event)
    requires s.rxCounter > MAX_MIOT_COUNTER
    requires e.InboundFrame? ==> e.frame.counter <= MAX_MIOT_COUNTER
    ensures Apply(s, dec, e).rxCounter == s.rxCounter && Apply(s, dec, e).delivered == s.delivered
  {
  }

  // From then on nothing is delivered, whatever is subscribed again: frames carry 16-bit counters.
  lemma {:induction false} NothingAfterLast(dec: Decrypt, events: seq<Event>, more: seq<Event>)
    requires Run(dec, events).rxCounter > MAX_MIOT_COUNTER
    requires forall e <- more :: e.InboundFrame? ==> e.frame.counter <= MAX_MIOT_COUNTER
    ensures Run(dec, events + more).delivered == Run(dec, events).delivered
    ensures Run(dec, events + more).rxCounter > MAX_MIOT_COUNTER
    decreases |more|
  {
    if more == [] {
      assert events + more == events;
    } else {
      var before := more[..|more| - 1];
      NothingAfterLast(dec, events, before);
      assert (events + more)[..|events + more| - 1] == events + before;
      SpentStays(Run(dec, events + before), dec, more[|more| - 1]);
    }
  }

  // Over a whole run: a frame with counter 65535 is delivered, the reader stops on it, and it is the last
  // frame that is ever delivered.
  lemma LastCounterEndsDelivery(dec: Decrypt, events: seq<Event>, frame: MiotFrame, more: seq<Event>)
    requires var s := Run(dec, events); s.reader == Running && s.rxCounter <= frame.counter == MAX_MIOT_COUNTER
    requires dec(frame.ciphertext, frame.counter).Some?
    requires forall e <- more :: e.InboundFrame? ==> e.frame.counter <= MAX_MIOT_COUNTER
    ensures Run(dec, events + [InboundFrame(frame)]).reader == Stopped
    ensures Run(dec, events + [InboundFrame(frame)] + more).delivered
         == Run(dec, events).delivered + [MAX_MIOT_COUNTER]
  {
    var longer := events + [InboundFrame(frame)];
    assert longer[..|events|] == events;
    LastCounterIsDelivered(Run(dec, events), dec, frame);
    NothingAfterLast(dec, longer, more);
  }

  // ----------------------------------------------------------------- routing

  // The opcodes that answer a request, byte by byte: four kinds of request have their own answers, and any other
  // request is answered under its own opcode.
  predicate OpcodeAnswers(request: bytes, pt: bytes)
    requires |request| >= 2 && |pt| >= 2
  {
    || (request[0], request[1], pt[0], pt[1]) == (0x05, 0x20, 0x05, 0x20)
    || (request[0], request[1], pt[0], pt[1]) == (0x0c, 0x20, 0x0b, 0x20)
    || (request[0], request[1], pt[0], pt[1]) == (0x24, 0x20, 0x66, 0x20)
    || (request[0], request[1], pt[0], pt[1]) == (0x33, 0x20, 0x0e, 0x20)
    || (request[0], request[1], pt[0], pt[1]) == (0x33, 0x20, 0x1c, 0x20)
    || (request[0], request[1], pt[0], pt[1]) == (0x33, 0x20, 0x93, 0x20)
    || (pt[0] == request[0] && pt[1] == request[1] && !(request[1] == 0x20 && request[0] in {0x05, 0x0c, 0x24, 0x33}))
  }

  predicate SameSequence(request: bytes, pt: bytes)
    requires |request| >= 4
  {
    |pt| >= 4 && pt[2] == request[2] && pt[3] == request[3]
  }

  predicate EventBytes(pt: bytes)
  {
    && |pt| >= 2 && pt[1] == 0x20
    && (pt[0] == 0x0f || (|pt| >= 5 && pt[0] == 0x0c && pt[4] == 0x04))
  }

  lemma TwoBytes(a: bytes, b: bytes)
    requires |a| == 2 && |b| == 2
    ensures a == b <==> a[0] == b[0] && a[1] == b[1]
  {
  }

  lemma ExpectedIff(request: bytes, pt: bytes)
    requires |request| >= 2 && |pt| >= 2
    ensures pt[..2] in ExpectedResponses(request[..2]) <==> OpcodeAnswers(request, pt)
  {
    var q, a := request[..2], pt[..2];
    TwoBytes(q, [0x05, 0x20]);
    TwoBytes(q, [0x0c, 0x20]);
    TwoBytes(q, [0x24, 0x20]);
    TwoBytes(q, [0x33, 0x20]);
    TwoBytes(a, [0x05, 0x20]);
    TwoBytes(a, [0x0b, 0x20]);
    TwoBytes(a, [0x66, 0x20]);
    TwoBytes(a, [0x0e, 0x20]);
    TwoBytes(a, [0x1c, 0x20]);
    TwoBytes(a, [0x93, 0x20]);
    TwoBytes(a, q);
  }

  lemma AnswersIff(r: Requester, pt: bytes)
    requires |r.request| >= 4
    ensures Answers(r, pt)
            <==> r.listed && r.future == Open && SameSequence(r.request, pt) && OpcodeAnswers(r.request, pt)
  {
    if |pt| >= 4 {
      ExpectedIff(r.request, pt);
      TwoBytes(pt[2..4], r.request[2..4]);
    }
  }

  lemma EventIff(pt: bytes)
    ensures IsPropertyEvent(pt) <==> EventBytes(pt)
  {
    if |pt| >= 2 {
      TwoBytes(pt[..2], [0x0f, 0x20]);
      TwoBytes(pt[..2], [0x0c, 0x20]);
    }
  }

  // In every run a frame that decrypts and is in order goes to exactly one place. It completes the open request
  // if and only if the session still lists it, the sequence bytes agree, and the opcodes belong together;
  // otherwise it goes to the owner if and only if it is a property event. Nothing else becomes of the request.
  lemma FrameGoesWhere(dec: Decrypt, events: seq<Event>, frame: MiotFrame)
    requires var s := Run(dec, events);
             && s.reader == Running && s.rxCounter <= frame.counter && dec(frame.ciphertext, frame.counter).Some?
    ensures var s := Run(dec, events);
            var t := Run(dec, events + [InboundFrame(frame)]);
            var pt := dec(frame.ciphertext, frame.counter).value;
            && t.rxCounter == frame.counter + 1 && t.delivered == s.delivered + [frame.counter]
            && (s.active.Some? ==> |s.active.value.request| >= 4)
            && if && s.active.Some? && s.active.value.listed && s.active.value.future == Open
                  && SameSequence(s.active.value.request, pt) && OpcodeAnswers(s.active.value.request, pt) then
                 && t.routes == s.routes + [Response(s.active.value.id, pt)]
                 && t.active == Some(s.active.value.(future := Answered(pt)))
               else
                 && t.routes == s.routes + [if EventBytes(pt) then Callback(pt) else Ignored(pt)]
                 && (frame.counter < 65535 ==> t.active == s.active)
  {
    SoundRun(dec, events);
    var s := Run(dec, events);
    var longer := events + [InboundFrame(frame)];
    assert longer[..|events|] == events;
    var pt := dec(frame.ciphertext, frame.counter).value;
    EventIff(pt);
    if s.active.Some? {
      AnswersIff(s.active.value, pt);
    }
  }

  // No request is on its way, and the next one can go out.
  predicate CanAsk(s: Session)
  {
    s.active.None? && !s.closing && s.reader == Running && s.txCounter <= 65535
  }

  // The other half of that: a request that is answered while it waits returns exactly this answer, having spent
  // one counter.
  lemma RequestCompletes(dec: Decrypt, events: seq<Event>, request: bytes, frame: MiotFrame, pt: bytes)
    requires CanAsk(Run(dec, events)) && Run(dec, events).rxCounter <= frame.counter
    requires |request| >= 4 && dec(frame.ciphertext, frame.counter) == Some(pt)
    requires SameSequence(request, pt) && OpcodeAnswers(request, pt)
    ensures var s := Run(dec, events);
            var t := Run(dec, events + [BeginRequest(request), RequestSent, InboundFrame(frame), RequestReturns]);
            && t.requests == s.requests + [request] && t.returned == s.returned + [(|s.requests|, pt)]
            && t.encrypted == s.encrypted + [s.txCounter] && t.txCounter == s.txCounter + 1 && t.active.None?
  {
    var s := Run(dec, events);
    var all := events + [BeginRequest(request), RequestSent, InboundFrame(frame), RequestReturns];
    var asked := events + [BeginRequest(request), RequestSent];
    var n := |events|;
    assert all[..n + 3][..n + 2] == asked && asked[..n + 1][..n] == events;
    assert Run(dec, asked[..n + 1]) == Begin(s, request);
    assert Run(dec, asked) == Sent(Begin(s, request));
    var r := Requester(|s.requests|, request, Open, true, true);
    assert Run(dec, asked).active == Some(r);
    AnswersIff(r, pt);
    assert Run(dec, all[..n + 3]).active == Some(r.(future := Answered(pt)));
  }

  // A request is refused if and only if it is too short, the session is closing, or its reader does not run (the
  // request lock keeps two apart); with the counters used up it is refused too, and the session ends.
  lemma RequestGoesOutIff(s: Session, request: bytes)
    requires s.active.None?
    ensures var t := Begin(s, request);
            && (t.encrypted != s.encrypted <==>
                  |request| >= 4 && !s.closing && s.reader == Running && s.txCounter <= 65535)
            && (t.encrypted != s.encrypted ==>
                  && t.encrypted == s.encrypted + [s.txCounter] && t.txCounter == s.txCounter + 1
                  && t.active == Some(Requester(|s.requests|, request, Open, true, false)))
            && (t.encrypted == s.encrypted ==> t.active.None? && t.txCounter == s.txCounter)
            && (t.fatals != s.fatals <==>
                  && |request| >= 4 && !s.closing && s.reader == Running && s.txCounter > 65535 && !s.fatalReported)
            && (t.fatals != s.fatals ==> t.fatals == s.fatals + [false])
  {
  }

  // An unsubscribed session withdraws the request that waits, reads no frame, sends nothing, and tells its owner
  // nothing. Subscribed again it sends under the next counter, and frames must still be in order.
  lemma UnsubscribedIsSilent(s: Session, dec: Decrypt, request: bytes, frame: MiotFrame)
    ensures var t := Closed(s, dec);
            && t.txCounter == s.txCounter && t.rxCounter == s.rxCounter && t.encrypted == s.encrypted
            && (s.active.Some? ==>
                  && t.active.Some? && !t.active.value.listed
                  && (s.active.value.listed && s.active.value.future == Open ==> t.active.value.future == Withdrawn))
            && Apply(t, dec, BeginRequest(request)) == t && Apply(t, dec, InboundFrame(frame)) == t
            && Apply(t, dec, ReaderFails) == t
  {
  }

  lemma SubscribedAgain(s: Session, dec: Decrypt, request: bytes)
    ensures var t := Apply(Apply(Closed(s, dec), dec, Subscribe), dec, ReaderStarted);
            && t.reader == Running && t.txCounter == s.txCounter && t.rxCounter == s.rxCounter
            && (t.active.None? && |request| >= 4 && s.txCounter <= 65535 ==>
                  Apply(t, dec, BeginRequest(request)).encrypted == s.encrypted + [s.txCounter])
  {
  }

  function Closed(s: Session, dec: Decrypt): Session
  {
    Apply(Apply(Apply(s, dec, Unsubscribe), dec, ReaderCancelled), dec, SlotCleared)
  }

  // Each decrypted frame went to one place; a response has its own request's sequence and an opcode that answers
  // it; no request is answered or returned twice; what was returned was routed there.
  lemma Routing(dec: Decrypt, events: seq<Event>)
    ensures var s := Run(dec, events);
            && (forall i :: 0 <= i < |s.routes| ==> WellRouted(s.requests, s.routes[i]))
            && (forall i, j :: 0 <= i < j < |s.routes| && s.routes[i].Response? && s.routes[j].Response?
                  ==> s.routes[i].id != s.routes[j].id)
            && (forall i, j :: 0 <= i < j < |s.returned| ==> s.returned[i].0 != s.returned[j].0)
            && (forall r <- s.returned :: Response(r.0, r.1) in s.routes)
  {
    SoundRun(dec, events);
    var s := Run(dec, events);
    forall i | 0 <= i < |s.routes| ensures WellRouted(s.requests, s.routes[i]) {
      assert RightRoute(s, i);
      EventIff(s.routes[i].plaintext);
      if s.routes[i].Response? {
        var request, pt := s.requests[s.routes[i].id], s.routes[i].plaintext;
        ExpectedIff(request, pt);
        TwoBytes(pt[2..4], request[2..4]);
      }
    }
  }

  predicate WellRouted(requests: seq<bytes>, route: Route)
  {
    match route
    case Response(id, pt) =>
      id < |requests| && |requests[id]| >= 4 && SameSequence(requests[id], pt) && OpcodeAnswers(requests[id], pt)
    case Callback(pt) => EventBytes(pt)
    case Ignored(pt) => !EventBytes(pt)
  }

  // A property event never answers a request, except a request that is itself a 0f20.
  lemma EventsAreNotAnswers(dec: Decrypt, events: seq<Event>, i: nat)
    requires i < |Run(dec, events).routes| && Run(dec, events).routes[i].Response?
    requires IsPropertyEvent(Run(dec, events).routes[i].plaintext)
    ensures var s := Run(dec, events);
            s.routes[i].id < |s.requests| && |s.requests[s.routes[i].id]| >= 4
            && s.requests[s.routes[i].id][..2] == [0x0f, 0x20]
  {
    SoundRun(dec, events);
    var s := Run(dec, events);
    assert RightRoute(s, i);
    var opcode, pt := s.requests[s.routes[i].id][..2], s.routes[i].plaintext;
    assert pt[..2] in ExpectedResponses(opcode);
    FirstBytes(pt);
    assert pt[1] == 0x20 && pt[0] in {0x0f, 0x0c};
    if opcode in {[0x05, 0x20], [0x0c, 0x20], [0x24, 0x20], [0x33, 0x20]} {
      NoEventOpcode(opcode, pt[..2]);
      assert false;
    }
  }

  lemma FirstBytes(pt: bytes)
    requires |pt| >= 2
    ensures pt[..2] == [pt[0], pt[1]]
  {
  }

  lemma NoEventOpcode(opcode: bytes, answer: bytes)
    requires opcode in {[0x05, 0x20], [0x0c, 0x20], [0x24, 0x20], [0x33, 0x20]} && answer in ExpectedResponses(opcode)
    ensures |answer| == 2 && answer[0] in {0x05, 0x0b, 0x66, 0x0e, 0x1c, 0x93}
  {
  }

  // --------------------------------------------------------------- sequences

  // The k-th sequence number handed out, counting from 0.
  function SequenceNumber(k: nat): nat
  {
    (k + 1) % 65535 + 1
  }

  function Taken(events: seq<Event>): nat
  {
    if events == [] then 0
    else Taken(events[..|events| - 1]) + (if events[|events| - 1].TakeSequence? then 1 else 0)
  }

  lemma SequenceStep(k: nat)
    ensures var next := (SequenceNumber(k) + 1) % 0x10000;
            (if next == 0 then 1 else next) == SequenceNumber(k + 1)
  {
    if (k + 1) % 65535 == 65534 {
      assert (k + 2) % 65535 == 0;
    } else {
      assert (k + 2) % 65535 == (k + 1) % 65535 + 1;
    }
  }

  lemma OnlyTakeSequenceCounts(s: Session, dec: Decrypt, e: Event)
    requires !e.TakeSequence?
    ensures Apply(s, dec, e).requestSeq == s.requestSeq
  {
  }

  lemma {:induction false} SequenceOfRun(dec: Decrypt, events: seq<Event>)
    ensures Run(dec, events).requestSeq == SequenceNumber(Taken(events))
    decreases |events|
  {
    if events != [] {
      var before, e := events[..|events| - 1], events[|events| - 1];
      SequenceOfRun(dec, before);
      if e.TakeSequence? {
        SequenceStep(Taken(before));
      } else {
        OnlyTakeSequenceCounts(Run(dec, before), dec, e);
      }
    }
  }

  lemma SequencesDiffer(k: nat, m: nat)
    requires k < m < k + 65535
    ensures 1 <= SequenceNumber(k) <= 65535 && SequenceNumber(k) != SequenceNumber(m)
  {
    var q := (m + 1) / 65535 - (k + 1) / 65535;
    assert m - k == 65535 * q + ((m + 1) % 65535 - (k + 1) % 65535);
  }

  // A late answer to one request cannot complete another one within 65535 consecutive sequences.
  lemma LateAnswerMatchesNothing(dec: Decrypt, events: seq<Event>, i: nat, k: nat, m: nat, pt: bytes)
    requires var s := Run(dec, events);
             && i < |s.routes| && s.routes[i].Response? && s.routes[i].id < |s.requests|
             && |s.requests[s.routes[i].id]| >= 4 && s.requests[s.routes[i].id][2..4] == Le16(SequenceNumber(m))
    requires k != m && k < m + 65535 && m < k + 65535
    requires |pt| >= 4 && pt[2..4] == Le16(SequenceNumber(k))
    ensures Run(dec, events).routes[i].plaintext != pt
  {
    SoundRun(dec, events);
    assert RightRoute(Run(dec, events), i);
    if k < m { SequencesDiffer(k, m); } else { SequencesDiffer(m, k); }
    assert U16(Le16(SequenceNumber(k)), 0) != U16(Le16(SequenceNumber(m)), 0);
  }
}
