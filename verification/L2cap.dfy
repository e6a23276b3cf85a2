/** Recombining ATT values from the ACL records of a capture. */
module L2cap {
  import opened Bytes

  datatype Direction = Tx | Rx

  // `flags` is reduced to the direction; times are whole microseconds.
  datatype Record = Record(ts: int, direction: Direction, packetType: byte, payload: bytes)

  datatype AttFrame = AttFrame(ts: int, direction: Direction, aclHandle: nat, attrHandle: nat, value: bytes)

  datatype Acl = Acl(handle: nat, boundary: nat, data: bytes)

  // An L2CAP PDU that is still incomplete: its channel, what arrived, and its announced length.
  datatype Partial = Partial(cid: nat, data: bytes, length: nat)

  type Buffers = map<nat, Partial>

  function ParseAcl(payload: bytes): Option<Acl>
  {
    if |payload| < 4 then None else
    var flags := U16(payload, 0);
    var length := U16(payload, 2);
    var data := if 4 + length <= |payload| then payload[4..4 + length] else payload[4..];
    Some(Acl(flags % 0x1000, flags / 0x1000 % 4, data))
  }

  function ParseAtt(ts: int, direction: Direction, handle: nat, cid: nat, pdu: bytes): Option<AttFrame>
  {
    if cid != 0x0004 || |pdu| < 3 || pdu[0] !in {0x12, 0x1b, 0x1d, 0x52} then None
    else Some(AttFrame(ts, direction, handle, U16(pdu, 1), pdu[3..]))
  }

  // One record: what it emits, and the buffers behind it.
  function Step(buffers: Buffers, start: int, rec: Record, acl: Acl): (Option<AttFrame>, Buffers)
  {
    if acl.boundary in {0, 2} then
      if |acl.data| < 4 then (None, buffers) else
      var length, cid, fragment := U16(acl.data, 0), U16(acl.data, 2), acl.data[4..];
      if |fragment| >= length
      then (ParseAtt(rec.ts - start, rec.direction, acl.handle, cid, fragment[..length]), buffers)
      else (None, buffers[acl.handle := Partial(cid, fragment, length)])
    else if acl.boundary == 1 && acl.handle in buffers then
      var open := buffers[acl.handle];
      var data := open.data + acl.data;
      if |data| >= open.length
      then (ParseAtt(rec.ts - start, rec.direction, acl.handle, open.cid, data[..open.length]), buffers - {acl.handle})
      else (None, buffers[acl.handle := open.(data := data)])
    else (None, buffers)
  }

  function Relevant(rec: Record, handles: set<nat>): Option<Acl>
  {
    if rec.packetType != 2 then None else
    match ParseAcl(rec.payload)
    case None => None
    case Some(acl) => if acl.handle in handles then Some(acl) else None
  }

  function Optional<T>(o: Option<T>): seq<T>
  {
    match o case None => [] case Some(x) => [x]
  }

  // The ATT frames of the records, in completion order. The clock starts at the first relevant record.
  function AttFrames(records: seq<Record>, handles: set<nat>, start: Option<int>, buffers: Buffers): seq<AttFrame>
  {
    if records == [] then [] else
    match Relevant(records[0], handles)
    case None => AttFrames(records[1..], handles, start, buffers)
    case Some(acl) =>
      var began := match start case None => records[0].ts case Some(t) => t;
      var (frame, next) := Step(buffers, began, records[0], acl);
      Optional(frame) + AttFrames(records[1..], handles, Some(began), next)
  }

  lemma FirstRecord(records: seq<Record>, handles: set<nat>, i: nat, start: Option<int>, buffers: Buffers)
    requires i < |records|
    ensures Relevant(records[i], handles).None? ==>
              AttFrames(records[i..], handles, start, buffers) == AttFrames(records[i + 1..], handles, start, buffers)
    ensures Relevant(records[i], handles).Some? ==>
              var began := match start case None => records[i].ts case Some(t) => t;
              var step := Step(buffers, began, records[i], Relevant(records[i], handles).value);
              AttFrames(records[i..], handles, start, buffers)
              == Optional(step.0) + AttFrames(records[i + 1..], handles, Some(began), step.1)
  {
    assert records[i..][1..] == records[i + 1..] && records[i..][0] == records[i];
  }

  lemma OptionalInFront(out: seq<AttFrame>, frame: Option<AttFrame>, rest: seq<AttFrame>)
    ensures out + (Optional(frame) + rest) == (if frame.Some? then out + [frame.value] else out) + rest
  {
    AppendAssociates(out, Optional(frame), rest);
    assert out + [] == out;
  }

  // One pass of the loop in `iter_att_frames`, for a record of a watched connection.
  method TakeRecord(buffers: Buffers, start: int, rec: Record, acl: Acl)
    returns (frame: Option<AttFrame>, next: Buffers)
    ensures (frame, next) == Step(buffers, start, rec, acl)
  {
    frame, next := None, buffers;
    if acl.boundary in {0, 2} {
      if |acl.data| < 4 {
        return;
      }
      var length, cid, fragment := U16(acl.data, 0), U16(acl.data, 2), acl.data[4..];
      if |fragment| >= length {
        frame := ParseAtt(rec.ts - start, rec.direction, acl.handle, cid, fragment[..length]);
      } else {
        next := next[acl.handle := Partial(cid, fragment, length)];
      }
    } else if acl.boundary == 1 && acl.handle in buffers {
      var open := next[acl.handle];
      var data := open.data + acl.data;
      if |data| >= open.length {
        frame := ParseAtt(rec.ts - start, rec.direction, acl.handle, open.cid, data[..open.length]);
        next := next - {acl.handle};
      } else {
        next := next[acl.handle := open.(data := data)];
      }
    }
  }

  // `iter_att_frames`.
  method IterAttFrames(records: seq<Record>, handles: set<nat>) returns (out: seq<AttFrame>)
    ensures out == AttFrames(records, handles, None, map[])
  {
    out := [];
    var buffers: Buffers := map[];
    var start: Option<int> := None;
    for i := 0 to |records|
      invariant AttFrames(records, handles, None, map[]) == out + AttFrames(records[i..], handles, start, buffers)
    {
      var rec := records[i];
      FirstRecord(records, handles, i, start, buffers);
      if rec.packetType != 2 {
        continue;
      }
      var parsed := ParseAcl(rec.payload);
      if parsed.None? || parsed.value.handle !in handles {
        continue;
      }
      if start.None? {
        start := Some(rec.ts);
      }
      var frame;
      frame, buffers := TakeRecord(buffers, start.value, rec, parsed.value);
      OptionalInFront(out, frame, AttFrames(records[i + 1..], handles, start, buffers));
      if frame.Some? {
        out := out + [frame.value];
      }
    }
  }

  // ------------------------------------------------------ what a link may send

  // What travels over L2CAP: an ATT value (a write with or without response, a notification, an
  // indication), or anything else on any channel.
  datatype Pdu =
    | Value(opcode: byte, attribute: nat, value: bytes)
    | Foreign(channel: nat, content: bytes)
  {
    function Cid(): nat { if Value? then 4 else channel }

    function Payload(): bytes
      requires Value? ==> attribute < 0x10000
    {
      if Value? then [opcode] + Le16(attribute) + value else content
    }

    // Nothing foreign looks like an ATT value.
    predicate Legal()
    {
      if Value? then opcode in {0x12, 0x1b, 0x1d, 0x52} && attribute < 0x10000
      else channel < 0x10000
           && (channel == 4 && |content| >= 3 ==>
                 content[0] != 0x12 && content[0] != 0x1b && content[0] != 0x1d && content[0] != 0x52)
    }
  }

  // Whatever arrives on whatever channel is one of the two.
  lemma EveryPduIsTyped(cid: nat, payload: bytes) returns (pdu: Pdu)
    requires cid < 0x10000
    ensures pdu.Legal() && pdu.Cid() == cid && pdu.Payload() == payload
  {
    if cid == 4 && |payload| >= 3 && payload[0] in {0x12, 0x1b, 0x1d, 0x52} {
      pdu := Value(payload[0], U16(payload, 1), payload[3..]);
      Le16OfU16(payload, 1);
      assert payload == [payload[0]] + payload[1..3] + payload[3..];
    } else {
      pdu := Foreign(cid, payload);
    }
  }

  // Exactly the ATT values are taken for ATT values, with their handle and their bytes.
  lemma ParsesAsSent(ts: int, direction: Direction, handle: nat, pdu: Pdu)
    requires pdu.Legal()
    ensures ParseAtt(ts, direction, handle, pdu.Cid(), pdu.Payload())
         == (if pdu.Value? then Some(AttFrame(ts, direction, handle, pdu.attribute, pdu.value)) else None)
  {
    if pdu.Value? {
      var b := pdu.Payload();
      assert b[1..3] == Le16(pdu.attribute) && U16(b, 1) == U16(Le16(pdu.attribute), 0) && b[3..] == pdu.value;
    }
  }

  // A record of a sender. The first fragment of a PDU carries `upTo` bytes of it, a next fragment those up
  // to `upTo`; a fragment that reaches the end may carry excess bytes. Idle records start and continue
  // nothing: an unknown boundary flag, a start too short for its header, or a continuation of nothing.
  // `flags` are the four bits above the handle: the boundary flag and two broadcast bits.
  datatype Fragment =
    | First(ts: int, direction: Direction, handle: nat, flags: nat, pdu: Pdu, upTo: nat, excess: bytes)
    | Next(ts: int, direction: Direction, handle: nat, flags: nat, upTo: nat, excess: bytes)
    | Idle(ts: int, direction: Direction, handle: nat, flags: nat, data: bytes)
    | Other(rec: Record)

  // The PDU open on a handle, and how much of it was sent.
  datatype Sending = Sending(pdu: Pdu, sent: nat)

  type Sendings = map<nat, Sending>

  function Header(handle: nat, flags: nat, data: bytes): bytes
    requires handle < 0x1000 && flags < 16 && |data| < 0x10000
  {
    Le16(handle + 0x1000 * flags) + Le16(|data|) + data
  }

  ghost predicate Fits(f: Fragment, open: Sendings, handles: set<nat>)
  {
    match f
    case First(_, _, h, flags, pdu, upTo, excess) =>
      && h in handles && h < 0x1000 && flags < 16 && flags % 4 in {0, 2} && pdu.Legal()
      && |pdu.Payload()| < 0x10000 && upTo <= |pdu.Payload()| && 4 + upTo + |excess| < 0x10000
      && (excess != [] ==> upTo == |pdu.Payload()|)
    case Next(_, _, h, flags, upTo, excess) =>
      && h in handles && h < 0x1000 && flags < 16 && flags % 4 == 1 && h in open && open[h].pdu.Legal()
      && open[h].sent <= upTo <= |open[h].pdu.Payload()| && upTo - open[h].sent + |excess| < 0x10000
      && (excess != [] ==> upTo == |open[h].pdu.Payload()|)
    case Idle(_, _, h, flags, data) =>
      && h in handles && h < 0x1000 && flags < 16 && |data| < 0x10000
      && (flags % 4 == 1 ==> h !in open) && (flags % 4 in {0, 2} ==> |data| < 4)
    case Other(rec) =>
      rec.packetType != 2 || |rec.payload| < 4 || U16(rec.payload, 0) % 0x1000 !in handles
  }

  function Encoded(f: Fragment, open: Sendings, handles: set<nat>): Record
    requires Fits(f, open, handles)
  {
    match f
    case First(ts, d, h, flags, pdu, upTo, excess) =>
      var data := Le16(|pdu.Payload()|) + Le16(pdu.Cid()) + (pdu.Payload()[..upTo] + excess);
      Record(ts, d, 2, Header(h, flags, data))
    case Next(ts, d, h, flags, upTo, excess) =>
      Record(ts, d, 2, Header(h, flags, open[h].pdu.Payload()[open[h].sent..upTo] + excess))
    case Idle(ts, d, h, flags, data) => Record(ts, d, 2, Header(h, flags, data))
    case Other(rec) => rec
  }

  // A complete first fragment leaves the open PDU of its handle alone; an incomplete one replaces it.
  function Progress(f: Fragment, open: Sendings, handles: set<nat>): Sendings
    requires Fits(f, open, handles)
  {
    match f
    case First(_, _, h, _, pdu, upTo, _) =>
      if upTo == |pdu.Payload()| then open else open[h := Sending(pdu, upTo)]
    case Next(_, _, h, _, upTo, _) =>
      if upTo == |open[h].pdu.Payload()| then open - {h} else open[h := open[h].(sent := upTo)]
    case Idle(_, _, _, _, _) => open
    case Other(_) => open
  }

  // The PDU a fragment completes.
  function Completed(f: Fragment, open: Sendings, handles: set<nat>): Option<Pdu>
    requires Fits(f, open, handles)
  {
    match f
    case First(_, _, _, _, pdu, upTo, _) => if upTo == |pdu.Payload()| then Some(pdu) else None
    case Next(_, _, h, _, upTo, _) => if upTo == |open[h].pdu.Payload()| then Some(open[h].pdu) else None
    case Idle(_, _, _, _, _) => None
    case Other(_) => None
  }

  // The value a fragment completes, if what it completes is an ATT value.
  function Emitted(f: Fragment, open: Sendings, handles: set<nat>, start: int): Option<AttFrame>
    requires Fits(f, open, handles) && !f.Other?
  {
    match Completed(f, open, handles)
    case None => None
    case Some(pdu) =>
      if pdu.Value? then Some(AttFrame(f.ts - start, f.direction, f.handle, pdu.attribute, pdu.value)) else None
  }

  ghost predicate LegalLog(log: seq<Fragment>, open: Sendings, handles: set<nat>)
    decreases |log|
  {
    log == [] || (Fits(log[0], open, handles) && LegalLog(log[1..], Progress(log[0], open, handles), handles))
  }

  function Records(log: seq<Fragment>, open: Sendings, handles: set<nat>): seq<Record>
    requires LegalLog(log, open, handles)
    decreases |log|
  {
    if log == [] then []
    else [Encoded(log[0], open, handles)] + Records(log[1..], Progress(log[0], open, handles), handles)
  }

  // What must come out: the ATT values of the completed PDUs, in completion order.
  function Values(log: seq<Fragment>, open: Sendings, handles: set<nat>, start: Option<int>): seq<AttFrame>
    requires LegalLog(log, open, handles)
    decreases |log|
  {
    if log == [] then []
    else if log[0].Other? then Values(log[1..], open, handles, start) else
    var began := match start case None => log[0].ts case Some(t) => t;
    Optional(Emitted(log[0], open, handles, began))
    + Values(log[1..], Progress(log[0], open, handles), handles, Some(began))
  }

  // A buffer holds the part of the open PDU that was sent.
  ghost predicate Mirrors(buffers: Buffers, open: Sendings)
  {
    && buffers.Keys == open.Keys
    && forall h <- open ::
         && open[h].pdu.Legal() && open[h].sent < |open[h].pdu.Payload()|
         && buffers[h]
            == Partial(open[h].pdu.Cid(), open[h].pdu.Payload()[..open[h].sent], |open[h].pdu.Payload()|)
  }

  // The handle is the low twelve bits, the boundary flag the next two; the announced length cuts the data.
  lemma HeaderParses(handle: nat, flags: nat, length: nat, data: bytes)
    requires handle < 0x1000 && flags < 16 && length < 0x10000
    ensures ParseAcl(Le16(handle + 0x1000 * flags) + Le16(length) + data)
         == Some(Acl(handle, flags % 4, if length <= |data| then data[..length] else data))
  {
    var b := Le16(handle + 0x1000 * flags) + Le16(length) + data;
    assert b[0..2] == Le16(handle + 0x1000 * flags) && b[2..4] == Le16(length) && b[4..] == data;
    assert U16(b, 0) == U16(Le16(handle + 0x1000 * flags), 0);
    assert U16(b, 2) == U16(Le16(length), 0);
    assert (handle + 0x1000 * flags) % 0x1000 == handle && (handle + 0x1000 * flags) / 0x1000 == flags;
    assert length <= |data| ==> b[4..4 + length] == data[..length];
  }

  lemma RecordParses(ts: int, d: Direction, h: nat, flags: nat, data: bytes, handles: set<nat>)
    requires h in handles && h < 0x1000 && flags < 16 && |data| < 0x10000
    ensures Relevant(Record(ts, d, 2, Header(h, flags, data)), handles) == Some(Acl(h, flags % 4, data))
  {
    HeaderParses(h, flags, |data|, data);
    assert data[..|data|] == data;
  }

  lemma StartParses(length: nat, cid: nat, fragment: bytes)
    requires length < 0x10000 && cid < 0x10000
    ensures var data := Le16(length) + Le16(cid) + fragment;
            |data| >= 4 && U16(data, 0) == length && U16(data, 2) == cid && data[4..] == fragment
  {
    var data := Le16(length) + Le16(cid) + fragment;
    assert data[0..2] == Le16(length) && data[2..4] == Le16(cid);
    assert U16(data, 0) == U16(Le16(length), 0) && U16(data, 2) == U16(Le16(cid), 0);
  }

  lemma FirstOnTheWire(f: Fragment, open: Sendings, handles: set<nat>) returns (data: bytes)
    requires f.First? && Fits(f, open, handles)
    ensures Relevant(Encoded(f, open, handles), handles) == Some(Acl(f.handle, f.flags % 4, data))
    ensures |data| >= 4 && U16(data, 0) == |f.pdu.Payload()| && U16(data, 2) == f.pdu.Cid()
    ensures data[4..] == f.pdu.Payload()[..f.upTo] + f.excess
  {
    var fragment := f.pdu.Payload()[..f.upTo] + f.excess;
    data := Le16(|f.pdu.Payload()|) + Le16(f.pdu.Cid()) + fragment;
    RecordParses(f.ts, f.direction, f.handle, f.flags, data, handles);
    StartParses(|f.pdu.Payload()|, f.pdu.Cid(), fragment);
  }

  lemma FragmentCut(payload: bytes, upTo: nat, excess: bytes)
    requires upTo <= |payload| && (excess != [] ==> upTo == |payload|)
    ensures var fragment := payload[..upTo] + excess;
            if upTo == |payload| then |fragment| >= |payload| && fragment[..|payload|] == payload
            else |fragment| < |payload| && fragment == payload[..upTo]
  {
  }

  lemma WholeDecodes(f: Fragment, buffers: Buffers, open: Sendings, handles: set<nat>, start: int)
    requires f.First? && Fits(f, open, handles) && f.upTo == |f.pdu.Payload()|
    ensures var rec := Encoded(f, open, handles);
            && Relevant(rec, handles).Some?
            && Step(buffers, start, rec, Relevant(rec, handles).value) == (Emitted(f, open, handles, start), buffers)
  {
    var data := FirstOnTheWire(f, open, handles);
    FragmentCut(f.pdu.Payload(), f.upTo, f.excess);
    ParsesAsSent(f.ts - start, f.direction, f.handle, f.pdu);
  }

  // What the decoder does with a first fragment does not depend on what was sent before.
  lemma FirstDecodes(f: Fragment, buffers: Buffers, open: Sendings, handles: set<nat>, start: int)
    requires f.First? && Fits(f, open, handles)
    ensures var rec := Encoded(f, open, handles);
            && Relevant(rec, handles).Some?
            && Step(buffers, start, rec, Relevant(rec, handles).value)
               == (Emitted(f, open, handles, start),
                   if f.upTo == |f.pdu.Payload()| then buffers
                   else buffers[f.handle := Partial(f.pdu.Cid(), f.pdu.Payload()[..f.upTo], |f.pdu.Payload()|)])
  {
    if f.upTo == |f.pdu.Payload()| {
      WholeDecodes(f, buffers, open, handles, start);
    } else {
      var data := FirstOnTheWire(f, open, handles);
      FragmentCut(f.pdu.Payload(), f.upTo, f.excess);
    }
  }

  lemma NextDecodes(f: Fragment, open: Sendings, handles: set<nat>)
    requires f.Next? && Fits(f, open, handles)
    ensures var s := open[f.handle];
            Relevant(Encoded(f, open, handles), handles)
            == Some(Acl(f.handle, 1, s.pdu.Payload()[s.sent..f.upTo] + f.excess))
  {
    var s := open[f.handle];
    RecordParses(f.ts, f.direction, f.handle, f.flags, s.pdu.Payload()[s.sent..f.upTo] + f.excess, handles);
  }

  lemma FirstSteps(f: Fragment, buffers: Buffers, open: Sendings, handles: set<nat>, start: int)
    requires f.First? && Fits(f, open, handles) && Mirrors(buffers, open)
    ensures var rec := Encoded(f, open, handles);
            && Relevant(rec, handles).Some?
            && var step := Step(buffers, start, rec, Relevant(rec, handles).value);
               step.0 == Emitted(f, open, handles, start) && Mirrors(step.1, Progress(f, open, handles))
  {
    FirstDecodes(f, buffers, open, handles, start);
  }

  lemma Continued(payload: bytes, sent: nat, upTo: nat, excess: bytes)
    requires sent <= upTo <= |payload| && (excess != [] ==> upTo == |payload|)
    ensures var data := payload[..sent] + (payload[sent..upTo] + excess);
            if upTo == |payload| then |data| >= |payload| && data[..|payload|] == payload else data == payload[..upTo]
  {
  }

  lemma NextSteps(f: Fragment, buffers: Buffers, open: Sendings, handles: set<nat>, start: int)
    requires f.Next? && Fits(f, open, handles) && Mirrors(buffers, open)
    ensures var rec := Encoded(f, open, handles);
            && Relevant(rec, handles).Some?
            && var step := Step(buffers, start, rec, Relevant(rec, handles).value);
               step.0 == Emitted(f, open, handles, start) && Mirrors(step.1, Progress(f, open, handles))
  {
    var s := open[f.handle];
    NextDecodes(f, open, handles);
    Continued(s.pdu.Payload(), s.sent, f.upTo, f.excess);
    ParsesAsSent(f.ts - start, f.direction, f.handle, s.pdu);
  }

  lemma IdleSteps(f: Fragment, buffers: Buffers, open: Sendings, handles: set<nat>, start: int)
    requires f.Idle? && Fits(f, open, handles) && Mirrors(buffers, open)
    ensures var rec := Encoded(f, open, handles);
            && Relevant(rec, handles) == Some(Acl(f.handle, f.flags % 4, f.data))
            && Step(buffers, start, rec, Relevant(rec, handles).value) == (None, buffers)
  {
    RecordParses(f.ts, f.direction, f.handle, f.flags, f.data, handles);
  }

  lemma OtherIsIrrelevant(f: Fragment, open: Sendings, handles: set<nat>)
    requires f.Other? && Fits(f, open, handles)
    ensures Relevant(f.rec, handles).None?
  {
  }

  // For every interleaving of handles and directions, exactly the completed ATT values come out, whole
  // and in completion order; complete PDUs and idle records may come in between, and a new incomplete first
  // fragment on a handle abandons that handle's open PDU.
  lemma {:induction false} RecombinesFrom(
    log: seq<Fragment>, open: Sendings, buffers: Buffers, handles: set<nat>, start: Option<int>)
    requires LegalLog(log, open, handles) && Mirrors(buffers, open)
    ensures AttFrames(Records(log, open, handles), handles, start, buffers) == Values(log, open, handles, start)
    decreases |log|
  {
    if log != [] {
      var f, rest := log[0], log[1..];
      var all := Records(log, open, handles);
      assert all[0] == Encoded(f, open, handles) && all[1..] == Records(rest, Progress(f, open, handles), handles);
      if f.Other? {
        OtherIsIrrelevant(f, open, handles);
        RecombinesFrom(rest, open, buffers, handles, start);
      } else {
        var began := match start case None => f.ts case Some(t) => t;
        DecodesAsSent(f, buffers, open, handles, began);
        var next := Step(buffers, began, all[0], Relevant(all[0], handles).value).1;
        RecombinesFrom(rest, Progress(f, open, handles), next, handles, Some(began));
      }
    }
  }

  lemma DecodesAsSent(f: Fragment, buffers: Buffers, open: Sendings, handles: set<nat>, start: int)
    requires !f.Other? && Fits(f, open, handles) && Mirrors(buffers, open)
    ensures var rec := Encoded(f, open, handles);
            && Relevant(rec, handles).Some?
            && var step := Step(buffers, start, rec, Relevant(rec, handles).value);
               step.0 == Emitted(f, open, handles, start) && Mirrors(step.1, Progress(f, open, handles))
  {
    match f
    case First(_, _, _, _, _, _, _) => FirstSteps(f, buffers, open, handles, start);
    case Next(_, _, _, _, _, _) => NextSteps(f, buffers, open, handles, start);
    case Idle(_, _, _, _, _) => IdleSteps(f, buffers, open, handles, start);
  }

  lemma Recombines(log: seq<Fragment>, handles: set<nat>)
    requires LegalLog(log, map[], handles)
    ensures AttFrames(Records(log, map[], handles), handles, None, map[]) == Values(log, map[], handles, None)
  {
    RecombinesFrom(log, map[], map[], handles, None);
  }

  // ------------------------------------------------------- handles do not mix

  function OnHandle(frames: seq<AttFrame>, h: nat): seq<AttFrame>
  {
    if frames == [] then [] else (if frames[0].aclHandle == h then [frames[0]] else []) + OnHandle(frames[1..], h)
  }

  lemma {:induction false} OnHandleAppend(a: seq<AttFrame>, b: seq<AttFrame>, h: nat)
    ensures OnHandle(a + b, h) == OnHandle(a, h) + OnHandle(b, h)
  {
    if a == [] {
      assert a + b == b;
    } else {
      OnHandleAppend(a[1..], b, h);
      assert (a + b)[0] == a[0] && (a + b)[1..] == a[1..] + b;
      AppendAssociates(if a[0].aclHandle == h then [a[0]] else [], OnHandle(a[1..], h), OnHandle(b, h));
    }
  }

  // Whatever the log, decoding one handle's frames is not affected by any other handle.
  lemma {:induction false} HandlesAreIsolated(
    records: seq<Record>, handles: set<nat>, h: nat, start: int, buffers: Buffers, alone: Buffers)
    requires h in handles
    requires (h in buffers <==> h in alone) && (h in buffers ==> buffers[h] == alone[h])
    ensures OnHandle(AttFrames(records, handles, Some(start), buffers), h)
      == AttFrames(records, {h}, Some(start), alone)
    decreases |records|
  {
    if records != [] {
      var rec, rest := records[0], records[1..];
      if Relevant(rec, handles).Some? {
        var acl := Relevant(rec, handles).value;
        var (frame, next) := Step(buffers, start, rec, acl);
        OnHandleAppend(Optional(frame), AttFrames(rest, handles, Some(start), next), h);
        if acl.handle == h {
          var (frame1, next1) := Step(alone, start, rec, acl);
          HandlesAreIsolated(rest, handles, h, start, next, next1);
          assert frame == frame1;
          assert OnHandle(Optional(frame), h) == Optional(frame1);
        } else {
          HandlesAreIsolated(rest, handles, h, start, next, alone);
          assert OnHandle(Optional(frame), h) == [];
          assert Relevant(rec, {h}).None?;
        }
      } else {
        HandlesAreIsolated(rest, handles, h, start, buffers, alone);
        assert Relevant(rec, {h}).None?;
      }
    }
  }
}
