/** The offline reassembly of MIOT messages from ATT values, and why it finds what was sent. */
module MiotExtract {
  import opened Bytes
  import opened Parcels
  import opened L2cap
  import opened MiotTransport
  import opened MiotReassembly

  datatype Extracted = Extracted(ts: int, direction: Direction, counter: nat, ciphertext: bytes)

  // The one message being collected; both directions share the slot.
  datatype Slot = Slot(direction: Direction, expected: nat, parts: Parts, counter: Option<nat>, ts: int)

  predicate Announces(value: bytes)
  {
    |value| >= 6 && value[..4] == ANNOUNCE_CODE
  }

  // ------------------------------------------------------------- one frame

  function CollectPart(slot: Slot, value: bytes): Slot
  {
    if |value| < 2 then slot else
    var idx := U16(value, 0);
    if idx < 1 || idx > slot.expected then slot
    else if idx != 1 then slot.(parts := slot.parts[idx := value[2..]])
    else if |value| < 4 then slot
    else slot.(counter := Some(U16(value, 2)), parts := slot.parts[1 := value[4..]])
  }

  function Flush(slot: Slot): seq<Extracted>
  {
    if |slot.parts| != slot.expected || slot.counter.None? then [] else
    [Extracted(slot.ts, slot.direction, slot.counter.value, Join(slot.parts, 1, slot.expected))]
  }

  function Opened(frame: AttFrame): Slot
    requires |frame.value| >= 6
  {
    Slot(frame.direction, U16(frame.value, 4), map[], None, frame.ts)
  }

  function Continued(pending: Option<Slot>, frame: AttFrame): (seq<Extracted>, Option<Slot>)
  {
    if pending.None? || pending.value.direction != frame.direction then ([], pending) else
    var slot := CollectPart(pending.value, frame.value);
    (Flush(slot), if |slot.parts| == slot.expected then None else Some(slot))
  }

  // What one ATT frame adds to the output, and the slot behind it.
  function Take(pending: Option<Slot>, frame: AttFrame, write: nat, notify: nat): (seq<Extracted>, Option<Slot>)
  {
    if frame.attrHandle == write && frame.direction == Tx then
      if Announces(frame.value) then ([], Some(Opened(frame))) else Continued(pending, frame)
    else if frame.attrHandle == notify && frame.direction == Rx then
      if IsInline(frame.value) then ([Extracted(frame.ts, Rx, U16(frame.value, 4), frame.value[6..])], pending)
      else if Announces(frame.value) then ([], Some(Opened(frame)))
      else Continued(pending, frame)
    else ([], pending)
  }

  function Extract(frames: seq<AttFrame>, pending: Option<Slot>, write: nat, notify: nat): seq<Extracted>
  {
    if frames == [] then [] else
    var (out, next) := Take(pending, frames[0], write, notify);
    out + Extract(frames[1..], next, write, notify)
  }

  // -------------------------------------------------------------- the loop

  method CollectMiotPart(slot: Slot, value: bytes) returns (r: Slot)
    ensures r == CollectPart(slot, value)
  {
    r := slot;
    if |value| < 2 {
      return;
    }
    var idx := U16(value, 0);
    if idx < 1 || idx > slot.expected {
      return;
    }
    if idx == 1 {
      if |value| < 4 {
        return;
      }
      r := r.(counter := Some(U16(value, 2)));
      r := r.(parts := r.parts[idx := value[4..]]);
    } else {
      r := r.(parts := r.parts[idx := value[2..]]);
    }
  }

  method ContinueSlot(out: seq<Extracted>, pending: Option<Slot>, frame: AttFrame)
    returns (extended: seq<Extracted>, next: Option<Slot>)
    requires pending.Some? && pending.value.direction == frame.direction
    ensures extended == out + Continued(pending, frame).0 && next == Continued(pending, frame).1
  {
    extended := out;
    var slot := CollectMiotPart(pending.value, frame.value);
    next := Some(slot);
    if |slot.parts| == slot.expected {
      if slot.counter.Some? {
        extended := extended
          + [Extracted(slot.ts, slot.direction, slot.counter.value, Join(slot.parts, 1, slot.expected))];
      }
      next := None;
    }
  }

  // `extract_miot_frames`.
  method ExtractMiotFrames(frames: seq<AttFrame>, write: nat, notify: nat) returns (out: seq<Extracted>)
    ensures out == Extract(frames, None, write, notify)
  {
    out := [];
    var pending: Option<Slot> := None;
    for i := 0 to |frames|
      invariant Extract(frames, None, write, notify) == out + Extract(frames[i..], pending, write, notify)
    {
      var frame := frames[i];
      FirstFrame(frames, i, out, pending, write, notify);
      if frame.attrHandle !in {write, notify} {
        continue;
      }
      if frame.attrHandle == write && frame.direction == Tx {
        if Announces(frame.value) {
          pending := Some(Opened(frame));
          continue;
        }
        if pending.Some? && pending.value.direction == Tx {
          out, pending := ContinueSlot(out, pending, frame);
          continue;
        }
      }
      if frame.attrHandle == notify && frame.direction == Rx {
        if IsInline(frame.value) {
          out := out + [Extracted(frame.ts, Rx, U16(frame.value, 4), frame.value[6..])];
          continue;
        }
        if Announces(frame.value) {
          pending := Some(Opened(frame));
          continue;
        }
        if pending.Some? && pending.value.direction == Rx {
          out, pending := ContinueSlot(out, pending, frame);
        }
      }
    }
  }

  lemma FirstFrame(frames: seq<AttFrame>, i: nat, out: seq<Extracted>, pending: Option<Slot>, write: nat, notify: nat)
    requires i < |frames|
    ensures var (more, next) := Take(pending, frames[i], write, notify);
            out + Extract(frames[i..], pending, write, notify)
            == (out + more) + Extract(frames[i + 1..], next, write, notify)
  {
    assert frames[i..][1..] == frames[i + 1..];
    var (more, next) := Take(pending, frames[i], write, notify);
    AppendAssociates(out, more, Extract(frames[i + 1..], next, write, notify));
  }

  // ------------------------------------------------------- what may be sent

  datatype Message = Message(ts: int, direction: Direction, counter: nat, chunks: seq<bytes>)

  // The announcement of a message; one of the parcels of the announced message; an inline frame from the
  // device; any other frame.
  datatype Sent =
    | Announced(acl: nat, message: Message)
    | Parcel(ts: int, acl: nat, index: nat)
    | InlineSent(ts: int, acl: nat, miot: MiotFrame)
    | Stray(att: AttFrame)

  // The announced message and the indices that were sent of it.
  datatype Open = Open(message: Message, have: set<nat>)

  predicate OnChannel(frame: AttFrame, write: nat, notify: nat)
  {
    (frame.attrHandle == write && frame.direction == Tx) || (frame.attrHandle == notify && frame.direction == Rx)
  }

  predicate AnnouncementBytes(value: bytes)
  {
    |value| >= 6 && value[0] == 0 && value[1] == 0 && value[2] == 0 && value[3] == 0
  }

  predicate InlineFrameBytes(value: bytes)
  {
    |value| >= 6 && value[0] == 0 && value[1] == 0 && value[2] == 2 && value[3] == 0
  }

  lemma KindsIff(value: bytes)
    ensures Announces(value) <==> AnnouncementBytes(value)
    ensures IsInline(value) <==> InlineFrameBytes(value)
  {
    if |value| >= 6 {
      assert value[..4] == [value[0], value[1], value[2], value[3]];
    }
  }

  // Frames of other channels, control frames written to the notify handle or notified on the write handle,
  // and repetitions of data parcels when no message of that direction is open.
  predicate Harmless(frame: AttFrame, open: Option<Open>, write: nat, notify: nat)
  {
    OnChannel(frame, write, notify) ==>
      && !AnnouncementBytes(frame.value) && !(frame.direction == Rx && InlineFrameBytes(frame.value))
      && (open.Some? && open.value.message.direction == frame.direction ==> |frame.value| < 2)
  }

  predicate Allowed(e: Sent, open: Option<Open>, write: nat, notify: nat)
  {
    match e
    case Announced(_, m) => m.counter < 0x10000 && 1 <= |m.chunks| < 0x10000
    case Parcel(_, _, i) => open.Some? && 1 <= i <= |open.value.message.chunks|
    case InlineSent(_, _, f) => f.counter < 0x10000
    case Stray(frame) => Harmless(frame, open, write, notify)
  }

  ghost predicate LegalOpen(open: Option<Open>)
  {
    open.Some? ==>
      && open.value.message.counter < 0x10000 && 1 <= |open.value.message.chunks| < 0x10000
      && !AllOf(open.value.have, |open.value.message.chunks|)
  }

  ghost function Then(e: Sent, open: Option<Open>): Option<Open>
    requires e.Parcel? ==> open.Some?
  {
    match e
    case Announced(_, m) => Some(Open(m, {}))
    case Parcel(_, _, i) =>
      var have := open.value.have + {i};
      if AllOf(have, |open.value.message.chunks|) then None else Some(open.value.(have := have))
    case InlineSent(_, _, _) => open
    case Stray(_) => open
  }

  function ChannelOf(direction: Direction, write: nat, notify: nat): nat
  {
    if direction == Tx then write else notify
  }

  function FrameOf(e: Sent, open: Option<Open>, write: nat, notify: nat): AttFrame
    requires Allowed(e, open, write, notify)
    requires open.Some? ==> open.value.message.counter < 0x10000 && |open.value.message.chunks| < 0x10000
  {
    match e
    case Announced(acl, m) =>
      AttFrame(m.ts, m.direction, acl, ChannelOf(m.direction, write, notify), AnnounceBytes(|m.chunks|))
    case Parcel(ts, acl, i) =>
      var m := open.value.message;
      AttFrame(ts, m.direction, acl, ChannelOf(m.direction, write, notify), ParcelBytes(m.counter, m.chunks, i))
    case InlineSent(ts, acl, f) => AttFrame(ts, Rx, acl, notify, InlineBytes(f))
    case Stray(frame) => frame
  }

  ghost predicate LegalTraffic(log: seq<Sent>, open: Option<Open>, write: nat, notify: nat)
    decreases |log|
  {
    && LegalOpen(open)
    && (log == [] || (Allowed(log[0], open, write, notify)
        && LegalTraffic(log[1..], Then(log[0], open), write, notify)))
  }

  ghost function Frames(log: seq<Sent>, open: Option<Open>, write: nat, notify: nat): seq<AttFrame>
    requires LegalTraffic(log, open, write, notify)
    decreases |log|
  {
    if log == [] then []
    else [FrameOf(log[0], open, write, notify)] + Frames(log[1..], Then(log[0], open), write, notify)
  }

  // What must be found: a message when its last missing parcel was sent, an inline frame at once.
  ghost function Completion(e: Sent, open: Option<Open>): seq<Extracted>
    requires e.Parcel? ==> open.Some?
  {
    match e
    case Announced(_, _) => []
    case Parcel(_, _, i) =>
      var m := open.value.message;
      if AllOf(open.value.have + {i}, |m.chunks|) then [Extracted(m.ts, m.direction, m.counter, Flatten(m.chunks))]
          else []
    case InlineSent(ts, _, f) => [Extracted(ts, Rx, f.counter, f.ciphertext)]
    case Stray(_) => []
  }

  ghost function Messages(log: seq<Sent>, open: Option<Open>, write: nat, notify: nat): seq<Extracted>
    requires LegalTraffic(log, open, write, notify)
    decreases |log|
  {
    if log == [] then [] else Completion(log[0], open) + Messages(log[1..], Then(log[0], open), write, notify)
  }

  // ------------------------------------------------------------- the proof

  // The slot holds the parcels that were sent of the open message.
  ghost predicate Mirrors(pending: Option<Slot>, open: Option<Open>)
  {
    (pending.None? <==> open.None?) &&
    (pending.Some? ==>
      var slot, m := pending.value, open.value.message;
      && slot.direction == m.direction && slot.ts == m.ts && slot.expected == |m.chunks|
      && slot.parts.Keys == open.value.have && HoldsChunks(slot.parts, m.chunks)
      && slot.counter == if 1 in slot.parts then Some(m.counter) else None)
  }

  lemma ParcelStandsOut(counter: nat, chunks: seq<bytes>, i: nat)
    requires counter < 0x10000 && 1 <= i <= |chunks| < 0x10000
    ensures var b := ParcelBytes(counter, chunks, i);
            && !IsInline(b) && !Announces(b) && |b| >= 2 && U16(b, 0) == i
            && (i == 1 ==> |b| >= 4 && U16(b, 2) == counter && b[4..] == chunks[0])
            && (i != 1 ==> b[2..] == chunks[i - 1])
  {
    var b := ParcelBytes(counter, chunks, i);
    assert b[..2] == Le16(i) && U16(b, 0) == U16(Le16(i), 0);
    if |b| >= 4 {
      assert b[..4][0] == b[0] && b[..4][1] == b[1];
    }
    if i == 1 {
      assert b[2..4] == Le16(counter);
    }
  }

  lemma AnnouncementStandsOut(count: nat)
    requires count < 0x10000
    ensures var b := AnnounceBytes(count); Announces(b) && !IsInline(b) && U16(b, 4) == count
  {
    var b := AnnounceBytes(count);
    assert b[..4] == ANNOUNCE_CODE && b[4..6] == Le16(count);
    assert b[..4][2] != INLINE_CODE[2];
  }

  lemma CollectsParcel(slot: Slot, m: Message, have: set<nat>, i: nat)
    requires m.counter < 0x10000 && 1 <= i <= |m.chunks| < 0x10000 && Mirrors(Some(slot), Some(Open(m, have)))
    ensures var next := CollectPart(slot, ParcelBytes(m.counter, m.chunks, i));
            Mirrors(Some(next), Some(Open(m, have + {i})))
  {
    ParcelStandsOut(m.counter, m.chunks, i);
    var next := CollectPart(slot, ParcelBytes(m.counter, m.chunks, i));
    assert next.parts == slot.parts[i := m.chunks[i - 1]];
    assert next.parts.Keys == have + {i};
  }

  // The count of collected parcels tells exactly whether one is missing.
  lemma FlushesWhenComplete(slot: Slot, m: Message, have: set<nat>)
    requires 1 <= |m.chunks| && Mirrors(Some(slot), Some(Open(m, have)))
    ensures |slot.parts| == slot.expected <==> AllOf(have, |m.chunks|)
    ensures AllOf(have, |m.chunks|) ==> Flush(slot) == [Extracted(m.ts, m.direction, m.counter, Flatten(m.chunks))]
  {
    if AllOf(have, |m.chunks|) {
      AllCollected(slot.parts, m.chunks);
      assert 1 in have;
    } else if |slot.parts| == slot.expected {
      CollectedAll(slot.parts, slot.expected);
      assert false;
    }
  }

  lemma TakesParcel(e: Sent, pending: Option<Slot>, open: Option<Open>, write: nat, notify: nat)
    requires e.Parcel? && Allowed(e, open, write, notify) && LegalOpen(open) && Mirrors(pending, open)
    ensures var (out, next) := Take(pending, FrameOf(e, open, write, notify), write, notify);
            out == Completion(e, open) && Mirrors(next, Then(e, open)) && LegalOpen(Then(e, open))
  {
    var m, have, i := open.value.message, open.value.have, e.index;
    ParcelStandsOut(m.counter, m.chunks, i);
    CollectsParcel(pending.value, m, have, i);
    FlushesWhenComplete(CollectPart(pending.value, ParcelBytes(m.counter, m.chunks, i)), m, have + {i});
    var frame := FrameOf(e, open, write, notify);
    assert Take(pending, frame, write, notify) == Continued(pending, frame);
  }

  lemma TakesOther(e: Sent, pending: Option<Slot>, open: Option<Open>, write: nat, notify: nat)
    requires !e.Parcel? && Allowed(e, open, write, notify) && LegalOpen(open) && Mirrors(pending, open)
    ensures var (out, next) := Take(pending, FrameOf(e, open, write, notify), write, notify);
            out == Completion(e, open) && Mirrors(next, Then(e, open)) && LegalOpen(Then(e, open))
  {
    match e
    case Announced(_, m) =>
      AnnouncementStandsOut(|m.chunks|);
      assert 1 <= |m.chunks| && 1 !in Then(e, open).value.have;
    case InlineSent(_, _, f) =>
      InlineIsInline(f);
    case Stray(frame) =>
      KindsIff(frame.value);
      if pending.Some? && pending.value.direction == frame.direction && OnChannel(frame, write, notify) {
        assert CollectPart(pending.value, frame.value) == pending.value;
        if |pending.value.parts| == pending.value.expected {
          CollectedAll(pending.value.parts, pending.value.expected);
          assert false;
        }
      }
  }

  // Any traffic with at most one parcelled message open at a time: exactly the completed messages come
  // out, with their counters and ciphertexts, and the inline frames in between.
  lemma {:induction false} FindsMessages(log: seq<Sent>, pending: Option<Slot>, open: Option<Open>, write: nat,
      notify: nat)
    requires LegalTraffic(log, open, write, notify) && Mirrors(pending, open)
    ensures Extract(Frames(log, open, write, notify), pending, write, notify) == Messages(log, open, write, notify)
    decreases |log|
  {
    if log != [] {
      var e, frames := log[0], Frames(log, open, write, notify);
      if e.Parcel? {
        TakesParcel(e, pending, open, write, notify);
      } else {
        TakesOther(e, pending, open, write, notify);
      }
      assert frames[0] == FrameOf(e, open, write, notify);
      assert frames[1..] == Frames(log[1..], Then(e, open), write, notify);
      var (out, next) := Take(pending, frames[0], write, notify);
      FindsMessages(log[1..], next, Then(e, open), write, notify);
    }
  }
}
