/** The frames of the MIOT channel byte by byte, and what `_recv_encrypted` skips or refuses. */
module MiotRejection {
  import opened Bytes
  import opened Parcels
  import opened MiotTransport
  import opened MiotReassembly

  // Four leading bytes, and what they announce.
  predicate Leads(data: bytes, kind: byte)
  {
    |data| >= 6 && data[0] == 0x00 && data[1] == 0x00 && data[2] == kind && data[3] == 0x00
  }

  lemma LeadsIff(data: bytes)
    requires |data| >= 6
    ensures data[..4] == INLINE_CODE <==> Leads(data, 0x02)
    ensures data[..4] == ANNOUNCE_CODE <==> Leads(data, 0x00)
  {
    assert data[..4] == [data[0], data[1], data[2], data[3]];
  }

  // On the wire: an announcement ends in the count, an inline frame has counter and ciphertext behind its four
  // leading bytes, and a parcel starts with its number, the first one also with the counter.
  lemma FormsOnTheWire(count: nat, frame: MiotFrame, chunks: seq<bytes>, i: nat)
    requires count < 0x10000 && frame.counter < 0x10000 && 1 <= i <= |chunks| < 0x10000
    ensures AnnounceBytes(count) == [0x00, 0x00, 0x00, 0x00, (count % 256) as byte, (count / 256) as byte]
    ensures InlineBytes(frame)
         == [0x00, 0x00, 0x02, 0x00, (frame.counter % 256) as byte, (frame.counter / 256) as byte] + frame.ciphertext
    ensures ParcelBytes(frame.counter, chunks, i)
         == [(i % 256) as byte, (i / 256) as byte]
            + (if i == 1 then [(frame.counter % 256) as byte, (frame.counter / 256) as byte] else []) + chunks[i - 1]
  {
    assert Le16(i) == [(i % 256) as byte, (i / 256) as byte];
  }

  // Between messages, silence, short frames, and frames that are neither inline nor an announcement are skipped.
  lemma SkippedBetweenMessages(w: Wire, first: Arrival, tail: seq<Arrival>)
    requires w.deferred == [] && w.inbox == [first] + tail
    requires first.Frame? ==> !Leads(first.data, 0x02) && !Leads(first.data, 0x00)
    ensures Receive(w) == Receive(w.(inbox := tail))
  {
    assert w.inbox[1..] == tail;
    if first.Frame? && |first.data| >= 6 {
      LeadsIff(first.data);
    }
  }

  // An inline frame is acknowledged once and delivered with the counter and ciphertext it carries.
  lemma InlineIsDelivered(w: Wire, data: bytes, tail: seq<Arrival>)
    requires w.deferred == [] && w.inbox == [Frame(data)] + tail && Leads(data, 0x02) && w.writable > 0
    ensures var frame := MiotFrame(data[4] as nat + 256 * data[5] as nat, data[6..]);
            Receive(w)
            == (Delivered(frame),
                w.(inbox := tail, writable := w.writable - 1, written := w.written + [[0x00, 0x00, 0x03, 0x00]],
                   history := Remember(w.history, frame)))
  {
    assert w.inbox[1..] == tail;
    LeadsIff(data);
  }

  // An announcement is taken up exactly when it counts 1 to 64 parcels and the reply can be written; a wrong
  // count gets no reply.
  lemma AnnouncementTakenIff(w: Wire, data: bytes, tail: seq<Arrival>)
    requires w.deferred == [] && w.inbox == [Frame(data)] + tail && Leads(data, 0x00)
    ensures var count := data[4] as nat + 256 * data[5] as nat;
            Receive(w) ==
              if count == 0 || count > 64 then (Failed(BadParcelCount), w.(inbox := tail))
              else if w.writable == 0 then (Failed(WriteFailed), w.(inbox := tail))
              else Collect(w.(inbox := tail, writable := w.writable - 1,
                              written := w.written + [[0x00, 0x00, 0x01, 0x01]]), count, map[], None)
  {
    assert w.inbox[1..] == tail;
    LeadsIff(data);
  }

  // While parcels are missing, silence ends the message, and so does a parcel outside the announced count or a
  // first parcel without its counter; a frame too short to have a number is skipped.
  lemma MessageBrokenBy(w: Wire, expected: nat, parts: Parts, counter: Option<nat>, first: Arrival, tail: seq<Arrival>)
    requires |parts| < expected && w.inbox == [first] + tail
    requires first.Frame? ==> !Leads(first.data, 0x02)
    ensures var next := w.(inbox := tail);
            var r := Collect(w, expected, parts, counter);
            && (first.Quiet? ==> r == (Failed(TimedOut), next))
            && (first.Frame? && |first.data| < 2 ==> r == Collect(next, expected, parts, counter))
            && (first.Frame? && |first.data| >= 2 ==>
                  var index := first.data[0] as nat + 256 * first.data[1] as nat;
                  && (index == 0 || index > expected ==> r == (Failed(BadParcelIndex), next))
                  && (index == 1 && expected >= 1 && |first.data| < 4 ==> r == (Failed(MissingCounter), next)))
  {
    assert w.inbox[1..] == tail;
    if first.Frame? && |first.data| >= 6 {
      LeadsIff(first.data);
    }
  }

  // When nothing more comes while parcels are missing, the message fails; what was already deferred is kept.
  lemma NothingMoreComes(w: Wire, expected: nat, parts: Parts, counter: Option<nat>)
    requires |parts| < expected && w.inbox == []
    ensures Collect(w, expected, parts, counter) == (Failed(TimedOut), w)
  {
  }
}
