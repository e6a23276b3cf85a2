/**
 * Framing of an outgoing encrypted request. The code puts the counter into every parcel; the receiving
 * side of the same code, the offline decoder and docs/protocol.md expect it in the first parcel only.
 */
module MiotFraming {
  import opened Bytes
  import opened Parcels
  import opened Channels
  import opened L2cap
  import opened MiotTransport
  import opened MiotReassembly
  import opened MiotExtract

  datatype FramingError = TooManyParcels(needed: nat) | Channel(error: ChannelError)

  // The MTU as bleak reports it: absent, or any integer.
  function PayloadCap(mtu: Option<int>): (cap: nat)
    ensures cap >= 16
    ensures mtu.Some? && mtu.value >= 23 ==> 4 + cap <= mtu.value - 3
  {
    if mtu.Some? && mtu.value - 7 > PARCEL_CHUNK_SIZE - 2 then mtu.value - 7 else PARCEL_CHUNK_SIZE - 2
  }

  // Index, counter, chunk: the same for every parcel.
  function OutboundParcel(i: nat, counter: nat, chunk: bytes): bytes
    requires i < 0x10000 && counter < 0x10000
  {
    Le16(i) + Le16(counter) + chunk
  }

  function OutboundParcels(chunks: seq<bytes>, counter: nat, from: nat): seq<bytes>
    requires counter < 0x10000 && from + |chunks| <= 0x10000
  {
    if chunks == [] then []
    else [OutboundParcel(from, counter, chunks[0])] + OutboundParcels(chunks[1..], counter, from + 1)
  }

  function Outbound(ct: bytes, counter: nat, cap: nat): seq<bytes>
    requires counter < 0x10000 && cap > 0 && |Chunk(ct, cap)| <= MAX_MIOT_PARCELS
  {
    [AnnounceBytes(|Chunk(ct, cap)|)] + OutboundParcels(Chunk(ct, cap), counter, 1)
  }

  // `_send_encrypted`: the announcement, and after the device is ready the parcels, until a write fails.
  method SendEncrypted(ct: bytes, counter: nat, mtu: Option<int>, control: seq<Incoming>, writable: nat)
    returns (written: seq<bytes>, error: Option<FramingError>)
    requires counter < 0x10000
    ensures var n := |Chunk(ct, PayloadCap(mtu))|;
            if n > MAX_MIOT_PARCELS then written == [] && error == Some(TooManyParcels(n)) else
            var all := Outbound(ct, counter, PayloadCap(mtu));
            && written <= all && |written| <= writable
            && (|written| > 1 ==> Await(control, RCV_RDY, {}).0.Ok?)
            && (error.None? <==>
                  && |all| <= writable
                  && Await(control, RCV_RDY, {}).0.Ok?
                  && Await(Await(control, RCV_RDY, {}).1, RCV_OK, {}).0.Ok?)
            && (error.None? ==> written == all)
  {
    written, error := [], None;
    var chunks := Chunk(ct, PayloadCap(mtu));
    if |chunks| > MAX_MIOT_PARCELS {
      return [], Some(TooManyParcels(|chunks|));
    }
    ghost var all := Outbound(ct, counter, PayloadCap(mtu));
    OutboundLength(chunks, counter, 1);
    if writable == 0 {
      return [], Some(Channel(WriteError));
    }
    written := [AnnounceBytes(|chunks|)];
    var ready, rest := RecvUntil(control, RCV_RDY, {});
    if ready.Err? {
      return written, Some(Channel(ready.error));
    }
    for i: nat := 0 to |chunks|
      invariant |written| == i + 1 <= writable
      invariant all == written + OutboundParcels(chunks[i..], counter, i + 1)
    {
      OutboundLength(chunks[i..], counter, i + 1);
      if writable < i + 2 {
        return written, Some(Channel(WriteError));
      }
      assert chunks[i..][1..] == chunks[i + 1..];
      AppendAssociates(written, [OutboundParcel(i + 1, counter, chunks[i])],
          OutboundParcels(chunks[i + 1..], counter, i + 2));
      written := written + [OutboundParcel(i + 1, counter, chunks[i])];
    }
    assert written + [] == written;
    var finished, _ := RecvUntil(rest, RCV_OK, {});
    if finished.Err? {
      return written, Some(Channel(finished.error));
    }
  }

  lemma {:induction false} OutboundLength(chunks: seq<bytes>, counter: nat, from: nat)
    requires counter < 0x10000 && from + |chunks| <= 0x10000
    ensures |OutboundParcels(chunks, counter, from)| == |chunks|
  {
    if chunks != [] {
      OutboundLength(chunks[1..], counter, from + 1);
    }
  }

  // --------------------------------------- what the receiving rule makes of it

  // The receiving rule takes the counter out of the first parcel only, so it sees these chunks.
  function SeenChunks(chunks: seq<bytes>, counter: nat): seq<bytes>
    requires counter < 0x10000 && chunks != []
  {
    seq(|chunks|, i requires 0 <= i < |chunks| => if i == 0 then chunks[0] else Le16(counter) + chunks[i])
  }

  // The ciphertext with the counter inserted in front of every chunk after the first.
  function Inserted(chunks: seq<bytes>, counter: nat): bytes
    requires counter < 0x10000
  {
    if chunks == [] then [] else Le16(counter) + chunks[0] + Inserted(chunks[1..], counter)
  }

  lemma {:induction false} InsertedLength(chunks: seq<bytes>, counter: nat)
    requires counter < 0x10000
    ensures |Inserted(chunks, counter)| == |Flatten(chunks)| + 2 * |chunks|
  {
    if chunks != [] {
      InsertedLength(chunks[1..], counter);
    }
  }

  lemma {:induction false} SeenRest(chunks: seq<bytes>, seen: seq<bytes>, counter: nat)
    requires counter < 0x10000 && |seen| == |chunks|
    requires forall i :: 0 <= i < |chunks| ==> seen[i] == Le16(counter) + chunks[i]
    ensures Flatten(seen) == Inserted(chunks, counter)
    decreases |chunks|
  {
    if chunks != [] {
      SeenRest(chunks[1..], seen[1..], counter);
    }
  }

  lemma SeenFlattens(chunks: seq<bytes>, counter: nat)
    requires counter < 0x10000 && chunks != []
    ensures Flatten(SeenChunks(chunks, counter)) == chunks[0] + Inserted(chunks[1..], counter)
  {
    SeenRest(chunks[1..], SeenChunks(chunks, counter)[1..], counter);
  }

  lemma ParcelAsSeen(chunks: seq<bytes>, counter: nat, i: nat)
    requires counter < 0x10000 && 1 <= i <= |chunks| < 0x10000
    ensures OutboundParcel(i, counter, chunks[i - 1]) == ParcelBytes(counter, SeenChunks(chunks, counter), i)
  {
    var seen := SeenChunks(chunks, counter);
    if i == 1 {
      assert seen[0] == chunks[0];
    } else {
      assert seen[i - 1] == Le16(counter) + chunks[i - 1];
      assert Le16(i) + [] == Le16(i);
      AppendAssociates(Le16(i), Le16(counter), chunks[i - 1]);
    }
  }

  // The frames as the capture shows them: writes on the write handle.
  function Captured(ts: int, acl: nat, write: nat, values: seq<bytes>): seq<AttFrame>
  {
    if values == [] then [] else [AttFrame(ts, Tx, acl, write, values[0])] + Captured(ts, acl, write, values[1..])
  }

  function Log(ts: int, acl: nat, from: nat, count: nat): seq<Sent>
    requires from <= count + 1
    decreases count + 1 - from
  {
    if from > count then [] else [Parcel(ts, acl, from)] + Log(ts, acl, from + 1, count)
  }

  // The message as the receiving rule sees it, with the parcels before `from` sent.
  ghost function SentUpTo(ts: int, chunks: seq<bytes>, counter: nat, from: nat): Option<Open>
    requires counter < 0x10000 && chunks != [] && 1 <= from
  {
    Some(Open(Message(ts, Tx, counter, SeenChunks(chunks, counter)), Indices(from - 1)))
  }

  lemma LastOrMore(ts: int, acl: nat, chunks: seq<bytes>, counter: nat, from: nat)
    requires counter < 0x10000 && 1 <= |chunks| < 0x10000 && 1 <= from <= |chunks|
    ensures var open := SentUpTo(ts, chunks, counter, from);
            && LegalOpen(open)
            && Then(Parcel(ts, acl, from), open)
               == (if from == |chunks| then None else SentUpTo(ts, chunks, counter, from + 1))
            && Completion(Parcel(ts, acl, from), open)
               == (if from == |chunks| then [Extracted(ts, Tx, counter, Flatten(SeenChunks(chunks, counter)))] else [])
  {
    IndicesSize(from - 1);
    IndicesSize(from);
    assert from !in Indices(from - 1);
    assert from < |chunks| ==> from + 1 !in Indices(from);
  }

  lemma {:induction false} CapturedIsTraffic(
    ts: int, acl: nat, write: nat, notify: nat, chunks: seq<bytes>, counter: nat, from: nat)
    requires counter < 0x10000 && 1 <= |chunks| < 0x10000 && 1 <= from <= |chunks|
    ensures var open, log := SentUpTo(ts, chunks, counter, from), Log(ts, acl, from, |chunks|);
            && LegalTraffic(log, open, write, notify)
            && Frames(log, open, write, notify)
                == Captured(ts, acl, write, OutboundParcels(chunks[from - 1..], counter, from))
            && Messages(log, open, write, notify) == [Extracted(ts, Tx, counter, Flatten(SeenChunks(chunks, counter)))]
    decreases |chunks| - from
  {
    var open, log := SentUpTo(ts, chunks, counter, from), Log(ts, acl, from, |chunks|);
    var parcels := OutboundParcels(chunks[from - 1..], counter, from);
    ParcelAsSeen(chunks, counter, from);
    LastOrMore(ts, acl, chunks, counter, from);
    assert chunks[from - 1..][1..] == chunks[from..];
    assert log[0] == Parcel(ts, acl, from) && log[1..] == Log(ts, acl, from + 1, |chunks|);
    assert parcels[1..] == OutboundParcels(chunks[from..], counter, from + 1);
    if from == |chunks| {
      assert log[1..] == [] && chunks[from..] == [];
    } else {
      CapturedIsTraffic(ts, acl, write, notify, chunks, counter, from + 1);
    }
  }

  // The exact result: the counter is right, and the ciphertext has the counter inserted in front of
  // every chunk after the first.
  lemma OutboundSeenOffline(ct: bytes, counter: nat, cap: nat, ts: int, acl: nat, write: nat, notify: nat)
    requires counter < 0x10000 && cap > 0 && |Chunk(ct, cap)| <= MAX_MIOT_PARCELS
    ensures var chunks := Chunk(ct, cap);
            chunks != [] &&
            Extract(Captured(ts, acl, write, Outbound(ct, counter, cap)), None, write, notify)
            == [Extracted(ts, Tx, counter, chunks[0] + Inserted(chunks[1..], counter))]
  {
    SlicesShape(ct, cap);
    var chunks := Chunk(ct, cap);
    var m := Message(ts, Tx, counter, SeenChunks(chunks, counter));
    var log := [Announced(acl, m)] + Log(ts, acl, 1, |chunks|);
    CapturedIsTraffic(ts, acl, write, notify, chunks, counter, 1);
    assert log[1..] == Log(ts, acl, 1, |chunks|) && Indices(0) == {};
    assert chunks[0..] == chunks;
    assert LegalTraffic(log, None, write, notify);
    assert Outbound(ct, counter, cap)[1..] == OutboundParcels(chunks, counter, 1);
    assert Frames(log, None, write, notify) == Captured(ts, acl, write, Outbound(ct, counter, cap));
    FindsMessages(log, None, None, write, notify);
    SeenFlattens(chunks, counter);
  }

  lemma {:induction false} SlicesCount(data: bytes, size: nat)
    requires size > 0 && data != []
    ensures |Slices(data, size)| == 1 <==> |data| <= size
  {
    if |data| > size {
      SlicesShape(data[size..], size);
    }
  }

  // A request survives the round trip exactly when it fits one parcel.
  lemma OutboundRoundTripIff(ct: bytes, counter: nat, cap: nat, ts: int, acl: nat, write: nat, notify: nat)
    requires counter < 0x10000 && cap > 0 && |Chunk(ct, cap)| <= MAX_MIOT_PARCELS
    ensures (Extract(Captured(ts, acl, write, Outbound(ct, counter, cap)), None, write, notify)
             == [Extracted(ts, Tx, counter, ct)]) <==> |ct| <= cap
  {
    OutboundSeenOffline(ct, counter, cap, ts, acl, write, notify);
    var chunks := Chunk(ct, cap);
    SlicesShape(ct, cap);
    InsertedLength(chunks[1..], counter);
    assert Flatten(chunks) == chunks[0] + Flatten(chunks[1..]);
    if ct != [] {
      SlicesCount(ct, cap);
    }
    assert chunks[0] + [] == chunks[0];
  }

  // From the smallest legal MTU on a parcel carries as much as its frame allows behind index and counter;
  // below that, and when the MTU is not known, the 16 bytes every link carries.
  lemma LargestPayloadThatFits(mtu: int, n: nat)
    ensures mtu >= 23 ==> (2 + 2 + n <= mtu - 3 <==> n <= PayloadCap(Some(mtu)))
    ensures mtu < 23 ==> PayloadCap(Some(mtu)) == 16 && PayloadCap(None) == 16
  {
  }

  // In terms of the link: what is sent is what is read exactly when index, counter and ciphertext fit one write.
  lemma OneWriteIff(ct: bytes, counter: nat, mtu: int, ts: int, acl: nat, write: nat, notify: nat)
    requires counter < 0x10000 && mtu >= 23 && |Chunk(ct, PayloadCap(Some(mtu)))| <= MAX_MIOT_PARCELS
    ensures (Extract(Captured(ts, acl, write, Outbound(ct, counter, PayloadCap(Some(mtu)))), None, write, notify)
             == [Extracted(ts, Tx, counter, ct)]) <==> 2 + 2 + |ct| <= mtu - 3
  {
    OutboundRoundTripIff(ct, counter, PayloadCap(Some(mtu)), ts, acl, write, notify);
  }
}
