/** Parcels on the login channel: sizes against the MTU, sending, and collecting without duplicates. */
module AuthParcels {
  import opened Bytes
  import opened Parcels
  import opened Channels

  const MAX_AUTH_PARCELS := 64
  const RCV_RDY: bytes := [0x00, 0x00, 0x01, 0x01]
  const RCV_OK: bytes := [0x00, 0x00, 0x01, 0x00]
  const AUTH_ERRORS: set<bytes> := {[0xe0, 0, 0, 0], [0xe1, 0, 0, 0], [0xe2, 0, 0, 0], [0xe3, 0, 0, 0]}

  datatype AuthError =
    | BadToken | ShortAnnouncement | TooManyParcels | BadParcelCount | ShortParcel | BadParcelIndex | DuplicateParcel
    | WrongCode | UnknownVariant | WrongRandomLength | InvalidToken | UnexpectedConfirmation
    | OnChannel(error: ChannelError)

  // ------------------------------------------------------------------ sizes

  function ParcelChunkSize(mtu: Option<int>): (size: nat)
    ensures size >= PARCEL_CHUNK_SIZE
  {
    if mtu.Some? && mtu.value - 5 > PARCEL_CHUNK_SIZE then mtu.value - 5 else PARCEL_CHUNK_SIZE
  }

  function ParcelFrame(i: nat, chunk: bytes): (f: bytes)
    requires i < 0x10000
    ensures |f| == 2 + |chunk| && U16(f, 0) == i && f[2..] == chunk
  {
    Le16(i) + chunk
  }

  // From the smallest legal MTU on, a parcel is as large as its frame allows: one more byte would not fit
  // the ATT write command. Below that, and when the MTU is not known, it is the 18 bytes every link carries.
  lemma LargestThatFits(mtu: int, n: nat)
    ensures mtu >= 23 ==> (2 + n <= mtu - 3 <==> n <= ParcelChunkSize(Some(mtu)))
    ensures mtu < 23 ==> ParcelChunkSize(Some(mtu)) == 18 && ParcelChunkSize(None) == 18
  {
  }

  // Every frame fits one ATT write command (MTU - 3 bytes) exactly from the smallest legal MTU on.
  lemma FramesFitIff(mtu: int)
    requires mtu > 0
    ensures mtu >= 23 <==>
              forall data: bytes, i: nat ::
                0 <= i < |Chunk(data, ParcelChunkSize(Some(mtu)))| ==>
                  2 + |Chunk(data, ParcelChunkSize(Some(mtu)))[i]| <= mtu - 3
  {
    var size := ParcelChunkSize(Some(mtu));
    if mtu >= 23 {
      forall data: bytes, i: nat | 0 <= i < |Chunk(data, size)| ensures 2 + |Chunk(data, size)[i]| <= mtu - 3 {
        SlicesShape(data, size);
      }
    } else {
      var full: bytes := seq(18, i => 0);
      assert Chunk(full, size) == [full];
      assert |Chunk(full, size)[0]| == 18;
    }
  }

  // A parcel is one of the device's error frames only with an index between 224 and 227, which no
  // message of at most 64 parcels has.
  lemma ParcelIsErrorIff(i: nat, chunk: bytes)
    requires i < 0x10000
    ensures ParcelFrame(i, chunk) in AUTH_ERRORS <==> 0xe0 <= i <= 0xe3 && chunk == [0, 0]
    ensures i <= MAX_AUTH_PARCELS ==> ParcelFrame(i, chunk) !in AUTH_ERRORS
  {
    var f := ParcelFrame(i, chunk);
    assert f[0] as nat == i % 256 && f[1] as nat == i / 256;
    if chunk == [0, 0] && 0xe0 <= i <= 0xe3 {
      assert f == [i as byte, 0, 0, 0];
    }
    if f in AUTH_ERRORS {
      assert f[1] == 0 && f[2] == 0 && f[3] == 0 && |f| == 4;
      assert chunk[0] == f[2] && chunk[1] == f[3];
    }
  }

  // -------------------------------------------------------------- collecting

  // One parcel of an announced message.
  function TakeParcel(parts: Parts, expected: nat, data: bytes): Result<Parts, AuthError>
  {
    if |data| < 2 then Err(ShortParcel) else
    var idx := U16(data, 0);
    if idx == 0 || idx > expected then Err(BadParcelIndex)
    else if idx in parts then Err(DuplicateParcel)
    else Ok(parts[idx := data[2..]])
  }

  function CollectParcels(inbox: seq<Incoming>, parts: Parts, expected: nat): (Result<bytes, AuthError>, seq<Incoming>)
    decreases |inbox|
  {
    if |parts| >= expected then (Ok(Join(parts, 1, expected)), inbox) else
    match Receive(inbox, AUTH_ERRORS)
    case (Err(e), rest) => (Err(OnChannel(e)), rest)
    case (Ok(data), rest) =>
      match TakeParcel(parts, expected, data)
      case Err(e) => (Err(e), rest)
      case Ok(more) => CollectParcels(rest, more, expected)
  }

  // `_recv_parcel`: the data, what is left in the channel, and how many of the two replies were written.
  function RecvParcel(announcement: bytes, inbox: seq<Incoming>, writable: nat)
    : (Result<bytes, AuthError>, seq<Incoming>, seq<bytes>)
  {
    if |announcement| < 6 then (Err(ShortAnnouncement), inbox, []) else
    var expected := U16(announcement, 4);
    if !(1 <= expected <= MAX_AUTH_PARCELS) then (Err(BadParcelCount), inbox, [])
    else if writable == 0 then (Err(OnChannel(WriteError)), inbox, [])
    else match CollectParcels(inbox, map[], expected)
      case (Err(e), rest) => (Err(e), rest, [RCV_RDY])
      case (Ok(data), rest) =>
        if writable == 1 then (Err(OnChannel(WriteError)), rest, [RCV_RDY]) else (Ok(data), rest, [RCV_RDY, RCV_OK])
  }

  method ReceiveParcel(announcement: bytes, inbox: seq<Incoming>, writable: nat)
    returns (r: Result<bytes, AuthError>, rest: seq<Incoming>, written: seq<bytes>)
    ensures (r, rest, written) == RecvParcel(announcement, inbox, writable)
  {
    rest, written := inbox, [];
    if |announcement| < 6 {
      return Err(ShortAnnouncement), rest, written;
    }
    var expected := U16(announcement, 4);
    if !(1 <= expected <= MAX_AUTH_PARCELS) {
      return Err(BadParcelCount), rest, written;
    }
    if writable == 0 {
      return Err(OnChannel(WriteError)), rest, written;
    }
    written := [RCV_RDY];
    var frames: Parts := map[];
    while |frames| < expected
      invariant CollectParcels(rest, frames, expected) == CollectParcels(inbox, map[], expected)
      invariant |rest| <= |inbox|
      decreases |rest|
    {
      var (one, next) := Receive(rest, AUTH_ERRORS);
      rest := next;
      if one.Err? {
        return Err(OnChannel(one.error)), rest, written;
      }
      var data := one.value;
      if |data| < 2 {
        return Err(ShortParcel), rest, written;
      }
      var idx := U16(data, 0);
      if idx == 0 || idx > expected {
        return Err(BadParcelIndex), rest, written;
      }
      if idx in frames {
        return Err(DuplicateParcel), rest, written;
      }
      frames := frames[idx := data[2..]];
    }
    if writable == 1 {
      return Err(OnChannel(WriteError)), rest, written;
    }
    return Ok(Join(frames, 1, expected)), rest, [RCV_RDY, RCV_OK];
  }

  // -------------------------------------------------------------- round trip

  // An order in which each parcel arrives once.
  ghost predicate Permutation(order: seq<nat>, count: nat)
  {
    && |order| == count
    && (forall k :: 0 <= k < |order| ==> 1 <= order[k] <= count)
    && (forall j, k :: 0 <= j < k < |order| ==> order[j] != order[k])
  }

  function InOrder(chunks: seq<bytes>, order: seq<nat>): seq<Incoming>
    requires |chunks| < 0x10000 && forall k :: 0 <= k < |order| ==> 1 <= order[k] <= |chunks|
  {
    if order == [] then [] else [Arrived(ParcelFrame(order[0], chunks[order[0] - 1]))] + InOrder(chunks, order[1..])
  }

  lemma {:induction false} CollectsInOrder(
    chunks: seq<bytes>, order: seq<nat>, parts: Parts, rest: seq<Incoming>)
    requires 1 <= |chunks| <= MAX_AUTH_PARCELS && HoldsChunks(parts, chunks)
    requires |parts| + |order| == |chunks|
    requires forall k :: 0 <= k < |order| ==> 1 <= order[k] <= |chunks| && order[k] !in parts
    requires forall j, k :: 0 <= j < k < |order| ==> order[j] != order[k]
    ensures CollectParcels(InOrder(chunks, order) + rest, parts, |chunks|) == (Ok(Flatten(chunks)), rest)
    decreases |order|
  {
    var inbox := InOrder(chunks, order) + rest;
    if order == [] {
      assert inbox == rest;
      JoinComplete(parts, chunks);
    } else {
      var i := order[0];
      var frame := ParcelFrame(i, chunks[i - 1]);
      ParcelIsErrorIff(i, chunks[i - 1]);
      assert inbox == [Arrived(frame)] + (InOrder(chunks, order[1..]) + rest);
      assert inbox[1..] == InOrder(chunks, order[1..]) + rest;
      var more := parts[i := chunks[i - 1]];
      assert |more| == |parts| + 1;
      assert Receive(inbox, AUTH_ERRORS) == (Ok(frame), inbox[1..]);
      assert TakeParcel(parts, |chunks|, frame) == Ok(more);
      CollectsInOrder(chunks, order[1..], more, rest);
    }
  }

  // The announcement of `n` parcels under some code.
  function Announcement(code: byte, n: nat): (a: bytes)
    requires n < 0x10000
    ensures |a| == 6 && U16(a, 4) == n && a[..4] == [0x00, 0x00, 0x00, code]
  {
    var a := [0x00, 0x00, 0x00, code] + Le16(n);
    assert a[4..6] == Le16(n);
    a
  }

  // Chunk, number, shuffle and collect: whatever the order, the data comes back, with two replies.
  lemma ParcelRoundTrip(data: bytes, size: nat, code: byte, order: seq<nat>, rest: seq<Incoming>, writable: nat)
    requires size > 0 && |Chunk(data, size)| <= MAX_AUTH_PARCELS && Permutation(order, |Chunk(data, size)|)
    requires writable >= 2
    ensures RecvParcel(Announcement(code, |Chunk(data, size)|), InOrder(Chunk(data, size), order) + rest, writable)
         == (Ok(data), rest, [RCV_RDY, RCV_OK])
  {
    SlicesShape(data, size);
    var chunks := Chunk(data, size);
    assert Flatten(chunks) == data;
    CollectsInOrder(chunks, order, map[], rest);
  }

  // ----------------------------------------------------- what is accepted

  // The arrivals are parcels: none failed, none too short, each index in range.
  ghost predicate AreParcels(arrivals: seq<Incoming>, expected: nat)
  {
    forall k :: 0 <= k < |arrivals| ==>
      && arrivals[k].Arrived? && arrivals[k].data !in AUTH_ERRORS && |arrivals[k].data| >= 2
      && 1 <= U16(arrivals[k].data, 0) <= expected
  }

  ghost predicate DistinctIndices(arrivals: seq<Incoming>, expected: nat)
    requires AreParcels(arrivals, expected)
  {
    forall j, k :: 0 <= j < k < |arrivals| ==> U16(arrivals[j].data, 0) != U16(arrivals[k].data, 0)
  }

  function Table(arrivals: seq<Incoming>, expected: nat): Parts
    requires AreParcels(arrivals, expected)
    decreases |arrivals|
  {
    if arrivals == [] then map[] else
    var last := arrivals[|arrivals| - 1];
    Table(arrivals[..|arrivals| - 1], expected)[U16(last.data, 0) := last.data[2..]]
  }

  lemma {:induction false} TableKeys(arrivals: seq<Incoming>, expected: nat)
    requires AreParcels(arrivals, expected)
    ensures InRange(Table(arrivals, expected), expected)
    ensures forall i ::
              i in Table(arrivals, expected) <==>
              exists k :: 0 <= k < |arrivals| && U16(arrivals[k].data, 0) == i
    decreases |arrivals|
  {
    if arrivals != [] {
      var n := |arrivals| - 1;
      var front := arrivals[..n];
      TableKeys(front, expected);
      forall i | i in Table(arrivals, expected)
        ensures exists k :: 0 <= k < |arrivals| && U16(arrivals[k].data, 0) == i
      {
        if i in Table(front, expected) {
          var k :| 0 <= k < |front| && U16(front[k].data, 0) == i;
          assert U16(arrivals[k].data, 0) == i;
        } else {
          assert U16(arrivals[n].data, 0) == i;
        }
      }
      forall k | 0 <= k < |arrivals| ensures U16(arrivals[k].data, 0) in Table(arrivals, expected) {
        if k < n {
          assert front[k] == arrivals[k];
        }
      }
    }
  }

  lemma {:induction false} TableSize(arrivals: seq<Incoming>, expected: nat)
    requires AreParcels(arrivals, expected) && DistinctIndices(arrivals, expected)
    ensures |Table(arrivals, expected)| == |arrivals|
    decreases |arrivals|
  {
    if arrivals != [] {
      var n := |arrivals| - 1;
      var front := arrivals[..n];
      TableKeys(front, expected);
      TableSize(front, expected);
      forall k | 0 <= k < n ensures U16(front[k].data, 0) != U16(arrivals[n].data, 0) {
        assert front[k] == arrivals[k];
      }
      assert U16(arrivals[n].data, 0) !in Table(front, expected);
    }
  }

  // Having collected the first `k` arrivals, collecting goes on with the rest.
  ghost predicate Collected(inbox: seq<Incoming>, expected: nat, k: nat, parts: Parts)
  {
    k <= |inbox| && AreParcels(inbox[..k], expected) && DistinctIndices(inbox[..k], expected)
    && parts == Table(inbox[..k], expected)
  }

  lemma CollectedNext(inbox: seq<Incoming>, expected: nat, k: nat, parts: Parts)
    requires Collected(inbox, expected, k, parts) && k < |inbox| && Receive(inbox[k..], AUTH_ERRORS).0.Ok?
    requires TakeParcel(parts, expected, inbox[k].data).Ok?
    ensures Collected(inbox, expected, k + 1, TakeParcel(parts, expected, inbox[k].data).value)
  {
    var front, longer := inbox[..k], inbox[..k + 1];
    assert longer[..k] == front && longer[k] == inbox[k];
    TableKeys(front, expected);
    forall j | 0 <= j < k ensures U16(longer[j].data, 0) != U16(inbox[k].data, 0) {
      assert longer[j] == front[j];
      assert U16(front[j].data, 0) in parts;
    }
  }

  lemma {:induction false} CollectAccepts(inbox: seq<Incoming>, expected: nat, k: nat, parts: Parts)
    requires Collected(inbox, expected, k, parts) && k <= expected
    requires CollectParcels(inbox[k..], parts, expected).0.Ok?
    ensures |inbox| >= expected && AreParcels(inbox[..expected], expected)
    ensures DistinctIndices(inbox[..expected], expected)
    ensures CollectParcels(inbox[k..], parts, expected)
      == (Ok(Join(Table(inbox[..expected], expected), 1, expected)), inbox[expected..])
    decreases expected - k
  {
    TableKeys(inbox[..k], expected);
    TableSize(inbox[..k], expected);
    if |parts| < expected {
      assert k < |inbox|;
      assert inbox[k..][0] == inbox[k] && inbox[k..][1..] == inbox[k + 1..];
      CollectedNext(inbox, expected, k, parts);
      CollectAccepts(inbox, expected, k + 1, TakeParcel(parts, expected, inbox[k].data).value);
    }
  }

  lemma {:induction false} EachIndexOnceIsCollected(inbox: seq<Incoming>, expected: nat, k: nat, parts: Parts)
    requires Collected(inbox, expected, k, parts) && k <= expected <= |inbox|
    requires AreParcels(inbox[..expected], expected) && DistinctIndices(inbox[..expected], expected)
    ensures CollectParcels(inbox[k..], parts, expected).0.Ok?
    decreases expected - k
  {
    TableKeys(inbox[..k], expected);
    TableSize(inbox[..k], expected);
    if |parts| < expected {
      var all := inbox[..expected];
      assert all[k] == inbox[k] && inbox[k..][1..] == inbox[k + 1..];
      forall j | 0 <= j < k ensures U16(inbox[..k][j].data, 0) != U16(inbox[k].data, 0) {
        assert all[j] == inbox[..k][j];
      }
      assert U16(inbox[k].data, 0) !in parts;
      CollectedNext(inbox, expected, k, parts);
      EachIndexOnceIsCollected(inbox, expected, k + 1, TakeParcel(parts, expected, inbox[k].data).value);
    }
  }

  ghost predicate EachIndexOnce(inbox: seq<Incoming>, expected: nat)
  {
    |inbox| >= expected && AreParcels(inbox[..expected], expected) && DistinctIndices(inbox[..expected], expected)
  }

  // An announced message is accepted exactly when the next `expected` frames carry each index once, and
  // then its data are theirs in index order.
  lemma AcceptedIffEachIndexOnce(inbox: seq<Incoming>, expected: nat)
    ensures CollectParcels(inbox, map[], expected).0.Ok? <==> EachIndexOnce(inbox, expected)
    ensures EachIndexOnce(inbox, expected) ==>
              && (forall i :: 1 <= i <= expected ==> i in Table(inbox[..expected], expected))
              && CollectParcels(inbox, map[], expected)
                 == (Ok(Join(Table(inbox[..expected], expected), 1, expected)), inbox[expected..])
  {
    assert inbox[0..] == inbox && inbox[..0] == [];
    if EachIndexOnce(inbox, expected) {
      EachIndexOnceIsCollected(inbox, expected, 0, map[]);
    }
    if CollectParcels(inbox, map[], expected).0.Ok? {
      CollectAccepts(inbox, expected, 0, map[]);
      TableKeys(inbox[..expected], expected);
      TableSize(inbox[..expected], expected);
      CollectedAll(Table(inbox[..expected], expected), expected);
    }
  }
}
