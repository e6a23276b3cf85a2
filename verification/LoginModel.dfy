/**
 * The login handshake as two parties that write packets and react to packets, and the exchange both of
 * them follow. The key derivation and the HMAC are functions that both parties share.
 */
module LoginModel {
  import opened Bytes
  import opened Parcels
  import opened Channels
  import opened AuthParcels

  const CMD_LOGIN: bytes := [0x24, 0, 0, 0]
  const OFFICIAL_ACK: bytes := [0x00, 0x00, 0x03, 0x00]
  const CFM_LOGIN_OK: bytes := [0x21, 0, 0, 0]
  const CFM_LOGIN_ERR: bytes := [0x23, 0, 0, 0]
  const HOST_RANDOM: byte := 0x0b
  const HOST_PROOF: byte := 0x0a
  const DEVICE_RANDOM: byte := 0x0d
  const DEVICE_PROOF: byte := 0x0c
  const RANDOM_SIZE := 16
  const PROOF_SIZE := 32

  type Positive = n: nat | n > 0 witness 1

  datatype Channel = Upnp | Avdtp

  datatype Packet = Packet(channel: Channel, data: bytes)

  datatype Keys = Keys(devKey: bytes, appKey: bytes, devIv: bytes, appIv: bytes)

  // One login: the shared token, both randoms, the MTU, the cryptography, and the device's choice of
  // variants and chunk size.
  datatype Setup = Setup(
    token: bytes, appRand: bytes, devRand: bytes, mtu: Option<int>,
    derive: (bytes, bytes, bytes) -> Keys, hmac: (bytes, bytes) -> bytes,
    inlineRandom: bool, inlineProof: bool, size: Positive)

  ghost predicate Sensible(s: Setup)
  {
    && |s.token| == 12 && |s.appRand| == RANDOM_SIZE && |s.devRand| == RANDOM_SIZE
    && forall key, text :: |s.hmac(key, text)| == PROOF_SIZE
  }

  function SharedKeys(s: Setup, devRand: bytes): Keys { s.derive(s.token, s.appRand, devRand) }

  function DeviceProof(s: Setup, devRand: bytes): bytes { s.hmac(SharedKeys(s, devRand).devKey, devRand + s.appRand) }

  function HostProof(s: Setup, devRand: bytes): bytes { s.hmac(SharedKeys(s, devRand).appKey, s.appRand + devRand) }

  function HostChunks(s: Setup, data: bytes): seq<bytes> { Chunk(data, ParcelChunkSize(s.mtu)) }

  function ParcelPackets(chunks: seq<bytes>, from: nat): seq<Packet>
    requires from + |chunks| <= 0x10000
  {
    if chunks == [] then []
    else [Packet(Avdtp, ParcelFrame(from, chunks[0]))] + ParcelPackets(chunks[1..], from + 1)
  }

  function OnAvdtp(data: bytes): Packet { Packet(Avdtp, data) }

  // ------------------------------------------------------------------- host

  datatype HostPhase =
    | RandomReady | RandomDone
    | WantRandom | RandomParts(expected: nat, parts: Parts)
    | WantProof(devRand: bytes) | ProofParts(devRand: bytes, expected: nat, parts: Parts)
    | ProofReady(devRand: bytes) | ProofDone(devRand: bytes)
    | WantConfirmation(devRand: bytes)
    | LoggedIn(keys: Keys) | Stopped(error: AuthError)

  datatype Variant = Inline(payload: bytes) | Announced(count: nat) | Bad(error: AuthError)

  // `_recv_variant`, up to the parcels.
  function ReadVariant(data: bytes, code: byte): Variant
  {
    if |data| < 4 then Bad(ShortAnnouncement)
    else if data[3] != code then Bad(WrongCode)
    else if data[2] == 2 then Inline(data[4..])
    else if data[2] != 0 then Bad(UnknownVariant)
    else if |data| < 6 then Bad(ShortAnnouncement)
    else if !(1 <= U16(data, 4) <= MAX_AUTH_PARCELS) then Bad(BadParcelCount)
    else Announced(U16(data, 4))
  }

  function AfterRandom(payload: bytes): HostPhase
  {
    if |payload| != RANDOM_SIZE then Stopped(WrongRandomLength) else WantProof(payload)
  }

  // With the device's proof in hand: check it before anything of our own is announced.
  function AfterProof(s: Setup, devRand: bytes, payload: bytes): (HostPhase, seq<Packet>)
  {
    if payload != DeviceProof(s, devRand) then (Stopped(InvalidToken), []) else
    var n := |HostChunks(s, HostProof(s, devRand))|;
    if n > MAX_AUTH_PARCELS then (Stopped(TooManyParcels), [])
    else (ProofReady(devRand), [OnAvdtp(Announcement(HOST_PROOF, n))])
  }

  function HostWants(p: HostPhase): Option<Channel>
  {
    match p
    case WantConfirmation(_) => Some(Upnp)
    case LoggedIn(_) => None
    case Stopped(_) => None
    case _ => Some(Avdtp)
  }

  function TakeRandomPart(expected: nat, parts: Parts, data: bytes): (HostPhase, seq<Packet>)
  {
    match TakeParcel(parts, expected, data)
    case Err(e) => (Stopped(e), [])
    case Ok(more) =>
      if |more| < expected then (RandomParts(expected, more), [])
      else (AfterRandom(Join(more, 1, expected)), [OnAvdtp(RCV_OK)])
  }

  function TakeProofPart(s: Setup, devRand: bytes, expected: nat, parts: Parts, data: bytes): (HostPhase, seq<Packet>)
  {
    match TakeParcel(parts, expected, data)
    case Err(e) => (Stopped(e), [])
    case Ok(more) =>
      if |more| < expected then (ProofParts(devRand, expected, more), []) else
      var (next, out) := AfterProof(s, devRand, Join(more, 1, expected));
      (next, [OnAvdtp(RCV_OK)] + out)
  }

  // What the host does with a frame that is not an error frame.
  function HostTakes(s: Setup, p: HostPhase, data: bytes): (HostPhase, seq<Packet>)
  {
    match p
    case RandomReady =>
      if data != RCV_RDY then (p, []) else
      var chunks := HostChunks(s, s.appRand);
      if |chunks| > MAX_AUTH_PARCELS then (p, []) else (RandomDone, ParcelPackets(chunks, 1))
    case RandomDone => if data != RCV_OK then (p, []) else (WantRandom, [])
    case WantRandom =>
      (match ReadVariant(data, DEVICE_RANDOM)
       case Bad(e) => (Stopped(e), [])
       case Inline(payload) => (AfterRandom(payload), [OnAvdtp(OFFICIAL_ACK)])
       case Announced(n) => (RandomParts(n, map[]), [OnAvdtp(RCV_RDY)]))
    case RandomParts(n, parts) => TakeRandomPart(n, parts, data)
    case WantProof(r) =>
      (match ReadVariant(data, DEVICE_PROOF)
       case Bad(e) => (Stopped(e), [])
       case Inline(payload) =>
         var (next, out) := AfterProof(s, r, payload);
         (next, [OnAvdtp(OFFICIAL_ACK)] + out)
       case Announced(n) => (ProofParts(r, n, map[]), [OnAvdtp(RCV_RDY)]))
    case ProofParts(r, n, parts) => TakeProofPart(s, r, n, parts, data)
    case ProofReady(r) =>
      if data != RCV_RDY then (p, []) else
      var chunks := HostChunks(s, HostProof(s, r));
      if |chunks| > MAX_AUTH_PARCELS then (p, []) else (ProofDone(r), ParcelPackets(chunks, 1))
    case ProofDone(r) => if data != RCV_OK then (p, []) else (WantConfirmation(r), [])
    case WantConfirmation(r) =>
      if data == CFM_LOGIN_OK then (LoggedIn(SharedKeys(s, r)), [])
      else if data == CFM_LOGIN_ERR then (Stopped(InvalidToken), [])
      else (Stopped(UnexpectedConfirmation), [])
    case LoggedIn(_) => (p, [])
    case Stopped(_) => (p, [])
  }

  function HostReact(s: Setup, p: HostPhase, data: bytes): (HostPhase, seq<Packet>)
  {
    if HostWants(p).None? then (p, [])
    else if data in AUTH_ERRORS then (Stopped(OnChannel(DeviceError(data))), [])
    else HostTakes(s, p, data)
  }

  // ----------------------------------------------------------------- device

  datatype PeerPhase =
    | AwaitLogin | AwaitRandom | CollectRandom(expected: nat, parts: Parts)
    | OfferedRandom(appRand: bytes) | SentRandom(appRand: bytes)
    | OfferedProof(appRand: bytes) | SentProof(appRand: bytes)
    | AwaitProof(appRand: bytes) | CollectProof(appRand: bytes, expected: nat, parts: Parts)
    | Confirmed(keys: Keys) | Refused

  // The fewest parcels that hold `n` bytes: the firmware rejects any other announced count.
  function Fewest(n: nat, size: nat): nat
    requires size > 0
  {
    if n <= size then 1 else 1 + Fewest(n - size, size)
  }

  // What the device reckons with: a write command carries MTU - 3 bytes, two of them the parcel's number.
  function RoomInAFrame(mtu: Option<int>): (room: nat)
    ensures room > 0
  {
    match mtu
    case Some(m) => if m >= 23 then m - 3 - 2 else 18
    case None => 18
  }

  predicate AnnouncesFewest(s: Setup, data: bytes, code: byte, n: nat)
  {
    |data| == 6 && data[..4] == [0x00, 0x00, 0x00, code] && U16(data, 4) == Fewest(n, RoomInAFrame(s.mtu))
  }

  function Offer(s: Setup, code: byte, inline: bool, data: bytes): Packet
  {
    if inline then OnAvdtp([0x00, 0x00, 0x02, code] + data)
    else if |Chunk(data, s.size)| < 0x10000 then OnAvdtp(Announcement(code, |Chunk(data, s.size)|))
    else OnAvdtp([])
  }

  function Parcelled(s: Setup, data: bytes): seq<Packet>
  {
    if |Chunk(data, s.size)| < 0x10000 then ParcelPackets(Chunk(data, s.size), 1) else []
  }

  function PeerKeys(s: Setup, appRand: bytes): Keys { s.derive(s.token, appRand, s.devRand) }

  function PeerProof(s: Setup, appRand: bytes): bytes { s.hmac(PeerKeys(s, appRand).devKey, s.devRand + appRand) }

  function PeerWants(p: PeerPhase): Option<Channel>
  {
    match p
    case AwaitLogin => Some(Upnp)
    case Confirmed(_) => None
    case Refused => None
    case _ => Some(Avdtp)
  }

  function OfferProof(s: Setup, appRand: bytes): (PeerPhase, seq<Packet>)
  {
    (OfferedProof(appRand), [Offer(s, DEVICE_PROOF, s.inlineProof, PeerProof(s, appRand))])
  }

  function PeerCollectsRandom(s: Setup, expected: nat, parts: Parts, data: bytes): (PeerPhase, seq<Packet>)
  {
    match TakeParcel(parts, expected, data)
    case Err(_) => (Refused, [])
    case Ok(more) =>
      if |more| < expected then (CollectRandom(expected, more), []) else
      var appRand := Join(more, 1, expected);
      (OfferedRandom(appRand), [OnAvdtp(RCV_OK), Offer(s, DEVICE_RANDOM, s.inlineRandom, s.devRand)])
  }

  function PeerCollectsProof(s: Setup, appRand: bytes, expected: nat, parts: Parts, data: bytes)
    : (PeerPhase, seq<Packet>)
  {
    match TakeParcel(parts, expected, data)
    case Err(_) => (Refused, [])
    case Ok(more) =>
      if |more| < expected then (CollectProof(appRand, expected, more), [])
      else if Join(more, 1, expected) == s.hmac(PeerKeys(s, appRand).appKey, appRand + s.devRand)
      then (Confirmed(PeerKeys(s, appRand)), [OnAvdtp(RCV_OK), Packet(Upnp, CFM_LOGIN_OK)])
      else (Refused, [OnAvdtp(RCV_OK), Packet(Upnp, CFM_LOGIN_ERR)])
  }

  function PeerReact(s: Setup, p: PeerPhase, data: bytes): (PeerPhase, seq<Packet>)
  {
    match p
    case AwaitLogin => if data == CMD_LOGIN then (AwaitRandom, []) else (Refused, [])
    case AwaitRandom =>
      if AnnouncesFewest(s, data, HOST_RANDOM, RANDOM_SIZE)
      then (CollectRandom(U16(data, 4), map[]), [OnAvdtp(RCV_RDY)]) else (Refused, [])
    case CollectRandom(n, parts) => PeerCollectsRandom(s, n, parts, data)
    case OfferedRandom(a) =>
      if s.inlineRandom then (if data == OFFICIAL_ACK then OfferProof(s, a) else (Refused, []))
      else if data == RCV_RDY then (SentRandom(a), Parcelled(s, s.devRand)) else (Refused, [])
    case SentRandom(a) => if data == RCV_OK then OfferProof(s, a) else (Refused, [])
    case OfferedProof(a) =>
      if s.inlineProof then (if data == OFFICIAL_ACK then (AwaitProof(a), []) else (Refused, []))
      else if data == RCV_RDY then (SentProof(a), Parcelled(s, PeerProof(s, a))) else (Refused, [])
    case SentProof(a) => if data == RCV_OK then (AwaitProof(a), []) else (Refused, [])
    case AwaitProof(a) =>
      if AnnouncesFewest(s, data, HOST_PROOF, PROOF_SIZE)
      then (CollectProof(a, U16(data, 4), map[]), [OnAvdtp(RCV_RDY)]) else (Refused, [])
    case CollectProof(a, n, parts) => PeerCollectsProof(s, a, n, parts, data)
    case Confirmed(_) => (p, [])
    case Refused => (p, [])
  }

  // ----------------------------------------------------------- either party

  datatype Side = Host | Peer

  datatype Phase = AtHost(host: HostPhase) | AtPeer(peer: PeerPhase)

  // A party, and what it has decided to write but not written yet.
  datatype Party = Party(phase: Phase, out: seq<Packet>)

  function Wants(p: Phase): Option<Channel>
  {
    match p case AtHost(h) => HostWants(h) case AtPeer(q) => PeerWants(q)
  }

  function React(s: Setup, p: Phase, data: bytes): Party
  {
    match p
    case AtHost(h) => var (next, out) := HostReact(s, h, data); Party(AtHost(next), out)
    case AtPeer(q) => var (next, out) := PeerReact(s, q, data); Party(AtPeer(next), out)
  }

  // `login` up to its first wait.
  function StartHost(s: Setup): Party
  {
    if |s.token| != 12 then Party(AtHost(Stopped(BadToken)), []) else
    var n := |HostChunks(s, s.appRand)|;
    if n > MAX_AUTH_PARCELS then Party(AtHost(Stopped(TooManyParcels)), [Packet(Upnp, CMD_LOGIN)])
    else Party(AtHost(RandomReady), [Packet(Upnp, CMD_LOGIN), OnAvdtp(Announcement(HOST_RANDOM, n))])
  }

  function StartPeer(): Party { Party(AtPeer(AwaitLogin), []) }

  // ----------------------------------------------------------- the exchange

  datatype Item = Item(sender: Side, packet: Packet)

  function Says(side: Side, packets: seq<Packet>): seq<Item>
  {
    if packets == [] then [] else [Item(side, packets[0])] + Says(side, packets[1..])
  }

  // The device hands over `data`, inline or in parcels.
  function Handover(s: Setup, code: byte, inline: bool, data: bytes): seq<Item>
  {
    Says(Peer, [Offer(s, code, inline, data)]) +
    if inline then Says(Host, [OnAvdtp(OFFICIAL_ACK)])
    else Says(Host, [OnAvdtp(RCV_RDY)]) + Says(Peer, Parcelled(s, data)) + Says(Host, [OnAvdtp(RCV_OK)])
  }

  // The host hands over `data` in parcels.
  function Upload(s: Setup, code: byte, data: bytes): seq<Item>
    requires |HostChunks(s, data)| <= MAX_AUTH_PARCELS
  {
    var chunks := HostChunks(s, data);
    Says(Host, [OnAvdtp(Announcement(code, |chunks|))]) + Says(Peer, [OnAvdtp(RCV_RDY)])
    + Says(Host, ParcelPackets(chunks, 1)) + Says(Peer, [OnAvdtp(RCV_OK)])
  }

  lemma {:induction false} FewestIsChunkCount(data: bytes, size: nat)
    requires size > 0
    ensures |Chunk(data, size)| == Fewest(|data|, size)
    decreases |data|
  {
    if |data| > size {
      FewestIsChunkCount(data[size..], size);
    }
  }

  // No way to cut the data into pieces of at most that size has fewer pieces.
  lemma FewestIsMinimal(data: bytes, size: nat, other: seq<bytes>)
    requires size > 0 && other != [] && Flatten(other) == data
    requires forall i :: 0 <= i < |other| ==> |other[i]| <= size
    ensures Fewest(|data|, size) == |Chunk(data, size)| <= |other|
  {
    FewestIsChunkCount(data, size);
    ChunkIsMinimalSplit(data, size, other);
  }

  lemma {:induction false} FewestAtMost(n: nat, size: nat)
    requires size > 0 && n > 0
    ensures Fewest(n, size) <= n
  {
    if n > size {
      FewestAtMost(n - size, size);
    }
  }

  lemma FewParcels(s: Setup, data: bytes)
    requires 0 < |data| <= MAX_AUTH_PARCELS
    ensures 1 <= |HostChunks(s, data)| == Fewest(|data|, RoomInAFrame(s.mtu)) <= MAX_AUTH_PARCELS
    ensures 1 <= |Chunk(data, s.size)| <= MAX_AUTH_PARCELS
  {
    assert ParcelChunkSize(s.mtu) == RoomInAFrame(s.mtu);
    FewestIsChunkCount(data, RoomInAFrame(s.mtu));
    FewestIsChunkCount(data, s.size);
    FewestAtMost(|data|, RoomInAFrame(s.mtu));
    FewestAtMost(|data|, s.size);
  }

  // The frames of these parcels fit one write command each.
  ghost predicate FitFrames(chunks: seq<bytes>, mtu: int)
  {
    forall i :: 0 <= i < |chunks| ==> 2 + |chunks[i]| <= mtu - 3
  }

  // Whatever the host uploads goes out complete, in frames that fit, and no other way to cut it into frames that
  // fit has fewer of them.
  lemma FewestFrames(s: Setup, data: bytes, other: seq<bytes>)
    requires s.mtu.Some? && s.mtu.value >= 23
    requires other != [] && Flatten(other) == data && FitFrames(other, s.mtu.value)
    ensures Flatten(HostChunks(s, data)) == data && FitFrames(HostChunks(s, data), s.mtu.value)
    ensures |HostChunks(s, data)| <= |other|
  {
    SlicesShape(data, ParcelChunkSize(s.mtu));
    FewestIsMinimal(data, ParcelChunkSize(s.mtu), other);
  }

  // In numbers: the host's random is one frame and its proof is one from an MTU of 37 on, else two.
  lemma FramesOfLogin(s: Setup, devRand: bytes)
    requires Sensible(s)
    ensures var large := s.mtu.Some? && s.mtu.value >= 37;
            |HostChunks(s, s.appRand)| == 1 && |HostChunks(s, HostProof(s, devRand))| == if large then 1 else 2
  {
    var proof, size := HostProof(s, devRand), ParcelChunkSize(s.mtu);
    FewestIsChunkCount(s.appRand, size);
    FewestIsChunkCount(proof, size);
    if size < 32 {
      assert Fewest(32 - size, size) == 1;
    }
  }
}
