/** Both parties of a login follow the same exchange, packet by packet, to the same keys. */
module LoginExchange {
  import opened Bytes
  import opened Parcels
  import opened Channels
  import opened AuthParcels
  import opened LoginModel

  // The party writes and receives exactly these items, in this order; what it is afterwards.
  function PlayTo(s: Setup, me: Side, p: Party, t: seq<Item>): Option<Party>
    decreases |t|
  {
    if t == [] then Some(p)
    else if t[0].sender == me then
      if p.out != [] && p.out[0] == t[0].packet then PlayTo(s, me, p.(out := p.out[1..]), t[1..]) else None
    else if p.out == [] && Wants(p.phase) == Some(t[0].packet.channel)
    then PlayTo(s, me, React(s, p.phase, t[0].packet.data), t[1..]) else None
  }

  lemma {:induction false} PlayAppend(s: Setup, me: Side, p: Party, a: seq<Item>, b: seq<Item>)
    ensures PlayTo(s, me, p, a + b) ==
      match PlayTo(s, me, p, a) case None => None case Some(q) => PlayTo(s, me, q, b)
    decreases |a|
  {
    if a == [] {
      assert a + b == b;
    } else {
      assert (a + b)[1..] == a[1..] + b;
      if a[0].sender == me {
        if p.out != [] { PlayAppend(s, me, p.(out := p.out[1..]), a[1..], b); }
      } else {
        PlayAppend(s, me, React(s, p.phase, a[0].packet.data), a[1..], b);
      }
    }
  }

  ghost predicate Plays(s: Setup, me: Side, p: Party, t: seq<Item>, q: Party)
  {
    PlayTo(s, me, p, t) == Some(q)
  }

  lemma PlaysThen(s: Setup, me: Side, p: Party, a: seq<Item>, q: Party, b: seq<Item>, r: Party)
    requires Plays(s, me, p, a, q) && Plays(s, me, q, b, r)
    ensures Plays(s, me, p, a + b, r)
  {
    PlayAppend(s, me, p, a, b);
  }

  // Three more pieces after the first.
  lemma PlaysFour(
    s: Setup, me: Side, p: Party, a: seq<Item>, q: Party, b: seq<Item>, r: Party, c: seq<Item>, u: Party,
        d: seq<Item>, v: Party)
    requires Plays(s, me, p, a, q) && Plays(s, me, q, b, r) && Plays(s, me, r, c, u) && Plays(s, me, u, d, v)
    ensures Plays(s, me, p, a + b + c + d, v)
  {
    PlaysThen(s, me, p, a, q, b, r);
    PlaysThen(s, me, p, a + b, r, c, u);
    PlaysThen(s, me, p, a + b + c, u, d, v);
  }

  lemma FourInARow(a: seq<Item>, b: seq<Item>, c: seq<Item>, d: seq<Item>)
    ensures a + (b + c + d) == a + b + c + d
  {
  }

  // Writing what is to be written.
  lemma {:induction false} PlaySends(s: Setup, me: Side, phase: Phase, ws: seq<Packet>, more: seq<Packet>)
    ensures Plays(s, me, Party(phase, ws + more), Says(me, ws), Party(phase, more))
    decreases |ws|
  {
    if ws == [] {
      assert ws + more == more;
    } else {
      assert (ws + more)[1..] == ws[1..] + more;
      assert Says(me, ws)[1..] == Says(me, ws[1..]);
      PlaySends(s, me, phase, ws[1..], more);
    }
  }

  lemma PlayWrites(s: Setup, me: Side, phase: Phase, ws: seq<Packet>)
    ensures Plays(s, me, Party(phase, ws), Says(me, ws), Party(phase, []))
  {
    assert ws + [] == ws;
    PlaySends(s, me, phase, ws, []);
  }

  lemma PlayReceive(s: Setup, me: Side, phase: Phase, packet: Packet)
    requires Wants(phase) == Some(packet.channel)
    ensures Plays(s, me, Party(phase, []), Says(Other(me), [packet]), React(s, phase, packet.data))
  {
    assert [packet][1..] == [];
    var t := Says(Other(me), [packet]);
    assert t[1..] == Says(Other(me), []);
  }

  function Other(side: Side): Side { if side == Host then Peer else Host }

  // ------------------------------------------------------ collecting parcels

  // Who collects what.
  datatype Collector = HostRandom | HostOfProof(devRand: bytes) | PeerRandom | PeerOfProof(appRand: bytes)

  function Collecting(c: Collector, n: nat, parts: Parts): Phase
  {
    match c
    case HostRandom => AtHost(RandomParts(n, parts))
    case HostOfProof(r) => AtHost(ProofParts(r, n, parts))
    case PeerRandom => AtPeer(CollectRandom(n, parts))
    case PeerOfProof(a) => AtPeer(CollectProof(a, n, parts))
  }

  function SideOf(c: Collector): Side { if c.HostRandom? || c.HostOfProof? then Host else Peer }

  // The party once the whole message is there: the reply and what follows from it.
  function Complete(s: Setup, c: Collector, data: bytes): Party
  {
    match c
    case HostRandom => Party(AtHost(AfterRandom(data)), [OnAvdtp(RCV_OK)])
    case HostOfProof(r) => var (next, out) := AfterProof(s, r, data); Party(AtHost(next), [OnAvdtp(RCV_OK)] + out)
    case PeerRandom =>
      Party(AtPeer(OfferedRandom(data)), [OnAvdtp(RCV_OK), Offer(s, DEVICE_RANDOM, s.inlineRandom, s.devRand)])
    case PeerOfProof(a) =>
      if data == s.hmac(PeerKeys(s, a).appKey, a + s.devRand)
      then Party(AtPeer(Confirmed(PeerKeys(s, a))), [OnAvdtp(RCV_OK), Packet(Upnp, CFM_LOGIN_OK)])
      else Party(AtPeer(Refused), [OnAvdtp(RCV_OK), Packet(Upnp, CFM_LOGIN_ERR)])
  }

  lemma CollectorReacts(s: Setup, c: Collector, n: nat, parts: Parts, data: bytes)
    requires data !in AUTH_ERRORS && TakeParcel(parts, n, data).Ok?
    ensures var more := TakeParcel(parts, n, data).value;
            React(s, Collecting(c, n, parts), data)
            == if |more| < n then Party(Collecting(c, n, more), []) else Complete(s, c, Join(more, 1, n))
  {
  }

  lemma PlayParcel(s: Setup, c: Collector, n: nat, parts: Parts, frame: bytes, rest: seq<Item>)
    requires frame !in AUTH_ERRORS && TakeParcel(parts, n, frame).Ok?
    ensures var more := TakeParcel(parts, n, frame).value;
            var next := if |more| < n then Party(Collecting(c, n, more), []) else Complete(s, c, Join(more, 1, n));
            PlayTo(s, SideOf(c), Party(Collecting(c, n, parts), []), [Item(Other(SideOf(c)), OnAvdtp(frame))] + rest)
            == PlayTo(s, SideOf(c), next, rest)
  {
    CollectorReacts(s, c, n, parts, frame);
    var t := [Item(Other(SideOf(c)), OnAvdtp(frame))] + rest;
    assert t[1..] == rest;
  }

  lemma NextParcel(chunks: seq<bytes>, from: nat, parts: Parts)
    requires 1 <= from <= |chunks| <= MAX_AUTH_PARCELS
    requires HoldsChunks(parts, chunks) && |parts| == from - 1 && forall i <- parts :: i < from
    ensures var frame, more := ParcelFrame(from, chunks[from - 1]), parts[from := chunks[from - 1]];
            var packets := ParcelPackets(chunks[from - 1..], from);
            && packets == [OnAvdtp(frame)] + packets[1..] && packets[1..] == ParcelPackets(chunks[from..], from + 1)
            && frame !in AUTH_ERRORS && TakeParcel(parts, |chunks|, frame) == Ok(more)
            && |more| == from && HoldsChunks(more, chunks)
  {
    assert chunks[from - 1..][1..] == chunks[from..];
    ParcelIsErrorIff(from, chunks[from - 1]);
  }

  lemma {:induction false} PlayCollects(s: Setup, c: Collector, chunks: seq<bytes>, from: nat, parts: Parts)
    requires 1 <= from <= |chunks| <= MAX_AUTH_PARCELS
    requires HoldsChunks(parts, chunks) && |parts| == from - 1 && forall i <- parts :: i < from
    ensures Plays(s, SideOf(c), Party(Collecting(c, |chunks|, parts), []),
                  Says(Other(SideOf(c)), ParcelPackets(chunks[from - 1..], from)), Complete(s, c, Flatten(chunks)))
    decreases |chunks| - from
  {
    var frame, more := ParcelFrame(from, chunks[from - 1]), parts[from := chunks[from - 1]];
    var packets := ParcelPackets(chunks[from - 1..], from);
    NextParcel(chunks, from, parts);
    PlayParcel(s, c, |chunks|, parts, frame, Says(Other(SideOf(c)), packets[1..]));
    if from == |chunks| {
      JoinComplete(more, chunks);
      assert packets[1..] == [];
    } else {
      PlayCollects(s, c, chunks, from + 1, more);
    }
  }

  lemma PlayCollectsAll(s: Setup, c: Collector, chunks: seq<bytes>)
    requires 1 <= |chunks| <= MAX_AUTH_PARCELS
    ensures Plays(s, SideOf(c), Party(Collecting(c, |chunks|, map[]), []),
                  Says(Other(SideOf(c)), ParcelPackets(chunks, 1)),
                  Complete(s, c, Flatten(chunks)))
  {
    assert chunks[0..] == chunks;
    PlayCollects(s, c, chunks, 1, map[]);
  }

  // The reply, once everything is there; what follows stays to be written.
  function Replied(s: Setup, c: Collector, data: bytes): Party
  {
    Party(Complete(s, c, data).phase, Complete(s, c, data).out[1..])
  }

  lemma PlayReply(s: Setup, c: Collector, data: bytes)
    ensures Plays(s, SideOf(c), Complete(s, c, data), Says(SideOf(c), [OnAvdtp(RCV_OK)]), Replied(s, c, data))
  {
    var end := Complete(s, c, data);
    assert end.out == [OnAvdtp(RCV_OK)] + end.out[1..];
    PlaySends(s, SideOf(c), end.phase, [OnAvdtp(RCV_OK)], end.out[1..]);
  }

  // ------------------------------------------------------------------ host

  lemma HostUploads(s: Setup, ready: HostPhase, done: HostPhase, next: HostPhase, code: byte, data: bytes)
    requires |HostChunks(s, data)| <= MAX_AUTH_PARCELS
    requires HostWants(ready) == HostWants(done) == Some(Avdtp)
    requires HostReact(s, ready, RCV_RDY) == (done, ParcelPackets(HostChunks(s, data), 1))
    requires HostReact(s, done, RCV_OK) == (next, [])
    ensures Plays(s, Host, Party(AtHost(ready), [OnAvdtp(Announcement(code, |HostChunks(s, data)|))]),
                  Upload(s, code, data), Party(AtHost(next), []))
  {
    var announcement := [OnAvdtp(Announcement(code, |HostChunks(s, data)|))];
    var parcels := ParcelPackets(HostChunks(s, data), 1);
    PlayWrites(s, Host, AtHost(ready), announcement);
    PlayReceive(s, Host, AtHost(ready), OnAvdtp(RCV_RDY));
    PlayWrites(s, Host, AtHost(done), parcels);
    PlayReceive(s, Host, AtHost(done), OnAvdtp(RCV_OK));
    PlaysFour(s, Host, Party(AtHost(ready), announcement),
              Says(Host, announcement), Party(AtHost(ready), []),
              Says(Peer, [OnAvdtp(RCV_RDY)]), Party(AtHost(done), parcels),
              Says(Host, parcels), Party(AtHost(done), []), Says(Peer, [OnAvdtp(RCV_OK)]), Party(AtHost(next), []));
  }

  // The host's waiting phase before it collects.
  function Waiting(c: Collector): HostPhase
    requires SideOf(c) == Host
  {
    if c.HostRandom? then WantRandom else WantProof(c.devRand)
  }

  function CodeOf(c: Collector): byte { if c.HostRandom? then DEVICE_RANDOM else DEVICE_PROOF }

  lemma HostReadsOffer(s: Setup, c: Collector, inline: bool, data: bytes)
    requires SideOf(c) == Host && 1 <= |Chunk(data, s.size)| <= MAX_AUTH_PARCELS
    ensures var r := React(s, AtHost(Waiting(c)), Offer(s, CodeOf(c), inline, data).data);
            if inline
            then r == Party(Complete(s, c, data).phase, [OnAvdtp(OFFICIAL_ACK)] + Complete(s, c, data).out[1..])
            else r == Party(Collecting(c, |Chunk(data, s.size)|, map[]), [OnAvdtp(RCV_RDY)])
  {
    var offer := Offer(s, CodeOf(c), inline, data).data;
    if inline {
      assert offer[4..] == data;
      assert [OnAvdtp(RCV_OK)][1..] == [];
      assert [OnAvdtp(OFFICIAL_ACK)] + [] == [OnAvdtp(OFFICIAL_ACK)];
      if c.HostOfProof? {
        var out := AfterProof(s, c.devRand, data).1;
        assert ([OnAvdtp(RCV_OK)] + out)[1..] == out;
      }
    } else {
      assert offer[..4][3] == offer[3] && offer[..4][2] == offer[2] && offer[..4][0] == offer[0];
    }
    assert offer[0] == 0;
  }

  lemma HostTakesInline(s: Setup, c: Collector, data: bytes)
    requires SideOf(c) == Host && 1 <= |Chunk(data, s.size)| <= MAX_AUTH_PARCELS
    ensures Plays(s, Host, Party(AtHost(Waiting(c)), []), Handover(s, CodeOf(c), true, data), Replied(s, c, data))
  {
    var end, offer := Replied(s, c, data), Offer(s, CodeOf(c), true, data);
    HostReadsOffer(s, c, true, data);
    PlayReceive(s, Host, AtHost(Waiting(c)), offer);
    PlaySends(s, Host, end.phase, [OnAvdtp(OFFICIAL_ACK)], end.out);
    PlaysThen(s, Host, Party(AtHost(Waiting(c)), []), Says(Peer, [offer]),
        Party(end.phase, [OnAvdtp(OFFICIAL_ACK)] + end.out),
              Says(Host, [OnAvdtp(OFFICIAL_ACK)]), end);
  }

  lemma ChunksHoldData(data: bytes, size: nat)
    requires size > 0
    ensures Flatten(Chunk(data, size)) == data
  {
    SlicesShape(data, size);
  }

  lemma HostTakesParcels(s: Setup, c: Collector, data: bytes)
    requires SideOf(c) == Host && 1 <= |Chunk(data, s.size)| <= MAX_AUTH_PARCELS
    ensures Plays(s, Host, Party(AtHost(Waiting(c)), []), Handover(s, CodeOf(c), false, data), Replied(s, c, data))
  {
    var offer, chunks := Offer(s, CodeOf(c), false, data), Chunk(data, s.size);
    ChunksHoldData(data, s.size);
    HostReadsOffer(s, c, false, data);
    PlayReceive(s, Host, AtHost(Waiting(c)), offer);
    PlayWrites(s, Host, Collecting(c, |chunks|, map[]), [OnAvdtp(RCV_RDY)]);
    PlayCollectsAll(s, c, chunks);
    PlayReply(s, c, data);
    var t1, t2 := Says(Peer, [offer]), Says(Host, [OnAvdtp(RCV_RDY)]);
    var t3, t4 := Says(Peer, Parcelled(s, data)), Says(Host, [OnAvdtp(RCV_OK)]);
    PlaysFour(s, Host, Party(AtHost(Waiting(c)), []),
              t1, Party(Collecting(c, |chunks|, map[]), [OnAvdtp(RCV_RDY)]),
              t2, Party(Collecting(c, |chunks|, map[]), []),
              t3, Complete(s, c, data), t4, Replied(s, c, data));
    FourInARow(t1, t2, t3, t4);
  }

  lemma HostTakesHandover(s: Setup, c: Collector, inline: bool, data: bytes)
    requires SideOf(c) == Host && 1 <= |Chunk(data, s.size)| <= MAX_AUTH_PARCELS
    ensures Plays(s, Host, Party(AtHost(Waiting(c)), []), Handover(s, CodeOf(c), inline, data), Replied(s, c, data))
  {
    if inline { HostTakesInline(s, c, data); } else { HostTakesParcels(s, c, data); }
  }

  // ------------------------------------------------------------------ device

  lemma PeerTakesUpload(s: Setup, c: Collector, await: PeerPhase, code: byte, data: bytes)
    requires SideOf(c) == Peer && 1 <= |HostChunks(s, data)| <= MAX_AUTH_PARCELS
    requires PeerWants(await) == Some(Avdtp)
    requires React(s, AtPeer(await), Announcement(code, |HostChunks(s, data)|))
          == Party(Collecting(c, |HostChunks(s, data)|, map[]), [OnAvdtp(RCV_RDY)])
    ensures Plays(s, Peer, Party(AtPeer(await), []), Upload(s, code, data), Replied(s, c, data))
  {
    var chunks := HostChunks(s, data);
    SlicesShape(data, ParcelChunkSize(s.mtu));
    assert Flatten(chunks) == data;
    var announcement := OnAvdtp(Announcement(code, |chunks|));
    PlayReceive(s, Peer, AtPeer(await), announcement);
    PlayWrites(s, Peer, Collecting(c, |chunks|, map[]), [OnAvdtp(RCV_RDY)]);
    PlayCollectsAll(s, c, chunks);
    PlayReply(s, c, data);
    PlaysFour(s, Peer, Party(AtPeer(await), []),
              Says(Host, [announcement]), Party(Collecting(c, |chunks|, map[]), [OnAvdtp(RCV_RDY)]),
              Says(Peer, [OnAvdtp(RCV_RDY)]), Party(Collecting(c, |chunks|, map[]), []),
              Says(Host, ParcelPackets(chunks, 1)), Complete(s, c, data),
              Says(Peer, [OnAvdtp(RCV_OK)]), Replied(s, c, data));
  }

  lemma PeerHandsOverInline(s: Setup, offered: PeerPhase, end: Party, code: byte, data: bytes)
    requires PeerWants(offered) == Some(Avdtp) && React(s, AtPeer(offered), OFFICIAL_ACK) == end
    ensures Plays(s, Peer, Party(AtPeer(offered), [Offer(s, code, true, data)]), Handover(s, code, true, data), end)
  {
    var offer := Offer(s, code, true, data);
    var p, q := Party(AtPeer(offered), [offer]), Party(AtPeer(offered), []);
    PlayWrites(s, Peer, AtPeer(offered), [offer]);
    PlayReceive(s, Peer, AtPeer(offered), OnAvdtp(OFFICIAL_ACK));
    PlaysThen(s, Peer, p, Says(Peer, [offer]), q, Says(Host, [OnAvdtp(OFFICIAL_ACK)]), end);
  }

  lemma PeerHandsOverParcels(s: Setup, offered: PeerPhase, sent: PeerPhase, end: Party, code: byte, data: bytes)
    requires PeerWants(offered) == PeerWants(sent) == Some(Avdtp)
    requires React(s, AtPeer(offered), RCV_RDY) == Party(AtPeer(sent), Parcelled(s, data))
    requires React(s, AtPeer(sent), RCV_OK) == end
    ensures Plays(s, Peer, Party(AtPeer(offered), [Offer(s, code, false, data)]), Handover(s, code, false, data), end)
  {
    var offer := Offer(s, code, false, data);
    var t1, t2 := Says(Peer, [offer]), Says(Host, [OnAvdtp(RCV_RDY)]);
    var t3, t4 := Says(Peer, Parcelled(s, data)), Says(Host, [OnAvdtp(RCV_OK)]);
    PlayWrites(s, Peer, AtPeer(offered), [offer]);
    PlayReceive(s, Peer, AtPeer(offered), OnAvdtp(RCV_RDY));
    PlayWrites(s, Peer, AtPeer(sent), Parcelled(s, data));
    PlayReceive(s, Peer, AtPeer(sent), OnAvdtp(RCV_OK));
    PlaysFour(s, Peer, Party(AtPeer(offered), [offer]), t1, Party(AtPeer(offered), []), t2,
              Party(AtPeer(sent), Parcelled(s, data)), t3, Party(AtPeer(sent), []), t4, end);
    FourInARow(t1, t2, t3, t4);
  }

  lemma PeerHandsOver(s: Setup, offered: PeerPhase, sent: PeerPhase, end: Party, code: byte, inline: bool, data: bytes)
    requires PeerWants(offered) == PeerWants(sent) == Some(Avdtp)
    requires inline ==> React(s, AtPeer(offered), OFFICIAL_ACK) == end
    requires !inline ==> React(s, AtPeer(offered), RCV_RDY) == Party(AtPeer(sent), Parcelled(s, data))
    requires !inline ==> React(s, AtPeer(sent), RCV_OK) == end
    ensures Plays(s, Peer, Party(AtPeer(offered), [Offer(s, code, inline, data)]), Handover(s, code, inline, data), end)
  {
    if inline {
      PeerHandsOverInline(s, offered, end, code, data);
    } else {
      PeerHandsOverParcels(s, offered, sent, end, code, data);
    }
  }

  // ------------------------------------------------------ the whole exchange

  // Six pieces in a row.
  lemma PlaysSix(s: Setup, me: Side, t: seq<seq<Item>>, p: seq<Party>)
    requires |t| == 6 && |p| == 7 && forall k :: 0 <= k < 6 ==> Plays(s, me, p[k], t[k], p[k + 1])
    ensures Plays(s, me, p[0], t[0] + t[1] + t[2] + t[3] + t[4] + t[5], p[6])
  {
    PlaysFour(s, me, p[0], t[0], p[1], t[1], p[2], t[2], p[3], t[3], p[4]);
    PlaysThen(s, me, p[0], t[0] + t[1] + t[2] + t[3], p[4], t[4], p[5]);
    PlaysThen(s, me, p[0], t[0] + t[1] + t[2] + t[3] + t[4], p[5], t[5], p[6]);
  }

  lemma ExchangeIsDefined(s: Setup)
    requires Sensible(s)
    ensures 1 <= |HostChunks(s, s.appRand)| <= MAX_AUTH_PARCELS
    ensures 1 <= |HostChunks(s, HostProof(s, s.devRand))| <= MAX_AUTH_PARCELS
    ensures 1 <= |Chunk(s.devRand, s.size)| <= MAX_AUTH_PARCELS
    ensures 1 <= |Chunk(DeviceProof(s, s.devRand), s.size)| <= MAX_AUTH_PARCELS
  {
    FewParcels(s, s.appRand);
    FewParcels(s, s.devRand);
    FewParcels(s, HostProof(s, s.devRand));
    FewParcels(s, DeviceProof(s, s.devRand));
  }

  function Pieces(s: Setup): seq<seq<Item>>
    requires |HostChunks(s, s.appRand)| <= MAX_AUTH_PARCELS
    requires |HostChunks(s, HostProof(s, s.devRand))| <= MAX_AUTH_PARCELS
  {
    [Says(Host, [Packet(Upnp, CMD_LOGIN)]),
     Upload(s, HOST_RANDOM, s.appRand),
     Handover(s, DEVICE_RANDOM, s.inlineRandom, s.devRand),
     Handover(s, DEVICE_PROOF, s.inlineProof, DeviceProof(s, s.devRand)),
     Upload(s, HOST_PROOF, HostProof(s, s.devRand)),
     Says(Peer, [Packet(Upnp, CFM_LOGIN_OK)])]
  }

  function Exchange(s: Setup): seq<Item>
    requires |HostChunks(s, s.appRand)| <= MAX_AUTH_PARCELS
    requires |HostChunks(s, HostProof(s, s.devRand))| <= MAX_AUTH_PARCELS
  {
    var t := Pieces(s);
    t[0] + t[1] + t[2] + t[3] + t[4] + t[5]
  }

  lemma HostUploadsRandom(s: Setup)
    requires Sensible(s) && |HostChunks(s, s.appRand)| <= MAX_AUTH_PARCELS
    ensures var announced := OnAvdtp(Announcement(HOST_RANDOM, |HostChunks(s, s.appRand)|));
            && Plays(s, Host, StartHost(s), Says(Host, [Packet(Upnp, CMD_LOGIN)]),
                Party(AtHost(RandomReady), [announced]))
            && Plays(s, Host, Party(AtHost(RandomReady), [announced]), Upload(s, HOST_RANDOM, s.appRand),
                Party(AtHost(WantRandom), []))
  {
    var announced := OnAvdtp(Announcement(HOST_RANDOM, |HostChunks(s, s.appRand)|));
    assert StartHost(s).out == [Packet(Upnp, CMD_LOGIN)] + [announced];
    PlaySends(s, Host, AtHost(RandomReady), [Packet(Upnp, CMD_LOGIN)], [announced]);
    HostUploads(s, RandomReady, RandomDone, WantRandom, HOST_RANDOM, s.appRand);
  }

  lemma HostTakesRandom(s: Setup)
    requires Sensible(s) && 1 <= |Chunk(s.devRand, s.size)| <= MAX_AUTH_PARCELS
    ensures Plays(s, Host, Party(AtHost(WantRandom), []), Handover(s, DEVICE_RANDOM, s.inlineRandom, s.devRand),
                  Party(AtHost(WantProof(s.devRand)), []))
  {
    HostTakesHandover(s, HostRandom, s.inlineRandom, s.devRand);
    assert [OnAvdtp(RCV_OK)][1..] == [];
  }

  lemma HostTakesProof(s: Setup)
    requires Sensible(s) && |HostChunks(s, HostProof(s, s.devRand))| <= MAX_AUTH_PARCELS
    requires 1 <= |Chunk(DeviceProof(s, s.devRand), s.size)| <= MAX_AUTH_PARCELS
    ensures Plays(s, Host, Party(AtHost(WantProof(s.devRand)), []),
                  Handover(s, DEVICE_PROOF, s.inlineProof, DeviceProof(s, s.devRand)),
                  Party(AtHost(ProofReady(s.devRand)),
                      [OnAvdtp(Announcement(HOST_PROOF, |HostChunks(s, HostProof(s, s.devRand))|))]))
  {
    HostTakesHandover(s, HostOfProof(s.devRand), s.inlineProof, DeviceProof(s, s.devRand));
    var announced := OnAvdtp(Announcement(HOST_PROOF, |HostChunks(s, HostProof(s, s.devRand))|));
    assert ([OnAvdtp(RCV_OK)] + [announced])[1..] == [announced];
  }

  lemma HostUploadsProof(s: Setup, r: bytes)
    requires Sensible(s) && |HostChunks(s, HostProof(s, r))| <= MAX_AUTH_PARCELS
    ensures Plays(s, Host,
                  Party(AtHost(ProofReady(r)), [OnAvdtp(Announcement(HOST_PROOF, |HostChunks(s, HostProof(s, r))|))]),
                  Upload(s, HOST_PROOF, HostProof(s, r)), Party(AtHost(WantConfirmation(r)), []))
    ensures Plays(s, Host, Party(AtHost(WantConfirmation(r)), []), Says(Peer, [Packet(Upnp, CFM_LOGIN_OK)]),
                  Party(AtHost(LoggedIn(SharedKeys(s, r))), []))
  {
    HostUploads(s, ProofReady(r), ProofDone(r), WantConfirmation(r), HOST_PROOF, HostProof(s, r));
    PlayReceive(s, Host, AtHost(WantConfirmation(r)), Packet(Upnp, CFM_LOGIN_OK));
  }

  // The host follows the exchange and ends with the keys of the token and both randoms.
  lemma HostPlays(s: Setup)
    requires Sensible(s)
    ensures |HostChunks(s, s.appRand)| <= MAX_AUTH_PARCELS
    ensures |HostChunks(s, HostProof(s, s.devRand))| <= MAX_AUTH_PARCELS
    ensures Plays(s, Host, StartHost(s), Exchange(s), Party(AtHost(LoggedIn(SharedKeys(s, s.devRand))), []))
  {
    ExchangeIsDefined(s);
    var r := s.devRand;
    HostUploadsRandom(s);
    HostTakesRandom(s);
    HostTakesProof(s);
    HostUploadsProof(s, r);
    PlaysSix(s, Host, Pieces(s),
      [StartHost(s),
       Party(AtHost(RandomReady), [OnAvdtp(Announcement(HOST_RANDOM, |HostChunks(s, s.appRand)|))]),
       Party(AtHost(WantRandom), []),
       Party(AtHost(WantProof(r)), []),
       Party(AtHost(ProofReady(r)), [OnAvdtp(Announcement(HOST_PROOF, |HostChunks(s, HostProof(s, r))|))]),
       Party(AtHost(WantConfirmation(r)), []),
       Party(AtHost(LoggedIn(SharedKeys(s, r))), [])]);
  }

  lemma PeerTakesRandom(s: Setup)
    requires Sensible(s) && 1 <= |HostChunks(s, s.appRand)| <= MAX_AUTH_PARCELS
    ensures Plays(s, Peer, StartPeer(), Says(Host, [Packet(Upnp, CMD_LOGIN)]), Party(AtPeer(AwaitRandom), []))
    ensures Plays(s, Peer, Party(AtPeer(AwaitRandom), []), Upload(s, HOST_RANDOM, s.appRand),
                  Party(AtPeer(OfferedRandom(s.appRand)), [Offer(s, DEVICE_RANDOM, s.inlineRandom, s.devRand)]))
  {
    FewParcels(s, s.appRand);
    PlayReceive(s, Peer, AtPeer(AwaitLogin), Packet(Upnp, CMD_LOGIN));
    PeerTakesUpload(s, PeerRandom, AwaitRandom, HOST_RANDOM, s.appRand);
    var offer := Offer(s, DEVICE_RANDOM, s.inlineRandom, s.devRand);
    assert [OnAvdtp(RCV_OK), offer][1..] == [offer];
  }

  lemma PeerTakesProof(s: Setup)
    requires Sensible(s) && 1 <= |HostChunks(s, HostProof(s, s.devRand))| <= MAX_AUTH_PARCELS
    ensures Plays(s, Peer, Party(AtPeer(AwaitProof(s.appRand)), []), Upload(s, HOST_PROOF, HostProof(s, s.devRand)),
                  Party(AtPeer(Confirmed(SharedKeys(s, s.devRand))), [Packet(Upnp, CFM_LOGIN_OK)]))
    ensures Plays(s, Peer, Party(AtPeer(Confirmed(SharedKeys(s, s.devRand))), [Packet(Upnp, CFM_LOGIN_OK)]),
                  Says(Peer, [Packet(Upnp, CFM_LOGIN_OK)]), Party(AtPeer(Confirmed(SharedKeys(s, s.devRand))), []))
  {
    FewParcels(s, HostProof(s, s.devRand));
    PeerTakesUpload(s, PeerOfProof(s.appRand), AwaitProof(s.appRand), HOST_PROOF, HostProof(s, s.devRand));
    var confirm := Packet(Upnp, CFM_LOGIN_OK);
    assert [OnAvdtp(RCV_OK), confirm][1..] == [confirm];
    PlayWrites(s, Peer, AtPeer(Confirmed(SharedKeys(s, s.devRand))), [confirm]);
  }

  lemma PeerHandsBothOver(s: Setup)
    requires Sensible(s)
    requires 1 <= |Chunk(s.devRand, s.size)| <= MAX_AUTH_PARCELS
    requires 1 <= |Chunk(DeviceProof(s, s.devRand), s.size)| <= MAX_AUTH_PARCELS
    ensures Plays(s, Peer,
                  Party(AtPeer(OfferedRandom(s.appRand)), [Offer(s, DEVICE_RANDOM, s.inlineRandom, s.devRand)]),
                  Handover(s, DEVICE_RANDOM, s.inlineRandom, s.devRand),
                  Party(AtPeer(OfferedProof(s.appRand)),
                      [Offer(s, DEVICE_PROOF, s.inlineProof, DeviceProof(s, s.devRand))]))
    ensures Plays(s, Peer,
                  Party(AtPeer(OfferedProof(s.appRand)),
                        [Offer(s, DEVICE_PROOF, s.inlineProof, DeviceProof(s, s.devRand))]),
                  Handover(s, DEVICE_PROOF, s.inlineProof, DeviceProof(s, s.devRand)),
                  Party(AtPeer(AwaitProof(s.appRand)), []))
  {
    var a := s.appRand;
    PeerHandsOver(s, OfferedRandom(a), SentRandom(a),
                  Party(AtPeer(OfferedProof(a)), [Offer(s, DEVICE_PROOF, s.inlineProof, PeerProof(s, a))]),
                  DEVICE_RANDOM, s.inlineRandom, s.devRand);
    PeerHandsOver(s, OfferedProof(a), SentProof(a), Party(AtPeer(AwaitProof(a)), []),
                  DEVICE_PROOF, s.inlineProof, PeerProof(s, a));
  }

  // The device follows the same exchange and ends with the same keys.
  lemma PeerPlays(s: Setup)
    requires Sensible(s)
    ensures |HostChunks(s, s.appRand)| <= MAX_AUTH_PARCELS
    ensures |HostChunks(s, HostProof(s, s.devRand))| <= MAX_AUTH_PARCELS
    ensures Plays(s, Peer, StartPeer(), Exchange(s), Party(AtPeer(Confirmed(SharedKeys(s, s.devRand))), []))
  {
    ExchangeIsDefined(s);
    PeerTakesRandom(s);
    PeerHandsBothOver(s);
    PeerTakesProof(s);
    var a := s.appRand;
    PlaysSix(s, Peer, Pieces(s),
      [StartPeer(),
       Party(AtPeer(AwaitRandom), []),
       Party(AtPeer(OfferedRandom(a)), [Offer(s, DEVICE_RANDOM, s.inlineRandom, s.devRand)]),
       Party(AtPeer(OfferedProof(a)), [Offer(s, DEVICE_PROOF, s.inlineProof, DeviceProof(s, s.devRand))]),
       Party(AtPeer(AwaitProof(a)), []),
       Party(AtPeer(Confirmed(SharedKeys(s, s.devRand))), [Packet(Upnp, CFM_LOGIN_OK)]),
       Party(AtPeer(Confirmed(SharedKeys(s, s.devRand))), [])]);
  }
}
