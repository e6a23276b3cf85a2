/** Host and device joined by their notification queues: every schedule of their steps completes the login. */
module LoginComposition {
  import opened Bytes
  import opened Parcels
  import opened Channels
  import opened AuthParcels
  import opened LoginModel
  import opened LoginExchange

  const QUEUE_SIZE := 64

  // What was delivered to a party and not read yet.
  datatype Inbox = Inbox(avdtp: Queue, upnp: Queue)

  datatype End = End(party: Party, inbox: Inbox)

  datatype System = System(host: End, peer: End)

  function On(inbox: Inbox, c: Channel): Queue { if c == Avdtp then inbox.avdtp else inbox.upnp }

  function With(inbox: Inbox, c: Channel, q: Queue): Inbox
  {
    if c == Avdtp then inbox.(avdtp := q) else inbox.(upnp := q)
  }

  // The host's queues drop the oldest frame beyond 64; the device's have no bound here.
  function Room(side: Side): nat { if side == Host then QUEUE_SIZE else 0 }

  function Overrun(p: Phase): Phase
  {
    match p case AtHost(_) => AtHost(Stopped(OnChannel(Overflow))) case AtPeer(_) => AtPeer(Refused)
  }

  // One step of a party: it writes the next packet, or reads one from the channel it waits for.
  function Act(s: Setup, side: Side, me: End, other: End): (End, End)
  {
    if me.party.out != [] then
      var packet := me.party.out[0];
      (me.(party := me.party.(out := me.party.out[1..])),
       other.(inbox := With(other.inbox, packet.channel,
           Put(On(other.inbox, packet.channel), packet.data, Room(Other(side))))))
    else match Wants(me.party.phase)
      case None => (me, other)
      case Some(c) =>
        var q := On(me.inbox, c);
        if q.dropped > 0 then (me.(party := Party(Overrun(me.party.phase), [])), other)
        else if q.items == [] then (me, other)
        else (End(React(s, me.party.phase, q.items[0]), With(me.inbox, c, q.(items := q.items[1..]))), other)
  }

  function Move(s: Setup, sys: System, side: Side): System
  {
    match side
    case Host => var (h, p) := Act(s, Host, sys.host, sys.peer); System(h, p)
    case Peer => var (p, h) := Act(s, Peer, sys.peer, sys.host); System(h, p)
  }

  function RunSchedule(s: Setup, sys: System, schedule: seq<Side>): System
    decreases |schedule|
  {
    if schedule == [] then sys else RunSchedule(s, Move(s, sys, schedule[0]), schedule[1..])
  }

  // The steps of a schedule that did something.
  function Effective(s: Setup, sys: System, schedule: seq<Side>): nat
    decreases |schedule|
  {
    if schedule == [] then 0 else
    var next := Move(s, sys, schedule[0]);
    (if next == sys then 0 else 1) + Effective(s, next, schedule[1..])
  }

  function Nothing(): Inbox { Inbox(Queue([], 0), Queue([], 0)) }

  function Initial(s: Setup): System { System(End(StartHost(s), Nothing()), End(StartPeer(), Nothing())) }

  // Both sides hold the keys derived from the shared token and the two randoms, and nothing is left over.
  predicate Done(s: Setup, sys: System)
  {
    && sys.host == End(Party(AtHost(LoggedIn(SharedKeys(s, s.devRand))), []), Nothing())
    && sys.peer == End(Party(AtPeer(Confirmed(SharedKeys(s, s.devRand))), []), Nothing())
  }

  // -------------------------------------------------- no queue ever overflows

  predicate RunsWithin(t: seq<Item>, run: nat)
  {
    t == [] ||
    if t[0].sender == Peer then run + 1 <= QUEUE_SIZE && RunsWithin(t[1..], run + 1) else RunsWithin(t[1..], 0)
  }

  function RunAfter(t: seq<Item>, run: nat): nat
  {
    if t == [] then run else RunAfter(t[1..], if t[0].sender == Peer then run + 1 else 0)
  }

  lemma {:induction false} RunsAppend(a: seq<Item>, b: seq<Item>, run: nat)
    ensures RunsWithin(a + b, run) <==> RunsWithin(a, run) && RunsWithin(b, RunAfter(a, run))
    ensures RunAfter(a + b, run) == RunAfter(b, RunAfter(a, run))
    decreases |a|
  {
    if a == [] {
      assert a + b == b;
    } else {
      assert (a + b)[1..] == a[1..] + b;
      RunsAppend(a[1..], b, if a[0].sender == Peer then run + 1 else 0);
    }
  }

  lemma {:induction false} RunsOfSays(ws: seq<Packet>, run: nat)
    ensures RunsWithin(Says(Host, ws), run)
    ensures RunAfter(Says(Host, ws), run) == if ws == [] then run else 0
    ensures run + |ws| <= QUEUE_SIZE ==> RunsWithin(Says(Peer, ws), run)
    ensures RunAfter(Says(Peer, ws), run) == run + |ws|
    decreases |ws|
  {
    if ws != [] {
      RunsOfSays(ws[1..], run + 1);
      RunsOfSays(ws[1..], 0);
      assert Says(Host, ws)[1..] == Says(Host, ws[1..]) && Says(Peer, ws)[1..] == Says(Peer, ws[1..]);
    }
  }

  lemma {:induction false} ParcelCount(chunks: seq<bytes>, from: nat)
    requires from + |chunks| <= 0x10000
    ensures |ParcelPackets(chunks, from)| == |chunks|
  {
    if chunks != [] {
      ParcelCount(chunks[1..], from + 1);
    }
  }

  lemma RunsFour(a: seq<Item>, b: seq<Item>, c: seq<Item>, d: seq<Item>, run: nat)
    ensures var r1 := RunAfter(a, run);
            var r2 := RunAfter(b, r1);
            var r3 := RunAfter(c, r2);
            && RunAfter(a + b + c + d, run) == RunAfter(d, r3)
            && (RunsWithin(a + b + c + d, run)
                <==> RunsWithin(a, run) && RunsWithin(b, r1) && RunsWithin(c, r2) && RunsWithin(d, r3))
  {
    RunsAppend(a, b, run);
    RunsAppend(a + b, c, run);
    RunsAppend(a + b + c, d, run);
  }

  lemma RunsOfUpload(s: Setup, code: byte, data: bytes, run: nat)
    requires 1 <= |HostChunks(s, data)| <= MAX_AUTH_PARCELS
    ensures RunsWithin(Upload(s, code, data), run) && RunAfter(Upload(s, code, data), run) == 1
  {
    var chunks := HostChunks(s, data);
    var announcement := [OnAvdtp(Announcement(code, |chunks|))];
    ParcelCount(chunks, 1);
    RunsOfSays(announcement, run);
    RunsOfSays([OnAvdtp(RCV_RDY)], 0);
    RunsOfSays(ParcelPackets(chunks, 1), 1);
    RunsOfSays([OnAvdtp(RCV_OK)], 0);
    RunsFour(Says(Host, announcement), Says(Peer, [OnAvdtp(RCV_RDY)]), Says(Host, ParcelPackets(chunks, 1)),
             Says(Peer, [OnAvdtp(RCV_OK)]), run);
  }

  lemma RunsOfHandover(s: Setup, code: byte, inline: bool, data: bytes, run: nat)
    requires 1 <= |Chunk(data, s.size)| <= MAX_AUTH_PARCELS && run < QUEUE_SIZE
    ensures RunsWithin(Handover(s, code, inline, data), run) && RunAfter(Handover(s, code, inline, data), run) == 0
  {
    var offer := [Offer(s, code, inline, data)];
    RunsOfSays(offer, run);
    if inline {
      RunsOfSays([OnAvdtp(OFFICIAL_ACK)], run + 1);
      RunsAppend(Says(Peer, offer), Says(Host, [OnAvdtp(OFFICIAL_ACK)]), run);
    } else {
      var t1, t2 := Says(Peer, offer), Says(Host, [OnAvdtp(RCV_RDY)]);
      var t3, t4 := Says(Peer, Parcelled(s, data)), Says(Host, [OnAvdtp(RCV_OK)]);
      ParcelCount(Chunk(data, s.size), 1);
      RunsOfSays([OnAvdtp(RCV_RDY)], run + 1);
      RunsOfSays(Parcelled(s, data), 0);
      RunsOfSays([OnAvdtp(RCV_OK)], |Parcelled(s, data)|);
      RunsFour(t1, t2, t3, t4, run);
      assert t1 + (t2 + t3 + t4) == t1 + t2 + t3 + t4;
    }
  }

  lemma RunsOfExchange(s: Setup)
    requires Sensible(s)
    ensures |HostChunks(s, s.appRand)| <= MAX_AUTH_PARCELS
    ensures |HostChunks(s, HostProof(s, s.devRand))| <= MAX_AUTH_PARCELS
    ensures RunsWithin(Exchange(s), 0)
  {
    ExchangeIsDefined(s);
    var t := Pieces(s);
    RunsOfSays([Packet(Upnp, CMD_LOGIN)], 0);
    RunsOfUpload(s, HOST_RANDOM, s.appRand, 0);
    RunsOfHandover(s, DEVICE_RANDOM, s.inlineRandom, s.devRand, 1);
    RunsOfHandover(s, DEVICE_PROOF, s.inlineProof, DeviceProof(s, s.devRand), 0);
    RunsOfUpload(s, HOST_PROOF, HostProof(s, s.devRand), 0);
    RunsOfSays([Packet(Upnp, CFM_LOGIN_OK)], 1);
    RunsFour(t[0], t[1], t[2], t[3], 0);
    RunsAppend(t[0] + t[1] + t[2] + t[3], t[4], 0);
    RunsAppend(t[0] + t[1] + t[2] + t[3] + t[4], t[5], 0);
  }

  lemma {:induction false} RunBound(t: seq<Item>, run: nat, a: nat, b: nat)
    requires RunsWithin(t, run) && a <= b <= |t| && forall k :: a <= k < b ==> t[k].sender == Peer
    ensures b - a <= QUEUE_SIZE
    ensures a == 0 < b ==> run + b <= QUEUE_SIZE
    decreases |t|
  {
    if a > 0 {
      RunBound(t[1..], if t[0].sender == Peer then run + 1 else 0, a - 1, b - 1);
    } else if b > 0 {
      assert t[0].sender == Peer;
      if b > 1 {
        RunBound(t[1..], run + 1, 0, b - 1);
      }
    }
  }

  // ------------------------------------------- where the two parties are

  function DataOn(t: seq<Item>, c: Channel): seq<bytes>
  {
    if t == [] then [] else (if t[0].packet.channel == c then [t[0].packet.data] else []) + DataOn(t[1..], c)
  }

  lemma {:induction false} DataOnLast(t: seq<Item>, item: Item, c: Channel)
    ensures DataOn(t + [item], c) == DataOn(t, c) + if item.packet.channel == c then [item.packet.data] else []
    decreases |t|
  {
    if t == [] {
      assert t + [item] == [item] && [item][1..] == [];
    } else {
      assert (t + [item])[1..] == t[1..] + [item];
      DataOnLast(t[1..], item, c);
    }
  }

  lemma {:induction false} DataOnLength(t: seq<Item>, c: Channel)
    ensures |DataOn(t, c)| <= |t|
  {
    if t != [] {
      DataOnLength(t[1..], c);
    }
  }

  // The inbox that holds just these items.
  function Delivered(t: seq<Item>): Inbox
  {
    Inbox(Queue(DataOn(t, Avdtp), 0), Queue(DataOn(t, Upnp), 0))
  }

  lemma PutDelivers(t: seq<Item>, item: Item, room: nat)
    requires room == 0 || |t| < room
    ensures var c := item.packet.channel;
            With(Delivered(t), c, Put(On(Delivered(t), c), item.packet.data, room)) == Delivered(t + [item])
  {
    var c := if item.packet.channel == Avdtp then Upnp else Avdtp;
    DataOnLast(t, item, Avdtp);
    DataOnLast(t, item, Upnp);
    DataOnLength(t, item.packet.channel);
    assert DataOn(t, c) + [] == DataOn(t, c);
  }

  // Between position `from`, where its reader is, and `to`, where the sender is, all items are the sender's,
  // and they are what the inbox holds.
  ghost predicate Holds(inbox: Inbox, t: seq<Item>, from: nat, to: nat, sender: Side)
    requires from <= |t| && to <= |t|
  {
    if from >= to then inbox == Nothing() else
    && (forall k :: from <= k < to ==> t[k].sender == sender)
    && inbox == Delivered(t[from..to])
  }

  function Start(s: Setup, side: Side): Party { if side == Host then StartHost(s) else StartPeer() }

  // A party is at position `a` of the exchange.
  ghost predicate StandsAt(s: Setup, t: seq<Item>, side: Side, p: Party, a: nat)
  {
    a <= |t| && Plays(s, side, Start(s, side), t[..a], p)
  }

  ghost predicate Stand(s: Setup, t: seq<Item>, side: Side, me: End, other: End, a: nat, b: nat)
  {
    && StandsAt(s, t, side, me.party, a) && StandsAt(s, t, Other(side), other.party, b)
    && Holds(me.inbox, t, a, b, Other(side)) && Holds(other.inbox, t, b, a, side)
  }

  // The party can play the whole exchange, and then waits for nothing.
  ghost predicate Finishes(s: Setup, t: seq<Item>, side: Side, end: Party)
  {
    Plays(s, side, Start(s, side), t, end) && end.out == [] && Wants(end.phase) == None
  }

  lemma RestIsPlayable(s: Setup, t: seq<Item>, side: Side, p: Party, a: nat, end: Party)
    requires StandsAt(s, t, side, p, a) && Finishes(s, t, side, end)
    ensures Plays(s, side, p, t[a..], end)
    ensures a == |t| ==> p == end
    ensures a < |t| ==>
              if t[a].sender == side
              then p.out != [] && p.out[0] == t[a].packet && StandsAt(s, t, side, p.(out := p.out[1..]), a + 1)
              else p.out == [] && Wants(p.phase) == Some(t[a].packet.channel)
                   && StandsAt(s, t, side, React(s, p.phase, t[a].packet.data), a + 1)
  {
    assert t == t[..a] + t[a..];
    PlayAppend(s, side, Start(s, side), t[..a], t[a..]);
    if a < |t| {
      assert t[..a + 1] == t[..a] + [t[a]];
      PlayAppend(s, side, Start(s, side), t[..a], [t[a]]);
      assert [t[a]][1..] == [];
    } else {
      assert t[a..] == [];
    }
  }

  // A party at `a` moves on exactly when the item there is its own or has been sent.
  predicate Enabled(t: seq<Item>, side: Side, a: nat, b: nat)
  {
    a < |t| && (t[a].sender == side || a < b)
  }

  lemma SendDelivers(inbox: Inbox, t: seq<Item>, side: Side, a: nat, b: nat)
    requires a < |t| && b <= a && t[a].sender == side && Holds(inbox, t, b, a, side)
    requires side == Peer ==> RunsWithin(t, 0)
    ensures var packet := t[a].packet;
            var queue := Put(On(inbox, packet.channel), packet.data, Room(Other(side)));
            Holds(With(inbox, packet.channel, queue), t, b, a + 1, side)
  {
    SliceNext(t, b, a);
    if side == Peer {
      SentRunIsShort(t, a, b);
    }
    if a == b {
      assert t[b..a] == [] && Delivered([]) == Nothing();
    }
    PutDelivers(t[b..a], t[a], Room(Other(side)));
  }

  lemma SentRunIsShort(t: seq<Item>, a: nat, b: nat)
    requires a < |t| && b <= a && RunsWithin(t, 0) && t[a].sender == Peer
    requires forall k :: b <= k < a ==> t[k].sender == Peer
    ensures |t[b..a]| < QUEUE_SIZE
  {
    RunBound(t, 0, b, a + 1);
  }

  lemma ReceiveTakesNext(inbox: Inbox, t: seq<Item>, side: Side, a: nat, b: nat)
    requires a < b <= |t| && Holds(inbox, t, a, b, Other(side))
    ensures var packet := t[a].packet;
            var q := On(inbox, packet.channel);
            && q.dropped == 0 && q.items != [] && q.items[0] == packet.data
            && Holds(With(inbox, packet.channel, q.(items := q.items[1..])), t, a + 1, b, Other(side))
  {
    var packet := t[a].packet;
    var before := t[a..b];
    assert before[0] == t[a] && before[1..] == t[a + 1..b];
    assert DataOn(before, packet.channel) == [packet.data] + DataOn(before[1..], packet.channel);
    var c := if packet.channel == Avdtp then Upnp else Avdtp;
    assert DataOn(before, c) == [] + DataOn(before[1..], c) == DataOn(before[1..], c);
    if a + 1 == b {
      assert before[1..] == [];
    }
  }

  lemma ActAdvances(s: Setup, t: seq<Item>, side: Side, me: End, other: End, a: nat, b: nat, end: Party)
    requires Stand(s, t, side, me, other, a, b) && Finishes(s, t, side, end) && RunsWithin(t, 0)
    ensures var (me', other') := Act(s, side, me, other);
            if Enabled(t, side, a, b) then me' != me && Stand(s, t, side, me', other', a + 1, b)
            else me' == me && other' == other
  {
    RestIsPlayable(s, t, side, me.party, a, end);
    if a < |t| {
      if t[a].sender == side {
        assert b <= a;
        SendDelivers(other.inbox, t, side, a, b);
        assert |Act(s, side, me, other).0.party.out| < |me.party.out|;
      } else if a < b {
        ReceiveTakesNext(me.inbox, t, side, a, b);
        var c := t[a].packet.channel;
        assert |On(Act(s, side, me, other).0.inbox, c).items| < |On(me.inbox, c).items|;
      }
    }
  }

  // While not both are at the end, one of them can move.
  lemma SomeoneIsEnabled(t: seq<Item>, a: nat, b: nat, hostInbox: Inbox, peerInbox: Inbox)
    requires a <= |t| && b <= |t| && (a < |t| || b < |t|)
    requires Holds(hostInbox, t, a, b, Peer) && Holds(peerInbox, t, b, a, Host)
    ensures Enabled(t, Host, a, b) || Enabled(t, Peer, b, a)
  {
    if a < b {
      assert t[a].sender == Peer;
    } else if b < a {
      assert t[b].sender == Host;
    }
  }

  // ------------------------------------------------------------- every schedule

  function HostEnd(s: Setup): Party { Party(AtHost(LoggedIn(SharedKeys(s, s.devRand))), []) }

  function PeerEnd(s: Setup): Party { Party(AtPeer(Confirmed(SharedKeys(s, s.devRand))), []) }

  // The host is at `a` and the device at `b` of an exchange that both can finish.
  ghost predicate Reached(s: Setup, t: seq<Item>, sys: System, a: nat, b: nat)
  {
    && Stand(s, t, Host, sys.host, sys.peer, a, b) && RunsWithin(t, 0)
    && Finishes(s, t, Host, HostEnd(s)) && Finishes(s, t, Peer, PeerEnd(s))
  }

  // A step moves one party on by one item, or does nothing because the party has to wait.
  lemma MoveAdvances(s: Setup, t: seq<Item>, sys: System, a: nat, b: nat, side: Side)
    requires Reached(s, t, sys, a, b)
    ensures var next := Move(s, sys, side);
            match side
            case Host => if Enabled(t, Host, a, b) then next != sys && Reached(s, t, next, a + 1, b) else next == sys
            case Peer => if Enabled(t, Peer, b, a) then next != sys && Reached(s, t, next, a, b + 1) else next == sys
  {
    match side
    case Host => ActAdvances(s, t, Host, sys.host, sys.peer, a, b, HostEnd(s));
    case Peer => ActAdvances(s, t, Peer, sys.peer, sys.host, b, a, PeerEnd(s));
  }

  lemma {:induction false} RunAdvances(s: Setup, t: seq<Item>, sys: System, a: nat, b: nat, schedule: seq<Side>)
    returns (a': nat, b': nat)
    requires Reached(s, t, sys, a, b)
    ensures Reached(s, t, RunSchedule(s, sys, schedule), a', b')
    ensures a' + b' == a + b + Effective(s, sys, schedule)
    decreases |schedule|
  {
    if schedule == [] {
      return a, b;
    }
    var side, next := schedule[0], Move(s, sys, schedule[0]);
    MoveAdvances(s, t, sys, a, b, side);
    if next == sys {
      a', b' := RunAdvances(s, t, next, a, b, schedule[1..]);
    } else if side == Host {
      a', b' := RunAdvances(s, t, next, a + 1, b, schedule[1..]);
    } else {
      a', b' := RunAdvances(s, t, next, a, b + 1, schedule[1..]);
    }
  }

  lemma DoneIff(s: Setup, t: seq<Item>, sys: System, a: nat, b: nat)
    requires Reached(s, t, sys, a, b)
    ensures Done(s, sys) <==> a == |t| && b == |t|
  {
    RestIsPlayable(s, t, Host, sys.host.party, a, HostEnd(s));
    RestIsPlayable(s, t, Peer, sys.peer.party, b, PeerEnd(s));
  }

  lemma InitialIsReached(s: Setup)
    requires Sensible(s)
    ensures |HostChunks(s, s.appRand)| <= MAX_AUTH_PARCELS
    ensures |HostChunks(s, HostProof(s, s.devRand))| <= MAX_AUTH_PARCELS
    ensures Reached(s, Exchange(s), Initial(s), 0, 0)
  {
    HostPlays(s);
    PeerPlays(s);
    RunsOfExchange(s);
    assert Exchange(s)[..0] == [];
  }

  // Whatever the schedule and whatever the device's variants and chunk size: no frame is dropped, some
  // party can always go on until the login is done, each effective step is one item of the exchange, and
  // after as many as there are items for both parties the login is done: both hold the same keys.
  lemma EveryScheduleLogsIn(s: Setup, schedule: seq<Side>)
    requires Sensible(s)
    ensures |HostChunks(s, s.appRand)| <= MAX_AUTH_PARCELS
    ensures |HostChunks(s, HostProof(s, s.devRand))| <= MAX_AUTH_PARCELS
    ensures var sys := RunSchedule(s, Initial(s), schedule);
            var steps := Effective(s, Initial(s), schedule);
            && steps <= 2 * |Exchange(s)|
            && (Done(s, sys) <==> steps == 2 * |Exchange(s)|)
            && (Done(s, sys) || Move(s, sys, Host) != sys || Move(s, sys, Peer) != sys)
            && sys.host.inbox.avdtp.dropped == 0 && sys.host.inbox.upnp.dropped == 0
  {
    InitialIsReached(s);
    var t := Exchange(s);
    var sys := RunSchedule(s, Initial(s), schedule);
    var a, b := RunAdvances(s, t, Initial(s), 0, 0, schedule);
    DoneIff(s, t, sys, a, b);
    MoveAdvances(s, t, sys, a, b, Host);
    MoveAdvances(s, t, sys, a, b, Peer);
    if a < |t| || b < |t| {
      SomeoneIsEnabled(t, a, b, sys.host.inbox, sys.peer.inbox);
    }
  }
}
