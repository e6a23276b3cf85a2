/** `login` and its helpers as they run, one await after the other, tied to the host's machine. */
module LoginObject {
  import opened Bytes
  import opened Parcels
  import opened Channels
  import opened AuthParcels
  import opened LoginModel
  import opened LoginExchange

  // What the two channels will yield, how many more writes succeed, and what was written.
  datatype Env = Env(avdtp: seq<Incoming>, upnp: seq<Incoming>, writable: nat, written: seq<Packet>)

  function InboxOf(env: Env, c: Channel): seq<Incoming> { if c == Avdtp then env.avdtp else env.upnp }

  function WithInbox(env: Env, c: Channel, rest: seq<Incoming>): Env
  {
    if c == Avdtp then env.(avdtp := rest) else env.(upnp := rest)
  }

  function Wrote(env: Env, p: Packet): Env
    requires env.writable > 0
  {
    env.(writable := env.writable - 1, written := env.written + [p])
  }

  // The host's machine against an environment, to its end.
  function Drive(s: Setup, p: HostPhase, out: seq<Packet>, env: Env): (HostPhase, Env)
    decreases |env.avdtp| + |env.upnp|, |out|
  {
    if out != [] then
      if env.writable == 0 then (Stopped(OnChannel(WriteError)), env) else Drive(s, p, out[1..], Wrote(env, out[0]))
    else match HostWants(p)
      case None => (p, env)
      case Some(c) =>
        match Receive(InboxOf(env, c), AUTH_ERRORS)
        case (Err(e), rest) => (Stopped(OnChannel(e)), WithInbox(env, c, rest))
        case (Ok(data), rest) =>
          var (next, more) := HostTakes(s, p, data);
          Drive(s, next, more, WithInbox(env, c, rest))
  }

  // A control frame that is waited for moves the machine; anything before it does not.
  ghost predicate WaitsFor(s: Setup, p: HostPhase, expected: bytes)
  {
    HostWants(p) == Some(Avdtp) && forall data :: data != expected ==> HostTakes(s, p, data) == (p, [])
  }

  lemma {:induction false} DriveAwait(s: Setup, p: HostPhase, expected: bytes, env: Env)
    requires WaitsFor(s, p, expected)
    ensures var (r, rest) := Await(env.avdtp, expected, AUTH_ERRORS);
            Drive(s, p, [], env) ==
              if r.Err? then (Stopped(OnChannel(r.error)), env.(avdtp := rest))
              else Drive(s, HostTakes(s, p, expected).0, HostTakes(s, p, expected).1, env.(avdtp := rest))
    decreases |env.avdtp|
  {
    var (one, rest) := Receive(env.avdtp, AUTH_ERRORS);
    if one.Ok? && one.value != expected {
      DriveAwait(s, p, expected, env.(avdtp := rest));
    }
  }

  lemma {:induction false} DriveCollect(s: Setup, c: Collector, n: nat, parts: Parts, env: Env)
    requires SideOf(c) == Host && |parts| < n
    ensures var (r, rest) := CollectParcels(env.avdtp, parts, n);
            Drive(s, Collecting(c, n, parts).host, [], env) ==
              if r.Err? then (Stopped(r.error), env.(avdtp := rest))
              else Drive(s, Complete(s, c, r.value).phase.host, Complete(s, c, r.value).out, env.(avdtp := rest))
    decreases |env.avdtp|
  {
    var (one, rest) := Receive(env.avdtp, AUTH_ERRORS);
    if one.Ok? && TakeParcel(parts, n, one.value).Ok? {
      var more := TakeParcel(parts, n, one.value).value;
      CollectorReacts(s, c, n, parts, one.value);
      if |more| < n {
        DriveCollect(s, c, n, more, env.(avdtp := rest));
      }
    }
  }

  lemma DriveWrite(s: Setup, p: HostPhase, first: Packet, more: seq<Packet>, env: Env)
    ensures Drive(s, p, [first] + more, env) ==
      if env.writable == 0 then (Stopped(OnChannel(WriteError)), env) else Drive(s, p, more, Wrote(env, first))
  {
    assert ([first] + more)[1..] == more;
  }

  lemma DriveStopped(s: Setup, e: AuthError, env: Env)
    ensures Drive(s, Stopped(e), [], env) == (Stopped(e), env)
  {
  }

  // How a call ends: the machine goes on from `p`, or it has stopped.
  ghost predicate Ends<T>(s: Setup, was: (HostPhase, Env), r: Result<T, AuthError>, p: HostPhase, out: seq<Packet>,
      now: Env)
  {
    was == if r.Ok? then Drive(s, p, out, now) else (Stopped(r.error), now)
  }

  // The channel read up to `rest`, and none, one or both replies to a message in parcels written.
  function AfterReplies(env: Env, rest: seq<Incoming>, replies: nat): Env
    requires replies <= 2 && replies <= env.writable
  {
    var read := env.(avdtp := rest);
    if replies == 0 then read
    else if replies == 1 then Wrote(read, OnAvdtp(RCV_RDY))
    else Wrote(Wrote(read, OnAvdtp(RCV_RDY)), OnAvdtp(RCV_OK))
  }

  class MiAuthClient {
    var avdtp: seq<Incoming>
    var upnp: seq<Incoming>
    var writable: nat
    var written: seq<Packet>

    function Now(): Env
      reads this
    {
      Env(avdtp, upnp, writable, written)
    }

    method Write(p: Packet) returns (ok: bool)
      modifies this`writable, this`written
      ensures ok == (old(writable) > 0)
      ensures Now() == if ok then Wrote(old(Now()), p) else old(Now())
    {
      if writable == 0 {
        return false;
      }
      writable := writable - 1;
      written := written + [p];
      return true;
    }

    method Recv(c: Channel) returns (r: Result<bytes, ChannelError>)
      modifies this`avdtp, this`upnp
      ensures var (one, rest) := Receive(InboxOf(old(Now()), c), AUTH_ERRORS);
              r == one && Now() == WithInbox(old(Now()), c, rest)
    {
      if c == Avdtp {
        var (one, rest) := Receive(avdtp, AUTH_ERRORS);
        avdtp := rest;
        return one;
      } else {
        var (one, rest) := Receive(upnp, AUTH_ERRORS);
        upnp := rest;
        return one;
      }
    }

    // Writes the parcels one by one.
    method WriteParcels(s: Setup, chunks: seq<bytes>, ghost p: HostPhase) returns (r: Result<(), AuthError>)
      requires |chunks| <= MAX_AUTH_PARCELS
      modifies this`writable, this`written
      ensures Ends(s, Drive(s, p, ParcelPackets(chunks, 1), old(Now())), r, p, [], Now())
    {
      for i: nat := 0 to |chunks|
        invariant unchanged(this`avdtp) && unchanged(this`upnp)
        invariant Drive(s, p, ParcelPackets(chunks, 1), old(Now()))
          == Drive(s, p, ParcelPackets(chunks[i..], i + 1), Now())
      {
        var packet := OnAvdtp(ParcelFrame(i + 1, chunks[i]));
        assert chunks[i..][1..] == chunks[i + 1..];
        DriveWrite(s, p, packet, ParcelPackets(chunks[i + 1..], i + 2), Now());
        var ok := Write(packet);
        if !ok {
          return Err(OnChannel(WriteError));
        }
      }
      return Ok(());
    }

    // Waits for a control frame on AVDTP.
    method AwaitControl(s: Setup, expected: bytes, ghost p: HostPhase) returns (r: Result<(), AuthError>)
      requires WaitsFor(s, p, expected)
      modifies this`avdtp
      ensures Ends(s, Drive(s, p, [], old(Now())), r, HostTakes(s, p, expected).0, HostTakes(s, p, expected).1, Now())
    {
      DriveAwait(s, p, expected, Now());
      var one, rest := RecvUntil(avdtp, expected, AUTH_ERRORS);
      avdtp := rest;
      return match one case Ok(_) => Ok(()) case Err(e) => Err(OnChannel(e));
    }

    // `_send_parcel`, for a machine that is in `ready` with the announcement to write.
    method SendParcel(s: Setup, code: byte, data: bytes, ghost ready: HostPhase, ghost done: HostPhase,
        ghost next: HostPhase)
      returns (r: Result<(), AuthError>)
      requires |HostChunks(s, data)| <= MAX_AUTH_PARCELS ==>
                 && WaitsFor(s, ready, RCV_RDY)
                 && HostTakes(s, ready, RCV_RDY) == (done, ParcelPackets(HostChunks(s, data), 1))
                 && WaitsFor(s, done, RCV_OK) && HostTakes(s, done, RCV_OK) == (next, [])
      modifies this
      ensures if |HostChunks(s, data)| > MAX_AUTH_PARCELS then r == Err(TooManyParcels) && Now() == old(Now()) else
              Ends(s, Drive(s, ready, [OnAvdtp(Announcement(code, |HostChunks(s, data)|))], old(Now())), r, next, [],
                  Now())
    {
      var frames := HostChunks(s, data);
      if |frames| > MAX_AUTH_PARCELS {
        return Err(TooManyParcels);
      }
      var announcement := OnAvdtp(Announcement(code, |frames|));
      DriveWrite(s, ready, announcement, [], Now());
      assert [announcement] + [] == [announcement];
      var ok := Write(announcement);
      if !ok {
        return Err(OnChannel(WriteError));
      }
      r := AwaitControl(s, RCV_RDY, ready);
      if r.Err? {
        return;
      }
      r := WriteParcels(s, frames, done);
      if r.Err? {
        return;
      }
      r := AwaitControl(s, RCV_OK, done);
    }

    // `_recv_parcel`.
    method RecvParcels(announcement: bytes) returns (r: Result<bytes, AuthError>)
      modifies this
      ensures var (one, rest, replies) := RecvParcel(announcement, old(avdtp), old(writable));
              && r == one && |replies| <= 2 && |replies| <= old(writable)
              && Now() == AfterReplies(old(Now()), rest, |replies|)
    {
      var rest, replies;
      r, rest, replies := ReceiveParcel(announcement, avdtp, writable);
      avdtp := rest;
      writable := writable - |replies|;
      if |replies| > 0 {
        written := written + [OnAvdtp(RCV_RDY)];
      }
      if |replies| > 1 {
        written := written + [OnAvdtp(RCV_OK)];
      }
    }

    // `_recv_variant`.
    method RecvVariant(s: Setup, ghost c: Collector, code: byte) returns (r: Result<bytes, AuthError>)
      requires SideOf(c) == Host && code == CodeOf(c)
      modifies this
      ensures Ends(s, Drive(s, Waiting(c), [], old(Now())), r,
                   if r.Ok? then Replied(s, c, r.value).phase.host else WantRandom,
                   if r.Ok? then Replied(s, c, r.value).out else [], Now())
    {
      var one := Recv(Avdtp);
      if one.Err? {
        return Err(OnChannel(one.error));
      }
      var announcement := one.value;
      ghost var env := Now();
      ReadsVariant(s, c, announcement, env);
      if |announcement| < 4 {
        return Err(ShortAnnouncement);
      }
      if announcement[3] != code {
        return Err(WrongCode);
      }
      if announcement[2] == 2 {
        var payload := announcement[4..];
        var ok := Write(OnAvdtp(OFFICIAL_ACK));
        if !ok {
          return Err(OnChannel(WriteError));
        }
        return Ok(payload);
      }
      if announcement[2] == 0 {
        r := RecvParcels(announcement);
        ReadsParcels(s, c, announcement, env);
        return;
      }
      return Err(UnknownVariant);
    }

    // `login`. The token, the host's random, the MTU and the cryptography are given by `s`.
    method Login(s: Setup) returns (r: Result<Keys, AuthError>)
      modifies this
      ensures (if r.Ok? then LoggedIn(r.value) else Stopped(r.error), Now())
           == Drive(s, StartHost(s).phase.host, StartHost(s).out, old(Now()))
    {
      ghost var start := StartHost(s);
      if |s.token| != 12 {
        DriveStopped(s, BadToken, Now());
        return Err(BadToken);
      }
      DriveWrite(s, start.phase.host, Packet(Upnp, CMD_LOGIN), start.out[1..], Now());
      assert start.out == [Packet(Upnp, CMD_LOGIN)] + start.out[1..];
      var ok := Write(Packet(Upnp, CMD_LOGIN));
      if !ok {
        return Err(OnChannel(WriteError));
      }
      DriveStopped(s, TooManyParcels, Now());
      var sent := SendParcel(s, HOST_RANDOM, s.appRand, RandomReady, RandomDone, WantRandom);
      if sent.Err? {
        return Err(sent.error);
      }
      var random := RecvVariant(s, HostRandom, DEVICE_RANDOM);
      if random.Err? {
        return Err(random.error);
      }
      var devRand := random.value;
      assert Replied(s, HostRandom, devRand).out == [];
      if |devRand| != RANDOM_SIZE {
        DriveStopped(s, WrongRandomLength, Now());
        return Err(WrongRandomLength);
      }
      r := ProveBoth(s, devRand);
    }

    // `login`, from the device's proof on.
    method ProveBoth(s: Setup, devRand: bytes) returns (r: Result<Keys, AuthError>)
      modifies this
      ensures (if r.Ok? then LoggedIn(r.value) else Stopped(r.error), Now())
        == Drive(s, WantProof(devRand), [], old(Now()))
    {
      var info := RecvVariant(s, HostOfProof(devRand), DEVICE_PROOF);
      if info.Err? {
        return Err(info.error);
      }
      ghost var end := AfterProof(s, devRand, info.value);
      assert Replied(s, HostOfProof(devRand), info.value).out == end.1 by {
        assert ([OnAvdtp(RCV_OK)] + end.1)[1..] == end.1;
      }
      var keys := SharedKeys(s, devRand);
      if info.value != s.hmac(keys.devKey, devRand + s.appRand) {
        DriveStopped(s, InvalidToken, Now());
        return Err(InvalidToken);
      }
      var proof := s.hmac(keys.appKey, s.appRand + devRand);
      DriveStopped(s, TooManyParcels, Now());
      var sent := SendParcel(s, HOST_PROOF, proof, ProofReady(devRand), ProofDone(devRand), WantConfirmation(devRand));
      if sent.Err? {
        return Err(sent.error);
      }
      r := AwaitConfirmation(s, devRand);
    }

    method AwaitConfirmation(s: Setup, devRand: bytes) returns (r: Result<Keys, AuthError>)
      modifies this
      ensures (if r.Ok? then LoggedIn(r.value) else Stopped(r.error), Now())
        == Drive(s, WantConfirmation(devRand), [], old(Now()))
    {
      DriveConfirmation(s, devRand, Now());
      var one := Recv(Upnp);
      if one.Err? {
        return Err(OnChannel(one.error));
      }
      var confirmation := one.value;
      if confirmation == CFM_LOGIN_OK {
        return Ok(SharedKeys(s, devRand));
      }
      if confirmation == CFM_LOGIN_ERR {
        return Err(InvalidToken);
      }
      return Err(UnexpectedConfirmation);
    }
  }

  lemma DriveConfirmation(s: Setup, d: bytes, env: Env)
    ensures var one, rest := Receive(env.upnp, AUTH_ERRORS).0, Receive(env.upnp, AUTH_ERRORS).1;
            Drive(s, WantConfirmation(d), [], env) ==
              (if one.Err? then Stopped(OnChannel(one.error))
               else if one.value == CFM_LOGIN_OK then LoggedIn(SharedKeys(s, d))
               else if one.value == CFM_LOGIN_ERR then Stopped(InvalidToken)
               else Stopped(UnexpectedConfirmation),
               env.(upnp := rest))
  {
    var one, rest := Receive(env.upnp, AUTH_ERRORS).0, Receive(env.upnp, AUTH_ERRORS).1;
    DriveStopped(s, InvalidToken, env.(upnp := rest));
    DriveStopped(s, UnexpectedConfirmation, env.(upnp := rest));
    assert Drive(s, LoggedIn(SharedKeys(s, d)), [], env.(upnp := rest))
        == (LoggedIn(SharedKeys(s, d)), env.(upnp := rest));
  }

  // The machine on an announcement, as far as the first write.
  lemma ReadsVariant(s: Setup, c: Collector, data: bytes, env: Env)
    requires SideOf(c) == Host
    ensures var next, out := HostTakes(s, Waiting(c), data).0, HostTakes(s, Waiting(c), data).1;
            var v := ReadVariant(data, CodeOf(c));
            && (v.Bad? ==> Drive(s, next, out, env) == (Stopped(v.error), env))
            && (v.Inline? ==>
                  Drive(s, next, out, env) ==
                    if env.writable == 0 then (Stopped(OnChannel(WriteError)), env)
                    else Drive(s, Replied(s, c, v.payload).phase.host, Replied(s, c, v.payload).out,
                               Wrote(env, OnAvdtp(OFFICIAL_ACK))))
            && (v.Announced? ==> next == Collecting(c, v.count, map[]).host && out == [OnAvdtp(RCV_RDY)])
  {
    var next, out := HostTakes(s, Waiting(c), data).0, HostTakes(s, Waiting(c), data).1;
    var v := ReadVariant(data, CodeOf(c));
    if v.Bad? {
      DriveStopped(s, v.error, env);
    } else if v.Inline? {
      var after := Replied(s, c, v.payload).out;
      assert [OnAvdtp(RCV_OK)][1..] == [];
      assert c.HostOfProof?
          ==> ([OnAvdtp(RCV_OK)] + AfterProof(s, c.devRand, v.payload).1)[1..] == AfterProof(s, c.devRand, v.payload).1;
      assert out == [OnAvdtp(OFFICIAL_ACK)] + after;
      DriveWrite(s, next, OnAvdtp(OFFICIAL_ACK), after, env);
    }
  }

  // The machine from the reply to an announcement to the reply behind the last parcel.
  lemma DriveParcels(s: Setup, c: Collector, n: nat, env: Env)
    requires SideOf(c) == Host && n > 0 && env.writable > 0
    ensures var collected, rest := CollectParcels(env.avdtp, map[], n).0, CollectParcels(env.avdtp, map[], n).1;
            var was := Drive(s, Collecting(c, n, map[]).host, [OnAvdtp(RCV_RDY)], env);
            && (collected.Err? ==> was == (Stopped(collected.error), AfterReplies(env, rest, 1)))
            && (collected.Ok? && env.writable == 1
                ==> was == (Stopped(OnChannel(WriteError)), AfterReplies(env, rest, 1)))
            && (collected.Ok? && env.writable > 1 ==>
                  was == Drive(s, Replied(s, c, collected.value).phase.host, Replied(s, c, collected.value).out,
                               AfterReplies(env, rest, 2)))
  {
    assert [OnAvdtp(RCV_RDY)] + [] == [OnAvdtp(RCV_RDY)];
    DriveWrite(s, Collecting(c, n, map[]).host, OnAvdtp(RCV_RDY), [], env);
    var ready := Wrote(env, OnAvdtp(RCV_RDY));
    DriveCollect(s, c, n, map[], ready);
    var collected, rest := CollectParcels(env.avdtp, map[], n).0, CollectParcels(env.avdtp, map[], n).1;
    if collected.Ok? {
      var end := Complete(s, c, collected.value);
      assert end.out == [OnAvdtp(RCV_OK)] + end.out[1..];
      DriveWrite(s, end.phase.host, OnAvdtp(RCV_OK), end.out[1..], AfterReplies(env, rest, 1));
    }
  }

  lemma ReadsParcels(s: Setup, c: Collector, data: bytes, env: Env)
    requires SideOf(c) == Host && |data| >= 4 && data[3] == CodeOf(c) && data[2] == 0
    ensures var one, rest, replies :=
              RecvParcel(data, env.avdtp, env.writable).0, RecvParcel(data, env.avdtp, env.writable).1,
              |RecvParcel(data, env.avdtp, env.writable).2|;
            && replies <= env.writable && replies <= 2
            && Ends(s, Drive(s, HostTakes(s, Waiting(c), data).0, HostTakes(s, Waiting(c), data).1, env), one,
                    if one.Ok? then Replied(s, c, one.value).phase.host else WantRandom,
                    if one.Ok? then Replied(s, c, one.value).out else [], AfterReplies(env, rest, replies))
  {
    ReadsVariant(s, c, data, env);
    var v := ReadVariant(data, CodeOf(c));
    if v.Announced? {
      if env.writable == 0 {
        assert Drive(s, Collecting(c, v.count, map[]).host, [OnAvdtp(RCV_RDY)], env)
            == (Stopped(OnChannel(WriteError)), env);
      } else {
        DriveParcels(s, c, v.count, env);
      }
    }
  }
}
