/** Whatever arrives, the host answers only a device that proved to know the token. */
module LoginSafety {
  import opened Bytes
  import opened Parcels
  import opened Channels
  import opened AuthParcels
  import opened LoginModel

  // The host against arbitrary frames: where it is, what it wrote, what it read.
  datatype Ran = Ran(phase: HostPhase, written: seq<Packet>, received: seq<bytes>)

  function Next(s: Setup, r: Ran, data: bytes): Ran
  {
    var (phase, out) := HostReact(s, r.phase, data);
    Ran(phase, r.written + out, r.received + [data])
  }

  function RunHost(s: Setup, r: Ran, frames: seq<bytes>): Ran
    decreases |frames|
  {
    if frames == [] then r else RunHost(s, Next(s, r, frames[0]), frames[1..])
  }

  function Begun(s: Setup): Ran
  {
    var p := StartHost(s);
    Ran(p.phase.host, p.out, [])
  }

  // The parts in some frames, later frames winning; frames too short to be parcels carry none.
  function PartsOf(frames: seq<bytes>): Parts
    decreases |frames|
  {
    if frames == [] then map[] else
    var last := frames[|frames| - 1];
    var before := PartsOf(frames[..|frames| - 1]);
    if |last| < 2 then before else before[U16(last, 0) := last[2..]]
  }

  // A message in one frame: two free bytes, 02, its code, and the payload.
  predicate HandsOver(data: bytes, code: byte, payload: bytes)
  {
    |data| >= 4 && data[2] == 0x02 && data[3] == code && data[4..] == payload
  }

  // An announcement: two free bytes, 00, its code, and a count of 1 to 64 parcels, low byte first.
  predicate AnnouncesParcels(data: bytes, code: byte, n: nat)
  {
    && |data| >= 6 && data[2] == 0x00 && data[3] == code
    && n == data[4] as nat + 256 * data[5] as nat && 1 <= n <= 64
  }

  lemma VariantIff(data: bytes, code: byte, payload: bytes, n: nat)
    ensures ReadVariant(data, code) == Inline(payload) <==> HandsOver(data, code, payload)
    ensures ReadVariant(data, code) == Announced(n) <==> AnnouncesParcels(data, code, n)
  {
  }

  // Frame `k` announced `n` parcels under `code`, and the frames behind it up to `j` are parcels of that
  // message, all with different indices.
  ghost predicate InParcels(received: seq<bytes>, code: byte, k: nat, n: nat, j: nat)
  {
    && k < j <= |received|
    && AnnouncesParcels(received[k], code, n)
    && |PartsOf(received[k + 1..j])| == j - k - 1
    && InRange(PartsOf(received[k + 1..j]), n)
  }

  ghost predicate ParcelPayload(received: seq<bytes>, code: byte, payload: bytes, k: nat, n: nat)
  {
    InParcels(received, code, k, n, k + 1 + n) && payload == Join(PartsOf(received[k + 1..k + 1 + n]), 1, n)
  }

  // A payload under `code` was received: in one inline frame, or in the `n` parcels, each index once, that
  // follow an announcement of `n` parcels under that code without a gap.
  ghost predicate Received(received: seq<bytes>, code: byte, payload: bytes)
  {
    || (exists data: bytes :: data in received && HandsOver(data, code, payload))
    || (exists k: nat, n: nat :: ParcelPayload(received, code, payload, k, n))
  }

  // The device sent a random, and the proof that belongs to it, to the host's random and to the token.
  ghost predicate Verified(s: Setup, received: seq<bytes>, devRand: bytes)
  {
    && |devRand| == RANDOM_SIZE && Received(received, DEVICE_RANDOM, devRand)
    && Received(received, DEVICE_PROOF, DeviceProof(s, devRand))
  }

  predicate AnnouncesProof(p: Packet)
  {
    p.channel == Avdtp && |p.data| >= 4 && p.data[..4] == [0x00, 0x00, 0x00, HOST_PROOF]
  }

  ghost predicate Answered(written: seq<Packet>)
  {
    exists p :: p in written && AnnouncesProof(p)
  }

  // The parts collected so far are those of the frames behind the last announcement.
  ghost predicate Collects(received: seq<bytes>, code: byte, n: nat, parts: Parts)
  {
    |parts| < n && |parts| < |received| &&
    var k := |received| - 1 - |parts|;
    InParcels(received, code, k, n, |received|) && parts == PartsOf(received[k + 1..])
  }

  ghost predicate PhaseSound(s: Setup, r: Ran)
  {
    match r.phase
    case RandomReady => !Answered(r.written)
    case RandomDone => !Answered(r.written)
    case WantRandom => !Answered(r.written)
    case RandomParts(n, parts) => !Answered(r.written) && Collects(r.received, DEVICE_RANDOM, n, parts)
    case WantProof(d) => !Answered(r.written) && |d| == RANDOM_SIZE && Received(r.received, DEVICE_RANDOM, d)
    case ProofParts(d, n, parts) =>
      && !Answered(r.written) && |d| == RANDOM_SIZE && Received(r.received, DEVICE_RANDOM, d)
      && Collects(r.received, DEVICE_PROOF, n, parts)
    case ProofReady(d) => Verified(s, r.received, d)
    case ProofDone(d) => Verified(s, r.received, d)
    case WantConfirmation(d) => Verified(s, r.received, d)
    case LoggedIn(keys) =>
      CFM_LOGIN_OK in r.received && exists d :: Verified(s, r.received, d) && keys == SharedKeys(s, d)
    case Stopped(_) => Answered(r.written) ==> exists d :: Verified(s, r.received, d)
  }

  lemma WindowStays(received: seq<bytes>, data: bytes, k: nat, j: nat)
    requires k < j <= |received|
    ensures (received + [data])[k] == received[k] && (received + [data])[k + 1..j] == received[k + 1..j]
  {
  }

  lemma ReceivedStays(received: seq<bytes>, data: bytes, code: byte, payload: bytes)
    requires Received(received, code, payload)
    ensures Received(received + [data], code, payload)
  {
    if d: bytes :| d in received && HandsOver(d, code, payload) {
      assert d in received + [data];
    } else {
      var k: nat, n: nat :| ParcelPayload(received, code, payload, k, n);
      WindowStays(received, data, k, k + 1 + n);
      assert ParcelPayload(received + [data], code, payload, k, n);
    }
  }

  lemma VerifiedStays(s: Setup, received: seq<bytes>, data: bytes, d: bytes)
    requires Verified(s, received, d)
    ensures Verified(s, received + [data], d)
  {
    ReceivedStays(received, data, DEVICE_RANDOM, d);
    ReceivedStays(received, data, DEVICE_PROOF, DeviceProof(s, d));
  }

  lemma AnnouncedCollects(received: seq<bytes>, data: bytes, code: byte, n: nat)
    requires ReadVariant(data, code) == Announced(n)
    ensures Collects(received + [data], code, n, map[])
  {
    var all := received + [data];
    assert all[|received|] == data && all[|received| + 1..] == [] && all[|received| + 1..|all|] == [];
  }

  lemma PartsOfNext(received: seq<bytes>, data: bytes, k: nat, n: nat, parts: Parts)
    requires k < |received| && parts == PartsOf(received[k + 1..]) && TakeParcel(parts, n, data).Ok?
    ensures PartsOf((received + [data])[k + 1..]) == TakeParcel(parts, n, data).value
    ensures |TakeParcel(parts, n, data).value| == |parts| + 1
  {
    var longer := (received + [data])[k + 1..];
    assert longer == received[k + 1..] + [data] && longer[..|longer| - 1] == received[k + 1..];
  }

  // One more parcel: either more are missing, or the payload is complete.
  lemma PartCollects(received: seq<bytes>, data: bytes, code: byte, n: nat, parts: Parts)
    requires Collects(received, code, n, parts) && TakeParcel(parts, n, data).Ok?
    ensures var more := TakeParcel(parts, n, data).value;
            if |more| < n then Collects(received + [data], code, n, more)
            else Received(received + [data], code, Join(more, 1, n))
  {
    var more, all, k := TakeParcel(parts, n, data).value, received + [data], |received| - 1 - |parts|;
    assert received[k + 1..|received|] == received[k + 1..] && all[k + 1..|all|] == all[k + 1..];
    PartsOfNext(received, data, k, n, parts);
    assert InParcels(all, code, k, n, |all|);
    if |more| >= n {
      assert ParcelPayload(all, code, Join(more, 1, n), k, n);
    }
  }

  lemma InlineIsReceived(received: seq<bytes>, data: bytes, code: byte)
    requires ReadVariant(data, code).Inline?
    ensures Received(received + [data], code, ReadVariant(data, code).payload)
  {
    assert data in received + [data];
    VariantIff(data, code, ReadVariant(data, code).payload, 0);
  }

  // What the host writes besides its proof announcement never looks like one.
  lemma {:induction false} ParcelsAreNoAnswer(chunks: seq<bytes>, from: nat)
    requires 1 <= from && from + |chunks| <= 0x10000
    ensures !Answered(ParcelPackets(chunks, from))
    decreases |chunks|
  {
    if chunks != [] {
      ParcelsAreNoAnswer(chunks[1..], from + 1);
      var packets := ParcelPackets(chunks, from);
      var first := packets[0];
      forall p | p in packets ensures !AnnouncesProof(p) {
        if p == first {
          assert first.data[..2] == Le16(from);
          assert |p.data| >= 4 ==> p.data[..4][0] == p.data[0] && p.data[..4][1] == p.data[1];
        } else {
          assert p in packets[1..];
        }
      }
    }
  }

  lemma RepliesAreNoAnswer()
    ensures !Answered([]) && !Answered([OnAvdtp(RCV_RDY)]) && !Answered([OnAvdtp(RCV_OK)])
    ensures !Answered([OnAvdtp(OFFICIAL_ACK)])
  {
    assert RCV_RDY[..4][2] != 0 && RCV_OK[..4][2] != 0 && OFFICIAL_ACK[..4][2] != 0;
  }

  lemma NoNewAnswer(a: seq<Packet>, b: seq<Packet>)
    requires !Answered(b)
    ensures Answered(a + b) == Answered(a)
  {
    if p :| p in a && AnnouncesProof(p) {
      assert p in a + b;
    }
  }

  lemma HandshakeStepSound(s: Setup, r: Ran, data: bytes)
    requires PhaseSound(s, r) && data !in AUTH_ERRORS
    requires r.phase.RandomReady? || r.phase.RandomDone? || r.phase.WantRandom? || r.phase.RandomParts?
    ensures PhaseSound(s, Next(s, r, data))
  {
    var (next, out) := HostReact(s, r.phase, data);
    RepliesAreNoAnswer();
    if r.phase.RandomReady? && out != [] {
      ParcelsAreNoAnswer(HostChunks(s, s.appRand), 1);
    }
    NoNewAnswer(r.written, out);
    if r.phase.WantRandom? {
      match ReadVariant(data, DEVICE_RANDOM)
      case Bad(_) =>
      case Inline(_) => InlineIsReceived(r.received, data, DEVICE_RANDOM);
      case Announced(n) => AnnouncedCollects(r.received, data, DEVICE_RANDOM, n);
    } else if r.phase.RandomParts? && TakeParcel(r.phase.parts, r.phase.expected, data).Ok? {
      PartCollects(r.received, data, DEVICE_RANDOM, r.phase.expected, r.phase.parts);
    }
  }

  lemma ProofStepSound(s: Setup, r: Ran, data: bytes)
    requires PhaseSound(s, r) && data !in AUTH_ERRORS && (r.phase.WantProof? || r.phase.ProofParts?)
    ensures PhaseSound(s, Next(s, r, data))
  {
    var (next, out) := HostReact(s, r.phase, data);
    var d := r.phase.devRand;
    RepliesAreNoAnswer();
    ReceivedStays(r.received, data, DEVICE_RANDOM, d);
    if r.phase.WantProof? {
      if ReadVariant(data, DEVICE_PROOF).Inline? {
        InlineIsReceived(r.received, data, DEVICE_PROOF);
        NoNewAnswer(r.written, [OnAvdtp(OFFICIAL_ACK)]);
        assert next.Stopped? ==> out == [OnAvdtp(OFFICIAL_ACK)] + [] == [OnAvdtp(OFFICIAL_ACK)];
      } else {
        if ReadVariant(data, DEVICE_PROOF).Announced? {
          AnnouncedCollects(r.received, data, DEVICE_PROOF, ReadVariant(data, DEVICE_PROOF).count);
        }
        NoNewAnswer(r.written, out);
      }
    } else {
      var n, parts := r.phase.expected, r.phase.parts;
      if TakeParcel(parts, n, data).Ok? {
        PartCollects(r.received, data, DEVICE_PROOF, n, parts);
        var more := TakeParcel(parts, n, data).value;
        if |more| >= n {
          assert next.Stopped? ==> out == [OnAvdtp(RCV_OK)] + [] == [OnAvdtp(RCV_OK)];
        }
      }
      if next.Stopped? || next.ProofParts? {
        NoNewAnswer(r.written, out);
      }
    }
  }

  lemma AnswerStepSound(s: Setup, r: Ran, data: bytes)
    requires PhaseSound(s, r) && (HostWants(r.phase).Some? ==> data !in AUTH_ERRORS)
    requires || r.phase.ProofReady? || r.phase.ProofDone? || r.phase.WantConfirmation?
             || r.phase.LoggedIn? || r.phase.Stopped?
    ensures PhaseSound(s, Next(s, r, data))
  {
    if r.phase.LoggedIn? {
      var d :| Verified(s, r.received, d) && r.phase.keys == SharedKeys(s, d);
      VerifiedStays(s, r.received, data, d);
    } else if r.phase.Stopped? {
      NoNewAnswer(r.written, []);
      if Answered(r.written) {
        var d :| Verified(s, r.received, d);
        VerifiedStays(s, r.received, data, d);
      }
    } else {
      VerifiedStays(s, r.received, data, r.phase.devRand);
    }
  }

  lemma ErrorStepSound(s: Setup, r: Ran, data: bytes)
    requires PhaseSound(s, r) && data in AUTH_ERRORS && HostWants(r.phase).Some?
    ensures PhaseSound(s, Next(s, r, data))
  {
    NoNewAnswer(r.written, []);
    if Answered(r.written) {
      var d :| Verified(s, r.received, d);
      VerifiedStays(s, r.received, data, d);
    }
  }

  lemma {:induction false} RunSound(s: Setup, r: Ran, frames: seq<bytes>)
    requires PhaseSound(s, r)
    ensures PhaseSound(s, RunHost(s, r, frames))
    decreases |frames|
  {
    if frames != [] {
      var data := frames[0];
      if data in AUTH_ERRORS && HostWants(r.phase).Some? {
        ErrorStepSound(s, r, data);
      } else if r.phase.WantProof? || r.phase.ProofParts? {
        ProofStepSound(s, r, data);
      } else if r.phase.RandomReady? || r.phase.RandomDone? || r.phase.WantRandom? || r.phase.RandomParts? {
        HandshakeStepSound(s, r, data);
      } else {
        AnswerStepSound(s, r, data);
      }
      RunSound(s, Next(s, r, data), frames[1..]);
    }
  }

  lemma BegunIsSound(s: Setup)
    ensures PhaseSound(s, Begun(s))
  {
    forall p | p in Begun(s).written ensures !AnnouncesProof(p) {
      if |p.data| >= 4 {
        assert p.data[..4][3] == p.data[3];
      }
    }
  }

  // Over every run on arbitrary frames: the host announces its own proof, or ends logged in, only if the
  // device sent a random and exactly the proof that the token gives for it; the keys are then the ones
  // derived from that random. A device whose proof disagrees gets nothing.
  lemma AnswersOnlyVerifiedDevice(s: Setup, frames: seq<bytes>)
    ensures var r := RunHost(s, Begun(s), frames);
            && (Answered(r.written) ==> exists d :: Verified(s, r.received, d))
            && (r.phase.LoggedIn? ==>
                  && CFM_LOGIN_OK in r.received
                  && exists d :: Verified(s, r.received, d) && r.phase.keys == SharedKeys(s, d))
  {
    BegunIsSound(s);
    RunSound(s, Begun(s), frames);
  }

  // The payload under the proof's code that the next frame completes, inline or as the last parcel.
  function CompletedProof(p: HostPhase, data: bytes): Option<bytes>
  {
    if p.WantProof? && ReadVariant(data, DEVICE_PROOF).Inline? then Some(ReadVariant(data, DEVICE_PROOF).payload)
    else if p.ProofParts? && TakeParcel(p.parts, p.expected, data).Ok?
            && |TakeParcel(p.parts, p.expected, data).value| >= p.expected
    then Some(Join(TakeParcel(p.parts, p.expected, data).value, 1, p.expected))
    else None
  }

  lemma {:induction false} StoppedStays(s: Setup, r: Ran, frames: seq<bytes>)
    requires r.phase.Stopped?
    ensures RunHost(s, r, frames).phase == r.phase && RunHost(s, r, frames).written == r.written
    decreases |frames|
  {
    if frames != [] {
      assert r.written + [] == r.written;
      StoppedStays(s, Next(s, r, frames[0]), frames[1..]);
    }
  }

  // A device whose proof disagrees, however it hands it over: the host acknowledges the message, stops, and
  // writes nothing more, whatever arrives afterwards.
  lemma WrongProofStops(s: Setup, r: Ran, data: bytes, more: seq<bytes>)
    requires r.phase.WantProof? || r.phase.ProofParts?
    requires data !in AUTH_ERRORS && CompletedProof(r.phase, data).Some?
    requires CompletedProof(r.phase, data).value != DeviceProof(s, r.phase.devRand)
    ensures var t := RunHost(s, Next(s, r, data), more);
            && t.phase == Stopped(InvalidToken)
            && t.written == r.written + [OnAvdtp(if r.phase.WantProof? then OFFICIAL_ACK else RCV_OK)]
  {
    var reply := OnAvdtp(if r.phase.WantProof? then OFFICIAL_ACK else RCV_OK);
    assert [reply] + [] == [reply];
    assert HostReact(s, r.phase, data) == (Stopped(InvalidToken), [reply]);
    StoppedStays(s, Next(s, r, data), more);
  }

  // An error frame of the device ends the login at once, wherever it stands, and nothing more is written.
  lemma DeviceErrorStops(s: Setup, r: Ran, kind: byte, more: seq<bytes>)
    requires HostWants(r.phase).Some? && 0xe0 <= kind <= 0xe3
    ensures var t := RunHost(s, Next(s, r, [kind, 0, 0, 0]), more);
            t.phase == Stopped(OnChannel(DeviceError([kind, 0, 0, 0]))) && t.written == r.written
  {
    assert r.written + [] == r.written;
    assert [kind, 0, 0, 0] in AUTH_ERRORS;
    StoppedStays(s, Next(s, r, [kind, 0, 0, 0]), more);
  }

  // Where a message of the device is due, a frame that neither hands it over nor announces it in parcels ends
  // the login, and nothing more is written; so does a random that does not have 16 bytes.
  lemma WrongMessageStops(s: Setup, r: Ran, data: bytes, more: seq<bytes>)
    requires r.phase.WantRandom? || r.phase.WantProof?
    requires var code := if r.phase.WantRandom? then 0x0d else 0x0c;
             !HandsOver(data, code, if |data| >= 4 then data[4..] else [])
             && forall n: nat :: !AnnouncesParcels(data, code, n)
    ensures var t := RunHost(s, Next(s, r, data), more);
            t.phase.Stopped? && t.written == r.written
  {
    var code: byte := if r.phase.WantRandom? then 0x0d else 0x0c;
    if |data| >= 6 {
      assert !AnnouncesParcels(data, code, data[4] as nat + 256 * data[5] as nat);
    }
    assert r.written + [] == r.written;
    assert ReadVariant(data, code).Bad?;
    StoppedStays(s, Next(s, r, data), more);
  }

  lemma WrongRandomStops(s: Setup, r: Ran, data: bytes, payload: bytes, more: seq<bytes>)
    requires r.phase.WantRandom? && HandsOver(data, 0x0d, payload) && data !in AUTH_ERRORS
    ensures if |payload| == 16 then Next(s, r, data).phase == WantProof(payload)
            else RunHost(s, Next(s, r, data), more).phase == Stopped(WrongRandomLength)
  {
    VariantIff(data, 0x0d, payload, 0);
    if |payload| != 16 {
      StoppedStays(s, Next(s, r, data), more);
    }
  }

  // A token that does not have 12 bytes: nothing is ever written.
  lemma BadTokenWritesNothing(s: Setup, frames: seq<bytes>)
    requires |s.token| != 12
    ensures var r := RunHost(s, Begun(s), frames); r.phase == Stopped(BadToken) && r.written == []
  {
    StoppedStays(s, Begun(s), frames);
  }

  // The confirmation decides: 21 returns the keys of the verified random, 23 refuses the token, anything else that
  // is no error frame is not understood; nothing more is written in any case.
  lemma ConfirmationDecides(s: Setup, r: Ran, data: bytes)
    requires r.phase.WantConfirmation? && data !in AUTH_ERRORS
    ensures var t := Next(s, r, data);
            && t.written == r.written
            && t.phase == if data == [0x21, 0x00, 0x00, 0x00] then LoggedIn(SharedKeys(s, r.phase.devRand))
                          else if data == [0x23, 0x00, 0x00, 0x00] then Stopped(InvalidToken)
                          else Stopped(UnexpectedConfirmation)
  {
    assert r.written + [] == r.written;
  }
}
