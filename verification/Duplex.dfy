/**
 * Two directions on one connection. Each direction sends its PDUs one after the other, but the decoder
 * keeps one buffer per handle for both: when that is enough, and what happens when it is not.
 */
module Duplex {
  import opened Bytes
  import opened L2cap

  // One direction of one connection.
  type Lane = (nat, Direction)

  type Lanes = map<Lane, Sending>

  function LaneOf(f: Fragment): Lane
    requires !f.Other?
  {
    (f.handle, f.direction)
  }

  // What the sender of this fragment knows of its handle. A record is idle only if it continues nothing in
  // either direction.
  function Own(f: Fragment, open: Lanes): Sendings
  {
    if f.Next? && LaneOf(f) in open then map[f.handle := open[LaneOf(f)]]
    else if f.Idle? && (f.handle, Tx) in open then map[f.handle := open[(f.handle, Tx)]]
    else if f.Idle? && (f.handle, Rx) in open then map[f.handle := open[(f.handle, Rx)]]
    else map[]
  }

  // A direction finishes a fragmented PDU before it starts another one.
  ghost predicate FitsLane(f: Fragment, open: Lanes, handles: set<nat>)
  {
    Fits(f, Own(f, open), handles) && (f.First? && f.upTo < |f.pdu.Payload()| ==> LaneOf(f) !in open)
  }

  function Advance(f: Fragment, open: Lanes, handles: set<nat>): Lanes
    requires FitsLane(f, open, handles)
  {
    match f
    case First(_, _, _, _, pdu, upTo, _) =>
      if upTo == |pdu.Payload()| then open else open[LaneOf(f) := Sending(pdu, upTo)]
    case Next(_, _, _, _, upTo, _) =>
      var s := open[LaneOf(f)];
      if upTo == |s.pdu.Payload()| then open - {LaneOf(f)} else open[LaneOf(f) := s.(sent := upTo)]
    case Idle(_, _, _, _, _) => open
    case Other(_) => open
  }

  ghost predicate LegalTraffic(log: seq<Fragment>, open: Lanes, handles: set<nat>)
    decreases |log|
  {
    log == [] || (FitsLane(log[0], open, handles) && LegalTraffic(log[1..], Advance(log[0], open, handles), handles))
  }

  ghost function Sent(log: seq<Fragment>, open: Lanes, handles: set<nat>): seq<Record>
    requires LegalTraffic(log, open, handles)
    decreases |log|
  {
    if log == [] then []
    else [Encoded(log[0], Own(log[0], open), handles)] + Sent(log[1..], Advance(log[0], open, handles), handles)
  }

  // What was sent: the ATT values of the completed PDUs of both directions, in completion order.
  ghost function Due(log: seq<Fragment>, open: Lanes, handles: set<nat>, start: Option<int>): seq<AttFrame>
    requires LegalTraffic(log, open, handles)
    decreases |log|
  {
    if log == [] then []
    else if log[0].Other? then Due(log[1..], open, handles, start) else
    var began := match start case None => log[0].ts case Some(t) => t;
    Optional(Emitted(log[0], Own(log[0], open), handles, began))
    + Due(log[1..], Advance(log[0], open, handles), handles, Some(began))
  }

  // Every PDU that was started is finished.
  ghost predicate Finished(log: seq<Fragment>, open: Lanes, handles: set<nat>)
    requires LegalTraffic(log, open, handles)
    decreases |log|
  {
    if log == [] then open == map[] else Finished(log[1..], Advance(log[0], open, handles), handles)
  }

  predicate OnlyValues(log: seq<Fragment>)
  {
    forall f <- log :: f.First? ==> f.pdu.Value?
  }

  predicate Busy(open: Lanes, h: nat)
  {
    (h, Tx) in open || (h, Rx) in open
  }

  // A PDU of one direction is open, and the other direction starts one that does not fit its first fragment.
  predicate Overlaps(f: Fragment, open: Lanes)
    requires f.First? ==> f.pdu.Legal()
  {
    f.First? && f.upTo < |f.pdu.Payload()| && Busy(open, f.handle)
  }

  ghost predicate OneAtATime(log: seq<Fragment>, open: Lanes, handles: set<nat>)
    requires LegalTraffic(log, open, handles)
    decreases |log|
  {
    log == [] || (!Overlaps(log[0], open) && OneAtATime(log[1..], Advance(log[0], open, handles), handles))
  }

  // ------------------------------------------- without overlap nothing is lost

  // At most one direction of a handle has an open PDU, and `single` has it under the handle.
  ghost predicate Collapses(open: Lanes, single: Sendings)
  {
    && (forall h :: h in single <==> Busy(open, h))
    && (forall lane <- open :: lane.0 in single && single[lane.0] == open[lane])
    && (forall h :: !((h, Tx) in open && (h, Rx) in open))
  }

  lemma StepCollapses(f: Fragment, open: Lanes, single: Sendings, handles: set<nat>)
    requires FitsLane(f, open, handles) && Collapses(open, single) && !Overlaps(f, open)
    ensures Fits(f, single, handles) && Encoded(f, single, handles) == Encoded(f, Own(f, open), handles)
    ensures Collapses(Advance(f, open, handles), Progress(f, single, handles))
    ensures !f.Other? ==> Completed(f, single, handles) == Completed(f, Own(f, open), handles)
  {
    if !f.Other? {
      var h, lane, next := f.handle, LaneOf(f), Advance(f, open, handles);
      var opposite := (h, if f.direction == Tx then Rx else Tx);
      assert Busy(open, h) <==> lane in open || opposite in open;
      assert Busy(next, h) <==> lane in next || opposite in next;
      assert lane in open ==> opposite !in open;
      forall l | l in next ensures l == lane || l == opposite || l.0 != h {
        assert l == (l.0, l.1) && (l.1.Tx? || l.1.Rx?);
      }
      forall g | g != h ensures Busy(next, g) <==> Busy(open, g) {
      }
    }
  }

  lemma {:induction false} CollapsedTraffic(
    log: seq<Fragment>, open: Lanes, single: Sendings, handles: set<nat>, start: Option<int>)
    requires LegalTraffic(log, open, handles) && OneAtATime(log, open, handles) && Collapses(open, single)
    ensures LegalLog(log, single, handles) && Records(log, single, handles) == Sent(log, open, handles)
    ensures Values(log, single, handles, start) == Due(log, open, handles, start)
    decreases |log|
  {
    if log != [] {
      var f := log[0];
      StepCollapses(f, open, single, handles);
      var next := if f.Other? then start else Some(match start case None => f.ts case Some(t) => t);
      CollapsedTraffic(log[1..], Advance(f, open, handles), Progress(f, single, handles), handles, next);
    }
  }

  // ----------------------------------------------- every overlap loses a frame

  function Starts(log: seq<Fragment>): nat
  {
    if log == [] then 0 else (if log[0].First? then 1 else 0) + Starts(log[1..])
  }

  lemma MapSizes<K, V>(m: map<K, V>, k: K, v: V)
    ensures |m[k := v]| == |m| + (if k in m then 0 else 1)
    ensures k in m ==> |m - {k}| == |m| - 1
  {
    if k in m {
      assert m.Keys == m[k := v].Keys;
      assert (m - {k}).Keys == m.Keys - {k};
    } else {
      assert m[k := v].Keys == m.Keys + {k};
    }
  }

  // A record yields what it takes out of the open PDUs, or the PDU it starts.
  lemma ValueBalance(f: Fragment, open: Lanes, handles: set<nat>, start: int)
    requires FitsLane(f, open, handles) && !f.Other? && (f.First? ==> f.pdu.Value?)
    requires forall lane <- open :: open[lane].pdu.Value?
    ensures |Optional(Emitted(f, Own(f, open), handles, start))| + |Advance(f, open, handles)|
         == |open| + (if f.First? then 1 else 0)
  {
    match f
    case First(_, _, _, _, pdu, upTo, _) => MapSizes(open, LaneOf(f), Sending(pdu, upTo));
    case Next(_, _, _, _, upTo, _) => MapSizes(open, LaneOf(f), open[LaneOf(f)].(sent := upTo));
    case Idle(_, _, _, _, _) =>
  }

  // Each PDU yields its value once: those open now, and those still to be started.
  lemma {:induction false} DueCount(log: seq<Fragment>, open: Lanes, handles: set<nat>, start: Option<int>)
    requires LegalTraffic(log, open, handles) && Finished(log, open, handles) && OnlyValues(log)
    requires forall lane <- open :: open[lane].pdu.Value?
    ensures |Due(log, open, handles, start)| == Starts(log) + |open|
    decreases |log|
  {
    if log != [] {
      var f := log[0];
      assert f in log && forall g <- log[1..] :: g in log;
      var began := match start case None => (if f.Other? then 0 else f.ts) case Some(t) => t;
      if !f.Other? {
        ValueBalance(f, open, handles, began);
      }
      DueCount(log[1..], Advance(f, open, handles), handles, if f.Other? then start else Some(began));
    }
  }

  // A record adds at most what it takes out of the buffers, or the PDU it starts; and nothing when it
  // starts a PDU over a buffer in use.
  lemma StepCount(f: Fragment, open: Lanes, buffers: Buffers, handles: set<nat>, start: int)
    requires !f.Other? && FitsLane(f, open, handles)
    ensures var rec := Encoded(f, Own(f, open), handles);
            && Relevant(rec, handles).Some?
            && var step := Step(buffers, start, rec, Relevant(rec, handles).value);
               && |Optional(step.0)| + |step.1| <= |buffers| + (if f.First? then 1 else 0)
               && (Overlaps(f, open) && f.handle in buffers ==> |Optional(step.0)| + |step.1| <= |buffers|)
  {
    match f
    case First(_, _, _, _, _, _, _) => FirstDecodes(f, buffers, Own(f, open), handles, start);
    case Next(_, _, _, _, _, _) => NextDecodes(f, Own(f, open), handles);
    case Idle(ts, d, h, flags, data) => RecordParses(ts, d, h, flags, data, handles);
    if f.handle in buffers {
      assert |buffers - {f.handle}| == |buffers| - 1;
    }
  }

  lemma {:induction false} NeverMore(
    log: seq<Fragment>, open: Lanes, buffers: Buffers, handles: set<nat>, start: Option<int>)
    requires LegalTraffic(log, open, handles)
    ensures |AttFrames(Sent(log, open, handles), handles, start, buffers)| <= Starts(log) + |buffers|
    decreases |log|
  {
    if log != [] {
      var f, records := log[0], Sent(log, open, handles);
      assert records[1..] == Sent(log[1..], Advance(f, open, handles), handles);
      if f.Other? {
        OtherIsIrrelevant(f, Own(f, open), handles);
        NeverMore(log[1..], open, buffers, handles, start);
      } else {
        var began := match start case None => f.ts case Some(t) => t;
        StepCount(f, open, buffers, handles, began);
        var next := Step(buffers, began, records[0], Relevant(records[0], handles).value).1;
        NeverMore(log[1..], Advance(f, open, handles), next, handles, Some(began));
      }
    }
  }

  lemma OverlapNow(log: seq<Fragment>, open: Lanes, buffers: Buffers, handles: set<nat>, start: Option<int>)
    requires LegalTraffic(log, open, handles) && log != [] && !log[0].Other?
    requires Overlaps(log[0], open) && log[0].handle in buffers
    ensures |AttFrames(Sent(log, open, handles), handles, start, buffers)| < Starts(log) + |buffers|
  {
    var f, records := log[0], Sent(log, open, handles);
    assert records[1..] == Sent(log[1..], Advance(f, open, handles), handles);
    var began := match start case None => f.ts case Some(t) => t;
    StepCount(f, open, buffers, handles, began);
    var next := Step(buffers, began, records[0], Relevant(records[0], handles).value).1;
    NeverMore(log[1..], Advance(f, open, handles), next, handles, Some(began));
  }

  lemma {:induction false} OverlapLoses(
    log: seq<Fragment>, open: Lanes, single: Sendings, buffers: Buffers, handles: set<nat>, start: Option<int>)
    requires LegalTraffic(log, open, handles) && !OneAtATime(log, open, handles)
    requires Collapses(open, single) && Mirrors(buffers, single)
    ensures |AttFrames(Sent(log, open, handles), handles, start, buffers)| < Starts(log) + |buffers|
    decreases |log|
  {
    var f, records := log[0], Sent(log, open, handles);
    assert records[1..] == Sent(log[1..], Advance(f, open, handles), handles);
    var began := match start case None => (if f.Other? then 0 else f.ts) case Some(t) => t;
    if f.Other? {
      OtherIsIrrelevant(f, Own(f, open), handles);
      OverlapLoses(log[1..], open, single, buffers, handles, start);
    } else if Overlaps(f, open) {
      OverlapNow(log, open, buffers, handles, start);
    } else {
      StepCount(f, open, buffers, handles, began);
      var next := Step(buffers, began, records[0], Relevant(records[0], handles).value).1;
      StepCollapses(f, open, single, handles);
      DecodesAsSent(f, buffers, single, handles, began);
      OverlapLoses(log[1..], Advance(f, open, handles), Progress(f, single, handles), next, handles, Some(began));
    }
  }

  // For every log of two directions on many handles, with values and other PDUs, finished or not: without
  // overlap exactly the values of the completed ATT value PDUs come out, in completion order.
  lemma DecodesWithoutOverlap(log: seq<Fragment>, handles: set<nat>)
    requires LegalTraffic(log, map[], handles) && OneAtATime(log, map[], handles)
    ensures AttFrames(Sent(log, map[], handles), handles, None, map[]) == Due(log, map[], handles, None)
  {
    CollapsedTraffic(log, map[], map[], handles, None);
    Recombines(log, handles);
  }

  // For every such log in which each direction finishes what it starts and every PDU is an ATT value: the
  // decoder emits exactly the values sent, in completion order, if and only if no fragmented PDU starts on a
  // handle on which the other direction has one open.
  lemma DecodesExactlyIff(log: seq<Fragment>, handles: set<nat>)
    requires LegalTraffic(log, map[], handles) && Finished(log, map[], handles) && OnlyValues(log)
    ensures AttFrames(Sent(log, map[], handles), handles, None, map[]) == Due(log, map[], handles, None)
       <==> OneAtATime(log, map[], handles)
  {
    if OneAtATime(log, map[], handles) {
      DecodesWithoutOverlap(log, handles);
    } else {
      OverlapLoses(log, map[], map[], map[], handles, None);
      DueCount(log, map[], handles, None);
    }
  }

  // ------------------------------------------------------------- a log that fails

  const WRITE := Value(0x52, 0x19, [0x07, 0x08])
  const EVENT := Value(0x1b, 0x1c, [0x09, 0x0a])

  // A write and a notification, each in two fragments, the fragments in turn.
  function Interleaved(): seq<Fragment>
  {
    [First(0, Tx, 1, 0, WRITE, 3, []), First(1, Rx, 1, 2, EVENT, 3, []),
     Next(2, Tx, 1, 1, 5, []), Next(3, Rx, 1, 1, 5, [])]
  }

  function LanesAfter(k: nat): Lanes
  {
    if k == 1 then map[(1, Tx) := Sending(WRITE, 3)]
    else if k == 2 then map[(1, Tx) := Sending(WRITE, 3), (1, Rx) := Sending(EVENT, 3)]
    else if k == 3 then map[(1, Rx) := Sending(EVENT, 3)]
    else map[]
  }

  function RecordAt(k: nat): Record
    requires k < 4
  {
    if k == 0 then Record(0, Tx, 2, Header(1, 0, Le16(5) + Le16(4) + [0x52, 0x19, 0x00]))
    else if k == 1 then Record(1, Rx, 2, Header(1, 2, Le16(5) + Le16(4) + [0x1b, 0x1c, 0x00]))
    else if k == 2 then Record(2, Tx, 2, Header(1, 1, [0x07, 0x08]))
    else Record(3, Rx, 2, Header(1, 1, [0x09, 0x0a]))
  }

  lemma InterleavedStep(k: nat)
    requires k < 4
    ensures var f := Interleaved()[k];
            && FitsLane(f, LanesAfter(k), {1})
            && Advance(f, LanesAfter(k), {1}) == LanesAfter(k + 1)
            && Encoded(f, Own(f, LanesAfter(k)), {1}) == RecordAt(k)
            && Emitted(f, Own(f, LanesAfter(k)), {1}, 0) == (if k == 2 then Some(AttFrame(2, Tx, 1, 0x19, [0x07, 0x08]))
                                                        else if k == 3 then Some(AttFrame(3, Rx, 1, 0x1c, [0x09, 0x0a]))
                                                        else None)
  {
    assert WRITE.Payload()[..3] == [0x52, 0x19, 0x00] && WRITE.Payload()[3..] == [0x07, 0x08] == WRITE.Payload()[3..5];
    assert EVENT.Payload()[..3] == [0x1b, 0x1c, 0x00] && EVENT.Payload()[3..] == [0x09, 0x0a] == EVENT.Payload()[3..5];
  }

  lemma InterleavedTails()
    ensures var log := Interleaved();
            && LegalTraffic(log[3..], LanesAfter(3), {1}) && LegalTraffic(log[2..], LanesAfter(2), {1})
            && LegalTraffic(log[1..], LanesAfter(1), {1}) && LegalTraffic(log, map[], {1})
            && Finished(log[2..], LanesAfter(2), {1}) && Finished(log, map[], {1})
  {
    var log := Interleaved();
    InterleavedStep(0);
    InterleavedStep(1);
    InterleavedStep(2);
    InterleavedStep(3);
    assert log[1..][1..] == log[2..] && log[2..][1..] == log[3..] && log[3..][1..] == [];
    assert LegalTraffic(log[3..], LanesAfter(3), {1});
    assert LegalTraffic(log[2..], LanesAfter(2), {1});
    assert LegalTraffic(log[1..], LanesAfter(1), {1});
    assert Finished(log[3..], LanesAfter(3), {1});
  }

  lemma InterleavedIsLegal()
    ensures LegalTraffic(Interleaved(), map[], {1}) && Finished(Interleaved(), map[], {1}) && OnlyValues(Interleaved())
    ensures Sent(Interleaved(), map[], {1}) == [RecordAt(0)] + ([RecordAt(1)] + ([RecordAt(2)] + [RecordAt(3)]))
    ensures Due(Interleaved(), map[], {1}, None)
         == [AttFrame(2, Tx, 1, 0x19, [0x07, 0x08]), AttFrame(3, Rx, 1, 0x1c, [0x09, 0x0a])]
  {
    var log := Interleaved();
    InterleavedTails();
    InterleavedStep(0);
    InterleavedStep(1);
    InterleavedStep(2);
    InterleavedStep(3);
    assert log[1..][1..] == log[2..] && log[2..][1..] == log[3..] && log[3..][1..] == [];
    assert Sent(log[3..], LanesAfter(3), {1}) == [RecordAt(3)];
    assert Sent(log[2..], LanesAfter(2), {1}) == [RecordAt(2)] + [RecordAt(3)];
    assert Due(log[3..], LanesAfter(3), {1}, Some(0)) == [AttFrame(3, Rx, 1, 0x1c, [0x09, 0x0a])];
    assert Due(log[2..], LanesAfter(2), {1}, Some(0))
        == [AttFrame(2, Tx, 1, 0x19, [0x07, 0x08]), AttFrame(3, Rx, 1, 0x1c, [0x09, 0x0a])];
    assert Due(log[1..], LanesAfter(1), {1}, Some(0)) == Due(log[2..], LanesAfter(2), {1}, Some(0));
  }

  // The decoder's buffers between those records.
  function BuffersAfter(k: nat): Buffers
  {
    if k == 1 then map[1 := Partial(4, [0x52, 0x19, 0x00], 5)]
    else if k == 2 then map[1 := Partial(4, [0x1b, 0x1c, 0x00], 5)]
    else map[]
  }

  lemma InterleavedStarts(k: nat)
    requires k < 2
    ensures Relevant(RecordAt(k), {1}).Some?
    ensures Step(BuffersAfter(k), 0, RecordAt(k), Relevant(RecordAt(k), {1}).value) == (None, BuffersAfter(k + 1))
  {
    var f, own := Interleaved()[k], Own(Interleaved()[k], LanesAfter(k));
    InterleavedStep(k);
    FirstDecodes(f, BuffersAfter(k), own, {1}, 0);
    assert f.upTo == 3 && f.pdu.Payload()[..3] == (if k == 0 then [0x52, 0x19, 0x00] else [0x1b, 0x1c, 0x00]);
    assert BuffersAfter(k)[1 := Partial(4, f.pdu.Payload()[..3], 5)] == BuffersAfter(k + 1);
  }

  lemma InterleavedEnds(k: nat)
    requires 2 <= k < 4
    ensures Relevant(RecordAt(k), {1}) == Some(Acl(1, 1, if k == 2 then [0x07, 0x08] else [0x09, 0x0a]))
  {
    if k == 2 {
      RecordParses(2, Tx, 1, 1, [0x07, 0x08], {1});
    } else {
      RecordParses(3, Rx, 1, 1, [0x09, 0x0a], {1});
    }
  }

  lemma InterleavedSteps(k: nat)
    requires k < 4
    ensures Relevant(RecordAt(k), {1}).Some?
    ensures Step(BuffersAfter(k), 0, RecordAt(k), Relevant(RecordAt(k), {1}).value)
         == (if k == 2 then Some(AttFrame(2, Tx, 1, 0x1c, [0x07, 0x08])) else None, BuffersAfter(k + 1))
  {
    if k < 2 {
      InterleavedStarts(k);
    } else {
      InterleavedEnds(k);
      var glued: bytes := [0x1b, 0x1c, 0x00] + [0x07, 0x08];
      assert glued[..5] == [0x1b, 0x1c, 0x00, 0x07, 0x08] && glued[..5][3..] == [0x07, 0x08];
    }
  }

  lemma InterleavedDecodes(k: nat, rest: seq<Record>)
    requires k < 4
    ensures AttFrames([RecordAt(k)] + rest, {1}, if k == 0 then None else Some(0), BuffersAfter(k))
         == (if k == 2 then [AttFrame(2, Tx, 1, 0x1c, [0x07, 0x08])] else [])
             + AttFrames(rest, {1}, Some(0), BuffersAfter(k + 1))
  {
    var all := [RecordAt(k)] + rest;
    InterleavedSteps(k);
    FirstRecord(all, {1}, 0, if k == 0 then None else Some(0), BuffersAfter(k));
    assert all[1..] == rest && all[0..] == all;
  }

  // The whole log, decoded from the start: both values are gone, and a notification comes out, on a record
  // of the other direction, that carries the end of the write and was never sent.
  lemma WriteComesOutAsNotification()
    ensures var log := Interleaved();
            && LegalTraffic(log, map[], {1}) && Finished(log, map[], {1}) && OnlyValues(log)
            && Due(log, map[], {1}, None)
               == [AttFrame(2, Tx, 1, 0x19, [0x07, 0x08]), AttFrame(3, Rx, 1, 0x1c, [0x09, 0x0a])]
            && AttFrames(Sent(log, map[], {1}), {1}, None, map[]) == [AttFrame(2, Tx, 1, 0x1c, [0x07, 0x08])]
  {
    InterleavedIsLegal();
    InterleavedDecodes(0, [RecordAt(1)] + ([RecordAt(2)] + [RecordAt(3)]));
    InterleavedDecodes(1, [RecordAt(2)] + [RecordAt(3)]);
    InterleavedDecodes(2, [RecordAt(3)]);
    InterleavedDecodes(3, []);
    assert [RecordAt(3)] + [] == [RecordAt(3)];
  }
}
