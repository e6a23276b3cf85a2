/** Cutting a capture into login epochs, within a cap on frames and a cap on bytes. */
module LoginEpochs {
  import opened Bytes
  import opened L2cap
  import AuthParcels

  datatype LimitError = BadLimits | TooManyFrames | TooManyBytes

  predicate IsStart(frame: AttFrame, authHandle: nat)
  {
    && frame.attrHandle == authHandle && frame.direction == Tx
    && |frame.value| >= 6 && frame.value[..4] == [0x00, 0x00, 0x00, 0x0b]
  }

  // A login starts where the host announces its random on the login channel: the announcement that the login
  // client writes, whatever the count and whatever follows it.
  lemma StartIff(frame: AttFrame, authHandle: nat)
    ensures IsStart(frame, authHandle) <==>
              && frame.attrHandle == authHandle && frame.direction == Tx
              && exists n: nat, rest: bytes :: n < 0x10000 && frame.value == AuthParcels.Announcement(0x0b, n) + rest
  {
    var value := frame.value;
    if IsStart(frame, authHandle) {
      var n := U16(value, 4);
      Le16OfU16(value, 4);
      assert value == value[..4] + value[4..6] + value[6..];
      assert value == AuthParcels.Announcement(0x0b, n) + value[6..];
    }
    if n: nat, rest: bytes :| n < 0x10000 && value == AuthParcels.Announcement(0x0b, n) + rest {
      assert value[..4] == AuthParcels.Announcement(0x0b, n)[..4];
    }
  }

  function Volume(frames: seq<AttFrame>): nat
    decreases |frames|
  {
    if frames == [] then 0 else Volume(frames[..|frames| - 1]) + |frames[|frames| - 1].value|
  }

  function ValuesOf(frames: seq<AttFrame>): seq<bytes>
  {
    if frames == [] then [] else [frames[0].value] + ValuesOf(frames[1..])
  }

  // The volume is the number of bytes in all values together.
  lemma {:induction false} VolumeIsLength(frames: seq<AttFrame>)
    ensures Volume(frames) == |Flatten(ValuesOf(frames))|
    decreases |frames|
  {
    if frames != [] {
      VolumeIsLength(frames[1..]);
      VolumeFirst(frames);
    }
  }

  lemma {:induction false} VolumeFirst(frames: seq<AttFrame>)
    requires frames != []
    ensures Volume(frames) == |frames[0].value| + Volume(frames[1..])
    decreases |frames|
  {
    if |frames| > 1 {
      var before := frames[..|frames| - 1];
      VolumeFirst(before);
      assert before[1..] == frames[1..][..|frames| - 2];
    }
  }

  // Both caps may be reached.
  lemma FitsIff(epoch: seq<AttFrame>, maxFrames: int, maxBytes: int)
    ensures Fits(epoch, maxFrames, maxBytes) <==> |epoch| <= maxFrames && |Flatten(ValuesOf(epoch))| <= maxBytes
  {
    VolumeIsLength(epoch);
  }

  predicate Fits(epoch: seq<AttFrame>, maxFrames: int, maxBytes: int)
  {
    |epoch| <= maxFrames && Volume(epoch) <= maxBytes
  }

  // ------------------------------------------------------ the declarative cut

  // The frames of one connection.
  function On(frames: seq<AttFrame>, handle: nat): seq<AttFrame>
    decreases |frames|
  {
    if frames == [] then [] else
    var last := frames[|frames| - 1];
    On(frames[..|frames| - 1], handle) + (if last.aclHandle == handle then [last] else [])
  }

  // Where the next login starts, from `i` on.
  function NextStart(frames: seq<AttFrame>, auth: nat, i: nat): (r: nat)
    requires i <= |frames|
    ensures i <= r <= |frames|
    ensures forall k :: i <= k < r ==> !IsStart(frames[k], auth)
    ensures r < |frames| ==> IsStart(frames[r], auth)
    decreases |frames| - i
  {
    if i == |frames| || IsStart(frames[i], auth) then i else NextStart(frames, auth, i + 1)
  }

  // The epoch that starts at `i`: everything on its connection up to the next login, on any connection.
  function EpochAt(frames: seq<AttFrame>, auth: nat, i: nat): seq<AttFrame>
    requires i < |frames|
  {
    On(frames[i..NextStart(frames, auth, i + 1)], frames[i].aclHandle)
  }

  // All epochs in order, from the start at `i`.
  function EpochsFrom(frames: seq<AttFrame>, auth: nat, i: nat): seq<seq<AttFrame>>
    requires i <= |frames|
    decreases |frames| - i
  {
    if i == |frames| then [] else
    [EpochAt(frames, auth, i)] + EpochsFrom(frames, auth, NextStart(frames, auth, i + 1))
  }

  function Epochs(frames: seq<AttFrame>, auth: nat): seq<seq<AttFrame>>
  {
    EpochsFrom(frames, auth, NextStart(frames, auth, 0))
  }

  // ------------------------------------------------- what the epochs contain

  // The last login start up to and including frame `k`.
  function LatestStart(frames: seq<AttFrame>, auth: nat, k: nat): (r: Option<nat>)
    requires k < |frames|
    ensures r.Some? ==> r.value <= k && IsStart(frames[r.value], auth) && Silent(frames, auth, r.value + 1, k + 1)
    ensures r.None? ==> Silent(frames, auth, 0, k + 1)
  {
    if IsStart(frames[k], auth) then Some(k) else if k == 0 then None else LatestStart(frames, auth, k - 1)
  }

  // Of the first `n` frames, those on the connection of the login start that is latest at that point.
  function OnLatestConnection(frames: seq<AttFrame>, auth: nat, n: nat): seq<AttFrame>
    requires n <= |frames|
  {
    if n == 0 then [] else
    var start := LatestStart(frames, auth, n - 1);
    OnLatestConnection(frames, auth, n - 1)
    + if start.Some? && frames[start.value].aclHandle == frames[n - 1].aclHandle then [frames[n - 1]] else []
  }

  function Concat(epochs: seq<seq<AttFrame>>): seq<AttFrame>
  {
    if epochs == [] then [] else epochs[0] + Concat(epochs[1..])
  }

  lemma {:induction false} NothingBeforeFirstStart(frames: seq<AttFrame>, auth: nat, n: nat)
    requires n <= |frames| && Silent(frames, auth, 0, n)
    ensures OnLatestConnection(frames, auth, n) == []
  {
    if n > 0 {
      NothingBeforeFirstStart(frames, auth, n - 1);
      assert LatestStart(frames, auth, n - 1).None?;
    }
  }

  lemma LatestWithinEpoch(frames: seq<AttFrame>, auth: nat, s: nat, k: nat)
    requires s <= k < |frames| && IsStart(frames[s], auth) && Silent(frames, auth, s + 1, k + 1)
    ensures LatestStart(frames, auth, k) == Some(s)
  {
    var latest := LatestStart(frames, auth, k);
    if latest.None? || latest.value < s {
      assert false;
    }
  }

  lemma OnLast(frames: seq<AttFrame>, h: nat, s: nat, e: nat)
    requires s < e <= |frames|
    ensures On(frames[s..e], h)
         == On(frames[s..e - 1], h) + if frames[e - 1].aclHandle == h then [frames[e - 1]] else []
  {
    var slice := frames[s..e];
    assert slice[..|slice| - 1] == frames[s..e - 1] && slice[|slice| - 1] == frames[e - 1];
  }

  lemma {:induction false} EpochIsSelected(frames: seq<AttFrame>, auth: nat, s: nat, e: nat)
    requires s < e <= |frames| && IsStart(frames[s], auth) && Silent(frames, auth, s + 1, e)
    ensures OnLatestConnection(frames, auth, e)
      == OnLatestConnection(frames, auth, s) + On(frames[s..e], frames[s].aclHandle)
    decreases e
  {
    var h := frames[s].aclHandle;
    var before, chosen := On(frames[s..e - 1], h), if frames[e - 1].aclHandle == h then [frames[e - 1]] else [];
    LatestWithinEpoch(frames, auth, s, e - 1);
    OnLast(frames, h, s, e);
    var earlier := OnLatestConnection(frames, auth, s);
    if e == s + 1 {
      assert frames[s..e - 1] == [] && earlier + [] == earlier;
    } else {
      EpochIsSelected(frames, auth, s, e - 1);
    }
    var shorter := OnLatestConnection(frames, auth, e - 1);
    assert shorter == earlier + before;
    AppendAssociates(earlier, before, chosen);
    assert OnLatestConnection(frames, auth, e) == shorter + chosen;
  }

  lemma {:induction false} EpochsFromSelect(frames: seq<AttFrame>, auth: nat, s: nat)
    requires s <= |frames| && (s < |frames| ==> IsStart(frames[s], auth))
    ensures OnLatestConnection(frames, auth, |frames|)
         == OnLatestConnection(frames, auth, s) + Concat(EpochsFrom(frames, auth, s))
    decreases |frames| - s
  {
    if s == |frames| {
      assert OnLatestConnection(frames, auth, s) + [] == OnLatestConnection(frames, auth, s);
    } else {
      var e := NextStart(frames, auth, s + 1);
      EpochIsSelected(frames, auth, s, e);
      EpochsFromSelect(frames, auth, e);
      var rest := EpochsFrom(frames, auth, e);
      assert EpochsFrom(frames, auth, s)[1..] == rest;
      AppendAssociates(OnLatestConnection(frames, auth, s), EpochAt(frames, auth, s), Concat(rest));
    }
  }

  // The epochs hold, in order and without gaps, exactly the frames on the connection of the most recent
  // login start.
  lemma EpochsAreTheLatestConnections(frames: seq<AttFrame>, auth: nat)
    ensures Concat(Epochs(frames, auth)) == OnLatestConnection(frames, auth, |frames|)
  {
    var first := NextStart(frames, auth, 0);
    NothingBeforeFirstStart(frames, auth, first);
    EpochsFromSelect(frames, auth, first);
    assert [] + Concat(Epochs(frames, auth)) == Concat(Epochs(frames, auth));
  }

  ghost predicate OneLogin(epoch: seq<AttFrame>, auth: nat)
  {
    && |epoch| > 0 && IsStart(epoch[0], auth)
    && forall k :: 1 <= k < |epoch| ==> !IsStart(epoch[k], auth) && epoch[k].aclHandle == epoch[0].aclHandle
  }

  lemma {:induction false} EveryEpochFromStarts(frames: seq<AttFrame>, auth: nat, s: nat)
    requires s <= |frames| && (s < |frames| ==> IsStart(frames[s], auth))
    ensures forall e <- EpochsFrom(frames, auth, s) :: OneLogin(e, auth)
    decreases |frames| - s
  {
    if s < |frames| {
      var next := NextStart(frames, auth, s + 1);
      EpochShape(frames, auth, s, next);
      EveryEpochFromStarts(frames, auth, next);
    }
  }

  lemma {:induction false} EpochShape(frames: seq<AttFrame>, auth: nat, s: nat, e: nat)
    requires s < e <= |frames| && IsStart(frames[s], auth) && Silent(frames, auth, s + 1, e)
    ensures OneLogin(On(frames[s..e], frames[s].aclHandle), auth)
    ensures On(frames[s..e], frames[s].aclHandle)[0] == frames[s]
    decreases e
  {
    var slice := frames[s..e];
    assert slice[..|slice| - 1] == frames[s..e - 1] && slice[|slice| - 1] == frames[e - 1];
    if e == s + 1 {
      assert On(slice[..0], frames[s].aclHandle) == [];
    } else {
      EpochShape(frames, auth, s, e - 1);
    }
  }

  // Every epoch begins with its login start, holds no other, and stays on one connection.
  lemma EveryEpochIsOneLogin(frames: seq<AttFrame>, auth: nat)
    ensures forall e <- Epochs(frames, auth) :: OneLogin(e, auth)
  {
    EveryEpochFromStarts(frames, auth, NextStart(frames, auth, 0));
  }

  // -------------------------------------------------------------------- caps

  lemma {:induction false} OnVolume(frames: seq<AttFrame>, handle: nat, i: nat)
    requires i <= |frames|
    ensures |On(frames[..i], handle)| <= |On(frames, handle)|
    ensures Volume(On(frames[..i], handle)) <= Volume(On(frames, handle))
    decreases |frames|
  {
    if i == |frames| {
      assert frames[..i] == frames;
    } else {
      var shorter := frames[..|frames| - 1];
      OnVolume(shorter, handle, i);
      assert shorter[..i] == frames[..i];
      var last := frames[|frames| - 1];
      if last.aclHandle == handle {
        assert (On(shorter, handle) + [last])[..|On(shorter, handle)|] == On(shorter, handle);
      } else {
        assert On(shorter, handle) + [] == On(shorter, handle);
      }
    }
  }

  // How many of the epochs from `i` fit before one does not; all of them when none is too large.
  function Fitting(epochs: seq<seq<AttFrame>>, maxFrames: int, maxBytes: int): nat
    ensures Fitting(epochs, maxFrames, maxBytes) <= |epochs|
  {
    if epochs == [] || !Fits(epochs[0], maxFrames, maxBytes) then 0 else 1 + Fitting(epochs[1..], maxFrames, maxBytes)
  }

  lemma {:induction false} FittingIsExact(epochs: seq<seq<AttFrame>>, maxFrames: int, maxBytes: int)
    ensures var n := Fitting(epochs, maxFrames, maxBytes);
            && (forall k :: 0 <= k < n ==> Fits(epochs[k], maxFrames, maxBytes))
            && (n < |epochs| ==> !Fits(epochs[n], maxFrames, maxBytes))
  {
    if epochs != [] && Fits(epochs[0], maxFrames, maxBytes) {
      FittingIsExact(epochs[1..], maxFrames, maxBytes);
      var n := Fitting(epochs[1..], maxFrames, maxBytes);
      assert forall k :: 1 <= k <= n ==> epochs[k] == epochs[1..][k - 1];
    }
  }

  lemma {:induction false} FittingAppend(a: seq<seq<AttFrame>>, b: seq<seq<AttFrame>>, maxFrames: int, maxBytes: int)
    requires forall k :: 0 <= k < |a| ==> Fits(a[k], maxFrames, maxBytes)
    ensures Fitting(a + b, maxFrames, maxBytes) == |a| + Fitting(b, maxFrames, maxBytes)
    decreases |a|
  {
    if a == [] {
      assert a + b == b;
    } else {
      FittingAppend(a[1..], b, maxFrames, maxBytes);
      assert (a + b)[1..] == a[1..] + b && (a + b)[0] == a[0];
    }
  }

  lemma {:induction false} SkipToStart(frames: seq<AttFrame>, auth: nat, i: nat, j: nat)
    requires i <= j <= |frames| && Silent(frames, auth, i, j)
    ensures NextStart(frames, auth, i) == NextStart(frames, auth, j)
    decreases j - i
  {
    if i < j {
      SkipToStart(frames, auth, i + 1, j);
    }
  }

  // ---------------------------------------------------------------- the loop

  ghost predicate Silent(frames: seq<AttFrame>, auth: nat, i: nat, j: nat)
    requires j <= |frames|
  {
    forall k :: i <= k < j ==> !IsStart(frames[k], auth)
  }

  // The epoch from `s` is open with the frames before `i`.
  ghost predicate Open(frames: seq<AttFrame>, auth: nat, s: nat, i: nat, active: seq<AttFrame>)
  {
    && s < i <= |frames| && IsStart(frames[s], auth) && Silent(frames, auth, s + 1, i)
    && active == On(frames[s..i], frames[s].aclHandle)
  }

  lemma Opens(frames: seq<AttFrame>, auth: nat, i: nat)
    requires i < |frames| && IsStart(frames[i], auth)
    ensures Open(frames, auth, i, i + 1, [frames[i]])
    ensures Volume([frames[i]]) == |frames[i].value|
  {
    var f := frames[i];
    assert frames[i..i + 1] == [f] && [f][..0] == [];
    assert On([f], f.aclHandle) == On([], f.aclHandle) + [f];
    assert Volume([f]) == Volume([]) + |f.value|;
  }

  lemma Continues(frames: seq<AttFrame>, auth: nat, s: nat, i: nat, active: seq<AttFrame>)
    requires Open(frames, auth, s, i, active) && i < |frames| && !IsStart(frames[i], auth)
    ensures var next := if frames[i].aclHandle == frames[s].aclHandle then active + [frames[i]] else active;
            && Open(frames, auth, s, i + 1, next)
            && Volume(active + [frames[i]]) == Volume(active) + |frames[i].value|
  {
    var f, h := frames[i], frames[s].aclHandle;
    var longer := frames[s..i + 1];
    assert longer[..|longer| - 1] == frames[s..i] && longer[|longer| - 1] == f;
    assert On(longer, h) == active + (if f.aclHandle == h then [f] else []);
    assert active + [] == active;
    assert (active + [f])[..|active|] == active;
  }

  // At the next start, or at the end, the open epoch is complete.
  lemma Closes(frames: seq<AttFrame>, auth: nat, s: nat, i: nat, active: seq<AttFrame>)
    requires Open(frames, auth, s, i, active) && (i < |frames| ==> IsStart(frames[i], auth))
    ensures EpochAt(frames, auth, s) == active
    ensures EpochsFrom(frames, auth, s) == [active] + EpochsFrom(frames, auth, i)
  {
    SkipToStart(frames, auth, s + 1, i);
    assert NextStart(frames, auth, i) == i;
  }

  // An epoch that is too large already is too large when complete.
  lemma StaysTooLarge(frames: seq<AttFrame>, auth: nat, s: nat, i: nat, active: seq<AttFrame>, maxFrames: int,
      maxBytes: int)
    requires Open(frames, auth, s, i, active) && !Fits(active, maxFrames, maxBytes)
    ensures !Fits(EpochAt(frames, auth, s), maxFrames, maxBytes)
    ensures Fitting(EpochsFrom(frames, auth, s), maxFrames, maxBytes) == 0 < |EpochsFrom(frames, auth, s)|
  {
    SkipToStart(frames, auth, s + 1, i);
    var whole := frames[s..NextStart(frames, auth, s + 1)];
    assert whole[..i - s] == frames[s..i];
    OnVolume(whole, frames[s].aclHandle, i - s);
  }

  // The loop before frame `i`: what was yielded is in front of the epoch that starts at `s`.
  ghost predicate Progress(
    frames: seq<AttFrame>, auth: nat, maxFrames: int, maxBytes: int,
    i: nat, s: nat, out: seq<seq<AttFrame>>, active: seq<AttFrame>)
  {
    && i <= |frames| && s <= |frames|
    && Epochs(frames, auth) == out + EpochsFrom(frames, auth, s)
    && (forall k :: 0 <= k < |out| ==> Fits(out[k], maxFrames, maxBytes))
    && if active == [] then i <= s && s == NextStart(frames, auth, 0) && out == []
       else Open(frames, auth, s, i, active) && Fits(active, maxFrames, maxBytes)
  }

  // What was yielded is everything before the first epoch that does not fit, and there is one.
  ghost predicate Overflow(frames: seq<AttFrame>, auth: nat, maxFrames: int, maxBytes: int, out: seq<seq<AttFrame>>)
  {
    var all := Epochs(frames, auth);
    out == all[..Fitting(all, maxFrames, maxBytes)] && Fitting(all, maxFrames, maxBytes) < |all|
  }

  // What was yielded is everything, and all of it fits.
  ghost predicate AllFit(frames: seq<AttFrame>, auth: nat, maxFrames: int, maxBytes: int, out: seq<seq<AttFrame>>)
  {
    out == Epochs(frames, auth) && Fitting(out, maxFrames, maxBytes) == |out|
  }

  lemma AtBeginning(frames: seq<AttFrame>, auth: nat, maxFrames: int, maxBytes: int)
    ensures Progress(frames, auth, maxFrames, maxBytes, 0, NextStart(frames, auth, 0), [], [])
  {
    assert Epochs(frames, auth) == [] + EpochsFrom(frames, auth, NextStart(frames, auth, 0));
  }

  lemma Overflows(
    frames: seq<AttFrame>, auth: nat, maxFrames: int, maxBytes: int,
    i: nat, s: nat, out: seq<seq<AttFrame>>, active: seq<AttFrame>)
    requires s <= |frames| && Epochs(frames, auth) == out + EpochsFrom(frames, auth, s)
    requires forall k :: 0 <= k < |out| ==> Fits(out[k], maxFrames, maxBytes)
    requires Open(frames, auth, s, i, active) && !Fits(active, maxFrames, maxBytes)
    ensures Overflow(frames, auth, maxFrames, maxBytes, out)
  {
    StaysTooLarge(frames, auth, s, i, active, maxFrames, maxBytes);
    FittingAppend(out, EpochsFrom(frames, auth, s), maxFrames, maxBytes);
  }

  // A login start closes the epoch that is open.
  lemma YieldsOpenEpoch(
    frames: seq<AttFrame>, auth: nat, maxFrames: int, maxBytes: int,
    i: nat, s: nat, out: seq<seq<AttFrame>>, active: seq<AttFrame>)
    requires Progress(frames, auth, maxFrames, maxBytes, i, s, out, active)
    requires i < |frames| && IsStart(frames[i], auth)
    ensures Epochs(frames, auth) == (if active == [] then out else out + [active]) + EpochsFrom(frames, auth, i)
  {
    if active != [] {
      Closes(frames, auth, s, i, active);
      AppendAssociates(out, [active], EpochsFrom(frames, auth, i));
    } else {
      assert s == i;
    }
  }

  lemma AtStart(
    frames: seq<AttFrame>, auth: nat, maxFrames: int, maxBytes: int,
    i: nat, s: nat, out: seq<seq<AttFrame>>, active: seq<AttFrame>)
    requires Progress(frames, auth, maxFrames, maxBytes, i, s, out, active) && maxFrames >= 1
    requires i < |frames| && IsStart(frames[i], auth)
    ensures var yielded := if active == [] then out else out + [active];
            && Volume([frames[i]]) == |frames[i].value|
            && if |frames[i].value| <= maxBytes
               then Progress(frames, auth, maxFrames, maxBytes, i + 1, i, yielded, [frames[i]])
               else Overflow(frames, auth, maxFrames, maxBytes, yielded)
  {
    Opens(frames, auth, i);
    YieldsOpenEpoch(frames, auth, maxFrames, maxBytes, i, s, out, active);
    var yielded := if active == [] then out else out + [active];
    if |frames[i].value| > maxBytes {
      Overflows(frames, auth, maxFrames, maxBytes, i + 1, i, yielded, [frames[i]]);
    }
  }

  lemma VolumeNext(active: seq<AttFrame>, frame: AttFrame)
    ensures Volume(active + [frame]) == Volume(active) + |frame.value|
  {
    assert (active + [frame])[..|active|] == active;
  }

  lemma AtFrameOutside(
    frames: seq<AttFrame>, auth: nat, maxFrames: int, maxBytes: int,
    i: nat, s: nat, out: seq<seq<AttFrame>>, active: seq<AttFrame>)
    requires Progress(frames, auth, maxFrames, maxBytes, i, s, out, active)
    requires i < |frames| && !IsStart(frames[i], auth)
    requires active == [] || frames[i].aclHandle != frames[s].aclHandle
    ensures Progress(frames, auth, maxFrames, maxBytes, i + 1, s, out, active)
  {
    if active == [] {
      assert i != s;
    } else {
      Continues(frames, auth, s, i, active);
    }
  }

  lemma AtFrameInside(
    frames: seq<AttFrame>, auth: nat, maxFrames: int, maxBytes: int,
    i: nat, s: nat, out: seq<seq<AttFrame>>, active: seq<AttFrame>)
    requires Progress(frames, auth, maxFrames, maxBytes, i, s, out, active)
    requires i < |frames| && !IsStart(frames[i], auth)
    requires active != [] && frames[i].aclHandle == frames[s].aclHandle
    requires Fits(active + [frames[i]], maxFrames, maxBytes)
    ensures Progress(frames, auth, maxFrames, maxBytes, i + 1, s, out, active + [frames[i]])
  {
    Continues(frames, auth, s, i, active);
  }

  lemma AtEnd(
    frames: seq<AttFrame>, auth: nat, maxFrames: int, maxBytes: int,
    s: nat, out: seq<seq<AttFrame>>, active: seq<AttFrame>)
    requires Progress(frames, auth, maxFrames, maxBytes, |frames|, s, out, active)
    ensures AllFit(frames, auth, maxFrames, maxBytes, if active == [] then out else out + [active])
  {
    var all := Epochs(frames, auth);
    if active == [] {
      assert out + [] == out;
    } else {
      Closes(frames, auth, s, |frames|, active);
      assert [active] + [] == [active];
    }
    FittingAppend(all, [], maxFrames, maxBytes);
    assert all + [] == all;
  }

  // The body of the loop: `s` is where the open epoch starts.
  method TakeFrame(
    frames: seq<AttFrame>, auth: nat, maxFrames: int, maxBytes: int, i: nat, ghost s: nat,
    out: seq<seq<AttFrame>>, active: seq<AttFrame>, activeHandle: nat, activeBytes: nat)
    returns (yielded: seq<seq<AttFrame>>, now: seq<AttFrame>, handle: nat, volume: nat, error: Option<LimitError>,
        ghost start: nat)
    requires Progress(frames, auth, maxFrames, maxBytes, i, s, out, active) && i < |frames| && maxFrames >= 1
    requires active != [] ==> activeHandle == frames[s].aclHandle && activeBytes == Volume(active)
    ensures error != Some(BadLimits)
    ensures error.None? ==>
              && Progress(frames, auth, maxFrames, maxBytes, i + 1, start, yielded, now)
              && (now != [] ==> handle == frames[start].aclHandle && volume == Volume(now))
    ensures error.Some? ==> Overflow(frames, auth, maxFrames, maxBytes, yielded)
  {
    yielded, now, handle, volume, error, start := out, active, activeHandle, activeBytes, None, s;
    var frame := frames[i];
    if IsStart(frame, auth) {
      AtStart(frames, auth, maxFrames, maxBytes, i, s, out, active);
      if active != [] {
        yielded := yielded + [active];
      }
      if |frame.value| > maxBytes {
        error := Some(TooManyBytes);
        return;
      }
      now, handle, volume := [frame], frame.aclHandle, |frame.value|;
      start := i;
    } else {
      if active == [] || frame.aclHandle != activeHandle {
        AtFrameOutside(frames, auth, maxFrames, maxBytes, i, s, out, active);
      }
      if active != [] && frame.aclHandle == activeHandle {
        VolumeNext(active, frame);
        if Fits(active + [frame], maxFrames, maxBytes) {
          AtFrameInside(frames, auth, maxFrames, maxBytes, i, s, out, active);
        } else {
          Continues(frames, auth, s, i, active);
          Overflows(frames, auth, maxFrames, maxBytes, i + 1, s, out, active + [frame]);
        }
        if |active| >= maxFrames {
          error := Some(TooManyFrames);
          return;
        }
        if activeBytes + |frame.value| > maxBytes {
          error := Some(TooManyBytes);
          return;
        }
        now := now + [frame];
        volume := volume + |frame.value|;
      }
    }
  }

  // `iter_login_sessions`, run to its end: the epochs it yielded, and the error that stopped it, if any.
  // It yields every epoch before the first one that breaks a cap, and fails exactly when one does.
  method IterLoginSessions(frames: seq<AttFrame>, auth: nat, maxFrames: int, maxBytes: int)
    returns (out: seq<seq<AttFrame>>, error: Option<LimitError>)
    ensures error == Some(BadLimits) <==> maxFrames < 1 || maxBytes < 1
    ensures error == Some(BadLimits) ==> out == []
    ensures error.None? ==> AllFit(frames, auth, maxFrames, maxBytes, out)
    ensures error.Some? && error != Some(BadLimits) ==> Overflow(frames, auth, maxFrames, maxBytes, out)
  {
    out, error := [], None;
    var active: seq<AttFrame> := [];
    var activeHandle := 0;
    var activeBytes := 0;
    if maxFrames < 1 || maxBytes < 1 {
      return [], Some(BadLimits);
    }
    ghost var s := NextStart(frames, auth, 0);
    AtBeginning(frames, auth, maxFrames, maxBytes);
    for i: nat := 0 to |frames|
      invariant Progress(frames, auth, maxFrames, maxBytes, i, s, out, active)
      invariant active != [] ==> activeHandle == frames[s].aclHandle && activeBytes == Volume(active)
      invariant error.None?
    {
      out, active, activeHandle, activeBytes, error, s :=
        TakeFrame(frames, auth, maxFrames, maxBytes, i, s, out, active, activeHandle, activeBytes);
      if error.Some? {
        return;
      }
    }
    AtEnd(frames, auth, maxFrames, maxBytes, s, out, active);
    if active != [] {
      out := out + [active];
    }
  }
}
