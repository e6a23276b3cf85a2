/** `collect_pushes`: what two snapshots of the bounded frame history say about the time in between. */
module PushHistory {
  import opened Bytes
  import opened MiotTransport
  import opened MiotReassembly

  function Last<T>(s: seq<T>, n: nat): seq<T>
  {
    if |s| <= n then s else s[|s| - n..]
  }

  // The last `k` frames of the earlier snapshot are the first `k` of the later one.
  predicate Overlaps(before: seq<MiotFrame>, later: seq<MiotFrame>, k: nat)
  {
    k <= |before| && k <= |later| && before[|before| - k..] == later[..k]
  }

  ghost predicate LargestOverlap(before: seq<MiotFrame>, later: seq<MiotFrame>, k: nat)
  {
    Overlaps(before, later, k) && forall j: nat :: j > k ==> !Overlaps(before, later, j)
  }

  // The loop of `collect_pushes`, given both snapshots.
  method CollectPushes(before: seq<MiotFrame>, later: seq<MiotFrame>) returns (pushes: seq<MiotFrame>)
    ensures exists k: nat :: LargestOverlap(before, later, k) && pushes == later[k..]
  {
    var overlap := if |before| < |later| then |before| else |later|;
    while overlap > 0 && before[|before| - overlap..] != later[..overlap]
      invariant 0 <= overlap <= |before| && overlap <= |later|
      invariant forall j: nat :: j > overlap ==> !Overlaps(before, later, j)
    {
      overlap := overlap - 1;
    }
    assert LargestOverlap(before, later, overlap);
    return later[overlap..];
  }

  // The history is the last 16 of all frames ever remembered.
  lemma {:induction false} HistoryIsLast(history: seq<MiotFrame>, added: seq<MiotFrame>)
    requires |history| <= MAX_CAPTURED_FRAMES
    ensures RememberAll(history, added) == Last(history + added, MAX_CAPTURED_FRAMES)
    decreases |added|
  {
    if added == [] {
      assert history + added == history;
    } else {
      var next := Remember(history, added[0]);
      HistoryIsLast(next, added[1..]);
      var all := history + added;
      if |history| < MAX_CAPTURED_FRAMES {
        assert next + added[1..] == all;
      } else {
        assert next + added[1..] == all[1..];
        assert |all| > MAX_CAPTURED_FRAMES;
        assert all[1..][|all| - 1 - MAX_CAPTURED_FRAMES..] == all[|all| - MAX_CAPTURED_FRAMES..];
      }
    }
  }

  // How much of the earlier snapshot is still there when `n` frames were added.
  function Remaining(before: nat, n: nat): nat
  {
    if before + n <= MAX_CAPTURED_FRAMES then before
    else if n <= MAX_CAPTURED_FRAMES then MAX_CAPTURED_FRAMES - n else 0
  }

  // Two cuts of a concatenation, as cuts of its parts.
  lemma CutsOfAppend(history: seq<MiotFrame>, added: seq<MiotFrame>, cut: nat)
    requires cut <= |history + added|
    ensures cut <= |history| ==> (history + added)[cut..] == history[cut..] + added
    ensures cut > |history| ==> (history + added)[cut..] == added[cut - |history|..]
  {
  }

  lemma RemainingOverlaps(history: seq<MiotFrame>, added: seq<MiotFrame>)
    requires |history| <= MAX_CAPTURED_FRAMES
    ensures var later := RememberAll(history, added);
            var m := Remaining(|history|, |added|);
            && Overlaps(history, later, m) && later[m..] == Last(added, MAX_CAPTURED_FRAMES)
  {
    HistoryIsLast(history, added);
    var all, later, m := history + added, RememberAll(history, added), Remaining(|history|, |added|);
    var cut := |all| - |later|;
    assert later == all[cut..];
    CutsOfAppend(history, added, cut);
    if |added| <= MAX_CAPTURED_FRAMES {
      assert cut == |history| - m;
      SplitAt(history[cut..], added);
    } else {
      assert m == 0 && history[|history|..] == [] && later[..0] == [] && later[0..] == later;
    }
  }

  ghost predicate Distinct(frames: seq<MiotFrame>)
  {
    forall i, j :: 0 <= i < j < |frames| ==> frames[i] != frames[j]
  }

  // Whatever the frames, only new ones are returned, and they are the newest.
  lemma PushesAreNew(history: seq<MiotFrame>, added: seq<MiotFrame>, k: nat)
    requires |history| <= MAX_CAPTURED_FRAMES && LargestOverlap(history, RememberAll(history, added), k)
    ensures Remaining(|history|, |added|) <= k
    ensures var later := RememberAll(history, added);
            exists n: nat :: n <= |added| && later[k..] == Last(added, n)
  {
    RemainingOverlaps(history, added);
    var later, m := RememberAll(history, added), Remaining(|history|, |added|);
    assert later[k..] == later[m..][k - m..];
    assert later[k..] == Last(added, |later| - k);
  }

  // In a run of frames, the `j` frames in front of position `at` occur again as the `j` frames with which
  // the last 16 begin.
  predicate Repeats(all: seq<MiotFrame>, at: nat, j: nat)
  {
    at <= |all| && Overlaps(all[..at], Last(all, MAX_CAPTURED_FRAMES), j)
  }

  lemma OverlapIsRepeat(history: seq<MiotFrame>, added: seq<MiotFrame>, j: nat)
    requires |history| <= MAX_CAPTURED_FRAMES
    ensures Overlaps(history, RememberAll(history, added), j) <==> Repeats(history + added, |history|, j)
  {
    HistoryIsLast(history, added);
    SplitAt(history, added);
  }

  // The newest 16 of the added frames come back if and only if the frames do not repeat themselves: no
  // stretch in front of the wait, longer than what is left of the old frames, occurs again at the beginning
  // of the last 16.
  lemma PushesExactIff(history: seq<MiotFrame>, added: seq<MiotFrame>, k: nat)
    requires |history| <= MAX_CAPTURED_FRAMES && LargestOverlap(history, RememberAll(history, added), k)
    ensures RememberAll(history, added)[k..] == Last(added, MAX_CAPTURED_FRAMES) <==>
              forall j: nat :: j > Remaining(|history|, |added|) ==> !Repeats(history + added, |history|, j)
  {
    RemainingOverlaps(history, added);
    PushesAreNew(history, added, k);
    var later, m := RememberAll(history, added), Remaining(|history|, |added|);
    OverlapIsRepeat(history, added, k);
    if later[k..] == Last(added, MAX_CAPTURED_FRAMES) {
      assert |later| - k == |later| - m;
      forall j: nat | j > m ensures !Repeats(history + added, |history|, j) {
        OverlapIsRepeat(history, added, j);
      }
    }
  }

  // While the history does not overflow, nothing is lost or repeated, even when equal frames arrive.
  lemma PushesExactWithoutOverflow(history: seq<MiotFrame>, added: seq<MiotFrame>, k: nat)
    requires |history| + |added| <= MAX_CAPTURED_FRAMES && LargestOverlap(history, RememberAll(history, added), k)
    ensures RememberAll(history, added)[k..] == added
  {
    PushesExactIff(history, added, k);
  }

  lemma RepeatEquatesFrames(all: seq<MiotFrame>, at: nat, j: nat)
    requires j > 0 && Repeats(all, at, j)
    ensures var cut := if |all| <= MAX_CAPTURED_FRAMES then 0 else |all| - MAX_CAPTURED_FRAMES;
            j <= at && cut < |all| && all[at - j] == all[cut]
  {
    var last := Last(all, MAX_CAPTURED_FRAMES);
    assert all[..at][at - j..][0] == last[..j][0];
  }

  lemma DistinctNeverRepeats(history: seq<MiotFrame>, added: seq<MiotFrame>, j: nat)
    requires |history| <= MAX_CAPTURED_FRAMES && Distinct(history + added) && j > Remaining(|history|, |added|)
    ensures !Repeats(history + added, |history|, j)
  {
    var all, at := history + added, |history|;
    if Repeats(all, at, j) {
      RepeatEquatesFrames(all, at, j);
    }
  }

  // When all frames differ, exactly the newest min(n, 16) of the n added frames come back.
  lemma PushesExactWhenDistinct(history: seq<MiotFrame>, added: seq<MiotFrame>, k: nat)
    requires |history| <= MAX_CAPTURED_FRAMES && LargestOverlap(history, RememberAll(history, added), k)
    requires Distinct(history + added)
    ensures RememberAll(history, added)[k..] == Last(added, MAX_CAPTURED_FRAMES)
  {
    forall j: nat | j > Remaining(|history|, |added|) ensures !Repeats(history + added, |history|, j) {
      DistinctNeverRepeats(history, added, j);
    }
    PushesExactIff(history, added, k);
  }

  lemma EqualFrames(frame: MiotFrame, a: seq<MiotFrame>, b: seq<MiotFrame>)
    requires |a| == |b|
    requires forall i :: 0 <= i < |a| ==> a[i] == frame
    requires forall i :: 0 <= i < |b| ==> b[i] == frame
    ensures a == b
  {
  }

  lemma UnchangedShowsNothing(history: seq<MiotFrame>, k: nat)
    requires LargestOverlap(history, history, k)
    ensures history[k..] == []
  {
    assert history[|history| - |history|..] == history == history[..|history|];
    assert Overlaps(history, history, |history|);
  }

  lemma RepeatedFramesLookUnchanged(frame: MiotFrame, history: seq<MiotFrame>, added: seq<MiotFrame>)
    requires |history| == MAX_CAPTURED_FRAMES
    requires forall i :: 0 <= i < |history + added| ==> (history + added)[i] == frame
    ensures RememberAll(history, added) == history
  {
    HistoryIsLast(history, added);
    var all := history + added;
    forall i | 0 <= i < |history| ensures history[i] == frame {
      assert history[i] == all[i];
    }
    CutsOfAppend(history, added, |added|);
    forall i | 0 <= i < |history| ensures all[|added|..][i] == frame {
      assert all[|added|..][i] == all[|added| + i];
    }
    EqualFrames(frame, history, all[|added|..]);
  }

  // With repeated frames, new ones are taken for old ones: any number of frames equal to the 16 before
  // them is not seen at all.
  lemma RepeatedFramesAreMissed(frame: MiotFrame, history: seq<MiotFrame>, added: seq<MiotFrame>, k: nat)
    requires |history| == MAX_CAPTURED_FRAMES && LargestOverlap(history, RememberAll(history, added), k)
    requires forall i :: 0 <= i < |history + added| ==> (history + added)[i] == frame
    ensures RememberAll(history, added)[k..] == []
  {
    RepeatedFramesLookUnchanged(frame, history, added);
    UnchangedShowsNothing(history, k);
  }
}
