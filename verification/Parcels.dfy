/**
 * Splitting a payload into numbered parcels, and putting received parcels back in order.
 * The login channel, the MIOT session and the offline decoder all share this scheme.
 */
module Parcels {
  import opened Bytes

  const PARCEL_CHUNK_SIZE := 18

  // ------------------------------------------------------------ splitting

  function Chunk(data: bytes, size: nat): seq<bytes>
    requires size > 0
  {
    if data == [] then [[]] else Slices(data, size)
  }

  function Slices(data: bytes, size: nat): seq<bytes>
    requires size > 0
  {
    if data == [] then []
    else if |data| <= size then [data]
    else [data[..size]] + Slices(data[size..], size)
  }

  // The slices hold the data in order, none is empty or too long, and all but the last are full.
  lemma {:induction false} SlicesShape(data: bytes, size: nat)
    requires size > 0
    ensures Flatten(Slices(data, size)) == data
    ensures forall i :: 0 <= i < |Slices(data, size)| ==> 0 < |Slices(data, size)[i]| <= size
    ensures data != [] ==> 0 < |Slices(data, size)| && (|Slices(data, size)| - 1) * size < |data|
  {
    if data == [] {
    } else if |data| <= size {
      assert Flatten([data]) == data + Flatten([]);
    } else {
      SlicesShape(data[size..], size);
      assert Slices(data, size)[1..] == Slices(data[size..], size);
      var n := |Slices(data[size..], size)|;
      assert n * size == (n - 1) * size + size;
    }
  }

  lemma {:induction false} FlattenBound(parts: seq<bytes>, size: nat)
    requires forall i :: 0 <= i < |parts| ==> |parts[i]| <= size
    ensures |Flatten(parts)| <= |parts| * size
  {
    if parts != [] {
      FlattenBound(parts[1..], size);
      assert |parts| * size == size + (|parts| - 1) * size;
    }
  }

  // The chunks hold the data, and no other split into parts of at most `size` bytes is shorter:
  // the announced count is the minimum the firmware insists on.
  lemma ChunkIsMinimalSplit(data: bytes, size: nat, other: seq<bytes>)
    requires size > 0
    requires other != [] && Flatten(other) == data
    requires forall i :: 0 <= i < |other| ==> |other[i]| <= size
    ensures Flatten(Chunk(data, size)) == data
    ensures 1 <= |Chunk(data, size)| <= |other|
    ensures forall i :: 0 <= i < |Chunk(data, size)| ==> |Chunk(data, size)[i]| <= size
  {
    SlicesShape(data, size);
    if data != [] {
      FlattenBound(other, size);
      if |other| < |Slices(data, size)| {
        MultiplesMonotone(|other|, |Slices(data, size)| - 1, size);
        assert false;
      }
    }
  }

  lemma MultiplesMonotone(k: nat, m: nat, size: nat)
    requires k <= m
    ensures k * size <= m * size
  {
    assert m * size == k * size + (m - k) * size;
  }

  // ----------------------------------------------------------- collecting

  type Parts = map<nat, bytes>

  // The concatenation of the collected parcels with indices lo..hi, in index order.
  function Join(parts: Parts, lo: nat, hi: nat): bytes
    decreases hi + 1 - lo
  {
    if lo > hi then []
    else (if lo in parts then parts[lo] else []) + Join(parts, lo + 1, hi)
  }

  ghost predicate InRange(parts: Parts, count: nat)
  {
    forall i <- parts :: 1 <= i <= count
  }

  ghost function Indices(count: nat): set<nat>
  {
    if count == 0 then {} else Indices(count - 1) + {count}
  }

  lemma {:induction false} IndicesSize(count: nat)
    ensures |Indices(count)| == count
    ensures forall i: nat :: i in Indices(count) <==> 1 <= i <= count
  {
    if count > 0 {
      IndicesSize(count - 1);
    }
  }

  // As many distinct indices in 1..count as there are numbers there: no index is missing.
  lemma CollectedAll(parts: Parts, count: nat)
    requires InRange(parts, count) && |parts| == count
    ensures forall i :: 1 <= i <= count ==> i in parts
  {
    forall i | 1 <= i <= count ensures i in parts {
      if i !in parts {
        FewerWhenMissing(parts, count, i);
        assert false;
      }
    }
  }

  lemma {:induction false} SubsetSize(a: set<nat>, b: set<nat>)
    requires a <= b
    ensures |a| <= |b|
    decreases |a|
  {
    if a != {} {
      var x :| x in a;
      SubsetSize(a - {x}, b - {x});
    }
  }

  lemma FewerWhenMissing(parts: Parts, count: nat, missing: nat)
    requires InRange(parts, count) && 1 <= missing <= count && missing !in parts
    ensures |parts| < count
  {
    IndicesSize(count);
    SubsetSize(parts.Keys, Indices(count) - {missing});
    assert |parts.Keys| == |parts|;
  }

  ghost predicate HoldsChunks(parts: Parts, chunks: seq<bytes>)
  {
    forall i <- parts :: 1 <= i <= |chunks| && parts[i] == chunks[i - 1]
  }

  lemma {:induction false} JoinSuffix(parts: Parts, chunks: seq<bytes>, lo: nat)
    requires HoldsChunks(parts, chunks) && 1 <= lo <= |chunks| + 1
    requires forall i :: 1 <= i <= |chunks| ==> i in parts
    ensures Join(parts, lo, |chunks|) == Flatten(chunks[lo - 1..])
    decreases |chunks| + 1 - lo
  {
    if lo <= |chunks| {
      JoinSuffix(parts, chunks, lo + 1);
      assert chunks[lo - 1..][1..] == chunks[lo..];
    }
  }

  // Once as many indices were collected as were announced, joining them gives the message back.
  lemma JoinComplete(parts: Parts, chunks: seq<bytes>)
    requires HoldsChunks(parts, chunks) && |parts| == |chunks|
    ensures Join(parts, 1, |chunks|) == Flatten(chunks)
    ensures forall i :: 1 <= i <= |chunks| ==> i in parts
  {
    CollectedAll(parts, |chunks|);
    JoinSuffix(parts, chunks, 1);
    assert chunks[0..] == chunks;
  }
}
