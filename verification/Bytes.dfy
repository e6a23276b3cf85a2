/** Byte strings and the little-endian integers of the wire formats. */
module Bytes {
  datatype Option<+T> = None | Some(value: T)

  datatype Result<+T, +E> = Ok(value: T) | Err(error: E)

  // `out` put in front of a list that may not exist.
  function Prefixed<T, E>(out: seq<T>, r: Result<seq<T>, E>): (p: Result<seq<T>, E>)
    ensures out == [] ==> p == r
    ensures r == Ok([]) ==> p == Ok(out)
  {
    match r
    case Err(e) => Err(e)
    case Ok(rest) =>
      assert out == [] ==> out + rest == rest;
      assert rest == [] ==> out + rest == out;
      Ok(out + rest)
  }

  lemma PrefixedTwice<T, E>(a: seq<T>, b: seq<T>, r: Result<seq<T>, E>)
    ensures Prefixed(a, Prefixed(b, r)) == Prefixed(a + b, r)
  {
    if r.Ok? {
      assert a + (b + r.value) == (a + b) + r.value;
    }
  }

  lemma SliceOfSlice<T>(s: seq<T>, i: nat, j: nat, lo: nat, hi: nat)
    requires i <= j <= |s| && lo <= hi <= j - i
    ensures s[i..j][lo..hi] == s[i + lo..i + hi]
  {
    var a, b := s[i..j][lo..hi], s[i + lo..i + hi];
    forall k | 0 <= k < hi - lo ensures a[k] == b[k] {
      assert a[k] == s[i..j][lo + k];
    }
  }

  lemma SplitAt<T>(a: seq<T>, b: seq<T>)
    ensures (a + b)[..|a|] == a && (a + b)[|a|..] == b
  {
  }

  lemma SliceNext<T>(s: seq<T>, i: nat, j: nat)
    requires i <= j < |s|
    ensures s[i..j + 1] == s[i..j] + [s[j]]
  {
  }

  lemma AppendAssociates<T>(a: seq<T>, b: seq<T>, c: seq<T>)
    ensures (a + b) + c == a + (b + c)
  {
  }

  newtype byte = x: int | 0 <= x < 256

  type bytes = seq<byte>

  function U16(b: bytes, at: nat): (r: nat)
    requires at + 2 <= |b|
    ensures r < 0x10000
  {
    b[at] as nat + 256 * b[at + 1] as nat
  }

  function Le16(n: nat): (r: bytes)
    requires n < 0x10000
    ensures |r| == 2 && U16(r, 0) == n
  {
    [(n % 256) as byte, (n / 256) as byte]
  }

  function U32(b: bytes, at: nat): (r: nat)
    requires at + 4 <= |b|
    ensures r < 0x1_0000_0000
  {
    U16(b, at) + 0x10000 * U16(b, at + 2)
  }

  function Le32(n: nat): (r: bytes)
    requires n < 0x1_0000_0000
    ensures |r| == 4 && U32(r, 0) == n
  {
    var r := Le16(n % 0x10000) + Le16(n / 0x10000);
    assert r[2..] == Le16(n / 0x10000) && r[..2] == Le16(n % 0x10000);
    r
  }

  // Two bytes are the little-endian form of exactly one number.
  lemma Le16OfU16(b: bytes, at: nat)
    requires at + 2 <= |b|
    ensures Le16(U16(b, at)) == b[at..at + 2]
  {
  }

  function Flatten(parts: seq<bytes>): bytes
  {
    if parts == [] then [] else parts[0] + Flatten(parts[1..])
  }
}
