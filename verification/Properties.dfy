/** The typed property entries of MIOT requests, responses and events. */
module Properties {
  import opened Bytes

  datatype Value = Flag(on: bool) | Number(n: nat)

  datatype PropertyValue = PropertyValue(
    siid: byte, piid: nat, status: nat, typeByte: byte, marker: byte, value: Value)
  {
    function Key(): Key { (siid, piid) }
  }

  type Key = (byte, nat)

  type Props = map<Key, PropertyValue>

  datatype ParseError = BadHeader | TruncatedEntry(at: nat) | UnknownType(at: nat) | TruncatedValue(at: nat)

  // --------------------------------------------------------------- entries

  function ValueSize(typeByte: byte): Option<nat>
  {
    match typeByte
    case 1 => Some(1)
    case 2 => Some(2)
    case 4 => Some(4)
    case _ => None
  }

  function LittleEndian(raw: bytes): nat
  {
    if raw == [] then 0 else raw[0] as nat + 256 * LittleEndian(raw[1..])
  }

  function ValueOf(typeByte: byte, marker: byte, raw: bytes): Value
    requires raw != []
  {
    if typeByte == 1 && marker == 0 then Flag(raw[0] != 0) else Number(LittleEndian(raw))
  }

  function PrefixSize(includesStatus: bool): nat { if includesStatus then 7 else 5 }

  // The entry at offset `i`, and the offset behind it.
  function ReadEntry(pt: bytes, i: nat, includesStatus: bool): Result<(PropertyValue, nat), ParseError>
  {
    var prefix := PrefixSize(includesStatus);
    if i + prefix > |pt| then Err(TruncatedEntry(i)) else
    var typeByte := pt[i + prefix - 2];
    var marker := pt[i + prefix - 1];
    match ValueSize(typeByte)
    case None => Err(UnknownType(i))
    case Some(size) =>
      if i + prefix + size > |pt| then Err(TruncatedValue(i)) else
      var status := if includesStatus then U16(pt, i + 3) else 0;
      var value := ValueOf(typeByte, marker, pt[i + prefix..i + prefix + size]);
      Ok((PropertyValue(pt[i], U16(pt, i + 1), status, typeByte, marker, value), i + prefix + size))
  }

  function Entries(pt: bytes, i: nat, count: nat, includesStatus: bool): Result<seq<PropertyValue>, ParseError>
    decreases count
  {
    if count == 0 then Ok([]) else
    match ReadEntry(pt, i, includesStatus)
    case Err(e) => Err(e)
    case Ok((entry, next)) => Prefixed([entry], Entries(pt, next, count - 1, includesStatus))
  }

  // `_parse_property_entries`: one pass with a moving cursor.
  method ParsePropertyEntries(pt: bytes, count: nat, includesStatus: bool)
    returns (r: Result<seq<PropertyValue>, ParseError>)
    ensures r == Entries(pt, 6, count, includesStatus)
  {
    var i := 6;
    var out: seq<PropertyValue> := [];
    for n := 0 to count
      invariant Entries(pt, 6, count, includesStatus) == Prefixed(out, Entries(pt, i, count - n, includesStatus))
    {
      match ReadEntry(pt, i, includesStatus)
      case Err(e) =>
        return Err(e);
      case Ok((entry, next)) =>
        PrefixedTwice(out, [entry], Entries(pt, next, count - n - 1, includesStatus));
        out := out + [entry];
        i := next;
    }
    return Ok(out);
  }

  function ParseResponse(pt: bytes): Result<seq<PropertyValue>, ParseError>
  {
    if |pt| < 6 || pt[1] != 0x20 || pt[0] !in {0x93, 0x1c, 0x0e} then Err(BadHeader)
    else Entries(pt, 6, pt[5] as nat, true)
  }

  function ParseNotification(pt: bytes): Result<seq<PropertyValue>, ParseError>
  {
    if |pt| < 6 || pt[1] != 0x20 || (pt[0] == 0x0c && pt[4] != 0x04) || pt[0] !in {0x0f, 0x0c} then Err(BadHeader)
    else Entries(pt, 6, pt[5] as nat, false)
  }

  // ------------------------------------------ what the parser must recognise

  // `raw` is one encoding of `entry`. A flag has 255 encodings of true, every other value has one.
  ghost predicate Encodes(raw: bytes, entry: PropertyValue, includesStatus: bool)
  {
    var prefix := PrefixSize(includesStatus);
    && ValueSize(entry.typeByte).Some?
    && |raw| == prefix + ValueSize(entry.typeByte).value
    && raw[0] == entry.siid && U16(raw, 1) == entry.piid
    && entry.status == (if includesStatus then U16(raw, 3) else 0)
    && raw[prefix - 2] == entry.typeByte && raw[prefix - 1] == entry.marker
    && ValueOf(entry.typeByte, entry.marker, raw[prefix..]) == entry.value
  }

  // A value of one, two or four bytes, low byte first; one byte under marker 0 is a flag.
  predicate Means(typeByte: byte, marker: byte, digits: bytes, value: Value)
  {
    || (typeByte == 1 && |digits| == 1
        && value == if marker == 0 then Flag(digits[0] != 0) else Number(digits[0] as nat))
    || (typeByte == 2 && |digits| == 2 && value == Number(digits[0] as nat + 0x100 * digits[1] as nat))
    || (typeByte == 4 && |digits| == 4
        && value == Number(digits[0] as nat + 0x100 * digits[1] as nat + 0x1_0000 * digits[2] as nat
                           + 0x100_0000 * digits[3] as nat))
  }

  lemma MeansIff(typeByte: byte, marker: byte, digits: bytes, value: Value)
    ensures Means(typeByte, marker, digits, value)
            <==> ValueSize(typeByte) == Some(|digits|) && ValueOf(typeByte, marker, digits) == value
  {
    DigitsAdded(digits);
  }

  lemma DigitsAdded(digits: bytes)
    ensures |digits| == 1 ==> LittleEndian(digits) == digits[0] as nat
    ensures |digits| == 2 ==> LittleEndian(digits) == digits[0] as nat + 0x100 * digits[1] as nat
    ensures |digits| == 4 ==>
              LittleEndian(digits) == digits[0] as nat + 0x100 * digits[1] as nat + 0x1_0000 * digits[2] as nat
                                      + 0x100_0000 * digits[3] as nat
  {
    if |digits| == 4 {
      DigitsAdded(digits[2..]);
      assert digits[1..][1..] == digits[2..];
      assert LittleEndian(digits[1..]) == digits[1] as nat + 256 * LittleEndian(digits[2..]);
    } else if |digits| == 2 {
      DigitsAdded(digits[1..]);
    } else if |digits| == 1 {
      assert digits[1..] == [];
    }
  }

  // An encoding byte by byte: the property, the status of a response, type, marker, value, and nothing more.
  lemma EncodesIff(raw: bytes, entry: PropertyValue, includesStatus: bool)
    ensures var at := if includesStatus then 7 else 5;
            Encodes(raw, entry, includesStatus) <==>
              && |raw| > at && raw[0] == entry.siid && entry.piid == raw[1] as nat + 0x100 * raw[2] as nat
              && entry.status == (if includesStatus then raw[3] as nat + 0x100 * raw[4] as nat else 0)
              && raw[at - 2] == entry.typeByte && raw[at - 1] == entry.marker
              && Means(entry.typeByte, entry.marker, raw[at..], entry.value)
  {
    var at := if includesStatus then 7 else 5;
    if |raw| > at {
      MeansIff(entry.typeByte, entry.marker, raw[at..], entry.value);
    }
  }

  function EntrySize(entry: PropertyValue, includesStatus: bool): nat
  {
    PrefixSize(includesStatus) + match ValueSize(entry.typeByte) case Some(n) => n case None => 0
  }

  // `b` starts with encodings of the entries, one after the other.
  ghost predicate StartsWithEntries(b: bytes, entries: seq<PropertyValue>, includesStatus: bool)
  {
    entries == [] ||
    var size := EntrySize(entries[0], includesStatus);
    && size <= |b|
    && Encodes(b[..size], entries[0], includesStatus)
    && StartsWithEntries(b[size..], entries[1..], includesStatus)
  }

  lemma EntryInFront(raw: bytes, rest: bytes, entry: PropertyValue, entries: seq<PropertyValue>, includesStatus: bool)
    requires Encodes(raw, entry, includesStatus) && StartsWithEntries(rest, entries, includesStatus)
    ensures StartsWithEntries(raw + rest, [entry] + entries, includesStatus)
  {
    SplitAt(raw, rest);
    assert ([entry] + entries)[1..] == entries;
  }

  lemma ReadEntrySound(pt: bytes, i: nat, includesStatus: bool)
    requires i <= |pt| && ReadEntry(pt, i, includesStatus).Ok?
    ensures var (entry, next) := ReadEntry(pt, i, includesStatus).value;
            next == i + EntrySize(entry, includesStatus) <= |pt| && Encodes(pt[i..next], entry, includesStatus)
  {
    var (entry, next) := ReadEntry(pt, i, includesStatus).value;
    SliceOfSlice(pt, i, next, PrefixSize(includesStatus), next - i);
  }

  lemma ReadEntryComplete(pt: bytes, i: nat, entry: PropertyValue, includesStatus: bool)
    requires i + EntrySize(entry, includesStatus) <= |pt|
    requires Encodes(pt[i..i + EntrySize(entry, includesStatus)], entry, includesStatus)
    ensures ReadEntry(pt, i, includesStatus) == Ok((entry, i + EntrySize(entry, includesStatus)))
  {
    var next := i + EntrySize(entry, includesStatus);
    SliceOfSlice(pt, i, next, PrefixSize(includesStatus), next - i);
  }

  // Whatever the parser accepts, it read exactly `count` entries, all inside the payload.
  lemma {:induction false} EntriesSound(pt: bytes, i: nat, count: nat, includesStatus: bool)
    requires i <= |pt| && Entries(pt, i, count, includesStatus).Ok?
    ensures |Entries(pt, i, count, includesStatus).value| == count
    ensures StartsWithEntries(pt[i..], Entries(pt, i, count, includesStatus).value, includesStatus)
    decreases count
  {
    if count > 0 {
      ReadEntrySound(pt, i, includesStatus);
      var (entry, next) := ReadEntry(pt, i, includesStatus).value;
      EntriesSound(pt, next, count - 1, includesStatus);
      assert pt[i..][..next - i] == pt[i..next] && pt[i..][next - i..] == pt[next..];
      assert Entries(pt, i, count, includesStatus).value[1..] == Entries(pt, next, count - 1, includesStatus).value;
    }
  }

  lemma EntriesStep(pt: bytes, i: nat, count: nat, includesStatus: bool)
    requires count > 0 && ReadEntry(pt, i, includesStatus).Ok?
    ensures var (entry, next) := ReadEntry(pt, i, includesStatus).value;
            Entries(pt, i, count, includesStatus) == Prefixed([entry], Entries(pt, next, count - 1, includesStatus))
  {
  }

  lemma EntriesFirst(pt: bytes, i: nat, entries: seq<PropertyValue>, includesStatus: bool)
    requires i <= |pt| && entries != [] && StartsWithEntries(pt[i..], entries, includesStatus)
    ensures var next := i + EntrySize(entries[0], includesStatus);
            && ReadEntry(pt, i, includesStatus) == Ok((entries[0], next))
            && next <= |pt| && StartsWithEntries(pt[next..], entries[1..], includesStatus)
  {
    var next := i + EntrySize(entries[0], includesStatus);
    assert pt[i..][..next - i] == pt[i..next] && pt[i..][next - i..] == pt[next..];
    ReadEntryComplete(pt, i, entries[0], includesStatus);
  }

  // Every list of entries the payload holds is found.
  lemma {:induction false} EntriesComplete(pt: bytes, i: nat, entries: seq<PropertyValue>, includesStatus: bool)
    requires i <= |pt| && StartsWithEntries(pt[i..], entries, includesStatus)
    ensures Entries(pt, i, |entries|, includesStatus) == Ok(entries)
    decreases |entries|
  {
    if entries != [] {
      EntriesFirst(pt, i, entries, includesStatus);
      var next := i + EntrySize(entries[0], includesStatus);
      EntriesComplete(pt, next, entries[1..], includesStatus);
      EntriesStep(pt, i, |entries|, includesStatus);
      assert entries == [entries[0]] + entries[1..];
    }
  }

  // A response is accepted exactly when its body holds as many entries as its header counts.
  lemma ResponseAcceptedIff(pt: bytes, entries: seq<PropertyValue>)
    ensures ParseResponse(pt) == Ok(entries) <==>
      && |pt| >= 6 && pt[1] == 0x20 && pt[0] in {0x93, 0x1c, 0x0e}
      && |entries| == pt[5] as nat
      && StartsWithEntries(pt[6..], entries, true)
  {
    if |pt| >= 6 {
      if Entries(pt, 6, pt[5] as nat, true).Ok? {
        EntriesSound(pt, 6, pt[5] as nat, true);
      }
      if |entries| == pt[5] as nat && StartsWithEntries(pt[6..], entries, true) {
        EntriesComplete(pt, 6, entries, true);
      }
    }
  }

  lemma NotificationAcceptedIff(pt: bytes, entries: seq<PropertyValue>)
    ensures ParseNotification(pt) == Ok(entries) <==>
      && |pt| >= 6 && pt[1] == 0x20 && (pt[0] == 0x0f || (pt[0] == 0x0c && pt[4] == 0x04))
      && |entries| == pt[5] as nat
      && StartsWithEntries(pt[6..], entries, false)
  {
    if |pt| >= 6 {
      if Entries(pt, 6, pt[5] as nat, false).Ok? {
        EntriesSound(pt, 6, pt[5] as nat, false);
      }
      if |entries| == pt[5] as nat && StartsWithEntries(pt[6..], entries, false) {
        EntriesComplete(pt, 6, entries, false);
      }
    }
  }

  // ------------------------------------------------------------ serialising

  function ValueBytes(size: nat, value: Value): bytes
  {
    match value
    case Flag(on) => [if on then 1 else 0]
    case Number(n) => Digits(size, n)
  }

  function Digits(size: nat, n: nat): (r: bytes)
    ensures |r| == size
  {
    if size == 0 then [] else [(n % 256) as byte] + Digits(size - 1, n / 256)
  }

  function Power256(size: nat): nat
  {
    if size == 0 then 1 else 256 * Power256(size - 1)
  }

  lemma {:induction false} DigitsReadBack(size: nat, n: nat)
    requires n < Power256(size)
    ensures LittleEndian(Digits(size, n)) == n
  {
    if size > 0 {
      DigitsReadBack(size - 1, n / 256);
      assert Digits(size, n)[1..] == Digits(size - 1, n / 256);
    }
  }

  // The entries that have an encoding.
  predicate Encodable(entry: PropertyValue, includesStatus: bool)
  {
    && entry.piid < 0x10000
    && entry.status < 0x10000 && (!includesStatus ==> entry.status == 0)
    && ValueSize(entry.typeByte).Some?
    && if entry.typeByte == 1 && entry.marker == 0
       then entry.value.Flag?
       else entry.value.Number? && entry.value.n < Power256(ValueSize(entry.typeByte).value)
  }

  function SerializeEntry(entry: PropertyValue, includesStatus: bool): bytes
    requires Encodable(entry, includesStatus)
  {
    [entry.siid] + Le16(entry.piid) + (if includesStatus then Le16(entry.status) else [])
    + [entry.typeByte, entry.marker] + ValueBytes(ValueSize(entry.typeByte).value, entry.value)
  }

  function Serialize(entries: seq<PropertyValue>, includesStatus: bool): bytes
    requires forall e <- entries :: Encodable(e, includesStatus)
  {
    if entries == [] then [] else SerializeEntry(entries[0], includesStatus) + Serialize(entries[1..], includesStatus)
  }

  lemma SerializeEntryEncodes(entry: PropertyValue, includesStatus: bool)
    requires Encodable(entry, includesStatus)
    ensures Encodes(SerializeEntry(entry, includesStatus), entry, includesStatus)
  {
    var raw := SerializeEntry(entry, includesStatus);
    var size := ValueSize(entry.typeByte).value;
    var prefix := PrefixSize(includesStatus);
    assert raw[prefix..] == ValueBytes(size, entry.value);
    if entry.value.Number? {
      DigitsReadBack(size, entry.value.n);
    }
  }

  // Serialising and parsing is the identity, whatever follows the entries.
  lemma {:induction false} SerializedStartsWithEntries(entries: seq<PropertyValue>, tail: bytes, includesStatus: bool)
    requires forall e <- entries :: Encodable(e, includesStatus)
    ensures StartsWithEntries(Serialize(entries, includesStatus) + tail, entries, includesStatus)
  {
    if entries != [] {
      SerializeEntryEncodes(entries[0], includesStatus);
      SerializedStartsWithEntries(entries[1..], tail, includesStatus);
      SerializeFirst(entries, tail, includesStatus);
      EntryInFront(SerializeEntry(entries[0], includesStatus), Serialize(entries[1..], includesStatus) + tail,
                   entries[0], entries[1..], includesStatus);
      assert [entries[0]] + entries[1..] == entries;
    }
  }

  lemma SerializeFirst(entries: seq<PropertyValue>, tail: bytes, includesStatus: bool)
    requires entries != [] && forall e <- entries :: Encodable(e, includesStatus)
    ensures Serialize(entries, includesStatus) + tail
      == SerializeEntry(entries[0], includesStatus) + (Serialize(entries[1..], includesStatus) + tail)
  {
  }

  // Six header bytes in front of a body.
  function Header(opcode: byte, sequence: nat, flags: byte, count: byte): (r: bytes)
    requires sequence < 0x10000
    ensures |r| == 6 && r[0] == opcode && r[1] == 0x20 && U16(r, 2) == sequence && r[4] == flags && r[5] == count
  {
    [opcode, 0x20] + Le16(sequence) + [flags, count]
  }

  lemma ResponseRoundTrip(opcode: byte, sequence: nat, flags: byte, entries: seq<PropertyValue>, tail: bytes)
    requires opcode in {0x93, 0x1c, 0x0e} && sequence < 0x10000 && |entries| <= 255
    requires forall e <- entries :: Encodable(e, true)
    ensures ParseResponse(Header(opcode, sequence, flags, |entries| as byte) + (Serialize(entries, true) + tail))
      == Ok(entries)
  {
    var head, body := Header(opcode, sequence, flags, |entries| as byte), Serialize(entries, true) + tail;
    SerializedStartsWithEntries(entries, tail, true);
    SplitAt(head, body);
    ResponseAcceptedIff(head + body, entries);
  }

  lemma NotificationRoundTrip(opcode: byte, sequence: nat, flags: byte, entries: seq<PropertyValue>, tail: bytes)
    requires (opcode == 0x0f || (opcode == 0x0c && flags == 0x04)) && sequence < 0x10000 && |entries| <= 255
    requires forall e <- entries :: Encodable(e, false)
    ensures ParseNotification(Header(opcode, sequence, flags, |entries| as byte) + (Serialize(entries, false) + tail))
      == Ok(entries)
  {
    var head, body := Header(opcode, sequence, flags, |entries| as byte), Serialize(entries, false) + tail;
    SerializedStartsWithEntries(entries, tail, false);
    SplitAt(head, body);
    NotificationAcceptedIff(head + body, entries);
  }

  // A property event carries no status, so none of its entries is skipped.
  lemma {:induction false} EventEntriesHaveNoStatus(pt: bytes, i: nat, count: nat)
    requires Entries(pt, i, count, false).Ok?
    ensures forall e <- Entries(pt, i, count, false).value :: e.status == 0
    decreases count
  {
    if count > 0 {
      EventEntriesHaveNoStatus(pt, ReadEntry(pt, i, false).value.1, count - 1);
    }
  }

  // ----------------------------------------------------------- get requests

  datatype EncodeError = OutOfRange

  function TupleBytes(tuples: seq<(int, int)>): Result<bytes, EncodeError>
  {
    if tuples == [] then Ok([]) else
    var (siid, piid) := tuples[0];
    if !(0 <= siid < 256) || !(0 <= piid < 0x10000) then Err(OutOfRange) else
    Prefixed([siid as byte] + Le16(piid), TupleBytes(tuples[1..]))
  }

  function GetRequest(sequence: int, tuples: seq<(int, int)>): Result<bytes, EncodeError>
  {
    if !(0 <= sequence < 0x10000) || |tuples| > 255 then Err(OutOfRange) else
    Prefixed([0x33, 0x20] + Le16(sequence) + [0x02, |tuples| as byte], TupleBytes(tuples))
  }

  method EncodeGetProperties(sequence: int, tuples: seq<(int, int)>) returns (r: Result<bytes, EncodeError>)
    ensures r == GetRequest(sequence, tuples)
  {
    if !(0 <= sequence < 0x10000) || |tuples| > 255 {
      return Err(OutOfRange);
    }
    var head: bytes := [0x33, 0x20] + Le16(sequence) + [0x02, |tuples| as byte];
    var body: bytes := [];
    for k := 0 to |tuples|
      invariant TupleBytes(tuples) == Prefixed(body, TupleBytes(tuples[k..]))
    {
      var (siid, piid) := tuples[k];
      assert tuples[k..][1..] == tuples[k + 1..];
      if !(0 <= siid < 256) || !(0 <= piid < 0x10000) {
        return Err(OutOfRange);
      }
      PrefixedTwice(body, [siid as byte] + Le16(piid), TupleBytes(tuples[k + 1..]));
      body := body + ([siid as byte] + Le16(piid));
    }
    return Ok(head + body);
  }

  // ----------------------------------------------------------- set requests

  datatype Setting = Switch(on: bool) | Level(n: int)

  function SetRequest(sequence: int, siid: int, piid: int, value: Setting, u32: bool): Result<bytes, EncodeError>
  {
    if !(0 <= sequence < 0x10000) || !(0 <= siid < 256) || !(0 <= piid < 0x10000) then Err(OutOfRange) else
    var head := [0x0c, 0x20] + Le16(sequence) + [0x00, 0x01] + [siid as byte] + Le16(piid);
    match value
    case Switch(on) => Ok(head + [0x01, 0x00, if on then 1 else 0])
    case Level(n) =>
      if !u32 then Ok(head + [0x01, 0x10, (n % 256) as byte])
      else if 0 <= n < 0x1_0000_0000 then Ok(head + [0x04, 0x50] + Le32(n))
      else Err(OutOfRange)
  }

  // The entry a set request asks the charger to store: a byte-sized level is reduced mod 256.
  function Requested(siid: byte, piid: nat, value: Setting, u32: bool): PropertyValue
  {
    match value
    case Switch(on) => PropertyValue(siid, piid, 0, 1, 0, Flag(on))
    case Level(n) =>
      if u32 && n >= 0 then PropertyValue(siid, piid, 0, 4, 0x50, Number(n))
      else PropertyValue(siid, piid, 0, 1, 0x10, Number(n % 256))
  }

  lemma LittleEndianOfLe32(n: nat)
    requires n < 0x1_0000_0000
    ensures LittleEndian(Le32(n)) == n
  {
    var b := Le32(n);
    assert b[1..][1..] == b[2..] && b[2..][1..] == b[3..] && b[3..][1..] == [];
    assert LittleEndian(b[3..]) == b[3] as nat;
    assert LittleEndian(b[2..]) == b[2] as nat + 256 * b[3] as nat;
    assert LittleEndian(b[1..]) == b[1] as nat + 256 * LittleEndian(b[2..]);
  }

  // A set request has no flags and one entry; it decodes to what was asked for, nothing follows it, and it is
  // never mistaken for a property event.
  lemma SetRequestRoundTrip(sequence: int, siid: int, piid: int, value: Setting, u32: bool)
    requires SetRequest(sequence, siid, piid, value, u32).Ok?
    ensures var pt := SetRequest(sequence, siid, piid, value, u32).value;
            && |pt| == 6 + EntrySize(Requested(siid as byte, piid, value, u32), false)
            && pt[..2] == [0x0c, 0x20] && U16(pt, 2) == sequence && pt[4] == 0x00 && pt[5] == 1
            && Entries(pt, 6, pt[5] as nat, false) == Ok([Requested(siid as byte, piid, value, u32)])
            && ParseNotification(pt).Err?
  {
    var pt := SetRequest(sequence, siid, piid, value, u32).value;
    var entry := Requested(siid as byte, piid, value, u32);
    var raw := pt[6..];
    assert pt[2..4] == Le16(sequence) && pt[7..9] == Le16(piid);
    assert raw[0] == siid as byte && raw[1] == pt[7] && raw[2] == pt[8];
    match value {
      case Switch(on) =>
      case Level(n) =>
        if u32 {
          LittleEndianOfLe32(n);
          assert raw[5..] == Le32(n);
        } else {
          assert raw[5..] == [(n % 256) as byte];
          assert LittleEndian(raw[5..]) == n % 256;
        }
    }
    assert raw[..EntrySize(entry, false)] == raw;
    assert StartsWithEntries(raw, [entry], false);
    EntriesComplete(pt, 6, [entry], false);
  }

  // ---------------------------------------------------------- set responses

  datatype SetError = BadSetHeader | TruncatedSet | TrailingSet | WrongCount | WrongProperty | Refused(status: nat)

  type SetResult = (byte, nat, nat)

  function SetResults(pt: bytes, i: nat, count: nat): Result<seq<SetResult>, SetError>
    decreases count
  {
    if count == 0 then (if i == |pt| then Ok([]) else Err(TrailingSet)) else
    if i + 5 > |pt| then Err(TruncatedSet) else
    Prefixed([(pt[i], U16(pt, i + 1), U16(pt, i + 3))], SetResults(pt, i + 5, count - 1))
  }

  method ParseSetResponse(pt: bytes) returns (r: Result<seq<SetResult>, SetError>)
    ensures r == if |pt| < 6 || pt[..2] != [0x0b, 0x20] || pt[4] != 0x01 then Err(BadSetHeader)
      else SetResults(pt, 6, pt[5] as nat)
  {
    if |pt| < 6 || pt[..2] != [0x0b, 0x20] || pt[4] != 0x01 {
      return Err(BadSetHeader);
    }
    var i := 6;
    var out: seq<SetResult> := [];
    for n: nat := 0 to pt[5] as nat
      invariant i == 6 + 5 * n
      invariant SetResults(pt, 6, pt[5] as nat) == Prefixed(out, SetResults(pt, i, pt[5] as nat - n))
    {
      if i + 5 > |pt| {
        return Err(TruncatedSet);
      }
      var one := (pt[i], U16(pt, i + 1), U16(pt, i + 3));
      PrefixedTwice(out, [one], SetResults(pt, i + 5, pt[5] as nat - n - 1));
      out := out + [one];
      i := i + 5;
    }
    if i != |pt| {
      return Err(TrailingSet);
    }
    return Ok(out);
  }

  // The verdict of `set_property` on the charger's answer.
  function SetVerdict(pt: bytes, siid: byte, piid: nat): Result<(), SetError>
  {
    if |pt| < 6 || pt[..2] != [0x0b, 0x20] || pt[4] != 0x01 then Err(BadSetHeader) else
    match SetResults(pt, 6, pt[5] as nat)
    case Err(e) => Err(e)
    case Ok(results) =>
      if |results| != 1 then Err(WrongCount)
      else if (results[0].0, results[0].1) != (siid, piid) then Err(WrongProperty)
      else if results[0].2 != 0 then Err(Refused(results[0].2))
      else Ok(())
  }

  lemma {:induction false} SetResultsLength(pt: bytes, i: nat, count: nat)
    requires SetResults(pt, i, count).Ok?
    ensures |SetResults(pt, i, count).value| == count && |pt| == i + 5 * count
    decreases count
  {
    if count > 0 {
      SetResultsLength(pt, i + 5, count - 1);
    }
  }

  // A write counts as done only for one byte string per sequence: one result, this property, status 0.
  lemma SetAcceptedIff(pt: bytes, siid: byte, piid: nat)
    requires piid < 0x10000
    ensures SetVerdict(pt, siid, piid).Ok? <==>
      |pt| == 11 && pt == [0x0b, 0x20] + pt[2..4] + [0x01, 0x01, siid] + Le16(piid) + [0x00, 0x00]
  {
    if SetVerdict(pt, siid, piid).Ok? {
      SetResultsLength(pt, 6, pt[5] as nat);
      Le16OfU16(pt, 7);
      assert pt[7..9] == Le16(piid);
      assert pt == pt[..2] + pt[2..4] + [pt[4], pt[5], pt[6]] + pt[7..9] + [pt[9], pt[10]];
    }
    if |pt| == 11 && pt == [0x0b, 0x20] + pt[2..4] + [0x01, 0x01, siid] + Le16(piid) + [0x00, 0x00] {
      assert pt[7..9] == Le16(piid) && U16(pt, 7) == U16(Le16(piid), 0);
      assert pt[..2] == [0x0b, 0x20];
      assert SetResults(pt, 11, 0) == Ok([]);
      assert SetResults(pt, 6, 1).Ok? && SetResults(pt, 6, 1).value == [(siid, piid, 0)] + [];
    }
  }

  // ------------------------------------------------------------------ tables

  // Later entries win, as in the dictionary the poller builds and in `dict.update`.
  function Overlay(props: Props, entries: seq<PropertyValue>): Props
    decreases |entries|
  {
    if entries == [] then props
    else Overlay(props, entries[..|entries| - 1])[entries[|entries| - 1].Key() := entries[|entries| - 1]]
  }

  lemma {:induction false} OverlayAppend(props: Props, a: seq<PropertyValue>, b: seq<PropertyValue>)
    ensures Overlay(props, a + b) == Overlay(Overlay(props, a), b)
    decreases |b|
  {
    if b == [] {
      assert a + b == a;
    } else {
      OverlayAppend(props, a, b[..|b| - 1]);
      assert (a + b)[..|a + b| - 1] == a + b[..|b| - 1];
    }
  }

  // Merging a table built from nothing is the same as applying its entries one by one.
  lemma {:induction false} OverlayMerge(props: Props, entries: seq<PropertyValue>)
    ensures props + Overlay(map[], entries) == Overlay(props, entries)
    decreases |entries|
  {
    if entries != [] {
      OverlayMerge(props, entries[..|entries| - 1]);
    }
  }
}
