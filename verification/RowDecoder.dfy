/** The offline decoder of plaintext rows, and where it agrees with the live parser. */
module RowDecoder {
  import opened Bytes
  import opened Properties

  // The value column: empty, a flag, a number, or everything that is left as hex digits.
  datatype Cell = Blank | Bool(on: bool) | Int(n: nat) | Hex(raw: bytes)

  datatype Row = Row(siid: byte, piid: nat, status: Option<nat>, typeByte: byte, marker: byte, cell: Cell, raw: bytes)

  // The cell, the raw bytes behind it, and the offset of the next entry.
  function DecodeValue(pt: bytes, offset: nat, typeByte: byte, marker: byte): (Cell, bytes, nat)
    requires offset <= |pt|
  {
    if typeByte == 4 then
      var raw := if offset + 4 <= |pt| then pt[offset..offset + 4] else pt[offset..];
      (Int(LittleEndian(raw)), raw, offset + 4)
    else if typeByte == 1 then
      if offset == |pt| then (Blank, [], offset) else
      (if marker == 0 then Bool(pt[offset] != 0) else Int(pt[offset] as nat), [pt[offset]], offset + 1)
    else (Hex(pt[offset..]), pt[offset..], |pt|)
  }

  function Prefix(statusless: bool): nat { if statusless then 5 else 7 }

  function ReadRow(pt: bytes, offset: nat, statusless: bool): Option<(Row, nat)>
  {
    if offset + Prefix(statusless) > |pt| then None else
    var at := offset + Prefix(statusless);
    var (cell, raw, next) := DecodeValue(pt, at, pt[at - 2], pt[at - 1]);
    var status := if statusless then None else Some(U16(pt, offset + 3));
    Some((Row(pt[offset], U16(pt, offset + 1), status, pt[at - 2], pt[at - 1], cell, raw), next))
  }

  function Rows(pt: bytes, offset: nat, count: nat, statusless: bool): seq<Row>
    decreases count
  {
    if count == 0 then [] else
    match ReadRow(pt, offset, statusless)
    case None => []
    case Some((row, next)) => [row] + Rows(pt, next, count - 1, statusless)
  }

  // The body of the loop: three bounds checks, then a row.
  method DecodeRow(pt: bytes, offset: nat, statusless: bool) returns (r: Option<(Row, nat)>)
    ensures r == ReadRow(pt, offset, statusless)
  {
    if offset + 5 > |pt| {
      return None;
    }
    var status := None;
    var typeOffset := offset + 3;
    if !statusless {
      typeOffset := offset + 5;
    }
    if typeOffset + 2 > |pt| {
      return None;
    }
    if !statusless {
      status := Some(U16(pt, offset + 3));
    }
    var typeByte, marker := pt[typeOffset], pt[typeOffset + 1];
    var (cell, raw, next) := DecodeValue(pt, typeOffset + 2, typeByte, marker);
    return Some((Row(pt[offset], U16(pt, offset + 1), status, typeByte, marker, cell, raw), next));
  }

  lemma NextRow(pt: bytes, offset: nat, count: nat, statusless: bool, rows: seq<Row>)
    requires count > 0
    ensures rows + Rows(pt, offset, count, statusless) ==
      match ReadRow(pt, offset, statusless)
      case None => rows
      case Some((row, next)) => (rows + [row]) + Rows(pt, next, count - 1, statusless)
  {
    if ReadRow(pt, offset, statusless).Some? {
      var (row, next) := ReadRow(pt, offset, statusless).value;
      AppendAssociates(rows, [row], Rows(pt, next, count - 1, statusless));
    }
  }

  // `_decode_property_values`; no row at all means that the caller shows a bare row.
  method DecodePropertyValues(pt: bytes, statusless: bool) returns (rows: seq<Row>)
    requires |pt| >= 6
    ensures rows == Rows(pt, 6, pt[5] as nat, statusless)
  {
    rows := [];
    var count := pt[5] as nat;
    var offset := 6;
    for n: nat := 0 to count
      invariant Rows(pt, 6, count, statusless) == rows + Rows(pt, offset, count - n, statusless)
    {
      NextRow(pt, offset, count - n, statusless, rows);
      var r := DecodeRow(pt, offset, statusless);
      if r.None? {
        return;
      }
      rows := rows + [r.value.0];
      offset := r.value.1;
    }
  }

  // A row shows a parsed entry.
  predicate Shows(row: Row, entry: PropertyValue, includesStatus: bool)
  {
    && row.siid == entry.siid && row.piid == entry.piid && row.typeByte == entry.typeByte && row.marker == entry.marker
    && row.status == (if includesStatus then Some(entry.status) else None)
    && row.cell == CellFor(entry.value)
  }

  function CellFor(value: Value): Cell
  {
    match value
    case Flag(on) => Bool(on)
    case Number(n) => Int(n)
  }

  predicate ShowAll(rows: seq<Row>, entries: seq<PropertyValue>, includesStatus: bool)
  {
    |rows| == |entries| &&
    (rows == [] || (Shows(rows[0], entries[0], includesStatus) && ShowAll(rows[1..], entries[1..], includesStatus)))
  }

  predicate ByteOrWord(entry: PropertyValue)
  {
    entry.typeByte in {1, 4}
  }

  lemma OneByte(raw: bytes)
    requires |raw| == 1
    ensures LittleEndian(raw) == raw[0] as nat
  {
    assert raw[1..] == [];
  }

  lemma CellShows(pt: bytes, at: nat, typeByte: byte, marker: byte)
    requires ValueSize(typeByte).Some? && at + ValueSize(typeByte).value <= |pt|
    ensures var size := ValueSize(typeByte).value;
            var (cell, _, next) := DecodeValue(pt, at, typeByte, marker);
            && (cell == CellFor(ValueOf(typeByte, marker, pt[at..at + size])) <==> typeByte in {1, 4})
            && (typeByte in {1, 4} ==> next == at + size)
  {
    if typeByte == 1 {
      OneByte(pt[at..at + 1]);
    }
  }

  lemma FirstRow(pt: bytes, offset: nat, count: nat, includesStatus: bool)
    requires count > 0 && ReadEntry(pt, offset, includesStatus).Ok?
    ensures var (entry, next) := ReadEntry(pt, offset, includesStatus).value;
            var rows := Rows(pt, offset, count, !includesStatus);
            && rows != []
            && (Shows(rows[0], entry, includesStatus) <==> ByteOrWord(entry))
            && (ByteOrWord(entry) ==> rows[1..] == Rows(pt, next, count - 1, !includesStatus))
  {
    var (entry, next) := ReadEntry(pt, offset, includesStatus).value;
    CellShows(pt, offset + Prefix(!includesStatus), entry.typeByte, entry.marker);
  }

  lemma OneInFront(entry: PropertyValue, rest: seq<PropertyValue>)
    ensures ([entry] + rest)[1..] == rest
    ensures (forall e <- [entry] + rest :: ByteOrWord(e)) <==> ByteOrWord(entry) && forall e <- rest :: ByteOrWord(e)
  {
    assert forall e <- rest :: e in [entry] + rest;
    assert entry in [entry] + rest;
  }

  lemma {:induction false} RowsShowFrom(pt: bytes, offset: nat, count: nat, includesStatus: bool)
    requires Entries(pt, offset, count, includesStatus).Ok?
    ensures var entries := Entries(pt, offset, count, includesStatus).value;
            ShowAll(Rows(pt, offset, count, !includesStatus), entries, includesStatus)
            <==> forall e <- entries :: ByteOrWord(e)
    decreases count
  {
    if count > 0 {
      var (entry, next) := ReadEntry(pt, offset, includesStatus).value;
      var rest := Entries(pt, next, count - 1, includesStatus).value;
      FirstRow(pt, offset, count, includesStatus);
      OneInFront(entry, rest);
      if ByteOrWord(entry) {
        RowsShowFrom(pt, next, count - 1, includesStatus);
      }
    }
  }

  // On every payload that the live parser accepts, the offline rows show the same entries exactly when
  // no entry has the two-byte type, which the offline decoder does not know.
  lemma ResponseRowsAgreeIff(pt: bytes)
    requires ParseResponse(pt).Ok?
    ensures ShowAll(Rows(pt, 6, pt[5] as nat, false), ParseResponse(pt).value, true)
       <==> forall e <- ParseResponse(pt).value :: ByteOrWord(e)
  {
    RowsShowFrom(pt, 6, pt[5] as nat, true);
  }

  lemma NotificationRowsAgreeIff(pt: bytes)
    requires ParseNotification(pt).Ok?
    ensures ShowAll(Rows(pt, 6, pt[5] as nat, true), ParseNotification(pt).value, false)
       <==> forall e <- ParseNotification(pt).value :: ByteOrWord(e)
  {
    RowsShowFrom(pt, 6, pt[5] as nat, false);
  }

  // An encoded set request shows as one row with what was asked for.
  lemma SetRequestRow(sequence: int, siid: int, piid: int, value: Setting, u32: bool)
    requires SetRequest(sequence, siid, piid, value, u32).Ok?
    ensures var pt := SetRequest(sequence, siid, piid, value, u32).value;
            && |pt| >= 6 && U16(pt, 2) == sequence
            && ShowAll(Rows(pt, 6, pt[5] as nat, true), [Requested(siid as byte, piid, value, u32)], false)
  {
    SetRequestRoundTrip(sequence, siid, piid, value, u32);
    var pt := SetRequest(sequence, siid, piid, value, u32).value;
    RowsShowFrom(pt, 6, pt[5] as nat, false);
  }

  // ----------------------------------------------------------- get requests

  function GetRows(pt: bytes, offset: nat, count: nat): seq<(int, int)>
    decreases count
  {
    if count == 0 || offset + 3 > |pt| then [] else
    [(pt[offset] as int, U16(pt, offset + 1))] + GetRows(pt, offset + 3, count - 1)
  }

  method DecodeGetRequest(pt: bytes) returns (rows: seq<(int, int)>)
    requires |pt| >= 6
    ensures rows == GetRows(pt, 6, pt[5] as nat)
  {
    rows := [];
    var count := pt[5] as nat;
    var offset := 6;
    for n: nat := 0 to count
      invariant GetRows(pt, 6, count) == rows + GetRows(pt, offset, count - n)
    {
      if offset + 3 > |pt| {
        break;
      }
      var row := (pt[offset] as int, U16(pt, offset + 1) as int);
      AppendAssociates(rows, [row], GetRows(pt, offset + 3, count - n - 1));
      rows := rows + [row];
      offset := offset + 3;
    }
    assert rows + [] == rows;
  }

  lemma {:induction false} TuplesReadBack(pt: bytes, offset: nat, tuples: seq<(int, int)>)
    requires offset <= |pt| && TupleBytes(tuples).Ok? && pt[offset..] == TupleBytes(tuples).value
    ensures GetRows(pt, offset, |tuples|) == tuples
    decreases |tuples|
  {
    if tuples != [] {
      var (siid, piid) := tuples[0];
      var body, rest := pt[offset..], TupleBytes(tuples[1..]).value;
      assert body == ([siid as byte] + Le16(piid)) + rest;
      assert body[1..3] == Le16(piid) && U16(body, 1) == U16(Le16(piid), 0);
      assert pt[offset] == body[0] && pt[offset + 1] == body[1] && pt[offset + 2] == body[2];
      assert pt[offset + 3..] == body[3..] == rest;
      TuplesReadBack(pt, offset + 3, tuples[1..]);
      assert tuples == [tuples[0]] + tuples[1..];
    }
  }

  lemma {:induction false} TupleBytesLength(tuples: seq<(int, int)>)
    requires TupleBytes(tuples).Ok?
    ensures |TupleBytes(tuples).value| == 3 * |tuples|
  {
    if tuples != [] {
      TupleBytesLength(tuples[1..]);
    }
  }

  // An encoded get request carries flag 02 and the count, shows exactly the properties that were asked for, in
  // order, and holds nothing else.
  lemma GetRequestRoundTrip(sequence: int, tuples: seq<(int, int)>)
    requires GetRequest(sequence, tuples).Ok?
    ensures var pt := GetRequest(sequence, tuples).value;
            && |pt| == 6 + 3 * |tuples| && pt[..2] == [0x33, 0x20] && U16(pt, 2) == sequence
            && pt[4] == 0x02 && pt[5] as nat == |tuples|
            && GetRows(pt, 6, pt[5] as nat) == tuples
  {
    var pt := GetRequest(sequence, tuples).value;
    assert pt[2..4] == Le16(sequence) && pt[6..] == TupleBytes(tuples).value;
    TupleBytesLength(tuples);
    TuplesReadBack(pt, 6, tuples);
  }

  // A get request is encoded exactly when every number fits its field.
  lemma {:induction false} TupleBytesOkIff(tuples: seq<(int, int)>)
    ensures TupleBytes(tuples).Ok? <==> forall t <- tuples :: 0 <= t.0 < 256 && 0 <= t.1 < 0x10000
  {
    if tuples != [] {
      TupleBytesOkIff(tuples[1..]);
      assert tuples == [tuples[0]] + tuples[1..];
    }
  }

  // ---------------------------------------------------------- set responses

  function SetRows(pt: bytes, offset: nat, count: nat): seq<SetResult>
    decreases count
  {
    if count == 0 || offset + 5 > |pt| then [] else
    [(pt[offset], U16(pt, offset + 1), U16(pt, offset + 3))] + SetRows(pt, offset + 5, count - 1)
  }

  method DecodeSetResponse(pt: bytes) returns (rows: seq<SetResult>)
    requires |pt| >= 6
    ensures rows == SetRows(pt, 6, pt[5] as nat)
  {
    rows := [];
    var count := pt[5] as nat;
    var offset := 6;
    for n: nat := 0 to count
      invariant SetRows(pt, 6, count) == rows + SetRows(pt, offset, count - n)
    {
      if offset + 5 > |pt| {
        break;
      }
      var row := (pt[offset], U16(pt, offset + 1), U16(pt, offset + 3));
      AppendAssociates(rows, [row], SetRows(pt, offset + 5, count - n - 1));
      rows := rows + [row];
      offset := offset + 5;
    }
    assert rows + [] == rows;
  }

  // The offline rows are the results that the live parser accepts.
  lemma {:induction false} SetRowsAgree(pt: bytes, offset: nat, count: nat)
    requires SetResults(pt, offset, count).Ok?
    ensures SetRows(pt, offset, count) == SetResults(pt, offset, count).value
    decreases count
  {
    if count > 0 {
      SetRowsAgree(pt, offset + 5, count - 1);
    }
  }
}
