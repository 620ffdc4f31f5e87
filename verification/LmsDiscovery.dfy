/** Reading the response to an LMS discovery broadcast (src/adapters/lms_discovery.rs): a marker byte and
    records of a four-byte tag, a length byte and a value. */
module LmsDiscovery {
  import opened Zones

  type byte = x: int | 0 <= x < 256

  datatype Field = Ipad | Name | Json | Uuid | Vers | UnknownField

  function FieldOf(tag: seq<byte>): Field {
    if tag == [0x49, 0x50, 0x41, 0x44] then Ipad
    else if tag == [0x4E, 0x41, 0x4D, 0x45] then Name
    else if tag == [0x4A, 0x53, 0x4F, 0x4E] then Json
    else if tag == [0x55, 0x55, 0x49, 0x44] then Uuid
    else if tag == [0x56, 0x45, 0x52, 0x53] then Vers
    else UnknownField
  }

  datatype Record = Record(tag: seq<byte>, value: seq<byte>) {
    predicate Fits() {
      |tag| == 4 && |value| < 256
    }
  }

  datatype DiscoveredLms = DiscoveredLms(
    host: string,
    jsonPort: nat,
    name: string,
    uuid: string,
    version: Option<string>)

  // ---------------------------------------------------------------------------
  // Records and bytes
  // ---------------------------------------------------------------------------

  predicate AllFit(records: seq<Record>) {
    forall r :: r in records ==> r.Fits()
  }

  function Encode(records: seq<Record>): seq<byte>
    requires AllFit(records)
  {
    if records == [] then []
    else
      assert records[0].Fits();
      var length: byte := |records[0].value|;
      records[0].tag + [length] + records[0].value + Encode(records[1..])
  }

  /** The size of the record these bytes begin with. */
  function RecordSize(bytes: seq<byte>): nat
    requires |bytes| >= 5
  {
    5 + (bytes[4] as int)
  }

  /** Bytes that do not hold one whole record: too few for a tag and a length, or for the value. */
  predicate Incomplete(bytes: seq<byte>) {
    |bytes| < 5 || |bytes| < RecordSize(bytes)
  }

  /** The whole records at the start of the bytes. */
  function RecordsIn(bytes: seq<byte>): (records: seq<Record>)
    ensures AllFit(records)
    decreases |bytes|
  {
    if Incomplete(bytes) then []
    else [Record(bytes[..4], bytes[5..RecordSize(bytes)])] + RecordsIn(bytes[RecordSize(bytes)..])
  }

  lemma {:induction false} FirstRecord(r: Record, rest: seq<byte>)
    requires r.Fits()
    ensures var length: byte := |r.value|;
            RecordsIn(r.tag + [length] + r.value + rest) == [r] + RecordsIn(rest)
  {
    var length: byte := |r.value|;
    var bytes := r.tag + [length] + r.value + rest;
    assert bytes[..4] == r.tag && bytes[4] == length;
    assert bytes[5..5 + |r.value|] == r.value && bytes[5 + |r.value|..] == rest;
  }

  /** However the records go on, they are read back exactly, and what is cut off is ignored. */
  lemma {:induction false} RecordsAreReadBack(records: seq<Record>, tail: seq<byte>)
    requires AllFit(records) && Incomplete(tail)
    ensures RecordsIn(Encode(records) + tail) == records
  {
    hide Encode, RecordsIn;
    if records == [] {
      EncodeNothing();
      NoMoreRecords(tail);
      assert [] + tail == tail;
    } else {
      var r, rest := records[0], records[1..];
      assert r.Fits() && records == [r] + rest;
      RecordsAreReadBack(rest, tail);
      EncodeFirst(r, rest);
      FirstRecord(r, Encode(rest) + tail);
      var length: byte := |r.value|;
      Regroup(r.tag + [length] + r.value, Encode(rest), tail);
    }
  }

  lemma {:induction false} Regroup(a: seq<byte>, b: seq<byte>, c: seq<byte>)
    ensures (a + b) + c == a + (b + c)
  {
  }

  lemma {:induction false} NoMoreRecords(bytes: seq<byte>)
    requires Incomplete(bytes)
    ensures RecordsIn(bytes) == []
  {
  }

  lemma {:induction false} EncodeFirst(r: Record, records: seq<Record>)
    requires r.Fits() && AllFit(records)
    ensures var length: byte := |r.value|;
            Encode([r] + records) == r.tag + [length] + r.value + Encode(records)
  {
    assert ([r] + records)[1..] == records;
  }

  lemma {:induction false} Rejoin(bytes: seq<byte>)
    requires !Incomplete(bytes)
    ensures bytes == bytes[..4] + [bytes[4]] + bytes[5..RecordSize(bytes)] + bytes[RecordSize(bytes)..]
  {
  }

  /** Every byte string is some records followed by an incomplete rest. */
  lemma {:induction false} EveryInputDecomposes(bytes: seq<byte>) returns (tail: seq<byte>)
    ensures Incomplete(tail) && Encode(RecordsIn(bytes)) + tail == bytes
    decreases |bytes|
  {
    hide Encode;
    if Incomplete(bytes) {
      tail := bytes;
      EncodeNothing();
    } else {
      var n := RecordSize(bytes);
      var r := Record(bytes[..4], bytes[5..n]);
      tail := EveryInputDecomposes(bytes[n..]);
      EncodeFirst(r, RecordsIn(bytes[n..]));
      Rejoin(bytes);
    }
  }

  lemma {:induction false} EncodeNothing()
    ensures Encode([]) == []
  {
  }

  // ---------------------------------------------------------------------------
  // What the records say
  // ---------------------------------------------------------------------------

  /** The value of the last record of this field. */
  function LastValue(records: seq<Record>, field: Field): Option<seq<byte>> {
    if records == [] then None
    else
      var last := records[|records| - 1];
      if FieldOf(last.tag) == field then Some(last.value) else LastValue(records[..|records| - 1], field)
  }

  function Digit(c: char): Option<nat> {
    if '0' <= c <= '9' then Some((c as int) - ('0' as int)) else None
  }

  function Digits(s: string): (value: Option<nat>) {
    if s == [] then Some(0)
    else
      match (Digits(s[..|s| - 1]), Digit(s[|s| - 1]))
      case (Some(high), Some(low)) => Some(10 * high + low)
      case _ => None
  }

  /** A decimal port number: an optional plus sign and at least one digit, no more than 65535. */
  function ParsePort(s: string): Option<nat> {
    var digits := if s != [] && s[0] == '+' then s[1..] else s;
    if digits == [] then None
    else
      match Digits(digits)
      case Some(value) => if value <= 65535 then Some(value) else None
      case None => None
  }

  function Decimal(n: nat): string {
    var low := [(('0' as int) + n % 10) as char];
    if n < 10 then low else Decimal(n / 10) + low
  }

  lemma {:induction false} DigitsOfDecimal(n: nat)
    ensures Decimal(n) != [] && Decimal(n)[0] != '+'
    ensures Digits(Decimal(n)) == Some(n)
  {
    var s := Decimal(n);
    var c := (('0' as int) + n % 10) as char;
    if n < 10 {
      assert s[..0] == [];
    } else {
      DigitsOfDecimal(n / 10);
      assert s[..|s| - 1] == Decimal(n / 10) && s[|s| - 1] == c;
    }
  }

  /** Every port number written in decimal is read back; a number that is no port is refused. */
  lemma {:induction false} PortsAreReadBack(n: nat)
    ensures ParsePort(Decimal(n)) == if n <= 65535 then Some(n) else None
  {
    DigitsOfDecimal(n);
  }

  function Zeros(n: nat): string {
    seq(n, _ => '0')
  }

  lemma {:induction false} LeadingZeros(k: nat, t: string)
    ensures Digits(Zeros(k) + t) == Digits(t)
    decreases k + |t|
  {
    var s := Zeros(k) + t;
    if t != [] {
      LeadingZeros(k, t[..|t| - 1]);
      assert s[..|s| - 1] == Zeros(k) + t[..|t| - 1];
    } else if k > 0 {
      LeadingZeros(k - 1, []);
      assert s[..|s| - 1] == Zeros(k - 1) + [];
    }
  }

  lemma {:induction false} DigitsAreDecimal(s: string) returns (k: nat)
    requires s != [] && Digits(s).Some?
    ensures s == Zeros(k) + Decimal(Digits(s).value)
  {
    var high, c := s[..|s| - 1], s[|s| - 1];
    assert s == high + [c] && c == (('0' as int) + Digit(c).value) as char;
    k := 0;
    if high != [] {
      k := DigitsAreDecimal(high);
      if Digits(high) == Some(0) {
        assert Decimal(0) == "0" && Zeros(k) + "0" == Zeros(k + 1);
        k := k + 1;
      }
    }
  }

  /** What is read as port `n`: its decimal digits, after any number of zeros and at most one plus sign. */
  lemma {:induction false} PortExactly(s: string, n: nat)
    ensures ParsePort(s) == Some(n)
            <==> n <= 65535 && exists k: nat :: s == Zeros(k) + Decimal(n) || s == "+" + (Zeros(k) + Decimal(n))
  {
    hide Decimal, Digits;
    DigitsOfDecimal(n);
    var digits := if s != [] && s[0] == '+' then s[1..] else s;
    if ParsePort(s) == Some(n) {
      var k := DigitsAreDecimal(digits);
      assert s == digits || s == "+" + digits;
    }
    if k: nat :| s == Zeros(k) + Decimal(n) || s == "+" + (Zeros(k) + Decimal(n)) {
      LeadingZeros(k, Decimal(n));
      assert (Zeros(k) + Decimal(n))[0] != '+';
      assert digits == Zeros(k) + Decimal(n);
    }
  }

  const DEFAULT_JSON_PORT: nat := 9000

  function Text(value: Option<seq<byte>>, decode: seq<byte> -> string): Option<string> {
    match value
    case Some(bytes) => Some(decode(bytes))
    case None => None
  }

  /** The server some records describe, if they name one. */
  function Described(records: seq<Record>, source: string, decode: seq<byte> -> string): Option<DiscoveredLms> {
    var name := Text(LastValue(records, Name), decode).GetOr([]);
    if name == [] then None
    else Some(DiscoveredLms(
                Text(LastValue(records, Ipad), decode).GetOr(source),
                (match Text(LastValue(records, Json), decode)
                 case Some(port) => ParsePort(port).GetOr(DEFAULT_JSON_PORT)
                 case None => DEFAULT_JSON_PORT),
                name,
                Text(LastValue(records, Uuid), decode).GetOr([]),
                Text(LastValue(records, Vers), decode)))
  }

  predicate IsMarker(b: byte) {
    b == 0x45 || b == 0x65
  }

  function Response(data: seq<byte>, source: string, decode: seq<byte> -> string): Option<DiscoveredLms> {
    if data == [] || !IsMarker(data[0]) then None
    else Described(RecordsIn(data[1..]), source, decode)
  }

  function ByteOf(c: char): byte
    requires c < 128 as char
  {
    c as int
  }

  /** ASCII text as bytes. */
  function Ascii(text: string): (bytes: seq<byte>)
    requires forall c :: c in text ==> c < 128 as char
    ensures |bytes| == |text| && forall i :: 0 <= i < |text| ==> bytes[i] == text[i] as int
  {
    seq(|text|, i requires 0 <= i < |text| => assert text[i] in text; ByteOf(text[i]))
  }

  /** The fields by the text of their tags, and the markers by theirs. */
  lemma {:induction false} TagsAreText(tag: seq<byte>, b: byte)
    ensures FieldOf(tag) == Ipad <==> tag == Ascii("IPAD")
    ensures FieldOf(tag) == Name <==> tag == Ascii("NAME")
    ensures FieldOf(tag) == Json <==> tag == Ascii("JSON")
    ensures FieldOf(tag) == Uuid <==> tag == Ascii("UUID")
    ensures FieldOf(tag) == Vers <==> tag == Ascii("VERS")
    ensures IsMarker(b) <==> [b] == Ascii("E") || [b] == Ascii("e")
  {
    assert Ascii("IPAD") == [0x49, 0x50, 0x41, 0x44] && Ascii("NAME") == [0x4E, 0x41, 0x4D, 0x45];
    assert Ascii("JSON") == [0x4A, 0x53, 0x4F, 0x4E] && Ascii("UUID") == [0x55, 0x55, 0x49, 0x44];
    assert Ascii("VERS") == [0x56, 0x45, 0x52, 0x53];
    assert Ascii("E") == [0x45] && Ascii("e") == [0x65];
  }

  /** The records report this value under the tag: it is the last one there, or there is none. */
  ghost predicate Reports(records: seq<Record>, tag: seq<byte>, value: Option<seq<byte>>) {
    match value
    case None => forall i :: 0 <= i < |records| ==> records[i].tag != tag
    case Some(v) =>
      exists i :: 0 <= i < |records| && records[i] == Record(tag, v)
                  && forall j :: i < j < |records| ==> records[j].tag != tag
  }

  lemma {:induction false} LastValueExactly(records: seq<Record>, field: Field, tag: seq<byte>)
    requires forall r :: r in records ==> (FieldOf(r.tag) == field <==> r.tag == tag)
    ensures Reports(records, tag, LastValue(records, field))
  {
    hide FieldOf;
    if records != [] {
      var last, front := records[|records| - 1], records[..|records| - 1];
      assert last in records;
      if FieldOf(last.tag) == field {
        assert last == Record(tag, last.value);
      } else {
        LastValueExactly(front, field, tag);
      }
    }
  }

  lemma {:induction false} ReportsOne(records: seq<Record>, tag: seq<byte>, x: Option<seq<byte>>, y: Option<seq<byte>>)
    requires Reports(records, tag, x) && Reports(records, tag, y)
    ensures x == y
  {
  }

  /** What a response says of a server: its address, or else where the response came from; the port, 9000
      unless a readable one is given; its name, without which it is nobody; an empty identifier unless one is
      given; and a version only if one is given. */
  lemma {:induction false} DescribedExactly(records: seq<Record>, source: string, decode: seq<byte> -> string,
                                            ip: Option<seq<byte>>, name: Option<seq<byte>>, port: Option<seq<byte>>,
                                            uuid: Option<seq<byte>>, version: Option<seq<byte>>)
    requires Reports(records, Ascii("IPAD"), ip) && Reports(records, Ascii("NAME"), name)
    requires Reports(records, Ascii("JSON"), port) && Reports(records, Ascii("UUID"), uuid)
    requires Reports(records, Ascii("VERS"), version)
    ensures var server := Described(records, source, decode);
      && (server.None? <==> name.None? || decode(name.value) == "")
      && (server.Some? ==>
            var d := server.value;
            && d.name == decode(name.value)
            && d.host == (if ip.Some? then decode(ip.value) else source)
            && d.uuid == (if uuid.Some? then decode(uuid.value) else "")
            && (d.version.Some? <==> version.Some?) && (version.Some? ==> d.version.value == decode(version.value))
            && d.jsonPort == (if port.Some? && ParsePort(decode(port.value)).Some? then ParsePort(decode(port.value)).value
                              else 9000))
  {
    hide FieldOf, LastValue, ParsePort, Reports, Ascii;
    FieldReports(records, Ipad, Ascii("IPAD"), ip);
    FieldReports(records, Name, Ascii("NAME"), name);
    FieldReports(records, Json, Ascii("JSON"), port);
    FieldReports(records, Uuid, Ascii("UUID"), uuid);
    FieldReports(records, Vers, Ascii("VERS"), version);
  }

  lemma {:induction false} FieldReports(records: seq<Record>, field: Field, tag: seq<byte>, value: Option<seq<byte>>)
    requires tag == match field
                    case Ipad => Ascii("IPAD")
                    case Name => Ascii("NAME")
                    case Json => Ascii("JSON")
                    case Uuid => Ascii("UUID")
                    case Vers => Ascii("VERS")
                    case UnknownField => []
    requires field != UnknownField && Reports(records, tag, value)
    ensures LastValue(records, field) == value
  {
    hide FieldOf, LastValue, Reports, Ascii;
    forall r | r in records ensures FieldOf(r.tag) == field <==> r.tag == tag {
      TagsAreText(r.tag, 0);
    }
    LastValueExactly(records, field, tag);
    ReportsOne(records, tag, value, LastValue(records, field));
  }

  /** A response made of a marker, any records and any cut-off rest says what the records say: unknown
      fields and the rest change nothing, and of two records of one field the later counts. */
  lemma {:induction false} ResponseIsItsRecords(marker: byte, records: seq<Record>, tail: seq<byte>, source: string,
                                                decode: seq<byte> -> string)
    requires IsMarker(marker) && AllFit(records) && Incomplete(tail)
    ensures Response([marker] + (Encode(records) + tail), source, decode) == Described(records, source, decode)
  {
    RecordsAreReadBack(records, tail);
    assert ([marker] + (Encode(records) + tail))[1..] == Encode(records) + tail;
  }

  /** Records of unknown fields may be added or left out anywhere. */
  lemma {:induction false} UnknownFieldsAreSkipped(before: seq<Record>, extra: Record, after: seq<Record>,
                                                   source: string, decode: seq<byte> -> string)
    requires FieldOf(extra.tag) == UnknownField
    ensures Described(before + [extra] + after, source, decode) == Described(before + after, source, decode)
  {
    forall field | field != UnknownField
      ensures LastValue(before + [extra] + after, field) == LastValue(before + after, field)
    {
      SkipRecord(before, extra, after, field);
    }
  }

  lemma {:induction false} SkipRecord(before: seq<Record>, extra: Record, after: seq<Record>, field: Field)
    requires FieldOf(extra.tag) != field
    ensures LastValue(before + [extra] + after, field) == LastValue(before + after, field)
    decreases |after|
  {
    hide FieldOf;
    if after == [] {
      assert before + [extra] + after == before + [extra] && before + after == before;
      assert (before + [extra])[..|before|] == before;
    } else {
      var front := after[..|after| - 1];
      SkipRecord(before, extra, front, field);
      assert (before + [extra] + after)[..|before| + |after|] == before + [extra] + front;
      assert (before + after)[..|before| + |after| - 1] == before + front;
    }
  }

  /** The table holds the decoded last value of every known field. */
  ghost predicate Tabulates(fields: map<Field, string>, records: seq<Record>, decode: seq<byte> -> string) {
    forall field :: field != UnknownField ==>
      Text(LastValue(records, field), decode) == if field in fields then Some(fields[field]) else None
  }

  lemma {:induction false} NothingRead(decode: seq<byte> -> string)
    ensures Tabulates(map[], [], decode)
  {
  }

  lemma {:induction false} AddRecord(fields: map<Field, string>, records: seq<Record>, r: Record,
                                     decode: seq<byte> -> string)
    requires Tabulates(fields, records, decode)
    ensures var field := FieldOf(r.tag);
            Tabulates(if field != UnknownField then fields[field := decode(r.value)] else fields,
                      records + [r], decode)
  {
    hide FieldOf;
    assert (records + [r])[..|records|] == records;
  }

  function Lookup(fields: map<Field, string>, field: Field): Option<string> {
    if field in fields then Some(fields[field]) else None
  }

  lemma {:induction false} TableTells(fields: map<Field, string>, records: seq<Record>, decode: seq<byte> -> string)
    requires Tabulates(fields, records, decode)
    ensures forall field <- [Ipad, Name, Json, Uuid, Vers] :: Text(LastValue(records, field), decode) == Lookup(fields, field)
  {
    hide LastValue;
  }

  /** What one round of the loop finds at a position: a whole record, or nothing more. */
  lemma {:induction false} RecordAt(data: seq<byte>, pos: nat)
    requires pos + 5 <= |data|
    ensures var end := pos + 5 + (data[pos + 4] as int);
            RecordsIn(data[pos..]) == if end > |data| then []
                                      else [Record(data[pos..pos + 4], data[pos + 5..end])] + RecordsIn(data[end..])
  {
    var left, end := data[pos..], pos + 5 + (data[pos + 4] as int);
    assert left[4] == data[pos + 4];
    if end <= |data| {
      assert left[..4] == data[pos..pos + 4] && left[5..RecordSize(left)] == data[pos + 5..end];
      assert left[RecordSize(left)..] == data[end..];
    }
  }

  lemma {:induction false} NothingAt(data: seq<byte>, pos: nat)
    requires pos <= |data| < pos + 5
    ensures RecordsIn(data[pos..]) == []
  {
  }

  /** The loop as written, moving a position through the data and filling a table. */
  method ReadFields(data: seq<byte>, decode: seq<byte> -> string) returns (fields: map<Field, string>)
    requires data != []
    ensures Tabulates(fields, RecordsIn(data[1..]), decode)
  {
    hide RecordsIn, LastValue, FieldOf, Tabulates, Text;
    fields := map[];
    var pos := 1;
    ghost var cut := false;
    ghost var read: seq<Record> := [];
    ghost var left := RecordsIn(data[1..]);
    NothingRead(decode);
    while pos + 5 <= |data|
      invariant 1 <= pos <= |data| && !cut
      invariant left == RecordsIn(data[pos..]) && RecordsIn(data[1..]) == read + left
      invariant Tabulates(fields, read, decode)
    {
      RecordAt(data, pos);
      var tag := data[pos..pos + 4];
      pos := pos + 4;
      var length: nat := data[pos];
      pos := pos + 1;
      if pos + length > |data| {
        cut := true;
        break;
      }
      var value := data[pos..pos + length];
      pos := pos + length;
      AddRecord(fields, read, Record(tag, value), decode);
      left := RecordsIn(data[pos..]);
      read := read + [Record(tag, value)];
      var field := FieldOf(tag);
      if field != UnknownField {
        fields := fields[field := decode(value)];
      }
    }
    if !cut {
      NothingAt(data, pos);
    }
    assert RecordsIn(data[1..]) == read;
  }

  method ParseTlvResponse(data: seq<byte>, source: string, decode: seq<byte> -> string)
    returns (found: Option<DiscoveredLms>)
    ensures found == Response(data, source, decode)
  {
    if data == [] {
      return None;
    }
    if !IsMarker(data[0]) {
      return None;
    }
    hide RecordsIn, LastValue, FieldOf, ParsePort, Tabulates, Text;
    var fields := ReadFields(data, decode);
    TableTells(fields, RecordsIn(data[1..]), decode);
    var host := Lookup(fields, Ipad).GetOr(source);
    var name := Lookup(fields, Name).GetOr([]);
    if name == [] {
      return None;
    }
    var port := Lookup(fields, Json);
    var jsonPort := if port.Some? then ParsePort(port.value).GetOr(DEFAULT_JSON_PORT) else DEFAULT_JSON_PORT;
    var uuid := Lookup(fields, Uuid).GetOr([]);
    var version := Lookup(fields, Vers);
    found := Some(DiscoveredLms(host, jsonPort, name, uuid, version));
  }
}
