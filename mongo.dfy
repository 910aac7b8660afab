/** The part of the MongoDB driver's vocabulary the stores use: object
    identifiers and their hexadecimal form (`primitive.ObjectID`,
    `primitive.ObjectIDFromHex`), instants, BSON values of a change-set, the
    driver errors the stores can see, and the caller's filter map (`db.Map`). */
module Mongo {
  import opened Common

  newtype Byte = b: int | 0 <= b < 256

  /** `primitive.ObjectID`: twelve bytes. */
  type ObjectId = s: seq<Byte> | |s| == 12 witness [0, 0, 0, 0, 0, 0, 0, 0, 0, 0, 0, 0]

  /** `primitive.NilObjectID`, the zero value of an ObjectID. */
  const Nil: ObjectId := [0, 0, 0, 0, 0, 0, 0, 0, 0, 0, 0, 0]

  /** Errors the stores can report. `InvalidHex` is the driver's
      `ErrInvalidHex`, which `primitive.ObjectIDFromHex` returns for a string
      whose length is not 24; `InvalidByte(c)` is `encoding/hex`'s
      `InvalidByteError`, which it passes on for a 24-character string whose
      first non-hexadecimal character is `c`; `NoDocuments` is `FindOne`
      finding nothing; `DuplicateKey` is `InsertOne` meeting an `_id` already
      stored. */
  datatype DbError = InvalidHex | InvalidByte(c: char) | NoDocuments | DuplicateKey

  // ---------------------------------------------------------------------
  // Hexadecimal form of an ObjectID

  predicate IsHexDigit(c: char) {
    '0' <= c <= '9' || 'a' <= c <= 'f' || 'A' <= c <= 'F'
  }

  predicate IsLowerHexDigit(c: char) {
    '0' <= c <= '9' || 'a' <= c <= 'f'
  }

  predicate AllHex(s: GoString) {
    forall i | 0 <= i < |s| :: IsHexDigit(s[i])
  }

  predicate AllLowerHex(s: GoString) {
    forall i | 0 <= i < |s| :: IsLowerHexDigit(s[i])
  }

  function HexValue(c: char): (v: nat)
    requires IsHexDigit(c)
    ensures v < 16
  {
    if '0' <= c <= '9' then c as int - '0' as int
    else if 'a' <= c <= 'f' then c as int - 'a' as int + 10
    else c as int - 'A' as int + 10
  }

  /** The lower-case digit for `v`, as `encoding/hex` writes it. */
  function HexChar(v: nat): (c: char)
    requires v < 16
    ensures IsLowerHexDigit(c) && HexValue(c) == v
  {
    if v < 10 then ('0' as int + v) as char else ('a' as int + v - 10) as char
  }

  /** `hex.DecodeString` on an even-length string of hexadecimal digits:
      each pair of digits, high nibble first, becomes one byte. */
  function DecodeHex(s: GoString): (b: seq<Byte>)
    requires |s| % 2 == 0 && AllHex(s)
    ensures |b| == |s| / 2
    decreases |s|
  {
    if s == [] then []
    else [(16 * HexValue(s[0]) + HexValue(s[1])) as Byte] + DecodeHex(s[2..])
  }

  /** `hex.EncodeToString`: two lower-case digits per byte. */
  function EncodeHex(b: seq<Byte>): (s: GoString)
    ensures |s| == 2 * |b| && AllLowerHex(s)
  {
    if b == [] then []
    else [HexChar(b[0] as int / 16), HexChar(b[0] as int % 16)] + EncodeHex(b[1..])
  }

  /** The position of the first character of `s` that is not a
      hexadecimal digit: the one `hex.DecodeString` reports, since it checks
      the characters from left to right. */
  function FirstNonHex(s: GoString): (i: nat)
    requires !AllHex(s)
    ensures i < |s| && !IsHexDigit(s[i])
    ensures forall j | 0 <= j < i :: IsHexDigit(s[j])
  {
    if !IsHexDigit(s[0]) then 0
    else
      assert !AllHex(s[1..]) by {
        var k :| 0 <= k < |s| && !IsHexDigit(s[k]);
        assert s[1..][k - 1] == s[k];
      }
      1 + FirstNonHex(s[1..])
  }

  /** `primitive.ObjectIDFromHex`: exactly 24 hexadecimal digits (either
      case) decode to an ObjectID. A wrong length is `InvalidHex`; a
      24-character string with a non-hexadecimal character is the decoder's
      `InvalidByte` naming the first such character. */
  function ObjectIdFromHex(s: GoString): (r: Result<ObjectId, DbError>)
    ensures r.Ok? <==> |s| == 24 && AllHex(s)
    ensures |s| != 24 ==> r == Err(InvalidHex)
    ensures |s| == 24 && !AllHex(s) ==>
      exists i | 0 <= i < |s| :: r == Err(InvalidByte(s[i])) && !IsHexDigit(s[i]) &&
        forall j | 0 <= j < i :: IsHexDigit(s[j])
  {
    if |s| != 24 then Err(InvalidHex)
    else if !AllHex(s) then Err(InvalidByte(s[FirstNonHex(s)]))
    else Ok(DecodeHex(s))
  }

  /** A 24-character string is rejected with exactly its first
      non-hexadecimal character. */
  lemma ParseReportsFirstBadChar(s: GoString, i: nat)
    requires |s| == 24 && i < |s| && !IsHexDigit(s[i])
    requires forall j | 0 <= j < i :: IsHexDigit(s[j])
    ensures ObjectIdFromHex(s) == Err(InvalidByte(s[i]))
  {
    var k :| 0 <= k < |s| && ObjectIdFromHex(s) == Err(InvalidByte(s[k])) && !IsHexDigit(s[k]) &&
      forall j | 0 <= j < k :: IsHexDigit(s[j]);
    assert !(k < i) && !(i < k);
  }

  /** The two ways a string fails to parse: a wrong length, and a
      non-hexadecimal character in a string of the right length, where the
      first of several bad characters is the one reported. */
  lemma ParseErrorExamples()
    ensures ObjectIdFromHex("0123456789abcdef") == Err(InvalidHex)
    ensures ObjectIdFromHex("0g23456789abcdefx123456f") == Err(InvalidByte('g'))
  {
    var s := "0g23456789abcdefx123456f";
    assert IsHexDigit(s[0]);
    ParseReportsFirstBadChar(s, 1);
  }

  /** The ObjectID that `ObjectIDFromHex` returns beside its error: the
      decoded id on success and `NilObjectID` on failure. Callers that write
      `oid, _ := primitive.ObjectIDFromHex(s)` get this value. */
  function IdOrNil(s: GoString): (id: ObjectId)
    ensures |s| == 24 && AllHex(s) ==> ObjectIdFromHex(s) == Ok(id)
    ensures !(|s| == 24 && AllHex(s)) ==> id == Nil
  {
    match ObjectIdFromHex(s)
    case Ok(id) => id
    case Err(_) => Nil
  }

  /** `ObjectID.Hex()`: the 24-digit lower-case form. */
  function Hex(id: ObjectId): (s: GoString)
    ensures |s| == 24 && AllLowerHex(s)
  {
    EncodeHex(id)
  }

  lemma {:induction false} DecodeEncode(b: seq<Byte>)
    ensures DecodeHex(EncodeHex(b)) == b
    decreases |b|
  {
    if b != [] {
      var s := EncodeHex(b);
      assert s[2..] == EncodeHex(b[1..]);
      DecodeEncode(b[1..]);
      assert 16 * HexValue(s[0]) + HexValue(s[1]) == b[0] as int;
    }
  }

  lemma {:induction false} EncodeDecode(s: GoString)
    requires |s| % 2 == 0 && AllLowerHex(s)
    ensures EncodeHex(DecodeHex(s)) == s
    decreases |s|
  {
    if s != [] {
      var b := DecodeHex(s);
      assert b[1..] == DecodeHex(s[2..]);
      EncodeDecode(s[2..]);
      var hi, lo := HexValue(s[0]), HexValue(s[1]);
      assert b[0] as int / 16 == hi && b[0] as int % 16 == lo;
      assert HexChar(hi) == s[0] && HexChar(lo) == s[1];
    }
  }

  /** Printing an ObjectID and parsing it back gives the same ObjectID. */
  lemma HexRoundTrip(id: ObjectId)
    ensures ObjectIdFromHex(Hex(id)) == Ok(id)
  {
    DecodeEncode(id);
  }

  /** A lower-case identifier string that parses is the printed form of
      what it parses to. */
  lemma ParseRoundTrip(s: GoString)
    requires AllLowerHex(s)
    ensures ObjectIdFromHex(s).Ok? ==> Hex(ObjectIdFromHex(s).value) == s
  {
    if |s| == 24 {
      EncodeDecode(s);
    }
  }

  // ---------------------------------------------------------------------
  // Instants and BSON values

  /** A `time.Time`, as nanoseconds counted from Go's zero time, so that the
      zero value of a Go `time.Time` is 0. */
  type Time = int

  const ZeroTime: Time := 0

  /** The BSON values a change-set can carry: a Go string, a Go `[]byte`
      (binary), a nil `[]byte` (null) and a `time.Time` (datetime). */
  datatype BsonValue =
    | BString(s: GoString)
    | BBinary(bytes: GoString)
    | BNull
    | BDateTime(t: Time)

  /** A `bson.M` holding the fields of a `$set` update. */
  type ChangeSet = map<string, BsonValue>

  /** The Go string a string field of a struct holds after a stored BSON
      value is decoded into it: the text of a string, the bytes of a binary,
      and "" for null. Datetimes never reach a string field here. */
  function DecodedString(v: BsonValue): GoString
  {
    match v
    case BString(s) => s
    case BBinary(b) => b
    case BNull => ""
    case BDateTime(_) => ""
  }

  /** The instant a `time.Time` field holds after a stored datetime is
      decoded into it; other values never reach a time field here. */
  function DecodedTime(v: BsonValue): Time
  {
    match v
    case BDateTime(t) => t
    case _ => ZeroTime
  }

  // ---------------------------------------------------------------------
  // The caller's filter

  /** The value under `_id` of a `db.Map` filter: the handlers put the
      request's hexadecimal string there, and the stores overwrite it with
      the parsed ObjectID. */
  datatype FilterId = HexString(text: GoString) | Oid(id: ObjectId)

  /** A `db.Map` filter as the handlers build it (`db.Map{"_id": id}`):
      a map the stores receive by reference and change in place. */
  class Filter {
    var id: FilterId

    constructor (text: GoString)
      ensures id == HexString(text)
    {
      id := HexString(text);
    }
  }
}
