/**
 * The values stored in and read from MongoDB, as the Node driver hands them to the
 * application: BSON documents of JSON-like values, plus ObjectIds and dates.
 */
module Bson {
  import opened Wrappers

  predicate IsHexDigit(c: char) {
    '0' <= c <= '9' || 'a' <= c <= 'f' || 'A' <= c <= 'F'
  }

  predicate IsLowerHexDigit(c: char) {
    '0' <= c <= '9' || 'a' <= c <= 'f'
  }

  /** The 24 lower-case hexadecimal digits an ObjectId prints as (`toString()`). */
  type HexString = s: string | |s| == 24 && forall i :: 0 <= i < |s| ==> IsLowerHexDigit(s[i])
    witness "000000000000000000000000"

  /** A 12-byte MongoDB ObjectId, identified with its hexadecimal rendering. */
  datatype ObjectId = ObjectId(hex: HexString)

  /** `ObjectId.isValid(s)` for a string: exactly 24 hexadecimal digits, in either case. */
  predicate IsValidHex(s: string) {
    |s| == 24 && forall i :: 0 <= i < |s| ==> IsHexDigit(s[i])
  }

  function LowerHexDigit(c: char): (r: char)
    requires IsHexDigit(c)
    ensures IsLowerHexDigit(r)
    ensures IsLowerHexDigit(c) ==> r == c
  {
    if 'A' <= c <= 'F' then (c as int + 32) as char else c
  }

  /** `new ObjectId(s)` for a valid string: the id whose rendering is `s` in lower case. */
  function FromHex(s: string): (o: ObjectId)
    requires IsValidHex(s)
    ensures forall i :: 0 <= i < 24 ==> o.hex[i] == LowerHexDigit(s[i])
  {
    ObjectId(seq(24, i requires 0 <= i < 24 => LowerHexDigit(s[i])))
  }

  /** Printing an ObjectId and parsing the text back gives the same id. */
  lemma {:induction false} HexRoundTrip(o: ObjectId)
    ensures IsValidHex(o.hex)
    ensures FromHex(o.hex) == o
  {
    var p := FromHex(o.hex);
    assert p.hex == o.hex by {
      forall i | 0 <= i < 24 ensures p.hex[i] == o.hex[i] {
        assert IsLowerHexDigit(o.hex[i]);
      }
    }
  }

  /** A BSON/JSON value. Numbers are integers; a date is an opaque stamp. */
  datatype Value =
    | Null
    | Bool(b: bool)
    | Num(n: int)
    | Str(s: string)
    | Id(oid: ObjectId)
    | Date(stamp: nat)
    | Arr(items: seq<Value>)
    | Obj(fields: map<string, Value>)

  /** A stored document or a request/response object: field name to value. */
  type Doc = map<string, Value>

  /** A field read (`d.k`): `None` is JavaScript's `undefined`. */
  function Field(d: Doc, k: string): (r: Option<Value>)
    ensures r.Some? <==> k in d
    ensures r.Some? ==> r.value == d[k]
  {
    if k in d then Some(d[k]) else None
  }

  /** `ObjectId.isValid(v)` for the values the application passes: ObjectIds and 24-hex strings. */
  predicate IsValidId(v: Value) {
    v.Id? || (v.Str? && IsValidHex(v.s))
  }

  /** `new ObjectId(v)` for a valid id value. */
  function ToObjectId(v: Value): ObjectId
    requires IsValidId(v)
  {
    if v.Id? then v.oid else FromHex(v.s)
  }

  /**
   * The `possibleIds` list the dual-representation queries build: the value itself,
   * then its ObjectId form (for a valid string) or its string form (for an ObjectId).
   */
  function IdCandidates(v: Value): (r: seq<Value>)
    ensures 1 <= |r| <= 2 && r[0] == v
    ensures |r| == 2 <==> IsValidId(v)
  {
    match v
    case Str(s) => if IsValidHex(s) then [v, Id(FromHex(s))] else [v]
    case Id(o) => [v, Str(o.hex)]
    case _ => [v]
  }

  /** Both candidates name the same ObjectId, and they are the two representations of it. */
  lemma {:induction false} CandidatesDenoteOneId(v: Value)
    requires IsValidId(v)
    ensures var r := IdCandidates(v);
      && |r| == 2
      && (forall c :: c in r ==> IsValidId(c) && ToObjectId(c) == ToObjectId(v))
      && r[0] != r[1]
      && (v.Id? ==> r[1] == Str(v.oid.hex))
  {
    var o := ToObjectId(v);
    HexRoundTrip(o);
    if v.Str? {
      assert IdCandidates(v) == [v, Id(o)];
    }
  }
}
