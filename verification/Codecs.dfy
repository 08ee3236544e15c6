// The codecs between stored strings and settings, and exactly which values
// each of them gives back.
module Codecs {
  import opened Decimals
  import opened JsonValues
  import SearchSplit
  import opened Wrappers

  // Codec<T>: nothing stored, and a removed key, are None.
  datatype Codec<!T> = Codec(decode: Option<string> -> T, encode: T -> Option<string>)

  // What was stored reads back as the value.
  ghost predicate RoundTrips<T(!new)>(c: Codec<T>, v: T) {
    c.decode(c.encode(v)) == v
  }

  // ----- enumCodec, boolCodec, stringCodec

  function EnumCodec(allowed: seq<string>, def: string): Codec<string> {
    Codec((raw: Option<string>) => if raw.Some? && raw.value in allowed then raw.value else def, v => Some(v))
  }

  lemma EnumRoundTrips(allowed: seq<string>, def: string, v: string)
    ensures RoundTrips(EnumCodec(allowed, def), v) <==> v in allowed || v == def
  {
  }

  datatype BoolEncoding = Words | Digits01

  function BoolText(encoding: BoolEncoding, v: bool): string {
    match encoding
    case Words => if v then "true" else "false"
    case Digits01 => if v then "1" else "0"
  }

  function BoolCodec(def: bool, encoding: BoolEncoding): Codec<bool> {
    Codec((raw: Option<string>) => if raw == Some(BoolText(encoding, true)) then true
                 else if raw == Some(BoolText(encoding, false)) then false
                 else def,
          v => Some(BoolText(encoding, v)))
  }

  lemma BoolRoundTrips(def: bool, encoding: BoolEncoding, v: bool)
    ensures RoundTrips(BoolCodec(def, encoding), v)
  {
    assert BoolText(encoding, true)[0] != BoolText(encoding, false)[0];
  }

  // The default is stored by removing the key.
  function StringCodec(def: string): Codec<string> {
    Codec((raw: Option<string>) => if raw.Some? then raw.value else def, v => if v == def then None else Some(v))
  }

  lemma StringRoundTrips(def: string, v: string)
    ensures RoundTrips(StringCodec(def), v)
  {
  }

  // ----- intCodec

  datatype IntOptions = IntOptions(min: Option<int>, max: Option<int>, default: int)

  function DigitsAt(s: string, i: nat): (e: nat)
    requires i <= |s|
    ensures i <= e <= |s| && AllDigits(s[i..e])
    ensures e < |s| ==> !('0' <= s[e] <= '9')
    decreases |s| - i
  {
    if i < |s| && '0' <= s[i] <= '9' then
      var e := DigitsAt(s, i + 1);
      assert s[i..e] == [s[i]] + s[i + 1..e];
      e
    else i
  }

  function SkipSpace(s: string): string {
    if s != "" && SearchSplit.IsSpace(s[0]) then SkipSpace(s[1..]) else s
  }

  // The digits at the start, up to the first other character.
  function ParseDigits(s: string): Option<nat> {
    var e := DigitsAt(s, 0);
    if e == 0 then None else Some(DecimalValue(s[..e]))
  }

  function ParseSigned(s: string): Option<int> {
    var negative := s != "" && s[0] == '-';
    var n := ParseDigits(if s != "" && (s[0] == '-' || s[0] == '+') then s[1..] else s);
    if n.None? then None
    else var size: int := n.value; Some(if negative then -size else size)
  }

  // parseInt(raw, 10); None is NaN
  function ParseInt(raw: string): Option<int> { ParseSigned(SkipSpace(raw)) }

  function Clamp(o: IntOptions, n: int): int {
    var low := if o.min.Some? && o.min.value > n then o.min.value else n;
    if o.max.Some? && o.max.value < low then o.max.value else low
  }

  function DecodedInt(o: IntOptions, raw: Option<string>): int {
    if raw.None? then o.default
    else
      var n := ParseInt(raw.value);
      if n.None? then o.default else Clamp(o, n.value)
  }

  function IntCodec(o: IntOptions): Codec<int> {
    Codec((raw: Option<string>) => DecodedInt(o, raw), v => Some(Text(v)))
  }

  method DecodeInt(o: IntOptions, raw: Option<string>) returns (v: int)
    ensures v == DecodedInt(o, raw)
  {
    if raw.None? { return o.default; }
    var n := ParseInt(raw.value);
    if n.None? { return o.default; }
    v := n.value;
    if o.min.Some? { v := if o.min.value > v then o.min.value else v; }
    if o.max.Some? { v := if o.max.value < v then o.max.value else v; }
  }

  lemma {:induction false} AllDigitsEnd(s: string, i: nat)
    requires AllDigits(s) && i <= |s|
    ensures DigitsAt(s, i) == |s|
    decreases |s| - i
  {
    if i < |s| { AllDigitsEnd(s, i + 1); }
  }

  lemma ParseDigitsOfDecimal(n: nat)
    ensures ParseDigits(Decimal(n)) == Some(n) && '0' <= Decimal(n)[0] <= '9'
  {
    var d := Decimal(n);
    DecimalRoundTrip(n);
    AllDigitsEnd(d, 0);
    hide Decimal, DecimalValue, DigitsAt;
    assert d[..|d|] == d;
  }

  lemma NoSpaceToSkip(s: string)
    requires s != "" && ('0' <= s[0] <= '9' || s[0] == '-')
    ensures SkipSpace(s) == s
  {
  }

  lemma ParseIntOfText(v: int)
    ensures ParseInt(Text(v)) == Some(v)
  {
    var n: nat := if v < 0 then -v else v;
    ParseDigitsOfDecimal(n);
    hide Decimal, ParseDigits;
    NoSpaceToSkip(Text(v));
    hide SkipSpace;
    if v < 0 {
      assert ("-" + Decimal(n))[1..] == Decimal(n);
    }
  }

  // The range an integer setting must be in to survive: between the bounds, or
  // at the upper one where the bounds cross.
  predicate InRange(o: IntOptions, v: int) {
    && (o.max.Some? ==> v <= o.max.value)
    && (o.min.Some? ==> o.min.value <= v || o.max == Some(v))
  }

  lemma IntRoundTrips(o: IntOptions, v: int)
    ensures RoundTrips(IntCodec(o), v) <==> InRange(o, v)
  {
    ParseIntOfText(v);
  }

  function Distance(a: int, b: int): nat { if a < b then b - a else a - b }

  // A number out of range is moved to the nearest number in range, and one in
  // range is left alone: bounds that cross leave the upper one.
  lemma ClampIsNearest(o: IntOptions, n: int)
    ensures var v := Clamp(o, n);
            && InRange(o, v) && (InRange(o, n) ==> v == n)
            && forall u :: InRange(o, u) && u != v ==> Distance(v, n) < Distance(u, n)
  {
  }

  lemma {:induction false} SkipsAllSpace(space: string, rest: string)
    requires SearchSplit.AllSpace(space) && (rest == "" || !SearchSplit.IsSpace(rest[0]))
    ensures SkipSpace(space + rest) == rest
  {
    if space == "" {
      assert space + rest == rest;
    } else {
      assert (space + rest)[1..] == space[1..] + rest;
      SkipsAllSpace(space[1..], rest);
    }
  }

  lemma {:induction false} DigitsEnd(digits: string, rest: string, i: nat)
    requires AllDigits(digits) && i <= |digits| && (rest == "" || !('0' <= rest[0] <= '9'))
    ensures DigitsAt(digits + rest, i) == |digits|
    decreases |digits| - i
  {
    if i < |digits| {
      DigitsEnd(digits, rest, i + 1);
    }
  }

  lemma ParseDigitsReads(digits: string, rest: string)
    requires AllDigits(digits) && (rest == "" || !('0' <= rest[0] <= '9'))
    ensures ParseDigits(digits + rest) == if digits == "" then None else Some(DecimalValue(digits))
  {
    DigitsEnd(digits, rest, 0);
    assert (digits + rest)[..|digits|] == digits;
    hide DigitsAt, DecimalValue;
  }

  // A text as parseInt takes it apart: white space, a sign if any, digits, and
  // whatever is left, which none of those goes on into.
  predicate IsNumeral(space: string, sign: string, digits: string, rest: string) {
    && SearchSplit.AllSpace(space) && (sign == "" || sign == "+" || sign == "-") && AllDigits(digits)
    && (rest == "" || !('0' <= rest[0] <= '9'))
    && (sign == "" && digits == "" && rest != "" ==>
          !SearchSplit.IsSpace(rest[0]) && rest[0] != '+' && rest[0] != '-')
  }

  lemma NumeralStarts(space: string, sign: string, digits: string, rest: string)
    requires IsNumeral(space, sign, digits, rest)
    ensures var all := sign + (digits + rest);
            && (all == "" || !SearchSplit.IsSpace(all[0]))
            && (all != "" && all[0] == '-' <==> sign == "-")
            && (all != "" && all[0] == '+' <==> sign == "+")
            && (if sign == "" then all else all[1..]) == digits + rest
  {
    var tail, all := digits + rest, sign + (digits + rest);
    assert sign != "" ==> all[1..] == tail;
    assert sign == "" ==> all == tail;
    assert digits != "" ==> tail[0] == digits[0];
    assert digits == "" ==> tail == rest;
  }

  lemma SignedReads(all: string, sign: string, tail: string)
    requires all != "" && all[0] == '-' <==> sign == "-"
    requires all != "" && all[0] == '+' <==> sign == "+"
    requires (sign == "" || sign == "+" || sign == "-") && (if sign == "" then all else all[1..]) == tail
    ensures ParseSigned(all) ==
            if ParseDigits(tail).None? then None
            else var size: int := ParseDigits(tail).value; Some(if sign == "-" then -size else size)
  {
    hide ParseDigits;
  }

  // The number read is that of the digits under the sign; without digits there
  // is none.
  lemma ParseIntReads(space: string, sign: string, digits: string, rest: string)
    requires IsNumeral(space, sign, digits, rest)
    ensures ParseInt(space + (sign + (digits + rest))) ==
            if digits == "" then None
            else var size: int := DecimalValue(digits); Some(if sign == "-" then -size else size)
  {
    hide SkipSpace, ParseDigits, DecimalValue, SearchSplit.IsSpace, AllDigits, ParseSigned;
    NumeralStarts(space, sign, digits, rest);
    SkipsAllSpace(space, sign + (digits + rest));
    ParseDigitsReads(digits, rest);
    SignedReads(sign + (digits + rest), sign, digits + rest);
  }

  // What was never written reads as the default.
  lemma UnknownIsDefault(o: IntOptions, allowed: seq<string>, text: string, def: bool, encoding: BoolEncoding,
                         raw: Option<string>)
    ensures raw.None? || ParseInt(raw.value).None? ==> IntCodec(o).decode(raw) == o.default
    ensures raw.None? || raw.value !in allowed ==> EnumCodec(allowed, text).decode(raw) == text
    ensures (forall v :: BoolCodec(def, encoding).encode(v) != raw) ==> BoolCodec(def, encoding).decode(raw) == def
    ensures raw.None? ==> StringCodec(text).decode(raw) == text
  {
    if raw.Some? && BoolCodec(def, encoding).decode(raw) != def {
      assert raw == BoolCodec(def, encoding).encode(!def);
    }
    hide ParseInt;
  }

  // ----- the text JSON values are stored as

  // JSON.parse and JSON.stringify; None is a syntax error.
  datatype JsonText = JsonText(parse: string -> Option<Json>, write: Json -> string)

  // Parsing what was written for this value gives it back.
  predicate ReadsBack(t: JsonText, j: Json) {
    t.parse(t.write(j)) == Some(j)
  }

  // ----- field codecs: None is a field the object does not have

  datatype Field = Field(decode: Option<Json> -> Json, encode: Json -> Json)

  ghost predicate FieldRoundTrips(f: Field, v: Json) {
    f.decode(Some(f.encode(v))) == v
  }

  function JsonBoolField(def: bool): Field {
    Field((raw: Option<Json>) => if raw.Some? && raw.value.Bool? then raw.value else Bool(def), v => v)
  }

  function JsonStringField(def: string): Field {
    Field((raw: Option<Json>) => if raw.Some? && raw.value.Str? then raw.value else Str(def), v => v)
  }

  function JsonEnumField(allowed: seq<string>, def: string): Field {
    Field((raw: Option<Json>) => if raw.Some? && raw.value.Str? && raw.value.s in allowed then raw.value else Str(def),
          v => v)
  }

  function Filtered(keep: Json -> bool, items: seq<Json>): seq<Json> {
    if items == [] then []
    else
      var rest := Filtered(keep, items[..|items| - 1]);
      if keep(items[|items| - 1]) then rest + [items[|items| - 1]] else rest
  }

  function JsonArrayField(keep: Json -> bool, def: seq<Json>): Field {
    Field((raw: Option<Json>) =>
            if raw.Some? && raw.value.Arr? then Arr(Filtered(keep, raw.value.items)) else Arr(def),
          v => v)
  }

  lemma {:induction false} FilteredAll(keep: Json -> bool, items: seq<Json>)
    ensures |Filtered(keep, items)| <= |items|
    ensures Filtered(keep, items) == items <==> forall i :: 0 <= i < |items| ==> keep(items[i])
  {
    if items != [] {
      var shorter := items[..|items| - 1];
      FilteredAll(keep, shorter);
      assert items == shorter + [items[|items| - 1]];
      if Filtered(keep, items) == items {
        assert |Filtered(keep, shorter)| == |shorter|;
        assert Filtered(keep, items)[..|shorter|] == Filtered(keep, shorter);
      }
    }
  }

  // Which values of their own type the fields give back.
  lemma FieldsRoundTrip(def: bool, text: string, allowed: seq<string>, keep: Json -> bool, none: seq<Json>,
                        b: bool, s: string, items: seq<Json>)
    ensures FieldRoundTrips(JsonBoolField(def), Bool(b))
    ensures FieldRoundTrips(JsonStringField(text), Str(s))
    ensures FieldRoundTrips(JsonEnumField(allowed, text), Str(s)) <==> s in allowed || s == text
    ensures FieldRoundTrips(JsonArrayField(keep, none), Arr(items)) <==> forall i :: 0 <= i < |items| ==> keep(items[i])
  {
    FilteredAll(keep, items);
  }

  // ----- jsonRecordCodec

  type Record = map<string, Json>
  type Schema = map<string, Field>

  function Parsed(t: JsonText, raw: Option<string>): Option<map<string, Json>> {
    if raw.None? then None
    else
      var j := t.parse(raw.value);
      if j.Some? && j.value.Obj? then Some(j.value.fields) else None
  }

  function Lookup(fields: map<string, Json>, k: string): Option<Json> {
    if k in fields then Some(fields[k]) else None
  }

  function DecodedRecord(t: JsonText, schema: Schema, defaults: Record, raw: Option<string>): Record {
    var fields := Parsed(t, raw);
    if fields.None? then defaults
    else defaults + DecodedFields(schema, fields.value, schema.Keys)
  }

  function DecodedFields(schema: Schema, fields: map<string, Json>, keys: set<string>): Record
    requires keys <= schema.Keys
  {
    map k | k in keys :: schema[k].decode(Lookup(fields, k))
  }

  // The record with all fields but those left decoded.
  function DecodedBut(schema: Schema, fields: map<string, Json>, defaults: Record, left: set<string>): Record
    requires left <= schema.Keys
  {
    defaults + DecodedFields(schema, fields, schema.Keys - left)
  }

  lemma DecodeEnds(schema: Schema, fields: map<string, Json>, defaults: Record)
    ensures DecodedBut(schema, fields, defaults, schema.Keys) == defaults
    ensures DecodedBut(schema, fields, defaults, {}) == defaults + DecodedFields(schema, fields, schema.Keys)
  {
    assert schema.Keys - {} == schema.Keys;
  }

  lemma DecodeOneMore(schema: Schema, fields: map<string, Json>, defaults: Record, left: set<string>, k: string)
    requires left <= schema.Keys && k in left
    ensures DecodedBut(schema, fields, defaults, left)[k := schema[k].decode(Lookup(fields, k))] ==
            DecodedBut(schema, fields, defaults, left - {k})
  {
    hide Lookup;
    assert schema.Keys - (left - {k}) == schema.Keys - left + {k};
  }

  // A record of the codec's type has every field of the schema.
  function EncodedFields(schema: Schema, value: Record): map<string, Json>
    requires schema.Keys <= value.Keys
  {
    map k | k in schema :: schema[k].encode(value[k])
  }

  method DecodeRecord(t: JsonText, schema: Schema, defaults: Record, raw: Option<string>) returns (out: Record)
    ensures out == DecodedRecord(t, schema, defaults, raw)
  {
    var fields := Parsed(t, raw);
    if fields.None? { return defaults; }
    hide Lookup, Parsed, DecodedBut, DecodedFields;
    out := defaults;
    var left := schema.Keys;
    DecodeEnds(schema, fields.value, defaults);
    while left != {}
      invariant left <= schema.Keys
      invariant out == DecodedBut(schema, fields.value, defaults, left)
      decreases |left|
    {
      var k :| k in left;
      DecodeOneMore(schema, fields.value, defaults, left, k);
      out := out[k := schema[k].decode(Lookup(fields.value, k))];
      left := left - {k};
    }
  }

  method EncodeRecord(t: JsonText, schema: Schema, value: Record) returns (text: string)
    requires schema.Keys <= value.Keys
    ensures text == t.write(Obj(EncodedFields(schema, value)))
  {
    var obj: map<string, Json> := map[];
    var left := schema.Keys;
    while left != {}
      invariant left <= schema.Keys
      invariant obj == map k | k in schema.Keys - left :: schema[k].encode(value[k])
      decreases |left|
    {
      var k :| k in left;
      obj := obj[k := schema[k].encode(value[k])];
      left := left - {k};
    }
    assert obj == EncodedFields(schema, value);
    text := t.write(Obj(obj));
  }

  // A record reads back exactly when every field of the schema does, and what
  // the schema does not name is at its default.
  lemma RecordRoundTrips(t: JsonText, schema: Schema, defaults: Record, v: Record)
    requires schema.Keys <= v.Keys && v.Keys == defaults.Keys && ReadsBack(t, Obj(EncodedFields(schema, v)))
    ensures DecodedRecord(t, schema, defaults, Some(t.write(Obj(EncodedFields(schema, v))))) == v <==>
            && (forall k :: k in schema ==> FieldRoundTrips(schema[k], v[k]))
            && (forall k :: k in v && k !in schema ==> v[k] == defaults[k])
  {
    var fields := EncodedFields(schema, v);
    var raw := t.write(Obj(fields));
    assert Parsed(t, Some(raw)) == Some(fields);
    var back := DecodedRecord(t, schema, defaults, Some(raw));
    forall k | k in schema
      ensures back[k] == v[k] <==> FieldRoundTrips(schema[k], v[k])
    {
      assert Lookup(fields, k) == Some(schema[k].encode(v[k]));
    }
    assert back.Keys == v.Keys;
    if back == v {
      assert forall k :: k in v ==> back[k] == v[k];
    }
  }

  // ----- keyedMap

  // Assigning this key of a plain object sets no field.
  const PROTO := "__proto__"

  function EntryOf(raw: Option<string>): Json {
    if raw.Some? then Str(raw.value) else Null
  }

  function TextOf(entry: Json): Option<string> {
    if entry.Str? then Some(entry.s) else None
  }

  function KeyedEntries<V>(c: Codec<V>, m: map<string, V>): map<string, Json> {
    map k | k in m && k != PROTO :: EntryOf(c.encode(m[k]))
  }

  function KeyedValues<V>(c: Codec<V>, fields: map<string, Json>): map<string, V> {
    map k | k in fields && k != PROTO :: c.decode(TextOf(fields[k]))
  }

  function KeyedMap<V>(t: JsonText, c: Codec<V>): Codec<map<string, V>> {
    Codec((raw: Option<string>) =>
            var fields := Parsed(t, raw);
            if fields.None? then map[] else KeyedValues(c, fields.value),
          m => Some(t.write(Obj(KeyedEntries(c, m)))))
  }

  method EncodeKeyed<V>(t: JsonText, c: Codec<V>, m: map<string, V>) returns (text: string)
    ensures Some(text) == KeyedMap(t, c).encode(m)
  {
    var obj: map<string, Json> := map[];
    var left := m.Keys;
    while left != {}
      invariant left <= m.Keys
      invariant obj == map k | k in m.Keys - left && k != PROTO :: EntryOf(c.encode(m[k]))
      decreases |left|
    {
      var k :| k in left;
      if k != PROTO {
        obj := obj[k := EntryOf(c.encode(m[k]))];
      }
      left := left - {k};
    }
    assert obj == KeyedEntries(c, m);
    text := t.write(Obj(obj));
  }

  // A keyed map reads back exactly when each of its values does and no key is
  // the one plain objects do not take.
  lemma KeyedRoundTrips<V(!new)>(t: JsonText, c: Codec<V>, m: map<string, V>)
    requires ReadsBack(t, Obj(KeyedEntries(c, m)))
    ensures RoundTrips(KeyedMap(t, c), m) <==> PROTO !in m && forall k :: k in m ==> RoundTrips(c, m[k])
  {
    var fields := KeyedEntries(c, m);
    var back := KeyedValues(c, fields);
    assert KeyedMap(t, c).decode(KeyedMap(t, c).encode(m)) == back;
    forall k | k in m && k != PROTO
      ensures k in back && (back[k] == m[k] <==> RoundTrips(c, m[k]))
    {
      assert TextOf(fields[k]) == c.encode(m[k]);
    }
    assert back.Keys <= m.Keys && PROTO !in back;
    if back == m {
      assert forall k :: k in m ==> back[k] == m[k];
    }
  }
}
