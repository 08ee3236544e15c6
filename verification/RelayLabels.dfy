// The labels the gateway computes for its log from a message's payload, and
// exactly when computing them raises. They run before the message is routed.
module RelayLabels {
  import opened JsonValues
  import opened Wrappers

  // json.loads of a text: a value, a JSONDecodeError, or any other error.
  datatype Reading = Parsed(value: Json) | Malformed | Failed

  // A payload, and what json.loads makes of the texts in it.
  datatype Payload = Payload(value: Json, read: string -> Reading)

  type Fields = map<string, Json>

  // d.get(key, def)
  function Get(d: Fields, key: string, def: Json): Json {
    if key in d then d[key] else def
  }

  // A number that is no real number counts as one that is not zero.
  predicate Truthy(j: Json) {
    match j
    case Null => false
    case Bool(b) => b
    case Num(n) => n != 0.0
    case Str(s) => s != ""
    case Arr(items) => items != []
    case Obj(fields) => fields != map[]
  }

  // payload.get("content") or [], as the loops go through it: None cannot be
  // iterated. The characters of a text and the keys of an object are no objects,
  // which is all the loops look at.
  function Content(payload: Fields): Option<seq<Json>> {
    var content := Get(payload, "content", Null);
    if !Truthy(content) || content.Str? || content.Obj? then Some([])
    else if content.Arr? then Some(content.items)
    else None
  }

  predicate HasType(item: Json, kind: string) {
    item.Obj? && Get(item.fields, "content_type", Null) == Str(kind)
  }

  // json.loads(item.get("body", "")); reading anything but a text is a TypeError,
  // which is caught like a JSONDecodeError.
  function ReadBody(item: Json, read: string -> Reading): Reading
    requires item.Obj?
  {
    var body := Get(item.fields, "body", Str(""));
    if body.Str? then read(body.s) else Malformed
  }

  // ','.join of the content types takes texts only.
  predicate Unjoinable(item: Json) {
    item.Obj? && !Get(item.fields, "content_type", Str("?")).Str?
  }

  // The loop over a request's content goes no further than this item, raising or
  // returning the method; over a response's, raising or returning the status.
  predicate RequestRaises(item: Json, read: string -> Reading) {
    HasType(item, "json") && ReadBody(item, read).Failed?
  }

  predicate RequestReturns(item: Json, read: string -> Reading) {
    HasType(item, "json") && var r := ReadBody(item, read); r.Parsed? && r.value.Obj? && "method" in r.value.fields
  }

  predicate ResponseRaises(item: Json, read: string -> Reading) {
    HasType(item, "json") && var r := ReadBody(item, read); r.Failed? || (r.Parsed? && !r.value.Obj?)
  }

  predicate ResponseReturns(item: Json, read: string -> Reading) {
    HasType(item, "json") && var r := ReadBody(item, read); r.Parsed? && r.value.Obj?
  }

  // Some item is bad, and no item before it is the last one looked at.
  predicate RaisesFirst(items: seq<Json>, bad: Json -> bool, last: Json -> bool) {
    exists i :: 0 <= i < |items| && bad(items[i]) && forall j :: 0 <= j < i ==> !last(items[j])
  }

  // When _relay_kind raises.
  predicate KindRaises(payload: Fields, read: string -> Reading) {
    var kind, content := Get(payload, "message_type", Null), Content(payload);
    if kind == Str("message") then content.None? || exists i :: 0 <= i < |content.value| && Unjoinable(content.value[i])
    else if kind == Str("request") then
      || content.None?
      || RaisesFirst(content.value, item => RequestRaises(item, read), item => RequestReturns(item, read))
    else if kind == Str("response") then
      || content.None?
      || RaisesFirst(content.value, item => ResponseRaises(item, read), item => ResponseReturns(item, read))
    else kind == Str("stream") && content.None?
  }

  // When _relay_content_hint raises.
  predicate HintRaises(payload: Fields) {
    var kind := Get(payload, "message_type", Null);
    (kind == Str("stream") || kind == Str("message")) && Content(payload).None?
  }

  // str.strip leaves nothing.
  predicate IsBlank(s: string) {
    forall i :: 0 <= i < |s| ==>
      || '\U{0009}' <= s[i] <= '\U{000D}' || '\U{001C}' <= s[i] <= '\U{0020}' || s[i] == '\U{0085}'
      || s[i] == '\U{00A0}' || s[i] == '\U{1680}' || '\U{2000}' <= s[i] <= '\U{200A}' || s[i] == '\U{2028}'
      || s[i] == '\U{2029}' || s[i] == '\U{202F}' || s[i] == '\U{205F}' || s[i] == '\U{3000}'
  }

  // _update_name_cache finds a name in the payload's routing metadata.
  predicate NamesDevice(payload: Fields) {
    var routing := Get(payload, "routing", Null);
    routing.Obj? &&
    var metadata := Get(routing.fields, "metadata", Null);
    metadata.Obj? &&
    var name := Get(metadata.fields, "device_name", Null);
    name.Str? && !IsBlank(name.s)
  }

  // When computing the labels raises: the server's messages name their target,
  // which cannot be done under a target that cannot be a key.
  predicate LabelsRaise(p: Payload, fromServer: bool, unhashable: bool) {
    && p.value.Obj?
    && (KindRaises(p.value.fields, p.read) || HintRaises(p.value.fields)
        || (fromServer && unhashable && NamesDevice(p.value.fields)))
  }

  // ----- the label functions

  // The loop over a message's content, and the join after it.
  method JoinRaises(items: seq<Json>) returns (raised: bool)
    ensures raised <==> exists i :: 0 <= i < |items| && Unjoinable(items[i])
  {
    var types: seq<Json> := [];
    raised := false;
    var i := 0;
    while i < |items|
      invariant 0 <= i <= |items|
      invariant (exists j :: 0 <= j < |types| && !types[j].Str?) <==> exists j :: 0 <= j < i && Unjoinable(items[j])
    {
      if items[i].Obj? {
        ghost var before := types;
        types := types + [Get(items[i].fields, "content_type", Str("?"))];
        assert forall j :: 0 <= j < |before| ==> types[j] == before[j];
        assert !types[|before|].Str? <==> Unjoinable(items[i]);
      }
      i := i + 1;
    }
    raised := exists j :: 0 <= j < |types| && !types[j].Str?;
  }

  method RequestLabel(items: seq<Json>, read: string -> Reading) returns (raised: bool)
    ensures raised <==> RaisesFirst(items, item => RequestRaises(item, read), item => RequestReturns(item, read))
  {
    var i := 0;
    while i < |items|
      invariant 0 <= i <= |items|
      invariant forall j :: 0 <= j < i ==> !RequestRaises(items[j], read) && !RequestReturns(items[j], read)
    {
      var item := items[i];
      if item.Obj? && Get(item.fields, "content_type", Null) == Str("json") {
        match ReadBody(item, read) {
          case Failed =>
            return true;
          case Malformed =>
          case Parsed(body) =>
            if body.Obj? && "method" in body.fields {
              return false;
            }
        }
      }
      i := i + 1;
    }
    return false;
  }

  method ResponseLabel(items: seq<Json>, read: string -> Reading) returns (raised: bool)
    ensures raised <==> RaisesFirst(items, item => ResponseRaises(item, read), item => ResponseReturns(item, read))
  {
    var i := 0;
    while i < |items|
      invariant 0 <= i <= |items|
      invariant forall j :: 0 <= j < i ==> !ResponseRaises(items[j], read) && !ResponseReturns(items[j], read)
    {
      var item := items[i];
      if item.Obj? && Get(item.fields, "content_type", Null) == Str("json") {
        match ReadBody(item, read) {
          case Failed =>
            return true;
          case Malformed =>
          case Parsed(body) =>
            return !body.Obj?;
        }
      }
      i := i + 1;
    }
    return false;
  }

  // _relay_kind, followed for whether it raises
  method RelayKind(payload: Fields, read: string -> Reading) returns (raised: bool)
    ensures raised <==> KindRaises(payload, read)
  {
    var kind, content := Get(payload, "message_type", Null), Content(payload);
    if kind == Str("message") || kind == Str("request") || kind == Str("response") || kind == Str("stream") {
      if content.None? {
        return true;
      }
      if kind == Str("message") {
        raised := JoinRaises(content.value);
      } else if kind == Str("request") {
        raised := RequestLabel(content.value, read);
      } else if kind == Str("response") {
        raised := ResponseLabel(content.value, read);
      } else {
        raised := false;
      }
    } else {
      raised := false;
    }
  }

  // The content hint raises on nothing that the kind has not raised on before.
  lemma HintNeverRaisesAlone(payload: Fields, read: string -> Reading)
    ensures HintRaises(payload) ==> KindRaises(payload, read)
  {
  }
}
