// A setting kept in browser storage: written through at once or after a pause,
// and what is stored against what is shown.
module PersistentState {
  import opened Codecs
  import opened JsonValues
  import opened Wrappers

  // The debounce timer: its handle is kept after it has fired.
  datatype Timer<T> = Off | Armed(next: T) | Fired

  datatype State<T> = State(value: T, timer: Timer<T>, stored: Option<string>)

  function Open<T>(c: Codec<T>, stored: Option<string>): State<T> {
    State(c.decode(stored), Off, stored)
  }

  datatype Op<T> = Set(next: T) | Fire | Reset

  // A timer only fires while it is armed.
  predicate Enabled<T>(s: State<T>, op: Op<T>) { op.Fire? ==> s.timer.Armed? }

  function Applied<T>(c: Codec<T>, debounced: bool, s: State<T>, op: Op<T>): State<T>
    requires Enabled(s, op)
  {
    match op
    case Set(next) =>
      if debounced then s.(value := next, timer := Armed(next))
      else State(next, Off, c.encode(next))
    case Fire => s.(timer := Fired, stored := c.encode(s.timer.next))
    case Reset => State(c.decode(None), Off, c.encode(c.decode(None)))
  }

  // createPersistentState
  class Setting<!T> {
    const codec: Codec<T>
    const debounced: bool
    var value: T
    var timer: Timer<T>
    var stored: Option<string>

    constructor (codec: Codec<T>, debounced: bool, stored: Option<string>)
      ensures this.codec == codec && this.debounced == debounced && Now() == Open(codec, stored)
    {
      this.codec, this.debounced, this.stored := codec, debounced, stored;
      value := codec.decode(stored);
      timer := Off;
    }

    function Now(): State<T>
      reads this
    {
      State(value, timer, stored)
    }

    method ClearPending()
      modifies this`timer
      ensures timer == Off
    {
      timer := Off;
    }

    method Flush(next: T)
      modifies this`stored
      ensures stored == codec.encode(next)
    {
      stored := codec.encode(next);
    }

    method SchedulePersist(next: T)
      modifies this`timer, this`stored
      ensures if debounced then timer == Armed(next) && stored == old(stored)
              else timer == Off && stored == codec.encode(next)
    {
      ClearPending();
      if debounced {
        timer := Armed(next);
        return;
      }
      Flush(next);
    }

    method SetValue(next: T)
      modifies this
      ensures Now() == Applied(codec, debounced, old(Now()), Set(next))
    {
      value := next;
      SchedulePersist(next);
    }

    method TimerFires()
      requires timer.Armed?
      modifies this
      ensures Now() == Applied(codec, debounced, old(Now()), Fire)
    {
      Flush(timer.next);
      timer := Fired;
    }

    method ResetValue()
      modifies this
      ensures Now() == Applied(codec, debounced, old(Now()), Reset)
    {
      ClearPending();
      var def := codec.decode(None);
      value := def;
      Flush(def);
    }
  }

  // ----- runs

  ghost predicate Runs<T>(c: Codec<T>, debounced: bool, stored: Option<string>, ops: seq<Op<T>>)
    decreases |ops|, 0
  {
    ops == [] ||
    (Runs(c, debounced, stored, ops[..|ops| - 1])
     && Enabled(After(c, debounced, stored, ops[..|ops| - 1]), ops[|ops| - 1]))
  }

  ghost function After<T>(c: Codec<T>, debounced: bool, stored: Option<string>, ops: seq<Op<T>>): State<T>
    requires Runs(c, debounced, stored, ops)
    decreases |ops|, 1
  {
    if ops == [] then Open(c, stored)
    else Applied(c, debounced, After(c, debounced, stored, ops[..|ops| - 1]), ops[|ops| - 1])
  }

  // The value by the operations alone: what was set or reset to last.
  function Latest<T>(c: Codec<T>, stored: Option<string>, ops: seq<Op<T>>): T {
    if ops == [] then c.decode(stored)
    else
      match ops[|ops| - 1]
      case Set(next) => next
      case Reset => c.decode(None)
      case Fire => Latest(c, stored, ops[..|ops| - 1])
  }

  // A set of a debounced setting that nothing has followed yet.
  predicate IsPending<T>(debounced: bool, ops: seq<Op<T>>) {
    debounced && ops != [] && ops[|ops| - 1].Set?
  }

  // What is stored by the operations alone: the latest value, but for a set that
  // is still pending.
  function Kept<T>(c: Codec<T>, debounced: bool, stored: Option<string>, ops: seq<Op<T>>): Option<string> {
    if ops == [] then stored
    else if IsPending(debounced, ops) then Kept(c, debounced, stored, ops[..|ops| - 1])
    else c.encode(Latest(c, stored, ops))
  }

  // After any operations the setting shows, will write and has stored what they
  // alone say.
  lemma {:induction false} SettingIsItsHistory<T>(c: Codec<T>, debounced: bool, stored: Option<string>,
                                                  ops: seq<Op<T>>)
    requires Runs(c, debounced, stored, ops)
    ensures var s := After(c, debounced, stored, ops);
            && s.value == Latest(c, stored, ops)
            && s.timer.Armed? == IsPending(debounced, ops)
            && (s.timer.Armed? ==> s.timer.next == Latest(c, stored, ops))
            && s.stored == Kept(c, debounced, stored, ops)
  {
    if ops != [] {
      SettingIsItsHistory(c, debounced, stored, ops[..|ops| - 1]);
    }
  }

  // A pending write always carries the current value.
  lemma {:induction false} PendingIsCurrent<T>(c: Codec<T>, debounced: bool, stored: Option<string>, ops: seq<Op<T>>)
    requires Runs(c, debounced, stored, ops)
    ensures var s := After(c, debounced, stored, ops);
            s.timer.Armed? ==> s.timer.next == s.value
  {
    if ops != [] {
      PendingIsCurrent(c, debounced, stored, ops[..|ops| - 1]);
    }
  }

  // What a fresh instance would show.
  function Reopened<T>(c: Codec<T>, s: State<T>): T { Open(c, s.stored).value }

  // Once anything was set or reset and nothing is pending, storage holds the
  // current value as the codec writes it: what was set before and overwritten
  // leaves no trace.
  lemma {:induction false} StoredIsCurrent<T>(c: Codec<T>, debounced: bool, stored: Option<string>, ops: seq<Op<T>>)
    requires Runs(c, debounced, stored, ops) && ops != []
    ensures var s := After(c, debounced, stored, ops);
            !s.timer.Armed? ==> s.stored == c.encode(s.value)
  {
    var before, op := ops[..|ops| - 1], ops[|ops| - 1];
    PendingIsCurrent(c, debounced, stored, before);
    if before != [] {
      StoredIsCurrent(c, debounced, stored, before);
    }
  }

  // After any sets, timer firings and resets with nothing pending, a fresh
  // instance starts with the current value exactly when the codec gives that
  // value back; one that was never set or reset starts where this one did.
  lemma StorageAgrees<T(!new)>(c: Codec<T>, debounced: bool, stored: Option<string>, ops: seq<Op<T>>)
    requires Runs(c, debounced, stored, ops)
    ensures var s := After(c, debounced, stored, ops);
            !s.timer.Armed? ==> (Reopened(c, s) == s.value <==> ops == [] || RoundTrips(c, s.value))
  {
    if ops != [] {
      StoredIsCurrent(c, debounced, stored, ops);
    }
  }

  // While a write is pending, a fresh instance will start with its value exactly
  // when the codec gives it back, once the timer has fired.
  lemma PendingAgrees<T(!new)>(c: Codec<T>, debounced: bool, stored: Option<string>, ops: seq<Op<T>>)
    requires Runs(c, debounced, stored, ops)
    ensures var s := After(c, debounced, stored, ops);
            s.timer.Armed? ==>
              var fired := Applied(c, debounced, s, Fire);
              fired.value == s.value && (Reopened(c, fired) == s.value <==> RoundTrips(c, s.value))
  {
    PendingIsCurrent(c, debounced, stored, ops);
  }

  // A default outside its own bounds does not survive a reset.
  lemma DefaultOutOfBounds(s: State<int>)
    ensures var c := IntCodec(IntOptions(Some(10), None, 5));
            var reset := Applied(c, false, s, Reset);
            reset.value == 5 && Reopened(c, reset) == 10
  {
    var o := IntOptions(Some(10), None, 5);
    ParseIntOfText(5);
  }

  // ----- createPersistentRecord: every field is written through at once

  datatype RecordOp = SetField(key: string, next: Json) | ResetAll

  datatype RecordState = RecordState(fields: Record, stored: Option<string>)

  datatype Options = Options(text: JsonText, schema: Schema, defaults: Record)

  predicate IsOptions(o: Options) { o.schema.Keys <= o.defaults.Keys }

  function Written(o: Options, fields: Record): RecordState
    requires IsOptions(o) && fields.Keys == o.defaults.Keys
  {
    RecordState(fields, Some(o.text.write(Obj(EncodedFields(o.schema, fields)))))
  }

  function OpenRecord(o: Options, stored: Option<string>): RecordState {
    RecordState(DecodedRecord(o.text, o.schema, o.defaults, stored), stored)
  }

  // There are accessors for the defaults' keys only.
  predicate HasField(o: Options, op: RecordOp) { op.SetField? ==> op.key in o.defaults }

  function AppliedRecord(o: Options, s: RecordState, op: RecordOp): RecordState
    requires IsOptions(o) && s.fields.Keys == o.defaults.Keys && HasField(o, op)
  {
    match op
    case SetField(key, next) => Written(o, s.fields[key := next])
    case ResetAll => Written(o, o.defaults)
  }

  function AfterAll(o: Options, stored: Option<string>, ops: seq<RecordOp>): (s: RecordState)
    requires IsOptions(o) && forall i :: 0 <= i < |ops| ==> HasField(o, ops[i])
    ensures s.fields.Keys == o.defaults.Keys
  {
    if ops == [] then OpenRecord(o, stored)
    else AppliedRecord(o, AfterAll(o, stored, ops[..|ops| - 1]), ops[|ops| - 1])
  }

  // A field by the operations alone: what it was set to last, or its default.
  function LatestField(o: Options, stored: Option<string>, ops: seq<RecordOp>, key: string): Json
    requires IsOptions(o) && key in o.defaults
  {
    if ops == [] then OpenRecord(o, stored).fields[key]
    else
      match ops[|ops| - 1]
      case SetField(k, next) => if k == key then next else LatestField(o, stored, ops[..|ops| - 1], key)
      case ResetAll => o.defaults[key]
  }

  lemma {:induction false} RecordIsItsHistory(o: Options, stored: Option<string>, ops: seq<RecordOp>, key: string)
    requires IsOptions(o) && key in o.defaults && forall i :: 0 <= i < |ops| ==> HasField(o, ops[i])
    ensures AfterAll(o, stored, ops).fields[key] == LatestField(o, stored, ops, key)
  {
    if ops != [] {
      RecordIsItsHistory(o, stored, ops[..|ops| - 1], key);
    }
  }

  // After any field settings and resets a fresh record starts equal exactly
  // when every field of the schema is given back and the others are at their
  // defaults: a field the schema does not name is not stored.
  lemma RecordAgreesExactly(o: Options, stored: Option<string>, ops: seq<RecordOp>)
    requires IsOptions(o) && ops != [] && forall i :: 0 <= i < |ops| ==> HasField(o, ops[i])
    requires ReadsBack(o.text, Obj(EncodedFields(o.schema, AfterAll(o, stored, ops).fields)))
    ensures var s := AfterAll(o, stored, ops);
            OpenRecord(o, s.stored).fields == s.fields <==>
              && (forall k :: k in o.schema ==> FieldRoundTrips(o.schema[k], s.fields[k]))
              && (forall k :: k in o.defaults && k !in o.schema ==> s.fields[k] == o.defaults[k])
  {
    var s := AfterAll(o, stored, ops);
    assert s == Written(o, s.fields);
    RecordRoundTrips(o.text, o.schema, o.defaults, s.fields);
  }

  class RecordSetting {
    const options: Options
    var fields: Record
    var stored: Option<string>

    constructor (options: Options, stored: Option<string>)
      requires IsOptions(options)
      ensures this.options == options && Valid() && Now() == OpenRecord(options, stored)
    {
      this.options, this.stored := options, stored;
      fields := DecodedRecord(options.text, options.schema, options.defaults, stored);
    }

    ghost predicate Valid()
      reads this
    {
      IsOptions(options) && fields.Keys == options.defaults.Keys
    }

    function Now(): RecordState
      reads this
    {
      RecordState(fields, stored)
    }

    method Persist()
      requires Valid()
      modifies this`stored
      ensures Now() == Written(options, fields)
    {
      var text := EncodeRecord(options.text, options.schema, fields);
      stored := Some(text);
    }

    method SetFieldTo(key: string, next: Json)
      requires Valid() && key in options.defaults
      modifies this
      ensures Valid() && Now() == AppliedRecord(options, old(Now()), SetField(key, next))
    {
      fields := fields[key := next];
      Persist();
    }

    method ResetFields()
      requires Valid()
      modifies this
      ensures Valid() && Now() == AppliedRecord(options, old(Now()), ResetAll)
    {
      fields := options.defaults;
      Persist();
    }
  }
}
