/** What the instrumented cache promises: each store call counts once and
    records one input and one output at matching positions, touches nothing
    but its own keys, and leaves its data readable through get; replay prints
    the counter verbatim and pairs the two histories position by position. */
module CacheProperties {
  import opened Results
  import opened Utf8
  import Decimal
  import KeyValue
  import opened Exercise

  /** The instrumentation of `name` after `count` calls that recorded the
      inputs `ins` and the outputs `outs`. */
  predicate History(db: KeyValue.Db, name: string, count: nat, ins: seq<Bytes>, outs: seq<Bytes>) {
    && KeyValue.Lookup(db, name) == (if count == 0 then None else Some(KeyValue.Str(Decimal.Format(count), None)))
    && KeyValue.Lookup(db, InputsKey(name)) == (if ins == [] then None else Some(KeyValue.List(ins)))
    && KeyValue.Lookup(db, OutputsKey(name)) == (if outs == [] then None else Some(KeyValue.List(outs)))
  }

  /** The keys a store call may write besides the generated one. */
  predicate IsInstrumentationKey(k: KeyValue.Key) {
    k == StoreName || k == InputsKey(StoreName) || k == OutputsKey(StoreName)
  }

  /** A generated key never names the counter or a history list. */
  lemma UuidIsNotInstrumentation(uuid: KeyValue.Key)
    requires IsUuid4Text(uuid)
    ensures !IsInstrumentationKey(uuid)
  {
    assert |StoreName| == 11 && |InputsKey(StoreName)| == 18 && |OutputsKey(StoreName)| == 19;
  }

  /** The counter and the two lists of a method are three different keys. */
  lemma HistoryKeysDistinct(name: string)
    ensures name != InputsKey(name) && name != OutputsKey(name) && InputsKey(name) != OutputsKey(name)
  {
    assert |InputsKey(name)| == |name| + 7 && |OutputsKey(name)| == |name| + 8;
  }

  /** call_history's first step: str(args) joins the end of the inputs list. */
  lemma RecordInput(db: KeyValue.Db, name: string, count: nat, ins: seq<Bytes>, outs: seq<Bytes>, input: Bytes)
    returns (after: KeyValue.Db)
    requires History(db, name, count, ins, outs)
    ensures KeyValue.RPush(db, InputsKey(name), input) == Ok((|ins| + 1, after))
    ensures History(after, name, count, ins + [input], outs)
    ensures after.now == db.now
  {
    HistoryKeysDistinct(name);
    KeyValue.PushThenRange(db, InputsKey(name), ins, input);
    after := KeyValue.Put(db, InputsKey(name), KeyValue.List(ins + [input]));
  }

  /** count_calls' step: the counter goes from count to count + 1. */
  lemma CountCall(db: KeyValue.Db, name: string, count: nat, ins: seq<Bytes>, outs: seq<Bytes>)
    returns (after: KeyValue.Db)
    requires History(db, name, count, ins, outs)
    requires count < Decimal.MaxInt64
    ensures KeyValue.Incr(db, name) == Ok((count + 1, after))
    ensures History(after, name, count + 1, ins, outs)
    ensures after.now == db.now
  {
    HistoryKeysDistinct(name);
    KeyValue.IncrCounts(db, name, count);
    after := KeyValue.Incr(db, name).value.1;
  }

  /** The method's own write under another key leaves the instrumentation alone. */
  lemma WriteElsewhere(db: KeyValue.Db, name: string, count: nat, ins: seq<Bytes>, outs: seq<Bytes>, key: KeyValue.Key, value: Bytes)
    returns (after: KeyValue.Db)
    requires History(db, name, count, ins, outs)
    requires key != name && key != InputsKey(name) && key != OutputsKey(name)
    ensures KeyValue.Set(db, key, value, None) == Ok(after)
    ensures History(after, name, count, ins, outs)
    ensures KeyValue.Lookup(after, key) == Some(KeyValue.Str(value, None))
    ensures after.now == db.now
  {
    after := KeyValue.Set(db, key, value, None).value;
  }

  /** call_history's last step: the output joins the end of the outputs list. */
  lemma RecordOutput(db: KeyValue.Db, name: string, count: nat, ins: seq<Bytes>, outs: seq<Bytes>, output: Bytes)
    returns (after: KeyValue.Db)
    requires History(db, name, count, ins, outs)
    ensures KeyValue.RPush(db, OutputsKey(name), output) == Ok((|outs| + 1, after))
    ensures History(after, name, count, ins, outs + [output])
    ensures after.now == db.now
  {
    HistoryKeysDistinct(name);
    KeyValue.PushThenRange(db, OutputsKey(name), outs, output);
    after := KeyValue.Put(db, OutputsKey(name), KeyValue.List(outs + [output]));
  }

  /** When each of its four commands succeeds, the decorated store returns the
      key and leaves the database the last command produced. */
  lemma StoreCallSucceeds(db: KeyValue.Db, data: Payload, uuid: KeyValue.Key,
                          db1: KeyValue.Db, db2: KeyValue.Db, db3: KeyValue.Db, db4: KeyValue.Db)
    requires KeyValue.RPush(db, InputsKey(StoreName), Encode(ArgsText(data))).Ok?
    requires KeyValue.RPush(db, InputsKey(StoreName), Encode(ArgsText(data))).value.1 == db1
    requires KeyValue.Incr(db1, StoreName).Ok? && KeyValue.Incr(db1, StoreName).value.1 == db2
    requires KeyValue.Set(db2, uuid, Encoded(data), None) == Ok(db3)
    requires KeyValue.RPush(db3, OutputsKey(StoreName), Encode(uuid)).Ok?
    requires KeyValue.RPush(db3, OutputsKey(StoreName), Encode(uuid)).value.1 == db4
    ensures StoreCall(db, data, uuid) == (Ok(uuid), db4)
  {
    assert CountCalls(StoreName, d' => WriteUnderKey(data, uuid, d'), db1) == (Ok(uuid), db3);
  }

  /** One store call on a database whose instrumentation is in order: it
      returns the generated key, counts once, appends str(args) to the inputs
      and the key to the outputs, holds the data under the key with no expiry,
      and leaves every other key as it was. */
  lemma StoreRecordsCall(db: KeyValue.Db, data: Payload, uuid: KeyValue.Key, count: nat, ins: seq<Bytes>, outs: seq<Bytes>)
    requires !IsInstrumentationKey(uuid)
    requires History(db, StoreName, count, ins, outs)
    requires count < Decimal.MaxInt64
    ensures StoreCall(db, data, uuid).0 == Ok(uuid)
    ensures History(StoreCall(db, data, uuid).1, StoreName, count + 1, ins + [Encode(ArgsText(data))], outs + [Encode(uuid)])
    ensures KeyValue.Lookup(StoreCall(db, data, uuid).1, uuid) == Some(KeyValue.Str(Encoded(data), None))
    ensures forall k :: !IsInstrumentationKey(k) && k != uuid ==>
      KeyValue.Lookup(StoreCall(db, data, uuid).1, k) == KeyValue.Lookup(db, k)
    ensures StoreCall(db, data, uuid).1.now == db.now
  {
    var after := StoreStep(db, data, uuid, count, ins, outs);
    StoreCallWrites(db, data, uuid);
    forall k | !IsInstrumentationKey(k) && k != uuid
      ensures KeyValue.Lookup(after, k) == KeyValue.Lookup(db, k)
    {
      StoreCallFrame(db, data, uuid, k);
    }
  }

  /** A store call when the counter already holds the largest 64-bit value:
      the arguments were pushed before the increment failed, so the inputs
      list grows by one while the counter, the outputs list and the
      generated key stay as they were, and the call fails. */
  lemma StoreOverflowKeepsInput(db: KeyValue.Db, data: Payload, uuid: KeyValue.Key, ins: seq<Bytes>, outs: seq<Bytes>)
    requires !IsInstrumentationKey(uuid)
    requires History(db, StoreName, Decimal.MaxInt64, ins, outs)
    ensures StoreCall(db, data, uuid).0 == Err(IncrOverflow)
    ensures History(StoreCall(db, data, uuid).1, StoreName, Decimal.MaxInt64, ins + [Encode(ArgsText(data))], outs)
    ensures KeyValue.Lookup(StoreCall(db, data, uuid).1, uuid) == KeyValue.Lookup(db, uuid)
  {
    var input := Encode(ArgsText(data));
    var recorded := RecordInput(db, StoreName, Decimal.MaxInt64, ins, outs, input);
    Decimal.ParseCounterFormat(Decimal.MaxInt64);
    assert KeyValue.Incr(recorded, StoreName) == Err(IncrOverflow);
    assert StoreCall(db, data, uuid) == (Err(IncrOverflow), recorded);
  }

  /** A store call when the outputs key holds a string instead of a list: the
      input is recorded, the call is counted and the data is written, and only
      then does the final RPUSH fail with WRONGTYPE, which is what the caller
      sees. */
  lemma StoreWithStringOutputs(db: KeyValue.Db, data: Payload, uuid: KeyValue.Key, count: nat, ins: seq<Bytes>,
                               text: Bytes, expiry: Option<int>)
    requires !IsInstrumentationKey(uuid)
    requires count < Decimal.MaxInt64
    requires KeyValue.Lookup(db, StoreName) == (if count == 0 then None else Some(KeyValue.Str(Decimal.Format(count), None)))
    requires KeyValue.Lookup(db, InputsKey(StoreName)) == (if ins == [] then None else Some(KeyValue.List(ins)))
    requires KeyValue.Lookup(db, OutputsKey(StoreName)) == Some(KeyValue.Str(text, expiry))
    ensures StoreCall(db, data, uuid).0 == Err(WrongType)
    ensures KeyValue.Lookup(StoreCall(db, data, uuid).1, StoreName) == Some(KeyValue.Str(Decimal.Format(count + 1), None))
    ensures KeyValue.Lookup(StoreCall(db, data, uuid).1, InputsKey(StoreName)) == Some(KeyValue.List(ins + [Encode(ArgsText(data))]))
    ensures KeyValue.Lookup(StoreCall(db, data, uuid).1, OutputsKey(StoreName)) == Some(KeyValue.Str(text, expiry))
    ensures KeyValue.Lookup(StoreCall(db, data, uuid).1, uuid) == Some(KeyValue.Str(Encoded(data), None))
  {
    HistoryKeysDistinct(StoreName);
    var input := Encode(ArgsText(data));
    KeyValue.PushThenRange(db, InputsKey(StoreName), ins, input);
    var recorded := KeyValue.Put(db, InputsKey(StoreName), KeyValue.List(ins + [input]));
    KeyValue.IncrCounts(recorded, StoreName, count);
    var counted := KeyValue.Incr(recorded, StoreName).value.1;
    var written := KeyValue.Set(counted, uuid, Encoded(data), None).value;
    assert KeyValue.RPush(written, OutputsKey(StoreName), Encode(uuid)) == Err(WrongType);
    assert CountCalls(StoreName, d' => WriteUnderKey(data, uuid, d'), recorded) == (Ok(uuid), written);
    assert StoreCall(db, data, uuid) == (Err(WrongType), written);
  }

  /** The part of one store call that a run of calls builds on: the reply and
      the instrumentation after it, for the database the call leaves. */
  lemma StoreStep(db: KeyValue.Db, data: Payload, uuid: KeyValue.Key, count: nat, ins: seq<Bytes>, outs: seq<Bytes>)
    returns (after: KeyValue.Db)
    requires !IsInstrumentationKey(uuid)
    requires History(db, StoreName, count, ins, outs)
    requires count < Decimal.MaxInt64
    ensures StoreCall(db, data, uuid) == (Ok(uuid), after)
    ensures History(after, StoreName, count + 1, ins + [Encode(ArgsText(data))], outs + [Encode(uuid)])
    ensures after.now == db.now
  {
    var input := Encode(ArgsText(data));
    var db1 := RecordInput(db, StoreName, count, ins, outs, input);
    var db2 := CountCall(db1, StoreName, count, ins + [input], outs);
    var db3 := WriteElsewhere(db2, StoreName, count + 1, ins + [input], outs, uuid, Encoded(data));
    after := RecordOutput(db3, StoreName, count + 1, ins + [input], outs, Encode(uuid));
    StoreCallSucceeds(db, data, uuid, db1, db2, db3, after);
  }

  /** str(args) of each call, as recorded. */
  function InputsOf(datas: seq<Payload>): (r: seq<Bytes>)
    ensures |r| == |datas|
    ensures forall i :: 0 <= i < |datas| ==> r[i] == Encode(ArgsText(datas[i]))
  {
    if datas == [] then [] else [Encode(ArgsText(datas[0]))] + InputsOf(datas[1..])
  }

  /** The key each call returned, as recorded. */
  function OutputsOf(uuids: seq<KeyValue.Key>): (r: seq<Bytes>)
    ensures |r| == |uuids|
    ensures forall i :: 0 <= i < |uuids| ==> r[i] == Encode(uuids[i])
  {
    if uuids == [] then [] else [Encode(uuids[0])] + OutputsOf(uuids[1..])
  }

  /** Successive store calls, call i storing datas[i] under uuids[i]: the
      replies in order and the database after the last one. */
  function StoreAll(db: KeyValue.Db, datas: seq<Payload>, uuids: seq<KeyValue.Key>): (seq<Result<KeyValue.Key>>, KeyValue.Db)
    requires |datas| == |uuids|
    decreases |datas|
  {
    if datas == [] then
      ([], db)
    else
      var first := StoreCall(db, datas[0], uuids[0]);
      var rest := StoreAll(first.1, datas[1..], uuids[1..]);
      ([first.0] + rest.0, rest.1)
  }

  /** The first of N store calls on instrumentation in order: the later calls
      run on the database it leaves, whose instrumentation is again in order. */
  lemma StoreAllStep(db: KeyValue.Db, datas: seq<Payload>, uuids: seq<KeyValue.Key>, count: nat, ins: seq<Bytes>, outs: seq<Bytes>)
    returns (next: KeyValue.Db)
    requires |datas| == |uuids| && datas != [] && !IsInstrumentationKey(uuids[0])
    requires History(db, StoreName, count, ins, outs)
    requires count < Decimal.MaxInt64
    ensures StoreAll(db, datas, uuids).0 == [Ok(uuids[0])] + StoreAll(next, datas[1..], uuids[1..]).0
    ensures StoreAll(db, datas, uuids).1 == StoreAll(next, datas[1..], uuids[1..]).1
    ensures History(next, StoreName, count + 1, ins + [Encode(ArgsText(datas[0]))], outs + [Encode(uuids[0])])
  {
    next := StoreStep(db, datas[0], uuids[0], count, ins, outs);
  }

  predicate AllUuids(uuids: seq<KeyValue.Key>) {
    forall i :: 0 <= i < |uuids| ==> IsUuid4Text(uuids[i])
  }

  /** Keys that are none of the three instrumentation keys. */
  predicate ApartFromHistory(keys: seq<KeyValue.Key>) {
    forall i :: 0 <= i < |keys| ==> !IsInstrumentationKey(keys[i])
  }

  lemma UuidsApartFromHistory(uuids: seq<KeyValue.Key>)
    requires AllUuids(uuids)
    ensures ApartFromHistory(uuids)
  {
    forall i | 0 <= i < |uuids|
      ensures !IsInstrumentationKey(uuids[i])
    {
      UuidIsNotInstrumentation(uuids[i]);
    }
  }

  /** The inputs list `ins` extended by one entry per call of `datas`. */
  function InputsAfter(ins: seq<Bytes>, datas: seq<Payload>): seq<Bytes>
    decreases |datas|
  {
    if datas == [] then ins else InputsAfter(ins + [Encode(ArgsText(datas[0]))], datas[1..])
  }

  /** The outputs list `outs` extended by one entry per key of `uuids`. */
  function OutputsAfter(outs: seq<Bytes>, uuids: seq<KeyValue.Key>): seq<Bytes>
    decreases |uuids|
  {
    if uuids == [] then outs else OutputsAfter(outs + [Encode(uuids[0])], uuids[1..])
  }

  /** Regrouping a concatenation, stated apart from the inductions below so
      that it is proved without their hypotheses in scope. */
  lemma SnocThenRest(prefix: seq<Bytes>, x: Bytes, rest: seq<Bytes>)
    ensures (prefix + [x]) + rest == prefix + ([x] + rest)
  {
  }

  lemma {:induction false} InputsAfterAppends(ins: seq<Bytes>, datas: seq<Payload>)
    ensures InputsAfter(ins, datas) == ins + InputsOf(datas)
    decreases |datas|
  {
    if datas != [] {
      InputsAfterAppends(ins + [Encode(ArgsText(datas[0]))], datas[1..]);
      SnocThenRest(ins, Encode(ArgsText(datas[0])), InputsOf(datas[1..]));
    }
  }

  lemma {:induction false} OutputsAfterAppends(outs: seq<Bytes>, uuids: seq<KeyValue.Key>)
    ensures OutputsAfter(outs, uuids) == outs + OutputsOf(uuids)
    decreases |uuids|
  {
    if uuids != [] {
      OutputsAfterAppends(outs + [Encode(uuids[0])], uuids[1..]);
      SnocThenRest(outs, Encode(uuids[0]), OutputsOf(uuids[1..]));
    }
  }

  /** N more store calls each return their own key. */
  lemma {:induction false} StoreAllReturnsKeys(db: KeyValue.Db, datas: seq<Payload>, uuids: seq<KeyValue.Key>,
                                               count: nat, ins: seq<Bytes>, outs: seq<Bytes>)
    requires |datas| == |uuids| && ApartFromHistory(uuids)
    requires History(db, StoreName, count, ins, outs)
    requires count + |datas| <= Decimal.MaxInt64
    decreases |datas|
    ensures |StoreAll(db, datas, uuids).0| == |uuids|
    ensures forall i :: 0 <= i < |uuids| ==> StoreAll(db, datas, uuids).0[i] == Ok(uuids[i])
  {
    if datas != [] {
      var input, output := Encode(ArgsText(datas[0])), Encode(uuids[0]);
      var next := StoreAllStep(db, datas, uuids, count, ins, outs);
      StoreAllReturnsKeys(next, datas[1..], uuids[1..], count + 1, ins + [input], outs + [output]);
    }
  }

  /** N more store calls add N to the counter (reaching `total`) and one entry
      per call, in call order, to each list. */
  lemma {:induction false} StoreAllRecords(db: KeyValue.Db, datas: seq<Payload>, uuids: seq<KeyValue.Key>,
                                           count: nat, total: nat, ins: seq<Bytes>, outs: seq<Bytes>)
    requires |datas| == |uuids| && ApartFromHistory(uuids)
    requires History(db, StoreName, count, ins, outs)
    requires total == count + |datas| <= Decimal.MaxInt64
    decreases |datas|
    ensures History(StoreAll(db, datas, uuids).1, StoreName, total, InputsAfter(ins, datas), OutputsAfter(outs, uuids))
  {
    if datas != [] {
      var next := StoreAllStep(db, datas, uuids, count, ins, outs);
      StoreAllRecords(next, datas[1..], uuids[1..], count + 1, total, ins + [Encode(ArgsText(datas[0]))], outs + [Encode(uuids[0])]);
    }
  }

  /** From a freshly constructed cache (an empty database), N store calls leave
      the counter at N and both lists at length N, the i-th input and the
      i-th output both belonging to the i-th call. */
  lemma CountsMatchHistories(db: KeyValue.Db, datas: seq<Payload>, uuids: seq<KeyValue.Key>)
    requires db.entries == map[]
    requires |datas| == |uuids| <= Decimal.MaxInt64 && AllUuids(uuids)
    ensures var after := StoreAll(db, datas, uuids).1;
      && KeyValue.Get(after, StoreName) == Ok(if datas == [] then None else Some(Decimal.Format(|datas|)))
      && KeyValue.LRange(after, InputsKey(StoreName), 0, -1) == Ok(InputsOf(datas))
      && KeyValue.LRange(after, OutputsKey(StoreName), 0, -1) == Ok(OutputsOf(uuids))
  {
    UuidsApartFromHistory(uuids);
    StoreAllRecords(db, datas, uuids, 0, |datas|, [], []);
    InputsAfterAppends([], datas);
    OutputsAfterAppends([], uuids);
    assert [] + InputsOf(datas) == InputsOf(datas) && [] + OutputsOf(uuids) == OutputsOf(uuids);
    HistoryReads(StoreAll(db, datas, uuids).1, StoreName, |datas|, InputsOf(datas), OutputsOf(uuids));
  }

  /** What GET and LRANGE 0 -1 return on instrumentation that is in order. */
  lemma HistoryReads(db: KeyValue.Db, name: string, count: nat, ins: seq<Bytes>, outs: seq<Bytes>)
    requires History(db, name, count, ins, outs)
    ensures KeyValue.Get(db, name) == Ok(if count == 0 then None else Some(Decimal.Format(count)))
    ensures KeyValue.LRange(db, InputsKey(name), 0, -1) == Ok(ins)
    ensures KeyValue.LRange(db, OutputsKey(name), 0, -1) == Ok(outs)
  {
    KeyValue.RangeAll(db, InputsKey(name), ins);
    KeyValue.RangeAll(db, OutputsKey(name), outs);
  }

  /** count_calls writes only the counter besides what the method writes. */
  lemma CountCallsFrame(name: string, inner: Call, db: KeyValue.Db, k: KeyValue.Key)
    requires k != name
    requires forall d :: KeyValue.Lookup(inner(d).1, k) == KeyValue.Lookup(d, k)
    ensures KeyValue.Lookup(CountCalls(name, inner, db).1, k) == KeyValue.Lookup(db, k)
  {
  }

  /** call_history writes only the two history lists besides what the method
      writes. */
  lemma CallHistoryFrame(name: string, args: string, inner: Call, db: KeyValue.Db, k: KeyValue.Key)
    requires k != InputsKey(name) && k != OutputsKey(name)
    requires forall d :: KeyValue.Lookup(inner(d).1, k) == KeyValue.Lookup(d, k)
    ensures KeyValue.Lookup(CallHistory(name, args, inner, db).1, k) == KeyValue.Lookup(db, k)
  {
  }

  /** A store call writes nothing but the three instrumentation keys and the
      generated key, whether it succeeds or fails part-way. */
  lemma StoreCallFrame(db: KeyValue.Db, data: Payload, uuid: KeyValue.Key, k: KeyValue.Key)
    requires !IsInstrumentationKey(k) && k != uuid
    ensures KeyValue.Lookup(StoreCall(db, data, uuid).1, k) == KeyValue.Lookup(db, k)
  {
    var body: Call := d => WriteUnderKey(data, uuid, d);
    var counted: Call := d => CountCalls(StoreName, body, d);
    forall d ensures KeyValue.Lookup(counted(d).1, k) == KeyValue.Lookup(d, k) {
      CountCallsFrame(StoreName, body, d, k);
    }
    CallHistoryFrame(StoreName, ArgsText(data), counted, db, k);
  }

  /** Whenever store succeeds it returns the generated key, and that key then
      holds the data with no expiry (a new key, when it was absent before). */
  lemma StoreCallWrites(db: KeyValue.Db, data: Payload, uuid: KeyValue.Key)
    requires !IsInstrumentationKey(uuid)
    ensures StoreCall(db, data, uuid).0.Ok? ==>
      && StoreCall(db, data, uuid).0 == Ok(uuid)
      && KeyValue.Lookup(StoreCall(db, data, uuid).1, uuid) == Some(KeyValue.Str(Encoded(data), None))
  {
  }

  /** get after a successful store reads the data back: text through str,
      integers through int (or as their decimal text through str), bytes as
      they are or through any other callable. A stored value whose bytes are
      empty reads back as None, whatever the coercion. */
  lemma GetAfterStore<T>(db: KeyValue.Db, data: Payload, uuid: KeyValue.Key, fn: Coercion<T>)
    requires IsUuid4Text(uuid)
    requires StoreCall(db, data, uuid).0.Ok?
    ensures var after := StoreCall(db, data, uuid).1;
      && (Encoded(data) == [] ==> GetCoerced(after, uuid, fn) == Ok(Nothing))
      && (data.Text? && data.s != [] && fn.StrFn? ==> GetCoerced(after, uuid, fn) == Ok(StrValue(data.s)))
      && (data.Integer? && fn.IntFn? ==> GetCoerced(after, uuid, fn) == Ok(IntValue(data.n)))
      && (data.Integer? && fn.StrFn? ==> GetCoerced(after, uuid, fn) == Ok(StrValue(Decimal.Show(data.n))))
      && (Encoded(data) != [] && fn.NoFn? ==> GetCoerced(after, uuid, fn) == Ok(RawValue(Encoded(data))))
      && (Encoded(data) != [] && fn.OtherFn? ==> GetCoerced(after, uuid, fn) == Ok(FnValue(fn.f(Encoded(data)))))
  {
    UuidIsNotInstrumentation(uuid);
    StoreCallWrites(db, data, uuid);
    var after := StoreCall(db, data, uuid).1;
    assert KeyValue.Get(after, uuid) == Ok(Some(Encoded(data)));
    if data.Text? {
      if data.s != [] {
        assert Encoded(data) != [] by {
          assert |Encode(data.s)| >= |data.s|;
        }
      }
    }
    if data.Integer? {
      Decimal.ParsePyIntFormat(data.n);
      Decimal.FormatIsShow(data.n);
      assert Encoded(data) != [] by {
        assert Decimal.ParsePyInt(Encoded(data)).Some?;
      }
    }
  }

  /** Bytes stored raw and read back through str: the text they encode when
      they are UTF-8, UnicodeDecodeError exactly when no text encodes to them. */
  lemma GetRawAsText(db: KeyValue.Db, b: Bytes, uuid: KeyValue.Key)
    requires IsUuid4Text(uuid)
    requires StoreCall(db, Raw(b), uuid).0.Ok?
    requires b != []
    ensures var got := GetCoerced(StoreCall(db, Raw(b), uuid).1, uuid, Coercion<int>.StrFn);
      && (forall s :: Encode(s) == b ==> got == Ok(StrValue(s)))
      && (got == Err(UnicodeDecodeError) <==> forall s :: Encode(s) != b)
  {
    UuidIsNotInstrumentation(uuid);
    StoreCallWrites(db, Raw(b), uuid);
    var after := StoreCall(db, Raw(b), uuid).1;
    assert KeyValue.Get(after, uuid) == Ok(Some(b));
    var got := GetCoerced(after, uuid, Coercion<int>.StrFn);
    if got != Err(UnicodeDecodeError) {
      assert Encode(Cache.GetStr(b).value) == b;
    }
  }

  /** Example: "42" stored as text reads back as the integer 42
      through int, while "abc" makes int raise ValueError. */
  lemma GetIntOfStoredText(db: KeyValue.Db, uuid: KeyValue.Key, s: string)
    requires IsUuid4Text(uuid)
    requires StoreCall(db, Text(s), uuid).0.Ok?
    ensures s == "42" ==> GetCoerced(StoreCall(db, Text(s), uuid).1, uuid, Coercion<int>.IntFn) == Ok(IntValue(42))
    ensures s == "abc" ==> GetCoerced(StoreCall(db, Text(s), uuid).1, uuid, Coercion<int>.IntFn) == Err(ValueError)
  {
    UuidIsNotInstrumentation(uuid);
    StoreCallWrites(db, Text(s), uuid);
    var after := StoreCall(db, Text(s), uuid).1;
    assert KeyValue.Get(after, uuid) == Ok(Some(Encode(s)));
    if s == "42" {
      Decimal.PyIntOf42();
    } else if s == "abc" {
      Decimal.PyIntOfAbc();
    }
  }
}
