/** The instrumented cache: Cache.store wrapped by call_history (outer) and
    count_calls (inner), Cache.get with its coercions, and replay, which
    reads the recorded history back. All of it runs against one shared
    database. */
module Exercise {
  import opened Results
  import opened Utf8
  import Decimal
  import KeyValue
  import Redis
  import PyRepr

  /** The qualified name of Cache.store: the key of its call counter and the
      prefix of its two history lists. */
  const StoreName: string := "Cache.store"

  function InputsKey(name: string): KeyValue.Key {
    name + ":inputs"
  }

  function OutputsKey(name: string): KeyValue.Key {
    name + ":outputs"
  }

  /** The payloads Cache.store accepts (floats are not modelled). */
  datatype Payload = Text(s: string) | Raw(b: Bytes) | Integer(n: int)

  /** The bytes the client library writes for a payload: UTF-8 for text, the
      bytes themselves, the decimal rendering of an integer. */
  function Encoded(data: Payload): Bytes {
    match data
    case Text(s) => Encode(s)
    case Raw(b) => b
    case Integer(n) => Decimal.Format(n)
  }

  /** str(args) for the argument tuple (data,) of one call. */
  function ArgsText(data: Payload): string {
    var shown :=
      match data
      case Text(s) => PyRepr.StrRepr(s)
      case Raw(b) => PyRepr.BytesRepr(b)
      case Integer(n) => Decimal.Show(n);
    "(" + shown + ",)"
  }

  predicate IsLowerHex(c: char) {
    '0' <= c <= '9' || 'a' <= c <= 'f'
  }

  /** The text of str(uuid4()): 32 lower-case hex digits grouped 8-4-4-4-12,
      version digit 4, variant digit one of 8, 9, a, b. */
  predicate IsUuid4Text(s: string) {
    && |s| == 36
    && (forall i :: 0 <= i < 36 ==> if i == 8 || i == 13 || i == 18 || i == 23 then s[i] == '-' else IsLowerHex(s[i]))
    && s[14] == '4'
    && s[19] in "89ab"
  }

  /** A method of the cache as seen through the database: the database before
      the call to its reply and the database after. */
  type Call = KeyValue.Db -> (Result<string>, KeyValue.Db)

  /** count_calls: increment the counter named after the method, then run it. */
  function CountCalls(name: string, inner: Call, db: KeyValue.Db): (Result<string>, KeyValue.Db) {
    match KeyValue.Incr(db, name)
    case Err(e) => (Err(e), db)
    case Ok((_, counted)) => inner(counted)
  }

  /** call_history: append str(args) to the inputs list, run the method, then
      append what it returned to the outputs list. */
  function CallHistory(name: string, args: string, inner: Call, db: KeyValue.Db): (Result<string>, KeyValue.Db) {
    match KeyValue.RPush(db, InputsKey(name), Encode(args))
    case Err(e) => (Err(e), db)
    case Ok((_, recorded)) =>
      var (out, ran) := inner(recorded);
      match out
      case Err(e) => (Err(e), ran)
      case Ok(output) =>
        match KeyValue.RPush(ran, OutputsKey(name), Encode(output))
        case Err(e) => (Err(e), ran)
        case Ok((_, done)) => (Ok(output), done)
  }

  /** The undecorated body of Cache.store: SET the data under the generated key
      (no expiry) and return the key. */
  function WriteUnderKey(data: Payload, key: KeyValue.Key, db: KeyValue.Db): (Result<string>, KeyValue.Db) {
    (Ok(key), KeyValue.Set(db, key, Encoded(data), None).value)
  }

  /** Cache.store as decorated: call_history around count_calls around the body,
      with `uuid` the key uuid4 produced for this call. */
  function StoreCall(db: KeyValue.Db, data: Payload, uuid: KeyValue.Key): (Result<KeyValue.Key>, KeyValue.Db) {
    CallHistory(StoreName, ArgsText(data),
      d => CountCalls(StoreName, d' => WriteUnderKey(data, uuid, d'), d), db)
  }

  /** The coercion argument of Cache.get: None (or anything not callable), the
      int type, the str type, or some other callable. */
  datatype Coercion<T> = NoFn | IntFn | StrFn | OtherFn(f: Bytes -> T)

  /** What Cache.get returns: None, the raw bytes, or the coerced value. */
  datatype Got<T> = Nothing | RawValue(bytes: Bytes) | IntValue(n: int) | StrValue(s: string) | FnValue(v: T)

  /** Cache.get on a database state. */
  function GetCoerced<T>(db: KeyValue.Db, key: KeyValue.Key, fn: Coercion<T>): (r: Result<Got<T>>)
    ensures r == Ok(Nothing) <==> KeyValue.Get(db, key) == Ok(None) || KeyValue.Get(db, key) == Ok(Some([]))
    ensures KeyValue.Get(db, key).Err? ==> r == Err(KeyValue.Get(db, key).error)
    ensures KeyValue.Get(db, key).Ok? && KeyValue.Get(db, key).value.Some? && KeyValue.Get(db, key).value.value != [] ==>
      var b := KeyValue.Get(db, key).value.value;
      match fn
      case IntFn => (r.Ok? <==> Cache.GetInt(b).Ok?) && (r.Ok? ==> r == Ok(IntValue(Cache.GetInt(b).value))) && (r.Err? ==> r.error == ValueError)
      case StrFn => (r.Ok? <==> Cache.GetStr(b).Ok?) && (r.Ok? ==> r == Ok(StrValue(Cache.GetStr(b).value))) && (r.Err? ==> r.error == UnicodeDecodeError)
      case OtherFn(f) => r == Ok(FnValue(f(b)))
      case NoFn => r == Ok(RawValue(b))
  {
    var value :- KeyValue.Get(db, key);
    if value.None? || value.value == [] then
      Ok(Nothing)
    else
      match fn
      case IntFn =>
        var n :- Cache.GetInt(value.value);
        Ok(IntValue(n))
      case StrFn =>
        var s :- Cache.GetStr(value.value);
        Ok(StrValue(s))
      case OtherFn(f) => Ok(FnValue(f(value.value)))
      case NoFn => Ok(RawValue(value.value))
  }

  class Cache {
    const redis: Redis.Database

    /** A cache on the shared database, which it empties. */
    constructor (redis: Redis.Database)
      modifies redis
      ensures this.redis == redis
      ensures redis.State() == KeyValue.FlushDb(old(redis.State()))
      ensures redis.State().entries == map[]
    {
      this.redis := redis;
      new;
      redis.FlushDb();
    }

    /** Cache.store(data), where `uuid` is the key uuid4() generated for this call. */
    method Store(data: Payload, uuid: KeyValue.Key) returns (r: Result<KeyValue.Key>)
      requires IsUuid4Text(uuid)
      modifies redis
      ensures (r, redis.State()) == StoreCall(old(redis.State()), data, uuid)
    {
      // call_history: the arguments go in first
      var recorded := redis.RPush(InputsKey(StoreName), Encode(ArgsText(data)));
      if recorded.Err? {
        return Err(recorded.error);
      }
      // count_calls
      var counted := redis.Incr(StoreName);
      if counted.Err? {
        return Err(counted.error);
      }
      // the body of store
      var written := redis.Set(uuid, Encoded(data), None);
      assert written.Ok?;
      // call_history: the output goes in last
      var logged := redis.RPush(OutputsKey(StoreName), Encode(uuid));
      if logged.Err? {
        return Err(logged.error);
      }
      r := Ok(uuid);
    }

    /** Cache.get(key, fn). */
    method Get<T>(key: KeyValue.Key, fn: Coercion<T>) returns (r: Result<Got<T>>)
      ensures r == GetCoerced(redis.State(), key, fn)
    {
      var value := redis.Get(key);
      if value.Err? {
        return Err(value.error);
      }
      if value.value.None? || value.value.value == [] {
        return Ok(Nothing);
      }
      var data := value.value.value;
      match fn {
        case IntFn =>
          var n := GetInt(data);
          r := if n.Ok? then Ok(IntValue(n.value)) else Err(n.error);
        case StrFn =>
          var s := GetStr(data);
          r := if s.Ok? then Ok(StrValue(s.value)) else Err(s.error);
        case OtherFn(f) =>
          r := Ok(FnValue(f(data)));
        case NoFn =>
          r := Ok(RawValue(data));
      }
    }

    /** Cache.get_str: decode UTF-8, the inverse of what the client wrote. */
    static function GetStr(data: Bytes): (r: Result<string>)
      ensures r.Ok? ==> Encode(r.value) == data
      ensures forall s :: Encode(s) == data ==> r == Ok(s)
      ensures r.Err? ==> r.error == UnicodeDecodeError
    {
      DecodeAccepts(data);
      Decode(data)
    }

    /** Cache.get_int: int() of the bytes, which accepts an optional sign
        followed by one or more ASCII digits and nothing else. */
    static function GetInt(data: Bytes): (r: Result<int>)
      ensures forall n :: Decimal.Format(n) == data ==> r == Ok(n)
      ensures forall i :: 0 <= i < |data| && !Decimal.IsDigit(data[i]) && !(i == 0 && |data| > 1 && Decimal.IsSign(data[0])) ==>
        r == Err(ValueError)
      ensures data == [] ==> r == Err(ValueError)
      ensures |data| > 0 && Decimal.AllDigits(data) ==> r == Ok(Decimal.Value(data))
      ensures |data| > 1 && Decimal.IsSign(data[0]) && Decimal.AllDigits(data[1..]) ==>
        r == Ok(if data[0] == 0x2D then -(Decimal.Value(data[1..]) as int) else Decimal.Value(data[1..]))
      ensures r.Ok? ==> |data| > 0 && (Decimal.AllDigits(data) || (|data| > 1 && Decimal.IsSign(data[0]) && Decimal.AllDigits(data[1..])))
      ensures r.Err? ==> r.error == ValueError
    {
      Decimal.ParsePyIntAccepts(data);
      Decimal.ParsePyIntShape(data);
      match Decimal.ParsePyInt(data)
      case Some(n) => Ok(n)
      case None => Err(ValueError)
    }
  }

  /** bytes.decode('utf-8') of every element, failing if one fails. */
  function DecodeAll(items: seq<Bytes>): (r: Result<seq<string>>)
    ensures r.Ok? ==> |r.value| == |items|
    ensures r.Ok? ==> forall i :: 0 <= i < |items| ==> Decode(items[i]) == Ok(r.value[i])
  {
    if items == [] then
      Ok([])
    else
      var first :- Decode(items[0]);
      var rest :- DecodeAll(items[1..]);
      Ok([first] + rest)
  }

  /** The line replay prints for one recorded call. */
  function CallLine(name: string, input: string, output: string): string {
    name + "(*" + input + ") -> " + output
  }

  /** The line replay prints first. */
  function Header(name: string, calls: string): string {
    name + " was called " + calls + " times:"
  }

  /** The loop of replay over zip(inputs, outputs): one line per position both
      lists have, pairing the elements at that position. */
  function ZipLines(name: string, ins: seq<string>, outs: seq<string>): (lines: seq<string>)
    ensures |lines| == if |ins| < |outs| then |ins| else |outs|
    ensures forall i :: 0 <= i < |lines| ==> lines[i] == CallLine(name, ins[i], outs[i])
  {
    if ins == [] || outs == [] then [] else [CallLine(name, ins[0], outs[0])] + ZipLines(name, ins[1..], outs[1..])
  }

  /** replay(fn) for the method named `name`: the lines it prints, in order.
      A missing counter fails, since .decode is then called on None. */
  function Replay(db: KeyValue.Db, name: string): Result<seq<string>> {
    var calls :- KeyValue.Get(db, name);
    var callsText :- if calls.None? then Err(AttributeError) else Decode(calls.value);
    var inputs :- KeyValue.LRange(db, InputsKey(name), 0, -1);
    var insText :- DecodeAll(inputs);
    var outputs :- KeyValue.LRange(db, OutputsKey(name), 0, -1);
    var outsText :- DecodeAll(outputs);
    Ok([Header(name, callsText)] + ZipLines(name, insText, outsText))
  }

  /** The printing part of replay: the header, then the zip loop. */
  method PrintLines(name: string, calls: string, ins: seq<string>, outs: seq<string>) returns (lines: seq<string>)
    ensures lines == [Header(name, calls)] + ZipLines(name, ins, outs)
  {
    lines := [Header(name, calls)];
    var i := 0;
    while i < |ins| && i < |outs|
      invariant 0 <= i <= |ins| && i <= |outs|
      invariant |lines| == 1 + i && lines[0] == Header(name, calls)
      invariant forall j :: 0 <= j < i ==> lines[1 + j] == CallLine(name, ins[j], outs[j])
    {
      lines := lines + [CallLine(name, ins[i], outs[i])];
      i := i + 1;
    }
    var zipped := ZipLines(name, ins, outs);
    assert |lines| == 1 + |zipped|;
    assert forall j :: 0 <= j < |zipped| ==> lines[1 + j] == zipped[j];
  }

  /** replay(fn) run against the server: it reads the counter and both lists,
      then prints the header and one line per step of the zip loop. Its
      output is the list of printed lines, which is what Replay specifies. */
  method ReplayPrint(redis: Redis.Database, name: string) returns (r: Result<seq<string>>)
    ensures r == Replay(redis.State(), name)
  {
    var calls := redis.Get(name);
    if calls.Err? {
      return Err(calls.error);
    }
    if calls.value.None? {
      return Err(AttributeError);
    }
    var callsText := Decode(calls.value.value);
    if callsText.Err? {
      return Err(callsText.error);
    }
    var inputs := redis.LRange(InputsKey(name), 0, -1);
    if inputs.Err? {
      return Err(inputs.error);
    }
    var ins := DecodeAll(inputs.value);
    if ins.Err? {
      return Err(ins.error);
    }
    var outputs := redis.LRange(OutputsKey(name), 0, -1);
    if outputs.Err? {
      return Err(outputs.error);
    }
    var outs := DecodeAll(outputs.value);
    if outs.Err? {
      return Err(outs.error);
    }
    var lines := PrintLines(name, callsText.value, ins.value, outs.value);
    r := Ok(lines);
  }
}
