/** The key-value store the cache and the page wrapper talk to, as a value: one
    keyspace of byte strings (each with an optional expiry time) and lists of
    byte strings, plus the server clock in whole seconds. Each command is a
    function from the database before it to its reply and the database after;
    a command that replies with an error changes nothing. */
module KeyValue {
  import opened Results
  import opened Utf8
  import Decimal

  type Key = string

  /** What a key holds: a byte string that expires at `expiry` when it has one,
      or a list. Counters are byte strings holding a decimal integer. */
  datatype Entry = Str(bytes: Bytes, expiry: Option<int>) | List(items: seq<Bytes>)

  datatype Db = Db(entries: map<Key, Entry>, now: int)

  /** A string whose expiry time has come is gone; lists never expire here. */
  predicate Live(e: Entry, now: int) {
    e.List? || e.expiry.None? || now < e.expiry.value
  }

  /** The entry every command sees under key. */
  function Lookup(db: Db, key: Key): Option<Entry> {
    if key in db.entries && Live(db.entries[key], db.now) then Some(db.entries[key]) else None
  }

  function Put(db: Db, key: Key, e: Entry): (r: Db)
    ensures Lookup(r, key) == (if Live(e, db.now) then Some(e) else None)
    ensures forall k :: k != key ==> Lookup(r, k) == Lookup(db, k)
    ensures r.now == db.now
  {
    db.(entries := db.entries[key := e])
  }

  /** GET key: the bytes, nothing for a missing or expired key, WRONGTYPE for a list. */
  function Get(db: Db, key: Key): Result<Option<Bytes>> {
    match Lookup(db, key)
    case None => Ok(None)
    case Some(Str(b, _)) => Ok(Some(b))
    case Some(List(_)) => Err(WrongType)
  }

  /** SET key value [EX seconds]: overwrites whatever the key held; without EX
      the new value never expires, with EX it expires `seconds` from now. */
  function Set(db: Db, key: Key, value: Bytes, ex: Option<int>): Result<Db> {
    if ex.Some? && ex.value <= 0 then
      Err(InvalidExpireTime)
    else
      Ok(Put(db, key, Str(value, if ex.Some? then Some(db.now + ex.value) else None)))
  }

  /** INCR key: a missing key counts from 0; the new value keeps the old expiry. */
  function Incr(db: Db, key: Key): Result<(int, Db)> {
    match Lookup(db, key)
    case None => Ok((1, Put(db, key, Str(Decimal.Format(1), None))))
    case Some(List(_)) => Err(WrongType)
    case Some(Str(b, ex)) =>
      match Decimal.ParseCounter(b)
      case None => Err(NotAnInteger)
      case Some(n) =>
        if n == Decimal.MaxInt64 then Err(IncrOverflow)
        else Ok((n + 1, Put(db, key, Str(Decimal.Format(n + 1), ex))))
  }

  /** RPUSH key value: appends to the list, creating it when missing; replies
      with the new length. */
  function RPush(db: Db, key: Key, value: Bytes): Result<(nat, Db)> {
    match Lookup(db, key)
    case None => Ok((1, Put(db, key, List([value]))))
    case Some(Str(_, _)) => Err(WrongType)
    case Some(List(items)) => Ok((|items| + 1, Put(db, key, List(items + [value]))))
  }

  /** The elements from start to stop inclusive, negative positions counting
      from the end, out-of-range positions clamped. */
  function Range(items: seq<Bytes>, start: int, stop: int): seq<Bytes> {
    var len := |items|;
    var first := if start < 0 then start + len else start;
    var last := if stop < 0 then stop + len else stop;
    var first := if first < 0 then 0 else first;
    if first > last || first >= len then []
    else items[first..(if last >= len then len else last + 1)]
  }

  /** LRANGE key start stop: a missing key is the empty list. */
  function LRange(db: Db, key: Key, start: int, stop: int): Result<seq<Bytes>> {
    match Lookup(db, key)
    case None => Ok([])
    case Some(Str(_, _)) => Err(WrongType)
    case Some(List(items)) => Ok(Range(items, start, stop))
  }

  /** FLUSHDB: every key of the database is deleted. */
  function FlushDb(db: Db): Db {
    Db(map[], db.now)
  }

  /** The clock moving on; nothing else changes. */
  function Advance(db: Db, seconds: nat): Db {
    db.(now := db.now + seconds)
  }

  /** A value written by SET is what GET then returns, until it expires. */
  lemma GetAfterSet(db: Db, key: Key, value: Bytes, ex: Option<int>, elapsed: nat)
    requires ex.None? || ex.value > 0
    ensures Set(db, key, value, ex).Ok?
    ensures ex.None? || elapsed < ex.value ==>
      Get(Advance(Set(db, key, value, ex).value, elapsed), key) == Ok(Some(value))
    ensures ex.Some? && elapsed >= ex.value ==>
      Get(Advance(Set(db, key, value, ex).value, elapsed), key) == Ok(None)
  {
  }

  /** INCR on a missing key gives 1; on a counter holding n it gives n + 1 and
      leaves the counter holding n + 1, with the same expiry. */
  lemma IncrCounts(db: Db, key: Key, n: int)
    requires Lookup(db, key).None? || (Lookup(db, key).value.Str? && Lookup(db, key).value.bytes == Decimal.Format(n))
    requires Lookup(db, key).None? ==> n == 0
    requires Decimal.MinInt64 <= n < Decimal.MaxInt64
    ensures Incr(db, key).Ok? && Incr(db, key).value.0 == n + 1
    ensures var after := Incr(db, key).value.1;
      Lookup(after, key) == Some(Str(Decimal.Format(n + 1),
        if Lookup(db, key).None? then None else Lookup(db, key).value.expiry))
    ensures forall k :: k != key ==> Lookup(Incr(db, key).value.1, k) == Lookup(db, k)
  {
    if Lookup(db, key).Some? {
      Decimal.ParseCounterFormat(n);
    }
  }

  /** LRANGE 0 -1 reads a whole list, and a missing key as the empty list. */
  lemma RangeAll(db: Db, key: Key, items: seq<Bytes>)
    requires Lookup(db, key) == (if items == [] then None else Some(List(items)))
    ensures LRange(db, key, 0, -1) == Ok(items)
  {
    assert items[0..|items|] == items;
  }

  /** RPUSH appends exactly one element and LRANGE 0 -1 reads the whole list back. */
  lemma PushThenRange(db: Db, key: Key, items: seq<Bytes>, value: Bytes)
    requires Lookup(db, key) == (if items == [] then None else Some(List(items)))
    ensures RPush(db, key, value) == Ok((|items| + 1, Put(db, key, List(items + [value]))))
    ensures LRange(RPush(db, key, value).value.1, key, 0, -1) == Ok(items + [value])
    ensures LRange(db, key, 0, -1) == Ok(items)
  {
    assert items + [value] == (if items == [] then [value] else items + [value]);
    assert items[0..|items|] == items;
    assert (items + [value])[0..|items| + 1] == items + [value];
  }
}
