/** The store as the shared, mutable server that every client connection of the
    program talks to: one object holding the keyspace and the clock. Each
    method is one command, atomic on its own, and does to the state what the
    corresponding function of the KeyValue module says. */
module Redis {
  import opened Results
  import opened Utf8
  import KeyValue

  class Database {
    var entries: map<KeyValue.Key, KeyValue.Entry>
    var now: int

    /** The database as a value. */
    function State(): KeyValue.Db
      reads this
    {
      KeyValue.Db(entries, now)
    }

    /** A server holding `entries` at clock time `now`. */
    constructor (entries: map<KeyValue.Key, KeyValue.Entry>, now: int)
      ensures State() == KeyValue.Db(entries, now)
    {
      this.entries := entries;
      this.now := now;
    }

    method FlushDb()
      modifies this
      ensures State() == KeyValue.FlushDb(old(State()))
    {
      entries := map[];
    }

    method Get(key: KeyValue.Key) returns (r: Result<Option<Bytes>>)
      ensures r == KeyValue.Get(State(), key)
    {
      r := KeyValue.Get(State(), key);
    }

    method Set(key: KeyValue.Key, value: Bytes, ex: Option<int>) returns (r: Result<()>)
      modifies this
      ensures match KeyValue.Set(old(State()), key, value, ex)
              case Ok(db) => r == Ok(()) && State() == db
              case Err(e) => r == Err(e) && State() == old(State())
    {
      var reply := KeyValue.Set(State(), key, value, ex);
      if reply.Ok? {
        entries := reply.value.entries;
        r := Ok(());
      } else {
        r := Err(reply.error);
      }
    }

    method Incr(key: KeyValue.Key) returns (r: Result<int>)
      modifies this
      ensures match KeyValue.Incr(old(State()), key)
              case Ok((n, db)) => r == Ok(n) && State() == db
              case Err(e) => r == Err(e) && State() == old(State())
    {
      var reply := KeyValue.Incr(State(), key);
      if reply.Ok? {
        entries := reply.value.1.entries;
        r := Ok(reply.value.0);
      } else {
        r := Err(reply.error);
      }
    }

    method RPush(key: KeyValue.Key, value: Bytes) returns (r: Result<nat>)
      modifies this
      ensures match KeyValue.RPush(old(State()), key, value)
              case Ok((n, db)) => r == Ok(n) && State() == db
              case Err(e) => r == Err(e) && State() == old(State())
    {
      var reply := KeyValue.RPush(State(), key, value);
      if reply.Ok? {
        entries := reply.value.1.entries;
        r := Ok(reply.value.0);
      } else {
        r := Err(reply.error);
      }
    }

    method LRange(key: KeyValue.Key, start: int, stop: int) returns (r: Result<seq<Bytes>>)
      ensures r == KeyValue.LRange(State(), key, start, stop)
    {
      r := KeyValue.LRange(State(), key, start, stop);
    }

    /** Time passing on the server. */
    method Sleep(seconds: nat)
      modifies this
      ensures State() == KeyValue.Advance(old(State()), seconds)
    {
      now := now + seconds;
    }
  }
}
