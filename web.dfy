/** The page cache of the web module: track_get_page wraps get_page so that
    every request for a URL is counted under "count:<url>" and the page text is
    kept under the URL itself for ten seconds. The HTTP request is an origin
    object whose answers are a parameter of the model. */
module Web {
  import opened Results
  import opened Utf8
  import KeyValue
  import Redis

  /** Seconds a fetched page stays cached. */
  const PageTtl: int := 10

  /** The key counting the requests for `url`. */
  function CountKey(url: string): KeyValue.Key {
    "count:" + url
  }

  /** One call of the wrapper: its reply, the database after it, and whether
      it went to the origin. */
  datatype PageCall = PageCall(reply: Result<string>, db: KeyValue.Db, fetched: bool)

  /** The wrapper around get_page on a database state, where `response` is what
      the origin answers if it is asked. */
  function TrackedGet(db: KeyValue.Db, url: string, response: Result<string>): PageCall {
    match KeyValue.Incr(db, CountKey(url))
    case Err(e) => PageCall(Err(e), db, false)
    case Ok((_, counted)) =>
      match KeyValue.Get(counted, url)
      case Err(e) => PageCall(Err(e), counted, false)
      case Ok(cached) =>
        if cached.Some? && cached.value != [] then
          PageCall(Decode(cached.value), counted, false)
        else
          match response
          case Err(e) => PageCall(Err(e), counted, true)
          case Ok(text) => PageCall(Ok(text), KeyValue.Set(counted, url, Encode(text), Some(PageTtl)).value, true)
  }

  /** The remote side of get_page: `respond(url, i)` is the page text (or the
      failure) of the request made after i earlier ones; `requests` lists the
      URLs asked for so far. */
  class Origin {
    const respond: (string, nat) -> Result<string>
    var requests: seq<string>

    constructor (respond: (string, nat) -> Result<string>)
      ensures this.respond == respond && requests == []
    {
      this.respond := respond;
      requests := [];
    }

    /** requests.get(url).text */
    method Fetch(url: string) returns (r: Result<string>)
      modifies this
      ensures r == respond(url, |old(requests)|)
      ensures requests == old(requests) + [url]
    {
      r := respond(url, |requests|);
      requests := requests + [url];
    }
  }

  /** get_page as decorated by track_get_page, on the shared server. */
  method GetPage(redis: Redis.Database, origin: Origin, url: string) returns (r: Result<string>)
    modifies redis, origin
    ensures var call := TrackedGet(old(redis.State()), url, origin.respond(url, |old(origin.requests)|));
      && r == call.reply
      && redis.State() == call.db
      && origin.requests == old(origin.requests) + (if call.fetched then [url] else [])
  {
    var counted := redis.Incr(CountKey(url));
    if counted.Err? {
      return Err(counted.error);
    }
    var cached := redis.Get(url);
    if cached.Err? {
      return Err(cached.error);
    }
    if cached.value.Some? && cached.value.value != [] {
      return Decode(cached.value.value);
    }
    var response := origin.Fetch(url);
    if response.Err? {
      return Err(response.error);
    }
    var stored := redis.Set(url, Encode(response.value), Some(PageTtl));
    assert stored.Ok?;
    r := Ok(response.value);
  }
}
