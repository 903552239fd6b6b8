# Redis basics: instrumented cache and page cache

A model of two small Python modules that sit on a Redis server:

- `0x02-redis_basic/exercise.py` has a `Cache` class. `Cache.store` writes a
  payload under a fresh uuid4 key and returns the key.
  - Two decorators wrap `Cache.store`. `call_history` (outer) appends `str(args)`
    to `Cache.store:inputs` before the call and the returned key to
    `Cache.store:outputs` after it. `count_calls` (inner) runs `INCR Cache.store`.
  - `Cache.get` reads a key back. An optional coercion (`int`, `str` or any
    callable) is applied to the bytes.
  - `replay` reads the counter and both lists and prints one header line, then
    one line for each position the two lists share.
- `0x02-redis_basic/web.py` has `track_get_page`, which wraps `get_page`.
  - Every request for a URL runs `INCR count:<url>`.
  - A cached, non-empty page under the key `<url>` is served as it is.
  - Otherwise the page is fetched and stored under `<url>` with a ten-second
    expiry (`SET url page EX 10`).

## How the model is built

- **Results** (`results.dfy`) holds `Option`, `Result` and the errors the
  program can meet:
  - store errors: WRONGTYPE, not an integer, increment overflow, invalid expire time;
  - Python exceptions: `ValueError`, `UnicodeDecodeError`, `AttributeError`;
  - a failed HTTP request.
- **Utf8** (`utf8.dfy`) gives `str.encode('utf-8')` and the strict
  `bytes.decode('utf-8')`, following RFC 3629. Decoding inverts encoding.
- **Decimal** (`decimal.dfy`) gives the decimal text of an integer and two
  integer readers:
  - the one `INCR` uses: canonical form, signed 64-bit range;
  - Python's `int()` on bytes.
- **KeyValue** (`keyvalue.dfy`) gives the Redis commands the program uses
  (`GET`, `SET [EX]`, `INCR`, `RPUSH`, `LRANGE`, `FLUSHDB`) as pure functions on
  a database value.
  - The value is one keyspace of byte strings and lists, plus a clock in seconds.
  - A string with an expiry time is gone once the clock reaches that time.
- **Redis** (`redis.dfy`): `Redis.Database` is the shared server as a mutable
  object. Each method is one command, proved equal to the KeyValue function on
  the state it changes.
- **PyRepr** (`pyrepr.dfy`) gives `repr` of `str` and `bytes`, which `str(args)`
  writes into the inputs list.
- **Exercise** (`exercise.dfy`) holds the decorators and the rest of the cache:
  - `CountCalls`, `CallHistory` and `StoreCall` are the decorators as
    higher-order functions over a database state.
  - `Cache` is the class, with `Store` and `Get` as methods on the shared server.
  - `Replay` specifies what replay prints. `ReplayPrint` and `PrintLines` are
    its loop, proved against `Replay`.
- **CacheProperties** and **ReplayProperties** (`cache_properties.dfy`,
  `replay_properties.dfy`) hold what the cache promises:
  - counting;
  - history positions pairing up;
  - the keys a store call touches;
  - reading back what was stored;
  - what replay prints.
- **Web** and **WebProperties** (`web.dfy`, `web_properties.dfy`) hold the page
  wrapper.
  - `TrackedGet` is one call on a database state.
  - `GetPage` is the method on the shared server and an `Origin` object that
    answers HTTP requests.
  - The properties cover counting, hits, misses, expiry, the frame (which keys a
    call may touch) and the collision between counter keys and page keys.

Some behaviours of the code are easy to miss. The model follows the code in
each of them:

- `Cache.store` pushes `str(args)` onto the inputs list **before** it
  increments the counter, because `call_history` is the outer decorator
  (`exercise.py:54-55`). A call whose INCR fails has still recorded its input
  (`StoreOverflowKeepsInput`). A call whose final RPUSH fails has already
  counted itself and written its data (`StoreWithStringOutputs`).
- `Cache.get` returns `None` for a value stored as empty bytes, because it tests
  `if not value` (`exercise.py:67`). So `get(store(""))` is `None`, not `""`: the
  round trip holds only for non-empty encodings (`GetAfterStore`).
- The page wrapper serves a cached page only when it is non-empty
  (`if cached_page:`, `web.py:24`). A page fetched as empty text is fetched
  again on the next call (`EmptyPageRefetched`).
- Counters and pages share one keyspace. A URL that starts with `count:` reads
  another URL's counter as its page (`CounterReadAsPage`). Once `count:<url>`
  holds a page that is not an integer, every request for `<url>` fails
  (`PageBreaksCounter`). The model exposes this collision and does not fix it.

## Model

| member | source | states |
|---|---|---|
| Exercise.Cache.constructor | 0x02-redis_basic/exercise.py:49-52 | the cache is bound to the server, and the server's keyspace is empty afterwards (FLUSHDB); the clock is untouched |
| Exercise.Cache.Store | 0x02-redis_basic/exercise.py:54-61 | reply and new server state are exactly those of the decorated store on the old state, with the four commands in the code's order and the first failure stopping the rest |
| Exercise.Cache.Get | 0x02-redis_basic/exercise.py:63-75 | the reply equals `GetCoerced` on the current server state; nothing is modified |
| Exercise.GetCoerced | 0x02-redis_basic/exercise.py:63-75 | get returns None exactly when the key is missing, expired or holds empty bytes; a GET error (WRONGTYPE) is passed through unchanged; other bytes go through int as get_int reads them (ValueError on failure), through str as get_str reads them (UnicodeDecodeError on failure), to any other callable applied to the bytes, or come back raw without a coercion |
| Exercise.Cache.GetStr | 0x02-redis_basic/exercise.py:77-79 | a successful decode re-encodes to the input bytes; bytes that are the encoding of some text decode to exactly that text; the only failure is UnicodeDecodeError |
| Exercise.Cache.GetInt | 0x02-redis_basic/exercise.py:81-83 | int() succeeds exactly on an optional sign followed by one or more ASCII digits (the conversion digit limit aside, see Left out), giving their signed value (leading zeros and '+' included); any other byte that is not a digit, a bare sign and empty bytes raise ValueError; the decimal text of any integer reads back as that integer; the only failure is ValueError |
| Exercise.DecodeAll | 0x02-redis_basic/exercise.py:38-41 | a successful result has one text per list element, element i being the decoding of item i |
| Exercise.ZipLines | 0x02-redis_basic/exercise.py:43-44 | zip stops at the shorter list, and line i pairs input i with output i |
| Exercise.PrintLines | 0x02-redis_basic/exercise.py:42-44 | the loop prints the header, then exactly the zip lines, in order |
| Exercise.ReplayPrint | 0x02-redis_basic/exercise.py:32-44 | replay run against the server prints exactly what `Replay` specifies for the current state, and fails exactly when it does |
| Exercise.CountCalls | 0x02-redis_basic/exercise.py:10-17 | count_calls: INCR the method's qualified name, then run the method on the counted state; an INCR error is the reply and nothing runs. Pinned down by `CacheProperties.CountCall` (the counter goes from n to n + 1), `CacheProperties.CountCallsFrame` (no other key written) and `CacheProperties.StoreOverflowKeepsInput` (the overflow stops the method) |
| Exercise.CallHistory | 0x02-redis_basic/exercise.py:20-29 | call_history: RPUSH str(args) to `<name>:inputs`, run the method, RPUSH its output to `<name>:outputs`; the first error is the reply and later steps do not run. Pinned down by `CacheProperties.RecordInput`, `CacheProperties.RecordOutput`, `CacheProperties.CallHistoryFrame` and `CacheProperties.StoreWithStringOutputs` |
| Exercise.WriteUnderKey | 0x02-redis_basic/exercise.py:56-61 | the undecorated store: SET the encoded data under the generated key with no expiry and reply with the key. Pinned down by `CacheProperties.WriteElsewhere` and `CacheProperties.StoreCallWrites` |
| Exercise.StoreCall | 0x02-redis_basic/exercise.py:54-61 | the decorated store: call_history around count_calls around the body. Pinned down by `CacheProperties.StoreRecordsCall` (one call counts once and appends one input and one output), `CacheProperties.StoreAllRecords` (N calls), `CacheProperties.StoreCallFrame` and `CacheProperties.GetAfterStore` |
| Exercise.ArgsText | 0x02-redis_basic/exercise.py:25 | str(args) for the one-element argument tuple: the repr of the payload between `(` and `,)`. Pinned down by `ReplayProperties.ArgsTextOfLetter` and used by `CacheProperties.StoreRecordsCall` for the inputs list |
| Exercise.Encoded | 0x02-redis_basic/exercise.py:60 | the bytes the client writes for a payload: UTF-8 for text, the bytes themselves, the decimal text of an integer. Pinned down by `CacheProperties.GetAfterStore` (each reads back through the matching coercion) |
| Exercise.Replay | 0x02-redis_basic/exercise.py:32-44 | what replay prints: the header with the counter text, then one line per position both history lists have. Pinned down by `ReplayProperties.ReplayPairsPositions`, `ReplayProperties.ReplayWithoutCounter`, `ReplayProperties.ReplayAfterStores` and `Exercise.ReplayPrint` |
| CacheProperties.CountCallsFrame | 0x02-redis_basic/exercise.py:13-16 | count_calls writes no key besides the counter and what the wrapped method writes |
| CacheProperties.CallHistoryFrame | 0x02-redis_basic/exercise.py:23-28 | call_history writes no key besides the two history lists and what the wrapped method writes |
| CacheProperties.HistoryKeysDistinct | 0x02-redis_basic/exercise.py:15-27 | the counter, inputs and outputs keys of a method are three different keys |
| CacheProperties.UuidIsNotInstrumentation | 0x02-redis_basic/exercise.py:58 | the text of a uuid4 is never one of the three instrumentation keys |
| CacheProperties.RecordInput | 0x02-redis_basic/exercise.py:25 | the push of str(args) succeeds on instrumentation in order, replies with the new length and appends exactly that entry to the inputs list, leaving counter and outputs as they were |
| CacheProperties.CountCall | 0x02-redis_basic/exercise.py:15 | the increment succeeds below the 64-bit maximum and raises the counter by exactly one, leaving both lists as they were |
| CacheProperties.WriteElsewhere | 0x02-redis_basic/exercise.py:60 | SET without expiry of a non-instrumentation key succeeds, holds the value with no expiry and leaves the instrumentation as it was |
| CacheProperties.RecordOutput | 0x02-redis_basic/exercise.py:27 | the push of the returned key appends exactly that entry to the outputs list, leaving counter and inputs as they were |
| CacheProperties.StoreCallSucceeds | 0x02-redis_basic/exercise.py:54-61 | when all four commands succeed, store returns the generated key and leaves the database the last command produced |
| CacheProperties.StoreOverflowKeepsInput | 0x02-redis_basic/exercise.py:10-29 | a store call on a counter at the largest 64-bit value fails with the INCR overflow error, yet its input has been appended; the counter, the outputs and the generated key are unchanged |
| CacheProperties.StoreWithStringOutputs | 0x02-redis_basic/exercise.py:10-29 | a store call whose outputs key holds a string fails with WRONGTYPE only after recording its input, counting itself and writing its data |
| CacheProperties.StoreRecordsCall | 0x02-redis_basic/exercise.py:54-61 | one store call returns its key, raises the counter by one, appends str(args) to the inputs and the key to the outputs, holds the data under the key with no expiry, and leaves every other key and the clock unchanged |
| CacheProperties.StoreStep | 0x02-redis_basic/exercise.py:54-61 | one store call on instrumentation in order returns its key and leaves the instrumentation one call further on, clock unchanged |
| CacheProperties.StoreCallFrame | 0x02-redis_basic/exercise.py:54-61 | whether it succeeds or fails part-way, a store call writes nothing but the three instrumentation keys and the generated key |
| CacheProperties.StoreCallWrites | 0x02-redis_basic/exercise.py:58-61 | whenever store succeeds it returns the generated key, and that key holds the encoded data with no expiry |
| CacheProperties.StoreAllReturnsKeys | 0x02-redis_basic/exercise.py:54-61 | a run of N store calls returns N replies, reply i being the key generated for call i |
| CacheProperties.StoreAllRecords | 0x02-redis_basic/exercise.py:10-29 | N more store calls raise the counter by N and append one entry per call, in call order, to each history list |
| CacheProperties.CountsMatchHistories | 0x02-redis_basic/exercise.py:49-61 | after a fresh cache and N stores, GET of the counter gives N (nothing when N is 0), and LRANGE 0 -1 gives N inputs and N outputs, entry i of each belonging to call i |
| CacheProperties.HistoryReads | 0x02-redis_basic/exercise.py:37-41 | on instrumentation in order, GET gives the counter text and LRANGE 0 -1 gives each whole list |
| CacheProperties.GetAfterStore | 0x02-redis_basic/exercise.py:63-75 | after a successful store, get reads the data back: text through str; integers through int, or as their decimal text through str; raw bytes without a coercion; fn applied to the bytes for any other callable. A value whose encoding is empty reads back as None |
| CacheProperties.GetRawAsText | 0x02-redis_basic/exercise.py:63-79 | non-empty bytes stored raw and read through str give the text that encodes to them, and raise UnicodeDecodeError exactly when no text does |
| CacheProperties.GetIntOfStoredText | 0x02-redis_basic/exercise.py:81-83 | "42" stored as text reads back as 42 through int, while "abc" raises ValueError |
| ReplayProperties.DecodeAllEncodings | 0x02-redis_basic/exercise.py:38-41 | decoding a list of UTF-8 encodings gives back the texts, in order |
| ReplayProperties.ReplayWithoutCounter | 0x02-redis_basic/exercise.py:37 | with no counter under the name, replay raises AttributeError before printing, and a GET error stops it with that error |
| ReplayProperties.ReplayPairsPositions | 0x02-redis_basic/exercise.py:37-44 | with a counter and two decodable lists, replay prints the header with the counter text verbatim, then min(len) lines, line i pairing input i with output i |
| ReplayProperties.ReplayAfterStores | 0x02-redis_basic/exercise.py:32-44 | after N store calls on a fresh cache, replay prints "Cache.store was called N times:" and then N lines, line i pairing call i's str(args) with its key; with no call it fails |
| ReplayProperties.ArgsTextOfLetter | 0x02-redis_basic/exercise.py:25 | str(args) of a one-letter text is the letter in single quotes inside a one-element tuple |
| ReplayProperties.ReplayTwoStores | 0x02-redis_basic/exercise.py:32-61 | store("a") then store("b") on a fresh cache: replay prints the count 2 and the lines `Cache.store(*('a',)) -> k1` and `Cache.store(*('b',)) -> k2`, in call order |
| Redis.Database.constructor | 0x02-redis_basic/exercise.py:51 | a connection to a server holding the given keyspace at the given clock time |
| Redis.Database.FlushDb | 0x02-redis_basic/exercise.py:52 | FLUSHDB: the new state is `KeyValue.FlushDb` of the old, with every key gone and the clock kept |
| Redis.Database.Get | 0x02-redis_basic/exercise.py:66 | GET replies as `KeyValue.Get` on the state and changes nothing |
| Redis.Database.Set | 0x02-redis_basic/exercise.py:60 | SET: on success the new state is `KeyValue.Set`'s; on error the reply is that error and the state is unchanged |
| Redis.Database.Incr | 0x02-redis_basic/exercise.py:15 | INCR: the reply and new state are `KeyValue.Incr`'s; on error the state is unchanged |
| Redis.Database.RPush | 0x02-redis_basic/exercise.py:25 | RPUSH: the reply and new state are `KeyValue.RPush`'s; on error the state is unchanged |
| Redis.Database.LRange | 0x02-redis_basic/exercise.py:39 | LRANGE replies as `KeyValue.LRange` on the state and changes nothing |
| Redis.Database.Sleep | 0x02-redis_basic/web.py:27 | the server clock that the expiry of line 27 is measured against moves on by the given seconds; no key changes |
| KeyValue.Get | 0x02-redis_basic/exercise.py:66 | GET: the live bytes, nothing for a missing or expired key, WRONGTYPE for a list. Pinned down by `KeyValue.GetAfterSet` and `Redis.Database.Get` |
| KeyValue.Set | 0x02-redis_basic/exercise.py:60 | SET with an optional EX: overwrites the key, with no expiry or one `ex` seconds from now, and refuses a non-positive EX. Pinned down by `KeyValue.GetAfterSet` and `CacheProperties.WriteElsewhere` |
| KeyValue.Incr | 0x02-redis_basic/exercise.py:15 | INCR: 1 on a missing key, n + 1 on a 64-bit decimal counter with its expiry kept, an error on a list, on a non-integer and at the 64-bit maximum. Pinned down by `KeyValue.IncrCounts`, `CacheProperties.StoreOverflowKeepsInput` and `WebProperties.PageBreaksCounter` |
| KeyValue.RPush | 0x02-redis_basic/exercise.py:25-27 | RPUSH: appends to a list, creating it when missing, replies with the new length, WRONGTYPE on a string. Pinned down by `KeyValue.PushThenRange` and `CacheProperties.StoreWithStringOutputs` |
| KeyValue.LRange | 0x02-redis_basic/exercise.py:39 | LRANGE with Redis's index clamping, the empty list for a missing key, WRONGTYPE on a string. Pinned down by `KeyValue.RangeAll` and `KeyValue.PushThenRange` |
| KeyValue.FlushDb | 0x02-redis_basic/exercise.py:52 | FLUSHDB: no key is left and the clock is kept. Pinned down by `Exercise.Cache.constructor` and `Redis.Database.FlushDb` |
| KeyValue.GetAfterSet | 0x02-redis_basic/web.py:23-27 | a value written by SET is what GET returns until its expiry has elapsed, and nothing from then on |
| KeyValue.IncrCounts | 0x02-redis_basic/exercise.py:15 | INCR on a missing key gives 1; on a counter holding n (below the maximum) it gives n + 1, keeps the expiry, and leaves every other key alone |
| KeyValue.PushThenRange | 0x02-redis_basic/exercise.py:25-27 | RPUSH appends exactly one element, replies with the new length, and LRANGE 0 -1 reads the whole list back |
| KeyValue.RangeAll | 0x02-redis_basic/exercise.py:39 | LRANGE 0 -1 reads a whole list, and a missing key as the empty list |
| Utf8.Decode | 0x02-redis_basic/exercise.py:79 | a successful decode re-encodes to the input; the only failure is UnicodeDecodeError |
| Utf8.DecodeEncode | 0x02-redis_basic/exercise.py:79 | decode('utf-8') of a text's encoding gives back the text |
| Utf8.DecodeAccepts | 0x02-redis_basic/exercise.py:79 | bytes that encode some text decode to exactly that text |
| Decimal.ParseCounterFormat | 0x02-redis_basic/exercise.py:15 | INCR reads back, as the same integer, any 64-bit value it wrote |
| Decimal.FormatParseCounter | 0x02-redis_basic/exercise.py:15 | a string INCR accepts as an integer is the decimal text of that integer, so the counter's bytes are determined by its value |
| Decimal.FormatIsShow | 0x02-redis_basic/exercise.py:37 | the counter's stored bytes are the UTF-8 encoding of its decimal text and decode to it, so replay prints the count verbatim |
| Decimal.ParsePyIntFormat | 0x02-redis_basic/exercise.py:83 | int() of the decimal text of an integer gives that integer |
| Decimal.ParsePyIntAccepts | 0x02-redis_basic/exercise.py:83 | bytes that are the decimal text of some integer are read by int() as that integer |
| Decimal.ParsePyIntShape | 0x02-redis_basic/exercise.py:83 | int() fails on any non-digit byte other than a leading sign with digits after it, reads an optional sign and one or more digits as their signed value, and succeeds only on that shape |
| Decimal.PyIntSignsAndZeros | 0x02-redis_basic/exercise.py:83 | int(b"007") is 7, int(b"+5") is 5, int(b"-0") is 0, while int(b"-") and int(b"4a") raise |
| Decimal.PyIntOf42 | 0x02-redis_basic/exercise.py:83 | int(b"42") is 42 |
| Decimal.PyIntOfAbc | 0x02-redis_basic/exercise.py:83 | int(b"abc") raises (no integer) |
| Web.Origin.constructor | 0x02-redis_basic/web.py:33-36 | an origin that answers by the given function and has seen no request |
| Web.Origin.Fetch | 0x02-redis_basic/web.py:35-36 | the answer is the origin's response to this URL as its request number, and the URL is appended to the requests seen |
| Web.TrackedGet | 0x02-redis_basic/web.py:14-28 | the page wrapper on a database state: INCR `count:<url>`, GET `<url>`, a non-empty page decoded without a fetch, otherwise the origin's answer, stored for ten seconds when it is a page. Pinned down by `WebProperties.EveryCallCounts`, `WebProperties.HitServesCache`, `WebProperties.MissFetches` and `WebProperties.TrackedGetFrame` |
| Web.GetPage | 0x02-redis_basic/web.py:11-36 | the reply and the new server state are `TrackedGet`'s on the old state with the origin's next answer; the origin is asked exactly when `TrackedGet` fetches |
| WebProperties.CountKeyIsNotUrl | 0x02-redis_basic/web.py:22-23 | the counter key of a URL is never the URL itself |
| WebProperties.EveryCallCounts | 0x02-redis_basic/web.py:22 | every call, hit, miss or failure, raises the URL's counter by exactly one, including a call whose page read then fails with WRONGTYPE |
| WebProperties.HitServesCache | 0x02-redis_basic/web.py:23-25 | any non-empty bytes under the URL are returned decoded, UnicodeDecodeError when they are not UTF-8; the origin is not asked, and only the counter changes |
| WebProperties.HitServesText | 0x02-redis_basic/web.py:23-25 | a non-empty page stored as text is served back as that same text, without asking the origin, and only the counter changes |
| WebProperties.MissFetches | 0x02-redis_basic/web.py:26-28 | on a miss the origin is asked once and its answer is the reply; a page is stored under the URL expiring ten seconds from now; a failure stores nothing; only the counter and the URL change |
| WebProperties.TrackedGetFrame | 0x02-redis_basic/web.py:21-28 | whatever happens, a call writes no key but `count:<url>` and `<url>`, and leaves the clock |
| WebProperties.EmptyPageRefetched | 0x02-redis_basic/web.py:24-27 | an empty page, once stored, reads as a miss: the next call fetches again however soon it comes |
| WebProperties.TwoCallsWithinTtl | 0x02-redis_basic/web.py:22-27 | two calls less than ten seconds apart, the first answered with a non-empty page, fetch once, both reply with the page, and the counter rises by two |
| WebProperties.CallAfterTtlRefetches | 0x02-redis_basic/web.py:22-27 | a second call ten or more seconds after the fetch finds the page expired and fetches again, and the counter rises by two |
| WebProperties.CounterReadAsPage | 0x02-redis_basic/web.py:22-25 | a request for `count:<url>` is answered from `<url>`'s counter, as its decimal text, without a fetch |
| WebProperties.PageBreaksCounter | 0x02-redis_basic/web.py:22 | once `count:<url>` holds a non-integer page, a request for `<url>` fails at the increment and changes nothing |

## Left out

- The HTTP request of `get_page` (`requests.get`) is not modelled. The origin
  is an object whose answers are a function parameter, and a failed request is
  an error reply. What the origin returns is the page text itself; response
  objects, status codes and encodings are not modelled.
- `uuid4()` randomness is not modelled. The generated key is a parameter of
  `Cache.Store`, required only to have the text form of a version-4 uuid.
  Freshness is not assumed, so a repeated key overwrites, as it would in Redis.
- Payloads of type `float` are not modelled. `str`, `bytes` and `int` are, except `bool` (below).
- Keyword calls are not modelled. The `call_history` wrapper takes `*args` only
  (`exercise.py:23`), so `store(data=...)` raises TypeError before any command
  is sent.
- `print` is not modelled as output. Replay's printed lines are its result.
- Every `redis.Redis()` client talks to one shared server, modelled as one
  `Redis.Database`. Connection failures, other databases and server
  configuration are not modelled.
- Concurrency is not modelled. Each command is atomic, and two callers are
  never interleaved.
- `Exercise.Cache.GetInt`: Python's limit of 4300 digits on converting between
  `int` and `str` (Python 3.11 and later, and the 2022 security releases of
  3.7 to 3.10) is not modelled. `int()` of more than 4300 ASCII digits raises
  `ValueError` there, while the model returns their value.
- `Exercise.ArgsText`: the same digit limit makes `str(args)` raise `ValueError`
  for an `int` payload of more than 4300 digits, before any command is sent.
  `Exercise.StoreCall` on such an `Integer` pushes, counts and writes.
- `Exercise.Payload`: a `bool` payload is not modelled, although `bool` is an
  `int` to Python. `store(True)` pushes `(True,)` and increments the counter,
  and then the client's encoder refuses a `bool` (DataError) at the SET.
- `Exercise.Cache.GetInt`: `int()` is modelled for an optional sign followed by
  ASCII digits. Python also accepts surrounding whitespace and `_` separators
  between digits. The model reads those as `ValueError`.
- `Exercise.GetCoerced`: a coercion callable is a total function on bytes. A
  callable that raises is not modelled.
- A Python `str` may hold a lone surrogate, which a Dafny `char` cannot. Storing
  such a text pushes its input and increments the counter, and then the strict
  UTF-8 encoding raises before the SET. That path is not modelled.
- `repr` of a text treats every character from U+00A0 up as printable. Python
  consults the Unicode database, which is not modelled.
- The clock moves only through `Redis.Database.Sleep` and `KeyValue.Advance`,
  in whole seconds.
- Lists never expire, because the program never sets an expiry on one.
