/** What the page wrapper promises: every call counts once; a cached, non-empty
    page is served without asking the origin; anything else asks the origin
    once and keeps its answer for ten seconds; and a call writes nothing but
    the URL's counter and the URL's page. */
module WebProperties {
  import opened Results
  import opened Utf8
  import Decimal
  import KeyValue
  import opened Web

  /** `url` has been requested n times so far (the counter holds n, or is
      absent when n is 0). */
  predicate Counted(db: KeyValue.Db, url: string, n: nat) {
    KeyValue.Lookup(db, CountKey(url)) == (if n == 0 then None else Some(KeyValue.Str(Decimal.Format(n), None)))
  }

  /** No cached page is served: the URL holds nothing, or an empty page. */
  predicate Uncached(db: KeyValue.Db, url: string) {
    KeyValue.Get(db, url) == Ok(None) || KeyValue.Get(db, url) == Ok(Some([]))
  }

  lemma CountKeyIsNotUrl(url: string)
    ensures CountKey(url) != url
  {
    assert |CountKey(url)| == |url| + 6;
  }

  /** Every call, hit or miss, adds one to the URL's counter. */
  lemma EveryCallCounts(db: KeyValue.Db, url: string, response: Result<string>, n: nat)
    requires Counted(db, url, n) && n < Decimal.MaxInt64
    ensures Counted(TrackedGet(db, url, response).db, url, n + 1)
  {
    CountKeyIsNotUrl(url);
    KeyValue.IncrCounts(db, CountKey(url), n);
  }

  /** A hit: whatever non-empty bytes the URL holds are decoded and returned
      (UnicodeDecodeError when they are not UTF-8), the origin is not asked,
      and only the counter changes. */
  lemma HitServesCache(db: KeyValue.Db, url: string, response: Result<string>, n: nat, b: Bytes, expiry: Option<int>)
    requires Counted(db, url, n) && n < Decimal.MaxInt64
    requires KeyValue.Lookup(db, url) == Some(KeyValue.Str(b, expiry)) && b != []
    ensures var call := TrackedGet(db, url, response);
      && call.reply == Decode(b)
      && !call.fetched
      && Counted(call.db, url, n + 1)
      && forall k :: k != CountKey(url) ==> KeyValue.Lookup(call.db, k) == KeyValue.Lookup(db, k)
  {
    CountKeyIsNotUrl(url);
    KeyValue.IncrCounts(db, CountKey(url), n);
  }

  /** A hit on a page that was stored as text gives back that text. */
  lemma HitServesText(db: KeyValue.Db, url: string, response: Result<string>, n: nat, text: string, expiry: Option<int>)
    requires Counted(db, url, n) && n < Decimal.MaxInt64
    requires KeyValue.Lookup(db, url) == Some(KeyValue.Str(Encode(text), expiry)) && text != []
    ensures var call := TrackedGet(db, url, response);
      && call.reply == Ok(text)
      && !call.fetched
      && Counted(call.db, url, n + 1)
      && forall k :: k != CountKey(url) ==> KeyValue.Lookup(call.db, k) == KeyValue.Lookup(db, k)
  {
    assert |Encode(text)| >= |text| > 0;
    HitServesCache(db, url, response, n, Encode(text), expiry);
    DecodeEncode(text);
  }

  /** A miss: the origin is asked once and its answer is the reply; a page it
      returns is kept under the URL until ten seconds from now, and nothing
      but the counter and the URL changes. */
  lemma MissFetches(db: KeyValue.Db, url: string, response: Result<string>, n: nat)
    requires Counted(db, url, n) && n < Decimal.MaxInt64
    requires Uncached(db, url)
    ensures var call := TrackedGet(db, url, response);
      && call.fetched
      && call.reply == response
      && Counted(call.db, url, n + 1)
      && (response.Ok? ==>
            KeyValue.Lookup(call.db, url) == Some(KeyValue.Str(Encode(response.value), Some(db.now + PageTtl))))
      && (response.Err? ==> KeyValue.Lookup(call.db, url) == KeyValue.Lookup(db, url))
      && call.db.now == db.now
      && forall k :: k != CountKey(url) && k != url ==> KeyValue.Lookup(call.db, k) == KeyValue.Lookup(db, k)
  {
    CountKeyIsNotUrl(url);
    KeyValue.IncrCounts(db, CountKey(url), n);
  }

  /** Whatever happens, a call writes no key but the URL's counter and the URL. */
  lemma TrackedGetFrame(db: KeyValue.Db, url: string, response: Result<string>, k: KeyValue.Key)
    requires k != CountKey(url) && k != url
    ensures KeyValue.Lookup(TrackedGet(db, url, response).db, k) == KeyValue.Lookup(db, k)
    ensures TrackedGet(db, url, response).db.now == db.now
  {
  }

  /** A page fetched as empty text is cached as empty bytes, which read as a
      miss: the next call asks the origin again, however soon it comes. */
  lemma EmptyPageRefetched(db: KeyValue.Db, url: string, response: Result<string>, n: nat, elapsed: nat)
    requires Counted(db, url, n) && n + 1 < Decimal.MaxInt64
    requires Uncached(db, url)
    ensures TrackedGet(KeyValue.Advance(TrackedGet(db, url, Ok("")).db, elapsed), url, response).fetched
  {
    MissFetches(db, url, Ok(""), n);
    var later := KeyValue.Advance(TrackedGet(db, url, Ok("")).db, elapsed);
    assert Counted(later, url, n + 1);
    assert Uncached(later, url);
    MissFetches(later, url, response, n + 1);
  }

  /** Two calls less than ten seconds apart, the first a miss answered with a
      non-empty page: the origin is asked once, the second call serves the
      same page, and the counter has gone up by two. */
  lemma TwoCallsWithinTtl(db: KeyValue.Db, url: string, text: string, response: Result<string>, n: nat, elapsed: nat)
    requires Counted(db, url, n) && n + 2 <= Decimal.MaxInt64
    requires Uncached(db, url)
    requires text != [] && elapsed < PageTtl
    ensures var first := TrackedGet(db, url, Ok(text));
      var second := TrackedGet(KeyValue.Advance(first.db, elapsed), url, response);
      && first.fetched && !second.fetched
      && first.reply == Ok(text) && second.reply == Ok(text)
      && Counted(second.db, url, n + 2)
  {
    MissFetches(db, url, Ok(text), n);
    var later := KeyValue.Advance(TrackedGet(db, url, Ok(text)).db, elapsed);
    assert Counted(later, url, n + 1);
    assert KeyValue.Lookup(later, url) == Some(KeyValue.Str(Encode(text), Some(db.now + PageTtl)));
    HitServesText(later, url, response, n + 1, text, Some(db.now + PageTtl));
  }

  /** A call ten or more seconds after the page was fetched finds it expired and
      asks the origin again. */
  lemma CallAfterTtlRefetches(db: KeyValue.Db, url: string, text: string, response: Result<string>, n: nat, elapsed: nat)
    requires Counted(db, url, n) && n + 2 <= Decimal.MaxInt64
    requires Uncached(db, url)
    requires elapsed >= PageTtl
    ensures var first := TrackedGet(db, url, Ok(text));
      var second := TrackedGet(KeyValue.Advance(first.db, elapsed), url, response);
      && first.fetched && second.fetched
      && second.reply == response
      && Counted(second.db, url, n + 2)
  {
    MissFetches(db, url, Ok(text), n);
    var later := KeyValue.Advance(TrackedGet(db, url, Ok(text)).db, elapsed);
    assert Counted(later, url, n + 1);
    assert KeyValue.Get(later, url) == Ok(None);
    MissFetches(later, url, response, n + 1);
  }

  /** The counter and page keys share one keyspace: a URL that begins with
      "count:" reads another URL's counter as its cached page, and is answered
      with that count without the origin being asked. */
  lemma CounterReadAsPage(db: KeyValue.Db, url: string, response: Result<string>, n: nat, m: nat)
    requires Counted(db, url, n) && n >= 1
    requires Counted(db, CountKey(url), m) && m < Decimal.MaxInt64
    ensures var call := TrackedGet(db, CountKey(url), response);
      && call.reply == Ok(Decimal.Show(n))
      && !call.fetched
  {
    CountKeyIsNotUrl(CountKey(url));
    KeyValue.IncrCounts(db, CountKey(CountKey(url)), m);
    Decimal.FormatIsShow(n);
  }

  /** The other way round: once "count:<url>" holds a cached page that is not
      a decimal integer, every call for `url` fails at the increment and
      changes nothing. */
  lemma PageBreaksCounter(db: KeyValue.Db, url: string, response: Result<string>, page: Bytes, expiry: Option<int>)
    requires KeyValue.Lookup(db, CountKey(url)) == Some(KeyValue.Str(page, expiry))
    requires Decimal.ParseCounter(page).None?
    ensures TrackedGet(db, url, response) == PageCall(Err(NotAnInteger), db, false)
  {
  }
}
