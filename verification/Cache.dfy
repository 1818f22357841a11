/** External calls behind a cache with expiry: the cache service, the retrying transport and the news client. */
module Cache {
  import opened Prelude

  const TTL_SECONDS := 1800

  const NAVER_PROVIDER := "NAVER_NEWS"

  datatype CacheKey = CacheKey(provider: string, key: string)

  datatype Reason = UnexpectedStatus(code: int) | Raised(name: string) | MissingApiKey

  datatype Missing = Missing(provider: string, field: string, reason: Reason)

  datatype Payload =
      News(ticker: string, body: string) | FallbackNews(ticker: string, query: string, missing: seq<Missing>)

  datatype DataStatus = Available | Fallback

  /** What the cache stores for a key. */
  datatype Stored = Stored(payload: Payload, status: DataStatus, missing: seq<Missing>)

  datatype Entry = Entry(stored: Stored, statusCode: Option<int>, expiresAt: int)

  datatype Write = Write(key: CacheKey, entry: Entry)

  // ---- The cache refines the last write ----

  function LastWrite(writes: seq<Write>, key: CacheKey): Option<Entry> {
    if writes == [] then None
    else
      var last := writes[|writes| - 1];
      if last.key == key then Some(last.entry) else LastWrite(writes[..|writes| - 1], key)
  }

  /** The last write of a key, until it expires. */
  function Lookup(writes: seq<Write>, key: CacheKey, now: int): Option<Stored> {
    var entry := LastWrite(writes, key);
    if entry.Some? && now < entry.value.expiresAt then Some(entry.value.stored) else None
  }

  class ExternalApiCacheService {
    var entries: map<CacheKey, Entry>
    ghost var writes: seq<Write>

    ghost predicate Valid()
      reads this
    {
      forall key :: LastWrite(writes, key) == if key in entries then Some(entries[key]) else None
    }

    constructor ()
      ensures Valid() && writes == []
    {
      entries, writes := map[], [];
    }

    method Get(key: CacheKey, now: int) returns (r: Option<Stored>)
      requires Valid()
      ensures r == Lookup(writes, key, now)
    {
      assert LastWrite(writes, key) == if key in entries then Some(entries[key]) else None;
      if key !in entries { return None; }
      if entries[key].expiresAt <= now { return None; }
      return Some(entries[key].stored);
    }

    method Set(key: CacheKey, stored: Stored, statusCode: Option<int>, now: int)
      requires Valid()
      modifies this
      ensures Valid()
      ensures writes == old(writes) + [Write(key, Entry(stored, statusCode, now + TTL_SECONDS))]
    {
      var entry := Entry(stored, statusCode, now + TTL_SECONDS);
      entries := entries[key := entry];
      ghost var before := writes;
      writes := writes + [Write(key, entry)];
      assert writes[..|writes| - 1] == before;
    }
  }

  // ---- The retrying transport ----

  datatype Outcome = Responded(code: int, body: string) | Threw(name: string)

  /** What each successive transport call would give. */
  type Transport = nat -> Outcome

  datatype RateLimitPolicy = RateLimitPolicy(maxRetries: int, retryStatusCodes: set<int>)

  predicate Retryable(outcome: Outcome, policy: RateLimitPolicy) {
    outcome.Responded? && outcome.code in policy.retryStatusCodes
  }

  function Attempts(policy: RateLimitPolicy): nat {
    if policy.maxRetries >= 0 then policy.maxRetries + 1 else 0
  }

  /** How many calls the backoff loop makes: up to the first outcome that is not retried, or all attempts. */
  function CallsFrom(transport: Transport, policy: RateLimitPolicy, index: nat): nat
    requires index <= Attempts(policy)
    decreases Attempts(policy) - index
  {
    if index == Attempts(policy) then index
    else if !Retryable(transport(index), policy) then index + 1
    else CallsFrom(transport, policy, index + 1)
  }

  lemma {:induction false} CallsExact(transport: Transport, policy: RateLimitPolicy, index: nat)
    requires index <= Attempts(policy)
    ensures var calls := CallsFrom(transport, policy, index);
            && index <= calls <= Attempts(policy)
            && (forall k :: index <= k < calls - 1 ==> Retryable(transport(k), policy))
            && (index < calls < Attempts(policy) ==> !Retryable(transport(calls - 1), policy))
            && (index < Attempts(policy) ==> calls > index)
    decreases Attempts(policy) - index
  {
    if index < Attempts(policy) && Retryable(transport(index), policy) { CallsExact(transport, policy, index + 1); }
  }

  /** The calls end with the first outcome whose status code is not one to retry, and otherwise after the first try and
      maxRetries more. */
  lemma BackoffIsExact(transport: Transport, policy: RateLimitPolicy, k: nat)
    requires k <= policy.maxRetries
    requires forall j :: 0 <= j < k ==> transport(j).Responded? && transport(j).code in policy.retryStatusCodes
    requires k < policy.maxRetries ==>
               !(transport(k).Responded? && transport(k).code in policy.retryStatusCodes)
    ensures CallsFrom(transport, policy, 0) == k + 1
  {
    BackoffFrom(transport, policy, k, 0);
  }

  lemma {:induction false} BackoffFrom(transport: Transport, policy: RateLimitPolicy, k: nat, index: nat)
    requires index <= k <= policy.maxRetries
    requires forall j :: 0 <= j < k ==> Retryable(transport(j), policy)
    requires k < policy.maxRetries ==> !Retryable(transport(k), policy)
    ensures CallsFrom(transport, policy, index) == k + 1
    decreases k - index
  {
    if index < k { BackoffFrom(transport, policy, k, index + 1); }
  }

  /** The response of the last call; None when no attempt is allowed. */
  method RequestWithBackoff(transport: Transport, policy: RateLimitPolicy)
    returns (response: Option<Outcome>, calls: nat)
    ensures calls == CallsFrom(transport, policy, 0)
    ensures response == if calls == 0 then None else Some(transport(calls - 1))
    ensures calls == 0 <==> policy.maxRetries < 0
    ensures calls > 0 ==> calls <= policy.maxRetries + 1
  {
    response, calls := None, 0;
    CallsExact(transport, policy, 0);
    for index := 0 to Attempts(policy)
      invariant calls == index
      invariant CallsFrom(transport, policy, index) == CallsFrom(transport, policy, 0)
      invariant response == if index == 0 then None else Some(transport(index - 1))
    {
      response := Some(transport(index));
      calls := calls + 1;
      if !Retryable(response.value, policy) { return; }
    }
  }

  // ---- The news client ----

  datatype NewsRequest = NewsRequest(ticker: string, companyName: string, display: int)

  function Digits(n: nat): string {
    if n < 10 then [DIGITS[n]] else Digits(n / 10) + [DIGITS[n % 10]]
  }

  const DIGITS := "0123456789"

  function Decimal(n: int): string {
    if n < 0 then "-" + Digits(-n) else Digits(n)
  }

  function KeyOf(request: NewsRequest): CacheKey {
    CacheKey(NAVER_PROVIDER, "news:" + (request.ticker
             + (":" + (request.companyName + (":" + Decimal(request.display))))))
  }

  datatype ExternalApiResult = ExternalApiResult(
    payload: Payload, status: DataStatus, statusCode: Option<int>, missing: seq<Missing>, fromCache: bool)

  function StoredOf(result: ExternalApiResult): Stored {
    Stored(result.payload, result.status, result.missing)
  }

  /** The exceptions that the database makes of the calls of a search, in their order: the cache read, the cache write
      and the call log of the first result, and those of the fallback that replaces it when one of these raised. A cache
      write that raises writes nothing; a cache hit has a call log only. */
  datatype Faults = Faults(
    read: Option<string>, store: Option<string>, log: Option<string>,
    secondStore: Option<string>, secondLog: Option<string>)

  /** One search: the request, when it starts, when it stores its result and when the fallback instead of it, what the
      transport would give, and what raises. */
  datatype Query =
    Query(request: NewsRequest, start: int, finish: int, finishAgain: int, transport: Transport, faults: Faults)

  /** The client's configuration; the normaliser fails by raising. */
  datatype Client = Client(hasCredentials: bool, policy: RateLimitPolicy, normalize: string -> Result<string, string>)

  function Fallen(request: NewsRequest, statusCode: Option<int>, field: string, reason: Reason): ExternalApiResult {
    var missing := [Missing(NAVER_PROVIDER, field, reason)];
    ExternalApiResult(FallbackNews(request.ticker, request.companyName, missing), Fallback, statusCode, missing, false)
  }

  /** What a response becomes: the normalised payload, or a fallback for any failure. */
  function ResultOf(client: Client, request: NewsRequest, response: Option<Outcome>): ExternalApiResult {
    var field := NEWS_FIELD;
    if response.None? then Fallen(request, None, field, Raised("AttributeError"))
    else match response.value
      case Threw(name) => Fallen(request, None, field, Raised(name))
      case Responded(code, body) =>
        if code != 200 then Fallen(request, Some(code), field, UnexpectedStatus(code))
        else match client.normalize(body)
          case Err(name) => Fallen(request, Some(code), field, Raised(name))
          case Ok(news) => ExternalApiResult(News(request.ticker, news), Available, Some(code), [], false)
  }

  const NEWS_FIELD := "NAVER news response"

  /** What a search answers, or the exception that escapes it. */
  datatype Answer = Answer(result: Result<ExternalApiResult, string>, writes: seq<Write>, calls: nat)

  function WriteOf(request: NewsRequest, result: ExternalApiResult, at: int): Write {
    Write(KeyOf(request), Entry(StoredOf(result), result.statusCode, at + TTL_SECONDS))
  }

  /** A result that is written to the cache and logged, or the exception of one of the two. */
  function Settled(
      writes: seq<Write>, request: NewsRequest, result: ExternalApiResult, at: int, store: Option<string>,
      log: Option<string>, calls: nat): Answer
  {
    if store.Some? then Answer(Err(store.value), writes, calls)
    else
      Answer(if log.Some? then Err(log.value) else Ok(result), writes + [WriteOf(request, result, at)], calls)
  }

  function CallsOf(client: Client, query: Query): nat {
    if client.hasCredentials then CallsFrom(query.transport, client.policy, 0) else 0
  }

  /** The result of a miss before it is stored. */
  function Fetched(client: Client, query: Query): ExternalApiResult {
    if !client.hasCredentials then
      Fallen(query.request, None, "NAVER_CLIENT_ID/NAVER_CLIENT_SECRET", MissingApiKey)
    else
      var calls := CallsOf(client, query);
      ResultOf(client, query.request, if calls == 0 then None else Some(query.transport(calls - 1)))
  }

  /** A miss: what raises while a good response is stored or logged makes it a fallback, which is stored over it; what
      raises while a fallback is stored or logged escapes. */
  function Missed(client: Client, writes: seq<Write>, query: Query): Answer {
    var request, result, faults, calls := query.request, Fetched(client, query), query.faults, CallsOf(client, query);
    var first := Settled(writes, request, result, query.finish, faults.store, faults.log, calls);
    if result.status.Fallback? || first.result.Ok? then first
    else
      var fallen := Fallen(request, result.statusCode, NEWS_FIELD, Raised(first.result.error));
      Settled(first.writes, request, fallen, query.finishAgain, faults.secondStore, faults.secondLog, calls)
  }

  /** What a search answers and writes, given the writes before it. */
  function Search(client: Client, writes: seq<Write>, query: Query): Answer {
    var hit, faults := Lookup(writes, KeyOf(query.request), query.start), query.faults;
    if faults.read.Some? then Answer(Err(faults.read.value), writes, 0)
    else if hit.None? then Missed(client, writes, query)
    else if faults.log.Some? then Answer(Err(faults.log.value), writes, 0)
    else
      Answer(Ok(ExternalApiResult(hit.value.payload, hit.value.status, Some(200), hit.value.missing, true)), writes, 0)
  }

  class NaverNewsClient {
    const client: Client
    const cache: ExternalApiCacheService

    constructor (client: Client, cache: ExternalApiCacheService)
      ensures this.client == client && this.cache == cache
    {
      this.client, this.cache := client, cache;
    }

    /** Makes at most one transport call more than the retries. */
    method SearchNews(query: Query) returns (result: Result<ExternalApiResult, string>, calls: nat)
      requires cache.Valid()
      modifies cache
      ensures cache.Valid()
      ensures Answer(result, cache.writes, calls) == Search(client, old(cache.writes), query)
      ensures calls > 0 ==> client.hasCredentials && calls <= client.policy.maxRetries + 1
    {
      if query.faults.read.Some? { return Err(query.faults.read.value), 0; }
      var cached := cache.Get(KeyOf(query.request), query.start);
      if cached.Some? {
        if query.faults.log.Some? { return Err(query.faults.log.value), 0; }
        var hit := cached.value;
        return Ok(ExternalApiResult(hit.payload, hit.status, Some(200), hit.missing, true)), 0;
      }
      var fetched;
      if !client.hasCredentials {
        fetched, calls := Fallen(query.request, None, "NAVER_CLIENT_ID/NAVER_CLIENT_SECRET", MissingApiKey), 0;
      } else {
        var response;
        response, calls := RequestWithBackoff(query.transport, client.policy);
        fetched := ResultOf(client, query.request, response);
      }
      result := Settle(query.request, fetched, query.finish, query.faults.store, query.faults.log, calls);
      if fetched.status.Available? && result.Err? {
        var fallen := Fallen(query.request, fetched.statusCode, NEWS_FIELD, Raised(result.error));
        result :=
          Settle(query.request, fallen, query.finishAgain, query.faults.secondStore, query.faults.secondLog, calls);
      }
    }

    /** Writes a result to the cache and logs the call. */
    method Settle(
        request: NewsRequest, found: ExternalApiResult, at: int, store: Option<string>, log: Option<string>,
        ghost calls: nat)
      returns (result: Result<ExternalApiResult, string>)
      requires cache.Valid()
      modifies cache
      ensures cache.Valid()
      ensures Answer(result, cache.writes, calls) == Settled(old(cache.writes), request, found, at, store, log, calls)
    {
      if store.Some? { return Err(store.value); }
      cache.Set(KeyOf(request), StoredOf(found), found.statusCode, at);
      if log.Some? { return Err(log.value); }
      return Ok(found);
    }
  }

  // ---- Repeats are served from the cache ----

  /** The writes after a run of searches. */
  function WritesAfter(client: Client, writes: seq<Write>, queries: seq<Query>): seq<Write> {
    if queries == [] then writes
    else
      var last := queries[|queries| - 1];
      Search(client, WritesAfter(client, writes, queries[..|queries| - 1]), last).writes
  }

  /** A search appends writes of its own key only, and none when it is a hit. */
  lemma SearchKeepsOthers(client: Client, writes: seq<Write>, query: Query, key: CacheKey)
    requires key != KeyOf(query.request) || Lookup(writes, key, query.start).Some?
    ensures LastWrite(Search(client, writes, query).writes, key) == LastWrite(writes, key)
  {
    var result, faults := Fetched(client, query), query.faults;
    if key != KeyOf(query.request) {
      var first := Settled(writes, query.request, result, query.finish, faults.store, faults.log, 0);
      SettleKeepsOthers(writes, query.request, result, query.finish, faults.store, faults.log, key);
      if first.result.Err? {
        var fallen := Fallen(query.request, result.statusCode, NEWS_FIELD, Raised(first.result.error));
        SettleKeepsOthers(
          first.writes, query.request, fallen, query.finishAgain, faults.secondStore, faults.secondLog, key);
      }
    }
  }

  lemma SettleKeepsOthers(
      writes: seq<Write>, request: NewsRequest, result: ExternalApiResult, at: int, store: Option<string>,
      log: Option<string>, key: CacheKey)
    requires key != KeyOf(request)
    ensures LastWrite(Settled(writes, request, result, at, store, log, 0).writes, key) == LastWrite(writes, key)
  {
    assert (writes + [WriteOf(request, result, at)])[..|writes|] == writes;
  }

  /** What a search answers is what the cache holds for it from then on. */
  lemma SearchStoresResult(client: Client, writes: seq<Write>, query: Query)
    requires Search(client, writes, query).result.Ok?
    ensures var answer := Search(client, writes, query);
            var entry := LastWrite(answer.writes, KeyOf(query.request));
            && entry.Some?
            && entry.value.stored == StoredOf(answer.result.value)
            && (!answer.result.value.fromCache ==>
                  entry.value.expiresAt in {query.finish + TTL_SECONDS, query.finishAgain + TTL_SECONDS})
  {}

  lemma {:induction false} EntryLasts(
      client: Client, writes: seq<Write>, queries: seq<Query>, key: CacheKey, until: int)
    requires LastWrite(writes, key).Some? && until < LastWrite(writes, key).value.expiresAt
    requires forall q :: q in queries ==> q.start <= until
    ensures LastWrite(WritesAfter(client, writes, queries), key) == LastWrite(writes, key)
  {
    if queries != [] {
      var n := |queries| - 1;
      EntryLasts(client, writes, queries[..n], key, until);
      SearchKeepsOthers(client, WritesAfter(client, writes, queries[..n]), queries[n], key);
    }
  }

  /** A search repeated before its entry expires makes no transport call and does not extend the entry. It returns the
      same payload, data status and missing data, whatever the first outcome was and whatever other searches came
      between, exactly when reading the cache and logging the hit raise nothing. */
  lemma {:induction false} RepeatIsServed(
      client: Client, writes: seq<Write>, first: Query, between: seq<Query>, again: Query)
    requires again.request == first.request && Search(client, writes, first).result.Ok?
    requires forall q :: q in between ==> q.start <= again.start
    requires var entry := LastWrite(Search(client, writes, first).writes, KeyOf(first.request));
             entry.Some? && again.start < entry.value.expiresAt
    ensures var one := Search(client, writes, first);
            var two := Search(client, WritesAfter(client, one.writes, between), again);
            && two.calls == 0
            && LastWrite(two.writes, KeyOf(first.request)) == LastWrite(one.writes, KeyOf(first.request))
            && (two.result.Ok? <==> again.faults.read.None? && again.faults.log.None?)
            && (two.result.Ok? ==>
                  two.result.value.fromCache && StoredOf(two.result.value) == StoredOf(one.result.value))
  {
    SearchStoresResult(client, writes, first);
    EntryLasts(client, Search(client, writes, first).writes, between, KeyOf(first.request), again.start);
  }

  /** The last call gave a 200 that the normaliser could read. */
  predicate Readable(client: Client, query: Query) {
    var calls := CallsOf(client, query);
    && calls > 0
    && query.transport(calls - 1).Responded? && query.transport(calls - 1).code == 200
    && client.normalize(query.transport(calls - 1).body).Ok?
  }

  /** A search calls the transport only when its entry is gone and credentials are set, at most retries + 1 times, and
      reports data as available exactly when the last call gave a readable 200 that could be stored and logged. */
  lemma MissIsExact(client: Client, writes: seq<Write>, query: Query)
    requires Lookup(writes, KeyOf(query.request), query.start).None? && query.faults.read.None?
    ensures var answer, faults := Search(client, writes, query), query.faults;
            && (answer.calls > 0 ==> answer.calls <= client.policy.maxRetries + 1)
            && (answer.calls > 0 <==> client.hasCredentials && client.policy.maxRetries >= 0)
            && (answer.result.Ok? && answer.result.value.status.Available? <==>
                  Readable(client, query) && faults.store.None? && faults.log.None?)
            && (answer.result.Ok? ==>
                  (answer.result.value.status.Available? <==> answer.result.value.missing == []))
  {
    CallsExact(query.transport, client.policy, 0);
  }

  /** What a miss answers: the normalised news with the requested ticker and status 200, or a fallback that names the
      ticker, the company searched for and what is missing, which is the same as what it reports missing. */
  lemma MissSaysWhy(client: Client, writes: seq<Write>, query: Query)
    requires Lookup(writes, KeyOf(query.request), query.start).None? && Search(client, writes, query).result.Ok?
    ensures var r, last := Search(client, writes, query).result.value, CallsOf(client, query) - 1;
            && !r.fromCache
            && (r.status.Available? ==>
                  && last >= 0 && query.transport(last).Responded?
                  && client.normalize(query.transport(last).body) == Ok(r.payload.body)
                  && r.payload == News(query.request.ticker, r.payload.body) && r.statusCode == Some(200))
            && (r.status.Fallback? ==>
                  && r.payload == FallbackNews(query.request.ticker, query.request.companyName, r.missing)
                  && |r.missing| == 1 && r.missing[0].provider == "NAVER_NEWS"
                  && (!client.hasCredentials ==> r.missing[0].reason == MissingApiKey && r.statusCode == None)
                  && (client.hasCredentials && last >= 0 && query.transport(last).Threw? ==>
                        r.missing[0].reason == Raised(query.transport(last).name) && r.statusCode == None)
                  && (client.hasCredentials && last >= 0 && query.transport(last).Responded? ==>
                        r.statusCode == Some(query.transport(last).code))
                  && (client.hasCredentials && last >= 0 && query.transport(last).Responded?
                      && query.transport(last).code != 200 ==>
                        r.missing[0].reason == UnexpectedStatus(query.transport(last).code)))
  {
    CallsExact(query.transport, client.policy, 0);
  }

  /** An exception escapes exactly from the cache read, from the log of a hit, and from storing or logging a fallback:
      that of a failed fetch, or the one that replaces a good response which could not be stored or logged. */
  lemma RaisesExactly(client: Client, writes: seq<Write>, query: Query)
    ensures var faults, hit := query.faults, Lookup(writes, KeyOf(query.request), query.start).Some?;
            Search(client, writes, query).result.Err? <==>
              || faults.read.Some?
              || (hit && faults.log.Some?)
              || (!hit && (faults.store.Some? || faults.log.Some?)
                  && (Readable(client, query) ==> faults.secondStore.Some? || faults.secondLog.Some?))
    ensures var faults, hit := query.faults, Lookup(writes, KeyOf(query.request), query.start).Some?;
            Search(client, writes, query).result.Err? ==>
              Search(client, writes, query).result.error
              == if faults.read.Some? then faults.read.value
                 else if hit then faults.log.value
                 else if Readable(client, query) then
                   (if faults.secondStore.Some? then faults.secondStore.value else faults.secondLog.value)
                 else if faults.store.Some? then faults.store.value else faults.log.value
  {
    CallsExact(query.transport, client.policy, 0);
  }

  /** A call log that raises after a good response was stored leaves a fallback in its place: until it expires, every
      search is answered from the cache without the news. */
  lemma FailedLogHidesNews(client: Client, writes: seq<Write>, query: Query)
    requires Lookup(writes, KeyOf(query.request), query.start).None? && query.faults.read.None?
    requires Readable(client, query) && query.faults.store.None? && query.faults.log.Some?
    requires query.faults.secondStore.None?
    ensures var entry := LastWrite(Search(client, writes, query).writes, KeyOf(query.request));
            && entry.Some? && entry.value.stored.status.Fallback? && entry.value.stored.payload.FallbackNews?
            && entry.value.expiresAt == query.finishAgain + TTL_SECONDS
  {
    CallsExact(query.transport, client.policy, 0);
  }

  // ---- When the cache answers, on the writes themselves ----

  lemma {:induction false} LastWriteAt(writes: seq<Write>, key: CacheKey, k: nat)
    requires k < |writes| && writes[k].key == key && forall j :: k < j < |writes| ==> writes[j].key != key
    ensures LastWrite(writes, key) == Some(writes[k].entry)
  {
    if k < |writes| - 1 { LastWriteAt(writes[..|writes| - 1], key, k); }
  }

  lemma {:induction false} NeverWritten(writes: seq<Write>, key: CacheKey)
    requires forall j :: 0 <= j < |writes| ==> writes[j].key != key
    ensures LastWrite(writes, key).None?
  {
    if writes != [] { NeverWritten(writes[..|writes| - 1], key); }
  }

  /** What the last write of its key stored is what a search answers until that write expires: it calls nothing and
      writes nothing. From the expiry on it is not answered any more, and with credentials the transport is called. */
  lemma ServedUntilExpiry(client: Client, writes: seq<Write>, query: Query, k: nat)
    requires k < |writes| && writes[k].key == KeyOf(query.request)
    requires forall j :: k < j < |writes| ==> writes[j].key != KeyOf(query.request)
    requires query.faults.read.None? && query.faults.log.None?
    ensures var answer, entry := Search(client, writes, query), writes[k].entry;
            && (query.start < entry.expiresAt ==>
                  && answer.result == Ok(ExternalApiResult(
                       entry.stored.payload, entry.stored.status, Some(200), entry.stored.missing, true))
                  && answer.calls == 0 && answer.writes == writes)
            && (query.start >= entry.expiresAt ==>
                  && (answer.result.Ok? ==> !answer.result.value.fromCache)
                  && (client.hasCredentials && client.policy.maxRetries >= 0 ==> answer.calls > 0))
  {
    LastWriteAt(writes, KeyOf(query.request), k);
    CallsExact(query.transport, client.policy, 0);
  }

  /** Without a write of its key a search is not answered from the cache. */
  lemma UnwrittenIsFetched(client: Client, writes: seq<Write>, query: Query)
    requires forall j :: 0 <= j < |writes| ==> writes[j].key != KeyOf(query.request)
    requires query.faults.read.None?
    ensures var answer := Search(client, writes, query);
            && (answer.result.Ok? ==> !answer.result.value.fromCache)
            && (client.hasCredentials && client.policy.maxRetries >= 0 ==> answer.calls > 0)
  {
    NeverWritten(writes, KeyOf(query.request));
    CallsExact(query.transport, client.policy, 0);
  }

  /** A search that fetched without a fault is fetched again, other requests in between or not, once 1800 seconds have
      passed since it stored its result. */
  lemma ExpiredIsFetchedAgain(client: Client, writes: seq<Write>, first: Query, between: seq<Query>, again: Query)
    requires first.faults == again.faults == Faults(None, None, None, None, None)
    requires again.request == first.request && forall q :: q in between ==> KeyOf(q.request) != KeyOf(first.request)
    requires Search(client, writes, first).result.Ok? && !Search(client, writes, first).result.value.fromCache
    requires again.start >= first.finish + 1800
    ensures var two := Search(client, WritesAfter(client, Search(client, writes, first).writes, between), again);
            && !two.result.value.fromCache
            && (client.hasCredentials && client.policy.maxRetries >= 0 ==> two.calls > 0)
  {
    var one := Search(client, writes, first).writes;
    OthersLeave(client, one, between, KeyOf(first.request));
    CallsExact(again.transport, client.policy, 0);
  }

  lemma {:induction false} OthersLeave(client: Client, writes: seq<Write>, queries: seq<Query>, key: CacheKey)
    requires forall q :: q in queries ==> KeyOf(q.request) != key
    ensures LastWrite(WritesAfter(client, writes, queries), key) == LastWrite(writes, key)
  {
    if queries != [] {
      var n := |queries| - 1;
      OthersLeave(client, writes, queries[..n], key);
      SearchKeepsOthers(client, WritesAfter(client, writes, queries[..n]), queries[n], key);
    }
  }

  // ---- Different requests have different keys ----

  lemma {:induction false} DigitsExact(m: nat, n: nat)
    ensures ':' !in Digits(n) && '-' !in Digits(n)
    ensures Digits(m) == Digits(n) ==> m == n
    decreases m + n
  {
    var a, b := Digits(m), Digits(n);
    if n >= 10 { DigitsExact(if m >= 10 then m / 10 else m, n / 10); }
    if m >= 10 && n >= 10 && a == b {
      DigitsExact(m / 10, n / 10);
      assert a[..|a| - 1] == Digits(m / 10) && b[..|b| - 1] == Digits(n / 10);
      DigitInjective(m % 10, n % 10);
    } else if m < 10 && n < 10 && a == b {
      DigitInjective(m, n);
    }
    if n >= 10 { DigitsNotEmpty(n / 10); }
    if m >= 10 { DigitsNotEmpty(m / 10); }
  }

  lemma {:induction false} DigitsNotEmpty(n: nat)
    ensures |Digits(n)| >= 1
  {
    if n >= 10 { DigitsNotEmpty(n / 10); }
  }

  lemma DigitInjective(m: nat, n: nat)
    requires m < 10 && n < 10 && DIGITS[m] == DIGITS[n]
    ensures m == n
  {}

  lemma DecimalExact(m: int, n: int)
    ensures ':' !in Decimal(n)
    ensures '-' in Decimal(n) <==> n < 0
    ensures Decimal(m) == Decimal(n) ==> m == n
  {
    var p, q := if m < 0 then -m else m, if n < 0 then -n else n;
    DigitsExact(p, q);
    DigitsExact(q, p);
    DigitsNotEmpty(p);
    DigitsNotEmpty(q);
    if m < 0 { assert Decimal(m)[1..] == Digits(p); }
    if n < 0 { assert Decimal(n)[1..] == Digits(q); }
    if Decimal(m) == Decimal(n) { assert Decimal(m)[0] == Decimal(n)[0]; }
  }

  lemma FirstColon(a: string, x: string, b: string, y: string)
    requires ':' !in a && ':' !in b && a + (":" + x) == b + (":" + y)
    ensures a == b && x == y
  {
    var s, t := a + (":" + x), b + (":" + y);
    assert s[|a|] == ':' && t[|b|] == ':';
    forall n | 0 <= n < |a| ensures s[n] != ':' { assert s[n] == a[n]; }
    forall n | 0 <= n < |b| ensures t[n] != ':' { assert t[n] == b[n]; }
    assert s[..|a|] == a && t[..|b|] == b;
    assert s[|a| + 1..] == x && t[|b| + 1..] == y;
  }

  lemma LastColon(a: string, x: string, b: string, y: string)
    requires ':' !in x && ':' !in y && a + (":" + x) == b + (":" + y)
    ensures a == b && x == y
  {
    var s, t := a + (":" + x), b + (":" + y);
    assert s[|a|] == ':' && t[|b|] == ':';
    forall n | |a| < n < |s| ensures s[n] != ':' { assert s[n] == x[n - |a| - 1]; }
    forall n | |b| < n < |t| ensures t[n] != ':' { assert t[n] == y[n - |b| - 1]; }
    assert s[..|a|] == a && t[..|b|] == b;
    assert s[|a| + 1..] == x && t[|b| + 1..] == y;
  }

  /** Requests with tickers free of colons share a cache key only when they are the same request, whatever the company
      name holds. */
  lemma KeysAreDistinct(p: NewsRequest, q: NewsRequest)
    requires ':' !in p.ticker && ':' !in q.ticker && KeyOf(p) == KeyOf(q)
    ensures p == q
  {
    var rest, other := p.companyName + (":" + Decimal(p.display)), q.companyName + (":" + Decimal(q.display));
    assert KeyOf(p).key[5..] == p.ticker + (":" + rest);
    assert KeyOf(q).key[5..] == q.ticker + (":" + other);
    FirstColon(p.ticker, rest, q.ticker, other);
    DecimalExact(p.display, q.display);
    DecimalExact(q.display, p.display);
    LastColon(p.companyName, Decimal(p.display), q.companyName, Decimal(q.display));
  }
}
