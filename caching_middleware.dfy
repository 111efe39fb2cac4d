/**
 * The caching stage of the request pipeline: a read-through cache in front
 * of the next stage. A request without a URI is refused; a request whose
 * method is not GET passes straight through; a GET whose key is live in the
 * store is answered from the store; any other GET is passed on and, when
 * the next stage answers with a 2xx response, that response is stored for
 * the duration configured for the request's name, under the key of the
 * request URI as the next stage leaves it.
 *
 * The stage does not know how keys are derived nor how long entries live:
 * both are given to it, as `getKey` (a deterministic function of the URI
 * string) and `expirationFor` (the configured lifetime for a logical name).
 * Time is read twice: the lookup happens at `now`, when the request arrives,
 * and the expiry of a stored answer counts from `completed`, the instant the
 * store is written after the next stage has answered.
 */
module CachingMiddleware {
  import opened Messages
  import opened MemoryStore

  /** The outcome of a lookup: a hit carries the stored response. */
  datatype CacheResult = Miss | Hit(data: Response)

  /** What one pass through the stage produces. */
  datatype Outcome = Outcome(
    response: Result<Response, Error>,  // what the stage hands back to its caller
    entries: map<string, Entry>,        // the store afterwards
    nextCalled: bool)                   // whether the next stage was invoked

  /** The lookup of a derived key, wrapped as a hit or a miss. */
  function Lookup(entries: map<string, Entry>, key: string, now: int): (r: CacheResult)
    ensures r.Hit? <==> Live(entries, key, now)
    ensures r.Hit? ==> r.data == entries[key].value
  {
    match Read(entries, key, now)
    case Some(v) => Hit(v)
    case None => Miss
  }

  /**
   * The store after offering `response` for caching at instant `completed`:
   * a response that is not a 2xx success, or a request without URI, leaves
   * the store as it was; a success is stored under the key derived from the
   * request URI, replacing any earlier entry, with the lifetime configured
   * for the request's name, unless the store rejects that lifetime (not
   * positive, or expiring past `MaxInstant`). No other key changes.
   */
  function Populate(entries: map<string, Entry>, request: Request, response: Response, completed: int,
                    getKey: string -> string, expirationFor: string -> int)
    : (r: Result<map<string, Entry>, Error>)
    ensures !response.IsSuccessStatusCode() || request.uri.None? ==> r == Success(entries)
    ensures response.IsSuccessStatusCode() && request.uri.Some? && !Accepted(expirationFor(request.name), completed) ==>
      r == Failure(WriteError(expirationFor(request.name)))
    ensures response.IsSuccessStatusCode() && request.uri.Some? && Accepted(expirationFor(request.name), completed) ==>
      var key := getKey(request.uri.value);
      && r.Success?
      && r.value.Keys == entries.Keys + {key}
      && r.value[key] == Entry(response, completed + expirationFor(request.name))
    ensures r.Success? ==> forall k :: k in entries && (request.uri.None? || k != getKey(request.uri.value)) ==>
      k in r.value && r.value[k] == entries[k]
  {
    if !response.IsSuccessStatusCode() then Success(entries)
    else
      var relative := expirationFor(request.name);
      if request.uri.Some? then Write(entries, getKey(request.uri.value), response, relative, completed)
      else Success(entries)
  }

  /**
   * One pass of a request through the stage, given the store before it, the
   * instant `now` the request arrives, the instant `completed` at which the
   * store is written after the next stage answers, what the next stage yields
   * if it is invoked, and `uriAfter`, the request URI as the next stage leaves
   * it. The request object is shared with later stages, which may rewrite its
   * URI (a followed redirect does); the stage derives the key it writes from
   * the URI as it then stands.
   */
  function Respond(entries: map<string, Entry>, request: Request, now: int, completed: int,
                   downstream: Result<Response, Error>, uriAfter: Option<string>,
                   getKey: string -> string, expirationFor: string -> int): (o: Outcome)
    // A request without a URI is refused; neither the store nor the next stage is touched.
    ensures request.uri.None? ==>
      o == Outcome(Failure(InvalidRequest(UriRequiredMessage)), entries, false)
    // Any other method than GET gets exactly what the next stage yields; the store is left alone.
    ensures request.uri.Some? && !request.httpMethod.IsGet() ==>
      o == Outcome(downstream, entries, true)
    // A GET whose key is live is answered from the store without invoking the next stage.
    ensures request.uri.Some? && request.httpMethod.IsGet() ==>
      var key := getKey(request.uri.value);
      Live(entries, key, now) ==> o == Outcome(Success(entries[key].value), entries, false)
    // A GET whose key is not live invokes the next stage; a fault it raises reaches the caller unchanged.
    ensures request.uri.Some? && request.httpMethod.IsGet() ==>
      var key := getKey(request.uri.value);
      !Live(entries, key, now) ==> o.nextCalled && (downstream.Failure? ==> o.response == downstream)
    // Its 2xx answer is returned and stored under the key of the URI the next stage left,
    // expiring the configured lifetime after `completed`.
    ensures request.uri.Some? && request.httpMethod.IsGet() && downstream.Success? &&
            downstream.value.IsSuccessStatusCode() && uriAfter.Some? && Accepted(expirationFor(request.name), completed) ==>
      !Live(entries, getKey(request.uri.value), now) ==>
        && o.response == downstream
        && o.entries == entries[getKey(uriAfter.value) := Entry(downstream.value, completed + expirationFor(request.name))]
    // If the next stage has cleared the URI, the answer is returned and nothing is stored.
    ensures request.uri.Some? && request.httpMethod.IsGet() && downstream.Success? &&
            downstream.value.IsSuccessStatusCode() && uriAfter.None? ==>
      !Live(entries, getKey(request.uri.value), now) ==> o.response == downstream && o.entries == entries
    // With a lifetime the store rejects, nothing is stored and the caller gets the store's error.
    ensures request.uri.Some? && request.httpMethod.IsGet() && downstream.Success? &&
            downstream.value.IsSuccessStatusCode() && uriAfter.Some? && !Accepted(expirationFor(request.name), completed) ==>
      !Live(entries, getKey(request.uri.value), now) ==>
        o.response == Failure(WriteError(expirationFor(request.name))) && o.entries == entries
    // A non-2xx answer is returned as it is.
    ensures request.uri.Some? && request.httpMethod.IsGet() && downstream.Success? &&
            !downstream.value.IsSuccessStatusCode() ==>
      !Live(entries, getKey(request.uri.value), now) ==> o.response == downstream
    // Failures and non-2xx responses are never cached.
    ensures !(downstream.Success? && downstream.value.IsSuccessStatusCode()) ==> o.entries == entries
    // No entry is ever removed, and the only key that can change is the one derived from `uriAfter`.
    ensures entries.Keys <= o.entries.Keys
    ensures o.entries != entries ==>
      && request.uri.Some? && request.httpMethod.IsGet()
      && downstream.Success? && downstream.value.IsSuccessStatusCode()
      && uriAfter.Some? && Accepted(expirationFor(request.name), completed)
      && !Live(entries, getKey(request.uri.value), now)
      && o.entries.Keys == entries.Keys + {getKey(uriAfter.value)}
      && forall k :: k in entries && k != getKey(uriAfter.value) ==> o.entries[k] == entries[k]
  {
    if request.uri.None? then
      Outcome(Failure(InvalidRequest(UriRequiredMessage)), entries, false)
    else if !request.httpMethod.IsGet() then
      Outcome(downstream, entries, true)
    else
      match Lookup(entries, getKey(request.uri.value), now)
      case Hit(data) => Outcome(Success(data), entries, false)
      case Miss =>
        match downstream
        case Failure(_) => Outcome(downstream, entries, true)
        case Success(response) =>
          match Populate(entries, request.(uri := uriAfter), response, completed, getKey, expirationFor)
          case Success(stored) => Outcome(downstream, stored, true)
          case Failure(raised) => Outcome(Failure(raised), entries, true)
  }

  /** The next stage left the request URI with the key it had when the stage looked it up. */
  predicate KeepsKey(request: Request, uriAfter: Option<string>, getKey: string -> string) {
    request.uri.Some? && uriAfter.Some? && getKey(uriAfter.value) == getKey(request.uri.value)
  }

  /**
   * Right after a GET that missed and was answered with a success, the same
   * GET, issued before the configured lifetime has run out, is a hit: it gets
   * the first answer back, the next stage is not invoked, the store stays.
   * This needs the next stage to have left the URI with the same key.
   */
  lemma SecondGetHits(entries: map<string, Entry>, request: Request, first: int, completed: int, second: int,
                      downstream: Result<Response, Error>, uriAfter: Option<string>,
                      downstream2: Result<Response, Error>, uriAfter2: Option<string>,
                      getKey: string -> string, expirationFor: string -> int)
    requires request.httpMethod.IsGet() && KeepsKey(request, uriAfter, getKey)
    requires !Live(entries, getKey(request.uri.value), first)
    requires downstream.Success? && downstream.value.IsSuccessStatusCode()
    requires Accepted(expirationFor(request.name), completed)
    requires second < completed + expirationFor(request.name)
    ensures
      var o1 := Respond(entries, request, first, completed, downstream, uriAfter, getKey, expirationFor);
      var o2 := Respond(o1.entries, request, second, second, downstream2, uriAfter2, getKey, expirationFor);
      && o1.response == downstream && o1.nextCalled
      && o2.response == o1.response && !o2.nextCalled && o2.entries == o1.entries
  {
  }

  /**
   * When the next stage moves the request to a URI with another key, or
   * clears it, the answer is not stored under the key looked up: the same GET
   * issued again later misses and invokes the next stage once more.
   */
  lemma RewrittenUriMisses(entries: map<string, Entry>, request: Request, first: int,
                               completed: int, second: int,
                               downstream: Result<Response, Error>, uriAfter: Option<string>,
                               downstream2: Result<Response, Error>, uriAfter2: Option<string>,
                               getKey: string -> string, expirationFor: string -> int)
    requires request.httpMethod.IsGet() && request.uri.Some? && !KeepsKey(request, uriAfter, getKey)
    requires !Live(entries, getKey(request.uri.value), first)
    requires first <= second
    ensures
      var o1 := Respond(entries, request, first, completed, downstream, uriAfter, getKey, expirationFor);
      var o2 := Respond(o1.entries, request, second, second, downstream2, uriAfter2, getKey, expirationFor);
      && o1.nextCalled && o2.nextCalled
      && (downstream2.Failure? ==> o2.response == downstream2)
  {
  }

  /**
   * Once the configured lifetime of the stored answer has run out, counted
   * from when it was stored, the same GET misses again: it invokes the next
   * stage and, when that fails, returns its new answer. This holds whatever
   * the next stage did to the URI, provided the store is not written before
   * the request arrived or the URI kept its key.
   */
  lemma GetAfterLifetimeMisses(entries: map<string, Entry>, request: Request, first: int, completed: int,
                               second: int, downstream: Result<Response, Error>, uriAfter: Option<string>,
                               downstream2: Result<Response, Error>, uriAfter2: Option<string>,
                               getKey: string -> string, expirationFor: string -> int)
    requires request.httpMethod.IsGet() && request.uri.Some?
    requires KeepsKey(request, uriAfter, getKey) || first <= completed
    requires !Live(entries, getKey(request.uri.value), first)
    requires downstream.Success? && downstream.value.IsSuccessStatusCode()
    requires Accepted(expirationFor(request.name), completed)
    requires second >= completed + expirationFor(request.name)
    ensures
      var o1 := Respond(entries, request, first, completed, downstream, uriAfter, getKey, expirationFor);
      var o2 := Respond(o1.entries, request, second, second, downstream2, uriAfter2, getKey, expirationFor);
      && o2.nextCalled
      && (downstream2.Failure? || !downstream2.value.IsSuccessStatusCode() ==> o2.response == downstream2)
  {
  }

  /** The caching stage as an object wired to a shared store. */
  class MemoryCacheMiddleware {
    const cache: MemoryCache
    const getKey: string -> string
    const expirationFor: string -> int
    /** How many times this stage has invoked the next stage. */
    ghost var nextCalls: nat

    constructor (cache: MemoryCache, getKey: string -> string, expirationFor: string -> int)
      ensures this.cache == cache && this.getKey == getKey && this.expirationFor == expirationFor
      ensures nextCalls == 0
    {
      this.cache := cache;
      this.getKey := getKey;
      this.expirationFor := expirationFor;
      nextCalls := 0;
    }

    /**
     * Handles one request arriving at instant `now`; `downstream` is what the
     * next stage yields when it is invoked, `uriAfter` the request URI as it
     * leaves it, and `completed` the instant at which the store is written
     * afterwards.
     */
    method ExecuteAsync(request: Request, now: int, completed: int,
                        downstream: Result<Response, Error>, uriAfter: Option<string>)
      returns (r: Result<Response, Error>)
      modifies this, cache
      ensures
        var o := Respond(old(cache.entries), request, now, completed, downstream, uriAfter, getKey, expirationFor);
        && r == o.response
        && cache.entries == o.entries
        && nextCalls == old(nextCalls) + (if o.nextCalled then 1 else 0)
    {
      if request.uri.None? {
        return Failure(InvalidRequest(UriRequiredMessage));
      }
      if !request.httpMethod.IsGet() {
        r := Next(downstream);
        return;
      }
      var cacheValue := GetFromCache(getKey(request.uri.value), now);
      if cacheValue.Hit? {
        return Success(cacheValue.data);
      }
      r := Next(downstream);
      // The request as the next stage has left it.
      var current := request.(uri := uriAfter);
      if r.Success? {
        var raised := SetToCache(current, r.value, completed);
        if raised.Some? {
          r := Failure(raised.value);
        }
      }
    }

    /** Invokes the next stage, which yields `downstream`. */
    method Next(downstream: Result<Response, Error>) returns (r: Result<Response, Error>)
      modifies this`nextCalls
      ensures r == downstream && nextCalls == old(nextCalls) + 1
    {
      nextCalls := nextCalls + 1;
      r := downstream;
    }

    /**
     * Offers a response for caching at instant `completed` under the key
     * derived from the request URI; the error the store raises, if any.
     */
    method SetToCache(request: Request, response: Response, completed: int) returns (raised: Option<Error>)
      modifies cache
      ensures
        var p := Populate(old(cache.entries), request, response, completed, getKey, expirationFor);
        && (p.Success? ==> cache.entries == p.value && raised == None)
        && (p.Failure? ==> cache.entries == old(cache.entries) && raised == Some(p.error))
    {
      if !response.IsSuccessStatusCode() {
        return None;
      }
      var relative := expirationFor(request.name);
      if request.uri.Some? {
        raised := cache.Set(getKey(request.uri.value), response, relative, completed);
      } else {
        raised := None;
      }
    }

    /** Looks a derived key up in the store and reports a hit or a miss. */
    method GetFromCache(key: string, now: int) returns (r: CacheResult)
      ensures r.Hit? <==> Live(cache.entries, key, now)
      ensures r.Hit? ==> r.data == cache.entries[key].value
    {
      var data := cache.Get(key, now);
      r := if data.Some? then Hit(data.value) else Miss;
    }
  }

  /**
   * A client of the stage object: the same GET twice on a fresh store, the
   * second one within the configured lifetime of the first answer, with a
   * next stage that leaves the URI with the same key. Both callers get the
   * first answer, and the next stage runs only once.
   */
  method ServeTwice(request: Request, first: int, completed: int, second: int, response: Response,
                    uriAfter: Option<string>, downstream2: Result<Response, Error>, uriAfter2: Option<string>,
                    getKey: string -> string, expirationFor: string -> int)
    returns (r1: Result<Response, Error>, r2: Result<Response, Error>, stage: MemoryCacheMiddleware)
    requires request.httpMethod.IsGet() && KeepsKey(request, uriAfter, getKey)
    requires response.IsSuccessStatusCode()
    requires Accepted(expirationFor(request.name), completed) && second < completed + expirationFor(request.name)
    ensures r1 == Success(response) && r2 == Success(response)
    ensures stage.nextCalls == 1
  {
    var cache := new MemoryCache();
    stage := new MemoryCacheMiddleware(cache, getKey, expirationFor);
    r1 := stage.ExecuteAsync(request, first, completed, Success(response), uriAfter);
    r2 := stage.ExecuteAsync(request, second, second, downstream2, uriAfter2);
  }
}
