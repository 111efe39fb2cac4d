# Finity memory-cache middleware, modelled in Dafny

Finity runs an outbound HTTP request through a pipeline of middlewares. One of
them, `MemoryCacheMiddleware`, is a read-through response cache:

- a request without a URI is refused with an exception;
- a request whose method is not GET is handed to the next middleware untouched;
- for a GET, a cache key is derived from the URI string and looked up in an
  `IMemoryCache`; a hit is returned without calling the next middleware;
- on a miss, the next middleware is called, its response is returned, and when
  that response has a 2xx status it is stored with the absolute expiration
  (relative to now) configured for the request's name. The key is derived a
  second time, from the request URI as it stands after the next middleware
  has returned. The request object is shared with later middlewares, which
  may rewrite its URI (a followed redirect does) or clear it.

The model has four modules:

- `Messages` (`messages.dfy`): requests (method, optional URI string, logical
  name), responses (status code and opaque body; success means a 2xx status),
  the errors a stage can surface, and `Option`/`Result`.
- `MemoryStore` (`memory_store.dfy`): the memory cache as a map from key to
  entry (response plus absolute expiry instant). `Read` and `Write` are its
  specification; the class `MemoryCache` holds the map as a field that `Set`
  reassigns in place.
- `CachingMiddleware` (`caching_middleware.dfy`): the specification functions
  `Lookup`, `Populate` and `Respond` (one pass of one request), and the class
  `MemoryCacheMiddleware` with `ExecuteAsync`, `SetToCache` and
  `GetFromCache`. The class holds a reference to a shared `MemoryCache`; its
  methods change that object's map and are proved equal to the specification
  functions. A ghost counter `nextCalls` records each call of the next
  middleware.
- `ReadThrough` (`read_through.dfy`): a sequence of requests handled one after
  another against one store, and what holds over it. Failures are never
  cached. Only GET keys are ever written. Repeated GETs within the lifetime
  call the next middleware exactly once when it leaves the URI's key alone.

Collaborators whose code is not part of this model become parameters:

- the next middleware is `downstream`, the result (a response or a fault) it
  yields when called, together with `uriAfter`, the request URI as it leaves
  it;
- `CacheKey.GetKey` is `getKey: string -> string`, an arbitrary deterministic
  function;
- the per-name `CacheConfigure` lookup is `expirationFor: string -> int`, a
  signed lifetime like the `TimeSpan` it stands for;
- instants and lifetimes are counted in 100-nanosecond ticks, and the clock
  cannot represent an instant after `MaxInstant`, the last tick of the year
  9999;
- the cache's clock is read twice: `now` is the instant the request arrives
  and the lookup happens, `completed` the instant the store is written after
  the next middleware has answered.

An entry is live while the clock is strictly before its expiry instant,
which is `completed` plus the configured lifetime.

The model follows the code in these places, which may surprise a reader:

- Only an absent URI is rejected. An empty URI string goes on to key
  derivation.
- The key written is derived from the URI after the next middleware, not the
  one looked up. If that URI has another key, the answer is stored under it,
  and the same GET misses again later. If that URI was cleared, nothing is
  stored and no error is raised, even for a lifetime the store would reject.
- Faults raised by the store are not caught. A lifetime that is zero or
  negative makes the memory cache's `Set` throw, and so does one whose expiry
  instant (the write instant plus the lifetime) lies past `MaxInstant`, such
  as the largest `TimeSpan`. That exception reaches the caller in place of the
  2xx response, and nothing is stored.
- A fault raised by the next middleware propagates unchanged. Nothing is
  stored for it, and the model has no separate cancellation path.
- Methods compare without regard to ASCII case, so a method token `get` is a
  GET and is cached.

## Model

| member | source | states |
|---|---|---|
| `MemoryStore.Read` | src/Finity/Caching/Internals/MemoryCacheMiddleware.cs:73 | a read yields a response exactly when the key holds an entry whose expiry instant is after `now`, and then it yields that entry's response |
| `MemoryStore.Write` | src/Finity/Caching/Internals/MemoryCacheMiddleware.cs:67-68 | a write with a relative expiration that is not positive is rejected with the out-of-range error for the relative expiration; one whose expiry instant `now + relative` lies past `MaxInstant` is rejected with the unrepresentable-instant error; otherwise the key holds exactly the new response, expiring `relative` after `now`, the key set grows by that key only and every other entry is unchanged |
| `MemoryStore.ReadAfterWrite` | src/Finity/Caching/Internals/MemoryCacheMiddleware.cs:67-73 | a write at `now` whose expiry instant is representable succeeds and its value is read back at any instant from `now` up to, not including, its expiry |
| `MemoryStore.ReadAfterExpiry` | src/Finity/Caching/Internals/MemoryCacheMiddleware.cs:68 | once its expiry instant is reached, a successfully written value is no longer read |
| `MemoryStore.ReadOtherAfterWrite` | src/Finity/Caching/Internals/MemoryCacheMiddleware.cs:67 | a successful write to one key does not change what a read of any other key yields |
| `MemoryStore.MemoryCache.Get` | src/Finity/Caching/Internals/MemoryCacheMiddleware.cs:73 | the cache object's read returns a response exactly when the key is live, and it is the stored one |
| `MemoryStore.MemoryCache.Set` | src/Finity/Caching/Internals/MemoryCacheMiddleware.cs:67-68 | a write that `Write` accepts makes the cache object's map `Write`'s result and raises nothing; a rejected write leaves the map unchanged and raises `Write`'s error |
| `CachingMiddleware.Lookup` | src/Finity/Caching/Internals/MemoryCacheMiddleware.cs:71-75 | a lookup is a hit exactly when the key is live, and a hit carries the stored response |
| `CachingMiddleware.Populate` | src/Finity/Caching/Internals/MemoryCacheMiddleware.cs:60-69 | a non-2xx response, or a request without URI, leaves the store equal; a 2xx response with a configured lifetime the store accepts (positive, expiry not past `MaxInstant`) is stored under `getKey(uri)` with expiry `completed + expirationFor(name)`, replacing any earlier entry; with a lifetime the store rejects, the store's error for it is raised; on success every other key keeps its entry |
| `CachingMiddleware.Respond` | src/Finity/Caching/Internals/MemoryCacheMiddleware.cs:31-69 | no URI: the fixed error, store unchanged, next not called; non-GET: exactly the downstream result, store unchanged, next called; live GET: the stored response, store unchanged, next not called; GET miss: next called, a downstream fault or non-2xx answer returned unchanged, a 2xx answer returned and stored under the key of the URI as next left it, expiring the configured lifetime after `completed`; if next cleared the URI, the answer returned and nothing stored; when the store rejects the lifetime, the store's error returned and nothing stored; failures are never stored; no key is removed and only the key of the URI after next can change |
| `CachingMiddleware.SecondGetHits` | src/Finity/Caching/Internals/MemoryCacheMiddleware.cs:42-67 | after a GET miss answered with a success, where next left the URI with the key that was looked up, the same GET before the configured lifetime runs out (counted from when the answer was stored) is a hit returning the first answer, without calling next and without changing the store |
| `CachingMiddleware.RewrittenUriMisses` | src/Finity/Caching/Internals/MemoryCacheMiddleware.cs:54-67 | when next moves the request to a URI with another key, or clears it, the same GET issued again later still misses and calls next, and a new fault from next is returned as it is |
| `CachingMiddleware.GetAfterLifetimeMisses` | src/Finity/Caching/Internals/MemoryCacheMiddleware.cs:64-68 | once the configured lifetime, counted from when the answer was stored, has run out, the same GET misses again, calls next, and returns a new fault or non-2xx answer as it is; this holds whatever next did to the URI, as long as the store is not written before the request arrived or the URI kept its key |
| `CachingMiddleware.MemoryCacheMiddleware.constructor` | src/Finity/Caching/Internals/MemoryCacheMiddleware.cs:23-29 | the stage holds the injected cache and the configured lifetimes (the options), with the static key derivation as a parameter, and has not called next yet |
| `CachingMiddleware.MemoryCacheMiddleware.ExecuteAsync` | src/Finity/Caching/Internals/MemoryCacheMiddleware.cs:31-58 | the returned result and the cache's new map are those of `Respond` on the old map, with the lookup at `now` on the arriving URI and the write at `completed` for the request as next left it; the next-call counter grows by one exactly when `Respond` says next is called |
| `CachingMiddleware.MemoryCacheMiddleware.Next` | src/Finity/Caching/Internals/MemoryCacheMiddleware.cs:54 | calling next yields the downstream result and counts one call |
| `CachingMiddleware.MemoryCacheMiddleware.SetToCache` | src/Finity/Caching/Internals/MemoryCacheMiddleware.cs:60-69 | when `Populate` of the map before succeeds the cache's map is its result and nothing is raised; otherwise the map is unchanged and `Populate`'s error is raised |
| `CachingMiddleware.MemoryCacheMiddleware.GetFromCache` | src/Finity/Caching/Internals/MemoryCacheMiddleware.cs:71-75 | the result is a hit exactly when the key is live in the shared cache, and then carries the stored response |
| `CachingMiddleware.ServeTwice` | src/Finity/Caching/Internals/MemoryCacheMiddleware.cs:42-57 | on a fresh cache object, a GET answered with a success, with next leaving the URI with the same key, and the same GET within its lifetime both return that success, and the stage has called next exactly once |
| `ReadThrough.Run` | src/Finity/Caching/Internals/MemoryCacheMiddleware.cs:31-58 | handling requests one after another never removes a key from the modelled map (expired entries are kept); each request gets one answer |
| `ReadThrough.RunCachesOnlySuccesses` | src/Finity/Caching/Internals/MemoryCacheMiddleware.cs:62 | if every stored response is a 2xx success, that still holds after any sequence of requests |
| `ReadThrough.WritableKeys` | src/Finity/Caching/Internals/MemoryCacheMiddleware.cs:40-67 | a key is writable by a sequence exactly when some request in it is a GET with a URI, a 2xx downstream answer, a URI still set after next and a configured lifetime the store accepts at its write instant, and the key is derived from the URI as next left it |
| `ReadThrough.RunWritesOnlyGetKeys` | src/Finity/Caching/Internals/MemoryCacheMiddleware.cs:40-67 | after any sequence of requests, the store's keys lie within the old keys plus the writable keys; every writing GET whose URI kept its key leaves that key in the store; so when every writing GET keeps its key, the keys are exactly the old ones plus the writable ones |
| `ReadThrough.RunWhileLive` | src/Finity/Caching/Internals/MemoryCacheMiddleware.cs:42-52 | repeated GETs for a key live throughout all get the stored response, call next zero times and leave the store unchanged |
| `ReadThrough.ReadThroughOnce` | src/Finity/Caching/Internals/MemoryCacheMiddleware.cs:42-68 | a GET miss answered with a success, where next left the URI with the looked-up key, then the same GET any number of times within the lifetime counted from when it was stored: next is called exactly once and every caller gets that first response |

## Left out

- Asynchrony and cancellation: `Task`, `await` and the cancellation token are not modelled. The next middleware is a synchronous call, and a cancelled call is a downstream fault.
- The pipeline context, `setMetric` (never used) and the `MiddlewareType` token passed to `next` are not modelled; `next` is a plain continuation.
- The "data was read from cache" log line on a hit is an observability side effect and is not modelled.
- `CacheKey.GetKey` and `CacheResult` are not part of this model. Key derivation is an arbitrary deterministic function, and a hit means "key live in the map".
- `Uri.ToString()` is not modelled; the URI is carried as its string form.
- Method tokens are folded to upper case for ASCII letters only; the framework's ordinal case-insensitive comparison also folds other letters, none of which fold to G, E or T.
- Responses are values. The code stores the response object itself and hands the same object to the first caller and to every later hit, so a caller that reads or disposes its content affects the others; that sharing is not modelled.
- Memory-cache internals are not modelled: size limits, eviction under memory pressure, sliding expiration, thread safety and the real clock. A read of an expired entry does not remove it, because later reads see it as absent either way.
- MemoryStore.Write: a rejected write leaves the store unchanged, as current versions of the memory cache do (they drop an entry whose value was never set); older versions that committed such an entry anyway are not modelled.
- The request is a value. Of what the next middleware can do to the shared request object, only a changed or cleared URI is modelled, as `uriAfter`. The request name read after next is taken to be the one the request arrived with; the request message type is not part of this model.
- Reloading the configuration snapshot is not modelled; configuration is a fixed function from name to lifetime.
- Concurrent requests, last-write-wins races and request coalescing are not modelled; requests are handled one at a time.
