/**
 * Properties of the caching stage over a sequence of requests handled one
 * after the other against the same store.
 */
module ReadThrough {
  import opened Messages
  import opened MemoryStore
  import opened CachingMiddleware

  /**
   * One request: the instant it arrives, the instant the store is written
   * after the next stage answers, what the next stage would yield for it, and
   * the request URI as the next stage would leave it.
   */
  datatype Call = Call(request: Request, now: int, completed: int, downstream: Result<Response, Error>,
                       uriAfter: Option<string>)

  /** What a sequence of calls produces: the answers in order, the final store, the downstream invocations. */
  datatype History = History(responses: seq<Result<Response, Error>>, entries: map<string, Entry>, nextCalls: nat)

  /** Handles `calls` in order, each seeing the store the previous one left. */
  function Run(entries: map<string, Entry>, calls: seq<Call>,
               getKey: string -> string, expirationFor: string -> int): (t: History)
    ensures |t.responses| == |calls| && t.nextCalls <= |calls|
    // The stage never removes an entry from the modelled map (expired entries are kept).
    ensures entries.Keys <= t.entries.Keys
    decreases |calls|
  {
    if calls == [] then History([], entries, 0)
    else
      var c := calls[0];
      var o := Respond(entries, c.request, c.now, c.completed, c.downstream, c.uriAfter, getKey, expirationFor);
      var rest := Run(o.entries, calls[1..], getKey, expirationFor);
      History([o.response] + rest.responses, rest.entries, (if o.nextCalled then 1 else 0) + rest.nextCalls)
  }

  /** Every stored response is a 2xx success. */
  ghost predicate OnlySuccesses(entries: map<string, Entry>) {
    forall k :: k in entries ==> entries[k].value.IsSuccessStatusCode()
  }

  /** Failures are never cached: a store holding only successes still does after any sequence of calls. */
  lemma {:induction false} RunCachesOnlySuccesses(entries: map<string, Entry>, calls: seq<Call>,
                                                  getKey: string -> string, expirationFor: string -> int)
    requires OnlySuccesses(entries)
    ensures OnlySuccesses(Run(entries, calls, getKey, expirationFor).entries)
    decreases |calls|
  {
    if calls != [] {
      var c := calls[0];
      var o := Respond(entries, c.request, c.now, c.completed, c.downstream, c.uriAfter, getKey, expirationFor);
      assert OnlySuccesses(o.entries);
      RunCachesOnlySuccesses(o.entries, calls[1..], getKey, expirationFor);
    }
  }

  /**
   * The call may write the store when it misses: a GET with a URI whose
   * downstream answer is a 2xx success, whose URI is still set after the next
   * stage, and whose configured lifetime the store accepts. The key it writes
   * is derived from the URI the next stage left.
   */
  predicate Writes(c: Call, expirationFor: string -> int) {
    && c.request.httpMethod.IsGet() && c.request.uri.Some? && c.uriAfter.Some?
    && c.downstream.Success? && c.downstream.value.IsSuccessStatusCode()
    && Accepted(expirationFor(c.request.name), c.completed)
  }

  /** The call writes, and its URI kept the key that was looked up. */
  predicate WritesOwnKey(c: Call, getKey: string -> string, expirationFor: string -> int) {
    Writes(c, expirationFor) && KeepsKey(c.request, c.uriAfter, getKey)
  }

  /** The keys a sequence of calls can write: the keys derived from the URIs its writing calls leave. */
  function WritableKeys(calls: seq<Call>, getKey: string -> string, expirationFor: string -> int)
    : (ks: set<string>)
    ensures forall k :: k in ks <==>
      exists i :: 0 <= i < |calls| && Writes(calls[i], expirationFor) && getKey(calls[i].uriAfter.value) == k
    decreases |calls|
  {
    if calls == [] then {}
    else
      var rest := WritableKeys(calls[1..], getKey, expirationFor);
      assert forall i :: 1 <= i < |calls| ==> calls[i] == calls[1..][i - 1];
      if Writes(calls[0], expirationFor) then {getKey(calls[0].uriAfter.value)} + rest else rest
  }

  /**
   * Only GET requests populate the store: after a sequence of calls the store
   * holds the keys it held before and no others than the keys of the calls
   * that write. A writing call whose URI kept its key leaves that key in the
   * store (a hit finds it there, a miss stores it), so when every writing
   * call keeps its key the store holds exactly those keys and the old ones.
   */
  lemma {:induction false} RunWritesOnlyGetKeys(entries: map<string, Entry>, calls: seq<Call>,
                                                getKey: string -> string, expirationFor: string -> int)
    ensures
      var final := Run(entries, calls, getKey, expirationFor).entries.Keys;
      && final <= entries.Keys + WritableKeys(calls, getKey, expirationFor)
      && forall i :: 0 <= i < |calls| && WritesOwnKey(calls[i], getKey, expirationFor) ==>
           getKey(calls[i].uriAfter.value) in final
    ensures
      (forall i :: 0 <= i < |calls| && Writes(calls[i], expirationFor) ==>
         KeepsKey(calls[i].request, calls[i].uriAfter, getKey)) ==>
      Run(entries, calls, getKey, expirationFor).entries.Keys == entries.Keys + WritableKeys(calls, getKey, expirationFor)
    decreases |calls|
  {
    var final := Run(entries, calls, getKey, expirationFor).entries.Keys;
    var writable := WritableKeys(calls, getKey, expirationFor);
    if calls != [] {
      var c := calls[0];
      var o := Respond(entries, c.request, c.now, c.completed, c.downstream, c.uriAfter, getKey, expirationFor);
      var rest := calls[1..];
      RunWritesOnlyGetKeys(o.entries, rest, getKey, expirationFor);
      assert final == Run(o.entries, rest, getKey, expirationFor).entries.Keys;
      assert forall i :: 1 <= i < |calls| ==> calls[i] == rest[i - 1];
      if Writes(c, expirationFor) {
        assert o.entries.Keys <= entries.Keys + {getKey(c.uriAfter.value)};
        if KeepsKey(c.request, c.uriAfter, getKey) {
          // A hit finds the key already present; a miss stores it.
          assert getKey(c.uriAfter.value) in o.entries;
        }
      } else {
        assert o.entries == entries;
      }
      assert WritableKeys(rest, getKey, expirationFor) <= writable;
    }
    if forall i :: 0 <= i < |calls| && Writes(calls[i], expirationFor) ==>
         KeepsKey(calls[i].request, calls[i].uriAfter, getKey) {
      forall k | k in writable ensures k in final {
        var i :| 0 <= i < |calls| && Writes(calls[i], expirationFor) && getKey(calls[i].uriAfter.value) == k;
      }
      assert entries.Keys <= final;
    }
  }

  /**
   * Requests for a key that stays live throughout are all answered from the
   * store: nothing is invoked downstream and the store does not change.
   */
  lemma {:induction false} RunWhileLive(entries: map<string, Entry>, request: Request, calls: seq<Call>,
                                        getKey: string -> string, expirationFor: string -> int)
    requires request.httpMethod.IsGet() && request.uri.Some?
    requires forall i :: 0 <= i < |calls| ==>
      calls[i].request == request && Live(entries, getKey(request.uri.value), calls[i].now)
    ensures
      var t := Run(entries, calls, getKey, expirationFor);
      && t.nextCalls == 0 && t.entries == entries
      && forall i :: 0 <= i < |calls| ==> t.responses[i] == Success(entries[getKey(request.uri.value)].value)
    decreases |calls|
  {
    if calls != [] {
      var c := calls[0];
      assert c.request == request && Live(entries, getKey(request.uri.value), c.now);
      RunWhileLive(entries, request, calls[1..], getKey, expirationFor);
      var t := Run(entries, calls, getKey, expirationFor);
      var tail := Run(entries, calls[1..], getKey, expirationFor);
      assert t.responses == [Success(entries[getKey(request.uri.value)].value)] + tail.responses;
      forall i | 0 <= i < |calls|
        ensures t.responses[i] == Success(entries[getKey(request.uri.value)].value)
      {
        if i > 0 {
          assert t.responses[i] == tail.responses[i - 1];
        }
      }
    }
  }

  /**
   * Read-through: a GET that misses and is answered with a success, followed
   * by the same GET any number of times before the configured lifetime has
   * run out (counted from when the answer was stored), invokes the next
   * stage exactly once, and every caller gets that first answer, provided the
   * next stage left the URI with the key that was looked up.
   */
  lemma ReadThroughOnce(entries: map<string, Entry>, request: Request, now: int, completed: int,
                        response: Response, uriAfter: Option<string>, later: seq<Call>,
                        getKey: string -> string, expirationFor: string -> int)
    requires request.httpMethod.IsGet() && KeepsKey(request, uriAfter, getKey)
    requires !Live(entries, getKey(request.uri.value), now)
    requires response.IsSuccessStatusCode() && Accepted(expirationFor(request.name), completed)
    requires forall i :: 0 <= i < |later| ==>
      later[i].request == request && later[i].now < completed + expirationFor(request.name)
    ensures
      var t := Run(entries, [Call(request, now, completed, Success(response), uriAfter)] + later, getKey, expirationFor);
      && t.nextCalls == 1
      && forall i :: 0 <= i < |t.responses| ==> t.responses[i] == Success(response)
  {
    var calls := [Call(request, now, completed, Success(response), uriAfter)] + later;
    var o := Respond(entries, request, now, completed, Success(response), uriAfter, getKey, expirationFor);
    assert calls[1..] == later;
    RunWhileLive(o.entries, request, later, getKey, expirationFor);
    var t := Run(entries, calls, getKey, expirationFor);
    var tail := Run(o.entries, later, getKey, expirationFor);
    assert t.responses == [Success(response)] + tail.responses;
    forall i | 0 <= i < |t.responses| ensures t.responses[i] == Success(response) {
      if i > 0 {
        assert t.responses[i] == tail.responses[i - 1];
      }
    }
  }
}
