/**
 * The in-memory key/value store the caching stage reads and writes, reduced
 * to the behaviour the stage relies on: a value stored under a key with an
 * absolute expiration instant, a read that misses once that instant is
 * reached, and a write that replaces whatever the key held before. A write
 * whose expiration relative to now is not positive, or whose expiry instant
 * the clock cannot represent, is rejected, and the store is left as it was.
 */
module MemoryStore {
  import opened Messages

  /** A stored response and the instant from which it no longer counts. */
  datatype Entry = Entry(value: Response, expiresAt: int)

  /**
   * The latest instant the cache's clock can represent, in 100-nanosecond
   * ticks: the last tick of the year 9999. Instants and lifetimes are counted
   * in the same ticks.
   */
  const MaxInstant: int := 3155378975999999999

  /** The error a write with a non-positive relative expiration raises. */
  const RelativeExpirationRejected: Error :=
    ArgumentOutOfRange("AbsoluteExpirationRelativeToNow", "The relative expiration value must be positive.")

  /** The error a write raises when its expiry instant would lie past `MaxInstant`. */
  const ExpiryUnrepresentable: Error :=
    ArgumentOutOfRange("t", "The added or subtracted value results in an un-representable DateTime.")

  /**
   * A write at instant `now` with expiration `relative` is accepted: the
   * expiration is positive and the expiry instant it gives is representable.
   */
  predicate Accepted(relative: int, now: int) {
    0 < relative && now + relative <= MaxInstant
  }

  /** The error a write raises when it is not accepted. */
  function WriteError(relative: int): Error {
    if relative <= 0 then RelativeExpirationRejected else ExpiryUnrepresentable
  }

  /** The key holds an entry that has not expired at instant `now`. */
  predicate Live(entries: map<string, Entry>, key: string, now: int) {
    key in entries && now < entries[key].expiresAt
  }

  /** A read: the stored response when the key is live, nothing otherwise. */
  function Read(entries: map<string, Entry>, key: string, now: int): (r: Option<Response>)
    ensures r.Some? <==> Live(entries, key, now)
    ensures r.Some? ==> r.value == entries[key].value
  {
    if Live(entries, key, now) then Some(entries[key].value) else None
  }

  /**
   * A write at instant `now` with an expiration `relative` to it. An accepted
   * write gives a store in which the key holds exactly `value`, expiring
   * `relative` ticks from now, and no other key is touched. A `relative` that
   * is not positive is rejected, and so is one whose expiry instant would lie
   * past `MaxInstant`.
   */
  function Write(entries: map<string, Entry>, key: string, value: Response, relative: int, now: int)
    : (r: Result<map<string, Entry>, Error>)
    ensures relative <= 0 ==> r == Failure(RelativeExpirationRejected)
    ensures relative > 0 && now + relative > MaxInstant ==> r == Failure(ExpiryUnrepresentable)
    ensures Accepted(relative, now) ==>
      && r.Success?
      && r.value.Keys == entries.Keys + {key}
      && r.value[key].value == value && r.value[key].expiresAt == now + relative
      && forall k :: k in entries && k != key ==> r.value[k] == entries[k]
  {
    if !Accepted(relative, now) then Failure(WriteError(relative))
    else Success(entries[key := Entry(value, now + relative)])
  }

  /** A value written is read back at any instant from the write up to its expiry. */
  lemma ReadAfterWrite(entries: map<string, Entry>, key: string, value: Response, relative: int, now: int, later: int)
    requires now <= later < now + relative <= MaxInstant
    ensures
      var w := Write(entries, key, value, relative, now);
      w.Success? && Read(w.value, key, later) == Some(value)
  {
  }

  /** Once its expiration instant is reached, a written value is no longer read. */
  lemma ReadAfterExpiry(entries: map<string, Entry>, key: string, value: Response, relative: int, now: int, later: int)
    requires later >= now + relative
    ensures
      var w := Write(entries, key, value, relative, now);
      w.Success? ==> Read(w.value, key, later) == None
  {
  }

  /** A write to one key does not change what a read of any other key sees. */
  lemma ReadOtherAfterWrite(entries: map<string, Entry>, key: string, other: string, value: Response,
                            relative: int, now: int, later: int)
    requires other != key
    ensures
      var w := Write(entries, key, value, relative, now);
      w.Success? ==> Read(w.value, other, later) == Read(entries, other, later)
  {
  }

  /** The store object shared by every request that passes the caching stage. */
  class MemoryCache {
    var entries: map<string, Entry>

    constructor ()
      ensures entries == map[]
    {
      entries := map[];
    }

    /** Reads the response stored under `key`, if it is still live at `now`. */
    method Get(key: string, now: int) returns (r: Option<Response>)
      ensures r.Some? <==> Live(entries, key, now)
      ensures r.Some? ==> r.value == entries[key].value
    {
      if key in entries && now < entries[key].expiresAt {
        r := Some(entries[key].value);
      } else {
        r := None;
      }
    }

    /**
     * Stores `value` under `key` at instant `now`, replacing any earlier entry,
     * expiring `relative` after `now`; a rejected write raises its error and
     * leaves the store unchanged.
     */
    method Set(key: string, value: Response, relative: int, now: int) returns (raised: Option<Error>)
      modifies this
      ensures
        var w := Write(old(entries), key, value, relative, now);
        && (w.Success? ==> entries == w.value && raised == None)
        && (w.Failure? ==> entries == old(entries) && raised == Some(w.error))
    {
      if relative <= 0 {
        raised := Some(RelativeExpirationRejected);
      } else if now + relative > MaxInstant {
        raised := Some(ExpiryUnrepresentable);
      } else {
        entries := entries[key := Entry(value, now + relative)];
        raised := None;
      }
    }
  }
}
