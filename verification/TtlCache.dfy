/** The TTL cache. Values are kept as they are; their JSON encoding is not part of the model. */
module TtlCache {
  import opened Basics
  import Store = ExpiringStore

  datatype Event<V> =
    | Set(key: string, value: V, now: Time)
    | SetTTL(key: string, value: V, ttl: Time, now: Time)
    | Delete(key: string)
    | Clear
    | Cleanup(now: Time)

  datatype Read<V> = Found(value: V) | NotFound | Expired

  function OpOf<V>(ttl: Time, e: Event<V>): Store.Op<string, V> {
    match e
    case Set(k, v, now) => Store.Put(k, Store.Item(v, now + ttl))
    case SetTTL(k, v, own, now) => Store.Put(k, Store.Item(v, now + own))
    case Delete(k) => Store.Drop(k)
    case Clear => Store.DropAll
    case Cleanup(now) => Store.Purge(now)
  }

  function Get<V>(items: map<string, Store.Item<V>>, key: string, now: Time): Read<V> {
    if key !in items then NotFound
    else if Store.Expired(items[key], now) then Expired
    else Found(items[key].value)
  }

  class Cache<V> {
    const ttl: Time
    var items: map<string, Store.Item<V>>

    constructor (ttl: Time)
      ensures this.ttl == ttl && items == map[]
    {
      this.ttl, items := ttl, map[];
    }

    method Read(key: string, now: Time) returns (r: Read<V>)
      ensures r == Get(items, key, now)
    {
      if key !in items {
        return NotFound;
      }
      if now > items[key].expiry {
        return Expired;
      }
      return Found(items[key].value);
    }

    method Set(key: string, value: V, now: Time)
      modifies this`items
      ensures items == Store.Step(old(items), OpOf(ttl, Event.Set(key, value, now)))
    {
      items := items[key := Store.Item(value, now + ttl)];
    }

    method SetTTL(key: string, value: V, own: Time, now: Time)
      modifies this`items
      ensures items == Store.Step(old(items), OpOf(ttl, Event.SetTTL(key, value, own, now)))
    {
      items := items[key := Store.Item(value, now + own)];
    }

    method Delete(key: string)
      modifies this`items
      ensures items == Store.Step(old(items), OpOf(ttl, Event<V>.Delete(key)))
    {
      items := items - {key};
    }

    method Clear()
      modifies this`items
      ensures items == Store.Step(old(items), OpOf(ttl, Event<V>.Clear))
    {
      items := map[];
    }

    method Cleanup(now: Time)
      modifies this`items
      ensures items == Store.Step(old(items), OpOf(ttl, Event<V>.Cleanup(now)))
    {
      items := Store.PurgeExpired(items, now);
    }
  }

  function Ops<V>(ttl: Time, events: seq<Event<V>>): seq<Store.Op<string, V>> {
    seq(|events|, k requires 0 <= k < |events| => OpOf(ttl, events[k]))
  }

  /** What reading a key at `now` gives after `events`. */
  function ReadAfter<V>(ttl: Time, events: seq<Event<V>>, key: string, now: Time): Read<V> {
    Get(Store.Run(Ops(ttl, events)), key, now)
  }

  /** The value last written under a key and when it expires, deletions included and cleanups not. */
  function LastWrite<V>(ttl: Time, events: seq<Event<V>>, key: string): Option<(V, Time)> {
    if events == [] then None
    else
      var before := LastWrite(ttl, events[..|events| - 1], key);
      match events[|events| - 1]
      case Set(k, v, at) => if k == key then Some((v, at + ttl)) else before
      case SetTTL(k, v, own, at) => if k == key then Some((v, at + own)) else before
      case Delete(k) => if k == key then None else before
      case Clear => None
      case Cleanup(_) => before
  }

  ghost predicate CleanupsBy<V>(events: seq<Event<V>>, now: Time) {
    forall k :: 0 <= k < |events| && events[k].Cleanup? ==> events[k].now <= now
  }

  lemma {:induction false} LastPutIsLastWrite<V>(ttl: Time, events: seq<Event<V>>, key: string)
    ensures var i := Store.LastPut(Ops(ttl, events), key);
            LastWrite(ttl, events, key) == if i.Some? then Some((i.value.value, i.value.expiry)) else None
  {
    if events != [] {
      var init := events[..|events| - 1];
      assert Ops(ttl, events)[..|events| - 1] == Ops(ttl, init);
      LastPutIsLastWrite(ttl, init, key);
    }
  }

  /** Since the last write of the key some cleanup has found it expired. */
  predicate CleanedSince<V>(ttl: Time, events: seq<Event<V>>, key: string) {
    events != [] &&
    var init := events[..|events| - 1];
    match events[|events| - 1]
    case Set(k, _, _) => k != key && CleanedSince(ttl, init, key)
    case SetTTL(k, _, _, _) => k != key && CleanedSince(ttl, init, key)
    case Cleanup(now) =>
      CleanedSince(ttl, init, key) || (LastWrite(ttl, init, key).Some? && now > LastWrite(ttl, init, key).value.1)
    case _ => CleanedSince(ttl, init, key)
  }

  lemma {:induction false} PurgedIsCleaned<V>(ttl: Time, events: seq<Event<V>>, key: string)
    ensures Store.PurgedSince(Ops(ttl, events), key) <==> CleanedSince(ttl, events, key)
  {
    if events != [] {
      var init := events[..|events| - 1];
      assert Ops(ttl, events)[..|events| - 1] == Ops(ttl, init);
      PurgedIsCleaned(ttl, init, key);
      LastPutIsLastWrite(ttl, init, key);
    }
  }

  /** For every run and every clock reading, which of the three answers a read gives. */
  lemma ReadIsExact<V>(ttl: Time, events: seq<Event<V>>, key: string, now: Time)
    ensures ReadAfter(ttl, events, key, now) ==
            match LastWrite(ttl, events, key)
            case None => NotFound
            case Some((v, expiry)) =>
              if CleanedSince(ttl, events, key) then NotFound else if now <= expiry then Found(v) else Expired
  {
    Store.HeldIff(Ops(ttl, events), key);
    PurgedIsCleaned(ttl, events, key);
    LastPutIsLastWrite(ttl, events, key);
  }

  /**
   For any schedule of cleanups a read succeeds exactly when the last write of the
   key has not expired, and then with its value.
   */
  lemma ReadIsLastWrite<V>(ttl: Time, events: seq<Event<V>>, key: string, now: Time)
    requires CleanupsBy(events, now)
    ensures var r := ReadAfter(ttl, events, key, now);
            match LastWrite(ttl, events, key)
            case None => r == NotFound
            case Some((v, expiry)) => if now <= expiry then r == Found(v) else r == NotFound || r == Expired
  {
    Store.HoldsLastPut(Ops(ttl, events), key, now);
    LastPutIsLastWrite(ttl, events, key);
  }

  function WithoutCleanups<V>(events: seq<Event<V>>): seq<Event<V>> {
    if events == [] then []
    else
      var rest := WithoutCleanups(events[..|events| - 1]);
      if events[|events| - 1].Cleanup? then rest else rest + [events[|events| - 1]]
  }

  lemma {:induction false} NeverCleaned<V>(ttl: Time, events: seq<Event<V>>, key: string)
    ensures !CleanedSince(ttl, WithoutCleanups(events), key)
  {
    if events != [] {
      var init, e := events[..|events| - 1], events[|events| - 1];
      NeverCleaned(ttl, init, key);
      if !e.Cleanup? {
        assert (WithoutCleanups(init) + [e])[..|WithoutCleanups(init)|] == WithoutCleanups(init);
      }
    }
  }

  lemma {:induction false} LastWriteIgnoresCleanups<V>(ttl: Time, events: seq<Event<V>>, key: string)
    ensures LastWrite(ttl, WithoutCleanups(events), key) == LastWrite(ttl, events, key)
  {
    if events != [] {
      var init, e := events[..|events| - 1], events[|events| - 1];
      LastWriteIgnoresCleanups(ttl, init, key);
      if !e.Cleanup? {
        var rest := WithoutCleanups(init);
        assert WithoutCleanups(events) == rest + [e];
        assert (rest + [e])[..|rest|] == rest;
      }
    }
  }

  /**
   Against the same run without cleanups, a read is the same, or it answers "not found"
   where it would have answered "expired": no successful read is changed.
   */
  lemma CleanupsOnlyForgetExpired<V>(ttl: Time, events: seq<Event<V>>, key: string, now: Time)
    requires CleanupsBy(events, now)
    ensures var r, bare := ReadAfter(ttl, events, key, now), ReadAfter(ttl, WithoutCleanups(events), key, now);
            r == bare || (r == NotFound && bare == Expired)
  {
    NeverCleaned(ttl, events, key);
    LastWriteIgnoresCleanups(ttl, events, key);
    ReadIsExact(ttl, WithoutCleanups(events), key, now);
    ReadIsLastWrite(ttl, events, key, now);
  }
}
