/**
 What the CSRF store and the TTL cache have in common: a map whose entries carry an
 expiry, and a background purge that deletes the expired ones at arbitrary moments.
 */
module ExpiringStore {
  import opened Basics

  datatype Item<V> = Item(value: V, expiry: Time)

  datatype Op<K, V> =
    | Put(key: K, item: Item<V>)
    | Drop(key: K)
    | DropAll
    | Purge(now: Time)

  predicate Expired<V>(i: Item<V>, now: Time) {
    now > i.expiry
  }

  function Purged<K, V>(m: map<K, Item<V>>, now: Time): map<K, Item<V>> {
    map k | k in m && !Expired(m[k], now) :: m[k]
  }

  function Step<K, V>(m: map<K, Item<V>>, op: Op<K, V>): map<K, Item<V>> {
    match op
    case Put(k, i) => m[k := i]
    case Drop(k) => m - {k}
    case DropAll => map[]
    case Purge(now) => Purged(m, now)
  }

  function Run<K, V>(ops: seq<Op<K, V>>): map<K, Item<V>> {
    if ops == [] then map[] else Step(Run(ops[..|ops| - 1]), ops[|ops| - 1])
  }

  /** What a reader at `now` finds under a key. */
  function Live<K, V>(m: map<K, Item<V>>, k: K, now: Time): Option<V> {
    if k in m && !Expired(m[k], now) then Some(m[k].value) else None
  }

  /** One tick of a purge; the entries are visited in no particular order. */
  method PurgeExpired<K(==), V>(m: map<K, Item<V>>, now: Time) returns (r: map<K, Item<V>>)
    ensures r == Purged(m, now)
  {
    r := m;
    var todo := m.Keys;
    while todo != {}
      invariant todo <= r.Keys <= m.Keys
      invariant forall k :: k in r ==> r[k] == m[k]
      invariant forall k :: k in m && k !in todo ==> (k in r <==> !Expired(m[k], now))
      decreases |todo|
    {
      var k :| k in todo;
      todo := todo - {k};
      if Expired(r[k], now) {
        r := r - {k};
      }
    }
  }

  /** The last item put under a key and not dropped since: purges do not count. */
  function LastPut<K(==), V>(ops: seq<Op<K, V>>, k: K): Option<Item<V>> {
    if ops == [] then None
    else
      var before := LastPut(ops[..|ops| - 1], k);
      match ops[|ops| - 1]
      case Put(k', i) => if k' == k then Some(i) else before
      case Drop(k') => if k' == k then None else before
      case DropAll => None
      case Purge(_) => before
  }

  /** Since the last put under a key some purge has found that item expired. */
  predicate PurgedSince<K(==), V>(ops: seq<Op<K, V>>, k: K) {
    ops != [] &&
    var init := ops[..|ops| - 1];
    match ops[|ops| - 1]
    case Put(k', _) => k' != k && PurgedSince(init, k)
    case Purge(now) => PurgedSince(init, k) || (LastPut(init, k).Some? && now > LastPut(init, k).value.expiry)
    case _ => PurgedSince(init, k)
  }

  /** The map holds a key exactly if it was put, not dropped, and not purged since, with the last item put. */
  lemma {:induction false} HeldIff<K, V>(ops: seq<Op<K, V>>, k: K)
    ensures k in Run(ops) <==> LastPut(ops, k).Some? && !PurgedSince(ops, k)
    ensures k in Run(ops) ==> LastPut(ops, k) == Some(Run(ops)[k])
  {
    if ops != [] {
      HeldIff(ops[..|ops| - 1], k);
    }
  }

  ghost predicate PurgesBy<K, V>(ops: seq<Op<K, V>>, now: Time) {
    forall j :: 0 <= j < |ops| && ops[j].Purge? ==> ops[j].now <= now
  }

  /** The map holds the last item put, unless a purge found that item expired. */
  lemma {:induction false} HoldsLastPut<K, V>(ops: seq<Op<K, V>>, k: K, now: Time)
    requires PurgesBy(ops, now)
    ensures k in Run(ops) ==> LastPut(ops, k) == Some(Run(ops)[k])
    ensures k !in Run(ops) && LastPut(ops, k).Some? ==> Expired(LastPut(ops, k).value, now)
  {
    if ops != [] {
      var init := ops[..|ops| - 1];
      assert PurgesBy(init, now);
      HoldsLastPut(init, k, now);
      assert ops[|ops| - 1].Purge? ==> ops[|ops| - 1].now <= now;
    }
  }

  /** For any schedule of purges, a reader finds exactly the last item put, while it has not expired. */
  lemma {:induction false} LiveIsLastPut<K, V>(ops: seq<Op<K, V>>, k: K, now: Time)
    requires PurgesBy(ops, now)
    ensures Live(Run(ops), k, now) ==
            match LastPut(ops, k)
            case Some(i) => if now <= i.expiry then Some(i.value) else None
            case None => None
  {
    HoldsLastPut(ops, k, now);
  }
}
