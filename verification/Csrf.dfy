/** Single-use CSRF tokens, stored by digest and valid for a day. */
module Csrf {
  import opened Basics
  import Store = ExpiringStore

  const MAX_AGE: Time := 24 * HOUR

  datatype Event =
    | Issue(token: string, now: Time)
    | Submit(token: string, now: Time)
    | Purge(now: Time)

  /** What an event does to the store, whatever the store holds. */
  function OpOf(hash: string -> string, e: Event): Store.Op<string, ()> {
    match e
    case Issue(token, now) => Store.Put(hash(token), Store.Item((), now + MAX_AGE))
    case Submit(token, _) => Store.Drop(hash(token))
    case Purge(now) => Store.Purge(now)
  }

  class CsrfStore {
    const hash: string -> string
    var tokens: map<string, Store.Item<()>>

    constructor (hash: string -> string)
      ensures this.hash == hash && tokens == map[]
    {
      this.hash, tokens := hash, map[];
    }

    method SetToken(token: string, now: Time)
      modifies this`tokens
      ensures tokens == Store.Step(old(tokens), OpOf(hash, Issue(token, now)))
    {
      tokens := tokens[hash(token) := Store.Item((), now + MAX_AGE)];
    }

    method ValidateToken(token: string, now: Time) returns (valid: bool)
      modifies this`tokens
      ensures valid <==> Store.Live(old(tokens), hash(token), now).Some?
      ensures tokens == Store.Step(old(tokens), OpOf(hash, Submit(token, now)))
    {
      var h := hash(token);
      if h !in tokens {
        return false;
      }
      if Store.Expired(tokens[h], now) {
        tokens := tokens - {h};
        return false;
      }
      tokens := tokens - {h};
      return true;
    }

    method PurgeExpired(now: Time)
      modifies this`tokens
      ensures tokens == Store.Step(old(tokens), OpOf(hash, Purge(now)))
    {
      tokens := Store.PurgeExpired(tokens, now);
    }
  }

  function Ops(hash: string -> string, events: seq<Event>): seq<Store.Op<string, ()>> {
    seq(|events|, k requires 0 <= k < |events| => OpOf(hash, events[k]))
  }

  /** Whether the store left by `events` accepts a token submitted at `now`. */
  function Accepts(hash: string -> string, events: seq<Event>, token: string, now: Time): bool {
    Store.Live(Store.Run(Ops(hash, events)), hash(token), now).Some?
  }

  /** The last thing that happened to the token is that it was issued, no more than a day before `now`. */
  predicate Outstanding(events: seq<Event>, token: string, now: Time) {
    events != [] &&
    var e := events[|events| - 1];
    if e.Issue? && e.token == token then now <= e.now + 24 * HOUR
    else if e.Submit? && e.token == token then false
    else Outstanding(events[..|events| - 1], token, now)
  }

  ghost predicate UpTo(events: seq<Event>, now: Time) {
    forall k :: 0 <= k < |events| ==> events[k].now <= now
  }

  lemma {:induction false} LastPutIsOutstanding(hash: string -> string, events: seq<Event>, token: string, now: Time)
    requires forall a, b :: hash(a) == hash(b) ==> a == b
    ensures Outstanding(events, token, now) <==>
            var i := Store.LastPut(Ops(hash, events), hash(token)); i.Some? && now <= i.value.expiry
  {
    if events != [] {
      var init, e := events[..|events| - 1], events[|events| - 1];
      assert Ops(hash, events)[..|events| - 1] == Ops(hash, init);
      LastPutIsOutstanding(hash, init, token, now);
    }
  }

  /** For any schedule of purges, a token is accepted exactly when it is outstanding. */
  lemma AcceptsIffOutstanding(hash: string -> string, events: seq<Event>, token: string, now: Time)
    requires forall a, b :: hash(a) == hash(b) ==> a == b
    requires UpTo(events, now)
    ensures Accepts(hash, events, token, now) <==> Outstanding(events, token, now)
  {
    Store.LiveIsLastPut(Ops(hash, events), hash(token), now);
    LastPutIsOutstanding(hash, events, token, now);
  }

  function WithoutPurges(events: seq<Event>): seq<Event> {
    if events == [] then []
    else
      var rest := WithoutPurges(events[..|events| - 1]);
      if events[|events| - 1].Purge? then rest else rest + [events[|events| - 1]]
  }

  lemma {:induction false} OutstandingIgnoresPurges(events: seq<Event>, token: string, now: Time)
    ensures Outstanding(WithoutPurges(events), token, now) == Outstanding(events, token, now)
    ensures UpTo(events, now) ==> UpTo(WithoutPurges(events), now)
  {
    if events != [] {
      var init := events[..|events| - 1];
      OutstandingIgnoresPurges(init, token, now);
      var rest := WithoutPurges(init);
      assert (rest + [events[|events| - 1]])[..|rest|] == rest;
    }
  }

  /** No validation is changed by purges, however they are scheduled. */
  lemma PurgesAreUnobservable(hash: string -> string, events: seq<Event>, token: string, now: Time)
    requires forall a, b :: hash(a) == hash(b) ==> a == b
    requires UpTo(events, now)
    ensures Accepts(hash, events, token, now) == Accepts(hash, WithoutPurges(events), token, now)
  {
    OutstandingIgnoresPurges(events, token, now);
    AcceptsIffOutstanding(hash, events, token, now);
    AcceptsIffOutstanding(hash, WithoutPurges(events), token, now);
  }

  lemma {:induction false} SubmittedIsNotOutstanding(events: seq<Event>, token: string, j: nat, now: Time)
    requires j < |events| && events[j].Submit? && events[j].token == token
    requires forall k :: j < k < |events| ==> !(events[k].Issue? && events[k].token == token)
    ensures !Outstanding(events, token, now)
  {
    if j < |events| - 1 {
      SubmittedIsNotOutstanding(events[..|events| - 1], token, j, now);
    }
  }

  /** Once submitted, a token is not accepted again unless it is issued again. */
  lemma SingleUse(hash: string -> string, events: seq<Event>, token: string, j: nat, now: Time)
    requires forall a, b :: hash(a) == hash(b) ==> a == b
    requires UpTo(events, now)
    requires j < |events| && events[j].Submit? && events[j].token == token
    requires forall k :: j < k < |events| ==> !(events[k].Issue? && events[k].token == token)
    ensures !Accepts(hash, events, token, now)
  {
    SubmittedIsNotOutstanding(events, token, j, now);
    AcceptsIffOutstanding(hash, events, token, now);
  }
}
