/**
 The refresh-token table and the handlers that work on it: login, refresh with
 rotation, logout, password change and the revocation of one session. Handlers do
 not overlap. `hash` is the digest under which token ids are stored, and each
 database statement or signature that can fail has a flag saying whether it works.
 */
module Sessions {
  import opened Basics

  const REFRESH_TTL: Time := 7 * DAY

  datatype Row = Row(user: string, expiresAt: Time, revoked: bool)

  /** The table, with its unique column token_hash as key, and the active users. */
  datatype Store = Store(rows: map<string, Row>, active: set<string>)

  // ---------------------------------------------------------------- the token's format

  /** What a client is given: the token id, a dot, and the user's id. */
  function Present(id: string, user: string): string {
    id + "." + user
  }

  /** The part before the first dot; `None` if there is no dot. */
  function TokenId(presented: string): Option<string> {
    if presented == "" then None
    else if presented[0] == '.' then Some("")
    else
      match TokenId(presented[1..])
      case None => None
      case Some(rest) => Some([presented[0]] + rest)
  }

  /** The id is what stands before the first dot: nothing without a dot has one. */
  lemma {:induction false} TokenIdIff(presented: string, id: string)
    ensures TokenId(presented) == Some(id) <==> '.' !in id && id + "." <= presented
  {
    if presented != "" && presented[0] != '.' && id != "" {
      TokenIdIff(presented[1..], id[1..]);
      assert id == [id[0]] + id[1..] && presented == [presented[0]] + presented[1..];
      assert (id + ".")[1..] == id[1..] + ".";
      if id + "." <= presented {
        assert id[0] == presented[0] && id[1..] + "." <= presented[1..];
      }
    }
  }

  /** A token id, being hexadecimal, is recovered from the token whatever the user's id. */
  lemma {:induction false} TokenIdRoundTrip(id: string, user: string)
    requires '.' !in id
    ensures TokenId(Present(id, user)) == Some(id)
  {
    TokenIdIff(Present(id, user), id);
  }

  // ---------------------------------------------------------------- the handlers

  datatype Event =
    | Login(user: string, query: bool, password: bool, newId: string, now: Time, sign: bool, store: bool)
    | Refresh(presented: string, newId: string, now: Time, query: bool, sign: bool, store: bool, revoke: bool)
    /** The user is empty if the request carries no user id. */
    | Logout(user: string, revoke: bool)
    /** `current`: the current password is right; the other flags are steps that can fail. */
    | ChangePassword(user: string, query: bool, current: bool, digest: bool, update: bool, revoke: bool)
    | RevokeSession(tokenHash: string, revoke: bool)
    | SetActive(user: string, on: bool)

  /** `Issued` is a 200 with a new refresh token, `Denied` a 4xx, `Failed` a 500. */
  datatype Response = Issued(refreshToken: string) | Denied | Failed | Done

  function Lookup(hash: string -> string, s: Store, presented: string, now: Time): Option<string> {
    match TokenId(presented)
    case None => None
    case Some(id) =>
      if hash(id) in s.rows
         && !s.rows[hash(id)].revoked
         && s.rows[hash(id)].expiresAt > now
         && s.rows[hash(id)].user in s.active
      then Some(s.rows[hash(id)].user) else None
  }

  /** An insert into the table fails if the hash is already there. */
  predicate CanStore(hash: string -> string, s: Store, newId: string, works: bool) {
    works && hash(newId) !in s.rows
  }

  function Insert(hash: string -> string, s: Store, user: string, newId: string, now: Time): Store {
    s.(rows := s.rows[hash(newId) := Row(user, now + REFRESH_TTL, false)])
  }

  function RevokeHash(s: Store, h: string): Store {
    if h in s.rows then s.(rows := s.rows[h := s.rows[h].(revoked := true)]) else s
  }

  function RevokeAll(s: Store, user: string): Store {
    s.(rows := map h | h in s.rows :: if s.rows[h].user == user then s.rows[h].(revoked := true) else s.rows[h])
  }

  function Step(hash: string -> string, s: Store, e: Event): (Store, Response) {
    match e
    case Login(user, query, password, newId, now, sign, store) =>
      if !query then (s, Failed)
      else if user !in s.active || !password then (s, Denied)
      else if !sign || !CanStore(hash, s, newId, store) then (s, Failed)
      else (Insert(hash, s, user, newId, now), Issued(Present(newId, user)))
    case Refresh(presented, newId, now, query, sign, store, revoke) =>
      (match if query then Lookup(hash, s, presented, now) else None
       case None => (s, Denied)
       case Some(user) =>
         if !sign || !CanStore(hash, s, newId, store) then (s, Failed)
         else
           var t := Insert(hash, s, user, newId, now);
           (if revoke then RevokeHash(t, hash(TokenId(presented).value)) else t, Issued(Present(newId, user))))
    case Logout(user, revoke) => (if user != "" && revoke then RevokeAll(s, user) else s, Done)
    case ChangePassword(user, query, current, digest, update, revoke) =>
      if !query then (s, Failed)
      else if !current then (s, Denied)
      else if !digest || !update then (s, Failed)
      else (if revoke then RevokeAll(s, user) else s, Done)
    case RevokeSession(h, revoke) =>
      if !revoke then (s, Failed) else if h !in s.rows then (s, Denied) else (RevokeHash(s, h), Done)
    case SetActive(user, on) => (s.(active := if on then s.active + {user} else s.active - {user}), Done)
  }

  /** The database that the handlers work on. */
  class Database {
    const hash: string -> string
    var rows: map<string, Row>
    var active: set<string>

    function Model(): Store reads this {
      Store(rows, active)
    }

    constructor (hash: string -> string, users: set<string>)
      ensures this.hash == hash && Model() == Store(map[], users)
    {
      this.hash, rows, active := hash, map[], users;
    }

    method StoreRefreshToken(user: string, newId: string, now: Time, works: bool) returns (ok: bool)
      modifies this`rows
      ensures ok == CanStore(hash, old(Model()), newId, works)
      ensures Model() == if ok then Insert(hash, old(Model()), user, newId, now) else old(Model())
    {
      ok := works && hash(newId) !in rows;
      if ok {
        rows := rows[hash(newId) := Row(user, now + REFRESH_TTL, false)];
      }
    }

    method ValidateRefreshToken(presented: string, now: Time, works: bool) returns (user: Option<string>)
      ensures user == if works then Lookup(hash, Model(), presented, now) else None
    {
      var id := TokenId(presented);
      if id.None? || !works || hash(id.value) !in rows {
        return None;
      }
      var row := rows[hash(id.value)];
      user := if !row.revoked && row.expiresAt > now && row.user in active then Some(row.user) else None;
    }

    method RevokeAllRefreshTokens(user: string, works: bool)
      modifies this`rows
      ensures Model() == if works then RevokeAll(old(Model()), user) else old(Model())
    {
      if works {
        rows := map h | h in rows :: if rows[h].user == user then rows[h].(revoked := true) else rows[h];
      }
    }

    method RevokeRefreshTokenByValue(presented: string, works: bool)
      modifies this`rows
      ensures Model() == if works && TokenId(presented).Some?
                         then RevokeHash(old(Model()), hash(TokenId(presented).value)) else old(Model())
    {
      var id := TokenId(presented);
      if works && id.Some? && hash(id.value) in rows {
        rows := rows[hash(id.value) := rows[hash(id.value)].(revoked := true)];
      }
    }

    method LoginHandler(e: Event) returns (r: Response)
      requires e.Login?
      modifies this`rows
      ensures (Model(), r) == Step(hash, old(Model()), e)
    {
      if !e.query {
        return Failed;
      }
      if e.user !in active || !e.password {
        return Denied;
      }
      if !e.sign {
        return Failed;
      }
      var stored := StoreRefreshToken(e.user, e.newId, e.now, e.store);
      if !stored {
        return Failed;
      }
      return Issued(Present(e.newId, e.user));
    }

    method RefreshTokenHandler(e: Event) returns (r: Response)
      requires e.Refresh?
      modifies this`rows
      ensures (Model(), r) == Step(hash, old(Model()), e)
    {
      var user := ValidateRefreshToken(e.presented, e.now, e.query);
      if user.None? {
        return Denied;
      }
      if !e.sign {
        return Failed;
      }
      var stored := StoreRefreshToken(user.value, e.newId, e.now, e.store);
      if !stored {
        return Failed;
      }
      RevokeRefreshTokenByValue(e.presented, e.revoke);
      return Issued(Present(e.newId, user.value));
    }

    method LogoutHandler(user: string, revoke: bool) returns (r: Response)
      modifies this`rows
      ensures (Model(), r) == Step(hash, old(Model()), Logout(user, revoke))
    {
      if user != "" {
        RevokeAllRefreshTokens(user, revoke);
      }
      return Done;
    }

    method ChangePasswordHandler(e: Event) returns (r: Response)
      requires e.ChangePassword?
      modifies this`rows
      ensures (Model(), r) == Step(hash, old(Model()), e)
    {
      if !e.query {
        return Failed;
      }
      if !e.current {
        return Denied;
      }
      if !e.digest || !e.update {
        return Failed;
      }
      RevokeAllRefreshTokens(e.user, e.revoke);
      return Done;
    }
  }

  // ---------------------------------------------------------------- one refresh

  /** The user's unrevoked tokens. */
  function Unrevoked(s: Store, user: string): set<string> {
    set h | h in s.rows && s.rows[h].user == user && !s.rows[h].revoked
  }

  /** A 200 that revokes the token it exchanged leaves every user with as many unrevoked tokens as before. */
  lemma RefreshConserves(hash: string -> string, s: Store, e: Event, user: string)
    requires e.Refresh? && e.revoke && Step(hash, s, e).1.Issued?
    ensures |Unrevoked(Step(hash, s, e).0, user)| == |Unrevoked(s, user)|
  {
    var t := Step(hash, s, e).0;
    var h, h' := hash(TokenId(e.presented).value), hash(e.newId);
    if s.rows[h].user == user {
      assert Unrevoked(t, user) == Unrevoked(s, user) - {h} + {h'};
    } else {
      assert Unrevoked(t, user) == Unrevoked(s, user);
    }
  }

  /**
   A login issues a token, which then works for that user, exactly if the user is
   active, the password right and no statement fails; a wrong password or an unknown
   user is denied, and anything but a token leaves the table alone.
   */
  lemma LoginOutcomes(hash: string -> string, s: Store, e: Event)
    requires e.Login? && '.' !in e.newId
    ensures var (t, r) := Step(hash, s, e);
            && (r.Issued? <==> && e.query && e.user in s.active && e.password
                               && e.sign && e.store && hash(e.newId) !in s.rows)
            && (r.Denied? <==> e.query && (e.user !in s.active || !e.password))
            && (r.Issued? ==> Lookup(hash, t, r.refreshToken, e.now) == Some(e.user))
            && (!r.Issued? ==> t == s && (r.Denied? || r.Failed?))
  {
    TokenIdRoundTrip(e.newId, e.user);
  }

  /**
   A refresh issues a token exactly if the presented one works and no statement fails.
   The token presented still works after a 200 exactly if its revocation failed; after
   a 500 it always does, nothing at all having changed. What a 200 issues works.
   */
  lemma RefreshOutcomes(hash: string -> string, s: Store, e: Event)
    requires e.Refresh? && '.' !in e.newId
    ensures var (t, r) := Step(hash, s, e);
            var works := Lookup(hash, s, e.presented, e.now).Some?;
            && (r.Issued? <==> e.query && works && e.sign && e.store && hash(e.newId) !in s.rows)
            && (r.Denied? <==> !e.query || !works)
            && (r.Issued? ==>
                  && (Lookup(hash, t, e.presented, e.now).Some? <==> !e.revoke)
                  && Lookup(hash, t, r.refreshToken, e.now) == Lookup(hash, s, e.presented, e.now))
            && (r.Failed? ==> Lookup(hash, t, e.presented, e.now).Some?)
            && (!r.Issued? ==> t == s && (r.Denied? || r.Failed?))
  {
    if Step(hash, s, e).1.Issued? {
      TokenIdRoundTrip(e.newId, Lookup(hash, s, e.presented, e.now).value);
    }
  }

  /**
   A password change is denied exactly for a wrong current password. It is done exactly
   if nothing before the revocation fails, and then no token of the user works any more
   unless the revocation failed; otherwise every token is worth what it was.
   */
  lemma PasswordChangeOutcomes(hash: string -> string, s: Store, e: Event, presented: string, now: Time)
    requires e.ChangePassword?
    ensures var (t, r) := Step(hash, s, e);
            && (r.Done? <==> e.query && e.current && e.digest && e.update)
            && (r.Denied? <==> e.query && !e.current)
            && (r.Done? || r.Denied? || r.Failed?)
            && Lookup(hash, t, presented, now) ==
               if r.Done? && e.revoke && Lookup(hash, s, presented, now) == Some(e.user) then None
               else Lookup(hash, s, presented, now)
  {
  }

  /** A logout always succeeds; it ends exactly the tokens of the user it names, if the revocation works. */
  lemma LogoutOutcomes(hash: string -> string, s: Store, e: Event, presented: string, now: Time)
    requires e.Logout?
    ensures var (t, r) := Step(hash, s, e);
            && r.Done?
            && Lookup(hash, t, presented, now) ==
               if e.revoke && e.user != "" && Lookup(hash, s, presented, now) == Some(e.user) then None
               else Lookup(hash, s, presented, now)
  {
  }

  /** Revoking a session is denied exactly for an unknown one, and ends exactly that token. */
  lemma RevokeSessionOutcomes(hash: string -> string, s: Store, e: Event, presented: string, now: Time)
    requires e.RevokeSession?
    ensures var (t, r) := Step(hash, s, e);
            && (r.Done? <==> e.revoke && e.tokenHash in s.rows)
            && (r.Denied? <==> e.revoke && e.tokenHash !in s.rows)
            && (r.Done? || r.Denied? || r.Failed?)
            && Lookup(hash, t, presented, now) ==
               if r.Done? && TokenId(presented).Some? && hash(TokenId(presented).value) == e.tokenHash then None
               else Lookup(hash, s, presented, now)
  {
  }

  /** With distinct digests, exchanging one token does not touch another. */
  lemma RefreshLeavesOthers(hash: string -> string, s: Store, e: Event, other: string, now: Time)
    requires forall a, b :: hash(a) == hash(b) ==> a == b
    requires e.Refresh? && TokenId(other) != TokenId(e.presented) && TokenId(other) != Some(e.newId)
    ensures Lookup(hash, Step(hash, s, e).0, other, now) == Lookup(hash, s, other, now)
  {
    if TokenId(other).Some? && TokenId(e.presented).Some? {
      assert hash(TokenId(other).value) != hash(TokenId(e.presented).value);
      assert hash(TokenId(other).value) != hash(e.newId);
    }
  }

  // ---------------------------------------------------------------- whole runs

  function Run(hash: string -> string, s: Store, events: seq<Event>): Store {
    if events == [] then s
    else Step(hash, Run(hash, s, events[..|events| - 1]), events[|events| - 1]).0
  }

  /** What the `k`-th event was answered. */
  function Answer(hash: string -> string, s: Store, events: seq<Event>, k: nat): Response
    requires k < |events|
  {
    Step(hash, Run(hash, s, events[..k]), events[k]).1
  }

  /** Whether the user is active after the events, by the last time it was switched. */
  predicate ActiveAfter(active: set<string>, events: seq<Event>, user: string) {
    if events == [] then user in active
    else
      var e := events[|events| - 1];
      if e.SetActive? && e.user == user then e.on else ActiveAfter(active, events[..|events| - 1], user)
  }

  lemma {:induction false} ActiveIsLastSwitch(hash: string -> string, s: Store, events: seq<Event>, user: string)
    ensures user in Run(hash, s, events).active <==> ActiveAfter(s.active, events, user)
  {
    if events != [] {
      ActiveIsLastSwitch(hash, s, events[..|events| - 1], user);
    }
  }

  predicate Spent(s: Store, h: string) {
    h in s.rows && s.rows[h].revoked
  }

  lemma {:induction false} SpentStaysSpent(hash: string -> string, s: Store, events: seq<Event>, j: nat, h: string)
    requires j <= |events| && Spent(Run(hash, s, events[..j]), h)
    ensures Spent(Run(hash, s, events), h)
    decreases |events|
  {
    if j == |events| {
      assert events[..j] == events;
    } else {
      assert events[..|events| - 1][..j] == events[..j];
      SpentStaysSpent(hash, s, events[..|events| - 1], j, h);
    }
  }

  /** If the first exchange of a token revoked it, there is never a second one. */
  lemma ExchangedAtMostOnce(hash: string -> string, s: Store, events: seq<Event>, j: nat, k: nat)
    requires j < k < |events| && events[j].Refresh? && events[k].Refresh?
    requires TokenId(events[j].presented) == TokenId(events[k].presented)
    requires events[j].revoke && Answer(hash, s, events, j).Issued?
    ensures !Answer(hash, s, events, k).Issued?
  {
    var h := hash(TokenId(events[j].presented).value);
    assert events[..j + 1][..j] == events[..j];
    assert Spent(Run(hash, s, events[..j + 1]), h);
    assert events[..k][..j + 1] == events[..j + 1];
    SpentStaysSpent(hash, s, events[..k], j + 1, h);
  }

  /** The position of the login that the row under `h` descends from, through any number of refreshes. */
  function Root(hash: string -> string, s: Store, events: seq<Event>, h: string): Option<nat> {
    if events == [] then None
    else
      var init, e := events[..|events| - 1], events[|events| - 1];
      var r := Answer(hash, s, events, |events| - 1);
      if r.Issued? && hash(e.newId) == h then
        if e.Login? then Some(|events| - 1) else Root(hash, s, init, hash(TokenId(e.presented).value))
      else Root(hash, s, init, h)
  }

  /** The login that a row descends from, by the right password of an active user. */
  ghost predicate ProperLogin(users: set<string>, events: seq<Event>, root: Option<nat>, user: string) {
    && root.Some? && root.value < |events| && events[root.value].Login?
    && events[root.value].user == user && events[root.value].password
    && ActiveAfter(users, events[..root.value], user)
  }

  /**
   Starting from an empty table, every row, however many refreshes later, descends from
   a login of its own user, active at the time, with the right password.
   */
  lemma {:induction false} DescendsFromLogin(hash: string -> string, users: set<string>, events: seq<Event>, h: string)
    requires h in Run(hash, Store(map[], users), events).rows
    ensures var s := Store(map[], users);
            ProperLogin(users, events, Root(hash, s, events, h), Run(hash, s, events).rows[h].user)
  {
    var s, n := Store(map[], users), |events| - 1;
    var init, e := events[..n], events[n];
    var mid := Run(hash, s, init);
    if Step(hash, mid, e).1.Issued? && hash(e.newId) == h {
      if e.Login? {
        ActiveIsLastSwitch(hash, s, init, e.user);
      } else {
        var from := hash(TokenId(e.presented).value);
        DescendsFromLogin(hash, users, init, from);
        assert init[..Root(hash, s, init, from).value] == events[..Root(hash, s, init, from).value];
      }
    } else {
      DescendsFromLogin(hash, users, init, h);
      assert init[..Root(hash, s, init, h).value] == events[..Root(hash, s, init, h).value];
    }
  }

  /** The event ends every session of the user. */
  predicate EndsSessions(e: Event, user: string) {
    || (e == Logout(user, true) && user != "")
    || e == ChangePassword(user, true, true, true, true, true)
  }

  /** The event revokes the row under `h`, which belongs to `owner`. */
  predicate Revokes(hash: string -> string, s: Store, e: Event, h: string, owner: string) {
    || (e.Refresh? && e.revoke && Step(hash, s, e).1.Issued? && hash(TokenId(e.presented).value) == h)
    || EndsSessions(e, owner)
    || e == RevokeSession(h, true)
  }

  /** Some event of the run is a refresh of the token, a revocation of it, or ends its owner's sessions. */
  predicate RevokedDuring(hash: string -> string, s: Store, events: seq<Event>, h: string, owner: string) {
    events != [] &&
    var init := events[..|events| - 1];
    RevokedDuring(hash, s, init, h, owner) || Revokes(hash, Run(hash, s, init), events[|events| - 1], h, owner)
  }

  /** A row is never lost or overwritten, and it is revoked only by such an event. */
  lemma {:induction false} RowPersists(hash: string -> string, s: Store, events: seq<Event>, h: string)
    requires h in s.rows
    ensures var t, row := Run(hash, s, events), s.rows[h];
            && h in t.rows
            && t.rows[h] == row.(revoked := row.revoked || RevokedDuring(hash, s, events, h, row.user))
  {
    if events != [] {
      RowPersists(hash, s, events[..|events| - 1], h);
    }
  }

  /**
   A token issued by a login or a refresh, whatever happens afterwards, works for its
   user for seven days and no longer, as long as it has not been refreshed or revoked,
   its user's sessions have not been ended, and the user is active.
   */
  lemma IssuedTokenLasts(hash: string -> string, s: Store, e: Event, after: seq<Event>, later: Time)
    requires (e.Login? || e.Refresh?) && '.' !in e.newId && Step(hash, s, e).1.Issued?
    ensures var (t, r) := Step(hash, s, e);
            var user := if e.Login? then e.user else Lookup(hash, s, e.presented, e.now).value;
            Lookup(hash, Run(hash, t, after), r.refreshToken, later) ==
            if && later < e.now + 7 * DAY
               && !RevokedDuring(hash, t, after, hash(e.newId), user)
               && ActiveAfter(t.active, after, user)
            then Some(user) else None
  {
    var user := if e.Login? then e.user else Lookup(hash, s, e.presented, e.now).value;
    ActiveIsLastSwitch(hash, Step(hash, s, e).0, after, user);
    TokenIdRoundTrip(e.newId, user);
    RowPersists(hash, Step(hash, s, e).0, after, hash(e.newId));
  }

  lemma {:induction false} UnrevokedDescends(hash: string -> string, s: Store, events: seq<Event>, p: nat,
                                             user: string, h: string)
    requires p < |events| && EndsSessions(events[p], user)
    requires h in Unrevoked(Run(hash, s, events), user)
    ensures var root := Root(hash, s, events, h);
            && root.Some? && p < root.value < |events| && events[root.value].Login?
            && events[root.value].user == user && events[root.value].password
    decreases |events|
  {
    var n := |events| - 1;
    var init, e := events[..n], events[n];
    var mid := Run(hash, s, init);
    assert p < n;
    if Step(hash, mid, e).1.Issued? && hash(e.newId) == h {
      if e.Refresh? {
        UnrevokedDescends(hash, s, init, p, user, hash(TokenId(e.presented).value));
      }
    } else {
      assert h in Unrevoked(mid, user);
      UnrevokedDescends(hash, s, init, p, user, h);
    }
  }

  /** After a logout or password change, a token of the user works only if it descends from a later login of theirs. */
  lemma WorksOnlyFromLaterLogin(hash: string -> string, s: Store, events: seq<Event>, p: nat, user: string,
                                presented: string, now: Time)
    requires p < |events| && EndsSessions(events[p], user)
    requires Lookup(hash, Run(hash, s, events), presented, now) == Some(user)
    ensures var root := Root(hash, s, events, hash(TokenId(presented).value));
            && root.Some? && p < root.value < |events| && events[root.value].Login?
            && events[root.value].user == user && events[root.value].password
  {
    UnrevokedDescends(hash, s, events, p, user, hash(TokenId(presented).value));
  }
}
