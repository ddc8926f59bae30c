/**
 Access tokens: RS256 tokens in JWS compact serialization (section 7.1 of RFC 7515)
 carrying the `exp` and `jti` claims (sections 4.1.4 and 4.1.7 of RFC 7519), and the
 in-process blacklist that logging out adds them to.

 `decode` stands for the signature check and the decoding of the payload.
 */
module AccessTokens {
  import opened Basics

  const ACCESS_TTL: Time := 15 * MINUTE
  const BLACKLIST_TTL: Time := 24 * HOUR
  const ACCESS := "access"

  datatype User = User(id: string, name: string, role: string)

  /** `exp` is in whole seconds. */
  datatype Claims = Claims(sub: string, name: string, role: string, jti: string, kind: string, iat: int, exp: int)

  /** The claims of an access token minted at `now`. */
  function Mint(user: User, jti: string, now: Time): Claims {
    Claims(user.id, user.name, user.role, jti, ACCESS, now / SECOND, (now + ACCESS_TTL) / SECOND)
  }

  /** The checks of verifyRS256, in the code's own comparison `now > exp`. */
  function Verify(decode: string -> Option<Claims>, token: string, now: Time): Option<Claims> {
    match decode(token)
    case None => None
    case Some(c) =>
      if c.sub == "" || c.jti == "" || c.kind == "" || now > c.exp * SECOND then None else Some(c)
  }

  function Validate(decode: string -> Option<Claims>, blacklist: map<string, Time>, token: string, now: Time)
    : Option<User>
  {
    match Verify(decode, token, now)
    case None => None
    case Some(c) => if c.kind != ACCESS || c.jti in blacklist then None else Some(User(c.sub, c.name, c.role))
  }

  /** What is left of the blacklist after a cleanup. */
  function Cleaned(entries: map<string, Time>, now: Time): map<string, Time> {
    map jti | jti in entries && entries[jti] >= now - BLACKLIST_TTL :: entries[jti]
  }

  class TokenBlacklist {
    var entries: map<string, Time>

    constructor ()
      ensures entries == map[]
    {
      entries := map[];
    }

    method Add(jti: string, now: Time)
      modifies this
      ensures entries == old(entries)[jti := now]
    {
      entries := entries[jti := now];
    }

    method IsBlacklisted(jti: string) returns (found: bool)
      ensures found <==> jti in entries
    {
      found := jti in entries;
    }

    method ValidateAccessToken(decode: string -> Option<Claims>, token: string, now: Time) returns (user: Option<User>)
      ensures user == Validate(decode, entries, token, now)
    {
      var claims := Verify(decode, token, now);
      if claims.None? || claims.value.kind != ACCESS {
        return None;
      }
      var listed := IsBlacklisted(claims.value.jti);
      if listed {
        return None;
      }
      return Some(User(claims.value.sub, claims.value.name, claims.value.role));
    }

    /** One tick of the background cleanup, which ranges over the entries in no particular order. */
    method Cleanup(now: Time)
      modifies this
      ensures entries == Cleaned(old(entries), now)
    {
      var cutoff := now - BLACKLIST_TTL;
      var todo := entries.Keys;
      while todo != {}
        invariant todo <= entries.Keys <= old(entries).Keys
        invariant forall jti :: jti in entries ==> entries[jti] == old(entries)[jti]
        invariant forall jti :: jti in old(entries) && jti !in todo ==>
                    (jti in entries <==> old(entries)[jti] >= cutoff)
        decreases |todo|
      {
        var jti :| jti in todo;
        todo := todo - {jti};
        if entries[jti] < cutoff {
          entries := entries - {jti};
        }
      }
    }

    /** What logging out does to the token that authorizes it; `verifiedAt` and `addedAt` are its clock readings. */
    method Logout(decode: string -> Option<Claims>, token: string, verifiedAt: Time, addedAt: Time)
      modifies this
      ensures entries == Step(decode, old(entries), LogOut(token, verifiedAt, addedAt))
    {
      var claims := Verify(decode, token, verifiedAt);
      if claims.Some? {
        Add(claims.value.jti, addedAt);
      }
    }
  }

  // ---------------------------------------------------------------- whole runs

  datatype Event =
    | LogOut(token: string, verifiedAt: Time, addedAt: Time)
    | Purge(at: Time)

  function Step(decode: string -> Option<Claims>, entries: map<string, Time>, e: Event): map<string, Time> {
    match e
    case LogOut(token, verifiedAt, addedAt) =>
      (match Verify(decode, token, verifiedAt)
       case None => entries
       case Some(c) => entries[c.jti := addedAt])
    case Purge(at) => Cleaned(entries, at)
  }

  function Run(decode: string -> Option<Claims>, events: seq<Event>): map<string, Time> {
    if events == [] then map[]
    else Step(decode, Run(decode, events[..|events| - 1]), events[|events| - 1])
  }

  /** The clock never goes back along the run, which ends by `now`. */
  ghost predicate Timely(events: seq<Event>, now: Time) {
    events == [] ||
    match events[|events| - 1]
    case LogOut(_, v, a) => v <= a <= now && Timely(events[..|events| - 1], v)
    case Purge(at) => at <= now && Timely(events[..|events| - 1], at)
  }

  /** The token with this id was logged out, while it was still valid. */
  predicate LoggedOut(decode: string -> Option<Claims>, events: seq<Event>, jti: string) {
    events != [] &&
    var e := events[|events| - 1];
    (|| (&& e.LogOut? && Verify(decode, e.token, e.verifiedAt).Some?
         && Verify(decode, e.token, e.verifiedAt).value.jti == jti)
     || LoggedOut(decode, events[..|events| - 1], jti))
  }

  /** The token with this id is not logged out before it exists. */
  ghost predicate LogsOutAfter(decode: string -> Option<Claims>, events: seq<Event>, jti: string, minted: Time) {
    forall k :: 0 <= k < |events| && events[k].LogOut? ==>
      (decode(events[k].token).Some? && decode(events[k].token).value.jti == jti ==> minted <= events[k].verifiedAt)
  }

  /** When the token with this id was last logged out. */
  function LastLogout(decode: string -> Option<Claims>, events: seq<Event>, jti: string): Option<Time> {
    if events == [] then None
    else
      var e := events[|events| - 1];
      if && e.LogOut? && Verify(decode, e.token, e.verifiedAt).Some?
         && Verify(decode, e.token, e.verifiedAt).value.jti == jti
      then Some(e.addedAt)
      else LastLogout(decode, events[..|events| - 1], jti)
  }

  /** The time in the list is that of the last logout, and a purge forgets only one more than a day ago. */
  lemma {:induction false} ListHoldsLastLogout(decode: string -> Option<Claims>, events: seq<Event>, jti: string,
                                               now: Time)
    requires Timely(events, now)
    ensures jti in Run(decode, events) ==> LastLogout(decode, events, jti) == Some(Run(decode, events)[jti])
    ensures jti !in Run(decode, events) && LastLogout(decode, events, jti).Some? ==>
              now - LastLogout(decode, events, jti).value > 24 * HOUR
  {
    if events != [] {
      var e := events[|events| - 1];
      ListHoldsLastLogout(decode, events[..|events| - 1], jti, if e.LogOut? then e.verifiedAt else e.at);
    }
  }

  /** After a purge the list holds exactly the ids logged out in the last 24 hours. */
  lemma {:induction false} PurgeKeepsRecent(decode: string -> Option<Claims>, events: seq<Event>, jti: string, now: Time)
    requires Timely(events, now)
    ensures jti in Run(decode, events + [Purge(now)]) <==>
            match LastLogout(decode, events, jti)
            case None => false
            case Some(at) => now - at <= 24 * HOUR
  {
    assert (events + [Purge(now)])[..|events|] == events;
    ListHoldsLastLogout(decode, events, jti, now);
  }

  lemma {:induction false} LoggedOutAfter(decode: string -> Option<Claims>, events: seq<Event>, jti: string,
                                          from: Time, now: Time)
    requires Timely(events, now) && LogsOutAfter(decode, events, jti, from)
    ensures LoggedOut(decode, events, jti) <==> LastLogout(decode, events, jti).Some?
    ensures LoggedOut(decode, events, jti) ==> from <= LastLogout(decode, events, jti).value
  {
    if events != [] {
      var init, e := events[..|events| - 1], events[|events| - 1];
      assert LogsOutAfter(decode, init, jti, from);
      LoggedOutAfter(decode, init, jti, from, if e.LogOut? then e.verifiedAt else e.at);
      assert e.LogOut? ==> events[|events| - 1].LogOut?;
    }
  }

  /**
   For any schedule of purges, a token that is good for at most a day from its first
   possible logout on is accepted exactly if it is a complete, unexpired access token
   whose id was never logged out; and then as the user it names.
   */
  lemma AcceptedIff(decode: string -> Option<Claims>, events: seq<Event>, token: string, now: Time, from: Time)
    requires Timely(events, now)
    requires decode(token).Some? ==>
               var c := decode(token).value;
               LogsOutAfter(decode, events, c.jti, from) && c.exp * SECOND <= from + 24 * HOUR
    ensures Validate(decode, Run(decode, events), token, now) ==
            match decode(token)
            case None => None
            case Some(c) =>
              if && c.sub != "" && c.jti != "" && c.kind == "access" && now <= c.exp * SECOND
                 && !LoggedOut(decode, events, c.jti)
              then Some(User(c.sub, c.name, c.role)) else None
  {
    if decode(token).Some? {
      ListHoldsLastLogout(decode, events, decode(token).value.jti, now);
      LoggedOutAfter(decode, events, decode(token).value.jti, from, now);
    }
  }

  /**
   A minted access token is accepted exactly while its 15 minutes, in whole seconds, are
   not over and it has not been logged out: once logged out it never is again.
   */
  lemma AcceptedIffNotLoggedOut(decode: string -> Option<Claims>, events: seq<Event>, token: string, now: Time,
                                user: User, jti: string, minted: Time)
    requires Timely(events, now) && LogsOutAfter(decode, events, jti, minted)
    requires decode(token) == Some(Mint(user, jti, minted)) && user.id != "" && jti != ""
    ensures Validate(decode, Run(decode, events), token, now) ==
            if now <= (minted + 15 * MINUTE) / SECOND * SECOND && !LoggedOut(decode, events, jti) then Some(user)
            else None
  {
    AcceptedIff(decode, events, token, now, minted);
  }
}
