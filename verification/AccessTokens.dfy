/**
 * Access tokens: who may still use one. A token is judged by its expiry, a jti
 * blacklist and a user blacklist with time limits, and the user's version.
 * Only tokens this service signed parse, so a token is named by its jti.
 */
module AccessTokens {
  import opened Common
  import opened Redis
  import Sessions

  type Jti = nat

  datatype Claims = Claims(jti: Jti, user: string, client: string, exp: Time, version: int, mustChange: bool)

  const DEFAULT_USER_TTL: nat := 2 * HOUR

  function Version(db: Db, user: string, now: Time): int
  {
    match Read(db, UserVersion(user), now)
    case None => 0
    case Some(n) => n
  }

  // The part of the decision that introspection and the request filter share.
  predicate Usable(db: Db, c: Claims, now: Time)
  {
    && now < c.exp
    && !Exists(db, AccessBlacklist(c.jti), now)
    && !Exists(db, UserBlacklist(c.user), now)
    && !(Version(db, c.user, now) > 0 && c.version < Version(db, c.user, now))
  }

  // Logout takes the time limit from the request filter: the rest of the token's life, else an hour.
  function LogoutTtl(c: Claims, now: Time): nat
  {
    if c.exp > now then c.exp - now else HOUR
  }

  function LoggedOut(db: Db, c: Claims, now: Time): Db
  {
    Put(db, AccessBlacklist(c.jti), 1, now, LogoutTtl(c, now))
  }

  function RevokedToken(db: Db, c: Claims, now: Time): Db
  {
    if c.exp > now then Put(db, AccessBlacklist(c.jti), 1, now, c.exp - now) else db
  }

  // What a text handed to the revocation endpoint is. Only a refresh token hashes to a row.
  datatype Presented = Blank | Access(claims: Claims) | Refresh(token: Sessions.Jti) | Unknown

  const REFRESH_HINT := "refresh_token"

  // The access half of the endpoint is skipped on the client's word.
  function RevokedAccess(db: Db, token: Presented, hint: string, now: Time): Db
  {
    if token.Access? && hint != REFRESH_HINT then RevokedToken(db, token.claims, now) else db
  }

  function UserTtl(accessTtlSec: int): nat
  {
    if accessTtlSec > 0 then accessTtlSec * SECOND else DEFAULT_USER_TTL
  }

  function ForcedOut(db: Db, user: string, accessTtlSec: int, now: Time): Db
  {
    Put(Incremented(db, UserVersion(user), now), UserBlacklist(user), 1, now, UserTtl(accessTtlSec))
  }

  datatype Introspection = Inactive | Active(claims: Claims)

  class Gate {
    const redis: Client
    const sessions: Sessions.TokenService
    const accessTtlSec: int
    const users: set<string>

    constructor (redis: Client, sessions: Sessions.TokenService, accessTtlSec: int, users: set<string>)
      ensures this.redis == redis && this.sessions == sessions
      ensures this.accessTtlSec == accessTtlSec && this.users == users
    {
      this.redis := redis;
      this.sessions := sessions;
      this.accessTtlSec := accessTtlSec;
      this.users := users;
    }

    // Signature and expiry; a token that was never signed here has no claims.
    method ParseAccess(token: Option<Claims>, now: Time) returns (r: Result<Claims>)
      ensures r == if token.Some? && now < token.value.exp then Ok(token.value) else Err(InvalidCred)
    {
      if token.None? || now >= token.value.exp {
        return Err(InvalidCred);
      }
      r := Ok(token.value);
    }

    method GetUserVersion(user: string, now: Time) returns (n: int)
      ensures n == Version(redis.db, user, now)
    {
      var v := redis.Get(UserVersion(user), now);
      n := if v.None? then 0 else v.value;
    }

    // The access half of issuing tokens; `jti` is fresh.
    method IssueAccess(jti: Jti, user: string, client: string, ttl: nat, mustChange: bool, now: Time)
      returns (c: Claims)
      ensures c.jti == jti && c.user == user && c.client == client && c.exp == now + ttl && c.mustChange == mustChange
      ensures c.version == if Exists(redis.db, UserVersion(user), now) then redis.db[UserVersion(user)].value else 0
      ensures forall s: State, t: nat :: s.db == redis.db ==>
                t in Step(s, ReadVersion(now, t, user)).issuing &&
                Step(s, ReadVersion(now, t, user)).issuing[t] == Reading(user, c.version)
      ensures forall s: State, t: nat ::
                t in s.issuing && s.issuing[t] == Reading(user, c.version) && jti !in s.issued ==>
                  Step(s, Sign(now, t, jti, client, now + ttl, mustChange)).issued == s.issued[jti := c]
    {
      var version := GetUserVersion(user, now);
      c := Claims(jti, user, client, now + ttl, version, mustChange);
    }

    method Introspect(token: Option<Claims>, now: Time) returns (r: Introspection)
      ensures r.Active? <==> token.Some? && Usable(redis.db, token.value, now)
      ensures r.Active? ==> token == Some(r.claims)
    {
      var parsed := ParseAccess(token, now);
      if parsed.Err? {
        return Inactive;
      }
      var c := parsed.value;
      var bl := redis.Get(AccessBlacklist(c.jti), now);
      if bl.Some? {
        return Inactive;
      }
      var ubl := redis.Get(UserBlacklist(c.user), now);
      if ubl.Some? {
        return Inactive;
      }
      var version := GetUserVersion(c.user, now);
      if version > 0 && c.version < version {
        return Inactive;
      }
      r := Active(c);
    }

    // The request filter; `header` is the X-Client-Id header, `open` whether the path
    // stays reachable under a forced password change.
    method UserAuth(token: Option<Claims>, header: string, open: bool, now: Time) returns (r: Result<Claims>)
      ensures r.Ok? <==> (token.Some? && Usable(redis.db, token.value, now) &&
                          (header == "" || header == token.value.client) && (token.value.mustChange ==> open))
      ensures r.Ok? ==> token == Some(r.value)
    {
      var parsed := ParseAccess(token, now);
      if parsed.Err? {
        return Err(InvalidCred);
      }
      var c := parsed.value;
      var bl := redis.Get(AccessBlacklist(c.jti), now);
      if bl.Some? {
        return Err(InvalidCred);
      }
      var ubl := redis.Get(UserBlacklist(c.user), now);
      if ubl.Some? {
        return Err(InvalidCred);
      }
      var version := GetUserVersion(c.user, now);
      if version > 0 && c.version < version {
        return Err(InvalidCred);
      }
      if header != "" && c.client != header {
        return Err(Forbidden);
      }
      if c.mustChange && !open {
        return Err(Forbidden);
      }
      r := Ok(c);
    }

    // The caller's own token is `c`; `client` is the app it logs out of.
    method Logout(c: Claims, client: string, refresh: Option<Sessions.Jti>, allDevices: bool, now: Time)
      modifies redis, sessions`rows
      ensures redis.db ==
              old(redis.db)[AccessBlacklist(c.jti) := Entry(1, Some(if c.exp > now then c.exp else now + HOUR))]
      ensures sessions.rows.Keys == old(sessions.rows).Keys
      ensures forall j :: j in sessions.rows ==>
        sessions.rows[j] ==
          if allDevices && old(sessions.rows)[j].user == c.user && old(sessions.rows)[j].revokedAt.None? &&
             (client == "" || old(sessions.rows)[j].client == client)
          then old(sessions.rows)[j].(revokedAt := Some(now))
          else if !allDevices && refresh == Some(j) then old(sessions.rows)[j].(revokedAt := Some(now))
          else old(sessions.rows)[j]
      ensures forall s: State ::
                Signed(s, Access(c)) && s.db == old(redis.db) && s.refresh.rows == old(sessions.rows) ==>
                  Stores(Step(s, Event.Logout(now, c.jti, refresh, client, allDevices)), redis.db, sessions.rows)
    {
      sessions.Logout(c.user, client, refresh, allDevices, now);
      var ttl := if c.exp > now then c.exp - now else HOUR;
      redis.Set(AccessBlacklist(c.jti), ttl, now);
    }

    method RevokeToken(token: Presented, hint: string, now: Time)
      modifies redis, sessions`rows
      // The access half: a live access token, unless the hint says otherwise.
      ensures redis.db ==
              if token.Access? && hint != "refresh_token" && now < token.claims.exp
              then old(redis.db)[AccessBlacklist(token.claims.jti) := Entry(1, Some(token.claims.exp))]
              else old(redis.db)
      // The refresh half, whatever the hint.
      ensures sessions.rows.Keys == old(sessions.rows).Keys
      ensures forall j :: j in sessions.rows ==>
        sessions.rows[j] == if token.Refresh? && token.token == j then old(sessions.rows)[j].(revokedAt := Some(now))
                            else old(sessions.rows)[j]
      ensures forall s: State :: s.db == old(redis.db) && s.refresh.rows == old(sessions.rows) ==>
                (token.Access? ==> Signed(s, token)) ==>
                  Stores(Step(s, Revoke(now, token, hint)), redis.db, sessions.rows)
    {
      if token.Blank? {
        return;
      }
      var tryRefresh := hint == "refresh_token";
      if !tryRefresh {
        var parsed := ParseAccess(if token.Access? then Some(token.claims) else None, now);
        if parsed.Ok? {
          var ttl := parsed.value.exp - now;
          if ttl > 0 {
            redis.Set(AccessBlacklist(parsed.value.jti), ttl, now);
          }
          return;
        }
      }
      if token.Refresh? {
        var found := sessions.FindByHash(token.token);
        if found.Some? {
          sessions.Revoke(token.token, now);
        }
      }
    }

    // An empty client means every app.
    method ForceLogout(user: string, client: string, now: Time) returns (r: Result<()>)
      modifies redis, sessions`rows
      ensures r == if user in users then Ok(()) else Err(NotFound)
      ensures r.Err? ==> redis.db == old(redis.db) && sessions.rows == old(sessions.rows)
      ensures r.Ok? ==>
        var until := now + if accessTtlSec > 0 then accessTtlSec * SECOND else 2 * HOUR;
        && (forall key :: key != UserVersion(user) && key != UserBlacklist(user) ==>
              Lookup(redis.db, key) == Lookup(old(redis.db), key))
        && Lookup(redis.db, UserBlacklist(user)) == Some(Entry(1, Some(until)))
        && Version(redis.db, user, now) == Version(old(redis.db), user, now) + 1
      ensures r.Ok? ==> sessions.rows.Keys == old(sessions.rows).Keys
      ensures r.Ok? ==> forall j :: j in sessions.rows ==>
        sessions.rows[j] ==
          if old(sessions.rows)[j].user == user && (client == "" || old(sessions.rows)[j].client == client) &&
             old(sessions.rows)[j].revokedAt.None?
          then old(sessions.rows)[j].(revokedAt := Some(now)) else old(sessions.rows)[j]
      ensures r.Ok? ==> forall s: State :: s.db == old(redis.db) && s.refresh.rows == old(sessions.rows) ==>
                Stores(Step(s, Event.ForceLogout(now, user, client, accessTtlSec)), redis.db, sessions.rows)
    {
      if user !in users {
        return Err(NotFound);
      }
      sessions.RevokeAllByUser(user, client, now);
      var _ := redis.Incr(UserVersion(user), now);
      var ttl := DEFAULT_USER_TTL;
      if accessTtlSec > 0 {
        ttl := accessTtlSec * SECOND;
      }
      redis.Set(UserBlacklist(user), ttl, now);
      r := Ok(());
    }
  }

  // The two stores of a state of the runs.
  ghost predicate Stores(s: State, db: Db, rows: Sessions.Table)
  {
    s.db == db && s.refresh.rows == rows
  }

  // ---------------------------------------------------------------- runs

  // Issuing reads the version first and signs later; `issuing` holds what was read.
  datatype Reading = Reading(user: string, version: int)

  // `refresh` is the interleaved system of refresh tokens; `revoked` is history: the access
  // tokens logged out, or blacklisted by the revocation endpoint while they were alive.
  datatype State = State(db: Db, issued: map<Jti, Claims>, issuing: map<nat, Reading>, revoked: set<Jti>,
                         refresh: Sessions.State)

  const INIT := State(map[], map[], map[], {}, Sessions.INIT)

  datatype Event =
    | ReadVersion(at: Time, t: nat, user: string)
    | Sign(at: Time, t: nat, jti: Jti, client: string, exp: Time, mustChange: bool)
    | Logout(at: Time, jti: Jti, refreshToken: Option<Sessions.Jti>, client: string, allDevices: bool)
    | Revoke(at: Time, token: Presented, hint: string)
    | BumpVersion(at: Time, user: string)
    | ForceLogout(at: Time, user: string, client: string, accessTtlSec: int)
    | Refreshing(e: Sessions.Event)

  // An access token that this service signed; no other parses.
  predicate Signed(s: State, token: Presented)
  {
    token.Access? && token.claims.jti in s.issued && s.issued[token.claims.jti] == token.claims
  }

  // The event's single operation on the refresh tokens, if it has one.
  function RefreshPart(s: State, e: Event): Option<Sessions.Event>
  {
    match e
    case Logout(at, jti, refreshToken, client, all) =>
      if jti !in s.issued then None
      else if all then Some(Sessions.RevokeMany(Sessions.OfUser(s.issued[jti].user, client), at))
      else if refreshToken.Some? then Some(Sessions.RevokeOne(refreshToken.value, at))
      else None
    case Revoke(at, token, _) => if token.Refresh? then Some(Sessions.RevokeOne(token.token, at)) else None
    case ForceLogout(at, user, client, _) => Some(Sessions.RevokeMany(Sessions.OfUser(user, client), at))
    case Refreshing(r) => Some(r)
    case _ => None
  }

  function RefreshMoved(r: Sessions.State, e: Option<Sessions.Event>): Sessions.State
  {
    if e.Some? then Sessions.Step(r, e.value) else r
  }

  function AccessMoved(s: State, e: Event): State
  {
    match e
    case ReadVersion(at, t, user) => s.(issuing := s.issuing[t := Reading(user, Version(s.db, user, at))])
    case Sign(_, t, jti, client, exp, must) =>
      if t !in s.issuing || jti in s.issued then s
      else
        var r := s.issuing[t];
        s.(issued := s.issued[jti := Claims(jti, r.user, client, exp, r.version, must)], issuing := s.issuing - {t})
    case Logout(at, jti, _, _, _) =>
      if jti !in s.issued then s
      else s.(db := LoggedOut(s.db, s.issued[jti], at), revoked := s.revoked + {jti})
    case Revoke(at, token, hint) =>
      if !Signed(s, token) || hint == REFRESH_HINT || token.claims.exp <= at then s
      else s.(db := RevokedAccess(s.db, token, hint, at), revoked := s.revoked + {token.claims.jti})
    case BumpVersion(at, user) => s.(db := Incremented(s.db, UserVersion(user), at))
    case ForceLogout(at, user, _, ttl) => s.(db := ForcedOut(s.db, user, ttl, at))
    case Refreshing(_) => s
  }

  function Step(s: State, e: Event): State
  {
    AccessMoved(s, e).(refresh := RefreshMoved(s.refresh, RefreshPart(s, e)))
  }

  function Exec(s: State, es: seq<Event>): State
    decreases |es|
  {
    if es == [] then s else Exec(Step(s, es[0]), es[1..])
  }

  function RefreshEvents(s: State, es: seq<Event>): seq<Sessions.Event>
    decreases |es|
  {
    if es == [] then []
    else (match RefreshPart(s, es[0]) case None => [] case Some(e) => [e]) + RefreshEvents(Step(s, es[0]), es[1..])
  }

  // What happens to the refresh tokens is a run of their own system, so its theorems hold here.
  lemma {:induction false} RefreshRunIsSessionsRun(s: State, es: seq<Event>)
    ensures Exec(s, es).refresh == Sessions.Exec(s.refresh, RefreshEvents(s, es))
    decreases |es|
  {
    if es != [] {
      RefreshRunIsSessionsRun(Step(s, es[0]), es[1..]);
      var rest := RefreshEvents(Step(s, es[0]), es[1..]);
      if RefreshPart(s, es[0]).Some? {
        assert ([RefreshPart(s, es[0]).value] + rest)[1..] == rest;
      } else {
        assert RefreshEvents(s, es) == rest;
      }
    }
  }

  // The stored version of a user; version keys never expire.
  function Stored(db: Db, user: string): int
  {
    if UserVersion(user) in db then db[UserVersion(user)].value else 0
  }

  ghost predicate TokenOk(s: State, jti: Jti)
    requires jti in s.issued
  {
    var c := s.issued[jti];
    && c.jti == jti
    && 0 <= c.version <= Stored(s.db, c.user)
    && (jti in s.revoked ==>
          AccessBlacklist(jti) in s.db && s.db[AccessBlacklist(jti)].expireAt.Some? &&
          s.db[AccessBlacklist(jti)].expireAt.value >= c.exp)
    && (jti !in s.revoked ==> AccessBlacklist(jti) !in s.db)
  }

  ghost predicate VersionOk(s: State, user: string)
  {
    UserVersion(user) in s.db ==> s.db[UserVersion(user)].expireAt.None? && s.db[UserVersion(user)].value >= 1
  }

  ghost predicate Inv(s: State)
  {
    && (forall jti :: jti in s.issued ==> TokenOk(s, jti))
    && (forall jti :: jti !in s.issued ==> AccessBlacklist(jti) !in s.db && jti !in s.revoked)
    && (forall t :: t in s.issuing ==> 0 <= s.issuing[t].version <= Stored(s.db, s.issuing[t].user))
    && (forall user :: VersionOk(s, user))
  }

  lemma VersionsOnlyGrow(s: State, e: Event, user: string)
    requires VersionOk(s, user)
    ensures VersionOk(Step(s, e), user)
    ensures Stored(s.db, user) <= Stored(Step(s, e).db, user)
    ensures (e.BumpVersion? || e.ForceLogout?) && e.user == user ==>
              Stored(s.db, user) + 1 == Stored(Step(s, e).db, user)
  {
  }

  // A token's blacklist entry is written only when the token is revoked, for the rest of its life.
  lemma StepOnBlacklist(s: State, e: Event, jti: Jti)
    requires jti in s.issued ==> s.issued[jti].jti == jti
    requires forall k :: k in s.issued ==> s.issued[k].jti == k
    ensures var key, s' := AccessBlacklist(jti), Step(s, e);
      || (Lookup(s'.db, key) == Lookup(s.db, key) && (jti in s'.revoked <==> jti in s.revoked))
      || (jti in s'.revoked && jti in s.issued && key in s'.db &&
          s'.db[key].expireAt.Some? && s'.db[key].expireAt.value >= s.issued[jti].exp)
  {
  }

  lemma StepKeepsToken(s: State, e: Event, jti: Jti)
    requires Inv(s) && jti in Step(s, e).issued
    ensures TokenOk(Step(s, e), jti)
    ensures jti in s.issued ==> Step(s, e).issued[jti] == s.issued[jti]
    ensures jti in s.revoked ==> jti in Step(s, e).revoked
  {
    var c := Step(s, e).issued[jti];
    VersionsOnlyGrow(s, e, c.user);
    assert forall k :: k in s.issued ==> TokenOk(s, k);
    StepOnBlacklist(s, e, jti);
  }

  lemma StepKeepsInv(s: State, e: Event)
    requires Inv(s)
    ensures Inv(Step(s, e))
  {
    var s' := Step(s, e);
    forall jti | jti in s'.issued ensures TokenOk(s', jti) { StepKeepsToken(s, e, jti); }
    forall t | t in s'.issuing ensures 0 <= s'.issuing[t].version <= Stored(s'.db, s'.issuing[t].user) {
      VersionsOnlyGrow(s, e, s'.issuing[t].user);
    }
    forall user ensures VersionOk(s', user) { VersionsOnlyGrow(s, e, user); }
  }

  // What no run undoes: tokens keep their claims, revocations stand, versions only grow.
  ghost predicate Later(s: State, s': State)
  {
    && (forall jti :: jti in s.issued ==> jti in s'.issued && s'.issued[jti] == s.issued[jti])
    && s.revoked <= s'.revoked
    && (forall user :: Stored(s.db, user) <= Stored(s'.db, user))
  }

  lemma StepIsLater(s: State, e: Event)
    requires Inv(s)
    ensures Later(s, Step(s, e))
  {
    forall user ensures Stored(s.db, user) <= Stored(Step(s, e).db, user) { VersionsOnlyGrow(s, e, user); }
  }

  lemma {:induction false} ExecKeeps(s: State, es: seq<Event>)
    requires Inv(s)
    ensures Inv(Exec(s, es)) && Later(s, Exec(s, es))
    decreases |es|
  {
    if es != [] {
      StepKeepsInv(s, es[0]);
      StepIsLater(s, es[0]);
      ExecKeeps(Step(s, es[0]), es[1..]);
    }
  }

  // The time-limited blacklist and the versions decide exactly as a permanent record would:
  // in every reachable state a token is usable iff it has not expired, was never revoked,
  // carries the current version, and its user is not shut out for the moment.
  lemma UsableIff(es: seq<Event>, jti: Jti, now: Time)
    requires jti in Exec(INIT, es).issued
    ensures var s := Exec(INIT, es);
      var c := s.issued[jti];
      Usable(s.db, c, now) <==>
        now < c.exp && jti !in s.revoked && c.version == Stored(s.db, c.user) &&
        !Exists(s.db, UserBlacklist(c.user), now)
  {
    ExecKeeps(INIT, es);
    var s := Exec(INIT, es);
    assert TokenOk(s, jti) && VersionOk(s, s.issued[jti].user);
  }

  // Refused from `at` on, whatever happens: expired, blacklisted, behind the version, or shut
  // out with its user for the rest of its life.
  predicate DeadForGood(db: Db, c: Claims, at: Time)
  {
    || c.exp <= at
    || AccessBlacklist(c.jti) in db
    || c.version < Stored(db, c.user)
    || (UserBlacklist(c.user) in db && (db[UserBlacklist(c.user)].expireAt.None? ||
                                        db[UserBlacklist(c.user)].expireAt.value >= c.exp))
  }

  lemma StepKeepsDead(s: State, e: Event, c: Claims, at: Time)
    requires Inv(s) && c.jti in s.issued && s.issued[c.jti] == c && DeadForGood(s.db, c, at)
    ensures DeadForGood(Step(s, e).db, c, at)
  {
    assert TokenOk(s, c.jti);
    VersionsOnlyGrow(s, e, c.user);
  }

  lemma {:induction false} DeadStaysDead(s: State, es: seq<Event>, c: Claims, at: Time)
    requires Inv(s) && c.jti in s.issued && s.issued[c.jti] == c && DeadForGood(s.db, c, at)
    ensures Inv(Exec(s, es)) && c.jti in Exec(s, es).issued && Exec(s, es).issued[c.jti] == c
    ensures DeadForGood(Exec(s, es).db, c, at)
    decreases |es|
  {
    if es != [] {
      StepKeepsInv(s, es[0]);
      StepKeepsDead(s, es[0], c, at);
      if c.jti in Step(s, es[0]).issued { StepKeepsToken(s, es[0], c.jti); }
      DeadStaysDead(Step(s, es[0]), es[1..], c, at);
    }
  }

  lemma DeadIsRefused(s: State, c: Claims, at: Time, now: Time)
    requires Inv(s) && c.jti in s.issued && s.issued[c.jti] == c && DeadForGood(s.db, c, at) && at <= now
    ensures !Usable(s.db, c, now)
  {
    assert TokenOk(s, c.jti) && VersionOk(s, c.user);
  }

  // The moment a token that is not dead can still be used.
  function Chance(s: State, c: Claims, at: Time): Time
  {
    if UserBlacklist(c.user) in s.db && s.db[UserBlacklist(c.user)].expireAt.Some?
    then Max(at, s.db[UserBlacklist(c.user)].expireAt.value) else at
  }

  lemma AliveHasChance(s: State, c: Claims, at: Time)
    requires Inv(s) && c.jti in s.issued && s.issued[c.jti] == c && !DeadForGood(s.db, c, at)
    ensures at <= Chance(s, c, at) && Usable(s.db, c, Chance(s, c, at))
  {
    assert TokenOk(s, c.jti) && VersionOk(s, c.user);
  }

  ghost predicate RefusedEverAfter(s: State, c: Claims, at: Time)
  {
    forall after: seq<Event>, now: Time :: at <= now ==> !Usable(Exec(s, after).db, c, now)
  }

  lemma RefusedIffDead(s: State, c: Claims, at: Time)
    requires Inv(s) && c.jti in s.issued && s.issued[c.jti] == c
    ensures RefusedEverAfter(s, c, at) <==> DeadForGood(s.db, c, at)
  {
    if DeadForGood(s.db, c, at) {
      forall after: seq<Event>, now: Time | at <= now
        ensures !Usable(Exec(s, after).db, c, now)
      {
        DeadStaysDead(s, after, c, at);
        DeadIsRefused(Exec(s, after), c, at, now);
      }
    } else {
      AliveHasChance(s, c, at);
      assert Exec(s, []) == s;
    }
  }

  // Once logged out, a token is refused at every later moment of every run.
  lemma LogoutIsFinal(before: seq<Event>, e: Event)
    requires e.Logout? && e.jti in Exec(INIT, before).issued
    ensures var s := Exec(INIT, before);
      RefusedEverAfter(Step(s, e), s.issued[e.jti], e.at)
  {
    ExecKeeps(INIT, before);
    var s := Exec(INIT, before);
    StepKeepsInv(s, e);
    StepKeepsToken(s, e, e.jti);
    RefusedIffDead(Step(s, e), s.issued[e.jti], e.at);
  }

  // In every reachable state an access token handed to the revocation endpoint is refused ever
  // after exactly when the hint does not call it a refresh token or it was dead already.
  lemma RevocationIsFinalIff(before: seq<Event>, at: Time, c: Claims, hint: string)
    requires var s := Exec(INIT, before); c.jti in s.issued && s.issued[c.jti] == c
    ensures var s := Exec(INIT, before);
      RefusedEverAfter(Step(s, Revoke(at, Access(c), hint)), c, at) <==>
        hint != REFRESH_HINT || DeadForGood(s.db, c, at)
  {
    ExecKeeps(INIT, before);
    var s := Exec(INIT, before);
    var e := Revoke(at, Access(c), hint);
    StepKeepsInv(s, e);
    StepKeepsToken(s, e, c.jti);
    RefusedIffDead(Step(s, e), c, at);
  }

  // A live access token posted with the hint "refresh_token" goes on working.
  lemma RefreshHintSparesAccessToken()
    ensures var c := Claims(1, "u", "app", HOUR, 0, false);
      var s := Exec(INIT, [ReadVersion(0, 0, "u"), Sign(0, 0, 1, "app", HOUR, false)]);
      c.jti in s.issued && s.issued[c.jti] == c && Usable(s.db, c, 1) &&
      Usable(Step(s, Revoke(1, Access(c), "refresh_token")).db, c, 1) &&
      !Usable(Step(s, Revoke(1, Access(c), "access_token")).db, c, 1)
  {
    var es := [ReadVersion(0, 0, "u"), Sign(0, 0, 1, "app", HOUR, false)];
    var s1 := Step(INIT, es[0]);
    assert es[1..][1..] == [];
    assert Exec(INIT, es) == Exec(s1, es[1..]) == Exec(Step(s1, es[1]), []);
  }

  // A refresh token handed to it is revoked for good, whatever the hint.
  lemma RefreshRevocationIsFinal(before: seq<Event>, at: Time, token: Sessions.Jti, hint: string, after: seq<Event>)
    requires token in Exec(INIT, before).refresh.rows
    ensures var s := Exec(INIT, before);
      var s' := Exec(Step(s, Revoke(at, Refresh(token), hint)), after);
      token in s'.refresh.rows && !s'.refresh.rows[token].Active()
  {
    var s := Exec(INIT, before);
    var s1 := Step(s, Revoke(at, Refresh(token), hint));
    RefreshRunIsSessionsRun(INIT, before);
    Sessions.ExecKeepsInv(Sessions.INIT, RefreshEvents(INIT, before));
    Sessions.StepKeepsInv(s.refresh, Sessions.RevokeOne(token, at));
    RefreshRunIsSessionsRun(s1, after);
    Sessions.ExecKeepsRow(s1.refresh, RefreshEvents(s1, after), token);
  }

  // A version bump ends every token whose version was read before it, signed or still
  // being signed, for good.
  lemma BumpIsFinal(before: seq<Event>, e: Event, after: seq<Event>, c: Claims, now: Time)
    requires e.BumpVersion? || e.ForceLogout?
    requires c.user == e.user
    requires var s := Exec(INIT, before);
      (c.jti in s.issued && s.issued[c.jti] == c) ||
      (exists t :: t in s.issuing && s.issuing[t] == Reading(c.user, c.version))
    ensures !Usable(Exec(Step(Exec(INIT, before), e), after).db, c, now)
  {
    ExecKeeps(INIT, before);
    var s := Exec(INIT, before);
    if c.jti in s.issued {
      assert TokenOk(s, c.jti);
    }
    assert VersionOk(s, c.user);
    VersionsOnlyGrow(s, e, c.user);
    StepKeepsInv(s, e);
    ExecKeeps(Step(s, e), after);
    assert VersionOk(Exec(Step(s, e), after), c.user);
  }

  // A forced logout also shuts out tokens issued after it, until its time limit lapses.
  lemma ForceLogoutShutsOutNewTokens(before: seq<Event>, at: Time, user: string, ttl: int,
                                     t: nat, jti: Jti, client: string, exp: Time, now: Time)
    requires jti !in Exec(INIT, before).issued && now < exp
    ensures var s := Step(Exec(INIT, before), ForceLogout(at, user, client, ttl));
      var s' := Step(Step(s, ReadVersion(at, t, user)), Sign(at, t, jti, client, exp, false));
      jti in s'.issued && (Usable(s'.db, s'.issued[jti], now) <==> now >= at + UserTtl(ttl))
  {
    ExecKeeps(INIT, before);
    var s0 := Exec(INIT, before);
    assert VersionOk(s0, user) && AccessBlacklist(jti) !in s0.db;
    ShutOut(s0.db, user, ttl, at, Claims(jti, user, client, exp, Stored(s0.db, user) + 1, false), now);
  }

  lemma ShutOut(db: Db, user: string, ttl: int, at: Time, c: Claims, now: Time)
    requires UserVersion(user) in db ==> db[UserVersion(user)].expireAt.None? && db[UserVersion(user)].value >= 1
    requires AccessBlacklist(c.jti) !in db && c.user == user && now < c.exp && c.version == Stored(db, user) + 1
    ensures Version(ForcedOut(db, user, ttl, at), user, at) == c.version
    ensures Usable(ForcedOut(db, user, ttl, at), c, now) <==> now >= at + UserTtl(ttl)
  {
  }
}
