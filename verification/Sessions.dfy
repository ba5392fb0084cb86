/**
 * Refresh tokens: the refresh_tokens table, the serial `Refresh` call, and the
 * same call cut into its single store operations and interleaved with logins,
 * logouts and every kind of revocation.
 *
 * A token is named by the jti of its row: every row has its own random token
 * and the token hash is taken to be injective.
 */
module Sessions {
  import opened Common

  type Jti = nat
  type ThreadId = nat

  datatype Row = Row(user: string, client: string, device: string, expireAt: Time, revokedAt: Option<Time>) {
    predicate Active() {
      revokedAt.None?
    }
  }

  type Table = map<Jti, Row>

  // The conditional bulk updates; an empty client means every client.
  datatype Scope =
    | OfUser(user: string, client: string)
    | OthersOfUser(user: string, client: string, keep: Jti)
    | OfClient(client: string)
  {
    predicate Covers(jti: Jti, row: Row) {
      match this
      case OfUser(u, c) => row.user == u && (c == "" || row.client == c)
      case OthersOfUser(u, c, keep) => row.user == u && jti != keep && (c == "" || row.client == c)
      case OfClient(c) => row.client == c
    }
  }

  function Revoked(rows: Table, jti: Jti, at: Time): Table
  {
    if jti in rows then rows[jti := rows[jti].(revokedAt := Some(at))] else rows
  }

  // Only rows that are still active get the time stamp.
  function RevokedScope(rows: Table, scope: Scope, at: Time): Table
  {
    map j | j in rows ::
      if scope.Covers(j, rows[j]) && rows[j].Active() then rows[j].(revokedAt := Some(at)) else rows[j]
  }

  // ---------------------------------------------------------------- the serial service

  datatype Refreshed = Refreshed(rows: Table, outcome: Result<Jti>)

  // What one uninterrupted refresh call does to the table. Unknown users count as inactive too.
  function RefreshSpec(rows: Table, unknown: set<string>, inactive: set<string>, client: string, token: Jti, now: Time,
                       newJti: Jti, newExpire: Time): Refreshed
  {
    if token !in rows || rows[token].client != client then Refreshed(rows, Err(InvalidCred))
    else
      var rt := rows[token];
      if !rt.Active() then Refreshed(RevokedScope(rows, OfUser(rt.user, rt.client), now), Err(InvalidCred))
      else if now > rt.expireAt then Refreshed(rows, Err(InvalidCred))
      else if rt.user in unknown then Refreshed(rows, Err(InvalidCred))
      else if rt.user in inactive then Refreshed(rows, Err(Forbidden))
      else
        Refreshed(Revoked(rows, token, now)[newJti := Row(rt.user, client, rt.device, newExpire, None)], Ok(newJti))
  }

  /** The table and the calls that change it, one store statement per method. */
  class TokenService {
    var rows: Table
    var unknown: set<string>
    var inactive: set<string>  // disabled users

    method FindByHash(token: Jti) returns (rt: Option<Row>)
      ensures rt == if token in rows then Some(rows[token]) else None
    {
      rt := if token in rows then Some(rows[token]) else None;
    }

    // A row for a login.
    method Create(jti: Jti, row: Row)
      requires jti !in rows
      modifies this`rows
      ensures rows == old(rows)[jti := row]
      ensures forall s: State :: s.rows == old(rows) && row.revokedAt.None? ==>
                Step(s, Login(row.user, row.client, row.device, jti, row.expireAt)).rows == rows
    {
      rows := rows[jti := row];
    }

    method Revoke(jti: Jti, at: Time)
      modifies this`rows
      ensures rows.Keys == old(rows).Keys
      ensures forall j :: j in rows ==>
        rows[j] == if j == jti then old(rows)[j].(revokedAt := Some(at)) else old(rows)[j]
      ensures forall s: State :: s.rows == old(rows) ==> Step(s, RevokeOne(jti, at)).rows == rows
    {
      if jti in rows {
        rows := rows[jti := rows[jti].(revokedAt := Some(at))];
      }
    }

    method RevokeAllByUser(user: string, client: string, at: Time)
      modifies this`rows
      ensures rows.Keys == old(rows).Keys
      ensures forall j :: j in rows ==>
        rows[j] == if old(rows)[j].user == user && (client == "" || old(rows)[j].client == client) &&
                      old(rows)[j].revokedAt.None?
                   then old(rows)[j].(revokedAt := Some(at)) else old(rows)[j]
      ensures forall s: State :: s.rows == old(rows) ==> Step(s, RevokeMany(OfUser(user, client), at)).rows == rows
    {
      RevokeWhere(OfUser(user, client), at);
    }

    method RevokeOthers(user: string, client: string, keep: Jti, at: Time)
      modifies this`rows
      ensures rows.Keys == old(rows).Keys
      ensures forall j :: j in rows ==>
        rows[j] == if old(rows)[j].user == user && (client == "" || old(rows)[j].client == client) && j != keep &&
                      old(rows)[j].revokedAt.None?
                   then old(rows)[j].(revokedAt := Some(at)) else old(rows)[j]
      ensures forall s: State :: s.rows == old(rows) ==>
                Step(s, RevokeMany(OthersOfUser(user, client, keep), at)).rows == rows
    {
      RevokeWhere(OthersOfUser(user, client, keep), at);
    }

    method RevokeByClient(client: string, at: Time)
      modifies this`rows
      ensures rows.Keys == old(rows).Keys
      ensures forall j :: j in rows ==>
        rows[j] == if old(rows)[j].client == client && old(rows)[j].revokedAt.None?
                   then old(rows)[j].(revokedAt := Some(at)) else old(rows)[j]
      ensures forall s: State :: s.rows == old(rows) ==> Step(s, RevokeMany(OfClient(client), at)).rows == rows
    {
      RevokeWhere(OfClient(client), at);
    }

    method RevokeWhere(scope: Scope, at: Time)
      modifies this`rows
      ensures rows.Keys == old(rows).Keys
      ensures forall j :: j in rows ==>
        rows[j] == if scope.Covers(j, old(rows)[j]) && old(rows)[j].Active()
                   then old(rows)[j].(revokedAt := Some(at)) else old(rows)[j]
      ensures rows == RevokedScope(old(rows), scope, at)
    {
      rows := map j | j in rows ::
        if scope.Covers(j, rows[j]) && rows[j].Active() then rows[j].(revokedAt := Some(at)) else rows[j];
    }

    // Compare-and-set: true exactly when this call turned the row from active to revoked.
    method ConsumeActive(jti: Jti, at: Time) returns (won: bool)
      modifies this`rows
      ensures won <==> jti in old(rows) && old(rows)[jti].revokedAt.None?
      ensures rows == if won then old(rows)[jti := old(rows)[jti].(revokedAt := Some(at))] else old(rows)
      ensures forall s: State, t: ThreadId ::
                s.rows == old(rows) && t in s.threads && s.threads[t].Approved? && s.threads[t].token == jti ==>
                  Step(s, Consume(t, at)).rows == rows &&
                  (won <==> t in Step(s, Consume(t, at)).threads)
    {
      won := false;
      if jti in rows && rows[jti].revokedAt.None? {
        rows := rows[jti := rows[jti].(revokedAt := Some(at))];
        won := true;
      }
    }

    method Refresh(client: string, token: Jti, now: Time, newJti: Jti, newExpire: Time) returns (r: Result<Jti>)
      requires newJti !in rows
      modifies this`rows
      ensures r.Ok? <==>
              && token in old(rows) && old(rows)[token].client == client && old(rows)[token].revokedAt.None?
              && now <= old(rows)[token].expireAt
              && old(rows)[token].user !in unknown && old(rows)[token].user !in inactive
      // Only a revoked token of the caller's app, or a success, writes anything.
      ensures r.Err? ==>
              rows == old(rows) ||
              (token in old(rows) && old(rows)[token].client == client && old(rows)[token].revokedAt.Some?)
      ensures token in old(rows) && old(rows)[token].client == client && old(rows)[token].revokedAt.Some? ==>
              && rows.Keys == old(rows).Keys
              && forall j :: j in rows ==>
                   rows[j] == if old(rows)[j].user == old(rows)[token].user &&
                                 (client == "" || old(rows)[j].client == client) && old(rows)[j].revokedAt.None?
                              then old(rows)[j].(revokedAt := Some(now)) else old(rows)[j]
      ensures r.Ok? ==>
              && r.value == newJti && rows.Keys == old(rows).Keys + {newJti}
              && rows[newJti] == Row(old(rows)[token].user, client, old(rows)[token].device, newExpire, None)
              && rows[token] == old(rows)[token].(revokedAt := Some(now))
              && forall j :: j in old(rows) && j != token ==> rows[j] == old(rows)[j]
      ensures r.Err? ==>
              r.error == if token in old(rows) && old(rows)[token].client == client &&
                            old(rows)[token].revokedAt.None? && now <= old(rows)[token].expireAt &&
                            old(rows)[token].user !in unknown
                         then Forbidden else InvalidCred
      ensures Refreshed(rows, r) == RefreshSpec(old(rows), unknown, inactive, client, token, now, newJti, newExpire)
    {
      var found := FindByHash(token);
      if found.None? || found.value.client != client {
        return Err(InvalidCred);
      }
      var rt := found.value;
      if rt.revokedAt.Some? {
        RevokeWhere(OfUser(rt.user, rt.client), now);
        return Err(InvalidCred);
      }
      if now > rt.expireAt {
        return Err(InvalidCred);
      }
      if rt.user in unknown {
        return Err(InvalidCred);
      }
      if rt.user in inactive {
        return Err(Forbidden);
      }
      var won := ConsumeActive(token, now);
      if !won {
        return Err(InvalidCred);
      }
      Create(newJti, Row(rt.user, client, rt.device, newExpire, None));
      r := Ok(newJti);
    }

    // Logout's refresh half: everything of the user in this app, or the one presented token.
    method Logout(user: string, client: string, token: Option<Jti>, allDevices: bool, now: Time)
      modifies this`rows
      ensures rows.Keys == old(rows).Keys
      ensures forall j :: j in rows ==>
        rows[j] ==
          if allDevices && old(rows)[j].user == user && (client == "" || old(rows)[j].client == client) &&
             old(rows)[j].revokedAt.None?
          then old(rows)[j].(revokedAt := Some(now))
          else if !allDevices && token == Some(j) then old(rows)[j].(revokedAt := Some(now))
          else old(rows)[j]
    {
      if allDevices {
        RevokeAllByUser(user, client, now);
      } else if token.Some? {
        var found := FindByHash(token.value);
        if found.Some? {
          Revoke(token.value, now);
        }
      }
    }

    method RevokeSession(user: string, client: string, jti: Jti, now: Time) returns (r: Result<()>)
      modifies this`rows
      ensures r.Ok? <==> jti in old(rows) && old(rows)[jti].user == user && old(rows)[jti].client == client
      ensures r.Err? ==> r.error == NotFound
      ensures rows == if r.Ok? then old(rows)[jti := old(rows)[jti].(revokedAt := Some(now))] else old(rows)
    {
      if jti !in rows || rows[jti].user != user || rows[jti].client != client {
        return Err(NotFound);
      }
      Revoke(jti, now);
      r := Ok(());
    }

    // Signs the user out of every other device of the app; None is an empty current session.
    method RevokeOtherSessions(user: string, client: string, keep: Option<Jti>, now: Time) returns (r: Result<()>)
      modifies this`rows
      ensures r == if keep.Some? then Ok(()) else Err(BadRequest)
      ensures rows.Keys == old(rows).Keys
      ensures forall j :: j in rows ==>
        rows[j] == if keep.Some? && old(rows)[j].user == user && (client == "" || old(rows)[j].client == client) &&
                      j != keep.value && old(rows)[j].revokedAt.None?
                   then old(rows)[j].(revokedAt := Some(now)) else old(rows)[j]
    {
      if keep.None? {
        return Err(BadRequest);
      }
      RevokeOthers(user, client, keep.value, now);
      r := Ok(());
    }

    // The administrator's switch: disabling also ends every session of the user.
    method SetUserStatus(user: string, active: bool, now: Time) returns (r: Result<()>)
      modifies this
      ensures r == if user in old(unknown) then Err(NotFound) else Ok(())
      ensures unknown == old(unknown)
      ensures forall s: State :: r.Ok? && s.inactive == old(inactive) ==>
                Step(s, SetStatus(user, active)).inactive == inactive
      ensures inactive == if r.Err? then old(inactive)
                          else if active then old(inactive) - {user} else old(inactive) + {user}
      ensures rows.Keys == old(rows).Keys
      ensures forall j :: j in rows ==>
        rows[j] == if r.Ok? && !active && old(rows)[j].user == user && old(rows)[j].revokedAt.None?
                   then old(rows)[j].(revokedAt := Some(now)) else old(rows)[j]
    {
      if user in unknown {
        return Err(NotFound);
      }
      if active {
        inactive := inactive - {user};
      } else {
        inactive := inactive + {user};
        RevokeAllByUser(user, "", now);
      }
      r := Ok(());
    }
  }

  // ---------------------------------------------------------------- the interleaved system

  // Where an unfinished refresh call stands.
  datatype Pc =
    | Fetched(token: Jti, user: string, client: string, device: string)   // read a live row
    | Approved(token: Jti, user: string, client: string, device: string)  // user checked
    | Won(token: Jti, user: string, client: string, device: string)       // won the compare-and-set
    | Reuse(user: string, client: string)                                 // read a revoked row

  // History the code does not store: a login's row is its own family; a rotated
  // row inherits the family of the row it replaced.
  datatype Birth = Birth(family: Jti, parent: Option<Jti>)

  datatype State = State(rows: Table, threads: map<ThreadId, Pc>, inactive: set<string>, births: map<Jti, Birth>)

  const INIT := State(map[], map[], {}, map[])

  datatype Event =
    | Login(user: string, client: string, device: string, jti: Jti, expireAt: Time)
    | Present(t: ThreadId, token: Jti, client: string, now: Time)
    | ReuseRevoke(t: ThreadId, now: Time)
    | CheckUser(t: ThreadId)
    | Consume(t: ThreadId, now: Time)
    | Insert(t: ThreadId, jti: Jti, expireAt: Time)
    | Abandon(t: ThreadId)
    | RevokeOne(jti: Jti, now: Time)
    | RevokeMany(scope: Scope, now: Time)
    | SetStatus(user: string, active: bool)

  function Add(s: State, jti: Jti, row: Row, birth: Birth): State
  {
    s.(rows := s.rows[jti := row], births := s.births[jti := birth])
  }

  function Drop(s: State, t: ThreadId): State
  {
    s.(threads := s.threads - {t})
  }

  function Move(s: State, t: ThreadId, pc: Pc): State
  {
    s.(threads := s.threads[t := pc])
  }

  // One atomic store operation; an event that is not enabled changes nothing.
  function Step(s: State, e: Event): State
  {
    match e
    case Login(user, client, device, jti, expireAt) =>
      if jti in s.rows then s
      else Add(s, jti, Row(user, client, device, expireAt, None), Birth(jti, None))
    case Present(t, token, client, now) =>
      if t in s.threads || token !in s.rows || s.rows[token].client != client then s
      else
        var rt := s.rows[token];
        if !rt.Active() then Move(s, t, Reuse(rt.user, rt.client))
        else if now > rt.expireAt then s
        else Move(s, t, Fetched(token, rt.user, client, rt.device))
    case ReuseRevoke(t, now) =>
      if t in s.threads && s.threads[t].Reuse? then
        Drop(s, t).(rows := RevokedScope(s.rows, OfUser(s.threads[t].user, s.threads[t].client), now))
      else s
    case CheckUser(t) =>
      if t in s.threads && s.threads[t].Fetched? then
        var p := s.threads[t];
        if p.user in s.inactive then Drop(s, t)
        else Move(s, t, Approved(p.token, p.user, p.client, p.device))
      else s
    case Consume(t, now) =>
      if t in s.threads && s.threads[t].Approved? then
        var p := s.threads[t];
        if p.token in s.rows && s.rows[p.token].Active() then
          Move(s, t, Won(p.token, p.user, p.client, p.device)).(rows := Revoked(s.rows, p.token, now))
        else Drop(s, t)
      else s
    case Insert(t, jti, expireAt) =>
      if t in s.threads && s.threads[t].Won? && jti !in s.rows && s.threads[t].token in s.births then
        var p := s.threads[t];
        Drop(Add(s, jti, Row(p.user, p.client, p.device, expireAt, None),
                 Birth(s.births[p.token].family, Some(p.token))), t)
      else s
    case Abandon(t) => Drop(s, t)
    case RevokeOne(jti, now) => s.(rows := Revoked(s.rows, jti, now))
    case RevokeMany(scope, now) => s.(rows := RevokedScope(s.rows, scope, now))
    case SetStatus(user, active) =>
      s.(inactive := if active then s.inactive - {user} else s.inactive + {user})
  }

  function Exec(s: State, events: seq<Event>): State
    decreases |events|
  {
    if events == [] then s else Exec(Step(s, events[0]), events[1..])
  }

  // A family's right to one more row: held by an active row, or by a call that
  // consumed a row and has not inserted the successor yet.
  datatype Holder = ActiveRow(jti: Jti) | Winner(t: ThreadId)

  predicate Holds(s: State, h: Holder, family: Jti)
  {
    match h
    case ActiveRow(j) => j in s.rows && s.rows[j].Active() && j in s.births && s.births[j].family == family
    case Winner(t) =>
      t in s.threads && s.threads[t].Won? && s.threads[t].token in s.births &&
      s.births[s.threads[t].token].family == family
  }

  function ActiveRows(s: State, family: Jti): set<Jti>
  {
    set j | j in s.rows && Holds(s, ActiveRow(j), family)
  }

  function Winners(s: State, family: Jti): set<ThreadId>
  {
    set t | t in s.threads && Holds(s, Winner(t), family)
  }

  predicate IsChild(s: State, child: Jti, token: Jti)
  {
    child in s.births && s.births[child].parent == Some(token)
  }

  function Children(s: State, token: Jti): set<Jti>
  {
    set j | j in s.births && IsChild(s, j, token)
  }

  // ---------------------------------------------------------------- the invariant

  ghost predicate CallOk(s: State, t: ThreadId)
    requires t in s.threads
  {
    var p := s.threads[t];
    p.Reuse? ||
    (p.token in s.rows && s.rows[p.token].user == p.user && s.rows[p.token].client == p.client &&
     (p.Won? ==> !s.rows[p.token].Active()))
  }

  ghost predicate BirthOk(s: State, j: Jti)
    requires j in s.births
  {
    var b := s.births[j];
    && j in s.rows && b.family in s.rows
    && s.rows[b.family].user == s.rows[j].user && s.rows[b.family].client == s.rows[j].client
    && (b.parent.Some? ==>
          b.parent.value in s.births && b.parent.value in s.rows &&
          !s.rows[b.parent.value].Active() && s.births[b.parent.value].family == b.family)
  }

  ghost predicate WellFormed(s: State)
  {
    && s.births.Keys == s.rows.Keys
    && (forall t {:trigger CallOk(s, t)} :: t in s.threads ==> CallOk(s, t))
    && (forall j {:trigger BirthOk(s, j)} :: j in s.births ==> BirthOk(s, j))
  }

  ghost predicate OneHolder(s: State)
  {
    forall g, h, f :: Holds(s, g, f) && Holds(s, h, f) ==> g == h
  }

  ghost predicate OneSuccessor(s: State)
  {
    && (forall i, j, p :: IsChild(s, i, p) && IsChild(s, j, p) ==> i == j)
    && (forall t, j :: t in s.threads && s.threads[t].Won? ==> !IsChild(s, j, s.threads[t].token))
  }

  ghost predicate Inv(s: State)
  {
    WellFormed(s) && OneHolder(s) && OneSuccessor(s)
  }

  // What no step undoes: rows stay, keep their owner and history, and once revoked stay revoked.
  ghost predicate RowKept(s: State, s': State, j: Jti)
  {
    && (j in s.rows ==>
          j in s'.rows && s'.rows[j].user == s.rows[j].user && s'.rows[j].client == s.rows[j].client &&
          (!s.rows[j].Active() ==> !s'.rows[j].Active()))
    && (j in s.births ==> j in s'.births && s'.births[j] == s.births[j])
  }

  lemma StepKeepsRow(s: State, e: Event, j: Jti)
    requires s.births.Keys == s.rows.Keys
    ensures RowKept(s, Step(s, e), j)
  {
    match e
    case RevokeMany(_, _) =>
    case ReuseRevoke(_, _) =>
    case _ =>
  }

  lemma {:induction false} ExecKeepsRow(s: State, events: seq<Event>, j: Jti)
    requires s.births.Keys == s.rows.Keys
    ensures RowKept(s, Exec(s, events), j)
    decreases |events|
  {
    if events != [] {
      StepKeepsRow(s, events[0], j);
      StepKeepsKeys(s, events[0]);
      ExecKeepsRow(Step(s, events[0]), events[1..], j);
    }
  }

  lemma StepKeepsCall(s: State, e: Event, t: ThreadId)
    requires s.births.Keys == s.rows.Keys
    requires t in s.threads ==> CallOk(s, t)
    requires t in Step(s, e).threads
    ensures CallOk(Step(s, e), t)
  {
    if t in s.threads && !s.threads[t].Reuse? {
      StepKeepsRow(s, e, s.threads[t].token);
    }
    match e
    case Present(_, _, _, _) =>
    case CheckUser(_) =>
    case Consume(_, _) =>
    case _ =>
      assert Step(s, e).threads.Keys <= s.threads.Keys;
      assert Step(s, e).threads[t] == s.threads[t];
  }

  lemma BirthStaysOk(s: State, s': State, j: Jti)
    requires j in s.births && BirthOk(s, j)
    requires forall k :: RowKept(s, s', k)
    ensures j in s'.births && BirthOk(s', j)
  {
    assert RowKept(s, s', j);
    assert RowKept(s, s', s.births[j].family);
    if s.births[j].parent.Some? {
      assert RowKept(s, s', s.births[j].parent.value);
    }
  }

  lemma NewBirthIsOk(s: State, e: Event, j: Jti)
    requires WellFormed(s)
    requires j !in s.births && j in Step(s, e).births
    ensures BirthOk(Step(s, e), j)
  {
    if e.Insert? {
      var p := s.threads[e.t];
      assert CallOk(s, e.t);
      assert BirthOk(s, p.token);
    }
  }

  lemma StepKeepsWellFormed(s: State, e: Event)
    requires WellFormed(s)
    ensures WellFormed(Step(s, e))
  {
    var s' := Step(s, e);
    forall k ensures RowKept(s, s', k) { StepKeepsRow(s, e, k); }
    forall t | t in s'.threads ensures CallOk(s', t) { StepKeepsCall(s, e, t); }
    forall j | j in s'.births ensures BirthOk(s', j) {
      if j in s.births { BirthStaysOk(s, s', j); } else { NewBirthIsOk(s, e, j); }
    }
    StepKeepsKeys(s, e);
  }

  lemma StepKeepsKeys(s: State, e: Event)
    requires s.births.Keys == s.rows.Keys
    ensures Step(s, e).births.Keys == Step(s, e).rows.Keys
  {
  }

  // ---------------------------------------------------------------- one holder per family

  // Winning the compare-and-set hands a row's right to the call; inserting hands it to the new row.
  function Before(s: State, e: Event, h: Holder): Holder
  {
    match e
    case Consume(t, _) =>
      if h == Winner(t) && t in s.threads && s.threads[t].Approved? then ActiveRow(s.threads[t].token) else h
    case Insert(t, jti, _) =>
      if h == ActiveRow(jti) && jti !in s.rows then Winner(t) else h
    case _ => h
  }

  ghost predicate NewLogin(s: State, e: Event, h: Holder)
  {
    e.Login? && e.jti !in s.rows && h == ActiveRow(e.jti)
  }

  lemma HolderComesFrom(s: State, e: Event, h: Holder, f: Jti)
    requires WellFormed(s) && Holds(Step(s, e), h, f)
    ensures NewLogin(s, e, h) || Holds(s, Before(s, e, h), f)
    ensures NewLogin(s, e, h) ==> f == e.jti
  {
    if h.Winner? && h.t in s.threads {
      assert CallOk(s, h.t);
    }
  }

  // Nothing holds the family of a row that does not exist yet.
  lemma UnknownFamilyHasNoHolder(s: State, h: Holder, f: Jti)
    requires WellFormed(s) && f !in s.rows
    ensures !Holds(s, h, f)
  {
    if h.ActiveRow? && h.jti in s.births {
      assert BirthOk(s, h.jti);
    } else if h.Winner? && h.t in s.threads && s.threads[h.t].Won? && s.threads[h.t].token in s.births {
      assert BirthOk(s, s.threads[h.t].token);
    }
  }

  lemma BeforeIsInjective(s: State, e: Event, g: Holder, h: Holder, f: Jti)
    requires WellFormed(s) && Holds(Step(s, e), g, f) && Holds(Step(s, e), h, f)
    requires Before(s, e, g) == Before(s, e, h)
    ensures g == h
  {
  }

  lemma StepKeepsOneHolder(s: State, e: Event)
    requires WellFormed(s) && OneHolder(s)
    ensures OneHolder(Step(s, e))
  {
    forall g, h, f | Holds(Step(s, e), g, f) && Holds(Step(s, e), h, f)
      ensures g == h
    {
      HolderComesFrom(s, e, g, f);
      HolderComesFrom(s, e, h, f);
      if e.Login? && e.jti == f && e.jti !in s.rows {
        UnknownFamilyHasNoHolder(s, Before(s, e, g), f);
        UnknownFamilyHasNoHolder(s, Before(s, e, h), f);
      } else {
        BeforeIsInjective(s, e, g, h, f);
      }
    }
  }

  // ---------------------------------------------------------------- one successor per token

  lemma ChildComesFrom(s: State, e: Event, child: Jti, token: Jti)
    requires WellFormed(s) && IsChild(Step(s, e), child, token)
    ensures IsChild(s, child, token) ||
            (e.Insert? && e.jti == child && e.jti !in s.rows && e.t in s.threads && s.threads[e.t].Won? &&
             s.threads[e.t].token == token && e.t !in Step(s, e).threads)
  {
  }

  lemma WinnerComesFrom(s: State, e: Event, t: ThreadId)
    requires t in Step(s, e).threads && Step(s, e).threads[t].Won?
    ensures t in s.threads && s.threads[t].token == Step(s, e).threads[t].token
    ensures s.threads[t].Won? ||
            (s.threads[t].Approved? && s.threads[t].token in s.rows && s.rows[s.threads[t].token].Active())
  {
  }

  lemma ParentIsSpent(s: State, child: Jti, token: Jti)
    requires WellFormed(s) && IsChild(s, child, token)
    ensures token in s.rows && !s.rows[token].Active()
  {
    assert BirthOk(s, child);
  }

  lemma WinnersDiffer(s: State, t: ThreadId, u: ThreadId)
    requires WellFormed(s) && OneHolder(s)
    requires t in s.threads && s.threads[t].Won? && u in s.threads && s.threads[u].Won?
    requires s.threads[t].token == s.threads[u].token
    ensures t == u
  {
    assert CallOk(s, t);
    var f := s.births[s.threads[t].token].family;
    assert Holds(s, Winner(t), f) && Holds(s, Winner(u), f);
  }

  lemma StepKeepsOneSuccessor(s: State, e: Event)
    requires Inv(s)
    ensures OneSuccessor(Step(s, e))
  {
    var s' := Step(s, e);
    if e.Insert? && e.t in s.threads {
      assert CallOk(s, e.t);
    }
    forall i, j, p | IsChild(s', i, p) && IsChild(s', j, p)
      ensures i == j
    {
      ChildComesFrom(s, e, i, p);
      ChildComesFrom(s, e, j, p);
    }
    forall t, j | t in s'.threads && s'.threads[t].Won?
      ensures !IsChild(s', j, s'.threads[t].token)
    {
      WinnerComesFrom(s, e, t);
      var p := s'.threads[t].token;
      if IsChild(s', j, p) {
        ChildComesFrom(s, e, j, p);
        if IsChild(s, j, p) {
          ParentIsSpent(s, j, p);
        } else if s.threads[t].Won? {
          WinnersDiffer(s, t, e.t);
        }
      }
    }
  }

  lemma StepKeepsInv(s: State, e: Event)
    requires Inv(s)
    ensures Inv(Step(s, e))
  {
    StepKeepsWellFormed(s, e);
    StepKeepsOneHolder(s, e);
    StepKeepsOneSuccessor(s, e);
  }

  lemma {:induction false} ExecKeepsInv(s: State, events: seq<Event>)
    requires Inv(s)
    ensures Inv(Exec(s, events))
    decreases |events|
  {
    if events != [] {
      StepKeepsInv(s, events[0]);
      ExecKeepsInv(Step(s, events[0]), events[1..]);
    }
  }

  lemma AtMostOne<T>(xs: set<T>)
    requires forall x, y :: x in xs && y in xs ==> x == y
    ensures |xs| <= 1
  {
    if xs != {} {
      var x :| x in xs;
      assert xs == {x};
    }
  }

  // Every interleaving: a login's family has at most one active row or pending winner,
  // and every refresh token is exchanged for at most one new token.
  lemma FamilyHasOneHolder(events: seq<Event>, family: Jti)
    ensures var s := Exec(INIT, events); |ActiveRows(s, family)| + |Winners(s, family)| <= 1
  {
    var s := Exec(INIT, events);
    ExecKeepsInv(INIT, events);
    var rows, wins := ActiveRows(s, family), Winners(s, family);
    forall i, j | i in rows && j in rows ensures i == j {
      assert Holds(s, ActiveRow(i), family) && Holds(s, ActiveRow(j), family);
    }
    forall i, j | i in wins && j in wins ensures i == j {
      assert Holds(s, Winner(i), family) && Holds(s, Winner(j), family);
    }
    AtMostOne(rows);
    AtMostOne(wins);
    if rows != {} {
      var i :| i in rows;
      assert Holds(s, ActiveRow(i), family);
      forall t ensures t !in wins {
        assert t in wins ==> Holds(s, Winner(t), family);
      }
    }
  }

  lemma TokenExchangedAtMostOnce(events: seq<Event>, token: Jti)
    ensures |Children(Exec(INIT, events), token)| <= 1
  {
    ExecKeepsInv(INIT, events);
    var s := Exec(INIT, events);
    forall i, j | i in Children(s, token) && j in Children(s, token) ensures i == j {
      assert IsChild(s, i, token) && IsChild(s, j, token);
    }
    AtMostOne(Children(s, token));
  }

  // Rotation conserves the right: neither winning nor inserting creates or loses one.
  lemma ConsumeConservesHolders(s: State, t: ThreadId, now: Time, family: Jti)
    requires WellFormed(s) && t in s.threads && s.threads[t].Approved?
    requires s.threads[t].token in s.rows && s.rows[s.threads[t].token].Active()
    ensures var s' := Step(s, Consume(t, now));
      |ActiveRows(s', family)| + |Winners(s', family)| == |ActiveRows(s, family)| + |Winners(s, family)|
  {
    var s' := Step(s, Consume(t, now));
    var token := s.threads[t].token;
    ConsumedRow(s, t, now, family);
    ConsumedCall(s, t, now, family);
    if s.births[token].family == family {
      assert Winners(s', family) == Winners(s, family) + {t};
    }
  }

  lemma ConsumedRow(s: State, t: ThreadId, now: Time, family: Jti)
    requires WellFormed(s) && t in s.threads && s.threads[t].Approved?
    requires s.threads[t].token in s.rows && s.rows[s.threads[t].token].Active()
    ensures ActiveRows(Step(s, Consume(t, now)), family) == ActiveRows(s, family) - {s.threads[t].token}
    ensures s.threads[t].token in s.births
    ensures s.threads[t].token in ActiveRows(s, family) <==> s.births[s.threads[t].token].family == family
  {
    var s', token := Step(s, Consume(t, now)), s.threads[t].token;
    assert s'.births == s.births;
    assert forall j :: j in s.rows && j != token ==> s'.rows[j] == s.rows[j];
  }

  lemma ConsumedCall(s: State, t: ThreadId, now: Time, family: Jti)
    requires WellFormed(s) && t in s.threads && s.threads[t].Approved?
    requires s.threads[t].token in s.rows && s.rows[s.threads[t].token].Active() && s.threads[t].token in s.births
    ensures t !in Winners(s, family)
    ensures Winners(Step(s, Consume(t, now)), family) ==
            Winners(s, family) + if s.births[s.threads[t].token].family == family then {t} else {}
  {
  }

  lemma InsertConservesHolders(s: State, t: ThreadId, jti: Jti, expireAt: Time, family: Jti)
    requires WellFormed(s) && t in s.threads && s.threads[t].Won? && jti !in s.rows
    ensures var s' := Step(s, Insert(t, jti, expireAt));
      |ActiveRows(s', family)| + |Winners(s', family)| == |ActiveRows(s, family)| + |Winners(s, family)|
  {
    assert CallOk(s, t);
    var s' := Step(s, Insert(t, jti, expireAt));
    var mine := s.births[s.threads[t].token].family == family;
    InsertedRow(s, t, jti, expireAt, family);
    assert ActiveRows(s', family) == if mine then ActiveRows(s, family) + {jti} else ActiveRows(s, family);
    assert Winners(s', family) == Winners(s, family) - {t};
    assert t in Winners(s, family) <==> mine;
    assert jti !in ActiveRows(s, family);
  }

  lemma InsertedRow(s: State, t: ThreadId, jti: Jti, expireAt: Time, family: Jti)
    requires WellFormed(s) && t in s.threads && s.threads[t].Won? && jti !in s.rows
    requires s.threads[t].token in s.births
    ensures var s' := Step(s, Insert(t, jti, expireAt));
      && (forall j :: j in s'.rows && Holds(s', ActiveRow(j), family) <==>
            (j in s.rows && Holds(s, ActiveRow(j), family)) ||
            (j == jti && s.births[s.threads[t].token].family == family))
      && (forall u :: u in s'.threads && Holds(s', Winner(u), family) <==>
            u in s.threads && Holds(s, Winner(u), family) && u != t)
  {
    var s' := Step(s, Insert(t, jti, expireAt));
    forall u | u in s.threads && s.threads[u].Won? ensures s.threads[u].token in s.rows { assert CallOk(s, u); }
  }

  // ---------------------------------------------------------------- presenting a revoked token

  // The rotations leading to path[0], newest first.
  ghost predicate Rotations(s: State, path: seq<Jti>)
  {
    path != [] && forall i :: 0 <= i < |path| - 1 ==> IsChild(s, path[i], path[i + 1])
  }

  // Created by a login after s0, or by a refresh that had won its compare-and-set in s0.
  ghost predicate StartsAfter(s0: State, s: State, root: Jti)
  {
    && root in s.births
    && (s.births[root].parent.None? ||
        exists t :: t in s0.threads && s0.threads[t].Won? && IsChild(s, root, s0.threads[t].token))
  }

  ghost predicate TracesBack(s0: State, s: State, path: seq<Jti>, jti: Jti)
  {
    && Rotations(s, path) && path[0] == jti && StartsAfter(s0, s, path[|path| - 1])
    && (forall i :: 0 <= i < |path| ==> path[i] !in s0.rows)
  }

  ghost predicate BornAfter(s0: State, s: State, jti: Jti)
  {
    exists path :: TracesBack(s0, s, path, jti)
  }

  ghost predicate RowContained(s0: State, s: State, user: string, client: string, j: Jti)
  {
    j in s.rows && s.rows[j].Active() && s.rows[j].user == user && s.rows[j].client == client ==> BornAfter(s0, s, j)
  }

  ghost predicate CallContained(s0: State, s: State, user: string, client: string, t: ThreadId)
  {
    t in s.threads && s.threads[t].Won? && s.threads[t].user == user && s.threads[t].client == client ==>
      (t in s0.threads && s0.threads[t] == s.threads[t]) || BornAfter(s0, s, s.threads[t].token)
  }

  ghost predicate Contained(s0: State, s: State, user: string, client: string)
  {
    && s0.rows.Keys <= s.rows.Keys
    && (forall j :: RowContained(s0, s, user, client, j))
    && (forall t :: CallContained(s0, s, user, client, t))
  }

  lemma BornAfterStays(s0: State, s: State, e: Event, jti: Jti)
    requires WellFormed(s) && BornAfter(s0, s, jti)
    ensures BornAfter(s0, Step(s, e), jti)
  {
    var path :| TracesBack(s0, s, path, jti);
    forall i | 0 <= i < |path| ensures RowKept(s, Step(s, e), path[i]) { StepKeepsRow(s, e, path[i]); }
    assert TracesBack(s0, Step(s, e), path, jti);
  }

  lemma FirstOfTheNew(s0: State, s: State, jti: Jti)
    requires jti !in s0.rows && StartsAfter(s0, s, jti)
    ensures BornAfter(s0, s, jti)
  {
    assert TracesBack(s0, s, [jti], jti);
  }

  lemma SuccessorOfTheNew(s0: State, s: State, jti: Jti, token: Jti)
    requires BornAfter(s0, s, token) && IsChild(s, jti, token) && jti !in s0.rows
    ensures BornAfter(s0, s, jti)
  {
    var path :| TracesBack(s0, s, path, token);
    assert TracesBack(s0, s, [jti] + path, jti);
  }

  lemma StepKeepsRowContained(s0: State, s: State, e: Event, user: string, client: string, j: Jti)
    requires WellFormed(s) && Contained(s0, s, user, client)
    ensures RowContained(s0, Step(s, e), user, client, j)
  {
    var s' := Step(s, e);
    StepKeepsRow(s, e, j);
    if j in s'.rows && s'.rows[j].Active() && s'.rows[j].user == user && s'.rows[j].client == client {
      if j in s.rows {
        assert RowContained(s0, s, user, client, j);
        BornAfterStays(s0, s, e, j);
      } else if e.Login? {
        FirstOfTheNew(s0, s', j);
      } else {
        var token := s.threads[e.t].token;
        assert IsChild(s', j, token);
        assert CallContained(s0, s, user, client, e.t);
        if BornAfter(s0, s, token) {
          BornAfterStays(s0, s, e, token);
          SuccessorOfTheNew(s0, s', j, token);
        } else {
          FirstOfTheNew(s0, s', j);
        }
      }
    }
  }

  lemma StepKeepsCallContained(s0: State, s: State, e: Event, user: string, client: string, t: ThreadId)
    requires WellFormed(s) && Contained(s0, s, user, client)
    ensures CallContained(s0, Step(s, e), user, client, t)
  {
    var s' := Step(s, e);
    if t in s'.threads && s'.threads[t].Won? && s'.threads[t].user == user && s'.threads[t].client == client {
      WinnerComesFrom(s, e, t);
      var token := s'.threads[t].token;
      assert CallOk(s, t);
      assert CallContained(s0, s, user, client, t) && RowContained(s0, s, user, client, token);
      if BornAfter(s0, s, token) {
        BornAfterStays(s0, s, e, token);
      }
    }
  }

  lemma {:induction false} ExecKeepsContained(s0: State, s: State, events: seq<Event>, user: string, client: string)
    requires WellFormed(s) && Contained(s0, s, user, client)
    ensures Contained(s0, Exec(s, events), user, client)
    decreases |events|
  {
    if events != [] {
      var e := events[0];
      forall j ensures RowContained(s0, Step(s, e), user, client, j) {
        StepKeepsRowContained(s0, s, e, user, client, j);
      }
      forall t ensures CallContained(s0, Step(s, e), user, client, t) {
        StepKeepsCallContained(s0, s, e, user, client, t);
      }
      forall j | j in s.rows ensures j in Step(s, e).rows { StepKeepsRow(s, e, j); }
      StepKeepsWellFormed(s, e);
      ExecKeepsContained(s0, Step(s, e), events[1..], user, client);
    }
  }

  // Once a call that read a revoked token has run its revocation, every token of that
  // user and client still active later comes, rotation by rotation, from a login made
  // afterwards or from a refresh that had already won.
  lemma ReuseIsContained(before: seq<Event>, t: ThreadId, now: Time, later: seq<Event>, jti: Jti)
    requires t in Exec(INIT, before).threads && Exec(INIT, before).threads[t].Reuse?
    ensures var s := Exec(INIT, before);
      var s0 := Step(s, ReuseRevoke(t, now));
      RowContained(s0, Exec(s0, later), s.threads[t].user, s.threads[t].client, jti)
  {
    var s := Exec(INIT, before);
    ExecKeepsInv(INIT, before);
    var e := ReuseRevoke(t, now);
    var s0 := Step(s, e);
    StepKeepsWellFormed(s, e);
    ExecKeepsContained(s0, s0, later, s.threads[t].user, s.threads[t].client);
  }

  // The same holds from any bulk revocation on: logging out everywhere, disabling a user,
  // forcing a logout, changing a password, rotating an app's secret.
  lemma RevocationIsContained(before: seq<Event>, user: string, client: string, scope: Scope, now: Time,
                              later: seq<Event>, jti: Jti)
    requires scope == OfUser(user, client) || scope == OfUser(user, "") || scope == OfClient(client)
    ensures var s0 := Step(Exec(INIT, before), RevokeMany(scope, now));
      RowContained(s0, Exec(s0, later), user, client, jti)
  {
    var s := Exec(INIT, before);
    ExecKeepsInv(INIT, before);
    var e := RevokeMany(scope, now);
    var s0 := Step(s, e);
    StepKeepsWellFormed(s, e);
    ExecKeepsContained(s0, s0, later, user, client);
  }

  // With no other refresh in flight at that moment the rotations start at a later login.
  lemma SerialReuseIsContained(before: seq<Event>, t: ThreadId, now: Time, later: seq<Event>, jti: Jti)
    requires t in Exec(INIT, before).threads && Exec(INIT, before).threads[t].Reuse?
    requires Exec(INIT, before).threads.Keys == {t}
    ensures var s := Exec(INIT, before);
      var s0 := Step(s, ReuseRevoke(t, now));
      var s1 := Exec(s0, later);
      jti in s1.rows && s1.rows[jti].Active() &&
      s1.rows[jti].user == s.threads[t].user && s1.rows[jti].client == s.threads[t].client ==>
        exists path :: Rotations(s1, path) && path[0] == jti &&
          path[|path| - 1] in s1.births && s1.births[path[|path| - 1]].parent.None? &&
          (forall i :: 0 <= i < |path| ==> path[i] !in s.rows)
  {
    ReuseIsContained(before, t, now, later, jti);
    var s := Exec(INIT, before);
    var s0 := Step(s, ReuseRevoke(t, now));
    var s1 := Exec(s0, later);
    if BornAfter(s0, s1, jti) {
      var path :| TracesBack(s0, s1, path, jti);
      assert Rotations(s1, path);
    }
  }

  // ---------------------------------------------------------------- the serial call

  // The single call is the same five store operations with nothing in between.
  lemma SerialRefreshIsFiveSteps(s: State, unknown: set<string>, t: ThreadId, client: string, token: Jti, now: Time,
                                 newJti: Jti, newExpire: Time)
    requires unknown <= s.inactive && WellFormed(s) && t !in s.threads && newJti !in s.rows
    ensures var s' := Exec(s, [Present(t, token, client, now), ReuseRevoke(t, now), CheckUser(t),
                               Consume(t, now), Insert(t, newJti, newExpire)]);
      var r := RefreshSpec(s.rows, unknown, s.inactive, client, token, now, newJti, newExpire);
      s'.rows == r.rows && s'.threads == s.threads && s'.inactive == s.inactive &&
      (r.outcome.Ok? <==> IsChild(s', newJti, token))
  {
    var es := [Present(t, token, client, now), ReuseRevoke(t, now), CheckUser(t), Consume(t, now),
               Insert(t, newJti, newExpire)];
    ExecFive(s, es);
    var s1 := Step(s, es[0]);
    if t !in s1.threads {
      FinishedCallStays(s1, t, now, newJti, newExpire);
    } else if s1.threads[t].Reuse? {
      var s2 := Step(s1, es[1]);
      FinishedCallStays(s2, t, now, newJti, newExpire);
      assert s2.threads == s.threads;
    } else {
      FetchedCallFinishes(s, s1, t, now, newJti, newExpire);
    }
  }

  lemma ExecFive(s: State, es: seq<Event>)
    requires |es| == 5
    ensures Exec(s, es) == Step(Step(Step(Step(Step(s, es[0]), es[1]), es[2]), es[3]), es[4])
  {
    assert es[0..] == es && es[5..] == [];
    ExecFrom(s, es, 0);
    var s1 := Step(s, es[0]);
    ExecFrom(s1, es, 1);
    var s2 := Step(s1, es[1]);
    ExecFrom(s2, es, 2);
    var s3 := Step(s2, es[2]);
    ExecFrom(s3, es, 3);
    ExecFrom(Step(s3, es[3]), es, 4);
  }

  lemma ExecFrom(s: State, es: seq<Event>, i: nat)
    requires i < |es|
    ensures Exec(s, es[i..]) == Exec(Step(s, es[i]), es[i + 1..])
  {
    assert es[i..][1..] == es[i + 1..];
  }

  lemma FinishedCallStays(s: State, t: ThreadId, now: Time, newJti: Jti, newExpire: Time)
    requires t !in s.threads
    ensures Step(s, ReuseRevoke(t, now)) == s && Step(s, CheckUser(t)) == s && Step(s, Consume(t, now)) == s
    ensures Step(s, Insert(t, newJti, newExpire)) == s
  {
  }

  lemma FetchedCallFinishes(s: State, s1: State, t: ThreadId, now: Time, newJti: Jti, newExpire: Time)
    requires WellFormed(s) && t !in s.threads && newJti !in s.rows
    requires t in s1.threads && s1.threads[t].Fetched?
    requires s1 == Move(s, t, s1.threads[t])
    requires s1.threads[t].token in s.rows && s.rows[s1.threads[t].token].Active()
    ensures var p := s1.threads[t];
      var s' := Step(Step(Step(Step(s1, ReuseRevoke(t, now)), CheckUser(t)), Consume(t, now)),
                     Insert(t, newJti, newExpire));
      && s'.threads == s.threads && s'.inactive == s.inactive
      && (p.user in s.inactive ==> s' == s)
      && (p.user !in s.inactive ==>
            s'.rows == Revoked(s.rows, p.token, now)[newJti := Row(p.user, p.client, p.device, newExpire, None)] &&
            IsChild(s', newJti, p.token))
  {
    var p := s1.threads[t];
    var s3 := Step(s1, CheckUser(t));
    if p.user in s.inactive {
      assert s3.threads == s.threads;
      FinishedCallStays(s3, t, now, newJti, newExpire);
    } else {
      assert s3 == Move(s, t, Approved(p.token, p.user, p.client, p.device));
      var s4 := Step(s3, Consume(t, now));
      var s5 := Step(s4, Insert(t, newJti, newExpire));
      assert s5.threads == s.threads;
    }
  }

  // Exactly when a refresh succeeds, and that the successor is the only thing it makes active.
  lemma RefreshSucceedsIff(rows: Table, unknown: set<string>, inactive: set<string>, client: string, token: Jti,
                           now: Time, newJti: Jti, newExpire: Time)
    requires newJti !in rows
    ensures var r := RefreshSpec(rows, unknown, inactive, client, token, now, newJti, newExpire);
      && (r.outcome.Ok? <==>
            token in rows && rows[token].client == client && rows[token].Active() &&
            now <= rows[token].expireAt && rows[token].user !in unknown + inactive)
      && (forall j :: j in r.rows && r.rows[j].Active() ==>
            if j == newJti then r.outcome == Ok(newJti) && r.rows[j].user == rows[token].user
            else j in rows && rows[j].Active() && !(r.outcome.Ok? && j == token))
  {
  }

  // Presenting an exchanged token again is refused and leaves the user nothing active in that app.
  lemma ReplayRevokesEverything(rows: Table, unknown: set<string>, inactive: set<string>, client: string, token: Jti,
                                now: Time, newJti: Jti, newExpire: Time, again: Time, otherJti: Jti, otherExpire: Time)
    requires newJti !in rows && otherJti !in rows && otherJti != newJti
    requires RefreshSpec(rows, unknown, inactive, client, token, now, newJti, newExpire).outcome.Ok?
    ensures var once := RefreshSpec(rows, unknown, inactive, client, token, now, newJti, newExpire).rows;
      var r := RefreshSpec(once, unknown, inactive, client, token, again, otherJti, otherExpire);
      && once[newJti].Active()
      && r.outcome == Err(InvalidCred)
      && (forall j :: j in r.rows && r.rows[j].user == rows[token].user && r.rows[j].client == client ==>
            !r.rows[j].Active())
      && (forall j :: j in once && (once[j].user != rows[token].user || once[j].client != client) && client != "" ==>
            r.rows[j] == once[j])
  {
  }
}
