/**
 * Who owns an identity: login registration, bind, unbind and account merge over
 * one ownership table (its unique index makes it a map).
 */
module Accounts {
  import opened Common
  import Sessions

  datatype Identity = Identity(tenant: string, kind: string, provider: string, identifier: string)

  const OAUTH := "oauth"

  datatype User = User(active: bool, displayName: string)

  // An empty hash is no password.
  datatype Credential = Credential(passwordHash: string, updatedAt: Option<Time>, mfaSecret: string,
                                   mfaEnabled: bool, backupHashes: seq<string>)

  datatype State = State(users: map<string, User>, owners: map<Identity, string>, oauth: map<(string, string), string>,
                         passkeys: map<string, string>, creds: map<string, Credential>, sessions: Sessions.Table)

  const INIT := State(map[], map[], map[], map[], map[], map[])

  function Reassigned<K>(m: map<K, string>, from_: string, to: string): map<K, string>
  {
    map k | k in m :: if m[k] == from_ then to else m[k]
  }

  // What a verified login method says; a password login already knows the user.
  datatype Principal = Principal(kind: string, provider: string, identifier: string, name: string, user: string)

  function IdentityOf(tenant: string, p: Principal): Identity
  {
    Identity(tenant, p.kind, p.provider, p.identifier)
  }

  function Attached(s: State, id: Identity, user: string): State
  {
    s.(owners := s.owners[id := user],
       oauth := if id.kind == OAUTH then s.oauth[(id.provider, id.identifier) := user] else s.oauth)
  }

  function Registered(s: State, id: Identity, user: string, name: string): State
  {
    Attached(s.(users := s.users[user := User(true, name)]), id, user)
  }

  function InheritedCreds(creds: map<string, Credential>, target: string, source: string): map<string, Credential>
  {
    if source !in creds then creds
    else
      var src := creds[source];
      var given :=
        if target !in creds then creds[target := src]
        else if creds[target].passwordHash == "" && src.passwordHash != "" then
          creds[target := creds[target].(passwordHash := src.passwordHash, updatedAt := src.updatedAt)]
        else creds;
      given - {source}
  }

  function Merged(s: State, target: string, source: string, now: Time): Result<State>
  {
    if target == source then Err(BadRequest)
    else if target !in s.users || source !in s.users then Err(NotFound)
    else
      Ok(State(s.users[source := User(false, s.users[source].displayName + " (merged)")],
               Reassigned(s.owners, source, target), Reassigned(s.oauth, source, target),
               Reassigned(s.passkeys, source, target), InheritedCreds(s.creds, target, source),
               Sessions.RevokedScope(s.sessions, Sessions.OfUser(source, ""), now)))
  }

  function Owned(owners: map<Identity, string>, user: string): set<Identity>
  {
    set id | id in owners && owners[id] == user
  }

  // Which identities an unbind request names; an oauth request may leave the value open.
  predicate Names(id: Identity, kind: string, provider: string, value: string)
  {
    id.kind == kind && (kind == OAUTH ==> id.provider == provider) && (value != "" ==> id.identifier == value)
  }

  class Directory {
    var users: map<string, User>
    var owners: map<Identity, string>
    var oauth: map<(string, string), string>
    var passkeys: map<string, string>
    var creds: map<string, Credential>
    var sessions: Sessions.Table

    function View(): State
      reads this
    {
      State(users, owners, oauth, passkeys, creds, sessions)
    }

    constructor ()
      ensures View() == INIT
    {
      users, owners, oauth, passkeys, creds, sessions := map[], map[], map[], map[], map[], map[];
    }

    // Finds or registers the user of a verified login; true for a new user.
    method ResolveUser(tenant: string, p: Principal, autoRegister: bool, newUser: string)
      returns (r: Result<(string, bool)>)
      requires newUser !in users
      modifies this
      ensures var id := IdentityOf(tenant, p);
        var was := old(View());
        var known := if p.user != "" then Some(p.user) else Lookup(was.owners, id);
        && (known.Some? && known.value in was.users && was.users[known.value].active ==>
              r == Ok((known.value, false)) && View() == was)
        && (known.Some? && known.value in was.users && !was.users[known.value].active ==>
              r == Err(Forbidden) && View() == was)
        && (known.Some? && known.value !in was.users ==> r.Err? && View() == was)
        && (known.None? && !autoRegister ==> r == Err(PendingApproval) && View() == was)
        && (known.None? && autoRegister ==>
              && users == was.users[newUser := User(true, p.name)] && owners == was.owners[id := newUser]
              && creds == was.creds && passkeys == was.passkeys && sessions == was.sessions)
        && (known.None? && autoRegister ==>
              r == Ok((newUser, true)) && View() == Step(was, Register(id, newUser, p.name)))
    {
      if p.user != "" {
        if p.user !in users {
          return Err(InvalidCred);
        }
        if !users[p.user].active {
          return Err(Forbidden);
        }
        return Ok((p.user, false));
      }
      var id := IdentityOf(tenant, p);
      if id in owners {
        var owner := owners[id];
        if owner !in users {
          return Err(Internal);
        }
        if !users[owner].active {
          return Err(Forbidden);
        }
        return Ok((owner, false));
      }
      if !autoRegister {
        return Err(PendingApproval);
      }
      users := users[newUser := User(true, p.name)];
      Attach(id, newUser);
      r := Ok((newUser, true));
    }

    method Attach(id: Identity, user: string)
      modifies this
      ensures owners == old(owners)[id := user]
      ensures oauth == if id.kind == OAUTH then old(oauth)[(id.provider, id.identifier) := user] else old(oauth)
      ensures View() == Attached(old(View()), id, user)
    {
      owners := owners[id := user];
      if id.kind == OAUTH {
        oauth := oauth[(id.provider, id.identifier) := user];
      }
    }

    method Bind(user: string, id: Identity) returns (r: Result<()>)
      modifies this
      ensures id !in old(owners) ==> r.Ok? && View() == Attached(old(View()), id, user)
      ensures id !in old(owners) ==> owners == old(owners)[id := user] && users == old(users) && creds == old(creds)
      ensures user in old(users) ==> View() == Step(old(View()), Event.Bind(user, id))
      ensures id in old(owners) ==> View() == old(View())
      ensures id in old(owners) ==> r == if old(owners)[id] == user then Ok(()) else Err(Conflict)
    {
      if id in owners {
        if owners[id] == user {
          return Ok(());
        }
        return Err(Conflict);
      }
      Attach(id, user);
      r := Ok(());
    }

    // The user's identities, in the order the store happens to give.
    method ListByUserID(user: string) returns (list: seq<Identity>)
      ensures forall id :: id in list <==> id in Owned(owners, user)
      ensures |list| == |Owned(owners, user)|
    {
      list := [];
      var rest := Owned(owners, user);
      ghost var all := rest;
      while rest != {}
        invariant rest <= all && |list| + |rest| == |all|
        invariant forall id :: id in list <==> id in all && id !in rest
        decreases |rest|
      {
        var id :| id in rest;
        list := list + [id];
        rest := rest - {id};
      }
    }

    method Unbind(user: string, kind: string, provider: string, value: string, steppedUp: bool)
      returns (r: Result<Identity>)
      modifies this`owners
      ensures r.Ok? ==> r.value in Owned(old(owners), user) && Names(r.value, kind, provider, value)
      ensures r.Ok? ==> r.value in old(owners) && old(owners)[r.value] == user && r.value.kind == kind &&
                        (kind == "oauth" ==> r.value.provider == provider) &&
                        (value != "" ==> r.value.identifier == value)
      ensures r.Err? ==> r.error == if !steppedUp then InvalidCred
                                    else if (if kind == OAUTH then provider == "" else value == "") ||
                                            |Owned(old(owners), user)| <= 1 then BadRequest
                                    else NotFound
      ensures View() == if r.Ok? then Step(old(View()), Event.Unbind(r.value)) else old(View())
      ensures owners == if r.Ok? then old(owners) - {r.value} else old(owners)
      ensures r.Ok? <==> (steppedUp && (kind == OAUTH || value != "") && (kind == OAUTH ==> provider != "") &&
                          |Owned(old(owners), user)| > 1 &&
                          exists id :: id in Owned(old(owners), user) && Names(id, kind, provider, value))
    {
      if !steppedUp {
        return Err(InvalidCred);
      }
      if kind != OAUTH && value == "" {
        return Err(BadRequest);
      }
      if kind == OAUTH && provider == "" {
        return Err(BadRequest);
      }
      var list := ListByUserID(user);
      if |list| <= 1 {
        return Err(BadRequest);
      }
      var i := 0;
      while i < |list|
        invariant 0 <= i <= |list|
        invariant forall j :: 0 <= j < i ==> !Names(list[j], kind, provider, value)
      {
        var id := list[i];
        if id.kind == kind && (kind != OAUTH || id.provider == provider) && (value == "" || id.identifier == value) {
          assert id in list;
          owners := owners - {id};
          return Ok(id);
        }
        i := i + 1;
      }
      r := Err(NotFound);
    }

    // The target's second factor stays its own; the source's comes along only with its whole row.
    method InheritCredential(target: string, source: string)
      requires target != source
      modifies this`creds
      ensures source !in creds
      ensures forall u :: u != source && u != target ==> Lookup(creds, u) == Lookup(old(creds), u)
      ensures Lookup(creds, target) ==
              if target !in old(creds) then Lookup(old(creds), source)
              else if source in old(creds) && old(creds)[target].passwordHash == "" &&
                      old(creds)[source].passwordHash != ""
              then Some(Credential(old(creds)[source].passwordHash, old(creds)[source].updatedAt,
                                   old(creds)[target].mfaSecret, old(creds)[target].mfaEnabled,
                                   old(creds)[target].backupHashes))
              else Some(old(creds)[target])
      ensures creds == InheritedCreds(old(creds), target, source)
    {
      if source in creds {
        var src := creds[source];
        if target !in creds {
          creds := creds[target := src];
        } else if creds[target].passwordHash == "" && src.passwordHash != "" {
          creds := creds[target := creds[target].(passwordHash := src.passwordHash, updatedAt := src.updatedAt)];
        }
        creds := creds - {source};
      }
    }

    method MergeUsers(target: string, source: string, now: Time) returns (r: Result<()>)
      modifies this
      ensures match Merged(old(View()), target, source, now)
        case Ok(s) => r.Ok? && View() == s
        case Err(e) => r == Err(e) && View() == old(View())
      ensures View() == Step(old(View()), Merge(target, source, now))
      ensures r.Err? <==> target == source || target !in old(users) || source !in old(users)
      ensures r.Err? ==> r.error == if target == source then BadRequest else NotFound
      ensures r.Ok? ==> users == old(users)[source := User(false, old(users)[source].displayName + " (merged)")]
    {
      if target == source {
        return Err(BadRequest);
      }
      if target !in users {
        return Err(NotFound);
      }
      if source !in users {
        return Err(NotFound);
      }
      owners := map id | id in owners :: if owners[id] == source then target else owners[id];
      oauth := map k | k in oauth :: if oauth[k] == source then target else oauth[k];
      passkeys := map k | k in passkeys :: if passkeys[k] == source then target else passkeys[k];
      InheritCredential(target, source);
      sessions := Sessions.RevokedScope(sessions, Sessions.OfUser(source, ""), now);
      users := users[source := User(false, users[source].displayName + " (merged)")];
      r := Ok(());
    }
  }

  // ---------------------------------------------------------------- one merge

  function PasswordOf(s: State, user: string): string
  {
    if user in s.creds then s.creds[user].passwordHash else ""
  }

  // Identities are conserved, the source is left with nothing and disabled, everyone else
  // is untouched, and the target's password wins over the source's.
  lemma MergeConserves(s: State, target: string, source: string, now: Time)
    requires Merged(s, target, source, now).Ok?
    ensures var s' := Merged(s, target, source, now).value;
      && s'.owners.Keys == s.owners.Keys && s'.oauth.Keys == s.oauth.Keys && s'.passkeys.Keys == s.passkeys.Keys
      && Owned(s'.owners, target) == Owned(s.owners, target) + Owned(s.owners, source)
      && Owned(s'.owners, source) == {} && source !in s'.creds && !s'.users[source].active
      && PasswordOf(s', target) ==
           (if PasswordOf(s, target) != "" then PasswordOf(s, target) else PasswordOf(s, source))
      && s'.users[target] == s.users[target]
      && (forall j :: j in s'.sessions && s'.sessions[j].user == source ==> !s'.sessions[j].Active())
    ensures var s' := Merged(s, target, source, now).value;
      forall u :: u != target && u != source ==>
        && Owned(s'.owners, u) == Owned(s.owners, u)
        && Lookup(s'.users, u) == Lookup(s.users, u) && Lookup(s'.creds, u) == Lookup(s.creds, u)
        && (forall j :: j in s.sessions && s.sessions[j].user == u ==>
              j in s'.sessions && s'.sessions[j] == s.sessions[j])
  {
  }

  ghost predicate Follows<K(!new)>(m: map<K, string>, m': map<K, string>, target: string, source: string)
  {
    && m'.Keys == m.Keys
    && source !in m'.Values
    && forall k :: k in m ==> m'[k] == m[k] || (m[k] == source && m'[k] == target)
  }

  // Nothing that named the source names it any longer, and no other link moves.
  lemma MergeMovesLinks(s: State, target: string, source: string, now: Time)
    requires Merged(s, target, source, now).Ok?
    ensures var s' := Merged(s, target, source, now).value;
      && Follows(s.owners, s'.owners, target, source)
      && Follows(s.oauth, s'.oauth, target, source)
      && Follows(s.passkeys, s'.passkeys, target, source)
  {
  }

  predicate ActiveUser(s: State, user: string)
  {
    user in s.users && s.users[user].active
  }

  // A password login: the identity's owner must hold that password and not be disabled.
  predicate PasswordLogin(s: State, id: Identity, hash: string)
  {
    hash != "" && id in s.owners && PasswordOf(s, s.owners[id]) == hash && ActiveUser(s, s.owners[id])
  }

  // After a merge the source's identities log in to the target with the password that survived
  // if the target is active, and by no password at all if it is not.
  lemma LoginThroughMerge(s: State, target: string, source: string, now: Time, id: Identity, hash: string)
    requires Merged(s, target, source, now).Ok? && id in s.owners && s.owners[id] == source
    ensures var s' := Merged(s, target, source, now).value;
      && s'.owners[id] == target
      && (PasswordLogin(s', id, hash) <==>
            s.users[target].active && hash != "" &&
            hash == if PasswordOf(s, target) != "" then PasswordOf(s, target) else PasswordOf(s, source))
  {
    MergeConserves(s, target, source, now);
  }

  // ---------------------------------------------------------------- serial runs

  datatype Event =
    | Register(id: Identity, user: string, name: string)
    | Bind(user: string, id: Identity)
    | Unbind(id: Identity)
    | Merge(target: string, source: string, now: Time)

  // Each successful operation; one that the service refuses changes nothing.
  function Step(s: State, e: Event): State
  {
    match e
    case Register(id, user, name) =>
      if id in s.owners || user in s.users then s else Registered(s, id, user, name)
    case Bind(user, id) =>
      if id in s.owners || user !in s.users then s else Attached(s, id, user)
    case Unbind(id) =>
      if id in s.owners && |Owned(s.owners, s.owners[id])| > 1 then s.(owners := s.owners - {id}) else s
    case Merge(target, source, now) =>
      (match Merged(s, target, source, now) case Ok(s') => s' case Err(_) => s)
  }

  function Exec(s: State, es: seq<Event>): State
    decreases |es|
  {
    if es == [] then s else Exec(Step(s, es[0]), es[1..])
  }

  predicate Merges(s: State, e: Event)
  {
    e.Merge? && Merged(s, e.target, e.source, e.now).Ok?
  }

  function Follow(user: string, s: State, e: Event): string
  {
    if Merges(s, e) && user == e.source then e.target else user
  }

  // A user followed through the merges of a run, in order.
  function Push(user: string, s: State, es: seq<Event>): string
    decreases |es|
  {
    if es == [] then user
    else Push(Follow(user, s, es[0]), Step(s, es[0]), es[1..])
  }

  // The sources of the merges of a run.
  function MergedAway(s: State, es: seq<Event>): set<string>
    decreases |es|
  {
    if es == [] then {}
    else (if Merges(s, es[0]) then {es[0].source} else {}) + MergedAway(Step(s, es[0]), es[1..])
  }

  // One operation moves an identity only from a merge's source to its target, or unbinds it.
  lemma OwnerStep(s: State, e: Event, id: Identity)
    requires id in s.owners && e != Event.Unbind(id)
    ensures id in Step(s, e).owners && Step(s, e).owners[id] == Follow(s.owners[id], s, e)
  {
  }

  // Until it is unbound, an identity's owner is its owner now pushed through the merges.
  lemma {:induction false} OwnerIsPushed(s: State, es: seq<Event>, id: Identity)
    requires id in s.owners && Event.Unbind(id) !in es
    ensures id in Exec(s, es).owners && Exec(s, es).owners[id] == Push(s.owners[id], s, es)
    decreases |es|
  {
    if es != [] {
      assert es[0] in es;
      OwnerStep(s, es[0], id);
      OwnerIsPushed(Step(s, es[0]), es[1..], id);
    }
  }

  // From its registration or bind on, that is its first owner pushed through every later merge.
  lemma FirstOwnerIsPushed(s: State, e: Event, es: seq<Event>, id: Identity, user: string)
    requires id !in s.owners && Event.Unbind(id) !in es
    requires (e.Register? && e.id == id && e.user == user && user !in s.users) ||
             (e.Bind? && e.id == id && e.user == user && user in s.users)
    ensures id in Exec(Step(s, e), es).owners
    ensures Exec(Step(s, e), es).owners[id] == Push(user, Step(s, e), es)
  {
    OwnerIsPushed(Step(s, e), es, id);
  }

  // Merging never splits a user: identities with one owner keep one owner until one is unbound.
  lemma CommonOwnerIsKept(s: State, es: seq<Event>, a: Identity, b: Identity)
    requires a in s.owners && b in s.owners && s.owners[a] == s.owners[b]
    requires Event.Unbind(a) !in es && Event.Unbind(b) !in es
    ensures var s' := Exec(s, es); a in s'.owners && b in s'.owners && s'.owners[a] == s'.owners[b]
  {
    OwnerIsPushed(s, es, a);
    OwnerIsPushed(s, es, b);
  }

  ghost predicate OwnersExist(s: State)
  {
    forall id :: id in s.owners ==> s.owners[id] in s.users
  }

  // Every user outside `gone` owns something.
  ghost predicate Reachable(s: State, gone: set<string>)
  {
    forall u :: u in s.users && u !in gone ==> Owned(s.owners, u) != {}
  }

  lemma StepKeepsOwner(s: State, e: Event, u: string)
    requires u in Step(s, e).users
    requires u in s.users ==> Owned(s.owners, u) != {} || (Merges(s, e) && u == e.source)
    ensures Owned(Step(s, e).owners, u) != {} || (Merges(s, e) && u == e.source)
  {
    var s' := Step(s, e);
    if u in s.users && Owned(s.owners, u) != {} {
      var id :| id in Owned(s.owners, u);
      if e.Unbind? && s' != s && s.owners[e.id] == u {
        var rest := Owned(s.owners, u) - {e.id};
        assert |rest| == |Owned(s.owners, u)| - 1;
        var other :| other in rest;
        assert other in Owned(s'.owners, u);
      } else if s' != s && !(Merges(s, e) && u == e.source) {
        OwnerStep(s, e, id);
        assert id in Owned(s'.owners, u);
      }
    } else if e.Register? {
      assert e.id in Owned(s'.owners, u);
    }
  }

  lemma {:induction false} RunKeepsReachable(s: State, es: seq<Event>, gone: set<string>)
    requires OwnersExist(s) && Reachable(s, gone)
    ensures OwnersExist(Exec(s, es)) && Reachable(Exec(s, es), gone + MergedAway(s, es))
    decreases |es|
  {
    if es != [] {
      var e := es[0];
      var now := gone + if Merges(s, e) then {e.source} else {};
      forall u | u in Step(s, e).users && u !in now ensures Owned(Step(s, e).owners, u) != {} {
        StepKeepsOwner(s, e, u);
      }
      RunKeepsReachable(Step(s, e), es[1..], now);
      assert now + MergedAway(Step(s, e), es[1..]) == gone + MergedAway(s, es);
    } else {
      assert gone + MergedAway(s, es) == gone;
    }
  }

  // In every serial run from the empty store, each user not merged away owns some identity,
  // and every identity belongs to a user there is.
  lemma NobodyIsStranded(es: seq<Event>, user: string)
    requires user in Exec(INIT, es).users && user !in MergedAway(INIT, es)
    ensures Owned(Exec(INIT, es).owners, user) != {}
    ensures forall id :: id in Exec(INIT, es).owners ==> Exec(INIT, es).owners[id] in Exec(INIT, es).users
  {
    RunKeepsReachable(INIT, es, {});
    assert {} + MergedAway(INIT, es) == MergedAway(INIT, es);
  }

  // ---------------------------------------------------------------- owners that may log in

  // Merging is the one operation that disables a user, and nothing here enables one again.
  lemma {:induction false} ActiveIffNotMergedAway(s: State, es: seq<Event>, user: string)
    requires user in Exec(s, es).users
    ensures ActiveUser(Exec(s, es), user) <==>
            (user in s.users ==> s.users[user].active) && user !in MergedAway(s, es)
    decreases |es|
  {
    if es != [] {
      StepStatus(s, es[0], user);
      ActiveIffNotMergedAway(Step(s, es[0]), es[1..], user);
      if user !in Step(s, es[0]).users {
        UnknownIsNotMerged(s, es[0], user);
      }
    }
  }

  lemma StepStatus(s: State, e: Event, user: string)
    ensures user in s.users ==> user in Step(s, e).users
    ensures user in Step(s, e).users ==>
              (ActiveUser(Step(s, e), user) <==>
               (user in s.users ==> s.users[user].active) && !(Merges(s, e) && user == e.source))
  {
  }

  lemma UnknownIsNotMerged(s: State, e: Event, user: string)
    requires user !in Step(s, e).users
    ensures !(Merges(s, e) && user == e.source)
  {
  }

  // In every run from the empty store an identity's owner is active exactly when it was never
  // the source of a merge.
  lemma OwnerActiveIff(es: seq<Event>, id: Identity)
    requires id in Exec(INIT, es).owners
    ensures ActiveUser(Exec(INIT, es), Exec(INIT, es).owners[id]) <==>
            Exec(INIT, es).owners[id] !in MergedAway(INIT, es)
  {
    RunKeepsReachable(INIT, es, {});
    ActiveIffNotMergedAway(INIT, es, Exec(INIT, es).owners[id]);
  }

  ghost predicate OwnersActive(s: State)
  {
    forall id :: id in s.owners ==> ActiveUser(s, s.owners[id])
  }

  // The two operations that put an identity in a disabled user's hands: a merge does not look
  // at its target's status, and binding does not look at the caller's.
  predicate Strands(s: State, e: Event)
  {
    match e
    case Merge(target, source, _) =>
      Merges(s, e) && !s.users[target].active && Owned(s.owners, source) != {}
    case Bind(user, id) => id !in s.owners && user in s.users && !s.users[user].active
    case _ => false
  }

  lemma StepKeepsOwnersActiveIff(s: State, e: Event)
    requires OwnersActive(s)
    ensures OwnersActive(Step(s, e)) <==> !Strands(s, e)
  {
    var s' := Step(s, e);
    match e
    case Merge(target, source, now) =>
      if Merges(s, e) {
        MergeConserves(s, target, source, now);
        if Owned(s.owners, source) != {} {
          var id :| id in Owned(s.owners, source);
          OwnerStep(s, e, id);
        }
        forall id | id in s'.owners && !Strands(s, e)
          ensures ActiveUser(s', s'.owners[id])
        {
          OwnerStep(s, e, id);
          assert id in Owned(s.owners, s.owners[id]);
        }
      }
    case Bind(user, id) =>
      if id !in s.owners && user in s.users {
        assert s'.owners[id] == user;
      }
    case _ =>
  }

  ghost predicate AlwaysActive(es: seq<Event>)
  {
    forall i :: 0 <= i <= |es| ==> OwnersActive(Exec(INIT, es[..i]))
  }

  ghost predicate NeverStrands(es: seq<Event>)
  {
    forall i :: 0 <= i < |es| ==> !Strands(Exec(INIT, es[..i]), es[i])
  }

  lemma AlwaysActiveGrows(es: seq<Event>, e: Event)
    ensures AlwaysActive(es + [e]) <==> AlwaysActive(es) && OwnersActive(Exec(INIT, es + [e]))
  {
    var all := es + [e];
    assert forall i :: 0 <= i <= |es| ==> all[..i] == es[..i];
    assert all[..|all|] == all;
  }

  lemma NeverStrandsGrows(es: seq<Event>, e: Event)
    ensures NeverStrands(es + [e]) <==> NeverStrands(es) && !Strands(Exec(INIT, es), e)
  {
    var all := es + [e];
    assert forall i :: 0 <= i <= |es| ==> all[..i] == es[..i];
    assert es[..|es|] == es && all[|es|] == e;
    assert forall i :: 0 <= i < |es| ==> all[i] == es[i];
  }

  // In every run from the empty store every owner is active throughout exactly when no
  // operation of the run is one of those two.
  lemma {:induction false} OwnersStayActiveIff(es: seq<Event>)
    ensures AlwaysActive(es) <==> NeverStrands(es)
  {
    if es != [] {
      var init, e := es[..|es| - 1], es[|es| - 1];
      assert es == init + [e];
      OwnersStayActiveIff(init);
      AlwaysActiveGrows(init, e);
      NeverStrandsGrows(init, e);
      ExecLast(INIT, es);
      if AlwaysActive(init) {
        assert init[..|init|] == init;
        StepKeepsOwnersActiveIff(Exec(INIT, init), e);
      }
    }
  }

  lemma {:induction false} ExecLast(s: State, es: seq<Event>)
    requires es != []
    ensures Exec(s, es) == Step(Exec(s, es[..|es| - 1]), es[|es| - 1])
    decreases |es|
  {
    if |es| > 1 {
      ExecLast(Step(s, es[0]), es[1..]);
      assert es[1..][..|es| - 2] == es[..|es| - 1][1..];
    }
  }

  // A concrete one: a is merged into b, then c into the disabled a, and c's identity is lost.
  function LostIdentity(a: Identity, b: Identity, c: Identity): seq<Event>
  {
    [Register(a, "a", ""), Register(b, "b", ""), Register(c, "c", ""), Merge("b", "a", 0), Merge("a", "c", 0)]
  }

  lemma ThreeRegistered(a: Identity, b: Identity, c: Identity)
    requires a != b && b != c && a != c
    ensures var s := Exec(INIT, LostIdentity(a, b, c)[..3]);
      && s.owners == map[a := "a", b := "b", c := "c"]
      && s.users == map["a" := User(true, ""), "b" := User(true, ""), "c" := User(true, "")]
  {
    var es := LostIdentity(a, b, c);
    ExecOne(es, 0);
    ExecOne(es, 1);
    ExecOne(es, 2);
  }

  lemma ExecOne(es: seq<Event>, i: nat)
    requires i < |es|
    ensures Exec(INIT, es[..i + 1]) == Step(Exec(INIT, es[..i]), es[i])
  {
    ExecLast(INIT, es[..i + 1]);
    assert es[..i + 1][..i] == es[..i];
  }

  lemma FirstMerge(a: Identity, b: Identity, c: Identity)
    requires a != b && b != c && a != c
    ensures var s := Exec(INIT, LostIdentity(a, b, c)[..4]);
      && s.owners == map[a := "b", b := "b", c := "c"]
      && ActiveUser(s, "b") && ActiveUser(s, "c") && "a" in s.users && !s.users["a"].active
  {
    ThreeRegistered(a, b, c);
    var es := LostIdentity(a, b, c);
    ExecOne(es, 3);
    var s3 := Exec(INIT, es[..3]);
    StepStatus(s3, es[3], "a");
    StepStatus(s3, es[3], "b");
    StepStatus(s3, es[3], "c");
  }

  lemma DisabledTargetLocksOut(a: Identity, b: Identity, c: Identity)
    requires a != b && b != c && a != c
    ensures var es := LostIdentity(a, b, c);
      var s := Exec(INIT, es);
      && OwnersActive(Exec(INIT, es[..4])) && Strands(Exec(INIT, es[..4]), es[4])
      && c in s.owners && s.owners[c] == "a" && "a" in s.users && !s.users["a"].active
      && forall hash :: !PasswordLogin(s, c, hash)
  {
    var es := LostIdentity(a, b, c);
    FirstMerge(a, b, c);
    var s4 := Exec(INIT, es[..4]);
    ExecOne(es, 4);
    assert es[..5] == es;
    assert c in Owned(s4.owners, "c");
    OwnerStep(s4, es[4], c);
    StepStatus(s4, es[4], "a");
  }
}
