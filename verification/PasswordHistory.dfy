/**
 * Refusing recently used passwords: the history table is appended to and trimmed each time a
 * password is replaced, and a new password is checked against it and the current one.
 */
module PasswordHistory {
  import opened Common
  import opened Redis
  import Sessions

  // An ideal salted hash: exactly its own password verifies against it.
  datatype Hash = Hash(password: string, salt: nat)

  predicate VerifyPassword(h: Hash, password: string)
  {
    h.password == password
  }

  // Credentials that hold a password, and each user's history rows in id order.
  datatype Store = Store(passwords: map<string, Hash>, history: map<string, seq<Hash>>)

  function RowsOf(history: map<string, seq<Hash>>, userID: string): seq<Hash>
  {
    if userID in history then history[userID] else []
  }

  // The last n elements.
  function Newest<T>(s: seq<T>, n: int): seq<T>
  {
    if n <= 0 then [] else if |s| <= n then s else s[|s| - n..]
  }

  // The last n elements, last first.
  function NewestFirst<T>(s: seq<T>, n: int): (r: seq<T>)
    ensures |r| == |Newest(s, n)| && forall k :: 0 <= k < |r| ==> r[k] == s[|s| - 1 - k]
  {
    if n <= 0 then [] else seq(Min(n, |s|), k requires 0 <= k < Min(n, |s|) => s[|s| - 1 - k])
  }

  predicate Reused(s: Store, n: int, userID: string, password: string)
  {
    && n > 0
    && (|| (userID in s.passwords && VerifyPassword(s.passwords[userID], password))
        || exists h :: h in Newest(RowsOf(s.history, userID), n) && VerifyPassword(h, password))
  }

  predicate AnyVerifies(hashes: seq<Hash>, password: string)
  {
    exists k :: 0 <= k < |hashes| && VerifyPassword(hashes[k], password)
  }

  // An attempt to set a password; `admitted` says that the checks before the history passed.
  datatype Attempt = Attempt(userID: string, password: string, salt: nat, admitted: bool)

  predicate Accepts(s: Store, n: int, a: Attempt)
  {
    a.admitted && !Reused(s, n, a.userID, a.password)
  }

  function Recorded(history: map<string, seq<Hash>>, n: int, userID: string, replaced: Option<Hash>)
    : map<string, seq<Hash>>
  {
    if n <= 0 || replaced.None? then history
    else history[userID := Newest(RowsOf(history, userID) + [replaced.value], n)]
  }

  function Step(s: Store, n: int, a: Attempt): Store
  {
    if !Accepts(s, n, a) then s
    else
      Store(s.passwords[a.userID := Hash(a.password, a.salt)],
            Recorded(s.history, n, a.userID, Lookup(s.passwords, a.userID)))
  }

  class Passwords {
    var passwords: map<string, Hash>
    var history: map<string, seq<Hash>>
    const historyCount: int
    const sessions: Sessions.TokenService
    const redis: Client

    constructor (historyCount: int, sessions: Sessions.TokenService, redis: Client)
      ensures this.historyCount == historyCount && this.sessions == sessions && this.redis == redis
      ensures passwords == map[] && history == map[]
    {
      this.historyCount := historyCount;
      this.sessions := sessions;
      this.redis := redis;
      passwords := map[];
      history := map[];
    }

    ghost function Contents(): Store
      reads this
    {
      Store(passwords, history)
    }

    // Newest first.
    method ListRecent(userID: string, limit: int) returns (list: seq<Hash>)
      ensures list == NewestFirst(RowsOf(history, userID), limit)
    {
      if limit <= 0 {
        return [];
      }
      list := NewestFirst(RowsOf(history, userID), limit);
    }

    method Append(userID: string, hash: Hash)
      modifies this`history
      ensures history == old(history)[userID := RowsOf(old(history), userID) + [hash]]
    {
      history := history[userID := RowsOf(history, userID) + [hash]];
    }

    // Deletes all rows but the newest `keep`.
    method Trim(userID: string, keep: int)
      modifies this`history
      ensures RowsOf(history, userID) == Newest(RowsOf(old(history), userID), keep)
      ensures history == old(history) || history == old(history)[userID := RowsOf(history, userID)]
    {
      if keep <= 0 {
        history := history[userID := []];
        return;
      }
      var rows := RowsOf(history, userID);
      if |rows| <= keep {
        return;
      }
      history := history[userID := rows[|rows| - keep..]];
    }

    // The current hash, if there is one, and the newest n replaced ones.
    method HashesToCheck(userID: string, current: Option<Hash>, n: int) returns (hashes: seq<Hash>)
      requires n > 0 && current == Lookup(passwords, userID)
      ensures hashes == (if current.Some? then [current.value] else []) + NewestFirst(RowsOf(history, userID), n)
    {
      hashes := [];
      if current.Some? {
        hashes := [current.value];
      }
      ghost var first := hashes;
      var hist := ListRecent(userID, n);
      for i := 0 to |hist|
        invariant hashes == first + hist[..i]
      {
        hashes := hashes + [hist[i]];
      }
      assert hist[..|hist|] == hist;
    }

    // True when the password may be used.
    method AssertPasswordNotReused(userID: string, password: string, current: Option<Hash>) returns (ok: bool)
      requires current == Lookup(passwords, userID)
      ensures ok <==> !Reused(Contents(), historyCount, userID, password)
    {
      var n := historyCount;
      if n <= 0 {
        return true;
      }
      var hashes := HashesToCheck(userID, current, n);
      ReusedMeansListed(Contents(), n, userID, password, hashes);
      for i := 0 to |hashes|
        invariant forall k :: 0 <= k < i ==> !VerifyPassword(hashes[k], password)
      {
        if VerifyPassword(hashes[i], password) {
          return false;
        }
      }
      ok := true;
    }

    method RecordPasswordHistory(userID: string, replaced: Option<Hash>)
      modifies this`history
      ensures history == Recorded(old(history), historyCount, userID, replaced)
    {
      var n := historyCount;
      if n <= 0 || replaced.None? {
        return;
      }
      Append(userID, replaced.value);
      Trim(userID, n);
    }

    // What setting and resetting share; a success ends the user's sessions in the app.
    method Replace(userID: string, client: string, password: string, salt: nat, admitted: bool, now: Time)
      returns (r: Result<()>)
      modifies this, sessions
      ensures r.Ok? <==> Accepts(old(Contents()), historyCount, Attempt(userID, password, salt, admitted))
      ensures r.Ok? <==>
              && admitted
              && (historyCount > 0 ==>
                    && (userID in old(passwords) ==> old(passwords)[userID].password != password)
                    && (forall h :: h in Newest(RowsOf(old(history), userID), historyCount) ==> h.password != password))
      ensures r.Err? ==> r.error == BadRequest && passwords == old(passwords) && history == old(history)
      ensures r.Ok? ==> passwords == old(passwords)[userID := Hash(password, salt)]
      ensures r.Ok? ==> forall u :: u != userID ==> RowsOf(history, u) == RowsOf(old(history), u)
      ensures r.Ok? ==>
        RowsOf(history, userID) ==
          if historyCount > 0 && userID in old(passwords)
          then Newest(RowsOf(old(history), userID) + [old(passwords)[userID]], historyCount)
          else RowsOf(old(history), userID)
      ensures Contents() == Step(old(Contents()), historyCount, Attempt(userID, password, salt, admitted))
      ensures r.Err? ==> sessions.rows == old(sessions.rows)
      ensures r.Ok? ==> sessions.rows.Keys == old(sessions.rows).Keys && forall j :: j in sessions.rows ==>
        sessions.rows[j] ==
          if old(sessions.rows)[j].user == userID && (client == "" || old(sessions.rows)[j].client == client) &&
             old(sessions.rows)[j].revokedAt.None?
          then old(sessions.rows)[j].(revokedAt := Some(now)) else old(sessions.rows)[j]
      ensures sessions.rows ==
              if r.Ok? then Sessions.RevokedScope(old(sessions.rows), Sessions.OfUser(userID, client), now)
              else old(sessions.rows)
    {
      if !admitted {
        return Err(BadRequest);
      }
      var replaced := Lookup(passwords, userID);
      var ok := AssertPasswordNotReused(userID, password, replaced);
      if !ok {
        return Err(BadRequest);
      }
      passwords := passwords[userID := Hash(password, salt)];
      RecordPasswordHistory(userID, replaced);
      sessions.RevokeWhere(Sessions.OfUser(userID, client), now);
      r := Ok(());
    }

    // `forced` says that the change was overdue: it then also ends the access tokens that say so.
    method SetPassword(userID: string, client: string, password: string, salt: nat, admitted: bool, forced: bool,
                       now: Time) returns (r: Result<()>)
      modifies this, sessions, redis
      ensures r.Ok? <==> Accepts(old(Contents()), historyCount, Attempt(userID, password, salt, admitted))
      ensures Contents() == Step(old(Contents()), historyCount, Attempt(userID, password, salt, admitted))
      ensures sessions.rows ==
              if r.Ok? then Sessions.RevokedScope(old(sessions.rows), Sessions.OfUser(userID, client), now)
              else old(sessions.rows)
      ensures redis.db ==
              if r.Ok? && forced then Incremented(old(redis.db), UserVersion(userID), now) else old(redis.db)
    {
      r := Replace(userID, client, password, salt, admitted, now);
      if r.Ok? && forced {
        var _ := redis.Incr(UserVersion(userID), now);
      }
    }

    // The owner of an identity proved by a one-time code; None if it is bound to nobody.
    method ResetPasswordConfirm(owner: Option<string>, client: string, password: string, salt: nat, admitted: bool,
                                now: Time) returns (r: Result<()>)
      modifies this, sessions
      ensures owner.None? ==> r == Err(NotFound) && Contents() == old(Contents()) && sessions.rows == old(sessions.rows)
      ensures owner.Some? ==>
        var a := Attempt(owner.value, password, salt, admitted);
        && (r.Ok? <==> Accepts(old(Contents()), historyCount, a))
        && Contents() == Step(old(Contents()), historyCount, a)
        && sessions.rows ==
             if r.Ok? then Sessions.RevokedScope(old(sessions.rows), Sessions.OfUser(owner.value, client), now)
             else old(sessions.rows)
    {
      if owner.None? {
        return Err(NotFound);
      }
      r := Replace(owner.value, client, password, salt, admitted, now);
    }
  }

  lemma SameMembers<T>(s: seq<T>, n: int)
    ensures forall x :: x in Newest(s, n) <==> x in NewestFirst(s, n)
  {
    var w, r := Newest(s, n), NewestFirst(s, n);
    forall x | x in w
      ensures x in r
    {
      var k :| 0 <= k < |w| && w[k] == x;
      assert r[|w| - 1 - k] == x;
    }
    forall k | 0 <= k < |r|
      ensures r[k] in w
    {
      assert r[k] == w[|w| - 1 - k];
    }
  }

  // The check looks at every hash that matters and no other.
  lemma ReusedMeansListed(s: Store, n: int, userID: string, password: string, hashes: seq<Hash>)
    requires n > 0
    requires hashes == (if userID in s.passwords then [s.passwords[userID]] else []) +
                       NewestFirst(RowsOf(s.history, userID), n)
    ensures Reused(s, n, userID, password) <==> AnyVerifies(hashes, password)
  {
    var hist := NewestFirst(RowsOf(s.history, userID), n);
    SameMembers(RowsOf(s.history, userID), n);
    assert forall h :: h in hashes <==> (userID in s.passwords && h == s.passwords[userID]) || h in hist;
    if AnyVerifies(hashes, password) {
      var k :| 0 <= k < |hashes| && VerifyPassword(hashes[k], password);
      assert hashes[k] in hashes;
    }
    if Reused(s, n, userID, password) {
      var h :| h in hashes && VerifyPassword(h, password);
      var k :| 0 <= k < |hashes| && hashes[k] == h;
    }
  }

  // ---------------------------------------------------------------- runs

  function Exec(n: int, es: seq<Attempt>): Store
  {
    if es == [] then Store(map[], map[]) else Step(Exec(n, es[..|es| - 1]), n, es[|es| - 1])
  }

  // The hashes of a user's accepted attempts, in the order they were set.
  function Accepted(n: int, es: seq<Attempt>, userID: string): seq<Hash>
  {
    if es == [] then []
    else
      var init, a := es[..|es| - 1], es[|es| - 1];
      if a.userID == userID && Accepts(Exec(n, init), n, a)
      then Accepted(n, init, userID) + [Hash(a.password, a.salt)]
      else Accepted(n, init, userID)
  }

  function AllButLast<T>(s: seq<T>): seq<T>
  {
    if s == [] then [] else s[..|s| - 1]
  }

  // A user's part of the store, told by what has been accepted.
  predicate Window(s: Store, n: int, userID: string, acc: seq<Hash>)
  {
    && Lookup(s.passwords, userID) == (if acc == [] then None else Some(acc[|acc| - 1]))
    && RowsOf(s.history, userID) == Newest(AllButLast(acc), n)
  }

  // Pushing onto a window of n drops what no longer fits.
  lemma WindowSlides<T>(s: seq<T>, x: T, n: int)
    requires n > 0
    ensures Newest(Newest(s, n) + [x], n) == Newest(s + [x], n)
  {
  }

  lemma RecordingSlides(history: map<string, seq<Hash>>, n: int, userID: string, acc: seq<Hash>)
    requires n > 0 && acc != [] && RowsOf(history, userID) == Newest(AllButLast(acc), n)
    ensures RowsOf(Recorded(history, n, userID, Some(acc[|acc| - 1])), userID) == Newest(acc, n)
  {
    WindowSlides(AllButLast(acc), acc[|acc| - 1], n);
    assert acc == AllButLast(acc) + [acc[|acc| - 1]];
  }

  lemma AcceptanceSlides(s: Store, n: int, a: Attempt, userID: string, acc: seq<Hash>)
    requires n > 0 && Accepts(s, n, a) && Window(s, n, userID, acc)
    ensures Window(Step(s, n, a), n, userID, if a.userID == userID then acc + [Hash(a.password, a.salt)] else acc)
  {
    if a.userID == userID {
      assert AllButLast(acc + [Hash(a.password, a.salt)]) == acc;
      if acc != [] {
        RecordingSlides(s.history, n, userID, acc);
      }
    }
  }

  // The current hash is the last one accepted, and the table is always the last n replaced
  // hashes in order, whatever other users do.
  lemma {:induction false} TableIsWindow(n: int, es: seq<Attempt>, userID: string)
    requires n > 0
    ensures Window(Exec(n, es), n, userID, Accepted(n, es, userID))
  {
    if es != [] {
      var init, a := es[..|es| - 1], es[|es| - 1];
      TableIsWindow(n, init, userID);
      if Accepts(Exec(n, init), n, a) {
        AcceptanceSlides(Exec(n, init), n, a, userID, Accepted(n, init, userID));
      }
    }
  }

  lemma WindowDecides(s: Store, n: int, userID: string, password: string, acc: seq<Hash>)
    requires n > 0 && Window(s, n, userID, acc)
    ensures Reused(s, n, userID, password) <==> exists h :: h in Newest(acc, n + 1) && h.password == password
  {
    var w := Newest(AllButLast(acc), n);
    assert Newest(w, n) == w;
    if acc != [] {
      assert Newest(acc, n + 1) == w + [acc[|acc| - 1]];
    }
    forall h | h in Newest(acc, n + 1)
      ensures VerifyPassword(h, password) <==> h.password == password
    {
    }
  }

  // An attempt succeeds exactly when its password is not one of the user's last n + 1.
  lemma AcceptedIffNotRecent(n: int, es: seq<Attempt>, a: Attempt)
    requires n > 0 && a.admitted
    ensures Accepts(Exec(n, es), n, a) <==>
            forall h :: h in Newest(Accepted(n, es, a.userID), n + 1) ==> h.password != a.password
  {
    TableIsWindow(n, es, a.userID);
    WindowDecides(Exec(n, es), n, a.userID, a.password, Accepted(n, es, a.userID));
  }

  lemma InNewest<T>(s: seq<T>, n: int, i: nat)
    requires |s| - n <= i < |s|
    ensures s[i] in Newest(s, n)
  {
    var w := Newest(s, n);
    assert w[|w| - |s| + i] == s[i];
  }

  // Any n + 2 consecutive passwords of a user are pairwise different.
  lemma {:induction false} ConsecutiveDiffer(n: int, es: seq<Attempt>, userID: string, i: nat, j: nat)
    requires n > 0
    requires i < j < |Accepted(n, es, userID)| && j - i <= n + 1
    ensures Accepted(n, es, userID)[i].password != Accepted(n, es, userID)[j].password
  {
    var init, a := es[..|es| - 1], es[|es| - 1];
    var acc := Accepted(n, init, userID);
    if j < |acc| {
      ConsecutiveDiffer(n, init, userID, i, j);
    } else {
      AcceptedIffNotRecent(n, init, a);
      InNewest(acc, n + 1, i);
    }
  }

  // With the history switched off every admitted attempt succeeds and nothing is recorded.
  lemma {:induction false} HistoryOff(n: int, es: seq<Attempt>)
    requires n <= 0
    ensures Exec(n, es).history == map[]
    ensures forall a: Attempt :: Accepts(Exec(n, es), n, a) <==> a.admitted
  {
    if es != [] {
      HistoryOff(n, es[..|es| - 1]);
    }
  }
}
