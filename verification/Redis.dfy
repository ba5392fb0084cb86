/**
 * The keys the service keeps in Redis: values with an expiry instant. A key is
 * alive strictly before that instant; an expired key reads as absent.
 */
module Redis {
  import opened Common

  // One constructor per key prefix the service uses.
  datatype Key =
    | AccessBlacklist(jti: nat)
    | UserBlacklist(user: string)
    | UserVersion(user: string)
    | OtpIdentityHour(identity: string)
    | OtpIpHour(ip: string)
    | OtpIdentityDay(day: nat, identity: string)
    | OtpIpDay(day: nat, ip: string)
    | OtpResend(otpMethod: string, identity: string)
    | RiskFailures(kind: string, subject: string)
    | RiskLock(kind: string, subject: string)

  datatype Entry = Entry(value: int, expireAt: Option<Time>) {
    predicate Alive(now: Time) {
      expireAt.None? || now < expireAt.value
    }
  }

  type Db = map<Key, Entry>

  function Live(e: Option<Entry>, now: Time): (r: Option<int>)
  {
    if e.Some? && e.value.Alive(now) then Some(e.value.value) else None
  }

  function Read(db: Db, key: Key, now: Time): Option<int>
  {
    Live(Lookup(db, key), now)
  }

  // A counter's live count.
  function Count(db: Db, key: Key, now: Time): int
  {
    if key in db && db[key].Alive(now) then db[key].value else 0
  }

  predicate Exists(db: Db, key: Key, now: Time)
  {
    Read(db, key, now).Some?
  }

  // The fixed-window script on one key: INCR, and PEXPIRE when the counter starts.
  function Bump(e: Option<Entry>, now: Time, window: nat): Entry
  {
    match Live(e, now)
    case None => Entry(1, Some(now + window))
    case Some(n) => Entry(n + 1, if n + 1 == 1 then Some(now + window) else e.value.expireAt)
  }

  function Hit(db: Db, key: Key, now: Time, window: nat): Db
  {
    db[key := Bump(Lookup(db, key), now, window)]
  }

  // INCR alone, as the user versions use it: no expiry is set.
  function Incremented(db: Db, key: Key, now: Time): Db
  {
    match Read(db, key, now)
    case None => db[key := Entry(1, None)]
    case Some(n) => db[key := Entry(n + 1, db[key].expireAt)]
  }

  function Put(db: Db, key: Key, value: int, now: Time, ttl: nat): Db
  {
    db[key := Entry(value, Some(now + ttl))]
  }

  class Client {
    var db: Db

    method Incr(key: Key, now: Time) returns (n: int)
      modifies this
      ensures db == old(db)[key := if key in old(db) && old(db)[key].Alive(now)
                                   then old(db)[key].(value := old(db)[key].value + 1) else Entry(1, None)]
      ensures db == Incremented(old(db), key, now)
      ensures n == db[key].value
    {
      if key in db && db[key].Alive(now) {
        db := db[key := db[key].(value := db[key].value + 1)];
      } else {
        db := db[key := Entry(1, None)];
      }
      n := db[key].value;
    }

    method Allow(key: Key, limit: int, window: nat, now: Time) returns (ok: bool, wait: int)
      modifies this
      // One more than a live count, or a new count of one; a count of one starts the window.
      ensures var n := if key in old(db) && old(db)[key].Alive(now) then old(db)[key].value + 1 else 1;
        && db == old(db)[key := Entry(n, if n == 1 then Some(now + window) else old(db)[key].expireAt)]
        && (ok <==> n <= limit)
      ensures db == Hit(old(db), key, now, window)
      ensures ok ==> wait == 0
      ensures !ok ==>
        var left := if db[key].expireAt.Some? then (db[key].expireAt.value - now) / SECOND else 0;
        wait == if left < 1 then window / SECOND else left
    {
      var n := Incr(key, now);
      if n == 1 {
        db := db[key := db[key].(expireAt := Some(now + window))];
      }
      var left := if db[key].expireAt.Some? then (db[key].expireAt.value - now) / SECOND else 0;
      if n > limit {
        wait := left;
        if wait < 1 {
          wait := window / SECOND;
        }
        return false, wait;
      }
      return true, 0;
    }

    method SetNX(key: Key, ttl: nat, now: Time) returns (set_: bool)
      modifies this
      ensures set_ <==> !(key in old(db) && old(db)[key].Alive(now))
      ensures db == if set_ then old(db)[key := Entry(1, Some(now + ttl))] else old(db)
    {
      set_ := !(key in db && db[key].Alive(now));
      if set_ {
        db := db[key := Entry(1, Some(now + ttl))];
      }
    }

    method Set(key: Key, ttl: nat, now: Time)
      modifies this
      ensures db == old(db)[key := Entry(1, Some(now + ttl))]
    {
      db := db[key := Entry(1, Some(now + ttl))];
    }

    method Del(key: Key)
      modifies this
      ensures db == old(db) - {key}
    {
      db := db - {key};
    }

    method Get(key: Key, now: Time) returns (v: Option<int>)
      ensures v == if key in db && db[key].Alive(now) then Some(db[key].value) else None
    {
      v := if key in db && db[key].Alive(now) then Some(db[key].value) else None;
    }
  }
}
