/**
 * The login risk lock: failures are counted in a fixed window, and a failure
 * beyond the limit locks the identity and the address for a while.
 */
module RiskLock {
  import opened Common
  import opened Redis

  datatype Config = Config(lockAfterFailures: int, lockWindowSec: int, lockDurationSec: int) {
    function Limit(): (r: int)
      ensures r > 0
    {
      if lockAfterFailures <= 0 then 10 else lockAfterFailures
    }

    function Window(): (r: nat)
      ensures r > 0
    {
      if lockWindowSec <= 0 then 15 * 60 * SECOND else lockWindowSec * SECOND
    }

    function LockFor(): (r: nat)
      ensures r > 0
    {
      if lockDurationSec <= 0 then 15 * 60 * SECOND else lockDurationSec * SECOND
    }
  }

  predicate Locked(db: Db, kind: string, subject: string, now: Time)
  {
    subject != "" && Exists(db, Key.RiskLock(kind, subject), now)
  }

  function NotedOne(db: Db, cfg: Config, kind: string, subject: string, now: Time): Db
  {
    if subject == "" then db
    else
      var counted := Hit(db, RiskFailures(kind, subject), now, cfg.Window());
      if counted[RiskFailures(kind, subject)].value <= cfg.Limit() then counted
      else Put(counted, Key.RiskLock(kind, subject), 1, now, cfg.LockFor())
  }

  function Noted(db: Db, cfg: Config, identity: string, ip: string, now: Time): Db
  {
    NotedOne(NotedOne(db, cfg, "id", identity, now), cfg, "ip", ip, now)
  }

  function Cleared(db: Db, identity: string, ip: string): Db
  {
    var d := if identity != "" then db - {Key.RiskLock("id", identity)} else db;
    if ip != "" then d - {Key.RiskLock("ip", ip)} else d
  }

  // How the part of a login after the lock check ends.
  datatype Outcome =
    | VerifyFails   // wrong credential: a failure is noted
    | Held          // credential right, no token yet (MFA pending, user disabled, ...)
    | Succeeds      // tokens issued: the locks are cleared

  class Guard {
    const redis: Client
    const cfg: Config

    constructor (redis: Client, cfg: Config)
      ensures this.redis == redis && this.cfg == cfg
    {
      this.redis := redis;
      this.cfg := cfg;
    }

    method AssertNotLocked(identity: string, ip: string, now: Time) returns (r: Result<()>)
      ensures r.Err? <==>
              (identity != "" && Key.RiskLock("id", identity) in redis.db &&
               redis.db[Key.RiskLock("id", identity)].Alive(now)) ||
              (ip != "" && Key.RiskLock("ip", ip) in redis.db && redis.db[Key.RiskLock("ip", ip)].Alive(now))
      ensures r.Ok? <==> Reaches(redis.db, identity, ip, now)
      ensures r.Err? ==> r.error == RateLimited
    {
      if identity != "" {
        var v := redis.Get(Key.RiskLock("id", identity), now);
        if v.Some? {
          return Err(RateLimited);
        }
      }
      if ip != "" {
        var v := redis.Get(Key.RiskLock("ip", ip), now);
        if v.Some? {
          return Err(RateLimited);
        }
      }
      r := Ok(());
    }

    method Check(kind: string, subject: string, now: Time)
      modifies redis
      ensures subject == "" ==> redis.db == old(redis.db)
      ensures subject != "" ==>
        var key := RiskFailures(kind, subject);
        var n := if key in old(redis.db) && old(redis.db)[key].Alive(now) then old(redis.db)[key].value + 1 else 1;
        var until := if n == 1
                     then Some(now + (if cfg.lockWindowSec <= 0 then 900 else cfg.lockWindowSec) * SECOND)
                     else old(redis.db)[key].expireAt;
        var lock := Entry(1, Some(now + (if cfg.lockDurationSec <= 0 then 900 else cfg.lockDurationSec) * SECOND));
        redis.db == if n > (if cfg.lockAfterFailures <= 0 then 10 else cfg.lockAfterFailures)
                    then old(redis.db)[key := Entry(n, until)][Key.RiskLock(kind, subject) := lock]
                    else old(redis.db)[key := Entry(n, until)]
      ensures redis.db == NotedOne(old(redis.db), cfg, kind, subject, now)
    {
      if subject == "" {
        return;
      }
      var ok, _ := redis.Allow(RiskFailures(kind, subject), cfg.Limit(), cfg.Window(), now);
      if !ok {
        redis.Set(Key.RiskLock(kind, subject), cfg.LockFor(), now);
      }
    }

    method NoteLoginFailure(identity: string, ip: string, now: Time)
      modifies redis
      ensures identity != "" ==>
              Lookup(redis.db, RiskFailures("id", identity)) ==
              Some(Bump(Lookup(old(redis.db), RiskFailures("id", identity)), now, cfg.Window()))
      ensures ip != "" ==>
              Lookup(redis.db, RiskFailures("ip", ip)) ==
              Some(Bump(Lookup(old(redis.db), RiskFailures("ip", ip)), now, cfg.Window()))
      ensures identity != "" && redis.db[RiskFailures("id", identity)].value > cfg.Limit() ==>
              Lookup(redis.db, Key.RiskLock("id", identity)) == Some(Entry(1, Some(now + cfg.LockFor())))
      ensures ip != "" && redis.db[RiskFailures("ip", ip)].value > cfg.Limit() ==>
              Lookup(redis.db, Key.RiskLock("ip", ip)) == Some(Entry(1, Some(now + cfg.LockFor())))
      ensures redis.db == Noted(old(redis.db), cfg, identity, ip, now)
    {
      Check("id", identity, now);
      Check("ip", ip, now);
    }

    method ClearLoginFailures(identity: string, ip: string)
      modifies redis
      ensures redis.db == old(redis.db) - (if identity != "" then {Key.RiskLock("id", identity)} else {}) -
                                          (if ip != "" then {Key.RiskLock("ip", ip)} else {})
      ensures redis.db == Cleared(old(redis.db), identity, ip)
    {
      if identity != "" {
        redis.Del(Key.RiskLock("id", identity));
      }
      if ip != "" {
        redis.Del(Key.RiskLock("ip", ip));
      }
    }

    method AdminUnlock(kind: string, subject: string, now: Time) returns (r: Result<()>)
      modifies redis
      ensures r == if kind in {"id", "ip"} && subject != "" then Ok(()) else Err(BadRequest)
      ensures redis.db == if r.Ok? then old(redis.db) - {Key.RiskLock(kind, subject)} else old(redis.db)
      ensures r.Ok? ==> redis.db == Step(old(redis.db), cfg, Unlock(now, kind, subject))
    {
      if kind != "id" && kind != "ip" {
        return Err(BadRequest);
      }
      if subject == "" {
        return Err(BadRequest);
      }
      redis.Del(Key.RiskLock(kind, subject));
      r := Ok(());
    }

    // The lock handling of one login call, uninterrupted; `verified` tells whether Verify ran.
    method Login(identity: string, ip: string, outcome: Outcome, now: Time) returns (verified: bool)
      modifies redis
      ensures verified <==> Reaches(old(redis.db), identity, ip, now)
      ensures !verified || outcome.Held? ==> redis.db == old(redis.db)
      ensures verified && outcome.Succeeds? ==>
              redis.db == old(redis.db) - (if identity != "" then {Key.RiskLock("id", identity)} else {}) -
                                          (if ip != "" then {Key.RiskLock("ip", ip)} else {})
      ensures redis.db == Step(old(redis.db), cfg, Event.Login(now, identity, ip, outcome))
    {
      var free := AssertNotLocked(identity, ip, now);
      if free.Err? {
        return false;
      }
      match outcome {
        case VerifyFails => NoteLoginFailure(identity, ip, now);
        case Held =>
        case Succeeds => ClearLoginFailures(identity, ip);
      }
      verified := true;
    }
  }

  // ---------------------------------------------------------------- serial runs

  datatype Event =
    | Login(at: Time, identity: string, ip: string, outcome: Outcome)
    | Unlock(at: Time, kind: string, subject: string)   // an administrator deletes a lock

  predicate Reaches(db: Db, identity: string, ip: string, now: Time)
  {
    !Locked(db, "id", identity, now) && !Locked(db, "ip", ip, now)
  }

  function Step(db: Db, cfg: Config, e: Event): Db
  {
    match e
    case Unlock(_, kind, subject) => db - {Key.RiskLock(kind, subject)}
    case Login(at, identity, ip, outcome) =>
      if !Reaches(db, identity, ip, at) then db
      else match outcome
        case VerifyFails => Noted(db, cfg, identity, ip, at)
        case Held => db
        case Succeeds => Cleared(db, identity, ip)
  }

  function Run(cfg: Config, es: seq<Event>): Db
  {
    if es == [] then map[] else Step(Run(cfg, es[..|es| - 1]), cfg, es[|es| - 1])
  }

  ghost predicate Timely(es: seq<Event>)
  {
    forall i, j :: 0 <= i <= j < |es| ==> es[i].at <= es[j].at
  }

  // Call i reaches Verify for this identity and Verify rejects the credential.
  predicate FailsAt(cfg: Config, es: seq<Event>, i: nat, id: string)
    requires i < |es|
  {
    es[i].Login? && es[i].identity == id && es[i].outcome.VerifyFails? &&
    Reaches(Run(cfg, es[..i]), id, es[i].ip, es[i].at)
  }

  // Whether a failure counter of the identity is running just before call i.
  predicate CountingAt(cfg: Config, es: seq<Event>, i: nat, id: string)
    requires i < |es|
  {
    Exists(Run(cfg, es[..i]), RiskFailures("id", id), es[i].at)
  }

  function Failures(cfg: Config, es: seq<Event>, id: string, lo: nat): nat
  {
    if |es| <= lo then 0
    else Failures(cfg, es[..|es| - 1], id, lo) + if FailsAt(cfg, es, |es| - 1, id) then 1 else 0
  }

  function Unlocks(es: seq<Event>, id: string, lo: nat): nat
  {
    if |es| <= lo then 0
    else Unlocks(es[..|es| - 1], id, lo) + if es[|es| - 1] == Unlock(es[|es| - 1].at, "id", id) then 1 else 0
  }

  // Call lo opened a counter window of the identity and no later failure opened another.
  ghost predicate OneWindow(cfg: Config, es: seq<Event>, id: string, lo: nat)
  {
    lo < |es| && FailsAt(cfg, es, lo, id) && !CountingAt(cfg, es, lo, id) &&
    forall k :: lo < k < |es| && FailsAt(cfg, es, k, id) ==> CountingAt(cfg, es, k, id)
  }

  function LastFailure(cfg: Config, es: seq<Event>, id: string, lo: nat): Time
    requires lo < |es|
  {
    var i := |es| - 1;
    if i == lo || FailsAt(cfg, es, i, id) then es[i].at else LastFailure(cfg, es[..i], id, lo)
  }

  // The lock that a failure at `last` set still stands.
  predicate Held(db: Db, cfg: Config, id: string, last: Time)
  {
    Lookup(db, Key.RiskLock("id", id)) == Some(Entry(1, Some(last + cfg.LockFor())))
  }

  // The state of the identity's counter and lock since its window opened at es[lo]:
  // beyond the limit every failure but the first costs a lock time or an unlock.
  ghost predicate Paced(cfg: Config, es: seq<Event>, id: string, lo: nat)
    requires lo < |es|
  {
    var db := Run(cfg, es);
    var opening := es[lo].at;
    var f := Failures(cfg, es, id, lo);
    var u := Unlocks(es, id, lo);
    var last := LastFailure(cfg, es, id, lo);
    var L := cfg.LockFor();
    && Lookup(db, RiskFailures("id", id)) == Some(Entry(f, Some(opening + cfg.Window())))
    && f >= 1
    && opening <= last < opening + cfg.Window()
    && last <= es[|es| - 1].at
    && (f > cfg.Limit() ==>
          Waited(f - cfg.Limit() - u, L, last - opening, es[|es| - 1].at - last, Held(db, cfg, id, last)))
  }

  // n lock times fit the span so far, or all but one do and the last one is over or still on.
  predicate Waited(n: int, L: nat, span: int, idle: int, held: bool)
  {
    n * L <= span || ((n - 1) * L <= span && (idle >= L || held))
  }

  // A further failure comes only when no lock is on, and sets the next one.
  lemma NextWait(n: int, L: nat, span: int, idle: int, now: nat, held: bool)
    requires Waited(n, L, span, idle, held) && idle <= now && (held ==> now >= L)
    ensures Waited(n + 1, L, span + now, 0, true)
  {
    assert n * L == (n - 1) * L + L;
  }

  lemma FirstWait(u: nat, L: nat, span: nat)
    ensures Waited(1 - u, L, span, 0, true)
  {
    assert (0 - u) * L <= 0;
  }

  // An unlock excuses one lock time.
  lemma ExcusedWait(n: int, L: nat, span: int, idle: int, held: bool)
    requires Waited(n, L, span, idle, held)
    ensures (n - 1) * L <= span
  {
    assert n * L == (n - 1) * L + L;
  }

  lemma NotedForOne(db: Db, cfg: Config, id: string, ip: string, now: Time)
    requires id != ""
    ensures var c := Bump(Lookup(db, RiskFailures("id", id)), now, cfg.Window());
      var after := Noted(db, cfg, id, ip, now);
      && Lookup(after, RiskFailures("id", id)) == Some(c)
      && (c.value > cfg.Limit() ==>
            Lookup(after, Key.RiskLock("id", id)) == Some(Entry(1, Some(now + cfg.LockFor()))))
      && (c.value <= cfg.Limit() ==> Lookup(after, Key.RiskLock("id", id)) == Lookup(db, Key.RiskLock("id", id)))
  {
  }

  // Other identities' calls touch neither key; this identity's calls touch its lock
  // only by unlocking it or when it is not locked.
  lemma StepForOthers(db: Db, cfg: Config, e: Event, id: string)
    requires id != ""
    requires !(e.Login? && e.identity == id && e.outcome.VerifyFails? && Reaches(db, id, e.ip, e.at))
    requires e != Unlock(e.at, "id", id)
    ensures Lookup(Step(db, cfg, e), RiskFailures("id", id)) == Lookup(db, RiskFailures("id", id))
    ensures Lookup(Step(db, cfg, e), Key.RiskLock("id", id)) == Lookup(db, Key.RiskLock("id", id)) ||
            !Exists(db, Key.RiskLock("id", id), e.at)
  {
  }

  lemma {:induction false} WindowIsPaced(cfg: Config, es: seq<Event>, id: string, lo: nat)
    requires id != "" && Timely(es) && OneWindow(cfg, es, id, lo)
    ensures Paced(cfg, es, id, lo)
  {
    var i := |es| - 1;
    var before := es[..i];
    if i == lo {
      NotedForOne(Run(cfg, before), cfg, id, es[i].ip, es[i].at);
      assert Failures(cfg, before, id, lo) == 0;
    } else {
      assert OneWindow(cfg, before, id, lo) by { PrefixCalls(cfg, es, id); }
      WindowIsPaced(cfg, before, id, lo);
      assert before[i - 1].at <= es[i].at;
      if FailsAt(cfg, es, i, id) {
        NextFailureIsPaced(cfg, es, id, lo);
      } else {
        if es[i] == Unlock(es[i].at, "id", id) {
          UnlockIsPaced(cfg, es, id, lo);
        } else {
          OtherCallIsPaced(cfg, es, id, lo);
        }
      }
    }
  }

  lemma UnlockIsPaced(cfg: Config, es: seq<Event>, id: string, lo: nat)
    requires id != "" && lo < |es| - 1 && es[|es| - 1] == Unlock(es[|es| - 1].at, "id", id)
    requires Paced(cfg, es[..|es| - 1], id, lo) && es[|es| - 2].at <= es[|es| - 1].at
    ensures Paced(cfg, es, id, lo)
  {
    var before := es[..|es| - 1];
    var f, u, last := Failures(cfg, before, id, lo), Unlocks(before, id, lo), LastFailure(cfg, before, id, lo);
    assert Failures(cfg, es, id, lo) == f && Unlocks(es, id, lo) == u + 1 && LastFailure(cfg, es, id, lo) == last;
    assert Lookup(Run(cfg, es), RiskFailures("id", id)) == Lookup(Run(cfg, before), RiskFailures("id", id));
    if f > cfg.Limit() {
      ExcusedWait(f - cfg.Limit() - u, cfg.LockFor(), last - es[lo].at, es[|es| - 2].at - last,
                  Held(Run(cfg, before), cfg, id, last));
    }
  }

  lemma OtherCallIsPaced(cfg: Config, es: seq<Event>, id: string, lo: nat)
    requires id != "" && lo < |es| - 1 && !FailsAt(cfg, es, |es| - 1, id)
    requires es[|es| - 1] != Unlock(es[|es| - 1].at, "id", id)
    requires Paced(cfg, es[..|es| - 1], id, lo) && es[|es| - 2].at <= es[|es| - 1].at
    ensures Paced(cfg, es, id, lo)
  {
    var before := es[..|es| - 1];
    var f, u, last := Failures(cfg, before, id, lo), Unlocks(before, id, lo), LastFailure(cfg, before, id, lo);
    assert Failures(cfg, es, id, lo) == f && Unlocks(es, id, lo) == u && LastFailure(cfg, es, id, lo) == last;
    StepForOthers(Run(cfg, before), cfg, es[|es| - 1], id);
    assert Held(Run(cfg, before), cfg, id, last) ==>
      Held(Run(cfg, es), cfg, id, last) || es[|es| - 1].at >= last + cfg.LockFor();
  }

  lemma PrefixCalls(cfg: Config, es: seq<Event>, id: string)
    requires es != []
    ensures var before := es[..|es| - 1];
      forall k :: 0 <= k < |before| ==>
        FailsAt(cfg, before, k, id) == FailsAt(cfg, es, k, id) &&
        CountingAt(cfg, before, k, id) == CountingAt(cfg, es, k, id)
  {
    var before := es[..|es| - 1];
    forall k | 0 <= k < |before|
      ensures FailsAt(cfg, before, k, id) == FailsAt(cfg, es, k, id)
      ensures CountingAt(cfg, before, k, id) == CountingAt(cfg, es, k, id)
    {
      assert before[..k] == es[..k];
    }
  }

  lemma NextFailureIsPaced(cfg: Config, es: seq<Event>, id: string, lo: nat)
    requires id != "" && lo < |es| - 1 && FailsAt(cfg, es, |es| - 1, id) && CountingAt(cfg, es, |es| - 1, id)
    requires Paced(cfg, es[..|es| - 1], id, lo) && es[|es| - 2].at <= es[|es| - 1].at
    ensures Paced(cfg, es, id, lo)
  {
    var i := |es| - 1;
    var before := es[..i];
    var db := Run(cfg, before);
    NotedForOne(db, cfg, id, es[i].ip, es[i].at);
    var f, u, last := Failures(cfg, before, id, lo), Unlocks(before, id, lo), LastFailure(cfg, before, id, lo);
    assert Failures(cfg, es, id, lo) == f + 1 && Unlocks(es, id, lo) == u && LastFailure(cfg, es, id, lo) == es[i].at;
    var n, L, span := f - cfg.Limit() - u, cfg.LockFor(), last - es[lo].at;
    if f > cfg.Limit() {
      NextWait(n, L, span, es[i - 1].at - last, es[i].at - last, Held(db, cfg, id, last));
    } else {
      FirstWait(u, L, es[i].at - es[lo].at);
    }
  }

  function CeilDiv(a: nat, b: nat): nat
    requires b > 0
  {
    (a + b - 1) / b
  }

  lemma MulMonotone(q: int, x: int, L: nat)
    ensures q <= x ==> q * L <= x * L
  {
  }

  lemma StepsFit(x: int, L: nat, span: nat, W: nat)
    requires L > 0 && x * L <= span < W
    ensures x + 1 <= CeilDiv(W, L)
  {
    var q := (W + L - 1) / L;
    assert W + L - 1 < (q + 1) * L;
    assert (q + 1) * L == q * L + L;
    MulMonotone(q, x, L);
  }

  // Over every serial run: the failed Verify calls of an identity in one counter window
  // are at most the limit, plus the lock times that fit the window, plus the unlocks.
  lemma FailuresPerWindowBounded(cfg: Config, es: seq<Event>, id: string, lo: nat)
    requires id != "" && Timely(es) && OneWindow(cfg, es, id, lo)
    ensures Failures(cfg, es, id, lo) <=
      cfg.Limit() + CeilDiv(cfg.Window(), cfg.LockFor()) + Unlocks(es, id, lo)
  {
    WindowIsPaced(cfg, es, id, lo);
    var f := Failures(cfg, es, id, lo);
    var u := Unlocks(es, id, lo);
    var L := cfg.LockFor();
    if f > cfg.Limit() {
      var last := LastFailure(cfg, es, id, lo);
      var span := last - es[lo].at;
      ExcusedWait(f - cfg.Limit() - u, L, span, es[|es| - 1].at - last,
                  Held(Run(cfg, es), cfg, id, last));
      StepsFit(f - cfg.Limit() - 1 - u, L, span, cfg.Window());
    }
  }

  lemma CeilDivScales(a: nat, b: nat, k: nat)
    requires b > 0 && k > 0
    ensures b * k > 0 && CeilDiv(a * k, b * k) == CeilDiv(a, b)
  {
    var q := CeilDiv(a, b);
    assert q * b >= a && (q - 1) * b < a by {
      assert q * b == (q - 1) * b + b;
    }
    CeilDivIs(a, b, q);
    MulMonotone(a, q * b, k);
    MulMonotone((q - 1) * b + 1, a, k);
    assert ((q - 1) * b + 1) * k == (q - 1) * (b * k) + k;
    assert (q * b) * k == q * (b * k);
    CeilDivIs(a * k, b * k, q);
  }

  lemma CeilDivIs(a: nat, b: nat, q: int)
    requires b > 0 && (q - 1) * b < a <= q * b
    ensures CeilDiv(a, b) == q
  {
    var x, d := a + b - 1, CeilDiv(a, b);
    assert x == d * b + x % b && 0 <= x % b < b;
    assert q * b == (q - 1) * b + b && (d + 1) * b == d * b + b && (q + 1) * b == q * b + b;
    MulMonotone(q + 1, d, b);
    MulMonotone(d + 1, q, b);
  }

  // The same bound in the settings themselves; by default at most 11 failures in 15 minutes.
  lemma FailuresInSettings(cfg: Config, es: seq<Event>, id: string, lo: nat)
    requires id != "" && Timely(es) && OneWindow(cfg, es, id, lo)
    ensures cfg.lockAfterFailures > 0 && cfg.lockWindowSec > 0 && cfg.lockDurationSec > 0 ==>
              Failures(cfg, es, id, lo) <=
              cfg.lockAfterFailures + CeilDiv(cfg.lockWindowSec, cfg.lockDurationSec) + Unlocks(es, id, lo)
    ensures cfg == Config(0, 0, 0) ==> Failures(cfg, es, id, lo) <= 11 + Unlocks(es, id, lo)
  {
    FailuresPerWindowBounded(cfg, es, id, lo);
    if cfg.lockWindowSec > 0 && cfg.lockDurationSec > 0 {
      CeilDivScales(cfg.lockWindowSec, cfg.lockDurationSec, SECOND);
    }
  }

  // A client that fails as fast as the lock lets it.
  function StormTime(cfg: Config, i: nat): Time
  {
    if i <= cfg.Limit() then 0 else (i - cfg.Limit()) * cfg.LockFor()
  }

  function Storm(cfg: Config, id: string, ip: string, n: nat): seq<Event>
  {
    seq(n, i requires 0 <= i => Event.Login(StormTime(cfg, i), id, ip, VerifyFails))
  }

  lemma StormStaysInWindow(cfg: Config, i: nat)
    requires i < cfg.Limit() + CeilDiv(cfg.Window(), cfg.LockFor())
    ensures StormTime(cfg, i) < cfg.Window()
  {
    var L := cfg.LockFor();
    if i > cfg.Limit() {
      var q := CeilDiv(cfg.Window(), L);
      MulMonotone(i - cfg.Limit(), q - 1, L);
      assert q * L <= cfg.Window() + L - 1;
      assert q * L == (q - 1) * L + L;
    }
  }

  // A subject's counter and lock after n storm calls.
  predicate StormOn(cfg: Config, kind: string, subject: string, n: nat, db: Db)
  {
    && Lookup(db, RiskFailures(kind, subject)) == (if n == 0 then None else Some(Entry(n, Some(cfg.Window()))))
    && Lookup(db, Key.RiskLock(kind, subject)) ==
         (if n <= cfg.Limit() then None else Some(Entry(1, Some(StormTime(cfg, n - 1) + cfg.LockFor()))))
  }

  predicate StormDb(cfg: Config, id: string, ip: string, n: nat, db: Db)
  {
    StormOn(cfg, "id", id, n, db) && (ip != "" ==> StormOn(cfg, "ip", ip, n, db))
  }

  lemma NextStormTime(cfg: Config, i: nat)
    requires i > cfg.Limit()
    ensures StormTime(cfg, i) == StormTime(cfg, i - 1) + cfg.LockFor()
  {
    assert (i - cfg.Limit()) * cfg.LockFor() == (i - 1 - cfg.Limit()) * cfg.LockFor() + cfg.LockFor();
  }

  // A note about one subject: its own keys, and nobody else's.
  lemma StormNote(cfg: Config, kind: string, subject: string, n: nat, db: Db)
    requires subject != "" && StormTime(cfg, n) < cfg.Window() && StormOn(cfg, kind, subject, n, db)
    ensures StormOn(cfg, kind, subject, n + 1, NotedOne(db, cfg, kind, subject, StormTime(cfg, n)))
  {
  }

  lemma NoteSparesOthers(cfg: Config, kind: string, subject: string, now: Time, db: Db, k: string, s: string, n: nat)
    requires (k, s) != (kind, subject) && StormOn(cfg, k, s, n, db)
    ensures StormOn(cfg, k, s, n, NotedOne(db, cfg, kind, subject, now))
  {
  }

  lemma StormStep(cfg: Config, id: string, ip: string, n: nat, db: Db)
    requires id != "" && n < cfg.Limit() + CeilDiv(cfg.Window(), cfg.LockFor()) && StormDb(cfg, id, ip, n, db)
    ensures var at := StormTime(cfg, n);
      && Reaches(db, id, ip, at)
      && (n > 0 <==> Exists(db, RiskFailures("id", id), at))
      && StormDb(cfg, id, ip, n + 1, Step(db, cfg, Event.Login(at, id, ip, VerifyFails)))
  {
    var at := StormTime(cfg, n);
    StormStaysInWindow(cfg, n);
    if n > cfg.Limit() {
      NextStormTime(cfg, n);
    }
    var counted := NotedOne(db, cfg, "id", id, at);
    StormNote(cfg, "id", id, n, db);
    if ip != "" {
      NoteSparesOthers(cfg, "id", id, at, db, "ip", ip, n);
      StormNote(cfg, "ip", ip, n, counted);
      NoteSparesOthers(cfg, "ip", ip, at, counted, "id", id, n + 1);
    }
  }

  lemma {:induction false} StormFailsThroughout(cfg: Config, id: string, ip: string, n: nat)
    requires id != "" && n <= cfg.Limit() + CeilDiv(cfg.Window(), cfg.LockFor())
    ensures var es := Storm(cfg, id, ip, n);
      && StormDb(cfg, id, ip, n, Run(cfg, es))
      && Failures(cfg, es, id, 0) == n
      && (n > 0 ==> FailsAt(cfg, es, n - 1, id) && (n > 1 <==> CountingAt(cfg, es, n - 1, id)))
  {
    if n > 0 {
      var es := Storm(cfg, id, ip, n);
      assert es[..n - 1] == Storm(cfg, id, ip, n - 1);
      StormFailsThroughout(cfg, id, ip, n - 1);
      StormStep(cfg, id, ip, n - 1, Run(cfg, es[..n - 1]));
    }
  }

  lemma StormCallFails(cfg: Config, id: string, ip: string, n: nat, k: nat)
    requires id != "" && k < n <= cfg.Limit() + CeilDiv(cfg.Window(), cfg.LockFor())
    ensures FailsAt(cfg, Storm(cfg, id, ip, n), k, id)
    ensures k > 0 <==> CountingAt(cfg, Storm(cfg, id, ip, n), k, id)
  {
    var es, upTo := Storm(cfg, id, ip, n), Storm(cfg, id, ip, k + 1);
    StormFailsThroughout(cfg, id, ip, k + 1);
    assert upTo[..k] == es[..k] && upTo[k] == es[k];
    assert FailsAt(cfg, upTo, k, id) == FailsAt(cfg, es, k, id);
    assert CountingAt(cfg, upTo, k, id) == CountingAt(cfg, es, k, id);
  }

  // The bound is reached, for every configuration and from any single address.
  lemma BoundIsReached(cfg: Config, id: string, ip: string)
    requires id != ""
    ensures var n := cfg.Limit() + CeilDiv(cfg.Window(), cfg.LockFor());
      var es := Storm(cfg, id, ip, n);
      Timely(es) && OneWindow(cfg, es, id, 0) && Failures(cfg, es, id, 0) == n && Unlocks(es, id, 0) == 0
  {
    var n := cfg.Limit() + CeilDiv(cfg.Window(), cfg.LockFor());
    var es := Storm(cfg, id, ip, n);
    forall k | 0 <= k < n
      ensures FailsAt(cfg, es, k, id) && (k > 0 <==> CountingAt(cfg, es, k, id))
    {
      StormCallFails(cfg, id, ip, n, k);
    }
    StormFailsThroughout(cfg, id, ip, n);
    StormIsTimely(cfg, id, ip, n);
    StormHasNoUnlocks(cfg, id, ip, n);
  }

  lemma StormIsTimely(cfg: Config, id: string, ip: string, n: nat)
    ensures Timely(Storm(cfg, id, ip, n))
  {
    forall i: nat, j: nat | i <= j
      ensures StormTime(cfg, i) <= StormTime(cfg, j)
    {
      MulMonotone(i - cfg.Limit(), j - cfg.Limit(), cfg.LockFor());
    }
  }

  lemma {:induction false} StormHasNoUnlocks(cfg: Config, id: string, ip: string, n: nat)
    ensures Unlocks(Storm(cfg, id, ip, n), id, 0) == 0
  {
    if n > 0 {
      assert Storm(cfg, id, ip, n)[..n - 1] == Storm(cfg, id, ip, n - 1);
      StormHasNoUnlocks(cfg, id, ip, n - 1);
    }
  }
}
