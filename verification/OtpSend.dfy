/**
 * Sending one-time codes: four fixed-window counters and a resend cooldown in a
 * row, each spent even when a later one refuses the call.
 */
module OtpSend {
  import opened Common
  import opened Redis
  import opened FixedWindow

  const HOURLY_PER_IDENTITY := 10
  const HOURLY_PER_IP := 30

  // The intervals are in seconds, as configured.
  datatype Config = Config(dailyPerIdentity: int, dailyPerIp: int, resendInterval: int, ttl: nat) {
    function IdentityDaily(): (r: int)
      ensures r > 0
    {
      if dailyPerIdentity <= 0 then 20 else dailyPerIdentity
    }

    function IpDaily(): (r: int)
      ensures r > 0
    {
      if dailyPerIp <= 0 then 50 else dailyPerIp
    }
  }

  // `identity` is already normalised; an empty ip skips the per-address counters.
  datatype Call = Call(at: Time, otpMethod: string, identity: string, ip: string) {
    function Day(): nat {
      at / DAY
    }
  }

  datatype Sent = Sent(db: Db, created: bool)

  function Limited(db: Db, key: Key, limit: int, window: nat, now: Time): Sent
  {
    var d := Hit(db, key, now, window);
    Sent(d, d[key].value <= limit)
  }

  function Cooldown(db: Db, cfg: Config, c: Call): Sent
  {
    var key := OtpResend(c.otpMethod, c.identity);
    if cfg.resendInterval <= 0 then Sent(db, true)
    else if Exists(db, key, c.at) then Sent(db, false)
    else Sent(Put(db, key, 1, c.at, cfg.resendInterval * SECOND), true)
  }

  // The counters in order; the first refusal ends the call with what was spent so far.
  function Spend(db: Db, cfg: Config, c: Call): Sent
  {
    var s1 := Limited(db, OtpIdentityHour(c.identity), HOURLY_PER_IDENTITY, HOUR, c.at);
    if !s1.created then s1 else
    var s2 := if c.ip == "" then s1 else Limited(s1.db, OtpIpHour(c.ip), HOURLY_PER_IP, HOUR, c.at);
    if !s2.created then s2 else
    var s3 := Limited(s2.db, OtpIdentityDay(c.Day(), c.identity), cfg.IdentityDaily(), DAY, c.at);
    if !s3.created then s3 else
    var s4 := if c.ip == "" then s3 else Limited(s3.db, OtpIpDay(c.Day(), c.ip), cfg.IpDaily(), DAY, c.at);
    if !s4.created then s4 else Cooldown(s4.db, cfg, c)
  }

  // Every counter has room and no cooldown is on.
  lemma SpendCreatesIff(db: Db, cfg: Config, c: Call)
    ensures Spend(db, cfg, c).created <==>
            && Count(db, OtpIdentityHour(c.identity), c.at) < 10
            && (c.ip == "" || Count(db, OtpIpHour(c.ip), c.at) < 30)
            && Count(db, OtpIdentityDay(c.Day(), c.identity), c.at) < cfg.IdentityDaily()
            && (c.ip == "" || Count(db, OtpIpDay(c.Day(), c.ip), c.at) < cfg.IpDaily())
            && (cfg.resendInterval <= 0 || !Exists(db, OtpResend(c.otpMethod, c.identity), c.at))
  {
  }

  datatype ChallengeRow = ChallengeRow(otpMethod: string, identity: string, expireAt: Time)

  class Sender {
    const redis: Client
    const cfg: Config
    var challenges: seq<ChallengeRow>

    constructor (redis: Client, cfg: Config)
      ensures this.redis == redis && this.cfg == cfg && challenges == []
    {
      this.redis := redis;
      this.cfg := cfg;
      challenges := [];
    }

    // `delivered` tells whether the message gateway took the code; the row stays either way.
    method Challenge(c: Call, delivered: bool) returns (r: Result<()>)
      modifies this`challenges, redis
      // Created iff none of the counters is full and no cooldown is on.
      ensures (r.Ok? || r.error == Internal) <==>
              && Count(old(redis.db), OtpIdentityHour(c.identity), c.at) < 10
              && (c.ip == "" || Count(old(redis.db), OtpIpHour(c.ip), c.at) < 30)
              && Count(old(redis.db), OtpIdentityDay(c.at / DAY, c.identity), c.at) <
                   (if cfg.dailyPerIdentity <= 0 then 20 else cfg.dailyPerIdentity)
              && (c.ip == "" || Count(old(redis.db), OtpIpDay(c.at / DAY, c.ip), c.at) <
                                  if cfg.dailyPerIp <= 0 then 50 else cfg.dailyPerIp)
              && (cfg.resendInterval <= 0 || !Exists(old(redis.db), OtpResend(c.otpMethod, c.identity), c.at))
      ensures r.Err? ==> r.error == RateLimited || (r.error == Internal && !delivered)
      ensures r.Ok? ==> delivered
      ensures challenges ==
              if r.Ok? || r.error == Internal
              then old(challenges) + [ChallengeRow(c.otpMethod, c.identity, c.at + cfg.ttl * SECOND)]
              else old(challenges)
      ensures Lookup(redis.db, OtpIdentityHour(c.identity)) ==
              Some(Bump(Lookup(old(redis.db), OtpIdentityHour(c.identity)), c.at, HOUR))
      ensures var s := Spend(old(redis.db), cfg, c);
        && redis.db == s.db
        && challenges == (if s.created
                          then old(challenges) + [ChallengeRow(c.otpMethod, c.identity, c.at + cfg.ttl * SECOND)]
                          else old(challenges))
        && r == if !s.created then Err(RateLimited) else if delivered then Ok(()) else Err(Internal)
    {
      SpendCreatesIff(redis.db, cfg, c);
      SpendOnHourKey(redis.db, cfg, c, c.identity);
      var ok, wait := redis.Allow(OtpIdentityHour(c.identity), HOURLY_PER_IDENTITY, HOUR, c.at);
      if !ok {
        return Err(RateLimited);
      }
      if c.ip != "" {
        ok, wait := redis.Allow(OtpIpHour(c.ip), HOURLY_PER_IP, HOUR, c.at);
        if !ok {
          return Err(RateLimited);
        }
      }
      ok, wait := redis.Allow(OtpIdentityDay(c.Day(), c.identity), cfg.IdentityDaily(), DAY, c.at);
      if !ok {
        return Err(RateLimited);
      }
      if c.ip != "" {
        ok, wait := redis.Allow(OtpIpDay(c.Day(), c.ip), cfg.IpDaily(), DAY, c.at);
        if !ok {
          return Err(RateLimited);
        }
      }
      if cfg.resendInterval > 0 {
        var fresh_ := redis.SetNX(OtpResend(c.otpMethod, c.identity), cfg.resendInterval * SECOND, c.at);
        if !fresh_ {
          return Err(RateLimited);
        }
      }
      challenges := challenges + [ChallengeRow(c.otpMethod, c.identity, c.at + cfg.ttl * SECOND)];
      r := if delivered then Ok(()) else Err(Internal);
    }
  }

  // ---------------------------------------------------------------- runs

  function Run(cfg: Config, calls: seq<Call>): Db
  {
    if calls == [] then map[] else Spend(Run(cfg, calls[..|calls| - 1]), cfg, calls[|calls| - 1]).db
  }

  predicate CreatedAt(cfg: Config, calls: seq<Call>, i: nat)
    requires i < |calls|
  {
    Spend(Run(cfg, calls[..i]), cfg, calls[i]).created
  }

  // Challenges created for an identity at a time in [a, b).
  function CreatedIn(cfg: Config, calls: seq<Call>, identity: string, a: int, b: int): nat
  {
    if calls == [] then 0
    else
      var i := |calls| - 1;
      CreatedIn(cfg, calls[..i], identity, a, b) +
      if calls[i].identity == identity && a <= calls[i].at < b && CreatedAt(cfg, calls, i) then 1 else 0
  }

  ghost predicate Timely(calls: seq<Call>)
  {
    forall i, j :: 0 <= i <= j < |calls| ==> calls[i].at <= calls[j].at
  }

  // The times of an identity's calls, refused or not.
  function Times(calls: seq<Call>, identity: string): seq<Time>
  {
    if calls == [] then []
    else
      var c := calls[|calls| - 1];
      var before := Times(calls[..|calls| - 1], identity);
      if c.identity == identity then before + [c.at] else before
  }

  lemma {:induction false} TimesAreTimely(calls: seq<Call>, identity: string)
    requires Timely(calls)
    ensures Nondecreasing(Times(calls, identity))
    ensures forall i :: 0 <= i < |Times(calls, identity)| ==>
      calls != [] && Times(calls, identity)[i] <= calls[|calls| - 1].at
  {
    if |calls| > 0 {
      TimesAreTimely(calls[..|calls| - 1], identity);
      if |calls| > 1 {
        assert calls[|calls| - 2].at <= calls[|calls| - 1].at;
      }
    }
  }

  // What one call does to the identity's hourly counter.
  lemma SpendOnHourKey(db: Db, cfg: Config, c: Call, identity: string)
    ensures var key := OtpIdentityHour(identity);
      var s := Spend(db, cfg, c);
      Lookup(s.db, key) == if c.identity == identity then Some(Bump(Lookup(db, key), c.at, HOUR)) else Lookup(db, key)
    ensures Spend(db, cfg, c).created ==>
      Bump(Lookup(db, OtpIdentityHour(c.identity)), c.at, HOUR).value <= HOURLY_PER_IDENTITY
  {
  }

  // What one call does to the identity's counter of a given day.
  lemma SpendOnDayKey(db: Db, cfg: Config, c: Call, day: nat, identity: string)
    ensures var key := OtpIdentityDay(day, identity);
      var s := Spend(db, cfg, c);
      && (Lookup(s.db, key) == Lookup(db, key) ||
          (c.Day() == day && c.identity == identity && Lookup(s.db, key) == Some(Bump(Lookup(db, key), c.at, DAY))))
      && (s.created && c.Day() == day && c.identity == identity ==>
            Lookup(s.db, key) == Some(Bump(Lookup(db, key), c.at, DAY)) &&
            s.db[key].value <= cfg.IdentityDaily())
  {
  }

  lemma SpendOnResendKey(db: Db, cfg: Config, c: Call, otpMethod: string, identity: string)
    requires cfg.resendInterval > 0
    ensures var key := OtpResend(otpMethod, identity);
      var s := Spend(db, cfg, c);
      && (s.created && c.otpMethod == otpMethod && c.identity == identity ==>
            !Exists(db, key, c.at) && Lookup(s.db, key) == Some(Entry(1, Some(c.at + cfg.resendInterval * SECOND))))
      && (!(s.created && c.otpMethod == otpMethod && c.identity == identity) ==> Lookup(s.db, key) == Lookup(db, key))
  {
  }

  lemma {:induction false} HourKeyReplaysTimes(cfg: Config, calls: seq<Call>, identity: string)
    ensures Lookup(Run(cfg, calls), OtpIdentityHour(identity)) == Replay(Times(calls, identity), HOUR)
  {
    if calls != [] {
      var i := |calls| - 1;
      HourKeyReplaysTimes(cfg, calls[..i], identity);
      SpendOnHourKey(Run(cfg, calls[..i]), cfg, calls[i], identity);
      var ts := Times(calls[..i], identity);
      assert (ts + [calls[i].at])[..|ts|] == ts;
    }
  }

  // A created challenge was let through by the hourly limiter.
  lemma {:induction false} CreatedWithinAdmitted(cfg: Config, calls: seq<Call>, identity: string, a: int, b: int)
    ensures CreatedIn(cfg, calls, identity, a, b) <= AdmittedIn(Times(calls, identity), HOURLY_PER_IDENTITY, HOUR, a, b)
  {
    if calls != [] {
      var i := |calls| - 1;
      CreatedWithinAdmitted(cfg, calls[..i], identity, a, b);
      if calls[i].identity == identity {
        var ts := Times(calls[..i], identity);
        var all := Times(calls, identity);
        assert all[..|ts|] == ts && all[..|ts| + 1] == all;
        HourKeyReplaysTimes(cfg, calls[..i], identity);
        SpendOnHourKey(Run(cfg, calls[..i]), cfg, calls[i], identity);
      }
    }
  }

  // No run creates more than 19 challenges for an identity in any hour.
  lemma HourlyBound(cfg: Config, calls: seq<Call>, identity: string, a: int)
    requires Timely(calls)
    ensures CreatedIn(cfg, calls, identity, a, a + HOUR) <= 2 * HOURLY_PER_IDENTITY - 1
  {
    TimesAreTimely(calls, identity);
    CreatedWithinAdmitted(cfg, calls, identity, a, a + HOUR);
    AtMostTwiceLimitLessOne(Times(calls, identity), HOURLY_PER_IDENTITY, HOUR, a);
  }

  // The day's key outlives its day, so it counts every created challenge of the day.
  lemma {:induction false} DayKeyCountsDay(cfg: Config, calls: seq<Call>, identity: string, day: nat)
    ensures var e := Lookup(Run(cfg, calls), OtpIdentityDay(day, identity));
      && (e.Some? ==> e.value.value >= 1 && e.value.expireAt.Some? && e.value.expireAt.value >= day * DAY + DAY)
      && CreatedIn(cfg, calls, identity, day * DAY, day * DAY + DAY) <=
           (if e.None? then 0 else Min(e.value.value, cfg.IdentityDaily()))
  {
    if calls != [] {
      var i := |calls| - 1;
      DayKeyCountsDay(cfg, calls[..i], identity, day);
      SpendOnDayKey(Run(cfg, calls[..i]), cfg, calls[i], day, identity);
      DayOf(calls[i].at, day);
    }
  }

  lemma DayOf(at: Time, day: nat)
    ensures at / DAY == day <==> day * DAY <= at < day * DAY + DAY
  {
  }

  // On every UTC day an identity gets at most its daily limit, across both code methods.
  lemma DailyBound(cfg: Config, calls: seq<Call>, identity: string, day: nat)
    ensures CreatedIn(cfg, calls, identity, day * DAY, day * DAY + DAY) <= cfg.IdentityDaily()
  {
    DayKeyCountsDay(cfg, calls, identity, day);
  }

  // The cooldown key of a method and identity reaches at least until the given instant.
  ghost predicate CoolsUntil(db: Db, otpMethod: string, identity: string, until: int)
  {
    var e := Lookup(db, OtpResend(otpMethod, identity));
    e.Some? && e.value.expireAt.Some? && e.value.expireAt.value >= until
  }

  lemma SpendKeepsCooldown(db: Db, cfg: Config, c: Call, otpMethod: string, identity: string, until: int)
    requires cfg.resendInterval > 0 && until <= c.at + cfg.resendInterval * SECOND
    requires CoolsUntil(db, otpMethod, identity, until) ||
             (Spend(db, cfg, c).created && c.otpMethod == otpMethod && c.identity == identity)
    ensures CoolsUntil(Spend(db, cfg, c).db, otpMethod, identity, until)
  {
    SpendOnResendKey(db, cfg, c, otpMethod, identity);
  }

  lemma {:induction false} CooldownContinues(cfg: Config, calls: seq<Call>, m: nat, otpMethod: string,
                                             identity: string, until: int)
    requires cfg.resendInterval > 0 && m <= |calls| && CoolsUntil(Run(cfg, calls[..m]), otpMethod, identity, until)
    requires forall k :: m <= k < |calls| ==> until <= calls[k].at + cfg.resendInterval * SECOND
    ensures CoolsUntil(Run(cfg, calls), otpMethod, identity, until)
  {
    var k := |calls| - 1;
    if m == |calls| {
      assert calls[..m] == calls;
    } else {
      assert calls[..k][..m] == calls[..m];
      CooldownContinues(cfg, calls[..k], m, otpMethod, identity, until);
      SpendKeepsCooldown(Run(cfg, calls[..k]), cfg, calls[k], otpMethod, identity, until);
    }
  }

  lemma CooldownStarts(cfg: Config, calls: seq<Call>, i: nat)
    requires cfg.resendInterval > 0 && i < |calls| && CreatedAt(cfg, calls, i)
    ensures CoolsUntil(Run(cfg, calls[..i + 1]), calls[i].otpMethod, calls[i].identity,
                       calls[i].at + cfg.resendInterval * SECOND)
  {
    assert calls[..i + 1][..i] == calls[..i];
    SpendKeepsCooldown(Run(cfg, calls[..i]), cfg, calls[i], calls[i].otpMethod, calls[i].identity,
                       calls[i].at + cfg.resendInterval * SECOND);
  }

  // Two challenges of one method and identity are at least the resend interval apart.
  lemma ResendsAreSpaced(cfg: Config, calls: seq<Call>, i: nat, j: nat)
    requires cfg.resendInterval > 0 && Timely(calls) && i < j < |calls|
    requires CreatedAt(cfg, calls, i) && CreatedAt(cfg, calls, j)
    requires calls[i].otpMethod == calls[j].otpMethod && calls[i].identity == calls[j].identity
    ensures calls[j].at >= calls[i].at + cfg.resendInterval * SECOND
  {
    CooldownStarts(cfg, calls, i);
    assert calls[..j][..i + 1] == calls[..i + 1];
    CooldownContinues(cfg, calls[..j], i + 1, calls[i].otpMethod, calls[i].identity,
                      calls[i].at + cfg.resendInterval * SECOND);
    CreatedOnlyAfterCooldown(Run(cfg, calls[..j]), cfg, calls[j], calls[i].at + cfg.resendInterval * SECOND);
  }

  lemma CreatedOnlyAfterCooldown(db: Db, cfg: Config, c: Call, until: int)
    requires cfg.resendInterval > 0 && CoolsUntil(db, c.otpMethod, c.identity, until) && Spend(db, cfg, c).created
    ensures until <= c.at
  {
    SpendOnResendKey(db, cfg, c, c.otpMethod, c.identity);
  }

  // ---------------------------------------------------------------- per address

  // Challenges created from an address at a time in [a, b).
  function CreatedFrom(cfg: Config, calls: seq<Call>, ip: string, a: int, b: int): nat
  {
    if calls == [] then 0
    else
      var i := |calls| - 1;
      CreatedFrom(cfg, calls[..i], ip, a, b) +
      if calls[i].ip == ip && a <= calls[i].at < b && CreatedAt(cfg, calls, i) then 1 else 0
  }

  // A call that gets past the identity's hourly counter.
  predicate PassesHour(db: Db, c: Call)
  {
    Count(db, OtpIdentityHour(c.identity), c.at) < HOURLY_PER_IDENTITY
  }

  // The times of the calls from an address that reach its counter.
  function AddressTimes(cfg: Config, calls: seq<Call>, ip: string): seq<Time>
  {
    if calls == [] then []
    else
      var i := |calls| - 1;
      var before := AddressTimes(cfg, calls[..i], ip);
      if calls[i].ip == ip && PassesHour(Run(cfg, calls[..i]), calls[i]) then before + [calls[i].at] else before
  }

  lemma {:induction false} AddressTimesAreTimely(cfg: Config, calls: seq<Call>, ip: string)
    requires Timely(calls)
    ensures Nondecreasing(AddressTimes(cfg, calls, ip))
    ensures forall i :: 0 <= i < |AddressTimes(cfg, calls, ip)| ==>
      calls != [] && AddressTimes(cfg, calls, ip)[i] <= calls[|calls| - 1].at
  {
    if |calls| > 0 {
      AddressTimesAreTimely(cfg, calls[..|calls| - 1], ip);
      if |calls| > 1 {
        assert calls[|calls| - 2].at <= calls[|calls| - 1].at;
      }
    }
  }

  // What one call does to an address's hourly counter.
  lemma SpendOnIpHourKey(db: Db, cfg: Config, c: Call, ip: string)
    requires ip != ""
    ensures Lookup(Spend(db, cfg, c).db, OtpIpHour(ip)) ==
            if c.ip == ip && PassesHour(db, c) then Some(Bump(Lookup(db, OtpIpHour(ip)), c.at, HOUR))
            else Lookup(db, OtpIpHour(ip))
    ensures Spend(db, cfg, c).created && c.ip == ip ==>
              PassesHour(db, c) && Bump(Lookup(db, OtpIpHour(ip)), c.at, HOUR).value <= HOURLY_PER_IP
  {
  }

  lemma {:induction false} IpHourKeyReplaysTimes(cfg: Config, calls: seq<Call>, ip: string)
    requires ip != ""
    ensures Lookup(Run(cfg, calls), OtpIpHour(ip)) == Replay(AddressTimes(cfg, calls, ip), HOUR)
  {
    if calls != [] {
      var i := |calls| - 1;
      IpHourKeyReplaysTimes(cfg, calls[..i], ip);
      SpendOnIpHourKey(Run(cfg, calls[..i]), cfg, calls[i], ip);
      var ts := AddressTimes(cfg, calls[..i], ip);
      assert (ts + [calls[i].at])[..|ts|] == ts;
    }
  }

  lemma {:induction false} CreatedWithinAddress(cfg: Config, calls: seq<Call>, ip: string, a: int, b: int)
    requires ip != ""
    ensures CreatedFrom(cfg, calls, ip, a, b) <= AdmittedIn(AddressTimes(cfg, calls, ip), HOURLY_PER_IP, HOUR, a, b)
  {
    if calls != [] {
      var i := |calls| - 1;
      var db := Run(cfg, calls[..i]);
      CreatedWithinAddress(cfg, calls[..i], ip, a, b);
      SpendOnIpHourKey(db, cfg, calls[i], ip);
      if calls[i].ip == ip && PassesHour(db, calls[i]) {
        var ts := AddressTimes(cfg, calls[..i], ip);
        var all := AddressTimes(cfg, calls, ip);
        assert all[..|ts|] == ts && all[..|ts| + 1] == all;
        IpHourKeyReplaysTimes(cfg, calls[..i], ip);
      }
    }
  }

  // No run creates more than 59 challenges from one address in any hour.
  lemma AddressHourlyBound(cfg: Config, calls: seq<Call>, ip: string, a: int)
    requires Timely(calls) && ip != ""
    ensures CreatedFrom(cfg, calls, ip, a, a + HOUR) <= 2 * 30 - 1
  {
    AddressTimesAreTimely(cfg, calls, ip);
    CreatedWithinAddress(cfg, calls, ip, a, a + HOUR);
    AtMostTwiceLimitLessOne(AddressTimes(cfg, calls, ip), HOURLY_PER_IP, HOUR, a);
  }

  lemma SpendOnIpDayKey(db: Db, cfg: Config, c: Call, day: nat, ip: string)
    requires ip != ""
    ensures var key := OtpIpDay(day, ip);
      var s := Spend(db, cfg, c);
      && (Lookup(s.db, key) == Lookup(db, key) ||
          (c.Day() == day && c.ip == ip && Lookup(s.db, key) == Some(Bump(Lookup(db, key), c.at, DAY))))
      && (s.created && c.Day() == day && c.ip == ip ==>
            Lookup(s.db, key) == Some(Bump(Lookup(db, key), c.at, DAY)) && s.db[key].value <= cfg.IpDaily())
  {
  }

  lemma {:induction false} IpDayKeyCountsDay(cfg: Config, calls: seq<Call>, ip: string, day: nat)
    requires ip != ""
    ensures var e := Lookup(Run(cfg, calls), OtpIpDay(day, ip));
      && (e.Some? ==> e.value.value >= 1 && e.value.expireAt.Some? && e.value.expireAt.value >= day * DAY + DAY)
      && CreatedFrom(cfg, calls, ip, day * DAY, day * DAY + DAY) <=
           (if e.None? then 0 else Min(e.value.value, cfg.IpDaily()))
  {
    if calls != [] {
      var i := |calls| - 1;
      IpDayKeyCountsDay(cfg, calls[..i], ip, day);
      SpendOnIpDayKey(Run(cfg, calls[..i]), cfg, calls[i], day, ip);
      DayOf(calls[i].at, day);
    }
  }

  // The daily bounds in the settings themselves.
  lemma DailyBoundsInSettings(cfg: Config, calls: seq<Call>, identity: string, ip: string, day: nat)
    ensures CreatedIn(cfg, calls, identity, day * DAY, day * DAY + DAY) <=
            if cfg.dailyPerIdentity <= 0 then 20 else cfg.dailyPerIdentity
    ensures ip != "" ==> CreatedFrom(cfg, calls, ip, day * DAY, day * DAY + DAY) <=
                           if cfg.dailyPerIp <= 0 then 50 else cfg.dailyPerIp
  {
    DailyBound(cfg, calls, identity, day);
    if ip != "" {
      IpDayKeyCountsDay(cfg, calls, ip, day);
    }
  }
}
