/**
 * The most codes of one method that one identity can be sent within an hour: exactly the least of
 * what the hourly counter, the daily counter on two days, and the cooldown allow.
 */
module OtpPeak {
  import opened Common
  import opened Redis
  import opened OtpSend

  // Challenges created for an identity by one method at a time in [a, b).
  function CreatedOf(cfg: Config, calls: seq<Call>, otpMethod: string, identity: string, a: int, b: int): nat
  {
    if calls == [] then 0
    else
      var i := |calls| - 1;
      CreatedOf(cfg, calls[..i], otpMethod, identity, a, b) +
      if Counts(cfg, calls, i, otpMethod, identity, a, b) then 1 else 0
  }

  predicate Counts(cfg: Config, calls: seq<Call>, i: nat, otpMethod: string, identity: string, a: int, b: int)
    requires i < |calls|
  {
    calls[i].otpMethod == otpMethod && calls[i].identity == identity && a <= calls[i].at < b && CreatedAt(cfg, calls, i)
  }

  function CreatedInHour(cfg: Config, calls: seq<Call>, otpMethod: string, identity: string, a: int): nat
  {
    CreatedOf(cfg, calls, otpMethod, identity, a, a + HOUR)
  }

  function Spacing(cfg: Config): nat
  {
    if cfg.resendInterval <= 0 then 0 else cfg.resendInterval * SECOND
  }

  // How many calls an interval apart fit an hour.
  function CooldownFits(cfg: Config): nat
  {
    if cfg.resendInterval <= 0 then 2 * HOURLY_PER_IDENTITY - 1 else 3599 / cfg.resendInterval + 1
  }

  function Peak(cfg: Config): nat
  {
    Min(2 * HOURLY_PER_IDENTITY - 1, Min(2 * cfg.IdentityDaily(), CooldownFits(cfg)))
  }

  // ---------------------------------------------------------------- the bound

  lemma {:induction false} MethodWithinIdentity(cfg: Config, calls: seq<Call>, otpMethod: string, identity: string,
                                                a: int, b: int)
    ensures CreatedOf(cfg, calls, otpMethod, identity, a, b) <= CreatedIn(cfg, calls, identity, a, b)
  {
    if calls != [] {
      MethodWithinIdentity(cfg, calls[..|calls| - 1], otpMethod, identity, a, b);
    }
  }

  lemma {:induction false} TwoIntervals(cfg: Config, calls: seq<Call>, identity: string, a: int, b: int,
                                        p: int, q: int, r: int)
    requires Max(a, 0) >= p && b <= r
    ensures CreatedIn(cfg, calls, identity, a, b) <=
            CreatedIn(cfg, calls, identity, p, q) + CreatedIn(cfg, calls, identity, q, r)
  {
    if calls != [] {
      TwoIntervals(cfg, calls[..|calls| - 1], identity, a, b, p, q, r);
    }
  }

  // An hour touches two days.
  lemma TwoDaysBound(cfg: Config, calls: seq<Call>, identity: string, a: int)
    ensures CreatedIn(cfg, calls, identity, a, a + HOUR) <= 2 * cfg.IdentityDaily()
  {
    var day: nat := if a < 0 then 0 else a / DAY;
    DayOf(if a < 0 then 0 else a, day);
    DailyBound(cfg, calls, identity, day);
    DailyBound(cfg, calls, identity, day + 1);
    assert (day + 1) * DAY == day * DAY + DAY;
    TwoIntervals(cfg, calls, identity, a, a + HOUR, day * DAY, day * DAY + DAY, day * DAY + DAY + DAY);
  }

  lemma PrefixCreated(cfg: Config, calls: seq<Call>, n: nat, i: nat)
    requires i < n <= |calls|
    ensures CreatedAt(cfg, calls[..n], i) == CreatedAt(cfg, calls, i)
  {
    assert calls[..n][..i] == calls[..i];
  }

  // When the counted challenges were created.
  function Marks(cfg: Config, calls: seq<Call>, otpMethod: string, identity: string, a: int, b: int): seq<Time>
  {
    if calls == [] then []
    else
      var i := |calls| - 1;
      Marks(cfg, calls[..i], otpMethod, identity, a, b) +
      if Counts(cfg, calls, i, otpMethod, identity, a, b) then [calls[i].at] else []
  }

  lemma {:induction false} MarksCount(cfg: Config, calls: seq<Call>, otpMethod: string, identity: string,
                                      a: int, b: int)
    ensures |Marks(cfg, calls, otpMethod, identity, a, b)| == CreatedOf(cfg, calls, otpMethod, identity, a, b)
  {
    if calls != [] {
      MarksCount(cfg, calls[..|calls| - 1], otpMethod, identity, a, b);
    }
  }

  lemma {:induction false} MarkOfCall(cfg: Config, calls: seq<Call>, otpMethod: string, identity: string,
                                      a: int, b: int, t: Time) returns (i: nat)
    requires t in Marks(cfg, calls, otpMethod, identity, a, b)
    ensures i < |calls| && Counts(cfg, calls, i, otpMethod, identity, a, b) && calls[i].at == t
  {
    var k := |calls| - 1;
    if t in Marks(cfg, calls[..k], otpMethod, identity, a, b) {
      i := MarkOfCall(cfg, calls[..k], otpMethod, identity, a, b, t);
      PrefixCreated(cfg, calls, k, i);
    } else {
      i := k;
    }
  }

  ghost predicate Spaced(ts: seq<Time>, step: nat, a: int, b: int)
  {
    && (forall i :: 0 <= i < |ts| ==> a <= ts[i] < b)
    && (forall i, j :: 0 <= i < j < |ts| ==> ts[i] + step <= ts[j])
  }

  lemma MarkIsSpaced(cfg: Config, calls: seq<Call>, otpMethod: string, identity: string, a: int, b: int, t: Time)
    requires cfg.resendInterval > 0 && Timely(calls) && calls != []
    requires Counts(cfg, calls, |calls| - 1, otpMethod, identity, a, b)
    requires t in Marks(cfg, calls[..|calls| - 1], otpMethod, identity, a, b)
    ensures t + Spacing(cfg) <= calls[|calls| - 1].at
  {
    var k := |calls| - 1;
    var i := MarkOfCall(cfg, calls[..k], otpMethod, identity, a, b, t);
    PrefixCreated(cfg, calls, k, i);
    ResendsAreSpaced(cfg, calls, i, k);
  }

  lemma {:induction false} MarksAreSpaced(cfg: Config, calls: seq<Call>, otpMethod: string, identity: string,
                                          a: int, b: int)
    requires cfg.resendInterval > 0 && Timely(calls)
    ensures Spaced(Marks(cfg, calls, otpMethod, identity, a, b), Spacing(cfg), a, b)
  {
    if calls != [] {
      var k := |calls| - 1;
      var before := Marks(cfg, calls[..k], otpMethod, identity, a, b);
      MarksAreSpaced(cfg, calls[..k], otpMethod, identity, a, b);
      if Counts(cfg, calls, k, otpMethod, identity, a, b) {
        forall i | 0 <= i < |before| ensures before[i] + Spacing(cfg) <= calls[k].at {
          MarkIsSpaced(cfg, calls, otpMethod, identity, a, b, before[i]);
        }
      }
    }
  }

  // The last of n spaced moments comes n - 1 intervals after the start.
  lemma {:induction false} SpacedSpan(ts: seq<Time>, step: nat, a: int, b: int)
    requires ts != [] && Spaced(ts, step, a, b)
    ensures ts[|ts| - 1] >= a + (|ts| - 1) * step
  {
    var n := |ts| - 1;
    if n > 0 {
      SpacedSpan(ts[..n], step, a, b);
      assert n * step == (n - 1) * step + step;
    }
  }

  lemma MulMonotone(q: int, x: int, step: nat)
    ensures q <= x ==> q * step <= x * step
  {
  }

  lemma FitsHour(n: nat, interval: nat)
    requires interval > 0
    ensures n * (interval * SECOND) < HOUR <==> n <= 3599 / interval
  {
    var q := 3599 / interval;
    assert n * (interval * SECOND) == (n * interval) * SECOND;
    assert (q + 1) * interval == q * interval + interval;
    MulMonotone(q + 1, n, interval);
    MulMonotone(n, q, interval);
  }

  lemma CooldownBound(cfg: Config, calls: seq<Call>, otpMethod: string, identity: string, a: int)
    requires Timely(calls) && cfg.resendInterval > 0
    ensures CreatedOf(cfg, calls, otpMethod, identity, a, a + HOUR) <= CooldownFits(cfg)
  {
    var ts := Marks(cfg, calls, otpMethod, identity, a, a + HOUR);
    MarksCount(cfg, calls, otpMethod, identity, a, a + HOUR);
    MarksAreSpaced(cfg, calls, otpMethod, identity, a, a + HOUR);
    if ts != [] {
      SpacedSpan(ts, Spacing(cfg), a, a + HOUR);
      FitsHour(|ts| - 1, cfg.resendInterval);
    }
  }

  // No run sends an identity more than the peak of one method within an hour.
  lemma PeakBound(cfg: Config, calls: seq<Call>, otpMethod: string, identity: string, a: int)
    requires Timely(calls)
    ensures CreatedInHour(cfg, calls, otpMethod, identity, a) <= Peak(cfg)
  {
    MethodWithinIdentity(cfg, calls, otpMethod, identity, a, a + HOUR);
    HourlyBound(cfg, calls, identity, a);
    TwoDaysBound(cfg, calls, identity, a);
    if cfg.resendInterval > 0 {
      CooldownBound(cfg, calls, otpMethod, identity, a);
    }
  }

  // ---------------------------------------------------------------- the run that reaches it

  // Times for |ts| challenges: `late` of them before midnight, the first `early` in the window of
  // an opening call, the rest in the next window.
  datatype Plan = Plan(otpMethod: string, identity: string, ts: seq<Time>, late: nat, early: nat)

  ghost predicate Good(cfg: Config, p: Plan)
  {
    var n := |p.ts|;
    && p.early < n <= p.early + HOURLY_PER_IDENTITY && p.early < HOURLY_PER_IDENTITY
    && p.late <= n && p.late <= cfg.IdentityDaily() && n - p.late <= cfg.IdentityDaily()
    && (forall i, j :: 0 <= i < j < n ==> p.ts[i] < p.ts[j] && p.ts[i] + Spacing(cfg) <= p.ts[j])
    && (forall i :: 0 <= i < n ==>
          HOUR <= p.ts[i] < 2 * DAY && (p.ts[i] < DAY <==> i < p.late) && p.ts[i] < p.ts[0] + HOUR)
  }

  function Opening(p: Plan): int
    requires p.early < |p.ts|
  {
    p.ts[p.early] - HOUR
  }

  function Repeat(c: char, n: nat): (r: string)
    ensures |r| == n
  {
    seq(n, _ => c)
  }

  // Other people's calls from one crowded address, then the identity's own call from there: it
  // moves the hourly counter and is refused by the address counter.
  function Crowd(p: Plan, j: nat): Call
    requires p.early < |p.ts| && Opening(p) >= 0
  {
    Call(Opening(p), p.otpMethod, p.identity + Repeat('x', j + 1), "*")
  }

  function Opener(p: Plan): Call
    requires p.early < |p.ts| && Opening(p) >= 0
  {
    Call(Opening(p), p.otpMethod, p.identity, "*")
  }

  // The challenges themselves come from a new address each.
  function Own(p: Plan, k: nat): Call
    requires k < |p.ts|
  {
    Call(p.ts[k], p.otpMethod, p.identity, Repeat('*', k + 2))
  }

  function Crowding(p: Plan, j: nat): seq<Call>
    requires p.early < |p.ts| && Opening(p) >= 0
  {
    if j == 0 then [] else Crowding(p, j - 1) + [Crowd(p, j - 1)]
  }

  function Calls(p: Plan, k: nat): seq<Call>
    requires p.early < |p.ts| && Opening(p) >= 0 && k <= |p.ts|
  {
    if k == 0 then Crowding(p, HOURLY_PER_IP) + [Opener(p)] else Calls(p, k - 1) + [Own(p, k - 1)]
  }

  // No call has reached the identity's daily counters or its cooldown.
  ghost predicate Untouched(db: Db, p: Plan)
  {
    && (forall day :: OtpIdentityDay(day, p.identity) !in db)
    && OtpResend(p.otpMethod, p.identity) !in db
  }

  // No call has come from an address of `len` characters or more.
  ghost predicate FreshAddresses(db: Db, len: nat)
  {
    forall ip: string :: |ip| >= len ==> OtpIpHour(ip) !in db && forall day :: OtpIpDay(day, ip) !in db
  }

  ghost predicate FreshIdentities(db: Db, len: nat)
  {
    forall o: string :: |o| >= len ==> OtpIdentityHour(o) !in db
  }

  ghost predicate Crowded(db: Db, p: Plan, j: nat)
    requires p.early < |p.ts|
  {
    && Untouched(db, p) && FreshAddresses(db, 2) && FreshIdentities(db, |p.identity| + j + 1)
    && OtpIdentityHour(p.identity) !in db
    && Lookup(db, OtpIpHour("*")) == (if j == 0 then None else Some(Entry(j, Some(p.ts[p.early]))))
  }

  lemma SpendElsewhere(db: Db, cfg: Config, c: Call, key: Key)
    requires match key
      case OtpIdentityHour(o) => o != c.identity
      case OtpIpHour(ip) => ip != c.ip
      case OtpIdentityDay(_, o) => o != c.identity
      case OtpIpDay(_, ip) => ip != c.ip
      case OtpResend(_, o) => o != c.identity
      case _ => true
    ensures Lookup(Spend(db, cfg, c).db, key) == Lookup(db, key)
  {
  }

  lemma CrowdStep(db: Db, cfg: Config, p: Plan, j: nat)
    requires Good(cfg, p) && Opening(p) >= 0 && Crowded(db, p, j)
    ensures Crowded(Spend(db, cfg, Crowd(p, j)).db, p, j + 1)
  {
    var c := Crowd(p, j);
    var db' := Spend(db, cfg, c).db;
    assert |c.identity| == |p.identity| + j + 1;
    SpendOnIpHourKey(db, cfg, c, c.ip);
    forall day ensures OtpIdentityDay(day, p.identity) !in db' {
      SpendElsewhere(db, cfg, c, OtpIdentityDay(day, p.identity));
    }
    SpendElsewhere(db, cfg, c, OtpResend(p.otpMethod, p.identity));
    SpendElsewhere(db, cfg, c, OtpIdentityHour(p.identity));
    forall ip: string | |ip| >= 2 ensures OtpIpHour(ip) !in db' && forall day :: OtpIpDay(day, ip) !in db' {
      SpendElsewhere(db, cfg, c, OtpIpHour(ip));
      forall day ensures OtpIpDay(day, ip) !in db' { SpendElsewhere(db, cfg, c, OtpIpDay(day, ip)); }
    }
    forall o: string | |o| >= |p.identity| + j + 2 ensures OtpIdentityHour(o) !in db' {
      SpendElsewhere(db, cfg, c, OtpIdentityHour(o));
    }
  }

  // The hourly counter after k of the challenges.
  function HourEntry(p: Plan, k: nat): Entry
    requires p.early < |p.ts|
  {
    if k <= p.early then Entry(k + 1, Some(p.ts[p.early])) else Entry(k - p.early, Some(p.ts[p.early] + HOUR))
  }

  ghost predicate Stage(db: Db, cfg: Config, p: Plan, k: nat)
    requires p.early < |p.ts| && k <= |p.ts|
  {
    && FreshAddresses(db, k + 2)
    && Lookup(db, OtpIdentityHour(p.identity)) == Some(HourEntry(p, k))
    && (k <= p.late ==>
          Lookup(db, OtpIdentityDay(0, p.identity)) == (if k == 0 then None else Some(Entry(k, Some(p.ts[0] + DAY)))))
    && Lookup(db, OtpIdentityDay(1, p.identity)) ==
         (if k <= p.late then None else Some(Entry(k - p.late, Some(p.ts[p.late] + DAY))))
    && (cfg.resendInterval > 0 ==>
          Lookup(db, OtpResend(p.otpMethod, p.identity)) ==
            if k == 0 then None else Some(Entry(1, Some(p.ts[k - 1] + Spacing(cfg)))))
  }

  lemma OpenerStep(db: Db, cfg: Config, p: Plan)
    requires Good(cfg, p) && Opening(p) >= 0 && Crowded(db, p, HOURLY_PER_IP)
    ensures Stage(Spend(db, cfg, Opener(p)).db, cfg, p, 0) && !Spend(db, cfg, Opener(p)).created
  {
    var c := Opener(p);
    var counted := Hit(db, OtpIdentityHour(p.identity), c.at, HOUR);
    assert Spend(db, cfg, c) == Sent(Hit(counted, OtpIpHour("*"), c.at, HOUR), false);
  }

  lemma CreatedWhen(db: Db, cfg: Config, c: Call)
    requires c.ip != "" && OtpIpHour(c.ip) !in db && OtpIpDay(c.Day(), c.ip) !in db
    requires Bump(Lookup(db, OtpIdentityHour(c.identity)), c.at, HOUR).value <= HOURLY_PER_IDENTITY
    requires Bump(Lookup(db, OtpIdentityDay(c.Day(), c.identity)), c.at, DAY).value <= cfg.IdentityDaily()
    requires cfg.resendInterval > 0 ==> !Exists(db, OtpResend(c.otpMethod, c.identity), c.at)
    ensures Spend(db, cfg, c).created
  {
  }

  lemma StageHour(db: Db, cfg: Config, p: Plan, k: nat)
    requires Good(cfg, p) && k < |p.ts| && Stage(db, cfg, p, k)
    ensures Bump(Lookup(db, OtpIdentityHour(p.identity)), p.ts[k], HOUR) == HourEntry(p, k + 1)
    ensures HourEntry(p, k + 1).value <= HOURLY_PER_IDENTITY
  {
    assert p.ts[k] < p.ts[p.early] <==> k < p.early;
    assert p.ts[k] < p.ts[p.early] + HOUR by {
      assert p.ts[k] < p.ts[0] + HOUR && p.ts[0] <= p.ts[p.early];
    }
  }

  lemma StageDay(db: Db, cfg: Config, p: Plan, k: nat)
    requires Good(cfg, p) && k < |p.ts| && Stage(db, cfg, p, k)
    ensures Own(p, k).Day() == if k < p.late then 0 else 1
    ensures var day := Own(p, k).Day();
      Bump(Lookup(db, OtpIdentityDay(day, p.identity)), p.ts[k], DAY) ==
        if k < p.late then Entry(k + 1, Some(p.ts[0] + DAY)) else Entry(k + 1 - p.late, Some(p.ts[p.late] + DAY))
  {
    DayOf(p.ts[k], 0);
    DayOf(p.ts[k], 1);
    assert p.ts[k] < p.ts[0] + HOUR;
  }

  lemma StageCreates(db: Db, cfg: Config, p: Plan, k: nat)
    requires Good(cfg, p) && k < |p.ts| && Stage(db, cfg, p, k)
    ensures Spend(db, cfg, Own(p, k)).created
  {
    StageHour(db, cfg, p, k);
    StageDay(db, cfg, p, k);
    assert k > 0 ==> p.ts[k - 1] + Spacing(cfg) <= p.ts[k];
    CreatedWhen(db, cfg, Own(p, k));
  }

  lemma OwnAddresses(db: Db, cfg: Config, c: Call, len: nat)
    requires FreshAddresses(db, len) && |c.ip| == len
    ensures FreshAddresses(Spend(db, cfg, c).db, len + 1)
  {
    var db' := Spend(db, cfg, c).db;
    forall ip: string | |ip| >= len + 1 ensures OtpIpHour(ip) !in db' && forall day :: OtpIpDay(day, ip) !in db' {
      SpendElsewhere(db, cfg, c, OtpIpHour(ip));
      forall day ensures OtpIpDay(day, ip) !in db' { SpendElsewhere(db, cfg, c, OtpIpDay(day, ip)); }
    }
  }

  lemma StageStep(db: Db, cfg: Config, p: Plan, k: nat)
    requires Good(cfg, p) && k < |p.ts| && Stage(db, cfg, p, k)
    ensures Stage(Spend(db, cfg, Own(p, k)).db, cfg, p, k + 1)
  {
    var c := Own(p, k);
    StageCreates(db, cfg, p, k);
    StageHour(db, cfg, p, k);
    StageDay(db, cfg, p, k);
    SpendOnHourKey(db, cfg, c, p.identity);
    SpendOnDayKey(db, cfg, c, 0, p.identity);
    SpendOnDayKey(db, cfg, c, 1, p.identity);
    if cfg.resendInterval > 0 {
      SpendOnResendKey(db, cfg, c, p.otpMethod, p.identity);
    }
    OwnAddresses(db, cfg, c, k + 2);
  }

  // ---------------------------------------------------------------- the whole run

  lemma RunGrows(cfg: Config, calls: seq<Call>, c: Call)
    ensures Run(cfg, calls + [c]) == Spend(Run(cfg, calls), cfg, c).db
    ensures CreatedAt(cfg, calls + [c], |calls|) == Spend(Run(cfg, calls), cfg, c).created
  {
    assert (calls + [c])[..|calls|] == calls;
  }

  lemma CreatedGrows(cfg: Config, calls: seq<Call>, c: Call, otpMethod: string, identity: string, a: int, b: int)
    ensures CreatedOf(cfg, calls + [c], otpMethod, identity, a, b) ==
            CreatedOf(cfg, calls, otpMethod, identity, a, b) +
            if c.otpMethod == otpMethod && c.identity == identity && a <= c.at < b &&
               Spend(Run(cfg, calls), cfg, c).created
            then 1 else 0
  {
    RunGrows(cfg, calls, c);
    assert (calls + [c])[..|calls|] == calls;
  }

  lemma {:induction false} CrowdingCrowds(cfg: Config, p: Plan, j: nat)
    requires Good(cfg, p) && Opening(p) >= 0
    ensures Crowded(Run(cfg, Crowding(p, j)), p, j)
  {
    if j > 0 {
      CrowdingCrowds(cfg, p, j - 1);
      var db := Run(cfg, Crowding(p, j - 1));
      CrowdStep(db, cfg, p, j - 1);
      assert Run(cfg, Crowding(p, j)) == Spend(db, cfg, Crowd(p, j - 1)).db by {
        RunGrows(cfg, Crowding(p, j - 1), Crowd(p, j - 1));
      }
    }
  }

  lemma {:induction false} CrowdingCountsNothing(cfg: Config, p: Plan, j: nat)
    requires p.early < |p.ts| && Opening(p) >= 0
    ensures Counted(cfg, p, Crowding(p, j)) == 0
  {
    if j > 0 {
      CrowdingCountsNothing(cfg, p, j - 1);
      assert |Crowd(p, j - 1).identity| > |p.identity|;
      CreatedGrows(cfg, Crowding(p, j - 1), Crowd(p, j - 1), p.otpMethod, p.identity, p.ts[0], p.ts[0] + HOUR);
    }
  }

  lemma {:induction false} CrowdingIsAtOnce(p: Plan, j: nat)
    requires p.early < |p.ts| && Opening(p) >= 0
    ensures forall i :: 0 <= i < |Crowding(p, j)| ==> Crowding(p, j)[i].at == Opening(p)
  {
    if j > 0 {
      CrowdingIsAtOnce(p, j - 1);
    }
  }

  function Counted(cfg: Config, p: Plan, calls: seq<Call>): nat
    requires p.ts != []
  {
    CreatedInHour(cfg, calls, p.otpMethod, p.identity, p.ts[0])
  }

  lemma CallsStart(cfg: Config, p: Plan)
    requires Good(cfg, p) && Opening(p) >= 0
    ensures Stage(Run(cfg, Calls(p, 0)), cfg, p, 0)
  {
    var db := Run(cfg, Crowding(p, HOURLY_PER_IP));
    CrowdingCrowds(cfg, p, HOURLY_PER_IP);
    OpenerStep(db, cfg, p);
    assert Run(cfg, Calls(p, 0)) == Spend(db, cfg, Opener(p)).db by {
      RunGrows(cfg, Crowding(p, HOURLY_PER_IP), Opener(p));
    }
  }

  lemma NextCall(cfg: Config, p: Plan, k: nat)
    requires Good(cfg, p) && Opening(p) >= 0 && k < |p.ts| && Stage(Run(cfg, Calls(p, k)), cfg, p, k)
    ensures Stage(Run(cfg, Calls(p, k + 1)), cfg, p, k + 1)
    ensures Counted(cfg, p, Calls(p, k + 1)) == Counted(cfg, p, Calls(p, k)) + 1
  {
    var db := Run(cfg, Calls(p, k));
    StageStep(db, cfg, p, k);
    assert Run(cfg, Calls(p, k + 1)) == Spend(db, cfg, Own(p, k)).db by {
      RunGrows(cfg, Calls(p, k), Own(p, k));
    }
    assert Counted(cfg, p, Calls(p, k + 1)) == Counted(cfg, p, Calls(p, k)) + 1 by {
      StageCreates(db, cfg, p, k);
      OwnIsInHour(cfg, p, k);
      CreatedGrows(cfg, Calls(p, k), Own(p, k), p.otpMethod, p.identity, p.ts[0], p.ts[0] + HOUR);
    }
  }

  lemma OpenerCountsNothing(cfg: Config, p: Plan)
    requires Good(cfg, p) && Opening(p) >= 0
    ensures Counted(cfg, p, Calls(p, 0)) == 0
  {
    var crowd := Crowding(p, HOURLY_PER_IP);
    CrowdingCrowds(cfg, p, HOURLY_PER_IP);
    CrowdingCountsNothing(cfg, p, HOURLY_PER_IP);
    OpenerStep(Run(cfg, crowd), cfg, p);
    CreatedGrows(cfg, crowd, Opener(p), p.otpMethod, p.identity, p.ts[0], p.ts[0] + HOUR);
  }

  lemma {:induction false} EveryOwnCallCreates(cfg: Config, p: Plan, k: nat)
    requires Good(cfg, p) && Opening(p) >= 0 && k <= |p.ts|
    ensures Stage(Run(cfg, Calls(p, k)), cfg, p, k)
    ensures Counted(cfg, p, Calls(p, k)) == k
  {
    if k == 0 {
      CallsStart(cfg, p);
      OpenerCountsNothing(cfg, p);
    } else {
      EveryOwnCallCreates(cfg, p, k - 1);
      NextCall(cfg, p, k - 1);
    }
  }

  lemma OwnIsInHour(cfg: Config, p: Plan, k: nat)
    requires Good(cfg, p) && k < |p.ts|
    ensures p.ts[0] <= p.ts[k] < p.ts[0] + HOUR
  {
  }

  lemma {:induction false} CallsAreTimely(cfg: Config, p: Plan, k: nat)
    requires Good(cfg, p) && Opening(p) >= 0 && k <= |p.ts|
    ensures Timely(Calls(p, k))
    ensures forall i :: 0 <= i < |Calls(p, k)| ==> Calls(p, k)[i].at <= if k == 0 then Opening(p) else p.ts[k - 1]
  {
    if k == 0 {
      CrowdingIsAtOnce(p, HOURLY_PER_IP);
    } else {
      CallsAreTimely(cfg, p, k - 1);
      OwnIsInHour(cfg, p, p.early);
      OwnIsInHour(cfg, p, k - 1);
    }
  }

  // ---------------------------------------------------------------- the plan for a configuration

  function Pace(cfg: Config): nat
  {
    if Spacing(cfg) == 0 then 1 else Spacing(cfg)
  }

  // `late` of the calls before midnight, the last of those a tick before it.
  function At(cfg: Config, late: nat, k: nat): int
  {
    DAY - 1 - (late - 1) * Pace(cfg) + k * Pace(cfg)
  }

  lemma PaceFits(cfg: Config)
    ensures Peak(cfg) >= 1 && (Peak(cfg) - 1) * Pace(cfg) < HOUR
  {
    if cfg.resendInterval > 0 {
      FitsHour(Peak(cfg) - 1, cfg.resendInterval);
    }
  }

  lemma AtGrows(cfg: Config, late: nat, n: nat, i: nat, j: nat)
    requires i < j < n && (n - 1) * Pace(cfg) < HOUR
    ensures At(cfg, late, i) + Pace(cfg) <= At(cfg, late, j) < At(cfg, late, 0) + HOUR
  {
    var step := Pace(cfg);
    MulMonotone(i + 1, j, step);
    assert (i + 1) * step == i * step + step;
    MulMonotone(j, n - 1, step);
  }

  lemma AtMidnight(cfg: Config, late: nat, n: nat, k: nat)
    requires k < n && 1 <= late <= n && (n - 1) * Pace(cfg) < HOUR
    ensures DAY - 1 - HOUR < At(cfg, late, k) < DAY + HOUR
    ensures At(cfg, late, k) < DAY <==> k < late
  {
    var step := Pace(cfg);
    MulMonotone(late - 1, n - 1, step);
    MulMonotone(0, late - 1, step);
    MulMonotone(k, n - 1, step);
    MulMonotone(0, k, step);
    if k < late {
      MulMonotone(k, late - 1, step);
    } else {
      MulMonotone(late, k, step);
      assert late * step == (late - 1) * step + step;
    }
  }

  function PlanFor(cfg: Config, otpMethod: string, identity: string): Plan
  {
    var n, late := Peak(cfg), (Peak(cfg) + 1) / 2;
    var ts := seq(n, k requires 0 <= k => Max(At(cfg, late, k), 0));
    Plan(otpMethod, identity, ts, late, Max(n - HOURLY_PER_IDENTITY, 0))
  }

  lemma PlanIsGood(cfg: Config, otpMethod: string, identity: string)
    ensures var p := PlanFor(cfg, otpMethod, identity);
      Good(cfg, p) && Opening(p) >= 0 && |p.ts| == Peak(cfg)
  {
    var p, n := PlanFor(cfg, otpMethod, identity), Peak(cfg);
    PaceFits(cfg);
    forall i | 0 <= i < n
      ensures p.ts[i] == At(cfg, p.late, i) && HOUR <= p.ts[i] < 2 * DAY && (p.ts[i] < DAY <==> i < p.late)
    {
      AtMidnight(cfg, p.late, n, i);
    }
    forall i, j | 0 <= i < j < n
      ensures p.ts[i] < p.ts[j] < p.ts[0] + HOUR && p.ts[i] + Spacing(cfg) <= p.ts[j]
    {
      AtGrows(cfg, p.late, n, i, j);
    }
  }

  // The peak is reached, for every configuration, method and identity.
  lemma PeakIsReached(cfg: Config, otpMethod: string, identity: string) returns (calls: seq<Call>, a: int)
    ensures Timely(calls) && CreatedInHour(cfg, calls, otpMethod, identity, a) == Peak(cfg)
  {
    PlanIsGood(cfg, otpMethod, identity);
    var p := PlanFor(cfg, otpMethod, identity);
    EveryOwnCallCreates(cfg, p, |p.ts|);
    CallsAreTimely(cfg, p, |p.ts|);
    calls, a := Calls(p, |p.ts|), p.ts[0];
  }

  // Some run sends an identity nineteen codes of one method within an hour exactly when the daily
  // limit is ten or more and the resend interval 199 seconds or less.
  lemma NineteenIff(cfg: Config, otpMethod: string, identity: string)
    ensures (exists calls, a :: Timely(calls) && CreatedInHour(cfg, calls, otpMethod, identity, a) == 19) <==>
            cfg.IdentityDaily() >= 10 && cfg.resendInterval <= 199
  {
    PeakOfNineteen(cfg);
    var calls, a := PeakIsReached(cfg, otpMethod, identity);
    if calls', a' :| Timely(calls') && CreatedInHour(cfg, calls', otpMethod, identity, a') == 19 {
      PeakBound(cfg, calls', otpMethod, identity, a');
    }
  }

  lemma PeakOfNineteen(cfg: Config)
    ensures Peak(cfg) == 19 <==> cfg.IdentityDaily() >= 10 && cfg.resendInterval <= 199
    ensures Peak(cfg) <= 19
  {
    if cfg.resendInterval > 0 {
      FitsHour(18, cfg.resendInterval);
    }
  }
}
