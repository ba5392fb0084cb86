/**
 * Verifying a one-time code. A call reads the challenge, compares, and only then
 * writes its verdict back, so overlapping calls judge the same try count.
 */
module OtpVerify {
  import opened Common

  // A challenge row; codes are compared through an injective hash.
  datatype Row = Row(otpMethod: string, scene: string, client: string, identity: string, code: string,
                     expireAt: Time, tryCount: nat, consumed: bool)

  datatype Request = Request(otpMethod: string, scene: string, client: string, identity: string, code: string)

  predicate Addressed(row: Row, req: Request)
  {
    && row.otpMethod == req.otpMethod && row.identity == req.identity
    && (row.client == "" || req.client == "" || row.client == req.client)
    && (row.scene == "" || req.scene == "" || row.scene == req.scene)
  }

  // What the call decides from the row it read.
  datatype Verdict = Refused | WrongCode | RightCode

  function Judge(row: Row, req: Request, maxTries: int, now: Time): Verdict
  {
    if !Addressed(row, req) || row.consumed || now > row.expireAt || row.tryCount >= maxTries then Refused
    else if req.code != row.code then WrongCode
    else RightCode
  }

  function Recorded(row: Row, v: Verdict): Row
  {
    match v
    case Refused => row
    case WrongCode => row.(tryCount := row.tryCount + 1)
    case RightCode => row.(consumed := true)
  }

  class Challenges {
    var rows: map<string, Row>
    const maxTries: int

    constructor (maxTries: int)
      ensures this.maxTries == maxTries && rows == map[]
    {
      this.maxTries := maxTries;
      rows := map[];
    }

    method Verify(id: string, req: Request, now: Time) returns (r: Result<string>)
      modifies this`rows
      ensures r.Ok? <==>
              && id != "" && req.code != "" && id in old(rows)
              && var row := old(rows)[id];
              && row.otpMethod == req.otpMethod && row.identity == req.identity
              && (row.client != "" && req.client != "" ==> row.client == req.client)
              && (row.scene != "" && req.scene != "" ==> row.scene == req.scene)
              && !row.consumed && now <= row.expireAt && row.tryCount < maxTries && req.code == row.code
      ensures r.Ok? ==> r.value == req.identity && rows == old(rows)[id := old(rows)[id].(consumed := true)]
      // A try is counted exactly when only the code is wrong; any other refusal writes nothing.
      ensures r.Err? ==>
        rows ==
          if && id != "" && req.code != "" && id in old(rows)
             && var row := old(rows)[id];
             && row.otpMethod == req.otpMethod && row.identity == req.identity
             && (row.client != "" && req.client != "" ==> row.client == req.client)
             && (row.scene != "" && req.scene != "" ==> row.scene == req.scene)
             && !row.consumed && now <= row.expireAt && row.tryCount < maxTries
          then old(rows)[id := old(rows)[id].(tryCount := old(rows)[id].tryCount + 1)] else old(rows)
      ensures r.Err? ==> r.error == if id == "" || req.code == "" then BadRequest else InvalidCred
      ensures id != "" && req.code != "" && id in old(rows) ==>
        var v := Judge(old(rows)[id], req, maxTries, now);
        && rows == old(rows)[id := Recorded(old(rows)[id], v)]
        && r == if v.RightCode? then Ok(req.identity) else Err(InvalidCred)
    {
      if id == "" || req.code == "" {
        return Err(BadRequest);
      }
      if id !in rows {
        return Err(InvalidCred);
      }
      var ch := rows[id];
      if ch.otpMethod != req.otpMethod || ch.identity != req.identity {
        return Err(InvalidCred);
      }
      if ch.client != "" && req.client != "" && ch.client != req.client {
        return Err(InvalidCred);
      }
      if ch.scene != "" && req.scene != "" && ch.scene != req.scene {
        return Err(InvalidCred);
      }
      if ch.consumed {
        return Err(InvalidCred);
      }
      if now > ch.expireAt {
        return Err(InvalidCred);
      }
      if ch.tryCount >= maxTries {
        return Err(InvalidCred);
      }
      if req.code != ch.code {
        rows := rows[id := ch.(tryCount := ch.tryCount + 1)];
        return Err(InvalidCred);
      }
      rows := rows[id := ch.(consumed := true)];
      r := Ok(req.identity);
    }
  }

  // ---------------------------------------------------------------- overlapping calls on one challenge

  // `pending` holds the calls that have judged and not yet written; `successes` is history.
  datatype State = State(row: Row, pending: map<nat, Verdict>, successes: nat)

  datatype Event =
    | Begin(t: nat, req: Request, now: Time)
    | Finish(t: nat)

  function Step(s: State, maxTries: int, e: Event): State
  {
    match e
    case Begin(t, req, now) =>
      var v := Judge(s.row, req, maxTries, now);
      if t in s.pending || req.code == "" || v.Refused? then s else s.(pending := s.pending[t := v])
    case Finish(t) =>
      if t !in s.pending then s
      else State(Recorded(s.row, s.pending[t]), s.pending - {t},
                 s.successes + if s.pending[t].RightCode? then 1 else 0)
  }

  function Run(row: Row, maxTries: int, es: seq<Event>): State
  {
    if es == [] then State(row, map[], 0) else Step(Run(row, maxTries, es[..|es| - 1]), maxTries, es[|es| - 1])
  }

  // At no moment of the run are more than k calls under way.
  ghost predicate Overlap(row: Row, maxTries: int, es: seq<Event>, k: nat)
  {
    forall i :: 0 <= i <= |es| ==> |Run(row, maxTries, es[..i]).pending| <= k
  }

  // The uninterrupted call is its reading half followed at once by its writing half.
  lemma SerialVerifyIsBeginFinish(s: State, maxTries: int, t: nat, req: Request, now: Time)
    requires t !in s.pending && req.code != ""
    ensures var s' := Step(Step(s, maxTries, Begin(t, req, now)), maxTries, Finish(t));
      && s'.row == Recorded(s.row, Judge(s.row, req, maxTries, now))
      && s'.pending == s.pending
      && (s'.successes > s.successes <==> Judge(s.row, req, maxTries, now) == RightCode)
  {
    var s1 := Step(s, maxTries, Begin(t, req, now));
    if t in s1.pending {
      assert s1.pending - {t} == s.pending;
    }
  }

  function Pending(s: State, v: Verdict): set<nat>
  {
    set t | t in s.pending && s.pending[t] == v
  }

  lemma PendingWithin(s: State, v: Verdict)
    ensures |Pending(s, v)| <= |s.pending|
  {
    Subset(Pending(s, v), s.pending.Keys);
  }

  lemma Subset<T>(a: set<T>, b: set<T>)
    requires a <= b
    ensures |a| <= |b|
  {
    if a != {} {
      var x :| x in a;
      Subset(a - {x}, b - {x});
    }
  }

  ghost predicate Inv(s: State, maxTries: int, k: nat)
  {
    && s.row.tryCount + |Pending(s, WrongCode)| <= Max(maxTries - 1 + k, 0)
    && (if s.row.consumed then s.successes + |Pending(s, RightCode)| <= k else s.successes == 0)
  }

  lemma BeginKeepsInv(s: State, maxTries: int, t: nat, req: Request, now: Time, k: nat)
    requires Inv(s, maxTries, k) && |Step(s, maxTries, Begin(t, req, now)).pending| <= k
    ensures Inv(Step(s, maxTries, Begin(t, req, now)), maxTries, k)
  {
    var s' := Step(s, maxTries, Begin(t, req, now));
    PendingWithin(s', WrongCode);
    assert s' != s ==> s.row.tryCount <= maxTries - 1;
  }

  lemma FinishKeepsInv(s: State, maxTries: int, t: nat, k: nat)
    requires Inv(s, maxTries, k) && |s.pending| <= k
    ensures Inv(Step(s, maxTries, Finish(t)), maxTries, k)
  {
    var s' := Step(s, maxTries, Finish(t));
    if t in s.pending {
      PendingWithin(s, RightCode);
      assert Pending(s', WrongCode) == Pending(s, WrongCode) - {t};
      assert Pending(s', RightCode) == Pending(s, RightCode) - {t};
      assert t in Pending(s, s.pending[t]);
    }
  }

  // However calls overlap, k at a time: wrong codes counted or about to be stay within
  // maxTries - 1 + k, and at most k calls succeed.
  lemma {:induction false} OverlapBounds(row: Row, maxTries: int, es: seq<Event>, k: nat)
    requires row.tryCount == 0 && !row.consumed && Overlap(row, maxTries, es, k)
    ensures Inv(Run(row, maxTries, es), maxTries, k)
    ensures Run(row, maxTries, es).successes <= k
  {
    if es == [] {
      assert Pending(Run(row, maxTries, es), WrongCode) == {};
    } else {
      var n := |es| - 1;
      forall i | 0 <= i <= n ensures es[..n][..i] == es[..i] { }
      assert es[..n + 1] == es;
      OverlapBounds(row, maxTries, es[..n], k);
      var s := Run(row, maxTries, es[..n]);
      PendingWithin(Run(row, maxTries, es), RightCode);
      match es[n]
      case Begin(t, req, now) => BeginKeepsInv(s, maxTries, t, req, now, k);
      case Finish(t) => FinishKeepsInv(s, maxTries, t, k);
    }
  }

  // One call at a time: at most maxTries wrong codes, and one success at most.
  lemma SerialBounds(row: Row, maxTries: int, es: seq<Event>)
    requires row.tryCount == 0 && !row.consumed && Overlap(row, maxTries, es, 1)
    ensures Run(row, maxTries, es).row.tryCount <= Max(maxTries, 0)
    ensures Run(row, maxTries, es).successes <= 1
  {
    OverlapBounds(row, maxTries, es, 1);
  }

  // Two calls that both read before either writes both succeed.
  function DoubleUse(row: Row): seq<Event>
  {
    var req := Request(row.otpMethod, row.scene, row.client, row.identity, row.code);
    [Begin(0, req, row.expireAt), Begin(1, req, row.expireAt), Finish(0), Finish(1)]
  }

  lemma RunGrows(row: Row, maxTries: int, es: seq<Event>, i: nat)
    requires i < |es|
    ensures Run(row, maxTries, es[..i + 1]) == Step(Run(row, maxTries, es[..i]), maxTries, es[i])
  {
    assert es[..i + 1][..i] == es[..i];
  }

  // The state after each of its steps.
  function DoubleUseState(row: Row, i: nat): State
  {
    if i == 0 then State(row, map[], 0)
    else if i == 1 then State(row, map[0 := RightCode], 0)
    else if i == 2 then State(row, map[0 := RightCode, 1 := RightCode], 0)
    else if i == 3 then State(row.(consumed := true), map[1 := RightCode], 1)
    else State(row.(consumed := true), map[], 2)
  }

  lemma DoubleUseStep(row: Row, maxTries: int, i: nat)
    requires i < 4 && row.tryCount == 0 && !row.consumed && maxTries >= 1 && row.code != ""
    ensures Step(DoubleUseState(row, i), maxTries, DoubleUse(row)[i]) == DoubleUseState(row, i + 1)
  {
    var s, e := DoubleUseState(row, i), DoubleUse(row)[i];
    if i < 2 {
      BeginRight(s, maxTries, i, e.req, e.now);
    } else {
      assert s.pending - {i - 2} == DoubleUseState(row, i + 1).pending;
    }
  }

  lemma {:induction false} DoubleUseRun(row: Row, maxTries: int, i: nat)
    requires i <= 4 && row.tryCount == 0 && !row.consumed && maxTries >= 1 && row.code != ""
    ensures Run(row, maxTries, DoubleUse(row)[..i]) == DoubleUseState(row, i)
  {
    if i > 0 {
      DoubleUseRun(row, maxTries, i - 1);
      RunGrows(row, maxTries, DoubleUse(row), i - 1);
      DoubleUseStep(row, maxTries, i - 1);
    }
  }

  lemma DoubleUseSucceedsTwice(row: Row, maxTries: int)
    requires row.tryCount == 0 && !row.consumed && maxTries >= 1 && row.code != ""
    ensures Overlap(row, maxTries, DoubleUse(row), 2)
    ensures Run(row, maxTries, DoubleUse(row)).successes == 2
  {
    forall i | 0 <= i <= |DoubleUse(row)|
      ensures |Run(row, maxTries, DoubleUse(row)[..i]).pending| <= 2
    {
      DoubleUseRun(row, maxTries, i);
    }
    DoubleUseRun(row, maxTries, 4);
    assert DoubleUse(row)[..4] == DoubleUse(row);
  }

  lemma BeginRight(s: State, maxTries: int, t: nat, req: Request, now: Time)
    requires t !in s.pending && req.code != "" && Judge(s.row, req, maxTries, now) == RightCode
    ensures Step(s, maxTries, Begin(t, req, now)) == s.(pending := s.pending[t := RightCode])
  {
  }

  // A code is single-use in every run exactly when calls on it never overlap.
  lemma SingleUseIffSerial(row: Row, maxTries: int, k: nat)
    requires row.tryCount == 0 && !row.consumed && maxTries >= 1 && row.code != ""
    ensures (forall es :: Overlap(row, maxTries, es, k) ==> Run(row, maxTries, es).successes <= 1) <==> k <= 1
  {
    if k <= 1 {
      forall es | Overlap(row, maxTries, es, k) ensures Run(row, maxTries, es).successes <= 1 {
        OverlapBounds(row, maxTries, es, k);
      }
    } else {
      DoubleUseSucceedsTwice(row, maxTries);
      assert Overlap(row, maxTries, DoubleUse(row), k);
    }
  }

  // A call made in time, for this challenge, with its code.
  predicate RightCall(row: Row, e: Event)
  {
    && e.Begin? && e.req.code == row.code && e.now <= row.expireAt
    && e.req.otpMethod == row.otpMethod && e.req.identity == row.identity
    && (e.req.client != "" && row.client != "" ==> e.req.client == row.client)
    && (e.req.scene != "" && row.scene != "" ==> e.req.scene == row.scene)
  }

  // What identifies a challenge never changes.
  lemma {:induction false} RowStaysItself(row: Row, maxTries: int, es: seq<Event>)
    ensures var now := Run(row, maxTries, es).row; now.(tryCount := row.tryCount, consumed := row.consumed) == row
  {
    if es != [] {
      RowStaysItself(row, maxTries, es[..|es| - 1]);
    }
  }

  // In every run, however calls overlap, nothing succeeds or is about to before a right call:
  // a run that never presents the row's code in time has no success and leaves the row unused.
  lemma {:induction false} SuccessNeedsRightCall(row: Row, maxTries: int, es: seq<Event>)
    requires !row.consumed
    requires forall k :: 0 <= k < |es| ==> !RightCall(row, es[k])
    ensures var s := Run(row, maxTries, es);
      s.successes == 0 && !s.row.consumed && RightCode !in s.pending.Values
  {
    if es != [] {
      var init, e := es[..|es| - 1], es[|es| - 1];
      SuccessNeedsRightCall(row, maxTries, init);
      RowStaysItself(row, maxTries, init);
      var s := Run(row, maxTries, init);
      forall t | t in Step(s, maxTries, e).pending
        ensures Step(s, maxTries, e).pending[t] != RightCode
      {
        assert t in s.pending ==> s.pending[t] in s.pending.Values;
        assert !RightCall(row, e);
      }
      if e.Finish? && e.t in s.pending {
        assert s.pending[e.t] in s.pending.Values;
      }
    }
  }

  // And a right call on an open challenge, run by itself, does succeed.
  lemma RightCallSucceeds(s: State, maxTries: int, t: nat, req: Request, now: Time)
    requires t !in s.pending && req.code != "" && !s.row.consumed && s.row.tryCount < maxTries
    requires RightCall(s.row, Begin(t, req, now))
    ensures var s' := Step(Step(s, maxTries, Begin(t, req, now)), maxTries, Finish(t));
      s'.successes == s.successes + 1 && s'.row == s.row.(consumed := true)
  {
    SerialVerifyIsBeginFinish(s, maxTries, t, req, now);
  }
}
