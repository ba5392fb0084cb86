/**
 * Webhook deliveries: a first attempt, retries with a growing delay picked up in batches, and a
 * dead letter. The attempts of one flush run side by side; those on one row do not overlap here.
 */
module Webhooks {
  import opened Common

  datatype Status = Pending | Retry | Success | Dead

  // Row ids are positions in the table: ids are handed out in order and no row is deleted.
  datatype Delivery = Delivery(endpointID: nat, eventID: string, status: Status, attempts: nat,
                               nextRetryAt: Option<Time>)

  datatype Endpoint = Endpoint(enabled: bool, maxAttempts: int)

  type Endpoints = map<nat, Endpoint>

  // What the receiver answered and when: a 2xx status or anything else.
  datatype Reply = Reply(ok: bool, at: Time)

  const BATCH: nat := 50
  const CAP: nat := 5

  function Limit(ep: Endpoint): (r: nat)
    ensures r > 0
  {
    if ep.maxAttempts <= 0 then 5 else ep.maxAttempts
  }

  function Pow2(k: nat): (r: nat)
    ensures r > 0
  {
    if k == 0 then 1 else 2 * Pow2(k - 1)
  }

  // The delay after the given number of attempts.
  function Backoff(attempts: nat): nat
  {
    Pow2(Min(attempts, CAP)) * SECOND
  }

  function Failed(d: Delivery, limit: nat, now: Time): Delivery
  {
    var attempts := d.attempts + 1;
    if attempts >= limit then d.(attempts := attempts, status := Dead, nextRetryAt := None)
    else d.(attempts := attempts, status := Retry, nextRetryAt := Some(now + Backoff(attempts)))
  }

  function Attempted(d: Delivery, limit: nat, reply: Reply): Delivery
  {
    if reply.ok then d.(attempts := d.attempts + 1, status := Success) else Failed(d, limit, reply.at)
  }

  predicate Enabled(d: Delivery, endpoints: Endpoints)
  {
    d.endpointID in endpoints && endpoints[d.endpointID].enabled
  }

  // What a flush does to a row of its batch.
  function Serviced(d: Delivery, endpoints: Endpoints, reply: Reply): Delivery
  {
    if !Enabled(d, endpoints) then d.(status := Dead)
    else Attempted(d, Limit(endpoints[d.endpointID]), reply)
  }

  predicate Due(d: Delivery, now: Time)
  {
    d.status.Retry? && d.nextRetryAt.Some? && d.nextRetryAt.value <= now
  }

  // The ids of the first `limit` due rows, in id order.
  function Batch(rows: seq<Delivery>, now: Time, limit: nat): (ids: seq<nat>)
    ensures |ids| <= limit
    ensures forall k :: 0 <= k < |ids| ==> ids[k] < |rows| && Due(rows[ids[k]], now)
    ensures forall a, b :: 0 <= a < b < |ids| ==> ids[a] < ids[b]
  {
    if rows == [] then []
    else
      var earlier := Batch(rows[..|rows| - 1], now, limit);
      if |earlier| < limit && Due(rows[|rows| - 1], now) then earlier + [|rows| - 1] else earlier
  }

  // A batch that is not full holds every due row.
  lemma {:induction false} ShortBatchIsComplete(rows: seq<Delivery>, now: Time, limit: nat, i: nat)
    requires |Batch(rows, now, limit)| < limit
    requires i < |rows| && Due(rows[i], now)
    ensures i in Batch(rows, now, limit)
  {
    if i < |rows| - 1 {
      ShortBatchIsComplete(rows[..|rows| - 1], now, limit, i);
    }
  }

  // A batch takes the lowest ids: no due row is passed over for a later one.
  lemma {:induction false} BatchIsLowest(rows: seq<Delivery>, now: Time, limit: nat, i: nat, j: nat)
    requires i < j < |rows| && Due(rows[i], now) && j in Batch(rows, now, limit)
    ensures i in Batch(rows, now, limit)
  {
    var init := rows[..|rows| - 1];
    var earlier := Batch(init, now, limit);
    if j < |init| {
      BatchIsLowest(init, now, limit, i, j);
    } else {
      assert |earlier| < limit;
      ShortBatchIsComplete(init, now, limit, i);
    }
  }

  function Flushed(rows: seq<Delivery>, endpoints: Endpoints, replies: nat -> Reply, now: Time): (r: seq<Delivery>)
    ensures |r| == |rows|
  {
    var ids := Batch(rows, now, BATCH);
    seq(|rows|, i requires 0 <= i < |rows| => if i in ids then Serviced(rows[i], endpoints, replies(i)) else rows[i])
  }

  // How a flush leaves a row that it took up, `ep` being the row's endpoint if it is still there.
  ghost predicate TakenUp(d: Delivery, d': Delivery, ep: Option<Endpoint>, reply: Reply)
  {
    if ep.None? || !ep.value.enabled then d' == d.(status := Dead)
    else
      var limit := if ep.value.maxAttempts <= 0 then 5 else ep.value.maxAttempts;
      && d'.endpointID == d.endpointID && d'.eventID == d.eventID && d'.attempts == d.attempts + 1
      && (d'.status.Success? <==> reply.ok)
      && (d'.status.Dead? <==> !reply.ok && d.attempts + 1 >= limit)
      && (d'.status.Retry? <==> !reply.ok && d.attempts + 1 < limit)
      && d'.nextRetryAt == (if reply.ok then d.nextRetryAt
                            else if d.attempts + 1 >= limit then None
                            else Some(reply.at + Pow2(Min(d.attempts + 1, 5)) * 1000))
  }

  lemma ServicedIsTakenUp(d: Delivery, endpoints: Endpoints, reply: Reply)
    ensures TakenUp(d, Serviced(d, endpoints, reply), Lookup(endpoints, d.endpointID), reply)
  {
  }

  class Bus {
    var rows: seq<Delivery>
    var endpoints: Endpoints

    constructor (endpoints: Endpoints)
      ensures rows == [] && this.endpoints == endpoints
    {
      rows := [];
      this.endpoints := endpoints;
    }

    method MarkFail(id: nat, limit: nat, now: Time)
      requires id < |rows|
      modifies this`rows
      ensures var d := old(rows)[id];
        var attempts := d.attempts + 1;
        rows == old(rows)[id :=
          if attempts >= limit then d.(attempts := attempts, status := Dead, nextRetryAt := None)
          else d.(attempts := attempts, status := Retry,
                  nextRetryAt := Some(now + Pow2(if attempts < 5 then attempts else 5) * 1000))]
      ensures rows == old(rows)[id := Failed(old(rows)[id], limit, now)]
    {
      var d := rows[id];
      var attempts := d.attempts + 1;
      if attempts >= limit {
        d := d.(attempts := attempts, status := Dead, nextRetryAt := None);
      } else {
        var backoff := Pow2(Min(attempts, 5)) * SECOND;
        d := d.(attempts := attempts, status := Retry, nextRetryAt := Some(now + backoff));
      }
      rows := rows[id := d];
    }

    method Deliver(ep: Endpoint, id: nat, reply: Reply)
      requires id < |rows|
      modifies this`rows
      // A 2xx answer delivers the row; any other one fails it, for good at the limit.
      ensures |rows| == |old(rows)| && forall i :: 0 <= i < |rows| && i != id ==> rows[i] == old(rows)[i]
      ensures rows[id].attempts == old(rows)[id].attempts + 1
      ensures rows[id].endpointID == old(rows)[id].endpointID && rows[id].eventID == old(rows)[id].eventID
      ensures rows[id].status.Success? <==> reply.ok
      ensures rows[id].status.Dead? <==>
              !reply.ok && old(rows)[id].attempts + 1 >= if ep.maxAttempts <= 0 then 5 else ep.maxAttempts
      ensures rows[id].status.Retry? <==>
              !reply.ok && old(rows)[id].attempts + 1 < if ep.maxAttempts <= 0 then 5 else ep.maxAttempts
      ensures rows[id].nextRetryAt ==
              if reply.ok then old(rows)[id].nextRetryAt
              else if rows[id].status.Dead? then None
              else Some(reply.at + Pow2(if rows[id].attempts < 5 then rows[id].attempts else 5) * 1000)
      ensures rows == old(rows)[id := Attempted(old(rows)[id], Limit(ep), reply)]
    {
      var maxAttempts := ep.maxAttempts;
      if maxAttempts <= 0 {
        maxAttempts := 5;
      }
      if reply.ok {
        rows := rows[id := rows[id].(status := Success, attempts := rows[id].attempts + 1)];
        return;
      }
      MarkFail(id, maxAttempts, reply.at);
    }

    // The attempts of a batch run at the same time; their answers arrive in any order.
    method FlushRetries(now: Time, replies: nat -> Reply)
      modifies this`rows
      // Rows that are not taken up stay; one that is is killed or attempted.
      ensures |rows| == |old(rows)|
      ensures forall i :: 0 <= i < |rows| && i !in Batch(old(rows), now, 50) ==> rows[i] == old(rows)[i]
      ensures forall i :: 0 <= i < |rows| && i in Batch(old(rows), now, 50) ==>
        TakenUp(old(rows)[i], rows[i], Lookup(endpoints, old(rows)[i].endpointID), replies(i))
      ensures rows == Flushed(old(rows), endpoints, replies, now)
    {
      var list := Batch(rows, now, BATCH);
      var started: set<nat> := {};
      for k := 0 to |list|
        invariant |rows| == |old(rows)|
        invariant forall i :: i in started <==> i in list[..k] && Enabled(old(rows)[i], endpoints)
        invariant forall i :: 0 <= i < |rows| ==>
            rows[i] == if i in list[..k] && i !in started then Serviced(old(rows)[i], endpoints, replies(i))
                       else old(rows)[i]
      {
        var id := list[k];
        assert id !in list[..k];
        var d := rows[id];
        if d.endpointID !in endpoints || !endpoints[d.endpointID].enabled {
          rows := rows[id := d.(status := Dead)];
        } else {
          started := started + {id};
        }
        assert list[..k + 1] == list[..k] + [id];
      }
      assert list[..|list|] == list;
      FinishAll(started, replies);
      assert rows == Flushed(old(rows), endpoints, replies, now);
      forall i | 0 <= i < |rows| && i in list
        ensures TakenUp(old(rows)[i], rows[i], Lookup(endpoints, old(rows)[i].endpointID), replies(i))
      {
        ServicedIsTakenUp(old(rows)[i], endpoints, replies(i));
      }
    }

    method FinishAll(started: set<nat>, replies: nat -> Reply)
      requires forall i :: i in started ==> i < |rows| && Enabled(rows[i], endpoints)
      modifies this`rows
      ensures |rows| == |old(rows)|
      ensures forall i :: 0 <= i < |rows| ==>
          rows[i] == if i in started then Serviced(old(rows)[i], endpoints, replies(i)) else old(rows)[i]
    {
      var left := started;
      while left != {}
        invariant left <= started && |rows| == |old(rows)|
        invariant forall i :: 0 <= i < |rows| ==>
            rows[i] == if i in started && i !in left then Serviced(old(rows)[i], endpoints, replies(i))
                       else old(rows)[i]
        decreases |left|
      {
        var id :| id in left;
        Deliver(endpoints[rows[id].endpointID], id, replies(id));
        left := left - {id};
      }
    }

    // A new row for an old delivery, whatever became of that one; its first attempt follows.
    method ReplayDelivery(id: nat) returns (r: Result<nat>)
      modifies this`rows
      ensures r.Ok? <==> id < |old(rows)| && old(rows)[id].endpointID in endpoints
      ensures r.Ok? ==> r.value == |old(rows)|
      ensures r.Ok? ==> rows == old(rows) + [Delivery(old(rows)[id].endpointID, old(rows)[id].eventID + "-replay",
                                                      Pending, 0, None)]
      ensures r.Ok? ==> rows == Step(old(rows), Open(old(rows)[id].endpointID, old(rows)[id].eventID + "-replay"))
      ensures r.Err? ==> r.error == NotFound && rows == old(rows)
    {
      if id >= |rows| {
        return Err(NotFound);
      }
      var was := rows[id];
      if was.endpointID !in endpoints {
        return Err(NotFound);
      }
      r := Ok(|rows|);
      rows := rows + [Delivery(was.endpointID, was.eventID + "-replay", Pending, 0, None)];
    }
  }

  function Opened(rows: seq<Delivery>, endpointID: nat, eventID: string): seq<Delivery>
  {
    rows + [Delivery(endpointID, eventID, Pending, 0, None)]
  }

  // ---------------------------------------------------------------- runs

  // Endpoints may be reconfigured, disabled or deleted between events. A row whose process
  // stopped before its first attempt simply never sees First.
  datatype Event =
    | Open(endpointID: nat, eventID: string)
    | First(id: nat, ep: Endpoint, reply: Reply)
    | Flush(endpoints: Endpoints, replies: nat -> Reply, now: Time)

  ghost predicate Capped(endpoints: Endpoints, m: nat)
  {
    forall id :: id in endpoints ==> Limit(endpoints[id]) <= m
  }

  // No endpoint is ever configured with more than m attempts.
  ghost predicate Bounded(e: Event, m: nat)
  {
    match e
    case Open(_, _) => true
    case First(_, ep, _) => Limit(ep) <= m
    case Flush(endpoints, _, _) => Capped(endpoints, m)
  }

  function Step(rows: seq<Delivery>, e: Event): (r: seq<Delivery>)
    ensures |r| >= |rows|
  {
    match e
    case Open(endpointID, eventID) => Opened(rows, endpointID, eventID)
    case First(id, ep, reply) =>
      if id < |rows| && rows[id].status.Pending? then rows[id := Attempted(rows[id], Limit(ep), reply)] else rows
    case Flush(endpoints, replies, now) => Flushed(rows, endpoints, replies, now)
  }

  function Exec(es: seq<Event>): seq<Delivery>
  {
    if es == [] then [] else Step(Exec(es[..|es| - 1]), es[|es| - 1])
  }

  predicate RowInv(d: Delivery, m: nat)
  {
    match d.status
    case Pending => d.attempts == 0 && d.nextRetryAt.None?
    case Retry => 1 <= d.attempts < m && d.nextRetryAt.Some?
    case Success => 1 <= d.attempts <= m
    case Dead => 1 <= d.attempts <= m && (d.nextRetryAt.Some? ==> d.attempts < m)
  }

  ghost predicate Inv(rows: seq<Delivery>, m: nat)
  {
    forall i :: 0 <= i < |rows| ==> RowInv(rows[i], m)
  }

  // How one event may treat one row: leave it, open it, or service it.
  lemma RowStep(rows: seq<Delivery>, e: Event, i: nat)
    requires i < |Step(rows, e)|
    ensures var d' := Step(rows, e)[i];
      if i >= |rows| then d'.status.Pending? && d'.attempts == 0 && d'.nextRetryAt.None?
      else
        || d' == rows[i]
        || (e.First? && e.id == i && rows[i].status.Pending? && d' == Attempted(rows[i], Limit(e.ep), e.reply))
        || (e.Flush? && rows[i].status.Retry? && d' == Serviced(rows[i], e.endpoints, e.replies(i)))
  {
  }

  lemma StepKeepsRow(rows: seq<Delivery>, e: Event, i: nat, m: nat)
    requires Bounded(e, m) && i < |Step(rows, e)| && (i < |rows| ==> RowInv(rows[i], m))
    ensures RowInv(Step(rows, e)[i], m)
  {
    RowStep(rows, e, i);
  }

  // No delivery is ever attempted more than m times.
  lemma {:induction false} AttemptsAreBounded(es: seq<Event>, m: nat)
    requires forall k :: 0 <= k < |es| ==> Bounded(es[k], m)
    ensures Inv(Exec(es), m)
    ensures forall i :: 0 <= i < |Exec(es)| ==> Exec(es)[i].attempts <= m
  {
    if es != [] {
      var init, e := es[..|es| - 1], es[|es| - 1];
      AttemptsAreBounded(init, m);
      forall i | 0 <= i < |Exec(es)|
        ensures RowInv(Exec(es)[i], m)
      {
        StepKeepsRow(Exec(init), e, i, m);
      }
    }
  }

  // Success and dead are final: such a row is the same after any further events.
  lemma {:induction false} FinalIsFinal(es: seq<Event>, more: seq<Event>, i: nat)
    requires i < |Exec(es)| && (Exec(es)[i].status.Success? || Exec(es)[i].status.Dead?)
    ensures i < |Exec(es + more)| && Exec(es + more)[i] == Exec(es)[i]
  {
    if more == [] {
      assert es + more == es;
    } else {
      var init, e := more[..|more| - 1], more[|more| - 1];
      FinalIsFinal(es, init, i);
      assert (es + more)[..|es + more| - 1] == es + init;
      RowStep(Exec(es + init), e, i);
    }
  }

  // ---------------------------------------------------------------- what decides a row

  // The event attempts to deliver row i.
  predicate Attempts(rows: seq<Delivery>, e: Event, i: nat)
  {
    && i < |rows|
    && match e
       case Open(_, _) => false
       case First(id, _, _) => id == i && rows[i].status.Pending?
       case Flush(endpoints, _, now) => i in Batch(rows, now, BATCH) && Enabled(rows[i], endpoints)
  }

  function ReplyTo(e: Event, i: nat): Reply
    requires !e.Open?
  {
    if e.First? then e.reply else e.replies(i)
  }

  function MaxAttempts(rows: seq<Delivery>, e: Event, i: nat): int
    requires Attempts(rows, e, i)
  {
    var configured := (if e.First? then e.ep else e.endpoints[rows[i].endpointID]).maxAttempts;
    if configured <= 0 then 5 else configured
  }

  predicate Delivers(rows: seq<Delivery>, e: Event, i: nat)
  {
    Attempts(rows, e, i) && ReplyTo(e, i).ok
  }

  // A failed answer at the limit in force, or a flush that finds the endpoint gone or disabled.
  predicate Kills(rows: seq<Delivery>, e: Event, i: nat)
  {
    || (Attempts(rows, e, i) && !ReplyTo(e, i).ok && rows[i].attempts + 1 >= MaxAttempts(rows, e, i))
    || (i < |rows| && e.Flush? && i in Batch(rows, e.now, BATCH) &&
        (rows[i].endpointID !in e.endpoints || !e.endpoints[rows[i].endpointID].enabled))
  }

  lemma StatusStep(rows: seq<Delivery>, e: Event, i: nat)
    requires i < |Step(rows, e)|
    ensures Step(rows, e)[i].status.Success? <==> (i < |rows| && rows[i].status.Success?) || Delivers(rows, e, i)
    ensures Step(rows, e)[i].status.Dead? <==> (i < |rows| && rows[i].status.Dead?) || Kills(rows, e, i)
    ensures Step(rows, e)[i].attempts ==
            if i < |rows| then rows[i].attempts + if Attempts(rows, e, i) then 1 else 0 else 0
  {
    RowStep(rows, e, i);
  }

  function AttemptCount(es: seq<Event>, i: nat): nat
  {
    if es == [] then 0
    else
      var init := es[..|es| - 1];
      AttemptCount(init, i) + if Attempts(Exec(init), es[|es| - 1], i) then 1 else 0
  }

  // After every run: a row's counter is the number of attempts made on it.
  lemma {:induction false} AttemptsAreCounted(es: seq<Event>, i: nat)
    ensures AttemptCount(es, i) == if i < |Exec(es)| then Exec(es)[i].attempts else 0
  {
    if es != [] {
      AttemptsAreCounted(es[..|es| - 1], i);
      if i < |Exec(es)| {
        StatusStep(Exec(es[..|es| - 1]), es[|es| - 1], i);
      }
    }
  }

  ghost predicate EverDelivered(es: seq<Event>, i: nat)
  {
    exists k :: 0 <= k < |es| && Delivers(Exec(es[..k]), es[k], i)
  }

  ghost predicate EverKilled(es: seq<Event>, i: nat)
  {
    exists k :: 0 <= k < |es| && Kills(Exec(es[..k]), es[k], i)
  }

  lemma EverGrows(es: seq<Event>, e: Event, i: nat)
    ensures EverDelivered(es + [e], i) <==> EverDelivered(es, i) || Delivers(Exec(es), e, i)
    ensures EverKilled(es + [e], i) <==> EverKilled(es, i) || Kills(Exec(es), e, i)
  {
    var all := es + [e];
    assert forall k :: 0 <= k <= |es| ==> all[..k] == es[..k];
    assert es[..|es|] == es && all[|es|] == e;
    assert forall k :: 0 <= k < |es| ==> all[k] == es[k];
  }

  // After every run a row is delivered iff some attempt on it was answered 2xx, and dead iff a
  // failed answer met the limit then in force or a flush found its endpoint gone or disabled.
  lemma {:induction false} OutcomeIff(es: seq<Event>, i: nat)
    ensures i < |Exec(es)| && Exec(es)[i].status.Success? <==> EverDelivered(es, i)
    ensures i < |Exec(es)| && Exec(es)[i].status.Dead? <==> EverKilled(es, i)
  {
    if es != [] {
      var init, e := es[..|es| - 1], es[|es| - 1];
      assert es == init + [e];
      OutcomeIff(init, i);
      EverGrows(init, e, i);
      if i < |Exec(es)| {
        StatusStep(Exec(init), e, i);
      }
    }
  }

  // The row's first attempt ran at some moment after the row was there.
  ghost predicate Tried(es: seq<Event>, i: nat)
  {
    exists k :: 0 <= k < |es| && es[k].First? && es[k].id == i && i < |Exec(es[..k])|
  }

  lemma TriedGrows(es: seq<Event>, e: Event, i: nat)
    ensures Tried(es + [e], i) <==> Tried(es, i) || (e.First? && e.id == i && i < |Exec(es)|)
  {
    var all := es + [e];
    assert forall k :: 0 <= k <= |es| ==> all[..k] == es[..k];
    assert es[..|es|] == es && all[|es|] == e;
    assert forall k :: 0 <= k < |es| ==> all[k] == es[k];
  }

  // In every run a row is pending exactly as long as its first attempt has not run: no flush
  // ever takes up a row whose process stopped before that.
  lemma {:induction false} PendingIffNeverTried(es: seq<Event>, i: nat)
    requires i < |Exec(es)|
    ensures Exec(es)[i].status.Pending? <==> !Tried(es, i)
  {
    if es != [] {
      var init, e := es[..|es| - 1], es[|es| - 1];
      assert es == init + [e];
      TriedGrows(init, e, i);
      RowStep(Exec(init), e, i);
      if i < |Exec(init)| {
        PendingIffNeverTried(init, i);
      } else {
        NotTriedBefore(init, i);
      }
    }
  }

  lemma {:induction false} TableGrows(es: seq<Event>, k: nat)
    requires k <= |es|
    ensures |Exec(es[..k])| <= |Exec(es)|
  {
    if k < |es| {
      var init := es[..|es| - 1];
      assert init[..k] == es[..k];
      TableGrows(init, k);
    } else {
      assert es[..k] == es;
    }
  }

  lemma NotTriedBefore(es: seq<Event>, i: nat)
    requires i >= |Exec(es)|
    ensures !Tried(es, i)
  {
    forall k | 0 <= k < |es|
      ensures i >= |Exec(es[..k])|
    {
      TableGrows(es, k);
    }
  }

  // A pending row is the same after any number of flushes, at any times, and of other rows'
  // events: it is never delivered and never dies.
  lemma {:induction false} PendingIsStuck(es: seq<Event>, more: seq<Event>, i: nat)
    requires i < |Exec(es)| && Exec(es)[i].status.Pending?
    requires forall k :: 0 <= k < |more| && more[k].First? ==> more[k].id != i
    ensures i < |Exec(es + more)| && Exec(es + more)[i] == Exec(es)[i]
  {
    if more == [] {
      assert es + more == es;
    } else {
      var init, e := more[..|more| - 1], more[|more| - 1];
      PendingIsStuck(es, init, i);
      assert (es + more)[..|es + more| - 1] == es + init;
      RowStep(Exec(es + init), e, i);
    }
  }

  // ---------------------------------------------------------------- draining a closed backlog

  function RowFuel(d: Delivery, m: nat): nat
  {
    if d.status.Retry? && d.attempts < m then m - d.attempts else 0
  }

  // The attempts that the rows waiting for a retry still have, between them.
  function Fuel(rows: seq<Delivery>, m: nat): nat
  {
    if rows == [] then 0 else Fuel(rows[..|rows| - 1], m) + RowFuel(rows[|rows| - 1], m)
  }

  // Every row that a flush takes up costs at least one unit; no row gains any.
  lemma {:induction false} FlushSpendsFuel(rows: seq<Delivery>, endpoints: Endpoints, replies: nat -> Reply, now: Time,
                                           m: nat)
    requires Inv(rows, m) && Capped(endpoints, m)
    ensures Fuel(Flushed(rows, endpoints, replies, now), m) + |Batch(rows, now, BATCH)| <= Fuel(rows, m)
  {
    if rows != [] {
      var init, last := rows[..|rows| - 1], |rows| - 1;
      FlushSpendsFuel(init, endpoints, replies, now, m);
      var rows', init' := Flushed(rows, endpoints, replies, now), Flushed(init, endpoints, replies, now);
      assert last !in Batch(init, now, BATCH);
      assert rows'[..last] == init';
      if last in Batch(rows, now, BATCH) {
        ServiceSpends(rows[last], endpoints, replies(last), m);
      }
    }
  }

  lemma ServiceSpends(d: Delivery, endpoints: Endpoints, reply: Reply, m: nat)
    requires d.status.Retry? && RowInv(d, m) && Capped(endpoints, m)
    ensures RowFuel(Serviced(d, endpoints, reply), m) < RowFuel(d, m)
  {
  }

  function Waiting(rows: seq<Delivery>): (w: set<nat>)
    ensures forall i: nat :: i in w <==> i < |rows| && rows[i].status.Retry?
  {
    set i: nat | i < |rows| && rows[i].status.Retry?
  }

  // Every waiting row has at most `depth` attempts left.
  ghost predicate Shallow(rows: seq<Delivery>, m: nat, depth: nat)
  {
    forall i :: 0 <= i < |rows| && rows[i].status.Retry? ==> m - rows[i].attempts <= depth
  }

  ghost predicate DueBy(rows: seq<Delivery>, t: Time)
  {
    forall i :: 0 <= i < |rows| && rows[i].status.Retry? && rows[i].nextRetryAt.Some? ==> rows[i].nextRetryAt.value <= t
  }

  // Part of the way through a round: each waiting row has had its turn, or comes due by `due`.
  ghost predicate Halfway(rows: seq<Delivery>, m: nat, depth: nat, due: Time)
  {
    forall i :: 0 <= i < |rows| && rows[i].status.Retry? && rows[i].nextRetryAt.Some? ==>
      m - rows[i].attempts < depth || rows[i].nextRetryAt.value <= due
  }

  function After(rows: seq<Delivery>, es: seq<Event>): seq<Delivery>
    decreases |es|
  {
    if es == [] then rows else After(Step(rows, es[0]), es[1..])
  }

  // A closed run of flushes: each at most `gap` after the one before (the first one after
  // `last`), and after the answers of that one.
  ghost predicate Ticking(es: seq<Event>, last: Time, gap: nat, m: nat)
    decreases |es|
  {
    es == [] ||
    (&& es[0].Flush? && Bounded(es[0], m) && last <= es[0].now <= last + gap
     && (|es| > 1 && es[1].Flush? ==> AnsweredBy(es[0], es[1].now))
     && Ticking(es[1..], es[0].now, gap, m))
  }

  ghost predicate AnsweredBy(e: Event, t: Time)
    requires e.Flush?
  {
    forall i: nat :: e.replies(i).at <= t
  }

  ghost predicate Flushes(es: seq<Event>)
  {
    forall k :: 0 <= k < |es| ==> es[k].Flush?
  }

  lemma {:induction false} TickingFlushes(es: seq<Event>, last: Time, gap: nat, m: nat)
    requires Ticking(es, last, gap, m)
    ensures Flushes(es)
    decreases |es|
  {
    if es != [] {
      TickingFlushes(es[1..], es[0].now, gap, m);
      assert forall k :: 1 <= k < |es| ==> es[k] == es[1..][k - 1];
    }
  }

  lemma {:induction false} NothingWaitsStill(rows: seq<Delivery>, es: seq<Event>)
    requires Waiting(rows) == {} && Flushes(es)
    ensures Waiting(After(rows, es)) == {}
    decreases |es|
  {
    if es != [] {
      var rows' := Step(rows, es[0]);
      forall i | 0 <= i < |rows'|
        ensures i !in Waiting(rows')
      {
        RowStep(rows, es[0], i);
        assert i !in Waiting(rows);
      }
      NothingWaitsStill(rows', es[1..]);
    }
  }

  const MAX_BACKOFF: nat := 32 * SECOND

  lemma BackoffIsCapped(attempts: nat)
    ensures Backoff(attempts) <= MAX_BACKOFF
  {
    assert Pow2(5) == 32 && Pow2(4) == 16 && Pow2(3) == 8;
  }

  lemma ServiceSchedules(d: Delivery, endpoints: Endpoints, reply: Reply)
    ensures var d' := Serviced(d, endpoints, reply);
      d'.status.Retry? && d'.nextRetryAt.Some? ==> d'.nextRetryAt.value <= reply.at + MAX_BACKOFF
  {
    BackoffIsCapped(d.attempts + 1);
  }

  // What one flush does to a row that waits after it.
  lemma FlushStep(rows: seq<Delivery>, e: Event, i: nat, m: nat)
    requires e.Flush? && Bounded(e, m) && Inv(rows, m)
    requires i < |Step(rows, e)| && Step(rows, e)[i].status.Retry?
    ensures i < |rows| && rows[i].status.Retry? && Step(rows, e)[i].attempts >= rows[i].attempts
    ensures i !in Batch(rows, e.now, BATCH) ==> Step(rows, e)[i] == rows[i]
    ensures i in Batch(rows, e.now, BATCH) ==>
              Step(rows, e)[i].attempts == rows[i].attempts + 1 &&
              Step(rows, e)[i].nextRetryAt.value <= e.replies(i).at + MAX_BACKOFF
  {
    RowStep(rows, e, i);
    if i in Batch(rows, e.now, BATCH) {
      ServiceSchedules(rows[i], e.endpoints, e.replies(i));
    }
  }

  lemma FlushKeeps(rows: seq<Delivery>, e: Event, m: nat, depth: nat)
    requires e.Flush? && Bounded(e, m) && Inv(rows, m) && Shallow(rows, m, depth)
    ensures Inv(Step(rows, e), m) && Shallow(Step(rows, e), m, depth)
    ensures Fuel(Step(rows, e), m) + |Batch(rows, e.now, BATCH)| <= Fuel(rows, m)
  {
    FlushSpendsFuel(rows, e.endpoints, e.replies, e.now, m);
    forall i | 0 <= i < |Step(rows, e)|
      ensures RowInv(Step(rows, e)[i], m)
      ensures Step(rows, e)[i].status.Retry? ==> m - Step(rows, e)[i].attempts <= depth
    {
      StepKeepsRow(rows, e, i, m);
      if Step(rows, e)[i].status.Retry? {
        FlushStep(rows, e, i, m);
      }
    }
  }

  // A flush whose batch is not full gives every due row its turn, and ends the round once it
  // comes at `due` or later.
  lemma ShortFlushServes(rows: seq<Delivery>, e: Event, m: nat, depth: nat, due: Time)
    requires e.Flush? && Bounded(e, m) && Inv(rows, m) && Shallow(rows, m, depth) && Halfway(rows, m, depth, due)
    requires |Batch(rows, e.now, BATCH)| < BATCH
    ensures Halfway(Step(rows, e), m, depth, due)
    ensures e.now >= due && depth > 0 ==> Shallow(Step(rows, e), m, depth - 1)
  {
    forall i | 0 <= i < |Step(rows, e)| && Step(rows, e)[i].status.Retry?
      ensures m - Step(rows, e)[i].attempts < depth ||
              (Step(rows, e)[i] == rows[i] && rows[i].nextRetryAt.Some? &&
               e.now < rows[i].nextRetryAt.value <= due)
    {
      FlushStep(rows, e, i, m);
      assert RowInv(rows[i], m);
      if Due(rows[i], e.now) {
        ShortBatchIsComplete(rows, e.now, BATCH, i);
      }
    }
  }

  // Answers in by t are rescheduled for at most 32 s later.
  lemma FlushReschedules(rows: seq<Delivery>, e: Event, m: nat, t: Time)
    requires e.Flush? && Bounded(e, m) && Inv(rows, m) && DueBy(rows, t + MAX_BACKOFF) && AnsweredBy(e, t)
    ensures DueBy(Step(rows, e), t + MAX_BACKOFF)
  {
    forall i | 0 <= i < |Step(rows, e)| && Step(rows, e)[i].status.Retry? && Step(rows, e)[i].nextRetryAt.Some?
      ensures Step(rows, e)[i].nextRetryAt.value <= t + MAX_BACKOFF
    {
      FlushStep(rows, e, i, m);
      assert e.replies(i).at <= t;
    }
  }

  function LastFlush(es: seq<Event>, last: Time): Time
  {
    if es != [] && es[|es| - 1].Flush? then es[|es| - 1].now else last
  }

  // The time of one round: what is waiting comes due within the longest delay, and answers and
  // ticks may each be a gap late.
  function Round(gap: nat): nat
  {
    MAX_BACKOFF + 2 * gap
  }

  function Rounds(n: nat, gap: nat): nat
  {
    if n == 0 then 0 else Rounds(n - 1, gap) + Round(gap)
  }

  lemma {:induction false} RoundsAdd(n: nat, gap: nat)
    ensures Rounds(n, gap) == n * Round(gap)
  {
    if n > 0 {
      RoundsAdd(n - 1, gap);
      assert n * Round(gap) == (n - 1) * Round(gap) + Round(gap);
    }
  }

  // `rounds` more rounds empty the backlog: each either costs fifty attempts or gives every
  // waiting row its turn.
  lemma {:induction false} RoundsDrain(rows: seq<Delivery>, es: seq<Event>, last: Time, gap: nat, m: nat, depth: nat,
                                       due: Time, rounds: nat)
    requires Inv(rows, m) && Shallow(rows, m, depth) && Halfway(rows, m, depth, due) && Ticking(es, last, gap, m)
    requires last < due && (es != [] ==> DueBy(rows, es[0].now + MAX_BACKOFF))
    requires BATCH * (rounds + 1 - depth) > Fuel(rows, m)
    requires LastFlush(es, last) >= due + gap + Rounds(rounds, gap)
    ensures Waiting(After(rows, es)) == {}
    decreases |es|
  {
    TickingFlushes(es, last, gap, m);
    if Waiting(rows) == {} {
      NothingWaitsStill(rows, es);
    } else {
      var i :| i in Waiting(rows);
      assert RowInv(rows[i], m) && depth > 0;
      assert es != [];
      var e, rows' := es[0], Step(rows, es[0]);
      FlushKeeps(rows, e, m, depth);
      var short := |Batch(rows, e.now, BATCH)| < BATCH;
      if short {
        ShortFlushServes(rows, e, m, depth, due);
      }
      assert e.now < due + gap;
      NextFlush(rows, es, last, gap, m);
      if short && e.now < due {
        RoundsDrain(rows', es[1..], e.now, gap, m, depth, due, rounds);
      } else {
        RoundsDrain(rows', es[1..], e.now, gap, m, if short then depth - 1 else depth,
                    es[1].now + MAX_BACKOFF, rounds - 1);
      }
    }
  }

  lemma NextFlush(rows: seq<Delivery>, es: seq<Event>, last: Time, gap: nat, m: nat)
    requires Inv(rows, m) && Ticking(es, last, gap, m) && |es| > 1 && DueBy(rows, es[0].now + MAX_BACKOFF)
    ensures es[1].Flush? && es[0].now <= es[1].now <= es[0].now + gap
    ensures Ticking(es[1..], es[0].now, gap, m) && es[1..][0] == es[1]
    ensures DueBy(Step(rows, es[0]), es[1].now + MAX_BACKOFF)
    ensures LastFlush(es[1..], es[0].now) == LastFlush(es, last)
  {
    TickingFlushes(es, last, gap, m);
    assert es[1..][0] == es[1];
    assert es[1..][|es[1..]| - 1] == es[|es| - 1];
    FlushReschedules(rows, es[0], m, es[1].now);
  }

  // However large the backlog, however the receivers answer and whenever the ticks come, if they
  // are at most `gap` apart a closed backlog is empty after as many rounds as one row has attempts
  // left, plus one for every fifty attempts left in all, plus one: the limit of fifty rows
  // starves nobody.
  lemma BacklogDrains(rows: seq<Delivery>, es: seq<Event>, start: Time, gap: nat, m: nat, depth: nat)
    requires Inv(rows, m) && Shallow(rows, m, depth) && DueBy(rows, start + MAX_BACKOFF) && Ticking(es, start, gap, m)
    requires LastFlush(es, start) >= start + (depth + Fuel(rows, m) / BATCH + 1) * Round(gap)
    ensures Waiting(After(rows, es)) == {}
  {
    var rounds := depth + Fuel(rows, m) / BATCH;
    RoundsAdd(rounds + 1, gap);
    RoundsDrain(rows, es, start, gap, m, depth, start + MAX_BACKOFF, rounds);
  }

  // ---------------------------------------------------------------- the total delay of one row

  // The delay put before the next attempt when a row d becomes d' on an answer at `at`.
  function RowDelay(d: Delivery, d': Delivery, at: Time): int
  {
    if d'.attempts == d.attempts || !d'.status.Retry? || d'.nextRetryAt.None? then 0 else d'.nextRetryAt.value - at
  }

  function Delay(rows: seq<Delivery>, e: Event, i: nat): int
  {
    if e.Open? || i >= |rows| then 0
    else RowDelay(rows[i], Step(rows, e)[i], (if e.First? then e.reply else e.replies(i)).at)
  }

  function TotalDelay(es: seq<Event>, i: nat): int
  {
    if es == [] then 0 else TotalDelay(es[..|es| - 1], i) + Delay(Exec(es[..|es| - 1]), es[|es| - 1], i)
  }

  // How many failures of a row have scheduled another attempt.
  function Retries(d: Delivery): nat
  {
    if d.attempts == 0 then 0
    else if d.status.Retry? || (d.status.Dead? && d.nextRetryAt.Some?) then d.attempts
    else d.attempts - 1
  }

  function Budget(k: nat): nat
  {
    if k == 0 then 0 else Budget(k - 1) + Backoff(k)
  }

  lemma {:induction false} DelayIsBudget(es: seq<Event>, i: nat, m: nat)
    requires forall k :: 0 <= k < |es| ==> Bounded(es[k], m)
    ensures TotalDelay(es, i) == if i < |Exec(es)| then Budget(Retries(Exec(es)[i])) else 0
  {
    if es != [] {
      var init, e := es[..|es| - 1], es[|es| - 1];
      DelayIsBudget(init, i, m);
      AttemptsAreBounded(init, m);
      DelayStep(Exec(init), e, i, m);
    }
  }

  lemma DelayStep(rows: seq<Delivery>, e: Event, i: nat, m: nat)
    requires Inv(rows, m)
    ensures i >= |Step(rows, e)| ==> Delay(rows, e, i) == 0
    ensures i < |Step(rows, e)| ==>
              Budget(Retries(Step(rows, e)[i])) ==
              (if i < |rows| then Budget(Retries(rows[i])) else 0) + Delay(rows, e, i)
  {
    if i < |Step(rows, e)| {
      RowStep(rows, e, i);
      if i < |rows| && Step(rows, e)[i] != rows[i] {
        assert RowInv(rows[i], m);
        if e.First? {
          AttemptDelays(rows[i], Limit(e.ep), e.reply, m);
        } else {
          ServiceDelays(rows[i], e.endpoints, e.replies(i), m);
        }
      }
    }
  }

  // A failure adds the delay of its own number; nothing else adds any.
  lemma AttemptDelays(d: Delivery, limit: nat, reply: Reply, m: nat)
    requires RowInv(d, m) && (d.status.Pending? || d.status.Retry?)
    ensures var d' := Attempted(d, limit, reply);
      Budget(Retries(d')) == Budget(Retries(d)) + RowDelay(d, d', reply.at)
  {
    assert Retries(d) == d.attempts;
  }

  lemma ServiceDelays(d: Delivery, endpoints: Endpoints, reply: Reply, m: nat)
    requires RowInv(d, m) && d.status.Retry?
    ensures var d' := Serviced(d, endpoints, reply);
      Budget(Retries(d')) == Budget(Retries(d)) + RowDelay(d, d', reply.at)
  {
    if d.endpointID in endpoints && endpoints[d.endpointID].enabled {
      AttemptDelays(d, Limit(endpoints[d.endpointID]), reply, m);
    }
  }

  lemma {:induction false} BudgetInClosedForm(k: nat)
    ensures Budget(k) == (if k <= 5 then Pow2(k + 1) - 2 else 62 + 32 * (k - 5)) * SECOND
  {
    if k > 0 {
      BudgetInClosedForm(k - 1);
      assert Pow2(5) == 32 && Pow2(6) == 64;
    }
  }

  lemma {:induction false} BudgetGrows(j: nat, k: nat)
    requires j <= k
    ensures Budget(j) <= Budget(k)
  {
    if j < k {
      BudgetGrows(j, k - 1);
    }
  }

  // The longest total delay that m attempts allow, in milliseconds.
  function Longest(m: nat): nat
    requires m > 0
  {
    (if m <= 6 then Pow2(m) - 2 else 62 + 32 * (m - 6)) * SECOND
  }

  // The delays of one row total at most 2^m - 2 seconds, or 62 + 32 * (m - 6) beyond six
  // attempts, and exactly that when the row dies of its m-th failure.
  lemma TotalDelayIsBounded(es: seq<Event>, i: nat, m: nat)
    requires m > 0 && i < |Exec(es)|
    requires forall k :: 0 <= k < |es| ==> Bounded(es[k], m)
    ensures TotalDelay(es, i) <= Longest(m)
    ensures Exec(es)[i].status.Dead? && Exec(es)[i].attempts == m ==> TotalDelay(es, i) == Longest(m)
  {
    DelayIsBudget(es, i, m);
    AttemptsAreBounded(es, m);
    BudgetWithin(Exec(es)[i], m);
  }

  lemma BudgetWithin(d: Delivery, m: nat)
    requires m > 0 && RowInv(d, m)
    ensures Budget(Retries(d)) <= Longest(m)
    ensures d.status.Dead? && d.attempts == m ==> Budget(Retries(d)) == Longest(m)
  {
    BudgetGrows(Retries(d), m - 1);
    LongestIsBudget(m);
  }

  lemma LongestIsBudget(m: nat)
    requires m > 0
    ensures Budget(m - 1) == Longest(m)
  {
    BudgetInClosedForm(m - 1);
    assert Pow2(5) == 32 && Pow2(6) == 64;
  }
}
