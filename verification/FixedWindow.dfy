/**
 * Bounds of the fixed-window limiter over every sequence of call times.
 * The calls to one key, in order, at times `ts`; limit L, window W.
 */
module FixedWindow {
  import opened Common
  import opened Redis

  ghost predicate Nondecreasing(ts: seq<Time>)
  {
    forall i, j :: 0 <= i <= j < |ts| ==> ts[i] <= ts[j]
  }

  // The key after the calls, starting from an absent key.
  function Replay(ts: seq<Time>, W: nat): (e: Option<Entry>)
    ensures e.None? <==> ts == []
  {
    if ts == [] then None
    else Some(Bump(Replay(ts[..|ts| - 1], W), ts[|ts| - 1], W))
  }

  predicate Admitted(ts: seq<Time>, i: nat, L: int, W: nat)
    requires i < |ts|
  {
    Replay(ts[..i + 1], W).value.value <= L
  }

  // Calls let through with a time in [a, b).
  function AdmittedIn(ts: seq<Time>, L: int, W: nat, a: int, b: int): nat
  {
    if ts == [] then 0
    else
      var i := |ts| - 1;
      AdmittedIn(ts[..i], L, W, a, b) + if a <= ts[i] < b && Admitted(ts, i, L, W) then 1 else 0
  }

  // Calls let through among those numbered from `lo` on.
  function AdmittedFrom(ts: seq<Time>, L: int, W: nat, lo: nat): nat
  {
    if |ts| <= lo then 0
    else
      var i := |ts| - 1;
      AdmittedFrom(ts[..i], L, W, lo) + if Admitted(ts, i, L, W) then 1 else 0
  }

  // The call that opened the window of the last call: the first one, or the first
  // at least W after the previous opener.
  function Opener(ts: seq<Time>, W: nat): (o: nat)
    requires ts != []
    ensures o < |ts|
  {
    var i := |ts| - 1;
    if i == 0 then 0
    else
      var o := Opener(ts[..i], W);
      if ts[i] < ts[o] + W then o else i
  }

  // The counter is the number of calls of the window, and it lives W from the opener.
  lemma {:induction false} CounterCountsWindow(ts: seq<Time>, W: nat)
    requires ts != []
    ensures Replay(ts, W) == Some(Entry(|ts| - Opener(ts, W), Some(ts[Opener(ts, W)] + W)))
  {
    if |ts| > 1 {
      CounterCountsWindow(ts[..|ts| - 1], W);
    }
  }

  // Exactly the first L calls of every window pass.
  lemma {:induction false} WindowAdmitsExactlyLimit(ts: seq<Time>, L: int, W: nat, lo: nat)
    requires ts != [] && lo == Opener(ts, W)
    ensures AdmittedFrom(ts, L, W, lo) == Min(|ts| - lo, Max(L, 0))
  {
    var i := |ts| - 1;
    assert ts[..i + 1] == ts;
    CounterCountsWindow(ts, W);
    if lo == i {
      assert AdmittedFrom(ts[..i], L, W, lo) == 0;
    } else {
      WindowAdmitsExactlyLimit(ts[..i], L, W, lo);
    }
  }

  // What an interval [a, a + W) can have admitted, given the opener of the current window.
  function IntervalBudget(openedAt: int, a: int, W: nat, calls: nat, L: int): int
  {
    if openedAt < a then Min(calls, L) - 1
    else if openedAt < a + W then L - 1 + Min(calls, L)
    else 2 * L - 1
  }

  lemma {:induction false} AdmittedWithinBudget(ts: seq<Time>, L: int, W: nat, a: int)
    requires Nondecreasing(ts) && L >= 1 && ts != []
    ensures var o := Opener(ts, W);
      AdmittedIn(ts, L, W, a, a + W) <= IntervalBudget(ts[o], a, W, |ts| - o, L)
    ensures ts[|ts| - 1] < a ==> AdmittedIn(ts, L, W, a, a + W) == 0
  {
    var i := |ts| - 1;
    assert ts[..i + 1] == ts;
    CounterCountsWindow(ts, W);
    if i > 0 {
      AdmittedWithinBudget(ts[..i], L, W, a);
      assert ts[..i][i - 1] <= ts[i];
    } else {
      assert ts[..i] == [];
    }
  }

  // Sharper than twice the limit: no interval of one window length lets more than
  // 2L - 1 calls through, whatever the call times.
  lemma AtMostTwiceLimitLessOne(ts: seq<Time>, L: int, W: nat, a: int)
    requires Nondecreasing(ts)
    ensures AdmittedIn(ts, L, W, a, a + W) <= Max(2 * L - 1, 0)
  {
    if L <= 0 {
      NothingAdmitted(ts, L, W, a);
    } else if ts != [] {
      AdmittedWithinBudget(ts, L, W, a);
    }
  }

  lemma {:induction false} NothingAdmitted(ts: seq<Time>, L: int, W: nat, a: int)
    requires L <= 0
    ensures AdmittedIn(ts, L, W, a, a + W) == 0
  {
    if ts != [] {
      CounterCountsWindow(ts, W);
      assert ts[..|ts|] == ts;
      NothingAdmitted(ts[..|ts| - 1], L, W, a);
    }
  }

  // One call at 0, L - 1 just before the window closes and L just after it reach the bound.
  function Burst(L: nat, W: nat, n: nat): seq<Time>
    requires W >= 1
  {
    seq(n, i => if i == 0 then 0 else if i < L then W - 1 else W)
  }

  lemma BurstGrows(L: nat, W: nat, n: nat)
    requires 1 <= W && 1 <= n
    ensures Burst(L, W, n)[..n - 1] == Burst(L, W, n - 1) && Burst(L, W, n)[..n] == Burst(L, W, n)
  {
  }

  lemma {:induction false} BurstOpener(L: nat, W: nat, n: nat)
    requires 1 <= L && 2 <= W && 1 <= n
    ensures Opener(Burst(L, W, n), W) == if n <= L then 0 else L
  {
    if n > 1 {
      BurstGrows(L, W, n);
      BurstOpener(L, W, n - 1);
    }
  }

  lemma {:induction false} BurstAdmits(L: nat, W: nat, n: nat)
    requires 1 <= L && 2 <= W && n <= 2 * L
    ensures AdmittedIn(Burst(L, W, n), L, W, W - 1, W - 1 + W) == Max(n - 1, 0)
  {
    if n > 0 {
      BurstGrows(L, W, n);
      BurstOpener(L, W, n);
      CounterCountsWindow(Burst(L, W, n), W);
      BurstAdmits(L, W, n - 1);
    }
  }

  // The bound is reached for every limit and every window of at least two ticks.
  lemma BoundIsTight(L: nat, W: nat)
    requires 1 <= L && 2 <= W
    ensures exists ts: seq<Time> :: Nondecreasing(ts) && AdmittedIn(ts, L, W, W - 1, W - 1 + W) == 2 * L - 1
  {
    BurstAdmits(L, W, 2 * L);
    assert Nondecreasing(Burst(L, W, 2 * L));
  }

  // In a window of at most one tick an interval of that length is one instant, and holds one window.
  lemma {:induction false} InstantAdmitsLimit(ts: seq<Time>, L: int, W: nat, a: int)
    requires Nondecreasing(ts) && L >= 0 && W <= 1
    ensures AdmittedIn(ts, L, W, a, a + W) <= L
    ensures ts != [] && ts[|ts| - 1] == a ==>
              ts[Opener(ts, W)] == a && AdmittedIn(ts, L, W, a, a + W) <= Min(|ts| - Opener(ts, W), L)
    ensures ts != [] && ts[|ts| - 1] < a ==> AdmittedIn(ts, L, W, a, a + W) == 0
  {
    if ts != [] {
      var i := |ts| - 1;
      assert ts[..i + 1] == ts;
      CounterCountsWindow(ts, W);
      InstantAdmitsLimit(ts[..i], L, W, a);
      if i == 0 {
        assert ts[..i] == [];
      } else {
        assert ts[..i][i - 1] <= ts[i];
      }
    }
  }

  // The limiter holds every interval of one window length to its limit exactly when the limit is
  // at most one or the window at most one tick.
  lemma AtMostLimitIff(L: int, W: nat)
    ensures (forall ts, a :: Nondecreasing(ts) ==> AdmittedInWindow(ts, L, W, a) <= Max(L, 0)) <==> L <= 1 || W <= 1
  {
    if L <= 1 || W <= 1 {
      forall ts, a | Nondecreasing(ts)
        ensures AdmittedInWindow(ts, L, W, a) <= Max(L, 0)
      {
        AtMostTwiceLimitLessOne(ts, L, W, a);
        if L >= 0 && W <= 1 {
          InstantAdmitsLimit(ts, L, W, a);
        }
      }
    } else {
      BurstAdmits(L, W, 2 * L);
      assert Nondecreasing(Burst(L, W, 2 * L));
      assert AdmittedInWindow(Burst(L, W, 2 * L), L, W, W - 1) == 2 * L - 1;
    }
  }

  function AdmittedInWindow(ts: seq<Time>, L: int, W: nat, a: int): nat
  {
    AdmittedIn(ts, L, W, a, a + W)
  }
}
