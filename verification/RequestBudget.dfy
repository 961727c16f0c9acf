/**
 `HunterFeed._budget_ok`: a self-imposed cap on requests per minute, kept as a queue of
 the times of granted request units from which only the head is ever pruned.
 */
module RequestBudget {

  datatype Call = Call(now: real, cost: int)

  /** Drop queue entries more than 60 seconds old, from the head on. */
  function Prune(q: seq<real>, now: real): (r: seq<real>)
    ensures |r| <= |q| && r == q[|q| - |r|..]
    ensures forall i :: 0 <= i < |q| - |r| ==> now - q[i] > 60.0
    ensures r != [] ==> now - r[0] <= 60.0
  {
    if q != [] && now - q[0] > 60.0 then Prune(q[1..], now) else q
  }

  function Repeat(now: real, cost: int): (r: seq<real>)
    ensures |r| == (if cost > 0 then cost else 0)
    ensures forall i :: 0 <= i < |r| ==> r[i] == now
  {
    if cost <= 0 then [] else seq(cost, _ => now)
  }

  predicate Granted(q: seq<real>, c: Call, cap: int) { |Prune(q, c.now)| + c.cost <= cap }

  function After(q: seq<real>, c: Call, cap: int): seq<real> {
    var p := Prune(q, c.now);
    if |p| + c.cost <= cap then p + Repeat(c.now, c.cost) else p
  }

  class HunterFeed {
    const capPerMin: int
    var reqTimes: seq<real>

    constructor (cap: int)
      ensures capPerMin == (if cap > 1 then cap else 1) && reqTimes == []
    {
      capPerMin := if cap > 1 then cap else 1;
      reqTimes := [];
    }

    method BudgetOk(now: real, cost: int) returns (ok: bool)
      modifies this
      ensures ok == Granted(old(reqTimes), Call(now, cost), capPerMin)
      ensures reqTimes == After(old(reqTimes), Call(now, cost), capPerMin)
    {
      hide Prune, Repeat;
      ghost var q := reqTimes;
      while reqTimes != [] && now - reqTimes[0] > 60.0
        invariant Prune(q, now) == Prune(reqTimes, now)
        decreases |reqTimes|
      {
        PruneHead(reqTimes, now);
        reqTimes := reqTimes[1..];
      }
      PruneHead(reqTimes, now);
      if |reqTimes| + cost > capPerMin {
        return false;
      }
      ghost var p := reqTimes;
      var k := 0;
      while k < cost
        invariant 0 <= k && (k <= cost || k == 0)
        invariant reqTimes == p + Repeat(now, k)
      {
        assert Repeat(now, k) + [now] == Repeat(now, k + 1);
        reqTimes := reqTimes + [now];
        k := k + 1;
      }
      assert Repeat(now, k) == Repeat(now, cost);
      ok := true;
    }
  }

  lemma PruneHead(q: seq<real>, now: real)
    ensures Prune(q, now) == if q != [] && now - q[0] > 60.0 then Prune(q[1..], now) else q
  {
  }

  // ---------------------------------------------------------------- whole runs

  function Queue(calls: seq<Call>, cap: int): seq<real>
    decreases |calls|
  {
    if calls == [] then [] else After(Queue(calls[..|calls| - 1], cap), calls[|calls| - 1], cap)
  }

  /** The times of all request units granted so far, in order. */
  function Grants(calls: seq<Call>, cap: int): seq<real>
    decreases |calls|
  {
    if calls == [] then []
    else
      var before, c := calls[..|calls| - 1], calls[|calls| - 1];
      Grants(before, cap) + (if Granted(Queue(before, cap), c, cap) then Repeat(c.now, c.cost) else [])
  }

  predicate Nondecreasing(calls: seq<Call>) {
    forall i, j :: 0 <= i <= j < |calls| ==> calls[i].now <= calls[j].now
  }

  /** The queue is the young end of the grant log; what fell off is over a minute old, and
      any `cap` grants in a row are followed by more than a minute's wait. */
  ghost predicate Limits(log: seq<real>, q: seq<real>, now: real, cap: nat) {
    && |q| <= |log| && q == log[|log| - |q|..]
    && InOrder(log, now)
    && (forall i :: 0 <= i < |log| - |q| ==> now - log[i] > 60.0)
    && Spread(log, cap)
  }

  predicate InOrder(log: seq<real>, now: real) { forall i, j :: 0 <= i <= j < |log| ==> log[i] <= log[j] <= now }

  predicate Spread(log: seq<real>, cap: nat) { forall i :: 0 <= i < |log| - cap ==> Apart(log, i, cap) }

  predicate Apart(log: seq<real>, i: int, cap: nat)
    requires 0 <= i && i + cap < |log|
  {
    log[i + cap] - log[i] > 60.0
  }

  lemma Pruned(log: seq<real>, q: seq<real>, past: real, now: real, cap: nat)
    requires cap >= 1 && Limits(log, q, past, cap) && past <= now
    ensures Limits(log, Prune(q, now), now, cap)
  {
    hide Prune, Spread;
    var p := Prune(q, now);
    var k := |log| - |q|;
    assert InOrder(log, now);
    hide InOrder;
    assert p == log[|log| - |p|..];
    forall i | 0 <= i < |log| - |p| ensures now - log[i] > 60.0 {
      if i >= k {
        assert q[i - k] == log[i];
      }
    }
  }

  lemma GrantedUnits(log: seq<real>, p: seq<real>, c: Call, cap: nat)
    requires cap >= 1 && Limits(log, p, c.now, cap) && |p| + c.cost <= cap
    ensures Limits(log + Repeat(c.now, c.cost), p + Repeat(c.now, c.cost), c.now, cap)
  {
    hide Repeat;
    var more := Repeat(c.now, c.cost);
    var all := log + more;
    assert all[|all| - |p + more|..] == p + more;
    forall i | 0 <= i < |all| - cap ensures Apart(all, i, cap) {
      if i + cap < |log| {
        assert Apart(log, i, cap);
      } else {
        assert i < |log| - |p|;
      }
    }
  }

  lemma {:induction false} RunLimits(calls: seq<Call>, cap: nat)
    requires cap >= 1 && Nondecreasing(calls) && calls != []
    ensures Limits(Grants(calls, cap), Queue(calls, cap), calls[|calls| - 1].now, cap)
    decreases |calls|
  {
    var n := |calls| - 1;
    var before, c := calls[..n], calls[n];
    var log, q := Grants(before, cap), Queue(before, cap);
    var past := c.now;
    if n == 0 {
    } else {
      assert before[n - 1] == calls[n - 1];
      past := before[n - 1].now;
      RunLimits(before, cap);
    }
    assert Limits(log, q, past, cap);
    RunStep(calls, cap);
    hide Limits, Grants, Queue;
    Pruned(log, q, past, c.now, cap);
    if Granted(q, c, cap) {
      GrantedUnits(log, Prune(q, c.now), c, cap);
    }
  }

  lemma RunStep(calls: seq<Call>, cap: nat)
    requires calls != []
    ensures var n := |calls| - 1;
            var log, q, c := Grants(calls[..n], cap), Queue(calls[..n], cap), calls[n];
            && Queue(calls, cap) == After(q, c, cap)
            && Grants(calls, cap) == if Granted(q, c, cap) then log + Repeat(c.now, c.cost) else log
  {
    hide Prune, Repeat;
    var log := Grants(calls[..|calls| - 1], cap);
    assert log + [] == log;
  }

  /** Grants inside the closed window of 60 seconds that starts at `t`. */
  function InWindow(log: seq<real>, t: real): nat {
    if log == [] then 0
    else InWindow(log[..|log| - 1], t) + (if t <= log[|log| - 1] <= t + 60.0 then 1 else 0)
  }

  /** For every sequence of calls of any cost under a clock that never runs back, no closed
      60-second window holds more than `cap` granted units. */
  lemma WindowBound(calls: seq<Call>, cap: nat, t: real)
    requires cap >= 1 && Nondecreasing(calls)
    ensures InWindow(Grants(calls, cap), t) <= cap
  {
    if calls != [] {
      RunLimits(calls, cap);
      WindowCount(Grants(calls, cap), cap, t);
    }
  }

  /** A sorted log whose every `cap` grants are followed by a wait. */
  lemma {:induction false} WindowCount(log: seq<real>, cap: nat, t: real)
    requires cap >= 1
    requires forall i, j :: 0 <= i <= j < |log| ==> log[i] <= log[j]
    requires forall i :: 0 <= i < |log| - cap ==> Apart(log, i, cap)
    ensures InWindow(log, t) <= cap
    ensures |log| <= cap ==> InWindow(log, t) <= |log|
    ensures log != [] && log[|log| - 1] < t ==> InWindow(log, t) == 0
    decreases |log|
  {
    if log == [] {
    } else {
      var n := |log| - 1;
      var init := log[..n];
      forall i | 0 <= i < |init| - cap ensures Apart(init, i, cap) {
        assert Apart(log, i, cap);
      }
      WindowCount(init, cap, t);
      if |log| > cap && t <= log[n] <= t + 60.0 {
        assert Apart(log, n - cap, cap);
        OldGrants(init, n - cap, t);
      }
    }
  }

  /** Only entries after one that is before the window can be inside it. */
  lemma {:induction false} OldGrants(log: seq<real>, k: nat, t: real)
    requires k < |log| && log[k] < t
    requires forall i, j :: 0 <= i <= j < |log| ==> log[i] <= log[j]
    ensures InWindow(log, t) <= |log| - 1 - k
    decreases |log|
  {
    if k < |log| - 1 {
      OldGrants(log[..|log| - 1], k, t);
    } else {
      NoneYet(log, t);
    }
  }

  lemma {:induction false} NoneYet(log: seq<real>, t: real)
    requires forall i :: 0 <= i < |log| ==> log[i] < t
    ensures InWindow(log, t) == 0
    decreases |log|
  {
    if log == [] {
    } else {
      NoneYet(log[..|log| - 1], t);
    }
  }

  /** And nothing is refused without cause: a call is granted exactly when its units fit in
      beside everything granted in the 60 seconds before it, although only the head of the
      queue is ever pruned. */
  lemma GrantedIffItFits(calls: seq<Call>, c: Call, cap: nat)
    requires cap >= 1 && Nondecreasing(calls) && (calls != [] ==> calls[|calls| - 1].now <= c.now)
    ensures Granted(Queue(calls, cap), c, cap) <==> InWindow(Grants(calls, cap), c.now - 60.0) + c.cost <= cap
  {
    hide *;
    var past := LimitsBefore(calls, c, cap);
    QueueFits(Grants(calls, cap), Queue(calls, cap), past, c, cap);
  }

  lemma QueueFits(log: seq<real>, q: seq<real>, past: real, c: Call, cap: nat)
    requires cap >= 1 && Limits(log, q, past, cap) && past <= c.now
    ensures Granted(q, c, cap) <==> InWindow(log, c.now - 60.0) + c.cost <= cap
  {
    hide Prune, InWindow, Limits;
    Pruned(log, q, past, c.now, cap);
    QueueIsYoung(log, Prune(q, c.now), c.now, cap);
  }

  lemma LimitsBefore(calls: seq<Call>, c: Call, cap: nat) returns (past: real)
    requires cap >= 1 && Nondecreasing(calls) && (calls != [] ==> calls[|calls| - 1].now <= c.now)
    ensures past <= c.now && Limits(Grants(calls, cap), Queue(calls, cap), past, cap)
  {
    past := c.now;
    if calls != [] {
      RunLimits(calls, cap);
      past := calls[|calls| - 1].now;
    }
  }

  lemma QueueIsYoung(log: seq<real>, p: seq<real>, now: real, cap: nat)
    requires Limits(log, p, now, cap) && (p != [] ==> now - p[0] <= 60.0)
    ensures InWindow(log, now - 60.0) == |p|
  {
    hide InWindow;
    var k := |log| - |p|;
    forall i | k <= i < |log| ensures now - log[i] <= 60.0 && log[i] <= now {
      assert log[k] == p[0];
      assert log[k] <= log[i] <= now;
    }
    YoungEnd(log, |p|, now);
  }

  lemma {:induction false} YoungEnd(log: seq<real>, n: nat, now: real)
    requires n <= |log|
    requires forall i :: 0 <= i < |log| - n ==> now - log[i] > 60.0
    requires forall i :: |log| - n <= i < |log| ==> now - log[i] <= 60.0 && log[i] <= now
    ensures InWindow(log, now - 60.0) == n
    decreases |log|
  {
    if n == 0 {
      NoneYet(log, now - 60.0);
    } else {
      YoungEnd(log[..|log| - 1], n - 1, now);
    }
  }
}
