/** `RateGate.acquire`: the waiting loop of normal and low calls, and orders that never wait. */
module RateGate {
  import opened Numbers
  import opened TokenBucket

  /** A section of some other thread, `gap` seconds after the section before it. */
  datatype Other = Other(kind: Kind, gap: real)

  /** What happens around one failed attempt: the clock moves on by `check` before it is read
      again, other threads use the bucket, and the sleep lasts `late` longer than asked. */
  datatype Turn = Turn(check: real, others: seq<Other>, late: real)

  predicate ValidTurn(t: Turn) {
    t.check >= 0.0 && t.late >= 0.0 && forall i :: 0 <= i < |t.others| ==> t.others[i].gap >= 0.0
  }

  /** The least time a full sleep lets pass: half a second, or, when the bucket can never
      hold a whole token, the wait the loop then computes. */
  function Pace(c: Config): (d: real)
    requires ValidConfig(c)
    ensures 0.0 < d <= 0.5
  {
    if c.capacity < 1.0 && c.refill > 0.0 then Min(0.5, (1.0 - c.capacity) / c.refill) else 0.5
  }

  function Paced(k: nat, d: real): real { if k == 0 then 0.0 else Paced(k - 1, d) + d }

  lemma {:induction false} PacedBound(k: nat, d: real, t: real)
    requires d > 0.0 && Paced(k, d) <= t
    ensures k <= (t / d).Floor
  {
    PacedIsProduct(k, d);
    assert k as real == (k as real * d) / d;
    assert (k as real * d) / d <= t / d;
  }

  lemma {:induction false} PacedIsProduct(k: nat, d: real)
    ensures Paced(k, d) == k as real * d
  {
    if k == 0 {
    } else {
      PacedIsProduct(k - 1, d);
    }
  }

  /** Most attempts a call with this timeout can need, whatever the other threads do. */
  function Patience(c: Config, timeout: real): int
    requires ValidConfig(c)
  {
    if timeout <= 0.0 then 1
    else (timeout / Pace(c)).Floor + (c.capacity + Accrued(c, 0.0, timeout)).Floor + 2
  }

  /** How long the loop sleeps after an attempt that left `g`. */
  function Nap(g: Gate, remaining: real, timeout: real, c: Config): real {
    var need := if c.refill > 0.0 then (1.0 - g.tokens) / c.refill else timeout;
    Min(Min(need, remaining), 0.5)
  }

  predicate Ready(g: Gate, now: real, c: Config) { Replenish(g, now, c).tokens >= 1.0 }

  lemma Waiting(need: real, refill: real, gap: real, t: real)
    requires refill > 0.0 && need == (1.0 - t) / refill && gap >= need
    ensures t + gap * refill >= 1.0
  {
    assert need * refill == 1.0 - t;
    assert (gap - need) * refill >= 0.0;
  }

  /** Every turn makes progress: a full pace of time goes by, or the deadline passes, or
      another thread got a token, or the next attempt will succeed. */
  lemma TurnProgress(g: Gate, more: seq<Section>, seen: real, next: real, deadline: real, timeout: real, c: Config)
    requires ValidConfig(c) && 0.0 <= g.tokens <= c.capacity && g.tokens < 1.0 && Timely(g, more)
    requires g.ts <= seen < deadline <= seen + timeout
    requires next >= seen + Nap(g, deadline - seen, timeout, c) && next >= End(g, more)
    ensures || next >= g.ts + Pace(c)
            || next >= deadline
            || Taken(g, more, c) >= 1
            || Ready(Run(g, more, c), next, c)
  {
    var nap := Nap(g, deadline - seen, timeout, c);
    if nap < Pace(c) && nap != deadline - seen && Taken(g, more, c) == 0 {
      assert c.refill > 0.0 && nap == (1.0 - g.tokens) / c.refill;
      if c.capacity < 1.0 {
        FasterThanPace(g.tokens, c);
        assert false;
      }
      EnoughAccrued(g, nap, next, c);
      FullAgain(g, more, next, c);
    }
  }

  lemma EnoughAccrued(g: Gate, nap: real, next: real, c: Config)
    requires c.refill > 0.0 && nap == (1.0 - g.tokens) / c.refill && next >= g.ts + nap
    ensures g.tokens + Accrued(c, g.ts, next) >= 1.0
  {
    Waiting(nap, c.refill, next - g.ts, g.tokens);
  }

  /** After time enough for the missing part of a token, undisturbed, there is one. */
  lemma FullAgain(g: Gate, more: seq<Section>, next: real, c: Config)
    requires ValidConfig(c) && 0.0 <= g.tokens <= c.capacity && Timely(g, more)
    requires c.capacity >= 1.0 && g.tokens + Accrued(c, g.ts, next) >= 1.0
    requires Taken(g, more, c) == 0 && next >= End(g, more)
    ensures Ready(Run(g, more, c), next, c)
  {
    hide Accrued, Taken, Timely;
    Untouched(g, more, c);
    RunBounds(g, more, c);
    hide Run;
    AccruedAdds(c, g.ts, End(g, more), next);
    AccruedAdds(c, End(g, more), next, next);
  }

  lemma DivideBoth(x: real, y: real, r: real)
    requires x >= y && r > 0.0
    ensures x / r >= y / r
  {
    assert (x - y) / r >= 0.0;
  }

  lemma FasterThanPace(t: real, c: Config)
    requires ValidConfig(c) && c.refill > 0.0 && t <= c.capacity < 1.0
    ensures (1.0 - t) / c.refill >= Pace(c)
  {
    DivideBoth(1.0 - t, 1.0 - c.capacity, c.refill);
  }

  /** The books of a waiting call after `k` failed attempts: each was followed by a full pace
      of time (`paced` of them), or by a token going to another thread (`others`), or by a
      turn after which the call is about to end (`last`); `taken` tokens went to others. */
  datatype Books = Books(k: nat, paced: nat, others: nat, last: bool, taken: nat)

  ghost predicate Balanced(b: Books, g: Gate, now: real, start: real, deadline: real, c: Config)
    requires ValidConfig(c)
  {
    && 0.0 <= g.tokens <= c.capacity && g.ts <= now && start <= now
    && b.k <= b.paced + b.others + (if b.last then 1 else 0)
    && b.others <= b.taken
    && Paced(b.paced, Pace(c)) <= now - start
    && (b.last ==> now >= deadline || Ready(g, now, c))
    && (if b.k == 0 then b.taken == 0 else start <= g.ts && g.tokens + b.taken as real <= c.capacity + Accrued(c, start, g.ts))
  }

  /** A failed attempt before the deadline leaves patience for at least one more. */
  lemma MorePatience(b: Books, g: Gate, now: real, start: real, timeout: real, c: Config)
    requires ValidConfig(c) && Balanced(b, g, now, start, start + timeout, c)
    requires now < start + timeout && !Takes(g, Section(Try, now), c)
    ensures b.k + 2 <= Patience(c, timeout)
  {
    PacedBound(b.paced, Pace(c), now - start);
    DivideBoth(timeout, now - start, Pace(c));
    assert b.paced <= (timeout / Pace(c)).Floor;
    hide Pace, Paced;
    AccruedLess(c, start, g.ts, timeout);
    assert b.k > 0 ==> b.taken as real <= c.capacity + Accrued(c, 0.0, timeout);
    assert b.taken <= (c.capacity + Accrued(c, 0.0, timeout)).Floor by {
      AccruedLess(c, 0.0, 0.0, timeout);
    }
  }

  lemma AccruedLess(c: Config, from: real, to: real, span: real)
    requires ValidConfig(c) && to <= from + span
    ensures Accrued(c, from, to) <= Accrued(c, 0.0, span)
    ensures span >= 0.0 ==> Accrued(c, 0.0, span) >= 0.0
  {
    assert (from + span - to) * c.refill >= 0.0;
  }

  /** The books after one more failed attempt, at `now`, and the turn that follows it. */
  lemma NextTurn(b: Books, g: Gate, now: real, start: real, deadline: real, timeout: real,
                 more: seq<Section>, seen: real, next: real, c: Config) returns (b': Books)
    requires ValidConfig(c) && Balanced(b, g, now, start, deadline, c) && deadline <= start + timeout
    requires !Takes(g, Section(Try, now), c) && now <= seen < deadline
    requires var g1 := After(g, Section(Try, now), c);
             && Timely(g1, more)
             && next >= seen + Nap(g1, deadline - seen, timeout, c) && next >= End(g1, more)
    ensures b'.k == b.k + 1
    ensures Balanced(b', Run(After(g, Section(Try, now), c), more, c), next, start, deadline, c)
  {
    var g1 := After(g, Section(Try, now), c);
    SectionBounds(g, Section(Try, now), c);
    RunBounds(g1, more, c);
    TurnProgress(g1, more, seen, next, deadline, timeout, c);
    AccruedAdds(c, start, now, End(g1, more));
    AccruedAdds(c, start, g.ts, now);
    AccruedAdds(c, now, End(g1, more), next);
    hide Accrued, Nap, Run, Taken, Timely;
    var taken := b.taken + Taken(g1, more, c);
    if next >= now + Pace(c) {
      b' := Books(b.k + 1, b.paced + 1, b.others, false, taken);
    } else if Taken(g1, more, c) >= 1 {
      b' := Books(b.k + 1, b.paced, b.others + 1, false, taken);
    } else {
      b' := Books(b.k + 1, b.paced, b.others, true, taken);
    }
  }

  /** Whether section `k` of the run took a token. */
  predicate TookAt(g: Gate, run: seq<Section>, k: nat, c: Config)
    requires k < |run|
  {
    Takes(Run(g, run[..k], c), run[k], c)
  }

  lemma TookBefore(g: Gate, run: seq<Section>, more: seq<Section>, k: nat, c: Config)
    requires k < |run|
    ensures TookAt(g, run + more, k, c) == TookAt(g, run, k, c)
  {
    assert (run + more)[..k] == run[..k];
  }

  lemma TookLast(g: Gate, run: seq<Section>, s: Section, c: Config)
    ensures TookAt(g, run + [s], |run|, c) == Takes(Run(g, run, c), s, c)
  {
    assert (run + [s])[..|run|] == run;
  }

  /** Attempts at the positions `tries` of the run, none of which took a token. */
  ghost predicate AllFailed(g: Gate, run: seq<Section>, tries: seq<nat>, c: Config) {
    forall i :: 0 <= i < |tries| ==> AttemptAt(g, run, tries[i], c, false)
  }

  ghost predicate AttemptAt(g: Gate, run: seq<Section>, k: nat, c: Config, took: bool) {
    k < |run| && run[k].kind == Try && TookAt(g, run, k, c) == took
  }

  lemma FailedBefore(g: Gate, run: seq<Section>, more: seq<Section>, tries: seq<nat>, c: Config)
    requires AllFailed(g, run, tries, c)
    ensures AllFailed(g, run + more, tries, c)
  {
    forall i | 0 <= i < |tries| ensures AttemptAt(g, run + more, tries[i], c, false) {
      assert AttemptAt(g, run, tries[i], c, false);
      TookBefore(g, run, more, tries[i], c);
    }
  }

  lemma NoneFailed(g: Gate, run: seq<Section>, c: Config)
    ensures AllFailed(g, run, [], c)
  {
  }

  lemma FailedOnceMore(g: Gate, run: seq<Section>, tries: seq<nat>, k: nat, c: Config)
    requires AllFailed(g, run, tries, c) && AttemptAt(g, run, k, c, false)
    ensures AllFailed(g, run, tries + [k], c)
  {
  }

  /** A failed attempt joins the failed ones; a successful one stands alone at the end. */
  lemma Attempted(g: Gate, run: seq<Section>, tries: seq<nat>, s: Section, c: Config)
    requires Timely(g, run) && Run(g, run, c).ts == End(g, run) <= s.now && s.kind == Try
    requires AllFailed(g, run, tries, c)
    ensures var before, all := Run(g, run, c), run + [s];
      && Timely(g, all) && End(g, all) == s.now && Run(g, all, c) == After(before, s, c)
      && AttemptAt(g, all, |run|, c, Takes(before, s, c))
      && AllFailed(g, all, tries, c)
      && (!Takes(before, s, c) ==> AllFailed(g, all, tries + [|run|], c))
  {
    hide Run, Taken, Timely, After, Takes, AllFailed, TookAt;
    var before := Run(g, run, c);
    TookLast(g, run, s, c);
    FailedBefore(g, run, [s], tries, c);
    RunJoins(g, run, [s], c);
    RunOne(before, s, c);
    OneTimely(before, s);
    TimelyJoin(g, run, [s], before.tokens);
    if !Takes(before, s, c) { FailedOnceMore(g, run + [s], tries, |run|, c); }
  }

  lemma OthersRan(g: Gate, run: seq<Section>, more: seq<Section>, tries: seq<nat>, c: Config)
    requires Timely(g, run) && Run(g, run, c).ts == End(g, run) && Timely(Run(g, run, c), more)
    requires AllFailed(g, run, tries, c)
    ensures var mid, all := Run(g, run, c), run + more;
      && Timely(g, all) && End(g, all) == End(mid, more) && Run(g, all, c) == Run(mid, more, c)
      && AllFailed(g, all, tries, c)
  {
    hide Run, Taken, Timely, AllFailed;
    var mid := Run(g, run, c);
    RunJoins(g, run, more, c);
    TimelyJoin(g, run, more, mid.tokens);
    FailedBefore(g, run, more, tries, c);
  }

  class RateGate {
    const c: Config
    var tokens: real
    var ts: real

    function View(): Gate
      reads this
    {
      Gate(tokens, ts)
    }

    ghost predicate Valid()
      reads this
    {
      ValidConfig(c) && 0.0 <= tokens <= c.capacity
    }

    constructor (capacity: real, refill: real, now: real)
      requires capacity >= 0.0 && refill >= 0.0
      ensures Valid() && c == Config(capacity, refill) && View() == Gate(capacity, now)
    {
      c, tokens, ts := Config(capacity, refill), capacity, now;
    }

    method Replenish(now: real)
      modifies this
      ensures View() == TokenBucket.Replenish(old(View()), now, c)
      ensures View() == Gate(Level(old(View()), now, c), now)
    {
      hide Accrued;
      tokens := Min(c.capacity, tokens + Accrued(c, ts, now));
      ts := now;
    }

    /** `tokens()`: the level, brought up to date. */
    method Tokens(now: real) returns (level: real)
      modifies this
      ensures View() == After(old(View()), Section(Peek, now), c) && level == tokens
    {
      Replenish(now);
      level := tokens;
    }

    /** One locked section that may take a token. */
    method TryTake(kind: Kind, now: real) returns (took: bool)
      requires kind != Peek
      modifies this
      ensures View() == After(old(View()), Section(kind, now), c)
      ensures took == Takes(old(View()), Section(kind, now), c)
      ensures var level := Level(old(View()), now, c);
              took == (level >= 1.0) && View() == Gate(if took then level - 1.0 else level, now)
    {
      hide Accrued;
      Replenish(now);
      took := tokens >= 1.0;
      if took {
        tokens := tokens - 1.0;
      }
    }

    /** Other threads run their sections one after the other. */
    method RunOthers(others: seq<Other>, from: real) returns (end: real, ghost run: seq<Section>)
      requires Valid() && ts == from && forall i :: 0 <= i < |others| ==> others[i].gap >= 0.0
      modifies this
      ensures Valid() && Timely(old(View()), run) && View() == Run(old(View()), run, c)
      ensures end == ts == End(old(View()), run) && from <= end
    {
      hide Accrued, After, Takes;
      end, run := from, [];
      for i := 0 to |others|
        invariant Valid() && Timely(old(View()), run) && View() == Run(old(View()), run, c)
        invariant end == ts == End(old(View()), run) && from <= end
      {
        end := end + others[i].gap;
        ghost var s := Section(others[i].kind, end);
        SectionBounds(View(), s, c);
        if others[i].kind == Peek {
          var _ := Tokens(end);
        } else {
          var _ := TryTake(others[i].kind, end);
        }
        assert (run + [s])[..|run|] == run;
        run := run + [s];
      }
    }

    /** Orders take one section and never wait.  Other calls try until they get a token or
        the timeout has passed, counted from the clock reading `start`; the first section reads
        the clock again, at `first`, and `turn(k)` is what goes on around the k-th failed attempt.
        `run` is everything that happened to the bucket meanwhile and `tries` the call's own
        attempts in it: all fail except the last one of a call that succeeds. */
    method Acquire(high: bool, timeout: real, start: real, first: real, turn: nat -> Turn)
      returns (ok: bool, ghost run: seq<Section>, ghost tries: seq<nat>, ghost end: real)
      requires Valid() && ts <= first && start <= first && forall k :: ValidTurn(turn(k))
      modifies this
      ensures Valid() && Timely(old(View()), run) && View() == Run(old(View()), run, c)
      ensures high ==> ok && run == [Section(High, first)]
      ensures high ==> var level := Level(old(View()), first, c);
                       View() == Gate(if level >= 1.0 then level - 1.0 else level, first)
      ensures !high ==> 1 <= |tries| <= Patience(c, timeout)
      ensures !high && ok ==> tries[|tries| - 1] == |run| - 1
                              && AttemptAt(old(View()), run, |run| - 1, c, true)
                              && AllFailed(old(View()), run, tries[..|tries| - 1], c)
      ensures !ok ==> AllFailed(old(View()), run, tries, c) && end >= start + timeout
    {
      hide Run, Taken, Timely, After, Takes, Accrued, Patience, Balanced, Paced, Nap, AllFailed, AttemptAt;
      ghost var g := View();
      run, tries, end := [], [], first;
      if high {
        ghost var s := Section(High, first);
        SectionBounds(g, s, c);
        var _ := TryTake(High, first);
        OneTimely(g, s);
        RunOne(g, s, c);
        return true, [s], tries, end;
      }
      var deadline := start + timeout;
      var now, k := first, 0;
      ghost var b := Books(0, 0, 0, false, 0);
      FreshBooks(g, start, first, timeout, c);
      NoneFailed(g, run, c);
      ok := false;
      while true
        invariant Valid() && start <= now && ts <= now
        invariant Timely(g, run) && View() == Run(g, run, c) && ts == End(g, run)
        invariant |tries| == k == b.k && Balanced(b, View(), now, start, deadline, c)
        invariant k + 1 <= Patience(c, timeout)
        invariant AllFailed(g, run, tries, c)
        decreases Patience(c, timeout) - k
      {
        ghost var before, s := View(), Section(Try, now);
        SectionBounds(before, s, c);
        Attempted(g, run, tries, s, c);
        var took := TryTake(Try, now);
        if took {
          run, tries := run + [s], tries + [|run|];
          assert tries[..|tries| - 1] == tries[..k];
          return true, run, tries, now;
        }
        run, tries := run + [s], tries + [|run|];
        var need := if c.refill > 0.0 then (1.0 - tokens) / c.refill else timeout;
        var around := turn(k);
        var seen := now + around.check;
        var remaining := deadline - seen;
        if remaining <= 0.0 {
          end := seen;
          return;
        }
        var nap := Min(Min(need, remaining), 0.5);
        ghost var g1 := View();
        var last, more := RunOthers(around.others, now);
        var next := Max(last, seen + nap) + around.late;
        NapIs(g1, remaining, timeout, c);
        MorePatience(b, before, now, start, timeout, c);
        b := NextTurn(b, before, now, start, deadline, timeout, more, seen, next, c);
        OthersRan(g, run, more, tries, c);
        run := run + more;
        now, k := next, k + 1;
      }
    }
  }

  lemma OneTimely(g: Gate, s: Section)
    requires g.ts <= s.now
    ensures Timely(g, [s]) && End(g, [s]) == s.now
  {
  }

  lemma FreshBooks(g: Gate, start: real, first: real, timeout: real, c: Config)
    requires ValidConfig(c) && 0.0 <= g.tokens <= c.capacity && g.ts <= first && start <= first
    ensures Balanced(Books(0, 0, 0, false, 0), g, first, start, start + timeout, c)
    ensures Timely(g, []) && Run(g, [], c) == g && End(g, []) == g.ts
    ensures 1 <= Patience(c, timeout)
  {
    if timeout > 0.0 {
      AccruedLess(c, 0.0, 0.0, timeout);
      PacedBound(0, Pace(c), timeout);
    }
  }

  lemma NapIs(g: Gate, remaining: real, timeout: real, c: Config)
    ensures Nap(g, remaining, timeout, c)
         == Min(Min(if c.refill > 0.0 then (1.0 - g.tokens) / c.refill else timeout, remaining), 0.5)
  {
  }
}
