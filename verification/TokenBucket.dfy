/**
 The shared token bucket.  Every use of the bucket is one section under its lock: it reads
 the clock, replenishes, and may take a token.  A run is any interleaving of such sections
 from any number of threads, with the clock readings never running back.
 */
module TokenBucket {
  import opened Numbers

  /** Reading the level, an order that never waits, or one attempt of a waiting call. */
  datatype Kind = Peek | High | Try

  datatype Section = Section(kind: Kind, now: real)

  datatype Gate = Gate(tokens: real, ts: real)

  datatype Config = Config(capacity: real, refill: real)

  predicate ValidConfig(c: Config) { c.capacity >= 0.0 && c.refill >= 0.0 }

  /** What flows in between two clock readings. */
  function Accrued(c: Config, from: real, to: real): real { (to - from) * c.refill }

  function Replenish(g: Gate, now: real, c: Config): Gate {
    Gate(Min(c.capacity, g.tokens + Accrued(c, g.ts, now)), now)
  }

  predicate Takes(g: Gate, s: Section, c: Config) {
    s.kind != Peek && Replenish(g, s.now, c).tokens >= 1.0
  }

  function After(g: Gate, s: Section, c: Config): Gate {
    var r := Replenish(g, s.now, c);
    if Takes(g, s, c) then r.(tokens := r.tokens - 1.0) else r
  }

  function Run(g: Gate, run: seq<Section>, c: Config): Gate
    decreases |run|
  {
    if run == [] then g else After(Run(g, run[..|run| - 1], c), run[|run| - 1], c)
  }

  /** Tokens handed out over a run. */
  function Taken(g: Gate, run: seq<Section>, c: Config): nat
    decreases |run|
  {
    if run == [] then 0
    else
      var before := run[..|run| - 1];
      Taken(g, before, c) + (if Takes(Run(g, before, c), run[|run| - 1], c) then 1 else 0)
  }

  predicate Timely(g: Gate, run: seq<Section>) {
    && (run != [] ==> g.ts <= run[0].now)
    && forall i :: 0 < i < |run| ==> run[i - 1].now <= run[i].now
  }

  function End(g: Gate, run: seq<Section>): real { if run == [] then g.ts else run[|run| - 1].now }

  // ---------------------------------------------------------------- bounds over any interleaving

  lemma AccruedAdds(c: Config, t0: real, t1: real, t2: real)
    requires ValidConfig(c)
    ensures Accrued(c, t0, t1) + Accrued(c, t1, t2) == Accrued(c, t0, t2)
    ensures t0 <= t1 ==> Accrued(c, t0, t1) >= 0.0
    ensures Accrued(c, t0, t0) == 0.0
  {
  }

  lemma SectionBounds(g: Gate, s: Section, c: Config)
    requires ValidConfig(c) && 0.0 <= g.tokens <= c.capacity && g.ts <= s.now
    ensures var r := After(g, s, c);
            && 0.0 <= r.tokens <= c.capacity && r.ts == s.now
            && r.tokens + (if Takes(g, s, c) then 1.0 else 0.0)
               == Min(c.capacity, g.tokens + Accrued(c, g.ts, s.now))
  {
    AccruedAdds(c, g.ts, s.now, s.now);
    hide Accrued;
  }

  /** Tokens stay between 0 and the capacity, and whatever is handed out was in the bucket
      at the start or accrued since. */
  lemma {:induction false} RunBounds(g: Gate, run: seq<Section>, c: Config)
    requires ValidConfig(c) && 0.0 <= g.tokens <= c.capacity && Timely(g, run)
    ensures 0.0 <= Run(g, run, c).tokens <= c.capacity
    ensures Run(g, run, c).ts == End(g, run) >= g.ts
    ensures Run(g, run, c).tokens + Taken(g, run, c) as real <= g.tokens + Accrued(c, g.ts, End(g, run))
    decreases |run|
  {
    hide Accrued;
    AccruedAdds(c, g.ts, g.ts, g.ts);
    if run == [] {
    } else {
      var before, s := run[..|run| - 1], run[|run| - 1];
      RunBounds(g, before, c);
      var mid := Run(g, before, c);
      SectionBounds(mid, s, c);
      AccruedAdds(c, g.ts, mid.ts, s.now);
      hide Takes, After;
    }
  }

  lemma {:induction false} RunJoins(g: Gate, a: seq<Section>, b: seq<Section>, c: Config)
    ensures Run(g, a + b, c) == Run(Run(g, a, c), b, c)
    ensures Taken(g, a + b, c) == Taken(g, a, c) + Taken(Run(g, a, c), b, c)
    decreases |b|
  {
    if b == [] {
      assert a + b == a;
    } else {
      var less := b[..|b| - 1];
      assert (a + b)[..|a + b| - 1] == a + less && (a + b)[|a + b| - 1] == b[|b| - 1];
      RunJoins(g, a, less, c);
      hide Takes, After;
    }
  }

  lemma TimelySplit(g: Gate, a: seq<Section>, b: seq<Section>, tokens: real)
    requires Timely(g, a + b)
    ensures var mid := Gate(tokens, End(g, a));
            Timely(g, a) && Timely(mid, b) && End(g, a + b) == End(mid, b)
  {
    var all, mid := a + b, Gate(tokens, End(g, a));
    assert Timely(g, a) by {
      assert a != [] ==> all[0] == a[0];
      forall i | 0 < i < |a| ensures a[i - 1].now <= a[i].now {
        assert all[i - 1].now <= all[i].now;
      }
    }
    assert Timely(mid, b) by {
      assert b != [] ==> all[|a|] == b[0] && (a != [] ==> all[|a| - 1] == a[|a| - 1]);
      forall i | 0 < i < |b| ensures b[i - 1].now <= b[i].now {
        assert all[|a| + i - 1].now <= all[|a| + i].now;
      }
    }
    assert b == [] ==> all == a;
    assert b != [] ==> all[|all| - 1] == b[|b| - 1];
  }

  lemma TimelyJoin(g: Gate, a: seq<Section>, b: seq<Section>, tokens: real)
    requires Timely(g, a) && Timely(Gate(tokens, End(g, a)), b)
    ensures Timely(g, a + b) && End(g, a + b) == End(Gate(tokens, End(g, a)), b)
  {
    var all := a + b;
    forall i | 0 < i < |all| ensures all[i - 1].now <= all[i].now {
      if i < |a| {
        assert a[i - 1].now <= a[i].now;
      } else if i > |a| {
        assert b[i - |a| - 1].now <= b[i - |a|].now;
      }
    }
    assert b == [] ==> all == a;
  }

  lemma RunOne(g: Gate, s: Section, c: Config)
    ensures Run(g, [s], c) == After(g, s, c)
    ensures Taken(g, [s], c) == if Takes(g, s, c) then 1 else 0
  {
    hide After, Takes;
    assert [s][..0] == [];
  }

  lemma StretchTaken(g: Gate, before: seq<Section>, stretch: seq<Section>, c: Config)
    requires ValidConfig(c) && 0.0 <= g.tokens <= c.capacity && Timely(g, before + stretch)
    ensures Taken(g, before + stretch, c) as real - Taken(g, before, c) as real
         <= c.capacity + Accrued(c, End(g, before), End(g, before + stretch))
  {
    hide Accrued;
    var mid := Run(g, before, c);
    TimelySplit(g, before, stretch, mid.tokens);
    RunBounds(g, before, c);
    RunJoins(g, before, stretch, c);
    hide Timely, Run, Taken;
    RunBounds(mid, stretch, c);
  }

  /** What flows in is the time times the rate. */
  lemma AccruedIs(c: Config, from: real, to: real)
    ensures Accrued(c, from, to) == (to - from) * c.refill
  {
  }

  /** The rate limit.  In any run, over any stretch of it, the tokens handed out are at most
      the capacity plus what the refill rate allows for the time the stretch takes. */
  lemma IntervalBound(g: Gate, before: seq<Section>, stretch: seq<Section>, c: Config)
    requires ValidConfig(c) && 0.0 <= g.tokens <= c.capacity && Timely(g, before + stretch)
    ensures var start, end := End(g, before), End(g, before + stretch);
            Taken(g, before + stretch, c) as real - Taken(g, before, c) as real
              <= c.capacity + (end - start) * c.refill
  {
    hide Taken, Timely, End, Accrued;
    StretchTaken(g, before, stretch, c);
    AccruedIs(c, End(g, before), End(g, before + stretch));
  }

  /** While nobody takes, the level only rises. */
  lemma {:induction false} Untouched(g: Gate, run: seq<Section>, c: Config)
    requires ValidConfig(c) && 0.0 <= g.tokens <= c.capacity && Timely(g, run)
    requires Taken(g, run, c) == 0
    ensures Run(g, run, c).tokens == Min(c.capacity, g.tokens + Accrued(c, g.ts, End(g, run)))
    decreases |run|
  {
    hide Accrued;
    AccruedAdds(c, g.ts, g.ts, g.ts);
    if run == [] {
    } else {
      var before, s := run[..|run| - 1], run[|run| - 1];
      Untouched(g, before, c);
      RunBounds(g, before, c);
      var mid := Run(g, before, c);
      SectionBounds(mid, s, c);
      AccruedAdds(c, g.ts, mid.ts, s.now);
      AccruedAdds(c, mid.ts, s.now, s.now);
      hide Takes, After;
    }
  }

  // ---------------------------------------------------------------- who takes a token

  /** The level at a moment: what was there and what has flowed in, up to the capacity. */
  function Level(g: Gate, now: real, c: Config): real {
    var full := g.tokens + Accrued(c, g.ts, now);
    if full <= c.capacity then full else c.capacity
  }

  /** What one section leaves: a reading the level at the clock, an order or an attempt one token less,
      if there is one. */
  lemma SectionLeaves(g: Gate, kind: Kind, now: real, c: Config)
    ensures var level := Level(g, now, c);
      && After(g, Section(kind, now), c) == Gate(if kind != Peek && level >= 1.0 then level - 1.0 else level, now)
      && (Takes(g, Section(kind, now), c) <==> kind != Peek && level >= 1.0)
  {
    hide Accrued;
  }

  lemma SectionAtOnce(g: Gate, kind: Kind, c: Config)
    requires g.tokens <= c.capacity
    ensures After(g, Section(kind, g.ts), c)
         == Gate(if kind != Peek && g.tokens >= 1.0 then g.tokens - 1.0 else g.tokens, g.ts)
    ensures Takes(g, Section(kind, g.ts), c) <==> kind != Peek && g.tokens >= 1.0
  {
    assert Accrued(c, g.ts, g.ts) == 0.0;
    hide Accrued;
  }

  /** So many orders, all at one moment. */
  function Orders(n: nat, now: real): seq<Section> { seq(n, _ => Section(High, now)) }

  lemma OneMoreOrder(n: nat, now: real)
    ensures Orders(n + 1, now) == Orders(n, now) + [Section(High, now)]
  {
  }

  /** How many of `n` orders at one moment find a whole token. */
  function Served(level: real, n: nat): (k: nat)
    requires level >= 0.0
  {
    if n <= level.Floor then n else level.Floor
  }

  lemma ServedNext(level: real, n: nat)
    requires level >= 0.0
    ensures Served(level, n) as real <= level
    ensures Served(level, n + 1) == Served(level, n) + if level - Served(level, n) as real >= 1.0 then 1 else 0
  {
  }

  /** Orders in one moment drain the bucket one whole token each, until none is left. */
  lemma {:induction false} OrdersDrain(g: Gate, n: nat, c: Config)
    requires 0.0 <= g.tokens <= c.capacity
    ensures Run(g, Orders(n, g.ts), c) == Gate(g.tokens - Served(g.tokens, n) as real, g.ts)
    ensures Taken(g, Orders(n, g.ts), c) == Served(g.tokens, n)
    decreases n
  {
    if n == 0 {
    } else {
      var before := Orders(n - 1, g.ts);
      OrdersDrain(g, n - 1, c);
      hide Run, Taken, After, Takes, Served, Orders;
      OneMoreOrder(n - 1, g.ts);
      ServedNext(g.tokens, n - 1);
      RunJoins(g, before, [Section(High, g.ts)], c);
      RunOne(Run(g, before, c), Section(High, g.ts), c);
      SectionAtOnce(Run(g, before, c), High, c);
    }
  }

  lemma CallGranted(g: Gate, later: real, c: Config)
    requires 1.0 <= c.capacity
    ensures Takes(g, Section(Try, later), c) <==> g.tokens + Accrued(c, g.ts, later) >= 1.0
  {
    hide Accrued, Takes;
    SectionLeaves(g, Try, later, c);
  }

  lemma ServedWhole(level: real, whole: nat, n: nat)
    requires whole <= n && whole as real <= level < whole as real + 1.0
    ensures Served(level, n) == whole
  {
  }

  /** After orders that emptied the bucket of its whole tokens, another call is granted at a later
      moment if and only if the missing part of a token has flowed in by then. */
  lemma CallsWaitForOrders(g: Gate, whole: nat, n: nat, later: real, c: Config)
    requires 1.0 <= c.capacity && 0.0 <= g.tokens <= c.capacity
    requires whole <= n && whole as real <= g.tokens < whole as real + 1.0
    ensures Takes(Run(g, Orders(n, g.ts), c), Section(Try, later), c)
       <==> g.tokens - whole as real + Accrued(c, g.ts, later) >= 1.0
  {
    hide Run, Taken, After, Takes, Orders, Served, Accrued;
    ServedWhole(g.tokens, whole, n);
    OrdersDrain(g, n, c);
    CallGranted(Gate(g.tokens - whole as real, g.ts), later, c);
  }

  /** Eight orders at once empty the bucket the program ships with: the next call is refused there and
      then, and for half a second. */
  lemma EightOrders(later: real)
    requires later >= 0.0
    ensures var c, full := Config(8.0, 2.0), Gate(8.0, 0.0);
      && Run(full, Orders(8, 0.0), c).tokens == 0.0
      && (Takes(Run(full, Orders(8, 0.0), c), Section(Try, later), c) <==> later >= 0.5)
  {
    hide Run, Taken, After, Takes, Orders;
    OrdersDrain(Gate(8.0, 0.0), 8, Config(8.0, 2.0));
    ServedWhole(8.0, 8, 8);
    CallsWaitForOrders(Gate(8.0, 0.0), 8, 8, later, Config(8.0, 2.0));
  }
}
