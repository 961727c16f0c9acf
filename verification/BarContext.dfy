/**
 The incremental session context is the context recomputed from scratch, for every bar
 over exactly the bars up to it, and later bars never change it.
 */
module BarContext {
  import opened Optional
  import opened Bars

  // ---------------------------------------------------------------- recomputation

  function SumTurnover(bars: seq<Bar>): real {
    if bars == [] then 0.0
    else
      var b := bars[|bars| - 1];
      SumTurnover(bars[..|bars| - 1]) + (b.high + b.low + b.close) / 3.0 * b.volume
  }

  function SumVolume(bars: seq<Bar>): real {
    if bars == [] then 0.0 else SumVolume(bars[..|bars| - 1]) + bars[|bars| - 1].volume
  }

  /** Bar `k` is the last one with the highest high. */
  ghost predicate LastHigh(bars: seq<Bar>, k: int) {
    && 0 <= k < |bars|
    && (forall i :: 0 <= i < k ==> bars[i].high <= bars[k].high)
    && (forall i :: k < i < |bars| ==> bars[i].high < bars[k].high)
  }

  /** `m` is the lowest low. */
  ghost predicate LeastLow(bars: seq<Bar>, m: real) {
    (forall i :: 0 <= i < |bars| ==> m <= bars[i].low) && exists i :: 0 <= i < |bars| && bars[i].low == m
  }

  /** `snap` is the context of `bars`, its last bar being the current one: VWAP over all of
      them, session high at its last occurrence, impulse low before it, leg given back. */
  ghost predicate ContextOf(bars: seq<Bar>, atr: Atr, snap: Snapshot) {
    bars != [] && exists k, m :: ContextWith(bars, atr, snap, k, m)
  }

  ghost predicate ContextWith(bars: seq<Bar>, atr: Atr, snap: Snapshot, k: int, m: real)
    requires bars != []
  {
    var close := bars[|bars| - 1].close;
    && LastHigh(bars, k)
    && LeastLow(bars[..k + 1], m)
    && snap.hod == bars[k].high
    && snap.retrace == (if bars[k].high > m then Some((bars[k].high - close) / (bars[k].high - m)) else None)
    && snap.svwap == (if SumVolume(bars) > 0.0 then SumTurnover(bars) / SumVolume(bars) else close)
    && snap.atr5m == atr(bars)
  }

  /** The recomputed context is unique, spread aside. */
  lemma ContextIsUnique(bars: seq<Bar>, atr: Atr, a: Snapshot, b: Snapshot)
    requires ContextOf(bars, atr, a) && ContextOf(bars, atr, b)
    ensures a.(spread := None) == b.(spread := None)
  {
    hide Retrace, Vwap, SumTurnover, SumVolume;
    var k, m :| ContextWith(bars, atr, a, k, m);
    var k', m' :| ContextWith(bars, atr, b, k', m');
    assert k == k';
    assert m == m';
  }

  ghost predicate Ascending(bars: seq<Bar>) {
    forall i, j :: 0 <= i < j < |bars| ==> bars[i].minute < bars[j].minute
  }

  // ---------------------------------------------------------------- invariant

  /** Every accumulator and every stored snapshot is what recomputation gives. */
  ghost predicate Exact(x: Context, atr: Atr) {
    && Shaped(x)
    && Ascending(x.bars)
    && x.cumPv == SumTurnover(x.bars) && x.cumV == SumVolume(x.bars)
    && (x.bars != [] ==> LastHigh(x.bars, x.hodIdx) && x.hod == Some(x.bars[x.hodIdx].high))
    && (forall i :: 0 <= i < |x.bars| ==> RunningLow(x, i))
    && OnlyMinutes(x)
    && (forall i :: 0 <= i < |x.bars| ==> StoredAt(x, atr, i))
  }

  ghost predicate RunningLow(x: Context, i: int)
    requires 0 <= i < |x.bars| == |x.prefixMinLow|
  {
    LeastLow(x.bars[..i + 1], x.prefixMinLow[i])
  }

  /** Snapshots are kept under committed minutes only. */
  ghost predicate OnlyMinutes(x: Context) {
    forall m :: m in x.snaps ==> exists i :: 0 <= i < |x.bars| && x.bars[i].minute == m
  }

  ghost predicate StoredAt(x: Context, atr: Atr, i: int)
    requires 0 <= i < |x.bars|
  {
    x.bars[i].minute in x.snaps && ContextOf(x.bars[..i + 1], atr, x.snaps[x.bars[i].minute])
  }

  lemma CommitExact(x: Context, bar: Bar, spread: Option<real>, atr: Atr)
    requires Exact(x, atr) && !Covered(x, bar.minute)
    ensures Exact(Commit(x, bar, spread, atr), atr)
    ensures bar.minute !in x.snaps
  {
    var y := Commit(x, bar, spread, atr);
    CommitSums(x, bar, spread, atr);
    CommitHigh(x, bar, spread, atr);
    CommitLow(x, bar, spread, atr);
    CommitKeeps(x, bar, spread, atr);
    CommitStores(x, bar, spread, atr);
    CommitMinutes(x, bar, spread, atr);
    hide StoredAt, RunningLow, LastHigh, OnlyMinutes, Ascending, Shaped;
    assert |y.bars| == |x.bars| + 1;
    hide Commit;
  }

  lemma CommitMinutes(x: Context, bar: Bar, spread: Option<real>, atr: Atr)
    requires Exact(x, atr) && !Covered(x, bar.minute)
    ensures var y := Commit(x, bar, spread, atr); Ascending(y.bars) && OnlyMinutes(y)
  {
    hide StoredAt, RunningLow, LastHigh;
    var y := Commit(x, bar, spread, atr);
    assert y.bars == x.bars + [bar] && y.snaps.Keys == x.snaps.Keys + {bar.minute};
    hide Commit;
    assert y.bars[|x.bars|] == bar;
    forall m | m in y.snaps ensures exists i :: 0 <= i < |y.bars| && y.bars[i].minute == m {
      if m in x.snaps {
        var i :| 0 <= i < |x.bars| && x.bars[i].minute == m;
        assert y.bars[i].minute == m;
      }
    }
  }

  lemma CommitSums(x: Context, bar: Bar, spread: Option<real>, atr: Atr)
    requires Exact(x, atr)
    ensures var y := Commit(x, bar, spread, atr);
            y.cumPv == SumTurnover(y.bars) && y.cumV == SumVolume(y.bars)
  {
    assert (x.bars + [bar])[..|x.bars|] == x.bars;
  }

  lemma CommitHigh(x: Context, bar: Bar, spread: Option<real>, atr: Atr)
    requires Exact(x, atr)
    ensures var y := Commit(x, bar, spread, atr);
            LastHigh(y.bars, y.hodIdx) && y.hod == Some(y.bars[y.hodIdx].high)
  {
  }

  lemma CommitLow(x: Context, bar: Bar, spread: Option<real>, atr: Atr)
    requires Exact(x, atr)
    ensures var y := Commit(x, bar, spread, atr);
            forall i :: 0 <= i < |y.bars| ==> RunningLow(y, i)
  {
    var y := Commit(x, bar, spread, atr);
    var n := |x.bars|;
    forall i | 0 <= i <= n ensures RunningLow(y, i) {
      if i < n {
        assert RunningLow(x, i);
        assert y.bars[..i + 1] == x.bars[..i + 1];
      } else if n > 0 {
        assert RunningLow(x, n - 1);
        var low := x.prefixMinLow[n - 1];
        assert x.bars[..n] == x.bars && y.bars[..n + 1] == y.bars;
        var j :| 0 <= j < n && x.bars[j].low == low;
        assert y.bars[j].low == low && y.bars[n] == bar;
      } else {
        assert y.bars[0] == bar;
      }
    }
  }

  /** Older snapshots are not touched. */
  lemma CommitKeeps(x: Context, bar: Bar, spread: Option<real>, atr: Atr)
    requires Exact(x, atr) && !Covered(x, bar.minute)
    ensures var y := Commit(x, bar, spread, atr);
            forall i :: 0 <= i < |x.bars| ==> StoredAt(y, atr, i)
    ensures bar.minute !in x.snaps
  {
    var y := Commit(x, bar, spread, atr);
    hide Shaped, LastHigh, RunningLow, ContextOf;
    forall i | 0 <= i < |x.bars| ensures StoredAt(y, atr, i) {
      assert StoredAt(x, atr, i);
      assert y.bars[..i + 1] == x.bars[..i + 1];
    }
  }

  lemma CommitSnap(x: Context, bar: Bar, spread: Option<real>, atr: Atr)
    requires Shaped(x)
    ensures var y := Commit(x, bar, spread, atr);
      && y.bars == x.bars + [bar] && bar.minute in y.snaps && y.hod.Some? && 0 <= y.hodIdx < |y.bars| == |y.prefixMinLow|
      && y.snaps[bar.minute] == Snapshot(Vwap(y.cumPv, y.cumV, bar.close), atr(y.bars), y.hod.value,
                                         Retrace(y.hod.value, y.prefixMinLow[y.hodIdx], bar.close), spread)
  {
    hide Turnover, Vwap, Retrace;
  }

  lemma CommitStores(x: Context, bar: Bar, spread: Option<real>, atr: Atr)
    requires Exact(x, atr)
    ensures var y := Commit(x, bar, spread, atr); StoredAt(y, atr, |x.bars|)
  {
    hide SumTurnover, SumVolume, LastHigh, LeastLow, Commit;
    assert Shaped(x);
    var y := Commit(x, bar, spread, atr);
    CommitSums(x, bar, spread, atr);
    CommitHigh(x, bar, spread, atr);
    CommitLow(x, bar, spread, atr);
    CommitSnap(x, bar, spread, atr);
    assert RunningLow(y, y.hodIdx);
    assert y.bars[..|x.bars| + 1] == y.bars;
    assert ContextWith(y.bars, atr, y.snaps[bar.minute], y.hodIdx, y.prefixMinLow[y.hodIdx]);
  }

  // ---------------------------------------------------------------- ticks, seeds and runs

  /** Exact context, and a forming bucket younger than every committed bar. */
  ghost predicate Sound(s: Session, atr: Atr) {
    Exact(s.ctx, atr) && (s.forming.Some? ==> !Covered(s.ctx, s.forming.value.minute))
  }

  lemma TickSound(s: Session, t: Tick, atr: Atr)
    requires Sound(s, atr)
    ensures Sound(OnTick(s, t, atr), atr)
  {
    assert Shaped(s.ctx);
    hide Exact;
    if Readable(t) && Closes(s, t) {
      CommitExact(s.ctx, FormedBar(s), s.curSpread, atr);
    }
  }

  /** A priced tick of a minute already covered, or before midnight, while nothing forms only moves the
      volume mark; one older than the forming bucket, or without a price, leaves no trace. */
  lemma LateTick(s: Session, t: Tick, atr: Atr)
    requires Shaped(s.ctx)
    ensures t.last.Some? && t.last.value > 0.0 && s.forming.None?
            && (t.minute < 0 || (s.ctx.bars != [] && t.minute <= s.ctx.bars[|s.ctx.bars| - 1].minute))
            ==> OnTick(s, t, atr) == s.(lastCum := Some(t.cum))
    ensures t.last.None? || t.last.value <= 0.0 || (s.forming.Some? && t.minute < s.forming.value.minute)
            ==> OnTick(s, t, atr) == s
  {
  }

  /** A seeded bar keeps the session sound exactly when it is ignored, or nothing is
      forming, or it is older than the forming bucket.  `seed_bar` itself does not look. */
  lemma SeedSoundIff(s: Session, bar: Bar, atr: Atr)
    requires Sound(s, atr)
    ensures Sound(SeedBar(s, bar, atr), atr) <==> SeedInOrder(s, bar)
  {
    if !Covered(s.ctx, bar.minute) {
      CommitExact(s.ctx, bar, s.curSpread, atr);
      var y := Commit(s.ctx, bar, s.curSpread, atr);
      assert y.bars[|y.bars| - 1] == bar;
      hide Exact, Commit;
    }
  }

  predicate SeedInOrder(s: Session, bar: Bar) {
    Covered(s.ctx, bar.minute) || s.forming.None? || bar.minute < s.forming.value.minute
  }

  predicate EventInOrder(s: Session, e: Event) { e.Seed? ==> SeedInOrder(s, e.bar) }

  /** Every seeded bar of the run is older than the bucket forming when it comes. */
  predicate SeedsInOrder(s: Session, events: seq<Event>, atr: Atr)
    requires Shaped(s.ctx)
  {
    forall i :: 0 <= i < |events| ==> EventInOrder(Run(s, events[..i], atr), events[i])
  }

  lemma InOrderPrefix(s: Session, events: seq<Event>, n: nat, atr: Atr)
    requires Shaped(s.ctx) && n <= |events| && SeedsInOrder(s, events, atr)
    ensures SeedsInOrder(s, events[..n], atr)
  {
    forall i | 0 <= i < n ensures EventInOrder(Run(s, events[..n][..i], atr), events[..n][i]) {
      assert events[..n][..i] == events[..i];
    }
  }

  /** In every run of ticks and in-order seeds, of any length, the whole context is exact. */
  lemma {:induction false} RunSound(s: Session, events: seq<Event>, atr: Atr)
    requires Sound(s, atr) && SeedsInOrder(s, events, atr)
    ensures Sound(Run(s, events, atr), atr)
    decreases |events|
  {
    if events == [] {
    } else {
      var n := |events| - 1;
      var before := events[..n];
      InOrderPrefix(s, events, n, atr);
      RunSound(s, before, atr);
      var mid := Run(s, before, atr);
      assert EventInOrder(mid, events[n]);
      hide Sound, OnTick, SeedBar;
      match events[n] {
        case Live(t) => TickSound(mid, t, atr);
        case Seed(b) => SeedSoundIff(mid, b, atr);
      }
    }
  }

  /** The stored snapshots of `a` are all in `b`, unchanged. */
  predicate Extends(a: Context, b: Context) {
    a.bars <= b.bars && forall m :: m in a.snaps ==> m in b.snaps && b.snaps[m] == a.snaps[m]
  }

  lemma StepExtends(s: Session, e: Event, atr: Atr)
    requires Sound(s, atr)
    ensures Extends(s.ctx, Step(s, e, atr).ctx)
  {
    if e.Live? && Readable(e.tick) && Closes(s, e.tick) {
      CommitKeeps(s.ctx, FormedBar(s), s.curSpread, atr);
    } else if e.Seed? && !Covered(s.ctx, e.bar.minute) {
      CommitKeeps(s.ctx, e.bar, s.curSpread, atr);
    }
    hide Exact, ContextOf;
  }

  /** Causality: whatever ticks and seeds come later, no committed bar and no snapshot
      taken so far changes. */
  lemma {:induction false} RunCausal(s: Session, events: seq<Event>, more: seq<Event>, atr: Atr)
    requires Sound(s, atr) && SeedsInOrder(s, events + more, atr)
    ensures Extends(Run(s, events, atr).ctx, Run(s, events + more, atr).ctx)
    decreases |more|
  {
    var all := events + more;
    if more == [] {
      assert all == events;
    } else {
      var n := |all| - 1;
      var less := more[..|more| - 1];
      assert all[..n] == events + less && all[n] == more[|more| - 1];
      InOrderPrefix(s, all, n, atr);
      RunLast(s, all, atr);
      hide Run, Step, SeedsInOrder, Extends;
      RunCausal(s, events, less, atr);
      RunSound(s, events + less, atr);
      StepExtends(Run(s, events + less, atr), all[n], atr);
      ExtendsTransitive(Run(s, events, atr).ctx, Run(s, events + less, atr).ctx, Run(s, all, atr).ctx);
    }
  }

  lemma RunLast(s: Session, all: seq<Event>, atr: Atr)
    requires Shaped(s.ctx) && all != []
    ensures Run(s, all, atr) == Step(Run(s, all[..|all| - 1], atr), all[|all| - 1], atr)
  {
  }

  lemma ExtendsTransitive(a: Context, b: Context, c: Context)
    requires Extends(a, b) && Extends(b, c)
    ensures Extends(a, c)
  {
  }

  // ---------------------------------------------------------------- seeding history

  function Seeds(bars: seq<Bar>): seq<Event> {
    seq(|bars|, i requires 0 <= i < |bars| => Seed(bars[i]))
  }

  /** A seed later than everything committed, with nothing forming, is committed. */
  lemma SeedNext(s: Session, bar: Bar, atr: Atr)
    requires Sound(s, atr) && s.forming.None? && !Covered(s.ctx, bar.minute)
    ensures var r := SeedBar(s, bar, atr); Sound(r, atr) && r.forming.None? && r.ctx.bars == s.ctx.bars + [bar]
  {
    SeedSoundIff(s, bar, atr);
    hide Exact, Turnover, Vwap, Retrace;
  }

  lemma SeedsStep(bars: seq<Bar>, bar: Bar, atr: Atr)
    ensures Run(EMPTY, Seeds(bars + [bar]), atr) == SeedBar(Run(EMPTY, Seeds(bars), atr), bar, atr)
  {
    hide SeedBar;
    var all := Seeds(bars + [bar]);
    assert all[..|bars|] == Seeds(bars) && all[|bars|] == Seed(bar);
    RunLast(EMPTY, all, atr);
  }

  lemma NothingIsSound(atr: Atr)
    ensures Run(EMPTY, Seeds([]), atr) == EMPTY && Sound(EMPTY, atr)
  {
  }

  lemma {:induction false} SeedAll(bars: seq<Bar>, atr: Atr)
    requires Ascending(bars)
    ensures var s := Run(EMPTY, Seeds(bars), atr);
            Sound(s, atr) && s.forming.None? && s.ctx.bars == bars
    decreases |bars|
  {
    hide Run, Sound, Seeds, SeedBar;
    if bars == [] {
      NothingIsSound(atr);
    } else {
      var init, bar := bars[..|bars| - 1], bars[|bars| - 1];
      assert bars == init + [bar];
      SeedAll(init, atr);
      SeedsStep(init, bar, atr);
      SeedNext(Run(EMPTY, Seeds(init), atr), bar, atr);
    }
  }

  /** Replay equals live: after any sound run, seeding just its committed bars into a fresh
      builder gives the same sums, session high and running lows, and for every minute the
      same snapshot, spread aside. */
  lemma SeedingReproduces(s: Session, atr: Atr)
    requires Sound(s, atr)
    ensures var y := Run(EMPTY, Seeds(s.ctx.bars), atr).ctx;
            SameContext(s.ctx, y)
  {
    SeedAll(s.ctx.bars, atr);
    ExactIsUnique(s.ctx, Run(EMPTY, Seeds(s.ctx.bars), atr).ctx, atr);
  }

  predicate SameContext(x: Context, y: Context) {
    && x.bars == y.bars && x.cumPv == y.cumPv && x.cumV == y.cumV
    && x.hod == y.hod && (x.bars != [] ==> x.hodIdx == y.hodIdx)
    && x.prefixMinLow == y.prefixMinLow
    && x.snaps.Keys == y.snaps.Keys
    && forall m :: m in x.snaps ==> x.snaps[m].(spread := None) == y.snaps[m].(spread := None)
  }

  lemma ExactIsUnique(x: Context, y: Context, atr: Atr)
    requires Exact(x, atr) && Exact(y, atr) && x.bars == y.bars
    ensures SameContext(x, y)
  {
    hide ContextOf;
    forall i | 0 <= i < |x.bars| ensures x.prefixMinLow[i] == y.prefixMinLow[i] {
      assert RunningLow(x, i) && RunningLow(y, i);
    }
    forall m | m in x.snaps || m in y.snaps
      ensures m in x.snaps && m in y.snaps && x.snaps[m].(spread := None) == y.snaps[m].(spread := None)
    {
      var i :| 0 <= i < |x.bars| && x.bars[i].minute == m;
      assert StoredAt(x, atr, i) && StoredAt(y, atr, i);
      ContextIsUnique(x.bars[..i + 1], atr, x.snaps[m], y.snaps[m]);
    }
  }

  /** Why seeds must be in order: once history is seeded at or past the forming bucket, the
      next tick that closes the bucket commits it behind that history. */
  lemma LateSeedBreaksOrder(s: Session, bar: Bar, t: Tick, atr: Atr)
    requires Sound(s, atr) && !SeedInOrder(s, bar)
    requires Readable(t) && t.minute > s.forming.value.minute
    ensures !Ascending(OnTick(SeedBar(s, bar, atr), t, atr).ctx.bars)
  {
    var s1 := SeedBar(s, bar, atr);
    var x := Commit(s1.ctx, FormedBar(s1), s1.curSpread, atr);
    var n := |s.ctx.bars|;
    assert s1.ctx.bars == s.ctx.bars + [bar];
    assert x.bars == s1.ctx.bars + [FormedBar(s1)];
    hide Commit, Exact;
    assert x.bars[n] == bar && x.bars[n + 1].minute == s.forming.value.minute;
    assert OnTick(s1, t, atr).ctx.bars == x.bars;
  }

  const FIRST_TICK: Tick := Tick(600, Some(10.0), None, 0.0)
  const NEXT_TICK: Tick := Tick(601, Some(10.0), None, 5.0)
  const LATE_BAR: Bar := Bar(600, 9.0, 11.0, 9.0, 10.0, 100.0)

  /** A reachable case: one tick opens the bucket of minute 600, history for that same minute is
      seeded behind it, and the next minute's tick commits minute 600 a second time. */
  lemma LateSeedHappens(atr: Atr)
    ensures var s := OnTick(EMPTY, FIRST_TICK, atr);
      && Sound(s, atr) && !SeedInOrder(s, LATE_BAR)
      && !Ascending(OnTick(SeedBar(s, LATE_BAR, atr), NEXT_TICK, atr).ctx.bars)
  {
    var s := OnTick(EMPTY, FIRST_TICK, atr);
    assert Sound(EMPTY, atr);
    TickSound(EMPTY, FIRST_TICK, atr);
    LateSeedBreaksOrder(s, LATE_BAR, NEXT_TICK, atr);
  }
}
