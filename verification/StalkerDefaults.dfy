/** The parameters the engine ships with, what the trigger theorems come to for them, and a run
    for each grammar that fires under them. */
module StalkerDefaults {
  import opened Optional
  import opened StalkerRules
  import opened StalkerPath
  import opened StalkerFire
  import opened StalkerFlush
  import opened StalkerPivot

  const DEFAULTS: Params := Params(
    true, true,
    0.75,
    0.2, 0.8, 5, 0.5,
    1.5, 20, 3,
    2, 0.15,
    0.30, 2,
    0.35, 1.2, 2.0, 6.0,
    585, 780,
    80.0, 3, 0.85,
    6.0, 0.5)

  /** With the shipped parameters every fire has its stop below the close and its target above,
      and the stop under every low of its pattern whenever the volatility estimate is positive. */
  lemma DefaultTrigger(bars: seq<BarInput>, z: Zone)
    requires Feedable(bars) && Run(bars, Plan(z, DEFAULTS)).fire.Some?
    ensures var h, i := Seen(bars, Plan(z, DEFAULTS)), Run(bars, Plan(z, DEFAULTS)).fire.value;
      && h != [] && i.stop < i.refClose < i.t1
      && (h[|h| - 1].atr5m.Some? && h[|h| - 1].atr5m.value > 0.0 ==>
            exists s :: 0 <= s < |h| && UnderLows(h[s..], i.stop)
              && if i.grammar == UndercutReclaim then h[s].low < z.referenceLow else PivotAt(h, Plan(z, DEFAULTS), s))
  {
    hide Run, Seen, PivotAt, UnderLows, GatesHeld, DownTaper;
    var w := Plan(z, DEFAULTS);
    FireIsSound(bars, w);
    var h, i := Seen(bars, w), Run(bars, w).fire.value;
    if i.grammar == UndercutReclaim {
      ReclaimTrigger(bars, w);
      var s: nat :| ReclaimPattern(h, i, w, s);
      assert s < |h|;
    } else {
      HigherLowTrigger(bars, w);
      var v: nat :| HigherLowPattern(h, i, w, v);
      assert v < |h|;
    }
  }

  // ---------------------------------------------------------------- a reclaim that fires

  const Z1: Zone := Zone(101.0, 99.6, 100.0, 102.0)

  const FLUSH_BAR: BarInput :=
    BarInput(600, 101.0, 101.0, 99.5, 99.8, 100.0, 100.5, Some(1.0), 102.0, None, None, false, false)

  const RECLAIM_BAR: BarInput :=
    BarInput(601, 99.9, 100.6, 99.9, 100.5, 200.0, 100.5, Some(1.0), 102.0, None, None, false, false)

  /** One bar pulls back, touches the zone and flushes; the next one reclaims and fires. */
  lemma ReclaimCanFire()
    ensures Feedable([FLUSH_BAR, RECLAIM_BAR])
    ensures var f := Run([FLUSH_BAR, RECLAIM_BAR], Plan(Z1, DEFAULTS));
      && f.state == Fired && f.fire.Some? && f.fire.value.grammar == UndercutReclaim
      && f.fire.value.stop == 99.15 && f.fire.value.flushLow == Some(99.5)
  {
    hide Step;
    var w := Plan(Z1, DEFAULTS);
    assert [] + [FLUSH_BAR] == [FLUSH_BAR] && [FLUSH_BAR] + [RECLAIM_BAR] == [FLUSH_BAR, RECLAIM_BAR];
    RunStep([], FLUSH_BAR, w);
    assert Run([], w) == START;
    hide Run;
    RunStep([FLUSH_BAR], RECLAIM_BAR, w);
    AfterFlush();
    AfterReclaim(Run([FLUSH_BAR], w));
  }

  lemma AfterFlush()
    ensures var f := Step(START, FLUSH_BAR, Plan(Z1, DEFAULTS));
      f == Fsm(Confirming, f.events, None, [FLUSH_BAR], Flush(1, 99.5, 100.0), NoPivot, 0, 0, 1)
  {
    hide TryFire;
    var w := Plan(Z1, DEFAULTS);
    var m := Watch(START, FLUSH_BAR, w);
    assert m == Fsm(Touched, m.events, None, [FLUSH_BAR], NoFlush, NoPivot, 0, 0, 1);
    var a := AdvanceG1(m, FLUSH_BAR, w);
    assert a == Fsm(Confirming, a.events, None, [FLUSH_BAR], Flush(1, 99.5, 100.0), NoPivot, 0, 0, 1);
  }

  lemma AfterReclaim(f: Fsm)
    requires f == Fsm(Confirming, f.events, None, [FLUSH_BAR], Flush(1, 99.5, 100.0), NoPivot, 0, 0, 1)
    ensures var g := Step(f, RECLAIM_BAR, Plan(Z1, DEFAULTS));
      && g.state == Fired && g.fire.Some? && g.fire.value.grammar == UndercutReclaim
      && g.fire.value.stop == 99.15 && g.fire.value.flushLow == Some(99.5)
  {
    hide TryFire;
    var w := Plan(Z1, DEFAULTS);
    var m := Watch(f, RECLAIM_BAR, w);
    assert m == Fsm(Confirming, f.events, None, [FLUSH_BAR, RECLAIM_BAR], Flush(1, 99.5, 100.0), NoPivot, 0, 0, 2);
    ReclaimGates(m);
    TryFireSound(m, RECLAIM_BAR, UndercutReclaim, 99.5, None, w);
  }

  lemma ReclaimGates(m: Fsm)
    requires m.bars == [FLUSH_BAR, RECLAIM_BAR]
    ensures MayFire(m, RECLAIM_BAR, 99.5, Plan(Z1, DEFAULTS))
  {
    var p := DEFAULTS;
    assert VolMedian(m.bars, p) == Some(100.0) by {
      assert m.bars[..1] == [FLUSH_BAR] && Tail([FLUSH_BAR], 20) == [FLUSH_BAR];
      assert [FLUSH_BAR][..0] == [];
      assert Volumes([FLUSH_BAR]) == [100.0];
      assert Sorted([100.0]) == [100.0];
    }
    assert |DownVolumes(m.bars)| < 6 by { FewDowns(m.bars); }
    assert BarGates(m, RECLAIM_BAR, Plan(Z1, p));
  }

  lemma {:induction false} FewDowns(bars: seq<BarInput>)
    ensures |DownVolumes(bars)| <= |bars|
    decreases |bars|
  {
    if bars == [] {
    } else {
      FewDowns(bars[..|bars| - 1]);
    }
  }

  // ---------------------------------------------------------------- a higher low that fires

  const Z2: Zone := Zone(101.0, 98.5, 99.0, 103.0)

  /** A quiet bar in the zone with this low. */
  function Quiet(minute: int, low: real): BarInput {
    BarInput(minute, 100.8, 101.0, low, 100.9, 100.0, 102.0, Some(1.0), 103.0, None, None, false, false)
  }

  const BREAK_BAR: BarInput :=
    BarInput(605, 100.5, 101.6, 100.3, 101.5, 200.0, 102.0, Some(1.0), 103.0, None, None, false, false)

  /** Five bars whose middle one has the lowest low. */
  const BASE: seq<BarInput> := [Quiet(600, 100.4), Quiet(601, 100.2), Quiet(602, 100.0), Quiet(603, 100.1), Quiet(604, 100.3)]

  lemma QuietStep(f: Fsm, bar: BarInput)
    requires f.state == Touched && f.g1.NoFlush? && f.g2.NoPivot? && f.fire.None?
    requires f.below == 0 && f.wide == 0 && |f.bars| < 4
    requires 600 <= bar.minute < 700 && bar == Quiet(bar.minute, bar.low) && 100.0 <= bar.low <= 101.0
    ensures Step(f, bar, Plan(Z2, DEFAULTS)) == f.(bars := f.bars + [bar], n := f.n + 1)
  {
    hide TryFire;
    var w := Plan(Z2, DEFAULTS);
    var m := Watch(f, bar, w);
    assert m == f.(bars := f.bars + [bar], n := f.n + 1);
    assert AdvanceG1(m, bar, w) == m;
    assert !IsMicroPivot(m.bars, w);
  }

  lemma FirstTouch()
    ensures var f := Step(START, BASE[0], Plan(Z2, DEFAULTS));
      f == Fsm(Touched, f.events, None, BASE[..1], NoFlush, NoPivot, 0, 0, 1)
  {
    hide TryFire;
    var w, bar := Plan(Z2, DEFAULTS), BASE[0];
    var m := Watch(START, bar, w);
    assert m == Fsm(Touched, m.events, None, [bar], NoFlush, NoPivot, 0, 0, 1);
    assert BASE[..1] == [bar];
    assert AdvanceG1(m, bar, w) == m;
  }

  lemma PivotStep(f: Fsm)
    requires f == Fsm(Touched, f.events, None, BASE[..4], NoFlush, NoPivot, 0, 0, 4)
    ensures var g := Step(f, BASE[4], Plan(Z2, DEFAULTS));
      g == Fsm(Confirming, g.events, None, BASE, NoFlush, Pivot(100.0, 101.0, None), 0, 0, 5)
  {
    hide TryFire, MaxHigh;
    var w, bar := Plan(Z2, DEFAULTS), BASE[4];
    var m := Watch(f, bar, w);
    assert BASE[..4] + [bar] == BASE;
    assert m == f.(bars := BASE, n := 5);
    assert AdvanceG1(m, bar, w) == m;
    assert IsMicroPivot(BASE, w);
    assert MaxHigh(BASE[3..]) == 101.0 by {
      var i :| 0 <= i < |BASE[3..]| && BASE[3..][i].high == MaxHigh(BASE[3..]);
    }
  }

  lemma BreakStep(f: Fsm)
    requires f == Fsm(Confirming, f.events, None, BASE, NoFlush, Pivot(100.0, 101.0, None), 0, 0, 5)
    ensures var g := Step(f, BREAK_BAR, Plan(Z2, DEFAULTS));
      && g.state == Fired && g.fire.Some? && g.fire.value.grammar == HigherLowBreak
      && g.fire.value.stop == 99.65 && g.fire.value.higherLow == Some(100.3)
  {
    hide TryFire;
    var w := Plan(Z2, DEFAULTS);
    var m := Watch(f, BREAK_BAR, w);
    assert m == f.(bars := BASE + [BREAK_BAR], n := 6);
    assert AdvanceG1(m, BREAK_BAR, w) == m;
    var f1 := m.(g2 := Pivot(100.0, 101.0, Some(100.3)));
    BreakGates(f1);
    TryFireSound(f1, BREAK_BAR, HigherLowBreak, 100.0, Some(100.3), w);
  }

  lemma BreakGates(m: Fsm)
    requires m.bars == BASE + [BREAK_BAR]
    ensures MayFire(m, BREAK_BAR, 100.0, Plan(Z2, DEFAULTS))
  {
    hide Volumes, DownVolumes, Median;
    var p := DEFAULTS;
    assert m.bars[..5] == BASE && Tail(BASE, 20) == BASE;
    assert VolMedian(m.bars, p) == Some(100.0) by { FlatMedian(BASE); }
    assert BarGates(m, BREAK_BAR, Plan(Z2, p)) by { NoDowns(m.bars); }
  }

  /** Equal volumes have that volume as their median. */
  lemma FlatMedian(bars: seq<BarInput>)
    requires bars != [] && forall i :: 0 <= i < |bars| ==> bars[i].volume == 100.0
    ensures Volumes(bars) != [] && Median(Volumes(bars)) == 100.0
  {
    FlatVolumes(bars);
    FlatSorted(Volumes(bars));
  }

  lemma {:induction false} FlatVolumes(bars: seq<BarInput>)
    requires forall i :: 0 <= i < |bars| ==> bars[i].volume == 100.0
    ensures |Volumes(bars)| == |bars| && forall i :: 0 <= i < |bars| ==> Volumes(bars)[i] == 100.0
    decreases |bars|
  {
    if bars == [] {
    } else {
      FlatVolumes(bars[..|bars| - 1]);
    }
  }

  lemma {:induction false} FlatSorted(xs: seq<real>)
    requires forall i :: 0 <= i < |xs| ==> xs[i] == 100.0
    ensures Sorted(xs) == xs
  {
    if xs == [] {
    } else {
      FlatSorted(xs[1..]);
      assert xs == [xs[0]] + xs[1..];
    }
  }

  lemma NoDowns(bars: seq<BarInput>)
    requires bars == BASE + [BREAK_BAR]
    ensures DownTaper(bars, DEFAULTS)
  {
    assert bars[..5] == BASE;
    FewDowns(BASE);
  }

  /** The first four bars only touch the zone. */
  lemma {:induction false} Waiting(i: nat)
    requires 1 <= i <= 4
    ensures Feedable(BASE[..i])
    ensures var f := Run(BASE[..i], Plan(Z2, DEFAULTS));
      f == Fsm(Touched, f.events, None, BASE[..i], NoFlush, NoPivot, 0, 0, i)
    decreases i
  {
    hide Step;
    var w := Plan(Z2, DEFAULTS);
    if i == 1 {
      assert [] + [BASE[0]] == BASE[..1];
      RunStep([], BASE[0], w);
      FirstTouch();
    } else {
      hide Run;
      Waiting(i - 1);
      assert BASE[..i - 1] + [BASE[i - 1]] == BASE[..i];
      RunStep(BASE[..i - 1], BASE[i - 1], w);
      QuietStep(Run(BASE[..i - 1], w), BASE[i - 1]);
    }
  }

  /** A micro pivot in the zone, and on the bar after its confirmation the break of the highs since. */
  lemma HigherLowCanFire()
    ensures Feedable(BASE + [BREAK_BAR])
    ensures var f := Run(BASE + [BREAK_BAR], Plan(Z2, DEFAULTS));
      && f.state == Fired && f.fire.Some? && f.fire.value.grammar == HigherLowBreak
      && f.fire.value.stop == 99.65 && f.fire.value.higherLow == Some(100.3)
  {
    hide Step, Run;
    var w := Plan(Z2, DEFAULTS);
    Waiting(4);
    assert BASE[..4] + [BASE[4]] == BASE;
    RunStep(BASE[..4], BASE[4], w);
    PivotStep(Run(BASE[..4], w));
    RunStep(BASE, BREAK_BAR, w);
    BreakStep(Run(BASE, w));
  }
}
