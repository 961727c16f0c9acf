/** What the fire intent of a run promises about its trigger bar. */
module StalkerFire {
  import opened Numbers
  import opened Optional
  import opened StalkerRules
  import opened StalkerPath

  const TOLERANCE: real := 0.000000001

  /** Stop below the close, target at or beyond the VWAP and the risk multiple, reward to risk at
      the floor within tolerance and consistent with the prices. */
  predicate PricesSound(i: FireIntent, bar: BarInput, p: Params) {
    && i.refClose == bar.close
    && i.stop < i.refClose
    && i.stopDist == i.refClose - i.stop
    && i.t1 - i.refClose == i.rr * i.stopDist
    && i.rr >= p.minRr - TOLERANCE
    && i.t1 >= bar.svwap && i.t1 >= i.refClose + p.t1RMultiple * i.stopDist
    && (p.minRr > TOLERANCE ==> i.refClose < i.t1)
  }

  /** The trigger bar is a green one inside the window and below the chase line, its stop is
      neither too near nor too far, and its spread pays. */
  predicate GatesHeld(i: FireIntent, bar: BarInput, p: Params, z: Zone)
    requires bar.close != 0.0
  {
    && i.minute == bar.minute && p.entryStartMin <= bar.minute <= p.lastEntryMin
    && bar.open < bar.close <= z.maxChase
    && p.minStopPct <= StopPct(i.stopDist, bar.close) <= p.maxStopPct
    && SpreadGate(bar, Target(i.t1, i.rr), p)
  }

  /** The trigger's volume stands against the median of the bars just before it. */
  predicate VolumeHeld(h: seq<BarInput>, bar: BarInput, p: Params) {
    var med := VolMedian(h, p);
    med.Some? && med.value > 0.0 ==> bar.volume >= p.volMedianMult * med.value
  }

  lemma RatioTimes(d: real, n: real)
    requires d != 0.0
    ensures (n / d) * d == n
  {
  }

  lemma Scaled(a: real, b: real, d: real)
    requires d > 0.0
    ensures a <= b ==> a * d <= b * d
    ensures a > 0.0 ==> a * d > 0.0
  {
  }

  /** The two ways a target is set: left where it is, or lifted to the floor. */
  lemma TargetArithmetic(ref: real, t1: real, rr: real, dist: real, floor: real)
    requires dist > 0.0 && rr * dist == t1 - ref
    ensures rr >= floor - TOLERANCE && floor > TOLERANCE ==> ref < t1
    ensures rr < floor - TOLERANCE ==> t1 <= ref + floor * dist
    ensures floor > TOLERANCE ==> ref < ref + floor * dist
  {
    Scaled(rr, floor, dist);
    Scaled(floor, floor, dist);
  }

  /** The target agrees with its reward to risk, and is never below either candidate. */
  lemma TargetSound(bar: BarInput, dist: real, p: Params)
    requires dist > 0.0
    ensures var t := TargetFor(bar, dist, p);
      && t.t1 - bar.close == t.rr * dist
      && t.rr >= p.minRr - TOLERANCE
      && t.t1 >= bar.svwap && t.t1 >= bar.close + p.t1RMultiple * dist
      && (p.minRr > TOLERANCE ==> bar.close < t.t1)
  {
    var t1 := Max(bar.svwap, bar.close + p.t1RMultiple * dist);
    var rr := RewardToRisk(t1, bar.close, dist);
    var t := TargetFor(bar, dist, p);
    RatioTimes(dist, t1 - bar.close);
    TargetArithmetic(bar.close, t1, rr, dist, p.minRr);
    assert rr * dist == t1 - bar.close;
    hide RewardToRisk;
  }

  /** What a successful trigger leaves behind. */
  lemma TryFireSound(f: Fsm, bar: BarInput, grammar: Grammar, anchor: real, higherLow: Option<real>, w: Plan)
    requires bar.close != 0.0
    requires MayFire(f, bar, anchor, w)
    ensures var g := TryFire(f, bar, grammar, anchor, higherLow, w);
      && g.state == Fired && g.fire.Some?
      && g.fire.value.grammar == grammar
      && g.fire.value.stop == StopFor(bar, anchor, w.p)
      && PricesSound(g.fire.value, bar, w.p) && GatesHeld(g.fire.value, bar, w.p, w.z)
      && VolumeHeld(f.bars, bar, w.p) && DownTaper(f.bars, w.p)
      && g.fire.value.higherLow == higherLow
      && (higherLow.None? && f.g1.Flush? ==> g.fire.value.flushLow == Some(f.g1.low))
  {
    hide StopPct, SpreadGate, StopFor, VolMedian, DownTaper, BodyShare, TargetFor;
    var dist := bar.close - StopFor(bar, anchor, w.p);
    TargetSound(bar, dist, w.p);
    assert SpreadGate(bar, TargetFor(bar, dist, w.p), w.p);
  }

  // ---------------------------------------------------------------- the median volume

  predicate Rising(xs: seq<real>) { forall i, j :: 0 <= i <= j < |xs| ==> xs[i] <= xs[j] }

  predicate AtLeast(xs: seq<real>, t: real) { forall i :: 0 <= i < |xs| ==> xs[i] >= t }

  lemma RisingFrom(x: real, xs: seq<real>)
    ensures Rising([x] + xs) <==> Rising(xs) && AtLeast(xs, x)
  {
    var ys := [x] + xs;
    assert ys[0] == x && forall i :: 0 <= i < |xs| ==> ys[i + 1] == xs[i];
    if Rising(ys) {
      forall i, j | 0 <= i <= j < |xs| ensures xs[i] <= xs[j] { assert ys[i + 1] <= ys[j + 1]; }
      forall i | 0 <= i < |xs| ensures xs[i] >= x { assert ys[0] <= ys[i + 1]; }
    }
  }

  lemma {:induction false} InsertAtLeast(x: real, xs: seq<real>, t: real)
    requires AtLeast(xs, t) && x >= t
    ensures AtLeast(Insert(x, xs), t)
    decreases |xs|
  {
    if xs == [] || x <= xs[0] {
    } else {
      InsertAtLeast(x, xs[1..], t);
    }
  }

  lemma {:induction false} InsertRises(x: real, xs: seq<real>)
    requires Rising(xs)
    ensures Rising(Insert(x, xs))
    decreases |xs|
  {
    RisingFrom(x, xs);
    if xs == [] {
    } else {
      var rest := xs[1..];
      assert xs == [xs[0]] + rest;
      RisingFrom(xs[0], rest);
      if x > xs[0] {
        InsertRises(x, rest);
        InsertAtLeast(x, rest, xs[0]);
        RisingFrom(xs[0], Insert(x, rest));
      } else {
        assert AtLeast(xs, x);
      }
    }
  }

  lemma {:induction false} InsertPermutes(x: real, xs: seq<real>)
    ensures multiset(Insert(x, xs)) == multiset(xs) + multiset{x}
    decreases |xs|
  {
    if xs == [] || x <= xs[0] {
    } else {
      InsertPermutes(x, xs[1..]);
      assert xs == [xs[0]] + xs[1..];
    }
  }

  /** The median is taken over the volumes in rising order. */
  lemma {:induction false} SortedRises(xs: seq<real>)
    ensures Rising(Sorted(xs)) && multiset(Sorted(xs)) == multiset(xs)
    decreases |xs|
  {
    if xs == [] {
    } else {
      SortedRises(xs[1..]);
      InsertRises(xs[0], Sorted(xs[1..]));
      InsertPermutes(xs[0], Sorted(xs[1..]));
      hide Insert, Rising;
      assert xs == [xs[0]] + xs[1..];
    }
  }

  // ---------------------------------------------------------------- over a run

  predicate FireSound(f: Fsm, bar: BarInput, w: Plan)
    requires bar.close != 0.0
  {
    f.fire.Some? ==>
      && PricesSound(f.fire.value, bar, w.p) && GatesHeld(f.fire.value, bar, w.p, w.z)
      && VolumeHeld(f.bars, bar, w.p) && DownTaper(f.bars, w.p)
  }

  lemma TryFireKeeps(f: Fsm, bar: BarInput, grammar: Grammar, anchor: real, higherLow: Option<real>, w: Plan)
    requires bar.close != 0.0
    requires f.fire.None?
    ensures FireSound(TryFire(f, bar, grammar, anchor, higherLow, w), bar, w)
  {
    if MayFire(f, bar, anchor, w) {
      TryFireSound(f, bar, grammar, anchor, higherLow, w);
      TryFireFrame(f, bar, grammar, anchor, higherLow, w);
      hide *;
      var g := TryFire(f, bar, grammar, anchor, higherLow, w);
      assert g.bars == f.bars;
    } else {
      hide PricesSound, GatesHeld, VolumeHeld, DownTaper, MayFire;
    }
  }

  lemma AdvanceG1Fires(f: Fsm, bar: BarInput, w: Plan)
    requires bar.close != 0.0
    requires f.fire.None?
    ensures FireSound(AdvanceG1(f, bar, w), bar, w)
  {
    hide TryFire, Stale, Reclaims, PricesSound, GatesHeld, VolumeHeld, DownTaper;
    var g := Track(f.g1, bar, f.n, w);
    var f1 := f.(g1 := g);
    var f2 := if bar.low < w.z.referenceLow && f.state == Touched
              then Emit(f1, Confirming, FlushBelowReference, bar.minute) else f1;
    if g.Flush? { TryFireKeeps(f2, bar, UndercutReclaim, g.low, None, w); }
  }

  lemma AdvanceG2Fires(f: Fsm, bar: BarInput, w: Plan)
    requires bar.close != 0.0
    requires FireSound(f, bar, w) && FireMatches(f)
    ensures FireSound(AdvanceG2(f, bar, w), bar, w)
  {
    hide TryFire, IsMicroPivot, MaxHigh, DecisiveUndercut, PricesSound, GatesHeld, VolumeHeld, DownTaper;
    if w.p.useHigherLow && Engaged(f.state) && f.g2.Pivot? {
      var g := f.g2;
      var l2 := if g.l2.Some? then Min(g.l2.value, bar.low) else bar.low;
      var l1 := if l2 < g.l1 then l2 else g.l1;
      var f1 := f.(g2 := Pivot(l1, g.interimHigh, Some(l2)));
      TryFireKeeps(f1, bar, HigherLowBreak, Min(l1, l2), Some(l2), w);
    }
  }

  lemma StepFires(f: Fsm, bar: BarInput, w: Plan)
    requires bar.close != 0.0 && !Terminal(f.state) && Sound(f)
    ensures FireSound(Step(f, bar, w), bar, w)
  {
    hide Watch, AdvanceG1, AdvanceG2, PricesSound, GatesHeld, VolumeHeld, DownTaper, Path;
    WatchFrame(f, bar, w);
    var m := Watch(f, bar, w);
    if Engaged(m.state) {
      AdvanceG1Fires(m, bar, w);
      WatchPath(f, bar, w);
      AdvanceG1Path(m, bar, w);
      AdvanceG2Fires(AdvanceG1(m, bar, w), bar, w);
    }
  }

  /** The buffer is long enough: the volume gate sees the same bars the whole history would give it. */
  lemma BufferServesMedian(h: seq<BarInput>, p: Params)
    ensures VolMedian(Tail(h, Capacity(p)), p) == VolMedian(h, p)
  {
    hide Volumes, Median;
    var c, v := Capacity(p), p.volMedianWindow;
    var t := Tail(h, c);
    if |h| > c {
      assert t == h[|h| - c..];
      assert Tail(t[..|t| - 1], v) == Tail(h[..|h| - 1], v) by {
        assert t[..|t| - 1] == h[|h| - c..|h| - 1];
        assert |t| - 1 > v;
        assert t[..|t| - 1][|t| - 1 - v..] == h[..|h| - 1][|h| - 1 - v..];
      }
    }
  }

  /** A fire belongs to the last bar the run looked at, and that bar passed every gate. */
  lemma {:induction false} FireIsSound(bars: seq<BarInput>, w: Plan)
    requires Feedable(bars)
    requires Run(bars, w).fire.Some?
    ensures var h, i := Seen(bars, w), Run(bars, w).fire.value;
      && h != [] && h[|h| - 1].close != 0.0
      && PricesSound(i, h[|h| - 1], w.p)
      && GatesHeld(i, h[|h| - 1], w.p, w.z)
      && VolumeHeld(h, h[|h| - 1], w.p)
      && DownTaper(Tail(h, Capacity(w.p)), w.p)
    decreases |bars|
  {
    hide Step, PricesSound, GatesHeld, DownTaper, Tail, Capacity, VolMedian, Path;
    var init, bar := bars[..|bars| - 1], bars[|bars| - 1];
    assert bars == init + [bar];
    RunStep(init, bar, w);
    hide Run, Seen;
    if Terminal(Run(init, w).state) {
      FireIsSound(init, w);
    } else {
      EventsArePath(init, w);
      StepFires(Run(init, w), bar, w);
      RunBooks(bars, w);
      BufferServesMedian(Seen(bars, w), w.p);
    }
  }
}
