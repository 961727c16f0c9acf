/** Every gate of a trigger, told on the prices and volumes themselves. */
module StalkerGates {
  import opened Numbers
  import opened Optional
  import opened StalkerRules
  import opened StalkerPath
  import opened StalkerFire
  import opened StalkerTaper

  // ---------------------------------------------------------------- the median volume

  /** `m` is the middle of some volumes put in order, or halfway between the two middle ones. */
  ghost predicate IsMedian(xs: seq<real>, m: real) {
    exists s: seq<real> ::
      && Rising(s) && multiset(s) == multiset(xs) && |s| == |xs| > 0
      && m == if |xs| % 2 == 1 then s[|xs| / 2] else (s[|xs| / 2 - 1] + s[|xs| / 2]) / 2.0
  }

  /** How many bars before the last one the median looks at. */
  function Looked(h: seq<BarInput>, window: nat): nat
    requires h != []
  {
    if |h| - 1 <= window then |h| - 1 else window
  }

  /** The volumes of the `n` bars before the last one. */
  function VolumesBefore(h: seq<BarInput>, n: nat): (r: seq<real>)
    requires n < |h|
    ensures |r| == n
  {
    seq(n, k requires 0 <= k < n => h[|h| - 1 - n + k].volume)
  }

  lemma {:induction false} VolumesListed(bars: seq<BarInput>)
    ensures |Volumes(bars)| == |bars| && forall k :: 0 <= k < |bars| ==> Volumes(bars)[k] == bars[k].volume
    decreases |bars|
  {
    if bars == [] {
    } else {
      VolumesListed(bars[..|bars| - 1]);
    }
  }

  lemma VolMedianIs(h: seq<BarInput>, p: Params)
    requires h != []
    ensures var n := Looked(h, p.volMedianWindow); var med := VolMedian(h, p);
      if n == 0 then med.None? else med.Some? && IsMedian(VolumesBefore(h, n), med.value)
  {
    var n := Looked(h, p.volMedianWindow);
    if |h| > 1 {
      var win := Tail(h[..|h| - 1], p.volMedianWindow);
      VolumesListed(win);
      hide Volumes, Median;
      assert Volumes(win) == VolumesBefore(h, n);
      if n > 0 {
        SortedRises(Volumes(win));
        MedianIs(Volumes(win));
      }
    }
  }

  lemma MedianIs(xs: seq<real>)
    requires xs != []
    ensures IsMedian(xs, Median(xs))
  {
    SortedRises(xs);
    var s := Sorted(xs);
    assert Rising(s) && multiset(s) == multiset(xs) && |s| == |xs|;
  }

  // ---------------------------------------------------------------- the gates

  /** The trigger bar: inside the entry window, not above the chase line, green, and with a body that
      fills enough of its range. */
  predicate BarAllows(bar: BarInput, w: Plan) {
    && w.p.entryStartMin <= bar.minute <= w.p.lastEntryMin
    && bar.close <= w.z.maxChase && bar.open < bar.close
    && (if bar.low < bar.high then bar.close - bar.open >= w.p.reclaimBodyMin * (bar.high - bar.low)
        else w.p.reclaimBodyMin <= 0.0)
  }

  /** Its volume stands against the median of the bars before it, and the down bars have dried up. */
  ghost predicate VolumeAllows(h: seq<BarInput>, bar: BarInput, p: Params) {
    && h != [] && MedianAllows(h, bar, p)
    && (forall idx :: DownBars(h, idx) ==> DryUp(h, idx, p.taperBars))
  }

  /** The first target: the VWAP or the risk multiple, whichever is higher, or the reward floor when
      that reward falls short of it. */
  function FirstTarget(bar: BarInput, dist: real, p: Params): real {
    var near := if bar.svwap >= bar.close + p.t1RMultiple * dist then bar.svwap else bar.close + p.t1RMultiple * dist;
    if near - bar.close < (p.minRr - 0.000000001) * dist then bar.close + p.minRr * dist else near
  }

  /** The stop: under the close by a share of it within the limits, and a spread the target pays for. */
  predicate StopAllows(bar: BarInput, stop: real, p: Params)
    requires bar.close != 0.0
  {
    var dist := bar.close - stop;
    && dist > 0.0
    && p.minStopPct <= dist / bar.close * 100.0 <= p.maxStopPct
    && (bar.spread.Some? ==>
          && bar.spread.value <= p.spreadFireCapBps
          && (FirstTarget(bar, dist, p) - bar.close) / bar.close * 10000.0 >= p.minTargetSpreadMult * bar.spread.value)
  }

  lemma BodyShareIs(b: BarInput, floor: real)
    ensures BodyShare(b) >= floor
       <==> if b.low < b.high then b.close - b.open >= floor * (b.high - b.low) else floor <= 0.0
  {
    if b.low < b.high { RatioAtLeast(b.close - b.open, b.high - b.low, floor); }
  }

  lemma RatioAtLeast(n: real, d: real, x: real)
    requires d > 0.0
    ensures n / d >= x <==> n >= x * d
    ensures n / d <= x <==> n <= x * d
    ensures n / d < x <==> n < x * d
  {
    var q := n / d;
    assert q * d == n;
    if q >= x { Scaled(x, q, d); }
    if q <= x { Scaled(q, x, d); }
    if q < x { assert (x - q) * d > 0.0; }
    if q > x { assert (q - x) * d > 0.0; }
  }

  lemma TargetIs(bar: BarInput, dist: real, p: Params)
    requires dist > 0.0
    ensures var t := TargetFor(bar, dist, p);
      t.t1 == FirstTarget(bar, dist, p) && t.rr * dist == t.t1 - bar.close
  {
    var near := Max(bar.svwap, bar.close + p.t1RMultiple * dist);
    RatioAtLeast(near - bar.close, dist, p.minRr - 0.000000001);
    RatioTimes(dist, near - bar.close);
    assert RewardToRisk(near, bar.close, dist) == (near - bar.close) / dist;
    hide RewardToRisk;
  }

  lemma TaperGateIs(h: seq<BarInput>, p: Params)
    ensures DownTaper(h, p) <==> forall idx :: DownBars(h, idx) ==> DryUp(h, idx, p.taperBars)
  {
    hide DownTaper, DryUp;
    var idx := DownBarsExist(h);
    TaperIff(h, idx, p);
    forall other | DownBars(h, other) ensures DryUp(h, other, p.taperBars) <==> DownTaper(h, p) { TaperIff(h, other, p); }
  }

  ghost predicate MedianAllows(h: seq<BarInput>, bar: BarInput, p: Params)
    requires h != []
  {
    var n := Looked(h, p.volMedianWindow);
    forall m :: n > 0 && IsMedian(VolumesBefore(h, n), m) && m > 0.0 ==> bar.volume >= p.volMedianMult * m
  }

  lemma MedianGateIs(h: seq<BarInput>, bar: BarInput, p: Params)
    requires h != []
    ensures MedianAllows(h, bar, p) <==> VolumeHeld(h, bar, p)
  {
    hide VolMedian, IsMedian, VolumesBefore;
    var n := Looked(h, p.volMedianWindow);
    VolMedianIs(h, p);
    if n > 0 {
      var xs := VolumesBefore(h, n);
      forall m, k | IsMedian(xs, m) && IsMedian(xs, k) ensures m == k { MedianIsUnique(xs, m, k); }
    }
  }

  lemma BarGatesIs(f: Fsm, bar: BarInput, w: Plan)
    requires f.bars != []
    ensures BarGates(f, bar, w) <==> BarAllows(bar, w) && VolumeAllows(f.bars, bar, w.p)
  {
    hide BodyShare, VolMedian, DownTaper, MedianAllows, DownBars, DryUp;
    BodyShareIs(bar, w.p.reclaimBodyMin);
    TaperGateIs(f.bars, w.p);
    MedianGateIs(f.bars, bar, w.p);
  }

  lemma MedianIsUnique(xs: seq<real>, m: real, k: real)
    requires IsMedian(xs, m) && IsMedian(xs, k)
    ensures m == k
  {
    var s :| Rising(s) && multiset(s) == multiset(xs) && |s| == |xs| > 0
      && m == if |xs| % 2 == 1 then s[|xs| / 2] else (s[|xs| / 2 - 1] + s[|xs| / 2]) / 2.0;
    var t :| Rising(t) && multiset(t) == multiset(xs) && |t| == |xs| > 0
      && k == if |xs| % 2 == 1 then t[|xs| / 2] else (t[|xs| / 2 - 1] + t[|xs| / 2]) / 2.0;
    OneRisingOrder(s, t);
  }

  lemma LargestIsLast(s: seq<real>, x: real)
    requires Rising(s) && s != [] && x in multiset(s)
    ensures x <= s[|s| - 1]
  {
    var i :| 0 <= i < |s| && s[i] == x;
  }

  lemma BagWithoutLast(s: seq<real>)
    requires s != []
    ensures multiset(s) == multiset(s[..|s| - 1]) + multiset{s[|s| - 1]}
    ensures s[|s| - 1] in multiset(s)
  {
    assert s == s[..|s| - 1] + [s[|s| - 1]];
  }

  lemma RisingStart(s: seq<real>, n: nat)
    requires Rising(s) && n <= |s|
    ensures Rising(s[..n])
  {
  }

  /** There is one rising order of some numbers. */
  lemma {:induction false} OneRisingOrder(s: seq<real>, t: seq<real>)
    requires Rising(s) && Rising(t) && multiset(s) == multiset(t)
    ensures s == t
    decreases |s|
  {
    hide Rising;
    assert |multiset(s)| == |s| && |multiset(t)| == |t|;
    if s == [] {
    } else {
      var n := |s| - 1;
      BagWithoutLast(s);
      BagWithoutLast(t);
      LargestIsLast(s, t[n]);
      LargestIsLast(t, s[n]);
      RisingStart(s, n);
      RisingStart(t, n);
      SameRest(multiset(s[..n]), multiset(t[..n]), s[n]);
      OneRisingOrder(s[..n], t[..n]);
      assert s == s[..n] + [s[n]] && t == t[..n] + [t[n]];
    }
  }

  lemma SameRest(a: multiset<real>, b: multiset<real>, x: real)
    requires a + multiset{x} == b + multiset{x}
    ensures a == b
  {
    assert a == (a + multiset{x}) - multiset{x} && b == (b + multiset{x}) - multiset{x};
  }

  /** Everything a trigger asks, with its stop anchored where the grammar says. */
  ghost predicate Allows(h: seq<BarInput>, bar: BarInput, anchor: real, w: Plan)
    requires bar.close != 0.0
  {
    && BarAllows(bar, w) && VolumeAllows(h, bar, w.p)
    && bar.atr5m.Some? && StopAllows(bar, StopFor(bar, anchor, w.p), w.p)
  }

  lemma StopGateIs(bar: BarInput, stop: real, p: Params)
    requires bar.close != 0.0
    ensures StopAllows(bar, stop, p)
       <==> && bar.close - stop > 0.0
            && p.minStopPct <= StopPct(bar.close - stop, bar.close) <= p.maxStopPct
            && SpreadGate(bar, TargetFor(bar, bar.close - stop, p), p)
  {
    hide FirstTarget, TargetFor;
    if bar.close - stop > 0.0 { TargetIs(bar, bar.close - stop, p); }
  }

  lemma MayFireIs(f: Fsm, bar: BarInput, anchor: real, w: Plan)
    requires bar.close != 0.0
    ensures MayFire(f, bar, anchor, w)
       <==> BarGates(f, bar, w) && bar.atr5m.Some? && StopAllows(bar, StopFor(bar, anchor, w.p), w.p)
  {
    hide BarGates, StopAllows, TargetFor, SpreadGate, StopPct, StopFor;
    if bar.atr5m.Some? { StopGateIs(bar, StopFor(bar, anchor, w.p), w.p); }
  }

  lemma AllowsIff(f: Fsm, bar: BarInput, anchor: real, w: Plan)
    requires bar.close != 0.0 && f.bars != []
    ensures MayFire(f, bar, anchor, w) <==> Allows(f.bars, bar, anchor, w)
  {
    hide MayFire, BarGates, BarAllows, VolumeAllows, StopAllows;
    MayFireIs(f, bar, anchor, w);
    BarGatesIs(f, bar, w);
  }

  /** What a fire records: its grammar and bar, its stop, its first target, and the anchors. */
  predicate Records(i: FireIntent, f: Fsm, bar: BarInput, grammar: Grammar, stop: real, higherLow: Option<real>, w: Plan) {
    && i.grammar == grammar && i.minute == bar.minute && i.refClose == bar.close
    && i.stop == stop && i.stopDist == bar.close - stop
    && i.t1 == FirstTarget(bar, bar.close - stop, w.p) && i.rr * i.stopDist == i.t1 - bar.close
    && i.flushLow == (if higherLow.None? && f.g1.Flush? then Some(f.g1.low) else None) && i.higherLow == higherLow
    && i.zoneTop == w.z.top && i.zoneBottom == w.z.bottom
  }

  /** The one event a fire adds. */
  function FireEvent(f: Fsm, bar: BarInput, grammar: Grammar): Event {
    Event(bar.minute, f.state, Fired, match grammar case UndercutReclaim => TriggerReclaim case HigherLowBreak => TriggerHigherLow)
  }

  lemma IntentRecords(f: Fsm, bar: BarInput, grammar: Grammar, anchor: real, higherLow: Option<real>, w: Plan)
    requires bar.close != 0.0 && MayFire(f, bar, anchor, w)
    ensures var g := TryFire(f, bar, grammar, anchor, higherLow, w);
      && bar.atr5m.Some? && g.fire.Some? && Records(g.fire.value, f, bar, grammar, StopFor(bar, anchor, w.p), higherLow, w)
      && g.events == f.events + [FireEvent(f, bar, grammar)]
      && g == f.(fire := g.fire, state := Fired, events := g.events)
  {
    hide BarGates, StopPct, SpreadGate, TargetFor, FirstTarget, StopFor;
    TargetIs(bar, bar.close - StopFor(bar, anchor, w.p), w.p);
  }

  /** A trigger fires exactly when every gate allows it; it then records the prices the gates spoke of
      and moves to Fired with one event, and otherwise changes nothing. */
  lemma FiresIff(f: Fsm, bar: BarInput, grammar: Grammar, anchor: real, higherLow: Option<real>, w: Plan)
    requires bar.close != 0.0 && f.bars != []
    ensures var g := TryFire(f, bar, grammar, anchor, higherLow, w);
      if Allows(f.bars, bar, anchor, w) then
        && g.fire.Some?
        && Records(g.fire.value, f, bar, grammar, StopFor(bar, anchor, w.p), higherLow, w)
        && g.events == f.events + [FireEvent(f, bar, grammar)]
        && g == f.(fire := g.fire, state := Fired, events := g.events)
      else g == f
  {
    AllowsIff(f, bar, anchor, w);
    if MayFire(f, bar, anchor, w) {
      IntentRecords(f, bar, grammar, anchor, higherLow, w);
    } else {
      RefusedIsIdle(f, bar, grammar, anchor, higherLow, w);
    }
    hide *;
  }

  /** The stop is the anchor less its buffer. */
  lemma StopForIs(bar: BarInput, anchor: real, p: Params)
    requires bar.atr5m.Some?
    ensures StopFor(bar, anchor, p) == anchor - p.stopBufferAtr * bar.atr5m.value
  {
  }

  lemma RefusedIsIdle(f: Fsm, bar: BarInput, grammar: Grammar, anchor: real, higherLow: Option<real>, w: Plan)
    requires bar.close != 0.0 && !MayFire(f, bar, anchor, w)
    ensures TryFire(f, bar, grammar, anchor, higherLow, w) == f
  {
    hide MayFire;
  }

  /** The reclaim grammar fires exactly when the flush it tracks is fresh, the close is back above the
      reference out of a flush of the right depth, on its volume, and every gate allows it. */
  lemma ReclaimFiresIff(f: Fsm, bar: BarInput, w: Plan)
    requires bar.close != 0.0 && f.bars != [] && f.fire.None? && w.p.useReclaim
    ensures var t := Track(f.g1, bar, f.n, w);
      AdvanceG1(f, bar, w).fire.Some? <==>
        && t.Flush? && f.n <= t.started + w.p.reclaimMaxBars
        && bar.close > w.z.referenceLow && bar.volume >= t.vol
        && (if bar.atr5m.Some? && bar.atr5m.value > 0.0
            then w.p.flushMinAtr <= (w.z.referenceLow - t.low) / bar.atr5m.value <= w.p.flushMaxAtr
            else w.p.flushMinAtr <= 0.0 <= w.p.flushMaxAtr)
        && Allows(f.bars, bar, t.low, w)
  {
    hide Track, TryFire, Allows, Records, FirstTarget;
    var t := Track(f.g1, bar, f.n, w);
    if t.Flush? {
      var f1 := f.(g1 := t);
      var f2 := if bar.low < w.z.referenceLow && f.state == Touched
                then Emit(f1, Confirming, FlushBelowReference, bar.minute) else f1;
      FiresIff(f2, bar, UndercutReclaim, t.low, None, w);
    }
  }

  /** The break grammar fires exactly when the bar does not undercut the episode for good, closes green
      above every high since its pivot, and every gate allows it. */
  lemma BreakFiresIff(f: Fsm, bar: BarInput, w: Plan)
    requires bar.close != 0.0 && f.bars != [] && f.fire.None? && f.g2.Pivot?
    ensures var low := if f.g2.l2.Some? && f.g2.l2.value <= bar.low then f.g2.l2.value else bar.low;
      FollowPivot(f, bar, w).fire.Some? <==>
        && !(bar.atr5m.Some? && low < f.g2.l1 - w.p.hlUndercutResetAtr * bar.atr5m.value)
        && bar.close > f.g2.interimHigh && bar.close > bar.open
        && Allows(f.bars, bar, if low <= f.g2.l1 then low else f.g2.l1, w)
  {
    hide TryFire, Allows, Records, FirstTarget;
    var g := f.g2;
    var l2 := if g.l2.Some? then Min(g.l2.value, bar.low) else bar.low;
    var l1 := if l2 < g.l1 then l2 else g.l1;
    FiresIff(f.(g2 := Pivot(l1, g.interimHigh, Some(l2))), bar, HigherLowBreak, Min(l1, l2), Some(l2), w);
  }

  /** In every run the buffer holds the last bars looked at, five more than the longest look back of the
      median, the taper and the pivot. */
  lemma BufferHolds(bars: seq<BarInput>, w: Plan)
    requires Feedable(bars)
    ensures var h, buffer := Seen(bars, w), Run(bars, w).bars;
      && |buffer| <= |h| && buffer == h[|h| - |buffer|..]
      && (var a, b, c := w.p.volMedianWindow + 5, 2 * w.p.taperBars + 7, 2 * w.p.microPivotK + 8;
          && (|buffer| == |h| || (|buffer| >= a && |buffer| >= b && |buffer| >= c))
          && |buffer| in {|h|, a, b, c})
  {
    RunBooks(bars, w);
    hide Run, Seen;
  }
}
