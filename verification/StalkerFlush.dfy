/** The undercut-reclaim trigger, told over the history of bars. */
module StalkerFlush {
  import opened Numbers
  import opened Optional
  import opened StalkerRules
  import opened StalkerPath
  import opened StalkerKnife

  /** The largest volume among the first bar of a window and the bars that made a new low in it. */
  function NewLowVolume(win: seq<BarInput>): real
    requires win != []
  {
    var last, init := win[|win| - 1], win[..|win| - 1];
    if init == [] then last.volume
    else if last.low < MinLow(init) then Max(NewLowVolume(init), last.volume)
    else NewLowVolume(init)
  }

  /** Bar `i` of the window is its first or undercuts all bars before it. */
  predicate MakesLow(win: seq<BarInput>, i: nat)
    requires i < |win|
  {
    i == 0 || win[i].low < MinLow(win[..i])
  }

  lemma {:induction false} NewLowVolumeCovers(win: seq<BarInput>, i: nat)
    requires i < |win| && MakesLow(win, i)
    ensures win[i].volume <= NewLowVolume(win)
    decreases |win|
  {
    if i == |win| - 1 {
    } else {
      var init := win[..|win| - 1];
      assert init[..i] == win[..i];
      NewLowVolumeCovers(init, i);
    }
  }

  // ---------------------------------------------------------------- the flush

  /** The flush was opened by bar number `started`, undercutting the reference, and carries the
      lowest low and the largest new-low volume of the bars since. */
  predicate FlushFrom(h: seq<BarInput>, g: Flush, w: Plan) {
    && g.Flush?
    && 1 <= g.started <= |h|
    && h[g.started - 1].low < w.z.referenceLow
    && g.low == MinLow(h[g.started - 1..])
    && g.vol == NewLowVolume(h[g.started - 1..])
  }

  /** The flush opened with bar number `n`: none stood before that bar, and one ever since, up to the
      last bar. */
  predicate FlushSince(h: seq<BarInput>, w: Plan, n: nat)
    requires Feedable(h)
  {
    1 <= n <= |h| && Run(h[..n - 1], w).g1.NoFlush? && forall j :: n <= j < |h| ==> Run(h[..j], w).g1.Flush?
  }

  lemma FlushSinceGrows(h: seq<BarInput>, bar: BarInput, w: Plan, n: nat)
    requires Feedable(h + [bar]) && Feedable(h)
    requires if Run(h, w).g1.Flush? then FlushSince(h, w, n) else n == |h| + 1
    ensures FlushSince(h + [bar], w, n)
  {
    hide Run;
    var k := h + [bar];
    forall j | 0 <= j <= |h| ensures k[..j] == h[..j] {}
    assert h[..|h|] == h;
  }

  predicate FlushKept(h: seq<BarInput>, f: Fsm, w: Plan)
    requires Feedable(h)
  {
    Standing(f.state) && f.g1.Flush? ==>
      FlushFrom(h, f.g1, w) && FlushSince(h, w, f.g1.started) && |h| - f.g1.started <= w.p.reclaimMaxBars
  }

  lemma TrackKeeps(h: seq<BarInput>, g: Flush, bar: BarInput, w: Plan)
    requires g.Flush? ==> FlushFrom(h, g, w)
    ensures var t := Track(g, bar, |h| + 1, w); t.Flush? ==>
      FlushFrom(h + [bar], t, w) && t.started == if g.Flush? then g.started else |h| + 1
  {
    var k, t := h + [bar], Track(g, bar, |h| + 1, w);
    if g.Flush? {
      var s := g.started - 1;
      var win := h[s..];
      assert k[s..] == win + [bar];
      assert (win + [bar])[..|win|] == win;
      assert win[0] == h[s];
      assert g.low <= win[0].low;
    } else if t.Flush? {
      assert k[t.started - 1..] == [bar];
    }
  }

  /** What a fired reclaim says about the flush it came out of. */
  predicate ReclaimFired(f: Fsm, bar: BarInput, w: Plan) {
    f.fire.Some? && f.fire.value.grammar == UndercutReclaim ==>
      && f.g1.Flush? && bar.atr5m.Some?
      && Reclaims(f.g1, bar, w)
      && f.fire.value.stop == StopFor(bar, f.g1.low, w.p)
      && f.fire.value.flushLow == Some(f.g1.low)
  }

  lemma AdvanceG1Flush(h: seq<BarInput>, f: Fsm, bar: BarInput, w: Plan)
    requires bar.close != 0.0
    requires f.n == |h| + 1 && f.fire.None?
    requires f.g1.Flush? ==> w.p.useReclaim && FlushFrom(h, f.g1, w)
    ensures var g := AdvanceG1(f, bar, w);
      && (g.g1.Flush? ==> w.p.useReclaim && FlushFrom(h + [bar], g.g1, w) && |h| + 1 - g.g1.started <= w.p.reclaimMaxBars)
      && (g.g1.Flush? ==> g.g1.started == if f.g1.Flush? then f.g1.started else |h| + 1)
      && ReclaimFired(g, bar, w)
  {
    hide TryFire, Track, Reclaims, FlushFrom, StopFor;
    TrackKeeps(h, f.g1, bar, w);
    var t := Track(f.g1, bar, f.n, w);
    var f1 := f.(g1 := t);
    var f2 := if bar.low < w.z.referenceLow && f.state == Touched
              then Emit(f1, Confirming, FlushBelowReference, bar.minute) else f1;
    if t.Flush? {
      TryFireFrame(f2, bar, UndercutReclaim, t.low, None, w);
      TryFireAnchors(f2, bar, UndercutReclaim, t.low, None, w);
    }
  }

  /** A trigger that fires carries its anchor; one that does not changes nothing. */
  lemma TryFireAnchors(f: Fsm, bar: BarInput, grammar: Grammar, anchor: real, higherLow: Option<real>, w: Plan)
    requires bar.close != 0.0
    requires f.fire.None?
    ensures var g := TryFire(f, bar, grammar, anchor, higherLow, w);
      g.fire.Some? ==>
        && g.fire.value.grammar == grammar && bar.atr5m.Some?
        && g.fire.value.stop == StopFor(bar, anchor, w.p)
        && g.fire.value.higherLow == higherLow
        && (higherLow.None? && f.g1.Flush? ==> g.fire.value.flushLow == Some(f.g1.low))
  {
    hide BarGates, StopFor, TargetFor, SpreadGate, StopPct;
  }

  lemma AdvanceG2Fired(f: Fsm, bar: BarInput, w: Plan)
    requires bar.close != 0.0
    requires FireMatches(f) && ReclaimFired(f, bar, w)
    ensures ReclaimFired(AdvanceG2(f, bar, w), bar, w)
  {
    hide TryFire, Reclaims, StopFor, IsMicroPivot, MaxHigh, DecisiveUndercut;
    if w.p.useHigherLow && Engaged(f.state) && f.g2.Pivot? {
      var g := f.g2;
      var l2 := if g.l2.Some? then Min(g.l2.value, bar.low) else bar.low;
      var l1 := if l2 < g.l1 then l2 else g.l1;
      var f1 := f.(g2 := Pivot(l1, g.interimHigh, Some(l2)));
      TryFireAnchors(f1, bar, HigherLowBreak, Min(l1, l2), Some(l2), w);
    }
  }

  predicate FlushState(h: seq<BarInput>, f: Fsm, w: Plan)
    requires Feedable(h)
  {
    && FlushKept(h, f, w) && (f.g1.Flush? ==> w.p.useReclaim)
  }

  lemma StepFlush(h: seq<BarInput>, f: Fsm, bar: BarInput, w: Plan)
    requires bar.close != 0.0 && !Terminal(f.state) && Sound(f)
    requires Feedable(h + [bar]) && Feedable(h) && f.g1 == Run(h, w).g1
    requires Booked(h, f, w) && FlushState(h, f, w)
    ensures FlushState(h + [bar], Step(f, bar, w), w)
    ensures ReclaimFired(Step(f, bar, w), bar, w)
  {
    hide Watch, AdvanceG1, AdvanceG2, FlushFrom, FlushSince, Reclaims, StopFor, Path, Tail, Run;
    WatchFrame(f, bar, w);
    WatchPath(f, bar, w);
    var m := Watch(f, bar, w);
    if Engaged(m.state) {
      AdvanceG1Flush(h, m, bar, w);
      AdvanceG1Path(m, bar, w);
      var a := AdvanceG1(m, bar, w);
      AdvanceG2Fired(a, bar, w);
      AdvanceG2Frame(a, bar, w);
      FlushSinceGrows(h, bar, w, if f.g1.Flush? then f.g1.started else |h| + 1);
    }
  }

  lemma {:induction false} RunFlush(bars: seq<BarInput>, w: Plan)
    requires Feedable(bars)
    ensures Feedable(Seen(bars, w)) && FlushState(Seen(bars, w), Run(bars, w), w)
    ensures var h := Seen(bars, w); h != [] ==> ReclaimFired(Run(bars, w), h[|h| - 1], w)
    decreases |bars|
  {
    hide Step, FlushFrom, FlushSince, Reclaims, Path, Tail, StopFor;
    if bars == [] {
    } else {
      var init, bar := bars[..|bars| - 1], bars[|bars| - 1];
      assert bars == init + [bar];
      RunStep(init, bar, w);
      RunFlush(init, w);
      EventsArePath(init, w);
      RunBooks(init, w);
      SeenIsPrefix(init, w);
      hide Run, Seen;
      if !Terminal(Run(init, w).state) { StepFlush(Seen(init, w), Run(init, w), bar, w); }
    }
  }

  // ---------------------------------------------------------------- the theorem

  /** No opening or new-low bar of the window traded more than `v`. */
  predicate Outtrades(win: seq<BarInput>, v: real) {
    forall k :: 0 <= k < |win| && MakesLow(win, k) ==> win[k].volume <= v
  }

  predicate UnderLows(win: seq<BarInput>, stop: real) { forall k :: 0 <= k < |win| ==> stop < win[k].low }

  /** What a fire out of the flush window `win`, triggered by its last bar, stands on. */
  predicate ReclaimShape(win: seq<BarInput>, i: FireIntent, w: Plan)
    requires win != []
  {
    var last := win[|win| - 1];
    && i.flushLow == Some(MinLow(win))
    && last.close > w.z.referenceLow
    && Outtrades(win, last.volume)
    && last.atr5m.Some?
    && w.p.flushMinAtr <= Depth(Flush(0, MinLow(win), NewLowVolume(win)), last, w.z) <= w.p.flushMaxAtr
    && i.stop == MinLow(win) - w.p.stopBufferAtr * last.atr5m.value
    && (w.p.stopBufferAtr * last.atr5m.value > 0.0 <==> UnderLows(win, i.stop))
  }

  /** Bar `s` is the one with which the run opened the flush below the reference that the last bar of
      `h` reclaims. */
  predicate ReclaimPattern(h: seq<BarInput>, i: FireIntent, w: Plan, s: nat) {
    && s < |h| && |h| - 1 - s <= w.p.reclaimMaxBars
    && Feedable(h) && FlushSince(h, w, s + 1)
    && h[s].low < w.z.referenceLow
    && ReclaimShape(h[s..], i, w)
  }

  lemma StopBelowLows(win: seq<BarInput>, buffer: real)
    requires win != []
    ensures buffer > 0.0 <==> UnderLows(win, MinLow(win) - buffer)
  {
    var k :| 0 <= k < |win| && win[k].low == MinLow(win);
    if buffer <= 0.0 { assert !(MinLow(win) - buffer < win[k].low); }
  }

  lemma ShapeOfFlush(win: seq<BarInput>, f: Fsm, w: Plan)
    requires win != [] && f.g1.Flush? && f.g1.low == MinLow(win) && f.g1.vol == NewLowVolume(win)
    requires f.fire.Some? && f.fire.value.grammar == UndercutReclaim
    requires ReclaimFired(f, win[|win| - 1], w)
    ensures ReclaimShape(win, f.fire.value, w)
  {
    hide MinLow, NewLowVolume, MakesLow, UnderLows;
    var last := win[|win| - 1];
    forall k | 0 <= k < |win| && MakesLow(win, k) ensures win[k].volume <= last.volume {
      NewLowVolumeCovers(win, k);
    }
    assert Outtrades(win, last.volume);
    hide Outtrades;
    assert Depth(Flush(0, MinLow(win), NewLowVolume(win)), last, w.z) == Depth(f.g1, last, w.z);
    hide Depth;
    var buffer := w.p.stopBufferAtr * last.atr5m.value;
    assert f.fire.value.stop == MinLow(win) - buffer;
    StopBelowLows(win, buffer);
  }

  lemma PatternOfFlush(h: seq<BarInput>, f: Fsm, w: Plan, s: nat)
    requires h != [] && FlushFrom(h, f.g1, w) && |h| - f.g1.started <= w.p.reclaimMaxBars
    requires Feedable(h) && FlushSince(h, w, f.g1.started) && s + 1 == f.g1.started
    requires f.fire.Some? && f.fire.value.grammar == UndercutReclaim
    requires ReclaimFired(f, h[|h| - 1], w)
    ensures ReclaimPattern(h, f.fire.value, w, s)
  {
    hide MinLow, NewLowVolume, ReclaimFired, ReclaimShape, FlushSince, Run;
    ShapeOfFlush(h[s..], f, w);
  }

  lemma StartedOnce(h: seq<BarInput>, g: Flush, w: Plan)
    requires FlushFrom(h, g, w)
    ensures g.Flush? && g.started >= 1
  {
  }

  /** Whenever the reclaim grammar fires, the flush it reclaims opened at most `reclaimMaxBars` bars
      ago, its low is the minimum over the whole flush window, the trigger out-trades the opening
      bar and every bar that made a new low, and the stop is under every low of the window exactly
      when the buffer is positive. */
  lemma ReclaimTrigger(bars: seq<BarInput>, w: Plan)
    requires Feedable(bars)
    requires Run(bars, w).fire.Some? && Run(bars, w).fire.value.grammar == UndercutReclaim
    ensures exists s :: ReclaimPattern(Seen(bars, w), Run(bars, w).fire.value, w, s)
  {
    hide Step, Seen, Run, FlushFrom, FlushSince, ReclaimPattern, Reclaims, StopFor, Path;
    RunFlush(bars, w);
    EventsArePath(bars, w);
    SeenSome(bars, w);
    var h, f := Seen(bars, w), Run(bars, w);
    assert f.g1.started >= 1 by { StartedOnce(h, f.g1, w); }
    PatternOfFlush(h, f, w, f.g1.started - 1);
  }
}
