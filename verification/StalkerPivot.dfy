/** The higher-low trigger, told over the history of bars. */
module StalkerPivot {
  import opened Numbers
  import opened Optional
  import opened StalkerRules
  import opened StalkerPath
  import opened StalkerKnife
  import opened StalkerFlush

  /** Bar `v` is strictly lower than the `k` bars on either side, and printed inside the zone. */
  predicate PivotAt(h: seq<BarInput>, w: Plan, v: nat) {
    var k := w.p.microPivotK;
    && 1 <= k <= v && v + k < |h|
    && (forall i :: v - k <= i <= v + k && i != v ==> h[v].low < h[i].low)
    && h[v].low <= w.z.top
  }

  function LowSince(h: seq<BarInput>, i: nat): real
    requires i < |h|
  {
    MinLow(h[i..])
  }

  function HighSince(h: seq<BarInput>, i: nat): real
    requires i < |h|
  {
    MaxHigh(h[i..])
  }

  /** The episode opened at pivot `v`: lowest low from the pivot on, highest high after it, and
      the lowest low since it was confirmed. */
  predicate PivotFrom(h: seq<BarInput>, g: Pivot, w: Plan, v: nat) {
    && g.Pivot?
    && PivotAt(h, w, v)
    && g.l1 == LowSince(h, v)
    && g.interimHigh == HighSince(h, v + 1)
    && g.l2 == (var c := v + w.p.microPivotK + 1; if c == |h| then None else Some(LowSince(h, c)))
  }

  lemma MinLowGrows(s: seq<BarInput>, bar: BarInput)
    requires s != []
    ensures MinLow(s + [bar]) == Min(MinLow(s), bar.low)
  {
    assert (s + [bar])[..|s|] == s;
  }

  lemma MaxHighGrows(s: seq<BarInput>, bar: BarInput)
    requires s != []
    ensures MaxHigh(s + [bar]) == Max(MaxHigh(s), bar.high)
  {
    assert (s + [bar])[..|s|] == s;
  }

  lemma Shifted(h: seq<BarInput>, d: nat, w: Plan, u: nat)
    requires d <= |h| && PivotAt(h[d..], w, u)
    ensures PivotAt(h, w, u + d)
  {
    var t, k := h[d..], w.p.microPivotK;
    forall i | u + d - k <= i <= u + d + k && i != u + d ensures h[u + d].low < h[i].low {
      assert t[i - d] == h[i];
    }
  }

  lemma SuffixOfSuffix<T>(h: seq<T>, d: nat, i: nat)
    requires d + i <= |h|
    ensures h[d..][i..] == h[d + i..]
  {
  }

  lemma TailIsSuffix<T>(h: seq<T>, n: nat)
    ensures |Tail(h, n)| <= |h| && Tail(h, n) == h[|h| - |Tail(h, n)|..]
  {
  }

  /** A micro pivot in the buffer is one in the history. */
  lemma BufferedPivot(h: seq<BarInput>, t: seq<BarInput>, w: Plan)
    requires |t| <= |h| && t == h[|h| - |t|..]
    requires IsMicroPivot(t, w)
    ensures var k := w.p.microPivotK;
      && 1 <= k < |t| && |h| - k - 1 >= 0 && PivotAt(h, w, |h| - k - 1)
      && t[|t| - k - 1] == h[|h| - k - 1] && t[|t| - k..] == h[|h| - k..]
  {
    hide PivotAt;
    var k := w.p.microPivotK;
    assert PivotAt(t, w, |t| - k - 1) by { FromBuffer(t, w); }
    Shifted(h, |h| - |t|, w, |t| - k - 1);
    SuffixOfSuffix(h, |h| - |t|, |t| - k);
  }

  lemma FromBuffer(t: seq<BarInput>, w: Plan)
    requires IsMicroPivot(t, w)
    ensures |t| - w.p.microPivotK - 1 >= 0 && PivotAt(t, w, |t| - w.p.microPivotK - 1)
  {
  }

  /** The pivot is the lowest of the bars after it too. */
  lemma PivotIsLowest(h: seq<BarInput>, w: Plan, v: nat)
    requires PivotAt(h, w, v) && v + w.p.microPivotK + 1 == |h|
    ensures h[v].low == LowSince(h, v)
  {
    var s := h[v..];
    var i :| 0 <= i < |s| && s[i].low == MinLow(s);
    assert s[0] == h[v] && s[i] == h[v + i];
  }

  lemma FindPivotStarts(h: seq<BarInput>, f: Fsm, bar: BarInput, w: Plan)
    requires Booked(h, f, w) && f.g2.NoPivot?
    ensures var g := FindPivot(f, bar, w);
      && g.fire == f.fire
      && (g.g2.Pivot? ==> |h| > w.p.microPivotK && PivotFrom(h, g.g2, w, |h| - w.p.microPivotK - 1))
  {
    hide MinLow, MaxHigh, IsMicroPivot, Tail, Capacity, PivotAt;
    if IsMicroPivot(f.bars, w) {
      TailIsSuffix(h, Capacity(w.p));
      BufferedPivot(h, f.bars, w);
      PivotIsLowest(h, w, |h| - w.p.microPivotK - 1);
    }
  }

  lemma PivotAtStays(h: seq<BarInput>, bar: BarInput, w: Plan, v: nat)
    requires PivotAt(h, w, v)
    ensures PivotAt(h + [bar], w, v)
  {
  }

  lemma LowFrom(h: seq<BarInput>, bar: BarInput, i: nat)
    requires i <= |h|
    ensures LowSince(h + [bar], i) == if i == |h| then bar.low else Min(LowSince(h, i), bar.low)
  {
    if i == |h| {
      assert (h + [bar])[i..] == [bar];
    } else {
      assert (h + [bar])[i..] == h[i..] + [bar];
      MinLowGrows(h[i..], bar);
    }
  }

  lemma HighFrom(h: seq<BarInput>, bar: BarInput, i: nat)
    requires i < |h|
    ensures HighSince(h + [bar], i) == Max(HighSince(h, i), bar.high)
  {
    assert (h + [bar])[i..] == h[i..] + [bar];
    MaxHighGrows(h[i..], bar);
  }

  /** The lows and highs of an episode after one more bar. */
  lemma EpisodeGrows(h: seq<BarInput>, g: Pivot, bar: BarInput, w: Plan, v: nat)
    requires PivotFrom(h, g, w, v)
    ensures var l2 := if g.l2.Some? then Min(g.l2.value, bar.low) else bar.low;
      PivotFrom(h + [bar], Pivot(Min(g.l1, l2), Max(g.interimHigh, bar.high), Some(l2)), w, v)
  {
    hide LowSince, HighSince, PivotAt;
    var c := v + w.p.microPivotK + 1;
    PivotBounds(h, w, v);
    PivotAtStays(h, bar, w, v);
    LowFrom(h, bar, v);
    LowFrom(h, bar, c);
    HighFrom(h, bar, v + 1);
    if c < |h| { SuffixLow(h, v, c); }
  }

  lemma PivotBounds(h: seq<BarInput>, w: Plan, v: nat)
    requires PivotAt(h, w, v)
    ensures 1 <= w.p.microPivotK && v + w.p.microPivotK < |h|
  {
  }

  lemma SuffixLow(h: seq<BarInput>, v: nat, c: nat)
    requires v < c < |h|
    ensures LowSince(h, v) <= LowSince(h, c)
  {
    var t := h[c..];
    var i :| 0 <= i < |t| && t[i].low == MinLow(t);
    assert h[v..][c + i - v] == t[i];
  }

  /** An episode opens exactly when a pivot of the buffer is confirmed by the last bar: its reference is
      the pivot's low and its high the highest since. */
  lemma OpensIff(f: Fsm, bar: BarInput, w: Plan)
    requires f.g2.NoPivot?
    ensures var g, v := FindPivot(f, bar, w), |f.bars| - w.p.microPivotK - 1;
      && (g.g2.Pivot? <==> v >= 0 && PivotAt(f.bars, w, v))
      && (g.g2.Pivot? ==> g.g2 == Pivot(f.bars[v].low, HighSince(f.bars, v + 1), None))
      && g.fire == f.fire
  {
    hide MaxHigh;
    var v := |f.bars| - w.p.microPivotK - 1;
    if IsMicroPivot(f.bars, w) { FromBuffer(f.bars, w); }
  }

  /** A bar that undercuts the reference by more than the noise allowance ends the episode; any other one
      is taken into its lows and its high. */
  lemma FollowsIff(f: Fsm, bar: BarInput, w: Plan)
    requires bar.close != 0.0 && f.g2.Pivot?
    ensures var g := FollowPivot(f, bar, w);
      var low := if f.g2.l2.Some? && f.g2.l2.value <= bar.low then f.g2.l2.value else bar.low;
      if bar.atr5m.Some? && f.g2.l1 - low > w.p.hlUndercutResetAtr * bar.atr5m.value then g == f.(g2 := NoPivot)
      else g.g2 == Pivot(if low < f.g2.l1 then low else f.g2.l1,
                         if bar.high > f.g2.interimHigh then bar.high else f.g2.interimHigh, Some(low))
  {
    hide TryFire;
  }

  /** What a fired break says about the episode it came out of: the trigger closes above its open
      and above the interim high of the earlier bars. */
  predicate BreakFired(f: Fsm, bar: BarInput, high: real, w: Plan) {
    f.fire.Some? && f.fire.value.grammar == HigherLowBreak ==>
      && f.g2.Pivot? && f.g2.l2.Some? && bar.atr5m.Some?
      && bar.close > high && bar.close > bar.open
      && f.fire.value.stop == StopFor(bar, f.g2.l1, w.p)
      && f.fire.value.higherLow == f.g2.l2
  }

  lemma FollowPivotKeeps(h: seq<BarInput>, f: Fsm, bar: BarInput, w: Plan, v: nat)
    requires bar.close != 0.0
    requires PivotFrom(h, f.g2, w, v) && f.fire.None?
    ensures var g := FollowPivot(f, bar, w);
      && (g.g2.Pivot? ==> PivotFrom(h + [bar], g.g2, w, v))
      && BreakFired(g, bar, f.g2.interimHigh, w)
      && (g.fire.Some? ==> g.fire.value.grammar == HigherLowBreak)
  {
    hide PivotFrom, TryFire, DecisiveUndercut, StopFor;
    assert f.g2.Pivot? by { PivotIsOpen(h, f.g2, w, v); }
    var g := f.g2;
    EpisodeGrows(h, g, bar, w, v);
    var l2 := if g.l2.Some? then Min(g.l2.value, bar.low) else bar.low;
    var l1 := if l2 < g.l1 then l2 else g.l1;
    var f1 := f.(g2 := Pivot(l1, g.interimHigh, Some(l2)));
    TryFireFrame(f1, bar, HigherLowBreak, Min(l1, l2), Some(l2), w);
    TryFireAnchors(f1, bar, HigherLowBreak, Min(l1, l2), Some(l2), w);
  }

  lemma PivotIsOpen(h: seq<BarInput>, g: Pivot, w: Plan, v: nat)
    requires PivotFrom(h, g, w, v)
    ensures g.Pivot?
  {
  }

  // ---------------------------------------------------------------- over a run

  /** The episode of pivot `v` opened when the pivot was confirmed: none stood before that bar, and
      one ever since, up to the last bar. */
  predicate EpisodeSince(h: seq<BarInput>, w: Plan, v: nat)
    requires Feedable(h)
  {
    var c := v + w.p.microPivotK + 1;
    c <= |h| && Run(h[..c - 1], w).g2.NoPivot? && forall j :: c <= j < |h| ==> Run(h[..j], w).g2.Pivot?
  }

  lemma EpisodeSinceGrows(h: seq<BarInput>, bar: BarInput, w: Plan, v: nat)
    requires Feedable(h + [bar]) && Feedable(h)
    requires if Run(h, w).g2.Pivot? then EpisodeSince(h, w, v) else v + w.p.microPivotK == |h|
    ensures EpisodeSince(h + [bar], w, v)
  {
    hide Run;
    var k := h + [bar];
    forall j | 0 <= j <= |h| ensures k[..j] == h[..j] {}
    assert h[..|h|] == h;
  }

  ghost predicate PivotKept(h: seq<BarInput>, f: Fsm, w: Plan)
    requires Feedable(h)
  {
    && (f.g2.Pivot? ==> w.p.useHigherLow)
    && (f.g2.Pivot? && Engaged(f.state) ==> exists v :: PivotFrom(h, f.g2, w, v) && EpisodeSince(h, w, v))
  }

  /** The episode before the trigger bar, and the trigger that broke it. */
  predicate BrokeOut(h: seq<BarInput>, f: Fsm, w: Plan, v: nat)
    requires Feedable(h)
  {
    && h != [] && v + 1 < |h| - 1
    && PivotFrom(h, f.g2, w, v) && EpisodeSince(h, w, v)
    && BreakFired(f, h[|h| - 1], HighSince(h[..|h| - 1], v + 1), w)
  }

  ghost predicate BreakKept(h: seq<BarInput>, f: Fsm, w: Plan)
    requires Feedable(h)
  {
    f.fire.Some? && f.fire.value.grammar == HigherLowBreak ==> exists v :: BrokeOut(h, f, w, v)
  }

  lemma AdvanceG1IsReclaim(f: Fsm, bar: BarInput, w: Plan)
    requires bar.close != 0.0 && f.fire.None?
    ensures var g := AdvanceG1(f, bar, w); g.fire.Some? ==> g.fire.value.grammar == UndercutReclaim
  {
    hide TryFire, Track, Stale, Reclaims;
    var g := Track(f.g1, bar, f.n, w);
    var f1 := f.(g1 := g);
    var f2 := if bar.low < w.z.referenceLow && f.state == Touched
              then Emit(f1, Confirming, FlushBelowReference, bar.minute) else f1;
    if g.Flush? { TryFireAnchors(f2, bar, UndercutReclaim, g.low, None, w); }
  }

  lemma FollowFromHistory(h: seq<BarInput>, f: Fsm, bar: BarInput, w: Plan)
    requires bar.close != 0.0 && w.p.useHigherLow
    requires Feedable(h + [bar]) && Feedable(h) && f.g2 == Run(h, w).g2
    requires f.g2.Pivot? && PivotKept(h, f, w) && Engaged(f.state) && f.fire.None?
    ensures var g := FollowPivot(f, bar, w); PivotKept(h + [bar], g, w) && BreakKept(h + [bar], g, w)
  {
    hide FollowPivot, PivotFrom, EpisodeSince, BreakFired, HighSince, Run;
    var v :| PivotFrom(h, f.g2, w, v) && EpisodeSince(h, w, v);
    EpisodeSinceGrows(h, bar, w, v);
    FollowPivotKeeps(h, f, bar, w, v);
    EpisodeShape(h, f.g2, w, v);
    var g, k := FollowPivot(f, bar, w), h + [bar];
    assert k[..|k| - 1] == h && k[|k| - 1] == bar;
    if g.fire.Some? {
      BrokenPivotStays(g, bar, f.g2.interimHigh, w);
      assert BrokeOut(k, g, w, v);
    }
  }

  lemma EpisodeShape(h: seq<BarInput>, g: Pivot, w: Plan, v: nat)
    requires PivotFrom(h, g, w, v)
    ensures v + 1 < |h| && g.interimHigh == HighSince(h, v + 1)
  {
  }

  lemma BrokenPivotStays(f: Fsm, bar: BarInput, high: real, w: Plan)
    requires BreakFired(f, bar, high, w)
    requires f.fire.Some? && f.fire.value.grammar == HigherLowBreak
    ensures f.g2.Pivot?
  {
  }

  lemma AdvanceG2Pivot(h: seq<BarInput>, f: Fsm, bar: BarInput, w: Plan)
    requires bar.close != 0.0
    requires Feedable(h + [bar]) && Feedable(h) && f.g2 == Run(h, w).g2
    requires Booked(h + [bar], f, w) && FireMatches(f) && PivotKept(h, f, w)
    requires f.fire.Some? ==> f.fire.value.grammar == UndercutReclaim
    requires f.g2.Pivot? && !Terminal(f.state) ==> Engaged(f.state)
    requires Engaged(f.state) || f.state == Fired
    ensures var g := AdvanceG2(f, bar, w); PivotKept(h + [bar], g, w) && BreakKept(h + [bar], g, w)
  {
    hide FollowPivot, FindPivot, PivotFrom, EpisodeSince, BrokeOut, Tail, Run;
    if w.p.useHigherLow && Engaged(f.state) {
      if f.g2.NoPivot? {
        FindPivotStarts(h + [bar], f, bar, w);
        var k, g := h + [bar], FindPivot(f, bar, w);
        if g.g2.Pivot? {
          var v := |k| - w.p.microPivotK - 1;
          EpisodeSinceGrows(h, bar, w, v);
          assert PivotFrom(k, g.g2, w, v) && EpisodeSince(k, w, v);
        }
      } else {
        FollowFromHistory(h, f, bar, w);
      }
    }
  }

  lemma StepPivot(h: seq<BarInput>, f: Fsm, bar: BarInput, w: Plan)
    requires bar.close != 0.0 && !Terminal(f.state) && Sound(f)
    requires Feedable(h + [bar]) && Feedable(h) && f == Run(h, w)
    requires Booked(h, f, w) && PivotKept(h, f, w)
    ensures PivotKept(h + [bar], Step(f, bar, w), w) && BreakKept(h + [bar], Step(f, bar, w), w)
  {
    hide Watch, AdvanceG1, AdvanceG2, PivotFrom, EpisodeSince, BrokeOut, Path, Tail, Run;
    WatchFrame(f, bar, w);
    WatchPath(f, bar, w);
    StepBooks(h, f, bar, w);
    var m := Watch(f, bar, w);
    if Engaged(m.state) {
      AdvanceG1Frame(m, bar, w);
      AdvanceG1Path(m, bar, w);
      AdvanceG1IsReclaim(m, bar, w);
      AdvanceG1Live(m, bar, w);
      AdvanceG2Pivot(h, AdvanceG1(m, bar, w), bar, w);
    }
  }

  lemma AdvanceG1Live(f: Fsm, bar: BarInput, w: Plan)
    requires bar.close != 0.0 && Engaged(f.state)
    ensures var g := AdvanceG1(f, bar, w); Engaged(g.state) || g.state == Fired
  {
    hide TryFire, Track, Stale, Reclaims;
    var g := Track(f.g1, bar, f.n, w);
    var f1 := f.(g1 := g);
    var f2 := if bar.low < w.z.referenceLow && f.state == Touched
              then Emit(f1, Confirming, FlushBelowReference, bar.minute) else f1;
    if g.Flush? { TryFireFrame(f2, bar, UndercutReclaim, g.low, None, w); }
  }

  lemma {:induction false} RunPivot(bars: seq<BarInput>, w: Plan)
    requires Feedable(bars)
    ensures Feedable(Seen(bars, w))
    ensures PivotKept(Seen(bars, w), Run(bars, w), w) && BreakKept(Seen(bars, w), Run(bars, w), w)
    decreases |bars|
  {
    hide Step, PivotFrom, EpisodeSince, BrokeOut, Path, Tail;
    if bars == [] {
    } else {
      var init, bar := bars[..|bars| - 1], bars[|bars| - 1];
      assert bars == init + [bar];
      RunStep(init, bar, w);
      RunPivot(init, w);
      EventsArePath(init, w);
      RunBooks(init, w);
      SeenIsPrefix(init, w);
      hide Run, Seen;
      if !Terminal(Run(init, w).state) { StepPivot(Seen(init, w), Run(init, w), bar, w); }
    }
  }

  // ---------------------------------------------------------------- the theorem

  /** The run opened an episode on the micro pivot `v` and kept it to the trigger, the last bar of `h`,
      which breaks every high between that pivot and itself; the stop rests on the lowest low from
      the pivot through the trigger. */
  predicate HigherLowPattern(h: seq<BarInput>, i: FireIntent, w: Plan, v: nat) {
    var c, n := v + w.p.microPivotK + 1, |h| - 1;
    && c < |h|
    && PivotAt(h, w, v)
    && Feedable(h) && EpisodeSince(h, w, v)
    && h[n].open < h[n].close
    && (forall j :: v < j < n ==> h[j].high < h[n].close)
    && h[n].atr5m.Some?
    && i.stop == MinLow(h[v..]) - w.p.stopBufferAtr * h[n].atr5m.value
    && i.higherLow == Some(MinLow(h[c..]))
    && (w.p.stopBufferAtr * h[n].atr5m.value > 0.0 <==> UnderLows(h[v..], i.stop))
  }

  lemma HighsBelow(h: seq<BarInput>, v: nat, x: real)
    requires v + 1 < |h| - 1 && HighSince(h[..|h| - 1], v + 1) < x
    ensures forall j :: v < j < |h| - 1 ==> h[j].high < x
  {
    var s := h[..|h| - 1][v + 1..];
    forall j | v < j < |h| - 1 ensures h[j].high < x {
      assert s[j - v - 1] == h[j];
      assert s[j - v - 1].high <= MaxHigh(s);
    }
  }

  lemma PatternOfBreak(h: seq<BarInput>, f: Fsm, w: Plan, v: nat)
    requires Feedable(h) && BrokeOut(h, f, w, v)
    requires f.fire.Some? && f.fire.value.grammar == HigherLowBreak
    ensures HigherLowPattern(h, f.fire.value, w, v)
  {
    hide MinLow, MaxHigh, HighSince, PivotAt, EpisodeSince, UnderLows;
    var last := h[|h| - 1];
    PivotBounds(h, w, v);
    HighsBelow(h, v, last.close);
    StopBelowLows(h[v..], w.p.stopBufferAtr * last.atr5m.value);
  }

  /** Whenever the higher-low grammar fires, the trigger close exceeds the high of every bar
      strictly between the micro pivot that opened the episode and the trigger, and the stop is
      the lowest low from that pivot on less the buffer: under all of those lows exactly when the
      buffer is positive. */
  lemma HigherLowTrigger(bars: seq<BarInput>, w: Plan)
    requires Feedable(bars)
    requires Run(bars, w).fire.Some? && Run(bars, w).fire.value.grammar == HigherLowBreak
    ensures exists v :: HigherLowPattern(Seen(bars, w), Run(bars, w).fire.value, w, v)
  {
    hide Step, Seen, Run, BrokeOut, HigherLowPattern;
    RunPivot(bars, w);
    var h, f := Seen(bars, w), Run(bars, w);
    var v :| BrokeOut(h, f, w, v);
    PatternOfBreak(h, f, w, v);
  }
}
