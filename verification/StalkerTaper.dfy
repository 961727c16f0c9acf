/** The volume dry-up gate, told over bar numbers: a fire needs its last down bars to have traded less
    than the down bars before them. */
module StalkerTaper {
  import opened Optional
  import opened Numbers
  import opened StalkerRules
  import opened StalkerPath
  import opened StalkerFire
  import opened StalkerDefaults

  /** `idx` numbers, in order, exactly the bars of `h` that closed below their open. */
  predicate DownBars(h: seq<BarInput>, idx: seq<nat>) {
    && (forall k :: 0 <= k < |idx| ==> idx[k] < |h| && h[idx[k]].close < h[idx[k]].open)
    && (forall j, k :: 0 <= j < k < |idx| ==> idx[j] < idx[k])
    && (forall i :: 0 <= i < |h| && h[i].close < h[i].open ==> i in idx)
  }

  predicate Within(h: seq<BarInput>, idx: seq<nat>) { forall k :: 0 <= k < |idx| ==> idx[k] < |h| }

  /** What the numbered bars traded together. */
  function Traded(h: seq<BarInput>, idx: seq<nat>): real
    requires Within(h, idx)
  {
    if idx == [] then 0.0 else Traded(h, idx[..|idx| - 1]) + h[idx[|idx| - 1]].volume
  }

  /** Too few down bars to tell, or the last `t` of them traded less than the `t` before.  For `t`
      zero all of them stand against none. */
  predicate DryUp(h: seq<BarInput>, idx: seq<nat>, t: nat)
    requires Within(h, idx)
  {
    var d := |idx|;
    d < 2 * t || (if t == 0 then Traded(h, idx) < 0.0 else Traded(h, idx[d - t..]) < Traded(h, idx[d - 2 * t..d - t]))
  }

  function VolumesAt(h: seq<BarInput>, idx: seq<nat>): (r: seq<real>)
    requires Within(h, idx)
    ensures |r| == |idx| && forall k :: 0 <= k < |idx| ==> r[k] == h[idx[k]].volume
  {
    seq(|idx|, k requires 0 <= k < |idx| => h[idx[k]].volume)
  }

  /** A last down bar is last in the list. */
  lemma LastDownBar(h: seq<BarInput>, idx: seq<nat>)
    requires h != [] && DownBars(h, idx) && h[|h| - 1].close < h[|h| - 1].open
    ensures idx != [] && idx[|idx| - 1] == |h| - 1
    ensures forall k :: 0 <= k < |idx| - 1 ==> idx[k] < |h| - 1
  {
    var n, d := |h| - 1, |idx|;
    assert n in idx;
    var k :| 0 <= k < d && idx[k] == n;
    assert idx[k] <= idx[d - 1];
  }

  lemma WithoutLast(h: seq<BarInput>, idx: seq<nat>)
    requires h != [] && DownBars(h, idx) && idx != [] && idx[|idx| - 1] == |h| - 1
    requires forall k :: 0 <= k < |idx| - 1 ==> idx[k] < |h| - 1
    ensures DownBars(h[..|h| - 1], idx[..|idx| - 1])
  {
    var n, d := |h| - 1, |idx|;
    var init, less := h[..n], idx[..d - 1];
    forall k | 0 <= k < |less| ensures less[k] < n && init[less[k]].close < init[less[k]].open { assert less[k] == idx[k]; }
    forall j, k | 0 <= j < k < |less| ensures less[j] < less[k] { assert idx[j] < idx[k]; }
    forall i | 0 <= i < n && init[i].close < init[i].open ensures i in less {
      assert h[i] == init[i] && i in idx;
      var j :| 0 <= j < d && idx[j] == i;
      assert less[j] == i;
    }
  }

  lemma WithoutOther(h: seq<BarInput>, idx: seq<nat>)
    requires h != [] && DownBars(h, idx) && !(h[|h| - 1].close < h[|h| - 1].open)
    ensures DownBars(h[..|h| - 1], idx)
  {
    var n := |h| - 1;
    var init := h[..n];
    forall k | 0 <= k < |idx| ensures idx[k] < n && init[idx[k]].close < init[idx[k]].open { assert idx[k] != n; }
    forall i | 0 <= i < n && init[i].close < init[i].open ensures i in idx { assert h[i] == init[i]; }
  }

  /** The list of all bars but the last. */
  lemma DownBarsBefore(h: seq<BarInput>, idx: seq<nat>)
    requires h != [] && DownBars(h, idx)
    ensures var n, d := |h| - 1, |idx|;
      if h[n].close < h[n].open then d > 0 && idx[d - 1] == n && DownBars(h[..n], idx[..d - 1]) else DownBars(h[..n], idx)
  {
    hide DownBars;
    if h[|h| - 1].close < h[|h| - 1].open {
      LastDownBar(h, idx);
      WithoutLast(h, idx);
    } else {
      WithoutOther(h, idx);
    }
  }

  lemma VolumesAtInit(h: seq<BarInput>, idx: seq<nat>, less: seq<nat>)
    requires h != [] && Within(h, idx) && Within(h[..|h| - 1], less) && less <= idx
    ensures idx == less ==> VolumesAt(h, idx) == VolumesAt(h[..|h| - 1], less)
    ensures |idx| == |less| + 1 ==> VolumesAt(h, idx) == VolumesAt(h[..|h| - 1], less) + [h[idx[|less|]].volume]
  {
  }

  lemma DownBarsAreBars(h: seq<BarInput>, idx: seq<nat>)
    requires DownBars(h, idx)
    ensures Within(h, idx)
  {
  }

  lemma {:induction false} DownVolumesAre(h: seq<BarInput>, idx: seq<nat>)
    requires DownBars(h, idx)
    ensures DownVolumes(h) == VolumesAt(h, idx)
    decreases |h|
  {
    if h == [] {
    } else {
      var n, d := |h| - 1, |idx|;
      DownBarsBefore(h, idx);
      hide DownBars, VolumesAt, Within;
      var less := if h[n].close < h[n].open then idx[..d - 1] else idx;
      DownVolumesAre(h[..n], less);
      DownBarsAreBars(h[..n], less);
      VolumesAtInit(h, idx, less);
    }
  }

  lemma {:induction false} SumTraded(h: seq<BarInput>, idx: seq<nat>)
    requires Within(h, idx)
    ensures Sum(VolumesAt(h, idx)) == Traded(h, idx)
    decreases |idx|
  {
    if idx == [] {
    } else {
      SumTraded(h, idx[..|idx| - 1]);
      assert VolumesAt(h, idx)[..|idx| - 1] == VolumesAt(h, idx[..|idx| - 1]);
    }
  }

  lemma SliceTraded(h: seq<BarInput>, idx: seq<nat>, a: nat, b: nat)
    requires Within(h, idx) && a <= b <= |idx|
    ensures Sum(VolumesAt(h, idx)[a..b]) == Traded(h, idx[a..b])
  {
    SumTraded(h, idx[a..b]);
    assert VolumesAt(h, idx)[a..b] == VolumesAt(h, idx[a..b]);
  }

  /** The gate holds exactly when the volume dries up. */
  lemma TaperIff(h: seq<BarInput>, idx: seq<nat>, p: Params)
    requires DownBars(h, idx)
    ensures DownTaper(h, p) <==> DryUp(h, idx, p.taperBars)
  {
    hide Sum, Traded, DownVolumes;
    var d, t := |idx|, p.taperBars;
    DownVolumesAre(h, idx);
    SliceTraded(h, idx, 0, d);
    assert VolumesAt(h, idx)[0..d] == VolumesAt(h, idx) && idx[0..d] == idx;
    if t > 0 && d >= 2 * t {
      SliceTraded(h, idx, d - t, d);
      SliceTraded(h, idx, d - 2 * t, d - t);
      assert idx[d - t..d] == idx[d - t..] && VolumesAt(h, idx)[d - t..d] == VolumesAt(h, idx)[d - t..];
    }
  }

  lemma OneMoreBar(h: seq<BarInput>, idx: seq<nat>, bar: BarInput)
    requires DownBars(h, idx)
    ensures DownBars(h + [bar], if bar.close < bar.open then idx + [|h|] else idx)
  {
    var k, all := h + [bar], if bar.close < bar.open then idx + [|h|] else idx;
    forall i | 0 <= i < |k| && k[i].close < k[i].open ensures i in all {
      if i == |h| { assert all[|idx|] == i; } else { assert i in idx; }
    }
  }

  lemma NoDownBars()
    ensures DownBars([], [])
  {
  }

  /** Every list of bars has such a numbering. */
  lemma {:induction false} DownBarsExist(h: seq<BarInput>) returns (idx: seq<nat>)
    ensures DownBars(h, idx)
    decreases |h|
  {
    hide DownBars;
    if h == [] {
      idx := [];
      NoDownBars();
    } else {
      var n := |h| - 1;
      var less := DownBarsExist(h[..n]);
      idx := if h[n].close < h[n].open then less + [n] else less;
      OneMoreBar(h[..n], less, h[n]);
      assert h[..n] + [h[n]] == h;
    }
  }

  /** In every run that fired, the down bars of the buffer had dried up. */
  lemma FireTapers(bars: seq<BarInput>, w: Plan, idx: seq<nat>)
    requires Feedable(bars) && Run(bars, w).fire.Some?
    requires DownBars(Tail(Seen(bars, w), Capacity(w.p)), idx)
    ensures DryUp(Tail(Seen(bars, w), Capacity(w.p)), idx, w.p.taperBars)
  {
    hide Run, Seen, Tail, Capacity, DownTaper, DryUp, DownBars;
    FireIsSound(bars, w);
    TaperIff(Tail(Seen(bars, w), Capacity(w.p)), idx, w.p);
  }

  /** A trigger whose down bars have not dried up changes nothing. */
  lemma NoFireWithoutTaper(f: Fsm, bar: BarInput, grammar: Grammar, anchor: real, higherLow: Option<real>, w: Plan,
                           idx: seq<nat>)
    requires bar.close != 0.0
    requires DownBars(f.bars, idx) && !DryUp(f.bars, idx, w.p.taperBars)
    ensures TryFire(f, bar, grammar, anchor, higherLow, w) == f
  {
    hide DownTaper, DryUp, DownBars;
    TaperIff(f.bars, idx, w.p);
  }

  // ---------------------------------------------------------------- six down bars before a reclaim

  /** A down bar well above the zone that is no pullback. */
  function Above(minute: int, volume: real): BarInput {
    BarInput(minute, 103.0, 103.1, 102.5, 102.9, volume, 100.5, Some(1.0), 103.1, None, None, false, false)
  }

  function SixDowns(early: real, late: real): seq<BarInput> {
    [Above(594, early), Above(595, early), Above(596, early), Above(597, late), Above(598, late), Above(599, late)]
  }

  lemma AboveStep(f: Fsm, minute: int, volume: real)
    requires f == Fsm(Armed, [], None, f.bars, NoFlush, NoPivot, 0, 0, f.n) && |f.bars| < 8 && 590 <= minute < 600
    ensures Step(f, Above(minute, volume), Plan(Z1, DEFAULTS)) == f.(bars := f.bars + [Above(minute, volume)], n := f.n + 1)
  {
    var w, bar := Plan(Z1, DEFAULTS), Above(minute, volume);
    assert Watch(f, bar, w) == f.(bars := f.bars + [bar], n := f.n + 1);
  }

  lemma {:induction false} StillArmed(bars: seq<BarInput>, i: nat)
    requires |bars| == 6 && i <= 6
    requires forall j :: 0 <= j < 6 ==> 590 <= bars[j].minute < 600 && bars[j] == Above(bars[j].minute, bars[j].volume)
    ensures Feedable(bars[..i])
    ensures Run(bars[..i], Plan(Z1, DEFAULTS)) == Fsm(Armed, [], None, bars[..i], NoFlush, NoPivot, 0, 0, i)
    decreases i
  {
    hide Step;
    if i == 0 {
    } else {
      hide Run;
      StillArmed(bars, i - 1);
      assert bars[..i - 1] + [bars[i - 1]] == bars[..i];
      RunStep(bars[..i - 1], bars[i - 1], Plan(Z1, DEFAULTS));
      AboveStep(Run(bars[..i - 1], Plan(Z1, DEFAULTS)), bars[i - 1].minute, bars[i - 1].volume);
    }
  }

  /** The reclaim of the two-bar run, on heavy volume. */
  const TRIGGER: BarInput := RECLAIM_BAR.(volume := 1000.0)

  /** The state after the six down bars and the flush. */
  function Flushed(bars: seq<BarInput>, events: seq<Event>): Fsm {
    Fsm(Confirming, events, None, bars + [FLUSH_BAR], Flush(7, 99.5, 100.0), NoPivot, 0, 0, 7)
  }

  lemma FlushStep(bars: seq<BarInput>)
    requires |bars| == 6 && bars[4].low >= bars[3].low
    ensures var g := Step(Fsm(Armed, [], None, bars, NoFlush, NoPivot, 0, 0, 6), FLUSH_BAR, Plan(Z1, DEFAULTS));
      g == Flushed(bars, g.events)
  {
    hide TryFire, FindPivot;
    var w, f := Plan(Z1, DEFAULTS), Fsm(Armed, [], None, bars, NoFlush, NoPivot, 0, 0, 6);
    var m := Watch(f, FLUSH_BAR, w);
    assert m == Fsm(Touched, m.events, None, bars + [FLUSH_BAR], NoFlush, NoPivot, 0, 0, 7);
    var a := AdvanceG1(m, FLUSH_BAR, w);
    assert a == Flushed(bars, a.events);
    NoPivotYet(a, bars + [FLUSH_BAR]);
  }

  lemma NoPivotYet(f: Fsm, bars: seq<BarInput>)
    requires f.bars == bars && |bars| == 7 && bars[4].low >= bars[3].low
    ensures FindPivot(f, FLUSH_BAR, Plan(Z1, DEFAULTS)) == f
  {
    assert !IsMicroPivot(bars, Plan(Z1, DEFAULTS));
  }

  lemma MedianAtMost(xs: seq<real>, most: real)
    requires xs != [] && forall i :: 0 <= i < |xs| ==> xs[i] <= most
    ensures Median(xs) <= most
  {
    SortedRises(xs);
    var s := Sorted(xs);
    forall i | 0 <= i < |s| ensures s[i] <= most {
      assert s[i] in multiset(s);
      assert s[i] in multiset(xs);
    }
  }

  lemma {:induction false} VolumesAtMost(bars: seq<BarInput>, most: real)
    requires forall i :: 0 <= i < |bars| ==> bars[i].volume <= most
    ensures |Volumes(bars)| == |bars| && forall i :: 0 <= i < |bars| ==> Volumes(bars)[i] <= most
    decreases |bars|
  {
    if bars == [] {
    } else {
      VolumesAtMost(bars[..|bars| - 1], most);
    }
  }

  /** The bars of the run, before and with the trigger. */
  function Before(bars: seq<BarInput>): seq<BarInput> { bars + [FLUSH_BAR] }

  function Buffer(bars: seq<BarInput>): seq<BarInput> { Before(bars) + [TRIGGER] }

  lemma HeavyTrigger(bars: seq<BarInput>)
    requires |bars| == 6 && forall i :: 0 <= i < 6 ==> bars[i].volume <= 300.0
    ensures var med := VolMedian(Buffer(bars), DEFAULTS); med.Some? ==> 1.5 * med.value <= 1000.0
  {
    hide Volumes, Median;
    var before := Before(bars);
    assert Buffer(bars)[..7] == before && Tail(before, 20) == before;
    VolumesAtMost(before, 300.0);
    MedianAtMost(Volumes(before), 300.0);
  }

  lemma TriggerGates(m: Fsm, bars: seq<BarInput>)
    requires |bars| == 6 && m.bars == Buffer(bars) && forall i :: 0 <= i < 6 ==> bars[i].volume <= 300.0
    ensures MayFire(m, TRIGGER, 99.5, Plan(Z1, DEFAULTS)) <==> DownTaper(Buffer(bars), DEFAULTS)
  {
    HeavyTrigger(bars);
    hide DownTaper, VolMedian, Buffer;
  }

  /** On the trigger bar everything but the taper holds, so the taper decides. */
  lemma TriggerStep(bars: seq<BarInput>, events: seq<Event>)
    requires |bars| == 6 && forall i :: 0 <= i < 6 ==> bars[i].volume <= 300.0
    ensures var g := Step(Flushed(bars, events), TRIGGER, Plan(Z1, DEFAULTS));
      if DownTaper(Buffer(bars), DEFAULTS) then g.state == Fired && g.fire.Some? && g.fire.value.stop == 99.15
      else g.state != Fired && g.fire.None?
  {
    hide TryFire, DownTaper, FindPivot, MayFire;
    var w, f := Plan(Z1, DEFAULTS), Flushed(bars, events);
    var m := Watch(f, TRIGGER, w);
    assert m == f.(bars := Buffer(bars), n := 8);
    TriggerGates(m, bars);
    var a := AdvanceG1(m, TRIGGER, w);
    assert a == TryFire(m, TRIGGER, UndercutReclaim, 99.5, None, w);
    if DownTaper(Buffer(bars), DEFAULTS) {
      TryFireSound(m, TRIGGER, UndercutReclaim, 99.5, None, w);
    } else {
      RefusedStays(m, TRIGGER, w);
      FindPivotFrame(m, TRIGGER, w);
      QuietPivot(m);
    }
  }

  lemma RefusedStays(m: Fsm, bar: BarInput, w: Plan)
    requires bar.close != 0.0 && !MayFire(m, bar, 99.5, w)
    ensures TryFire(m, bar, UndercutReclaim, 99.5, None, w) == m
  {
    hide MayFire;
  }

  lemma QuietPivot(m: Fsm)
    requires m.state == Confirming
    ensures FindPivot(m, TRIGGER, Plan(Z1, DEFAULTS)).state == Confirming
  {
    hide MaxHigh, IsMicroPivot;
  }

  /** The bars of the two runs: the six down bars trade `early` and then `late`. */
  function TaperRun(early: real, late: real): seq<BarInput> { SixDowns(early, late) + [FLUSH_BAR, TRIGGER] }

  lemma TaperRunIs(early: real, late: real)
    requires early <= 300.0 && late <= 300.0
    ensures Feedable(TaperRun(early, late))
    ensures var f := Run(TaperRun(early, late), Plan(Z1, DEFAULTS));
      if DownTaper(Buffer(SixDowns(early, late)), DEFAULTS) then f.state == Fired && f.fire.Some? && f.fire.value.stop == 99.15
      else f.state != Fired && f.fire.None?
  {
    hide Step, DownTaper;
    var w, six := Plan(Z1, DEFAULTS), SixDowns(early, late);
    StillArmed(six, 6);
    assert six[..6] == six;
    assert Before(six) + [TRIGGER] == TaperRun(early, late);
    hide Run;
    RunStep(six, FLUSH_BAR, w);
    FlushStep(six);
    RunStep(Before(six), TRIGGER, w);
    TriggerStep(six, Run(Before(six), w).events);
  }

  const SEVEN: seq<nat> := [0, 1, 2, 3, 4, 5, 6]

  /** The seven down bars: six above the zone and the flush. */
  lemma SevenDownBars(bars: seq<BarInput>)
    requires |bars| == 6 && forall i :: 0 <= i < 6 ==> bars[i].close < bars[i].open
    ensures DownBars(Buffer(bars), SEVEN)
  {
    var h := Buffer(bars);
    forall i | 0 <= i < |h| && h[i].close < h[i].open ensures i in SEVEN { assert SEVEN[i] == i; }
  }

  lemma SevenDowns(early: real, late: real)
    ensures DownTaper(Buffer(SixDowns(early, late)), DEFAULTS) <==> late + late + 100.0 < early + early + late
  {
    var h := Buffer(SixDowns(early, late));
    SevenDownBars(SixDowns(early, late));
    TaperIff(h, SEVEN, DEFAULTS);
    hide DownTaper, DownBars;
    assert SEVEN[4..] == [4, 5, 6] && SEVEN[1..4] == [1, 2, 3];
    TradedThree(h, 4);
    TradedThree(h, 1);
    hide Traded;
  }

  lemma TradedThree(h: seq<BarInput>, i: nat)
    requires i + 2 < |h|
    ensures Traded(h, [i, i + 1, i + 2]) == h[i].volume + h[i + 1].volume + h[i + 2].volume
  {
    assert [i, i + 1, i + 2][..2] == [i, i + 1] && [i, i + 1][..1] == [i] && [i][..0] == [];
    assert Traded(h, [i]) == h[i].volume;
    assert Traded(h, [i, i + 1]) == h[i].volume + h[i + 1].volume;
  }

  /** Falling volume into the low fires; rising volume into it does not. */
  lemma TaperDecides()
    ensures Feedable(TaperRun(300.0, 100.0)) && Feedable(TaperRun(100.0, 300.0))
    ensures Run(TaperRun(300.0, 100.0), Plan(Z1, DEFAULTS)).state == Fired
    ensures Run(TaperRun(100.0, 300.0), Plan(Z1, DEFAULTS)).fire == None
  {
    hide Run, DownTaper;
    TaperRunIs(300.0, 100.0);
    SevenDowns(300.0, 100.0);
    TaperRunIs(100.0, 300.0);
    SevenDowns(100.0, 300.0);
  }
}
