/**
 The floor hunter's confirmation engine: what one completed bar does to a stalk.  A stalk
 waits for a pullback, then for price to touch an approved zone, and there watches two
 trigger grammars side by side until one fires, the floor breaks, or the window closes.
 */
module StalkerRules {
  import opened Numbers
  import opened Optional

  datatype State = Armed | Stalking | Touched | Confirming | Fired | Aborted | Expired

  datatype Reason =
    | PullbackStarted | ZoneTouched | FlushBelowReference | MicroPivotLow
    | TriggerReclaim | TriggerHigherLow
    | HaltedBar | DefensiveEvent | SpreadBlowout | WindowClosed | DeepRetrace
    | ZoneBreakKnife | ZoneBreakCloses

  datatype Grammar = UndercutReclaim | HigherLowBreak

  datatype Params = Params(
    useReclaim: bool, useHigherLow: bool,
    pullbackStartAtr: real,
    flushMinAtr: real, flushMaxAtr: real, reclaimMaxBars: nat, reclaimBodyMin: real,
    volMedianMult: real, volMedianWindow: nat, taperBars: nat,
    microPivotK: nat, hlUndercutResetAtr: real,
    knifeAtr: real, knifeConsecCloses: nat,
    stopBufferAtr: real, t1RMultiple: real, minRr: real, minTargetSpreadMult: real,
    entryStartMin: int, lastEntryMin: int,
    spreadFireCapBps: real, spreadAbortConsec: nat, abortRetrace: real,
    maxStopPct: real, minStopPct: real)

  datatype Zone = Zone(top: real, bottom: real, referenceLow: real, maxChase: real)

  /** A completed one-minute bar with its causal context; None stands for NaN. */
  datatype BarInput = BarInput(
    minute: int, open: real, high: real, low: real, close: real, volume: real,
    svwap: real, atr5m: Option<real>, hod: real, retrace: Option<real>, spread: Option<real>,
    halted: bool, defensive: bool)

  datatype Event = Event(minute: int, from: State, to: State, reason: Reason)

  datatype FireIntent = FireIntent(
    grammar: Grammar, minute: int, refClose: real, stop: real, t1: real, stopDist: real, rr: real,
    flushLow: Option<real>, higherLow: Option<real>, zoneTop: real, zoneBottom: real)

  /** The flush below the reference low: bar number it opened at, lowest low, volume to beat. */
  datatype Flush = NoFlush | Flush(started: nat, low: real, vol: real)

  /** The higher-low episode: reference low L1, interim high, lowest low since (None before any). */
  datatype Pivot = NoPivot | Pivot(l1: real, interimHigh: real, l2: Option<real>)

  datatype Fsm = Fsm(
    state: State, events: seq<Event>, fire: Option<FireIntent>,
    bars: seq<BarInput>, g1: Flush, g2: Pivot,
    below: nat, wide: nat, n: nat)

  const START: Fsm := Fsm(Armed, [], None, [], NoFlush, NoPivot, 0, 0, 0)

  datatype Plan = Plan(z: Zone, p: Params)

  // ---------------------------------------------------------------- helpers

  predicate Terminal(s: State) { s == Fired || s == Aborted || s == Expired }

  /** In contact with the zone. */
  predicate Engaged(s: State) { s == Touched || s == Confirming }

  function Emit(f: Fsm, to: State, reason: Reason, minute: int): Fsm {
    f.(events := f.events + [Event(minute, f.state, to, reason)], state := to)
  }

  /** How many bars are kept. */
  function Capacity(p: Params): nat {
    MaxNat(MaxNat(p.volMedianWindow, 2 * p.taperBars + 2), 2 * p.microPivotK + 3) + 5
  }

  function Tail<T>(s: seq<T>, n: nat): seq<T> { if |s| <= n then s else s[|s| - n..] }

  function Volumes(bars: seq<BarInput>): seq<real> {
    if bars == [] then [] else Volumes(bars[..|bars| - 1]) + [bars[|bars| - 1].volume]
  }

  function Insert(x: real, xs: seq<real>): seq<real> {
    if xs == [] || x <= xs[0] then [x] + xs else [xs[0]] + Insert(x, xs[1..])
  }

  function Sorted(xs: seq<real>): (r: seq<real>)
    ensures |r| == |xs|
  {
    if xs == [] then [] else InsertLength(xs[0], Sorted(xs[1..])); Insert(xs[0], Sorted(xs[1..]))
  }

  lemma InsertLength(x: real, xs: seq<real>)
    ensures |Insert(x, xs)| == |xs| + 1
  {
  }

  /** The middle value, or the mean of the two middle values. */
  function Median(xs: seq<real>): real
    requires xs != []
  {
    var s, m := Sorted(xs), |xs| / 2;
    if |xs| % 2 == 1 then s[m] else (s[m - 1] + s[m]) / 2.0
  }

  /** Median volume of the bars before the last one; None without any. */
  function VolMedian(bars: seq<BarInput>, p: Params): Option<real> {
    if |bars| <= 1 then None
    else
      var vols := Volumes(Tail(bars[..|bars| - 1], p.volMedianWindow));
      if vols == [] then None else Some(Median(vols))
  }

  function DownVolumes(bars: seq<BarInput>): seq<real> {
    if bars == [] then []
    else
      var b := bars[|bars| - 1];
      DownVolumes(bars[..|bars| - 1]) + (if b.close < b.open then [b.volume] else [])
  }

  /** The last down bars traded less than the down bars before them. */
  predicate DownTaper(bars: seq<BarInput>, p: Params) {
    var downs := DownVolumes(bars);
    var t, d := p.taperBars, |downs|;
    d < 2 * t || (if t == 0 then Sum(downs) < 0.0 else Sum(downs[d - t..]) < Sum(downs[d - 2 * t..d - t]))
  }

  // ---------------------------------------------------------------- the trigger

  function BodyShare(b: BarInput): real {
    if b.high - b.low > 0.0 then (b.close - b.open) / (b.high - b.low) else 0.0
  }

  function StopPct(dist: real, ref: real): real
    requires ref != 0.0
  {
    dist / ref * 100.0
  }

  function RewardToRisk(t1: real, ref: real, dist: real): real
    requires dist != 0.0
  {
    (t1 - ref) / dist
  }

  function TargetBps(t1: real, ref: real): real
    requires ref != 0.0
  {
    (t1 - ref) / ref * 10000.0
  }

  /** Gates on the trigger bar itself. */
  predicate BarGates(f: Fsm, bar: BarInput, w: Plan) {
    && w.p.entryStartMin <= bar.minute <= w.p.lastEntryMin
    && bar.close <= w.z.maxChase
    && bar.close > bar.open && BodyShare(bar) >= w.p.reclaimBodyMin
    && (var med := VolMedian(f.bars, w.p);
        med.Some? && med.value > 0.0 ==> bar.volume >= w.p.volMedianMult * med.value)
    && DownTaper(f.bars, w.p)
  }

  datatype Target = Target(t1: real, rr: real)

  /** First target at the VWAP or a multiple of the risk, lifted to the reward floor. */
  function TargetFor(bar: BarInput, dist: real, p: Params): Target
    requires dist != 0.0
  {
    var t1 := Max(bar.svwap, bar.close + p.t1RMultiple * dist);
    var rr := RewardToRisk(t1, bar.close, dist);
    if rr < p.minRr - 0.000000001 then Target(bar.close + p.minRr * dist, p.minRr) else Target(t1, rr)
  }

  predicate SpreadGate(bar: BarInput, t: Target, p: Params)
    requires bar.close != 0.0
  {
    bar.spread.Some? ==>
      && bar.spread.value <= p.spreadFireCapBps
      && TargetBps(t.t1, bar.close) >= p.minTargetSpreadMult * bar.spread.value
  }

  function StopFor(bar: BarInput, anchor: real, p: Params): real
    requires bar.atr5m.Some?
  {
    anchor - p.stopBufferAtr * bar.atr5m.value
  }

  /** Whether a trigger with this stop anchor passes every gate. */
  predicate MayFire(f: Fsm, bar: BarInput, anchor: real, w: Plan)
    requires bar.close != 0.0
  {
    && BarGates(f, bar, w)
    && bar.atr5m.Some?
    && (var dist := bar.close - StopFor(bar, anchor, w.p);
        && dist > 0.0
        && w.p.minStopPct <= StopPct(dist, bar.close) <= w.p.maxStopPct
        && SpreadGate(bar, TargetFor(bar, dist, w.p), w.p))
  }

  function TryFire(f: Fsm, bar: BarInput, grammar: Grammar, anchor: real, higherLow: Option<real>, w: Plan): Fsm
    requires bar.close != 0.0
  {
    if !MayFire(f, bar, anchor, w) then f
    else
      var stop := StopFor(bar, anchor, w.p);
      var dist := bar.close - stop;
      var t := TargetFor(bar, dist, w.p);
      var flushLow := if higherLow.None? && f.g1.Flush? then Some(f.g1.low) else None;
      var intent := FireIntent(grammar, bar.minute, bar.close, stop, t.t1, dist, t.rr,
                               flushLow, higherLow, w.z.top, w.z.bottom);
      Emit(f.(fire := Some(intent)), Fired,
           if grammar.UndercutReclaim? then TriggerReclaim else TriggerHigherLow, bar.minute)
  }

  // ---------------------------------------------------------------- stages of one step

  function Observe(f: Fsm, bar: BarInput, w: Plan): Fsm {
    f.(bars := Tail(f.bars + [bar], Capacity(w.p)), n := f.n + 1)
  }

  predicate WideSpread(bar: BarInput, p: Params) { bar.spread.Some? && bar.spread.value > p.spreadFireCapBps }

  /** Aborts that hold in any live state. */
  function Screen(f: Fsm, bar: BarInput, w: Plan): Fsm {
    if bar.halted then Emit(f, Aborted, HaltedBar, bar.minute)
    else if bar.defensive then Emit(f, Aborted, DefensiveEvent, bar.minute)
    else
      var f1 := f.(wide := if WideSpread(bar, w.p) then f.wide + 1 else 0);
      if WideSpread(bar, w.p) && f1.wide >= w.p.spreadAbortConsec then Emit(f1, Aborted, SpreadBlowout, bar.minute)
      else if bar.minute > w.p.lastEntryMin then Emit(f1, Expired, WindowClosed, bar.minute)
      else if Engaged(f.state) && bar.retrace.Some? && bar.retrace.value > w.p.abortRetrace then
        Emit(f1, Aborted, DeepRetrace, bar.minute)
      else f1
  }

  predicate BelowKnife(bar: BarInput, w: Plan) {
    bar.atr5m.Some? && bar.close < w.z.bottom - w.p.knifeAtr * bar.atr5m.value
  }

  /** A failed floor is a breakdown. */
  function Knife(f: Fsm, bar: BarInput, w: Plan): Fsm {
    if !Engaged(f.state) then f
    else if BelowKnife(bar, w) then Emit(f, Aborted, ZoneBreakKnife, bar.minute)
    else if bar.close < w.z.bottom then
      var f1 := f.(below := f.below + 1);
      if f1.below >= w.p.knifeConsecCloses then Emit(f1, Aborted, ZoneBreakCloses, bar.minute) else f1
    else f.(below := 0)
  }

  predicate Pulling(bar: BarInput, p: Params) {
    || (bar.atr5m.Some? && bar.close <= bar.hod - p.pullbackStartAtr * bar.atr5m.value)
    || bar.close < bar.svwap
  }

  /** Pullback, then first touch; a gap through the zone is already a knife. */
  function Approach(f: Fsm, bar: BarInput, w: Plan): Fsm {
    var f1 := if f.state == Armed && Pulling(bar, w.p) then Emit(f, Stalking, PullbackStarted, bar.minute) else f;
    if f1.state == Stalking && bar.low <= w.z.top then
      var f2 := Emit(f1, Touched, ZoneTouched, bar.minute);
      if BelowKnife(bar, w) then Emit(f2, Aborted, ZoneBreakKnife, bar.minute) else f2
    else f1
  }

  /** Flush bookkeeping for one bar, before staleness is looked at. */
  function Track(g: Flush, bar: BarInput, n: nat, w: Plan): Flush {
    if bar.low >= w.z.referenceLow then g
    else if g.NoFlush? then Flush(n, bar.low, bar.volume)
    else if bar.low < g.low then Flush(g.started, bar.low, Max(g.vol, bar.volume))
    else g
  }

  predicate Stale(g: Flush, n: nat, p: Params) { g.Flush? && n - g.started > p.reclaimMaxBars }

  function Depth(g: Flush, bar: BarInput, z: Zone): real
    requires g.Flush?
  {
    if bar.atr5m.Some? && bar.atr5m.value > 0.0 then (z.referenceLow - g.low) / bar.atr5m.value else 0.0
  }

  /** The close is back above the reference, out of a flush of the right depth, on volume. */
  predicate Reclaims(g: Flush, bar: BarInput, w: Plan)
    requires g.Flush?
  {
    && bar.close > w.z.referenceLow
    && w.p.flushMinAtr <= Depth(g, bar, w.z) <= w.p.flushMaxAtr
    && bar.volume >= g.vol
  }

  function AdvanceG1(f: Fsm, bar: BarInput, w: Plan): Fsm
    requires bar.close != 0.0
  {
    if !w.p.useReclaim then f
    else
      var g := Track(f.g1, bar, f.n, w);
      var f1 := f.(g1 := g);
      var f2 := if bar.low < w.z.referenceLow && f.state == Touched
                then Emit(f1, Confirming, FlushBelowReference, bar.minute) else f1;
      if g.NoFlush? then f2
      else if Stale(g, f.n, w.p) then f2.(g1 := NoFlush)
      else if Reclaims(g, bar, w) then TryFire(f2, bar, UndercutReclaim, g.low, None, w)
      else f2
  }

  function MaxHigh(bars: seq<BarInput>): (m: real)
    requires bars != []
    ensures forall i :: 0 <= i < |bars| ==> bars[i].high <= m
    ensures exists i :: 0 <= i < |bars| && bars[i].high == m
  {
    if |bars| == 1 then bars[0].high else Max(MaxHigh(bars[..|bars| - 1]), bars[|bars| - 1].high)
  }

  function MinLow(bars: seq<BarInput>): (m: real)
    requires bars != []
    ensures forall i :: 0 <= i < |bars| ==> m <= bars[i].low
    ensures exists i :: 0 <= i < |bars| && bars[i].low == m
  {
    if |bars| == 1 then bars[0].low else Min(MinLow(bars[..|bars| - 1]), bars[|bars| - 1].low)
  }

  /** The bar `k` before the last is strictly lower than the `k` bars on either side of it,
      and printed inside the zone. */
  predicate IsMicroPivot(bars: seq<BarInput>, w: Plan) {
    var k, m := w.p.microPivotK, |bars|;
    && k >= 1 && m >= 2 * k + 1
    && (forall i :: m - 2 * k - 1 <= i < m && i != m - k - 1 ==> bars[m - k - 1].low < bars[i].low)
    && bars[m - k - 1].low <= w.z.top
  }

  function FindPivot(f: Fsm, bar: BarInput, w: Plan): Fsm {
    if !IsMicroPivot(f.bars, w) then f
    else
      var k, m := w.p.microPivotK, |f.bars|;
      var f1 := f.(g2 := Pivot(f.bars[m - k - 1].low, MaxHigh(f.bars[m - k..]), None));
      if f.state == Touched then Emit(f1, Confirming, MicroPivotLow, bar.minute) else f1
  }

  /** Lower than the pivot by more than noise. */
  predicate DecisiveUndercut(l2: real, l1: real, bar: BarInput, p: Params) {
    bar.atr5m.Some? && l2 < l1 - p.hlUndercutResetAtr * bar.atr5m.value
  }

  function FollowPivot(f: Fsm, bar: BarInput, w: Plan): Fsm
    requires f.g2.Pivot? && bar.close != 0.0
  {
    var g := f.g2;
    var l2 := if g.l2.Some? then Min(g.l2.value, bar.low) else bar.low;
    if DecisiveUndercut(l2, g.l1, bar, w.p) then f.(g2 := NoPivot)
    else
      var l1 := if l2 < g.l1 then l2 else g.l1;
      var f1 := f.(g2 := Pivot(l1, g.interimHigh, Some(l2)));
      var f2 := if bar.close > g.interimHigh && bar.close > bar.open && l2 >= l1 - 0.000000000001
                then TryFire(f1, bar, HigherLowBreak, Min(l1, l2), Some(l2), w) else f1;
      f2.(g2 := Pivot(l1, Max(g.interimHigh, bar.high), Some(l2)))
  }

  function AdvanceG2(f: Fsm, bar: BarInput, w: Plan): Fsm
    requires bar.close != 0.0
  {
    if !w.p.useHigherLow || !Engaged(f.state) then f
    else if f.g2.NoPivot? then FindPivot(f, bar, w)
    else FollowPivot(f, bar, w)
  }

  /** What a bar does before the grammars look at it. */
  function Watch(f: Fsm, bar: BarInput, w: Plan): Fsm {
    var f1 := Screen(Observe(f, bar, w), bar, w);
    if Terminal(f1.state) then f1
    else
      var f2 := Knife(f1, bar, w);
      if Terminal(f2.state) then f2 else Approach(f2, bar, w)
  }

  function Step(f: Fsm, bar: BarInput, w: Plan): Fsm
    requires bar.close != 0.0
  {
    if Terminal(f.state) then f
    else
      var m := Watch(f, bar, w);
      if Engaged(m.state) then AdvanceG2(AdvanceG1(m, bar, w), bar, w) else m
  }

  /** Bars the engine can be fed: it divides by the close of a trigger bar. */
  predicate Feedable(bars: seq<BarInput>) { forall i :: 0 <= i < |bars| ==> bars[i].close != 0.0 }

  function Run(bars: seq<BarInput>, w: Plan): Fsm
    requires Feedable(bars)
    decreases |bars|
  {
    if bars == [] then START else Step(Run(bars[..|bars| - 1], w), bars[|bars| - 1], w)
  }
}
