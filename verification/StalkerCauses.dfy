/** What one bar makes of a stalk, cause by cause: which bars end it, and what stands behind every event. */
module StalkerCauses {
  import opened Numbers
  import opened Optional
  import opened StalkerRules
  import opened StalkerPath

  /** In touch with the zone. */
  predicate InTouch(s: State) { s == Touched || s == Confirming }

  predicate TooWide(bar: BarInput, p: Params) { bar.spread.Some? && bar.spread.value > p.spreadFireCapBps }

  /** The close is under the knife line. */
  predicate Falls(bar: BarInput, w: Plan) {
    bar.atr5m.Some? && bar.close + w.p.knifeAtr * bar.atr5m.value < w.z.bottom
  }

  predicate PullsBack(bar: BarInput, p: Params) {
    (bar.atr5m.Some? && bar.close + p.pullbackStartAtr * bar.atr5m.value <= bar.hod) || bar.close < bar.svwap
  }

  /** The bar is halted or defensive, or one wide spread too many. */
  predicate Unfit(f: Fsm, bar: BarInput, p: Params) {
    bar.halted || bar.defensive || (TooWide(bar, p) && f.wide + 1 >= p.spreadAbortConsec)
  }

  predicate Late(bar: BarInput, p: Params) { bar.minute > p.lastEntryMin }

  /** Once in touch, the leg fails by its retrace, its close, or its closes below the zone. */
  predicate Breaks(f: Fsm, bar: BarInput, w: Plan) {
    && InTouch(f.state)
    && (|| (bar.retrace.Some? && bar.retrace.value > w.p.abortRetrace)
        || Falls(bar, w)
        || (bar.close < w.z.bottom && f.below + 1 >= w.p.knifeConsecCloses))
  }

  /** Not yet in touch, the bar reaches into the zone and closes under the knife line. */
  predicate GapsThrough(f: Fsm, bar: BarInput, w: Plan) {
    && (f.state == Stalking || (f.state == Armed && PullsBack(bar, w.p)))
    && bar.low <= w.z.top && Falls(bar, w)
  }

  lemma KnifeIs(bar: BarInput, w: Plan)
    ensures BelowKnife(bar, w) <==> Falls(bar, w)
    ensures Pulling(bar, w.p) <==> PullsBack(bar, w.p)
  {
  }

  /** A bar expires a live stalk exactly when it is fit but late, and aborts it exactly when it is unfit,
      or in time and the leg breaks or gaps through the zone. */
  lemma StopsIff(f: Fsm, bar: BarInput, w: Plan)
    requires bar.close != 0.0 && !Terminal(f.state)
    ensures var g := Step(f, bar, w);
      && (g.state == Expired <==> !Unfit(f, bar, w.p) && Late(bar, w.p))
      && (g.state == Aborted <==> Unfit(f, bar, w.p) || (!Late(bar, w.p) && (Breaks(f, bar, w) || GapsThrough(f, bar, w))))
  {
    KnifeIs(bar, w);
    hide BelowKnife, Pulling, Falls, PullsBack, AdvanceG1, AdvanceG2;
    var m := Watch(f, bar, w);
    assert m.state == Expired <==> !Unfit(f, bar, w.p) && Late(bar, w.p);
    assert m.state == Aborted <==> Unfit(f, bar, w.p) || (!Late(bar, w.p) && (Breaks(f, bar, w) || GapsThrough(f, bar, w)));
    if Engaged(m.state) { GrammarsStay(m, bar, w); }
  }

  /** The grammars end a stalk by a fire only. */
  lemma GrammarsStay(m: Fsm, bar: BarInput, w: Plan)
    requires bar.close != 0.0 && Engaged(m.state)
    ensures var g := AdvanceG2(AdvanceG1(m, bar, w), bar, w); g.state == Touched || g.state == Confirming || g.state == Fired
  {
    hide TryFire, Track, Stale, Reclaims, IsMicroPivot, MaxHigh, DecisiveUndercut;
    var t := Track(m.g1, bar, m.n, w);
    var f1 := m.(g1 := t);
    var f2 := if bar.low < w.z.referenceLow && m.state == Touched
              then Emit(f1, Confirming, FlushBelowReference, bar.minute) else f1;
    if t.Flush? { TryFireFrame(f2, bar, UndercutReclaim, t.low, None, w); }
    var a := AdvanceG1(m, bar, w);
    if a.g2.Pivot? {
      var g := a.g2;
      var l2 := if g.l2.Some? then Min(g.l2.value, bar.low) else bar.low;
      var l1 := if l2 < g.l1 then l2 else g.l1;
      TryFireFrame(a.(g2 := Pivot(l1, g.interimHigh, Some(l2))), bar, HigherLowBreak, Min(l1, l2), Some(l2), w);
    }
  }

  /** The bar neither ends the stalk nor comes late. */
  predicate GoesOn(f: Fsm, bar: BarInput, w: Plan) {
    !Unfit(f, bar, w.p) && !Late(bar, w.p) && !Breaks(f, bar, w) && !GapsThrough(f, bar, w)
  }

  /** Where a stalk that goes on stands after the bar: armed until a pullback, stalking until the bar
      reaches into the zone, then in touch or fired. */
  lemma ReachesIff(f: Fsm, bar: BarInput, w: Plan)
    requires bar.close != 0.0 && !Terminal(f.state) && GoesOn(f, bar, w)
    ensures var g := Step(f, bar, w);
      var stalks := f.state == Stalking || (f.state == Armed && PullsBack(bar, w.p));
      && (g.state == Armed <==> f.state == Armed && !PullsBack(bar, w.p))
      && (g.state == Stalking <==> stalks && bar.low > w.z.top)
      && (InTouch(g.state) || g.state == Fired <==> InTouch(f.state) || (stalks && bar.low <= w.z.top))
  {
    KnifeIs(bar, w);
    hide BelowKnife, Pulling, Falls, PullsBack, AdvanceG1, AdvanceG2;
    var m := Watch(f, bar, w);
    assert m.state == Armed <==> f.state == Armed && !PullsBack(bar, w.p);
    assert m.state == Stalking <==> (f.state == Stalking || (f.state == Armed && PullsBack(bar, w.p))) && bar.low > w.z.top;
    if Engaged(m.state) { GrammarsStay(m, bar, w); }
  }

  /** A stalk in touch keeps waiting for a grammar to see something exactly when no flush opens below the
      reference and no pivot is confirmed. */
  lemma ConfirmsIff(f: Fsm, bar: BarInput, w: Plan)
    requires bar.close != 0.0 && !Terminal(f.state) && GoesOn(f, bar, w) && f.g1.NoFlush? && f.g2.NoPivot?
    requires f.state == Touched
    ensures var g, bars := Step(f, bar, w), Observe(f, bar, w).bars;
      g.state == Touched <==> !(w.p.useReclaim && bar.low < w.z.referenceLow) && !(w.p.useHigherLow && IsMicroPivot(bars, w))
  {
    KnifeIs(bar, w);
    hide BelowKnife, Pulling, Falls, PullsBack, TryFire, Reclaims, IsMicroPivot, MaxHigh;
    var m := Watch(f, bar, w);
    assert m.state == Touched && m.g1 == f.g1 && m.g2 == f.g2 && m.bars == Observe(f, bar, w).bars;
    var a := AdvanceG1(m, bar, w);
    var t := Track(m.g1, bar, m.n, w);
    if t.Flush? && w.p.useReclaim {
      TryFireFrame(Emit(m.(g1 := t), Confirming, FlushBelowReference, bar.minute), bar, UndercutReclaim, t.low, None, w);
    }
    assert a.state == Touched <==> !(w.p.useReclaim && bar.low < w.z.referenceLow);
    assert a.g2 == m.g2 && a.bars == m.bars by { AdvanceG1Frame(m, bar, w); }
  }

  /** The two counters after the bar: wide spreads in a row, and closes below the zone in a row since
      the touch. */
  lemma CountersAre(f: Fsm, bar: BarInput, w: Plan)
    requires bar.close != 0.0 && !Terminal(f.state)
    ensures var g := Step(f, bar, w);
      && g.wide == (if bar.halted || bar.defensive then f.wide else if TooWide(bar, w.p) then f.wide + 1 else 0)
      && g.below == (if Unfit(f, bar, w.p) || Late(bar, w.p) || !InTouch(f.state) || Falls(bar, w)
                        || (bar.retrace.Some? && bar.retrace.value > w.p.abortRetrace) then f.below
                     else if bar.close < w.z.bottom then f.below + 1 else 0)
  {
    KnifeIs(bar, w);
    hide BelowKnife, Pulling, Falls, PullsBack, AdvanceG1, AdvanceG2;
    var m := Watch(f, bar, w);
    AdvanceG1Frame(m, bar, w);
    AdvanceG2Frame(AdvanceG1(m, bar, w), bar, w);
  }

  // ---------------------------------------------------------------- events

  /** What stands behind an event that a bar adds to a stalk in state `f`. */
  predicate Caused(e: Event, f: Fsm, bar: BarInput, w: Plan) {
    && e.minute == bar.minute
    && match e.reason
       case HaltedBar => e.to == Aborted && bar.halted
       case DefensiveEvent => e.to == Aborted && !bar.halted && bar.defensive
       case SpreadBlowout => e.to == Aborted && TooWide(bar, w.p) && f.wide + 1 >= w.p.spreadAbortConsec
       case WindowClosed => e.to == Expired && Late(bar, w.p)
       case DeepRetrace => e.to == Aborted && InTouch(f.state) && bar.retrace.Some? && bar.retrace.value > w.p.abortRetrace
       case ZoneBreakKnife => e.to == Aborted && Falls(bar, w)
       case ZoneBreakCloses =>
         e.to == Aborted && InTouch(f.state) && bar.close < w.z.bottom && f.below + 1 >= w.p.knifeConsecCloses
       case PullbackStarted => e.from == Armed && e.to == Stalking && PullsBack(bar, w.p)
       case ZoneTouched => e.from == Stalking && e.to == Touched && bar.low <= w.z.top
       case FlushBelowReference => e.from == Touched && e.to == Confirming && w.p.useReclaim && bar.low < w.z.referenceLow
       case MicroPivotLow => e.from == Touched && e.to == Confirming && w.p.useHigherLow
       case TriggerReclaim => e.to == Fired && w.p.useReclaim && bar.close > w.z.referenceLow
       case TriggerHigherLow => e.to == Fired && w.p.useHigherLow && bar.close > bar.open
  }

  predicate AllCaused(n: nat, events: seq<Event>, f: Fsm, bar: BarInput, w: Plan) {
    forall i :: n <= i < |events| ==> Caused(events[i], f, bar, w)
  }

  lemma WatchCauses(f: Fsm, bar: BarInput, w: Plan)
    requires !Terminal(f.state)
    ensures AllCaused(|f.events|, Watch(f, bar, w).events, f, bar, w)
  {
    KnifeIs(bar, w);
    hide BelowKnife, Pulling, Falls, PullsBack;
    var f0 := Observe(f, bar, w);
    var f1 := Screen(f0, bar, w);
    assert AllCaused(|f.events|, f1.events, f, bar, w);
    if !Terminal(f1.state) {
      assert f1.events == f.events && f1.state == f.state && f1.below == f.below;
      hide Screen;
      var f2 := Knife(f1, bar, w);
      assert AllCaused(|f.events|, f2.events, f, bar, w);
    }
  }

  lemma OneMoreCaused(n: nat, events: seq<Event>, e: Event, f: Fsm, bar: BarInput, w: Plan)
    requires AllCaused(n, events, f, bar, w) && Caused(e, f, bar, w)
    ensures AllCaused(n, events + [e], f, bar, w)
  {
    hide Caused;
  }

  lemma ReclaimCauses(n: nat, m: Fsm, f: Fsm, bar: BarInput, w: Plan)
    requires bar.close != 0.0 && AllCaused(n, m.events, f, bar, w)
    ensures AllCaused(n, AdvanceG1(m, bar, w).events, f, bar, w)
  {
    hide AllCaused, MayFire, TargetFor, Track, Stale;
    if w.p.useReclaim {
      var t := Track(m.g1, bar, m.n, w);
      var e := Event(bar.minute, m.state, Confirming, FlushBelowReference);
      var flushes := bar.low < w.z.referenceLow && m.state == Touched;
      if flushes { OneMoreCaused(n, m.events, e, f, bar, w); }
      var events := if flushes then m.events + [e] else m.events;
      var state := if flushes then Confirming else m.state;
      var fired := Event(bar.minute, state, Fired, TriggerReclaim);
      if bar.close > w.z.referenceLow { OneMoreCaused(n, events, fired, f, bar, w); }
    }
  }

  lemma BreakCauses(n: nat, m: Fsm, f: Fsm, bar: BarInput, w: Plan)
    requires bar.close != 0.0 && AllCaused(n, m.events, f, bar, w)
    ensures AllCaused(n, AdvanceG2(m, bar, w).events, f, bar, w)
  {
    hide AllCaused, MayFire, TargetFor, IsMicroPivot, MaxHigh, DecisiveUndercut;
    if w.p.useHigherLow {
      if m.state == Touched { OneMoreCaused(n, m.events, Event(bar.minute, Touched, Confirming, MicroPivotLow), f, bar, w); }
      if bar.close > bar.open { OneMoreCaused(n, m.events, Event(bar.minute, m.state, Fired, TriggerHigherLow), f, bar, w); }
    }
  }

  /** Every event a bar adds has its cause. */
  lemma StepCauses(f: Fsm, bar: BarInput, w: Plan)
    requires bar.close != 0.0
    ensures AllCaused(|f.events|, Step(f, bar, w).events, f, bar, w)
  {
    hide Watch, AdvanceG1, AdvanceG2, Caused;
    if !Terminal(f.state) {
      WatchCauses(f, bar, w);
      var m := Watch(f, bar, w);
      ReclaimCauses(|f.events|, m, f, bar, w);
      BreakCauses(|f.events|, AdvanceG1(m, bar, w), f, bar, w);
    }
  }

  /** Bar `k` of the run is the one behind event `n`. */
  predicate CausedBy(bars: seq<BarInput>, w: Plan, k: nat, e: Event)
    requires Feedable(bars)
  {
    k < |bars| && Caused(e, Run(bars[..k], w), bars[k], w)
  }

  lemma CausedStill(bars: seq<BarInput>, w: Plan, k: nat, e: Event)
    requires Feedable(bars) && bars != [] && CausedBy(bars[..|bars| - 1], w, k, e)
    ensures CausedBy(bars, w, k, e)
  {
    hide Run, Caused;
    assert bars[..|bars| - 1][..k] == bars[..k];
  }

  lemma LastCaused(init: seq<BarInput>, bar: BarInput, w: Plan, n: nat)
    requires Feedable(init + [bar]) && Feedable(init)
    requires |Run(init, w).events| <= n < |Run(init + [bar], w).events|
    ensures CausedBy(init + [bar], w, |init|, Run(init + [bar], w).events[n])
  {
    hide Step, Run, Caused;
    assert (init + [bar])[|init|] == bar;
    RunStep(init, bar, w);
    StepCauses(Run(init, w), bar, w);
    assert (init + [bar])[..|init|] == init;
  }

  lemma EventsGrow(init: seq<BarInput>, bar: BarInput, w: Plan)
    requires Feedable(init + [bar]) && Feedable(init)
    ensures Run(init, w).events <= Run(init + [bar], w).events
  {
    hide Step, Run;
    assert (init + [bar])[|init|] == bar;
    RunStep(init, bar, w);
    StepExtends(Run(init, w), bar, w);
  }

  lemma NothingHappened(w: Plan)
    ensures Run([], w).events == []
  {
  }

  /** Every event of every run has its cause in one of the bars fed. */
  lemma {:induction false} RunCauses(bars: seq<BarInput>, w: Plan, n: nat)
    requires Feedable(bars) && n < |Run(bars, w).events|
    ensures exists k: nat :: CausedBy(bars, w, k, Run(bars, w).events[n])
    decreases |bars|
  {
    hide Run, CausedBy;
    if bars == [] {
      NothingHappened(w);
      assert false;
    } else {
      var k := |bars| - 1;
      var init, bar := bars[..k], bars[k];
      assert bars == init + [bar];
      EventsGrow(init, bar, w);
      if n < |Run(init, w).events| {
        RunCauses(init, w, n);
        var i: nat :| CausedBy(init, w, i, Run(init, w).events[n]);
        CausedStill(bars, w, i, Run(init, w).events[n]);
      } else {
        LastCaused(init, bar, w, n);
      }
    }
  }
}
