/** What each stage of a step may change, and the path of states a run takes. */
module StalkerPath {
  import opened Numbers
  import opened Optional
  import opened StalkerRules

  function Rank(s: State): nat {
    match s
    case Armed => 0
    case Stalking => 1
    case Touched => 2
    case Confirming => 3
    case _ => 4
  }

  /** Only Armed, Stalking and Touched states have nothing under watch. */
  predicate Idle(f: Fsm) {
    (Rank(f.state) < 3 ==> f.g1.NoFlush? && f.g2.NoPivot?) && (Rank(f.state) < 2 ==> f.below == 0)
  }

  /** The events are one connected path from Armed to the present state that only moves
      forward, and a fire is recorded exactly in the state Fired. */
  predicate Path(events: seq<Event>, state: State) {
    && (if events == [] then state == Armed else events[0].from == Armed && events[|events| - 1].to == state)
    && (forall i :: 0 <= i < |events| - 1 ==> events[i + 1].from == events[i].to)
    && (forall i :: 0 <= i < |events| ==> Rank(events[i].from) < Rank(events[i].to))
    && (forall i :: 0 <= i < |events| && events[i].to == Fired ==> events[i].from == Confirming)
    && |events| <= Rank(state)
  }

  predicate FireMatches(f: Fsm) { f.fire.Some? <==> f.state == Fired }

  predicate PathOk(f: Fsm) { Path(f.events, f.state) && FireMatches(f) }

  /** One event more keeps the path, if it moves forward. */
  lemma EmitKeepsPath(f: Fsm, to: State, reason: Reason, minute: int)
    requires Path(f.events, f.state)
    requires Rank(f.state) < Rank(to)
    requires to == Fired ==> f.state == Confirming
    ensures var g := Emit(f, to, reason, minute); Path(g.events, g.state) && f.events <= g.events
  {
    var g := Emit(f, to, reason, minute);
    var e := g.events;
    assert forall i :: 0 <= i < |f.events| ==> e[i] == f.events[i];
  }

  /** Everything but state, events and counters is as before. */
  predicate SameWatch(f: Fsm, g: Fsm) {
    g.bars == f.bars && g.n == f.n && g.g1 == f.g1 && g.g2 == f.g2 && g.fire == f.fire
  }

  // ---------------------------------------------------------------- one stage at a time

  lemma ScreenFrame(f: Fsm, bar: BarInput, w: Plan)
    ensures var g := Screen(f, bar, w);
      && SameWatch(f, g) && g.below == f.below && f.events <= g.events
      && ((g.state == f.state && g.events == f.events) || g.state == Aborted || g.state == Expired)
  {
  }

  lemma KnifeFrame(f: Fsm, bar: BarInput, w: Plan)
    ensures var g := Knife(f, bar, w);
      && SameWatch(f, g) && g.wide == f.wide && f.events <= g.events
      && ((g.state == f.state && g.events == f.events) || g.state == Aborted)
  {
    hide BelowKnife;
  }

  lemma ApproachFrame(f: Fsm, bar: BarInput, w: Plan)
    ensures var g := Approach(f, bar, w);
      && SameWatch(f, g) && g.wide == f.wide && g.below == f.below && f.events <= g.events
      && ((g.state == f.state && g.events == f.events)
          || (Rank(f.state) < 2 && (g.state == Stalking || g.state == Touched || g.state == Aborted)))
  {
    hide BelowKnife, Pulling;
  }

  lemma TryFireFrame(f: Fsm, bar: BarInput, grammar: Grammar, anchor: real, higherLow: Option<real>, w: Plan)
    requires bar.close != 0.0
    ensures var g := TryFire(f, bar, grammar, anchor, higherLow, w);
      && f.events <= g.events
      && g == f.(fire := g.fire, state := g.state, events := g.events)
      && (g == f || (g.state == Fired && g.fire.Some?))
  {
    hide MayFire, StopFor, TargetFor;
  }

  lemma AdvanceG1Frame(f: Fsm, bar: BarInput, w: Plan)
    requires bar.close != 0.0
    ensures var g := AdvanceG1(f, bar, w);
      && f.events <= g.events
      && g == f.(g1 := g.g1, fire := g.fire, state := g.state, events := g.events)
  {
    hide TryFire, Track, Stale, Reclaims;
    var g := Track(f.g1, bar, f.n, w);
    var f1 := f.(g1 := g);
    var f2 := if bar.low < w.z.referenceLow && f.state == Touched
              then Emit(f1, Confirming, FlushBelowReference, bar.minute) else f1;
    if g.Flush? {
      TryFireFrame(f2, bar, UndercutReclaim, g.low, None, w);
    }
  }

  lemma FindPivotFrame(f: Fsm, bar: BarInput, w: Plan)
    ensures var g := FindPivot(f, bar, w);
      && f.events <= g.events
      && g == f.(g2 := g.g2, state := g.state, events := g.events)
  {
    hide MaxHigh;
  }

  lemma FollowPivotFrame(f: Fsm, bar: BarInput, w: Plan)
    requires f.g2.Pivot? && bar.close != 0.0
    ensures var g := FollowPivot(f, bar, w);
      && f.events <= g.events
      && g == f.(g2 := g.g2, fire := g.fire, state := g.state, events := g.events)
  {
    hide TryFire, DecisiveUndercut;
    var g := f.g2;
    var l2 := if g.l2.Some? then Min(g.l2.value, bar.low) else bar.low;
    var l1 := if l2 < g.l1 then l2 else g.l1;
    TryFireFrame(f.(g2 := Pivot(l1, g.interimHigh, Some(l2))), bar, HigherLowBreak, Min(l1, l2), Some(l2), w);
  }

  lemma AdvanceG2Frame(f: Fsm, bar: BarInput, w: Plan)
    requires bar.close != 0.0
    ensures var g := AdvanceG2(f, bar, w);
      && f.events <= g.events
      && g == f.(g2 := g.g2, fire := g.fire, state := g.state, events := g.events)
  {
    hide FindPivot, FollowPivot;
    if f.g2.NoPivot? { FindPivotFrame(f, bar, w); } else { FollowPivotFrame(f, bar, w); }
  }

  /** Before the grammars: the bar is counted and nothing under watch changes. */
  lemma WatchFrame(f: Fsm, bar: BarInput, w: Plan)
    ensures var m := Watch(f, bar, w);
      && SameWatch(Observe(f, bar, w), m) && f.events <= m.events
      && (f.state != Fired ==> m.state != Fired)
  {
    hide Screen, Knife, Approach;
    var f0 := Observe(f, bar, w);
    ScreenFrame(f0, bar, w);
    var f1 := Screen(f0, bar, w);
    KnifeFrame(f1, bar, w);
    ApproachFrame(Knife(f1, bar, w), bar, w);
  }

  /** A step only adds events. */
  lemma StepExtends(f: Fsm, bar: BarInput, w: Plan)
    requires bar.close != 0.0
    ensures f.events <= Step(f, bar, w).events
  {
    hide Watch, AdvanceG1, AdvanceG2;
    WatchFrame(f, bar, w);
    var m := Watch(f, bar, w);
    AdvanceG1Frame(m, bar, w);
    AdvanceG2Frame(AdvanceG1(m, bar, w), bar, w);
  }

  // ---------------------------------------------------------------- the path

  /** A state the engine can be in between bars. */
  predicate Sound(f: Fsm) { PathOk(f) && Idle(f) }

  lemma ScreenPath(f: Fsm, bar: BarInput, w: Plan)
    requires Sound(f) && !Terminal(f.state)
    ensures Sound(Screen(f, bar, w))
  {
    hide Path, WideSpread;
    var f1 := f.(wide := if WideSpread(bar, w.p) then f.wide + 1 else 0);
    EmitKeepsPath(f, Aborted, HaltedBar, bar.minute);
    EmitKeepsPath(f, Aborted, DefensiveEvent, bar.minute);
    EmitKeepsPath(f1, Aborted, SpreadBlowout, bar.minute);
    EmitKeepsPath(f1, Expired, WindowClosed, bar.minute);
    EmitKeepsPath(f1, Aborted, DeepRetrace, bar.minute);
  }

  lemma KnifePath(f: Fsm, bar: BarInput, w: Plan)
    requires Sound(f) && !Terminal(f.state)
    ensures Sound(Knife(f, bar, w))
  {
    hide Path, BelowKnife;
    EmitKeepsPath(f, Aborted, ZoneBreakKnife, bar.minute);
    EmitKeepsPath(f.(below := f.below + 1), Aborted, ZoneBreakCloses, bar.minute);
  }

  lemma ApproachPath(f: Fsm, bar: BarInput, w: Plan)
    requires Sound(f) && !Terminal(f.state)
    ensures Sound(Approach(f, bar, w))
  {
    hide Path, BelowKnife, Pulling;
    if f.state == Armed { EmitKeepsPath(f, Stalking, PullbackStarted, bar.minute); }
    var f1 := if f.state == Armed && Pulling(bar, w.p) then Emit(f, Stalking, PullbackStarted, bar.minute) else f;
    if f1.state == Stalking {
      EmitKeepsPath(f1, Touched, ZoneTouched, bar.minute);
      EmitKeepsPath(Emit(f1, Touched, ZoneTouched, bar.minute), Aborted, ZoneBreakKnife, bar.minute);
    }
  }

  lemma WatchPath(f: Fsm, bar: BarInput, w: Plan)
    requires Sound(f) && !Terminal(f.state)
    ensures Sound(Watch(f, bar, w))
  {
    hide Path, Screen, Knife, Approach, Tail;
    var f0 := Observe(f, bar, w);
    assert Sound(f0) && !Terminal(f0.state);
    ScreenPath(f0, bar, w);
    var f1 := Screen(f0, bar, w);
    if !Terminal(f1.state) {
      KnifePath(f1, bar, w);
      var f2 := Knife(f1, bar, w);
      if !Terminal(f2.state) { ApproachPath(f2, bar, w); }
    }
  }

  /** A trigger is only ever tried in Confirming. */
  lemma TryFirePath(f: Fsm, bar: BarInput, grammar: Grammar, anchor: real, higherLow: Option<real>, w: Plan)
    requires bar.close != 0.0
    requires PathOk(f) && f.state == Confirming
    ensures PathOk(TryFire(f, bar, grammar, anchor, higherLow, w))
  {
    hide Path, MayFire, StopFor, TargetFor;
    if MayFire(f, bar, anchor, w) {
      var g := TryFire(f, bar, grammar, anchor, higherLow, w);
      EmitKeepsPath(f.(fire := g.fire), Fired,
                    if grammar.UndercutReclaim? then TriggerReclaim else TriggerHigherLow, bar.minute);
    }
  }

  lemma AdvanceG1Path(f: Fsm, bar: BarInput, w: Plan)
    requires bar.close != 0.0
    requires Sound(f) && Engaged(f.state)
    ensures Sound(AdvanceG1(f, bar, w))
  {
    hide Path, TryFire, Stale, Reclaims;
    if w.p.useReclaim {
      var g := Track(f.g1, bar, f.n, w);
      var f1 := f.(g1 := g);
      var f2 := if bar.low < w.z.referenceLow && f.state == Touched
                then Emit(f1, Confirming, FlushBelowReference, bar.minute) else f1;
      if f.state == Touched { EmitKeepsPath(f1, Confirming, FlushBelowReference, bar.minute); }
      assert Sound(f2);
      if g.Flush? {
        TryFirePath(f2, bar, UndercutReclaim, g.low, None, w);
        TryFireFrame(f2, bar, UndercutReclaim, g.low, None, w);
      }
    }
  }

  lemma AdvanceG2Path(f: Fsm, bar: BarInput, w: Plan)
    requires bar.close != 0.0
    requires Sound(f)
    ensures Sound(AdvanceG2(f, bar, w))
  {
    hide Path, TryFire, IsMicroPivot, MaxHigh, DecisiveUndercut;
    if w.p.useHigherLow && Engaged(f.state) {
      if f.g2.NoPivot? {
        if f.state == Touched && IsMicroPivot(f.bars, w) {
          EmitKeepsPath(f.(g2 := FindPivot(f, bar, w).g2), Confirming, MicroPivotLow, bar.minute);
        }
      } else {
        var g := f.g2;
        var l2 := if g.l2.Some? then Min(g.l2.value, bar.low) else bar.low;
        var l1 := if l2 < g.l1 then l2 else g.l1;
        var f1 := f.(g2 := Pivot(l1, g.interimHigh, Some(l2)));
        TryFirePath(f1, bar, HigherLowBreak, Min(l1, l2), Some(l2), w);
        TryFireFrame(f1, bar, HigherLowBreak, Min(l1, l2), Some(l2), w);
      }
    }
  }

  lemma StepPath(f: Fsm, bar: BarInput, w: Plan)
    requires bar.close != 0.0
    requires Sound(f)
    ensures Sound(Step(f, bar, w))
  {
    hide Watch, AdvanceG1, AdvanceG2, Path, Idle;
    if !Terminal(f.state) {
      WatchPath(f, bar, w);
      var m := Watch(f, bar, w);
      if Engaged(m.state) {
        AdvanceG1Path(m, bar, w);
        AdvanceG2Path(AdvanceG1(m, bar, w), bar, w);
      }
    }
  }

  /** In every run the events are a connected, strictly forward path from Armed of at most four
      events, Fired comes only from Confirming, and a fire is recorded exactly when Fired. */
  lemma {:induction false} EventsArePath(bars: seq<BarInput>, w: Plan)
    requires Feedable(bars)
    ensures PathOk(Run(bars, w)) && Idle(Run(bars, w))
    ensures |Run(bars, w).events| <= 4
    decreases |bars|
  {
    hide Step;
    if bars == [] {
      assert Sound(START);
    } else {
      EventsArePath(bars[..|bars| - 1], w);
      StepPath(Run(bars[..|bars| - 1], w), bars[|bars| - 1], w);
    }
  }

  lemma TerminalStays(f: Fsm, bar: BarInput, w: Plan)
    requires bar.close != 0.0
    ensures Terminal(f.state) ==> Step(f, bar, w) == f
  {
    hide Watch, AdvanceG1, AdvanceG2;
  }

  /** Later bars only add events, and none once a terminal state is reached. */
  lemma {:induction false} TerminalAbsorbs(bars: seq<BarInput>, more: seq<BarInput>, w: Plan)
    requires Feedable(bars) && Feedable(more)
    ensures Feedable(bars + more)
    ensures Run(bars, w).events <= Run(bars + more, w).events
    ensures Terminal(Run(bars, w).state) ==> Run(bars + more, w) == Run(bars, w)
    decreases |more|
  {
    hide Step;
    if more == [] {
      assert bars + more == bars;
    } else {
      var init, last := more[..|more| - 1], more[|more| - 1];
      TerminalAbsorbs(bars, init, w);
      assert (bars + more)[..|bars + more| - 1] == bars + init;
      StepExtends(Run(bars + init, w), last, w);
      assert Run(bars + more, w) == Step(Run(bars + init, w), last, w);
      TerminalStays(Run(bars, w), last, w);
    }
  }

  // ---------------------------------------------------------------- the bars a run has looked at

  /** The bars fed before a terminal state was reached. */
  function Seen(bars: seq<BarInput>, w: Plan): seq<BarInput>
    requires Feedable(bars)
    decreases |bars|
  {
    if bars == [] then []
    else
      var init := bars[..|bars| - 1];
      if Terminal(Run(init, w).state) then Seen(init, w) else Seen(init, w) + [bars[|bars| - 1]]
  }

  /** The bar counter counts the bars seen, and the buffer holds the latest of them. */
  predicate Booked(h: seq<BarInput>, f: Fsm, w: Plan) { |h| == f.n && f.bars == Tail(h, Capacity(w.p)) }

  lemma TailAppend<T>(s: seq<T>, x: T, n: nat)
    requires n >= 1
    ensures Tail(Tail(s, n) + [x], n) == Tail(s + [x], n)
  {
    var t := Tail(s, n) + [x];
    if |t| <= n {
      assert |s| + 1 <= n ==> Tail(s, n) == s;
    } else {
      assert t[|t| - n..] == (s + [x])[|s| + 1 - n..];
    }
  }

  lemma StepBooks(h: seq<BarInput>, f: Fsm, bar: BarInput, w: Plan)
    requires bar.close != 0.0
    requires Booked(h, f, w) && !Terminal(f.state)
    ensures Booked(h + [bar], Watch(f, bar, w), w)
    ensures Booked(h + [bar], Step(f, bar, w), w)
  {
    hide Watch, AdvanceG1, AdvanceG2, Tail;
    assert Capacity(w.p) >= 1;
    TailAppend(h, bar, Capacity(w.p));
    WatchFrame(f, bar, w);
    var m := Watch(f, bar, w);
    AdvanceG1Frame(m, bar, w);
    AdvanceG2Frame(AdvanceG1(m, bar, w), bar, w);
  }

  /** One bar more: it is looked at unless the run has ended. */
  lemma RunStep(init: seq<BarInput>, bar: BarInput, w: Plan)
    requires Feedable(init + [bar])
    ensures Feedable(init)
    ensures Run(init + [bar], w) == Step(Run(init, w), bar, w)
    ensures Terminal(Run(init, w).state) ==>
      Run(init + [bar], w) == Run(init, w) && Seen(init + [bar], w) == Seen(init, w)
    ensures !Terminal(Run(init, w).state) ==> Seen(init + [bar], w) == Seen(init, w) + [bar]
  {
    hide Step;
    var bars := init + [bar];
    assert bars[..|bars| - 1] == init && bars[|bars| - 1] == bar;
    assert Feedable(init) by {
      forall i | 0 <= i < |init| ensures init[i].close != 0.0 { assert bars[i] == init[i]; }
    }
    TerminalStays(Run(init, w), bar, w);
  }

  /** The bars seen are the first bars fed, and all of them while the run is live. */
  lemma {:induction false} SeenIsPrefix(bars: seq<BarInput>, w: Plan)
    requires Feedable(bars)
    ensures Seen(bars, w) <= bars
    ensures !Terminal(Run(bars, w).state) ==> Seen(bars, w) == bars
    decreases |bars|
  {
    hide Run, Step;
    if bars == [] {
    } else {
      hide Seen;
      var init, bar := bars[..|bars| - 1], bars[|bars| - 1];
      SeenIsPrefix(init, w);
      assert bars == init + [bar];
      RunStep(init, bar, w);
    }
  }

  /** A run that recorded a fire has looked at a bar. */
  lemma {:induction false} SeenSome(bars: seq<BarInput>, w: Plan)
    requires Feedable(bars)
    requires Run(bars, w).fire.Some?
    ensures Seen(bars, w) != []
    decreases |bars|
  {
    hide Step;
    var init, bar := bars[..|bars| - 1], bars[|bars| - 1];
    assert bars == init + [bar];
    RunStep(init, bar, w);
    hide Run, Seen;
    if !Terminal(Run(init, w).state) {
    } else {
      SeenSome(init, w);
    }
  }

  lemma {:induction false} RunBooks(bars: seq<BarInput>, w: Plan)
    requires Feedable(bars)
    ensures Booked(Seen(bars, w), Run(bars, w), w)
    decreases |bars|
  {
    hide Step, Capacity;
    if bars == [] {
    } else {
      hide Tail, Run, Seen, Booked;
      var init, bar := bars[..|bars| - 1], bars[|bars| - 1];
      RunBooks(init, w);
      assert bars == init + [bar];
      RunStep(init, bar, w);
      if !Terminal(Run(init, w).state) {
        StepBooks(Seen(init, w), Run(init, w), bar, w);
      }
    }
  }
}
