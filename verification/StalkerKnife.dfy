/** Safety over whole runs: what the screen and the knife rule kept out. */
module StalkerKnife {
  import opened Numbers
  import opened Optional
  import opened StalkerRules
  import opened StalkerPath

  /** Neither aborted nor expired. */
  predicate Standing(s: State) { s != Aborted && s != Expired }

  /** How many bars in a row, up to the last, had a spread too wide to fire. */
  function WideRun(h: seq<BarInput>, p: Params): nat {
    if h == [] || !WideSpread(h[|h| - 1], p) then 0 else WideRun(h[..|h| - 1], p) + 1
  }

  /** How many bars in a row, up to the last, closed below the zone. */
  function BelowRun(h: seq<BarInput>, z: Zone): nat {
    if h == [] || h[|h| - 1].close >= z.bottom then 0 else BelowRun(h[..|h| - 1], z) + 1
  }

  predicate InWindow(bar: BarInput, p: Params) { !bar.halted && !bar.defensive && bar.minute <= p.lastEntryMin }

  predicate TooDeep(bar: BarInput, p: Params) { bar.retrace.Some? && bar.retrace.value > p.abortRetrace }

  // ---------------------------------------------------------------- the screen

  /** No bar was halted, hit by an event or past the window, and no run of wide spreads got long. */
  predicate Screened(h: seq<BarInput>, wide: nat, p: Params) {
    && (forall i :: 0 <= i < |h| ==> InWindow(h[i], p))
    && wide == WideRun(h, p)
    && (forall j :: 0 <= j <= |h| ==> WideRun(h[..j], p) < MaxNat(1, p.spreadAbortConsec))
  }

  lemma ScreenedGrows(h: seq<BarInput>, wide: nat, bar: BarInput, p: Params)
    requires Screened(h, wide, p) && InWindow(bar, p)
    requires WideSpread(bar, p) ==> wide + 1 < MaxNat(1, p.spreadAbortConsec)
    ensures Screened(h + [bar], if WideSpread(bar, p) then wide + 1 else 0, p)
  {
    hide WideSpread, InWindow;
    var g := h + [bar];
    assert g[..|h|] == h && g[..|g|] == g;
    forall j | 0 <= j <= |g| ensures WideRun(g[..j], p) < MaxNat(1, p.spreadAbortConsec) {
      if j <= |h| { assert g[..j] == h[..j]; }
    }
  }

  lemma WatchScreens(f: Fsm, bar: BarInput, w: Plan)
    ensures var m := Watch(f, bar, w);
      Standing(m.state) ==>
        && InWindow(bar, w.p)
        && m.wide == (if WideSpread(bar, w.p) then f.wide + 1 else 0)
        && (WideSpread(bar, w.p) ==> m.wide < MaxNat(1, w.p.spreadAbortConsec))
        && (Engaged(f.state) ==> !TooDeep(bar, w.p))
  {
    hide Knife, Approach, Tail, WideSpread;
    var f0 := Observe(f, bar, w);
    var f1 := Screen(f0, bar, w);
    KnifeFrame(f1, bar, w);
    ApproachFrame(Knife(f1, bar, w), bar, w);
  }

  /** What the grammars leave alone. */
  lemma StepAfterWatch(f: Fsm, bar: BarInput, w: Plan)
    requires bar.close != 0.0 && !Terminal(f.state)
    ensures var m, g := Watch(f, bar, w), Step(f, bar, w);
      && m.events <= g.events && g.wide == m.wide && g.below == m.below && m.state != Fired
      && (!Engaged(m.state) ==> g == m)
      && (Standing(g.state) ==> Standing(m.state))
  {
    hide Watch, AdvanceG1, AdvanceG2;
    var m := Watch(f, bar, w);
    WatchFrame(f, bar, w);
    AdvanceG1Frame(m, bar, w);
    AdvanceG2Frame(AdvanceG1(m, bar, w), bar, w);
  }

  lemma StepScreens(h: seq<BarInput>, f: Fsm, bar: BarInput, w: Plan)
    requires bar.close != 0.0 && !Terminal(f.state)
    requires Screened(h, f.wide, w.p)
    ensures Standing(Step(f, bar, w).state) ==> Screened(h + [bar], Step(f, bar, w).wide, w.p)
  {
    hide Watch, Step, WideSpread, InWindow, TooDeep, Screened;
    StepAfterWatch(f, bar, w);
    WatchScreens(f, bar, w);
    if Standing(Step(f, bar, w).state) { ScreenedGrows(h, f.wide, bar, w.p); }
  }

  /** A run still standing has seen only admissible bars. */
  lemma {:induction false} RunScreens(bars: seq<BarInput>, w: Plan)
    requires Feedable(bars)
    requires Standing(Run(bars, w).state)
    ensures Screened(Seen(bars, w), Run(bars, w).wide, w.p)
    decreases |bars|
  {
    hide Step, WideSpread, InWindow;
    if bars == [] {
    } else {
      hide Screened, Run, Seen;
      var init, bar := bars[..|bars| - 1], bars[|bars| - 1];
      assert bars == init + [bar];
      RunStep(init, bar, w);
      if Standing(Run(init, w).state) {
        RunScreens(init, w);
        if !Terminal(Run(init, w).state) { StepScreens(Seen(init, w), Run(init, w), bar, w); }
      }
    }
  }

  // ---------------------------------------------------------------- the knife

  /** `below` counts the closes below the zone up to the last bar, and never got too high. */
  predicate ShortRuns(s: seq<BarInput>, below: nat, w: Plan) {
    && below == BelowRun(s, w.z)
    && (forall j :: 0 <= j <= |s| ==> BelowRun(s[..j], w.z) < MaxNat(1, w.p.knifeConsecCloses))
  }

  lemma ShortRunsGrow(s: seq<BarInput>, below: nat, bar: BarInput, w: Plan)
    requires ShortRuns(s, below, w)
    requires bar.close < w.z.bottom ==> below + 1 < MaxNat(1, w.p.knifeConsecCloses)
    ensures ShortRuns(s + [bar], if bar.close < w.z.bottom then below + 1 else 0, w)
  {
    var g := s + [bar];
    assert g[..|s|] == s && g[..|g|] == g;
    forall j | 0 <= j <= |g| ensures BelowRun(g[..j], w.z) < MaxNat(1, w.p.knifeConsecCloses) {
      if j <= |s| { assert g[..j] == s[..j]; }
    }
  }

  predicate Touching(s: State) { Engaged(s) || s == Fired }

  /** Bar `t` is the one with which the run came to touch the zone. */
  predicate TouchedBy(h: seq<BarInput>, w: Plan, t: nat)
    requires Feedable(h)
  {
    t < |h| && !Touching(Run(h[..t], w).state) && Touching(Run(h[..t + 1], w).state)
  }

  lemma TouchedByStays(h: seq<BarInput>, bar: BarInput, w: Plan, t: nat)
    requires Feedable(h + [bar]) && Feedable(h) && TouchedBy(h, w, t)
    ensures TouchedBy(h + [bar], w, t)
  {
    hide Run;
    assert (h + [bar])[..t] == h[..t] && (h + [bar])[..t + 1] == h[..t + 1];
  }

  /** The zone was touched by bar `t`, and since then the floor held: no knife bar from the touch
      on, no leg retraced too deep after it, and never too many closes in a row below the zone. */
  predicate FloorHeld(h: seq<BarInput>, f: Fsm, w: Plan, t: nat) {
    && Feedable(h) && TouchedBy(h, w, t)
    && Event(h[t].minute, Stalking, Touched, ZoneTouched) in f.events
    && h[t].low <= w.z.top
    && (forall i :: t <= i < |h| ==> !BelowKnife(h[i], w))
    && (forall i :: t < i < |h| ==> !TooDeep(h[i], w.p))
    && ShortRuns(h[t + 1..], f.below, w)
  }

  ghost predicate FloorKept(h: seq<BarInput>, f: Fsm, w: Plan) {
    Touching(f.state) ==> exists t :: FloorHeld(h, f, w, t)
  }

  lemma FloorGrows(h: seq<BarInput>, f: Fsm, bar: BarInput, g: Fsm, w: Plan, t: nat)
    requires FloorHeld(h, f, w, t) && Feedable(h + [bar])
    requires f.events <= g.events
    requires !BelowKnife(bar, w) && !TooDeep(bar, w.p)
    requires g.below == (if bar.close < w.z.bottom then f.below + 1 else 0)
    requires g.below < MaxNat(1, w.p.knifeConsecCloses)
    ensures FloorHeld(h + [bar], g, w, t)
  {
    hide BelowKnife, TooDeep, ShortRuns, TouchedBy, Feedable;
    var k := h + [bar];
    TouchedByStays(h, bar, w, t);
    TouchIsBar(h, w, t);
    assert k[t + 1..] == h[t + 1..] + [bar];
    ShortRunsGrow(h[t + 1..], f.below, bar, w);
    EventStays(Event(h[t].minute, Stalking, Touched, ZoneTouched), f.events, g.events);
  }

  lemma TouchIsBar(h: seq<BarInput>, w: Plan, t: nat)
    requires Feedable(h) && TouchedBy(h, w, t)
    ensures t < |h|
  {
  }

  /** The touch bar itself. */
  lemma FloorStarts(h: seq<BarInput>, bar: BarInput, g: Fsm, w: Plan)
    requires Feedable(h + [bar]) && TouchedBy(h + [bar], w, |h|)
    requires Event(bar.minute, Stalking, Touched, ZoneTouched) in g.events
    requires bar.low <= w.z.top && !BelowKnife(bar, w) && g.below == 0
    ensures FloorHeld(h + [bar], g, w, |h|)
  {
    hide BelowKnife, TouchedBy, Feedable;
  }

  lemma WatchKnife(f: Fsm, bar: BarInput, w: Plan)
    requires !Terminal(f.state)
    ensures var m := Watch(f, bar, w);
      && (Engaged(f.state) && Standing(m.state) ==>
            && !BelowKnife(bar, w)
            && m.below == (if bar.close < w.z.bottom then f.below + 1 else 0)
            && m.below < MaxNat(1, w.p.knifeConsecCloses))
      && (!Engaged(f.state) && Engaged(m.state) ==>
            && Event(bar.minute, Stalking, Touched, ZoneTouched) in m.events
            && bar.low <= w.z.top && !BelowKnife(bar, w) && m.below == f.below)
  {
    hide Screen, BelowKnife, Pulling, Tail;
    var f0 := Observe(f, bar, w);
    ScreenFrame(f0, bar, w);
    var f1 := Screen(f0, bar, w);
    if !Terminal(f1.state) {
      var f2 := Knife(f1, bar, w);
      if !Terminal(f2.state) {
        ApproachFrame(f2, bar, w);
        if !Engaged(f.state) && Engaged(Approach(f2, bar, w).state) {
          TouchEvent(f2, bar, w);
        }
      }
    }
  }

  lemma TouchEvent(f: Fsm, bar: BarInput, w: Plan)
    requires !Engaged(f.state) && Engaged(Approach(f, bar, w).state)
    ensures Event(bar.minute, Stalking, Touched, ZoneTouched) in Approach(f, bar, w).events
    ensures bar.low <= w.z.top && !BelowKnife(bar, w)
  {
    hide BelowKnife, Pulling;
    var f1 := if f.state == Armed && Pulling(bar, w.p) then Emit(f, Stalking, PullbackStarted, bar.minute) else f;
    var g := Approach(f, bar, w);
    assert g.events == f1.events + [Event(bar.minute, Stalking, Touched, ZoneTouched)];
    assert g.events[|f1.events|] == Event(bar.minute, Stalking, Touched, ZoneTouched);
  }

  lemma StepFloor(h: seq<BarInput>, f: Fsm, bar: BarInput, w: Plan)
    requires bar.close != 0.0 && !Terminal(f.state) && Idle(f)
    requires Feedable(h + [bar]) && Feedable(h) && f == Run(h, w)
    requires FloorKept(h, f, w)
    ensures FloorKept(h + [bar], Step(f, bar, w), w)
  {
    hide Run, TouchedBy, Feedable, Watch, Step, FloorHeld, BelowKnife, TooDeep, WideSpread, InWindow, MaxNat;
    StepAfterWatch(f, bar, w);
    WatchScreens(f, bar, w);
    WatchKnife(f, bar, w);
    var m, g := Watch(f, bar, w), Step(f, bar, w);
    WatchFrame(f, bar, w);
    if Touching(g.state) {
      if Engaged(f.state) {
        var t :| FloorHeld(h, f, w, t);
        FloorGrows(h, f, bar, g, w, t);
        assert FloorHeld(h + [bar], g, w, t);
      } else {
        EventStays(Event(bar.minute, Stalking, Touched, ZoneTouched), m.events, g.events);
        assert TouchedBy(h + [bar], w, |h|) by { TouchNow(h, bar, w); }
        FloorStarts(h, bar, g, w);
        assert FloorHeld(h + [bar], g, w, |h|);
      }
    }
  }

  lemma TouchNow(h: seq<BarInput>, bar: BarInput, w: Plan)
    requires Feedable(h + [bar]) && Feedable(h) && bar.close != 0.0
    requires !Terminal(Run(h, w).state) && !Engaged(Run(h, w).state) && Touching(Step(Run(h, w), bar, w).state)
    ensures TouchedBy(h + [bar], w, |h|)
  {
    hide Step;
    RunStep(h, bar, w);
    hide Run;
    assert (h + [bar])[..|h|] == h && (h + [bar])[..|h| + 1] == h + [bar];
  }

  lemma EventStays(e: Event, s: seq<Event>, t: seq<Event>)
    requires e in s && s <= t
    ensures e in t
  {
    var i :| 0 <= i < |s| && s[i] == e;
    assert t[i] == e;
  }

  lemma {:induction false} RunFloor(bars: seq<BarInput>, w: Plan)
    requires Feedable(bars)
    ensures FloorKept(Seen(bars, w), Run(bars, w), w)
    decreases |bars|
  {
    hide Step, FloorHeld;
    if bars == [] {
    } else {
      hide FloorKept, Run, Seen;
      var init, bar := bars[..|bars| - 1], bars[|bars| - 1];
      assert bars == init + [bar];
      RunStep(init, bar, w);
      RunFloor(init, w);
      EventsArePath(init, w);
      SeenIsPrefix(init, w);
      if !Terminal(Run(init, w).state) { StepFloor(Seen(init, w), Run(init, w), bar, w); }
    }
  }

  /** A run that fired was never caught by a knife: from the touch bar to the trigger no bar closed
      under the knife line, and closes below the zone never came `knifeConsecCloses` in a row. */
  lemma KnifeSafety(bars: seq<BarInput>, w: Plan)
    requires Feedable(bars)
    requires Run(bars, w).state == Fired
    ensures exists t :: FloorHeld(Seen(bars, w), Run(bars, w), w, t)
    ensures Screened(Seen(bars, w), Run(bars, w).wide, w.p)
  {
    hide Step, Seen, Screened, FloorHeld, Run;
    RunFloor(bars, w);
    RunScreens(bars, w);
  }
}
