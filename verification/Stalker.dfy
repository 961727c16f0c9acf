/** `StalkerFSM`: the engine as an object that is fed one completed bar at a time. */
module Stalker {
  import opened Numbers
  import opened Optional
  import opened StalkerRules
  import StalkerPath

  class StalkerFSM {
    const w: Plan
    var state: State
    var events: seq<Event>
    var fire: Option<FireIntent>
    var bars: seq<BarInput>
    var g1: Flush
    var g2: Pivot
    var below: nat
    var wide: nat
    var n: nat

    function View(): Fsm
      reads this
    {
      Fsm(state, events, fire, bars, g1, g2, below, wide, n)
    }

    constructor (z: Zone, p: Params)
      ensures View() == START && w == Plan(z, p)
    {
      w := Plan(z, p);
      state, events, fire, bars := Armed, [], None, [];
      g1, g2, below, wide, n := NoFlush, NoPivot, 0, 0, 0;
    }

    method Emit(to: State, reason: Reason, minute: int)
      modifies this`events, this`state
      ensures View() == StalkerRules.Emit(old(View()), to, reason, minute)
    {
      events := events + [Event(minute, state, to, reason)];
      state := to;
    }

    /** The universal aborts. */
    method Screen(bar: BarInput)
      modifies this`events, this`state, this`wide
      ensures View() == StalkerRules.Screen(old(View()), bar, w)
    {
      if bar.halted {
        Emit(Aborted, HaltedBar, bar.minute);
        return;
      }
      if bar.defensive {
        Emit(Aborted, DefensiveEvent, bar.minute);
        return;
      }
      if bar.spread.Some? && bar.spread.value > w.p.spreadFireCapBps {
        wide := wide + 1;
        if wide >= w.p.spreadAbortConsec {
          Emit(Aborted, SpreadBlowout, bar.minute);
          return;
        }
      } else {
        wide := 0;
      }
      if bar.minute > w.p.lastEntryMin {
        Emit(Expired, WindowClosed, bar.minute);
        return;
      }
      if Engaged(state) && bar.retrace.Some? && bar.retrace.value > w.p.abortRetrace {
        Emit(Aborted, DeepRetrace, bar.minute);
      }
    }

    method Knife(bar: BarInput)
      modifies this`events, this`state, this`below
      ensures View() == StalkerRules.Knife(old(View()), bar, w)
    {
      hide BelowKnife;
      if Engaged(state) {
        if BelowKnife(bar, w) {
          Emit(Aborted, ZoneBreakKnife, bar.minute);
          return;
        }
        if bar.close < w.z.bottom {
          below := below + 1;
          if below >= w.p.knifeConsecCloses {
            Emit(Aborted, ZoneBreakCloses, bar.minute);
          }
        } else {
          below := 0;
        }
      }
    }

    method Approach(bar: BarInput)
      modifies this`events, this`state
      ensures View() == StalkerRules.Approach(old(View()), bar, w)
    {
      hide BelowKnife, Pulling;
      if state == Armed && Pulling(bar, w.p) {
        Emit(Stalking, PullbackStarted, bar.minute);
      }
      if state == Stalking && bar.low <= w.z.top {
        Emit(Touched, ZoneTouched, bar.minute);
        if BelowKnife(bar, w) {
          Emit(Aborted, ZoneBreakKnife, bar.minute);
        }
      }
    }

    method TryFire(bar: BarInput, grammar: Grammar, anchor: real, higherLow: Option<real>)
      requires bar.close != 0.0
      modifies this`events, this`state, this`fire
      ensures View() == StalkerRules.TryFire(old(View()), bar, grammar, anchor, higherLow, w)
    {
      hide BodyShare, StopPct, RewardToRisk, TargetBps, VolMedian, DownTaper, StopFor, TargetFor, SpreadGate;
      if !BarGates(View(), bar, w) || bar.atr5m.None? {
        return;
      }
      var stop := StopFor(bar, anchor, w.p);
      var dist := bar.close - stop;
      if dist <= 0.0 {
        return;
      }
      if !(w.p.minStopPct <= StopPct(dist, bar.close) <= w.p.maxStopPct) {
        return;
      }
      var t := TargetFor(bar, dist, w.p);
      if !SpreadGate(bar, t, w.p) {
        return;
      }
      var flushLow := if higherLow.None? && g1.Flush? then Some(g1.low) else None;
      fire := Some(FireIntent(grammar, bar.minute, bar.close, stop, t.t1, dist, t.rr,
                              flushLow, higherLow, w.z.top, w.z.bottom));
      Emit(Fired, if grammar.UndercutReclaim? then TriggerReclaim else TriggerHigherLow, bar.minute);
    }

    /** Grammar 1: track the flush, and fire on the reclaim. */
    method AdvanceG1(bar: BarInput)
      requires bar.close != 0.0
      modifies this`events, this`state, this`fire, this`g1
      ensures View() == StalkerRules.AdvanceG1(old(View()), bar, w)
    {
      hide Depth, MayFire, StalkerRules.TryFire;
      if !w.p.useReclaim {
        return;
      }
      if bar.low < w.z.referenceLow {
        if g1.NoFlush? {
          g1 := Flush(n, bar.low, bar.volume);
        } else if bar.low < g1.low {
          g1 := Flush(g1.started, bar.low, Max(g1.vol, bar.volume));
        }
        if state == Touched {
          Emit(Confirming, FlushBelowReference, bar.minute);
        }
      }
      if g1.Flush? {
        var depth := Depth(g1, bar, w.z);
        if n - g1.started > w.p.reclaimMaxBars {
          g1 := NoFlush;
        } else if bar.close > w.z.referenceLow && w.p.flushMinAtr <= depth <= w.p.flushMaxAtr
                  && bar.volume >= g1.vol {
          TryFire(bar, UndercutReclaim, g1.low, None);
        }
      }
    }

    /** Grammar 2: find the micro pivot, then fire on the break of the interim high. */
    method AdvanceG2(bar: BarInput)
      requires bar.close != 0.0
      modifies this`events, this`state, this`fire, this`g2
      ensures View() == StalkerRules.AdvanceG2(old(View()), bar, w)
    {
      if !w.p.useHigherLow || !Engaged(state) {
        return;
      }
      if g2.NoPivot? {
        SeekPivot(bar);
      } else {
        FollowPivot(bar);
      }
    }

    method SeekPivot(bar: BarInput)
      modifies this`events, this`state, this`g2
      ensures View() == FindPivot(old(View()), bar, w)
    {
      hide MaxHigh;
      if IsMicroPivot(bars, w) {
        var k, m := w.p.microPivotK, |bars|;
        g2 := Pivot(bars[m - k - 1].low, MaxHigh(bars[m - k..]), None);
        if state == Touched {
          Emit(Confirming, MicroPivotLow, bar.minute);
        }
      }
    }

    method FollowPivot(bar: BarInput)
      requires g2.Pivot? && bar.close != 0.0
      modifies this`events, this`state, this`fire, this`g2
      ensures View() == StalkerRules.FollowPivot(old(View()), bar, w)
    {
      hide DecisiveUndercut, MayFire, StalkerRules.TryFire;
      var high := g2.interimHigh;
      var l2 := if g2.l2.Some? then Min(g2.l2.value, bar.low) else bar.low;
      if DecisiveUndercut(l2, g2.l1, bar, w.p) {
        g2 := NoPivot;
        return;
      }
      var l1 := if l2 < g2.l1 then l2 else g2.l1;
      g2 := Pivot(l1, high, Some(l2));
      if bar.close > high && bar.close > bar.open && l2 >= l1 - 0.000000000001 {
        TryFire(bar, HigherLowBreak, Min(l1, l2), Some(l2));
      }
      g2 := Pivot(l1, Max(high, bar.high), Some(l2));
    }

    /** Everything before the grammars: count the bar, the aborts, the knife rule, the approach. */
    method Watch(bar: BarInput)
      modifies this`bars, this`n, this`events, this`state, this`wide, this`below
      ensures View() == StalkerRules.Watch(old(View()), bar, w)
    {
      hide StalkerRules.Screen, StalkerRules.Knife, StalkerRules.Approach, Tail;
      bars := Tail(bars + [bar], Capacity(w.p));
      n := n + 1;
      Screen(bar);
      if !Terminal(state) {
        Knife(bar);
        if !Terminal(state) {
          Approach(bar);
        }
      }
    }

    /** Feed one completed bar; the events it caused come back. */
    method Step(bar: BarInput) returns (out: seq<Event>)
      requires bar.close != 0.0
      modifies this
      ensures View() == StalkerRules.Step(old(View()), bar, w)
      ensures events == old(events) + out
    {
      hide StalkerRules.Watch, StalkerRules.AdvanceG1, StalkerRules.AdvanceG2;
      var before := |events|;
      if Terminal(state) {
        return [];
      }
      StalkerPath.StepExtends(View(), bar, w);
      Watch(bar);
      if Engaged(state) {
        AdvanceG1(bar);
        AdvanceG2(bar);
      }
      out := events[before..];
    }
  }
}
