/**
 `LiveBarBuilder` for one symbol, updated in place by every tick and every seeded bar.
 The six parallel lists of the program are one list of bars here, and the accumulators
 over committed bars sit together in `ctx`.
 */
module LiveBarBuilder {
  import opened Numbers
  import opened Optional
  import opened Bars
  import BarContext

  /** What the state machine downstream is fed for one bar. */
  datatype BarView = BarView(bar: Bar, minute: int, context: Snapshot)

  class SymState {
    var forming: Option<Forming>
    var baseCum: Option<real>
    var lastCum: Option<real>
    var curSpread: Option<real>
    var ctx: Context
    var lastTick: Option<Tick>
    const atr: Atr

    ghost predicate Valid()
      reads this
    {
      Shaped(ctx)
    }

    ghost function View(): Session
      reads this
    {
      Session(forming, baseCum, lastCum, curSpread, ctx)
    }

    constructor (atr: Atr)
      ensures Valid() && View() == EMPTY && lastTick == None && this.atr == atr
    {
      forming, baseCum, lastCum, curSpread, lastTick := None, None, None, None, None;
      ctx := Context([], 0.0, 0.0, None, -1, [], map[]);
      this.atr := atr;
    }

    /** The one path every completed bar takes, live or seeded. */
    method Commit(bar: Bar)
      requires Valid()
      modifies this`ctx
      ensures Valid() && ctx == Bars.Commit(old(ctx), bar, curSpread, atr)
    {
      hide Turnover, Vwap, Retrace, Min;
      var x := ctx;
      x := x.(bars := x.bars + [bar], cumPv := x.cumPv + Turnover(bar), cumV := x.cumV + bar.volume);
      var low := if x.prefixMinLow == [] then bar.low else Min(x.prefixMinLow[|x.prefixMinLow| - 1], bar.low);
      x := x.(prefixMinLow := x.prefixMinLow + [low]);
      if x.hod.None? || bar.high >= x.hod.value {
        x := x.(hod := Some(bar.high), hodIdx := |x.bars| - 1);
      }
      var snap := Snapshot(Vwap(x.cumPv, x.cumV, bar.close), atr(x.bars), x.hod.value,
                           Retrace(x.hod.value, x.prefixMinLow[x.hodIdx], bar.close), curSpread);
      ctx := x.(snaps := x.snaps[bar.minute := snap]);
    }

    /** Close the forming bucket; the next one counts volume from here. */
    method Roll() returns (bar: Option<Bar>)
      modifies this`forming, this`baseCum
      ensures old(forming).None? ==> bar.None? && View() == old(View())
      ensures old(forming).Some? ==> bar == Some(old(FormedBar(View()))) && View() == Rolled(old(View()))
    {
      if forming.None? {
        return None;
      }
      var base := if baseCum.Some? then baseCum.value else OrZero(lastCum);
      var vol := Max(0.0, OrZero(lastCum) - base);
      var f := forming.value;
      bar := Some(Bar(f.minute, f.open, f.high, f.low, f.close, vol));
      baseCum := lastCum;
      forming := None;
    }

    /** Out-of-order and already covered history is ignored. */
    method SeedBar(bar: Bar)
      requires Valid()
      modifies this`ctx
      ensures Valid() && View() == Bars.SeedBar(old(View()), bar, atr)
    {
      if ctx.bars != [] && bar.minute <= ctx.bars[|ctx.bars| - 1].minute {
        return;
      }
      Commit(bar);
    }

    method OnTick(t: Tick) returns (out: seq<Bar>)
      requires Valid()
      modifies this
      ensures Valid() && View() == Bars.OnTick(old(View()), t, atr)
      ensures out == Emitted(old(View()), t)
      ensures lastTick == Some(t)
    {
      hide Bars.Commit, FormedBar;
      lastTick := Some(t);
      out := [];
      if !Readable(t) {
        return;
      }
      var p := t.last.value;
      if forming.Some? && t.minute > forming.value.minute {
        var done := Roll();
        if done.Some? {
          Commit(done.value);
          out := [done.value];
        }
      }
      if forming.None? {
        if (ctx.bars != [] && t.minute <= ctx.bars[|ctx.bars| - 1].minute) || t.minute < 0 {
          lastCum := Some(t.cum);
          return;
        }
        forming := Some(Forming(t.minute, p, p, p, p));
        if baseCum.None? {
          baseCum := Some(t.cum);
        }
        curSpread := t.spread;
      } else if t.minute == forming.value.minute {
        var f := forming.value;
        forming := Some(f.(high := Max(f.high, p), low := Min(f.low, p), close := p));
        curSpread := t.spread;
      } else {
        return;
      }
      if lastCum.Some? && t.cum < lastCum.value {
        baseCum := Some(t.cum);
      }
      lastCum := Some(t.cum);
    }

    /** The bar with the context taken when it was committed, or a flat context. */
    function BarInput(bar: Bar, minute: Option<int>): (v: BarView)
      reads this
      ensures v.bar == bar
      ensures v.minute == if minute.Some? then minute.value else bar.minute
      ensures v.minute in ctx.snaps ==> v.context == ctx.snaps[v.minute]
      ensures v.minute !in ctx.snaps ==> v.context == Snapshot(bar.close, None, bar.high, None, None)
    {
      var m := if minute.Some? then minute.value else bar.minute;
      BarView(bar, m, if m in ctx.snaps then ctx.snaps[m] else Snapshot(bar.close, None, bar.high, None, None))
    }

    /** The committed bars only. */
    function SessionArrays(): seq<Bar>
      reads this
    {
      ctx.bars
    }
  }

  /** In a sound session the bars handed out rise strictly in time and the forming minute comes after
      all of them: nothing of it leaks. */
  lemma FormingNeverLeaks(s: SymState)
    requires BarContext.Sound(s.View(), s.atr)
    ensures var bars := s.SessionArrays();
      && (forall i, j :: 0 <= i < j < |bars| ==> bars[i].minute < bars[j].minute)
      && (s.forming.Some? ==> forall i :: 0 <= i < |bars| ==> bars[i].minute < s.forming.value.minute)
  {
    hide BarContext.RunningLow, BarContext.StoredAt, BarContext.LastHigh, BarContext.OnlyMinutes;
    var bars := s.SessionArrays();
    if bars != [] && s.forming.Some? {
      forall i | 0 <= i < |bars| ensures bars[i].minute < s.forming.value.minute {
        assert bars[i].minute <= bars[|bars| - 1].minute;
      }
    }
  }

  /** The view of a committed bar carries the context that recomputation over exactly the bars up to
      it gives, however many bars came after. */
  lemma ViewIsBatchContext(s: SymState, i: nat)
    requires BarContext.Exact(s.ctx, s.atr) && i < |s.ctx.bars|
    ensures var v := s.BarInput(s.ctx.bars[i], None);
      v.minute == s.ctx.bars[i].minute && BarContext.ContextOf(s.ctx.bars[..i + 1], s.atr, v.context)
  {
    hide BarContext.ContextOf;
    assert BarContext.StoredAt(s.ctx, s.atr, i);
  }
}
