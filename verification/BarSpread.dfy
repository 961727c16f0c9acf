/** The spread a snapshot carries: that of the last tick of its minute. */
module BarSpread {
  import opened Numbers
  import opened Optional
  import opened Bars
  import opened BarContext
  import opened BarStreaming

  /** The spread of the last of some ticks. */
  function LastSpread(a: seq<Tick>): Option<real> { if a == [] then None else a[|a| - 1].spread }

  /** The current spread is that of the last tick accepted, and every committed minute carries that of
      its own last tick. */
  ghost predicate SpreadsKept(a: seq<Tick>, s: Session) {
    && s.curSpread == LastSpread(a)
    && forall i :: 0 <= i < |s.ctx.bars| ==> SpreadOf(a, s.ctx, s.ctx.bars[i].minute)
  }

  predicate SpreadOf(a: seq<Tick>, x: Context, m: int) { m in x.snaps && x.snaps[m].spread == LastSpread(OfMinute(a, m)) }

  /** What a tick does to the current spread and to the snapshots. */
  lemma TickSpreads(s: Session, t: Tick, atr: Atr)
    requires Shaped(s.ctx) && Readable(t) && t.minute >= 0
    requires if s.forming.Some? then t.minute >= s.forming.value.minute else s.ctx.bars == []
    ensures var r := OnTick(s, t, atr);
      && r.curSpread == t.spread
      && (if Closes(s, t) then
            && r.ctx.bars == s.ctx.bars + [FormedBar(s)]
            && FormedBar(s).minute in r.ctx.snaps && r.ctx.snaps[FormedBar(s).minute].spread == s.curSpread
            && forall m :: m in s.ctx.snaps && m != FormedBar(s).minute ==> m in r.ctx.snaps && r.ctx.snaps[m] == s.ctx.snaps[m]
          else r.ctx == s.ctx)
  {
    hide Turnover, Vwap, Retrace, Min, Max;
  }

  lemma StaleSpreads(s: Session, t: Tick, atr: Atr)
    requires Shaped(s.ctx)
    requires !Readable(t) || (if s.forming.Some? then t.minute < s.forming.value.minute else t.minute < 0)
    ensures var r := OnTick(s, t, atr); r.curSpread == s.curSpread && r.ctx == s.ctx
  {
  }

  /** The last tick accepted is the last of its minute. */
  lemma LastOfMinute(a: seq<Tick>)
    requires a != []
    ensures LastSpread(OfMinute(a, Top(a))) == a[|a| - 1].spread
  {
  }

  lemma EarlierMinute(a: seq<Tick>, t: Tick, x: Context, m: int)
    requires SpreadOf(a, x, m) && m < t.minute
    ensures SpreadOf(a + [t], x, m)
  {
    Append(a, t, m);
    hide OfMinute;
    assert OfMinute(a, m) + [] == OfMinute(a, m);
  }

  /** The minutes of the committed bars lie before the last one. */
  lemma BarsBeforeTop(a: seq<Tick>, s: Session)
    requires Sorted(a) && Streams(a, s)
    ensures forall i :: 0 <= i < |s.ctx.bars| ==> s.ctx.bars[i].minute < Top(a)
  {
    MinutesAscend(a);
    hide Minutes, Prices, OfMinute, Through;
    forall i | 0 <= i < |s.ctx.bars| ensures s.ctx.bars[i].minute < Top(a) {
      assert BarOf(s.ctx.bars[i], a, Minutes(a)[i]);
      assert Minutes(a)[i] < Minutes(a)[|Minutes(a)| - 1];
    }
  }

  lemma AcceptedKeeps(a: seq<Tick>, s: Session, t: Tick, atr: Atr)
    requires Shaped(s.ctx) && Sorted(a) && Streams(a, s) && SpreadsKept(a, s)
    requires Readable(t) && t.minute >= 0 && t.minute >= Top(a)
    ensures SpreadsKept(a + [t], OnTick(s, t, atr))
  {
    BarsBeforeTop(a, s);
    hide BatchBars, Prices, OfMinute, OnTick, Sorted, Readable;
    TickSpreads(s, t, atr);
    var r := OnTick(s, t, atr);
    forall i | 0 <= i < |r.ctx.bars| ensures SpreadOf(a + [t], r.ctx, r.ctx.bars[i].minute) {
      var m := r.ctx.bars[i].minute;
      if i < |s.ctx.bars| {
        assert r.ctx.bars[i] == s.ctx.bars[i];
        assert SpreadOf(a, s.ctx, m);
      } else {
        LastOfMinute(a);
      }
      EarlierMinute(a, t, r.ctx, m);
    }
  }

  lemma {:induction false} RunSpreads(ts: seq<Tick>, atr: Atr)
    ensures SpreadsKept(Kept(ts), RunTicks(ts, atr))
    decreases |ts|
  {
    if ts == [] {
    } else {
      var n := |ts| - 1;
      var a, s, t := Kept(ts[..n]), RunTicks(ts[..n], atr), ts[n];
      RunSpreads(ts[..n], atr);
      RunStreams(ts[..n], atr);
      KeptSorted(ts[..n]);
      AcceptedIff(ts);
      assert RunTicks(ts, atr) == OnTick(s, t, atr);
      assert Kept(ts) == a + (if Accepted(ts, n) then [t] else []);
      assert a + [] == a;
      hide Kept, RunTicks, Accepted, OnTick, Sorted, BatchBars, Conserves, Prices, OfMinute;
      if Accepted(ts, n) { AcceptedKeeps(a, s, t, atr); } else { StaleSpreads(s, t, atr); }
    }
  }

  /** On every tick sequence without seeds: the current spread is that of the last tick accepted, and
      the snapshot of every committed minute carries the spread of the last tick accepted in it. */
  lemma SnapshotSpread(ts: seq<Tick>, atr: Atr, i: nat)
    requires i < |RunTicks(ts, atr).ctx.bars|
    ensures var s, a := RunTicks(ts, atr), Kept(ts);
      var m := s.ctx.bars[i].minute;
      && a != [] && s.curSpread == a[|a| - 1].spread
      && OfMinute(a, m) != [] && m in s.ctx.snaps
      && s.ctx.snaps[m].spread == OfMinute(a, m)[|OfMinute(a, m)| - 1].spread
  {
    RunSpreads(ts, atr);
    StreamingRefinesBatch(ts, atr);
    hide RunTicks, Kept, OfMinute, Minutes;
    var s, a := RunTicks(ts, atr), Kept(ts);
    assert BarOf(s.ctx.bars[i], a, Minutes(a)[i]);
    assert SpreadOf(a, s.ctx, s.ctx.bars[i].minute);
    if a == [] { NoMinutes(); }
  }

  lemma NoMinutes()
    ensures Minutes([]) == []
  {
  }

  /** A seeded bar carries the spread current when it is seeded, and leaves that as it is. */
  lemma SeedSpread(s: Session, bar: Bar, atr: Atr)
    requires Shaped(s.ctx)
    ensures var r := SeedBar(s, bar, atr);
      && r.curSpread == s.curSpread
      && ((s.ctx.bars == [] || s.ctx.bars[|s.ctx.bars| - 1].minute < bar.minute) ==>
            bar.minute in r.ctx.snaps && r.ctx.snaps[bar.minute].spread == s.curSpread)
  {
    CommitSnap(s.ctx, bar, s.curSpread, atr);
    hide Commit;
  }

  const NARROW: Tick := Tick(600, Some(10.0), Some(10.0), 0.0)
  const WIDE: Tick := Tick(600, Some(10.1), Some(200.0), 5.0)
  const NEXT: Tick := Tick(601, Some(10.0), Some(10.0), 9.0)

  /** Two ticks in one minute, the second with the wider spread: that is the one its bar keeps. */
  lemma WiderSpreadCounts(atr: Atr)
    ensures var x := RunTicks([NARROW, WIDE, NEXT], atr).ctx;
      600 in x.snaps && x.snaps[600].spread == Some(200.0)
  {
    var a, b, c := NARROW, WIDE, NEXT;
    assert [a, b, c][..2] == [a, b] && [a, b][..1] == [a] && [a][..0] == [];
    assert RunTicks([], atr) == EMPTY;
    hide Turnover, Vwap, Retrace;
    assert RunTicks([a], atr) == OnTick(EMPTY, a, atr);
    assert RunTicks([a, b], atr) == OnTick(RunTicks([a], atr), b, atr);
    assert RunTicks([a, b, c], atr) == OnTick(RunTicks([a, b], atr), c, atr);
  }
}
