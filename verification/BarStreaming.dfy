/**
 Without seeded history, folding ticks one by one gives the bars of a plain batch pass:
 drop the unreadable and the stale ticks, group the rest by minute, leave out the last
 group.  Volume is conserved across resets of the day's cumulative volume.
 */
module BarStreaming {
  import opened Numbers
  import opened Optional
  import opened Bars
  import opened BarContext

  function RunTicks(ts: seq<Tick>, atr: Atr): (s: Session)
    ensures Shaped(s.ctx)
    decreases |ts|
  {
    if ts == [] then EMPTY else OnTick(RunTicks(ts[..|ts| - 1], atr), ts[|ts| - 1], atr)
  }

  /** Everything the run handed out, in order. */
  function Output(ts: seq<Tick>, atr: Atr): seq<Bar>
    decreases |ts|
  {
    if ts == [] then []
    else Output(ts[..|ts| - 1], atr) + Emitted(RunTicks(ts[..|ts| - 1], atr), ts[|ts| - 1])
  }

  // ---------------------------------------------------------------- the batch pass

  predicate Priced(t: Tick) { t.last.Some? && t.last.value > 0.0 }

  /** With a price, and of a minute no earlier such tick has passed. */
  predicate Accepted(ts: seq<Tick>, i: int)
    requires 0 <= i < |ts|
  {
    Priced(ts[i]) && ts[i].minute >= 0 && forall j :: 0 <= j < i && Priced(ts[j]) ==> ts[j].minute <= ts[i].minute
  }

  function Kept(ts: seq<Tick>): seq<Tick>
    decreases |ts|
  {
    if ts == [] then []
    else Kept(ts[..|ts| - 1]) + (if Accepted(ts, |ts| - 1) then [ts[|ts| - 1]] else [])
  }

  /** The distinct minutes, in order. */
  function Minutes(a: seq<Tick>): seq<int>
    decreases |a|
  {
    if a == [] then []
    else
      var before, m := Minutes(a[..|a| - 1]), a[|a| - 1].minute;
      if before != [] && before[|before| - 1] == m then before else before + [m]
  }

  function OfMinute(a: seq<Tick>, m: int): seq<Tick>
    decreases |a|
  {
    if a == [] then []
    else OfMinute(a[..|a| - 1], m) + (if a[|a| - 1].minute == m then [a[|a| - 1]] else [])
  }

  /** The ticks up to the end of minute `m`. */
  function Through(a: seq<Tick>, m: int): seq<Tick>
    decreases |a|
  {
    if a == [] || a[|a| - 1].minute <= m then a else Through(a[..|a| - 1], m)
  }

  /** Where the volume of the last minute counts from: its latest reset, else the last tick
      of the minute before, else the very first tick. */
  function BaseIndex(a: seq<Tick>): (r: nat)
    requires a != []
    ensures r < |a|
    decreases |a|
  {
    var n := |a| - 1;
    if n == 0 || a[n].cum < a[n - 1].cum then n
    else if a[n].minute != a[n - 1].minute then n - 1
    else BaseIndex(a[..n])
  }

  function VolumeOf(a: seq<Tick>): real {
    if a == [] then 0.0 else a[|a| - 1].cum - a[BaseIndex(a)].cum
  }

  predicate AllReadable(a: seq<Tick>) { forall i :: 0 <= i < |a| ==> Readable(a[i]) }

  /** First, highest, lowest and last price of a group of ticks. */
  ghost predicate Prices(open: real, high: real, low: real, close: real, a: seq<Tick>) {
    && a != [] && AllReadable(a)
    && open == a[0].last.value
    && close == a[|a| - 1].last.value
    && (forall i :: 0 <= i < |a| ==> low <= a[i].last.value <= high)
    && (exists i :: 0 <= i < |a| && a[i].last.value == high)
    && (exists i :: 0 <= i < |a| && a[i].last.value == low)
  }

  ghost predicate BarOf(bar: Bar, a: seq<Tick>, m: int) {
    && bar.minute == m
    && Prices(bar.open, bar.high, bar.low, bar.close, OfMinute(a, m))
    && bar.volume == VolumeOf(Through(a, m))
  }

  /** `bars` are the batch bars of the accepted ticks `a`, the last minute left out. */
  ghost predicate BatchBars(bars: seq<Bar>, a: seq<Tick>) {
    var ms := Minutes(a);
    && |bars| == (if ms == [] then 0 else |ms| - 1)
    && forall i :: 0 <= i < |bars| ==> BarOf(bars[i], a, ms[i])
  }

  // ---------------------------------------------------------------- facts about the batch pass

  predicate Sorted(a: seq<Tick>) { forall i, j :: 0 <= i <= j < |a| ==> a[i].minute <= a[j].minute }

  lemma {:induction false} MinutesAscend(a: seq<Tick>)
    requires Sorted(a)
    ensures a != [] ==> Minutes(a) != [] && Minutes(a)[|Minutes(a)| - 1] == a[|a| - 1].minute
    ensures forall i, j :: 0 <= i < j < |Minutes(a)| ==> Minutes(a)[i] < Minutes(a)[j]
    decreases |a|
  {
    if |a| <= 1 {
    } else {
      MinutesAscend(a[..|a| - 1]);
    }
  }

  /** The latest minute accepted so far. */
  function Top(a: seq<Tick>): int { if a == [] then -1 else a[|a| - 1].minute }

  lemma {:induction false} KeptTop(ts: seq<Tick>)
    ensures Top(Kept(ts)) >= -1
    ensures forall j :: 0 <= j < |ts| && Readable(ts[j]) ==> ts[j].minute <= Top(Kept(ts))
    ensures Top(Kept(ts)) >= 0 ==> exists j :: 0 <= j < |ts| && Readable(ts[j]) && ts[j].minute == Top(Kept(ts))
    decreases |ts|
  {
    if ts == [] {
    } else {
      var n := |ts| - 1;
      var before := ts[..n];
      KeptTop(before);
      forall j | 0 <= j < n ensures ts[j] == before[j] {}
      if !Accepted(ts, n) && Top(Kept(before)) >= 0 {
        var j :| 0 <= j < |before| && Readable(before[j]) && before[j].minute == Top(Kept(before));
        assert ts[j] == before[j];
      }
    }
  }

  /** What the builder tests is what the batch pass asks of the whole past. */
  lemma AcceptedIff(ts: seq<Tick>)
    requires ts != []
    ensures var n := |ts| - 1;
            Accepted(ts, n) <==> Readable(ts[n]) && ts[n].minute >= 0 && ts[n].minute >= Top(Kept(ts[..n]))
  {
    var n := |ts| - 1;
    var before := ts[..n];
    KeptTop(before);
    hide Kept, Top;
    if Accepted(ts, n) && Top(Kept(before)) >= 0 {
      var j :| 0 <= j < |before| && Readable(before[j]) && before[j].minute == Top(Kept(before));
      assert ts[j] == before[j];
    }
    forall j | 0 <= j < n ensures ts[j] == before[j] {}
  }

  lemma {:induction false} KeptSorted(ts: seq<Tick>)
    ensures Sorted(Kept(ts)) && AllReadable(Kept(ts))
    ensures Kept(ts) != [] ==> Top(Kept(ts)) >= 0
    decreases |ts|
  {
    if ts == [] {
    } else {
      KeptSorted(ts[..|ts| - 1]);
      AcceptedIff(ts);
      hide Accepted;
    }
  }

  lemma {:induction false} BaseIndexSpec(a: seq<Tick>)
    requires a != []
    ensures forall i :: BaseIndex(a) < i < |a| ==> a[i - 1].cum <= a[i].cum
    ensures a[BaseIndex(a)].cum <= a[|a| - 1].cum
    decreases |a|
  {
    var n := |a| - 1;
    if n == 0 {
    } else if a[n].cum >= a[n - 1].cum && a[n].minute == a[n - 1].minute {
      BaseIndexSpec(a[..n]);
    }
  }

  lemma Append(a: seq<Tick>, t: Tick, m: int)
    ensures OfMinute(a + [t], m) == OfMinute(a, m) + (if t.minute == m then [t] else [])
    ensures m < t.minute ==> Through(a + [t], m) == Through(a, m)
    ensures a != [] ==> Through(a, Top(a)) == a
  {
    assert (a + [t])[..|a|] == a;
  }

  lemma AppendMinutes(a: seq<Tick>, t: Tick)
    requires Sorted(a)
    ensures Minutes(a + [t]) == if a != [] && Top(a) == t.minute then Minutes(a) else Minutes(a) + [t.minute]
  {
    MinutesAscend(a);
    assert (a + [t])[..|a|] == a;
  }

  lemma AppendBase(a: seq<Tick>, t: Tick)
    ensures BaseIndex(a + [t]) ==
            if a == [] || t.cum < a[|a| - 1].cum then |a|
            else if t.minute != Top(a) then |a| - 1
            else BaseIndex(a)
  {
    assert (a + [t])[..|a|] == a;
  }

  lemma {:induction false} NothingYet(a: seq<Tick>, m: int)
    requires Sorted(a) && m > Top(a)
    ensures OfMinute(a, m) == []
    decreases |a|
  {
    if a == [] {
    } else {
      var b := a[..|a| - 1];
      if b != [] {
        assert Top(b) <= Top(a);
        NothingYet(b, m);
      }
    }
  }

  lemma PricesGrow(open: real, high: real, low: real, close: real, g: seq<Tick>, t: Tick)
    requires Prices(open, high, low, close, g) && Readable(t)
    ensures var p := t.last.value; Prices(open, Max(high, p), Min(low, p), p, g + [t])
  {
    var p := t.last.value;
    var h := g + [t];
    assert h[|g|] == t;
    var i :| 0 <= i < |g| && g[i].last.value == high;
    var j :| 0 <= j < |g| && g[j].last.value == low;
    assert h[i] == g[i] && h[j] == g[j];
  }

  // ---------------------------------------------------------------- the builder's state

  /** The builder's state is determined by the ticks accepted so far. */
  ghost predicate Streams(a: seq<Tick>, s: Session) {
    && BatchBars(s.ctx.bars, a)
    && (a == [] ==> s.forming.None? && s.baseCum.None?)
    && (a != [] ==> s.forming.Some? && FormsLast(a, s.forming.value)
                    && s.lastCum == Some(a[|a| - 1].cum) && s.baseCum == Some(a[BaseIndex(a)].cum))
  }

  ghost predicate FormsLast(a: seq<Tick>, f: Forming) {
    f.minute == Top(a) && Prices(f.open, f.high, f.low, f.close, OfMinute(a, Top(a)))
  }

  /** Bars of finished minutes do not depend on later ticks. */
  lemma BarKept(bar: Bar, a: seq<Tick>, m: int, t: Tick)
    requires BarOf(bar, a, m) && m < t.minute
    ensures BarOf(bar, a + [t], m)
  {
    Append(a, t, m);
    hide Prices, OfMinute, Through;
    assert OfMinute(a, m) + [] == OfMinute(a, m);
  }

  lemma BatchBarsKept(bars: seq<Bar>, a: seq<Tick>, t: Tick)
    requires Sorted(a) && Top(a) <= t.minute && BatchBars(bars, a)
    ensures forall i :: 0 <= i < |bars| ==> BarOf(bars[i], a + [t], Minutes(a)[i])
  {
    MinutesAscend(a);
    hide BarOf, Minutes;
    forall i | 0 <= i < |bars| ensures BarOf(bars[i], a + [t], Minutes(a)[i]) {
      assert BarOf(bars[i], a, Minutes(a)[i]);
      assert Minutes(a)[i] < Minutes(a)[|Minutes(a)| - 1];
      BarKept(bars[i], a, Minutes(a)[i], t);
    }
  }

  /** Closing the forming bucket gives the batch bar of the last minute. */
  lemma FormedBarIsBatch(a: seq<Tick>, s: Session)
    requires a != [] && Streams(a, s)
    ensures BarOf(FormedBar(s), a, Top(a))
    ensures FormedBar(s).volume == s.lastCum.value - s.baseCum.value >= 0.0
  {
    hide Prices, OfMinute, Minutes, BatchBars, BaseIndex;
    BaseIndexSpec(a);
    Append(a, a[0], Top(a));
    hide Through;
  }

  lemma SameMinute(a: seq<Tick>, s: Session, t: Tick, atr: Atr)
    requires Shaped(s.ctx) && Streams(a, s) && Sorted(a)
    requires Readable(t) && a != [] && t.minute == Top(a)
    ensures Streams(a + [t], OnTick(s, t, atr))
  {
    hide Prices, BarOf, Minutes, BaseIndex, OfMinute, Through;
    AppendMinutes(a, t);
    AppendBase(a, t);
    BatchBarsKept(s.ctx.bars, a, t);
    Append(a, t, t.minute);
    var f := s.forming.value;
    PricesGrow(f.open, f.high, f.low, f.close, OfMinute(a, t.minute), t);
  }

  lemma FirstOfMinute(a: seq<Tick>, t: Tick)
    requires Sorted(a) && t.minute > Top(a) && Readable(t)
    ensures var p := t.last.value; FormsLast(a + [t], Forming(t.minute, p, p, p, p))
  {
    Append(a, t, t.minute);
    NothingYet(a, t.minute);
    assert OfMinute(a + [t], t.minute) == [t];
    assert [t][0] == t;
  }

  /** The closed bars, with the last bucket closed too, are the batch bars once a new minute comes. */
  lemma NewMinuteBars(a: seq<Tick>, s: Session, t: Tick)
    requires Streams(a, s) && Sorted(a) && t.minute > Top(a)
    ensures BatchBars(s.ctx.bars + (if a == [] then [] else [FormedBar(s)]), a + [t])
  {
    hide BarOf, FormedBar, FormsLast;
    MinutesAscend(a);
    AppendMinutes(a, t);
    BatchBarsKept(s.ctx.bars, a, t);
    if a != [] {
      FormedBarIsBatch(a, s);
      BarKept(FormedBar(s), a, Top(a), t);
    }
    BarsFollow(s.ctx.bars, if a == [] then [] else [FormedBar(s)], a + [t], Minutes(a));
  }

  lemma BarsFollow(bars: seq<Bar>, last: seq<Bar>, a: seq<Tick>, ms: seq<int>)
    requires ms <= Minutes(a) && |Minutes(a)| == |ms| + 1
    requires |bars| + |last| == |ms| && |last| <= 1
    requires forall i :: 0 <= i < |bars| ==> BarOf(bars[i], a, ms[i])
    requires last != [] ==> BarOf(last[0], a, ms[|ms| - 1])
    ensures BatchBars(bars + last, a)
  {
    hide BarOf, Minutes;
    var all := bars + last;
    forall i | 0 <= i < |all| ensures BarOf(all[i], a, Minutes(a)[i]) {
      assert Minutes(a)[i] == ms[i];
    }
  }

  lemma NewMinute(a: seq<Tick>, s: Session, t: Tick, atr: Atr)
    requires Shaped(s.ctx) && Streams(a, s) && Sorted(a)
    requires Readable(t) && t.minute >= 0 && t.minute > Top(a)
    ensures Streams(a + [t], OnTick(s, t, atr))
  {
    AppendBase(a, t);
    NewMinuteBars(a, s, t);
    FirstOfMinute(a, t);
    if a != [] {
      FormedBarIsBatch(a, s);
      LastMinute(s, a);
    }
    hide BatchBars, FormsLast, BaseIndex, Sorted;
    OpensBucket(s, t, atr);
  }

  /** A tick past the last minute closes the bucket and opens its own. */
  lemma OpensBucket(s: Session, t: Tick, atr: Atr)
    requires Shaped(s.ctx) && Readable(t) && t.minute >= 0
    requires if s.forming.Some? then t.minute > s.forming.value.minute else s.ctx.bars == []
    ensures var r, p := OnTick(s, t, atr), t.last.value;
      && r.ctx.bars == s.ctx.bars + (if s.forming.None? then [] else [FormedBar(s)])
      && r.forming == Some(Forming(t.minute, p, p, p, p))
      && r.lastCum == Some(t.cum)
      && r.baseCum == if s.forming.Some? then (if s.lastCum.Some? && s.lastCum.value <= t.cum then s.lastCum else Some(t.cum))
                      else (if s.baseCum.Some? && !(s.lastCum.Some? && t.cum < s.lastCum.value) then s.baseCum else Some(t.cum))
  {
    hide Turnover, Vwap, Retrace, Min, Max;
  }

  lemma LastMinute(s: Session, a: seq<Tick>)
    requires a != [] && Streams(a, s)
    ensures FormedBar(s).minute == Top(a)
  {
  }

  // ---------------------------------------------------------------- volume

  /** Sum of the rises of the day's cumulative volume. */
  function Rises(a: seq<Tick>): real
    decreases |a|
  {
    if |a| <= 1 then 0.0
    else Rises(a[..|a| - 1]) + Max(0.0, a[|a| - 1].cum - a[|a| - 2].cum)
  }

  predicate NeverFalls(a: seq<Tick>) { forall i :: 0 < i < |a| ==> a[i - 1].cum <= a[i].cum }

  /** Volume seen in the forming bucket so far. */
  function Pending(s: Session): real {
    if s.forming.Some? then FormedBar(s).volume else 0.0
  }

  predicate NoneNegative(bars: seq<Bar>) { forall i :: 0 <= i < |bars| ==> bars[i].volume >= 0.0 }

  ghost predicate Conserves(a: seq<Tick>, s: Session) {
    && NoneNegative(s.ctx.bars)
    && Pending(s) >= 0.0
    && SumVolume(s.ctx.bars) + Pending(s) <= Rises(a)
    && (a != [] && NeverFalls(a) ==> SumVolume(s.ctx.bars) + Pending(s) == a[|a| - 1].cum - a[0].cum)
  }

  lemma AppendRises(a: seq<Tick>, t: Tick)
    requires a != []
    ensures Rises(a + [t]) == Rises(a) + Max(0.0, t.cum - a[|a| - 1].cum)
  {
    hide Max, Rises;
    var b := a + [t];
    assert b[..|a|] == a && b[|a|] == t && b[|a| - 1] == a[|a| - 1];
    RisesLast(b, |a|);
  }

  lemma RisesLast(b: seq<Tick>, n: nat)
    requires |b| == n + 1 && n >= 1
    ensures Rises(b) == Rises(b[..n]) + Max(0.0, b[n].cum - b[n - 1].cum)
  {
    hide Max;
  }

  lemma AppendNeverFalls(a: seq<Tick>, t: Tick)
    requires NeverFalls(a + [t]) && a != []
    ensures NeverFalls(a) && a[|a| - 1].cum <= t.cum
  {
    var b := a + [t];
    assert b[|a| - 1].cum <= b[|a|].cum;
    forall i | 0 < i < |a| ensures a[i - 1].cum <= a[i].cum {
      assert b[i - 1].cum <= b[i].cum;
    }
  }

  lemma AppendVolume(bars: seq<Bar>, b: Bar)
    ensures SumVolume(bars + [b]) == SumVolume(bars) + b.volume
    ensures NoneNegative(bars) && b.volume >= 0.0 ==> NoneNegative(bars + [b])
  {
    assert (bars + [b])[..|bars|] == bars;
  }

  lemma NoVolume(t: Tick)
    ensures Rises([]) == Rises([] + [t]) == 0.0 && SumVolume([]) == 0.0
  {
  }

  /** What one accepted tick does to the closed bars and to the pending volume. */
  lemma PendingAfter(a: seq<Tick>, s: Session, t: Tick, atr: Atr)
    requires Shaped(s.ctx) && Streams(a, s)
    requires Readable(t) && t.minute >= 0 && t.minute >= Top(a)
    ensures var r := OnTick(s, t, atr);
            if a == [] then r.ctx.bars == s.ctx.bars == [] && Pending(r) == 0.0
            else
              var rise := t.cum - a[|a| - 1].cum;
              Pending(s) >= 0.0 &&
              if t.minute > Top(a)
              then r.ctx.bars == s.ctx.bars + [FormedBar(s)] && Pending(r) == Max(0.0, rise)
              else r.ctx.bars == s.ctx.bars && Pending(r) == if rise < 0.0 then 0.0 else Pending(s) + rise
  {
    if a != [] {
      FormedBarIsBatch(a, s);
    }
    hide Prices, BarOf, Minutes, BaseIndex, Sorted;
  }

  lemma StepConserves(a: seq<Tick>, s: Session, t: Tick, atr: Atr)
    requires Shaped(s.ctx) && Streams(a, s) && Conserves(a, s)
    requires Readable(t) && t.minute >= 0 && t.minute >= Top(a)
    ensures Conserves(a + [t], OnTick(s, t, atr))
  {
    PendingAfter(a, s, t, atr);
    hide Streams, OnTick, SumVolume, Rises, NeverFalls, FormedBar, NoneNegative;
    if a == [] {
      NoVolume(t);
      NoBars();
      assert [] + [t] == [t];
    } else {
      AppendRises(a, t);
      AppendVolume(s.ctx.bars, FormedBar(s));
      if NeverFalls(a + [t]) {
        AppendNeverFalls(a, t);
      }
      PendingIsFormed(a, s);
      hide Pending, Shaped;
      assert (a + [t])[|a|] == t && (a + [t])[0] == a[0];
    }
  }

  lemma NoBars()
    ensures NoneNegative([])
  {
  }

  lemma PendingIsFormed(a: seq<Tick>, s: Session)
    requires a != [] && Streams(a, s)
    ensures s.forming.Some? && Pending(s) == FormedBar(s).volume
  {
    hide BatchBars, FormsLast, FormedBar;
  }

  // ---------------------------------------------------------------- main results

  lemma {:induction false} RunStreams(ts: seq<Tick>, atr: Atr)
    ensures Streams(Kept(ts), RunTicks(ts, atr))
    ensures Conserves(Kept(ts), RunTicks(ts, atr))
    decreases |ts|
  {
    if ts == [] {
      assert SumVolume([]) == 0.0;
    } else {
      var n := |ts| - 1;
      var a, s, t := Kept(ts[..n]), RunTicks(ts[..n], atr), ts[n];
      RunStreams(ts[..n], atr);
      KeptSorted(ts[..n]);
      AcceptedIff(ts);
      assert RunTicks(ts, atr) == OnTick(s, t, atr);
      assert Kept(ts) == a + (if Accepted(ts, n) then [t] else []);
      assert a + [] == a;
      hide Kept, RunTicks, Accepted, Streams, Conserves, OnTick, Sorted;
      if Accepted(ts, n) {
        StepConserves(a, s, t, atr);
        if t.minute == Top(a) {
          SameMinute(a, s, t, atr);
        } else {
          NewMinute(a, s, t, atr);
        }
      } else {
        StaleTick(a, s, t, atr);
      }
    }
  }

  /** A tick the batch pass drops leaves no trace in the bars, open or closed. */
  lemma StaleTick(a: seq<Tick>, s: Session, t: Tick, atr: Atr)
    requires Shaped(s.ctx) && Streams(a, s) && Conserves(a, s)
    requires !(Readable(t) && t.minute >= 0 && t.minute >= Top(a))
    requires a != [] ==> Top(a) >= 0
    ensures Streams(a, OnTick(s, t, atr)) && Conserves(a, OnTick(s, t, atr))
  {
    hide Prices, BarOf, Minutes, BaseIndex;
  }

  /** The streaming builder refines the batch pass: on every tick sequence the committed
      bars are the batch bars of the accepted ticks, price by price and with their volume,
      in strictly increasing minutes, and no forming minute is among them. */
  lemma StreamingRefinesBatch(ts: seq<Tick>, atr: Atr)
    ensures BatchBars(RunTicks(ts, atr).ctx.bars, Kept(ts))
    ensures Ascending(RunTicks(ts, atr).ctx.bars)
  {
    RunStreams(ts, atr);
    KeptSorted(ts);
    MinutesAscend(Kept(ts));
    hide Kept, RunTicks, Minutes, Prices;
    var bars, a := RunTicks(ts, atr).ctx.bars, Kept(ts);
    assert forall i :: 0 <= i < |bars| ==> BarOf(bars[i], a, Minutes(a)[i]);
  }

  /** Each committed bar is handed out once, by a tick of a strictly later minute. */
  lemma {:induction false} EmittedOnce(ts: seq<Tick>, atr: Atr)
    ensures Output(ts, atr) == RunTicks(ts, atr).ctx.bars
    ensures ts != [] ==>
              var t := ts[|ts| - 1];
              var out := Emitted(RunTicks(ts[..|ts| - 1], atr), t);
              |out| <= 1 && forall b :: b in out ==> Readable(t) && b.minute < t.minute
    decreases |ts|
  {
    if ts == [] {
    } else {
      var s, t := RunTicks(ts[..|ts| - 1], atr), ts[|ts| - 1];
      EmittedOnce(ts[..|ts| - 1], atr);
      hide Commit;
      assert Shaped(s.ctx);
      CommitAppends(s, t, atr);
    }
  }

  lemma CommitAppends(s: Session, t: Tick, atr: Atr)
    requires Shaped(s.ctx)
    ensures OnTick(s, t, atr).ctx.bars == s.ctx.bars + Emitted(s, t)
  {
  }

  /** No volume is made up: closed bars and the forming bucket together never exceed the
      rises of the accepted cumulative volume, equal last minus first when it never falls,
      and no bar has negative volume, across any number of resets. */
  lemma VolumeConserved(ts: seq<Tick>, atr: Atr)
    ensures var s, a := RunTicks(ts, atr), Kept(ts);
            && (forall i :: 0 <= i < |s.ctx.bars| ==> s.ctx.bars[i].volume >= 0.0)
            && SumVolume(s.ctx.bars) + Pending(s) <= Rises(a)
            && (a != [] && NeverFalls(a) ==>
                  SumVolume(s.ctx.bars) + Pending(s) == a[|a| - 1].cum - a[0].cum)
  {
    RunStreams(ts, atr);
  }
}
