/**
 Ticks, one-minute bars and the session context of one symbol, as a state that a tick or
 a seeded history bar moves to the next one.  Prices and volumes are real numbers; a
 missing or unreadable number is `None`.
 */
module Bars {
  import opened Numbers
  import opened Optional

  /** `minute` is minutes since midnight in New York; `cum` the volume of the day so far. */
  datatype Tick = Tick(minute: int, last: Option<real>, spread: Option<real>, cum: real)

  datatype Bar = Bar(minute: int, open: real, high: real, low: real, close: real, volume: real)

  datatype Snapshot = Snapshot(svwap: real, atr5m: Option<real>, hod: real,
                               retrace: Option<real>, spread: Option<real>)

  datatype Forming = Forming(minute: int, open: real, high: real, low: real, close: real)

  /** The committed bars and what is kept up to date about them. */
  datatype Context = Context(
    bars: seq<Bar>,
    cumPv: real, cumV: real,
    hod: Option<real>, hodIdx: int,
    prefixMinLow: seq<real>,
    snaps: map<int, Snapshot>)

  datatype Session = Session(
    forming: Option<Forming>,
    baseCum: Option<real>, lastCum: Option<real>, curSpread: Option<real>,
    ctx: Context)

  /** The five-minute range estimate is some function of the bars committed so far. */
  type Atr = seq<Bar> -> Option<real>

  predicate Readable(t: Tick) { t.last.Some? && t.last.value > 0.0 }

  function OrZero(x: Option<real>): real { if x.Some? then x.value else 0.0 }

  /** Typical price times volume. */
  function Turnover(b: Bar): real { (b.high + b.low + b.close) / 3.0 * b.volume }

  function Vwap(pv: real, v: real, close: real): real { if v > 0.0 then pv / v else close }

  /** How much of the leg from the impulse low to the session high has been given back. */
  function Retrace(hod: real, impulseLow: real, close: real): Option<real> {
    var leg := hod - impulseLow;
    if leg > 0.0 then Some((hod - close) / leg) else None
  }

  const EMPTY: Session := Session(None, None, None, None, Context([], 0.0, 0.0, None, -1, [], map[]))

  // ---------------------------------------------------------------- transitions

  /** What indexing the running minimum needs. */
  predicate Shaped(x: Context) {
    |x.prefixMinLow| == |x.bars| && -1 <= x.hodIdx < |x.bars| && (x.hod.Some? <==> 0 <= x.hodIdx)
  }

  function Commit(x: Context, bar: Bar, spread: Option<real>, atr: Atr): (r: Context)
    requires Shaped(x)
    ensures Shaped(r)
  {
    var bars := x.bars + [bar];
    var cumPv := x.cumPv + Turnover(bar);
    var cumV := x.cumV + bar.volume;
    var low := if x.prefixMinLow == [] then bar.low
               else Min(x.prefixMinLow[|x.prefixMinLow| - 1], bar.low);
    var prefixMinLow := x.prefixMinLow + [low];
    var newHigh := x.hod.None? || bar.high >= x.hod.value;
    var hod := if newHigh then bar.high else x.hod.value;
    var hodIdx := if newHigh then |bars| - 1 else x.hodIdx;
    var snap := Snapshot(Vwap(cumPv, cumV, bar.close), atr(bars), hod,
                         Retrace(hod, prefixMinLow[hodIdx], bar.close), spread);
    Context(bars, cumPv, cumV, Some(hod), hodIdx, prefixMinLow, x.snaps[bar.minute := snap])
  }

  /** The bar the forming bucket would close to. */
  function FormedBar(s: Session): Bar
    requires s.forming.Some?
  {
    var base := if s.baseCum.Some? then s.baseCum.value else OrZero(s.lastCum);
    var f := s.forming.value;
    Bar(f.minute, f.open, f.high, f.low, f.close, Max(0.0, OrZero(s.lastCum) - base))
  }

  function Rolled(s: Session): Session { s.(baseCum := s.lastCum, forming := None) }

  predicate Covered(x: Context, minute: int) { x.bars != [] && minute <= x.bars[|x.bars| - 1].minute }

  function SeedBar(s: Session, bar: Bar, atr: Atr): (r: Session)
    requires Shaped(s.ctx)
    ensures Shaped(r.ctx)
  {
    if Covered(s.ctx, bar.minute) then s else s.(ctx := Commit(s.ctx, bar, s.curSpread, atr))
  }

  /** A tick of a later minute closes the forming bucket. */
  predicate Closes(s: Session, t: Tick) { s.forming.Some? && t.minute > s.forming.value.minute }

  function AfterRoll(s: Session, t: Tick, atr: Atr): (r: Session)
    requires Shaped(s.ctx)
    ensures Shaped(r.ctx)
  {
    if Closes(s, t) then Rolled(s).(ctx := Commit(s.ctx, FormedBar(s), s.curSpread, atr)) else s
  }

  /** Volume bookkeeping common to every tick that is taken into a bucket. */
  function Settle(s: Session, t: Tick): Session {
    s.(baseCum := if s.lastCum.Some? && t.cum < s.lastCum.value then Some(t.cum) else s.baseCum,
       lastCum := Some(t.cum))
  }

  function OnTick(s: Session, t: Tick, atr: Atr): (r: Session)
    requires Shaped(s.ctx)
    ensures Shaped(r.ctx)
  {
    if !Readable(t) then s
    else
      var p := t.last.value;
      var s1 := AfterRoll(s, t, atr);
      if s1.forming.None? then
        if Covered(s1.ctx, t.minute) || t.minute < 0 then s1.(lastCum := Some(t.cum))
        else
          Settle(s1.(forming := Some(Forming(t.minute, p, p, p, p)),
                     baseCum := if s1.baseCum.None? then Some(t.cum) else s1.baseCum,
                     curSpread := t.spread), t)
      else if t.minute == s1.forming.value.minute then
        var f := s1.forming.value;
        Settle(s1.(forming := Some(f.(high := Max(f.high, p), low := Min(f.low, p), close := p)),
                   curSpread := t.spread), t)
      else s1
  }

  /** The bars a tick completes. */
  function Emitted(s: Session, t: Tick): seq<Bar> {
    if Readable(t) && Closes(s, t) then [FormedBar(s)] else []
  }

  // ---------------------------------------------------------------- whole runs

  datatype Event = Live(tick: Tick) | Seed(bar: Bar)

  function Step(s: Session, e: Event, atr: Atr): (r: Session)
    requires Shaped(s.ctx)
    ensures Shaped(r.ctx)
  {
    match e
    case Live(t) => OnTick(s, t, atr)
    case Seed(b) => SeedBar(s, b, atr)
  }

  function Run(s: Session, events: seq<Event>, atr: Atr): (r: Session)
    requires Shaped(s.ctx)
    ensures Shaped(r.ctx)
    decreases |events|
  {
    if events == [] then s else Step(Run(s, events[..|events| - 1], atr), events[|events| - 1], atr)
  }
}
