/** The three fills of a quote and the exit rows built from them: why a row the shadow book writes
    passes the grading checks, and how much a bet on it can lose. */
module FillMath {
  import opened Numbers
  import opened Optional
  import opened ExitRows
  import opened Grader
  import EProcess

  const BASE_FILL_FRAC: real := 0.35

  datatype Fills = Fills(worst: real, base: real, optimistic: real)

  /** A quote as the fill rules read it: no negative prices, and the ask lifted to the bid. */
  datatype Quote = Quote(bid: real, ask: real)

  function Clean(bid: real, ask: real): Quote {
    var b, a := Max(0.0, bid), Max(0.0, ask);
    Quote(b, if a < b then b else a)
  }

  function EntryFills(bid: real, ask: real): Fills {
    var q := Clean(bid, ask);
    var mid := (q.bid + q.ask) / 2.0;
    Fills(q.ask, mid + BASE_FILL_FRAC * (q.ask - mid), mid)
  }

  function ExitFills(bid: real, ask: real): Fills {
    var q := Clean(bid, ask);
    var mid := (q.bid + q.ask) / 2.0;
    Fills(q.bid, mid - BASE_FILL_FRAC * (mid - q.bid), mid)
  }

  /** What a position remembers of its entry. */
  datatype Position = Position(id: string, lanes: seq<string>, fills: Fills, contracts: int)

  function Net(entry: real, exit: real, contracts: int): real { (exit - entry) * (100.0 * contracts as real) }

  function LegOf(entry: real, exit: real, gross: real, contracts: int): Leg {
    Leg(Some(entry), Usd(gross), Usd(Net(entry, exit, contracts)))
  }

  /** The exit row of a position closed at a quote.  The row does not carry the contract count. */
  function BuildExit(pos: Position, ts: real, day: string, rule: string, bid: real, ask: real,
                     source: Option<string>): ExitRow
  {
    var x, e := ExitFills(bid, ask), pos.fills;
    var gross := Net(e.optimistic, x.optimistic, pos.contracts);
    ExitRow(Some(pos.id), Some(ts), Some(day), Some(pos.lanes), true, Some(rule),
            Some(Ledgers(Some(LegOf(e.worst, x.worst, gross, pos.contracts)),
                         Some(LegOf(e.base, x.base, gross, pos.contracts)),
                         Some(LegOf(e.optimistic, x.optimistic, gross, pos.contracts)))),
            None, source)
  }

  /** A position entered through the fill rules. */
  ghost predicate Entered(pos: Position) { exists bid, ask :: pos.fills == EntryFills(bid, ask) }

  /** Buying costs most on the worst ledger and least on the optimistic one. */
  lemma EntryFillsOrdered(bid: real, ask: real)
    ensures var f := EntryFills(bid, ask); 0.0 <= f.optimistic <= f.base <= f.worst
  {
  }

  /** Selling brings least on the worst ledger and most on the optimistic one. */
  lemma ExitFillsOrdered(bid: real, ask: real)
    ensures var f := ExitFills(bid, ask); 0.0 <= f.worst <= f.base <= f.optimistic
  {
  }

  /** The three fills of a clean quote: the far side, 35 hundredths of the way there, the middle. */
  lemma FillsOf(bid: real, ask: real)
    requires 0.0 <= bid <= ask
    ensures EntryFills(bid, ask) == Fills(ask, 0.325 * bid + 0.675 * ask, 0.5 * bid + 0.5 * ask)
    ensures ExitFills(bid, ask) == Fills(bid, 0.675 * bid + 0.325 * ask, 0.5 * bid + 0.5 * ask)
  {
  }

  /** Any other quote is read as a clean one: negative prices as zero, a crossed ask as the bid. */
  lemma QuotesCleaned(bid: real, ask: real)
    ensures bid < 0.0 ==> EntryFills(bid, ask) == EntryFills(0.0, ask) && ExitFills(bid, ask) == ExitFills(0.0, ask)
    ensures ask < 0.0 ==> EntryFills(bid, ask) == EntryFills(bid, 0.0) && ExitFills(bid, ask) == ExitFills(bid, 0.0)
    ensures 0.0 <= ask < bid ==> EntryFills(bid, ask) == EntryFills(bid, bid) && ExitFills(bid, ask) == ExitFills(bid, bid)
  {
  }

  /** A net is a hundred times the contracts times the move of the fills. */
  lemma NetIs(entry: real, exit: real, contracts: int)
    ensures Net(entry, exit, contracts) == (exit - entry) * (100.0 * contracts as real)
  {
  }

  /** What the row of a position closed at a clean quote says: each ledger its own entry and net, all of
      them the gross between the two middles; no contract count; the rest as given. */
  lemma BuiltRowSays(pos: Position, ts: real, day: string, rule: string, bid: real, ask: real, source: Option<string>)
    requires 0.0 <= bid <= ask
    ensures var r, e, k := BuildExit(pos, ts, day, rule, bid, ask, source), pos.fills, pos.contracts;
      var gross := Usd(Net(e.optimistic, 0.5 * bid + 0.5 * ask, k));
      && r.ledgers == Some(Ledgers(
           Some(Leg(Some(e.worst), gross, Usd(Net(e.worst, bid, k)))),
           Some(Leg(Some(e.base), gross, Usd(Net(e.base, 0.675 * bid + 0.325 * ask, k)))),
           Some(Leg(Some(e.optimistic), gross, gross))))
      && r.id == Some(pos.id) && r.ts == Some(ts) && r.day == Some(day) && r.lanes == Some(pos.lanes) && r.decomposed
      && r.rule == Some(rule) && r.contracts.None? && r.source == source
  {
    FillsOf(bid, ask);
    hide ExitFills, Net;
  }

  lemma NetMonotone(e: real, x: real, e': real, x': real, contracts: int)
    requires contracts >= 0 && e >= e' && x <= x'
    ensures Net(e, x, contracts) <= Net(e', x', contracts)
  {
    var k := 100.0 * contracts as real;
    Times(x - e, x' - e', k);
  }

  lemma Times(a: real, b: real, k: real)
    requires a <= b && k >= 0.0
    ensures a * k <= b * k
  {
  }

  lemma BuiltRowsOrdered(pos: Position, ts: real, day: string, rule: string, bid: real, ask: real, source: Option<string>)
    requires Entered(pos) && pos.contracts >= 0
    ensures Ordered(BuildExit(pos, ts, day, rule, bid, ask, source))
  {
    hide EntryFills, ExitFills, Net;
    var b, a :| pos.fills == EntryFills(b, a);
    var e, x := EntryFills(b, a), ExitFills(bid, ask);
    EntryFillsOrdered(b, a);
    ExitFillsOrdered(bid, ask);
    NetMonotone(e.worst, x.worst, e.base, x.base, pos.contracts);
    NetMonotone(e.base, x.base, e.optimistic, x.optimistic, pos.contracts);
  }

  /** Every row the builders write is readable and has its three nets in order: nothing the shadow
      book itself books is ever quarantined as an identity violation. */
  lemma BuiltRowsPass(pos: Position, ts: real, day: string, rule: string, bid: real, ask: real, source: Option<string>)
    requires Entered(pos) && pos.contracts >= 0
    ensures var r := BuildExit(pos, ts, day, rule, bid, ask, source);
      && Ordered(r)
      && (!Malformed(r) <==> |day| == 10 && pos.lanes != [] && rule != "")
  {
    hide EntryFills, ExitFills, Net, Ordered;
    BuiltRowsOrdered(pos, ts, day, rule, bid, ask, source);
  }

  lemma ReturnArithmetic(e: real, x: real, k: real)
    requires e > 0.0
    ensures (x - e) * (100.0 * k) / (100.0 * 1.0 * e) == k * (x / e) - k
  {
    var d := 100.0 * e;
    assert (x - e) * (100.0 * k) == (k * (x / e) - k) * d by {
      assert x / e * e == x;
      assert (k * (x / e) - k) * d == 100.0 * k * (x / e * e) - 100.0 * k * e;
    }
  }

  /** Relative move of the worst fills, times the contract count. */
  function Move(pos: Position, exit: real): real
    requires pos.fills.worst != 0.0
  {
    pos.contracts as real * (exit / pos.fills.worst) - pos.contracts as real
  }

  lemma RowReturn(pos: Position, ts: real, day: string, rule: string, bid: real, ask: real, source: Option<string>)
    requires Ordered(BuildExit(pos, ts, day, rule, bid, ask, source)) && pos.fills.worst > 0.0
    ensures ReturnOf(BuildExit(pos, ts, day, rule, bid, ask, source)) ==
      Some(Net(pos.fills.worst, ExitFills(bid, ask).worst, pos.contracts) / (100.0 * 1.0 * pos.fills.worst))
  {
    hide EntryFills, ExitFills, Net, Ordered;
  }

  lemma NetRatio(pos: Position, x: real)
    requires pos.fills.worst > 0.0
    ensures Net(pos.fills.worst, x, pos.contracts) / (100.0 * 1.0 * pos.fills.worst) == Move(pos, x)
  {
    ReturnArithmetic(pos.fills.worst, x, pos.contracts as real);
  }

  /** The return the evidence bets on: `contracts` times the relative move of the worst fills, because
      the row lacks the contract count the net was scaled by; no bet without an entry price. */
  lemma BuiltReturn(pos: Position, ts: real, day: string, rule: string, bid: real, ask: real, source: Option<string>)
    requires Entered(pos) && pos.contracts >= 0
    ensures var r := BuildExit(pos, ts, day, rule, bid, ask, source);
      && Ordered(r)
      && (pos.fills.worst <= 0.0 ==> ReturnOf(r).None?)
      && (pos.fills.worst > 0.0 ==> ReturnOf(r) == Some(Move(pos, ExitFills(bid, ask).worst)))
  {
    hide EntryFills, ExitFills, Move, Ordered, Net;
    BuiltRowsOrdered(pos, ts, day, rule, bid, ask, source);
    if pos.fills.worst > 0.0 {
      RowReturn(pos, ts, day, rule, bid, ask, source);
      NetRatio(pos, ExitFills(bid, ask).worst);
    }
  }

  /** The evidence bets on a built row exactly when it was filled from a fresh quote, or is not marked,
      and has an entry price. */
  lemma BuiltRowBetsIff(pos: Position, ts: real, day: string, rule: string, bid: real, ask: real, source: Option<string>)
    requires Entered(pos) && pos.contracts >= 0
    ensures var r := BuildExit(pos, ts, day, rule, bid, ask, source);
      Ordered(r) && (Usable(r) <==> (source == None || source == Some("fresh")) && pos.fills.worst > 0.0)
  {
    hide EntryFills, ExitFills, Ordered, Net, ReturnOf;
    BuiltReturn(pos, ts, day, rule, bid, ask, source);
  }

  /** No bet on a built row can lose more than the premium, whatever the exit quote, exactly when
      the position is at most one contract: the bound the betting evidence rests on. */
  lemma LossBoundedIff(pos: Position, ts: real, day: string, rule: string, source: Option<string>)
    requires Entered(pos) && pos.contracts >= 0 && pos.fills.worst > 0.0
    ensures (forall bid, ask :: ReturnAtLeast(BuildExit(pos, ts, day, rule, bid, ask, source), -1.0))
      <==> pos.contracts <= 1
  {
    forall bid, ask | pos.contracts <= 1
      ensures ReturnAtLeast(BuildExit(pos, ts, day, rule, bid, ask, source), -1.0) {
      BuiltReturn(pos, ts, day, rule, bid, ask, source);
      ExitFillsOrdered(bid, ask);
      Quotient(ExitFills(bid, ask).worst, pos.fills.worst);
    }
    if pos.contracts > 1 {
      BuiltReturn(pos, ts, day, rule, 0.0, 0.0, source);
      assert ExitFills(0.0, 0.0).worst / pos.fills.worst == 0.0;
      assert !ReturnAtLeast(BuildExit(pos, ts, day, rule, 0.0, 0.0, source), -1.0);
    }
  }

  predicate ReturnAtLeast(r: ExitRow, x: real) { Ordered(r) && ReturnOf(r).Some? && ReturnOf(r).value >= x }

  lemma Quotient(x: real, e: real)
    requires x >= 0.0 && e > 0.0
    ensures x / e >= 0.0
  {
  }

  /** A position of `k` contracts can lose up to `k` premiums on the premium of one. */
  lemma LossWithinContracts(pos: Position, ts: real, day: string, rule: string, bid: real, ask: real, source: Option<string>)
    requires Entered(pos) && pos.contracts >= 0 && pos.fills.worst > 0.0
    ensures ReturnAtLeast(BuildExit(pos, ts, day, rule, bid, ask, source), -(pos.contracts as real))
  {
    hide BuildExit, EntryFills, ExitFills, ReturnOf, Ordered;
    BuiltReturn(pos, ts, day, rule, bid, ask, source);
    ExitFillsOrdered(bid, ask);
    Quotient(ExitFills(bid, ask).worst, pos.fills.worst);
    WholeTimes(pos.contracts as real, ExitFills(bid, ask).worst / pos.fills.worst);
  }

  lemma WholeTimes(k: real, x: real)
    requires k >= 0.0 && x >= 0.0
    ensures k * x - k >= -k
  {
  }

  /** A row the book itself wrote for a position of one contract. */
  ghost predicate BookRow(r: ExitRow) {
    exists pos, ts, day, rule, bid, ask, source ::
      Entered(pos) && pos.contracts == 1 && r == BuildExit(pos, ts, day, rule, bid, ask, source)
  }

  lemma BookRowBounded(r: ExitRow)
    requires BookRow(r)
    ensures Ordered(r) && (ReturnOf(r).Some? ==> ReturnOf(r).value >= -1.0)
  {
    hide BuildExit, EntryFills, ExitFills, ReturnOf, Ordered;
    var pos, ts, day, rule, bid, ask, source :|
      Entered(pos) && pos.contracts == 1 && r == BuildExit(pos, ts, day, rule, bid, ask, source);
    BuiltReturn(pos, ts, day, rule, bid, ask, source);
    ExitFillsOrdered(bid, ask);
    if pos.fills.worst > 0.0 { Quotient(ExitFills(bid, ask).worst, pos.fills.worst); }
  }

  /** On the book's own rows the evidence meets the premium bound of the null hypothesis: no bet in
      any list of them returns less than -1, so the lower clamp of the wealth never binds. */
  lemma {:induction false} BookReturnsBounded(rows: seq<ExitRow>)
    requires forall i :: 0 <= i < |rows| ==> BookRow(rows[i])
    ensures AllOrdered(rows)
    ensures forall k :: 0 <= k < |Returns(rows)| ==>
      Returns(rows)[k] >= -1.0 && EProcess.Clamp(Returns(rows)[k]) == Min(Returns(rows)[k], EProcess.R_CAP)
    decreases |rows|
  {
    hide BookRow, ReturnOf, Ordered;
    forall i | 0 <= i < |rows| ensures Ordered(rows[i]) { BookRowBounded(rows[i]); }
    if rows == [] {
    } else {
      BookReturnsBounded(rows[..|rows| - 1]);
      BookRowBounded(rows[|rows| - 1]);
    }
  }
}
