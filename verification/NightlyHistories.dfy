/** Ledgers for the nightly bound: for every list of returns one that is looked at after every trade,
    and one with a row that comes late. */
module NightlyHistories {
  import opened Optional
  import opened ExitRows
  import opened Grader
  import opened GraderAudit
  import opened EProcess
  import opened NightlyEvidence

  // ---------------------------------------------------------------- ledgers for every path

  function LegNetting(usd: real): Leg { Leg(Some(1.0), Usd(usd), Usd(usd)) }

  const LANE: string := "index_trend"

  /** The two lines of the scorecard that all rows below are on. */
  const POOLED: Line := Line(AllTrades, "unknown")
  const IN_LANE: Line := Line(Lane(LANE), "unknown")

  predicate Followed(line: Line) { line == POOLED || line == IN_LANE }

  /** A readable row of one contract bought at 1.00. */
  function TradeRow(id: string, ts: real, usd: real): ExitRow {
    var leg := Some(LegNetting(usd));
    ExitRow(Some(id), Some(ts), Some("2026-07-16"), Some([LANE]), true, Some("rule"),
            Some(Ledgers(leg, leg, leg)), None, None)
  }

  /** The row is pooled, filed once under the lane, and bet on. */
  predicate Counts(r: ExitRow) {
    && Ordered(r) && Usable(r) && Judge(r, []) == Pooled
    && CohortOf([], r.id) == "unknown" && LanesOf(r) == [LANE]
  }

  lemma TradeRowReturns(id: string, ts: real, usd: real)
    ensures var r := TradeRow(id, ts, usd); !Malformed(r) && Counts(r) && ReturnOf(r) == Some(usd / 100.0)
  {
    assert Stake(1.0, 1.0) == 100.0;
  }

  /** A ledger whose trades return `rs`, one row a day. */
  function LedgerOf(rs: seq<real>): seq<ExitRow> {
    if rs == [] then [] else LedgerOf(rs[..|rs| - 1]) + [DayRow(|rs|, rs[|rs| - 1])]
  }

  function DayRow(n: nat, r: real): ExitRow { TradeRow(seq(n, _ => 'x'), n as real, 100.0 * r) }

  lemma DayRowIs(n: nat, r: real)
    ensures var x := DayRow(n, r);
      && !Malformed(x) && Counts(x) && ReturnOf(x) == Some(r)
      && x.id.Some? && |x.id.value| == n && Ts(x) == n as real
  {
    TradeRowReturns(seq(n, _ => 'x'), n as real, 100.0 * r);
  }

  lemma OneCopy(r: ExitRow)
    requires Counts(r)
    ensures Copies(LanesOf(r), LANE, r) == [r]
  {
    assert [LANE][..0] == [];
  }

  lemma PoolAppend(s: seq<ExitRow>, x: ExitRow)
    requires AllOrdered(s) && Counts(x)
    ensures With(s + [x], Pooled, []) == With(s, Pooled, []) + [x]
    ensures LaneRows(s + [x], LANE) == LaneRows(s, LANE) + [x]
    ensures CohortRows(s + [x], [], "unknown") == CohortRows(s, [], "unknown") + [x]
    ensures AllOrdered(s + [x]) && Returns(s + [x]) == Returns(s) + [ReturnOf(x).value]
  {
    OneCopy(x);
    hide Ordered, Judge, CohortOf, Usable, ReturnOf, LanesOf, Copies;
    assert (s + [x])[..|s|] == s;
  }

  /** Nothing is dropped or moved. */
  predicate Plain(l: seq<ExitRow>) { Readable(l) == l && SortByTime(l) == l && FirstRows(l) == l }

  /** Every row is pooled, filed under the lane, and bet on. */
  predicate Pools(l: seq<ExitRow>, rs: seq<real>) {
    && With(l, Pooled, []) == l && LaneRows(l, LANE) == l && CohortRows(l, [], "unknown") == l
    && AllOrdered(l) && Returns(l) == rs
  }

  /** The names and stamps of the rows go up to their number. */
  predicate Dated(l: seq<ExitRow>) {
    forall i :: 0 <= i < |l| ==> l[i].id.Some? && |l[i].id.value| <= |l| && Ts(l[i]) <= |l| as real
  }

  predicate Straight(l: seq<ExitRow>, rs: seq<real>) { |l| == |rs| && Plain(l) && Pools(l, rs) && Dated(l) }

  lemma PlainAppend(l: seq<ExitRow>, x: ExitRow)
    requires Plain(l) && !Malformed(x) && AllUpTo(l, Ts(x)) && FirstOf(l, x.id).None?
    ensures Plain(l + [x]) && OnTime(l, x)
  {
    hide Malformed, Readable, SortByTime, FirstRows, InsertByTime, FirstOf, Earliest, AllUpTo;
    ReadableAppend(l, x);
    SortAppend(l, x);
    InsertAtEnd(l, x);
    FirstRowsAppend(l, x);
    SortPutsEarliestFirst(l, x.id);
  }

  lemma DatedAppend(l: seq<ExitRow>, x: ExitRow)
    requires Dated(l) && x.id.Some? && |x.id.value| == |l| + 1 && Ts(x) == |l| as real + 1.0
    ensures Dated(l + [x]) && AllUpTo(l, Ts(x)) && FirstOf(l, x.id).None?
  {
    FirstOfIsIn(l, x.id);
    hide FirstOf, Ts;
    var all := l + [x];
    forall i | 0 <= i < |all|
      ensures all[i].id.Some? && |all[i].id.value| <= |all| && Ts(all[i]) <= |all| as real {
      if i < |l| { assert all[i] == l[i]; } else { assert all[i] == x; }
    }
  }

  lemma StraightAppend(l: seq<ExitRow>, rs: seq<real>, r: real)
    requires Straight(l, rs)
    ensures Straight(l + [DayRow(|rs| + 1, r)], rs + [r])
    ensures OnTime(l, DayRow(|rs| + 1, r))
  {
    hide DayRow, Malformed, Ordered, Counts, ReturnOf, With, LaneRows, CohortRows, Returns, AllOrdered,
         Plain, Dated, OnTime, FirstOf, AllUpTo, Ts;
    var x := DayRow(|rs| + 1, r);
    DayRowIs(|rs| + 1, r);
    DatedAppend(l, x);
    PlainAppend(l, x);
    PoolAppend(l, x);
  }

  lemma NoneIsStraight()
    ensures Straight([], [])
  {
  }

  lemma LedgerStep(rs: seq<real>, r: real)
    ensures LedgerOf(rs + [r]) == LedgerOf(rs) + [DayRow(|rs| + 1, r)]
  {
    hide DayRow;
    assert (rs + [r])[..|rs|] == rs;
  }

  lemma {:induction false} LedgerIsStraight(rs: seq<real>)
    ensures Straight(LedgerOf(rs), rs)
    decreases |rs|
  {
    hide Straight, DayRow;
    if rs == [] {
      NoneIsStraight();
    } else {
      hide LedgerOf;
      var init, r := rs[..|rs| - 1], rs[|rs| - 1];
      assert rs == init + [r];
      LedgerIsStraight(init);
      LedgerStep(init, r);
      StraightAppend(LedgerOf(init), init, r);
    }
  }

  function NightsOf(rs: seq<real>): seq<Night> { seq(|rs| + 1, k requires 0 <= k <= |rs| => Night(LedgerOf(rs[..k]), [])) }

  lemma NightOf(rs: seq<real>, line: Line)
    requires Followed(line)
    ensures NightReturns(Night(LedgerOf(rs), []), line) == rs
  {
    hide Readable, SortByTime, FirstRows, With, LaneRows, CohortRows, Returns, AllOrdered, LedgerOf, Dated;
    LedgerIsStraight(rs);
  }

  lemma NightsFollow(rs: seq<real>, r: real)
    ensures Follows(Night(LedgerOf(rs), []), Night(LedgerOf(rs + [r]), []))
  {
    hide LedgerOf, DayRow, OnTime, Kept, Straight;
    LedgerIsStraight(rs);
    LedgerStep(rs, r);
    OneMoreSame(LedgerOf(rs), rs, r);
  }

  lemma OneMoreSame(l: seq<ExitRow>, rs: seq<real>, r: real)
    requires Straight(l, rs)
    ensures var x := DayRow(|rs| + 1, r); GrowsOnTime(l, (l + [x])[|l|..])
  {
    hide DayRow, OnTime, Straight;
    var x := DayRow(|rs| + 1, r);
    StraightAppend(l, rs, r);
    assert (l + [x])[|l|..] == [x];
    assert l + [x][..0] == l;
  }

  /** Every list of returns has such a history, pooled and within a lane, looked at after every
      single trade. */
  lemma HistoriesExist(rs: seq<real>, line: Line)
    requires Followed(line)
    ensures HistoryOf(NightsOf(rs), line, rs)
    ensures forall k :: 0 <= k <= |rs| ==> NightReturns(NightsOf(rs)[k], line) == rs[..k]
  {
    hide LedgerOf, NightReturns, Follows;
    forall k | 0 <= k <= |rs| ensures NightReturns(NightsOf(rs)[k], line) == rs[..k] { NightOf(rs[..k], line); }
    forall k | 0 <= k < |rs| ensures Follows(NightsOf(rs)[k], NightsOf(rs)[k + 1]) {
      assert rs[..k + 1] == rs[..k] + [rs[k]];
      NightsFollow(rs[..k], rs[k]);
    }
    assert rs[..|rs|] == rs;
  }

  // ---------------------------------------------------------------- a row that comes late

  const WINNER: ExitRow := TradeRow("a", 2.0, 200.0)
  const LATE_LOSER: ExitRow := TradeRow("b", 1.0, -100.0)
  const FIRST_NIGHT: Night := Night([WINNER], [])
  const SECOND_NIGHT: Night := Night([WINNER, LATE_LOSER], [])

  lemma OneRow(r: ExitRow)
    requires !Malformed(r)
    ensures Readable([r]) == [r] && SortByTime([r]) == [r] && FirstRows([r]) == [r]
    ensures forall id :: FirstOf([r], id) == Earliest([r], id) == if r.id == id then Some(r) else None
  {
    hide Malformed;
    assert [r][..0] == [];
  }

  lemma OneRowCounts(r: ExitRow)
    requires Counts(r)
    ensures With([r], Pooled, []) == [r] && LaneRows([r], LANE) == [r] && CohortRows([r], [], "unknown") == [r]
    ensures Returns([r]) == [ReturnOf(r).value]
  {
    OneCopy(r);
    hide Ordered, Judge, CohortOf, Usable, ReturnOf, LanesOf, Copies;
    assert [r][..0] == [];
  }

  lemma TwoRows(a: ExitRow, b: ExitRow)
    requires Ordered(a) && Counts(b)
    ensures var l := [a, b];
      && With(l, Pooled, []) == With([a], Pooled, []) + [b]
      && LaneRows(l, LANE) == LaneRows([a], LANE) + [b]
      && CohortRows(l, [], "unknown") == CohortRows([a], [], "unknown") + [b]
      && Returns(l) == Returns([a]) + [ReturnOf(b).value]
  {
    OneCopy(b);
    hide Malformed, Ordered, Judge, CohortOf, Usable, ReturnOf, LanesOf, Copies;
    assert [a, b][..1] == [a];
  }

  lemma FirstNight(line: Line)
    requires Followed(line)
    ensures Readable([WINNER]) == Kept([WINNER]) == [WINNER] && NightReturns(FIRST_NIGHT, line) == [2.0]
    ensures Earliest([WINNER], LATE_LOSER.id).None?
  {
    TradeRowReturns("a", 2.0, 200.0);
    hide Malformed, Ordered, Counts, ReturnOf, Readable, SortByTime, FirstRows, With, LaneRows, CohortRows, Returns;
    OneRow(WINNER);
    OneRowCounts(WINNER);
  }

  lemma BothCount()
    ensures !Malformed(WINNER) && Counts(WINNER) && ReturnOf(WINNER) == Some(2.0)
    ensures !Malformed(LATE_LOSER) && Counts(LATE_LOSER) && ReturnOf(LATE_LOSER) == Some(-1.0)
    ensures WINNER.id != LATE_LOSER.id && Ts(LATE_LOSER) < Ts(WINNER)
  {
    TradeRowReturns("a", 2.0, 200.0);
    TradeRowReturns("b", 1.0, -100.0);
    hide Malformed, Counts, Ordered, ReturnOf;
  }

  /** The late row is sorted in front. */
  lemma LateIsFirst()
    ensures Kept([WINNER, LATE_LOSER]) == [LATE_LOSER, WINNER]
  {
    BothCount();
    OneRow(WINNER);
    OneRow(LATE_LOSER);
    hide Malformed, Counts, Ordered, ReturnOf, Readable, SortByTime, FirstRows, FirstOf, TradeRow;
    assert [WINNER] + [LATE_LOSER] == [WINNER, LATE_LOSER] && [LATE_LOSER] + [WINNER] == [LATE_LOSER, WINNER];
    ReadableAppend([WINNER], LATE_LOSER);
    SortAppend([WINNER], LATE_LOSER);
    assert [] + [WINNER] == [WINNER];
    InsertAppend([], WINNER, LATE_LOSER);
    FirstRowsAppend([LATE_LOSER], WINNER);
  }

  lemma TwoReturns(exits: seq<ExitRow>, a: ExitRow, b: ExitRow, line: Line)
    requires Followed(line) && Kept(exits) == [a, b]
    requires Counts(a) && Counts(b)
    ensures NightReturns(Night(exits, []), line) == [ReturnOf(a).value, ReturnOf(b).value]
  {
    assert Ordered(a);
    OneRowCounts(a);
    TwoRows(a, b);
    hide Malformed, Counts, Ordered, ReturnOf, Kept, With, LaneRows, CohortRows, Returns;
    assert [a] + [b] == [a, b];
    assert EvidenceRows(Night(exits, []), line) == [a, b];
  }

  lemma SecondNight(line: Line)
    requires Followed(line)
    ensures NightReturns(SECOND_NIGHT, line) == [-1.0, 2.0]
  {
    BothCount();
    LateIsFirst();
    hide Malformed, Counts, Ordered, ReturnOf, Kept, NightReturns, TradeRow;
    TwoReturns([WINNER, LATE_LOSER], LATE_LOSER, WINNER, line);
  }

  /** One row with an earlier stamp, written after a night's look: that night's returns are no
      prefix of the next night's, and the wealth it saw is more than any prefix of the returns
      finally on record has; so pooled, and so in its lane. */
  lemma LateRowEscapes(line: Line)
    requires Followed(line)
    ensures !OnTime([WINNER], LATE_LOSER)
    ensures !(NightReturns(FIRST_NIGHT, line) <= NightReturns(SECOND_NIGHT, line))
    ensures Wealth(NightReturns(FIRST_NIGHT, line)) > 1.2
    ensures !SomeLook(NightReturns(SECOND_NIGHT, line), 1.2)
  {
    hide NightReturns, Wealth;
    FirstNight(line);
    SecondNight(line);
    LateRow();
    TwoTrades();
    var rs: seq<real> := [-1.0, 2.0];
    assert [2.0][0] != rs[0];
    forall k | 0 <= k <= |rs| ensures Wealth(rs[..k]) < 1.2 {
      assert rs[..k] == if k == 0 then [] else if k == 1 then [-1.0] else rs;
    }
  }

  lemma LateRow()
    ensures !OnTime([WINNER], LATE_LOSER)
  {
    TradeRowReturns("b", 1.0, -100.0);
    FirstNight(POOLED);
    hide Malformed, Readable, Kept, Earliest;
    assert Ts([WINNER][0]) > Ts(LATE_LOSER);
  }

  lemma TwoTrades()
    ensures Wealth([]) == 1.0 && Wealth([-1.0]) < 1.2 && Wealth([2.0]) > 1.2 && Wealth([-1.0, 2.0]) < 1.2
  {
    OneTrade(-1.0);
    OneTrade(2.0);
    assert [] + [-1.0] == [-1.0] && [] + [2.0] == [2.0] && [-1.0] + [2.0] == [-1.0, 2.0];
    OneBet(0.05, [], -1.0);
    OneBet(0.10, [], -1.0);
    OneBet(0.20, [], -1.0);
    OneBet(0.05, [-1.0], 2.0);
    OneBet(0.10, [-1.0], 2.0);
    OneBet(0.20, [-1.0], 2.0);
  }
}
