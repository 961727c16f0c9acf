/** The rules of the grading on the fields of a row: which rows are read, in which order, which verdict they
    get, and which cohort and lanes they count for. */
module GraderRules {
  import opened Numbers
  import opened Optional
  import opened ExitRows
  import opened Grader
  import opened GraderAudit
  import EProcess

  // ---------------------------------------------------------------- reading a row

  /** The three nets of a row, when all are numbers. */
  predicate Nets(r: ExitRow, worst: real, base: real, optimistic: real) {
    && r.ledgers.Some?
    && r.ledgers.value.worst.Some? && r.ledgers.value.worst.value.net == Usd(worst)
    && r.ledgers.value.base.Some? && r.ledgers.value.base.value.net == Usd(base)
    && r.ledgers.value.optimistic.Some? && r.ledgers.value.optimistic.value.net == Usd(optimistic)
  }

  predicate LegRead(l: Option<Leg>) { l.Some? && l.value.net != Missing && l.value.gross != Missing }

  /** A row is read exactly when all its parts are there. */
  lemma ReadIff(r: ExitRow)
    ensures !Malformed(r) <==>
      && r.ledgers.Some?
      && LegRead(r.ledgers.value.worst) && LegRead(r.ledgers.value.base) && LegRead(r.ledgers.value.optimistic)
      && r.day.Some? && |r.day.value| == 10 && r.lanes.Some? && |r.lanes.value| > 0
      && r.decomposed && r.rule.Some? && |r.rule.value| > 0
  {
  }

  /** The fills are accounted for exactly when the nets are numbers that rise from the worst to the
      optimistic ledger, a billionth of a dollar aside. */
  lemma OrderedIff(r: ExitRow)
    ensures Ordered(r) <==> exists w, b, o :: Nets(r, w, b, o) && w - b <= 0.000000001 && b - o <= 0.000000001
  {
    if Ordered(r) {
      var l := r.ledgers.value;
      assert Nets(r, l.worst.value.net.value, l.base.value.net.value, l.optimistic.value.net.value);
    }
  }

  /** Rows are ordered by their stamps, a missing one counting as zero. */
  lemma StampIs(r: ExitRow)
    ensures r.ts.Some? ==> Ts(r) == r.ts.value
    ensures r.ts.None? ==> Ts(r) == 0.0
  {
  }

  // ---------------------------------------------------------------- what the entries say

  /** Entry `i` is the last of its position. */
  predicate LastOf(entries: seq<Entry>, id: Id, i: nat) {
    && i < |entries| && entries[i].id == id
    && forall j :: i < j < |entries| ==> entries[j].id != id
  }

  lemma {:induction false} LastEntryIs(entries: seq<Entry>, id: Id, i: nat)
    requires LastOf(entries, id, i)
    ensures LastEntry(entries, id) == Some(entries[i])
    decreases |entries|
  {
    var n := |entries| - 1;
    if i == n {
    } else {
      LastEntryIs(entries[..n], id, i);
    }
  }

  lemma {:induction false} NoEntry(entries: seq<Entry>, id: Id)
    requires forall i :: 0 <= i < |entries| ==> entries[i].id != id
    ensures LastEntry(entries, id).None?
    decreases |entries|
  {
    if entries == [] {
    } else {
      NoEntry(entries[..|entries| - 1], id);
    }
  }

  lemma {:induction false} LastExists(entries: seq<Entry>, id: Id, k: nat) returns (i: nat)
    requires k < |entries| && entries[k].id == id
    ensures LastOf(entries, id, i)
    decreases |entries|
  {
    var n := |entries| - 1;
    if entries[n].id == id {
      i := n;
    } else {
      i := LastExists(entries[..n], id, k);
    }
  }

  /** A row is set aside as halted exactly when the last entry of its position carries that flag; of the
      others exactly those out of order are violations. */
  lemma VerdictIs(r: ExitRow, entries: seq<Entry>)
    ensures Judge(r, entries) == Halted
       <==> exists i: nat :: LastOf(entries, r.id, i) && "underlying_halted" in entries[i].riskFlags
    ensures Judge(r, entries) == Pooled <==>
      && (forall i: nat :: LastOf(entries, r.id, i) ==> "underlying_halted" !in entries[i].riskFlags)
      && exists w, b, o :: Nets(r, w, b, o) && w - b <= 0.000000001 && b - o <= 0.000000001
  {
    OrderedIff(r);
    hide Ordered, LastEntry, Nets;
    if k: nat :| k < |entries| && entries[k].id == r.id {
      var i := LastExists(entries, r.id, k);
      LastEntryIs(entries, r.id, i);
      assert forall j: nat :: LastOf(entries, r.id, j) ==> j == i;
    } else {
      NoEntry(entries, r.id);
    }
  }

  /** The cohort of a row is the configuration of the last entry of its position, when it names one. */
  lemma CohortIs(entries: seq<Entry>, id: Id, i: nat)
    requires LastOf(entries, id, i)
    ensures CohortOf(entries, id) ==
      match entries[i].config case None => "unknown" case Some(c) => if |c| > 0 then c else "unknown"
  {
    LastEntryIs(entries, id, i);
    hide LastEntry;
  }

  lemma NoCohort(entries: seq<Entry>, id: Id)
    requires forall i :: 0 <= i < |entries| ==> entries[i].id != id
    ensures CohortOf(entries, id) == "unknown"
  {
    NoEntry(entries, id);
    hide LastEntry;
  }

  /** A row counts for the lanes it names, and for the lane `?` when it names none. */
  lemma LanesAre(r: ExitRow, lane: string)
    ensures lane in LanesOf(r) <==> if r.lanes.Some? && |r.lanes.value| > 0 then lane in r.lanes.value else lane == "?"
  {
  }

  // ---------------------------------------------------------------- the evidence line

  /** The mean return is the one that, taken `n` times, makes up their sum. */
  lemma MeanIs(rs: seq<real>)
    ensures rs == [] <==> MeanOf(rs).None?
    ensures rs != [] ==> MeanOf(rs).value * |rs| as real == Sum(rs)
  {
  }

  lemma SumNext(rs: seq<real>, r: real)
    ensures Sum([]) == 0.0 && Sum(rs + [r]) == Sum(rs) + r
  {
    assert (rs + [r])[..|rs|] == rs;
  }

  /** The line of a cohort, whatever rows it is given: count, mean and unlock. */
  lemma LineIs(rows: seq<ExitRow>)
    requires AllOrdered(rows)
    ensures var e := EvidenceFor(rows);
      && e.n == |Returns(rows)| && e.n + e.skipped == |rows| && e.mean == MeanOf(Returns(rows))
      && e.wealth == EProcess.Wealth(Returns(rows))
      && (e.unlock == SizedLive <==> e.wealth >= 20.0) && (e.unlock == Pilot <==> 5.0 <= e.wealth < 20.0)
  {
    BetOrSkipped(rows);
    hide Returns, Skipped, EProcess.Wealth, AllOrdered;
  }
}
