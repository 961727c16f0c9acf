/** The nightly grader: quarantine the rows that must not count, pool the rest once each, and
    compute the betting evidence per cohort. */
module Grader {
  import opened Numbers
  import opened Optional
  import opened ExitRows
  import EProcess

  datatype Entry = Entry(id: Id, riskFlags: seq<string>, config: Option<string>)

  datatype Verdict = Halted | Violation | Pooled

  datatype Report = Report(
    malformed: seq<Id>, duplicates: seq<Id>, halted: seq<Id>, violations: seq<Id>, stale: seq<Id>,
    pooled: seq<ExitRow>, byLane: map<string, seq<ExitRow>>)

  datatype Unlock = Locked | Pilot | SizedLive

  datatype EvidenceRow = EvidenceRow(n: nat, wealth: real, mean: Option<real>, skipped: nat, unlock: Unlock)

  const SLACK: real := 0.000000001

  // ---------------------------------------------------------------- entries by position

  /** The last entry of a position, as a dictionary built in file order keeps it. */
  function LastEntry(entries: seq<Entry>, id: Id): Option<Entry> {
    if entries == [] then None
    else if entries[|entries| - 1].id == id then Some(entries[|entries| - 1])
    else LastEntry(entries[..|entries| - 1], id)
  }

  function FlagsOf(entries: seq<Entry>, id: Id): seq<string> {
    var e := LastEntry(entries, id); if e.Some? then e.value.riskFlags else []
  }

  function ConfigOf(e: Entry): string {
    if e.config.Some? && e.config.value != "" then e.config.value else "unknown"
  }

  function CohortOf(entries: seq<Entry>, id: Id): string {
    var e := LastEntry(entries, id); if e.Some? then ConfigOf(e.value) else "unknown"
  }

  /** The dictionaries from position to risk flags and to cohort. */
  method IndexEntries(entries: seq<Entry>) returns (flags: map<Id, seq<string>>, cohorts: map<Id, string>)
    ensures forall id :: (if id in flags then flags[id] else []) == FlagsOf(entries, id)
    ensures forall id :: (if id in cohorts then cohorts[id] else "unknown") == CohortOf(entries, id)
  {
    flags, cohorts := map[], map[];
    for i := 0 to |entries|
      invariant forall id :: (if id in flags then flags[id] else []) == FlagsOf(entries[..i], id)
      invariant forall id :: (if id in cohorts then cohorts[id] else "unknown") == CohortOf(entries[..i], id)
    {
      assert entries[..i + 1][..i] == entries[..i];
      flags := flags[entries[i].id := entries[i].riskFlags];
      cohorts := cohorts[entries[i].id := ConfigOf(entries[i])];
    }
    assert entries[..|entries|] == entries;
  }

  // ---------------------------------------------------------------- quarantine

  function Readable(rows: seq<ExitRow>): seq<ExitRow> {
    if rows == [] then []
    else
      var last := rows[|rows| - 1];
      Readable(rows[..|rows| - 1]) + (if Malformed(last) then [] else [last])
  }

  function MalformedIds(rows: seq<ExitRow>): seq<Id> {
    if rows == [] then []
    else
      var last := rows[|rows| - 1];
      MalformedIds(rows[..|rows| - 1]) + (if Malformed(last) then [last.id] else [])
  }

  function Ids(rows: seq<ExitRow>): seq<Id> {
    if rows == [] then [] else Ids(rows[..|rows| - 1]) + [rows[|rows| - 1].id]
  }

  /** Each position's first row. */
  function FirstRows(s: seq<ExitRow>): seq<ExitRow> {
    if s == [] then []
    else
      var init, last := s[..|s| - 1], s[|s| - 1];
      FirstRows(init) + (if FirstOf(init, last.id).None? then [last] else [])
  }

  function RepeatIds(s: seq<ExitRow>): seq<Id> {
    if s == [] then []
    else
      var init, last := s[..|s| - 1], s[|s| - 1];
      RepeatIds(init) + (if FirstOf(init, last.id).None? then [] else [last.id])
  }

  function NetOf(l: Option<Leg>): Amount { if l.None? then Missing else l.value.net }

  /** The worst fill nets no more than the base fill, and that no more than the optimistic one. */
  predicate Ordered(r: ExitRow) {
    && r.ledgers.Some?
    && (var w, b, o := NetOf(r.ledgers.value.worst), NetOf(r.ledgers.value.base), NetOf(r.ledgers.value.optimistic);
        && w.Usd? && b.Usd? && o.Usd?
        && w.value <= b.value + SLACK && b.value <= o.value + SLACK)
  }

  function Judge(r: ExitRow, entries: seq<Entry>): Verdict {
    if "underlying_halted" in FlagsOf(entries, r.id) then Halted
    else if !Ordered(r) then Violation
    else Pooled
  }

  function With(s: seq<ExitRow>, v: Verdict, entries: seq<Entry>): seq<ExitRow> {
    if s == [] then []
    else
      var last := s[|s| - 1];
      With(s[..|s| - 1], v, entries) + (if Judge(last, entries) == v then [last] else [])
  }

  predicate StaleFill(r: ExitRow) { r.source.Some? && r.source.value != "fresh" }

  function StaleIds(s: seq<ExitRow>): seq<Id> {
    if s == [] then []
    else
      var last := s[|s| - 1];
      StaleIds(s[..|s| - 1]) + (if StaleFill(last) then [last.id] else [])
  }

  function LanesOf(r: ExitRow): seq<string> {
    if r.lanes.Some? && r.lanes.value != [] then r.lanes.value else ["?"]
  }

  /** A row once for every time a lane stands in a list of lanes. */
  function Copies(lanes: seq<string>, lane: string, r: ExitRow): seq<ExitRow> {
    if lanes == [] then []
    else Copies(lanes[..|lanes| - 1], lane, r) + (if lanes[|lanes| - 1] == lane then [r] else [])
  }

  function LaneRows(s: seq<ExitRow>, lane: string): seq<ExitRow> {
    if s == [] then []
    else LaneRows(s[..|s| - 1], lane) + Copies(LanesOf(s[|s| - 1]), lane, s[|s| - 1])
  }

  /** What a dictionary of lists gives for a key: the empty list when absent. */
  function At<K>(m: map<K, seq<ExitRow>>, k: K): seq<ExitRow> { if k in m then m[k] else [] }

  /** The rows that survive: readable, in order of time, first of their position. */
  function Kept(all: seq<ExitRow>): seq<ExitRow> { FirstRows(SortByTime(Readable(all))) }

  function PooledRows(all: seq<ExitRow>, entries: seq<Entry>): seq<ExitRow> { With(Kept(all), Pooled, entries) }

  // ---------------------------------------------------------------- the grading loops

  method SplitMalformed(all: seq<ExitRow>) returns (malformed: seq<Id>, exits: seq<ExitRow>)
    ensures malformed == MalformedIds(all) && exits == Readable(all)
  {
    malformed, exits := [], [];
    for i := 0 to |all|
      invariant malformed == MalformedIds(all[..i]) && exits == Readable(all[..i])
    {
      assert all[..i + 1][..i] == all[..i];
      if Malformed(all[i]) { malformed := malformed + [all[i].id]; } else { exits := exits + [all[i]]; }
    }
    assert all[..|all|] == all;
  }

  method Dedupe(exits: seq<ExitRow>) returns (deduped: seq<ExitRow>, duplicates: seq<Id>)
    ensures deduped == FirstRows(exits) && duplicates == RepeatIds(exits)
  {
    deduped, duplicates := [], [];
    var seen: set<Id> := {};
    for i := 0 to |exits|
      invariant deduped == FirstRows(exits[..i]) && duplicates == RepeatIds(exits[..i])
      invariant forall id :: id in seen <==> FirstOf(exits[..i], id).Some?
    {
      var x := exits[i];
      assert exits[..i + 1][..i] == exits[..i];
      if x.id in seen {
        duplicates := duplicates + [x.id];
      } else {
        seen := seen + {x.id};
        deduped := deduped + [x];
      }
    }
    assert exits[..|exits|] == exits;
  }

  ghost predicate AddsCopies(m: map<string, seq<ExitRow>>, was: map<string, seq<ExitRow>>, lanes: seq<string>, r: ExitRow) {
    forall lane :: At(m, lane) == At(was, lane) + Copies(lanes, lane, r)
  }

  predicate NoneEmpty(m: map<string, seq<ExitRow>>) { forall k :: k in m ==> m[k] != [] }

  lemma AddCopy(m: map<string, seq<ExitRow>>, was: map<string, seq<ExitRow>>, lanes: seq<string>, one: string, r: ExitRow)
    requires AddsCopies(m, was, lanes, r)
    ensures AddsCopies(m[one := At(m, one) + [r]], was, lanes + [one], r)
  {
    var n := m[one := At(m, one) + [r]];
    forall lane ensures At(n, lane) == At(was, lane) + Copies(lanes + [one], lane, r) {
      CopiesAppend(lanes, one, lane, r);
      hide Copies;
      assert At(m, lane) == At(was, lane) + Copies(lanes, lane, r);
      Regroup(At(was, lane), Copies(lanes, lane, r), [r]);
      assert lane != one ==> At(n, lane) == At(m, lane);
    }
  }

  lemma CopiesAppend(lanes: seq<string>, one: string, lane: string, r: ExitRow)
    ensures Copies(lanes + [one], lane, r) == Copies(lanes, lane, r) + (if one == lane then [r] else [])
    ensures one != lane ==> Copies(lanes + [one], lane, r) == Copies(lanes, lane, r)
  {
    assert (lanes + [one])[..|lanes|] == lanes;
  }

  lemma Regroup<T>(a: seq<T>, b: seq<T>, c: seq<T>)
    ensures (a + b) + c == a + (b + c)
  {
  }

  /** Append a row to the list of each of its lanes. */
  method FileUnderLanes(r: ExitRow, byLane: map<string, seq<ExitRow>>) returns (m: map<string, seq<ExitRow>>)
    ensures AddsCopies(m, byLane, LanesOf(r), r)
    ensures NoneEmpty(byLane) ==> NoneEmpty(m)
  {
    var lanes := LanesOf(r);
    m := byLane;
    assert AddsCopies(m, byLane, lanes[..0], r);
    for j := 0 to |lanes|
      invariant AddsCopies(m, byLane, lanes[..j], r)
      invariant NoneEmpty(byLane) ==> NoneEmpty(m)
    {
      hide AddsCopies, Copies, LanesOf;
      assert lanes[..j + 1] == lanes[..j] + [lanes[j]];
      AddCopy(m, byLane, lanes[..j], lanes[j], r);
      m := m[lanes[j] := At(m, lanes[j]) + [r]];
    }
    assert lanes[..|lanes|] == lanes;
  }

  /** The dictionary of lanes holds exactly each lane's rows. */
  ghost predicate Filed(m: map<string, seq<ExitRow>>, rows: seq<ExitRow>) {
    (forall lane :: At(m, lane) == LaneRows(rows, lane)) && NoneEmpty(m)
  }

  lemma FileOne(m: map<string, seq<ExitRow>>, n: map<string, seq<ExitRow>>, rows: seq<ExitRow>, r: ExitRow)
    requires Filed(m, rows) && AddsCopies(n, m, LanesOf(r), r) && NoneEmpty(n)
    ensures Filed(n, rows + [r])
  {
    hide LanesOf, Copies;
    assert (rows + [r])[..|rows|] == rows;
    forall lane ensures At(n, lane) == LaneRows(rows + [r], lane) {
      assert At(n, lane) == At(m, lane) + Copies(LanesOf(r), lane, r);
    }
  }

  lemma IdsAppend(s: seq<ExitRow>, x: ExitRow)
    ensures Ids(s + [x]) == Ids(s) + [x.id]
    ensures StaleIds(s + [x]) == StaleIds(s) + (if StaleFill(x) then [x.id] else [])
  {
    assert (s + [x])[..|s|] == s;
  }

  lemma WithStep(s: seq<ExitRow>, i: nat, v: Verdict, entries: seq<Entry>)
    requires i < |s|
    ensures With(s[..i + 1], v, entries) == With(s[..i], v, entries) + (if Judge(s[i], entries) == v then [s[i]] else [])
    ensures Judge(s[i], entries) != v ==> With(s[..i + 1], v, entries) == With(s[..i], v, entries)
  {
    hide Judge;
    assert s[..i + 1][..i] == s[..i];
  }

  /** Every surviving row is set aside or pooled. */
  method Quarantine(exits: seq<ExitRow>, flags: map<Id, seq<string>>, ghost entries: seq<Entry>)
    returns (halted: seq<Id>, violations: seq<Id>, stale: seq<Id>, pooled: seq<ExitRow>, byLane: map<string, seq<ExitRow>>)
    requires forall id :: (if id in flags then flags[id] else []) == FlagsOf(entries, id)
    ensures halted == Ids(With(exits, Halted, entries))
    ensures violations == Ids(With(exits, Violation, entries))
    ensures pooled == With(exits, Pooled, entries)
    ensures stale == StaleIds(pooled) && Filed(byLane, pooled)
  {
    halted, violations, stale, pooled, byLane := [], [], [], [], map[];
    for i := 0 to |exits|
      invariant halted == Ids(With(exits[..i], Halted, entries))
      invariant violations == Ids(With(exits[..i], Violation, entries))
      invariant pooled == With(exits[..i], Pooled, entries)
      invariant stale == StaleIds(pooled) && Filed(byLane, pooled)
    {
      hide With, Ids, StaleIds, Filed, Ordered, FlagsOf, LanesOf, AddsCopies, StaleFill;
      var x := exits[i];
      WithStep(exits, i, Halted, entries);
      WithStep(exits, i, Violation, entries);
      WithStep(exits, i, Pooled, entries);
      if "underlying_halted" in (if x.id in flags then flags[x.id] else []) {
        IdsAppend(With(exits[..i], Halted, entries), x);
        halted := halted + [x.id];
      } else if !Ordered(x) {
        IdsAppend(With(exits[..i], Violation, entries), x);
        violations := violations + [x.id];
      } else {
        IdsAppend(pooled, x);
        if StaleFill(x) { stale := stale + [x.id]; }
        FiledNoneEmpty(byLane, pooled);
        var m := FileUnderLanes(x, byLane);
        FileOne(byLane, m, pooled, x);
        byLane := m;
        pooled := pooled + [x];
      }
    }
    assert exits[..|exits|] == exits;
  }

  lemma FiledNoneEmpty(m: map<string, seq<ExitRow>>, rows: seq<ExitRow>)
    requires Filed(m, rows)
    ensures NoneEmpty(m)
  {
  }

  /** The whole pipeline over the exit ledger. */
  method Grade(all: seq<ExitRow>, entries: seq<Entry>) returns (g: Report)
    ensures g.malformed == MalformedIds(all)
    ensures g.duplicates == RepeatIds(SortByTime(Readable(all)))
    ensures g.halted == Ids(With(Kept(all), Halted, entries))
    ensures g.violations == Ids(With(Kept(all), Violation, entries))
    ensures g.pooled == PooledRows(all, entries)
    ensures g.stale == StaleIds(g.pooled) && Filed(g.byLane, g.pooled)
  {
    var flags, _ := IndexEntries(entries);
    var malformed, exits := SplitMalformed(all);
    exits := SortByTime(exits);
    var duplicates;
    exits, duplicates := Dedupe(exits);
    var halted, violations, stale, pooled, byLane := Quarantine(exits, flags, entries);
    g := Report(malformed, duplicates, halted, violations, stale, pooled, byLane);
  }

  // ---------------------------------------------------------------- evidence

  /** Return on premium of the worst ledger; None when the entry fill or the size is unusable. */
  function ReturnOf(r: ExitRow): Option<real>
    requires Ordered(r)
  {
    var leg := r.ledgers.value.worst.value;
    var fill := if leg.entryFill.Some? then leg.entryFill.value else 0.0;
    var contracts := if r.contracts.Some? && r.contracts.value != 0.0 then r.contracts.value else 1.0;
    if fill <= 0.0 || contracts <= 0.0 then None else Some(leg.net.value / Stake(contracts, fill))
  }

  /** The premium paid, in dollars. */
  function Stake(contracts: real, fill: real): (p: real)
    requires contracts > 0.0 && fill > 0.0
    ensures p > 0.0
  {
    100.0 * contracts * fill
  }

  predicate Usable(r: ExitRow)
    requires Ordered(r)
  {
    !StaleFill(r) && ReturnOf(r).Some?
  }

  predicate AllOrdered(rows: seq<ExitRow>) { forall i :: 0 <= i < |rows| ==> Ordered(rows[i]) }

  /** The returns bet on, in the order of the rows. */
  function Returns(rows: seq<ExitRow>): seq<real>
    requires AllOrdered(rows)
  {
    if rows == [] then []
    else
      var last := rows[|rows| - 1];
      Returns(rows[..|rows| - 1]) + (if Usable(last) then [ReturnOf(last).value] else [])
  }

  function Skipped(rows: seq<ExitRow>): nat
    requires AllOrdered(rows)
  {
    if rows == [] then 0 else Skipped(rows[..|rows| - 1]) + (if Usable(rows[|rows| - 1]) then 0 else 1)
  }

  function CohortRows(rows: seq<ExitRow>, entries: seq<Entry>, c: string): (s: seq<ExitRow>)
    ensures AllOrdered(rows) ==> AllOrdered(s)
  {
    if rows == [] then []
    else
      var last := rows[|rows| - 1];
      CohortRows(rows[..|rows| - 1], entries, c) + (if CohortOf(entries, last.id) == c then [last] else [])
  }

  function UnlockAt(w: real): Unlock {
    if w >= EProcess.WEALTH_LIVE then SizedLive else if w >= EProcess.WEALTH_PILOT then Pilot else Locked
  }

  function MeanOf(rs: seq<real>): Option<real> {
    if rs == [] then None else Some(Sum(rs) / (|rs| as real))
  }

  function EvidenceFor(rows: seq<ExitRow>): EvidenceRow
    requires AllOrdered(rows)
  {
    var rs := Returns(rows);
    EvidenceRow(|rs|, EProcess.Wealth(rs), MeanOf(rs), Skipped(rows), UnlockAt(EProcess.Wealth(rs)))
  }

  lemma SortKeepsOrdered(rows: seq<ExitRow>)
    requires AllOrdered(rows)
    ensures AllOrdered(SortByTime(rows))
  {
    SortSorts(rows);
    var s := SortByTime(rows);
    forall i | 0 <= i < |s| ensures Ordered(s[i]) {
      assert s[i] in multiset(s);
      assert s[i] in multiset(rows);
    }
  }

  /** From a cohort's rows to its evidence line. */
  method CohortEvidence(crows: seq<ExitRow>) returns (e: EvidenceRow)
    requires AllOrdered(crows)
    ensures AllOrdered(SortByTime(crows)) && e == EvidenceFor(SortByTime(crows))
  {
    SortKeepsOrdered(crows);
    var rows := SortByTime(crows);
    var rs: seq<real>, skipped := [], 0;
    for i := 0 to |rows|
      invariant rs == Returns(rows[..i]) && skipped == Skipped(rows[..i])
    {
      var r := rows[i];
      assert rows[..i + 1][..i] == rows[..i];
      if StaleFill(r) {
        skipped := skipped + 1;
      } else {
        var rp := ReturnOf(r);
        if rp.None? { skipped := skipped + 1; } else { rs := rs + [rp.value]; }
      }
    }
    assert rows[..|rows|] == rows;
    var w := EProcess.EprocessWealth(rs);
    e := EvidenceRow(|rs|, w, MeanOf(rs), skipped, UnlockAt(w));
  }

  /** The line of a cohort is the evidence of its rows in order of time. */
  predicate IsEvidenceAt(e: EvidenceRow, c: string, rows: seq<ExitRow>, entries: seq<Entry>)
    requires AllOrdered(rows)
  {
    var s := SortByTime(CohortRows(rows, entries, c));
    AllOrdered(s) && e == EvidenceFor(s)
  }

  ghost predicate IsEvidence(out: map<string, EvidenceRow>, rows: seq<ExitRow>, entries: seq<Entry>)
    requires AllOrdered(rows)
  {
    && (forall c :: c in out <==> CohortRows(rows, entries, c) != [])
    && (forall c :: c in out ==> IsEvidenceAt(out[c], c, rows, entries))
  }

  ghost predicate Grouped(m: map<string, seq<ExitRow>>, rows: seq<ExitRow>, entries: seq<Entry>) {
    (forall c :: At(m, c) == CohortRows(rows, entries, c)) && NoneEmpty(m)
  }

  lemma GroupOne(m: map<string, seq<ExitRow>>, rows: seq<ExitRow>, r: ExitRow, entries: seq<Entry>)
    requires Grouped(m, rows, entries)
    ensures var c := CohortOf(entries, r.id); Grouped(m[c := At(m, c) + [r]], rows + [r], entries)
  {
    hide CohortOf;
    assert (rows + [r])[..|rows|] == rows;
    var c := CohortOf(entries, r.id);
    var n := m[c := At(m, c) + [r]];
    forall d ensures At(n, d) == CohortRows(rows + [r], entries, d) {
      assert d != c ==> At(n, d) == At(m, d);
    }
  }

  method GroupByCohort(rows: seq<ExitRow>, cohorts: map<Id, string>, ghost entries: seq<Entry>)
    returns (byCohort: map<string, seq<ExitRow>>)
    requires forall id :: (if id in cohorts then cohorts[id] else "unknown") == CohortOf(entries, id)
    ensures Grouped(byCohort, rows, entries)
  {
    byCohort := map[];
    assert Grouped(byCohort, rows[..0], entries);
    for i := 0 to |rows|
      invariant Grouped(byCohort, rows[..i], entries)
    {
      hide Grouped, CohortOf;
      assert rows[..i + 1] == rows[..i] + [rows[i]];
      var c := if rows[i].id in cohorts then cohorts[rows[i].id] else "unknown";
      GroupOne(byCohort, rows[..i], rows[i], entries);
      byCohort := byCohort[c := At(byCohort, c) + [rows[i]]];
    }
    assert rows[..|rows|] == rows;
  }

  lemma GroupedAt(m: map<string, seq<ExitRow>>, rows: seq<ExitRow>, entries: seq<Entry>, c: string)
    requires Grouped(m, rows, entries)
    ensures c in m ==> m[c] == CohortRows(rows, entries, c)
    ensures c in m <==> CohortRows(rows, entries, c) != []
  {
    assert At(m, c) == CohortRows(rows, entries, c);
  }

  /** Evidence per entry cohort. */
  method Evidence(rows: seq<ExitRow>, entries: seq<Entry>) returns (out: map<string, EvidenceRow>)
    requires AllOrdered(rows)
    ensures IsEvidence(out, rows, entries)
  {
    hide Grouped, CohortOf, CohortRows, SortByTime, AllOrdered, EvidenceFor;
    var _, cohorts := IndexEntries(entries);
    var byCohort := GroupByCohort(rows, cohorts, entries);
    out := map[];
    var left := byCohort.Keys;
    while left != {}
      invariant out.Keys == byCohort.Keys - left && left <= byCohort.Keys
      invariant forall c :: c in out ==> IsEvidenceAt(out[c], c, rows, entries)
      decreases |left|
    {
      var c :| c in left;
      GroupedAt(byCohort, rows, entries, c);
      var e := CohortEvidence(byCohort[c]);
      out := out[c := e];
      left := left - {c};
    }
    forall c ensures c in out <==> CohortRows(rows, entries, c) != [] {
      GroupedAt(byCohort, rows, entries, c);
    }
  }
}
