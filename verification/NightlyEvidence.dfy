/**
 Every night's grading looks at a ledger that has grown since.  When do the returns of one
 night extend those of the nights before, so that every night's wealth is the wealth of some
 prefix of one list of returns, and the bound on the evidence covers all nights together?
 */
module NightlyEvidence {
  import opened Numbers
  import opened Optional
  import opened ExitRows
  import opened Grader
  import opened GraderAudit
  import opened EProcess

  // ---------------------------------------------------------------- one more exit row

  /** The row changes nothing already kept: it is malformed, or repeats a position no earlier than
      the row kept for it, or is of a new position and no earlier than any row kept. */
  predicate OnTime(all: seq<ExitRow>, x: ExitRow) {
    || Malformed(x)
    || (var e := Earliest(Readable(all), x.id);
        if e.Some? then Ts(e.value) <= Ts(x) else AllUpTo(Kept(all), Ts(x)))
  }

  lemma ReadableAppend(all: seq<ExitRow>, x: ExitRow)
    ensures Readable(all + [x]) == if Malformed(x) then Readable(all) else Readable(all) + [x]
  {
    hide Malformed;
    assert (all + [x])[..|all|] == all;
  }

  lemma SortAppend(rows: seq<ExitRow>, x: ExitRow)
    ensures SortByTime(rows + [x]) == InsertByTime(SortByTime(rows), x)
  {
    hide InsertByTime;
    assert (rows + [x])[..|rows|] == rows;
  }

  lemma FirstRowsAppend(s: seq<ExitRow>, x: ExitRow)
    ensures FirstRows(s + [x]) == if FirstOf(s, x.id).None? then FirstRows(s) + [x] else FirstRows(s)
  {
    hide FirstOf;
    assert (s + [x])[..|s|] == s;
  }

  lemma InsertAppend(s: seq<ExitRow>, last: ExitRow, x: ExitRow)
    ensures InsertByTime(s + [last], x) == if Ts(last) <= Ts(x) then s + [last] + [x] else InsertByTime(s, x) + [last]
  {
    assert (s + [last])[..|s|] == s;
  }

  lemma InsertAtEnd(s: seq<ExitRow>, x: ExitRow)
    requires AllUpTo(s, Ts(x))
    ensures InsertByTime(s, x) == s + [x]
  {
  }

  /** A row of a new position is inserted among the kept rows. */
  lemma {:induction false} InsertNew(s: seq<ExitRow>, x: ExitRow)
    requires InOrder(s) && FirstOf(s, x.id).None?
    ensures FirstRows(InsertByTime(s, x)) == InsertByTime(FirstRows(s), x)
    decreases |s|
  {
    hide InOrder, FirstRows, FirstOf, InsertByTime, AllUpTo;
    if s == [] {
      NoRows(x);
    } else {
      var init, last := s[..|s| - 1], s[|s| - 1];
      assert s == init + [last];
      InOrderAppend(init, last);
      FirstOfAppend(init, last, x.id);
      FirstRowsAppend(init, last);
      InsertAppend(init, last, x);
      if Ts(last) <= Ts(x) {
        UpToMore(init, last, Ts(x));
        FirstRowsAppend(s, x);
        FirstRowsUpTo(s, Ts(x));
        InsertAtEnd(FirstRows(s), x);
      } else {
        InsertNew(init, x);
        FirstOfInsert(init, x, last.id);
        FirstRowsAppend(InsertByTime(init, x), last);
        InsertAppend(FirstRows(init), last, x);
        LastIsOther(init, last, x);
      }
    }
  }

  lemma LastIsOther(init: seq<ExitRow>, last: ExitRow, x: ExitRow)
    requires FirstOf(init + [last], x.id).None?
    ensures last.id != x.id && FirstOf(init, x.id).None?
  {
    FirstOfAppend(init, last, x.id);
  }

  lemma NoRows(x: ExitRow)
    ensures FirstRows([]) == [] && InsertByTime([], x) == [x] && FirstRows([x]) == [x]
  {
    assert [x][..0] == [];
  }

  lemma UpToMore(init: seq<ExitRow>, last: ExitRow, t: real)
    requires AllUpTo(init, Ts(last)) && Ts(last) <= t
    ensures AllUpTo(init + [last], t)
  {
  }

  /** A later row of a position already there is dropped. */
  lemma {:induction false} InsertRepeat(s: seq<ExitRow>, x: ExitRow)
    requires InOrder(s)
    requires FirstOf(s, x.id).Some? && Ts(FirstOf(s, x.id).value) <= Ts(x)
    ensures FirstRows(InsertByTime(s, x)) == FirstRows(s)
    decreases |s|
  {
    hide InOrder, FirstRows, InsertByTime, AllUpTo;
    assert s != [];
    hide FirstOf;
    var init, last := s[..|s| - 1], s[|s| - 1];
    assert s == init + [last];
    InOrderAppend(init, last);
    FirstOfAppend(init, last, x.id);
    FirstRowsAppend(init, last);
    InsertAppend(init, last, x);
    if Ts(last) <= Ts(x) {
      FirstRowsAppend(s, x);
    } else {
      InsertRepeat(init, x);
      FirstOfInsert(init, x, last.id);
      FirstRowsAppend(InsertByTime(init, x), last);
    }
  }

  /** An earlier row of a position takes the place of the one kept. */
  lemma InsertEarlier(s: seq<ExitRow>, x: ExitRow)
    requires InOrder(s)
    requires FirstOf(s, x.id).Some? && Ts(x) < Ts(FirstOf(s, x.id).value)
    ensures !(FirstRows(s) <= FirstRows(InsertByTime(s, x)))
  {
    hide InOrder, FirstRows, InsertByTime;
    var e, t := FirstOf(s, x.id).value, InsertByTime(s, x);
    FirstOfIsIn(s, x.id);
    FirstOfInsert(s, x, x.id);
    KeptIff(s, e);
    KeptIff(t, e);
    if FirstRows(s) <= FirstRows(t) {
      PrefixKeeps(FirstRows(s), FirstRows(t), e);
      assert false;
    }
  }

  lemma PrefixKeeps<T>(a: seq<T>, b: seq<T>, x: T)
    requires a <= b && x in a
    ensures x in b
  {
    var i :| 0 <= i < |a| && a[i] == x;
    assert b[i] == x;
  }

  /** Inserting leaves rows in order as a prefix exactly when the row comes last. */
  lemma PrefixInsert(s: seq<ExitRow>, x: ExitRow)
    requires InOrder(s)
    ensures s <= InsertByTime(s, x) <==> AllUpTo(s, Ts(x))
  {
    if AllUpTo(s, Ts(x)) {
      InsertAtEnd(s, x);
    } else {
      var init, last := s[..|s| - 1], s[|s| - 1];
      assert s == init + [last];
      InOrderAppend(init, last);
      assert Ts(last) > Ts(x) by { LastIsLatest(s, x); }
      InsertAppend(init, last, x);
      InsertPermutes(init, x);
      hide InOrder, AllUpTo, InsertByTime;
      OtherBag(InsertByTime(init, x), init, x, last);
      SameStart(s, InsertByTime(init, x), last);
    }
  }

  lemma OtherBag(t: seq<ExitRow>, s: seq<ExitRow>, x: ExitRow, y: ExitRow)
    requires multiset(t) == multiset(s) + multiset{x} && x != y
    ensures |t| == |s| + 1 && t != s + [y]
  {
    assert |multiset(t)| == |t| && |multiset(s)| == |s|;
    assert multiset(t)[x] == multiset(s)[x] + 1;
    assert multiset(s + [y])[x] == multiset(s)[x];
  }

  lemma SameStart<T>(s: seq<T>, t: seq<T>, y: T)
    requires |s| == |t|
    ensures s <= t + [y] <==> s == t
  {
    assert (t + [y])[..|s|] == t;
  }

  lemma LastIsLatest(s: seq<ExitRow>, x: ExitRow)
    requires InOrder(s) && !AllUpTo(s, Ts(x))
    ensures Ts(s[|s| - 1]) > Ts(x)
  {
  }

  /** The rows kept one night are a prefix of those kept with one row more exactly when that row is
      on time. */
  lemma LateRowIff(all: seq<ExitRow>, x: ExitRow)
    ensures Kept(all) <= Kept(all + [x]) <==> OnTime(all, x)
  {
    hide Readable, SortByTime, FirstRows, InsertByTime, InOrder, FirstOf, Earliest, AllUpTo, Malformed;
    var rows := Readable(all);
    var s := SortByTime(rows);
    ReadableAppend(all, x);
    if !Malformed(x) {
      SortAppend(rows, x);
      SortSorts(rows);
      SortPutsEarliestFirst(rows, x.id);
      if FirstOf(s, x.id).None? {
        InsertNew(s, x);
        FirstRowsInOrder(s);
        PrefixInsert(FirstRows(s), x);
      } else if Ts(FirstOf(s, x.id).value) <= Ts(x) {
        InsertRepeat(s, x);
      } else {
        InsertEarlier(s, x);
      }
    }
  }

  // ---------------------------------------------------------------- many more rows

  predicate GrowsOnTime(all: seq<ExitRow>, more: seq<ExitRow>) {
    forall i :: 0 <= i < |more| ==> OnTime(all + more[..i], more[i])
  }

  lemma {:induction false} KeptGrows(all: seq<ExitRow>, more: seq<ExitRow>)
    requires GrowsOnTime(all, more)
    ensures Kept(all) <= Kept(all + more)
    decreases |more|
  {
    hide OnTime, Kept;
    if more == [] {
      assert all + more == all;
    } else {
      var init, last := more[..|more| - 1], more[|more| - 1];
      forall i | 0 <= i < |init| ensures OnTime(all + init[..i], init[i]) {
        assert init[..i] == more[..i];
        assert OnTime(all + more[..i], more[i]);
      }
      KeptGrows(all, init);
      assert OnTime(all + init, last);
      LateRowIff(all + init, last);
      assert all + more == all + init + [last];
    }
  }

  lemma {:induction false} KeptIsReadable(all: seq<ExitRow>, r: ExitRow)
    requires r in Kept(all)
    ensures r in Readable(all)
  {
    hide Readable, SortByTime, FirstRows;
    var s := SortByTime(Readable(all));
    KeptIff(s, r);
    FirstOfIsIn(s, r.id);
    SortSorts(Readable(all));
    assert r in multiset(s);
    assert r in multiset(Readable(all));
  }

  /** A book that writes its exit rows in the order of its clock is always on time. */
  lemma ClockOrderIsOnTime(all: seq<ExitRow>, more: seq<ExitRow>)
    requires InOrder(Readable(all + more))
    ensures GrowsOnTime(all, more)
  {
    hide InOrder, Readable, OnTime;
    forall i | 0 <= i < |more| ensures OnTime(all + more[..i], more[i]) {
      SplitAt(all, more, i);
      InOrderStart(all + more[..i] + [more[i]], more[i + 1..]);
      LastIsOnTime(all + more[..i], more[i]);
    }
  }

  lemma SplitAt<T>(a: seq<T>, b: seq<T>, i: nat)
    requires i < |b|
    ensures a + b == a + b[..i] + [b[i]] + b[i + 1..]
  {
  }

  lemma {:induction false} InOrderStart(a: seq<ExitRow>, b: seq<ExitRow>)
    requires InOrder(Readable(a + b))
    ensures InOrder(Readable(a))
    decreases |b|
  {
    hide InOrder, Readable, AllUpTo, Malformed;
    if b == [] {
      assert a + b == a;
    } else {
      var init, last := b[..|b| - 1], b[|b| - 1];
      assert a + b == a + init + [last];
      ReadableAppend(a + init, last);
      InOrderAppend(Readable(a + init), last);
      InOrderStart(a, init);
    }
  }

  lemma LastIsOnTime(before: seq<ExitRow>, x: ExitRow)
    requires InOrder(Readable(before + [x]))
    ensures OnTime(before, x)
  {
    hide InOrder, Readable, Earliest, Kept, Malformed;
    ReadableAppend(before, x);
    if !Malformed(x) {
      var rows := Readable(before);
      InOrderAppend(rows, x);
      if Earliest(rows, x.id).Some? {
        var i := EarliestRow(rows, x.id);
      } else {
        forall i | 0 <= i < |Kept(before)| ensures Ts(Kept(before)[i]) <= Ts(x) {
          KeptIsReadable(before, Kept(before)[i]);
        }
      }
    }
  }

  // ---------------------------------------------------------------- from rows to returns

  lemma {:induction false} LastEntryStays(was: seq<Entry>, more: seq<Entry>, id: Id)
    requires forall i :: 0 <= i < |more| ==> more[i].id != id
    ensures LastEntry(was + more, id) == LastEntry(was, id)
    decreases |more|
  {
    if more == [] {
      assert was + more == was;
    } else {
      var init := more[..|more| - 1];
      assert (was + more)[..|was + more| - 1] == was + init;
      LastEntryStays(was, init, id);
    }
  }

  /** No entry row is added for a position that has a kept exit. */
  predicate Settled(kept: seq<ExitRow>, more: seq<Entry>) {
    forall i, j :: 0 <= i < |kept| && 0 <= j < |more| ==> kept[i].id != more[j].id
  }

  lemma {:induction false} WithGrows(s: seq<ExitRow>, t: seq<ExitRow>, entries: seq<Entry>)
    ensures With(s, Pooled, entries) <= With(s + t, Pooled, entries)
    decreases |t|
  {
    hide Judge;
    if t == [] {
      assert s + t == s;
    } else {
      assert (s + t)[..|s + t| - 1] == s + t[..|t| - 1];
      WithGrows(s, t[..|t| - 1], entries);
    }
  }

  lemma {:induction false} WithStays(s: seq<ExitRow>, was: seq<Entry>, more: seq<Entry>)
    requires Settled(s, more)
    ensures With(s, Pooled, was + more) == With(s, Pooled, was)
    decreases |s|
  {
    if s == [] {
    } else {
      var last := s[|s| - 1];
      WithStays(s[..|s| - 1], was, more);
      LastEntryStays(was, more, last.id);
      hide LastEntry, Ordered;
    }
  }

  lemma {:induction false} CohortGrows(s: seq<ExitRow>, t: seq<ExitRow>, entries: seq<Entry>, c: string)
    ensures CohortRows(s, entries, c) <= CohortRows(s + t, entries, c)
    decreases |t|
  {
    hide CohortOf, AllOrdered;
    if t == [] {
      assert s + t == s;
    } else {
      assert (s + t)[..|s + t| - 1] == s + t[..|t| - 1];
      CohortGrows(s, t[..|t| - 1], entries, c);
    }
  }

  lemma {:induction false} CohortStays(s: seq<ExitRow>, was: seq<Entry>, more: seq<Entry>, c: string)
    requires Settled(s, more)
    ensures CohortRows(s, was + more, c) == CohortRows(s, was, c)
    decreases |s|
  {
    hide AllOrdered;
    if s == [] {
    } else {
      var last := s[|s| - 1];
      CohortStays(s[..|s| - 1], was, more, c);
      LastEntryStays(was, more, last.id);
      hide LastEntry;
    }
  }

  lemma {:induction false} ReturnsGrow(s: seq<ExitRow>, t: seq<ExitRow>)
    requires AllOrdered(s) && AllOrdered(t) && s <= t
    ensures Returns(s) <= Returns(t)
    decreases |t|
  {
    hide Usable, ReturnOf, Ordered;
    if |s| == |t| {
      assert s == t;
    } else {
      assert s <= t[..|t| - 1];
      ReturnsGrow(s, t[..|t| - 1]);
    }
  }

  // ---------------------------------------------------------------- nights

  /** What the ledger files hold on one night. */
  datatype Night = Night(exits: seq<ExitRow>, entries: seq<Entry>)

  /** What an evidence table is about: every trade once, or the trades of one lane. */
  datatype Scope = AllTrades | Lane(name: string)

  /** One line of the scorecard's evidence: a cohort within a scope. */
  datatype Line = Line(scope: Scope, cohort: string)

  function ScopeRows(rows: seq<ExitRow>, scope: Scope): seq<ExitRow> {
    match scope
    case AllTrades => rows
    case Lane(name) => LaneRows(rows, name)
  }

  lemma {:induction false} LaneGrows(s: seq<ExitRow>, t: seq<ExitRow>, lane: string)
    ensures LaneRows(s, lane) <= LaneRows(s + t, lane)
    decreases |t|
  {
    hide LanesOf, Copies;
    if t == [] {
      assert s + t == s;
    } else {
      assert (s + t)[..|s + t| - 1] == s + t[..|t| - 1];
      LaneGrows(s, t[..|t| - 1], lane);
    }
  }

  lemma ScopeGrows(p: seq<ExitRow>, q: seq<ExitRow>, scope: Scope)
    requires p <= q
    ensures ScopeRows(p, scope) <= ScopeRows(q, scope)
  {
    hide LaneRows;
    if scope.Lane? {
      assert q == p + q[|p|..];
      LaneGrows(p, q[|p|..], scope.name);
    }
  }

  lemma ScopeIsIn(rows: seq<ExitRow>, scope: Scope, i: nat) returns (j: nat)
    requires i < |ScopeRows(rows, scope)|
    ensures j < |rows| && rows[j] == ScopeRows(rows, scope)[i]
  {
    hide LaneRows;
    j := i;
    if scope.Lane? {
      LaneIff(rows, scope.name, ScopeRows(rows, scope)[i]);
      j :| 0 <= j < |rows| && rows[j] == ScopeRows(rows, scope)[i];
    }
  }

  lemma ScopeSettled(rows: seq<ExitRow>, more: seq<Entry>, scope: Scope)
    requires Settled(rows, more)
    ensures Settled(ScopeRows(rows, scope), more)
  {
    hide ScopeRows;
    var s := ScopeRows(rows, scope);
    forall i, j | 0 <= i < |s| && 0 <= j < |more| ensures s[i].id != more[j].id {
      var k := ScopeIsIn(rows, scope, i);
    }
  }

  lemma ScopeInOrder(all: seq<ExitRow>, entries: seq<Entry>, scope: Scope)
    ensures var s := ScopeRows(PooledRows(all, entries), scope); InOrder(s) && AllOrdered(s)
  {
    hide InOrder, LaneRows, PooledRows, Ordered;
    var rows := PooledRows(all, entries);
    PooledInOrder(all, entries);
    if scope.Lane? { LaneInOrder(rows, scope.name); }
    forall i | 0 <= i < |ScopeRows(rows, scope)| ensures Ordered(ScopeRows(rows, scope)[i]) {
      var j := ScopeIsIn(rows, scope, i);
    }
  }

  /** The rows an evidence table of the night is computed from. */
  function NightRows(n: Night, scope: Scope): seq<ExitRow> { ScopeRows(PooledRows(n.exits, n.entries), scope) }

  function EvidenceRows(n: Night, line: Line): (s: seq<ExitRow>)
    ensures AllOrdered(s)
  {
    ScopeInOrder(n.exits, n.entries, line.scope);
    CohortRows(NightRows(n, line.scope), n.entries, line.cohort)
  }

  /** The returns the evidence of a line bets on that night. */
  function NightReturns(n: Night, line: Line): seq<real> { Returns(EvidenceRows(n, line)) }

  /** The evidence of a line is the wealth of its returns of the night. */
  lemma NightWealth(out: map<string, EvidenceRow>, n: Night, line: Line)
    requires var rows := NightRows(n, line.scope);
      AllOrdered(rows) && IsEvidence(out, rows, n.entries) && line.cohort in out
    ensures out[line.cohort].wealth == Wealth(NightReturns(n, line))
    ensures out[line.cohort].unlock != Locked <==> Wealth(NightReturns(n, line)) >= WEALTH_PILOT
  {
    hide Wealth, PooledRows, ScopeRows, CohortRows, Returns, SumOver;
    ScopeInOrder(n.exits, n.entries, line.scope);
    EvidenceInOrder(out, NightRows(n, line.scope), n.entries, line.cohort);
  }

  /** The ledger of the later night extends that of the earlier one, on time and settled. */
  predicate Follows(a: Night, b: Night) {
    && a.exits <= b.exits && a.entries <= b.entries
    && GrowsOnTime(a.exits, b.exits[|a.exits|..])
    && Settled(Kept(a.exits), b.entries[|a.entries|..])
  }

  lemma {:induction false} SettledPart(kept: seq<ExitRow>, more: seq<Entry>, v: Verdict, entries: seq<Entry>)
    requires Settled(kept, more)
    ensures Settled(With(kept, v, entries), more)
  {
    hide Judge;
    var s := With(kept, v, entries);
    forall i, j | 0 <= i < |s| && 0 <= j < |more| ensures s[i].id != more[j].id {
      WithIff(kept, v, entries, s[i]);
      var k :| 0 <= k < |kept| && kept[k] == s[i];
    }
  }

  /** The pooled rows of an earlier night are a prefix of those of a later one. */
  lemma PooledGrow(a: Night, b: Night)
    requires Follows(a, b)
    ensures PooledRows(a.exits, a.entries) <= PooledRows(b.exits, b.entries)
    ensures Settled(PooledRows(a.exits, a.entries), b.entries[|a.entries|..])
  {
    hide GrowsOnTime, Kept, With, Settled;
    var more := b.entries[|a.entries|..];
    var was, now := Kept(a.exits), Kept(b.exits);
    assert b.exits == a.exits + b.exits[|a.exits|..];
    KeptGrows(a.exits, b.exits[|a.exits|..]);
    WithStays(was, a.entries, more);
    SettledPart(was, more, Pooled, a.entries);
    assert a.entries + more == b.entries;
    assert now == was + now[|was|..];
    WithGrows(was, now[|was|..], b.entries);
  }

  lemma CohortExtends(p: seq<ExitRow>, q: seq<ExitRow>, was: seq<Entry>, more: seq<Entry>, c: string)
    requires p <= q && Settled(p, more)
    ensures CohortRows(p, was, c) <= CohortRows(q, was + more, c)
  {
    hide CohortRows, Settled;
    assert q == p + q[|p|..];
    CohortStays(p, was, more, c);
    CohortGrows(p, q[|p|..], was + more, c);
  }

  lemma EntriesSplit(a: Night, b: Night)
    requires Follows(a, b)
    ensures b.entries == a.entries + b.entries[|a.entries|..]
  {
  }

  lemma NightRowsExtend(a: Night, b: Night, scope: Scope)
    requires Follows(a, b)
    ensures NightRows(a, scope) <= NightRows(b, scope)
    ensures Settled(NightRows(a, scope), b.entries[|a.entries|..])
  {
    hide Follows, PooledRows, ScopeRows, Settled;
    PooledGrow(a, b);
    EntriesSplit(a, b);
    ScopeGrows(PooledRows(a.exits, a.entries), PooledRows(b.exits, b.entries), scope);
    ScopeSettled(PooledRows(a.exits, a.entries), b.entries[|a.entries|..], scope);
  }

  /** On every line the returns of an earlier night are a prefix of those of a later one. */
  lemma NextNightExtends(a: Night, b: Night, line: Line)
    requires Follows(a, b)
    ensures NightReturns(a, line) <= NightReturns(b, line)
  {
    hide Follows, NightRows, CohortRows, Returns, Settled, AllOrdered;
    NightRowsExtend(a, b, line.scope);
    EntriesSplit(a, b);
    CohortExtends(NightRows(a, line.scope), NightRows(b, line.scope), a.entries, b.entries[|a.entries|..], line.cohort);
    ReturnsGrow(EvidenceRows(a, line), EvidenceRows(b, line));
  }

  predicate Successive(ns: seq<Night>) { forall i :: 0 <= i < |ns| - 1 ==> Follows(ns[i], ns[i + 1]) }

  /** All nights look at prefixes of what the last one sees. */
  lemma {:induction false} NightsExtend(ns: seq<Night>, i: nat, j: nat, line: Line)
    requires Successive(ns) && i <= j < |ns|
    ensures NightReturns(ns[i], line) <= NightReturns(ns[j], line)
    decreases j - i
  {
    hide NightReturns, Follows;
    if i == j {
    } else {
      NightsExtend(ns, i, j - 1, line);
      assert Follows(ns[j - 1], ns[j - 1 + 1]);
      NextNightExtends(ns[j - 1], ns[j], line);
    }
  }

  // ---------------------------------------------------------------- the bound over all nights

  /** Probability of an event of the returns realised along a plan. */
  function Chance(t: Tree, past: seq<real>, event: seq<real> -> bool): real
    decreases t
  {
    match t
    case Stop => if event(past) then 1.0 else 0.0
    case Trade(arms) => ArmsChance(arms, past, event)
  }

  function ArmsChance(a: Arms, past: seq<real>, event: seq<real> -> bool): real
    decreases a
  {
    match a
    case Done => 0.0
    case Arm(p, r, next, others) => p * Chance(next, past + [r], event) + ArmsChance(others, past, event)
  }

  lemma {:induction false} ChanceIsProbability(t: Tree, past: seq<real>, event: seq<real> -> bool)
    requires IsPlan(t)
    ensures 0.0 <= Chance(t, past, event) <= 1.0
    decreases t, 1
  {
    if t.Stop? {
    } else {
      ArmsChanceBounded(t.arms, past, event);
    }
  }

  lemma ArmStep(a: Arms, past: seq<real>, event: seq<real> -> bool)
    requires a.Arm?
    ensures ArmsChance(a, past, event) == a.prob * Chance(a.next, past + [a.ret], event) + ArmsChance(a.others, past, event)
    ensures Mass(a) == a.prob + Mass(a.others)
  {
    hide Chance;
  }

  lemma {:induction false} ArmsChanceBounded(a: Arms, past: seq<real>, event: seq<real> -> bool)
    requires ArePlans(a)
    ensures 0.0 <= ArmsChance(a, past, event) <= Mass(a)
    decreases a, 0, 1
  {
    match a
    case Done =>
    case Arm(p, r, next, others) =>
      ArmBounded(a, past, event);
  }

  lemma {:induction false} ArmBounded(a: Arms, past: seq<real>, event: seq<real> -> bool)
    requires ArePlans(a) && a.Arm?
    ensures 0.0 <= ArmsChance(a, past, event) <= Mass(a)
    decreases a, 0, 0
  {
    hide Chance, IsPlan, Mass, ArmsChance;
    ArmStep(a, past, event);
    ChanceIsProbability(a.next, past + [a.ret], event);
    ArmsChanceBounded(a.others, past, event);
    WeighShare(a.prob, Chance(a.next, past + [a.ret], event), ArmsChance(a.others, past, event), Mass(a.others));
  }

  lemma WeighShare(p: real, x: real, rest: real, mass: real)
    requires p >= 0.0 && 0.0 <= x <= 1.0 && 0.0 <= rest <= mass
    ensures 0.0 <= p * x + rest <= p + mass
  {
    assert p * (1.0 - x) >= 0.0;
  }

  /** Some prefix of the returns has wealth at least `c`. */
  predicate SomeLook(rs: seq<real>, c: real) { exists k :: 0 <= k <= |rs| && Wealth(rs[..k]) >= c }

  predicate NotBefore(past: seq<real>, c: real) { forall k :: 0 <= k < |past| ==> Wealth(past[..k]) < c }

  lemma NotYet(past: seq<real>, r: real, c: real)
    requires NotBefore(past, c) && Wealth(past) < c
    ensures NotBefore(past + [r], c)
  {
    hide Wealth;
    var all := past + [r];
    forall k | 0 <= k < |all| ensures Wealth(all[..k]) < c {
      if k < |past| { assert all[..k] == past[..k]; } else { assert all[..k] == past; }
    }
  }

  lemma NeverLooked(past: seq<real>, c: real)
    requires NotBefore(past, c) && Wealth(past) < c
    ensures !SomeLook(past, c)
  {
    hide Wealth;
    forall k | 0 <= k <= |past| ensures Wealth(past[..k]) < c {
      if k == |past| { assert past[..k] == past; }
    }
  }

  /** An event that only happens when some look has reached `c` is no more likely than that. */
  lemma {:induction false} ChanceAtMostReach(t: Tree, past: seq<real>, event: seq<real> -> bool, c: real)
    requires IsPlan(t) && NotBefore(past, c)
    requires forall rs :: event(rs) ==> SomeLook(rs, c)
    ensures Chance(t, past, event) <= EverReaches(Wealth, t, past, c)
    decreases t, 1
  {
    hide Wealth, Mass, SomeLook, NotBefore;
    ChanceIsProbability(t, past, event);
    if Wealth(past) < c {
      match t
      case Stop => NeverLooked(past, c);
      case Trade(arms) => ArmsChanceAtMostReach(arms, past, event, c);
    }
  }

  lemma {:induction false} ArmsChanceAtMostReach(a: Arms, past: seq<real>, event: seq<real> -> bool, c: real)
    requires ArePlans(a) && NotBefore(past, c) && Wealth(past) < c
    requires forall rs :: event(rs) ==> SomeLook(rs, c)
    ensures ArmsChance(a, past, event) <= SomeArmReaches(Wealth, a, past, c)
    decreases a, 0
  {
    hide Wealth, EverReaches, Chance, SomeLook, NotBefore, IsPlan;
    match a
    case Done =>
    case Arm(p, r, next, others) =>
      NotYet(past, r, c);
      ChanceAtMostReach(next, past + [r], event, c);
      ArmsChanceAtMostReach(others, past, event, c);
      Weigh(p, Chance(next, past + [r], event), EverReaches(Wealth, next, past + [r], c));
  }

  /** On some night the evidence of the line is at least `c`. */
  predicate SomeNightSees(ns: seq<Night>, line: Line, c: real) {
    exists i :: 0 <= i < |ns| && Wealth(NightReturns(ns[i], line)) >= c
  }

  /** The nights of a ledger in which the trades of the line return `rs`, or the first of them. */
  predicate HistoryOf(ns: seq<Night>, line: Line, rs: seq<real>) {
    Successive(ns) && (ns != [] ==> NightReturns(ns[|ns| - 1], line) <= rs)
  }

  lemma NightIsLook(ns: seq<Night>, line: Line, rs: seq<real>, c: real)
    requires HistoryOf(ns, line, rs) && SomeNightSees(ns, line, c)
    ensures SomeLook(rs, c)
  {
    hide Wealth, NightReturns, Successive;
    var i :| 0 <= i < |ns| && Wealth(NightReturns(ns[i], line)) >= c;
    NightsExtend(ns, i, |ns| - 1, line);
    var seen := NightReturns(ns[i], line);
    assert seen == rs[..|seen|];
  }

  /** Ville's inequality for nightly grading: whatever nights it looks on, and however the ledger
      comes to hold the realised returns, as long as each night's ledger follows the one before on
      time and settled, the chance that any night's evidence for a cohort, pooled or within a lane,
      reaches `c` is at most 1/c under the null. */
  lemma NightlyVille(t: Tree, history: seq<real> -> seq<Night>, line: Line, c: real)
    requires IsPlan(t) && Null(t) && c > 0.0
    requires forall rs :: HistoryOf(history(rs), line, rs)
    ensures Chance(t, [], rs => SomeNightSees(history(rs), line, c)) <= 1.0 / c
  {
    hide Wealth, HistoryOf, SomeNightSees, SomeLook, IsPlan, Null, Chance, EverReaches;
    var event := rs => SomeNightSees(history(rs), line, c);
    forall rs | event(rs) ensures SomeLook(rs, c) {
      assert HistoryOf(history(rs), line, rs);
      NightIsLook(history(rs), line, rs, c);
    }
    assert NotBefore([], c);
    ChanceAtMostReach(t, [], event, c);
    Ville(t, c);
  }
}
