/** What the grading pipeline conserves, and which rows end up where. */
module GraderAudit {
  import opened Optional
  import opened ExitRows
  import opened Grader
  import EProcess

  // ---------------------------------------------------------------- every row in one class

  function Tally(s: seq<ExitRow>): multiset<Id> { multiset(Ids(s)) }

  lemma TallyAppend(s: seq<ExitRow>, x: ExitRow)
    ensures Tally(s + [x]) == Tally(s) + multiset{x.id}
  {
    IdsAppend(s, x);
  }

  lemma Bag<T>(s: seq<T>, x: T)
    ensures multiset(s + [x]) == multiset(s) + multiset{x}
    ensures s + [] == s
  {
  }

  lemma {:induction false} ReadOrMalformed(all: seq<ExitRow>)
    ensures Tally(all) == multiset(MalformedIds(all)) + Tally(Readable(all))
    decreases |all|
  {
    hide Malformed, Ids;
    if all == [] {
    } else {
      var init, last := all[..|all| - 1], all[|all| - 1];
      ReadOrMalformed(init);
      assert all == init + [last];
      TallyAppend(init, last);
      TallyAppend(Readable(init), last);
      Bag(MalformedIds(init), last.id);
      Bag(Readable(init), last);
      hide Tally;
    }
  }

  lemma {:induction false} InsertIds(s: seq<ExitRow>, x: ExitRow)
    ensures multiset(Ids(InsertByTime(s, x))) == multiset(Ids(s)) + multiset{x.id}
    decreases |s|
  {
    if s == [] || Ts(s[|s| - 1]) <= Ts(x) {
      IdsAppend(s, x);
    } else {
      InsertIds(s[..|s| - 1], x);
      IdsAppend(InsertByTime(s[..|s| - 1], x), s[|s| - 1]);
    }
  }

  lemma {:induction false} SortIds(rows: seq<ExitRow>)
    ensures multiset(Ids(SortByTime(rows))) == multiset(Ids(rows))
    decreases |rows|
  {
    if rows == [] {
    } else {
      SortIds(rows[..|rows| - 1]);
      InsertIds(SortByTime(rows[..|rows| - 1]), rows[|rows| - 1]);
    }
  }

  lemma {:induction false} FirstOrRepeat(s: seq<ExitRow>)
    ensures Tally(s) == Tally(FirstRows(s)) + multiset(RepeatIds(s))
    decreases |s|
  {
    hide FirstOf, Ids;
    if s == [] {
    } else {
      var init, last := s[..|s| - 1], s[|s| - 1];
      FirstOrRepeat(init);
      assert s == init + [last];
      TallyAppend(init, last);
      TallyAppend(FirstRows(init), last);
      Bag(RepeatIds(init), last.id);
      Bag(FirstRows(init), last);
      hide Tally;
    }
  }

  lemma AddToOne<T>(a: multiset<T>, b: multiset<T>, c: multiset<T>, d: multiset<T>, x: multiset<T>)
    requires a == b + c + d
    ensures a + x == (b + x) + c + d && a + x == b + (c + x) + d && a + x == b + c + (d + x)
  {
  }

  lemma TallyOfNone()
    ensures Tally([]) == multiset{}
  {
  }

  lemma {:induction false} OneVerdict(s: seq<ExitRow>, entries: seq<Entry>)
    ensures Tally(s) == Tally(With(s, Halted, entries)) + Tally(With(s, Violation, entries)) + Tally(With(s, Pooled, entries))
    decreases |s|
  {
    hide Judge, Ids, Tally;
    if s == [] {
      TallyOfNone();
    } else {
      var init, last := s[..|s| - 1], s[|s| - 1];
      OneVerdict(init, entries);
      assert s == init + [last];
      TallyAppend(init, last);
      var h, v, p := With(init, Halted, entries), With(init, Violation, entries), With(init, Pooled, entries);
      TallyAppend(h, last);
      TallyAppend(v, last);
      TallyAppend(p, last);
      Bag(h, last);
      Bag(v, last);
      Bag(p, last);
      AddToOne(Tally(init), Tally(h), Tally(v), Tally(p), multiset{last.id});
      match Judge(last, entries)
      case Halted =>
        assert With(s, Halted, entries) == h + [last] && With(s, Violation, entries) == v && With(s, Pooled, entries) == p;
        assert Tally(s) == Tally(h + [last]) + Tally(v) + Tally(p);
      case Violation =>
        assert With(s, Halted, entries) == h && With(s, Violation, entries) == v + [last] && With(s, Pooled, entries) == p;
        assert Tally(s) == Tally(h) + Tally(v + [last]) + Tally(p);
      case Pooled =>
        assert With(s, Halted, entries) == h && With(s, Violation, entries) == v && With(s, Pooled, entries) == p + [last];
        assert Tally(s) == Tally(h) + Tally(v) + Tally(p + [last]);
    }
  }

  lemma {:induction false} IdsLength(s: seq<ExitRow>)
    ensures |Ids(s)| == |s|
  {
    if s == [] {
    } else {
      IdsLength(s[..|s| - 1]);
    }
  }

  /** Every exit row is malformed, a duplicate, on a halted underlying, an identity violation or
      pooled: as multisets of position ids, and in number. */
  lemma RowConservation(all: seq<ExitRow>, entries: seq<Entry>)
    ensures var k := Kept(all);
      && multiset(Ids(all)) == multiset(MalformedIds(all)) + multiset(RepeatIds(SortByTime(Readable(all))))
           + multiset(Ids(With(k, Halted, entries))) + multiset(Ids(With(k, Violation, entries)))
           + multiset(Ids(PooledRows(all, entries)))
      && |all| == |MalformedIds(all)| + |RepeatIds(SortByTime(Readable(all)))|
           + |With(k, Halted, entries)| + |With(k, Violation, entries)| + |PooledRows(all, entries)|
  {
    hide Ids, MalformedIds, RepeatIds, FirstRows, With, SortByTime, Readable;
    ReadOrMalformed(all);
    SortIds(Readable(all));
    FirstOrRepeat(SortByTime(Readable(all)));
    OneVerdict(Kept(all), entries);
    IdsLength(all);
    IdsLength(With(Kept(all), Halted, entries));
    IdsLength(With(Kept(all), Violation, entries));
    IdsLength(With(Kept(all), Pooled, entries));
    Sizes(Ids(all), MalformedIds(all), RepeatIds(SortByTime(Readable(all))), Ids(With(Kept(all), Halted, entries)),
          Ids(With(Kept(all), Violation, entries)), Ids(With(Kept(all), Pooled, entries)));
  }

  lemma Sizes<T>(a: seq<T>, b: seq<T>, c: seq<T>, d: seq<T>, e: seq<T>, f: seq<T>)
    requires multiset(a) == multiset(b) + multiset(c) + multiset(d) + multiset(e) + multiset(f)
    ensures |a| == |b| + |c| + |d| + |e| + |f|
  {
    assert |multiset(a)| == |a| && |multiset(b)| == |b| && |multiset(c)| == |c|;
    assert |multiset(d)| == |d| && |multiset(e)| == |e| && |multiset(f)| == |f|;
  }

  // ---------------------------------------------------------------- which row survives

  predicate DistinctIds(s: seq<ExitRow>) { forall i, j :: 0 <= i < j < |s| ==> s[i].id != s[j].id }

  /** The rows kept are exactly the first row of each position, once. */
  lemma {:induction false} KeptIff(s: seq<ExitRow>, r: ExitRow)
    ensures r in FirstRows(s) <==> FirstOf(s, r.id) == Some(r)
    decreases |s|
  {
    if s == [] {
    } else {
      KeptIff(s[..|s| - 1], r);
      FirstOfIsIn(s[..|s| - 1], r.id);
    }
  }

  lemma {:induction false} KeptDistinct(s: seq<ExitRow>)
    ensures DistinctIds(FirstRows(s))
    decreases |s|
  {
    if s == [] {
    } else {
      var init, last := s[..|s| - 1], s[|s| - 1];
      KeptDistinct(init);
      if FirstOf(init, last.id).None? {
        forall r | r in FirstRows(init) ensures r.id != last.id { KeptIff(init, r); }
      }
    }
  }

  lemma {:induction false} WithIff(s: seq<ExitRow>, v: Verdict, entries: seq<Entry>, r: ExitRow)
    ensures r in With(s, v, entries) <==> r in s && Judge(r, entries) == v
    decreases |s|
  {
    if s == [] {
    } else {
      hide Judge;
      var init, last := s[..|s| - 1], s[|s| - 1];
      assert s == init + [last];
      WithIff(init, v, entries, r);
    }
  }

  lemma {:induction false} WithDistinct(s: seq<ExitRow>, v: Verdict, entries: seq<Entry>)
    requires DistinctIds(s)
    ensures DistinctIds(With(s, v, entries))
    decreases |s|
  {
    if s == [] {
    } else {
      hide Judge;
      var init, last := s[..|s| - 1], s[|s| - 1];
      WithDistinct(init, v, entries);
      forall r | r in With(init, v, entries) ensures r.id != last.id {
        WithIff(init, v, entries, r);
        var i :| 0 <= i < |init| && init[i] == r;
        assert s[i].id != s[|s| - 1].id;
      }
    }
  }

  lemma {:induction false} IdsIff(s: seq<ExitRow>, id: Id)
    ensures id in Ids(s) <==> exists r :: r in s && r.id == id
    decreases |s|
  {
    if s == [] {
    } else {
      var init, last := s[..|s| - 1], s[|s| - 1];
      assert s == init + [last];
      IdsIff(init, id);
      if id in Ids(init) {
        var r :| r in init && r.id == id;
        assert r in s;
      }
      if last.id == id { assert last in s; }
    }
  }

  /** A row is set aside under a verdict, or pooled, exactly when it is the earliest readable row
      of its position and gets that verdict. */
  lemma VerdictIff(all: seq<ExitRow>, entries: seq<Entry>, v: Verdict, r: ExitRow)
    ensures r in With(Kept(all), v, entries)
      <==> Earliest(Readable(all), r.id) == Some(r) && Judge(r, entries) == v
  {
    hide With, FirstRows, SortByTime, Readable, Judge, FirstOf, Earliest;
    WithIff(Kept(all), v, entries, r);
    KeptIff(SortByTime(Readable(all)), r);
    SortPutsEarliestFirst(Readable(all), r.id);
  }

  lemma {:induction false} NamedOnce(s: seq<ExitRow>, id: Id)
    requires DistinctIds(s)
    ensures multiset(Ids(s))[id] == if id in Ids(s) then 1 else 0
    decreases |s|
  {
    if s == [] {
    } else {
      var init, last := s[..|s| - 1], s[|s| - 1];
      assert s == init + [last];
      NamedOnce(init, id);
      IdsIff(init, last.id);
    }
  }

  /** The ids the report lists as halted or violating, or pools: those whose earliest readable row
      gets that verdict, each of them once. */
  lemma ListedIff(all: seq<ExitRow>, entries: seq<Entry>, v: Verdict, id: Id)
    ensures id in Ids(With(Kept(all), v, entries))
      <==> exists r :: Earliest(Readable(all), id) == Some(r) && Judge(r, entries) == v
    ensures multiset(Ids(With(Kept(all), v, entries)))[id] <= 1
  {
    hide With, FirstRows, SortByTime, Readable, Judge, Earliest, DistinctIds, Ids;
    var listed := With(Kept(all), v, entries);
    IdsIff(listed, id);
    if r :| r in listed && r.id == id { VerdictIff(all, entries, v, r); }
    if r :| Earliest(Readable(all), id) == Some(r) && Judge(r, entries) == v {
      var i := EarliestRow(Readable(all), id);
      VerdictIff(all, entries, v, r);
    }
    KeptDistinct(SortByTime(Readable(all)));
    WithDistinct(Kept(all), v, entries);
    NamedOnce(listed, id);
  }

  /** The report lists a position as a duplicate once for every readable row after its first. */
  lemma DuplicatesListed(all: seq<ExitRow>, id: Id)
    ensures multiset(RepeatIds(SortByTime(Readable(all))))[id]
         == var n := multiset(Ids(Readable(all)))[id]; if n == 0 then 0 else n - 1
  {
    hide FirstRows, SortByTime, Readable, DistinctIds, Ids, RepeatIds;
    var rows := Readable(all);
    var s := SortByTime(rows);
    SortIds(rows);
    FirstOrRepeat(s);
    KeptDistinct(s);
    NamedOnce(FirstRows(s), id);
    if id in multiset(Ids(s)) {
      IdsIff(s, id);
      var r :| r in s && r.id == id;
      FirstIsThere(s, r);
      KeptIff(s, FirstOf(s, id).value);
      IdsIff(FirstRows(s), id);
    }
  }

  lemma {:induction false} FirstIsThere(s: seq<ExitRow>, r: ExitRow)
    requires r in s
    ensures FirstOf(s, r.id).Some? && FirstOf(s, r.id).value.id == r.id
    decreases |s|
  {
    var init, last := s[..|s| - 1], s[|s| - 1];
    assert s == init + [last];
    FirstOfIsIn(s, r.id);
    if r !in init {
    } else {
      FirstIsThere(init, r);
    }
  }

  /** Each position is pooled at most once. */
  lemma PooledDistinct(all: seq<ExitRow>, entries: seq<Entry>)
    ensures DistinctIds(PooledRows(all, entries))
  {
    hide With, FirstRows, SortByTime, Readable, DistinctIds;
    KeptDistinct(SortByTime(Readable(all)));
    WithDistinct(Kept(all), Pooled, entries);
  }

  lemma {:induction false} ReadableIff(all: seq<ExitRow>, r: ExitRow)
    ensures r in Readable(all) <==> r in all && !Malformed(r)
    decreases |all|
  {
    if all == [] {
    } else {
      hide Malformed;
      var init, last := all[..|all| - 1], all[|all| - 1];
      assert all == init + [last];
      ReadableIff(init, r);
    }
  }

  /** A pooled row is readable, in the ledger, not on a halted underlying, with its three nets in
      order, and no readable row of its position is earlier. */
  lemma PooledIsSound(all: seq<ExitRow>, entries: seq<Entry>, r: ExitRow)
    requires r in PooledRows(all, entries)
    ensures r in all && !Malformed(r) && Ordered(r)
    ensures "underlying_halted" !in FlagsOf(entries, r.id)
    ensures forall q :: q in all && !Malformed(q) && q.id == r.id ==> Ts(r) <= Ts(q)
  {
    hide With, FirstRows, SortByTime, Readable, Malformed, Ordered, FlagsOf, Earliest;
    VerdictIff(all, entries, Pooled, r);
    var i := EarliestRow(Readable(all), r.id);
    ReadableIff(all, r);
    forall q | q in all && !Malformed(q) && q.id == r.id ensures Ts(r) <= Ts(q) {
      ReadableIff(all, q);
      var j :| 0 <= j < |Readable(all)| && Readable(all)[j] == q;
      assert Readable(all)[j].id == Readable(all)[i].id;
    }
  }

  // ---------------------------------------------------------------- order in time

  lemma {:induction false} FirstRowsUpTo(s: seq<ExitRow>, t: real)
    requires AllUpTo(s, t)
    ensures AllUpTo(FirstRows(s), t)
    decreases |s|
  {
    if s == [] {
    } else {
      FirstRowsUpTo(s[..|s| - 1], t);
    }
  }

  lemma {:induction false} FirstRowsInOrder(s: seq<ExitRow>)
    requires InOrder(s)
    ensures InOrder(FirstRows(s))
    decreases |s|
  {
    if s == [] {
    } else {
      var init, last := s[..|s| - 1], s[|s| - 1];
      assert s == init + [last];
      InOrderAppend(init, last);
      hide InOrder, FirstOf, AllUpTo;
      FirstRowsInOrder(init);
      FirstRowsUpTo(init, Ts(last));
      InOrderAppend(FirstRows(init), last);
    }
  }

  lemma {:induction false} WithUpTo(s: seq<ExitRow>, v: Verdict, entries: seq<Entry>, t: real)
    requires AllUpTo(s, t)
    ensures AllUpTo(With(s, v, entries), t)
    decreases |s|
  {
    if s == [] {
    } else {
      hide Judge; WithUpTo(s[..|s| - 1], v, entries, t);
    }
  }

  lemma {:induction false} WithInOrder(s: seq<ExitRow>, v: Verdict, entries: seq<Entry>)
    requires InOrder(s)
    ensures InOrder(With(s, v, entries))
    decreases |s|
  {
    if s == [] {
    } else {
      var init, last := s[..|s| - 1], s[|s| - 1];
      assert s == init + [last];
      InOrderAppend(init, last);
      hide InOrder, Judge, AllUpTo;
      WithInOrder(init, v, entries);
      WithUpTo(init, v, entries, Ts(last));
      InOrderAppend(With(init, v, entries), last);
    }
  }

  lemma {:induction false} CohortUpTo(s: seq<ExitRow>, entries: seq<Entry>, c: string, t: real)
    requires AllUpTo(s, t)
    ensures AllUpTo(CohortRows(s, entries, c), t)
    decreases |s|
  {
    if s == [] {
    } else {
      hide CohortOf, AllOrdered; CohortUpTo(s[..|s| - 1], entries, c, t);
    }
  }

  lemma {:induction false} CohortInOrder(s: seq<ExitRow>, entries: seq<Entry>, c: string)
    requires InOrder(s)
    ensures InOrder(CohortRows(s, entries, c))
    decreases |s|
  {
    if s == [] {
    } else {
      var init, last := s[..|s| - 1], s[|s| - 1];
      assert s == init + [last];
      InOrderAppend(init, last);
      hide InOrder, CohortOf, AllUpTo, AllOrdered;
      CohortInOrder(init, entries, c);
      CohortUpTo(init, entries, c, Ts(last));
      InOrderAppend(CohortRows(init, entries, c), last);
    }
  }

  lemma PooledInOrder(all: seq<ExitRow>, entries: seq<Entry>)
    ensures InOrder(PooledRows(all, entries)) && AllOrdered(PooledRows(all, entries))
  {
    hide With, FirstRows, SortByTime, Readable, Ordered, InOrder;
    SortSorts(Readable(all));
    FirstRowsInOrder(SortByTime(Readable(all)));
    WithInOrder(Kept(all), Pooled, entries);
    var p := PooledRows(all, entries);
    forall i | 0 <= i < |p| ensures Ordered(p[i]) { PooledIsSound(all, entries, p[i]); }
  }

  // ---------------------------------------------------------------- the rows of a lane

  lemma {:induction false} CopiesAre(lanes: seq<string>, lane: string, r: ExitRow)
    ensures forall i :: 0 <= i < |Copies(lanes, lane, r)| ==> Copies(lanes, lane, r)[i] == r
    ensures |Copies(lanes, lane, r)| == multiset(lanes)[lane]
    decreases |lanes|
  {
    if lanes == [] {
    } else {
      CopiesAre(lanes[..|lanes| - 1], lane, r);
      assert lanes == lanes[..|lanes| - 1] + [lanes[|lanes| - 1]];
    }
  }

  lemma InOrderRepeats(s: seq<ExitRow>, copies: seq<ExitRow>, r: ExitRow)
    requires InOrder(s) && AllUpTo(s, Ts(r)) && forall i :: 0 <= i < |copies| ==> copies[i] == r
    ensures InOrder(s + copies)
  {
  }

  lemma {:induction false} LaneUpTo(s: seq<ExitRow>, lane: string, t: real)
    requires AllUpTo(s, t)
    ensures AllUpTo(LaneRows(s, lane), t)
    decreases |s|
  {
    if s == [] {
    } else {
      hide LanesOf, Copies;
      LaneUpTo(s[..|s| - 1], lane, t);
      CopiesAre(LanesOf(s[|s| - 1]), lane, s[|s| - 1]);
    }
  }

  lemma {:induction false} LaneInOrder(s: seq<ExitRow>, lane: string)
    requires InOrder(s)
    ensures InOrder(LaneRows(s, lane))
    decreases |s|
  {
    if s == [] {
    } else {
      hide LanesOf, Copies;
      var init, last := s[..|s| - 1], s[|s| - 1];
      assert s == init + [last];
      InOrderAppend(init, last);
      hide InOrder, AllUpTo;
      LaneInOrder(init, lane);
      LaneUpTo(init, lane, Ts(last));
      CopiesAre(LanesOf(last), lane, last);
      InOrderRepeats(LaneRows(init, lane), Copies(LanesOf(last), lane, last), last);
    }
  }

  /** A lane's rows are the given ones that name it. */
  lemma {:induction false} LaneIff(s: seq<ExitRow>, lane: string, r: ExitRow)
    ensures r in LaneRows(s, lane) <==> r in s && lane in LanesOf(r)
    decreases |s|
  {
    if s == [] {
    } else {
      hide LanesOf, Copies;
      var init, last := s[..|s| - 1], s[|s| - 1];
      assert s == init + [last];
      LaneIff(init, lane, r);
      CopiesAre(LanesOf(last), lane, last);
      var copies := Copies(LanesOf(last), lane, last);
      assert r in copies ==> r == last;
      assert lane in LanesOf(last) ==> copies[0] == last;
    }
  }

  /** No row names the lane twice. */
  predicate NamesOnce(s: seq<ExitRow>, lane: string) { forall i :: 0 <= i < |s| ==> multiset(LanesOf(s[i]))[lane] <= 1 }

  /** A lane holds each of its trades once exactly when no row names the lane twice. */
  lemma {:induction false} LaneOnceIff(s: seq<ExitRow>, lane: string)
    requires DistinctIds(s)
    ensures DistinctIds(LaneRows(s, lane)) <==> NamesOnce(s, lane)
    decreases |s|
  {
    if s == [] {
    } else {
      hide LanesOf, Copies;
      var init, last := s[..|s| - 1], s[|s| - 1];
      assert s == init + [last];
      LaneOnceIff(init, lane);
      CopiesAre(LanesOf(last), lane, last);
      var rows, copies := LaneRows(init, lane), Copies(LanesOf(last), lane, last);
      forall i | 0 <= i < |rows| ensures rows[i].id != last.id {
        LaneIff(init, lane, rows[i]);
        var j :| 0 <= j < |init| && init[j] == rows[i];
        assert s[j].id != s[|s| - 1].id;
      }
      JoinDistinct(rows, copies, last);
      NamesOnceStep(init, last, lane);
    }
  }

  lemma NamesOnceStep(init: seq<ExitRow>, last: ExitRow, lane: string)
    ensures NamesOnce(init + [last], lane) <==> NamesOnce(init, lane) && multiset(LanesOf(last))[lane] <= 1
  {
    hide LanesOf;
    var s := init + [last];
    assert s[|init|] == last && forall i :: 0 <= i < |init| ==> s[i] == init[i];
  }

  lemma JoinDistinct(rows: seq<ExitRow>, copies: seq<ExitRow>, r: ExitRow)
    requires forall i :: 0 <= i < |rows| ==> rows[i].id != r.id
    requires forall i :: 0 <= i < |copies| ==> copies[i] == r
    ensures DistinctIds(rows + copies) <==> DistinctIds(rows) && |copies| <= 1
  {
    var all := rows + copies;
    assert forall i :: 0 <= i < |rows| ==> all[i] == rows[i];
    assert forall i :: |rows| <= i < |all| ==> all[i] == r;
    assert |copies| >= 2 ==> all[|rows|].id == all[|rows| + 1].id;
    if DistinctIds(all) {
      forall i, j | 0 <= i < j < |rows| ensures rows[i].id != rows[j].id { assert all[i].id != all[j].id; }
    }
  }

  // ---------------------------------------------------------------- the evidence adds up

  lemma {:induction false} BetOrSkipped(rows: seq<ExitRow>)
    requires AllOrdered(rows)
    ensures |Returns(rows)| + Skipped(rows) == |rows|
    decreases |rows|
  {
    if rows == [] {
    } else {
      hide Usable, Ordered; BetOrSkipped(rows[..|rows| - 1]);
    }
  }

  ghost function SumOver(keys: set<string>, f: string -> nat): nat
    decreases |keys|
  {
    if keys == {} then 0 else var c :| c in keys; f(c) + SumOver(keys - {c}, f)
  }

  lemma {:induction false} SumOverSame(keys: set<string>, f: string -> nat, g: string -> nat)
    requires forall c :: c in keys ==> f(c) == g(c)
    ensures SumOver(keys, f) == SumOver(keys, g)
    decreases |keys|
  {
    if keys == {} {
    } else {
      var c :| c in keys && SumOver(keys, f) == f(c) + SumOver(keys - {c}, f)
        && SumOver(keys, g) == g(c) + SumOver(keys - {c}, g);
      SumOverSame(keys - {c}, f, g);
    }
  }

  lemma {:induction false} SumOverBump(keys: set<string>, f: string -> nat, g: string -> nat, d: string)
    requires d in keys && g(d) == f(d) + 1
    requires forall c :: c in keys && c != d ==> f(c) == g(c)
    ensures SumOver(keys, g) == SumOver(keys, f) + 1
    decreases |keys|
  {
    var c :| c in keys && SumOver(keys, f) == f(c) + SumOver(keys - {c}, f)
      && SumOver(keys, g) == g(c) + SumOver(keys - {c}, g);
    if c == d { SumOverSame(keys - {c}, f, g); } else { SumOverBump(keys - {c}, f, g, d); }
  }

  lemma {:induction false} SumOverZero(keys: set<string>, f: string -> nat)
    requires forall c :: c in keys ==> f(c) == 0
    ensures SumOver(keys, f) == 0
    decreases |keys|
  {
    if keys == {} {
    } else {
      var c :| c in keys && SumOver(keys, f) == f(c) + SumOver(keys - {c}, f);
      SumOverZero(keys - {c}, f);
    }
  }

  function CohortSize(rows: seq<ExitRow>, entries: seq<Entry>): string -> nat { c => |CohortRows(rows, entries, c)| }

  /** The cohorts partition the rows. */
  lemma {:induction false} CohortsPartition(rows: seq<ExitRow>, entries: seq<Entry>, keys: set<string>)
    requires forall i :: 0 <= i < |rows| ==> CohortOf(entries, rows[i].id) in keys
    ensures SumOver(keys, CohortSize(rows, entries)) == |rows|
    decreases |rows|
  {
    hide CohortOf, AllOrdered;
    if rows == [] {
      SumOverZero(keys, CohortSize(rows, entries));
    } else {
      var init, last := rows[..|rows| - 1], rows[|rows| - 1];
      CohortsPartition(init, entries, keys);
      SumOverBump(keys, CohortSize(init, entries), CohortSize(rows, entries), CohortOf(entries, last.id));
    }
  }

  lemma {:induction false} CohortIsIn(rows: seq<ExitRow>, entries: seq<Entry>, i: nat)
    requires i < |rows|
    ensures CohortRows(rows, entries, CohortOf(entries, rows[i].id)) != []
    decreases |rows|
  {
    hide CohortOf, AllOrdered;
    if i == |rows| - 1 {
    } else {
      CohortIsIn(rows[..|rows| - 1], entries, i);
    }
  }

  function Booked(out: map<string, EvidenceRow>): string -> nat { c => if c in out then out[c].n + out[c].skipped else 0 }

  /** Over the cohorts, the bets and the rows skipped add up to the rows given. */
  lemma EvidenceAddsUp(out: map<string, EvidenceRow>, rows: seq<ExitRow>, entries: seq<Entry>)
    requires AllOrdered(rows) && IsEvidence(out, rows, entries)
    ensures SumOver(out.Keys, Booked(out)) == |rows|
  {
    hide CohortOf, CohortRows, AllOrdered, SortByTime, SumOver, Skipped, Returns;
    forall c | c in out.Keys ensures Booked(out)(c) == CohortSize(rows, entries)(c) {
      var s := SortByTime(CohortRows(rows, entries, c));
      assert IsEvidenceAt(out[c], c, rows, entries);
      BetOrSkipped(s);
      SortSorts(CohortRows(rows, entries, c));
      assert |multiset(s)| == |multiset(CohortRows(rows, entries, c))|;
    }
    SumOverSame(out.Keys, Booked(out), CohortSize(rows, entries));
    forall i | 0 <= i < |rows| ensures CohortOf(entries, rows[i].id) in out.Keys { CohortIsIn(rows, entries, i); }
    CohortsPartition(rows, entries, out.Keys);
  }

  // ---------------------------------------------------------------- which rows are bet on

  lemma {:induction false} RowsJoin(a: seq<ExitRow>, b: seq<ExitRow>)
    requires AllOrdered(a) && AllOrdered(b)
    ensures AllOrdered(a + b)
    ensures Returns(a + b) == Returns(a) + Returns(b) && Skipped(a + b) == Skipped(a) + Skipped(b)
    decreases |b|
  {
    hide Usable, ReturnOf, Ordered;
    if b == [] {
      assert a + b == a;
    } else {
      assert (a + b)[..|a + b| - 1] == a + b[..|b| - 1];
      RowsJoin(a, b[..|b| - 1]);
    }
  }

  lemma OneRowBets(r: ExitRow)
    requires Ordered(r)
    ensures Returns([r]) == if Usable(r) then [ReturnOf(r).value] else []
    ensures Skipped([r]) == if Usable(r) then 0 else 1
  {
    hide Usable, ReturnOf, Ordered;
    assert [r][..0] == [];
  }

  /** The entry price and the size the return is reckoned on; a missing or zero size counts as one. */
  predicate PricedAt(r: ExitRow, fill: real, size: real)
    requires Ordered(r)
  {
    && r.ledgers.value.worst.value.entryFill == Some(fill) && fill > 0.0
    && (if r.contracts.Some? && r.contracts.value != 0.0 then r.contracts.value == size else size == 1.0) && size > 0.0
  }

  /** Wherever it stands, a row marked stale changes no bet and is one more skipped; so it is with a row
      that has no usable price; any other row adds exactly its return, in its place. */
  lemma RowBetsIff(a: seq<ExitRow>, r: ExitRow, b: seq<ExitRow>)
    requires AllOrdered(a) && Ordered(r) && AllOrdered(b)
    ensures AllOrdered(a + [r] + b)
    ensures (r.source.Some? && r.source.value != "fresh") || (forall fill, size :: !PricedAt(r, fill, size)) ==>
      Returns(a + [r] + b) == Returns(a) + Returns(b) && Skipped(a + [r] + b) == Skipped(a) + Skipped(b) + 1
    ensures forall fill, size :: (r.source == None || r.source == Some("fresh")) && PricedAt(r, fill, size) ==>
      && Returns(a + [r] + b) == Returns(a) + [r.ledgers.value.worst.value.net.value / (100.0 * size * fill)] + Returns(b)
      && Skipped(a + [r] + b) == Skipped(a) + Skipped(b)
  {
    RowsJoin(a, [r]);
    RowsJoin(a + [r], b);
    OneRowBets(r);
    PricedIff(r);
    hide Ordered, PricedAt, Returns, Skipped, AllOrdered, ReturnOf;
    assert Usable(r) <==> (r.source == None || r.source == Some("fresh")) && exists fill, size :: PricedAt(r, fill, size);
    Concat(Returns(a), Returns([r]), Returns(b));
  }

  lemma Concat(a: seq<real>, b: seq<real>, c: seq<real>)
    ensures b == [] ==> a + b + c == a + c
  {
  }

  lemma PricedIff(r: ExitRow)
    requires Ordered(r)
    ensures ReturnOf(r).Some? <==> exists fill, size :: PricedAt(r, fill, size)
    ensures forall fill, size :: PricedAt(r, fill, size) ==>
      ReturnOf(r) == Some(r.ledgers.value.worst.value.net.value / (100.0 * size * fill))
  {
    var leg := r.ledgers.value.worst.value;
    var size := if r.contracts.Some? && r.contracts.value != 0.0 then r.contracts.value else 1.0;
    assert forall f, k :: PricedAt(r, f, k) ==> leg.entryFill == Some(f) && k == size;
    hide Stake;
    if ReturnOf(r).Some? {
      assert PricedAt(r, leg.entryFill.value, size);
    }
    forall f, k | PricedAt(r, f, k) ensures ReturnOf(r) == Some(leg.net.value / (100.0 * k * f)) {
      assert ReturnOf(r) == Some(leg.net.value / Stake(k, f));
      StakeIs(k, f);
    }
  }

  lemma StakeIs(size: real, fill: real)
    requires size > 0.0 && fill > 0.0
    ensures Stake(size, fill) == 100.0 * size * fill
  {
  }

  /** On rows in order of time: every one is bet on or skipped in exactly one cohort, each cohort's
      wealth compounds its usable returns in that order, and an unlock takes that wealth, and so at
      least seven trades for a pilot and twelve for sized trading. */
  lemma EvidenceInOrder(out: map<string, EvidenceRow>, given: seq<ExitRow>, entries: seq<Entry>, c: string)
    requires InOrder(given) && AllOrdered(given) && IsEvidence(out, given, entries) && c in out
    ensures SumOver(out.Keys, Booked(out)) == |given|
    ensures var rows := CohortRows(given, entries, c);
      && InOrder(rows) && AllOrdered(rows)
      && out[c].wealth == EProcess.Wealth(Returns(rows))
      && out[c].n == |Returns(rows)|
    ensures out[c].unlock != Locked <==> out[c].wealth >= 5.0
    ensures out[c].unlock == SizedLive <==> out[c].wealth >= 20.0
    ensures out[c].unlock != Locked ==> out[c].n >= 7
    ensures out[c].unlock == SizedLive ==> out[c].n >= 12
  {
    hide CohortRows, SortByTime, InOrder, Returns, Skipped, SumOver, EProcess.Wealth;
    var rows := CohortRows(given, entries, c);
    CohortInOrder(given, entries, c);
    SortIsIdle(rows);
    EvidenceAddsUp(out, given, entries);
    assert IsEvidenceAt(out[c], c, given, entries);
    EProcess.UnlockNeedsTrades(Returns(rows));
  }

  /** So it is on the pooled rows. */
  lemma PooledEvidence(out: map<string, EvidenceRow>, all: seq<ExitRow>, entries: seq<Entry>, c: string)
    requires AllOrdered(PooledRows(all, entries)) && IsEvidence(out, PooledRows(all, entries), entries)
    requires c in out
    ensures SumOver(out.Keys, Booked(out)) == |PooledRows(all, entries)|
    ensures var rows := CohortRows(PooledRows(all, entries), entries, c);
      && InOrder(rows) && AllOrdered(rows)
      && out[c].wealth == EProcess.Wealth(Returns(rows))
      && out[c].n == |Returns(rows)|
    ensures out[c].unlock != Locked <==> out[c].wealth >= 5.0
    ensures out[c].unlock == SizedLive <==> out[c].wealth >= 20.0
    ensures out[c].unlock != Locked ==> out[c].n >= 7
    ensures out[c].unlock == SizedLive ==> out[c].n >= 12
  {
    hide *;
    PooledInOrder(all, entries);
    EvidenceInOrder(out, PooledRows(all, entries), entries, c);
  }
}
