/** Rows of the exit ledger as the nightly grading reads them, their order in time, and the first row of
    each position. */
module ExitRows {
  import opened Optional

  /** A dollar field of a row: absent, not a number, or a number. */
  datatype Amount = Missing | NotANumber | Usd(value: real)

  datatype Leg = Leg(entryFill: Option<real>, gross: Amount, net: Amount)

  datatype Ledgers = Ledgers(worst: Option<Leg>, base: Option<Leg>, optimistic: Option<Leg>)

  datatype ExitRow = ExitRow(
    id: Option<string>, ts: Option<real>, day: Option<string>, lanes: Option<seq<string>>,
    decomposed: bool, rule: Option<string>, ledgers: Option<Ledgers>,
    contracts: Option<real>, source: Option<string>)

  type Id = Option<string>

  predicate BadLeg(l: Option<Leg>) { l.None? || l.value.net.Missing? || l.value.gross.Missing? }

  /** A row that cannot be read. */
  predicate Malformed(r: ExitRow) {
    || r.ledgers.None?
    || BadLeg(r.ledgers.value.worst) || BadLeg(r.ledgers.value.base) || BadLeg(r.ledgers.value.optimistic)
    || r.day.None? || |r.day.value| != 10
    || r.lanes.None? || r.lanes.value == []
    || !r.decomposed
    || r.rule.None? || r.rule.value == ""
  }

  function Ts(r: ExitRow): real { if r.ts.Some? then r.ts.value else 0.0 }

  // ---------------------------------------------------------------- stable order in time

  function InsertByTime(s: seq<ExitRow>, x: ExitRow): seq<ExitRow> {
    if s == [] || Ts(s[|s| - 1]) <= Ts(x) then s + [x]
    else InsertByTime(s[..|s| - 1], x) + [s[|s| - 1]]
  }

  /** The stable sort by time stamp. */
  function SortByTime(rows: seq<ExitRow>): seq<ExitRow> {
    if rows == [] then [] else InsertByTime(SortByTime(rows[..|rows| - 1]), rows[|rows| - 1])
  }

  predicate InOrder(s: seq<ExitRow>) { forall i, j :: 0 <= i < j < |s| ==> Ts(s[i]) <= Ts(s[j]) }

  predicate AllUpTo(s: seq<ExitRow>, t: real) { forall i :: 0 <= i < |s| ==> Ts(s[i]) <= t }

  lemma InOrderAppend(s: seq<ExitRow>, x: ExitRow)
    ensures InOrder(s + [x]) <==> InOrder(s) && AllUpTo(s, Ts(x))
  {
    var t := s + [x];
    if InOrder(t) {
      assert forall i :: 0 <= i < |s| ==> t[i] == s[i];
      assert t[|s|] == x;
    }
  }

  lemma {:induction false} InsertUpTo(s: seq<ExitRow>, x: ExitRow, t: real)
    requires AllUpTo(s, t) && Ts(x) <= t
    ensures AllUpTo(InsertByTime(s, x), t)
    decreases |s|
  {
    if s == [] || Ts(s[|s| - 1]) <= Ts(x) {
    } else {
      InsertUpTo(s[..|s| - 1], x, t);
    }
  }

  lemma {:induction false} InsertKeepsOrder(s: seq<ExitRow>, x: ExitRow)
    requires InOrder(s)
    ensures InOrder(InsertByTime(s, x))
    decreases |s|
  {
    if s == [] {
    } else {
      var init, last := s[..|s| - 1], s[|s| - 1];
      assert s == init + [last];
      InOrderAppend(init, last);
      hide InOrder;
      if Ts(last) > Ts(x) {
        hide AllUpTo;
        InsertKeepsOrder(init, x);
        InsertUpTo(init, x, Ts(last));
        InOrderAppend(InsertByTime(init, x), last);
      } else {
        InOrderAppend(s, x);
      }
    }
  }

  lemma {:induction false} InsertPermutes(s: seq<ExitRow>, x: ExitRow)
    ensures multiset(InsertByTime(s, x)) == multiset(s) + multiset{x}
    decreases |s|
  {
    if s == [] || Ts(s[|s| - 1]) <= Ts(x) {
    } else {
      assert s == s[..|s| - 1] + [s[|s| - 1]];
      InsertPermutes(s[..|s| - 1], x);
    }
  }

  lemma {:induction false} SortSorts(rows: seq<ExitRow>)
    ensures InOrder(SortByTime(rows))
    ensures multiset(SortByTime(rows)) == multiset(rows)
    decreases |rows|
  {
    if rows == [] {
    } else {
      hide InOrder, InsertByTime;
      var init, last := rows[..|rows| - 1], rows[|rows| - 1];
      SortSorts(init);
      InsertKeepsOrder(SortByTime(init), last);
      InsertPermutes(SortByTime(init), last);
      assert rows == init + [last];
    }
  }

  /** Rows already in order stay put. */
  lemma {:induction false} SortIsIdle(rows: seq<ExitRow>)
    requires InOrder(rows)
    ensures SortByTime(rows) == rows
    decreases |rows|
  {
    if rows == [] {
    } else {
      var init, last := rows[..|rows| - 1], rows[|rows| - 1];
      assert rows == init + [last];
      InOrderAppend(init, last);
      hide InOrder;
      SortIsIdle(init);
    }
  }

  // ---------------------------------------------------------------- the first row of a position

  /** The first row of `s` for a position. */
  function FirstOf(s: seq<ExitRow>, id: Id): Option<ExitRow> {
    if s == [] then None
    else
      var e, last := FirstOf(s[..|s| - 1], id), s[|s| - 1];
      if e.None? && last.id == id then Some(last) else e
  }

  /** The row of `rows` with the least time stamp for a position, the first of them on a tie. */
  function Earliest(rows: seq<ExitRow>, id: Id): Option<ExitRow> {
    if rows == [] then None
    else
      var e, last := Earliest(rows[..|rows| - 1], id), rows[|rows| - 1];
      if last.id == id && (e.None? || Ts(last) < Ts(e.value)) then Some(last) else e
  }

  lemma {:induction false} FirstOfAppend(s: seq<ExitRow>, x: ExitRow, id: Id)
    ensures FirstOf(s + [x], id) == if FirstOf(s, id).None? && x.id == id then Some(x) else FirstOf(s, id)
  {
    assert (s + [x])[..|s|] == s;
  }

  lemma {:induction false} FirstOfIsIn(s: seq<ExitRow>, id: Id)
    ensures FirstOf(s, id).Some? ==> FirstOf(s, id).value in s && FirstOf(s, id).value.id == id
    ensures FirstOf(s, id).None? ==> forall r :: r in s ==> r.id != id
    decreases |s|
  {
    if s == [] {
    } else {
      FirstOfIsIn(s[..|s| - 1], id);
    }
  }

  /** Inserting into rows in order changes the first row of a position only to an earlier one. */
  lemma {:induction false} FirstOfInsert(s: seq<ExitRow>, x: ExitRow, id: Id)
    requires InOrder(s)
    ensures var e := FirstOf(s, id);
      FirstOf(InsertByTime(s, x), id) == if x.id == id && (e.None? || Ts(x) < Ts(e.value)) then Some(x) else e
    decreases |s|
  {
    FirstOfIsIn(s, id);
    if s == [] || Ts(s[|s| - 1]) <= Ts(x) {
      FirstOfAppend(s, x, id);
    } else {
      var init, last := s[..|s| - 1], s[|s| - 1];
      FirstOfInsert(init, x, id);
      FirstOfAppend(InsertByTime(init, x), last, id);
      FirstOfIsIn(init, id);
    }
  }

  /** Sorting puts the earliest row of each position first. */
  lemma {:induction false} SortPutsEarliestFirst(rows: seq<ExitRow>, id: Id)
    ensures FirstOf(SortByTime(rows), id) == Earliest(rows, id)
    decreases |rows|
  {
    if rows == [] {
    } else {
      var init, last := rows[..|rows| - 1], rows[|rows| - 1];
      SortPutsEarliestFirst(init, id);
      SortSorts(init);
      FirstOfInsert(SortByTime(init), last, id);
    }
  }

  /** Row number `i` is the earliest row of its position, ties broken by file order. */
  predicate IsEarliest(rows: seq<ExitRow>, i: nat)
    requires i < |rows|
  {
    forall j :: 0 <= j < |rows| && rows[j].id == rows[i].id ==>
      Ts(rows[i]) < Ts(rows[j]) || (Ts(rows[i]) == Ts(rows[j]) && i <= j)
  }

  lemma {:induction false} EarliestRow(rows: seq<ExitRow>, id: Id) returns (i: nat)
    requires Earliest(rows, id).Some?
    ensures i < |rows| && rows[i] == Earliest(rows, id).value && rows[i].id == id && IsEarliest(rows, i)
    decreases |rows|
  {
    var init, last := rows[..|rows| - 1], rows[|rows| - 1];
    var e := Earliest(init, id);
    if e.None? {
      EarliestNone(init, id);
      i := |rows| - 1;
    } else {
      var k := EarliestRow(init, id);
      i := if Ts(last) < Ts(e.value) && last.id == id then |rows| - 1 else k;
    }
  }

  lemma {:induction false} EarliestNone(rows: seq<ExitRow>, id: Id)
    ensures Earliest(rows, id).None? <==> forall r :: r in rows ==> r.id != id
    decreases |rows|
  {
    if rows == [] {
    } else {
      var init, last := rows[..|rows| - 1], rows[|rows| - 1];
      EarliestNone(init, id);
      assert rows == init + [last];
    }
  }
}
