/** When a signal may act, what it then writes, and where every row of the ledger came from. */
module SignalAdmission {
  import opened Optional
  import opened LedgerRules

  // ---------------------------------------------------------------- one signal

  /** In time, in a session of a weekday, outside any blackout. */
  predicate MayAct(s: Signal, e: Env) {
    e.minute <= s.expiresMinute && 570 <= e.minute < e.closeMin && !e.weekend && !e.blackout
  }

  /** Position `k` has the exposure of the signal, and none before it has. */
  predicate FirstHeld(ps: seq<Position>, s: Signal, k: nat) {
    && k < |ps| && ps[k].underlying == s.underlying && ps[k].direction == s.direction
    && forall i :: 0 <= i < k ==> ps[i].underlying != s.underlying || ps[i].direction != s.direction
  }

  predicate NoneHeld(ps: seq<Position>, s: Signal) {
    forall i :: 0 <= i < |ps| ==> ps[i].underlying != s.underlying || ps[i].direction != s.direction
  }

  predicate MayEnter(c: Core, s: Signal, e: Env) {
    MayAct(s, e) && NoneHeld(c.positions, s) && |c.positions| < e.maxConcurrent && e.client && e.pick.Some?
  }

  predicate MayMerge(c: Core, s: Signal, e: Env, k: nat) {
    MayAct(s, e) && FirstHeld(c.positions, s, k) && s.lane !in c.positions[k].lanes
  }

  /** A signal that does anything may act. */
  lemma ActsOnlyInTime(c: Core, s: Signal, e: Env)
    requires c.day.Some? && OnSignal(c, s, e) != c
    ensures e.minute <= s.expiresMinute && 570 <= e.minute < e.closeMin && !e.weekend && !e.blackout
  {
  }

  /** The entry a signal makes of the selector's pick. */
  function EntryOf(c: Core, s: Signal, e: Env): Entry
    requires c.day.Some? && e.pick.Some?
  {
    var Contract(occ, expiry) := e.pick.value;
    Entry(PositionId(occ, c.day.value, e.minute, c.entriesToday), c.day.value, s.underlying, s.direction, expiry, [s.lane])
  }

  /** A signal enters exactly when it may act, nothing open has its exposure, there is room, and the
      selector picks; it then writes one entry row and opens one position of the same fields. */
  lemma EntersIff(c: Core, s: Signal, e: Env)
    requires c.day.Some?
    ensures var d := OnSignal(c, s, e);
      && (MayEnter(c, s, e) <==> d.ledger.entries != c.ledger.entries)
      && (MayEnter(c, s, e) ==>
            var row := EntryOf(c, s, e);
            && d.ledger == Ledger(c.ledger.entries + [row], c.ledger.merges, c.ledger.exits)
            && d.positions == Place(c.positions, Position(row.id, row.underlying, row.direction, row.expiry, row.lanes))
            && d.entriesToday == c.entriesToday + 1 && d.day == c.day)
  {
    hide Place;
    var row := c.ledger.entries;
    if MayEnter(c, s, e) {
      assert (row + [EntryOf(c, s, e)])[..|row|] == row;
      assert |row + [EntryOf(c, s, e)]| == |row| + 1;
    }
  }

  /** It merges into the first open position of its exposure exactly when it may act and that position
      does not name its lane; it then adds the lane there and writes one merge row. */
  lemma MergesIff(c: Core, s: Signal, e: Env)
    requires c.day.Some?
    ensures var d := OnSignal(c, s, e);
      && ((exists k: nat :: MayMerge(c, s, e, k)) <==> d.ledger.merges != c.ledger.merges)
      && forall k: nat :: MayMerge(c, s, e, k) ==>
            var p := c.positions[k];
            && d.ledger == Ledger(c.ledger.entries, c.ledger.merges + [Merge(p.id, s.lane)], c.ledger.exits)
            && d.positions == c.positions[k := p.(lanes := p.lanes + [s.lane])]
            && d.entriesToday == c.entriesToday && d.day == c.day
  {
    hide Place;
    var k := FindOpen(c.positions, s.underlying, s.direction);
    forall j: nat | MayMerge(c, s, e, j) ensures j == k {}
    if k < |c.positions| && MayAct(s, e) && s.lane !in c.positions[k].lanes {
      assert MayMerge(c, s, e, k);
      assert |c.ledger.merges + [Merge(c.positions[k].id, s.lane)]| == |c.ledger.merges| + 1;
    }
  }

  /** Any other signal changes nothing. */
  lemma ElseNothing(c: Core, s: Signal, e: Env)
    requires c.day.Some? && !MayEnter(c, s, e) && forall k: nat :: !MayMerge(c, s, e, k)
    ensures OnSignal(c, s, e) == c
  {
    var k := FindOpen(c.positions, s.underlying, s.direction);
    if k < |c.positions| { assert !MayMerge(c, s, e, k); }
  }

  /** The answer names the first thing that stands in the way, or what was done. */
  lemma AnswerIs(c: Core, s: Signal, e: Env)
    requires c.day.Some?
    ensures var a := Judge(c, s, e);
      var session := 570 <= e.minute < e.closeMin && !e.weekend;
      && (a == SignalExpired <==> e.minute > s.expiresMinute)
      && (a == AfterHours <==> e.minute <= s.expiresMinute && !session)
      && (a == Blackout <==> e.minute <= s.expiresMinute && session && e.blackout)
      && (a == Merged <==> exists k: nat :: MayMerge(c, s, e, k))
      && (a == DuplicateLane <==> MayAct(s, e) && exists k: nat :: FirstHeld(c.positions, s, k) && s.lane in c.positions[k].lanes)
      && (a == Concurrency <==> MayAct(s, e) && NoneHeld(c.positions, s) && |c.positions| >= e.maxConcurrent)
      && (a == NoClient <==> MayAct(s, e) && NoneHeld(c.positions, s) && |c.positions| < e.maxConcurrent && !e.client)
      && (a == NoPick <==> MayAct(s, e) && NoneHeld(c.positions, s) && |c.positions| < e.maxConcurrent && e.client && e.pick.None?)
      && (a == Entered <==> MayEnter(c, s, e))
  {
    var k := FindOpen(c.positions, s.underlying, s.direction);
    if k < |c.positions| {
      assert FirstHeld(c.positions, s, k);
      assert s.lane !in c.positions[k].lanes && MayAct(s, e) ==> MayMerge(c, s, e, k);
      forall j: nat | FirstHeld(c.positions, s, j) ensures j == k {}
    }
  }

  function OnDay(entries: seq<Entry>, day: int): set<nat> { set i: nat | i < |entries| && entries[i].day == day }

  /** The number in a position id is how many entry rows the day has. */
  lemma {:induction false} CountDayIs(entries: seq<Entry>, day: int)
    ensures CountDay(entries, day) == |OnDay(entries, day)|
    decreases |entries|
  {
    if entries == [] {
      assert OnDay(entries, day) == {};
    } else {
      var n := |entries| - 1;
      CountDayIs(entries[..n], day);
      assert OnDay(entries, day) == OnDay(entries[..n], day) + if entries[n].day == day then {n} else {};
    }
  }

  // ---------------------------------------------------------------- closing

  /** Closing what is open writes one exit row and takes exactly that id out of the book; closing
      anything else changes nothing. */
  lemma ClosesIff(c: Core, id: PositionId)
    ensures var d := CloseOne(c, id);
      && (d != c <==> exists i :: 0 <= i < |c.positions| && c.positions[i].id == id)
      && (d != c ==>
            && d.ledger == Ledger(c.ledger.entries, c.ledger.merges, c.ledger.exits + [id])
            && d.day == c.day && d.entriesToday == c.entriesToday
            && (forall p :: p in d.positions <==> p in c.positions && p.id != id))
  {
    var x := c.ledger.exits;
    assert |x + [id]| == |x| + 1;
    forall p ensures p in Without(c.positions, id) <==> p in c.positions && p.id != id { WithoutIff(c.positions, id, p); }
  }

  lemma {:induction false} WithoutIff(ps: seq<Position>, id: PositionId, p: Position)
    ensures p in Without(ps, id) <==> p in ps && p.id != id
    decreases |ps|
  {
    if ps == [] {
    } else {
      var init, last := ps[..|ps| - 1], ps[|ps| - 1];
      assert ps == init + [last];
      WithoutIff(init, id, p);
    }
  }

  /** A sweep over snapshot `ids` closes exactly the open ones among them that it decides on. */
  lemma {:induction false} SweepCloses(c: Core, ids: seq<PositionId>, closes: set<PositionId>)
    ensures var d := SweepIds(c, ids, closes);
      && d.ledger.entries == c.ledger.entries && d.ledger.merges == c.ledger.merges && c.ledger.exits <= d.ledger.exits
      && d.day == c.day && d.entriesToday == c.entriesToday
      && (forall p :: p in d.positions <==> p in c.positions && !(p.id in ids && p.id in closes))
      && (forall id :: id in d.ledger.exits[|c.ledger.exits|..] <==> IsOpen(c.positions, id) && id in ids && id in closes)
    decreases |ids|
  {
    if ids == [] {
    } else {
      var init, last := ids[..|ids| - 1], ids[|ids| - 1];
      assert ids == init + [last];
      SweepCloses(c, init, closes);
      var b := SweepIds(c, init, closes);
      ClosesIff(b, last);
      forall id ensures IsOpen(b.positions, id) <==> IsOpen(c.positions, id) && !(id in init && id in closes) {
        OpenIff(b.positions, id);
        OpenIff(c.positions, id);
      }
      hide CloseOne, IsOpen;
      ExitAppended(c.ledger.exits, b.ledger.exits, last);
    }
  }

  lemma {:induction false} SnapshotIff(ps: seq<Position>, id: PositionId)
    ensures id in OpenIds(ps) <==> exists i :: 0 <= i < |ps| && ps[i].id == id
    decreases |ps|
  {
    if ps == [] {
    } else {
      var init, last := ps[..|ps| - 1], ps[|ps| - 1];
      assert ps == init + [last];
      SnapshotIff(init, id);
      if i :| 0 <= i < |init| && init[i].id == id { assert ps[i].id == id; }
    }
  }

  /** A whole sweep closes exactly the open positions it decides on: one exit row more for each of
      their ids, and the others stay. */
  lemma SweepIff(c: Core, closes: set<PositionId>)
    ensures var d := Sweep(c, closes);
      && d.ledger.entries == c.ledger.entries && d.ledger.merges == c.ledger.merges && c.ledger.exits <= d.ledger.exits
      && d.day == c.day && d.entriesToday == c.entriesToday
      && (forall p :: p in d.positions <==> p in c.positions && p.id !in closes)
      && (forall id :: id in d.ledger.exits[|c.ledger.exits|..]
            <==> id in closes && exists i :: 0 <= i < |c.positions| && c.positions[i].id == id)
  {
    hide OpenIds, SweepIds;
    forall id ensures id in OpenIds(c.positions) <==> IsOpen(c.positions, id) { SnapshotIff(c.positions, id); }
    SweepCloses(c, OpenIds(c.positions), closes);
    forall p | p in c.positions ensures IsOpen(c.positions, p.id) { OpenIff(c.positions, p.id); }
  }

  lemma OpenIff(ps: seq<Position>, id: PositionId)
    ensures IsOpen(ps, id) <==> exists p :: p in ps && p.id == id
  {
    if p :| p in ps && p.id == id {
      var i :| 0 <= i < |ps| && ps[i] == p;
    }
  }

  lemma ExitAppended(was: seq<PositionId>, exits: seq<PositionId>, id: PositionId)
    requires was <= exits
    ensures (exits + [id])[|was|..] == exits[|was|..] + [id]
  {
  }

  // ---------------------------------------------------------------- every run

  /** Step `i` of the run is a signal that was free to enter and wrote entry number `n`. */
  predicate EnteredBy(c: Core, steps: seq<Step>, i: nat, n: nat, row: Entry) {
    && i < |steps| && steps[i].Fire?
    && var b := RunSteps(c, steps[..i]);
       && b.day.Some? && MayEnter(b, steps[i].s, steps[i].e) && n == |b.ledger.entries|
       && row == EntryOf(b, steps[i].s, steps[i].e)
  }

  /** Step `i` of the run closed the position, which was open. */
  predicate ClosedBy(c: Core, steps: seq<Step>, i: nat, id: PositionId) {
    && i < |steps| && IsOpen(RunSteps(c, steps[..i]).positions, id)
    && match steps[i]
       case Force(other) => other == id
       case Reval(closes) => id in closes
       case _ => false
  }

  lemma StepRows(c: Core, step: Step)
    ensures var d := Next(c, step);
      && (d.ledger.entries != c.ledger.entries ==>
            step.Fire? && c.day.Some? && MayEnter(c, step.s, step.e)
            && d.ledger.entries == c.ledger.entries + [EntryOf(c, step.s, step.e)])
      && c.ledger.exits <= d.ledger.exits
      && forall id :: id in d.ledger.exits[|c.ledger.exits|..] ==>
           IsOpen(c.positions, id) && ((step.Force? && step.id == id) || (step.Reval? && id in step.closes))
  {
    hide SweepIds, OnSignal, CloseOne, ReadFrom, ById, CountDay;
    match step
    case Fire(s, e) => if c.day.Some? { EntersIff(c, s, e); SignalExits(c, s, e); }
    case Force(id) => ClosesIff(c, id); OpenIff(c.positions, id);
    case Reval(closes) => SweepCloses(c, OpenIds(c.positions), closes);
    case Roll(day, r) =>
    case Crash =>
  }

  lemma SignalExits(c: Core, s: Signal, e: Env)
    requires c.day.Some?
    ensures OnSignal(c, s, e).ledger.exits == c.ledger.exits
  {
    hide Place;
  }

  lemma StillSo(c: Core, steps: seq<Step>, i: nat, n: nat, row: Entry)
    requires steps != [] && EnteredBy(c, steps[..|steps| - 1], i, n, row)
    ensures EnteredBy(c, steps, i, n, row)
  {
    hide RunSteps, MayEnter;
    assert steps[..i] == steps[..|steps| - 1][..i];
  }

  lemma ClosedStill(c: Core, steps: seq<Step>, i: nat, id: PositionId)
    requires steps != [] && ClosedBy(c, steps[..|steps| - 1], i, id)
    ensures ClosedBy(c, steps, i, id)
  {
    hide RunSteps, IsOpen;
    assert steps[..i] == steps[..|steps| - 1][..i];
  }

  /** Every entry row a run adds was written by a signal free to enter, of that signal and its pick. */
  lemma {:induction false} EntriesAdmitted(c: Core, steps: seq<Step>, n: nat)
    requires |c.ledger.entries| <= n < |RunSteps(c, steps).ledger.entries|
    ensures exists i: nat :: EnteredBy(c, steps, i, n, RunSteps(c, steps).ledger.entries[n])
    decreases |steps|
  {
    if steps == [] {
    } else {
      var k := |steps| - 1;
      var init := steps[..k];
      var b := RunSteps(c, init);
      StepRows(b, steps[k]);
      assert b.ledger.entries <= RunSteps(c, steps).ledger.entries;
      hide Next, MayEnter;
      if n < |b.ledger.entries| {
        EntriesAdmitted(c, init, n);
        var i: nat :| EnteredBy(c, init, i, n, b.ledger.entries[n]);
        StillSo(c, steps, i, n, b.ledger.entries[n]);
      } else {
        assert EnteredBy(c, steps, k, n, RunSteps(c, steps).ledger.entries[n]);
      }
    }
  }

  /** Every exit row a run adds closed a position that was open, by force or by a sweep's decision. */
  lemma {:induction false} ExitsAdmitted(c: Core, steps: seq<Step>, n: nat)
    requires |c.ledger.exits| <= n < |RunSteps(c, steps).ledger.exits|
    ensures exists i: nat :: ClosedBy(c, steps, i, RunSteps(c, steps).ledger.exits[n])
    decreases |steps|
  {
    if steps == [] {
    } else {
      var k := |steps| - 1;
      var init := steps[..k];
      var b, d := RunSteps(c, init), RunSteps(c, steps);
      StepRows(b, steps[k]);
      hide Next, IsOpen;
      if n < |b.ledger.exits| {
        ExitsAdmitted(c, init, n);
        var i: nat :| ClosedBy(c, init, i, b.ledger.exits[n]);
        ClosedStill(c, steps, i, b.ledger.exits[n]);
      } else {
        assert d.ledger.exits[n] == d.ledger.exits[|b.ledger.exits|..][n - |b.ledger.exits|];
        assert ClosedBy(c, steps, k, d.ledger.exits[n]);
      }
    }
  }
}
