/** The book in memory is exactly what the ledger says, through every interleaving of signals,
    exits, day rolls and crashes. */
module PositionLifecycle {
  import opened Numbers
  import opened Optional
  import opened LedgerRules

  // ---------------------------------------------------------------- the ledger

  /** Each entry's id carries its day and how many entries that day had before it. */
  predicate Numbered(entries: seq<Entry>) {
    forall i :: 0 <= i < |entries| ==>
      entries[i].id.day == entries[i].day && entries[i].id.seqNo == CountDay(entries[..i], entries[i].day)
  }

  predicate WasEntered(entries: seq<Entry>, id: PositionId) { exists i :: 0 <= i < |entries| && entries[i].id == id }

  predicate NoRepeats<T(==)>(s: seq<T>) { forall i, j :: 0 <= i < j < |s| ==> s[i] != s[j] }

  predicate ExitsEntered(l: Ledger) { forall i :: 0 <= i < |l.exits| ==> WasEntered(l.entries, l.exits[i]) }

  predicate MergesEntered(l: Ledger) { forall i :: 0 <= i < |l.merges| ==> WasEntered(l.entries, l.merges[i].id) }

  predicate WellKept(l: Ledger) { Numbered(l.entries) && NoRepeats(l.exits) && ExitsEntered(l) && MergesEntered(l) }

  predicate SameExposure(p: Position, q: Position) { p.underlying == q.underlying && p.direction == q.direction }

  predicate Exclusive(ps: seq<Position>) { forall i, j :: 0 <= i < j < |ps| ==> !SameExposure(ps[i], ps[j]) }

  /** The book agrees with the ledger; `floor` is the last day rolled to. */
  predicate Consistent(c: Core, floor: int) {
    && WellKept(c.ledger)
    && Exclusive(Rebuild(c.ledger, floor))
    && (c.day.Some? ==>
          && c.day.value == floor
          && c.positions == Rebuild(c.ledger, floor)
          && c.entriesToday == CountDay(c.ledger.entries, floor))
    && (c.day.None? ==> c.positions == [] && c.entriesToday == 0)
  }

  lemma {:induction false} CountDayGrows(entries: seq<Entry>, i: nat, day: int)
    requires i < |entries| && entries[i].day == day
    ensures CountDay(entries[..i], day) < CountDay(entries, day)
    decreases |entries|
  {
    var init := entries[..|entries| - 1];
    if i == |init| {
    } else {
      CountDayGrows(init, i, day);
      assert init[..i] == entries[..i];
    }
  }

  /** The next id has never been used. */
  lemma NextIdIsNew(entries: seq<Entry>, id: PositionId)
    requires Numbered(entries) && id.seqNo == CountDay(entries, id.day)
    ensures !WasEntered(entries, id)
  {
    if WasEntered(entries, id) {
      var i :| 0 <= i < |entries| && entries[i].id == id;
      CountDayGrows(entries, i, id.day);
      assert false;
    }
  }

  /** No position id is entered twice. */
  lemma IdsAreUnique(entries: seq<Entry>)
    requires Numbered(entries)
    ensures forall i, j :: 0 <= i < j < |entries| ==> entries[i].id != entries[j].id
  {
    forall i, j | 0 <= i < j < |entries| ensures entries[i].id != entries[j].id {
      if entries[i].id == entries[j].id {
        assert entries[..j][..i] == entries[..i];
        CountDayGrows(entries[..j], i, entries[j].day);
        assert false;
      }
    }
  }

  // ---------------------------------------------------------------- what a rebuild holds

  /** Some entry of this id has no exit and has not expired. */
  predicate Held(entries: seq<Entry>, exits: seq<PositionId>, today: int, id: PositionId) {
    exists i :: 0 <= i < |entries| && entries[i].id == id && id !in exits && entries[i].expiry >= today
  }

  lemma HeldAppend(entries: seq<Entry>, e: Entry, exits: seq<PositionId>, today: int, id: PositionId)
    ensures Held(entries + [e], exits, today, id)
      <==> Held(entries, exits, today, id) || (e.id == id && id !in exits && e.expiry >= today)
  {
    var all := entries + [e];
    assert all[|entries|] == e;
    if Held(entries, exits, today, id) {
      var i :| 0 <= i < |entries| && entries[i].id == id && id !in exits && entries[i].expiry >= today;
      assert all[i] == entries[i];
    }
  }

  /** A position is open exactly when some entry of it is unexited and unexpired. */
  lemma {:induction false} RebuiltIff(entries: seq<Entry>, merges: seq<Merge>, exits: seq<PositionId>, today: int, id: PositionId)
    ensures IsOpen(RebuildFrom(entries, merges, exits, today), id) <==> Held(entries, exits, today, id)
    decreases |entries|
  {
    if entries == [] {
    } else {
      hide Reopen, RebuildFrom, IsOpen, Held;
      var init, e := entries[..|entries| - 1], entries[|entries| - 1];
      assert entries == init + [e];
      RebuiltIff(init, merges, exits, today, id);
      RebuiltStep(entries, merges, exits, today);
      OpenAppend(RebuildFrom(init, merges, exits, today), Reopen(e, merges), id);
      ReopenId(e, merges);
      HeldAppend(init, e, exits, today, id);
    }
  }

  lemma ReopenId(e: Entry, merges: seq<Merge>)
    ensures Reopen(e, merges).id == e.id
  {
  }

  lemma RebuiltStep(entries: seq<Entry>, merges: seq<Merge>, exits: seq<PositionId>, today: int)
    requires entries != []
    ensures var init, e := entries[..|entries| - 1], entries[|entries| - 1];
      RebuildFrom(entries, merges, exits, today) ==
        if e.id in exits || e.expiry < today then RebuildFrom(init, merges, exits, today)
        else RebuildFrom(init, merges, exits, today) + [Reopen(e, merges)]
  {
    hide Reopen;
  }

  lemma OpenAppend(ps: seq<Position>, p: Position, id: PositionId)
    ensures IsOpen(ps + [p], id) <==> IsOpen(ps, id) || p.id == id
  {
    var q := ps + [p];
    if IsOpen(ps, id) {
      var i :| 0 <= i < |ps| && ps[i].id == id;
      assert q[i].id == id;
    }
    assert q[|ps|] == p;
  }

  predicate DistinctIds(ps: seq<Position>) { forall i, j :: 0 <= i < j < |ps| ==> ps[i].id != ps[j].id }

  lemma {:induction false} RebuiltDistinct(entries: seq<Entry>, merges: seq<Merge>, exits: seq<PositionId>, today: int)
    requires Numbered(entries)
    ensures DistinctIds(RebuildFrom(entries, merges, exits, today))
    decreases |entries|
  {
    if entries == [] {
    } else {
      var init, e := entries[..|entries| - 1], entries[|entries| - 1];
      NumberedPrefix(init, e, entries);
      NextIdIsNew(init, e.id);
      RebuiltDistinct(init, merges, exits, today);
      RebuiltIff(init, merges, exits, today, e.id);
      RebuiltStep(entries, merges, exits, today);
      ReopenId(e, merges);
      hide RebuildFrom, Reopen, Numbered;
      DistinctAppend(RebuildFrom(init, merges, exits, today), Reopen(e, merges));
      hide DistinctIds;
    }
  }

  lemma DistinctAppend(ps: seq<Position>, p: Position)
    requires DistinctIds(ps)
    ensures !IsOpen(ps, p.id) ==> DistinctIds(ps + [p])
  {
  }

  /** Positions with different ids all stay. */
  lemma {:induction false} ByIdIdle(ps: seq<Position>)
    requires DistinctIds(ps)
    ensures ById(ps) == ps
    decreases |ps|
  {
    if ps == [] {
    } else {
      var init, last := ps[..|ps| - 1], ps[|ps| - 1];
      ByIdIdle(init);
      assert ps == init + [last] && !IsOpen(init, last.id);
    }
  }

  lemma NumberedPrefix(init: seq<Entry>, e: Entry, entries: seq<Entry>)
    requires entries == init + [e] && Numbered(entries)
    ensures Numbered(init) && e.id.day == e.day && e.id.seqNo == CountDay(init, e.day)
  {
    forall i | 0 <= i < |init|
      ensures init[i].id.day == init[i].day && init[i].id.seqNo == CountDay(init[..i], init[i].day) {
      assert entries[i] == init[i] && entries[..i] == init[..i];
    }
    assert entries[..|init|] == init && entries[|init|] == e;
  }

  lemma NumberedAppend(entries: seq<Entry>, e: Entry)
    requires Numbered(entries) && e.id.day == e.day && e.id.seqNo == CountDay(entries, e.day)
    ensures Numbered(entries + [e])
  {
    var s := entries + [e];
    forall i | 0 <= i < |s| ensures s[i].id.day == s[i].day && s[i].id.seqNo == CountDay(s[..i], s[i].day) {
      if i < |entries| { assert s[..i] == entries[..i]; } else { assert s[..i] == entries; }
    }
  }

  // ---------------------------------------------------------------- exclusive exposure

  /** None of the positions has the exposure of `p`. */
  predicate Free(ps: seq<Position>, p: Position) { forall i :: 0 <= i < |ps| ==> !SameExposure(ps[i], p) }

  lemma FreeAppend(ps: seq<Position>, q: Position, p: Position)
    requires Free(ps, p) && !SameExposure(q, p)
    ensures Free(ps + [q], p)
  {
  }

  lemma ExclusiveAppend(ps: seq<Position>, p: Position)
    ensures Exclusive(ps + [p]) <==> Exclusive(ps) && Free(ps, p)
  {
    var q := ps + [p];
    assert forall i :: 0 <= i < |ps| ==> q[i] == ps[i];
    assert q[|ps|] == p;
    if Exclusive(q) {
      forall i, j | 0 <= i < j < |ps| ensures !SameExposure(ps[i], ps[j]) { assert !SameExposure(q[i], q[j]); }
      forall i | 0 <= i < |ps| ensures !SameExposure(ps[i], p) { assert !SameExposure(q[i], q[|ps|]); }
    }
  }

  lemma {:induction false} AliveFree(ps: seq<Position>, today: int, p: Position)
    requires Free(ps, p)
    ensures Free(Alive(ps, today), p)
    decreases |ps|
  {
    hide SameExposure;
    if ps == [] {
    } else {
      AliveFree(ps[..|ps| - 1], today, p);
      FreeAppend(Alive(ps[..|ps| - 1], today), ps[|ps| - 1], p);
    }
  }

  lemma {:induction false} AliveExclusive(ps: seq<Position>, today: int)
    requires Exclusive(ps)
    ensures Exclusive(Alive(ps, today)) && |Alive(ps, today)| <= |ps|
    decreases |ps|
  {
    if ps == [] {
    } else {
      var init, p := ps[..|ps| - 1], ps[|ps| - 1];
      assert ps == init + [p];
      ExclusiveAppend(init, p);
      hide SameExposure, Exclusive;
      AliveExclusive(init, today);
      AliveFree(init, today, p);
      ExclusiveAppend(Alive(init, today), p);
    }
  }

  lemma {:induction false} WithoutFree(ps: seq<Position>, id: PositionId, p: Position)
    requires Free(ps, p)
    ensures Free(Without(ps, id), p)
    decreases |ps|
  {
    hide SameExposure;
    if ps == [] {
    } else {
      WithoutFree(ps[..|ps| - 1], id, p);
      FreeAppend(Without(ps[..|ps| - 1], id), ps[|ps| - 1], p);
    }
  }

  lemma {:induction false} WithoutExclusive(ps: seq<Position>, id: PositionId)
    requires Exclusive(ps)
    ensures Exclusive(Without(ps, id)) && |Without(ps, id)| <= |ps|
    decreases |ps|
  {
    if ps == [] {
    } else {
      var init, p := ps[..|ps| - 1], ps[|ps| - 1];
      assert ps == init + [p];
      ExclusiveAppend(init, p);
      hide SameExposure, Exclusive;
      WithoutExclusive(init, id);
      WithoutFree(init, id, p);
      ExclusiveAppend(Without(init, id), p);
    }
  }

  // ---------------------------------------------------------------- one operation at a time

  lemma {:induction false} NoMergesYet(lanes: seq<string>, merges: seq<Merge>, id: PositionId)
    requires forall i :: 0 <= i < |merges| ==> merges[i].id != id
    ensures AddMerges(lanes, merges, id) == lanes
    decreases |merges|
  {
    if merges == [] {
    } else {
      NoMergesYet(lanes, merges[..|merges| - 1], id);
    }
  }

  lemma EnterKeeps(c: Core, s: Signal, minute: int, pick: Contract, floor: int)
    requires Consistent(c, floor) && c.day.Some? && pick.expiry >= floor
    requires FindOpen(c.positions, s.underlying, s.direction) == |c.positions|
    ensures Consistent(Enter(c, s, minute, pick), floor)
    ensures |Enter(c, s, minute, pick).positions| == |c.positions| + 1
  {
    hide CountDay, AddMerges, RebuildFrom, FindOpen, Held, Place;
    var l := c.ledger;
    var id := PositionId(pick.occ, floor, minute, c.entriesToday);
    var e := Entry(id, floor, s.underlying, s.direction, pick.expiry, [s.lane]);
    var d := Enter(c, s, minute, pick);
    NextIdIsNew(l.entries, id);
    NumberedAppend(l.entries, e);
    hide Numbered;
    assert id !in l.exits;
    IdIsFree(c, id, floor);
    RebuiltStep(d.ledger.entries, l.merges, l.exits, floor);
    assert d.ledger.entries[..|l.entries|] == l.entries;
    NoMergesYet([s.lane], l.merges, id);
    ExclusiveAppend(c.positions, Reopen(e, l.merges));
    EnteredStays(l.entries, e);
    CountDayAppend(l.entries, e);
  }

  /** An id never entered is not in the book. */
  lemma IdIsFree(c: Core, id: PositionId, floor: int)
    requires c.positions == Rebuild(c.ledger, floor) && !WasEntered(c.ledger.entries, id)
    ensures !IsOpen(c.positions, id)
    ensures forall p: Position :: p.id == id ==> Place(c.positions, p) == c.positions + [p]
  {
    hide RebuildFrom;
    RebuiltIff(c.ledger.entries, c.ledger.merges, c.ledger.exits, floor, id);
  }

  lemma CountDayAppend(entries: seq<Entry>, e: Entry)
    ensures CountDay(entries + [e], e.day) == CountDay(entries, e.day) + 1
  {
    assert (entries + [e])[..|entries|] == entries;
  }

  lemma EnteredStays(entries: seq<Entry>, e: Entry)
    ensures forall id :: WasEntered(entries, id) ==> WasEntered(entries + [e], id)
  {
    forall id | WasEntered(entries, id) ensures WasEntered(entries + [e], id) {
      var i :| 0 <= i < |entries| && entries[i].id == id;
      assert (entries + [e])[i].id == id;
    }
  }

  /** Merging a lane into an open position, seen from the ledger. */
  lemma {:induction false} RebuildMerge(entries: seq<Entry>, merges: seq<Merge>, exits: seq<PositionId>, today: int, m: Merge)
    requires m.lane != ""
    ensures var ps, qs := RebuildFrom(entries, merges, exits, today), RebuildFrom(entries, merges + [m], exits, today);
      |qs| == |ps| && forall i :: 0 <= i < |ps| ==>
        qs[i] == if ps[i].id == m.id then ps[i].(lanes := AddLane(ps[i].lanes, m.lane)) else ps[i]
    decreases |entries|
  {
    if entries == [] {
    } else {
      var init, e := entries[..|entries| - 1], entries[|entries| - 1];
      RebuildMerge(init, merges, exits, today, m);
      RebuiltStep(entries, merges, exits, today);
      RebuiltStep(entries, merges + [m], exits, today);
      hide RebuildFrom, AddLane;
      assert (merges + [m])[..|merges|] == merges;
    }
  }

  lemma MergeKeeps(c: Core, k: nat, lane: string, floor: int)
    requires Consistent(c, floor) && c.day.Some? && lane != ""
    requires k < |c.positions| && lane !in c.positions[k].lanes
    ensures Consistent(MergeInto(c, k, lane), floor)
  {
    hide RebuildFrom, CountDay, Numbered;
    var l, p := c.ledger, c.positions[k];
    var m := Merge(p.id, lane);
    RebuildMerge(l.entries, l.merges, l.exits, floor, m);
    RebuiltDistinct(l.entries, l.merges, l.exits, floor);
    RebuiltIff(l.entries, l.merges, l.exits, floor, p.id);
    assert IsOpen(c.positions, p.id);
    assert WasEntered(l.entries, p.id);
    var d := MergeInto(c, k, lane);
    assert Rebuild(d.ledger, floor) == d.positions;
    RelabelExclusive(c.positions, d.positions);
  }

  lemma RelabelExclusive(ps: seq<Position>, qs: seq<Position>)
    requires Exclusive(ps) && |qs| == |ps|
    requires forall i :: 0 <= i < |ps| ==> qs[i].underlying == ps[i].underlying && qs[i].direction == ps[i].direction
    ensures Exclusive(qs)
  {
    forall i, j | 0 <= i < j < |qs| ensures !SameExposure(qs[i], qs[j]) { assert !SameExposure(ps[i], ps[j]); }
  }

  /** Closing a position, seen from the ledger. */
  lemma {:induction false} RebuildExit(entries: seq<Entry>, merges: seq<Merge>, exits: seq<PositionId>, today: int, id: PositionId)
    ensures RebuildFrom(entries, merges, exits + [id], today) == Without(RebuildFrom(entries, merges, exits, today), id)
    decreases |entries|
  {
    if entries == [] {
    } else {
      var init, e := entries[..|entries| - 1], entries[|entries| - 1];
      RebuildExit(init, merges, exits, today, id);
      RebuiltStep(entries, merges, exits, today);
      RebuiltStep(entries, merges, exits + [id], today);
      ReopenId(e, merges);
      WithoutAppend(RebuildFrom(init, merges, exits, today), Reopen(e, merges), id);
      hide RebuildFrom, Reopen, Without;
    }
  }

  lemma WithoutAppend(ps: seq<Position>, p: Position, id: PositionId)
    ensures Without(ps + [p], id) == if p.id == id then Without(ps, id) else Without(ps, id) + [p]
  {
    assert (ps + [p])[..|ps|] == ps;
  }

  lemma CloseKeeps(c: Core, id: PositionId, floor: int)
    requires Consistent(c, floor)
    ensures Consistent(CloseOne(c, id), floor)
    ensures |CloseOne(c, id).positions| <= |c.positions|
  {
    hide RebuildFrom, CountDay, Numbered, Without;
    if IsOpen(c.positions, id) {
      var l := c.ledger;
      RebuildExit(l.entries, l.merges, l.exits, floor, id);
      RebuiltIff(l.entries, l.merges, l.exits, floor, id);
      WithoutExclusive(c.positions, id);
    }
  }

  lemma {:induction false} SweepKeeps(c: Core, ids: seq<PositionId>, closes: set<PositionId>, floor: int)
    requires Consistent(c, floor)
    ensures Consistent(SweepIds(c, ids, closes), floor)
    ensures |SweepIds(c, ids, closes).positions| <= |c.positions|
    decreases |ids|
  {
    hide Consistent, CloseOne;
    if ids == [] {
    } else {
      SweepKeeps(c, ids[..|ids| - 1], closes, floor);
      CloseKeeps(SweepIds(c, ids[..|ids| - 1], closes), ids[|ids| - 1], floor);
    }
  }

  /** A later rebuild only drops what expired in between. */
  lemma {:induction false} RebuildLater(entries: seq<Entry>, merges: seq<Merge>, exits: seq<PositionId>, early: int, late: int)
    requires early <= late
    ensures RebuildFrom(entries, merges, exits, late) == Alive(RebuildFrom(entries, merges, exits, early), late)
    decreases |entries|
  {
    if entries == [] {
    } else {
      var init, e := entries[..|entries| - 1], entries[|entries| - 1];
      RebuildLater(init, merges, exits, early, late);
      RebuiltStep(entries, merges, exits, early);
      RebuiltStep(entries, merges, exits, late);
      AliveAppend(RebuildFrom(init, merges, exits, early), Reopen(e, merges), late);
      ReopenExpiry(e, merges);
      hide RebuildFrom, Reopen, Alive;
    }
  }

  // ---------------------------------------------------------------- day rolls and their reads

  predicate OpenRow(l: Ledger, i: nat, today: int)
    requires i < |l.entries|
  {
    l.entries[i].id !in l.exits && l.entries[i].expiry >= today
  }

  /** Entry number `i` has no merge that adds a lane. */
  predicate NothingMerged(l: Ledger, i: nat)
    requires i < |l.entries|
  {
    AddMerges(l.entries[i].lanes, l.merges, l.entries[i].id) == l.entries[i].lanes
  }

  /** Among the first `n` entries no open one lost a merged lane. */
  predicate LostNothing(l: Ledger, n: nat, today: int, lost: set<nat>)
    requires n <= |l.entries|
  {
    forall i :: 0 <= i < n && i in lost && OpenRow(l, i, today) ==> NothingMerged(l, i)
  }

  lemma LostStep(l: Ledger, n: nat, today: int, lost: set<nat>)
    requires n < |l.entries|
    ensures LostNothing(l, n + 1, today, lost)
      <==> LostNothing(l, n, today, lost) && (n in lost && OpenRow(l, n, today) ==> NothingMerged(l, n))
  {
    hide OpenRow, NothingMerged;
  }

  /** The entries read, or nothing was open; no open entry lost a merged lane. */
  predicate PositionsRead(l: Ledger, today: int, r: Reads) {
    if r.entries then LostNothing(l, |l.entries|, today, r.lost)
    else Rebuild(l, today) == []
  }

  /** A read that failed had nothing to give: what decides whether a roll is harmless. */
  predicate ReadsSuffice(l: Ledger, today: int, r: Reads) {
    PositionsRead(l, today, r) && (r.count || CountDay(l.entries, today) == 0)
  }

  lemma ReadStep(entries: seq<Entry>, merges: seq<Merge>, exits: seq<PositionId>, today: int, lost: set<nat>)
    requires entries != []
    ensures var n := |entries| - 1;
      ReadFrom(entries, merges, exits, today, lost) ==
        if entries[n].id in exits || entries[n].expiry < today then ReadFrom(entries[..n], merges, exits, today, lost)
        else ReadFrom(entries[..n], merges, exits, today, lost) + [Reopen(entries[n], if n in lost then [] else merges)]
  {
    hide Reopen;
  }

  lemma ReopenLost(e: Entry, merges: seq<Merge>)
    ensures Reopen(e, []) == Reopen(e, merges) <==> AddMerges(e.lanes, merges, e.id) == e.lanes
  {
  }

  lemma LastEqual<T>(a: seq<T>, x: T, b: seq<T>, y: T)
    requires |a| == |b|
    ensures a + [x] == b + [y] <==> a == b && x == y
  {
    if a + [x] == b + [y] {
      assert (a + [x])[..|a|] == a && (b + [y])[..|b|] == b;
      assert (a + [x])[|a|] == x && (b + [y])[|b|] == y;
    }
  }

  /** Losing the merges of some entries shows exactly when one of them is open and had a lane to add. */
  lemma {:induction false} ReadIff(l: Ledger, n: nat, today: int, lost: set<nat>)
    requires n <= |l.entries|
    ensures var full, read := RebuildFrom(l.entries[..n], l.merges, l.exits, today),
                              ReadFrom(l.entries[..n], l.merges, l.exits, today, lost);
      && |read| == |full|
      && (read == full <==> LostNothing(l, n, today, lost))
  {
    hide Reopen, NothingMerged;
    if n == 0 {
    } else {
      hide RebuildFrom, ReadFrom, LostNothing;
      var m, s := n - 1, l.entries[..n];
      assert s[..m] == l.entries[..m] && s[m] == l.entries[m];
      ReadIff(l, m, today, lost);
      LostStep(l, m, today, lost);
      RebuiltStep(s, l.merges, l.exits, today);
      ReadStep(s, l.merges, l.exits, today, lost);
      if OpenRow(l, m, today) {
        LostShows(l, m);
        LastEqual(ReadFrom(s[..m], l.merges, l.exits, today, lost), Reopen(s[m], if m in lost then [] else l.merges),
                  RebuildFrom(s[..m], l.merges, l.exits, today), Reopen(s[m], l.merges));
      }
    }
  }

  /** The positions read have the ids of the positions there are. */
  lemma {:induction false} ReadIds(entries: seq<Entry>, merges: seq<Merge>, exits: seq<PositionId>, today: int, lost: set<nat>)
    ensures var full, read := RebuildFrom(entries, merges, exits, today), ReadFrom(entries, merges, exits, today, lost);
      |read| == |full| && forall i :: 0 <= i < |read| ==> read[i].id == full[i].id
    decreases |entries|
  {
    if entries == [] {
    } else {
      var n := |entries| - 1;
      ReadIds(entries[..n], merges, exits, today, lost);
      RebuiltStep(entries, merges, exits, today);
      ReadStep(entries, merges, exits, today, lost);
      ReopenId(entries[n], merges);
      ReopenId(entries[n], []);
      hide RebuildFrom, ReadFrom, Reopen;
    }
  }

  lemma LostShows(l: Ledger, i: nat)
    requires i < |l.entries|
    ensures Reopen(l.entries[i], []) == Reopen(l.entries[i], l.merges) <==> NothingMerged(l, i)
  {
    ReopenLost(l.entries[i], l.merges);
  }

  /** The positions read back are the ledger's exactly when the reads sufficed for them. */
  lemma ReadBackIff(l: Ledger, today: int, r: Reads)
    ensures ReadBack(l, today, r) == Rebuild(l, today) <==> PositionsRead(l, today, r)
  {
    hide RebuildFrom, LostNothing;
    if r.entries {
      assert l.entries[..|l.entries|] == l.entries;
      ReadIff(l, |l.entries|, today, r.lost);
      hide ReadFrom;
    } else {
      assert ReadFrom([], l.merges, l.exits, today, r.lost) == [];
    }
  }

  lemma AllReadSuffices(l: Ledger, today: int)
    ensures ReadsSuffice(l, today, ALL_READ)
    ensures ReadBack(l, today, ALL_READ) == Rebuild(l, today)
  {
    assert LostNothing(l, |l.entries|, today, {});
    ReadBackIff(l, today, ALL_READ);
  }

  /** The book the ledger stands for on a day. */
  function BookOf(l: Ledger, today: int): Core { Core(Some(today), Rebuild(l, today), CountDay(l.entries, today), l) }

  /** What a rolled book is, and when it is the ledger's own. */
  lemma RolledBook(c: Core, today: int, r: Reads, floor: int)
    requires c.day != Some(today) && r.exits && Consistent(c, floor)
    ensures RollDay(c, today, r) == BookOf(c.ledger, today) <==> ReadsSuffice(c.ledger, today, r)
    ensures RollDay(c, today, r).ledger == c.ledger && RollDay(c, today, r).day == Some(today)
  {
    hide ReadBack, RebuildFrom, CountDay, PositionsRead, WellKept;
    ReadBackIff(c.ledger, today, r);
    ReadDistinct(c.ledger, today, r);
    ByIdIdle(ReadBack(c.ledger, today, r));
  }

  /** What the reads give back of a ledger has one position for each id. */
  lemma ReadDistinct(l: Ledger, today: int, r: Reads)
    requires WellKept(l)
    ensures DistinctIds(ReadBack(l, today, r))
  {
    hide RebuildFrom, Numbered;
    if r.entries {
      ReadIds(l.entries, l.merges, l.exits, today, r.lost);
      RebuiltDistinct(l.entries, l.merges, l.exits, today);
      hide ReadFrom;
    } else {
      assert ReadFrom([], l.merges, l.exits, today, r.lost) == [];
    }
  }

  lemma BookIsConsistent(c: Core, today: int, floor: int)
    requires Consistent(c, floor) && floor <= today
    ensures Consistent(BookOf(c.ledger, today), today)
    ensures Rebuild(c.ledger, today) == Alive(Rebuild(c.ledger, floor), today)
  {
    hide RebuildFrom, CountDay, Alive, WellKept;
    var l := c.ledger;
    RebuildLater(l.entries, l.merges, l.exits, floor, today);
    AliveExclusive(Rebuild(l, floor), today);
  }

  lemma ConsistentIsBook(d: Core, today: int)
    requires d.day == Some(today)
    ensures Consistent(d, today) ==> d == BookOf(d.ledger, today)
  {
    hide RebuildFrom, CountDay, WellKept, Exclusive;
  }

  /** A roll to a new day keeps memory and ledger in agreement exactly when every read that failed
      had nothing to give. */
  lemma RollKeepsIff(c: Core, today: int, r: Reads, floor: int)
    requires Consistent(c, floor) && floor <= today
    requires c.day != Some(today) && r.exits
    ensures Consistent(RollDay(c, today, r), today) <==> ReadsSuffice(c.ledger, today, r)
  {
    hide *;
    RolledBook(c, today, r, floor);
    BookIsConsistent(c, today, floor);
    ConsistentIsBook(RollDay(c, today, r), today);
  }

  /** With the entries file locked throughout, a roll is harmless only to an empty book on a day
      without entries. */
  lemma LockedEntriesIff(c: Core, today: int, floor: int)
    requires Consistent(c, floor) && floor <= today && c.day != Some(today)
    ensures Consistent(RollDay(c, today, Reads(true, false, {}, false)), today)
      <==> Rebuild(c.ledger, today) == [] && CountDay(c.ledger.entries, today) == 0
  {
    hide Consistent, RollDay, RebuildFrom, CountDay;
    RollKeepsIff(c, today, Reads(true, false, {}, false), floor);
  }

  /** A day roll whose reads sufficed keeps the open positions, lanes and all, but those that
      expired unexited. */
  lemma RollFilters(c: Core, today: int, r: Reads, floor: int)
    requires Consistent(c, floor) && floor <= today
    requires c.day == Some(today) || (r.exits && ReadsSuffice(c.ledger, today, r))
    ensures Consistent(RollDay(c, today, r), today)
    ensures RollDay(c, today, r).positions == Alive(Rebuild(c.ledger, floor), today)
    ensures c.day.Some? ==> RollDay(c, today, r).positions == Alive(c.positions, today)
  {
    hide RebuildFrom, ReadBack, CountDay, Alive, WellKept, PositionsRead;
    BookIsConsistent(c, today, floor);
    if c.day != Some(today) { RolledBook(c, today, r, floor); }
  }

  /** A crash loses nothing exactly when the roll after it reads the exits and every other read that
      failed had nothing to give: only then does it give the very book that a roll with every
      file readable gives without the crash. */
  lemma RestartLosesNothing(c: Core, today: int, r: Reads, floor: int)
    requires Consistent(c, floor) && floor <= today
    ensures RollDay(Restart(c), today, r) == RollDay(c, today, ALL_READ)
      <==> r.exits && ReadsSuffice(c.ledger, today, r)
  {
    hide RebuildFrom, ReadBack, CountDay, PositionsRead, WellKept, Exclusive;
    assert RollDay(c, today, ALL_READ) == BookOf(c.ledger, today) by {
      AllReadSuffices(c.ledger, today);
      if c.day != Some(today) { RolledBook(c, today, ALL_READ, floor); }
    }
    RestartKeeps(c, floor);
    if r.exits { RolledBook(Restart(c), today, r, floor); }
  }

  // ---------------------------------------------------------------- runs

  /** The last day rolled to after some steps. */
  function FloorAfter(floor: int, steps: seq<Step>): int {
    if steps == [] then floor
    else
      var last := steps[|steps| - 1];
      if last.Roll? && last.r.exits then last.day else FloorAfter(floor, steps[..|steps| - 1])
  }

  /** A step that rolls the book to a new day from what it reads. */
  predicate Rolls(c: Core, step: Step) { step.Roll? && step.r.exits && c.day != Some(step.day) }

  /** What the surroundings keep to: the clock does not run backwards over day rolls, lanes have
      names, and the selector offers no expired contract. */
  predicate Reasonable(c: Core, floor: int, step: Step, maxConcurrent: nat) {
    match step
    case Roll(day, r) => Rolls(c, step) ==> floor <= day
    case Fire(s, e) => s.lane != "" && e.maxConcurrent == maxConcurrent && (e.pick.Some? ==> e.pick.value.expiry >= floor)
    case _ => true
  }

  /** The step is no roll, or its reads suffice. */
  predicate Harmless(c: Core, step: Step) { Rolls(c, step) ==> ReadsSuffice(c.ledger, step.day, step.r) }

  predicate ReasonableRun(c: Core, floor: int, steps: seq<Step>, maxConcurrent: nat) {
    forall i :: 0 <= i < |steps| ==> Reasonable(RunSteps(c, steps[..i]), FloorAfter(floor, steps[..i]), steps[i], maxConcurrent)
  }

  predicate HarmlessRun(c: Core, steps: seq<Step>) {
    forall i :: 0 <= i < |steps| ==> Harmless(RunSteps(c, steps[..i]), steps[i])
  }

  /** How many positions the ledger holds open. */
  function OpenCount(c: Core, floor: int): nat { |Rebuild(c.ledger, floor)| }

  lemma SignalKeeps(c: Core, s: Signal, e: Env, floor: int)
    requires Consistent(c, floor) && c.day.Some?
    requires Reasonable(c, floor, Fire(s, e), e.maxConcurrent)
    ensures Consistent(OnSignal(c, s, e), floor)
    ensures |OnSignal(c, s, e).positions| <= MaxNat(|c.positions|, e.maxConcurrent)
  {
    hide Consistent, FindOpen;
    var k := FindOpen(c.positions, s.underlying, s.direction);
    match Judge(c, s, e)
    case Merged => MergeKeeps(c, k, s.lane, floor);
    case Entered => EnterKeeps(c, s, e.minute, e.pick.value, floor);
    case _ =>
  }

  lemma ConsistentCount(c: Core, floor: int)
    requires Consistent(c, floor)
    ensures c.day.Some? ==> OpenCount(c, floor) == |c.positions|
    ensures c.day.None? ==> c.positions == []
  {
  }

  lemma NextKeeps(c: Core, step: Step, floor: int, maxConcurrent: nat)
    requires Consistent(c, floor) && Reasonable(c, floor, step, maxConcurrent) && Harmless(c, step)
    ensures var f := FloorAfter(floor, [step]);
      && Consistent(Next(c, step), f)
      && OpenCount(Next(c, step), f) <= MaxNat(OpenCount(c, floor), maxConcurrent)
  {
    hide Consistent, OnSignal, CloseOne, SweepIds, RollDay, OpenCount, Rebuild, ReadsSuffice;
    ConsistentCount(c, floor);
    var d := Next(c, step);
    match step
    case Fire(s, e) =>
      if c.day.Some? { SignalKeeps(c, s, e, floor); SignalDay(c, s, e); }
      ConsistentCount(d, floor);
    case Force(id) =>
      CloseKeeps(c, id, floor);
      CloseDay(c, id);
      ConsistentCount(d, floor);
    case Reval(closes) =>
      SweepKeeps(c, OpenIds(c.positions), closes, floor);
      SweepDay(c, OpenIds(c.positions), closes);
      ConsistentCount(d, floor);
    case Roll(day, r) =>
      if Rolls(c, step) { RollFilters(c, day, r, floor); RollCount(c, day, r, floor); } else { RollIdle(c, day, r, floor); }
    case Crash =>
      RestartKeeps(c, floor);
  }

  lemma SignalDay(c: Core, s: Signal, e: Env)
    requires c.day.Some?
    ensures OnSignal(c, s, e).day == c.day
  {
  }

  /** A closing that does anything happens after a day roll. */
  lemma CloseDay(c: Core, id: PositionId)
    ensures CloseOne(c, id).day == c.day
    ensures c.positions == [] ==> CloseOne(c, id) == c
  {
  }

  lemma {:induction false} SweepDay(c: Core, ids: seq<PositionId>, closes: set<PositionId>)
    ensures SweepIds(c, ids, closes).day == c.day
    ensures c.positions == [] ==> SweepIds(c, ids, closes) == c
    decreases |ids|
  {
    hide CloseOne;
    if ids == [] {
    } else {
      SweepDay(c, ids[..|ids| - 1], closes);
      CloseDay(SweepIds(c, ids[..|ids| - 1], closes), ids[|ids| - 1]);
    }
  }

  lemma RollIdle(c: Core, day: int, r: Reads, floor: int)
    requires Consistent(c, floor) && !Rolls(c, Roll(day, r))
    ensures RollDay(c, day, r) == c && (r.exits ==> day == floor)
  {
    hide WellKept, Exclusive, Rebuild, CountDay;
  }

  lemma RollCount(c: Core, day: int, r: Reads, floor: int)
    requires Consistent(c, floor) && floor <= day
    requires r.exits && ReadsSuffice(c.ledger, day, r)
    ensures OpenCount(RollDay(c, day, r), day) <= OpenCount(c, floor)
  {
    hide RebuildFrom, ReadBack, CountDay, Alive, WellKept, PositionsRead;
    RollFilters(c, day, r, floor);
    AliveExclusive(Rebuild(c.ledger, floor), day);
    ConsistentCount(RollDay(c, day, r), day);
  }

  lemma RestartKeeps(c: Core, floor: int)
    requires Consistent(c, floor)
    ensures Consistent(Restart(c), floor) && OpenCount(Restart(c), floor) == OpenCount(c, floor)
  {
    hide RebuildFrom, WellKept, Exclusive;
  }

  lemma RunPrefix(c: Core, steps: seq<Step>, i: nat)
    requires i < |steps|
    ensures RunSteps(c, steps[..i + 1]) == Next(RunSteps(c, steps[..i]), steps[i])
  {
    assert steps[..i + 1][..i] == steps[..i];
  }

  lemma RunsRestrict(c: Core, floor: int, steps: seq<Step>, maxConcurrent: nat, n: nat)
    requires n <= |steps|
    ensures ReasonableRun(c, floor, steps, maxConcurrent) ==> ReasonableRun(c, floor, steps[..n], maxConcurrent)
    ensures HarmlessRun(c, steps) ==> HarmlessRun(c, steps[..n])
  {
    hide Reasonable, Harmless, RunSteps, FloorAfter;
    forall i | 0 <= i < n ensures steps[..n][..i] == steps[..i] {}
    if ReasonableRun(c, floor, steps, maxConcurrent) {
      forall i | 0 <= i < n
        ensures Reasonable(RunSteps(c, steps[..n][..i]), FloorAfter(floor, steps[..n][..i]), steps[..n][i], maxConcurrent) {
        assert Reasonable(RunSteps(c, steps[..i]), FloorAfter(floor, steps[..i]), steps[i], maxConcurrent);
      }
    }
    if HarmlessRun(c, steps) {
      forall i | 0 <= i < n ensures Harmless(RunSteps(c, steps[..n][..i]), steps[..n][i]) {
        assert Harmless(RunSteps(c, steps[..i]), steps[i]);
      }
    }
  }

  /** Over every run whose rolls lose nothing to a failing read: memory is exactly what the ledger
      says, and the open count never grows past the larger of where it started and
      `maxConcurrent`. */
  lemma {:induction false} RunKeeps(c: Core, steps: seq<Step>, floor: int, maxConcurrent: nat)
    requires Consistent(c, floor) && ReasonableRun(c, floor, steps, maxConcurrent) && HarmlessRun(c, steps)
    ensures var f := FloorAfter(floor, steps);
      && Consistent(RunSteps(c, steps), f)
      && OpenCount(RunSteps(c, steps), f) <= MaxNat(OpenCount(c, floor), maxConcurrent)
    decreases |steps|
  {
    hide Consistent, Next, OpenCount, Reasonable, Harmless;
    if steps == [] {
    } else {
      var n := |steps| - 1;
      assert Reasonable(RunSteps(c, steps[..n]), FloorAfter(floor, steps[..n]), steps[n], maxConcurrent);
      assert Harmless(RunSteps(c, steps[..n]), steps[n]);
      RunsRestrict(c, floor, steps, maxConcurrent, n);
      hide ReasonableRun, HarmlessRun;
      RunKeeps(c, steps[..n], floor, maxConcurrent);
      NextKeeps(RunSteps(c, steps[..n]), steps[n], FloorAfter(floor, steps[..n]), maxConcurrent);
      FloorSplits(floor, steps[..n], steps[n]);
      assert steps == steps[..n] + [steps[n]];
    }
  }

  ghost predicate AlwaysConsistent(c: Core, floor: int, steps: seq<Step>) {
    forall i :: 0 <= i <= |steps| ==> Consistent(RunSteps(c, steps[..i]), FloorAfter(floor, steps[..i]))
  }

  /** The condition is exact: in reasonable surroundings memory agrees with the ledger after every
      step of a run if and only if no roll in it lost anything to a failing read. */
  lemma RunKeepsIff(c: Core, steps: seq<Step>, floor: int, maxConcurrent: nat)
    requires Consistent(c, floor) && ReasonableRun(c, floor, steps, maxConcurrent)
    ensures AlwaysConsistent(c, floor, steps) <==> HarmlessRun(c, steps)
  {
    hide Consistent, RunSteps, FloorAfter, Reasonable, Harmless;
    if HarmlessRun(c, steps) {
      forall i | 0 <= i <= |steps| ensures Consistent(RunSteps(c, steps[..i]), FloorAfter(floor, steps[..i])) {
        RunsRestrict(c, floor, steps, maxConcurrent, i);
        RunKeeps(c, steps[..i], floor, maxConcurrent);
      }
    }
    if AlwaysConsistent(c, floor, steps) {
      forall i | 0 <= i < |steps| ensures Harmless(RunSteps(c, steps[..i]), steps[i]) {
        assert Consistent(RunSteps(c, steps[..i]), FloorAfter(floor, steps[..i]));
        assert Consistent(RunSteps(c, steps[..i + 1]), FloorAfter(floor, steps[..i + 1]));
        assert Reasonable(RunSteps(c, steps[..i]), FloorAfter(floor, steps[..i]), steps[i], maxConcurrent);
        RunPrefix(c, steps, i);
        FloorPrefix(floor, steps, i);
        HarmlessAfter(RunSteps(c, steps[..i]), steps[i], FloorAfter(floor, steps[..i]), maxConcurrent);
      }
    }
  }

  lemma FloorPrefix(floor: int, steps: seq<Step>, i: nat)
    requires i < |steps|
    ensures FloorAfter(floor, steps[..i + 1]) == FloorAfter(FloorAfter(floor, steps[..i]), [steps[i]])
  {
    assert steps[..i + 1] == steps[..i] + [steps[i]];
    FloorSplits(floor, steps[..i], steps[i]);
  }

  lemma HarmlessAfter(c: Core, step: Step, floor: int, maxConcurrent: nat)
    requires Consistent(c, floor) && Reasonable(c, floor, step, maxConcurrent)
    requires Consistent(Next(c, step), FloorAfter(floor, [step]))
    ensures Harmless(c, step)
  {
    hide Consistent, RollDay, ReadsSuffice;
    if Rolls(c, step) { RollKeepsIff(c, step.day, step.r, floor); }
  }

  lemma FloorSplits(floor: int, init: seq<Step>, last: Step)
    ensures FloorAfter(floor, init + [last]) == FloorAfter(FloorAfter(floor, init), [last])
  {
    assert (init + [last])[..|init|] == init;
    assert [last][..0] == [];
  }

  const EMPTY: Core := Core(None, [], 0, Ledger([], [], []))

  /** From an empty ledger, after any run whose rolls lose nothing to a failing read: each position id
      was entered once and exited at most once; a position is in memory exactly when its entry has
      no exit and has not expired before the day last rolled to; no two open positions share
      underlying and direction; and there are never more than `maxConcurrent` of them. */
  lemma BookIsExact(steps: seq<Step>, floor: int, maxConcurrent: nat)
    requires ReasonableRun(EMPTY, floor, steps, maxConcurrent) && HarmlessRun(EMPTY, steps)
    ensures var c := RunSteps(EMPTY, steps);
      && (forall i, j :: 0 <= i < j < |c.ledger.entries| ==> c.ledger.entries[i].id != c.ledger.entries[j].id)
      && NoRepeats(c.ledger.exits) && ExitsEntered(c.ledger)
      && Exclusive(c.positions) && DistinctIds(c.positions)
      && |c.positions| <= maxConcurrent
      && (c.day.Some? ==> forall id :: IsOpen(c.positions, id) <==> Held(c.ledger.entries, c.ledger.exits, c.day.value, id))
  {
    hide RebuildFrom, CountDay, Numbered, RunSteps, FloorAfter, ReasonableRun, HarmlessRun, IsOpen;
    assert Consistent(EMPTY, floor) by { EmptyIsConsistent(floor); }
    RunKeeps(EMPTY, steps, floor, maxConcurrent);
    var c, f := RunSteps(EMPTY, steps), FloorAfter(floor, steps);
    var l := c.ledger;
    IdsAreUnique(l.entries);
    RebuiltDistinct(l.entries, l.merges, l.exits, f);
    forall id ensures IsOpen(Rebuild(l, f), id) <==> Held(l.entries, l.exits, f, id) {
      RebuiltIff(l.entries, l.merges, l.exits, f, id);
    }
    assert OpenCount(EMPTY, floor) == 0 by { EmptyIsConsistent(floor); }
  }

  lemma EmptyIsConsistent(floor: int)
    ensures Consistent(EMPTY, floor) && OpenCount(EMPTY, floor) == 0
  {
  }

  // ---------------------------------------------------------------- what holds whatever the reads give

  predicate LanesOnce(ps: seq<Position>) { forall i :: 0 <= i < |ps| ==> NoRepeats(ps[i].lanes) }

  /** One position for each id, and no position or entry names a lane twice. */
  predicate Tidy(c: Core) {
    && DistinctIds(c.positions) && LanesOnce(c.positions)
    && forall i :: 0 <= i < |c.ledger.entries| ==> NoRepeats(c.ledger.entries[i].lanes)
  }

  lemma {:induction false} MergesTidy(lanes: seq<string>, merges: seq<Merge>, id: PositionId)
    requires NoRepeats(lanes)
    ensures NoRepeats(AddMerges(lanes, merges, id))
    decreases |merges|
  {
    if merges == [] {
    } else {
      MergesTidy(lanes, merges[..|merges| - 1], id);
    }
  }

  lemma {:induction false} ReadTidy(entries: seq<Entry>, merges: seq<Merge>, exits: seq<PositionId>, today: int, lost: set<nat>)
    requires forall i :: 0 <= i < |entries| ==> NoRepeats(entries[i].lanes)
    ensures LanesOnce(ReadFrom(entries, merges, exits, today, lost))
    decreases |entries|
  {
    if entries == [] {
    } else {
      hide AddMerges, NoRepeats;
      var n := |entries| - 1;
      var ms := if n in lost then [] else merges;
      ReadTidy(entries[..n], merges, exits, today, lost);
      MergesTidy(entries[n].lanes, ms, entries[n].id);
      ReadStep(entries, merges, exits, today, lost);
      hide ReadFrom;
    }
  }

  lemma {:induction false} ReplaceAt(ps: seq<Position>, p: Position)
    ensures |Replace(ps, p)| == |ps|
    ensures forall i :: 0 <= i < |ps| ==> Replace(ps, p)[i] == if ps[i].id == p.id then p else ps[i]
    decreases |ps|
  {
    if ps == [] {
    } else {
      ReplaceAt(ps[..|ps| - 1], p);
    }
  }

  lemma PlaceTidy(ps: seq<Position>, p: Position)
    requires DistinctIds(ps) && LanesOnce(ps) && NoRepeats(p.lanes)
    ensures DistinctIds(Place(ps, p)) && LanesOnce(Place(ps, p))
  {
    ReplaceAt(ps, p);
    hide Replace, NoRepeats;
  }

  lemma {:induction false} ByIdTidy(ps: seq<Position>)
    requires LanesOnce(ps)
    ensures DistinctIds(ById(ps)) && LanesOnce(ById(ps))
    decreases |ps|
  {
    if ps == [] {
    } else {
      ByIdTidy(ps[..|ps| - 1]);
      PlaceTidy(ById(ps[..|ps| - 1]), ps[|ps| - 1]);
      hide DistinctIds, Place, NoRepeats;
    }
  }

  lemma {:induction false} WithoutTidy(ps: seq<Position>, id: PositionId)
    requires DistinctIds(ps) && LanesOnce(ps)
    ensures DistinctIds(Without(ps, id)) && LanesOnce(Without(ps, id))
    ensures forall other :: IsOpen(Without(ps, id), other) ==> IsOpen(ps, other)
    decreases |ps|
  {
    if ps == [] {
    } else {
      hide NoRepeats;
      var init, p := ps[..|ps| - 1], ps[|ps| - 1];
      assert ps == init + [p];
      WithoutTidy(init, id);
      assert !IsOpen(init, p.id);
      forall other ensures IsOpen(ps, other) <==> IsOpen(init, other) || p.id == other { OpenAppend(init, p, other); }
      forall other ensures IsOpen(Without(init, id) + [p], other) <==> IsOpen(Without(init, id), other) || p.id == other {
        OpenAppend(Without(init, id), p, other);
      }
      DistinctAppend(Without(init, id), p);
    }
  }

  lemma CloseTidy(c: Core, id: PositionId)
    requires Tidy(c)
    ensures Tidy(CloseOne(c, id))
  {
    hide NoRepeats, Without, DistinctIds, IsOpen;
    WithoutTidy(c.positions, id);
  }

  lemma {:induction false} SweepTidy(c: Core, ids: seq<PositionId>, closes: set<PositionId>)
    requires Tidy(c)
    ensures Tidy(SweepIds(c, ids, closes))
    decreases |ids|
  {
    hide Tidy, CloseOne;
    if ids == [] {
    } else {
      SweepTidy(c, ids[..|ids| - 1], closes);
      CloseTidy(SweepIds(c, ids[..|ids| - 1], closes), ids[|ids| - 1]);
    }
  }

  lemma SignalTidy(c: Core, s: Signal, e: Env)
    requires Tidy(c) && c.day.Some?
    ensures Tidy(OnSignal(c, s, e))
  {
    hide FindOpen, Place;
    if Judge(c, s, e) == Entered {
      PlaceTidy(c.positions, Position(PositionId(e.pick.value.occ, c.day.value, e.minute, c.entriesToday), s.underlying,
                                      s.direction, e.pick.value.expiry, [s.lane]));
    }
  }

  lemma RollTidy(c: Core, day: int, r: Reads)
    requires Tidy(c)
    ensures Tidy(RollDay(c, day, r))
  {
    var entries := if r.entries then c.ledger.entries else [];
    ReadTidy(entries, c.ledger.merges, c.ledger.exits, day, r.lost);
    ByIdTidy(ReadBack(c.ledger, day, r));
    hide ById, ReadFrom, NoRepeats, DistinctIds, CountDay;
  }

  lemma NextTidy(c: Core, step: Step)
    requires Tidy(c)
    ensures Tidy(Next(c, step))
  {
    hide Tidy, OnSignal, CloseOne, RollDay, SweepIds;
    match step
    case Fire(s, e) => if c.day.Some? { SignalTidy(c, s, e); }
    case Force(id) => CloseTidy(c, id);
    case Reval(closes) => SweepTidy(c, OpenIds(c.positions), closes);
    case Roll(day, r) => RollTidy(c, day, r);
    case Crash => RestartTidy(c);
  }

  lemma RestartTidy(c: Core)
    requires Tidy(c)
    ensures Tidy(Restart(c))
  {
    hide NoRepeats;
  }

  /** In every run, whatever its reads, surroundings and crashes: one position for each id, and no
      position or entry names a lane twice. */
  lemma {:induction false} RunTidy(c: Core, steps: seq<Step>)
    requires Tidy(c)
    ensures Tidy(RunSteps(c, steps))
    decreases |steps|
  {
    hide Tidy, Next;
    if steps == [] {
    } else {
      RunTidy(c, steps[..|steps| - 1]);
      NextTidy(RunSteps(c, steps[..|steps| - 1]), steps[|steps| - 1]);
    }
  }

  // ---------------------------------------------------------------- what a locked entries file does

  const LOCKED: Reads := Reads(true, false, {}, false)
  const SIGNAL: Signal := Signal("index_trend", "SPY", Call, 660)

  function At(minute: int): Env { Env(minute, false, 960, false, 5, true, Some(Contract("SPY C 500", 3))) }

  function IdAt(minute: int): PositionId { PositionId("SPY C 500", 1, minute, 0) }

  function EntryAt(minute: int): Entry { Entry(IdAt(minute), 1, "SPY", Call, 3, ["index_trend"]) }

  function PositionAt(minute: int): Position { Position(IdAt(minute), "SPY", Call, 3, ["index_trend"]) }

  function EnteredAt(minute: int, entries: seq<Entry>): Core {
    Core(Some(1), [PositionAt(minute)], 1, Ledger(entries + [EntryAt(minute)], [], []))
  }

  /** An entry, a crash, a roll with the entries file locked, the same signal again, and a roll to the
      next day with every file readable. */
  function LockedRun(minute: int): seq<Step> {
    [Roll(1, ALL_READ), Fire(SIGNAL, At(600)), Crash, Roll(1, LOCKED), Fire(SIGNAL, At(minute)), Roll(2, ALL_READ)]
  }

  lemma EntersAt(entries: seq<Entry>, minute: int)
    requires 600 <= minute <= 660
    ensures var c := Core(Some(1), [], 0, Ledger(entries, [], []));
      Next(c, Fire(SIGNAL, At(minute))) == EnteredAt(minute, entries)
  {
    assert FindOpen([], "SPY", Call) == 0;
    assert Place([], PositionAt(minute)) == [PositionAt(minute)];
  }

  lemma FirstEntry(minute: int)
    ensures RunSteps(EMPTY, LockedRun(minute)[..1]) == Core(Some(1), [], 0, Ledger([], [], []))
    ensures RunSteps(EMPTY, LockedRun(minute)[..2]) == EnteredAt(600, [])
  {
    assert LockedRun(minute)[..0] == [];
    RunPrefix(EMPTY, LockedRun(minute), 0);
    RunPrefix(EMPTY, LockedRun(minute), 1);
    EntersAt([], 600);
    hide RunSteps, OnSignal;
    assert RollDay(EMPTY, 1, ALL_READ) == Core(Some(1), [], 0, Ledger([], [], []));
  }

  lemma SecondEntry(minute: int)
    requires 600 <= minute <= 660
    ensures RunSteps(EMPTY, LockedRun(minute)[..3]) == Restart(EnteredAt(600, []))
    ensures RunSteps(EMPTY, LockedRun(minute)[..4]) == Core(Some(1), [], 0, EnteredAt(600, []).ledger)
    ensures RunSteps(EMPTY, LockedRun(minute)[..5]) == EnteredAt(minute, [EntryAt(600)])
  {
    FirstEntry(minute);
    RunPrefix(EMPTY, LockedRun(minute), 2);
    RunPrefix(EMPTY, LockedRun(minute), 3);
    RunPrefix(EMPTY, LockedRun(minute), 4);
    EntersAt([EntryAt(600)], minute);
    assert [] + [EntryAt(600)] == [EntryAt(600)];
    hide RunSteps, OnSignal;
    assert RollDay(Restart(EnteredAt(600, [])), 1, LOCKED) == Core(Some(1), [], 0, EnteredAt(600, []).ledger);
  }

  lemma BothRebuilt(minute: int, today: int)
    requires 1 <= today <= 3
    ensures Rebuild(Ledger([EntryAt(600), EntryAt(minute)], [], []), today) == [PositionAt(600), PositionAt(minute)]
    ensures !Exclusive([PositionAt(600), PositionAt(minute)])
  {
    var one, two := [EntryAt(600)], [EntryAt(600), EntryAt(minute)];
    assert two[..1] == one && one[..0] == [];
    RebuiltStep(one, [], [], today);
    RebuiltStep(two, [], [], today);
    assert SameExposure([PositionAt(600), PositionAt(minute)][0], [PositionAt(600), PositionAt(minute)][1]);
  }

  lemma OneById(p: Position)
    ensures ById([p]) == [p] && IsOpen([p], p.id)
  {
    assert [p][..0] == [] && [p][0].id == p.id;
  }

  lemma TwoById(p: Position, q: Position)
    ensures ById([p, q]) == if p.id == q.id then [q] else [p, q]
  {
    OneById(p);
    ByIdAppend([p], q);
    assert [p] + [q] == [p, q];
    hide ById;
    assert [p][..0] == [] && Replace([], q) == [];
    assert IsOpen([p], q.id) <==> p.id == q.id by { if p.id == q.id { assert [p][0].id == q.id; } }
    assert p.id == q.id ==> Replace([p], q) == [] + [q];
  }

  lemma BothTracked(minute: int)
    requires 600 <= minute <= 660
    ensures RunSteps(EMPTY, LockedRun(minute)).positions
         == if minute == 600 then [PositionAt(600)] else [PositionAt(600), PositionAt(minute)]
  {
    SecondEntry(minute);
    RunPrefix(EMPTY, LockedRun(minute), 5);
    assert LockedRun(minute)[..6] == LockedRun(minute);
    hide RunSteps, Exclusive, RebuildFrom, ReadBack, ReadsSuffice, ById, CountDay;
    var l := Ledger([EntryAt(600), EntryAt(minute)], [], []);
    assert [EntryAt(600)] + [EntryAt(minute)] == l.entries;
    AllReadSuffices(l, 2);
    BothRebuilt(minute, 2);
    TwoById(PositionAt(600), PositionAt(minute));
  }

  lemma LockedRunReasonable(minute: int)
    ensures ReasonableRun(EMPTY, 1, LockedRun(minute), 5)
  {
    hide RunSteps, FloorAfter;
    var steps := LockedRun(minute);
    assert forall j :: 0 <= j < 5 && steps[j].Roll? ==> steps[j].day == 1;
    forall i | 0 <= i < |steps|
      ensures Reasonable(RunSteps(EMPTY, steps[..i]), FloorAfter(1, steps[..i]), steps[i], 5) {
      assert forall j :: 0 <= j < i ==> steps[..i][j] == steps[j];
      FloorStays(steps[..i]);
    }
  }

  lemma {:induction false} FloorStays(steps: seq<Step>)
    requires forall i :: 0 <= i < |steps| && steps[i].Roll? ==> steps[i].day == 1
    ensures FloorAfter(1, steps) == 1
    decreases |steps|
  {
    if steps == [] {
    } else {
      FloorStays(steps[..|steps| - 1]);
    }
  }

  /** A run in reasonable surroundings that breaks the promises: the roll after the crash finds the
      entries file locked, so the open position is held by the ledger but not tracked, and the same
      signal enters it again.  In the same minute both entries get one id.  In a later one they get
      two, and the next roll, with every file readable, tracks one exposure twice. */
  lemma LockedEntriesBreakBook(minute: int)
    requires 600 <= minute <= 660
    ensures ReasonableRun(EMPTY, 1, LockedRun(minute), 5) && !HarmlessRun(EMPTY, LockedRun(minute))
    ensures var c := RunSteps(EMPTY, LockedRun(minute)[..4]);
      Held(c.ledger.entries, c.ledger.exits, 1, IdAt(600)) && !IsOpen(c.positions, IdAt(600))
    ensures var l := RunSteps(EMPTY, LockedRun(minute)[..5]).ledger;
      |l.entries| == 2 && !Exclusive(Rebuild(l, 1)) && (l.entries[0].id == l.entries[1].id <==> minute == 600)
    ensures var ps := RunSteps(EMPTY, LockedRun(minute)).positions;
      if minute == 600 then ps == [PositionAt(600)] else |ps| == 2 && !Exclusive(ps)
  {
    hide RunSteps, RebuildFrom, Exclusive, FloorAfter, Reasonable;
    LockedRunReasonable(minute);
    SecondEntry(minute);
    BothRebuilt(minute, 1);
    BothTracked(minute);
    assert [] + [EntryAt(600)] == [EntryAt(600)] && [EntryAt(600)] + [EntryAt(minute)] == [EntryAt(600), EntryAt(minute)];
    assert [EntryAt(600)][0].id == IdAt(600);
    assert [EntryAt(600)][..0] == [] && CountDay([EntryAt(600)], 1) == 1;
    assert !Harmless(RunSteps(EMPTY, LockedRun(minute)[..3]), LockedRun(minute)[3]);
  }

  /** The ledger is only ever appended to. */
  lemma {:induction false} LedgerGrows(c: Core, steps: seq<Step>)
    ensures var l, m := c.ledger, RunSteps(c, steps).ledger;
      l.entries <= m.entries && l.merges <= m.merges && l.exits <= m.exits
    decreases |steps|
  {
    hide Next;
    if steps == [] {
    } else {
      LedgerGrows(c, steps[..|steps| - 1]);
      NextGrows(RunSteps(c, steps[..|steps| - 1]), steps[|steps| - 1]);
    }
  }

  lemma {:induction false} SweepGrows(c: Core, ids: seq<PositionId>, closes: set<PositionId>)
    ensures var l, m := c.ledger, SweepIds(c, ids, closes).ledger;
      l.entries <= m.entries && l.merges <= m.merges && l.exits <= m.exits
    decreases |ids|
  {
    if ids == [] {
    } else {
      SweepGrows(c, ids[..|ids| - 1], closes);
    }
  }

  lemma NextGrows(c: Core, step: Step)
    ensures var l, m := c.ledger, Next(c, step).ledger;
      l.entries <= m.entries && l.merges <= m.merges && l.exits <= m.exits
  {
    if step.Reval? { SweepGrows(c, OpenIds(c.positions), step.closes); }
  }
}
