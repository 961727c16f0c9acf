/** `OptionsShadowCore`: the book as the object the runner drives. */
module OptionsShadow {
  import opened Optional
  import opened LedgerRules

  class OptionsShadowCore {
    var day: Option<int>
    var positions: seq<Position>
    var entriesToday: nat
    var ledger: Ledger

    function View(): Core
      reads this
    {
      Core(day, positions, entriesToday, ledger)
    }

    constructor (l: Ledger)
      ensures View() == Core(None, [], 0, l)
    {
      day, positions, entriesToday, ledger := None, [], 0, l;
    }

    /** Load the still open positions of a new day; unreadable exits leave everything as it is, any
        other failing read is taken for an empty file. */
    method RollDay(today: int, r: Reads)
      modifies this
      ensures View() == LedgerRules.RollDay(old(View()), today, r)
    {
      if day == Some(today) {
        return;
      }
      if !r.exits {
        return;
      }
      var open := OpenPositions(r);
      positions := Unexpired(open, today);
      AliveIsRead(if r.entries then ledger.entries else [], ledger.merges, ledger.exits, today, r.lost);
      entriesToday := if r.count then CountDay(ledger.entries, today) else 0;
      day := Some(today);
    }

    /** Track what has not expired, by id. */
    method Unexpired(open: seq<Position>, today: int) returns (kept: seq<Position>)
      ensures kept == ById(Alive(open, today))
    {
      kept := [];
      for i := 0 to |open|
        invariant kept == ById(Alive(open[..i], today))
      {
        hide ById, Place;
        assert open[..i + 1] == open[..i] + [open[i]];
        AliveAppend(open[..i], open[i], today);
        if open[i].expiry >= today {
          ByIdAppend(Alive(open[..i], today), open[i]);
          kept := Place(kept, open[i]);
        }
      }
      assert open[..|open|] == open;
    }

    /** All entries read without an exit, with the lanes merged into them. */
    method OpenPositions(r: Reads) returns (out: seq<Position>)
      ensures out == AllOpen(if r.entries then ledger.entries else [], ledger.merges, ledger.exits, r.lost)
    {
      var rows := if r.entries then ledger.entries else [];
      out := [];
      for i := 0 to |rows|
        invariant out == AllOpen(rows[..i], ledger.merges, ledger.exits, r.lost)
      {
        hide Reopen;
        var e := rows[i];
        assert rows[..i + 1][..i] == rows[..i];
        if e.id !in ledger.exits {
          var merges := if i in r.lost then [] else ledger.merges;
          var lanes := MergedLanes(e, merges);
          assert Reopen(e, merges) == Position(e.id, e.underlying, e.direction, e.expiry, lanes) by { ReopenIs(e, merges); }
          out := out + [Position(e.id, e.underlying, e.direction, e.expiry, lanes)];
        }
      }
      assert rows[..|rows|] == rows;
    }

    method MergedLanes(e: Entry, merges: seq<Merge>) returns (lanes: seq<string>)
      ensures lanes == AddMerges(e.lanes, merges, e.id)
    {
      lanes := e.lanes;
      for j := 0 to |merges|
        invariant lanes == AddMerges(e.lanes, merges[..j], e.id)
      {
        var m := merges[j];
        assert merges[..j + 1][..j] == merges[..j];
        if m.id == e.id {
          if m.lane != "" && m.lane !in lanes {
            lanes := lanes + [m.lane];
          }
        }
      }
      assert merges[..|merges|] == merges;
    }

    /** Admit a signal: merge it into an exposure already held, refuse it, or enter. */
    method OnSignal(s: Signal, e: Env) returns (what: Outcome)
      requires day.Some?
      modifies this
      ensures View() == LedgerRules.OnSignal(old(View()), s, e)
      ensures what == Judge(old(View()), s, e)
    {
      if e.minute > s.expiresMinute {
        return SignalExpired;
      }
      if !(OPEN_MIN <= e.minute < e.closeMin) || e.weekend {
        return AfterHours;
      }
      if e.blackout {
        return Blackout;
      }
      for k := 0 to |positions|
        invariant View() == old(View())
        invariant forall i :: 0 <= i < k ==>
          !(positions[i].underlying == s.underlying && positions[i].direction == s.direction)
      {
        var pos := positions[k];
        if pos.underlying == s.underlying && pos.direction == s.direction {
          if s.lane !in pos.lanes {
            positions := positions[k := pos.(lanes := pos.lanes + [s.lane])];
            ledger := ledger.(merges := ledger.merges + [Merge(pos.id, s.lane)]);
            return Merged;
          } else {
            return DuplicateLane;
          }
        }
      }
      if |positions| >= e.maxConcurrent {
        return Concurrency;
      }
      if !e.client {
        return NoClient;
      }
      if e.pick.None? {
        return NoPick;
      }
      Enter(s, e.minute, e.pick.value);
      return Entered;
    }

    method Enter(s: Signal, minute: int, pick: Contract)
      requires day.Some?
      modifies this
      ensures View() == LedgerRules.Enter(old(View()), s, minute, pick)
    {
      var id := PositionId(pick.occ, day.value, minute, entriesToday);
      ledger := ledger.(entries := ledger.entries
                          + [Entry(id, day.value, s.underlying, s.direction, pick.expiry, [s.lane])]);
      positions := Place(positions, Position(id, s.underlying, s.direction, pick.expiry, [s.lane]));
      entriesToday := entriesToday + 1;
    }

    /** Close one position, writing its exit row. */
    method ForceExit(id: PositionId)
      modifies this
      ensures View() == CloseOne(old(View()), id)
    {
      if !IsOpen(positions, id) {
        return;
      }
      ledger := ledger.(exits := ledger.exits + [id]);
      positions := Without(positions, id);
    }

    /** One sweep over the open positions; `closes` holds the exits decided in it. */
    method RevalPositions(closes: set<PositionId>)
      modifies this
      ensures View() == Sweep(old(View()), closes)
    {
      var ids := OpenIds(positions);
      for i := 0 to |ids|
        invariant View() == SweepIds(old(View()), ids[..i], closes)
      {
        hide CloseOne;
        assert ids[..i + 1][..i] == ids[..i];
        if ids[i] in closes {
          ForceExit(ids[i]);
        }
      }
      assert ids[..|ids|] == ids;
    }
  }

  // ---------------------------------------------------------------- the rebuild in two passes

  function AllOpen(entries: seq<Entry>, merges: seq<Merge>, exits: seq<PositionId>, lost: set<nat>): seq<Position> {
    if entries == [] then []
    else
      var n := |entries| - 1;
      AllOpen(entries[..n], merges, exits, lost)
        + (if entries[n].id in exits then [] else [Reopen(entries[n], if n in lost then [] else merges)])
  }

  lemma ReopenIs(e: Entry, merges: seq<Merge>)
    ensures Reopen(e, merges) == Position(e.id, e.underlying, e.direction, e.expiry, AddMerges(e.lanes, merges, e.id))
  {
  }

  lemma {:induction false} AliveIsRead(entries: seq<Entry>, merges: seq<Merge>, exits: seq<PositionId>, today: int, lost: set<nat>)
    ensures Alive(AllOpen(entries, merges, exits, lost), today) == ReadFrom(entries, merges, exits, today, lost)
  {
    if entries == [] {
    } else {
      var n := |entries| - 1;
      AliveIsRead(entries[..n], merges, exits, today, lost);
      hide Alive, Reopen;
      var open := AllOpen(entries[..n], merges, exits, lost);
      var ms := if n in lost then [] else merges;
      if entries[n].id in exits {
        assert AllOpen(entries, merges, exits, lost) == open;
      } else {
        AliveAppend(open, Reopen(entries[n], ms), today);
        ReopenExpiry(entries[n], ms);
      }
    }
  }
}
