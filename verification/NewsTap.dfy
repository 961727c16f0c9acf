/**
 The live news tap: a poller with a cursor, a bounded first-in-first-out memory of
 fingerprints against repeats, and an append-only output.
 */
module NewsTap {
  import opened Optional

  const MAX_SEEN: nat := 5000

  /** `ts` is the parsed timestamp, None when it does not parse. */
  datatype Item = Item(fingerprint: int, ts: Option<real>)

  // ---------------------------------------------------------------- specification

  /** Forget from the front down to the memory bound. */
  function Trim(order: seq<int>): (r: seq<int>)
    ensures |r| <= MAX_SEEN && |r| <= |order| && r == order[|order| - |r|..]
    ensures |order| <= MAX_SEEN ==> r == order
  {
    if |order| > MAX_SEEN then Trim(order[1..]) else order
  }

  function Remember(order: seq<int>, fp: int): seq<int> {
    if fp in order then order else Trim(order + [fp])
  }

  function RememberAll(order: seq<int>, items: seq<Item>): seq<int>
    decreases |items|
  {
    if items == [] then order
    else Remember(RememberAll(order, items[..|items| - 1]), items[|items| - 1].fingerprint)
  }

  function Fresh(items: seq<Item>, order: seq<int>): seq<Item>
    decreases |items|
  {
    if items == [] then []
    else Fresh(items[..|items| - 1], order)
         + (if items[|items| - 1].fingerprint in order then [] else [items[|items| - 1]])
  }

  function Latest(cursor: real, items: seq<Item>): real
    decreases |items|
  {
    if items == [] then cursor
    else
      var before, ts := Latest(cursor, items[..|items| - 1]), items[|items| - 1].ts;
      if ts.Some? && ts.value > before then ts.value else before
  }

  datatype Tap = Tap(cursor: real, order: seq<int>, output: seq<Item>)

  function Poll(t: Tap, items: seq<Item>): Tap {
    var unseen := Fresh(items, t.order);
    Tap(Latest(t.cursor, unseen), RememberAll(t.order, unseen), t.output + unseen)
  }

  predicate Distinct<T(==)>(s: seq<T>) { forall i, j :: 0 <= i < j < |s| ==> s[i] != s[j] }

  function Elements(s: seq<int>): set<int> { set x | x in s }

  class NewsTap {
    var cursor: real
    var seen: set<int>
    var seenOrder: seq<int>
    var output: seq<Item>
    var polls: nat
    var appendedTotal: nat

    /** The set and the queue hold the same fingerprints, each once, within the bound. */
    ghost predicate Valid()
      reads this
    {
      seen == Elements(seenOrder) && Distinct(seenOrder) && |seenOrder| <= MAX_SEEN
    }

    function View(): Tap
      reads this
    {
      Tap(cursor, seenOrder, output)
    }

    constructor (now: real, since: real)
      ensures Valid() && View() == Tap(now - (if since > 0.0 then since else 0.0), [], [])
    {
      cursor := now - (if since > 0.0 then since else 0.0);
      seen, seenOrder, output, polls, appendedTotal := {}, [], [], 0, 0;
    }

    method RememberOne(fp: int)
      requires Valid()
      modifies this`seen, this`seenOrder
      ensures Valid() && seenOrder == Remember(old(seenOrder), fp)
    {
      hide Trim;
      if fp in seen {
        return;
      }
      ghost var all := seenOrder + [fp];
      seen := seen + {fp};
      seenOrder := seenOrder + [fp];
      while |seenOrder| > MAX_SEEN
        invariant seen == Elements(seenOrder) && Distinct(seenOrder)
        invariant Trim(seenOrder) == Trim(all)
        decreases |seenOrder|
      {
        TrimHead(seenOrder);
        DropHead(seenOrder);
        seen := seen - {seenOrder[0]};
        seenOrder := seenOrder[1..];
      }
    }

    /** The items of an answer not remembered yet. */
    method Unseen(items: seq<Item>) returns (unseen: seq<Item>)
      requires Valid()
      ensures unseen == Fresh(items, seenOrder)
    {
      unseen := [];
      for i := 0 to |items|
        invariant unseen == Fresh(items[..i], seenOrder)
      {
        assert items[..i + 1][..i] == items[..i];
        if items[i].fingerprint !in seen {
          unseen := unseen + [items[i]];
        }
      }
      assert items[..|items|] == items;
    }

    /** Remember the new items and find the latest time stamp among them. */
    method Absorb(unseen: seq<Item>) returns (latest: real)
      requires Valid()
      modifies this`seen, this`seenOrder
      ensures Valid() && seenOrder == RememberAll(old(seenOrder), unseen)
      ensures latest == Latest(cursor, unseen)
    {
      hide Remember;
      latest := cursor;
      for i := 0 to |unseen|
        invariant Valid() && seenOrder == RememberAll(old(seenOrder), unseen[..i])
        invariant latest == Latest(cursor, unseen[..i])
      {
        assert unseen[..i + 1][..i] == unseen[..i];
        RememberOne(unseen[i].fingerprint);
        var ts := unseen[i].ts;
        if ts.Some? && ts.value > latest {
          latest := ts.value;
        }
      }
      assert unseen[..|unseen|] == unseen;
    }

    /** One poll over what the fetch returned; nothing came back on a failure. */
    method PollOnce(items: seq<Item>) returns (n: nat)
      requires Valid()
      modifies this
      ensures Valid() && View() == Poll(old(View()), items)
      ensures n == |Fresh(items, old(seenOrder))| && output == old(output) + Fresh(items, old(seenOrder))
      ensures polls == old(polls) + 1 && appendedTotal == old(appendedTotal) + n
    {
      hide Fresh, RememberAll, Latest;
      var unseen := Unseen(items);
      output := output + unseen;
      n := |unseen|;
      var latest := Absorb(unseen);
      cursor := latest;
      polls := polls + 1;
      appendedTotal := appendedTotal + n;
    }
  }

  lemma TrimHead(order: seq<int>)
    requires |order| > MAX_SEEN
    ensures Trim(order) == Trim(order[1..])
  {
  }

  lemma DropHead(s: seq<int>)
    requires s != [] && Distinct(s)
    ensures Distinct(s[1..]) && Elements(s[1..]) == Elements(s) - {s[0]}
  {
    assert s == [s[0]] + s[1..];
    assert s[0] !in s[1..];
  }
}
