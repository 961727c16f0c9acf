/**
 The tap polling a fixed archive: the feed answers with the oldest items of the queried
 window, at most `limit` of them, or with nothing when it fails.
 */
module NewsArchive {
  import opened Optional
  import opened NewsTap

  /** Dated, oldest first, no fingerprint twice. */
  ghost predicate IsArchive(a: seq<Item>) {
    && (forall i :: 0 <= i < |a| ==> a[i].ts.Some?)
    && (forall i, j :: 0 <= i <= j < |a| ==> a[i].ts.value <= a[j].ts.value)
    && (forall i, j :: 0 <= i < j < |a| ==> a[i].fingerprint != a[j].fingerprint)
  }

  /** How many items are dated before `t`. */
  function Before(a: seq<Item>, t: real): (k: nat)
    requires forall i :: 0 <= i < |a| ==> a[i].ts.Some?
    ensures k <= |a|
    ensures forall i :: 0 <= i < k ==> a[i].ts.value < t
    ensures k < |a| ==> a[k].ts.value >= t
  {
    if a == [] || a[0].ts.value >= t then 0 else 1 + Before(a[1..], t)
  }

  /** How many items are dated at `t` or before. */
  function UpTo(a: seq<Item>, t: real): (k: nat)
    requires forall i :: 0 <= i < |a| ==> a[i].ts.Some?
    ensures k <= |a|
    ensures forall i :: 0 <= i < k ==> a[i].ts.value <= t
    ensures k < |a| ==> a[k].ts.value > t
  {
    if a == [] || a[0].ts.value > t then 0 else 1 + UpTo(a[1..], t)
  }

  datatype Config = Config(archive: seq<Item>, overlap: real, limit: nat)

  ghost predicate ValidConfig(c: Config) { IsArchive(c.archive) && c.overlap >= 0.0 }

  /** Where the answer to a poll ends in the archive. */
  function FetchEnd(c: Config, cursor: real, now: real): nat
    requires forall i :: 0 <= i < |c.archive| ==> c.archive[i].ts.Some?
  {
    var lo, hi := Before(c.archive, cursor - c.overlap), UpTo(c.archive, now);
    if hi <= lo then lo else if lo + c.limit < hi then lo + c.limit else hi
  }

  function Fetch(c: Config, cursor: real, now: real): seq<Item>
    requires forall i :: 0 <= i < |c.archive| ==> c.archive[i].ts.Some?
  {
    c.archive[Before(c.archive, cursor - c.overlap)..FetchEnd(c, cursor, now)]
  }

  datatype Event = Event(now: real, ok: bool)

  function Step(t: Tap, e: Event, c: Config): Tap
    requires forall i :: 0 <= i < |c.archive| ==> c.archive[i].ts.Some?
  {
    Poll(t, if e.ok then Fetch(c, t.cursor, e.now) else [])
  }

  function Run(t: Tap, events: seq<Event>, c: Config): Tap
    requires forall i :: 0 <= i < |c.archive| ==> c.archive[i].ts.Some?
    decreases |events|
  {
    if events == [] then t else Step(Run(t, events[..|events| - 1], c), events[|events| - 1], c)
  }

  // ---------------------------------------------------------------- one poll

  lemma {:induction false} FreshMeans(items: seq<Item>, order: seq<int>)
    ensures forall x :: x in Fresh(items, order) <==> x in items && x.fingerprint !in order
    decreases |items|
  {
    if items == [] {
    } else {
      FreshMeans(items[..|items| - 1], order);
      assert items == items[..|items| - 1] + [items[|items| - 1]];
    }
  }

  lemma {:induction false} LatestMeans(cursor: real, items: seq<Item>)
    ensures Latest(cursor, items) >= cursor
    ensures forall x :: x in items && x.ts.Some? ==> x.ts.value <= Latest(cursor, items)
    ensures Latest(cursor, items) == cursor
            || exists x :: x in items && x.ts == Some(Latest(cursor, items)) && x.ts.value > cursor
    decreases |items|
  {
    if items == [] {
    } else {
      LatestMeans(cursor, items[..|items| - 1]);
      assert items == items[..|items| - 1] + [items[|items| - 1]];
    }
  }

  lemma RememberOneMeans(order: seq<int>, fp: int)
    requires Distinct(order) && |order| <= MAX_SEEN
    ensures var r := Remember(order, fp);
            Distinct(r) && |r| <= MAX_SEEN && forall x :: x in r ==> x in order || x == fp
  {
    hide Trim;
    if fp !in order {
      var all := order + [fp];
      assert Distinct(all);
      DropDistinct(all, |all| - |Trim(all)|);
    }
  }

  lemma DropDistinct(s: seq<int>, k: nat)
    requires Distinct(s) && k <= |s|
    ensures Distinct(s[k..]) && forall x :: x in s[k..] ==> x in s
  {
  }

  predicate Names(items: seq<Item>, fp: int) { exists i :: 0 <= i < |items| && items[i].fingerprint == fp }

  lemma NamesMore(items: seq<Item>, x: Item, fp: int)
    ensures Names(items + [x], fp) <==> Names(items, fp) || x.fingerprint == fp
  {
    var all := items + [x];
    assert all[|items|] == x && forall i :: 0 <= i < |items| ==> all[i] == items[i];
    if Names(items, fp) {
      var i :| 0 <= i < |items| && items[i].fingerprint == fp;
      assert all[i].fingerprint == fp;
    }
  }

  /** Only fingerprints of the remembered items are added, each once, within the bound. */
  lemma {:induction false} RememberMeans(order: seq<int>, items: seq<Item>)
    requires Distinct(order) && |order| <= MAX_SEEN
    ensures Distinct(RememberAll(order, items)) && |RememberAll(order, items)| <= MAX_SEEN
    ensures forall fp :: fp in RememberAll(order, items) ==> fp in order || Names(items, fp)
    decreases |items|
  {
    hide Remember, Distinct, Names;
    if items == [] {
    } else {
      var before, x := items[..|items| - 1], items[|items| - 1];
      RememberMeans(order, before);
      RememberOneMeans(RememberAll(order, before), x.fingerprint);
      assert items == before + [x];
      forall fp | fp in RememberAll(order, items) ensures fp in order || Names(items, fp) {
        NamesMore(before, x, fp);
      }
    }
  }

  // ---------------------------------------------------------------- invariant

  /** Everything in the output is from the archive and not dated past the cursor. */
  ghost predicate Sourced(t: Tap, c: Config)
    requires ValidConfig(c)
  {
    forall x :: x in t.output ==> x in c.archive && x.ts.value <= t.cursor
  }

  /** The memory holds fingerprints of output items, each once, within its bound. */
  ghost predicate Remembers(t: Tap) {
    && Distinct(t.order) && |t.order| <= MAX_SEEN
    && forall fp :: fp in t.order ==> exists x :: x in t.output && x.fingerprint == fp
  }

  /** Nothing dated from the starting cursor up to the present one, the latter excluded, is
      missing from the output. */
  ghost predicate NoGap(t: Tap, start: real, c: Config)
    requires ValidConfig(c)
  {
    && start <= t.cursor
    && forall i :: 0 <= i < |c.archive| && start <= c.archive[i].ts.value < t.cursor ==> c.archive[i] in t.output
  }

  ghost predicate Complete(t: Tap, start: real, c: Config)
    requires ValidConfig(c)
  {
    Sourced(t, c) && Remembers(t) && NoGap(t, start, c)
  }

  lemma SeenInOutput(t: Tap, c: Config, x: Item)
    requires ValidConfig(c) && Sourced(t, c) && Remembers(t) && x in c.archive && x.fingerprint in t.order
    ensures x in t.output && x.ts.value <= t.cursor
  {
    var y :| y in t.output && y.fingerprint == x.fingerprint;
    assert x == y;
  }

  lemma FetchedWindow(c: Config, cursor: real, now: real)
    requires ValidConfig(c)
    ensures Before(c.archive, cursor - c.overlap) <= FetchEnd(c, cursor, now) <= |c.archive|
    ensures forall x :: x in Fetch(c, cursor, now) ==> x in c.archive
  {
  }

  lemma FetchedIff(c: Config, cursor: real, now: real, i: nat)
    requires ValidConfig(c) && i < |c.archive|
    ensures c.archive[i] in Fetch(c, cursor, now)
        <==> Before(c.archive, cursor - c.overlap) <= i < FetchEnd(c, cursor, now)
  {
    hide Before, FetchEnd;
    var a, lo, end := c.archive, Before(c.archive, cursor - c.overlap), FetchEnd(c, cursor, now);
    FetchedWindow(c, cursor, now);
    if lo <= i < end {
      assert a[lo..end][i - lo] == a[i];
    }
  }

  lemma PollRemembers(t: Tap, items: seq<Item>, c: Config)
    requires ValidConfig(c) && Remembers(t)
    ensures Remembers(Poll(t, items))
  {
    var unseen := Fresh(items, t.order);
    var r := Poll(t, items);
    RememberMeans(t.order, unseen);
    hide RememberAll, Fresh, Latest;
    forall fp | fp in r.order ensures exists x :: x in r.output && x.fingerprint == fp {
      if fp in t.order {
        var x :| x in t.output && x.fingerprint == fp;
        assert x in r.output;
      } else {
        assert Names(unseen, fp);
        var i :| 0 <= i < |unseen| && unseen[i].fingerprint == fp;
        assert unseen[i] in r.output;
      }
    }
  }

  lemma PollSourced(t: Tap, items: seq<Item>, c: Config)
    requires ValidConfig(c) && Sourced(t, c) && forall x :: x in items ==> x in c.archive
    ensures Sourced(Poll(t, items), c) && Poll(t, items).cursor >= t.cursor
  {
    FreshMeans(items, t.order);
    LatestMeans(t.cursor, Fresh(items, t.order));
    hide Latest, Fresh, RememberAll;
  }

  /** An archive item dated between the old cursor and an item that is new in the answer was
      in the answer too: the answer is oldest first. */
  lemma NoGapAt(t: Tap, now: real, c: Config, i: nat, y: Item)
    requires ValidConfig(c) && Sourced(t, c) && Remembers(t) && i < |c.archive|
    requires var items := Fetch(c, t.cursor, now);
             y in Fresh(items, t.order) && y.ts.Some? && t.cursor <= c.archive[i].ts.value < y.ts.value
    ensures c.archive[i] in t.output || c.archive[i] in Fresh(Fetch(c, t.cursor, now), t.order)
  {
    var a, items := c.archive, Fetch(c, t.cursor, now);
    hide Fetch, FetchEnd, Fresh, Before;
    FreshMeans(items, t.order);
    FetchedWindow(c, t.cursor, now);
    var j :| 0 <= j < |a| && a[j] == y;
    FetchedIff(c, t.cursor, now, i);
    FetchedIff(c, t.cursor, now, j);
    AboveOverlap(c, t.cursor, i);
    EarlierFirst(c, i, j);
    if a[i].fingerprint in t.order {
      SeenInOutput(t, c, a[i]);
    }
  }

  lemma PollNoGap(t: Tap, start: real, now: real, c: Config)
    requires ValidConfig(c) && Complete(t, start, c)
    ensures NoGap(Poll(t, Fetch(c, t.cursor, now)), start, c)
  {
    var a, items := c.archive, Fetch(c, t.cursor, now);
    var unseen := Fresh(items, t.order);
    LatestMeans(t.cursor, unseen);
    hide Latest, Fresh, RememberAll, Fetch, Sourced, Remembers, IsArchive;
    var r := Poll(t, items);
    forall i | 0 <= i < |a| && start <= a[i].ts.value < r.cursor ensures a[i] in r.output {
      if a[i].ts.value >= t.cursor {
        var y :| y in unseen && y.ts == Some(r.cursor);
        NoGapAt(t, now, c, i, y);
      }
    }
  }

  lemma AboveOverlap(c: Config, cursor: real, i: nat)
    requires ValidConfig(c) && i < |c.archive| && c.archive[i].ts.value >= cursor
    ensures Before(c.archive, cursor - c.overlap) <= i
  {
  }

  lemma EarlierFirst(c: Config, i: nat, j: nat)
    requires ValidConfig(c) && i < |c.archive| && j < |c.archive|
    requires c.archive[i].ts.value < c.archive[j].ts.value
    ensures i < j
  {
  }

  lemma PollComplete(t: Tap, start: real, now: real, c: Config)
    requires ValidConfig(c) && Complete(t, start, c)
    ensures Complete(Poll(t, Fetch(c, t.cursor, now)), start, c)
    ensures Poll(t, Fetch(c, t.cursor, now)).cursor >= t.cursor
  {
    hide Fetch, Poll, Sourced, Remembers, NoGap;
    FetchedWindow(c, t.cursor, now);
    PollSourced(t, Fetch(c, t.cursor, now), c);
    PollRemembers(t, Fetch(c, t.cursor, now), c);
    PollNoGap(t, start, now, c);
  }

  // ---------------------------------------------------------------- whole runs

  lemma FailedPoll(t: Tap)
    ensures Poll(t, []) == t
  {
    assert t.output + [] == t.output;
  }

  /** No lost news.  After any run of polls, failed ones included, at any clock readings:
      every archive item dated from the starting cursor up to the present one (exclusive)
      has been appended, only archive items have, the cursor has not moved back, and the
      memory is duplicate-free and bounded. */
  lemma {:induction false} NoLostNews(start: real, events: seq<Event>, c: Config)
    requires ValidConfig(c)
    ensures Complete(Run(Tap(start, [], []), events, c), start, c)
    ensures events != [] ==> Run(Tap(start, [], []), events[..|events| - 1], c).cursor
                             <= Run(Tap(start, [], []), events, c).cursor
    decreases |events|
  {
    if events == [] {
    } else {
      var n := |events| - 1;
      NoLostNews(start, events[..n], c);
      var t := Run(Tap(start, [], []), events[..n], c);
      hide Complete, Poll, Fetch;
      FailedPoll(t);
      PollComplete(t, start, events[n].now, c);
    }
  }

  // ---------------------------------------------------------------- what the output is

  function Fingerprints(items: seq<Item>): (r: seq<int>)
    ensures |r| == |items| && forall i :: 0 <= i < |r| ==> r[i] == items[i].fingerprint
  {
    seq(|items|, i requires 0 <= i < |items| => items[i].fingerprint)
  }

  /** The output is one stretch of the archive, from where the first query starts up to `end`; the
      memory holds the last of it; and the next query starts within it, at most `limit` before its end. */
  ghost predicate Stretch(t: Tap, start: real, c: Config, end: nat)
    requires ValidConfig(c)
  {
    var first, lo := Before(c.archive, start - c.overlap), Before(c.archive, t.cursor - c.overlap);
    && first <= lo <= end <= |c.archive| && end <= lo + c.limit
    && t.output == c.archive[first..end]
    && t.order == Fingerprints(c.archive[RecallFrom(first, end)..end])
  }

  /** Where the remembered part of an output stretch starts. */
  function RecallFrom(first: nat, end: nat): (k: nat)
    requires first <= end
    ensures first <= k <= end
  {
    if first + MAX_SEEN <= end then end - MAX_SEEN else first
  }

  lemma {:induction false} FreshSplits(a: seq<Item>, b: seq<Item>, order: seq<int>)
    ensures Fresh(a + b, order) == Fresh(a, order) + Fresh(b, order)
    decreases |b|
  {
    if b == [] {
      assert a + b == a;
    } else {
      assert (a + b)[..|a + b| - 1] == a + b[..|b| - 1];
      FreshSplits(a, b[..|b| - 1], order);
    }
  }

  lemma {:induction false} NoneFresh(items: seq<Item>, order: seq<int>)
    requires forall i :: 0 <= i < |items| ==> items[i].fingerprint in order
    ensures Fresh(items, order) == []
    decreases |items|
  {
    if items == [] {
    } else {
      NoneFresh(items[..|items| - 1], order);
    }
  }

  lemma {:induction false} AllFresh(items: seq<Item>, order: seq<int>)
    requires forall i :: 0 <= i < |items| ==> items[i].fingerprint !in order
    ensures Fresh(items, order) == items
    decreases |items|
  {
    if items == [] {
    } else {
      AllFresh(items[..|items| - 1], order);
      assert items == items[..|items| - 1] + [items[|items| - 1]];
    }
  }

  lemma RecalledIff(c: Config, k: nat, end: nat, i: nat)
    requires ValidConfig(c) && k <= end <= |c.archive| && i < |c.archive|
    ensures c.archive[i].fingerprint in Fingerprints(c.archive[k..end]) <==> k <= i < end
  {
    var a, order := c.archive, Fingerprints(c.archive[k..end]);
    assert forall j :: 0 <= j < |order| ==> order[j] == a[k + j].fingerprint;
    if k <= i < end { assert order[i - k] == a[i].fingerprint; }
  }

  lemma KnownPart(c: Config, k: nat, end: nat, lo: nat, hi: nat)
    requires ValidConfig(c) && k <= lo <= hi <= end <= |c.archive|
    ensures Fresh(c.archive[lo..hi], Fingerprints(c.archive[k..end])) == []
  {
    var known, order := c.archive[lo..hi], Fingerprints(c.archive[k..end]);
    hide Fresh, Fingerprints;
    forall i | 0 <= i < |known| ensures known[i].fingerprint in order {
      assert known[i] == c.archive[lo + i];
      RecalledIff(c, k, end, lo + i);
    }
    NoneFresh(known, order);
  }

  lemma NewPart(c: Config, k: nat, end: nat, hi: nat)
    requires ValidConfig(c) && k <= end <= hi <= |c.archive|
    ensures Fresh(c.archive[end..hi], Fingerprints(c.archive[k..end])) == c.archive[end..hi]
  {
    var news, order := c.archive[end..hi], Fingerprints(c.archive[k..end]);
    hide Fresh, Fingerprints;
    forall i | 0 <= i < |news| ensures news[i].fingerprint !in order {
      assert news[i] == c.archive[end + i];
      RecalledIff(c, k, end, end + i);
    }
    AllFresh(news, order);
  }

  /** What is new in a query that starts inside the remembered part: everything past its end. */
  lemma FreshPart(c: Config, k: nat, lo: nat, end: nat, hi: nat)
    requires ValidConfig(c) && k <= lo <= end <= |c.archive| && lo <= hi <= |c.archive|
    ensures Fresh(c.archive[lo..hi], Fingerprints(c.archive[k..end])) == if hi <= end then [] else c.archive[end..hi]
  {
    hide Fresh, Fingerprints, IsArchive;
    if hi <= end {
      KnownPart(c, k, end, lo, hi);
    } else {
      KnownPart(c, k, end, lo, end);
      NewPart(c, k, end, hi);
      assert c.archive[lo..hi] == c.archive[lo..end] + c.archive[end..hi];
      FreshSplits(c.archive[lo..end], c.archive[end..hi], Fingerprints(c.archive[k..end]));
    }
  }

  lemma TrimOne(order: seq<int>)
    requires |order| <= MAX_SEEN + 1
    ensures Trim(order) == if |order| <= MAX_SEEN then order else order[1..]
  {
  }

  lemma FingerprintsNext(a: seq<Item>, k: nat, n: nat)
    requires k <= n < |a|
    ensures Fingerprints(a[k..n]) + [a[n].fingerprint] == Fingerprints(a[k..n + 1])
    ensures k < n + 1 && Fingerprints(a[k..n + 1])[1..] == Fingerprints(a[k + 1..n + 1])
    ensures |Fingerprints(a[k..n + 1])| == n + 1 - k
  {
  }

  /** Remembering the next archive item moves the remembered part on. */
  lemma RecallNext(c: Config, first: nat, n: nat)
    requires ValidConfig(c) && first <= n < |c.archive|
    ensures Remember(Fingerprints(c.archive[RecallFrom(first, n)..n]), c.archive[n].fingerprint)
         == Fingerprints(c.archive[RecallFrom(first, n + 1)..n + 1])
  {
    var k := RecallFrom(first, n);
    RecalledIff(c, k, n, n);
    FingerprintsNext(c.archive, k, n);
    TrimOne(Fingerprints(c.archive[k..n + 1]));
    hide Trim, IsArchive, Fingerprints;
  }

  lemma {:induction false} RecallMoves(c: Config, first: nat, end: nat, hi: nat)
    requires ValidConfig(c) && first <= end <= hi <= |c.archive|
    ensures RememberAll(Fingerprints(c.archive[RecallFrom(first, end)..end]), c.archive[end..hi])
         == Fingerprints(c.archive[RecallFrom(first, hi)..hi])
    decreases hi
  {
    hide IsArchive, Fingerprints, Remember, RecallFrom;
    var a := c.archive;
    if hi == end {
      assert a[end..hi] == [];
    } else {
      var n := hi - 1;
      assert a[end..hi][..n - end] == a[end..n] && a[end..hi][n - end] == a[n];
      RecallMoves(c, first, end, n);
      RecallNext(c, first, n);
    }
  }

  lemma LaterStart(c: Config, early: real, late: real)
    requires ValidConfig(c) && early <= late
    ensures Before(c.archive, early) <= Before(c.archive, late)
  {
  }

  lemma StartBeforeItem(c: Config, i: nat)
    requires ValidConfig(c) && i < |c.archive|
    ensures Before(c.archive, c.archive[i].ts.value - c.overlap) <= i
  {
  }

  lemma FetchedAtMost(c: Config, cursor: real, now: real)
    requires ValidConfig(c)
    ensures var lo := Before(c.archive, cursor - c.overlap);
      lo <= FetchEnd(c, cursor, now) <= |c.archive| && FetchEnd(c, cursor, now) <= lo + c.limit
  {
  }

  /** Where the next query starts when the items up to `far` have been appended. */
  lemma NextStart(c: Config, cursor: real, end: nat, far: nat)
    requires ValidConfig(c) && end <= far <= |c.archive| && Before(c.archive, cursor - c.overlap) <= end
    ensures var next := Latest(cursor, c.archive[end..far]);
      Before(c.archive, cursor - c.overlap) <= Before(c.archive, next - c.overlap) <= far
  {
    hide Before, Latest, IsArchive;
    var unseen := c.archive[end..far];
    var next := Latest(cursor, unseen);
    LatestMeans(cursor, unseen);
    LaterStart(c, cursor - c.overlap, next - c.overlap);
    if next != cursor {
      var x :| x in unseen && x.ts == Some(next);
      var i :| 0 <= i < |unseen| && unseen[i] == x;
      StartBeforeItem(c, end + i);
    }
  }

  lemma PollAppends(t: Tap, start: real, now: real, c: Config, end: nat, far: nat)
    requires ValidConfig(c) && c.limit <= MAX_SEEN && Stretch(t, start, c, end)
    requires far == (if FetchEnd(c, t.cursor, now) <= end then end else FetchEnd(c, t.cursor, now))
    ensures end <= far <= |c.archive|
    ensures Fresh(Fetch(c, t.cursor, now), t.order) == c.archive[end..far]
  {
    hide Before, FetchEnd, Fresh, Fingerprints;
    FetchedAtMost(c, t.cursor, now);
    FreshPart(c, RecallFrom(Before(c.archive, start - c.overlap), end), Before(c.archive, t.cursor - c.overlap), end,
              FetchEnd(c, t.cursor, now));
    hide IsArchive;
  }

  /** Appending the next archive items to a stretch. */
  lemma StretchMoves(t: Tap, r: Tap, start: real, c: Config, first: nat, end: nat, far: nat)
    requires ValidConfig(c) && first == Before(c.archive, start - c.overlap)
    requires first <= end <= far <= |c.archive| && Stretch(t, start, c, end)
    requires far <= Before(c.archive, t.cursor - c.overlap) + c.limit
    requires var unseen := c.archive[end..far];
      r == Tap(Latest(t.cursor, unseen), RememberAll(t.order, unseen), t.output + unseen)
    ensures Stretch(r, start, c, far)
  {
    hide Before, RememberAll, Latest, Fingerprints, RecallFrom, IsArchive;
    RecallMoves(c, first, end, far);
    NextStart(c, t.cursor, end, far);
    StretchJoins(c.archive, first, end, far);
  }

  lemma PollStretches(t: Tap, start: real, now: real, c: Config, end: nat) returns (far: nat)
    requires ValidConfig(c) && c.limit <= MAX_SEEN && Stretch(t, start, c, end)
    ensures Stretch(Poll(t, Fetch(c, t.cursor, now)), start, c, far)
  {
    hide Before, FetchEnd, Fetch, RememberAll, Fresh, Latest, Stretch;
    far := if FetchEnd(c, t.cursor, now) <= end then end else FetchEnd(c, t.cursor, now);
    PollAppends(t, start, now, c, end, far);
    FetchedAtMost(c, t.cursor, now);
    StretchBounds(t, start, c, end);
    StretchMoves(t, Poll(t, Fetch(c, t.cursor, now)), start, c, Before(c.archive, start - c.overlap), end, far);
  }

  lemma StretchBounds(t: Tap, start: real, c: Config, end: nat)
    requires ValidConfig(c) && Stretch(t, start, c, end)
    ensures Before(c.archive, start - c.overlap) <= end <= Before(c.archive, t.cursor - c.overlap) + c.limit
  {
    hide Before;
  }

  lemma StretchJoins<T>(a: seq<T>, i: nat, j: nat, k: nat)
    requires i <= j <= k <= |a|
    ensures a[i..j] + a[j..k] == a[i..k]
  {
  }

  lemma StretchOfNothing(start: real, c: Config)
    requires ValidConfig(c)
    ensures Stretch(Tap(start, [], []), start, c, Before(c.archive, start - c.overlap))
  {
    hide Before;
  }

  /** With a poll limit within the memory, whatever the polls, their clocks and their failures, what
      has been appended is one unbroken stretch of the archive in its order. */
  lemma {:induction false} OutputIsStretch(start: real, events: seq<Event>, c: Config) returns (end: nat)
    requires ValidConfig(c) && c.limit <= MAX_SEEN
    ensures Stretch(Run(Tap(start, [], []), events, c), start, c, end)
    decreases |events|
  {
    hide Before, Poll, Fetch, Stretch;
    if events == [] {
      StretchOfNothing(start, c);
      end := Before(c.archive, start - c.overlap);
    } else {
      var n := |events| - 1;
      end := OutputIsStretch(start, events[..n], c);
      var t := Run(Tap(start, [], []), events[..n], c);
      FailedPoll(t);
      if events[n].ok { end := PollStretches(t, start, events[n].now, c, end); }
    }
  }

  /** Nothing is appended twice in any run over any archive. */
  ghost predicate NeverRepeats(limit: nat) {
    forall c: Config, start: real, events: seq<Event> ::
      ValidConfig(c) && c.limit == limit ==> Distinct(Run(Tap(start, [], []), events, c).output)
  }

  /** The memory keeps repeats out of the output of every run if and only if it holds at least as
      many fingerprints as one poll may bring. */
  lemma NoRepeatsIff(limit: nat)
    ensures NeverRepeats(limit) <==> limit <= 5000
  {
    hide Run;
    if limit <= MAX_SEEN {
      forall c: Config, start: real, events: seq<Event> | ValidConfig(c) && c.limit == limit
        ensures Distinct(Run(Tap(start, [], []), events, c).output) {
        var end := OutputIsStretch(start, events, c);
        StretchIsDistinct(Run(Tap(start, [], []), events, c), start, c, end);
      }
    } else {
      ForgottenRepeats(limit);
    }
  }

  lemma StretchIsDistinct(t: Tap, start: real, c: Config, end: nat)
    requires ValidConfig(c) && Stretch(t, start, c, end)
    ensures Distinct(t.output)
  {
    hide Before;
  }

  /** One item more than the memory holds, all of one second. */
  function OneMore(limit: nat): Config {
    Config(seq(MAX_SEEN + 1, i requires 0 <= i <= MAX_SEEN => Item(i, Some(0.0))), 0.0, limit)
  }

  /** The whole archive is in the answer to every poll. */
  lemma OneMoreFetched(limit: nat, now: real)
    requires limit > MAX_SEEN && now >= 0.0
    ensures ValidConfig(OneMore(limit)) && Fetch(OneMore(limit), 0.0, now) == OneMore(limit).archive
  {
  }

  /** A poll that brings the whole archive and forgets its first item. */
  lemma FirstForgotten(limit: nat)
    requires limit > MAX_SEEN
    ensures var a := OneMore(limit).archive;
      Poll(Tap(0.0, [], []), a) == Tap(0.0, Fingerprints(a[1..]), a)
  {
    var c := OneMore(limit);
    var a := c.archive;
    OneMoreFetched(limit, 0.0);
    LatestMeans(0.0, a);
    hide OneMore, IsArchive, Fetch, Fingerprints, Fresh, Latest, RememberAll;
    AllFresh(a, []);
    NothingRecalled(c);
    RecallMoves(c, 0, 0, |a|);
  }

  lemma NothingRecalled(c: Config)
    requires |c.archive| == MAX_SEEN + 1
    ensures RecallFrom(0, 0) == 0 && RecallFrom(0, |c.archive|) == 1
    ensures Fingerprints(c.archive[0..0]) == [] && c.archive[0..|c.archive|] == c.archive
    ensures c.archive[1..|c.archive|] == c.archive[1..] && [] + c.archive == c.archive
  {
  }

  /** The second poll appends the forgotten item again. */
  lemma ForgottenRepeats(limit: nat)
    requires limit > MAX_SEEN
    ensures var c := OneMore(limit);
      ValidConfig(c) && !Distinct(Run(Tap(0.0, [], []), [Event(0.0, true), Event(0.0, true)], c).output)
  {
    var c := OneMore(limit);
    var a := c.archive;
    OneMoreFetched(limit, 0.0);
    FirstForgotten(limit);
    RecalledIff(c, 1, |a|, 0);
    var t := Tap(0.0, Fingerprints(a[1..]), a);
    FreshMeans(a, t.order);
    assert a[1..|a|] == a[1..] && a[0] in a;
    hide IsArchive, OneMore, Fetch, Fresh, Latest, RememberAll, Fingerprints;
    var unseen := Fresh(a, t.order);
    assert a[0] in unseen;
    var i :| 0 <= i < |unseen| && unseen[i] == a[0];
    var out := t.output + unseen;
    assert out[0] == out[|a| + i];
    TwoPolls(c, t);
  }

  lemma TwoPolls(c: Config, t: Tap)
    requires ValidConfig(c) && Step(Tap(0.0, [], []), Event(0.0, true), c) == t
    ensures Run(Tap(0.0, [], []), [Event(0.0, true), Event(0.0, true)], c) == Step(t, Event(0.0, true), c)
  {
    hide Step;
    var e := Event(0.0, true);
    assert [e, e][..1] == [e] && [e][..0] == [];
  }

  /** How many archive items the overlap re-queries: those dated from `overlap` before the
      cursor up to the cursor. */
  function Overlapping(c: Config, cursor: real): int
    requires forall i :: 0 <= i < |c.archive| ==> c.archive[i].ts.Some?
  {
    UpTo(c.archive, cursor) - Before(c.archive, cursor - c.overlap)
  }

  /** There is news past the cursor to be had at `now`. */
  predicate NewsWaiting(c: Config, cursor: real, now: real)
    requires forall i :: 0 <= i < |c.archive| ==> c.archive[i].ts.Some?
  {
    UpTo(c.archive, cursor) < UpTo(c.archive, now)
  }

  /** Catching up, exactly: a successful poll with news waiting moves the cursor if and only
      if the overlap window holds fewer items than the poll limit. */
  lemma PollAdvancesIff(t: Tap, start: real, now: real, c: Config)
    requires ValidConfig(c) && Complete(t, start, c) && NewsWaiting(c, t.cursor, now)
    ensures Poll(t, Fetch(c, t.cursor, now)).cursor > t.cursor <==> Overlapping(c, t.cursor) < c.limit
  {
    hide Poll, Fetch, FetchEnd, Before, UpTo, Complete;
    var m := UpTo(c.archive, t.cursor);
    WindowEnd(c, t.cursor, now);
    if Overlapping(c, t.cursor) < c.limit {
      FetchedIff(c, t.cursor, now, m);
      NewItemsAreUnseen(t, start, c, m);
      MovesPast(t, Fetch(c, t.cursor, now), c.archive[m]);
    } else {
      StaysPut(t, now, c);
    }
  }

  lemma AnswerIsOld(c: Config, cursor: real, now: real)
    requires ValidConfig(c) && FetchEnd(c, cursor, now) <= UpTo(c.archive, cursor)
    ensures forall x :: x in Fetch(c, cursor, now) ==> x.ts.Some? && x.ts.value <= cursor
  {
    FetchedWindow(c, cursor, now);
    hide FetchEnd, Before, UpTo;
  }

  lemma StaysPut(t: Tap, now: real, c: Config)
    requires ValidConfig(c) && FetchEnd(c, t.cursor, now) <= UpTo(c.archive, t.cursor)
    ensures Poll(t, Fetch(c, t.cursor, now)).cursor == t.cursor
  {
    hide FetchEnd, Fetch, UpTo, Latest, Fresh;
    var items := Fetch(c, t.cursor, now);
    AnswerIsOld(c, t.cursor, now);
    LatestMeans(t.cursor, Fresh(items, t.order));
    FreshMeans(items, t.order);
  }

  lemma WindowEnd(c: Config, cursor: real, now: real)
    requires ValidConfig(c) && NewsWaiting(c, cursor, now)
    ensures Before(c.archive, cursor - c.overlap) <= UpTo(c.archive, cursor) < |c.archive|
    ensures UpTo(c.archive, cursor) < FetchEnd(c, cursor, now) <==> Overlapping(c, cursor) < c.limit
  {
  }

  lemma NewItemsAreUnseen(t: Tap, start: real, c: Config, i: nat)
    requires ValidConfig(c) && Complete(t, start, c) && i < |c.archive|
    requires c.archive[i].ts.value > t.cursor
    ensures c.archive[i].fingerprint !in t.order
  {
    if c.archive[i].fingerprint in t.order {
      SeenInOutput(t, c, c.archive[i]);
      assert false;
    }
  }

  lemma MovesPast(t: Tap, items: seq<Item>, x: Item)
    requires x in items && x.ts.Some? && x.ts.value > t.cursor && x.fingerprint !in t.order
    ensures Poll(t, items).cursor > t.cursor
  {
    FreshMeans(items, t.order);
    LatestMeans(t.cursor, Fresh(items, t.order));
  }

  /** Starvation: once the overlap window holds as many items as the poll limit, the cursor
      never moves again, whatever polls follow, and nothing dated past it is ever appended. */
  lemma {:induction false} StuckForever(t: Tap, start: real, events: seq<Event>, c: Config)
    requires ValidConfig(c) && Complete(t, start, c) && Overlapping(c, t.cursor) >= c.limit
    ensures Run(t, events, c).cursor == t.cursor
    ensures Complete(Run(t, events, c), start, c)
    ensures forall x :: x in Run(t, events, c).output ==> x.ts.value <= t.cursor
    decreases |events|
  {
    hide Before, UpTo, Latest, Fresh, RememberAll, Remembers, NoGap;
    if events == [] {
    } else {
      var n := |events| - 1;
      StuckForever(t, start, events[..n], c);
      var mid := Run(t, events[..n], c);
      var now := events[n].now;
      FailedPoll(mid);
      PollComplete(mid, start, now, c);
      if NewsWaiting(c, mid.cursor, now) {
        PollAdvancesIff(mid, start, now, c);
      } else {
        StaysPut(mid, now, c);
      }
      hide Poll, Fetch, Overlapping;
    }
  }

  /** The defaults: two hundred items within the last two minutes stop the tap for good. */
  const POLL_LIMIT: nat := 200
  const OVERLAP_SECONDS: real := 120.0

  function Burst(n: nat): seq<Item> { seq(n, i requires 0 <= i < n => Item(i, Some(i as real / 2.0))) }

  /** A burst of two items a second.  The first poll brings the first 200 of them; every
      later poll queries those same 200 again, and item 200 is never appended. */
  lemma BurstStopsTap(n: nat, events: seq<Event>)
    requires n > 200
    ensures var c := Config(Burst(n), OVERLAP_SECONDS, POLL_LIMIT);
            var first := Step(Tap(0.0, [], []), Event(1000.0, true), c);
            ValidConfig(c) && Burst(n)[200] !in Run(first, events, c).output
  {
    var c := Config(Burst(n), OVERLAP_SECONDS, POLL_LIMIT);
    var t0 := Tap(0.0, [], []);
    PollComplete(t0, 0.0, 1000.0, c);
    BurstFirstPoll(n);
    hide Poll, Fetch, Complete;
    StuckForever(Step(t0, Event(1000.0, true), c), 0.0, events, c);
  }

  lemma BurstFirstPoll(n: nat)
    requires n > 200
    ensures var c := Config(Burst(n), OVERLAP_SECONDS, POLL_LIMIT);
            var cursor := Poll(Tap(0.0, [], []), Fetch(c, 0.0, 1000.0)).cursor;
            cursor == 99.5 && Overlapping(c, cursor) == 200
  {
    var c := Config(Burst(n), OVERLAP_SECONDS, POLL_LIMIT);
    var items := Fetch(c, 0.0, 1000.0);
    hide Before, UpTo;
    assert c.archive[0].ts.value == 0.0 && c.archive[199].ts.value == 99.5 && c.archive[200].ts.value == 100.0;
    assert Before(c.archive, -120.0) == 0 && Before(c.archive, 99.5 - 120.0) == 0;
    assert UpTo(c.archive, 1000.0) > 200 && UpTo(c.archive, 99.5) == 200;
    assert items == c.archive[..200];
    assert items[199] in items;
    FreshMeans(items, []);
    LatestMeans(0.0, Fresh(items, []));
  }
}
