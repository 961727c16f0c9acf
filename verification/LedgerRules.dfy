/** The options shadow book: open positions in memory over an append-only ledger. */
module LedgerRules {
  import opened Optional

  datatype Direction = Call | Put

  /** Contract, day, minute and how many entries the day already had. */
  datatype PositionId = PositionId(occ: string, day: int, minute: int, seqNo: nat)

  datatype Position = Position(id: PositionId, underlying: string, direction: Direction, expiry: int, lanes: seq<string>)

  datatype Entry = Entry(id: PositionId, day: int, underlying: string, direction: Direction, expiry: int, lanes: seq<string>)

  datatype Merge = Merge(id: PositionId, lane: string)

  /** Rows in file order; an exit row is kept by the position it closes. */
  datatype Ledger = Ledger(entries: seq<Entry>, merges: seq<Merge>, exits: seq<PositionId>)

  datatype Core = Core(day: Option<int>, positions: seq<Position>, entriesToday: nat, ledger: Ledger)

  datatype Signal = Signal(lane: string, underlying: string, direction: Direction, expiresMinute: int)

  datatype Contract = Contract(occ: string, expiry: int)

  /** What the outside world says when a signal arrives; `pick` is the selector's first choice. */
  datatype Env = Env(minute: int, weekend: bool, closeMin: int, blackout: bool,
                     maxConcurrent: nat, client: bool, pick: Option<Contract>)

  datatype Outcome =
    | SignalExpired | AfterHours | Blackout | Merged | DuplicateLane | Concurrency | NoClient | NoPick | Entered

  const OPEN_MIN: int := 570

  // ---------------------------------------------------------------- reading the ledger back

  function AddLane(lanes: seq<string>, lane: string): seq<string> {
    if lane in lanes then lanes else lanes + [lane]
  }

  /** The lanes of an entry with the later merges of its position folded in. */
  function AddMerges(lanes: seq<string>, merges: seq<Merge>, id: PositionId): seq<string> {
    if merges == [] then lanes
    else
      var m, before := merges[|merges| - 1], AddMerges(lanes, merges[..|merges| - 1], id);
      if m.id == id && m.lane != "" then AddLane(before, m.lane) else before
  }

  function Reopen(e: Entry, merges: seq<Merge>): Position {
    Position(e.id, e.underlying, e.direction, e.expiry, AddMerges(e.lanes, merges, e.id))
  }

  /** Entries without an exit that have not expired before `today`, in file order. */
  function RebuildFrom(entries: seq<Entry>, merges: seq<Merge>, exits: seq<PositionId>, today: int): seq<Position> {
    if entries == [] then []
    else
      var e := entries[|entries| - 1];
      RebuildFrom(entries[..|entries| - 1], merges, exits, today)
        + (if e.id in exits || e.expiry < today then [] else [Reopen(e, merges)])
  }

  function Rebuild(l: Ledger, today: int): seq<Position> { RebuildFrom(l.entries, l.merges, l.exits, today) }

  function CountDay(entries: seq<Entry>, day: int): nat {
    if entries == [] then 0
    else CountDay(entries[..|entries| - 1], day) + (if entries[|entries| - 1].day == day then 1 else 0)
  }

  // ---------------------------------------------------------------- positions by id

  predicate IsOpen(ps: seq<Position>, id: PositionId) { exists i :: 0 <= i < |ps| && ps[i].id == id }

  /** Positions are a dictionary by id in the order of insertion: a position with an id already there
      takes the place of the one that had it. */
  function Place(ps: seq<Position>, p: Position): seq<Position> {
    if IsOpen(ps, p.id) then Replace(ps, p) else ps + [p]
  }

  function Replace(ps: seq<Position>, p: Position): seq<Position> {
    if ps == [] then []
    else
      var last := ps[|ps| - 1];
      Replace(ps[..|ps| - 1], p) + [if last.id == p.id then p else last]
  }

  function ById(ps: seq<Position>): seq<Position> {
    if ps == [] then [] else Place(ById(ps[..|ps| - 1]), ps[|ps| - 1])
  }

  // ---------------------------------------------------------------- the operations

  /** The first open position with this exposure. */
  function FindOpen(ps: seq<Position>, underlying: string, direction: Direction): (k: nat)
    ensures k <= |ps|
    ensures k < |ps| ==> ps[k].underlying == underlying && ps[k].direction == direction
    ensures forall i :: 0 <= i < k ==> !(ps[i].underlying == underlying && ps[i].direction == direction)
  {
    if ps == [] then 0
    else
      var k := FindOpen(ps[..|ps| - 1], underlying, direction);
      if k < |ps| - 1 then k
      else if ps[|ps| - 1].underlying == underlying && ps[|ps| - 1].direction == direction then |ps| - 1
      else |ps|
  }

  function Judge(c: Core, s: Signal, e: Env): Outcome {
    if e.minute > s.expiresMinute then SignalExpired
    else if !(OPEN_MIN <= e.minute < e.closeMin) || e.weekend then AfterHours
    else if e.blackout then Blackout
    else
      var k := FindOpen(c.positions, s.underlying, s.direction);
      if k < |c.positions| then (if s.lane in c.positions[k].lanes then DuplicateLane else Merged)
      else if |c.positions| >= e.maxConcurrent then Concurrency
      else if !e.client then NoClient
      else if e.pick.None? then NoPick
      else Entered
  }

  function MergeInto(c: Core, k: nat, lane: string): Core
    requires k < |c.positions|
  {
    var p := c.positions[k];
    c.(positions := c.positions[k := p.(lanes := p.lanes + [lane])],
       ledger := c.ledger.(merges := c.ledger.merges + [Merge(p.id, lane)]))
  }

  function Enter(c: Core, s: Signal, minute: int, pick: Contract): Core
    requires c.day.Some?
  {
    var id := PositionId(pick.occ, c.day.value, minute, c.entriesToday);
    c.(positions := Place(c.positions, Position(id, s.underlying, s.direction, pick.expiry, [s.lane])),
       entriesToday := c.entriesToday + 1,
       ledger := c.ledger.(entries := c.ledger.entries
                             + [Entry(id, c.day.value, s.underlying, s.direction, pick.expiry, [s.lane])]))
  }

  function OnSignal(c: Core, s: Signal, e: Env): Core
    requires c.day.Some?
  {
    match Judge(c, s, e)
    case Merged => MergeInto(c, FindOpen(c.positions, s.underlying, s.direction), s.lane)
    case Entered => Enter(c, s, e.minute, e.pick.value)
    case _ => c
  }

  function Without(ps: seq<Position>, id: PositionId): seq<Position> {
    if ps == [] then []
    else
      var last := ps[|ps| - 1];
      Without(ps[..|ps| - 1], id) + (if last.id == id then [] else [last])
  }

  /** Close a position: forced by the runner or decided by the exit engine. */
  function CloseOne(c: Core, id: PositionId): Core {
    if IsOpen(c.positions, id) then
      c.(positions := Without(c.positions, id), ledger := c.ledger.(exits := c.ledger.exits + [id]))
    else c
  }

  function OpenIds(ps: seq<Position>): seq<PositionId> {
    if ps == [] then [] else OpenIds(ps[..|ps| - 1]) + [ps[|ps| - 1].id]
  }

  /** Go through a snapshot of the open positions and close those the sweep decides to. */
  function SweepIds(c: Core, ids: seq<PositionId>, closes: set<PositionId>): Core
    decreases |ids|
  {
    if ids == [] then c
    else
      var before, id := SweepIds(c, ids[..|ids| - 1], closes), ids[|ids| - 1];
      if id in closes then CloseOne(before, id) else before
  }

  function Sweep(c: Core, closes: set<PositionId>): Core { SweepIds(c, OpenIds(c.positions), closes) }

  /** The positions that have not expired before `today`. */
  function Alive(ps: seq<Position>, today: int): seq<Position> {
    if ps == [] then []
    else Alive(ps[..|ps| - 1], today) + (if ps[|ps| - 1].expiry >= today then [ps[|ps| - 1]] else [])
  }

  /** How the file reads of one day roll go.  Only the exits file is read strictly; the other reads
      are separate, and one that fails is taken for an empty file: the entries, the merges, read
      again for every open entry (`lost` holds the numbers of the entries whose read failed), and
      the entries once more for the day count. */
  datatype Reads = Reads(exits: bool, entries: bool, lost: set<nat>, count: bool)

  const ALL_READ: Reads := Reads(true, true, {}, true)

  /** The rebuild, with no merges for the entries whose read of them failed. */
  function ReadFrom(entries: seq<Entry>, merges: seq<Merge>, exits: seq<PositionId>, today: int, lost: set<nat>): seq<Position> {
    if entries == [] then []
    else
      var n := |entries| - 1;
      ReadFrom(entries[..n], merges, exits, today, lost)
        + (if entries[n].id in exits || entries[n].expiry < today then []
           else [Reopen(entries[n], if n in lost then [] else merges)])
  }

  function ReadBack(l: Ledger, today: int, r: Reads): seq<Position> {
    ReadFrom(if r.entries then l.entries else [], l.merges, l.exits, today, r.lost)
  }

  /** A new day, or the first day after a restart: rebuild from what the reads give, unless the
      exits cannot be read. */
  function RollDay(c: Core, day: int, r: Reads): Core {
    if c.day == Some(day) || !r.exits then c
    else c.(day := Some(day), positions := ById(ReadBack(c.ledger, day, r)),
            entriesToday := if r.count then CountDay(c.ledger.entries, day) else 0)
  }

  /** The process dies and comes back: only the ledger is left. */
  function Restart(c: Core): Core { Core(None, [], 0, c.ledger) }

  // ---------------------------------------------------------------- runs

  datatype Step =
    | Fire(s: Signal, e: Env)
    | Force(id: PositionId)
    | Reval(closes: set<PositionId>)
    | Roll(day: int, r: Reads)
    | Crash

  /** Before the first roll there are no lanes, so no signal arrives. */
  function Next(c: Core, step: Step): Core {
    match step
    case Fire(s, e) => if c.day.Some? then OnSignal(c, s, e) else c
    case Force(id) => CloseOne(c, id)
    case Reval(closes) => Sweep(c, closes)
    case Roll(day, r) => RollDay(c, day, r)
    case Crash => Restart(c)
  }

  function RunSteps(c: Core, steps: seq<Step>): Core
    decreases |steps|
  {
    if steps == [] then c else Next(RunSteps(c, steps[..|steps| - 1]), steps[|steps| - 1])
  }

  // ---------------------------------------------------------------- small facts

  lemma AliveAppend(ps: seq<Position>, p: Position, today: int)
    ensures Alive(ps + [p], today) == if p.expiry >= today then Alive(ps, today) + [p] else Alive(ps, today)
  {
    assert (ps + [p])[..|ps|] == ps;
  }

  lemma ByIdAppend(ps: seq<Position>, p: Position)
    ensures ById(ps + [p]) == Place(ById(ps), p)
  {
    assert (ps + [p])[..|ps|] == ps;
  }

  lemma ReopenExpiry(e: Entry, merges: seq<Merge>)
    ensures Reopen(e, merges).expiry == e.expiry
  {
  }
}
