/**
 * The repair that rereads blocks scanned by the older collector, interleaved with live commits:
 * AMM logs over the whole span first, then exchange logs of each block whose witness is an AMM log.
 */
module WitnessRepair {
  import opened Outcomes
  import opened EthLogs
  import opened WalletTable
  import opened Registry
  import opened RegistryRuns
  import opened LegacyWitness
  import opened CanonicalChain
  import opened Collecting

  /** The persisted repair progress. */
  datatype Repair =
    | NotNeeded
    | AmmPhase(lower: nat, upper: nat, next: nat, window: nat)
    | Listing(lower: nat, upper: nat)
    | ExchangePhase(lower: nat, upper: nat, blocks: seq<nat>, index: nat)
    | Complete

  datatype World = World(db: Db, repair: Repair)

  // ---------------------------------------------------------------- what the program computes

  function InitialRepair(db: Db, maxBlocks: nat): Repair
    requires forall s: Stream :: s in db.streams
  {
    var lower, upper := db.streams[Exchange].start, Min(db.streams[Amm].next, db.streams[Exchange].next) - 1;
    if upper < lower || db.wallets == map[] then NotNeeded else AmmPhase(lower, upper, lower, maxBlocks)
  }

  /** The reread log lies in the wallet's first block, before the stored witness. */
  predicate Precedes(candidate: Row, row: Row) {
    candidate.first == row.first && candidate.evidence.log.index < row.evidence.log.index
  }

  /** The row after considering the first reread sighting of its wallet; first, last and roles stay. */
  function Corrected(row: Row, candidate: Row): Row {
    if Precedes(candidate, row) then row.(evidence := candidate.evidence) else row
  }

  function Correct(table: Table, candidates: Table): Table {
    map w | w in table :: if w in candidates then Corrected(table[w], candidates[w]) else table[w]
  }

  /** The first blocks in the span whose witness is not an exchange log. */
  function AmmWitnessBlocks(table: Table, lower: nat, upper: nat): set<nat> {
    set w | w in table && lower <= table[w].first <= upper && !FromExchange(table[w].evidence) :: table[w].first
  }

  function Ascending(blocks: set<nat>, lower: nat, upper: nat): seq<nat>
    decreases upper + 1 - lower
  {
    if lower > upper then []
    else (if lower in blocks then [lower] else []) + Ascending(blocks, lower + 1, upper)
  }

  /** The blocks the next request asks for, and of which stream. */
  function Query(repair: Repair): Option<(Stream, nat, nat)> {
    match repair
    case AmmPhase(_, upper, next, window) =>
      if window >= 1 && next <= upper then Some((Amm, next, Min(next + window - 1, upper))) else None
    case ExchangePhase(_, _, blocks, index) =>
      if index < |blocks| then Some((Exchange, blocks[index], blocks[index])) else None
    case _ => None
  }

  /** Progress after a reread, saved together with the replaced witnesses. */
  function Advanced(repair: Repair, nextWindow: nat): Repair
    requires Query(repair).Some?
  {
    match repair
    case AmmPhase(lower, upper, next, window) =>
      var end := Min(next + window - 1, upper);
      if end < upper then AmmPhase(lower, upper, end + 1, nextWindow) else Listing(lower, upper)
    case ExchangePhase(lower, upper, blocks, index) =>
      if index + 1 == |blocks| then Complete else ExchangePhase(lower, upper, blocks, index + 1)
  }

  datatype Event =
    | Collect(step: Step)
    | Reread(logs: seq<Log>, nextWindow: nat)
    | Narrow(window: nat)
    | ListBlocks

  function Happen(world: World, event: Event): World {
    match event
    case Collect(step) => world.(db := Apply(world.db, step))
    case Reread(logs, nextWindow) =>
      if Query(world.repair).None? then world
      else
        (match ReadLogs(Query(world.repair).value.0, world.db.pools, logs)
         case Err(_) => world
         case Ok(batch) =>
           World(world.db.(wallets := Correct(world.db.wallets, Observe(batch.sightings))),
                 Advanced(world.repair, nextWindow)))
    case Narrow(window) =>
      if world.repair.AmmPhase? then world.(repair := world.repair.(window := window)) else world
    case ListBlocks =>
      (match world.repair
       case Listing(lower, upper) =>
         world.(repair := ExchangePhase(lower, upper, Ascending(AmmWitnessBlocks(world.db.wallets, lower, upper),
           lower, upper), 0))
       case ExchangePhase(_, _, blocks, index) =>
         if index >= |blocks| then world.(repair := Complete) else world
       case _ => world)
  }

  function Unfold(world: World, events: seq<Event>): World {
    if events == [] then world else Happen(Unfold(world, events[..|events| - 1]), events[|events| - 1])
  }

  ghost predicate EventOk(chain: set<Log>, maxBlocks: nat, world: World, event: Event) {
    match event
    case Collect(step) => StepOk(chain, maxBlocks, step)
    case Reread(logs, nextWindow) =>
      && 1 <= nextWindow <= maxBlocks
      && (Query(world.repair).Some? ==>
            var (stream, start, end) := Query(world.repair).value;
            start <= end && Honest(chain, stream, start, end, logs))
    case Narrow(window) => 1 <= window <= maxBlocks && (world.repair.AmmPhase? ==> window < world.repair.window)
    case ListBlocks => true
  }

  ghost predicate EventsOk(chain: set<Log>, maxBlocks: nat, world: World, events: seq<Event>) {
    forall i :: 0 <= i < |events| ==> EventOk(chain, maxBlocks, Unfold(world, events[..i]), events[i])
  }

  // ---------------------------------------------------------------- invariant of the repair

  /** No AMM sighting of the wallet in the witness's block precedes it. */
  ghost predicate BeatsAmm(e: Sighting, w: Address, all: set<Sighting>) {
    forall t :: t in all && t.wallet == w && t.log.block == e.log.block && !FromExchange(t) ==> AtOrBefore(e, t)
  }

  /** How good the row's witness already is at each stage. */
  ghost predicate Stage(row: Row, w: Address, all: set<Sighting>, repair: Repair) {
    match repair
    case NotNeeded => Least(row.evidence, w, all)
    case Complete => Least(row.evidence, w, all)
    case AmmPhase(lower, upper, next, _) =>
      if lower <= row.first <= upper
      then OwnLeast(row.evidence, w, all) && (row.first < next ==> BeatsAmm(row.evidence, w, all))
      else Least(row.evidence, w, all)
    case Listing(lower, upper) =>
      if lower <= row.first <= upper
      then OwnLeast(row.evidence, w, all) && BeatsAmm(row.evidence, w, all)
      else Least(row.evidence, w, all)
    case ExchangePhase(lower, upper, blocks, index) =>
      || Least(row.evidence, w, all)
      || (lower <= row.first <= upper && OwnLeast(row.evidence, w, all) && BeatsAmm(row.evidence, w, all)
          && row.first in blocks[if index <= |blocks| then index else |blocks|..])
  }

  /** The last block the repair still has to answer for. */
  function Horizon(repair: Repair): int {
    match repair
    case AmmPhase(_, upper, _, _) => upper
    case Listing(_, upper) => upper
    case ExchangePhase(_, upper, _, _) => upper
    case _ => -1
  }

  ghost predicate SpanScanned(db: Db, maxBlocks: nat, repair: Repair)
    requires forall s: Stream :: s in db.streams
  {
    && Horizon(repair) < db.streams[Amm].next && Horizon(repair) < db.streams[Exchange].next
    && match repair
       case AmmPhase(lower, upper, next, window) =>
         db.streams[Exchange].start == lower <= next <= upper && 1 <= window <= maxBlocks
       case Listing(lower, upper) => db.streams[Exchange].start == lower
       case ExchangePhase(lower, upper, blocks, index) =>
         db.streams[Exchange].start == lower && index <= |blocks|
         && forall j :: 0 <= j < |blocks| ==> lower <= blocks[j] <= upper
       case _ => true
  }

  ghost predicate Staged(table: Table, all: set<Sighting>, repair: Repair) {
    SpansRight(table, all) && forall w :: w in table ==> Stage(table[w], w, all, repair)
  }

  ghost predicate RepairInv(chain: set<Log>, maxBlocks: nat, world: World) {
    && StreamsOk(world.db, maxBlocks) && Tiled(world.db) && PoolsRight(chain, world.db)
    && world.db.streams[Amm].start <= world.db.streams[Exchange].start
    && SpanScanned(world.db, maxBlocks, world.repair)
    && Staged(world.db.wallets, AllSeen(chain, world.db), world.repair)
  }

  ghost predicate OneLogPerPlace(all: set<Sighting>) {
    forall s, t :: s in all && t in all && SamePlace(s, t) ==> s.log == t.log
  }

  // ---------------------------------------------------------------- sightings and their streams

  lemma ScannedStream(chain: set<Log>, db: Db, s: Sighting) returns (stream: Stream)
    requires ChainOk(chain) && PoolsApart(chain) && (forall s: Stream :: s in db.streams) && PoolsRight(chain, db)
    requires s in AllSeen(chain, db)
    ensures !stream.Factory? && FromExchange(s) == stream.Exchange?
    ensures db.streams[stream].start <= s.log.block < db.streams[stream].next && s.log in chain
    ensures s in LogSightings(stream, db.pools, s.log) && Selected(stream, s.log)
  {
    hide AllSeen, LogSightings, ChainOk, PoolsApart, PoolsFrom, Selected, FromExchange;
    stream := SeenOrigin(chain, db, s);
    EmitterTellsStream(chain, db.pools, Covered(chain, Factory, db.streams[Factory]), stream, s);
  }

  lemma ScannedPlaces(chain: set<Log>, db: Db)
    requires ChainOk(chain) && PoolsApart(chain) && (forall s: Stream :: s in db.streams) && PoolsRight(chain, db)
    ensures OneLogPerPlace(AllSeen(chain, db))
  {
    hide AllSeen, LogSightings, PoolsFrom, Selected, Announces;
    forall s, t | s in AllSeen(chain, db) && t in AllSeen(chain, db) && SamePlace(s, t) ensures s.log == t.log {
      var a := ScannedStream(chain, db, s);
      var b := ScannedStream(chain, db, t);
    }
  }

  /** `part` is what rereading one stream over [start, end] shows of `all`. */
  ghost predicate Excerpt(part: set<Sighting>, all: set<Sighting>, exchange: bool, start: nat, end: nat) {
    && part <= all
    && (forall t :: t in part ==> FromExchange(t) == exchange && start <= t.log.block <= end)
    && (forall t :: t in all && FromExchange(t) == exchange && start <= t.log.block <= end ==> t in part)
  }

  /** Rereading scanned blocks shows exactly the sightings recorded from them. */
  lemma RereadShows(chain: set<Log>, db: Db, stream: Stream, start: nat, end: nat, logs: seq<Log>)
    requires ChainOk(chain) && PoolsApart(chain) && (forall s: Stream :: s in db.streams) && PoolsRight(chain, db)
    requires !stream.Factory?
    requires Honest(chain, stream, start, end, logs)
    requires db.streams[stream].start <= start && end < db.streams[stream].next
    ensures Excerpt(Seen(LogSet(logs), stream, db.pools), AllSeen(chain, db), stream.Exchange?, start, end)
  {
    hide LogSightings, ChainOk, PoolsApart, PoolsFrom, Selected, FromExchange;
    var part, scanned := Seen(LogSet(logs), stream, db.pools), Covered(chain, Factory, db.streams[Factory]);
    forall t | t in part
      ensures t in AllSeen(chain, db) && FromExchange(t) == stream.Exchange? && start <= t.log.block <= end
    {
      SeenFrom(LogSet(logs), stream, db.pools, t);
      assert t.log in Covered(chain, stream, db.streams[stream]);
      EmitterTellsStream(chain, db.pools, scanned, stream, t);
    }
    forall t | t in AllSeen(chain, db) && FromExchange(t) == stream.Exchange? && start <= t.log.block <= end
      ensures t in part
    {
      var origin := ScannedStream(chain, db, t);
      assert t.log in LogSet(logs);
    }
  }

  // ---------------------------------------------------------------- one row at a time

  lemma CorrectedSpan(row: Row, candidate: Row, w: Address, all: set<Sighting>, part: set<Sighting>)
    requires SpanRight(row, w, all) && SpanRight(candidate, w, part) && part <= all
    ensures SpanRight(Corrected(row, candidate), w, all)
  {
    SpanWithWitness(row, row.evidence, w, all);
    if Corrected(row, candidate) != row {
      SpanWithWitness(row, candidate.evidence, w, all);
    }
  }

  /** Witnesses that are already least, or whose block is not reread, stay. */
  lemma CorrectedKeepsLeast(row: Row, candidate: Row, w: Address, all: set<Sighting>, part: set<Sighting>)
    requires SpanRight(row, w, all) && SpanRight(candidate, w, part) && part <= all
    requires Least(row.evidence, w, all)
    ensures Corrected(row, candidate) == row
  {
    assert AtOrBefore(row.evidence, candidate.evidence);
  }

  /** After the AMM reread of its block a witness is least among AMM sightings and still among its own. */
  lemma AmmCorrected(row: Row, candidate: Row, w: Address, all: set<Sighting>, part: set<Sighting>, start: nat,
                     end: nat)
    requires OneLogPerPlace(all) && Excerpt(part, all, false, start, end)
    requires SpanRight(row, w, all) && OwnLeast(row.evidence, w, all)
    requires SpanRight(candidate, w, part) && Least(candidate.evidence, w, part)
    ensures OwnLeast(Corrected(row, candidate).evidence, w, all)
    ensures start <= row.first <= end ==> BeatsAmm(Corrected(row, candidate).evidence, w, all)
    ensures !(start <= row.first <= end) ==> Corrected(row, candidate) == row
  {
    var e, c := row.evidence, candidate.evidence;
    assert c in all && !FromExchange(c) && row.first <= c.log.block;
    assert SamePlace(e, c) ==> e.log == c.log && FromExchange(e) == FromExchange(c);
    hide FromExchange;
    if start <= row.first <= end {
      forall t | t in all && t.wallet == w && t.log.block == row.first && !FromExchange(t)
        ensures AtOrBefore(Corrected(row, candidate).evidence, t)
      {
        assert t in part && AtOrBefore(c, t);
      }
    }
  }

  lemma NoAmmThere(row: Row, w: Address, all: set<Sighting>, part: set<Sighting>, start: nat, end: nat)
    requires Excerpt(part, all, false, start, end) && SpanRight(row, w, all)
    requires forall t :: t in part ==> t.wallet != w
    ensures start <= row.first <= end ==> BeatsAmm(row.evidence, w, all)
  {
  }

  /** A witness that beats all AMM sightings is least once the exchange logs of its block were reread. */
  lemma ExchangeCorrected(row: Row, candidate: Row, w: Address, all: set<Sighting>, part: set<Sighting>, block: nat)
    requires OneLogPerPlace(all) && Excerpt(part, all, true, block, block)
    requires SpanRight(row, w, all) && OwnLeast(row.evidence, w, all) && BeatsAmm(row.evidence, w, all)
    requires SpanRight(candidate, w, part) && Least(candidate.evidence, w, part)
    ensures row.first == block ==> Least(Corrected(row, candidate).evidence, w, all)
    ensures row.first != block ==> Corrected(row, candidate) == row
  {
    var e, c := row.evidence, candidate.evidence;
    assert c in all && FromExchange(c) && c.log.block == block;
    assert SamePlace(e, c) ==> e.log == c.log && FromExchange(e) == FromExchange(c);
    hide FromExchange;
    if row.first == block {
      forall t | t in all && t.wallet == w ensures AtOrBefore(Corrected(row, candidate).evidence, t) {
        if t.log.block == block && FromExchange(t) {
          assert t in part && AtOrBefore(c, t);
        }
      }
    }
  }

  lemma NoExchangeThere(row: Row, w: Address, all: set<Sighting>, part: set<Sighting>, block: nat)
    requires Excerpt(part, all, true, block, block) && SpanRight(row, w, all) && BeatsAmm(row.evidence, w, all)
    requires forall t :: t in part ==> t.wallet != w
    ensures row.first == block ==> Least(row.evidence, w, all)
  {
  }

  /** Only AMM witnesses need the exchange reread: an exchange witness that beats all AMM sightings is least. */
  lemma ExchangeWitnessIsLeast(row: Row, w: Address, all: set<Sighting>)
    requires SpanRight(row, w, all) && OwnLeast(row.evidence, w, all) && BeatsAmm(row.evidence, w, all)
    requires FromExchange(row.evidence)
    ensures Least(row.evidence, w, all)
  {
  }

  lemma MergeStage(stored: Row, excluded: Row, w: Address, a: set<Sighting>, b: set<Sighting>, repair: Repair)
    requires SpanRight(stored, w, a) && SpanRight(excluded, w, b) && Apart(a, b)
    requires Stage(stored, w, a, repair) && Least(excluded.evidence, w, b)
    requires forall t :: t in b ==> t.log.block > Horizon(repair)
    ensures Stage(Merge(stored, excluded), w, a + b, repair)
  {
    hide FromExchange;
    if Least(stored.evidence, w, a) {
      MergeLeast(stored, excluded, w, a, b);
    }
    StageCases(Merge(stored, excluded), w, a + b, repair);
    if stored.first <= Horizon(repair) {
      assert Merge(stored, excluded).evidence == stored.evidence && Merge(stored, excluded).first == stored.first;
      assert OwnLeast(stored.evidence, w, a) ==> OwnLeast(stored.evidence, w, a + b);
      assert BeatsAmm(stored.evidence, w, a) ==> BeatsAmm(stored.evidence, w, a + b);
    } else {
      assert Least(stored.evidence, w, a);
    }
  }

  lemma StageCases(row: Row, w: Address, all: set<Sighting>, repair: Repair)
    ensures Least(row.evidence, w, all) ==> Stage(row, w, all, repair)
  {
  }

  lemma WidenStage(row: Row, w: Address, a: set<Sighting>, b: set<Sighting>, repair: Repair)
    requires Stage(row, w, a, repair) && forall t :: t in b ==> t.wallet != w
    ensures Stage(row, w, a + b, repair)
  {
    hide FromExchange;
    assert OwnLeast(row.evidence, w, a) ==> OwnLeast(row.evidence, w, a + b);
    assert BeatsAmm(row.evidence, w, a) ==> BeatsAmm(row.evidence, w, a + b);
    assert Least(row.evidence, w, a) ==> Least(row.evidence, w, a + b);
  }

  // ---------------------------------------------------------------- one event at a time

  /** A live commit keeps every row's stage: its sightings lie beyond the repaired span. */
  lemma JoinStaged(table: Table, rows: Table, a: set<Sighting>, b: set<Sighting>, repair: Repair)
    requires Staged(table, a, repair) && Faithful(rows, b) && Apart(a, b)
    requires forall t :: t in b ==> t.log.block > Horizon(repair)
    ensures Staged(Join(table, rows), a + b, repair)
  {
    LegacyFreeSpans(table, rows, a, b);
    forall w | w in Join(table, rows) ensures Stage(Join(table, rows)[w], w, a + b, repair) {
      hide Stage, Merge, SpanRight, Least, Apart;
      if w !in rows {
        assert forall t :: t in b ==> t.wallet != w;
        WidenStage(table[w], w, a, b, repair);
      } else if w !in table {
        assert forall t :: t in a ==> t.wallet != w;
        WidenLeast(rows[w].evidence, w, a, b);
        StageCases(rows[w], w, a + b, repair);
      } else {
        MergeStage(table[w], rows[w], w, a, b, repair);
      }
    }
  }

  lemma WidenLeast(e: Sighting, w: Address, a: set<Sighting>, b: set<Sighting>)
    requires Least(e, w, b) && forall t :: t in a ==> t.wallet != w
    ensures Least(e, w, a + b)
  {
  }

  lemma LegacyFreeSpans(table: Table, rows: Table, a: set<Sighting>, b: set<Sighting>)
    requires SpansRight(table, a) && Faithful(rows, b)
    ensures SpansRight(Join(table, rows), a + b)
  {
    JoinKeys(table, rows, a, b);
    hide KeysRight, SpanRight, Least;
    forall w | w in Join(table, rows) ensures SpanRight(Join(table, rows)[w], w, a + b) {
      JoinSpan(table, rows, a, b, w);
    }
  }

  lemma StagedTradeCommit(chain: set<Log>, db: Db, stream: Stream, end: nat, window: nat, request: nat, returned: nat,
                          logs: seq<Log>, repair: Repair)
    requires ChainOk(chain) && PoolsApart(chain) && (forall s: Stream :: s in db.streams) && !stream.Factory?
    requires Staged(db.wallets, AllSeen(chain, db), repair) && Horizon(repair) < db.streams[stream].next
    requires db.streams[stream].start <= db.streams[stream].next <= end
    requires Honest(chain, stream, db.streams[stream].next, end, logs)
    requires Commit(db, stream, db.streams[stream].next, end, window, request, returned, logs).Ok?
    ensures var after := Commit(db, stream, db.streams[stream].next, end, window, request, returned, logs).value;
      after.pools == db.pools && Staged(after.wallets, AllSeen(chain, after), repair)
  {
    var after := Commit(db, stream, db.streams[stream].next, end, window, request, returned, logs).value;
    var batch := ReadLogs(stream, db.pools, logs).value;
    TradeBatchOrdered(chain, stream, db.streams[stream].next, end, logs);
    TradeBatch(stream, db.pools, logs);
    assert after.pools == db.pools && after.wallets == Join(db.wallets, Observe(batch.sightings));
    var part := Seen(LogSet(logs), stream, db.pools);
    forall t | t in part ensures t.log.block > Horizon(repair) {
      hide Commit, AllSeen, Staged, Observe, Join, ReadLogs, ChainOk, PoolsApart, Seen, LogSightings, Selected;
      SeenFrom(LogSet(logs), stream, db.pools, t);
    }
    hide Commit, Seen, Covered, AllSeen, Faithful, Staged, Observe, Join, ReadLogs, ChainOk, PoolsApart, Honest,
         Apart, InOrder, Horizon;
    ObserveFaithful(batch.sightings);
    NewSightingsApart(chain, db, stream, end, logs);
    JoinStaged(db.wallets, Observe(batch.sightings), AllSeen(chain, db), part, repair);
    CommitMoves(db, stream, end, window, request, returned, logs);
    AllSeenGrows(chain, db, after, stream, end, window, logs);
  }

  lemma CommitKeepsStages(chain: set<Log>, maxBlocks: nat, world: World, stream: Stream, start: nat, end: nat,
                          window: nat,
                          request: nat, returned: nat, logs: seq<Log>)
    requires ChainOk(chain) && PoolsApart(chain) && RepairInv(chain, maxBlocks, world)
    requires start <= end && 1 <= window <= maxBlocks && Honest(chain, stream, start, end, logs)
    requires Commit(world.db, stream, start, end, window, request, returned, logs).Ok?
    ensures RepairInv(chain, maxBlocks, world.(db := Commit(world.db, stream, start, end, window, request, returned,
      logs).value))
  {
    hide Commit, AllSeen, Covered, Staged, Honest, ChainOk, PoolsApart, PoolsFrom, Tiled;
    var db := world.db;
    CommitAdmitted(db, stream, start, end, window, request, returned, logs);
    CommitMoves(db, stream, end, window, request, returned, logs);
    var after := Commit(db, stream, start, end, window, request, returned, logs).value;
    AdvanceKeepsTiling(maxBlocks, db, after, stream, end, window);
    if stream.Factory? {
      FactoryCommit(chain, db, end, window, request, returned, logs);
    } else {
      StagedTradeCommit(chain, db, stream, end, window, request, returned, logs, world.repair);
    }
    SpanStaysScanned(maxBlocks, db, after, stream, world.repair);
  }

  lemma SpanStaysScanned(maxBlocks: nat, db: Db, after: Db, stream: Stream, repair: Repair)
    requires (forall s: Stream :: s in db.streams) && SpanScanned(db, maxBlocks, repair)
    requires db.streams[Amm].start <= db.streams[Exchange].start
    requires forall s: Stream :: s in after.streams
    requires forall s: Stream ::
      after.streams[s].start == db.streams[s].start
      && after.streams[s].next >= db.streams[s].next
    ensures SpanScanned(after, maxBlocks, repair) && after.streams[Amm].start <= after.streams[Exchange].start
  {
  }

  lemma CollectKeepsStages(chain: set<Log>, maxBlocks: nat, world: World, step: Step)
    requires ChainOk(chain) && PoolsApart(chain) && RepairInv(chain, maxBlocks, world) && StepOk(chain, maxBlocks, step)
    ensures RepairInv(chain, maxBlocks, Happen(world, Collect(step)))
  {
    hide RepairInv, Commit, ChainOk, PoolsApart;
    match step {
      case TryCommit(stream, start, end, window, request, returned, logs) =>
        if Commit(world.db, stream, start, end, window, request, returned, logs).Ok? {
          CommitKeepsStages(chain, maxBlocks, world, stream, start, end, window, request, returned, logs);
        }
      case Shrink(stream, start, window) => ShrinkKeepsStages(chain, maxBlocks, world, stream, start, window);
      case Nothing =>
    }
  }

  lemma ShrinkKeepsStages(chain: set<Log>, maxBlocks: nat, world: World, stream: Stream, start: nat, window: nat)
    requires RepairInv(chain, maxBlocks, world) && 1 <= window <= maxBlocks
    ensures RepairInv(chain, maxBlocks, Happen(world, Collect(Shrink(stream, start, window))))
  {
    var db := world.db;
    var after := db.(streams := SetWindow(db.streams, stream, start, window));
    hide Selected, Staged, PoolsFrom, Seen;
    forall s: Stream ensures Covered(chain, s, after.streams[s]) == Covered(chain, s, db.streams[s]) {
    }
    SpanStaysScanned(maxBlocks, db, after, stream, world.repair);
  }

  lemma CorrectSpans(table: Table, rows: Table, all: set<Sighting>, part: set<Sighting>)
    requires SpansRight(table, all) && Faithful(rows, part) && part <= all
    ensures SpansRight(Correct(table, rows), all)
  {
    assert KeysRight(Correct(table, rows), all);
    forall w | w in Correct(table, rows) ensures SpanRight(Correct(table, rows)[w], w, all) {
      hide SpanRight, KeysRight, Corrected, Least;
      if w in rows {
        CorrectedSpan(table[w], rows[w], w, all, part);
      }
    }
  }

  lemma AmmRereadStage(row: Row, rows: Table, w: Address, all: set<Sighting>, part: set<Sighting>,
                       repair: Repair, end: nat, nextWindow: nat)
    requires repair.AmmPhase? && repair.window >= 1 && repair.next <= repair.upper
    requires end == Min(repair.next + repair.window - 1, repair.upper)
    requires OneLogPerPlace(all) && Excerpt(part, all, false, repair.next, end) && Faithful(rows, part)
    requires SpanRight(row, w, all) && Stage(row, w, all, repair)
    ensures Stage(if w in rows then Corrected(row, rows[w]) else row, w, all, Advanced(repair, nextWindow))
  {
    hide FromExchange, SpanRight, Least, OwnLeast, BeatsAmm, OneLogPerPlace, Excerpt;
    var after := if w in rows then Corrected(row, rows[w]) else row;
    assert w !in rows ==> forall t :: t in part ==> t.wallet != w;
    assert part <= all by { PartOf(part, all, false, repair.next, end); }
    if repair.lower <= row.first <= repair.upper {
      if w in rows {
        AmmCorrected(row, rows[w], w, all, part, repair.next, end);
      } else {
        NoAmmThere(row, w, all, part, repair.next, end);
      }
    } else if w in rows {
      CorrectedKeepsLeast(row, rows[w], w, all, part);
    }
  }

  lemma PartOf(part: set<Sighting>, all: set<Sighting>, exchange: bool, start: nat, end: nat)
    requires Excerpt(part, all, exchange, start, end)
    ensures part <= all
  {
  }

  lemma ExchangeRereadStage(row: Row, rows: Table, w: Address, all: set<Sighting>, part: set<Sighting>,
                            repair: Repair, nextWindow: nat)
    requires repair.ExchangePhase? && repair.index < |repair.blocks|
    requires OneLogPerPlace(all) && Excerpt(part, all, true, repair.blocks[repair.index], repair.blocks[repair.index])
    requires SpanRight(row, w, all) && Faithful(rows, part) && Stage(row, w, all, repair)
    ensures Stage(if w in rows then Corrected(row, rows[w]) else row, w, all, Advanced(repair, nextWindow))
  {
    hide FromExchange, SpanRight, Least, OwnLeast, BeatsAmm, OneLogPerPlace, Excerpt;
    var block := repair.blocks[repair.index];
    assert w !in rows ==> forall t :: t in part ==> t.wallet != w;
    assert part <= all by { PartOf(part, all, true, block, block); }
    if Least(row.evidence, w, all) {
      if w in rows {
        CorrectedKeepsLeast(row, rows[w], w, all, part);
      }
    } else {
      assert repair.blocks[repair.index..] == [block] + repair.blocks[repair.index + 1..];
      if w in rows {
        ExchangeCorrected(row, rows[w], w, all, part, block);
      } else {
        NoExchangeThere(row, w, all, part, block);
      }
    }
  }

  lemma RereadWorld(world: World, logs: seq<Log>, nextWindow: nat)
    requires Query(world.repair).Some? && ReadLogs(Query(world.repair).value.0, world.db.pools, logs).Ok?
    ensures var rows := Observe(ReadLogs(Query(world.repair).value.0, world.db.pools, logs).value.sightings);
      Happen(world, Reread(logs, nextWindow))
        == World(world.db.(wallets := Correct(world.db.wallets, rows)), Advanced(world.repair, nextWindow))
  {
    hide ReadLogs, Observe, Correct, Advanced;
  }

  lemma QueryScanned(db: Db, maxBlocks: nat, repair: Repair, nextWindow: nat)
    requires (forall s: Stream :: s in db.streams) && db.streams[Amm].start <= db.streams[Exchange].start
    requires SpanScanned(db, maxBlocks, repair) && Query(repair).Some? && 1 <= nextWindow <= maxBlocks
    ensures var (stream, start, end) := Query(repair).value;
      !stream.Factory? && db.streams[stream].start <= start <= end < db.streams[stream].next
    ensures SpanScanned(db, maxBlocks, Advanced(repair, nextWindow))
  {
  }

  lemma RereadKeepsStages(chain: set<Log>, maxBlocks: nat, world: World, logs: seq<Log>, nextWindow: nat)
    requires ChainOk(chain) && PoolsApart(chain) && RepairInv(chain, maxBlocks, world)
    requires EventOk(chain, maxBlocks, world, Reread(logs, nextWindow))
    requires Query(world.repair).Some? && ReadLogs(Query(world.repair).value.0, world.db.pools, logs).Ok?
    ensures RepairInv(chain, maxBlocks, Happen(world, Reread(logs, nextWindow)))
  {
    var db := world.db;
    var (stream, start, end) := Query(world.repair).value;
    var all, part := AllSeen(chain, db), Seen(LogSet(logs), stream, db.pools);
    var batch := ReadLogs(stream, db.pools, logs).value;
    RereadWorld(world, logs, nextWindow);
    QueryScanned(db, maxBlocks, world.repair, nextWindow);
    TradeBatchOrdered(chain, stream, start, end, logs);
    TradeBatch(stream, db.pools, logs);
    hide ReadLogs, Observe, Seen, ChainOk, PoolsApart, Honest, PoolsFrom, AllSeen, OneLogPerPlace, Happen, InOrder,
         SpanScanned, Query,
         Advanced, Correct, Staged, Excerpt, Faithful, Covered, Tiled;
    RereadShows(chain, db, stream, start, end, logs);
    ScannedPlaces(chain, db);
    ObserveFaithful(batch.sightings);
    SameScan(chain, db, Happen(world, Reread(logs, nextWindow)).db);
    CorrectStaged(db.wallets, Observe(batch.sightings), all, part, world.repair, nextWindow);
    RereadKeepsTables(chain, maxBlocks, db, db.(wallets := Correct(db.wallets, Observe(batch.sightings))),
                      Advanced(world.repair, nextWindow));
  }

  lemma RereadKeepsTables(chain: set<Log>, maxBlocks: nat, db: Db, after: Db, repair: Repair)
    requires StreamsOk(db, maxBlocks) && Tiled(db) && PoolsRight(chain, db) && SpanScanned(db, maxBlocks, repair)
    requires after == db.(wallets := after.wallets)
    ensures StreamsOk(after, maxBlocks) && Tiled(after) && PoolsRight(chain, after)
    ensures SpanScanned(after, maxBlocks, repair)
  {
    hide PoolsFrom, Covered;
  }

  lemma CorrectStaged(table: Table, rows: Table, all: set<Sighting>, part: set<Sighting>, repair: Repair,
                      nextWindow: nat)
    requires Staged(table, all, repair) && OneLogPerPlace(all) && Faithful(rows, part) && Query(repair).Some?
    requires var (stream, start, end) := Query(repair).value;
      start <= end && Excerpt(part, all, stream.Exchange?, start, end)
    ensures Staged(Correct(table, rows), all, Advanced(repair, nextWindow))
  {
    var (stream, start, end) := Query(repair).value;
    PartOf(part, all, stream.Exchange?, start, end);
    CorrectSpans(table, rows, all, part);
    forall w | w in Correct(table, rows) ensures Stage(Correct(table, rows)[w], w, all, Advanced(repair, nextWindow)) {
      hide Stage, Corrected, SpanRight, Excerpt, OneLogPerPlace, Faithful;
      if repair.AmmPhase? {
        AmmRereadStage(table[w], rows, w, all, part, repair, end, nextWindow);
      } else {
        ExchangeRereadStage(table[w], rows, w, all, part, repair, nextWindow);
      }
    }
  }

  lemma {:induction false} AscendingHolds(blocks: set<nat>, lower: nat, upper: nat)
    ensures forall b :: b in Ascending(blocks, lower, upper) <==> b in blocks && lower <= b <= upper
    ensures forall i, j :: 0 <= i < j < |Ascending(blocks, lower, upper)| ==>
      Ascending(blocks, lower, upper)[i] < Ascending(blocks, lower, upper)[j]
    decreases upper + 1 - lower
  {
    if lower <= upper {
      AscendingHolds(blocks, lower + 1, upper);
      var rest := Ascending(blocks, lower + 1, upper);
      var head := if lower in blocks then [lower] else [];
      var all := head + rest;
      assert all == Ascending(blocks, lower, upper);
      hide Ascending;
      forall b ensures b in all <==> b in blocks && lower <= b <= upper {
        assert b in all <==> b in head || b in rest;
      }
      forall i, j | 0 <= i < j < |all| ensures all[i] < all[j] {
        assert all[j] == rest[j - |head|] && rest[j - |head|] in rest;
        assert i < |head| || all[i] == rest[i - |head|];
      }
    }
  }

  lemma ListKeepsStages(chain: set<Log>, maxBlocks: nat, world: World)
    requires RepairInv(chain, maxBlocks, world)
    ensures RepairInv(chain, maxBlocks, Happen(world, ListBlocks))
  {
    hide AllSeen, Tiled, PoolsRight, Ascending, AmmWitnessBlocks;
    var all := AllSeen(chain, world.db);
    if world.repair.Listing? {
      var Listing(lower, upper) := world.repair;
      var wanted := AmmWitnessBlocks(world.db.wallets, lower, upper);
      var blocks := Ascending(wanted, lower, upper);
      AscendingHolds(wanted, lower, upper);
      assert forall j :: 0 <= j < |blocks| ==> blocks[j] in blocks;
      forall w | w in world.db.wallets
        ensures Stage(world.db.wallets[w], w, all, ExchangePhase(lower, upper, blocks, 0))
      {
        ListedStage(world.db.wallets, w, all, lower, upper, blocks);
      }
    }
  }

  lemma ListedStage(table: Table, w: Address, all: set<Sighting>, lower: nat, upper: nat, blocks: seq<nat>)
    requires w in table && SpanRight(table[w], w, all) && Stage(table[w], w, all, Listing(lower, upper))
    requires forall b :: b in blocks <==> b in AmmWitnessBlocks(table, lower, upper) && lower <= b <= upper
    ensures Stage(table[w], w, all, ExchangePhase(lower, upper, blocks, 0))
  {
    hide SpanRight, FromExchange, Least, OwnLeast, BeatsAmm;
    assert blocks[0..] == blocks;
    if lower <= table[w].first <= upper {
      if FromExchange(table[w].evidence) {
        ExchangeWitnessIsLeast(table[w], w, all);
      } else {
        assert table[w].first in AmmWitnessBlocks(table, lower, upper);
      }
    }
  }

  lemma {:induction false} RepairKeeps(chain: set<Log>, maxBlocks: nat, world: World, events: seq<Event>)
    requires ChainOk(chain) && PoolsApart(chain) && RepairInv(chain, maxBlocks, world)
    requires EventsOk(chain, maxBlocks, world, events)
    ensures RepairInv(chain, maxBlocks, Unfold(world, events))
  {
    hide RepairInv, ChainOk, PoolsApart, ReadLogs, Apply, Honest;
    if events != [] {
      var n := |events| - 1;
      var before := Unfold(world, events[..n]);
      EventsFront(chain, maxBlocks, world, events);
      RepairKeeps(chain, maxBlocks, world, events[..n]);
      match events[n] {
        case Collect(step) => CollectKeepsStages(chain, maxBlocks, before, step);
        case Reread(logs, nextWindow) =>
          if Query(before.repair).Some? && ReadLogs(Query(before.repair).value.0, before.db.pools, logs).Ok? {
            RereadKeepsStages(chain, maxBlocks, before, logs, nextWindow);
          }
        case Narrow(window) => NarrowKeepsStages(chain, maxBlocks, before, window);
        case ListBlocks => ListKeepsStages(chain, maxBlocks, before);
      }
    }
  }

  lemma EventsFront(chain: set<Log>, maxBlocks: nat, world: World, events: seq<Event>)
    requires EventsOk(chain, maxBlocks, world, events) && events != []
    ensures EventsOk(chain, maxBlocks, world, events[..|events| - 1])
    ensures EventOk(chain, maxBlocks, Unfold(world, events[..|events| - 1]), events[|events| - 1])
  {
    hide EventOk, Unfold;
    var n := |events| - 1;
    forall i | 0 <= i < n ensures EventOk(chain, maxBlocks, Unfold(world, events[..n][..i]), events[..n][i]) {
      assert events[..n][..i] == events[..i];
    }
  }

  lemma NarrowKeepsStages(chain: set<Log>, maxBlocks: nat, world: World, window: nat)
    requires RepairInv(chain, maxBlocks, world) && 1 <= window <= maxBlocks
    ensures RepairInv(chain, maxBlocks, Happen(world, Narrow(window)))
  {
    hide AllSeen, Tiled, PoolsRight, Least, OwnLeast, BeatsAmm, SpanRight;
  }

  // ---------------------------------------------------------------- the repaired registry

  /** Where only one trade stream has scanned a block, its witness is already the least. */
  lemma SingleStreamLeast(chain: set<Log>, maxBlocks: nat, db: Db, w: Address)
    requires ChainOk(chain) && PoolsApart(chain) && LegacyInv(chain, maxBlocks, db) && w in db.wallets
    requires db.wallets[w].first < db.streams[Exchange].start
      || db.wallets[w].first >= db.streams[Amm].next || db.wallets[w].first >= db.streams[Exchange].next
    ensures Least(db.wallets[w].evidence, w, AllSeen(chain, db))
  {
    hide AllSeen, LogSightings, ChainOk, PoolsApart, Tiled, PoolsFrom, Selected, FromExchange;
    var row, all := db.wallets[w], AllSeen(chain, db);
    assert SpanRight(row, w, all) && OwnLeast(row.evidence, w, all);
    var own := ScannedStream(chain, db, row.evidence);
    forall t | t in all && t.wallet == w ensures AtOrBefore(row.evidence, t) {
      var other := ScannedStream(chain, db, t);
      assert row.first <= t.log.block;
    }
  }

  lemma RepairStarts(chain: set<Log>, maxBlocks: nat, db: Db)
    requires ChainOk(chain) && PoolsApart(chain) && LegacyInv(chain, maxBlocks, db) && maxBlocks >= 1
    requires db.streams[Amm].start <= db.streams[Exchange].start
    ensures RepairInv(chain, maxBlocks, World(db, InitialRepair(db, maxBlocks)))
  {
    hide AllSeen, ChainOk, PoolsApart, Tiled, PoolsFrom, OwnLeast, Least, SpanRight, KeysRight;
    var all, repair := AllSeen(chain, db), InitialRepair(db, maxBlocks);
    forall w | w in db.wallets ensures Stage(db.wallets[w], w, all, repair) {
      var first := db.wallets[w].first;
      if first < db.streams[Exchange].start || first >= db.streams[Amm].next || first >= db.streams[Exchange].next {
        SingleStreamLeast(chain, maxBlocks, db, w);
      }
    }
  }

  /**
   * The repair brings a registry written by the older collector to the current rule: when it is done,
   * the tables equal those of a fresh run of the current collector at the same positions.
   */
  lemma RepairConverges(chain: set<Log>, starts: map<Stream, nat>, m1: nat, m2: nat,
                        legacy: seq<Step>, events: seq<Event>, current: seq<Step>)
    requires ChainOk(chain) && PoolsApart(chain) && ConfigOk(starts, m1) && ConfigOk(starts, m2)
    requires starts[Amm] <= starts[Exchange]
    requires forall i :: 0 <= i < |legacy| ==> StepOk(chain, m1, legacy[i])
    requires forall i :: 0 <= i < |current| ==> StepOk(chain, m2, current[i])
    requires var db := LegacyRun(Initial(starts, m1), legacy);
      && (forall s: Stream :: s in db.streams)
      && var world := World(db, InitialRepair(db, m1));
         EventsOk(chain, m1, world, events)
         && (Unfold(world, events).repair.NotNeeded? || Unfold(world, events).repair.Complete?)
         && forall s: Stream ::
              s in Unfold(world, events).db.streams && s in Run(Initial(starts, m2), current).streams ==>
              Unfold(world, events).db.streams[s].next == Run(Initial(starts, m2), current).streams[s].next
    ensures var db := LegacyRun(Initial(starts, m1), legacy);
      var repaired := Unfold(World(db, InitialRepair(db, m1)), events).db;
      repaired.wallets == Run(Initial(starts, m2), current).wallets
        && repaired.pools == Run(Initial(starts, m2), current).pools
  {
    var db := LegacyRun(Initial(starts, m1), legacy);
    var world := World(db, InitialRepair(db, m1));
    LegacyInitial(chain, starts, m1);
    LegacyRunKeeps(chain, m1, Initial(starts, m1), legacy);
    LegacyStartsFixed(Initial(starts, m1), legacy);
    InitialInv(chain, starts, m2);
    RunKeeps(chain, m2, Initial(starts, m2), current);
    StartsFixed(Initial(starts, m2), current);
    hide LegacyRun, Run, ChainOk, PoolsApart, AllSeen, Faithful, LegacyFaithful, PoolsRight, Tiled, EventsOk;
    RepairStarts(chain, m1, db);
    RepairKeeps(chain, m1, world, events);
    RepairStartsFixed(world, events);
    SettledIsFaithful(chain, m1, Unfold(world, events));
    PositionsDetermine(chain, m1, m2, Unfold(world, events).db, Run(Initial(starts, m2), current));
  }

  lemma SettledIsFaithful(chain: set<Log>, maxBlocks: nat, world: World)
    requires RepairInv(chain, maxBlocks, world) && (world.repair.NotNeeded? || world.repair.Complete?)
    ensures Inv(chain, maxBlocks, world.db)
  {
    hide AllSeen, Tiled, PoolsRight, Least, SpanRight, KeysRight;
  }

  lemma {:induction false} LegacyStartsFixed(db: Db, steps: seq<Step>)
    requires forall s: Stream :: s in db.streams
    ensures forall s: Stream ::
      s in LegacyRun(db, steps).streams
      && LegacyRun(db, steps).streams[s].start == db.streams[s].start
  {
    if steps != [] {
      LegacyStartsFixed(db, steps[..|steps| - 1]);
      hide ReadLogs, AddPools, Observe, Join, LegacyJoin;
    }
  }

  lemma {:induction false} RepairStartsFixed(world: World, events: seq<Event>)
    requires forall s: Stream :: s in world.db.streams
    ensures forall s: Stream :: s in Unfold(world, events).db.streams
    ensures forall s: Stream :: Unfold(world, events).db.streams[s].start == world.db.streams[s].start
  {
    if events != [] {
      var n := |events| - 1;
      RepairStartsFixed(world, events[..n]);
      var before := Unfold(world, events[..n]);
      match events[n] {
        case Collect(step) =>
          assert [step][..0] == [];
          StartsFixed(before.db, [step]);
        case _ => hide ReadLogs, Correct, Ascending, AmmWitnessBlocks;
      }
    }
  }

  // ---------------------------------------------------------------- termination

  /** An upper bound on the steps the repair still takes. */
  function Measure(repair: Repair, maxBlocks: nat): nat {
    match repair
    case AmmPhase(lower, upper, next, window) =>
      Max(0, upper + 1 - next) * (maxBlocks + 1) + window + Max(0, upper + 1 - lower) + 2
    case Listing(lower, upper) => Max(0, upper + 1 - lower) + 2
    case ExchangePhase(_, _, blocks, index) => Max(0, |blocks| - index) + 1
    case _ => 0
  }

  /** The event is the repair's own answered step: a decodable reread, a smaller window, or the listing. */
  predicate OwnStep(world: World, event: Event) {
    match event
    case Collect(_) => false
    case Reread(logs, _) =>
      Query(world.repair).Some? && ReadLogs(Query(world.repair).value.0, world.db.pools, logs).Ok?
    case Narrow(window) => world.repair.AmmPhase? && window < world.repair.window
    case ListBlocks =>
      world.repair.Listing? || (world.repair.ExchangePhase? && world.repair.index >= |world.repair.blocks|)
  }

  predicate Settled(repair: Repair) {
    repair.NotNeeded? || repair.Complete?
  }

  lemma {:induction false} AscendingLength(blocks: set<nat>, lower: nat, upper: nat)
    ensures |Ascending(blocks, lower, upper)| <= Max(0, upper + 1 - lower)
    decreases upper + 1 - lower
  {
    if lower <= upper {
      AscendingLength(blocks, lower + 1, upper);
    }
  }

  lemma AmmRereadMeasure(repair: Repair, maxBlocks: nat, nextWindow: nat)
    requires repair.AmmPhase? && repair.lower <= repair.next <= repair.upper && 1 <= repair.window <= maxBlocks
    requires nextWindow <= maxBlocks
    ensures Measure(Advanced(repair, nextWindow), maxBlocks) < Measure(repair, maxBlocks)
  {
    var end := Min(repair.next + repair.window - 1, repair.upper);
    var left, left' := repair.upper + 1 - repair.next, repair.upper - end;
    if end < repair.upper {
      assert left' * (maxBlocks + 1) + (left - left') * (maxBlocks + 1) == left * (maxBlocks + 1);
      assert (left - left') * (maxBlocks + 1) >= maxBlocks + 1;
    } else {
      assert left * (maxBlocks + 1) >= 0;
    }
  }

  /** Every answered repair step decreases the bound, and every other event leaves the repair alone. */
  lemma RepairProgress(chain: set<Log>, maxBlocks: nat, world: World, event: Event)
    requires (forall s: Stream :: s in world.db.streams) && SpanScanned(world.db, maxBlocks, world.repair)
    requires EventOk(chain, maxBlocks, world, event)
    ensures
      if OwnStep(world, event) then Measure(Happen(world, event).repair, maxBlocks) < Measure(world.repair, maxBlocks)
      else Happen(world, event).repair == world.repair
  {
    hide ReadLogs, Correct, Ascending, AmmWitnessBlocks, Observe, Honest, StepOk;
    if OwnStep(world, event) {
      match event {
        case Reread(logs, nextWindow) =>
          if world.repair.AmmPhase? {
            AmmRereadMeasure(world.repair, maxBlocks, nextWindow);
          }
        case Narrow(_) =>
        case ListBlocks =>
          if world.repair.Listing? {
            var (lower, upper) := (world.repair.lower, world.repair.upper);
            AscendingLength(AmmWitnessBlocks(world.db.wallets, lower, upper), lower, upper);
          }
      }
    }
  }

  /** The repair's own steps in a run. */
  function OwnSteps(world: World, events: seq<Event>): nat {
    if events == [] then 0
    else
      var front := events[..|events| - 1];
      OwnSteps(world, front) + if OwnStep(Unfold(world, front), events[|events| - 1]) then 1 else 0
  }

  /**
   * In no run, however live commits come between, does the repair take more steps than the bound of the state
   * it started in; after that many it is settled. Until it is settled there is always a next request or listing.
   */
  lemma {:induction false} RepairEnds(chain: set<Log>, maxBlocks: nat, world: World, events: seq<Event>)
    requires ChainOk(chain) && PoolsApart(chain) && RepairInv(chain, maxBlocks, world)
    requires EventsOk(chain, maxBlocks, world, events)
    ensures OwnSteps(world, events)
      + Measure(Unfold(world, events).repair, maxBlocks) <= Measure(world.repair, maxBlocks)
    ensures OwnSteps(world, events) == Measure(world.repair, maxBlocks) ==> Settled(Unfold(world, events).repair)
    ensures
      var now := Unfold(world, events);
      Settled(now.repair) || Query(now.repair).Some? || OwnStep(now, ListBlocks)
  {
    hide ChainOk, PoolsApart, Tiled, PoolsRight, Staged, OwnStep, Happen, EventOk;
    if events != [] {
      var n := |events| - 1;
      EventsFront(chain, maxBlocks, world, events);
      RepairEnds(chain, maxBlocks, world, events[..n]);
      RepairKeeps(chain, maxBlocks, world, events[..n]);
      RepairProgress(chain, maxBlocks, Unfold(world, events[..n]), events[n]);
    }
    RepairKeeps(chain, maxBlocks, world, events);
    NextStep(Unfold(world, events), maxBlocks);
  }

  lemma NextStep(world: World, maxBlocks: nat)
    requires (forall s: Stream :: s in world.db.streams) && SpanScanned(world.db, maxBlocks, world.repair)
    ensures Settled(world.repair) || Query(world.repair).Some? || OwnStep(world, ListBlocks)
    ensures Measure(world.repair, maxBlocks) == 0 ==> Settled(world.repair)
  {
  }

  // ---------------------------------------------------------------- the repair object

  function Rewrite(table: Table, updates: seq<(Address, Sighting)>): Table {
    if updates == [] then table
    else
      var (w, e) := updates[|updates| - 1];
      var before := Rewrite(table, updates[..|updates| - 1]);
      if w in before then before[w := before[w].(evidence := e)] else before
  }

  lemma CorrectOneMore(table: Table, rows: Table, ws: set<Address>, w: Address)
    requires w in rows && w !in ws
    ensures Correct(table, Only(rows, ws + {w})) ==
      var before := Correct(table, Only(rows, ws));
      if w in table then before[w := Corrected(table[w], rows[w])] else before
    ensures w in table ==> w in Correct(table, Only(rows, ws)) && Correct(table, Only(rows, ws))[w] == table[w]
  {
  }

  lemma SelectStep(table: Table, rows: Table, updates: seq<(Address, Sighting)>, ws: set<Address>, w: Address)
    requires Rewrite(table, updates) == Correct(table, Only(rows, ws)) && w in rows && w !in ws
    ensures Rewrite(table, if w in table && Precedes(rows[w], table[w]) then updates + [(w, rows[w].evidence)]
      else updates)
         == Correct(table, Only(rows, ws + {w}))
  {
    CorrectOneMore(table, rows, ws, w);
    hide Correct, Only;
    assert (updates + [(w, rows[w].evidence)])[..|updates|] == updates;
    if w in table {
      var before := Correct(table, Only(rows, ws));
      assert before[w := before[w]] == before;
    }
  }

  /** The updates one batch of candidates calls for. */
  method SelectBatch(table: Table, rows: Table, batch: seq<Address>, earlier: seq<(Address, Sighting)>,
                     ghost done: set<Address>)
      returns (updates: seq<(Address, Sighting)>)
    requires Distinct(batch) && forall i :: 0 <= i < |batch| ==> batch[i] in rows && batch[i] !in done
    requires Rewrite(table, earlier) == Correct(table, Only(rows, done))
    ensures Rewrite(table, updates) == Correct(table, Only(rows, done + Among(batch)))
  {
    updates := earlier;
    assert done + Among(batch[..0]) == done;
    assert batch[..|batch|] == batch;
    hide Correct, Only, Among, Rewrite;
    for i := 0 to |batch|
      invariant Rewrite(table, updates) == Correct(table, Only(rows, done + Among(batch[..i])))
    {
      var w := batch[i];
      PrefixGrows(table, batch, i);
      assert done + Among(batch[..i]) + {w} == done + Among(batch[..i + 1]);
      SelectStep(table, rows, updates, done + Among(batch[..i]), w);
      if w in table && Precedes(rows[w], table[w]) {
        updates := updates + [(w, rows[w].evidence)];
      }
    }
  }

  /** Looks wallets up 500 at a time and lists those whose witness a reread log precedes. */
  method SelectUpdates(table: Table, rows: Table, order: seq<Address>) returns (updates: seq<(Address, Sighting)>)
    requires Distinct(order) && forall w :: w in order <==> w in rows
    ensures Rewrite(table, updates) == Correct(table, rows)
  {
    assert Correct(table, Only(rows, Among(order[..0]))) == table;
    assert Only(rows, Among(order)) == rows;
    hide Correct, Only, Among;
    updates := [];
    var offset := 0;
    while offset < |order|
      invariant 0 <= offset <= |order|
      invariant Rewrite(table, updates) == Correct(table, Only(rows, Among(order[..offset])))
    {
      var stop := if offset + 500 <= |order| then offset + 500 else |order|;
      SliceFollows(order, offset, stop);
      updates := SelectBatch(table, rows, order[offset..stop], updates, Among(order[..offset]));
      offset := stop;
    }
    assert order[..offset] == order;
  }

  method RewriteAll(table: Table, updates: seq<(Address, Sighting)>) returns (after: Table)
    ensures after == Rewrite(table, updates)
  {
    after := table;
    for i := 0 to |updates|
      invariant after == Rewrite(table, updates[..i])
    {
      assert updates[..i + 1][..i] == updates[..i];
      var (w, e) := updates[i];
      if w in after {
        after := after[w := after[w].(evidence := e)];
      }
    }
    assert updates[..|updates|] == updates;
  }

  /** Same wallets with the same first and last blocks and roles. */
  ghost predicate OnlyWitnessesDiffer(a: Table, b: Table) {
    a.Keys == b.Keys && forall w :: w in a ==> b[w] == a[w].(evidence := b[w].evidence)
  }

  lemma CorrectKeepsRows(table: Table, rows: Table)
    ensures |Correct(table, rows)| == |table|
    ensures OnlyWitnessesDiffer(table, Correct(table, rows))
  {
    assert Correct(table, rows).Keys == table.Keys;
    assert |table| == |table.Keys| && |Correct(table, rows)| == |Correct(table, rows).Keys|;
  }

  /** What becomes of a query of the repair, given the reply. */
  ghost predicate Requeried(config: Config, reply: Reply, size: nat, window: nat, durable: bool, sound: bool,
                            out: Result<bool, StepError>, done: Event)
  {
    if Refused(config, reply) && size > 1 && durable then
      out == Ok(true) && done == Narrow(Max(1, size / 2))
    else
      && Answered(config, reply, size, durable, out)
      && (out.Ok? ==> done.Reread? && NextWindow(config, window, |done.logs|, done.nextWindow))
      && (sound && durable && reply.Logs? && |reply.result| < config.logCap ==> out == Ok(true))
  }

  /** What one step of the repair comes to, in each of its phases. */
  ghost predicate RepairOutcome(config: Config, provider: Provider, durable: bool, sound: bool, repair: Repair,
                                out: Result<bool, StepError>, done: Event)
  {
    match repair
    case NotNeeded => out == Ok(false)
    case Complete => out == Ok(false)
    case Listing(_, _) =>
      if durable then out == Ok(true) && done == ListBlocks else out == Err(NotCommitted(RolledBack))
    case AmmPhase(lower, upper, next, window) =>
      var end := if next + window - 1 <= upper then next + window - 1 else upper;
      next <= end && Requeried(config, provider(0, Amm, next, end), end - next + 1, window, durable, sound, out, done)
    case ExchangePhase(lower, upper, blocks, index) =>
      if index >= |blocks| then
        if durable then out == Ok(true) && done == ListBlocks else out == Err(NotCommitted(RolledBack))
      else
        var reply := provider(0, Exchange, blocks[index], blocks[index]);
        Requeried(config, reply, 1, 1, durable, sound, out, done)
  }

  /** With a cooperative provider and durable transactions every step over a sound chain succeeds. */
  lemma CooperativeRepair(config: Config, provider: Provider, repair: Repair)
    requires Cooperative(config, provider)
    ensures forall out, done :: RepairOutcome(config, provider, true, true, repair, out, done) ==> out.Ok?
  {
  }

  /** A complete reply from a sound chain is valid and decodes. */
  lemma SoundReply(chain: set<Log>, db: Db, stream: Stream, start: nat, end: nat, raw: seq<Log>)
    requires forall l :: l in raw <==> l in chain && Selected(stream, l) && start <= l.block <= end
    ensures Sound(chain, db) ==> Consistent(raw) && ValidReply(raw, stream, start, end)
    ensures Sound(chain, db) ==>
      forall logs :: StrictlyOrdered(logs) && (forall l :: l in logs <==> l in raw) ==>
        ReadLogs(stream, db.pools, logs).Ok?
  {
    hide Selected, Consistent, StrictlyOrdered, ReadLogs, Canonical, ChainOk, PoolsRight;
    if Sound(chain, db) {
      CompleteReplyValid(chain, stream, start, end, raw);
      forall logs: seq<Log> | forall l :: l in logs <==> l in raw ensures ReadLogs(stream, db.pools, logs).Ok? {
        RangeReads(chain, db, stream, logs);
      }
    }
  }

  ghost predicate ValidReply(raw: seq<Log>, stream: Stream, start: nat, end: nat) {
    forall l :: l in raw ==>
      && !l.removed && start <= l.block <= end && l.topics != [] && l.topics[0] in Topics(stream)
      && (Addresses(stream).Some? ==> l.emitter in Addresses(stream).value)
  }

  class WitnessOrderRepair {
    const store: Store
    const config: Config
    var state: Repair

    constructor (store: Store, config: Config)
      requires StreamsOk(store.Tables(), config.maxBlocks)
      ensures this.store == store && this.config == config && state == InitialRepair(store.Tables(), config.maxBlocks)
      ensures
        var upper := Min(store.streams[Amm].next, store.streams[Exchange].next) - 1;
        var lower := store.streams[Exchange].start;
        state == if lower <= upper && store.wallets != map[] then AmmPhase(lower, upper, lower, config.maxBlocks)
          else NotNeeded
    {
      this.store, this.config := store, config;
      state := InitialRepair(store.Tables(), config.maxBlocks);
    }

    /** Decodes a reread reply, replaces later witnesses and saves the progress with them, atomically. */
    method Apply(stream: Stream, logs: seq<Log>, next: Repair, durable: bool) returns (out: Result<(), StepError>)
      requires store.Valid()
      modifies store, this`state
      ensures store.Valid() && store.requests == old(store.requests) && store.totalsValid == old(store.totalsValid)
      ensures out.Ok? <==> durable && ReadLogs(stream, old(store.pools), logs).Ok?
      ensures out.Err? ==> out.error.NotCommitted?
      ensures out.Err? ==> store.Tables() == old(store.Tables()) && state == old(state)
      ensures out.Ok? ==> state == next
      ensures out.Ok? ==> store.Tables() == old(store.Tables()).(wallets :=
        Correct(old(store.wallets), Observe(ReadLogs(stream, old(store.pools), logs).value.sightings)))
      ensures OnlyWitnessesDiffer(old(store.wallets), store.wallets)
    {
      hide ReadLogs, Observe, Correct, Recount;
      var gathered := Gather(stream, store.pools, logs);
      if gathered.Err? {
        return Err(NotCommitted(gathered.error));
      }
      var (_, rows, order, _) := gathered.value;
      var updates := SelectUpdates(store.wallets, rows, order);
      var table := RewriteAll(store.wallets, updates);
      if !durable {
        return Err(NotCommitted(RolledBack));
      }
      CorrectKeepsRows(store.wallets, rows);
      store.wallets := table;
      state := next;
      out := Ok(());
    }

    /** One repair step; false once there is nothing left to do. A step ends in at most one transaction. */
    method Step(provider: Provider, durable: bool, ghost chain: set<Log>)
        returns (out: Result<bool, StepError>, ghost done: Event)
      requires store.Valid() && StreamsOk(store.Tables(), config.maxBlocks)
      requires SpanScanned(store.Tables(), config.maxBlocks, state) && HonestProvider(chain, config, provider)
      modifies store, this`state
      ensures store.Valid()
      ensures World(store.Tables(), state) == Happen(old(World(store.Tables(), state)), done)
      ensures EventOk(chain, config.maxBlocks, old(World(store.Tables(), state)), done)
      ensures out == Ok(false) <==> old(state).NotNeeded? || old(state).Complete?
      ensures out == Ok(true) ==> OwnStep(old(World(store.Tables(), state)), done)
      ensures out != Ok(true) ==> store.Tables() == old(store.Tables()) && state == old(state)
      ensures RepairOutcome(config, provider, durable, old(Sound(chain, store.Tables())), old(state), out, done)
      ensures old(Sound(chain, store.Tables())) && Cooperative(config, provider) && durable ==> out.Ok?
    {
      if Cooperative(config, provider) && Sound(chain, store.Tables()) && durable {
        CooperativeRepair(config, provider, state);
      }
      hide Cooperative, Sound, Requeried, HonestProvider, EventOk, OwnStep;
      hide ReadLogs, Observe, Correct, Recount, AmmWitnessBlocks;
      done := Collect(Nothing);
      if state.NotNeeded? || state.Complete? {
        return Ok(false), done;
      }
      if state.Listing? || (state.ExchangePhase? && state.index >= |state.blocks|) {
        out, done := NextPhase(durable);
        return;
      }
      var (stream, start, end) := Query(state).value;
      out, done := Ask(stream, start, end, provider, durable, chain);
    }

    /** Lists the blocks to reread, or records that all of them were. */
    method NextPhase(durable: bool) returns (out: Result<bool, StepError>, ghost done: Event)
      requires state.Listing? || (state.ExchangePhase? && state.index >= |state.blocks|)
      modifies this`state
      ensures done == if durable then ListBlocks else Collect(Nothing)
      ensures World(store.Tables(), state) == Happen(old(World(store.Tables(), state)), done)
      ensures out == if durable then Ok(true) else Err(NotCommitted(RolledBack))
    {
      hide Ascending, AmmWitnessBlocks;
      NothingChanges(store.Tables());
      hide RegistryRuns.Apply;
      if !durable {
        return Err(NotCommitted(RolledBack)), Collect(Nothing);
      }
      if state.Listing? {
        var wanted := AmmWitnessBlocks(store.wallets, state.lower, state.upper);
        state := ExchangePhase(state.lower, state.upper, Ascending(wanted, state.lower, state.upper), 0);
      } else {
        state := Complete;
      }
      out, done := Ok(true), ListBlocks;
    }

    /** Puts the next query to the provider: a refused range is narrowed, a complete reply is taken. */
    method Ask(stream: Stream, start: nat, end: nat, provider: Provider, durable: bool, ghost chain: set<Log>)
        returns (out: Result<bool, StepError>, ghost done: Event)
      requires store.Valid() && Query(state) == Some((stream, start, end)) && start <= end
      requires state.ExchangePhase? ==> start == end
      requires state.AmmPhase? ==> 1 <= state.window <= config.maxBlocks && end - start < state.window
      requires 1 <= config.maxBlocks && HonestProvider(chain, config, provider)
      modifies store, this`state
      ensures store.Valid()
      ensures World(store.Tables(), state) == Happen(old(World(store.Tables(), state)), done)
      ensures EventOk(chain, config.maxBlocks, old(World(store.Tables(), state)), done)
      ensures out == Ok(true) ==> OwnStep(old(World(store.Tables(), state)), done)
      ensures out != Ok(true) ==> store.Tables() == old(store.Tables()) && state == old(state)
      ensures out != Ok(false)
      ensures Requeried(config, provider(0, stream, start, end), end - start + 1, old(WindowInUse(state)), durable,
                        old(Sound(chain, store.Tables())), out, done)
    {
      hide ReadLogs, Observe, Correct, Recount, Honest, Selected, Sound, NextWindow;
      done := Collect(Nothing);
      NothingChanges(store.Tables());
      var reply := provider(0, stream, start, end);
      var id := store.RecordRequest(true);
      var fatal := Fatal(config, reply, end == start);
      if fatal.Some? {
        return Err(fatal.value), done;
      }
      if reply.RangeLimit? || |reply.result| >= config.logCap {
        if !durable {
          return Err(NotCommitted(RolledBack)), done;
        }
        var half: nat := Max(1, (end - start + 1) / 2);
        state := state.(window := half);
        done := Narrow(half);
        return Ok(true), done;
      }
      HonestReply(chain, config, provider, 0, stream, start, end);
      out, done := TakeReply(stream, start, end, reply.result, durable, chain);
    }

    /** Validates a complete reply and corrects the witnesses it precedes. */
    method TakeReply(stream: Stream, start: nat, end: nat, result: seq<Log>, durable: bool, ghost chain: set<Log>)
        returns (out: Result<bool, StepError>, ghost done: Event)
      requires store.Valid() && Query(state) == Some((stream, start, end)) && start <= end
      requires (state.AmmPhase? ==> 1 <= state.window <= config.maxBlocks) && 1 <= config.maxBlocks
      requires forall l :: l in result <==> l in chain && Selected(stream, l) && start <= l.block <= end
      modifies store, this`state
      ensures store.Valid()
      ensures World(store.Tables(), state) == Happen(old(World(store.Tables(), state)), done)
      ensures EventOk(chain, config.maxBlocks, old(World(store.Tables(), state)), done)
      ensures out.Ok? ==> out.value && durable && OwnStep(old(World(store.Tables(), state)), done) && done.Reread?
      ensures out.Ok? ==> NextWindow(config, old(WindowInUse(state)), |done.logs|, done.nextWindow)
      ensures out.Err? ==> store.Tables() == old(store.Tables()) && state == old(state)
      ensures out.Err? ==> out.error.Invalid? || out.error.NotCommitted?
      ensures old(Sound(chain, store.Tables())) && durable ==> out.Ok?
    {
      SoundReply(chain, store.Tables(), stream, start, end, result);
      hide ReadLogs, Observe, Correct, Recount, Honest, Selected, Consistent, Sound;
      done := Collect(Nothing);
      NothingChanges(store.Tables());
      var logs := ValidateLogs(result, start, end, Topics(stream), Addresses(stream));
      if logs.Err? {
        return Err(Invalid(logs.error)), done;
      }
      ValidatedHonest(chain, stream, start, end, result, logs.value);
      var window := WindowInUse(state);
      var nextWindow: nat := if |logs.value| < config.logCap / 4 then Min(config.maxBlocks, window * 2) else window;
      var applied := Apply(stream, logs.value, Advanced(state, nextWindow), durable);
      if applied.Err? {
        return Err(applied.error), done;
      }
      done := Reread(logs.value, nextWindow);
      out := Ok(true);
    }
  }

  /** The window of the reread: single blocks in the exchange phase. */
  function WindowInUse(repair: Repair): nat {
    if repair.AmmPhase? then repair.window else 1
  }
}
