/**
 * Runs of the collector over one fixed chain. Whatever the windows, the interleaving of the streams
 * and the failures in between, the tables depend only on how far each stream has advanced.
 */
module RegistryRuns {
  import opened Outcomes
  import opened EthLogs
  import opened WalletTable
  import opened Registry

  // ---------------------------------------------------------------- the chain and its replies

  /** The address and topic filter of a stream's `eth_getLogs` query. */
  ghost predicate Selected(stream: Stream, l: Log) {
    && l.topics != []
    && match stream
       case Factory => l.topics[0] == CREATION && l.emitter == FACTORY
       case Amm => l.topics[0] == BUY || l.topics[0] == SELL
       case Exchange => (l.topics[0] == FILLED_V1 || l.topics[0] == FILLED_V2) && l.emitter in EXCHANGES
  }

  /** The pool a factory log announces, if it announces one for this CTF. */
  ghost function Created(l: Log): Option<Pool> {
    match DecodePool(l)
    case Ok(found) => found
    case Err(_) => None
  }

  ghost predicate Announces(l: Log, pool: Pool) {
    Selected(Factory, l) && Created(l) == Some(pool)
  }

  /**
   * What the blockchain guarantees: a place holds one log, and a pool emits no trade before the block
   * that created it.
   */
  ghost predicate ChainOk(chain: set<Log>) {
    && (forall l, m :: l in chain && m in chain && l.block == m.block && l.index == m.index ==> l == m)
    && (forall l, m, pool ::
      l in chain && m in chain && Announces(l, pool) && Selected(Amm, m) && m.emitter == pool.address
      ==> l.block <= m.block)
  }

  /** A validated reply that omits nothing: exactly the chain's logs the query selects, in chain order. */
  ghost predicate Honest(chain: set<Log>, stream: Stream, start: nat, end: nat, logs: seq<Log>) {
    && StrictlyOrdered(logs)
    && forall l :: l in logs <==> l in chain && Selected(stream, l) && start <= l.block <= end
  }

  ghost function Covered(chain: set<Log>, stream: Stream, row: StreamRow): set<Log> {
    set l | l in chain && Selected(stream, l) && row.start <= l.block < row.next
  }

  ghost function LogSightings(stream: Stream, pools: Pools, l: Log): seq<Sighting> {
    var pool := PoolFor(stream, pools, l);
    match DecodeTraders(l, pool)
    case Ok(traders) => SightingsOf(l, pool, traders)
    case Err(_) => []
  }

  ghost function Seen(logs: set<Log>, stream: Stream, pools: Pools): set<Sighting> {
    set l, s | l in logs && s in LogSightings(stream, pools, l) :: s
  }

  /** Every sighting in the blocks the two trade streams have scanned. */
  ghost function AllSeen(chain: set<Log>, db: Db): set<Sighting>
    requires Amm in db.streams && Exchange in db.streams
  {
    Seen(Covered(chain, Amm, db.streams[Amm]), Amm, db.pools)
    + Seen(Covered(chain, Exchange, db.streams[Exchange]), Exchange, db.pools)
  }

  // ---------------------------------------------------------------- invariant of every run

  ghost predicate StreamsOk(db: Db, maxBlocks: nat) {
    && (forall s: Stream :: s in db.streams)
    && (forall s :: s in db.streams ==>
          1 <= db.streams[s].window <= maxBlocks && db.streams[s].start <= db.streams[s].next)
    && db.streams[Amm].next <= db.streams[Factory].next
  }

  /** The block after the last of the stream's ranges, if in commit order they follow one another from `start`. */
  function TileEnd(ranges: seq<Range>, stream: Stream, start: nat): Option<nat> {
    if ranges == [] then Some(start)
    else
      var prior, last := TileEnd(ranges[..|ranges| - 1], stream, start), ranges[|ranges| - 1];
      if last.stream != stream then prior
      else if prior == Some(last.start) && last.start <= last.end then Some(last.end + 1)
      else None
  }

  ghost predicate Tiled(db: Db) {
    forall s :: s in db.streams ==> TileEnd(db.ranges, s, db.streams[s].start) == Some(db.streams[s].next)
  }

  /** The pools table holds exactly the pools announced in the given logs. */
  ghost predicate PoolsFrom(scanned: set<Log>, pools: Pools) {
    && (forall l, pool :: l in scanned && Announces(l, pool) ==> pool.address in pools && pools[pool.address] == pool)
    && (forall a :: a in pools ==> pools[a].address == a && AnnouncedBy(scanned, pools[a]))
  }

  ghost predicate AnnouncedBy(logs: set<Log>, pool: Pool) {
    exists l :: l in logs && Announces(l, pool)
  }

  ghost predicate PoolsRight(chain: set<Log>, db: Db)
    requires Factory in db.streams
  {
    PoolsFrom(Covered(chain, Factory, db.streams[Factory]), db.pools)
  }

  ghost predicate Inv(chain: set<Log>, maxBlocks: nat, db: Db) {
    && StreamsOk(db, maxBlocks) && Tiled(db) && PoolsRight(chain, db)
    && Faithful(db.wallets, AllSeen(chain, db))
  }

  // ---------------------------------------------------------------- runs

  /**
   * One thing that can happen to the database. A crash, an error reply or a rolled-back transaction
   * changes nothing; reopening it after a crash changes nothing either.
   */
  datatype Step =
    | TryCommit(stream: Stream, start: nat, end: nat, window: nat, request: nat, returned: nat, logs: seq<Log>)
    | Shrink(stream: Stream, start: nat, window: nat)
    | Nothing

  ghost predicate StepOk(chain: set<Log>, maxBlocks: nat, step: Step) {
    match step
    case TryCommit(stream, start, end, window, _, _, logs) =>
      start <= end && 1 <= window <= maxBlocks && Honest(chain, stream, start, end, logs)
    case Shrink(_, _, window) => 1 <= window <= maxBlocks
    case Nothing => true
  }

  function Apply(db: Db, step: Step): Db {
    match step
    case TryCommit(stream, start, end, window, request, returned, logs) =>
      (match Commit(db, stream, start, end, window, request, returned, logs)
       case Ok(after) => after
       case Err(_) => db)
    case Shrink(stream, start, window) => db.(streams := SetWindow(db.streams, stream, start, window))
    case Nothing => db
  }

  function Run(db: Db, steps: seq<Step>): Db {
    if steps == [] then db else Apply(Run(db, steps[..|steps| - 1]), steps[|steps| - 1])
  }

  /** A freshly initialised registry. */
  function Initial(starts: map<Stream, nat>, maxBlocks: nat): Db {
    Db(map[], map[], [], map s | s in starts :: StreamRow(starts[s], starts[s], maxBlocks))
  }

  ghost predicate ConfigOk(starts: map<Stream, nat>, maxBlocks: nat) {
    (forall s: Stream :: s in starts) && starts[Amm] == starts[Factory] && 1 <= maxBlocks
  }

  // ---------------------------------------------------------------- reading a reply

  lemma SightingsInOrder(ss: seq<Sighting>, log: Log, pool: Option<Pool>, traders: seq<Trader>)
    requires InOrder(ss) && forall s :: s in ss ==> Follows(s.log, log)
    ensures InOrder(ss + SightingsOf(log, pool, traders))
  {
    var all, more := ss + SightingsOf(log, pool, traders), SightingsOf(log, pool, traders);
    forall i, j | 0 <= i < j < |all| ensures AtOrBefore(all[i], all[j]) {
      if i < |ss| {
        assert all[i] in ss;
      }
    }
  }

  lemma SeenGrows(logs: set<Log>, l: Log, stream: Stream, pools: Pools)
    ensures Seen(logs + {l}, stream, pools) == Seen(logs, stream, pools) + Members(LogSightings(stream, pools, l))
  {
    hide DecodeTraders, PoolFor;
  }

  lemma FrontOrdered(logs: seq<Log>)
    requires StrictlyOrdered(logs) && logs != []
    ensures StrictlyOrdered(logs[..|logs| - 1])
    ensures AllFollowedBy(logs[..|logs| - 1], logs[|logs| - 1])
    ensures LogSet(logs) == LogSet(logs[..|logs| - 1]) + {logs[|logs| - 1]}
  {
    var n := |logs| - 1;
    assert logs == logs[..n] + [logs[n]];
  }

  ghost predicate AllFollowedBy(logs: seq<Log>, l: Log) {
    forall k :: k in logs ==> Follows(k, l)
  }

  ghost function LogSet(logs: seq<Log>): set<Log> {
    set l | l in logs
  }

  lemma TradeStep(stream: Stream, pools: Pools, seen: seq<Log>, l: Log, before: seq<Sighting>)
    requires InOrder(before) && Members(before) == Seen(LogSet(seen), stream, pools)
    requires AllFollowedBy(seen, l)
    ensures InOrder(before + LogSightings(stream, pools, l))
    ensures Members(before + LogSightings(stream, pools, l)) == Seen(LogSet(seen) + {l}, stream, pools)
  {
    hide DecodeTraders, DecodePool, PoolFor, AtOrBefore;
    var pool := PoolFor(stream, pools, l);
    forall s | s in before ensures Follows(s.log, l) {
      assert s in Members(before);
      SeenFrom(LogSet(seen), stream, pools, s);
    }
    if DecodeTraders(l, pool).Ok? {
      SightingsInOrder(before, l, pool, DecodeTraders(l, pool).value);
    } else {
      assert before + [] == before;
    }
    SeenGrows(LogSet(seen), l, stream, pools);
    var more := LogSightings(stream, pools, l);
    assert Members(before + more) == Members(before) + Members(more);
  }

  /** A trade range's sightings are exactly those of its logs, in chain order, and it adds no pool. */
  lemma {:induction false} TradeBatch(stream: Stream, pools: Pools, logs: seq<Log>)
    requires !stream.Factory? && StrictlyOrdered(logs) && ReadLogs(stream, pools, logs).Ok?
    ensures ReadLogs(stream, pools, logs).value.pools == []
    ensures InOrder(ReadLogs(stream, pools, logs).value.sightings)
    ensures Members(ReadLogs(stream, pools, logs).value.sightings) == Seen(LogSet(logs), stream, pools)
  {
    hide DecodeTraders, DecodePool, PoolFor, AtOrBefore, InOrder, Seen, Members, StrictlyOrdered;
    if logs == [] {
      EmptyRange(stream, pools);
    } else {
      var n := |logs| - 1;
      FrontOrdered(logs);
      TradeBatch(stream, pools, logs[..n]);
      TradeStep(stream, pools, logs[..n], logs[n], ReadLogs(stream, pools, logs[..n]).value.sightings);
    }
  }

  lemma EmptyRange(stream: Stream, pools: Pools)
    ensures Members([]) == Seen(LogSet([]), stream, pools) && InOrder([])
  {
  }

  lemma SeenFrom(logs: set<Log>, stream: Stream, pools: Pools, s: Sighting)
    requires s in Seen(logs, stream, pools)
    ensures s.log in logs && s in LogSightings(stream, pools, s.log)
  {
    hide DecodeTraders, PoolFor;
    var l :| l in logs && s in LogSightings(stream, pools, l);
    assert s.log == l;
  }

  ghost predicate AnnouncedIn(logs: seq<Log>, pool: Pool) {
    exists l :: l in logs && Created(l) == Some(pool)
  }

  lemma AnnouncedStep(seen: seq<Log>, l: Log, pool: Pool)
    ensures AnnouncedIn(seen + [l], pool) <==> AnnouncedIn(seen, pool) || Created(l) == Some(pool)
  {
    hide Created;
    if AnnouncedIn(seen, pool) {
      var k :| k in seen && Created(k) == Some(pool);
      assert k in seen + [l];
    }
    assert l in seen + [l];
  }

  lemma FactoryStep(batch: Batch, pools: Pools, l: Log, pool: Pool)
    requires ReadLog(batch, Factory, pools, l).Ok?
    ensures ReadLog(batch, Factory, pools, l).value.sightings == batch.sightings
    ensures pool in ReadLog(batch, Factory, pools, l).value.pools <==> pool in batch.pools || Created(l) == Some(pool)
  {
    hide DecodePool;
  }

  /** A factory range's pools are exactly those its logs announce, and it has no sightings. */
  lemma {:induction false} FactoryBatch(pools: Pools, logs: seq<Log>, pool: Pool)
    requires ReadLogs(Factory, pools, logs).Ok?
    ensures ReadLogs(Factory, pools, logs).value.sightings == []
    ensures pool in ReadLogs(Factory, pools, logs).value.pools <==> AnnouncedIn(logs, pool)
  {
    hide ReadLog, AnnouncedIn, Created;
    if logs == [] {
      NothingAnnounced();
    } else {
      var n := |logs| - 1;
      FactoryBatch(pools, logs[..n], pool);
      FactoryStep(ReadLogs(Factory, pools, logs[..n]).value, pools, logs[n], pool);
      assert logs == logs[..n] + [logs[n]];
      AnnouncedStep(logs[..n], logs[n], pool);
    }
  }

  lemma NothingAnnounced()
    ensures forall pool :: !AnnouncedIn([], pool)
  {
  }

  /** `after` keeps the stored pools and holds every found one under its address, and nothing else. */
  ghost predicate HoldsPools(pools: Pools, found: seq<Pool>, after: Pools) {
    && (forall a :: a in pools ==> a in after && after[a] == pools[a])
    && (forall p :: p in found ==> p.address in after && after[p.address] == p)
    && (forall a :: a in after && a !in pools ==> after[a] in found && after[a].address == a)
  }

  /** A creation log announces one pool. */
  ghost predicate OnePoolPerLog(pools: Pools, found: seq<Pool>) {
    && (forall p, q :: p in found && q in found && p.creationLog == q.creationLog ==> p == q)
    && (forall p, a :: p in found && a in pools && pools[a].creationLog == p.creationLog ==> pools[a] == p)
  }

  lemma OneMorePool(pools: Pools, found: seq<Pool>, before: Pools, p: Pool)
    requires HoldsPools(pools, found, before) && OnePoolPerLog(pools, found + [p])
    requires p.address in before ==> before[p.address].creationLog == p.creationLog
    ensures HoldsPools(pools, found + [p], if p.address in before then before else before[p.address := p])
  {
    assert forall q :: q in found + [p] <==> q in found || q == p;
    if p.address in before {
      var stored := before[p.address];
      assert stored == p by {
        if p.address !in pools {
          assert stored in found + [p];
        }
      }
    }
  }

  lemma {:induction false} PoolsAdded(pools: Pools, found: seq<Pool>)
    requires AddPools(pools, found).Ok? && OnePoolPerLog(pools, found)
    ensures HoldsPools(pools, found, AddPools(pools, found).value)
  {
    if found != [] {
      var front, p := found[..|found| - 1], found[|found| - 1];
      assert found == front + [p];
      assert OnePoolPerLog(pools, front) by {
        assert forall q :: q in front ==> q in found;
      }
      hide HoldsPools, OnePoolPerLog;
      PoolsAdded(pools, front);
      OneMorePool(pools, front, AddPools(pools, front).value, p);
    }
  }

  // ---------------------------------------------------------------- one commit

  lemma CoverGrows(chain: set<Log>, stream: Stream, row: StreamRow, end: nat, window: nat, logs: seq<Log>)
    requires Honest(chain, stream, row.next, end, logs) && row.start <= row.next <= end
    ensures Covered(chain, stream, StreamRow(row.start, end + 1, window)) == Covered(chain, stream, row) + LogSet(logs)
  {
    hide Selected;
  }

  lemma SeenUnion(a: set<Log>, b: set<Log>, stream: Stream, pools: Pools)
    ensures Seen(a + b, stream, pools) == Seen(a, stream, pools) + Seen(b, stream, pools)
  {
    hide LogSightings;
  }

  lemma TopicsApart(l: Log, a: Stream, b: Stream)
    requires Selected(a, l) && Selected(b, l)
    ensures a == b
  {
  }

  /** A sighting of the scanned blocks was read from a log of its stream. */
  lemma SeenOrigin(chain: set<Log>, db: Db, s: Sighting) returns (stream: Stream)
    requires Amm in db.streams && Exchange in db.streams && s in AllSeen(chain, db)
    ensures !stream.Factory? && s.log in Covered(chain, stream, db.streams[stream])
    ensures s in LogSightings(stream, db.pools, s.log)
  {
    hide LogSightings, Selected, Covered;
    if s in Seen(Covered(chain, Amm, db.streams[Amm]), Amm, db.pools) {
      stream := Amm;
    } else {
      stream := Exchange;
    }
    SeenFrom(Covered(chain, stream, db.streams[stream]), stream, db.pools, s);
  }

  lemma NewSightingsApart(chain: set<Log>, db: Db, stream: Stream, end: nat, logs: seq<Log>)
    requires ChainOk(chain) && Amm in db.streams && Exchange in db.streams && stream in db.streams
    requires Honest(chain, stream, db.streams[stream].next, end, logs)
    ensures Apart(AllSeen(chain, db), Seen(LogSet(logs), stream, db.pools))
  {
    hide LogSightings, Selected, Announces, AllSeen;
    forall s, t | s in AllSeen(chain, db) && t in Seen(LogSet(logs), stream, db.pools) ensures !SamePlace(s, t) {
      var origin := SeenOrigin(chain, db, s);
      SeenFrom(LogSet(logs), stream, db.pools, t);
      assert s.log.block < db.streams[origin].next && db.streams[stream].next <= t.log.block;
      if s.log == t.log {
        TopicsApart(s.log, origin, stream);
      }
    }
  }

  /** A place on the chain and a rank identify a sighting among all those scanned. */
  lemma ScannedPlaced(chain: set<Log>, db: Db)
    requires ChainOk(chain) && Amm in db.streams && Exchange in db.streams
    ensures Placed(AllSeen(chain, db))
  {
    hide Selected, Announces, AllSeen, DecodeTraders;
    forall s, t | s in AllSeen(chain, db) && t in AllSeen(chain, db) && SamePlace(s, t) && s.rank == t.rank
      ensures s == t
    {
      var a := SeenOrigin(chain, db, s);
      var b := SeenOrigin(chain, db, t);
      assert s.log == t.log;
      TopicsApart(s.log, a, b);
    }
  }

  lemma AllSeenGrows(chain: set<Log>, db: Db, after: Db, stream: Stream, end: nat, window: nat, logs: seq<Log>)
    requires (forall s: Stream :: s in db.streams) && !stream.Factory? && after.pools == db.pools
    requires db.streams[stream].start <= db.streams[stream].next <= end
    requires after.streams == db.streams[stream := StreamRow(db.streams[stream].start, end + 1, window)]
    requires Honest(chain, stream, db.streams[stream].next, end, logs)
    ensures AllSeen(chain, after) == AllSeen(chain, db) + Seen(LogSet(logs), stream, db.pools)
  {
    hide Seen, Covered, Honest;
    CoverGrows(chain, stream, db.streams[stream], end, window, logs);
    SeenUnion(Covered(chain, stream, db.streams[stream]), LogSet(logs), stream, db.pools);
  }

  /** A trade commit absorbs exactly the sightings of its range. */
  lemma TradeCommit(chain: set<Log>, db: Db, stream: Stream, end: nat, window: nat, request: nat, returned: nat,
                    logs: seq<Log>)
    requires ChainOk(chain) && (forall s: Stream :: s in db.streams) && !stream.Factory?
    requires Faithful(db.wallets, AllSeen(chain, db))
    requires db.streams[stream].start <= db.streams[stream].next <= end
    requires Honest(chain, stream, db.streams[stream].next, end, logs)
    requires Commit(db, stream, db.streams[stream].next, end, window, request, returned, logs).Ok?
    ensures var after := Commit(db, stream, db.streams[stream].next, end, window, request, returned, logs).value;
      after.pools == db.pools && Faithful(after.wallets, AllSeen(chain, after))
  {
    var after := Commit(db, stream, db.streams[stream].next, end, window, request, returned, logs).value;
    var batch := ReadLogs(stream, db.pools, logs).value;
    TradeBatchOrdered(chain, stream, db.streams[stream].next, end, logs);
    TradeBatch(stream, db.pools, logs);
    assert after.pools == db.pools && after.wallets == Join(db.wallets, Observe(batch.sightings));
    hide Commit, Seen, Covered, AllSeen, Faithful, Observe, Join, ReadLogs, ChainOk, Honest, Apart, InOrder;
    ObserveFaithful(batch.sightings);
    NewSightingsApart(chain, db, stream, end, logs);
    JoinFaithful(db.wallets, Observe(batch.sightings), AllSeen(chain, db), Seen(LogSet(logs), stream, db.pools));
    CommitMoves(db, stream, end, window, request, returned, logs);
    AllSeenGrows(chain, db, after, stream, end, window, logs);
  }

  lemma CommitMoves(db: Db, stream: Stream, end: nat, window: nat, request: nat, returned: nat, logs: seq<Log>)
    requires stream in db.streams
    requires Commit(db, stream, db.streams[stream].next, end, window, request, returned, logs).Ok?
    ensures var after := Commit(db, stream, db.streams[stream].next, end, window, request, returned, logs).value;
      && after.streams == db.streams[stream := StreamRow(db.streams[stream].start, end + 1, window)]
      && |after.ranges| == |db.ranges| + 1 && after.ranges[..|db.ranges|] == db.ranges
      && var last := after.ranges[|db.ranges|];
      last.stream == stream && last.start == db.streams[stream].next && last.end == end
  {
    hide ReadLogs, AddPools, Observe, Join;
  }

  lemma TradeBatchOrdered(chain: set<Log>, stream: Stream, start: nat, end: nat, logs: seq<Log>)
    requires Honest(chain, stream, start, end, logs)
    ensures StrictlyOrdered(logs)
  {
  }

  /** `pools` keeps every pool of `earlier`, and its others are announced in `logs`. */
  ghost predicate PoolsGrow(earlier: Pools, pools: Pools, logs: set<Log>) {
    && (forall a :: a in earlier ==> a in pools && pools[a] == earlier[a])
    && (forall a :: a in pools && a !in earlier ==> pools[a].address == a && AnnouncedBy(logs, pools[a]))
    && (forall l, pool :: l in logs && Announces(l, pool) ==> pool.address in pools && pools[pool.address] == pool)
  }

  lemma PoolsFromGrows(scanned: set<Log>, earlier: Pools, pools: Pools, logs: set<Log>)
    requires PoolsFrom(scanned, earlier) && PoolsGrow(earlier, pools, logs)
    ensures PoolsFrom(scanned + logs, pools)
  {
    hide Announces;
    forall a | a in pools ensures AnnouncedBy(scanned + logs, pools[a]) {
      var l :| (l in scanned || l in logs) && Announces(l, pools[a]);
      assert l in scanned + logs;
    }
  }

  /** Pools announced in later blocks change nothing that the trade streams have already scanned. */
  lemma LaterPoolsUnseen(chain: set<Log>, streams: map<Stream, StreamRow>, earlier: Pools, pools: Pools, logs: set<Log>)
    requires ChainOk(chain) && (forall s: Stream :: s in streams)
    requires streams[Amm].next <= streams[Factory].next
    requires PoolsGrow(earlier, pools, logs)
    requires forall l :: l in logs ==> l in chain && l.block >= streams[Factory].next
    ensures Seen(Covered(chain, Amm, streams[Amm]), Amm, pools) == Seen(Covered(chain, Amm, streams[Amm]), Amm, earlier)
    ensures Seen(Covered(chain, Exchange, streams[Exchange]), Exchange, pools)
         == Seen(Covered(chain, Exchange, streams[Exchange]), Exchange, earlier)
  {
    hide Announces, DecodeTraders;
    var amm, exchange := Covered(chain, Amm, streams[Amm]), Covered(chain, Exchange, streams[Exchange]);
    forall m | m in amm ensures PoolFor(Amm, pools, m) == PoolFor(Amm, earlier, m) {
    }
    SameSightings(amm, Amm, pools, earlier);
    SameSightings(exchange, Exchange, pools, earlier);
  }

  lemma SameSightings(logs: set<Log>, stream: Stream, p: Pools, q: Pools)
    requires forall m :: m in logs ==> PoolFor(stream, p, m) == PoolFor(stream, q, m)
    ensures Seen(logs, stream, p) == Seen(logs, stream, q)
  {
    hide DecodeTraders, PoolFor;
    forall m | m in logs ensures LogSightings(stream, p, m) == LogSightings(stream, q, m) {
    }
    hide LogSightings;
  }

  lemma AnnouncedSame(chain: set<Log>, start: nat, end: nat, logs: seq<Log>, pool: Pool)
    requires Honest(chain, Factory, start, end, logs)
    ensures AnnouncedIn(logs, pool) <==> AnnouncedBy(LogSet(logs), pool)
  {
    hide Created;
    if AnnouncedIn(logs, pool) {
      var l :| l in logs && Created(l) == Some(pool);
      assert Selected(Factory, l) && l in LogSet(logs);
    }
  }

  lemma AnnouncedPool(logs: set<Log>, pool: Pool)
    requires AnnouncedBy(logs, pool)
    ensures pool.creationLog in logs && Announces(pool.creationLog, pool)
  {
    var l :| l in logs && Announces(l, pool);
    assert pool.creationLog == l;
  }

  lemma AnnouncesOnce(l: Log, p: Pool, q: Pool)
    requires Announces(l, p) && Announces(l, q)
    ensures p == q
  {
  }

  lemma FoundPools(chain: set<Log>, scanned: set<Log>, pools: Pools, start: nat, end: nat, logs: seq<Log>)
    requires PoolsFrom(scanned, pools) && Honest(chain, Factory, start, end, logs)
    requires ReadLogs(Factory, pools, logs).Ok? && AddPools(pools, ReadLogs(Factory, pools, logs).value.pools).Ok?
    ensures PoolsGrow(pools, AddPools(pools, ReadLogs(Factory, pools, logs).value.pools).value, LogSet(logs))
  {
    hide Announces, Honest, AnnouncedIn, AnnouncedBy, ReadLog, ReadLogs, AddPools, Created;
    var found := ReadLogs(Factory, pools, logs).value.pools;
    forall pool ensures pool in found <==> AnnouncedBy(LogSet(logs), pool) {
      FactoryBatch(pools, logs, pool);
      AnnouncedSame(chain, start, end, logs, pool);
    }
    forall p | p in found ensures Announces(p.creationLog, p) {
      AnnouncedPool(LogSet(logs), p);
    }
    forall a | a in pools ensures Announces(pools[a].creationLog, pools[a]) {
      AnnouncedPool(scanned, pools[a]);
    }
    forall p: Pool, q: Pool | Announces(p.creationLog, p) && Announces(q.creationLog, q)
      && p.creationLog == q.creationLog
      ensures p == q
    {
      AnnouncesOnce(p.creationLog, p, q);
    }
    PoolsAdded(pools, found);
    forall l, pool | l in LogSet(logs) && Announces(l, pool) ensures pool in found {
      AnnouncedWitness(LogSet(logs), l, pool);
    }
  }

  lemma AnnouncedWitness(logs: set<Log>, l: Log, pool: Pool)
    requires l in logs && Announces(l, pool)
    ensures AnnouncedBy(logs, pool)
  {
  }

  /** A factory commit records exactly the pools of its range and leaves wallets and sightings as they were. */
  lemma FactoryCommit(chain: set<Log>, db: Db, end: nat, window: nat, request: nat, returned: nat, logs: seq<Log>)
    requires ChainOk(chain) && (forall s: Stream :: s in db.streams) && PoolsRight(chain, db)
    requires db.streams[Amm].next <= db.streams[Factory].next
    requires db.streams[Factory].start <= db.streams[Factory].next <= end
    requires Honest(chain, Factory, db.streams[Factory].next, end, logs)
    requires Commit(db, Factory, db.streams[Factory].next, end, window, request, returned, logs).Ok?
    ensures var after := Commit(db, Factory, db.streams[Factory].next, end, window, request, returned, logs).value;
      after.wallets == db.wallets && PoolsRight(chain, after) && AllSeen(chain, after) == AllSeen(chain, db)
  {
    var row := db.streams[Factory];
    var after := Commit(db, Factory, row.next, end, window, request, returned, logs).value;
    FactoryTables(db, end, window, request, returned, logs);
    CommitMoves(db, Factory, end, window, request, returned, logs);
    FoundPools(chain, Covered(chain, Factory, row), db.pools, row.next, end, logs);
    assert forall l :: l in LogSet(logs) ==> l in chain && l.block >= row.next;
    hide Commit, ReadLogs, AddPools, Seen, PoolsGrow, PoolsFrom, ChainOk, Covered, Honest;
    LaterPoolsUnseen(chain, db.streams, db.pools, after.pools, LogSet(logs));
    CoverGrows(chain, Factory, row, end, window, logs);
    PoolsFromGrows(Covered(chain, Factory, row), db.pools, after.pools, LogSet(logs));
  }

  lemma FactoryTables(db: Db, end: nat, window: nat, request: nat, returned: nat, logs: seq<Log>)
    requires Factory in db.streams
    requires Commit(db, Factory, db.streams[Factory].next, end, window, request, returned, logs).Ok?
    ensures ReadLogs(Factory, db.pools, logs).Ok?
    ensures var after := Commit(db, Factory, db.streams[Factory].next, end, window, request, returned, logs).value;
      after.wallets == db.wallets
      && AddPools(db.pools, ReadLogs(Factory, db.pools, logs).value.pools) == Ok(after.pools)
  {
    FactoryBatch(db.pools, logs, Pool(0, 0, 0, 0, [], Log(false, 0, [], [], 0, 0, 0)));
    hide ReadLogs, AddPools;
    assert Join(db.wallets, map[]) == db.wallets;
  }

  // ---------------------------------------------------------------- every run

  lemma InitialInv(chain: set<Log>, starts: map<Stream, nat>, maxBlocks: nat)
    requires ConfigOk(starts, maxBlocks)
    ensures Inv(chain, maxBlocks, Initial(starts, maxBlocks))
  {
    hide Announces, LogSightings;
    var db := Initial(starts, maxBlocks);
    forall stream: Stream ensures Covered(chain, stream, db.streams[stream]) == {} {
    }
    assert AllSeen(chain, db) == {};
  }

  lemma CommitAdmitted(db: Db, stream: Stream, start: nat, end: nat, window: nat, request: nat, returned: nat,
                       logs: seq<Log>)
    requires Commit(db, stream, start, end, window, request, returned, logs).Ok?
    ensures Admissible(db.streams, stream, start, end)
  {
    hide ReadLogs, AddPools, Observe, Join;
  }

  /** Advancing one stream by an adjacent range keeps positions ordered and every stream tiled. */
  lemma AdvanceKeepsTiling(maxBlocks: nat, db: Db, after: Db, stream: Stream, end: nat, window: nat)
    requires StreamsOk(db, maxBlocks) && Tiled(db) && 1 <= window <= maxBlocks
    requires db.streams[stream].next <= end && Admissible(db.streams, stream, db.streams[stream].next, end)
    requires after.streams == db.streams[stream := StreamRow(db.streams[stream].start, end + 1, window)]
    requires |after.ranges| == |db.ranges| + 1 && after.ranges[..|db.ranges|] == db.ranges
    requires
      var last := after.ranges[|db.ranges|];
      last.stream == stream && last.start == db.streams[stream].next && last.end == end
    ensures StreamsOk(after, maxBlocks) && Tiled(after)
  {
  }

  lemma CommitKeeps(chain: set<Log>, maxBlocks: nat, db: Db, stream: Stream, start: nat, end: nat, window: nat,
                    request: nat, returned: nat, logs: seq<Log>)
    requires ChainOk(chain) && Inv(chain, maxBlocks, db)
    requires start <= end && 1 <= window <= maxBlocks && Honest(chain, stream, start, end, logs)
    requires Commit(db, stream, start, end, window, request, returned, logs).Ok?
    ensures Inv(chain, maxBlocks, Commit(db, stream, start, end, window, request, returned, logs).value)
  {
    hide Commit, AllSeen, Covered, Faithful, Honest, ChainOk, PoolsFrom, TileEnd;
    CommitAdmitted(db, stream, start, end, window, request, returned, logs);
    CommitMoves(db, stream, end, window, request, returned, logs);
    var after := Commit(db, stream, start, end, window, request, returned, logs).value;
    if stream.Factory? {
      FactoryCommit(chain, db, end, window, request, returned, logs);
    } else {
      TradeCommit(chain, db, stream, end, window, request, returned, logs);
    }
    AdvanceKeepsTiling(maxBlocks, db, after, stream, end, window);
  }

  lemma ShrinkKeeps(chain: set<Log>, maxBlocks: nat, db: Db, stream: Stream, start: nat, window: nat)
    requires Inv(chain, maxBlocks, db) && 1 <= window <= maxBlocks
    ensures Inv(chain, maxBlocks, db.(streams := SetWindow(db.streams, stream, start, window)))
  {
    var after := db.(streams := SetWindow(db.streams, stream, start, window));
    hide Selected, Faithful, PoolsFrom, Seen;
    forall s: Stream ensures Covered(chain, s, after.streams[s]) == Covered(chain, s, db.streams[s]) {
    }
  }

  /** Every run of honest replies, in any order and with any failures, keeps the invariant. */
  lemma {:induction false} RunKeeps(chain: set<Log>, maxBlocks: nat, db: Db, steps: seq<Step>)
    requires ChainOk(chain) && Inv(chain, maxBlocks, db)
    requires forall i :: 0 <= i < |steps| ==> StepOk(chain, maxBlocks, steps[i])
    ensures Inv(chain, maxBlocks, Run(db, steps))
  {
    hide Inv, ChainOk, Commit;
    if steps != [] {
      var n := |steps| - 1;
      RunKeeps(chain, maxBlocks, db, steps[..n]);
      match steps[n] {
        case TryCommit(stream, start, end, window, request, returned, logs) =>
          var before := Run(db, steps[..n]);
          if Commit(before, stream, start, end, window, request, returned, logs).Ok? {
            CommitKeeps(chain, maxBlocks, before, stream, start, end, window, request, returned, logs);
          }
        case Shrink(stream, start, window) => ShrinkKeeps(chain, maxBlocks, Run(db, steps[..n]), stream, start, window);
        case Nothing =>
      }
    }
  }

  lemma PoolsUnique(scanned: set<Log>, p: Pools, q: Pools)
    requires PoolsFrom(scanned, p) && PoolsFrom(scanned, q)
    ensures p == q
  {
    hide Announces;
    forall a | a in p ensures a in q && q[a] == p[a] {
      AnnouncedPool(scanned, p[a]);
    }
    forall a | a in q ensures a in p && p[a] == q[a] {
      AnnouncedPool(scanned, q[a]);
    }
  }

  /** Two databases that satisfy the invariant at the same stream positions hold the same registry. */
  lemma PositionsDetermine(chain: set<Log>, m1: nat, m2: nat, db1: Db, db2: Db)
    requires ChainOk(chain) && Inv(chain, m1, db1) && Inv(chain, m2, db2)
    requires forall s: Stream ::
      db1.streams[s].start == db2.streams[s].start
      && db1.streams[s].next == db2.streams[s].next
    ensures db1.wallets == db2.wallets && db1.pools == db2.pools
  {
    hide Selected, Faithful, PoolsFrom, Seen, ChainOk;
    forall s: Stream ensures Covered(chain, s, db1.streams[s]) == Covered(chain, s, db2.streams[s]) {
    }
    PoolsUnique(Covered(chain, Factory, db1.streams[Factory]), db1.pools, db2.pools);
    ScannedPlaced(chain, db1);
    FaithfulUnique(db1.wallets, db2.wallets, AllSeen(chain, db1));
  }

  /**
   * Convergence: runs with any windows, splits, interleavings, restarts and failed attempts that have
   * advanced the streams equally far hold the same wallets and pools.
   */
  lemma RegistryConverges(chain: set<Log>, starts: map<Stream, nat>, m1: nat, m2: nat, run1: seq<Step>, run2: seq<Step>)
    requires ChainOk(chain) && ConfigOk(starts, m1) && ConfigOk(starts, m2)
    requires forall i :: 0 <= i < |run1| ==> StepOk(chain, m1, run1[i])
    requires forall i :: 0 <= i < |run2| ==> StepOk(chain, m2, run2[i])
    requires forall s: Stream ::
      s in Run(Initial(starts, m1), run1).streams && s in Run(Initial(starts, m2), run2).streams ==>
      Run(Initial(starts, m1), run1).streams[s].next == Run(Initial(starts, m2), run2).streams[s].next
    ensures Run(Initial(starts, m1), run1).wallets == Run(Initial(starts, m2), run2).wallets
    ensures Run(Initial(starts, m1), run1).pools == Run(Initial(starts, m2), run2).pools
  {
    InitialInv(chain, starts, m1);
    InitialInv(chain, starts, m2);
    RunKeeps(chain, m1, Initial(starts, m1), run1);
    RunKeeps(chain, m2, Initial(starts, m2), run2);
    StartsFixed(Initial(starts, m1), run1);
    StartsFixed(Initial(starts, m2), run2);
    hide Apply, PoolsRight, Faithful;
    PositionsDetermine(chain, m1, m2, Run(Initial(starts, m1), run1), Run(Initial(starts, m2), run2));
  }

  lemma SightedIsEligible(stream: Stream, pools: Pools, l: Log, s: Sighting)
    requires s in LogSightings(stream, pools, l)
    ensures s.wallet != ZERO && s.wallet !in INFRASTRUCTURE
  {
    hide RawTraders, Eligible;
    var pool := PoolFor(stream, pools, l);
    var traders := DecodeTraders(l, pool).value;
    var i :| 0 <= i < |traders| && SightingsOf(l, pool, traders)[i] == s;
    EligibleExactly(RawTraders(l, pool).value, traders[i]);
  }

  /** In every run no wallet row is the zero address or one of the venue's own contracts. */
  lemma RegistryHoldsTradersOnly(chain: set<Log>, starts: map<Stream, nat>, maxBlocks: nat, steps: seq<Step>,
                                 w: Address)
    requires ChainOk(chain) && ConfigOk(starts, maxBlocks)
    requires forall i :: 0 <= i < |steps| ==> StepOk(chain, maxBlocks, steps[i])
    requires w in Run(Initial(starts, maxBlocks), steps).wallets
    ensures w != ZERO && w !in INFRASTRUCTURE
  {
    InitialInv(chain, starts, maxBlocks);
    RunKeeps(chain, maxBlocks, Initial(starts, maxBlocks), steps);
    hide Apply, Tiled, PoolsRight, AllSeen, LogSightings, ChainOk, Least, SpanRight, Run;
    var db := Run(Initial(starts, maxBlocks), steps);
    var s :| s in AllSeen(chain, db) && s.wallet == w;
    var stream := SeenOrigin(chain, db, s);
    SightedIsEligible(stream, db.pools, s.log, s);
  }

  lemma {:induction false} StartsFixed(db: Db, steps: seq<Step>)
    requires forall s: Stream :: s in db.streams
    ensures forall s: Stream :: s in Run(db, steps).streams && Run(db, steps).streams[s].start == db.streams[s].start
  {
    if steps != [] {
      StartsFixed(db, steps[..|steps| - 1]);
      hide ReadLogs, AddPools, Observe, Join;
    }
  }

  // ---------------------------------------------------------------- tiling, block by block

  /** How many of the stream's accepted ranges contain the block. */
  function Holding(ranges: seq<Range>, stream: Stream, block: nat): nat {
    if ranges == [] then 0
    else
      var last := ranges[|ranges| - 1];
      Holding(ranges[..|ranges| - 1], stream, block)
        + if last.stream == stream && last.start <= block <= last.end then 1 else 0
  }

  /** No gap and no overlap: a scanned block lies in exactly one accepted range, any other block in none. */
  lemma {:induction false} TilesExactly(ranges: seq<Range>, stream: Stream, start: nat, block: nat)
    requires TileEnd(ranges, stream, start).Some?
    ensures start <= TileEnd(ranges, stream, start).value
    ensures Holding(ranges, stream, block) == if start <= block < TileEnd(ranges, stream, start).value then 1 else 0
  {
    if ranges != [] {
      TilesExactly(ranges[..|ranges| - 1], stream, start, block);
    }
  }

  /** In every run each stream's ranges cover every block before its checkpoint exactly once. */
  lemma CoverageHasNoGaps(chain: set<Log>, starts: map<Stream, nat>, maxBlocks: nat, steps: seq<Step>, stream: Stream,
                          block: nat)
    requires ChainOk(chain) && ConfigOk(starts, maxBlocks)
    requires forall i :: 0 <= i < |steps| ==> StepOk(chain, maxBlocks, steps[i])
    ensures var db := Run(Initial(starts, maxBlocks), steps);
      && (forall s: Stream :: s in db.streams)
      && Holding(db.ranges, stream, block) == (if starts[stream] <= block < db.streams[stream].next then 1 else 0)
      && 1 <= db.streams[stream].window <= maxBlocks
      && db.streams[Amm].next <= db.streams[Factory].next
  {
    InitialInv(chain, starts, maxBlocks);
    RunKeeps(chain, maxBlocks, Initial(starts, maxBlocks), steps);
    StartsFixed(Initial(starts, maxBlocks), steps);
    hide Apply, PoolsRight, Faithful;
    var db := Run(Initial(starts, maxBlocks), steps);
    TilesExactly(db.ranges, stream, starts[stream], block);
  }
}
