/**
 * The older upsert, which replaced a witness only by one from a smaller block, and what every run of
 * it left behind: spans are right, but a first block shared by both trade streams keeps the witness
 * of whichever stream committed that block first.
 */
module LegacyWitness {
  import opened Outcomes
  import opened EthLogs
  import opened WalletTable
  import opened Registry
  import opened RegistryRuns

  function LegacyMerge(stored: Row, excluded: Row): Row {
    Merge(stored, excluded).(evidence := if excluded.first < stored.first then excluded.evidence else stored.evidence)
  }

  function LegacyJoin(table: Table, rows: Table): Table {
    map w | w in table.Keys + rows.Keys ::
      if w !in rows then table[w] else if w !in table then rows[w] else LegacyMerge(table[w], rows[w])
  }

  /** The older commit: the same checks and tables, with the older upsert. */
  function LegacyCommit(db: Db, stream: Stream, start: nat, end: nat, window: nat, request: nat, returned: nat,
                        logs: seq<Log>): Result<Db, CommitError>
  {
    var batch :- ReadLogs(stream, db.pools, logs);
    var after :- Commit(db, stream, start, end, window, request, returned, logs);
    Ok(after.(wallets := LegacyJoin(db.wallets, Observe(batch.sightings))))
  }

  /** No pool has the address of an exchange, so the emitter of a log tells its stream. */
  ghost predicate PoolsApart(chain: set<Log>) {
    forall l, pool :: l in chain && Announces(l, pool) ==> pool.address !in EXCHANGES
  }

  predicate FromExchange(s: Sighting) {
    s.log.emitter in EXCHANGES
  }

  /** Least among the sightings of the witness's own stream in its block. */
  ghost predicate OwnLeast(e: Sighting, w: Address, all: set<Sighting>) {
    forall t :: t in all && t.wallet == w && t.log.block == e.log.block && FromExchange(t) == FromExchange(e)
      ==> AtOrBefore(e, t)
  }

  ghost predicate SpansRight(table: Table, all: set<Sighting>) {
    KeysRight(table, all) && forall w :: w in table ==> SpanRight(table[w], w, all)
  }

  ghost predicate LegacyFaithful(table: Table, all: set<Sighting>) {
    SpansRight(table, all) && forall w :: w in table ==> OwnLeast(table[w].evidence, w, all)
  }

  /** New sightings of one stream lie in blocks that stream has not scanned before. */
  ghost predicate Ahead(all: set<Sighting>, added: set<Sighting>, exchange: bool) {
    && (forall t :: t in added ==> FromExchange(t) == exchange)
    && (forall s, t :: s in all && t in added && FromExchange(s) == exchange ==> s.log.block < t.log.block)
  }

  lemma LegacyMergeRight(stored: Row, excluded: Row, w: Address, a: set<Sighting>, b: set<Sighting>)
    requires SpanRight(stored, w, a) && SpanRight(excluded, w, b)
    ensures SpanRight(LegacyMerge(stored, excluded), w, a + b)
  {
    MergeRight(stored, excluded, w, a, b);
    SpanWithWitness(Merge(stored, excluded), LegacyMerge(stored, excluded).evidence, w, a + b);
  }

  lemma SpanWithWitness(row: Row, e: Sighting, w: Address, all: set<Sighting>)
    requires SpanRight(row, w, all) && e in all && e.wallet == w && e.log.block == row.first
    ensures SpanRight(row.(evidence := e), w, all)
  {
  }

  lemma SameKeys(a: Table, b: Table, all: set<Sighting>)
    requires a.Keys == b.Keys && KeysRight(a, all)
    ensures KeysRight(b, all)
  {
  }

  lemma LegacySpan(table: Table, rows: Table, a: set<Sighting>, b: set<Sighting>)
    requires SpansRight(table, a) && SpansRight(rows, b)
    ensures SpansRight(LegacyJoin(table, rows), a + b)
  {
    hide SpanRight, LegacyMerge, Merge;
    JoinKeys(table, rows, a, b);
    SameKeys(Join(table, rows), LegacyJoin(table, rows), a + b);
    hide KeysRight;
    forall w | w in LegacyJoin(table, rows) ensures SpanRight(LegacyJoin(table, rows)[w], w, a + b) {
      if w in table && w in rows {
        LegacyMergeRight(table[w], rows[w], w, a, b);
      } else {
        JoinSpan(table, rows, a, b, w);
      }
    }
  }

  lemma LegacyMergeOwnLeast(stored: Row, excluded: Row, w: Address, a: set<Sighting>, b: set<Sighting>, exchange: bool)
    requires SpanRight(stored, w, a) && OwnLeast(stored.evidence, w, a)
    requires SpanRight(excluded, w, b) && Least(excluded.evidence, w, b) && Ahead(a, b, exchange)
    ensures OwnLeast(LegacyMerge(stored, excluded).evidence, w, a + b)
  {
    hide FromExchange;
  }

  lemma LegacyOwnLeast(table: Table, rows: Table, a: set<Sighting>, b: set<Sighting>, exchange: bool, w: Address)
    requires SpansRight(table, a) && Faithful(rows, b) && Ahead(a, b, exchange)
    requires w in table ==> OwnLeast(table[w].evidence, w, a)
    requires w in LegacyJoin(table, rows)
    ensures OwnLeast(LegacyJoin(table, rows)[w].evidence, w, a + b)
  {
    if w in table && w in rows {
      LegacyMergeOwnLeast(table[w], rows[w], w, a, b, exchange);
    } else {
      assert w !in rows ==> forall t :: t in b ==> t.wallet != w;
      assert w !in table ==> forall t :: t in a ==> t.wallet != w;
    }
  }

  lemma LegacyJoinFaithful(table: Table, rows: Table, a: set<Sighting>, b: set<Sighting>, exchange: bool)
    requires LegacyFaithful(table, a) && Faithful(rows, b) && Ahead(a, b, exchange)
    ensures LegacyFaithful(LegacyJoin(table, rows), a + b)
  {
    LegacySpan(table, rows, a, b);
    hide OwnLeast, LegacyMerge;
    forall w | w in LegacyJoin(table, rows) ensures OwnLeast(LegacyJoin(table, rows)[w].evidence, w, a + b) {
      LegacyOwnLeast(table, rows, a, b, exchange, w);
    }
  }

  // ---------------------------------------------------------------- runs of the older collector

  ghost predicate LegacyInv(chain: set<Log>, maxBlocks: nat, db: Db) {
    && StreamsOk(db, maxBlocks) && Tiled(db) && PoolsRight(chain, db)
    && LegacyFaithful(db.wallets, AllSeen(chain, db))
  }

  function LegacyApply(db: Db, step: Step): Db {
    match step
    case TryCommit(stream, start, end, window, request, returned, logs) =>
      (match LegacyCommit(db, stream, start, end, window, request, returned, logs)
       case Ok(after) => after
       case Err(_) => db)
    case Shrink(stream, start, window) => db.(streams := SetWindow(db.streams, stream, start, window))
    case Nothing => db
  }

  function LegacyRun(db: Db, steps: seq<Step>): Db {
    if steps == [] then db else LegacyApply(LegacyRun(db, steps[..|steps| - 1]), steps[|steps| - 1])
  }

  /** The emitter tells the stream of a scanned sighting: AMM pools are not exchanges. */
  lemma EmitterTellsStream(chain: set<Log>, pools: Pools, scanned: set<Log>, stream: Stream, s: Sighting)
    requires ChainOk(chain) && PoolsApart(chain) && scanned <= chain && PoolsFrom(scanned, pools) && !stream.Factory?
    requires s in LogSightings(stream, pools, s.log) && Selected(stream, s.log)
    ensures FromExchange(s) == stream.Exchange?
  {
    hide Announces;
    if stream.Amm? {
      AmmNeedsPool(pools, s);
      AnnouncedPool(scanned, pools[s.log.emitter]);
    }
  }

  lemma AmmNeedsPool(pools: Pools, s: Sighting)
    requires s in LogSightings(Amm, pools, s.log) && Selected(Amm, s.log)
    ensures s.log.emitter in pools
  {
  }

  lemma NewSightingsAhead(chain: set<Log>, db: Db, stream: Stream, end: nat, logs: seq<Log>)
    requires ChainOk(chain) && PoolsApart(chain) && (forall s: Stream :: s in db.streams) && PoolsRight(chain, db)
    requires !stream.Factory?
    requires Honest(chain, stream, db.streams[stream].next, end, logs)
    ensures Ahead(AllSeen(chain, db), Seen(LogSet(logs), stream, db.pools), stream.Exchange?)
  {
    hide AllSeen, LogSightings, ChainOk, PoolsApart, PoolsFrom, Seen, Selected, FromExchange;
    var scanned := Covered(chain, Factory, db.streams[Factory]);
    forall t | t in Seen(LogSet(logs), stream, db.pools)
      ensures FromExchange(t) == stream.Exchange? && db.streams[stream].next <= t.log.block
    {
      SeenFrom(LogSet(logs), stream, db.pools, t);
      EmitterTellsStream(chain, db.pools, scanned, stream, t);
    }
    forall s | s in AllSeen(chain, db) && FromExchange(s) == stream.Exchange?
      ensures s.log.block < db.streams[stream].next
    {
      var origin := SeenOrigin(chain, db, s);
      EmitterTellsStream(chain, db.pools, scanned, origin, s);
    }
  }

  lemma LegacyTables(db: Db, stream: Stream, start: nat, end: nat, window: nat, request: nat, returned: nat,
                     logs: seq<Log>)
    requires LegacyCommit(db, stream, start, end, window, request, returned, logs).Ok?
    ensures ReadLogs(stream, db.pools, logs).Ok? && Commit(db, stream, start, end, window, request, returned, logs).Ok?
    ensures var after := LegacyCommit(db, stream, start, end, window, request, returned, logs).value;
      && after.wallets == LegacyJoin(db.wallets, Observe(ReadLogs(stream, db.pools, logs).value.sightings))
      && after == Commit(db, stream, start, end, window, request, returned, logs).value.(wallets := after.wallets)
    ensures AddPools(db.pools, ReadLogs(stream, db.pools, logs).value.pools)
      == Ok(Commit(db, stream, start, end, window, request, returned, logs).value.pools)
  {
    hide ReadLogs, AddPools, Observe, Join, LegacyJoin;
  }

  lemma LegacyTradeCommit(chain: set<Log>, db: Db, stream: Stream, end: nat, window: nat, request: nat, returned: nat,
                          logs: seq<Log>)
    requires ChainOk(chain) && PoolsApart(chain) && (forall s: Stream :: s in db.streams) && PoolsRight(chain, db)
    requires !stream.Factory?
    requires LegacyFaithful(db.wallets, AllSeen(chain, db))
    requires db.streams[stream].start <= db.streams[stream].next <= end
    requires Honest(chain, stream, db.streams[stream].next, end, logs)
    requires LegacyCommit(db, stream, db.streams[stream].next, end, window, request, returned, logs).Ok?
    ensures var after := LegacyCommit(db, stream, db.streams[stream].next, end, window, request, returned, logs).value;
      after.pools == db.pools && LegacyFaithful(after.wallets, AllSeen(chain, after))
  {
    var after := LegacyCommit(db, stream, db.streams[stream].next, end, window, request, returned, logs).value;
    LegacyTables(db, stream, db.streams[stream].next, end, window, request, returned, logs);
    var batch := ReadLogs(stream, db.pools, logs).value;
    TradeBatchOrdered(chain, stream, db.streams[stream].next, end, logs);
    TradeBatch(stream, db.pools, logs);
    CommitMoves(db, stream, end, window, request, returned, logs);
    hide Commit, LegacyCommit, Seen, Covered, AllSeen, Faithful, LegacyFaithful, Observe, LegacyJoin, ReadLogs,
         ChainOk, PoolsApart, Honest, InOrder, PoolsFrom, Ahead;
    ObserveFaithful(batch.sightings);
    NewSightingsAhead(chain, db, stream, end, logs);
    LegacyJoinFaithful(db.wallets, Observe(batch.sightings), AllSeen(chain, db), Seen(LogSet(logs), stream, db.pools),
                       stream.Exchange?);
    AllSeenGrows(chain, db, after, stream, end, window, logs);
  }

  lemma LegacyFactoryCommit(chain: set<Log>, db: Db, end: nat, window: nat, request: nat, returned: nat, logs: seq<Log>)
    requires ChainOk(chain) && PoolsApart(chain) && (forall s: Stream :: s in db.streams) && PoolsRight(chain, db)
    requires db.streams[Amm].next <= db.streams[Factory].next
    requires db.streams[Factory].start <= db.streams[Factory].next <= end
    requires Honest(chain, Factory, db.streams[Factory].next, end, logs)
    requires LegacyCommit(db, Factory, db.streams[Factory].next, end, window, request, returned, logs).Ok?
    ensures var after := LegacyCommit(db, Factory, db.streams[Factory].next, end, window, request, returned,
        logs).value;
      after.wallets == db.wallets && (forall s: Stream :: s in after.streams)
      && PoolsRight(chain, after) && AllSeen(chain, after) == AllSeen(chain, db)
  {
    var after := LegacyCommit(db, Factory, db.streams[Factory].next, end, window, request, returned, logs).value;
    hide Commit, LegacyCommit, AllSeen, Covered, Honest, ChainOk, PoolsApart, PoolsFrom, ReadLogs, AddPools;
    LegacyTables(db, Factory, db.streams[Factory].next, end, window, request, returned, logs);
    CommitMoves(db, Factory, end, window, request, returned, logs);
    FactoryCommit(chain, db, end, window, request, returned, logs);
    LegacyFactory(db, end, window, request, returned, logs);
    SameScan(chain, Commit(db, Factory, db.streams[Factory].next, end, window, request, returned, logs).value, after);
  }

  lemma LegacyCommitKeeps(chain: set<Log>, maxBlocks: nat, db: Db, stream: Stream, start: nat, end: nat, window: nat,
                          request: nat, returned: nat, logs: seq<Log>)
    requires ChainOk(chain) && PoolsApart(chain) && LegacyInv(chain, maxBlocks, db)
    requires start <= end && 1 <= window <= maxBlocks && Honest(chain, stream, start, end, logs)
    requires LegacyCommit(db, stream, start, end, window, request, returned, logs).Ok?
    ensures LegacyInv(chain, maxBlocks, LegacyCommit(db, stream, start, end, window, request, returned, logs).value)
  {
    var after := LegacyCommit(db, stream, start, end, window, request, returned, logs).value;
    hide Commit, LegacyCommit, AllSeen, LegacyFaithful, Honest, ChainOk, PoolsApart, PoolsRight, Tiled, ReadLogs,
         AddPools, Observe, LegacyJoin;
    LegacyTables(db, stream, start, end, window, request, returned, logs);
    CommitAdmitted(db, stream, start, end, window, request, returned, logs);
    CommitMoves(db, stream, end, window, request, returned, logs);
    AdvanceKeepsTiling(maxBlocks, db, after, stream, end, window);
    if stream.Factory? {
      LegacyFactoryCommit(chain, db, end, window, request, returned, logs);
    } else {
      LegacyTradeCommit(chain, db, stream, end, window, request, returned, logs);
      LegacySamePools(chain, db, stream, start, end, window, request, returned, logs);
    }
  }

  lemma LegacySamePools(chain: set<Log>, db: Db, stream: Stream, start: nat, end: nat, window: nat, request: nat,
                        returned: nat, logs: seq<Log>)
    requires Factory in db.streams && PoolsRight(chain, db) && !stream.Factory?
    requires LegacyCommit(db, stream, start, end, window, request, returned, logs).Ok?
    requires LegacyCommit(db, stream, start, end, window, request, returned, logs).value.pools == db.pools
    ensures var after := LegacyCommit(db, stream, start, end, window, request, returned, logs).value;
      Factory in after.streams && PoolsRight(chain, after)
  {
    hide ReadLogs, AddPools, Observe, Join, LegacyJoin, PoolsFrom;
  }

  lemma SameScan(chain: set<Log>, a: Db, b: Db)
    requires (forall s: Stream :: s in a.streams) && a.streams == b.streams && a.pools == b.pools
    ensures AllSeen(chain, a) == AllSeen(chain, b)
  {
  }

  lemma LegacyFactory(db: Db, end: nat, window: nat, request: nat, returned: nat, logs: seq<Log>)
    requires Factory in db.streams
    requires LegacyCommit(db, Factory, db.streams[Factory].next, end, window, request, returned, logs).Ok?
    ensures LegacyCommit(db, Factory, db.streams[Factory].next, end, window, request, returned, logs).value.wallets
      == db.wallets
  {
    FactoryBatch(db.pools, logs, Pool(0, 0, 0, 0, [], Log(false, 0, [], [], 0, 0, 0)));
    hide ReadLogs, Commit;
    assert LegacyJoin(db.wallets, map[]) == db.wallets;
  }

  lemma LegacyShrinkKeeps(chain: set<Log>, maxBlocks: nat, db: Db, stream: Stream, start: nat, window: nat)
    requires LegacyInv(chain, maxBlocks, db) && 1 <= window <= maxBlocks
    ensures LegacyInv(chain, maxBlocks, db.(streams := SetWindow(db.streams, stream, start, window)))
  {
    var after := db.(streams := SetWindow(db.streams, stream, start, window));
    hide Selected, LegacyFaithful, PoolsFrom, Seen;
    forall s: Stream ensures Covered(chain, s, after.streams[s]) == Covered(chain, s, db.streams[s]) {
    }
  }

  /** What every run of the older collector leaves. */
  lemma {:induction false} LegacyRunKeeps(chain: set<Log>, maxBlocks: nat, db: Db, steps: seq<Step>)
    requires ChainOk(chain) && PoolsApart(chain) && LegacyInv(chain, maxBlocks, db)
    requires forall i :: 0 <= i < |steps| ==> StepOk(chain, maxBlocks, steps[i])
    ensures LegacyInv(chain, maxBlocks, LegacyRun(db, steps))
  {
    hide LegacyInv, ChainOk, PoolsApart, LegacyCommit;
    if steps != [] {
      var n := |steps| - 1;
      var before := LegacyRun(db, steps[..n]);
      LegacyRunKeeps(chain, maxBlocks, db, steps[..n]);
      match steps[n] {
        case TryCommit(stream, start, end, window, request, returned, logs) =>
          if LegacyCommit(before, stream, start, end, window, request, returned, logs).Ok? {
            LegacyCommitKeeps(chain, maxBlocks, before, stream, start, end, window, request, returned, logs);
          }
        case Shrink(stream, start, window) => LegacyShrinkKeeps(chain, maxBlocks, before, stream, start, window);
        case Nothing =>
      }
    }
  }

  lemma LegacyInitial(chain: set<Log>, starts: map<Stream, nat>, maxBlocks: nat)
    requires ConfigOk(starts, maxBlocks)
    ensures LegacyInv(chain, maxBlocks, Initial(starts, maxBlocks))
  {
    InitialInv(chain, starts, maxBlocks);
    hide AllSeen, PoolsRight;
  }
}
