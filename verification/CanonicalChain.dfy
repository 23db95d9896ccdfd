/**
 * Chains whose logs are the canonical encodings of what the venue's contracts report. On such a chain every complete
 * reply is valid and every range that reaches the database can be committed.
 */
module CanonicalChain {
  import opened Outcomes
  import opened EthLogs
  import opened WalletTable
  import opened Registry
  import opened RegistryRuns

  /** What a factory event reports. */
  datatype Creation = Creation(pool: Address, creator: Address, ctf: Address, collateral: Address, fee: Word,
                               conditionIds: seq<Word>)

  function CreationWords(c: Creation): seq<Word> {
    [c.pool, 96, c.fee, |c.conditionIds|] + c.conditionIds
  }

  ghost predicate IsCreation(l: Log, c: Creation) {
    && l.emitter == FACTORY && l.topics == [CREATION, c.creator, c.ctf, c.collateral]
    && l.data == JoinWords(CreationWords(c)) && Encodable(CreationWords(c)) && c.conditionIds != []
    && 0 < c.pool < Bound(20) && 0 < c.creator < Bound(20) && 0 < c.collateral < Bound(20) && c.ctf < Bound(20)
  }

  /** The log creates a pool of the conditional tokens contract that is followed. */
  ghost predicate Founds(l: Log, c: Creation) {
    IsCreation(l, c) && c.ctf == CTF
  }

  ghost predicate IsFillV1(l: Log, fill: FillV1) {
    && |l.topics| == 4 && l.topics[0] == FILLED_V1 && l.emitter in CLOB_V1
    && l.topics[2] < Bound(20) && l.topics[3] < Bound(20)
    && l.data == JoinWords(WordsV1(fill)) && Encodable(WordsV1(fill))
    && (fill.makerAsset == 0) != (fill.takerAsset == 0)
  }

  ghost predicate IsFillV2(l: Log, fill: FillV2) {
    && |l.topics| == 4 && l.topics[0] == FILLED_V2 && l.emitter in CLOB_V2
    && l.topics[2] < Bound(20) && l.topics[3] < Bound(20)
    && l.data == JoinWords(WordsV2(fill)) && Encodable(WordsV2(fill)) && fill.side <= 1
  }

  ghost predicate FactoryLog(l: Log) {
    exists c :: IsCreation(l, c)
  }

  ghost predicate ExchangeLog(l: Log) {
    (exists fill :: IsFillV1(l, fill)) || exists fill :: IsFillV2(l, fill)
  }

  ghost predicate PoolLog(l: Log) {
    exists trade :: Trades(l, trade)
  }

  /** Logs of the factory and of the exchanges are canonical, and so are the trades of the pools it founded. */
  ghost predicate CanonicalLogs(chain: set<Log>) {
    && (forall l :: l in chain && l.emitter == FACTORY && l.topics != [] && l.topics[0] == CREATION ==> FactoryLog(l))
    && (forall l :: l in chain && l.emitter in EXCHANGES && l.topics != [] && l.topics[0] in {FILLED_V1, FILLED_V2} ==>
          ExchangeLog(l))
    && (forall f, c, l ::
          f in chain && Founds(f, c) && l in chain && l.emitter == c.pool && Selected(Amm, l) ==> PoolLog(l))
  }

  /**
   * Moreover no log was removed, blocks and block hashes correspond, and the creation of a pool address is reported
   * by one log.
   */
  ghost predicate Canonical(chain: set<Log>) {
    && CanonicalLogs(chain)
    && (forall l :: l in chain ==> !l.removed)
    && (forall l, m :: l in chain && m in chain ==> (l.block == m.block <==> l.blockHash == m.blockHash))
    && forall f, g, c, d :: f in chain && g in chain && Founds(f, c) && Founds(g, d) && c.pool == d.pool ==> f == g
  }

  // ---------------------------------------------------------------- canonical logs decode

  /** A factory event decodes to its pool, or to none if it is of another conditional tokens contract. */
  lemma CreationDecodes(l: Log, c: Creation)
    requires IsCreation(l, c)
    ensures DecodePool(l) ==
      Ok(if c.ctf == CTF then Some(Pool(c.pool, l.block, c.creator, c.collateral, c.conditionIds, l)) else None)
  {
    hide SplitWords, JoinWords, Bound;
    var ws := CreationWords(c);
    WordsRoundTrip(ws);
    assert Words(l.data) == Ok(ws) && ws[4..] == c.conditionIds;
  }

  lemma FillDecodes(l: Log)
    requires ExchangeLog(l)
    ensures DecodeTraders(l, None).Ok?
  {
    hide DecodeTraders, JoinWords, Bound;
    if fill :| IsFillV1(l, fill) {
      FillNamesItsTraders(l, None, fill, Trader(0, 0));
    } else {
      var fill :| IsFillV2(l, fill);
      SidedFillNamesItsTraders(l, None, fill, Trader(0, 0));
    }
  }

  /** A stored pool was founded by a log of the chain, and what it emitted from then on decodes. */
  lemma PoolTradeDecodes(chain: set<Log>, db: Db, l: Log)
    requires Canonical(chain) && ChainOk(chain) && Factory in db.streams && PoolsRight(chain, db)
    requires l in chain && Selected(Amm, l)
    ensures DecodeTraders(l, Get(db.pools, l.emitter)).Ok?
  {
    hide DecodeTraders, JoinWords, Bound, DecodePool, Encodable, Covered;
    if l.emitter in db.pools {
      var pool := db.pools[l.emitter];
      var f :| f in Covered(chain, Factory, db.streams[Factory]) && Announces(f, pool);
      var c := Founder(chain, db.streams[Factory], f, pool);
      assert PoolLog(l);
      var trade :| Trades(l, trade);
      PoolTradeNamesItsTrader(l, Some(pool), trade, Trader(0, 0));
    } else {
      PoolTradeNamesItsTrader(l, None, PoolTrade(0, 0, 0), Trader(0, 0));
    }
  }

  /** An announced pool was founded, by that log. */
  lemma Founder(chain: set<Log>, row: StreamRow, f: Log, pool: Pool) returns (c: Creation)
    requires Canonical(chain) && f in Covered(chain, Factory, row) && Announces(f, pool)
    ensures f in chain && Founds(f, c)
    ensures pool == Pool(c.pool, f.block, c.creator, c.collateral, c.conditionIds, f)
  {
    hide DecodePool, IsCreation;
    assert FactoryLog(f);
    c :| IsCreation(f, c);
    CreationDecodes(f, c);
  }

  lemma LogReads(chain: set<Log>, db: Db, stream: Stream, l: Log, batch: Batch)
    requires Canonical(chain) && ChainOk(chain) && Factory in db.streams && PoolsRight(chain, db)
    requires l in chain && Selected(stream, l)
    ensures ReadLog(batch, stream, db.pools, l).Ok?
  {
    hide DecodePool, DecodeTraders, IsCreation, ChainOk, PoolsRight;
    match stream {
      case Factory =>
        assert FactoryLog(l);
        var c :| IsCreation(l, c);
        CreationDecodes(l, c);
      case Amm => PoolTradeDecodes(chain, db, l);
      case Exchange => FillDecodes(l);
    }
  }

  /** Every reply of a canonical chain decodes. */
  lemma {:induction false} RangeReads(chain: set<Log>, db: Db, stream: Stream, logs: seq<Log>)
    requires Canonical(chain) && ChainOk(chain) && Factory in db.streams && PoolsRight(chain, db)
    requires forall l :: l in logs ==> l in chain && Selected(stream, l)
    ensures ReadLogs(stream, db.pools, logs).Ok?
  {
    hide Canonical, ChainOk, PoolsRight, Selected, ReadLog;
    if logs != [] {
      var n := |logs| - 1;
      RangeReads(chain, db, stream, logs[..n]);
      LogReads(chain, db, stream, logs[n], ReadLogs(stream, db.pools, logs[..n]).value);
    }
  }

  // ---------------------------------------------------------------- canonical ranges commit

  /** Pools of one address were created by one log. */
  ghost predicate OneCreation(pools: Pools, found: seq<Pool>) {
    && (forall p, q :: p in found && q in found && p.address == q.address ==> p.creationLog == q.creationLog)
    && (forall p :: p in found && p.address in pools ==> pools[p.address].creationLog == p.creationLog)
  }

  /** Inserting pools is refused exactly when two logs created one address. */
  lemma {:induction false} PoolsInsert(pools: Pools, found: seq<Pool>)
    ensures AddPools(pools, found).Ok? <==> OneCreation(pools, found)
    ensures AddPools(pools, found).Ok? ==> FirstStays(pools, found, AddPools(pools, found).value)
  {
    if found != [] {
      var front, p := found[..|found| - 1], found[|found| - 1];
      PoolsInsert(pools, front);
      assert found == front + [p];
      OneMoreCreation(pools, front, p);
    }
  }

  /** Every address keeps what was stored first, and every pool found is stored under its address. */
  ghost predicate FirstStays(pools: Pools, found: seq<Pool>, after: Pools) {
    && (forall a :: a in pools ==> a in after && after[a] == pools[a])
    && (forall a :: a in after && a !in pools ==> after[a] in found && after[a].address == a)
    && forall p :: p in found ==> p.address in after
  }

  lemma OneMoreCreation(pools: Pools, front: seq<Pool>, p: Pool)
    requires AddPools(pools, front).Ok? <==> OneCreation(pools, front)
    requires AddPools(pools, front).Ok? ==> FirstStays(pools, front, AddPools(pools, front).value)
    ensures AddPools(pools, front + [p]).Ok? <==> OneCreation(pools, front + [p])
    ensures AddPools(pools, front + [p]).Ok? ==> FirstStays(pools, front + [p], AddPools(pools, front + [p]).value)
  {
    var found := front + [p];
    assert found[..|front|] == front && forall q :: q in found <==> q in front || q == p;
    assert OneCreation(pools, found) ==> OneCreation(pools, front);
    if AddPools(pools, front).Ok? {
      var stored := AddPools(pools, front).value;
      NextCreation(pools, front, p, stored);
      StoredNext(pools, front, p, stored);
      hide AddPools, OneCreation, FirstStays;
    }
  }

  lemma NextCreation(pools: Pools, front: seq<Pool>, p: Pool, stored: Pools)
    requires OneCreation(pools, front) && FirstStays(pools, front, stored)
    ensures OneCreation(pools, front + [p])
      <==> (p.address in stored ==> stored[p.address].creationLog == p.creationLog)
  {
    var found := front + [p];
    assert found[|front|] == p && forall q :: q in found <==> q in front || q == p;
    if p.address in stored {
      var first := stored[p.address];
      assert (p.address in pools && pools[p.address] == first) || (first in front && first.address == p.address);
      if first.creationLog == p.creationLog {
        SameCreation(pools, front, p, first);
      }
    }
  }

  lemma StoredNext(pools: Pools, front: seq<Pool>, p: Pool, stored: Pools)
    requires FirstStays(pools, front, stored)
    ensures FirstStays(pools, front + [p], if p.address in stored then stored else stored[p.address := p])
  {
    assert forall q :: q in front + [p] <==> q in front || q == p;
  }

  lemma SameCreation(pools: Pools, front: seq<Pool>, p: Pool, first: Pool)
    requires OneCreation(pools, front) && first.creationLog == p.creationLog
    requires (p.address in pools && pools[p.address] == first) || (first in front && first.address == p.address)
    ensures OneCreation(pools, front + [p])
  {
  }

  lemma FoundOnce(chain: set<Log>, db: Db, logs: seq<Log>)
    requires Canonical(chain) && Factory in db.streams && PoolsRight(chain, db)
    requires forall l :: l in logs ==> l in chain && Selected(Factory, l)
    requires ReadLogs(Factory, db.pools, logs).Ok?
    ensures OneCreation(db.pools, ReadLogs(Factory, db.pools, logs).value.pools)
  {
    var found := ReadLogs(Factory, db.pools, logs).value.pools;
    StoredFounded(chain, db);
    hide ReadLogs, FoundedIn, PoolsRight, Canonical, OneCreation, AnnouncedIn, Selected;
    forall p | p in found ensures FoundedIn(chain, p) {
      FactoryBatch(db.pools, logs, p);
      FoundInRange(chain, logs, p);
    }
    AllFounded(chain, db.pools, found);
  }

  lemma StoredFounded(chain: set<Log>, db: Db)
    requires Canonical(chain) && Factory in db.streams && PoolsRight(chain, db)
    ensures forall a :: a in db.pools ==> db.pools[a].address == a && FoundedIn(chain, db.pools[a])
  {
    hide FoundedIn, Covered, Announces, Canonical;
    forall a | a in db.pools ensures FoundedIn(chain, db.pools[a]) {
      var f :| f in Covered(chain, Factory, db.streams[Factory]) && Announces(f, db.pools[a]);
      var c := Founder(chain, db.streams[Factory], f, db.pools[a]);
      ItIsFounded(chain, f, c);
    }
  }

  lemma AllFounded(chain: set<Log>, pools: Pools, found: seq<Pool>)
    requires Canonical(chain) && forall p :: p in found ==> FoundedIn(chain, p)
    requires forall a :: a in pools ==> pools[a].address == a && FoundedIn(chain, pools[a])
    ensures OneCreation(pools, found)
  {
    hide FoundedIn, Canonical;
    forall p, q | FoundedIn(chain, p) && FoundedIn(chain, q) && p.address == q.address
      ensures p.creationLog == q.creationLog
    {
      OneFounder(chain, p, q);
    }
  }

  /** The pool was founded by a log of the chain. */
  ghost predicate FoundedIn(chain: set<Log>, p: Pool) {
    exists f, c :: f in chain && Founds(f, c) && p == PoolOf(f, c)
  }

  lemma ItIsFounded(chain: set<Log>, f: Log, c: Creation)
    requires f in chain && Founds(f, c)
    ensures FoundedIn(chain, PoolOf(f, c))
  {
  }

  lemma OneFounder(chain: set<Log>, p: Pool, q: Pool)
    requires Canonical(chain) && FoundedIn(chain, p) && FoundedIn(chain, q) && p.address == q.address
    ensures p.creationLog == q.creationLog
  {
    hide CanonicalLogs, IsCreation;
    var f, c :| f in chain && Founds(f, c) && p == PoolOf(f, c);
    var g, d :| g in chain && Founds(g, d) && q == PoolOf(g, d);
  }

  lemma FoundInRange(chain: set<Log>, logs: seq<Log>, p: Pool)
    requires Canonical(chain) && AnnouncedIn(logs, p)
    requires forall l :: l in logs ==> l in chain && Selected(Factory, l)
    ensures FoundedIn(chain, p)
  {
    hide DecodePool, IsCreation;
    var f :| f in logs && Created(f) == Some(p);
    assert FactoryLog(f);
    var c :| IsCreation(f, c);
    CreationDecodes(f, c);
    assert Founds(f, c) && p == PoolOf(f, c);
  }

  function PoolOf(f: Log, c: Creation): Pool {
    Pool(c.pool, f.block, c.creator, c.collateral, c.conditionIds, f)
  }

  /** An honest range of a canonical chain commits wherever the checkpoint admits it. */
  lemma RangeCommits(chain: set<Log>, db: Db, stream: Stream, end: nat, window: nat, request: nat, returned: nat,
                     logs: seq<Log>)
    requires Canonical(chain) && ChainOk(chain) && Factory in db.streams && PoolsRight(chain, db)
    requires stream in db.streams && Honest(chain, stream, db.streams[stream].next, end, logs)
    requires stream.Amm? ==> end < db.streams[Factory].next
    ensures Commit(db, stream, db.streams[stream].next, end, window, request, returned, logs).Ok?
    ensures Commit(db, stream, db.streams[stream].next, end, window, request, returned, logs).value.ranges ==
      db.ranges + [Range(stream, db.streams[stream].next, end, request, returned, |logs|,
                         Qualifying(stream, db.pools, logs))]
  {
    RangeReads(chain, db, stream, logs);
    var batch := ReadLogs(stream, db.pools, logs).value;
    if stream.Factory? {
      FoundOnce(chain, db, logs);
    } else {
      TradeBatch(stream, db.pools, logs);
    }
    hide Canonical, ChainOk, PoolsRight, ReadLogs, AddPools, Observe, Join, OneCreation;
    assert OneCreation(db.pools, batch.pools) by { NoneCreated(db.pools); }
    PoolsInsert(db.pools, batch.pools);
    AllQualified(stream, db.pools, logs);
  }

  /** The log founds a pool, or names a trader. */
  ghost predicate Qualifies(stream: Stream, pools: Pools, l: Log) {
    if stream.Factory? then Created(l).Some? else LogSightings(stream, pools, l) != []
  }

  /** How many of the logs do. */
  ghost function Qualifying(stream: Stream, pools: Pools, logs: seq<Log>): nat {
    if logs == [] then 0
    else Qualifying(stream, pools, logs[..|logs| - 1])
         + if Qualifies(stream, pools, logs[|logs| - 1]) then 1 else 0
  }

  lemma {:induction false} AllQualified(stream: Stream, pools: Pools, logs: seq<Log>)
    requires ReadLogs(stream, pools, logs).Ok?
    ensures ReadLogs(stream, pools, logs).value.qualified == Qualifying(stream, pools, logs)
  {
    hide DecodePool, DecodeTraders, PoolFor;
    if logs != [] {
      AllQualified(stream, pools, logs[..|logs| - 1]);
    }
  }

  lemma NoneCreated(pools: Pools)
    ensures OneCreation(pools, [])
  {
  }
}
