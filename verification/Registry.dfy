/**
 * The registry database: atomic range commits over three block streams, and the store object that
 * performs them and keeps cached totals.
 */
module Registry {
  import opened Outcomes
  import opened EthLogs
  import opened WalletTable

  datatype Stream = Factory | Amm | Exchange
  datatype StreamRow = StreamRow(start: nat, next: nat, window: nat)
  datatype Range = Range(stream: Stream, start: nat, end: nat, request: nat, returned: nat, unique: nat, qualified: nat)

  type Pools = map<Address, Pool>

  /** The durable tables. */
  datatype Db = Db(wallets: Table, pools: Pools, ranges: seq<Range>, streams: map<Stream, StreamRow>)

  datatype CommitError =
    | Undecodable(reason: DecodeError) | NoncontiguousCheckpoint | FactoryBehind | ConflictingPool | RolledBack

  /** What one reply contributes: new pools, sightings in chain order and the number of qualifying logs. */
  datatype Batch = Batch(pools: seq<Pool>, sightings: seq<Sighting>, qualified: nat)

  // ---------------------------------------------------------------- the commit as a function

  function PoolFor(stream: Stream, pools: Pools, log: Log): Option<Pool> {
    if stream.Amm? then Get(pools, log.emitter) else None
  }

  function SightingsOf(log: Log, pool: Option<Pool>, traders: seq<Trader>): seq<Sighting> {
    seq(|traders|, i requires 0 <= i < |traders| => Sighting(traders[i].wallet, traders[i].role, log, i, pool))
  }

  function ReadLog(batch: Batch, stream: Stream, pools: Pools, log: Log): Result<Batch, CommitError> {
    if stream.Factory? then
      match DecodePool(log)
      case Err(e) => Err(Undecodable(e))
      case Ok(None) => Ok(batch)
      case Ok(Some(pool)) => Ok(batch.(pools := batch.pools + [pool], qualified := batch.qualified + 1))
    else
      match DecodeTraders(log, PoolFor(stream, pools, log))
      case Err(e) => Err(Undecodable(e))
      case Ok(traders) =>
        Ok(batch.(sightings := batch.sightings + SightingsOf(log, PoolFor(stream, pools, log), traders),
                  qualified := batch.qualified + if traders != [] then 1 else 0))
  }

  function ReadLogs(stream: Stream, pools: Pools, logs: seq<Log>): Result<Batch, CommitError> {
    if logs == [] then Ok(Batch([], [], 0))
    else
      var batch :- ReadLogs(stream, pools, logs[..|logs| - 1]);
      ReadLog(batch, stream, pools, logs[|logs| - 1])
  }

  function AddPools(pools: Pools, found: seq<Pool>): Result<Pools, CommitError> {
    if found == [] then Ok(pools)
    else
      var stored :- AddPools(pools, found[..|found| - 1]);
      var pool := found[|found| - 1];
      if pool.address !in stored then Ok(stored[pool.address := pool])
      else if stored[pool.address].creationLog != pool.creationLog then Err(ConflictingPool)
      else Ok(stored)
  }

  predicate Admissible(streams: map<Stream, StreamRow>, stream: Stream, start: nat, end: nat) {
    && stream in streams && streams[stream].next == start
    && (stream.Amm? ==> Factory in streams && end < streams[Factory].next)
  }

  /** The tables after one accepted range; every failure leaves them as they were. */
  function Commit(db: Db, stream: Stream, start: nat, end: nat, window: nat, request: nat, returned: nat,
                  logs: seq<Log>): Result<Db, CommitError>
  {
    var batch :- ReadLogs(stream, db.pools, logs);
    if stream !in db.streams || db.streams[stream].next != start then Err(NoncontiguousCheckpoint)
    else if !Admissible(db.streams, stream, start, end) then Err(FactoryBehind)
    else
      var pools :- AddPools(db.pools, batch.pools);
      Ok(Db(Join(db.wallets, Observe(batch.sightings)), pools,
            db.ranges + [Range(stream, start, end, request, returned, |logs|, batch.qualified)],
            db.streams[stream := StreamRow(db.streams[stream].start, end + 1, window)]))
  }

  // ---------------------------------------------------------------- cached totals

  datatype Totals = Totals(ranges: nat, unique: nat, qualified: nat)

  function AddRange(t: Totals, range: Range): Totals {
    Totals(t.ranges + 1, t.unique + range.unique, t.qualified + range.qualified)
  }

  /** A full recount of one stream's accepted ranges. */
  function Recount(ranges: seq<Range>, stream: Stream): Totals {
    if ranges == [] then Totals(0, 0, 0)
    else
      var t := Recount(ranges[..|ranges| - 1], stream);
      var last := ranges[|ranges| - 1];
      if last.stream == stream then AddRange(t, last) else t
  }

  function TotalsOf(cache: map<Stream, Totals>, stream: Stream): Totals {
    if stream in cache then cache[stream] else Totals(0, 0, 0)
  }

  // ---------------------------------------------------------------- batched upserts

  function Known(table: Table, ws: seq<Address>): nat {
    if ws == [] then 0 else Known(table, ws[..|ws| - 1]) + if ws[|ws| - 1] in table then 1 else 0
  }

  ghost predicate Distinct(ws: seq<Address>) {
    forall i, j :: 0 <= i < j < |ws| ==> ws[i] != ws[j]
  }

  ghost function Only(rows: Table, ws: set<Address>): Table {
    map w | w in rows && w in ws :: rows[w]
  }

  lemma JoinOneMore(table: Table, rows: Table, ws: set<Address>, w: Address)
    requires w in rows && w !in ws
    ensures Join(table, Only(rows, ws + {w})) == Upsert(Join(table, Only(rows, ws)), w, rows[w])
    ensures w in Join(table, Only(rows, ws)) <==> w in table
  {
  }

  /** How many of the batch's wallets the table already has, as one covered lookup. */
  method CountKnown(table: Table, batch: seq<Address>) returns (known: nat)
    ensures known == Known(table, batch) <= |batch|
  {
    known := 0;
    for i := 0 to |batch|
      invariant known == Known(table, batch[..i]) <= i
    {
      assert batch[..i + 1][..i] == batch[..i];
      known := known + if batch[i] in table then 1 else 0;
    }
    assert batch[..|batch|] == batch;
  }

  function Among(ws: seq<Address>): set<Address> {
    set w | w in ws
  }

  lemma PrefixGrows(table: Table, ws: seq<Address>, i: nat)
    requires Distinct(ws) && i < |ws|
    ensures Among(ws[..i + 1]) == Among(ws[..i]) + {ws[i]} && ws[i] !in Among(ws[..i])
    ensures Known(table, ws[..i + 1]) == Known(table, ws[..i]) + if ws[i] in table then 1 else 0
  {
    assert ws[..i + 1][..i] == ws[..i];
    assert ws[..i + 1] == ws[..i] + [ws[i]];
  }

  lemma SliceFollows(ws: seq<Address>, i: nat, j: nat)
    requires Distinct(ws) && i <= j <= |ws|
    ensures Among(ws[..j]) == Among(ws[..i]) + Among(ws[i..j])
    ensures Distinct(ws[i..j]) && forall k :: 0 <= k < j - i ==> ws[i..j][k] !in Among(ws[..i]) && ws[i..j][k] in ws
  {
    assert ws[..j] == ws[..i] + ws[i..j];
    assert forall k :: 0 <= k < j - i ==> ws[i..j][k] == ws[i + k];
  }

  /** `executemany` of the upsert over one batch, counting the genuinely new wallets first. */
  method UpsertBatch(table: Table, rows: Table, batch: seq<Address>, ghost before: Table, ghost done: set<Address>)
      returns (after: Table, added: nat)
    requires Distinct(batch) && forall i :: 0 <= i < |batch| ==> batch[i] in rows && batch[i] !in done
    requires table == Join(before, Only(rows, done))
    ensures after == Join(before, Only(rows, done + Among(batch)))
    ensures |after| == |table| + added
  {
    var known := CountKnown(table, batch);
    added := |batch| - known;
    after := table;
    assert done + Among(batch[..0]) == done;
    assert batch[..|batch|] == batch;
    hide Join, Only, Merge, Among, Known;
    for i := 0 to |batch|
      invariant after == Join(before, Only(rows, done + Among(batch[..i])))
      invariant |after| + Known(table, batch[..i]) == |table| + i
    {
      var w := batch[i];
      PrefixGrows(table, batch, i);
      assert done + Among(batch[..i]) + {w} == done + Among(batch[..i + 1]);
      JoinOneMore(before, rows, done + Among(batch[..i]), w);
      JoinOneMore(before, rows, done, w);
      after := Upsert(after, w, rows[w]);
    }
  }

  /** The wallet entries, upserted 500 at a time. */
  method UpsertAll(wallets: Table, rows: Table, order: seq<Address>) returns (table: Table, added: nat)
    requires Distinct(order) && forall w :: w in order <==> w in rows
    ensures table == Join(wallets, rows) && |table| == |wallets| + added
  {
    assert Join(wallets, Only(rows, Among(order[..0]))) == wallets;
    assert Only(rows, Among(order)) == rows;
    hide Join, Only, Among;
    table, added := wallets, 0;
    var offset := 0;
    while offset < |order|
      invariant 0 <= offset <= |order|
      invariant table == Join(wallets, Only(rows, Among(order[..offset]))) && |table| == |wallets| + added
    {
      var stop := if offset + 500 <= |order| then offset + 500 else |order|;
      SliceFollows(order, offset, stop);
      var more;
      table, more := UpsertBatch(table, rows, order[offset..stop], wallets, Among(order[..offset]));
      added := added + more;
      offset := stop;
    }
    assert order[..offset] == order;
  }

  /** `INSERT OR IGNORE` of the discovered pools, refusing a second creation of the same address. */
  method InsertPools(pools: Pools, found: seq<Pool>) returns (out: Result<(Pools, nat), CommitError>)
    ensures out.Ok? <==> AddPools(pools, found).Ok?
    ensures out.Ok? ==> out.value.0 == AddPools(pools, found).value && |out.value.0| == |pools| + out.value.1
  {
    var stored, added := pools, 0;
    for i := 0 to |found|
      invariant AddPools(pools, found[..i]) == Ok(stored) && |stored| == |pools| + added
    {
      var pool := found[i];
      assert found[..i + 1][..i] == found[..i];
      if pool.address !in stored {
        stored := stored[pool.address := pool];
        added := added + 1;
      } else if stored[pool.address].creationLog != pool.creationLog {
        PoolsPrefixFails(pools, found, i + 1);
        return Err(ConflictingPool);
      }
    }
    assert found[..|found|] == found;
    out := Ok((stored, added));
  }

  /** Decodes a whole reply into pools, per-wallet observations and the qualifying count. */
  method Gather(stream: Stream, pools: Pools, logs: seq<Log>)
      returns (out: Result<(seq<Pool>, Table, seq<Address>, nat), CommitError>)
    ensures out.Err? <==> ReadLogs(stream, pools, logs).Err?
    ensures out.Err? ==> out.error == ReadLogs(stream, pools, logs).error
    ensures out.Ok? ==>
      Gathered(ReadLogs(stream, pools, logs).value, out.value.0, out.value.1, out.value.2, out.value.3)
  {
    hide DecodePool, DecodeTraders;
    var found: seq<Pool> := [];
    var rows: Table := map[];
    var order: seq<Address> := [];
    var qualified := 0;
    ghost var sightings: seq<Sighting> := [];
    for i := 0 to |logs|
      invariant ReadLogs(stream, pools, logs[..i]) == Ok(Batch(found, sightings, qualified))
      invariant Gathered(Batch(found, sightings, qualified), found, rows, order, qualified)
    {
      var log := logs[i];
      assert logs[..i + 1][..i] == logs[..i];
      ghost var step := ReadLog(Batch(found, sightings, qualified), stream, pools, log);
      assert ReadLogs(stream, pools, logs[..i + 1]) == step;
      if stream.Factory? {
        var pool := DecodePool(log);
        if pool.Err? {
          PrefixFails(stream, pools, logs, i + 1);
          return Err(Undecodable(pool.error));
        }
        if pool.value.Some? {
          found := found + [pool.value.value];
          qualified := qualified + 1;
        }
      } else {
        var pool := PoolFor(stream, pools, log);
        var traders := DecodeTraders(log, pool);
        if traders.Err? {
          PrefixFails(stream, pools, logs, i + 1);
          return Err(Undecodable(traders.error));
        }
        rows, order := NoteTraders(rows, order, sightings, SightingsOf(log, pool, traders.value));
        sightings := sightings + SightingsOf(log, pool, traders.value);
        qualified := qualified + if traders.value != [] then 1 else 0;
      }
    }
    assert logs[..|logs|] == logs;
    out := Ok((found, rows, order, qualified));
  }

  ghost predicate Gathered(batch: Batch, found: seq<Pool>, rows: Table, order: seq<Address>, qualified: nat) {
    && found == batch.pools && rows == Observe(batch.sightings) && qualified == batch.qualified
    && Distinct(order) && forall w :: w in order <==> w in rows
  }

  // ---------------------------------------------------------------- the store object

  class Store {
    var wallets: Table
    var pools: Pools
    var ranges: seq<Range>
    var streams: map<Stream, StreamRow>
    var requests: nat

    // Caches of this invocation, rebuilt by a recount whenever they are not known to be current.
    var walletCount: nat
    var poolCount: nat
    var requestCount: nat
    var rangeTotals: map<Stream, Totals>
    var totalsValid: bool

    function Tables(): Db
      reads this
    {
      Db(wallets, pools, ranges, streams)
    }

    ghost predicate CountsRight()
      reads this
    {
      && walletCount == |wallets| && poolCount == |pools| && requestCount == requests
      && forall s :: TotalsOf(rangeTotals, s) == Recount(ranges, s)
    }

    /** Cached totals that claim to be current agree with a full recount of the tables. */
    ghost predicate Valid()
      reads this
    {
      totalsValid ==> CountsRight()
    }

    /** Opens a database left by an earlier process; nothing of that process but the tables survives. */
    constructor (db: Db, requests: nat)
      ensures Valid() && totalsValid && Tables() == db && this.requests == requests
    {
      wallets, pools, ranges, streams := db.wallets, db.pools, db.ranges, db.streams;
      this.requests := requests;
      walletCount, poolCount, requestCount, rangeTotals, totalsValid := 0, 0, 0, map[], false;
      new;
      SeedStatusTotals();
    }

    method SeedStatusTotals()
      modifies this`walletCount, this`poolCount, this`requestCount, this`rangeTotals, this`totalsValid
      ensures totalsValid && CountsRight()
    {
      walletCount, poolCount, requestCount := |wallets|, |pools|, requests;
      var totals: map<Stream, Totals> := map[];
      for i := 0 to |ranges|
        invariant forall s :: TotalsOf(totals, s) == Recount(ranges[..i], s)
      {
        assert ranges[..i + 1][..i] == ranges[..i];
        var range := ranges[i];
        totals := totals[range.stream := AddRange(TotalsOf(totals, range.stream), range)];
      }
      assert ranges[..|ranges|] == ranges;
      rangeTotals := totals;
      totalsValid := true;
    }

    method EnsureStatusTotals()
      requires Valid()
      modifies this`walletCount, this`poolCount, this`requestCount, this`rangeTotals, this`totalsValid
      ensures totalsValid && CountsRight()
    {
      if !totalsValid {
        SeedStatusTotals();
      }
    }

    /** `stored` is false when the insert itself fails and is rolled back. */
    method RecordRequest(stored: bool) returns (id: Result<nat, CommitError>)
      requires Valid()
      modifies this`requests, this`walletCount, this`poolCount, this`requestCount, this`rangeTotals, this`totalsValid
      ensures Valid() && Tables() == old(Tables())
      ensures stored ==> requests == old(requests) + 1 && id == Ok(requests) && totalsValid
      ensures !stored ==> requests == old(requests) && id.Err?
    {
      EnsureStatusTotals();
      totalsValid := false;
      if !stored {
        return Err(RolledBack);
      }
      requests := requests + 1;
      id := Ok(requests);
      requestCount := requestCount + 1;
      totalsValid := true;
    }

    /** The durable writes of a commit and, after them, the counters of this invocation. */
    method Publish(table: Table, newWallets: nat, stored: Pools, newPools: nat, range: Range, window: nat)
      requires CountsRight() && range.stream in streams
      requires |table| == |wallets| + newWallets && |stored| == |pools| + newPools
      modifies this
      ensures totalsValid && CountsRight() && requests == old(requests)
      ensures wallets == table && pools == stored && ranges == old(ranges) + [range]
      ensures streams
        == old(streams)[range.stream := StreamRow(old(streams)[range.stream].start, range.end + 1, window)]
    {
      forall s ensures Recount(ranges + [range], s) ==
        if s == range.stream then AddRange(Recount(ranges, s), range) else Recount(ranges, s)
      {
        assert (ranges + [range])[..|ranges|] == ranges;
      }
      hide Recount;
      wallets, pools := table, stored;
      ranges := ranges + [range];
      streams := streams[range.stream := StreamRow(streams[range.stream].start, range.end + 1, window)];
      walletCount := walletCount + newWallets;
      poolCount := poolCount + newPools;
      rangeTotals := rangeTotals[range.stream := AddRange(TotalsOf(rangeTotals, range.stream), range)];
      totalsValid := true;
    }

    /** Commits one range atomically; `durable` is false when SQLite rolls the transaction back. */
    method CommitRange(stream: Stream, start: nat, end: nat, window: nat, request: nat, returned: nat,
                       logs: seq<Log>, durable: bool) returns (out: Result<(), CommitError>)
      requires Valid()
      modifies this
      ensures Valid() && requests == old(requests)
      ensures out.Err? ==> Tables() == old(Tables())
      ensures out.Ok? <==> durable && Commit(old(Tables()), stream, start, end, window, request, returned, logs).Ok?
      ensures out.Ok? ==> totalsValid
      ensures out.Ok? ==> Tables() == Commit(old(Tables()), stream, start, end, window, request, returned, logs).value
    {
      hide Join, Observe, ReadLogs, AddPools, Recount;
      var gathered := Gather(stream, pools, logs);
      if gathered.Err? {
        return Err(gathered.error);
      }
      var (found, rows, order, qualified) := gathered.value;
      EnsureStatusTotals();
      totalsValid := false;
      if stream !in streams || streams[stream].next != start {
        return Err(NoncontiguousCheckpoint);
      }
      if stream.Amm? && (Factory !in streams || end >= streams[Factory].next) {
        return Err(FactoryBehind);
      }
      var inserted := InsertPools(pools, found);
      if inserted.Err? {
        return Err(inserted.error);
      }
      var (stored, newPools) := inserted.value;
      var table, newWallets := UpsertAll(wallets, rows, order);
      if !durable {
        return Err(RolledBack);
      }
      Publish(table, newWallets, stored, newPools, Range(stream, start, end, request, returned, |logs|, qualified),
          window);
      return Ok(());
    }

    /** Remembers a smaller window for the stream's next attempt, without advancing it. */
    method SaveWindow(stream: Stream, start: nat, window: nat, durable: bool) returns (out: Result<(), CommitError>)
      requires Valid()
      modifies this`streams
      ensures Valid() && out == if durable then Ok(()) else Err(RolledBack)
      ensures streams == if durable then SetWindow(old(streams), stream, start, window) else old(streams)
    {
      if !durable {
        return Err(RolledBack);
      }
      if stream in streams && streams[stream].next == start {
        streams := streams[stream := streams[stream].(window := window)];
      }
      out := Ok(());
    }
  }

  function SetWindow(streams: map<Stream, StreamRow>, stream: Stream, start: nat, window: nat): map<Stream, StreamRow> {
    if stream in streams && streams[stream].next == start then streams[stream := streams[stream].(window := window)]
    else streams
  }

  lemma {:induction false} PrefixFails(stream: Stream, pools: Pools, logs: seq<Log>, n: nat)
    requires n <= |logs| && ReadLogs(stream, pools, logs[..n]).Err?
    ensures ReadLogs(stream, pools, logs) == ReadLogs(stream, pools, logs[..n])
    decreases |logs|
  {
    if n == |logs| {
      assert logs[..n] == logs;
    } else {
      assert logs[..|logs| - 1][..n] == logs[..n];
      PrefixFails(stream, pools, logs[..|logs| - 1], n);
    }
  }

  lemma {:induction false} PoolsPrefixFails(pools: Pools, found: seq<Pool>, n: nat)
    requires n <= |found| && AddPools(pools, found[..n]).Err?
    ensures AddPools(pools, found).Err?
    decreases |found|
  {
    if n == |found| {
      assert found[..n] == found;
    } else {
      assert found[..|found| - 1][..n] == found[..n];
      PoolsPrefixFails(pools, found[..|found| - 1], n);
    }
  }

  lemma ObserveStep(ss: seq<Sighting>)
    requires ss != []
    ensures Observe(ss) == Note(Observe(ss[..|ss| - 1]), ss[|ss| - 1])
  {
  }

  /** The dictionary of observations, with its keys in insertion order. */
  method NoteTraders(rows: Table, order: seq<Address>, ghost earlier: seq<Sighting>, ss: seq<Sighting>)
      returns (rows': Table, order': seq<Address>)
    requires rows == Observe(earlier)
    requires Distinct(order) && forall w :: w in order <==> w in rows
    ensures rows' == Observe(earlier + ss)
    ensures Distinct(order') && forall w :: w in order' <==> w in rows'
  {
    hide Observe;
    rows', order' := rows, order;
    assert earlier + ss[..0] == earlier;
    for i := 0 to |ss|
      invariant rows' == Observe(earlier + ss[..i])
      invariant Distinct(order') && forall w :: w in order' <==> w in rows'
    {
      assert (earlier + ss[..i + 1])[..|earlier| + i] == earlier + ss[..i];
      if ss[i].wallet !in rows' {
        order' := order' + [ss[i].wallet];
      }
      ObserveStep(earlier + ss[..i + 1]);
      rows' := Note(rows', ss[i]);
    }
    assert ss[..|ss|] == ss;
  }
}
