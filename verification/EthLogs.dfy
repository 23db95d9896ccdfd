/** Event logs as the collector receives them: ABI words, validation of a reply, decoding of events. */
module EthLogs {
  import opened Outcomes
  import opened Sorting

  type Byte = b: int | 0 <= b < 256
  type Address = nat
  type Word = nat

  /** One log of an `eth_getLogs` reply, with its hexadecimal fields already read as numbers. */
  datatype Log = Log(removed: bool, emitter: Address, topics: seq<Word>, data: seq<Byte>,
                     block: nat, blockHash: Word, index: nat)

  datatype Pool = Pool(address: Address, creationBlock: nat, creator: Address, collateral: Address,
                       conditionIds: seq<Word>, creationLog: Log)

  datatype Trader = Trader(wallet: Address, role: nat)

  datatype DecodeError =
    | NotHexWords | AddressPadding | InvalidFactoryEvent | InvalidFactoryArray | ZeroFactoryAddress
    | InvalidExchangeEvent | UnexpectedAbi | InvalidAssetPair | InvalidSide | InvalidAmmTopics
    | TradeBeforePool | UnsupportedEvent
    | RemovedLog | MissingTopics | OutsideQuery | ConflictingHashes | ConflictingDuplicate

  const ZERO: Address := 0
  const FACTORY: Address := 0x8b9805a2f595b6705e74f7310829f2d299d21522
  const CTF: Address := 0x4d97dcd97ec945f40cf65f87097ace5ea0476045
  const CLOB_V1: set<Address> :=
    {0x4bfb41d5b3570defd03c39a9a4d8de6bd8b8982e, 0xc5d563a36ae78145c45a50134d48a1215220f80a}
  const CLOB_V2: set<Address> :=
    {0xe111180000d2663c0091e4f400237545b87b996b, 0xe2222d279d744050d28e00520010520000310f59,
     0xe3333700ca9d93003f00f0f71f8515005f6c00aa}
  const EXCHANGES: set<Address> := CLOB_V1 + CLOB_V2
  const INFRASTRUCTURE: set<Address> := EXCHANGES + {FACTORY, CTF,
     0x12121212006e4cd160d18e3f00711da5c3372600, 0xada100db00ca00073811820692005400218fce1f,
     0xada2005600dec949baf300f4c6120000bdb6eaab, 0xd91e80cf2e7be2e162c6513ced06f1dd0da35296,
     0x006f54f7f9a22e0000cc2ab60031000000ae9fef}

  const FILLED_V1: Word := 0xd0a08e8c493f9c94f29311604c9de1b4e8c8d4c06bd0c789af57f2d65bfec0f6
  const FILLED_V2: Word := 0xd543adfd945773f1a62f74f0ee55a5e3b9b1a28262980ba90b1a89f2ea84d8ee
  const BUY: Word := 0x4f62630f51608fc8a7603a9391a5101e58bd7c276139366fc107dc3b67c3dcf8
  const SELL: Word := 0xadcf2a240ed9300d681d9a3f5382b6c1beed1b7e46643e0c7b42cbe6e2d766b4
  const CREATION: Word := 0x92e0912d3d7f3192cad5c7ae3b47fb97f9c465c1dd12a5c24fd901ddb3905f43

  // Role bits of the wallets table.
  const MAKER: nat := 1
  const COUNTERPARTY: nat := 2
  const AMM_BUYER: nat := 4
  const AMM_SELLER: nat := 8

  // ---------------------------------------------------------------- ABI words

  /** 256 to the power `n`: one more than the largest number of `n` bytes. */
  function Bound(n: nat): nat {
    if n == 0 then 1 else 256 * Bound(n - 1)
  }

  function FromBytes(bs: seq<Byte>): nat {
    if bs == [] then 0 else FromBytes(bs[..|bs| - 1]) * 256 + bs[|bs| - 1]
  }

  function ToBytes(n: nat, size: nat): (bs: seq<Byte>)
    ensures |bs| == size
  {
    if size == 0 then [] else ToBytes(n / 256, size - 1) + [n % 256]
  }

  function SplitWords(data: seq<Byte>): seq<Word>
    requires |data| % 32 == 0
  {
    if data == [] then [] else [FromBytes(data[..32])] + SplitWords(data[32..])
  }

  function JoinWords(ws: seq<Word>): seq<Byte> {
    if ws == [] then [] else ToBytes(ws[0], 32) + JoinWords(ws[1..])
  }

  function Words(data: seq<Byte>): Result<seq<Word>, DecodeError> {
    if |data| % 32 != 0 then Err(NotHexWords) else Ok(SplitWords(data))
  }

  function CountedWords(data: seq<Byte>, count: nat): Result<seq<Word>, DecodeError> {
    if |data| != count * 32 then Err(NotHexWords) else Ok(SplitWords(data))
  }

  /** A left-padded address: its twelve leading bytes must be zero. */
  function AddressWord(w: Word): Result<Address, DecodeError> {
    if w < Bound(20) then Ok(w) else Err(AddressPadding)
  }

  lemma {:induction false} BytesRoundTrip(n: nat, size: nat)
    requires n < Bound(size)
    ensures FromBytes(ToBytes(n, size)) == n
  {
    if size > 0 {
      BytesRoundTrip(n / 256, size - 1);
      var bs := ToBytes(n, size);
      assert bs[..|bs| - 1] == ToBytes(n / 256, size - 1);
    }
  }

  lemma {:induction false} NumberRoundTrip(bs: seq<Byte>)
    ensures FromBytes(bs) < Bound(|bs|) && ToBytes(FromBytes(bs), |bs|) == bs
  {
    if bs != [] {
      var front, last := bs[..|bs| - 1], bs[|bs| - 1];
      NumberRoundTrip(front);
      assert FromBytes(bs) / 256 == FromBytes(front) && FromBytes(bs) % 256 == last;
      assert bs == front + [last];
    }
  }

  /** Decoding inverts encoding for all words that fit in 32 bytes. */
  lemma {:induction false} WordsRoundTrip(ws: seq<Word>)
    requires forall i :: 0 <= i < |ws| ==> ws[i] < Bound(32)
    ensures |JoinWords(ws)| == 32 * |ws| && Words(JoinWords(ws)) == Ok(ws)
  {
    if ws != [] {
      WordsRoundTrip(ws[1..]);
      BytesRoundTrip(ws[0], 32);
      HeadWord(ToBytes(ws[0], 32), JoinWords(ws[1..]));
      assert ws == [ws[0]] + ws[1..];
      hide FromBytes, ToBytes, Bound, SplitWords;
    }
  }

  lemma HeadWord(head: seq<Byte>, rest: seq<Byte>)
    requires |head| == 32 && |rest| % 32 == 0
    ensures SplitWords(head + rest) == [FromBytes(head)] + SplitWords(rest)
  {
    hide FromBytes;
    assert (head + rest)[..32] == head && (head + rest)[32..] == rest;
  }

  /** Every accepted data string re-encodes to itself. */
  lemma {:induction false} DataRoundTrip(data: seq<Byte>)
    requires Words(data).Ok?
    ensures JoinWords(Words(data).value) == data
    ensures |Words(data).value| * 32 == |data|
    ensures forall i :: 0 <= i < |Words(data).value| ==> Words(data).value[i] < Bound(32)
  {
    if data != [] {
      DataRoundTrip(data[32..]);
      NumberRoundTrip(data[..32]);
      var ws := SplitWords(data);
      assert ws[1..] == SplitWords(data[32..]);
      assert data == data[..32] + data[32..];
    }
  }

  // ---------------------------------------------------------------- factory events

  function DecodePool(log: Log): Result<Option<Pool>, DecodeError> {
    if |log.topics| != 4 || log.topics[0] != CREATION || log.emitter != FACTORY then Err(InvalidFactoryEvent)
    else
      var creator :- AddressWord(log.topics[1]);
      var ctf :- AddressWord(log.topics[2]);
      var collateral :- AddressWord(log.topics[3]);
      var data :- Words(log.data);
      if |data| < 5 || data[1] != 96 || data[3] < 1 || |data| != 4 + data[3] then Err(InvalidFactoryArray)
      else
        var pool :- AddressWord(data[0]);
        if pool == ZERO || collateral == ZERO || creator == ZERO then Err(ZeroFactoryAddress)
        else if ctf != CTF then Ok(None)
        else Ok(Some(Pool(pool, log.block, creator, collateral, data[4..], log)))
  }

  /** The canonical factory event: head of pool, offset 96 and fee, then the counted condition ids. */
  function EncodeCreation(pool: Pool, fee: Word): seq<Byte> {
    JoinWords([pool.address, 96, fee, |pool.conditionIds|] + pool.conditionIds)
  }

  ghost predicate CanonicalCreation(log: Log, pool: Pool, fee: Word) {
    && log.emitter == FACTORY
    && log.topics == [CREATION, pool.creator, CTF, pool.collateral]
    && log.data == EncodeCreation(pool, fee)
    && pool.creationBlock == log.block && pool.creationLog == log
    && pool.conditionIds != []
    && ZERO < pool.address < Bound(20) && ZERO < pool.creator < Bound(20) && ZERO < pool.collateral < Bound(20)
    && fee < Bound(32) && |pool.conditionIds| < Bound(32)
    && forall i :: 0 <= i < |pool.conditionIds| ==> pool.conditionIds[i] < Bound(32)
  }

  lemma {:induction false} BoundGrows(m: nat, n: nat)
    requires m <= n
    ensures Bound(m) <= Bound(n)
    decreases n
  {
    if m < n {
      BoundGrows(m, n - 1);
      assert Bound(n - 1) >= 0;
    }
  }

  lemma SmallNumbers()
    ensures CTF < Bound(20) <= Bound(32) && 96 < Bound(32)
  {
    assert Bound(4) == 0x1_0000_0000;
    assert Bound(8) == 0x1_0000_0000 * 0x1_0000_0000;
    assert Bound(12) == Bound(8) * 0x1_0000_0000;
    assert Bound(16) == Bound(12) * 0x1_0000_0000;
    assert Bound(20) == Bound(16) * 0x1_0000_0000;
    BoundGrows(20, 32);
  }

  lemma DecodedIsCanonical(log: Log, pool: Pool) returns (fee: nat)
    requires DecodePool(log) == Ok(Some(pool))
    ensures CanonicalCreation(log, pool, fee)
  {
    hide SplitWords, JoinWords, Bound;
    DataRoundTrip(log.data);
    var ws := Words(log.data).value;
    fee := ws[2];
    assert ws == [pool.address, 96, fee, |pool.conditionIds|] + pool.conditionIds;
    assert log.topics == [CREATION, pool.creator, CTF, pool.collateral];
    assert ws[2] < Bound(32) && ws[3] < Bound(32);
    forall i | 0 <= i < |pool.conditionIds| ensures pool.conditionIds[i] < Bound(32) {
      assert pool.conditionIds[i] == ws[i + 4];
    }
  }

  lemma CanonicalIsDecoded(log: Log, pool: Pool, fee: nat)
    requires CanonicalCreation(log, pool, fee)
    ensures DecodePool(log) == Ok(Some(pool))
  {
    SmallNumbers();
    hide SplitWords, JoinWords, Bound;
    var ws := [pool.address, 96, fee, |pool.conditionIds|] + pool.conditionIds;
    forall i | 0 <= i < |ws| ensures ws[i] < Bound(32) {
      if i >= 4 { assert ws[i] == pool.conditionIds[i - 4]; }
    }
    WordsRoundTrip(ws);
    assert Words(log.data) == Ok(ws);
    assert ws[4..] == pool.conditionIds;
  }

  /** The decoder yields a pool exactly for the canonical encodings of that pool. */
  lemma PoolDecodingInverts(log: Log, pool: Pool)
    ensures DecodePool(log) == Ok(Some(pool)) <==> exists fee: nat :: CanonicalCreation(log, pool, fee)
  {
    if DecodePool(log) == Ok(Some(pool)) {
      var fee := DecodedIsCanonical(log, pool);
    }
    if fee: nat :| CanonicalCreation(log, pool, fee) {
      CanonicalIsDecoded(log, pool, fee);
    }
  }

  // ---------------------------------------------------------------- trade events

  function DecodeTraders(log: Log, pool: Option<Pool>): Result<seq<Trader>, DecodeError> {
    var traders :- RawTraders(log, pool);
    Ok(Eligible(traders))
  }

  function RawTraders(log: Log, pool: Option<Pool>): Result<seq<Trader>, DecodeError> {
    if log.topics == [] then Err(MissingTopics)
    else if log.topics[0] == FILLED_V1 || log.topics[0] == FILLED_V2 then
      if log.emitter !in EXCHANGES || |log.topics| != 4 then Err(InvalidExchangeEvent)
      else if log.topics[0] != (if log.emitter in CLOB_V1 then FILLED_V1 else FILLED_V2) then Err(UnexpectedAbi)
      else
        var amount :- if log.topics[0] == FILLED_V1 then TokensV1(log.data) else TokensV2(log.data);
        if amount == 0 then Ok([])
        else
          var maker :- AddressWord(log.topics[2]);
          var taker :- AddressWord(log.topics[3]);
          Ok([Trader(maker, MAKER), Trader(taker, COUNTERPARTY)])
    else if log.topics[0] == BUY || log.topics[0] == SELL then
      if pool.None? then Ok([])
      else if |log.topics| != 3 then Err(InvalidAmmTopics)
      else
        var trader :- AddressWord(log.topics[1]);
        var data :- CountedWords(log.data, 3);
        if log.block < pool.value.creationBlock then Err(TradeBeforePool)
        else if |data| == 3 && data[2] > 0 then
          Ok([Trader(trader, if log.topics[0] == BUY then AMM_BUYER else AMM_SELLER)])
        else Ok([])
    else Err(UnsupportedEvent)
  }

  /** Traded outcome tokens of a version 1 fill: the leg whose asset id is not the collateral id 0. */
  function TokensV1(data: seq<Byte>): Result<nat, DecodeError> {
    var ws :- CountedWords(data, 5);
    if |ws| != 5 || (ws[0] == 0) == (ws[1] == 0) then Err(InvalidAssetPair)
    else Ok(if ws[0] != 0 then ws[2] else ws[3])
  }

  function TokensV2(data: seq<Byte>): Result<nat, DecodeError> {
    var ws :- CountedWords(data, 7);
    if |ws| != 7 || ws[0] !in {0, 1} then Err(InvalidSide)
    else Ok(if ws[0] == 0 then ws[3] else ws[2])
  }

  function Eligible(traders: seq<Trader>): seq<Trader> {
    if traders == [] then []
    else (if traders[0].wallet != ZERO && traders[0].wallet !in INFRASTRUCTURE then [traders[0]] else [])
         + Eligible(traders[1..])
  }

  /** The order legs an exchange reports: asset ids (0 is the collateral) with the amounts filled. */
  datatype FillV1 = FillV1(makerAsset: Word, takerAsset: Word, makerAmount: Word, takerAmount: Word, fee: Word)

  /** Side 0 buys outcome tokens: the maker pays collateral and receives tokens. */
  datatype FillV2 = FillV2(side: Word, token: Word, makerAmount: Word, takerAmount: Word, fee: Word, bytesA: Word,
    bytesB: Word)

  function WordsV1(fill: FillV1): seq<Word> {
    [fill.makerAsset, fill.takerAsset, fill.makerAmount, fill.takerAmount, fill.fee]
  }

  function WordsV2(fill: FillV2): seq<Word> {
    [fill.side, fill.token, fill.makerAmount, fill.takerAmount, fill.fee, fill.bytesA, fill.bytesB]
  }

  ghost predicate Encodable(ws: seq<Word>) {
    forall i :: 0 <= i < |ws| ==> ws[i] < Bound(32)
  }

  lemma CountedRoundTrip(ws: seq<Word>, count: nat)
    requires Encodable(ws)
    ensures CountedWords(JoinWords(ws), count) == if |ws| == count then Ok(ws) else Err(NotHexWords)
  {
    hide SplitWords, JoinWords;
    WordsRoundTrip(ws);
  }

  /** Exactly one leg moves outcome tokens, and its amount is what counts; any other pair of assets is refused. */
  lemma TokensMovedV1(fill: FillV1)
    requires Encodable(WordsV1(fill))
    ensures TokensV1(JoinWords(WordsV1(fill))) ==
      if fill.makerAsset != 0 && fill.takerAsset == 0 then Ok(fill.makerAmount)
      else if fill.makerAsset == 0 && fill.takerAsset != 0 then Ok(fill.takerAmount)
      else Err(InvalidAssetPair)
  {
    hide SplitWords, JoinWords;
    CountedRoundTrip(WordsV1(fill), 5);
  }

  lemma TokensMovedV2(fill: FillV2)
    requires Encodable(WordsV2(fill))
    ensures TokensV2(JoinWords(WordsV2(fill))) ==
      if fill.side == 0 then Ok(fill.takerAmount) else if fill.side == 1 then Ok(fill.makerAmount) else Err(InvalidSide)
  {
    hide SplitWords, JoinWords;
    CountedRoundTrip(WordsV2(fill), 7);
  }

  lemma {:induction false} EligibleExactly(traders: seq<Trader>, t: Trader)
    ensures t in Eligible(traders) <==> t in traders && t.wallet != ZERO && t.wallet !in INFRASTRUCTURE
  {
    if traders != [] {
      EligibleExactly(traders[1..], t);
      assert traders == [traders[0]] + traders[1..];
    }
  }

  /** The parties of a fill, in the order and with the roles of its indexed topics. */
  function Parties(log: Log): seq<Trader>
    requires |log.topics| == 4
  {
    [Trader(log.topics[2], 1), Trader(log.topics[3], 2)]
  }

  /** The log names the trader: tokens moved, the trader is a party, and it is not an excluded address. */
  ghost predicate Names(parties: seq<Trader>, amount: nat, t: Trader) {
    amount > 0 && t in parties && t.wallet != ZERO && t.wallet !in INFRASTRUCTURE
  }

  lemma EligibleParties(parties: seq<Trader>, amount: nat, t: Trader)
    ensures t in Eligible(if amount == 0 then [] else parties) <==> Names(parties, amount, t)
  {
    EligibleExactly([], t);
    EligibleExactly(parties, t);
  }

  /**
   * A version 1 fill names its maker and its counterparty if outcome tokens moved, nobody otherwise, and never
   * the zero address or a contract of the venue.
   */
  lemma FillNamesItsTraders(log: Log, pool: Option<Pool>, fill: FillV1, t: Trader)
    requires |log.topics| == 4 && log.topics[0] == FILLED_V1 && log.emitter in CLOB_V1
    requires log.topics[2] < Bound(20) && log.topics[3] < Bound(20)
    requires log.data == JoinWords(WordsV1(fill)) && Encodable(WordsV1(fill))
    requires (fill.makerAsset == 0) != (fill.takerAsset == 0)
    ensures DecodeTraders(log, pool).Ok?
    ensures t in DecodeTraders(log, pool).value
      <==> Names(Parties(log), if fill.makerAsset != 0 then fill.makerAmount else fill.takerAmount, t)
  {
    var amount := if fill.makerAsset != 0 then fill.makerAmount else fill.takerAmount;
    TokensMovedV1(fill);
    hide Bound, JoinWords, TokensV1, TokensV2, Eligible;
    assert RawTraders(log, pool) == Ok(if amount == 0 then [] else Parties(log));
    EligibleParties(Parties(log), amount, t);
  }

  /** The same for a version 2 fill, whose side says which amount is in outcome tokens. */
  lemma SidedFillNamesItsTraders(log: Log, pool: Option<Pool>, fill: FillV2, t: Trader)
    requires |log.topics| == 4 && log.topics[0] == FILLED_V2 && log.emitter in CLOB_V2
    requires log.topics[2] < Bound(20) && log.topics[3] < Bound(20)
    requires log.data == JoinWords(WordsV2(fill)) && Encodable(WordsV2(fill)) && fill.side <= 1
    ensures DecodeTraders(log, pool).Ok?
    ensures t in DecodeTraders(log, pool).value
      <==> Names(Parties(log), if fill.side == 0 then fill.takerAmount else fill.makerAmount, t)
  {
    var amount := if fill.side == 0 then fill.takerAmount else fill.makerAmount;
    TokensMovedV2(fill);
    hide Bound, JoinWords, TokensV1, TokensV2, Eligible;
    assert RawTraders(log, pool) == Ok(if amount == 0 then [] else Parties(log));
    EligibleParties(Parties(log), amount, t);
  }

  /** A pool trade: the amount paid or returned, the fee, and the outcome tokens bought or sold. */
  datatype PoolTrade = PoolTrade(amount: Word, fee: Word, tokens: Word)

  function WordsOfTrade(trade: PoolTrade): seq<Word> {
    [trade.amount, trade.fee, trade.tokens]
  }

  function PoolTrader(log: Log): Trader
    requires |log.topics| == 3
  {
    Trader(log.topics[1], if log.topics[0] == BUY then 4 else 8)
  }

  ghost predicate Trades(log: Log, trade: PoolTrade) {
    && |log.topics| == 3 && log.topics[1] < Bound(20)
    && log.data == JoinWords(WordsOfTrade(trade)) && Encodable(WordsOfTrade(trade))
  }

  /**
   * A trade of a known pool names its one trader if tokens moved; before the pool's creation it is refused. A log
   * of a contract that no factory event announced names nobody, whatever its shape.
   */
  lemma PoolTradeNamesItsTrader(log: Log, pool: Option<Pool>, trade: PoolTrade, t: Trader)
    requires log.topics != [] && log.topics[0] in {BUY, SELL}
    requires pool.Some? ==> Trades(log, trade)
    ensures DecodeTraders(log, pool).Ok? <==> (pool.Some? ==> pool.value.creationBlock <= log.block)
    ensures DecodeTraders(log, pool).Ok? ==>
      (t in DecodeTraders(log, pool).value <==> pool.Some? && Names([PoolTrader(log)], trade.tokens, t))
  {
    hide Bound, JoinWords, TokensV1, TokensV2, Eligible;
    if pool.Some? {
      CountedRoundTrip(WordsOfTrade(trade), 3);
      EligibleParties([PoolTrader(log)], trade.tokens, t);
      if pool.value.creationBlock <= log.block {
        assert RawTraders(log, pool) == Ok(if trade.tokens == 0 then [] else [PoolTrader(log)]);
      }
    } else {
      assert RawTraders(log, pool) == Ok([]);
      EligibleExactly([], t);
    }
  }

  // ---------------------------------------------------------------- validation of a reply

  predicate InPlaceOrder(a: Log, b: Log) {
    a.block < b.block || (a.block == b.block && a.index <= b.index)
  }

  predicate Follows(a: Log, b: Log) {
    a.block < b.block || (a.block == b.block && a.index < b.index)
  }

  /** Chain order without repetitions. */
  ghost predicate StrictlyOrdered(logs: seq<Log>) {
    forall i, j :: 0 <= i < j < |logs| ==> Follows(logs[i], logs[j])
  }

  predicate InsideQuery(log: Log, start: nat, end: nat, topics: set<Word>, addresses: Option<set<Address>>) {
    && !log.removed && log.topics != []
    && start <= log.block <= end && log.topics[0] in topics
    && (addresses.Some? ==> log.emitter in addresses.value)
  }

  /** No two logs of one block disagree on its hash, and no two logs share a (block hash, index) key. */
  ghost predicate Consistent(logs: seq<Log>) {
    forall i, j :: 0 <= i < |logs| && 0 <= j < |logs| ==>
      && (logs[i].block == logs[j].block ==> logs[i].blockHash == logs[j].blockHash)
      && (logs[i].blockHash == logs[j].blockHash && logs[i].index == logs[j].index ==> logs[i] == logs[j])
  }

  /** What the two dictionaries and the kept copies hold after reading `seen`. */
  ghost predicate Digest(seen: seq<Log>, blocks: map<nat, Word>, unique: map<(Word, nat), Log>, kept: seq<Log>) {
    && (forall l :: l in seen ==> l.block in blocks && blocks[l.block] == l.blockHash)
    && (forall l :: l in seen ==> (l.blockHash, l.index) in unique && unique[(l.blockHash, l.index)] == l)
    && (forall l :: l in kept <==> l in seen)
    && (forall b :: b in blocks ==> exists l :: l in kept && l.block == b && l.blockHash == blocks[b])
    && (forall k :: k in unique ==> unique[k] in kept && (unique[k].blockHash, unique[k].index) == k)
    && (forall a, b :: 0 <= a < b < |kept| ==> kept[a] != kept[b])
  }

  lemma DigestGrows(seen: seq<Log>, blocks: map<nat, Word>, unique: map<(Word, nat), Log>, kept: seq<Log>, log: Log)
    requires Digest(seen, blocks, unique, kept)
    requires log.block in blocks ==> blocks[log.block] == log.blockHash
    requires (log.blockHash, log.index) !in unique
    ensures Digest(seen + [log], blocks[log.block := log.blockHash],
                   unique[(log.blockHash, log.index) := log], kept + [log])
  {
  }

  lemma DigestRepeats(seen: seq<Log>, blocks: map<nat, Word>, unique: map<(Word, nat), Log>, kept: seq<Log>, log: Log)
    requires Digest(seen, blocks, unique, kept)
    requires log.block in blocks ==> blocks[log.block] == log.blockHash
    requires (log.blockHash, log.index) in unique && unique[(log.blockHash, log.index)] == log
    ensures Digest(seen + [log], blocks[log.block := log.blockHash], unique, kept)
  {
    assert log in kept;
  }

  /** The first check the log fails, given what earlier logs of the reply recorded. */
  function Refusal(log: Log, start: nat, end: nat, topics: set<Word>, addresses: Option<set<Address>>,
                   blocks: map<nat, Word>, unique: map<(Word, nat), Log>): Option<DecodeError> {
    if log.removed then Some(RemovedLog)
    else if log.topics == [] then Some(MissingTopics)
    else if !InsideQuery(log, start, end, topics, addresses) then Some(OutsideQuery)
    else if log.block in blocks && blocks[log.block] != log.blockHash then Some(ConflictingHashes)
    else if (log.blockHash, log.index) in unique && unique[(log.blockHash, log.index)] != log
      then Some(ConflictingDuplicate)
    else None
  }

  lemma RefusedReply(result: seq<Log>, i: nat, start: nat, end: nat, topics: set<Word>, addresses: Option<set<Address>>,
                     blocks: map<nat, Word>, unique: map<(Word, nat), Log>, kept: seq<Log>)
    requires i < |result| && Digest(result[..i], blocks, unique, kept)
    requires Refusal(result[i], start, end, topics, addresses, blocks, unique).Some?
    ensures !AllInside(result, start, end, topics, addresses) || !Consistent(result)
  {
    var log := result[i];
    if InsideQuery(log, start, end, topics, addresses) {
      var other: Log;
      if log.block in blocks && blocks[log.block] != log.blockHash {
        other :| other in kept && other.block == log.block && other.blockHash == blocks[log.block];
      } else {
        other := unique[(log.blockHash, log.index)];
      }
      assert other in result[..i];
      var j :| 0 <= j < i && result[..i][j] == other;
      assert result[j] == other;
    }
  }

  lemma DigestIsConsistent(seen: seq<Log>, blocks: map<nat, Word>, unique: map<(Word, nat), Log>, kept: seq<Log>)
    requires Digest(seen, blocks, unique, kept)
    ensures Consistent(seen)
  {
    forall i, j | 0 <= i < |seen| && 0 <= j < |seen|
      ensures seen[i].block == seen[j].block ==> seen[i].blockHash == seen[j].blockHash
      ensures seen[i].blockHash == seen[j].blockHash && seen[i].index == seen[j].index ==> seen[i] == seen[j]
    {
      assert seen[i] in seen && seen[j] in seen;
    }
  }

  lemma PlaceOrderIsTotal()
    ensures TotalPreorder(InPlaceOrder)
  {
  }

  lemma InsideMeans(result: seq<Log>, start: nat, end: nat, topics: set<Word>, addresses: Option<set<Address>>)
    ensures AllInside(result, start, end, topics, addresses) <==> forall l :: l in result ==>
      && !l.removed && start <= l.block <= end && l.topics != [] && l.topics[0] in topics
      && (addresses.Some? ==> l.emitter in addresses.value)
  {
  }

  ghost predicate AllInside(result: seq<Log>, start: nat, end: nat, topics: set<Word>,
                            addresses: Option<set<Address>>)
  {
    forall l :: l in result ==> InsideQuery(l, start, end, topics, addresses)
  }

  lemma Unrefused(result: seq<Log>, i: nat, start: nat, end: nat, topics: set<Word>, addresses: Option<set<Address>>,
                  blocks: map<nat, Word>, unique: map<(Word, nat), Log>)
    requires i < |result| && AllInside(result[..i], start, end, topics, addresses)
    requires Refusal(result[i], start, end, topics, addresses, blocks, unique).None?
    ensures AllInside(result[..i + 1], start, end, topics, addresses)
    ensures result[i].block in blocks ==> blocks[result[i].block] == result[i].blockHash
    ensures (result[i].blockHash, result[i].index) in unique ==>
      unique[(result[i].blockHash, result[i].index)] == result[i]
  {
    assert result[..i + 1] == result[..i] + [result[i]];
  }

  /** Keeps one copy of every log, checks the whole reply and returns it in chain order. */
  method ValidateLogs(result: seq<Log>, start: nat, end: nat, topics: set<Word>, addresses: Option<set<Address>>)
      returns (out: Result<seq<Log>, DecodeError>)
    ensures out.Ok? <==> Consistent(result) && forall l :: l in result ==>
      && !l.removed && start <= l.block <= end && l.topics != [] && l.topics[0] in topics
      && (addresses.Some? ==> l.emitter in addresses.value)
    ensures out.Ok? ==> StrictlyOrdered(out.value) && forall l :: l in out.value <==> l in result
  {
    var unique: map<(Word, nat), Log> := map[];
    var blocks: map<nat, Word> := map[];
    var kept: seq<Log> := [];
    assert Digest(result[..0], blocks, unique, kept);
    InsideMeans(result, start, end, topics, addresses);
    assert AllInside(result[..0], start, end, topics, addresses);
    hide Digest, InsideQuery, Consistent, StrictlyOrdered, StableSort, AllInside, Refusal;
    for i := 0 to |result|
      invariant AllInside(result[..i], start, end, topics, addresses)
      invariant Digest(result[..i], blocks, unique, kept)
    {
      var log := result[i];
      assert result[..i + 1] == result[..i] + [log];
      var refusal := Refusal(log, start, end, topics, addresses, blocks, unique);
      if refusal.Some? {
        RefusedReply(result, i, start, end, topics, addresses, blocks, unique, kept);
        return Err(refusal.value);
      }
      Unrefused(result, i, start, end, topics, addresses, blocks, unique);
      var key := (log.blockHash, log.index);
      if key in unique {
        DigestRepeats(result[..i], blocks, unique, kept, log);
      } else {
        DigestGrows(result[..i], blocks, unique, kept, log);
        unique := unique[key := log];
        kept := kept + [log];
      }
      blocks := blocks[log.block := log.blockHash];
    }
    assert result[..|result|] == result;
    DigestIsConsistent(result, blocks, unique, kept);
    KeptInOrder(result, kept);
    out := Ok(StableSort(InPlaceOrder, kept));
  }

  lemma KeptInOrder(result: seq<Log>, kept: seq<Log>)
    requires Consistent(result) && forall l :: l in kept <==> l in result
    requires forall a, b :: 0 <= a < b < |kept| ==> kept[a] != kept[b]
    ensures StrictlyOrdered(StableSort(InPlaceOrder, kept))
    ensures forall l :: l in StableSort(InPlaceOrder, kept) <==> l in result
  {
    var out := StableSort(InPlaceOrder, kept);
    PlaceOrderIsTotal();
    StableSortCorrect(InPlaceOrder, kept);
    SortKeepsDistinct(kept);
    forall l ensures l in out <==> l in result {
      assert l in multiset(out) <==> l in multiset(kept);
    }
    forall i, j | 0 <= i < j < |out| ensures Follows(out[i], out[j]) {
      assert InPlaceOrder(out[i], out[j]) && out[i] != out[j];
      assert out[i] in out && out[j] in out;
    }
  }

  lemma SortKeepsDistinct(logs: seq<Log>)
    requires forall a, b :: 0 <= a < b < |logs| ==> logs[a] != logs[b]
    ensures forall a, b :: 0 <= a < b < |StableSort(InPlaceOrder, logs)| ==>
      StableSort(InPlaceOrder, logs)[a] != StableSort(InPlaceOrder, logs)[b]
  {
    PlaceOrderIsTotal();
    StableSortCorrect(InPlaceOrder, logs);
    OnceEach(logs);
    var out := StableSort(InPlaceOrder, logs);
    forall a, b | 0 <= a < b < |out| ensures out[a] != out[b] {
      assert out == out[..b] + out[b..];
      assert out[a] == out[..b][a] && out[a] in multiset(out[..b]);
      assert multiset(out)[out[a]] <= 1;
      assert out[a] !in multiset(out[b..]);
      assert out[b] == out[b..][0] && out[b] in multiset(out[b..]);
    }
  }

  lemma {:induction false} OnceEach(logs: seq<Log>)
    requires forall a, b :: 0 <= a < b < |logs| ==> logs[a] != logs[b]
    ensures forall l :: multiset(logs)[l] <= 1
  {
    if logs != [] {
      var n := |logs| - 1;
      OnceEach(logs[..n]);
      assert logs == logs[..n] + [logs[n]];
      assert logs[n] !in multiset(logs[..n]);
    }
  }

  lemma HeadFirst(logs: seq<Log>, l: Log)
    requires StrictlyOrdered(logs) && l in logs
    ensures logs[0] == l || Follows(logs[0], l)
  {
    var i :| 0 <= i < |logs| && logs[i] == l;
    assert i == 0 || Follows(logs[0], logs[i]);
  }

  /** The validated reply depends only on which logs were returned, not on their order or repetitions. */
  lemma {:induction false} OrderedUnique(a: seq<Log>, b: seq<Log>)
    requires StrictlyOrdered(a) && StrictlyOrdered(b)
    requires forall l :: l in a <==> l in b
    ensures a == b
  {
    assert a == [] || a[0] in a;
    assert b == [] || b[0] in b;
    if a != [] {
      HeadFirst(b, a[0]);
      HeadFirst(a, b[0]);
      assert a == [a[0]] + a[1..] && b == [b[0]] + b[1..];
      forall l ensures l in a[1..] <==> l in b[1..] {
        TailMembers(a, l);
        TailMembers(b, l);
      }
      OrderedUnique(a[1..], b[1..]);
    }
  }

  lemma TailMembers(logs: seq<Log>, l: Log)
    requires StrictlyOrdered(logs) && logs != []
    ensures l in logs[1..] <==> l in logs && l != logs[0]
  {
    forall k | 0 <= k < |logs[1..]| ensures logs[1..][k] in logs && logs[1..][k] != logs[0] {
      assert Follows(logs[0], logs[k + 1]);
      assert logs[1..][k] == logs[k + 1];
    }
  }
}
