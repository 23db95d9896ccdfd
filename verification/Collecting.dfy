/** One collection step: attempt the next window of a stream, halving it until the provider accepts. */
module Collecting {
  import opened Outcomes
  import opened EthLogs
  import opened WalletTable
  import opened Registry
  import opened RegistryRuns
  import opened CanonicalChain

  /** What one `eth_getLogs` call brings back, retries included. */
  datatype Reply = Logs(result: seq<Log>) | RangeLimit | Malformed | Failure

  datatype StepError =
    | RpcFailed
    | NotAList
    | CapReached
    | Invalid(reason: DecodeError)
    | NotCommitted(error: CommitError)

  /** The provider's answer to the k-th call, for one stream and block range. */
  type Provider = (nat, Stream, nat, nat) -> Reply

  datatype Config = Config(endBlock: nat, maxBlocks: nat, logCap: nat)

  function Topics(stream: Stream): set<Word> {
    match stream
    case Factory => {CREATION}
    case Amm => {BUY, SELL}
    case Exchange => {FILLED_V1, FILLED_V2}
  }

  function Addresses(stream: Stream): Option<set<Address>> {
    match stream
    case Factory => Some({FACTORY})
    case Amm => None
    case Exchange => Some(EXCHANGES)
  }

  /** Below the cap, the provider returns every log of the range and nothing else, in any order. */
  ghost predicate HonestProvider(chain: set<Log>, config: Config, provider: Provider) {
    forall k: nat, stream: Stream, start: nat, end: nat ::
      var reply := provider(k, stream, start, end);
      reply.Logs? && |reply.result| < config.logCap ==>
        forall l :: l in reply.result <==> l in chain && Selected(stream, l) && start <= l.block <= end
  }

  lemma HonestReply(chain: set<Log>, config: Config, provider: Provider, k: nat, stream: Stream, start: nat, end: nat)
    requires HonestProvider(chain, config, provider)
    requires provider(k, stream, start, end).Logs? && |provider(k, stream, start, end).result| < config.logCap
    ensures forall l ::
      l in provider(k, stream, start, end).result
      <==> l in chain && Selected(stream, l) && start <= l.block <= end
  {
  }

  /** The number of attempts that halving `n` blocks down to a single one can take. */
  function Halvings(n: nat): nat {
    if n <= 1 then 1 else 1 + Halvings(n / 2)
  }

  function Pow2(k: nat): nat {
    if k == 0 then 1 else 2 * Pow2(k - 1)
  }

  /** That is floor(log2 n) + 1. */
  lemma {:induction false} HalvingsIsLog(n: nat)
    requires n >= 1
    ensures Halvings(n) >= 1 && Pow2(Halvings(n) - 1) <= n < Pow2(Halvings(n))
  {
    if n > 1 {
      HalvingsIsLog(n / 2);
    }
  }

  /** A refused attempt of more than one block and all attempts after it. */
  lemma HalvingsStep(size: nat, next: nat)
    requires 1 < size && next <= size / 2
    ensures 1 + Halvings(next) <= Halvings(size)
  {
    HalvingsGrows(next, size / 2);
  }

  lemma {:induction false} HalvingsGrows(m: nat, n: nat)
    requires m <= n
    ensures Halvings(m) <= Halvings(n)
  {
    if m > 1 {
      HalvingsGrows(m / 2, n / 2);
    }
  }

  /** The size of attempt `k` of a step whose first attempt has `n` blocks. */
  function Halved(n: nat, k: nat): (size: nat)
    ensures 1 <= n ==> 1 <= size <= n
  {
    if k == 0 then n else Max(1, Halved(n, k - 1) / 2)
  }

  /** The provider would not answer the attempt, or may have cut its answer short. */
  predicate Refused(config: Config, reply: Reply) {
    reply.RangeLimit? || (reply.Logs? && |reply.result| >= config.logCap)
  }

  /** The reply to attempt `k` of a step. */
  function Asked(provider: Provider, stream: Stream, start: nat, first: nat, k: nat): Reply
    requires 1 <= first
  {
    provider(k, stream, start, start + Halved(first, k) - 1)
  }

  /** All attempts before the given one had several blocks, were refused, and the smaller window was saved. */
  ghost predicate NarrowedUntil(config: Config, provider: Provider, durable: nat -> bool, stream: Stream, start: nat,
                                first: nat, calls: nat)
    requires 1 <= first
  {
    forall k :: 0 <= k < calls ==>
      Halved(first, k) > 1 && Refused(config, Asked(provider, stream, start, first, k)) && durable(k)
  }

  /** What the reply to the last attempt of a step, of `size` blocks, leads to. */
  ghost predicate Answered(config: Config, reply: Reply, size: nat, durable: bool, out: Result<bool, StepError>) {
    match reply
    case Malformed => out == Err(NotAList)
    case Failure => out == Err(RpcFailed)
    case RangeLimit => if size == 1 then out == Err(RpcFailed) else !durable && out == Err(NotCommitted(RolledBack))
    case Logs(result) =>
      if |result| >= config.logCap then
        if size == 1 then out == Err(CapReached) else !durable && out == Err(NotCommitted(RolledBack))
      else if out.Ok? then out.value && durable
      else out.error.Invalid? || out.error.NotCommitted?
  }

  /** The window saved before attempt `k`, as a step of a run. */
  function SavedBefore(stream: Stream, start: nat, first: nat, k: nat): Step {
    if k == 0 then Nothing else Shrink(stream, start, Halved(first, k))
  }

  /** The window for the next step: twice the one just used when the reply was small, up to the maximum. */
  ghost predicate NextWindow(config: Config, used: nat, found: nat, next: nat) {
    if 4 * (found + 1) > config.logCap then next == used
    else if 2 * used <= config.maxBlocks then next == 2 * used
    else next == config.maxBlocks
  }

  /** The commit of the last attempt's range, and the window for the next step. */
  ghost predicate Takes(config: Config, stream: Stream, start: nat, held: nat, first: nat, k: nat, reply: Reply,
                        done: Step)
  {
    && done.TryCommit? && reply.Logs? && done.stream == stream && done.start == start
    && done.end == start + Halved(first, k) - 1 && done.returned == |reply.result|
    && NextWindow(config, if k == 0 then held else Halved(first, k), |done.logs|, done.window)
  }

  /**
   * A step whose attempt `last` was its last one: what became of it, and that a complete reply from a sound chain is
   * committed whenever the transaction is durable.
   */
  ghost predicate Outcome(config: Config, provider: Provider, durable: nat -> bool, stream: Stream, start: nat,
                          held: nat, first: nat, last: nat, sound: bool, out: Result<bool, StepError>, done: Step)
    requires 1 <= first
  {
    var reply := Asked(provider, stream, start, first, last);
    && NarrowedUntil(config, provider, durable, stream, start, first, last)
    && Answered(config, reply, Halved(first, last), durable(last), out)
    && (if out.Ok? then Takes(config, stream, start, held, first, last, reply, done)
        else done == SavedBefore(stream, start, first, last))
    && (sound && durable(last) && reply.Logs? && |reply.result| < config.logCap ==> out == Ok(true))
  }

  /** The error that a reply raises at once: only a refused range of several blocks gets a smaller attempt. */
  function Fatal(config: Config, reply: Reply, single: bool): Option<StepError> {
    match reply
    case Malformed => Some(NotAList)
    case Failure => Some(RpcFailed)
    case RangeLimit => if single then Some(RpcFailed) else None
    case Logs(result) => if single && |result| >= config.logCap then Some(CapReached) else None
  }

  lemma SavedAreSteps(chain: set<Log>, maxBlocks: nat, stream: Stream, start: nat, first: nat)
    requires 1 <= first <= maxBlocks
    ensures forall k: nat :: StepOk(chain, maxBlocks, SavedBefore(stream, start, first, k))
  {
  }

  /** What a step leaves in the row of its stream. */
  lemma RowAfterStep(config: Config, provider: Provider, durable: nat -> bool, stream: Stream, start: nat, held: nat,
                     first: nat, last: nat, sound: bool, out: Result<bool, StepError>, done: Step, db: Db)
    requires 1 <= first && Outcome(config, provider, durable, stream, start, held, first, last, sound, out, done)
    requires stream in db.streams && db.streams[stream].next == start && db.streams[stream].window == held
    requires stream in Apply(db, done).streams
    requires out.Ok? ==> start < Apply(db, done).streams[stream].next
    ensures out.Ok? ==>
      Apply(db, done).streams[stream] == StreamRow(db.streams[stream].start, done.end + 1, done.window)
    ensures out.Err? ==>
      && Apply(db, done).streams[stream].start == db.streams[stream].start
      && Apply(db, done).streams[stream].window == if last == 0 then held else Halved(first, last)
  {
    hide ReadLogs, AddPools, Observe, Join, NarrowedUntil, Answered, NextWindow, Halved;
  }

  /** With a cooperative provider and durable transactions a step over a sound chain succeeds. */
  lemma CooperativeStepSucceeds(config: Config, provider: Provider, durable: nat -> bool, stream: Stream, start: nat,
                                held: nat, first: nat, last: nat, out: Result<bool, StepError>, done: Step)
    requires 1 <= first && Outcome(config, provider, durable, stream, start, held, first, last, true, out, done)
    requires Cooperative(config, provider) && forall k: nat :: durable(k)
    ensures out == Ok(true)
  {
    var end: nat := start + Halved(first, last) - 1;
    var reply := provider(last, stream, start, end);
    assert reply == Asked(provider, stream, start, first, last);
    assert durable(last);
  }

  lemma NoneNarrowed(config: Config, provider: Provider, durable: nat -> bool, stream: Stream, start: nat, first: nat)
    requires 1 <= first
    ensures NarrowedUntil(config, provider, durable, stream, start, first, 0)
  {
  }

  /** The ways in which attempt `last` can be the last one of a step, or be followed by another. */
  lemma LastAttempt(config: Config, provider: Provider, durable: nat -> bool, stream: Stream, start: nat, held: nat,
                    first: nat, last: nat, sound: bool, end: nat)
    requires 1 <= first && start <= end && end - start + 1 == Halved(first, last)
    requires NarrowedUntil(config, provider, durable, stream, start, first, last)
    ensures
      var reply, saved := provider(last, stream, start, end), SavedBefore(stream, start, first, last);
      && var fatal := Fatal(config, reply, start == end);
      && (fatal.Some? ==>
            Outcome(config, provider, durable, stream, start, held, first, last, sound, Err(fatal.value), saved))
      && (Refused(config, reply) && start < end && durable(last) ==>
            NarrowedUntil(config, provider, durable, stream, start, first, last + 1))
      && (Refused(config, reply) && start < end && !durable(last) ==>
            Outcome(config, provider, durable, stream, start, held, first, last, sound, Err(NotCommitted(RolledBack)),
                    saved))
      && forall out, done ::
           TakesReply(config, stream, start, held, first, last, sound, reply, durable(last), out, done) ==>
             Outcome(config, provider, durable, stream, start, held, first, last, sound, out, done)
  {
  }

  /** What becomes of a complete reply. */
  ghost predicate TakesReply(config: Config, stream: Stream, start: nat, held: nat, first: nat, last: nat, sound: bool,
                             reply: Reply, durable: bool, out: Result<bool, StepError>, done: Step)
  {
    && reply.Logs? && |reply.result| < config.logCap
    && (out.Ok? ==> out.value && durable && Takes(config, stream, start, held, first, last, reply, done))
    && (out.Err? ==> (out.error.Invalid? || out.error.NotCommitted?) && done == SavedBefore(stream, start, first, last))
    && (sound && durable ==> out.Ok?)
  }

  /** The chain and the stored pools are such that every complete reply can be committed. */
  ghost predicate Sound(chain: set<Log>, db: Db) {
    Canonical(chain) && ChainOk(chain) && Factory in db.streams && PoolsRight(chain, db)
  }

  /** Single blocks are answered below the cap; larger ranges may be refused, and nothing else goes wrong. */
  ghost predicate Cooperative(config: Config, provider: Provider) {
    forall k: nat, stream: Stream, start: nat, end: nat | start <= end ::
      var reply := provider(k, stream, start, end);
      (reply.Logs? && |reply.result| < config.logCap) || (start < end && Refused(config, reply))
  }

  lemma CompleteReplyValid(chain: set<Log>, stream: Stream, start: nat, end: nat, raw: seq<Log>)
    requires Canonical(chain) && ChainOk(chain)
    requires forall l :: l in raw ==> l in chain && Selected(stream, l) && start <= l.block <= end
    ensures Consistent(raw)
    ensures forall l :: l in raw ==>
      && !l.removed && start <= l.block <= end && l.topics != [] && l.topics[0] in Topics(stream)
      && (Addresses(stream).Some? ==> l.emitter in Addresses(stream).value)
  {
    hide CanonicalLogs, Founds, Announces;
  }

  /** The factory has been scanned past the end of an AMM range. */
  predicate Admits(streams: map<Stream, StreamRow>, end: nat) {
    Factory in streams && end < streams[Factory].next
  }

  lemma RangeCommitsAnyhow(chain: set<Log>, db: Db, stream: Stream, end: nat, logs: seq<Log>)
    requires Sound(chain, db) && stream in db.streams && (stream.Amm? ==> Admits(db.streams, end))
    requires Honest(chain, stream, db.streams[stream].next, end, logs)
    ensures forall window, request, returned ::
      Commit(db, stream, db.streams[stream].next, end, window, request, returned, logs).Ok?
  {
    hide Canonical, ChainOk, PoolsRight, Honest, Commit;
    forall window: nat, request: nat, returned: nat
      ensures Commit(db, stream, db.streams[stream].next, end, window, request, returned, logs).Ok?
    {
      RangeCommits(chain, db, stream, end, window, request, returned, logs);
    }
  }

  lemma ShrinkKeepsSound(chain: set<Log>, db: Db, stream: Stream, start: nat, window: nat)
    requires Sound(chain, db)
    ensures Sound(chain, Apply(db, Shrink(stream, start, window)))
  {
    hide Canonical, ChainOk, Selected, Announces;
    var after := Apply(db, Shrink(stream, start, window));
    assert Covered(chain, Factory, after.streams[Factory]) == Covered(chain, Factory, db.streams[Factory]);
    hide Covered;
  }

  /** The last block the stream may read now. */
  function Limit(db: Db, stream: Stream, endBlock: nat): int
    requires Factory in db.streams
  {
    if stream.Amm? then Min(endBlock, db.streams[Factory].next - 1) else endBlock
  }

  /** The size of the first attempt. */
  function Attempt(db: Db, stream: Stream, endBlock: nat): int
    requires Factory in db.streams && stream in db.streams
  {
    var row := db.streams[stream];
    Min(row.next + row.window - 1, Limit(db, stream, endBlock)) - row.next + 1
  }

  /** A provider's unordered reply, once validated, is an honest reply. */
  lemma ValidatedHonest(chain: set<Log>, stream: Stream, start: nat, end: nat, raw: seq<Log>, logs: seq<Log>)
    requires forall l :: l in raw <==> l in chain && Selected(stream, l) && start <= l.block <= end
    requires StrictlyOrdered(logs) && forall l :: l in logs <==> l in raw
    ensures Honest(chain, stream, start, end, logs)
  {
    hide Selected;
  }

  class Collector {
    const store: Store
    const config: Config

    constructor (store: Store, config: Config)
      ensures this.store == store && this.config == config
    {
      this.store, this.config := store, config;
    }

    /**
     * Reports whether the stream advanced. `done` is the one database step this call amounts to: a
     * commit, a smaller saved window, or nothing. Each reply is followed by at most one transaction,
     * which may fail.
     */
    method Step(stream: Stream, provider: Provider, durable: nat -> bool, ghost chain: set<Log>)
        returns (out: Result<bool, StepError>, calls: nat, ghost done: Step)
      requires store.Valid() && StreamsOk(store.Tables(), config.maxBlocks)
      requires HonestProvider(chain, config, provider)
      modifies store
      ensures store.Valid() && store.Tables() == Apply(old(store.Tables()), done)
      ensures StepOk(chain, config.maxBlocks, done)
      ensures out.Ok? ==>
        (out.value <==> old(store.streams[stream].next <= Limit(store.Tables(), stream, config.endBlock)))
      ensures out == Ok(false) ==> calls == 0 && done == Nothing && AtLimit(store.Tables(), stream, config.endBlock)
      ensures out == Ok(true) ==> store.streams[stream].next > old(store.streams[stream].next)
      ensures out == Ok(true) ==>
        store.streams[stream].next <= old(store.streams[stream].next) + old(store.streams[stream].window)
      ensures out.Err? ==> store.streams[stream].next == old(store.streams[stream].next) && !done.TryCommit?
      ensures out != Ok(false) ==> old(Attempt(store.Tables(), stream, config.endBlock)) >= 1
      ensures out != Ok(false) ==> 1 <= calls <= Halvings(old(Attempt(store.Tables(), stream, config.endBlock)))
      ensures out != Ok(false) ==>
        var start, held := old(store.streams[stream].next), old(store.streams[stream].window);
        var first := old(Attempt(store.Tables(), stream, config.endBlock));
        Outcome(config, provider, durable, stream, start, held, first, calls - 1, old(Sound(chain, store.Tables())),
                out, done)
      ensures old(Sound(chain, store.Tables())) && Cooperative(config, provider) && (forall k: nat :: durable(k)) ==>
        out.Ok?
      ensures out == Ok(true) ==>
        store.streams[stream] == StreamRow(old(store.streams[stream].start), done.end + 1, done.window)
      ensures out.Err? ==>
        var first := old(Attempt(store.Tables(), stream, config.endBlock));
        && store.streams[stream].start == old(store.streams[stream].start)
        && store.streams[stream].window
             == if calls == 1 then old(store.streams[stream].window) else Halved(first, calls - 1)
    {
      hide StepOk, Honest, HonestProvider, Commit, Sound, Outcome, Cooperative;
      var start: nat := store.streams[stream].next;
      var window: nat := store.streams[stream].window;
      var limit := Limit(store.Tables(), stream, config.endBlock);
      NothingChanges(store.Tables());
      if start > limit {
        NothingIsStep(chain, config.maxBlocks);
        return Ok(false), 0, Nothing;
      }
      ghost var before := store.Tables();
      out, calls, done := Attempts(stream, start, window, limit, provider, durable, chain, before);
      ghost var first: nat := Attempt(before, stream, config.endBlock);
      RowAfterStep(config, provider, durable, stream, start, window, first, calls - 1, Sound(chain, before), out, done,
                   before);
      if Sound(chain, before) && Cooperative(config, provider) && forall k: nat :: durable(k) {
        CooperativeStepSucceeds(config, provider, durable, stream, start, window, first, calls - 1, out, done);
      }
    }

    /** Tries smaller and smaller ranges from `start` until one is committed or a reply cannot be used. */
    method Attempts(stream: Stream, start: nat, held: nat, limit: nat, provider: Provider, durable: nat -> bool,
                    ghost chain: set<Log>, ghost before: Db)
        returns (out: Result<bool, StepError>, calls: nat, ghost done: Step)
      requires store.Valid() && before == store.Tables() && HonestProvider(chain, config, provider)
      requires stream in store.streams && store.streams[stream].next == start <= limit
      requires 1 <= held <= config.maxBlocks
      requires stream.Amm? ==> Factory in store.streams && limit < store.streams[Factory].next
      modifies store
      ensures store.Valid() && store.Tables() == Apply(before, done) && StepOk(chain, config.maxBlocks, done)
      ensures stream in store.streams
      ensures
        var first := Min(start + held - 1, limit) - start + 1;
        && 1 <= calls
        && Outcome(config, provider, durable, stream, start, held, first, calls - 1, Sound(chain, before), out, done)
      ensures out.Ok? ==> out.value && start < store.streams[stream].next <= start + held
      ensures out.Err? ==> store.streams[stream].next == start && !done.TryCommit?
      ensures 1 <= calls <= Halvings(Min(start + held - 1, limit) - start + 1)
    {
      hide StepOk, HonestProvider, Outcome, Trying, Apply, Sound;
      var window: nat, end: nat := held, Min(start + held - 1, limit);
      ghost var first: nat := end - start + 1;
      FirstTry(stream, start, held, limit, window, end, provider, durable, chain, before);
      calls, done := 0, Nothing;
      while true
        invariant Trying(stream, start, held, limit, window, end, calls, provider, durable, chain, before, done)
        invariant start <= end && calls + Halvings(end - start + 1) <= Halvings(first)
        decreases end - start
      {
        var ended;
        ended, window, end, done :=
          TryOnce(stream, start, held, limit, window, end, calls, provider, durable, chain, before, done);
        calls := calls + 1;
        if ended.Some? {
          return ended.value, calls, done;
        }
      }
    }

    /** The state of a step before its attempt `k` at the range from `start` to `end`. */
    ghost predicate Trying(stream: Stream, start: nat, held: nat, limit: nat, window: nat, end: nat, k: nat,
                           provider: Provider, durable: nat -> bool, chain: set<Log>, before: Db, done: Step)
      reads store
    {
      var first := Min(start + held - 1, limit) - start + 1;
      && start <= limit && 1 <= held <= config.maxBlocks && store.Valid() && store.Tables() == Apply(before, done)
      && done == SavedBefore(stream, start, first, k) && HonestProvider(chain, config, provider)
      && stream in store.streams && store.streams[stream].next == start
      && (stream.Amm? ==> Admits(store.streams, limit))
      && window == (if k == 0 then held else Halved(first, k)) && end == start + Halved(first, k) - 1
      && NarrowedUntil(config, provider, durable, stream, start, first, k)
    }

    lemma FirstTry(stream: Stream, start: nat, held: nat, limit: nat, window: nat, end: nat, provider: Provider,
                   durable: nat -> bool, chain: set<Log>, before: Db)
      requires store.Valid() && before == store.Tables() && HonestProvider(chain, config, provider)
      requires stream in store.streams && store.streams[stream].next == start <= limit
      requires 1 <= held <= config.maxBlocks && (stream.Amm? ==> Admits(store.streams, limit))
      requires window == held && end == Min(start + held - 1, limit)
      ensures Trying(stream, start, held, limit, window, end, 0, provider, durable, chain, before, Nothing)
    {
      NothingChanges(before);
    }

    /** The step is over, and this is its outcome. */
    ghost predicate Finished(stream: Stream, start: nat, held: nat, limit: nat, k: nat, provider: Provider,
                             durable: nat -> bool, chain: set<Log>, before: Db, out: Result<bool, StepError>,
                             done: Step)
      reads store
    {
      && start <= limit && 1 <= held
      && store.Valid() && store.Tables() == Apply(before, done) && StepOk(chain, config.maxBlocks, done)
      && stream in store.streams
      && Outcome(config, provider, durable, stream, start, held, Min(start + held - 1, limit) - start + 1, k,
                 Sound(chain, before), out, done)
      && if out.Ok? then out.value && start < store.streams[stream].next <= start + held
         else store.streams[stream].next == start && !done.TryCommit?
    }

    /** After a refused attempt of several blocks: the smaller window for the next one is saved first. */
    method Retry(stream: Stream, start: nat, held: nat, limit: nat, window: nat, end: nat, k: nat, provider: Provider,
                 durable: nat -> bool, ghost chain: set<Log>, ghost before: Db, ghost done: Step)
        returns (ended: Option<Result<bool, StepError>>, window': nat, end': nat, ghost done': Step)
      requires Trying(stream, start, held, limit, window, end, k, provider, durable, chain, before, done)
      requires start < end && Refused(config, provider(k, stream, start, end))
      modifies store
      ensures ended.None? ==>
        && Trying(stream, start, held, limit, window', end', k + 1, provider, durable, chain, before, done')
        && start <= end' < end && 1 + Halvings(end' - start + 1) <= Halvings(end - start + 1)
      ensures ended.Some? ==>
        Finished(stream, start, held, limit, k, provider, durable, chain, before, ended.value, done')
    {
      hide Commit, Honest, Selected, Store.CountsRight, Outcome, Asked, Answered, NarrowedUntil, Sound, NextWindow,
           StepOk, Apply, HonestProvider, Halvings;
      ghost var first: nat := Min(start + held - 1, limit) - start + 1;
      SavedAreSteps(chain, config.maxBlocks, stream, start, first);
      LastAttempt(config, provider, durable, stream, start, held, first, k, Sound(chain, before), end);
      var narrowed;
      narrowed, window', done' := Narrow(stream, start, end - start + 1, window, durable(k), before, done);
      if narrowed.Err? {
        return Some(Err(narrowed.error)), window', end, done';
      }
      HalvingsStep(end - start + 1, window');
      end' := Min(start + window' - 1, limit);
      ended := None;
    }

    /** One attempt: it ends the step, or saves a smaller window for the next. */
    method TryOnce(stream: Stream, start: nat, held: nat, limit: nat, window: nat, end: nat, k: nat,
                   provider: Provider, durable: nat -> bool, ghost chain: set<Log>, ghost before: Db, ghost done: Step)
        returns (ended: Option<Result<bool, StepError>>, window': nat, end': nat, ghost done': Step)
      requires Trying(stream, start, held, limit, window, end, k, provider, durable, chain, before, done)
      modifies store
      ensures ended.None? ==>
        && Trying(stream, start, held, limit, window', end', k + 1, provider, durable, chain, before, done')
        && start <= end' < end && 1 + Halvings(end' - start + 1) <= Halvings(end - start + 1)
      ensures ended.Some? ==>
        Finished(stream, start, held, limit, k, provider, durable, chain, before, ended.value, done')
    {
      hide Commit, Honest, Selected, Store.CountsRight, Outcome, Asked, Answered, NarrowedUntil, Sound, NextWindow,
           StepOk, Apply, HonestProvider, Halvings;
      ghost var first: nat := Min(start + held - 1, limit) - start + 1;
      SavedAreSteps(chain, config.maxBlocks, stream, start, first);
      var reply := provider(k, stream, start, end);
      var id := store.RecordRequest(true);
      LastAttempt(config, provider, durable, stream, start, held, first, k, Sound(chain, before), end);
      window', end', done' := window, end, done;
      var fatal := Fatal(config, reply, end == start);
      if fatal.Some? {
        return Some(Err(fatal.value)), window', end', done';
      }
      if reply.RangeLimit? || |reply.result| >= config.logCap {
        ended, window', end', done' :=
          Retry(stream, start, held, limit, window, end, k, provider, durable, chain, before, done);
        return;
      }
      HonestReply(chain, config, provider, k, stream, start, end);
      var taken;
      taken, done' := Take(stream, start, end, window, id.value, reply.result, durable(k), chain, before, done);
      ended := Some(taken);
    }

    /** Commits a complete reply, whatever smaller window was saved before it. */
    method Take(stream: Stream, start: nat, end: nat, window: nat, id: nat, result: seq<Log>, durable: bool,
                ghost chain: set<Log>, ghost before: Db, ghost done: Step)
        returns (out: Result<bool, StepError>, ghost step: Step)
      requires store.Valid() && stream in store.streams && store.streams[stream].next == start <= end
      requires store.Tables() == Apply(before, done)
      requires 1 <= window <= config.maxBlocks && (done == Nothing || done == Shrink(stream, start, window))
      requires forall l :: l in result <==> l in chain && Selected(stream, l) && start <= l.block <= end
      modifies store
      ensures store.Valid() && store.Tables() == Apply(before, step) && StepOk(chain, config.maxBlocks, step)
      ensures stream in store.streams
      ensures out.Ok? ==> out.value && store.streams[stream].next == end + 1
      ensures out.Ok? ==>
        && durable && step.TryCommit? && step.stream == stream && step.start == start && step.end == end
        && step.returned == |result| && NextWindow(config, window, |step.logs|, step.window)
      ensures out.Err? ==> store.streams[stream].next == start && step == done
      ensures out.Err? ==> out.error.Invalid? || out.error.NotCommitted?
      ensures durable && Sound(chain, before) && (stream.Amm? ==> Admits(old(store.streams), end)) ==> out.Ok?
    {
      if Sound(chain, before) && done.Shrink? {
        ShrinkKeepsSound(chain, before, stream, start, window);
      }
      NothingChanges(before);
      hide Commit, Honest, Selected, Store.CountsRight, Apply, Sound, NextWindow;
      ghost var commit;
      var accepted;
      accepted, commit := Accept(stream, start, end, window, id, result, durable, chain);
      if accepted.Err? {
        return Err(accepted.error), done;
      }
      CommitAbsorbsShrink(before, done, commit);
      return Ok(true), commit;
    }

    /** Halves a refused attempt and saves the smaller window. */
    method Narrow(stream: Stream, start: nat, size: nat, held: nat, durable: bool, ghost before: Db, ghost done: Step)
      returns (out: Result<(), StepError>, window: nat, ghost shrunk: Step)
      requires store.Valid() && store.Tables() == Apply(before, done)
      requires done == Nothing || (done.Shrink? && done.stream == stream && done.start == start)
      requires stream in store.streams && store.streams[stream].next == start
      modifies store
      ensures store.Valid() && store.Tables() == Apply(before, shrunk)
      ensures stream in store.streams && store.streams[stream].next == start
      ensures Factory in old(store.streams) ==>
        Factory in store.streams && store.streams[Factory].next == old(store.streams[Factory].next)
      ensures out.Ok? <==> durable
      ensures out.Err? ==> out == Err(NotCommitted(RolledBack))
      ensures if durable then window == Max(1, size / 2) && shrunk == Shrink(stream, start, window)
              else window == held && shrunk == done
    {
      window, shrunk := Max(1, size / 2), done;
      var saved := store.SaveWindow(stream, start, window, durable);
      if saved.Err? {
        return Err(NotCommitted(saved.error)), held, done;
      }
      shrunk, out := Shrink(stream, start, window), Ok(());
      if done.Shrink? {
        assert SetWindow(SetWindow(before.streams, stream, start, done.window), stream, start, window) ==
               SetWindow(before.streams, stream, start, window);
      }
    }

    /** Validates a complete reply and commits its range, choosing the window of the next attempt. */
    method Accept(stream: Stream, start: nat, end: nat, window: nat, id: nat, result: seq<Log>, durable: bool,
                  ghost chain: set<Log>)
        returns (out: Result<(), StepError>, ghost commit: Step)
      requires store.Valid() && stream in store.streams && store.streams[stream].next == start <= end
      requires 1 <= window <= config.maxBlocks
      requires forall l :: l in result <==> l in chain && Selected(stream, l) && start <= l.block <= end
      modifies store
      ensures store.Valid()
      ensures out.Err? ==> store.Tables() == old(store.Tables())
      ensures out.Ok? ==>
        Succeeds(old(store.Tables()), commit) && commit.stream == stream && commit.start == start && commit.end == end
      ensures out.Ok? ==> NextWindow(config, window, |commit.logs|, commit.window)
      ensures out.Ok? ==> durable && commit.returned == |result|
      ensures out.Err? ==> out.error.Invalid? || out.error.NotCommitted?
      ensures durable && old(Sound(chain, store.Tables())) && (stream.Amm? ==> Admits(old(store.streams), end)) ==>
        out.Ok?
      ensures out.Ok? ==>
        StepOk(chain, config.maxBlocks, commit) && store.Tables() == Apply(old(store.Tables()), commit)
      ensures out.Ok? ==> stream in store.streams && store.streams[stream].next == end + 1
    {
      if Sound(chain, store.Tables()) {
        CompleteReplyValid(chain, stream, start, end, result);
      }
      hide InsideQuery, Consistent, StrictlyOrdered, Selected;
      commit := Nothing;
      var logs := ValidateLogs(result, start, end, Topics(stream), Addresses(stream));
      if logs.Err? {
        return Err(Invalid(logs.error)), commit;
      }
      ValidatedHonest(chain, stream, start, end, result, logs.value);
      if Sound(chain, store.Tables()) && (stream.Amm? ==> Admits(store.streams, end)) {
        RangeCommitsAnyhow(chain, store.Tables(), stream, end, logs.value);
      }
      hide Commit, Honest, Sound;
      var nextWindow: nat := if |logs.value| < config.logCap / 4 then Min(config.maxBlocks, window * 2) else window;
      ghost var before := store.Tables();
      var committed := store.CommitRange(stream, start, end, nextWindow, id, |result|, logs.value, durable);
      if committed.Err? {
        return Err(NotCommitted(committed.error)), commit;
      }
      CommitMoves(before, stream, end, nextWindow, id, |result|, logs.value);
      commit := TryCommit(stream, start, end, nextWindow, id, |result|, logs.value);
      out := Ok(());
    }

    /** One pass over the selected streams. */
    method Pass(streams: seq<Stream>, providers: nat -> Provider, durable: nat -> nat -> bool, ghost chain: set<Log>,
                ghost starts: map<Stream, nat>, ghost history: seq<Step>)
        returns (out: Result<bool, StepError>, ghost steps: seq<Step>)
      requires ChainOk(chain)
      requires store.Valid() && Reached(chain, config.maxBlocks, starts, history, store.Tables())
      requires forall i: nat :: HonestProvider(chain, config, providers(i))
      modifies store
      ensures store.Valid() && Reached(chain, config.maxBlocks, starts, steps, store.Tables()) && history <= steps
      ensures out == Ok(false) && (Amm in streams ==> Factory in streams) ==>
        forall s :: s in streams ==> s in store.streams && store.streams[s].next > config.endBlock
    {
      hide Apply, StepOk, ChainOk, Reached, HonestProvider, AtLimit;
      steps := history;
      var progressed := false;
      for i := 0 to |streams|
        invariant store.Valid() && Reached(chain, config.maxBlocks, starts, steps, store.Tables()) && history <= steps
        invariant !progressed ==> store.Tables() == old(store.Tables())
        invariant !progressed ==> forall j :: 0 <= j < i ==> AtLimit(store.Tables(), streams[j], config.endBlock)
      {
        ReachedStreams(chain, config.maxBlocks, starts, steps, store.Tables());
        ghost var before := store.Tables();
        var advanced, calls;
        ghost var done;
        advanced, calls, done := Step(streams[i], providers(i), durable(i), chain);
        ReachedNext(chain, config.maxBlocks, starts, steps, before, done);
        steps := steps + [done];
        if advanced.Err? {
          return Err(advanced.error), steps;
        }
        progressed := progressed || advanced.value;
        NothingChanges(old(store.Tables()));
      }
      if !progressed && (Amm in streams ==> Factory in streams) {
        LimitsReached(store.Tables(), streams, config.endBlock);
      }
      out := Ok(progressed);
    }
  }

  /** The stream has nothing to read at this moment. */
  predicate AtLimit(db: Db, stream: Stream, endBlock: nat) {
    Factory in db.streams && stream in db.streams && db.streams[stream].next > Limit(db, stream, endBlock)
  }

  lemma LimitsReached(db: Db, streams: seq<Stream>, endBlock: nat)
    requires forall j :: 0 <= j < |streams| ==> AtLimit(db, streams[j], endBlock)
    requires Amm in streams ==> Factory in streams
    ensures forall s :: s in streams ==> s in db.streams && db.streams[s].next > endBlock
  {
    if Factory in streams {
      assert AtLimit(db, Factory, endBlock);
    }
  }

  lemma InvStreams(chain: set<Log>, maxBlocks: nat, db: Db)
    requires Inv(chain, maxBlocks, db)
    ensures StreamsOk(db, maxBlocks)
  {
  }

  lemma NothingIsStep(chain: set<Log>, maxBlocks: nat)
    ensures StepOk(chain, maxBlocks, Nothing)
  {
  }

  lemma NothingChanges(db: Db)
    ensures Apply(db, Nothing) == db
  {
  }

  /** The steps are steps of the protocol and lead from the initial tables to these. */
  ghost predicate Reached(chain: set<Log>, maxBlocks: nat, starts: map<Stream, nat>, steps: seq<Step>, db: Db) {
    && ConfigOk(starts, maxBlocks) && db == Run(Initial(starts, maxBlocks), steps)
    && forall i :: 0 <= i < |steps| ==> StepOk(chain, maxBlocks, steps[i])
  }

  lemma ReachedStreams(chain: set<Log>, maxBlocks: nat, starts: map<Stream, nat>, steps: seq<Step>, db: Db)
    requires ChainOk(chain) && Reached(chain, maxBlocks, starts, steps, db)
    ensures StreamsOk(db, maxBlocks)
  {
    hide Apply, StepOk, Inv, ChainOk, Run;
    InitialInv(chain, starts, maxBlocks);
    RunKeeps(chain, maxBlocks, Initial(starts, maxBlocks), steps);
    InvStreams(chain, maxBlocks, db);
  }

  lemma ReachedNext(chain: set<Log>, maxBlocks: nat, starts: map<Stream, nat>, steps: seq<Step>, db: Db, step: Step)
    requires Reached(chain, maxBlocks, starts, steps, db) && StepOk(chain, maxBlocks, step)
    ensures Reached(chain, maxBlocks, starts, steps + [step], Apply(db, step))
  {
    hide StepOk, Apply, Initial;
    RunOneMore(Initial(starts, maxBlocks), steps, step);
  }

  lemma RunOneMore(db: Db, steps: seq<Step>, step: Step)
    ensures Run(db, steps + [step]) == Apply(Run(db, steps), step)
  {
    assert (steps + [step])[..|steps|] == steps;
  }

  ghost predicate Succeeds(db: Db, step: Step) {
    step.TryCommit?
    && Commit(db, step.stream, step.start, step.end, step.window, step.request, step.returned, step.logs).Ok?
  }

  /** Commits overwrite the saved window, so halving first makes no difference to the result. */
  lemma CommitAbsorbsShrink(db: Db, shrink: Step, commit: Step)
    requires shrink == Nothing || (shrink.Shrink? && commit.TryCommit? && shrink.stream == commit.stream
      && shrink.start == commit.start)
    requires Succeeds(Apply(db, shrink), commit)
    ensures Apply(Apply(db, shrink), commit) == Apply(db, commit)
  {
    hide ReadLogs, AddPools, Observe, Join;
    var stream := commit.stream;
    if stream in db.streams && db.streams[stream].next == commit.start {
      var row := StreamRow(db.streams[stream].start, commit.end + 1, commit.window);
      assert Apply(db, shrink).streams[stream := row] == db.streams[stream := row];
    }
  }
}
