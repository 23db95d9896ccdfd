/** The main loop: the streams in turn and then the repair, until neither has anything left to do. */
module MainLoop {
  import opened Outcomes
  import opened EthLogs
  import opened WalletTable
  import opened Registry
  import opened RegistryRuns
  import opened CanonicalChain
  import opened Collecting
  import opened LegacyWitness
  import opened WitnessRepair

  /** Blocks a stream still has to read. */
  function Pending(db: Db, stream: Stream, endBlock: nat): nat {
    if stream in db.streams then Max(0, endBlock + 1 - db.streams[stream].next) else 0
  }

  function AllPending(db: Db, endBlock: nat): nat {
    Pending(db, Factory, endBlock) + Pending(db, Amm, endBlock) + Pending(db, Exchange, endBlock)
  }

  /** No step moves a stream back. */
  lemma StepsNeverGoBack(chain: set<Log>, maxBlocks: nat, db: Db, step: Step, endBlock: nat)
    requires (forall s: Stream :: s in db.streams) && StepOk(chain, maxBlocks, step)
    ensures forall s: Stream :: s in Apply(db, step).streams && db.streams[s].next <= Apply(db, step).streams[s].next
    ensures AllPending(Apply(db, step), endBlock) <= AllPending(db, endBlock)
  {
    hide ReadLogs, AddPools, Observe, Join, Honest;
  }

  lemma ProgressIsPending(db: Db, after: Db, stream: Stream, endBlock: nat)
    requires (forall s: Stream :: s in db.streams && s in after.streams && db.streams[s].next <= after.streams[s].next)
    requires db.streams[stream].next < after.streams[stream].next && db.streams[stream].next <= endBlock
    ensures AllPending(after, endBlock) < AllPending(db, endBlock)
  {
  }

  ghost predicate AlwaysDurable(durable: nat -> bool) {
    forall k: nat :: durable(k)
  }

  /** Nothing goes wrong but that ranges of several blocks may be refused. */
  ghost predicate Friendly(chain: set<Log>, config: Config, providers: nat -> Provider, durable: nat -> nat -> bool) {
    Canonical(chain) && forall i: nat :: Cooperative(config, providers(i)) && AlwaysDurable(durable(i))
  }

  /** The world after one more event is a run of the protocol from where it started. */
  ghost predicate Continues(chain: set<Log>, maxBlocks: nat, start: World, events: seq<Event>, now: World) {
    EventsOk(chain, maxBlocks, start, events) && now == Unfold(start, events)
  }

  lemma OneMoreEvent(chain: set<Log>, maxBlocks: nat, start: World, events: seq<Event>, now: World, event: Event)
    requires Continues(chain, maxBlocks, start, events, now) && EventOk(chain, maxBlocks, now, event)
    ensures Continues(chain, maxBlocks, start, events + [event], Happen(now, event))
  {
    hide EventOk, Happen;
    var all := events + [event];
    assert all[..|events|] == events;
    forall i | 0 <= i < |all| ensures EventOk(chain, maxBlocks, Unfold(start, all[..i]), all[i]) {
      assert all[..i] == events[..i];
      assert i == |events| ==> events[..i] == events;
    }
  }

  class Collection {
    const collector: Collector
    const repair: WitnessOrderRepair

    constructor (collector: Collector, repair: WitnessOrderRepair)
      ensures this.collector == collector && this.repair == repair
    {
      this.collector, this.repair := collector, repair;
    }

    ghost predicate Ready(chain: set<Log>)
      reads repair.store, repair`state
    {
      && collector.store == repair.store && collector.config == repair.config && repair.store.Valid()
      && RepairInv(chain, repair.config.maxBlocks, Now())
    }

    function Now(): World
      reads repair.store, repair`state
    {
      World(repair.store.Tables(), repair.state)
    }

    function Work(): nat
      reads repair.store, repair`state
    {
      AllPending(repair.store.Tables(), repair.config.endBlock) + Measure(repair.state, repair.config.maxBlocks)
    }

    lemma ReadyIsSound(chain: set<Log>)
      requires ChainOk(chain) && Ready(chain)
      ensures Canonical(chain) ==> Sound(chain, repair.store.Tables())
    {
    }

    /** One attempt of one stream. */
    method Collect(stream: Stream, provider: Provider, durable: nat -> bool, ghost chain: set<Log>, ghost start: World,
                   ghost events: seq<Event>)
      returns (out: Result<bool, StepError>, ghost events': seq<Event>)
      requires ChainOk(chain) && PoolsApart(chain) && Ready(chain)
      requires HonestProvider(chain, repair.config, provider)
      requires Continues(chain, repair.config.maxBlocks, start, events, Now())
      modifies repair.store
      ensures Ready(chain) && Continues(chain, repair.config.maxBlocks, start, events', Now())
      ensures Work() <= old(Work()) && (out == Ok(true) ==> Work() < old(Work()))
      ensures out == Ok(false) ==> Now() == old(Now()) && AtLimit(repair.store.Tables(), stream, repair.config.endBlock)
      ensures Canonical(chain) && Cooperative(repair.config, provider) && AlwaysDurable(durable) ==> out.Ok?
    {
      ReadyIsSound(chain);
      hide Canonical, Sound, Cooperative, Outcome;
      hide ChainOk, PoolsApart, StepOk, Apply, HonestProvider, EventsOk, Unfold, Measure, Staged, SpanScanned,
           PoolsRight, Tiled;
      var store, config := repair.store, repair.config;
      ghost var before := store.Tables();
      var advanced, calls;
      ghost var done;
      advanced, calls, done := collector.Step(stream, provider, durable, chain);
      CollectIsEvent(chain, config.maxBlocks, World(before, repair.state), done);
      OneMoreEvent(chain, config.maxBlocks, start, events, World(before, repair.state), Event.Collect(done));
      StepsNeverGoBack(chain, config.maxBlocks, before, done, config.endBlock);
      if advanced == Ok(true) {
        ProgressIsPending(before, store.Tables(), stream, config.endBlock);
      }
      if advanced == Ok(false) {
        NothingChanges(before);
      }
      CollectKeepsStages(chain, config.maxBlocks, World(before, repair.state), done);
      out, events' := advanced, events + [Event.Collect(done)];
    }

    /** One step of the repair. */
    method Reread(provider: Provider, durable: bool, ghost chain: set<Log>, ghost start: World,
                  ghost events: seq<Event>)
      returns (out: Result<bool, StepError>, ghost events': seq<Event>)
      requires ChainOk(chain) && PoolsApart(chain) && Ready(chain)
      requires HonestProvider(chain, repair.config, provider)
      requires Continues(chain, repair.config.maxBlocks, start, events, Now())
      modifies repair.store, repair`state
      ensures Ready(chain) && Continues(chain, repair.config.maxBlocks, start, events', Now())
      ensures Work() <= old(Work()) && (out == Ok(true) ==> Work() < old(Work()))
      ensures out == Ok(false) ==> Now() == old(Now()) && Settled(repair.state)
      ensures Canonical(chain) && Cooperative(repair.config, provider) && durable ==> out.Ok?
    {
      ReadyIsSound(chain);
      hide Canonical, Sound, Cooperative, RepairOutcome;
      hide ChainOk, PoolsApart, EventOk, Happen, OwnStep, HonestProvider, Unfold, Measure, Staged, PoolsRight, Tiled,
           SpanScanned;
      var config := repair.config;
      ghost var before := Now();
      ghost var done;
      out, done := repair.Step(provider, durable, chain);
      OneMoreEvent(chain, config.maxBlocks, start, events, before, done);
      events' := events + [done];
      EventKeeps(chain, config.maxBlocks, before, done);
      RepairProgress(chain, config.maxBlocks, before, done);
      RepairStepsKeepStreams(before, done, config.endBlock, out == Ok(true));
    }

    /** One attempt of every stream in turn. */
    method Round(streams: seq<Stream>, providers: nat -> Provider, durable: nat -> nat -> bool, turn: nat,
                 ghost chain: set<Log>, ghost start: World, ghost events: seq<Event>)
      returns (out: Result<bool, StepError>, turn': nat, ghost events': seq<Event>)
      requires ChainOk(chain) && PoolsApart(chain) && Ready(chain)
      requires forall i: nat :: HonestProvider(chain, repair.config, providers(i))
      requires Continues(chain, repair.config.maxBlocks, start, events, Now())
      modifies repair.store
      ensures Ready(chain) && Continues(chain, repair.config.maxBlocks, start, events', Now())
      ensures Work() <= old(Work()) && (out == Ok(true) ==> Work() < old(Work()))
      ensures out == Ok(false) ==> Now() == old(Now())
      ensures out == Ok(false) ==>
        forall j :: 0 <= j < |streams| ==> AtLimit(repair.store.Tables(), streams[j], repair.config.endBlock)
      ensures Friendly(chain, repair.config, providers, durable) ==> out.Ok?
    {
      hide ChainOk, PoolsApart, HonestProvider, Continues, RepairInv, Measure, AllPending;
      var config := repair.config;
      ghost var before, work := Now(), Work();
      var progressed := false;
      turn', events' := turn, events;
      for i := 0 to |streams|
        invariant Ready(chain) && Continues(chain, config.maxBlocks, start, events', Now())
        invariant if progressed then Work() < work else Now() == before
        invariant !progressed ==> forall j :: 0 <= j < i ==> AtLimit(before.db, streams[j], config.endBlock)
      {
        var advanced;
        advanced, events' := Collect(streams[i], providers(turn'), durable(turn'), chain, start, events');
        turn' := turn' + 1;
        if advanced.Err? {
          return Err(advanced.error), turn', events';
        }
        progressed := progressed || advanced.value;
      }
      out := Ok(progressed);
    }

    /**
     * The main loop: every stream in turn, then the repair, until nothing progresses. At every turn any request and
     * any transaction may fail. The loop ends, and when it ends without an error the repair is settled, every
     * selected stream is past the end block, and the registry is one that the current rule could have built. On a
     * canonical chain, with providers that refuse ranges but answer single blocks and with durable transactions, it
     * does end without an error.
     */
    method CollectAll(streams: seq<Stream>, providers: nat -> Provider, durable: nat -> nat -> bool,
                      ghost chain: set<Log>)
      returns (out: Result<(), StepError>, ghost events: seq<Event>)
      requires ChainOk(chain) && PoolsApart(chain) && Ready(chain) && (Amm in streams ==> Factory in streams)
      requires forall i: nat :: HonestProvider(chain, repair.config, providers(i))
      modifies repair.store, repair`state
      ensures Ready(chain) && Continues(chain, repair.config.maxBlocks, old(Now()), events, Now())
      ensures out.Ok? ==> Settled(repair.state) && Inv(chain, repair.config.maxBlocks, repair.store.Tables())
      ensures out.Ok? ==> forall s :: s in streams ==> repair.store.streams[s].next > repair.config.endBlock
      ensures Friendly(chain, repair.config, providers, durable) ==> out.Ok?
    {
      hide ChainOk, PoolsApart, HonestProvider, Continues, RepairInv, Measure, AllPending, AtLimit;
      var config := repair.config;
      ghost var start := Now();
      events := [];
      NothingHappened(chain, config.maxBlocks, start);
      var turn: nat := 0;
      while true
        invariant Ready(chain) && Continues(chain, config.maxBlocks, start, events, Now())
        decreases Work()
      {
        ghost var before := Now();
        var progressed, reread;
        progressed, turn, events := Round(streams, providers, durable, turn, chain, start, events);
        if progressed.Err? {
          return Err(progressed.error), events;
        }
        reread, events := Reread(providers(turn), durable(turn)(0), chain, start, events);
        turn := turn + 1;
        if reread.Err? {
          return Err(reread.error), events;
        }
        if !progressed.value && !reread.value {
          SettledIsFaithful(chain, config.maxBlocks, Now());
          LimitsReached(before.db, streams, config.endBlock);
          return Ok(()), events;
        }
      }
    }
  }

  lemma CollectIsEvent(chain: set<Log>, maxBlocks: nat, world: World, step: Step)
    requires StepOk(chain, maxBlocks, step)
    ensures EventOk(chain, maxBlocks, world, Event.Collect(step))
    ensures Happen(world, Event.Collect(step)) == World(Apply(world.db, step), world.repair)
  {
  }

  lemma EventKeeps(chain: set<Log>, maxBlocks: nat, world: World, event: Event)
    requires ChainOk(chain) && PoolsApart(chain) && RepairInv(chain, maxBlocks, world)
    requires EventOk(chain, maxBlocks, world, event)
    ensures RepairInv(chain, maxBlocks, Happen(world, event))
  {
    hide ChainOk, PoolsApart, RepairInv, EventOk, Happen;
    assert Unfold(world, []) == world;
    OneMoreEvent(chain, maxBlocks, world, [], world, event);
    RepairKeeps(chain, maxBlocks, world, [event]);
  }

  /** The repair's own steps move no stream. */
  lemma RepairStepsKeepStreams(world: World, event: Event, endBlock: nat, own: bool)
    requires if own then OwnStep(world, event) else Happen(world, event) == world
    ensures AllPending(Happen(world, event).db, endBlock) == AllPending(world.db, endBlock)
  {
    hide ReadLogs, Correct, Ascending, AmmWitnessBlocks, Observe;
  }

  lemma NothingHappened(chain: set<Log>, maxBlocks: nat, world: World)
    ensures Continues(chain, maxBlocks, world, [], world)
  {
  }
}
