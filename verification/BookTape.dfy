/**
 * Book-tape reconstruction: the state machine that both the streaming engine and the older
 * whole-tape loop drive, one causal item at a time.
 */
module BookTape {
  import opened Outcomes

  /** Exact ownership of a book: collector run, venue and venue book id. */
  datatype Key = Key(run: string, venue: string, book: string)

  datatype Size = Finite(contracts: real) | NotFinite
  datatype Level = Level(side: string, price: real, size: Size)
  type Book = map<(string, real), real>

  /** A tape event with its levels in ordinal order; the empty text stands for a missing value. */
  datatype Event = Event(key: Key, id: string, checkpoint: bool, reason: string, reconstructible: bool, epoch: string,
                         received: string, monotonic: int, local: nat, sub: nat, rawHash: string,
                         venueSequence: Option<int>, sid: string,
                         sideCounts: map<string, nat>, levels: seq<Level>, postHash: string)

  datatype ControlKind = Recovered | Invalidated | Ended | Other
  datatype Control = Control(key: Key, id: string, kind: ControlKind, reason: string, evidence: string, epoch: string,
                             local: nat, sub: nat)

  datatype Item = EventItem(event: Event) | ControlItem(control: Control)

  type Shards = map<(string, string), string>

  /** Which shard feeds each book, the venue's hash of a book's contents, and which books can be normalised. */
  datatype Setup = Setup(shards: Shards, hash: (Key, Book) -> string, normalizes: Emission -> bool)

  datatype Report = Report(checkpoint: string, openedBy: Option<string>, closedBy: Option<string>,
                           supersededBy: Option<string>, firstLocal: nat, lastLocal: nat, applied: nat)

  /** Venue ordering per (run, shard, sid), and per book. */
  datatype VenueOrder = VenueOrder(sequences: map<(string, string, string), int>, books: map<Key, int>, sids: map<Key,
    string>)

  datatype Core = Core(open: map<Key, string>, recovering: map<Key, string>, terminal: set<Key>, eventBooks: set<Key>,
                       books: map<Key, Book>, order: VenueOrder, coordinates: map<Key, (nat, nat, nat)>,
                       reports: map<(Key, string), Report>, ignored: seq<string>, applied: nat)

  datatype Rejection =
    | MissingOwnership | NoShard | NonContinuous | AfterTerminal
    | MissingSequence | NoShardOwner | PeriodicMismatch | NonIncreasing | SidChanged
    | OverlapsOpenEpoch | CheckpointWithoutEpoch | PrecedesRecovery | ReusesEpoch | NoMatchingEpoch
    | SideCounts | BadSize | HashMismatch
    | NothingPending | WrongCheckpoint | WrongEpoch | ClosesUnconfirmed
    | NotNormalizable | EndsUnconfirmed | EndsOpen | NotTerminal

  const START := Core(map[], map[], {}, {}, map[], VenueOrder(map[], map[], map[]), map[], map[], [], 0)

  function KeyOf(item: Item): Key {
    match item case EventItem(e) => e.key case ControlItem(c) => c.key
  }

  predicate Closes(c: Control) {
    c.kind.Invalidated? || c.kind.Ended?
  }

  /** Controls that close sort before events of the same coordinate, other controls after. */
  function Priority(item: Item): nat {
    match item
    case EventItem(_) => 1
    case ControlItem(c) => if Closes(c) then 0 else 2
  }

  function Progress(item: Item): (nat, nat, nat) {
    match item
    case EventItem(e) => (e.local, e.sub, Priority(item))
    case ControlItem(c) => (c.local, c.sub, Priority(item))
  }

  predicate ProgressBelow(a: (nat, nat, nat), b: (nat, nat, nat)) {
    a.0 < b.0 || (a.0 == b.0 && (a.1 < b.1 || (a.1 == b.1 && a.2 < b.2)))
  }

  // ---------------------------------------------------------------- books

  function WriteLevel(book: Book, level: Level): Result<Book, Rejection> {
    match level.size
    case NotFinite => Err(BadSize)
    case Finite(contracts) =>
      if contracts < 0.0 then Err(BadSize)
      else if contracts == 0.0 then Ok(book - {(level.side, level.price)})
      else Ok(book[(level.side, level.price) := contracts])
  }

  /** Absolute level writes, in order; a zero size removes the level. */
  function WriteLevels(book: Book, levels: seq<Level>): Result<Book, Rejection> {
    if levels == [] then Ok(book)
    else
      var before :- WriteLevels(book, levels[..|levels| - 1]);
      WriteLevel(before, levels[|levels| - 1])
  }

  function CountSide(levels: seq<Level>, side: string): nat {
    if levels == [] then 0
    else CountSide(levels[..|levels| - 1], side) + if levels[|levels| - 1].side == side then 1 else 0
  }

  function CheckpointBook(e: Event): Result<Book, Rejection> {
    if exists side :: side in e.sideCounts && e.sideCounts[side] != CountSide(e.levels, side) then Err(SideCounts)
    else WriteLevels(map[], e.levels)
  }

  // ---------------------------------------------------------------- venue order

  predicate Periodic(e: Event) {
    e.checkpoint && e.reason == "periodic"
  }

  function ResetOrder(order: VenueOrder, key: Key, shard: string): VenueOrder {
    if key.venue != "kalshi" then order
    else VenueOrder(map k | k in order.sequences && (k.0, k.1) != (key.run, shard) :: order.sequences[k],
                    order.books - {key}, order.sids - {key})
  }

  function CheckOrder(order: VenueOrder, e: Event, shard: string): Result<VenueOrder, Rejection> {
    if e.key.venue != "kalshi" then Ok(order)
    else if e.venueSequence.None? || e.sid == "" then Err(MissingSequence)
    else if shard == "" then Err(NoShardOwner)
    else
      var sequence, owner := e.venueSequence.value, (e.key.run, shard, e.sid);
      if Periodic(e) then
        if Get(order.sids, e.key) == Some(e.sid) && Get(order.books, e.key) == Some(sequence) then Ok(order)
        else Err(PeriodicMismatch)
      else if owner in order.sequences && sequence <= order.sequences[owner] then Err(NonIncreasing)
      else if e.key in order.sids && order.sids[e.key] != e.sid && !e.checkpoint then Err(SidChanged)
      else Ok(VenueOrder(order.sequences[owner := sequence], order.books[e.key := sequence],
        order.sids[e.key := e.sid]))
  }

  // ---------------------------------------------------------------- one item

  datatype Moved = Moved(core: Core, applied: bool)

  /** The checks every item passes before its family is looked at. */
  function Admit(setup: Setup, core: Core, item: Item): Result<Core, Rejection> {
    var key := KeyOf(item);
    if key.run == "" || key.venue == "" || key.book == "" then Err(MissingOwnership)
    else if (key.venue, key.book) !in setup.shards then Err(NoShard)
    else if key in core.coordinates && !ProgressBelow(core.coordinates[key], Progress(item)) then Err(NonContinuous)
    else if key in core.terminal then Err(AfterTerminal)
    else Ok(core.(coordinates := core.coordinates[key := Progress(item)]))
  }

  function ApplyControl(core: Core, c: Control, shard: string): Result<Core, Rejection> {
    var reset := if c.kind.Invalidated? && c.reason == "reconnect"
      then core.(order := ResetOrder(core.order, c.key, shard)) else core;
    match c.kind
    case Recovered => Confirm(reset, c)
    case Other => Ok(reset)
    case _ => Close(reset, c)
  }

  function Confirm(core: Core, c: Control): Result<Core, Rejection> {
    if c.key !in core.recovering then Err(NothingPending)
    else if c.evidence != core.recovering[c.key] then Err(WrongCheckpoint)
    else if c.epoch == "" || Get(core.open, c.key) != Some(c.epoch) || (c.key, c.epoch) !in core.reports
      then Err(WrongEpoch)
    else
      var report := core.reports[(c.key, c.epoch)];
      Ok(core.(recovering := core.recovering - {c.key},
               reports := core.reports[(c.key, c.epoch) := report.(openedBy := Some(c.id))]))
  }

  function Close(core: Core, c: Control): Result<Core, Rejection> {
    if c.key in core.recovering then Err(ClosesUnconfirmed)
    else
      var closed := Get(core.open, c.key);
      if closed.Some? && c.epoch != "" && c.epoch != closed.value then Err(WrongEpoch)
      else
        var terminal := if c.kind.Ended? then core.terminal + {c.key} else core.terminal;
        var shut := core.(open := core.open - {c.key}, books := core.books - {c.key}, terminal := terminal);
        if closed.Some? && (c.key, closed.value) in core.reports then
          var report := core.reports[(c.key, closed.value)];
          Ok(shut.(reports := core.reports[(c.key, closed.value) := report.(closedBy := Some(c.id),
            lastLocal := c.local)]))
        else Ok(shut)
  }

  /** A reconstructible checkpoint opens an epoch, superseding the one that was open. */
  function OpenEpoch(core: Core, e: Event): Result<Core, Rejection> {
    if e.epoch == "" then Err(CheckpointWithoutEpoch)
    else if e.key in core.recovering then Err(PrecedesRecovery)
    else if Get(core.open, e.key) == Some(e.epoch) then Err(ReusesEpoch)
    else
      var book :- CheckpointBook(e);
      Ok(core.(open := core.open[e.key := e.epoch], recovering := core.recovering[e.key := e.id],
               books := core.books[e.key := book],
               reports := Superseded(core, e)[(e.key, e.epoch) := Report(e.id, None, None, None, e.local, e.local, 0)]))
  }

  /** The reports once the epoch that was open, if any, is marked as superseded by the checkpoint. */
  function Superseded(core: Core, e: Event): map<(Key, string), Report> {
    var prior := Get(core.open, e.key);
    if prior.Some? && (e.key, prior.value) in core.reports
    then core.reports[(e.key, prior.value) := core.reports[(e.key, prior.value)].(supersededBy := Some(e.id))]
    else core.reports
  }

  function ApplyDelta(core: Core, e: Event): Result<Core, Rejection> {
    if e.key in core.recovering then Err(PrecedesRecovery)
    else if e.epoch == "" || Get(core.open, e.key) != Some(e.epoch) || e.key !in core.books then Err(NoMatchingEpoch)
    else
      var book :- WriteLevels(core.books[e.key], e.levels);
      Ok(core.(books := core.books[e.key := book]))
  }

  /** The book's hash must be the one the venue event declares; then the event counts as applied. */
  function Verify(setup: Setup, core: Core, e: Event): Result<Moved, Rejection> {
    if e.key !in core.books || (e.key, e.epoch) !in core.reports then Err(NoMatchingEpoch)
    else if setup.hash(e.key, core.books[e.key]) != e.postHash then Err(HashMismatch)
    else
      var report := core.reports[(e.key, e.epoch)];
      Ok(Moved(core.(reports := core.reports[(e.key, e.epoch) := report.(lastLocal := e.local,
        applied := report.applied + 1)],
                     applied := core.applied + 1), true))
  }

  function ApplyEvent(setup: Setup, core: Core, e: Event): Result<Moved, Rejection> {
    if e.reconstructible then
      var changed :- if e.checkpoint then OpenEpoch(core, e) else ApplyDelta(core, e);
      Verify(setup, changed, e)
    else if e.key in core.open || (if e.checkpoint then e.key in core.recovering
      else e.epoch != "") then Err(OverlapsOpenEpoch)
    else Ok(Moved(core.(ignored := core.ignored + [e.id]), false))
  }

  function Advance(setup: Setup, core: Core, item: Item): Result<Moved, Rejection> {
    var admitted :- Admit(setup, core, item);
    var shard := ShardOf(setup, KeyOf(item));
    match item
    case ControlItem(c) =>
      var after :- ApplyControl(admitted, c, shard);
      Ok(Moved(after, false))
    case EventItem(e) =>
      var order :- CheckOrder(admitted.order, e, shard);
      ApplyEvent(setup, admitted.(order := order, eventBooks := admitted.eventBooks + {e.key}), e)
  }

  function ShardOf(setup: Setup, key: Key): string {
    if (key.venue, key.book) in setup.shards then setup.shards[(key.venue, key.book)] else ""
  }

  /** The state after a tape, or the first rejection. */
  function Reach(setup: Setup, items: seq<Item>): Result<Core, Rejection> {
    if items == [] then Ok(START)
    else
      var core :- Reach(setup, items[..|items| - 1]);
      var moved :- Advance(setup, core, items[|items| - 1]);
      Ok(moved.core)
  }

  // ---------------------------------------------------------------- emission

  datatype Owner = Owner(key: Key, epoch: string, received: string, monotonic: int, local: nat, rawHash: string)
  datatype Emission = Emission(event: Event, book: Book)

  /** The source message an event belongs to; subevents of one message are published once. */
  function OwnerOf(e: Event): Owner {
    Owner(e.key, e.epoch, e.received, e.monotonic, e.local, e.rawHash)
  }

  predicate SameMessage(e: Event, next: Item) {
    next.EventItem? && OwnerOf(next.event) == OwnerOf(e)
  }

  /** The checks once all evidence has been read. */
  function Final(core: Core): Result<(), Rejection> {
    if core.recovering != map[] then Err(EndsUnconfirmed)
    else if core.open != map[] then Err(EndsOpen)
    else if core.eventBooks - core.terminal != {} then Err(NotTerminal)
    else Ok(())
  }

  // The whole-tape loop: publish an applied event unless the next item belongs to the same message.

  function Publish(setup: Setup, out: seq<Emission>, emission: Emission): Result<seq<Emission>, Rejection> {
    if setup.normalizes(emission) then Ok(out + [emission]) else Err(NotNormalizable)
  }

  datatype Looked = Looked(core: Core, out: seq<Emission>)

  function LookStep(setup: Setup, looked: Looked, item: Item, next: Option<Item>): Result<Looked, Rejection> {
    var moved :- Advance(setup, looked.core, item);
    if !moved.applied || !item.EventItem? || item.event.key !in moved.core.books
       || (next.Some? && SameMessage(item.event, next.value))
    then Ok(Looked(moved.core, looked.out))
    else
      var out :- Publish(setup, looked.out, Emission(item.event, moved.core.books[item.event.key]));
      Ok(Looked(moved.core, out))
  }

  function Look(setup: Setup, items: seq<Item>, n: nat): Result<Looked, Rejection>
    requires n <= |items|
  {
    if n == 0 then Ok(Looked(START, []))
    else
      var looked :- Look(setup, items, n - 1);
      LookStep(setup, looked, items[n - 1], if n < |items| then Some(items[n]) else None)
  }

  function Lookahead(setup: Setup, items: seq<Item>): Result<Looked, Rejection> {
    var looked :- Look(setup, items, |items|);
    var _ :- Final(looked.core);
    Ok(looked)
  }

  // The streaming engine: hold each applied event back until an item of another message arrives.

  datatype Stream = Stream(core: Core, pending: Option<Emission>, out: seq<Emission>)

  const IDLE := Stream(START, None, [])

  function EmitPending(setup: Setup, stream: Stream): Result<Stream, Rejection> {
    if stream.pending.None? then Ok(stream)
    else
      var out :- Publish(setup, stream.out, stream.pending.value);
      Ok(Stream(stream.core, None, out))
  }

  function StreamStep(setup: Setup, stream: Stream, item: Item): Result<Stream, Rejection> {
    var flushed :- if stream.pending.Some? && !SameMessage(stream.pending.value.event, item)
      then EmitPending(setup, stream) else Ok(stream);
    var moved :- Advance(setup, flushed.core, item);
    if moved.applied && item.EventItem? && item.event.key in moved.core.books
    then Ok(Stream(moved.core, Some(Emission(item.event, moved.core.books[item.event.key])), flushed.out))
    else Ok(Stream(moved.core, flushed.pending, flushed.out))
  }

  function Feed(setup: Setup, stream: Stream, items: seq<Item>): Result<Stream, Rejection> {
    if items == [] then Ok(stream)
    else
      var before :- Feed(setup, stream, items[..|items| - 1]);
      StreamStep(setup, before, items[|items| - 1])
  }

  function Finish(setup: Setup, stream: Stream): Result<Stream, Rejection> {
    var emitted :- EmitPending(setup, stream);
    var _ :- Final(emitted.core);
    Ok(emitted)
  }

  function Streaming(setup: Setup, items: seq<Item>): Result<Stream, Rejection> {
    var stream :- Feed(setup, IDLE, items);
    Finish(setup, stream)
  }
}
