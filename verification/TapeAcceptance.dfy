/**
 * Which tapes are accepted and what they publish, said about the items alone: every condition looks back at earlier
 * items, never at the engine's state.
 */
module TapeAcceptance {
  import opened Outcomes
  import opened BookTape
  import opened TapeRefinement
  import opened TapeLifecycle
  import opened TapeOrder
  import opened TapeShards
  import opened JournalReaders

  // ---------------------------------------------------------------- looking back along a tape

  predicate OpensBook(item: Item, k: Key) {
    item.EventItem? && item.event.checkpoint && item.event.reconstructible && item.event.key == k
  }

  predicate ClosesBook(item: Item, k: Key) {
    item.ControlItem? && (item.control.kind.Invalidated? || item.control.kind.Ended?) && item.control.key == k
  }

  predicate EndsBook(item: Item, k: Key) {
    item.ControlItem? && item.control.kind.Ended? && item.control.key == k
  }

  /** The epoch of the book's last reconstructible checkpoint, unless a closing control came since. */
  function EpochOf(items: seq<Item>, k: Key): Option<string> {
    if items == [] then None
    else
      var last := items[|items| - 1];
      if OpensBook(last, k) then Some(last.event.epoch)
      else if ClosesBook(last, k) then None
      else EpochOf(items[..|items| - 1], k)
  }

  /** The book's last reconstructible checkpoint, unless a recovery control came since. */
  function AwaitedBy(items: seq<Item>, k: Key): Option<string> {
    if items == [] then None
    else
      var last := items[|items| - 1];
      if OpensBook(last, k) then Some(last.event.id)
      else if last.ControlItem? && last.control.kind.Recovered? && last.control.key == k then None
      else AwaitedBy(items[..|items| - 1], k)
  }

  /** A Kalshi event that is not a periodic checkpoint takes part in its session's sequence. */
  predicate InSequence(item: Item) {
    && item.EventItem? && item.event.key.venue == "kalshi"
    && !(item.event.checkpoint && item.event.reason == "periodic")
  }

  predicate Reconnected(item: Item) {
    && item.ControlItem? && item.control.key.venue == "kalshi"
    && item.control.kind.Invalidated? && item.control.reason == "reconnect"
  }

  /** The last sequence number of a session of a shard, unless the shard reconnected since. */
  function LastOfSession(setup: Setup, items: seq<Item>, run: string, shard: string, sid: string): Option<int> {
    if items == [] then None
    else
      var last := items[|items| - 1];
      var here := KeyOf(last).run == run && ShardOf(setup, KeyOf(last)) == shard;
      if here && InSequence(last) && last.event.sid == sid then last.event.venueSequence
      else if here && Reconnected(last) then None
      else LastOfSession(setup, items[..|items| - 1], run, shard, sid)
  }

  /** The book's last event in sequence, unless it was invalidated by a reconnect since. */
  function LastInSequence(items: seq<Item>, k: Key): Option<Event> {
    if items == [] then None
    else
      var last := items[|items| - 1];
      if InSequence(last) && last.event.key == k then Some(last.event)
      else if Reconnected(last) && last.control.key == k then None
      else LastInSequence(items[..|items| - 1], k)
  }

  // ---------------------------------------------------------------- what a book holds

  ghost function Places(levels: seq<Level>): set<(string, real)> {
    set i | 0 <= i < |levels| :: (levels[i].side, levels[i].price)
  }

  predicate StandsAt(levels: seq<Level>, at: (string, real)) {
    var last := LastWrite(levels, at);
    last.Some? && last.value.Finite? && last.value.contracts > 0.0
  }

  /** The last write to each side and price, where that is a positive size. */
  ghost function Standing(levels: seq<Level>): Book {
    map at | at in Places(levels) && StandsAt(levels, at) :: LastWrite(levels, at).value.contracts
  }

  /** Every size is a finite number that is not negative; zero removes a level, whether it is there or not. */
  ghost predicate Representable(levels: seq<Level>) {
    forall i :: 0 <= i < |levels| ==> levels[i].size.Finite? && levels[i].size.contracts >= 0.0
  }

  ghost predicate SidesCounted(e: Event) {
    forall side :: side in e.sideCounts ==>
      e.sideCounts[side] == |set i | 0 <= i < |e.levels| && e.levels[i].side == side|
  }

  lemma {:induction false} SizesDecide(book: Book, levels: seq<Level>)
    ensures WriteLevels(book, levels).Ok? <==> Representable(levels)
  {
    if levels != [] {
      var n := |levels| - 1;
      SizesDecide(book, levels[..n]);
      assert levels == levels[..n] + [levels[n]];
    }
  }

  lemma {:induction false} WrittenPlaces(levels: seq<Level>, at: (string, real))
    ensures LastWrite(levels, at).Some? <==> at in Places(levels)
  {
    if levels != [] {
      var n := |levels| - 1;
      WrittenPlaces(levels[..n], at);
      assert Places(levels) == Places(levels[..n]) + {(levels[n].side, levels[n].price)};
    }
  }

  /** Writing levels from nothing leaves the last writes standing. */
  lemma WritingStands(levels: seq<Level>)
    requires WriteLevels(map[], levels).Ok?
    ensures WriteLevels(map[], levels).value == Standing(levels)
  {
    BookIsLastWrites(levels);
    var book := WriteLevels(map[], levels).value;
    forall at ensures Get(book, at) == Get(Standing(levels), at) {
      WrittenPlaces(levels, at);
    }
    SameMap(book, Standing(levels));
  }

  lemma {:induction false} SideCount(levels: seq<Level>, side: string)
    ensures CountSide(levels, side) == |set i | 0 <= i < |levels| && levels[i].side == side|
  {
    if levels != [] {
      var n := |levels| - 1;
      SideCount(levels[..n], side);
      var front := set i | 0 <= i < n && levels[..n][i].side == side;
      var all := set i | 0 <= i < |levels| && levels[i].side == side;
      assert all == front + if levels[n].side == side then {n} else {};
    }
  }

  lemma CheckpointReads(e: Event)
    ensures CheckpointBook(e).Ok? <==> SidesCounted(e) && Representable(e.levels)
    ensures CheckpointBook(e).Ok? ==> CheckpointBook(e).value == Standing(e.levels)
  {
    forall side ensures CountSide(e.levels, side) == |set i | 0 <= i < |e.levels| && e.levels[i].side == side| {
      SideCount(e.levels, side);
    }
    SizesDecide(map[], e.levels);
    if CheckpointBook(e).Ok? {
      WritingStands(e.levels);
    }
  }

  // ---------------------------------------------------------------- when an item fits what came before

  /** Where the item stands in its book: local sequence, subsequence, then closing controls, events, other controls. */
  function Coordinate(item: Item): (nat, nat, nat) {
    match item
    case EventItem(e) => (e.local, e.sub, 1)
    case ControlItem(c) => (c.local, c.sub, if c.kind.Invalidated? || c.kind.Ended? then 0 else 2)
  }

  predicate Earlier(a: Item, b: Item) {
    var (p, q) := (Coordinate(a), Coordinate(b));
    p.0 < q.0 || (p.0 == q.0 && p.1 < q.1) || (p.0 == q.0 && p.1 == q.1 && p.2 < q.2)
  }

  /** The item names a known book, comes after all earlier items of the book, and the book has not ended. */
  ghost predicate Placed(setup: Setup, before: seq<Item>, item: Item) {
    var k := KeyOf(item);
    && k.run != "" && k.venue != "" && k.book != "" && (k.venue, k.book) in setup.shards
    && forall i :: 0 <= i < |before| && KeyOf(before[i]) == k ==> Earlier(before[i], item) && !EndsBook(before[i], k)
  }

  ghost predicate ControlFits(before: seq<Item>, c: Control) {
    var epoch, awaited := EpochOf(before, c.key), AwaitedBy(before, c.key);
    match c.kind
    case Other => true
    case Recovered => awaited == Some(c.evidence) && c.epoch != "" && epoch == Some(c.epoch)
    case _ => awaited.None? && (epoch.Some? && c.epoch != "" ==> c.epoch == epoch.value)
  }

  /** Kalshi events carry a session and a sequence number that advances, or restate the book's last ones. */
  ghost predicate SequenceFits(setup: Setup, before: seq<Item>, e: Event) {
    e.key.venue == "kalshi" ==>
      var shard, prior := ShardOf(setup, e.key), LastInSequence(before, e.key);
      && e.venueSequence.Some? && e.sid != "" && shard != ""
      && if e.checkpoint && e.reason == "periodic" then
           prior.Some? && prior.value.sid == e.sid && prior.value.venueSequence == e.venueSequence
         else
           var last := LastOfSession(setup, before, e.key.run, shard, e.sid);
           && (last.Some? ==> last.value < e.venueSequence.value)
           && (prior.Some? && !e.checkpoint ==> prior.value.sid == e.sid)
  }

  /** The book's levels with those of the event, and the hash the event declares for them. */
  ghost predicate LevelsFit(setup: Setup, e: Event, levels: seq<Level>) {
    Representable(e.levels) && setup.hash(e.key, Standing(levels)) == e.postHash
  }

  ghost predicate EventFits(setup: Setup, before: seq<Item>, e: Event) {
    var epoch, awaited := EpochOf(before, e.key), AwaitedBy(before, e.key);
    if !e.reconstructible then epoch.None? && (e.checkpoint || e.epoch == "")
    else if e.checkpoint then
      && e.epoch != "" && awaited.None? && epoch != Some(e.epoch) && SidesCounted(e) && LevelsFit(setup, e, e.levels)
    else
      && e.epoch != "" && awaited.None? && epoch == Some(e.epoch)
      && LevelsFit(setup, e, Writes(before, e.key) + e.levels)
  }

  ghost predicate ItemFits(setup: Setup, before: seq<Item>, item: Item) {
    && Placed(setup, before, item)
    && match item
       case ControlItem(c) => ControlFits(before, c)
       case EventItem(e) => SequenceFits(setup, before, e) && EventFits(setup, before, e)
  }

  // ---------------------------------------------------------------- the engine's state against the items

  ghost predicate EpochsMirror(core: Core, items: seq<Item>) {
    forall k :: Get(core.open, k) == EpochOf(items, k) && Get(core.recovering, k) == AwaitedBy(items, k)
  }

  ghost predicate EndsMirror(core: Core, items: seq<Item>) {
    && (forall k :: k in core.terminal <==> Ended(items, k))
    && (forall k :: k in core.eventBooks <==> HasEvents(items, k))
  }

  ghost predicate Ended(items: seq<Item>, k: Key) {
    exists i :: 0 <= i < |items| && EndsBook(items[i], k)
  }

  ghost predicate HasEvents(items: seq<Item>, k: Key) {
    exists i :: 0 <= i < |items| && items[i].EventItem? && items[i].event.key == k
  }

  ghost predicate SessionsMirror(setup: Setup, order: VenueOrder, items: seq<Item>) {
    forall run, shard, sid ::
      Get(order.sequences, (run, shard, sid)) == LastOfSession(setup, items, run, shard, sid)
  }

  function SequenceOf(e: Option<Event>): Option<int> {
    if e.Some? then e.value.venueSequence else None
  }

  function SidOf(e: Option<Event>): Option<string> {
    if e.Some? then Some(e.value.sid) else None
  }

  ghost predicate PositionsMirror(order: VenueOrder, items: seq<Item>) {
    forall k ::
      && Get(order.books, k) == SequenceOf(LastInSequence(items, k))
      && Get(order.sids, k) == SidOf(LastInSequence(items, k))
  }

  /** What one item leaves of a book's epoch and pending recovery. */
  ghost predicate EpochMoves(core: Core, item: Item, after: Core, k: Key) {
    && Get(after.open, k) == (if OpensBook(item, k) then Some(item.event.epoch)
                              else if ClosesBook(item, k) then None else Get(core.open, k))
    && Get(after.recovering, k) == (if OpensBook(item, k) then Some(item.event.id)
                                    else if item.ControlItem? && item.control.kind.Recovered? && item.control.key == k
                                    then None else Get(core.recovering, k))
    && after.terminal == core.terminal + (if EndsBook(item, KeyOf(item)) then {KeyOf(item)} else {})
  }

  lemma ControlMoves(core: Core, c: Control, shard: string, k: Key)
    requires ApplyControl(core, c, shard).Ok?
    ensures EpochMoves(core, ControlItem(c), ApplyControl(core, c, shard).value, k)
  {
    hide ResetOrder, Confirm, Close;
    var reset := if c.kind.Invalidated? && c.reason == "reconnect"
      then core.(order := ResetOrder(core.order, c.key, shard)) else core;
    match c.kind {
      case Recovered => ConfirmMoves(reset, c, k);
      case Other =>
      case _ => CloseMoves(reset, c, k);
    }
  }

  lemma ConfirmMoves(core: Core, c: Control, k: Key)
    requires c.kind.Recovered? && Confirm(core, c).Ok?
    ensures EpochMoves(core, ControlItem(c), Confirm(core, c).value, k)
  {
  }

  lemma CloseMoves(core: Core, c: Control, k: Key)
    requires (c.kind.Invalidated? || c.kind.Ended?) && Close(core, c).Ok?
    ensures EpochMoves(core, ControlItem(c), Close(core, c).value, k)
  {
  }

  lemma EventMoves(setup: Setup, core: Core, e: Event, k: Key)
    requires ApplyEvent(setup, core, e).Ok?
    ensures EpochMoves(core, EventItem(e), ApplyEvent(setup, core, e).value.core, k)
  {
    hide CheckpointBook, WriteLevels, Superseded;
  }

  lemma AdvanceMoves(setup: Setup, core: Core, item: Item, k: Key)
    requires Advance(setup, core, item).Ok?
    ensures EpochMoves(core, item, Advance(setup, core, item).value.core, k)
  {
    hide CheckOrder, ApplyEvent, ApplyControl, ShardOf, Progress, ProgressBelow;
    var admitted := Admit(setup, core, item).value;
    var shard := ShardOf(setup, KeyOf(item));
    match item {
      case ControlItem(c) => ControlMoves(admitted, c, shard, k);
      case EventItem(e) =>
        var ready := admitted.(order := CheckOrder(admitted.order, e, shard).value,
            eventBooks := admitted.eventBooks + {e.key});
        EventMoves(setup, ready, e, k);
    }
  }

  lemma EpochsStep(setup: Setup, core: Core, items: seq<Item>, item: Item)
    requires EpochsMirror(core, items) && Advance(setup, core, item).Ok?
    ensures EpochsMirror(Advance(setup, core, item).value.core, items + [item])
  {
    var after, all := Advance(setup, core, item).value.core, items + [item];
    assert all[..|items|] == items;
    forall k ensures Get(after.open, k) == EpochOf(all, k) && Get(after.recovering, k) == AwaitedBy(all, k) {
      AdvanceMoves(setup, core, item, k);
      hide Advance;
      assert Get(core.open, k) == EpochOf(items, k) && Get(core.recovering, k) == AwaitedBy(items, k);
    }
  }

  lemma EndsStep(setup: Setup, core: Core, items: seq<Item>, item: Item)
    requires EndsMirror(core, items) && Advance(setup, core, item).Ok?
    ensures EndsMirror(Advance(setup, core, item).value.core, items + [item])
  {
    var after, all := Advance(setup, core, item).value.core, items + [item];
    AdvanceMoves(setup, core, item, KeyOf(item));
    AdvanceEffect(setup, core, item);
    hide Advance, Effect;
    forall k
      ensures Ended(all, k) <==> Ended(items, k) || EndsBook(item, k)
      ensures HasEvents(all, k) <==> HasEvents(items, k) || (item.EventItem? && item.event.key == k)
    {
      OneMoreSeen(items, item, k);
    }
  }

  lemma OneMoreSeen(items: seq<Item>, item: Item, k: Key)
    ensures Ended(items + [item], k) <==> Ended(items, k) || EndsBook(item, k)
    ensures HasEvents(items + [item], k) <==> HasEvents(items, k) || (item.EventItem? && item.event.key == k)
  {
    var all := items + [item];
    assert all[|items|] == item && forall i :: 0 <= i < |items| ==> all[i] == items[i];
  }

  lemma SessionsStep(setup: Setup, order: VenueOrder, items: seq<Item>, item: Item)
    requires SessionsMirror(setup, order, items)
    requires item.EventItem? ==> CheckOrder(order, item.event, ShardOf(setup, item.event.key)).Ok?
    ensures SessionsMirror(setup, OrderAfter(setup, order, item), items + [item])
  {
    assert (items + [item])[..|items|] == items;
  }

  lemma PositionsStep(setup: Setup, order: VenueOrder, items: seq<Item>, item: Item)
    requires PositionsMirror(order, items)
    requires item.EventItem? ==> CheckOrder(order, item.event, ShardOf(setup, item.event.key)).Ok?
    ensures PositionsMirror(OrderAfter(setup, order, item), items + [item])
  {
    assert (items + [item])[..|items|] == items;
  }

  /** The engine's state is what the items say. */
  ghost predicate Mirrors(setup: Setup, core: Core, items: seq<Item>) {
    && EpochsMirror(core, items) && EndsMirror(core, items) && CoordinatesFit(core, items)
    && SessionsMirror(setup, core.order, items) && PositionsMirror(core.order, items)
    && BooksReplay(core, items) && Lifecycle(core)
  }

  lemma {:induction false} EveryStateMirrors(setup: Setup, items: seq<Item>)
    requires Reach(setup, items).Ok?
    ensures Mirrors(setup, Reach(setup, items).value, items)
  {
    EveryBookReplays(setup, items);
    EveryStateFits(setup, items);
    CoordinatesFollow(setup, items);
    if items == [] {
      StartMirrors(setup);
    } else {
      var front, last := items[..|items| - 1], items[|items| - 1];
      assert items == front + [last];
      EveryStateMirrors(setup, front);
      var core := Reach(setup, front).value;
      AdvanceOrder(setup, core, last);
      hide Advance, Lifecycle, BooksReplay, CoordinatesFit, EpochsMirror, EndsMirror, SessionsMirror, PositionsMirror,
           OrderAfter, CheckOrder;
      EpochsStep(setup, core, front, last);
      EndsStep(setup, core, front, last);
      SessionsStep(setup, core.order, front, last);
      PositionsStep(setup, core.order, front, last);
    }
  }

  lemma StartMirrors(setup: Setup)
    ensures EpochsMirror(START, []) && EndsMirror(START, [])
    ensures SessionsMirror(setup, START.order, []) && PositionsMirror(START.order, [])
  {
  }

  // ---------------------------------------------------------------- the engine accepts exactly the items that fit

  lemma PlacedExactly(setup: Setup, core: Core, items: seq<Item>, item: Item)
    requires EndsMirror(core, items) && CoordinatesFit(core, items)
    ensures Admit(setup, core, item).Ok? <==> Placed(setup, items, item)
  {
    var k := KeyOf(item);
    if k in core.coordinates {
      var i :| 0 <= i < |items| && KeyOf(items[i]) == k && Progress(items[i]) == core.coordinates[k];
      CoordinatesCompare(items[i], item);
    }
    assert k in core.terminal <==> Ended(items, k);
    hide Progress, ProgressBelow, Earlier, EndsBook;
    forall i | 0 <= i < |items| && KeyOf(items[i]) == k
      ensures k in core.coordinates
      ensures ProgressBelow(core.coordinates[k], Progress(item)) ==> Earlier(items[i], item)
    {
      assert AtOrBelowCoordinate(core, items[i]);
      BeforeAtOrBelow(items[i], core.coordinates[k], item);
    }
    EndsItsBook(items, k);
  }

  lemma CoordinatesCompare(a: Item, b: Item)
    ensures ProgressBelow(Progress(a), Progress(b)) <==> Earlier(a, b)
  {
    assert Coordinate(a) == Progress(a) && Coordinate(b) == Progress(b);
  }

  lemma BeforeAtOrBelow(a: Item, at: (nat, nat, nat), b: Item)
    requires Progress(a) == at || ProgressBelow(Progress(a), at)
    ensures ProgressBelow(at, Progress(b)) ==> Earlier(a, b)
  {
    assert Coordinate(a) == Progress(a) && Coordinate(b) == Progress(b);
  }

  lemma EndsItsBook(items: seq<Item>, k: Key)
    ensures Ended(items, k) <==> exists i :: 0 <= i < |items| && KeyOf(items[i]) == k && EndsBook(items[i], k)
  {
  }

  lemma SequenceExactly(setup: Setup, order: VenueOrder, items: seq<Item>, e: Event)
    requires SessionsMirror(setup, order, items) && PositionsMirror(order, items)
    ensures CheckOrder(order, e, ShardOf(setup, e.key)).Ok? <==> SequenceFits(setup, items, e)
  {
    var shard := ShardOf(setup, e.key);
    assert Get(order.sequences, (e.key.run, shard, e.sid)) == LastOfSession(setup, items, e.key.run, shard, e.sid);
    assert Get(order.books, e.key) == SequenceOf(LastInSequence(items, e.key));
    assert Get(order.sids, e.key) == SidOf(LastInSequence(items, e.key));
  }

  lemma ControlExactly(core: Core, items: seq<Item>, c: Control, shard: string)
    requires EpochsMirror(core, items) && Lifecycle(core)
    ensures ApplyControl(core, c, shard).Ok? <==> ControlFits(items, c)
  {
    hide ResetOrder;
    assert Get(core.open, c.key) == EpochOf(items, c.key) && Get(core.recovering, c.key) == AwaitedBy(items, c.key);
  }

  lemma OpeningExactly(setup: Setup, core: Core, e: Event)
    ensures
      (OpenEpoch(core, e).Ok? && Verify(setup, OpenEpoch(core, e).value, e).Ok?) <==>
        && e.epoch != "" && e.key !in core.recovering && Get(core.open, e.key) != Some(e.epoch)
        && SidesCounted(e) && LevelsFit(setup, e, e.levels)
  {
    CheckpointReads(e);
    hide CheckpointBook, SidesCounted, Representable, Standing, Superseded;
  }

  lemma DeltaExactly(setup: Setup, core: Core, items: seq<Item>, e: Event)
    requires BooksReplay(core, items) && Lifecycle(core)
    ensures
      (ApplyDelta(core, e).Ok? && Verify(setup, ApplyDelta(core, e).value, e).Ok?) <==>
        && e.epoch != "" && e.key !in core.recovering && Get(core.open, e.key) == Some(e.epoch)
        && LevelsFit(setup, e, Writes(items, e.key) + e.levels)
  {
    if e.key in core.books {
      var writes := Writes(items, e.key);
      SizesDecide(core.books[e.key], e.levels);
      assert WriteLevels(map[], writes) == Ok(core.books[e.key]);
      if WriteLevels(core.books[e.key], e.levels).Ok? {
        WritesCompose(map[], writes, e.levels);
        WritingStands(writes + e.levels);
      }
    }
    hide WriteLevels, Representable, Standing, ReportsFit, Writes, BooksReplay;
  }

  lemma EventExactly(setup: Setup, core: Core, items: seq<Item>, e: Event)
    requires EpochsMirror(core, items) && BooksReplay(core, items) && Lifecycle(core)
    ensures ApplyEvent(setup, core, e).Ok? <==> EventFits(setup, items, e)
  {
    assert Get(core.open, e.key) == EpochOf(items, e.key) && Get(core.recovering, e.key) == AwaitedBy(items, e.key);
    assert e.key in core.recovering ==> e.key in core.open;
    OpeningExactly(setup, core, e);
    DeltaExactly(setup, core, items, e);
    hide OpenEpoch, ApplyDelta, Verify, LevelsFit, SidesCounted, Writes, EpochOf, AwaitedBy, Lifecycle, BooksReplay,
         EpochsMirror;
  }

  /** After accepted items the next one is accepted if and only if it fits them. */
  lemma FitsExactly(setup: Setup, core: Core, items: seq<Item>, item: Item)
    requires Mirrors(setup, core, items)
    ensures Advance(setup, core, item).Ok? <==> ItemFits(setup, items, item)
  {
    hide EpochsMirror, EndsMirror, CoordinatesFit, SessionsMirror, PositionsMirror, BooksReplay, Lifecycle, Placed,
         SequenceFits, ControlFits, EventFits, CheckOrder, ApplyControl, ApplyEvent, ShardOf, Progress, ProgressBelow;
    PlacedExactly(setup, core, items, item);
    if Admit(setup, core, item).Ok? {
      var admitted := Admit(setup, core, item).value;
      match item {
        case ControlItem(c) =>
          SameEpochs(core, admitted, items);
          ControlExactly(admitted, items, c, ShardOf(setup, c.key));
        case EventItem(e) =>
          SequenceExactly(setup, core.order, items, e);
          var order := CheckOrder(admitted.order, e, ShardOf(setup, e.key));
          if order.Ok? {
            var ready := admitted.(order := order.value, eventBooks := admitted.eventBooks + {e.key});
            SameEpochs(core, ready, items);
            EventExactly(setup, ready, items, e);
          }
      }
    }
  }

  lemma SameEpochs(core: Core, after: Core, items: seq<Item>)
    requires EpochsMirror(core, items) && BooksReplay(core, items) && Lifecycle(core)
    requires after.open == core.open && after.recovering == core.recovering && after.books == core.books
    requires after.terminal == core.terminal && after.reports == core.reports
    ensures EpochsMirror(after, items) && BooksReplay(after, items) && Lifecycle(after)
  {
    OtherFieldsKeep(core, after);
    hide Lifecycle;
  }

  /** Every item fits the ones before it. */
  ghost predicate AllFit(setup: Setup, items: seq<Item>) {
    forall i :: 0 <= i < |items| ==> ItemFits(setup, items[..i], items[i])
  }

  lemma {:induction false} ReachedExactly(setup: Setup, items: seq<Item>)
    ensures Reach(setup, items).Ok? <==> AllFit(setup, items)
  {
    hide Advance, ItemFits, Mirrors;
    if items != [] {
      var n := |items| - 1;
      var front := items[..n];
      ReachedExactly(setup, front);
      assert forall i :: 0 <= i < n ==> front[..i] == items[..i] && front[i] == items[i];
      assert AllFit(setup, items) <==> AllFit(setup, front) && ItemFits(setup, front, items[n]);
      if Reach(setup, front).Ok? {
        EveryStateMirrors(setup, front);
        FitsExactly(setup, Reach(setup, front).value, front, items[n]);
      }
    }
  }

  /** Every book with events has ended. */
  ghost predicate AllEnded(items: seq<Item>) {
    forall i :: 0 <= i < |items| && items[i].EventItem? ==> Ended(items, items[i].event.key)
  }

  lemma {:induction false} EpochHasEvents(items: seq<Item>, k: Key)
    requires EpochOf(items, k).Some?
    ensures HasEvents(items, k)
  {
    var n := |items| - 1;
    if !OpensBook(items[n], k) {
      EpochHasEvents(items[..n], k);
      var i :| 0 <= i < n && items[..n][i].EventItem? && items[..n][i].event.key == k;
      assert items[i] == items[..n][i];
    }
  }

  lemma FinishedExactly(setup: Setup, core: Core, items: seq<Item>)
    requires Mirrors(setup, core, items)
    ensures Final(core).Ok? <==> AllEnded(items)
  {
    hide CoordinatesFit, SessionsMirror, PositionsMirror, BooksReplay, ReportsFit, EpochOf, AwaitedBy, Ended;
    forall k ensures k in core.eventBooks <==> HasEvents(items, k) {
    }
    if AllEnded(items) {
      forall k ensures k in core.eventBooks ==> k in core.terminal {
      }
      assert core.eventBooks - core.terminal == {};
      forall k ensures k !in core.open {
        assert Get(core.open, k) == EpochOf(items, k);
        if k in core.open {
          EpochHasEvents(items, k);
        }
      }
      assert core.open == map[];
      assert core.recovering == map[];
    }
    if Final(core).Ok? {
      forall i | 0 <= i < |items| && items[i].EventItem? ensures Ended(items, items[i].event.key) {
        assert HasEvents(items, items[i].event.key);
        assert items[i].event.key !in core.eventBooks - core.terminal;
      }
    }
  }

  // ---------------------------------------------------------------- what is published

  /** The next item is an event of the same source message. */
  predicate GoesOn(items: seq<Item>, i: nat)
    requires i < |items|
  {
    && i + 1 < |items| && items[i].EventItem? && items[i + 1].EventItem?
    && var (e, next) := (items[i].event, items[i + 1].event);
    && next.key == e.key && next.epoch == e.epoch && next.received == e.received && next.monotonic == e.monotonic
    && next.local == e.local && next.rawHash == e.rawHash
  }

  /** The last applied event of each message, with the levels that stand after it. */
  ghost function Publications(items: seq<Item>, n: nat): seq<Emission>
    requires n <= |items|
  {
    if n == 0 then []
    else
      Publications(items, n - 1)
      + if items[n - 1].EventItem? && items[n - 1].event.reconstructible && !GoesOn(items, n - 1)
        then [Emission(items[n - 1].event, Standing(Writes(items[..n], items[n - 1].event.key)))] else []
  }

  lemma PublishedBook(setup: Setup, items: seq<Item>, i: nat)
    requires i < |items| && Reach(setup, items).Ok?
    ensures Emitted(setup, items, i) ==
      if items[i].EventItem? && items[i].event.reconstructible
      then [Emission(items[i].event, Standing(Writes(items[..i + 1], items[i].event.key)))] else []
  {
    EmittedOfShard(setup, items, i);
    hide Only, Rank, Writes, WriteLevels, Standing;
    if items[i].EventItem? && items[i].event.reconstructible {
      PublishedIsReached(setup, items, i);
      EveryBookReplays(setup, items[..i + 1]);
      hide Reach;
      WritingStands(Writes(items[..i + 1], items[i].event.key));
    }
  }

  lemma {:induction false} ShownIsPublished(setup: Setup, items: seq<Item>, n: nat)
    requires n <= |items| && Reach(setup, items).Ok?
    ensures Shown(setup, items, n) == Publications(items, n)
  {
    hide Reach, Emitted, Standing, Writes, GoesOn, Ends;
    if n > 0 {
      ShownIsPublished(setup, items, n - 1);
      PublishedBook(setup, items, n - 1);
      MessagesEnd(items, n - 1);
    }
  }

  lemma MessagesEnd(items: seq<Item>, i: nat)
    requires i < |items|
    ensures Ends(items, i) <==> !GoesOn(items, i)
  {
  }

  /**
   * A tape is accepted if and only if every item fits the ones before it, every book with events ends, and what is
   * published can be normalised. What is published is the last applied event of each message, with the levels that
   * stand since the book's checkpoint. Nothing here mentions the state of the engine.
   */
  lemma TapeAccepted(setup: Setup, items: seq<Item>)
    ensures
      var published := Publications(items, |items|);
      Streaming(setup, items).Ok? <==>
        AllFit(setup, items) && AllEnded(items) && forall e :: e in published ==> setup.normalizes(e)
    ensures Streaming(setup, items).Ok? ==> Streaming(setup, items).value.out == Publications(items, |items|)
    ensures Lookahead(setup, items).Ok? <==> Streaming(setup, items).Ok?
    ensures Lookahead(setup, items).Ok? ==> Lookahead(setup, items).value.out == Publications(items, |items|)
  {
    hide Reach, AllFit, AllEnded, Publications, Shown, Streaming, Lookahead, Final, Mirrors;
    StreamingShows(setup, items);
    StreamingRefinesLookahead(setup, items);
    ReachedExactly(setup, items);
    if Reach(setup, items).Ok? {
      EveryStateMirrors(setup, items);
      FinishedExactly(setup, Reach(setup, items).value, items);
      ShownIsPublished(setup, items, |items|);
    }
  }

  // ---------------------------------------------------------------- what is reported of each epoch

  /** What the items say of an epoch: who opened, confirmed and closed it, where, and how many events it applied. */
  function ReportOf(items: seq<Item>, id: (Key, string)): Option<Report> {
    if items == [] then None
    else
      var front, last := items[..|items| - 1], items[|items| - 1];
      ReportAfter(ReportOf(front, id), EpochOf(front, id.0) == Some(id.1), last, id)
  }

  /** One item's effect on the report of an epoch that was or was not open before it. */
  function ReportAfter(prior: Option<Report>, wasOpen: bool, item: Item, id: (Key, string)): Option<Report> {
    if KeyOf(item) != id.0 then prior
    else
      match item
      case EventItem(e) =>
        if OpensBook(item, id.0) && e.epoch == id.1 then Some(Report(e.id, None, None, None, e.local, e.local, 1))
        else if prior.None? then None
        else if OpensBook(item, id.0) && wasOpen then Some(prior.value.(supersededBy := Some(e.id)))
        else if e.reconstructible && !e.checkpoint && e.epoch == id.1 then
          Some(prior.value.(lastLocal := e.local, applied := prior.value.applied + 1))
        else prior
      case ControlItem(c) =>
        if prior.None? then None
        else if c.kind.Recovered? && c.epoch == id.1 then Some(prior.value.(openedBy := Some(c.id)))
        else if ClosesBook(item, id.0) && wasOpen then Some(prior.value.(closedBy := Some(c.id), lastLocal := c.local))
        else prior
  }

  ghost predicate ReportMoves(core: Core, item: Item, after: Core, id: (Key, string)) {
    Get(after.reports, id) == ReportAfter(Get(core.reports, id), Get(core.open, id.0) == Some(id.1), item, id)
  }

  lemma ControlReports(core: Core, c: Control, shard: string, id: (Key, string))
    requires ApplyControl(core, c, shard).Ok?
    ensures ReportMoves(core, ControlItem(c), ApplyControl(core, c, shard).value, id)
  {
    hide ResetOrder, Confirm, Close;
    var reset := if c.kind.Invalidated? && c.reason == "reconnect"
      then core.(order := ResetOrder(core.order, c.key, shard)) else core;
    match c.kind {
      case Recovered => ConfirmReports(reset, c, id);
      case Other =>
      case _ => CloseReportMoves(reset, c, id);
    }
  }

  lemma ConfirmReports(core: Core, c: Control, id: (Key, string))
    requires c.kind.Recovered? && Confirm(core, c).Ok?
    ensures ReportMoves(core, ControlItem(c), Confirm(core, c).value, id)
  {
  }

  lemma CloseReportMoves(core: Core, c: Control, id: (Key, string))
    requires (c.kind.Invalidated? || c.kind.Ended?) && Close(core, c).Ok?
    ensures ReportMoves(core, ControlItem(c), Close(core, c).value, id)
  {
  }

  lemma SupersededReport(core: Core, e: Event, id: (Key, string))
    ensures Get(Superseded(core, e), id) ==
      if id.0 == e.key && Get(core.open, e.key) == Some(id.1) && id in core.reports
      then Some(core.reports[id].(supersededBy := Some(e.id))) else Get(core.reports, id)
  {
  }

  lemma EventReports(setup: Setup, core: Core, e: Event, id: (Key, string))
    requires ApplyEvent(setup, core, e).Ok?
    ensures ReportMoves(core, EventItem(e), ApplyEvent(setup, core, e).value.core, id)
  {
    SupersededReport(core, e, id);
    hide CheckpointBook, WriteLevels, Superseded;
  }

  lemma AdvanceReports(setup: Setup, core: Core, item: Item, id: (Key, string))
    requires Advance(setup, core, item).Ok?
    ensures ReportMoves(core, item, Advance(setup, core, item).value.core, id)
  {
    hide CheckOrder, ApplyEvent, ApplyControl, ShardOf, Progress, ProgressBelow;
    var admitted := Admit(setup, core, item).value;
    var shard := ShardOf(setup, KeyOf(item));
    match item {
      case ControlItem(c) => ControlReports(admitted, c, shard, id);
      case EventItem(e) =>
        var ready := admitted.(order := CheckOrder(admitted.order, e, shard).value,
            eventBooks := admitted.eventBooks + {e.key});
        EventReports(setup, ready, e, id);
    }
  }

  /** The engine's report of every epoch is what the items say of it. */
  lemma {:induction false} ReportsSaid(setup: Setup, items: seq<Item>, id: (Key, string))
    requires Reach(setup, items).Ok?
    ensures Get(Reach(setup, items).value.reports, id) == ReportOf(items, id)
  {
    if items != [] {
      var front, last := items[..|items| - 1], items[|items| - 1];
      ReportsSaid(setup, front, id);
      EveryStateMirrors(setup, front);
      var core := Reach(setup, front).value;
      assert Get(core.open, id.0) == EpochOf(front, id.0);
      AdvanceReports(setup, core, last, id);
      hide Advance, Mirrors, EpochOf;
    }
  }
}
