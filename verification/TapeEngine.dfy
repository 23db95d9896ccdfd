/** The streaming engine and the older loop as the program runs them, and the rebatching of their rows. */
module TapeEngine {
  import opened Outcomes
  import opened BookTape
  import opened TapeRefinement
  import opened TapeOrder

  /** One normalised output row. */
  datatype Row = Row(event: string, instrument: string, values: seq<real>)

  /** The venue's normalisation of one published book into top-of-book and depth rows. */
  datatype Normalize = Normalize(tops: Emission -> seq<Row>, depths: Emission -> seq<Row>)

  function Rows(f: Emission -> seq<Row>, out: seq<Emission>): seq<Row> {
    if out == [] then [] else Rows(f, out[..|out| - 1]) + f(out[|out| - 1])
  }

  lemma RowsGrow(f: Emission -> seq<Row>, out: seq<Emission>, more: Emission)
    ensures Rows(f, out + [more]) == Rows(f, out) + f(more)
  {
    assert (out + [more])[..|out|] == out;
  }

  /** The older reader's loop: one pass over the sorted tape, looking one item ahead. */
  method ReadTape(setup: Setup, items: seq<Item>) returns (out: Result<seq<Emission>, Rejection>)
    ensures out.Ok? <==> Lookahead(setup, items).Ok?
    ensures out.Ok? ==> out.value == Lookahead(setup, items).value.out
  {
    hide Advance, Final;
    var core, published := START, [];
    for i := 0 to |items|
      invariant Look(setup, items, i) == Ok(Looked(core, published))
    {
      var moved := Advance(setup, core, items[i]);
      if moved.Err? {
        LookFails(setup, items, i + 1);
        return Err(moved.error);
      }
      core := moved.value.core;
      if moved.value.applied && items[i].EventItem? && items[i].event.key in core.books {
        if i + 1 < |items| && SameMessage(items[i].event, items[i + 1]) {
          continue;
        }
        if !setup.normalizes(Emission(items[i].event, core.books[items[i].event.key])) {
          LookFails(setup, items, i + 1);
          return Err(NotNormalizable);
        }
        published := published + [Emission(items[i].event, core.books[items[i].event.key])];
      }
    }
    var verdict := Final(core);
    if verdict.Err? {
      return Err(verdict.error);
    }
    out := Ok(published);
  }

  lemma {:induction false} LookFails(setup: Setup, items: seq<Item>, n: nat)
    requires n <= |items| && Look(setup, items, n).Err?
    ensures Look(setup, items, |items|).Err?
    decreases |items| - n
  {
    hide LookStep;
    if n < |items| {
      assert Look(setup, items, n + 1).Err?;
      LookFails(setup, items, n + 1);
    }
  }

  lemma FeedPrefixFails(setup: Setup, stream: Stream, items: seq<Item>, n: nat)
    requires n <= |items| && Feed(setup, stream, items[..n]).Err?
    ensures Feed(setup, stream, items).Err?
  {
    FeedSplits(setup, stream, items[..n], items[n..]);
    assert items == items[..n] + items[n..];
  }

  class ReconstructionEngine {
    const setup: Setup
    const normalize: Normalize
    var openEpochs: map<Key, string>
    var pendingRecovery: map<Key, string>
    var terminalBooks: set<Key>
    var eventBooks: set<Key>
    var nativeBooks: map<Key, Book>
    var lastVenueSequence: map<(string, string, string), int>
    var lastBookVenueSequence: map<Key, int>
    var lastVenueSid: map<Key, string>
    var lastBookCoordinate: map<Key, (nat, nat, nat)>
    var epochReports: map<(Key, string), Report>
    var ignored: seq<string>
    var appliedEventCount: nat
    var pending: Option<Emission>
    var emittedMessageCount: nat
    ghost var published: seq<Emission>

    constructor (setup: Setup, normalize: Normalize)
      ensures this.setup == setup && this.normalize == normalize && View() == IDLE && Counted()
    {
      this.setup, this.normalize := setup, normalize;
      openEpochs, pendingRecovery, terminalBooks, eventBooks, nativeBooks := map[], map[], {}, {}, map[];
      lastVenueSequence, lastBookVenueSequence, lastVenueSid := map[], map[], map[];
      lastBookCoordinate, epochReports, ignored, appliedEventCount := map[], map[], [], 0;
      pending, emittedMessageCount, published := None, 0, [];
    }

    function State(): Core
      reads this
    {
      Core(openEpochs, pendingRecovery, terminalBooks, eventBooks, nativeBooks,
           VenueOrder(lastVenueSequence, lastBookVenueSequence, lastVenueSid),
           lastBookCoordinate, epochReports, ignored, appliedEventCount)
    }

    ghost function View(): Stream
      reads this
    {
      Stream(State(), pending, published)
    }

    ghost predicate Counted()
      reads this
    {
      emittedMessageCount == |published|
    }

    /** After a reconnect the shard's sequences and the book's own position no longer bind. */
    method ResetVenueOrder(key: Key, shard: string)
      modifies this`lastVenueSequence, this`lastBookVenueSequence, this`lastVenueSid
      ensures State() == old(State()).(order := ResetOrder(old(State()).order, key, shard))
    {
      if key.venue != "kalshi" {
        return;
      }
      lastBookVenueSequence := lastBookVenueSequence - {key};
      lastVenueSid := lastVenueSid - {key};
      lastVenueSequence := map k | k in lastVenueSequence && (k.0, k.1) != (key.run, shard) :: lastVenueSequence[k];
    }

    method ValidateVenueOrder(e: Event, shard: string) returns (out: Result<(), Rejection>)
      modifies this`lastVenueSequence, this`lastBookVenueSequence, this`lastVenueSid
      ensures out.Ok? <==> CheckOrder(old(State()).order, e, shard).Ok?
      ensures out.Ok? ==> State() == old(State()).(order := CheckOrder(old(State()).order, e, shard).value)
    {
      if e.key.venue != "kalshi" {
        return Ok(());
      }
      if e.venueSequence.None? || e.sid == "" {
        return Err(MissingSequence);
      }
      if shard == "" {
        return Err(NoShardOwner);
      }
      var sequence, owner := e.venueSequence.value, (e.key.run, shard, e.sid);
      if e.checkpoint && e.reason == "periodic" {
        if e.key !in lastVenueSid || lastVenueSid[e.key] != e.sid
           || e.key !in lastBookVenueSequence || lastBookVenueSequence[e.key] != sequence
        {
          return Err(PeriodicMismatch);
        }
        return Ok(());
      }
      if owner in lastVenueSequence && sequence <= lastVenueSequence[owner] {
        return Err(NonIncreasing);
      }
      if e.key in lastVenueSid && lastVenueSid[e.key] != e.sid && !e.checkpoint {
        return Err(SidChanged);
      }
      lastVenueSequence := lastVenueSequence[owner := sequence];
      lastBookVenueSequence := lastBookVenueSequence[e.key := sequence];
      lastVenueSid := lastVenueSid[e.key := e.sid];
      out := Ok(());
    }

    /** A recovery control confirms exactly the pending checkpoint of its own epoch. */
    method Confirm(c: Control) returns (out: Result<(), Rejection>)
      modifies this`pendingRecovery, this`epochReports
      ensures out.Ok? <==> BookTape.Confirm(old(State()), c).Ok?
      ensures out.Ok? ==> State() == BookTape.Confirm(old(State()), c).value
    {
      if c.key !in pendingRecovery {
        return Err(NothingPending);
      }
      if c.evidence != pendingRecovery[c.key] {
        return Err(WrongCheckpoint);
      }
      if c.epoch == "" || c.key !in openEpochs || openEpochs[c.key] != c.epoch || (c.key, c.epoch) !in epochReports {
        return Err(WrongEpoch);
      }
      pendingRecovery := pendingRecovery - {c.key};
      epochReports := epochReports[(c.key, c.epoch) := epochReports[(c.key, c.epoch)].(openedBy := Some(c.id))];
      out := Ok(());
    }

    /** An invalidation or the end of the stream closes the book's epoch, if one is open. */
    method Close(c: Control) returns (out: Result<(), Rejection>)
      requires Closes(c)
      modifies this`openEpochs, this`nativeBooks, this`terminalBooks, this`epochReports
      ensures out.Ok? <==> BookTape.Close(old(State()), c).Ok?
      ensures out.Ok? ==> State() == BookTape.Close(old(State()), c).value
    {
      if c.key in pendingRecovery {
        return Err(ClosesUnconfirmed);
      }
      if c.key in openEpochs {
        var closed := openEpochs[c.key];
        if c.epoch != "" && c.epoch != closed {
          return Err(WrongEpoch);
        }
        if (c.key, closed) in epochReports {
          var report := epochReports[(c.key, closed)];
          epochReports := epochReports[(c.key, closed) := report.(closedBy := Some(c.id), lastLocal := c.local)];
        }
      }
      openEpochs := openEpochs - {c.key};
      nativeBooks := nativeBooks - {c.key};
      if c.kind.Ended? {
        terminalBooks := terminalBooks + {c.key};
      }
      out := Ok(());
    }

    method ApplyControl(c: Control, shard: string) returns (out: Result<(), Rejection>)
      modifies this`openEpochs, this`pendingRecovery, this`nativeBooks, this`terminalBooks, this`epochReports
      modifies this`lastVenueSequence, this`lastBookVenueSequence, this`lastVenueSid
      ensures out.Ok? <==> BookTape.ApplyControl(old(State()), c, shard).Ok?
      ensures out.Ok? ==> State() == BookTape.ApplyControl(old(State()), c, shard).value
    {
      hide ResetOrder, BookTape.Confirm, BookTape.Close;
      if c.kind.Invalidated? && c.reason == "reconnect" {
        ResetVenueOrder(c.key, shard);
      }
      if c.kind.Recovered? {
        out := Confirm(c);
      } else if Closes(c) {
        out := Close(c);
      } else {
        out := Ok(());
      }
    }

    /** Writes absolute levels one by one into a book. */
    method WriteAll(book: Book, levels: seq<Level>) returns (out: Result<Book, Rejection>)
      ensures out.Ok? <==> WriteLevels(book, levels).Ok?
      ensures out.Ok? ==> out.value == WriteLevels(book, levels).value
    {
      var current := book;
      for i := 0 to |levels|
        invariant WriteLevels(book, levels[..i]) == Ok(current)
      {
        var level := levels[i];
        assert levels[..i + 1][..i] == levels[..i];
        if level.size.NotFinite? || level.size.contracts < 0.0 {
          WritePrefixFails(book, levels, i + 1);
          return Err(BadSize);
        }
        if level.size.contracts == 0.0 {
          current := current - {(level.side, level.price)};
        } else {
          current := current[(level.side, level.price) := level.size.contracts];
        }
      }
      assert levels[..|levels|] == levels;
      out := Ok(current);
    }

    /** The book a checkpoint states, from nothing. */
    method ReadCheckpoint(e: Event) returns (out: Result<Book, Rejection>)
      ensures out.Ok? <==> CheckpointBook(e).Ok?
      ensures out.Ok? ==> out.value == CheckpointBook(e).value
    {
      hide WriteLevels, CountSide;
      if exists side :: side in e.sideCounts && e.sideCounts[side] != CountSide(e.levels, side) {
        return Err(SideCounts);
      }
      out := WriteAll(map[], e.levels);
    }

    method OpenEpoch(e: Event) returns (out: Result<(), Rejection>)
      modifies this`openEpochs, this`pendingRecovery, this`nativeBooks, this`epochReports
      ensures out.Ok? <==> BookTape.OpenEpoch(old(State()), e).Ok?
      ensures out.Ok? ==> State() == BookTape.OpenEpoch(old(State()), e).value
    {
      hide CheckpointBook;
      if e.epoch == "" {
        return Err(CheckpointWithoutEpoch);
      }
      if e.key in pendingRecovery {
        return Err(PrecedesRecovery);
      }
      if e.key in openEpochs && openEpochs[e.key] == e.epoch {
        return Err(ReusesEpoch);
      }
      var book := ReadCheckpoint(e);
      if book.Err? {
        return Err(book.error);
      }
      if e.key in openEpochs && (e.key, openEpochs[e.key]) in epochReports {
        var prior := (e.key, openEpochs[e.key]);
        epochReports := epochReports[prior := epochReports[prior].(supersededBy := Some(e.id))];
      }
      nativeBooks := nativeBooks[e.key := book.value];
      openEpochs := openEpochs[e.key := e.epoch];
      pendingRecovery := pendingRecovery[e.key := e.id];
      epochReports := epochReports[(e.key, e.epoch) := Report(e.id, None, None, None, e.local, e.local, 0)];
      out := Ok(());
    }

    method ApplyDelta(e: Event) returns (out: Result<(), Rejection>)
      modifies this`nativeBooks
      ensures out.Ok? <==> BookTape.ApplyDelta(old(State()), e).Ok?
      ensures out.Ok? ==> State() == BookTape.ApplyDelta(old(State()), e).value
    {
      hide WriteLevels;
      if e.key in pendingRecovery {
        return Err(PrecedesRecovery);
      }
      if e.epoch == "" || e.key !in openEpochs || openEpochs[e.key] != e.epoch || e.key !in nativeBooks {
        return Err(NoMatchingEpoch);
      }
      var book := WriteAll(nativeBooks[e.key], e.levels);
      if book.Err? {
        return Err(book.error);
      }
      nativeBooks := nativeBooks[e.key := book.value];
      out := Ok(());
    }

    /** True when the event changed its book, false when it was ignored. */
    method ApplyEvent(e: Event) returns (out: Result<bool, Rejection>)
      modifies this`openEpochs, this`pendingRecovery, this`nativeBooks, this`epochReports, this`ignored,
               this`appliedEventCount
      ensures out.Ok? <==> BookTape.ApplyEvent(setup, old(State()), e).Ok?
      ensures out.Ok? ==> BookTape.ApplyEvent(setup, old(State()), e).value == Moved(State(), out.value)
    {
      hide BookTape.OpenEpoch, BookTape.ApplyDelta;
      if !e.reconstructible {
        if e.key in openEpochs || (if e.checkpoint then e.key in pendingRecovery else e.epoch != "") {
          return Err(OverlapsOpenEpoch);
        }
        ignored := ignored + [e.id];
        return Ok(false);
      }
      var changed;
      if e.checkpoint {
        changed := OpenEpoch(e);
      } else {
        changed := ApplyDelta(e);
      }
      if changed.Err? {
        return Err(changed.error);
      }
      if e.key !in nativeBooks || (e.key, e.epoch) !in epochReports {
        return Err(NoMatchingEpoch);
      }
      if setup.hash(e.key, nativeBooks[e.key]) != e.postHash {
        return Err(HashMismatch);
      }
      var report := epochReports[(e.key, e.epoch)];
      epochReports := epochReports[(e.key, e.epoch) := report.(lastLocal := e.local, applied := report.applied + 1)];
      appliedEventCount := appliedEventCount + 1;
      out := Ok(true);
    }

    /** One causal item, after any pending message of another owner has been flushed. */
    method Process(item: Item) returns (out: Result<bool, Rejection>)
      modifies this
      ensures unchanged(this`pending, this`published, this`emittedMessageCount)
      ensures out.Ok? <==> Advance(setup, old(State()), item).Ok?
      ensures out.Ok? ==> Advance(setup, old(State()), item).value == Moved(State(), out.value)
    {
      hide BookTape.ApplyControl, BookTape.ApplyEvent, CheckOrder;
      var key := KeyOf(item);
      if key.run == "" || key.venue == "" || key.book == "" {
        return Err(MissingOwnership);
      }
      if (key.venue, key.book) !in setup.shards {
        return Err(NoShard);
      }
      var shard := setup.shards[(key.venue, key.book)];
      if key in lastBookCoordinate && !ProgressBelow(lastBookCoordinate[key], Progress(item)) {
        return Err(NonContinuous);
      }
      if key in terminalBooks {
        return Err(AfterTerminal);
      }
      lastBookCoordinate := lastBookCoordinate[key := Progress(item)];
      match item {
        case ControlItem(c) =>
          var done := ApplyControl(c, shard);
          if done.Err? {
            return Err(done.error);
          }
          return Ok(false);
        case EventItem(e) =>
          eventBooks := eventBooks + {key};
          var ordered := ValidateVenueOrder(e, shard);
          if ordered.Err? {
            return Err(ordered.error);
          }
          out := ApplyEvent(e);
      }
    }

    /** Normalises and forgets the held-back message. */
    method EmitPending() returns (out: Result<(seq<Row>, seq<Row>), Rejection>)
      requires Counted()
      modifies this`pending, this`published, this`emittedMessageCount
      ensures Counted()
      ensures out.Ok? <==> BookTape.EmitPending(setup, old(View())).Ok?
      ensures out.Ok? ==> BookTape.EmitPending(setup, old(View())) == Ok(View())
      ensures out.Ok? ==> Rows(normalize.tops, published) == Rows(normalize.tops, old(published)) + out.value.0
      ensures out.Ok? ==> Rows(normalize.depths, published) == Rows(normalize.depths, old(published)) + out.value.1
    {
      if pending.None? {
        return Ok(([], []));
      }
      var emission := pending.value;
      if !setup.normalizes(emission) {
        return Err(NotNormalizable);
      }
      RowsGrow(normalize.tops, published, emission);
      RowsGrow(normalize.depths, published, emission);
      pending := None;
      emittedMessageCount := emittedMessageCount + 1;
      published := published + [emission];
      out := Ok((normalize.tops(emission), normalize.depths(emission)));
    }

    /** Processes an item that flushes nothing; an applied event becomes the message held back. */
    method Take(items: seq<Item>, i: nat, ghost start: Stream) returns (out: Result<(), Rejection>)
      requires i < |items| && Counted() && At(setup, start, items, i, View()) && !Flushes(View(), items[i])
      modifies this
      ensures unchanged(this`published, this`emittedMessageCount)
      ensures out.Ok? ==> Counted() && At(setup, start, items, i + 1, View())
      ensures out.Err? ==> Feed(setup, start, items).Err?
    {
      hide Advance, SameMessage, Publish, Rows;
      ghost var flushed := View();
      var applied := Process(items[i]);
      StepFrom(setup, start, items, i, flushed);
      if applied.Err? {
        FeedPrefixFails(setup, start, items, i + 1);
        return Err(applied.error);
      }
      if applied.value && items[i].EventItem? && items[i].event.key in nativeBooks {
        pending := Some(Emission(items[i].event, nativeBooks[items[i].event.key]));
      }
      out := Ok(());
    }

    /**
     * Resumes a group's generator at item `from` and runs until a table has collected `limit` rows or
     * the group ends; it pauses right after a flush, before the item that caused it.
     */
    method NextChunk(items: seq<Item>, from: nat, limit: nat, ghost start: Stream)
        returns (out: Result<(nat, seq<Row>, seq<Row>), Rejection>)
      requires from <= |items| && limit > 0 && Counted() && At(setup, start, items, from, View())
      modifies this
      ensures out.Ok? ==> Counted() && from <= out.value.0 <= |items| && At(setup, start, items, out.value.0, View())
      ensures out.Ok? ==> Rows(normalize.tops, published) == Rows(normalize.tops, old(published)) + out.value.1
      ensures out.Ok? ==> Rows(normalize.depths, published) == Rows(normalize.depths, old(published)) + out.value.2
      ensures out.Ok? && out.value.0 < |items| ==> |out.value.1| >= limit || |out.value.2| >= limit
      ensures out.Ok? && from < |items| ==> out.value.0 > from || (old(pending).Some? && pending.None?)
      ensures out.Err? ==> Feed(setup, start, items).Err?
    {
      hide Advance, SameMessage, Publish, Rows, Feed;
      var i, tops, depths := from, [], [];
      while i < |items|
        invariant from <= i <= |items| && Counted() && At(setup, start, items, i, View())
        invariant i == from ==> pending == old(pending)
        invariant Rows(normalize.tops, published) == Rows(normalize.tops, old(published)) + tops
        invariant Rows(normalize.depths, published) == Rows(normalize.depths, old(published)) + depths
      {
        ghost var before := View();
        if pending.Some? && !SameMessage(pending.value.event, items[i]) {
          var rows := EmitPending();
          if rows.Err? {
            FlushFails(setup, start, items, i, before);
            return Err(rows.error);
          }
          tops := tops + rows.value.0;
          depths := depths + rows.value.1;
          FlushStays(setup, start, items, i, before, View());
          if |tops| >= limit || |depths| >= limit {
            return Ok((i, tops, depths));
          }
        }
        var taken := Take(items, i, start);
        if taken.Err? {
          return Err(taken.error);
        }
        i := i + 1;
      }
      out := Ok((i, tops, depths));
    }

    method Finish() returns (out: Result<(seq<Row>, seq<Row>), Rejection>)
      requires Counted()
      modifies this`pending, this`published, this`emittedMessageCount
      ensures out.Ok? ==> Counted()
      ensures out.Ok? <==> BookTape.Finish(setup, old(View())).Ok?
      ensures out.Ok? ==> BookTape.Finish(setup, old(View())) == Ok(View())
      ensures out.Ok? ==> Rows(normalize.tops, published) == Rows(normalize.tops, old(published)) + out.value.0
      ensures out.Ok? ==> Rows(normalize.depths, published) == Rows(normalize.depths, old(published)) + out.value.1
    {
      out := EmitPending();
      if out.Err? {
        return;
      }
      if pendingRecovery != map[] {
        return Err(EndsUnconfirmed);
      }
      if openEpochs != map[] {
        return Err(EndsOpen);
      }
      if eventBooks - terminalBooks != {} {
        return Err(NotTerminal);
      }
    }
  }

  lemma {:induction false} WritePrefixFails(book: Book, levels: seq<Level>, n: nat)
    requires n <= |levels| && WriteLevels(book, levels[..n]).Err?
    ensures WriteLevels(book, levels).Err?
    decreases |levels|
  {
    if n == |levels| {
      assert levels[..n] == levels;
    } else {
      assert levels[..|levels| - 1][..n] == levels[..n];
      WritePrefixFails(book, levels[..|levels| - 1], n);
    }
  }

  /** The engine has processed the first `n` items of the group, and may already have flushed for the next one. */
  ghost predicate At(setup: Setup, start: Stream, items: seq<Item>, n: nat, view: Stream)
    requires n <= |items|
  {
    var fed := Feed(setup, start, items[..n]);
    && fed.Ok?
    && (fed.value == view || (n < |items| && Flushes(fed.value, items[n]) && EmitPending(setup, fed.value) == Ok(view)))
  }

  predicate Flushes(stream: Stream, item: Item) {
    stream.pending.Some? && !SameMessage(stream.pending.value.event, item)
  }

  lemma FlushStays(setup: Setup, start: Stream, items: seq<Item>, n: nat, before: Stream, after: Stream)
    requires n < |items| && At(setup, start, items, n, before) && Flushes(before, items[n])
    requires EmitPending(setup, before) == Ok(after)
    ensures At(setup, start, items, n, after)
  {
    hide SameMessage;
  }

  lemma FlushFails(setup: Setup, start: Stream, items: seq<Item>, n: nat, before: Stream)
    requires n < |items| && At(setup, start, items, n, before) && Flushes(before, items[n])
    requires EmitPending(setup, before).Err?
    ensures Feed(setup, start, items).Err?
  {
    hide SameMessage, Advance;
    assert items[..n + 1][..n] == items[..n];
    FeedPrefixFails(setup, start, items, n + 1);
  }

  /** Once no flush is due, processing the item is the engine's step on the group. */
  lemma StepFrom(setup: Setup, start: Stream, items: seq<Item>, n: nat, view: Stream)
    requires n < |items| && At(setup, start, items, n, view) && !Flushes(view, items[n])
    ensures Feed(setup, start, items[..n + 1]) ==
      match Advance(setup, view.core, items[n])
      case Err(e) => Err(e)
      case Ok(moved) =>
        if moved.applied && items[n].EventItem? && items[n].event.key in moved.core.books
        then Ok(Stream(moved.core, Some(Emission(items[n].event, moved.core.books[items[n].event.key])), view.out))
        else Ok(Stream(moved.core, view.pending, view.out))
  {
    hide SameMessage, Advance;
    assert items[..n + 1][..n] == items[..n];
  }

  // ---------------------------------------------------------------- where the stream stands in the journal

  /** Groups started, the group being read and the next item in it, and whether the final flush is done. */
  datatype Place = Place(started: nat, current: Option<seq<Item>>, position: nat, finished: bool)

  /** The engine's view is the spec's after everything before the place. */
  ghost predicate PlacedAt(setup: Setup, groups: seq<Group>, place: Place, start: Stream, view: Stream) {
    var orders := GroupOrders(setup, groups);
    && place.started <= |groups|
    && match place.current
       case Some(items) =>
         && !place.finished && place.started > 0 && items == orders[place.started - 1] && place.position <= |items|
         && FeedGroups(setup, IDLE, orders[..place.started - 1]) == Ok(start)
         && At(setup, start, items, place.position, view)
       case None =>
         if place.finished then StreamJournal(setup, groups) == Ok(view)
         else FeedGroups(setup, IDLE, orders[..place.started]) == Ok(view)
  }

  lemma PlaceStarts(setup: Setup, groups: seq<Group>)
    ensures PlacedAt(setup, groups, Place(0, None, 0, false), IDLE, IDLE)
  {
    assert GroupOrders(setup, groups)[..0] == [];
  }

  lemma PlaceNextGroup(setup: Setup, groups: seq<Group>, place: Place, start: Stream, view: Stream)
    requires PlacedAt(setup, groups, place, start, view) && !place.finished && place.current.None?
    requires place.started < |groups|
    ensures var items := CausalItems(setup, groups[place.started].events, groups[place.started].controls);
      PlacedAt(setup, groups, Place(place.started + 1, Some(items), 0, false), view, view)
  {
    hide CausalItems;
    var items := GroupOrders(setup, groups)[place.started];
    assert items[..0] == [];
  }

  lemma PlaceGroupDone(setup: Setup, groups: seq<Group>, place: Place, start: Stream, view: Stream)
    requires PlacedAt(setup, groups, place, start, view) && place.current.Some?
    requires place.position == |place.current.value|
    ensures PlacedAt(setup, groups, Place(place.started, None, place.position, false), start, view)
  {
    hide CausalItems, Feed;
    var orders, n := GroupOrders(setup, groups), place.started;
    assert orders[..n][..n - 1] == orders[..n - 1];
    assert orders[n - 1][..|orders[n - 1]|] == orders[n - 1];
  }

  lemma PlaceInGroup(setup: Setup, groups: seq<Group>, place: Place, start: Stream, view: Stream)
    requires PlacedAt(setup, groups, place, start, view) && place.current.Some?
    ensures !place.finished && place.started <= |groups| && place.position <= |place.current.value|
    ensures At(setup, start, place.current.value, place.position, view)
    ensures Feed(setup, start, place.current.value).Err? ==> StreamJournal(setup, groups).Err?
  {
    hide CausalItems, Feed, At;
    if Feed(setup, start, place.current.value).Err? {
      var orders, n := GroupOrders(setup, groups), place.started;
      assert orders[..n][..n - 1] == orders[..n - 1];
      GroupsPrefixFail(setup, orders, n);
    }
  }

  lemma PlaceMoves(setup: Setup, groups: seq<Group>, place: Place, start: Stream, before: Stream, position: nat,
                   view: Stream)
    requires PlacedAt(setup, groups, place, start, before) && place.current.Some? && position <= |place.current.value|
    requires At(setup, start, place.current.value, position, view)
    ensures PlacedAt(setup, groups, place.(position := position), start, view)
  {
    hide GroupOrders, Feed, At;
  }

  lemma PlaceEnds(setup: Setup, groups: seq<Group>, place: Place, start: Stream, view: Stream)
    requires PlacedAt(setup, groups, place, start, view) && !place.finished && place.current.None?
    requires place.started >= |groups|
    ensures Finish(setup, view) == StreamJournal(setup, groups)
    ensures Finish(setup, view).Ok? ==>
      PlacedAt(setup, groups, place.(finished := true), start, Finish(setup, view).value)
  {
    hide CausalItems, Feed, FeedGroups, Finish;
    assert GroupOrders(setup, groups)[..|groups|] == GroupOrders(setup, groups);
  }

  /** The arrow-batch stream: at most `batchRows` rows of each table per batch. */
  class ReconstructionStream {
    const engine: ReconstructionEngine
    const groups: seq<Group>
    const batchRows: nat
    var recordIndex: nat
    var current: Option<seq<Item>>
    var position: nat
    var topRows: seq<Row>
    var depthRows: seq<Row>
    var finished: bool
    ghost var start: Stream
    ghost var deliveredTops: seq<Row>
    ghost var deliveredDepths: seq<Row>

    constructor (setup: Setup, normalize: Normalize, groups: seq<Group>, batchRows: nat)
      requires batchRows > 0
      ensures Valid() && fresh(engine) && engine.setup == setup && engine.normalize == normalize
      ensures this.groups == groups && this.batchRows == batchRows && deliveredTops == [] && deliveredDepths == []
    {
      engine := new ReconstructionEngine(setup, normalize);
      this.groups, this.batchRows := groups, batchRows;
      recordIndex, current, position, topRows, depthRows, finished := 0, None, 0, [], [], false;
      start, deliveredTops, deliveredDepths := IDLE, [], [];
      new;
      PlaceStarts(setup, groups);
    }

    function Here(): Place
      reads this
    {
      Place(recordIndex, current, position, finished)
    }

    /** Nothing is lost or reordered between the engine, the buffers and what was delivered. */
    ghost predicate Conserved()
      reads this, engine
    {
      && Rows(engine.normalize.tops, engine.published) == deliveredTops + topRows
      && Rows(engine.normalize.depths, engine.published) == deliveredDepths + depthRows
    }

    ghost predicate Valid()
      reads this, engine
    {
      && batchRows > 0 && engine.Counted() && Conserved()
      && PlacedAt(engine.setup, groups, Here(), start, engine.View())
    }

    /** Draws from the current group, the next group or the final flush until some row is buffered. */
    method Fill() returns (out: Result<(), Rejection>)
      requires Valid()
      modifies this, engine
      ensures out.Ok? ==> Valid() && deliveredTops == old(deliveredTops) && deliveredDepths == old(deliveredDepths)
      ensures out.Ok? && topRows == [] && depthRows == [] ==> finished
      ensures out.Ok? ==> LessWork(Left(), old(Left())) || Left() == old(Left())
      ensures out.Ok? && Left() == old(Left()) ==> topRows == old(topRows) && depthRows == old(depthRows)
      ensures out.Err? ==> StreamJournal(engine.setup, groups).Err?
    {
      hide PlacedAt, Rows, StreamJournal;
      while topRows == [] && depthRows == [] && !finished
        invariant Valid() && deliveredTops == old(deliveredTops) && deliveredDepths == old(deliveredDepths)
        invariant LessWork(Left(), old(Left())) || Left() == old(Left())
        invariant Left() == old(Left()) ==> topRows == old(topRows) && depthRows == old(depthRows)
        decreases Left().0, Left().1, Left().2
      {
        out := Draw();
        if out.Err? || finished || topRows != [] || depthRows != [] {
          return;
        }
      }
      out := Ok(());
    }

    /**
     * What is left to draw from: groups not started, items and the held-back message of the current group, and the
     * final flush.
     */
    function Left(): (nat, nat, nat)
      reads this, engine
    {
      (if recordIndex <= |groups| then |groups| - recordIndex else 0,
       if current.Some? && position <= |current.value|
       then 1 + 2 * (|current.value| - position) + (if engine.pending.Some? then 1 else 0) else 0,
       if finished then 0 else 1)
    }

    method Draw() returns (out: Result<(), Rejection>)
      requires Valid() && topRows == [] && depthRows == [] && !finished
      modifies this, engine
      ensures out.Ok? ==> Valid() && deliveredTops == old(deliveredTops) && deliveredDepths == old(deliveredDepths)
      ensures out.Ok? ==> LessWork(Left(), old(Left()))
      ensures out.Err? ==> StreamJournal(engine.setup, groups).Err?
    {
      hide PlacedAt, Rows, StreamJournal, CausalItems;
      if current.Some? {
        out := DrawChunk();
      } else if recordIndex < |groups| {
        PlaceNextGroup(engine.setup, groups, Here(), start, engine.View());
        start := engine.View();
        current := Some(CausalItems(engine.setup, groups[recordIndex].events, groups[recordIndex].controls));
        position, recordIndex := 0, recordIndex + 1;
        out := Ok(());
      } else {
        out := DrawFinal();
      }
    }

    method DrawFinal() returns (out: Result<(), Rejection>)
      requires Valid() && topRows == [] && depthRows == [] && !finished && current.None? && recordIndex >= |groups|
      modifies this`topRows, this`depthRows, this`finished, engine
      ensures out.Ok? ==> Valid() && finished && LessWork(Left(), old(Left()))
      ensures out.Err? ==> StreamJournal(engine.setup, groups).Err?
    {
      hide PlacedAt, Rows, StreamJournal, BookTape.Finish;
      PlaceEnds(engine.setup, groups, Here(), start, engine.View());
      var rows := engine.Finish();
      if rows.Err? {
        return Err(rows.error);
      }
      topRows, depthRows, finished := rows.value.0, rows.value.1, true;
      out := Ok(());
    }

    /** Resumes the current group's generator for one chunk of rows, or leaves the exhausted group. */
    method DrawChunk() returns (out: Result<(), Rejection>)
      requires Valid() && topRows == [] && depthRows == [] && !finished && current.Some?
      modifies this`position, this`topRows, this`depthRows, this`current, engine
      ensures out.Ok? ==> Valid() && !finished
      ensures out.Ok? ==> LessWork(Left(), old(Left()))
      ensures out.Err? ==> StreamJournal(engine.setup, groups).Err?
    {
      hide PlacedAt, Rows, StreamJournal, Feed, At;
      PlaceInGroup(engine.setup, groups, Here(), start, engine.View());
      var items := current.value;
      if position == |items| {
        PlaceGroupDone(engine.setup, groups, Here(), start, engine.View());
        current := None;
        return Ok(());
      }
      ghost var before := engine.View();
      var chunk := engine.NextChunk(items, position, batchRows, start);
      if chunk.Err? {
        return Err(chunk.error);
      }
      PlaceMoves(engine.setup, groups, Here(), start, before, chunk.value.0, engine.View());
      position, topRows, depthRows := chunk.value.0, chunk.value.1, chunk.value.2;
      out := Ok(());
    }

    /** The next pair of batches, or nothing once the stream is exhausted. */
    method Next() returns (out: Result<Option<(seq<Row>, seq<Row>)>, Rejection>)
      requires Valid()
      modifies this, engine
      ensures out.Ok? ==> Valid()
      ensures out.Ok? && out.value.Some? ==>
        && |out.value.value.0| <= batchRows && |out.value.value.1| <= batchRows
        && |out.value.value.0| + |out.value.value.1| > 0
        && deliveredTops == old(deliveredTops) + out.value.value.0
        && deliveredDepths == old(deliveredDepths) + out.value.value.1
      ensures out.Ok? && out.value.None? ==>
        && deliveredTops == old(deliveredTops) && deliveredDepths == old(deliveredDepths)
        && StreamJournal(engine.setup, groups).Ok?
        && deliveredTops == Rows(engine.normalize.tops, StreamJournal(engine.setup, groups).value.out)
        && deliveredDepths == Rows(engine.normalize.depths, StreamJournal(engine.setup, groups).value.out)
      ensures out.Ok? && out.value.Some? ==>
        LessWork(Left(), old(Left())) || (Left() == old(Left()) && Buffered() < old(Buffered()))
      ensures out.Err? ==> StreamJournal(engine.setup, groups).Err?
    {
      hide PlacedAt, Rows, StreamJournal;
      var filled := Fill();
      if filled.Err? {
        return Err(filled.error);
      }
      if topRows == [] && depthRows == [] {
        PlaceIsEnd(engine.setup, groups, Here(), start, engine.View());
        return Ok(None);
      }
      var tops, depths := Slice();
      out := Ok(Some((tops, depths)));
    }

    function Buffered(): nat
      reads this
    {
      |topRows| + |depthRows|
    }

    /** Draws batches until the stream is exhausted: it is, and the batches together are the unbatched rows. */
    method Drain() returns (out: Result<(), Rejection>, batches: seq<Batch>)
      requires Valid() && deliveredTops == [] && deliveredDepths == []
      modifies this, engine
      ensures out.Ok? <==> StreamJournal(engine.setup, groups).Ok?
      ensures forall i :: 0 <= i < |batches| ==> 0 < CountRows(batches[i]) && Fits(batches[i], batchRows)
      ensures out.Ok? ==> Valid()
      ensures out.Ok? ==>
        var published := StreamJournal(engine.setup, groups).value.out;
        && Tops(batches) == Rows(engine.normalize.tops, published)
        && Depths(batches) == Rows(engine.normalize.depths, published)
    {
      hide PlacedAt, Rows, StreamJournal;
      batches := [];
      while true
        invariant Valid() && deliveredTops == Tops(batches) && deliveredDepths == Depths(batches)
        invariant forall i :: 0 <= i < |batches| ==> 0 < CountRows(batches[i]) && Fits(batches[i], batchRows)
        decreases Left().0, Left().1, Left().2, Buffered()
      {
        var batch := Next();
        if batch.Err? {
          return Err(batch.error), batches;
        }
        if batch.value.None? {
          return Ok(()), batches;
        }
        assert (batches + [batch.value.value])[..|batches|] == batches;
        batches := batches + [batch.value.value];
      }
    }

    /** Cuts at most one batch of rows off each buffer. */
    method Slice() returns (tops: seq<Row>, depths: seq<Row>)
      requires Valid()
      modifies this`topRows, this`depthRows, this`deliveredTops, this`deliveredDepths
      ensures Valid() && |tops| == Min(batchRows, |old(topRows)|) && |depths| == Min(batchRows, |old(depthRows)|)
      ensures deliveredTops == old(deliveredTops) + tops && deliveredDepths == old(deliveredDepths) + depths
      ensures Left() == old(Left()) && Buffered() == old(Buffered()) - |tops| - |depths|
    {
      hide PlacedAt, Rows;
      var t, d := Min(batchRows, |topRows|), Min(batchRows, |depthRows|);
      tops, depths := topRows[..t], depthRows[..d];
      assert topRows == tops + topRows[t..] && depthRows == depths + depthRows[d..];
      deliveredTops, deliveredDepths := deliveredTops + tops, deliveredDepths + depths;
      topRows, depthRows := topRows[t..], depthRows[d..];
    }
  }

  type Batch = (seq<Row>, seq<Row>)

  function CountRows(batch: Batch): nat {
    |batch.0| + |batch.1|
  }

  predicate Fits(batch: Batch, rows: nat) {
    |batch.0| <= rows && |batch.1| <= rows
  }

  function Tops(batches: seq<Batch>): seq<Row> {
    if batches == [] then [] else Tops(batches[..|batches| - 1]) + batches[|batches| - 1].0
  }

  function Depths(batches: seq<Batch>): seq<Row> {
    if batches == [] then [] else Depths(batches[..|batches| - 1]) + batches[|batches| - 1].1
  }

  lemma PlaceIsEnd(setup: Setup, groups: seq<Group>, place: Place, start: Stream, view: Stream)
    requires PlacedAt(setup, groups, place, start, view) && place.finished
    ensures StreamJournal(setup, groups) == Ok(view)
  {
    hide StreamJournal;
  }

  predicate LessWork(a: (nat, nat, nat), b: (nat, nat, nat)) {
    a.0 < b.0 || (a.0 == b.0 && (a.1 < b.1 || (a.1 == b.1 && a.2 < b.2)))
  }

  lemma {:induction false} GroupsPrefixFail(setup: Setup, orders: seq<seq<Item>>, n: nat)
    requires n <= |orders| && FeedGroups(setup, IDLE, orders[..n]).Err?
    ensures FeedGroups(setup, IDLE, orders).Err?
    decreases |orders|
  {
    hide Feed;
    if n == |orders| {
      assert orders[..n] == orders;
    } else {
      assert orders[..|orders| - 1][..n] == orders[..n];
      GroupsPrefixFail(setup, orders[..|orders| - 1], n);
    }
  }
}
