/**
 * The streaming engine refines the whole-tape loop, and feeding a tape in pieces changes nothing.
 */
module TapeRefinement {
  import opened Outcomes
  import opened BookTape

  /** What an applied event leaves behind for its book. */
  ghost predicate JustApplied(core: Core, e: Event) {
    && e.key in core.books
    && Get(core.open, e.key) == Some(e.epoch) && e.epoch != ""
    && (e.key in core.recovering <==> e.checkpoint)
  }

  lemma AppliedLeaves(setup: Setup, core: Core, item: Item)
    requires Advance(setup, core, item).Ok? && Advance(setup, core, item).value.applied
    ensures item.EventItem? && item.event.reconstructible
    ensures JustApplied(Advance(setup, core, item).value.core, item.event)
  {
    hide WriteLevels, CheckpointBook, CheckOrder, ResetOrder;
  }

  /** A second event of the message just applied is another applied delta, or the tape is rejected. */
  lemma SameMessageContinues(setup: Setup, core: Core, e: Event, next: Item)
    requires JustApplied(core, e) && SameMessage(e, next) && Advance(setup, core, next).Ok?
    ensures Advance(setup, core, next).value.applied && !e.checkpoint && !next.event.checkpoint
  {
    hide WriteLevels, CheckpointBook, CheckOrder, ResetOrder;
  }

  function NextOf(items: seq<Item>, n: nat): Option<Item> {
    if n < |items| then Some(items[n]) else None
  }

  /** The item after position `n` belongs to the pending message. */
  predicate Continues(stream: Stream, items: seq<Item>, n: nat) {
    stream.pending.Some? && n < |items| && SameMessage(stream.pending.value.event, items[n])
  }

  /** What the loop has published once the engine's held-back event is resolved by the next item. */
  function Resolved(stream: Stream, items: seq<Item>, n: nat): seq<Emission> {
    if stream.pending.Some? && !Continues(stream, items, n) then stream.out + [stream.pending.value] else stream.out
  }

  ghost predicate PendingFits(stream: Stream) {
    stream.pending.Some? ==>
      && JustApplied(stream.core, stream.pending.value.event)
      && stream.pending.value.book == stream.core.books[stream.pending.value.event.key]
  }

  /** The engine's held-back event cannot be published, so the engine is about to fail. */
  ghost predicate Doomed(setup: Setup, stream: Stream, items: seq<Item>, n: nat) {
    stream.pending.Some? && !Continues(stream, items, n) && !setup.normalizes(stream.pending.value)
  }

  ghost predicate InStep(setup: Setup, items: seq<Item>, n: nat)
    requires n <= |items|
  {
    var looked, stream := Look(setup, items, n), Feed(setup, IDLE, items[..n]);
    && (stream.Ok? ==> PendingFits(stream.value))
    && (looked.Ok? <==> stream.Ok? && !Doomed(setup, stream.value, items, n))
    && (looked.Ok? ==> looked.value.core == stream.value.core && looked.value.out == Resolved(stream.value, items, n))
  }

  /** One item: the engine flushes, advances and holds back; the loop advances and looks ahead. */
  lemma StepTogether(setup: Setup, stream: Stream, looked: Looked, item: Item, items: seq<Item>, n: nat)
    requires n < |items| && items[n] == item && PendingFits(stream)
    requires looked.core == stream.core && looked.out == Resolved(stream, items, n) && !Doomed(setup, stream, items, n)
    ensures StreamStep(setup, stream, item).Ok? ==> PendingFits(StreamStep(setup, stream, item).value)
    ensures LookStep(setup, looked, item, NextOf(items, n + 1)).Ok? <==>
      StreamStep(setup, stream, item).Ok? && !Doomed(setup, StreamStep(setup, stream, item).value, items, n + 1)
    ensures LookStep(setup, looked, item, NextOf(items, n + 1)).Ok? ==>
      && LookStep(setup, looked, item, NextOf(items, n + 1)).value.core == StreamStep(setup, stream, item).value.core
      && LookStep(setup, looked, item, NextOf(items, n + 1)).value.out
        == Resolved(StreamStep(setup, stream, item).value, items, n + 1)
  {
    hide Advance, JustApplied, SameMessage;
    var moved := Advance(setup, stream.core, item);
    if moved.Ok? {
      if moved.value.applied {
        AppliedLeaves(setup, stream.core, item);
        assert item.event.key in moved.value.core.books by { InBooks(moved.value.core, item.event); }
      }
      if Continues(stream, items, n) {
        SameMessageContinues(setup, stream.core, stream.pending.value.event, item);
      }
    }
  }

  lemma InBooks(core: Core, e: Event)
    requires JustApplied(core, e)
    ensures e.key in core.books
  {
  }

  /** A doomed engine fails at the next item. */
  lemma DoomedFails(setup: Setup, stream: Stream, items: seq<Item>, n: nat)
    requires n < |items| && Doomed(setup, stream, items, n)
    ensures StreamStep(setup, stream, items[n]).Err?
  {
    hide Advance, SameMessage;
  }

  lemma {:induction false} StreamingInStep(setup: Setup, items: seq<Item>, n: nat)
    requires n <= |items|
    ensures InStep(setup, items, n)
  {
    hide StreamStep, LookStep, PendingFits, Doomed, Resolved;
    if n == 0 {
      assert items[..0] == [];
      IdleFits(setup, items);
    } else {
      StreamingInStep(setup, items, n - 1);
      var before := Feed(setup, IDLE, items[..n - 1]);
      assert items[..n][..n - 1] == items[..n - 1];
      if before.Ok? {
        if Doomed(setup, before.value, items, n - 1) {
          DoomedFails(setup, before.value, items, n - 1);
        } else {
          StepTogether(setup, before.value, Look(setup, items, n - 1).value, items[n - 1], items, n - 1);
        }
      }
    }
  }

  lemma IdleFits(setup: Setup, items: seq<Item>)
    ensures PendingFits(IDLE) && !Doomed(setup, IDLE, items, 0) && Resolved(IDLE, items, 0) == []
  {
  }

  /**
   * On every tape the delayed-emit engine accepts exactly when the lookahead loop accepts, and then
   * publishes the same (event, book) pairs in the same order from the same final state.
   */
  lemma StreamingRefinesLookahead(setup: Setup, items: seq<Item>)
    ensures Streaming(setup, items).Ok? <==> Lookahead(setup, items).Ok?
    ensures Streaming(setup, items).Ok? ==>
      && Streaming(setup, items).value.out == Lookahead(setup, items).value.out
      && Streaming(setup, items).value.core == Lookahead(setup, items).value.core
  {
    StreamingInStep(setup, items, |items|);
    assert items[..|items|] == items;
    hide Feed, Look, Final, PendingFits;
  }

  // ---------------------------------------------------------------- which events are published

  /** Item `i` changed its book. */
  ghost predicate AppliedAt(setup: Setup, items: seq<Item>, i: nat) {
    i < |items| && Reach(setup, items[..i]).Ok? && Advance(setup, Reach(setup, items[..i]).value, items[i]).Ok?
    && Advance(setup, Reach(setup, items[..i]).value, items[i]).value.applied
  }

  /** The positions, in order, of the last applied event of each run of events of one message. */
  ghost function LastOfMessage(setup: Setup, items: seq<Item>, n: nat): seq<nat>
    requires n <= |items|
  {
    if n == 0 then []
    else
      LastOfMessage(setup, items, n - 1)
      + if AppliedAt(setup, items, n - 1) && !(n < |items| && SameMessage(items[n - 1].event, items[n]))
        then [n - 1] else []
  }

  ghost function EmissionAt(setup: Setup, items: seq<Item>, i: nat): Option<Emission> {
    if AppliedAt(setup, items, i)
      && items[i].event.key in Advance(setup, Reach(setup, items[..i]).value, items[i]).value.core.books
    then Some(Emission(items[i].event,
                       Advance(setup, Reach(setup, items[..i]).value, items[i]).value.core.books[items[i].event.key]))
    else None
  }

  /** An accepted tape publishes exactly the last applied event of each message, with the book right after it. */
  lemma {:induction false} PublishesLastOfEachMessage(setup: Setup, items: seq<Item>, n: nat)
    requires n <= |items| && Look(setup, items, n).Ok?
    ensures Reach(setup, items[..n]) == Ok(Look(setup, items, n).value.core)
    ensures var last, out := LastOfMessage(setup, items, n), Look(setup, items, n).value.out;
      |out| == |last| && forall j :: 0 <= j < |out| ==> EmissionAt(setup, items, last[j]) == Some(out[j])
  {
    hide Advance, SameMessage;
    if n == 0 {
      assert items[..0] == [];
    } else {
      PublishesLastOfEachMessage(setup, items, n - 1);
      assert items[..n][..n - 1] == items[..n - 1];
      var core := Look(setup, items, n - 1).value.core;
      if Advance(setup, core, items[n - 1]).value.applied {
        AppliedLeaves(setup, core, items[n - 1]);
        InBooks(Advance(setup, core, items[n - 1]).value.core, items[n - 1].event);
      }
    }
  }

  /** The hash check passed for this book, and normalisation accepts it. */
  ghost predicate Authentic(setup: Setup, emission: Emission) {
    setup.hash(emission.event.key, emission.book) == emission.event.postHash && setup.normalizes(emission)
  }

  lemma AppliedIsAuthentic(setup: Setup, core: Core, item: Item)
    requires Advance(setup, core, item).Ok? && Advance(setup, core, item).value.applied
    ensures var after := Advance(setup, core, item).value.core;
      item.EventItem? && item.event.key in after.books
      && setup.hash(item.event.key, after.books[item.event.key]) == item.event.postHash
  {
    hide WriteLevels, CheckpointBook, CheckOrder, ResetOrder;
  }

  lemma {:induction false} LookIsAuthentic(setup: Setup, items: seq<Item>, n: nat)
    requires n <= |items| && Look(setup, items, n).Ok?
    ensures forall j :: 0 <= j < |Look(setup, items, n).value.out| ==>
      Authentic(setup, Look(setup, items, n).value.out[j])
  {
    hide Advance, SameMessage;
    if n > 0 {
      LookIsAuthentic(setup, items, n - 1);
      var core := Look(setup, items, n - 1).value.core;
      if Advance(setup, core, items[n - 1]).value.applied {
        AppliedIsAuthentic(setup, core, items[n - 1]);
      }
    }
  }

  /** Every published book, the final flush included, has the hash its event declares. */
  lemma PublishedBooksMatchHashes(setup: Setup, items: seq<Item>)
    requires Streaming(setup, items).Ok?
    ensures var out := Streaming(setup, items).value.out; forall j :: 0 <= j < |out| ==> Authentic(setup, out[j])
  {
    StreamingRefinesLookahead(setup, items);
    hide Streaming, Look, Final;
    LookIsAuthentic(setup, items, |items|);
  }

  lemma {:induction false} ReachPrefix(setup: Setup, items: seq<Item>, n: nat)
    requires n <= |items| && Reach(setup, items).Ok?
    ensures Reach(setup, items[..n]).Ok?
  {
    hide Advance;
    if n == |items| {
      assert items[..n] == items;
    } else {
      assert items[..|items| - 1][..n] == items[..n];
      ReachPrefix(setup, items[..|items| - 1], n);
    }
  }

  // ---------------------------------------------------------------- feeding in pieces

  /** Feeding one group of items after another is feeding their concatenation, whatever is pending between. */
  lemma {:induction false} FeedSplits(setup: Setup, stream: Stream, a: seq<Item>, b: seq<Item>)
    ensures Feed(setup, stream, a + b) ==
      match Feed(setup, stream, a)
      case Ok(middle) => Feed(setup, middle, b)
      case Err(e) => Err(e)
  {
    hide StreamStep;
    if b == [] {
      assert a + b == a;
    } else {
      assert (a + b)[..|a + b| - 1] == a + b[..|b| - 1];
      FeedSplits(setup, stream, a, b[..|b| - 1]);
    }
  }

  function Concat<T>(groups: seq<seq<T>>): seq<T> {
    if groups == [] then [] else Concat(groups[..|groups| - 1]) + groups[|groups| - 1]
  }

  /** The engine fed group by group, one commit group after another. */
  function FeedGroups(setup: Setup, stream: Stream, groups: seq<seq<Item>>): Result<Stream, Rejection> {
    if groups == [] then Ok(stream)
    else
      var before :- FeedGroups(setup, stream, groups[..|groups| - 1]);
      Feed(setup, before, groups[|groups| - 1])
  }

  lemma {:induction false} GroupsAreTransparent(setup: Setup, stream: Stream, groups: seq<seq<Item>>)
    ensures FeedGroups(setup, stream, groups) == Feed(setup, stream, Concat(groups))
  {
    if groups != [] {
      var n := |groups| - 1;
      GroupsAreTransparent(setup, stream, groups[..n]);
      FeedSplits(setup, stream, Concat(groups[..n]), groups[n]);
    }
  }
}
