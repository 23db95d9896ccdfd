/**
 * What a tape does to one shard depends on that shard's items alone, so the verdict on a tape and the state it
 * reaches do not depend on how its shards are interleaved.
 */
module TapeShards {
  import opened Outcomes
  import opened Sorting
  import opened BookTape
  import opened TapeRefinement
  import opened TapeOrder

  /** A collector run's feed shard. */
  type Lane = (string, string)

  function LaneOf(setup: Setup, item: Item): Lane {
    BookLane(setup, KeyOf(item))
  }

  function BookLane(setup: Setup, key: Key): Lane {
    (key.run, ShardOf(setup, key))
  }

  /** The items of one shard, in the order of the tape. */
  function Only(setup: Setup, items: seq<Item>, lane: Lane): seq<Item> {
    if items == [] then []
    else Only(setup, items[..|items| - 1], lane)
         + if LaneOf(setup, items[|items| - 1]) == lane then [items[|items| - 1]] else []
  }

  // ---------------------------------------------------------------- the part of the state one shard can see

  ghost predicate SameBook(a: Core, b: Core, k: Key) {
    && Get(a.open, k) == Get(b.open, k) && Get(a.recovering, k) == Get(b.recovering, k)
    && (k in a.terminal <==> k in b.terminal) && (k in a.eventBooks <==> k in b.eventBooks)
    && Get(a.books, k) == Get(b.books, k) && Get(a.coordinates, k) == Get(b.coordinates, k)
    && Get(a.order.books, k) == Get(b.order.books, k) && Get(a.order.sids, k) == Get(b.order.sids, k)
    && SameReports(a.reports, b.reports, k)
  }

  ghost predicate SameReports(a: map<(Key, string), Report>, b: map<(Key, string), Report>, k: Key) {
    forall epoch: string :: Get(a, (k, epoch)) == Get(b, (k, epoch))
  }

  ghost predicate SameSequences(a: VenueOrder, b: VenueOrder, lane: Lane) {
    forall sid: string :: Get(a.sequences, (lane.0, lane.1, sid)) == Get(b.sequences, (lane.0, lane.1, sid))
  }

  ghost predicate SameLane(setup: Setup, a: Core, b: Core, lane: Lane) {
    && SameSequences(a.order, b.order, lane)
    && forall k :: BookLane(setup, k) == lane ==> SameBook(a, b, k)
  }

  // ---------------------------------------------------------------- one item

  lemma SequencesAt(a: VenueOrder, b: VenueOrder, lane: Lane, sid: string)
    requires SameSequences(a, b, lane)
    ensures Get(a.sequences, (lane.0, lane.1, sid)) == Get(b.sequences, (lane.0, lane.1, sid))
  {
  }

  lemma SequenceWritten(a: VenueOrder, b: VenueOrder, run: string, shard: string, sid: string, sequence: int, k: Key)
    requires SameSequences(a, b, (run, shard))
    ensures
      var owner := (run, shard, sid);
      SameSequences(VenueOrder(a.sequences[owner := sequence], a.books[k := sequence], a.sids[k := sid]),
                    VenueOrder(b.sequences[owner := sequence], b.books[k := sequence], b.sids[k := sid]), (run, shard))
  {
  }

  lemma OwnOrder(a: Core, b: Core, e: Event, shard: string)
    requires SameBook(a, b, e.key) && SameSequences(a.order, b.order, (e.key.run, shard))
    ensures CheckOrder(a.order, e, shard).Ok? <==> CheckOrder(b.order, e, shard).Ok?
    ensures CheckOrder(a.order, e, shard).Ok? ==>
      var after, after' := CheckOrder(a.order, e, shard).value, CheckOrder(b.order, e, shard).value;
      && SameBook(a.(order := after), b.(order := after'), e.key)
      && SameSequences(after, after', (e.key.run, shard))
  {
    hide SameReports, SameSequences;
    SequencesAt(a.order, b.order, (e.key.run, shard), e.sid);
    if e.venueSequence.Some? {
      SequenceWritten(a.order, b.order, e.key.run, shard, e.sid, e.venueSequence.value, e.key);
    }
  }

  lemma OwnReset(a: Core, b: Core, key: Key, shard: string)
    requires SameBook(a, b, key) && SameSequences(a.order, b.order, (key.run, shard))
    ensures
      var after, after' := ResetOrder(a.order, key, shard), ResetOrder(b.order, key, shard);
      && SameBook(a.(order := after), b.(order := after'), key)
      && SameSequences(after, after', (key.run, shard))
  {
    hide SameReports;
  }

  lemma SameReport(a: map<(Key, string), Report>, b: map<(Key, string), Report>, k: Key, epoch: string)
    requires SameReports(a, b, k)
    ensures Get(a, (k, epoch)) == Get(b, (k, epoch))
  {
  }

  lemma ReportWritten(a: map<(Key, string), Report>, b: map<(Key, string), Report>, k: Key, epoch: string, r: Report)
    requires SameReports(a, b, k)
    ensures SameReports(a[(k, epoch) := r], b[(k, epoch) := r], k)
  {
  }

  lemma OwnConfirm(a: Core, b: Core, c: Control)
    requires SameBook(a, b, c.key)
    ensures Confirm(a, c).Ok? <==> Confirm(b, c).Ok?
    ensures Confirm(a, c).Ok? ==>
      var after, after' := Confirm(a, c).value, Confirm(b, c).value;
      SameBook(after, after', c.key) && after.order == a.order && after'.order == b.order
  {
    hide SameReports;
    SameReport(a.reports, b.reports, c.key, c.epoch);
    if (c.key, c.epoch) in a.reports {
      ReportWritten(a.reports, b.reports, c.key, c.epoch, a.reports[(c.key, c.epoch)].(openedBy := Some(c.id)));
    }
  }

  lemma OwnClose(a: Core, b: Core, c: Control)
    requires SameBook(a, b, c.key)
    ensures Close(a, c).Ok? <==> Close(b, c).Ok?
    ensures Close(a, c).Ok? ==>
      var after, after' := Close(a, c).value, Close(b, c).value;
      SameBook(after, after', c.key) && after.order == a.order && after'.order == b.order
  {
    hide SameReports;
    if c.key in a.open {
      var id := (c.key, a.open[c.key]);
      SameReport(a.reports, b.reports, id.0, id.1);
      if id in a.reports {
        ReportWritten(a.reports, b.reports, id.0, id.1, a.reports[id].(closedBy := Some(c.id), lastLocal := c.local));
      }
    }
  }

  lemma OwnControl(a: Core, b: Core, c: Control, shard: string)
    requires SameBook(a, b, c.key) && SameSequences(a.order, b.order, (c.key.run, shard))
    ensures ApplyControl(a, c, shard).Ok? <==> ApplyControl(b, c, shard).Ok?
    ensures ApplyControl(a, c, shard).Ok? ==>
      var after, after' := ApplyControl(a, c, shard).value, ApplyControl(b, c, shard).value;
      SameBook(after, after', c.key) && SameSequences(after.order, after'.order, (c.key.run, shard))
  {
    hide ResetOrder, SameBook, SameSequences, Confirm, Close;
    OwnReset(a, b, c.key, shard);
    var reset := c.kind.Invalidated? && c.reason == "reconnect";
    var a' := if reset then a.(order := ResetOrder(a.order, c.key, shard)) else a;
    var b' := if reset then b.(order := ResetOrder(b.order, c.key, shard)) else b;
    OwnConfirm(a', b', c);
    OwnClose(a', b', c);
  }

  lemma OwnOpening(a: Core, b: Core, e: Event)
    requires SameBook(a, b, e.key)
    ensures OpenEpoch(a, e).Ok? <==> OpenEpoch(b, e).Ok?
    ensures OpenEpoch(a, e).Ok? ==>
      var after, after' := OpenEpoch(a, e).value, OpenEpoch(b, e).value;
      SameBook(after, after', e.key) && after.order == a.order && after'.order == b.order
  {
    hide CheckpointBook, SameReports;
    OwnSuperseded(a, b, e);
    ReportWritten(Superseded(a, e), Superseded(b, e), e.key, e.epoch,
                  Report(e.id, None, None, None, e.local, e.local, 0));
    hide Superseded;
  }

  lemma OwnSuperseded(a: Core, b: Core, e: Event)
    requires SameBook(a, b, e.key)
    ensures SameReports(Superseded(a, e), Superseded(b, e), e.key)
  {
    hide SameReports;
    if e.key in a.open {
      var id := (e.key, a.open[e.key]);
      SameReport(a.reports, b.reports, id.0, id.1);
      if id in a.reports {
        ReportWritten(a.reports, b.reports, id.0, id.1, a.reports[id].(supersededBy := Some(e.id)));
      }
    }
  }

  lemma OwnDelta(a: Core, b: Core, e: Event)
    requires SameBook(a, b, e.key)
    ensures ApplyDelta(a, e).Ok? <==> ApplyDelta(b, e).Ok?
    ensures ApplyDelta(a, e).Ok? ==>
      var after, after' := ApplyDelta(a, e).value, ApplyDelta(b, e).value;
      SameBook(after, after', e.key) && after.order == a.order && after'.order == b.order
  {
    hide WriteLevels, SameReports;
  }

  lemma OwnVerify(setup: Setup, a: Core, b: Core, e: Event)
    requires SameBook(a, b, e.key)
    ensures Verify(setup, a, e).Ok? <==> Verify(setup, b, e).Ok?
    ensures Verify(setup, a, e).Ok? ==>
      var after, after' := Verify(setup, a, e).value, Verify(setup, b, e).value;
      && after.applied && after'.applied && SameBook(after.core, after'.core, e.key)
      && after.core.order == a.order && after'.core.order == b.order
  {
    hide SameReports;
    SameReport(a.reports, b.reports, e.key, e.epoch);
    if (e.key, e.epoch) in a.reports {
      var r := a.reports[(e.key, e.epoch)];
      ReportWritten(a.reports, b.reports, e.key, e.epoch, r.(lastLocal := e.local, applied := r.applied + 1));
    }
  }

  lemma OwnEvent(setup: Setup, a: Core, b: Core, e: Event)
    requires SameBook(a, b, e.key)
    ensures ApplyEvent(setup, a, e).Ok? <==> ApplyEvent(setup, b, e).Ok?
    ensures ApplyEvent(setup, a, e).Ok? ==>
      var after, after' := ApplyEvent(setup, a, e).value, ApplyEvent(setup, b, e).value;
      && after.applied == after'.applied && SameBook(after.core, after'.core, e.key)
      && after.core.order == a.order && after'.core.order == b.order
  {
    hide OpenEpoch, ApplyDelta, Verify, SameReports;
    if e.reconstructible {
      OwnOpening(a, b, e);
      OwnDelta(a, b, e);
      var changed := if e.checkpoint then OpenEpoch(a, e) else ApplyDelta(a, e);
      var changed' := if e.checkpoint then OpenEpoch(b, e) else ApplyDelta(b, e);
      if changed.Ok? {
        OwnVerify(setup, changed.value, changed'.value, e);
      }
      hide SameBook;
    }
  }

  lemma OwnAdmission(setup: Setup, a: Core, b: Core, item: Item)
    requires SameBook(a, b, KeyOf(item))
    ensures Admit(setup, a, item).Ok? <==> Admit(setup, b, item).Ok?
    ensures Admit(setup, a, item).Ok? ==>
      var after, after' := Admit(setup, a, item).value, Admit(setup, b, item).value;
      && SameBook(after, after', KeyOf(item)) && after.order == a.order && after'.order == b.order
      && SameBook(after.(eventBooks := after.eventBooks + {KeyOf(item)}),
                  after'.(eventBooks := after'.eventBooks + {KeyOf(item)}), KeyOf(item))
  {
    hide SameReports, Progress, ProgressBelow;
  }

  /** Whether an item of a shard is accepted, and what it does to its book and shard, is the shard's own affair. */
  lemma OwnAdvance(setup: Setup, a: Core, b: Core, item: Item)
    requires SameBook(a, b, KeyOf(item)) && SameSequences(a.order, b.order, LaneOf(setup, item))
    ensures Advance(setup, a, item).Ok? <==> Advance(setup, b, item).Ok?
    ensures Advance(setup, a, item).Ok? ==>
      var after, after' := Advance(setup, a, item).value, Advance(setup, b, item).value;
      && after.applied == after'.applied && SameBook(after.core, after'.core, KeyOf(item))
      && SameSequences(after.core.order, after'.core.order, LaneOf(setup, item))
  {
    hide SameBook, SameSequences, Admit, CheckOrder, ApplyEvent, ApplyControl, ShardOf;
    OwnAdmission(setup, a, b, item);
    if Admit(setup, a, item).Ok? {
      var c, c' := Admit(setup, a, item).value, Admit(setup, b, item).value;
      match item {
        case ControlItem(control) => OwnControl(c, c', control, ShardOf(setup, control.key));
        case EventItem(e) =>
          var d, d' := c.(eventBooks := c.eventBooks + {e.key}), c'.(eventBooks := c'.eventBooks + {e.key});
          var shard := ShardOf(setup, e.key);
          var order, order' := CheckOrder(c.order, e, shard), CheckOrder(c'.order, e, shard);
          OwnOrder(d, d', e, shard);
          if order.Ok? {
            OwnEvent(setup, d.(order := order.value), d'.(order := order'.value), e);
          }
      }
    }
  }

  // ---------------------------------------------------------------- everything else

  lemma OtherReport(reports: map<(Key, string), Report>, id: (Key, string), r: Report, k: Key)
    requires k != id.0
    ensures SameReports(reports, reports[id := r], k)
  {
  }

  lemma OtherOrder(core: Core, e: Event, shard: string, k: Key, lane: Lane)
    requires CheckOrder(core.order, e, shard).Ok?
    ensures k != e.key ==> SameBook(core, core.(order := CheckOrder(core.order, e, shard).value), k)
    ensures lane != (e.key.run, shard) ==> SameSequences(core.order, CheckOrder(core.order, e, shard).value, lane)
  {
  }

  lemma OtherReset(core: Core, key: Key, shard: string, k: Key, lane: Lane)
    ensures k != key ==> SameBook(core, core.(order := ResetOrder(core.order, key, shard)), k)
    ensures lane != (key.run, shard) ==> SameSequences(core.order, ResetOrder(core.order, key, shard), lane)
  {
  }

  lemma OtherControl(core: Core, c: Control, shard: string, k: Key, lane: Lane)
    requires ApplyControl(core, c, shard).Ok?
    ensures k != c.key ==> SameBook(core, ApplyControl(core, c, shard).value, k)
    ensures lane != (c.key.run, shard) ==> SameSequences(core.order, ApplyControl(core, c, shard).value.order, lane)
  {
    hide ResetOrder, SameSequences, SameReports, Confirm, Close, SameBook;
    var reset := if c.kind.Invalidated? && c.reason == "reconnect"
      then core.(order := ResetOrder(core.order, c.key, shard)) else core;
    OtherReset(core, c.key, shard, k, lane);
    NothingElse(core, k, lane);
    if c.kind.Recovered? {
      OtherConfirm(reset, c, k);
      if k != c.key {
        SameBookChains(core, core, reset, Confirm(reset, c).value, k);
      }
    } else if !c.kind.Other? {
      OtherClose(reset, c, k);
      if k != c.key {
        SameBookChains(core, core, reset, Close(reset, c).value, k);
      }
    }
  }

  lemma OtherConfirm(core: Core, c: Control, k: Key)
    requires Confirm(core, c).Ok?
    ensures k != c.key ==> SameBook(core, Confirm(core, c).value, k)
    ensures Confirm(core, c).value.order == core.order
  {
  }

  lemma OtherClose(core: Core, c: Control, k: Key)
    requires Close(core, c).Ok?
    ensures k != c.key ==> SameBook(core, Close(core, c).value, k)
    ensures Close(core, c).value.order == core.order
  {
  }

  lemma NothingElse(core: Core, k: Key, lane: Lane)
    ensures SameBook(core, core, k) && SameSequences(core.order, core.order, lane)
  {
  }

  lemma OtherEvent(setup: Setup, core: Core, e: Event, k: Key)
    requires ApplyEvent(setup, core, e).Ok?
    ensures k != e.key ==> SameBook(core, ApplyEvent(setup, core, e).value.core, k)
    ensures ApplyEvent(setup, core, e).value.core.order == core.order
  {
    hide CheckpointBook, WriteLevels;
  }

  /** An item leaves every other book as it was, and the venue sequences of every other shard. */
  lemma OtherAdvance(setup: Setup, core: Core, item: Item, k: Key, lane: Lane)
    requires Advance(setup, core, item).Ok?
    ensures k != KeyOf(item) ==> SameBook(core, Advance(setup, core, item).value.core, k)
    ensures lane != LaneOf(setup, item) ==>
      SameSequences(core.order, Advance(setup, core, item).value.core.order, lane)
  {
    hide CheckOrder, ApplyControl, ApplyEvent, SameSequences, ShardOf, Progress, ProgressBelow;
    var admitted := Admit(setup, core, item).value;
    NothingElse(core, k, lane);
    match item {
      case ControlItem(c) => OtherControl(admitted, c, ShardOf(setup, c.key), k, lane);
      case EventItem(e) =>
        var d := admitted.(eventBooks := admitted.eventBooks + {e.key});
        OtherOrder(d, e, ShardOf(setup, e.key), k, lane);
        OtherEvent(setup, d.(order := CheckOrder(d.order, e, ShardOf(setup, e.key)).value), e, k);
    }
  }

  lemma OwnLane(setup: Setup, a: Core, b: Core, item: Item)
    requires SameLane(setup, a, b, LaneOf(setup, item))
    ensures Advance(setup, a, item).Ok? <==> Advance(setup, b, item).Ok?
    ensures Advance(setup, a, item).Ok? ==>
      var after, after' := Advance(setup, a, item).value, Advance(setup, b, item).value;
      after.applied == after'.applied && SameLane(setup, after.core, after'.core, LaneOf(setup, item))
  {
    var lane := LaneOf(setup, item);
    hide SameBook, SameSequences, Advance, ShardOf, KeyOf;
    OwnAdvance(setup, a, b, item);
    if Advance(setup, a, item).Ok? {
      var after, after' := Advance(setup, a, item).value.core, Advance(setup, b, item).value.core;
      forall k | BookLane(setup, k) == lane ensures SameBook(after, after', k) {
        if k != KeyOf(item) {
          OtherAdvance(setup, a, item, k, lane);
          OtherAdvance(setup, b, item, k, lane);
          SameBookChains(a, after, b, after', k);
        }
      }
    }
  }

  lemma SameBookChains(a: Core, after: Core, b: Core, after': Core, k: Key)
    requires SameBook(a, b, k) && SameBook(a, after, k) && SameBook(b, after', k)
    ensures SameBook(after, after', k)
  {
  }

  lemma OtherLane(setup: Setup, core: Core, item: Item, lane: Lane)
    requires Advance(setup, core, item).Ok? && lane != LaneOf(setup, item)
    ensures SameLane(setup, core, Advance(setup, core, item).value.core, lane)
  {
    hide SameBook, SameSequences, Advance, ShardOf;
    forall k | BookLane(setup, k) == lane ensures SameBook(core, Advance(setup, core, item).value.core, k) {
      OtherAdvance(setup, core, item, k, lane);
    }
    OtherAdvance(setup, core, item, KeyOf(item), lane);
  }

  lemma SameLaneChains(setup: Setup, a: Core, b: Core, c: Core, lane: Lane)
    requires SameLane(setup, a, b, lane)
    ensures SameLane(setup, b, a, lane)
    ensures SameLane(setup, b, c, lane) ==> SameLane(setup, a, c, lane)
  {
    hide SameBook;
    forall k | BookLane(setup, k) == lane
      ensures SameBook(b, a, k) && (SameBook(b, c, k) ==> SameBook(a, c, k))
    {
      SameBookBack(a, b, k);
      if SameBook(b, c, k) {
        NothingElse(a, k, lane);
        SameBookChains(a, a, b, c, k);
      }
    }
  }

  lemma SameBookBack(a: Core, b: Core, k: Key)
    requires SameBook(a, b, k)
    ensures SameBook(b, a, k)
  {
  }

  // ---------------------------------------------------------------- whole tapes

  /** An accepted tape leaves each shard where the shard's own items leave it. */
  lemma {:induction false} ReachOfShard(setup: Setup, items: seq<Item>, lane: Lane)
    requires Reach(setup, items).Ok?
    ensures Reach(setup, Only(setup, items, lane)).Ok?
    ensures SameLane(setup, Reach(setup, items).value, Reach(setup, Only(setup, items, lane)).value, lane)
  {
    hide Advance, SameLane, LaneOf;
    if items == [] {
      SameLaneReflexive(setup, START, lane);
    } else {
      var n := |items| - 1;
      var core, own := Reach(setup, items[..n]).value, Only(setup, items[..n], lane);
      ReachOfShard(setup, items[..n], lane);
      if LaneOf(setup, items[n]) == lane {
        OwnLane(setup, core, Reach(setup, own).value, items[n]);
        assert (own + [items[n]])[..|own|] == own;
      } else {
        assert Only(setup, items, lane) == own;
        OtherLane(setup, core, items[n], lane);
        var after := Reach(setup, items).value;
        SameLaneChains(setup, core, after, after, lane);
        SameLaneChains(setup, after, core, Reach(setup, own).value, lane);
      }
    }
  }

  lemma SameLaneReflexive(setup: Setup, core: Core, lane: Lane)
    ensures SameLane(setup, core, core, lane)
  {
  }

  lemma {:induction false} OnlySplits(setup: Setup, a: seq<Item>, b: seq<Item>, lane: Lane)
    ensures Only(setup, a + b, lane) == Only(setup, a, lane) + Only(setup, b, lane)
  {
    hide LaneOf;
    if b == [] {
      assert a + b == a;
    } else {
      assert (a + b)[..|a + b| - 1] == a + b[..|b| - 1];
      OnlySplits(setup, a, b[..|b| - 1], lane);
    }
  }

  lemma OnlyPrefix(setup: Setup, items: seq<Item>, n: nat, lane: Lane)
    requires n <= |items|
    ensures var own, m := Only(setup, items, lane), |Only(setup, items[..n], lane)|;
      m <= |own| && own[..m] == Only(setup, items[..n], lane)
  {
    OnlySplits(setup, items[..n], items[n..], lane);
    assert items[..n] + items[n..] == items;
  }

  predicate ShardAccepted(setup: Setup, items: seq<Item>, lane: Lane) {
    Reach(setup, Only(setup, items, lane)).Ok?
  }

  /** A tape is accepted so far if and only if each shard's items are. */
  lemma {:induction false} AcceptedByShards(setup: Setup, items: seq<Item>)
    ensures Reach(setup, items).Ok? <==> forall lane :: ShardAccepted(setup, items, lane)
  {
    hide Advance, SameLane, LaneOf;
    if Reach(setup, items).Ok? {
      forall lane ensures ShardAccepted(setup, items, lane) {
        ReachOfShard(setup, items, lane);
      }
    } else if items != [] {
      var n := |items| - 1;
      AcceptedByShards(setup, items[..n]);
      if lane :| !ShardAccepted(setup, items[..n], lane) {
        RejectedPrefix(setup, items, n, lane);
      } else {
        var lane := LaneOf(setup, items[n]);
        var own := Only(setup, items[..n], lane);
        ReachOfShard(setup, items[..n], lane);
        OwnLane(setup, Reach(setup, items[..n]).value, Reach(setup, own).value, items[n]);
        assert (own + [items[n]])[..|own|] == own;
        assert !ShardAccepted(setup, items, lane);
      }
    }
  }

  lemma RejectedPrefix(setup: Setup, items: seq<Item>, n: nat, lane: Lane)
    requires n <= |items| && !ShardAccepted(setup, items[..n], lane)
    ensures !ShardAccepted(setup, items, lane)
  {
    OnlyPrefix(setup, items, n, lane);
    if Reach(setup, Only(setup, items, lane)).Ok? {
      ReachPrefix(setup, Only(setup, items, lane), |Only(setup, items[..n], lane)|);
    }
  }

  ghost predicate SameShards(setup: Setup, a: seq<Item>, b: seq<Item>) {
    forall lane :: Only(setup, a, lane) == Only(setup, b, lane)
  }

  /** The same state, but for the order in which ignored events were listed. */
  ghost predicate SameButForOrder(a: Core, b: Core) {
    a == b.(ignored := a.ignored) && multiset(a.ignored) == multiset(b.ignored)
  }

  /** However the shards are interleaved, the verdict on the items and the state they reach are the same. */
  lemma InterleavingKeepsState(setup: Setup, a: seq<Item>, b: seq<Item>)
    requires SameShards(setup, a, b)
    ensures Reach(setup, a).Ok? <==> Reach(setup, b).Ok?
    ensures Reach(setup, a).Ok? ==> SameButForOrder(Reach(setup, a).value, Reach(setup, b).value)
  {
    hide Reach, SameLane, Only, EventIds;
    SameVerdict(setup, a, b);
    if Reach(setup, a).Ok? {
      var after, after' := Reach(setup, a).value, Reach(setup, b).value;
      forall lane ensures SameLane(setup, after, after', lane) {
        ShardAlike(setup, a, b, lane);
      }
      SameLanesSameMaps(setup, after, after');
      SameItems(setup, a, b);
      EventsByUse(setup, a);
      EventsByUse(setup, b);
      SameIds(a, b, true);
      SameIds(a, b, false);
      var used, used' := EventIds(a, true), EventIds(b, true);
      assert |multiset(used)| == |used| && |multiset(used')| == |used'|;
    }
  }

  lemma SameVerdict(setup: Setup, a: seq<Item>, b: seq<Item>)
    requires SameShards(setup, a, b)
    ensures Reach(setup, a).Ok? <==> Reach(setup, b).Ok?
  {
    AcceptedByShards(setup, a);
    AcceptedByShards(setup, b);
    hide Reach, Only;
    forall lane: Lane ensures ShardAccepted(setup, a, lane) <==> ShardAccepted(setup, b, lane) {
      assert Only(setup, a, lane) == Only(setup, b, lane);
    }
  }

  lemma ShardAlike(setup: Setup, a: seq<Item>, b: seq<Item>, lane: Lane)
    requires Only(setup, a, lane) == Only(setup, b, lane) && Reach(setup, a).Ok? && Reach(setup, b).Ok?
    ensures SameLane(setup, Reach(setup, a).value, Reach(setup, b).value, lane)
  {
    hide Reach, Only, SameLane;
    var own := Only(setup, a, lane);
    ReachOfShard(setup, a, lane);
    ReachOfShard(setup, b, lane);
    var after, shard, after' := Reach(setup, a).value, Reach(setup, own).value, Reach(setup, b).value;
    SameLaneChains(setup, after', shard, after', lane);
    SameLaneChains(setup, after, shard, after', lane);
  }

  lemma SameLanesSameMaps(setup: Setup, a: Core, b: Core)
    requires forall lane :: SameLane(setup, a, b, lane)
    ensures a == b.(ignored := a.ignored, applied := a.applied)
  {
    hide SameBook, SameSequences;
    forall k ensures SameBook(a, b, k) {
      assert SameLane(setup, a, b, BookLane(setup, k));
    }
    SameBooksSameMaps(a, b);
    forall o ensures Get(a.order.sequences, o) == Get(b.order.sequences, o) {
      assert SameLane(setup, a, b, (o.0, o.1));
      SequencesAt(a.order, b.order, (o.0, o.1), o.2);
    }
    SameMap(a.order.sequences, b.order.sequences);
  }

  lemma SameMap<K(!new), V>(a: map<K, V>, b: map<K, V>)
    requires forall k :: Get(a, k) == Get(b, k)
    ensures a == b
  {
    forall k ensures k in a <==> k in b {
      assert Get(a, k) == Get(b, k);
    }
    forall k | k in a ensures a[k] == b[k] {
      assert Get(a, k) == Get(b, k);
    }
  }

  lemma SameBooksSameMaps(a: Core, b: Core)
    requires forall k :: SameBook(a, b, k)
    ensures a == b.(ignored := a.ignored, applied := a.applied, order := a.order)
    ensures a.order == b.order.(sequences := a.order.sequences)
  {
    forall k: Key ensures Get(a.open, k) == Get(b.open, k) && Get(a.recovering, k) == Get(b.recovering, k) {
      assert SameBook(a, b, k);
    }
    SameMap(a.open, b.open);
    SameMap(a.recovering, b.recovering);
    forall k: Key ensures Get(a.books, k) == Get(b.books, k) && Get(a.coordinates, k) == Get(b.coordinates, k) {
      assert SameBook(a, b, k);
    }
    SameMap(a.books, b.books);
    SameMap(a.coordinates, b.coordinates);
    forall k: Key
      ensures Get(a.order.books, k) == Get(b.order.books, k) && Get(a.order.sids, k) == Get(b.order.sids, k)
    {
      assert SameBook(a, b, k);
    }
    SameMap(a.order.books, b.order.books);
    SameMap(a.order.sids, b.order.sids);
    forall id: (Key, string) ensures Get(a.reports, id) == Get(b.reports, id) {
      assert SameBook(a, b, id.0);
      SameReport(a.reports, b.reports, id.0, id.1);
    }
    SameMap(a.reports, b.reports);
    forall k: Key ensures (k in a.terminal <==> k in b.terminal) && (k in a.eventBooks <==> k in b.eventBooks) {
      assert SameBook(a, b, k);
    }
    assert a.terminal == b.terminal && a.eventBooks == b.eventBooks;
  }

  /** The ids of the events that can, or cannot, be applied. */
  function EventIds(items: seq<Item>, reconstructible: bool): seq<string> {
    if items == [] then []
    else EventIds(items[..|items| - 1], reconstructible) + IdsOf(items[|items| - 1], reconstructible)
  }

  function IdsOf(item: Item, reconstructible: bool): seq<string> {
    if item.EventItem? && item.event.reconstructible == reconstructible then [item.event.id] else []
  }

  /** In an accepted tape exactly the reconstructible events are applied, and the others are listed as ignored. */
  lemma {:induction false} EventsByUse(setup: Setup, items: seq<Item>)
    requires Reach(setup, items).Ok?
    ensures Reach(setup, items).value.applied == |EventIds(items, true)|
    ensures Reach(setup, items).value.ignored == EventIds(items, false)
  {
    hide Advance;
    if items != [] {
      EventsByUse(setup, items[..|items| - 1]);
      UsedOnce(setup, Reach(setup, items[..|items| - 1]).value, items[|items| - 1]);
    }
  }

  lemma UsedOnce(setup: Setup, core: Core, item: Item)
    requires Advance(setup, core, item).Ok?
    ensures var moved := Advance(setup, core, item).value;
      && moved.applied == (item.EventItem? && item.event.reconstructible)
      && moved.core.applied == core.applied + |IdsOf(item, true)|
      && moved.core.ignored == core.ignored + IdsOf(item, false)
  {
    hide CheckpointBook, WriteLevels, CheckOrder, ResetOrder;
  }

  lemma {:induction false} IdsSplit(a: seq<Item>, b: seq<Item>, reconstructible: bool)
    ensures EventIds(a + b, reconstructible) == EventIds(a, reconstructible) + EventIds(b, reconstructible)
  {
    hide IdsOf;
    if b == [] {
      assert a + b == a;
    } else {
      assert (a + b)[..|a + b| - 1] == a + b[..|b| - 1];
      IdsSplit(a, b[..|b| - 1], reconstructible);
    }
  }

  function Without(items: seq<Item>, i: nat): seq<Item>
    requires i < |items|
  {
    items[..i] + items[i + 1..]
  }

  lemma OneLess(items: seq<Item>, i: nat, reconstructible: bool)
    requires i < |items|
    ensures multiset(items) == multiset(Without(items, i)) + multiset{items[i]}
    ensures multiset(EventIds(items, reconstructible))
         == multiset(EventIds(Without(items, i), reconstructible)) + multiset(IdsOf(items[i], reconstructible))
  {
    hide IdsOf;
    var a, x, b := items[..i], [items[i]], items[i + 1..];
    assert items == a + x + b;
    IdsSplit(a + x, b, reconstructible);
    IdsSplit(a, x, reconstructible);
    IdsSplit(a, b, reconstructible);
    assert x[..0] == [];
    assert EventIds(x, reconstructible) == IdsOf(items[i], reconstructible);
  }

  lemma {:induction false} SameIds(a: seq<Item>, b: seq<Item>, reconstructible: bool)
    requires multiset(a) == multiset(b)
    ensures multiset(EventIds(a, reconstructible)) == multiset(EventIds(b, reconstructible))
    decreases |a|
  {
    if a == [] {
      assert |multiset(b)| == |b|;
    } else {
      hide EventIds, IdsOf;
      var n := |a| - 1;
      assert a[n] in multiset(b);
      var i :| 0 <= i < |b| && b[i] == a[n];
      OneLess(a, n, reconstructible);
      OneLess(b, i, reconstructible);
      hide Without;
      assert multiset(Without(a, n)) == multiset(a) - multiset{a[n]} == multiset(Without(b, i));
      assert |multiset(Without(a, n))| == |Without(a, n)| && |multiset(a)| == |a|;
      SameIds(Without(a, n), Without(b, i), reconstructible);
    }
  }

  lemma {:induction false} OnlyCounts(setup: Setup, items: seq<Item>, item: Item)
    ensures multiset(Only(setup, items, LaneOf(setup, item)))[item] == multiset(items)[item]
  {
    hide LaneOf;
    if items != [] {
      var n := |items| - 1;
      OnlyCounts(setup, items[..n], item);
      assert items == items[..n] + [items[n]];
    }
  }

  lemma SameItems(setup: Setup, a: seq<Item>, b: seq<Item>)
    requires SameShards(setup, a, b)
    ensures multiset(a) == multiset(b)
  {
    forall item ensures multiset(a)[item] == multiset(b)[item] {
      OnlyCounts(setup, a, item);
      OnlyCounts(setup, b, item);
    }
  }
}
