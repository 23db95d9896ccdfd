/** The causal order of a commit group, the per-book progress check, and venue sequences over whole tapes. */
module TapeOrder {
  import opened Outcomes
  import opened Sorting
  import opened BookTape
  import opened TapeRefinement

  // ---------------------------------------------------------------- the causal sort

  /** Text order, character by character. */
  predicate TextLeq(a: string, b: string) {
    if a == "" then true
    else if b == "" then false
    else if a[0] != b[0] then a[0] < b[0]
    else TextLeq(a[1..], b[1..])
  }

  datatype SortKey = SortKey(run: string, shard: string, local: nat, sub: nat, priority: nat, id: string)

  function SortKeyOf(setup: Setup, item: Item): SortKey {
    var (local, sub, priority) := Progress(item);
    SortKey(KeyOf(item).run, ShardOf(setup, KeyOf(item)), local, sub, priority,
            match item case EventItem(e) => e.id case ControlItem(c) => c.id)
  }

  predicate KeyLeq(a: SortKey, b: SortKey) {
    if a.run != b.run then TextLeq(a.run, b.run)
    else if a.shard != b.shard then TextLeq(a.shard, b.shard)
    else if a.local != b.local then a.local < b.local
    else if a.sub != b.sub then a.sub < b.sub
    else if a.priority != b.priority then a.priority < b.priority
    else TextLeq(a.id, b.id)
  }

  function CausalLeq(setup: Setup): (Item, Item) -> bool {
    (a, b) => KeyLeq(SortKeyOf(setup, a), SortKeyOf(setup, b))
  }

  function EventItems(events: seq<Event>): seq<Item> {
    seq(|events|, i requires 0 <= i < |events| => EventItem(events[i]))
  }

  function ControlItems(controls: seq<Control>): seq<Item> {
    seq(|controls|, i requires 0 <= i < |controls| => ControlItem(controls[i]))
  }

  /** One commit group's events and controls in causal order. */
  function CausalItems(setup: Setup, events: seq<Event>, controls: seq<Control>): seq<Item> {
    StableSort(CausalLeq(setup), EventItems(events) + ControlItems(controls))
  }

  lemma {:induction false} TextOrder(a: string, b: string, c: string)
    ensures TextLeq(a, b) || TextLeq(b, a)
    ensures TextLeq(a, b) && TextLeq(b, a) ==> a == b
    ensures TextLeq(a, b) && TextLeq(b, c) ==> TextLeq(a, c)
  {
    if a != "" && b != "" {
      TextOrder(a[1..], b[1..], if c != "" then c[1..] else c);
      assert a == [a[0]] + a[1..] && b == [b[0]] + b[1..];
    }
  }

  lemma KeyOrder(a: SortKey, b: SortKey, c: SortKey)
    ensures KeyLeq(a, b) || KeyLeq(b, a)
    ensures KeyLeq(a, b) && KeyLeq(b, a) ==> a == b
    ensures KeyLeq(a, b) && KeyLeq(b, c) ==> KeyLeq(a, c)
  {
    TextOrder(a.run, b.run, c.run);
    TextOrder(a.run, c.run, b.run);
    TextOrder(b.run, c.run, a.run);
    TextOrder(a.shard, b.shard, c.shard);
    TextOrder(a.shard, c.shard, b.shard);
    TextOrder(b.shard, c.shard, a.shard);
    TextOrder(a.id, b.id, c.id);
  }

  lemma CausalOrderIsTotal(setup: Setup)
    ensures TotalPreorder(CausalLeq(setup))
  {
    hide KeyLeq, SortKeyOf;
    var leq := CausalLeq(setup);
    forall a, b ensures leq(a, b) || leq(b, a) {
      KeyOrder(SortKeyOf(setup, a), SortKeyOf(setup, b), SortKeyOf(setup, b));
    }
    forall a, b, c | leq(a, b) && leq(b, c) ensures leq(a, c) {
      KeyOrder(SortKeyOf(setup, a), SortKeyOf(setup, b), SortKeyOf(setup, c));
    }
  }

  /** One text comes before another when it is a prefix of it or smaller at the first difference. */
  lemma {:induction false} TextOrderMeans(a: string, b: string)
    ensures TextLeq(a, b) <==> a <= b || exists i :: 0 <= i < |a| && i < |b| && a[..i] == b[..i] && a[i] < b[i]
  {
    if a != "" && b != "" {
      if a[0] == b[0] {
        TextOrderMeans(a[1..], b[1..]);
        assert a == [a[0]] + a[1..] && b == [b[0]] + b[1..];
        assert a <= b <==> a[1..] <= b[1..];
        if i :| 0 <= i < |a[1..]| && i < |b[1..]| && a[1..][..i] == b[1..][..i] && a[1..][i] < b[1..][i] {
          assert a[..i + 1] == [a[0]] + a[1..][..i] && b[..i + 1] == [b[0]] + b[1..][..i];
          assert a[i + 1] < b[i + 1];
        }
        if i :| 0 <= i < |a| && i < |b| && a[..i] == b[..i] && a[i] < b[i] {
          assert i > 0 && a[1..][..i - 1] == a[..i][1..] && b[1..][..i - 1] == b[..i][1..];
          assert a[1..][i - 1] < b[1..][i - 1];
        }
      } else {
        FirstDiffers(a, b);
      }
    }
  }

  lemma FirstDiffers(a: string, b: string)
    requires a != "" && b != "" && a[0] != b[0]
    ensures (exists i :: 0 <= i < |a| && i < |b| && a[..i] == b[..i] && a[i] < b[i]) <==> a[0] < b[0]
  {
    if i :| 0 <= i < |a| && i < |b| && a[..i] == b[..i] && a[i] < b[i] {
      if i > 0 {
        SharedHead(a, b, i);
      }
    }
    if a[0] < b[0] {
      assert a[..0] == b[..0];
    }
  }

  lemma SharedHead(a: string, b: string, i: nat)
    requires 0 < i <= |a| && i <= |b| && a[..i] == b[..i]
    ensures a[0] == b[0]
  {
    assert a[..i][0] == a[0] && b[..i][0] == b[0];
  }

  /** The causal order: by run and shard, then local sequence, subsequence and priority, and last by id. */
  lemma CausalOrderMeans(setup: Setup, a: Item, b: Item)
    ensures
      var (k, l, shard, shard') := (KeyOf(a), KeyOf(b), ShardOf(setup, KeyOf(a)), ShardOf(setup, KeyOf(b)));
      var ((m, n, p), (m', n', p')) := (Progress(a), Progress(b));
      && (CausalLeq(setup)(a, b) && k.run != l.run ==> TextLeq(k.run, l.run))
      && (CausalLeq(setup)(a, b) && k.run == l.run && shard != shard' ==> TextLeq(shard, shard'))
      && (k.run == l.run && shard == shard' && (m < m' || (m == m' && (n < n' || (n == n' && p < p')))) ==>
            CausalLeq(setup)(a, b) && !CausalLeq(setup)(b, a))
  {
  }

  /** Tied items have the same priority, so an event never ties with a control. */
  lemma TiedFamilies(setup: Setup, a: Item, b: Item)
    requires Tied(CausalLeq(setup), a, b)
    ensures a.EventItem? <==> b.EventItem?
  {
    KeyOrder(SortKeyOf(setup, a), SortKeyOf(setup, b), SortKeyOf(setup, b));
    assert Priority(a) == Priority(b);
  }

  lemma {:induction false} NoTiesAcross(setup: Setup, k: Item, items: seq<Item>)
    requires forall i :: 0 <= i < |items| ==> items[i].EventItem? != k.EventItem?
    ensures Ties(CausalLeq(setup), k, items) == []
  {
    if items != [] {
      NoTiesAcross(setup, k, items[..|items| - 1]);
      if Tied(CausalLeq(setup), items[|items| - 1], k) {
        TiedFamilies(setup, items[|items| - 1], k);
      }
    }
  }

  lemma TiesOfGroups(setup: Setup, k: Item, e1: seq<Event>, c1: seq<Control>, e2: seq<Event>, c2: seq<Control>)
    ensures Ties(CausalLeq(setup), k, (EventItems(e1) + EventItems(e2)) + (ControlItems(c1) + ControlItems(c2)))
         == Ties(CausalLeq(setup), k, EventItems(e1) + ControlItems(c1)) + Ties(CausalLeq(setup), k, EventItems(e2)
           + ControlItems(c2))
  {
    hide CausalLeq, Ties, EventItems, ControlItems;
    var leq := CausalLeq(setup);
    var a1, b1, a2, b2 := EventItems(e1), ControlItems(c1), EventItems(e2), ControlItems(c2);
    TiesConcat(leq, k, a1, b1);
    TiesConcat(leq, k, a2, b2);
    TiesConcat(leq, k, a1 + a2, b1 + b2);
    TiesConcat(leq, k, a1, a2);
    TiesConcat(leq, k, b1, b2);
    OneFamilyTies(setup, k, e2, c1);
  }

  /** Two groups whose causal orders follow one another are, together, one group in causal order. */
  lemma GroupsSortTogether(setup: Setup, e1: seq<Event>, c1: seq<Control>, e2: seq<Event>, c2: seq<Control>)
    requires Sorted(CausalLeq(setup), CausalItems(setup, e1, c1) + CausalItems(setup, e2, c2))
    ensures CausalItems(setup, e1 + e2, c1 + c2) == CausalItems(setup, e1, c1) + CausalItems(setup, e2, c2)
  {
    var leq := CausalLeq(setup);
    CausalOrderIsTotal(setup);
    var first, second := EventItems(e1) + ControlItems(c1), EventItems(e2) + ControlItems(c2);
    var all := EventItems(e1 + e2) + ControlItems(c1 + c2);
    assert all == (EventItems(e1) + EventItems(e2)) + (ControlItems(c1) + ControlItems(c2));
    SortOrders(leq, all);
    hide CausalLeq, StableSort, Sorted, Ties, TotalPreorder, EventItems, ControlItems;
    forall k
      ensures Ties(leq, k, StableSort(leq, all)) == Ties(leq, k, StableSort(leq, first) + StableSort(leq, second))
    {
      TiesConcat(leq, k, StableSort(leq, first), StableSort(leq, second));
      TiesOfGroups(setup, k, e1, c1, e2, c2);
      SortKeepsTies(leq, k, first);
      SortKeepsTies(leq, k, second);
      SortKeepsTies(leq, k, all);
    }
    SortedUnique(leq, StableSort(leq, all), StableSort(leq, first) + StableSort(leq, second));
  }

  lemma OneFamilyTies(setup: Setup, k: Item, events: seq<Event>, controls: seq<Control>)
    ensures Ties(CausalLeq(setup), k, EventItems(events)) == []
      || Ties(CausalLeq(setup), k, ControlItems(controls)) == []
  {
    if k.EventItem? {
      NoTiesAcross(setup, k, ControlItems(controls));
    } else {
      NoTiesAcross(setup, k, EventItems(events));
    }
  }

  /** A journal of commit groups. */
  datatype Group = Group(events: seq<Event>, controls: seq<Control>)

  function AllEvents(groups: seq<Group>): seq<Event> {
    if groups == [] then [] else AllEvents(groups[..|groups| - 1]) + groups[|groups| - 1].events
  }

  function AllControls(groups: seq<Group>): seq<Control> {
    if groups == [] then [] else AllControls(groups[..|groups| - 1]) + groups[|groups| - 1].controls
  }

  function GroupOrders(setup: Setup, groups: seq<Group>): seq<seq<Item>> {
    seq(|groups|, i requires 0 <= i < |groups| => CausalItems(setup, groups[i].events, groups[i].controls))
  }

  lemma {:induction false} JournalSortsTogether(setup: Setup, groups: seq<Group>)
    requires Sorted(CausalLeq(setup), Concat(GroupOrders(setup, groups)))
    ensures CausalItems(setup, AllEvents(groups), AllControls(groups)) == Concat(GroupOrders(setup, groups))
  {
    hide CausalLeq;
    if groups == [] {
      assert EventItems([]) + ControlItems([]) == [];
    } else {
      hide StableSort, CausalItems;
      var n := |groups| - 1;
      var orders := GroupOrders(setup, groups);
      assert orders[..n] == GroupOrders(setup, groups[..n]);
      SortedFront(CausalLeq(setup), Concat(orders[..n]), orders[n]);
      JournalSortsTogether(setup, groups[..n]);
      GroupsSortTogether(setup, AllEvents(groups[..n]), AllControls(groups[..n]), groups[n].events, groups[n].controls);
    }
  }

  lemma SortedFront<T>(leq: (T, T) -> bool, a: seq<T>, b: seq<T>)
    requires Sorted(leq, a + b)
    ensures Sorted(leq, a)
  {
    forall i, j | 0 <= i < j < |a| ensures leq(a[i], a[j]) {
      assert (a + b)[i] == a[i] && (a + b)[j] == a[j];
    }
  }

  /** Finishing the engine after feeding it commit group by commit group. */
  function StreamJournal(setup: Setup, groups: seq<Group>): Result<Stream, Rejection> {
    var stream :- FeedGroups(setup, IDLE, GroupOrders(setup, groups));
    Finish(setup, stream)
  }

  /** The older reader: one sort of the whole journal, then the lookahead loop. */
  function ReadWholeJournal(setup: Setup, groups: seq<Group>): Result<Looked, Rejection> {
    Lookahead(setup, CausalItems(setup, AllEvents(groups), AllControls(groups)))
  }

  /**
   * When the group orders follow one another causally, the engine that sees one commit group at a time
   * accepts exactly the journals the whole-tape reader accepts, and publishes the same books.
   */
  lemma StreamingEqualsWholeTape(setup: Setup, groups: seq<Group>)
    requires Sorted(CausalLeq(setup), Concat(GroupOrders(setup, groups)))
    ensures StreamJournal(setup, groups).Ok? <==> ReadWholeJournal(setup, groups).Ok?
    ensures StreamJournal(setup, groups).Ok? ==>
      && StreamJournal(setup, groups).value.out == ReadWholeJournal(setup, groups).value.out
      && StreamJournal(setup, groups).value.core == ReadWholeJournal(setup, groups).value.core
  {
    JournalSortsTogether(setup, groups);
    GroupsAreTransparent(setup, IDLE, GroupOrders(setup, groups));
    StreamingRefinesLookahead(setup, Concat(GroupOrders(setup, groups)));
    hide CausalItems, Lookahead, Feed, Finish, FeedGroups, GroupOrders, Concat, CausalLeq;
  }

  // ---------------------------------------------------------------- the progress check

  /** Last accepted coordinate per book: some item has it and no item of the book is beyond it. */
  ghost predicate CoordinatesFit(core: Core, items: seq<Item>) {
    && (forall i :: 0 <= i < |items| ==> AtOrBelowCoordinate(core, items[i]))
    && (forall k :: k in core.coordinates ==>
      exists i :: 0 <= i < |items| && KeyOf(items[i]) == k && Progress(items[i]) == core.coordinates[k])
  }

  ghost predicate AtOrBelowCoordinate(core: Core, item: Item) {
    && KeyOf(item) in core.coordinates
    && (Progress(item) == core.coordinates[KeyOf(item)] || ProgressBelow(Progress(item), core.coordinates[KeyOf(item)]))
  }

  lemma AdvanceCoordinates(setup: Setup, core: Core, item: Item)
    requires Advance(setup, core, item).Ok?
    ensures Advance(setup, core, item).value.core.coordinates == core.coordinates[KeyOf(item) := Progress(item)]
    ensures KeyOf(item) in core.coordinates ==> ProgressBelow(core.coordinates[KeyOf(item)], Progress(item))
  {
    hide CheckOrder, ApplyEvent, ApplyControl, Progress, ProgressBelow;
    var admitted := Admit(setup, core, item).value;
    match item {
      case ControlItem(c) => ControlCoordinates(admitted, c, ShardOf(setup, c.key));
      case EventItem(e) =>
        var order := CheckOrder(admitted.order, e, ShardOf(setup, e.key)).value;
        EventCoordinates(setup, admitted.(order := order, eventBooks := admitted.eventBooks + {e.key}), e);
    }
  }

  lemma ControlCoordinates(core: Core, c: Control, shard: string)
    requires ApplyControl(core, c, shard).Ok?
    ensures ApplyControl(core, c, shard).value.coordinates == core.coordinates
  {
    hide ResetOrder;
  }

  lemma EventCoordinates(setup: Setup, core: Core, e: Event)
    requires ApplyEvent(setup, core, e).Ok?
    ensures ApplyEvent(setup, core, e).value.core.coordinates == core.coordinates
  {
    hide CheckpointBook, WriteLevels;
  }

  lemma {:induction false} CoordinatesFollow(setup: Setup, items: seq<Item>)
    requires Reach(setup, items).Ok?
    ensures CoordinatesFit(Reach(setup, items).value, items)
  {
    hide Advance, Progress, KeyOf;
    if items != [] {
      var n := |items| - 1;
      var core := Reach(setup, items[..n]).value;
      CoordinatesFollow(setup, items[..n]);
      AdvanceCoordinates(setup, core, items[n]);
      var after := Reach(setup, items).value;
      forall i | 0 <= i < |items| ensures AtOrBelowCoordinate(after, items[i]) {
        if i < n {
          assert AtOrBelowCoordinate(core, items[..n][i]);
        }
      }
      forall k | k in after.coordinates
        ensures exists i :: 0 <= i < |items| && KeyOf(items[i]) == k && Progress(items[i]) == after.coordinates[k]
      {
        if k == KeyOf(items[n]) {
          assert Progress(items[n]) == after.coordinates[k];
        } else {
          var i :| 0 <= i < n && KeyOf(items[..n][i]) == k && Progress(items[..n][i]) == core.coordinates[k];
          assert KeyOf(items[i]) == k;
        }
      }
    }
  }

  lemma SortedProgress(setup: Setup, a: Item, b: Item)
    requires CausalLeq(setup)(a, b) && KeyOf(a) == KeyOf(b)
    ensures Progress(a) == Progress(b) || ProgressBelow(Progress(a), Progress(b))
  {
  }

  /**
   * In a causally sorted group, the progress check rejects an item exactly when an earlier item of the
   * same book has the same (local sequence, subsequence, priority).
   */
  lemma ProgressFailsExactly(setup: Setup, items: seq<Item>, n: nat)
    requires n < |items| && Sorted(CausalLeq(setup), items) && Reach(setup, items[..n]).Ok?
    ensures Admit(setup, Reach(setup, items[..n]).value, items[n]) == Err(NonContinuous) <==>
      && KeyOf(items[n]).run != "" && KeyOf(items[n]).venue != "" && KeyOf(items[n]).book != ""
      && (KeyOf(items[n]).venue, KeyOf(items[n]).book) in setup.shards
      && exists i :: 0 <= i < n && KeyOf(items[i]) == KeyOf(items[n]) && Progress(items[i]) == Progress(items[n])
  {
    var core, key := Reach(setup, items[..n]).value, KeyOf(items[n]);
    CoordinatesFollow(setup, items[..n]);
    hide Reach, CausalLeq, Progress, KeyOf;
    if key in core.coordinates {
      var i :| 0 <= i < n && KeyOf(items[..n][i]) == key && Progress(items[..n][i]) == core.coordinates[key];
      assert items[..n][i] == items[i];
      assert CausalLeq(setup)(items[i], items[n]);
      SortedProgress(setup, items[i], items[n]);
    }
    forall i | 0 <= i < n && KeyOf(items[i]) == key && Progress(items[i]) == Progress(items[n])
      ensures key in core.coordinates && !ProgressBelow(core.coordinates[key], Progress(items[n]))
    {
      assert AtOrBelowCoordinate(core, items[..n][i]);
    }
  }

  // ---------------------------------------------------------------- venue sequences

  /** A Kalshi event whose venue sequence must advance. */
  predicate Sequenced(item: Item) {
    item.EventItem? && item.event.key.venue == "kalshi" && !Periodic(item.event) && item.event.venueSequence.Some?
  }

  predicate Reconnects(item: Item) {
    item.ControlItem? && item.control.kind.Invalidated? && item.control.reason == "reconnect"
      && item.control.key.venue == "kalshi"
  }

  /** The item forgets the sequences of the (run, shard). */
  predicate ResetsShard(setup: Setup, item: Item, run: string, shard: string) {
    Reconnects(item) && item.control.key.run == run && ShardOf(setup, item.control.key) == shard
  }

  function OwnerAt(setup: Setup, e: Event): (string, string, string) {
    (e.key.run, ShardOf(setup, e.key), e.sid)
  }

  function OrderAfter(setup: Setup, order: VenueOrder, item: Item): VenueOrder {
    match item
    case EventItem(e) => (match CheckOrder(order, e, ShardOf(setup,
      e.key)) case Ok(after) => after case Err(_) => order)
    case ControlItem(c) => if Reconnects(item) then ResetOrder(order, c.key, ShardOf(setup, c.key)) else order
  }

  lemma AdvanceOrder(setup: Setup, core: Core, item: Item)
    requires Advance(setup, core, item).Ok?
    ensures Advance(setup, core, item).value.core.order == OrderAfter(setup, core.order, item)
    ensures item.EventItem? ==> CheckOrder(core.order, item.event, ShardOf(setup, item.event.key)).Ok?
  {
    hide CheckpointBook, WriteLevels, CheckOrder, Confirm, Close;
    if item.ControlItem? {
      ControlOrder(Admit(setup, core, item).value, item.control, ShardOf(setup, item.control.key));
    }
  }

  lemma ControlOrder(core: Core, c: Control, shard: string)
    requires ApplyControl(core, c, shard).Ok?
    ensures ApplyControl(core, c, shard).value.order ==
      if c.kind.Invalidated? && c.reason == "reconnect" then ResetOrder(core.order, c.key, shard) else core.order
  {
    hide ResetOrder;
  }

  /** The shard was not reset between positions `i` and `j`. */
  ghost predicate Unbroken(setup: Setup, items: seq<Item>, i: nat, j: nat, run: string, shard: string) {
    forall m :: i < m < j && m < |items| ==> !ResetsShard(setup, items[m], run, shard)
  }

  ghost predicate SequencesFit(setup: Setup, order: VenueOrder, items: seq<Item>) {
    forall i :: 0 <= i < |items| && Sequenced(items[i]) ==> RemembersFrom(setup, order, items, i)
  }

  ghost predicate RemembersFrom(setup: Setup, order: VenueOrder, items: seq<Item>, i: nat)
    requires i < |items| && Sequenced(items[i])
  {
    var e := items[i].event;
    Unbroken(setup, items, i, |items|, e.key.run, ShardOf(setup, e.key)) ==>
      OwnerAt(setup, e) in order.sequences && e.venueSequence.value <= order.sequences[OwnerAt(setup, e)]
  }

  lemma OrderStep(setup: Setup, order: VenueOrder, items: seq<Item>, item: Item, i: nat)
    requires SequencesFit(setup, order, items)
    requires item.EventItem? ==> CheckOrder(order, item.event, ShardOf(setup, item.event.key)).Ok?
    requires i <= |items| && Sequenced((items + [item])[i])
    ensures RemembersFrom(setup, OrderAfter(setup, order, item), items + [item], i)
  {
    var all := items + [item];
    if i < |items| && Unbroken(setup, all, i, |all|, all[i].event.key.run, ShardOf(setup, all[i].event.key)) {
      assert all[i] == items[i] && all[|items|] == item;
      assert Unbroken(setup, items, i, |items|, all[i].event.key.run, ShardOf(setup, all[i].event.key)) by {
        forall m | i < m < |items|
          ensures !ResetsShard(setup, items[m], all[i].event.key.run, ShardOf(setup, all[i].event.key))
        {
          assert all[m] == items[m];
        }
      }
      assert RemembersFrom(setup, order, items, i);
    }
  }

  lemma {:induction false} SequencesFollow(setup: Setup, items: seq<Item>)
    requires Reach(setup, items).Ok?
    ensures SequencesFit(setup, Reach(setup, items).value.order, items)
  {
    hide Advance, OrderAfter, CheckOrder, Sequenced, RemembersFrom;
    if items != [] {
      var n := |items| - 1;
      SequencesFollow(setup, items[..n]);
      AdvanceOrder(setup, Reach(setup, items[..n]).value, items[n]);
      assert items == items[..n] + [items[n]];
      forall i | 0 <= i < |items| && Sequenced(items[i])
        ensures RemembersFrom(setup, Reach(setup, items).value.order, items, i)
      {
        OrderStep(setup, Reach(setup, items[..n]).value.order, items[..n], items[n], i);
      }
    }
  }

  /**
   * On an accepted tape, sequenced events of one (run, shard, sid) with no reconnect of the shard in
   * between have strictly increasing venue sequences, whichever books they belong to.
   */
  lemma SequencesIncrease(setup: Setup, items: seq<Item>, i: nat, j: nat)
    requires Reach(setup, items).Ok? && i < j < |items| && Sequenced(items[i]) && Sequenced(items[j])
    requires OwnerAt(setup, items[i].event) == OwnerAt(setup, items[j].event)
    requires Unbroken(setup, items, i, j, items[i].event.key.run, ShardOf(setup, items[i].event.key))
    ensures items[i].event.venueSequence.value < items[j].event.venueSequence.value
  {
    hide Advance, OrderAfter, CheckOrder, RemembersFrom, Unbroken;
    var before := items[..j];
    ReachPrefix(setup, items, j + 1);
    assert items[..j + 1][..j] == before;
    SequencesFollow(setup, before);
    AdvanceOrder(setup, Reach(setup, before).value, items[j]);
    hide Reach;
    assert before[i] == items[i];
    ShorterUnbroken(setup, items, i, j);
    SequenceAfterRemembered(setup, Reach(setup, before).value.order, before, i, items[j].event);
  }

  lemma ShorterUnbroken(setup: Setup, items: seq<Item>, i: nat, j: nat)
    requires i < j <= |items| && items[i].EventItem?
    requires Unbroken(setup, items, i, j, items[i].event.key.run, ShardOf(setup, items[i].event.key))
    ensures Unbroken(setup, items[..j], i, j, items[i].event.key.run, ShardOf(setup, items[i].event.key))
  {
  }

  lemma SequenceAfterRemembered(setup: Setup, order: VenueOrder, items: seq<Item>, i: nat, e: Event)
    requires i < |items| && Sequenced(items[i]) && RemembersFrom(setup, order, items, i)
    requires Unbroken(setup, items, i, |items|, items[i].event.key.run, ShardOf(setup, items[i].event.key))
    requires Sequenced(EventItem(e)) && OwnerAt(setup, items[i].event) == OwnerAt(setup, e)
    requires CheckOrder(order, e, ShardOf(setup, e.key)).Ok?
    ensures items[i].event.venueSequence.value < e.venueSequence.value
  {
    hide Unbroken;
  }

  /** The item sets or forgets the venue position of the book. */
  predicate Touches(item: Item, k: Key) {
    (Sequenced(item) && item.event.key == k) || (Reconnects(item) && item.control.key == k)
  }

  /** The book's remembered position is that of its last sequenced event, not reset since. */
  ghost predicate LastPosition(items: seq<Item>, k: Key, i: nat, sequence: int, sid: string) {
    && i < |items| && Sequenced(items[i]) && items[i].event.key == k
    && items[i].event.venueSequence.value == sequence && items[i].event.sid == sid
    && forall m :: i < m < |items| ==> !Touches(items[m], k)
  }

  ghost predicate PositionsFit(order: VenueOrder, items: seq<Item>) {
    && order.books.Keys == order.sids.Keys
    && forall k :: k in order.books ==> exists i: nat :: LastPosition(items, k, i, order.books[k], order.sids[k])
  }

  lemma PositionStep(setup: Setup, order: VenueOrder, items: seq<Item>, item: Item)
    requires PositionsFit(order, items)
    requires item.EventItem? ==> CheckOrder(order, item.event, ShardOf(setup, item.event.key)).Ok?
    ensures PositionsFit(OrderAfter(setup, order, item), items + [item])
  {
    var after, all := OrderAfter(setup, order, item), items + [item];
    forall k ensures k in after.books <==> k in after.sids {
      OrderAfterAt(setup, order, item, k);
    }
    hide CheckOrder, ResetOrder;
    forall k | k in after.books ensures exists i: nat :: LastPosition(all, k, i, after.books[k], after.sids[k]) {
      OrderAfterAt(setup, order, item, k);
      hide OrderAfter;
      if Touches(item, k) {
        assert LastPosition(all, k, |items|, after.books[k], after.sids[k]);
      } else {
        var i: nat :| LastPosition(items, k, i, order.books[k], order.sids[k]);
        LaterPosition(items, item, k, i, order.books[k], order.sids[k]);
      }
    }
  }

  lemma LaterPosition(items: seq<Item>, item: Item, k: Key, i: nat, sequence: int, sid: string)
    requires LastPosition(items, k, i, sequence, sid) && !Touches(item, k)
    ensures LastPosition(items + [item], k, i, sequence, sid)
  {
    hide Touches;
  }

  /** What one item does to the remembered position of one book. */
  lemma OrderAfterAt(setup: Setup, order: VenueOrder, item: Item, k: Key)
    requires order.books.Keys == order.sids.Keys
    requires item.EventItem? ==> CheckOrder(order, item.event, ShardOf(setup, item.event.key)).Ok?
    ensures
      var after := OrderAfter(setup, order, item);
      && (k in after.books <==> k in after.sids)
      && if !Touches(item, k)
        then Get(after.books, k) == Get(order.books, k) && Get(after.sids, k) == Get(order.sids, k)
         else if item.ControlItem? then k !in after.books
         else Get(after.books, k) == item.event.venueSequence && Get(after.sids, k) == Some(item.event.sid)
  {
    assert k in order.books <==> k in order.sids;
  }

  lemma {:induction false} PositionsFollow(setup: Setup, items: seq<Item>)
    requires Reach(setup, items).Ok?
    ensures PositionsFit(Reach(setup, items).value.order, items)
  {
    hide Advance, OrderAfter, CheckOrder, LastPosition;
    if items != [] {
      var n := |items| - 1;
      PositionsFollow(setup, items[..n]);
      AdvanceOrder(setup, Reach(setup, items[..n]).value, items[n]);
      PositionStep(setup, Reach(setup, items[..n]).value.order, items[..n], items[n]);
      assert items == items[..n] + [items[n]];
    }
  }

  /** On an accepted tape each periodic Kalshi checkpoint restates its own book's last sequence and sid. */
  lemma PeriodicRestates(setup: Setup, items: seq<Item>, j: nat) returns (i: nat)
    requires Reach(setup, items).Ok? && j < |items|
    requires items[j].EventItem? && items[j].event.key.venue == "kalshi" && Periodic(items[j].event)
    ensures items[j].event.venueSequence.Some?
      && LastPosition(items[..j], items[j].event.key, i, items[j].event.venueSequence.value, items[j].event.sid)
  {
    ReachPrefix(setup, items, j + 1);
    var before, e := items[..j], items[j].event;
    assert items[..j + 1][..j] == before;
    PositionsFollow(setup, before);
    AdvanceOrder(setup, Reach(setup, before).value, items[j]);
    hide Reach, LastPosition;
    var order := Reach(setup, before).value.order;
    assert e.key in order.books && order.books[e.key] == e.venueSequence.value && order.sids[e.key] == e.sid;
    i :| LastPosition(before, e.key, i, order.books[e.key], order.sids[e.key]);
  }
}
