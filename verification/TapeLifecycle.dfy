/** What holds in every state the reconstruction can reach, and what a finished tape proves about its epochs. */
module TapeLifecycle {
  import opened Outcomes
  import opened BookTape
  import opened TapeRefinement

  // ---------------------------------------------------------------- epochs

  predicate IsOpen(core: Core, id: (Key, string)) {
    Get(core.open, id.0) == Some(id.1)
  }

  /** An open epoch's report shows no closing, and a confirmation unless recovery is pending; a closed one, both. */
  ghost predicate ReportFits(core: Core, id: (Key, string))
    requires id in core.reports
  {
    var r := core.reports[id];
    if IsOpen(core, id)
    then r.closedBy.None? && r.supersededBy.None? && (r.openedBy.None? <==> id.0 in core.recovering)
    else r.openedBy.Some? && (r.closedBy.Some? <==> r.supersededBy.None?)
  }

  ghost predicate Shape(core: Core) {
    && core.books.Keys == core.open.Keys
    && core.recovering.Keys <= core.open.Keys
    && core.terminal !! core.open.Keys
    && forall k :: k in core.open ==> core.open[k] != "" && (k, core.open[k]) in core.reports
  }

  ghost predicate ReportsFit(core: Core) {
    forall id :: id in core.reports ==> ReportFits(core, id)
  }

  ghost predicate Lifecycle(core: Core) {
    Shape(core) && ReportsFit(core)
  }

  lemma ConfirmKeeps(core: Core, c: Control)
    requires Lifecycle(core) && Confirm(core, c).Ok?
    ensures Lifecycle(Confirm(core, c).value)
  {
    var after := Confirm(core, c).value;
    assert Shape(after);
    assert ReportFits(core, (c.key, c.epoch));
    forall id | id in after.reports ensures ReportFits(after, id) {
      assert ReportFits(core, id);
    }
  }

  lemma CloseShape(core: Core, c: Control)
    requires Shape(core) && Closes(c) && Close(core, c).Ok?
    ensures Shape(Close(core, c).value)
  {
  }

  lemma CloseReports(core: Core, c: Control, id: (Key, string))
    requires Lifecycle(core) && Closes(c) && Close(core, c).Ok? && id in Close(core, c).value.reports
    ensures ReportFits(Close(core, c).value, id)
  {
    var prior := Get(core.open, c.key);
    assert prior.Some? ==> (c.key, prior.value) in core.reports;
    assert id in core.reports && ReportFits(core, id);
    assert c.key !in core.recovering;
    hide Lifecycle;
    if id.0 == c.key {
    } else {
      assert Get(Close(core, c).value.open, id.0) == Get(core.open, id.0);
    }
  }

  lemma CloseKeeps(core: Core, c: Control)
    requires Lifecycle(core) && Closes(c) && Close(core, c).Ok?
    ensures Lifecycle(Close(core, c).value)
  {
    CloseShape(core, c);
    hide Close, ReportFits;
    forall id | id in Close(core, c).value.reports ensures ReportFits(Close(core, c).value, id) {
      CloseReports(core, c, id);
    }
  }

  lemma OpenShape(core: Core, e: Event)
    requires Shape(core) && e.key !in core.terminal && OpenEpoch(core, e).Ok?
    ensures Shape(OpenEpoch(core, e).value)
  {
    hide CheckpointBook;
  }

  lemma OpenReports(core: Core, e: Event, id: (Key, string))
    requires ReportsFit(core) && OpenEpoch(core, e).Ok? && id in OpenEpoch(core, e).value.reports
    requires e.key in core.open ==> (e.key, core.open[e.key]) in core.reports
    ensures ReportFits(OpenEpoch(core, e).value, id)
  {
    hide CheckpointBook;
    assert id in core.reports ==> ReportFits(core, id);
  }

  lemma OpenKeeps(core: Core, e: Event)
    requires Lifecycle(core) && e.key !in core.terminal && OpenEpoch(core, e).Ok?
    ensures Lifecycle(OpenEpoch(core, e).value)
  {
    OpenShape(core, e);
    hide OpenEpoch, ReportFits;
    forall id | id in OpenEpoch(core, e).value.reports ensures ReportFits(OpenEpoch(core, e).value, id) {
      OpenReports(core, e, id);
    }
  }

  lemma DeltaKeeps(core: Core, e: Event)
    requires Lifecycle(core) && ApplyDelta(core, e).Ok?
    ensures Lifecycle(ApplyDelta(core, e).value)
  {
    hide WriteLevels;
    var after := ApplyDelta(core, e).value;
    forall id | id in after.reports ensures ReportFits(after, id) {
      assert ReportFits(core, id);
    }
  }

  lemma VerifyKeeps(setup: Setup, core: Core, e: Event)
    requires Lifecycle(core) && Verify(setup, core, e).Ok?
    ensures Lifecycle(Verify(setup, core, e).value.core)
  {
    var after := Verify(setup, core, e).value.core;
    forall id | id in after.reports ensures ReportFits(after, id) {
      assert ReportFits(core, id);
    }
  }

  lemma OtherFieldsKeep(core: Core, after: Core)
    requires Lifecycle(core) && after.open == core.open && after.recovering == core.recovering
    requires after.books == core.books
    requires after.terminal == core.terminal && after.reports == core.reports
    ensures Lifecycle(after)
  {
    forall id | id in after.reports ensures ReportFits(after, id) {
      assert ReportFits(core, id);
    }
  }

  lemma ControlKeeps(core: Core, c: Control, shard: string)
    requires Lifecycle(core) && ApplyControl(core, c, shard).Ok?
    ensures Lifecycle(ApplyControl(core, c, shard).value)
  {
    hide ResetOrder, Lifecycle, Confirm, Close;
    var reset := if c.kind.Invalidated? && c.reason == "reconnect"
      then core.(order := ResetOrder(core.order, c.key, shard)) else core;
    OtherFieldsKeep(core, reset);
    match c.kind {
      case Recovered => ConfirmKeeps(reset, c);
      case Other =>
      case _ => CloseKeeps(reset, c);
    }
  }

  lemma EventKeeps(setup: Setup, core: Core, e: Event)
    requires Lifecycle(core) && e.key !in core.terminal && ApplyEvent(setup, core, e).Ok?
    ensures Lifecycle(ApplyEvent(setup, core, e).value.core)
  {
    hide Lifecycle, OpenEpoch, ApplyDelta, Verify;
    if !e.reconstructible {
      OtherFieldsKeep(core, ApplyEvent(setup, core, e).value.core);
    } else if e.checkpoint {
      OpenKeeps(core, e);
      VerifyKeeps(setup, OpenEpoch(core, e).value, e);
    } else {
      DeltaKeeps(core, e);
      VerifyKeeps(setup, ApplyDelta(core, e).value, e);
    }
  }

  lemma AdvanceKeepsLifecycle(setup: Setup, core: Core, item: Item)
    requires Lifecycle(core) && Advance(setup, core, item).Ok?
    ensures Lifecycle(Advance(setup, core, item).value.core)
  {
    hide CheckOrder, ApplyEvent, ApplyControl, Lifecycle;
    var admitted := Admit(setup, core, item).value;
    var shard := ShardOf(setup, KeyOf(item));
    OtherFieldsKeep(core, admitted);
    match item {
      case ControlItem(c) => ControlKeeps(admitted, c, shard);
      case EventItem(e) =>
        var ready := admitted.(order := CheckOrder(admitted.order, e, shard).value,
            eventBooks := admitted.eventBooks + {e.key});
        OtherFieldsKeep(admitted, ready);
        EventKeeps(setup, ready, e);
    }
  }

  /** Books exist exactly for open epochs, pending recoveries only for open epochs, terminal books have none. */
  lemma {:induction false} EveryStateFits(setup: Setup, items: seq<Item>)
    requires Reach(setup, items).Ok?
    ensures Lifecycle(Reach(setup, items).value)
  {
    hide Advance, Lifecycle;
    if items == [] {
      StartFits();
    } else {
      EveryStateFits(setup, items[..|items| - 1]);
      AdvanceKeepsLifecycle(setup, Reach(setup, items[..|items| - 1]).value, items[|items| - 1]);
    }
  }

  lemma StartFits()
    ensures Lifecycle(START)
  {
  }

  // ---------------------------------------------------------------- counting items of the tape

  function CountItems(items: seq<Item>, wanted: Item -> bool): nat {
    if items == [] then 0
    else CountItems(items[..|items| - 1], wanted) + if wanted(items[|items| - 1]) then 1 else 0
  }

  function Opens(id: (Key, string)): Item -> bool {
    (item: Item) => item.EventItem? && item.event.checkpoint && item.event.reconstructible
            && item.event.key == id.0 && item.event.epoch == id.1
  }

  function Confirms(id: (Key, string)): Item -> bool {
    (item: Item) => item.ControlItem? && item.control.kind.Recovered? && item.control.key == id.0
      && item.control.epoch == id.1
  }

  predicate AnyEvent(item: Item) {
    item.EventItem?
  }

  function Unconfirmed(core: Core, id: (Key, string)): nat {
    if IsOpen(core, id) && id.0 in core.recovering then 1 else 0
  }

  /** What one accepted item does to the epoch, pending recovery and book of each key. */
  ghost predicate Effect(core: Core, item: Item, after: Core) {
    var k := KeyOf(item);
    && (forall other :: other != k ==>
          && Get(after.open, other) == Get(core.open, other)
            && Get(after.recovering, other) == Get(core.recovering, other)
          && Get(after.books, other) == Get(core.books, other))
    && match item
       case ControlItem(c) =>
         if c.kind.Recovered? then
           && k in core.recovering && k !in after.recovering && Get(core.open, k) == Some(c.epoch)
           && Get(after.open, k) == Get(core.open, k) && Get(after.books, k) == Get(core.books, k)
         else if Closes(c) then k !in core.recovering && k !in after.recovering && k !in after.open && k !in after.books
         else after.open == core.open && after.recovering == core.recovering && after.books == core.books
       case EventItem(e) =>
         if !e.reconstructible
           then after.open == core.open && after.recovering == core.recovering && after.books == core.books
         else if e.checkpoint then
           && k !in core.recovering && k in after.recovering
           && Get(core.open, k) != Some(e.epoch) && Get(after.open, k) == Some(e.epoch)
           && CheckpointBook(e).Ok? && Get(after.books, k) == Some(CheckpointBook(e).value)
         else
           && k !in core.recovering && k !in after.recovering && Get(after.open, k) == Get(core.open, k)
           && k in core.books && WriteLevels(core.books[k], e.levels).Ok?
           && Get(after.books, k) == Some(WriteLevels(core.books[k], e.levels).value)
  }

  lemma ConfirmEffect(core: Core, c: Control)
    requires c.kind.Recovered? && Confirm(core, c).Ok?
    ensures Effect(core, ControlItem(c), Confirm(core, c).value)
  {
  }

  lemma CloseEffect(core: Core, c: Control)
    requires Closes(c) && Close(core, c).Ok?
    ensures Effect(core, ControlItem(c), Close(core, c).value)
  {
  }

  lemma ControlEffect(core: Core, c: Control, shard: string)
    requires ApplyControl(core, c, shard).Ok?
    ensures Effect(core, ControlItem(c), ApplyControl(core, c, shard).value)
    ensures ApplyControl(core, c, shard).value.applied == core.applied
    ensures ApplyControl(core, c, shard).value.ignored == core.ignored
    ensures ApplyControl(core, c, shard).value.eventBooks == core.eventBooks
  {
    hide ResetOrder;
    var reset := if c.kind.Invalidated? && c.reason == "reconnect"
      then core.(order := ResetOrder(core.order, c.key, shard)) else core;
    match c.kind {
      case Recovered => ConfirmEffect(reset, c);
      case Other =>
      case _ => CloseEffect(reset, c);
    }
  }

  lemma EventEffect(setup: Setup, core: Core, e: Event)
    requires ApplyEvent(setup, core, e).Ok?
    ensures Effect(core, EventItem(e), ApplyEvent(setup, core, e).value.core)
    ensures var after := ApplyEvent(setup, core, e).value.core;
      after.applied + |after.ignored| == core.applied + |core.ignored| + 1 && after.eventBooks == core.eventBooks
  {
    hide CheckpointBook, WriteLevels;
  }

  lemma AdvanceEffect(setup: Setup, core: Core, item: Item)
    requires Advance(setup, core, item).Ok?
    ensures Effect(core, item, Advance(setup, core, item).value.core)
    ensures var after := Advance(setup, core, item).value.core;
      && after.applied + |after.ignored| == core.applied + |core.ignored| + (if item.EventItem? then 1 else 0)
      && after.eventBooks == core.eventBooks + (if item.EventItem? then {KeyOf(item)} else {})
  {
    hide CheckOrder, ApplyEvent, ApplyControl, CheckpointBook, WriteLevels;
    var admitted := Admit(setup, core, item).value;
    var shard := ShardOf(setup, KeyOf(item));
    match item {
      case ControlItem(c) => ControlEffect(admitted, c, shard);
      case EventItem(e) =>
        var ready := admitted.(order := CheckOrder(admitted.order, e, shard).value,
            eventBooks := admitted.eventBooks + {e.key});
        EventEffect(setup, ready, e);
    }
  }

  lemma AdvanceConfirms(setup: Setup, core: Core, item: Item, id: (Key, string))
    requires Lifecycle(core) && Advance(setup, core, item).Ok?
    ensures Unconfirmed(Advance(setup, core, item).value.core, id) + (if Confirms(id)(item) then 1 else 0)
         == Unconfirmed(core, id) + (if Opens(id)(item) then 1 else 0)
  {
    hide Advance, Lifecycle, Effect;
    AdvanceEffect(setup, core, item);
    AdvanceKeepsLifecycle(setup, core, item);
    EffectConfirms(core, item, Advance(setup, core, item).value.core, id);
  }

  lemma EffectConfirms(core: Core, item: Item, after: Core, id: (Key, string))
    requires Lifecycle(core) && Lifecycle(after) && Effect(core, item, after)
    ensures Unconfirmed(after, id) + (if Confirms(id)(item) then 1 else 0)
         == Unconfirmed(core, id) + (if Opens(id)(item) then 1 else 0)
  {
    hide CheckpointBook, WriteLevels, ReportsFit;
    assert id.0 in after.recovering ==> id.0 in after.open;
    assert Get(after.recovering, id.0).Some? <==> id.0 in after.recovering;
    assert Get(core.recovering, id.0).Some? <==> id.0 in core.recovering;
  }

  /** So far every opening checkpoint but at most the pending one has been confirmed by one recovery control. */
  lemma {:induction false} OpeningsAreConfirmed(setup: Setup, items: seq<Item>, id: (Key, string))
    requires Reach(setup, items).Ok?
    ensures CountItems(items, Opens(id)) == CountItems(items, Confirms(id)) + Unconfirmed(Reach(setup, items).value, id)
  {
    hide Advance, Lifecycle, Opens, Confirms;
    if items != [] {
      var front := items[..|items| - 1];
      OpeningsAreConfirmed(setup, front, id);
      EveryStateFits(setup, front);
      AdvanceConfirms(setup, Reach(setup, front).value, items[|items| - 1], id);
    } else {
      NothingUnconfirmed(id);
    }
  }

  lemma NothingUnconfirmed(id: (Key, string))
    ensures Unconfirmed(START, id) == 0
  {
  }

  lemma {:induction false} EventsAppliedOrIgnored(setup: Setup, items: seq<Item>)
    requires Reach(setup, items).Ok?
    ensures CountItems(items, AnyEvent) == Reach(setup, items).value.applied + |Reach(setup, items).value.ignored|
  {
    hide Advance, Effect;
    if items != [] {
      EventsAppliedOrIgnored(setup, items[..|items| - 1]);
      AdvanceEffect(setup, Reach(setup, items[..|items| - 1]).value, items[|items| - 1]);
    }
  }

  lemma {:induction false} EventBooksAreKnown(setup: Setup, items: seq<Item>, i: nat)
    requires Reach(setup, items).Ok? && i < |items| && items[i].EventItem?
    ensures items[i].event.key in Reach(setup, items).value.eventBooks
  {
    hide Advance, Effect;
    var n := |items| - 1;
    AdvanceEffect(setup, Reach(setup, items[..n]).value, items[n]);
    if i < n {
      EventBooksAreKnown(setup, items[..n], i);
    }
  }

  // ---------------------------------------------------------------- closings of the tape

  /** The last item of the tape takes the epoch from open to not open. */
  ghost predicate LastCloses(setup: Setup, items: seq<Item>, id: (Key, string)) {
    && items != [] && Reach(setup, items).Ok?
    && Reach(setup, items[..|items| - 1]).Ok? && IsOpen(Reach(setup, items[..|items| - 1]).value, id)
    && !IsOpen(Reach(setup, items).value, id)
  }

  /** How often the tape closed the epoch. */
  ghost function Closings(setup: Setup, items: seq<Item>, id: (Key, string)): nat {
    if items == [] then 0
    else Closings(setup, items[..|items| - 1], id) + if LastCloses(setup, items, id) then 1 else 0
  }

  lemma EffectOpens(core: Core, item: Item, after: Core, id: (Key, string))
    requires Effect(core, item, after)
    ensures IsOpen(after, id) <==> Opens(id)(item) || (IsOpen(core, id) && !(IsOpen(core, id) && !IsOpen(after, id)))
    ensures Opens(id)(item) ==> !IsOpen(core, id)
  {
    hide CheckpointBook, WriteLevels;
  }

  /** So far every epoch was closed as often as it was opened, but for one that is open now. */
  lemma {:induction false} OpeningsAreClosed(setup: Setup, items: seq<Item>, id: (Key, string))
    requires Reach(setup, items).Ok?
    ensures CountItems(items, Opens(id)) == Closings(setup, items, id) + if IsOpen(Reach(setup, items).value, id)
      then 1 else 0
  {
    hide Advance, Effect, Opens;
    if items != [] {
      var front, last := items[..|items| - 1], items[|items| - 1];
      OpeningsAreClosed(setup, front, id);
      AdvanceEffect(setup, Reach(setup, front).value, last);
      EffectOpens(Reach(setup, front).value, last, Reach(setup, items).value, id);
    }
  }

  /** What closes an epoch: a closing control of its book, or a reconstructible checkpoint that opens another epoch. */
  predicate Closer(item: Item, id: (Key, string)) {
    match item
    case ControlItem(c) => Closes(c) && c.key == id.0
    case EventItem(e) => e.checkpoint && e.reconstructible && e.key == id.0 && e.epoch != id.1
  }

  lemma ClosingItem(setup: Setup, items: seq<Item>, id: (Key, string))
    requires LastCloses(setup, items, id)
    ensures Closer(items[|items| - 1], id)
  {
    hide Advance, CheckpointBook, WriteLevels;
    AdvanceEffect(setup, Reach(setup, items[..|items| - 1]).value, items[|items| - 1]);
  }

  // ---------------------------------------------------------------- what the reports say

  /** Which event opened the epoch and, once it is closed, which item closed it. */
  ghost predicate ClosedBy(r: Report, item: Item) {
    match item
    case ControlItem(c) => r.closedBy == Some(c.id) && r.supersededBy.None?
    case EventItem(e) => r.supersededBy == Some(e.id) && r.closedBy.None?
  }

  /** What one accepted item does to the report of an epoch. */
  ghost predicate ReportEffect(core: Core, item: Item, after: Core, id: (Key, string)) {
    if Opens(id)(item) then
      && id in after.reports && after.reports[id].checkpoint == item.event.id
      && after.reports[id].closedBy.None? && after.reports[id].supersededBy.None?
    else
      && (id in after.reports <==> id in core.reports)
      && (id in core.reports ==>
            && after.reports[id].checkpoint == core.reports[id].checkpoint
            && if IsOpen(core, id) && !IsOpen(after, id) then ClosedBy(after.reports[id], item)
               else after.reports[id].closedBy == core.reports[id].closedBy
                    && after.reports[id].supersededBy == core.reports[id].supersededBy)
  }

  lemma ConfirmReports(core: Core, c: Control, id: (Key, string))
    requires c.kind.Recovered? && Confirm(core, c).Ok?
    ensures ReportEffect(core, ControlItem(c), Confirm(core, c).value, id)
  {
  }

  lemma ClosingReports(core: Core, c: Control, id: (Key, string))
    requires Lifecycle(core) && Closes(c) && Close(core, c).Ok?
    ensures ReportEffect(core, ControlItem(c), Close(core, c).value, id)
  {
    var prior := Get(core.open, c.key);
    assert prior.Some? ==> (c.key, prior.value) in core.reports;
    assert id in core.reports ==> ReportFits(core, id);
    hide Lifecycle;
  }

  lemma ControlReports(core: Core, c: Control, shard: string, id: (Key, string))
    requires Lifecycle(core) && ApplyControl(core, c, shard).Ok?
    ensures ReportEffect(core, ControlItem(c), ApplyControl(core, c, shard).value, id)
  {
    var reset := if c.kind.Invalidated? && c.reason == "reconnect"
      then core.(order := ResetOrder(core.order, c.key, shard)) else core;
    OtherFieldsKeep(core, reset);
    hide ResetOrder, Lifecycle, Confirm, Close;
    match c.kind {
      case Recovered => ConfirmReports(reset, c, id);
      case Other =>
      case _ => ClosingReports(reset, c, id);
    }
  }

  /** Opening an epoch starts its report and tells the report of the epoch it supersedes. */
  lemma OpeningReports(core: Core, e: Event, id: (Key, string))
    requires Lifecycle(core) && e.checkpoint && e.reconstructible && OpenEpoch(core, e).Ok?
    ensures ReportEffect(core, EventItem(e), OpenEpoch(core, e).value, id)
  {
    var prior := Get(core.open, e.key);
    assert prior.Some? ==> (e.key, prior.value) in core.reports;
    assert id in core.reports ==> ReportFits(core, id);
    hide CheckpointBook, Lifecycle;
    if id == (e.key, e.epoch) {
    } else if prior.Some? && id == (e.key, prior.value) {
    } else {
      assert Get(OpenEpoch(core, e).value.reports, id) == Get(core.reports, id);
    }
  }

  lemma DeltaReports(core: Core, e: Event, id: (Key, string))
    requires !e.checkpoint && ApplyDelta(core, e).Ok?
    ensures ReportEffect(core, EventItem(e), ApplyDelta(core, e).value, id)
  {
    hide WriteLevels;
  }

  /** The hash check counts the event in its report and leaves openings and closings alone. */
  lemma VerifyReports(setup: Setup, core: Core, changed: Core, e: Event, id: (Key, string))
    requires ReportEffect(core, EventItem(e), changed, id) && Verify(setup, changed, e).Ok?
    ensures ReportEffect(core, EventItem(e), Verify(setup, changed, e).value.core, id)
  {
    assert Verify(setup, changed, e).value.core.open == changed.open;
  }

  lemma EventReports(setup: Setup, core: Core, e: Event, id: (Key, string))
    requires Lifecycle(core) && ApplyEvent(setup, core, e).Ok?
    ensures ReportEffect(core, EventItem(e), ApplyEvent(setup, core, e).value.core, id)
  {
    if e.reconstructible {
      var changed := (if e.checkpoint then OpenEpoch(core, e) else ApplyDelta(core, e)).value;
      hide OpenEpoch, ApplyDelta, Verify, ReportEffect, Lifecycle;
      if e.checkpoint {
        OpeningReports(core, e, id);
      } else {
        DeltaReports(core, e, id);
      }
      VerifyReports(setup, core, changed, e, id);
    }
  }

  lemma AdvanceReports(setup: Setup, core: Core, item: Item, id: (Key, string))
    requires Lifecycle(core) && Advance(setup, core, item).Ok?
    ensures ReportEffect(core, item, Advance(setup, core, item).value.core, id)
  {
    var admitted := Admit(setup, core, item).value;
    var shard := ShardOf(setup, KeyOf(item));
    OtherFieldsKeep(core, admitted);
    hide CheckOrder, ApplyEvent, ApplyControl, Lifecycle;
    match item {
      case ControlItem(c) => ControlReports(admitted, c, shard, id);
      case EventItem(e) =>
        var ready := admitted.(order := CheckOrder(admitted.order, e, shard).value,
            eventBooks := admitted.eventBooks + {e.key});
        OtherFieldsKeep(core, ready);
        EventReports(setup, ready, e, id);
    }
  }

  /** The report names the epoch's last opening event and, when it is closed, the item that closed it after that. */
  ghost predicate Told(core: Core, items: seq<Item>, id: (Key, string), opening: nat, closing: nat)
    requires id in core.reports
  {
    var r := core.reports[id];
    && opening < |items| && Opens(id)(items[opening]) && r.checkpoint == items[opening].event.id
    && (forall i :: opening < i < |items| ==> !Opens(id)(items[i]))
    && if IsOpen(core, id) then r.closedBy.None? && r.supersededBy.None?
       else opening < closing < |items| && Closer(items[closing], id) && ClosedBy(r, items[closing])
  }

  lemma {:induction false} OpenedIsReported(setup: Setup, items: seq<Item>, id: (Key, string))
    returns (opening: nat, closing: nat)
    requires Reach(setup, items).Ok? && CountItems(items, Opens(id)) > 0
    ensures id in Reach(setup, items).value.reports
    ensures Told(Reach(setup, items).value, items, id, opening, closing)
  {
    hide Advance, Lifecycle, Closer;
    var n := |items| - 1;
    var front, last := items[..n], items[n];
    var core, after := Reach(setup, front).value, Reach(setup, items).value;
    EveryStateFits(setup, front);
    AdvanceReports(setup, core, last, id);
    AdvanceEffect(setup, core, last);
    EffectOpens(core, last, after, id);
    hide Effect;
    if Opens(id)(last) {
      opening, closing := n, n;
    } else {
      opening, closing := OpenedIsReported(setup, front, id);
      if LastCloses(setup, items, id) {
        ClosingItem(setup, items, id);
        closing := n;
      }
    }
  }

  /** How an epoch's report must end: opened by a control, then closed exactly once, by a control or a checkpoint. */
  ghost predicate ClosedOnce(r: Report) {
    r.openedBy.Some? && (r.closedBy.Some? <==> r.supersededBy.None?)
  }

  /**
   * A tape that finishes has a terminal boundary for every book with events. Every epoch was confirmed by
   * one recovery control and closed once for each time it was opened, so once when epoch ids are fresh, and
   * the report of every opened epoch shows it.
   */
  lemma FinishedTapeIsComplete(setup: Setup, items: seq<Item>)
    requires Streaming(setup, items).Ok?
    ensures var core := Streaming(setup, items).value.core;
      && (forall i :: 0 <= i < |items| && items[i].EventItem? ==> items[i].event.key in core.terminal)
      && (forall id :: CountItems(items, Opens(id)) == CountItems(items, Confirms(id)) == Closings(setup, items, id))
      && (forall id :: id in core.reports ==> ClosedOnce(core.reports[id]))
      && (forall id :: CountItems(items, Opens(id)) > 0 ==> id in core.reports)
      && (forall id :: CountItems(items, Opens(id)) > 0 ==>
            exists opening, closing :: Told(core, items, id, opening, closing))
      && CountItems(items, AnyEvent) == core.applied + |core.ignored|
  {
    var core := Streaming(setup, items).value.core;
    FinishedCore(setup, items);
    EveryStateFits(setup, items);
    EventsAppliedOrIgnored(setup, items);
    hide Streaming, Reach, Opens, Confirms, CountItems, Closings, Lifecycle, ReportFits, ClosedOnce, Told;
    forall i | 0 <= i < |items| && items[i].EventItem? ensures items[i].event.key in core.terminal {
      EventBooksAreKnown(setup, items, i);
    }
    forall id | id in core.reports ensures ClosedOnce(core.reports[id]) {
      ReportClosed(core, id);
    }
    forall id ensures CountItems(items, Opens(id)) == CountItems(items, Confirms(id)) == Closings(setup, items, id) {
      OpeningsAreConfirmed(setup, items, id);
      OpeningsAreClosed(setup, items, id);
    }
    forall id | CountItems(items, Opens(id)) > 0
      ensures id in core.reports && exists opening, closing :: Told(core, items, id, opening, closing)
    {
      var opening, closing := OpenedIsReported(setup, items, id);
    }
  }

  lemma ReportClosed(core: Core, id: (Key, string))
    requires Lifecycle(core) && core.open == map[] && id in core.reports
    ensures ClosedOnce(core.reports[id])
  {
    assert ReportFits(core, id);
  }

  lemma {:induction false} FeedReaches(setup: Setup, items: seq<Item>)
    requires Feed(setup, IDLE, items).Ok?
    ensures Reach(setup, items) == Ok(Feed(setup, IDLE, items).value.core)
  {
    hide Advance, SameMessage;
    if items != [] {
      FeedReaches(setup, items[..|items| - 1]);
    }
  }

  lemma FinishedCore(setup: Setup, items: seq<Item>)
    requires Streaming(setup, items).Ok?
    ensures Reach(setup, items) == Ok(Streaming(setup, items).value.core)
    ensures var core := Streaming(setup, items).value.core;
      core.recovering == map[] && core.open == map[] && core.eventBooks <= core.terminal
  {
    hide Feed, Reach, Publish;
    FeedReaches(setup, items);
    var core := Streaming(setup, items).value.core;
    assert forall k :: k in core.eventBooks - core.terminal <==> k in core.eventBooks && k !in core.terminal;
  }

  // ---------------------------------------------------------------- what an emitted book means

  /** The book's level writes once one more item is on the tape. */
  function WritesAfter(before: seq<Level>, item: Item, k: Key): seq<Level> {
    match item
    case EventItem(e) =>
      if e.key != k || !e.reconstructible then before
      else if e.checkpoint then e.levels else before + e.levels
    case ControlItem(c) => if c.key == k && Closes(c) then [] else before
  }

  /** The level writes of the book since its open epoch's checkpoint, in tape order. */
  function Writes(items: seq<Item>, k: Key): seq<Level> {
    if items == [] then [] else WritesAfter(Writes(items[..|items| - 1], k), items[|items| - 1], k)
  }

  /** The last write to one side and price. */
  function LastWrite(levels: seq<Level>, at: (string, real)): Option<Size> {
    if levels == [] then None
    else
      var last := levels[|levels| - 1];
      if (last.side, last.price) == at then Some(last.size) else LastWrite(levels[..|levels| - 1], at)
  }

  /** The book holds a size at a place exactly when the last write there was that positive size. */
  ghost predicate HoldsLastWrites(book: Book, levels: seq<Level>) {
    forall at :: Get(book, at) ==
      match LastWrite(levels, at)
      case Some(Finite(contracts)) => if contracts > 0.0 then Some(contracts) else None
      case _ => None
  }

  lemma {:induction false} WritesCompose(book: Book, a: seq<Level>, b: seq<Level>)
    requires WriteLevels(book, a).Ok? && WriteLevels(WriteLevels(book, a).value, b).Ok?
    ensures WriteLevels(book, a + b) == WriteLevels(WriteLevels(book, a).value, b)
  {
    if b == [] {
      assert a + b == a;
    } else {
      assert (a + b)[..|a + b| - 1] == a + b[..|b| - 1];
      WritesCompose(book, a, b[..|b| - 1]);
    }
  }

  /** Only the last write to each side and price matters, and no size that stays is zero or negative. */
  lemma {:induction false} BookIsLastWrites(levels: seq<Level>)
    requires WriteLevels(map[], levels).Ok?
    ensures HoldsLastWrites(WriteLevels(map[], levels).value, levels)
  {
    if levels != [] {
      BookIsLastWrites(levels[..|levels| - 1]);
    }
  }

  ghost predicate BooksReplay(core: Core, items: seq<Item>) {
    forall k :: k in core.books ==> WriteLevels(map[], Writes(items, k)) == Ok(core.books[k])
  }

  lemma EffectReplays(core: Core, after: Core, writes: seq<Level>, item: Item, k: Key)
    requires Effect(core, item, after) && k in after.books
    requires k in core.books ==> WriteLevels(map[], writes) == Ok(core.books[k])
    ensures WriteLevels(map[], WritesAfter(writes, item, k)) == Ok(after.books[k])
  {
    hide WriteLevels;
    assert Get(after.books, k) == Some(after.books[k]);
    if item.EventItem? && item.event.key == k && item.event.reconstructible && !item.event.checkpoint {
      WritesCompose(map[], writes, item.event.levels);
    }
  }

  lemma WritesStep(items: seq<Item>, item: Item, k: Key)
    ensures Writes(items + [item], k) == WritesAfter(Writes(items, k), item, k)
  {
    assert (items + [item])[..|items|] == items;
  }

  lemma {:induction false} EveryBookReplays(setup: Setup, items: seq<Item>)
    requires Reach(setup, items).Ok?
    ensures BooksReplay(Reach(setup, items).value, items)
  {
    hide Advance, Effect, WriteLevels, Writes;
    if items != [] {
      var front, last := items[..|items| - 1], items[|items| - 1];
      assert items == front + [last];
      EveryBookReplays(setup, front);
      var core := Reach(setup, front).value;
      AdvanceEffect(setup, core, last);
      forall k | k in Advance(setup, core, last).value.core.books
        ensures WriteLevels(map[], Writes(items, k)) == Ok(Advance(setup, core, last).value.core.books[k])
      {
        WritesStep(front, last, k);
        EffectReplays(core, Advance(setup, core, last).value.core, Writes(front, k), last, k);
      }
    }
  }

  /** Every book in every reachable state holds exactly the last positive writes since its epoch's checkpoint. */
  lemma BookMeaning(setup: Setup, items: seq<Item>, k: Key)
    requires Reach(setup, items).Ok? && k in Reach(setup, items).value.books
    ensures HoldsLastWrites(Reach(setup, items).value.books[k], Writes(items, k))
  {
    hide Reach, Writes, WriteLevels, HoldsLastWrites;
    EveryBookReplays(setup, items);
    BookIsLastWrites(Writes(items, k));
  }

  /** An accepted checkpoint changes no book exactly when its levels restate the book that was open. */
  lemma RestatingCheckpoint(setup: Setup, core: Core, e: Event)
    requires Lifecycle(core) && e.checkpoint && e.reconstructible && e.key in core.books
    requires Advance(setup, core, EventItem(e)).Ok?
    ensures Advance(setup, core, EventItem(e)).value.core.books == core.books
      <==> HoldsLastWrites(core.books[e.key], e.levels)
  {
    var after := Advance(setup, core, EventItem(e)).value.core;
    AdvanceEffect(setup, core, EventItem(e));
    CheckpointBooks(core, e, after);
    hide Advance, Effect, WriteLevels, Lifecycle, HoldsLastWrites;
    BookIsLastWrites(e.levels);
    SameContents(core.books[e.key], after.books[e.key], e.levels);
    SameUpdate(core.books, e.key, after.books[e.key]);
  }

  lemma SameUpdate(books: map<Key, Book>, k: Key, book: Book)
    requires k in books
    ensures books[k := book] == books <==> books[k] == book
  {
    assert books[k := book][k] == book;
    if books[k] == book {
      assert books[k := book] == books;
    }
  }

  /** A checkpoint replaces the book of its key by its levels, and no other. */
  lemma CheckpointBooks(core: Core, e: Event, after: Core)
    requires Effect(core, EventItem(e), after) && e.checkpoint && e.reconstructible
    ensures e.key in after.books && WriteLevels(map[], e.levels) == Ok(after.books[e.key])
    ensures after.books == core.books[e.key := after.books[e.key]]
  {
    hide WriteLevels, LastWrite;
    assert Get(after.books, e.key) == Some(after.books[e.key]);
    forall k ensures Get(after.books, k) == Get(core.books[e.key := after.books[e.key]], k) {
    }
    SameBooks(after.books, core.books[e.key := after.books[e.key]]);
  }

  /** The last writes determine the book. */
  lemma SameContents(a: Book, b: Book, levels: seq<Level>)
    requires HoldsLastWrites(b, levels)
    ensures HoldsLastWrites(a, levels) <==> a == b
  {
    hide LastWrite;
    if HoldsLastWrites(a, levels) {
      forall at ensures Get(a, at) == Get(b, at) {
      }
      SameLookups(a, b);
    }
  }

  /** The book of the checkpoint's key was open, and the checkpoint's levels restate it. */
  ghost predicate Restating(setup: Setup, pre: seq<Item>, cp: Event) {
    && cp.checkpoint && cp.reconstructible && Reach(setup, pre).Ok? && cp.key in Reach(setup, pre).value.books
    && HoldsLastWrites(Reach(setup, pre).value.books[cp.key], cp.levels)
  }

  lemma RestatingReplays(setup: Setup, pre: seq<Item>, cp: Event)
    requires Restating(setup, pre, cp) && Reach(setup, pre + [EventItem(cp)]).Ok?
    ensures BooksReplay(Reach(setup, pre + [EventItem(cp)]).value, pre)
  {
    assert (pre + [EventItem(cp)])[..|pre|] == pre;
    EveryStateFits(setup, pre);
    EveryBookReplays(setup, pre);
    RestatingCheckpoint(setup, Reach(setup, pre).value, cp);
  }

  /**
   * After a restating checkpoint every open book, however much later, is the replay of the tape without that
   * checkpoint.
   */
  lemma {:induction false} RestatingChangesNoLaterBook(setup: Setup, pre: seq<Item>, cp: Event, post: seq<Item>)
    requires Restating(setup, pre, cp) && Reach(setup, pre + [EventItem(cp)] + post).Ok?
    ensures BooksReplay(Reach(setup, pre + [EventItem(cp)] + post).value, pre + post)
  {
    hide Advance, Restating, Effect, WriteLevels, Writes;
    var all := pre + [EventItem(cp)] + post;
    if post == [] {
      assert all == pre + [EventItem(cp)] && pre + post == pre;
      RestatingReplays(setup, pre, cp);
    } else {
      var front, last := post[..|post| - 1], post[|post| - 1];
      assert all[..|all| - 1] == pre + [EventItem(cp)] + front;
      assert pre + post == pre + front + [last];
      RestatingChangesNoLaterBook(setup, pre, cp, front);
      var core, after := Reach(setup, pre + [EventItem(cp)] + front).value, Reach(setup, all).value;
      AdvanceEffect(setup, core, last);
      forall k | k in after.books ensures WriteLevels(map[], Writes(pre + post, k)) == Ok(after.books[k]) {
        WritesStep(pre + front, last, k);
        EffectReplays(core, after, Writes(pre + front, k), last, k);
      }
    }
  }

  /** A published book is the one reached by the tape up to and including its event. */
  lemma PublishedIsReached(setup: Setup, items: seq<Item>, i: nat)
    requires i < |items| && EmissionAt(setup, items, i).Some?
    ensures Reach(setup, items[..i + 1]).Ok?
    ensures var e := EmissionAt(setup, items, i).value;
      e.event.key in Reach(setup, items[..i + 1]).value.books
        && e.book == Reach(setup, items[..i + 1]).value.books[e.event.key]
  {
    hide Advance;
    assert items[..i + 1][..i] == items[..i];
  }

  /** So no book published after a restating checkpoint differs from the replay of the tape without it. */
  lemma RestatingChangesNoPublication(setup: Setup, pre: seq<Item>, cp: Event, post: seq<Item>, j: nat)
    requires Restating(setup, pre, cp) && Streaming(setup, pre + [EventItem(cp)] + post).Ok?
    requires j < |Streaming(setup, pre + [EventItem(cp)] + post).value.out|
    ensures
      var all := pre + [EventItem(cp)] + post;
      var last, e := LastOfMessage(setup, all, |all|), Streaming(setup, all).value.out[j];
      && j < |last| && last[j] < |all|
      && (last[j] > |pre| ==> WriteLevels(map[], Writes(pre + post[..last[j] - |pre|], e.event.key)) == Ok(e.book))
  {
    hide Restating, WriteLevels, Writes, EmissionAt, LastOfMessage, Advance, Final, Publish;
    var all := pre + [EventItem(cp)] + post;
    StreamingRefinesLookahead(setup, all);
    PublishesLastOfEachMessage(setup, all, |all|);
    var i := LastOfMessage(setup, all, |all|)[j];
    PositionsOnTape(setup, all, |all|, j);
    PublishedIsReached(setup, all, i);
    if i > |pre| {
      var m := i - |pre|;
      assert all[..i + 1] == pre + [EventItem(cp)] + post[..m];
      RestatingChangesNoLaterBook(setup, pre, cp, post[..m]);
    }
  }

  lemma {:induction false} PositionsOnTape(setup: Setup, items: seq<Item>, n: nat, j: nat)
    requires n <= |items| && j < |LastOfMessage(setup, items, n)|
    ensures LastOfMessage(setup, items, n)[j] < n
  {
    hide AppliedAt;
    if j < |LastOfMessage(setup, items, n - 1)| {
      PositionsOnTape(setup, items, n - 1, j);
    }
  }

  lemma SameBooks(a: map<Key, Book>, b: map<Key, Book>)
    requires forall k :: Get(a, k) == Get(b, k)
    ensures a == b
  {
    forall k ensures k in a <==> k in b {
      assert Get(a, k) == Get(b, k);
    }
    forall k | k in a ensures a[k] == b[k] {
      assert Get(a, k) == Get(b, k);
    }
  }

  lemma SameLookups(a: Book, b: Book)
    requires forall at :: Get(a, at) == Get(b, at)
    ensures a == b
  {
    forall at ensures at in a <==> at in b {
      assert Get(a, at) == Get(b, at);
    }
    forall at | at in a ensures a[at] == b[at] {
      assert Get(a, at) == Get(b, at);
    }
  }
}
