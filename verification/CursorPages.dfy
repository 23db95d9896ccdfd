/** Cursor loops that claim completeness: the trade backfill and the keyset market listing. */
module CursorPages {
  import opened Outcomes

  type Cursor = string

  datatype Item = Item(id: string, body: string)

  /** `next` is the raw continuation cursor, empty when there is none. */
  datatype Reply = Page(items: seq<Item>, next: Cursor) | Unusable

  /** What one partition's listing answers at each cursor, None being the first request; any other request fails. */
  type Server = map<Option<Cursor>, Reply>

  datatype Position = At(cursor: Option<Cursor>) | End

  const TRADE_ENDS: set<Cursor> := {""}
  const KEYSET_TERMINAL := "LTE="
  const KEYSET_ENDS: set<Cursor> := {"", KEYSET_TERMINAL}

  function Concat(pages: seq<seq<Item>>): seq<Item> {
    if pages == [] then [] else Concat(pages[..|pages| - 1]) + pages[|pages| - 1]
  }

  // ---------------------------------------------------------------- the cursor chain

  /** Following cursors from `from`, the listing answers exactly these pages and arrives at `to`. */
  predicate Trail(server: Server, ends: set<Cursor>, from: Option<Cursor>, pages: seq<seq<Item>>, to: Position)
    decreases |pages|
  {
    if pages == [] then to == At(from)
    else
      && from in server && server[from].Page? && pages[0] == server[from].items
      && if server[from].next in ends then |pages| == 1 && to == End
         else Trail(server, ends, Some(server[from].next), pages[1..], to)
  }

  function After(reply: Reply, ends: set<Cursor>): Position
    requires reply.Page?
  {
    if reply.next in ends then End else At(Some(reply.next))
  }

  lemma {:induction false} TrailSnoc(server: Server, ends: set<Cursor>, from: Option<Cursor>, pages: seq<seq<Item>>,
                                     at: Option<Cursor>)
    requires Trail(server, ends, from, pages, At(at)) && at in server && server[at].Page?
    ensures Trail(server, ends, from, pages + [server[at].items], After(server[at], ends))
    decreases |pages|
  {
    var longer := pages + [server[at].items];
    if pages == [] {
      assert longer[1..] == [];
    } else {
      TrailSnoc(server, ends, Some(server[from].next), pages[1..], at);
      assert longer[1..] == pages[1..] + [server[at].items];
    }
  }

  /** Any way to the end passes through every position on the way. */
  lemma {:induction false} TrailsAgree(server: Server, ends: set<Cursor>, from: Option<Cursor>, pages: seq<seq<Item>>,
                                       at: Option<Cursor>, all: seq<seq<Item>>)
    requires Trail(server, ends, from, pages, At(at)) && Trail(server, ends, from, all, End)
    ensures |pages| < |all| && all[..|pages|] == pages && Trail(server, ends, at, all[|pages|..], End)
    decreases |pages|
  {
    if pages == [] {
      assert all[0..] == all;
    } else {
      var next, tail, rest := Some(server[from].next), pages[1..], all[1..];
      assert Trail(server, ends, next, tail, At(at)) && Trail(server, ends, next, rest, End);
      assert pages == [all[0]] + tail && all == [all[0]] + rest;
      hide Trail;
      TrailsAgree(server, ends, next, tail, at, rest);
      assert rest[|pages| - 1..] == all[|pages|..];
      assert all[..|pages|] == [all[0]] + rest[..|pages| - 1];
    }
  }

  /** The pages to the end are determined by the listing. */
  lemma {:induction false} EveryPage(server: Server, ends: set<Cursor>, from: Option<Cursor>, one: seq<seq<Item>>,
                                     other: seq<seq<Item>>)
    requires Trail(server, ends, from, one, End) && Trail(server, ends, from, other, End)
    ensures one == other
    decreases |one|
  {
    assert one == [one[0]] + one[1..] && other == [other[0]] + other[1..];
    if server[from].next !in ends {
      EveryPage(server, ends, Some(server[from].next), one[1..], other[1..]);
    }
  }

  lemma {:induction false} TrailSplit(server: Server, ends: set<Cursor>, from: Option<Cursor>, pages: seq<seq<Item>>,
                                      k: nat, mid: Option<Cursor>, to: Position)
    requires k <= |pages| && Trail(server, ends, from, pages[..k], At(mid)) && Trail(server, ends, from, pages, to)
    ensures Trail(server, ends, mid, pages[k..], to)
    decreases k
  {
    if k > 0 {
      var next, head, tail := Some(server[from].next), pages[..k], pages[1..];
      assert Trail(server, ends, next, head[1..], At(mid)) && Trail(server, ends, next, tail, to);
      assert head[1..] == tail[..k - 1] && tail[k - 1..] == pages[k..];
      hide Trail;
      TrailSplit(server, ends, next, tail, k - 1, mid, to);
    } else {
      assert pages[..0] == [] && pages[0..] == pages;
    }
  }

  lemma {:induction false} LoopNeverEnds(server: Server, ends: set<Cursor>, at: Option<Cursor>, loop: seq<seq<Item>>,
                                         all: seq<seq<Item>>)
    requires loop != [] && Trail(server, ends, at, loop, At(at))
    ensures !Trail(server, ends, at, all, End)
    decreases |all|
  {
    if Trail(server, ends, at, all, End) {
      TrailsAgree(server, ends, at, loop, at, all);
      LoopNeverEnds(server, ends, at, loop, all[|loop|..]);
    }
  }

  ghost predicate HasEnd(server: Server, ends: set<Cursor>) {
    exists all :: Trail(server, ends, None, all, End)
  }

  /** A cursor that comes back means the listing never ends. */
  lemma RepeatedNeverEnds(server: Server, ends: set<Cursor>, pages: seq<seq<Item>>, k: nat, c: Cursor)
    requires k < |pages|
    requires Trail(server, ends, None, pages[..k], At(Some(c))) && Trail(server, ends, None, pages, At(Some(c)))
    ensures !HasEnd(server, ends)
  {
    TrailSplit(server, ends, None, pages, k, Some(c), At(Some(c)));
    forall all ensures !Trail(server, ends, None, all, End) {
      if Trail(server, ends, None, all, End) {
        TrailsAgree(server, ends, None, pages[..k], Some(c), all);
        LoopNeverEnds(server, ends, Some(c), pages[k..], all[k..]);
      }
    }
  }

  // ---------------------------------------------------------------- identities

  function Ids(rows: seq<Item>): set<string> {
    set i | 0 <= i < |rows| :: rows[i].id
  }

  ghost predicate Unique(rows: seq<Item>) {
    forall i, j :: 0 <= i < j < |rows| ==> rows[i].id != rows[j].id
  }

  /** The page repeats no id, neither its own nor an earlier one. */
  ghost predicate Fresh(items: seq<Item>, ids: set<string>) {
    Unique(items) && Ids(items) !! ids
  }

  lemma FreshAppended(rows: seq<Item>, items: seq<Item>)
    requires Unique(rows) && Fresh(items, Ids(rows))
    ensures Unique(rows + items) && Ids(rows + items) == Ids(rows) + Ids(items)
  {
    var all := rows + items;
    forall i, j | 0 <= i < j < |all| ensures all[i].id != all[j].id {
      if i < |rows| <= j {
        assert rows[i].id in Ids(rows) && items[j - |rows|].id in Ids(items);
      }
    }
    forall id | id in Ids(rows) + Ids(items) ensures id in Ids(all) {
      if id in Ids(rows) {
        var i :| 0 <= i < |rows| && rows[i].id == id;
        assert all[i].id == id;
      } else {
        var i :| 0 <= i < |items| && items[i].id == id;
        assert all[|rows| + i].id == id;
      }
    }
  }

  method CheckPage(items: seq<Item>, ids: set<string>) returns (ok: bool, here: set<string>)
    ensures ok <==> Fresh(items, ids)
    ensures here == Ids(items)
  {
    here, ok := {}, true;
    for i := 0 to |items|
      invariant here == Ids(items[..i])
      invariant ok <==> Fresh(items[..i], ids)
    {
      var id := items[i].id;
      assert items[..i + 1] == items[..i] + [items[i]];
      OneMoreId(items[..i], items[i], ids);
      ok := ok && id !in here && id !in ids;
      here := here + {id};
    }
    assert items[..|items|] == items;
  }

  lemma OneMoreId(before: seq<Item>, item: Item, ids: set<string>)
    ensures Ids(before + [item]) == Ids(before) + {item.id}
    ensures Fresh(before + [item], ids) <==> Fresh(before, ids) && item.id !in Ids(before) && item.id !in ids
  {
    var all := before + [item];
    assert all[|before|] == item;
    assert forall i :: 0 <= i < |before| ==> all[i] == before[i];
    forall id | id in Ids(before) ensures id in Ids(all) {
      var i :| 0 <= i < |before| && before[i].id == id;
      assert all[i].id == id;
    }
    if Unique(all) {
      forall i | 0 <= i < |before| ensures before[i].id != item.id {
        assert all[i].id != all[|before|].id;
      }
    }
  }

  // ---------------------------------------------------------------- one partition

  datatype Stop = NotStarted | Exhausted | Terminal | Repeated | PageLimit | Failed

  predicate Complete(stop: Stop) {
    stop.Exhausted? || stop.Terminal?
  }

  ghost predicate Refused(server: Server, at: Option<Cursor>, ids: set<string>) {
    at !in server || server[at].Unusable? || !Fresh(server[at].items, ids)
  }

  /** The request fails, or the page repeats one of its own ids or an id of a row taken before. */
  lemma RefusedExactly(server: Server, at: Option<Cursor>, rows: seq<Item>)
    ensures Refused(server, at, Ids(rows)) <==>
      || at !in server || server[at].Unusable?
      || (exists i, j :: 0 <= i < j < |server[at].items| && server[at].items[i].id == server[at].items[j].id)
      || exists i, j :: 0 <= i < |server[at].items| && 0 <= j < |rows| && server[at].items[i].id == rows[j].id
  {
    if at in server && server[at].Page? {
      var items := server[at].items;
      if i, j :| 0 <= i < |items| && 0 <= j < |rows| && items[i].id == rows[j].id {
        assert items[i].id in Ids(items) && rows[j].id in Ids(rows);
      }
      if id :| id in Ids(items) && id in Ids(rows) {
        var i :| 0 <= i < |items| && items[i].id == id;
        var j :| 0 <= j < |rows| && rows[j].id == id;
      }
    }
  }

  /** What a stop reason says about the listing, given the pages taken and the ids taken before and with them. */
  ghost predicate Honest(server: Server, ends: set<Cursor>, pages: seq<seq<Item>>, stop: Stop, cursor: Option<Cursor>,
                         ids: set<string>)
  {
    match stop
    case Exhausted => Trail(server, ends, None, pages, End)
    case Terminal => Trail(server, ends, None, pages, End)
    case Repeated => Trail(server, ends, None, pages, At(cursor)) && !HasEnd(server, ends)
    case PageLimit => Trail(server, ends, None, pages, At(cursor))
    case Failed => Trail(server, ends, None, pages, At(cursor)) && Refused(server, cursor, ids)
    case NotStarted => pages == []
  }

  /** Where each continuation cursor was first handed out. */
  ghost predicate Visited(server: Server, ends: set<Cursor>, pages: seq<seq<Item>>, seen: map<Cursor, nat>) {
    forall c :: c in seen ==> seen[c] <= |pages| && Trail(server, ends, None, pages[..seen[c]], At(Some(c)))
  }

  lemma VisitedLater(server: Server, ends: set<Cursor>, pages: seq<seq<Item>>, seen: map<Cursor, nat>, items: seq<Item>)
    requires Visited(server, ends, pages, seen)
    ensures Visited(server, ends, pages + [items], seen)
  {
    forall c | c in seen
      ensures seen[c] <= |pages| + 1 && Trail(server, ends, None, (pages + [items])[..seen[c]], At(Some(c)))
    {
      assert (pages + [items])[..seen[c]] == pages[..seen[c]];
    }
  }

  /** A new cursor is recorded at the page that handed it out; a known one closes a loop. */
  lemma NextCursor(server: Server, ends: set<Cursor>, pages: seq<seq<Item>>, seen: map<Cursor, nat>, c: Cursor)
    requires Visited(server, ends, pages, seen) && Trail(server, ends, None, pages, At(Some(c)))
    ensures c !in seen ==> Visited(server, ends, pages, seen[c := |pages|])
    ensures c in seen && seen[c] < |pages| ==> !HasEnd(server, ends)
  {
    assert pages[..|pages|] == pages;
    if c in seen && seen[c] < |pages| {
      RepeatedNeverEnds(server, ends, pages, seen[c], c);
    }
  }

  /** One page more: the rows, the trail and the ids after it. */
  lemma PageTaken(server: Server, ends: set<Cursor>, pages: seq<seq<Item>>, at: Option<Cursor>, earlier: seq<Item>)
    requires Trail(server, ends, None, pages, At(at)) && Unique(earlier + Concat(pages))
    requires !Refused(server, at, Ids(earlier + Concat(pages)))
    ensures
      var items := server[at].items;
      && Trail(server, ends, None, pages + [items], After(server[at], ends))
      && earlier + Concat(pages + [items]) == earlier + Concat(pages) + items
      && Unique(earlier + Concat(pages + [items]))
      && Ids(earlier + Concat(pages + [items])) == Ids(earlier + Concat(pages)) + Ids(items)
  {
    var items := server[at].items;
    TrailSnoc(server, ends, None, pages, at);
    FreshAppended(earlier + Concat(pages), items);
    assert (pages + [items])[..|pages|] == pages;
    assert earlier + (Concat(pages) + items) == earlier + Concat(pages) + items;
  }

  /** The rows and ids in hand are the earlier ones and those of the pages, without repetition. */
  ghost predicate InHand(earlier: seq<Item>, pages: seq<seq<Item>>, rows: seq<Item>, ids: set<string>) {
    rows == earlier + Concat(pages) && Unique(rows) && ids == Ids(rows)
  }

  /** The loop stands at a cursor of the chain and remembers every cursor it was handed. */
  ghost predicate Standing(server: Server, ends: set<Cursor>, pages: seq<seq<Item>>, cursor: Option<Cursor>,
                           visits: map<Cursor, nat>)
  {
    Trail(server, ends, None, pages, At(cursor)) && Visited(server, ends, pages, visits)
  }

  lemma LoopStarts(server: Server, ends: set<Cursor>, earlier: seq<Item>)
    requires Unique(earlier)
    ensures Standing(server, ends, [], None, map[]) && InHand(earlier, [], earlier, Ids(earlier))
  {
    assert earlier + Concat([]) == earlier;
  }

  /** Taking a page ends the chain, closes a loop, or moves on to a new cursor. */
  lemma PageAdvances(server: Server, ends: set<Cursor>, pages: seq<seq<Item>>, cursor: Option<Cursor>,
                     visits: map<Cursor, nat>, earlier: seq<Item>, rows: seq<Item>, ids: set<string>)
    requires Standing(server, ends, pages, cursor, visits) && InHand(earlier, pages, rows, ids)
    requires !Refused(server, cursor, ids)
    ensures
      var reply := server[cursor];
      var more, next := pages + [reply.items], Some(reply.next);
      && InHand(earlier, more, rows + reply.items, ids + Ids(reply.items))
      && if reply.next in ends then Trail(server, ends, None, more, End)
         else if reply.next in visits then Trail(server, ends, None, more, At(next)) && !HasEnd(server, ends)
         else Standing(server, ends, more, next, visits[reply.next := |more|])
  {
    var reply := server[cursor];
    var more := pages + [reply.items];
    PageTaken(server, ends, pages, cursor, earlier);
    VisitedLater(server, ends, pages, visits, reply.items);
    assert forall c :: c in visits ==> visits[c] <= |pages|;
    hide Trail, Concat, Unique, Ids, Fresh, Visited, HasEnd;
    if reply.next !in ends {
      NextCursor(server, ends, more, visits, reply.next);
    }
  }

  /** What standing at a cursor lets a stop reason claim. */
  lemma StandingIsHonest(server: Server, ends: set<Cursor>, pages: seq<seq<Item>>, cursor: Option<Cursor>,
                         visits: map<Cursor, nat>, ids: set<string>)
    requires Standing(server, ends, pages, cursor, visits)
    ensures Honest(server, ends, pages, PageLimit, cursor, ids)
    ensures Refused(server, cursor, ids) ==> Honest(server, ends, pages, Failed, cursor, ids)
  {
  }

  // ---------------------------------------------------------------- the trade backfill

  datatype Partition = Partition(instrument: nat, stop: Stop, cursor: Option<Cursor>, pageCount: nat, rowCount: nat)

  datatype Gap = Gap(instrument: nat, fetchError: bool, rowCount: nat)

  /** The page loop of one instrument. Pages are taken whole or not at all. */
  method BackfillPartition(server: Server, maxPages: nat, earlier: seq<Item>, known: set<string>)
    returns (rows: seq<Item>, ids: set<string>, stop: Stop, cursor: Option<Cursor>, pageCount: nat,
             ghost pages: seq<seq<Item>>)
    requires maxPages > 0 && Unique(earlier) && known == Ids(earlier)
    ensures rows == earlier + Concat(pages) && Unique(rows) && ids == Ids(rows)
    ensures Honest(server, TRADE_ENDS, pages, stop, cursor, ids)
    ensures stop in {Exhausted, Repeated, PageLimit, Failed}
    ensures pageCount == |pages| <= maxPages && (stop.PageLimit? ==> pageCount == maxPages)
    ensures stop.Exhausted? <==> cursor.None? && !stop.Failed?
  {
    hide Trail, Concat, Unique, Ids, Fresh, Standing, HasEnd;
    rows, ids, cursor, pageCount, pages := earlier, known, None, 0, [];
    var seen: set<Cursor> := {};
    ghost var visits: map<Cursor, nat> := map[];
    LoopStarts(server, TRADE_ENDS, earlier);
    while true
      invariant Standing(server, TRADE_ENDS, pages, cursor, visits) && InHand(earlier, pages, rows, ids)
      invariant seen == visits.Keys && pageCount == |pages| < maxPages
      decreases maxPages - pageCount
    {
      StandingIsHonest(server, TRADE_ENDS, pages, cursor, visits, ids);
      if cursor !in server || server[cursor].Unusable? {
        stop := Failed;
        return;
      }
      var reply := server[cursor];
      var ok, here := CheckPage(reply.items, ids);
      if !ok {
        stop := Failed;
        return;
      }
      PageAdvances(server, TRADE_ENDS, pages, cursor, visits, earlier, rows, ids);
      pageCount, rows, ids := pageCount + 1, rows + reply.items, ids + here;
      pages := pages + [reply.items];
      cursor := if reply.next == "" then None else Some(reply.next);
      if reply.next == "" {
        stop := Exhausted;
        return;
      }
      if reply.next in seen {
        stop := Repeated;
        return;
      }
      seen, visits := seen + {reply.next}, visits[reply.next := |pages|];
      if pageCount >= maxPages {
        StandingIsHonest(server, TRADE_ENDS, pages, cursor, visits, ids);
        stop := PageLimit;
        return;
      }
    }
  }

  /** The pages of all instruments, in order. */
  function AllRows(trails: seq<seq<seq<Item>>>): seq<Item> {
    if trails == [] then [] else AllRows(trails[..|trails| - 1]) + Concat(trails[|trails| - 1])
  }

  /** A partition record is true of its listing. */
  ghost predicate Recorded(server: Server, ends: set<Cursor>, trails: seq<seq<seq<Item>>>, i: nat, p: Partition)
    requires i < |trails|
  {
    && p.instrument == i && p.rowCount == |Concat(trails[i])|
    && Honest(server, ends, trails[i], p.stop, p.cursor, Ids(AllRows(trails[..i + 1])))
  }

  ghost predicate AllRecorded(servers: seq<Server>, ends: set<Cursor>, trails: seq<seq<seq<Item>>>,
                              partitions: seq<Partition>)
  {
    && |trails| == |partitions| <= |servers|
    && forall i :: 0 <= i < |partitions| ==> Recorded(servers[i], ends, trails, i, partitions[i])
  }

  lemma OneMoreRecorded(servers: seq<Server>, ends: set<Cursor>, trails: seq<seq<seq<Item>>>,
                        partitions: seq<Partition>,
                        pages: seq<seq<Item>>, p: Partition)
    requires AllRecorded(servers, ends, trails, partitions) && |trails| < |servers|
    requires p.instrument == |trails| && p.rowCount == |Concat(pages)|
    requires Honest(servers[|trails|], ends, pages, p.stop, p.cursor, Ids(AllRows(trails) + Concat(pages)))
    ensures AllRecorded(servers, ends, trails + [pages], partitions + [p])
    ensures AllRows(trails + [pages]) == AllRows(trails) + Concat(pages)
  {
    hide Honest, Ids;
    var more := trails + [pages];
    assert more[..|trails|] == trails && more[..|trails| + 1] == more;
    forall i | 0 <= i < |partitions| ensures Recorded(servers[i], ends, more, i, partitions[i]) {
      assert more[..i + 1] == trails[..i + 1];
    }
  }

  function GapsOf(partitions: seq<Partition>): seq<Gap> {
    if partitions == [] then []
    else
      var p := partitions[|partitions| - 1];
      GapsOf(partitions[..|partitions| - 1]) + if Complete(p.stop) then []
        else [Gap(p.instrument, p.stop.Failed?, p.rowCount)]
  }

  /** Exactly one gap row per incomplete partition, in order. */
  lemma {:induction false} GapsAreTheIncomplete(partitions: seq<Partition>)
    requires forall i :: 0 <= i < |partitions| ==> partitions[i].instrument == i
    ensures
      var gaps := GapsOf(partitions);
      && (forall g, h :: 0 <= g < h < |gaps| ==> gaps[g].instrument < gaps[h].instrument)
      && (forall g :: 0 <= g < |gaps| ==>
        gaps[g].instrument < |partitions| && !Complete(partitions[gaps[g].instrument].stop))
      && (forall i :: 0 <= i < |partitions| && !Complete(partitions[i].stop)
            ==> Gap(i, partitions[i].stop.Failed?, partitions[i].rowCount) in gaps)
  {
    if partitions != [] {
      GapsAreTheIncomplete(partitions[..|partitions| - 1]);
    }
  }

  /** The rows and ids in hand are those of all partitions so far. */
  ghost predicate Kept(trails: seq<seq<seq<Item>>>, rows: seq<Item>, ids: set<string>) {
    rows == AllRows(trails) && Unique(rows) && ids == Ids(rows)
  }

  /** A finished partition's page count, within its limit and reaching it when the limit stopped it. */
  predicate PagesCounted(p: Partition, pages: seq<seq<Item>>, maxPages: nat) {
    p.pageCount == |pages| <= maxPages && !p.stop.NotStarted? && (p.stop.PageLimit? ==> p.pageCount == maxPages)
  }

  ghost predicate AllPagesCounted(partitions: seq<Partition>, trails: seq<seq<seq<Item>>>, maxPages: nat) {
    |trails| == |partitions| && forall i :: 0 <= i < |partitions| ==> PagesCounted(partitions[i], trails[i], maxPages)
  }

  lemma OneMoreCounted(partitions: seq<Partition>, trails: seq<seq<seq<Item>>>, maxPages: nat, p: Partition,
                       pages: seq<seq<Item>>)
    requires AllPagesCounted(partitions, trails, maxPages) && PagesCounted(p, pages, maxPages)
    ensures AllPagesCounted(partitions + [p], trails + [pages], maxPages)
  {
  }

  lemma OneMoreGap(partitions: seq<Partition>, p: Partition)
    ensures GapsOf(partitions + [p]) ==
      GapsOf(partitions) + if Complete(p.stop) then [] else [Gap(p.instrument, p.stop.Failed?, p.rowCount)]
  {
    assert (partitions + [p])[..|partitions|] == partitions;
  }

  /**
   * The whole backfill: the rows are the pages of each instrument's cursor chain in order, no id repeats
   * anywhere, and a partition is complete exactly when its pages run to the end of its chain.
   */
  method BackfillTrades(servers: seq<Server>, maxPages: nat)
    returns (rows: seq<Item>, gaps: seq<Gap>, partitions: seq<Partition>, ghost trails: seq<seq<seq<Item>>>)
    requires maxPages > 0
    ensures rows == AllRows(trails) && Unique(rows)
    ensures |partitions| == |servers| && AllRecorded(servers, TRADE_ENDS, trails, partitions)
    ensures AllPagesCounted(partitions, trails, maxPages)
    ensures gaps == GapsOf(partitions)
  {
    rows, gaps, partitions, trails := [], [], [], [];
    var ids: set<string> := {};
    assert Kept(trails, rows, ids);
    hide Honest, Recorded, AllRecorded, Unique, Ids, Concat, AllRows, AllPagesCounted, GapsOf;
    NothingRecorded(servers, TRADE_ENDS, maxPages);
    for k := 0 to |servers|
      invariant Kept(trails, rows, ids) && |partitions| == |trails| == k
      invariant AllRecorded(servers, TRADE_ENDS, trails, partitions) && AllPagesCounted(partitions, trails, maxPages)
      invariant gaps == GapsOf(partitions)
    {
      var start := |rows|;
      var taken, known, stop, cursor, pageCount;
      ghost var pages;
      taken, known, stop, cursor, pageCount, pages := BackfillPartition(servers[k], maxPages, rows, ids);
      var partition := Partition(k, stop, cursor, pageCount, |taken| - start);
      OneMoreRecorded(servers, TRADE_ENDS, trails, partitions, pages, partition);
      OneMoreCounted(partitions, trails, maxPages, partition, pages);
      OneMoreGap(partitions, partition);
      rows, ids := taken, known;
      partitions, trails := partitions + [partition], trails + [pages];
      if !Complete(stop) {
        gaps := gaps + [Gap(k, stop.Failed?, |rows| - start)];
      }
    }
  }

  lemma NothingRecorded(servers: seq<Server>, ends: set<Cursor>, maxPages: nat)
    ensures AllRecorded(servers, ends, [], []) && AllPagesCounted([], [], maxPages) && GapsOf([]) == []
  {
  }

  /**
   * If the chain does end, a partition that is not complete was refused a page or stopped by its limit before
   * the end.
   */
  lemma IncompleteForAReason(servers: seq<Server>, ends: set<Cursor>, trails: seq<seq<seq<Item>>>,
                             partitions: seq<Partition>,
                             i: nat, all: seq<seq<Item>>)
    requires AllRecorded(servers, ends, trails, partitions) && i < |partitions| && !partitions[i].stop.NotStarted?
    requires Trail(servers[i], ends, None, all, End)
    ensures
      var p := partitions[i];
      || Complete(p.stop)
      || (p.stop.Failed? && Refused(servers[i], p.cursor, Ids(AllRows(trails[..i + 1]))) && |trails[i]| < |all|)
      || (p.stop.PageLimit? && |trails[i]| < |all|)
  {
    hide Refused, Ids, AllRows;
    var p, pages := partitions[i], trails[i];
    assert Recorded(servers[i], ends, trails, i, p);
    if !Complete(p.stop) {
      assert !p.stop.Repeated?;
      TrailsAgree(servers[i], ends, None, pages, p.cursor, all);
    }
  }

  /** A recorded partition is complete exactly when it holds the whole chain, which is then unique. */
  lemma CompleteMeansEveryPage(servers: seq<Server>, ends: set<Cursor>, trails: seq<seq<seq<Item>>>,
                               partitions: seq<Partition>, i: nat)
    requires AllRecorded(servers, ends, trails, partitions) && i < |partitions| && !partitions[i].stop.NotStarted?
    ensures Complete(partitions[i].stop) <==> Trail(servers[i], ends, None, trails[i], End)
    ensures Complete(partitions[i].stop) ==> forall all :: Trail(servers[i], ends, None, all, End) <==> all == trails[i]
    ensures partitions[i].stop.Repeated? ==> !HasEnd(servers[i], ends)
  {
    var p, server, pages := partitions[i], servers[i], trails[i];
    assert Recorded(server, ends, trails, i, p);
    if Complete(p.stop) {
      forall all | Trail(server, ends, None, all, End) ensures all == pages {
        EveryPage(server, ends, None, all, pages);
      }
    } else if Trail(server, ends, None, pages, End) {
      TrailsAgree(server, ends, None, pages, p.cursor, pages);
    }
  }

  // ---------------------------------------------------------------- the keyset listing

  /** The cursors a listing knows and the loop has not been handed yet. */
  function Unseen(server: Server, seen: set<Cursor>): set<Option<Cursor>> {
    server.Keys - set c | c in seen :: Some(c)
  }

  lemma FewerUnseen(server: Server, seen: set<Cursor>, c: Cursor)
    requires c !in seen
    ensures Unseen(server, seen + {c}) == Unseen(server, seen) - {Some(c)}
    ensures Some(c) in server ==> Some(c) in Unseen(server, seen)
  {
  }

  /** A page that arrives but repeats an id is counted before it is refused. */
  function RefusedPage(server: Server, stop: Stop, cursor: Option<Cursor>): nat {
    if stop.Failed? && cursor in server && server[cursor].Page? then 1 else 0
  }

  /** The page loop of one partition: no limit of its own, but a page budget shared with the others. */
  method KeysetPartition(server: Server, maxPages: Option<nat>, pagesBefore: nat, earlier: seq<Item>,
                         known: set<string>)
    returns (rows: seq<Item>, ids: set<string>, stop: Stop, cursor: Option<Cursor>, pageCount: nat,
             ghost pages: seq<seq<Item>>)
    requires Unique(earlier) && known == Ids(earlier)
    requires maxPages.Some? ==> pagesBefore <= maxPages.value
    ensures rows == earlier + Concat(pages) && Unique(rows) && ids == Ids(rows)
    ensures Honest(server, KEYSET_ENDS, pages, stop, cursor, ids) && !stop.NotStarted?
    ensures pageCount == |pages| + RefusedPage(server, stop, cursor)
    ensures maxPages.Some? ==> pagesBefore + pageCount <= maxPages.value
    ensures stop.PageLimit? ==> maxPages == Some(pagesBefore + pageCount)
    ensures stop.Terminal? <==> cursor == Some(KEYSET_TERMINAL) && Complete(stop)
  {
    hide Trail, Concat, Unique, Ids, Fresh, Standing, HasEnd, Unseen;
    rows, ids, cursor, pageCount, pages := earlier, known, None, 0, [];
    var seen: set<Cursor> := {};
    ghost var visits: map<Cursor, nat> := map[];
    LoopStarts(server, KEYSET_ENDS, earlier);
    while true
      invariant Standing(server, KEYSET_ENDS, pages, cursor, visits) && InHand(earlier, pages, rows, ids)
      invariant seen == visits.Keys && pageCount == |pages|
      invariant maxPages.Some? ==> pagesBefore + pageCount <= maxPages.value
      invariant cursor.Some? ==> cursor.value in seen
      decreases Unseen(server, seen), if cursor in server then 1 else 0
    {
      StandingIsHonest(server, KEYSET_ENDS, pages, cursor, visits, ids);
      if maxPages.Some? && pagesBefore + pageCount >= maxPages.value {
        stop := PageLimit;
        return;
      }
      if cursor !in server || server[cursor].Unusable? {
        stop := Failed;
        return;
      }
      var reply := server[cursor];
      pageCount := pageCount + 1;
      var ok, here := CheckPage(reply.items, ids);
      if !ok {
        stop := Failed;
        return;
      }
      PageAdvances(server, KEYSET_ENDS, pages, cursor, visits, earlier, rows, ids);
      rows, ids, pages := rows + reply.items, ids + here, pages + [reply.items];
      var previous := cursor;
      cursor := if reply.next == "" then None else Some(reply.next);
      if reply.next == "" {
        stop := Exhausted;
        return;
      }
      if reply.next == KEYSET_TERMINAL {
        stop := Terminal;
        return;
      }
      if previous == cursor || reply.next in seen {
        stop := Repeated;
        return;
      }
      FewerUnseen(server, seen, reply.next);
      seen, visits := seen + {reply.next}, visits[reply.next := |pages|];
    }
  }

  datatype Listing = Listing(rows: seq<Item>, partitions: seq<Partition>, collectionComplete: bool, raised: bool)

  /** Started partitions, all but the last complete, each with the pages it requested. */
  ghost predicate Started(servers: seq<Server>, partitions: seq<Partition>, trails: seq<seq<seq<Item>>>) {
    && |trails| == |partitions| <= |servers|
    && (forall i :: 0 <= i < |partitions| ==> StartedAt(servers[i], partitions[i], trails[i]))
    && forall i :: 0 <= i < |partitions| - 1 ==> Complete(partitions[i].stop)
  }

  predicate StartedAt(server: Server, p: Partition, pages: seq<seq<Item>>) {
    !p.stop.NotStarted? && p.pageCount == |pages| + RefusedPage(server, p.stop, p.cursor)
  }

  /** The pages of all partitions, refused ones included. */
  function TotalPages(partitions: seq<Partition>): nat {
    if partitions == [] then 0
    else TotalPages(partitions[..|partitions| - 1]) + partitions[|partitions| - 1].pageCount
  }

  /**
   * One budget for all partitions: together they take at most `maxPages` pages, and a partition that the limit
   * stopped reached it together with those before it.
   */
  ghost predicate WithinBudget(partitions: seq<Partition>, maxPages: Option<nat>) {
    && (maxPages.Some? ==> TotalPages(partitions) <= maxPages.value)
    && forall i :: 0 <= i < |partitions| && partitions[i].stop.PageLimit? ==>
         maxPages == Some(TotalPages(partitions[..i + 1]))
  }

  lemma OneMoreBudgeted(partitions: seq<Partition>, maxPages: Option<nat>, p: Partition)
    requires WithinBudget(partitions, maxPages)
    requires maxPages.Some? ==> TotalPages(partitions) + p.pageCount <= maxPages.value
    requires p.stop.PageLimit? ==> maxPages == Some(TotalPages(partitions) + p.pageCount)
    ensures WithinBudget(partitions + [p], maxPages)
    ensures TotalPages(partitions + [p]) == TotalPages(partitions) + p.pageCount
  {
    var more := partitions + [p];
    assert more[..|partitions|] == partitions && more[..|more|] == more;
    forall i | 0 <= i < |more| && more[i].stop.PageLimit? ensures maxPages == Some(TotalPages(more[..i + 1])) {
      if i < |partitions| {
        assert more[..i + 1] == partitions[..i + 1];
      }
    }
  }

  lemma {:induction false} UnstartedPages(partitions: seq<Partition>, started: nat)
    requires started <= |partitions|
    requires forall i :: started <= i < |partitions| ==> partitions[i] == Unstarted(i)
    ensures TotalPages(partitions) == TotalPages(partitions[..started])
  {
    if started < |partitions| {
      var front := partitions[..|partitions| - 1];
      assert front[..started] == partitions[..started];
      UnstartedPages(front, started);
    } else {
      assert partitions[..started] == partitions;
    }
  }

  lemma UnstartedBudget(partitions: seq<Partition>, started: nat, maxPages: Option<nat>)
    requires started <= |partitions| && WithinBudget(partitions[..started], maxPages)
    requires forall i :: started <= i < |partitions| ==> partitions[i] == Unstarted(i)
    ensures WithinBudget(partitions, maxPages)
  {
    UnstartedPages(partitions, started);
    forall i | 0 <= i < |partitions| && partitions[i].stop.PageLimit?
      ensures maxPages == Some(TotalPages(partitions[..i + 1]))
    {
      assert partitions[..started][i] == partitions[i];
      assert partitions[..started][..i + 1] == partitions[..i + 1];
    }
  }

  function Unstarted(i: nat): Partition {
    Partition(i, NotStarted, None, 0, 0)
  }

  /** Partitions run in order until one is incomplete. */
  method RunPartitions(servers: seq<Server>, maxPages: Option<nat>)
    returns (rows: seq<Item>, partitions: seq<Partition>, ghost trails: seq<seq<seq<Item>>>)
    ensures rows == AllRows(trails) && Unique(rows)
    ensures AllRecorded(servers, KEYSET_ENDS, trails, partitions) && Started(servers, partitions, trails)
    ensures |partitions| < |servers| ==> partitions != [] && !Complete(partitions[|partitions| - 1].stop)
    ensures WithinBudget(partitions, maxPages)
  {
    rows, partitions, trails := [], [], [];
    var ids: set<string>, total: nat, halted := {}, 0, false;
    NothingRun(servers, maxPages);
    hide RanSoFar;
    while |partitions| < |servers| && !halted
      invariant RanSoFar(servers, maxPages, rows, ids, partitions, trails, total) && |partitions| <= |servers|
      invariant halted <==> partitions != [] && !Complete(partitions[|partitions| - 1].stop)
      decreases |servers| - |partitions|
    {
      var partition;
      partition, rows, ids, trails := RunNext(servers, maxPages, rows, ids, partitions, trails, total);
      partitions, total := partitions + [partition], total + partition.pageCount;
      halted := !Complete(partition.stop);
    }
    RanIsKept(servers, maxPages, rows, ids, partitions, trails, total);
  }

  /** The next partition, within what is left of the budget. */
  method RunNext(servers: seq<Server>, maxPages: Option<nat>, rows: seq<Item>, ids: set<string>,
                 partitions: seq<Partition>, ghost trails: seq<seq<seq<Item>>>, total: nat)
    returns (partition: Partition, rows': seq<Item>, ids': set<string>, ghost trails': seq<seq<seq<Item>>>)
    requires RanSoFar(servers, maxPages, rows, ids, partitions, trails, total) && |partitions| < |servers|
    requires partitions != [] ==> Complete(partitions[|partitions| - 1].stop)
    ensures RanSoFar(servers, maxPages, rows', ids', partitions + [partition], trails', total + partition.pageCount)
  {
    hide RanSoFar, Honest, Unique, Ids, Concat, AllRows, AllRecorded, Started, WithinBudget, RefusedPage;
    var k := |partitions|;
    var stop, cursor, pageCount;
    ghost var pages;
    RanIsKept(servers, maxPages, rows, ids, partitions, trails, total);
    rows', ids', stop, cursor, pageCount, pages := KeysetPartition(servers[k], maxPages, total, rows, ids);
    partition := Partition(k, stop, cursor, pageCount, |rows'| - |rows|);
    OneMoreRan(servers, maxPages, rows, ids, partitions, trails, total, partition, pages);
    trails' := trails + [pages];
  }

  /** What is known of the partitions run so far. */
  ghost predicate RanSoFar(servers: seq<Server>, maxPages: Option<nat>, rows: seq<Item>, ids: set<string>,
                           partitions: seq<Partition>, trails: seq<seq<seq<Item>>>, total: nat)
  {
    && Kept(trails, rows, ids) && AllRecorded(servers, KEYSET_ENDS, trails, partitions)
    && Started(servers, partitions, trails) && WithinBudget(partitions, maxPages) && total == TotalPages(partitions)
  }

  lemma NothingRun(servers: seq<Server>, maxPages: Option<nat>)
    ensures RanSoFar(servers, maxPages, [], {}, [], [], 0)
  {
    NothingRecorded(servers, KEYSET_ENDS, 0);
    NoPages(maxPages);
  }

  lemma RanIsKept(servers: seq<Server>, maxPages: Option<nat>, rows: seq<Item>, ids: set<string>,
                  partitions: seq<Partition>, trails: seq<seq<seq<Item>>>, total: nat)
    requires RanSoFar(servers, maxPages, rows, ids, partitions, trails, total)
    ensures rows == AllRows(trails) && Unique(rows) && ids == Ids(rows)
    ensures AllRecorded(servers, KEYSET_ENDS, trails, partitions) && Started(servers, partitions, trails)
    ensures WithinBudget(partitions, maxPages) && (maxPages.Some? ==> total <= maxPages.value)
  {
    hide AllRecorded, Started, Unique, Ids, AllRows;
  }

  lemma OneMoreRan(servers: seq<Server>, maxPages: Option<nat>, rows: seq<Item>, ids: set<string>,
                   partitions: seq<Partition>, trails: seq<seq<seq<Item>>>, total: nat, p: Partition,
                   pages: seq<seq<Item>>)
    requires RanSoFar(servers, maxPages, rows, ids, partitions, trails, total) && |partitions| < |servers|
    requires partitions != [] ==> Complete(partitions[|partitions| - 1].stop)
    requires var taken := rows + Concat(pages); Unique(taken) && p.rowCount == |taken| - |rows|
    requires p.instrument == |partitions| && !p.stop.NotStarted?
    requires Honest(servers[|partitions|], KEYSET_ENDS, pages, p.stop, p.cursor, Ids(rows + Concat(pages)))
    requires p.pageCount == |pages| + RefusedPage(servers[|partitions|], p.stop, p.cursor)
    requires maxPages.Some? ==> total + p.pageCount <= maxPages.value
    requires p.stop.PageLimit? ==> maxPages == Some(total + p.pageCount)
    ensures RanSoFar(servers, maxPages, rows + Concat(pages), Ids(rows + Concat(pages)), partitions + [p],
                     trails + [pages], total + p.pageCount)
  {
    hide Honest, Unique, Ids, Concat, AllRows, Recorded, RefusedPage, TotalPages, WithinBudget;
    assert |trails| == |partitions|;
    OneMoreRecorded(servers, KEYSET_ENDS, trails, partitions, pages, p);
    OneMoreStarted(servers, partitions, trails, p, pages);
    OneMoreBudgeted(partitions, maxPages, p);
    hide AllRecorded, Started;
  }

  lemma NoPages(maxPages: Option<nat>)
    ensures WithinBudget([], maxPages) && TotalPages([]) == 0
  {
  }

  lemma OneMoreStarted(servers: seq<Server>, partitions: seq<Partition>, trails: seq<seq<seq<Item>>>, p: Partition,
                       pages: seq<seq<Item>>)
    requires Started(servers, partitions, trails) && |partitions| < |servers|
    requires partitions != [] ==> Complete(partitions[|partitions| - 1].stop)
    requires StartedAt(servers[|partitions|], p, pages)
    ensures Started(servers, partitions + [p], trails + [pages])
  {
  }

  /** The listing: started partitions first, the others never started, and completeness claimed only for all of them. */
  method IngestKeyset(servers: seq<Server>, maxPages: Option<nat>)
    returns (listing: Listing, ghost trails: seq<seq<seq<Item>>>, ghost started: nat)
    ensures listing.rows == AllRows(trails) && Unique(listing.rows)
    ensures started <= |listing.partitions| == |servers|
    ensures Started(servers, listing.partitions[..started], trails)
    ensures AllRecorded(servers, KEYSET_ENDS, trails, listing.partitions[..started])
    ensures forall i :: started <= i < |servers| ==> listing.partitions[i] == Unstarted(i)
    ensures started < |servers| ==> started > 0 && !Complete(listing.partitions[started - 1].stop)
    ensures listing.collectionComplete <==> forall i :: 0 <= i < |servers| ==> Complete(listing.partitions[i].stop)
    ensures listing.raised <==> started > 0 && listing.partitions[started - 1].stop.Failed?
    ensures WithinBudget(listing.partitions, maxPages)
  {
    var rows, ran;
    rows, ran, trails := RunPartitions(servers, maxPages);
    started := |ran|;
    var raised := ran != [] && ran[|ran| - 1].stop.Failed?;
    var complete := |ran| == |servers| && (ran == [] || Complete(ran[|ran| - 1].stop));
    assert complete <==> |ran| == |servers| && forall i :: 0 <= i < |ran| ==> Complete(ran[i].stop);
    hide AllRecorded, AllRows, Unique, Started;
    var partitions := ran;
    while |partitions| < |servers|
      invariant |ran| <= |partitions| <= |servers| && partitions[..|ran|] == ran
      invariant forall i :: |ran| <= i < |partitions| ==> partitions[i] == Unstarted(i)
    {
      partitions := partitions + [Unstarted(|partitions|)];
    }
    assert forall i :: 0 <= i < |ran| ==> partitions[i] == partitions[..|ran|][i];
    UnstartedBudget(partitions, |ran|, maxPages);
    listing := Listing(rows, partitions, complete, raised);
  }
}
