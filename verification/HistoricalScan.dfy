/** Historical market collection: one scan, chains of resumed segments, and the rollback of a failed segment. */
module HistoricalScan {
  import opened Outcomes

  type Cursor = string

  /** `settled` is None when the market's settlement time does not parse. */
  datatype Market = Market(key: string, settled: Option<int>)

  datatype Reply = Page(markets: seq<Market>, next: Option<Cursor>) | Malformed

  /** What the venue answers at each cursor, for one page limit and one filter. Other requests fail. */
  type Server = map<Option<Cursor>, Reply>

  datatype Fault = RequestFailed | BadPage | BadSettlement | CursorRepeated | CutoffMovedBack | KeysInvalid

  datatype Segment = Segment(rows: seq<Market>, dropped: nat, pages: nat, final: Option<Cursor>, exhausted: bool)

  predicate Timed(markets: seq<Market>) {
    forall i :: 0 <= i < |markets| ==> markets[i].settled.Some?
  }

  /** Markets settled strictly before the frozen cutoff. */
  function Retained(asOf: int, markets: seq<Market>): (kept: seq<Market>)
    requires Timed(markets)
    ensures |kept| <= |markets|
  {
    if markets == [] then []
    else
      var last := markets[|markets| - 1];
      Retained(asOf, markets[..|markets| - 1]) + if last.settled.value < asOf then [last] else []
  }

  /** How often the filter keeps a market. */
  function KeptTimes(asOf: int, markets: seq<Market>, m: Market): nat {
    if m.settled.Some? && m.settled.value < asOf then multiset(markets)[m] else 0
  }

  /** The filter keeps exactly the earlier markets, as often as they occur. */
  lemma {:induction false} KeepsTheEarlier(asOf: int, markets: seq<Market>, m: Market)
    requires Timed(markets)
    ensures multiset(Retained(asOf, markets))[m] == KeptTimes(asOf, markets, m)
  {
    if markets != [] {
      var front, last := markets[..|markets| - 1], markets[|markets| - 1];
      KeepsTheEarlier(asOf, front, m);
      assert markets == front + [last];
      RetainedLast(asOf, front, last);
      hide Retained, Timed, KeptTimes;
      var more := if last.settled.value < asOf then [last] else [];
      CountJoined(Retained(asOf, front), more, m);
      KeptOnce(asOf, front, last, m);
    }
  }

  lemma RetainedLast(asOf: int, front: seq<Market>, last: Market)
    requires Timed(front) && last.settled.Some?
    ensures Timed(front + [last])
    ensures Retained(asOf, front + [last]) == Retained(asOf, front) + if last.settled.value < asOf then [last] else []
  {
    assert (front + [last])[..|front|] == front;
  }

  lemma KeptOnce(asOf: int, front: seq<Market>, last: Market, m: Market)
    requires last.settled.Some?
    ensures KeptTimes(asOf, front + [last], m)
      == KeptTimes(asOf, front, m) + multiset(if last.settled.value < asOf then [last] else [])[m]
  {
    CountJoined(front, [last], m);
  }

  lemma CountJoined(a: seq<Market>, b: seq<Market>, m: Market)
    ensures multiset(a + b)[m] == multiset(a)[m] + multiset(b)[m]
  {
  }

  lemma {:induction false} RetainedJoins(asOf: int, a: seq<Market>, b: seq<Market>)
    requires Timed(a) && Timed(b)
    ensures Timed(a + b) && Retained(asOf, a + b) == Retained(asOf, a) + Retained(asOf, b)
  {
    if b == [] {
      assert a + b == a;
    } else {
      var n := |b| - 1;
      var all, front, last := a + b, b[..n], b[n];
      assert all[..|all| - 1] == a + front && all[|all| - 1] == last;
      assert Timed(all);
      var kept := if last.settled.value < asOf then [last] else [];
      assert Retained(asOf, all) == Retained(asOf, a + front) + kept;
      assert Retained(asOf, b) == Retained(asOf, front) + kept;
      RetainedJoins(asOf, a, front);
      hide *;
    }
  }

  /** The answer at a cursor, if a scan can go on from it. */
  function Readable(server: Server, at: Option<Cursor>): Result<Reply, Fault> {
    if at !in server then Err(RequestFailed)
    else if server[at].Malformed? then Err(BadPage)
    else if !Timed(server[at].markets) then Err(BadSettlement)
    else Ok(server[at])
  }

  function Unseen(server: Server, seen: set<Cursor>): set<Option<Cursor>> {
    server.Keys - set c | c in seen :: Some(c)
  }

  function Prepend(asOf: int, markets: seq<Market>, rest: Segment): Segment
    requires Timed(markets)
  {
    var kept := Retained(asOf, markets);
    Segment(kept + rest.rows, |markets| - |kept| + rest.dropped, rest.pages + 1, rest.final, rest.exhausted)
  }

  /** The pages from one cursor on: at most `budget` of them, or all when there is no budget. */
  function Scan(server: Server, asOf: int, at: Option<Cursor>, seen: set<Cursor>,
                budget: Option<nat>): Result<Segment, Fault>
    decreases Unseen(server, seen), if at in server then 1 else 0
  {
    if budget == Some(0) then Ok(Segment([], 0, 0, at, false))
    else
      var page :- Readable(server, at);
      if page.next.None? then Ok(Prepend(asOf, page.markets, Segment([], 0, 0, None, true)))
      else if page.next.value in seen then Err(CursorRepeated)
      else
        assert page.next in server ==> page.next in Unseen(server, seen);
        var rest :- Scan(server, asOf, page.next, seen + {page.next.value},
            if budget.Some? then Some(budget.value - 1) else None);
        Ok(Prepend(asOf, page.markets, rest))
  }

  /** The markets of the next `n` pages of the cursor chain. */
  function Listed(server: Server, at: Option<Cursor>, n: nat): seq<Market>
    decreases n
  {
    if n == 0 || Readable(server, at).Err? then []
    else
      var page := Readable(server, at).value;
      page.markets + if page.next.None? then [] else Listed(server, page.next, n - 1)
  }

  /** The segment's rows are those markets that pass the filter, and its dropped count is the rest. */
  ghost predicate Filtered(asOf: int, all: seq<Market>, s: Segment) {
    Timed(all) && s.rows == Retained(asOf, all) && s.dropped == |all| - |s.rows|
  }

  lemma PrependFiltered(asOf: int, markets: seq<Market>, all: seq<Market>, rest: Segment)
    requires Timed(markets) && Filtered(asOf, all, rest)
    ensures Filtered(asOf, markets + all, Prepend(asOf, markets, rest))
  {
    RetainedJoins(asOf, markets, all);
    hide Retained, Timed;
  }

  /** One more page in front of the pages a scan read. */
  lemma OneMorePage(server: Server, asOf: int, at: Option<Cursor>, rest: Segment)
    requires Readable(server, at).Ok?
    requires var next := Readable(server, at).value.next; Filtered(asOf, if next.None? then []
      else Listed(server, next, rest.pages), rest)
    ensures
      var s := Prepend(asOf, Readable(server, at).value.markets, rest);
      Filtered(asOf, Listed(server, at, s.pages), s)
  {
    var page := Readable(server, at).value;
    var more := if page.next.None? then [] else Listed(server, page.next, rest.pages);
    assert Listed(server, at, rest.pages + 1) == page.markets + more;
    hide Filtered, Listed, Retained;
    PrependFiltered(asOf, page.markets, more, rest);
  }

  /** A scan's rows are the filtered concatenation of the pages it read, and the dropped count is the rest. */
  lemma {:induction false} ScanReadsPages(server: Server, asOf: int, at: Option<Cursor>, seen: set<Cursor>,
                                          budget: Option<nat>)
    requires Scan(server, asOf, at, seen, budget).Ok?
    ensures
      var s := Scan(server, asOf, at, seen, budget).value;
      Filtered(asOf, Listed(server, at, s.pages), s)
    decreases Unseen(server, seen), if at in server then 1 else 0
  {
    if budget == Some(0) {
      assert Listed(server, at, 0) == [];
    } else {
      NothingFiltered(asOf);
      hide Filtered, Listed, Prepend;
      var page := Readable(server, at).value;
      if page.next.None? {
        OneMorePage(server, asOf, at, Segment([], 0, 0, None, true));
      } else {
        var left := if budget.Some? then Some(budget.value - 1) else None;
        assert page.next in server ==> page.next in Unseen(server, seen);
        ScanReadsPages(server, asOf, page.next, seen + {page.next.value}, left);
        OneMorePage(server, asOf, at, Scan(server, asOf, page.next, seen + {page.next.value}, left).value);
      }
    }
  }

  lemma NothingFiltered(asOf: int)
    ensures Filtered(asOf, [], Segment([], 0, 0, None, true))
  {
  }

  function StartSeen(at: Option<Cursor>): set<Cursor> {
    if at.Some? then {at.value} else {}
  }

  /** Market keys are present and unique within one output file. */
  predicate KeysValid(rows: seq<Market>) {
    && (forall i :: 0 <= i < |rows| ==> rows[i].key != "")
    && forall i, j :: 0 <= i < j < |rows| ==> rows[i].key != rows[j].key
  }

  /** A run of the command: its page budget, and the cutoffs the venue reported before and after. */
  datatype Attempt = Attempt(budget: Option<nat>, before: int, after: int)

  function Collect(server: Server, asOf: int, at: Option<Cursor>, attempt: Attempt): Result<Segment, Fault> {
    if attempt.before < asOf then Err(CutoffMovedBack)
    else
      var segment :- Scan(server, asOf, at, StartSeen(at), attempt.budget);
      if attempt.after < asOf then Err(CutoffMovedBack)
      else if !KeysValid(segment.rows) then Err(KeysInvalid)
      else Ok(segment)
  }

  function Joined(a: Segment, b: Segment): Segment {
    Segment(a.rows + b.rows, a.dropped + b.dropped, a.pages + b.pages, b.final, b.exhausted)
  }

  lemma JoinedAssociates(a: Segment, b: Segment, c: Segment)
    ensures Joined(a, Joined(b, c)) == Joined(Joined(a, b), c)
  {
    assert a.rows + (b.rows + c.rows) == (a.rows + b.rows) + c.rows;
  }

  lemma PartKeysValid(a: seq<Market>, b: seq<Market>, c: seq<Market>)
    requires KeysValid(a + b + c)
    ensures KeysValid(b)
  {
    var all := a + b + c;
    assert forall i :: 0 <= i < |b| ==> b[i] == all[|a| + i];
  }

  /** Everything from a resumable cursor on. */
  function Onward(server: Server, asOf: int, at: Option<Cursor>): Result<Segment, Fault> {
    Scan(server, asOf, at, StartSeen(at), None)
  }

  const NOTHING := Segment([], 0, 0, None, false)

  /** Segments resumed one from another; resuming a finished chain is refused and changes nothing. */
  function Chain(server: Server, asOf: int, sofar: Segment, attempts: seq<Attempt>): Result<Segment, Fault>
    decreases |attempts|
  {
    if attempts == [] || sofar.exhausted then Ok(sofar)
    else
      var segment :- Collect(server, asOf, sofar.final, attempts[0]);
      Chain(server, asOf, Joined(sofar, segment), attempts[1..])
  }

  // ---------------------------------------------------------------- the command

  /** One page's markets: those settled before the cutoff are kept, the others counted. */
  method FilterPage(asOf: int, markets: seq<Market>) returns (kept: seq<Market>, dropped: nat, timed: bool)
    ensures timed <==> Timed(markets)
    ensures timed ==> kept == Retained(asOf, markets) && dropped == |markets| - |kept|
  {
    kept, dropped := [], 0;
    for i := 0 to |markets|
      invariant Timed(markets[..i]) && kept == Retained(asOf, markets[..i]) && dropped == i - |kept|
    {
      var market := markets[i];
      if market.settled.None? {
        return kept, dropped, false;
      }
      assert markets[..i + 1][..i] == markets[..i];
      if market.settled.value < asOf {
        kept := kept + [market];
      } else {
        dropped := dropped + 1;
      }
    }
    assert markets[..|markets|] == markets;
    timed := true;
  }

  /** What the pages still to come add to those already taken. */
  function Continued(sofar: Segment, rest: Result<Segment, Fault>): Result<Segment, Fault> {
    match rest
    case Ok(segment) => Ok(Joined(sofar, segment))
    case Err(fault) => Err(fault)
  }

  lemma PageTaken(server: Server, asOf: int, at: Option<Cursor>, seen: set<Cursor>, left: Option<nat>, sofar: Segment)
    requires left != Some(0) && Readable(server, at).Ok?
    ensures
      var page := Readable(server, at).value;
      var kept := Retained(asOf, page.markets);
      var taken := Segment(sofar.rows + kept, sofar.dropped + |page.markets| - |kept|, sofar.pages + 1, page.next,
          page.next.None?);
      var left' := if left.Some? then Some(left.value - 1) else None;
      Continued(sofar, Scan(server, asOf, at, seen, left)) ==
        if page.next.None? then Ok(taken)
        else if page.next.value in seen then Err(CursorRepeated)
        else Continued(taken, Scan(server, asOf, page.next, seen + {page.next.value}, left'))
  {
    var page := Readable(server, at).value;
    var kept := Retained(asOf, page.markets);
    assert sofar.rows + (kept + []) == sofar.rows + kept;
    if page.next.Some? && page.next.value !in seen {
      var left' := if left.Some? then Some(left.value - 1) else None;
      assert page.next in server ==> page.next in Unseen(server, seen);
      var rest := Scan(server, asOf, page.next, seen + {page.next.value}, left');
      if rest.Ok? {
        assert sofar.rows + (kept + rest.value.rows) == (sofar.rows + kept) + rest.value.rows;
      }
    }
  }

  /** Nothing more is read when the budget is spent or the page cannot be used. */
  lemma ScanStops(server: Server, asOf: int, at: Option<Cursor>, seen: set<Cursor>, left: Option<nat>, sofar: Segment)
    requires sofar.final == at && !sofar.exhausted
    ensures left == Some(0) ==> Continued(sofar, Scan(server, asOf, at, seen, left)) == Ok(sofar)
    ensures left != Some(0) && Readable(server, at).Err? ==>
      Continued(sofar, Scan(server, asOf, at, seen, left)) == Err(Readable(server, at).error)
  {
    assert sofar.rows + [] == sofar.rows;
  }

  lemma NothingSofar(scan: Result<Segment, Fault>)
    ensures Continued(NOTHING, scan) == scan
  {
    if scan.Ok? {
      assert [] + scan.value.rows == scan.value.rows;
    }
  }

  /** The page loop. */
  method ScanPages(server: Server, asOf: int, start: Option<Cursor>, budget: Option<nat>)
    returns (out: Result<Segment, Fault>)
    ensures out == Scan(server, asOf, start, StartSeen(start), budget)
  {
    hide Scan, Continued, Retained;
    var cursor, seen := start, StartSeen(start);
    var rows, dropped, pages := [], 0, 0;
    var left := budget;
    ghost var whole := Scan(server, asOf, start, seen, left);
    NothingSofar(whole);
    assert NOTHING == Segment(rows, dropped, pages, None, false);
    ScanStart(server, asOf, start, seen, left);
    while left != Some(0)
      invariant whole == Continued(Segment(rows, dropped, pages, cursor, false), Scan(server, asOf, cursor, seen, left))
      decreases Unseen(server, seen), if cursor in server then 1 else 0
    {
      ghost var sofar := Segment(rows, dropped, pages, cursor, false);
      ScanStops(server, asOf, cursor, seen, left, sofar);
      if cursor !in server {
        return Err(RequestFailed);
      }
      var page := server[cursor];
      if page.Malformed? {
        return Err(BadPage);
      }
      var kept, late, timed := FilterPage(asOf, page.markets);
      if !timed {
        return Err(BadSettlement);
      }
      PageTaken(server, asOf, cursor, seen, left, sofar);
      rows, dropped, pages := rows + kept, dropped + late, pages + 1;
      if page.next.None? {
        return Ok(Segment(rows, dropped, pages, None, true));
      }
      if page.next.value in seen {
        return Err(CursorRepeated);
      }
      assert page.next in server ==> page.next in Unseen(server, seen);
      cursor, seen := page.next, seen + {page.next.value};
      left := if left.Some? then Some(left.value - 1) else None;
    }
    ScanStops(server, asOf, cursor, seen, left, Segment(rows, dropped, pages, cursor, false));
    out := Ok(Segment(rows, dropped, pages, cursor, false));
  }

  /** The cursor a scan starts from is irrelevant to what it adds. */
  lemma ScanStart(server: Server, asOf: int, start: Option<Cursor>, seen: set<Cursor>, left: Option<nat>)
    ensures Continued(NOTHING, Scan(server, asOf, start, seen, left))
         == Continued(NOTHING.(final := start), Scan(server, asOf, start, seen, left))
  {
  }

  /** One run of the command up to its output file: cutoff checks around the scan, key check after it. */
  method CollectSegment(server: Server, asOf: int, start: Option<Cursor>, attempt: Attempt)
    returns (out: Result<Segment, Fault>)
    ensures out == Collect(server, asOf, start, attempt)
  {
    if attempt.before < asOf {
      return Err(CutoffMovedBack);
    }
    var segment :- ScanPages(server, asOf, start, attempt.budget);
    if attempt.after < asOf {
      return Err(CutoffMovedBack);
    }
    if !KeysValid(segment.rows) {
      return Err(KeysInvalid);
    }
    out := Ok(segment);
  }

  // ---------------------------------------------------------------- why a run ends as it does

  /** Following the continuation cursors over usable pages, to cursors not met before. */
  ghost predicate Walk(server: Server, at: Option<Cursor>, seen: set<Cursor>, path: seq<Option<Cursor>>) {
    && path != [] && path[0] == at
    && (forall i :: 0 <= i < |path| - 1 ==> Usable(server, path[i]) && server[path[i]].next == path[i + 1])
    && (forall i :: 0 < i < |path| ==> path[i].Some? && path[i].value !in seen)
    && forall i, j :: 0 < i < j < |path| ==> path[i] != path[j]
  }

  /** The venue answers with a page all of whose markets have a settlement time. */
  predicate Usable(server: Server, at: Option<Cursor>) {
    && at in server && server[at].Page?
    && forall i :: 0 <= i < |server[at].markets| ==> server[at].markets[i].settled.Some?
  }

  /** The cursor was met on the way. */
  predicate Met(seen: set<Cursor>, path: seq<Option<Cursor>>, c: Cursor) {
    c in seen || exists i :: 0 < i < |path| && path[i] == Some(c)
  }

  /** What the end of the walk decides: the budget, an unusable answer, the end of the listing or a repeated cursor. */
  ghost predicate WalkEnds(server: Server, seen: set<Cursor>, path: seq<Option<Cursor>>, budget: Option<nat>,
                           out: Result<Segment, Fault>)
    requires path != []
  {
    var last, read := path[|path| - 1], |path| - 1;
    && (budget.Some? ==> read <= budget.value)
    && if budget == Some(read) then
         out.Ok? && !out.value.exhausted && out.value.final == last && out.value.pages == read
       else if last !in server then out == Err(RequestFailed)
       else if server[last].Malformed? then out == Err(BadPage)
       else if !Usable(server, last) then out == Err(BadSettlement)
       else if server[last].next.None? then
         out.Ok? && out.value.exhausted && out.value.final.None? && out.value.pages == read + 1
       else Met(seen, path, server[last].next.value) && out == Err(CursorRepeated)
  }

  lemma {:induction false} ScanWalks(server: Server, asOf: int, at: Option<Cursor>, seen: set<Cursor>,
                                     budget: Option<nat>) returns (path: seq<Option<Cursor>>)
    ensures Walk(server, at, seen, path)
    ensures WalkEnds(server, seen, path, budget, Scan(server, asOf, at, seen, budget))
    decreases Unseen(server, seen), if at in server then 1 else 0
  {
    path := [at];
    if budget != Some(0) && Readable(server, at).Ok? {
      var next := Readable(server, at).value.next;
      if next.Some? && next.value !in seen {
        var left := if budget.Some? then Some(budget.value - 1) else None;
        assert next in server ==> next in Unseen(server, seen);
        var rest := ScanWalks(server, asOf, next, seen + {next.value}, left);
        path := [at] + rest;
        OneStepMore(server, asOf, at, seen, budget, rest);
      }
    }
  }

  lemma OneStepMore(server: Server, asOf: int, at: Option<Cursor>, seen: set<Cursor>, budget: Option<nat>,
                    rest: seq<Option<Cursor>>)
    requires budget != Some(0) && Readable(server, at).Ok?
    requires var next := Readable(server, at).value.next; next.Some? && next.value !in seen
    requires
      var next := Readable(server, at).value.next;
      var left := if budget.Some? then Some(budget.value - 1) else None;
      && Walk(server, next, seen + {next.value}, rest)
      && WalkEnds(server, seen + {next.value}, rest, left, Scan(server, asOf, next, seen + {next.value}, left))
    ensures Walk(server, at, seen, [at] + rest)
    ensures WalkEnds(server, seen, [at] + rest, budget, Scan(server, asOf, at, seen, budget))
  {
    var path, next := [at] + rest, Readable(server, at).value.next;
    assert forall i :: 0 <= i < |rest| ==> path[i + 1] == rest[i];
    assert path[1] == next;
    forall i | 0 < i < |path| ensures path[i].Some? && path[i].value !in seen {
      assert path[i] == rest[i - 1];
    }
    forall i, j | 0 < i < j < |path| ensures path[i] != path[j] {
      assert path[i] == rest[i - 1] && path[j] == rest[j - 1];
    }
    forall c | Met(seen + {next.value}, rest, c) ensures Met(seen, path, c) {
      if c == next.value {
        assert path[1] == Some(c);
      } else if c !in seen {
        var i :| 0 < i < |rest| && rest[i] == Some(c);
        assert path[i + 1] == Some(c);
      }
    }
  }

  /** A row without a key, or two rows with one key. */
  ghost predicate BadKeys(rows: seq<Market>) {
    || (exists m :: m in rows && m.key == "")
    || exists i, j :: 0 <= i < j < |rows| && rows[i].key == rows[j].key
  }

  /**
   * When a run is refused, and for which reason: the cutoff the venue reports before or after the scan lies before
   * the frozen one, the walk ends in an unusable answer or a repeated cursor, or the retained rows have a bad key.
   * Otherwise it succeeds.
   */
  lemma RunEndsForAReason(server: Server, asOf: int, at: Option<Cursor>, attempt: Attempt)
      returns (path: seq<Option<Cursor>>, scan: Result<Segment, Fault>)
    ensures Walk(server, at, StartSeen(at), path) && WalkEnds(server, StartSeen(at), path, attempt.budget, scan)
    ensures scan.Ok? ==> Filtered(asOf, Listed(server, at, scan.value.pages), scan.value)
    ensures Collect(server, asOf, at, attempt) ==
      if attempt.before < asOf then Err(CutoffMovedBack)
      else if scan.Err? then scan
      else if attempt.after < asOf then Err(CutoffMovedBack)
      else if BadKeys(scan.value.rows) then Err(KeysInvalid)
      else scan
  {
    path := ScanWalks(server, asOf, at, StartSeen(at), attempt.budget);
    scan := Scan(server, asOf, at, StartSeen(at), attempt.budget);
    if scan.Ok? {
      ScanReadsPages(server, asOf, at, StartSeen(at), attempt.budget);
      var rows := scan.value.rows;
      assert KeysValid(rows) <==> !BadKeys(rows) by {
        assert forall i :: 0 <= i < |rows| ==> rows[i] in rows;
      }
    }
    hide Scan;
  }

  // ---------------------------------------------------------------- a chain has the rows of one scan

  lemma {:induction false} FewerSeen(server: Server, asOf: int, at: Option<Cursor>, seen: set<Cursor>,
                                     less: set<Cursor>, budget: Option<nat>)
    requires less <= seen && Scan(server, asOf, at, seen, budget).Ok?
    ensures Scan(server, asOf, at, less, budget) == Scan(server, asOf, at, seen, budget)
    decreases Unseen(server, seen), if at in server then 1 else 0
  {
    if budget != Some(0) {
      var page := Readable(server, at).value;
      if page.next.Some? {
        var n := page.next.value;
        assert page.next in server ==> page.next in Unseen(server, seen);
        FewerSeen(server, asOf, page.next, seen + {n}, less + {n},
            if budget.Some? then Some(budget.value - 1) else None);
      }
    }
  }

  lemma PrependJoined(asOf: int, markets: seq<Market>, a: Segment, b: Segment)
    requires Timed(markets)
    ensures Prepend(asOf, markets, Joined(a, b)) == Joined(Prepend(asOf, markets, a), b)
  {
    var kept := Retained(asOf, markets);
    assert kept + (a.rows + b.rows) == (kept + a.rows) + b.rows;
  }

  /** A bounded scan yields the first pages of the whole one, and its cursor leads to the rest. */
  lemma {:induction false} BoundedIsPrefix(server: Server, asOf: int, at: Option<Cursor>, seen: set<Cursor>,
                                           budget: nat)
    requires Scan(server, asOf, at, seen, None).Ok?
    requires if at.Some? then at.value in seen else budget > 0
    ensures Scan(server, asOf, at, seen, Some(budget)).Ok?
    ensures
      var whole, part := Scan(server, asOf, at, seen, None).value, Scan(server, asOf, at, seen, Some(budget)).value;
      if part.exhausted then part == whole && whole.pages <= budget
      else part.final.Some? && part.pages == budget < whole.pages
           && Onward(server, asOf, part.final).Ok?
           && whole == Joined(part, Onward(server, asOf, part.final).value)
    decreases budget
  {
    var whole := Scan(server, asOf, at, seen, None).value;
    ScanHasPages(server, asOf, at, seen);
    if budget == 0 {
      FewerSeen(server, asOf, at, seen, StartSeen(at), None);
      assert [] + whole.rows == whole.rows;
    } else {
      var page := Readable(server, at).value;
      if page.next.Some? {
        var n := page.next.value;
        BoundedIsPrefix(server, asOf, page.next, seen + {n}, budget - 1);
        var part := Scan(server, asOf, page.next, seen + {n}, Some(budget - 1)).value;
        if !part.exhausted {
          PrependJoined(asOf, page.markets, part, Onward(server, asOf, part.final).value);
        }
      }
    }
  }

  lemma {:induction false} ScanHasPages(server: Server, asOf: int, at: Option<Cursor>, seen: set<Cursor>)
    requires Scan(server, asOf, at, seen, None).Ok?
    ensures Scan(server, asOf, at, seen, None).value.exhausted && Scan(server, asOf, at, seen, None).value.pages > 0
    decreases Unseen(server, seen), if at in server then 1 else 0
  {
    var page := Readable(server, at).value;
    if page.next.Some? {
      assert page.next in server ==> page.next in Unseen(server, seen);
      ScanHasPages(server, asOf, page.next, seen + {page.next.value});
    }
  }

  /** `max_pages` is at least one. */
  predicate BudgetsPositive(attempts: seq<Attempt>) {
    forall i :: 0 <= i < |attempts| ==> attempts[i].budget != Some(0)
  }

  predicate CutoffsHold(asOf: int, attempts: seq<Attempt>) {
    forall i :: 0 <= i < |attempts| ==> asOf <= attempts[i].before && asOf <= attempts[i].after
  }

  /** Together the attempts may read this many pages. */
  predicate Enough(attempts: seq<Attempt>, pages: int) {
    pages <= 0 || (attempts != []
      && (attempts[0].budget.None? || Enough(attempts[1..], pages - attempts[0].budget.value)))
  }

  lemma {:induction false} ChainFollows(server: Server, asOf: int, sofar: Segment, attempts: seq<Attempt>,
                                        whole: Segment)
    requires !sofar.exhausted && BudgetsPositive(attempts) && CutoffsHold(asOf, attempts)
    requires Onward(server, asOf, sofar.final).Ok?
    requires whole == Joined(sofar, Onward(server, asOf, sofar.final).value)
    requires KeysValid(whole.rows)
    ensures Chain(server, asOf, sofar, attempts).Ok?
    ensures
      var t := Chain(server, asOf, sofar, attempts).value;
      && (t.exhausted <==> Enough(attempts, whole.pages - sofar.pages))
      && (t.exhausted ==> t == whole)
      && t.rows <= whole.rows && t.dropped <= whole.dropped && t.pages <= whole.pages
    decreases |attempts|
  {
    var at := sofar.final;
    var rest := Onward(server, asOf, at).value;
    ScanHasPages(server, asOf, at, StartSeen(at));
    if attempts != [] {
      var first := attempts[0];
      var part := FirstSegment(server, asOf, sofar, first);
      if part.exhausted {
        PartKeysValid(sofar.rows, part.rows, []);
        assert sofar.rows + part.rows + [] == whole.rows;
      } else {
        var more := Onward(server, asOf, part.final).value;
        JoinedAssociates(sofar, part, more);
        PartKeysValid(sofar.rows, part.rows, more.rows);
        hide Scan, KeysValid, Onward;
        ChainFollows(server, asOf, Joined(sofar, part), attempts[1..], whole);
      }
    }
  }

  /** The next segment of a chain whose remaining pages can be read: a part of them, or all. */
  lemma FirstSegment(server: Server, asOf: int, sofar: Segment, first: Attempt) returns (part: Segment)
    requires first.budget != Some(0) && Onward(server, asOf, sofar.final).Ok?
    ensures Scan(server, asOf, sofar.final, StartSeen(sofar.final), first.budget) == Ok(part)
    ensures
      var rest := Onward(server, asOf, sofar.final).value;
      if part.exhausted then part == rest && (first.budget.Some? ==> rest.pages <= first.budget.value)
      else first.budget.Some? && part.pages == first.budget.value < rest.pages && part.final.Some?
           && Onward(server, asOf, part.final).Ok? && rest == Joined(part, Onward(server, asOf, part.final).value)
  {
    var at := sofar.final;
    ScanHasPages(server, asOf, at, StartSeen(at));
    if first.budget.Some? {
      BoundedIsPrefix(server, asOf, at, StartSeen(at), first.budget.value);
    }
    part := Scan(server, asOf, at, StartSeen(at), first.budget).value;
  }

  /**
   * Whenever one scan succeeds, so does every chain of resumed segments under the same cutoff, and once
   * its budgets reach the end it has read the same pages: same rows in order, same number dropped.
   */
  lemma ResumeEqualsOneScan(server: Server, asOf: int, whole: Segment, after: int, attempts: seq<Attempt>)
    requires Collect(server, asOf, None, Attempt(None, asOf, after)) == Ok(whole)
    requires BudgetsPositive(attempts) && CutoffsHold(asOf, attempts)
    ensures Chain(server, asOf, NOTHING, attempts).Ok?
    ensures
      var t := Chain(server, asOf, NOTHING, attempts).value;
      && (t.exhausted <==> Enough(attempts, whole.pages))
      && (t.exhausted ==> t == whole)
      && t.rows <= whole.rows && t.dropped <= whole.dropped
  {
    assert [] + whole.rows == whole.rows;
    ChainFollows(server, asOf, NOTHING, attempts, whole);
  }

  // ---------------------------------------------------------------- and the converse

  /** The cursor chain from here ends after exactly `n` pages. */
  predicate EndsIn(server: Server, at: Option<Cursor>, n: nat)
    decreases n
  {
    n > 0 && Readable(server, at).Ok?
    && var next := Readable(server, at).value.next; if next.None? then n == 1 else EndsIn(server, next, n - 1)
  }

  lemma {:induction false} EndsOnce(server: Server, at: Option<Cursor>, n: nat, m: nat)
    requires EndsIn(server, at, n) && EndsIn(server, at, m)
    ensures n == m
    decreases n
  {
    var next := Readable(server, at).value.next;
    if next.Some? {
      EndsOnce(server, next, n - 1, m - 1);
    }
  }

  /** None of the cursors is nearer to the end than `n` pages. */
  ghost predicate FarFromEnd(server: Server, seen: set<Cursor>, n: nat) {
    forall c, m: nat :: c in seen && m < n ==> !EndsIn(server, Some(c), m)
  }

  /** A chain that ends repeats no cursor, so an unbounded scan gets through. */
  lemma {:induction false} EndingChainScans(server: Server, asOf: int, at: Option<Cursor>, seen: set<Cursor>, n: nat)
    requires EndsIn(server, at, n) && FarFromEnd(server, seen, n)
    ensures Scan(server, asOf, at, seen, None).Ok?
    decreases n
  {
    var next := Readable(server, at).value.next;
    if next.Some? {
      assert next.value !in seen;
      forall m: nat | m < n - 1 ensures !EndsIn(server, next, m) {
        if EndsIn(server, next, m) {
          EndsOnce(server, next, m, n - 1);
        }
      }
      EndingChainScans(server, asOf, next, seen + {next.value}, n - 1);
    }
  }

  /** What a scan that got through says about the cursor chain. */
  lemma {:induction false} ScanFindsEnd(server: Server, asOf: int, at: Option<Cursor>, seen: set<Cursor>,
                                        budget: Option<nat>, left: nat)
    requires Scan(server, asOf, at, seen, budget).Ok?
    ensures
      var s := Scan(server, asOf, at, seen, budget).value;
      if s.exhausted then EndsIn(server, at, s.pages) else EndsIn(server, s.final, left) ==>
        EndsIn(server, at, s.pages + left)
    ensures
      var s := Scan(server, asOf, at, seen, budget).value;
      s.exhausted ==> Scan(server, asOf, at, seen, None) == Ok(s)
    decreases Unseen(server, seen), if at in server then 1 else 0
  {
    if budget != Some(0) {
      var page := Readable(server, at).value;
      if page.next.Some? {
        assert page.next in server ==> page.next in Unseen(server, seen);
        ScanFindsEnd(server, asOf, page.next, seen + {page.next.value},
                     if budget.Some? then Some(budget.value - 1) else None, left);
      }
    }
  }

  lemma {:induction false} ExhaustedChainEnds(server: Server, asOf: int, sofar: Segment, attempts: seq<Attempt>)
    returns (n: nat)
    requires !sofar.exhausted && BudgetsPositive(attempts)
    requires Chain(server, asOf, sofar, attempts).Ok? && Chain(server, asOf, sofar, attempts).value.exhausted
    ensures EndsIn(server, sofar.final, n)
    ensures Onward(server, asOf, sofar.final).Ok?
    ensures Chain(server, asOf, sofar, attempts).value
         == Joined(sofar, Onward(server, asOf, sofar.final).value)
    decreases |attempts|
  {
    var at, seen, budget := sofar.final, StartSeen(sofar.final), attempts[0].budget;
    var part := Scan(server, asOf, at, seen, budget).value;
    if part.exhausted {
      ScanFindsEnd(server, asOf, at, seen, budget, 0);
      n := part.pages;
    } else {
      var m := ExhaustedChainEnds(server, asOf, Joined(sofar, part), attempts[1..]);
      ScanFindsEnd(server, asOf, at, seen, budget, m);
      n := part.pages + m;
      OnwardFromEndingChain(server, asOf, at, n);
      hide Scan, Onward, KeysValid, EndsIn;
      var again := FirstSegment(server, asOf, sofar, attempts[0]);
      JoinedAssociates(sofar, part, Onward(server, asOf, part.final).value);
    }
  }

  lemma OnwardFromEndingChain(server: Server, asOf: int, at: Option<Cursor>, n: nat)
    requires EndsIn(server, at, n)
    ensures Onward(server, asOf, at).Ok?
  {
    forall k: nat | k < n ensures !EndsIn(server, at, k) {
      if EndsIn(server, at, k) {
        EndsOnce(server, at, k, n);
      }
    }
    EndingChainScans(server, asOf, at, StartSeen(at), n);
  }

  /** A chain that reached the end is what one scan reads; only keys repeated across segments tell them apart. */
  lemma ExhaustedChainIsOneScan(server: Server, asOf: int, after: int, attempts: seq<Attempt>)
    requires BudgetsPositive(attempts) && asOf <= after
    requires Chain(server, asOf, NOTHING, attempts).Ok? && Chain(server, asOf, NOTHING, attempts).value.exhausted
    ensures
      var t := Chain(server, asOf, NOTHING, attempts).value;
      Collect(server, asOf, None, Attempt(None, asOf, after)) == if KeysValid(t.rows) then Ok(t) else Err(KeysInvalid)
  {
    var n := ExhaustedChainEnds(server, asOf, NOTHING, attempts);
    var whole := Scan(server, asOf, None, {}, None).value;
    assert [] + whole.rows == whole.rows;
  }

  /** One market on two pages: a chain of one-page segments takes it twice, one scan refuses it. */
  lemma RepeatedKeyNeedsOneFile(m: Market, asOf: int)
    requires m.key != "" && m.settled.Some? && m.settled.value < asOf
    ensures
      var server: Server := map[None := Page([m], Some("next")), Some("next") := Page([m], None)];
      var one := Attempt(Some(1), asOf, asOf);
      && Chain(server, asOf, NOTHING, [one, one]) == Ok(Segment([m, m], 0, 2, None, true))
      && Collect(server, asOf, None, Attempt(None, asOf, asOf)) == Err(KeysInvalid)
  {
    var server: Server := map[None := Page([m], Some("next")), Some("next") := Page([m], None)];
    var one := Attempt(Some(1), asOf, asOf);
    var second := Segment([m], 0, 1, None, true);
    assert [m][..0] == [];
    assert Retained(asOf, [m]) == [m];
    assert Readable(server, None).Ok? && Readable(server, Some("next")).Ok?;
    assert Prepend(asOf, [m], Segment([], 0, 0, None, true)) == second;
    assert Scan(server, asOf, Some("next"), {"next"}, Some(1)) == Ok(second);
    assert Scan(server, asOf, Some("next"), {"next"}, None) == Ok(second);
    var first := Segment([m], 0, 1, Some("next"), false);
    assert {} + {"next"} == {"next"};
    assert Scan(server, asOf, Some("next"), {"next"}, Some(0)) == Ok(Segment([], 0, 0, Some("next"), false));
    assert Scan(server, asOf, None, {}, Some(1)) == Ok(first);
    assert [m] + [m] == [m, m];
    assert Scan(server, asOf, None, {}, None) == Ok(Segment([m, m], 0, 2, None, true));
    assert [m, m][0].key == [m, m][1].key;
    assert [one, one][1..] == [one] && [one][1..] == [];
    assert Collect(server, asOf, None, one) == Ok(first) && Joined(NOTHING, first) == first;
    assert Collect(server, asOf, Some("next"), one) == Ok(second);
    assert Joined(first, second) == Segment([m, m], 0, 2, None, true);
    assert Chain(server, asOf, first, [one]) == Chain(server, asOf, Joined(first, second), []);
  }

  // ---------------------------------------------------------------- publishing a segment, or rolling it back

  datatype OutputFile = Rows | ContractEvidence | SegmentManifest

  /** The places just after a file appears and before its flag is set. */
  const ROWS_GAP: nat := 1
  const EVIDENCE_GAP: nat := 4
  const MANIFEST_GAP: nat := 7
  const STEPS: nat := 9

  /** The file that has just appeared at a gap. */
  function Appeared(stop: nat): OutputFile {
    if stop == ROWS_GAP then Rows else if stop == EVIDENCE_GAP then ContractEvidence else SegmentManifest
  }

  /** The exception falls between a file's appearance and its flag. */
  predicate InGap(stop: nat, withEvidence: bool) {
    stop == ROWS_GAP || (stop == EVIDENCE_GAP && withEvidence) || stop == MANIFEST_GAP
  }

  class SegmentFiles {
    var outputs: set<OutputFile>
    var staging: bool
    var manifestStaging: bool

    /** `stop` steps take effect, then an exception is raised, unless every step is through. */
    method Publish(withEvidence: bool, stop: nat) returns (done: bool)
      requires outputs == {} && staging && !manifestStaging
      modifies this
      ensures done <==> stop >= STEPS
      ensures !staging && !manifestStaging
      ensures done ==> outputs == {Rows, SegmentManifest} + if withEvidence then {ContractEvidence} else {}
      ensures !done ==> outputs == if InGap(stop, withEvidence) then {Appeared(stop)} else {}
    {
      var published, evidencePublished, manifestPublished := false, false, false;
      label steps: {
        if stop == 0 { break steps; }
        outputs := outputs + {Rows};
        if stop == ROWS_GAP { break steps; }
        published := true;
        if stop == 2 { break steps; }
        staging := false;
        if stop == 3 { break steps; }
        if withEvidence {
          outputs := outputs + {ContractEvidence};
        }
        if stop == EVIDENCE_GAP { break steps; }
        evidencePublished := withEvidence;
        if stop == 5 { break steps; }
        manifestStaging := true;
        if stop == 6 { break steps; }
        outputs := outputs + {SegmentManifest};
        if stop == MANIFEST_GAP { break steps; }
        manifestPublished := true;
        if stop == 8 { break steps; }
        manifestStaging := false;
        return true;
      }
      if evidencePublished {
        outputs := outputs - {ContractEvidence};
      }
      staging, manifestStaging := false, false;
      if published {
        outputs := outputs - {Rows};
      }
      if manifestPublished {
        outputs := outputs - {SegmentManifest};
      }
      done := false;
    }
  }
}
