/** The parity comparator: an as-of join by binary search, and coverage of reconstructed state changes. */
module TopbookParity {
  import opened Outcomes
  import opened Sorting

  datatype Position = Position(local: nat, monotonic: nat, time: int)

  datatype Value = Missing | Number(amount: real) | Flag(on: bool) | Text(text: string)

  datatype GroupKey = GroupKey(run: string, exchange: string, instrument: string)

  /** A top-of-book row, reconstructed or recorded. `ref` is the recorded row's raw event reference. */
  datatype TopRow = TopRow(group: GroupKey, received: string, position: Position, fields: seq<Value>,
                           fingerprint: string, eventId: string, ref: string)

  const TOLERANCE := 0.000000000001

  predicate Below(a: Position, b: Position) {
    a.local < b.local || (a.local == b.local && (a.monotonic < b.monotonic || (a.monotonic == b.monotonic
      && a.time < b.time)))
  }

  predicate AtOrBelow(a: Position, b: Position) {
    a == b || Below(a, b)
  }

  predicate ByPosition(a: TopRow, b: TopRow) {
    AtOrBelow(a.position, b.position)
  }

  /** Values compare with an absolute tolerance on numbers; a flag compares with a number as 0 or 1. */
  predicate Equal(a: Value, b: Value) {
    match (a, b)
    case (Number(x), Number(y)) => -TOLERANCE <= x - y <= TOLERANCE
    case (Flag(x), Number(y)) => y == if x then 1.0 else 0.0
    case (Number(x), Flag(y)) => x == if y then 1.0 else 0.0
    case _ => a == b
  }

  predicate Agree(a: TopRow, b: TopRow) {
    |a.fields| == |b.fields| && forall i :: 0 <= i < |a.fields| ==> Equal(a.fields[i], b.fields[i])
  }

  function Of(rows: seq<TopRow>, group: GroupKey): seq<TopRow> {
    if rows == [] then []
    else Of(rows[..|rows| - 1], group) + if rows[|rows| - 1].group == group then [rows[|rows| - 1]] else []
  }

  /** One instrument's rows in comparison order. */
  function History(rows: seq<TopRow>, group: GroupKey): seq<TopRow> {
    StableSort(ByPosition, Of(rows, group))
  }

  // ---------------------------------------------------------------- what parity means

  ghost predicate InOrder(history: seq<TopRow>) {
    forall i, j :: 0 <= i < j < |history| ==> AtOrBelow(history[i].position, history[j].position)
  }

  /** `i` is the last row of the history at or before the position. */
  ghost predicate IsAsOf(history: seq<TopRow>, p: Position, i: nat) {
    && i < |history| && AtOrBelow(history[i].position, p)
    && forall j :: i < j < |history| ==> Below(p, history[j].position)
  }

  /** `i` is the row of the referenced event (the last one, should several carry its id). */
  ghost predicate IsExact(history: seq<TopRow>, ref: string, i: nat) {
    && ref != "" && i < |history| && history[i].eventId == ref
    && forall j :: i < j < |history| ==> history[j].eventId != ref
  }

  ghost predicate ExactUsable(history: seq<TopRow>, s: TopRow, i: nat) {
    IsExact(history, s.ref, i) && AtOrBelow(history[i].position, s.position)
  }

  /** The row a recorded row is held against: its own event if that is not later, else the as-of row. */
  ghost predicate Counterpart(history: seq<TopRow>, s: TopRow, i: nat) {
    ExactUsable(history, s, i) || ((forall j: nat :: !ExactUsable(history, s, j)) && IsAsOf(history, s.position, i))
  }

  ghost predicate Explained(history: seq<TopRow>, s: TopRow) {
    exists i: nat :: Counterpart(history, s, i) && Agree(history[i], s)
  }

  /** The rows at which the state fingerprint differs from the row before. */
  function Changes(history: seq<TopRow>): seq<TopRow> {
    if history == [] then []
    else
      var n := |history| - 1;
      Changes(history[..n]) + if n == 0 || history[n].fingerprint != history[n - 1].fingerprint then [history[n]]
        else []
  }

  /** A recorded row shows the change before the next change takes over. */
  ghost predicate Shows(changes: seq<TopRow>, c: nat, s: TopRow)
    requires c < |changes|
  {
    && AtOrBelow(changes[c].position, s.position)
    && (c + 1 < |changes| ==> Below(s.position, changes[c + 1].position))
    && s.fingerprint == changes[c].fingerprint
  }

  ghost predicate Covered(changes: seq<TopRow>, c: nat, recorded: seq<TopRow>)
    requires c < |changes|
  {
    exists j :: 0 <= j < |recorded| && Shows(changes, c, recorded[j])
  }

  ghost predicate AllExplained(history: seq<TopRow>, recorded: seq<TopRow>) {
    forall j :: 0 <= j < |recorded| ==> Explained(history, recorded[j])
  }

  ghost predicate AllCovered(changes: seq<TopRow>, recorded: seq<TopRow>) {
    forall c :: 0 <= c < |changes| ==> Covered(changes, c, recorded)
  }

  ghost predicate GroupParity(history: seq<TopRow>, recorded: seq<TopRow>) {
    AllExplained(history, recorded) && AllCovered(Changes(history), recorded)
  }

  ghost predicate Parity(reconstructed: seq<TopRow>, source: seq<TopRow>) {
    forall group :: GroupParity(History(reconstructed, group), History(source, group))
  }

  // ---------------------------------------------------------------- the comparator

  method BisectRight(history: seq<TopRow>, p: Position) returns (k: nat)
    requires InOrder(history)
    ensures k <= |history|
    ensures forall i :: 0 <= i < k ==> AtOrBelow(history[i].position, p)
    ensures forall i :: k <= i < |history| ==> Below(p, history[i].position)
  {
    var lo, hi := 0, |history|;
    while lo < hi
      invariant 0 <= lo <= hi <= |history|
      invariant forall i :: 0 <= i < lo ==> AtOrBelow(history[i].position, p)
      invariant forall i :: hi <= i < |history| ==> Below(p, history[i].position)
    {
      var mid := (lo + hi) / 2;
      if Below(p, history[mid].position) {
        hi := mid;
      } else {
        lo := mid + 1;
      }
    }
    k := lo;
  }

  method BisectLeft(history: seq<TopRow>, p: Position) returns (k: nat)
    requires InOrder(history)
    ensures k <= |history|
    ensures forall i :: 0 <= i < k ==> Below(history[i].position, p)
    ensures forall i :: k <= i < |history| ==> AtOrBelow(p, history[i].position)
  {
    var lo, hi := 0, |history|;
    while lo < hi
      invariant 0 <= lo <= hi <= |history|
      invariant forall i :: 0 <= i < lo ==> Below(history[i].position, p)
      invariant forall i :: hi <= i < |history| ==> AtOrBelow(p, history[i].position)
    {
      var mid := (lo + hi) / 2;
      if Below(history[mid].position, p) {
        lo := mid + 1;
      } else {
        hi := mid;
      }
    }
    k := lo;
  }

  /** The last row per event id. */
  method EventRows(history: seq<TopRow>) returns (byEvent: map<string, nat>)
    ensures forall ref :: ref in byEvent ==> IsExact(history, ref, byEvent[ref])
    ensures forall ref, i: nat :: IsExact(history, ref, i) ==> ref in byEvent && byEvent[ref] == i
  {
    byEvent := map[];
    for i := 0 to |history|
      invariant forall ref :: ref in byEvent ==> IsExact(history[..i], ref, byEvent[ref])
      invariant forall j :: 0 <= j < i && history[j].eventId != "" ==> history[j].eventId in byEvent
    {
      if history[i].eventId != "" {
        byEvent := byEvent[history[i].eventId := i];
      }
    }
    assert history[..|history|] == history;
  }

  /** Compares one instrument's recorded rows and counts those that have no agreeing counterpart. */
  method CompareSource(history: seq<TopRow>, recorded: seq<TopRow>) returns (missing: nat, mismatched: nat)
    requires InOrder(history)
    ensures missing == 0 && mismatched == 0 <==> AllExplained(history, recorded)
    ensures missing == CountMissing(history, recorded) && mismatched == CountMismatched(history, recorded)
  {
    var byEvent := EventRows(history);
    missing, mismatched := 0, 0;
    hide Counterpart, Agree, InOrder, Explained, Lacking, Mistaken;
    for k := 0 to |recorded|
      invariant missing == CountMissing(history, recorded[..k])
      invariant mismatched == CountMismatched(history, recorded[..k])
    {
      assert recorded[..k + 1][..k] == recorded[..k];
      var row := FindCounterpart(history, byEvent, recorded[k]);
      CounterpartUnique(history, recorded[k], row);
      if row.None? {
        missing := missing + 1;
      } else if !Agree(history[row.value], recorded[k]) {
        mismatched := mismatched + 1;
      }
    }
    assert recorded[..|recorded|] == recorded;
    CountsExplain(history, recorded);
  }

  /** The row of the referenced event if that is not later, else the as-of row by binary search. */
  method FindCounterpart(history: seq<TopRow>, byEvent: map<string, nat>, s: TopRow) returns (row: Option<nat>)
    requires InOrder(history)
    requires forall ref :: ref in byEvent ==> IsExact(history, ref, byEvent[ref])
    requires forall ref, i: nat :: IsExact(history, ref, i) ==> ref in byEvent && byEvent[ref] == i
    ensures row.Some? ==> row.value < |history| && Counterpart(history, s, row.value)
    ensures row.None? ==> forall i: nat :: !Counterpart(history, s, i)
  {
    var after := BisectRight(history, s.position);
    row := if after > 0 then Some(after - 1) else None;
    if s.ref in byEvent && AtOrBelow(history[byEvent[s.ref]].position, s.position) {
      row := Some(byEvent[s.ref]);
      assert Counterpart(history, s, row.value);
    }
  }

  /** No reconstructed row stands for the recorded one. */
  ghost predicate Lacking(history: seq<TopRow>, s: TopRow) {
    forall i: nat :: !Counterpart(history, s, i)
  }

  /** One does, with another value. */
  ghost predicate Mistaken(history: seq<TopRow>, s: TopRow) {
    exists i: nat :: Counterpart(history, s, i) && !Agree(history[i], s)
  }

  ghost function CountMissing(history: seq<TopRow>, recorded: seq<TopRow>): nat {
    if recorded == [] then 0
    else CountMissing(history, recorded[..|recorded| - 1])
         + if Lacking(history, recorded[|recorded| - 1]) then 1 else 0
  }

  ghost function CountMismatched(history: seq<TopRow>, recorded: seq<TopRow>): nat {
    if recorded == [] then 0
    else CountMismatched(history, recorded[..|recorded| - 1])
         + if Mistaken(history, recorded[|recorded| - 1]) then 1 else 0
  }

  lemma {:induction false} CountsExplain(history: seq<TopRow>, recorded: seq<TopRow>)
    ensures CountMissing(history, recorded) == 0 && CountMismatched(history, recorded) == 0
      <==> AllExplained(history, recorded)
  {
    hide Lacking, Mistaken, Explained;
    if recorded != [] {
      var n := |recorded| - 1;
      CountsExplain(history, recorded[..n]);
      LackingOrMistaken(history, recorded[n]);
      assert recorded == recorded[..n] + [recorded[n]];
    }
  }

  lemma LackingOrMistaken(history: seq<TopRow>, s: TopRow)
    ensures Explained(history, s) <==> !Lacking(history, s) && !Mistaken(history, s)
  {
    hide Agree;
    if i: nat :| Counterpart(history, s, i) {
      forall j: nat | Counterpart(history, s, j) ensures j == i {
        CounterpartsCoincide(history, s, i, j);
      }
    }
  }

  lemma CounterpartsCoincide(history: seq<TopRow>, s: TopRow, i: nat, j: nat)
    requires Counterpart(history, s, i) && Counterpart(history, s, j)
    ensures i == j
  {
  }

  /** There is at most one counterpart, so failing against it is failing altogether. */
  lemma CounterpartUnique(history: seq<TopRow>, s: TopRow, row: Option<nat>)
    requires row.Some? ==> row.value < |history| && Counterpart(history, s, row.value)
    requires row.None? ==> forall i: nat :: !Counterpart(history, s, i)
    ensures Explained(history, s) <==> row.Some? && Agree(history[row.value], s)
    ensures Lacking(history, s) <==> row.None?
    ensures Mistaken(history, s) <==> row.Some? && !Agree(history[row.value], s)
  {
    hide Agree;
    if row.Some? {
      forall i: nat | Counterpart(history, s, i) ensures i == row.value {
        CounterpartsCoincide(history, s, i, row.value);
      }
    }
  }

  method StateChanges(history: seq<TopRow>) returns (changes: seq<TopRow>)
    ensures changes == Changes(history)
  {
    changes := [];
    var prior: Option<string> := None;
    for i := 0 to |history|
      invariant changes == Changes(history[..i])
      invariant prior == if i == 0 then None else Some(history[i - 1].fingerprint)
    {
      assert history[..i + 1][..i] == history[..i];
      if prior != Some(history[i].fingerprint) {
        changes := changes + [history[i]];
        prior := Some(history[i].fingerprint);
      }
    }
    assert history[..|history|] == history;
  }

  /** Counts the state changes that no recorded row shows in time. */
  method MissingChanges(changes: seq<TopRow>, recorded: seq<TopRow>) returns (missing: nat)
    requires InOrder(recorded)
    ensures missing == 0 <==> AllCovered(changes, recorded)
    ensures missing == CountUncovered(changes, recorded, |changes|)
  {
    missing := 0;
    for c := 0 to |changes|
      invariant missing == CountUncovered(changes, recorded, c)
    {
      var start := BisectLeft(recorded, changes[c].position);
      var stop := |recorded|;
      if c + 1 < |changes| {
        stop := BisectLeft(recorded, changes[c + 1].position);
      }
      var found := false;
      var j := start;
      while j < stop && !found
        invariant start <= j && (j <= stop || j == start)
        invariant found <==> exists i :: start <= i < j && recorded[i].fingerprint == changes[c].fingerprint
      {
        found := recorded[j].fingerprint == changes[c].fingerprint;
        j := j + 1;
      }
      WindowShows(changes, c, recorded, start, stop, found);
      if !found {
        missing := missing + 1;
      }
    }
    UncoveredCounted(changes, recorded, |changes|);
  }

  lemma {:induction false} UncoveredCounted(changes: seq<TopRow>, recorded: seq<TopRow>, n: nat)
    requires n <= |changes|
    ensures CountUncovered(changes, recorded, n) == 0 <==> forall c :: 0 <= c < n ==> Covered(changes, c, recorded)
  {
    hide Covered;
    if n > 0 {
      UncoveredCounted(changes, recorded, n - 1);
    }
  }

  /** The changes that no recorded row shows in time, among the first `n`. */
  ghost function CountUncovered(changes: seq<TopRow>, recorded: seq<TopRow>, n: nat): nat
    requires n <= |changes|
  {
    if n == 0 then 0
    else CountUncovered(changes, recorded, n - 1) + if Covered(changes, n - 1, recorded) then 0 else 1
  }

  lemma WindowShows(changes: seq<TopRow>, c: nat, recorded: seq<TopRow>, start: nat, stop: nat, found: bool)
    requires c < |changes| && start <= |recorded| && stop <= |recorded|
    requires forall i :: 0 <= i < start ==> Below(recorded[i].position, changes[c].position)
    requires forall i :: start <= i < |recorded| ==> AtOrBelow(changes[c].position, recorded[i].position)
    requires c + 1 < |changes| ==> forall i :: 0 <= i < stop ==> Below(recorded[i].position, changes[c + 1].position)
    requires c + 1 < |changes| ==> forall i :: stop <= i < |recorded| ==>
      AtOrBelow(changes[c + 1].position, recorded[i].position)
    requires c + 1 == |changes| ==> stop == |recorded|
    requires found <==> exists i :: start <= i < stop && recorded[i].fingerprint == changes[c].fingerprint
    ensures found <==> Covered(changes, c, recorded)
  {
    if found {
      var i :| start <= i < stop && recorded[i].fingerprint == changes[c].fingerprint;
      assert Shows(changes, c, recorded[i]);
    }
    forall j | 0 <= j < |recorded| && Shows(changes, c, recorded[j]) ensures start <= j < stop {
    }
  }

  lemma PositionOrderIsTotal()
    ensures TotalPreorder(ByPosition)
  {
  }

  lemma HistoryInOrder(rows: seq<TopRow>, group: GroupKey)
    ensures InOrder(History(rows, group))
  {
    PositionOrderIsTotal();
    StableSortCorrect(ByPosition, Of(rows, group));
    var h := History(rows, group);
    assert forall i, j :: 0 <= i < j < |h| ==> ByPosition(h[i], h[j]);
  }

  function At(histories: map<GroupKey, seq<TopRow>>, g: GroupKey): seq<TopRow> {
    if g in histories then histories[g] else []
  }

  ghost predicate AreHistories(histories: map<GroupKey, seq<TopRow>>, rows: seq<TopRow>) {
    forall g :: At(histories, g) == History(rows, g)
  }

  function GroupsOf(rows: seq<TopRow>): set<GroupKey> {
    set r | r in rows :: r.group
  }

  lemma {:induction false} GroupHasRows(rows: seq<TopRow>, g: GroupKey)
    ensures g in GroupsOf(rows) <==> Of(rows, g) != []
  {
    if rows != [] {
      var n := |rows| - 1;
      GroupHasRows(rows[..n], g);
      assert rows == rows[..n] + [rows[n]];
    }
  }

  /** `groupby` followed by sorting each group. */
  method Histories(rows: seq<TopRow>) returns (histories: map<GroupKey, seq<TopRow>>)
    ensures AreHistories(histories, rows) && histories.Keys == GroupsOf(rows)
  {
    var buckets: map<GroupKey, seq<TopRow>> := map[];
    for i := 0 to |rows|
      invariant forall g :: g in buckets ==> buckets[g] == Of(rows[..i], g)
      invariant forall g :: g !in buckets ==> Of(rows[..i], g) == []
      invariant forall g :: g in buckets ==> buckets[g] != []
    {
      assert rows[..i + 1][..i] == rows[..i];
      var row := rows[i];
      buckets := buckets[row.group := (if row.group in buckets then buckets[row.group] else []) + [row]];
    }
    assert rows[..|rows|] == rows;
    histories := map g | g in buckets :: StableSort(ByPosition, buckets[g]);
    forall g ensures g in histories <==> g in GroupsOf(rows) {
      GroupHasRows(rows, g);
    }
  }

  /** Recorded rows are keyed by instrument and receipt time, and that key must be unique. */
  ghost predicate KeysUnique(source: seq<TopRow>) {
    forall i, j :: 0 <= i < j < |source| ==>
      source[i].group != source[j].group || source[i].received != source[j].received
  }

  method CheckKeys(source: seq<TopRow>) returns (unique: bool)
    ensures unique <==> KeysUnique(source)
  {
    var seen: set<(GroupKey, string)> := {};
    unique := true;
    for i := 0 to |source|
      invariant unique <==> forall a, b :: 0 <= a < b < i ==>
        source[a].group != source[b].group || source[a].received != source[b].received
      invariant forall a :: 0 <= a < i ==> (source[a].group, source[a].received) in seen
      invariant forall k :: k in seen ==> exists a :: 0 <= a < i && (source[a].group, source[a].received) == k
    {
      var key := (source[i].group, source[i].received);
      if key in seen {
        unique := false;
      }
      seen := seen + {key};
    }
  }

  datatype Discrepancies = Discrepancies(missingReconstructed: nat, mismatched: nat, missingChanges: nat)

  const NONE := Discrepancies(0, 0, 0)

  /** A count added up over a set of keys. */
  ghost function SumOver<K(!new)>(keys: set<K>, count: K -> nat): nat {
    if keys == {} then 0
    else
      var k :| k in keys;
      SumOver(keys - {k}, count) + count(k)
  }

  /** The sum does not depend on the order of the keys. */
  lemma {:induction false} SumWith<K(!new)>(keys: set<K>, count: K -> nat, k: K)
    requires k in keys
    ensures SumOver(keys, count) == SumOver(keys - {k}, count) + count(k)
    decreases keys
  {
    var h :| h in keys && SumOver(keys, count) == SumOver(keys - {h}, count) + count(h);
    if h != k {
      assert keys - {h} - {k} == keys - {k} - {h};
      SumWith(keys - {h}, count, k);
      SumWith(keys - {k}, count, h);
    }
  }

  ghost function MissingAt(reconstructed: seq<TopRow>, source: seq<TopRow>): GroupKey -> nat {
    g => CountMissing(History(reconstructed, g), History(source, g))
  }

  ghost function MismatchedAt(reconstructed: seq<TopRow>, source: seq<TopRow>): GroupKey -> nat {
    g => CountMismatched(History(reconstructed, g), History(source, g))
  }

  ghost function UncoveredAt(reconstructed: seq<TopRow>, source: seq<TopRow>): GroupKey -> nat {
    g => var changes := Changes(History(reconstructed, g));
         CountUncovered(changes, History(source, g), |changes|)
  }

  /** The discrepancies of all instruments, each kind counted. */
  ghost predicate Counted(reconstructed: seq<TopRow>, source: seq<TopRow>, groups: set<GroupKey>,
                          found: Discrepancies)
  {
    && found.missingReconstructed == SumOver(groups, MissingAt(reconstructed, source))
    && found.mismatched == SumOver(groups, MismatchedAt(reconstructed, source))
    && found.missingChanges == SumOver(groups, UncoveredAt(reconstructed, source))
  }

  lemma OneMoreCounted(reconstructed: seq<TopRow>, source: seq<TopRow>, groups: set<GroupKey>, g: GroupKey,
                       found: Discrepancies, here: Discrepancies)
    requires g !in groups && Counted(reconstructed, source, groups, found)
    requires Counted(reconstructed, source, {g}, here)
    ensures Counted(reconstructed, source, groups + {g},
                    Discrepancies(found.missingReconstructed + here.missingReconstructed,
                                  found.mismatched + here.mismatched, found.missingChanges + here.missingChanges))
  {
    SumsJoin(groups, MissingAt(reconstructed, source), g);
    SumsJoin(groups, MismatchedAt(reconstructed, source), g);
    SumsJoin(groups, UncoveredAt(reconstructed, source), g);
    hide SumOver, MissingAt, MismatchedAt, UncoveredAt;
  }

  lemma SumsJoin<K(!new)>(keys: set<K>, count: K -> nat, k: K)
    requires k !in keys
    ensures SumOver(keys + {k}, count) == SumOver(keys, count) + SumOver({k}, count)
    ensures SumOver({k}, count) == count(k)
  {
    SumWith(keys + {k}, count, k);
    SumWith({k}, count, k);
    assert keys + {k} - {k} == keys && {k} - {k} == {};
  }

  datatype ParityError = KeysNotUnique

  ghost predicate GroupsAgree(reconstructed: seq<TopRow>, source: seq<TopRow>, groups: set<GroupKey>) {
    forall g :: g in groups ==> GroupParity(History(reconstructed, g), History(source, g))
  }

  lemma {:induction false} NothingToSum<K(!new)>(keys: set<K>, count: K -> nat)
    ensures SumOver(keys, count) == 0 <==> forall k :: k in keys ==> count(k) == 0
  {
    if keys != {} {
      var h :| h in keys && SumOver(keys, count) == SumOver(keys - {h}, count) + count(h);
      NothingToSum(keys - {h}, count);
    }
  }

  /** There is nothing to count exactly when every instrument is at parity. */
  lemma CountsAgree(reconstructed: seq<TopRow>, source: seq<TopRow>, groups: set<GroupKey>, found: Discrepancies)
    requires Counted(reconstructed, source, groups, found)
    ensures found == NONE <==> GroupsAgree(reconstructed, source, groups)
  {
    NothingToSum(groups, MissingAt(reconstructed, source));
    NothingToSum(groups, MismatchedAt(reconstructed, source));
    NothingToSum(groups, UncoveredAt(reconstructed, source));
    hide SumOver, History, GroupParity, CountMissing, CountMismatched, CountUncovered, Changes;
    forall g | g in groups
      ensures GroupParity(History(reconstructed, g), History(source, g)) <==>
        && MissingAt(reconstructed, source)(g) == 0 && MismatchedAt(reconstructed, source)(g) == 0
        && UncoveredAt(reconstructed, source)(g) == 0
    {
      ParityCounted(History(reconstructed, g), History(source, g));
    }
  }

  lemma ParityCounted(history: seq<TopRow>, recorded: seq<TopRow>)
    ensures GroupParity(history, recorded) <==>
      && CountMissing(history, recorded) == 0 && CountMismatched(history, recorded) == 0
      && CountUncovered(Changes(history), recorded, |Changes(history)|) == 0
  {
    CountsExplain(history, recorded);
    UncoveredCounted(Changes(history), recorded, |Changes(history)|);
  }

  /** Instruments seen on neither side have nothing to disagree on. */
  lemma OtherGroupsAreEmpty(reconstructed: seq<TopRow>, source: seq<TopRow>, groups: set<GroupKey>)
    requires forall g :: g !in groups ==> History(reconstructed, g) == [] && History(source, g) == []
    ensures GroupsAgree(reconstructed, source, groups) <==> Parity(reconstructed, source)
  {
    hide History;
    assert GroupParity([], []);
    hide GroupParity;
  }

  datatype Verdict = Raises | Matches | Differs

  /** What the comparison must say: it raises on repeated keys, and otherwise matches exactly at parity. */
  ghost function VerdictOn(reconstructed: seq<TopRow>, source: seq<TopRow>): Verdict {
    if !KeysUnique(source) then Raises else if Parity(reconstructed, source) then Matches else Differs
  }

  function VerdictOf(out: Result<Discrepancies, ParityError>): Verdict {
    match out
    case Err(_) => Raises
    case Ok(found) => if found == NONE then Matches else Differs
  }

  /** The whole comparison. */
  method CompareTopbooks(reconstructed: seq<TopRow>, source: seq<TopRow>)
    returns (out: Result<Discrepancies, ParityError>)
    ensures out.Ok? <==> KeysUnique(source)
    ensures out.Ok? ==> (out.value == NONE <==> Parity(reconstructed, source))
    ensures VerdictOf(out) == VerdictOn(reconstructed, source)
    ensures out.Ok? ==> Counted(reconstructed, source, GroupsOf(reconstructed) + GroupsOf(source), out.value)
  {
    hide GroupParity, History, GroupsAgree, Parity, KeysUnique, GroupsOf, Counted;
    var unique := CheckKeys(source);
    if !unique {
      return Err(KeysNotUnique);
    }
    var histories := Histories(reconstructed);
    var recorded := Histories(source);
    var groups := histories.Keys + recorded.Keys;
    assert forall g :: g !in groups ==> At(histories, g) == [] && At(recorded, g) == [];
    var found := CompareGroups(reconstructed, source, histories, recorded, groups);
    OtherGroupsAreEmpty(reconstructed, source, groups);
    out := Ok(found);
  }

  lemma ItsHistory(histories: map<GroupKey, seq<TopRow>>, rows: seq<TopRow>, g: GroupKey)
    requires AreHistories(histories, rows)
    ensures At(histories, g) == History(rows, g)
  {
  }

  method CompareGroups(ghost reconstructed: seq<TopRow>, ghost source: seq<TopRow>,
                       histories: map<GroupKey, seq<TopRow>>, recorded: map<GroupKey, seq<TopRow>>,
                         groups: set<GroupKey>)
    returns (found: Discrepancies)
    requires AreHistories(histories, reconstructed) && AreHistories(recorded, source)
    ensures found == NONE <==> GroupsAgree(reconstructed, source, groups)
    ensures Counted(reconstructed, source, groups, found)
  {
    assert Counted(reconstructed, source, {}, NONE);
    hide GroupParity, History, GroupsAgree, At, AreHistories, Counted;
    found := NONE;
    var todo := groups;
    ghost var done: set<GroupKey> := {};
    while todo != {}
      invariant todo <= groups && done == groups - todo
      invariant Counted(reconstructed, source, done, found)
      decreases todo
    {
      var g :| g in todo;
      assert groups - (todo - {g}) == done + {g};
      ItsHistory(histories, reconstructed, g);
      ItsHistory(recorded, source, g);
      todo, done := todo - {g}, done + {g};
      var here := CompareGroup(reconstructed, source, g, At(histories, g), At(recorded, g));
      OneMoreCounted(reconstructed, source, done - {g}, g, found, here);
      found := Discrepancies(found.missingReconstructed + here.missingReconstructed,
                             found.mismatched + here.mismatched, found.missingChanges + here.missingChanges);
    }
    assert done == groups;
    CountsAgree(reconstructed, source, groups, found);
  }

  method CompareGroup(ghost reconstructed: seq<TopRow>, ghost source: seq<TopRow>, group: GroupKey,
                      history: seq<TopRow>, recorded: seq<TopRow>) returns (found: Discrepancies)
    requires history == History(reconstructed, group) && recorded == History(source, group)
    ensures Counted(reconstructed, source, {group}, found)
  {
    hide AllExplained, AllCovered, History, InOrder, Changes;
    HistoryInOrder(reconstructed, group);
    HistoryInOrder(source, group);
    var missing, mismatched := CompareSource(history, recorded);
    var changes := StateChanges(history);
    var uncovered := MissingChanges(changes, recorded);
    found := Discrepancies(missing, mismatched, uncovered);
    SumsJoin({}, MissingAt(reconstructed, source), group);
    SumsJoin({}, MismatchedAt(reconstructed, source), group);
    SumsJoin({}, UncoveredAt(reconstructed, source), group);
  }

  // ---------------------------------------------------------------- a recording of exactly the changes

  /** The recorded form of a reconstructed row: it refers to the event that produced it. */
  function Recorded(r: TopRow): TopRow {
    r.(ref := r.eventId)
  }

  ghost predicate RecordsChanges(history: seq<TopRow>, recorded: seq<TopRow>) {
    RecordedInOrder(Changes(history), recorded)
  }

  ghost predicate EventIdsUnique(history: seq<TopRow>) {
    (forall i :: 0 <= i < |history| ==> history[i].eventId != "")
    && forall i, j :: 0 <= i < j < |history| ==> history[i].eventId != history[j].eventId
  }

  /** No two state changes share a comparison position. */
  predicate ChangesApart(changes: seq<TopRow>) {
    forall c :: 0 <= c < |changes| - 1 ==> changes[c].position != changes[c + 1].position
  }

  lemma {:induction false} ChangesAreRows(history: seq<TopRow>)
    ensures forall c :: 0 <= c < |Changes(history)| ==> Changes(history)[c] in history
    ensures InOrder(history) ==> InOrder(Changes(history))
  {
    if history != [] {
      var n := |history| - 1;
      ChangesAreRows(history[..n]);
      var before := Changes(history[..n]);
      assert forall c :: 0 <= c < |before| ==> before[c] in history[..n];
      if InOrder(history) {
        forall c | 0 <= c < |before| ensures AtOrBelow(before[c].position, history[n].position) {
          var i :| 0 <= i < n && history[i] == before[c];
        }
      }
    }
  }

  lemma OwnEventExplains(history: seq<TopRow>, r: TopRow)
    requires EventIdsUnique(history) && r in history
    ensures Explained(history, Recorded(r))
  {
    var i :| 0 <= i < |history| && history[i] == r;
    assert IsExact(history, r.eventId, i);
    assert Counterpart(history, Recorded(r), i);
    assert Agree(history[i], Recorded(r));
  }

  /** Recorded changes are explained by their own events. */
  lemma RecordedChangesExplained(history: seq<TopRow>, recorded: seq<TopRow>)
    requires EventIdsUnique(history) && RecordsChanges(history, recorded)
    ensures AllExplained(history, recorded)
  {
    hide Explained, Changes, EventIdsUnique;
    ChangesAreRows(history);
    forall j | 0 <= j < |recorded| ensures Explained(history, recorded[j]) {
      OwnEventExplains(history, Changes(history)[j]);
    }
  }

  ghost predicate RecordedInOrder(changes: seq<TopRow>, recorded: seq<TopRow>) {
    |recorded| == |changes| && forall c :: 0 <= c < |changes| ==> recorded[c] == Recorded(changes[c])
  }

  lemma ApartChangesCovered(changes: seq<TopRow>, recorded: seq<TopRow>)
    requires InOrder(changes) && RecordedInOrder(changes, recorded) && ChangesApart(changes)
    ensures AllCovered(changes, recorded)
  {
    forall c | 0 <= c < |changes| ensures Covered(changes, c, recorded) {
      assert Shows(changes, c, recorded[c]);
    }
  }

  lemma TiedChangeUncovered(changes: seq<TopRow>, recorded: seq<TopRow>, c: nat)
    requires c + 1 < |changes| && changes[c].position == changes[c + 1].position
    ensures !Covered(changes, c, recorded)
  {
    assert forall j :: 0 <= j < |recorded| ==> !Shows(changes, c, recorded[j]);
  }

  lemma RecordedChangesCover(changes: seq<TopRow>, recorded: seq<TopRow>)
    requires InOrder(changes) && RecordedInOrder(changes, recorded)
    ensures AllCovered(changes, recorded) <==> ChangesApart(changes)
  {
    hide Covered, InOrder, RecordedInOrder;
    if ChangesApart(changes) {
      ApartChangesCovered(changes, recorded);
    } else {
      var c :| 0 <= c < |changes| - 1 && changes[c].position == changes[c + 1].position;
      TiedChangeUncovered(changes, recorded, c);
    }
  }

  lemma GroupMatchesChanges(history: seq<TopRow>, recorded: seq<TopRow>)
    requires InOrder(history) && EventIdsUnique(history) && RecordsChanges(history, recorded)
    ensures GroupParity(history, recorded) <==> ChangesApart(Changes(history))
  {
    ChangesAreRows(history);
    RecordedChangesExplained(history, recorded);
    hide AllExplained, AllCovered, InOrder, EventIdsUnique, Changes, ChangesApart;
    RecordedChangesCover(Changes(history), recorded);
  }

  /** For every instrument the source holds exactly the state-change rows, and event ids are present and unique. */
  ghost predicate RecordsAllChanges(reconstructed: seq<TopRow>, source: seq<TopRow>) {
    forall g :: EventIdsUnique(History(reconstructed, g))
      && RecordsChanges(History(reconstructed, g), History(source, g))
  }

  ghost predicate AllChangesApart(reconstructed: seq<TopRow>) {
    forall g :: ChangesApart(Changes(History(reconstructed, g)))
  }

  /**
   * When every row has an event id and no two rows of an instrument share one, a recording made of exactly the
   * state-change rows matches if and only if no two of its rows share instrument and receipt time, where the
   * comparison raises, and no two consecutive changes share a comparison position, where it reports the earlier
   * one as missing.
   */
  lemma ChangesMatchThemselves(reconstructed: seq<TopRow>, source: seq<TopRow>)
    requires RecordsAllChanges(reconstructed, source)
    ensures VerdictOn(reconstructed, source) ==
      if !KeysUnique(source) then Raises else if AllChangesApart(reconstructed) then Matches else Differs
  {
    hide KeysUnique, GroupParity, History, EventIdsUnique, RecordsChanges, ChangesApart, Changes;
    forall g
      ensures GroupParity(History(reconstructed, g), History(source, g))
        <==> ChangesApart(Changes(History(reconstructed, g)))
    {
      HistoryInOrder(reconstructed, g);
      GroupMatchesChanges(History(reconstructed, g), History(source, g));
    }
  }

  // ---------------------------------------------------------------- recordings that do not match

  lemma PairHistory(a: TopRow, b: TopRow, g: GroupKey)
    requires a.group == b.group && AtOrBelow(a.position, b.position)
    ensures History([a, b], g) == if g == a.group then [a, b] else []
  {
    assert [a, b][..1] == [a] && [a][..0] == [];
    assert Of([a], g) == Of([], g) + if a.group == g then [a] else [];
    assert Of([a, b], g) == Of([a], g) + if b.group == g then [b] else [];
    assert StableSort(ByPosition, [a]) == Insert(ByPosition, [], a) == [a];
    assert StableSort(ByPosition, [a, b]) == Insert(ByPosition, [a], b) == [a, b];
  }

  /** One instrument has two rows with different states, so both are changes. */
  ghost predicate ChangingPair(a: TopRow, b: TopRow) {
    && a.group == b.group && AtOrBelow(a.position, b.position) && a.fingerprint != b.fingerprint
    && a.eventId != "" && b.eventId != "" && a.eventId != b.eventId
  }

  lemma PairChanges(a: TopRow, b: TopRow)
    requires a.fingerprint != b.fingerprint
    ensures Changes([a, b]) == [a, b]
  {
    assert [a, b][..1] == [a] && [a][..0] == [];
    assert Changes([a]) == Changes([a][..0]) + [a] == [a];
  }

  lemma PairRecordsChangesAt(a: TopRow, b: TopRow, g: GroupKey)
    requires ChangingPair(a, b)
    ensures EventIdsUnique(History([a, b], g))
    ensures RecordsChanges(History([a, b], g), History([Recorded(a), Recorded(b)], g))
    ensures Changes(History([a, b], g)) == if g == a.group then [a, b] else []
  {
    hide History, Changes, AtOrBelow;
    NoChanges();
    PairChanges(a, b);
    PairHistory(a, b, g);
    PairHistory(Recorded(a), Recorded(b), g);
    if g == a.group {
      PairRecorded(a, b);
    } else {
      assert History([a, b], g) == [] && History([Recorded(a), Recorded(b)], g) == [];
    }
  }

  lemma PairRecorded(a: TopRow, b: TopRow)
    requires ChangingPair(a, b)
    ensures EventIdsUnique([a, b]) && RecordedInOrder([a, b], [Recorded(a), Recorded(b)])
  {
  }

  lemma PairRecordsChanges(a: TopRow, b: TopRow)
    requires ChangingPair(a, b)
    ensures RecordsAllChanges([a, b], [Recorded(a), Recorded(b)])
  {
    hide History, Changes, EventIdsUnique, RecordsChanges;
    forall g
      ensures EventIdsUnique(History([a, b], g))
      ensures RecordsChanges(History([a, b], g), History([Recorded(a), Recorded(b)], g))
    {
      PairRecordsChangesAt(a, b, g);
    }
  }

  lemma PairApart(a: TopRow, b: TopRow)
    requires ChangingPair(a, b)
    ensures AllChangesApart([a, b]) <==> a.position != b.position
  {
    PairRecordsChangesAt(a, b, a.group);
    assert ChangesApart([a, b]) <==> a.position != b.position by {
      assert [a, b][0] == a && [a, b][1] == b;
    }
    assert ChangesApart([]);
    hide History, Changes, ChangesApart, EventIdsUnique, RecordsChanges;
    forall g ensures ChangesApart(Changes(History([a, b], g))) <==> g != a.group || ChangesApart([a, b]) {
      PairRecordsChangesAt(a, b, g);
    }
  }

  lemma NoChanges()
    ensures Changes([]) == []
  {
  }

  /** Two changes received at one instant: recorded faithfully, and the comparison raises although they are apart. */
  lemma SameReceiptRaises(a: TopRow, b: TopRow)
    requires ChangingPair(a, b) && a.position != b.position && a.received == b.received
    ensures RecordsAllChanges([a, b], [Recorded(a), Recorded(b)]) && AllChangesApart([a, b])
    ensures VerdictOn([a, b], [Recorded(a), Recorded(b)]) == Raises
  {
    PairRecordsChanges(a, b);
    PairApart(a, b);
    hide RecordsAllChanges, AllChangesApart;
    var source := [Recorded(a), Recorded(b)];
    assert source[0].group == source[1].group && source[0].received == source[1].received;
  }

  /** Two changes at one position under different receipt texts: the first is reported as missing. */
  lemma TiedChangesDiffer(a: TopRow, b: TopRow)
    requires ChangingPair(a, b) && a.position == b.position && a.received != b.received
    ensures RecordsAllChanges([a, b], [Recorded(a), Recorded(b)])
    ensures VerdictOn([a, b], [Recorded(a), Recorded(b)]) == Differs
  {
    PairRecordsChanges(a, b);
    PairApart(a, b);
    ChangesMatchThemselves([a, b], [Recorded(a), Recorded(b)]);
    hide RecordsAllChanges, AllChangesApart, Parity;
  }

  // ---------------------------------------------------------------- what a match says about values

  /** Two values a reader would call different: numbers more than 1e-12 apart, or other values that are not the same. */
  ghost predicate Apart(a: Value, b: Value) {
    || (a.Number? && b.Number? && (a.amount - b.amount > 0.000000000001 || b.amount - a.amount > 0.000000000001))
    || (a.Text? && b.Text? && a.text != b.text)
    || (a.Flag? && b.Flag? && a.on != b.on)
    || (a.Flag? && b.Number? && b.amount != (if a.on then 1.0 else 0.0))
    || (a.Number? && b.Flag? && a.amount != (if b.on then 1.0 else 0.0))
    || a.Missing? != b.Missing? || a.Text? != b.Text?
  }

  /** Two values of one kind: numbers at most 1e-12 apart, texts and flags the same, or both missing. */
  ghost predicate Alike(a: Value, b: Value) {
    || (a.Number? && b.Number? && a.amount - b.amount <= 0.000000000001 && b.amount - a.amount <= 0.000000000001)
    || (a.Text? && b.Text? && a.text == b.text)
    || (a.Flag? && b.Flag? && a.on == b.on)
    || (a.Missing? && b.Missing?)
  }

  lemma ValuesCompared(a: Value, b: Value)
    ensures Apart(a, b) <==> !Equal(a, b)
    ensures Alike(a, b) ==> Equal(a, b)
  {
  }

  ghost predicate AllAlike(a: seq<Value>, b: seq<Value>) {
    |a| == |b| && forall f :: 0 <= f < |a| ==> Alike(a[f], b[f])
  }

  /** A recorded row with one wrong value, held against its counterpart, is never reported as a match. */
  lemma WrongValueNeverMatches(reconstructed: seq<TopRow>, source: seq<TopRow>, g: GroupKey, j: nat, i: nat, f: nat)
    requires j < |History(source, g)| && Counterpart(History(reconstructed, g), History(source, g)[j], i)
    requires f < |History(source, g)[j].fields| && f < |History(reconstructed, g)[i].fields|
    requires Apart(History(reconstructed, g)[i].fields[f], History(source, g)[j].fields[f])
    ensures VerdictOn(reconstructed, source) != Matches
  {
    var history, s := History(reconstructed, g), History(source, g)[j];
    ValuesCompared(history[i].fields[f], s.fields[f]);
    hide History, Counterpart;
    assert !Explained(history, s) by {
      forall k: nat | Counterpart(history, s, k) ensures k == i {
        CounterpartsCoincide(history, s, i, k);
      }
    }
    assert !GroupParity(history, History(source, g));
  }

  /** A recorded row without counterpart, before everything reconstructed, is never reported as a match either. */
  lemma UnexplainedNeverMatches(reconstructed: seq<TopRow>, source: seq<TopRow>, g: GroupKey, j: nat)
    requires j < |History(source, g)|
    requires forall i :: 0 <= i < |History(reconstructed, g)| ==>
      Below(History(source, g)[j].position, History(reconstructed, g)[i].position)
    ensures VerdictOn(reconstructed, source) != Matches
  {
    var history, s := History(reconstructed, g), History(source, g)[j];
    hide History;
    assert !Explained(history, s);
    assert !GroupParity(history, History(source, g));
  }

  ghost predicate CounterpartAlike(history: seq<TopRow>, s: TopRow, i: nat) {
    Counterpart(history, s, i) && AllAlike(history[i].fields, s.fields)
  }

  /** Every recorded row of the instrument has a counterpart of the same values, and every change is shown. */
  ghost predicate RightlyRecorded(history: seq<TopRow>, recorded: seq<TopRow>) {
    && (forall j :: 0 <= j < |recorded| ==>
          exists i: nat :: CounterpartAlike(history, recorded[j], i))
    && AllCovered(Changes(history), recorded)
  }

  lemma RightValuesMatch(reconstructed: seq<TopRow>, source: seq<TopRow>)
    requires KeysUnique(source)
    requires forall g :: RightlyRecorded(History(reconstructed, g), History(source, g))
    ensures VerdictOn(reconstructed, source) == Matches
  {
    hide History, KeysUnique, CounterpartAlike, Explained, AllCovered, Changes;
    forall g ensures GroupParity(History(reconstructed, g), History(source, g)) {
      var history, recorded := History(reconstructed, g), History(source, g);
      assert RightlyRecorded(history, recorded);
      forall j | 0 <= j < |recorded| ensures Explained(history, recorded[j]) {
        var i: nat :| CounterpartAlike(history, recorded[j], i);
        AlikeExplains(history, recorded[j], i);
      }
    }
  }

  lemma AlikeExplains(history: seq<TopRow>, s: TopRow, i: nat)
    requires CounterpartAlike(history, s, i)
    ensures Explained(history, s)
  {
    AlikeFields(history[i], s);
  }

  lemma AlikeFields(a: TopRow, b: TopRow)
    requires AllAlike(a.fields, b.fields)
    ensures Agree(a, b)
  {
    forall f | 0 <= f < |a.fields| ensures Equal(a.fields[f], b.fields[f]) {
      ValuesCompared(a.fields[f], b.fields[f]);
    }
  }

  /** A counterpart is not later than the row it explains: by local sequence, then receipt clock, then receipt time. */
  lemma CounterpartIsNotLater(history: seq<TopRow>, s: TopRow, i: nat)
    requires Counterpart(history, s, i)
    ensures var (p, q) := (history[i].position, s.position);
      || p.local < q.local || (p.local == q.local && p.monotonic < q.monotonic)
      || (p.local == q.local && p.monotonic == q.monotonic && p.time <= q.time)
  {
  }

  /** And nothing in between is left out: later rows of the history come after the row, unless it names its event. */
  lemma CounterpartIsLatest(history: seq<TopRow>, s: TopRow, i: nat, j: nat)
    requires Counterpart(history, s, i) && i < j < |history|
    ensures
      var (p, q) := (s.position, history[j].position);
      || p.local < q.local || (p.local == q.local && p.monotonic < q.monotonic)
      || (p.local == q.local && p.monotonic == q.monotonic && p.time < q.time)
      || (s.ref != "" && history[i].eventId == s.ref && history[j].eventId != s.ref)
  {
  }
}
