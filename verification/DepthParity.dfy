/** The depth comparator: a join on exact keys, and periodic checkpoints held against the as-of source snapshot. */
module DepthParity {
  import opened Outcomes
  import opened Sorting
  import TopbookParity

  type Value = TopbookParity.Value
  type GroupKey = TopbookParity.GroupKey
  type Verdict = TopbookParity.Verdict

  /** Depth rows are placed by local sequence and receipt time. */
  datatype Position = Position(local: nat, time: int)

  predicate AtOrBelow(a: Position, b: Position) {
    a.local < b.local || (a.local == b.local && a.time <= b.time)
  }

  datatype LevelKey = LevelKey(side: string, index: int)

  /** A depth row; `periodic` says that a periodic checkpoint event produced it. */
  datatype DepthRow = DepthRow(group: GroupKey, position: Position, venueSequence: Value, sid: Value, level: LevelKey,
                               fields: seq<Value>, eventId: string, periodic: bool)

  datatype DepthKey = DepthKey(group: GroupKey, local: nat, venueSequence: Value, sid: Value, level: LevelKey)

  datatype DepthError = KeysNotUnique | MixedCoordinates | LevelsNotUnique

  type CheckpointId = (string, GroupKey)

  function KeyOf(r: DepthRow): DepthKey {
    DepthKey(r.group, r.position.local, r.venueSequence, r.sid, r.level)
  }

  function PeriodicFields(r: DepthRow): seq<Value> {
    [r.venueSequence, r.sid] + r.fields
  }

  predicate SameValues(a: seq<Value>, b: seq<Value>) {
    |a| == |b| && forall i :: 0 <= i < |a| ==> TopbookParity.Equal(a[i], b[i])
  }

  // ---------------------------------------------------------------- what parity means

  ghost predicate UniqueBy<K(!new)>(key: DepthRow -> K, rows: seq<DepthRow>) {
    forall i, j :: 0 <= i < j < |rows| ==> key(rows[i]) != key(rows[j])
  }

  ghost predicate HasKey(rows: seq<DepthRow>, key: DepthKey) {
    exists r :: r in rows && KeyOf(r) == key
  }

  /** A recorded row has its reconstructed row, with the same values. */
  ghost predicate Matched(reconstructed: seq<DepthRow>, s: DepthRow) {
    exists r :: r in reconstructed && KeyOf(r) == KeyOf(s) && SameValues(r.fields, s.fields)
  }

  /** The reconstructed rows that were not recorded. */
  ghost predicate Unrecorded(reconstructed: seq<DepthRow>, source: seq<DepthRow>, r: DepthRow) {
    r in reconstructed && !HasKey(source, KeyOf(r))
  }

  function IdOf(r: DepthRow): CheckpointId {
    (r.eventId, r.group)
  }

  /** The unrecorded rows of one periodic checkpoint. */
  ghost function CheckpointRows(reconstructed: seq<DepthRow>, source: seq<DepthRow>, id: CheckpointId): seq<DepthRow> {
    if reconstructed == [] then []
    else
      var last := reconstructed[|reconstructed| - 1];
      CheckpointRows(reconstructed[..|reconstructed| - 1], source, id)
      + if !HasKey(source, KeyOf(last)) && last.periodic && IdOf(last) == id then [last] else []
  }

  /** The last recorded position of the instrument at or before `at`. */
  ghost predicate IsBaseline(source: seq<DepthRow>, group: GroupKey, at: Position, p: Position) {
    && (exists s :: s in source && s.group == group && s.position == p)
    && AtOrBelow(p, at)
    && forall s :: s in source && s.group == group && AtOrBelow(s.position, at) ==> AtOrBelow(s.position, p)
  }

  ghost predicate InSnapshot(source: seq<DepthRow>, group: GroupKey, p: Position, s: DepthRow) {
    s in source && s.group == group && s.position == p
  }

  ghost predicate Mixed(rows: seq<DepthRow>) {
    exists r, q :: r in rows && q in rows && r.position != q.position
  }

  /** The checkpoint's rows and the snapshot have the same levels with the same values. */
  ghost predicate Restates(rows: seq<DepthRow>, snapshot: seq<DepthRow>) {
    && (forall r :: r in rows ==>
      exists s :: s in snapshot && s.level == r.level && SameValues(PeriodicFields(r), PeriodicFields(s)))
    && (forall s :: s in snapshot ==> exists r :: r in rows && r.level == s.level)
  }

  /** A checkpoint whose rows cannot be compared: several positions, or a level twice. */
  ghost predicate Malformed(rows: seq<DepthRow>, source: seq<DepthRow>, group: GroupKey)
    requires rows != []
  {
    || Mixed(rows)
    || exists p :: IsBaseline(source, group, rows[0].position, p)
                   && !(UniqueBy(LevelOf, rows) && UniqueBy(LevelOf, Snapshot(source, group, p)))
  }

  /** The snapshot recorded last before the checkpoint exists, and the checkpoint restates it. */
  ghost predicate CheckpointHolds(rows: seq<DepthRow>, source: seq<DepthRow>, group: GroupKey)
    requires rows != []
  {
    exists p :: IsBaseline(source, group, rows[0].position, p) && Restates(rows, Snapshot(source, group, p))
  }

  ghost predicate AllMatched(reconstructed: seq<DepthRow>, source: seq<DepthRow>) {
    forall s :: s in source ==> Matched(reconstructed, s)
  }

  ghost predicate OnlyPeriodicUnrecorded(reconstructed: seq<DepthRow>, source: seq<DepthRow>) {
    forall r :: Unrecorded(reconstructed, source, r) ==> r.periodic
  }

  ghost predicate HoldsAt(reconstructed: seq<DepthRow>, source: seq<DepthRow>, id: CheckpointId) {
    CheckpointRows(reconstructed, source, id) != [] ==>
      CheckpointHolds(CheckpointRows(reconstructed, source, id), source, id.1)
  }

  ghost predicate MalformedAt(reconstructed: seq<DepthRow>, source: seq<DepthRow>, id: CheckpointId) {
    CheckpointRows(reconstructed, source, id) != []
      && Malformed(CheckpointRows(reconstructed, source, id), source, id.1)
  }

  /** Every recorded row is explained, and what was not recorded only restates, level by level, what was. */
  ghost predicate Parity(reconstructed: seq<DepthRow>, source: seq<DepthRow>) {
    AllMatched(reconstructed, source) && OnlyPeriodicUnrecorded(reconstructed, source)
    && forall id :: HoldsAt(reconstructed, source, id)
  }

  // ---------------------------------------------------------------- pieces of the comparator

  /** Rows by their comparison key, unless two rows share one. */
  method UniqueParityRows<K(==, !new)>(rows: seq<DepthRow>, key: DepthRow -> K)
    returns (byKey: map<K, DepthRow>, unique: bool)
    ensures unique <==> UniqueBy(key, rows)
    ensures unique ==> forall r :: r in rows ==> key(r) in byKey && byKey[key(r)] == r
    ensures unique ==> forall k :: k in byKey ==> byKey[k] in rows && key(byKey[k]) == k
  {
    byKey := map[];
    for i := 0 to |rows|
      invariant UniqueBy(key, rows[..i])
      invariant forall j :: 0 <= j < i ==> key(rows[j]) in byKey && byKey[key(rows[j])] == rows[j]
      invariant forall k :: k in byKey ==> byKey[k] in rows[..i] && key(byKey[k]) == k
    {
      if key(rows[i]) in byKey {
        var j :| 0 <= j < i && rows[j] == byKey[key(rows[i])];
        return byKey, false;
      }
      byKey := byKey[key(rows[i]) := rows[i]];
    }
    assert rows[..|rows|] == rows;
    unique := true;
  }

  lemma PositionsTotal()
    ensures TotalPreorder(AtOrBelow)
  {
  }

  method BisectRight(candidates: seq<Position>, at: Position) returns (k: nat)
    requires Sorted(AtOrBelow, candidates)
    ensures k <= |candidates|
    ensures forall i :: 0 <= i < k ==> AtOrBelow(candidates[i], at)
    ensures forall i :: k <= i < |candidates| ==> !AtOrBelow(candidates[i], at)
  {
    var lo, hi := 0, |candidates|;
    while lo < hi
      invariant 0 <= lo <= hi <= |candidates|
      invariant forall i :: 0 <= i < lo ==> AtOrBelow(candidates[i], at)
      invariant forall i :: hi <= i < |candidates| ==> !AtOrBelow(candidates[i], at)
    {
      var mid := (lo + hi) / 2;
      if AtOrBelow(candidates[mid], at) {
        lo := mid + 1;
      } else {
        hi := mid;
      }
    }
    k := lo;
  }

  lemma SortedPositions(positions: seq<Position>)
    ensures Sorted(AtOrBelow, StableSort(AtOrBelow, positions))
    ensures forall q :: q in StableSort(AtOrBelow, positions) <==> q in positions
  {
    PositionsTotal();
    StableSortCorrect(AtOrBelow, positions);
    forall q ensures q in StableSort(AtOrBelow, positions) <==> q in positions {
      assert q in multiset(StableSort(AtOrBelow, positions)) <==> q in multiset(positions);
    }
  }

  lemma LastCandidateIsBaseline(source: seq<DepthRow>, group: GroupKey, at: Position, candidates: seq<Position>, k: nat)
    requires Sorted(AtOrBelow, candidates) && 0 < k <= |candidates|
    requires forall q :: q in candidates <==> exists s :: s in source && s.group == group && s.position == q
    requires forall i :: 0 <= i < k ==> AtOrBelow(candidates[i], at)
    requires forall i :: k <= i < |candidates| ==> !AtOrBelow(candidates[i], at)
    ensures IsBaseline(source, group, at, candidates[k - 1])
  {
    var p := candidates[k - 1];
    assert p in candidates && AtOrBelow(p, at);
    forall s | s in source && s.group == group && AtOrBelow(s.position, at)
      ensures AtOrBelow(s.position, p)
    {
      assert s.position in candidates;
      var i :| 0 <= i < |candidates| && candidates[i] == s.position;
      assert AtOrBelow(candidates[i], at);
      if i < k - 1 {
        assert AtOrBelow(candidates[i], candidates[k - 1]);
      }
    }
  }

  /** Sorted distinct positions and a right bisection. */
  method Baseline(source: seq<DepthRow>, group: GroupKey, at: Position) returns (p: Option<Position>)
    ensures p.Some? ==> IsBaseline(source, group, at, p.value)
    ensures p.None? ==> forall s :: s in source && s.group == group ==> !AtOrBelow(s.position, at)
  {
    hide StableSort, Sorted, IsBaseline;
    var positions := InstrumentPositions(source, group);
    var candidates := StableSort(AtOrBelow, positions);
    SortedPositions(positions);
    var k := BisectRight(candidates, at);
    if k == 0 {
      assert forall s :: s in source && s.group == group ==> s.position in candidates;
      return None;
    }
    LastCandidateIsBaseline(source, group, at, candidates, k);
    p := Some(candidates[k - 1]);
  }

  method InstrumentPositions(source: seq<DepthRow>, group: GroupKey) returns (positions: seq<Position>)
    ensures forall q :: q in positions <==> exists s :: s in source && s.group == group && s.position == q
  {
    positions := [];
    for i := 0 to |source|
      invariant forall q ::
        q in positions
        <==> exists j :: 0 <= j < i && source[j].group == group && source[j].position == q
    {
      if source[i].group == group && source[i].position !in positions {
        positions := positions + [source[i].position];
      }
    }
  }

  function Snapshot(source: seq<DepthRow>, group: GroupKey, p: Position): seq<DepthRow> {
    if source == [] then []
    else
      var last := source[|source| - 1];
      Snapshot(source[..|source| - 1], group, p) + if last.group == group && last.position == p then [last] else []
  }

  lemma {:induction false} SnapshotHolds(source: seq<DepthRow>, group: GroupKey, p: Position, s: DepthRow)
    ensures s in Snapshot(source, group, p) <==> InSnapshot(source, group, p, s)
  {
    if source != [] {
      var n := |source| - 1;
      SnapshotHolds(source[..n], group, p, s);
      assert source == source[..n] + [source[n]];
    }
  }

  method TakeSnapshot(source: seq<DepthRow>, group: GroupKey, p: Position) returns (rows: seq<DepthRow>)
    ensures rows == Snapshot(source, group, p)
  {
    rows := [];
    for i := 0 to |source|
      invariant rows == Snapshot(source[..i], group, p)
    {
      assert source[..i + 1][..i] == source[..i];
      if source[i].group == group && source[i].position == p {
        rows := rows + [source[i]];
      }
    }
    assert source[..|source|] == source;
  }

  function LevelOf(r: DepthRow): LevelKey {
    r.level
  }

  /** Level by level, one checkpoint against one snapshot. */
  method CompareLevels(rows: seq<DepthRow>, snapshot: seq<DepthRow>) returns (out: Result<nat, DepthError>)
    ensures out.Ok? <==> UniqueBy(LevelOf, rows) && UniqueBy(LevelOf, snapshot)
    ensures out.Ok? ==> (out.value == 0 <==> Restates(rows, snapshot))
    ensures out.Ok? ==> out.value == |LevelsApart(rows, snapshot)|
  {
    var periodic, first := UniqueParityRows(rows, LevelOf);
    if !first {
      return Err(LevelsNotUnique);
    }
    var baseline, second := UniqueParityRows(snapshot, LevelOf);
    if !second {
      return Err(LevelsNotUnique);
    }
    hide UniqueBy, AllAgree, Restates;
    LevelsRestate(rows, snapshot, periodic, baseline);
    var discrepancies := CountDisagreeing(periodic, baseline);
    ApartLevels(rows, snapshot, periodic, baseline);
    out := Ok(discrepancies);
  }

  /** The levels that only one of them has, or that they have with different values. */
  ghost function LevelsApart(rows: seq<DepthRow>, snapshot: seq<DepthRow>): set<LevelKey> {
    set r | r in rows + snapshot && !RestatedAt(rows, snapshot, r.level) :: r.level
  }

  /** Both have the level, with the same values. */
  ghost predicate RestatedAt(rows: seq<DepthRow>, snapshot: seq<DepthRow>, k: LevelKey) {
    exists a, b ::
      a in rows && b in snapshot && a.level == k && b.level == k && SameValues(PeriodicFields(a), PeriodicFields(b))
  }

  ghost function Disagreeing(periodic: map<LevelKey, DepthRow>, baseline: map<LevelKey, DepthRow>,
                             keys: set<LevelKey>): set<LevelKey>
  {
    set k | k in keys && !LevelAgrees(periodic, baseline, k)
  }

  lemma ApartLevels(rows: seq<DepthRow>, snapshot: seq<DepthRow>, periodic: map<LevelKey, DepthRow>,
                    baseline: map<LevelKey, DepthRow>)
    requires ByLevel(rows, periodic) && ByLevel(snapshot, baseline)
    ensures Disagreeing(periodic, baseline, periodic.Keys + baseline.Keys) == LevelsApart(rows, snapshot)
  {
    hide SameValues, PeriodicFields;
    forall k ensures k in Disagreeing(periodic, baseline, periodic.Keys + baseline.Keys)
      <==> k in LevelsApart(rows, snapshot)
    {
      if k in periodic {
        assert periodic[k] in rows + snapshot;
      }
      if k in baseline {
        assert baseline[k] in rows + snapshot;
      }
    }
  }

  /** The levels that only one side has, or that the sides have with different values. */
  method CountDisagreeing(periodic: map<LevelKey, DepthRow>, baseline: map<LevelKey, DepthRow>)
    returns (discrepancies: nat)
    ensures discrepancies == 0 <==> AllAgree(periodic, baseline)
    ensures discrepancies == |Disagreeing(periodic, baseline, periodic.Keys + baseline.Keys)|
  {
    hide AgreeOn, SameValues;
    discrepancies := 0;
    var levels := periodic.Keys + baseline.Keys;
    var todo := levels;
    ghost var done: set<LevelKey> := {};
    assert Disagreeing(periodic, baseline, {}) == {};
    hide Disagreeing;
    while todo != {}
      invariant todo <= levels && done == levels - todo
      invariant discrepancies == |Disagreeing(periodic, baseline, done)|
      decreases todo
    {
      var k :| k in todo;
      OneMoreLevel(periodic, baseline, done, k);
      assert levels - (todo - {k}) == done + {k};
      todo, done := todo - {k}, done + {k};
      if k !in periodic || k !in baseline || !SameValues(PeriodicFields(periodic[k]), PeriodicFields(baseline[k])) {
        discrepancies := discrepancies + 1;
      }
    }
    assert done == levels;
    NoneDisagree(periodic, baseline, levels);
  }

  lemma NoneDisagree(periodic: map<LevelKey, DepthRow>, baseline: map<LevelKey, DepthRow>, keys: set<LevelKey>)
    ensures |Disagreeing(periodic, baseline, keys)| == 0 <==> AgreeOn(periodic, baseline, keys)
  {
    hide LevelAgrees;
    var apart := Disagreeing(periodic, baseline, keys);
    assert |apart| == 0 <==> apart == {};
    if AgreeOn(periodic, baseline, keys) {
      assert forall k :: k !in apart;
    } else {
      var k :| k in keys && !LevelAgrees(periodic, baseline, k);
      assert k in apart;
    }
  }

  lemma OneMoreLevel(periodic: map<LevelKey, DepthRow>, baseline: map<LevelKey, DepthRow>, keys: set<LevelKey>,
                     k: LevelKey)
    requires k !in keys
    ensures |Disagreeing(periodic, baseline, keys + {k})|
      == |Disagreeing(periodic, baseline, keys)| + if LevelAgrees(periodic, baseline, k) then 0 else 1
  {
    hide LevelAgrees;
    assert Disagreeing(periodic, baseline, keys + {k})
      == Disagreeing(periodic, baseline, keys) + if LevelAgrees(periodic, baseline, k) then {} else {k};
  }

  predicate LevelAgrees(periodic: map<LevelKey, DepthRow>, baseline: map<LevelKey, DepthRow>, k: LevelKey) {
    k in periodic && k in baseline && SameValues(PeriodicFields(periodic[k]), PeriodicFields(baseline[k]))
  }

  ghost predicate ByLevel(rows: seq<DepthRow>, byLevel: map<LevelKey, DepthRow>) {
    && (forall r :: r in rows ==> r.level in byLevel && byLevel[r.level] == r)
    && forall k :: k in byLevel ==> byLevel[k] in rows && byLevel[k].level == k
  }

  ghost predicate AgreeOn(periodic: map<LevelKey, DepthRow>, baseline: map<LevelKey, DepthRow>, keys: set<LevelKey>) {
    forall k :: k in keys ==> LevelAgrees(periodic, baseline, k)
  }

  ghost predicate AllAgree(periodic: map<LevelKey, DepthRow>, baseline: map<LevelKey, DepthRow>) {
    AgreeOn(periodic, baseline, periodic.Keys + baseline.Keys)
  }

  lemma AgreementRestates(rows: seq<DepthRow>, snapshot: seq<DepthRow>, periodic: map<LevelKey, DepthRow>,
                          baseline: map<LevelKey, DepthRow>)
    requires ByLevel(rows, periodic) && ByLevel(snapshot, baseline) && AllAgree(periodic, baseline)
    ensures Restates(rows, snapshot)
  {
    hide SameValues;
    forall r | r in rows
      ensures exists s :: s in snapshot && s.level == r.level && SameValues(PeriodicFields(r), PeriodicFields(s))
    {
      assert LevelAgrees(periodic, baseline, r.level);
      assert baseline[r.level] in snapshot;
    }
    forall s | s in snapshot ensures exists r :: r in rows && r.level == s.level {
      assert LevelAgrees(periodic, baseline, s.level);
      assert periodic[s.level] in rows;
    }
  }

  lemma RestatingAgrees(rows: seq<DepthRow>, snapshot: seq<DepthRow>, periodic: map<LevelKey, DepthRow>,
                        baseline: map<LevelKey, DepthRow>,
                        k: LevelKey)
    requires ByLevel(rows, periodic) && ByLevel(snapshot, baseline) && Restates(rows, snapshot)
    requires k in periodic || k in baseline
    ensures LevelAgrees(periodic, baseline, k)
  {
    hide SameValues;
    if k in baseline {
      var r :| r in rows && r.level == baseline[k].level;
    }
    var s :| s in snapshot && s.level == k && SameValues(PeriodicFields(periodic[k]), PeriodicFields(s));
  }

  lemma LevelsRestate(rows: seq<DepthRow>, snapshot: seq<DepthRow>, periodic: map<LevelKey, DepthRow>,
                      baseline: map<LevelKey, DepthRow>)
    requires ByLevel(rows, periodic) && ByLevel(snapshot, baseline)
    ensures AllAgree(periodic, baseline) <==> Restates(rows, snapshot)
  {
    hide ByLevel, Restates, LevelAgrees;
    if AllAgree(periodic, baseline) {
      AgreementRestates(rows, snapshot, periodic, baseline);
    }
    if Restates(rows, snapshot) {
      forall k | k in periodic.Keys + baseline.Keys ensures LevelAgrees(periodic, baseline, k) {
        RestatingAgrees(rows, snapshot, periodic, baseline, k);
      }
    }
  }

  lemma BaselineUnique(source: seq<DepthRow>, group: GroupKey, at: Position, p: Position, q: Position)
    requires IsBaseline(source, group, at, p) && IsBaseline(source, group, at, q)
    ensures p == q
  {
    var s :| s in source && s.group == group && s.position == p;
    var t :| t in source && t.group == group && t.position == q;
    assert AtOrBelow(s.position, q) && AtOrBelow(t.position, p);
  }

  method SamePosition(rows: seq<DepthRow>) returns (same: bool)
    requires rows != []
    ensures same <==> !Mixed(rows)
  {
    same := true;
    for i := 0 to |rows|
      invariant same <==> forall j :: 0 <= j < i ==> rows[j].position == rows[0].position
    {
      same := same && rows[i].position == rows[0].position;
    }
    if !same {
      var j :| 0 <= j < |rows| && rows[j].position != rows[0].position;
      assert rows[j] in rows && rows[0] in rows;
    }
  }

  /** One periodic checkpoint against the last snapshot recorded before it. */
  method CompareCheckpoint(rows: seq<DepthRow>, source: seq<DepthRow>, group: GroupKey)
    returns (out: Result<nat, DepthError>)
    requires rows != []
    ensures out.Err? <==> Malformed(rows, source, group)
    ensures out.Ok? ==> (out.value == 0 <==> CheckpointHolds(rows, source, group))
    ensures out.Ok? ==> out.value == CheckpointFaults(rows, source, group)
  {
    hide Mixed, UniqueBy, Snapshot, Restates, IsBaseline;
    var same := SamePosition(rows);
    if !same {
      return Err(MixedCoordinates);
    }
    var baseline := Baseline(source, group, rows[0].position);
    if baseline.None? {
      NoBaseline(source, group, rows[0].position);
      return Ok(1);
    }
    var p := baseline.value;
    forall q | IsBaseline(source, group, rows[0].position, q) ensures q == p {
      BaselineUnique(source, group, rows[0].position, q, p);
    }
    var snapshot := TakeSnapshot(source, group, p);
    out := CompareLevels(rows, snapshot);
  }

  /** One for a checkpoint without a snapshot before it, else the number of levels it does not restate. */
  ghost function CheckpointFaults(rows: seq<DepthRow>, source: seq<DepthRow>, group: GroupKey): nat
    requires rows != []
  {
    if p :| IsBaseline(source, group, rows[0].position, p) then |LevelsApart(rows, Snapshot(source, group, p))| else 1
  }

  lemma NoBaseline(source: seq<DepthRow>, group: GroupKey, at: Position)
    requires forall s :: s in source && s.group == group ==> !AtOrBelow(s.position, at)
    ensures forall p :: !IsBaseline(source, group, at, p)
  {
  }

  /** Recorded rows that have no reconstructed row with their key and values. */
  method CountUnmatched(reconstructed: seq<DepthRow>, byKey: map<DepthKey, DepthRow>, source: seq<DepthRow>)
    returns (unmatched: nat)
    requires forall r :: r in reconstructed ==> KeyOf(r) in byKey && byKey[KeyOf(r)] == r
    requires forall k :: k in byKey ==> byKey[k] in reconstructed && KeyOf(byKey[k]) == k
    ensures unmatched == CountNotMatched(reconstructed, source)
  {
    hide SameValues;
    unmatched := 0;
    for i := 0 to |source|
      invariant unmatched == CountNotMatched(reconstructed, source[..i])
    {
      assert source[..i + 1][..i] == source[..i];
      var s := source[i];
      if KeyOf(s) !in byKey || !SameValues(byKey[KeyOf(s)].fields, s.fields) {
        unmatched := unmatched + 1;
        assert !Matched(reconstructed, s);
      } else {
        assert Matched(reconstructed, s);
      }
    }
    assert source[..|source|] == source;
  }

  /** How many recorded rows have no reconstructed row with their key and values. */
  ghost function CountNotMatched(reconstructed: seq<DepthRow>, source: seq<DepthRow>): nat {
    if source == [] then 0
    else CountNotMatched(reconstructed, source[..|source| - 1])
         + if Matched(reconstructed, source[|source| - 1]) then 0 else 1
  }

  lemma {:induction false} NotMatchedCounted(reconstructed: seq<DepthRow>, source: seq<DepthRow>)
    ensures CountNotMatched(reconstructed, source) == 0 <==> AllMatched(reconstructed, source)
  {
    hide Matched;
    if source != [] {
      var n := |source| - 1;
      NotMatchedCounted(reconstructed, source[..n]);
      assert source == source[..n] + [source[n]];
    }
  }

  /** How many reconstructed rows were not recorded and belong to no periodic checkpoint. */
  ghost function CountUnrecorded(reconstructed: seq<DepthRow>, source: seq<DepthRow>): nat {
    if reconstructed == [] then 0
    else
      var last := reconstructed[|reconstructed| - 1];
      CountUnrecorded(reconstructed[..|reconstructed| - 1], source)
      + if !HasKey(source, KeyOf(last)) && !last.periodic then 1 else 0
  }

  lemma NoneUnrecorded(source: seq<DepthRow>)
    ensures CountUnrecorded([], source) == 0
  {
  }

  lemma OneMoreUnrecorded(reconstructed: seq<DepthRow>, source: seq<DepthRow>, r: DepthRow)
    ensures CountUnrecorded(reconstructed + [r], source)
      == CountUnrecorded(reconstructed, source) + if !HasKey(source, KeyOf(r)) && !r.periodic then 1 else 0
  {
    hide HasKey;
    assert (reconstructed + [r])[..|reconstructed|] == reconstructed;
  }

  lemma {:induction false} UnrecordedCounted(reconstructed: seq<DepthRow>, source: seq<DepthRow>)
    ensures CountUnrecorded(reconstructed, source) == 0 <==> OnlyPeriodicUnrecorded(reconstructed, source)
  {
    hide HasKey;
    if reconstructed != [] {
      var n := |reconstructed| - 1;
      UnrecordedCounted(reconstructed[..n], source);
      assert reconstructed == reconstructed[..n] + [reconstructed[n]];
    }
  }

  ghost predicate AreBuckets(reconstructed: seq<DepthRow>, source: seq<DepthRow>, buckets: map<CheckpointId,
                             seq<DepthRow>>)
  {
    forall id :: CheckpointRows(reconstructed, source, id) == if id in buckets then buckets[id] else []
  }

  lemma BucketGrows(reconstructed: seq<DepthRow>, source: seq<DepthRow>, buckets: map<CheckpointId, seq<DepthRow>>,
                    r: DepthRow)
    requires AreBuckets(reconstructed, source, buckets)
    ensures
      var here := IdOf(r);
      AreBuckets(reconstructed + [r], source,
        if !HasKey(source, KeyOf(r)) && r.periodic
        then buckets[here := (if here in buckets then buckets[here] else []) + [r]] else buckets)
  {
    assert (reconstructed + [r])[..|reconstructed|] == reconstructed;
    hide HasKey;
  }

  /** Unrecorded rows: those of periodic checkpoints by checkpoint, and a count of the others. */
  method SortUnrecorded(reconstructed: seq<DepthRow>, recorded: map<DepthKey, DepthRow>, source: seq<DepthRow>)
    returns (buckets: map<CheckpointId, seq<DepthRow>>, missing: nat)
    requires forall k :: k in recorded <==> HasKey(source, k)
    ensures AreBuckets(reconstructed, source, buckets)
    ensures forall id :: id in buckets ==> buckets[id] != []
    ensures missing == CountUnrecorded(reconstructed, source)
    ensures buckets.Keys == CheckpointIds(reconstructed, source)
  {
    hide HasKey, AreBuckets, CountUnrecorded, CheckpointIds, KeyOf, IdOf;
    assert CountUnrecorded([], source) == 0 by { NoneUnrecorded(source); }
    buckets, missing := map[], 0;
    NoBuckets(source);
    for i := 0 to |reconstructed|
      invariant AreBuckets(reconstructed[..i], source, buckets)
      invariant forall id :: id in buckets ==> buckets[id] != []
      invariant missing == CountUnrecorded(reconstructed[..i], source)
    {
      var r := reconstructed[i];
      assert reconstructed[..i + 1] == reconstructed[..i] + [r];
      BucketGrows(reconstructed[..i], source, buckets, r);
      OneMoreUnrecorded(reconstructed[..i], source, r);
      if KeyOf(r) !in recorded {
        if r.periodic {
          buckets := buckets[IdOf(r) := (if IdOf(r) in buckets then buckets[IdOf(r)] else []) + [r]];
        } else {
          missing := missing + 1;
        }
      }
    }
    assert reconstructed[..|reconstructed|] == reconstructed;
    BucketIds(reconstructed, source, buckets);
  }

  lemma BucketIds(reconstructed: seq<DepthRow>, source: seq<DepthRow>, buckets: map<CheckpointId, seq<DepthRow>>)
    requires AreBuckets(reconstructed, source, buckets) && forall id :: id in buckets ==> buckets[id] != []
    ensures buckets.Keys == CheckpointIds(reconstructed, source)
  {
    hide CheckpointRows, CheckpointIds;
    forall id ensures id in buckets <==> id in CheckpointIds(reconstructed, source) {
      CheckpointHasRows(reconstructed, source, id);
    }
  }

  /** The periodic checkpoints with rows that were not recorded. */
  ghost function CheckpointIds(reconstructed: seq<DepthRow>, source: seq<DepthRow>): set<CheckpointId> {
    set r | r in reconstructed && !HasKey(source, KeyOf(r)) && r.periodic :: IdOf(r)
  }

  lemma {:induction false} CheckpointHasRows(reconstructed: seq<DepthRow>, source: seq<DepthRow>, id: CheckpointId)
    ensures id in CheckpointIds(reconstructed, source) <==> CheckpointRows(reconstructed, source, id) != []
  {
    hide HasKey;
    if reconstructed != [] {
      var n := |reconstructed| - 1;
      CheckpointHasRows(reconstructed[..n], source, id);
      assert reconstructed == reconstructed[..n] + [reconstructed[n]];
    }
  }

  lemma NoBuckets(source: seq<DepthRow>)
    ensures AreBuckets([], source, map[])
  {
  }

  ghost predicate AllHold(reconstructed: seq<DepthRow>, source: seq<DepthRow>, ids: set<CheckpointId>) {
    forall id :: id in ids ==> HoldsAt(reconstructed, source, id)
  }

  ghost predicate NoneMalformed(reconstructed: seq<DepthRow>, source: seq<DepthRow>, ids: set<CheckpointId>) {
    forall id :: id in ids ==> !MalformedAt(reconstructed, source, id)
  }

  lemma BucketOf(reconstructed: seq<DepthRow>, source: seq<DepthRow>, buckets: map<CheckpointId, seq<DepthRow>>,
                 id: CheckpointId)
    requires AreBuckets(reconstructed, source, buckets)
    ensures CheckpointRows(reconstructed, source, id) == if id in buckets then buckets[id] else []
    ensures id in buckets && buckets[id] != [] ==>
      && (MalformedAt(reconstructed, source, id) <==> Malformed(buckets[id], source, id.1))
      && (HoldsAt(reconstructed, source, id) <==> CheckpointHolds(buckets[id], source, id.1))
      && FaultsAt(reconstructed, source)(id) == CheckpointFaults(buckets[id], source, id.1)
  {
    hide Malformed, CheckpointHolds, CheckpointFaults;
  }

  /** The discrepancies of each checkpoint with unrecorded rows. */
  ghost function FaultsAt(reconstructed: seq<DepthRow>, source: seq<DepthRow>): CheckpointId -> nat {
    id => var rows := CheckpointRows(reconstructed, source, id);
          if rows == [] then 0 else CheckpointFaults(rows, source, id.1)
  }

  /** A checkpoint that can be compared has no discrepancy exactly when it restates its snapshot. */
  lemma NoFaults(rows: seq<DepthRow>, source: seq<DepthRow>, group: GroupKey)
    requires rows != [] && !Malformed(rows, source, group)
    ensures CheckpointFaults(rows, source, group) == 0 <==> CheckpointHolds(rows, source, group)
  {
    hide Mixed, UniqueBy, Snapshot, Restates, IsBaseline, LevelsApart;
    if p :| IsBaseline(source, group, rows[0].position, p) {
      forall q | IsBaseline(source, group, rows[0].position, q) ensures q == p {
        BaselineUnique(source, group, rows[0].position, q, p);
      }
      NoLevelsApart(rows, Snapshot(source, group, p));
    }
  }

  lemma NoLevelsApart(rows: seq<DepthRow>, snapshot: seq<DepthRow>)
    requires UniqueBy(LevelOf, rows) && UniqueBy(LevelOf, snapshot)
    ensures |LevelsApart(rows, snapshot)| == 0 <==> Restates(rows, snapshot)
  {
    hide SameValues, PeriodicFields, RestatedAt, Restates, UniqueBy;
    var apart := LevelsApart(rows, snapshot);
    assert |apart| == 0 <==> apart == {};
    assert forall r :: r in rows + snapshot && !RestatedAt(rows, snapshot, r.level) ==> r.level in apart;
    assert apart == {} <==> forall r :: r in rows + snapshot ==> RestatedAt(rows, snapshot, r.level);
    if apart == {} {
      AllRestated(rows, snapshot);
    }
    if Restates(rows, snapshot) {
      forall r | r in rows + snapshot ensures RestatedAt(rows, snapshot, r.level) {
        LevelRestated(rows, snapshot, r.level);
      }
    }
  }

  lemma AllRestated(rows: seq<DepthRow>, snapshot: seq<DepthRow>)
    requires UniqueBy(LevelOf, rows)
    requires forall r :: r in rows + snapshot ==> RestatedAt(rows, snapshot, r.level)
    ensures Restates(rows, snapshot)
  {
    hide SameValues, PeriodicFields;
    forall r | r in rows
      ensures exists s ::
        s in snapshot && s.level == r.level && SameValues(PeriodicFields(r), PeriodicFields(s))
    {
      assert r in rows + snapshot && RestatedAt(rows, snapshot, r.level);
      var a, b :| a in rows && b in snapshot && a.level == r.level && b.level == r.level
        && SameValues(PeriodicFields(a), PeriodicFields(b));
      assert LevelOf(a) == LevelOf(r) && a == r;
    }
    forall s | s in snapshot ensures exists r :: r in rows && r.level == s.level {
      assert s in rows + snapshot && RestatedAt(rows, snapshot, s.level);
    }
  }

  lemma LevelRestated(rows: seq<DepthRow>, snapshot: seq<DepthRow>, k: LevelKey)
    requires Restates(rows, snapshot) && exists r :: r in rows + snapshot && r.level == k
    ensures RestatedAt(rows, snapshot, k)
  {
    hide SameValues, PeriodicFields;
    var r :| r in rows + snapshot && r.level == k;
    if r in rows {
      FromRow(rows, snapshot, r);
    } else {
      var a :| a in rows && a.level == r.level;
      FromRow(rows, snapshot, a);
    }
  }

  lemma FromRow(rows: seq<DepthRow>, snapshot: seq<DepthRow>, a: DepthRow)
    requires Restates(rows, snapshot) && a in rows
    ensures RestatedAt(rows, snapshot, a.level)
  {
    hide SameValues, PeriodicFields;
    var b :| b in snapshot && b.level == a.level && SameValues(PeriodicFields(a), PeriodicFields(b));
  }

  method CompareCheckpoints(ghost reconstructed: seq<DepthRow>, source: seq<DepthRow>, buckets: map<CheckpointId,
                            seq<DepthRow>>)
    returns (out: Result<nat, DepthError>)
    requires AreBuckets(reconstructed, source, buckets) && forall id :: id in buckets ==> buckets[id] != []
    ensures out.Err? <==> !NoneMalformed(reconstructed, source, buckets.Keys)
    ensures out.Ok? ==> out.value == TopbookParity.SumOver(buckets.Keys, FaultsAt(reconstructed, source))
  {
    NoIds(reconstructed, source);
    hide AreBuckets, AddedUp, CheckpointFaults, Malformed, MalformedAt, FaultsAt, NoneMalformed;
    var discrepancies: nat := 0;
    var ids := buckets.Keys;
    var todo := ids;
    ghost var done: set<CheckpointId> := {};
    while todo != {}
      invariant todo <= ids && done == ids - todo
      invariant AddedUp(reconstructed, source, done, discrepancies)
      decreases todo
    {
      var id :| id in todo;
      BucketOf(reconstructed, source, buckets, id);
      assert ids - (todo - {id}) == done + {id};
      var here := CompareCheckpoint(buckets[id], source, id.1);
      if here.Err? {
        OneMalformed(reconstructed, source, ids, id);
        return here;
      }
      OneMoreAdded(reconstructed, source, done, id, discrepancies, here.value);
      todo, done := todo - {id}, done + {id};
      discrepancies := discrepancies + here.value;
    }
    assert done == ids;
    WhatIsAdded(reconstructed, source, ids, discrepancies);
    out := Ok(discrepancies);
  }

  /** The checkpoints could be compared, and these are their discrepancies. */
  ghost predicate AddedUp(reconstructed: seq<DepthRow>, source: seq<DepthRow>, ids: set<CheckpointId>, total: nat) {
    NoneMalformed(reconstructed, source, ids)
    && total == TopbookParity.SumOver(ids, FaultsAt(reconstructed, source))
  }

  lemma WhatIsAdded(reconstructed: seq<DepthRow>, source: seq<DepthRow>, ids: set<CheckpointId>, total: nat)
    requires AddedUp(reconstructed, source, ids, total)
    ensures NoneMalformed(reconstructed, source, ids)
    ensures total == TopbookParity.SumOver(ids, FaultsAt(reconstructed, source))
  {
  }

  lemma OneMoreAdded(reconstructed: seq<DepthRow>, source: seq<DepthRow>, ids: set<CheckpointId>, id: CheckpointId,
                     total: nat, here: nat)
    requires AddedUp(reconstructed, source, ids, total) && id !in ids && !MalformedAt(reconstructed, source, id)
    requires here == FaultsAt(reconstructed, source)(id)
    ensures AddedUp(reconstructed, source, ids + {id}, total + here)
  {
    hide MalformedAt, FaultsAt;
    TopbookParity.SumsJoin(ids, FaultsAt(reconstructed, source), id);
  }

  lemma OneMalformed(reconstructed: seq<DepthRow>, source: seq<DepthRow>, ids: set<CheckpointId>, id: CheckpointId)
    requires id in ids && MalformedAt(reconstructed, source, id)
    ensures !NoneMalformed(reconstructed, source, ids)
  {
  }

  lemma NoIds(reconstructed: seq<DepthRow>, source: seq<DepthRow>)
    ensures AddedUp(reconstructed, source, {}, 0)
  {
  }

  /** Checkpoints without unrecorded rows have nothing to hold or to break. */
  lemma OtherIds(reconstructed: seq<DepthRow>, source: seq<DepthRow>, buckets: map<CheckpointId, seq<DepthRow>>)
    requires AreBuckets(reconstructed, source, buckets)
    ensures AllHold(reconstructed, source, buckets.Keys) <==> forall id :: HoldsAt(reconstructed, source, id)
    ensures NoneMalformed(reconstructed, source, buckets.Keys) <==> forall id :: !MalformedAt(reconstructed, source, id)
  {
    forall id | id !in buckets ensures HoldsAt(reconstructed, source, id) && !MalformedAt(reconstructed, source, id) {
      BucketOf(reconstructed, source, buckets, id);
    }
    hide HoldsAt, MalformedAt;
  }

  lemma FaultsCounted(reconstructed: seq<DepthRow>, source: seq<DepthRow>, ids: set<CheckpointId>)
    requires NoneMalformed(reconstructed, source, ids)
    ensures TopbookParity.SumOver(ids, FaultsAt(reconstructed, source)) == 0 <==> AllHold(reconstructed, source, ids)
  {
    TopbookParity.NothingToSum(ids, FaultsAt(reconstructed, source));
    hide TopbookParity.SumOver, CheckpointFaults, CheckpointHolds, Malformed, CheckpointRows;
    forall id | id in ids ensures FaultsAt(reconstructed, source)(id) == 0 <==> HoldsAt(reconstructed, source, id) {
      assert !MalformedAt(reconstructed, source, id);
      var rows := CheckpointRows(reconstructed, source, id);
      if rows != [] {
        NoFaults(rows, source, id.1);
      }
    }
  }

  lemma KeysRecorded(source: seq<DepthRow>, byKey: map<DepthKey, DepthRow>)
    requires forall r :: r in source ==> KeyOf(r) in byKey && byKey[KeyOf(r)] == r
    requires forall k :: k in byKey ==> byKey[k] in source && KeyOf(byKey[k]) == k
    ensures forall k :: k in byKey <==> HasKey(source, k)
  {
  }

  /** What the comparison must say: it raises exactly on ambiguous rows, and otherwise matches exactly at parity. */
  ghost function VerdictOn(reconstructed: seq<DepthRow>, source: seq<DepthRow>): Verdict {
    if !UniqueBy(KeyOf, reconstructed) || !UniqueBy(KeyOf, source)
      || (exists id :: MalformedAt(reconstructed, source, id))
    then TopbookParity.Raises
    else if Parity(reconstructed, source) then TopbookParity.Matches
    else TopbookParity.Differs
  }

  function VerdictOf(out: Result<nat, DepthError>): Verdict {
    match out
    case Err(_) => TopbookParity.Raises
    case Ok(discrepancies) => if discrepancies == 0 then TopbookParity.Matches else TopbookParity.Differs
  }

  /** The whole comparison. */
  method CompareDepths(reconstructed: seq<DepthRow>, source: seq<DepthRow>) returns (out: Result<nat, DepthError>)
    ensures out.Err? <==> !UniqueBy(KeyOf, reconstructed) || !UniqueBy(KeyOf, source)
                          || exists id :: MalformedAt(reconstructed, source, id)
    ensures out.Ok? ==> (out.value == 0 <==> Parity(reconstructed, source))
    ensures VerdictOf(out) == VerdictOn(reconstructed, source)
    ensures out.Ok? ==>
      out.value ==
      CountNotMatched(reconstructed, source) + CountUnrecorded(reconstructed, source)
      + TopbookParity.SumOver(CheckpointIds(reconstructed, source), FaultsAt(reconstructed, source))
  {
    hide CountNotMatched, CountUnrecorded, FaultsAt, CheckpointIds, TopbookParity.SumOver;
    hide UniqueBy, MalformedAt, HoldsAt, AllMatched, OnlyPeriodicUnrecorded, AreBuckets, HasKey, AllHold, NoneMalformed;
    var byKey, first := UniqueParityRows(reconstructed, KeyOf);
    if !first {
      return Err(KeysNotUnique);
    }
    var recorded, second := UniqueParityRows(source, KeyOf);
    if !second {
      return Err(KeysNotUnique);
    }
    KeysRecorded(source, recorded);
    var unmatched := CountUnmatched(reconstructed, byKey, source);
    var buckets, missing := SortUnrecorded(reconstructed, recorded, source);
    OtherIds(reconstructed, source, buckets);
    var checkpoints :- CompareCheckpoints(reconstructed, source, buckets);
    NotMatchedCounted(reconstructed, source);
    UnrecordedCounted(reconstructed, source);
    FaultsCounted(reconstructed, source, buckets.Keys);
    out := Ok(unmatched + missing + checkpoints);
  }

  /** A recording of every reconstructed row matches if and only if no two of them share a key, and raises otherwise. */
  lemma CompleteRecording(rows: seq<DepthRow>)
    ensures VerdictOn(rows, rows) == if UniqueBy(KeyOf, rows) then TopbookParity.Matches else TopbookParity.Raises
  {
    forall s | s in rows ensures Matched(rows, s) {
      assert SameValues(s.fields, s.fields);
    }
    forall r | r in rows ensures HasKey(rows, KeyOf(r)) {
    }
    forall id ensures CheckpointRows(rows, rows, id) == [] {
      NothingUnrecorded(rows, rows, id);
    }
    hide UniqueBy, Matched, HasKey, CheckpointRows;
    assert AllMatched(rows, rows) && OnlyPeriodicUnrecorded(rows, rows);
    assert forall id :: HoldsAt(rows, rows, id) && !MalformedAt(rows, rows, id);
  }

  lemma {:induction false} NothingUnrecorded(reconstructed: seq<DepthRow>, source: seq<DepthRow>, id: CheckpointId)
    requires forall r :: r in reconstructed ==> HasKey(source, KeyOf(r))
    ensures CheckpointRows(reconstructed, source, id) == []
  {
    if reconstructed != [] {
      NothingUnrecorded(reconstructed[..|reconstructed| - 1], source, id);
    }
  }

  // ---------------------------------------------------------------- what a match says about values

  lemma AlikeValues(a: seq<Value>, b: seq<Value>)
    ensures TopbookParity.AllAlike(a, b) ==> SameValues(a, b)
    ensures (exists f :: 0 <= f < |a| && f < |b| && TopbookParity.Apart(a[f], b[f])) ==> !SameValues(a, b)
  {
    forall f | 0 <= f < |a| && f < |b|
      ensures TopbookParity.Alike(a[f], b[f]) ==> TopbookParity.Equal(a[f], b[f])
      ensures TopbookParity.Apart(a[f], b[f]) ==> !TopbookParity.Equal(a[f], b[f])
    {
      TopbookParity.ValuesCompared(a[f], b[f]);
    }
  }

  /** A recorded row that differs in one value from the reconstructed row of its key is never reported as a match. */
  lemma WrongValueNeverMatches(reconstructed: seq<DepthRow>, source: seq<DepthRow>, r: DepthRow, s: DepthRow, f: nat)
    requires r in reconstructed && s in source && KeyOf(r) == KeyOf(s)
    requires f < |r.fields| && f < |s.fields| && TopbookParity.Apart(r.fields[f], s.fields[f])
    ensures VerdictOn(reconstructed, source) != TopbookParity.Matches
  {
    AlikeValues(r.fields, s.fields);
    hide SameValues, HoldsAt, MalformedAt, OnlyPeriodicUnrecorded;
    if UniqueBy(KeyOf, reconstructed) {
      assert forall q :: q in reconstructed && KeyOf(q) == KeyOf(r) ==> q == r;
      assert !Matched(reconstructed, s);
    }
  }

  /** The checkpoint row and the snapshot row have a different venue sequence, session or value. */
  ghost predicate RowsApart(r: DepthRow, s: DepthRow) {
    || TopbookParity.Apart(r.venueSequence, s.venueSequence) || TopbookParity.Apart(r.sid, s.sid)
    || exists f :: 0 <= f < |r.fields| && f < |s.fields| && TopbookParity.Apart(r.fields[f], s.fields[f])
  }

  lemma RowsApartDiffer(r: DepthRow, s: DepthRow)
    requires RowsApart(r, s)
    ensures !SameValues(PeriodicFields(r), PeriodicFields(s))
  {
    var a, b := PeriodicFields(r), PeriodicFields(s);
    assert a[0] == r.venueSequence && b[0] == s.venueSequence && a[1] == r.sid && b[1] == s.sid;
    if f :| 0 <= f < |r.fields| && f < |s.fields| && TopbookParity.Apart(r.fields[f], s.fields[f]) {
      assert a[f + 2] == r.fields[f] && b[f + 2] == s.fields[f];
    }
    AlikeValues(a, b);
  }

  /**
   * An unrecorded checkpoint row that differs in one value from the snapshot row of its level, or that has no such
   * row, is never reported as a match.
   */
  lemma WrongCheckpointNeverMatches(reconstructed: seq<DepthRow>, source: seq<DepthRow>, id: CheckpointId, r: DepthRow,
                                    p: Position)
    requires r in CheckpointRows(reconstructed, source, id) && IsBaseline(source, id.1, r.position, p)
    requires forall s :: s in source && s.group == id.1 && s.position == p && s.level == r.level ==> RowsApart(r, s)
    ensures VerdictOn(reconstructed, source) != TopbookParity.Matches
  {
    var rows := CheckpointRows(reconstructed, source, id);
    hide CheckpointRows, UniqueBy, AllMatched, OnlyPeriodicUnrecorded, IsBaseline, SameValues, RowsApart;
    if !Mixed(rows) {
      assert rows[0] in rows;
      forall q | IsBaseline(source, id.1, rows[0].position, q) ensures q == p {
        BaselineUnique(source, id.1, rows[0].position, q, p);
      }
      forall s | s in Snapshot(source, id.1, p) && s.level == r.level
        ensures !SameValues(PeriodicFields(r), PeriodicFields(s))
      {
        SnapshotHolds(source, id.1, p, s);
        RowsApartDiffer(r, s);
      }
      assert !Restates(rows, Snapshot(source, id.1, p));
      assert !HoldsAt(reconstructed, source, id);
    } else {
      assert MalformedAt(reconstructed, source, id);
    }
  }

  /** A level of the snapshot that the checkpoint leaves out is never reported as a match. */
  lemma MissingLevelNeverMatches(reconstructed: seq<DepthRow>, source: seq<DepthRow>, id: CheckpointId, s: DepthRow)
    requires CheckpointRows(reconstructed, source, id) != [] && s in source && s.group == id.1
    requires IsBaseline(source, id.1, CheckpointRows(reconstructed, source, id)[0].position, s.position)
    requires forall r :: r in CheckpointRows(reconstructed, source, id) ==> r.level != s.level
    ensures VerdictOn(reconstructed, source) != TopbookParity.Matches
  {
    var rows := CheckpointRows(reconstructed, source, id);
    hide CheckpointRows, UniqueBy, AllMatched, OnlyPeriodicUnrecorded, IsBaseline, SameValues;
    forall q | IsBaseline(source, id.1, rows[0].position, q) ensures q == s.position {
      BaselineUnique(source, id.1, rows[0].position, q, s.position);
    }
    SnapshotHolds(source, id.1, s.position, s);
    assert !Restates(rows, Snapshot(source, id.1, s.position));
    assert !HoldsAt(reconstructed, source, id);
  }

  /** The recorded row has a reconstructed row of its key and the same values. */
  ghost predicate RightlyRecorded(reconstructed: seq<DepthRow>, s: DepthRow) {
    exists r :: r in reconstructed && KeyOf(r) == KeyOf(s) && TopbookParity.AllAlike(r.fields, s.fields)
  }

  ghost predicate RowsAlike(r: DepthRow, s: DepthRow) {
    && r.level == s.level && TopbookParity.Alike(r.venueSequence, s.venueSequence)
    && TopbookParity.Alike(r.sid, s.sid) && TopbookParity.AllAlike(r.fields, s.fields)
  }

  ghost predicate AlikeInSnapshot(source: seq<DepthRow>, group: GroupKey, p: Position, r: DepthRow) {
    exists s :: InSnapshot(source, group, p, s) && RowsAlike(r, s)
  }

  /** The rows and the snapshot at the position have the same levels, each once, with the same values. */
  ghost predicate RestatesAt(rows: seq<DepthRow>, source: seq<DepthRow>, group: GroupKey, p: Position) {
    && UniqueBy(LevelOf, rows) && UniqueBy(LevelOf, Snapshot(source, group, p))
    && (forall r :: r in rows ==> AlikeInSnapshot(source, group, p, r))
    && (forall s :: InSnapshot(source, group, p, s) ==> exists r :: r in rows && r.level == s.level)
  }

  /** All rows of the checkpoint stand at one position and restate the snapshot last recorded there. */
  ghost predicate RightlyRestated(rows: seq<DepthRow>, source: seq<DepthRow>, group: GroupKey) {
    && (forall r, q :: r in rows && q in rows ==> r.position == q.position)
    && forall r :: r in rows ==>
         exists p :: IsBaseline(source, group, r.position, p) && RestatesAt(rows, source, group, p)
  }

  lemma AlikeRestates(rows: seq<DepthRow>, source: seq<DepthRow>, group: GroupKey, p: Position)
    requires RestatesAt(rows, source, group, p)
    ensures Restates(rows, Snapshot(source, group, p))
  {
    hide UniqueBy, SameValues, RowsAlike, Snapshot, PeriodicFields;
    forall r | r in rows
      ensures exists s ::
        s in Snapshot(source, group, p) && s.level == r.level && SameValues(PeriodicFields(r), PeriodicFields(s))
    {
      assert AlikeInSnapshot(source, group, p, r);
      var s :| InSnapshot(source, group, p, s) && RowsAlike(r, s);
      SnapshotHolds(source, group, p, s);
      AlikeRows(r, s);
    }
    forall s | s in Snapshot(source, group, p) ensures exists r :: r in rows && r.level == s.level {
      SnapshotHolds(source, group, p, s);
    }
  }

  lemma RightlyRestatedHolds(rows: seq<DepthRow>, source: seq<DepthRow>, group: GroupKey)
    requires rows != [] && RightlyRestated(rows, source, group)
    ensures CheckpointHolds(rows, source, group) && !Malformed(rows, source, group)
  {
    hide UniqueBy, IsBaseline, Restates, Snapshot, AlikeInSnapshot, InSnapshot;
    assert rows[0] in rows;
    var p :| IsBaseline(source, group, rows[0].position, p) && RestatesAt(rows, source, group, p);
    forall q | IsBaseline(source, group, rows[0].position, q) ensures q == p {
      BaselineUnique(source, group, rows[0].position, q, p);
    }
    AlikeRestates(rows, source, group, p);
  }

  lemma AlikeRows(r: DepthRow, s: DepthRow)
    requires RowsAlike(r, s)
    ensures r.level == s.level && SameValues(PeriodicFields(r), PeriodicFields(s))
  {
    AlikeValues(PeriodicFields(r), PeriodicFields(s));
  }

  lemma RightValuesMatch(reconstructed: seq<DepthRow>, source: seq<DepthRow>)
    requires UniqueBy(KeyOf, reconstructed) && UniqueBy(KeyOf, source)
    requires forall s :: s in source ==> RightlyRecorded(reconstructed, s)
    requires forall r :: Unrecorded(reconstructed, source, r) ==> r.periodic
    requires forall id :: RightlyRestated(CheckpointRows(reconstructed, source, id), source, id.1)
    ensures VerdictOn(reconstructed, source) == TopbookParity.Matches
  {
    hide UniqueBy, CheckpointRows, RightlyRestated, CheckpointHolds, Malformed, SameValues;
    forall s | s in source ensures Matched(reconstructed, s) {
      var r :| r in reconstructed && KeyOf(r) == KeyOf(s) && TopbookParity.AllAlike(r.fields, s.fields);
      AlikeValues(r.fields, s.fields);
    }
    forall id ensures HoldsAt(reconstructed, source, id) && !MalformedAt(reconstructed, source, id) {
      if CheckpointRows(reconstructed, source, id) != [] {
        RightlyRestatedHolds(CheckpointRows(reconstructed, source, id), source, id.1);
      }
    }
  }

  /** The snapshot held against a checkpoint is the latest not after it: by local sequence, then receipt time. */
  lemma BaselineIsLatest(source: seq<DepthRow>, group: GroupKey, at: Position, p: Position, s: DepthRow)
    requires IsBaseline(source, group, at, p) && s in source && s.group == group
    ensures p.local < at.local || (p.local == at.local && p.time <= at.time)
    ensures
      || at.local < s.position.local || (at.local == s.position.local && at.time < s.position.time)
      || s.position.local < p.local || (s.position.local == p.local && s.position.time <= p.time)
  {
  }

  /** Rows with the same key are of one instrument, local sequence, venue sequence, session, side and level. */
  lemma KeysTellApart(r: DepthRow, s: DepthRow)
    ensures KeyOf(r) == KeyOf(s) <==>
      && r.group == s.group && r.position.local == s.position.local && r.venueSequence == s.venueSequence
      && r.sid == s.sid && r.level.side == s.level.side && r.level.index == s.level.index
  {
  }
}
