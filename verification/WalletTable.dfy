/**
 * The wallets table: one row per wallet, joined from sightings of that wallet in trade logs.
 * The SQL upsert is a join, so a table is determined by the set of sightings it has absorbed.
 */
module WalletTable {
  import opened Outcomes
  import opened EthLogs

  /** One trader named by one log: the evidence the collector would store for it. */
  datatype Sighting = Sighting(wallet: Address, role: nat, log: Log, rank: nat, pool: Option<Pool>)

  /** `roles` is the bit mask, as the set of its bits. */
  datatype Row = Row(first: nat, last: nat, roles: set<nat>, evidence: Sighting)

  type Table = map<Address, Row>

  predicate AtOrBefore(a: Sighting, b: Sighting) {
    || a.log.block < b.log.block
    || (a.log.block == b.log.block && a.log.index < b.log.index)
    || (a.log.block == b.log.block && a.log.index == b.log.index && a.rank <= b.rank)
  }

  predicate SamePlace(a: Sighting, b: Sighting) {
    a.log.block == b.log.block && a.log.index == b.log.index
  }

  // ---------------------------------------------------------------- what the program computes

  /** The upsert's row on a conflict: least witness, least first block, greatest last block, all roles. */
  function Merge(stored: Row, excluded: Row): Row {
    Row(Min(stored.first, excluded.first),
        Max(stored.last, excluded.last),
        stored.roles + excluded.roles,
        if excluded.first < stored.first
           || (excluded.first == stored.first && excluded.evidence.log.index < stored.evidence.log.index)
        then excluded.evidence else stored.evidence)
  }

  function Upsert(table: Table, wallet: Address, row: Row): Table {
    table[wallet := if wallet in table then Merge(table[wallet], row) else row]
  }

  function Join(table: Table, rows: Table): Table {
    map w | w in table.Keys + rows.Keys ::
      if w !in rows then table[w] else if w !in table then rows[w] else Merge(table[w], rows[w])
  }

  /** One more sighting of the current range: the first one of a wallet becomes its evidence. */
  function Note(rows: Table, s: Sighting): Table {
    if s.wallet !in rows then rows[s.wallet := Row(s.log.block, s.log.block, {s.role}, s)]
    else
      var row := rows[s.wallet];
      rows[s.wallet := row.(last := Max(row.last, s.log.block), roles := row.roles + {s.role})]
  }

  function Observe(ss: seq<Sighting>): Table {
    if ss == [] then map[] else Note(Observe(ss[..|ss| - 1]), ss[|ss| - 1])
  }

  // ---------------------------------------------------------------- what a table should hold

  ghost predicate Least(s: Sighting, w: Address, all: set<Sighting>) {
    s in all && s.wallet == w && forall t :: t in all && t.wallet == w ==> AtOrBefore(s, t)
  }

  /** First and last block and roles are exactly those of the wallet's sightings. */
  ghost predicate SpanRight(row: Row, w: Address, all: set<Sighting>) {
    && row.evidence in all && row.evidence.wallet == w && row.first == row.evidence.log.block
    && (forall s :: s in all && s.wallet == w ==> row.first <= s.log.block <= row.last && s.role in row.roles)
    && (exists s :: s in all && s.wallet == w && s.log.block == row.last)
    && (forall r :: r in row.roles ==> exists s :: s in all && s.wallet == w && s.role == r)
  }

  ghost predicate KeysRight(table: Table, all: set<Sighting>) {
    && (forall s :: s in all ==> s.wallet in table)
    && (forall w :: w in table ==> exists s :: s in all && s.wallet == w)
  }

  /** The table holds one row per sighted wallet, and its witness is the earliest sighting on the chain. */
  ghost predicate Faithful(table: Table, all: set<Sighting>) {
    && KeysRight(table, all)
    && forall w :: w in table ==> SpanRight(table[w], w, all) && Least(table[w].evidence, w, all)
  }

  /** A place on the chain and a rank within its log identify a sighting. */
  ghost predicate Placed(all: set<Sighting>) {
    forall s, t :: s in all && t in all && SamePlace(s, t) && s.rank == t.rank ==> s == t
  }

  ghost predicate Apart(a: set<Sighting>, b: set<Sighting>) {
    forall s, t :: s in a && t in b ==> !SamePlace(s, t)
  }

  // ---------------------------------------------------------------- lemmas

  lemma RowUnique(r1: Row, r2: Row, w: Address, all: set<Sighting>)
    requires Placed(all)
    requires SpanRight(r1, w, all) && Least(r1.evidence, w, all)
    requires SpanRight(r2, w, all) && Least(r2.evidence, w, all)
    ensures r1 == r2
  {
    assert AtOrBefore(r1.evidence, r2.evidence) && AtOrBefore(r2.evidence, r1.evidence);
    assert r1.evidence == r2.evidence;
    var s1 :| s1 in all && s1.wallet == w && s1.log.block == r1.last;
    var s2 :| s2 in all && s2.wallet == w && s2.log.block == r2.last;
    assert r1.last == r2.last;
    forall r ensures r in r1.roles <==> r in r2.roles {
    }
    assert r1.roles == r2.roles;
  }

  /** The sightings determine the table. */
  lemma FaithfulUnique(t1: Table, t2: Table, all: set<Sighting>)
    requires Placed(all) && Faithful(t1, all) && Faithful(t2, all)
    ensures t1 == t2
  {
    forall w ensures w in t1 <==> w in t2 {
    }
    forall w | w in t1 ensures t1[w] == t2[w] {
      RowUnique(t1[w], t2[w], w, all);
    }
  }

  lemma MergeRight(stored: Row, excluded: Row, w: Address, a: set<Sighting>, b: set<Sighting>)
    requires SpanRight(stored, w, a) && SpanRight(excluded, w, b)
    ensures SpanRight(Merge(stored, excluded), w, a + b)
  {
    var row := Merge(stored, excluded);
    var s1 :| s1 in a && s1.wallet == w && s1.log.block == stored.last;
    var s2 :| s2 in b && s2.wallet == w && s2.log.block == excluded.last;
    assert exists s :: s in a + b && s.wallet == w && s.log.block == row.last by {
      assert s1 in a + b && s2 in a + b;
    }
    forall r | r in row.roles ensures exists s :: s in a + b && s.wallet == w && s.role == r {
      if r in stored.roles {
        var s :| s in a && s.wallet == w && s.role == r;
        assert s in a + b;
      } else {
        var s :| s in b && s.wallet == w && s.role == r;
        assert s in a + b;
      }
    }
  }

  lemma MergeLeast(stored: Row, excluded: Row, w: Address, a: set<Sighting>, b: set<Sighting>)
    requires SpanRight(stored, w, a) && SpanRight(excluded, w, b)
    requires Least(stored.evidence, w, a) && Least(excluded.evidence, w, b) && Apart(a, b)
    ensures Least(Merge(stored, excluded).evidence, w, a + b)
  {
    assert !SamePlace(stored.evidence, excluded.evidence);
  }

  lemma SpanWidens(row: Row, w: Address, a: set<Sighting>, b: set<Sighting>)
    requires SpanRight(row, w, a) && forall s :: s in b ==> s.wallet != w
    ensures SpanRight(row, w, a + b) && SpanRight(row, w, b + a)
  {
    assert a + b == b + a;
    var last :| last in a && last.wallet == w && last.log.block == row.last;
    assert last in a + b;
    forall r | r in row.roles ensures exists s :: s in a + b && s.wallet == w && s.role == r {
      var s :| s in a && s.wallet == w && s.role == r;
      assert s in a + b;
    }
  }

  lemma JoinKeys(table: Table, rows: Table, a: set<Sighting>, b: set<Sighting>)
    requires KeysRight(table, a) && KeysRight(rows, b)
    ensures KeysRight(Join(table, rows), a + b)
  {
    forall w | w in Join(table, rows) ensures exists s :: s in a + b && s.wallet == w {
      if w in table {
        var s :| s in a && s.wallet == w;
        assert s in a + b;
      } else {
        var s :| s in b && s.wallet == w;
        assert s in a + b;
      }
    }
  }

  lemma JoinSpan(table: Table, rows: Table, a: set<Sighting>, b: set<Sighting>, w: Address)
    requires KeysRight(table, a) && KeysRight(rows, b) && w in Join(table, rows)
    requires w in table ==> SpanRight(table[w], w, a)
    requires w in rows ==> SpanRight(rows[w], w, b)
    ensures SpanRight(Join(table, rows)[w], w, a + b)
  {
    if w !in rows {
      SpanWidens(table[w], w, a, b);
    } else if w !in table {
      SpanWidens(rows[w], w, b, a);
    } else {
      MergeRight(table[w], rows[w], w, a, b);
    }
  }

  /** Absorbing a range's rows absorbs its sightings. */
  lemma JoinFaithful(table: Table, rows: Table, a: set<Sighting>, b: set<Sighting>)
    requires Faithful(table, a) && Faithful(rows, b) && Apart(a, b)
    ensures Faithful(Join(table, rows), a + b)
  {
    JoinKeys(table, rows, a, b);
    forall w | w in Join(table, rows)
      ensures SpanRight(Join(table, rows)[w], w, a + b) && Least(Join(table, rows)[w].evidence, w, a + b)
    {
      JoinSpan(table, rows, a, b, w);
      if w in table && w in rows {
        MergeLeast(table[w], rows[w], w, a, b);
      }
    }
  }

  ghost predicate InOrder(ss: seq<Sighting>) {
    forall i, j :: 0 <= i < j < |ss| ==> AtOrBefore(ss[i], ss[j])
  }

  ghost predicate AllBefore(all: set<Sighting>, s: Sighting) {
    forall t :: t in all ==> AtOrBefore(t, s)
  }

  function Members(ss: seq<Sighting>): set<Sighting> {
    set s | s in ss
  }

  lemma LastIsLatest(ss: seq<Sighting>)
    requires InOrder(ss) && ss != []
    ensures InOrder(ss[..|ss| - 1]) && Members(ss) == Members(ss[..|ss| - 1]) + {ss[|ss| - 1]}
    ensures AllBefore(Members(ss[..|ss| - 1]), ss[|ss| - 1])
  {
    var n := |ss| - 1;
    assert ss == ss[..n] + [ss[n]];
    forall t | t in Members(ss[..n]) ensures AtOrBefore(t, ss[n]) {
      var i :| 0 <= i < n && ss[..n][i] == t;
      assert ss[i] == t;
    }
  }

  /** Reading a range's sightings in chain order gives a faithful table of that range. */
  lemma {:induction false} ObserveFaithful(ss: seq<Sighting>)
    requires InOrder(ss)
    ensures Faithful(Observe(ss), Members(ss))
  {
    if ss != [] {
      var n := |ss| - 1;
      LastIsLatest(ss);
      ObserveFaithful(ss[..n]);
      NoteFaithful(Observe(ss[..n]), Members(ss[..n]), ss[n]);
    }
  }

  function Single(s: Sighting): Table {
    map[s.wallet := Row(s.log.block, s.log.block, {s.role}, s)]
  }

  lemma SingleFaithful(s: Sighting)
    ensures Faithful(Single(s), {s})
  {
    assert s in {s};
  }

  lemma NoteIsJoin(rows: Table, all: set<Sighting>, s: Sighting)
    requires forall w :: w in rows ==> SpanRight(rows[w], w, all)
    requires AllBefore(all, s)
    ensures Note(rows, s) == Join(rows, Single(s))
  {
    if s.wallet in rows {
      assert AtOrBefore(rows[s.wallet].evidence, s);
    }
  }

  lemma NoteLeast(rows: Table, all: set<Sighting>, s: Sighting, w: Address)
    requires AllBefore(all, s)
    requires w in rows ==> Least(rows[w].evidence, w, all)
    requires w !in rows ==> forall t :: t in all ==> t.wallet != w
    requires w in Note(rows, s)
    ensures Least(Note(rows, s)[w].evidence, w, all + {s})
  {
  }

  lemma NoteFaithful(rows: Table, all: set<Sighting>, s: Sighting)
    requires Faithful(rows, all) && AllBefore(all, s)
    ensures Faithful(Note(rows, s), all + {s})
  {
    SingleFaithful(s);
    NoteIsJoin(rows, all, s);
    JoinKeys(rows, Single(s), all, {s});
    var noted := Note(rows, s);
    forall w | w in noted ensures SpanRight(noted[w], w, all + {s}) {
      JoinSpan(rows, Single(s), all, {s}, w);
    }
    forall w | w in noted ensures Least(noted[w].evidence, w, all + {s}) {
      NoteLeast(rows, all, s, w);
    }
  }
}
