/**
 * The two readers of a journal. The engine that is fed commit group by commit group meets the shards interleaved,
 * the whole-tape reader meets them one after another. They differ exactly where an item of another shard comes
 * between the events of one message: there the engine publishes the message early.
 */
module JournalReaders {
  import opened Outcomes
  import opened Sorting
  import opened BookTape
  import opened TapeRefinement
  import opened TapeOrder
  import opened TapeShards

  // ---------------------------------------------------------------- what is published

  /** The event's successor on the tape, if any, belongs to another message. */
  predicate Ends(items: seq<Item>, i: nat)
    requires i < |items|
  {
    !(items[i].EventItem? && i + 1 < |items| && SameMessage(items[i].event, items[i + 1]))
  }

  ghost function Emitted(setup: Setup, items: seq<Item>, i: nat): seq<Emission> {
    match EmissionAt(setup, items, i) case Some(e) => [e] case None => []
  }

  /** What the applied events among the first `n` items put out at the end of each run of one message. */
  ghost function Shown(setup: Setup, items: seq<Item>, n: nat): seq<Emission>
    requires n <= |items|
  {
    if n == 0 then []
    else Shown(setup, items, n - 1) + if Ends(items, n - 1) then Emitted(setup, items, n - 1) else []
  }

  predicate Normal(setup: Setup, out: seq<Emission>) {
    forall e :: e in out ==> setup.normalizes(e)
  }

  lemma {:induction false} LookShows(setup: Setup, items: seq<Item>, n: nat)
    requires n <= |items|
    ensures Look(setup, items, n).Ok? <==> Reach(setup, items[..n]).Ok? && Normal(setup, Shown(setup, items, n))
    ensures Look(setup, items, n).Ok? ==>
      Look(setup, items, n).value == Looked(Reach(setup, items[..n]).value, Shown(setup, items, n))
  {
    hide Advance, SameMessage;
    if n == 0 {
      assert items[..0] == [];
    } else {
      LookShows(setup, items, n - 1);
      assert items[..n][..n - 1] == items[..n - 1];
      if Reach(setup, items[..n]).Ok? {
        var core := Reach(setup, items[..n - 1]).value;
        if Advance(setup, core, items[n - 1]).value.applied {
          AppliedLeaves(setup, core, items[n - 1]);
          InBooks(Advance(setup, core, items[n - 1]).value.core, items[n - 1].event);
        }
      }
    }
  }

  /** The engine's verdict and publications on a whole tape. */
  lemma StreamingShows(setup: Setup, items: seq<Item>)
    ensures Streaming(setup, items).Ok? <==>
      && Reach(setup, items).Ok? && Final(Reach(setup, items).value).Ok?
      && Normal(setup, Shown(setup, items, |items|))
    ensures Streaming(setup, items).Ok? ==>
      && Streaming(setup, items).value.core == Reach(setup, items).value
      && Streaming(setup, items).value.out == Shown(setup, items, |items|)
  {
    hide Streaming, Reach, Shown, Final, Normal;
    StreamingRefinesLookahead(setup, items);
    LookShows(setup, items, |items|);
    hide Look;
    assert items[..|items|] == items;
  }

  /** The publications of one book. */
  function OfBook(out: seq<Emission>, k: Key): seq<Emission> {
    if out == [] then []
    else OfBook(out[..|out| - 1], k) + if out[|out| - 1].event.key == k then [out[|out| - 1]] else []
  }

  /**
   * The event can be applied, and the next item of its shard belongs to the same message, but items of other
   * shards come in between.
   */
  predicate Interrupted(setup: Setup, items: seq<Item>, i: nat) {
    && i < |items| && items[i].EventItem? && items[i].event.reconstructible
    && exists j :: i + 1 < j < |items| && NextOfMessage(setup, items, i, j)
  }

  predicate NextOfMessage(setup: Setup, items: seq<Item>, i: nat, j: nat)
    requires i < j < |items| && items[i].EventItem?
  {
    SameMessage(items[i].event, items[j]) && NextOfShard(setup, items, i, j)
  }

  predicate NextOfShard(setup: Setup, items: seq<Item>, i: nat, j: nat)
    requires i < j <= |items|
  {
    forall m :: i < m < j ==> LaneOf(setup, items[m]) != LaneOf(setup, items[i])
  }

  /** How many messages of a book are interrupted, counted among the first `n` items. */
  function Interruptions(setup: Setup, items: seq<Item>, k: Key, n: nat): nat
    requires n <= |items|
  {
    if n == 0 then 0
    else Interruptions(setup, items, k, n - 1)
         + if KeyOf(items[n - 1]) == k && Interrupted(setup, items, n - 1) then 1 else 0
  }

  /** Where an item stands among the items of its shard. */
  function Rank(setup: Setup, items: seq<Item>, i: nat): nat
    requires i < |items|
  {
    |Only(setup, items[..i], LaneOf(setup, items[i]))|
  }

  lemma RankedItem(setup: Setup, items: seq<Item>, i: nat)
    requires i < |items|
    ensures
      var own, m := Only(setup, items, LaneOf(setup, items[i])), Rank(setup, items, i);
      && m < |own| && own[m] == items[i] && own[..m] == Only(setup, items[..i], LaneOf(setup, items[i]))
      && own[..m + 1] == Only(setup, items[..i + 1], LaneOf(setup, items[i]))
  {
    var lane := LaneOf(setup, items[i]);
    OnlyPrefix(setup, items, i, lane);
    OnlyPrefix(setup, items, i + 1, lane);
    hide LaneOf;
    assert items[..i + 1][..i] == items[..i];
    assert Only(setup, items[..i + 1], lane) == Only(setup, items[..i], lane) + [items[i]];
  }

  lemma {:induction false} FirstFrom(setup: Setup, items: seq<Item>, lane: Lane, n: nat) returns (j: nat)
    requires n <= |items|
    ensures n <= j <= |items| && Only(setup, items[..j], lane) == Only(setup, items[..n], lane)
    ensures forall m :: n <= m < j ==> LaneOf(setup, items[m]) != lane
    ensures j < |items| ==> LaneOf(setup, items[j]) == lane
    decreases |items| - n
  {
    hide LaneOf;
    if n == |items| || LaneOf(setup, items[n]) == lane {
      j := n;
    } else {
      assert items[..n + 1][..n] == items[..n];
      j := FirstFrom(setup, items, lane, n + 1);
    }
  }

  /** The successor in the shard is the next item of the shard on the tape. */
  lemma NextInShard(setup: Setup, items: seq<Item>, i: nat) returns (j: nat)
    requires i < |items|
    ensures i < j <= |items| && NextOfShard(setup, items, i, j)
    ensures
      var own, m := Only(setup, items, LaneOf(setup, items[i])), Rank(setup, items, i);
      if j < |items| then LaneOf(setup, items[j]) == LaneOf(setup, items[i]) && m + 1 < |own| && own[m + 1] == items[j]
      else m + 1 == |own|
  {
    var lane := LaneOf(setup, items[i]);
    RankedItem(setup, items, i);
    j := FirstFrom(setup, items, lane, i + 1);
    if j < |items| {
      RankedItem(setup, items, j);
    } else {
      assert items[..j] == items;
    }
  }

  /** An event ends its run of one message on the tape if it does in its shard, or if the message is interrupted. */
  lemma EndsOfShard(setup: Setup, items: seq<Item>, i: nat)
    requires i < |items|
    ensures
      var own, m := Only(setup, items, LaneOf(setup, items[i])), Rank(setup, items, i);
      && m < |own|
      && (Ends(own, m) ==> Ends(items, i) && !Interrupted(setup, items, i))
      && (items[i].EventItem? && items[i].event.reconstructible ==>
            (Ends(items, i) <==> Ends(own, m) || Interrupted(setup, items, i)))
  {
    RankedItem(setup, items, i);
    var j := NextInShard(setup, items, i);
    hide Only, Rank, ShardOf;
    if items[i].EventItem? {
      if i + 1 < |items| && SameMessage(items[i].event, items[i + 1]) {
        assert j == i + 1;
      }
      if k: nat :| i + 1 < k < |items| && NextOfMessage(setup, items, i, k) {
        assert k == j;
      }
      if j < |items| && SameMessage(items[i].event, items[j]) && j != i + 1 {
        assert NextOfMessage(setup, items, i, j);
      }
    }
  }

  /** An event of an accepted tape puts out what it does in its shard, so something exactly if it can be applied. */
  lemma EmittedOfShard(setup: Setup, items: seq<Item>, i: nat)
    requires i < |items| && Reach(setup, items).Ok?
    ensures
      var own, m := Only(setup, items, LaneOf(setup, items[i])), Rank(setup, items, i);
      m < |own| && Emitted(setup, items, i) == Emitted(setup, own, m)
    ensures
      if items[i].EventItem? && items[i].event.reconstructible
      then |Emitted(setup, items, i)| == 1 && Emitted(setup, items, i)[0].event == items[i].event
      else Emitted(setup, items, i) == []
  {
    var lane := LaneOf(setup, items[i]);
    RankedItem(setup, items, i);
    ReachPrefix(setup, items, i);
    ReachPrefix(setup, items, i + 1);
    assert items[..i + 1][..i] == items[..i];
    ReachOfShard(setup, items[..i], lane);
    hide Advance, SameLane, Only, Rank;
    var core, own := Reach(setup, items[..i]).value, Reach(setup, Only(setup, items[..i], lane)).value;
    OwnLane(setup, core, own, items[i]);
    UsedOnce(setup, core, items[i]);
    var after, after' := Advance(setup, core, items[i]).value, Advance(setup, own, items[i]).value;
    BooksAlike(setup, after.core, after'.core, items[i]);
    if after.applied {
      AppliedLeaves(setup, core, items[i]);
      InBooks(after.core, items[i].event);
    }
  }

  lemma BooksAlike(setup: Setup, a: Core, b: Core, item: Item)
    requires SameLane(setup, a, b, LaneOf(setup, item))
    ensures Get(a.books, KeyOf(item)) == Get(b.books, KeyOf(item))
  {
    assert SameBook(a, b, KeyOf(item));
  }

  lemma {:induction false} OfBookSplits(a: seq<Emission>, b: seq<Emission>, k: Key)
    ensures OfBook(a + b, k) == OfBook(a, k) + OfBook(b, k)
  {
    if b == [] {
      assert a + b == a;
    } else {
      assert (a + b)[..|a + b| - 1] == a + b[..|b| - 1];
      OfBookSplits(a, b[..|b| - 1], k);
    }
  }

  /** What one position adds to the publications of a book. */
  ghost function ShownAt(setup: Setup, items: seq<Item>, k: Key, i: nat): seq<Emission>
    requires i < |items|
  {
    if KeyOf(items[i]) == k && Ends(items, i) then Emitted(setup, items, i) else []
  }

  lemma OneMoreShown(setup: Setup, items: seq<Item>, k: Key, n: nat)
    requires n < |items| && Reach(setup, items).Ok?
    ensures OfBook(Shown(setup, items, n + 1), k) == OfBook(Shown(setup, items, n), k) + ShownAt(setup, items, k, n)
  {
    hide Reach, Ends, Only, Rank, LaneOf;
    EmittedOfShard(setup, items, n);
    OfBookSplits(Shown(setup, items, n), if Ends(items, n) then Emitted(setup, items, n) else [], k);
    assert OfBook([], k) == [];
  }

  /** Position by position: the tape adds what the shard adds, and the event of an interrupted message besides. */
  lemma ShownAtOfShard(setup: Setup, items: seq<Item>, k: Key, i: nat)
    requires i < |items| && Reach(setup, items).Ok? && KeyOf(items[i]) == k
    ensures
      var own, m := Only(setup, items, BookLane(setup, k)), Rank(setup, items, i);
      && m < |own|
      && if Interrupted(setup, items, i)
         then ShownAt(setup, own, k, m) == [] && ShownAt(setup, items, k, i) == Emitted(setup, items, i)
         else ShownAt(setup, items, k, i) == ShownAt(setup, own, k, m)
  {
    hide Reach, Ends, Only, Rank, Interrupted, Emitted;
    RankedItem(setup, items, i);
    EndsOfShard(setup, items, i);
    EmittedOfShard(setup, items, i);
  }

  /** The publications of a book on the tape, against those of its shard read alone. */
  ghost predicate ShownAlike(setup: Setup, items: seq<Item>, k: Key, n: nat, out: seq<Emission>, own: seq<Emission>)
    requires n <= |items|
  {
    && |out| == |own| + Interruptions(setup, items, k, n)
    && (Interruptions(setup, items, k, n) == 0 ==> out == own)
    && (forall e :: e in own ==> e in out)
    && (forall e :: e in out ==> e in own || EarlyOf(setup, items, e))
  }

  /** The emission belongs to an interrupted message. */
  ghost predicate EarlyOf(setup: Setup, items: seq<Item>, e: Emission) {
    exists i: nat :: Interrupted(setup, items, i) && e in Emitted(setup, items, i)
  }

  ghost predicate ShardShows(setup: Setup, items: seq<Item>, k: Key, n: nat)
    requires n <= |items|
  {
    var own, m := Only(setup, items, BookLane(setup, k)), |Only(setup, items[..n], BookLane(setup, k))|;
    && m <= |own|
    && ShownAlike(setup, items, k, n, OfBook(Shown(setup, items, n), k), OfBook(Shown(setup, own, m), k))
  }

  lemma {:induction false} ShownOfShard(setup: Setup, items: seq<Item>, k: Key, n: nat)
    requires n <= |items| && Reach(setup, items).Ok?
    ensures ShardShows(setup, items, k, n)
  {
    if n == 0 {
      assert items[..0] == [];
    } else {
      hide ShardShows;
      ShownOfShard(setup, items, k, n - 1);
      OneMoreShows(setup, items, k, n - 1);
    }
  }

  lemma OneMoreShows(setup: Setup, items: seq<Item>, k: Key, n: nat)
    requires n < |items| && Reach(setup, items).Ok? && ShardShows(setup, items, k, n)
    ensures ShardShows(setup, items, k, n + 1)
  {
    hide Reach, Ends, Only, Interrupted, Shown, OfBook, Emitted, ShownAt, LaneOf, BookLane, ShownAlike;
    var lane := BookLane(setup, k);
    var own, m := Only(setup, items, lane), |Only(setup, items[..n], lane)|;
    OneMoreShown(setup, items, k, n);
    OneMoreItem(setup, items, k, n);
    var shown, shown' := OfBook(Shown(setup, items, n), k), OfBook(Shown(setup, own, m), k);
    if LaneOf(setup, items[n]) == lane {
      ReachOfShard(setup, items, lane);
      OneMoreShown(setup, own, k, m);
      OneMoreAlike(setup, items, k, n, shown, shown', m);
    } else {
      NoMoreAlike(setup, items, k, n, shown, shown');
    }
  }

  lemma OneMoreAlike(setup: Setup, items: seq<Item>, k: Key, n: nat, out: seq<Emission>, own: seq<Emission>, m: nat)
    requires n < |items| && Reach(setup, items).Ok? && ShownAlike(setup, items, k, n, out, own)
    requires LaneOf(setup, items[n]) == BookLane(setup, k) && m == |Only(setup, items[..n], BookLane(setup, k))|
    requires m < |Only(setup, items, BookLane(setup, k))| && Only(setup, items, BookLane(setup, k))[m] == items[n]
    ensures ShownAlike(setup, items, k, n + 1, out + ShownAt(setup, items, k, n),
                       own + ShownAt(setup, Only(setup, items, BookLane(setup, k)), k, m))
  {
    hide Reach, Ends, Only, Interrupted, Emitted;
    if KeyOf(items[n]) == k {
      ShownAtOfShard(setup, items, k, n);
      EmittedOfShard(setup, items, n);
      if Interrupted(setup, items, n) {
        assert |Emitted(setup, items, n)| == 1 by { InterruptedIsEvent(setup, items, n); }
        assert EarlyOf(setup, items, Emitted(setup, items, n)[0]);
      }
    }
    hide ShownAt;
  }

  lemma NoMoreAlike(setup: Setup, items: seq<Item>, k: Key, n: nat, out: seq<Emission>, own: seq<Emission>)
    requires n < |items| && ShownAlike(setup, items, k, n, out, own)
    requires LaneOf(setup, items[n]) != BookLane(setup, k)
    ensures ShownAlike(setup, items, k, n + 1, out + ShownAt(setup, items, k, n), own)
  {
    hide Interrupted, Emitted, Ends;
  }

  lemma InterruptedIsEvent(setup: Setup, items: seq<Item>, i: nat)
    requires Interrupted(setup, items, i)
    ensures i < |items| && items[i].EventItem? && items[i].event.reconstructible
  {
  }

  lemma OneMoreItem(setup: Setup, items: seq<Item>, k: Key, n: nat)
    requires n < |items|
    ensures
      var own, lane := Only(setup, items, BookLane(setup, k)), BookLane(setup, k);
      var m := |Only(setup, items[..n], lane)|;
      if LaneOf(setup, items[n]) == lane
      then m < |own| && own[m] == items[n] && |Only(setup, items[..n + 1], lane)| == m + 1
      else |Only(setup, items[..n + 1], lane)| == m
  {
    var lane := BookLane(setup, k);
    assert items[..n + 1][..n] == items[..n];
    if LaneOf(setup, items[n]) == lane {
      RankedItem(setup, items, n);
    }
  }

  // ---------------------------------------------------------------- two readings of the same shards

  ghost predicate Uninterrupted(setup: Setup, items: seq<Item>) {
    forall i: nat :: !Interrupted(setup, items, i)
  }

  /** Every event that is published early can be normalised. */
  ghost predicate EarlyNormal(setup: Setup, items: seq<Item>) {
    forall i: nat :: Interrupted(setup, items, i) ==> Normal(setup, Emitted(setup, items, i))
  }

  lemma {:induction false} InBook(out: seq<Emission>, e: Emission)
    ensures e in out <==> e in OfBook(out, e.event.key)
  {
    if out != [] {
      InBook(out[..|out| - 1], e);
      assert out == out[..|out| - 1] + [out[|out| - 1]];
    }
  }

  lemma {:induction false} BookKeys(out: seq<Emission>, k: Key)
    ensures forall e :: e in OfBook(out, k) ==> e.event.key == k
  {
    if out != [] {
      BookKeys(out[..|out| - 1], k);
    }
  }

  lemma {:induction false} ShownIsEmitted(setup: Setup, items: seq<Item>, i: nat, n: nat)
    requires i < n <= |items| && Ends(items, i)
    ensures forall e :: e in Emitted(setup, items, i) ==> e in Shown(setup, items, n)
  {
    hide Ends, Emitted;
    if i < n - 1 {
      ShownIsEmitted(setup, items, i, n - 1);
    }
  }

  lemma EarlyIsShown(setup: Setup, items: seq<Item>, i: nat)
    requires Reach(setup, items).Ok? && Interrupted(setup, items, i)
    ensures forall e :: e in Emitted(setup, items, i) ==> e in Shown(setup, items, |items|)
  {
    InterruptedIsEvent(setup, items, i);
    EndsOfShard(setup, items, i);
    ShownIsEmitted(setup, items, i, |items|);
  }

  /** The publications of a book in two readings of the same shards, of which the second interrupts no message. */
  lemma BookAgainst(setup: Setup, a: seq<Item>, b: seq<Item>, k: Key)
    requires SameShards(setup, a, b) && Uninterrupted(setup, b) && Reach(setup, a).Ok? && Reach(setup, b).Ok?
    ensures ShownAlike(setup, a, k, |a|, OfBook(Shown(setup, a, |a|), k), OfBook(Shown(setup, b, |b|), k))
  {
    hide Reach, Shown, OfBook, ShownAlike, Only, Interrupted, SameShards;
    ShownOfShard(setup, a, k, |a|);
    ShownOfShard(setup, b, k, |b|);
    var lane := BookLane(setup, k);
    assert a[..|a|] == a && b[..|b|] == b;
    NoInterruptions(setup, b, k, |b|);
    assert Only(setup, a, lane) == Only(setup, b, lane) by { SameShard(setup, a, b, lane); }
    var own := Only(setup, b, lane);
    AlikeWithout(setup, b, k, |b|, OfBook(Shown(setup, b, |b|), k), OfBook(Shown(setup, own, |own|), k));
  }

  lemma SameShard(setup: Setup, a: seq<Item>, b: seq<Item>, lane: Lane)
    requires SameShards(setup, a, b)
    ensures Only(setup, a, lane) == Only(setup, b, lane)
  {
  }

  lemma AlikeWithout(setup: Setup, items: seq<Item>, k: Key, n: nat, out: seq<Emission>, own: seq<Emission>)
    requires n <= |items| && ShownAlike(setup, items, k, n, out, own) && Interruptions(setup, items, k, n) == 0
    ensures out == own
  {
  }

  lemma {:induction false} NoInterruptions(setup: Setup, items: seq<Item>, k: Key, n: nat)
    requires n <= |items|
    ensures Interruptions(setup, items, k, n) == 0 <==>
      forall i :: 0 <= i < n && KeyOf(items[i]) == k ==> !Interrupted(setup, items, i)
  {
    hide Interrupted, KeyOf;
    if n > 0 {
      NoInterruptions(setup, items, k, n - 1);
    }
  }

  /** The first reading can be published exactly when the second can and the early events can be normalised. */
  lemma NormalAgainst(setup: Setup, a: seq<Item>, b: seq<Item>)
    requires SameShards(setup, a, b) && Uninterrupted(setup, b) && Reach(setup, a).Ok? && Reach(setup, b).Ok?
    ensures Normal(setup, Shown(setup, a, |a|)) <==> Normal(setup, Shown(setup, b, |b|)) && EarlyNormal(setup, a)
  {
    hide Reach, Shown, OfBook, Only, Interrupted, SameShards, Interruptions, Emitted;
    var out, out' := Shown(setup, a, |a|), Shown(setup, b, |b|);
    forall e | e in out' ensures e in out {
      BookAgainst(setup, a, b, e.event.key);
      InBook(out', e);
      InBook(out, e);
    }
    forall e | e in out ensures e in out' || EarlyOf(setup, a, e) {
      BookAgainst(setup, a, b, e.event.key);
      InBook(out', e);
      InBook(out, e);
    }
    forall i: nat, e | Interrupted(setup, a, i) && e in Emitted(setup, a, i) ensures e in out {
      EarlyIsShown(setup, a, i);
    }
  }

  /**
   * Two readings of the same shards, the second of which interrupts no message. The first accepts if and only if
   * the second does and every event it publishes early can be normalised. Then both reach the same state, the first
   * publishes every book once more for each of its interrupted messages, and so the publications are the same,
   * book by book, if and only if it interrupts none.
   */
  lemma ReadingsCompared(setup: Setup, a: seq<Item>, b: seq<Item>)
    requires SameShards(setup, a, b) && Uninterrupted(setup, b)
    ensures Streaming(setup, a).Ok? <==> Streaming(setup, b).Ok? && EarlyNormal(setup, a)
    ensures Streaming(setup, a).Ok? ==> Compared(setup, a, Streaming(setup, a).value, Streaming(setup, b).value)
  {
    hide Reach, Shown, OfBook, Only, Interrupted, SameShards, Interruptions, Uninterrupted, Normal, EarlyNormal, Final,
         ShownAlike, Streaming, KeyOf, SameButForOrder, OnceMore, SameByBook;
    InterleavingKeepsState(setup, a, b);
    StreamingShows(setup, a);
    StreamingShows(setup, b);
    if Reach(setup, a).Ok? {
      NormalAgainst(setup, a, b);
      OrderIsNotFinal(Reach(setup, a).value, Reach(setup, b).value);
      forall k ensures ShownAlike(setup, a, k, |a|, OfBook(Shown(setup, a, |a|), k), OfBook(Shown(setup, b, |b|), k)) {
        BookAgainst(setup, a, b, k);
      }
      AlikeCompared(setup, a, Shown(setup, a, |a|), Shown(setup, b, |b|));
    }
  }

  ghost predicate Compared(setup: Setup, items: seq<Item>, stream: Stream, whole: Stream) {
    && SameButForOrder(stream.core, whole.core)
    && OnceMore(setup, items, stream.out, whole.out)
    && (SameByBook(stream.out, whole.out) <==> Uninterrupted(setup, items))
  }

  /** Every book is published once more for each of its interrupted messages. */
  ghost predicate OnceMore(setup: Setup, items: seq<Item>, out: seq<Emission>, out': seq<Emission>) {
    forall k :: |OfBook(out, k)| == |OfBook(out', k)| + Interruptions(setup, items, k, |items|)
  }

  ghost predicate SameByBook(out: seq<Emission>, out': seq<Emission>) {
    forall k :: OfBook(out, k) == OfBook(out', k)
  }

  lemma OrderIsNotFinal(a: Core, b: Core)
    requires SameButForOrder(a, b)
    ensures Final(a) == Final(b)
  {
  }

  lemma AlikeCompared(setup: Setup, items: seq<Item>, out: seq<Emission>, out': seq<Emission>)
    requires forall k :: ShownAlike(setup, items, k, |items|, OfBook(out, k), OfBook(out', k))
    ensures OnceMore(setup, items, out, out')
    ensures SameByBook(out, out') <==> Uninterrupted(setup, items)
  {
    hide OfBook, Interruptions, Interrupted, KeyOf;
    forall k
      ensures |OfBook(out, k)| == |OfBook(out', k)| + Interruptions(setup, items, k, |items|)
      ensures OfBook(out, k) == OfBook(out', k) <==> Interruptions(setup, items, k, |items|) == 0
    {
      assert ShownAlike(setup, items, k, |items|, OfBook(out, k), OfBook(out', k));
    }
    if SameByBook(out, out') {
      forall i: nat ensures !Interrupted(setup, items, i) {
        if Interrupted(setup, items, i) {
          InterruptedIsEvent(setup, items, i);
          var k := KeyOf(items[i]);
          assert OfBook(out, k) == OfBook(out', k);
          NoInterruptions(setup, items, k, |items|);
        }
      }
    }
    if Uninterrupted(setup, items) {
      forall k ensures OfBook(out, k) == OfBook(out', k) {
        NoInterruptions(setup, items, k, |items|);
      }
    }
  }

  // ---------------------------------------------------------------- journals

  /** Each shard's items are in causal order across the commit groups; the shards need not be. */
  ghost predicate ShardsInOrder(setup: Setup, groups: seq<Group>) {
    forall lane :: Sorted(CausalLeq(setup), Only(setup, Concat(GroupOrders(setup, groups)), lane))
  }

  lemma {:induction false} TiesInShard(setup: Setup, items: seq<Item>, k: Item, lane: Lane)
    ensures Ties(CausalLeq(setup), k, Only(setup, items, lane))
         == if LaneOf(setup, k) == lane then Ties(CausalLeq(setup), k, items) else []
  {
    hide LaneOf, CausalLeq, Tied, Ties;
    if items != [] {
      var leq, n := CausalLeq(setup), |items| - 1;
      var own := Only(setup, items[..n], lane);
      TiesInShard(setup, items[..n], k, lane);
      TiedLanes(setup, items[n], k);
      TiesConcat(leq, k, own, [items[n]]);
      TiesConcat(leq, k, items[..n], [items[n]]);
      TiesOne(leq, k, items[n]);
      assert items[..n] + [items[n]] == items && own + [] == own;
    } else {
      assert Only(setup, items, lane) == [];
      NoTies(CausalLeq(setup), k);
    }
  }

  lemma NoTies<T>(leq: (T, T) -> bool, k: T)
    ensures Ties(leq, k, []) == []
  {
  }

  lemma TiedLanes(setup: Setup, a: Item, b: Item)
    ensures Tied(CausalLeq(setup), a, b) ==> LaneOf(setup, a) == LaneOf(setup, b)
  {
    KeyOrder(SortKeyOf(setup, a), SortKeyOf(setup, b), SortKeyOf(setup, b));
  }

  lemma {:induction false} SortedInShard(setup: Setup, items: seq<Item>, lane: Lane)
    requires Sorted(CausalLeq(setup), items)
    ensures Sorted(CausalLeq(setup), Only(setup, items, lane))
    ensures forall x :: x in Only(setup, items, lane) ==> x in items
  {
    hide CausalLeq, LaneOf;
    if items != [] {
      var leq, n := CausalLeq(setup), |items| - 1;
      SortedInShard(setup, items[..n], lane);
      var own := Only(setup, items[..n], lane);
      forall i | 0 <= i < |own| ensures leq(own[i], items[n]) {
        assert own[i] in items[..n];
      }
    }
  }

  lemma {:induction false} JournalTies(setup: Setup, groups: seq<Group>, k: Item)
    ensures Ties(CausalLeq(setup), k, Concat(GroupOrders(setup, groups)))
         == Ties(CausalLeq(setup), k, EventItems(AllEvents(groups)) + ControlItems(AllControls(groups)))
  {
    hide CausalLeq, StableSort, TotalPreorder, EventItems, ControlItems;
    if groups == [] {
      NoItems();
    } else {
      var leq, n := CausalLeq(setup), |groups| - 1;
      var orders := GroupOrders(setup, groups);
      assert orders[..n] == GroupOrders(setup, groups[..n]);
      JournalTies(setup, groups[..n], k);
      OneMoreGroup(setup, Concat(orders[..n]), AllEvents(groups[..n]), AllControls(groups[..n]), groups[n], k);
    }
  }

  lemma NoItems()
    ensures EventItems([]) + ControlItems([]) == []
  {
  }

  lemma OneMoreGroup(setup: Setup, items: seq<Item>, e: seq<Event>, c: seq<Control>, group: Group, k: Item)
    requires Ties(CausalLeq(setup), k, items) == Ties(CausalLeq(setup), k, EventItems(e) + ControlItems(c))
    ensures Ties(CausalLeq(setup), k, items + CausalItems(setup, group.events, group.controls))
         == Ties(CausalLeq(setup), k, EventItems(e + group.events) + ControlItems(c + group.controls))
  {
    var leq := CausalLeq(setup);
    assert EventItems(e + group.events) == EventItems(e) + EventItems(group.events);
    assert ControlItems(c + group.controls) == ControlItems(c) + ControlItems(group.controls);
    CausalOrderIsTotal(setup);
    hide CausalLeq, StableSort, TotalPreorder, EventItems, ControlItems, Ties;
    TiesConcat(leq, k, items, CausalItems(setup, group.events, group.controls));
    TiesOfGroups(setup, k, e, c, group.events, group.controls);
    SortKeepsTies(leq, k, EventItems(group.events) + ControlItems(group.controls));
  }

  /** A journal whose shards are in order holds, shard by shard, the same items in the same order as its sort. */
  lemma JournalHasSameShards(setup: Setup, groups: seq<Group>)
    requires ShardsInOrder(setup, groups)
    ensures SameShards(setup, Concat(GroupOrders(setup, groups)),
                       CausalItems(setup, AllEvents(groups), AllControls(groups)))
  {
    var leq, items := CausalLeq(setup), Concat(GroupOrders(setup, groups));
    var all := EventItems(AllEvents(groups)) + ControlItems(AllControls(groups));
    CausalOrderIsTotal(setup);
    SortOrders(leq, all);
    hide CausalLeq, StableSort, TotalPreorder, Sorted, Ties, Only, LaneOf, EventItems, ControlItems;
    var sorted := StableSort(leq, all);
    forall lane ensures Only(setup, items, lane) == Only(setup, sorted, lane) {
      forall k ensures Ties(leq, k, Only(setup, items, lane)) == Ties(leq, k, Only(setup, sorted, lane)) {
        TiesInShard(setup, items, k, lane);
        TiesInShard(setup, sorted, k, lane);
        JournalTies(setup, groups, k);
        SortKeepsTies(leq, k, all);
      }
      SortedInShard(setup, sorted, lane);
      SortedUnique(leq, Only(setup, items, lane), Only(setup, sorted, lane));
    }
  }

  /** In causal order the items of a shard stand together, so no message is interrupted. */
  lemma SortedIsUninterrupted(setup: Setup, items: seq<Item>)
    requires Sorted(CausalLeq(setup), items)
    ensures Uninterrupted(setup, items)
  {
    forall i: nat ensures !Interrupted(setup, items, i) {
      if Interrupted(setup, items, i) {
        var j: nat :| i + 1 < j < |items| && NextOfMessage(setup, items, i, j);
        assert LaneOf(setup, items[i + 1]) != LaneOf(setup, items[i]);
        assert CausalLeq(setup)(items[i], items[i + 1]) && CausalLeq(setup)(items[i + 1], items[j]);
        Between(setup, items[i], items[i + 1], items[j]);
      }
    }
  }

  lemma Between(setup: Setup, a: Item, b: Item, c: Item)
    requires CausalLeq(setup)(a, b) && CausalLeq(setup)(b, c) && LaneOf(setup, a) == LaneOf(setup, c)
    ensures LaneOf(setup, b) == LaneOf(setup, a)
  {
    var x, y, z := SortKeyOf(setup, a), SortKeyOf(setup, b), SortKeyOf(setup, c);
    TextOrder(x.run, y.run, z.run);
    TextOrder(x.shard, y.shard, z.shard);
  }

  /**
   * The engine fed commit group by commit group against the reader of the whole tape, on any journal whose shards
   * are each in order. The engine accepts if and only if the reader accepts and every event published early can be
   * normalised. Then the final states agree, and each book is published once more for every interrupted message, so
   * the publications agree, book by book, if and only if no message is interrupted by an item of another shard.
   */
  lemma ReadersCompared(setup: Setup, groups: seq<Group>)
    requires ShardsInOrder(setup, groups)
    ensures
      var items, whole := Concat(GroupOrders(setup, groups)), ReadWholeJournal(setup, groups);
      && (StreamJournal(setup, groups).Ok? <==> whole.Ok? && EarlyNormal(setup, items))
      && (StreamJournal(setup, groups).Ok? ==>
            Compared(setup, items, StreamJournal(setup, groups).value, Stream(whole.value.core, None, whole.value.out)))
  {
    var items := Concat(GroupOrders(setup, groups));
    var sorted := CausalItems(setup, AllEvents(groups), AllControls(groups));
    JournalHasSameShards(setup, groups);
    CausalOrderIsTotal(setup);
    SortOrders(CausalLeq(setup), EventItems(AllEvents(groups)) + ControlItems(AllControls(groups)));
    hide CausalLeq, StableSort, TotalPreorder, Sorted, SameShards, Uninterrupted, EarlyNormal, Lookahead, Feed, Finish,
         FeedGroups;
    SortedIsUninterrupted(setup, sorted);
    ReadingsCompared(setup, items, sorted);
    StreamingRefinesLookahead(setup, sorted);
    GroupsAreTransparent(setup, IDLE, GroupOrders(setup, groups));
  }

  /** No tape that goes back in one book is accepted, so no journal whose commit groups do is read by the engine. */
  lemma BackwardsIsRefused(setup: Setup, groups: seq<Group>, i: nat, j: nat)
    requires i < j < |Concat(GroupOrders(setup, groups))|
    requires
      var items := Concat(GroupOrders(setup, groups));
      KeyOf(items[i]) == KeyOf(items[j]) && !ProgressBelow(Progress(items[i]), Progress(items[j]))
    ensures StreamJournal(setup, groups).Err?
  {
    hide GroupOrders, Concat, Final, Shown, Reach, Progress, KeyOf, Feed, FeedGroups, Finish;
    var items := Concat(GroupOrders(setup, groups));
    GroupsAreTransparent(setup, IDLE, GroupOrders(setup, groups));
    StreamingShows(setup, items);
    if Reach(setup, items).Ok? {
      BooksAdvance(setup, items, i, j);
    }
  }

  /** The items of one book move forward on every accepted tape. */
  lemma BooksAdvance(setup: Setup, items: seq<Item>, i: nat, j: nat)
    requires Reach(setup, items).Ok? && i < j < |items| && KeyOf(items[i]) == KeyOf(items[j])
    ensures ProgressBelow(Progress(items[i]), Progress(items[j]))
  {
    hide Advance, CoordinatesFit, Progress, KeyOf;
    var before := items[..j];
    ReachPrefix(setup, items, j + 1);
    assert items[..j + 1][..j] == before;
    CoordinatesFollow(setup, before);
    AdvanceCoordinates(setup, Reach(setup, before).value, items[j]);
    FitAt(Reach(setup, before).value, before, i);
    hide Reach;
  }

  lemma FitAt(core: Core, items: seq<Item>, i: nat)
    requires CoordinatesFit(core, items) && i < |items|
    ensures AtOrBelowCoordinate(core, items[i])
  {
  }

  // ---------------------------------------------------------------- an interrupted message

  const BOOK := Key("run", "venue", "a")
  const OTHER := Key("run", "venue", "b")

  function TwoShards(): Setup {
    Setup(map[("venue", "a") := "0", ("venue", "b") := "1"], (_, _) => "", _ => true)
  }

  function BookEvent(id: string, checkpoint: bool, local: nat, sub: nat): Item {
    EventItem(Event(BOOK, id, checkpoint, "", true, "epoch", "", 0, local, sub, "", None, "", map[], [], ""))
  }

  /** One book's epoch, with an item of the other shard between the two events of one message. */
  function InterruptedTape(): seq<Item> {
    [BookEvent("open", true, 0, 0), ControlItem(Control(BOOK, "recovered", Recovered, "", "open", "epoch", 0, 0)),
     BookEvent("first", false, 1, 0), ControlItem(Control(OTHER, "other", Other, "", "", "", 0, 0)),
     BookEvent("second", false, 1, 1), ControlItem(Control(BOOK, "end", Ended, "", "", "", 2, 0))]
  }

  function GroupOf(item: Item): Group {
    match item case EventItem(e) => Group([e], []) case ControlItem(c) => Group([], [c])
  }

  /** The tape with every item in a commit group of its own. */
  function InterruptedJournal(): seq<Group> {
    seq(6, i requires 0 <= i < 6 => GroupOf(InterruptedTape()[i]))
  }

  /** A journal that both readers accept and that the engine publishes differently. */
  lemma InterruptedMessageDiffers()
    ensures
      var setup, journal := TwoShards(), InterruptedJournal();
      var stream, whole := StreamJournal(setup, journal), ReadWholeJournal(setup, journal);
      stream.Ok? && whole.Ok? && |OfBook(stream.value.out, BOOK)| > |OfBook(whole.value.out, BOOK)|
  {
    var setup, items := TwoShards(), InterruptedTape();
    InterruptedOrders();
    InterruptedAccepted();
    InterruptedInOrder();
    ReadersCompared(setup, InterruptedJournal());
    GroupsAreTransparent(setup, IDLE, GroupOrders(setup, InterruptedJournal()));
    MessageInterrupted();
    NoInterruptions(setup, items, BOOK, 6);
  }

  lemma MessageInterrupted()
    ensures Interrupted(TwoShards(), InterruptedTape(), 2)
  {
    assert NextOfMessage(TwoShards(), InterruptedTape(), 2, 4);
  }

  lemma OneItem(setup: Setup, item: Item)
    ensures CausalItems(setup, GroupOf(item).events, GroupOf(item).controls) == [item]
  {
    var leq, items := CausalLeq(setup), EventItems(GroupOf(item).events) + ControlItems(GroupOf(item).controls);
    assert items == [item];
    assert StableSort(leq, items[..0]) == [];
  }

  lemma InterruptedOrders()
    ensures Concat(GroupOrders(TwoShards(), InterruptedJournal())) == InterruptedTape()
  {
    hide CausalItems;
    var items, orders := InterruptedTape(), GroupOrders(TwoShards(), InterruptedJournal());
    forall i | 0 <= i < 6 ensures orders[i] == [items[i]] {
      OneItem(TwoShards(), items[i]);
    }
    ConcatOfSingles(orders, items, 6);
    assert orders[..6] == orders && items[..6] == items;
  }

  lemma {:induction false} ConcatOfSingles(orders: seq<seq<Item>>, items: seq<Item>, n: nat)
    requires |orders| == |items| >= n && forall i :: 0 <= i < |items| ==> orders[i] == [items[i]]
    ensures Concat(orders[..n]) == items[..n]
  {
    if n > 0 {
      ConcatOfSingles(orders, items, n - 1);
      assert orders[..n][..n - 1] == orders[..n - 1];
    }
  }

  /** The state after each of its items. */
  function StateAfter(n: nat): Core {
    if n == 0 then START else StateStep(StateAfter(n - 1), n)
  }

  function StateStep(s: Core, n: nat): Core {
    var id := (BOOK, "epoch");
    if n == 1 then
      var report := Report("open", None, None, None, 0, 0, 0);
      s.(coordinates := s.coordinates[BOOK := (0, 0, 1)], eventBooks := s.eventBooks + {BOOK},
         open := s.open[BOOK := "epoch"], recovering := s.recovering[BOOK := "open"], books := s.books[BOOK := map[]],
         reports := s.reports[id := report][id := report.(lastLocal := 0, applied := 1)], applied := 1)
    else if id !in s.reports then s
    else
      var report := s.reports[id];
      if n == 2 then
        s.(coordinates := s.coordinates[BOOK := (0, 0, 2)], recovering := s.recovering - {BOOK},
           reports := s.reports[id := report.(openedBy := Some("recovered"))])
      else if n == 4 then s.(coordinates := s.coordinates[OTHER := (0, 0, 2)])
      else if n == 6 then
        s.(coordinates := s.coordinates[BOOK := (2, 0, 0)], open := s.open - {BOOK}, books := s.books - {BOOK},
           terminal := s.terminal + {BOOK},
           reports := s.reports[id := report.(closedBy := Some("end"), lastLocal := 2)])
      else
        s.(coordinates := s.coordinates[BOOK := (1, if n == 3 then 0 else 1, 1)], eventBooks := s.eventBooks + {BOOK},
           books := s.books[BOOK := map[]],
           reports := s.reports[id := report.(lastLocal := 1, applied := report.applied + 1)],
           applied := s.applied + 1)
  }

  lemma NextState(n: nat)
    requires n > 0
    ensures StateAfter(n) == StateStep(StateAfter(n - 1), n)
  {
  }

  lemma TapeOpens()
    ensures Advance(TwoShards(), StateAfter(0), InterruptedTape()[0]) == Ok(Moved(StateAfter(1), true))
  {
    var e := InterruptedTape()[0].event;
    assert CheckpointBook(e) == Ok(map[]);
    assert Superseded(START, e) == map[];
  }

  /** The book's epoch is open, and its last item stood at `at`. */
  predicate BookOpen(s: Core, at: (nat, nat, nat)) {
    && BOOK !in s.recovering && BOOK !in s.terminal && Get(s.open, BOOK) == Some("epoch")
    && Get(s.books, BOOK) == Some(map[]) && Get(s.coordinates, BOOK) == Some(at) && (BOOK, "epoch") in s.reports
  }

  lemma StaysOpen()
    ensures BookOpen(StateAfter(2), (0, 0, 2)) && BookOpen(StateAfter(3), (1, 0, 1))
    ensures BookOpen(StateAfter(4), (1, 0, 1)) && BookOpen(StateAfter(5), (1, 1, 1))
  {
    var s2, s3, s4, s5 := StateAfter(2), StateAfter(3), StateAfter(4), StateAfter(5);
    assert BookOpen(s2, (0, 0, 2));
    hide StateAfter;
    assert BookOpen(s3, (1, 0, 1)) by { NextState(3); }
    assert BookOpen(s4, (1, 0, 1)) by { NextState(4); }
    assert BookOpen(s5, (1, 1, 1)) by { NextState(5); }
  }

  lemma DeltaAdvances(s: Core, at: (nat, nat, nat), n: nat)
    requires (n == 2 || n == 4) && BookOpen(s, at) && s == StateAfter(n)
    requires ProgressBelow(at, Progress(InterruptedTape()[n]))
    ensures Advance(TwoShards(), s, InterruptedTape()[n]) == Ok(Moved(StateAfter(n + 1), true))
  {
    assert WriteLevels(map[], []) == Ok(map[]);
  }

  lemma TapeApplies()
    ensures Advance(TwoShards(), StateAfter(2), InterruptedTape()[2]) == Ok(Moved(StateAfter(3), true))
  {
    StaysOpen();
    hide StateAfter;
    DeltaAdvances(StateAfter(2), (0, 0, 2), 2);
  }

  lemma TapeContinues()
    ensures Advance(TwoShards(), StateAfter(4), InterruptedTape()[4]) == Ok(Moved(StateAfter(5), true))
  {
    StaysOpen();
    hide StateAfter;
    DeltaAdvances(StateAfter(4), (1, 0, 1), 4);
  }

  lemma TapeConfirms()
    ensures Advance(TwoShards(), StateAfter(1), InterruptedTape()[1]) == Ok(Moved(StateAfter(2), false))
  {
  }

  lemma TapePasses()
    ensures Advance(TwoShards(), StateAfter(3), InterruptedTape()[3]) == Ok(Moved(StateAfter(4), false))
  {
  }

  lemma TapeEnds()
    ensures Advance(TwoShards(), StateAfter(5), InterruptedTape()[5]) == Ok(Moved(StateAfter(6), false))
  {
    StaysOpen();
    NextState(6);
    hide StateAfter;
  }

  lemma TapeAdvances(n: nat)
    requires n < |InterruptedTape()|
    ensures Advance(TwoShards(), StateAfter(n), InterruptedTape()[n])
         == Ok(Moved(StateAfter(n + 1), n == 0 || n == 2 || n == 4))
  {
    assert n < 6;
    hide Advance, StateAfter, TwoShards, InterruptedTape;
    if n == 0 {
      TapeOpens();
    } else if n == 1 {
      TapeConfirms();
    } else if n == 2 {
      TapeApplies();
    } else if n == 3 {
      TapePasses();
    } else if n == 5 {
      TapeEnds();
    } else {
      TapeContinues();
    }
  }

  lemma {:induction false} TapeReached(setup: Setup, items: seq<Item>, n: nat)
    requires setup == TwoShards() && items == InterruptedTape() && n <= |items|
    ensures Reach(setup, items[..n]) == Ok(StateAfter(n))
  {
    assert StateAfter(0) == START;
    hide Advance, StateAfter, TwoShards, InterruptedTape;
    if n > 0 {
      TapeReached(setup, items, n - 1);
      TapeAdvances(n - 1);
      OneMoreReached(setup, items, n - 1);
      hide Reach;
    }
  }

  lemma InterruptedAccepted()
    ensures Streaming(TwoShards(), InterruptedTape()).Ok?
  {
    var setup, items := TwoShards(), InterruptedTape();
    assert items[..6] == items && Normal(setup, Shown(setup, items, 6));
    hide TwoShards, InterruptedTape, Reach, Shown, StateAfter, Final, Normal;
    TapeReached(setup, items, 6);
    TapeFinishes();
    StreamingShows(setup, items);
  }

  lemma TapeFinishes()
    ensures Final(StateAfter(6)).Ok?
  {
  }

  lemma OneMoreReached(setup: Setup, items: seq<Item>, n: nat)
    requires n < |items| && Reach(setup, items[..n]).Ok?
    requires Advance(setup, Reach(setup, items[..n]).value, items[n]).Ok?
    ensures Reach(setup, items[..n + 1]) == Ok(Advance(setup, Reach(setup, items[..n]).value, items[n]).value.core)
  {
    assert items[..n + 1][..n] == items[..n];
  }

  lemma InterruptedInOrder()
    requires Concat(GroupOrders(TwoShards(), InterruptedJournal())) == InterruptedTape()
    ensures ShardsInOrder(TwoShards(), InterruptedJournal())
  {
    hide Only, CausalLeq, Concat, GroupOrders;
    var setup, items := TwoShards(), InterruptedTape();
    forall lane ensures Sorted(CausalLeq(setup), Only(setup, items, lane)) {
      ShardOfTape(lane);
      BookInOrder();
    }
  }

  function BookItems(): seq<Item> {
    InterruptedTape()[..3] + InterruptedTape()[4..]
  }

  lemma BookInOrder()
    ensures Sorted(CausalLeq(TwoShards()), BookItems())
  {
    var items := BookItems();
    forall i, j | 0 <= i < j < |items| ensures CausalLeq(TwoShards())(items[i], items[j]) {
      ForwardInBook(TwoShards(), items[i], items[j]);
    }
  }

  lemma ForwardInBook(setup: Setup, a: Item, b: Item)
    requires KeyOf(a) == KeyOf(b) && ProgressBelow(Progress(a), Progress(b))
    ensures CausalLeq(setup)(a, b)
  {
  }

  lemma ShardOfTape(lane: Lane)
    ensures Only(TwoShards(), InterruptedTape(), lane) ==
      if lane == ("run", "0") then BookItems()
      else if lane == ("run", "1") then [InterruptedTape()[3]] else []
  {
    var setup, items := TwoShards(), InterruptedTape();
    forall i | 0 <= i < 6 ensures LaneOf(setup, items[i]) == if i == 3 then ("run", "1") else ("run", "0") {
    }
    hide LaneOf, TwoShards, InterruptedTape;
    AllButFourth(setup, items, lane, ("run", "0"), ("run", "1"));
  }

  lemma AllButFourth(setup: Setup, items: seq<Item>, lane: Lane, book: Lane, other: Lane)
    requires |items| == 6 && book != other
    requires forall i :: 0 <= i < 6 ==> LaneOf(setup, items[i]) == if i == 3 then other else book
    ensures Only(setup, items, lane) ==
      if lane == book then items[..3] + items[4..] else if lane == other then [items[3]] else []
  {
    hide LaneOf, Only;
    assert Only(setup, [], lane) == [] && items[..0] == [] && items[..6] == items by { NoneOnly(setup, lane); }
    OneMoreOfShard(setup, items, lane, 0);
    OneMoreOfShard(setup, items, lane, 1);
    OneMoreOfShard(setup, items, lane, 2);
    OneMoreOfShard(setup, items, lane, 3);
    OneMoreOfShard(setup, items, lane, 4);
    OneMoreOfShard(setup, items, lane, 5);
    if lane == book {
      assert Only(setup, items[..3], lane) == items[..3];
      assert items[4..] == [items[4], items[5]];
    }
  }

  lemma NoneOnly(setup: Setup, lane: Lane)
    ensures Only(setup, [], lane) == []
  {
  }

  lemma OneMoreOfShard(setup: Setup, items: seq<Item>, lane: Lane, n: nat)
    requires n < |items|
    ensures Only(setup, items[..n + 1], lane)
         == Only(setup, items[..n], lane) + if LaneOf(setup, items[n]) == lane then [items[n]] else []
  {
    hide LaneOf;
    assert items[..n + 1][..n] == items[..n];
  }

  // ---------------------------------------------------------------- a book that goes back

  function Note(id: string, local: nat): Item {
    ControlItem(Control(BOOK, id, Other, "", "", "", local, 0))
  }

  /** Two commit groups that hold one book's items in the wrong order. */
  function BackwardsJournal(): seq<Group> {
    [GroupOf(Note("late", 1)), GroupOf(Note("early", 0))]
  }

  /** A journal that the engine refuses and the whole-tape reader, which sorts first, accepts. */
  lemma BackwardsDiffers()
    ensures StreamJournal(TwoShards(), BackwardsJournal()).Err?
    ensures ReadWholeJournal(TwoShards(), BackwardsJournal()).Ok?
  {
    var setup, late, early := TwoShards(), Note("late", 1), Note("early", 0);
    BackwardsOrders();
    BackwardsIsRefused(setup, BackwardsJournal(), 0, 1);
    BackwardsSorted();
    NotesAccepted();
  }

  lemma BackwardsOrders()
    ensures Concat(GroupOrders(TwoShards(), BackwardsJournal())) == [Note("late", 1), Note("early", 0)]
  {
    hide CausalItems;
    var items, orders := [Note("late", 1), Note("early", 0)], GroupOrders(TwoShards(), BackwardsJournal());
    OneItem(TwoShards(), items[0]);
    OneItem(TwoShards(), items[1]);
    ConcatOfSingles(orders, items, 2);
    assert orders[..2] == orders && items[..2] == items;
  }

  lemma BackwardsSorted()
    ensures CausalItems(TwoShards(), AllEvents(BackwardsJournal()), AllControls(BackwardsJournal()))
         == [Note("early", 0), Note("late", 1)]
  {
    var setup, groups, late, early := TwoShards(), BackwardsJournal(), Note("late", 1), Note("early", 0);
    assert groups[..1][..0] == [];
    assert AllEvents(groups[..1]) == [] && AllControls(groups[..1]) == [late.control];
    assert AllEvents(groups) == [] && AllControls(groups) == [late.control, early.control];
    assert EventItems([]) + ControlItems([late.control, early.control]) == [late, early];
    hide AllEvents, AllControls;
    var leq := CausalLeq(setup);
    ForwardInBook(setup, early, late);
    assert !leq(late, early);
    hide CausalLeq;
    assert [late, early][..1] == [late] && [late][..0] == [];
    assert StableSort(leq, [late]) == [late];
    assert Insert(leq, [late], early) == [early, late];
  }

  lemma NotesAccepted()
    ensures Lookahead(TwoShards(), [Note("early", 0), Note("late", 1)]).Ok?
  {
    var setup, items := TwoShards(), [Note("early", 0), Note("late", 1)];
    assert items[..1][..0] == [] && items[..2] == items && items[..1] == [items[0]];
    var once := START.(coordinates := START.coordinates[BOOK := (0, 0, 2)]);
    assert Advance(setup, START, items[0]) == Ok(Moved(once, false));
    var twice := once.(coordinates := once.coordinates[BOOK := (1, 0, 2)]);
    assert Advance(setup, once, items[1]) == Ok(Moved(twice, false));
    hide Advance;
    assert Look(setup, items, 0) == Ok(Looked(START, []));
    assert Look(setup, items, 1) == Ok(Looked(once, []));
    assert Look(setup, items, 2) == Ok(Looked(twice, []));
  }
}
