/** Streaming table sinks: rotation into numbered segments, and the failure latch of the appending sink. */
module SegmentedSink {
  import opened Outcomes

  datatype Segment<T> = Segment(index: nat, rows: seq<T>)

  function Flatten<T>(segments: seq<Segment<T>>): seq<T> {
    if segments == [] then [] else Flatten(segments[..|segments| - 1]) + segments[|segments| - 1].rows
  }

  function RowsOf<T>(file: Option<seq<T>>): seq<T> {
    if file.Some? then file.value else []
  }

  lemma FlattenSnoc<T>(segments: seq<Segment<T>>, last: Segment<T>)
    ensures Flatten(segments + [last]) == Flatten(segments) + last.rows
  {
    assert (segments + [last])[..|segments|] == segments;
  }

  /** Segment `i` is file `i`, and those are all the files there are. */
  ghost predicate Numbered<T>(segments: seq<Segment<T>>, files: set<nat>) {
    && (forall i :: 0 <= i < |segments| ==> segments[i].index == i)
    && forall n: nat :: n in files <==> n < |segments|
  }

  /** No segment is over the row limit, and none is empty. */
  predicate Sized<T>(segments: seq<Segment<T>>, limit: Option<nat>) {
    forall i :: 0 <= i < |segments| ==> 1 <= |segments[i].rows| && (limit.Some? ==> |segments[i].rows| <= limit.value)
  }

  predicate AllFull<T>(segments: seq<Segment<T>>, limit: nat) {
    forall i :: 0 <= i < |segments| ==> |segments[i].rows| == limit
  }

  function CeilDiv(rows: nat, limit: nat): nat
    requires limit > 0
  {
    (rows + limit - 1) / limit
  }

  lemma {:induction false} FullSegmentsHold<T>(segments: seq<Segment<T>>, limit: nat)
    requires AllFull(segments, limit)
    ensures |Flatten(segments)| == |segments| * limit
  {
    if segments != [] {
      FullSegmentsHold(segments[..|segments| - 1], limit);
      assert |segments| * limit == (|segments| - 1) * limit + limit;
    }
  }

  lemma CeilDivIs(full: nat, last: nat, limit: nat)
    requires 1 <= last <= limit
    ensures CeilDiv(full * limit + last, limit) == full + 1
  {
    var q := CeilDiv(full * limit + last, limit);
    var rest := last - 1;
    assert full * limit + last + limit - 1 == (full + 1) * limit + rest;
    QuotientIs(full + 1, rest, limit);
  }

  lemma QuotientIs(q: nat, r: nat, d: nat)
    requires r < d
    ensures (q * d + r) / d == q
  {
    var x, m := (q * d + r) / d, (q * d + r) % d;
    assert (x - q) * d == r - m;
    assert (x - q) * d < d && -(d as int) < (x - q) * d;
    assert x - q < 1 by { MulBound(x - q, d); }
    assert q - x < 1 by { MulBound(q - x, d); }
  }

  lemma MulBound(k: int, d: nat)
    requires k * d < d
    ensures k < 1
  {
  }

  /** How many segments a closed sink has when only row counts rotate it. */
  lemma FilledSegments<T>(segments: seq<Segment<T>>, limit: nat)
    requires |segments| > 0 && limit > 0
    requires AllFull(segments[..|segments| - 1], limit)
    requires 1 <= |segments[|segments| - 1].rows| <= limit
    ensures |segments| == CeilDiv(|Flatten(segments)|, limit)
  {
    var k := |segments| - 1;
    FullSegmentsHold(segments[..k], limit);
    CeilDivIs(k, |segments[k].rows|, limit);
  }

  lemma ClosedIsSized<T>(full: seq<Segment<T>>, last: Option<Segment<T>>, limit: Option<nat>)
    requires Sized(full, limit)
    requires last.Some? ==> last.value.rows != [] && (limit.Some? ==> |last.value.rows| <= limit.value)
    ensures Sized(full + if last.Some? then [last.value] else [], limit)
  {
  }

  /** As few segments as the limit allows: all but the last are full, and there is at least one. */
  predicate Packed<T>(segments: seq<Segment<T>>, limit: nat) {
    && limit > 0 && segments != [] && AllFull(segments[..|segments| - 1], limit)
    && |segments| == Max(1, CeilDiv(|Flatten(segments)|, limit))
  }

  /** Each segment was full when it was completed, or its age by the clock had reached the limit. */
  predicate WereDue<T>(segments: seq<Segment<T>>, ages: seq<real>, rows: Option<nat>, seconds: Option<real>) {
    && |ages| == |segments|
    && forall i :: 0 <= i < |segments| ==>
         || (rows.Some? && |segments[i].rows| == rows.value)
         || (seconds.Some? && ages[i] >= seconds.value)
  }

  /** All but the last were, which closing completes whatever its state. */
  predicate FrontWasDue<T>(segments: seq<Segment<T>>, ages: seq<real>, rows: Option<nat>, seconds: Option<real>) {
    && |ages| == |segments| > 0
    && WereDue(segments[..|segments| - 1], ages[..|ages| - 1], rows, seconds)
  }

  /** Full segments and then the last one, which is empty only when it is alone. */
  lemma ClosedLayout<T>(full: seq<Segment<T>>, last: Option<Segment<T>>, limit: nat)
    requires limit > 0 && AllFull(full, limit)
    requires last.Some? ==> |last.value.rows| <= limit && (last.value.rows == [] ==> full == [])
    ensures
      var closed := full + if last.Some? then [last.value] else [];
      closed != [] ==> Packed(closed, limit)
  {
    var closed := full + if last.Some? then [last.value] else [];
    if closed != [] {
      assert last.Some? ==> closed[..|full|] == full;
      if closed[|closed| - 1].rows == [] {
        assert Flatten(closed) == [];
        QuotientIs(0, limit - 1, limit);
      } else {
        FilledSegments(closed, limit);
      }
    }
  }

  /** The first file number from `start` on that is not taken. */
  method FirstFree(start: nat, files: set<nat>) returns (index: nat)
    ensures start <= index && index !in files
    ensures forall n :: start <= n < index ==> n in files
  {
    index := start;
    ghost var passed: set<nat> := {};
    while index in files
      invariant start <= index && passed <= files
      invariant forall n: nat :: n in passed <==> start <= n < index
      decreases files - passed
    {
      passed := passed + {index};
      index := index + 1;
    }
  }

  class StreamingParquetSink<T> {
    const segmentRows: Option<nat>
    const segmentSeconds: Option<real>
    const flushInterval: nat
    /** The clock's last reading, and its reading when the active segment was opened. */
    var now: real
    var startedAt: real
    var buffer: seq<T>
    var completed: seq<Segment<T>>
    var active: Option<Segment<T>>
    /** Final segment files in the dataset directory. */
    var files: set<nat>
    /** The single output file, when nothing rotates. */
    var file: Option<seq<T>>
    /** How long each completed segment had been active, by the clock's last reading. */
    ghost var ages: seq<real>

    predicate Segmented() {
      segmentRows.Some? || segmentSeconds.Some?
    }

    predicate RowsOnly() {
      segmentRows.Some? && segmentSeconds.None?
    }

    ghost predicate Configured() {
      flushInterval > 0 && (segmentRows.Some? ==> 0 < flushInterval <= segmentRows.value)
    }

    /** Rows handed to the writer, in file order. */
    ghost function Stored(): seq<T>
      reads this
    {
      if Segmented() then Flatten(completed) + (if active.Some? then active.value.rows else []) else RowsOf(file)
    }

    ghost function Contents(): seq<T>
      reads this
    {
      Stored() + buffer
    }

    /** What the segment files look like while the sink is open. */
    ghost predicate Laid()
      reads this
    {
      && Configured()
      && Numbered(completed, files)
      && Sized(completed, segmentRows)
      && (RowsOnly() ==> AllFull(completed, segmentRows.value))
      && (active.Some? ==> active.value.index == |completed|)
      && (active.Some? && segmentRows.Some? ==> |active.value.rows| <= segmentRows.value)
      && (!Segmented() ==> active.None? && completed == [])
      && WereDue(completed, ages, segmentRows, segmentSeconds)
    }

    ghost predicate Valid()
      reads this
    {
      Laid() && |buffer| < flushInterval && (active.Some? ==> active.value.rows != [])
    }

    constructor (flushInterval: nat, segmentRows: Option<nat>, segmentSeconds: Option<real>)
      requires flushInterval > 0 && (segmentRows.Some? ==> segmentRows.value > 0)
      requires (segmentSeconds.Some? ==> segmentSeconds.value > 0.0)
      ensures Valid() && Contents() == [] && this.segmentRows == segmentRows && this.segmentSeconds == segmentSeconds
    {
      this.segmentRows, this.segmentSeconds := segmentRows, segmentSeconds;
      now, startedAt := 0.0, 0.0;
      this.flushInterval := if segmentRows.Some? then Min(flushInterval, segmentRows.value) else flushInterval;
      buffer, completed, active, files, file := [], [], None, {}, None;
      ages := [];
    }

    /** At the clock's last reading the active segment has reached its age limit. */
    predicate Expired()
      reads this
    {
      segmentSeconds.Some? && now - startedAt >= segmentSeconds.value
    }

    method ReadClock()
      modifies `now
      ensures old(now) <= now
    {
      var elapsed: real := *;
      if elapsed > 0.0 {
        now := now + elapsed;
      }
    }

    method ShouldRotateForTime() returns (rotate: bool)
      modifies `now
      ensures old(now) <= now && (rotate <==> active.Some? && Expired())
    {
      if segmentSeconds.None? || active.None? {
        return false;
      }
      ReadClock();
      rotate := now - startedAt >= segmentSeconds.value;
    }

    method EnsureActiveSegment()
      requires Laid() && Segmented()
      modifies `active, `now, `startedAt
      ensures Laid() && active.Some?
      ensures active == if old(active).Some? then old(active) else Some(Segment(|completed|, []))
      ensures old(active).Some? ==> now == old(now) && startedAt == old(startedAt)
    {
      if active.Some? {
        return;
      }
      assert |completed| !in files;
      var index := FirstFree(|completed|, files);
      active := Some(Segment(index, []));
      ReadClock();
      startedAt := now;
    }

    /** Renames the active segment into place. A full or timed-out segment keeps the layout. */
    method FinalizeActiveSegment()
      requires Numbered(completed, files) && (active.Some? ==> active.value.index == |completed|)
      modifies `active, `completed, `files, `ages
      ensures active == None && Numbered(completed, files)
      ensures completed == old(completed) + if old(active).Some? then [old(active).value] else []
      ensures ages == old(ages) + if old(active).Some? then [now - startedAt] else []
      ensures Flatten(completed) == Flatten(old(completed)) + if old(active).Some? then old(active).value.rows else []
    {
      if active.Some? {
        FlattenSnoc(completed, active.value);
        files := files + {active.value.index};
        completed := completed + [active.value];
        ages := ages + [now - startedAt];
        active := None;
      }
    }

    /** Completes a segment that is full or has reached its age limit. */
    method Rotate()
      requires Laid() && active.Some? && active.value.rows != []
      requires (segmentRows.Some? && |active.value.rows| == segmentRows.value) || Expired()
      modifies `active, `completed, `files, `ages
      ensures Laid() && active == None && Stored() == old(Stored()) && |completed| == |old(completed)| + 1
    {
      FinalizeActiveSegment();
    }

    /** Writes rows that fit into a segment not seen expired, and completes the segment they fill. */
    method WriteChunk(chunk: seq<T>)
      requires Laid() && Segmented() && active.Some? && chunk != []
      requires segmentRows.Some? ==> |active.value.rows| + |chunk| <= segmentRows.value
      requires active.value.rows != [] ==> !Expired()
      modifies `active, `completed, `files, `ages
      ensures Laid() && (active.Some? ==> active.value.rows != [] && active.value.index == old(active).value.index)
      ensures |completed| == |old(completed)| + if active.None? then 1 else 0
      ensures Stored() == old(Stored()) + chunk
    {
      active := Some(Segment(active.value.index, active.value.rows + chunk));
      assert Stored() == old(Stored()) + chunk;
      if segmentRows.Some? && |active.value.rows| >= segmentRows.value {
        Rotate();
      }
    }

    /** The segment that was open before is still open. */
    twostate predicate StaysOpen()
      reads this
    {
      old(active).Some? && active.Some? && active.value.index == old(active).value.index
    }

    /** Completes a segment that is due, or else writes as many rows as fit. */
    method WriteSome(pending: seq<T>) returns (rest: seq<T>)
      requires Laid() && Segmented() && (active.Some? ==> active.value.rows != []) && pending != []
      modifies `active, `completed, `files, `ages, `now, `startedAt
      ensures Laid() && (active.Some? ==> active.value.rows != [])
      ensures Stored() + rest == old(Stored()) + pending
      ensures |rest| < |pending| || (rest == pending && old(active).Some? && active.None?)
      ensures |old(completed)| <= |completed|
      ensures old(active).Some? && active.None? ==> |old(completed)| < |completed|
      ensures StaysOpen() ==> startedAt == old(startedAt) && !Expired()
    {
      hide Sized, AllFull, Numbered, Flatten, WereDue;
      EnsureActiveSegment();
      assert Stored() == old(Stored());
      var late := ShouldRotateForTime();
      if late && |active.value.rows| > 0 {
        Rotate();
        return pending;
      }
      var budget := |pending|;
      if segmentRows.Some? {
        var remaining := segmentRows.value - |active.value.rows|;
        if remaining <= 0 {
          Rotate();
          return pending;
        }
        budget := Min(budget, remaining);
      }
      WriteChunk(pending[..budget]);
      rest := pending[budget..];
      assert old(Stored()) + pending == old(Stored()) + pending[..budget] + rest;
    }

    /** Moves the whole buffer into segments, rotating by rows and by time. */
    method FlushSegmented()
      requires Laid() && Segmented() && (active.Some? ==> active.value.rows != [])
      modifies `buffer, `active, `completed, `files, `ages, `now, `startedAt
      ensures Laid() && (active.Some? ==> active.value.rows != [])
      ensures buffer == [] && Stored() == old(Contents())
      ensures |old(completed)| <= |completed|
      ensures StaysOpen() ==> startedAt == old(startedAt) && (old(buffer) != [] ==> !Expired())
    {
      hide Sized, AllFull, Numbered, Flatten, WereDue;
      var pending := buffer;
      buffer := [];
      assert active.Some? ==> active.value.index == |completed|;
      while pending != []
        invariant Laid() && buffer == []
        invariant Stored() + pending == old(Contents())
        invariant active.Some? ==> active.value.rows != []
        invariant |old(completed)| <= |completed| && |pending| <= |old(buffer)|
        invariant old(active).Some? && active.None? ==> |old(completed)| < |completed|
        invariant StaysOpen() ==> startedAt == old(startedAt) && (pending == old(buffer) || !Expired())
        decreases |pending|, if active.Some? then 1 else 0
      {
        pending := WriteSome(pending);
      }
    }

    method Flush()
      requires Laid() && (active.Some? ==> active.value.rows != [])
      modifies this
      ensures Laid() && (active.Some? ==> active.value.rows != [])
      ensures buffer == [] && Contents() == old(Contents())
      ensures |old(completed)| <= |completed|
      ensures StaysOpen() ==> startedAt == old(startedAt) && (old(buffer) == [] || !Segmented() || !Expired())
    {
      if buffer == [] {
        return;
      }
      if Segmented() {
        FlushSegmented();
      } else {
        file := Some(RowsOf(file) + buffer);
        buffer := [];
      }
    }

    method Write(item: T)
      requires Valid()
      modifies this
      ensures Valid() && Contents() == old(Contents()) + [item]
      ensures StaysOpen() ==> !Expired()
      ensures buffer == if |old(buffer)| + 1 < flushInterval then old(buffer) + [item] else []
    {
      hide Sized, AllFull, Numbered, WereDue;
      var late := ShouldRotateForTime();
      if Segmented() && late {
        Rotate();
      }
      buffer := buffer + [item];
      if |buffer| >= flushInterval {
        Flush();
      }
    }

    /** Completes the active segment; a sink that stored nothing still gets one, empty, segment. */
    method CloseSegments()
      requires Laid() && Segmented() && (active.Some? ==> active.value.rows != []) && buffer == []
      modifies `active, `completed, `files, `ages, `now, `startedAt
      ensures active == None && Numbered(completed, files) && completed != []
      ensures Flatten(completed) == old(Contents())
      ensures if old(Contents()) == [] then completed == [Segment(0, [])] else Sized(completed, segmentRows)
      ensures RowsOnly() ==> Packed(completed, segmentRows.value)
      ensures FrontWasDue(completed, ages, segmentRows, segmentSeconds)
    {
      ghost var stored := Contents();
      assert stored == Stored();
      assert completed == [] ==> Flatten(completed) == [];
      hide AllFull, Packed, Flatten, Sized, WereDue, FrontWasDue;
      if active.None? && completed == [] {
        EnsureActiveSegment();
      }
      ghost var full, last := completed, active;
      ghost var fullAges := ages;
      FinalizeActiveSegment();
      LastWhatever(full, last, fullAges, now - startedAt, segmentRows, segmentSeconds);
      if stored == [] {
        NothingStored(full, segmentRows);
      } else {
        ClosedIsSized(full, last, segmentRows);
      }
      if RowsOnly() {
        ClosedLayout(full, last, segmentRows.value);
      }
    }

    /** Nothing is lost or reordered by closing, and the segment count is as small as the row limit allows. */
    method Close()
      requires Valid()
      modifies this
      ensures buffer == [] && active == None
      ensures Segmented() ==> Flatten(completed) == old(Contents()) && Numbered(completed, files) && completed != []
      ensures Segmented() && old(Contents()) != [] ==> Sized(completed, segmentRows)
      ensures Segmented() && old(Contents()) == [] ==> completed == [Segment(0, [])]
      ensures RowsOnly() ==> Packed(completed, segmentRows.value)
      ensures Segmented() ==> FrontWasDue(completed, ages, segmentRows, segmentSeconds)
      ensures !Segmented() ==> file == Some(old(Contents()))
    {
      Flush();
      if Segmented() {
        CloseSegments();
      } else if file.None? {
        file := Some([]);
      } else {
        assert Contents() == file.value;
      }
    }
  }

  lemma LastWhatever<T>(full: seq<Segment<T>>, last: Option<Segment<T>>, ages: seq<real>, age: real,
                        rows: Option<nat>, seconds: Option<real>)
    requires WereDue(full, ages, rows, seconds) && (full != [] || last.Some?)
    ensures FrontWasDue(full + if last.Some? then [last.value] else [], ages + if last.Some? then [age] else [], rows,
                        seconds)
  {
    if last.Some? {
      assert (full + [last.value])[..|full|] == full && (ages + [age])[..|ages|] == ages;
    } else {
      assert full + [] == full && ages + [] == ages;
      var n := |full| - 1;
      assert forall i :: 0 <= i < n ==> full[..n][i] == full[i] && ages[..n][i] == ages[i];
    }
  }

  lemma NothingStored<T>(segments: seq<Segment<T>>, limit: Option<nat>)
    requires Flatten(segments) == [] && Sized(segments, limit)
    ensures segments == []
  {
  }

  method WriteAll<T>(sink: StreamingParquetSink<T>, rows: seq<T>)
    requires sink.Valid() && sink.Contents() == []
    modifies sink
    ensures sink.Valid() && sink.Contents() == rows
  {
    hide StreamingParquetSink.Laid, StreamingParquetSink.Stored;
    for i := 0 to |rows|
      invariant sink.Valid() && sink.Contents() == rows[..i]
    {
      sink.Write(rows[i]);
    }
    assert rows[..|rows|] == rows;
  }

  /** Opening a sink, writing every row, and closing it, under any clock. */
  method Session<T>(rows: seq<T>, flushInterval: nat, segmentRows: Option<nat>, segmentSeconds: Option<real>)
    returns (segments: seq<Segment<T>>, ghost ages: seq<real>)
    requires flushInterval > 0 && (segmentRows.Some? ==> segmentRows.value > 0)
    requires (segmentSeconds.Some? ==> segmentSeconds.value > 0.0)
    requires segmentRows.Some? || segmentSeconds.Some?
    ensures Flatten(segments) == rows && segments != []
    ensures forall i :: 0 <= i < |segments| ==> segments[i].index == i
    ensures if rows == [] then segments == [Segment(0, [])] else Sized(segments, segmentRows)
    ensures segmentRows.Some? && segmentSeconds.None? ==> Packed(segments, segmentRows.value)
    ensures FrontWasDue(segments, ages, segmentRows, segmentSeconds)
  {
    hide StreamingParquetSink.Laid, StreamingParquetSink.Stored, Packed, Sized, FrontWasDue, Flatten, WereDue, Numbered;
    var sink := new StreamingParquetSink<T>(flushInterval, segmentRows, segmentSeconds);
    WriteAll(sink, rows);
    sink.Close();
    segments, ages := sink.completed, sink.ages;
  }

  // ---------------------------------------------------------------- appending to a closed dataset

  /** One more than the largest index in the manifest. */
  method NextSegmentIndex<T>(manifest: seq<Segment<T>>) returns (next: nat)
    ensures forall i :: 0 <= i < |manifest| ==> manifest[i].index < next
    ensures next == 0 || exists i :: 0 <= i < |manifest| && manifest[i].index + 1 == next
  {
    next := 0;
    for k := 0 to |manifest|
      invariant forall i :: 0 <= i < k ==> manifest[i].index < next
      invariant next == 0 || exists i :: 0 <= i < k && manifest[i].index + 1 == next
    {
      if next <= manifest[k].index {
        next := manifest[k].index + 1;
      }
    }
  }

  /** Adds one segment after all the others, under a name no file has. */
  method AppendParquetSegment<T>(manifest: seq<Segment<T>>, files: map<nat, seq<T>>, rows: seq<T>)
    returns (manifest': seq<Segment<T>>, files': map<nat, seq<T>>)
    ensures |manifest'| == |manifest| + 1 && manifest'[..|manifest|] == manifest
    ensures Flatten(manifest') == Flatten(manifest) + rows
    ensures var added := manifest'[|manifest|];
            && added.index !in files && files' == files[added.index := rows] && added.rows == rows
            && (forall i :: 0 <= i < |manifest| ==> manifest[i].index < added.index)
    ensures Numbered(manifest, files.Keys) ==> Numbered(manifest', files'.Keys)
  {
    var next := NextSegmentIndex(manifest);
    var index := FirstFree(next, files.Keys);
    var added := Segment(index, rows);
    manifest' := manifest + [added];
    files' := files[index := rows];
    FlattenSnoc(manifest, added);
    if Numbered(manifest, files.Keys) {
      assert manifest != [] ==> manifest[|manifest| - 1].index in files.Keys;
      assert |manifest| !in files.Keys;
      assert index == |manifest|;
    }
  }

  // ---------------------------------------------------------------- the appending sink's failure latch

  /** Where a flush can raise: before anything is opened, copying the old rows, or writing the new ones. */
  datatype Fault = NoFault | Converting | Copying(landed: nat) | Writing(landed: nat)

  function Landed<T>(rows: seq<T>, landed: nat): seq<T> {
    rows[..Min(landed, |rows|)]
  }

  class ParquetSink<T> {
    const flushInterval: int
    var file: Option<seq<T>>
    var temp: Option<seq<T>>
    var writing: bool
    var buffer: seq<T>
    var failed: bool

    ghost predicate Valid()
      reads this
    {
      !failed ==> (temp.Some? ==> writing && file.Some?) && (writing && temp.None? ==> file.Some?)
    }

    /** What the file will hold once the sink is closed. */
    ghost function Promised(): seq<T>
      reads this
    {
      RowsOf(if temp.Some? then temp else file) + buffer
    }

    /** The old file is out of reach of the writer. */
    ghost predicate Shielded()
      reads this
    {
      file.Some? && (writing ==> temp.Some?)
    }

    constructor (flushInterval: int, file: Option<seq<T>>)
      ensures Valid() && !failed && this.file == file && Promised() == RowsOf(file) && (file.Some? ==> Shielded())
    {
      this.flushInterval := flushInterval;
      this.file := file;
      temp, writing, buffer, failed := None, false, [], false;
    }

    method Flush(fault: Fault) returns (ok: bool)
      requires Valid()
      modifies this
      ensures Valid() && (old(failed) ==> !ok) && failed == !ok && (!old(failed) && fault == NoFault ==> ok)
      ensures ok ==> buffer == [] && Promised() == old(Promised())
      ensures old(Shielded()) ==> Shielded() && file == old(file)
    {
      if failed {
        return false;
      }
      if buffer == [] {
        return true;
      }
      if fault.Converting? {
        failed, writing := true, false;
        return false;
      }
      if !writing {
        if file.Some? {
          temp := Some([]);
          if fault.Copying? {
            temp := Some(Landed(file.value, fault.landed));
            failed := true;
            return false;
          }
          temp := file;
        } else {
          file := Some([]);
        }
        writing := true;
      }
      var batch := if fault.Writing? then Landed(buffer, fault.landed) else buffer;
      if temp.Some? {
        temp := Some(temp.value + batch);
      } else {
        file := Some(RowsOf(file) + batch);
      }
      if fault.Writing? {
        failed, writing := true, false;
        return false;
      }
      buffer := [];
      ok := true;
    }

    method Write(item: T, fault: Fault) returns (ok: bool)
      requires Valid()
      modifies this
      ensures Valid() && (old(failed) ==> !ok) && failed == !ok && (!old(failed) && fault == NoFault ==> ok)
      ensures ok ==> Promised() == old(Promised()) + [item]
      ensures old(Shielded()) ==> Shielded() && file == old(file)
    {
      if failed {
        return false;
      }
      buffer := buffer + [item];
      ok := true;
      if |buffer| >= flushInterval {
        ok := Flush(fault);
      }
    }

    method Close(fault: Fault) returns (ok: bool)
      requires Valid()
      modifies this
      ensures Valid() && (old(failed) ==> !ok) && failed == !ok && (!old(failed) && fault == NoFault ==> ok)
      ensures ok ==> file == Some(old(Promised())) && buffer == [] && temp == None
      ensures !ok && old(Shielded()) ==> file == old(file)
    {
      ok := Flush(fault);
      writing := false;
      if !ok {
        return;
      }
      assert Promised() == RowsOf(if temp.Some? then temp else file);
      if temp.Some? {
        file, temp := temp, None;
      } else if file.None? {
        file := Some([]);
      }
    }
  }

  /**
   * Writing rows and closing, whatever raises on the way and however often the caller carries on: the close
   * returns only when every row landed after the old ones, and otherwise an existing file is untouched.
   */
  method AppendSession<T>(file: Option<seq<T>>, rows: seq<T>, flushInterval: int, faults: seq<Fault>, last: Fault)
    returns (ok: bool, file': Option<seq<T>>)
    requires |faults| == |rows|
    ensures ok ==> file' == Some(RowsOf(file) + rows)
    ensures !ok && file.Some? ==> file' == file
    ensures last == NoFault && (forall i :: 0 <= i < |faults| ==> faults[i] == NoFault) ==> ok
  {
    var sink := new ParquetSink<T>(flushInterval, file);
    for i := 0 to |rows|
      invariant sink.Valid()
      invariant !sink.failed ==> sink.Promised() == RowsOf(file) + rows[..i]
      invariant file.Some? ==> sink.Shielded() && sink.file == file
      invariant (forall j :: 0 <= j < i ==> faults[j] == NoFault) ==> !sink.failed
    {
      var written := sink.Write(rows[i], faults[i]);
    }
    assert rows[..|rows|] == rows;
    ok := sink.Close(last);
    file' := sink.file;
  }
}
