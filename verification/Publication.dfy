/** Publishing an export: pointer, compatibility aliases, pruning and cleanup, interrupted between any two steps. */
module Publication {
  import opened Outcomes

  datatype Artifact = Wallets | Evidence | Manifest

  const ARTIFACTS: set<Artifact> := {Wallets, Evidence, Manifest}

  type Generation = string

  datatype Pointer = Pointer(generation: Generation, previous: Option<Generation>)

  /** The output directory: the pointer file, the root aliases, and the artifacts each generation holds. */
  datatype Disk = Disk(pointer: Option<Pointer>, aliases: map<Artifact, Generation>, files: map<Generation,
    set<Artifact>>)

  predicate Complete(d: Disk, g: Generation) {
    g in d.files && d.files[g] == ARTIFACTS
  }

  predicate Selects(d: Disk, g: Generation) {
    d.pointer.Some? && d.pointer.value.generation == g
  }

  predicate Aliased(d: Disk, g: Generation) {
    exists a :: a in d.aliases && d.aliases[a] == g
  }

  /** A present pointer leads to a whole bundle, and every alias leads to a file. */
  predicate Safe(d: Disk) {
    && (d.pointer.Some? ==> Complete(d, d.pointer.value.generation))
    && forall a :: a in d.aliases ==> d.aliases[a] in d.files && a in d.files[d.aliases[a]]
  }

  /** A session that did not publish has touched its own generation only. */
  ghost predicate Untouched(d: Disk, d': Disk, g: Generation) {
    && d'.pointer == d.pointer && d'.aliases == d.aliases
    && forall h :: h != g ==> Get(d'.files, h) == Get(d.files, h)
  }

  /** A session that published: what the pointer now says, what aliases may say, and what must survive. */
  ghost predicate Committed(d: Disk, d': Disk, g: Generation, previous: Option<Generation>) {
    && d'.pointer == Some(Pointer(g, previous))
    && (forall a :: a in d'.aliases ==> d'.aliases[a] == g || Get(d.aliases, a) == Some(d'.aliases[a]))
    && (previous.Some? && previous.value in d.files ==> Get(d'.files, previous.value) == Get(d.files, previous.value))
    && d'.files.Keys <= d.files.Keys + {g}
  }

  function Remembered(d: Disk, readable: bool): Option<Generation> {
    if readable && d.pointer.Some? then Some(d.pointer.value.generation) else None
  }

  /** What an undisturbed publication leaves. */
  function Published(d: Disk, g: Generation, previous: Option<Generation>): Disk {
    Disk(Some(Pointer(g, previous)), map a | a in ARTIFACTS :: g,
         map h | h in d.files && (h == g || Some(h) == previous) :: d.files[h])
  }

  lemma AliasesAre(aliases: map<Artifact, Generation>, g: Generation)
    requires forall a: Artifact :: Get(aliases, a) == Some(g)
    ensures aliases == map a | a in ARTIFACTS :: g
  {
    forall a: Artifact ensures a in ARTIFACTS && a in aliases && aliases[a] == g {
      assert Get(aliases, a) == Some(g);
      match a case Wallets => case Evidence => case Manifest =>
    }
  }

  datatype Outcome = Success | Warning | Raised | Killed

  /** What befalls a step: nothing when all is calm, else anything. */
  method Befalls(calm: bool) returns (outcome: Outcome)
    ensures calm ==> outcome.Success?
  {
    outcome := Success;
    if !calm {
      outcome := *;
    }
  }

  class OutputDirectory {
    var disk: Disk

    constructor ()
      ensures disk == Disk(None, map[], map[]) && Safe(disk)
    {
      disk := Disk(None, map[], map[]);
    }

    /** False only if the pointer is absent, or readable and selecting another generation. */
    method PointerMaySelect(g: Generation, readable: bool) returns (may: bool)
      ensures may <==> Selects(disk, g) || (disk.pointer.Some? && !readable)
    {
      if disk.pointer.None? {
        return false;
      }
      may := !readable || disk.pointer.value.generation == g;
    }

    /** File by file, then the directory; it may stop anywhere. */
    method RemoveTree(g: Generation, calm: bool) returns (finished: bool)
      modifies this
      ensures calm ==> finished
      ensures Untouched(old(disk), disk, g)
      ensures Safe(old(disk)) && !Selects(old(disk), g) && !Aliased(old(disk), g) ==> Safe(disk)
      ensures finished ==> g !in disk.files
      ensures disk.files.Keys <= old(disk).files.Keys
    {
      if g !in disk.files {
        return true;
      }
      while disk.files[g] != {}
        invariant Untouched(old(disk), disk, g) && g in disk.files
        invariant Safe(old(disk)) && !Selects(old(disk), g) && !Aliased(old(disk), g) ==> Safe(disk)
        invariant disk.files.Keys == old(disk).files.Keys
        decreases disk.files[g]
      {
        var fault := Befalls(calm);
        if !fault.Success? {
          return false;
        }
        var a :| a in disk.files[g];
        disk := disk.(files := disk.files[g := disk.files[g] - {a}]);
      }
      disk := disk.(files := disk.files - {g});
      finished := true;
    }

    /** Replaces the root aliases one at a time. */
    method PublishAliases(g: Generation, calm: bool) returns (outcome: Outcome)
      requires Safe(disk) && Complete(disk, g)
      modifies this
      ensures Safe(disk) && disk.pointer == old(disk).pointer && disk.files == old(disk).files
      ensures forall a :: a in disk.aliases ==>
        disk.aliases[a] == g || Get(old(disk).aliases, a) == Some(disk.aliases[a])
      ensures outcome.Success? ==> disk.aliases == map a | a in ARTIFACTS :: g
      ensures calm ==> outcome.Success?
    {
      var names := [Wallets, Evidence, Manifest];
      for k := 0 to |names|
        invariant Safe(disk) && disk.pointer == old(disk).pointer && disk.files == old(disk).files
        invariant forall a :: a in disk.aliases ==>
          disk.aliases[a] == g || Get(old(disk).aliases, a) == Some(disk.aliases[a])
        invariant forall i :: 0 <= i < k ==> Get(disk.aliases, names[i]) == Some(g)
      {
        var before := Befalls(calm);
        if !before.Success? {
          return before;
        }
        disk := disk.(aliases := disk.aliases[names[k] := g]);
        var after := Befalls(calm);
        if !after.Success? {
          return after;
        }
      }
      forall a: Artifact ensures Get(disk.aliases, a) == Some(g) {
        assert a == names[0] || a == names[1] || a == names[2];
      }
      AliasesAre(disk.aliases, g);
      outcome := Success;
    }

    /** Removes every generation but the two retained, in any order. */
    method PruneGenerations(current: Generation, previous: Option<Generation>, calm: bool) returns (outcome: Outcome)
      requires Safe(disk) && Selects(disk, current) && disk.aliases == map a | a in ARTIFACTS :: current
      modifies this
      ensures Safe(disk) && disk.pointer == old(disk).pointer && disk.aliases == old(disk).aliases
      ensures Get(disk.files, current) == Get(old(disk).files, current)
      ensures previous.Some? ==> Get(disk.files, previous.value) == Get(old(disk).files, previous.value)
      ensures disk.files.Keys <= old(disk).files.Keys
      ensures outcome.Success? ==> disk == Published(old(disk), current, previous).(pointer := disk.pointer)
      ensures calm ==> outcome.Success?
    {
      var retained := {current} + if previous.Some? then {previous.value} else {};
      var doomed := disk.files.Keys - retained;
      while doomed != {}
        invariant Safe(disk) && disk.pointer == old(disk).pointer && disk.aliases == old(disk).aliases
        invariant doomed !! retained && doomed <= old(disk).files.Keys
        invariant forall h :: h in retained ==> Get(disk.files, h) == Get(old(disk).files, h)
        invariant disk.files.Keys <= old(disk).files.Keys && disk.files.Keys <= retained + doomed
        decreases doomed
      {
        var h :| h in doomed;
        doomed := doomed - {h};
        var finished := RemoveTree(h, calm);
        if !finished {
          outcome := *;
          if outcome.Success? {
            outcome := Killed;
          }
          return;
        }
      }
      outcome := Success;
    }

    /**
     * The caller holds the publication lock. The pointer's rename is the commit. `valid` says whether the manifest
     * describes the artifacts, `readable` whether the old pointer can be read.
     */
    method PublishGeneration(g: Generation, valid: bool, readable: bool, calm: bool)
      returns (outcome: Outcome, ghost committed: bool, ghost previous: Option<Generation>)
      requires Safe(disk) && g in disk.files && !Selects(disk, g) && !Aliased(disk, g)
      modifies this
      ensures Safe(disk)
      ensures !committed ==> disk == old(disk)
      ensures committed ==> Complete(disk, g) && Committed(old(disk), disk, g, previous)
      ensures previous == Remembered(old(disk), readable)
      ensures outcome.Warning? ==> committed
      ensures outcome.Success? ==> committed && disk == Published(old(disk), g, previous)
      ensures outcome.Success? ==> forall h :: Selects(old(disk), h) ==> (h in disk.files <==> readable)
      ensures !valid || !Complete(old(disk), g) ==> outcome.Raised? && !committed
      ensures calm && valid && Complete(old(disk), g) ==> outcome.Success?
    {
      var last := if readable && disk.pointer.Some? then Some(disk.pointer.value.generation) else None;
      committed, previous := false, last;
      if disk.files[g] != ARTIFACTS || !valid {
        return Raised, false, last;
      }
      var before := Befalls(calm);
      if !before.Success? {
        return (if before.Killed? then Killed else Raised), false, last;
      }
      disk := disk.(pointer := Some(Pointer(g, last)));
      committed := true;
      var renamed := Befalls(calm);
      if !renamed.Success? {
        return renamed, true, last;
      }
      outcome := PublishAliases(g, calm);
      if outcome.Success? {
        outcome := PruneGenerations(g, last, calm);
      }
    }

    /** The exporter fills the fresh directory; it may stop after any artifact, or leave one out. */
    method WriteArtifacts(g: Generation, calm: bool) returns (outcome: Outcome)
      requires Safe(disk) && g !in disk.files
      modifies this
      ensures Safe(disk) && Untouched(old(disk), disk, g) && g in disk.files
      ensures outcome != Warning
      ensures calm ==> outcome.Success? && Complete(disk, g)
    {
      disk := disk.(files := disk.files[g := {}]);
      var missing := ARTIFACTS;
      while missing != {}
        invariant Safe(disk) && Untouched(old(disk), disk, g) && g in disk.files
        invariant missing <= ARTIFACTS && (calm ==> disk.files[g] == ARTIFACTS - missing)
        decreases missing
      {
        outcome := Befalls(calm);
        if outcome == Raised || outcome == Killed {
          return;
        }
        var a :| a in missing;
        missing := missing - {a};
        if outcome.Success? {
          disk := disk.(files := disk.files[g := disk.files[g] + {a}]);
        }
      }
      outcome := Success;
    }

    /**
     * One export under the lock: write, publish, and clean up after anything short of a kill. `legible` says whether
     * the pointer can be read at that cleanup, `undisturbed` whether the cleanup gets through.
     */
    method Export(g: Generation, valid: bool, readable: bool, calm: bool, legible: bool, undisturbed: bool)
        returns (outcome: Outcome, ghost session: Session)
      requires Safe(disk) && g !in disk.files
      modifies this
      ensures session.generation == g && session.remembers == readable && Happens(old(disk), session, disk)
      ensures outcome == Success || outcome == Warning ==> Selects(disk, g)
      ensures Aliased(disk, g) ==> Selects(disk, g)
      ensures calm && valid ==> outcome == Success && Complete(disk, g)
      ensures !valid ==> !session.committed
      ensures outcome.Raised? && !Selects(disk, g) && undisturbed && (legible || disk.pointer.None?) ==>
        g !in disk.files
    {
      ghost var committed, previous := false, None;
      outcome := WriteArtifacts(g, calm);
      ghost var written := disk;
      if outcome.Success? {
        outcome, committed, previous := PublishGeneration(g, valid, readable, calm);
      }
      session := Session(g, committed, readable);
      assert forall h :: h in written.files && h != g ==> Get(written.files, h) == Get(old(disk).files, h);
      assert Happens(old(disk), session, disk);
      if outcome.Raised? {
        var may := PointerMaySelect(g, legible);
        if !may {
          ghost var failed := disk;
          var finished := RemoveTree(g, undisturbed);
          CleanupIsPartOfTheSession(old(disk), session, failed, disk);
        }
      }
    }

    /** After killing a worker its generation goes, unless the pointer may select it. */
    method CleanKilledWorker(g: Generation, readable: bool, calm: bool)
      modifies this
      ensures if Selects(old(disk), g) || (old(disk).pointer.Some? && !readable) then disk == old(disk)
              else Untouched(old(disk), disk, g) && (calm ==> g !in disk.files)
      ensures Safe(old(disk)) && (Aliased(old(disk), g) ==> Selects(old(disk), g)) ==> Safe(disk)
    {
      var may := PointerMaySelect(g, readable);
      if !may {
        var finished := RemoveTree(g, calm);
      }
    }
  }

  // ---------------------------------------------------------------- whole runs

  /** `remembers` says whether the publisher could read the pointer it replaced. */
  datatype Session = Session(generation: Generation, committed: bool, remembers: bool)

  ghost predicate Happens(d: Disk, s: Session, d': Disk) {
    && s.generation !in d.files && Safe(d')
    && if s.committed then Committed(d, d', s.generation, Remembered(d, s.remembers))
      else Untouched(d, d', s.generation)
  }

  lemma CleanupIsPartOfTheSession(d: Disk, s: Session, d': Disk, d'': Disk)
    requires Happens(d, s, d') && Safe(d'') && Untouched(d', d'', s.generation) && !Selects(d', s.generation)
    ensures Happens(d, s, d'')
  {
  }

  ghost predicate Run(disks: seq<Disk>, sessions: seq<Session>) {
    && |disks| == |sessions| + 1 && Safe(disks[0])
    && forall i :: 0 <= i < |sessions| ==> Happens(disks[i], sessions[i], disks[i + 1])
  }

  function Commits(sessions: seq<Session>): nat {
    if sessions == [] then 0
    else Commits(sessions[..|sessions| - 1]) + if sessions[|sessions| - 1].committed then 1 else 0
  }

  /** No publisher replaced the pointer without having read it. */
  predicate PointersRead(sessions: seq<Session>) {
    forall i :: 0 <= i < |sessions| && sessions[i].committed ==> sessions[i].remembers
  }

  ghost predicate Holds(d: Disk, g: Generation, commits: nat) {
    && Complete(d, g)
    && (commits == 0 ==> Selects(d, g))
    && (commits == 1 ==> d.pointer.Some? && d.pointer.value.previous == Some(g))
  }

  /**
   * A reader that read the pointer finds its whole bundle until the second later publication, through any
   * sessions that crashed, failed or were cleaned up in between.
   */
  lemma {:induction false} ReaderKeepsBundle(disks: seq<Disk>, sessions: seq<Session>, g: Generation)
    requires Run(disks, sessions) && Selects(disks[0], g) && PointersRead(sessions) && Commits(sessions) <= 1
    ensures Holds(disks[|sessions|], g, Commits(sessions))
  {
    if sessions != [] {
      var n := |sessions| - 1;
      ReaderKeepsBundle(disks[..n + 1], sessions[..n], g);
      assert Happens(disks[n], sessions[n], disks[n + 1]);
      assert Get(disks[n + 1].files, g) == Get(disks[n].files, g);
    }
  }

  lemma AtMostTwoRemain(d: Disk, g: Generation, previous: Option<Generation>)
    ensures |Published(d, g, previous).files.Keys| <= 2
  {
    var kept := Published(d, g, previous).files.Keys;
    var retained := {g} + if previous.Some? then {previous.value} else {};
    assert kept <= retained;
    SubsetSize(kept, retained);
  }

  lemma {:induction false} SubsetSize<T>(a: set<T>, b: set<T>)
    requires a <= b
    ensures |a| <= |b|
  {
    if a != {} {
      var x :| x in a;
      SubsetSize(a - {x}, b - {x});
    }
  }

  lemma RemovalIsSafeExactly(d: Disk, g: Generation)
    requires Safe(d) && !Selects(d, g)
    ensures Safe(d.(files := d.files - {g})) <==> !Aliased(d, g)
  {
    if Aliased(d, g) {
      var a :| a in d.aliases && d.aliases[a] == g;
    }
  }

  /**
   * A killed worker that had published must be cleaned up before the next publication: once another session
   * has committed and stopped before moving the aliases, the same cleanup leaves them dangling.
   */
  lemma LateCleanupDangles(d: Disk, g: Generation, next: Generation)
    requires Safe(d) && Selects(d, g) && Aliased(d, g) && next !in d.files
    ensures
      var d' := Disk(Some(Pointer(next, Some(g))), d.aliases, d.files[next := ARTIFACTS]);
      && Happens(d, Session(next, true, true), d')
      && !Selects(d', g) && !Safe(d'.(files := d'.files - {g}))
  {
    var d' := Disk(Some(Pointer(next, Some(g))), d.aliases, d.files[next := ARTIFACTS]);
    assert Get(d'.files, g) == Get(d.files, g);
    RemovalIsSafeExactly(d', g);
  }

  /**
   * Exports under fresh names, one after the other, each with whatever befalls it and perhaps cleaned up after
   * a kill, form a run.
   */
  method Exports(output: OutputDirectory, names: seq<Generation>, readable: seq<bool>)
    returns (ghost disks: seq<Disk>, ghost sessions: seq<Session>)
    requires Safe(output.disk) && |readable| == |names|
    requires forall i :: 0 <= i < |names| ==> names[i] !in output.disk.files
    requires forall i, j :: 0 <= i < j < |names| ==> names[i] != names[j]
    modifies output
    ensures Run(disks, sessions) && |sessions| == |names|
    ensures disks[0] == old(output.disk) && disks[|names|] == output.disk
    ensures forall i :: 0 <= i < |names| ==> sessions[i].generation == names[i] && sessions[i].remembers == readable[i]
  {
    disks, sessions := [output.disk], [];
    for i := 0 to |names|
      invariant Run(disks, sessions) && |sessions| == i && Safe(output.disk)
      invariant disks[0] == old(output.disk) && disks[i] == output.disk
      invariant forall k :: i <= k < |names| ==> names[k] !in output.disk.files
      invariant forall k :: 0 <= k < i ==> sessions[k].generation == names[k] && sessions[k].remembers == readable[k]
    {
      ghost var before := output.disk;
      ghost var session: Session;
      var outcome: Outcome;
      var valid: bool, calm: bool, legible: bool, undisturbed: bool := *, *, *, *;
      outcome, session := output.Export(names[i], valid, readable[i], calm, legible, undisturbed);
      var cancelled: bool := *;
      if outcome.Killed? && cancelled {
        ghost var stopped := output.disk;
        output.CleanKilledWorker(names[i], legible, undisturbed);
        if !Selects(stopped, names[i]) {
          CleanupIsPartOfTheSession(before, session, stopped, output.disk);
        }
      }
      forall k | i < k < |names| ensures names[k] !in output.disk.files {
        assert Get(before.files, names[k]) == None;
        if !session.committed {
          assert Get(output.disk.files, names[k]) == Get(before.files, names[k]);
        }
      }
      disks, sessions := disks + [output.disk], sessions + [session];
    }
  }
}
