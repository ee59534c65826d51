/**
 Whole runs of the checkpoint store: any sequence of snapshots, undos and discards, interleaved with arbitrary writes,
 creations and deletions by other programs.
 */
module CheckpointRuns {
  import opened Prelude
  import opened Snapshots
  import opened Checkpoints

  datatype Event =
    | Outside(path: Path, state: Option<Bytes>)
    | Snap(path: Path, stamp: Stamp)
    | Undo
    | UndoAll
    | Discard

  /** The simple store the optimised one must look like: files and a trimmed stack, no cursor and no log. */
  datatype World = World(files: Files, stack: seq<Snapshot>)

  function Step(max: nat, w: World, event: Event): World {
    match event
    case Outside(path, state) =>
      w.(files := if state.Some? then w.files[path := state.value] else w.files - {path})
    case Snap(path, stamp) => w.(stack := Trimmed(w.stack + [Capture(w.files, path, stamp)], max))
    case Undo => if w.stack == [] then w else World(Restored(w.files, w.stack[|w.stack| - 1]), w.stack[..|w.stack| - 1])
    case UndoAll => World(RestoredAll(w.files, w.stack), [])
    case Discard => w.(stack := [])
  }

  function Run(max: nat, w: World, events: seq<Event>): World
    decreases |events|
  {
    if events == [] then w else Step(max, Run(max, w, events[..|events| - 1]), events[|events| - 1])
  }

  // ----- The object follows the simple store -----

  function WorldOf(manager: CheckpointManager): World
    reads manager, manager.disk
  {
    World(manager.disk.files, manager.snapshots)
  }

  /** Another program writes or deletes a file. */
  method WriteFile(disk: Disk, path: Path, state: Option<Bytes>)
    modifies disk`files
    ensures disk.files == if state.Some? then old(disk.files)[path := state.value] else old(disk.files) - {path}
  {
    disk.files := if state.Some? then disk.files[path := state.value] else disk.files - {path};
  }

  /** One event on the object does what it does to the simple store, keeps the cursor law, and syncs the log when it writes. */
  method Perform(manager: CheckpointManager, event: Event)
    requires manager.Valid()
    modifies manager`snapshots, manager`persistedLen, manager.disk
    ensures manager.Valid() && WorldOf(manager) == Step(manager.maxSnapshots, old(WorldOf(manager)), event)
    ensures old(manager.InStep()) || event.Snap? || event.Discard? ==> manager.InStep()
  {
    match event
    case Outside(path, state) =>
      WriteFile(manager.disk, path, state);
    case Snap(path, stamp) =>
      manager.SnapshotFile(path, stamp);
    case Undo =>
      PerformUndo(manager);
    case UndoAll =>
      PerformUndoAll(manager);
    case Discard =>
      manager.Clear();
  }

  method PerformUndo(manager: CheckpointManager)
    requires manager.Valid()
    modifies manager`snapshots, manager`persistedLen, manager.disk
    ensures manager.Valid() && (old(manager.InStep()) ==> manager.InStep())
    ensures WorldOf(manager) == Step(manager.maxSnapshots, old(WorldOf(manager)), Undo)
  {
    var r := manager.Rollback(true);
  }

  method PerformUndoAll(manager: CheckpointManager)
    requires manager.Valid()
    modifies manager`snapshots, manager`persistedLen, manager.disk
    ensures manager.Valid() && (old(manager.InStep()) ==> manager.InStep())
    ensures WorldOf(manager) == Step(manager.maxSnapshots, old(WorldOf(manager)), UndoAll)
  {
    var r := manager.RollbackAll(|manager.snapshots|);
  }

  /** Every run: the object ends where the simple store ends, and a log that started in step can be read back. */
  method PerformAll(manager: CheckpointManager, events: seq<Event>)
    requires manager.Valid()
    modifies manager`snapshots, manager`persistedLen, manager.disk
    ensures manager.Valid() && WorldOf(manager) == Run(manager.maxSnapshots, old(WorldOf(manager)), events)
    ensures old(manager.InStep()) ==> manager.InStep()
  {
    for i := 0 to |events|
      invariant manager.Valid() && (old(manager.InStep()) ==> manager.InStep())
      invariant WorldOf(manager) == Run(manager.maxSnapshots, old(WorldOf(manager)), events[..i])
    {
      Perform(manager, events[i]);
      assert events[..i + 1][..i] == events[..i];
    }
    assert events[..|events|] == events;
  }

  /** Stopping and starting again loses nothing: a store in step is read back with the same stack. */
  method Restart(manager: CheckpointManager) returns (again: CheckpointManager)
    requires manager.InStep() && manager.persistPath.Some?
    ensures fresh(again) && again.disk == manager.disk && again.snapshots == manager.snapshots && again.Valid() && again.InStep()
  {
    var r := CheckpointManager.LoadFrom(manager.disk, manager.persistPath.value);
    again := r.value;
  }

  // ----- When the retained snapshots were taken -----

  /** The positions in the run at which the retained snapshots were taken, oldest first. */
  function TakenAt(max: nat, w: World, events: seq<Event>): seq<nat>
    decreases |events|
  {
    if events == [] then [] else
    var n := |events| - 1;
    var before := TakenAt(max, w, events[..n]);
    match events[n]
    case Outside(_, _) => before
    case Snap(_, _) => Trimmed(before + [n], max)
    case Undo => if before == [] then before else before[..|before| - 1]
    case UndoAll => []
    case Discard => []
  }

  /** Entry `snap` of the stack was captured at position `at` of the run. */
  ghost predicate CapturedAt(max: nat, w: World, events: seq<Event>, at: nat, snap: Snapshot) {
    && at < |events|
    && events[at].Snap?
    && snap == Capture(Run(max, w, events[..at]).files, events[at].path, events[at].stamp)
  }

  ghost predicate Provenance(max: nat, w: World, events: seq<Event>, taken: seq<nat>, stack: seq<Snapshot>) {
    && |taken| == |stack|
    && (forall i | 0 <= i < |stack| :: CapturedAt(max, w, events, taken[i], stack[i]))
    && (forall i, j | 0 <= i < j < |taken| :: taken[i] < taken[j])
  }

  lemma {:induction false} ProvenanceExtends(max: nat, w: World, events: seq<Event>, n: nat, taken: seq<nat>, stack: seq<Snapshot>)
    requires n <= |events| && Provenance(max, w, events[..n], taken, stack)
    ensures Provenance(max, w, events, taken, stack)
  {
    forall i | 0 <= i < |stack| ensures CapturedAt(max, w, events, taken[i], stack[i]) {
      assert CapturedAt(max, w, events[..n], taken[i], stack[i]);
      assert events[..n][..taken[i]] == events[..taken[i]];
    }
  }

  lemma {:induction false} ProvenancePush(max: nat, w: World, events: seq<Event>, taken: seq<nat>, stack: seq<Snapshot>, n: nat, snap: Snapshot)
    requires Provenance(max, w, events, taken, stack) && CapturedAt(max, w, events, n, snap)
    requires forall i | 0 <= i < |taken| :: taken[i] < n
    ensures Provenance(max, w, events, taken + [n], stack + [snap])
  {
    var taken', stack' := taken + [n], stack + [snap];
    forall i | 0 <= i < |stack'| ensures CapturedAt(max, w, events, taken'[i], stack'[i]) {
      if i < |stack| { assert CapturedAt(max, w, events, taken[i], stack[i]); }
    }
  }

  lemma {:induction false} ProvenanceDrop(max: nat, w: World, events: seq<Event>, taken: seq<nat>, stack: seq<Snapshot>, cut: nat)
    requires Provenance(max, w, events, taken, stack) && cut <= |stack|
    ensures Provenance(max, w, events, taken[cut..], stack[cut..])
  {
    forall i | 0 <= i < |stack[cut..]| ensures CapturedAt(max, w, events, taken[cut..][i], stack[cut..][i]) {
      assert CapturedAt(max, w, events, taken[cut + i], stack[cut + i]);
    }
  }

  /** Every retained entry records the state of its file at the moment it was taken, in the order they were taken. */
  lemma {:induction false} StackProvenance(max: nat, w: World, events: seq<Event>)
    requires w.stack == []
    ensures Provenance(max, w, events, TakenAt(max, w, events), Run(max, w, events).stack)
    decreases |events|
  {
    if events == [] {
    } else {
      var n := |events| - 1;
      var taken, before := TakenAt(max, w, events[..n]), Run(max, w, events[..n]);
      StackProvenance(max, w, events[..n]);
      forall i | 0 <= i < |taken| ensures taken[i] < n {
        assert CapturedAt(max, w, events[..n], taken[i], before.stack[i]);
      }
      ProvenanceExtends(max, w, events, n, taken, before.stack);
      if events[n].Snap? {
        var snap := Capture(before.files, events[n].path, events[n].stamp);
        assert CapturedAt(max, w, events, n, snap);
        ProvenancePush(max, w, events, taken, before.stack, n, snap);
        if |taken| + 1 > max {
          ProvenanceDrop(max, w, events, taken + [n], before.stack + [snap], |taken| + 1 - max);
        }
      }
    }
  }

  /** The oldest retained snapshot of `path` has no older one whose temporary file is `path`. */
  ghost predicate NotATempBefore(stack: seq<Snapshot>, k: nat, path: Path)
    requires k <= |stack|
  {
    forall i | 0 <= i < k :: !(stack[i].existed && TempName(stack[i].path) == path)
  }

  /**
   After any run, a full rollback returns every path that has a retained snapshot to what it was when the oldest
   retained one was taken, exactly when the path was absent then or no older retained snapshot of an existing file
   uses it as its temporary file.
   */
  lemma {:induction false} FullRollbackAfterRun(max: nat, w: World, events: seq<Event>, k: nat, path: Path)
    requires w.stack == [] && IsOldestOf(Run(max, w, events).stack, k, path)
    ensures var end := Run(max, w, events);
            var taken := TakenAt(max, w, events);
            && |taken| == |end.stack|
            && taken[k] < |events| && events[taken[k]].Snap? && events[taken[k]].path == path
            && var was := StateOf(Run(max, w, events[..taken[k]]).files, path);
            (StateOf(RestoredAll(end.files, end.stack), path) == was <==> was.None? || NotATempBefore(end.stack, k, path))
  {
    StackProvenance(max, w, events);
    var end := Run(max, w, events);
    assert CapturedAt(max, w, events, TakenAt(max, w, events)[k], end.stack[k]);
    OldestStateRestoredIff(end.files, end.stack, k, path);
  }

  // ----- The bounded stack is a suffix of the unbounded one -----

  /** The stack the same run would have without the limit. */
  function Unbounded(max: nat, w: World, events: seq<Event>): seq<Snapshot>
    decreases |events|
  {
    if events == [] then w.stack else
    var n := |events| - 1;
    var before := Unbounded(max, w, events[..n]);
    match events[n]
    case Outside(_, _) => before
    case Snap(path, stamp) => before + [Capture(Run(max, w, events[..n]).files, path, stamp)]
    case Undo => if before == [] then before else before[..|before| - 1]
    case UndoAll => []
    case Discard => []
  }

  ghost predicate IsSuffix<T>(part: seq<T>, whole: seq<T>) {
    |part| <= |whole| && part == whole[|whole| - |part|..]
  }

  lemma {:induction false} SuffixPush<T>(part: seq<T>, whole: seq<T>, x: T)
    requires IsSuffix(part, whole)
    ensures IsSuffix(part + [x], whole + [x])
  {
  }

  lemma {:induction false} SuffixTrim<T>(part: seq<T>, whole: seq<T>, max: nat)
    requires IsSuffix(part, whole)
    ensures IsSuffix(Trimmed(part, max), whole) && |Trimmed(part, max)| <= max
  {
  }

  /** Whatever was evicted, popped and pushed, the stack is the newest part of the unbounded one, and a push bounds it. */
  lemma {:induction false} BoundedIsSuffix(max: nat, w: World, events: seq<Event>)
    ensures IsSuffix(Run(max, w, events).stack, Unbounded(max, w, events))
    ensures events != [] && events[|events| - 1].Snap? ==>
              var before := |Run(max, w, events[..|events| - 1]).stack|;
              |Run(max, w, events).stack| == if before < max then before + 1 else max
  {
    SuffixOfUnbounded(max, w, events);
  }

  lemma {:induction false} SuffixOfUnbounded(max: nat, w: World, events: seq<Event>)
    ensures IsSuffix(Run(max, w, events).stack, Unbounded(max, w, events))
    decreases |events|
  {
    if events != [] {
      var n := |events| - 1;
      SuffixOfUnbounded(max, w, events[..n]);
      var part, whole := Run(max, w, events[..n]).stack, Unbounded(max, w, events[..n]);
      if events[n].Snap? {
        var snap := Capture(Run(max, w, events[..n]).files, events[n].path, events[n].stamp);
        SuffixPush(part, whole, snap);
        SuffixTrim(part + [snap], whole + [snap], max);
      }
    }
  }

  // ----- Failed restores -----

  /**
   A failed restore returns before the log is rewritten, after one snapshot or several were popped. The cursor law
   survives exactly when the cursor is still within what is left.
   */
  lemma {:induction false} FailedRestoreKeepsCursorIff(stack: seq<Snapshot>, left: nat, path: Path, cursor: nat, logs: map<Path, seq<Line>>)
    requires left <= |stack| && CursorOk(stack, Some(path), cursor, logs)
    ensures CursorOk(stack[..left], Some(path), cursor, logs) <==> cursor <= left
  {
    if cursor <= left {
      assert stack[..left][..cursor] == stack[..cursor];
    }
  }

  /**
   The consequence on the object: after a failed restore of a store in step, the next snapshot is never written
   (unless it evicts), so the log stays in step only if that snapshot equals the one that was popped.
   */
  method SnapshotAfterFailedRestore(manager: CheckpointManager, path: Path, stamp: Stamp)
    requires manager.Valid() && manager.InStep() && manager.persistPath.Some?
    requires 0 < manager.persistedLen == |manager.snapshots| <= manager.maxSnapshots
    modifies manager`snapshots, manager`persistedLen, manager.disk
    ensures manager.disk.logs == old(manager.disk.logs)
    ensures manager.InStep() <==>
            Capture(old(manager.disk.files), path, stamp) == old(manager.snapshots)[|old(manager.snapshots)| - 1]
  {
    var r := manager.Rollback(false);
    manager.SnapshotFile(path, stamp);
    ghost var stack := old(manager.snapshots);
    assert stack == stack[..|stack| - 1] + [stack[|stack| - 1]];
  }

  // ----- Runs with failed restores -----

  /** Events whose file operations all succeed, and undos whose restore fails; `done` restores succeed before it. */
  datatype RealEvent = Fine(event: Event) | FailedUndo | FailedUndoAll(done: nat)

  /** The simple store, with the list its log reads back as. */
  datatype Mirror = Mirror(world: World, logged: seq<Snapshot>)

  function LoggedAfter(max: nat, m: Mirror, event: Event): seq<Snapshot> {
    var stack := Step(max, m.world, event).stack;
    match event
    case Outside(_, _) => m.logged
    case Snap(_, _) =>
      if |m.world.stack| >= max then stack
      else if |m.logged| < |stack| then m.logged + stack[|m.logged|..]
      else m.logged
    case Undo => if m.world.stack == [] then m.logged else stack
    case UndoAll => if m.world.stack == [] then m.logged else []
    case Discard => []
  }

  function Popped(w: World, done: nat): World
    requires done < |w.stack|
  {
    var left := |w.stack| - done;
    World(RestoredAll(w.files, w.stack[left..]), w.stack[..left - 1])
  }

  function RealStep(max: nat, m: Mirror, e: RealEvent): Mirror {
    match e
    case Fine(event) => Mirror(Step(max, m.world, event), LoggedAfter(max, m, event))
    case FailedUndo => if m.world.stack == [] then m else m.(world := Popped(m.world, 0))
    case FailedUndoAll(done) =>
      if done < |m.world.stack| then m.(world := Popped(m.world, done))
      else Mirror(Step(max, m.world, UndoAll), LoggedAfter(max, m, UndoAll))
  }

  function RealRun(max: nat, m: Mirror, events: seq<RealEvent>): Mirror
    decreases |events|
  {
    if events == [] then m else RealStep(max, RealRun(max, m, events[..|events| - 1]), events[|events| - 1])
  }

  /** The log reads back as this list, and the cursor is its length. */
  ghost predicate ReadsBack(path: Option<Path>, cursor: nat, logs: map<Path, seq<Line>>, logged: seq<Snapshot>) {
    path.Some? && path.value in logs && Load(logs[path.value]) == Ok(logged) && cursor == |logged|
  }

  ghost predicate Mirrors(manager: CheckpointManager, m: Mirror)
    reads manager, manager.disk
  {
    WorldOf(manager) == m.world && ReadsBack(manager.persistPath, manager.persistedLen, manager.disk.logs, m.logged)
  }

  lemma {:induction false} AppendReadsBack(path: Path, logs: map<Path, seq<Line>>, logged: seq<Snapshot>, stack: seq<Snapshot>)
    requires ReadsBack(Some(path), |logged|, logs, logged) && |logged| < |stack|
    ensures Load(Appended(logs, path, |logged|, stack)) == Ok(logged + stack[|logged|..])
    ensures |logged + stack[|logged|..]| == |stack|
  {
    LoadSerialized(stack[|logged|..]);
    if |logged| == 0 {
      assert [] + SerializeAll(stack[|logged|..]) == SerializeAll(stack[|logged|..]);
      assert logged + stack[|logged|..] == stack[|logged|..];
    } else {
      LoadConcat(logs[path], SerializeAll(stack[|logged|..]));
    }
  }

  method PerformFine(manager: CheckpointManager, event: Event, ghost m: Mirror)
    requires Mirrors(manager, m)
    modifies manager`snapshots, manager`persistedLen, manager.disk
    ensures Mirrors(manager, RealStep(manager.maxSnapshots, m, Fine(event)))
  {
    match event
    case Outside(path, state) =>
      WriteFile(manager.disk, path, state);
    case Snap(path, stamp) =>
      ghost var logs := manager.disk.logs;
      manager.SnapshotFile(path, stamp);
      LoadSerialized(manager.snapshots);
      if |m.world.stack| < manager.maxSnapshots && |m.logged| < |manager.snapshots| {
        AppendReadsBack(manager.persistPath.value, logs, m.logged, manager.snapshots);
      }
    case Undo =>
      var r := manager.Rollback(true);
    case UndoAll =>
      var r := manager.RollbackAll(|manager.snapshots|);
    case Discard =>
      manager.Clear();
  }

  /** Every run, restores that fail included: the object is the simple store, and its log reads back as the run says. */
  method PerformReal(manager: CheckpointManager, events: seq<RealEvent>, ghost m: Mirror)
    requires Mirrors(manager, m)
    modifies manager`snapshots, manager`persistedLen, manager.disk
    ensures Mirrors(manager, RealRun(manager.maxSnapshots, m, events))
    ensures manager.InStep() <==> var end := RealRun(manager.maxSnapshots, m, events); end.logged == end.world.stack
  {
    for i := 0 to |events|
      invariant Mirrors(manager, RealRun(manager.maxSnapshots, m, events[..i]))
    {
      PerformOne(manager, events[i], RealRun(manager.maxSnapshots, m, events[..i]));
      assert events[..i + 1][..i] == events[..i];
    }
    assert events[..|events|] == events;
  }

  method PerformOne(manager: CheckpointManager, e: RealEvent, ghost m: Mirror)
    requires Mirrors(manager, m)
    modifies manager`snapshots, manager`persistedLen, manager.disk
    ensures Mirrors(manager, RealStep(manager.maxSnapshots, m, e))
  {
    match e
    case Fine(event) => PerformFine(manager, event, m);
    case FailedUndo =>
      var r := manager.Rollback(false);
      assert m.world.stack != [] ==> m.world.stack[|m.world.stack|..] == [];
    case FailedUndoAll(done) =>
      var r := manager.RollbackAll(done);
  }

  // ----- When the log is in step, in terms of what happened -----

  /** Whether an event rewrites the whole log. */
  predicate Rewrites(max: nat, w: World, e: RealEvent) {
    match e
    case Fine(Outside(_, _)) => false
    case Fine(Snap(_, _)) => |w.stack| >= max
    case Fine(Undo) => w.stack != []
    case Fine(UndoAll) => w.stack != []
    case Fine(Discard) => true
    case FailedUndo => false
    case FailedUndoAll(done) => w.stack != [] && done >= |w.stack|
  }

  /** Whether an event pops a snapshot and then fails, leaving the log as it was. */
  predicate PopsAndFails(w: World, e: RealEvent) {
    match e
    case Fine(_) => false
    case FailedUndo => w.stack != []
    case FailedUndoAll(done) => done < |w.stack|
  }

  /** Since the log was last rewritten some undo popped a snapshot and failed. */
  predicate FailedSinceRewrite(max: nat, m: Mirror, events: seq<RealEvent>)
    decreases |events|
  {
    events != [] &&
    var n := |events| - 1;
    var w := RealRun(max, m, events[..n]).world;
    !Rewrites(max, w, events[n]) && (FailedSinceRewrite(max, m, events[..n]) || PopsAndFails(w, events[n]))
  }

  function StampsIn(snaps: seq<Snapshot>): set<Stamp> {
    set s | s in snaps :: s.stamp
  }

  /** The stamps of the snapshots there were at the start and of those taken. */
  function Used(m: Mirror, events: seq<RealEvent>): set<Stamp> {
    if events == [] then StampsIn(m.logged)
    else
      var before, e := Used(m, events[..|events| - 1]), events[|events| - 1];
      if e.Fine? && e.event.Snap? then before + {e.event.stamp} else before
  }

  /** No snapshot is taken with the time stamp and hash of an earlier one. */
  predicate FreshStamps(m: Mirror, events: seq<RealEvent>) {
    events == [] ||
    var before, e := events[..|events| - 1], events[|events| - 1];
    FreshStamps(m, before) && (e.Fine? && e.event.Snap? ==> e.event.stamp !in Used(m, before))
  }

  lemma {:induction false} StepStamps(max: nat, m: Mirror, e: RealEvent, used: set<Stamp>)
    requires StampsIn(m.logged) <= used && StampsIn(m.world.stack) <= used
    ensures var m' := RealStep(max, m, e);
            var used' := if e.Fine? && e.event.Snap? then used + {e.event.stamp} else used;
            StampsIn(m'.logged) <= used' && StampsIn(m'.world.stack) <= used'
  {
    var m' := RealStep(max, m, e);
    var pushed := if e.Fine? && e.event.Snap? then [Capture(m.world.files, e.event.path, e.event.stamp)] else [];
    var stack := m.world.stack + pushed;
    assert forall s | s in m'.world.stack :: s in stack;
    assert forall s | s in m'.logged :: s in m.logged || s in m'.world.stack;
  }

  lemma {:induction false} RunStamps(max: nat, m: Mirror, events: seq<RealEvent>)
    requires m.logged == m.world.stack
    ensures StampsIn(RealRun(max, m, events).logged) <= Used(m, events)
    ensures StampsIn(RealRun(max, m, events).world.stack) <= Used(m, events)
  {
    if events != [] {
      var n := |events| - 1;
      RunStamps(max, m, events[..n]);
      StepStamps(max, RealRun(max, m, events[..n]), events[n], Used(m, events[..n]));
    }
  }

  /** Some entry of the log is no longer at its place in the stack. */
  predicate Outdated(m: Mirror) {
    exists i | 0 <= i < |m.logged| :: i >= |m.world.stack| || m.world.stack[i].stamp != m.logged[i].stamp
  }

  lemma {:induction false} CleanStep(max: nat, m: Mirror, e: RealEvent)
    requires m.logged == m.world.stack || Rewrites(max, m.world, e)
    ensures !PopsAndFails(m.world, e) ==> RealStep(max, m, e).logged == RealStep(max, m, e).world.stack
    ensures PopsAndFails(m.world, e) ==> Outdated(RealStep(max, m, e))
  {
    var m' := RealStep(max, m, e);
    if PopsAndFails(m.world, e) {
      var i := |m'.world.stack|;
      assert m'.logged[i] == m.logged[i];
    } else if e.Fine? && e.event.Snap? && |m.world.stack| < max {
      assert m'.world.stack[..|m.logged|] == m.logged;
    }
  }

  lemma {:induction false} OutdatedStep(max: nat, m: Mirror, e: RealEvent)
    requires Outdated(m) && !Rewrites(max, m.world, e)
    requires e.Fine? && e.event.Snap? ==> e.event.stamp !in StampsIn(m.logged)
    ensures Outdated(RealStep(max, m, e))
  {
    var m' := RealStep(max, m, e);
    var i :| 0 <= i < |m.logged| && (i >= |m.world.stack| || m.world.stack[i].stamp != m.logged[i].stamp);
    assert m.logged[i] in m.logged && m'.logged[i] == m.logged[i];
  }

  /**
   Over every run that starts in step: the log is in step if no undo failed after popping something since the log was
   last rewritten, and, when no two snapshots carry the same stamp, only then.
   */
  lemma {:induction false} InStepIff(max: nat, m: Mirror, events: seq<RealEvent>)
    requires m.logged == m.world.stack
    ensures var end := RealRun(max, m, events);
            && (!FailedSinceRewrite(max, m, events) ==> end.logged == end.world.stack)
            && (FreshStamps(m, events) ==> (end.logged == end.world.stack <==> !FailedSinceRewrite(max, m, events)))
  {
    OutdatedRun(max, m, events);
  }

  lemma {:induction false} OutdatedRun(max: nat, m: Mirror, events: seq<RealEvent>)
    requires m.logged == m.world.stack
    ensures !FailedSinceRewrite(max, m, events) ==> RealRun(max, m, events).logged == RealRun(max, m, events).world.stack
    ensures FailedSinceRewrite(max, m, events) && FreshStamps(m, events) ==> Outdated(RealRun(max, m, events))
    decreases |events|
  {
    if events != [] {
      var n := |events| - 1;
      var before := RealRun(max, m, events[..n]);
      OutdatedRun(max, m, events[..n]);
      RunStamps(max, m, events[..n]);
      if !FailedSinceRewrite(max, m, events[..n]) || Rewrites(max, before.world, events[n]) {
        CleanStep(max, before, events[n]);
      } else if FreshStamps(m, events) {
        OutdatedStep(max, before, events[n]);
      }
    }
  }
}
