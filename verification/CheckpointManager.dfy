/**
 The checkpoint store: a bounded stack of snapshots mirrored to a log with two write strategies, appending from a
 cursor and rewriting the whole log. The file system is a separate object that other code may change at any time.
 */
module Checkpoints {
  import opened Prelude
  import opened Snapshots

  datatype IoError = RestoreFailed

  class Disk {
    var files: Files
    var logs: map<Path, seq<Line>>

    constructor ()
      ensures files == map[] && logs == map[]
    {
      files, logs := map[], map[];
    }
  }

  const DEFAULT_MAX_SNAPSHOTS: nat := 200

  /** Drop the oldest entries of a stack that is over its limit. */
  function Trimmed<T>(stack: seq<T>, max: nat): seq<T> {
    if |stack| > max then stack[|stack| - max..] else stack
  }

  /**
   The cursor law: the cursor never runs past the stack, and a non-zero cursor means the log reads back as exactly
   the snapshots below it.
   */
  ghost predicate CursorOk(stack: seq<Snapshot>, path: Option<Path>, cursor: nat, logs: map<Path, seq<Line>>) {
    && cursor <= |stack|
    && (cursor > 0 ==> path.Some? && path.value in logs && Load(logs[path.value]) == Ok(stack[..cursor]))
  }

  /** The log of a store that persists reads back as exactly its stack. */
  ghost predicate Synced(stack: seq<Snapshot>, path: Option<Path>, logs: map<Path, seq<Line>>) {
    path.Some? ==> path.value in logs && Load(logs[path.value]) == Ok(stack)
  }

  /** The log after an append from the cursor: a zero cursor starts it anew. */
  function Appended(logs: map<Path, seq<Line>>, path: Path, cursor: nat, stack: seq<Snapshot>): seq<Line>
    requires cursor <= |stack|
  {
    (if cursor == 0 || path !in logs then [] else logs[path]) + SerializeAll(stack[cursor..])
  }

  class CheckpointManager {
    const disk: Disk
    var snapshots: seq<Snapshot>
    var persistPath: Option<Path>
    var persistedLen: nat
    var maxSnapshots: nat

    ghost predicate Valid()
      reads this, disk
    {
      CursorOk(snapshots, persistPath, persistedLen, disk.logs)
    }

    ghost predicate InStep()
      reads this, disk
    {
      Synced(snapshots, persistPath, disk.logs)
    }

    constructor (disk: Disk)
      ensures this.disk == disk && snapshots == [] && persistPath == None && persistedLen == 0
      ensures maxSnapshots == DEFAULT_MAX_SNAPSHOTS && Valid()
    {
      this.disk := disk;
      snapshots, persistPath, persistedLen, maxSnapshots := [], None, 0, DEFAULT_MAX_SNAPSHOTS;
    }

    /** Read a store back from its log; a missing log is an empty store. */
    static method LoadFrom(disk: Disk, path: Path) returns (r: Result<CheckpointManager, LoadError>)
      ensures path !in disk.logs ==> r.Ok? && r.value.snapshots == []
      ensures path in disk.logs ==>
                match Load(disk.logs[path])
                case Ok(stack) => r.Ok? && r.value.snapshots == stack && r.value.InStep()
                case Err(e) => r == Err(e)
      ensures r.Ok? ==> fresh(r.value) && r.value.disk == disk && r.value.persistPath == Some(path) && r.value.Valid()
      ensures r.Ok? ==> r.value.maxSnapshots == DEFAULT_MAX_SNAPSHOTS
    {
      var manager := new CheckpointManager(disk);
      manager.persistPath := Some(path);
      if path !in disk.logs {
        return Ok(manager);
      }
      var content := disk.logs[path];
      for i := 0 to |content|
        invariant fresh(manager) && manager.persistPath == Some(path) && manager.persistedLen == 0
        invariant manager.maxSnapshots == DEFAULT_MAX_SNAPSHOTS
        invariant Load(content[..i]) == Ok(manager.snapshots)
      {
        LoadUpTo(content, i);
        match content[i]
        case Blank =>
        case Malformed =>
          return Err(BadRecord);
        case Record(wire) =>
          var snap := Deserialize(wire);
          match snap
          case Err(e) =>
            return Err(BadContent(e));
          case Ok(s) =>
            manager.snapshots := manager.snapshots + [s];
      }
      assert content[..|content|] == content;
      manager.persistedLen := |manager.snapshots|;
      assert manager.snapshots[..manager.persistedLen] == manager.snapshots;
      return Ok(manager);
    }

    method WithPersistence(path: Path)
      modifies this`persistPath, this`persistedLen
      ensures persistPath == Some(path) && persistedLen == 0 && Valid()
    {
      persistPath := Some(path);
      persistedLen := 0;
    }

    method WithMaxSnapshots(max: nat)
      modifies this`maxSnapshots
      ensures maxSnapshots == max
    {
      maxSnapshots := max;
    }

    /** Rewrite the whole log; nothing happens when no log is configured. */
    method PersistAll()
      modifies this`persistedLen, disk`logs
      ensures persistPath.None? ==> persistedLen == old(persistedLen) && disk.logs == old(disk.logs)
      ensures persistPath.Some? ==>
                && persistedLen == |snapshots|
                && disk.logs == old(disk.logs)[persistPath.value := SerializeAll(snapshots)]
    {
      if persistPath.None? {
        return;
      }
      var path := persistPath.value;
      disk.logs := disk.logs[path := []];
      assert SerializeAll(snapshots[..0]) == [];
      for i := 0 to |snapshots|
        invariant disk.logs == old(disk.logs)[path := SerializeAll(snapshots[..i])]
      {
        disk.logs := disk.logs[path := disk.logs[path] + [Record(Serialize(snapshots[i]))]];
        assert SerializeAll(snapshots[..i + 1]) == SerializeAll(snapshots[..i]) + [Record(Serialize(snapshots[i]))];
      }
      assert snapshots[..|snapshots|] == snapshots;
      persistedLen := |snapshots|;
    }

    /** Append what lies above the cursor; a zero cursor truncates first. */
    method PersistIncremental()
      modifies this`persistedLen, disk`logs
      ensures persistPath.None? || old(persistedLen) >= |snapshots| ==>
                persistedLen == old(persistedLen) && disk.logs == old(disk.logs)
      ensures persistPath.Some? && old(persistedLen) < |snapshots| ==>
                && persistedLen == |snapshots|
                && disk.logs == old(disk.logs)[persistPath.value :=
                     Appended(old(disk.logs), persistPath.value, old(persistedLen), snapshots)]
    {
      if persistPath.None? {
        return;
      }
      var path := persistPath.value;
      var total := |snapshots|;
      if persistedLen >= total {
        return;
      }
      if persistedLen == 0 || path !in disk.logs {
        disk.logs := disk.logs[path := []];
      }
      ghost var start := disk.logs[path];
      var added := snapshots[persistedLen..];
      assert start + SerializeAll(added[..0]) == start;
      for i := 0 to |added|
        invariant disk.logs == old(disk.logs)[path := start + SerializeAll(added[..i])]
      {
        disk.logs := disk.logs[path := disk.logs[path] + [Record(Serialize(added[i]))]];
        assert start + SerializeAll(added[..i + 1]) == start + SerializeAll(added[..i]) + [Record(Serialize(added[i]))];
      }
      assert added[..|added|] == added;
      persistedLen := total;
    }

    method EnforceCapacity()
      modifies this`snapshots, this`persistedLen, disk`logs
      ensures snapshots == Trimmed(old(snapshots), maxSnapshots)
      ensures |old(snapshots)| <= maxSnapshots ==> persistedLen == old(persistedLen) && disk.logs == old(disk.logs)
      ensures |old(snapshots)| > maxSnapshots && persistPath.None? ==>
                persistedLen == old(persistedLen) && disk.logs == old(disk.logs)
      ensures |old(snapshots)| > maxSnapshots && persistPath.Some? ==>
                && persistedLen == |snapshots|
                && disk.logs == old(disk.logs)[persistPath.value := SerializeAll(snapshots)]
    {
      var evicted := if |snapshots| > maxSnapshots then |snapshots| - maxSnapshots else 0;
      if evicted > 0 {
        snapshots := snapshots[evicted..];
        PersistAll();
      }
    }

    /**
     Snapshot a file. A store whose cursor law holds keeps it and ends with its log in step, whichever write strategy
     ran; a store whose cursor was left ahead of its stack writes nothing unless it evicts.
     */
    method SnapshotFile(path: Path, stamp: Stamp)
      modifies this`snapshots, this`persistedLen, disk`logs
      ensures snapshots == Trimmed(old(snapshots) + [Capture(disk.files, path, stamp)], maxSnapshots)
      ensures old(Valid()) ==> Valid() && InStep()
      ensures persistPath.Some? && |old(snapshots)| >= maxSnapshots ==>
                persistedLen == |snapshots| && disk.logs == old(disk.logs)[persistPath.value := SerializeAll(snapshots)]
      ensures |old(snapshots)| < maxSnapshots && old(persistedLen) >= |snapshots| ==>
                persistedLen == old(persistedLen) && disk.logs == old(disk.logs)
      ensures persistPath.Some? && |old(snapshots)| < maxSnapshots && old(persistedLen) < |snapshots| ==>
                persistedLen == |snapshots| && disk.logs == old(disk.logs)[persistPath.value :=
                  Appended(old(disk.logs), persistPath.value, old(persistedLen), snapshots)]
      ensures forall p | p in old(disk.logs) && persistPath != Some(p) :: p in disk.logs && disk.logs[p] == old(disk.logs)[p]
    {
      var snap := Capture(disk.files, path, stamp);
      ghost var before := snapshots;
      snapshots := snapshots + [snap];
      EnforceCapacity();
      ghost var cursor := persistedLen;
      PersistIncremental();
      if old(Valid()) && persistPath.Some? {
        if |before| + 1 > maxSnapshots {
          WholeLogInStep(snapshots, persistPath.value, disk.logs);
        } else {
          AppendInStep(before, snap, persistPath.value, cursor, old(disk.logs), disk.logs);
        }
      }
    }

    /** Pop the newest snapshot, then restore it; `succeeds` is the outcome of the file operations. */
    method RollbackInner(succeeds: bool) returns (r: Result<Option<Snapshot>, IoError>)
      modifies this`snapshots, disk`files
      ensures old(snapshots) == [] ==> r == Ok(None) && snapshots == [] && disk.files == old(disk.files)
      ensures old(snapshots) != [] ==>
                var last := old(snapshots)[|old(snapshots)| - 1];
                && snapshots == old(snapshots)[..|old(snapshots)| - 1]
                && disk.files == (if succeeds then Restored(old(disk.files), last) else old(disk.files))
                && r == (if succeeds then Ok(Some(last)) else Err(RestoreFailed))
    {
      if snapshots == [] {
        return Ok(None);
      }
      var snap := snapshots[|snapshots| - 1];
      snapshots := snapshots[..|snapshots| - 1];
      if !succeeds {
        return Err(RestoreFailed);
      }
      RestoreState(snap);
      return Ok(Some(snap));
    }

    /** Remove a file that was absent; otherwise write its content beside it and rename it into place. */
    method RestoreState(snap: Snapshot)
      modifies disk`files
      ensures disk.files == Restored(old(disk.files), snap)
    {
      if !snap.existed {
        if snap.path in disk.files {
          disk.files := disk.files - {snap.path};
        }
        assert disk.files == old(disk.files) - {snap.path};
      } else {
        var tmp := TempName(snap.path);
        TempNameIsAnother(snap.path);
        disk.files := disk.files[tmp := snap.content];
        disk.files := (disk.files - {tmp})[snap.path := disk.files[tmp]];
        assert disk.files == (old(disk.files) - {tmp})[snap.path := snap.content];
      }
    }

    /** Undo the newest snapshot. A failed restore returns before the log is rewritten. */
    method Rollback(succeeds: bool) returns (r: Result<Option<Snapshot>, IoError>)
      modifies this`snapshots, this`persistedLen, disk
      ensures old(snapshots) == [] ==>
                && r == Ok(None) && snapshots == []
                && disk.files == old(disk.files) && disk.logs == old(disk.logs) && persistedLen == old(persistedLen)
      ensures old(snapshots) != [] ==>
                var last := old(snapshots)[|old(snapshots)| - 1];
                && snapshots == old(snapshots)[..|old(snapshots)| - 1]
                && disk.files == (if succeeds then Restored(old(disk.files), last) else old(disk.files))
                && r == (if succeeds then Ok(Some(last)) else Err(RestoreFailed))
                && (if succeeds then InStep() && (persistPath.Some? ==> persistedLen == |snapshots|)
                    else disk.logs == old(disk.logs) && persistedLen == old(persistedLen))
      ensures r.Ok? && old(Valid()) ==> Valid()
    {
      r := RollbackInner(succeeds);
      if r.Ok? && r.value.Some? {
        PersistAll();
        if persistPath.Some? {
          WholeLogInStep(snapshots, persistPath.value, disk.logs);
        }
      }
    }

    /** Undo every snapshot, newest first, stopping at the first restore that fails (number `failing`, if reached). */
    method RollbackAll(failing: nat) returns (r: Result<nat, IoError>)
      modifies this`snapshots, this`persistedLen, disk
      ensures failing >= |old(snapshots)| ==>
                && r == Ok(|old(snapshots)|)
                && snapshots == []
                && disk.files == RestoredAll(old(disk.files), old(snapshots))
                && (old(Valid()) ==> Valid())
                && (if old(snapshots) != [] then InStep() && (persistPath.Some? ==> persistedLen == 0)
                    else disk.logs == old(disk.logs) && persistedLen == old(persistedLen))
      ensures failing < |old(snapshots)| ==>
                var kept := |old(snapshots)| - failing;
                && r == Err(RestoreFailed)
                && snapshots == old(snapshots)[..kept - 1]
                && disk.files == RestoredAll(old(disk.files), old(snapshots)[kept..])
                && disk.logs == old(disk.logs) && persistedLen == old(persistedLen)
    {
      r := UndoDown(failing);
      if r.Ok? && r.value > 0 {
        PersistAll();
        LoadSerialized(snapshots);
      }
    }

    /** The loop of a full rollback, without the rewrite of the log. */
    method UndoDown(failing: nat) returns (r: Result<nat, IoError>)
      modifies this`snapshots, disk`files
      ensures failing >= |old(snapshots)| ==>
                r == Ok(|old(snapshots)|) && snapshots == [] && disk.files == RestoredAll(old(disk.files), old(snapshots))
      ensures failing < |old(snapshots)| ==>
                var kept := |old(snapshots)| - failing;
                && r == Err(RestoreFailed)
                && snapshots == old(snapshots)[..kept - 1]
                && disk.files == RestoredAll(old(disk.files), old(snapshots)[kept..])
    {
      var done := 0;
      ghost var all, files := snapshots, disk.files;
      while snapshots != []
        invariant done + |snapshots| == |all| && done <= failing
        invariant snapshots == all[..|all| - done]
        invariant disk.files == RestoredAll(files, all[|all| - done..])
        decreases |snapshots|
      {
        RestoredAllSnoc(files, all, |all| - done - 1);
        var step := RollbackInner(done < failing);
        if step.Err? {
          return Err(step.error);
        }
        done := done + 1;
      }
      assert all[0..] == all;
      return Ok(done);
    }

    method Clear()
      modifies this`snapshots, this`persistedLen, disk`logs
      ensures snapshots == [] && InStep() && (old(Valid()) ==> Valid())
      ensures persistPath.Some? ==> persistedLen == 0
      ensures persistPath.None? ==> disk.logs == old(disk.logs)
    {
      snapshots := [];
      PersistAll();
      LoadSerialized(snapshots);
    }
  }

  // ----- Steps of the proofs above -----

  lemma {:induction false} LoadUpTo(content: seq<Line>, i: nat)
    requires i < |content| && Load(content[..i]).Ok?
    ensures Load(content[..i + 1]) == Joined(Load(content[..i]), LoadLine(content[i]))
    ensures LoadLine(content[i]).Err? ==> Load(content).Err? && Load(content).error == LoadLine(content[i]).error
    ensures LoadLine(content[i]) == Ok([]) ==> Load(content[..i + 1]) == Load(content[..i])
  {
    var before, line, after := content[..i], content[i], content[i + 1..];
    LoadSingle(line);
    LoadConcat(before, [line]);
    assert content[..i + 1] == before + [line];
    LoadConcat(before + [line], after);
    assert content == before + [line] + after;
    assert Load(before).value + [] == Load(before).value;
  }

  lemma {:induction false} WholeLogInStep(stack: seq<Snapshot>, path: Path, logs: map<Path, seq<Line>>)
    requires path in logs && logs[path] == SerializeAll(stack)
    ensures CursorOk(stack, Some(path), |stack|, logs) && Synced(stack, Some(path), logs)
  {
    LoadSerialized(stack);
    assert stack[..|stack|] == stack;
  }

  /** Appending above a lawful cursor leaves the log reading back as the whole new stack. */
  lemma {:induction false} AppendInStep(before: seq<Snapshot>, snap: Snapshot, path: Path, cursor: nat,
                                        logs: map<Path, seq<Line>>, logs': map<Path, seq<Line>>)
    requires CursorOk(before, Some(path), cursor, logs)
    requires path in logs' && logs'[path] == (if cursor == 0 || path !in logs then [] else logs[path])
                                              + SerializeAll((before + [snap])[cursor..])
    ensures var after := before + [snap];
            CursorOk(after, Some(path), |after|, logs') && Synced(after, Some(path), logs')
  {
    var after := before + [snap];
    LoadSerialized(after[cursor..]);
    if cursor == 0 {
      assert [] + SerializeAll(after[cursor..]) == SerializeAll(after[cursor..]);
      assert after[cursor..] == after;
    } else {
      LoadConcat(logs[path], SerializeAll(after[cursor..]));
      assert before[..cursor] + after[cursor..] == after;
    }
    assert after[..|after|] == after;
  }

  /** Restoring a run of snapshots and then the next older one is restoring the longer run. */
  lemma {:induction false} RestoredAllSnoc(files: Files, snaps: seq<Snapshot>, i: nat)
    requires i < |snaps|
    ensures RestoredAll(files, snaps[i..]) == Restored(RestoredAll(files, snaps[i + 1..]), snaps[i])
    decreases |snaps|
  {
    var last := |snaps| - 1;
    if i == last {
      assert snaps[i..][..0] == [];
    } else {
      assert snaps[i..][..|snaps[i..]| - 1] == snaps[..last][i..];
      assert snaps[i + 1..][..|snaps[i + 1..]| - 1] == snaps[..last][i + 1..];
      RestoredAllSnoc(Restored(files, snaps[last]), snaps[..last], i);
    }
  }
}
