/** Checkpoints of a session: the conversation and some files, saved under an id and rolled back one at a time. */
module SessionCheckpoints {
  import opened Prelude
  import opened Snapshots
  import opened Checkpoints

  /** A checkpoint id: the second at which it was made. Its text, year to second, is one to one with that. */
  type CheckpointId = nat

  function IdAt(millis: nat): CheckpointId {
    millis / 1000
  }

  datatype Checkpoint = Checkpoint(id: CheckpointId, createdAt: int, caption: Option<string>, conversation: seq<string>, files: seq<Snapshot>)

  class SessionDisk {
    var files: Files
    var log: Option<seq<Checkpoint>>
  }

  /** The paths as they are now, one snapshot each, in order. */
  function Captured(files: Files, paths: seq<Path>, stamp: Stamp): (snaps: seq<Snapshot>)
    ensures |snaps| == |paths|
    ensures forall k | 0 <= k < |paths| :: snaps[k] == Capture(files, paths[k], stamp)
  {
    if paths == [] then []
    else Captured(files, paths[..|paths| - 1], stamp) + [Capture(files, paths[|paths| - 1], stamp)]
  }

  /** Restore the snapshots in order, going on past those whose restore fails. */
  function RestoredSome(files: Files, snaps: seq<Snapshot>, works: nat -> bool): Files {
    if snaps == [] then files
    else
      var n := |snaps| - 1;
      var before := RestoredSome(files, snaps[..n], works);
      if works(n) then Restored(before, snaps[n]) else before
  }

  /** The first checkpoint with an id, or the newest when none is asked for; the length if there is none. */
  function Position(checkpoints: seq<Checkpoint>, id: Option<CheckpointId>): (i: nat)
    ensures i <= |checkpoints|
    ensures id.Some? ==>
              (i < |checkpoints| ==> checkpoints[i].id == id.value) && forall k | 0 <= k < i :: checkpoints[k].id != id.value
    ensures id.None? && checkpoints != [] ==> i == |checkpoints| - 1
  {
    if checkpoints == [] then 0
    else if id.None? then |checkpoints| - 1
    else if checkpoints[0].id == id.value then 0
    else 1 + Position(checkpoints[1..], id)
  }

  /** The list after saving `ck`. */
  function Saved(checkpoints: seq<Checkpoint>, ck: Checkpoint, max: nat): seq<Checkpoint> {
    Trimmed(checkpoints + [ck], max)
  }

  function Removed<T>(s: seq<T>, i: nat): seq<T>
    requires i <= |s|
  {
    if i == |s| then s else s[..i] + s[i + 1..]
  }

  /** The list after rolling back what `id` means. */
  function Without(checkpoints: seq<Checkpoint>, id: Option<CheckpointId>): seq<Checkpoint> {
    Removed(checkpoints, Position(checkpoints, id))
  }

  class SessionCheckpointManager {
    const disk: SessionDisk
    var checkpoints: seq<Checkpoint>
    var persisting: bool
    var maxCheckpoints: nat

    constructor (disk: SessionDisk, persisting: bool, max: nat)
      ensures this.disk == disk && checkpoints == [] && this.persisting == persisting && maxCheckpoints == max
    {
      this.disk, checkpoints, this.persisting, maxCheckpoints := disk, [], persisting, max;
    }

    /** Rewrite the whole log. */
    method Persist()
      modifies disk`log
      ensures disk.log == if persisting then Some(checkpoints) else old(disk.log)
    {
      if persisting {
        disk.log := Some(checkpoints);
      }
    }

    method EnforceCapacity()
      modifies this`checkpoints, disk`log
      ensures checkpoints == Trimmed(old(checkpoints), maxCheckpoints)
      ensures disk.log == old(disk.log) || disk.log == Some(checkpoints)
      ensures !persisting ==> disk.log == old(disk.log)
    {
      if |checkpoints| > maxCheckpoints {
        checkpoints := checkpoints[|checkpoints| - maxCheckpoints..];
        Persist();
      }
    }

    /** Save the conversation and the named files under the id of the second, which the clock shows as `millis`. */
    method SaveWithFiles(conversation: seq<string>, caption: Option<string>, paths: seq<Path>, millis: nat, stamp: Stamp)
      returns (saved: CheckpointId)
      modifies this`checkpoints, disk`log
      ensures saved == IdAt(millis)
      ensures var ck := Checkpoint(saved, stamp.createdAt, caption, conversation, Captured(disk.files, paths, stamp));
              checkpoints == Saved(old(checkpoints), ck, maxCheckpoints)
      ensures disk.log == if persisting then Some(checkpoints) else old(disk.log)
    {
      var files: seq<Snapshot> := [];
      for k := 0 to |paths|
        invariant files == Captured(disk.files, paths[..k], stamp)
      {
        assert paths[..k + 1][..k] == paths[..k];
        files := files + [Capture(disk.files, paths[k], stamp)];
      }
      assert paths[..|paths|] == paths;
      saved := IdAt(millis);
      checkpoints := checkpoints + [Checkpoint(saved, stamp.createdAt, caption, conversation, files)];
      EnforceCapacity();
      Persist();
    }

    /** Take out the checkpoint asked for and restore its files; `works` says which of its restores succeed. */
    method Rollback(id: Option<CheckpointId>, works: nat -> bool) returns (r: Option<Checkpoint>)
      modifies this`checkpoints, disk
      ensures checkpoints == Without(old(checkpoints), id)
      ensures checkpoints == old(checkpoints) || |checkpoints| == |old(checkpoints)| - 1
      ensures var i := Position(old(checkpoints), id);
              if i == |old(checkpoints)|
              then r == None && disk.files == old(disk.files) && disk.log == old(disk.log)
              else
                && r == Some(old(checkpoints)[i])
                && checkpoints == old(checkpoints)[..i] + old(checkpoints)[i + 1..]
                && disk.files == RestoredSome(old(disk.files), old(checkpoints)[i].files, works)
                && disk.log == (if persisting then Some(checkpoints) else old(disk.log))
    {
      var i := Position(checkpoints, id);
      if i == |checkpoints| {
        return None;
      }
      var ck := checkpoints[i];
      checkpoints := checkpoints[..i] + checkpoints[i + 1..];
      for k := 0 to |ck.files|
        invariant disk.files == RestoredSome(old(disk.files), ck.files[..k], works)
        invariant disk.log == old(disk.log) && checkpoints == old(checkpoints)[..i] + old(checkpoints)[i + 1..]
      {
        assert ck.files[..k + 1][..k] == ck.files[..k];
        if works(k) {
          disk.files := Restored(disk.files, ck.files[k]);
        }
      }
      assert ck.files[..|ck.files|] == ck.files;
      Persist();
      r := Some(ck);
    }

    method Clear()
      modifies this`checkpoints, disk`log
      ensures checkpoints == [] && disk.log == if persisting then Some([]) else old(disk.log)
    {
      checkpoints := [];
      Persist();
    }
  }

  // ----- What a rollback brings back -----

  /** The last restore that succeeds and touches this path. */
  function LastTouch(snaps: seq<Snapshot>, works: nat -> bool, path: Path): (k: Option<nat>)
    ensures k.Some? ==> k.value < |snaps| && works(k.value) && Touches(snaps[k.value], path)
    ensures forall j | 0 <= j < |snaps| && (k.None? || k.value < j) :: !(works(j) && Touches(snaps[j], path))
  {
    if snaps == [] then None
    else
      var n := |snaps| - 1;
      if works(n) && Touches(snaps[n], path) then Some(n) else LastTouch(snaps[..n], works, path)
  }

  lemma {:induction false} RestoredSomeAt(now: Files, snaps: seq<Snapshot>, works: nat -> bool, path: Path)
    ensures StateOf(RestoredSome(now, snaps, works), path) ==
              match LastTouch(snaps, works, path)
              case None => StateOf(now, path)
              case Some(k) => if snaps[k].path == path then SavedState(snaps[k]) else None
  {
    if snaps != [] {
      var n := |snaps| - 1;
      RestoredSomeAt(now, snaps[..n], works, path);
      RestoredAt(RestoredSome(now, snaps[..n], works), snaps[n], path);
    }
  }

  /**
   Whatever happened to the files after a save, and whichever restores fail: the last restore that succeeds and touches
   a path decides, by the path's saved state if it is the target and by absence if it is the temporary file.
   */
  lemma {:induction false} RolledBackAt(saved: Files, paths: seq<Path>, stamp: Stamp, now: Files, works: nat -> bool, path: Path)
    ensures var snaps := Captured(saved, paths, stamp);
            StateOf(RestoredSome(now, snaps, works), path) ==
              match LastTouch(snaps, works, path)
              case None => StateOf(now, path)
              case Some(k) => if paths[k] == path then StateOf(saved, path) else None
  {
    RestoredSomeAt(now, Captured(saved, paths, stamp), works, path);
  }

  /** Some snapshot of this path was restored. */
  ghost predicate SomeRestored(snaps: seq<Snapshot>, works: nat -> bool, path: Path) {
    exists k: nat | k < |snaps| :: snaps[k].path == path && works(k)
  }

  lemma {:induction false} RestoredIsTouched(snaps: seq<Snapshot>, works: nat -> bool, path: Path)
    requires SomeRestored(snaps, works, path)
    ensures LastTouch(snaps, works, path).Some?
  {
    var n := |snaps| - 1;
    var k: nat :| k < |snaps| && snaps[k].path == path && works(k);
    if !(works(n) && Touches(snaps[n], path)) {
      assert k < n && snaps[..n][k].path == path;
      RestoredIsTouched(snaps[..n], works, path);
    }
  }

  /** A path with a restore that succeeds has its saved state exactly when it was absent or no later restore uses its name. */
  lemma {:induction false} SavedStateBackIff(saved: Files, paths: seq<Path>, stamp: Stamp, now: Files, works: nat -> bool, path: Path)
    requires SomeRestored(Captured(saved, paths, stamp), works, path)
    ensures var snaps := Captured(saved, paths, stamp);
            var last := LastTouch(snaps, works, path);
            && last.Some?
            && (StateOf(RestoredSome(now, snaps, works), path) == StateOf(saved, path)
                <==> StateOf(saved, path).None? || paths[last.value] == path)
  {
    RestoredIsTouched(Captured(saved, paths, stamp), works, path);
    RolledBackAt(saved, paths, stamp, now, works, path);
  }

  // ----- Which checkpoint an id means, over runs -----

  /** A save, at a time of the clock. */
  datatype Save = Save(millis: nat, createdAt: int, caption: Option<string>, conversation: seq<string>, files: seq<Snapshot>) {
    function Made(): Checkpoint {
      Checkpoint(IdAt(millis), createdAt, caption, conversation, files)
    }
  }

  datatype Event = Keep(save: Save) | Undo(id: Option<CheckpointId>)

  /** The checkpoints after a run. */
  function After(max: nat, events: seq<Event>): seq<Checkpoint> {
    if events == [] then []
    else
      var before, e := After(max, events[..|events| - 1]), events[|events| - 1];
      match e
      case Keep(save) => Saved(before, save.Made(), max)
      case Undo(id) => Without(before, id)
  }

  function MadeAll(saves: seq<Save>): seq<Checkpoint> {
    seq(|saves|, i requires 0 <= i < |saves| => saves[i].Made())
  }

  /** The saves of the run whose checkpoints are left. */
  function Kept(max: nat, events: seq<Event>): seq<Save> {
    if events == [] then []
    else
      var before, e := Kept(max, events[..|events| - 1]), events[|events| - 1];
      match e
      case Keep(save) => Trimmed(before + [save], max)
      case Undo(id) => Removed(before, Position(MadeAll(before), id))
  }

  lemma {:induction false} MadeSnoc(saves: seq<Save>, save: Save, max: nat)
    ensures MadeAll(Trimmed(saves + [save], max)) == Saved(MadeAll(saves), save.Made(), max)
  {
  }

  lemma {:induction false} MadeRemoved(saves: seq<Save>, i: nat)
    requires i <= |saves|
    ensures MadeAll(Removed(saves, i)) == Removed(MadeAll(saves), i)
  {
  }

  /** What is left is what the saves that are kept made. */
  lemma {:induction false} KeptAreLeft(max: nat, events: seq<Event>)
    ensures After(max, events) == MadeAll(Kept(max, events))
  {
    if events != [] {
      var before, e := Kept(max, events[..|events| - 1]), events[|events| - 1];
      KeptAreLeft(max, events[..|events| - 1]);
      match e
      case Keep(save) => MadeSnoc(before, save, max);
      case Undo(id) => MadeRemoved(before, Position(MadeAll(before), id));
    }
  }

  /** Over every run: a save puts its checkpoint behind those there are, and the oldest go when there are too many. */
  lemma {:induction false} SaveAddsOne(max: nat, events: seq<Event>, save: Save)
    ensures var before, after := After(max, events), After(max, events + [Keep(save)]);
            && (|before| < max ==> after == before + [save.Made()])
            && (|before| >= max > 0 ==> after == before[|before| + 1 - max..] + [save.Made()])
  {
    assert (events + [Keep(save)])[..|events|] == events;
  }

  /** Over every run: rolling back takes out exactly the checkpoint the id means, and leaves all others in order. */
  lemma {:induction false} UndoTakesOne(max: nat, events: seq<Event>, id: Option<CheckpointId>)
    ensures var before, after := After(max, events), After(max, events + [Undo(id)]);
            var i := Position(before, id);
            && (i < |before| ==> after == before[..i] + before[i + 1..])
            && (i == |before| ==> after == before)
            && (id.Some? ==> (i == |before| <==> forall ck | ck in before :: ck.id != id.value))
            && (id.None? ==> (i == |before| <==> before == []))
  {
    assert (events + [Undo(id)])[..|events|] == events;
  }

  lemma {:induction false} PositionIs(checkpoints: seq<Checkpoint>, k: nat)
    requires k < |checkpoints|
    ensures Position(checkpoints, Some(checkpoints[k].id)) == k <==> forall i | 0 <= i < k :: checkpoints[i].id != checkpoints[k].id
  {
  }

  /**
   Over every run of saves and rollbacks: the id that a save returned means the checkpoint it made if and only if no
   older checkpoint that is left was saved in the same second.
   */
  lemma {:induction false} IdMeansSavedIff(max: nat, events: seq<Event>, k: nat)
    requires k < |Kept(max, events)|
    ensures var saves := Kept(max, events);
            Position(After(max, events), Some(IdAt(saves[k].millis))) == k
            <==> forall i | 0 <= i < k :: saves[i].millis / 1000 != saves[k].millis / 1000
  {
    var saves, made := Kept(max, events), After(max, events);
    KeptAreLeft(max, events);
    assert forall i | 0 <= i < |saves| :: made[i].id == saves[i].millis / 1000;
    PositionIs(made, k);
    if forall i | 0 <= i < k :: saves[i].millis / 1000 != saves[k].millis / 1000 {
      assert forall i | 0 <= i < k :: made[i].id != made[k].id;
    }
    if forall i | 0 <= i < k :: made[i].id != made[k].id {
      forall i | 0 <= i < k ensures saves[i].millis / 1000 != saves[k].millis / 1000 {
        assert made[i].id != made[k].id;
      }
    }
  }

  /** Two saves in one second: rolling back the id the second one returned takes the first one away and keeps the second. */
  lemma {:induction false} TwoSavesOneSecond(first: Save, second: Save, max: nat)
    requires first.millis / 1000 == second.millis / 1000 && max >= 2
    ensures After(max, [Keep(first), Keep(second)]) == [first.Made(), second.Made()]
    ensures After(max, [Keep(first), Keep(second), Undo(Some(IdAt(second.millis)))]) == [second.Made()]
  {
    var a, b, c := Keep(first), Keep(second), Undo(Some(IdAt(second.millis)));
    assert [a][..0] == [] && After(max, [a]) == Saved(After(max, []), first.Made(), max) == [first.Made()];
    assert [a, b][..1] == [a] && After(max, [a, b]) == Saved(After(max, [a]), second.Made(), max) == [first.Made(), second.Made()];
    assert [a, b, c][..2] == [a, b] && After(max, [a, b, c]) == Without(After(max, [a, b]), c.id);
  }
}
