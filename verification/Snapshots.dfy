/**
 Snapshot records of the checkpoint store: their wire form, the line-oriented log, and what taking and restoring
 them does to a file system. Everything here is a value; CheckpointManager.dfy holds the object that updates in place.
 */
module Snapshots {
  import opened Prelude
  import Hex

  type Path = string

  type Files = map<Path, Bytes>

  /** What a snapshot carries besides the file: the digest of the content and the time, both computed outside. */
  datatype Stamp = Stamp(hash: string, createdAt: int)

  datatype Snapshot = Snapshot(path: Path, content: Bytes, existed: bool, stamp: Stamp)

  // ----- Wire form -----

  /** One log record. `content` is the field of old archives; `contentHex` and `existed` are written today. */
  datatype Wire = Wire(path: Path, content: Option<Bytes>, contentHex: Option<string>, existed: Option<bool>, stamp: Stamp)

  function Serialize(snap: Snapshot): Wire {
    Wire(snap.path, None, Some(Hex.Encode(snap.content)), Some(snap.existed), snap.stamp)
  }

  function Deserialize(wire: Wire): Result<Snapshot, Hex.HexError> {
    match (wire.contentHex, wire.content)
    case (Some(text), _) =>
      (match Hex.Decode(text)
       case Ok(bytes) => Ok(Snapshot(wire.path, bytes, if wire.existed.Some? then wire.existed.value else true, wire.stamp))
       case Err(e) => Err(e))
    case (None, Some(legacy)) => Ok(Snapshot(wire.path, legacy, legacy != [], wire.stamp))
    case (None, None) => Ok(Snapshot(wire.path, [], if wire.existed.Some? then wire.existed.value else false, wire.stamp))
  }

  lemma {:induction false} WireRoundTrip(snap: Snapshot)
    ensures Deserialize(Serialize(snap)) == Ok(snap)
  {
    Hex.RoundTrip(snap.content);
  }

  // ----- The log -----

  datatype Line = Blank | Record(wire: Wire) | Malformed

  datatype LoadError = BadContent(error: Hex.HexError) | BadRecord

  function LoadLine(line: Line): Result<seq<Snapshot>, LoadError> {
    match line
    case Blank => Ok([])
    case Malformed => Err(BadRecord)
    case Record(wire) =>
      match Deserialize(wire)
      case Ok(snap) => Ok([snap])
      case Err(e) => Err(BadContent(e))
  }

  function Load(lines: seq<Line>): Result<seq<Snapshot>, LoadError> {
    if lines == [] then Ok([]) else Joined(LoadLine(lines[0]), Load(lines[1..]))
  }

  function Joined(first: Result<seq<Snapshot>, LoadError>, second: Result<seq<Snapshot>, LoadError>)
    : Result<seq<Snapshot>, LoadError>
  {
    if first.Err? then first else if second.Err? then second else Ok(first.value + second.value)
  }

  function SerializeAll(snaps: seq<Snapshot>): seq<Line> {
    seq(|snaps|, i requires 0 <= i < |snaps| => Record(Serialize(snaps[i])))
  }

  /** Loading a log that was appended to is loading the parts. */
  lemma {:induction false} LoadConcat(first: seq<Line>, second: seq<Line>)
    ensures Load(first + second) == Joined(Load(first), Load(second))
  {
    if first == [] {
      assert first + second == second;
      assert forall s: seq<Snapshot> :: [] + s == s;
    } else {
      LoadConcat(first[1..], second);
      assert (first + second)[1..] == first[1..] + second;
      JoinedAssociates(LoadLine(first[0]), Load(first[1..]), Load(second));
    }
  }

  lemma {:induction false} JoinedAssociates(a: Result<seq<Snapshot>, LoadError>, b: Result<seq<Snapshot>, LoadError>,
                         c: Result<seq<Snapshot>, LoadError>)
    ensures Joined(a, Joined(b, c)) == Joined(Joined(a, b), c)
  {
    if a.Ok? && b.Ok? && c.Ok? {
      assert a.value + (b.value + c.value) == (a.value + b.value) + c.value;
    }
  }

  lemma {:induction false} LoadSingle(line: Line)
    ensures Load([line]) == LoadLine(line)
  {
    assert Load([]) == Ok([]);
    if LoadLine(line).Ok? {
      assert LoadLine(line).value + [] == LoadLine(line).value;
    }
  }

  /** A blank line is no record. */
  lemma {:induction false} BlankIsSkipped(before: seq<Line>, after: seq<Line>)
    ensures Load(before + [Blank] + after) == Load(before + after)
  {
    LoadConcat(before + [Blank], after);
    LoadConcat(before, [Blank]);
    LoadConcat(before, after);
    LoadSingle(Blank);
    if Load(before).Ok? {
      assert Load(before).value + [] == Load(before).value;
    }
  }

  /** A line that cannot be read stops the load with its error, unless an earlier one did. */
  lemma {:induction false} BadLineStops(before: seq<Line>, bad: Line, after: seq<Line>)
    requires Load(before).Ok? && (bad.Malformed? || (bad.Record? && Deserialize(bad.wire).Err?))
    ensures Load(before + [bad] + after) == Err(if bad.Malformed? then BadRecord else BadContent(Deserialize(bad.wire).error))
  {
    LoadConcat(before + [bad], after);
    LoadConcat(before, [bad]);
    LoadSingle(bad);
  }

  /** A record with hex content is refused exactly when that is no hex text; without a flag the file existed. */
  lemma {:induction false} HexRecord(path: Path, legacy: Option<Bytes>, text: string, existed: Option<bool>, stamp: Stamp)
    ensures var r := Deserialize(Wire(path, legacy, Some(text), existed, stamp));
            && (r.Ok? <==> Hex.IsHexText(text))
            && (r.Ok? ==> r.value.path == path && r.value.stamp == stamp && Hex.Decode(text) == Ok(r.value.content))
            && (r.Ok? ==> r.value.existed == (existed != Some(false)))
  {
    Hex.DecodeExactly(text);
  }

  /** A record without any content stands for an absent file, unless the flag says that it existed and was empty. */
  lemma {:induction false} EmptyRecord(path: Path, existed: Option<bool>, stamp: Stamp)
    ensures Deserialize(Wire(path, None, None, existed, stamp)) == Ok(Snapshot(path, [], existed == Some(true), stamp))
  {
  }

  /** Loading exactly undoes writing every record. */
  lemma {:induction false} LoadSerialized(snaps: seq<Snapshot>)
    ensures Load(SerializeAll(snaps)) == Ok(snaps)
  {
    if snaps == [] {
    } else {
      LoadSerialized(snaps[1..]);
      WireRoundTrip(snaps[0]);
      assert SerializeAll(snaps)[1..] == SerializeAll(snaps[1..]);
      assert snaps == [snaps[0]] + snaps[1..];
    }
  }

  // ----- Taking and restoring -----

  function StateOf(files: Files, path: Path): Option<Bytes> {
    if path in files then Some(files[path]) else None
  }

  /** The state a snapshot stands for: absent and empty are kept apart. */
  function SavedState(snap: Snapshot): Option<Bytes> {
    if snap.existed then Some(snap.content) else None
  }

  function Capture(files: Files, path: Path, stamp: Stamp): (snap: Snapshot)
    ensures snap.path == path && SavedState(snap) == StateOf(files, path)
  {
    if path in files then Snapshot(path, files[path], true, stamp) else Snapshot(path, [], false, stamp)
  }

  /** The sibling file a restore writes before renaming it over the target. */
  function TempName(path: Path): Path {
    path + ".rollback"
  }

  function Restored(files: Files, snap: Snapshot): Files {
    if snap.existed then (files - {TempName(snap.path)})[snap.path := snap.content]
    else files - {snap.path}
  }

  /** The newest snapshot is restored first, the oldest last. */
  function RestoredAll(files: Files, snaps: seq<Snapshot>): Files
    decreases |snaps|
  {
    if snaps == [] then files
    else RestoredAll(Restored(files, snaps[|snaps| - 1]), snaps[..|snaps| - 1])
  }

  /** Whether restoring `snap` can change `path`: as its target, or as its temporary file. */
  predicate Touches(snap: Snapshot, path: Path) {
    snap.path == path || (snap.existed && TempName(snap.path) == path)
  }

  /** Index of the oldest snapshot that touches `path`, or the number of snapshots. */
  function OldestTouch(snaps: seq<Snapshot>, path: Path): (k: nat)
    ensures k <= |snaps|
    ensures forall i | 0 <= i < k :: !Touches(snaps[i], path)
    ensures k < |snaps| ==> Touches(snaps[k], path)
  {
    if snaps == [] || Touches(snaps[0], path) then 0 else 1 + OldestTouch(snaps[1..], path)
  }

  lemma {:induction false} TempNameIsAnother(path: Path)
    ensures TempName(path) != path
  {
    assert |TempName(path)| == |path| + 9;
  }

  lemma {:induction false} RestoredAt(files: Files, snap: Snapshot, path: Path)
    ensures StateOf(Restored(files, snap), path) ==
            if snap.path == path then SavedState(snap)
            else if Touches(snap, path) then None
            else StateOf(files, path)
  {
    TempNameIsAnother(snap.path);
  }

  /**
   What a full rollback leaves at every path, with no proviso: the oldest snapshot that touches the path decides,
   by its saved state when the path is its target and by removal when the path is its temporary file.
   */
  lemma {:induction false} RestoredAllAt(files: Files, snaps: seq<Snapshot>, path: Path)
    ensures var k := OldestTouch(snaps, path);
            StateOf(RestoredAll(files, snaps), path) ==
            if k == |snaps| then StateOf(files, path)
            else if snaps[k].path == path then SavedState(snaps[k])
            else None
    decreases |snaps|
  {
    if snaps == [] {
    } else {
      var last := snaps[|snaps| - 1];
      var older := snaps[..|snaps| - 1];
      RestoredAllAt(Restored(files, last), older, path);
      RestoredAt(files, last, path);
      var k, j := OldestTouch(snaps, path), OldestTouch(older, path);
      assert j < |older| ==> Touches(snaps[j], path);
      assert forall i | 0 <= i < j :: snaps[i] == older[i];
      if j < |older| {
        assert k == j;
      } else {
        assert k >= |older|;
      }
    }
  }

  /** `k` is the oldest snapshot taken of `path`. */
  ghost predicate IsOldestOf(snaps: seq<Snapshot>, k: nat, path: Path) {
    k < |snaps| && snaps[k].path == path && forall i | 0 <= i < k :: snaps[i].path != path
  }

  /**
   Exactly when a full rollback returns a snapshotted path to its oldest retained state: unless that state was
   "present" and an older snapshot of an existing file uses the path as its temporary file.
   */
  lemma {:induction false} OldestStateRestoredIff(files: Files, snaps: seq<Snapshot>, k: nat, path: Path)
    requires IsOldestOf(snaps, k, path)
    ensures StateOf(RestoredAll(files, snaps), path) == SavedState(snaps[k]) <==>
            !snaps[k].existed || forall i | 0 <= i < k :: !(snaps[i].existed && TempName(snaps[i].path) == path)
  {
    RestoredAllAt(files, snaps, path);
    var j := OldestTouch(snaps, path);
    assert Touches(snaps[k], path);
    TempNameIsAnother(snaps[k].path);
  }

  /** A path that no retained snapshot names is left alone, except that a restore's temporary file disappears. */
  lemma {:induction false} OtherPaths(files: Files, snaps: seq<Snapshot>, path: Path)
    requires forall s | s in snaps :: s.path != path
    ensures StateOf(RestoredAll(files, snaps), path) ==
            if exists s | s in snaps :: s.existed && TempName(s.path) == path then None else StateOf(files, path)
  {
    RestoredAllAt(files, snaps, path);
    var k := OldestTouch(snaps, path);
    if k == |snaps| {
      forall s | s in snaps ensures !Touches(s, path) {
        var i :| 0 <= i < |snaps| && snaps[i] == s;
        assert !Touches(snaps[i], path);
      }
    } else {
      assert snaps[k] in snaps && snaps[k].existed && TempName(snaps[k].path) == path;
    }
  }

  /** A file beside another, called like it with `.rollback` behind, is lost when the other one is rolled back. */
  lemma {:induction false} NeighbourIsLost(path: Path, content: Bytes, neighbour: Bytes, stamp: Stamp)
    ensures var files := map[path := content, TempName(path) := neighbour];
            RestoredAll(files, [Capture(files, path, stamp)]) == map[path := content]
  {
    var files := map[path := content, TempName(path) := neighbour];
    TempNameIsAnother(path);
    assert [Capture(files, path, stamp)][..0] == [];
  }

  // ----- Old archives -----

  /** Records of old archives: an empty text means the file was absent, any other text is its content. */
  lemma {:induction false} LegacyRecord(path: Path, text: Bytes, existed: Option<bool>, stamp: Stamp)
    ensures var r := Deserialize(Wire(path, Some(text), None, existed, stamp));
            r.Ok? && r.value.path == path && SavedState(r.value) == if text == [] then None else Some(text)
  {
  }
}
