/** `DefaultRollover`: before the live file is rolled, the numbered backups
    are purged (shifted one index along, the oldest deleted) on an abstract
    file system, and the rename and compression of the live file are planned. */
module Rollovers {
  import opened Common
  import Files

  /** The file system as the rollover sees it: the length of every existing
      file, and the files that can be neither deleted nor moved. */
  datatype Disk = Disk(files: map<string, nat>, locked: set<string>)

  /** `File.delete`: an existing file that is not locked is removed. */
  function Delete(d: Disk, name: string): (bool, Disk)
  {
    if name in d.files && name !in d.locked then (true, d.(files := d.files - {name})) else (false, d)
  }

  /** The file map after `source` moved onto `target`, replacing it. */
  function MoveFile(files: map<string, nat>, source: string, target: string): map<string, nat>
  {
    if source in files then (files - {source})[target := files[source]] else files
  }

  /** `FileRenameAction.execute`: a missing or empty source fails; otherwise
      the source moves onto the target unless it is locked. */
  function Rename(d: Disk, source: string, target: string): (bool, Disk)
  {
    if source in d.files && d.files[source] > 0 && source !in d.locked then
      (true, d.(files := MoveFile(d.files, source, target)))
    else (false, d)
  }

  /** A planned `FileRenameAction`. */
  datatype Move = Move(source: string, target: string)

  /** Executing the planned renames from the last one collected back to the
      first; the first rename that fails ends the replay. */
  function Replay(d: Disk, moves: seq<Move>): (bool, Disk)
    decreases |moves|
  {
    if |moves| == 0 then (true, d)
    else
      var last := moves[|moves| - 1];
      var step := Rename(d, last.source, last.target);
      if !step.0 then (false, step.1) else Replay(step.1, moves[..|moves| - 1])
  }

  /** The reverse loop that executes the collected renames of a purge. */
  method ReplayMoves(d: Disk, moves: seq<Move>) returns (ok: bool, d': Disk)
    ensures (ok, d') == Replay(d, moves)
  {
    d' := d;
    var i := |moves|;
    assert moves[..i] == moves;
    while i > 0
      invariant 0 <= i <= |moves|
      invariant Replay(d, moves) == Replay(d', moves[..i])
    {
      assert moves[..i][..i - 1] == moves[..i - 1];
      var step := Rename(d', moves[i - 1].source, moves[i - 1].target);
      d' := step.1;
      if !step.0 {
        return false, d';
      }
      i := i - 1;
    }
    return true, d';
  }

  /** With a ".gz" pattern: which file to rename for a name (the compressed
      file, or else its uncompressed base), whether it is the base, and the
      disk after a stale base beside an existing compressed file is deleted. */
  function GzProbe(d: Disk, name: string, gz: bool): (string, bool, Disk)
  {
    if !gz then (name, false, d)
    else
      var base := Files.RemoveExtension(name);
      if name in d.files then (name, false, if base in d.files then Delete(d, base).1 else d)
      else (base, true, d)
  }

  /** How the collecting loop of a purge ends: a delete failed, or renames are
      planned (with the index the ascending purge chose, 0 when none). */
  datatype Scan = Aborted(disk: Disk) | Planned(disk: Disk, moves: seq<Move>, top: int)

  /** The collecting loop of `purgeDescending`, from index `i` whose name is
      `lowFilename`: while a file exists, plan its move one index up; the file
      reached at `high` is deleted instead. */
  function ScanDown(d: Disk, i: int, high: int, lowFilename: string, names: int -> string, gz: bool,
                    moves: seq<Move>): Scan
    decreases high - i + 1
  {
    if i > high then Planned(d, moves, 0)
    else
      var probe := GzProbe(d, lowFilename, gz);
      var toRename := probe.0;
      var d1 := probe.2;
      if toRename !in d1.files then Planned(d1, moves, 0)
      else if i == high then
        var del := Delete(d1, toRename);
        if del.0 then Planned(del.1, moves, 0) else Aborted(del.1)
      else
        var highFilename := names(i + 1);
        var renameTo := if probe.1 && gz then Files.RemoveExtension(highFilename) else highFilename;
        ScanDown(d1, i + 1, high, highFilename, names, gz, moves + [Move(toRename, renameTo)])
  }

  /** `purgeDescending`: -1 when a delete or a rename fails, otherwise `low`. */
  function PurgeDescendingSpec(d: Disk, low: int, high: int, names: int -> string, gz: bool): (int, Disk)
  {
    match ScanDown(d, low, high, names(low), names, gz, [])
    case Aborted(d1) => (-1, d1)
    case Planned(d1, moves, _) =>
      var replay := Replay(d1, moves);
      (if replay.0 then low else -1, replay.1)
  }

  method PurgeDescending(d: Disk, low: int, high: int, names: int -> string, gz: bool) returns (r: int, d': Disk)
    ensures (r, d') == PurgeDescendingSpec(d, low, high, names, gz)
    ensures r == low || r == -1
  {
    var renames: seq<Move> := [];
    var lowFilename := names(low);
    d' := d;
    var i := low;
    while i <= high
      invariant ScanDown(d, low, high, names(low), names, gz, []) ==
                ScanDown(d', i, high, lowFilename, names, gz, renames)
      decreases high - i
    {
      var toRename := lowFilename;
      var isBase := false;
      if gz {
        var base := Files.RemoveExtension(lowFilename);
        if toRename in d'.files {
          if base in d'.files {
            d' := Delete(d', base).1;
          }
        } else {
          toRename := base;
          isBase := true;
        }
      }
      if toRename in d'.files {
        if i == high {
          var del := Delete(d', toRename);
          d' := del.1;
          if !del.0 {
            return -1, d';
          }
          break;
        }
        var highFilename := names(i + 1);
        var renameTo := highFilename;
        if isBase {
          if gz {
            renameTo := Files.RemoveExtension(highFilename);
          } else {
            renameTo := highFilename;
          }
        }
        renames := renames + [Move(toRename, renameTo)];
        lowFilename := highFilename;
      } else {
        break;
      }
      i := i + 1;
    }
    assert ScanDown(d, low, high, names(low), names, gz, []) == Planned(d', renames, 0);
    var ok;
    ok, d' := ReplayMoves(d', renames);
    if !ok {
      return -1, d';
    }
    return low, d';
  }

  /** The collecting loop of `purgeAscending`, from index `i` whose name is
      `highFilename`, with `maxIndex` chosen so far (0 while unset). */
  function ScanUp(d: Disk, i: int, low: int, high: int, highFilename: string, maxIndex: int,
                  names: int -> string, gz: bool, moves: seq<Move>): Scan
    decreases i - low + 1
  {
    if i < low then Planned(d, moves, maxIndex)
    else if !(i == high && highFilename in d.files) && maxIndex == 0 && highFilename in d.files then
      Planned(d, moves, i + 1)
    else
      var top := if i == high && highFilename in d.files then high else maxIndex;
      var probe := GzProbe(d, highFilename, gz);
      var toRename := probe.0;
      var d1 := probe.2;
      if toRename in d1.files then
        if i == low then
          var del := Delete(d1, toRename);
          if del.0 then Planned(del.1, moves, top) else Aborted(del.1)
        else
          var lowFilename := names(i - 1);
          var renameTo := if probe.1 && gz then Files.RemoveExtension(lowFilename) else lowFilename;
          ScanUp(d1, i - 1, low, high, lowFilename, top, names, gz, moves + [Move(toRename, renameTo)])
      else
        ScanUp(d1, i - 1, low, high, names(i - 1), top, names, gz, moves)
  }

  /** `purgeAscending`: -1 when a delete or a rename fails, otherwise the
      index chosen by the collecting loop, or `low` when it chose none. */
  function PurgeAscendingSpec(d: Disk, low: int, high: int, names: int -> string, gz: bool): (int, Disk)
  {
    match ScanUp(d, high, low, high, names(high), 0, names, gz, [])
    case Aborted(d1) => (-1, d1)
    case Planned(d1, moves, top) =>
      var replay := Replay(d1, moves);
      (if !replay.0 then -1 else if top == 0 then low else top, replay.1)
  }

  method PurgeAscending(d: Disk, low: int, high: int, names: int -> string, gz: bool) returns (r: int, d': Disk)
    ensures (r, d') == PurgeAscendingSpec(d, low, high, names, gz)
  {
    var renames: seq<Move> := [];
    var highFilename := names(high);
    var maxIndex := 0;
    d' := d;
    var i := high;
    while i >= low
      invariant ScanUp(d, high, low, high, names(high), 0, names, gz, []) ==
                ScanUp(d', i, low, high, highFilename, maxIndex, names, gz, renames)
      decreases i - low
    {
      var toRename := highFilename;
      if i == high && toRename in d'.files {
        maxIndex := high;
      } else if maxIndex == 0 && toRename in d'.files {
        maxIndex := i + 1;
        break;
      }
      var isBase := false;
      if gz {
        var base := Files.RemoveExtension(highFilename);
        if toRename in d'.files {
          if base in d'.files {
            d' := Delete(d', base).1;
          }
        } else {
          toRename := base;
          isBase := true;
        }
      }
      if toRename in d'.files {
        if i == low {
          var del := Delete(d', toRename);
          d' := del.1;
          if !del.0 {
            return -1, d';
          }
          break;
        }
        var lowFilename := names(i - 1);
        var renameTo := lowFilename;
        if isBase {
          if gz {
            renameTo := Files.RemoveExtension(lowFilename);
          } else {
            renameTo := lowFilename;
          }
        }
        renames := renames + [Move(toRename, renameTo)];
        highFilename := lowFilename;
      } else {
        highFilename := names(i - 1);
      }
      i := i - 1;
    }
    assert ScanUp(d, high, low, high, names(high), 0, names, gz, []) == Planned(d', renames, maxIndex);
    if maxIndex == 0 {
      maxIndex := low;
    }
    var ok;
    ok, d' := ReplayMoves(d', renames);
    if !ok {
      return -1, d';
    }
    return maxIndex, d';
  }

  /** The fixed settings of a `DefaultRollover`. */
  datatype RolloverConfig = RolloverConfig(minIndex: int, maxIndex: int, useMax: bool, bufferSize: int)

  /** `purge`: ascending when `useMax`, descending otherwise. */
  function PurgeSpec(c: RolloverConfig, d: Disk, names: int -> string, gz: bool): (int, Disk)
  {
    if c.useMax then PurgeAscendingSpec(d, c.minIndex, c.maxIndex, names, gz)
    else PurgeDescendingSpec(d, c.minIndex, c.maxIndex, names, gz)
  }

  /** A planned `GunZipCompressAction`. */
  datatype Compress = Compress(source: string, destination: string, deleteSource: bool, bufferSize: int)

  /** `DefaultDescription`: the rename to run now and the compression to run
      in the background, if any. */
  datatype Description = Description(sync: Move, async: Option<Compress>)

  /** The description for the live file `fileName` rolled to backup `index`. */
  function Describe(c: RolloverConfig, fileName: string, index: int, names: int -> string, gz: bool): Description
  {
    var compressedName := names(index);
    if gz then
      var renameTo := Files.RemoveExtension(compressedName);
      Description(Move(fileName, renameTo), Some(Compress(renameTo, compressedName, true, c.bufferSize)))
    else Description(Move(fileName, compressedName), None)
  }

  /** `rollover`: nothing when `maxIndex` is negative or the purge fails. */
  function RolloverSpec(c: RolloverConfig, fileName: string, d: Disk, names: int -> string, gz: bool)
    : (Option<Description>, Disk)
  {
    if c.maxIndex < 0 then (None, d)
    else
      var purged := PurgeSpec(c, d, names, gz);
      if purged.0 < 0 then (None, purged.1)
      else (Some(Describe(c, fileName, purged.0, names, gz)), purged.1)
  }

  /** `rollover(fileName, pattern)`, with the pattern's names as `names` and
      its ".gz" flag as `gz`. */
  method Rollover(c: RolloverConfig, fileName: string, d: Disk, names: int -> string, gz: bool)
    returns (r: Option<Description>, d': Disk)
    ensures (r, d') == RolloverSpec(c, fileName, d, names, gz)
  {
    if c.maxIndex < 0 {
      return None, d;
    }
    var fileIndex;
    if c.useMax {
      fileIndex, d' := PurgeAscending(d, c.minIndex, c.maxIndex, names, gz);
    } else {
      fileIndex, d' := PurgeDescending(d, c.minIndex, c.maxIndex, names, gz);
    }
    if fileIndex < 0 {
      return None, d';
    }
    var compressedName := names(fileIndex);
    var renameTo := compressedName;
    var compressAction := None;
    if gz {
      renameTo := Files.RemoveExtension(renameTo);
      compressAction := Some(Compress(renameTo, compressedName, true, c.bufferSize));
    }
    r := Some(Description(Move(fileName, renameTo), compressAction));
  }

  // ---------------------------------------------------------------------
  // What a descending purge does to the backups (patterns without ".gz")

  /** `names` gives distinct names to the indexes `low..m`. */
  predicate InjectiveOn(names: int -> string, low: int, m: int)
  {
    forall a, b :: low <= a <= m && low <= b <= m && a != b ==> names(a) != names(b)
  }

  /** The file of index `k` in `before` is the file of index `k+1` in `after`. */
  predicate MovedUp(before: map<string, nat>, after: map<string, nat>, names: int -> string, k: int)
  {
    names(k) in before && names(k + 1) in after && after[names(k + 1)] == before[names(k)]
  }

  /** The moves of backups `i..m-1` one index up, in the order they are collected. */
  function MovesUp(names: int -> string, i: int, m: int): seq<Move>
    decreases m - i
  {
    if m <= i then [] else [Move(names(i), names(i + 1))] + MovesUp(names, i + 1, m)
  }

  lemma {:induction false} MovesUpLast(names: int -> string, i: int, m: int)
    requires i < m
    ensures MovesUp(names, i, m) == MovesUp(names, i, m - 1) + [Move(names(m - 1), names(m))]
    decreases m - i
  {
    if i < m - 1 {
      MovesUpLast(names, i + 1, m);
    }
  }

  /** The files after backups `low..m-1` moved one index up, the highest first. */
  function ShiftUp(files: map<string, nat>, names: int -> string, low: int, m: int): map<string, nat>
    decreases m - low
  {
    if m <= low then files else ShiftUp(MoveFile(files, names(m - 1), names(m)), names, low, m - 1)
  }

  /** Shifting leaves alone every name outside `names(low..m)`. */
  lemma {:induction false} ShiftUpKeeps(files: map<string, nat>, names: int -> string, low: int, m: int, n: string)
    requires forall k :: low <= k <= m ==> names(k) != n
    ensures n in ShiftUp(files, names, low, m) <==> n in files
    ensures n in files ==> ShiftUp(files, names, low, m)[n] == files[n]
    decreases m - low
  {
    if low < m {
      ShiftUpKeeps(MoveFile(files, names(m - 1), names(m)), names, low, m - 1, n);
    }
  }

  /** Shifting moves the file of index `k` to index `k+1`. */
  lemma {:induction false} ShiftUpMoves(files: map<string, nat>, names: int -> string, low: int, m: int, k: int)
    requires low <= k < m
    requires InjectiveOn(names, low, m)
    requires names(k) in files
    ensures names(k + 1) in ShiftUp(files, names, low, m)
    ensures ShiftUp(files, names, low, m)[names(k + 1)] == files[names(k)]
    decreases m - low
  {
    var f1 := MoveFile(files, names(m - 1), names(m));
    if k == m - 1 {
      ShiftUpKeeps(f1, names, low, m - 1, names(m));
    } else {
      assert names(k) != names(m - 1) && names(k) != names(m);
      ShiftUpMoves(f1, names, low, m - 1, k);
    }
  }

  /** Shifting frees the lowest index. */
  lemma {:induction false} ShiftUpFrees(files: map<string, nat>, names: int -> string, low: int, m: int)
    requires low < m
    requires InjectiveOn(names, low, m)
    ensures names(low) !in ShiftUp(files, names, low, m)
    decreases m - low
  {
    var f1 := MoveFile(files, names(m - 1), names(m));
    if low < m - 1 {
      ShiftUpFrees(f1, names, low, m - 1);
    } else {
      assert names(low) != names(m);
    }
  }

  /** Replaying the collected moves of backups `low..m-1`, each existing,
      non-empty and not locked, succeeds and shifts them up. */
  lemma {:induction false} ReplayShift(d: Disk, names: int -> string, low: int, m: int)
    requires low <= m
    requires InjectiveOn(names, low, m)
    requires forall k :: low <= k < m ==> names(k) in d.files && d.files[names(k)] > 0 && names(k) !in d.locked
    ensures Replay(d, MovesUp(names, low, m)) == (true, d.(files := ShiftUp(d.files, names, low, m)))
    decreases m - low
  {
    if low < m {
      MovesUpLast(names, low, m);
      var moves := MovesUp(names, low, m);
      assert moves[..|moves| - 1] == MovesUp(names, low, m - 1);
      var d1 := d.(files := MoveFile(d.files, names(m - 1), names(m)));
      assert Rename(d, names(m - 1), names(m)) == (true, d1);
      assert forall k :: low <= k < m - 1 ==> names(k) in d1.files && d1.files[names(k)] == d.files[names(k)];
      ReplayShift(d1, names, low, m - 1);
    }
  }

  /** The collecting loop of a descending purge without ".gz", started at
      `i` below the first missing index `m` (or at `high` with a deletable
      file), plans exactly the moves of backups `i..m-1` and deletes the file
      at `m` if there is one. */
  lemma {:induction false} ScanDownPlan(d: Disk, i: int, high: int, m: int, names: int -> string, moves: seq<Move>)
    requires i <= m <= high
    requires forall k :: i <= k < m ==> names(k) in d.files
    requires names(m) !in d.files || (m == high && names(m) !in d.locked)
    ensures ScanDown(d, i, high, names(i), names, false, moves) ==
            Planned(d.(files := d.files - {names(m)}), moves + MovesUp(names, i, m), 0)
    decreases m - i
  {
    if i < m {
      ScanDownPlan(d, i + 1, high, m, names, moves + [Move(names(i), names(i + 1))]);
      assert moves + MovesUp(names, i, m) == moves + [Move(names(i), names(i + 1))] + MovesUp(names, i + 1, m);
    } else if names(m) !in d.files {
      assert d.files - {names(m)} == d.files;
    }
  }

  /** A descending purge of a pattern without ".gz", where the backups
      `low..m-1` exist under distinct names, are non-empty and not locked, and
      index `m` is free (or is `high` and deletable): it succeeds with `low`,
      every backup `k` moves to `k+1`, the one at `high` is deleted, index
      `low` becomes free and no other file changes. */
  lemma DescendingShift(d: Disk, low: int, high: int, m: int, names: int -> string)
    requires low <= m <= high
    requires InjectiveOn(names, low, m)
    requires forall k :: low <= k < m ==> names(k) in d.files && d.files[names(k)] > 0 && names(k) !in d.locked
    requires names(m) !in d.files || (m == high && names(m) !in d.locked)
    ensures PurgeDescendingSpec(d, low, high, names, false).0 == low
    ensures PurgeDescendingSpec(d, low, high, names, false).1.locked == d.locked
    ensures low < m ==> names(low) !in PurgeDescendingSpec(d, low, high, names, false).1.files
    ensures forall k :: low <= k < m ==> MovedUp(d.files, PurgeDescendingSpec(d, low, high, names, false).1.files, names, k)
    ensures forall n :: (forall k :: low <= k <= m ==> names(k) != n) ==>
      (n in PurgeDescendingSpec(d, low, high, names, false).1.files <==> n in d.files) &&
      (n in d.files ==> PurgeDescendingSpec(d, low, high, names, false).1.files[n] == d.files[n])
  {
    ScanDownPlan(d, low, high, m, names, []);
    var d0 := d.(files := d.files - {names(m)});
    assert [] + MovesUp(names, low, m) == MovesUp(names, low, m);
    assert forall k :: low <= k < m ==> names(k) in d0.files && d0.files[names(k)] == d.files[names(k)];
    ReplayShift(d0, names, low, m);
    var after := ShiftUp(d0.files, names, low, m);
    assert PurgeDescendingSpec(d, low, high, names, false) == (low, d0.(files := after));
    if low < m {
      ShiftUpFrees(d0.files, names, low, m);
    }
    forall k | low <= k < m
      ensures MovedUp(d.files, after, names, k)
    {
      ShiftUpMoves(d0.files, names, low, m, k);
    }
    forall n | (forall k :: low <= k <= m ==> names(k) != n)
      ensures (n in after <==> n in d.files) && (n in d.files ==> after[n] == d.files[n])
    {
      ShiftUpKeeps(d0.files, names, low, m, n);
    }
  }

  /** With a ".gz" pattern, the scan over compressed backups none of which
      has an uncompressed base beside it plans what the plain scan plans. */
  lemma {:induction false} ScanDownGzPlain(d: Disk, i: int, high: int, m: int, names: int -> string, moves: seq<Move>)
    requires i <= m <= high
    requires forall k :: i <= k <= m ==> Files.RemoveExtension(names(k)) !in d.files
    requires forall k :: i <= k < m ==> names(k) in d.files
    requires names(m) !in d.files || m == high
    ensures ScanDown(d, i, high, names(i), names, true, moves) == ScanDown(d, i, high, names(i), names, false, moves)
    decreases m - i
  {
    if names(i) in d.files && i < high {
      assert i < m;
      var next := moves + [Move(names(i), names(i + 1))];
      ScanDownGzPlain(d, i + 1, high, m, names, next);
    }
  }

  /** With a ".gz" pattern and no uncompressed base beside the compressed
      backups `low..m`, the descending purge does what it does without gzip,
      so `DescendingShift` describes it. */
  lemma DescendingShiftGz(d: Disk, low: int, high: int, m: int, names: int -> string)
    requires low <= m <= high
    requires forall k :: low <= k <= m ==> Files.RemoveExtension(names(k)) !in d.files
    requires forall k :: low <= k < m ==> names(k) in d.files
    requires names(m) !in d.files || m == high
    ensures PurgeDescendingSpec(d, low, high, names, true) == PurgeDescendingSpec(d, low, high, names, false)
  {
    ScanDownGzPlain(d, low, high, m, names, []);
  }

  // ---------------------------------------------------------------------
  // Which index an ascending purge hands to the live file

  /** One past the highest index in `low..i` whose file exists, or 0. */
  function TopBelow(d: Disk, i: int, low: int, names: int -> string): (r: int)
    decreases i - low + 1
  {
    if i < low then 0 else if names(i) in d.files then i + 1 else TopBelow(d, i - 1, low, names)
  }

  /** The index `purgeAscending` promises: `high` when its file exists, else
      one past the highest existing lower index, else `low`. */
  function ExpectedTop(d: Disk, low: int, high: int, names: int -> string): int
  {
    var raw := RawTop(d, low, high, names);
    if raw == 0 then low else raw
  }

  /** Once the file at `high` was seen, the index stays `high`. */
  lemma {:induction false} ScanUpKeepsTop(d: Disk, i: int, low: int, high: int, hf: string, names: int -> string,
                                          gz: bool, moves: seq<Move>)
    requires i < high && high != 0
    ensures ScanUp(d, i, low, high, hf, high, names, gz, moves).Aborted? ||
            ScanUp(d, i, low, high, hf, high, names, gz, moves).top == high
    decreases i - low + 1
  {
    if i >= low {
      var probe := GzProbe(d, hf, gz);
      if probe.0 in probe.2.files {
        if i != low {
          var lowFilename := names(i - 1);
          var renameTo := if probe.1 && gz then Files.RemoveExtension(lowFilename) else lowFilename;
          ScanUpKeepsTop(probe.2, i - 1, low, high, lowFilename, names, gz, moves + [Move(probe.0, renameTo)]);
        }
      } else {
        ScanUpKeepsTop(probe.2, i - 1, low, high, names(i - 1), names, gz, moves);
      }
    }
  }

  /** Below a missing `high`, the loop stops at the first existing file and
      picks the index above it; the disk does not change on the way down. */
  lemma {:induction false} ScanUpBelow(d: Disk, i: int, low: int, high: int, names: int -> string,
                                       gz: bool, moves: seq<Move>)
    requires i < high && 0 <= low
    ensures ScanUp(d, i, low, high, names(i), 0, names, gz, moves).Aborted? ||
            ScanUp(d, i, low, high, names(i), 0, names, gz, moves).top == TopBelow(d, i, low, names)
    decreases i - low + 1
  {
    if i >= low && names(i) !in d.files {
      var probe := GzProbe(d, names(i), gz);
      assert probe.2 == d;
      if probe.0 in d.files {
        if i != low {
          var lowFilename := names(i - 1);
          var renameTo := if probe.1 && gz then Files.RemoveExtension(lowFilename) else lowFilename;
          ScanUpBelow(d, i - 1, low, high, names, gz, moves + [Move(probe.0, renameTo)]);
        }
      } else {
        ScanUpBelow(d, i - 1, low, high, names, gz, moves);
      }
    }
  }

  /** The index the loop picks when started at `high`, before the 0-to-`low` default. */
  function RawTop(d: Disk, low: int, high: int, names: int -> string): int
  {
    if low <= high && names(high) in d.files then high else TopBelow(d, high - 1, low, names)
  }

  /** The first iteration at `high` when there is nothing to rename there. */
  lemma ScanUpHighSkipped(d: Disk, low: int, high: int, names: int -> string, gz: bool)
    requires 0 <= low <= high
    requires GzProbe(d, names(high), gz).0 !in GzProbe(d, names(high), gz).2.files
    ensures ScanUp(d, high, low, high, names(high), 0, names, gz, []).Aborted? ||
            ScanUp(d, high, low, high, names(high), 0, names, gz, []).top == RawTop(d, low, high, names)
  {
    var hf := names(high);
    var probe := GzProbe(d, hf, gz);
    var top := if hf in d.files then high else 0;
    assert ScanUp(d, high, low, high, hf, 0, names, gz, []) ==
           ScanUp(probe.2, high - 1, low, high, names(high - 1), top, names, gz, []);
    if hf in d.files {
      if high != 0 {
        ScanUpKeepsTop(probe.2, high - 1, low, high, names(high - 1), names, gz, []);
      }
    } else {
      assert probe.2 == d;
      ScanUpBelow(d, high - 1, low, high, names, gz, []);
    }
  }

  /** The first iteration at `high` when a file there is renamed or deleted. */
  lemma ScanUpHighRenamed(d: Disk, low: int, high: int, names: int -> string, gz: bool)
    requires 0 <= low <= high
    requires GzProbe(d, names(high), gz).0 in GzProbe(d, names(high), gz).2.files
    ensures ScanUp(d, high, low, high, names(high), 0, names, gz, []).Aborted? ||
            ScanUp(d, high, low, high, names(high), 0, names, gz, []).top == RawTop(d, low, high, names)
  {
    var hf := names(high);
    var probe := GzProbe(d, hf, gz);
    var top := if hf in d.files then high else 0;
    if high != low {
      var lowFilename := names(high - 1);
      var renameTo := if probe.1 && gz then Files.RemoveExtension(lowFilename) else lowFilename;
      var moves := [Move(probe.0, renameTo)];
      assert [] + moves == moves;
      assert ScanUp(d, high, low, high, hf, 0, names, gz, []) ==
             ScanUp(probe.2, high - 1, low, high, lowFilename, top, names, gz, moves);
      if hf in d.files {
        ScanUpKeepsTop(probe.2, high - 1, low, high, lowFilename, names, gz, moves);
      } else {
        assert probe.2 == d;
        ScanUpBelow(d, high - 1, low, high, names, gz, moves);
      }
    }
  }

  /** An ascending purge with non-negative indexes either fails with -1 or
      answers the index `ExpectedTop` describes. */
  lemma AscendingTop(d: Disk, low: int, high: int, names: int -> string, gz: bool)
    requires 0 <= low
    ensures PurgeAscendingSpec(d, low, high, names, gz).0 == -1 ||
            PurgeAscendingSpec(d, low, high, names, gz).0 == ExpectedTop(d, low, high, names)
  {
    if low <= high {
      var probe := GzProbe(d, names(high), gz);
      if probe.0 in probe.2.files {
        ScanUpHighRenamed(d, low, high, names, gz);
      } else {
        ScanUpHighSkipped(d, low, high, names, gz);
      }
    }
  }

  // ---------------------------------------------------------------------
  // The plan handed back

  /** `rollover` answers nothing exactly when `maxIndex` is negative or the
      purge fails; otherwise it renames the live file to the name of the purged
      index (without ".gz" when compressing, and then compresses that file to
      the ".gz" name). The descending policy always uses `minIndex`; the
      ascending one the index `ExpectedTop` describes. */
  lemma RolloverPlan(c: RolloverConfig, fileName: string, d: Disk, names: int -> string, gz: bool)
    ensures var r := RolloverSpec(c, fileName, d, names, gz).0;
      var index := PurgeSpec(c, d, names, gz).0;
      (r.Some? <==> c.maxIndex >= 0 && index >= 0) &&
      (r.Some? ==>
        r.value.sync.source == fileName &&
        (!c.useMax ==> index == c.minIndex) &&
        (c.useMax && 0 <= c.minIndex ==> index == ExpectedTop(d, c.minIndex, c.maxIndex, names)) &&
        (gz ==> r.value.sync.target == Files.RemoveExtension(names(index)) &&
                r.value.async == Some(Compress(r.value.sync.target, names(index), true, c.bufferSize))) &&
        (!gz ==> r.value.sync.target == names(index) && r.value.async.None?))
  {
    if c.useMax && 0 <= c.minIndex {
      AscendingTop(d, c.minIndex, c.maxIndex, names, gz);
    }
  }
}
