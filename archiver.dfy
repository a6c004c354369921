/**
 * archiver.js: the single-process archiver. Every pass walks the watch
 * directory in listing order and copies each ready plot, one at a time, to
 * the best-fit farm partition chosen just before it.
 *
 * The directory listing is one optional stat per name, the clock one reading
 * per entry, and the block-device and capacity listings together with the
 * exit status of rsync one `Snapshot` per entry: a pass queries them afresh
 * for each file it archives.
 */
module Archiver {
  import opened Text
  import opened Cli
  import opened Misc
  import opened Selection
  import opened Readiness

  const DefaultPlotSize: int := 108_100_000_000
  const DefaultPlotNeedSize: int := 109_100_000_000
  const DefaultRunLoopInterval: int := 30000

  datatype RunConfig = RunConfig(watchDir: String, farmDir: String, plotSize: int, plotNeedSize: int,
                                 runLoopInterval: int)

  /**
   * `getConfig()`: the four panics of the usb archiver in the same order,
   * without its print flags; otherwise the two directories over the defaults.
   */
  function GetConfig(watchdir: ArgValue, farmdir: ArgValue, existing: set<String>): (r: Result<RunConfig>)
    ensures !Truthy(watchdir) ==> r == Err("watchdir is not defined.")
    ensures Truthy(watchdir) && !Truthy(farmdir) ==> r == Err("farmdir is not defined.")
    ensures Truthy(watchdir) && Truthy(farmdir) && !HasDir(watchdir, existing) ==>
      r == Err("watchdir is not a directory or not existed")
    ensures Truthy(watchdir) && Truthy(farmdir) && HasDir(watchdir, existing) && !HasDir(farmdir, existing) ==>
      r == Err("dest is not a directory or not existed")
    ensures r.Ok? <==> Truthy(watchdir) && Truthy(farmdir) && HasDir(watchdir, existing) && HasDir(farmdir, existing)
    ensures r.Ok? ==> r.value.watchDir == watchdir.s && r.value.farmDir == farmdir.s
    ensures r.Ok? ==> r.value.plotSize == DefaultPlotSize && r.value.plotNeedSize == DefaultPlotNeedSize
    ensures r.Ok? ==> r.value.runLoopInterval == DefaultRunLoopInterval
  {
    if !Truthy(watchdir) then Err("watchdir is not defined.")
    else if !Truthy(farmdir) then Err("farmdir is not defined.")
    else if !HasDir(watchdir, existing) then Err("watchdir is not a directory or not existed")
    else if !HasDir(farmdir, existing) then Err("dest is not a directory or not existed")
    else Ok(RunConfig(watchdir.s, farmdir.s, DefaultPlotSize, DefaultPlotNeedSize, DefaultRunLoopInterval))
  }

  /** What the world answers for one entry: `si.blockDevices()`, `si.fsSize()` and whether rsync exits cleanly. */
  datatype Snapshot = Snapshot(devices: seq<Part>, spaces: seq<FsInfo>, rsyncOk: bool)

  /** `archiveFile({fileFullPath, destPath})`: the command it runs, or the rejection when rsync fails. */
  function ArchiveFile(fileFullPath: String, destPath: String, rsyncOk: bool): (r: Result<String>)
    ensures r.Ok? <==> rsyncOk
    ensures r.Ok? ==>
      StartsWith(r.value, "rsync -aP --remove-source-files ") && Contains(r.value, fileFullPath) && EndsWith(r.value, " " + destPath)
    ensures r.Err? ==> r.error == "Upload: " + fileFullPath + " exited with error"
  {
    var cmd := "rsync -aP --remove-source-files " + fileFullPath + " " + destPath;
    assert OccursAt(cmd, fileFullPath, 32);
    if rsyncOk then Ok(cmd) else Err("Upload: " + fileFullPath + " exited with error")
  }

  /** One completed copy: the listing position, the source path and the chosen mount. */
  datatype Archive = Archive(index: nat, fileFullPath: String, destPath: String)

  /**
   * How a pass ends: the two early returns, the end of the listing, or a stop
   * at entry `at` because no partition has room, `statSync` threw, or the
   * awaited copy rejected (both throws end the pass's promise).
   */
  datatype PassEnd = NoWatchDir | EmptyListing | Finished | AllFull(at: nat) | StatThrew(at: nat) | ArchiveFailed(at: nat)

  /** How many entries the pass got to look at. */
  function Reached(end: PassEnd, n: nat): nat {
    match end
    case NoWatchDir => 0
    case EmptyListing => 0
    case Finished => n
    case AllFull(at) => at
    case StatThrew(at) => at
    case ArchiveFailed(at) => at
  }

  /** The listing positions of the archives, in the order they were made. */
  function Indices(archived: seq<Archive>): (r: seq<nat>)
    ensures |r| == |archived| && forall j :: 0 <= j < |r| ==> r[j] == archived[j].index
  {
    if archived == [] then [] else Indices(archived[..|archived| - 1]) + [archived[|archived| - 1].index]
  }

  /** The positions below `k` that hold a ready plot, in listing order: the reference a pass is measured by. */
  function ReadyIndices(files: seq<DirEntry>, clock: seq<int>, plotSize: int, k: nat): (r: seq<nat>)
    requires k <= |files| && |clock| == |files|
    ensures forall j :: 0 <= j < |r| ==> r[j] < k && IsReadyPlot(files[r[j]], clock[r[j]], plotSize)
    ensures forall i :: 0 <= i < k && IsReadyPlot(files[i], clock[i], plotSize) ==> i in r
    ensures forall j, j' :: 0 <= j < j' < |r| ==> r[j] < r[j']
  {
    if k == 0 then []
    else
      var r := ReadyIndices(files, clock, plotSize, k - 1);
      if IsReadyPlot(files[k - 1], clock[k - 1], plotSize) then r + [k - 1] else r
  }

  /** One more entry adds its own position exactly when it holds a ready plot. */
  lemma ReadyStep(files: seq<DirEntry>, clock: seq<int>, plotSize: int, k: nat)
    requires k < |files| && |clock| == |files|
    ensures ReadyIndices(files, clock, plotSize, k + 1) ==
      ReadyIndices(files, clock, plotSize, k) + (if IsReadyPlot(files[k], clock[k], plotSize) then [k] else [])
  {
  }

  lemma IndicesSnoc(archived: seq<Archive>, a: Archive)
    ensures Indices(archived + [a]) == Indices(archived) + [a.index]
  {
    assert (archived + [a])[..|archived|] == archived;
  }

  /** The ready positions below `k` are the ones below any larger bound, cut at `k`. */
  lemma {:induction false} ReadyIndicesPrefix(files: seq<DirEntry>, clock: seq<int>, plotSize: int, k: nat, k': nat)
    requires k <= k' <= |files| && |clock| == |files|
    ensures var short, long := ReadyIndices(files, clock, plotSize, k), ReadyIndices(files, clock, plotSize, k');
      |short| <= |long| && short == long[..|short|]
  {
    if k < k' {
      ReadyIndicesPrefix(files, clock, plotSize, k, k' - 1);
    }
  }

  /** `archive` copies `e` to the partition chosen from `snap`, and rsync succeeded. */
  predicate ArchivedFrom(watchDir: String, farmDir: String, e: DirEntry, snap: Snapshot, plotNeedSize: int,
                         archive: Archive)
  {
    && archive.fileFullPath == PathJoin(watchDir, e.name)
    && var dest := SelectDestPart(snap.devices, snap.spaces, farmDir, plotNeedSize);
    && dest.Some? && archive.destPath == dest.value.mount
    && ArchiveFile(archive.fileFullPath, archive.destPath, snap.rsyncOk).Ok?
  }

  /** `archive` is the copy of the entry at its own listing position. */
  predicate Archived(watchDir: String, farmDir: String, files: seq<DirEntry>, world: seq<Snapshot>, plotNeedSize: int,
                     archive: Archive)
    requires |world| == |files|
  {
    archive.index < |files|
    && ArchivedFrom(watchDir, farmDir, files[archive.index], world[archive.index], plotNeedSize, archive)
  }

  /** Every archive of the list is the copy of the entry at its own position. */
  predicate AllArchived(watchDir: String, farmDir: String, files: seq<DirEntry>, world: seq<Snapshot>, plotNeedSize: int,
                        archived: seq<Archive>)
    requires |world| == |files|
  {
    forall j :: 0 <= j < |archived| ==> Archived(watchDir, farmDir, files, world, plotNeedSize, archived[j])
  }

  lemma AllArchivedSnoc(watchDir: String, farmDir: String, files: seq<DirEntry>, world: seq<Snapshot>, plotNeedSize: int,
                        archived: seq<Archive>, a: Archive)
    requires |world| == |files|
    requires AllArchived(watchDir, farmDir, files, world, plotNeedSize, archived)
    requires Archived(watchDir, farmDir, files, world, plotNeedSize, a)
    ensures AllArchived(watchDir, farmDir, files, world, plotNeedSize, archived + [a])
  {
    forall j | 0 <= j < |archived| + 1
      ensures Archived(watchDir, farmDir, files, world, plotNeedSize, (archived + [a])[j])
    {
      if j < |archived| {
        assert (archived + [a])[j] == archived[j];
      }
    }
  }

  /** Why the pass stopped at entry `i`, when `end` is a stop there. */
  predicate StopReason(e: DirEntry, i: nat, nowMs: int, snap: Snapshot, farmDir: String, plotSize: int, plotNeedSize: int,
                       end: PassEnd)
  {
    match end
    case StatThrew(at) => at == i && EndsWith(e.name, ".plot") && e.stat.None?
    case AllFull(at) =>
      at == i && IsReadyPlot(e, nowMs, plotSize) && SelectDestPart(snap.devices, snap.spaces, farmDir, plotNeedSize).None?
    case ArchiveFailed(at) =>
      && at == i && IsReadyPlot(e, nowMs, plotSize)
      && SelectDestPart(snap.devices, snap.spaces, farmDir, plotNeedSize).Some? && !snap.rsyncOk
    case _ => false
  }

  /** A stop names an entry of the listing and the reason found there; the other ends need none. */
  predicate EndJustified(files: seq<DirEntry>, clock: seq<int>, world: seq<Snapshot>, farmDir: String, plotSize: int,
                         plotNeedSize: int, end: PassEnd)
    requires |clock| == |files| && |world| == |files|
  {
    match end
    case StatThrew(at) => at < |files| && StopReason(files[at], at, clock[at], world[at], farmDir, plotSize, plotNeedSize, end)
    case AllFull(at) => at < |files| && StopReason(files[at], at, clock[at], world[at], farmDir, plotSize, plotNeedSize, end)
    case ArchiveFailed(at) =>
      at < |files| && StopReason(files[at], at, clock[at], world[at], farmDir, plotSize, plotNeedSize, end)
    case _ => true
  }

  /** No `.plot` entry among the first `k` has a failing stat: `statSync` is not guarded, so one would have ended the pass. */
  predicate StatsHeld(files: seq<DirEntry>, k: nat)
    requires k <= |files|
  {
    forall j :: 0 <= j < k ==> !(EndsWith(files[j].name, ".plot") && files[j].stat.None?)
  }

  lemma StatsHeldSnoc(files: seq<DirEntry>, k: nat)
    requires k < |files| && StatsHeld(files, k)
    requires !(EndsWith(files[k].name, ".plot") && files[k].stat.None?)
    ensures StatsHeld(files, k + 1)
  {
  }

  /** What one iteration of the `for` body does with its entry. */
  datatype Visit = Passed | Stopped(end: PassEnd) | Copied(archive: Archive)

  /**
   * The body of the `for` loop for entry `i`: names without the `.plot`
   * suffix and plots held back by a gate are passed over; a failing stat, a
   * missing destination and a failing copy stop the pass; a ready plot with
   * room is copied.
   */
  method VisitEntry(watchDir: String, farmDir: String, e: DirEntry, i: nat, nowMs: int, snap: Snapshot,
                    plotSize: int, plotNeedSize: int) returns (v: Visit)
    ensures v.Passed? <==> !IsReadyPlot(e, nowMs, plotSize) && !(EndsWith(e.name, ".plot") && e.stat.None?)
    ensures v.Copied? ==> IsReadyPlot(e, nowMs, plotSize) && v.archive.index == i && ArchivedFrom(watchDir, farmDir, e, snap, plotNeedSize, v.archive)
    ensures v.Stopped? ==> StopReason(e, i, nowMs, snap, farmDir, plotSize, plotNeedSize, v.end)
  {
    var fileFullPath := PathJoin(watchDir, e.name);
    PlotPathIffName(watchDir, e.name);
    if !IsPlotPath(fileFullPath) {
      return Passed;
    }
    if e.stat.None? {
      return Stopped(StatThrew(i));
    }
    if GateOf(e.stat.value, nowMs, plotSize) != Ready {
      return Passed;
    }
    var selected := SelectDestPart(snap.devices, snap.spaces, farmDir, plotNeedSize);
    if selected.None? {
      return Stopped(AllFull(i));
    }
    var outcome := ArchiveFile(fileFullPath, selected.value.mount, snap.rsyncOk);
    if outcome.Err? {
      return Stopped(ArchiveFailed(i));
    }
    v := Copied(Archive(i, fileFullPath, selected.value.mount));
  }

  /**
   * The `for` loop of `runLoop` over a non-empty listing: it archives exactly
   * the ready plots before the point where it stops, in listing order, each
   * to the destination chosen for it, and says why it stopped.
   */
  method ArchiveEach(watchDir: String, farmDir: String, files: seq<DirEntry>, clock: seq<int>, world: seq<Snapshot>,
                     plotSize: int, plotNeedSize: int)
    returns (archived: seq<Archive>, end: PassEnd)
    requires |clock| == |files| && |world| == |files|
    ensures end.Finished? || end.AllFull? || end.StatThrew? || end.ArchiveFailed?
    ensures Reached(end, |files|) <= |files|
    ensures Indices(archived) == ReadyIndices(files, clock, plotSize, Reached(end, |files|))
    ensures AllArchived(watchDir, farmDir, files, world, plotNeedSize, archived)
    ensures EndJustified(files, clock, world, farmDir, plotSize, plotNeedSize, end)
    ensures StatsHeld(files, Reached(end, |files|))
  {
    archived := [];
    var i := 0;
    while i < |files|
      invariant 0 <= i <= |files|
      invariant Indices(archived) == ReadyIndices(files, clock, plotSize, i)
      invariant AllArchived(watchDir, farmDir, files, world, plotNeedSize, archived)
      invariant StatsHeld(files, i)
    {
      var v := VisitEntry(watchDir, farmDir, files[i], i, clock[i], world[i], plotSize, plotNeedSize);
      match v {
        case Stopped(how) =>
          return archived, how;
        case Copied(a) =>
          ReadyStep(files, clock, plotSize, i);
          IndicesSnoc(archived, a);
          AllArchivedSnoc(watchDir, farmDir, files, world, plotNeedSize, archived, a);
          StatsHeldSnoc(files, i);
          archived := archived + [a];
        case Passed =>
          ReadyStep(files, clock, plotSize, i);
          StatsHeldSnoc(files, i);
      }
      i := i + 1;
    }
    end := Finished;
  }

  /**
   * `runLoop({watchDir, farmDir, ...extraOpts})`: one pass. A missing watch
   * directory or an empty listing ends it before any file is looked at;
   * otherwise the loop runs over the listing.
   */
  method RunPass(watchDir: String, farmDir: String, watchDirExists: bool, files: seq<DirEntry>, clock: seq<int>,
                 world: seq<Snapshot>, plotSize: int, plotNeedSize: int)
    returns (archived: seq<Archive>, end: PassEnd)
    requires |clock| == |files| && |world| == |files|
    ensures !watchDirExists ==> archived == [] && end == NoWatchDir
    ensures watchDirExists && files == [] ==> archived == [] && end == EmptyListing
    ensures watchDirExists && files != [] ==> end.Finished? || end.AllFull? || end.StatThrew? || end.ArchiveFailed?
    ensures Reached(end, |files|) <= |files|
    ensures Indices(archived) == ReadyIndices(files, clock, plotSize, Reached(end, |files|))
    ensures AllArchived(watchDir, farmDir, files, world, plotNeedSize, archived)
    ensures EndJustified(files, clock, world, farmDir, plotSize, plotNeedSize, end)
    ensures StatsHeld(files, Reached(end, |files|))
  {
    if !watchDirExists {
      return [], NoWatchDir;
    }
    if |files| == 0 {
      return [], EmptyListing;
    }
    archived, end := ArchiveEach(watchDir, farmDir, files, clock, world, plotSize, plotNeedSize);
  }

  /**
   * A pass that stops early has archived a prefix of what a pass through the
   * whole listing, under the same answers, would archive.
   */
  lemma StoppedPassIsPrefix(files: seq<DirEntry>, clock: seq<int>, plotSize: int, archived: seq<Archive>, end: PassEnd)
    requires |clock| == |files| && Reached(end, |files|) <= |files|
    requires Indices(archived) == ReadyIndices(files, clock, plotSize, Reached(end, |files|))
    ensures var all := ReadyIndices(files, clock, plotSize, |files|);
      |archived| <= |all| && Indices(archived) == all[..|archived|]
  {
    ReadyIndicesPrefix(files, clock, plotSize, Reached(end, |files|), |files|);
  }
}
