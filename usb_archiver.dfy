/**
 * services/usb-archiver/usb-archiver.js: the configuration step and the poll
 * loop that offers ready plot files to the copy-task manager.
 *
 * The command line enters as an `Argv` record of the values yargs hands
 * over, the file system as the set of existing paths, the directory listing
 * with one optional stat per name, and the clock as one reading per entry.
 */
module UsbArchiver {
  import opened Text
  import opened Cli
  import opened Misc
  import opened Readiness
  import opened CopyTasks

  const DefaultPlotSize: int := 108_100_000_000
  const DefaultPlotNeedSize: int := 109_100_000_000
  const DefaultRunLoopInterval: int := 3000
  const DefaultConcurrentJobs: int := 3

  /** A destination needs a full plot's worth of room and a margin on top. */
  lemma DefaultNeedExceedsPlot()
    ensures DefaultPlotNeedSize - DefaultPlotSize == 1_000_000_000
  {
  }

  // ------------------------------------------------------------ getConfig

  datatype Argv = Argv(
    watchdir: ArgValue,
    farmdir: ArgValue,
    printDiskInfo: ArgValue,
    printUsbInfo: ArgValue,
    printUdevInfo: ArgValue,
    printDiskUsbAssign: ArgValue)

  datatype RunConfig = RunConfig(
    watchDir: String,
    farmDir: String,
    dryRun: bool,
    printDiskInfo: bool,
    printUsbInfo: bool,
    printUdevInfo: bool,
    printDiskUsbAssign: bool,
    plotSize: int,
    plotNeedSize: int,
    runLoopInterval: int,
    concurrentJobs: int)

  /**
   * `getConfig()`. Each `panic` ends the process with its message; the first
   * one reached wins. The print flags are tried in a fixed order and only
   * the first set one is recorded, together with `dryRun`; the numeric
   * settings keep their defaults, since the command line sets no key that
   * overrides them.
   */
  method GetConfig(argv: Argv, existing: set<String>) returns (r: Result<RunConfig>)
    ensures !Truthy(argv.watchdir) ==> r == Err("watchdir is not defined.")
    ensures Truthy(argv.watchdir) && !Truthy(argv.farmdir) ==> r == Err("farmdir is not defined.")
    ensures Truthy(argv.watchdir) && Truthy(argv.farmdir) && !HasDir(argv.watchdir, existing) ==>
      r == Err("watchdir is not a directory or not existed")
    ensures Truthy(argv.watchdir) && Truthy(argv.farmdir) && HasDir(argv.watchdir, existing) && !HasDir(argv.farmdir, existing)
      ==> r == Err("dest is not a directory or not existed")
    ensures r.Ok? <==>
      Truthy(argv.watchdir) && Truthy(argv.farmdir) && HasDir(argv.watchdir, existing) && HasDir(argv.farmdir, existing)
    ensures r.Ok? ==> r.value.watchDir == argv.watchdir.s && r.value.farmDir == argv.farmdir.s
    ensures r.Ok? ==> r.value.plotSize == DefaultPlotSize && r.value.plotNeedSize == DefaultPlotNeedSize
    ensures r.Ok? ==> r.value.runLoopInterval == DefaultRunLoopInterval && r.value.concurrentJobs == DefaultConcurrentJobs
    ensures r.Ok? ==> (r.value.dryRun <==>
      Truthy(argv.printDiskInfo) || Truthy(argv.printUsbInfo) || Truthy(argv.printUdevInfo) || Truthy(argv.printDiskUsbAssign))
    ensures r.Ok? ==> (r.value.printDiskInfo <==> Truthy(argv.printDiskInfo))
    ensures r.Ok? ==> (r.value.printUsbInfo <==> !Truthy(argv.printDiskInfo) && Truthy(argv.printUsbInfo))
    ensures r.Ok? ==> (r.value.printUdevInfo <==>
      !Truthy(argv.printDiskInfo) && !Truthy(argv.printUsbInfo) && Truthy(argv.printUdevInfo))
    ensures r.Ok? ==> (r.value.printDiskUsbAssign <==>
      !Truthy(argv.printDiskInfo) && !Truthy(argv.printUsbInfo) && !Truthy(argv.printUdevInfo) &&
      Truthy(argv.printDiskUsbAssign))
    ensures r.Ok? ==> ModeCount(r.value) == if r.value.dryRun then 1 else 0
  {
    if !Truthy(argv.watchdir) {
      return Err("watchdir is not defined.");
    }
    if !Truthy(argv.farmdir) {
      return Err("farmdir is not defined.");
    }
    if !HasDir(argv.watchdir, existing) {
      return Err("watchdir is not a directory or not existed");
    }
    if !HasDir(argv.farmdir, existing) {
      return Err("dest is not a directory or not existed");
    }
    var config := RunConfig(argv.watchdir.s, argv.farmdir.s, false, false, false, false, false,
                            DefaultPlotSize, DefaultPlotNeedSize, DefaultRunLoopInterval, DefaultConcurrentJobs);
    if Truthy(argv.printDiskInfo) {
      config := config.(dryRun := true, printDiskInfo := true);
    } else if Truthy(argv.printUsbInfo) {
      config := config.(dryRun := true, printUsbInfo := true);
    } else if Truthy(argv.printUdevInfo) {
      config := config.(dryRun := true, printUdevInfo := true);
    } else if Truthy(argv.printDiskUsbAssign) {
      config := config.(dryRun := true, printDiskUsbAssign := true);
    }
    r := Ok(config);
  }

  /** How many print modes a configuration records. */
  function ModeCount(c: RunConfig): nat {
    (if c.printDiskInfo then 1 else 0) + (if c.printUsbInfo then 1 else 0) +
    (if c.printUdevInfo then 1 else 0) + (if c.printDiskUsbAssign then 1 else 0)
  }

  // ------------------------------------------------------------ runLoop

  /** What the loop body makes of one entry before consulting the manager. */
  datatype Screening = NotPlot | StatFailed | HeldBack(gate: Gate) | Candidate

  /**
   * The `.plot` suffix, then `statSync` (a throw is caught by the loop's
   * `catch`), then the size and age gates.
   */
  function Screen(watchDir: String, e: DirEntry, nowMs: int, plotSize: int): (s: Screening)
    ensures s == NotPlot <==> !EndsWith(e.name, ".plot")
    ensures s == StatFailed <==> EndsWith(e.name, ".plot") && e.stat.None?
    ensures s == Candidate <==> EndsWith(e.name, ".plot") && e.stat.Some? && GateOf(e.stat.value, nowMs, plotSize) == Ready
  {
    PlotPathIffName(watchDir, e.name);
    var path := PathJoin(watchDir, e.name);
    if !IsPlotPath(path) then NotPlot
    else if e.stat.None? then StatFailed
    else
      var g := GateOf(e.stat.value, nowMs, plotSize);
      if g == Ready then Candidate else HeldBack(g)
  }

  /** The fate of one entry in a pass. */
  datatype Step = Skipped(why: Screening) | Declined | Started

  /** A step is a skip, with its reason, exactly when the entry is no candidate. */
  predicate StepAgrees(watchDir: String, e: DirEntry, nowMs: int, plotSize: int, step: Step) {
    var s := Screen(watchDir, e, nowMs, plotSize);
    (step.Skipped? <==> s != Candidate) && (step.Skipped? ==> step.why == s)
  }

  /** Each of the first `|steps|` entries got the step its screening calls for. */
  predicate AllAgree(watchDir: String, files: seq<DirEntry>, clock: seq<int>, plotSize: int, steps: seq<Step>)
    requires |steps| <= |files| && |clock| == |files|
  {
    forall j :: 0 <= j < |steps| ==> StepAgrees(watchDir, files[j], clock[j], plotSize, steps[j])
  }

  lemma AllAgreeSnoc(watchDir: String, files: seq<DirEntry>, clock: seq<int>, plotSize: int, steps: seq<Step>, step: Step)
    requires |steps| < |files| && |clock| == |files|
    requires AllAgree(watchDir, files, clock, plotSize, steps)
    requires StepAgrees(watchDir, files[|steps|], clock[|steps|], plotSize, step)
    ensures AllAgree(watchDir, files, clock, plotSize, steps + [step])
  {
    forall j | 0 <= j < |steps| + 1
      ensures StepAgrees(watchDir, files[j], clock[j], plotSize, (steps + [step])[j])
    {
      if j < |steps| {
        assert (steps + [step])[j] == steps[j];
      }
    }
  }

  /**
   * Entry `e`, meeting the task table `ts`, is started exactly when it is a
   * candidate, some idle bus has a writable candidate partition and its path
   * keys no running task.
   */
  predicate StepDecided(watchDir: String, e: DirEntry, nowMs: int, plotSize: int, dm: seq<BusGroup>,
                        spaces: seq<FsInfo>, writable: set<String>, farmDir: String, need: int,
                        ts: map<String, CopyTask>, step: Step)
  {
    step == Started <==>
      && Screen(watchDir, e, nowMs, plotSize) == Candidate
      && HasWritableDest(dm, ts, spaces, writable, farmDir, need)
      && PathJoin(watchDir, e.name) !in ts
  }

  /**
   * Each of the first `|steps|` entries was decided against the task table
   * `seen[j]` it met; `seen` holds one table more, the one left after the last step.
   */
  predicate Decided(watchDir: String, files: seq<DirEntry>, clock: seq<int>, plotSize: int, dm: seq<BusGroup>,
                    spaces: seq<FsInfo>, writable: set<String>, farmDir: String, need: int,
                    steps: seq<Step>, seen: seq<map<String, CopyTask>>)
    requires |steps| <= |files| && |clock| == |files| && |seen| == |steps| + 1
    decreases |steps|
  {
    var n := |steps|;
    n == 0 ||
      (&& Decided(watchDir, files, clock, plotSize, dm, spaces, writable, farmDir, need, steps[..n - 1], seen[..n])
       && StepDecided(watchDir, files[n - 1], clock[n - 1], plotSize, dm, spaces, writable, farmDir, need,
                      seen[n - 1], steps[n - 1]))
  }

  /** A decision carries over to equal arguments. */
  lemma StepDecidedEqual(watchDir: String, e: DirEntry, nowMs: int, plotSize: int, dm: seq<BusGroup>,
                         spaces: seq<FsInfo>, writable: set<String>, farmDir: String, need: int,
                         ts: map<String, CopyTask>, step: Step, e': DirEntry, nowMs': int, ts': map<String, CopyTask>,
                         step': Step)
    requires StepDecided(watchDir, e, nowMs, plotSize, dm, spaces, writable, farmDir, need, ts, step)
    requires e' == e && nowMs' == nowMs && ts' == ts && step' == step
    ensures StepDecided(watchDir, e', nowMs', plotSize, dm, spaces, writable, farmDir, need, ts', step')
  {
  }

  /** A record of decisions holds for each of its prefixes. */
  lemma {:induction false} DecidedPrefix(watchDir: String, files: seq<DirEntry>, clock: seq<int>, plotSize: int,
                                         dm: seq<BusGroup>, spaces: seq<FsInfo>, writable: set<String>, farmDir: String,
                                         need: int, steps: seq<Step>, seen: seq<map<String, CopyTask>>, k: nat)
    requires |steps| <= |files| && |clock| == |files| && |seen| == |steps| + 1
    requires Decided(watchDir, files, clock, plotSize, dm, spaces, writable, farmDir, need, steps, seen)
    requires k <= |steps|
    ensures Decided(watchDir, files, clock, plotSize, dm, spaces, writable, farmDir, need, steps[..k], seen[..k + 1])
    decreases |steps|
  {
    var n := |steps|;
    if k == n {
      assert steps[..k] == steps && seen[..k + 1] == seen;
    } else {
      DecidedPrefix(watchDir, files, clock, plotSize, dm, spaces, writable, farmDir, need, steps[..n - 1], seen[..n], k);
      assert steps[..n - 1][..k] == steps[..k] && seen[..n][..k + 1] == seen[..k + 1];
    }
  }

  /** The record of decisions spelled out entry by entry. */
  lemma DecidedEach(watchDir: String, files: seq<DirEntry>, clock: seq<int>, plotSize: int,
                    dm: seq<BusGroup>, spaces: seq<FsInfo>, writable: set<String>, farmDir: String,
                    need: int, steps: seq<Step>, seen: seq<map<String, CopyTask>>, j: nat)
    requires |steps| <= |files| && |clock| == |files| && |seen| == |steps| + 1
    requires Decided(watchDir, files, clock, plotSize, dm, spaces, writable, farmDir, need, steps, seen)
    requires j < |steps|
    ensures StepDecided(watchDir, files[j], clock[j], plotSize, dm, spaces, writable, farmDir, need, seen[j], steps[j])
  {
    DecidedPrefix(watchDir, files, clock, plotSize, dm, spaces, writable, farmDir, need, steps, seen, j + 1);
    var front, past := steps[..j + 1], seen[..j + 2];
    StepDecidedEqual(watchDir, files[j], clock[j], plotSize, dm, spaces, writable, farmDir, need, past[j], front[j],
                     files[j], clock[j], seen[j], steps[j]);
  }

  lemma {:induction false} DecidedSnoc(watchDir: String, files: seq<DirEntry>, clock: seq<int>, plotSize: int,
                                       dm: seq<BusGroup>, spaces: seq<FsInfo>, writable: set<String>, farmDir: String,
                                       need: int, steps: seq<Step>, seen: seq<map<String, CopyTask>>, step: Step,
                                       next: map<String, CopyTask>)
    requires |steps| < |files| && |clock| == |files| && |seen| == |steps| + 1
    requires Decided(watchDir, files, clock, plotSize, dm, spaces, writable, farmDir, need, steps, seen)
    requires StepDecided(watchDir, files[|steps|], clock[|steps|], plotSize, dm, spaces, writable, farmDir, need,
                         seen[|steps|], step)
    ensures Decided(watchDir, files, clock, plotSize, dm, spaces, writable, farmDir, need, steps + [step], seen + [next])
  {
    var steps', seen' := steps + [step], seen + [next];
    assert steps'[..|steps|] == steps && seen'[..|steps| + 1] == seen;
    assert steps'[|steps|] == step && seen'[|steps|] == seen[|steps|];
  }

  /** The change one step makes to the task table: a start adds or replaces the entry's own key only. */
  predicate TableMove(before: map<String, CopyTask>, after: map<String, CopyTask>, path: String, step: Step) {
    if step == Started then path in after && after == before[path := after[path]] else after == before
  }

  /** Between consecutive tables of `seen`, only the step in between changed anything. */
  predicate Moves(watchDir: String, files: seq<DirEntry>, steps: seq<Step>, seen: seq<map<String, CopyTask>>)
    requires |steps| <= |files| && |seen| == |steps| + 1
  {
    forall j :: 0 <= j < |steps| ==> TableMove(seen[j], seen[j + 1], PathJoin(watchDir, files[j].name), steps[j])
  }

  lemma {:induction false} MovesSnoc(watchDir: String, files: seq<DirEntry>, steps: seq<Step>, seen: seq<map<String, CopyTask>>,
                  step: Step, next: map<String, CopyTask>)
    requires |steps| < |files| && |seen| == |steps| + 1
    requires Moves(watchDir, files, steps, seen)
    requires TableMove(seen[|steps|], next, PathJoin(watchDir, files[|steps|].name), step)
    ensures Moves(watchDir, files, steps + [step], seen + [next])
  {
    var steps', seen' := steps + [step], seen + [next];
    forall j | 0 <= j < |steps'|
      ensures TableMove(seen'[j], seen'[j + 1], PathJoin(watchDir, files[j].name), steps'[j])
    {
      assert steps'[j] == if j < |steps| then steps[j] else step;
      assert seen'[j] == seen[j];
      assert seen'[j + 1] == if j < |steps| then seen[j + 1] else next;
    }
  }

  /** Every key of `after` was in `before` or is the path of a started entry among the first `|steps|`. */
  predicate OnlyStartedAdded(watchDir: String, files: seq<DirEntry>, steps: seq<Step>,
                             before: map<String, CopyTask>, after: map<String, CopyTask>)
    requires |steps| <= |files|
  {
    forall k :: k in after ==>
      k in before || exists j :: 0 <= j < |steps| && steps[j] == Started && k == PathJoin(watchDir, files[j].name)
  }

  lemma OnlyStartedAddedSnoc(watchDir: String, files: seq<DirEntry>, steps: seq<Step>,
                             before: map<String, CopyTask>, mid: map<String, CopyTask>, after: map<String, CopyTask>,
                             step: Step)
    requires |steps| < |files|
    requires OnlyStartedAdded(watchDir, files, steps, before, mid)
    requires TableMove(mid, after, PathJoin(watchDir, files[|steps|].name), step)
    ensures OnlyStartedAdded(watchDir, files, steps + [step], before, after)
  {
    var steps' := steps + [step];
    forall k | k in after
      ensures k in before || exists j :: 0 <= j < |steps'| && steps'[j] == Started && k == PathJoin(watchDir, files[j].name)
    {
      if k in mid {
        if k !in before {
          var j :| 0 <= j < |steps| && steps[j] == Started && k == PathJoin(watchDir, files[j].name);
          assert steps'[j] == steps[j];
        }
      } else {
        assert step == Started && k == PathJoin(watchDir, files[|steps|].name);
        assert steps'[|steps|] == step;
      }
    }
  }

  /** `ts` holds a task under `path` that has a bus and a writable mount. */
  predicate HoldsWritableTask(ts: map<String, CopyTask>, path: String, writable: set<String>) {
    path in ts && ts[path].usbBus.Some? && ts[path].toPath.Some? && ts[path].toPath.value in writable
  }

  /** Every task of `before` is still in `after`, the same object under the same key. */
  predicate KeepsTasks(before: map<String, CopyTask>, after: map<String, CopyTask>) {
    forall k :: k in before ==> k in after && after[k] == before[k]
  }

  /** Every started entry among the first `|steps|` keys a task of `ts` with a bus and a writable mount. */
  predicate StartedHeld(watchDir: String, files: seq<DirEntry>, steps: seq<Step>, ts: map<String, CopyTask>,
                        writable: set<String>)
    requires |steps| <= |files|
  {
    forall j :: 0 <= j < |steps| && steps[j] == Started ==> HoldsWritableTask(ts, PathJoin(watchDir, files[j].name), writable)
  }

  /** Tasks that stay in place keep holding what they held. */
  lemma StartedHeldKept(watchDir: String, files: seq<DirEntry>, steps: seq<Step>, before: map<String, CopyTask>,
                        after: map<String, CopyTask>, writable: set<String>)
    requires |steps| <= |files|
    requires StartedHeld(watchDir, files, steps, before, writable) && KeepsTasks(before, after)
    ensures StartedHeld(watchDir, files, steps, after, writable)
  {
    forall j | 0 <= j < |steps| && steps[j] == Started
      ensures HoldsWritableTask(after, PathJoin(watchDir, files[j].name), writable)
    {
      assert HoldsWritableTask(before, PathJoin(watchDir, files[j].name), writable);
    }
  }

  /** A started entry appended to the steps holds its task too. */
  lemma StartedHeldSnoc(watchDir: String, files: seq<DirEntry>, steps: seq<Step>, ts: map<String, CopyTask>,
                        writable: set<String>, step: Step)
    requires |steps| < |files|
    requires StartedHeld(watchDir, files, steps, ts, writable)
    requires step == Started ==> HoldsWritableTask(ts, PathJoin(watchDir, files[|steps|].name), writable)
    ensures StartedHeld(watchDir, files, steps + [step], ts, writable)
  {
    forall j | 0 <= j < |steps| + 1 && (steps + [step])[j] == Started
      ensures HoldsWritableTask(ts, PathJoin(watchDir, files[j].name), writable)
    {
      if j < |steps| {
        assert (steps + [step])[j] == steps[j];
      }
    }
  }

  lemma KeepsTasksTransitive(a: map<String, CopyTask>, b: map<String, CopyTask>, c: map<String, CopyTask>)
    requires KeepsTasks(a, b) && KeepsTasks(b, c)
    ensures KeepsTasks(a, c)
  {
  }

  function CountStarted(steps: seq<Step>): (n: nat)
    ensures n <= |steps|
  {
    if steps == [] then 0
    else CountStarted(steps[..|steps| - 1]) + (if steps[|steps| - 1] == Started then 1 else 0)
  }

  /** The paths of the started entries among the first `|steps|`, in listing order. */
  function StartedPaths(watchDir: String, files: seq<DirEntry>, steps: seq<Step>): (r: seq<String>)
    requires |steps| <= |files|
    ensures |r| == CountStarted(steps)
  {
    if steps == [] then []
    else
      var n := |steps| - 1;
      StartedPaths(watchDir, files, steps[..n]) + (if steps[n] == Started then [PathJoin(watchDir, files[n].name)] else [])
  }

  /**
   * The task `after` keys under `path` was made with id `id` for that path and
   * placed on the bus and mount the intended lookup finds against `before`.
   */
  predicate Placed(before: map<String, CopyTask>, after: map<String, CopyTask>, path: String, id: int,
                   dm: seq<BusGroup>, spaces: seq<FsInfo>, writable: set<String>, farmDir: String, need: int)
  {
    && path in after
    && after[path].taskId == id && after[path].fromPath == path
    && var d := IntendedWriteDest(dm, before, spaces, writable, farmDir, need);
       d.Some? && after[path].usbBus == d.value.usbBus && after[path].toPath == d.value.writeDest
  }

  /**
   * Every started entry among the first `|steps|` was placed against the
   * table it met, with the id the counter had reached: `id0` plus the starts before it.
   */
  predicate Placements(watchDir: String, files: seq<DirEntry>, steps: seq<Step>, seen: seq<map<String, CopyTask>>,
                       id0: int, dm: seq<BusGroup>, spaces: seq<FsInfo>, writable: set<String>, farmDir: String, need: int)
    requires |steps| <= |files| && |seen| == |steps| + 1
  {
    forall j :: 0 <= j < |steps| && steps[j] == Started ==>
      Placed(seen[j], seen[j + 1], PathJoin(watchDir, files[j].name), id0 + CountStarted(steps[..j]),
             dm, spaces, writable, farmDir, need)
  }

  lemma {:induction false} PlacementsSnoc(watchDir: String, files: seq<DirEntry>, steps: seq<Step>,
                                          seen: seq<map<String, CopyTask>>, id0: int, dm: seq<BusGroup>,
                                          spaces: seq<FsInfo>, writable: set<String>, farmDir: String, need: int,
                                          step: Step, next: map<String, CopyTask>)
    requires |steps| < |files| && |seen| == |steps| + 1
    requires Placements(watchDir, files, steps, seen, id0, dm, spaces, writable, farmDir, need)
    requires step == Started ==>
      Placed(seen[|steps|], next, PathJoin(watchDir, files[|steps|].name), id0 + CountStarted(steps),
             dm, spaces, writable, farmDir, need)
    ensures Placements(watchDir, files, steps + [step], seen + [next], id0, dm, spaces, writable, farmDir, need)
  {
    var steps', seen' := steps + [step], seen + [next];
    forall j | 0 <= j < |steps'| && steps'[j] == Started
      ensures Placed(seen'[j], seen'[j + 1], PathJoin(watchDir, files[j].name), id0 + CountStarted(steps'[..j]),
                     dm, spaces, writable, farmDir, need)
    {
      assert steps'[..j] == steps[..j];
      assert seen'[j] == seen[j];
      if j < |steps| {
        assert steps'[j] == steps[j];
        assert seen'[j + 1] == seen[j + 1];
      } else {
        assert steps[..j] == steps;
        assert seen'[j + 1] == next;
      }
    }
  }

  /**
   * The admission step for a ready file: `canHandleFile` first, and
   * `startTask` only when it answered true; the started task then holds a
   * bus and a writable mount.
   */
  method Offer(m: CopyTaskManager, path: String, spaces: seq<FsInfo>, writable: set<String>) returns (started: bool)
    requires m.Valid()
    modifies m`tasks, m`order, m`taskId
    ensures m.Valid()
    ensures started <==>
      HasWritableDest(m.diskMapping, old(m.tasks), spaces, writable, m.farmDir, m.plotNeedSize) && path !in old(m.tasks)
    ensures !started ==> m.tasks == old(m.tasks) && m.order == old(m.order) && m.taskId == old(m.taskId)
    ensures started ==> HoldsWritableTask(m.tasks, path, writable)
    ensures started ==> m.tasks == old(m.tasks)[path := m.tasks[path]] && m.taskId == old(m.taskId) + 1
    ensures started ==> m.order == old(m.order) + [path]
    ensures started ==>
      Placed(old(m.tasks), m.tasks, path, old(m.taskId), m.diskMapping, spaces, writable, m.farmDir, m.plotNeedSize)
  {
    var ok := m.CanHandleFileIntended(path, spaces, writable);
    if !ok {
      return false;
    }
    HasWritableDestIff(m.diskMapping, m.tasks, spaces, writable, m.farmDir, m.plotNeedSize);
    started := m.StartTaskIntended(path, spaces, writable);
  }

  /** What one handled entry adds to the record of decisions: the entry was screened and admitted as `runLoop` does. */
  lemma {:induction false} AdvanceDecisions(watchDir: String, files: seq<DirEntry>, clock: seq<int>, plotSize: int,
                                            dm: seq<BusGroup>, spaces: seq<FsInfo>, writable: set<String>, farmDir: String,
                                            need: int, steps: seq<Step>, seen: seq<map<String, CopyTask>>,
                                            after: map<String, CopyTask>, step: Step)
    requires |steps| < |files| && |clock| == |files| && |seen| == |steps| + 1
    requires AllAgree(watchDir, files, clock, plotSize, steps)
    requires Decided(watchDir, files, clock, plotSize, dm, spaces, writable, farmDir, need, steps, seen)
    requires StepAgrees(watchDir, files[|steps|], clock[|steps|], plotSize, step)
    requires StepDecided(watchDir, files[|steps|], clock[|steps|], plotSize, dm, spaces, writable, farmDir, need,
                         seen[|steps|], step)
    ensures AllAgree(watchDir, files, clock, plotSize, steps + [step])
    ensures Decided(watchDir, files, clock, plotSize, dm, spaces, writable, farmDir, need, steps + [step], seen + [after])
    ensures CountStarted(steps + [step]) == CountStarted(steps) + if step == Started then 1 else 0
    ensures StartedPaths(watchDir, files, steps + [step]) ==
      StartedPaths(watchDir, files, steps) + if step == Started then [PathJoin(watchDir, files[|steps|].name)] else []
  {
    AllAgreeSnoc(watchDir, files, clock, plotSize, steps, step);
    DecidedSnoc(watchDir, files, clock, plotSize, dm, spaces, writable, farmDir, need, steps, seen, step, after);
    assert (steps + [step])[..|steps|] == steps;
  }

  /** What one handled entry does to the task table: only a start adds a key, and nothing already held is lost. */
  lemma {:induction false} AdvanceTables(watchDir: String, files: seq<DirEntry>, writable: set<String>,
                                         origin: map<String, CopyTask>, steps: seq<Step>, seen: seq<map<String, CopyTask>>,
                                         after: map<String, CopyTask>, step: Step)
    requires |steps| < |files| && |seen| == |steps| + 1
    requires Moves(watchDir, files, steps, seen)
    requires StartedHeld(watchDir, files, steps, seen[|steps|], writable)
    requires KeepsTasks(origin, seen[|steps|])
    requires OnlyStartedAdded(watchDir, files, steps, origin, seen[|steps|])
    requires step != Started ==> after == seen[|steps|]
    requires step == Started ==> var path := PathJoin(watchDir, files[|steps|].name);
      && path !in seen[|steps|] && HoldsWritableTask(after, path, writable)
      && after == seen[|steps|][path := after[path]]
    ensures Moves(watchDir, files, steps + [step], seen + [after])
    ensures StartedHeld(watchDir, files, steps + [step], after, writable)
    ensures KeepsTasks(origin, after)
    ensures OnlyStartedAdded(watchDir, files, steps + [step], origin, after)
  {
    var before := seen[|steps|];
    assert KeepsTasks(before, after);
    KeepsTasksTransitive(origin, before, after);
    StartedHeldKept(watchDir, files, steps, before, after, writable);
    StartedHeldSnoc(watchDir, files, steps, after, writable, step);
    MovesSnoc(watchDir, files, steps, seen, step, after);
    OnlyStartedAddedSnoc(watchDir, files, steps, origin, before, after, step);
  }

  /** Appending to a list that extends `origin` by `added` extends `origin` by `added + tail`. */
  lemma AppendAfter(origin: seq<String>, mid: seq<String>, last: seq<String>, added: seq<String>, tail: seq<String>)
    requires mid == origin + added && last == mid + tail
    ensures last == origin + (added + tail)
  {
  }

  /**
   * What `runLoop` has done after handling the first `|steps|` entries,
   * starting from the table `origin`, the key order `order0` and the
   * counter `id0`, and now holding `tasks`, `order` and `taskId`.
   */
  ghost predicate Progress(watchDir: String, files: seq<DirEntry>, clock: seq<int>, plotSize: int, dm: seq<BusGroup>,
                           spaces: seq<FsInfo>, writable: set<String>, farmDir: String, need: int,
                           origin: map<String, CopyTask>, order0: seq<String>, id0: int, steps: seq<Step>,
                           seen: seq<map<String, CopyTask>>, tasks: map<String, CopyTask>, order: seq<String>, taskId: int)
    requires |clock| == |files|
  {
    && |steps| <= |files| && |seen| == |steps| + 1 && seen[0] == origin && seen[|steps|] == tasks
    && AllAgree(watchDir, files, clock, plotSize, steps)
    && Decided(watchDir, files, clock, plotSize, dm, spaces, writable, farmDir, need, steps, seen)
    && Moves(watchDir, files, steps, seen)
    && StartedHeld(watchDir, files, steps, tasks, writable)
    && KeepsTasks(origin, tasks)
    && OnlyStartedAdded(watchDir, files, steps, origin, tasks)
    && taskId == id0 + CountStarted(steps)
    && order == order0 + StartedPaths(watchDir, files, steps)
    && Placements(watchDir, files, steps, seen, id0, dm, spaces, writable, farmDir, need)
  }

  /** Handling one more entry, as `HandleFile` does, extends the progress by that entry. */
  lemma {:induction false} Advance(watchDir: String, files: seq<DirEntry>, clock: seq<int>, plotSize: int,
                                   dm: seq<BusGroup>, spaces: seq<FsInfo>, writable: set<String>, farmDir: String,
                                   need: int, origin: map<String, CopyTask>, order0: seq<String>, id0: int,
                                   steps: seq<Step>, seen: seq<map<String, CopyTask>>, tasks: map<String, CopyTask>,
                                   order: seq<String>, taskId: int, step: Step, tasks': map<String, CopyTask>,
                                   order': seq<String>, taskId': int)
    requires |clock| == |files|
    requires Progress(watchDir, files, clock, plotSize, dm, spaces, writable, farmDir, need, origin, order0, id0,
                      steps, seen, tasks, order, taskId)
    requires |steps| < |files|
    requires StepAgrees(watchDir, files[|steps|], clock[|steps|], plotSize, step)
    requires StepDecided(watchDir, files[|steps|], clock[|steps|], plotSize, dm, spaces, writable, farmDir, need,
                         tasks, step)
    requires step != Started ==> tasks' == tasks && order' == order && taskId' == taskId
    requires step == Started ==> var path := PathJoin(watchDir, files[|steps|].name);
      && path !in tasks && HoldsWritableTask(tasks', path, writable)
      && tasks' == tasks[path := tasks'[path]] && taskId' == taskId + 1
      && order' == order + [path]
      && Placed(tasks, tasks', path, taskId, dm, spaces, writable, farmDir, need)
    ensures Progress(watchDir, files, clock, plotSize, dm, spaces, writable, farmDir, need, origin, order0, id0,
                     steps + [step], seen + [tasks'], tasks', order', taskId')
  {
    AdvanceDecisions(watchDir, files, clock, plotSize, dm, spaces, writable, farmDir, need, steps, seen, tasks', step);
    AdvanceTables(watchDir, files, writable, origin, steps, seen, tasks', step);
    PlacementsSnoc(watchDir, files, steps, seen, id0, dm, spaces, writable, farmDir, need, step, tasks');
    AppendAfter(order0, order, order', StartedPaths(watchDir, files, steps),
                if step == Started then [PathJoin(watchDir, files[|steps|].name)] else []);
  }

  /** One iteration of the `for` body: screening, then the admission step for a candidate. */
  method HandleFile(m: CopyTaskManager, watchDir: String, e: DirEntry, nowMs: int, plotSize: int,
                    spaces: seq<FsInfo>, writable: set<String>) returns (step: Step)
    requires m.Valid()
    modifies m`tasks, m`order, m`taskId
    ensures m.Valid()
    ensures StepAgrees(watchDir, e, nowMs, plotSize, step)
    ensures StepDecided(watchDir, e, nowMs, plotSize, m.diskMapping, spaces, writable, m.farmDir, m.plotNeedSize,
                        old(m.tasks), step)
    ensures step != Started ==> m.tasks == old(m.tasks) && m.order == old(m.order) && m.taskId == old(m.taskId)
    ensures step == Started ==> var path := PathJoin(watchDir, e.name);
      && path !in old(m.tasks) && HoldsWritableTask(m.tasks, path, writable)
      && m.tasks == old(m.tasks)[path := m.tasks[path]] && m.taskId == old(m.taskId) + 1
      && m.order == old(m.order) + [path]
      && Placed(old(m.tasks), m.tasks, path, old(m.taskId), m.diskMapping, spaces, writable, m.farmDir, m.plotNeedSize)
  {
    var s := Screen(watchDir, e, nowMs, plotSize);
    if s != Candidate {
      return Skipped(s);
    }
    var path := PathJoin(watchDir, e.name);
    var started := Offer(m, path, spaces, writable);
    step := if started then Started else Declined;
  }

  /**
   * `runLoop(...)`: nothing when the watch directory is missing; otherwise
   * every entry is handled in listing order, a failing `statSync` skipping
   * only its own entry. Tasks already running stay as they are, every
   * started file keys a task with a writable mount, and the counter moves
   * by the number of starts.
   */
  method RunLoop(m: CopyTaskManager, watchDir: String, watchDirExists: bool, files: seq<DirEntry>, clock: seq<int>,
                 plotSize: int, spaces: seq<FsInfo>, writable: set<String>)
    returns (steps: seq<Step>, ghost seen: seq<map<String, CopyTask>>)
    requires m.Valid()
    requires |clock| == |files|
    modifies m`tasks, m`order, m`taskId
    ensures m.Valid()
    ensures !watchDirExists ==> steps == [] && m.tasks == old(m.tasks) && m.order == old(m.order) && m.taskId == old(m.taskId)
    ensures watchDirExists ==> |steps| == |files|
    ensures |steps| <= |files| && AllAgree(watchDir, files, clock, plotSize, steps)
    ensures |seen| == |steps| + 1 && seen[0] == old(m.tasks) && seen[|steps|] == m.tasks
    ensures Decided(watchDir, files, clock, plotSize, m.diskMapping, spaces, writable, m.farmDir, m.plotNeedSize, steps, seen)
    ensures Moves(watchDir, files, steps, seen)
    ensures StartedHeld(watchDir, files, steps, m.tasks, writable)
    ensures KeepsTasks(old(m.tasks), m.tasks)
    ensures OnlyStartedAdded(watchDir, files, steps, old(m.tasks), m.tasks)
    ensures m.taskId == old(m.taskId) + CountStarted(steps)
    ensures m.order == old(m.order) + StartedPaths(watchDir, files, steps)
    ensures Placements(watchDir, files, steps, seen, old(m.taskId), m.diskMapping, spaces, writable, m.farmDir,
                       m.plotNeedSize)
  {
    steps := [];
    seen := [m.tasks];
    if !watchDirExists {
      return;
    }
    var dm, farmDir, need := m.diskMapping, m.farmDir, m.plotNeedSize;
    var i := 0;
    while i < |files|
      invariant 0 <= i <= |files| && |steps| == i
      invariant m.Valid()
      invariant Progress(watchDir, files, clock, plotSize, dm, spaces, writable, farmDir, need,
                         old(m.tasks), old(m.order), old(m.taskId), steps, seen, m.tasks, m.order, m.taskId)
    {
      ghost var order, taskId := m.order, m.taskId;
      var step := HandleFile(m, watchDir, files[i], clock[i], plotSize, spaces, writable);
      Advance(watchDir, files, clock, plotSize, dm, spaces, writable, farmDir, need,
              old(m.tasks), old(m.order), old(m.taskId), steps, seen, seen[i], order, taskId, step,
              m.tasks, m.order, m.taskId);
      steps := steps + [step];
      seen := seen + [m.tasks];
      i := i + 1;
    }
  }
}
