/**
 * services/mount/mount.js: mounts every disk image found in the scan
 * directory that `df` does not already list under the mount directory, or,
 * with `--umount`, lazily unmounts every one of them.
 *
 * `df`'s output is a string parameter, the scan directory's listing a
 * sequence, the directories that exist a set, and whether `mount`, `chown`
 * or `umount` throws for a disk the sets `mountFails`, `chownFails` and
 * `umountFails` of disk names.
 */
module Mount {
  import opened Text
  import opened Seqs
  import opened Cli
  import opened Misc

  // ------------------------------------------------------------ df parsing

  /** `_.last(line.split(' '))`: the text after the last space of the line. */
  function LastField(line: String): (r: String)
    ensures ' ' !in r
    ensures ' ' !in line ==> r == line
  {
    var fields := Split(line, ' ');
    assert ' ' !in line ==> fields == [line] by {
      if ' ' !in line {
        SplitNoSep(line, ' ');
      }
    }
    fields[|fields| - 1]
  }

  function LastFields(lines: seq<String>): (r: seq<String>)
    ensures |r| == |lines|
    ensures forall i :: 0 <= i < |r| ==> ' ' !in r[i]
  {
    if lines == [] then [] else [LastField(lines[0])] + LastFields(lines[1..])
  }

  /** `mountedPath`: every line of `df` after the header, cut down to its last space-separated field. */
  function MountedPaths(df: String): (r: seq<String>)
    ensures |r| == |Split(df, '\n')| - 1
    ensures forall i :: 0 <= i < |r| ==> ' ' !in r[i]
  {
    LastFields(Split(df, '\n')[1..])
  }

  /** A row of the `df` table: its columns, none holding a space or a line break; the mount point is the last. */
  predicate CleanRow(row: seq<String>) {
    |row| >= 1 && forall j :: 0 <= j < |row| ==> ' ' !in row[j] && '\n' !in row[j]
  }

  function RowLines(rows: seq<seq<String>>): (r: seq<String>)
    requires forall i :: 0 <= i < |rows| ==> CleanRow(rows[i])
    ensures |r| == |rows|
  {
    if rows == [] then [] else assert CleanRow(rows[0]); [Join(rows[0], ' ')] + RowLines(rows[1..])
  }

  function MountColumn(rows: seq<seq<String>>): (r: seq<String>)
    requires forall i :: 0 <= i < |rows| ==> CleanRow(rows[i])
    ensures |r| == |rows|
  {
    if rows == [] then [] else assert CleanRow(rows[0]); [rows[0][|rows[0]| - 1]] + MountColumn(rows[1..])
  }

  /** A character in none of the pieces, other than the separator, is not in their join. */
  lemma {:induction false} JoinAvoids(parts: seq<String>, sep: char, c: char)
    requires |parts| >= 1 && c != sep
    requires forall j :: 0 <= j < |parts| ==> c !in parts[j]
    ensures c !in Join(parts, sep)
  {
    if |parts| > 1 {
      JoinAvoids(parts[1..], sep, c);
    }
  }

  lemma {:induction false} LastFieldsOfRows(rows: seq<seq<String>>)
    requires forall i :: 0 <= i < |rows| ==> CleanRow(rows[i])
    ensures LastFields(RowLines(rows)) == MountColumn(rows)
  {
    if rows != [] {
      assert CleanRow(rows[0]);
      SplitJoin(rows[0], ' ');
      assert LastField(Join(rows[0], ' ')) == rows[0][|rows[0]| - 1];
      var lines := RowLines(rows);
      assert lines[0] == Join(rows[0], ' ') && lines[1..] == RowLines(rows[1..]);
      LastFieldsOfRows(rows[1..]);
    }
  }

  lemma {:induction false} RowLinesClean(rows: seq<seq<String>>)
    requires forall k :: 0 <= k < |rows| ==> CleanRow(rows[k])
    ensures forall i :: 0 <= i < |rows| ==> '\n' !in RowLines(rows)[i]
  {
    if rows != [] {
      assert CleanRow(rows[0]);
      JoinAvoids(rows[0], ' ', '\n');
      RowLinesClean(rows[1..]);
      forall i | 1 <= i < |rows| ensures '\n' !in RowLines(rows)[i] {
        assert RowLines(rows)[i] == RowLines(rows[1..])[i - 1];
      }
    }
  }

  /**
   * Reading a `df` table back: for a header line and rows whose columns hold
   * no space and no line break (runs of spaces between columns are empty
   * columns), `mountedPath` is the column of mount points.
   */
  lemma {:induction false} MountedPathsOfTable(header: String, rows: seq<seq<String>>)
    requires '\n' !in header
    requires forall i :: 0 <= i < |rows| ==> CleanRow(rows[i])
    ensures MountedPaths(Join([header] + RowLines(rows), '\n')) == MountColumn(rows)
  {
    var body := RowLines(rows);
    var lines := [header] + body;
    RowLinesClean(rows);
    assert forall i :: 0 <= i < |lines| ==> '\n' !in lines[i] by {
      forall i | 0 <= i < |lines| ensures '\n' !in lines[i] {
        if i > 0 {
          assert lines[i] == body[i - 1];
        }
      }
    }
    SplitJoin(lines, '\n');
    assert lines[1..] == body;
    LastFieldsOfRows(rows);
  }

  // ------------------------------------------------------------ planning

  /** `needMountDisks`: the listed disks whose mount point `df` does not show, in listing order. */
  function NeedMountDisks(mountDir: String, disks: seq<String>, mounted: seq<String>): (r: seq<String>)
    ensures forall i :: 0 <= i < |r| ==> r[i] in disks && PathJoin(mountDir, r[i]) !in mounted
    ensures forall i :: 0 <= i < |disks| && PathJoin(mountDir, disks[i]) !in mounted ==> disks[i] in r
  {
    Filter(disks, md => PathJoin(mountDir, md) !in mounted)
  }

  /** The plan keeps listing order: planning two halves of a listing plans the whole. */
  lemma NeedMountDisksConcat(mountDir: String, a: seq<String>, b: seq<String>, mounted: seq<String>)
    ensures NeedMountDisks(mountDir, a + b, mounted) == NeedMountDisks(mountDir, a, mounted) + NeedMountDisks(mountDir, b, mounted)
  {
    FilterConcat(a, b, md => PathJoin(mountDir, md) !in mounted);
  }

  /** Each unmounted disk is planned as often as it is listed, each mounted one never. */
  lemma NeedMountDisksCount(mountDir: String, disks: seq<String>, mounted: seq<String>, md: String)
    ensures multiset(NeedMountDisks(mountDir, disks, mounted))[md] ==
      if PathJoin(mountDir, md) in mounted then 0 else multiset(disks)[md]
  {
    FilterCount(disks, d => PathJoin(mountDir, d) !in mounted, md);
  }

  // ------------------------------------------------------------ commands

  /** `mount ${isReadOnly ? "-o ro" : ''} ${devPath} ${mntPath}` */
  function MountCommand(readOnly: bool, devPath: String, mntPath: String): (cmd: String)
    ensures readOnly ==> StartsWith(cmd, "mount -o ro " + devPath + " ")
    ensures !readOnly ==> StartsWith(cmd, "mount  " + devPath + " ")
    ensures EndsWith(cmd, " " + mntPath)
  {
    "mount " + (if readOnly then "-o ro" else "") + " " + devPath + " " + mntPath
  }

  /** `chown -R $(whoami):$(whoami) ${mntPath}` */
  function ChownCommand(mntPath: String): (cmd: String)
    ensures StartsWith(cmd, "chown -R ") && EndsWith(cmd, " " + mntPath)
  {
    "chown -R $(whoami):$(whoami) " + mntPath
  }

  /** `umount -l ${mntPath}` */
  function UnmountCommand(mntPath: String): (cmd: String)
    ensures StartsWith(cmd, "umount -l ") && EndsWith(cmd, " " + mntPath)
  {
    "umount -l " + mntPath
  }

  // ------------------------------------------------------------ configuration

  /** The arguments yargs hands over: the two directories as text when given, and the two switches. */
  datatype MountArgv = MountArgv(mountdir: Option<String>, scandir: Option<String>, readonly: ArgValue, umount: ArgValue)

  /** A directory argument that passes `if (!argv.x)`: present and not empty. */
  predicate Given(dir: Option<String>) {
    dir.Some? && dir.value != ""
  }

  datatype MountConfig = MountConfig(mountDir: String, scanDir: String, readOnly: bool, umount: bool)

  /** `getConfig()`: the first failing check's `panic` message, or the configuration with the switches made boolean. */
  method GetConfig(argv: MountArgv) returns (r: Result<MountConfig>)
    ensures !Given(argv.mountdir) ==> r == Err("mountdir is not defined.")
    ensures Given(argv.mountdir) && !Given(argv.scandir) ==> r == Err("scandir is not defined.")
    ensures r.Ok? <==> Given(argv.mountdir) && Given(argv.scandir)
    ensures r.Ok? ==> r.value.mountDir == argv.mountdir.value && r.value.scanDir == argv.scandir.value
    ensures r.Ok? ==> (r.value.readOnly <==> Truthy(argv.readonly)) && (r.value.umount <==> Truthy(argv.umount))
  {
    if !Given(argv.mountdir) {
      return Err("mountdir is not defined.");
    }
    if !Given(argv.scandir) {
      return Err("scandir is not defined.");
    }
    var config := MountConfig(argv.mountdir.value, argv.scandir.value, false, false);
    config := config.(readOnly := Truthy(argv.readonly));
    config := config.(umount := Truthy(argv.umount));
    r := Ok(config);
  }

  // ------------------------------------------------------------ mountAll / unmountAll

  /** How the `try` block for one disk ended. */
  datatype MountOutcome = Mounted | MountFailed | ChownFailed

  /** The commands run for one disk and how they ended. */
  datatype MountAttempt = MountAttempt(disk: String, commands: seq<String>, outcome: MountOutcome)

  /**
   * `a` is the attempt for disk `md`: `mount` always runs; `chown` runs only
   * when `mount` did not throw; the disk counts as mounted when neither threw.
   */
  predicate MountAttemptFor(config: MountConfig, md: String, mountFails: set<String>, chownFails: set<String>,
                            a: MountAttempt)
  {
    var mntPath := PathJoin(config.mountDir, md);
    && a.disk == md
    && |a.commands| >= 1 && a.commands[0] == MountCommand(config.readOnly, PathJoin(config.scanDir, md), mntPath)
    && (md in mountFails ==> a.commands == a.commands[..1] && a.outcome == MountFailed)
    && (md !in mountFails ==>
          a.commands == [a.commands[0], ChownCommand(mntPath)] && (a.outcome == Mounted <==> md !in chownFails)
          && a.outcome != MountFailed)
  }

  /** One attempt per disk, in the same order. */
  predicate AttemptsFor(config: MountConfig, disks: seq<String>, mountFails: set<String>, chownFails: set<String>,
                        attempts: seq<MountAttempt>)
  {
    |attempts| == |disks|
    && forall j :: 0 <= j < |disks| ==> MountAttemptFor(config, disks[j], mountFails, chownFails, attempts[j])
  }

  lemma AttemptsForSnoc(config: MountConfig, disks: seq<String>, mountFails: set<String>, chownFails: set<String>,
                        attempts: seq<MountAttempt>, md: String, a: MountAttempt)
    requires AttemptsFor(config, disks, mountFails, chownFails, attempts)
    requires MountAttemptFor(config, md, mountFails, chownFails, a)
    ensures AttemptsFor(config, disks + [md], mountFails, chownFails, attempts + [a])
  {
    forall j | 0 <= j < |disks| + 1
      ensures MountAttemptFor(config, (disks + [md])[j], mountFails, chownFails, (attempts + [a])[j])
    {
      if j < |disks| {
        assert (disks + [md])[j] == disks[j] && (attempts + [a])[j] == attempts[j];
      }
    }
  }

  /** The mount points of the planned disks. */
  function MountPoints(mountDir: String, disks: seq<String>): (r: set<String>)
    ensures forall i :: 0 <= i < |disks| ==> PathJoin(mountDir, disks[i]) in r
  {
    if disks == [] then {}
    else MountPoints(mountDir, disks[..|disks| - 1]) + {PathJoin(mountDir, disks[|disks| - 1])}
  }

  /** Nothing but the planned disks' mount points is created. */
  lemma {:induction false} MountPointsOnly(mountDir: String, disks: seq<String>, p: String)
    requires p in MountPoints(mountDir, disks)
    ensures exists i :: 0 <= i < |disks| && p == PathJoin(mountDir, disks[i])
  {
    if p != PathJoin(mountDir, disks[|disks| - 1]) {
      MountPointsOnly(mountDir, disks[..|disks| - 1], p);
      var i :| 0 <= i < |disks| - 1 && p == PathJoin(mountDir, disks[..|disks| - 1][i]);
      assert disks[..|disks| - 1][i] == disks[i];
    }
  }

  lemma MountPointsSnoc(mountDir: String, disks: seq<String>, md: String)
    ensures MountPoints(mountDir, disks + [md]) == MountPoints(mountDir, disks) + {PathJoin(mountDir, md)}
  {
    assert (disks + [md])[..|disks|] == disks;
  }

  /**
   * The body of `mountAll`'s loop for disk `md`: the mount point is created
   * when missing, then `mount` and, if it did not throw, `chown` run inside
   * the `try`, whose `catch` only logs.
   */
  method MountOne(config: MountConfig, md: String, dirs: set<String>, mountFails: set<String>, chownFails: set<String>)
    returns (a: MountAttempt, dirs': set<String>)
    ensures MountAttemptFor(config, md, mountFails, chownFails, a)
    ensures dirs' == dirs + {PathJoin(config.mountDir, md)}
  {
    var mntPath := PathJoin(config.mountDir, md);
    dirs' := dirs;
    if mntPath !in dirs' {
      dirs' := dirs' + {mntPath};
    }
    var devPath := PathJoin(config.scanDir, md);
    var commands := [MountCommand(config.readOnly, devPath, mntPath)];
    var outcome;
    if md in mountFails {
      outcome := MountFailed;
    } else {
      commands := commands + [ChownCommand(mntPath)];
      outcome := if md in chownFails then ChownFailed else Mounted;
    }
    a := MountAttempt(md, commands, outcome);
  }

  /** The `for` loop of `mountAll` over the planned disks. */
  method MountEach(config: MountConfig, need: seq<String>, existing: set<String>, mountFails: set<String>,
                   chownFails: set<String>)
    returns (attempts: seq<MountAttempt>, dirs: set<String>)
    ensures AttemptsFor(config, need, mountFails, chownFails, attempts)
    ensures dirs == existing + MountPoints(config.mountDir, need)
  {
    attempts := [];
    dirs := existing;
    for i := 0 to |need|
      invariant AttemptsFor(config, need[..i], mountFails, chownFails, attempts)
      invariant dirs == existing + MountPoints(config.mountDir, need[..i])
    {
      var a;
      a, dirs := MountOne(config, need[i], dirs, mountFails, chownFails);
      AttemptsForSnoc(config, need[..i], mountFails, chownFails, attempts, need[i], a);
      MountPointsSnoc(config.mountDir, need[..i], need[i]);
      assert need[..i + 1] == need[..i] + [need[i]];
      attempts := attempts + [a];
    }
    assert need[..|need|] == need;
  }

  /**
   * `mountAll(runConfig, toMountDisks)`: one attempt per planned disk, in plan
   * order, whatever became of the earlier ones, and every planned disk's
   * mount point exists afterwards.
   */
  method MountAll(config: MountConfig, toMountDisks: seq<String>, df: String, existing: set<String>,
                  mountFails: set<String>, chownFails: set<String>)
    returns (attempts: seq<MountAttempt>, dirs: set<String>)
    ensures var need := NeedMountDisks(config.mountDir, toMountDisks, MountedPaths(df));
      AttemptsFor(config, need, mountFails, chownFails, attempts) && dirs == existing + MountPoints(config.mountDir, need)
  {
    var mounted := MountedPaths(df);
    var need := NeedMountDisks(config.mountDir, toMountDisks, mounted);
    attempts, dirs := MountEach(config, need, existing, mountFails, chownFails);
  }

  datatype UnmountAttempt = UnmountAttempt(disk: String, command: String, ok: bool)

  /** One lazy unmount per listed disk, in listing order, failing exactly for the disks in `umountFails`. */
  predicate UnmountsFor(config: MountConfig, disks: seq<String>, umountFails: set<String>, attempts: seq<UnmountAttempt>) {
    && |attempts| == |disks|
    && forall i :: 0 <= i < |attempts| ==>
      && attempts[i].disk == disks[i]
      && attempts[i].command == UnmountCommand(PathJoin(config.mountDir, disks[i]))
      && (attempts[i].ok <==> disks[i] !in umountFails)
  }

  /**
   * `unmountAll(runConfig, toMountDisks)`: one `umount -l` per listed disk, in
   * listing order, whatever became of the earlier ones.
   */
  method UnmountAll(config: MountConfig, toMountDisks: seq<String>, umountFails: set<String>)
    returns (attempts: seq<UnmountAttempt>)
    ensures UnmountsFor(config, toMountDisks, umountFails, attempts)
  {
    attempts := [];
    for i := 0 to |toMountDisks|
      invariant |attempts| == i
      invariant forall j :: 0 <= j < i ==>
        && attempts[j].disk == toMountDisks[j]
        && attempts[j].command == UnmountCommand(PathJoin(config.mountDir, toMountDisks[j]))
        && (attempts[j].ok <==> toMountDisks[j] !in umountFails)
    {
      var md := toMountDisks[i];
      var mntPath := PathJoin(config.mountDir, md);
      attempts := attempts + [UnmountAttempt(md, UnmountCommand(mntPath), md !in umountFails)];
    }
  }

  // ------------------------------------------------------------ main

  datatype RunOutcome =
    | MountedAll(attempts: seq<MountAttempt>, dirs: set<String>)
    | UnmountedAll(unmounts: seq<UnmountAttempt>)

  /**
   * `main()`: the configuration's panics, then `need to run under root` for a
   * non-zero uid, then `No disks are found` for an empty scan directory;
   * otherwise `--umount` chooses between unmounting and mounting the listing.
   */
  method Run(argv: MountArgv, uid: int, listing: seq<String>, df: String, existing: set<String>,
             mountFails: set<String>, chownFails: set<String>, umountFails: set<String>)
    returns (r: Result<RunOutcome>)
    ensures !Given(argv.mountdir) ==> r == Err("mountdir is not defined.")
    ensures Given(argv.mountdir) && !Given(argv.scandir) ==> r == Err("scandir is not defined.")
    ensures Given(argv.mountdir) && Given(argv.scandir) && uid != 0 ==> r == Err("need to run under root")
    ensures Given(argv.mountdir) && Given(argv.scandir) && uid == 0 && listing == [] ==> r == Err("No disks are found")
    ensures r.Ok? <==> Given(argv.mountdir) && Given(argv.scandir) && uid == 0 && listing != []
    ensures r.Ok? ==> (r.value.UnmountedAll? <==> Truthy(argv.umount))
    ensures r.Ok? ==>
      var config := MountConfig(argv.mountdir.value, argv.scandir.value, Truthy(argv.readonly), Truthy(argv.umount));
      var need := NeedMountDisks(config.mountDir, listing, MountedPaths(df));
      && (r.value.UnmountedAll? ==> UnmountsFor(config, listing, umountFails, r.value.unmounts))
      && (r.value.MountedAll? ==>
            && AttemptsFor(config, need, mountFails, chownFails, r.value.attempts)
            && r.value.dirs == existing + MountPoints(config.mountDir, need))
  {
    var config := GetConfig(argv);
    if config.Err? {
      return Err(config.error);
    }
    if uid != 0 {
      return Err("need to run under root");
    }
    if |listing| == 0 {
      return Err("No disks are found");
    }
    if !config.value.umount {
      var attempts, dirs := MountAll(config.value, listing, df, existing, mountFails, chownFails);
      r := Ok(MountedAll(attempts, dirs));
    } else {
      var unmounts := UnmountAll(config.value, listing, umountFails);
      r := Ok(UnmountedAll(unmounts));
    }
  }
}
