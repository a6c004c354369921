/**
 * services/usb-archiver/copy-task.js: the copy-task scheduler.
 *
 * `CopyTaskManager` keeps the active copies keyed by source path, a task-id
 * counter and the mapping from USB3 bus to the partitions on it; it picks a
 * destination on a bus no active copy occupies. `CopyTask` is one rsync copy
 * whose progress fields the stdout handler overwrites.
 *
 * The operating system enters as parameters: the capacity listing `spaces`
 * (`getAllFsInfo`), the set `writable` of paths the `accessSync(W_OK)` probe
 * accepts, and the outcome of the rsync process (`Complete`).
 */
module CopyTasks {
  import opened Text
  import opened Seqs
  import opened Misc
  import opened PartOrder
  import opened Selection

  // ------------------------------------------------------------ disk mapping

  /** One key of `diskMapping` with its partitions. */
  datatype BusGroup = BusGroup(bus: String, parts: seq<Part>)

  /** The key `_.groupBy(..., 'usbBus')` files a record under (`String(undefined)` when absent). */
  function BusKey(p: Part): String {
    if p.usbBus.Some? then p.usbBus.value else "undefined"
  }

  /** `_.filter(assignInfo, {isUsb3: true})` */
  function Usb3Parts(assign: seq<Part>): seq<Part> {
    Filter(assign, (p: Part) => p.isUsb3 == Some(true))
  }

  /** The keys of `_.groupBy(parts, 'usbBus')`, in first-occurrence order. */
  function GroupKeys(parts: seq<Part>): seq<String> {
    Distinct(seq(|parts|, i requires 0 <= i < |parts| => BusKey(parts[i])))
  }

  /** `_.groupBy(parts, 'usbBus')`: one group per key, each holding its records in input order. */
  function GroupByBus(parts: seq<Part>): seq<BusGroup> {
    var keys := GroupKeys(parts);
    seq(|keys|, k requires 0 <= k < |keys| => BusGroup(keys[k], Filter(parts, (p: Part) => BusKey(p) == keys[k])))
  }

  /** The value `updateDiskMapping` stores: the USB3 partitions grouped by bus. */
  function DiskMapping(assign: seq<Part>): seq<BusGroup> {
    GroupByBus(Usb3Parts(assign))
  }

  /** Distinct keys, no empty group, every member filed under its own bus. */
  predicate WellGrouped(dm: seq<BusGroup>) {
    && (forall i, j :: 0 <= i < j < |dm| ==> dm[i].bus != dm[j].bus)
    && (forall i :: 0 <= i < |dm| ==> |dm[i].parts| > 0)
    && (forall i, m :: 0 <= i < |dm| && 0 <= m < |dm[i].parts| ==> BusKey(dm[i].parts[m]) == dm[i].bus)
  }

  /** Every group of the mapping is non-empty, under its own key, and no key repeats. */
  lemma DiskMappingWellGrouped(assign: seq<Part>)
    ensures WellGrouped(DiskMapping(assign))
  {
    var usb3 := Usb3Parts(assign);
    var dm := DiskMapping(assign);
    var keys := GroupKeys(usb3);
    var busOf := seq(|usb3|, i requires 0 <= i < |usb3| => BusKey(usb3[i]));
    forall i | 0 <= i < |dm| ensures |dm[i].parts| > 0 {
      assert keys[i] in busOf;
      var m :| 0 <= m < |usb3| && busOf[m] == keys[i];
      assert usb3[m] in dm[i].parts;
    }
  }

  /** Every member of the mapping is a USB3 partition of the assignment. */
  lemma DiskMappingMembers(assign: seq<Part>)
    ensures forall i, m :: 0 <= i < |DiskMapping(assign)| && 0 <= m < |DiskMapping(assign)[i].parts| ==>
      DiskMapping(assign)[i].parts[m].isUsb3 == Some(true) && DiskMapping(assign)[i].parts[m] in assign
  {
    var usb3 := Usb3Parts(assign);
    var dm := DiskMapping(assign);
    forall i, m | 0 <= i < |dm| && 0 <= m < |dm[i].parts|
      ensures dm[i].parts[m].isUsb3 == Some(true) && dm[i].parts[m] in assign
    {
      assert dm[i].parts[m] in usb3;
    }
  }

  /** Every USB3 partition of the assignment sits in the group of its bus. */
  lemma DiskMappingComplete(assign: seq<Part>, p: Part)
    requires p in assign && p.isUsb3 == Some(true)
    ensures exists i ::
      0 <= i < |DiskMapping(assign)| && DiskMapping(assign)[i].bus == BusKey(p) && p in DiskMapping(assign)[i].parts
  {
    var usb3 := Usb3Parts(assign);
    var dm := DiskMapping(assign);
    var keys := GroupKeys(usb3);
    var busOf := seq(|usb3|, i requires 0 <= i < |usb3| => BusKey(usb3[i]));
    var a :| 0 <= a < |assign| && assign[a] == p;
    assert p in usb3;
    var m :| 0 <= m < |usb3| && usb3[m] == p;
    assert busOf[m] == BusKey(p);
    var i :| 0 <= i < |keys| && keys[i] == busOf[m];
    assert p in dm[i].parts;
  }

  /** `this.diskMapping[host]` */
  function PartsOf(dm: seq<BusGroup>, bus: String): (r: seq<Part>)
    ensures forall i :: 0 <= i < |dm| && dm[i].bus == bus && (forall j :: 0 <= j < i ==> dm[j].bus != bus) ==>
      r == dm[i].parts
  {
    var k := FirstIndex(dm, (g: BusGroup) => g.bus == bus);
    if k < 0 then [] else dm[k].parts
  }

  // ------------------------------------------------------------ copy task

  /** `_.filter` of the stdout handler: drop the empty and the lone carriage-return pieces. */
  predicate IsToken(e: String) {
    e != "\r" && e != ""
  }

  /** `data.toString().split(' ').filter(e => (e !== '\r' && !!e))` */
  function Tokens(data: String): (r: seq<String>)
    ensures forall i :: 0 <= i < |r| ==> IsToken(r[i]) && ' ' !in r[i]
    ensures forall w :: w in Split(data, ' ') && IsToken(w) ==> w in r
  {
    var pieces := Split(data, ' ');
    var r := Filter(pieces, IsToken);
    assert forall i :: 0 <= i < |r| ==> r[i] in pieces;
    r
  }

  /**
   * A progress line made of space-free pieces joined by single spaces, some of
   * them empty (the padding of rsync's columns) or a lone carriage return,
   * gives back exactly the other pieces, in order.
   */
  lemma TokensOfPieces(pieces: seq<String>)
    requires |pieces| >= 1
    requires forall i :: 0 <= i < |pieces| ==> ' ' !in pieces[i]
    ensures Tokens(Join(pieces, ' ')) == Filter(pieces, IsToken)
  {
    SplitJoin(pieces, ' ');
  }

  /** A progress line made of space-separated tokens gives back exactly those tokens. */
  lemma TokensOfLine(words: seq<String>)
    requires |words| >= 1
    requires forall i :: 0 <= i < |words| ==> IsToken(words[i]) && ' ' !in words[i]
    ensures Tokens(Join(words, ' ')) == words
  {
    SplitJoin(words, ' ');
    FilterAll(words, IsToken);
  }

  /** `chunks[i]`: undefined past the end. */
  function TokenAt(chunks: seq<String>, i: nat): Option<String> {
    if i < |chunks| then Some(chunks[i]) else None
  }

  /** `${x}` of a value that may be undefined. */
  function Show(x: Option<String>): String {
    if x.Some? then x.value else "undefined"
  }

  class CopyTask {
    const taskId: int
    const fromPath: String
    const toPath: Option<String>
    const usbBus: Option<String>
    var writeBytes: Option<String>
    var percentage: Option<String>
    var speed: Option<String>
    var eta: Option<String>

    /** A task is created with its identity fixed and an empty progress snapshot. */
    constructor (taskId: int, fromPath: String, toPath: Option<String>, usbBus: Option<String>)
      ensures this.taskId == taskId && this.fromPath == fromPath
      ensures this.toPath == toPath && this.usbBus == usbBus
      ensures writeBytes == Some("") && percentage == Some("") && speed == Some("") && eta == Some("")
    {
      this.taskId := taskId;
      this.fromPath := fromPath;
      this.toPath := toPath;
      this.usbBus := usbBus;
      writeBytes, percentage, speed, eta := Some(""), Some(""), Some(""), Some("");
    }

    /**
     * The command line `start()` hands to `exec`: the source path, then the
     * destination, which prints as `undefined` when no mount was chosen.
     */
    function Command(): (cmd: String)
      ensures StartsWith(cmd, "rsync -aP --remove-source-files ")
      ensures EndsWith(cmd, " " + Show(toPath))
      ensures Contains(cmd, fromPath)
    {
      var cmd := "rsync -aP --remove-source-files " + fromPath + " " + Show(toPath);
      assert OccursAt(cmd, fromPath, 32);
      cmd
    }

    /** The `proc.stdout.on('data')` handler: tokens 0..3 overwrite the four progress fields. */
    method OnStdoutData(data: String)
      modifies this
      ensures var chunks := Tokens(data);
        && writeBytes == TokenAt(chunks, 0) && percentage == TokenAt(chunks, 1)
        && speed == TokenAt(chunks, 2) && eta == TokenAt(chunks, 3)
    {
      var chunks := Tokens(data);
      writeBytes := TokenAt(chunks, 0);
      percentage := TokenAt(chunks, 1);
      speed := TokenAt(chunks, 2);
      eta := TokenAt(chunks, 3);
    }
  }

  /** One line of `getReport`. */
  function ReportLine(t: CopyTask): String
    reads t
  {
    "   " + t.fromPath + "  WriteTo=" + Show(t.toPath) + "\t" + Show(t.percentage) + "\t" + Show(t.speed) + "\n"
  }

  function ReportHeader(count: nat): String {
    "Ongoing Tasks Count: " + NatToString(count) + " \n"
  }

  /** The lines of a report glued together. */
  function Concat(lines: seq<String>): String {
    if lines == [] then "" else Concat(lines[..|lines| - 1]) + lines[|lines| - 1]
  }

  /** Gluing a concatenation of line lists is gluing each list. */
  lemma {:induction false} ConcatAppend(a: seq<String>, b: seq<String>)
    ensures Concat(a + b) == Concat(a) + Concat(b)
  {
    if b == [] {
      assert a + b == a;
    } else {
      var b' := b[..|b| - 1];
      assert (a + b)[..|a + b| - 1] == a + b';
      ConcatAppend(a, b');
    }
  }

  /** One more line after `pre` and the first `i` lines. */
  lemma {:induction false} ConcatSnoc(pre: String, lines: seq<String>, i: nat)
    requires i < |lines|
    ensures Concat([pre] + lines[..i + 1]) == Concat([pre] + lines[..i]) + lines[i]
  {
    assert ([pre] + lines[..i + 1])[..i + 1] == [pre] + lines[..i];
  }

  /** The text of a line list is the text before line `j`, line `j`, then the text after it. */
  lemma {:induction false} ConcatAround(lines: seq<String>, j: nat)
    requires j < |lines|
    ensures Concat(lines) == Concat(lines[..j]) + lines[j] + Concat(lines[j + 1..])
  {
    var front, back := lines[..j + 1], lines[j + 1..];
    assert lines == front + back;
    ConcatAppend(front, back);
    assert front[..|front| - 1] == lines[..j] && front[|front| - 1] == lines[j];
  }

  /** Every line stands in the text after `pre`. */
  lemma {:induction false} ConcatHasLine(pre: String, lines: seq<String>, j: nat)
    requires j < |lines|
    ensures OccursAt(pre + Concat(lines), lines[j], |pre| + |Concat(lines[..j])|)
  {
    var line := lines[j];
    ConcatAround(lines, j);
    var front := pre + Concat(lines[..j]);
    assert pre + Concat(lines) == front + line + Concat(lines[j + 1..]);
    assert (front + line + Concat(lines[j + 1..]))[|front|..|front| + |line|] == line;
  }

  /** After the loop has appended every line, the text is the header followed by all the lines. */
  lemma {:induction false} ConcatAll(head: String, lines: seq<String>)
    ensures Concat([head] + lines[..|lines|]) == head + Concat(lines)
  {
    assert lines[..|lines|] == lines;
    ConcatAppend([head], lines);
    assert Concat([head]) == head by { assert [head][..0] == []; }
  }

  /** The report lines of the tasks under `keys`, in that order. */
  function TaskLines(tasks: map<String, CopyTask>, keys: seq<String>): (r: seq<String>)
    requires forall i :: 0 <= i < |keys| ==> keys[i] in tasks
    reads tasks.Values
    ensures |r| == |keys|
  {
    seq(|keys|, i requires 0 <= i < |keys| reads tasks.Values => ReportLine(tasks[keys[i]]))
  }

  // ------------------------------------------------------------ the manager

  /** The value `getWriteDest` resolves to when some bus is idle. */
  datatype WriteDestTuple = WriteDestTuple(usbBus: Option<String>, writeDest: Option<String>)

  /** Which manager handler the completion callback runs. */
  datatype Handler = OnTaskFinish | OnTaskFailed

  predicate NoDuplicates(s: seq<String>) {
    forall i, j :: 0 <= i < j < |s| ==> s[i] != s[j]
  }

  /** The elements of `s` other than `x`, in order. */
  function Without(s: seq<String>, x: String): (r: seq<String>)
    ensures forall y :: y in r <==> y in s && y != x
    ensures NoDuplicates(s) ==> NoDuplicates(r)
  {
    if s == [] then []
    else if s[0] == x then Without(s[1..], x)
    else
      var rest := Without(s[1..], x);
      assert NoDuplicates(s) ==> NoDuplicates(s[1..]) && s[0] !in s[1..] by {
        if NoDuplicates(s) {
          forall i, j | 0 <= i < j < |s[1..]| ensures s[1..][i] != s[1..][j] {
            assert s[1..][i] == s[i + 1] && s[1..][j] == s[j + 1];
          }
          forall j | 0 <= j < |s[1..]| ensures s[1..][j] != s[0] {
            assert s[1..][j] == s[j + 1];
          }
        }
      }
      var r := [s[0]] + rest;
      assert NoDuplicates(s) ==> NoDuplicates(r) by {
        if NoDuplicates(s) {
          forall i, j | 0 <= i < j < |r| ensures r[i] != r[j] {
            if i == 0 { assert r[j] in rest; } else { assert r[i] == rest[i - 1] && r[j] == rest[j - 1]; }
          }
        }
      }
      r
  }

  /** `Object.keys(this.diskMapping)` */
  function BusKeys(dm: seq<BusGroup>): (r: seq<String>)
    ensures |r| == |dm| && forall i :: 0 <= i < |r| ==> r[i] == dm[i].bus
  {
    seq(|dm|, i requires 0 <= i < |dm| => dm[i].bus)
  }

  /** The buses of the tasks in `ts` (`occupiedHosts`, without the undefined ones). */
  function Occupied(ts: map<String, CopyTask>): set<String> {
    set k | k in ts && ts[k].usbBus.Some? :: ts[k].usbBus.value
  }

  /** `leftOverHosts`: the known buses no task in `ts` holds, in key order. */
  function IdleBuses(dm: seq<BusGroup>, ts: map<String, CopyTask>): (r: seq<String>)
    ensures forall i :: 0 <= i < |r| ==> r[i] in BusKeys(dm) && r[i] !in Occupied(ts)
    ensures forall i :: 0 <= i < |dm| && dm[i].bus !in Occupied(ts) ==> dm[i].bus in r
  {
    Difference(BusKeys(dm), Occupied(ts))
  }

  /** The candidates of one bus: its partitions joined with the capacity listing, above `need`, best fit first. */
  function Candidates(dm: seq<BusGroup>, bus: String, spaces: seq<FsInfo>, farmDir: String, need: int)
    : (r: seq<Part>)
    ensures Sorted(r, Available)
    ensures forall i :: 0 <= i < |r| ==> Above(r[i], need)
  {
    AvailableParts(MergePartAndSpace(PartsOf(dm, bus), AllFsInfo(spaces, farmDir)), need)
  }

  /** Bus `h` has at least one candidate partition. */
  predicate Feasible(dm: seq<BusGroup>, h: String, spaces: seq<FsInfo>, farmDir: String, need: int) {
    |Candidates(dm, h, spaces, farmDir, need)| > 0
  }

  /** `Feasible` as the test the bus scan applies. */
  function FeasibleTest(dm: seq<BusGroup>, spaces: seq<FsInfo>, farmDir: String, need: int): String -> bool {
    h => Feasible(dm, h, spaces, farmDir, need)
  }

  /** `hosts[k]` is the first of `hosts` with a candidate. */
  predicate FirstFeasibleAt(dm: seq<BusGroup>, hosts: seq<String>, spaces: seq<FsInfo>, farmDir: String, need: int, k: int) {
    && 0 <= k < |hosts| && Feasible(dm, hosts[k], spaces, farmDir, need)
    && forall j :: 0 <= j < k ==> !Feasible(dm, hosts[j], spaces, farmDir, need)
  }

  /** The first of `hosts` with at least one candidate. */
  function FirstFeasibleBus(dm: seq<BusGroup>, hosts: seq<String>, spaces: seq<FsInfo>, farmDir: String, need: int)
    : (r: Option<String>)
    ensures r.Some? ==> exists k :: FirstFeasibleAt(dm, hosts, spaces, farmDir, need, k) && hosts[k] == r.value
    ensures r.None? <==> forall i :: 0 <= i < |hosts| ==> !Feasible(dm, hosts[i], spaces, farmDir, need)
  {
    var k := FirstIndex(hosts, FeasibleTest(dm, spaces, farmDir, need));
    if k < 0 then None
    else
      assert FirstFeasibleAt(dm, hosts, spaces, farmDir, need, k);
      Some(hosts[k])
  }

  /** Scanning `hosts` from index `i`: either host `i` has a candidate or the scan moves on. */
  lemma {:induction false} FirstFeasibleStep(dm: seq<BusGroup>, hosts: seq<String>, i: nat, spaces: seq<FsInfo>, farmDir: String, need: int)
    requires i < |hosts|
    ensures FirstFeasibleBus(dm, hosts[i..], spaces, farmDir, need) ==
      if Feasible(dm, hosts[i], spaces, farmDir, need) then Some(hosts[i])
      else FirstFeasibleBus(dm, hosts[i + 1..], spaces, farmDir, need)
  {
    var p := FeasibleTest(dm, spaces, farmDir, need);
    FirstIndexStep(hosts, p, i);
    if !p(hosts[i]) {
      var k := FirstIndex(hosts[i + 1..], p);
      if k >= 0 {
        assert hosts[i..][k + 1] == hosts[i + 1..][k];
      }
    }
  }

  /** The bus `getWriteDest` picks is a key of the mapping that no task holds. */
  lemma FeasibleBusIsIdle(dm: seq<BusGroup>, ts: map<String, CopyTask>, spaces: seq<FsInfo>, farmDir: String, need: int)
    ensures var b := FirstFeasibleBus(dm, IdleBuses(dm, ts), spaces, farmDir, need);
      b.Some? ==> b.value in BusKeys(dm) && b.value !in Occupied(ts)
  {
    var idle := IdleBuses(dm, ts);
    var b := FirstFeasibleBus(dm, idle, spaces, farmDir, need);
    if b.Some? {
      var j :| 0 <= j < |idle| && idle[j] == b.value;
    }
  }

  /** The mounts `getWriteDest` probes for writability: the best fit of the chosen bus, if any. */
  function ProbedMounts(dm: seq<BusGroup>, ts: map<String, CopyTask>, spaces: seq<FsInfo>, farmDir: String, need: int)
    : (r: seq<String>)
    ensures |r| <= 1
    ensures |r| == 1 <==> FirstFeasibleBus(dm, IdleBuses(dm, ts), spaces, farmDir, need).Some?
  {
    var b := FirstFeasibleBus(dm, IdleBuses(dm, ts), spaces, farmDir, need);
    if b.Some? then [Candidates(dm, b.value, spaces, farmDir, need)[0].mount] else []
  }

  // ---------------------------------------------- the destination as intended

  /** `parts[i]` is the first partition whose mount the write probe accepts. */
  predicate FirstWritableAt(parts: seq<Part>, writable: set<String>, i: int) {
    0 <= i < |parts| && parts[i].mount in writable && forall j :: 0 <= j < i ==> parts[j].mount !in writable
  }

  /** The mount of the first candidate the write probe accepts, best fit first. */
  function FirstWritable(parts: seq<Part>, writable: set<String>): (r: Option<String>)
    ensures r.None? <==> forall i :: 0 <= i < |parts| ==> parts[i].mount !in writable
    ensures r.Some? ==> exists i :: FirstWritableAt(parts, writable, i) && parts[i].mount == r.value
  {
    if parts == [] then None
    else if parts[0].mount in writable then
      assert FirstWritableAt(parts, writable, 0);
      Some(parts[0].mount)
    else
      var r := FirstWritable(parts[1..], writable);
      if r.None? then None
      else
        var i :| FirstWritableAt(parts[1..], writable, i) && parts[1..][i].mount == r.value;
        assert parts[i + 1] == parts[1..][i];
        forall j | 0 <= j < i + 1 ensures parts[j].mount !in writable {
          if j > 0 { assert parts[j] == parts[1..][j - 1]; }
        }
        assert FirstWritableAt(parts, writable, i + 1);
        r
  }

  /** Bus `h` has a candidate the write probe accepts. */
  predicate WritableOn(dm: seq<BusGroup>, h: String, spaces: seq<FsInfo>, writable: set<String>, farmDir: String,
                       need: int) {
    FirstWritable(Candidates(dm, h, spaces, farmDir, need), writable).Some?
  }

  /** `WritableOn` as the test the intended bus scan applies. */
  function WritableTest(dm: seq<BusGroup>, spaces: seq<FsInfo>, writable: set<String>, farmDir: String, need: int)
    : String -> bool
  {
    h => WritableOn(dm, h, spaces, writable, farmDir, need)
  }

  /** `hosts[k]` is the first of `hosts` with a candidate the write probe accepts. */
  predicate FirstWritableBusAt(dm: seq<BusGroup>, hosts: seq<String>, spaces: seq<FsInfo>, writable: set<String>,
                               farmDir: String, need: int, k: int) {
    && 0 <= k < |hosts| && WritableOn(dm, hosts[k], spaces, writable, farmDir, need)
    && forall j :: 0 <= j < k ==> !WritableOn(dm, hosts[j], spaces, writable, farmDir, need)
  }

  /** The first of `hosts` with a candidate the write probe accepts. */
  function FirstWritableBus(dm: seq<BusGroup>, hosts: seq<String>, spaces: seq<FsInfo>, writable: set<String>,
                            farmDir: String, need: int): (r: Option<String>)
    ensures r.Some? ==> exists k :: FirstWritableBusAt(dm, hosts, spaces, writable, farmDir, need, k) && hosts[k] == r.value
    ensures r.None? <==> forall i :: 0 <= i < |hosts| ==> !WritableOn(dm, hosts[i], spaces, writable, farmDir, need)
  {
    var k := FirstIndex(hosts, WritableTest(dm, spaces, writable, farmDir, need));
    if k < 0 then None
    else
      assert FirstWritableBusAt(dm, hosts, spaces, writable, farmDir, need, k);
      Some(hosts[k])
  }

  /**
   * What `getWriteDest` evidently means to return: undefined when no bus is
   * idle; otherwise the first idle bus with a writable candidate together
   * with its best-fitting writable mount, or neither when there is none.
   */
  function IntendedWriteDest(dm: seq<BusGroup>, ts: map<String, CopyTask>, spaces: seq<FsInfo>, writable: set<String>,
                             farmDir: String, need: int): (r: Option<WriteDestTuple>)
    ensures r.None? <==> IdleBuses(dm, ts) == []
    ensures r.Some? ==> (r.value.usbBus.Some? <==> r.value.writeDest.Some?)
    ensures r.Some? && r.value.usbBus.Some? ==>
      && r.value.usbBus.value in BusKeys(dm) && r.value.usbBus.value !in Occupied(ts)
      && r.value.writeDest.value in writable
      && exists i :: 0 <= i < |Candidates(dm, r.value.usbBus.value, spaces, farmDir, need)| &&
           Candidates(dm, r.value.usbBus.value, spaces, farmDir, need)[i].mount == r.value.writeDest.value
    ensures r.Some? && r.value.usbBus.None? ==> forall i :: 0 <= i < |IdleBuses(dm, ts)| ==>
      FirstWritable(Candidates(dm, IdleBuses(dm, ts)[i], spaces, farmDir, need), writable).None?
  {
    var hosts := IdleBuses(dm, ts);
    if hosts == [] then None
    else
      var b := FirstWritableBus(dm, hosts, spaces, writable, farmDir, need);
      if b.None? then Some(WriteDestTuple(None, None))
      else
        assert b.value in BusKeys(dm) && b.value !in Occupied(ts) by {
          var j :| 0 <= j < |hosts| && hosts[j] == b.value;
        }
        Some(WriteDestTuple(b, FirstWritable(Candidates(dm, b.value, spaces, farmDir, need), writable)))
  }

  /**
   * The pair the intended lookup names is the first idle bus with a writable
   * candidate, and the first writable mount among that bus's candidates, best fit first.
   */
  lemma IntendedWriteDestFirst(dm: seq<BusGroup>, ts: map<String, CopyTask>, spaces: seq<FsInfo>, writable: set<String>,
                               farmDir: String, need: int)
    ensures var r := IntendedWriteDest(dm, ts, spaces, writable, farmDir, need);
      r.Some? && r.value.usbBus.Some? ==>
        && (exists k :: FirstWritableBusAt(dm, IdleBuses(dm, ts), spaces, writable, farmDir, need, k) &&
                        IdleBuses(dm, ts)[k] == r.value.usbBus.value)
        && r.value.writeDest == FirstWritable(Candidates(dm, r.value.usbBus.value, spaces, farmDir, need), writable)
  {
  }

  /** Some idle bus has a candidate the write probe accepts. */
  predicate HasWritableDest(dm: seq<BusGroup>, ts: map<String, CopyTask>, spaces: seq<FsInfo>, writable: set<String>,
                            farmDir: String, need: int) {
    var hosts := IdleBuses(dm, ts);
    exists i :: 0 <= i < |hosts| && FirstWritable(Candidates(dm, hosts[i], spaces, farmDir, need), writable).Some?
  }

  /** Some idle bus has a writable candidate exactly when the intended lookup names a bus and a mount. */
  lemma HasWritableDestIff(dm: seq<BusGroup>, ts: map<String, CopyTask>, spaces: seq<FsInfo>, writable: set<String>,
                           farmDir: String, need: int)
    ensures var d := IntendedWriteDest(dm, ts, spaces, writable, farmDir, need);
      HasWritableDest(dm, ts, spaces, writable, farmDir, need) <==> d.Some? && d.value.usbBus.Some?
  {
    var hosts := IdleBuses(dm, ts);
    var d := IntendedWriteDest(dm, ts, spaces, writable, farmDir, need);
    if HasWritableDest(dm, ts, spaces, writable, farmDir, need) {
      var i :| 0 <= i < |hosts| && FirstWritable(Candidates(dm, hosts[i], spaces, farmDir, need), writable).Some?;
    }
  }

  /** Scanning `hosts` from index `i` for a writable candidate: either host `i` has one or the scan moves on. */
  lemma {:induction false} FirstWritableStep(dm: seq<BusGroup>, hosts: seq<String>, i: nat, spaces: seq<FsInfo>, writable: set<String>,
                          farmDir: String, need: int)
    requires i < |hosts|
    ensures FirstWritableBus(dm, hosts[i..], spaces, writable, farmDir, need) ==
      if WritableOn(dm, hosts[i], spaces, writable, farmDir, need) then Some(hosts[i])
      else FirstWritableBus(dm, hosts[i + 1..], spaces, writable, farmDir, need)
  {
    var p := WritableTest(dm, spaces, writable, farmDir, need);
    FirstIndexStep(hosts, p, i);
    if !p(hosts[i]) {
      var k := FirstIndex(hosts[i + 1..], p);
      if k >= 0 {
        assert hosts[i..][k + 1] == hosts[i + 1..][k];
      }
    }
  }

  /**
   * One bus holding one partition with room to spare whose mount is
   * writable: the intended lookup finds it, where `checkAvailable` as
   * written answers false for every mapping.
   */
  lemma WritableDestinationWitness()
    ensures var p := Part("sdb1", "part", "ext4", "/farm/a", "a", 0, None, None, Some(200), None, Some(true), Some("usb1"));
      IntendedWriteDest([BusGroup("usb1", [p])], map[], [], {"/farm/a"}, "/farm", 100)
        == Some(WriteDestTuple(Some("usb1"), Some("/farm/a")))
  {
    var p := Part("sdb1", "part", "ext4", "/farm/a", "a", 0, None, None, Some(200), None, Some(true), Some("usb1"));
    var dm := [BusGroup("usb1", [p])];
    assert PartsOf(dm, "usb1") == [p];
    assert AllFsInfo([], "/farm") == [];
    assert MergePartAndSpace([p], []) == [p];
    assert Filter([p], (q: Part) => Above(q, 100)) == [p];
    assert SortBy([p], Available) == [p];
    assert Candidates(dm, "usb1", [], "/farm", 100) == [p];
    assert BusKeys(dm) == ["usb1"];
    assert Occupied(map[]) == {};
    assert IdleBuses(dm, map[]) == ["usb1"];
  }

  /** The handler the `startTask` callback runs as written: `if (!err)` selects `onTaskFailed`. */
  function CallbackHandler(exitOk: bool): (h: Handler)
    ensures h == OnTaskFailed <==> exitOk
  {
    if exitOk then OnTaskFailed else OnTaskFinish
  }

  /** The handler evidently intended: a clean exit finishes the task, an error fails it. */
  function IntendedHandler(exitOk: bool): (h: Handler)
    ensures h == OnTaskFinish <==> exitOk
  {
    if exitOk then OnTaskFinish else OnTaskFailed
  }

  /** On every exit status the callback as written runs the handler opposite to the intended one. */
  lemma CallbackInverted(exitOk: bool)
    ensures CallbackHandler(exitOk) != IntendedHandler(exitOk)
  {
  }

  /** No two tasks of `ts` hold the same bus. */
  predicate OneTaskPerBus(ts: map<String, CopyTask>) {
    forall k1, k2 :: k1 in ts && k2 in ts && k1 != k2 && ts[k1].usbBus.Some? ==>
      ts[k1].usbBus != ts[k2].usbBus
  }

  /** Storing a task on a bus no task holds, or on no bus, keeps every bus held by at most one task. */
  lemma SetKeepsOneTaskPerBus(ts: map<String, CopyTask>, key: String, task: CopyTask)
    requires OneTaskPerBus(ts)
    requires task.usbBus.Some? ==> task.usbBus.value !in Occupied(ts)
    ensures OneTaskPerBus(ts[key := task])
  {
    var ts' := ts[key := task];
    forall k1, k2 | k1 in ts' && k2 in ts' && k1 != k2 && ts'[k1].usbBus.Some?
      ensures ts'[k1].usbBus != ts'[k2].usbBus
    {
      if k1 == key {
        assert k2 in ts;
      } else if k2 == key {
        assert ts[k1].usbBus.value in Occupied(ts);
      }
    }
  }

  /**
   * The manager's task table: the counter is past every task id, the order
   * lists each key once, each task sits under its own source path, and no
   * two tasks hold the same bus.
   */
  ghost predicate TaskTable(taskId: int, tasks: map<String, CopyTask>, order: seq<String>) {
    && taskId >= 1
    && NoDuplicates(order)
    && (forall k :: k in order <==> k in tasks)
    && (forall k :: k in tasks ==> tasks[k].fromPath == k && tasks[k].taskId < taskId)
    && OneTaskPerBus(tasks)
  }

  /** Storing a task made with the current counter, on an idle bus or none, and bumping the counter keeps the table. */
  lemma StoreKeepsTaskTable(taskId: int, tasks: map<String, CopyTask>, order: seq<String>, task: CopyTask)
    requires TaskTable(taskId, tasks, order)
    requires task.taskId == taskId
    requires task.usbBus.Some? ==> task.usbBus.value !in Occupied(tasks)
    ensures TaskTable(taskId + 1, tasks[task.fromPath := task],
      if task.fromPath in order then order else order + [task.fromPath])
  {
    SetKeepsOneTaskPerBus(tasks, task.fromPath, task);
    var order' := if task.fromPath in order then order else order + [task.fromPath];
    assert NoDuplicates(order');
  }

  /** Deleting a key keeps the table. */
  lemma DeleteKeepsTaskTable(taskId: int, tasks: map<String, CopyTask>, order: seq<String>, key: String)
    requires TaskTable(taskId, tasks, order)
    ensures TaskTable(taskId, tasks - {key}, Without(order, key))
  {
  }

  /**
   * The inner `while` of `getWriteDest` over a non-empty candidate list: the
   * first candidate is taken and probed, and whether or not the probe
   * succeeds the loop ends, since its test requires `writeDest` undefined.
   */
  method ProbeCandidates(candidates: seq<Part>, writable: set<String>)
    returns (writeDest: Option<String>, probed: seq<String>)
    requires |candidates| > 0
    ensures writeDest == Some(candidates[0].mount) && probed == [candidates[0].mount]
  {
    var availableParts := candidates;
    writeDest := None;
    probed := [];
    while |availableParts| != 0 && writeDest.None?
      invariant (writeDest.None? && probed == [] && availableParts == candidates)
             || (writeDest == Some(candidates[0].mount) && probed == [candidates[0].mount])
      decreases |availableParts|
    {
      var head := availableParts[0];
      availableParts := availableParts[1..];
      writeDest := Some(head.mount);
      probed := probed + [head.mount];
      if head.mount in writable {
        break;
      }
      // not writable: logged, and the loop test ends the loop anyway
    }
  }

  class CopyTaskManager {
    var taskId: int
    var tasks: map<String, CopyTask>
    var order: seq<String>        // the keys of `tasks` in insertion order, the iteration order of a JS Map
    var diskMapping: seq<BusGroup>
    const farmDir: String
    const plotNeedSize: int

    ghost predicate Valid()
      reads this
    {
      TaskTable(taskId, tasks, order) && WellGrouped(diskMapping)
    }

    constructor (farmDir: String, plotNeedSize: int)
      ensures Valid()
      ensures taskId == 1 && tasks == map[] && order == [] && diskMapping == []
      ensures this.farmDir == farmDir && this.plotNeedSize == plotNeedSize
    {
      taskId := 1;
      tasks := map[];
      order := [];
      diskMapping := [];
      this.farmDir := farmDir;
      this.plotNeedSize := plotNeedSize;
    }

    /**
     * `updateDiskMapping`: when `getDiskUsbAssign` resolves, the mapping is
     * replaced; when it rejects, the `.then` never runs and the old mapping
     * stays (the rejection itself goes unhandled, which this model does not follow).
     */
    method UpdateDiskMapping(assign: Result<seq<Part>>)
      requires Valid()
      modifies this`diskMapping
      ensures Valid()
      ensures diskMapping == if assign.Ok? then DiskMapping(assign.value) else old(diskMapping)
    {
      if assign.Ok? {
        DiskMappingWellGrouped(assign.value);
        diskMapping := DiskMapping(assign.value);
      }
    }

    /**
     * `getWriteDest()`. Undefined when no bus is idle. Otherwise it returns
     * the first idle bus that has a candidate, with the best-fit candidate the
     * only one probed; the returned `writeDest` is always undefined because
     * the mount is stored in an inner `let writeDest` that hides the outer one.
     */
    method GetWriteDest(spaces: seq<FsInfo>, writable: set<String>)
      returns (r: Option<WriteDestTuple>, probed: seq<String>)
      ensures r.None? <==> IdleBuses(diskMapping, tasks) == []
      ensures r.Some? ==> r.value == WriteDestTuple(FirstFeasibleBus(diskMapping, IdleBuses(diskMapping, tasks), spaces, farmDir, plotNeedSize), None)
      ensures probed == ProbedMounts(diskMapping, tasks, spaces, farmDir, plotNeedSize)
    {
      var hosts := IdleBuses(diskMapping, tasks);
      probed := [];
      if |hosts| == 0 {
        return None, probed;
      }
      var writeDest: Option<String> := None;
      var usbBus: Option<String> := None;
      var i := 0;
      while i < |hosts|
        invariant 0 <= i <= |hosts|
        invariant FirstFeasibleBus(diskMapping, hosts, spaces, farmDir, plotNeedSize)
               == FirstFeasibleBus(diskMapping, hosts[i..], spaces, farmDir, plotNeedSize)
        invariant usbBus.None? && probed == []
      {
        // `parts` merged with `getAllFsInfo`, filtered above `plotNeedSize` and sorted
        var availableParts := Candidates(diskMapping, hosts[i], spaces, farmDir, plotNeedSize);
        FirstFeasibleStep(diskMapping, hosts, i, spaces, farmDir, plotNeedSize);
        if |availableParts| == 0 {
          i := i + 1;
          continue;
        }
        // copy-task.js declares a second `writeDest` here; the outer one is never assigned
        var innerWriteDest;
        innerWriteDest, probed := ProbeCandidates(availableParts, writable);
        usbBus := Some(hosts[i]);
        break;
      }
      r := Some(WriteDestTuple(usbBus, writeDest));
    }

    /** `checkAvailable()`: never true, since the tuple's `writeDest` is always undefined. */
    method CheckAvailable(spaces: seq<FsInfo>, writable: set<String>) returns (ok: bool)
      ensures !ok
    {
      var r, probed := GetWriteDest(spaces, writable);
      if r.None? {
        return false;
      }
      ok := r.value.usbBus.Some? && r.value.writeDest.Some?;
    }

    /** `canHandleFile(fromPath)`: false whatever the mapping, because `checkAvailable` is. */
    method CanHandleFile(fromPath: String, spaces: seq<FsInfo>, writable: set<String>) returns (ok: bool)
      ensures !ok
    {
      var available := CheckAvailable(spaces, writable);
      if !available {
        return false;
      }
      if fromPath in tasks {
        return false;
      }
      ok := true;
    }

    /**
     * `getWriteDest()` as evidently intended: the inner `while` assigns the
     * outer `writeDest` and moves past candidates that fail the write probe,
     * and a bus is taken only once one of its candidates passes.
     */
    method GetWriteDestIntended(spaces: seq<FsInfo>, writable: set<String>) returns (r: Option<WriteDestTuple>)
      ensures r == IntendedWriteDest(diskMapping, tasks, spaces, writable, farmDir, plotNeedSize)
    {
      var hosts := IdleBuses(diskMapping, tasks);
      if |hosts| == 0 {
        return None;
      }
      var writeDest: Option<String> := None;
      var usbBus: Option<String> := None;
      var i := 0;
      while i < |hosts|
        invariant 0 <= i <= |hosts|
        invariant FirstWritableBus(diskMapping, hosts, spaces, writable, farmDir, plotNeedSize)
               == FirstWritableBus(diskMapping, hosts[i..], spaces, writable, farmDir, plotNeedSize)
        invariant usbBus.None? && writeDest.None?
      {
        var candidates := Candidates(diskMapping, hosts[i], spaces, farmDir, plotNeedSize);
        FirstWritableStep(diskMapping, hosts, i, spaces, writable, farmDir, plotNeedSize);
        var availableParts := candidates;
        while |availableParts| != 0 && writeDest.None?
          invariant FirstWritable(candidates, writable) ==
            if writeDest.Some? then writeDest else FirstWritable(availableParts, writable)
          decreases |availableParts|
        {
          var head := availableParts[0];
          availableParts := availableParts[1..];
          if head.mount in writable {
            writeDest := Some(head.mount);
          }
        }
        if writeDest.Some? {
          usbBus := Some(hosts[i]);
          break;
        }
        i := i + 1;
      }
      r := Some(WriteDestTuple(usbBus, writeDest));
    }

    /** `checkAvailable()` as evidently intended: some idle bus has a writable candidate. */
    method CheckAvailableIntended(spaces: seq<FsInfo>, writable: set<String>) returns (ok: bool)
      ensures ok <==> HasWritableDest(diskMapping, tasks, spaces, writable, farmDir, plotNeedSize)
    {
      var r := GetWriteDestIntended(spaces, writable);
      if r.None? {
        return false;
      }
      ok := r.value.usbBus.Some? && r.value.writeDest.Some?;
    }

    /** `canHandleFile(fromPath)` over the intended `checkAvailable`. */
    method CanHandleFileIntended(fromPath: String, spaces: seq<FsInfo>, writable: set<String>) returns (ok: bool)
      ensures ok <==> HasWritableDest(diskMapping, tasks, spaces, writable, farmDir, plotNeedSize) && fromPath !in tasks
    {
      var available := CheckAvailableIntended(spaces, writable);
      if !available {
        return false;
      }
      if fromPath in tasks {
        return false;
      }
      ok := true;
    }

    /**
     * `startTask(fromPath)`. When no bus is idle, destructuring the undefined
     * result throws and nothing changes. Otherwise a new task with the
     * pre-call id is stored under `fromPath`, replacing any task there, and
     * the counter goes up by one.
     */
    method StartTask(fromPath: String, spaces: seq<FsInfo>, writable: set<String>) returns (started: bool)
      requires Valid()
      modifies this`tasks, this`order, this`taskId
      ensures Valid()
      ensures started <==> IdleBuses(diskMapping, old(tasks)) != []
      ensures !started ==> tasks == old(tasks) && order == old(order) && taskId == old(taskId)
      ensures started ==> taskId == old(taskId) + 1
      ensures started ==> fromPath in tasks && fresh(tasks[fromPath])
      ensures started ==> tasks == old(tasks)[fromPath := tasks[fromPath]]
      ensures started ==> tasks[fromPath].taskId == old(taskId) && tasks[fromPath].fromPath == fromPath
      ensures started ==> tasks[fromPath].toPath.None?
      ensures started ==>
        tasks[fromPath].usbBus == FirstFeasibleBus(diskMapping, IdleBuses(diskMapping, old(tasks)), spaces, farmDir, plotNeedSize)
      ensures started ==> order == if fromPath in old(order) then old(order) else old(order) + [fromPath]
    {
      var id := taskId;
      var r, probed := GetWriteDest(spaces, writable);
      if r.None? {
        return false;
      }
      FeasibleBusIsIdle(diskMapping, tasks, spaces, farmDir, plotNeedSize);
      var task := Register(fromPath, r.value);
      started := true;
    }

    /**
     * `startTask` over the intended lookup: when some bus is idle, the task
     * takes the bus and mount `getWriteDest` evidently means to return.
     */
    method StartTaskIntended(fromPath: String, spaces: seq<FsInfo>, writable: set<String>) returns (started: bool)
      requires Valid()
      modifies this`tasks, this`order, this`taskId
      ensures Valid()
      ensures started <==> IdleBuses(diskMapping, old(tasks)) != []
      ensures !started ==> tasks == old(tasks) && order == old(order) && taskId == old(taskId)
      ensures started ==> taskId == old(taskId) + 1
      ensures started ==> fromPath in tasks && fresh(tasks[fromPath])
      ensures started ==> tasks == old(tasks)[fromPath := tasks[fromPath]]
      ensures started ==> tasks[fromPath].taskId == old(taskId) && tasks[fromPath].fromPath == fromPath
      ensures started ==> var d := IntendedWriteDest(diskMapping, old(tasks), spaces, writable, farmDir, plotNeedSize);
        tasks[fromPath].usbBus == d.value.usbBus && tasks[fromPath].toPath == d.value.writeDest
      ensures started ==> order == if fromPath in old(order) then old(order) else old(order) + [fromPath]
    {
      var r := GetWriteDestIntended(spaces, writable);
      if r.None? {
        return false;
      }
      var task := Register(fromPath, r.value);
      started := true;
    }

    /**
     * The rest of `startTask` once the destination is known: a task made with
     * the current id is stored under `fromPath`, replacing any task there
     * (`this.tasks.set`), and the counter goes up by one. A new key comes
     * last in the map's iteration order.
     */
    method Register(fromPath: String, dest: WriteDestTuple) returns (task: CopyTask)
      requires Valid()
      requires dest.usbBus.Some? ==> dest.usbBus.value !in Occupied(tasks)
      modifies this`tasks, this`order, this`taskId
      ensures Valid()
      ensures fresh(task)
      ensures task.taskId == old(taskId) && task.fromPath == fromPath
      ensures task.toPath == dest.writeDest && task.usbBus == dest.usbBus
      ensures tasks == old(tasks)[fromPath := task] && taskId == old(taskId) + 1
      ensures order == if fromPath in old(order) then old(order) else old(order) + [fromPath]
    {
      task := new CopyTask(taskId, fromPath, dest.writeDest, dest.usbBus);
      StoreKeepsTaskTable(taskId, tasks, order, task);
      tasks := tasks[fromPath := task];
      if fromPath !in order {
        order := order + [fromPath];
      }
      taskId := taskId + 1;
    }

    /**
     * The completion callback of `startTask`, with the handlers the right way
     * round (`CallbackHandler` is the inverted choice as written): a clean exit
     * runs `onTaskFinish` and a failed exit `onTaskFailed`. Both delete the
     * entry under the task's source path, whichever task is stored there now.
     */
    method Complete(task: CopyTask, exitOk: bool) returns (handler: Handler)
      requires Valid()
      modifies this`tasks, this`order
      ensures Valid()
      ensures handler == IntendedHandler(exitOk)
      ensures tasks == old(tasks) - {task.fromPath}
      ensures order == Without(old(order), task.fromPath)
    {
      handler := IntendedHandler(exitOk);
      DeleteKeepsTaskTable(taskId, tasks, order, task.fromPath);
      tasks := tasks - {task.fromPath};
      order := Without(order, task.fromPath);
    }

    /** The text `getReport()` builds. */
    function ReportText(): String
      requires Valid()
      reads this, tasks.Values
    {
      ReportHeader(|tasks|) + Concat(TaskLines(tasks, order))
    }

    /** `getReport()`: the count line, then one line per active task in insertion order. */
    method GetReport() returns (text: String)
      requires Valid()
      ensures text == ReportText()
    {
      ghost var head := ReportHeader(|tasks|);
      ghost var lines := TaskLines(tasks, order);
      text := ReportHeader(|tasks|);
      assert [head] + lines[..0] == [head];
      var i := 0;
      while i < |order|
        invariant 0 <= i <= |order|
        invariant text == Concat([head] + lines[..i])
      {
        var line := ReportLine(tasks[order[i]]);
        ConcatSnoc(head, lines, i);
        text := text + line;
        i := i + 1;
      }
      ConcatAll(head, lines);
    }

    /** Every active task has its line in the report. */
    lemma ReportListsEveryTask(k: String)
      requires Valid() && k in tasks
      ensures exists i :: OccursAt(ReportText(), ReportLine(tasks[k]), i)
    {
      var j :| 0 <= j < |order| && order[j] == k;
      var lines := TaskLines(tasks, order);
      ConcatHasLine(ReportHeader(|tasks|), lines, j);
      assert lines[j] == ReportLine(tasks[k]);
      assert ReportText() == ReportHeader(|tasks|) + Concat(lines);
    }
  }
}
