/**
 * The readiness checks the two poll loops (services/usb-archiver/usb-archiver.js
 * and archiver.js) apply to a directory entry before a destination is sought:
 * the `.plot` suffix, the size gate and the age gate.
 */
module Readiness {
  import opened Text

  /** What `fs.statSync` reports about a file: its size in bytes and its modification time in milliseconds. */
  datatype FileStat = FileStat(size: int, mtimeMs: int)

  /** One name of `fs.readdirSync(watchDir)`; `stat` is `None` when `statSync` throws for it. */
  datatype DirEntry = DirEntry(name: String, stat: Option<FileStat>)

  /** `fileFullPath.endsWith('.plot')` */
  predicate IsPlotPath(path: String) {
    EndsWith(path, ".plot")
  }

  /** The joined path ends in `.plot` exactly when the file name does: the slash cannot be part of the suffix. */
  lemma PlotPathIffName(dir: String, name: String)
    ensures IsPlotPath(PathJoin(dir, name)) <==> EndsWith(name, ".plot")
  {
    var path := PathJoin(dir, name);
    if |name| >= 5 {
      assert path[|path| - 5..] == name[|name| - 5..];
    }
  }

  /** The outcome of the size and age gates for a `.plot` file. */
  datatype Gate = TooSmall | TooFresh | Ready

  /**
   * The age test as written, `new Date() - new Date(mtime) / 1000 < 45`:
   * the division binds first, so milliseconds lose a thousandth of the
   * modification time instead of the difference being turned into seconds.
   */
  predicate TooFreshAsWritten(nowMs: int, mtimeMs: int) {
    (nowMs as real) - (mtimeMs as real) / 1000.0 < 45.0
  }

  /** The age test evidently intended: fewer than 45 seconds since the last write. */
  predicate TooFreshIntended(nowMs: int, mtimeMs: int) {
    ((nowMs - mtimeMs) as real) / 1000.0 < 45.0
  }

  /**
   * `fileSize < plotSize` skips first; then the age test, with the evidently
   * intended precedence (`TooFreshAsWritten` is the test as written);
   * otherwise the file is ready.
   */
  function GateOf(stat: FileStat, nowMs: int, plotSize: int): (g: Gate)
    ensures g == TooSmall <==> stat.size < plotSize
    ensures g == TooFresh <==> stat.size >= plotSize && TooFreshIntended(nowMs, stat.mtimeMs)
    ensures g == Ready <==> stat.size >= plotSize && !TooFreshIntended(nowMs, stat.mtimeMs)
  {
    if stat.size < plotSize then TooSmall
    else if TooFreshIntended(nowMs, stat.mtimeMs) then TooFresh
    else Ready
  }

  /** A `.plot` entry whose stat succeeded and passed both gates. */
  predicate IsReadyPlot(e: DirEntry, nowMs: int, plotSize: int) {
    EndsWith(e.name, ".plot") && e.stat.Some? && GateOf(e.stat.value, nowMs, plotSize) == Ready
  }

  /**
   * With the clock past 46 seconds after the epoch, the age test as written
   * never holds a file back whose modification time is not in the future.
   */
  lemma AgeTestAsWrittenNeverWaits(nowMs: int, mtimeMs: int)
    requires 0 <= mtimeMs <= nowMs && nowMs >= 46000
    ensures !TooFreshAsWritten(nowMs, mtimeMs)
  {
    assert (mtimeMs as real) / 1000.0 <= (nowMs as real) / 1000.0;
    assert (nowMs as real) - (nowMs as real) / 1000.0 >= 45.0;
  }

  /** The intended test holds a file back exactly while its last write is under 45 000 ms old. */
  lemma AgeTestIntended(nowMs: int, mtimeMs: int)
    ensures TooFreshIntended(nowMs, mtimeMs) <==> nowMs - mtimeMs < 45000
  {
  }

  /** A file written at this very instant: the test as written lets it through, the intended one waits. */
  lemma JustWrittenPlotWitness()
    ensures !TooFreshAsWritten(1_700_000_000_000, 1_700_000_000_000)
    ensures TooFreshIntended(1_700_000_000_000, 1_700_000_000_000)
  {
  }
}
