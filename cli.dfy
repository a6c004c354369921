/**
 * The command-line values the scripts read from yargs, and the JavaScript
 * truthiness their `if (!argv.x)` and `!!argv.x` tests apply.
 */
module Cli {
  import opened Text

  /** A command-line value: absent, or the boolean, string or number yargs parsed. */
  datatype ArgValue = Absent | Bool(b: bool) | Str(s: String) | Num(n: int)

  /** JavaScript truthiness of an argument value. */
  predicate Truthy(v: ArgValue) {
    match v
    case Absent => false
    case Bool(b) => b
    case Str(s) => s != ""
    case Num(n) => n != 0
  }

  /**
   * `hasDir(p)`: `existsSync(p) && statSync(p)` then `.isDirectory`, which is
   * the method itself and so truthy for any existing path; a non-string
   * argument does not exist.
   */
  predicate HasDir(v: ArgValue, existing: set<String>) {
    v.Str? && v.s in existing
  }
}
