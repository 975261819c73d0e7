/**
 * The `log` crate's `Level` and `LevelFilter`, with the order the crate
 * gives them (its discriminants: `Error` = 1 up to `Trace` = 5, and `Off`
 * = 0 for a filter), and the names their `Display` prints.
 */
module LogLevels {
  import opened Text

  datatype Level = Error | Warn | Info | Debug | Trace

  /** The discriminant `PartialOrd` compares: the more verbose, the larger. */
  function Rank(l: Level): (r: nat)
    ensures 1 <= r <= 5
  {
    match l
    case Error => 1
    case Warn => 2
    case Info => 3
    case Debug => 4
    case Trace => 5
  }

  /** `LevelFilter`: nothing, or every level up to a most verbose one. */
  datatype LevelFilter = Off | UpTo(max: Level)

  function FilterRank(f: LevelFilter): nat {
    match f
    case Off => 0
    case UpTo(l) => Rank(l)
  }

  /** `level <= filter`: a record passes a filter when it is no more verbose than the filter allows. */
  predicate Enabled(l: Level, f: LevelFilter) {
    Rank(l) <= FilterRank(f)
  }

  /** `Display for Level`. */
  function Name(l: Level): string {
    match l
    case Error => "ERROR"
    case Warn => "WARN"
    case Info => "INFO"
    case Debug => "DEBUG"
    case Trace => "TRACE"
  }

  /** The name in lower case, as the configuration usually spells it. */
  function LowerName(l: Level): string {
    match l
    case Error => "error"
    case Warn => "warn"
    case Info => "info"
    case Debug => "debug"
    case Trace => "trace"
  }

  /** Lower-casing the printed name gives the lower-case name. */
  lemma LowerNameIsToLower(l: Level)
    ensures ToLower(Name(l)) == LowerName(l)
  {
    match l
    case Error => assert ToLower("ERROR") == "error";
    case Warn => assert ToLower("WARN") == "warn";
    case Info => assert ToLower("INFO") == "info";
    case Debug => assert ToLower("DEBUG") == "debug";
    case Trace => assert ToLower("TRACE") == "trace";
  }

  /** Each level prints under its own name. */
  lemma NameInjective(a: Level, b: Level)
    ensures Name(a) == Name(b) ==> a == b
  {
  }

  /** The terminal colours the two loggers paint level names in. */
  datatype Color = Red | Yellow | Green | Blue | Cyan

  /** Text printed in a colour; the escape sequences around it are not modelled. */
  datatype Styled = Styled(text: string, color: Color, bold: bool)
}
