/**
 * The first-generation logger (src/bot/utils/logger.rs): the
 * internal/external channel filter, the level mapping, the choice between
 * an environment variable and the configuration, the shortened target, and
 * the two lines the format closure writes for a record.
 */
module LegacyLogger {
  import opened Common
  import opened Text
  import opened LogLevels
  import opened Calendar

  /** `RedFilter`: which channel of records to show. */
  datatype RedFilter = Internal | External | Both

  /** `RedFilter::from_str` (lines 21-27): case-insensitive, anything unknown shows both. */
  function FilterFromStr(s: string): (f: RedFilter)
    ensures f == Internal <==> ToLower(s) == "internal"
    ensures f == External <==> ToLower(s) == "external"
  {
    match ToLower(s)
    case "internal" => Internal
    case "external" => External
    case _ => Both
  }

  /** Parsing the filter ignores case. */
  lemma FilterFromStrIgnoresCase(s: string)
    ensures FilterFromStr(ToLower(s)) == FilterFromStr(s)
  {
    ToLowerIdempotent(s);
  }

  /** A record of the bot's own code. */
  predicate IsInternal(target: string) {
    "red::" <= target
  }

  /** `should_show` (lines 30-37). */
  predicate ShouldShow(f: RedFilter, target: string) {
    match f
    case Internal => IsInternal(target)
    case External => !IsInternal(target)
    case Both => true
  }

  /** The external channel is the complement of the internal one, and both together show everything. */
  lemma ChannelsPartition(target: string)
    ensures ShouldShow(External, target) <==> !ShouldShow(Internal, target)
    ensures ShouldShow(Both, target)
    ensures ShouldShow(Internal, target) || ShouldShow(External, target)
  {
  }

  /** The level mapping (lines 71-78): `critical` is `error`, and every unknown string means `Trace`. */
  function LevelFilterOf(s: string): (f: LevelFilter)
    ensures f.UpTo?
    ensures ToLower(s) == "critical" ==> f == UpTo(Error)
  {
    match ToLower(s)
    case "critical" => UpTo(Error)
    case "error" => UpTo(Error)
    case "warn" => UpTo(Warn)
    case "info" => UpTo(Info)
    case "debug" => UpTo(Debug)
    case _ => UpTo(Trace)
  }

  /** Exactly which strings select which level. */
  lemma LevelFilterOfIff(s: string, l: Level)
    ensures LevelFilterOf(s) == UpTo(l) <==>
            match l
            case Error => ToLower(s) == "critical" || ToLower(s) == "error"
            case Warn => ToLower(s) == "warn"
            case Info => ToLower(s) == "info"
            case Debug => ToLower(s) == "debug"
            case Trace => ToLower(s) !in {"critical", "error", "warn", "info", "debug"}
  {
  }

  /** The mapping turns the printed name of a level back into that level. */
  lemma LevelFilterOfName(l: Level)
    ensures LevelFilterOf(Name(l)) == UpTo(l)
  {
    LowerNameIsToLower(l);
  }

  /** `env::var(...).ok().as_deref().unwrap_or(config)` (lines 66-69 and 81-84). */
  function Setting(env: Option<string>, config: string): (s: string)
    ensures env.Some? ==> s == env.value
    ensures env.None? ==> s == config
  {
    env.GetOr(config)
  }

  /** The filter in force: a set environment variable wins over the configuration, for the level and for the channel. */
  lemma EnvironmentWins(levelEnv: Option<string>, filterEnv: Option<string>, level: string, filter: string)
    ensures LevelFilterOf(Setting(levelEnv, level)) ==
            if levelEnv.Some? then LevelFilterOf(levelEnv.value) else LevelFilterOf(level)
    ensures FilterFromStr(Setting(filterEnv, filter)) ==
            if filterEnv.Some? then FilterFromStr(filterEnv.value) else FilterFromStr(filter)
  {
  }

  /** The shortened target (lines 123-128). */
  function DisplayedTarget(target: string): (d: string)
    ensures "serenity::" <= target ==> d == "[Serenity]"
    ensures !("serenity::" <= target) && "red::" <= target ==> d == "[Red]"
    ensures !("serenity::" <= target) && !("red::" <= target) ==> d == target
  {
    if "serenity::" <= target then "[Serenity]"
    else if "red::" <= target then "[Red]"
    else target
  }

  /** Shortening twice is shortening once: the short forms start with neither prefix. */
  lemma DisplayedTargetIdempotent(target: string)
    ensures DisplayedTarget(DisplayedTarget(target)) == DisplayedTarget(target)
  {
    var d := DisplayedTarget(target);
    if d == "[Serenity]" || d == "[Red]" {
      assert d[0] == '[';
    }
  }

  /** The colour of the console line (lines 141-147): Debug is cyan and Trace blue, the reverse of the current logger. */
  function LevelColor(l: Level): Color {
    match l
    case Error => Red
    case Warn => Yellow
    case Info => Green
    case Debug => Cyan
    case Trace => Blue
  }

  /** Each level has its own colour. */
  lemma LevelColorsDistinct(a: Level, b: Level)
    ensures LevelColor(a) == LevelColor(b) ==> a == b
  {
  }

  datatype Record = Record(level: Level, target: string, message: string)

  /**
   * What one record writes: the styled console text, the unstyled text
   * written after the colour is reset, and the line appended to `bot.log`.
   */
  datatype Written = Written(console: Styled, afterReset: string, file: string)

  /**
   * The format closure (lines 112-170): nothing for a record the channel
   * filter rejects; otherwise a bold coloured console message, ended by a
   * newline written after the reset, and a JSON-like file line, both naming
   * the shortened target.
   */
  function Emit(f: RedFilter, time: DateTime, r: Record): (w: Option<Written>)
    ensures w.Some? <==> ShouldShow(f, r.target)
    ensures w.Some? ==> w.value.console.color == LevelColor(r.level) && w.value.console.bold
    ensures w.Some? ==> w.value.afterReset == "\n"
  {
    if !ShouldShow(f, r.target) then None
    else
      var ts := Timestamp(time);
      var target := DisplayedTarget(r.target);
      Some(Written(
        Styled("[" + ts + "] [" + Name(r.level) + "] " + target + ": " + r.message, LevelColor(r.level), true),
        "\n",
        "{\"timestamp\":\"" + ts + "\",\"level\":\"" + Name(r.level) + "\",\"target\":\"" + target +
        "\",\"message\":\"" + r.message + "\"}\n"))
  }

  /** Both lines carry the same timestamp, level, target and message. */
  lemma EmitAgrees(f: RedFilter, time: DateTime, r: Record)
    requires ShouldShow(f, r.target)
    ensures var w := Emit(f, time, r).value;
            var head := "[" + Timestamp(time) + "] [" + Name(r.level) + "] " + DisplayedTarget(r.target) + ": ";
            w.console.text == head + r.message && w.afterReset == "\n" &&
            w.file[|w.file| - |r.message| - 3..] == r.message + "\"}\n"
  {
    var w := Emit(f, time, r).value;
    var pre := "{\"timestamp\":\"" + Timestamp(time) + "\",\"level\":\"" + Name(r.level) + "\",\"target\":\"" +
               DisplayedTarget(r.target) + "\",\"message\":\"";
    assert w.file == pre + (r.message + "\"}\n");
  }
}
