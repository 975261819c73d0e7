/**
 * The routing rules of the current logger (src/bot/utils/log/logger.rs):
 * which records are heartbeat spam, how the configured level string becomes
 * a level filter, which records each of the three outputs (`red.log`, the
 * console, `serenity.log`) accepts, how each formats a record, and what
 * reaches each output once it has passed through a NoEmptyLineWriter.
 */
module Logger {
  import opened Common
  import opened Text
  import opened Bytes
  import opened LogLevels
  import opened Calendar
  import opened LineWriter
  import BotConfig

  // ---------------------------------------------------------------------
  // Heartbeat spam
  // ---------------------------------------------------------------------

  /** The twelve messages `is_spam` matches. */
  const SPAM_WORDS: set<string> := {
    "into_future;", "start;", "shutdown_all;", "initialize;", "run;", "check_last_start;",
    "recv;", "do_heartbeat;", "recv_event;", "update_manager;", "action;", "identify;"
  }

  /** `is_spam` (lines 62-79): the formatted message is exactly one of the spam words. */
  predicate IsSpam(message: string) {
    message in SPAM_WORDS
  }

  predicate IsLowerWordChar(c: char) {
    'a' <= c <= 'z' || c == '_'
  }

  /** Every spam word is lower-case letters and underscores closed by its only `;`. */
  lemma SpamWordShape(w: string)
    requires IsSpam(w)
    ensures |w| >= 2 && w[|w| - 1] == ';' && 'a' <= w[0] <= 'z'
    ensures forall i :: 0 <= i < |w| - 1 ==> IsLowerWordChar(w[i])
  {
  }

  /** Matching is not by prefix: nothing appended to a spam word is spam. */
  lemma SpamNotExtended(message: string, extra: string)
    requires IsSpam(message) && |extra| > 0
    ensures !IsSpam(message + extra)
  {
    SpamWordShape(message);
    var m := message + extra;
    assert m[|message| - 1] == ';';
    if IsSpam(m) {
      SpamWordShape(m);
      assert false;
    }
  }

  /** Matching is not trimmed: a spam word with a leading character that is not a letter is not spam. */
  lemma SpamNotTrimmed(message: string, c: char)
    requires IsSpam(message) && !('a' <= c <= 'z')
    ensures !IsSpam([c] + message)
    ensures !IsSpam(message + [c])
  {
    if IsSpam([c] + message) {
      SpamWordShape([c] + message);
      assert false;
    }
    SpamNotExtended(message, [c]);
  }

  /** ASCII upper-casing of one character. */
  function UpperChar(c: char): (r: char)
    ensures 'a' <= c <= 'z' ==> 'A' <= r <= 'Z'
  {
    if 'a' <= c <= 'z' then (c as int - 'a' as int + 'A' as int) as char else c
  }

  /** Matching is case-sensitive: capitalising a spam word makes it no longer spam. */
  lemma SpamIsCaseSensitive(message: string)
    requires IsSpam(message)
    ensures !IsSpam([UpperChar(message[0])] + message[1..])
  {
    SpamWordShape(message);
    var m := [UpperChar(message[0])] + message[1..];
    if IsSpam(m) {
      SpamWordShape(m);
      assert false;
    }
  }

  // ---------------------------------------------------------------------
  // The configured level
  // ---------------------------------------------------------------------

  /** The level mapping (lines 86-93): case-insensitive, unknown strings give `Info`. */
  function LevelFilterOf(s: string): (f: LevelFilter)
    ensures f.UpTo?
  {
    match ToLower(s)
    case "error" => UpTo(Error)
    case "warn" => UpTo(Warn)
    case "info" => UpTo(Info)
    case "debug" => UpTo(Debug)
    case "trace" => UpTo(Trace)
    case _ => UpTo(Info)
  }

  const LEVEL_NAMES: set<string> := {"error", "warn", "info", "debug", "trace"}

  /** Every level's name, in any case, selects that level; every other string selects `Info`. */
  lemma LevelFilterOfIff(s: string, l: Level)
    ensures LevelFilterOf(s) == UpTo(l) <==>
            ToLower(s) == LowerName(l) || (l == Info && ToLower(s) !in LEVEL_NAMES)
  {
  }

  /** The mapping turns the printed name of a level back into that level. */
  lemma LevelFilterOfName(l: Level)
    ensures LevelFilterOf(Name(l)) == UpTo(l)
  {
    LowerNameIsToLower(l);
  }

  /** The mapping ignores case. */
  lemma LevelFilterIgnoresCase(s: string)
    ensures LevelFilterOf(ToLower(s)) == LevelFilterOf(s)
  {
    ToLowerIdempotent(s);
  }

  /**
   * A configuration that BotConfig.Validate lets through runs at `Info` or
   * more verbose: `error` and `warn`, which the mapping knows, never get
   * past validation.
   */
  lemma ValidatedLevelIsVerbose(c: BotConfig.Config)
    requires BotConfig.Validate(c) == BotConfig.Continue
    ensures Rank(Info) <= FilterRank(LevelFilterOf(c.logging.logLevel))
  {
  }

  // ---------------------------------------------------------------------
  // Target filters (lines 150-153)
  // ---------------------------------------------------------------------

  /** The filter of `red.log` and the console: any target not starting with `serenity`. */
  predicate NonSerenity(target: string) {
    !("serenity" <= target)
  }

  /**
   * The filter of `serenity.log` as written: a `serenity` target at
   * `level >= Level::Warn`, which in the `log` crate's order means Warn or
   * more verbose.
   */
  predicate SerenityFilterAsWritten(target: string, level: Level) {
    "serenity" <= target && Rank(level) >= Rank(Warn)
  }

  /** As written, the `serenity.log` filter keeps everything from `serenity` except its errors. */
  lemma SerenityFilterAsWrittenDropsErrors(target: string, level: Level)
    ensures SerenityFilterAsWritten(target, level) <==> "serenity" <= target && level != Error
  {
  }

  /** The input that shows it: a gateway error is dropped while a gateway info record is kept. */
  lemma SerenityErrorIsDropped()
    ensures !SerenityFilterAsWritten("serenity::gateway", Error)
    ensures SerenityFilterAsWritten("serenity::gateway", Info)
  {
  }

  /** The filter the comment at lines 147-148 describes: a `serenity` target at Warning or higher severity. */
  predicate SerenityFilter(target: string, level: Level) {
    "serenity" <= target && Rank(level) <= Rank(Warn)
  }

  /** The corrected filter keeps exactly the errors and warnings from `serenity`. */
  lemma SerenityFilterKeepsErrorsAndWarnings(target: string, level: Level)
    ensures SerenityFilter(target, level) <==> "serenity" <= target && (level == Error || level == Warn)
  {
  }

  /** Both `serenity.log` filters are disjoint from the other outputs' filter, which takes every other target. */
  lemma FiltersPartitionTargets(target: string, level: Level)
    ensures !(NonSerenity(target) && SerenityFilter(target, level))
    ensures !(NonSerenity(target) && SerenityFilterAsWritten(target, level))
    ensures NonSerenity(target) || SerenityFilter(target, Error)
  {
  }

  // ---------------------------------------------------------------------
  // Formats and outputs
  // ---------------------------------------------------------------------

  datatype Record = Record(level: Level, target: string, message: string)

  /** The three chains of the dispatch (lines 166-185). */
  datatype Output = RedLog | Console | SerenityLog

  /** `colorize_level` (lines 214-222). */
  function ColorizeLevel(l: Level): (s: Styled)
    ensures s.text == Name(l) && s.bold
  {
    match l
    case Error => Styled("ERROR", Red, true)
    case Warn => Styled("WARN", Yellow, true)
    case Info => Styled("INFO", Green, true)
    case Debug => Styled("DEBUG", Blue, true)
    case Trace => Styled("TRACE", Cyan, true)
  }

  /** Each level has its own colour on the console. */
  lemma ColorsDistinct(a: Level, b: Level)
    ensures ColorizeLevel(a).color == ColorizeLevel(b).color ==> a == b
  {
  }

  /** `{timestamp} [{level}] {message}`. */
  function Line(time: DateTime, levelText: string, message: string): string {
    Timestamp(time) + " [" + levelText + "] " + message
  }

  /**
   * The text each chain formats a record as (lines 103-144): the empty string
   * for spam on `red.log` and the console; the console prints the level in
   * ColorizeLevel's colour, whose text is the level's name.
   */
  function Formatted(out: Output, time: DateTime, r: Record): string {
    match out
    case RedLog => if IsSpam(r.message) then "" else Line(time, Name(r.level), r.message)
    case Console => if IsSpam(r.message) then "" else Line(time, ColorizeLevel(r.level).text, r.message)
    case SerenityLog => Line(time, Name(r.level), r.message)
  }

  /**
   * Whether a chain accepts a record: the global level, then the chain's own
   * filter, with the `serenity.log` filter as written.
   */
  predicate Accepts(out: Output, global: LevelFilter, r: Record) {
    Enabled(r.level, global) &&
    match out
    case SerenityLog => SerenityFilterAsWritten(r.target, r.level)
    case _ => NonSerenity(r.target)
  }

  /** The routing the comment at lines 147-148 intends: `Accepts` with the corrected `serenity.log` filter. */
  predicate AcceptsIntended(out: Output, global: LevelFilter, r: Record) {
    Enabled(r.level, global) &&
    match out
    case SerenityLog => SerenityFilter(r.target, r.level)
    case _ => NonSerenity(r.target)
  }

  /**
   * The two routings agree on `red.log` and the console; on `serenity.log`
   * they differ exactly on the enabled `serenity` records that are not
   * warnings: errors, which only the intended one keeps, and Info, Debug and
   * Trace, which only the one as written keeps.
   */
  lemma AcceptsIntendedDiffers(out: Output, global: LevelFilter, r: Record)
    ensures out != SerenityLog ==> (Accepts(out, global, r) <==> AcceptsIntended(out, global, r))
    ensures out == SerenityLog ==>
      ((Accepts(out, global, r) != AcceptsIntended(out, global, r)) <==>
       Enabled(r.level, global) && "serenity" <= r.target && r.level != Warn)
    ensures out == SerenityLog && r.level == Error ==> !Accepts(out, global, r)
  {
    SerenityFilterAsWrittenDropsErrors(r.target, r.level);
    SerenityFilterKeepsErrorsAndWarnings(r.target, r.level);
  }

  /** The bytes a chain hands to its NoEmptyLineWriter for one record: the formatted text and a newline. */
  function Emitted(out: Output, global: LevelFilter, time: DateTime, r: Record): seq<byte> {
    if Accepts(out, global, r) then Utf8(Formatted(out, time, r) + "\n") else []
  }

  /** Whether a record shows up in an output after its NoEmptyLineWriter. */
  predicate Shown(out: Output, global: LevelFilter, r: Record) {
    Accepts(out, global, r) && (out == SerenityLog || !IsSpam(r.message))
  }

  datatype Event = Event(time: DateTime, record: Record)

  /** Everything a chain hands to its writer for a run of log calls. */
  function Stream(out: Output, global: LevelFilter, evs: seq<Event>): seq<byte> {
    if |evs| == 0 then [] else Emitted(out, global, evs[0].time, evs[0].record) + Stream(out, global, evs[1..])
  }

  /** The lines an output ends up holding: one per shown record, in order. */
  function ShownLines(out: Output, global: LevelFilter, evs: seq<Event>): seq<seq<byte>> {
    if |evs| == 0 then []
    else
      (if Shown(out, global, evs[0].record)
       then [Utf8(Formatted(out, evs[0].time, evs[0].record) + "\n")] else []) +
      ShownLines(out, global, evs[1..])
  }

  /** Text without a newline, followed by one, encodes as one complete line. */
  lemma TextLine(text: string)
    requires '\n' !in text
    ensures Utf8(text + "\n") == Utf8(text) + [NEWLINE]
    ensures IsLine(Utf8(text + "\n"))
  {
    Utf8Append(text, "\n");
    Utf8NoNewline(text);
    assert Utf8("\n") == [NEWLINE];
    var l := Utf8(text) + [NEWLINE];
    assert l[..|l| - 1] == Utf8(text);
  }

  /** A line of text is blank exactly when the text is empty, provided non-empty text starts visibly. */
  lemma TextLineBlank(text: string)
    requires '\n' !in text
    requires text != "" ==> 0x21 <= text[0] as int < 0x7F
    ensures IsBlank(Utf8(text + "\n")) <==> text == ""
  {
    TextLine(text);
    if text == "" {
      assert Utf8(text) == [];
    } else {
      Utf8NotBlank(text + "\n", 0);
    }
  }

  /** A record formats as empty text exactly when it is spam for `red.log` or the console; otherwise it starts with the timestamp. */
  lemma FormattedShape(out: Output, time: DateTime, r: Record)
    ensures Formatted(out, time, r) == "" <==> out != SerenityLog && IsSpam(r.message)
    ensures Formatted(out, time, r) != "" ==> Timestamp(time) <= Formatted(out, time, r)
    ensures '\n' !in r.message ==> '\n' !in Formatted(out, time, r)
  {
  }

  /** A formatted record is one complete line, blank only when it is spam on `red.log` or the console. */
  lemma EmittedLine(out: Output, time: DateTime, r: Record)
    requires '\n' !in r.message
    ensures IsLine(Utf8(Formatted(out, time, r) + "\n"))
    ensures IsBlank(Utf8(Formatted(out, time, r) + "\n")) <==> out != SerenityLog && IsSpam(r.message)
  {
    var text := Formatted(out, time, r);
    FormattedShape(out, time, r);
    TextLine(text);
    TextLineBlank(text);
  }

  /**
   * What an output receives: exactly the lines of the records it shows, in
   * order, with nothing left pending in its writer. In particular spam never
   * reaches `red.log` or the console, and no serenity record reaches them.
   */
  lemma {:induction false} OutputShowsExactly(out: Output, global: LevelFilter, evs: seq<Event>)
    requires forall i :: 0 <= i < |evs| ==> '\n' !in evs[i].record.message
    ensures Forwarded(Stream(out, global, evs)) == Concat(ShownLines(out, global, evs))
    ensures Tail(Stream(out, global, evs)) == []
  {
    if |evs| > 0 {
      var e := evs[0];
      var rest := Stream(out, global, evs[1..]);
      OutputShowsExactly(out, global, evs[1..]);
      var shownRest := ShownLines(out, global, evs[1..]);
      if Accepts(out, global, e.record) {
        var l := Utf8(Formatted(out, e.time, e.record) + "\n");
        assert Stream(out, global, evs) == l + rest;
        EmittedLine(out, e.time, e.record);
        LineThrough(l, rest);
        if Shown(out, global, e.record) {
          assert ShownLines(out, global, evs) == [l] + shownRest;
          assert Concat([l] + shownRest) == l + Concat(shownRest);
        } else {
          assert ShownLines(out, global, evs) == [] + shownRest;
          assert [] + shownRest == shownRest;
        }
      } else {
        assert Stream(out, global, evs) == [] + rest;
        assert [] + rest == rest;
        assert ShownLines(out, global, evs) == [] + shownRest;
        assert [] + shownRest == shownRest;
      }
    }
  }

  /** A record from `serenity` never shows on `red.log` or the console; one from elsewhere never on `serenity.log`. */
  lemma OutputsSplitByTarget(global: LevelFilter, r: Record)
    ensures "serenity" <= r.target ==> !Shown(RedLog, global, r) && !Shown(Console, global, r)
    ensures !("serenity" <= r.target) ==> !Shown(SerenityLog, global, r)
  {
  }

  /**
   * Routing of `serenity.gateway` records when the global level lets Info
   * through: Info and Warn records reach `serenity.log` and nothing else,
   * and an error reaches no output at all.
   */
  lemma SerenityGatewayRouting(global: LevelFilter)
    requires Enabled(Info, global)
    ensures Shown(SerenityLog, global, Record(Info, "serenity.gateway", "ready"))
    ensures Shown(SerenityLog, global, Record(Warn, "serenity.gateway", "ready"))
    ensures forall out :: out != SerenityLog ==> !Shown(out, global, Record(Info, "serenity.gateway", "ready"))
    ensures forall out :: out != SerenityLog ==> !Shown(out, global, Record(Warn, "serenity.gateway", "ready"))
    ensures forall out :: !Shown(out, global, Record(Error, "serenity.gateway", "ready"))
  {
    assert "serenity" <= "serenity.gateway";
  }

  /**
   * The same records under the intended routing: the Info record reaches no
   * output, while the Warn and Error records reach `serenity.log` only.
   */
  lemma SerenityGatewayRoutingIntended(global: LevelFilter)
    requires Enabled(Info, global)
    ensures forall out :: !AcceptsIntended(out, global, Record(Info, "serenity.gateway", "ready"))
    ensures AcceptsIntended(SerenityLog, global, Record(Warn, "serenity.gateway", "ready"))
    ensures AcceptsIntended(SerenityLog, global, Record(Error, "serenity.gateway", "ready"))
    ensures forall out :: out != SerenityLog ==> !AcceptsIntended(out, global, Record(Error, "serenity.gateway", "ready"))
  {
    assert "serenity" <= "serenity.gateway";
  }

  /**
   * Spam is elided from `red.log` and the console while an ordinary message
   * shows, even a blank one, which the timestamp prefix keeps from being an
   * empty line.
   */
  lemma SpamElidedOrdinaryShown(global: LevelFilter, l: Level, target: string)
    requires Enabled(l, global) && NonSerenity(target)
    ensures !Shown(RedLog, global, Record(l, target, "do_heartbeat;"))
    ensures !Shown(Console, global, Record(l, target, "do_heartbeat;"))
    ensures Shown(RedLog, global, Record(l, target, "hello"))
    ensures Shown(RedLog, global, Record(l, target, "  "))
  {
    assert !IsSpam("hello") by { SpamWordSetLacks("hello"); }
    assert !IsSpam("  ") by { SpamWordSetLacks("  "); }
  }

  lemma SpamWordSetLacks(m: string)
    requires m == "hello" || m == "  "
    ensures m !in SPAM_WORDS
  {
    if m in SPAM_WORDS {
      SpamWordShape(m);
      assert false;
    }
  }

  /** A record shows on `red.log` exactly when it shows on the console. */
  lemma FileAndConsoleAgree(global: LevelFilter, r: Record)
    ensures Shown(RedLog, global, r) <==> Shown(Console, global, r)
  {
  }

  // ---------------------------------------------------------------------
  // Log directory (lines 204-211)
  // ---------------------------------------------------------------------

  /** `create_log_directory`: the day's directory under the configured base. */
  function LogDirectory(base: string, today: Date): string {
    base + "/" + DateName(today)
  }

  /** The day directory is named by the date, and different days get different directories. */
  lemma LogDirectoryNamesDay(base: string, a: Date, b: Date)
    requires a.year < U32_LIMIT && a.month < U32_LIMIT && a.day < U32_LIMIT
    requires b.year < U32_LIMIT && b.month < U32_LIMIT && b.day < U32_LIMIT
    ensures LogDirectory(base, a)[|base| + 1..] == DateName(a)
    ensures LogDirectory(base, a) == LogDirectory(base, b) ==> a == b
  {
    var da, db := LogDirectory(base, a), LogDirectory(base, b);
    assert da[|base| + 1..] == DateName(a);
    assert db[|base| + 1..] == DateName(b);
    DateNameInjective(a, b);
  }
}
