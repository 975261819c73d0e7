/**
 * The bot's configuration file `config.toml` (src/bot/utils/config.rs): the
 * typed `Config` with its three sections, the step-by-step sanitiser that
 * rewrites the parsed TOML tree, the load-or-create procedure around it, and
 * the validation that ends the process on an unusable configuration.
 */
module BotConfig {
  import opened Common
  import opened Text
  import opened TomlValue

  const PLACEHOLDER_TOKEN: string := "placeholder_token"
  const DEFAULT_SHARDS: int := 1
  const DEFAULT_LOG_LEVEL: string := "info"
  const DEFAULT_LOG_FILTER: string := "Both"
  const DEFAULT_DIRECTORY: string := "logs"
  const DEFAULT_FREQUENCY: string := "7d"

  /** `u64` holds 0 .. 2^64 - 1. */
  const U64_LIMIT: int := 0x1_0000_0000_0000_0000

  /** A TOML integer is an `i64`: 0 .. 2^63 - 1 on the non-negative side. */
  const I64_LIMIT: int := 0x8000_0000_0000_0000

  const RED_SCHEMA: Schema := map["token" := Str(PLACEHOLDER_TOKEN), "shards" := Int(DEFAULT_SHARDS)]
  const LOGGING_SCHEMA: Schema :=
    map["log-level" := Str(DEFAULT_LOG_LEVEL), "log-filter" := Str(DEFAULT_LOG_FILTER), "directory" := Str(DEFAULT_DIRECTORY)]
  const LOGROTATE_SCHEMA: Schema := map["frequency" := Str(DEFAULT_FREQUENCY)]

  /** The known top-level sections, each with its fields and defaults. */
  const SCHEMAS: map<string, Schema> :=
    map["red" := RED_SCHEMA, "logging" := LOGGING_SCHEMA, "logrotate" := LOGROTATE_SCHEMA]

  datatype RedConfig = RedConfig(token: string, shards: nat)
  datatype LoggingConfig = LoggingConfig(logLevel: string, logFilter: string, directory: string)
  datatype LogRotateConfig = LogRotateConfig(frequency: string)
  datatype Config = Config(red: RedConfig, logging: LoggingConfig, logrotate: LogRotateConfig)

  /** Every `Config` the program can hold: `shards` is a `u64`. */
  predicate WellFormed(c: Config) {
    c.red.shards < U64_LIMIT
  }

  /** `Config::new`: the given token and shard count, every other field at its default. */
  function New(token: string, shards: nat): (c: Config)
    requires shards < U64_LIMIT
    ensures WellFormed(c)
  {
    Config(RedConfig(token, shards),
           LoggingConfig(DEFAULT_LOG_LEVEL, DEFAULT_LOG_FILTER, DEFAULT_DIRECTORY),
           LogRotateConfig(DEFAULT_FREQUENCY))
  }

  /** The TOML document that serialising a `Config` produces (`toml::to_string_pretty`, as a tree). */
  function ToValue(c: Config): Value {
    Table(map["red" := Table(RedTable(c.red)),
              "logging" := Table(LoggingTable(c.logging)),
              "logrotate" := Table(LogRotateTable(c.logrotate))])
  }

  function RedTable(r: RedConfig): map<string, Value> {
    map["token" := Str(r.token), "shards" := Int(r.shards)]
  }

  function LoggingTable(l: LoggingConfig): map<string, Value> {
    map["log-level" := Str(l.logLevel), "log-filter" := Str(l.logFilter), "directory" := Str(l.directory)]
  }

  function LogRotateTable(l: LogRotateConfig): map<string, Value> {
    map["frequency" := Str(l.frequency)]
  }

  /** A string field of a table, as serde reads it. */
  function StrField(t: map<string, Value>, k: string): Option<string> {
    if k in t && t[k].Str? then Some(t[k].s) else None
  }

  /** A table-valued field of a table, as serde reads it. */
  function TableField(t: map<string, Value>, k: string): Option<map<string, Value>> {
    if k in t && t[k].Table? then Some(t[k].t) else None
  }

  /**
   * Deserialising a tree into a `Config` (serde with its default rules):
   * every section must be a table holding every field with its type, `shards`
   * must fit a `u64`; keys that `Config` does not name are ignored.
   */
  function FromValue(v: Value): (r: Option<Config>)
    ensures r.Some? ==> WellFormed(r.value)
  {
    if !v.Table? then None
    else
      var red :- TableField(v.t, "red");
      var logging :- TableField(v.t, "logging");
      var logrotate :- TableField(v.t, "logrotate");
      var r :- ReadRed(red);
      var l :- ReadLogging(logging);
      var lr :- ReadLogRotate(logrotate);
      Some(Config(r, l, lr))
  }

  function ReadRed(t: map<string, Value>): (r: Option<RedConfig>)
    ensures r.Some? ==> r.value.shards < U64_LIMIT
  {
    var token :- StrField(t, "token");
    var shards :- if "shards" in t && t["shards"].Int? && 0 <= t["shards"].i < U64_LIMIT
                  then Some(t["shards"].i as nat) else None;
    Some(RedConfig(token, shards))
  }

  function ReadLogging(t: map<string, Value>): Option<LoggingConfig> {
    var level :- StrField(t, "log-level");
    var filter :- StrField(t, "log-filter");
    var directory :- StrField(t, "directory");
    Some(LoggingConfig(level, filter, directory))
  }

  function ReadLogRotate(t: map<string, Value>): Option<LogRotateConfig> {
    var frequency :- StrField(t, "frequency");
    Some(LogRotateConfig(frequency))
  }

  /**
   * `toml::to_string_pretty` of a configuration (line 74): its document, or
   * an error when `shards` does not fit a TOML integer.
   */
  function Serialize(c: Config): Option<Value> {
    if c.red.shards < I64_LIMIT then Some(ToValue(c)) else None
  }

  /**
   * Deserialising a configuration's document gives it back; serialising
   * succeeds exactly when `shards` fits an `i64`, and what it writes reads
   * back as the configuration.
   */
  lemma FromToValue(c: Config)
    requires WellFormed(c)
    ensures FromValue(ToValue(c)) == Some(c)
    ensures Serialize(c).Some? <==> c.red.shards < I64_LIMIT
    ensures Serialize(c).Some? ==> FromValue(Serialize(c).value) == Some(c)
  {
  }

  // ---------------------------------------------------------------------
  // Sanitising the parsed tree
  // ---------------------------------------------------------------------

  datatype SanitizeError = RootNotTable

  /**
   * What the sanitiser makes of a parsed document: a root that is not a table
   * is an error; otherwise only the known sections remain, each sanitised
   * against its schema.
   */
  function Sanitized(parsed: Value): Result<Value, SanitizeError> {
    if parsed.Table? then Ok(Table(SanitizedRoot(parsed.t, SCHEMAS))) else Err(RootNotTable)
  }

  /** The `red` section (lines 105-134): retain, insert the missing fields, then fix their types. */
  method SanitizeRed(section: Value) returns (r: Value)
    ensures r == SanitizedSection(section, RED_SCHEMA)
  {
    r := section;
    if r.Table? {
      var t := Retain(r.t, {"token", "shards"});
      t := InsertMissing(t, "token", Str(PLACEHOLDER_TOKEN));
      t := InsertMissing(t, "shards", Int(DEFAULT_SHARDS));
      t := ReplaceIfNotKind(t, "token", Str(PLACEHOLDER_TOKEN));
      t := ReplaceIfNotKind(t, "shards", Int(DEFAULT_SHARDS));
      Steps2(r.t, "token", Str(PLACEHOLDER_TOKEN), "shards", Int(DEFAULT_SHARDS));
      SanitizedFields2(r.t, "token", Str(PLACEHOLDER_TOKEN), "shards", Int(DEFAULT_SHARDS));
      r := Table(t);
    }
  }

  /** The `logging` section (lines 139-174). */
  method SanitizeLogging(section: Value) returns (r: Value)
    ensures r == SanitizedSection(section, LOGGING_SCHEMA)
  {
    r := section;
    if r.Table? {
      var t := Retain(r.t, {"log-level", "log-filter", "directory"});
      t := InsertMissing(t, "log-level", Str(DEFAULT_LOG_LEVEL));
      t := InsertMissing(t, "log-filter", Str(DEFAULT_LOG_FILTER));
      t := InsertMissing(t, "directory", Str(DEFAULT_DIRECTORY));
      t := ReplaceIfNotKind(t, "log-level", Str(DEFAULT_LOG_LEVEL));
      t := ReplaceIfNotKind(t, "log-filter", Str(DEFAULT_LOG_FILTER));
      t := ReplaceIfNotKind(t, "directory", Str(DEFAULT_DIRECTORY));
      Steps3(r.t, "log-level", Str(DEFAULT_LOG_LEVEL), "log-filter", Str(DEFAULT_LOG_FILTER),
             "directory", Str(DEFAULT_DIRECTORY));
      SanitizedFields3(r.t, "log-level", Str(DEFAULT_LOG_LEVEL), "log-filter", Str(DEFAULT_LOG_FILTER),
                       "directory", Str(DEFAULT_DIRECTORY));
      r := Table(t);
    }
  }

  /** The `logrotate` section (lines 179-198). */
  method SanitizeLogrotate(section: Value) returns (r: Value)
    ensures r == SanitizedSection(section, LOGROTATE_SCHEMA)
  {
    r := section;
    if r.Table? {
      var t := Retain(r.t, {"frequency"});
      t := InsertMissing(t, "frequency", Str(DEFAULT_FREQUENCY));
      t := ReplaceIfNotKind(t, "frequency", Str(DEFAULT_FREQUENCY));
      Steps1(r.t, "frequency", Str(DEFAULT_FREQUENCY));
      SanitizedFields1(r.t, "frequency", Str(DEFAULT_FREQUENCY));
      r := Table(t);
    }
  }

  /**
   * The sanitising body of `load_or_create_and_validate` (lines 94-198):
   * the root must be a table; unknown sections are dropped and each known
   * section is created when missing and sanitised in turn.
   */
  method Sanitize(parsed: Value) returns (r: Result<Value, SanitizeError>)
    ensures r == Sanitized(parsed)
  {
    if !parsed.Table? {
      return Err(RootNotTable);
    }
    var table := Retain(parsed.t, {"red", "logging", "logrotate"});
    RetainedKeys(parsed.t, {"red", "logging", "logrotate"});
    ghost var retained := table;
    var red := SanitizeRed(SectionOrEmpty(table, "red"));
    table := table["red" := red];
    assert SectionOrEmpty(table, "logging") == SectionOrEmpty(parsed.t, "logging");
    var logging := SanitizeLogging(SectionOrEmpty(table, "logging"));
    table := table["logging" := logging];
    assert SectionOrEmpty(table, "logrotate") == SectionOrEmpty(parsed.t, "logrotate");
    var logrotate := SanitizeLogrotate(SectionOrEmpty(table, "logrotate"));
    table := table["logrotate" := logrotate];
    Overwrite3(retained, "red", red, "logging", logging, "logrotate", logrotate);
    SanitizedRoot3(parsed.t, "red", RED_SCHEMA, "logging", LOGGING_SCHEMA, "logrotate", LOGROTATE_SCHEMA);
    r := Ok(Table(table));
  }

  // ---------------------------------------------------------------------
  // Properties of the sanitiser
  // ---------------------------------------------------------------------

  /** The sanitised document, spelt out section by section. */
  lemma SanitizedSpelled(t: map<string, Value>)
    ensures Sanitized(Table(t)) ==
            Ok(Table(map["red" := SanitizedSection(SectionOrEmpty(t, "red"), RED_SCHEMA),
                         "logging" := SanitizedSection(SectionOrEmpty(t, "logging"), LOGGING_SCHEMA),
                         "logrotate" := SanitizedSection(SectionOrEmpty(t, "logrotate"), LOGROTATE_SCHEMA)]))
  {
    SanitizedRoot3(t, "red", RED_SCHEMA, "logging", LOGGING_SCHEMA, "logrotate", LOGROTATE_SCHEMA);
  }

  /** A sanitised `red` table, field by field. */
  lemma RedSpelled(x: map<string, Value>)
    ensures SanitizedFields(x, RED_SCHEMA) ==
            map["token" := Fix(x, "token", Str(PLACEHOLDER_TOKEN)), "shards" := Fix(x, "shards", Int(DEFAULT_SHARDS))]
  {
    SanitizedFields2(x, "token", Str(PLACEHOLDER_TOKEN), "shards", Int(DEFAULT_SHARDS));
  }

  /** A sanitised `logging` table, field by field. */
  lemma LoggingSpelled(x: map<string, Value>)
    ensures SanitizedFields(x, LOGGING_SCHEMA) ==
            map["log-level" := Fix(x, "log-level", Str(DEFAULT_LOG_LEVEL)),
                "log-filter" := Fix(x, "log-filter", Str(DEFAULT_LOG_FILTER)),
                "directory" := Fix(x, "directory", Str(DEFAULT_DIRECTORY))]
  {
    SanitizedFields3(x, "log-level", Str(DEFAULT_LOG_LEVEL), "log-filter", Str(DEFAULT_LOG_FILTER),
                     "directory", Str(DEFAULT_DIRECTORY));
  }

  /** A sanitised `logrotate` table, field by field. */
  lemma LogrotateSpelled(x: map<string, Value>)
    ensures SanitizedFields(x, LOGROTATE_SCHEMA) == map["frequency" := Fix(x, "frequency", Str(DEFAULT_FREQUENCY))]
  {
    SanitizedFields1(x, "frequency", Str(DEFAULT_FREQUENCY));
  }

  /** The sanitised root holds exactly the three known sections. */
  lemma SanitizedRootKeys(t: map<string, Value>)
    ensures Sanitized(Table(t)).Ok?
    ensures Sanitized(Table(t)).value.Table?
    ensures Sanitized(Table(t)).value.t.Keys == {"red", "logging", "logrotate"}
  {
    SanitizedSpelled(t);
  }

  /**
   * A known section that was missing or a table ends a table with exactly its
   * schema's fields, each of its schema's type; one of any other kind is kept
   * as it was.
   */
  lemma SanitizedSectionShape(t: map<string, Value>, name: string)
    requires name in SCHEMAS
    ensures name !in t || t[name].Table? ==>
              var s := Sanitized(Table(t)).value.t[name];
              s.Table? && s.t.Keys == SCHEMAS[name].Keys &&
              forall k :: k in SCHEMAS[name] ==> HasKindOf(s.t[k], SCHEMAS[name][k])
    ensures name in t && !t[name].Table? ==> Sanitized(Table(t)).value.t[name] == t[name]
  {
    SanitizedFieldsShape(if name in t && t[name].Table? then t[name].t else map[], SCHEMAS[name]);
  }

  /**
   * One field of a known section that is a table: a value of the right type is
   * kept, and a missing or wrongly typed one becomes the default.
   */
  lemma SanitizedFieldValue(t: map<string, Value>, name: string, field: string)
    requires name in SCHEMAS && field in SCHEMAS[name]
    requires name in t && t[name].Table?
    ensures var s := Sanitized(Table(t)).value.t[name].t;
            var old_t := t[name].t;
            (field in old_t && HasKindOf(old_t[field], SCHEMAS[name][field]) ==> s[field] == old_t[field]) &&
            (field !in old_t ==> s[field] == SCHEMAS[name][field]) &&
            (field in old_t && !HasKindOf(old_t[field], SCHEMAS[name][field]) ==> s[field] == SCHEMAS[name][field])
  {
    SanitizedField(t[name].t, SCHEMAS[name], field);
  }

  /** Sanitising a sanitised document changes nothing. */
  lemma SanitizedIdempotent(parsed: Value)
    requires Sanitized(parsed).Ok?
    ensures Sanitized(Sanitized(parsed).value) == Sanitized(parsed)
  {
    SanitizedRootIdempotent(parsed.t, SCHEMAS);
  }

  /** The document a fresh configuration is written as. */
  function DefaultDocument(): Value {
    ToValue(New(PLACEHOLDER_TOKEN, DEFAULT_SHARDS))
  }

  /**
   * A file that does not parse is read as an empty table, which sanitises to
   * the same document that a missing file is created with.
   */
  lemma UnparseableGivesDefaults()
    ensures Sanitized(Table(map[])) == Ok(DefaultDocument())
  {
    SanitizedSpelled(map[]);
    RedSpelled(map[]);
    LoggingSpelled(map[]);
    LogrotateSpelled(map[]);
  }

  /** A serialised `red` section is already sanitised. */
  lemma RedTableFixed(r: RedConfig)
    ensures SanitizedFields(RedTable(r), RED_SCHEMA) == RedTable(r)
  {
    RedSpelled(RedTable(r));
  }

  /** A serialised `logging` section is already sanitised. */
  lemma LoggingTableFixed(l: LoggingConfig)
    ensures SanitizedFields(LoggingTable(l), LOGGING_SCHEMA) == LoggingTable(l)
  {
    LoggingSpelled(LoggingTable(l));
  }

  /** A serialised `logrotate` section is already sanitised. */
  lemma LogRotateTableFixed(l: LogRotateConfig)
    ensures SanitizedFields(LogRotateTable(l), LOGROTATE_SCHEMA) == LogRotateTable(l)
  {
    LogrotateSpelled(LogRotateTable(l));
  }

  /** A serialised configuration is already sanitised. */
  lemma ConfigDocumentIsFixedPoint(c: Config)
    ensures Sanitized(ToValue(c)) == Ok(ToValue(c))
  {
    SanitizedSpelled(ToValue(c).t);
    RedTableFixed(c.red);
    LoggingTableFixed(c.logging);
    LogRotateTableFixed(c.logrotate);
  }

  /** `shards` as deserialising reads it: an integer that fits a `u64`. */
  predicate ShardsFit(red: Value) {
    red.Table? && "shards" in red.t && red.t["shards"].Int? && 0 <= red.t["shards"].i < U64_LIMIT
  }

  /**
   * After sanitising, deserialising fails only on a section that is not a
   * table or a `shards` that does not fit a `u64`; when it succeeds it reads
   * back exactly the document that was written.
   */
  lemma SanitizedConverts(t: map<string, Value>)
    ensures var red := SanitizedSection(SectionOrEmpty(t, "red"), RED_SCHEMA);
            var logging := SanitizedSection(SectionOrEmpty(t, "logging"), LOGGING_SCHEMA);
            var logrotate := SanitizedSection(SectionOrEmpty(t, "logrotate"), LOGROTATE_SCHEMA);
            FromValue(Sanitized(Table(t)).value).Some? <==>
              red.Table? && logging.Table? && logrotate.Table? && ShardsFit(red)
    ensures FromValue(Sanitized(Table(t)).value).Some? ==>
              ToValue(FromValue(Sanitized(Table(t)).value).value) == Sanitized(Table(t)).value
  {
    SanitizedSpelled(t);
    RedReadsBack(SectionOrEmpty(t, "red"));
    LoggingReadsBack(SectionOrEmpty(t, "logging"));
    LogRotateReadsBack(SectionOrEmpty(t, "logrotate"));
  }

  /** A sanitised `red` table reads as a `RedConfig` exactly when `shards` fits, and reads back whole. */
  lemma RedReadsBack(v: Value)
    ensures var s := SanitizedSection(v, RED_SCHEMA);
            s.Table? ==> (ReadRed(s.t).Some? <==> ShardsFit(s)) &&
                         (ReadRed(s.t).Some? ==> RedTable(ReadRed(s.t).value) == s.t)
  {
    if v.Table? {
      RedSpelled(v.t);
      FixHasKind(v.t, "token", Str(PLACEHOLDER_TOKEN));
      FixHasKind(v.t, "shards", Int(DEFAULT_SHARDS));
    }
  }

  /** A sanitised `logging` table always reads as a `LoggingConfig`, and reads back whole. */
  lemma LoggingReadsBack(v: Value)
    ensures var s := SanitizedSection(v, LOGGING_SCHEMA);
            s.Table? ==> ReadLogging(s.t).Some? && LoggingTable(ReadLogging(s.t).value) == s.t
  {
    if v.Table? {
      LoggingSpelled(v.t);
      FixHasKind(v.t, "log-level", Str(DEFAULT_LOG_LEVEL));
      FixHasKind(v.t, "log-filter", Str(DEFAULT_LOG_FILTER));
      FixHasKind(v.t, "directory", Str(DEFAULT_DIRECTORY));
    }
  }

  /** A sanitised `logrotate` table always reads as a `LogRotateConfig`, and reads back whole. */
  lemma LogRotateReadsBack(v: Value)
    ensures var s := SanitizedSection(v, LOGROTATE_SCHEMA);
            s.Table? ==> ReadLogRotate(s.t).Some? && LogRotateTable(ReadLogRotate(s.t).value) == s.t
  {
    if v.Table? {
      LogrotateSpelled(v.t);
      FixHasKind(v.t, "frequency", Str(DEFAULT_FREQUENCY));
    }
  }

  // ---------------------------------------------------------------------
  // Validation and the whole load procedure
  // ---------------------------------------------------------------------

  /** Why the process ends with exit status 1. */
  datatype ExitReason = CreatedDefault | PlaceholderToken | InvalidLogLevel | InvalidLogFilter

  datatype Verdict = Continue | Exit(reason: ExitReason)

  const VALID_LOG_LEVELS: set<string> := {"info", "debug", "trace"}
  const VALID_LOG_FILTERS: set<string> := {"internal", "external", "both"}

  /** `validate` (lines 211-246): the token first, then the log level, then the filter. */
  function Validate(c: Config): (v: Verdict)
    ensures v != Exit(CreatedDefault)
  {
    if c.red.token == PLACEHOLDER_TOKEN then Exit(PlaceholderToken)
    else if ToLower(c.logging.logLevel) !in VALID_LOG_LEVELS then Exit(InvalidLogLevel)
    else if ToLower(c.logging.logFilter) !in VALID_LOG_FILTERS then Exit(InvalidLogFilter)
    else Continue
  }

  /** Validation exits exactly when one of its three conditions holds, naming the first. */
  lemma ValidateExitsIff(c: Config)
    ensures Validate(c).Exit? <==>
              c.red.token == PLACEHOLDER_TOKEN ||
              ToLower(c.logging.logLevel) !in VALID_LOG_LEVELS ||
              ToLower(c.logging.logFilter) !in VALID_LOG_FILTERS
    ensures c.red.token == PLACEHOLDER_TOKEN ==> Validate(c) == Exit(PlaceholderToken)
    ensures Validate(c) == Exit(InvalidLogFilter) ==> ToLower(c.logging.logLevel) in VALID_LOG_LEVELS
  {
  }

  /** The level and filter checks ignore ASCII case. */
  lemma ValidateIgnoresCase(c: Config)
    ensures Validate(c) ==
            Validate(c.(logging := c.logging.(logLevel := ToLower(c.logging.logLevel),
                                              logFilter := ToLower(c.logging.logFilter))))
  {
    ToLowerIdempotent(c.logging.logLevel);
    ToLowerIdempotent(c.logging.logFilter);
  }

  /** The file `config.toml` as the load procedure finds it. */
  datatype ConfigFile =
    | Missing
      /** `parsed` is `None` when the text is not valid TOML. */
    | Present(parsed: Option<Value>)

  /** The `?`-propagated failures. */
  datatype LoadError = ReadFailed | WriteFailed | Malformed(SanitizeError) | ConversionFailed

  datatype LoadOutcome =
    | Loaded(config: Config)
    | Exited(reason: ExitReason)
    | Failed(error: LoadError)

  /**
   * `load_or_create_and_validate` (lines 65-208): `readOk` and `writeOk` say
   * whether reading and writing the file succeed; `written` is the document
   * left in the file, when one is written.
   */
  method LoadOrCreateAndValidate(file: ConfigFile, readOk: bool, writeOk: bool)
    returns (written: Option<Value>, o: LoadOutcome)
    ensures file.Missing? ==>
              written == (if writeOk then Some(DefaultDocument()) else None) &&
              o == (if writeOk then Exited(CreatedDefault) else Failed(WriteFailed))
    ensures file.Present? && !readOk ==> written == None && o == Failed(ReadFailed)
    ensures file.Present? && readOk ==>
              var s := Sanitized(file.parsed.GetOr(Table(map[])));
              if s.Err? then written == None && o == Failed(Malformed(s.error))
              else if !writeOk then written == None && o == Failed(WriteFailed)
              else written == Some(s.value) &&
                   o == match FromValue(s.value)
                        case None => Failed(ConversionFailed)
                        case Some(c) => if Validate(c).Exit? then Exited(Validate(c).reason) else Loaded(c)
  {
    if file.Missing? {
      if !writeOk {
        return None, Failed(WriteFailed);
      }
      return Some(ToValue(New(PLACEHOLDER_TOKEN, DEFAULT_SHARDS))), Exited(CreatedDefault);
    }
    if !readOk {
      return None, Failed(ReadFailed);
    }
    var parsed := if file.parsed.Some? then file.parsed.value else Table(map[]);
    var s := Sanitize(parsed);
    if s.Err? {
      return None, Failed(Malformed(s.error));
    }
    if !writeOk {
      return None, Failed(WriteFailed);
    }
    written := Some(s.value);
    var config := FromValue(s.value);
    if config.None? {
      return written, Failed(ConversionFailed);
    }
    var verdict := Validate(config.value);
    if verdict.Exit? {
      return written, Exited(verdict.reason);
    }
    o := Loaded(config.value);
  }

  /** A configuration the load procedure hands back is valid and is what the file now holds. */
  lemma LoadedIsValid(file: ConfigFile, readOk: bool, writeOk: bool, c: Config)
    requires file.Present? && readOk && writeOk
    requires Sanitized(file.parsed.GetOr(Table(map[]))).Ok?
    requires FromValue(Sanitized(file.parsed.GetOr(Table(map[]))).value) == Some(c)
    ensures Validate(c) == Continue ==> c.red.token != PLACEHOLDER_TOKEN &&
                                        ToLower(c.logging.logLevel) in VALID_LOG_LEVELS
    ensures ToValue(c) == Sanitized(file.parsed.GetOr(Table(map[]))).value
  {
    SanitizedConverts(file.parsed.GetOr(Table(map[])).t);
  }

  /** An unparseable file ends the process over the placeholder token, after being rewritten with the defaults. */
  lemma UnparseableFileExits()
    ensures FromValue(DefaultDocument()) == Some(New(PLACEHOLDER_TOKEN, DEFAULT_SHARDS))
    ensures Validate(New(PLACEHOLDER_TOKEN, DEFAULT_SHARDS)) == Exit(PlaceholderToken)
  {
    FromToValue(New(PLACEHOLDER_TOKEN, DEFAULT_SHARDS));
  }

  // ---------------------------------------------------------------------
  // The scenarios of tests/test-config.rs, on the written document
  // ---------------------------------------------------------------------

  /** An extra top-level section is dropped from the rewritten file. */
  lemma ExtraSectionRemoved(c: Config, extra: string, v: Value)
    requires extra !in SCHEMAS
    ensures Sanitized(Table(ToValue(c).t[extra := v])) == Ok(ToValue(c))
  {
    var doc := ToValue(c).t[extra := v];
    SanitizedSpelled(doc);
    SanitizedSpelled(ToValue(c).t);
    assert SectionOrEmpty(doc, "red") == SectionOrEmpty(ToValue(c).t, "red");
    assert SectionOrEmpty(doc, "logging") == SectionOrEmpty(ToValue(c).t, "logging");
    assert SectionOrEmpty(doc, "logrotate") == SectionOrEmpty(ToValue(c).t, "logrotate");
    ConfigDocumentIsFixedPoint(c);
  }

  /** A removed `token` comes back as the placeholder. */
  lemma MissingTokenRestored(c: Config)
    ensures var t := ToValue(c).t;
            Sanitized(Table(t["red" := Table(map["shards" := Int(c.red.shards)])])) ==
            Ok(ToValue(c.(red := c.red.(token := PLACEHOLDER_TOKEN))))
  {
    var t := ToValue(c).t;
    var doc := t["red" := Table(map["shards" := Int(c.red.shards)])];
    SanitizedSpelled(doc);
    RedSpelled(map["shards" := Int(c.red.shards)]);
    LoggingTableFixed(c.logging);
    LogRotateTableFixed(c.logrotate);
  }

  /** A string `shards` becomes `1`. */
  lemma WrongShardsTypeCorrected(c: Config, s: string)
    ensures var t := ToValue(c).t;
            Sanitized(Table(t["red" := Table(map["token" := Str(c.red.token), "shards" := Str(s)])])) ==
            Ok(ToValue(c.(red := c.red.(shards := DEFAULT_SHARDS))))
  {
    var t := ToValue(c).t;
    var doc := t["red" := Table(map["token" := Str(c.red.token), "shards" := Str(s)])];
    SanitizedSpelled(doc);
    RedSpelled(map["token" := Str(c.red.token), "shards" := Str(s)]);
    LoggingTableFixed(c.logging);
    LogRotateTableFixed(c.logrotate);
  }
}
