/**
 * The first-generation configuration loader (src/config.rs): the same
 * load-or-create procedure as in BotConfig, for a file that has only the
 * `red` section. The `red` section is sanitised by the same steps
 * (BotConfig.SanitizeRed); validation checks the token only.
 */
module LegacyConfig {
  import opened Common
  import opened TomlValue
  import BotConfig

  datatype Config = Config(red: BotConfig.RedConfig)

  /** The only known section. */
  const SCHEMAS: map<string, Schema> := map["red" := BotConfig.RED_SCHEMA]

  /** `Config::new` (lines 24-28). */
  function New(token: string, shards: nat): (c: Config)
    requires shards < BotConfig.U64_LIMIT
    ensures c.red.shards < BotConfig.U64_LIMIT
  {
    Config(BotConfig.RedConfig(token, shards))
  }

  function ToValue(c: Config): Value {
    Table(map["red" := Table(BotConfig.RedTable(c.red))])
  }

  /** Deserialising (serde defaults): `red` must be a table with a string token and a `u64` shard count. */
  function FromValue(v: Value): (r: Option<Config>)
    ensures r.Some? ==> r.value.red.shards < BotConfig.U64_LIMIT
  {
    if !v.Table? then None
    else
      var red :- BotConfig.TableField(v.t, "red");
      var r :- BotConfig.ReadRed(red);
      Some(Config(r))
  }

  /** `toml::to_string_pretty` of a configuration (line 40): an error when `shards` does not fit a TOML integer. */
  function Serialize(c: Config): Option<Value> {
    if c.red.shards < BotConfig.I64_LIMIT then Some(ToValue(c)) else None
  }

  /**
   * Deserialising a configuration's document gives it back; serialising
   * succeeds exactly when `shards` fits an `i64`, and what it writes reads
   * back as the configuration.
   */
  lemma FromToValue(c: Config)
    requires c.red.shards < BotConfig.U64_LIMIT
    ensures FromValue(ToValue(c)) == Some(c)
    ensures Serialize(c).Some? <==> c.red.shards < BotConfig.I64_LIMIT
    ensures Serialize(c).Some? ==> FromValue(Serialize(c).value) == Some(c)
  {
  }

  function Sanitized(parsed: Value): Result<Value, BotConfig.SanitizeError> {
    if parsed.Table? then Ok(Table(SanitizedRoot(parsed.t, SCHEMAS))) else Err(BotConfig.RootNotTable)
  }

  /** The sanitising body of `load_or_create_and_validate` (lines 59-96). */
  method Sanitize(parsed: Value) returns (r: Result<Value, BotConfig.SanitizeError>)
    ensures r == Sanitized(parsed)
  {
    if !parsed.Table? {
      return Err(BotConfig.RootNotTable);
    }
    var table := Retain(parsed.t, {"red"});
    RetainedKeys(parsed.t, {"red"});
    ghost var retained := table;
    var red := BotConfig.SanitizeRed(SectionOrEmpty(table, "red"));
    table := table["red" := red];
    SanitizedRoot1(parsed.t, "red", BotConfig.RED_SCHEMA);
    assert table == map["red" := red];
    r := Ok(Table(table));
  }

  /** The sanitised root holds `red` and nothing else. */
  lemma SanitizedRootIsRed(t: map<string, Value>)
    ensures Sanitized(Table(t)).value.t.Keys == {"red"}
  {
    SanitizedRoot1(t, "red", BotConfig.RED_SCHEMA);
  }

  /** Both generations sanitise the `red` section alike. */
  lemma SameRedAsBotConfig(t: map<string, Value>)
    ensures "red" in Sanitized(Table(t)).value.t
    ensures Sanitized(Table(t)).value.t["red"] == BotConfig.Sanitized(Table(t)).value.t["red"]
  {
    SanitizedRoot1(t, "red", BotConfig.RED_SCHEMA);
    BotConfig.SanitizedSpelled(t);
  }

  /**
   * A `red` that was missing or a table ends with exactly `token` and
   * `shards`; a well-typed value is kept and a missing or wrongly typed one
   * becomes its default.
   */
  lemma SanitizedRedFields(t: map<string, Value>)
    requires "red" !in t || t["red"].Table?
    ensures var red := Sanitized(Table(t)).value.t["red"];
            var before := if "red" in t then t["red"].t else map[];
            red == Table(map["token" := Fix(before, "token", Str(BotConfig.PLACEHOLDER_TOKEN)),
                             "shards" := Fix(before, "shards", Int(BotConfig.DEFAULT_SHARDS))])
  {
    SanitizedRoot1(t, "red", BotConfig.RED_SCHEMA);
    BotConfig.RedSpelled(if "red" in t then t["red"].t else map[]);
  }

  /** Sanitising a sanitised document changes nothing. */
  lemma SanitizedIdempotent(parsed: Value)
    requires Sanitized(parsed).Ok?
    ensures Sanitized(Sanitized(parsed).value) == Sanitized(parsed)
  {
    SanitizedRootIdempotent(parsed.t, SCHEMAS);
  }

  function DefaultDocument(): Value {
    ToValue(New(BotConfig.PLACEHOLDER_TOKEN, BotConfig.DEFAULT_SHARDS))
  }

  /** An unparseable file (read as an empty table) sanitises to the document a missing file is created with. */
  lemma UnparseableGivesDefaults()
    ensures Sanitized(Table(map[])) == Ok(DefaultDocument())
  {
    SanitizedRoot1(map[], "red", BotConfig.RED_SCHEMA);
    BotConfig.RedSpelled(map[]);
  }

  /** A serialised configuration is already sanitised. */
  lemma ConfigDocumentIsFixedPoint(c: Config)
    ensures Sanitized(ToValue(c)) == Ok(ToValue(c))
  {
    SanitizedRoot1(ToValue(c).t, "red", BotConfig.RED_SCHEMA);
    BotConfig.RedTableFixed(c.red);
  }

  /** `validate` (lines 109-116): only the placeholder token ends the process. */
  function Validate(c: Config): (v: BotConfig.Verdict)
    ensures v.Exit? <==> c.red.token == BotConfig.PLACEHOLDER_TOKEN
    ensures v.Exit? ==> v.reason == BotConfig.PlaceholderToken
  {
    if c.red.token == BotConfig.PLACEHOLDER_TOKEN then BotConfig.Exit(BotConfig.PlaceholderToken)
    else BotConfig.Continue
  }

  /**
   * `load_or_create_and_validate` (lines 31-106), with the same inputs and
   * outcomes as BotConfig.LoadOrCreateAndValidate.
   */
  method LoadOrCreateAndValidate(file: BotConfig.ConfigFile, readOk: bool, writeOk: bool)
    returns (written: Option<Value>, o: LoadOutcome)
    ensures file.Missing? ==>
              written == (if writeOk then Some(DefaultDocument()) else None) &&
              o == (if writeOk then Exited(BotConfig.CreatedDefault) else Failed(BotConfig.WriteFailed))
    ensures file.Present? && !readOk ==> written == None && o == Failed(BotConfig.ReadFailed)
    ensures file.Present? && readOk ==>
              var s := Sanitized(file.parsed.GetOr(Table(map[])));
              if s.Err? then written == None && o == Failed(BotConfig.Malformed(s.error))
              else if !writeOk then written == None && o == Failed(BotConfig.WriteFailed)
              else written == Some(s.value) &&
                   o == match FromValue(s.value)
                        case None => Failed(BotConfig.ConversionFailed)
                        case Some(c) => if Validate(c).Exit? then Exited(Validate(c).reason) else Loaded(c)
  {
    if file.Missing? {
      if !writeOk {
        return None, Failed(BotConfig.WriteFailed);
      }
      return Some(ToValue(New(BotConfig.PLACEHOLDER_TOKEN, BotConfig.DEFAULT_SHARDS))), Exited(BotConfig.CreatedDefault);
    }
    if !readOk {
      return None, Failed(BotConfig.ReadFailed);
    }
    var parsed := if file.parsed.Some? then file.parsed.value else Table(map[]);
    var s := Sanitize(parsed);
    if s.Err? {
      return None, Failed(BotConfig.Malformed(s.error));
    }
    if !writeOk {
      return None, Failed(BotConfig.WriteFailed);
    }
    written := Some(s.value);
    var config := FromValue(s.value);
    if config.None? {
      return written, Failed(BotConfig.ConversionFailed);
    }
    var verdict := Validate(config.value);
    if verdict.Exit? {
      return written, Exited(verdict.reason);
    }
    o := Loaded(config.value);
  }

  datatype LoadOutcome =
    | Loaded(config: Config)
    | Exited(reason: BotConfig.ExitReason)
    | Failed(error: BotConfig.LoadError)

  /** After sanitising, loading fails only on a non-table `red` or a `shards` that does not fit a `u64`. */
  lemma SanitizedConverts(t: map<string, Value>)
    ensures var red := SanitizedSection(SectionOrEmpty(t, "red"), BotConfig.RED_SCHEMA);
            FromValue(Sanitized(Table(t)).value).Some? <==> red.Table? && BotConfig.ShardsFit(red)
    ensures FromValue(Sanitized(Table(t)).value).Some? ==>
              ToValue(FromValue(Sanitized(Table(t)).value).value) == Sanitized(Table(t)).value
  {
    SanitizedRoot1(t, "red", BotConfig.RED_SCHEMA);
    BotConfig.RedReadsBack(SectionOrEmpty(t, "red"));
  }
}
