# Red: configuration sanitiser, log routing and log rotation in Dafny

Red is a Discord bot. This project models the parts of it that decide what the bot
reads, writes and deletes:

- **Configuration** (`src/bot/utils/config.rs`, and the older `src/config.rs`). The bot
  loads `config.toml`, creates it with defaults when it is missing, and sanitises the
  parsed tree:
  - unknown sections and fields are dropped;
  - missing fields are inserted with their defaults;
  - fields of the wrong type are replaced by their defaults.

  It then writes the tree back, converts it into a `Config` and validates the token,
  the log level and the log filter. The TOML tree is a datatype (`TomlValue.Value`).
  Each section's sanitising is an imperative method (`BotConfig.SanitizeRed` …), proved
  equal to a declarative schema-driven sanitiser (`TomlValue.SanitizedRoot`), about
  which the idempotence, shape and round-trip lemmas are proved.
- **NoEmptyLineWriter**. A writer decorator that buffers bytes up to each newline and
  forwards a line only when it is not blank. It is a class
  (`LineWriter.NoEmptyLineWriter`) with the wrapped output and the buffer as fields.
  Its `Write` loop is proved against a byte-by-byte reference (`LineWriter.Forwarded`,
  `LineWriter.Tail`), which is proved to equal "the non-blank lines, in order" on whole
  lines.
- **Log routing** in the current logger (`src/bot/utils/log/logger.rs`):
  - spam messages;
  - the level taken from the configuration;
  - the target filters of `red.log`, the console and `serenity.log`;
  - the line formats, colours and per-day log directory;
  - what each output ends up holding after its NoEmptyLineWriter.

  The legacy logger (`src/bot/utils/logger.rs`) has its internal/external channels,
  environment overrides, level names and its console and file lines.
- **Log rotation**. The current rotator (`src/bot/utils/log/logrotate.rs`) parses the
  `HH:MM` rotation time, computes the next rotation and keeps or deletes each entry of
  the log directory. A pass stops at the first error. The legacy rotator
  (`src/bot/utils/logrotate.rs`) deletes directories older than the retention by
  modification time, and skips entries it cannot inspect. Both passes are methods of a
  class over the directory's entries, proved against recursive or declarative
  specifications.

Dates are day numbers and times of day are seconds since midnight. The file system is
a map from names to what the code can learn about each entry. Success or failure of
each file-system call, the clock and chrono's date parser are parameters. The output
behind a NoEmptyLineWriter is taken to accept every write.

The model follows the code, including the two defects listed under "## Findings": the
`serenity.log` filter and the legacy rotator's allowance are modelled as written, and the
intended versions are defined beside them. Some behaviour of the code is easy to mistake:
- There are twelve spam words, not fifteen; `heartbeat;`, `latency;` and `resume;` are
  not among them.
- The current rotator aborts the whole pass on the first failing entry. It does not
  skip the entry.
- Validation accepts only `info`, `debug` and `trace` as log levels.
- No `heartbeat.log` output exists in the dispatch.

## Model

| member | source | states |
|---|---|---|
| `BotConfig.New` | src/bot/utils/config.rs:50-62 | the given token and shard count with every other field at its documented default, a `u64`-sized shard count |
| `BotConfig.FromToValue` | src/bot/utils/config.rs:8-46 | reading back a configuration's document gives the configuration itself; serialising it succeeds exactly when `shards` fits a TOML `i64`, and then reads back too |
| `BotConfig.SanitizeRed` | src/bot/utils/config.rs:105-134 | the `red` section after retain, insert-missing and fix-type equals the schema sanitiser: only `token` and `shards`, each kept when it has the right type, else the default; a non-table section is left alone |
| `BotConfig.SanitizeLogging` | src/bot/utils/config.rs:139-174 | the same for `logging` with `log-level`, `log-filter`, `directory` and defaults `info`, `Both`, `logs` |
| `BotConfig.SanitizeLogrotate` | src/bot/utils/config.rs:179-198 | the same for `logrotate` with `frequency` and default `7d` |
| `BotConfig.Sanitize` | src/bot/utils/config.rs:95-198 | a non-table root is the error `Root of config is not a TOML table`; otherwise unknown sections go, missing sections start empty, and each known section is sanitised as above |
| `BotConfig.SanitizedRootKeys` | src/bot/utils/config.rs:99-100 | the sanitised root holds exactly the three known sections |
| `BotConfig.SanitizedSectionShape` | src/bot/utils/config.rs:105-198 | a sanitised table section holds exactly its schema's fields, each of its schema's type; a section that is not a table is kept as it was |
| `BotConfig.SanitizedFieldValue` | src/bot/utils/config.rs:112-133 | each field: kept when present with the right type, the default when missing, the default when of another type |
| `BotConfig.SanitizedIdempotent` | src/bot/utils/config.rs:200-201 | sanitising the written document again changes nothing, so loading twice writes the same document |
| `BotConfig.UnparseableGivesDefaults` | src/bot/utils/config.rs:83-92 | a file that does not parse is read as an empty table and sanitises to the default document |
| `BotConfig.ConfigDocumentIsFixedPoint` | src/bot/utils/config.rs:200-204 | the document of any configuration is left unchanged by sanitising |
| `BotConfig.SanitizedConverts` | src/bot/utils/config.rs:203-204 | after sanitising, conversion fails exactly when a section is not a table or `shards` does not fit a `u64`, and a converted config serialises back to the written document |
| `BotConfig.ValidateExitsIff` | src/bot/utils/config.rs:211-246 | validation exits exactly on the placeholder token, a log level outside info/debug/trace, or a log filter outside internal/external/both, case-insensitively, checked in that order |
| `BotConfig.ValidateIgnoresCase` | src/bot/utils/config.rs:224-237 | validation sees the level and filter only in lower case |
| `BotConfig.LoadOrCreateAndValidate` | src/bot/utils/config.rs:65-208 | every path of the load: a missing file is written with defaults and the process exits; read, write and conversion failures are errors; otherwise the sanitised document is written and the validated config returned or the process exits with the validation's reason |
| `BotConfig.LoadedIsValid` | src/bot/utils/config.rs:201-207 | a converted config that passes validation has a real token and a known log level, and every converted config serialises to the document written |
| `BotConfig.UnparseableFileExits` | src/bot/utils/config.rs:83-92 | the default document converts to the default configuration, which validation rejects for its placeholder token |
| `BotConfig.ExtraSectionRemoved` | tests/test-config.rs:23-47 | an extra top-level entry added to a configuration's document is removed and nothing else changes |
| `BotConfig.MissingTokenRestored` | tests/test-config.rs:50-73 | a `red` section without `token` gets the placeholder token back and keeps its shards |
| `BotConfig.WrongShardsTypeCorrected` | tests/test-config.rs:76-97 | a string `shards` is replaced by 1 and the token is kept |
| `LegacyConfig.New` | src/config.rs:24-28 | the given token and shard count |
| `LegacyConfig.FromToValue` | src/config.rs:8-20 | reading back a legacy configuration's document gives it back; serialising it succeeds exactly when `shards` fits a TOML `i64`, and then reads back too |
| `LegacyConfig.Sanitize` | src/config.rs:59-96 | the legacy sanitiser equals the schema sanitiser with the single section `red` |
| `LegacyConfig.SanitizedRootIsRed` | src/config.rs:63-64 | only the `red` section survives |
| `LegacyConfig.SameRedAsBotConfig` | src/config.rs:66-96 | the legacy `red` section is sanitised exactly as the current one is |
| `LegacyConfig.SanitizedRedFields` | src/config.rs:70-95 | the sanitised `red` table is the token and shards each fixed against its default |
| `LegacyConfig.SanitizedIdempotent` | src/config.rs:98-99 | sanitising the written document again changes nothing |
| `LegacyConfig.UnparseableGivesDefaults` | src/config.rs:49-57 | an unparseable file sanitises to the default document |
| `LegacyConfig.ConfigDocumentIsFixedPoint` | src/config.rs:98-102 | a configuration's document is a fixed point of sanitising |
| `LegacyConfig.Validate` | src/config.rs:109-116 | the process exits exactly on the placeholder token |
| `LegacyConfig.LoadOrCreateAndValidate` | src/config.rs:31-106 | every path of the legacy load, as for the current one |
| `LegacyConfig.SanitizedConverts` | src/config.rs:101-102 | conversion after sanitising fails only on a non-table `red` or an out-of-range `shards`, and reads back the written document |
| `TomlValue.SanitizedFieldsShape` | src/bot/utils/config.rs:108-133 | a sanitised table has exactly the schema's keys, each with the schema's type |
| `TomlValue.SanitizedFieldsIdempotent` | src/bot/utils/config.rs:108-133 | sanitising a table twice is the same as once |
| `TomlValue.SanitizedRootIdempotent` | src/bot/utils/config.rs:95-198 | sanitising a root twice is the same as once |
| `TomlValue.Steps3` | src/bot/utils/config.rs:142-173 | retain, three insertions and three type fixes, in the source's order, give each field fixed separately |
| `TomlValue.SanitizedFieldsWellTyped` | src/bot/utils/config.rs:108-133 | a table already holding exactly the schema's fields with the right types is unchanged |
| `Text.ParseU32` | src/bot/utils/log/logrotate.rs:27-28 | a parsed `u32` is below 2^32 |
| `Text.ParseDecimal` | src/bot/utils/log/logrotate.rs:27-28 | a number below 2^32 written in decimal parses back to itself |
| `Text.SplitLength` | src/bot/utils/log/logrotate.rs:23-24 | splitting gives one more part than there are separators |
| `Text.SplitJoin` | src/bot/utils/log/logrotate.rs:23 | joining the parts of a split with the separator gives the string back |
| `LineWriter.NoEmptyLineWriter.constructor` | src/bot/utils/log/logger.rs:22-27 | a new writer wraps the output with an empty buffer |
| `LineWriter.NoEmptyLineWriter.Write` | src/bot/utils/log/logger.rs:31-46 | the whole input is reported written; the output grows by the non-blank complete lines of buffer plus input, the buffer keeps the unfinished line, which holds no newline |
| `LineWriter.NoEmptyLineWriter.Flush` | src/bot/utils/log/logger.rs:48-58 | the unfinished line is forwarded when not blank and the buffer is emptied |
| `LineWriter.ForwardedAppend` | src/bot/utils/log/logger.rs:31-46 | two writes in a row forward what one write of both would |
| `LineWriter.DrainOne` | src/bot/utils/log/logger.rs:35-44 | draining the first line forwards it if not blank and continues on the rest |
| `LineWriter.ForwardedLines` | src/bot/utils/log/logger.rs:11-14 | on whole lines the writer forwards exactly the non-blank ones, in order, and keeps nothing buffered |
| `LineWriter.ForwardedIdempotent` | src/bot/utils/log/logger.rs:31-46 | what the writer forwards passes through a second writer unchanged |
| `LineWriter.NonBlankLines` | src/bot/utils/log/logger.rs:39-43 | every line kept is not blank |
| `Logger.SpamWordShape` | src/bot/utils/log/logger.rs:62-79 | every spam word is lower-case letters and underscores ending in its only `;` |
| `Logger.SpamNotExtended` | src/bot/utils/log/logger.rs:64-78 | matching is exact: a spam word with anything appended is not spam |
| `Logger.SpamNotTrimmed` | src/bot/utils/log/logger.rs:64-78 | a spam word with a space or other non-letter around it is not spam |
| `Logger.SpamIsCaseSensitive` | src/bot/utils/log/logger.rs:64-78 | a capitalised spam word is not spam |
| `Logger.LevelFilterOfIff` | src/bot/utils/log/logger.rs:86-93 | the global filter is the level the configured name names, case-insensitively, and Info for any other name |
| `Logger.LevelFilterOfName` | src/bot/utils/log/logger.rs:86-93 | each level's printed name selects that level |
| `Logger.LevelFilterIgnoresCase` | src/bot/utils/log/logger.rs:86 | the level name is read case-insensitively |
| `Logger.ValidatedLevelIsVerbose` | src/bot/utils/log/logger.rs:86-93 | a configuration that passes validation logs at least Info |
| `Logger.SerenityFilterAsWrittenDropsErrors` | src/bot/utils/log/logger.rs:151-153 | the `serenity.log` filter as written keeps every `serenity` record except errors |
| `Logger.SerenityErrorIsDropped` | src/bot/utils/log/logger.rs:151-153 | the input that shows it: a `serenity::gateway` error is dropped, an info record kept |
| `Logger.SerenityFilterKeepsErrorsAndWarnings` | src/bot/utils/log/logger.rs:146-153 | the corrected filter keeps exactly the errors and warnings of `serenity` targets |
| `Logger.FiltersPartitionTargets` | src/bot/utils/log/logger.rs:150-153 | no record passes both the `red.log` filter and the `serenity.log` filter |
| `Logger.ColorizeLevel` | src/bot/utils/log/logger.rs:214-222 | the console prints the level's name in bold |
| `Logger.ColorsDistinct` | src/bot/utils/log/logger.rs:214-222 | each level has its own colour |
| `Logger.FormattedShape` | src/bot/utils/log/logger.rs:103-144 | a chain formats a record as the empty string exactly for spam on `red.log` and the console; otherwise the line starts with the timestamp |
| `Logger.EmittedLine` | src/bot/utils/log/logger.rs:103-144 | each formatted record plus newline is one line, blank exactly when it is spam on `red.log` or the console |
| `Logger.OutputShowsExactly` | src/bot/utils/log/logger.rs:150-186 | after its NoEmptyLineWriter, an output holds exactly one line per record that the global level and the chain's filter as written accept and that is not elided spam, in order, with nothing left buffered |
| `Logger.AcceptsIntendedDiffers` | src/bot/utils/log/logger.rs:147-153 | the routing as written and the intended one agree on `red.log` and the console; on `serenity.log` they differ exactly on enabled `serenity` records other than warnings, and as written an error never gets through |
| `Logger.OutputsSplitByTarget` | src/bot/utils/log/logger.rs:165-185 | `serenity` records never show on `red.log` or the console, and other records never on `serenity.log` |
| `Logger.FileAndConsoleAgree` | src/bot/utils/log/logger.rs:168-179 | a record shows on `red.log` exactly when it shows on the console |
| `Logger.SerenityGatewayRouting` | src/bot/utils/log/logger.rs:150-185 | with Info enabled, `serenity.gateway` Info and Warn records reach `serenity.log` and no other output, and an error reaches no output |
| `Logger.SerenityGatewayRoutingIntended` | src/bot/utils/log/logger.rs:147-153 | under the intended filter the same Info record reaches no output, and the Warn and Error records reach only `serenity.log` |
| `Logger.SpamElidedOrdinaryShown` | src/bot/utils/log/logger.rs:103-133 | `do_heartbeat;` is elided from `red.log` and the console while `hello` and a blank message show |
| `Logger.LogDirectoryNamesDay` | src/bot/utils/log/logger.rs:204-211 | the day directory is the base, a slash and the date, and different dates give different directories |
| `Calendar.DateNameParts` | src/bot/utils/log/logger.rs:205 | a `%Y-%m-%d` name splits on `-` into year, month and day that parse back |
| `Calendar.DateNameInjective` | src/bot/utils/log/logger.rs:205-206 | different dates have different names |
| `LogLevels.LowerNameIsToLower` | src/bot/utils/log/logger.rs:87-91 | the lower-case level names are the printed names in lower case |
| `LegacyLogger.FilterFromStr` | src/bot/utils/logger.rs:21-27 | `internal` and `external` select their channels case-insensitively; anything else selects both |
| `LegacyLogger.FilterFromStrIgnoresCase` | src/bot/utils/logger.rs:22 | the channel name is read case-insensitively |
| `LegacyLogger.ChannelsPartition` | src/bot/utils/logger.rs:30-37 | the external channel is the complement of the internal one, and both together show everything |
| `LegacyLogger.LevelFilterOfIff` | src/bot/utils/logger.rs:71-78 | `critical` and `error` select Error, the other names select their level, anything else Trace |
| `LegacyLogger.LevelFilterOfName` | src/bot/utils/logger.rs:71-78 | each level's printed name selects that level |
| `LegacyLogger.EnvironmentWins` | src/bot/utils/logger.rs:66-86 | `RUST_LOG_LEVEL` and `RED_FILTER`, when set, override the configured values |
| `LegacyLogger.DisplayedTarget` | src/bot/utils/logger.rs:123-128 | `serenity::` targets show as `[Serenity]`, `red::` ones as `[Red]`, others unchanged |
| `LegacyLogger.DisplayedTargetIdempotent` | src/bot/utils/logger.rs:123-128 | shortening a shortened target changes nothing |
| `LegacyLogger.LevelColorsDistinct` | src/bot/utils/logger.rs:141-147 | each level has its own console colour |
| `LegacyLogger.Emit` | src/bot/utils/logger.rs:112-170 | a record is written exactly when its channel is shown, in bold in its level's colour, with the newline written after the colour is reset |
| `LegacyLogger.EmitAgrees` | src/bot/utils/logger.rs:130-166 | the styled console text is `[time] [LEVEL] target: message`, followed by a plain newline, and the file line ends with the message and closes the JSON object |
| `LogRotate.ParseRotationTime` | src/bot/utils/log/logrotate.rs:22-30 | a parsed rotation time is a valid time of day |
| `LogRotate.ParseRotationTimeIff` | src/bot/utils/log/logrotate.rs:22-30 | parsing succeeds exactly when there is one `:` and both sides are `u32`s, the hour below 24 and the minute below 60 |
| `LogRotate.ParseFormatRoundTrip` | src/bot/utils/log/logrotate.rs:22-30 | every valid time written as `HH:MM` parses back to itself |
| `LogRotate.MidnightParses` | src/bot/utils/log/logrotate.rs:22-30 | `00:00` parses to midnight |
| `LogRotate.OutOfRangeRefused` | src/bot/utils/log/logrotate.rs:29 | `25:61` is refused |
| `LogRotate.SecondsFieldRefused` | src/bot/utils/log/logrotate.rs:24-26 | any `h:m:s` is refused |
| `LogRotate.PlusSignAccepted` | src/bot/utils/log/logrotate.rs:27-28 | `+1:+5` parses as 01:05, since `u32` parsing takes a leading `+` |
| `LogRotate.NextRotationIsNextOccurrence` | src/bot/utils/log/logrotate.rs:9-19 | the next rotation is at the rotation time of day, strictly after now, at most a day later, and the earliest such instant |
| `LogRotate.SleepUntilNextRotation` | src/bot/utils/log/logrotate.rs:119-129 | the scheduler sleeps more than zero and at most one day, waking at the next rotation |
| `LogRotate.DecideRule` | src/bot/utils/log/logrotate.rs:44-73 | a file is kept exactly when it is `heartbeat.log`, `red.log` or `serenity.log`; a directory exactly when its name is a date less than the retention old |
| `LogRotate.FutureDirectoryKept` | src/bot/utils/log/logrotate.rs:59-67 | a directory dated in the future is kept |
| `LogRotate.TodayKeptIffRetention` | src/bot/utils/log/logrotate.rs:59-67 | today's directory is kept exactly when the retention is at least one day |
| `LogRotate.InvalidNameRemoved` | src/bot/utils/log/logrotate.rs:44-47 | an entry whose name is not UTF-8 is deleted |
| `LogRotate.PassWithoutFailure` | src/bot/utils/log/logrotate.rs:94-97 | a pass meeting no failure deletes exactly the listed entries the rule rejects, changes no other entry and returns the listing's outcome |
| `LogRotate.PassStopsAtFailure` | src/bot/utils/log/logrotate.rs:94-97 | a pass stops at the first failing entry with that entry's error and leaves it and every later entry as they were |
| `LogRotate.SecondPassChangesNothing` | src/bot/utils/log/logrotate.rs:77-98 | rotating again after a clean pass deletes nothing |
| `LogRotate.PruningExample` | src/bot/utils/log/logrotate.rs:50-73 | with retention 7 on 2024-01-08, `2024-01-01` and `notes.txt` go, and `2024-01-07` and `2024-01-08` stay |
| `LogRotate.LogBase.RotateLogs` | src/bot/utils/log/logrotate.rs:77-98 | given a listing that names each entry once and, when it does not fail, every entry: a missing base directory is left alone with success; otherwise the directory and result are those of the recursive pass |
| `LegacyLogRotate.ParsersAgree` | src/bot/utils/logrotate.rs:46-54 | the legacy parser accepts and rejects exactly what the current one does |
| `LegacyLogRotate.SchedulesAgree` | src/bot/utils/logrotate.rs:20-29 | the legacy schedule gives the same next rotation and a sleep of at most a day |
| `LegacyLogRotate.AllowedSecondsAsWritten` | src/bot/utils/logrotate.rs:62 | the allowed age as computed on `u64` is below 2^64 |
| `LegacyLogRotate.WrapShortensRetention` | src/bot/utils/logrotate.rs:62 | a retention of 213503982334602 days wraps to 61184 seconds, less than one day allows |
| `LegacyLogRotate.AsWrittenExactBelowWrap` | src/bot/utils/logrotate.rs:62 | below the wrap the computed allowance is the intended one |
| `LegacyLogRotate.AllowedSecondsMonotone` | src/bot/utils/logrotate.rs:62 | a longer retention never allows a shorter age |
| `LegacyLogRotate.SweptKeeps` | src/bot/utils/logrotate.rs:71-122 | an entry survives the sweep exactly when it is not visited or not deleted, and survives unchanged |
| `LegacyLogRotate.NonDirectoriesSurvive` | src/bot/utils/logrotate.rs:73-102 | files and entries whose metadata or modification time fails are never deleted |
| `LegacyLogRotate.LongerRetentionKeepsMore` | src/bot/utils/logrotate.rs:62-114 | what a short retention keeps a longer one keeps too |
| `LegacyLogRotate.AsWrittenLongerRetentionDeletes` | src/bot/utils/logrotate.rs:62-114 | as written, a directory 70000 seconds old survives a one-day retention and is deleted under the wrapping one |
| `LegacyLogRotate.SweepIdempotent` | src/bot/utils/logrotate.rs:59-124 | a second sweep at the same instant deletes nothing more |
| `LegacyLogRotate.SweepOne` | src/bot/utils/logrotate.rs:71-122 | visiting one more entry deletes it when it is still there and due, and nothing else |
| `LegacyLogRotate.LegacyLogBase.RotateLogs` | src/bot/utils/logrotate.rs:59-124 | a missing base is left alone with success; otherwise every listed directory older than the allowance computed on `u64` (wrapping modulo 2^64) whose deletion succeeds is gone, everything else stays, and only a failing listing is an error |

## Left out

- File and console I/O, `std::process::exit`, and the `fern`/`env_logger` global installation. Each file-system call's success is a parameter, and an exit is an outcome value.
- TOML text: parsing and pretty-printing, and serde's derive. A document is a value tree; `toml::from_str` is `Present(Some(tree))` or `Present(None)`; conversion is `FromValue`.
- TomlValue.Value: `Int` is an unbounded integer. A parsed TOML integer is an `i64`, so documents holding integers of 2^63 or more, which the model admits, never come from parsing. Serialising a configuration is the partial `BotConfig.Serialize` and `LegacyConfig.Serialize`: a shard count of 2^63 or more is an error.
- Floats, dates and arrays in TOML. They are one `Other` kind, compared only by kind.
- ANSI escape sequences. A console line is its text plus a colour and a bold flag.
- Unicode `to_lowercase`. `Text.ToLower` lower-cases ASCII letters only. Every lower-cased string is compared against ASCII names (log levels, filter names) that contain no `k`. The only non-ASCII character that lower-cases to ASCII is U+212A KELVIN SIGN, which lower-cases to `k`, so no comparison changes.
- Calendar.DateName: pads the year to four digits. chrono's `%Y` writes years above 9999 with a leading `+`; such years are not modelled.
- Unicode `trim` and lossy UTF-8 decoding. Blank means made of ASCII whitespace bytes (9-13 and 32), which covers every line the formats produce.
- chrono's local clock and `%Y-%m-%d` date parser. They are day numbers and a `parseDate` parameter, so leap years and calendar validity are not modelled. In the current logger each output's format closure reads `Local::now()` itself (src/bot/utils/log/logger.rs:111, 128 and 140), so `red.log` and the console may stamp one record with different seconds; the model gives a record one time for every output, and no lemma compares text across outputs.
- The tokio loop and `sleep` of both schedulers, and the initial rotation. One iteration's next-rotation time and sleep length are modelled; sub-second precision is dropped.
- Logger.OutputShowsExactly: requires messages without newlines. A message with an embedded newline is split into several lines by NoEmptyLineWriter, which the model does not state.
- LogRotate.LogBase.RotateLogs: `limit` is the retention in days as an unbounded integer. The `as i64` cast and the panic of `ChronoDuration::days` for huge values are not modelled.
- LegacyLogRotate.LegacyLogBase.RotateLogs: reads one `now` for the whole sweep. The source reads the clock once per entry, and modification times are whole seconds. The allowance wraps modulo 2^64 as in a release build; the panic of a debug build on overflow is not modelled.
- LineWriter.NoEmptyLineWriter.Write: the wrapped output accepts every write, so an error from `write_all` (src/bot/utils/log/logger.rs:42), which `?` returns before the buffer is drained further, is not modelled.
- LineWriter.NoEmptyLineWriter.Flush: the wrapped output accepts every write and flush, so the errors of `write_all` and `inner.flush()` (src/bot/utils/log/logger.rs:53 and 57) are not modelled, nor that a failed `write_all` leaves the buffer uncleared.
- `fs::remove_dir_all` failing part way through. A deletion either removes the entry or leaves it.
- The per-module filters of the legacy logger (`serenity::gateway`, `rustls` and others, lines 96-109). They tune third-party verbosity and are not routing.
- The legacy logger's `bot.log` file handle and the `log_*` convenience functions, which call the `log` macros.
- `config.logrotate.parse_frequency()`, `config.logrotate.rotation_time` and `config.debug`. The code calls them, but no source defines them, so the rotator's inputs are parameters.
- tests/test-config.rs:12-14 expects a fresh load to return the placeholder configuration. The code writes the defaults and exits instead (src/bot/utils/config.rs:69-79); the model follows the code (the first `ensures` of `BotConfig.LoadOrCreateAndValidate`).

## Findings

| source | as written | input that shows it | evidently intended | confidence | as-written member | corrected member |
|---|---|---|---|---|---|---|
| src/bot/utils/log/logger.rs:151-153 | `metadata.level() >= Level::Warn`; in the `log` crate Error < Warn < Info < Debug < Trace, so this keeps Warn and everything more verbose | a record with target `serenity::gateway` at Error is dropped from `serenity.log`, while one at Info is written | Warning or higher severity, as the comment at lines 147-148 says: `<= Level::Warn` | high; not executed | `Logger.SerenityErrorIsDropped` | `Logger.SerenityFilterKeepsErrorsAndWarnings` |
| src/bot/utils/logrotate.rs:62 | `rotation_frequency_days * 24 * 60 * 60` on `u64`: a debug build panics and a release build wraps modulo 2^64 | retention 213503982334602 days allows 61184 seconds, so a directory 70000 seconds old is deleted | the retention in seconds, never smaller for a longer retention | medium (the retention must be huge); not executed | `LegacyLogRotate.AsWrittenLongerRetentionDeletes` | `LegacyLogRotate.LongerRetentionKeepsMore` |
