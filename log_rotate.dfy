/**
 * The current log rotator (src/bot/utils/log/logrotate.rs): the `HH:MM`
 * rotation time, the next instant to rotate at, the keep-or-delete rule for
 * one entry of the log directory, and one pass over the directory.
 * Dates are day numbers and times of day are seconds since midnight; the
 * directory is a map from entry names to what the pass can learn of them.
 */
module LogRotate {
  import opened Common
  import opened Text

  const SECONDS_PER_DAY: nat := 86400

  // ---------------------------------------------------------------------
  // Rotation time
  // ---------------------------------------------------------------------

  /** A `NaiveTime` on a whole minute. */
  datatype RotationTime = RotationTime(hour: nat, minute: nat)

  predicate ValidTime(t: RotationTime) {
    t.hour < 24 && t.minute < 60
  }

  function SecondOfDay(t: RotationTime): nat {
    t.hour * 3600 + t.minute * 60
  }

  /** A valid time of day falls inside the day. */
  lemma SecondOfDayInDay(t: RotationTime)
    requires ValidTime(t)
    ensures SecondOfDay(t) < SECONDS_PER_DAY
  {
  }

  /**
   * `parse_rotation_time` (lines 22-30): exactly two `:`-separated parts,
   * each a `u32`, and `NaiveTime::from_hms_opt(hour, minute, 0)` accepting them.
   */
  function ParseRotationTime(s: string): (r: Option<RotationTime>)
    ensures r.Some? ==> ValidTime(r.value)
  {
    var parts := Split(s, ':');
    if |parts| != 2 then None
    else
      var hour :- ParseU32(parts[0]);
      var minute :- ParseU32(parts[1]);
      if hour < 24 && minute < 60 then Some(RotationTime(hour, minute)) else None
  }

  /** Parsing succeeds exactly when there is one `:` and both sides are `u32`s in range. */
  lemma ParseRotationTimeIff(s: string)
    ensures |Split(s, ':')| == 2 <==> Count(s, ':') == 1
    ensures ParseRotationTime(s).Some? <==>
            |Split(s, ':')| == 2 &&
            var parts := Split(s, ':');
            ParseU32(parts[0]).Some? && ParseU32(parts[1]).Some? &&
            ParseU32(parts[0]).value < 24 && ParseU32(parts[1]).value < 60
  {
    SplitLength(s, ':');
  }

  /** `HH:MM`, zero-padded. */
  function FormatRotationTime(t: RotationTime): string {
    Decimal(t.hour, 2) + ":" + Decimal(t.minute, 2)
  }

  /** Every valid rotation time written as `HH:MM` parses back to itself. */
  lemma ParseFormatRoundTrip(t: RotationTime)
    requires ValidTime(t)
    ensures ParseRotationTime(FormatRotationTime(t)) == Some(t)
  {
    var h, m := Decimal(t.hour, 2), Decimal(t.minute, 2);
    assert ':' !in h && ':' !in m by {
      assert forall i :: 0 <= i < |h| ==> IsDigit(h[i]);
      assert forall i :: 0 <= i < |m| ==> IsDigit(m[i]);
    }
    SplitPair(h, m, ':');
    ParseDecimal(t.hour, 2);
    ParseDecimal(t.minute, 2);
  }

  /** Midnight parses. */
  lemma MidnightParses()
    ensures ParseRotationTime("00:00") == Some(RotationTime(0, 0))
  {
    ParseFormatRoundTrip(RotationTime(0, 0));
    assert FormatRotationTime(RotationTime(0, 0)) == "00:00";
  }

  /** Fields out of range are refused although both are numbers. */
  lemma OutOfRangeRefused()
    ensures ParseRotationTime("25:61") == None
  {
    SplitPair("25", "61", ':');
    assert "25:61" == "25" + [':'] + "61";
    assert DigitsValue("25") == 25;
  }

  /** A seconds field, as in `12:30:00`, makes three parts, which is refused whatever the fields hold. */
  lemma SecondsFieldRefused(hour: string, minute: string, second: string)
    requires ':' !in hour && ':' !in minute && ':' !in second
    ensures ParseRotationTime(hour + [':'] + minute + [':'] + second) == None
  {
    SplitThree(hour, minute, second, ':');
  }

  /** `u32` parsing accepts a leading `+` on either field. */
  lemma PlusSignAccepted()
    ensures ParseRotationTime("+1:+5") == Some(RotationTime(1, 5))
  {
    SplitPair("+1", "+5", ':');
    assert "+1:+5" == "+1" + [':'] + "+5";
    assert DigitsValue("1") == 1 && DigitsValue("5") == 5;
  }

  // ---------------------------------------------------------------------
  // Next rotation
  // ---------------------------------------------------------------------

  /** A local date and time: a day number and the second of that day. */
  datatype LocalTime = LocalTime(day: int, second: nat)

  predicate ValidLocal(t: LocalTime) {
    t.second < SECONDS_PER_DAY
  }

  /** Seconds since the epoch day began. */
  function Instant(t: LocalTime): int {
    t.day * SECONDS_PER_DAY + t.second
  }

  /** `get_next_rotation_time` (lines 9-19): today at the rotation time if that is still ahead, else tomorrow. */
  function NextRotation(now: LocalTime, rt: RotationTime): (next: LocalTime)
    requires ValidLocal(now) && ValidTime(rt)
    ensures ValidLocal(next)
  {
    SecondOfDayInDay(rt);
    var today := LocalTime(now.day, SecondOfDay(rt));
    if now.second < SecondOfDay(rt) then today else LocalTime(now.day + 1, SecondOfDay(rt))
  }

  /**
   * The next rotation is at the rotation time of day, strictly after now,
   * at most a day later, and no instant at that time of day comes between.
   */
  lemma NextRotationIsNextOccurrence(now: LocalTime, rt: RotationTime)
    requires ValidLocal(now) && ValidTime(rt)
    ensures var next := NextRotation(now, rt);
            next.second == SecondOfDay(rt) &&
            Instant(now) < Instant(next) <= Instant(now) + SECONDS_PER_DAY
    ensures forall t: LocalTime :: t.second == SecondOfDay(rt) && Instant(now) < Instant(t) ==>
                                   Instant(NextRotation(now, rt)) <= Instant(t)
  {
    SecondOfDayInDay(rt);
    forall t: LocalTime | t.second == SecondOfDay(rt) && Instant(now) < Instant(t)
      ensures Instant(NextRotation(now, rt)) <= Instant(t)
    {
      if t.day == now.day {
        assert now.second < SecondOfDay(rt);
      }
    }
  }

  /** `(next - now).to_std().unwrap_or(Duration::ZERO)`: a negative wait becomes zero. */
  function SleepSeconds(now: LocalTime, next: LocalTime): nat {
    if Instant(next) - Instant(now) >= 0 then Instant(next) - Instant(now) else 0
  }

  /** The scheduler sleeps between one second and one day, and wakes at the rotation time. */
  lemma SleepUntilNextRotation(now: LocalTime, rt: RotationTime)
    requires ValidLocal(now) && ValidTime(rt)
    ensures 0 < SleepSeconds(now, NextRotation(now, rt)) <= SECONDS_PER_DAY
    ensures Instant(now) + SleepSeconds(now, NextRotation(now, rt)) == Instant(NextRotation(now, rt))
  {
    NextRotationIsNextOccurrence(now, rt);
  }

  // ---------------------------------------------------------------------
  // One entry
  // ---------------------------------------------------------------------

  datatype Kind = File | Directory

  /**
   * What the pass learns of an entry: its kind, whether its name is valid
   * UTF-8, whether reading its metadata succeeds and whether deleting it
   * would succeed.
   */
  datatype Entry = Entry(kind: Kind, utf8Name: bool, metadataOk: bool, removeOk: bool)

  const KEPT_FILES: set<string> := {"heartbeat.log", "red.log", "serenity.log"}
  const INVALID_NAME: string := "InvalidName"

  /** `file_name().into_string().unwrap_or_else(|_| "InvalidName")`. */
  function FileName(name: string, e: Entry): string {
    if e.utf8Name then name else INVALID_NAME
  }

  datatype Action = Keep | RemoveFile | RemoveDirAll

  /**
   * The rule of `process_entry_async` (lines 50-73). `parseDate` stands for
   * `NaiveDate::parse_from_str(name, "%Y-%m-%d")`, giving a day number;
   * `limit` is the retention in days.
   */
  function Decide(name: string, e: Entry, today: int, limit: int, parseDate: string -> Option<int>): Action {
    var n := FileName(name, e);
    if e.kind == File then
      if n in KEPT_FILES then Keep else RemoveFile
    else
      match parseDate(n)
      case Some(date) => if today - date >= limit then RemoveDirAll else Keep
      case None => RemoveDirAll
  }

  /** The rule in words: which files and which directories are kept. */
  lemma DecideRule(name: string, e: Entry, today: int, limit: int, parseDate: string -> Option<int>)
    ensures e.kind == File ==>
              (Decide(name, e, today, limit, parseDate) == Keep <==> FileName(name, e) in KEPT_FILES) &&
              Decide(name, e, today, limit, parseDate) != RemoveDirAll
    ensures e.kind == Directory ==>
              (Decide(name, e, today, limit, parseDate) == Keep <==>
                 parseDate(FileName(name, e)).Some? && today - parseDate(FileName(name, e)).value < limit) &&
              Decide(name, e, today, limit, parseDate) != RemoveFile
  {
  }

  /** A directory dated in the future is kept whatever the retention. */
  lemma FutureDirectoryKept(name: string, e: Entry, today: int, limit: nat, parseDate: string -> Option<int>)
    requires e.kind == Directory && e.utf8Name
    requires parseDate(name).Some? && parseDate(name).value > today
    ensures Decide(name, e, today, limit, parseDate) == Keep
  {
  }

  /** Today's directory survives exactly when the retention is at least one day. */
  lemma TodayKeptIffRetention(name: string, e: Entry, today: int, limit: int, parseDate: string -> Option<int>)
    requires e.kind == Directory && e.utf8Name
    requires parseDate(name) == Some(today)
    ensures Decide(name, e, today, limit, parseDate) == Keep <==> limit >= 1
  {
  }

  /** An entry whose name is not valid UTF-8 is always deleted, since `InvalidName` is neither a kept file nor a date. */
  lemma InvalidNameRemoved(name: string, e: Entry, today: int, limit: int, parseDate: string -> Option<int>)
    requires !e.utf8Name
    requires parseDate(INVALID_NAME).None?
    ensures Decide(name, e, today, limit, parseDate) != Keep
  {
  }

  // ---------------------------------------------------------------------
  // The pass
  // ---------------------------------------------------------------------

  datatype RotateError = ReadDirFailed | MetadataFailed(name: string) | RemoveFailed(name: string)

  /** Names listed once each, all in the directory. */
  predicate ListingOf(entries: map<string, Entry>, listing: seq<string>) {
    (forall i, j :: 0 <= i < j < |listing| ==> listing[i] != listing[j]) &&
    (forall i :: 0 <= i < |listing| ==> listing[i] in entries)
  }

  /** One entry processed: the directory afterwards, and the error that stops the pass, if any. */
  function Step(entries: map<string, Entry>, name: string, today: int, limit: int,
                parseDate: string -> Option<int>): (map<string, Entry>, Option<RotateError>)
    requires name in entries
  {
    var e := entries[name];
    if !e.metadataOk then (entries, Some(MetadataFailed(name)))
    else if Decide(name, e, today, limit, parseDate) == Keep then (entries, None)
    else if !e.removeOk then (entries, Some(RemoveFailed(name)))
    else (entries - {name}, None)
  }

  lemma StepKeepsListing(entries: map<string, Entry>, listing: seq<string>, today: int, limit: int,
                         parseDate: string -> Option<int>)
    requires |listing| > 0 && ListingOf(entries, listing)
    ensures ListingOf(Step(entries, listing[0], today, limit, parseDate).0, listing[1..])
  {
    var name := listing[0];
    forall i | 0 <= i < |listing[1..]|
      ensures listing[1..][i] in Step(entries, name, today, limit, parseDate).0
    {
      assert listing[1..][i] == listing[i + 1] != listing[0];
    }
  }

  /**
   * The `while let` loop of `rotate_logs_async` (lines 94-97): entries in
   * `read_dir` order, stopping at the first error; `listingFails` says that
   * `read_dir` or `next_entry` fails after the listed entries.
   */
  function Pass(entries: map<string, Entry>, listing: seq<string>, listingFails: bool, today: int, limit: int,
                parseDate: string -> Option<int>): (map<string, Entry>, Result<(), RotateError>)
    requires ListingOf(entries, listing)
    decreases |listing|
  {
    if |listing| == 0 then (entries, if listingFails then Err(ReadDirFailed) else Ok(()))
    else
      var (next, err) := Step(entries, listing[0], today, limit, parseDate);
      StepKeepsListing(entries, listing, today, limit, parseDate);
      if err.Some? then (next, Err(err.value)) else Pass(next, listing[1..], listingFails, today, limit, parseDate)
  }

  /** Whether processing an entry fails: its metadata cannot be read, or it is to be deleted and cannot be. */
  predicate Fails(name: string, e: Entry, today: int, limit: int, parseDate: string -> Option<int>) {
    !e.metadataOk || (Decide(name, e, today, limit, parseDate) != Keep && !e.removeOk)
  }

  /** Whether processing an entry deletes it. */
  predicate Removes(name: string, e: Entry, today: int, limit: int, parseDate: string -> Option<int>) {
    e.metadataOk && Decide(name, e, today, limit, parseDate) != Keep && e.removeOk
  }

  /** The listed names whose entries the pass deletes. */
  function RemovedNames(entries: map<string, Entry>, listing: seq<string>, today: int, limit: int,
                        parseDate: string -> Option<int>): set<string>
    requires ListingOf(entries, listing)
  {
    set i | 0 <= i < |listing| && Removes(listing[i], entries[listing[i]], today, limit, parseDate) :: listing[i]
  }

  /**
   * A pass that meets no failing entry: it deletes exactly the listed
   * entries the rule rejects and returns the listing's own outcome.
   */
  lemma {:induction false} PassWithoutFailure(entries: map<string, Entry>, listing: seq<string>, listingFails: bool,
                                              today: int, limit: int, parseDate: string -> Option<int>)
    requires ListingOf(entries, listing)
    requires forall i :: 0 <= i < |listing| ==> !Fails(listing[i], entries[listing[i]], today, limit, parseDate)
    ensures var (after, r) := Pass(entries, listing, listingFails, today, limit, parseDate);
            r == (if listingFails then Err(ReadDirFailed) else Ok(())) &&
            after.Keys == entries.Keys - RemovedNames(entries, listing, today, limit, parseDate) &&
            forall n :: n in after ==> after[n] == entries[n]
    decreases |listing|
  {
    if |listing| > 0 {
      var name := listing[0];
      var (next, err) := Step(entries, name, today, limit, parseDate);
      StepKeepsListing(entries, listing, today, limit, parseDate);
      forall i | 0 <= i < |listing[1..]|
        ensures listing[1..][i] in next && next[listing[1..][i]] == entries[listing[1..][i]]
      {
        assert listing[1..][i] == listing[i + 1] != name;
      }
      PassWithoutFailure(next, listing[1..], listingFails, today, limit, parseDate);
      var removedRest := RemovedNames(next, listing[1..], today, limit, parseDate);
      var removedAll := RemovedNames(entries, listing, today, limit, parseDate);
      assert removedAll == removedRest + (if Removes(name, entries[name], today, limit, parseDate) then {name} else {}) by {
        forall n | n in removedAll
          ensures n in removedRest + (if Removes(name, entries[name], today, limit, parseDate) then {name} else {})
        {
          var i :| 0 <= i < |listing| && Removes(listing[i], entries[listing[i]], today, limit, parseDate) && listing[i] == n;
          if i > 0 {
            assert listing[1..][i - 1] == n;
          }
        }
        forall n | n in removedRest
          ensures n in removedAll
        {
          var i :| 0 <= i < |listing[1..]| && Removes(listing[1..][i], next[listing[1..][i]], today, limit, parseDate) && listing[1..][i] == n;
          assert listing[i + 1] == n;
        }
      }
    }
  }

  /**
   * A pass that meets a failing entry: it stops there with that entry's
   * error, and every entry listed after it is left as it was.
   */
  lemma {:induction false} PassStopsAtFailure(entries: map<string, Entry>, listing: seq<string>, listingFails: bool,
                                              today: int, limit: int, parseDate: string -> Option<int>, k: nat)
    requires ListingOf(entries, listing)
    requires k < |listing| && Fails(listing[k], entries[listing[k]], today, limit, parseDate)
    requires forall i :: 0 <= i < k ==> !Fails(listing[i], entries[listing[i]], today, limit, parseDate)
    ensures var (after, r) := Pass(entries, listing, listingFails, today, limit, parseDate);
            r.Err? && r.error != ReadDirFailed && r.error.name == listing[k] &&
            forall i :: k <= i < |listing| ==> listing[i] in after && after[listing[i]] == entries[listing[i]]
    decreases k
  {
    var name := listing[0];
    var (next, err) := Step(entries, name, today, limit, parseDate);
    StepKeepsListing(entries, listing, today, limit, parseDate);
    if k > 0 {
      forall i | 0 <= i < |listing[1..]|
        ensures next[listing[1..][i]] == entries[listing[1..][i]]
      {
        assert listing[1..][i] == listing[i + 1] != name;
      }
      PassStopsAtFailure(next, listing[1..], listingFails, today, limit, parseDate, k - 1);
      forall i | k <= i < |listing|
        ensures listing[i] == listing[1..][i - 1]
      {
      }
    }
  }

  /** No entry of the directory fails or is to be deleted. */
  predicate Settled(entries: map<string, Entry>, today: int, limit: int, parseDate: string -> Option<int>) {
    forall n :: n in entries ==> !Fails(n, entries[n], today, limit, parseDate) &&
                                 !Removes(n, entries[n], today, limit, parseDate)
  }

  /** After a clean pass over the whole directory, no entry left fails or is to be deleted. */
  lemma CleanPassLeavesKeptEntries(entries: map<string, Entry>, listing: seq<string>,
                                   today: int, limit: int, parseDate: string -> Option<int>)
    requires ListingOf(entries, listing) && (forall n :: n in entries ==> n in listing)
    requires forall i :: 0 <= i < |listing| ==> !Fails(listing[i], entries[listing[i]], today, limit, parseDate)
    ensures Settled(Pass(entries, listing, false, today, limit, parseDate).0, today, limit, parseDate)
  {
    PassWithoutFailure(entries, listing, false, today, limit, parseDate);
    var after := Pass(entries, listing, false, today, limit, parseDate).0;
    forall n | n in after
      ensures !Fails(n, after[n], today, limit, parseDate) && !Removes(n, after[n], today, limit, parseDate)
    {
      assert n in entries && after[n] == entries[n];
      var j :| 0 <= j < |listing| && listing[j] == n;
    }
  }

  /** Rotating again after a clean pass over the whole directory deletes nothing more. */
  lemma SecondPassChangesNothing(entries: map<string, Entry>, listing: seq<string>, relisting: seq<string>,
                                 today: int, limit: int, parseDate: string -> Option<int>)
    requires ListingOf(entries, listing) && (forall n :: n in entries ==> n in listing)
    requires forall i :: 0 <= i < |listing| ==> !Fails(listing[i], entries[listing[i]], today, limit, parseDate)
    requires ListingOf(Pass(entries, listing, false, today, limit, parseDate).0, relisting)
    ensures var after := Pass(entries, listing, false, today, limit, parseDate).0;
            Pass(after, relisting, false, today, limit, parseDate) == (after, Ok(()))
  {
    var after := Pass(entries, listing, false, today, limit, parseDate).0;
    CleanPassLeavesKeptEntries(entries, listing, today, limit, parseDate);
    forall i | 0 <= i < |relisting|
      ensures !Fails(relisting[i], after[relisting[i]], today, limit, parseDate)
      ensures !Removes(relisting[i], after[relisting[i]], today, limit, parseDate)
    {
      var n := relisting[i];
      assert n in after;
      assert !Fails(n, after[n], today, limit, parseDate) && !Removes(n, after[n], today, limit, parseDate);
    }
    PassWithoutFailure(after, relisting, false, today, limit, parseDate);
    var again := Pass(after, relisting, false, today, limit, parseDate).0;
    assert RemovedNames(after, relisting, today, limit, parseDate) == {};
    assert again == after;
  }

  /**
   * Pruning with a retention of seven days on 2024-01-08: the directory a
   * week old and the stray file go, the two recent directories stay.
   * `parseDate` may number days from any origin.
   */
  lemma PruningExample(today: int, parseDate: string -> Option<int>)
    requires parseDate("2024-01-01") == Some(today - 7)
    requires parseDate("2024-01-07") == Some(today - 1)
    requires parseDate("2024-01-08") == Some(today)
    ensures var dir := Entry(Directory, true, true, true);
            var entries := map["2024-01-01" := dir, "2024-01-07" := dir, "2024-01-08" := dir,
                               "notes.txt" := Entry(File, true, true, true)];
            var listing := ["2024-01-01", "2024-01-07", "2024-01-08", "notes.txt"];
            ListingOf(entries, listing) &&
            Pass(entries, listing, false, today, 7, parseDate) ==
              (map["2024-01-07" := dir, "2024-01-08" := dir], Ok(()))
  {
    var dir := Entry(Directory, true, true, true);
    var file := Entry(File, true, true, true);
    var e0 := map["2024-01-01" := dir, "2024-01-07" := dir, "2024-01-08" := dir, "notes.txt" := file];
    var listing := ["2024-01-01", "2024-01-07", "2024-01-08", "notes.txt"];
    assert "notes.txt" !in KEPT_FILES;
    var e1 := e0 - {"2024-01-01"};
    assert Step(e0, listing[0], today, 7, parseDate) == (e1, None);
    assert Step(e1, listing[1], today, 7, parseDate) == (e1, None);
    assert Step(e1, listing[2], today, 7, parseDate) == (e1, None);
    var e2 := e1 - {"notes.txt"};
    assert Step(e1, listing[3], today, 7, parseDate) == (e2, None);
    assert listing[1..][1..][1..][1..] == [];
    assert e2 == map["2024-01-07" := dir, "2024-01-08" := dir];
  }

  /** The log directory as the rotator sees it. */
  class LogBase {
    var present: bool
    var entries: map<string, Entry>

    constructor (present: bool, entries: map<string, Entry>)
      ensures this.present == present && this.entries == entries
    {
      this.present := present;
      this.entries := entries;
    }

    /**
     * `rotate_logs_async` (lines 77-98): nothing happens when the base
     * directory is missing; otherwise the listed entries are processed in
     * order until one fails. The second `requires` describes `read_dir`: a
     * listing that does not fail names every entry. The `ensures` do not need
     * it; the lemmas about a clean pass rely on it.
     */
    method RotateLogs(listing: seq<string>, listingFails: bool, today: int, limit: int,
                      parseDate: string -> Option<int>) returns (r: Result<(), RotateError>)
      requires ListingOf(entries, listing)
      requires !listingFails ==> forall n :: n in entries ==> n in listing
      modifies this
      ensures present == old(present)
      ensures !present ==> entries == old(entries) && r == Ok(())
      ensures present ==> (entries, r) == Pass(old(entries), listing, listingFails, today, limit, parseDate)
    {
      if !present {
        return Ok(());
      }
      var i := 0;
      while i < |listing|
        invariant 0 <= i <= |listing|
        invariant ListingOf(entries, listing[i..])
        invariant Pass(old(entries), listing, listingFails, today, limit, parseDate) ==
                  Pass(entries, listing[i..], listingFails, today, limit, parseDate)
        invariant present == old(present)
      {
        var name := listing[i];
        var e := entries[name];
        StepKeepsListing(entries, listing[i..], today, limit, parseDate);
        assert listing[i..][0] == name && listing[i..][1..] == listing[i + 1..];
        if !e.metadataOk {
          return Err(MetadataFailed(name));
        }
        if Decide(name, e, today, limit, parseDate) != Keep {
          if !e.removeOk {
            return Err(RemoveFailed(name));
          }
          entries := entries - {name};
        }
        i := i + 1;
      }
      if listingFails {
        return Err(ReadDirFailed);
      }
      r := Ok(());
    }
  }
}
