/**
 * The legacy log rotator (src/bot/utils/logrotate.rs): the same `HH:MM`
 * rotation time and schedule as the current one, and a sweep that deletes
 * the sub-directories of the base directory last modified longer ago than
 * the retention. Ages are whole seconds.
 */
module LegacyLogRotate {
  import opened Common
  import opened Text
  import LogRotate

  const U64_LIMIT: nat := 0x1_0000_0000_0000_0000

  // ---------------------------------------------------------------------
  // Rotation time and schedule (lines 17-29, 46-54)
  // ---------------------------------------------------------------------

  /** `parse_rotation_time`, with the nested `if` of lines 48-52. */
  function ParseRotationTime(s: string): (r: Option<LogRotate.RotationTime>)
    ensures r.Some? ==> LogRotate.ValidTime(r.value)
  {
    var parts := Split(s, ':');
    if |parts| == 2 then
      match (ParseU32(parts[0]), ParseU32(parts[1]))
      case (Some(hour), Some(minute)) =>
        if hour < 24 && minute < 60 then Some(LogRotate.RotationTime(hour, minute)) else None
      case _ => None
    else None
  }

  /** The legacy parser accepts and rejects exactly what the current one does. */
  lemma ParsersAgree(s: string)
    ensures ParseRotationTime(s) == LogRotate.ParseRotationTime(s)
  {
  }

  /** Lines 20-29: the next rotation, computed inline, and the wait until it. */
  function NextRotation(now: LogRotate.LocalTime, rt: LogRotate.RotationTime): (next: LogRotate.LocalTime)
    requires LogRotate.ValidLocal(now) && LogRotate.ValidTime(rt)
    ensures LogRotate.ValidLocal(next)
  {
    LogRotate.SecondOfDayInDay(rt);
    var todayRotation := LogRotate.LocalTime(now.day, LogRotate.SecondOfDay(rt));
    if now.second < LogRotate.SecondOfDay(rt) then todayRotation
    else LogRotate.LocalTime(todayRotation.day + 1, todayRotation.second)
  }

  /** The legacy schedule wakes at the same instants as the current one, so it too sleeps at most a day. */
  lemma SchedulesAgree(now: LogRotate.LocalTime, rt: LogRotate.RotationTime)
    requires LogRotate.ValidLocal(now) && LogRotate.ValidTime(rt)
    ensures NextRotation(now, rt) == LogRotate.NextRotation(now, rt)
    ensures 0 < LogRotate.SleepSeconds(now, NextRotation(now, rt)) <= LogRotate.SECONDS_PER_DAY
  {
    LogRotate.SleepUntilNextRotation(now, rt);
  }

  // ---------------------------------------------------------------------
  // Allowed age (line 62)
  // ---------------------------------------------------------------------

  /**
   * `rotation_frequency_days * 24 * 60 * 60` on `u64` as a release build
   * computes it: the product wraps modulo 2^64.
   */
  function AllowedSecondsAsWritten(days: nat): (s: nat)
    requires days < U64_LIMIT
    ensures s < U64_LIMIT
  {
    (days * 86400) % U64_LIMIT
  }

  /** Below the wrap-around the product is exact. */
  lemma AsWrittenExactBelowWrap(days: nat)
    requires days * 86400 < U64_LIMIT
    ensures AllowedSecondsAsWritten(days) == AllowedSeconds(days)
  {
  }

  /**
   * The input that shows the wrap: a retention of 213503982334602 days
   * allows 61184 seconds, less than a one-day retention allows, so
   * raising the retention makes more directories go.
   */
  lemma WrapShortensRetention()
    ensures AllowedSecondsAsWritten(213503982334602) == 61184
    ensures AllowedSecondsAsWritten(213503982334602) < AllowedSecondsAsWritten(1)
  {
  }

  /** The allowed age as intended: the retention in days, in seconds. */
  function AllowedSeconds(days: nat): (s: nat)
    ensures s / 86400 == days && s % 86400 == 0
  {
    days * 86400
  }

  /** A longer retention never allows a shorter age. */
  lemma AllowedSecondsMonotone(a: nat, b: nat)
    requires a <= b
    ensures AllowedSeconds(a) <= AllowedSeconds(b)
  {
  }

  // ---------------------------------------------------------------------
  // The sweep (lines 59-124)
  // ---------------------------------------------------------------------

  /**
   * What the sweep learns of an entry: whether its metadata reads, whether
   * it is a directory, its modification time if that reads, and whether
   * deleting it would succeed.
   */
  datatype OldEntry = OldEntry(metadataOk: bool, isDir: bool, modified: Option<int>, removeOk: bool)

  /**
   * Whether an entry is one the sweep deletes: a directory whose metadata
   * and modification time read, not modified after `now`, and older than
   * allowed. Every failure on the way skips the entry.
   */
  predicate TooOld(e: OldEntry, now: int, allowed: nat) {
    e.metadataOk && e.isDir && e.modified.Some? && e.modified.value <= now &&
    now - e.modified.value > allowed
  }

  /** Whether the sweep deletes an entry: it is too old and `remove_dir_all` succeeds. */
  predicate Deletes(e: OldEntry, now: int, allowed: nat) {
    TooOld(e, now, allowed) && e.removeOk
  }

  /** The directory after the sweep visits the names in `visited`. */
  function Swept(entries: map<string, OldEntry>, visited: set<string>, now: int, allowed: nat): map<string, OldEntry> {
    map n | n in entries && !(n in visited && Deletes(entries[n], now, allowed)) :: entries[n]
  }

  /** What the sweep keeps: every entry it does not visit or does not delete, unchanged. */
  lemma SweptKeeps(entries: map<string, OldEntry>, visited: set<string>, now: int, allowed: nat, n: string)
    requires n in entries
    ensures n in Swept(entries, visited, now, allowed) <==> !(n in visited && Deletes(entries[n], now, allowed))
    ensures n in Swept(entries, visited, now, allowed) ==> Swept(entries, visited, now, allowed)[n] == entries[n]
  {
  }

  /** Files and unreadable entries are never deleted, however old. */
  lemma NonDirectoriesSurvive(entries: map<string, OldEntry>, visited: set<string>, now: int, allowed: nat, n: string)
    requires n in entries && (!entries[n].isDir || !entries[n].metadataOk || entries[n].modified.None?)
    ensures n in Swept(entries, visited, now, allowed)
  {
  }

  /** A longer retention deletes no more: what a short retention keeps, a longer one keeps too. */
  lemma LongerRetentionKeepsMore(entries: map<string, OldEntry>, visited: set<string>, now: int, a: nat, b: nat)
    requires a <= b
    ensures Swept(entries, visited, now, AllowedSeconds(a)).Keys <= Swept(entries, visited, now, AllowedSeconds(b)).Keys
  {
    AllowedSecondsMonotone(a, b);
  }

  /**
   * The same under the wrap-around as written, for the retentions 1 and
   * 213503982334602: a directory 70000 seconds old survives the short
   * retention and is deleted under the long one.
   */
  lemma AsWrittenLongerRetentionDeletes()
    ensures var e := map["2024-01-01" := OldEntry(true, true, Some(0), true)];
            "2024-01-01" in Swept(e, {"2024-01-01"}, 70000, AllowedSecondsAsWritten(1)) &&
            "2024-01-01" !in Swept(e, {"2024-01-01"}, 70000, AllowedSecondsAsWritten(213503982334602))
  {
    WrapShortensRetention();
  }

  /** A second sweep at the same instant deletes nothing more. */
  lemma SweepIdempotent(entries: map<string, OldEntry>, visited: set<string>, now: int, allowed: nat)
    ensures Swept(Swept(entries, visited, now, allowed), visited, now, allowed) == Swept(entries, visited, now, allowed)
  {
  }

  /** The log directory as the legacy rotator sees it. */
  class LegacyLogBase {
    var present: bool
    var entries: map<string, OldEntry>

    constructor (present: bool, entries: map<string, OldEntry>)
      ensures this.present == present && this.entries == entries
    {
      this.present := present;
      this.entries := entries;
    }

    /**
     * `rotate_logs` (lines 59-124), with the retention `days` a `u64` and its
     * product in seconds wrapping as in a release build: nothing happens when the base directory is missing; otherwise every
     * listed entry is visited, failures skip the entry, and only a failing
     * listing (`read_dir` or the next entry) ends the sweep with an error.
     * `now` stands for the clock the sweep reads.
     */
    method RotateLogs(listing: seq<string>, listingFails: bool, days: nat, now: int)
      returns (r: Result<(), LogRotate.RotateError>)
      requires days < U64_LIMIT
      modifies this
      ensures present == old(present)
      ensures !present ==> entries == old(entries) && r == Ok(())
      ensures present ==> entries == Swept(old(entries), set i | 0 <= i < |listing| :: listing[i], now, AllowedSecondsAsWritten(days))
      ensures present ==> (r.Err? <==> listingFails) && (r.Err? ==> r.error == LogRotate.ReadDirFailed)
    {
      if !present {
        return Ok(());
      }
      var allowed := AllowedSecondsAsWritten(days);
      ghost var start := entries;
      var i := 0;
      while i < |listing|
        invariant 0 <= i <= |listing|
        invariant entries == Swept(start, set j | 0 <= j < i :: listing[j], now, allowed)
        invariant present == old(present)
      {
        var name := listing[i];
        ghost var before := set j | 0 <= j < i :: listing[j];
        ghost var after := set j | 0 <= j < i + 1 :: listing[j];
        assert after == before + {name};
        if name in entries {
          var e := entries[name];
          if TooOld(e, now, allowed) && e.removeOk {
            entries := entries - {name};
          }
        }
        SweepOne(start, before, name, now, allowed);
        i := i + 1;
      }
      if listingFails {
        return Err(LogRotate.ReadDirFailed);
      }
      r := Ok(());
    }
  }

  /** Visiting one more name deletes it when it is still there and is to be deleted, and nothing else. */
  lemma SweepOne(entries: map<string, OldEntry>, visited: set<string>, name: string, now: int, allowed: nat)
    ensures var s := Swept(entries, visited, now, allowed);
            Swept(entries, visited + {name}, now, allowed) ==
              if name in s && Deletes(s[name], now, allowed) then s - {name} else s
  {
  }
}
