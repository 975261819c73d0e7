/**
 * Local dates and times as the loggers print them with chrono's
 * `%Y-%m-%d` and `%Y-%m-%d %H:%M:%S`.
 */
module Calendar {
  import opened Common
  import opened Text

  datatype Date = Date(year: nat, month: nat, day: nat)

  datatype DateTime = DateTime(date: Date, hour: nat, minute: nat, second: nat)

  /** `%Y-%m-%d`: the year padded to four digits, month and day to two. */
  function DateName(d: Date): (r: string)
    ensures '\n' !in r
    ensures |r| > 0 && 0x21 <= r[0] as int < 0x7F
  {
    Decimal(d.year, 4) + "-" + Decimal(d.month, 2) + "-" + Decimal(d.day, 2)
  }

  /** `%Y-%m-%d %H:%M:%S`. */
  function Timestamp(t: DateTime): (r: string)
    ensures '\n' !in r
    ensures |r| > 0 && 0x21 <= r[0] as int < 0x7F
  {
    DateName(t.date) + " " + Decimal(t.hour, 2) + ":" + Decimal(t.minute, 2) + ":" + Decimal(t.second, 2)
  }

  /** Digits hold neither separator. */
  lemma DigitsHaveNoSeparator(s: string, sep: char)
    requires AllDigits(s) && !IsDigit(sep)
    ensures sep !in s
  {
  }

  /** A day directory's name splits on `-` into year, month and day, each of which parses back. */
  lemma DateNameParts(d: Date)
    requires d.year < U32_LIMIT && d.month < U32_LIMIT && d.day < U32_LIMIT
    ensures var parts := Split(DateName(d), '-');
            |parts| == 3 &&
            ParseU32(parts[0]) == Some(d.year) &&
            ParseU32(parts[1]) == Some(d.month) &&
            ParseU32(parts[2]) == Some(d.day)
  {
    var y, m, dd := Decimal(d.year, 4), Decimal(d.month, 2), Decimal(d.day, 2);
    DigitsHaveNoSeparator(y, '-');
    DigitsHaveNoSeparator(m, '-');
    DigitsHaveNoSeparator(dd, '-');
    assert DateName(d) == y + ['-'] + m + ['-'] + dd;
    SplitThree(y, m, dd, '-');
    ParseDecimal(d.year, 4);
    ParseDecimal(d.month, 2);
    ParseDecimal(d.day, 2);
  }

  /** Distinct dates get distinct directory names. */
  lemma DateNameInjective(a: Date, b: Date)
    requires a.year < U32_LIMIT && a.month < U32_LIMIT && a.day < U32_LIMIT
    requires b.year < U32_LIMIT && b.month < U32_LIMIT && b.day < U32_LIMIT
    ensures DateName(a) == DateName(b) ==> a == b
  {
    DateNameParts(a);
    DateNameParts(b);
  }
}
