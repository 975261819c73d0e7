/**
 * The pieces of Rust's `str` API that the core relies on: ASCII
 * `to_lowercase`, `split` on one character, `starts_with` (Dafny's prefix
 * order `<=` on sequences) and `str::parse::<u32>`.
 */
module Text {
  import opened Common

  const U32_LIMIT: int := 0x1_0000_0000

  /** `char::to_lowercase` restricted to ASCII letters; every other character is left alone. */
  function LowerChar(c: char): (r: char)
    ensures 'A' <= c <= 'Z' ==> r as int == c as int + 32
    ensures !('A' <= c <= 'Z') ==> r == c
  {
    if 'A' <= c <= 'Z' then (c as int + 32) as char else c
  }

  function ToLower(s: string): (r: string)
    ensures |r| == |s|
    ensures forall i :: 0 <= i < |s| ==> r[i] == LowerChar(s[i])
  {
    seq(|s|, i requires 0 <= i < |s| => LowerChar(s[i]))
  }

  /** Lower-casing twice is lower-casing once. */
  lemma ToLowerIdempotent(s: string)
    ensures ToLower(ToLower(s)) == ToLower(s)
  {
    var once := ToLower(s);
    var twice := ToLower(once);
    assert |twice| == |once|;
    forall i | 0 <= i < |once|
      ensures twice[i] == once[i]
    {
      assert once[i] == LowerChar(s[i]);
    }
  }

  /** Index of the first occurrence of `c` in `s`. */
  function IndexOf(s: string, c: char): (r: Option<nat>)
    ensures r.None? <==> c !in s
    ensures r.Some? ==> r.value < |s| && s[r.value] == c
    ensures r.Some? ==> forall j :: 0 <= j < r.value ==> s[j] != c
  {
    if |s| == 0 then None
    else if s[0] == c then Some(0)
    else
      match IndexOf(s[1..], c)
      case None => None
      case Some(i) => Some(i + 1)
  }

  /** `str::split(sep)`: the pieces between separators, one more piece than there are separators. */
  function Split(s: string, sep: char): (parts: seq<string>)
    ensures |parts| >= 1
    ensures forall k :: 0 <= k < |parts| ==> sep !in parts[k]
    decreases |s|
  {
    match IndexOf(s, sep)
    case None => [s]
    case Some(i) => [s[..i]] + Split(s[i + 1..], sep)
  }

  /** Joining the pieces back with the separator. */
  function Join(parts: seq<string>, sep: char): string
    requires |parts| >= 1
  {
    if |parts| == 1 then parts[0] else parts[0] + [sep] + Join(parts[1..], sep)
  }

  /** `split` loses nothing: joining its pieces with the separator gives the input back. */
  lemma {:induction false} SplitJoin(s: string, sep: char)
    ensures Join(Split(s, sep), sep) == s
    decreases |s|
  {
    match IndexOf(s, sep)
    case None =>
    case Some(i) =>
      var rest := Split(s[i + 1..], sep);
      assert Split(s, sep) == [s[..i]] + rest;
      SplitJoin(s[i + 1..], sep);
      assert Join([s[..i]] + rest, sep) == s[..i] + [sep] + Join(rest, sep) by {
        assert ([s[..i]] + rest)[1..] == rest;
      }
      assert s == s[..i] + [sep] + s[i + 1..];
  }

  /** Number of occurrences of `c` in `s`. */
  function Count(s: string, c: char): nat
  {
    if |s| == 0 then 0 else (if s[0] == c then 1 else 0) + Count(s[1..], c)
  }

  lemma {:induction false} CountAppend(a: string, b: string, c: char)
    ensures Count(a + b, c) == Count(a, c) + Count(b, c)
    decreases |a|
  {
    if |a| > 0 {
      assert (a + b)[0] == a[0];
      assert (a + b)[1..] == a[1..] + b;
      CountAppend(a[1..], b, c);
    } else {
      assert a + b == b;
    }
  }

  lemma {:induction false} CountAbsent(s: string, c: char)
    requires c !in s
    ensures Count(s, c) == 0
    decreases |s|
  {
    if |s| > 0 {
      assert c !in s[1..];
      CountAbsent(s[1..], c);
    }
  }

  /** Splitting at a first separator. */
  lemma SplitFirst(a: string, rest: string, sep: char)
    requires sep !in a
    ensures Split(a + [sep] + rest, sep) == [a] + Split(rest, sep)
  {
    var s := a + [sep] + rest;
    assert IndexOf(s, sep) == Some(|a|) by {
      assert s[|a|] == sep;
      assert forall j :: 0 <= j < |a| ==> s[j] == a[j];
    }
    assert s[..|a|] == a;
    assert s[|a| + 1..] == rest;
  }

  /** Two pieces joined by the separator split back into them. */
  lemma SplitPair(a: string, b: string, sep: char)
    requires sep !in a && sep !in b
    ensures Split(a + [sep] + b, sep) == [a, b]
  {
    SplitFirst(a, b, sep);
  }

  /** Three pieces joined by the separator split back into them. */
  lemma SplitThree(a: string, b: string, c: string, sep: char)
    requires sep !in a && sep !in b && sep !in c
    ensures Split(a + [sep] + b + [sep] + c, sep) == [a, b, c]
  {
    assert a + [sep] + b + [sep] + c == a + [sep] + (b + [sep] + c);
    SplitFirst(a, b + [sep] + c, sep);
    SplitPair(b, c, sep);
  }

  /** The count of a separator splits at its first occurrence. */
  lemma CountAtFirst(s: string, i: nat, sep: char)
    requires i < |s| && s[i] == sep
    requires forall j :: 0 <= j < i ==> s[j] != sep
    ensures Count(s, sep) == 1 + Count(s[i + 1..], sep)
  {
    var head, rest := s[..i], s[i + 1..];
    assert sep !in head;
    CountAbsent(head, sep);
    assert Count([sep] + rest, sep) == 1 + Count(rest, sep) by {
      assert ([sep] + rest)[1..] == rest;
    }
    assert s == head + ([sep] + rest);
    CountAppend(head, [sep] + rest, sep);
  }

  /** `split` yields exactly one piece more than the separators it meets. */
  lemma {:induction false} SplitLength(s: string, sep: char)
    ensures |Split(s, sep)| == Count(s, sep) + 1
    decreases |s|
  {
    match IndexOf(s, sep)
    case None => CountAbsent(s, sep);
    case Some(i) =>
      assert |Split(s, sep)| == 1 + |Split(s[i + 1..], sep)|;
      SplitLength(s[i + 1..], sep);
      CountAtFirst(s, i, sep);
  }


  predicate IsDigit(c: char) { '0' <= c <= '9' }

  predicate AllDigits(s: string) { forall i :: 0 <= i < |s| ==> IsDigit(s[i]) }

  /** Decimal value of a string of ASCII digits, most significant first. */
  function DigitsValue(s: string): nat
    requires AllDigits(s)
  {
    if |s| == 0 then 0
    else DigitsValue(s[..|s| - 1]) * 10 + (s[|s| - 1] as int - '0' as int)
  }

  /**
   * `str::parse::<u32>`: an optional single leading `+`, then one or more
   * ASCII digits whose value fits 32 bits; anything else (the empty
   * string, a lone `+`, a `-`, any other character, overflow) is an error.
   */
  function ParseU32(s: string): (r: Option<nat>)
    ensures r.Some? ==> r.value < U32_LIMIT
  {
    var digits := if |s| > 0 && s[0] == '+' then s[1..] else s;
    if |digits| == 0 || !AllDigits(digits) then None
    else
      var v := DigitsValue(digits);
      if v < U32_LIMIT then Some(v) else None
  }

  /** Decimal rendering of `n`, padded with leading zeros to at least `width` digits. */
  function Decimal(n: nat, width: nat): (r: string)
    ensures AllDigits(r)
    ensures |r| >= 1 && |r| >= width
    decreases n + width
  {
    if n < 10 && width <= 1 then [('0' as int + n) as char]
    else Decimal(n / 10, if width > 0 then width - 1 else 0) + [('0' as int + n % 10) as char]
  }

  /** `Decimal` is read back by `DigitsValue`. */
  lemma {:induction false} DecimalValue(n: nat, width: nat)
    ensures DigitsValue(Decimal(n, width)) == n
    decreases n + width
  {
    if !(n < 10 && width <= 1) {
      var w := if width > 0 then width - 1 else 0;
      var d := Decimal(n, width);
      DecimalValue(n / 10, w);
      assert d[..|d| - 1] == Decimal(n / 10, w);
    }
  }

  /** A number rendered in decimal parses back as a u32. */
  lemma ParseDecimal(n: nat, width: nat)
    requires n < U32_LIMIT
    ensures ParseU32(Decimal(n, width)) == Some(n)
  {
    DecimalValue(n, width);
  }
}
