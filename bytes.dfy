/**
 * Bytes, the UTF-8 encoding of a `String` (what `String::as_bytes` hands the
 * writer) and blankness of a byte string: `String::from_utf8_lossy(b).trim()`
 * being empty, restricted to the ASCII whitespace bytes.
 */
module Bytes {

  newtype byte = x: int | 0 <= x < 256

  const NEWLINE: byte := 10

  /** The ASCII characters Rust's `char::is_whitespace` accepts: tab, line feed, vertical tab, form feed, carriage return, space. */
  predicate IsSpaceByte(b: byte) {
    9 <= b <= 13 || b == 32
  }

  /** The byte string trims to the empty string. */
  predicate IsBlank(s: seq<byte>) {
    forall i :: 0 <= i < |s| ==> IsSpaceByte(s[i])
  }

  /** UTF-8 encoding of one Unicode scalar value. */
  function EncodeChar(c: char): (r: seq<byte>)
    ensures 1 <= |r| <= 4
    ensures c as int < 0x80 ==> r == [c as int as byte]
    ensures c as int >= 0x80 ==> forall i :: 0 <= i < |r| ==> r[i] >= 0x80
  {
    var n := c as int;
    if n < 0x80 then [n as byte]
    else if n < 0x800 then [(0xC0 + n / 0x40) as byte, (0x80 + n % 0x40) as byte]
    else if n < 0x1_0000 then
      [(0xE0 + n / 0x1000) as byte, (0x80 + (n / 0x40) % 0x40) as byte, (0x80 + n % 0x40) as byte]
    else
      assert n / 0x4_0000 <= 4;
      [(0xF0 + n / 0x4_0000) as byte, (0x80 + (n / 0x1000) % 0x40) as byte,
       (0x80 + (n / 0x40) % 0x40) as byte, (0x80 + n % 0x40) as byte]
  }

  /** UTF-8 encoding of a string. */
  function Utf8(s: string): (r: seq<byte>)
    ensures |r| >= |s|
  {
    if |s| == 0 then [] else EncodeChar(s[0]) + Utf8(s[1..])
  }

  /** Encoding distributes over concatenation. */
  lemma {:induction false} Utf8Append(a: string, b: string)
    ensures Utf8(a + b) == Utf8(a) + Utf8(b)
    decreases |a|
  {
    if |a| == 0 {
      assert a + b == b;
    } else {
      assert (a + b)[0] == a[0];
      assert (a + b)[1..] == a[1..] + b;
      Utf8Append(a[1..], b);
    }
  }

  /** A string without a line feed encodes to bytes without a newline byte. */
  lemma {:induction false} Utf8NoNewline(s: string)
    requires '\n' !in s
    ensures NEWLINE !in Utf8(s)
    decreases |s|
  {
    if |s| > 0 {
      assert '\n' !in s[1..];
      Utf8NoNewline(s[1..]);
      assert s[0] != '\n';
      var e := EncodeChar(s[0]);
      assert NEWLINE !in e;
      assert Utf8(s) == e + Utf8(s[1..]);
    }
  }

  /** A string holding a visible ASCII character does not encode to a blank byte string. */
  lemma {:induction false} Utf8NotBlank(s: string, k: nat)
    requires k < |s| && 0x21 <= s[k] as int < 0x7F
    ensures !IsBlank(Utf8(s))
    decreases k
  {
    var e := EncodeChar(s[0]);
    assert Utf8(s) == e + Utf8(s[1..]);
    if k == 0 {
      assert Utf8(s)[0] == s[0] as int as byte;
    } else {
      Utf8NotBlank(s[1..], k - 1);
      var i :| 0 <= i < |Utf8(s[1..])| && !IsSpaceByte(Utf8(s[1..])[i]);
      assert Utf8(s)[|e| + i] == Utf8(s[1..])[i];
    }
  }
}
