/**
 * `NoEmptyLineWriter` (src/bot/utils/log/logger.rs): a decorator around a
 * writer that buffers bytes until a newline, forwards each complete line
 * unless it is blank, and on flush forwards the pending tail unless it is
 * blank. The wrapped writer is modelled by the bytes it has received.
 */
module LineWriter {
  import opened Common
  import opened Bytes

  /** `buffer.iter().position(|&b| b == b'\n')`. */
  function FirstNewline(s: seq<byte>): (r: Option<nat>)
    ensures r.Some? ==> r.value < |s|
  {
    if |s| == 0 then None
    else if s[0] == NEWLINE then Some(0)
    else
      var r := FirstNewline(s[1..]);
      if r.None? then None else Some(r.value + 1)
  }

  /** `position` finds the first newline, and finds none only when there is none. */
  lemma {:induction false} FirstNewlineFinds(s: seq<byte>)
    ensures FirstNewline(s).None? <==> NEWLINE !in s
    ensures FirstNewline(s).Some? ==>
      s[FirstNewline(s).value] == NEWLINE && NEWLINE !in s[..FirstNewline(s).value]
  {
    if |s| > 0 && s[0] != NEWLINE {
      FirstNewlineFinds(s[1..]);
      var r := FirstNewline(s[1..]);
      if r.Some? {
        assert s[..r.value + 1] == [s[0]] + s[1..][..r.value];
      } else {
        assert s == [s[0]] + s[1..];
      }
    }
  }

  /** What happens to one complete line: dropped if blank, kept whole otherwise. */
  function Kept(line: seq<byte>): seq<byte>
  {
    if IsBlank(line) then [] else line
  }

  /**
   * The lines completed by the bytes `s` when the line `cur` has already
   * been begun, blank ones dropped, in order, each with its newline.
   */
  function Complete(s: seq<byte>, cur: seq<byte>): seq<byte>
    decreases |s|
  {
    if |s| == 0 then []
    else if s[0] == NEWLINE then Kept(cur + [NEWLINE]) + Complete(s[1..], [])
    else Complete(s[1..], cur + [s[0]])
  }

  /** The line still being assembled after the bytes `s`, when `cur` had been begun. */
  function Pending(s: seq<byte>, cur: seq<byte>): seq<byte>
    decreases |s|
  {
    if |s| == 0 then cur
    else if s[0] == NEWLINE then Pending(s[1..], [])
    else Pending(s[1..], cur + [s[0]])
  }

  /** The non-blank complete lines of a stream, in order, each with its newline. */
  function Forwarded(s: seq<byte>): seq<byte>
  {
    Complete(s, [])
  }

  /** The bytes of a stream after its last newline. */
  function Tail(s: seq<byte>): seq<byte>
  {
    Pending(s, [])
  }

  /** Consuming a stream in two pieces: the second continues the line the first left open. */
  lemma {:induction false} CompleteAppend(a: seq<byte>, b: seq<byte>, cur: seq<byte>)
    ensures Complete(a + b, cur) == Complete(a, cur) + Complete(b, Pending(a, cur))
    ensures Pending(a + b, cur) == Pending(b, Pending(a, cur))
    decreases |a|
  {
    if |a| == 0 {
      assert a + b == b;
    } else {
      assert (a + b)[0] == a[0];
      assert (a + b)[1..] == a[1..] + b;
      if a[0] == NEWLINE {
        CompleteAppend(a[1..], b, []);
      } else {
        CompleteAppend(a[1..], b, cur + [a[0]]);
      }
    }
  }

  /** Bytes without a newline complete nothing and only extend the open line. */
  lemma {:induction false} NoNewlineExtends(a: seq<byte>, cur: seq<byte>)
    requires NEWLINE !in a
    ensures Complete(a, cur) == [] && Pending(a, cur) == cur + a
    decreases |a|
  {
    if |a| == 0 {
      assert cur + a == cur;
    } else {
      assert NEWLINE !in a[1..];
      NoNewlineExtends(a[1..], cur + [a[0]]);
      assert cur + [a[0]] + a[1..] == cur + a;
    }
  }

  /** The open line never holds a newline. */
  lemma {:induction false} PendingHasNoNewline(s: seq<byte>, cur: seq<byte>)
    requires NEWLINE !in cur
    ensures NEWLINE !in Pending(s, cur)
    decreases |s|
  {
    if |s| > 0 {
      if s[0] == NEWLINE {
        PendingHasNoNewline(s[1..], []);
      } else {
        PendingHasNoNewline(s[1..], cur + [s[0]]);
      }
    }
  }

  /** A line begun earlier can as well be fed again from its start. */
  lemma OpenLineRefed(t: seq<byte>, b: seq<byte>)
    requires NEWLINE !in t
    ensures Complete(b, t) == Forwarded(t + b) && Pending(b, t) == Tail(t + b)
  {
    CompleteAppend(t, b, []);
    NoNewlineExtends(t, []);
    assert [] + t == t;
  }

  /**
   * Feeding a stream in two pieces forwards the same bytes as feeding it at
   * once: the lines of the first piece, then those completed from its
   * unfinished tail and the second piece.
   */
  lemma ForwardedAppend(a: seq<byte>, b: seq<byte>)
    ensures Forwarded(a + b) == Forwarded(a) + Forwarded(Tail(a) + b)
    ensures Tail(a + b) == Tail(Tail(a) + b)
  {
    CompleteAppend(a, b, []);
    PendingHasNoNewline(a, []);
    OpenLineRefed(Tail(a), b);
  }

  /** One turn of the drain loop: the bytes up to the first newline are one line. */
  lemma DrainOne(s: seq<byte>, p: nat)
    requires FirstNewline(s) == Some(p)
    ensures Forwarded(s) == Kept(s[..p + 1]) + Forwarded(s[p + 1..])
    ensures Tail(s) == Tail(s[p + 1..])
  {
    FirstNewlineFinds(s);
    var head, rest := s[..p], s[p + 1..];
    assert s == head + ([NEWLINE] + rest);
    CompleteAppend(head, [NEWLINE] + rest, []);
    NoNewlineExtends(head, []);
    assert ([NEWLINE] + rest)[1..] == rest;
    assert [] + head + [NEWLINE] == s[..p + 1];
  }

  /** A line: ends with a newline and holds no other. */
  predicate IsLine(l: seq<byte>) {
    |l| >= 1 && l[|l| - 1] == NEWLINE && NEWLINE !in l[..|l| - 1]
  }

  function Concat(ls: seq<seq<byte>>): seq<byte>
  {
    if |ls| == 0 then [] else ls[0] + Concat(ls[1..])
  }

  /** The lines whose text is not blank, in their original order. */
  function NonBlankLines(ls: seq<seq<byte>>): (r: seq<seq<byte>>)
    ensures forall i :: 0 <= i < |r| ==> !IsBlank(r[i])
    ensures |r| <= |ls|
  {
    if |ls| == 0 then []
    else (if IsBlank(ls[0]) then [] else [ls[0]]) + NonBlankLines(ls[1..])
  }

  /** A newline closes the open line. */
  lemma LineClosed(body: seq<byte>, cur: seq<byte>)
    requires NEWLINE !in body
    ensures Complete(body + [NEWLINE], cur) == Kept(cur + body + [NEWLINE])
    ensures Pending(body + [NEWLINE], cur) == []
  {
    CompleteAppend(body, [NEWLINE], cur);
    NoNewlineExtends(body, cur);
  }

  /** A whole line fed at a line boundary is forwarded unless blank and leaves nothing open. */
  lemma LineThrough(l: seq<byte>, rest: seq<byte>)
    requires IsLine(l)
    ensures Forwarded(l + rest) == Kept(l) + Forwarded(rest)
    ensures Tail(l + rest) == Tail(rest)
  {
    var body := l[..|l| - 1];
    assert l == body + [NEWLINE];
    LineClosed(body, []);
    assert [] + body + [NEWLINE] == l;
    CompleteAppend(l, rest, []);
  }

  /**
   * Reference definition of the filter: a stream made of whole lines comes
   * out as exactly its non-blank lines, in order, and leaves nothing pending.
   */
  lemma {:induction false} ForwardedLines(ls: seq<seq<byte>>)
    requires forall i :: 0 <= i < |ls| ==> IsLine(ls[i])
    ensures Forwarded(Concat(ls)) == Concat(NonBlankLines(ls))
    ensures Tail(Concat(ls)) == []
  {
    if |ls| > 0 {
      var l, rest := ls[0], Concat(ls[1..]);
      assert Concat(ls) == l + rest;
      LineThrough(l, rest);
      ForwardedLines(ls[1..]);
      if IsBlank(l) {
        assert NonBlankLines(ls) == NonBlankLines(ls[1..]);
      } else {
        assert NonBlankLines(ls) == [l] + NonBlankLines(ls[1..]);
        assert ([l] + NonBlankLines(ls[1..]))[1..] == NonBlankLines(ls[1..]);
      }
    }
  }

  /** What is forwarded is made of complete lines only. */
  lemma {:induction false} CompleteEndsOnLine(s: seq<byte>, cur: seq<byte>)
    requires NEWLINE !in cur
    ensures Tail(Complete(s, cur)) == []
    decreases |s|
  {
    if |s| > 0 {
      if s[0] == NEWLINE {
        var k, rest := Kept(cur + [NEWLINE]), Complete(s[1..], []);
        assert Complete(s, cur) == k + rest;
        CompleteEndsOnLine(s[1..], []);
        if k != [] {
          assert (cur + [NEWLINE])[..|cur|] == cur;
          LineThrough(k, rest);
        } else {
          assert k + rest == rest;
        }
      } else {
        CompleteEndsOnLine(s[1..], cur + [s[0]]);
      }
    }
  }

  /** No blank line survives: eliding what was forwarded changes nothing. */
  lemma {:induction false} CompleteIdempotent(s: seq<byte>, cur: seq<byte>)
    requires NEWLINE !in cur
    ensures Forwarded(Complete(s, cur)) == Complete(s, cur)
    decreases |s|
  {
    if |s| > 0 {
      if s[0] == NEWLINE {
        var k, rest := Kept(cur + [NEWLINE]), Complete(s[1..], []);
        assert Complete(s, cur) == k + rest;
        CompleteIdempotent(s[1..], []);
        if k != [] {
          assert (cur + [NEWLINE])[..|cur|] == cur;
          LineThrough(k, rest);
        } else {
          assert k + rest == rest;
        }
      } else {
        CompleteIdempotent(s[1..], cur + [s[0]]);
      }
    }
  }

  /** Eliding twice is eliding once, and the output ends at a line boundary. */
  lemma ForwardedIdempotent(s: seq<byte>)
    ensures Forwarded(Forwarded(s)) == Forwarded(s)
    ensures Tail(Forwarded(s)) == []
  {
    CompleteIdempotent(s, []);
    CompleteEndsOnLine(s, []);
  }

  class NoEmptyLineWriter {
    /** Bytes the wrapped writer has received. */
    var inner: seq<byte>
    /** Bytes received but not yet forwarded: never a complete line. */
    var buffer: seq<byte>
    /** Everything written since creation or the last flush. */
    ghost var pending: seq<byte>
    /** What the wrapped writer held at creation or at the last flush. */
    ghost var flushed: seq<byte>

    ghost predicate Valid()
      reads this
    {
      && inner == flushed + Forwarded(pending)
      && buffer == Tail(pending)
    }

    /** `NoEmptyLineWriter::new(inner)`: an empty buffer in front of the wrapped writer. */
    constructor (initial: seq<byte>)
      ensures Valid()
      ensures inner == initial && buffer == [] && pending == []
    {
      inner := initial;
      buffer := [];
      pending := [];
      flushed := initial;
    }

    /**
     * `write(buf)`: append, then forward every complete non-blank line;
     * always reports the whole of `buf` as written.
     */
    method Write(buf: seq<byte>) returns (n: nat)
      requires Valid()
      modifies this
      ensures Valid()
      ensures n == |buf|
      ensures inner == old(inner) + Forwarded(old(buffer) + buf)
      ensures buffer == Tail(old(buffer) + buf)
      ensures NEWLINE !in buffer
      ensures pending == old(pending) + buf && flushed == old(flushed)
    {
      ghost var start, before := buffer + buf, inner;
      buffer := buffer + buf;
      while FirstNewline(buffer).Some?
        invariant before + Forwarded(start) == inner + Forwarded(buffer)
        invariant Tail(buffer) == Tail(start)
        invariant pending == old(pending) && flushed == old(flushed)
        decreases |buffer|
      {
        var pos := FirstNewline(buffer).value;
        var line := buffer[..pos + 1];
        DrainOne(buffer, pos);
        buffer := buffer[pos + 1..];
        if !IsBlank(line) {
          inner := inner + line;
        }
      }
      FirstNewlineFinds(buffer);
      NoNewlineExtends(buffer, []);
      assert [] + buffer == buffer;
      n := |buf|;
      ForwardedAppend(pending, buf);
      assert Forwarded(buffer) == [];
      assert inner == before + Forwarded(start);
      assert before == flushed + Forwarded(pending) && start == Tail(pending) + buf;
      assert inner == flushed + (Forwarded(pending) + Forwarded(Tail(pending) + buf));
      pending := pending + buf;
    }

    /** `flush()`: forward the pending tail unless it is blank, and empty the buffer. */
    method Flush()
      requires Valid()
      modifies this
      ensures Valid()
      ensures inner == old(inner) + Kept(old(buffer))
      ensures buffer == [] && pending == [] && flushed == inner
    {
      if buffer != [] {
        if !IsBlank(buffer) {
          inner := inner + buffer;
        }
        buffer := [];
      }
      pending := [];
      flushed := inner;
    }
  }
}
