/** The splitter that turns chunks of bytes into lines
    (internal/0/tapblock/linewriter.go). */
module LineWriting {
  type byte = b: int | 0 <= b < 256
  type bytes = seq<byte>

  const NEWLINE: byte := 10

  /** The newline-terminated lines of a stream, without their newlines. */
  function Complete(s: bytes): seq<bytes> {
    if s == [] then []
    else if s[0] == NEWLINE then [[]] + Complete(s[1..])
    else if Complete(s[1..]) == [] then []
    else
      var later := Complete(s[1..]);
      [[s[0]] + later[0]] + later[1..]
  }

  /** What follows the last newline. */
  function Unterminated(s: bytes): (rest: bytes)
    ensures NEWLINE !in rest && |rest| <= |s|
  {
    if NEWLINE !in s then s else Unterminated(s[1..])
  }

  function Terminated(lines: seq<bytes>): bytes {
    if lines == [] then [] else lines[0] + [NEWLINE] + Terminated(lines[1..])
  }

  ghost predicate NoNewlines(lines: seq<bytes>) {
    forall line | line in lines :: NEWLINE !in line
  }

  lemma {:induction false} NoneComplete(s: bytes)
    requires NEWLINE !in s
    ensures Complete(s) == [] && Unterminated(s) == s
  {
    if s != [] { NoneComplete(s[1..]); }
  }

  /** One line, and what is behind it. */
  lemma {:induction false} FirstLine(line: bytes, rest: bytes)
    requires NEWLINE !in line
    ensures Complete(line + [NEWLINE] + rest) == [line] + Complete(rest)
    ensures Unterminated(line + [NEWLINE] + rest) == Unterminated(rest)
  {
    var s := line + [NEWLINE] + rest;
    assert s[|line|] == NEWLINE;
    if line == [] {
      assert s[1..] == rest;
    } else {
      assert s[1..] == line[1..] + [NEWLINE] + rest;
      FirstLine(line[1..], rest);
      assert [line[0]] + line[1..] == line;
    }
  }

  /** The lines and the rest are the stream, and the only way to cut it so. */
  lemma {:induction false} CutsTheStream(s: bytes)
    ensures Terminated(Complete(s)) + Unterminated(s) == s
    ensures (forall line | line in Complete(s) :: 10 !in line) && 10 !in Unterminated(s)
    decreases |s|
  {
    if NEWLINE !in s {
      NoneComplete(s);
    } else {
      var i := FirstNewline(s);
      var rest := s[i + 1..];
      assert s == s[..i] + [NEWLINE] + rest;
      FirstLine(s[..i], rest);
      CutsTheStream(rest);
      var lines := Complete(s);
      assert lines[1..] == Complete(rest);
      assert lines[0] + [NEWLINE] + Terminated(lines[1..]) + Unterminated(rest) == s[..i] + [NEWLINE] + rest;
    }
  }

  lemma {:induction false} CutIsOne(s: bytes, lines: seq<bytes>, rest: bytes)
    requires s == Terminated(lines) + rest && NoNewlines(lines) && NEWLINE !in rest
    ensures lines == Complete(s) && rest == Unterminated(s)
    decreases |lines|
  {
    if lines == [] {
      assert s == rest;
      NoneComplete(s);
    } else {
      var more := Terminated(lines[1..]) + rest;
      assert s == lines[0] + [NEWLINE] + more;
      assert NoNewlines(lines[1..]);
      FirstLine(lines[0], more);
      CutIsOne(more, lines[1..], rest);
    }
  }

  function FirstNewline(s: bytes): (i: nat)
    requires NEWLINE in s
    ensures i < |s| && s[i] == NEWLINE && NEWLINE !in s[..i]
  {
    if s[0] == NEWLINE then 0
    else
      var i := FirstNewline(s[1..]);
      assert s[..i + 1] == [s[0]] + s[1..][..i];
      i + 1
  }

  lemma {:induction false} TerminatedAppend(a: seq<bytes>, b: seq<bytes>)
    ensures Terminated(a + b) == Terminated(a) + Terminated(b)
  {
    if a == [] {
      assert a + b == b;
    } else {
      assert (a + b)[1..] == a[1..] + b;
      TerminatedAppend(a[1..], b);
    }
  }

  /** Splitting what was left together with the next chunk is splitting the whole. */
  lemma CutAgain(s: bytes, chunk: bytes)
    ensures Complete(s + chunk) == Complete(s) + Complete(Unterminated(s) + chunk)
    ensures Unterminated(s + chunk) == Unterminated(Unterminated(s) + chunk)
  {
    hide Complete, Terminated, Unterminated;
    var left := Unterminated(s) + chunk;
    CutsTheStream(s);
    CutsTheStream(left);
    TerminatedAppend(Complete(s), Complete(left));
    var a, b, end := Terminated(Complete(s)), Terminated(Complete(left)), Unterminated(left);
    assert (a + b) + end == a + (b + end) == a + (Unterminated(s) + chunk) == (a + Unterminated(s)) + chunk;
    CutIsOne(s + chunk, Complete(s) + Complete(left), end);
  }

  /** A writer's buffer, and the lines its block was given. */
  datatype Writer = Writer(lines: seq<bytes>, buf: bytes)

  function Wrote(w: Writer, p: bytes): Writer {
    Writer(w.lines + Complete(w.buf + p), Unterminated(w.buf + p))
  }

  function Flushed(w: Writer): Writer {
    if w.buf == [] then w else Writer(w.lines + [w.buf], [])
  }

  class LineWriter {
    var lines: seq<bytes>
    var buf: bytes

    constructor ()
      ensures Value() == Writer([], [])
    {
      lines, buf := [], [];
    }

    function Value(): Writer
      reads this
    {
      Writer(lines, buf)
    }

    method Write(p: bytes) returns (n: nat)
      modifies this
      ensures Value() == Wrote(old(Value()), p) && n == |p|
    {
      hide Complete, Unterminated;
      buf := buf + p;
      while NEWLINE in buf
        invariant lines + Complete(buf) == old(lines) + Complete(old(buf) + p)
        invariant Unterminated(buf) == Unterminated(old(buf) + p)
        decreases |buf|
      {
        var i := FirstNewline(buf);
        FirstLine(buf[..i], buf[i + 1..]);
        assert buf == buf[..i] + [NEWLINE] + buf[i + 1..];
        assert lines + ([buf[..i]] + Complete(buf[i + 1..])) == lines + [buf[..i]] + Complete(buf[i + 1..]);
        lines := lines + [buf[..i]];
        buf := buf[i + 1..];
      }
      NoneComplete(buf);
      assert lines + [] == lines;
      n := |p|;
    }

    method Flush()
      modifies this
      ensures Value() == Flushed(old(Value()))
    {
      if |buf| == 0 { return; }
      lines := lines + [buf];
      buf := [];
    }
  }

  function Chunks(chunks: seq<bytes>): bytes {
    if chunks == [] then [] else Chunks(chunks[..|chunks| - 1]) + chunks[|chunks| - 1]
  }

  function WroteAll(w: Writer, chunks: seq<bytes>): Writer {
    if chunks == [] then w else Wrote(WroteAll(w, chunks[..|chunks| - 1]), chunks[|chunks| - 1])
  }

  /** Two writes are one. */
  lemma WroteTwice(w: Writer, p: bytes, q: bytes)
    ensures Wrote(Wrote(w, p), q) == Wrote(w, p + q)
  {
    hide Complete, Unterminated;
    CutAgain(w.buf + p, q);
    assert w.buf + p + q == w.buf + (p + q);
    assert w.lines + Complete(w.buf + p) + Complete(Unterminated(w.buf + p) + q)
      == w.lines + (Complete(w.buf + p) + Complete(Unterminated(w.buf + p) + q));
  }

  lemma WroteNothing(w: Writer)
    requires NEWLINE !in w.buf
    ensures Wrote(w, []) == w
  {
    NoneComplete(w.buf);
    hide Complete, Unterminated;
    assert w.buf + [] == w.buf && w.lines + [] == w.lines;
  }

  /** However a stream is cut into writes, the same lines go out in order and the
      same unterminated end is left as when it is written at once. */
  lemma {:induction false} ChunkingInvariant(w: Writer, chunks: seq<bytes>)
    requires NEWLINE !in w.buf
    ensures WroteAll(w, chunks) == Wrote(w, Chunks(chunks))
  {
    hide Wrote;
    if chunks == [] {
      WroteNothing(w);
    } else {
      var n := |chunks| - 1;
      ChunkingInvariant(w, chunks[..n]);
      WroteTwice(w, Chunks(chunks[..n]), chunks[n]);
    }
  }

  /** Writes and a flush send every byte once, newlines apart, and a second flush
      sends nothing. */
  lemma FlushSendsTheEnd(chunks: seq<bytes>)
    ensures var all := Chunks(chunks); var w := Flushed(WroteAll(Writer([], []), chunks));
      && w.lines == Complete(all) + (if Unterminated(all) == [] then [] else [Unterminated(all)])
      && Terminated(Complete(all)) + Unterminated(all) == all && Flushed(w) == w
  {
    var all := Chunks(chunks);
    ChunkingInvariant(Writer([], []), chunks);
    CutsTheStream(all);
    hide Complete, Unterminated, Terminated, WroteAll, Chunks;
    assert [] + all == all && [] + Complete(all) == Complete(all);
    assert Complete(all) + [] == Complete(all);
  }
}
