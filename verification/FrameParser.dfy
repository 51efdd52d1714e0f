/** The newline frame parser of baresip/shim/frame_parser.c. */
module FrameParser {
  type Byte = b: int | 0 <= b < 256

  const NUL: Byte := 0
  const NEWLINE: Byte := 0x0A
  const BUFFER_SIZE: int := 2048

  datatype Verdict = Ok | Proto | MsgSize

  // ------------------------------------------- what a whole stream contains

  /** Where the line holding position i begins. */
  function LineStart(s: seq<Byte>, i: nat): (n: nat)
    requires i <= |s|
    ensures n <= i
    ensures forall k :: n <= k < i ==> s[k] != NEWLINE
    ensures n > 0 ==> s[n - 1] == NEWLINE
  {
    if i == 0 || s[i - 1] == NEWLINE then i else LineStart(s, i - 1)
  }

  /** The byte that makes the parser reject the stream: a NUL, or the byte that
      would make a line longer than the buffer holds beside its terminator. */
  predicate Fatal(s: seq<Byte>, i: nat)
    requires i < |s|
  {
    s[i] == NUL || (s[i] != NEWLINE && i - LineStart(s, i) >= BUFFER_SIZE - 1)
  }

  /** Position of the first fatal byte; the length of the stream if there is none. */
  function Accepted(s: seq<Byte>): (n: nat)
    ensures n <= |s|
    ensures forall i :: 0 <= i < n ==> !Fatal(s, i)
    ensures n < |s| ==> Fatal(s, n)
  {
    AcceptedFrom(s, 0)
  }

  function AcceptedFrom(s: seq<Byte>, i: nat): (n: nat)
    requires i <= |s|
    ensures i <= n <= |s|
    ensures forall k :: i <= k < n ==> !Fatal(s, k)
    ensures n < |s| ==> Fatal(s, n)
    decreases |s| - i
  {
    if i == |s| || Fatal(s, i) then i else AcceptedFrom(s, i + 1)
  }

  /** The non-empty newline-terminated lines of s, cut at the first newline each time. */
  function Lines(s: seq<Byte>): seq<seq<Byte>>
    decreases |s|
  {
    var n := FirstNewline(s);
    if n == |s| then []
    else (if n == 0 then [] else [s[..n]]) + Lines(s[n + 1..])
  }

  function FirstNewline(s: seq<Byte>): (n: nat)
    ensures n <= |s|
    ensures forall k :: 0 <= k < n ==> s[k] != NEWLINE
    ensures n < |s| ==> s[n] == NEWLINE
  {
    if s == [] || s[0] == NEWLINE then 0 else 1 + FirstNewline(s[1..])
  }

  /** Why the stream was rejected, if it was. */
  function Judge(s: seq<Byte>): Verdict {
    var n := Accepted(s);
    if n == |s| then Ok else if s[n] == NUL then Proto else MsgSize
  }

  // Lines, one byte at a time.

  lemma NewlineAt(a: seq<Byte>, b: seq<Byte>)
    requires forall k :: 0 <= k < |a| ==> a[k] != NEWLINE
    requires b != [] ==> b[0] == NEWLINE
    ensures FirstNewline(a + b) == |a|
  {
    var s, f := a + b, FirstNewline(a + b);
    assert b != [] ==> s[|a|] == b[0];
  }

  lemma LinesHead(a: seq<Byte>, b: seq<Byte>)
    requires forall k :: 0 <= k < |a| ==> a[k] != NEWLINE
    ensures Lines(a + [NEWLINE] + b) == (if a == [] then [] else [a]) + Lines(b)
    ensures Lines(a) == []
  {
    NewlineAt(a, [NEWLINE] + b);
    NewlineAt(a, []);
    assert a + [] == a;
    var s := a + [NEWLINE] + b;
    assert s == a + ([NEWLINE] + b) && s[..|a|] == a && s[|a| + 1..] == b;
  }

  /** The part of s after its last newline. */
  function LastLine(s: seq<Byte>): seq<Byte> { s[LineStart(s, |s|)..] }

  lemma {:induction false} LinesPrefix(s: seq<Byte>, c: Byte)
    ensures Lines(s + [c]) == Lines(s) + (if c == NEWLINE && LastLine(s) != [] then [LastLine(s)] else [])
    decreases |s|
  {
    hide Lines, LineStart, FirstNewline;
    var n := FirstNewline(s);
    if n == |s| {
      LineStartOfWhole(s);
      LinesHead(s, []);
      if c != NEWLINE {
        LinesHead(s + [c], []);
      } else {
        LinesHead([], []);
        assert s + [NEWLINE] + [] == s + [c];
      }
    } else {
      var a, b := s[..n], s[n + 1..];
      LinesHead(a, b);
      LinesHead(a, b + [c]);
      assert s == a + [NEWLINE] + b;
      assert s + [c] == a + [NEWLINE] + (b + [c]);
      LinesPrefix(b, c);
      LineStartShifts(s, n + 1, |s|);
      assert LastLine(s) == LastLine(b);
    }
  }

  lemma LineStartOfWhole(s: seq<Byte>)
    requires forall k :: 0 <= k < |s| ==> s[k] != NEWLINE
    ensures LineStart(s, |s|) == 0
  {
  }

  lemma {:induction false} LineStartShifts(s: seq<Byte>, m: nat, i: nat)
    requires 0 < m <= i <= |s| && s[m - 1] == NEWLINE
    ensures LineStart(s, i) == m + LineStart(s[m..], i - m)
    decreases i
  {
    if i > m && s[i - 1] != NEWLINE {
      LineStartShifts(s, m, i - 1);
    }
  }

  lemma {:induction false} LineStartAppend(s: seq<Byte>, t: seq<Byte>, i: nat)
    requires i <= |s|
    ensures LineStart(s + t, i) == LineStart(s, i)
  {
    if i > 0 && s[i - 1] != NEWLINE {
      LineStartAppend(s, t, i - 1);
    }
  }

  lemma LineStartSnoc(s: seq<Byte>, c: Byte)
    ensures LineStart(s + [c], |s| + 1) == if c == NEWLINE then |s| + 1 else LineStart(s, |s|)
  {
    LineStartAppend(s, [c], |s|);
  }

  lemma FatalAppend(s: seq<Byte>, t: seq<Byte>, i: nat)
    requires i < |s|
    ensures Fatal(s + t, i) <==> Fatal(s, i)
  {
    LineStartAppend(s, t, i);
  }

  /** More input cannot change a verdict already reached. */
  lemma RejectionIsFinal(s: seq<Byte>, t: seq<Byte>)
    requires Accepted(s) < |s|
    ensures Accepted(s + t) == Accepted(s) && Judge(s + t) == Judge(s)
  {
    var n, m := Accepted(s), Accepted(s + t);
    FatalAppend(s, t, n);
    if m < n {
      FatalAppend(s, t, m);
    }
  }

  lemma AcceptedIs(s: seq<Byte>, n: nat)
    requires n <= |s| && (forall i :: 0 <= i < n ==> !Fatal(s, i)) && (n < |s| ==> Fatal(s, n))
    ensures Accepted(s) == n
  {
  }

  // ------------------------------------------------------------- the parser

  class Parser {
    const buffer: array<Byte>
    var buffered: nat
    /** What the handler has been called with, in order. */
    var handled: seq<seq<Byte>>
    /** Every byte fed so far. */
    ghost var stream: seq<Byte>

    /** The state of a parser that has rejected nothing. */
    ghost predicate Valid()
      reads this, buffer
    {
      && buffer.Length == BUFFER_SIZE && buffered < BUFFER_SIZE
      && Accepted(stream) == |stream|
      && handled == Lines(stream)
      && buffered <= |stream| && LineStart(stream, |stream|) == |stream| - buffered
      && buffer[..buffered] == stream[|stream| - buffered..]
    }

    constructor ()
      ensures Valid() && fresh(buffer) && stream == [] && handled == []
    {
      buffer := new Byte[BUFFER_SIZE](_ => 0);
      buffered, handled, stream := 0, [], [];
    }

    /** One socket chunk. The handler has then seen exactly the lines of the whole
        stream up to the byte that rejects it, and the error is that byte's. */
    method Feed(data: seq<Byte>) returns (verdict: Verdict)
      requires Valid()
      modifies this, buffer
      ensures stream == old(stream) + data
      ensures verdict == Judge(stream)
      ensures handled == Lines(stream[..Accepted(stream)])
      ensures verdict == Ok ==> Valid()
      ensures verdict != Ok ==> buffered == 0
    {
      hide Lines, LineStart, Accepted, Judge, Breaks;
      ghost var before := stream;
      var i := 0;
      assert before + data[..0] == before;
      while i < |data|
        invariant i <= |data| && stream == before + data[..i] && Valid()
      {
        ghost var s := stream;
        verdict := FeedByte(data[i]);
        assert s + [data[i]] == before + data[..i + 1];
        if verdict != Ok {
          Rejects(s, data[i], data[i + 1..]);
          assert s + [data[i]] + data[i + 1..] == before + data;
          stream := before + data;
          return;
        }
        i := i + 1;
      }
      assert data[..|data|] == data;
      NothingRejected(stream);
      return Ok;
    }

    /** One turn of the byte loop. */
    method FeedByte(c: Byte) returns (verdict: Verdict)
      requires Valid()
      modifies this, buffer
      ensures stream == old(stream) + [c]
      ensures verdict == if Breaks(old(stream), c) then (if c == NUL then Proto else MsgSize) else Ok
      ensures verdict == Ok ==> Valid()
      ensures verdict != Ok ==> buffered == 0 && handled == old(handled)
    {
      hide Lines, LineStart, Accepted;
      ghost var s := stream;
      stream := stream + [c];
      LineStartSnoc(s, c);
      LinesPrefix(s, c);
      if c == NUL {
        buffered := 0;
        buffer[0] := NUL;
        return Proto;
      }
      if c == NEWLINE {
        Continues(s, c);
        if buffered > 0 {
          handled := handled + [buffer[..buffered]];
          buffer[buffered] := NUL;
          buffered := 0;
        }
        return Ok;
      }
      if buffered + 1 >= BUFFER_SIZE {
        buffered := 0;
        buffer[0] := NUL;
        return MsgSize;
      }
      Continues(s, c);
      buffer[buffered] := c;
      buffered := buffered + 1;
      return Ok;
    }
  }

  /** A byte that rejects the stream s so far. */
  predicate Breaks(s: seq<Byte>, c: Byte) {
    c == NUL || (c != NEWLINE && |s| - LineStart(s, |s|) >= BUFFER_SIZE - 1)
  }

  lemma NothingRejected(s: seq<Byte>)
    requires Accepted(s) == |s|
    ensures Judge(s) == Ok && s[..Accepted(s)] == s
  {
  }

  lemma Continues(s: seq<Byte>, c: Byte)
    requires Accepted(s) == |s| && !Breaks(s, c)
    ensures Accepted(s + [c]) == |s| + 1
  {
    forall k | 0 <= k < |s| ensures !Fatal(s + [c], k) {
      FatalAppend(s, [c], k);
    }
    LineStartAppend(s, [c], |s|);
  }

  lemma Rejects(s: seq<Byte>, c: Byte, more: seq<Byte>)
    requires Accepted(s) == |s|
    requires Breaks(s, c)
    ensures Accepted(s + [c] + more) == |s| && (s + [c] + more)[..|s|] == s
    ensures Judge(s + [c] + more) == if c == NUL then Proto else MsgSize
  {
    var t := [c] + more;
    assert s + [c] + more == s + t;
    forall k | 0 <= k < |s| ensures !Fatal(s + t, k) {
      FatalAppend(s, t, k);
    }
    LineStartAppend(s, t, |s|);
    AcceptedIs(s + t, |s|);
  }

  /** Which byte is the first to be rejected, and why: a NUL as a protocol error, and, where
      2047 bytes have come without a newline, one more that is none as too long. Every other
      byte is accepted; nothing behind the rejected one matters. */
  lemma RejectedExactly(s: seq<Byte>, c: Byte, more: seq<Byte>)
    requires Judge(s) == Ok
    ensures c == 0 ==> Judge(s + [c] + more) == Proto && Accepted(s + [c] + more) == |s|
    ensures c != 0 && c != 0x0A && |LastLine(s)| >= 2047 ==>
      Judge(s + [c] + more) == MsgSize && Accepted(s + [c] + more) == |s|
    ensures c != 0 && (c == 0x0A || |LastLine(s)| < 2047) ==> Judge(s + [c]) == Ok
  {
    hide LineStart;
    if Breaks(s, c) {
      Rejects(s, c, more);
    } else {
      Continues(s, c);
    }
  }

  /** Concatenation of a cutting of the stream. */
  function Joined(chunks: seq<seq<Byte>>): seq<Byte> {
    if chunks == [] then [] else chunks[0] + Joined(chunks[1..])
  }

  lemma JoinedStep(s: seq<Byte>, chunks: seq<seq<Byte>>, k: nat)
    requires k < |chunks|
    ensures s + Joined(chunks[k..]) == (s + chunks[k]) + Joined(chunks[k + 1..])
  {
    assert chunks[k..][1..] == chunks[k + 1..];
  }

  /** The socket loop over any cutting of a stream: it stops at the first error and
      has handled the same frames, with the same error, as for the uncut stream. */
  method FeedAll(chunks: seq<seq<Byte>>) returns (frames: seq<seq<Byte>>, verdict: Verdict)
    ensures frames == Lines(Joined(chunks)[..Accepted(Joined(chunks))])
    ensures verdict == Judge(Joined(chunks))
  {
    hide Lines, LineStart, Fatal, AcceptedFrom;
    var p := new Parser();
    verdict := Ok;
    var k := 0;
    assert chunks[0..] == chunks;
    while k < |chunks|
      invariant k <= |chunks| && fresh(p) && fresh(p.buffer) && p.Valid()
      invariant p.stream + Joined(chunks[k..]) == Joined(chunks) && verdict == Ok
    {
      ghost var s := p.stream;
      verdict := p.Feed(chunks[k]);
      JoinedStep(s, chunks, k);
      if verdict != Ok {
        RejectionIsFinal(p.stream, Joined(chunks[k + 1..]));
        frames := p.handled;
        var n := Accepted(p.stream);
        assert Joined(chunks)[..n] == p.stream[..n];
        return;
      }
      k := k + 1;
    }
    frames := p.handled;
    assert p.stream + [] == p.stream && p.stream[..|p.stream|] == p.stream;
  }
}
