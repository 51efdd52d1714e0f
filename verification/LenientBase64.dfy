/** The lenient attachment reader and the line-ending repair of
    internal/mailparse/lenient.go. */
module LenientBase64 {
  import opened Base64
  import opened Wrappers

  const PAD: int := '=' as int

  /** How a read of the underlying stream can end. */
  datatype End = More | Eof | Failed

  /** One result of src.Read: some bytes, perhaps with an end or an error. */
  datatype Chunk = Chunk(data: seq<Byte>, end: End)

  // ------------------------------------------------------ what a stream means

  /** The sextet of a byte, with the URL-safe letters mapped; None for garbage. */
  function LetterValue(b: Byte): Option<Sextet> {
    if 'A' as int <= b <= 'Z' as int then Some(b - 'A' as int)
    else if 'a' as int <= b <= 'z' as int then Some(b - 'a' as int + 26)
    else if '0' as int <= b <= '9' as int then Some(b - '0' as int + 52)
    else if b == '+' as int || b == '-' as int then Some(62)
    else if b == '/' as int || b == '_' as int then Some(63)
    else None
  }

  /** The letters of a text, garbage dropped, in order. */
  function Sextets(s: seq<Byte>): seq<Sextet> {
    if s == [] then []
    else if LetterValue(s[0]).Some? then [LetterValue(s[0]).value] + Sextets(s[1..])
    else Sextets(s[1..])
  }

  /** Everything before the first padding character. */
  function BeforePad(s: seq<Byte>): (t: seq<Byte>)
    ensures t <= s && PAD !in t
    ensures PAD !in s ==> t == s
  {
    if s == [] || s[0] == PAD then [] else [s[0]] + BeforePad(s[1..])
  }

  /** What the reader is for: the bytes carried by the letters before the padding. */
  function Meaning(s: seq<Byte>): seq<Byte> {
    Decode(Sextets(BeforePad(s)))
  }

  lemma {:induction false} SextetsConcat(a: seq<Byte>, b: seq<Byte>)
    ensures Sextets(a + b) == Sextets(a) + Sextets(b)
  {
    if a == [] {
      assert a + b == b;
    } else {
      assert (a + b)[1..] == a[1..] + b;
      SextetsConcat(a[1..], b);
    }
  }

  lemma {:induction false} BeforePadConcat(a: seq<Byte>, b: seq<Byte>)
    ensures BeforePad(a + b) == if PAD in a then BeforePad(a) else a + BeforePad(b)
  {
    if a == [] {
      assert a + b == b;
    } else {
      assert (a + b)[1..] == a[1..] + b;
      BeforePadConcat(a[1..], b);
    }
  }

  // --------------------------------------------------- the scripted source

  /** The bytes of a script, up to its end of stream. */
  function Flatten(script: seq<Chunk>): seq<Byte> {
    if script == [] then []
    else if script[0].end.More? then script[0].data + Flatten(script[1..])
    else script[0].data
  }

  /** No read fails before the stream ends. */
  predicate Clean(script: seq<Chunk>) {
    script != [] ==> !script[0].end.Failed? && (script[0].end.More? ==> Clean(script[1..]))
  }

  /** What a reader holding `carry` still gets out of a script: all of it when the
      stream ends or is padded, only whole quads when a read fails first. */
  function Future(carry: seq<Sextet>, script: seq<Chunk>): seq<Byte>
    decreases |script|
  {
    if script == [] then Decode(carry)
    else
      var all := carry + Sextets(BeforePad(script[0].data));
      if PAD in script[0].data || script[0].end.Eof? then Decode(all)
      else if script[0].end.Failed? then Decode(all[..|all| - |all| % 4])
      else Future(all, script[1..])
  }

  /** However the stream is cut into reads, the reader yields the same bytes. */
  lemma {:induction false} CuttingIsIrrelevant(carry: seq<Sextet>, script: seq<Chunk>)
    requires Clean(script)
    ensures Future(carry, script) == Decode(carry + Sextets(BeforePad(Flatten(script))))
    decreases |script|
  {
    hide Decode, Sextets, BeforePad;
    if script == [] {
      SextetsEmpty([], carry);
    } else if script[0].end.More? {
      var d, rest := script[0].data, Flatten(script[1..]);
      BeforePadConcat(d, rest);
      if PAD !in d {
        CuttingIsIrrelevant(carry + Sextets(d), script[1..]);
        SextetsConcat(d, BeforePad(rest));
        Assoc(carry, Sextets(d), Sextets(BeforePad(rest)));
      }
    }
  }

  lemma Assoc<T>(a: seq<T>, b: seq<T>, c: seq<T>)
    ensures a + (b + c) == (a + b) + c
  {
  }

  /** A stream read without failures yields exactly its meaning. */
  lemma StreamYieldsMeaning(script: seq<Chunk>)
    requires Clean(script)
    ensures Future([], script) == Meaning(Flatten(script))
  {
    CuttingIsIrrelevant([], script);
    assert [] + Sextets(BeforePad(Flatten(script))) == Sextets(BeforePad(Flatten(script)));
  }

  /** The bytes of reads that all went well. */
  function DataOf(chunks: seq<Chunk>): seq<Byte> {
    if chunks == [] then [] else chunks[0].data + DataOf(chunks[1..])
  }

  function WholeQuads(cs: seq<Sextet>): seq<Sextet> { cs[..|cs| - |cs| % 4] }

  /** When a read fails before any padding has come, the caller still gets what the whole
      quads up to there carry, and nothing of the letters behind them. */
  lemma {:induction false} FailureKeepsWholeQuads(carry: seq<Sextet>, chunks: seq<Chunk>, last: Chunk,
                                                  later: seq<Chunk>)
    requires forall k :: 0 <= k < |chunks| ==> chunks[k].end.More?
    requires last.end.Failed? && PAD !in DataOf(chunks) && PAD !in last.data
    ensures Future(carry, chunks + [last] + later) == Decode(WholeQuads(carry + Sextets(DataOf(chunks) + last.data)))
    decreases |chunks|
  {
    hide Decode, Sextets, BeforePad;
    var script := chunks + [last] + later;
    if chunks == [] {
      assert DataOf(chunks) + last.data == last.data;
    } else {
      var d, rest := chunks[0].data, DataOf(chunks[1..]);
      assert script[0] == chunks[0] && script[1..] == chunks[1..] + [last] + later;
      FailureKeepsWholeQuads(carry + Sextets(d), chunks[1..], last, later);
      SextetsConcat(d, rest + last.data);
      assert DataOf(chunks) + last.data == d + (rest + last.data);
      Assoc(carry, Sextets(d), Sextets(rest + last.data));
    }
  }

  /** The decoded bytes are the letters' bits regrouped, a short tail of bits dropped. */
  lemma MeaningRegroupsBits(s: seq<Byte>)
    ensures 0 <= |SextetBits(Sextets(BeforePad(s)))| - 8 * |Meaning(s)| < 8
    ensures ByteBits(Meaning(s)) == SextetBits(Sextets(BeforePad(s)))[..8 * |Meaning(s)|]
  {
    DecodeRegroupsBits(Sextets(BeforePad(s)));
  }

  /** On what an encoder writes, padded or not, the reader agrees with RFC 4648. */
  lemma {:induction false} MeaningOfEncoded(bs: seq<Byte>, text: seq<Byte>, tail: seq<Byte>)
    requires PAD !in text && Sextets(text) == Encode(bs)
    requires tail != [] ==> tail[0] == PAD
    ensures Meaning(text + tail) == bs
  {
    BeforePadConcat(text, tail);
    assert text + [] == text;
    DecodeEncode(bs);
  }

  /** The standard letters are read for what they stand for. */
  lemma {:induction false} StandardLettersAreRead(cs: seq<Sextet>)
    ensures Sextets(StdText(cs)) == cs && PAD !in StdText(cs)
  {
    if cs != [] {
      StandardLettersAreRead(cs[1..]);
      OneLetterIsRead(cs[0]);
      hide StdLetter, LetterValue;
      assert StdText(cs) == [StdLetter(cs[0])] + StdText(cs[1..]);
    }
  }

  lemma OneLetterIsRead(c: Sextet)
    ensures LetterValue(StdLetter(c)) == Some(c) && StdLetter(c) != PAD
  {
  }

  /** The 64 standard letters and the two URL-safe ones. */
  ghost predicate IsLetter(b: Byte) { b == '-' as int || b == '_' as int || exists c: Sextet :: b == StdLetter(c) }

  /** No other byte is a letter: line breaks, blanks and everything else are garbage. */
  lemma LettersExactly(b: Byte)
    ensures LetterValue(b).Some? <==> IsLetter(b)
    ensures LetterValue('-' as int) == Some(62) && LetterValue('_' as int) == Some(63)
    ensures forall c: Sextet :: LetterValue(StdLetter(c)) == Some(c)
  {
    forall c: Sextet ensures LetterValue(StdLetter(c)) == Some(c) {
      OneLetterIsRead(c);
    }
    if LetterValue(b).Some? && b != '-' as int && b != '_' as int {
      assert b == StdLetter(LetterValue(b).value);
    }
  }

  /** The text with what is neither a letter nor padding taken out. */
  ghost function Stripped(s: seq<Byte>): seq<Byte> {
    if s == [] then [] else (if IsLetter(s[0]) || s[0] == PAD then [s[0]] else []) + Stripped(s[1..])
  }

  lemma {:induction false} GarbageIsNotRead(s: seq<Byte>)
    ensures Sextets(BeforePad(Stripped(s))) == Sextets(BeforePad(s))
  {
    hide LetterValue, IsLetter;
    if s != [] {
      GarbageIsNotRead(s[1..]);
      LettersExactly(s[0]);
      assert Stripped(s) == (if IsLetter(s[0]) || s[0] == PAD then [s[0]] else []) + Stripped(s[1..]);
      if IsLetter(s[0]) || s[0] == PAD {
        assert Stripped(s)[0] == s[0] && Stripped(s)[1..] == Stripped(s[1..]);
      } else {
        assert Stripped(s) == Stripped(s[1..]);
      }
    }
  }

  /** Wrapped, indented or damaged by foreign bytes anywhere, and padded or not, a standard
      encoding still yields the bytes that were encoded. */
  lemma WrappedEncodingIsRead(bs: seq<Byte>, tail: seq<Byte>, wrapped: seq<Byte>)
    requires tail != [] ==> tail[0] == PAD
    requires Stripped(wrapped) == StdText(Encode(bs)) + tail
    ensures Meaning(wrapped) == bs
  {
    GarbageIsNotRead(wrapped);
    StandardEncodingIsRead(bs, tail);
  }

  /** So a standard encoding, padded or not, yields the bytes that were encoded. */
  lemma StandardEncodingIsRead(bs: seq<Byte>, tail: seq<Byte>)
    requires tail != [] ==> tail[0] == PAD
    ensures Meaning(StdText(Encode(bs)) + tail) == bs
  {
    StandardLettersAreRead(Encode(bs));
    MeaningOfEncoded(bs, StdText(Encode(bs)), tail);
  }

  // ------------------------------------------------------------- the reader

  /** The error of a Read: none, end of stream, or a failed read passed on. */
  datatype ReadError = NoError | EndOfFile | SourceError

  class Reader {
    const script: seq<Chunk>
    var pos: nat
    var carry: seq<Sextet>
    var out: seq<Byte>
    var eof: bool
    var failed: bool

    ghost predicate Valid()
      reads this
    {
      pos <= |script| && |carry| < 4
    }

    /** No read of the source has failed and none will. */
    ghost predicate Healthy()
      reads this
      requires Valid()
    {
      !failed && (eof || Clean(script[pos..]))
    }

    /** Every byte the reader will still deliver. */
    ghost function Remaining(): seq<Byte>
      reads this
      requires Valid()
    {
      if eof || failed then out else out + Future(carry, script[pos..])
    }

    constructor (script: seq<Chunk>)
      ensures Valid() && this.script == script && pos == 0 && !eof && !failed
      ensures Remaining() == Future([], script)
    {
      this.script := script;
      pos, carry, out, eof, failed := 0, [], [], false, false;
      new;
      assert script[0..] == script && [] + Future([], script) == Future([], script);
    }

    /** Read(p) with a buffer of `size` bytes. */
    method Read(size: nat) returns (p: seq<Byte>, err: ReadError)
      requires Valid()
      modifies this
      ensures Valid()
      ensures p + Remaining() == old(Remaining()) && |p| <= size
      ensures err != NoError ==> p == []
      ensures err == EndOfFile ==> Remaining() == []
      ensures err == SourceError ==> failed
      ensures err == NoError && size > 0 ==> p != []
      ensures old(Healthy()) ==> Healthy() && err != SourceError
      ensures old(failed) ==> failed
    {
      hide Future, Clean;
      while out == []
        invariant Valid() && Remaining() == old(Remaining())
        invariant old(Healthy()) ==> Healthy()
        invariant old(failed) ==> failed
        decreases |script| - pos, !eof
      {
        if failed {
          return [], SourceError;
        }
        if eof {
          return [], EndOfFile;
        }
        var ok := Fill();
        if !ok {
          failed := true;
          return [], SourceError;
        }
      }
      var n := if size < |out| then size else |out|;
      p, err := out[..n], NoError;
      out := out[n..];
    }

    /** fill: one read of the source. False when that read fails, in which case
        nothing beyond what is already decoded will follow. */
    method Fill() returns (ok: bool)
      requires Valid() && !eof && !failed
      modifies this
      ensures Valid() && !failed
      ensures ok ==> Remaining() == old(Remaining())
      ensures !ok ==> out == old(Remaining()) && !eof
      ensures ok && !eof ==> pos > old(pos)
      ensures pos >= old(pos)
      ensures Clean(script[old(pos)..]) ==> ok && (eof || Clean(script[pos..]))
    {
      hide Decode, Sextets, BeforePad;
      ghost var before, todo := carry, script[pos..];
      // A source with nothing more to say reports the end of the stream.
      var chunk := Chunk([], Eof);
      if pos < |script| {
        assert todo[1..] == script[pos + 1..];
        chunk, pos := script[pos], pos + 1;
      }
      var padded := Scan(chunk.data);
      if padded {
        FlushFinal();
        eof := true;
        return true;
      }
      ghost var later := match chunk.end case Eof => [] case Failed => [Chunk([], Failed)] case More => script[pos..];
      FutureOfChunk(before, chunk, todo, later);
      DecodeQuads(later);
      match chunk.end {
        case Eof =>
          FlushFinal();
          eof := true;
          return true;
        case Failed =>
          FutureOfFailure(carry, later);
          return false;
        case More =>
          return true;
      }
    }

    /** The byte loop: letters join the carry until the padding, if there is any. */
    method Scan(data: seq<Byte>) returns (padded: bool)
      modifies this`carry
      ensures padded <==> PAD in data
      ensures carry == old(carry) + Sextets(BeforePad(data))
    {
      hide Sextets, BeforePad;
      SextetsEmpty(data, carry);
      var i := 0;
      while i < |data|
        invariant i <= |data| && PAD !in data[..i]
        invariant carry == old(carry) + Sextets(data[..i])
      {
        var b := data[i];
        SextetsStep(data, i);
        if b == PAD {
          BeforePadAt(data, i);
          return true;
        }
        var letter := LetterValue(b);
        if letter.Some? {
          carry := carry + [letter.value];
        }
        i := i + 1;
      }
      assert data[..|data|] == data;
      return false;
    }

    /** The quads of the carry are decoded; what a later script would add is unchanged. */
    method DecodeQuads(ghost later: seq<Chunk>)
      modifies this`carry, this`out
      ensures |carry| < 4
      ensures out + Future(carry, later) == old(out) + Future(old(carry), later)
    {
      hide Future, Decode;
      while |carry| >= 4
        invariant out + Future(carry, later) == old(out) + Future(old(carry), later)
      {
        FutureOfQuad(carry, later);
        Assoc(out, Decode(carry[..4]), Future(carry[4..], later));
        DecodeFirstQuad();
      }
    }

    method DecodeFirstQuad()
      requires |carry| >= 4
      modifies this`carry, this`out
      ensures carry == old(carry)[4..] && out == old(out) + Decode(old(carry)[..4])
    {
      out := out + Decode(carry[..4]);
      carry := carry[4..];
    }

    /** flushFinal: whole quads, then the last two or three letters as if padded. */
    method FlushFinal()
      modifies this`carry, this`out
      ensures carry == [] && out == old(out) + Decode(old(carry))
    {
      hide B0, B1, B2;
      FutureOfNothing(carry);
      DecodeQuads([]);
      FutureOfNothing(carry);
      if |carry| >= 2 {
        out := out + Decode(carry);
      }
      carry := [];
    }
  }

  lemma FutureOfNothing(carry: seq<Sextet>)
    ensures Future(carry, []) == Decode(carry)
    ensures |carry| < 2 ==> Decode(carry) == []
  {
    hide B0, B1, B2;
  }

  lemma BeforePadAt(s: seq<Byte>, i: nat)
    requires i < |s| && s[i] == PAD && PAD !in s[..i]
    ensures BeforePad(s) == s[..i]
  {
    BeforePadConcat(s[..i], s[i..]);
    assert s == s[..i] + s[i..];
    assert s[..i] + [] == s[..i];
  }

  /** Draining a reader through buffers of any sizes: what arrives is always a
      prefix of the stream's meaning, all of it at the end of file, and the end is
      reached once there were more non-empty buffers than bytes to deliver. */
  method ReadThrough(script: seq<Chunk>, sizes: seq<nat>) returns (all: seq<Byte>, ended: bool)
    requires Clean(script)
    ensures all <= Meaning(Flatten(script))
    ensures ended ==> all == Meaning(Flatten(script))
    ensures (forall k :: 0 <= k < |sizes| ==> sizes[k] > 0) && |sizes| > |Meaning(Flatten(script))| ==> ended
  {
    hide Meaning;
    StreamYieldsMeaning(script);
    var r := new Reader(script);
    all, ended := [], false;
    assert script[0..] == script;
    for k := 0 to |sizes|
      invariant fresh(r) && r.Valid() && r.Healthy()
      invariant all + r.Remaining() == Meaning(Flatten(script))
      invariant !ended && ((forall j :: 0 <= j < k ==> sizes[j] > 0) ==> |all| >= k)
    {
      ghost var had, left := all, r.Remaining();
      var p, err := r.Read(sizes[k]);
      all := all + p;
      Assoc(had, p, r.Remaining());
      if err == EndOfFile {
        ended := true;
        return;
      }
    }
  }

  lemma DecodeInTwo(cs: seq<Sextet>)
    requires |cs| >= 4
    ensures Decode(cs) == Decode(cs[..4]) + Decode(cs[4..])
  {
    assert cs == cs[..4] + cs[4..];
    DecodeConcat(cs[..4], cs[4..]);
  }

  lemma SextetsEmpty(s: seq<Byte>, cs: seq<Sextet>)
    ensures cs + Sextets(s[..0]) == cs && cs + Sextets(BeforePad([])) == cs
  {
  }

  lemma SextetsStep(s: seq<Byte>, i: nat)
    requires i < |s|
    ensures Sextets(s[..i + 1]) == Sextets(s[..i]) + (if LetterValue(s[i]).Some? then [LetterValue(s[i]).value] else [])
    ensures s[..i + 1] == s[..i] + [s[i]]
  {
    SextetsConcat(s[..i], [s[i]]);
    assert s[..i + 1] == s[..i] + [s[i]];
  }

  /** Reading one chunk in full moves its letters from the script to the carry. */
  lemma FutureOfChunk(carry: seq<Sextet>, chunk: Chunk, script: seq<Chunk>, later: seq<Chunk>)
    requires chunk == if script == [] then Chunk([], Eof) else script[0]
    requires PAD !in chunk.data
    requires later == match chunk.end case Eof => [] case Failed => [Chunk([], Failed)] case More => script[1..]
    ensures Future(carry, script) == Future(carry + Sextets(chunk.data), later)
  {
    hide Decode, Sextets, BeforePad;
    SextetsEmpty([], carry + Sextets(chunk.data));
    SextetsEmpty([], carry);
    assert PAD !in chunk.data ==> BeforePad(chunk.data) == chunk.data;
    var all := carry + Sextets(chunk.data);
    assert script == [] ==> all == carry;
  }

  /** A whole quad at the front of the carry can be decoded at once. */
  lemma {:induction false} FutureOfQuad(carry: seq<Sextet>, script: seq<Chunk>)
    requires |carry| >= 4
    ensures Future(carry, script) == Decode(carry[..4]) + Future(carry[4..], script)
    decreases |script|
  {
    hide Sextets, BeforePad;
    if script == [] {
      DecodeInTwo(carry);
    } else {
      var more := Sextets(BeforePad(script[0].data));
      var all := carry + more;
      assert all[..4] == carry[..4] && all[4..] == carry[4..] + more;
      var whole := all[..|all| - |all| % 4];
      assert whole[4..] == all[4..][..|all[4..]| - |all[4..]| % 4];
      DecodeInTwo(all);
      DecodeInTwo(whole);
      FutureOfQuad(all, script[1..]);
    }
  }

  lemma FutureOfFailure(carry: seq<Sextet>, script: seq<Chunk>)
    requires |carry| < 4 && script == [Chunk([], Failed)]
    ensures Future(carry, script) == []
  {
    hide Decode, Sextets, BeforePad;
    SextetsEmpty([], carry);
    FutureOfNothing([]);
    assert script[0].data == [];
    assert carry[..|carry| - |carry| % 4] == [];
  }
}
