/** Cutting a mail body into pieces short enough to synthesize: splitSentences,
    splitSpeechChunks and truncateForSpeech in internal/calls/body_speech.go. */
module SpeechChunks {
  import opened Text

  type Str = seq<Rune>

  const DEFAULT_RUNES: int := 350

  predicate IsTerminator(r: Rune) { r == 0x2E || r == 0x21 || r == 0x3F }

  predicate IsCloser(r: Rune) { r == 0x22 || r == 0x27 || r == 0xBB || r == 0x300D || r == 0x29 || r == 0x5D }

  /** What must follow a terminator and its closers for a sentence to end there. */
  predicate BreaksHere(rest: Str) { rest == [] || rest[0] == SPACE || rest[0] == 0x09 || rest[0] == NEWLINE }

  /** Full stop, exclamation and question mark end a sentence; quotes, brackets and the two
      quotation marks of other languages may close it; then a blank, a tab, a line break or the
      end of the text must follow. */
  lemma MarksAre(r: Rune, rest: Str)
    ensures IsTerminator(r) <==> r == '.' as int || r == '!' as int || r == '?' as int
    ensures IsCloser(r) <==>
      || r == '\"' as int || r == '\'' as int || r == ')' as int || r == ']' as int
      || r == '»' as int || r == '」' as int
    ensures IsBlank(r) <==> r == ' ' as int || r == '\t' as int || r == '\n' as int
    ensures BreaksHere(rest) <==> rest == [] || IsBlank(rest[0])
  {
  }

  /** The closing quotes and brackets at the front. */
  function Closers(s: Str): (c: Str)
    ensures c <= s
    ensures |c| < |s| ==> !IsCloser(s[|c|])
    ensures forall i :: 0 <= i < |c| ==> IsCloser(c[i])
  {
    if s == [] || !IsCloser(s[0]) then [] else [s[0]] + Closers(s[1..])
  }

  function Flush(buffer: Str): seq<Str> {
    if Trim(buffer) == [] then [] else [Trim(buffer)]
  }

  /** The sentences of `rest` when `buffer` is already written to the current one. */
  function Sentences(buffer: Str, rest: Str): seq<Str>
    decreases |rest|
  {
    if rest == [] then Flush(buffer)
    else if rest[0] == NEWLINE then Flush(buffer + [NEWLINE]) + Sentences([], rest[1..])
    else if !IsTerminator(rest[0]) then Sentences(buffer + [rest[0]], rest[1..])
    else
      var c := Closers(rest[1..]);
      if BreaksHere(rest[1 + |c|..]) then Flush(buffer + [rest[0]] + c) + Sentences([], rest[1 + |c|..])
      else Sentences(buffer + [rest[0]] + c, rest[1..])
  }

  // ------------------------------------------------------------ splitSentences

  method SplitSentences(runes: Str) returns (sentences: seq<Str>)
    ensures sentences == Sentences([], runes)
  {
    hide Sentences, Flush, Closers, BreaksHere, IsTerminator, IsCloser;
    sentences := [];
    var current: Str := [];
    var i := 0;
    while i < |runes|
      invariant i <= |runes|
      invariant sentences + Sentences(current, runes[i..]) == Sentences([], runes)
      decreases |runes| - i
    {
      ghost var before, rest := current, runes[i..];
      var r := runes[i];
      assert rest[0] == r && rest[1..] == runes[i + 1..];
      current := current + [r];
      if r == NEWLINE {
        UnfoldBreak(sentences, before, rest);
        sentences := sentences + Flush(current);
        current := [];
        i := i + 1;
        continue;
      }
      if !IsTerminator(r) {
        UnfoldPlain(before, rest);
        i := i + 1;
        continue;
      }
      ghost var c := Closers(runes[i + 1..]);
      var j := i + 1;
      while j < |runes| && IsCloser(runes[j])
        invariant i + 1 <= j <= i + 1 + |c|
        invariant current == before + [r] + c[..j - i - 1]
        decreases |runes| - j
      {
        current := current + [runes[j]];
        j := j + 1;
      }
      assert c[..|c|] == c && rest[1 + |c|..] == runes[j..];
      UnfoldEnd(sentences, before, rest);
      if BreaksHere(runes[j..]) {
        sentences := sentences + Flush(current);
        current := [];
        i := j - 1;
      }
      i := i + 1;
    }
    Done(sentences, current, runes[|runes|..]);
    sentences := sentences + Flush(current);
  }

  lemma UnfoldBreak(done: seq<Str>, buffer: Str, rest: Str)
    requires rest != [] && rest[0] == NEWLINE
    ensures done + Sentences(buffer, rest) == done + Flush(buffer + [NEWLINE]) + Sentences([], rest[1..])
  {
    hide Flush;
  }

  lemma UnfoldPlain(buffer: Str, rest: Str)
    requires rest != [] && rest[0] != NEWLINE && !IsTerminator(rest[0])
    ensures Sentences(buffer, rest) == Sentences(buffer + [rest[0]], rest[1..])
  {
  }

  lemma UnfoldEnd(done: seq<Str>, buffer: Str, rest: Str)
    requires rest != [] && rest[0] != NEWLINE && IsTerminator(rest[0])
    ensures var c := Closers(rest[1..]);
      done + Sentences(buffer, rest) ==
        if BreaksHere(rest[1 + |c|..]) then done + Flush(buffer + [rest[0]] + c) + Sentences([], rest[1 + |c|..])
        else done + Sentences(buffer + [rest[0]] + c, rest[1..])
  {
    hide Flush, Closers, BreaksHere;
  }

  lemma Done(done: seq<Str>, buffer: Str, rest: Str)
    requires rest == []
    ensures done + Sentences(buffer, rest) == done + Flush(buffer)
  {
  }

  // ---------------------------------------------------- what sentences contain

  function InkAll(parts: seq<Str>): Str {
    if parts == [] then [] else Ink(parts[0]) + InkAll(parts[1..])
  }

  lemma {:induction false} InkAllConcat(a: seq<Str>, b: seq<Str>)
    ensures InkAll(a + b) == InkAll(a) + InkAll(b)
  {
    if a == [] {
      assert a + b == b;
    } else {
      assert (a + b)[1..] == a[1..] + b;
      InkAllConcat(a[1..], b);
      Assoc(Ink(a[0]), InkAll(a[1..]), InkAll(b));
    }
  }

  lemma Assoc(a: Str, b: Str, c: Str)
    ensures a + b + c == a + (b + c)
  {
  }

  lemma InkFlush(buffer: Str)
    ensures InkAll(Flush(buffer)) == Ink(buffer)
  {
    InkTrim(buffer);
    hide Trim;
    if Trim(buffer) == [] {
      assert Ink([]) == [];
    } else {
      assert InkAll([Trim(buffer)]) == Ink(Trim(buffer)) + InkAll([]);
    }
  }

  /** Everything the loop writes: closers that do not end a sentence are written twice. */
  function Written(s: Str): Str
    decreases |s|
  {
    if s == [] then []
    else if s[0] == NEWLINE || !IsTerminator(s[0]) then [s[0]] + Written(s[1..])
    else
      var c := Closers(s[1..]);
      if BreaksHere(s[1 + |c|..]) then [s[0]] + c + Written(s[1 + |c|..]) else [s[0]] + c + Written(s[1..])
  }

  /** How many runes are written a second time. */
  function Doubled(s: Str): nat
    decreases |s|
  {
    if s == [] then 0
    else if s[0] == NEWLINE || !IsTerminator(s[0]) then Doubled(s[1..])
    else
      var c := Closers(s[1..]);
      if BreaksHere(s[1 + |c|..]) then Doubled(s[1 + |c|..]) else |c| + Doubled(s[1..])
  }

  /** No closer that follows a terminator is followed by anything but a blank or the end. */
  ghost predicate ClosersEndSentences(s: Str) {
    forall i :: 0 <= i < |s| && IsTerminator(s[i]) ==> ClosedWell(s, i)
  }

  ghost predicate ClosedWell(s: Str, i: nat)
    requires i < |s|
  {
    var c := Closers(s[i + 1..]);
    c == [] || BreaksHere(s[i + 1 + |c|..])
  }

  lemma InkSplit(a: Str, b: Str, c: Str)
    ensures Ink(a + b + c) == Ink(a) + Ink(b) + Ink(c)
  {
    InkConcat(a + b, c);
    InkConcat(a, b);
  }

  lemma InkStep(buffer: Str, head: Str, written: Str)
    ensures Ink(buffer + head) + Ink(written) == Ink(buffer) + Ink(head + written)
  {
    InkConcat(buffer, head);
    InkConcat(head, written);
    Assoc(Ink(buffer), Ink(head), Ink(written));
  }

  /** The sentences hold, in order, exactly the audible runes the loop wrote. */
  lemma {:induction false} SentencesInk(buffer: Str, rest: Str)
    ensures InkAll(Sentences(buffer, rest)) == Ink(buffer) + Ink(Written(rest))
    decreases |rest|
  {
    hide Flush, Closers, BreaksHere, Ink, InkAll;
    var none: Str := [];
    assert Ink(none) == [] by { InkOfNothing(); }
    if rest == [] {
      InkFlush(buffer);
    } else if rest[0] == NEWLINE {
      SentencesInk([], rest[1..]);
      FlushThen(buffer, [NEWLINE], Sentences([], rest[1..]), Written(rest[1..]));
    } else if !IsTerminator(rest[0]) {
      SentencesInk(buffer + [rest[0]], rest[1..]);
      InkStep(buffer, [rest[0]], Written(rest[1..]));
    } else {
      var c := Closers(rest[1..]);
      var head := [rest[0]] + c;
      assert buffer + [rest[0]] + c == buffer + head;
      if BreaksHere(rest[1 + |c|..]) {
        SentencesInk([], rest[1 + |c|..]);
        FlushThen(buffer, head, Sentences([], rest[1 + |c|..]), Written(rest[1 + |c|..]));
      } else {
        SentencesInk(buffer + head, rest[1..]);
        InkStep(buffer, head, Written(rest[1..]));
      }
    }
  }

  lemma InkOfNothing()
    ensures Ink([]) == []
  {
  }

  lemma FlushThen(buffer: Str, head: Str, later: seq<Str>, written: Str)
    requires InkAll(later) == Ink(written)
    ensures InkAll(Flush(buffer + head) + later) == Ink(buffer) + Ink(head + written)
  {
    InkAllConcat(Flush(buffer + head), later);
    InkFlush(buffer + head);
    InkStep(buffer, head, written);
  }

  lemma {:induction false} CloserInk(c: Str)
    requires forall i :: 0 <= i < |c| ==> IsCloser(c[i])
    ensures Ink(c) == c
  {
    if c != [] {
      CloserInk(c[1..]);
      assert c == [c[0]] + c[1..];
    }
  }

  /** The runes written twice are exactly what the sentences have too many. */
  lemma {:induction false} WrittenLength(s: Str)
    ensures |Ink(Written(s))| == |Ink(s)| + Doubled(s)
    ensures Doubled(s) == 0 ==> Written(s) == s
    decreases |s|
  {
    hide Closers, BreaksHere, Ink;
    if s != [] {
      assert s == [s[0]] + s[1..];
      if s[0] == NEWLINE || !IsTerminator(s[0]) {
        WrittenLength(s[1..]);
        InkConcat([s[0]], Written(s[1..]));
        InkConcat([s[0]], s[1..]);
      } else {
        var c := Closers(s[1..]);
        if BreaksHere(s[1 + |c|..]) {
          WrittenLength(s[1 + |c|..]);
          assert s == [s[0]] + c + s[1 + |c|..];
          InkSplit([s[0]], c, Written(s[1 + |c|..]));
          InkSplit([s[0]], c, s[1 + |c|..]);
        } else {
          WrittenLength(s[1..]);
          CloserInk(c);
          InkSplit([s[0]], c, Written(s[1..]));
          InkConcat([s[0]], s[1..]);
          assert c == [] ==> [s[0]] + c + Written(s[1..]) == [s[0]] + Written(s[1..]);
        }
      }
    }
  }

  lemma TailClosedWell(s: Str, k: nat)
    requires k <= |s| && ClosersEndSentences(s)
    ensures ClosersEndSentences(s[k..])
  {
    hide Closers, BreaksHere;
    forall i | 0 <= i < |s[k..]| && IsTerminator(s[k..][i]) ensures ClosedWell(s[k..], i) {
      assert ClosedWell(s, k + i);
      ClosedWellInTail(s, k, k + i);
    }
  }

  /** How far the loop moves on from the start of s. */
  function Advance(s: Str): (k: nat)
    requires s != []
    ensures 1 <= k <= |s|
  {
    if s[0] != NEWLINE && IsTerminator(s[0]) && BreaksHere(s[1 + |Closers(s[1..])|..]) then 1 + |Closers(s[1..])| else 1
  }

  lemma {:induction false} UndoubledIsClosedWell(s: Str)
    requires Doubled(s) == 0
    ensures ClosersEndSentences(s)
    decreases |s|
  {
    hide Closers, BreaksHere;
    if s != [] {
      var k := Advance(s);
      assert Doubled(s[k..]) == 0 && ClosedWellAt(s, 0);
      UndoubledIsClosedWell(s[k..]);
      hide Doubled, ClosedWell;
      forall i | 0 <= i < |s| && IsTerminator(s[i]) ensures ClosedWell(s, i) {
        if i >= k {
          assert s[k..][i - k] == s[i];
          ClosedWellInTail(s, k, i);
        } else if i > 0 {
          NoTerminatorAmong(s, i);
        }
      }
    }
  }

  ghost predicate ClosedWellAt(s: Str, i: nat)
    requires i < |s|
  {
    IsTerminator(s[i]) ==> ClosedWell(s, i)
  }

  lemma ClosedWellInTail(s: Str, k: nat, i: nat)
    requires k <= i < |s|
    ensures ClosedWell(s[k..], i - k) <==> ClosedWell(s, i)
  {
    hide Closers, BreaksHere;
    assert s[k..][i - k + 1..] == s[i + 1..];
    var c := Closers(s[i + 1..]);
    assert s[k..][i - k + 1 + |c|..] == s[i + 1 + |c|..];
  }

  lemma {:induction false} ClosedWellIsUndoubled(s: Str)
    requires ClosersEndSentences(s)
    ensures Doubled(s) == 0
    decreases |s|
  {
    hide Closers, BreaksHere;
    if s != [] {
      TailClosedWell(s, Advance(s));
      ClosedWellIsUndoubled(s[Advance(s)..]);
      assert ClosedWellAt(s, 0);
    }
  }

  lemma NoTerminatorAmong(s: Str, i: nat)
    requires 1 <= i < |s| && i < 1 + |Closers(s[1..])|
    ensures !IsTerminator(s[i])
  {
    assert IsCloser(Closers(s[1..])[i - 1]);
  }

  /** The sentences say exactly what the text says if and only if every closer run after a
      terminator is followed by a blank or the end; otherwise runes are spoken twice. */
  lemma SentencesKeepTextIff(text: Str)
    ensures InkAll(Sentences([], text)) == Ink(text) <==> ClosersEndSentences(text)
    ensures |InkAll(Sentences([], text))| == |Ink(text)| + Doubled(text)
  {
    SentencesInk([], text);
    WrittenLength(text);
    if Doubled(text) == 0 { UndoubledIsClosedWell(text); }
    if ClosersEndSentences(text) { ClosedWellIsUndoubled(text); }
    InkOfNothing();
    hide Sentences, Written, Doubled, ClosersEndSentences, InkAll;
  }

  predicate Spoken(s: Str) { s != [] && IsTrimmed(s) }

  lemma {:induction false} SentencesSpoken(buffer: Str, rest: Str)
    ensures forall s :: s in Sentences(buffer, rest) ==> Spoken(s)
    decreases |rest|
  {
    hide Closers, BreaksHere, Trim, IsTrimmed;
    if rest != [] {
      if rest[0] == NEWLINE {
        SentencesSpoken([], rest[1..]);
      } else if !IsTerminator(rest[0]) {
        SentencesSpoken(buffer + [rest[0]], rest[1..]);
      } else {
        var c := Closers(rest[1..]);
        if BreaksHere(rest[1 + |c|..]) {
          SentencesSpoken([], rest[1 + |c|..]);
        } else {
          SentencesSpoken(buffer + [rest[0]] + c, rest[1..]);
        }
      }
    }
  }

  // ---------------------------------------------------- where sentences are cut

  /** No line break, and no terminator whose closers are followed by a blank or the end. */
  ghost predicate Unbroken(s: Str) {
    NEWLINE !in s && forall i :: 0 <= i < |s| && IsTerminator(s[i]) ==> !EndsHere(s, i)
  }

  /** The terminator at i, with its closers, is followed by a blank or the end. */
  ghost predicate EndsHere(s: Str, i: nat)
    requires i < |s|
  {
    BreaksHere(s[i + 1 + |Closers(s[i + 1..])|..])
  }

  lemma UnbrokenTail(s: Str)
    requires s != [] && Unbroken(s)
    ensures Unbroken(s[1..])
  {
    hide Closers, BreaksHere;
    forall i | 0 <= i < |s[1..]| && IsTerminator(s[1..][i]) ensures !EndsHere(s[1..], i) {
      assert s[1..][i + 1..] == s[i + 2..];
      var c := Closers(s[i + 2..]);
      assert s[1..][i + 1 + |c|..] == s[i + 2 + |c|..];
      assert !EndsHere(s, i + 1);
    }
  }

  /** Inside a sentence nothing is cut: an unbroken text is one sentence. */
  lemma {:induction false} UnbrokenIsOneSentence(buffer: Str, s: Str)
    requires Unbroken(s)
    ensures Sentences(buffer, s) == Flush(buffer + Written(s))
    decreases |s|
  {
    hide Closers, BreaksHere, Flush;
    if s == [] {
      assert buffer + [] == buffer;
    } else {
      UnbrokenTail(s);
      assert s[0] != NEWLINE by { assert s[0] in s; }
      if !IsTerminator(s[0]) {
        UnbrokenIsOneSentence(buffer + [s[0]], s[1..]);
        Assoc(buffer, [s[0]], Written(s[1..]));
      } else {
        assert !EndsHere(s, 0);
        var c := Closers(s[1..]);
        UnbrokenIsOneSentence(buffer + [s[0]] + c, s[1..]);
        Assoc(buffer + [s[0]], c, Written(s[1..]));
        Assoc(buffer, [s[0]], c + Written(s[1..]));
        Assoc([s[0]], c, Written(s[1..]));
      }
    }
  }

  /** A line break, or a terminator that ends a sentence. */
  ghost predicate IsEnd(s: Str, i: nat)
    requires i < |s|
  {
    s[i] == NEWLINE || (IsTerminator(s[i]) && EndsHere(s, i))
  }

  /** Where the next sentence starts: closers belong to the sentence they end. */
  function After(s: Str, i: nat): (n: nat)
    requires i < |s|
    ensures i < n <= |s|
  {
    if s[i] == NEWLINE then i + 1 else i + 1 + |Closers(s[i + 1..])|
  }

  lemma EndShifts(s: Str, i: nat)
    requires 1 <= i < |s|
    ensures IsEnd(s[1..], i - 1) <==> IsEnd(s, i)
    ensures s[1..][After(s[1..], i - 1)..] == s[After(s, i)..]
  {
    hide Closers, BreaksHere;
    assert s[1..][i..] == s[i + 1..];
    var c := Closers(s[i + 1..]);
    assert s[1..][i + |c|..] == s[i + 1 + |c|..];
  }

  /** At the first sentence end there is always a cut: one sentence, at most, stands before
      it, and the rest is divided on its own. */
  lemma {:induction false} FirstEndCuts(buffer: Str, s: Str, i: nat) returns (head: Str)
    requires i < |s| && IsEnd(s, i) && forall k :: 0 <= k < i ==> !IsEnd(s, k)
    ensures Sentences(buffer, s) == Flush(head) + Sentences([], s[After(s, i)..])
    decreases i
  {
    hide Sentences, Closers, BreaksHere, Flush, After, IsEnd;
    if i == 0 {
      head := EndCutsHere(buffer, s);
    } else {
      EndShifts(s, i);
      forall k | 0 <= k < i - 1 ensures !IsEnd(s[1..], k) {
        EndShifts(s, k + 1);
        assert !IsEnd(s, k + 1);
      }
      var grown := NoCutHere(buffer, s);
      head := FirstEndCuts(grown, s[1..], i - 1);
    }
  }

  lemma EndCutsHere(buffer: Str, s: Str) returns (head: Str)
    requires s != [] && IsEnd(s, 0)
    ensures Sentences(buffer, s) == Flush(head) + Sentences([], s[After(s, 0)..])
  {
    hide Closers, BreaksHere, Flush;
    if s[0] == NEWLINE {
      head := buffer + [NEWLINE];
    } else {
      head := buffer + [s[0]] + Closers(s[1..]);
    }
  }

  lemma NoCutHere(buffer: Str, s: Str) returns (grown: Str)
    requires s != [] && !IsEnd(s, 0)
    ensures Sentences(buffer, s) == Sentences(grown, s[1..])
  {
    hide Closers, BreaksHere, Flush;
    grown := if IsTerminator(s[0]) then buffer + [s[0]] + Closers(s[1..]) else buffer + [s[0]];
  }

  // --------------------------------------------------------- cutting at words

  ghost predicate Spaceless(s: Str, from: int, to: int)
    requires 0 <= from <= to <= |s|
  {
    forall k :: from <= k < to ==> s[k] != SPACE
  }

  /** Where a piece of at most `max` runes ends: after the last space, else at `max`. */
  ghost predicate WordCut(s: Str, max: int, cut: int)
    requires 0 < max <= |s|
  {
    && 0 < cut <= max
    && (s[cut - 1] == SPACE || (cut == max && Spaceless(s, 0, max)))
    && Spaceless(s, cut, max)
  }

  /** Where the last space among the first `n` runes ends; 0 without one. */
  function SpaceEnd(s: Str, n: nat): (e: nat)
    requires n <= |s|
    ensures e <= n && Spaceless(s, e, n) && (e > 0 ==> s[e - 1] == SPACE)
  {
    if n == 0 || s[n - 1] == SPACE then n else SpaceEnd(s, n - 1)
  }

  function WordEnd(s: Str, max: int): (cut: int)
    requires 0 < max <= |s|
    ensures WordCut(s, max, cut)
  {
    var e := SpaceEnd(s, max);
    if e == 0 then max else e
  }

  method CutPoint(s: Str, max: int) returns (cut: int)
    requires 0 < max <= |s|
    ensures WordCut(s, max, cut) && cut == WordEnd(s, max)
  {
    cut := max;
    while cut > 0 && s[cut - 1] != SPACE
      invariant 0 <= cut <= max && SpaceEnd(s, cut) == SpaceEnd(s, max)
      decreases cut
    {
      cut := cut - 1;
    }
    if cut == 0 {
      cut := max;
    }
  }

  // --------------------------------------------------------- splitSpeechChunks

  predicate Piece(s: Str, max: int) { Spoken(s) && |s| <= max }

  function Join(parts: seq<Str>): Str {
    if parts == [] then []
    else if |parts| == 1 then parts[0]
    else Join(parts[..|parts| - 1]) + [SPACE] + parts[|parts| - 1]
  }

  ghost predicate AllFit(sentences: seq<Str>, max: int) {
    forall s :: s in sentences ==> |s| <= max
  }

  /** No chunk could have taken the next one in. */
  ghost predicate Greedy(chunks: seq<Str>, max: int) {
    forall i :: 0 <= i < |chunks| - 1 ==> |chunks[i]| + 1 + |chunks[i + 1]| > max
  }

  /** A sentence cut at its words until what is left fits. */
  function CutPieces(s: Str, max: int): seq<Str>
    requires max > 0
    decreases |s|
  {
    if |s| <= max then [s]
    else
      var cut := WordEnd(s, max);
      [Trim(s[..cut])] + CutPieces(Trim(s[cut..]), max)
  }

  function AllPieces(sentences: seq<Str>, max: int): seq<Str>
    requires max > 0
  {
    if sentences == [] then []
    else
      var n := |sentences| - 1;
      AllPieces(sentences[..n], max) + CutPieces(sentences[n], max)
  }

  /** Every chunk is some consecutive pieces joined by spaces, and every piece is in one. */
  ghost predicate Groups(chunks: seq<Str>, pieces: seq<Str>) {
    if chunks == [] then pieces == []
    else exists k :: LastGroup(chunks, pieces, k) && Groups(chunks[..|chunks| - 1], pieces[..k])
  }

  ghost predicate LastGroup(chunks: seq<Str>, pieces: seq<Str>, k: int)
    requires chunks != []
  {
    0 <= k < |pieces| && chunks[|chunks| - 1] == Join(pieces[k..])
  }

  /** Cuts one overlong sentence into pieces and returns its last, still open, piece. */
  method CutSentence(sentence: Str, max: int) returns (pieces: seq<Str>, last: Str)
    requires max > 0 && Spoken(sentence)
    ensures forall p :: p in pieces ==> Piece(p, max)
    ensures Piece(last, max)
    ensures InkAll(pieces) + Ink(last) == Ink(sentence)
    ensures |sentence| <= max ==> pieces == [] && last == sentence
    ensures pieces + [last] == CutPieces(sentence, max)
  {
    hide Ink, InkAll, Trim, CutPieces, WordEnd;
    pieces, last := [], sentence;
    assert InkAll(pieces) == [] by { InkAllOfNothing(); }
    while |last| > max
      invariant pieces + CutPieces(last, max) == CutPieces(sentence, max)
      invariant Spoken(last)
      invariant forall p :: p in pieces ==> Piece(p, max)
      invariant InkAll(pieces) + Ink(last) == Ink(sentence)
      invariant |sentence| <= max ==> pieces == [] && last == sentence
      decreases |last|
    {
      var cut := CutPoint(last, max);
      CutKeeps(pieces, last, cut);
      CutOne(pieces, last, max);
      pieces := pieces + [Trim(last[..cut])];
      last := Trim(last[cut..]);
    }
    CutOne(pieces, last, max);
  }

  lemma CutOne(pieces: seq<Str>, s: Str, max: int)
    requires max > 0
    ensures |s| <= max ==> CutPieces(s, max) == [s]
    ensures |s| > max ==> var cut := WordEnd(s, max);
      pieces + CutPieces(s, max) == pieces + [Trim(s[..cut])] + CutPieces(Trim(s[cut..]), max)
  {
    hide WordEnd, Trim;
  }

  lemma InkAllOfNothing()
    ensures InkAll([]) == []
  {
  }

  lemma InkAllOne(parts: seq<Str>, p: Str)
    ensures InkAll(parts + [p]) == InkAll(parts) + Ink(p)
  {
    InkAllConcat(parts, [p]);
    assert InkAll([p]) == Ink(p) + InkAll([]);
  }

  lemma CutKeeps(pieces: seq<Str>, s: Str, cut: int)
    requires Spoken(s) && 0 < cut < |s|
    ensures Spoken(Trim(s[..cut])) && Spoken(Trim(s[cut..]))
    ensures |Trim(s[..cut])| <= cut && |Trim(s[cut..])| < |s|
    ensures InkAll(pieces + [Trim(s[..cut])]) + Ink(Trim(s[cut..])) == InkAll(pieces) + Ink(s)
  {
    TrimKeeps(s[..cut], 0);
    TrimKeeps(s[cut..], |s| - cut - 1);
    InkTrim(s[..cut]);
    InkTrim(s[cut..]);
    InkAllOne(pieces, Trim(s[..cut]));
    InkConcat(s[..cut], s[cut..]);
    assert s[..cut] + s[cut..] == s;
    Assoc(InkAll(pieces), Ink(s[..cut]), Ink(s[cut..]));
  }

  ghost predicate Pieces(chunks: seq<Str>, max: int) {
    forall c :: c in chunks ==> Piece(c, max)
  }

  /** With the current chunk, if one is open. */
  function WithCurrent(chunks: seq<Str>, current: Str): seq<Str> {
    if current == [] then chunks else chunks + [current]
  }

  /** Groups sentences into chunks. Every chunk is audible, trimmed and within the limit; no
      audible rune is lost; and when no sentence has to be cut the chunks joined by spaces
      are the sentences joined by spaces, each chunk as full as it can be. */
  method SplitSpeechChunks(text: Str, maxRunes: int) returns (chunks: seq<Str>)
    ensures var max := if maxRunes <= 0 then DEFAULT_RUNES else maxRunes;
      var sentences := Sentences([], Trim(text));
      && Pieces(chunks, max)
      && InkAll(chunks) == InkAll(sentences)
      && Groups(chunks, AllPieces(sentences, max))
      && (AllFit(sentences, max) ==> Join(chunks) == Join(sentences) && Greedy(chunks, max))
  {
    hide Ink, InkAll, Trim, Sentences, Join, Greedy, AllFit, Pieces, CutPieces, AllPieces, Groups;
    var trimmed := Trim(text);
    var max := if maxRunes <= 0 then DEFAULT_RUNES else maxRunes;
    if trimmed == [] {
      NoSentences(max);
      return [];
    }
    var sentences := SplitSentences(trimmed);
    SentencesSpoken([], trimmed);
    chunks := [];
    var current: Str := [];
    NothingYet(max);
    assert sentences[..0] == [];
    for i := 0 to |sentences|
      invariant current != [] ==> Piece(current, max)
      invariant current == [] <==> i == 0
      invariant current == [] ==> chunks == []
      invariant Pieces(chunks, max)
      invariant InkAll(WithCurrent(chunks, current)) == InkAll(sentences[..i])
      invariant Groups(WithCurrent(chunks, current), AllPieces(sentences[..i], max))
      invariant AllFit(sentences, max) ==> Join(WithCurrent(chunks, current)) == Join(sentences[..i])
      invariant AllFit(sentences, max) ==> Greedy(WithCurrent(chunks, current), max)
    {
      var sentence := sentences[i];
      assert Spoken(sentence);
      assert sentences[..i + 1] == sentences[..i] + [sentence];
      if current != [] && |current| + 1 + |sentence| <= max {
        PieceJoins(chunks, current, sentence, sentences[..i], max);
        Joined(chunks, current, sentence, sentences[..i], max, AllFit(sentences, max));
        current := current + [SPACE] + sentence;
        continue;
      }
      ghost var open := WithCurrent(chunks, current);
      if current != [] {
        PiecesMore(chunks, [current], max);
        chunks := chunks + [current];
      }
      var pieces, last := CutSentence(sentence, max);
      PiecesOpen(open, sentences[..i], sentence, pieces, last, max);
      Opened(open, current, sentence, sentences, i, pieces, last, max);
      PiecesMore(chunks, pieces, max);
      chunks := chunks + pieces;
      current := last;
      assert WithCurrent(chunks, current) == open + pieces + [last];
    }
    assert sentences[..|sentences|] == sentences;
    PiecesMore(chunks, if current == [] then [] else [current], max);
    if current != [] {
      chunks := chunks + [current];
    } else {
      assert chunks + [] == chunks;
    }
  }

  lemma PiecesMore(chunks: seq<Str>, more: seq<Str>, max: int)
    requires Pieces(chunks, max) && forall p :: p in more ==> Piece(p, max)
    ensures Pieces(chunks + more, max)
  {
    hide Piece;
  }

  lemma NothingYet(max: int)
    requires max > 0
    ensures Pieces([], max) && InkAll([]) == [] && Join([]) == [] && Greedy([], max)
    ensures Groups([], AllPieces([], max))
  {
  }

  lemma NoSentences(max: int)
    requires max > 0
    ensures Sentences([], []) == [] && Pieces([], max) && Greedy([], max)
    ensures Groups([], AllPieces([], max))
  {
  }

  lemma PiecesOfMore(before: seq<Str>, sentence: Str, max: int)
    requires max > 0
    ensures AllPieces(before + [sentence], max) == AllPieces(before, max) + CutPieces(sentence, max)
  {
    assert (before + [sentence])[..|before|] == before;
  }

  lemma PieceJoins(chunks: seq<Str>, current: Str, sentence: Str, before: seq<Str>, max: int)
    requires 0 < max && |sentence| <= max && Groups(chunks + [current], AllPieces(before, max))
    ensures Groups(chunks + [current + [SPACE] + sentence], AllPieces(before + [sentence], max))
  {
    hide AllPieces, Join, Groups;
    PiecesOfMore(before, sentence, max);
    CutOne([], sentence, max);
    var pieces := AllPieces(before, max);
    var k := LastOf(chunks, current, pieces);
    assert (pieces + [sentence])[k..] == pieces[k..] + [sentence];
    assert (pieces + [sentence])[..k] == pieces[..k];
    JoinMore(pieces[k..], sentence);
    LastIs(chunks, current + [SPACE] + sentence, pieces + [sentence], k);
  }

  lemma LastOf(chunks: seq<Str>, current: Str, pieces: seq<Str>) returns (k: int)
    requires Groups(chunks + [current], pieces)
    ensures 0 <= k < |pieces| && current == Join(pieces[k..]) && Groups(chunks, pieces[..k])
  {
    var all := chunks + [current];
    assert all[..|all| - 1] == chunks;
    k :| LastGroup(all, pieces, k) && Groups(all[..|all| - 1], pieces[..k]);
  }

  lemma LastIs(chunks: seq<Str>, current: Str, pieces: seq<Str>, k: int)
    requires 0 <= k < |pieces| && current == Join(pieces[k..]) && Groups(chunks, pieces[..k])
    ensures Groups(chunks + [current], pieces)
  {
    var all := chunks + [current];
    assert all[..|all| - 1] == chunks;
    assert LastGroup(all, pieces, k);
  }

  /** Pieces that are chunks of their own. */
  lemma {:induction false} GroupsMore(chunks: seq<Str>, pieces: seq<Str>, more: seq<Str>)
    requires Groups(chunks, pieces)
    ensures Groups(chunks + more, pieces + more)
    decreases |more|
  {
    hide Join, Groups;
    if more == [] {
      assert chunks + more == chunks && pieces + more == pieces;
    } else {
      var p := more[0];
      var k := |pieces|;
      assert (pieces + [p])[k..] == [p] && (pieces + [p])[..k] == pieces;
      assert Join([p]) == p by { JoinMore([], p); assert [] + [p] == [p]; }
      LastIs(chunks, p, pieces + [p], k);
      GroupsMore(chunks + [p], pieces + [p], more[1..]);
      assert chunks + [p] + more[1..] == chunks + more && pieces + [p] + more[1..] == pieces + more;
    }
  }

  lemma PiecesOpen(open: seq<Str>, before: seq<Str>, sentence: Str, pieces: seq<Str>, last: Str, max: int)
    requires max > 0 && Groups(open, AllPieces(before, max)) && pieces + [last] == CutPieces(sentence, max)
    ensures Groups(open + pieces + [last], AllPieces(before + [sentence], max))
  {
    hide AllPieces, Groups, CutPieces;
    PiecesOfMore(before, sentence, max);
    GroupsMore(open, AllPieces(before, max), pieces + [last]);
    assert open + (pieces + [last]) == open + pieces + [last];
  }

  lemma JoinMore(parts: seq<Str>, p: Str)
    ensures Join(parts + [p]) == if parts == [] then p else Join(parts) + [SPACE] + p
  {
    assert (parts + [p])[..|parts|] == parts;
  }

  lemma Fill(a: Str, b: Str, c: Str)
    ensures a + [SPACE] + (b + [SPACE] + c) == a + [SPACE] + b + [SPACE] + c
  {
  }

  lemma InkBlank()
    ensures Ink([SPACE]) == []
  {
    assert IsSpace(SPACE);
    assert Ink([SPACE]) == Ink([SPACE][1..]);
  }

  /** A sentence joins the open chunk. */
  lemma Joined(chunks: seq<Str>, current: Str, sentence: Str, before: seq<Str>, max: int, fit: bool)
    requires Piece(current, max) && Spoken(sentence) && |current| + 1 + |sentence| <= max
    requires InkAll(chunks + [current]) == InkAll(before)
    requires before != []
    requires fit ==> Join(chunks + [current]) == Join(before) && Greedy(chunks + [current], max)
    ensures var grown := current + [SPACE] + sentence;
      && Piece(grown, max)
      && InkAll(chunks + [grown]) == InkAll(before + [sentence])
      && (fit ==> Join(chunks + [grown]) == Join(before + [sentence]) && Greedy(chunks + [grown], max))
  {
    hide Ink, InkAll, Join, Greedy, IsSpace;
    var grown := current + [SPACE] + sentence;
    InkAllOne(chunks, current);
    InkAllOne(chunks, grown);
    InkAllOne(before, sentence);
    InkSplit(current, [SPACE], sentence);
    InkBlank();
    Assoc(InkAll(chunks), Ink(current), Ink(sentence));
    if fit {
      JoinMore(chunks, current);
      JoinMore(chunks, grown);
      JoinMore(before, sentence);
      Fill(Join(chunks), current, sentence);
      GreedyGrown(chunks, current, grown, max);
    }
  }

  lemma GreedyGrown(chunks: seq<Str>, current: Str, grown: Str, max: int)
    requires Greedy(chunks + [current], max) && |current| <= |grown|
    ensures Greedy(chunks + [grown], max)
  {
    var a, b := chunks + [current], chunks + [grown];
    forall i | 0 <= i < |b| - 1 ensures |b[i]| + 1 + |b[i + 1]| > max {
      assert |a[i]| + 1 + |a[i + 1]| > max;
    }
  }

  /** A sentence opens a chunk of its own, possibly after pieces cut from its front. */
  lemma Opened(open: seq<Str>, current: Str, sentence: Str, sentences: seq<Str>, i: nat, pieces: seq<Str>,
               last: Str, max: int)
    requires i < |sentences| && sentences[i] == sentence
    requires if current == [] then i == 0 && open == []
             else open != [] && i > 0 && open[|open| - 1] == current && |current| + 1 + |sentence| > max
    requires InkAll(open) == InkAll(sentences[..i]) && InkAll(pieces) + Ink(last) == Ink(sentence)
    requires AllFit(sentences, max) ==> Join(open) == Join(sentences[..i]) && Greedy(open, max)
    requires |sentence| <= max ==> pieces == [] && last == sentence
    ensures InkAll(open + pieces + [last]) == InkAll(sentences[..i] + [sentence])
    ensures AllFit(sentences, max) ==> Join(open + pieces + [last]) == Join(sentences[..i] + [sentence])
    ensures AllFit(sentences, max) ==> Greedy(open + pieces + [last], max)
  {
    hide Ink, InkAll, Join, Greedy, AllFit;
    OpenedInk(open, InkAll(sentences[..i]), pieces, last);
    InkAllOne(sentences[..i], sentence);
    Assoc(InkAll(sentences[..i]), InkAll(pieces), Ink(last));
    if AllFit(sentences, max) {
      Fits(sentences, i, max);
      assert open + pieces == open;
      JoinMore(open, sentence);
      JoinMore(sentences[..i], sentence);
      GreedyMore(open, sentence, max);
    }
  }

  lemma OpenedInk(open: seq<Str>, before: Str, pieces: seq<Str>, last: Str)
    requires InkAll(open) == before
    ensures InkAll(open + pieces + [last]) == before + InkAll(pieces) + Ink(last)
  {
    InkAllOne(open + pieces, last);
    InkAllConcat(open, pieces);
  }

  lemma Fits(sentences: seq<Str>, i: nat, max: int)
    requires i < |sentences| && AllFit(sentences, max)
    ensures |sentences[i]| <= max
  {
  }

  lemma GreedyMore(open: seq<Str>, sentence: Str, max: int)
    requires Greedy(open, max) && (open != [] ==> |open[|open| - 1]| + 1 + |sentence| > max)
    ensures Greedy(open + [sentence], max)
  {
  }

  // ------------------------------------------------------------ words survive

  function WordsAll(parts: seq<Str>): seq<Str> {
    if parts == [] then [] else WordsAll(parts[..|parts| - 1]) + Words(parts[|parts| - 1])
  }

  lemma WordsAllOne(parts: seq<Str>, p: Str)
    ensures WordsAll(parts + [p]) == WordsAll(parts) + Words(p)
  {
    assert (parts + [p])[..|parts|] == parts;
  }

  lemma {:induction false} WordsAllConcat(a: seq<Str>, b: seq<Str>)
    ensures WordsAll(a + b) == WordsAll(a) + WordsAll(b)
    decreases |b|
  {
    hide Words;
    if b == [] {
      assert a + b == a;
    } else {
      var n := |b| - 1;
      assert (a + b)[..|a| + n] == a + b[..n];
      WordsAllConcat(a, b[..n]);
    }
  }

  /** Without a space for more than `max` runes there is nowhere to cut but inside. */
  ghost predicate ShortRuns(s: Str, max: int) {
    forall i, j :: 0 <= i <= j <= |s| && Spaceless(s, i, j) ==> j - i <= max
  }

  ghost predicate AllShortRuns(sentences: seq<Str>, max: int) {
    forall s :: s in sentences ==> ShortRuns(s, max)
  }

  ghost predicate ShortWords(words: seq<Str>, max: int) {
    forall w :: w in words ==> |w| <= max
  }

  lemma ShortRunsWithin(s: Str, from: int, to: int, max: int)
    requires 0 <= from <= to <= |s| && ShortRuns(s, max)
    ensures ShortRuns(s[from..to], max)
  {
    var t := s[from..to];
    forall i, j | 0 <= i <= j <= |t| && Spaceless(t, i, j) ensures j - i <= max {
      assert forall k :: from + i <= k < from + j ==> t[k - from] == s[k];
      assert Spaceless(s, from + i, from + j);
    }
  }

  /** Cutting a sentence loses, adds and splits no word when no run without a space is
      longer than the limit. */
  lemma {:induction false} CutKeepsWords(s: Str, max: int)
    requires max > 0 && ShortRuns(s, max)
    ensures WordsAll(CutPieces(s, max)) == Words(s)
    decreases |s|
  {
    hide Words, WordsAll, Trim, ShortRuns, WordEnd;
    hide CutPieces, Spoken;
    CutOne([], s, max);
    if |s| <= max {
      WordsAllAlone(s);
    } else {
      var cut := WordEnd(s, max);
      CutBetweenWords(s, max);
      ShortRunsAfter(s, cut, max);
      CutKeepsWords(Trim(s[cut..]), max);
      WordsTrim(s[..cut]);
      WordsTrim(s[cut..]);
      WordsAllAlone(Trim(s[..cut]));
      var first, rest := [Trim(s[..cut])], CutPieces(Trim(s[cut..]), max);
      WordsAllConcat(first, rest);
      assert [] + first + rest == first + rest && [] + CutPieces(s, max) == CutPieces(s, max);
    }
  }

  lemma ShortRunsAfter(s: Str, cut: nat, max: int)
    requires cut <= |s| && ShortRuns(s, max)
    ensures ShortRuns(Trim(s[cut..]), max)
  {
    hide Trim, ShortRuns;
    var from, to := TrimWithin(s[cut..]);
    ShortRunsWithin(s, cut + from, cut + to, max);
    assert s[cut + from..cut + to] == s[cut..][from..to];
  }

  lemma WordsAllAlone(s: Str)
    ensures WordsAll([s]) == Words(s)
  {
    hide Words;
    WordsAllOne([], s);
    assert [] + [s] == [s];
  }

  lemma CutBetweenWords(s: Str, max: int)
    requires 0 < max < |s| && ShortRuns(s, max)
    ensures var cut := WordEnd(s, max); Words(s) == Words(s[..cut]) + Words(s[cut..])
  {
    hide Words, WordEnd, ShortRuns;
    var cut := WordEnd(s, max);
    assert IsSpace(SPACE);
    NextIsSpace(s, max);
    assert s[..cut] + s[cut..] == s;
    WordsConcat(s[..cut], s[cut..]);
  }

  lemma NextIsSpace(s: Str, max: int)
    requires 0 < max < |s| && ShortRuns(s, max)
    ensures Spaceless(s, 0, max) ==> s[max] == SPACE
  {
    assert Spaceless(s, 0, max) && s[max] != SPACE ==> Spaceless(s, 0, max + 1);
  }

  lemma {:induction false} AllPiecesKeepWords(sentences: seq<Str>, max: int)
    requires max > 0 && AllShortRuns(sentences, max)
    ensures WordsAll(AllPieces(sentences, max)) == WordsAll(sentences)
    decreases |sentences|
  {
    hide Words, CutPieces, ShortRuns;
    if sentences != [] {
      var n := |sentences| - 1;
      AllPiecesKeepWords(sentences[..n], max);
      CutKeepsWords(sentences[n], max);
      WordsAllConcat(AllPieces(sentences[..n], max), CutPieces(sentences[n], max));
    }
  }

  lemma {:induction false} JoinWords(parts: seq<Str>)
    ensures Words(Join(parts)) == WordsAll(parts)
    decreases |parts|
  {
    hide Words, Join;
    if parts == [] {
      NothingJoined();
    } else {
      var n := |parts| - 1;
      JoinWords(parts[..n]);
      assert parts[..n] + [parts[n]] == parts;
      JoinMore(parts[..n], parts[n]);
      WordsAllOne(parts[..n], parts[n]);
      if n > 0 {
        WordsApart(Join(parts[..n]), parts[n]);
      } else {
        WordsAllAlone(parts[n]);
      }
    }
  }

  lemma NothingJoined()
    ensures Words(Join([])) == WordsAll([]) == []
  {
  }

  lemma {:induction false} GroupsKeepWords(chunks: seq<Str>, pieces: seq<Str>)
    requires Groups(chunks, pieces)
    ensures WordsAll(chunks) == WordsAll(pieces)
    decreases |chunks|
  {
    hide Words, Join;
    if chunks != [] {
      var n := |chunks| - 1;
      var k :| LastGroup(chunks, pieces, k) && Groups(chunks[..n], pieces[..k]);
      GroupsKeepWords(chunks[..n], pieces[..k]);
      JoinWords(pieces[k..]);
      WordsAllConcat(pieces[..k], pieces[k..]);
      assert pieces[..k] + pieces[k..] == pieces;
    }
  }

  lemma {:induction false} ShortChunksShortWords(chunks: seq<Str>, max: int)
    requires Pieces(chunks, max)
    ensures ShortWords(WordsAll(chunks), max)
    decreases |chunks|
  {
    hide Words;
    if chunks != [] {
      var n := |chunks| - 1;
      ShortChunksShortWords(chunks[..n], max);
      assert chunks[n] in chunks && Piece(chunks[n], max);
      forall w | w in Words(chunks[n]) ensures |w| <= max {
        WordFits(chunks[n], w);
      }
    }
  }

  /** The chunks speak the words of the sentences when no run without a space exceeds the
      limit, and only when no word does. */
  lemma ChunksKeepWords(chunks: seq<Str>, sentences: seq<Str>, max: int)
    requires max > 0 && Pieces(chunks, max) && Groups(chunks, AllPieces(sentences, max))
    ensures AllShortRuns(sentences, max) ==> WordsAll(chunks) == WordsAll(sentences)
    ensures WordsAll(chunks) == WordsAll(sentences) ==> ShortWords(WordsAll(sentences), max)
  {
    hide AllPieces, Groups, WordsAll, Pieces, ShortRuns;
    GroupsKeepWords(chunks, AllPieces(sentences, max));
    if AllShortRuns(sentences, max) {
      AllPiecesKeepWords(sentences, max);
    }
    ShortChunksShortWords(chunks, max);
  }

  /** Nothing but spaces sets the words of these sentences apart. */
  ghost predicate OnlySpaces(sentences: seq<Str>) {
    forall s :: s in sentences ==> SpacesOnly(s)
  }

  /** Then the two conditions meet: the chunks speak the sentences' words, whole and in
      order, if and only if no word is longer than the limit. */
  lemma ChunksKeepWordsIff(chunks: seq<Str>, sentences: seq<Str>, max: int)
    requires max > 0 && Pieces(chunks, max) && Groups(chunks, AllPieces(sentences, max))
    requires OnlySpaces(sentences)
    ensures WordsAll(chunks) == WordsAll(sentences) <==> ShortWords(WordsAll(sentences), max)
  {
    hide AllPieces, Groups, WordsAll, Pieces, ShortRuns, SpacesOnly, Words;
    ChunksKeepWords(chunks, sentences, max);
    if ShortWords(WordsAll(sentences), max) {
      forall s | s in sentences ensures ShortRuns(s, max) {
        WordsOfPart(sentences, s);
        ShortWordsShortRuns(s, max);
      }
    }
  }

  lemma {:induction false} WordsOfPart(parts: seq<Str>, s: Str)
    requires s in parts
    ensures forall w :: w in Words(s) ==> w in WordsAll(parts)
    decreases |parts|
  {
    hide Words;
    var n := |parts| - 1;
    if s != parts[n] {
      WordsOfPart(parts[..n], s);
    }
  }

  predicate SpacesOnly(s: Str) {
    forall i :: 0 <= i < |s| && IsSpace(s[i]) ==> s[i] == SPACE
  }

  lemma ShortWordsShortRuns(s: Str, max: int)
    requires max > 0 && SpacesOnly(s) && ShortWords(Words(s), max)
    ensures ShortRuns(s, max)
  {
    hide Words, IsSpace;
    forall i, j | 0 <= i <= j <= |s| && Spaceless(s, i, j) ensures j - i <= max {
      if i < j {
        forall k | i <= k < j ensures !IsSpace(s[k]) {
        }
        var w := RunInWord(s, i, j);
      }
    }
  }

  // --------------------------------------------------------- truncateForSpeech

  predicate IsBlank(r: Rune) { r == SPACE || r == 0x09 || r == NEWLINE }

  function TrimRightBlanks(s: Str): (t: Str)
    ensures t <= s
    ensures t != [] ==> !IsBlank(t[|t| - 1])
    ensures forall i :: |t| <= i < |s| ==> IsBlank(s[i])
  {
    if s != [] && IsBlank(s[|s| - 1]) then TrimRightBlanks(s[..|s| - 1]) else s
  }

  /** The last terminator among the first `n` runes, -1 without one. */
  function LastTerminator(s: Str, n: nat): (b: int)
    requires n <= |s|
    ensures -1 <= b < n && (b >= 0 ==> IsTerminator(s[b]))
    ensures forall k :: b < k < n ==> !IsTerminator(s[k])
  {
    if n == 0 || IsTerminator(s[n - 1]) then n - 1 else LastTerminator(s, n - 1)
  }

  /** A text that is too long, cut after its last sentence when that ends in the second half
      of the limit, else after its last word. */
  function Truncated(s: Str, max: int): (spoken: Str)
    requires 0 < max < |s|
    ensures spoken <= s && |spoken| <= max
  {
    var b := LastTerminator(s, max);
    if b > max / 2 then s[..b + 1] else TrimRightBlanks(s[..WordEnd(s, max)])
  }

  /** The last sentence end within the limit. */
  ghost predicate LastEnd(s: Str, max: int, b: int)
    requires 0 < max <= |s|
  {
    0 <= b < max && IsTerminator(s[b]) && forall k :: b < k < max ==> !IsTerminator(s[k])
  }

  /** Cuts a text that is too long, and says so. */
  method TruncateForSpeech(runes: Str, maxRunes: int) returns (spoken: Str, truncated: bool)
    ensures truncated <==> 0 < maxRunes < |runes|
    ensures spoken == if truncated then Truncated(runes, maxRunes) else runes
    ensures truncated ==> spoken <= runes && |spoken| <= maxRunes
    ensures truncated ==> forall b :: LastEnd(runes, maxRunes, b) && b > maxRunes / 2 ==> spoken == runes[..b + 1]
    ensures truncated && (forall b :: maxRunes / 2 < b < maxRunes ==> !IsTerminator(runes[b])) ==>
      forall cut :: WordCut(runes, maxRunes, cut) ==> spoken == TrimRightBlanks(runes[..cut])
  {
    if maxRunes <= 0 || |runes| <= maxRunes { return runes, false; }
    var best := -1;
    for i := 0 to maxRunes
      invariant best == LastTerminator(runes, i)
    {
      if IsTerminator(runes[i]) {
        best := i;
      }
    }
    if best >= 0 && best > maxRunes / 2 {
      return runes[..best + 1], true;
    }
    var cut := CutPoint(runes, maxRunes);
    forall other | WordCut(runes, maxRunes, other) ensures other == cut {
      OneWordCut(runes, maxRunes, cut, other);
    }
    return TrimRightBlanks(runes[..cut]), true;
  }

  lemma OneWordCut(s: Str, max: int, a: int, b: int)
    requires 0 < max <= |s| && WordCut(s, max, a) && WordCut(s, max, b)
    ensures a == b
  {
  }

  /** A word is in progress on both sides of position n. */
  predicate MidWord(s: Str, n: nat) { 0 < n < |s| && !IsBlank(s[n - 1]) && !IsBlank(s[n]) }

  /** Exactly when a truncated text ends inside a word: at a late terminator with no blank
      behind it; otherwise when the first `max` runes hold no space and the limit itself
      falls inside a word. */
  lemma TruncatedMidWordIff(s: Str, max: int)
    requires 0 < max < |s|
    ensures var b := LastTerminator(s, max);
      MidWord(s, |Truncated(s, max)|) <==>
        if b > max / 2 then !IsBlank(s[b + 1]) else SPACE !in s[..max] && MidWord(s, max)
  {
    hide LastTerminator, WordEnd, TrimRightBlanks, Truncated, MidWord;
    TruncatedForm(s, max);
    var b := LastTerminator(s, max);
    if b > max / 2 {
      EndMidWord(s, b);
    } else {
      WordEndMidWord(s, max);
    }
  }

  lemma TruncatedForm(s: Str, max: int)
    requires 0 < max < |s|
    ensures LastTerminator(s, max) > max / 2 ==> |Truncated(s, max)| == LastTerminator(s, max) + 1
    ensures LastTerminator(s, max) <= max / 2 ==> Truncated(s, max) == TrimRightBlanks(s[..WordEnd(s, max)])
  {
    hide LastTerminator, WordEnd, TrimRightBlanks;
  }

  lemma EndMidWord(s: Str, b: int)
    requires 0 <= b < |s| - 1 && IsTerminator(s[b])
    ensures MidWord(s, b + 1) <==> !IsBlank(s[b + 1])
  {
  }

  lemma WordEndMidWord(s: Str, max: int)
    requires 0 < max < |s|
    ensures MidWord(s, |TrimRightBlanks(s[..WordEnd(s, max)])|) <==> SPACE !in s[..max] && MidWord(s, max)
  {
    hide LastTerminator, SpaceEnd, TrimRightBlanks;
    var cut := WordEnd(s, max);
    assert WordCut(s, max, cut);
    hide WordEnd;
    var t := TrimRightBlanks(s[..cut]);
    assert forall i :: |t| <= i < cut ==> IsBlank(s[..cut][i]) && s[..cut][i] == s[i];
    assert t != [] ==> t[|t| - 1] == s[|t| - 1];
    assert SPACE in s[..max] <==> s[cut - 1] == SPACE by {
      assert forall k :: 0 <= k < max ==> s[..max][k] == s[k];
    }
  }

  function PiIsNow(): Str {
    [0x50, 0x69, 0x20, 0x69, 0x73, 0x20, 0x33, 0x2E, 0x31, 0x34, 0x20, 0x6E, 0x6F, 0x77]
  }

  /** Despite its spaces, `Pi is 3.14 now` within eight runes ends inside the number. */
  lemma NumberIsCut()
    ensures Truncated(PiIsNow(), 8) == PiIsNow()[..8] && MidWord(PiIsNow(), 8) && SPACE in PiIsNow()[..8]
  {
    assert IsTerminator(PiIsNow()[7]);
    assert PiIsNow()[..8][2] == SPACE;
  }
}
