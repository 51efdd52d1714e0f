/** Unicode text as the Go code sees it: sequences of runes, with the white-space
    class of Go's unicode package and the trimming built on it. */
module Text {
  /** A Unicode scalar value: what `[]rune(s)` yields, surrogates excluded. */
  type Rune = r: int | 0 <= r < 0xD800 || 0xE000 <= r <= 0x10FFFF witness 0

  const NEWLINE: Rune := 0x0A
  const SPACE: Rune := 0x20

  /** unicode.IsSpace. */
  predicate IsSpace(r: Rune) {
    || 0x09 <= r <= 0x0D || r == 0x20 || r == 0x85 || r == 0xA0 || r == 0x1680
    || 0x2000 <= r <= 0x200A || r == 0x2028 || r == 0x2029 || r == 0x202F
    || r == 0x205F || r == 0x3000
  }

  function TrimLeft(s: seq<Rune>): (t: seq<Rune>)
    ensures t != [] ==> !IsSpace(t[0])
    ensures |t| <= |s|
  {
    if s != [] && IsSpace(s[0]) then TrimLeft(s[1..]) else s
  }

  function TrimRight(s: seq<Rune>): (t: seq<Rune>)
    ensures t != [] ==> !IsSpace(t[|t| - 1])
    ensures t <= s
  {
    if s != [] && IsSpace(s[|s| - 1]) then TrimRight(s[..|s| - 1]) else s
  }

  /** strings.TrimSpace. */
  function Trim(s: seq<Rune>): (t: seq<Rune>)
    ensures IsTrimmed(t)
    ensures |t| <= |s|
  {
    TrimRight(TrimLeft(s))
  }

  predicate IsTrimmed(s: seq<Rune>) {
    s != [] ==> !IsSpace(s[0]) && !IsSpace(s[|s| - 1])
  }

  /** The runes a listener could hear: everything but white space. */
  function Ink(s: seq<Rune>): (t: seq<Rune>) {
    if s == [] then [] else (if IsSpace(s[0]) then [] else [s[0]]) + Ink(s[1..])
  }

  lemma {:induction false} InkConcat(a: seq<Rune>, b: seq<Rune>)
    ensures Ink(a + b) == Ink(a) + Ink(b)
  {
    if a == [] {
      assert a + b == b;
    } else {
      assert (a + b)[1..] == a[1..] + b;
      InkConcat(a[1..], b);
    }
  }

  lemma {:induction false} InkTrimLeft(s: seq<Rune>)
    ensures Ink(TrimLeft(s)) == Ink(s)
  {
    if s != [] && IsSpace(s[0]) {
      InkTrimLeft(s[1..]);
    }
  }

  lemma {:induction false} InkTrimRight(s: seq<Rune>)
    ensures Ink(TrimRight(s)) == Ink(s)
  {
    if s != [] && IsSpace(s[|s| - 1]) {
      InkTrimRight(s[..|s| - 1]);
      InkConcat(s[..|s| - 1], [s[|s| - 1]]);
      assert s == s[..|s| - 1] + [s[|s| - 1]];
    }
  }

  /** Trimming loses no audible rune. */
  lemma InkTrim(s: seq<Rune>)
    ensures Ink(Trim(s)) == Ink(s)
  {
    InkTrimLeft(s);
    InkTrimRight(TrimLeft(s));
  }

  /** A text with something audible in it does not trim away. */
  lemma TrimKeeps(s: seq<Rune>, i: nat)
    requires i < |s| && !IsSpace(s[i])
    ensures Trim(s) != []
  {
    InkTrim(s);
    InkConcat(s[..i], s[i..]);
    assert s == s[..i] + s[i..];
  }

  /** The leading runes that are not white space. */
  function Lead(s: seq<Rune>): (w: seq<Rune>)
    ensures w <= s && (|w| < |s| ==> IsSpace(s[|w|]))
    ensures forall i :: 0 <= i < |w| ==> !IsSpace(w[i])
  {
    if s == [] || IsSpace(s[0]) then [] else [s[0]] + Lead(s[1..])
  }

  /** strings.Fields: the words of a text, as white space sets them apart. */
  function Words(s: seq<Rune>): seq<seq<Rune>>
    decreases |s|
  {
    if s == [] then []
    else if IsSpace(s[0]) then Words(s[1..])
    else [Lead(s)] + Words(s[|Lead(s)|..])
  }

  lemma NextWords(s: seq<Rune>)
    requires s != []
    ensures var blank := IsSpace(s[0]);
      Words(s) == (if blank then [] else [Lead(s)]) + Words(s[if blank then 1 else |Lead(s)|..])
  {
    hide IsSpace;
  }

  lemma CutConcat(a: seq<Rune>, b: seq<Rune>, n: nat)
    requires a != [] && n <= |a|
    ensures (a + b)[0] == a[0] && (a + b)[n..] == a[n..] + b
  {
  }

  lemma AssocWords(a: seq<seq<Rune>>, b: seq<seq<Rune>>, c: seq<seq<Rune>>)
    ensures a + (b + c) == a + b + c
  {
  }

  /** A cut next to white space splits no word. */
  lemma {:induction false} WordsConcat(a: seq<Rune>, b: seq<Rune>)
    requires a == [] || b == [] || IsSpace(a[|a| - 1]) || IsSpace(b[0])
    ensures Words(a + b) == Words(a) + Words(b)
    decreases |a|
  {
    hide IsSpace, Words, Lead;
    if a == [] {
      assert a + b == b && [] + Words(b) == Words(b);
      WordsOfBlank([]);
    } else {
      var n := if IsSpace(a[0]) then 1 else |Lead(a)|;
      if !IsSpace(a[0]) {
        LeadConcat(a, b);
      }
      CutConcat(a, b, n);
      WordsConcat(a[n..], b);
      NextWords(a);
      NextWords(a + b);
      AssocWords(if IsSpace(a[0]) then [] else [Lead(a)], Words(a[n..]), Words(b));
    }
  }

  lemma {:induction false} LeadConcat(a: seq<Rune>, b: seq<Rune>)
    requires a != [] && (b == [] || IsSpace(a[|a| - 1]) || IsSpace(b[0]))
    ensures Lead(a + b) == Lead(a)
  {
    hide IsSpace;
    if !IsSpace(a[0]) {
      assert (a + b)[1..] == a[1..] + b;
      if |a| > 1 {
        LeadConcat(a[1..], b);
      } else {
        assert a[1..] == [] && a[1..] + b == b;
      }
    }
  }

  lemma {:induction false} WordsOfBlank(s: seq<Rune>)
    requires forall i :: 0 <= i < |s| ==> IsSpace(s[i])
    ensures Words(s) == []
  {
    if s != [] {
      WordsOfBlank(s[1..]);
    }
  }

  lemma WordsApart(a: seq<Rune>, b: seq<Rune>)
    ensures Words(a + [SPACE] + b) == Words(a) + Words(b)
  {
    assert IsSpace(SPACE);
    hide Words, IsSpace;
    var open := a + [SPACE];
    assert open[|open| - 1] == SPACE;
    WordsConcat(a, [SPACE]);
    WordsOfBlank([SPACE]);
    assert Words(open) == Words(a);
    WordsConcat(open, b);
  }

  /** Without white space inside. */
  predicate Solid(w: seq<Rune>) { w != [] && forall i :: 0 <= i < |w| ==> !IsSpace(w[i]) }

  lemma SolidIsOneWord(w: seq<Rune>)
    requires Solid(w)
    ensures Words(w) == [w]
  {
    hide IsSpace;
    assert Lead(w) == w && w[|w|..] == [];
  }

  lemma {:induction false} WordsTrimLeft(s: seq<Rune>)
    ensures Words(TrimLeft(s)) == Words(s)
  {
    if s != [] && IsSpace(s[0]) {
      WordsTrimLeft(s[1..]);
    }
  }

  lemma {:induction false} WordsTrimRight(s: seq<Rune>)
    ensures Words(TrimRight(s)) == Words(s)
  {
    hide IsSpace, Words;
    if s != [] && IsSpace(s[|s| - 1]) {
      var front, last := s[..|s| - 1], s[|s| - 1..];
      WordsTrimRight(front);
      WordsConcat(front, last);
      WordsOfBlank(last);
      assert s == front + last;
    }
  }

  /** Trimming loses no word. */
  lemma WordsTrim(s: seq<Rune>)
    ensures Words(Trim(s)) == Words(s)
  {
    WordsTrimLeft(s);
    WordsTrimRight(TrimLeft(s));
  }

  lemma {:induction false} TrimLeftWithin(s: seq<Rune>) returns (from: nat)
    ensures from <= |s| && TrimLeft(s) == s[from..]
  {
    if s != [] && IsSpace(s[0]) {
      from := TrimLeftWithin(s[1..]);
      from := from + 1;
    } else {
      from := 0;
    }
  }

  lemma TrimWithin(s: seq<Rune>) returns (from: nat, to: nat)
    ensures from <= to <= |s| && Trim(s) == s[from..to]
  {
    from := TrimLeftWithin(s);
    to := from + |Trim(s)|;
  }

  lemma {:induction false} WordFits(s: seq<Rune>, w: seq<Rune>)
    requires w in Words(s)
    ensures |w| <= |s|
    decreases |s|
  {
    hide IsSpace;
    if IsSpace(s[0]) {
      WordFits(s[1..], w);
    } else if w != Lead(s) {
      WordFits(s[|Lead(s)|..], w);
    }
  }

  /** A run without white space lies in one word. */
  lemma {:induction false} RunInWord(s: seq<Rune>, i: nat, j: nat) returns (w: seq<Rune>)
    requires i < j <= |s| && forall k :: i <= k < j ==> !IsSpace(s[k])
    ensures w in Words(s) && j - i <= |w|
    decreases |s|
  {
    hide IsSpace;
    var n := if IsSpace(s[0]) then 1 else |Lead(s)|;
    if IsSpace(s[0]) || n <= i {
      assert forall k :: i - n <= k < j - n ==> s[n..][k] == s[k + n];
      w := RunInWord(s[n..], i - n, j - n);
    } else {
      w := Lead(s);
      assert |w| < |s| ==> IsSpace(s[|w|]);
    }
  }
}
