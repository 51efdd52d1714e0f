/** Ordinals as English words: ordinalWords in internal/speech/tokens.go. */
module SpokenOrdinals {
  import opened SpokenNumbers
  import opened Wrappers

  /** The last word of an ordinal, made from the last word of the cardinal. */
  function OrdinalWord(w: string): string {
    if w == "zero" then "zeroth"
    else if w == "one" then "first"
    else if w == "two" then "second"
    else if w == "three" then "third"
    else if w == "five" then "fifth"
    else if w == "eight" then "eighth"
    else if w == "nine" then "ninth"
    else if w == "twelve" then "twelfth"
    else if w != "" && w[|w| - 1] == 'y' then w[..|w| - 1] + "ieth"
    else w + "th"
  }

  /** strings.LastIndexAny(s, " -") + 1. */
  function LastCut(s: string): (cut: nat)
    ensures cut <= |s|
    ensures cut > 0 ==> IsSeparator(s[cut - 1])
    ensures forall i :: cut <= i < |s| ==> !IsSeparator(s[i])
  {
    if s == "" || IsSeparator(s[|s| - 1]) then |s| else LastCut(s[..|s| - 1])
  }

  function OrdinalText(words: string): string {
    words[..LastCut(words)] + OrdinalWord(words[LastCut(words)..])
  }

  lemma EndReplaced(words: string, cut: nat, end: nat, ending: string)
    requires cut <= end <= |words|
    ensures words[..cut] + (words[cut..][..end - cut] + ending) == words[..end] + ending
  {
    assert words[..cut] + words[cut..][..end - cut] == words[..end];
  }

  method OrdinalWords(n: int) returns (ordinal: string)
    requires -INT64 < n < INT64
    ensures ordinal == OrdinalText(if n < 0 then "minus " + IntWords(-n) else IntWords(n))
  {
    hide IntWords, LastCut;
    var words := IntToWords(n);
    var cut := LastCut(words);
    var last := words[cut..];
    var special := map["zero" := "zeroth", "one" := "first", "two" := "second", "three" := "third",
                       "five" := "fifth", "eight" := "eighth", "nine" := "ninth", "twelve" := "twelfth"];
    if last in special {
      return words[..cut] + special[last];
    }
    if |last| > 0 && last[|last| - 1] == 'y' {
      EndReplaced(words, cut, |words| - 1, "ieth");
      return words[..|words| - 1] + "ieth";
    }
    EndReplaced(words, cut, |words|, "th");
    assert words[..|words|] == words && last[..|last|] == last;
    return words + "th";
  }

  /** The cardinal word an ordinal word was made from. */
  function CardinalWord(o: string): string {
    if o == "zeroth" then "zero"
    else if o == "first" then "one"
    else if o == "second" then "two"
    else if o == "third" then "three"
    else if o == "fifth" then "five"
    else if o == "eighth" then "eight"
    else if o == "ninth" then "nine"
    else if o == "twelfth" then "twelve"
    else if |o| >= 4 && o[|o| - 4..] == "ieth" then o[..|o| - 4] + "y"
    else if |o| >= 2 then o[..|o| - 2]
    else o
  }

  /** The irregular ordinals, and how the regular ones are formed. */
  lemma OrdinalsAreEnglish(stem: string)
    ensures OrdinalWord("zero") == "zeroth" && OrdinalWord("one") == "first" && OrdinalWord("two") == "second"
    ensures OrdinalWord("three") == "third" && OrdinalWord("five") == "fifth" && OrdinalWord("eight") == "eighth"
    ensures OrdinalWord("nine") == "ninth" && OrdinalWord("twelve") == "twelfth"
    ensures OrdinalWord(stem + "y") == stem + "ieth"
    ensures stem != "" && stem[|stem| - 1] !in {'y', 'o', 'e', 't'} ==> OrdinalWord(stem) == stem + "th"
  {
    var w := stem + "y";
    assert w[|w| - 1] == 'y' && w[..|w| - 1] == stem;
  }

  function CardinalText(ordinal: string): string {
    ordinal[..LastCut(ordinal)] + CardinalWord(ordinal[LastCut(ordinal)..])
  }

  predicate OrdinalReversible(w: string) {
    CardinalWord(OrdinalWord(w)) == w && OrdinalWord(w) != ""
  }

  predicate RegularEnd(w: string) {
    |w| >= 3 && w != "nin" && w[|w| - 1] in {'r', 'x', 'n', 'd'}
  }

  lemma RegularOrdinal(w: string)
    requires RegularEnd(w)
    ensures OrdinalWord(w) == w + "th"
  {
  }

  lemma RegularCardinal(w: string)
    requires RegularEnd(w)
    ensures CardinalWord(w + "th") == w
  {
    var o := w + "th";
    assert o[|o| - 3] == w[|w| - 1] && o[|o| - 2] == 't';
    assert o[..|o| - 2] == w;
    if |o| == 5 {
      assert w == [o[0], o[1], o[2]];
    }
    assert o[|o| - 4..][1] == o[|o| - 3];
  }

  lemma RegularBack(w: string)
    requires RegularEnd(w)
    ensures OrdinalWord(w) == w + "th" && OrdinalReversible(w)
  {
    RegularOrdinal(w);
    RegularCardinal(w);
    hide OrdinalWord, CardinalWord, RegularEnd;
  }

  lemma TensBack(w: string)
    requires |w| >= 2 && w[|w| - 1] == 'y'
    ensures OrdinalWord(w) == w[..|w| - 1] + "ieth" && OrdinalReversible(w)
  {
    var o := w[..|w| - 1] + "ieth";
    assert o[|o| - 4..] == "ieth";
    assert o[|o| - 4] == 'i' && o[|o| - 3] == 'e' && o[|o| - 2] == 't';
    assert o[..|o| - 4] + "y" == w;
  }

  predicate IrregularAt(i: nat) { i in {0, 1, 2, 3, 5, 8, 9, 12} }

  function IrregularOrdinal(i: nat): string
    requires IrregularAt(i)
  {
    if i == 0 then "zeroth" else if i == 1 then "first" else if i == 2 then "second" else if i == 3 then "third"
    else if i == 5 then "fifth" else if i == 8 then "eighth" else if i == 9 then "ninth" else "twelfth"
  }

  function IrregularCardinal(i: nat): string
    requires IrregularAt(i)
  {
    if i == 0 then "zero" else if i == 1 then "one" else if i == 2 then "two" else if i == 3 then "three"
    else if i == 5 then "five" else if i == 8 then "eight" else if i == 9 then "nine" else "twelve"
  }

  lemma IrregularIs(i: nat)
    requires IrregularAt(i)
    ensures Vocab(i) == IrregularCardinal(i)
  {
  }

  lemma IrregularForth(i: nat)
    requires IrregularAt(i)
    ensures OrdinalWord(IrregularCardinal(i)) == IrregularOrdinal(i)
  {
  }

  lemma IrregularBack(i: nat)
    requires IrregularAt(i)
    ensures CardinalWord(IrregularOrdinal(i)) == IrregularCardinal(i)
  {
  }

  lemma IrregularIsWord(i: nat)
    requires IrregularAt(i)
    ensures IsWord(IrregularOrdinal(i))
  {
  }

  lemma RegularAt(i: nat)
    requires i < 35 && !IrregularAt(i) && !(20 <= i < 28)
    ensures RegularEnd(Vocab(i))
  {
  }

  lemma TensAt(i: nat)
    requires 20 <= i < 28
    ensures |Vocab(i)| >= 2 && Vocab(i)[|Vocab(i)| - 1] == 'y'
  {
  }

  lemma Lengthened(w: string, n: nat, tail: string)
    requires IsWord(w) && IsWord(tail) && n <= |w|
    ensures IsWord(w[..n] + tail)
  {
    assert forall c :: c in w[..n] ==> c in w;
  }

  lemma Suffixes()
    ensures IsWord("th") && IsWord("ieth")
  {
  }

  lemma OrdinalWordBack(i: nat)
    requires i < 35
    ensures OrdinalReversible(Vocab(i)) && IsWord(OrdinalWord(Vocab(i)))
  {
    VocabularyIsWords(i);
    Suffixes();
    var w := Vocab(i);
    if IrregularAt(i) {
      IrregularIs(i);
      IrregularForth(i);
      IrregularBack(i);
      IrregularIsWord(i);
      hide Vocab, OrdinalWord, CardinalWord, IrregularOrdinal, IrregularCardinal;
    } else if 20 <= i < 28 {
      TensAt(i);
      hide Vocab, OrdinalWord, CardinalWord, IsWord, OrdinalReversible;
      TensBack(w);
      Lengthened(w, |w| - 1, "ieth");
    } else {
      RegularAt(i);
      hide Vocab, OrdinalWord, CardinalWord, IsWord, OrdinalReversible, RegularEnd;
      RegularBack(w);
      Lengthened(w, |w|, "th");
      assert w[..|w|] == w;
    }
  }

  lemma {:induction false} LastCutIs(s: string, cut: nat)
    requires cut <= |s| && (cut > 0 ==> IsSeparator(s[cut - 1])) && forall i :: cut <= i < |s| ==> !IsSeparator(s[i])
    ensures LastCut(s) == cut
  {
  }

  /** What the text ends in after its last separator is its last token. */
  lemma {:induction false} LastToken(s: string)
    ensures Tokens(s)[|Tokens(s)| - 1] == s[LastCut(s)..]
  {
    var cut := LastCut(s);
    if cut > 0 {
      assert s == s[..cut - 1] + [s[cut - 1]] + s[cut..];
      TokensConcat(s[..cut - 1], s[cut - 1], s[cut..]);
      OneToken(s[cut..]);
    } else {
      OneToken(s);
    }
  }

  lemma WordHasNoSeparator(w: string)
    requires IsWord(w)
    ensures forall i :: 0 <= i < |w| ==> !IsSeparator(w[i])
  {
    forall i | 0 <= i < |w| ensures !IsSeparator(w[i]) {
      assert w[i] in w;
    }
  }

  lemma KnownWordBack(w: string)
    requires InVocabulary(w)
    ensures CardinalWord(OrdinalWord(w)) == w
    ensures forall i :: 0 <= i < |OrdinalWord(w)| ==> !IsSeparator(OrdinalWord(w)[i])
  {
    var i :| 0 <= i < 35 && Vocabulary()[i] == w;
    assert Vocab(i) == w;
    hide Vocab, OrdinalWord, CardinalWord;
    OrdinalWordBack(i);
    WordHasNoSeparator(OrdinalWord(w));
  }

  /** Turning the last word into an ordinal can be undone on any text that ends in a number word. */
  lemma OrdinalUndone(words: string)
    requires InVocabulary(words[LastCut(words)..])
    ensures CardinalText(OrdinalText(words)) == words
  {
    hide OrdinalWord, CardinalWord, LastCut, IsSeparator, InVocabulary;
    var w := words[LastCut(words)..];
    KnownWordBack(w);
    LastReplaced(words, OrdinalWord(w));
  }

  lemma LastReplaced(words: string, o: string)
    requires forall i :: 0 <= i < |o| ==> !IsSeparator(o[i])
    ensures var s := words[..LastCut(words)] + o;
      LastCut(s) == LastCut(words) && s[..LastCut(s)] == words[..LastCut(words)] && s[LastCut(s)..] == o
  {
    var cut := LastCut(words);
    var s := words[..cut] + o;
    assert forall k :: cut <= k < |s| ==> s[k] == o[k - cut];
    LastCutIs(s, cut);
  }

  /** Ordinals lose nothing either: the cardinal, and so the number, can be read back. */
  lemma OrdinalReadsBack(n: nat)
    requires n < INT64
    ensures CardinalText(OrdinalText(IntWords(n))) == IntWords(n)
    ensures ReadNumber(CardinalText(OrdinalText(IntWords(n)))) == Some(n)
  {
    NumberReadsBack(n);
    hide IntWords, Tokens, Run, OrdinalText, CardinalText, LastCut;
    var words := IntWords(n);
    var ts := Tokens(words);
    if ts != ["zero"] {
      RunStaysInVocabulary(START, ts);
    } else {
      assert ts[0] in Vocabulary() by { ZeroWord(); }
    }
    LastToken(words);
    assert ts[|ts| - 1] in Vocabulary();
    OrdinalUndone(words);
  }
}
