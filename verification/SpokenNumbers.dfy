/** Numbers as English words: intToWords and threeDigitWords in
    internal/speech/naturalize.go, and a strict reader of such words. */
module SpokenNumbers {
  import opened Wrappers

  /** The number words: the small numbers, the tens from twenty, "hundred" and the scales. */
  function Vocabulary(): seq<string> {
    [
      "zero", "one", "two", "three", "four", "five", "six", "seven", "eight", "nine",
      "ten", "eleven", "twelve", "thirteen", "fourteen", "fifteen", "sixteen",
      "seventeen", "eighteen", "nineteen",
      "twenty", "thirty", "forty", "fifty", "sixty", "seventy", "eighty", "ninety",
      "hundred",
      "quintillion", "quadrillion", "trillion", "billion", "million", "thousand"]
  }

  const INT64: int := 0x8000_0000_0000_0000

  function ScaleValue(k: nat): (v: int)
    requires k <= 6
    ensures v > 0
  {
    if k == 0 then 1_000_000_000_000_000_000
    else if k == 1 then 1_000_000_000_000_000
    else if k == 2 then 1_000_000_000_000
    else if k == 3 then 1_000_000_000
    else if k == 4 then 1_000_000
    else if k == 5 then 1_000
    else 1
  }

  function Vocab(i: nat): string
    requires i < 35
  {
    Vocabulary()[i]
  }

  function Small(i: nat): string
    requires i < 20
  {
    Vocab(i)
  }

  function Tens(i: nat): string
    requires 2 <= i < 10
  {
    Vocab(18 + i)
  }

  function ScaleName(k: nat): string
    requires k < 6
  {
    Vocab(29 + k)
  }

  // What a listener takes each number word for.

  lemma ZeroToFour()
    ensures Small(0) == "zero" && Small(1) == "one" && Small(2) == "two" && Small(3) == "three" && Small(4) == "four"
  {
  }

  lemma FiveToNine()
    ensures Small(5) == "five" && Small(6) == "six" && Small(7) == "seven" && Small(8) == "eight" && Small(9) == "nine"
  {
  }

  lemma TenToFourteen()
    ensures Small(10) == "ten" && Small(11) == "eleven" && Small(12) == "twelve" && Small(13) == "thirteen"
    ensures Small(14) == "fourteen"
  {
  }

  lemma FifteenToNineteen()
    ensures Small(15) == "fifteen" && Small(16) == "sixteen" && Small(17) == "seventeen"
    ensures Small(18) == "eighteen" && Small(19) == "nineteen"
  {
  }

  lemma TensWordsAreEnglish()
    ensures Tens(2) == "twenty" && Tens(3) == "thirty" && Tens(4) == "forty" && Tens(5) == "fifty"
    ensures Tens(6) == "sixty" && Tens(7) == "seventy" && Tens(8) == "eighty" && Tens(9) == "ninety"
  {
  }

  lemma ScaleWordsAreEnglish()
    ensures (ScaleName(5), ScaleValue(5)) == ("thousand", 1_000)
    ensures (ScaleName(4), ScaleValue(4)) == ("million", 1_000_000)
    ensures (ScaleName(3), ScaleValue(3)) == ("billion", 1_000_000_000)
    ensures (ScaleName(2), ScaleValue(2)) == ("trillion", 1_000_000_000_000)
    ensures (ScaleName(1), ScaleValue(1)) == ("quadrillion", 1_000_000_000_000_000)
    ensures (ScaleName(0), ScaleValue(0)) == ("quintillion", 1_000_000_000_000_000_000)
  {
  }

  // ---------------------------------------------------------------- speaking

  /** strings.Join(parts, " "). */
  function Join(parts: seq<string>): string {
    if parts == [] then "" else if |parts| == 1 then parts[0] else parts[0] + " " + Join(parts[1..])
  }

  function BelowHundred(r: nat): seq<string>
    requires r < 100
  {
    if r >= 20 then [if r % 10 > 0 then Tens(r / 10) + ("-" + Small(r % 10)) else Tens(r / 10)]
    else if r > 0 then [Small(r)]
    else []
  }

  function Hundreds(v: nat): seq<string>
    requires v < 1000
  {
    if v >= 100 then [Small(v / 100), "hundred"] else []
  }

  function ThreeDigit(v: nat): string
    requires v < 1000
  {
    Join(Hundreds(v) + BelowHundred(v % 100))
  }

  /** The parts spoken for n from the k-th scale on. */
  function Parts(n: nat, k: nat): seq<string>
    requires k <= 6 && n < 1000 * ScaleValue(k)
    decreases 6 - k
  {
    if k == 6 then if n > 0 then [ThreeDigit(n)] else []
    else if n >= ScaleValue(k) then [ThreeDigit(n / ScaleValue(k)), ScaleName(k)] + Parts(n % ScaleValue(k), k + 1)
    else Parts(n, k + 1)
  }

  function IntWords(n: nat): string
    requires n < INT64
  {
    if n == 0 then "zero" else Join(Parts(n, 0))
  }

  /** Tens and units are joined by a hyphen. */
  lemma TwentyFive()
    ensures ThreeDigit(25) == "twenty-five"
  {
    FiveToNine();
    TensWordsAreEnglish();
    hide Small, Tens;
    assert Hundreds(25) + BelowHundred(25) == BelowHundred(25);
  }

  method ThreeDigitWords(value: nat) returns (words: string)
    requires value < 1000
    ensures words == ThreeDigit(value)
  {
    hide Join, Small, Tens;
    var parts: seq<string> := [];
    var rest := value;
    if rest >= 100 {
      parts := parts + [Small(rest / 100), "hundred"];
      rest := rest % 100;
    }
    if rest >= 20 {
      var w := Tens(rest / 10);
      if rest % 10 > 0 {
        w := w + ("-" + Small(rest % 10));
      }
      parts := parts + [w];
    } else if rest > 0 {
      parts := parts + [Small(rest)];
    }
    assert parts == Hundreds(value) + BelowHundred(value % 100);
    words := Join(parts);
  }

  lemma LargestScale(n: nat)
    requires n < INT64
    ensures n < 1000 * ScaleValue(0)
  {
  }

  lemma PartsStep(done: seq<string>, n: nat, k: nat)
    requires k < 6 && n < 1000 * ScaleValue(k)
    ensures n < ScaleValue(k) ==> n < 1000 * ScaleValue(k + 1) && Parts(n, k) == Parts(n, k + 1)
    ensures n >= ScaleValue(k) ==> 0 < n / ScaleValue(k) < 1000 && 0 <= n % ScaleValue(k) < 1000 * ScaleValue(k + 1)
    ensures n >= ScaleValue(k) ==>
      done + Parts(n, k) == done + [ThreeDigit(n / ScaleValue(k)), ScaleName(k)] + Parts(n % ScaleValue(k), k + 1)
  {
    hide ThreeDigit, ScaleName;
  }

  lemma LastPart(done: seq<string>, n: nat)
    requires n < 1000 * ScaleValue(6)
    ensures n < 1000
    ensures done + Parts(n, 6) == if n > 0 then done + [ThreeDigit(n)] else done
  {
    hide ThreeDigit;
  }

  /** Spells a whole number the way a person reads a count aloud. */
  method IntToWords(value: int) returns (words: string)
    requires -INT64 < value < INT64
    ensures words == if value < 0 then "minus " + IntWords(-value) else IntWords(value)
    decreases if value < 0 then 1 else 0
  {
    hide Join, ThreeDigit, ScaleName, ScaleValue, Parts;
    if value == 0 { return "zero"; }
    if value < 0 {
      words := IntToWords(-value);
      return "minus " + words;
    }
    var parts: seq<string> := [];
    var rest := value;
    LargestScale(value);
    for k := 0 to 6
      invariant 0 <= rest < 1000 * ScaleValue(k)
      invariant parts + Parts(rest, k) == Parts(value, 0)
    {
      PartsStep(parts, rest, k);
      if rest >= ScaleValue(k) {
        var group := ThreeDigitWords(rest / ScaleValue(k));
        parts := parts + [group, ScaleName(k)];
        rest := rest % ScaleValue(k);
      }
    }
    LastPart(parts, rest);
    if rest > 0 {
      var group := ThreeDigitWords(rest);
      parts := parts + [group];
    }
    words := Join(parts);
  }

  // ----------------------------------------------------------------- reading

  predicate IsSeparator(c: char) { c == ' ' || c == '-' }

  /** The words between blanks and hyphens. */
  function Tokens(s: string): (ts: seq<string>)
    ensures ts != []
  {
    if s == "" then [""] else Prepend(s[0], Tokens(s[1..]))
  }

  function Prepend(c: char, ts: seq<string>): (r: seq<string>)
    requires ts != []
    ensures r != []
  {
    if IsSeparator(c) then [""] + ts else [[c] + ts[0]] + ts[1..]
  }

  datatype Word = Number(n: nat) | Ten(n: nat) | Hundred | Scale(n: nat) | Other

  function WordAt(i: nat): Word
    requires i < 35
  {
    if i < 20 then Number(i)
    else if i < 28 then Ten(10 * (i - 18))
    else if i == 28 then Hundred
    else Scale(ScaleValue(i - 29))
  }

  ghost function Meaning(w: string): Word {
    if w in Vocabulary() then var i :| 0 <= i < 35 && Vocabulary()[i] == w; WordAt(i) else Other
  }

  lemma SmallDistinct(i: nat, j: nat)
    requires i < j < 20
    ensures Vocabulary()[i] != Vocabulary()[j]
  {
  }

  lemma LargeDistinct(i: nat, j: nat)
    requires 20 <= i < j < 35
    ensures Vocabulary()[i] != Vocabulary()[j]
  {
  }

  lemma SmallFromLarge(i: nat, j: nat)
    requires i < 20 <= j < 35
    ensures Vocabulary()[i] != Vocabulary()[j]
  {
  }

  lemma VocabularyDistinct(i: nat, j: nat)
    requires i < j < 35
    ensures Vocabulary()[i] != Vocabulary()[j]
  {
    if j < 20 {
      SmallDistinct(i, j);
    } else if i >= 20 {
      LargeDistinct(i, j);
    } else {
      SmallFromLarge(i, j);
    }
  }

  /** A single word: nothing a separator could split. */
  ghost predicate IsWord(w: string) {
    w != "" && forall c :: c in w ==> 'a' <= c <= 'z'
  }

  lemma SmallIsWord(i: nat)
    requires i < 20
    ensures IsWord(Vocabulary()[i])
  {
  }

  lemma LargeIsWord(i: nat)
    requires 20 <= i < 35
    ensures IsWord(Vocabulary()[i])
  {
  }

  lemma VocabularyIsWords(i: nat)
    requires i < 35
    ensures IsWord(Vocabulary()[i])
  {
    if i < 20 {
      SmallIsWord(i);
    } else {
      LargeIsWord(i);
    }
  }

  lemma MeaningAt(i: nat)
    requires i < 35
    ensures Meaning(Vocabulary()[i]) == WordAt(i)
  {
    var w := Vocabulary()[i];
    assert w in Vocabulary();
    hide WordAt;
    var j :| 0 <= j < 35 && Vocabulary()[j] == w && Meaning(w) == WordAt(j);
    if i < j { VocabularyDistinct(i, j); }
    if j < i { VocabularyDistinct(j, i); }
  }

  lemma {:induction false} WordIsToken(w: string)
    requires IsWord(w)
    ensures Tokens(w) == [w]
  {
    assert w[0] in w;
    if |w| > 1 {
      assert forall c :: c in w[1..] ==> c in w;
      WordIsToken(w[1..]);
    } else {
      assert Tokens("") == [""];
    }
    assert w == [w[0]] + w[1..];
  }

  lemma PrependSeparator(sep: char, ts: seq<string>)
    requires IsSeparator(sep) && ts != []
    ensures Prepend(sep, ts) == [""] + ts
  {
  }

  lemma PrependConcat(c: char, a: seq<string>, b: seq<string>)
    requires a != []
    ensures Prepend(c, a + b) == Prepend(c, a) + b
  {
  }

  lemma {:induction false} TokensConcat(a: string, sep: char, b: string)
    requires IsSeparator(sep)
    ensures Tokens(a + [sep] + b) == Tokens(a) + Tokens(b)
  {
    hide Prepend;
    var s := a + [sep] + b;
    if a == "" {
      assert s[1..] == b;
      assert Prepend(sep, Tokens(b)) == [""] + Tokens(b) by { PrependSeparator(sep, Tokens(b)); }
    } else {
      TokensConcat(a[1..], sep, b);
      assert s[1..] == a[1..] + [sep] + b;
      PrependConcat(a[0], Tokens(a[1..]), Tokens(b));
    }
  }

  function AllTokens(parts: seq<string>): seq<string> {
    if parts == [] then [] else Tokens(parts[0]) + AllTokens(parts[1..])
  }

  lemma {:induction false} TokensOfJoin(parts: seq<string>)
    requires parts != []
    ensures Tokens(Join(parts)) == AllTokens(parts)
  {
    hide Tokens;
    if |parts| > 1 {
      TokensOfJoin(parts[1..]);
      TokensConcat(parts[0], ' ', Join(parts[1..]));
      assert parts[0] + " " + Join(parts[1..]) == parts[0] + [' '] + Join(parts[1..]);
    } else {
      assert AllTokens(parts[1..]) == [];
    }
  }

  lemma Assoc(a: seq<string>, b: seq<string>, c: seq<string>)
    ensures a + b + c == a + (b + c)
  {
  }

  lemma {:induction false} AllTokensConcat(a: seq<string>, b: seq<string>)
    ensures AllTokens(a + b) == AllTokens(a) + AllTokens(b)
  {
    hide Tokens;
    if a == [] {
      assert a + b == b;
    } else {
      AllTokensConcat(a[1..], b);
      assert (a + b)[1..] == a[1..] + b;
      Assoc(Tokens(a[0]), AllTokens(a[1..]), AllTokens(b));
    }
  }

  /** Words read so far: full groups in `total`, the open group, the bound on what may
      still be added to it, and the last scale named. */
  datatype Reading = Reading(total: nat, group: nat, room: nat, scale: nat)

  const START: Reading := Reading(0, 0, 1000, 1_000_000_000_000_000_000_000)

  function Times(a: nat, b: nat): nat { a * b }

  /** English is strict: the parts of a group fall in size, a hundred is counted by a
      digit, and scales fall from the largest. */
  function Step(r: Reading, w: Word): Option<Reading> {
    match w
    case Number(n) => if 0 < n < r.room then Some(Reading(r.total, r.group + n, 1, r.scale)) else None
    case Ten(n) => if n < r.room then Some(Reading(r.total, r.group + n, 10, r.scale)) else None
    case Hundred => if 0 < r.group < 10 then Some(Reading(r.total, 100 * r.group, 100, r.scale)) else None
    case Scale(v) => if r.group > 0 && v < r.scale then Some(Reading(r.total + Times(r.group, v), 0, 1000, v)) else None
    case Other => None
  }

  ghost function Run(r: Reading, ts: seq<string>): Option<Reading>
    decreases |ts|
  {
    if ts == [] then Some(r)
    else
      var next := Step(r, Meaning(ts[0]));
      if next.None? then None else Run(next.value, ts[1..])
  }

  /** The number a list of words names. */
  ghost function ReadWords(ts: seq<string>): Option<nat> {
    if ts == ["zero"] then Some(0)
    else
      var r := Run(START, ts);
      if r.None? || r.value.total + r.value.group == 0 then None else Some(r.value.total + r.value.group)
  }

  ghost function ReadNumber(text: string): Option<nat> { ReadWords(Tokens(text)) }

  lemma {:induction false} RunConcat(r: Reading, a: seq<string>, b: seq<string>)
    decreases |a|
    ensures Run(r, a + b) == if Run(r, a).None? then None else Run(Run(r, a).value, b)
  {
    hide Meaning, Step;
    if a == [] {
      assert a + b == b;
    } else {
      assert (a + b)[1..] == a[1..] + b;
      var next := Step(r, Meaning(a[0]));
      if next.Some? {
        RunConcat(next.value, a[1..], b);
      }
    }
  }

  lemma RunOne(r: Reading, w: string)
    ensures Run(r, [w]) == Step(r, Meaning(w))
  {
    hide Meaning, Step;
    var next := Step(r, Meaning(w));
    if next.Some? {
      assert Run(next.value, [w][1..]) == next;
    }
  }

  /** Reading one vocabulary word. */
  lemma RunWord(r: Reading, i: nat)
    requires i < 35
    ensures Tokens(Vocab(i)) == [Vocab(i)]
    ensures Run(r, [Vocab(i)]) == Step(r, WordAt(i))
  {
    VocabularyIsWords(i);
    WordIsToken(Vocab(i));
    MeaningAt(i);
    RunOne(r, Vocab(i));
  }

  // ------------------------------------------------- what is spoken reads back

  function TensTokens(v: nat): seq<string>
    requires v < 100
  {
    if v >= 20 then if v % 10 > 0 then [Vocab(18 + v / 10), Vocab(v % 10)] else [Vocab(18 + v / 10)]
    else if v > 0 then [Vocab(v)]
    else []
  }

  function HundredTokens(v: nat): seq<string>
    requires v < 1000
  {
    if v >= 100 then [Vocab(v / 100), Vocab(28)] else []
  }

  lemma TensTokensAre(v: nat)
    requires v < 100
    ensures AllTokens(BelowHundred(v)) == TensTokens(v)
  {
    hide Tokens, Vocab, Run;
    if v >= 20 {
      RunWord(START, 18 + v / 10);
      if v % 10 > 0 {
        RunWord(START, v % 10);
        TokensConcat(Tens(v / 10), '-', Small(v % 10));
        assert Tens(v / 10) + ("-" + Small(v % 10)) == Tens(v / 10) + ['-'] + Small(v % 10);
      }
    } else if v > 0 {
      RunWord(START, v);
    }
  }

  lemma GroupTokensAre(v: nat)
    requires 0 < v < 1000
    ensures Tokens(ThreeDigit(v)) == HundredTokens(v) + TensTokens(v % 100)
  {
    hide Tokens, Vocab, Run, BelowHundred, Join;
    assert Hundreds(v) + BelowHundred(v % 100) != [] by { GroupIsSpoken(v); }
    TokensOfJoin(Hundreds(v) + BelowHundred(v % 100));
    AllTokensConcat(Hundreds(v), BelowHundred(v % 100));
    TensTokensAre(v % 100);
    if v >= 100 {
      RunWord(START, v / 100);
      RunWord(START, 28);
      assert Vocab(28) == "hundred" by { TheHundred(); }
      assert AllTokens(Hundreds(v)) == Tokens(Vocab(v / 100)) + AllTokens(Hundreds(v)[1..]);
    }
  }

  lemma GroupIsSpoken(v: nat)
    requires 0 < v < 1000
    ensures Hundreds(v) + BelowHundred(v % 100) != []
  {
  }

  lemma TheHundred()
    ensures Vocab(28) == "hundred"
  {
  }

  lemma RunTwo(r: Reading, i: nat, j: nat)
    requires i < 35 && j < 35
    ensures Run(r, [Vocab(i), Vocab(j)]) ==
      if Step(r, WordAt(i)).None? then None else Step(Step(r, WordAt(i)).value, WordAt(j))
  {
    hide Vocab, Run, Step;
    RunConcat(r, [Vocab(i)], [Vocab(j)]);
    assert [Vocab(i)] + [Vocab(j)] == [Vocab(i), Vocab(j)];
    RunWord(r, i);
    if Step(r, WordAt(i)).Some? {
      RunWord(Step(r, WordAt(i)).value, j);
    }
  }

  ghost predicate Reads(r: Reading, ts: seq<string>, group: nat) {
    var after := Run(r, ts);
    after.Some? && after.value.total == r.total && after.value.group == group && after.value.scale == r.scale
  }

  lemma TensRead(r: Reading, v: nat)
    requires v < 100 && r.room >= 100
    ensures Reads(r, TensTokens(v), r.group + v)
  {
    hide Vocab, Run;
    if v >= 20 {
      if v % 10 > 0 {
        RunTwo(r, 18 + v / 10, v % 10);
      } else {
        RunWord(r, 18 + v / 10);
      }
    } else if v > 0 {
      RunWord(r, v);
    } else {
      RunNothing(r);
    }
  }

  lemma RunNothing(r: Reading)
    ensures Run(r, []) == Some(r)
  {
  }

  /** A group of up to three digits reads back as its number. */
  lemma GroupReads(r: Reading, v: nat)
    requires 0 < v < 1000 && r.group == 0 && r.room == 1000
    ensures Reads(r, Tokens(ThreeDigit(v)), v)
  {
    hide Vocab, Run, TensTokens, ThreeDigit;
    GroupTokensAre(v);
    if v >= 100 {
      RunTwo(r, v / 100, 28);
      RunConcat(r, HundredTokens(v), TensTokens(v % 100));
      TensRead(Run(r, HundredTokens(v)).value, v % 100);
    } else {
      assert HundredTokens(v) + TensTokens(v % 100) == TensTokens(v % 100);
      TensRead(r, v);
    }
  }

  lemma {:induction false} NoParts(k: nat)
    requires k <= 6
    ensures Parts(0, k) == []
    decreases 6 - k
  {
    if k < 6 { NoParts(k + 1); }
  }

  lemma {:induction false} TokensOfTwo(a: string, b: string)
    requires Tokens(b) == [b]
    ensures AllTokens([a, b]) == Tokens(a) + [b]
  {
    hide Tokens;
    AllTokensConcat([a], [b]);
    assert [a] + [b] == [a, b];
    assert AllTokens([a]) == Tokens(a) && AllTokens([b]) == Tokens(b);
  }

  lemma StepScale(r: Reading, k: nat)
    requires k < 6 && r.group > 0 && r.scale > ScaleValue(k)
    ensures Tokens(ScaleName(k)) == [ScaleName(k)]
    ensures Run(r, [ScaleName(k)]) == Some(Reading(r.total + Times(r.group, ScaleValue(k)), 0, 1000, ScaleValue(k)))
  {
    hide Vocab, Run, Tokens, ScaleValue, Times;
    RunWord(r, 29 + k);
  }

  lemma ScaledGroupTokens(v: nat, k: nat)
    requires 0 < v < 1000 && k < 6
    ensures AllTokens([ThreeDigit(v), ScaleName(k)]) == Tokens(ThreeDigit(v)) + [ScaleName(k)]
  {
    hide ThreeDigit, Tokens, AllTokens, Run;
    RunWord(START, 29 + k);
    TokensOfTwo(ThreeDigit(v), ScaleName(k));
  }

  ghost predicate Lands(r: Reading, ts: seq<string>, after: Reading) { Run(r, ts) == Some(after) }

  lemma ScaledGroupReads(r: Reading, v: nat, k: nat)
    requires 0 < v < 1000 && k < 6 && r.group == 0 && r.room == 1000 && r.scale > ScaleValue(k)
    ensures Lands(r, Tokens(ThreeDigit(v)) + [ScaleName(k)],
                  Reading(r.total + Times(v, ScaleValue(k)), 0, 1000, ScaleValue(k)))
  {
    hide Run, ThreeDigit, Tokens, ScaleName, ScaleValue, Times;
    var ts := Tokens(ThreeDigit(v));
    GroupReads(r, v);
    RunConcat(r, ts, [ScaleName(k)]);
    StepScale(Run(r, ts).value, k);
  }

  lemma ScaleSplit(n: nat, k: nat)
    requires k < 6
    ensures n == (n / ScaleValue(k)) * ScaleValue(k) + n % ScaleValue(k)
    ensures ScaleValue(k + 1) < ScaleValue(k)
  {
  }

  ghost predicate AddsUp(r: Reading, ts: seq<string>, n: nat) {
    var after := Run(r, ts);
    after.Some? && after.value.total + after.value.group == r.total + n
  }

  lemma {:induction false} PartsRead(r: Reading, n: nat, k: nat)
    requires k <= 6 && n < 1000 * ScaleValue(k)
    requires r.group == 0 && r.room == 1000 && r.scale > ScaleValue(k)
    ensures AddsUp(r, AllTokens(Parts(n, k)), n)
    decreases 6 - k
  {
    hide Vocab, Run, ThreeDigit, Tokens, ScaleName, ScaleValue, AllTokens, Parts;
    if k == 6 {
      LastPart([], n);
      LastPartReads(r, n);
    } else {
      PartsStep([], n, k);
      ScaleSplit(n, k);
      if n >= ScaleValue(k) {
        var v, rest := n / ScaleValue(k), n % ScaleValue(k);
        ScaledGroupReads(r, v, k);
        ScaledGroupTokens(v, k);
        var middle := Reading(r.total + Times(v, ScaleValue(k)), 0, 1000, ScaleValue(k));
        PartsRead(middle, rest, k + 1);
        AllTokensConcat([ThreeDigit(v), ScaleName(k)], Parts(rest, k + 1));
        assert [] + Parts(n, k) == Parts(n, k);
        assert [] + [ThreeDigit(v), ScaleName(k)] + Parts(rest, k + 1) ==
          [ThreeDigit(v), ScaleName(k)] + Parts(rest, k + 1);
        RunConcat(r, Tokens(ThreeDigit(v)) + [ScaleName(k)], AllTokens(Parts(rest, k + 1)));
      } else {
        PartsRead(r, n, k + 1);
      }
    }
  }

  lemma LastPartReads(r: Reading, n: nat)
    requires n < 1000 && r.group == 0 && r.room == 1000
    requires n < 1000 * ScaleValue(6)
    ensures AddsUp(r, AllTokens(Parts(n, 6)), n)
  {
    hide Vocab, ThreeDigit, Tokens;
    if n > 0 {
      GroupReads(r, n);
      assert AllTokens([ThreeDigit(n)]) == Tokens(ThreeDigit(n)) + AllTokens([ThreeDigit(n)][1..]);
      assert Tokens(ThreeDigit(n)) + [] == Tokens(ThreeDigit(n));
    }
  }

  lemma ZeroReads()
    ensures Tokens("zero") == ["zero"]
    ensures Run(START, ["zero"]) == None
  {
    RunWord(START, 0);
  }

  /** Reading the words back gives the number, for every number an int64 can hold. */
  lemma NumberReadsBack(n: nat)
    requires n < INT64
    ensures ReadNumber(IntWords(n)) == Some(n)
  {
    ZeroReads();
    hide Run, Parts, ScaleValue, Tokens, Join;
    if n > 0 {
      LargestScale(n);
      TopScale();
      PartsRead(START, n, 0);
      SomeParts(n, 0);
      TokensOfJoin(Parts(n, 0));
    }
  }

  lemma {:induction false} SomeParts(n: nat, k: nat)
    requires k <= 6 && 0 < n < 1000 * ScaleValue(k)
    ensures Parts(n, k) != []
    decreases 6 - k
  {
    if k < 6 && n < ScaleValue(k) { SomeParts(n, k + 1); }
  }

  lemma TopScale()
    ensures START.scale > ScaleValue(0)
  {
  }

  // ------------------------------------------------------- what words can stand there

  predicate InVocabulary(w: string) { w in Vocabulary() }

  lemma {:induction false} OneToken(w: string)
    requires forall i :: 0 <= i < |w| ==> !IsSeparator(w[i])
    ensures Tokens(w) == [w]
  {
    if w != "" {
      OneToken(w[1..]);
      assert w == [w[0]] + w[1..];
    }
  }

  /** Whatever reads as a number consists of number words. */
  lemma {:induction false} RunStaysInVocabulary(r: Reading, ts: seq<string>)
    requires Run(r, ts).Some?
    ensures forall t :: t in ts ==> t in Vocabulary()
    decreases |ts|
  {
    if ts != [] {
      assert Meaning(ts[0]) != Other;
      RunStaysInVocabulary(Step(r, Meaning(ts[0])).value, ts[1..]);
      hide Run, Meaning, Step;
      forall t | t in ts ensures t in Vocabulary() {
        if t != ts[0] {
          var k :| 0 <= k < |ts| && ts[k] == t;
          assert ts[1..][k - 1] == t;
        }
      }
    }
  }

  lemma ZeroWord()
    ensures "zero" in Vocabulary() && Vocab(0) == "zero"
  {
    assert Vocabulary()[0] == "zero";
  }
}
