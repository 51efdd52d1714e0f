/** Money amounts as English words: speakCurrency and groupDigits in
    internal/speech/tokens.go. */
module SpokenMoney {
  import opened Wrappers
  import opened SpokenNumbers
  import Text

  // ------------------------------------------------------------- digit strings

  predicate IsDigit(c: char) { '0' <= c <= '9' }

  predicate AllDigits(s: string) { forall i :: 0 <= i < |s| ==> IsDigit(s[i]) }

  function DigitOf(c: char): (d: nat)
    requires IsDigit(c)
    ensures d < 10
  {
    c as int - '0' as int
  }

  function DigitChar(d: nat): (c: char)
    requires d < 10
    ensures IsDigit(c) && DigitOf(c) == d
  {
    (d + '0' as int) as char
  }

  function ValueOf(s: string): nat
    requires AllDigits(s)
  {
    if s == "" then 0 else 10 * ValueOf(s[..|s| - 1]) + DigitOf(s[|s| - 1])
  }

  /** strconv.ParseInt(s, 10, 64) on text without a sign. */
  function ParseInt64(s: string): (r: Option<nat>)
    ensures r.Some? ==> r.value < INT64
  {
    if s != "" && AllDigits(s) && ValueOf(s) < INT64 then Some(ValueOf(s)) else None
  }

  /** The words groupDigits speaks, one for each digit and each plus sign. */
  function Spelled(s: string): seq<string> {
    if s == "" then []
    else
      var front, c := s[..|s| - 1], s[|s| - 1];
      Spelled(front) + (if IsDigit(c) then [Small(DigitOf(c))] else if c == '+' then ["plus"] else [])
  }

  /** Rune by rune: a digit is its word, a plus sign is "plus", anything else is passed over. */
  lemma SpelledMore(s: string, c: char)
    ensures '0' <= c <= '9' ==> Spelled(s + [c]) == Spelled(s) + [Small((c - '0') as int)]
    ensures c == '+' ==> Spelled(s + [c]) == Spelled(s) + ["plus"]
    ensures !('0' <= c <= '9') && c != '+' ==> Spelled(s + [c]) == Spelled(s)
    ensures Spelled("") == []
  {
    hide Small;
    assert (s + [c])[..|s|] == s;
  }

  method GroupDigits(value: string) returns (text: string)
    ensures text == Join(Spelled(value))
  {
    hide Small, Join, DigitOf;
    var words: seq<string> := [];
    for i := 0 to |value|
      invariant words == Spelled(value[..i])
    {
      assert value[..i + 1][..i] == value[..i];
      var r := value[i];
      if '0' <= r <= '9' {
        words := words + [Small(DigitOf(r))];
      } else if r == '+' {
        words := words + ["plus"];
      }
    }
    assert value[..|value|] == value;
    text := Join(words);
  }

  // ----------------------------------------------------------------- currencies

  /** The names of a currency's units, as lists of words. */
  datatype Units = Units(one: seq<string>, many: seq<string>, minorOne: seq<string>, minorMany: seq<string>)

  function Symbols(): seq<string> {
    ["$", "€", "£", "¥", "₹", "₪", "USD", "EUR", "GBP", "CAD", "AUD", "JPY", "INR", "ILS"]
  }

  function UnitsOf(k: nat): Units
    requires k < 14
  {
    if k == 0 then Units(["dollar"], ["dollars"], ["cent"], ["cents"])
    else if k == 1 || k == 7 then Units(["euro"], ["euros"], ["euro", "cent"], ["euro", "cents"])
    else if k == 2 || k == 8 then Units(["pound"], ["pounds"], ["penny"], ["pence"])
    else if k == 3 || k == 11 then Units(["yen"], ["yen"], ["sen"], ["sen"])
    else if k == 4 || k == 12 then Units(["rupee"], ["rupees"], ["paisa"], ["paise"])
    else if k == 5 || k == 13 then Units(["shekel"], ["shekels"], ["agora"], ["agorot"])
    else if k == 6 then Units(["U", "S", "dollar"], ["U", "S", "dollars"], ["cent"], ["cents"])
    else if k == 9 then Units(["Canadian", "dollar"], ["Canadian", "dollars"], ["cent"], ["cents"])
    else Units(["Australian", "dollar"], ["Australian", "dollars"], ["cent"], ["cents"])
  }

  /** Whose units they are. */
  lemma SignsAreNamed()
    ensures Symbols()[0] == "$" && UnitsOf(0) == Units(["dollar"], ["dollars"], ["cent"], ["cents"])
    ensures Symbols()[1] == "€" && UnitsOf(1) == Units(["euro"], ["euros"], ["euro", "cent"], ["euro", "cents"])
    ensures Symbols()[2] == "£" && UnitsOf(2) == Units(["pound"], ["pounds"], ["penny"], ["pence"])
    ensures Symbols()[3] == "¥" && UnitsOf(3) == Units(["yen"], ["yen"], ["sen"], ["sen"])
    ensures Symbols()[4] == "₹" && UnitsOf(4) == Units(["rupee"], ["rupees"], ["paisa"], ["paise"])
    ensures Symbols()[5] == "₪" && UnitsOf(5) == Units(["shekel"], ["shekels"], ["agora"], ["agorot"])
  {
  }

  /** A code names the currency of its sign; of the dollars each is called by its country. */
  lemma CodesAreNamed()
    ensures Symbols()[7] == "EUR" && UnitsOf(7) == UnitsOf(1) && Symbols()[8] == "GBP" && UnitsOf(8) == UnitsOf(2)
    ensures Symbols()[11] == "JPY" && UnitsOf(11) == UnitsOf(3) && Symbols()[12] == "INR" && UnitsOf(12) == UnitsOf(4)
    ensures Symbols()[13] == "ILS" && UnitsOf(13) == UnitsOf(5)
    ensures Symbols()[6] == "USD" && UnitsOf(6).one == ["U", "S"] + UnitsOf(0).one && UnitsOf(6).minorOne == ["cent"]
    ensures UnitsOf(6).many == ["U", "S"] + UnitsOf(0).many && UnitsOf(6).minorMany == ["cents"]
    ensures Symbols()[9] == "CAD" && UnitsOf(9).one == ["Canadian"] + UnitsOf(0).one && UnitsOf(9).minorOne == ["cent"]
    ensures UnitsOf(9).many == ["Canadian"] + UnitsOf(0).many && UnitsOf(9).minorMany == ["cents"]
    ensures Symbols()[10] == "AUD" && UnitsOf(10).one == ["Australian"] + UnitsOf(0).one
    ensures UnitsOf(10).many == ["Australian"] + UnitsOf(0).many && UnitsOf(10).minorOne == ["cent"]
    ensures UnitsOf(10).minorMany == ["cents"]
  {
  }

  predicate IsPrefix(p: string, s: string) { |p| <= |s| && s[..|p|] == p }

  /** No symbol begins another, so the unordered walk over the table finds at most one. */
  lemma SymbolsArePrefixFree(raw: string, i: nat, j: nat)
    requires i < 14 && j < 14 && IsPrefix(Symbols()[i], raw) && IsPrefix(Symbols()[j], raw)
    ensures i == j
  {
    assert raw[..|Symbols()[i]|][0] == raw[0] && raw[..|Symbols()[j]|][0] == raw[0];
    assert Symbols()[i][0] == Symbols()[j][0];
    assert |Symbols()[i]| == |Symbols()[j]|;
  }

  // ------------------------------------------------------------------ speaking

  function Dot(s: string): (d: nat)
    ensures d <= |s|
    ensures d < |s| ==> s[d] == '.'
    ensures forall i :: 0 <= i < d ==> s[i] != '.'
  {
    if s == "" || s[0] == '.' then 0 else 1 + Dot(s[1..])
  }

  /** strings.ReplaceAll(s, ",", ""). */
  function StripCommas(s: string): string {
    if s == "" then "" else (if s[0] == ',' then "" else [s[0]]) + StripCommas(s[1..])
  }

  function MajorText(whole: string): string {
    if ParseInt64(whole).Some? then IntWords(ParseInt64(whole).value) else Join(Spelled(whole))
  }

  function Whole(text: string): string {
    if StripCommas(text) == "" then "0" else StripCommas(text)
  }

  function Minor(fraction: string): (m: nat)
    ensures m < INT64
  {
    var padded := if |fraction| == 1 then fraction + "0" else fraction;
    var m := ParseInt64(padded);
    if m.Some? then m.value else 0
  }

  function Major(u: Units, whole: string): seq<string> {
    if ParseInt64(whole) == Some(1) then u.one else u.many
  }

  /** What is spoken for an amount without its sign. */
  function Unsigned(u: Units, body: string): string {
    var d := Dot(body);
    var whole := Whole(body[..d]);
    var text := MajorText(whole);
    var unit := Join(Major(u, whole));
    if d == |body| then text + " " + unit else WithFraction(u, text, unit, body[d + 1..])
  }

  function WithFraction(u: Units, text: string, unit: string, fraction: string): string {
    if |fraction| > 2 then text + " point " + Join(Spelled(fraction)) + " " + unit
    else if Minor(fraction) != 0 then
      text + " " + unit + " and " + IntWords(Minor(fraction)) + " " +
        Join(if Minor(fraction) == 1 then u.minorOne else u.minorMany)
    else text + " " + unit
  }

  function SpokenAmount(u: Units, body: string): string {
    if IsPrefix("-", body) then "minus " + Unsigned(u, body[1..]) else Unsigned(u, body)
  }

  /** strings.TrimSpace. */
  function TrimLeft(s: string): string {
    if s != "" && Text.IsSpace(s[0] as int) then TrimLeft(s[1..]) else s
  }

  function TrimRight(s: string): string {
    if s != "" && Text.IsSpace(s[|s| - 1] as int) then TrimRight(s[..|s| - 1]) else s
  }

  function TrimSpace(s: string): string { TrimRight(TrimLeft(s)) }

  /** Speaks a matched amount: a currency symbol, blanks, and the amount. */
  method SpeakCurrency(raw: string) returns (spoken: string)
    ensures forall k :: 0 <= k < 14 && IsPrefix(Symbols()[k], raw) ==>
      spoken == SpokenAmount(UnitsOf(k), TrimSpace(raw[|Symbols()[k]|..]))
  {
    hide UnitsOf, SpokenAmount, TrimSpace;
    var units, body := Units([], [], [], []), raw;
    var k := 0;
    while k < 14 && !IsPrefix(Symbols()[k], raw)
      invariant 0 <= k <= 14
      invariant forall j :: 0 <= j < k ==> !IsPrefix(Symbols()[j], raw)
    {
      k := k + 1;
    }
    if k < 14 {
      units, body := UnitsOf(k), TrimSpace(raw[|Symbols()[k]|..]);
    }
    spoken := SpeakAmount(units, body);
    forall j | 0 <= j < 14 && IsPrefix(Symbols()[j], raw) ensures j == k {
      SymbolsArePrefixFree(raw, j, k);
    }
  }

  method SpeakMajor(whole: string) returns (text: string)
    ensures text == MajorText(whole)
  {
    hide IntWords, Join, Spelled, ValueOf;
    text := GroupDigits(whole);
    var major := ParseInt64(whole);
    if major.Some? {
      text := IntToWords(major.value);
    }
  }

  method SpeakUnsigned(units: Units, body: string) returns (spoken: string)
    ensures spoken == Unsigned(units, body)
  {
    hide IntWords, Join, Spelled, MajorText, Dot, StripCommas, ParseInt64, Minor;
    var d := Dot(body);
    var whole := StripCommas(body[..d]);
    if whole == "" {
      whole := "0";
    }
    var majorText := SpeakMajor(whole);
    var unit := Join(if ParseInt64(whole) == Some(1) then units.one else units.many);
    spoken := majorText + " " + unit;
    if d < |body| {
      var fraction := body[d + 1..];
      if |fraction| > 2 {
        var digits := GroupDigits(fraction);
        return majorText + " point " + digits + " " + unit;
      }
      var minor := Minor(fraction);
      if minor != 0 {
        unit := Join(if minor == 1 then units.minorOne else units.minorMany);
        var words := IntToWords(minor);
        spoken := spoken + " and " + words + " " + unit;
      }
    }
  }

  method SpeakAmount(units: Units, amount: string) returns (spoken: string)
    ensures spoken == SpokenAmount(units, amount)
  {
    hide Unsigned;
    if |amount| > 0 && amount[0] == '-' {
      assert amount[..1] == "-";
      spoken := SpeakUnsigned(units, amount[1..]);
      return "minus " + spoken;
    }
    spoken := SpeakUnsigned(units, amount);
  }

  // ------------------------------------------------------------------- reading

  /** The digit a word names, if it names one. */
  ghost function ReadDigit(t: string): Option<char> {
    match Meaning(t)
    case Number(n) => if n < 10 then Some(DigitChar(n)) else None
    case _ => None
  }

  ghost function ReadDigits(ts: seq<string>): (r: Option<string>)
    ensures r.Some? ==> AllDigits(r.value)
  {
    if ts == [] then Some("")
    else
      var front, last := ReadDigits(ts[..|ts| - 1]), ReadDigit(ts[|ts| - 1]);
      if front.None? || last.None? then None else Some(front.value + [last.value])
  }

  /** A whole number: words, or two digits or more spoken one by one. */
  ghost function ReadWhole(ts: seq<string>): Option<nat> {
    if |ts| >= 2 && ReadDigits(ts).Some? then Some(ValueOf(ReadDigits(ts).value)) else ReadWords(ts)
  }

  /** How many number words stand at the front. */
  ghost function NumberLength(ts: seq<string>): (n: nat)
    ensures n <= |ts|
  {
    if ts == [] || !InVocabulary(ts[0]) then 0 else 1 + NumberLength(ts[1..])
  }

  /** A decimal fraction without the zeros at its end, which do not count. */
  function Canon(fraction: string): string {
    if fraction != "" && fraction[|fraction| - 1] == '0' then Canon(fraction[..|fraction| - 1]) else fraction
  }

  function TwoDigits(m: nat): string
    requires m < 100
  {
    [DigitChar(m / 10), DigitChar(m % 10)]
  }

  /** Reads words as "whole unit", "whole point digits unit" or "whole unit and minor
      minorunit", with the unit in the number English wants; gives the whole part and
      the fraction. */
  ghost function ReadUnsigned(u: Units, ts: seq<string>): Option<(nat, string)> {
    var n := NumberLength(ts);
    var whole, rest := ReadWhole(ts[..n]), ts[n..];
    if whole.None? then None
    else
      var unit := if whole.value == 1 then u.one else u.many;
      if rest == unit then Some((whole.value, ""))
      else if rest != [] && rest[0] == "point" then ReadPoint(whole.value, unit, rest[1..])
      else if |unit| < |rest| && rest[..|unit|] == unit && rest[|unit|] == "and" then
        ReadMinor(u, whole.value, rest[|unit| + 1..])
      else None
  }

  ghost function ReadPoint(whole: nat, unit: seq<string>, ts: seq<string>): Option<(nat, string)> {
    var n := NumberLength(ts);
    var digits := ReadDigits(ts[..n]);
    if digits.None? || ts[n..] != unit then None else Some((whole, Canon(digits.value)))
  }

  ghost function ReadMinor(u: Units, whole: nat, ts: seq<string>): Option<(nat, string)> {
    var n := NumberLength(ts);
    var minor := ReadWords(ts[..n]);
    if minor.None? || minor.value >= 100 || ts[n..] != (if minor.value == 1 then u.minorOne else u.minorMany) then None
    else Some((whole, Canon(TwoDigits(minor.value))))
  }

  /** An amount: its sign, its whole part, and its fraction in decimal digits. */
  datatype Amount = Amount(negative: bool, whole: nat, fraction: string)

  ghost function ReadAmount(u: Units, text: string): Option<Amount> {
    var ts := Tokens(text);
    var negative := ts[0] == "minus";
    var r := ReadUnsigned(u, if negative then ts[1..] else ts);
    if r.None? then None else Some(Amount(negative, r.value.0, r.value.1))
  }

  // --------------------------------------------------- the digits and the whole

  ghost predicate NumberWords(ts: seq<string>) {
    forall t :: t in ts ==> InVocabulary(t)
  }

  lemma DigitWord(c: char)
    requires IsDigit(c)
    ensures ReadDigit(Small(DigitOf(c))) == Some(c)
    ensures InVocabulary(Small(DigitOf(c))) && Tokens(Small(DigitOf(c))) == [Small(DigitOf(c))]
  {
    var d := DigitOf(c);
    assert DigitChar(d) == c;
    VocabIsKnown(d);
    hide Vocab, Tokens, Meaning, InVocabulary;
  }

  lemma VocabIsKnown(i: nat)
    requires i < 35
    ensures InVocabulary(Vocab(i)) && Tokens(Vocab(i)) == [Vocab(i)] && Meaning(Vocab(i)) == WordAt(i)
  {
    MeaningAt(i);
    VocabularyIsWords(i);
    WordIsToken(Vocab(i));
    assert Vocab(i) == Vocabulary()[i];
  }

  lemma {:induction false} SpelledReads(s: string)
    requires AllDigits(s)
    ensures |Spelled(s)| == |s| && ReadDigits(Spelled(s)) == Some(s)
    ensures NumberWords(Spelled(s)) && AllTokens(Spelled(s)) == Spelled(s)
  {
    hide Small, DigitOf, ReadDigit, InVocabulary, Tokens, AllTokens;
    if s == "" {
      NoTokens();
    } else {
      var front, c := s[..|s| - 1], s[|s| - 1];
      SpelledReads(front);
      DigitWord(c);
      var w := Small(DigitOf(c));
      assert s == front + [c];
      assert Spelled(s) == Spelled(front) + [w];
      assert (Spelled(front) + [w])[..|front|] == Spelled(front);
      OneMoreToken(Spelled(front), w);
    }
  }

  lemma NoTokens()
    ensures AllTokens([]) == []
  {
  }

  lemma OneMoreToken(ws: seq<string>, w: string)
    requires AllTokens(ws) == ws && Tokens(w) == [w]
    ensures AllTokens(ws + [w]) == ws + [w]
  {
    hide Tokens;
    AllTokensConcat(ws, [w]);
    assert [w][1..] == [];
  }

  lemma SpelledTokens(s: string)
    requires AllDigits(s) && s != ""
    ensures Tokens(Join(Spelled(s))) == Spelled(s)
  {
    SpelledReads(s);
    hide Spelled, Join, Tokens, AllTokens;
    TokensOfJoin(Spelled(s));
  }

  /** Number words of more than one token never consist of digits alone. */
  lemma NotAllDigits(ts: seq<string>)
    requires |ts| >= 2 && ReadDigits(ts).Some?
    ensures Run(START, ts) == None
  {
    hide Meaning, DigitChar;
    FirstTwoDigits(ts);
    var first := Step(START, Meaning(ts[0]));
    if first.Some? {
      assert ts[1..][0] == ts[1];
      assert Step(first.value, Meaning(ts[1])) == None;
    }
  }

  lemma {:induction false} FirstTwoDigits(ts: seq<string>)
    requires |ts| >= 2 && ReadDigits(ts).Some?
    ensures ReadDigit(ts[0]).Some? && ReadDigit(ts[1]).Some?
  {
    hide ReadDigit;
    var front := ts[..|ts| - 1];
    if |ts| > 2 {
      FirstTwoDigits(front);
    } else {
      assert ReadDigits(front).Some? && front[..0] == [];
    }
  }

  lemma {:induction false} ValueBelow(s: string)
    requires AllDigits(s) && |s| <= 1
    ensures ValueOf(s) < 10
  {
    if s != "" {
      assert s[..0] == "";
    }
  }

  /** The whole part is read back, however large it is. */
  lemma MajorReads(whole: string)
    requires AllDigits(whole) && whole != ""
    ensures NumberWords(Tokens(MajorText(whole))) && ReadWhole(Tokens(MajorText(whole))) == Some(ValueOf(whole))
  {
    hide IntWords, Join, Spelled, Tokens, ReadDigits, ValueOf, Run, InVocabulary;
    var ts := Tokens(MajorText(whole));
    if ParseInt64(whole).Some? {
      var n := ParseInt64(whole).value;
      NumberReadsBack(n);
      NumberTokens(n);
      if |ts| >= 2 && ReadDigits(ts).Some? {
        NotAllDigits(ts);
      }
    } else {
      SpelledReads(whole);
      SpelledTokens(whole);
      if |whole| == 1 {
        ValueBelow(whole);
      }
    }
  }

  lemma NumberTokens(n: nat)
    requires n < INT64
    ensures NumberWords(Tokens(IntWords(n)))
  {
    hide IntWords, Tokens, Run;
    NumberReadsBack(n);
    var ts := Tokens(IntWords(n));
    if ts == ["zero"] {
      ZeroWord();
    } else {
      RunStaysInVocabulary(START, ts);
    }
  }

  // -------------------------------------------------------------- the three forms

  /** A unit name that cannot be taken for part of a number. */
  ghost predicate PlainName(name: seq<string>) {
    name != [] && Tokens(Join(name)) == name && !InVocabulary(name[0]) && name[0] != "point"
  }

  ghost predicate PlainUnits(u: Units) {
    PlainName(u.one) && PlainName(u.many) && PlainName(u.minorOne) && PlainName(u.minorMany)
  }

  lemma {:induction false} NumberEnds(a: seq<string>, b: seq<string>)
    requires NumberWords(a) && (b == [] || !InVocabulary(b[0]))
    ensures NumberLength(a + b) == |a| && (a + b)[..|a|] == a && (a + b)[|a|..] == b
  {
    hide InVocabulary;
    if a == [] {
      assert a + b == b;
    } else {
      assert (a + b)[1..] == a[1..] + b;
      NumberEnds(a[1..], b);
    }
  }

  function UnitFor(u: Units, v: nat): seq<string> { if v == 1 then u.one else u.many }

  function MinorFor(u: Units, m: nat): seq<string> { if m == 1 then u.minorOne else u.minorMany }

  lemma PlainForm(u: Units, ts: seq<string>, v: nat)
    requires PlainUnits(u) && NumberWords(ts) && ReadWhole(ts) == Some(v)
    ensures ReadUnsigned(u, ts + UnitFor(u, v)) == Some((v, ""))
  {
    hide ReadWhole, NumberLength, InVocabulary, ReadPoint, ReadMinor, NumberWords, Join, Tokens;
    NumberEnds(ts, UnitFor(u, v));
  }

  lemma PointForm(u: Units, ts: seq<string>, v: nat, spelled: seq<string>, digits: string)
    requires PlainUnits(u) && NumberWords(ts) && ReadWhole(ts) == Some(v)
    requires NumberWords(spelled) && ReadDigits(spelled) == Some(digits)
    ensures ReadUnsigned(u, ts + (["point"] + (spelled + UnitFor(u, v)))) == Some((v, Canon(digits)))
  {
    PointIsNoNumber();
    hide ReadWhole, NumberLength, InVocabulary, ReadMinor, ReadDigits, NumberWords, Join, Tokens, Canon;
    var unit := UnitFor(u, v);
    var rest := ["point"] + (spelled + unit);
    NumberEnds(ts, rest);
    NumberEnds(spelled, unit);
    assert rest[0] == "point" && rest[1..] == spelled + unit;
    assert unit[0] != "point";
  }

  lemma MinorForm(u: Units, ts: seq<string>, v: nat, words: seq<string>, m: nat)
    requires PlainUnits(u) && NumberWords(ts) && ReadWhole(ts) == Some(v)
    requires NumberWords(words) && ReadWords(words) == Some(m) && m < 100
    ensures ReadUnsigned(u, ts + (UnitFor(u, v) + (["and"] + (words + MinorFor(u, m))))) ==
      Some((v, Canon(TwoDigits(m))))
  {
    hide ReadWhole, NumberLength, InVocabulary, ReadPoint, ReadMinor, ReadWords, NumberWords, Join, Tokens,
         Canon, TwoDigits;
    var unit, tail := UnitFor(u, v), words + MinorFor(u, m);
    MinorTail(u, v, words, m);
    AfterUnit(unit, tail);
    NumberEnds(ts, unit + (["and"] + tail));
  }

  lemma AfterUnit(unit: seq<string>, tail: seq<string>)
    requires unit != []
    ensures var rest := unit + (["and"] + tail);
      && rest != unit && rest != [] && rest[0] == unit[0] && |unit| < |rest|
      && rest[..|unit|] == unit && rest[|unit|] == "and" && rest[|unit| + 1..] == tail
  {
  }

  lemma MinorTail(u: Units, v: nat, words: seq<string>, m: nat)
    requires PlainUnits(u) && NumberWords(words) && ReadWords(words) == Some(m) && m < 100
    ensures ReadMinor(u, v, words + MinorFor(u, m)) == Some((v, Canon(TwoDigits(m))))
  {
    hide NumberLength, InVocabulary, ReadWords, NumberWords, Join, Tokens, Canon, TwoDigits;
    NumberEnds(words, MinorFor(u, m));
  }

  lemma PointIsNoNumber()
    ensures !InVocabulary("point")
  {
  }

  lemma MinusIsNoNumber()
    ensures !InVocabulary("minus")
  {
  }

  // ---------------------------------------------------------- what was written

  /** An amount as written: an optional minus, a whole part with optional grouping commas,
      and an optional fraction. */
  datatype Written = Written(negative: bool, whole: string, fraction: Option<string>)

  ghost predicate IsWritten(w: Written) {
    && (forall i :: 0 <= i < |w.whole| ==> IsDigit(w.whole[i]) || w.whole[i] == ',')
    && (w.fraction.Some? ==> AllDigits(w.fraction.value))
  }

  function BodyOf(w: Written): string {
    w.whole + if w.fraction.Some? then "." + w.fraction.value else ""
  }

  function WrittenText(w: Written): string {
    if w.negative then "-" + BodyOf(w) else BodyOf(w)
  }

  /** The number written, commas passed over. */
  function WholeValue(s: string): nat
    requires forall i :: 0 <= i < |s| ==> IsDigit(s[i]) || s[i] == ','
  {
    if s == "" then 0
    else if s[|s| - 1] == ',' then WholeValue(s[..|s| - 1])
    else 10 * WholeValue(s[..|s| - 1]) + DigitOf(s[|s| - 1])
  }

  ghost function AmountOf(w: Written): Amount
    requires IsWritten(w)
  {
    Amount(w.negative, WholeValue(w.whole), if w.fraction.Some? then Canon(w.fraction.value) else "")
  }

  lemma {:induction false} StripLast(s: string, c: char)
    ensures StripCommas(s + [c]) == StripCommas(s) + if c == ',' then "" else [c]
  {
    if s == "" {
      assert [c][1..] == "";
    } else {
      assert (s + [c])[0] == s[0] && (s + [c])[1..] == s[1..] + [c];
      StripLast(s[1..], c);
    }
  }

  lemma {:induction false} StrippedValue(s: string)
    requires forall i :: 0 <= i < |s| ==> IsDigit(s[i]) || s[i] == ','
    ensures AllDigits(StripCommas(s)) && ValueOf(StripCommas(s)) == WholeValue(s)
    decreases |s|
  {
    StrippedIsDigits(s);
    if s != "" {
      var front, last := s[..|s| - 1], s[|s| - 1];
      StrippedValue(front);
      StripLast(front, last);
      assert s == front + [last];
      var t := StripCommas(s);
      if last == ',' {
        assert t == StripCommas(front);
      } else {
        assert t[..|t| - 1] == StripCommas(front) && t[|t| - 1] == last;
      }
    }
  }

  function Zeros(n: nat): string { if n == 0 then "" else Zeros(n - 1) + "0" }

  /** Only zeros at the end of a fraction go uncounted. */
  lemma {:induction false} CanonDropsZeros(fraction: string) returns (n: nat)
    ensures fraction == Canon(fraction) + Zeros(n)
    ensures Canon(fraction) == "" || Canon(fraction)[|Canon(fraction)| - 1] != '0'
  {
    n := 0;
    if fraction != "" && fraction[|fraction| - 1] == '0' {
      var front := fraction[..|fraction| - 1];
      var m := CanonDropsZeros(front);
      n := m + 1;
      assert fraction == front + "0" == Canon(front) + Zeros(m) + "0";
    } else {
      assert fraction + "" == fraction;
    }
  }

  lemma {:induction false} StrippedIsDigits(s: string)
    requires forall i :: 0 <= i < |s| ==> IsDigit(s[i]) || s[i] == ','
    ensures AllDigits(StripCommas(s))
  {
    if s != "" {
      StrippedIsDigits(s[1..]);
    }
  }

  lemma {:induction false} DotIs(s: string, d: nat)
    requires d <= |s| && (d < |s| ==> s[d] == '.') && forall i :: 0 <= i < d ==> s[i] != '.'
    ensures Dot(s) == d
  {
  }

  /** The point splits the body where it was put together. */
  lemma BodySplits(w: Written)
    requires IsWritten(w)
    ensures var b, d := BodyOf(w), Dot(BodyOf(w));
      && b[..d] == w.whole
      && (w.fraction.None? ==> d == |b|)
      && (w.fraction.Some? ==> d < |b| && b[d + 1..] == w.fraction.value)
      && !IsPrefix("-", b)
  {
    var b := BodyOf(w);
    assert forall i :: 0 <= i < |w.whole| ==> b[i] == w.whole[i];
    DotIs(b, |w.whole|);
    if b != "" {
      assert b[0] != '-';
      assert b[..1] == [b[0]];
    }
  }

  lemma WholeReads(text: string)
    requires forall i :: 0 <= i < |text| ==> IsDigit(text[i]) || text[i] == ','
    ensures AllDigits(Whole(text)) && Whole(text) != "" && ValueOf(Whole(text)) == WholeValue(text)
  {
    StrippedValue(text);
    if StripCommas(text) == "" {
      assert "0"[..0] == "";
      assert ValueOf("0") == 10 * ValueOf("") + DigitOf('0');
    }
  }

  /** One or two fraction digits are the minor units, zero meaning none are spoken. */
  lemma MinorIsFraction(fraction: string)
    requires AllDigits(fraction) && |fraction| <= 2
    ensures Minor(fraction) < 100
    ensures Canon(fraction) == if Minor(fraction) == 0 then "" else Canon(TwoDigits(Minor(fraction)))
  {
    if |fraction| == 1 {
      assert (fraction + "0")[..1] == fraction;
      CanonDigits(fraction + "0");
      PairValue(fraction + "0");
    } else if |fraction| == 2 {
      CanonDigits(fraction);
      PairValue(fraction);
    }
  }

  lemma PairValue(s: string)
    requires AllDigits(s) && |s| == 2
    ensures ValueOf(s) == 10 * DigitOf(s[0]) + DigitOf(s[1])
    ensures TwoDigits(ValueOf(s)) == s
  {
    assert s[..1][..0] == "" && s[..1][0] == s[0];
    assert ValueOf(s[..1]) == DigitOf(s[0]);
  }

  lemma CanonDigits(s: string)
    requires AllDigits(s) && |s| == 2
    ensures ValueOf(s) == 0 ==> Canon(s) == ""
  {
    PairValue(s);
    if ValueOf(s) == 0 {
      assert s[1] == '0' && s[..1][0] == '0';
      assert s[..1][..0] == "";
    }
  }

  // --------------------------------------------------------------- the theorem

  lemma Spaced(a: string, b: string)
    ensures Tokens(a + " " + b) == Tokens(a) + Tokens(b)
  {
    TokensConcat(a, ' ', b);
    assert a + " " + b == a + [' '] + b;
  }

  lemma WordTokens()
    ensures Tokens("point") == ["point"] && Tokens("and") == ["and"] && Tokens("minus") == ["minus"]
  {
    WordIsToken("point");
    WordIsToken("and");
    WordIsToken("minus");
  }

  lemma Nested(a: seq<string>, b: seq<string>, c: seq<string>, d: seq<string>, e: seq<string>)
    ensures a + b + c + d == a + (b + (c + d))
    ensures a + b + c + d + e == a + (b + (c + (d + e)))
  {
  }

  lemma PointTokens(text: string, spelled: string, unit: string)
    ensures Tokens(text + " point " + spelled + " " + unit) ==
      Tokens(text) + (["point"] + (Tokens(spelled) + Tokens(unit)))
  {
    WordTokens();
    hide Tokens;
    assert text + " point " + spelled + " " + unit == text + " " + "point" + " " + spelled + " " + unit;
    Spaced(text + " " + "point" + " " + spelled, unit);
    Spaced(text + " " + "point", spelled);
    Spaced(text, "point");
    Nested(Tokens(text), ["point"], Tokens(spelled), Tokens(unit), []);
  }

  lemma MinorTokens(text: string, unit: string, words: string, minorUnit: string)
    ensures Tokens(text + " " + unit + " and " + words + " " + minorUnit)
      == Tokens(text) + (Tokens(unit) + (["and"] + (Tokens(words) + Tokens(minorUnit))))
  {
    WordTokens();
    hide Tokens;
    assert text + " " + unit + " and " + words + " " + minorUnit ==
      text + " " + unit + " " + "and" + " " + words + " " + minorUnit;
    Spaced(text + " " + unit + " " + "and" + " " + words, minorUnit);
    Spaced(text + " " + unit + " " + "and", words);
    Spaced(text + " " + unit, "and");
    Spaced(text, unit);
    Nested(Tokens(text), Tokens(unit), ["and"], Tokens(words), Tokens(minorUnit));
  }

  /** The forms of a whole part that reads back as v, with what follows it. */
  lemma NoFractionReads(u: Units, text: string, v: nat)
    requires PlainUnits(u) && NumberWords(Tokens(text)) && ReadWhole(Tokens(text)) == Some(v)
    ensures ReadUnsigned(u, Tokens(text + " " + Join(UnitFor(u, v)))) == Some((v, ""))
    ensures InVocabulary(Tokens(text + " " + Join(UnitFor(u, v)))[0])
  {
    hide Tokens, ReadUnsigned, ReadWhole, Join, InVocabulary;
    Spaced(text, Join(UnitFor(u, v)));
    PlainForm(u, Tokens(text), v);
    assert Tokens(text)[0] in Tokens(text);
  }

  lemma LongFractionReads(u: Units, text: string, v: nat, f: string)
    requires PlainUnits(u) && NumberWords(Tokens(text)) && ReadWhole(Tokens(text)) == Some(v) && AllDigits(f) && f != ""
    ensures var spoken := text + " point " + Join(Spelled(f)) + " " + Join(UnitFor(u, v));
      ReadUnsigned(u, Tokens(spoken)) == Some((v, Canon(f))) && InVocabulary(Tokens(spoken)[0])
  {
    hide Tokens, ReadUnsigned, ReadWhole, Join, Spelled, InVocabulary, Canon;
    SpelledReads(f);
    SpelledTokens(f);
    PointTokens(text, Join(Spelled(f)), Join(UnitFor(u, v)));
    PointForm(u, Tokens(text), v, Spelled(f), f);
    assert Tokens(text)[0] in Tokens(text);
  }

  lemma ShortFractionReads(u: Units, text: string, v: nat, m: nat)
    requires PlainUnits(u) && NumberWords(Tokens(text)) && ReadWhole(Tokens(text)) == Some(v) && m < 100
    ensures var spoken := text + " " + Join(UnitFor(u, v)) + " and " + IntWords(m) + " " + Join(MinorFor(u, m));
      ReadUnsigned(u, Tokens(spoken)) == Some((v, Canon(TwoDigits(m)))) && InVocabulary(Tokens(spoken)[0])
  {
    hide Tokens, ReadUnsigned, ReadWhole, Join, IntWords, InVocabulary, Canon, TwoDigits;
    NumberReadsBack(m);
    NumberTokens(m);
    MinorTokens(text, Join(UnitFor(u, v)), IntWords(m), Join(MinorFor(u, m)));
    MinorForm(u, Tokens(text), v, Tokens(IntWords(m)), m);
    assert Tokens(text)[0] in Tokens(text);
  }

  lemma FractionReads(u: Units, text: string, v: nat, f: string)
    requires PlainUnits(u) && NumberWords(Tokens(text)) && ReadWhole(Tokens(text)) == Some(v) && AllDigits(f)
    ensures var spoken := WithFraction(u, text, Join(UnitFor(u, v)), f);
      ReadUnsigned(u, Tokens(spoken)) == Some((v, Canon(f))) && InVocabulary(Tokens(spoken)[0])
  {
    if |f| > 2 {
      LongFractionReads(u, text, v, f);
    } else {
      MinorIsFraction(f);
      if Minor(f) != 0 {
        ShortFractionReads(u, text, v, Minor(f));
      } else {
        NoFractionReads(u, text, v);
      }
    }
    hide Tokens, ReadUnsigned, ReadWhole, Join, Spelled, IntWords, InVocabulary, Minor, Canon, PlainUnits,
         NumberWords, TwoDigits;
  }

  lemma UnsignedReadsBack(u: Units, w: Written)
    requires PlainUnits(u) && IsWritten(w)
    ensures ReadUnsigned(u, Tokens(Unsigned(u, BodyOf(w)))) == Some((AmountOf(w).whole, AmountOf(w).fraction))
    ensures InVocabulary(Tokens(Unsigned(u, BodyOf(w)))[0])
  {
    BodySplits(w);
    WholeReads(w.whole);
    var whole := Whole(w.whole);
    MajorReads(whole);
    ParsedOne(whole);
    var text, v := MajorText(whole), ValueOf(whole);
    assert Major(u, whole) == UnitFor(u, v);
    hide Tokens, ReadUnsigned, ReadWhole, MajorText, ValueOf, Whole, Join, Spelled, WithFraction, Dot, BodyOf,
         StripCommas, WholeValue, InVocabulary, Canon, Major, PlainUnits, NumberWords, UnitFor;
    if w.fraction.None? {
      NoFractionReads(u, text, v);
    } else {
      FractionReads(u, text, v, w.fraction.value);
    }
  }

  lemma ParsedOne(whole: string)
    requires AllDigits(whole) && whole != ""
    ensures ParseInt64(whole) == Some(1) <==> ValueOf(whole) == 1
  {
    hide ValueOf;
  }

  lemma SignReads(u: Units, text: string, whole: nat, fraction: string)
    requires ReadUnsigned(u, Tokens(text)) == Some((whole, fraction)) && InVocabulary(Tokens(text)[0])
    ensures ReadAmount(u, text) == Some(Amount(false, whole, fraction))
    ensures ReadAmount(u, "minus " + text) == Some(Amount(true, whole, fraction))
  {
    MinusIsNoNumber();
    WordTokens();
    hide Tokens, ReadUnsigned, InVocabulary;
    Spaced("minus", text);
    assert "minus " + text == "minus" + " " + text;
    assert (["minus"] + Tokens(text))[1..] == Tokens(text);
  }

  /** Whatever amount is written, reading the spoken words back gives that amount exactly:
      no whole part overflows, no fraction digit is rounded, and the unit agrees in number. */
  lemma AmountReadsBack(u: Units, w: Written)
    requires PlainUnits(u) && IsWritten(w)
    ensures ReadAmount(u, SpokenAmount(u, WrittenText(w))) == Some(AmountOf(w))
  {
    UnsignedReadsBack(u, w);
    BodySplits(w);
    var b := BodyOf(w);
    SignReads(u, Unsigned(u, b), AmountOf(w).whole, AmountOf(w).fraction);
    hide Tokens, Unsigned, ReadUnsigned, ReadAmount, BodyOf, Dot, InVocabulary, StripCommas, ValueOf, Canon;
    if w.negative {
      assert ("-" + b)[..1] == "-" && ("-" + b)[1..] == b;
    }
  }

  // ------------------------------------------------------ the currencies' names

  /** Every word the unit names are made of. */
  function UnitWords(): seq<string> {
    [
      "dollar", "dollars", "cent", "cents", "euro", "euros", "pound", "pounds", "penny", "pence",
      "yen", "sen", "rupee", "rupees", "paisa", "paise", "shekel", "shekels", "agora", "agorot",
      "U", "S", "Canadian", "Australian"]
  }

  lemma UnitWordIsNoSmall(i: nat, j: nat)
    requires i < 24 && j < 20
    ensures UnitWords()[i] != Vocabulary()[j]
  {
  }

  lemma UnitWordIsNoLarge(i: nat, j: nat)
    requires i < 24 && 20 <= j < 35
    ensures UnitWords()[i] != Vocabulary()[j]
  {
  }

  lemma UnitWordIsPlain(i: nat)
    requires i < 24
    ensures UnitWords()[i] != "point" && forall k :: 0 <= k < |UnitWords()[i]| ==> !IsSeparator(UnitWords()[i][k])
  {
  }

  predicate UnitWord(w: string) { w in UnitWords() }

  lemma UnitWordFacts(w: string)
    requires UnitWord(w)
    ensures !InVocabulary(w) && w != "point" && Tokens(w) == [w]
  {
    var i :| 0 <= i < 24 && UnitWords()[i] == w;
    UnitWordIsPlain(i);
    OneToken(w);
    if InVocabulary(w) {
      var j :| 0 <= j < 35 && Vocabulary()[j] == w;
      if j < 20 {
        UnitWordIsNoSmall(i, j);
      } else {
        UnitWordIsNoLarge(i, j);
      }
    }
  }

  ghost predicate UnitName(name: seq<string>) {
    name != [] && forall i :: 0 <= i < |name| ==> UnitWord(name[i])
  }

  lemma {:induction false} NameTokens(name: seq<string>)
    requires forall i :: 0 <= i < |name| ==> UnitWord(name[i])
    ensures AllTokens(name) == name
  {
    hide UnitWord, Tokens;
    if name != [] {
      UnitWordFacts(name[0]);
      NameTokens(name[1..]);
      assert name == [name[0]] + name[1..];
    }
  }

  lemma UnitNameIsPlain(name: seq<string>)
    requires UnitName(name)
    ensures PlainName(name)
  {
    hide UnitWord, Tokens, InVocabulary, Join;
    UnitWordFacts(name[0]);
    NameTokens(name);
    TokensOfJoin(name);
  }

  ghost predicate UnitNames(u: Units) {
    UnitName(u.one) && UnitName(u.many) && UnitName(u.minorOne) && UnitName(u.minorMany)
  }

  lemma TableNames(k: nat)
    requires k < 14
    ensures UnitNames(UnitsOf(k))
  {
  }

  /** Reading back works for every currency of the table. */
  lemma CurrencyReadsBack(k: nat, w: Written)
    requires k < 14 && IsWritten(w)
    ensures ReadAmount(UnitsOf(k), SpokenAmount(UnitsOf(k), WrittenText(w))) == Some(AmountOf(w))
  {
    TableNames(k);
    hide UnitsOf, UnitName, PlainName;
    var u := UnitsOf(k);
    UnitNameIsPlain(u.one);
    UnitNameIsPlain(u.many);
    UnitNameIsPlain(u.minorOne);
    UnitNameIsPlain(u.minorMany);
    AmountReadsBack(u, w);
  }

  ghost predicate AllBlank(s: string) { forall i :: 0 <= i < |s| ==> Text.IsSpace(s[i] as int) }

  lemma {:induction false} TrimsLeft(blanks: string, text: string)
    requires AllBlank(blanks) && (text != "" ==> !Text.IsSpace(text[0] as int))
    ensures TrimLeft(blanks + text) == text
  {
    if blanks == "" {
      assert blanks + text == text;
    } else {
      assert (blanks + text)[1..] == blanks[1..] + text;
      TrimsLeft(blanks[1..], text);
    }
  }

  lemma {:induction false} TrimsRight(text: string, blanks: string)
    requires AllBlank(blanks) && (text != "" ==> !Text.IsSpace(text[|text| - 1] as int))
    ensures TrimRight(text + blanks) == text
    decreases |blanks|
  {
    if blanks == "" {
      assert text + blanks == text;
    } else {
      var n := |blanks| - 1;
      assert (text + blanks)[..|text| + n] == text + blanks[..n];
      TrimsRight(text, blanks[..n]);
    }
  }

  lemma TrimsToText(blanks: string, text: string, after: string)
    requires AllBlank(blanks) && AllBlank(after) && text != ""
    requires forall i :: 0 <= i < |text| ==> !Text.IsSpace(text[i] as int)
    ensures TrimSpace(blanks + text + after) == text
  {
    assert blanks + text + after == blanks + (text + after);
    TrimsLeft(blanks, text + after);
    TrimsRight(text, after);
  }

  lemma WrittenHasNoBlanks(w: Written)
    requires IsWritten(w)
    ensures forall i :: 0 <= i < |WrittenText(w)| ==> !Text.IsSpace(WrittenText(w)[i] as int)
  {
    var t := WrittenText(w);
    forall i | 0 <= i < |t| ensures IsDigit(t[i]) || t[i] in {',', '.', '-'} {
    }
  }

  lemma NothingToTrim(blanks: string)
    requires AllBlank(blanks)
    ensures TrimSpace(blanks) == ""
  {
    TrimsLeft(blanks, "");
    assert blanks + "" == blanks;
  }

  /** A whole matched text: symbol, blanks, amount, and perhaps blanks again. Its spoken form
      reads back as the amount. */
  lemma MatchReadsBack(raw: string, k: nat, blanks: string, w: Written, after: string)
    requires k < 14 && IsWritten(w) && raw == Symbols()[k] + (blanks + WrittenText(w) + after)
    requires AllBlank(blanks) && AllBlank(after)
    ensures IsPrefix(Symbols()[k], raw)
    ensures ReadAmount(UnitsOf(k), SpokenAmount(UnitsOf(k), TrimSpace(raw[|Symbols()[k]|..]))) == Some(AmountOf(w))
  {
    WrittenHasNoBlanks(w);
    if WrittenText(w) == "" {
      assert blanks + "" + after == blanks + after;
      NothingToTrim(blanks + after);
    } else {
      TrimsToText(blanks, WrittenText(w), after);
    }
    CurrencyReadsBack(k, w);
    hide TrimSpace, WrittenText, SpokenAmount, UnitsOf, ReadAmount;
    assert raw[|Symbols()[k]|..] == blanks + WrittenText(w) + after;
  }
}
