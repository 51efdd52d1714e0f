/** Mailbox names in modified UTF-7 (section 5.1.3 of RFC 3501): the encoder of
    internal/mailconfig/imaputf7.go and the one decoder it has to agree with. */
module ImapUtf7 {
  import opened Text
  import opened Base64
  import opened Wrappers

  type Unit = u: int | 0 <= u < 0x10000

  const AMP: int := '&' as int
  const MINUS: int := '-' as int

  /** Characters that stand for themselves, the ampersand apart. */
  predicate Plain(r: int) { 0x20 <= r <= 0x7E && r != AMP }

  /** Characters that only a base64 shift can carry. */
  predicate Wide(r: int) { r < 0x20 || r > 0x7E }

  // ---------------------------------------------------------------- letters

  function SlashToComma(b: Byte): Byte { if b == '/' as int then ',' as int else b }

  /** The sextet a letter of the modified alphabet stands for. */
  function Sextet0(b: Byte): Option<Sextet> {
    if 'A' as int <= b <= 'Z' as int then Some(b - 'A' as int)
    else if 'a' as int <= b <= 'z' as int then Some(b - 'a' as int + 26)
    else if '0' as int <= b <= '9' as int then Some(b - '0' as int + 52)
    else if b == '+' as int then Some(62)
    else if b == ',' as int then Some(63)
    else None
  }

  lemma LetterRoundTrip(c: Sextet)
    ensures Sextet0(SlashToComma(StdLetter(c))) == Some(c)
    ensures SlashToComma(StdLetter(c)) != MINUS
  {
  }

  lemma SextetRoundTrip(b: Byte)
    ensures Sextet0(b).Some? ==> SlashToComma(StdLetter(Sextet0(b).value)) == b
  {
  }

  function ReplaceSlashes(s: seq<Byte>): seq<Byte> {
    seq(|s|, i requires 0 <= i < |s| => SlashToComma(s[i]))
  }

  function Letters(cs: seq<Sextet>): seq<Byte> { ReplaceSlashes(StdText(cs)) }

  function Unletter(s: seq<Byte>): Option<seq<Sextet>> {
    if s == [] then Some([])
    else
      match (Sextet0(s[0]), Unletter(s[1..]))
      case (Some(c), Some(cs)) => Some([c] + cs)
      case _ => None
  }

  lemma {:induction false} UnletterLetters(cs: seq<Sextet>)
    ensures Unletter(Letters(cs)) == Some(cs)
  {
    if cs != [] {
      LetterRoundTrip(cs[0]);
      assert Letters(cs)[1..] == Letters(cs[1..]);
      UnletterLetters(cs[1..]);
      assert cs == [cs[0]] + cs[1..];
    }
  }

  lemma {:induction false} LettersUnletter(s: seq<Byte>)
    requires Unletter(s).Some?
    ensures Letters(Unletter(s).value) == s
  {
    if s != [] {
      SextetRoundTrip(s[0]);
      LettersUnletter(s[1..]);
      var cs := Unletter(s).value;
      assert Letters(cs)[1..] == Letters(cs[1..]);
    }
  }

  // ------------------------------------------------- runes, units and bytes

  /** UTF-16, with the surrogate pairs of section 2.1 of RFC 2781. */
  function RuneUnits(r: Rune): seq<Unit> {
    if r >= 0x10000 then
      SurrogateRoundTrip(r);
      [High(r), Low(r)]
    else [r]
  }

  function High(r: int): int
    requires r >= 0x10000
  {
    0xD800 + Quot(r - 0x10000, 0x400)
  }

  function Low(r: int): int
    requires r >= 0x10000
  {
    0xDC00 + Rem(r - 0x10000, 0x400)
  }

  function Astral(high: int, low: int): int { 0x10000 + (high - 0xD800) * 0x400 + (low - 0xDC00) }

  lemma SurrogateRoundTrip(r: int)
    requires 0x10000 <= r <= 0x10FFFF
    ensures 0xD800 <= High(r) < 0xDC00 <= Low(r) < 0xE000
    ensures Astral(High(r), Low(r)) == r
  {
    Cut(r - 0x10000, 0x400);
  }

  lemma SurrogateParts(r: int)
    requires 0x10000 <= r <= 0x10FFFF
    ensures High(r) == 0xD800 + (r - 0x10000) / 0x400 && Low(r) == 0xDC00 + (r - 0x10000) % 0x400
    ensures 0xD800 <= High(r) < 0xDC00 <= Low(r) < 0xE000
  {
    Cut(r - 0x10000, 0x400);
  }

  lemma AstralRoundTrip(high: int, low: int)
    requires 0xD800 <= high < 0xDC00 <= low < 0xE000
    ensures 0x10000 <= Astral(high, low) <= 0x10FFFF
    ensures High(Astral(high, low)) == high && Low(Astral(high, low)) == low
  {
    Cut(Astral(high, low) - 0x10000, 0x400);
  }

  function Units(rs: seq<Rune>): seq<Unit> {
    if rs == [] then [] else RuneUnits(rs[0]) + Units(rs[1..])
  }

  /** The two bytes of a unit. */
  function Upper(u: Unit): Byte {
    Cut(u, 256);
    Quot(u, 256)
  }

  function Lower(u: Unit): Byte {
    Cut(u, 256);
    Rem(u, 256)
  }

  lemma WordOfHalves(u: Unit)
    ensures Word(Upper(u), Lower(u)) == u
  {
    Cut(u, 256);
  }

  lemma HalvesOfWord(high: Byte, low: Byte)
    ensures Upper(Word(high, low)) == high && Lower(Word(high, low)) == low
  {
    Cut(Word(high, low), 256);
  }

  function UnitBytes(us: seq<Unit>): seq<Byte> {
    if us == [] then [] else [Upper(us[0]), Lower(us[0])] + UnitBytes(us[1..])
  }

  function Word(high: int, low: int): int { high * 256 + low }

  function BytesUnits(bs: seq<Byte>): Option<seq<Unit>> {
    if bs == [] then Some([])
    else if |bs| == 1 then None
    else
      match BytesUnits(bs[2..])
      case Some(us) => Some([Word(bs[0], bs[1])] + us)
      case None => None
  }

  /** Runes from UTF-16; an unpaired surrogate is an error. */
  function UnitsRunes(us: seq<Unit>): Option<seq<Rune>> {
    if us == [] then Some([])
    else if us[0] < 0xD800 || us[0] >= 0xE000 then Cons(us[0], UnitsRunes(us[1..]))
    else if us[0] < 0xDC00 && |us| >= 2 && 0xDC00 <= us[1] < 0xE000 then
      Cons(Astral(us[0], us[1]), UnitsRunes(us[2..]))
    else None
  }

  function Cons(r: Rune, rest: Option<seq<Rune>>): Option<seq<Rune>> {
    if rest.Some? then Some([r] + rest.value) else None
  }

  lemma {:induction false} BytesUnitsInverse(us: seq<Unit>)
    ensures BytesUnits(UnitBytes(us)) == Some(us)
  {
    if us != [] {
      BytesUnitsInverse(us[1..]);
      var bs := UnitBytes(us);
      assert bs[2..] == UnitBytes(us[1..]);
      WordOfHalves(us[0]);
      assert us == [us[0]] + us[1..];
    }
  }

  lemma {:induction false} UnitBytesInverse(bs: seq<Byte>)
    requires BytesUnits(bs).Some?
    ensures UnitBytes(BytesUnits(bs).value) == bs
  {
    if bs != [] {
      UnitBytesInverse(bs[2..]);
      var us := BytesUnits(bs).value;
      assert us[1..] == BytesUnits(bs[2..]).value;
      HalvesOfWord(bs[0], bs[1]);
    }
  }

  lemma {:induction false} UnitsRunesInverse(rs: seq<Rune>)
    ensures UnitsRunes(Units(rs)) == Some(rs)
  {
    if rs != [] {
      UnitsRunesInverse(rs[1..]);
      var us := Units(rs);
      assert rs == [rs[0]] + rs[1..];
      if rs[0] >= 0x10000 {
        SurrogateRoundTrip(rs[0]);
        assert us[2..] == Units(rs[1..]);
      } else {
        assert us[1..] == Units(rs[1..]);
      }
    }
  }

  lemma {:induction false} RunesUnitsInverse(us: seq<Unit>)
    requires UnitsRunes(us).Some?
    ensures Units(UnitsRunes(us).value) == us
  {
    if us != [] {
      var rs := UnitsRunes(us).value;
      if us[0] < 0xD800 || us[0] >= 0xE000 {
        RunesUnitsInverse(us[1..]);
        assert rs[1..] == UnitsRunes(us[1..]).value;
      } else {
        RunesUnitsInverse(us[2..]);
        AstralRoundTrip(us[0], us[1]);
        assert rs[1..] == UnitsRunes(us[2..]).value;
      }
    }
  }

  // ------------------------------------------------------ one base64 shift

  function ShiftText(run: seq<Rune>): seq<Byte> {
    Letters(Base64.Encode(UnitBytes(Units(run))))
  }

  /** What a shift's text carries, if it is the canonical text of a run of Wide runes. */
  function ShiftRun(s: seq<Byte>): Option<seq<Rune>> {
    var cs := Unletter(s);
    if cs.None? || !Canonical(cs.value) then None
    else
      var us := BytesUnits(Base64.Decode(cs.value));
      if us.None? then None
      else
        var rs := UnitsRunes(us.value);
        if rs.None? || exists i :: 0 <= i < |rs.value| && !Wide(rs.value[i]) then None else rs
  }

  lemma ShiftRunText(run: seq<Rune>)
    requires forall i :: 0 <= i < |run| ==> Wide(run[i])
    ensures ShiftRun(ShiftText(run)) == Some(run)
    ensures forall i :: 0 <= i < |ShiftText(run)| ==> ShiftText(run)[i] != MINUS
    ensures run != [] ==> ShiftText(run) != []
  {
    hide S0, S1, S2, S3, B0, B1, B2, StdLetter, SlashToComma, Sextet0;
    var bs := UnitBytes(Units(run));
    var cs := Base64.Encode(bs);
    UnitsRunesInverse(run);
    BytesUnitsInverse(Units(run));
    DecodeEncode(bs);
    EncodeIsCanonical(bs);
    UnletterLetters(cs);
    forall i | 0 <= i < |cs| ensures Letters(cs)[i] != MINUS {
      LetterRoundTrip(cs[i]);
    }
  }

  lemma ShiftTextRun(s: seq<Byte>)
    requires ShiftRun(s).Some?
    ensures ShiftText(ShiftRun(s).value) == s
    ensures forall i :: 0 <= i < |ShiftRun(s).value| ==> Wide(ShiftRun(s).value[i])
    ensures s != [] ==> ShiftRun(s).value != []
  {
    hide S0, S1, S2, S3, B0, B1, B2, StdLetter, SlashToComma, Sextet0;
    var cs := Unletter(s).value;
    var bs := Base64.Decode(cs);
    LettersUnletter(s);
    EncodeDecode(cs);
    UnitBytesInverse(bs);
    RunesUnitsInverse(BytesUnits(bs).value);
  }

  // --------------------------------------------------------------- encoder

  function RunLength(name: seq<Rune>): (n: nat)
    ensures n <= |name|
    ensures forall i :: 0 <= i < n ==> Wide(name[i])
    ensures n < |name| ==> !Wide(name[n])
  {
    if name == [] || !Wide(name[0]) then 0 else 1 + RunLength(name[1..])
  }

  /** The encoding of a name: plain characters as they are, `&-` for an ampersand,
      one shift for each maximal run of Wide characters. */
  function Encode(name: seq<Rune>): seq<Byte>
    decreases |name|
  {
    if name == [] then []
    else if name[0] == AMP then [AMP, MINUS] + Encode(name[1..])
    else if Plain(name[0]) then [name[0]] + Encode(name[1..])
    else
      var n := RunLength(name);
      [AMP] + ShiftText(name[..n]) + [MINUS] + Encode(name[n..])
  }

  // --------------------------------------------------------------- decoder

  function Find(s: seq<Byte>, b: int): (n: nat)
    ensures n <= |s|
    ensures forall i :: 0 <= i < n ==> s[i] != b
    ensures n < |s| ==> s[n] == b
  {
    if s == [] || s[0] == b then 0 else 1 + Find(s[1..], b)
  }

  /** The strict reader of RFC 3501: printable ASCII only, every ampersand opens a
      shift that a minus closes, a shift is canonical base64 of characters that
      need one, and a shift never directly follows another (afterShift). */
  function Decode(s: seq<Byte>, afterShift: bool): Option<seq<Rune>>
    decreases |s|
  {
    if s == [] then Some([])
    else if Plain(s[0]) then Cons(s[0], Decode(s[1..], false))
    else if s[0] != AMP then None
    else
      var n := Find(s[1..], MINUS);
      if n == |s| - 1 then None
      else if n == 0 then Cons(AMP, Decode(s[2..], false))
      else if afterShift then None
      else
        match (ShiftRun(s[1..n + 1]), Decode(s[n + 2..], true))
        case (Some(run), Some(rest)) => Some(run + rest)
        case _ => None
  }

  lemma {:induction false} FindFirst(a: seq<Byte>, b: int, rest: seq<Byte>)
    requires forall i :: 0 <= i < |a| ==> a[i] != b
    requires rest != [] && rest[0] == b
    ensures Find(a + rest, b) == |a|
  {
    if a == [] {
      assert a + rest == rest;
    } else {
      assert (a + rest)[1..] == a[1..] + rest;
      FindFirst(a[1..], b, rest);
    }
  }

  lemma DecodeAmp(rest: seq<Byte>, afterShift: bool)
    ensures Decode([AMP, MINUS] + rest, afterShift) == Cons(AMP, Decode(rest, false))
  {
    var s := [AMP, MINUS] + rest;
    assert s[1..] == [] + ([MINUS] + rest) && s[2..] == rest;
    FindFirst([], MINUS, [MINUS] + rest);
  }

  lemma DecodeShift(text: seq<Byte>, rest: seq<Byte>)
    requires text != [] && forall i :: 0 <= i < |text| ==> text[i] != MINUS
    requires ShiftRun(text).Some? && Decode(rest, true).Some?
    ensures Decode([AMP] + text + [MINUS] + rest, false) == Some(ShiftRun(text).value + Decode(rest, true).value)
  {
    hide ShiftRun;
    var s := [AMP] + text + [MINUS] + rest;
    assert s[1..] == text + ([MINUS] + rest);
    FindFirst(text, MINUS, [MINUS] + rest);
    assert s[1..|text| + 1] == text && s[|text| + 2..] == rest;
  }

  /** Reading an encoded name gives the name back, for every name. */
  lemma {:induction false} DecodeEncoded(name: seq<Rune>, afterShift: bool)
    requires afterShift && name != [] ==> !Wide(name[0])
    ensures Decode(Encode(name), afterShift) == Some(name)
    decreases |name|
  {
    hide ShiftText, ShiftRun, RunLength;
    if name != [] {
      if Wide(name[0]) {
        var n := RunLength(name);
        ShiftRunText(name[..n]);
        DecodeEncoded(name[n..], true);
        DecodeShift(ShiftText(name[..n]), Encode(name[n..]));
        assert name == name[..n] + name[n..];
      } else {
        assert name == [name[0]] + name[1..];
        DecodeEncoded(name[1..], false);
        if name[0] == AMP {
          DecodeAmp(Encode(name[1..]), afterShift);
        } else {
          assert Encode(name)[1..] == Encode(name[1..]);
        }
      }
    }
  }

  lemma {:induction false} RunLengthIs(run: seq<Rune>, rest: seq<Rune>)
    requires forall i :: 0 <= i < |run| ==> Wide(run[i])
    requires rest != [] ==> !Wide(rest[0])
    ensures RunLength(run + rest) == |run|
  {
    if run != [] {
      assert (run + rest)[1..] == run[1..] + rest;
      RunLengthIs(run[1..], rest);
    } else {
      assert run + rest == rest;
    }
  }

  lemma EncodeRun(run: seq<Rune>, rest: seq<Rune>)
    requires run != [] && forall i :: 0 <= i < |run| ==> Wide(run[i])
    requires rest != [] ==> !Wide(rest[0])
    ensures Encode(run + rest) == [AMP] + ShiftText(run) + [MINUS] + Encode(rest)
  {
    hide ShiftText;
    RunLengthIs(run, rest);
    var name := run + rest;
    assert name[..|run|] == run && name[|run|..] == rest;
  }

  lemma EncodeOne(r: Rune, rest: seq<Rune>)
    ensures Plain(r) ==> Encode([r] + rest) == [r] + Encode(rest)
    ensures r == AMP ==> Encode([r] + rest) == [AMP, MINUS] + Encode(rest)
  {
    hide ShiftText;
    assert ([r] + rest)[1..] == rest;
  }

  lemma ShiftParts(s: seq<Byte>, afterShift: bool) returns (text: seq<Byte>, tail: seq<Byte>)
    requires Decode(s, afterShift).Some? && s != [] && !Plain(s[0])
    ensures s == [AMP] + text + [MINUS] + tail && |tail| < |s|
    ensures text == [] ==> Decode(tail, false).Some? && Decode(s, afterShift) == Cons(AMP, Decode(tail, false))
    ensures text != [] ==> !afterShift && ShiftRun(text).Some? && Decode(tail, true).Some?
    ensures text != [] ==> Decode(s, afterShift).value == ShiftRun(text).value + Decode(tail, true).value
  {
    hide ShiftRun;
    var n := Find(s[1..], MINUS);
    text, tail := s[1..n + 1], s[n + 2..];
  }

  /** Nothing else reads as that name: a text the reader accepts is the encoding. */
  lemma {:induction false} EncodeDecoded(s: seq<Byte>, afterShift: bool)
    requires Decode(s, afterShift).Some?
    ensures Encode(Decode(s, afterShift).value) == s
    ensures afterShift && Decode(s, afterShift).value != [] ==> !Wide(Decode(s, afterShift).value[0])
    decreases |s|
  {
    hide ShiftRun, ShiftText, Encode;
    if s == [] {
      EncodeEmpty();
    } else if Plain(s[0]) {
      EncodeDecoded(s[1..], false);
      EncodeOne(s[0], Decode(s[1..], false).value);
    } else {
      var text, tail := ShiftParts(s, afterShift);
      if text == [] {
        EncodeDecoded(tail, false);
        EncodeOne(AMP, Decode(tail, false).value);
      } else {
        EncodeDecoded(tail, true);
        ShiftTextRun(text);
        EncodeRun(ShiftRun(text).value, Decode(tail, true).value);
      }
    }
  }

  lemma EncodeEmpty()
    ensures Encode([]) == []
  {
  }

  /** The encoder and the strict reader are inverse bijections. */
  lemma EncodeIffDecode(name: seq<Rune>, s: seq<Byte>)
    ensures Encode(name) == s <==> Decode(s, false) == Some(name)
  {
    DecodeEncoded(name, false);
    if Decode(s, false) == Some(name) {
      EncodeDecoded(s, false);
    }
  }

  /** Hence two mailbox names never share an encoding. */
  lemma EncodeInjective(a: seq<Rune>, b: seq<Rune>)
    requires Encode(a) == Encode(b)
    ensures a == b
  {
    DecodeEncoded(a, false);
    DecodeEncoded(b, false);
  }

  /** An encoded name is printable ASCII. */
  lemma {:induction false} EncodedIsPrintable(name: seq<Rune>)
    ensures forall i :: 0 <= i < |Encode(name)| ==> 0x20 <= Encode(name)[i] <= 0x7E
    decreases |name|
  {
    if name != [] {
      if !Wide(name[0]) {
        EncodedIsPrintable(name[1..]);
      } else {
        var n := RunLength(name);
        EncodedIsPrintable(name[n..]);
        var cs := Base64.Encode(UnitBytes(Units(name[..n])));
        forall i | 0 <= i < |cs| ensures 0x20 <= Letters(cs)[i] <= 0x7E {
        }
      }
    }
  }

  /** The early return is no special case: a name with nothing to encode is its own encoding. */
  lemma {:induction false} PlainNameIsItsEncoding(name: seq<Rune>)
    ensures Encode(name) == name <==> forall i :: 0 <= i < |name| ==> Plain(name[i])
    ensures |Encode(name)| >= |name|
    decreases |name|
  {
    if name != [] {
      if Plain(name[0]) {
        PlainNameIsItsEncoding(name[1..]);
        assert Encode(name)[1..] == Encode(name[1..]);
        assert name == [name[0]] + name[1..];
      } else if name[0] == AMP {
        PlainNameIsItsEncoding(name[1..]);
        assert |Encode(name)| > |name|;
      } else {
        var n := RunLength(name);
        PlainNameIsItsEncoding(name[n..]);
        ShiftIsLonger(name[..n]);
        assert Encode(name)[0] == AMP;
      }
    }
  }

  lemma {:induction false} ShiftIsLonger(run: seq<Rune>)
    ensures |ShiftText(run)| >= |run|
  {
    hide S0, S1, S2, S3;
    UnitCount(run);
    ByteCount(Units(run));
    EncodeCount(UnitBytes(Units(run)));
  }

  lemma {:induction false} UnitCount(run: seq<Rune>)
    ensures |Units(run)| >= |run|
  {
    if run != [] { UnitCount(run[1..]); }
  }

  lemma {:induction false} ByteCount(us: seq<Unit>)
    ensures |UnitBytes(us)| == 2 * |us|
  {
    if us != [] { ByteCount(us[1..]); }
  }

  lemma {:induction false} EncodeCount(bs: seq<Byte>)
    ensures |Base64.Encode(bs)| >= |bs|
  {
    hide S0, S1, S2, S3;
    if |bs| >= 3 { EncodeCount(bs[3..]); }
  }

  // ------------------------------------------------------- the Go function

  /** imapUTF7, loop for loop. */
  method ImapUTF7(name: seq<Rune>) returns (out: seq<Byte>)
    ensures out == Encode(name)
  {
    hide Encode, ShiftText;
    EncodeEmpty();
    if forall k :: 0 <= k < |name| ==> !(name[k] == AMP || name[k] < 0x20 || name[k] > 0x7E) {
      PlainNameIsItsEncoding(name);
      return name;
    }
    var b: seq<Byte> := [];
    var i := 0;
    assert name[0..] == name;
    while i < |name|
      invariant i <= |name|
      invariant Encode(name) == b + Encode(name[i..])
    {
      var r := name[i];
      if r == AMP {
        EncodeStep(name, i);
        b := b + [AMP, MINUS];
        i := i + 1;
        continue;
      }
      if 0x20 <= r <= 0x7E {
        EncodeStep(name, i);
        b := b + [r];
        i := i + 1;
        continue;
      }
      var j := i;
      while j < |name| && name[j] != AMP && (name[j] < 0x20 || name[j] > 0x7E)
        invariant i <= j <= |name|
        invariant forall k :: i <= k < j ==> Wide(name[k])
      {
        j := j + 1;
      }
      EncodeRunAt(name, i, j);
      var enc := ShiftOf(name[i..j]);
      b := b + ([AMP] + enc + [MINUS]);
      i := j;
    }
    assert name[|name|..] == [];
    out := b;
  }

  lemma EncodeStep(name: seq<Rune>, i: nat)
    requires i < |name| && !Wide(name[i])
    ensures Encode(name[i..]) == (if name[i] == AMP then [AMP, MINUS] else [name[i]]) + Encode(name[i + 1..])
  {
    hide Encode;
    EncodeOne(name[i], name[i + 1..]);
    assert name[i..] == [name[i]] + name[i + 1..];
  }

  lemma EncodeRunAt(name: seq<Rune>, i: nat, j: nat)
    requires i < j <= |name| && forall k :: i <= k < j ==> Wide(name[k])
    requires j < |name| ==> !Wide(name[j])
    ensures Encode(name[i..]) == [AMP] + ShiftText(name[i..j]) + [MINUS] + Encode(name[j..])
  {
    hide Encode, ShiftText;
    EncodeRun(name[i..j], name[j..]);
    assert name[i..] == name[i..j] + name[j..];
  }

  /** One run's base64 text. */
  method ShiftOf(run: seq<Rune>) returns (enc: seq<Byte>)
    ensures enc == ShiftText(run)
  {
    var units := SplitUnits(run);
    var buf := SplitBytes(units);
    enc := StdText(Base64.Encode(buf));
    enc := ReplaceSlashes(enc);
  }

  lemma UnitsStep(run: seq<Rune>, k: nat)
    requires k < |run|
    ensures Units(run[k..]) == RuneUnits(run[k]) + Units(run[k + 1..])
  {
    hide RuneUnits;
    assert run[k..][1..] == run[k + 1..];
  }

  /** The loop over `rr`, splitting runes beyond the basic plane into surrogates. */
  method SplitUnits(run: seq<Rune>) returns (units: seq<Unit>)
    ensures units == Units(run)
  {
    hide Units, High, Low, Quot, Rem;
    units := [];
    assert run[0..] == run;
    for k := 0 to |run|
      invariant Units(run) == units + Units(run[k..])
    {
      UnitsStep(run, k);
      var rr: int := run[k];
      if rr >= 0x10000 {
        SurrogateParts(rr);
        rr := rr - 0x10000;
        units := units + [0xD800 + rr / 0x400, 0xDC00 + rr % 0x400];
      } else {
        units := units + [rr];
      }
    }
    assert run[|run|..] == [];
    UnitsEmpty();
  }

  lemma UnitsEmpty()
    ensures Units([]) == []
  {
  }

  /** The loop over `u`, most significant byte first. */
  method SplitBytes(units: seq<Unit>) returns (buf: seq<Byte>)
    ensures buf == UnitBytes(units)
  {
    hide Quot, Rem;
    buf := [];
    for k := 0 to |units|
      invariant UnitBytes(units) == buf + UnitBytes(units[k..])
    {
      assert units[k..][1..] == units[k + 1..];
      Cut(units[k], 256);
      buf := buf + [units[k] / 256, units[k] % 256];
    }
  }
}
