/** normalizeLineEndings of internal/mailparse/lenient.go: every line break becomes CRLF. */
module LineEndings {
  import opened Base64

  const CR: Byte := 0x0D
  const LF: Byte := 0x0A

  /** Bytes and line breaks: what a text says once CR, LF and CRLF all mean a new line. */
  datatype Mark = Text(b: Byte) | Break

  function Marks(s: seq<Byte>): seq<Mark>
    decreases |s|
  {
    if s == [] then []
    else if s[0] == CR && |s| > 1 && s[1] == LF then [Break] + Marks(s[2..])
    else if s[0] == CR || s[0] == LF then [Break] + Marks(s[1..])
    else [Text(s[0])] + Marks(s[1..])
  }

  /** Marks written out with CRLF for every break. */
  function Write(ms: seq<Mark>): seq<Byte> {
    if ms == [] then [] else (if ms[0].Break? then [CR, LF] else [ms[0].b]) + Write(ms[1..])
  }

  /** What the byte at i adds: a break counts once, at its last byte; anything else is text. */
  function MarkAt(s: seq<Byte>, i: nat): seq<Mark>
    requires i < |s|
  {
    if s[i] == LF then [Break]
    else if s[i] == CR then if i + 1 < |s| && s[i + 1] == LF then [] else [Break]
    else [Text(s[i])]
  }

  function MarksFrom(s: seq<Byte>, i: nat): seq<Mark>
    requires i <= |s|
    decreases |s| - i
  {
    if i == |s| then [] else MarkAt(s, i) + MarksFrom(s, i + 1)
  }

  lemma {:induction false} MarksOfRest(s: seq<Byte>, i: nat)
    requires i <= |s|
    ensures Marks(s[i..]) == MarksFrom(s, i)
    decreases |s| - i
  {
    if i < |s| {
      assert s[i..][1..] == s[i + 1..];
      MarksOfRest(s, i + 1);
      if i + 1 < |s| {
        assert s[i..][2..] == s[i + 2..];
        MarksOfRest(s, i + 2);
      }
    }
  }

  /** Byte by byte: every CRLF, lone CR and lone LF is one break, every other byte is itself,
      and all stand in the order of the text. */
  lemma MarksByPosition(s: seq<Byte>)
    ensures Marks(s) == MarksFrom(s, 0)
  {
    assert s[0..] == s;
    MarksOfRest(s, 0);
  }

  /** The byte at i ends or begins no half of a CRLF. */
  predicate BreakOk(s: seq<Byte>, i: nat)
    requires i < |s|
  {
    && (s[i] == LF ==> i > 0 && s[i - 1] == CR)
    && (s[i] == CR ==> i + 1 < |s| && s[i + 1] == LF)
  }

  predicate Standard(s: seq<Byte>) {
    forall i :: 0 <= i < |s| ==> BreakOk(s, i)
  }

  lemma {:induction false} MarksOfWritten(ms: seq<Mark>)
    requires forall i :: 0 <= i < |ms| && ms[i].Text? ==> ms[i].b != CR && ms[i].b != LF
    ensures Marks(Write(ms)) == ms
  {
    if ms != [] {
      MarksOfWritten(ms[1..]);
      var s := Write(ms);
      if ms[0].Break? {
        assert s[2..] == Write(ms[1..]);
      } else {
        assert s[1..] == Write(ms[1..]);
      }
    }
  }

  lemma {:induction false} MarksArePlain(s: seq<Byte>)
    ensures forall i :: 0 <= i < |Marks(s)| && Marks(s)[i].Text? ==> Marks(s)[i].b != CR && Marks(s)[i].b != LF
    decreases |s|
  {
    if s != [] {
      MarksArePlain(s[1..]);
      if |s| > 1 { MarksArePlain(s[2..]); }
    }
  }

  lemma {:induction false} WrittenIsStandard(ms: seq<Mark>)
    requires forall i :: 0 <= i < |ms| && ms[i].Text? ==> ms[i].b != CR && ms[i].b != LF
    ensures Standard(Write(ms))
  {
    if ms != [] {
      WrittenIsStandard(ms[1..]);
      var t, head := Write(ms[1..]), if ms[0].Break? then [CR, LF] else [ms[0].b];
      var s := head + t;
      forall i | 0 <= i < |s| ensures BreakOk(s, i) {
        if i >= |head| {
          assert BreakOk(t, i - |head|);
        }
      }
    }
  }

  lemma {:induction false} StandardIsFixed(s: seq<Byte>)
    requires s != [] ==> s[0] != LF
    requires forall i :: 1 <= i < |s| ==> BreakOk(s, i)
    requires s != [] ==> BreakOk(s, 0)
    ensures Write(Marks(s)) == s
    decreases |s|
  {
    if s != [] {
      if s[0] == CR {
        Drop(s, 2);
        StandardIsFixed(s[2..]);
        assert s == [CR, LF] + s[2..];
      } else {
        Drop(s, 1);
        StandardIsFixed(s[1..]);
        assert s == [s[0]] + s[1..];
      }
    }
  }

  lemma Drop(s: seq<Byte>, n: nat)
    requires 1 <= n <= |s| && s[n - 1] != CR
    requires forall i :: n <= i < |s| ==> BreakOk(s, i)
    ensures forall i :: 0 <= i < |s[n..]| ==> BreakOk(s[n..], i)
    ensures n < |s| ==> s[n..][0] != LF
  {
    forall i | 0 <= i < |s[n..]| ensures BreakOk(s[n..], i) {
      assert BreakOk(s, n + i);
    }
    if n < |s| { assert BreakOk(s, n); }
  }

  /** The repair keeps every byte and every break of the text, leaves only CRLF
      breaks, and changes nothing exactly when there was nothing else. */
  lemma RepairKeepsText(s: seq<Byte>)
    ensures Standard(Write(Marks(s)))
    ensures Marks(Write(Marks(s))) == Marks(s)
    ensures Write(Marks(s)) == s <==> Standard(s)
  {
    MarksArePlain(s);
    WrittenIsStandard(Marks(s));
    MarksOfWritten(Marks(s));
    if Standard(s) {
      if s != [] { assert BreakOk(s, 0); }
      StandardIsFixed(s);
    }
  }

  /** What is still to be written at index i, the LF of a CRLF apart. */
  ghost function Rest(raw: seq<Byte>, i: nat): seq<Byte>
    requires i <= |raw|
  {
    if HalfWay(raw, i) then [LF] + Write(Marks(raw[i + 1..])) else Write(Marks(raw[i..]))
  }

  predicate HalfWay(raw: seq<Byte>, i: nat)
    requires i <= |raw|
  {
    0 < i < |raw| && raw[i - 1] == CR && raw[i] == LF
  }

  /** What the loop appends for the byte at i. */
  function Emitted(raw: seq<Byte>, i: nat): seq<Byte>
    requires i < |raw|
  {
    if raw[i] == CR then (if HalfWay(raw, i + 1) then [CR] else [CR, LF])
    else if raw[i] == LF then (if HalfWay(raw, i) then [LF] else [CR, LF])
    else [raw[i]]
  }

  lemma RestUnfolds(raw: seq<Byte>, i: nat)
    requires i < |raw|
    ensures Rest(raw, i) == Emitted(raw, i) + Rest(raw, i + 1)
  {
    assert raw[i..][1..] == raw[i + 1..];
    if HalfWay(raw, i + 1) {
      assert raw[i..][2..] == raw[i + 2..];
    }
  }

  lemma RestStep(out: seq<Byte>, raw: seq<Byte>, i: nat)
    requires i < |raw|
    ensures out + Rest(raw, i) == (out + Emitted(raw, i)) + Rest(raw, i + 1)
  {
    hide Rest, Emitted;
    RestUnfolds(raw, i);
  }

  method NormalizeLineEndings(raw: seq<Byte>) returns (out: seq<Byte>)
    ensures out == Write(Marks(raw))
  {
    RepairKeepsText(raw);
    hide Marks, Write;
    var needs := NeedsRepair(raw);
    if !needs {
      return raw;
    }
    out := Repair(raw);
  }

  method NeedsRepair(raw: seq<Byte>) returns (needs: bool)
    ensures needs <==> !Standard(raw)
  {
    for i := 0 to |raw|
      invariant forall j :: 0 <= j < i ==> BreakOk(raw, j)
    {
      var b := raw[i];
      if b == LF && (i == 0 || raw[i - 1] != CR) {
        assert !BreakOk(raw, i);
        return true;
      }
      if b == CR && (i + 1 >= |raw| || raw[i + 1] != LF) {
        assert !BreakOk(raw, i);
        return true;
      }
    }
    return false;
  }

  method Repair(raw: seq<Byte>) returns (out: seq<Byte>)
    ensures out == Write(Marks(raw))
  {
    out := [];
    AllLeft(raw);
    hide Marks, Write, Rest;
    for i := 0 to |raw|
      invariant out + Rest(raw, i) == Write(Marks(raw))
      invariant out != [] && out[|out| - 1] == CR <==> HalfWay(raw, i)
    {
      RestStep(out, raw, i);
      var b := raw[i];
      if b == CR {
        out := out + [CR];
        if i + 1 >= |raw| || raw[i + 1] != LF {
          out := out + [LF];
        }
      } else if b == LF {
        if |out| == 0 || out[|out| - 1] != CR {
          out := out + [CR];
        }
        out := out + [LF];
      } else {
        out := out + [b];
      }
    }
  }

  lemma AllLeft(raw: seq<Byte>)
    ensures [] + Rest(raw, 0) == Write(Marks(raw))
    ensures Rest(raw, |raw|) == []
  {
    assert raw[0..] == raw && raw[|raw|..] == [];
  }
}
