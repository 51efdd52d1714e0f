/** The state file mbsync leaves beside a Maildir and the near-side UID in a Maildir
    file name, as parsed in internal/mailsync/service.go. */
module MbsyncState {
  import opened Text
  import opened Wrappers
  import opened Decimals

  const UINT32: nat := 0x1_0000_0000

  // ------------------------------------------------------- splitting the text

  /** strings.ReplaceAll(s, "\r\n", "\n"). */
  function Unify(s: Str): Str {
    if s == [] then []
    else if |s| >= 2 && s[0] == 0x0D && s[1] == NEWLINE then [NEWLINE] + Unify(s[2..])
    else [s[0]] + Unify(s[1..])
  }

  /** strings.Split(s, "\n"). */
  function Split(s: Str): (lines: seq<Str>)
    ensures lines != []
  {
    if s == [] then [[]]
    else
      var rest := Split(s[1..]);
      if s[0] == NEWLINE then [[]] + rest else [[s[0]] + rest[0]] + rest[1..]
  }

  function Lines(data: Str): seq<Str> { Split(Unify(data)) }

  // --------------------------------------------------------- what a line says

  /** A header line names a value. */
  function HeaderOf(line: Str): Option<(Str, nat)> {
    var f := Words(line);
    if |f| != 2 then None
    else
      var v := ParseUint(f[1], UINT32);
      if v.None? then None else Some((f[0], v.value))
  }

  function Positive(s: Str): (r: Option<nat>)
    ensures r.Some? ==> 0 < r.value < UINT32
  {
    var v := ParseUint(s, UINT32);
    if v.Some? && v.value != 0 then v else None
  }

  predicate Skipped(line: Str) { Trim(line) == [] }

  /** A mapping line pairs a far UID with a near UID; further text may follow. */
  function MappingOf(line: Str): Option<(nat, nat)> {
    var f := Words(line);
    if Skipped(line) || |f| < 2 || |f| > 3 then None
    else
      var far, near := Positive(f[0]), Positive(f[1]);
      if far.None? || near.None? then None else Some((far.value, near.value))
  }

  // --------------------------------------------------- when a file is accepted

  function FirstEmpty(lines: seq<Str>): (b: nat)
    ensures b <= |lines|
    ensures forall k :: 0 <= k < b ==> lines[k] != []
    ensures b < |lines| ==> lines[b] == []
  {
    if lines == [] || lines[0] == [] then 0 else 1 + FirstEmpty(lines[1..])
  }

  function FarName(): Str { [0x46, 0x61, 0x72, 0x55, 0x69, 0x64, 0x56, 0x61, 0x6C, 0x69, 0x64, 0x69, 0x74, 0x79] }
  function NearName(): Str {
    [0x4E, 0x65, 0x61, 0x72, 0x55, 0x69, 0x64, 0x56, 0x61, 0x6C, 0x69, 0x64, 0x69, 0x74, 0x79]
  }

  ghost predicate Declares(headers: seq<Str>, name: Str, value: nat) {
    exists k :: 0 <= k < |headers| && HeaderOf(headers[k]) == Some((name, value))
  }

  /** The mapping line lists this pair. */
  ghost predicate Lists(mappings: seq<Str>, far: nat, near: nat) {
    exists k :: 0 <= k < |mappings| && MappingOf(mappings[k]) == Some((far, near))
  }

  ghost predicate HeadersRead(headers: seq<Str>) {
    && (forall k :: 0 <= k < |headers| ==> HeaderOf(headers[k]).Some?)
    && (forall j, k :: 0 <= j < k < |headers| ==> HeaderOf(headers[j]).value.0 != HeaderOf(headers[k]).value.0)
  }

  ghost predicate Validity(headers: seq<Str>, name: Str) {
    exists v: nat :: v != 0 && Declares(headers, name, v)
  }

  predicate Clash(a: Option<(nat, nat)>, b: Option<(nat, nat)>) {
    a.Some? && b.Some? && (a.value.0 == b.value.0 || a.value.1 == b.value.1)
  }

  ghost predicate MappingsRead(mappings: seq<Str>) {
    && (forall k :: 0 <= k < |mappings| ==> Skipped(mappings[k]) || MappingOf(mappings[k]).Some?)
    && (forall j, k :: 0 <= j < k < |mappings| ==> !Clash(MappingOf(mappings[j]), MappingOf(mappings[k])))
  }

  function HeaderPart(lines: seq<Str>): seq<Str> { lines[..FirstEmpty(lines)] }

  function MappingPart(lines: seq<Str>): seq<Str> {
    if FirstEmpty(lines) == |lines| then [] else lines[FirstEmpty(lines) + 1..]
  }

  ghost predicate WellFormed(lines: seq<Str>) {
    && FirstEmpty(lines) < |lines|
    && HeadersRead(HeaderPart(lines))
    && Validity(HeaderPart(lines), FarName())
    && Validity(HeaderPart(lines), NearName())
    && MappingsRead(MappingPart(lines))
  }

  datatype FolderState = FolderState(farUIDValidity: nat, nearToFar: map<nat, nat>)

  ghost predicate Maps(mappings: seq<Str>, m: map<nat, nat>) {
    forall far: nat, near: nat :: (near, far) in m.Items <==> Lists(mappings, far, near)
  }

  ghost predicate Describes(lines: seq<Str>, st: FolderState) {
    && Declares(HeaderPart(lines), FarName(), st.farUIDValidity)
    && Maps(MappingPart(lines), st.nearToFar)
  }

  // ---------------------------------------------------------------- the parser

  ghost predicate HeaderSoFar(headers: seq<Str>, header: map<Str, nat>) {
    forall name: Str, v: nat :: (name, v) in header.Items <==> Declares(headers, name, v)
  }

  /** The header loop: reads on to the first empty line. */
  method ReadHeader(lines: seq<Str>) returns (r: Option<(map<Str, nat>, nat)>)
    ensures r.Some? <==> FirstEmpty(lines) < |lines| && HeadersRead(HeaderPart(lines))
    ensures r.Some? ==> r.value.1 == FirstEmpty(lines) && HeaderSoFar(HeaderPart(lines), r.value.0)
  {
    hide HeaderOf, Words;
    var header: map<Str, nat> := map[];
    var index := 0;
    while index < |lines| && lines[index] != []
      invariant index <= FirstEmpty(lines)
      invariant HeadersRead(lines[..index])
      invariant HeaderSoFar(lines[..index], header)
    {
      var h := HeaderOf(lines[index]);
      if h.None? {
        assert HeaderPart(lines)[index] == lines[index];
        return None;
      }
      if h.value.0 in header {
        assert (h.value.0, header[h.value.0]) in header.Items;
        ghost var k :| 0 <= k < index && HeaderOf(lines[..index][k]) == Some((h.value.0, header[h.value.0]));
        assert HeaderPart(lines)[index] == lines[index] && HeaderPart(lines)[k] == lines[k];
        return None;
      }
      OneMoreHeader(lines, index, header, h.value.0, h.value.1);
      header := header[h.value.0 := h.value.1];
      index := index + 1;
    }
    if index == |lines| { return None; }
    return Some((header, index));
  }

  lemma OneMoreHeader(lines: seq<Str>, index: nat, header: map<Str, nat>, name: Str, value: nat)
    requires index < |lines| && HeaderOf(lines[index]) == Some((name, value)) && name !in header
    requires HeadersRead(lines[..index]) && HeaderSoFar(lines[..index], header)
    ensures HeadersRead(lines[..index + 1]) && HeaderSoFar(lines[..index + 1], header[name := value])
  {
    hide HeaderOf, Words;
    var was, now := lines[..index], lines[..index + 1];
    assert forall k :: 0 <= k < index ==> was[k] == now[k];
    forall k | 0 <= k < index ensures HeaderOf(now[k]).value.0 != name {
      var other := HeaderOf(was[k]).value;
      assert Declares(was, other.0, other.1);
      assert (other.0, other.1) in header.Items;
    }
    forall n: Str, v: nat ensures (n, v) in header[name := value].Items <==> Declares(now, n, v) {
      assert HeaderOf(now[index]) == Some((name, value));
      if Declares(now, n, v) && n != name {
        var k :| 0 <= k < |now| && HeaderOf(now[k]) == Some((n, v));
        assert HeaderOf(was[k]) == Some((n, v));
        assert (n, v) in header.Items;
      }
      if (n, v) in header.Items {
        var k :| 0 <= k < |was| && HeaderOf(was[k]) == Some((n, v));
        assert HeaderOf(now[k]) == Some((n, v));
      }
    }
  }

  ghost predicate FarSeen(mappings: seq<Str>, farSeen: set<nat>) {
    forall far: nat :: far in farSeen <==> exists near: nat :: Lists(mappings, far, near)
  }

  /** The mapping loop. */
  method ReadMappings(mappings: seq<Str>) returns (r: Option<map<nat, nat>>)
    ensures r.Some? <==> MappingsRead(mappings)
    ensures r.Some? ==> Maps(mappings, r.value)
  {
    hide MappingOf, Skipped;
    var nearToFar: map<nat, nat> := map[];
    var farSeen: set<nat> := {};
    for i := 0 to |mappings|
      invariant MappingsRead(mappings[..i])
      invariant Maps(mappings[..i], nearToFar)
      invariant FarSeen(mappings[..i], farSeen)
    {
      if Skipped(mappings[i]) {
        SkippedMaps(mappings[i]);
        OneMoreSkipped(mappings, i, nearToFar, farSeen);
        continue;
      }
      var m := MappingOf(mappings[i]);
      if m.None? { return None; }
      var far, near := m.value.0, m.value.1;
      if near in nearToFar {
        assert (near, nearToFar[near]) in nearToFar.Items;
        assert Lists(mappings[..i], nearToFar[near], near);
        EarlierClash(mappings, i, nearToFar[near], near);
        return None;
      }
      if far in farSeen {
        ghost var other :| Lists(mappings[..i], far, other);
        EarlierClash(mappings, i, far, other);
        return None;
      }
      OneMoreMapping(mappings, i, nearToFar, farSeen, far, near);
      nearToFar := nearToFar[near := far];
      farSeen := farSeen + {far};
    }
    assert mappings[..|mappings|] == mappings;
    return Some(nearToFar);
  }

  lemma SkippedMaps(line: Str)
    requires Skipped(line)
    ensures MappingOf(line) == None
  {
  }

  lemma EarlierClash(mappings: seq<Str>, i: nat, far: nat, near: nat)
    requires i < |mappings| && Lists(mappings[..i], far, near) && Clash(Some((far, near)), MappingOf(mappings[i]))
    ensures !MappingsRead(mappings)
  {
    hide MappingOf, Skipped;
    var k :| 0 <= k < i && MappingOf(mappings[..i][k]) == Some((far, near));
    assert MappingOf(mappings[k]) == Some((far, near));
  }

  lemma ListsOneMore(mappings: seq<Str>, i: nat, far: nat, near: nat)
    requires i < |mappings|
    ensures Lists(mappings[..i + 1], far, near) <==>
      Lists(mappings[..i], far, near) || MappingOf(mappings[i]) == Some((far, near))
  {
    hide MappingOf;
    var was, now := mappings[..i], mappings[..i + 1];
    assert now[i] == mappings[i];
    assert forall k :: 0 <= k < i ==> was[k] == now[k];
  }

  lemma OneMoreSkipped(mappings: seq<Str>, i: nat, nearToFar: map<nat, nat>, farSeen: set<nat>)
    requires i < |mappings| && Skipped(mappings[i]) && MappingOf(mappings[i]) == None
    requires MappingsRead(mappings[..i]) && Maps(mappings[..i], nearToFar) && FarSeen(mappings[..i], farSeen)
    ensures MappingsRead(mappings[..i + 1]) && Maps(mappings[..i + 1], nearToFar) && FarSeen(mappings[..i + 1], farSeen)
  {
    hide MappingOf, Skipped, Lists;
    var was, now := mappings[..i], mappings[..i + 1];
    assert now[i] == mappings[i];
    assert forall k :: 0 <= k < i ==> was[k] == now[k];
    forall far: nat, near: nat ensures Lists(now, far, near) <==> Lists(was, far, near) {
      ListsOneMore(mappings, i, far, near);
    }
  }

  lemma NoClash(mappings: seq<Str>, i: nat, far: nat, near: nat)
    requires i < |mappings| && MappingOf(mappings[i]) == Some((far, near)) && MappingsRead(mappings[..i])
    requires forall f: nat, n: nat :: Lists(mappings[..i], f, n) ==> f != far && n != near
    ensures MappingsRead(mappings[..i + 1])
  {
    hide MappingOf, Skipped;
    var was, now := mappings[..i], mappings[..i + 1];
    assert now[i] == mappings[i];
    assert forall k :: 0 <= k < i ==> was[k] == now[k];
    forall k | 0 <= k < i ensures !Clash(MappingOf(now[k]), MappingOf(now[i])) {
      if MappingOf(was[k]).Some? {
        var p := MappingOf(was[k]).value;
        assert MappingOf(was[k]) == Some((p.0, p.1));
        assert Lists(was, p.0, p.1);
      }
    }
  }

  lemma OneMoreMapping(mappings: seq<Str>, i: nat, nearToFar: map<nat, nat>, farSeen: set<nat>, far: nat, near: nat)
    requires i < |mappings| && MappingOf(mappings[i]) == Some((far, near)) && near !in nearToFar && far !in farSeen
    requires MappingsRead(mappings[..i]) && Maps(mappings[..i], nearToFar) && FarSeen(mappings[..i], farSeen)
    ensures MappingsRead(mappings[..i + 1])
    ensures Maps(mappings[..i + 1], nearToFar[near := far])
    ensures FarSeen(mappings[..i + 1], farSeen + {far})
  {
    hide MappingOf, Skipped, Lists, MappingsRead;
    var was, now := mappings[..i], mappings[..i + 1];
    forall f: nat, n: nat | Lists(was, f, n) ensures f != far && n != near {
      assert (n, f) in nearToFar.Items;
    }
    NoClash(mappings, i, far, near);
    forall f: nat, n: nat ensures Lists(now, f, n) <==> Lists(was, f, n) || (f == far && n == near) {
      ListsOneMore(mappings, i, f, n);
    }
    assert Lists(now, far, near);
    assert forall f: nat, n: nat :: (n, f) in nearToFar[near := far].Items <==>
      (n, f) in nearToFar.Items || (n == near && f == far);
  }

  /** parseMBSyncFolderState: accepts exactly the well-formed files and keeps exactly what they say. */
  method ParseFolderState(data: Str) returns (r: Option<FolderState>)
    ensures r.Some? <==> WellFormed(Lines(data))
    ensures r.Some? ==> Describes(Lines(data), r.value)
  {
    hide Lines, MappingsRead, HeadersRead, Lists, Declares, FirstEmpty;
    var lines := Lines(data);
    var read := ReadHeader(lines);
    if read.None? { return None; }
    var header, blank := read.value.0, read.value.1;
    ghost var headers := HeaderPart(lines);
    FoundInHeader(headers, header, FarName());
    FoundInHeader(headers, header, NearName());
    if FarName() !in header || NearName() !in header { return None; }
    if header[FarName()] == 0 || header[NearName()] == 0 { return None; }
    var mappings := ReadMappings(lines[blank + 1..]);
    if mappings.None? { return None; }
    return Some(FolderState(header[FarName()], mappings.value));
  }

  lemma FoundInHeader(headers: seq<Str>, header: map<Str, nat>, name: Str)
    requires HeaderSoFar(headers, header)
    ensures Validity(headers, name) <==> name in header && header[name] != 0
    ensures name in header ==> Declares(headers, name, header[name])
  {
    hide Declares;
    if name in header {
      assert (name, header[name]) in header.Items;
    }
    if Validity(headers, name) {
      var v: nat :| v != 0 && Declares(headers, name, v);
      assert (name, v) in header.Items;
    }
  }

  /** An accepted file gives a mapping that is one-to-one both ways, over valid UIDs. */
  lemma AcceptedIsOneToOne(lines: seq<Str>, st: FolderState, near: nat, other: nat)
    requires WellFormed(lines) && Describes(lines, st) && near in st.nearToFar
    ensures 0 < near < UINT32 && 0 < st.nearToFar[near] < UINT32 && st.farUIDValidity != 0
    ensures other in st.nearToFar && st.nearToFar[other] == st.nearToFar[near] ==> other == near
  {
    hide Skipped, Words, FirstEmpty;
    var ms := MappingPart(lines);
    var far := st.nearToFar[near];
    assert (near, far) in st.nearToFar.Items;
    var k :| 0 <= k < |ms| && MappingOf(ms[k]) == Some((far, near));
    if other in st.nearToFar && st.nearToFar[other] == far {
      assert (other, far) in st.nearToFar.Items;
      var j :| 0 <= j < |ms| && MappingOf(ms[j]) == Some((far, other));
      assert Clash(MappingOf(ms[j]), MappingOf(ms[k]));
      assert j == k;
    }
    var v: nat :| v != 0 && Declares(HeaderPart(lines), FarName(), v);
    DeclaredOnce(HeaderPart(lines), FarName(), v, st.farUIDValidity);
  }

  lemma DeclaredOnce(headers: seq<Str>, name: Str, v: nat, w: nat)
    requires HeadersRead(headers) && Declares(headers, name, v) && Declares(headers, name, w)
    ensures v == w
  {
    hide HeaderOf;
    var j :| 0 <= j < |headers| && HeaderOf(headers[j]) == Some((name, v));
    var k :| 0 <= k < |headers| && HeaderOf(headers[k]) == Some((name, w));
    assert HeaderOf(headers[j]).value.0 == HeaderOf(headers[k]).value.0;
    assert j == k;
  }

  lemma ListedOnce(mappings: seq<Str>, far: nat, other: nat, near: nat)
    requires MappingsRead(mappings) && Lists(mappings, far, near) && Lists(mappings, other, near)
    ensures far == other
  {
    hide MappingOf, Skipped;
    var j :| 0 <= j < |mappings| && MappingOf(mappings[j]) == Some((far, near));
    var k :| 0 <= k < |mappings| && MappingOf(mappings[k]) == Some((other, near));
    assert Clash(MappingOf(mappings[j]), MappingOf(mappings[k]));
    assert Clash(MappingOf(mappings[k]), MappingOf(mappings[j]));
    assert j == k;
  }

  // ------------------------------------------------------ files as written

  /** A line behind the header: the UIDs of a message, with or without its flags, or nothing. */
  datatype Entry = Pair(far: nat, near: nat, flags: Option<Str>) | Blank

  /** A word of ASCII characters. */
  function Ascii(s: string): (w: Str)
    ensures |w| == |s|
  {
    seq(|s|, i requires 0 <= i < |s| => if s[i] < 0x80 as char then s[i] as int else 0x3F)
  }

  function HeaderLine(name: Str, value: nat): Str { name + [SPACE] + Dec(value) }

  function EntryLine(e: Entry): Str {
    match e
    case Blank => []
    case Pair(far, near, None) => Dec(far) + [SPACE] + Dec(near)
    case Pair(far, near, Some(flags)) => Dec(far) + [SPACE] + Dec(near) + [SPACE] + flags
  }

  function HeaderLines(headers: seq<(Str, nat)>): (lines: seq<Str>)
    ensures |lines| == |headers|
  {
    seq(|headers|, i requires 0 <= i < |headers| => HeaderLine(headers[i].0, headers[i].1))
  }

  function EntryLines(entries: seq<Entry>): (lines: seq<Str>)
    ensures |lines| == |entries|
  {
    seq(|entries|, i requires 0 <= i < |entries| => EntryLine(entries[i]))
  }

  /** The lines, each with its line end. */
  function Ended(lines: seq<Str>, end: Str): Str {
    if lines == [] then [] else lines[0] + end + Ended(lines[1..], end)
  }

  predicate IsLineEnd(end: Str) { end == [NEWLINE] || end == [0x0D, NEWLINE] }

  function WrittenState(headers: seq<(Str, nat)>, entries: seq<Entry>, end: Str): Str {
    Ended(HeaderLines(headers) + [[]] + EntryLines(entries), end)
  }

  predicate OneLine(s: Str) { 0x0D !in s && NEWLINE !in s }

  lemma UnifyEnd(end: Str, rest: Str)
    requires IsLineEnd(end)
    ensures Unify(end + rest) == [] + [NEWLINE] + Unify(rest)
  {
    assert (end + rest)[|end|..] == rest;
  }

  lemma UnifyOther(s: Str)
    requires s != [] && s[0] != 0x0D
    ensures Unify(s) == [s[0]] + Unify(s[1..])
  {
  }

  lemma Assoc(a: Str, b: Str, c: Str)
    ensures a + b + c == a + (b + c)
  {
  }

  lemma {:induction false} UnifyLine(a: Str, end: Str, rest: Str)
    requires OneLine(a) && IsLineEnd(end)
    ensures Unify(a + end + rest) == a + [NEWLINE] + Unify(rest)
  {
    var s := a + end + rest;
    if a == [] {
      assert s == end + rest;
      UnifyEnd(end, rest);
    } else {
      UnifyLine(a[1..], end, rest);
      assert s[1..] == a[1..] + end + rest && s[0] == a[0];
      UnifyOther(s);
      hide Unify;
      assert [a[0]] + a[1..] == a;
      Assoc([a[0]], a[1..], [NEWLINE] + Unify(rest));
      Assoc(a[1..], [NEWLINE], Unify(rest));
      Assoc(a, [NEWLINE], Unify(rest));
    }
  }

  lemma {:induction false} SplitLine(a: Str, rest: Str)
    requires OneLine(a)
    ensures Split(a + [NEWLINE] + rest) == [a] + Split(rest)
  {
    if a == [] {
      assert a + [NEWLINE] + rest == [NEWLINE] + rest && ([NEWLINE] + rest)[1..] == rest;
    } else {
      SplitLine(a[1..], rest);
      var s, lines := a + [NEWLINE] + rest, [a[1..]] + Split(rest);
      assert s[1..] == a[1..] + [NEWLINE] + rest && s[0] == a[0];
      assert lines[0] == a[1..] && lines[1..] == Split(rest) && [a[0]] + a[1..] == a;
    }
  }

  lemma {:induction false} EndedLines(lines: seq<Str>, end: Str)
    requires IsLineEnd(end) && forall k :: 0 <= k < |lines| ==> OneLine(lines[k])
    ensures Lines(Ended(lines, end)) == lines + [[]]
  {
    hide Unify, Split;
    if lines == [] {
      NoLines();
      assert lines + [[]] == [[]];
    } else {
      var rest := Ended(lines[1..], end);
      EndedLines(lines[1..], end);
      UnifyLine(lines[0], end, rest);
      SplitLine(lines[0], Unify(rest));
    }
  }

  lemma NoLines()
    ensures Lines([]) == [[]]
  {
  }

  lemma {:induction false} DigitsAreSolid(n: nat)
    ensures Solid(Dec(n)) && OneLine(Dec(n))
  {
    var s := Dec(n);
    assert forall i :: 0 <= i < |s| ==> IsDigit(s[i]);
  }

  lemma DecIsRead(n: nat)
    requires n < UINT32
    ensures ParseUint(Dec(n), UINT32) == Some(n)
  {
    ValueOfDec(n);
  }

  /** A header line written out declares its value. */
  lemma HeaderLineIsRead(name: Str, value: nat)
    requires Solid(name) && value < UINT32
    ensures HeaderOf(HeaderLine(name, value)) == Some((name, value))
    ensures OneLine(HeaderLine(name, value)) && HeaderLine(name, value) != []
  {
    DigitsAreSolid(value);
    DecIsRead(value);
    SolidIsOneLine(name);
    WordsApart(name, Dec(value));
    hide Words, Dec, Solid, ParseUint;
    SolidIsOneWord(name);
    SolidIsOneWord(Dec(value));
  }

  /** Words with one space between them. */
  function Spaced(ws: seq<Str>): Str {
    if ws == [] then [] else if |ws| == 1 then ws[0] else Spaced(ws[..|ws| - 1]) + [SPACE] + ws[|ws| - 1]
  }

  lemma {:induction false} SpacedWords(ws: seq<Str>)
    requires forall k :: 0 <= k < |ws| ==> Solid(ws[k])
    ensures Words(Spaced(ws)) == ws
    decreases |ws|
  {
    hide Words, Solid;
    if |ws| == 1 {
      SolidIsOneWord(ws[0]);
    } else if ws == [] {
      WordsOfBlank([]);
    } else {
      var front, last := ws[..|ws| - 1], ws[|ws| - 1];
      SpacedWords(front);
      SolidIsOneWord(last);
      WordsApart(Spaced(front), last);
      assert front + [last] == ws;
    }
  }

  ghost predicate Numeral(w: Str, n: nat) { w != [] && AllDigits(w) && Value(w) == n }

  /** Which lines are mapping lines: two words or three, the first two numerals of non-zero
      32-bit UIDs, the far one first. Anything else but a blank line refuses the file. */
  lemma MappingLineExactly(ws: seq<Str>, far: nat, near: nat)
    requires ws != [] && forall k :: 0 <= k < |ws| ==> Solid(ws[k])
    ensures !Skipped(Spaced(ws))
    ensures MappingOf(Spaced(ws)) == Some((far, near)) <==>
      2 <= |ws| <= 3 && Numeral(ws[0], far) && Numeral(ws[1], near) && 0 < far < UINT32 && 0 < near < UINT32
  {
    SpacedStarts(ws);
    TrimKeeps(Spaced(ws), 0);
    SpacedWords(ws);
    hide Solid, Words, Trim, Spaced, IsSpace, Positive, Numeral;
    PositiveIs(ws[0], far);
    if |ws| > 1 {
      PositiveIs(ws[1], near);
    }
  }

  lemma PositiveIs(w: Str, n: nat)
    ensures Positive(w) == Some(n) <==> Numeral(w, n) && 0 < n < UINT32
  {
    hide Value;
  }

  /** And which are header lines: a name and the numeral of a 32-bit value. */
  lemma HeaderLineExactly(ws: seq<Str>, name: Str, value: nat)
    requires ws != [] && forall k :: 0 <= k < |ws| ==> Solid(ws[k])
    ensures HeaderOf(Spaced(ws)) == Some((name, value)) <==>
      |ws| == 2 && ws[0] == name && Numeral(ws[1], value) && value < UINT32
  {
    SpacedWords(ws);
  }

  lemma {:induction false} SpacedStarts(ws: seq<Str>)
    requires ws != [] && forall k :: 0 <= k < |ws| ==> Solid(ws[k])
    ensures Spaced(ws) != [] && !IsSpace(Spaced(ws)[0])
    decreases |ws|
  {
    hide IsSpace;
    if |ws| > 1 {
      SpacedStarts(ws[..|ws| - 1]);
    }
  }

  lemma SolidIsOneLine(w: Str)
    requires Solid(w)
    ensures OneLine(w)
  {
  }

  predicate Sound(e: Entry) {
    e.Pair? ==> 0 < e.far < UINT32 && 0 < e.near < UINT32 && (e.flags.Some? ==> Solid(e.flags.value))
  }

  /** A pair written out, far UID first, is that pair; flags behind it make no difference. */
  lemma EntryLineIsRead(e: Entry)
    requires Sound(e)
    ensures OneLine(EntryLine(e)) && (Skipped(EntryLine(e)) <==> e.Blank?)
    ensures MappingOf(EntryLine(e)) == if e.Blank? then None else Some((e.far, e.near))
  {
    if e.Pair? {
      var ws := [Dec(e.far), Dec(e.near)] + if e.flags.Some? then [e.flags.value] else [];
      DigitsAreSolid(e.far);
      DigitsAreSolid(e.near);
      ValueOfDec(e.far);
      ValueOfDec(e.near);
      hide MappingOf, Skipped, Dec, Value, Solid;
      if e.flags.Some? {
        SolidIsOneLine(e.flags.value);
      }
      EntryIsSpaced(e);
      MappingLineExactly(ws, e.far, e.near);
    }
  }

  lemma EntryIsSpaced(e: Entry)
    requires e.Pair?
    ensures EntryLine(e) == Spaced([Dec(e.far), Dec(e.near)] + if e.flags.Some? then [e.flags.value] else [])
  {
    hide Dec, Spaced;
    var far, near := Dec(e.far), Dec(e.near);
    SpacedMore([], far);
    SpacedMore([far], near);
    assert [] + [far] == [far] && [far] + [near] == [far, near] && [far, near] + [] == [far, near];
    if e.flags.Some? {
      SpacedMore([far, near], e.flags.value);
    }
  }

  lemma SpacedMore(ws: seq<Str>, w: Str)
    ensures Spaced(ws + [w]) == if ws == [] then w else Spaced(ws) + [SPACE] + w
  {
    assert (ws + [w])[..|ws|] == ws;
  }

  /** Distinct solid names with 32-bit values. */
  ghost predicate SoundHeaders(headers: seq<(Str, nat)>) {
    && (forall k :: 0 <= k < |headers| ==> Solid(headers[k].0) && headers[k].1 < UINT32)
    && (forall j, k :: 0 <= j < k < |headers| ==> headers[j].0 != headers[k].0)
  }

  /** Valid UIDs, none of them twice on its side. */
  ghost predicate SoundEntries(entries: seq<Entry>) {
    && (forall k :: 0 <= k < |entries| ==> Sound(entries[k]))
    && (forall j, k :: 0 <= j < k < |entries| && entries[j].Pair? && entries[k].Pair? ==>
          entries[j].far != entries[k].far && entries[j].near != entries[k].near)
  }

  ghost predicate Listed(entries: seq<Entry>, far: nat, near: nat) {
    exists k :: 0 <= k < |entries| && entries[k].Pair? && entries[k].far == far && entries[k].near == near
  }

  lemma HeadersAreRead(headers: seq<(Str, nat)>)
    requires SoundHeaders(headers)
    ensures HeadersRead(HeaderLines(headers))
    ensures forall name: Str, v: nat :: Declares(HeaderLines(headers), name, v) <==> (name, v) in headers
    ensures forall k :: 0 <= k < |headers| ==> OneLine(HeaderLines(headers)[k]) && HeaderLines(headers)[k] != []
  {
    hide HeaderOf, HeaderLine, Solid;
    var lines := HeaderLines(headers);
    forall k | 0 <= k < |headers|
      ensures HeaderOf(lines[k]) == Some(headers[k]) && OneLine(lines[k]) && lines[k] != []
    {
      HeaderLineIsRead(headers[k].0, headers[k].1);
    }
    forall name: Str, v: nat ensures Declares(lines, name, v) <==> (name, v) in headers {
      if (name, v) in headers {
        var k :| 0 <= k < |headers| && headers[k] == (name, v);
        assert HeaderOf(lines[k]) == Some((name, v));
      }
    }
  }

  lemma EntriesAreRead(entries: seq<Entry>)
    requires SoundEntries(entries)
    ensures MappingsRead(EntryLines(entries) + [[]])
    ensures forall far: nat, near: nat :: Lists(EntryLines(entries) + [[]], far, near) <==> Listed(entries, far, near)
    ensures forall k :: 0 <= k < |entries| ==> OneLine(EntryLines(entries)[k])
  {
    hide MappingOf, EntryLine, Solid, Skipped;
    var lines, all := EntryLines(entries), entries + [Blank];
    var read := lines + [[]];
    assert EntryLine(Blank) == [] by { BlankLine(); }
    assert Sound(Blank);
    forall k | 0 <= k < |all|
      ensures MappingOf(read[k]) == if all[k].Blank? then None else Some((all[k].far, all[k].near))
      ensures OneLine(read[k]) && (Skipped(read[k]) <==> all[k].Blank?)
    {
      assert all[k] == if k < |entries| then entries[k] else Blank;
      EntryLineIsRead(all[k]);
    }
    forall j, k | 0 <= j < k < |read| ensures !Clash(MappingOf(read[j]), MappingOf(read[k])) {
    }
    forall far: nat, near: nat ensures Lists(read, far, near) <==> Listed(entries, far, near) {
      if Listed(entries, far, near) {
        var k :| 0 <= k < |entries| && entries[k].Pair? && entries[k].far == far && entries[k].near == near;
        assert all[k] == entries[k] && MappingOf(read[k]) == Some((far, near));
      }
    }
    forall k | 0 <= k < |entries| ensures OneLine(lines[k]) {
      assert read[k] == lines[k];
    }
  }

  lemma BlankLine()
    ensures EntryLine(Blank) == []
  {
  }

  lemma {:induction false} FirstEmptyAfter(full: seq<Str>, more: seq<Str>)
    requires forall k :: 0 <= k < |full| ==> full[k] != []
    ensures FirstEmpty(full + [[]] + more) == |full|
  {
    var lines := full + [[]] + more;
    if full == [] {
      assert lines[0] == [];
    } else {
      assert lines[0] == full[0] && lines[1..] == full[1..] + [[]] + more;
      FirstEmptyAfter(full[1..], more);
    }
  }

  /** A state file written from distinct header values, both UIDVALIDITY values among them,
      and a one-to-one list of pairs, with either line end, with flags or without and blank
      lines anywhere behind the header, is accepted and says exactly what was written. */
  lemma WrittenStateIsRead(headers: seq<(Str, nat)>, entries: seq<Entry>, end: Str, far: nat, near: nat,
                           st: FolderState)
    requires SoundHeaders(headers) && SoundEntries(entries) && IsLineEnd(end)
    requires (Ascii("FarUidValidity"), far) in headers && (Ascii("NearUidValidity"), near) in headers
    requires far > 0 && near > 0
    ensures WellFormed(Lines(WrittenState(headers, entries, end)))
    ensures Describes(Lines(WrittenState(headers, entries, end)), st) <==>
      st.farUIDValidity == far && forall f: nat, n: nat :: (n, f) in st.nearToFar.Items <==> Listed(entries, f, n)
    ensures Declares(HeaderPart(Lines(WrittenState(headers, entries, end))), FarName(), far)
    ensures forall f: nat, n: nat ::
      Lists(MappingPart(Lines(WrittenState(headers, entries, end))), f, n) <==> Listed(entries, f, n)
  {
    NamesSpelled();
    hide HeaderOf, MappingOf, Ascii, FarName, NearName, HeaderLine, EntryLine, Lines, MappingsRead, HeadersRead,
         Lists, Listed,
         Declares, SoundEntries;
    var hs, es := HeaderLines(headers), EntryLines(entries);
    HeadersAreRead(headers);
    EntriesAreRead(entries);
    var written := hs + [[]] + es;
    forall k | 0 <= k < |written| ensures OneLine(written[k]) {
      assert written[k] == if k < |hs| then hs[k] else if k == |hs| then [] else es[k - |hs| - 1];
    }
    EndedLines(written, end);
    var lines := written + [[]];
    FirstEmptyAfter(hs, es + [[]]);
    assert lines == hs + [[]] + (es + [[]]);
    assert HeaderPart(lines) == hs && MappingPart(lines) == es + [[]];
    assert Declares(hs, FarName(), far) && Declares(hs, NearName(), near);
    if Declares(hs, FarName(), st.farUIDValidity) {
      DeclaredOnce(hs, FarName(), far, st.farUIDValidity);
    }
  }

  lemma NamesSpelled()
    ensures Ascii("FarUidValidity") == FarName() && Ascii("NearUidValidity") == NearName()
  {
  }

  // ----------------------------------------------------- Maildir file names

  predicate At(s: Str, i: int, mark: Str) { 0 <= i <= |s| - |mark| && s[i..i + |mark|] == mark }

  /** strings.Index, with |s| + 1 for "not found". */
  function Index(s: Str, mark: Str): (i: nat)
    requires mark != []
    ensures i <= |s| + 1
    ensures i <= |s| ==> At(s, i, mark)
    ensures forall k :: 0 <= k < i ==> !At(s, k, mark)
  {
    if |s| < |mark| then |s| + 1
    else if At(s, 0, mark) then 0
    else
      var i := Index(s[1..], mark);
      assert forall k :: 1 <= k ==> (At(s[1..], k - 1, mark) <==> At(s, k, mark)) by {
        forall k | 1 <= k ensures At(s[1..], k - 1, mark) <==> At(s, k, mark) {
          ShiftedAt(s, mark, 1, k);
        }
      }
      i + 1
  }

  /** strings.Count. */
  function Count(s: Str, mark: Str): nat
    requires mark != []
    decreases |s|
  {
    var i := Index(s, mark);
    if i > |s| then 0 else 1 + Count(s[i + |mark|..], mark)
  }

  function UidMark(): Str { [0x2C, 0x55, 0x3D] }    // ",U="
  function FlagMark(): Str { [0x3A, 0x32, 0x2C] }   // ":2,"

  /** maildirNearUID on the base name of the path. */
  function NearUID(name: Str): Option<nat> {
    if Count(name, UidMark()) != 1 then None
    else
      var value := name[Index(name, UidMark()) + 3..];
      var end := Index(value, FlagMark());
      if end == 0 || end > |value| then None else Positive(value[..end])
  }

  ghost predicate OnlyAt(s: Str, i: int, mark: Str) {
    At(s, i, mark) && forall k :: At(s, k, mark) ==> k == i
  }

  /** The name reads as a unique ",U=", the digits of `uid`, and ":2,". */
  ghost predicate Carries(name: Str, i: int, digits: Str, uid: nat) {
    && OnlyAt(name, i, UidMark())
    && At(name, i + 3, digits + FlagMark())
    && digits != [] && AllDigits(digits)
    && Value(digits) == uid && 0 < uid < UINT32
  }

  lemma IndexIs(s: Str, mark: Str, i: nat)
    requires mark != [] && At(s, i, mark) && forall k :: 0 <= k < i ==> !At(s, k, mark)
    ensures Index(s, mark) == i
  {
  }

  lemma ShiftedAt(s: Str, mark: Str, d: nat, k: int)
    requires d <= k && d <= |s|
    ensures At(s[d..], k - d, mark) <==> At(s, k, mark)
  {
    if k <= |s| - |mark| {
      assert s[d..][k - d..k - d + |mark|] == s[k..k + |mark|];
    }
  }

  lemma MarksApart(s: Str, i: int, k: int)
    requires At(s, i, UidMark()) && At(s, k, UidMark()) && i < k
    ensures i + 3 <= k
  {
    var a, b := s[i..i + 3], s[k..k + 3];
    assert s[i] == a[0] && s[i + 1] == a[1] && s[i + 2] == a[2];
    assert s[k] == b[0];
  }

  ghost predicate Unmarked(s: Str, mark: Str) {
    forall k :: !At(s, k, mark)
  }

  lemma NoMarkAfter(s: Str, i: int, k: int)
    requires At(s, i, UidMark()) && At(s, k, UidMark()) && i <= k
    requires Unmarked(s[i + 3..], UidMark())
    ensures k == i
  {
    if i < k {
      MarksApart(s, i, k);
      ShiftedAt(s, UidMark(), i + 3, k);
    }
  }

  lemma IndexFits(s: Str, mark: Str)
    requires mark != [] && Index(s, mark) <= |s|
    ensures Index(s, mark) + |mark| <= |s| && At(s, Index(s, mark), mark)
  {
    hide Index;
  }

  lemma CountZero(s: Str, mark: Str)
    requires mark != []
    ensures Count(s, mark) == 0 <==> Index(s, mark) > |s|
  {
    hide Index, At;
  }

  lemma CountUnfolds(s: Str, mark: Str)
    requires mark != []
    ensures Count(s, mark) == 1 <==>
      Index(s, mark) <= |s| - |mark| && Index(s[Index(s, mark) + |mark|..], mark) > |s| - Index(s, mark) - |mark|
  {
    hide Index, At;
    if Index(s, mark) <= |s| {
      IndexFits(s, mark);
      CountZero(s[Index(s, mark) + |mark|..], mark);
    }
  }

  lemma NotFound(s: Str, mark: Str)
    requires mark != [] && Index(s, mark) > |s|
    ensures Unmarked(s, mark)
  {
    hide Index;
    forall k ensures !At(s, k, mark) {
      AtBounds(s, k, mark);
    }
  }

  /** The mark ",U=" cannot overlap itself, so counting it once means it stands in one place. */
  lemma CountedOnceStandsOnce(s: Str)
    requires Count(s, UidMark()) == 1
    ensures OnlyAt(s, Index(s, UidMark()), UidMark())
  {
    var mark := UidMark();
    CountUnfolds(s, mark);
    IndexFits(s, mark);
    var i := Index(s, mark);
    NotFound(s[i + 3..], mark);
    hide Count, At, UidMark;
    forall k | At(s, k, mark) ensures k == i {
      AtBounds(s, k, mark);
      if i <= k {
        NoMarkAfter(s, i, k);
      }
    }
  }

  lemma StandsOnceCountedOnce(s: Str, i: int)
    requires OnlyAt(s, i, UidMark())
    ensures Count(s, UidMark()) == 1 && Index(s, UidMark()) == i
  {
    var mark := UidMark();
    AtBounds(s, i, mark);
    CountUnfolds(s, mark);
    IndexIs(s, mark, i);
    hide Count, At, UidMark, Index;
    var rest := s[i + |mark|..];
    var j := Index(rest, mark);
    if j <= |rest| {
      IndexFits(rest, mark);
      ShiftedAt(s, mark, i + |mark|, i + |mark| + j);
    }
  }

  lemma AtBounds(s: Str, k: int, mark: Str)
    ensures At(s, k, mark) ==> 0 <= k <= |s| - |mark|
  {
  }

  lemma AtFirst(s: Str, k: int, mark: Str)
    requires mark != []
    ensures At(s, k, mark) ==> s[k] == mark[0]
  {
    if At(s, k, mark) {
      assert s[k] == s[k..k + |mark|][0];
    }
  }

  lemma FlagAfterDigits(value: Str, digits: Str)
    requires AllDigits(digits) && At(value, 0, digits + FlagMark())
    ensures Index(value, FlagMark()) == |digits| && value[..|digits|] == digits
  {
    var n := |digits|;
    var head := value[..n + 3];
    assert head == digits + FlagMark();
    assert value[n..n + 3] == head[n..] == FlagMark();
    forall k | 0 <= k < n ensures !At(value, k, FlagMark()) {
      assert value[k] == head[k] == digits[k];
      AtFirst(value, k, FlagMark());
    }
    IndexIs(value, FlagMark(), n);
    assert value[..n] == head[..n] == digits;
  }

  lemma YieldedIsCarried(name: Str, uid: nat)
    requires NearUID(name) == Some(uid)
    ensures exists i, digits :: Carries(name, i, digits, uid)
  {
    CountedOnceStandsOnce(name);
    hide Count, Index;
    var i := Index(name, UidMark());
    var value := name[i + 3..];
    var digits := value[..Index(value, FlagMark())];
    assert value[|digits|..|digits| + 3] == FlagMark();
    assert value[..|digits| + 3] == digits + FlagMark();
    ShiftedAt(name, digits + FlagMark(), i + 3, i + 3);
    assert Carries(name, i, digits, uid);
  }

  lemma CarriedIsYielded(name: Str, i: int, digits: Str, uid: nat)
    requires Carries(name, i, digits, uid)
    ensures NearUID(name) == Some(uid)
  {
    AtBounds(name, i + 3, digits + FlagMark());
    ShiftedAt(name, digits + FlagMark(), i + 3, i + 3);
    FlagAfterDigits(name[i + 3..], digits);
    StandsOnceCountedOnce(name, i);
    hide Count, Index, At, Value;
  }

  /** A name yields a UID exactly when it carries one, and then that one. */
  lemma NearUidIffCarried(name: Str, uid: nat)
    ensures NearUID(name) == Some(uid) <==> exists i, digits :: Carries(name, i, digits, uid)
  {
    hide NearUID, Carries;
    if NearUID(name) == Some(uid) {
      YieldedIsCarried(name, uid);
    }
    if exists i, digits :: Carries(name, i, digits, uid) {
      var i, digits :| Carries(name, i, digits, uid);
      CarriedIsYielded(name, i, digits, uid);
    }
  }

  /** A message file as mbsync names it, with one ",U=" in its name, carries the UID written there. */
  lemma WrittenNameIsRead(front: Str, uid: nat, flags: Str)
    requires 0 < uid < UINT32
    requires OnlyAt(front + Ascii(",U=") + Dec(uid) + Ascii(":2,") + flags, |front|, Ascii(",U="))
    ensures NearUID(front + Ascii(",U=") + Dec(uid) + Ascii(":2,") + flags) == Some(uid)
  {
    MarksSpelled();
    hide Ascii, UidMark, FlagMark, Dec, Value, NearUID;
    var name := front + UidMark() + Dec(uid) + FlagMark() + flags;
    assert name[|front| + 3..][..|Dec(uid) + FlagMark()|] == Dec(uid) + FlagMark();
    ValueOfDec(uid);
    assert Carries(name, |front|, Dec(uid), uid);
    CarriedIsYielded(name, |front|, Dec(uid), uid);
  }

  lemma MarksSpelled()
    ensures Ascii(",U=") == UidMark() && Ascii(":2,") == FlagMark() && |UidMark()| == 3
  {
  }
}
