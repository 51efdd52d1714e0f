/** The multi-tap text editor of internal/keypad/keypad.go. A rune of the field is one
    character here. */
module Keypad {
  import opened Wrappers

  /** The characters a key cycles through; none for an unknown key. */
  function Group(key: char): string {
    match key
    case '1' => "1@.?&+-_=/:;,$%()!#*'\""
    case '2' => "abc2"
    case '3' => "def3"
    case '4' => "ghi4"
    case '5' => "jkl5"
    case '6' => "mno6"
    case '7' => "pqrs7"
    case '8' => "tuv8"
    case '9' => "wxyz9"
    case '0' => "0 "
    case _ => ""
  }

  predicate IsTextKey(key: char) { '0' <= key <= '9' }

  lemma KeysHaveGroups(key: char)
    ensures IsTextKey(key) <==> Group(key) != ""
  {
  }

  /** The editor's fields; `pending` is the key being tapped. */
  datatype Editor = Editor(text: string, pending: Option<char>, presses: nat, max: int, overflowed: bool,
                           prompted: bool, armed: bool)

  function New(max: int): Editor { Editor("", None, 0, if max < 0 then 0 else max, false, false, false) }

  predicate Full(e: Editor) { e.max > 0 && |e.text| >= e.max }

  function DropLast(s: string): string { if s == "" then "" else s[..|s| - 1] }

  /** The character the taps so far stand for. */
  function Current(e: Editor): char
    requires e.pending.Some? && IsTextKey(e.pending.value) && e.presses >= 1
  {
    KeysHaveGroups(e.pending.value);
    Group(e.pending.value)[(e.presses - 1) % |Group(e.pending.value)|]
  }

  /** What holds of every editor that started empty. */
  predicate Inv(e: Editor) {
    && (e.max > 0 ==> |e.text| <= e.max)
    && (e.pending.Some? ==> IsTextKey(e.pending.value) && e.presses >= 1 && !Full(e))
    && (e.armed ==> e.pending.None?)
  }

  /** The pending character committed. */
  function Committed(e: Editor): Editor
    requires Inv(e)
  {
    if e.pending.None? then e else e.(text := e.text + [Current(e)], pending := None, presses := 0)
  }

  /** What one key does to the editor. */
  function AfterKey(e: Editor, key: char): Editor
    requires Inv(e)
  {
    if key == '*' then
      if e.armed then e.(armed := false, text := DropLast(e.text), overflowed := false, prompted := false)
      else Committed(e).(armed := true)
    else if key == '#' then Committed(e).(armed := false)
    else if !IsTextKey(key) then e
    else
      var base := if e.pending == Some(key) then e else Committed(e).(pending := Some(key), presses := 0);
      if Full(base) then base.(armed := false, overflowed := true, pending := None, presses := 0)
      else base.(armed := false, presses := base.presses + 1)
  }

  /** Every key keeps the invariant: the field never outgrows its limit, a pending character
      always has room, and an armed star means nothing is pending. */
  lemma KeyKeepsInv(e: Editor, key: char)
    requires Inv(e)
    ensures Inv(AfterKey(e, key)) && AfterKey(e, key).max == e.max
  {
  }

  function AfterKeys(e: Editor, keys: string): (r: Editor)
    requires Inv(e)
    ensures Inv(r) && r.max == e.max
    decreases |keys|
  {
    if keys == "" then e
    else
      KeyKeepsInv(e, keys[0]);
      AfterKeys(AfterKey(e, keys[0]), keys[1..])
  }

  lemma {:induction false} AfterMore(e: Editor, a: string, b: string)
    requires Inv(e)
    ensures AfterKeys(e, a + b) == AfterKeys(AfterKeys(e, a), b)
    decreases |a|
  {
    hide AfterKey, Inv;
    if a == "" {
      assert a + b == b;
    } else {
      KeyKeepsInv(e, a[0]);
      assert (a + b)[1..] == a[1..] + b;
      AfterMore(AfterKey(e, a[0]), a[1..], b);
    }
  }

  /** Whatever keys are pressed on a new editor, the field stays within its limit. */
  lemma FieldStaysWithinLimit(max: int, keys: string)
    requires max > 0
    ensures |AfterKeys(New(max), keys).text| <= max
  {
  }

  // -------------------------------------------------------------- typing a text

  /** One character picked: a key and a place in its group. */
  datatype Pick = Pick(key: char, index: nat)

  predicate Valid(p: Pick) { p.index < |Group(p.key)| }

  function Taps(key: char, n: nat): string { if n == 0 then "" else Taps(key, n - 1) + [key] }

  /** The presses for one character, and a star to commit it. */
  function Script(picks: seq<Pick>): string {
    if picks == [] then ""
    else Script(picks[..|picks| - 1]) + Taps(picks[|picks| - 1].key, picks[|picks| - 1].index + 1) + "*"
  }

  function CharOf(p: Pick): char
    requires Valid(p)
  {
    Group(p.key)[p.index]
  }

  function Picked(picks: seq<Pick>): string
    requires forall p :: p in picks ==> Valid(p)
  {
    if picks == [] then "" else Picked(picks[..|picks| - 1]) + [CharOf(picks[|picks| - 1])]
  }

  lemma OneKey(e: Editor, key: char)
    requires Inv(e)
    ensures AfterKeys(e, [key]) == AfterKey(e, key)
  {
    KeyKeepsInv(e, key);
    assert AfterKeys(AfterKey(e, key), [key][1..]) == AfterKey(e, key);
  }

  lemma {:induction false} TapsPend(e: Editor, key: char, n: nat)
    requires Inv(e) && e.pending.None? && IsTextKey(key) && !Full(e) && n >= 1
    ensures AfterKeys(e, Taps(key, n)) == e.(pending := Some(key), presses := n, armed := false)
  {
    if n == 1 {
      assert Taps(key, 1) == [key];
      OneKey(e, key);
    } else {
      TapsPend(e, key, n - 1);
      AfterMore(e, Taps(key, n - 1), [key]);
      OneKey(AfterKeys(e, Taps(key, n - 1)), key);
    }
  }

  lemma SmallRemainder(i: nat, n: nat)
    requires i < n
    ensures i % n == i
  {
  }

  lemma StarCommits(e: Editor, p: Pick)
    requires Inv(e) && e.pending == Some(p.key) && Valid(p) && e.presses == p.index + 1
    ensures AfterKey(e, '*').text == e.text + [CharOf(p)] && AfterKey(e, '*').pending.None?
    ensures AfterKey(e, '*').overflowed == e.overflowed
  {
    hide Group;
    SmallRemainder(p.index, |Group(p.key)|);
  }

  lemma OnePick(e: Editor, p: Pick)
    requires Inv(e) && e.pending.None? && Valid(p) && !Full(e)
    ensures var after := AfterKeys(e, Taps(p.key, p.index + 1) + "*");
      after.text == e.text + [CharOf(p)] && after.pending.None? && after.overflowed == e.overflowed
  {
    KeysHaveGroups(p.key);
    TapsPend(e, p.key, p.index + 1);
    hide Group, CharOf, AfterKey, AfterKeys, Taps;
    var taps := Taps(p.key, p.index + 1);
    AfterMore(e, taps, "*");
    OneKey(AfterKeys(e, taps), '*');
    StarCommits(AfterKeys(e, taps), p);
  }

  /** Every text over the key groups that fits is produced by its press-and-star script,
      whatever the field already holds. */
  lemma {:induction false} ScriptTypesText(e: Editor, picks: seq<Pick>)
    requires Inv(e) && e.pending.None?
    requires forall p :: p in picks ==> Valid(p)
    requires e.max > 0 ==> |e.text| + |picks| <= e.max
    ensures |Picked(picks)| == |picks|
    ensures var after := AfterKeys(e, Script(picks));
      after.text == e.text + Picked(picks) && after.pending.None? && after.overflowed == e.overflowed
  {
    hide Valid, AfterKeys, Taps, CharOf;
    if picks != [] {
      var front, last := picks[..|picks| - 1], picks[|picks| - 1];
      ScriptTypesText(e, front);
      var before, script := AfterKeys(e, Script(front)), Taps(last.key, last.index + 1) + "*";
      AfterMore(e, Script(front), script);
      assert Script(picks) == Script(front) + script;
      OnePick(before, last);
      assert e.text + Picked(front) + [CharOf(last)] == e.text + Picked(picks);
    } else {
      assert AfterKeys(e, "") == e by { NoKeys(e); }
      assert e.text + "" == e.text;
    }
  }

  lemma NoKeys(e: Editor)
    requires Inv(e)
    ensures AfterKeys(e, "") == e
  {
  }

  // ------------------------------------------------------------------- any typing

  /** A key pressed some times in a row, perhaps with a star behind it. */
  datatype Burst = Burst(key: char, taps: nat, star: bool)

  /** Bursts of text keys that cannot run together: a star or another key comes between. */
  predicate Apart(bursts: seq<Burst>) {
    && (forall i :: 0 <= i < |bursts| ==> IsTextKey(bursts[i].key) && bursts[i].taps >= 1)
    && (forall i :: 0 < i < |bursts| ==> bursts[i - 1].star || bursts[i - 1].key != bursts[i].key)
  }

  function KeysOf(bursts: seq<Burst>): string {
    if bursts == [] then ""
    else
      var last := bursts[|bursts| - 1];
      KeysOf(bursts[..|bursts| - 1]) + (Taps(last.key, last.taps) + if last.star then "*" else "")
  }

  /** The character of a burst: the group is gone through again and again. */
  function CharAt(key: char, taps: nat): char
    requires IsTextKey(key) && taps >= 1
  {
    KeysHaveGroups(key);
    Group(key)[(taps - 1) % |Group(key)|]
  }

  function Typed(bursts: seq<Burst>): (s: string)
    requires Apart(bursts)
    ensures |s| == |bursts|
  {
    if bursts == [] then ""
    else
      var last := bursts[|bursts| - 1];
      Typed(bursts[..|bursts| - 1]) + [CharAt(last.key, last.taps)]
  }

  predicate Overflows(e: Editor, n: nat) { e.max > 0 && |e.text| + n > e.max }

  /** As much of s as the field has room for. */
  function Fitting(e: Editor, s: string): string
    requires e.max > 0 ==> |e.text| <= e.max
  {
    if Overflows(e, |s|) then s[..e.max - |e.text|] else s
  }

  lemma {:induction false} TapsAnew(e: Editor, key: char, n: nat)
    requires Inv(e) && IsTextKey(key) && e.pending != Some(key) && n >= 1
    ensures var b := Committed(e);
      AfterKeys(e, Taps(key, n)) ==
        if Full(b) then b.(armed := false, overflowed := true, presses := 0)
        else b.(pending := Some(key), presses := n, armed := false)
    decreases n
  {
    hide Current, Group;
    if n == 1 {
      assert Taps(key, 1) == [key];
      OneKey(e, key);
    } else {
      TapsAnew(e, key, n - 1);
      AfterMore(e, Taps(key, n - 1), [key]);
      OneKey(AfterKeys(e, Taps(key, n - 1)), key);
    }
  }

  /** What the editor holds once s has been typed into e. */
  ghost predicate Holding(e: Editor, now: Editor, s: string)
    requires Inv(e)
  {
    && Inv(now) && now.max == e.max
    && Committed(now).text == e.text + Fitting(e, s)
    && (now.overflowed <==> e.overflowed || Overflows(e, |s|))
  }

  ghost predicate Holds(e: Editor, now: Editor, bursts: seq<Burst>)
    requires Inv(e) && Apart(bursts)
  {
    && Holding(e, now, Typed(bursts))
    && (now.pending.Some? ==>
          bursts != [] && !bursts[|bursts| - 1].star && now.pending.value == bursts[|bursts| - 1].key)
    && (bursts != [] ==> now.armed == bursts[|bursts| - 1].star)
  }

  lemma BurstTapped(e: Editor, before: Editor, s: string, key: char, taps: nat)
    requires Inv(e) && Holding(e, before, s) && IsTextKey(key) && taps >= 1 && before.pending != Some(key)
    ensures var now := AfterKeys(before, Taps(key, taps));
      && Holding(e, now, s + [CharAt(key, taps)]) && !now.armed && (now.pending.Some? ==> now.pending.value == key)
  {
    TapsAnew(before, key, taps);
    hide Group, AfterKeys, Taps, Fitting, CharAt, AfterKey;
    var c := CharAt(key, taps);
    FittingMore(e, s, c);
    var b := Committed(before);
    CommittedFacts(before);
    if Full(b) {
      FullTapped(b);
    } else {
      TappedChar(b, key, taps);
    }
    hide Committed;
  }

  lemma CommittedFacts(e: Editor)
    requires Inv(e)
    ensures var b := Committed(e); Inv(b) && b.pending.None? && b.max == e.max && b.overflowed == e.overflowed
  {
    hide Current;
  }

  lemma FullTapped(e: Editor)
    requires Inv(e) && e.pending.None?
    ensures var now := e.(armed := false, overflowed := true, presses := 0); Inv(now) && Committed(now).text == e.text
  {
  }

  lemma TappedChar(e: Editor, key: char, taps: nat)
    requires Inv(e) && e.pending.None? && IsTextKey(key) && taps >= 1 && !Full(e)
    ensures var now := e.(pending := Some(key), presses := taps, armed := false);
      Inv(now) && Committed(now).text == e.text + [CharAt(key, taps)]
  {
    hide Group;
  }

  lemma StarHolds(e: Editor, now: Editor, s: string)
    requires Inv(e) && Holding(e, now, s) && !now.armed
    ensures var after := AfterKey(now, '*'); Holding(e, after, s) && after.armed && after.pending.None?
  {
    KeyKeepsInv(now, '*');
    hide Group, Fitting, Current;
  }

  lemma OneBurst(e: Editor, before: Editor, bursts: seq<Burst>)
    requires Inv(e) && Apart(bursts) && bursts != [] && Holds(e, before, bursts[..|bursts| - 1])
    ensures var last := bursts[|bursts| - 1];
      Holds(e, AfterKeys(before, Taps(last.key, last.taps) + if last.star then "*" else ""), bursts)
  {
    var n := |bursts| - 1;
    var last, front := bursts[n], bursts[..n];
    assert before.pending.Some? ==> front[n - 1] == bursts[n - 1];
    assert Typed(bursts) == Typed(front) + [CharAt(last.key, last.taps)];
    hide Group, AfterKeys, Taps, Typed, Holding, AfterKey, CharAt;
    BurstTapped(e, before, Typed(front), last.key, last.taps);
    HoldingIsInv(e, before, Typed(front));
    var taps := Taps(last.key, last.taps);
    var tapped := AfterKeys(before, taps);
    HoldingIsInv(e, tapped, Typed(bursts));
    if last.star {
      AfterMore(before, taps, "*");
      OneKey(tapped, '*');
      StarHolds(e, tapped, Typed(bursts));
    } else {
      assert taps + "" == taps;
    }
  }

  lemma HoldingIsInv(e: Editor, now: Editor, s: string)
    requires Inv(e) && Holding(e, now, s)
    ensures Inv(now)
  {
  }

  lemma FittingMore(e: Editor, s: string, c: char)
    requires e.max > 0 ==> |e.text| <= e.max
    ensures var all := e.text + Fitting(e, s);
      && Fitting(e, s + [c]) == (if Overflows(e, |s| + 1) then Fitting(e, s) else s + [c])
      && (e.max > 0 && |all| >= e.max <==> Overflows(e, |s| + 1))
      && (!Overflows(e, |s| + 1) ==> all + [c] == e.text + Fitting(e, s + [c]))
  {
  }

  lemma {:induction false} BurstsHold(e: Editor, bursts: seq<Burst>)
    requires Inv(e) && e.pending.None? && Apart(bursts)
    ensures Holds(e, AfterKeys(e, KeysOf(bursts)), bursts)
    decreases |bursts|
  {
    hide AfterKey, Taps, Group, Holding;
    if bursts == [] {
      NothingTyped(e);
    } else {
      var front, last := bursts[..|bursts| - 1], bursts[|bursts| - 1];
      BurstsHold(e, front);
      AfterMore(e, KeysOf(front), Taps(last.key, last.taps) + if last.star then "*" else "");
      OneBurst(e, AfterKeys(e, KeysOf(front)), bursts);
    }
  }

  lemma NothingTyped(e: Editor)
    requires Inv(e) && e.pending.None?
    ensures Holds(e, AfterKeys(e, ""), [])
  {
    assert e.text + "" == e.text;
  }

  /** Whatever bursts of text keys are typed into a field, the pound key leaves behind its old
      text exactly one character for each burst, found by going round the key's group, as far
      as the field has room; what did not fit is marked as an overflow. */
  lemma BurstsTypeText(e: Editor, bursts: seq<Burst>)
    requires Inv(e) && e.pending.None? && Apart(bursts)
    ensures var after := AfterKeys(e, KeysOf(bursts) + "#");
      && after.text == e.text + (if Overflows(e, |bursts|) then Typed(bursts)[..e.max - |e.text|] else Typed(bursts))
      && after.pending.None? && !after.armed
      && (after.overflowed <==> e.overflowed || Overflows(e, |bursts|))
  {
    BurstsHold(e, bursts);
    AfterMore(e, KeysOf(bursts), "#");
    OneKey(AfterKeys(e, KeysOf(bursts)), '#');
    hide KeysOf, AfterKeys, Typed, Group, Current;
  }

  /** The key a letter is printed on (ITU-T E.161), and its place there. */
  function LetterKey(c: char): (char, nat)
    requires 'a' <= c <= 'z'
  {
    if c <= 'o' then ('2' + ((c - 'a') as int / 3) as char, (c - 'a') as int % 3)
    else if c <= 's' then ('7', (c - 'p') as int)
    else if c <= 'v' then ('8', (c - 't') as int)
    else ('9', (c - 'w') as int)
  }

  /** Letters are where a telephone has them; a digit key ends with its own digit, and the
      keys one and zero begin with theirs. */
  lemma LettersAreWherePrinted(c: char, d: char)
    requires 'a' <= c <= 'z' && '2' <= d <= '9'
    ensures var (key, place) := LetterKey(c); place < |Group(key)| - 1 && Group(key)[place] == c
    ensures Group(d)[|Group(d)| - 1] == d && |Group(d)| == if d == '7' || d == '9' then 5 else 4
    ensures Group('1')[0] == '1' && Group('0') == "0 "
  {
  }

  /** A key without a group does nothing. */
  lemma OtherKeysAreIgnored(e: Editor, key: char)
    requires Inv(e) && !('0' <= key <= '9') && key != '*' && key != '#'
    ensures AfterKey(e, key) == e
  {
  }

  // ---------------------------------------------------------------------- stars

  function Stars(n: nat): string { Taps('*', n) }

  function Shortened(s: string, n: nat): string { if n == 0 then s else DropLast(Shortened(s, n - 1)) }

  lemma {:induction false} ShortenedIsPrefix(s: string, n: nat)
    ensures Shortened(s, n) == s[..if n <= |s| then |s| - n else 0]
  {
    if n > 0 {
      ShortenedIsPrefix(s, n - 1);
    }
  }

  /** n stars in a row: a pending character is committed by the first, then every second
      star deletes exactly one character. */
  lemma {:induction false} StarsDelete(e: Editor, n: nat)
    requires Inv(e) && !e.armed && n >= 1
    ensures var after := AfterKeys(e, Stars(n));
      && after.text == Shortened(Committed(e).text, n / 2)
      && after.armed == (n % 2 == 1) && after.pending.None?
      && (n >= 2 ==> !after.overflowed && !after.prompted)
  {
    if n == 1 {
      assert Stars(1) == "*";
      OneKey(e, '*');
    } else {
      StarsDelete(e, n - 1);
      AfterMore(e, Stars(n - 1), "*");
      OneKey(AfterKeys(e, Stars(n - 1)), '*');
      assert Stars(n) == Stars(n - 1) + "*";
    }
  }

  /** So two stars take one character off the end, four stars two, and so on to nothing. */
  lemma StarsShorten(e: Editor, n: nat)
    requires Inv(e) && !e.armed && n >= 1
    ensures var text := Committed(e).text;
      AfterKeys(e, Stars(n)).text == text[..if n / 2 <= |text| then |text| - n / 2 else 0]
  {
    StarsDelete(e, n);
    ShortenedIsPrefix(Committed(e).text, n / 2);
  }

  // ------------------------------------------------------------------ the editor

  class MultiTap {
    var text: string
    var pendingKey: Option<char>
    var presses: nat
    const maxRunes: int
    var overflowed: bool
    var overflowPrompted: bool
    var starArmed: bool

    constructor WithLimit(maxRunes: int)
      ensures Contents() == New(maxRunes)
      ensures text == "" && pendingKey == None && presses == 0 && !overflowed && !overflowPrompted && !starArmed
      ensures this.maxRunes == if maxRunes > 0 then maxRunes else 0
    {
      text, pendingKey, presses := "", None, 0;
      this.maxRunes := if maxRunes < 0 then 0 else maxRunes;
      overflowed, overflowPrompted, starArmed := false, false, false;
    }

    ghost function Contents(): Editor
      reads this
    {
      Editor(text, pendingKey, presses, maxRunes, overflowed, overflowPrompted, starArmed)
    }

    /** appendCurrent. From a reachable editor no branch on overflow is ever taken, here or
        in Press. */
    method AppendCurrent() returns (committed: string)
      requires Inv(Contents())
      modifies this`text
      ensures committed == if pendingKey.None? then "" else [Current(old(Contents()))]
      ensures text == old(text) + committed
    {
      if pendingKey.None? { return ""; }
      KeysHaveGroups(pendingKey.value);
      var values := Group(pendingKey.value);
      committed := [values[(presses - 1) % |values|]];
      if maxRunes > 0 && |text| + |committed| > maxRunes {
        assert false;
      }
      text := text + committed;
    }

    method CommitPending() returns (committed: string)
      requires Inv(Contents())
      modifies this`text, this`pendingKey, this`presses
      ensures Contents() == Committed(old(Contents()))
      ensures text == old(text) + committed
    {
      hide Current, Group;
      committed := "";
      if pendingKey.Some? {
        committed := AppendCurrent();
        pendingKey, presses := None, 0;
      }
    }

    method PressStar() returns (committed: string)
      requires Inv(Contents())
      modifies this
      ensures Contents() == AfterKey(old(Contents()), '*')
      ensures !old(starArmed) ==> text == old(text) + committed
    {
      hide Current, Group;
      if starArmed {
        starArmed := false;
        text := Backspace(text);
        overflowed, overflowPrompted := false, false;
        return "";
      }
      committed := CommitPending();
      starArmed := true;
    }

    /** Press. */
    method Press(key: char) returns (committed: string, done: bool)
      requires Inv(Contents())
      modifies this
      ensures Contents() == AfterKey(old(Contents()), key) && Inv(Contents())
      ensures done <==> key == '#'
      ensures key in {'*', '#'} && !(key == '*' && old(starArmed)) ==> text == old(text) + committed
    {
      KeyKeepsInv(Contents(), key);
      hide Current, Group;
      committed, done := "", false;
      if key == '*' {
        committed := PressStar();
        return;
      }
      if key == '#' {
        starArmed := false;
        committed := CommitPending();
        if maxRunes > 0 && |text| > maxRunes {
          assert false;
        }
        return committed, true;
      }
      KeysHaveGroups(key);
      if Group(key) == "" { return; }
      starArmed := false;
      if pendingKey != Some(key) {
        if pendingKey.Some? {
          var appended := AppendCurrent();
          if appended == "" && overflowed {
            assert false;
          }
        }
        pendingKey, presses := Some(key), 0;
      }
      if maxRunes > 0 && |text| >= maxRunes {
        overflowed := true;
        pendingKey, presses := None, 0;
        return;
      }
      presses := presses + 1;
    }

    static function Backspace(value: string): string { DropLast(value) }
  }
}
