/** Retiring mail that left the server, in internal/mailsync/service.go: the identity
    keys, the snapshot of a remote walk, and the decision which local rows are stale. */
module Reconcile {
  import opened Text
  import opened Wrappers

  import opened Decimals
  import opened MbsyncState

  const NUL: Rune := 0

  // ------------------------------------------------------- the identity keys

  datatype Identity = Identity(messageID: Str, uid: nat, uidValidity: nat)

  predicate HasPair(id: Identity) { id.uid != 0 && id.uidValidity != 0 }

  function UidTag(): Str { [NUL, 0x75, 0x69, 0x64, NUL] }  // "\\0uid\\0"
  function MessageTag(): Str { // "\\0message-id\\0"
    [NUL, 0x6D, 0x65, 0x73, 0x73, 0x61, 0x67, 0x65, 0x2D, 0x69, 0x64, NUL]
  }

  function MessageIDKey(folder: Str, messageID: Str): Str {
    Trim(folder) + MessageTag() + Trim(messageID)
  }

  function IdentityKey(folder: Str, id: Identity): Str {
    if HasPair(id) then Trim(folder) + UidTag() + Dec(id.uidValidity) + [NUL] + Dec(id.uid)
    else MessageIDKey(folder, id.messageID)
  }

  /** Two identities in two folders the walk cannot tell apart. */
  predicate SameMessage(f: Str, a: Identity, g: Str, b: Identity) {
    && Trim(f) == Trim(g)
    && HasPair(a) == HasPair(b)
    && if HasPair(a) then a.uid == b.uid && a.uidValidity == b.uidValidity
       else Trim(a.messageID) == Trim(b.messageID)
  }

  function FirstNul(s: Str): nat {
    if s == [] || s[0] == NUL then 0 else 1 + FirstNul(s[1..])
  }

  lemma {:induction false} FirstNulIs(a: Str, x: Str)
    requires NUL !in a
    ensures FirstNul(a + [NUL] + x) == |a|
  {
    if a == [] {
      assert a + [NUL] + x == [NUL] + x;
    } else {
      assert (a + [NUL] + x)[1..] == a[1..] + [NUL] + x;
      FirstNulIs(a[1..], x);
    }
  }

  /** A text is cut at its first NUL in one way only. */
  lemma CutAtNul(a: Str, x: Str, b: Str, y: Str)
    requires NUL !in a && NUL !in b
    requires a + [NUL] + x == b + [NUL] + y
    ensures a == b && x == y
  {
    FirstNulIs(a, x);
    FirstNulIs(b, y);
    var s, t := a + [NUL] + x, b + [NUL] + y;
    assert a == s[..|a|] && b == t[..|b|];
    assert x == s[|a| + 1..] && y == t[|b| + 1..];
  }

  function AfterFolder(id: Identity): Str {
    if HasPair(id) then [0x75, 0x69, 0x64, NUL] + Dec(id.uidValidity) + [NUL] + Dec(id.uid)
    else [0x6D, 0x65, 0x73, 0x73, 0x61, 0x67, 0x65, 0x2D, 0x69, 0x64, NUL] + Trim(id.messageID)
  }

  lemma KeyShape(f: Str, id: Identity)
    ensures IdentityKey(f, id) == Trim(f) + [NUL] + AfterFolder(id)
  {
    hide Trim, Dec;
    if HasPair(id) {
      PairShape(Trim(f), Dec(id.uidValidity), Dec(id.uid));
    } else {
      MessageShape(Trim(f), Trim(id.messageID));
    }
  }

  lemma PairShape(f: Str, validity: Str, uid: Str)
    ensures f + UidTag() + validity + [NUL] + uid == f + [NUL] + ([0x75, 0x69, 0x64, NUL] + validity + [NUL] + uid)
  {
  }

  lemma MessageShape(f: Str, id: Str)
    ensures f + MessageTag() + id ==
      f + [NUL] + ([0x6D, 0x65, 0x73, 0x73, 0x61, 0x67, 0x65, 0x2D, 0x69, 0x64, NUL] + id)
  {
  }

  lemma {:induction false} TrimLeftMembers(s: Str)
    ensures forall r :: r in TrimLeft(s) ==> r in s
  {
    if s != [] && IsSpace(s[0]) { TrimLeftMembers(s[1..]); }
  }

  lemma TrimMembers(s: Str)
    ensures forall r :: r in Trim(s) ==> r in s
  {
    TrimLeftMembers(s);
    var t := TrimLeft(s);
    assert TrimRight(t) <= t;
  }

  lemma PairKeysInjective(a: Identity, b: Identity)
    requires HasPair(a) && HasPair(b) && AfterFolder(a) == AfterFolder(b)
    ensures a.uid == b.uid && a.uidValidity == b.uidValidity
  {
    hide Dec;
    var x, y := AfterFolder(a), AfterFolder(b);
    assert x[4..] == Dec(a.uidValidity) + [NUL] + Dec(a.uid);
    assert y[4..] == Dec(b.uidValidity) + [NUL] + Dec(b.uid);
    CutAtNul(Dec(a.uidValidity), Dec(a.uid), Dec(b.uidValidity), Dec(b.uid));
    DecInjective(a.uid, b.uid);
    DecInjective(a.uidValidity, b.uidValidity);
  }

  lemma MessageKeysInjective(a: Identity, b: Identity)
    requires !HasPair(a) && !HasPair(b) && AfterFolder(a) == AfterFolder(b)
    ensures Trim(a.messageID) == Trim(b.messageID)
  {
    hide Trim;
    assert AfterFolder(a)[11..] == Trim(a.messageID);
    assert AfterFolder(b)[11..] == Trim(b.messageID);
  }

  /** For folder names without NUL the key identifies the message, both ways. */
  lemma KeysIdentify(f: Str, a: Identity, g: Str, b: Identity)
    requires NUL !in f && NUL !in g
    ensures IdentityKey(f, a) == IdentityKey(g, b) <==> SameMessage(f, a, g, b)
  {
    KeyShape(f, a);
    KeyShape(g, b);
    TrimMembers(f);
    TrimMembers(g);
    hide Trim, Dec, IdentityKey;
    if IdentityKey(f, a) == IdentityKey(g, b) {
      CutAtNul(Trim(f), AfterFolder(a), Trim(g), AfterFolder(b));
      assert HasPair(a) <==> AfterFolder(a)[0] == 0x75;
      assert HasPair(b) <==> AfterFolder(b)[0] == 0x75;
      if HasPair(a) {
        PairKeysInjective(a, b);
      } else {
        MessageKeysInjective(a, b);
      }
    }
  }

  // ------------------------------------------------------ the remote walk

  /** One message of a completed remote walk, with the local folders its remote folder fills. */
  datatype Seen = Seen(folders: seq<Str>, identity: Identity)

  /** retainRemoteIdentity: the keys one message puts in the snapshot. */
  function KeysOf(m: Seen): set<Str> {
    set i | 0 <= i < |m.folders| :: IdentityKey(m.folders[i], m.identity)
  }

  function AliasKeysOf(m: Seen): set<Str> {
    if Trim(m.identity.messageID) == [] then {}
    else set i | 0 <= i < |m.folders| :: MessageIDKey(m.folders[i], m.identity.messageID)
  }

  function Snapshot(walk: seq<Seen>): set<Str> {
    if walk == [] then {} else KeysOf(walk[0]) + AliasKeysOf(walk[0]) + Snapshot(walk[1..])
  }

  method RetainRemoteIdentity(snapshot: set<Str>, m: Seen) returns (out: set<Str>)
    ensures out == snapshot + KeysOf(m) + AliasKeysOf(m)
  {
    hide IdentityKey, MessageIDKey, Trim;
    out := snapshot;
    for i := 0 to |m.folders|
      invariant out == snapshot + KeysOf(Seen(m.folders[..i], m.identity)) +
        AliasKeysOf(Seen(m.folders[..i], m.identity))
    {
      OneMoreFolder(m, i);
      out := out + {IdentityKey(m.folders[i], m.identity)};
      if Trim(m.identity.messageID) != [] {
        out := out + {MessageIDKey(m.folders[i], m.identity.messageID)};
      }
    }
    assert m == Seen(m.folders[..|m.folders|], m.identity);
  }

  lemma OneMoreFolder(m: Seen, i: nat)
    requires i < |m.folders|
    ensures var a, b := Seen(m.folders[..i], m.identity), Seen(m.folders[..i + 1], m.identity);
      && KeysOf(b) == KeysOf(a) + {IdentityKey(m.folders[i], m.identity)}
      && AliasKeysOf(b) == AliasKeysOf(a) +
        (if Trim(m.identity.messageID) == [] then {} else {MessageIDKey(m.folders[i], m.identity.messageID)})
  {
    hide IdentityKey, MessageIDKey, Trim;
    var fs := m.folders[..i + 1];
    assert forall k :: 0 <= k < i ==> m.folders[..i][k] == fs[k];
    assert fs[i] == m.folders[i];
  }

  /** The walk saw this message in this folder: by UID pair when the row has one,
      else by Message-ID, which the walk also keeps for messages with a pair. */
  predicate SeenAs(m: Seen, folder: Str, id: Identity) {
    exists i :: 0 <= i < |m.folders| && SeenIn(m, m.folders[i], folder, id)
  }

  predicate SeenIn(m: Seen, g: Str, folder: Str, id: Identity) {
    && Trim(g) == Trim(folder)
    && if HasPair(id) then HasPair(m.identity) && m.identity.uid == id.uid && m.identity.uidValidity == id.uidValidity
       else Trim(m.identity.messageID) == Trim(id.messageID) && (Trim(id.messageID) != [] || !HasPair(m.identity))
  }

  ghost predicate NulFree(walk: seq<Seen>) {
    forall k :: 0 <= k < |walk| ==> FoldersNulFree(walk[k])
  }

  ghost predicate FoldersNulFree(m: Seen) {
    forall i :: 0 <= i < |m.folders| ==> NUL !in m.folders[i]
  }

  lemma AliasIsIdentity(g: Str, m: Identity)
    ensures MessageIDKey(g, m.messageID) == IdentityKey(g, Identity(m.messageID, 0, 0))
  {
  }

  lemma OneSeenFolder(m: Seen, g: Str, folder: Str, id: Identity)
    requires NUL !in g && NUL !in folder
    ensures SeenIn(m, g, folder, id) <==>
      || IdentityKey(g, m.identity) == IdentityKey(folder, id)
      || (Trim(m.identity.messageID) != [] && MessageIDKey(g, m.identity.messageID) == IdentityKey(folder, id))
  {
    KeysIdentify(g, m.identity, folder, id);
    AliasIsIdentity(g, m.identity);
    KeysIdentify(g, Identity(m.identity.messageID, 0, 0), folder, id);
    hide IdentityKey, MessageIDKey, Trim;
  }

  lemma SeenIffKeyed(m: Seen, folder: Str, id: Identity)
    requires NUL !in folder && FoldersNulFree(m)
    ensures SeenAs(m, folder, id) <==> IdentityKey(folder, id) in KeysOf(m) + AliasKeysOf(m)
  {
    hide IdentityKey, MessageIDKey, Trim, SeenIn;
    forall i | 0 <= i < |m.folders|
      ensures SeenIn(m, m.folders[i], folder, id) <==>
        || IdentityKey(m.folders[i], m.identity) == IdentityKey(folder, id)
        || (Trim(m.identity.messageID) != [] &&
            MessageIDKey(m.folders[i], m.identity.messageID) == IdentityKey(folder, id))
    {
      OneSeenFolder(m, m.folders[i], folder, id);
    }
  }

  /** A row's key is in the snapshot exactly when the walk saw the row's message. */
  lemma {:induction false} InSnapshotIffSeen(walk: seq<Seen>, folder: Str, id: Identity)
    requires NUL !in folder && NulFree(walk)
    ensures IdentityKey(folder, id) in Snapshot(walk) <==> exists k :: 0 <= k < |walk| && SeenAs(walk[k], folder, id)
  {
    hide IdentityKey, SeenAs, KeysOf, AliasKeysOf;
    if walk != [] {
      SeenIffKeyed(walk[0], folder, id);
      InSnapshotIffSeen(walk[1..], folder, id);
      assert forall k :: 1 <= k < |walk| ==> walk[k] == walk[1..][k - 1];
    }
  }

  // --------------------------------------------------- which rows are stale

  /** What the folder's mbsync state file gives: nothing there, a read that fails, or a text. */
  datatype StateFile = Missing | Unreadable | Contents(data: Str)

  /** One row of the local index; `name` is the base name of its path. */
  datatype Row = Row(id: int, folder: Str, underRoot: bool, name: Str, stored: Identity)

  datatype Item = Item(row: Row, identity: Identity)

  /** The state text maps the row's file name to this remote identity. */
  ghost predicate Mapped(data: Str, name: Str, id: Identity) {
    && WellFormed(Lines(data))
    && id.messageID == []
    && Declares(HeaderPart(Lines(data)), FarName(), id.uidValidity)
    && exists near: nat :: NearUID(name) == Some(near) && Lists(MappingPart(Lines(data)), id.uid, near)
  }

  /** The identity under which the row is looked up in the snapshot. A row for which there
      is none is unknown or unreadable. */
  ghost predicate KnownAs(files: Str -> StateFile, row: Row, id: Identity) {
    row.underRoot && match files(row.folder)
    case Missing => id == row.stored
    case Unreadable => false
    case Contents(data) => Mapped(data, row.name, id)
  }

  lemma MappedOnce(data: Str, name: Str, a: Identity, b: Identity)
    requires Mapped(data, name, a) && Mapped(data, name, b)
    ensures a == b && HasPair(a)
  {
    hide Lines, NearUID, FirstEmpty, Declares, Lists, MappingsRead, HeadersRead;
    DeclaredOnce(HeaderPart(Lines(data)), FarName(), a.uidValidity, b.uidValidity);
    var near: nat :| NearUID(name) == Some(near) && Lists(MappingPart(Lines(data)), a.uid, near);
    ListedOnce(MappingPart(Lines(data)), a.uid, b.uid, near);
    ListedPositive(MappingPart(Lines(data)), a.uid, near);
    var v: nat :| v != 0 && Declares(HeaderPart(Lines(data)), FarName(), v);
    DeclaredOnce(HeaderPart(Lines(data)), FarName(), a.uidValidity, v);
  }

  lemma ListedPositive(mappings: seq<Str>, far: nat, near: nat)
    requires Lists(mappings, far, near)
    ensures far != 0
  {
    hide Words, Skipped;
  }

  lemma MappedIsListed(data: Str, name: Str, near: nat, st: FolderState, id: Identity)
    requires Mapped(data, name, id) && NearUID(name) == Some(near) && Describes(Lines(data), st)
    ensures near in st.nearToFar
  {
    hide Lines, NearUID, FirstEmpty, Declares, Lists, WellFormed;
    assert (near, id.uid) in st.nearToFar.Items;
  }

  /** A row whose file name carries a near UID is looked up under the far UID written before it
      in its folder's state file, and under the far UIDVALIDITY written there. */
  lemma WrittenRowIsKnown(files: Str -> StateFile, row: Row, headers: seq<(Str, nat)>, entries: seq<Entry>, end: Str,
                          farValidity: nat, nearValidity: nat, far: nat, near: nat)
    requires SoundHeaders(headers) && SoundEntries(entries) && IsLineEnd(end)
    requires (Ascii("FarUidValidity"), farValidity) in headers && (Ascii("NearUidValidity"), nearValidity) in headers
    requires farValidity > 0 && nearValidity > 0
    requires row.underRoot && files(row.folder) == Contents(WrittenState(headers, entries, end))
    requires NearUID(row.name) == Some(near) && Listed(entries, far, near)
    ensures KnownAs(files, row, Identity([], far, farValidity))
  {
    WrittenStateIsRead(headers, entries, end, farValidity, nearValidity, FolderState(0, map[]));
    hide Lines, WellFormed, HeaderPart, MappingPart, Declares, Lists, NearUID, WrittenState;
  }

  /** mbsyncIdentityForPath for one row, with the cache of state files read so far. */
  method IdentityFor(files: Str -> StateFile, row: Row, cache: map<Str, Option<FolderState>>)
    returns (id: Option<Identity>, fromState: bool, cacheOut: map<Str, Option<FolderState>>)
    requires CacheHonest(files, cache)
    ensures CacheHonest(files, cacheOut)
    ensures id.Some? ==> KnownAs(files, row, id.value)
    ensures id.None? ==> forall other :: !KnownAs(files, row, other)
    ensures id.Some? ==> (fromState <==> files(row.folder).Contents?)
  {
    hide Lines, NearUID, FirstEmpty, Declares, Lists, WellFormed;
    cacheOut := cache;
    fromState := false;
    if !row.underRoot { return None, false, cacheOut; }
    var state: Option<FolderState>;
    if row.folder in cache {
      state := cache[row.folder];
    } else {
      match files(row.folder)
      case Missing => state := None;
      case Unreadable => return None, false, cacheOut;
      case Contents(data) =>
        state := ParseFolderState(data);
        if state.None? { return None, false, cacheOut; }
      cacheOut := cacheOut[row.folder := state];
    }
    assert CacheEntry(files, row.folder, state);
    if state.None? { return Some(row.stored), false, cacheOut; }
    var near := NearUID(row.name);
    if near.None? { return None, false, cacheOut; }
    ghost var data := files(row.folder).data;
    forall other | Mapped(data, row.name, other) ensures near.value in state.value.nearToFar {
      MappedIsListed(data, row.name, near.value, state.value, other);
    }
    if near.value !in state.value.nearToFar { return None, false, cacheOut; }
    var far := state.value.nearToFar[near.value];
    assert (near.value, far) in state.value.nearToFar.Items;
    assert Lists(MappingPart(Lines(data)), far, near.value);
    return Some(Identity([], far, state.value.farUIDValidity)), true, cacheOut;
  }

  /** A cached state is what its file says; failed reads are not cached. */
  ghost predicate CacheEntry(files: Str -> StateFile, folder: Str, state: Option<FolderState>) {
    match files(folder)
    case Missing => state.None?
    case Unreadable => false
    case Contents(data) => state.Some? && WellFormed(Lines(data)) && Describes(Lines(data), state.value)
  }

  ghost predicate CacheHonest(files: Str -> StateFile, cache: map<Str, Option<FolderState>>) {
    forall folder :: folder in cache ==> CacheEntry(files, folder, cache[folder])
  }

  ghost function Known(files: Str -> StateFile, row: Row): (r: Option<Identity>)
    ensures r.Some? ==> KnownAs(files, row, r.value)
    ensures r.None? ==> forall id :: !KnownAs(files, row, id)
  {
    if exists id :: KnownAs(files, row, id) then var id :| KnownAs(files, row, id); Some(id) else None
  }

  lemma KnownOnce(files: Str -> StateFile, row: Row, id: Identity)
    requires KnownAs(files, row, id)
    ensures Known(files, row) == Some(id)
  {
    hide Mapped;
    if files(row.folder).Contents? {
      MappedOnce(files(row.folder).data, row.name, Known(files, row).value, id);
    }
  }

  /** Neither a provider identity nor a Message-ID: the source's guard, all three at once. */
  predicate Anonymous(id: Identity) { id.uid == 0 && id.uidValidity == 0 && Trim(id.messageID) == [] }

  ghost predicate Scheduled(files: Str -> StateFile, remote: set<Str>, row: Row) {
    var id := Known(files, row);
    id.Some? && !Anonymous(Identity(row.stored.messageID, id.value.uid, id.value.uidValidity)) &&
      IdentityKey(row.folder, id.value) !in remote
  }

  ghost function StaleItems(files: Str -> StateFile, remote: set<Str>, rows: seq<Row>): seq<Item> {
    if rows == [] then []
    else
      var row := rows[|rows| - 1];
      StaleItems(files, remote, rows[..|rows| - 1])
      + if Scheduled(files, remote, row) then [Item(row, Known(files, row).value)] else []
  }

  ghost function HydratedItems(files: Str -> StateFile, rows: seq<Row>): seq<Item> {
    if rows == [] then []
    else
      var row := rows[|rows| - 1];
      HydratedItems(files, rows[..|rows| - 1])
      + if files(row.folder).Contents? && Known(files, row).Some? then [Item(row, Known(files, row).value)] else []
  }

  /** The decision loop of reconcileIndexedMessages. */
  method Reconcile(files: Str -> StateFile, remote: set<Str>, rows: seq<Row>)
    returns (stale: seq<Item>, hydrated: seq<Item>)
    ensures stale == StaleItems(files, remote, rows)
    ensures hydrated == HydratedItems(files, rows)
  {
    hide KnownAs, IdentityKey, CacheHonest;
    stale, hydrated := [], [];
    var cache: map<Str, Option<FolderState>> := map[];
    assert CacheHonest(files, cache) by { EmptyCache(files); }
    for i := 0 to |rows|
      invariant CacheHonest(files, cache)
      invariant stale == StaleItems(files, remote, rows[..i])
      invariant hydrated == HydratedItems(files, rows[..i])
    {
      var row := rows[i];
      assert rows[..i + 1][..i] == rows[..i];
      var id, fromState;
      id, fromState, cache := IdentityFor(files, row, cache);
      if id.Some? {
        KnownOnce(files, row, id.value);
        var item := Item(row, id.value);
        if fromState {
          hydrated := hydrated + [item];
        }
        if !(id.value.uid == 0 && id.value.uidValidity == 0 && Trim(row.stored.messageID) == []) {
          if IdentityKey(row.folder, id.value) !in remote {
            UnderRoot(files, row, id.value);
            if row.underRoot {
              stale := stale + [item];
            }
          }
        }
      }
    }
    assert rows[..|rows|] == rows;
  }

  lemma EmptyCache(files: Str -> StateFile)
    ensures CacheHonest(files, map[])
  {
  }

  lemma UnderRoot(files: Str -> StateFile, row: Row, id: Identity)
    requires KnownAs(files, row, id)
    ensures row.underRoot
  {
  }

  lemma {:induction false} ScheduledIffIn(files: Str -> StateFile, remote: set<Str>, rows: seq<Row>, item: Item)
    ensures item in StaleItems(files, remote, rows) <==>
      item.row in rows && Scheduled(files, remote, item.row) && Known(files, item.row) == Some(item.identity)
  {
    hide Known, IdentityKey, Anonymous;
    if rows != [] {
      ScheduledIffIn(files, remote, rows[..|rows| - 1], item);
      assert rows == rows[..|rows| - 1] + [rows[|rows| - 1]];
    }
  }

  /** The decision against a complete walk: a row is retired exactly when its identity is
      known, is not anonymous, and no message of the walk was seen under it. */
  lemma StaleExactlyUnseen(files: Str -> StateFile, walk: seq<Seen>, rows: seq<Row>, row: Row, id: Identity)
    requires NUL !in row.folder && NulFree(walk)
    ensures Item(row, id) in StaleItems(files, Snapshot(walk), rows) <==>
      && row in rows && KnownAs(files, row, id)
      && !Anonymous(Identity(row.stored.messageID, id.uid, id.uidValidity))
      && !exists k :: 0 <= k < |walk| && SeenAs(walk[k], row.folder, id)
  {
    ScheduledIffIn(files, Snapshot(walk), rows, Item(row, id));
    InSnapshotIffSeen(walk, row.folder, id);
    hide KnownAs, SeenAs, IdentityKey, Snapshot, StaleItems, Anonymous;
    if KnownAs(files, row, id) {
      KnownOnce(files, row, id);
    }
  }

  /** The guard wants all three parts absent. A row holding only a UID, or only a
      UIDVALIDITY, and no Message-ID has nothing the walk could be matched by, and is
      retired against any walk whose messages all carry a Message-ID or a UID pair. */
  lemma HalfAPairIsRetired(files: Str -> StateFile, walk: seq<Seen>, row: Row)
    requires NUL !in row.folder && NulFree(walk)
    requires files(row.folder) == Missing && row.underRoot
    requires Trim(row.stored.messageID) == [] && (row.stored.uid == 0) != (row.stored.uidValidity == 0)
    requires forall k :: 0 <= k < |walk| ==> HasPair(walk[k].identity) || Trim(walk[k].identity.messageID) != []
    ensures Item(row, row.stored) in StaleItems(files, Snapshot(walk), [row])
  {
    StaleExactlyUnseen(files, walk, [row], row, row.stored);
    hide StaleItems, Snapshot, Trim;
  }

  // For rows of folders without a state file, in the numbers and texts themselves.

  /** The message of the walk stands in this folder. */
  ghost predicate InFolder(m: Seen, folder: Str) {
    exists i :: 0 <= i < |m.folders| && Trim(m.folders[i]) == Trim(folder)
  }

  /** With both numbers a row is retired exactly when no message of the walk in its folder has
      them; its Message-ID makes no difference. */
  lemma NumberedRowRetiredIff(files: Str -> StateFile, walk: seq<Seen>, row: Row)
    requires NUL !in row.folder && NulFree(walk) && files(row.folder) == Missing && row.underRoot
    requires row.stored.uid != 0 && row.stored.uidValidity != 0
    ensures Item(row, row.stored) in StaleItems(files, Snapshot(walk), [row]) <==>
      forall k :: 0 <= k < |walk| && InFolder(walk[k], row.folder) ==>
        walk[k].identity.uid != row.stored.uid || walk[k].identity.uidValidity != row.stored.uidValidity
  {
    StaleExactlyUnseen(files, walk, [row], row, row.stored);
    hide StaleItems, Snapshot, Trim;
    forall k | 0 <= k < |walk| ensures SeenAs(walk[k], row.folder, row.stored) <==>
      InFolder(walk[k], row.folder) && walk[k].identity.uid == row.stored.uid &&
      walk[k].identity.uidValidity == row.stored.uidValidity
    {
      if i :| 0 <= i < |walk[k].folders| && Trim(walk[k].folders[i]) == Trim(row.folder) {
        assert SeenIn(walk[k], walk[k].folders[i], row.folder, row.stored) <==>
          walk[k].identity.uid == row.stored.uid && walk[k].identity.uidValidity == row.stored.uidValidity;
      }
    }
  }

  /** Without them it is retired exactly when no message of the walk in its folder has its
      Message-ID, blanks around it apart. */
  lemma NamedRowRetiredIff(files: Str -> StateFile, walk: seq<Seen>, row: Row)
    requires NUL !in row.folder && NulFree(walk) && files(row.folder) == Missing && row.underRoot
    requires (row.stored.uid == 0 || row.stored.uidValidity == 0) && Trim(row.stored.messageID) != []
    ensures Item(row, row.stored) in StaleItems(files, Snapshot(walk), [row]) <==>
      forall k :: 0 <= k < |walk| && InFolder(walk[k], row.folder) ==>
        Trim(walk[k].identity.messageID) != Trim(row.stored.messageID)
  {
    StaleExactlyUnseen(files, walk, [row], row, row.stored);
    hide StaleItems, Snapshot, Trim;
    forall k | 0 <= k < |walk| ensures SeenAs(walk[k], row.folder, row.stored) <==>
      InFolder(walk[k], row.folder) && Trim(walk[k].identity.messageID) == Trim(row.stored.messageID)
    {
      if i :| 0 <= i < |walk[k].folders| && Trim(walk[k].folders[i]) == Trim(row.folder) {
        assert SeenIn(walk[k], walk[k].folders[i], row.folder, row.stored) <==>
          Trim(walk[k].identity.messageID) == Trim(row.stored.messageID);
      }
    }
  }

  /** A row with neither number and no Message-ID, one outside the root, and one whose folder's
      state file cannot be read are never retired. */
  lemma UnknownRowStays(files: Str -> StateFile, walk: seq<Seen>, rows: seq<Row>, row: Row, id: Identity)
    requires NUL !in row.folder && NulFree(walk)
    requires !row.underRoot || files(row.folder) == Unreadable ||
      (files(row.folder) == Missing &&
       row.stored.uid == 0 && row.stored.uidValidity == 0 && Trim(row.stored.messageID) == [])
    ensures Item(row, id) !in StaleItems(files, Snapshot(walk), rows)
  {
    StaleExactlyUnseen(files, walk, rows, row, id);
    hide StaleItems, Snapshot, Trim;
  }

  lemma {:induction false} HydratedIffIn(files: Str -> StateFile, rows: seq<Row>, item: Item)
    ensures item in HydratedItems(files, rows) <==>
      item.row in rows && files(item.row.folder).Contents? && Known(files, item.row) == Some(item.identity)
  {
    hide Known;
    if rows != [] {
      HydratedIffIn(files, rows[..|rows| - 1], item);
      assert rows == rows[..|rows| - 1] + [rows[|rows| - 1]];
    }
  }

  /** The rows whose stored numbers are to be brought up to date are exactly those whose folder
      has a state file that gives them an identity, and they get that identity. */
  lemma HydratedExactlyMapped(files: Str -> StateFile, rows: seq<Row>, row: Row, id: Identity)
    ensures Item(row, id) in HydratedItems(files, rows) <==>
      row in rows && row.underRoot && files(row.folder).Contents? && Mapped(files(row.folder).data, row.name, id)
  {
    HydratedIffIn(files, rows, Item(row, id));
    hide Mapped, HydratedItems;
    if KnownAs(files, row, id) {
      KnownOnce(files, row, id);
    }
  }

  lemma CountOne<T>(a: seq<T>, x: T, y: T)
    ensures multiset(a + [x])[y] == multiset(a)[y] + if x == y then 1 else 0
  {
    assert multiset(a + [x]) == multiset(a) + multiset{x};
  }

  /** Each row is retired as often as it is listed, and so is each brought up to date. */
  lemma OncePerRow(files: Str -> StateFile, remote: set<Str>, rows: seq<Row>, item: Item)
    ensures item in StaleItems(files, remote, rows) ==>
      multiset(StaleItems(files, remote, rows))[item] == multiset(rows)[item.row]
    ensures item in HydratedItems(files, rows) ==>
      multiset(HydratedItems(files, rows))[item] == multiset(rows)[item.row]
  {
    StaleOnce(files, remote, rows, item);
    HydratedOnce(files, rows, item);
  }

  lemma {:induction false} StaleOnce(files: Str -> StateFile, remote: set<Str>, rows: seq<Row>, item: Item)
    ensures item in StaleItems(files, remote, rows) ==>
      multiset(StaleItems(files, remote, rows))[item] == multiset(rows)[item.row]
  {
    hide Known, Scheduled;
    ScheduledIffIn(files, remote, rows, item);
    if rows != [] {
      var front, last := rows[..|rows| - 1], rows[|rows| - 1];
      StaleOnce(files, remote, front, item);
      ScheduledIffIn(files, remote, front, item);
      OneItem(StaleItems(files, remote, front), StaleItems(files, remote, rows), item);
      OneRow(rows, item.row);
    }
  }

  lemma {:induction false} HydratedOnce(files: Str -> StateFile, rows: seq<Row>, item: Item)
    ensures item in HydratedItems(files, rows) ==>
      multiset(HydratedItems(files, rows))[item] == multiset(rows)[item.row]
  {
    hide Known;
    HydratedIffIn(files, rows, item);
    if rows != [] {
      var front, last := rows[..|rows| - 1], rows[|rows| - 1];
      HydratedOnce(files, front, item);
      HydratedIffIn(files, front, item);
      OneItem(HydratedItems(files, front), HydratedItems(files, rows), item);
      OneRow(rows, item.row);
    }
  }

  lemma OneRow(rows: seq<Row>, row: Row)
    requires rows != []
    ensures var front, last := rows[..|rows| - 1], rows[|rows| - 1];
      && multiset(rows)[row] == multiset(front)[row] + (if last == row then 1 else 0)
      && (row !in front ==> multiset(front)[row] == 0)
      && (row in rows <==> row in front || row == last)
  {
    assert rows == rows[..|rows| - 1] + [rows[|rows| - 1]];
    CountOne(rows[..|rows| - 1], rows[|rows| - 1], row);
  }

  lemma OneItem(a: seq<Item>, b: seq<Item>, item: Item)
    ensures forall x :: b == a + [x] ==> multiset(b)[item] == multiset(a)[item] + if x == item then 1 else 0
    ensures item !in a ==> multiset(a)[item] == 0
    ensures b == a + [] ==> multiset(b)[item] == multiset(a)[item]
  {
    forall x | b == a + [x] ensures multiset(b)[item] == multiset(a)[item] + if x == item then 1 else 0 {
      CountOne(a, x, item);
    }
    assert a + [] == a;
  }
}
