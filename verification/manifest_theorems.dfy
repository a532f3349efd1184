/** Manifests survive the trip through their bytes, in both directions. */
module ManifestTheorems {
  import opened Wrappers
  import opened Text
  import opened Sorting
  import opened Utf8
  import opened Paths
  import opened Json
  import opened JsonTheorems
  import opened Manifest

  // ---------- Objects with three known keys ----------

  predicate Ascending(a: string, b: string, c: string) {
    Before(a, b, CharRank) && Before(b, c, CharRank)
  }

  lemma AscendingSorted(a: string, b: string, c: string)
    requires Ascending(a, b, c)
    ensures IsSorted([a, b, c], TextLe) && Distinct([a, b, c])
  {
    BeforeTransitive(a, b, c, CharRank);
    TextLeTotalOrder(a, b, c);
    TextLeTotalOrder(a, c, b);
    TextLeTotalOrder(b, a, c);
    BeforeIrreflexive(a, CharRank);
    BeforeIrreflexive(b, CharRank);
    if Before(b, a, CharRank) {
      BeforeTransitive(a, b, a, CharRank);
    }
    if Before(c, b, CharRank) {
      BeforeTransitive(b, c, b, CharRank);
    }
    if Before(c, a, CharRank) {
      BeforeTransitive(a, c, a, CharRank);
    }
  }

  /** Sorted members with exactly three keys stand in the order of the keys. */
  lemma ThreeMembers(members: seq<Member>, a: string, b: string, c: string)
    requires Ascending(a, b, c) && KeySet(members) == {a, b, c}
    requires Distinct(Map(KeyOf, members)) && IsSorted(members, MemberLe)
    ensures |members| == 3 && members[0].key == a && members[1].key == b && members[2].key == c
  {
    AscendingSorted(a, b, c);
    var keys := Map(KeyOf, members);
    forall k
      ensures k in keys <==> k in [a, b, c]
    {
      if k in keys {
        var i :| 0 <= i < |keys| && keys[i] == k;
        assert members[i] in members && k in KeySet(members);
      }
      if k in [a, b, c] {
        assert k in KeySet(members);
        var m :| m in members && m.key == k;
        var i :| 0 <= i < |members| && members[i] == m;
        assert keys[i] == k;
      }
    }
    DistinctSameElements(keys, [a, b, c]);
    TextLeIsTotalOrder();
    SortedUnique(keys, [a, b, c], TextLe);
  }

  lemma LookupThree(members: seq<Member>)
    requires |members| == 3
    requires members[0].key != members[1].key && members[0].key != members[2].key && members[1].key != members[2].key
    ensures Lookup(members, members[0].key) == Some(members[0].value)
    ensures Lookup(members, members[1].key) == Some(members[1].value)
    ensures Lookup(members, members[2].key) == Some(members[2].value)
  {
    var two, one := members[1..], members[2..];
    assert two[0] == members[1] && two[1..] == one && one[0] == members[2];
    assert Lookup(one, members[2].key) == Some(members[2].value);
    assert Lookup(two, members[2].key) == Some(members[2].value);
  }

  lemma MembersOfThree(members: seq<Member>, a: string, b: string, c: string)
    requires |members| == 3 && members[0].key == a && members[1].key == b && members[2].key == c
    requires Ascending(a, b, c)
    ensures KeySet(members) == {a, b, c} && IsSorted(members, MemberLe) && Distinct(Map(KeyOf, members))
    ensures Lookup(members, a) == Some(members[0].value)
    ensures Lookup(members, b) == Some(members[1].value)
    ensures Lookup(members, c) == Some(members[2].value)
  {
    AscendingSorted(a, b, c);
    var keys := [a, b, c];
    assert keys[0] != keys[1] && keys[0] != keys[2] && keys[1] != keys[2];
    assert Map(KeyOf, members) == keys;
    LookupThree(members);
    forall i, j | 0 <= i < j < 3
      ensures MemberLe(members[i], members[j])
    {
      assert TextLe(keys[i], keys[j]);
    }
    assert members[0] in members && members[1] in members && members[2] in members;
  }

  lemma SortedObject(members: seq<Member>)
    requires IsSorted(members, MemberLe) && Distinct(Map(KeyOf, members))
    requires forall i | 0 <= i < |members| ::
               SortKeys(members[i].value) == members[i].value && UniqueKeys(members[i].value)
    ensures SortKeys(Obj(members)) == Obj(members) && UniqueKeys(Obj(members))
  {
    assert SortValues(members) == members;
    SortOfSorted(members, MemberLe);
  }

  lemma SortedThree(a: string, b: string, c: string, x: Json, y: Json, z: Json)
    requires Ascending(a, b, c)
    requires SortKeys(x) == x && SortKeys(y) == y && SortKeys(z) == z
    requires UniqueKeys(x) && UniqueKeys(y) && UniqueKeys(z)
    ensures var v := Obj([Member(a, x), Member(b, y), Member(c, z)]);
            && SortKeys(v) == v && UniqueKeys(v) && KeySet(v.members) == {a, b, c}
            && Lookup(v.members, a) == Some(x) && Lookup(v.members, b) == Some(y) && Lookup(v.members, c) == Some(z)
  {
    var members := [Member(a, x), Member(b, y), Member(c, z)];
    MembersOfThree(members, a, b, c);
    forall i | 0 <= i < 3
      ensures SortKeys(members[i].value) == members[i].value && UniqueKeys(members[i].value)
    {
      assert members[i].value == if i == 0 then x else if i == 1 then y else z;
    }
    SortedObject(members);
  }

  lemma EntryKeysAscend()
    ensures Ascending("path", "sha256", "size_bytes")
  {
    assert "path"[0] == 'p' && "sha256"[0] == 's' && "size_bytes"[0] == 's';
    assert "sha256"[1..][0] == 'h' && "size_bytes"[1..][0] == 'i';
  }

  lemma ManifestKeysAscend()
    ensures Ascending("entries", "schema_id", "schema_version")
  {
    assert "entries"[0] == 'e' && "schema_id"[0] == 's';
    assert "schema_id" == "schema_" + "id" && "schema_version" == "schema_" + "version";
    assert "id"[0] == 'i' && "version"[0] == 'v';
    CommonPrefix("schema_", "id", "version", CharRank);
  }

  // ---------- Writing ----------

  lemma EntryJsonReadsBack(e: Entry, nfc: string -> bool)
    ensures SortKeys(EntryJson(e)) == EntryJson(e) && UniqueKeys(EntryJson(e))
    ensures EntryOk(e, nfc) ==> ReadEntry(EntryJson(e), nfc) == Ok(e)
  {
    EntryKeysAscend();
    SortedThree("path", "sha256", "size_bytes", Str(e.path), Str(e.sha256), Int(e.sizeBytes));
  }

  lemma ClosedKeys()
    ensures IsClosedKey("path") && IsAscii("path")
    ensures IsClosedKey("sha256") && IsAscii("sha256")
    ensures IsClosedKey("size_bytes") && IsAscii("size_bytes")
    ensures IsClosedKey("entries") && IsAscii("entries")
    ensures IsClosedKey("schema_id") && IsAscii("schema_id")
    ensures IsClosedKey("schema_version") && IsAscii("schema_version")
    ensures IsAscii(SCHEMA_ID)
  {
    EntryKeysClosed();
    ManifestKeysClosed();
  }

  lemma EntryKeysClosed()
    ensures IsClosedKey("path") && IsAscii("path")
    ensures IsClosedKey("sha256") && IsAscii("sha256")
    ensures IsClosedKey("size_bytes") && IsAscii("size_bytes")
  {
  }

  lemma ManifestKeysClosed()
    ensures IsClosedKey("entries") && IsAscii("entries")
    ensures IsClosedKey("schema_id") && IsAscii("schema_id")
    ensures IsClosedKey("schema_version") && IsAscii("schema_version")
  {
  }

  lemma EntryJsonCanonical(e: Entry, nfc: string -> bool)
    requires EntryOk(e, nfc) && AsciiIsNormal(nfc)
    ensures Canonical(EntryJson(e), 2, nfc)
  {
    ClosedKeys();
  }

  lemma ManifestJsonSorted(entries: seq<Entry>, nfc: string -> bool)
    ensures SortKeys(ManifestJson(entries)) == ManifestJson(entries) && UniqueKeys(ManifestJson(entries))
    ensures var members := ManifestJson(entries).members;
            && KeySet(members) == {"entries", "schema_id", "schema_version"}
            && Lookup(members, "entries") == Some(Arr(Map(EntryJson, entries)))
            && Lookup(members, "schema_id") == Some(Str(SCHEMA_ID))
            && Lookup(members, "schema_version") == Some(Int(SCHEMA_VERSION))
  {
    var items := Map(EntryJson, entries);
    forall i | 0 <= i < |items|
      ensures SortKeys(items[i]) == items[i] && UniqueKeys(items[i])
    {
      EntryJsonReadsBack(entries[i], nfc);
    }
    assert SortKeys(Arr(items)).items == items;
    ManifestKeysAscend();
    SortedThree("entries", "schema_id", "schema_version", Arr(items), Str(SCHEMA_ID), Int(SCHEMA_VERSION));
  }

  lemma ManifestJsonCanonical(entries: seq<Entry>, nfc: string -> bool)
    requires EntriesOk(entries, nfc) && AsciiIsNormal(nfc)
    ensures Canonical(ManifestJson(entries), 0, nfc)
  {
    ClosedKeys();
    var items := Map(EntryJson, entries);
    forall i | 0 <= i < |items|
      ensures Canonical(items[i], 2, nfc)
    {
      EntryJsonCanonical(entries[i], nfc);
    }
    assert Canonical(Arr(items), 1, nfc);
  }

  type Writer = Entry -> Json

  lemma {:induction false} ReadAllWritten(entries: seq<Entry>, write: Writer, read: Reader)
    requires forall i | 0 <= i < |entries| :: read(write(entries[i])) == Ok(entries[i])
    ensures ReadAll(Map(write, entries), read) == Ok(entries)
  {
    if entries != [] {
      var n := |entries| - 1;
      var items := Map(write, entries);
      assert items[..n] == Map(write, entries[..n]) && items[n] == write(entries[n]);
      ReadAllWritten(entries[..n], write, read);
      assert entries == entries[..n] + [entries[n]];
    }
  }

  lemma ReadWrittenEntries(entries: seq<Entry>, nfc: string -> bool)
    requires EntriesOk(entries, nfc)
    ensures ReadAll(Map(EntryJson, entries), EntryReader(nfc)) == Ok(entries)
  {
    forall i | 0 <= i < |entries|
      ensures EntryReader(nfc)(EntryJson(entries[i])) == Ok(entries[i])
    {
      EntryJsonReadsBack(entries[i], nfc);
    }
    ReadAllWritten(entries, EntryJson, EntryReader(nfc));
  }

  lemma SortedEntriesOk(entries: seq<Entry>, nfc: string -> bool)
    requires EntriesOk(entries, nfc)
    ensures EntriesOk(Sort(entries, EntryLe), nfc)
  {
    SortPermutes(entries, EntryLe);
    var ordered := Sort(entries, EntryLe);
    forall i | 0 <= i < |ordered|
      ensures EntryOk(ordered[i], nfc)
    {
      assert ordered[i] in multiset(entries);
      assert ordered[i] in entries;
    }
  }

  /** Reading a written manifest gives the entries back, sorted by path. */
  lemma ManifestRoundTrip(entries: seq<Entry>, nfc: string -> bool)
    requires AsciiIsNormal(nfc) && EntriesOk(entries, nfc)
    ensures ManifestBytes(entries, nfc).Ok? <==> CollisionFree(entries)
    ensures ManifestBytes(entries, nfc).Ok? && |ManifestBytes(entries, nfc).value| <= MAX_JSON_BYTES ==>
              ParseManifest(ManifestBytes(entries, nfc).value, nfc) == Ok(Sort(entries, EntryLe))
  {
    OrderedMeaning(entries);
    if CollisionFree(entries) {
      var ordered := Sort(entries, EntryLe);
      SortedEntriesOk(entries, nfc);
      ManifestJsonCanonical(ordered, nfc);
      ManifestJsonSorted(ordered, nfc);
      OrderedIdempotent(entries);
      ReadWrittenEntries(ordered, nfc);
      if |ManifestBytes(entries, nfc).value| <= MAX_JSON_BYTES {
        ParseOfPrinted(ManifestJson(ordered), nfc);
      }
    }
  }

  // ---------- Reading first ----------

  /** In a value whose keys are sorted, everything inside is sorted too. */
  lemma SortedInside(members: seq<Member>)
    requires SortKeys(Obj(members)) == Obj(members)
    ensures IsSorted(members, MemberLe)
    ensures forall i | 0 <= i < |members| :: SortKeys(members[i].value) == members[i].value
  {
    SortedMembers(members);
    forall i | 0 <= i < |members|
      ensures SortKeys(members[i].value) == members[i].value
    {
      var k := SortedMemberOrigin(members, i);
      SortKeysIdempotent(members[k].value);
    }
  }

  /** A sorted raw entry that was read is the writing of that entry. */
  lemma ReadEntryWritesBack(v: Json, nfc: string -> bool)
    requires SortKeys(v) == v && UniqueKeys(v) && ReadEntry(v, nfc).Ok?
    ensures v == EntryJson(ReadEntry(v, nfc).value)
  {
    EntryKeysAscend();
    SortedInside(v.members);
    ThreeMembers(v.members, "path", "sha256", "size_bytes");
    var keys := Map(KeyOf, v.members);
    assert keys[0] != keys[1] && keys[0] != keys[2] && keys[1] != keys[2];
    LookupThree(v.members);
    assert v.members == EntryJson(ReadEntry(v, nfc).value).members;
  }

  lemma {:induction false} ReadAllWritesBack(items: seq<Json>, write: Writer, read: Reader)
    requires ReadAll(items, read).Ok?
    requires forall i | 0 <= i < |items| :: read(items[i]).Ok? ==> items[i] == write(read(items[i]).value)
    ensures items == Map(write, ReadAll(items, read).value)
    ensures forall i | 0 <= i < |items| :: read(items[i]) == Ok(ReadAll(items, read).value[i])
  {
    if items != [] {
      var n := |items| - 1;
      ReadAllWritesBack(items[..n], write, read);
      assert items == items[..n] + [items[n]];
    }
  }

  lemma ReadEntriesWriteBack(items: seq<Json>, nfc: string -> bool)
    requires ReadAll(items, EntryReader(nfc)).Ok?
    requires forall i | 0 <= i < |items| :: SortKeys(items[i]) == items[i] && UniqueKeys(items[i])
    ensures var entries := ReadAll(items, EntryReader(nfc)).value;
            items == Map(EntryJson, entries) && EntriesOk(entries, nfc)
  {
    var read := EntryReader(nfc);
    forall i | 0 <= i < |items| && read(items[i]).Ok?
      ensures items[i] == EntryJson(read(items[i]).value)
    {
      ReadEntryWritesBack(items[i], nfc);
    }
    ReadAllWritesBack(items, EntryJson, read);
    forall i | 0 <= i < |items|
      ensures EntryOk(ReadAll(items, read).value[i], nfc)
    {
      assert ReadEntry(items[i], nfc) == Ok(ReadAll(items, read).value[i]);
    }
  }

  function VersionOf(raw: seq<Byte>, nfc: string -> bool): Option<Json>
    requires ParseManifest(raw, nfc).Ok?
  {
    Lookup(ParseCanonical(raw, nfc).value.members, "schema_version")
  }

  lemma SortedItems(items: seq<Json>)
    requires SortKeys(Arr(items)) == Arr(items) && UniqueKeys(Arr(items))
    ensures forall i | 0 <= i < |items| :: SortKeys(items[i]) == items[i] && UniqueKeys(items[i])
  {
    forall i | 0 <= i < |items|
      ensures SortKeys(items[i]) == items[i]
    {
      assert SortKeys(Arr(items)).items[i] == SortKeys(items[i]);
    }
  }

  /** What the three members of a manifest value hold. */
  lemma ManifestMembers(v: Json, nfc: string -> bool)
    requires SortKeys(v) == v && UniqueKeys(v) && ManifestEntries(v, nfc).Ok?
    ensures |v.members| == 3 && v.members[0].value.Arr?
    ensures v.members[0].key == "entries" && v.members[1].key == "schema_id" && v.members[2].key == "schema_version"
    ensures v.members[1].value == Str(SCHEMA_ID) && Lookup(v.members, "schema_version") == Some(v.members[2].value)
    ensures var items := v.members[0].value.items;
            && SortKeys(Arr(items)) == Arr(items) && UniqueKeys(Arr(items))
            && ReadAll(items, EntryReader(nfc)) == ManifestEntries(v, nfc)
  {
    ManifestKeysAscend();
    SortedInside(v.members);
    ThreeMembers(v.members, "entries", "schema_id", "schema_version");
    var keys := Map(KeyOf, v.members);
    assert keys[0] != keys[1] && keys[0] != keys[2] && keys[1] != keys[2];
    LookupThree(v.members);
  }

  /** The value behind an accepted manifest is the one the writer builds, but for the version. */
  lemma AcceptedManifestShape(v: Json, nfc: string -> bool)
    requires SortKeys(v) == v && UniqueKeys(v) && ManifestEntries(v, nfc).Ok?
    ensures var entries := ManifestEntries(v, nfc).value;
            && EntriesOk(entries, nfc) && Ordered(entries) == Ok(entries)
            && |v.members| == 3 && Lookup(v.members, "schema_version") == Some(v.members[2].value)
            && v.members[0] == Member("entries", Arr(Map(EntryJson, entries)))
            && v.members[1] == Member("schema_id", Str(SCHEMA_ID))
            && v.members[2].key == "schema_version"
  {
    ManifestMembers(v, nfc);
    var items := v.members[0].value.items;
    SortedItems(items);
    ReadEntriesWriteBack(items, nfc);
  }

  /** Writing an accepted manifest again gives the same bytes exactly when its schema version
      is the integer one and not the literal `true`, which compares equal to it. */
  lemma RewritingAcceptedManifest(raw: seq<Byte>, nfc: string -> bool)
    requires AsciiIsNormal(nfc) && ParseManifest(raw, nfc).Ok?
    ensures ManifestBytes(ParseManifest(raw, nfc).value, nfc) == Ok(raw)
            <==> VersionOf(raw, nfc) == Some(Int(SCHEMA_VERSION))
  {
    AcceptedIsPrinted(raw, nfc);
    RewritingManifestValue(ParseCanonical(raw, nfc).value, raw, nfc);
  }

  lemma RewritingManifestValue(v: Json, raw: seq<Byte>, nfc: string -> bool)
    requires AsciiIsNormal(nfc) && SortKeys(v) == v && UniqueKeys(v) && CanonicalBytes(v, nfc) == Ok(raw)
    requires ManifestEntries(v, nfc).Ok?
    ensures ManifestBytes(ManifestEntries(v, nfc).value, nfc) == Ok(raw)
            <==> Lookup(v.members, "schema_version") == Some(Int(SCHEMA_VERSION))
  {
    AcceptedManifestShape(v, nfc);
    var entries := ManifestEntries(v, nfc).value;
    var w := ManifestJson(entries);
    ManifestJsonSorted(entries, nfc);
    ManifestJsonCanonical(entries, nfc);
    SameBytesSameValue(v, w, nfc);
    OnlyVersionsDiffer(v, w);
  }

  lemma OnlyVersionsDiffer(v: Json, w: Json)
    requires v.Obj? && w.Obj? && |v.members| == |w.members| == 3
    requires v.members[0] == w.members[0] && v.members[1] == w.members[1] && v.members[2].key == w.members[2].key
    ensures v == w <==> v.members[2].value == w.members[2].value
  {
    if v.members[2].value == w.members[2].value {
      assert v.members == w.members;
    }
  }

  // ---------- A version that is accepted and not written back ----------

  /** An empty manifest with some version. */
  function EmptyManifest(version: Json): Json {
    Obj([Member("entries", Arr([])), Member("schema_id", Str(SCHEMA_ID)), Member("schema_version", version)])
  }

  lemma EmptyManifestIsSorted(version: Json)
    requires SortKeys(version) == version && UniqueKeys(version)
    ensures var v := EmptyManifest(version);
            && SortKeys(v) == v && UniqueKeys(v) && KeySet(v.members) == {"entries", "schema_id", "schema_version"}
            && Lookup(v.members, "entries") == Some(Arr([])) && Lookup(v.members, "schema_id") == Some(Str(SCHEMA_ID))
            && Lookup(v.members, "schema_version") == Some(version)
  {
    ManifestKeysAscend();
    SortedThree("entries", "schema_id", "schema_version", Arr([]), Str(SCHEMA_ID), version);
  }

  lemma EmptyManifestIsRead(v: Json, version: Json, nfc: string -> bool)
    requires v == EmptyManifest(version)
    requires SortKeys(version) == version && UniqueKeys(version) && EqualsOne(version)
    ensures SortKeys(v) == v && UniqueKeys(v) && ManifestEntries(v, nfc) == Ok([])
    ensures Lookup(v.members, "schema_version") == Some(version)
  {
    EmptyManifestIsSorted(version);
    assert Ordered([]) == Ok([]);
  }

  lemma EmptyManifestIsCanonical(version: Json, nfc: string -> bool)
    requires AsciiIsNormal(nfc) && version.Bool?
    ensures CanonicalBytes(EmptyManifest(version), nfc).Ok?
  {
    ClosedKeys();
    assert Canonical(Arr([]), 1, nfc) && Canonical(Str(SCHEMA_ID), 1, nfc) && Canonical(version, 1, nfc);
  }

  lemma {:induction false} EscapeLength(s: string)
    ensures |Escape(s)| <= 6 * |s|
  {
    if s != [] {
      EscapeLength(s[1..]);
    }
  }

  lemma MemberLength(m: Member, rest: seq<Member>)
    ensures |PrintMembers([m] + rest)| <= 6 * |m.key| + 4 + |PrintValue(m.value)| + |PrintMembers(rest)|
  {
    EscapeLength(m.key);
    assert ([m] + rest)[1..] == rest;
  }

  lemma ObjectLength(a: Member, b: Member, d: Member)
    ensures |PrintValue(Obj([a, b, d]))| <=
            6 * (|a.key| + |b.key| + |d.key|) + 14
            + |PrintValue(a.value)| + |PrintValue(b.value)| + |PrintValue(d.value)|
  {
    MemberLength(d, []);
    MemberLength(b, [d]);
    MemberLength(a, [b, d]);
    assert [a] + [b, d] == [a, b, d] && [b] + [d] == [b, d] && [d] + [] == [d];
  }

  lemma ShortManifest(v: Json, version: Json, text: string, nfc: string -> bool)
    requires version.Bool? && |text| <= 100
    requires v == Obj([Member("entries", Arr([])), Member("schema_id", Str(text)), Member("schema_version", version)])
    requires SortKeys(v) == v && CanonicalBytes(v, nfc).Ok?
    ensures |CanonicalBytes(v, nfc).value| <= MAX_JSON_BYTES
  {
    EscapeLength(text);
    ObjectLength(v.members[0], v.members[1], v.members[2]);
    EncodeLength(PrintValue(v));
  }

  /** The literal `true` is accepted as a schema version, and not written back. */
  lemma TrueIsAcceptedAsVersion(nfc: string -> bool) returns (raw: seq<Byte>)
    requires AsciiIsNormal(nfc)
    ensures ParseManifest(raw, nfc) == Ok([])
    ensures ManifestBytes([], nfc) != Ok(raw)
  {
    var version := Bool(true);
    var v := EmptyManifest(version);
    EmptyManifestIsRead(v, version, nfc);
    EmptyManifestIsCanonical(version, nfc);
    ShortManifest(v, version, SCHEMA_ID, nfc);
    raw := CanonicalBytes(v, nfc).value;
    ParseOfPrinted(v, nfc);
    RewritingManifestValue(v, raw, nfc);
  }
}
