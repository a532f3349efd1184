/** Manifests: sorted, collision-free lists of files, encoded as canonical JSON. */
module Manifest {
  import opened Wrappers
  import opened Text
  import opened Sorting
  import opened Utf8
  import opened Paths
  import opened Json

  const SCHEMA_ID := "modori.live_research_os_office_kit_manifest"
  const SCHEMA_VERSION := 1
  const MAX_ENTRIES := 50_000

  datatype Entry = Entry(path: string, sizeBytes: int, sha256: string)

  predicate IsDigest(s: string) {
    |s| == 64 && forall i | 0 <= i < |s| :: '0' <= s[i] <= '9' || 'a' <= s[i] <= 'f'
  }

  /** What `ManifestEntry.__post_init__` accepts. */
  predicate EntryOk(e: Entry, nfc: string -> bool) {
    && nfc(e.path) && IsPortablePath(e.path)
    && 0 <= e.sizeBytes <= MAX_SAFE_INTEGER
    && nfc(e.sha256) && IsDigest(e.sha256)
  }

  predicate EntriesOk(entries: seq<Entry>, nfc: string -> bool) {
    forall i | 0 <= i < |entries| :: EntryOk(entries[i], nfc)
  }

  function PathOf(e: Entry): string { e.path }

  function FoldedPathOf(e: Entry): string { CaseFold(e.path) }

  predicate EntryLe(a: Entry, b: Entry) { TextLe(a.path, b.path) }

  predicate CollisionFree(entries: seq<Entry>) {
    |entries| <= MAX_ENTRIES && Distinct(Map(PathOf, entries)) && Distinct(Map(FoldedPathOf, entries))
  }

  /** `_ordered_unique_manifest_entries`. */
  function Ordered(entries: seq<Entry>): Result<seq<Entry>> {
    var ordered := Sort(entries, EntryLe);
    if |entries| <= MAX_ENTRIES && Distinct(Map(PathOf, ordered)) && Distinct(Map(FoldedPathOf, ordered))
    then Ok(ordered) else Fail
  }

  function EntryJson(e: Entry): Json {
    Obj([Member("path", Str(e.path)), Member("sha256", Str(e.sha256)), Member("size_bytes", Int(e.sizeBytes))])
  }

  function ManifestJson(entries: seq<Entry>): Json {
    Obj([Member("entries", Arr(Map(EntryJson, entries))),
         Member("schema_id", Str(SCHEMA_ID)),
         Member("schema_version", Int(SCHEMA_VERSION))])
  }

  function ManifestBytes(entries: seq<Entry>, nfc: string -> bool): Result<seq<Byte>> {
    match Ordered(entries)
    case Fail => Fail
    case Ok(ordered) => CanonicalBytes(ManifestJson(ordered), nfc)
  }

  // ---------- Reading ----------

  /** `value == 1` as Python has it: `True` equals one. */
  predicate EqualsOne(v: Json) {
    v == Int(1) || v == Bool(true)
  }

  /** One raw entry, checked field by field. */
  function ReadEntry(v: Json, nfc: string -> bool): Result<Entry> {
    if v.Obj? && KeySet(v.members) == {"path", "sha256", "size_bytes"} then
      match (Lookup(v.members, "path"), Lookup(v.members, "size_bytes"), Lookup(v.members, "sha256"))
      case (Some(Str(path)), Some(Int(size)), Some(Str(digest))) =>
        if EntryOk(Entry(path, size, digest), nfc) then Ok(Entry(path, size, digest)) else Fail
      case _ => Fail
    else Fail
  }

  type Reader = Json -> Result<Entry>

  function EntryReader(nfc: string -> bool): Reader {
    v => ReadEntry(v, nfc)
  }

  /** All raw entries in turn; the first bad one fails the whole list. */
  function ReadAll(items: seq<Json>, read: Reader): Result<seq<Entry>> {
    if items == [] then Ok([])
    else
      match ReadAll(items[..|items| - 1], read)
      case Fail => Fail
      case Ok(front) =>
        match read(items[|items| - 1])
        case Fail => Fail
        case Ok(last) => Ok(front + [last])
  }

  lemma {:induction false} ReadPrefixes(items: seq<Json>, n: nat, read: Reader)
    requires n <= |items| && ReadAll(items[..n], read).Fail?
    ensures ReadAll(items, read).Fail?
    decreases |items|
  {
    if n < |items| {
      var front := items[..|items| - 1];
      assert front[..n] == items[..n];
      ReadPrefixes(front, n, read);
    } else {
      assert items[..n] == items;
    }
  }

  /** The loop of `parse_manifest`. */
  method CollectEntries(items: seq<Json>, read: Reader) returns (r: Result<seq<Entry>>)
    ensures r == ReadAll(items, read)
  {
    var entries: seq<Entry> := [];
    for i := 0 to |items|
      invariant ReadAll(items[..i], read) == Ok(entries)
    {
      assert items[..i + 1][..i] == items[..i] && items[..i + 1][i] == items[i];
      var entry := read(items[i]);
      if entry.Fail? {
        ReadPrefixes(items, i + 1, read);
        return Fail;
      }
      entries := entries + [entry.value];
    }
    assert items[..|items|] == items;
    return Ok(entries);
  }

  function ManifestEntries(v: Json, nfc: string -> bool): Result<seq<Entry>> {
    if v.Obj? && KeySet(v.members) == {"entries", "schema_id", "schema_version"}
       && Lookup(v.members, "schema_id") == Some(Str(SCHEMA_ID))
       && Lookup(v.members, "schema_version").Some? && EqualsOne(Lookup(v.members, "schema_version").value)
    then
      match Lookup(v.members, "entries")
      case Some(Arr(items)) =>
        (match ReadAll(items, EntryReader(nfc))
         case Fail => Fail
         case Ok(entries) => if Ordered(entries) == Ok(entries) then Ok(entries) else Fail)
      case _ => Fail
    else Fail
  }

  function ParseManifest(raw: seq<Byte>, nfc: string -> bool): Result<seq<Entry>> {
    match ParseCanonical(raw, nfc)
    case Fail => Fail
    case Ok(v) => ManifestEntries(v, nfc)
  }

  // ---------- Order ----------

  lemma EntryLeIsTotalPreorder()
    ensures IsTotalPreorder(EntryLe)
  {
    forall a, b, c
      ensures EntryLe(a, b) || EntryLe(b, a)
      ensures EntryLe(a, b) && EntryLe(b, c) ==> EntryLe(a, c)
    {
      TextLeTotalOrder(a.path, b.path, c.path);
    }
  }

  /** With distinct paths the sorted list depends on the set of entries only. */
  lemma SortedEntriesUnique(a: seq<Entry>, b: seq<Entry>)
    requires IsSorted(a, EntryLe) && IsSorted(b, EntryLe) && multiset(a) == multiset(b)
    requires Distinct(Map(PathOf, a))
    ensures a == b
  {
    TextLeIsTotalOrder();
    MapPermutes(PathOf, a, b);
    SortedUnique(Map(PathOf, a), Map(PathOf, b), TextLe);
    assert |a| == |Map(PathOf, a)| == |b|;
    forall i | 0 <= i < |a|
      ensures a[i] == b[i]
    {
      assert b[i] in multiset(a);
      var k :| 0 <= k < |a| && a[k] == b[i];
      assert Map(PathOf, a)[k] == b[i].path == Map(PathOf, b)[i] == Map(PathOf, a)[i];
      assert k == i;
    }
  }

  /** Sorting fails on a collision and only then. */
  lemma OrderedMeaning(entries: seq<Entry>)
    ensures Ordered(entries).Ok? <==> CollisionFree(entries)
    ensures Ordered(entries).Ok? ==>
              var o := Ordered(entries).value;
              IsSorted(o, EntryLe) && multiset(o) == multiset(entries) && |o| == |entries|
              && Distinct(Map(PathOf, o)) && Distinct(Map(FoldedPathOf, o))
  {
    var o := Sort(entries, EntryLe);
    EntryLeIsTotalPreorder();
    SortSorted(entries, EntryLe);
    SortPermutes(entries, EntryLe);
    MapPermutes(PathOf, entries, o);
    MapPermutes(FoldedPathOf, entries, o);
    if Distinct(Map(PathOf, o)) {
      DistinctPermutation(Map(PathOf, o), Map(PathOf, entries));
    }
    if Distinct(Map(FoldedPathOf, o)) {
      DistinctPermutation(Map(FoldedPathOf, o), Map(FoldedPathOf, entries));
    }
    if Distinct(Map(PathOf, entries)) {
      DistinctPermutation(Map(PathOf, entries), Map(PathOf, o));
    }
    if Distinct(Map(FoldedPathOf, entries)) {
      DistinctPermutation(Map(FoldedPathOf, entries), Map(FoldedPathOf, o));
    }
  }

  lemma OrderedOfPermutation(a: seq<Entry>, b: seq<Entry>)
    requires multiset(a) == multiset(b)
    ensures Ordered(a) == Ordered(b)
  {
    assert |a| == |multiset(a)| == |multiset(b)| == |b|;
    OrderedMeaning(a);
    OrderedMeaning(b);
    if CollisionFree(a) {
      SortedEntriesUnique(Ordered(a).value, Sort(b, EntryLe)) by {
        EntryLeIsTotalPreorder();
        SortSorted(b, EntryLe);
        SortPermutes(b, EntryLe);
      }
    }
    if CollisionFree(b) {
      SortedEntriesUnique(Ordered(b).value, Sort(a, EntryLe)) by {
        EntryLeIsTotalPreorder();
        SortSorted(a, EntryLe);
        SortPermutes(a, EntryLe);
      }
    }
  }

  lemma OrderedIdempotent(entries: seq<Entry>)
    requires Ordered(entries).Ok?
    ensures Ordered(Ordered(entries).value) == Ordered(entries)
  {
    OrderedMeaning(entries);
    OrderedOfPermutation(entries, Ordered(entries).value);
  }

  /** Listing the same files in another order gives the same manifest. */
  lemma ManifestBytesIgnoreOrder(a: seq<Entry>, b: seq<Entry>, nfc: string -> bool)
    requires multiset(a) == multiset(b)
    ensures ManifestBytes(a, nfc) == ManifestBytes(b, nfc)
  {
    OrderedOfPermutation(a, b);
  }
}
