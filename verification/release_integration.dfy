/** The release merge: the source manifest, the conflict ledger, and the verification of the merge commit. */
module ReleaseIntegration {
  import opened Wrappers
  import opened Text
  import opened Sorting
  import opened Paths

  datatype Side = Release | Research

  type Blob = Option<string>

  /** What the scripts ask `git`. */
  datatype Repo = Repo(
    mergeBase: (string, string) -> string,
    changed: (string, string) -> set<string>,
    blob: (string, string) -> Blob,
    parents: string -> seq<string>,
    testIds: string -> set<string>,
    treePaths: string -> seq<string>,
    hasMarkers: string -> bool)

  datatype PathRecord = PathRecord(path: string, baseBlob: Blob, releaseBlob: Blob, researchBlob: Blob)
  {
    function OwnBlob(side: Side): Blob {
      if side == Release then releaseBlob else researchBlob
    }
  }

  datatype SourceManifest = SourceManifest(
    mergeBase: string, releaseSha: string, researchSha: string,
    releaseOnly: seq<PathRecord>, researchOnly: seq<PathRecord>, shared: seq<PathRecord>)
  {
    function Only(side: Side): seq<PathRecord> {
      if side == Release then releaseOnly else researchOnly
    }
  }

  datatype Resolution = SemanticUnion | ReleaseSupersedes | ResearchSupersedes | Unresolved

  /** `complete`: every list field of the entry is a list, and those that must not be empty are not. */
  datatype LedgerEntry = LedgerEntry(path: string, complete: bool, resolution: Resolution, hasReason: bool,
                                     verified: bool)

  datatype Adjustment = Adjustment(
    path: string, side: Side, sourceBlob: Blob, integratedBlob: Blob, complete: bool, hasRationale: bool,
    verified: bool)

  datatype Ledger = Ledger(
    mergeBase: string, releaseSha: string, researchSha: string,
    entries: seq<LedgerEntry>, adjustments: seq<Adjustment>)

  function RecordPath(r: PathRecord): string { r.path }

  function AdjustmentPath(a: Adjustment): string { a.path }

  predicate IsSha(s: string) {
    |s| == 40 && forall i | 0 <= i < |s| :: '0' <= s[i] <= '9' || 'a' <= s[i] <= 'f'
  }

  // ---------- The source manifest ----------

  ghost predicate IsLeast(x: string, s: set<string>) {
    x in s && forall y | y in s :: TextLe(x, y)
  }

  lemma {:induction false} LeastExists(s: set<string>)
    requires s != {}
    ensures exists x :: IsLeast(x, s)
    decreases |s|
  {
    var a :| a in s;
    var rest := s - {a};
    TextLeTotalOrder(a, a, a);
    if rest == {} {
      forall y | y in s
        ensures y == a
      {
        assert y !in rest;
      }
      assert IsLeast(a, s);
    } else {
      LeastExists(rest);
      var x :| IsLeast(x, rest);
      TextLeTotalOrder(a, x, a);
      var least := if TextLe(a, x) then a else x;
      forall y | y in s
        ensures TextLe(least, y)
      {
        assert y == a || y in rest;
        TextLeTotalOrder(a, x, y);
      }
      assert IsLeast(least, s);
    }
  }

  /** `sorted(s)` of a set. */
  ghost function SortedSet(s: set<string>): (r: seq<string>)
    ensures forall x :: x in r <==> x in s
    ensures Distinct(r) && IsSorted(r, TextLe)
    decreases |s|
  {
    if s == {} then []
    else
      LeastExists(s);
      var x :| IsLeast(x, s);
      [x] + SortedSet(s - {x})
  }

  function RecordOf(repo: Repo, base: string, release: string, research: string): string -> PathRecord {
    path => PathRecord(path, repo.blob(base, path), repo.blob(release, path), repo.blob(research, path))
  }

  /** `build_source_manifest`. */
  ghost function BuildSourceManifest(repo: Repo, release: string, research: string): SourceManifest {
    var base := repo.mergeBase(release, research);
    var ours, theirs := repo.changed(base, release), repo.changed(base, research);
    var record := RecordOf(repo, base, release, research);
    SourceManifest(base, release, research,
                   Map(record, SortedSet(ours - theirs)),
                   Map(record, SortedSet(theirs - ours)),
                   Map(record, SortedSet(ours * theirs)))
  }

  function PathSet(records: seq<PathRecord>): set<string> {
    set r | r in records :: r.path
  }

  /** Each path has one record, in one of the three lists. */
  ghost predicate Partitioned(m: SourceManifest) {
    && Distinct(Map(RecordPath, m.releaseOnly)) && Distinct(Map(RecordPath, m.researchOnly))
    && Distinct(Map(RecordPath, m.shared))
    && PathSet(m.releaseOnly) !! PathSet(m.researchOnly)
    && PathSet(m.releaseOnly) + PathSet(m.researchOnly) !! PathSet(m.shared)
  }

  lemma RecordsOfPaths(repo: Repo, base: string, release: string, research: string, paths: set<string>)
    ensures var records := Map(RecordOf(repo, base, release, research), SortedSet(paths));
            && Distinct(Map(RecordPath, records)) && PathSet(records) == paths
            && IsSorted(Map(RecordPath, records), TextLe)
            && forall r | r in records :: r == RecordOf(repo, base, release, research)(r.path)
  {
    var record := RecordOf(repo, base, release, research);
    var sorted := SortedSet(paths);
    var records := Map(record, sorted);
    assert Map(RecordPath, records) == sorted;
    forall path | path in paths
      ensures path in PathSet(records)
    {
      var i :| 0 <= i < |sorted| && sorted[i] == path;
      assert records[i] in records && records[i].path == path;
    }
  }

  /** The three lists partition the paths changed on either side, and record the blobs of all three commits. */
  lemma ManifestPartitions(repo: Repo, release: string, research: string)
    ensures var m := BuildSourceManifest(repo, release, research);
            var ours, theirs := repo.changed(m.mergeBase, release), repo.changed(m.mergeBase, research);
            && Partitioned(m)
            && PathSet(m.releaseOnly) == ours - theirs && PathSet(m.researchOnly) == theirs - ours
            && PathSet(m.shared) == ours * theirs
            && (forall r | r in m.releaseOnly + m.researchOnly + m.shared ::
                  && r.baseBlob == repo.blob(m.mergeBase, r.path)
                  && r.releaseBlob == repo.blob(release, r.path) && r.researchBlob == repo.blob(research, r.path))
  {
    var base := repo.mergeBase(release, research);
    var ours, theirs := repo.changed(base, release), repo.changed(base, research);
    RecordsOfPaths(repo, base, release, research, ours - theirs);
    RecordsOfPaths(repo, base, release, research, theirs - ours);
    RecordsOfPaths(repo, base, release, research, ours * theirs);
    var m := BuildSourceManifest(repo, release, research);
    forall r | r in m.releaseOnly + m.researchOnly + m.shared
      ensures r == RecordOf(repo, base, release, research)(r.path)
    {
    }
  }

  // ---------- The ledger ----------

  predicate EntryOk(e: LedgerEntry) {
    && e.complete && e.resolution != Unresolved && e.verified
    && (e.resolution != SemanticUnion ==> e.hasReason)
  }

  type Sources = map<string, (Side, Blob)>

  /** The dictionary after one side's records; a later record of the same path replaces an earlier one. */
  function AddSide(sources: Sources, side: Side, records: seq<PathRecord>): Sources {
    if records == [] then sources
    else
      var r := records[|records| - 1];
      AddSide(sources, side, records[..|records| - 1])[r.path := (side, r.OwnBlob(side))]
  }

  /** `branch_only`: for each path changed on one side, that side and its blob. */
  function BranchOnly(m: SourceManifest): Sources {
    AddSide(AddSide(map[], Release, m.releaseOnly), Research, m.researchOnly)
  }

  predicate AdjustmentOk(sources: Sources, a: Adjustment) {
    && a.path in sources && sources[a.path] == (a.side, a.sourceBlob)
    && a.integratedBlob.Some? && IsSha(a.integratedBlob.value)
    && a.complete && a.hasRationale && a.verified
  }

  function EntryPaths(entries: seq<LedgerEntry>): set<string> {
    set e | e in entries :: e.path
  }

  /** What `_validate_ledger` accepts. */
  predicate LedgerOk(m: SourceManifest, l: Ledger) {
    && l.mergeBase == m.mergeBase && l.releaseSha == m.releaseSha && l.researchSha == m.researchSha
    && EntryPaths(l.entries) == PathSet(m.shared) && |l.entries| == |PathSet(m.shared)|
    && (forall i | 0 <= i < |l.entries| :: EntryOk(l.entries[i]))
    && Distinct(Map(AdjustmentPath, l.adjustments))
    && (forall i | 0 <= i < |l.adjustments| :: AdjustmentOk(BranchOnly(m), l.adjustments[i]))
  }

  method CollectSide(sources: Sources, side: Side, records: seq<PathRecord>) returns (r: Sources)
    ensures r == AddSide(sources, side, records)
  {
    r := sources;
    for i := 0 to |records|
      invariant r == AddSide(sources, side, records[..i])
    {
      assert records[..i + 1][..i] == records[..i] && records[..i + 1][i] == records[i];
      r := r[records[i].path := (side, records[i].OwnBlob(side))];
    }
    assert records[..|records|] == records;
  }

  method ValidateLedger(m: SourceManifest, l: Ledger) returns (ok: bool)
    ensures ok <==> LedgerOk(m, l)
  {
    if l.mergeBase != m.mergeBase || l.releaseSha != m.releaseSha || l.researchSha != m.researchSha {
      return false;
    }
    var expected := PathSet(m.shared);
    if EntryPaths(l.entries) != expected || |l.entries| != |expected| {
      return false;
    }
    for i := 0 to |l.entries|
      invariant forall k | 0 <= k < i :: EntryOk(l.entries[k])
    {
      if !EntryOk(l.entries[i]) {
        return false;
      }
    }
    var sources := CollectSide(map[], Release, m.releaseOnly);
    sources := CollectSide(sources, Research, m.researchOnly);
    if !Distinct(Map(AdjustmentPath, l.adjustments)) {
      return false;
    }
    for i := 0 to |l.adjustments|
      invariant forall k | 0 <= k < i :: AdjustmentOk(sources, l.adjustments[k])
    {
      if !AdjustmentOk(sources, l.adjustments[i]) {
        return false;
      }
    }
    return true;
  }

  // ---------- The merge commit ----------

  type ByPath = map<string, Adjustment>

  function AdjustmentsByPath(adjustments: seq<Adjustment>): ByPath {
    if adjustments == [] then map[]
    else
      var a := adjustments[|adjustments| - 1];
      AdjustmentsByPath(adjustments[..|adjustments| - 1])[a.path := a]
  }

  /** What one branch-only path turns out to be. */
  datatype Finding = Unchanged | Unnecessary | Unaccounted | WrongBlob | Adjusted

  function Judge(actual: Blob, own: Blob, path: string, byPath: ByPath): Finding {
    if actual == own then (if path in byPath then Unnecessary else Unchanged)
    else if path !in byPath then Unaccounted
    else if byPath[path].integratedBlob != actual then WrongBlob
    else Adjusted
  }

  function JudgeRecord(repo: Repo, merge: string, side: Side, byPath: ByPath): PathRecord -> Finding {
    (r: PathRecord) => Judge(repo.blob(merge, r.path), r.OwnBlob(side), r.path, byPath)
  }

  predicate Fine(f: Finding) { f == Unchanged || f == Adjusted }

  function IsAdjusted(judge: PathRecord -> Finding): PathRecord -> bool {
    r => judge(r) == Adjusted
  }

  function AdjustedPaths(records: seq<PathRecord>, judge: PathRecord -> Finding): seq<string> {
    Map(RecordPath, Filter(IsAdjusted(judge), records))
  }

  /** The loop over the records of one side. An unnecessary or wrong adjustment raises at once,
      unaccounted paths are collected. */
  method CheckSide(records: seq<PathRecord>, judge: PathRecord -> Finding)
    returns (raised: bool, mismatches: seq<string>, adjusted: seq<string>)
    ensures (!raised && mismatches == []) <==> forall i | 0 <= i < |records| :: Fine(judge(records[i]))
    ensures !raised ==> adjusted == AdjustedPaths(records, judge)
  {
    mismatches, adjusted := [], [];
    for i := 0 to |records|
      invariant mismatches == [] <==> forall k | 0 <= k < i :: Fine(judge(records[k]))
      invariant adjusted == AdjustedPaths(records[..i], judge)
    {
      assert records[..i + 1][..i] == records[..i] && records[..i + 1][i] == records[i];
      match judge(records[i])
      case Unchanged =>
      case Unaccounted => mismatches := mismatches + [records[i].path];
      case Adjusted =>
        MapAppend(RecordPath, Filter(IsAdjusted(judge), records[..i]), [records[i]]);
        adjusted := adjusted + [records[i].path];
      case _ =>
        assert !Fine(judge(records[i]));
        return true, mismatches, adjusted;
    }
    assert records[..|records|] == records;
    return false, mismatches, adjusted;
  }

  predicate EndsWith(s: string, suffix: string) {
    |suffix| <= |s| && s[|s| - |suffix|..] == suffix
  }

  predicate NoResidue(repo: Repo, merge: string) {
    && !repo.hasMarkers(merge)
    && forall i | 0 <= i < |repo.treePaths(merge)| ::
         !EndsWith(repo.treePaths(merge)[i], ".orig") && !EndsWith(repo.treePaths(merge)[i], ".rej")
  }

  predicate TestsKept(repo: Repo, m: SourceManifest, merge: string) {
    repo.testIds(m.releaseSha) + repo.testIds(m.researchSha) <= repo.testIds(merge)
  }

  datatype Report = Report(
    mergeSha: string, mergeBase: string, releaseOnly: nat, researchOnly: nat, shared: nat,
    adjustedPaths: seq<string>, adjustments: nat, requiredTests: nat, mergedTests: nat)

  /** The report of a passed verification, given the adjusted paths. */
  function ReportOf(repo: Repo, m: SourceManifest, l: Ledger, merge: string, adjusted: seq<string>): Report {
    Report(merge, m.mergeBase, |m.releaseOnly|, |m.researchOnly|, |l.entries|, Sort(adjusted, TextLe), |adjusted|,
           |repo.testIds(m.releaseSha) + repo.testIds(m.researchSha)|, |repo.testIds(merge)|)
  }

  ghost predicate SideFine(repo: Repo, m: SourceManifest, merge: string, side: Side, byPath: ByPath) {
    forall i | 0 <= i < |m.Only(side)| :: Fine(JudgeRecord(repo, merge, side, byPath)(m.Only(side)[i]))
  }

  /** The adjusted paths in the order of the loop. */
  function AllAdjusted(repo: Repo, m: SourceManifest, merge: string, byPath: ByPath): seq<string> {
    AdjustedPaths(m.releaseOnly, JudgeRecord(repo, merge, Release, byPath)) +
    AdjustedPaths(m.researchOnly, JudgeRecord(repo, merge, Research, byPath))
  }

  /** `verify_integration`. */
  method VerifyIntegration(repo: Repo, m: SourceManifest, l: Ledger, merge: string) returns (r: Result<Report>)
    ensures var byPath := AdjustmentsByPath(l.adjustments);
            && (r.Ok? <==>
                && LedgerOk(m, l) && repo.parents(merge) == [m.releaseSha, m.researchSha]
                && SideFine(repo, m, merge, Release, byPath) && SideFine(repo, m, merge, Research, byPath)
                && TestsKept(repo, m, merge) && NoResidue(repo, merge))
            && (r.Ok? ==> r.value == ReportOf(repo, m, l, merge, AllAdjusted(repo, m, merge, byPath)))
  {
    var ledgerOk := ValidateLedger(m, l);
    if !ledgerOk || repo.parents(merge) != [m.releaseSha, m.researchSha] {
      return Fail;
    }
    var byPath: ByPath := map[];
    for i := 0 to |l.adjustments|
      invariant byPath == AdjustmentsByPath(l.adjustments[..i])
    {
      assert l.adjustments[..i + 1][..i] == l.adjustments[..i];
      byPath := byPath[l.adjustments[i].path := l.adjustments[i]];
    }
    assert l.adjustments[..|l.adjustments|] == l.adjustments;
    assert m.Only(Release) == m.releaseOnly && m.Only(Research) == m.researchOnly;
    var raised, mismatches, adjusted := CheckSide(m.releaseOnly, JudgeRecord(repo, merge, Release, byPath));
    if raised {
      return Fail;
    }
    var raised', mismatches', adjusted' := CheckSide(m.researchOnly, JudgeRecord(repo, merge, Research, byPath));
    assert mismatches + mismatches' == [] <==> mismatches == [] && mismatches' == [];
    if raised' || mismatches + mismatches' != [] {
      return Fail;
    }
    if !TestsKept(repo, m, merge) || !NoResidue(repo, merge) {
      return Fail;
    }
    r := Ok(ReportOf(repo, m, l, merge, adjusted + adjusted'));
  }

  // ---------- What a passed verification means ----------

  lemma {:induction false} LookedUpByPath(adjustments: seq<Adjustment>, path: string)
    requires Distinct(Map(AdjustmentPath, adjustments))
    ensures var byPath := AdjustmentsByPath(adjustments);
            && (path in byPath <==> exists a | a in adjustments :: a.path == path)
            && (path in byPath ==> byPath[path] in adjustments && byPath[path].path == path)
            && (forall a | a in adjustments && a.path == path :: byPath[path] == a)
  {
    if adjustments != [] {
      var n := |adjustments| - 1;
      var paths := Map(AdjustmentPath, adjustments);
      assert Map(AdjustmentPath, adjustments[..n]) == paths[..n];
      LookedUpByPath(adjustments[..n], path);
      assert adjustments == adjustments[..n] + [adjustments[n]];
      forall a | a in adjustments[..n]
        ensures a.path != adjustments[n].path
      {
        var i :| 0 <= i < n && adjustments[i] == a;
        assert paths[i] != paths[n];
      }
    }
  }

  /** `added` holds what `sources` held, and the side and blob of each record. */
  predicate SideAdded(sources: Sources, side: Side, records: seq<PathRecord>, added: Sources) {
    && added.Keys == sources.Keys + PathSet(records)
    && (forall r | r in records :: added[r.path] == (side, r.OwnBlob(side)))
    && (forall p | p in sources && p !in PathSet(records) :: added[p] == sources[p])
  }

  lemma AddedOne(sources: Sources, side: Side, records: seq<PathRecord>, r: PathRecord, added: Sources)
    requires SideAdded(sources, side, records, added) && forall q | q in records :: q.path != r.path
    ensures SideAdded(sources, side, records + [r], added[r.path := (side, r.OwnBlob(side))])
  {
    assert PathSet(records + [r]) == PathSet(records) + {r.path};
  }

  lemma {:induction false} AddedSide(sources: Sources, side: Side, records: seq<PathRecord>)
    requires Distinct(Map(RecordPath, records))
    ensures SideAdded(sources, side, records, AddSide(sources, side, records))
  {
    if records != [] {
      var n := |records| - 1;
      var paths := Map(RecordPath, records);
      assert Map(RecordPath, records[..n]) == paths[..n];
      AddedSide(sources, side, records[..n]);
      assert records == records[..n] + [records[n]];
      forall r | r in records[..n]
        ensures r.path != records[n].path
      {
        var i :| 0 <= i < n && records[i] == r;
        assert paths[i] != paths[n];
      }
      AddedOne(sources, side, records[..n], records[n], AddSide(sources, side, records[..n]));
    }
  }

  /** Under a partition every branch-only path has exactly its own side and blob. */
  lemma BranchOnlyMeaning(m: SourceManifest)
    requires Partitioned(m)
    ensures BranchOnly(m).Keys == PathSet(m.releaseOnly) + PathSet(m.researchOnly)
    ensures forall r | r in m.releaseOnly :: BranchOnly(m)[r.path] == (Release, r.releaseBlob)
    ensures forall r | r in m.researchOnly :: BranchOnly(m)[r.path] == (Research, r.researchBlob)
  {
    AddedSide(map[], Release, m.releaseOnly);
    AddedSide(AddSide(map[], Release, m.releaseOnly), Research, m.researchOnly);
    forall r | r in m.releaseOnly
      ensures r.path !in PathSet(m.researchOnly)
    {
      assert r.path in PathSet(m.releaseOnly);
    }
  }

  lemma OnlyRecord(m: SourceManifest, side: Side, i: nat)
    requires Partitioned(m) && i < |m.Only(side)|
    ensures var r := m.Only(side)[i];
            r.path in BranchOnly(m) && BranchOnly(m)[r.path] == (side, r.OwnBlob(side))
  {
    var r := m.Only(side)[i];
    assert r in m.Only(side);
    BranchOnlyMeaning(m);
  }

  /** An adjustment that accounts for `path` having `actual` in the merge instead of its own side's blob. */
  ghost predicate Accounts(a: Adjustment, side: Side, path: string, own: Blob, actual: Blob) {
    && a.path == path && a.side == side && a.sourceBlob == own && a.integratedBlob == actual
    && a.complete && a.hasRationale && a.verified
  }

  /** The branch-only path has its own side's blob and no adjustment, or another blob and one adjustment for it. */
  ghost predicate Accounted(repo: Repo, merge: string, l: Ledger, side: Side, r: PathRecord) {
    var actual, own := repo.blob(merge, r.path), r.OwnBlob(side);
    if actual == own then forall a | a in l.adjustments :: a.path != r.path
    else exists a | a in l.adjustments :: Accounts(a, side, r.path, own, actual)
  }

  lemma AdjustmentAccounts(m: SourceManifest, l: Ledger, side: Side, r: PathRecord, a: Adjustment)
    requires LedgerOk(m, l) && a in l.adjustments && a.path == r.path
    requires r.path in BranchOnly(m) && BranchOnly(m)[r.path] == (side, r.OwnBlob(side))
    ensures Accounts(a, side, r.path, r.OwnBlob(side), a.integratedBlob)
  {
    var k :| 0 <= k < |l.adjustments| && l.adjustments[k] == a;
    assert AdjustmentOk(BranchOnly(m), l.adjustments[k]);
  }

  lemma FineMeansAccounted(repo: Repo, m: SourceManifest, l: Ledger, merge: string, side: Side, i: nat)
    requires Partitioned(m) && LedgerOk(m, l) && i < |m.Only(side)|
    ensures Fine(JudgeRecord(repo, merge, side, AdjustmentsByPath(l.adjustments))(m.Only(side)[i])) <==>
            Accounted(repo, merge, l, side, m.Only(side)[i])
  {
    var r := m.Only(side)[i];
    OnlyRecord(m, side, i);
    LookedUpByPath(l.adjustments, r.path);
    forall a | a in l.adjustments && a.path == r.path
      ensures Accounts(a, side, r.path, r.OwnBlob(side), a.integratedBlob)
    {
      AdjustmentAccounts(m, l, side, r, a);
    }
  }

  lemma AdjustedPathsAre(records: seq<PathRecord>, judge: PathRecord -> Finding)
    requires Distinct(Map(RecordPath, records))
    ensures Distinct(AdjustedPaths(records, judge))
    ensures forall p :: p in AdjustedPaths(records, judge) <==>
              exists r | r in records :: r.path == p && judge(r) == Adjusted
  {
    var kept := Filter(IsAdjusted(judge), records);
    DistinctByPath(records);
    FilterMembers(IsAdjusted(judge), records);
    var paths := Map(RecordPath, kept);
    forall i, j | 0 <= i < j < |paths|
      ensures paths[i] != paths[j]
    {
      assert kept[i] != kept[j] && kept[i] in kept && kept[j] in kept;
      SamePathSameRecord(records, kept[i], kept[j]);
    }
    forall p
      ensures p in paths <==> exists r | r in records :: r.path == p && judge(r) == Adjusted
    {
      if r :| r in records && r.path == p && judge(r) == Adjusted {
        assert r in kept;
        var i :| 0 <= i < |kept| && kept[i] == r;
        assert paths[i] == p;
      }
      if p in paths {
        var i :| 0 <= i < |paths| && paths[i] == p;
        assert kept[i] in kept;
      }
    }
  }

  lemma SamePathSameRecord(records: seq<PathRecord>, r: PathRecord, s: PathRecord)
    requires Distinct(Map(RecordPath, records)) && r in records && s in records
    ensures r.path == s.path ==> r == s
  {
    var i :| 0 <= i < |records| && records[i] == r;
    var j :| 0 <= j < |records| && records[j] == s;
    var paths := Map(RecordPath, records);
    if i < j {
      assert paths[i] != paths[j];
    } else if j < i {
      assert paths[j] != paths[i];
    }
  }

  lemma DistinctByPath(records: seq<PathRecord>)
    requires Distinct(Map(RecordPath, records))
    ensures Distinct(records)
  {
    forall i, j | 0 <= i < j < |records|
      ensures records[i] != records[j]
    {
      assert Map(RecordPath, records)[i] != Map(RecordPath, records)[j];
    }
  }

  /** The adjusted paths are exactly the paths of the ledger's adjustments, once each. */
  lemma AdjustedAreTheAdjustments(repo: Repo, m: SourceManifest, l: Ledger, merge: string)
    requires Partitioned(m) && LedgerOk(m, l)
    requires var byPath := AdjustmentsByPath(l.adjustments);
             SideFine(repo, m, merge, Release, byPath) && SideFine(repo, m, merge, Research, byPath)
    ensures var adjusted := AllAdjusted(repo, m, merge, AdjustmentsByPath(l.adjustments));
            && multiset(adjusted) == multiset(Map(AdjustmentPath, l.adjustments))
            && |adjusted| == |l.adjustments|
  {
    var byPath := AdjustmentsByPath(l.adjustments);
    var ours, theirs := JudgeRecord(repo, merge, Release, byPath), JudgeRecord(repo, merge, Research, byPath);
    AdjustedPathsAre(m.releaseOnly, ours);
    AdjustedPathsAre(m.researchOnly, theirs);
    var a, b := AdjustedPaths(m.releaseOnly, ours), AdjustedPaths(m.researchOnly, theirs);
    var adjusted := AllAdjusted(repo, m, merge, byPath);
    assert adjusted == a + b;
    var paths := Map(AdjustmentPath, l.adjustments);
    assert forall p | p in a :: p in PathSet(m.releaseOnly);
    assert forall p | p in b :: p in PathSet(m.researchOnly);
    assert Distinct(adjusted) by {
      forall i, j | 0 <= i < j < |adjusted|
        ensures adjusted[i] != adjusted[j]
      {
        if i < |a| <= j {
          assert adjusted[i] in a && adjusted[j] in b;
        }
      }
    }
    forall p
      ensures p in adjusted <==> p in paths
    {
      AdjustedIffListed(repo, m, l, merge, p);
    }
    DistinctSameElements(adjusted, paths);
    assert |adjusted| == |multiset(adjusted)| && |paths| == |multiset(paths)|;
  }

  /** A branch-only path with an adjustment is adjusted once everything is fine. */
  lemma AdjustedOnSide(repo: Repo, m: SourceManifest, merge: string, side: Side, byPath: ByPath, p: string)
    requires SideFine(repo, m, merge, side, byPath) && p in PathSet(m.Only(side)) && p in byPath
    ensures exists r | r in m.Only(side) :: r.path == p && JudgeRecord(repo, merge, side, byPath)(r) == Adjusted
  {
    var r :| r in m.Only(side) && r.path == p;
    var i :| 0 <= i < |m.Only(side)| && m.Only(side)[i] == r;
    assert Fine(JudgeRecord(repo, merge, side, byPath)(m.Only(side)[i]));
    assert JudgeRecord(repo, merge, side, byPath)(r) == Judge(repo.blob(merge, p), r.OwnBlob(side), p, byPath);
  }

  lemma ListedIsLookedUp(adjustments: seq<Adjustment>, p: string)
    requires Distinct(Map(AdjustmentPath, adjustments))
    ensures p in Map(AdjustmentPath, adjustments) <==> p in AdjustmentsByPath(adjustments)
  {
    LookedUpByPath(adjustments, p);
    var paths := Map(AdjustmentPath, adjustments);
    if p in paths {
      var k :| 0 <= k < |paths| && paths[k] == p;
      assert adjustments[k] in adjustments;
    }
    if a :| a in adjustments && a.path == p {
      var k :| 0 <= k < |adjustments| && adjustments[k] == a;
      assert paths[k] == p;
    }
  }

  /** Every adjustment of an accepted ledger is for a branch-only path. */
  lemma ListedIsBranchOnly(m: SourceManifest, l: Ledger, p: string)
    requires Partitioned(m) && LedgerOk(m, l) && p in AdjustmentsByPath(l.adjustments)
    ensures p in PathSet(m.releaseOnly) || p in PathSet(m.researchOnly)
  {
    LookedUpByPath(l.adjustments, p);
    BranchOnlyMeaning(m);
    var a := AdjustmentsByPath(l.adjustments)[p];
    var k :| 0 <= k < |l.adjustments| && l.adjustments[k] == a;
    assert AdjustmentOk(BranchOnly(m), l.adjustments[k]);
  }

  lemma AdjustedIffListed(repo: Repo, m: SourceManifest, l: Ledger, merge: string, p: string)
    requires Partitioned(m) && LedgerOk(m, l)
    requires var byPath := AdjustmentsByPath(l.adjustments);
             SideFine(repo, m, merge, Release, byPath) && SideFine(repo, m, merge, Research, byPath)
    ensures p in AllAdjusted(repo, m, merge, AdjustmentsByPath(l.adjustments)) <==>
              p in Map(AdjustmentPath, l.adjustments)
  {
    var byPath := AdjustmentsByPath(l.adjustments);
    AdjustedPathsAre(m.releaseOnly, JudgeRecord(repo, merge, Release, byPath));
    AdjustedPathsAre(m.researchOnly, JudgeRecord(repo, merge, Research, byPath));
    ListedIsLookedUp(l.adjustments, p);
    if p in byPath {
      ListedIsBranchOnly(m, l, p);
      if p in PathSet(m.releaseOnly) {
        AdjustedOnSide(repo, m, merge, Release, byPath, p);
      } else {
        AdjustedOnSide(repo, m, merge, Research, byPath, p);
      }
    } else {
      forall side: Side, r: PathRecord | r.path == p
        ensures JudgeRecord(repo, merge, side, byPath)(r) != Adjusted
      {
        assert JudgeRecord(repo, merge, side, byPath)(r) == Judge(repo.blob(merge, p), r.OwnBlob(side), p, byPath);
      }
    }
  }

  /** Verification passes exactly when every branch-only path is accounted for; the report then lists
      each adjustment of the ledger once. */
  lemma VerificationIsExact(repo: Repo, m: SourceManifest, l: Ledger, merge: string)
    requires Partitioned(m) && LedgerOk(m, l)
    ensures var byPath := AdjustmentsByPath(l.adjustments);
            var fine := SideFine(repo, m, merge, Release, byPath) && SideFine(repo, m, merge, Research, byPath);
            var adjusted := AllAdjusted(repo, m, merge, byPath);
            && (fine <==> AllAccounted(repo, m, l, merge, Release) && AllAccounted(repo, m, l, merge, Research))
            && (fine ==> Sort(adjusted, TextLe) == Sort(Map(AdjustmentPath, l.adjustments), TextLe)
                         && |adjusted| == |l.adjustments|)
  {
    var byPath := AdjustmentsByPath(l.adjustments);
    SideIsExact(repo, m, l, merge, Release);
    SideIsExact(repo, m, l, merge, Research);
    if SideFine(repo, m, merge, Release, byPath) && SideFine(repo, m, merge, Research, byPath) {
      AdjustedAreTheAdjustments(repo, m, l, merge);
      TextLeIsTotalOrder();
      SortOfPermutation(AllAdjusted(repo, m, merge, byPath), Map(AdjustmentPath, l.adjustments), TextLe);
    }
  }

  ghost predicate AllAccounted(repo: Repo, m: SourceManifest, l: Ledger, merge: string, side: Side) {
    forall i | 0 <= i < |m.Only(side)| :: Accounted(repo, merge, l, side, m.Only(side)[i])
  }

  lemma SideIsExact(repo: Repo, m: SourceManifest, l: Ledger, merge: string, side: Side)
    requires Partitioned(m) && LedgerOk(m, l)
    ensures SideFine(repo, m, merge, side, AdjustmentsByPath(l.adjustments)) <==> AllAccounted(repo, m, l, merge, side)
  {
    forall i | 0 <= i < |m.Only(side)|
      ensures Fine(JudgeRecord(repo, merge, side, AdjustmentsByPath(l.adjustments))(m.Only(side)[i])) <==>
              Accounted(repo, merge, l, side, m.Only(side)[i])
    {
      FineMeansAccounted(repo, m, l, merge, side, i);
    }
  }

  // ---------- From the repository to the verdict ----------

  /** A path that only `own` has changed has its blob of that side in the merge and no adjustment, or another blob and
      an adjustment that names both. */
  ghost predicate PathKept(repo: Repo, l: Ledger, merge: string, side: Side, own: string, path: string) {
    var actual, theirs := repo.blob(merge, path), repo.blob(own, path);
    if actual == theirs then forall a | a in l.adjustments :: a.path != path
    else exists a | a in l.adjustments :: Accounts(a, side, path, theirs, actual)
  }

  ghost predicate AllKept(repo: Repo, l: Ledger, merge: string, side: Side, own: string, paths: set<string>) {
    forall path | path in paths :: PathKept(repo, l, merge, side, own, path)
  }

  /** Every path that one branch alone has changed since the merge base is kept or adjusted. */
  ghost predicate BranchesKept(repo: Repo, l: Ledger, merge: string, release: string, research: string) {
    var base := repo.mergeBase(release, research);
    var ours, theirs := repo.changed(base, release), repo.changed(base, research);
    && AllKept(repo, l, merge, Release, release, ours - theirs)
    && AllKept(repo, l, merge, Research, research, theirs - ours)
  }

  lemma AccountedMeansKept(repo: Repo, records: seq<PathRecord>, l: Ledger, merge: string, side: Side, own: string)
    requires forall r | r in records :: r.OwnBlob(side) == repo.blob(own, r.path)
    ensures (forall i | 0 <= i < |records| :: Accounted(repo, merge, l, side, records[i])) <==>
            AllKept(repo, l, merge, side, own, PathSet(records))
  {
    forall r | r in records
      ensures Accounted(repo, merge, l, side, r) <==> PathKept(repo, l, merge, side, own, r.path)
    {
    }
    if i :| 0 <= i < |records| && !Accounted(repo, merge, l, side, records[i]) {
      assert records[i].path in PathSet(records);
    } else {
      forall path | path in PathSet(records)
        ensures PathKept(repo, l, merge, side, own, path)
      {
        var r :| r in records && r.path == path;
        var i :| 0 <= i < |records| && records[i] == r;
        assert Accounted(repo, merge, l, side, records[i]);
      }
    }
  }

  /** Both sides are fine exactly when every path that one branch alone has changed is kept or adjusted. */
  lemma FineInGit(repo: Repo, release: string, research: string, m: SourceManifest, l: Ledger, merge: string)
    requires m == BuildSourceManifest(repo, release, research) && LedgerOk(m, l)
    ensures var byPath := AdjustmentsByPath(l.adjustments);
            var fine := SideFine(repo, m, merge, Release, byPath) && SideFine(repo, m, merge, Research, byPath);
            var adjusted := AllAdjusted(repo, m, merge, byPath);
            && (fine <==> BranchesKept(repo, l, merge, release, research))
            && (fine ==> Sort(adjusted, TextLe) == Sort(Map(AdjustmentPath, l.adjustments), TextLe)
                         && |adjusted| == |l.adjustments|)
  {
    ManifestPartitions(repo, release, research);
    VerificationIsExact(repo, m, l, merge);
    forall r | r in m.releaseOnly + m.researchOnly
      ensures r.releaseBlob == repo.blob(release, r.path) && r.researchBlob == repo.blob(research, r.path)
    {
      assert r in m.releaseOnly + m.researchOnly + m.shared;
    }
    SidesInGit(repo, release, research, m, l, merge);
  }

  lemma SidesInGit(repo: Repo, release: string, research: string, m: SourceManifest, l: Ledger, merge: string)
    requires forall r | r in m.releaseOnly + m.researchOnly ::
               r.releaseBlob == repo.blob(release, r.path) && r.researchBlob == repo.blob(research, r.path)
    ensures AllAccounted(repo, m, l, merge, Release) <==>
            AllKept(repo, l, merge, Release, release, PathSet(m.releaseOnly))
    ensures AllAccounted(repo, m, l, merge, Research) <==>
            AllKept(repo, l, merge, Research, research, PathSet(m.researchOnly))
  {
    assert forall r | r in m.releaseOnly :: r in m.releaseOnly + m.researchOnly;
    assert forall r | r in m.researchOnly :: r in m.releaseOnly + m.researchOnly;
    AccountedMeansKept(repo, m.releaseOnly, l, merge, Release, release);
    AccountedMeansKept(repo, m.researchOnly, l, merge, Research, research);
    assert m.Only(Release) == m.releaseOnly && m.Only(Research) == m.researchOnly;
  }

  /** Verification against the manifest of the two branches: the merge passes exactly when the ledger is complete, the
      merge has these two parents, every path that one branch alone has changed is kept or has its adjustment, no test
      is lost and no residue is left; the report then lists the adjustments of the ledger. */
  method VerifyMerge(repo: Repo, release: string, research: string, m: SourceManifest, l: Ledger, merge: string)
    returns (r: Result<Report>)
    requires m == BuildSourceManifest(repo, release, research)
    ensures r.Ok? <==>
            && LedgerOk(m, l) && repo.parents(merge) == [release, research]
            && BranchesKept(repo, l, merge, release, research)
            && repo.testIds(release) + repo.testIds(research) <= repo.testIds(merge) && NoResidue(repo, merge)
    ensures r.Ok? ==>
              var base := repo.mergeBase(release, research);
              var ours, theirs := repo.changed(base, release), repo.changed(base, research);
              && EntryPaths(l.entries) == ours * theirs
              && r.value == Report(merge, base, |ours - theirs|, |theirs - ours|, |ours * theirs|,
                                   Sort(Map(AdjustmentPath, l.adjustments), TextLe), |l.adjustments|,
                                   |repo.testIds(release) + repo.testIds(research)|, |repo.testIds(merge)|)
  {
    SharedInGit(repo, release, research, m);
    r := VerifyIntegration(repo, m, l, merge);
    if LedgerOk(m, l) {
      FineInGit(repo, release, research, m, l, merge);
    }
  }

  lemma SharedInGit(repo: Repo, release: string, research: string, m: SourceManifest)
    requires m == BuildSourceManifest(repo, release, research)
    ensures m.mergeBase == repo.mergeBase(release, research) && m.releaseSha == release && m.researchSha == research
    ensures var ours, theirs := repo.changed(m.mergeBase, release), repo.changed(m.mergeBase, research);
            && PathSet(m.shared) == ours * theirs
            && |m.releaseOnly| == |ours - theirs| && |m.researchOnly| == |theirs - ours|
  {
    var ours, theirs := repo.changed(m.mergeBase, release), repo.changed(m.mergeBase, research);
    RecordsOfPaths(repo, m.mergeBase, release, research, ours * theirs);
    SortedSetCounts(ours - theirs);
    SortedSetCounts(theirs - ours);
  }

  lemma {:induction false} SortedSetCounts(s: set<string>)
    ensures |SortedSet(s)| == |s|
    decreases |s|
  {
    if s != {} {
      var x := SortedSet(s)[0];
      LeastExists(s);
      SortedSetCounts(s - {x});
    }
  }

  // ---------- The initial ledger ----------

  function InitialEntry(r: PathRecord): LedgerEntry {
    LedgerEntry(r.path, false, Unresolved, false, false)
  }

  /** `build_initial_ledger`: every shared path, unresolved. */
  function InitialLedger(m: SourceManifest): Ledger {
    Ledger(m.mergeBase, m.releaseSha, m.researchSha, Map(InitialEntry, m.shared), [])
  }

  /** An untouched initial ledger is accepted exactly when there was nothing to resolve. */
  lemma InitialLedgerIsUnresolved(m: SourceManifest)
    ensures LedgerOk(m, InitialLedger(m)) <==> m.shared == []
  {
    var l := InitialLedger(m);
    if m.shared != [] {
      assert !EntryOk(l.entries[0]);
    } else {
      assert EntryPaths(l.entries) == {} && PathSet(m.shared) == {};
    }
  }
}
