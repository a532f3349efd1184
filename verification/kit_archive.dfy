/** The kit archive: validating the listed members, and extracting them in the listed order. */
module KitArchive {
  import opened Wrappers
  import opened Text
  import opened Sorting
  import opened Utf8
  import opened Paths

  const MAX_ARCHIVE_BYTES: nat := 2 * 1024 * 1024 * 1024
  const MAX_ARCHIVE_MEMBERS: nat := 50_000
  const MUTABLE_ROOTS: set<string> := {"results"}

  datatype Kind = DirectoryKind | RegularKind | OtherKind

  /** A listed member, with the bytes that reading it yields. */
  datatype ZipMember = ZipMember(name: string, encrypted: bool, kind: Kind, fileSize: nat, content: seq<Byte>)

  function NameOf(m: ZipMember): string { m.name }

  function FoldedNameOf(m: ZipMember): string { CaseFold(m.name) }

  predicate EndsWithSlash(s: string) {
    s != [] && s[|s| - 1] == '/'
  }

  predicate IsDirectoryName(m: ZipMember) {
    EndsWithSlash(m.name)
  }

  /** `removesuffix("/")`. */
  function WithoutSlash(s: string): string {
    if EndsWithSlash(s) then s[..|s| - 1] else s
  }

  predicate IsHex(c: char) { '0' <= c <= '9' || 'a' <= c <= 'f' }

  const ROOT_PREFIX := "modori-live-research-os-office-kit-"
  const ROOT_SUFFIX := "-py31210"

  predicate IsKitRoot(s: string) {
    && |s| == |ROOT_PREFIX| + 12 + |ROOT_SUFFIX|
    && s[..|ROOT_PREFIX|] == ROOT_PREFIX && s[|s| - |ROOT_SUFFIX|..] == ROOT_SUFFIX
    && forall i | |ROOT_PREFIX| <= i < |ROOT_PREFIX| + 12 :: IsHex(s[i])
  }

  /** The member's text below the root directory `root`. */
  function Relative(root: string, m: ZipMember): string {
    if root + "/" <= m.name then WithoutSlash(m.name[|root| + 1..]) else ""
  }

  /** Where the member goes, below the place of the archive's root. */
  function Target(root: string, m: ZipMember): Path {
    Parts(Relative(root, m))
  }

  function Top(relative: string): string {
    Split(relative, '/')[0]
  }

  // ---------- Validation ----------

  /** Every proper ancestor of a listed file, as text. */
  function Required(files: set<string>): set<string> {
    set f, k | f in files && 1 <= k < |Parts(f)| :: Join(Parts(f)[..k], '/')
  }

  /** `_required_directories`, but for the final sorting. */
  method RequiredDirectories(files: set<string>) returns (directories: set<string>)
    ensures directories == Required(files)
  {
    directories := {};
    var left := files;
    while left != {}
      invariant left <= files && directories == Required(files - left)
      decreases left
    {
      var f :| f in left;
      var parts := Parts(f);
      var before := directories;
      var k := 1;
      while k < |parts|
        invariant 1 <= k && (k <= |parts| || k == 1)
        invariant directories == before + set i | 1 <= i < k && i < |parts| :: Join(parts[..i], '/')
      {
        directories := directories + {Join(parts[..k], '/')};
        k := k + 1;
      }
      assert files - (left - {f}) == (files - left) + {f};
      left := left - {f};
    }
    assert files - left == files;
  }

  /** The tests on one member below the root. */
  predicate MemberOk(root: string, m: ZipMember, clean: string -> bool) {
    var relative := Relative(root, m);
    && root + "/" <= m.name && Avoids(m.name, '\\') && Avoids(m.name, '\0') && !m.encrypted
    && IsPortablePath(relative)
    && if IsDirectoryName(m)
       then m.kind == DirectoryKind && m.fileSize == 0 && (relative in MUTABLE_ROOTS || Top(relative) !in MUTABLE_ROOTS)
       else m.kind == RegularKind && Top(relative) !in MUTABLE_ROOTS && clean(relative)
  }

  function MemberTest(root: string, clean: string -> bool): ZipMember -> bool {
    m => MemberOk(root, m, clean)
  }

  function DirectoriesOf(root: string, below: seq<ZipMember>): set<string> {
    set m | m in below && IsDirectoryName(m) :: Relative(root, m)
  }

  function FilesOf(root: string, below: seq<ZipMember>): set<string> {
    set m | m in below && !IsDirectoryName(m) :: Relative(root, m)
  }

  function TotalSize(below: seq<ZipMember>): nat {
    if below == [] then 0 else TotalSize(below[..|below| - 1]) + below[|below| - 1].fileSize
  }

  /** The tests on the list of names as a whole. */
  predicate NamesOk(members: seq<ZipMember>) {
    && 0 < |members| <= MAX_ARCHIVE_MEMBERS
    && Map(NameOf, members) == Sort(Map(NameOf, members), TextLe)
    && Distinct(Map(NameOf, members)) && Distinct(Map(FoldedNameOf, members))
  }

  /** The first member is the one explicit root directory. */
  predicate RootOk(first: ZipMember, root: string) {
    && first.name == root + "/" && IsKitRoot(root)
    && !first.encrypted && first.kind == DirectoryKind
  }

  /** An archive in which every directory is listed exactly when it is needed, and nothing else. */
  predicate Acceptable(members: seq<ZipMember>, root: string, clean: string -> bool) {
    && NamesOk(members) && RootOk(members[0], root)
    && MembersOk(root, members[1..], MemberTest(root, clean))
  }

  /** The tests on the members below the root. */
  predicate MembersOk(root: string, below: seq<ZipMember>, test: ZipMember -> bool) {
    && (forall i | 0 <= i < |below| :: test(below[i]))
    && TotalSize(below) <= MAX_ARCHIVE_BYTES
    && DirectoriesOf(root, below) == Required(FilesOf(root, below)) + MUTABLE_ROOTS
  }

  lemma {:induction false} TotalGrows(members: seq<ZipMember>, n: nat)
    requires n <= |members|
    ensures TotalSize(members[..n]) <= TotalSize(members)
    decreases |members|
  {
    if n < |members| {
      var front := members[..|members| - 1];
      TotalGrows(front, n);
      assert front[..n] == members[..n];
    } else {
      assert members[..n] == members;
    }
  }

  lemma KitRootIsName(root: string)
    requires IsKitRoot(root)
    ensures IsName(root) && Avoids(root, '\\') && Avoids(root, '\0')
  {
    forall i | 0 <= i < |root|
      ensures root[i] != '/' && root[i] != '\\' && root[i] != '\0'
    {
      if i < |ROOT_PREFIX| {
        assert root[i] == ROOT_PREFIX[i];
      } else if i >= |root| - |ROOT_SUFFIX| {
        assert root[i] == ROOT_SUFFIX[i - (|root| - |ROOT_SUFFIX|)];
      }
    }
  }

  /** The sets and the total after the members below the root so far. */
  ghost predicate Tallied(root: string, below: seq<ZipMember>, directories: set<string>, files: set<string>,
                          mutable: set<string>, total: nat) {
    && directories == DirectoriesOf(root, below) && files == FilesOf(root, below)
    && mutable == directories * MUTABLE_ROOTS && total == TotalSize(below)
  }

  lemma TallyOne(root: string, below: seq<ZipMember>, m: ZipMember)
    ensures TotalSize(below + [m]) == TotalSize(below) + m.fileSize
    ensures DirectoriesOf(root, below + [m]) ==
            DirectoriesOf(root, below) + (if IsDirectoryName(m) then {Relative(root, m)} else {})
    ensures FilesOf(root, below + [m]) ==
            FilesOf(root, below) + (if IsDirectoryName(m) then {} else {Relative(root, m)})
  {
    assert (below + [m])[..|below|] == below;
    assert forall x :: x in below + [m] <==> x in below || x == m;
  }

  /** The loop of `_validate_zip_inventory` over the members below the root, and the tests after it. */
  method CheckMembers(root: string, below: seq<ZipMember>, test: ZipMember -> bool) returns (ok: bool)
    ensures ok <==> MembersOk(root, below, test)
  {
    var directories: set<string>, files: set<string>, mutable: set<string>, total: nat := {}, {}, {}, 0;
    for i := 0 to |below|
      invariant Tallied(root, below[..i], directories, files, mutable, total)
      invariant total <= MAX_ARCHIVE_BYTES && forall k | 0 <= k < i :: test(below[k])
    {
      var m := below[i];
      if !test(m) {
        return false;
      }
      assert below[..i + 1] == below[..i] + [m];
      TotalGrows(below, i + 1);
      directories, files, mutable, total := Tally(root, below[..i], m, directories, files, mutable, total);
      if total > MAX_ARCHIVE_BYTES {
        return false;
      }
    }
    assert below[..|below|] == below;
    var expected := RequiredDirectories(files);
    ok := mutable == MUTABLE_ROOTS && directories == expected + MUTABLE_ROOTS;
  }

  /** The bookkeeping of one turn. */
  method Tally(root: string, ghost below: seq<ZipMember>, m: ZipMember, directories: set<string>, files: set<string>,
               mutable: set<string>, total: nat)
    returns (directories': set<string>, files': set<string>, mutable': set<string>, total': nat)
    requires Tallied(root, below, directories, files, mutable, total)
    ensures Tallied(root, below + [m], directories', files', mutable', total')
  {
    TallyOne(root, below, m);
    directories', files', mutable', total' := directories, files, mutable, total + m.fileSize;
    var relative := Relative(root, m);
    if IsDirectoryName(m) {
      directories' := directories + {relative};
      if relative in MUTABLE_ROOTS {
        mutable' := mutable + {relative};
      }
    } else {
      files' := files + {relative};
    }
  }

  method CheckRoot(first: ZipMember, root: string) returns (ok: bool)
    requires root == WithoutSlash(first.name)
    ensures ok <==> RootOk(first, root)
  {
    if !EndsWithSlash(first.name) || !IsKitRoot(root) {
      return false;
    }
    KitRootIsName(root);
    assert first.name == root + "/";
    ok := Avoids(root, '/') && !first.encrypted && first.kind == DirectoryKind;
  }

  /** `_validate_zip_inventory`; `intact` is the outcome of the CRC test. */
  method ValidateZipInventory(members: seq<ZipMember>, clean: string -> bool, intact: bool) returns (r: Result<string>)
    ensures r.Ok? <==> members != [] && intact && Acceptable(members, WithoutSlash(members[0].name), clean)
    ensures r.Ok? ==> r.value == WithoutSlash(members[0].name)
  {
    if members == [] || |members| > MAX_ARCHIVE_MEMBERS {
      return Fail;
    }
    var names := Map(NameOf, members);
    if names != Sort(names, TextLe) || !Distinct(names) || !Distinct(Map(FoldedNameOf, members)) {
      return Fail;
    }
    var root := WithoutSlash(members[0].name);
    var rootOk := CheckRoot(members[0], root);
    if !rootOk {
      return Fail;
    }
    var ok := CheckMembers(root, members[1..], MemberTest(root, clean));
    if !ok || !intact {
      return Fail;
    }
    return Ok(root);
  }
}
