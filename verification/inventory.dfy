/** Tree inventories: what a tree holds, in the order of the path text. */
module Inventories {
  import opened Wrappers
  import opened Text
  import opened Sorting
  import opened Utf8
  import opened Paths
  import opened Sequences
  import opened FileSystems
  import opened TreeWalks

  datatype TreeFile = TreeFile(relativePath: string, sizeBytes: nat, sha256: string)

  /** Directories and files, each in the order of the path text. */
  datatype Inventory = Inventory(directories: seq<string>, files: seq<TreeFile>)

  /** SHA-256, of which nothing is used but that it is a function. */
  type Hash = seq<Byte> -> string

  function RelativeTo(root: Path): Path -> Path {
    p => if |root| <= |p| then p[|root|..] else []
  }

  ghost predicate ArePaths(ps: seq<Path>) {
    forall i | 0 <= i < |ps| :: IsPath(ps[i])
  }

  /** Paths sorted by their text are determined by which paths they are. */
  lemma SortedPathsUnique(a: seq<Path>, b: seq<Path>)
    requires IsSorted(a, PathLe) && IsSorted(b, PathLe) && multiset(a) == multiset(b)
    requires ArePaths(a) && ArePaths(b)
    ensures a == b
  {
    TextLeIsTotalOrder();
    MapPermutes(Posix, a, b);
    SortedUnique(Map(Posix, a), Map(Posix, b), TextLe);
    assert |a| == |Map(Posix, a)| == |b|;
    forall i | 0 <= i < |a|
      ensures a[i] == b[i]
    {
      assert Map(Posix, a)[i] == Map(Posix, b)[i];
      PosixInjective(a[i], b[i]);
    }
  }

  /** The relative paths of a list, in the order of their text. */
  function SortedRelative(root: Path, ps: seq<Path>): seq<Path> {
    Sort(Map(RelativeTo(root), ps), PathLe)
  }

  function FileRecord(t: Tree, root: Path, hash: Hash): Path -> TreeFile {
    q => if root + q in t && t[root + q].File?
         then TreeFile(Posix(q), |t[root + q].content|, hash(t[root + q].content))
         else TreeFile(Posix(q), 0, "")
  }

  /** `inventory_tree` from the two lists a walk has collected. */
  function InventoryOfWalk(t: Tree, root: Path, w: Walked, hash: Hash): Inventory {
    Inventory(Sort(Map(Posix, Map(RelativeTo(root), w.directories)), TextLe),
              Map(FileRecord(t, root, hash), SortedRelative(root, w.files)))
  }

  // ---------- The digest ----------

  function DirectoryLine(d: string): string { "directory\0" + d + "\n" }

  function FileLine(f: TreeFile): string {
    "file\0" + f.relativePath + "\0" + Decimal(f.sizeBytes) + "\0" + f.sha256 + "\n"
  }

  /** What is hashed for the digest of an inventory. */
  function DigestText(i: Inventory): string {
    Flat(DirectoryLine, i.directories) + Flat(FileLine, i.files)
  }

  method InventoryDigest(i: Inventory, hash: Hash) returns (digest: string)
    ensures digest == hash(Encode(DigestText(i)))
  {
    var text := ExtendByBlocks("", i.directories, DirectoryLine);
    text := ExtendByBlocks(text, i.files, FileLine);
    assert "" + Flat(DirectoryLine, i.directories) == Flat(DirectoryLine, i.directories);
    return hash(Encode(text));
  }

  /** `inventory_tree`: the inventory with its digest. */
  method InventoryTree(t: Tree, root: Path, list: Path -> seq<string>, hash: Hash)
    returns (r: Result<Inventory>, digest: string, ghost w: Walked)
    requires WellFormed(t) && Lists(t, list)
    ensures r.Ok? <==> Plain(t, root, {})
    ensures r.Ok? ==> IsWalk(t, root, {}, w) && r.value == InventoryOfWalk(t, root, w, hash)
    ensures r.Ok? ==> digest == hash(Encode(DigestText(r.value)))
  {
    w, digest := Walked([], []), "";
    var walked := Walk(t, root, {}, list);
    if walked.Fail? {
      return Fail, digest, w;
    }
    w := walked.value;
    var directories := Sort(Map(Posix, Map(RelativeTo(root), walked.value.directories)), TextLe);
    var paths := SortedRelative(root, walked.value.files);
    var files: seq<TreeFile> := [];
    for i := 0 to |paths|
      invariant files == Map(FileRecord(t, root, hash), paths)[..i]
    {
      files := files + [FileRecord(t, root, hash)(paths[i])];
    }
    r := Ok(Inventory(directories, files));
    digest := InventoryDigest(r.value, hash);
  }

  // ---------- The inventory depends on the tree alone ----------

  /** The two roots carry the same tree. */
  ghost predicate SameTreeAt(t: Tree, root: Path, u: Tree, root': Path, q: Path) {
    (root + q in t <==> root' + q in u) && (root + q in t ==> t[root + q] == u[root' + q])
  }

  ghost predicate SameTree(t: Tree, root: Path, u: Tree, root': Path) {
    forall q: Path :: SameTreeAt(t, root, u, root', q)
  }

  lemma RelativeMembers(root: Path, ps: seq<Path>)
    requires Distinct(ps) && forall i | 0 <= i < |ps| :: root < ps[i]
    ensures Distinct(Map(RelativeTo(root), ps))
    ensures forall q :: q in Map(RelativeTo(root), ps) <==> root + q in ps && q != []
  {
    var rs := Map(RelativeTo(root), ps);
    forall i | 0 <= i < |ps|
      ensures ps[i] == root + rs[i] && rs[i] != []
    {
    }
    forall i, j | 0 <= i < j < |rs|
      ensures rs[i] != rs[j]
    {
      assert ps[i] != ps[j];
    }
    forall q
      ensures q in rs <==> root + q in ps && q != []
    {
      if q in rs {
        var i :| 0 <= i < |rs| && rs[i] == q;
        assert ps[i] == root + q;
      }
      if root + q in ps {
        var i :| 0 <= i < |ps| && ps[i] == root + q;
        assert rs[i] == q;
      }
    }
  }

  lemma WalkRelative(t: Tree, root: Path, w: Walked)
    requires WellFormed(t) && IsWalk(t, root, {}, w)
    ensures var dirs, files := Map(RelativeTo(root), w.directories), Map(RelativeTo(root), w.files);
            && Distinct(dirs) && Distinct(files) && ArePaths(dirs) && ArePaths(files)
            && (forall q :: q in dirs <==> q != [] && IsDirectory(t, root + q))
            && (forall q :: q in files <==> q != [] && root + q in t && t[root + q].File?)
  {
    forall i | 0 <= i < |w.directories|
      ensures root < w.directories[i]
    {
      assert w.directories[i] in w.directories;
    }
    forall i | 0 <= i < |w.files|
      ensures root < w.files[i]
    {
      assert w.files[i] in w.files;
    }
    RelativeMembers(root, w.directories);
    RelativeMembers(root, w.files);
    var dirs, files := Map(RelativeTo(root), w.directories), Map(RelativeTo(root), w.files);
    forall q
      ensures q in dirs <==> q != [] && IsDirectory(t, root + q)
      ensures q in files <==> q != [] && root + q in t && t[root + q].File?
      ensures q in dirs || q in files ==> IsPath(q)
    {
      if q != [] && root + q in t {
        assert root < root + q;
        assert Attached(t, root + q);
        forall i | 0 <= i < |q|
          ensures IsName(q[i])
        {
          assert (root + q)[|root| + i] == q[i];
        }
      }
    }
    assert forall i | 0 <= i < |dirs| :: dirs[i] in dirs;
    assert forall i | 0 <= i < |files| :: files[i] in files;
  }

  /** Equal trees have equal inventories, however and wherever they were walked. */
  lemma SameTreeSameInventory(t: Tree, root: Path, w: Walked, u: Tree, root': Path, w': Walked, hash: Hash)
    requires WellFormed(t) && WellFormed(u) && SameTree(t, root, u, root')
    requires IsWalk(t, root, {}, w) && IsWalk(u, root', {}, w')
    ensures InventoryOfWalk(t, root, w, hash) == InventoryOfWalk(u, root', w', hash)
  {
    WalkRelative(t, root, w);
    WalkRelative(u, root', w');
    var dirs, files := Map(RelativeTo(root), w.directories), Map(RelativeTo(root), w.files);
    var dirs', files' := Map(RelativeTo(root'), w'.directories), Map(RelativeTo(root'), w'.files);
    forall q
      ensures q in dirs <==> q in dirs'
      ensures q in files <==> q in files'
    {
      assert SameTreeAt(t, root, u, root', q);
    }
    DistinctSameElements(dirs, dirs');
    DistinctSameElements(files, files');
    TextLeIsTotalOrder();
    MapPermutes(Posix, dirs, dirs');
    SortOfPermutation(Map(Posix, dirs), Map(Posix, dirs'), TextLe);
    SortRelativeFacts(files);
    SortRelativeFacts(files');
    SortedPathsUnique(Sort(files, PathLe), Sort(files', PathLe));
    SameRecords(t, root, u, root', Sort(files, PathLe), hash);
  }

  lemma SameRecords(t: Tree, root: Path, u: Tree, root': Path, paths: seq<Path>, hash: Hash)
    requires SameTree(t, root, u, root')
    ensures Map(FileRecord(t, root, hash), paths) == Map(FileRecord(u, root', hash), paths)
  {
    forall i | 0 <= i < |paths|
      ensures FileRecord(t, root, hash)(paths[i]) == FileRecord(u, root', hash)(paths[i])
    {
      assert SameTreeAt(t, root, u, root', paths[i]);
    }
  }

  lemma SortRelativeFacts(ps: seq<Path>)
    requires ArePaths(ps)
    ensures var s := Sort(ps, PathLe);
            IsSorted(s, PathLe) && multiset(s) == multiset(ps) && ArePaths(s) && forall q :: q in s <==> q in ps
  {
    PathLeIsTotalPreorder();
    SortSorted(ps, PathLe);
    SortPermutes(ps, PathLe);
    var s := Sort(ps, PathLe);
    forall q
      ensures q in s <==> q in ps
    {
      assert q in s <==> q in multiset(s);
      assert q in ps <==> q in multiset(ps);
    }
    forall i | 0 <= i < |s|
      ensures IsPath(s[i])
    {
      assert s[i] in ps;
    }
  }
}
