/** The extracted kit seen through its own inventory walk, and an archive that cannot be extracted. */
module KitWalk {
  import opened Wrappers
  import opened Text
  import opened Sorting
  import opened Paths
  import opened FileSystems
  import opened TreeWalks
  import opened KitArchive
  import opened KitExtraction

  function TextBelow(root: Path): Path -> string {
    p => if root <= p then Posix(p[|root|..]) else ""
  }

  /** `_walk_immutable`: files and directories outside the mutable roots, as sorted text. */
  method WalkImmutable(t: Tree, root: Path, list: Path -> seq<string>)
    returns (r: Result<(seq<string>, seq<string>)>, ghost w: Walked)
    requires WellFormed(t) && Lists(t, list)
    ensures r.Ok? <==> Plain(t, root, MUTABLE_ROOTS)
    ensures r.Ok? ==> && IsWalk(t, root, MUTABLE_ROOTS, w)
                      && IsSorted(r.value.0, TextLe) && multiset(r.value.0) == multiset(Map(TextBelow(root), w.files))
                      && IsSorted(r.value.1, TextLe)
                      && multiset(r.value.1) == multiset(Map(TextBelow(root), w.directories))
  {
    w := Walked([], []);
    var walked := Walk(t, root, MUTABLE_ROOTS, list);
    if walked.Fail? {
      return Fail, w;
    }
    w := walked.value;
    var files := Map(TextBelow(root), walked.value.files);
    var directories := Map(TextBelow(root), walked.value.directories);
    TextLeIsTotalOrder();
    SortSorted(files, TextLe);
    SortPermutes(files, TextLe);
    SortSorted(directories, TextLe);
    SortPermutes(directories, TextLe);
    r := Ok((Sort(files, TextLe), Sort(directories, TextLe)));
  }

  lemma TopIsFirst(q: Path)
    requires IsPath(q) && q != []
    ensures Top(Posix(q)) == q[0]
  {
    SplitJoin(q, '/');
  }

  /** A required directory has its top-level name from the file that requires it. */
  lemma RequiredTop(files: set<string>, relative: string)
    requires relative in Required(files)
    requires forall f | f in files :: Posix(Parts(f)) == f && Top(f) !in MUTABLE_ROOTS
    ensures Parts(relative) != [] && Parts(relative)[0] !in MUTABLE_ROOTS && Posix(Parts(relative)) == relative
  {
    var f, k :| f in files && 1 <= k < |Parts(f)| && relative == Join(Parts(f)[..k], '/');
    PartsIsPath(f);
    PartsOfPosix(Parts(f)[..k]);
    TopIsFirst(Parts(f));
  }

  /** The listed files of an accepted archive lie outside the mutable roots. */
  lemma ListedFile(members: seq<ZipMember>, root: string, clean: string -> bool, i: nat)
    requires Acceptable(members, root, clean) && NoClash(root, members) && 1 <= i < |members|
    requires !IsDirectoryName(members[i])
    ensures var q := Target(root, members[i]);
            q != [] && q[0] !in MUTABLE_ROOTS && Posix(q) == Relative(root, members[i])
            && Top(Relative(root, members[i])) !in MUTABLE_ROOTS
  {
    MemberIsOk(members, root, clean, i);
    NameParts(root, members[i], clean);
    RootPlace(root, members[0]);
    assert Target(root, members[0]) != Target(root, members[i]);
    TopIsFirst(Target(root, members[i]));
  }

  lemma MemberIndex(members: seq<ZipMember>, m: ZipMember) returns (i: nat)
    requires members != [] && m in members[1..]
    ensures 1 <= i < |members| && members[i] == m
  {
    var k :| 0 <= k < |members[1..]| && members[1..][k] == m;
    i := k + 1;
  }

  lemma MutableTop(relative: string)
    ensures relative in MUTABLE_ROOTS ==> Top(relative) == relative
  {
    if relative in MUTABLE_ROOTS {
      assert forall i | 0 <= i < |relative| :: relative[i] != '/';
      SplitPiece(relative, [], '/');
    }
  }

  /** A member outside the mutable roots is a listed file or a required directory. */
  lemma MemberSide(below: seq<ZipMember>, root: string, m: ZipMember)
    requires DirectoriesOf(root, below) == Required(FilesOf(root, below)) + MUTABLE_ROOTS
    requires m in below && Named(root, m) && Target(root, m) != [] && Target(root, m)[0] !in MUTABLE_ROOTS
    ensures Posix(Target(root, m)) in
            if IsDirectoryName(m) then Required(FilesOf(root, below)) else FilesOf(root, below)
  {
    if IsDirectoryName(m) {
      assert Relative(root, m) in DirectoriesOf(root, below);
      TopIsFirst(Target(root, m));
      MutableTop(Relative(root, m));
    }
  }

  /** A node of the extracted tree that the walk keeps, on the right side of the listing. */
  lemma KeptIsListed(t: Tree, base: Path, members: seq<ZipMember>, root: string, clean: string -> bool, q: Path)
    requires Acceptable(members, root, clean) && NoClash(root, members) && WellFormed(t) && base !in t
    requires var u := Extracted(t, base, root, members);
             base + q in u && q != [] && q[0] !in MUTABLE_ROOTS
    ensures var u := Extracted(t, base, root, members);
            && (u[base + q].File? ==> Posix(q) in FilesOf(root, members[1..]))
            && (u[base + q].Directory? ==> Posix(q) in Required(FilesOf(root, members[1..])))
            && !u[base + q].Special?
  {
    ExtractedIsListed(t, base, members, root, clean);
    var i :| 0 <= i < |members| && Target(root, members[i]) == q;
    RootPlace(root, members[0]);
    assert i != 0;
    MembersNamed(members, root, clean);
    assert members[i] == members[1..][i - 1];
    MemberSide(members[1..], root, members[i]);
  }

  /** The listed files stand in the extracted tree where the walk keeps them. */
  lemma ListedFileIsKept(t: Tree, base: Path, members: seq<ZipMember>, root: string, clean: string -> bool, f: string)
    requires Acceptable(members, root, clean) && NoClash(root, members) && WellFormed(t) && base !in t
    requires f in FilesOf(root, members[1..])
    ensures KeptFile(Extracted(t, base, root, members), base, MUTABLE_ROOTS, base + Parts(f)) && Posix(Parts(f)) == f
    ensures Top(f) !in MUTABLE_ROOTS
  {
    var m :| m in members[1..] && !IsDirectoryName(m) && Relative(root, m) == f;
    var i := MemberIndex(members, m);
    ExtractedIsListed(t, base, members, root, clean);
    ListedFile(members, root, clean, i);
    assert (base + Parts(f))[|base|] == Parts(f)[0];
  }

  lemma RequiredTopOfMembers(t: Tree, base: Path, members: seq<ZipMember>, root: string, clean: string -> bool,
                             d: string)
    requires Acceptable(members, root, clean) && NoClash(root, members) && WellFormed(t) && base !in t
    requires d in Required(FilesOf(root, members[1..]))
    ensures Parts(d) != [] && Parts(d)[0] !in MUTABLE_ROOTS && Posix(Parts(d)) == d
  {
    var files := FilesOf(root, members[1..]);
    forall f | f in files
      ensures Posix(Parts(f)) == f && Top(f) !in MUTABLE_ROOTS
    {
      ListedFileIsKept(t, base, members, root, clean, f);
    }
    RequiredTop(files, d);
  }

  /** So do the required directories. */
  lemma RequiredIsKept(t: Tree, base: Path, members: seq<ZipMember>, root: string, clean: string -> bool, d: string)
    requires Acceptable(members, root, clean) && NoClash(root, members) && WellFormed(t) && base !in t
    requires d in Required(FilesOf(root, members[1..]))
    ensures KeptDirectory(Extracted(t, base, root, members), base, MUTABLE_ROOTS, base + Parts(d))
            && Posix(Parts(d)) == d
  {
    RequiredTopOfMembers(t, base, members, root, clean, d);
    assert d in DirectoriesOf(root, members[1..]);
    var m :| m in members[1..] && IsDirectoryName(m) && Relative(root, m) == d;
    var i := MemberIndex(members, m);
    ExtractedIsListed(t, base, members, root, clean);
    assert (base + Parts(d))[|base|] == Parts(d)[0];
  }

  predicate Shows(paths: seq<Path>, text: Path -> string, name: string) {
    exists p | p in paths :: text(p) == name
  }

  lemma SameImage(paths: seq<Path>, text: Path -> string, names: set<string>)
    requires forall p | p in paths :: text(p) in names
    requires forall name | name in names :: Shows(paths, text, name)
    ensures (set p | p in paths :: text(p)) == names
  {
  }

  lemma WalkedIsBelow(u: Tree, base: Path, w: Walked, p: Path)
    requires IsWalk(u, base, MUTABLE_ROOTS, w) && (p in w.files || p in w.directories)
    ensures base <= p && |base| < |p| && p == base + p[|base|..] && p[|base|..][0] !in MUTABLE_ROOTS && p in u
    ensures (p in w.files ==> u[p].File?) && (p in w.directories ==> u[p].Directory?)
  {
  }

  /** A walked path is listed, on the side it was walked on. */
  lemma WalkedIsListed(t: Tree, base: Path, members: seq<ZipMember>, root: string, clean: string -> bool, w: Walked,
                       p: Path)
    requires Acceptable(members, root, clean) && NoClash(root, members) && WellFormed(t) && base !in t
    requires IsWalk(Extracted(t, base, root, members), base, MUTABLE_ROOTS, w)
    requires p in w.files || p in w.directories
    ensures p in w.files ==> TextBelow(base)(p) in FilesOf(root, members[1..])
    ensures p in w.directories ==> TextBelow(base)(p) in Required(FilesOf(root, members[1..]))
  {
    var q := p[|base|..];
    WalkedIsBelow(Extracted(t, base, root, members), base, w, p);
    KeptIsListed(t, base, members, root, clean, q);
  }

  /** Walking the extracted kit finds exactly the listed files and the directories they require. */
  lemma ExtractedInventory(t: Tree, base: Path, members: seq<ZipMember>, root: string, clean: string -> bool, w: Walked)
    requires Acceptable(members, root, clean) && NoClash(root, members) && WellFormed(t) && base !in t
    requires IsWalk(Extracted(t, base, root, members), base, MUTABLE_ROOTS, w)
    ensures (set p | p in w.files :: TextBelow(base)(p)) == FilesOf(root, members[1..])
    ensures (set p | p in w.directories :: TextBelow(base)(p)) == Required(FilesOf(root, members[1..]))
  {
    var text := TextBelow(base);
    forall p | p in w.files || p in w.directories
      ensures p in w.files ==> text(p) in FilesOf(root, members[1..])
      ensures p in w.directories ==> text(p) in Required(FilesOf(root, members[1..]))
    {
      WalkedIsListed(t, base, members, root, clean, w, p);
    }
    forall f | f in FilesOf(root, members[1..])
      ensures Shows(w.files, text, f)
    {
      ListedFileIsKept(t, base, members, root, clean, f);
      assert base + Parts(f) in w.files && text(base + Parts(f)) == f;
    }
    forall d | d in Required(FilesOf(root, members[1..]))
      ensures Shows(w.directories, text, d)
    {
      RequiredIsKept(t, base, members, root, clean, d);
      assert base + Parts(d) in w.directories && text(base + Parts(d)) == d;
    }
    SameImage(w.files, text, FilesOf(root, members[1..]));
    SameImage(w.directories, text, Required(FilesOf(root, members[1..])));
  }

  // ---------- An accepted archive that cannot be extracted ----------

  const SAMPLE_ROOT := ROOT_PREFIX + "0123456789ab" + ROOT_SUFFIX

  /** A file called "." next to the two directories every archive has. */
  function DotArchive(root: string): seq<ZipMember> {
    [ZipMember(root + "/", false, DirectoryKind, 0, []),
     ZipMember(root + "/.", false, RegularKind, 0, []),
     ZipMember(root + "/results/", false, DirectoryKind, 0, [])]
  }

  lemma SampleRootIsKitRoot()
    ensures IsKitRoot(SAMPLE_ROOT)
  {
    var s := SAMPLE_ROOT;
    assert s[..|ROOT_PREFIX|] == ROOT_PREFIX && s[|s| - |ROOT_SUFFIX|..] == ROOT_SUFFIX;
    forall i | |ROOT_PREFIX| <= i < |ROOT_PREFIX| + 12
      ensures IsHex(s[i])
    {
      assert s[i] == "0123456789ab"[i - |ROOT_PREFIX|];
    }
  }

  lemma DotIsPortable()
    ensures Parts(".") == [] && IsPortablePath(".") && Top(".") !in MUTABLE_ROOTS
  {
    SplitPiece(".", [], '/');
    assert DropDots(["."]) == DropDots([]);
  }

  predicate IsLowerWord(word: string) {
    0 < |word| <= 255 && forall i | 0 <= i < |word| :: 'a' <= word[i] <= 'z'
  }

  lemma WordHasOnePart(word: string)
    requires IsLowerWord(word)
    ensures Parts(word) == [word] && Split(word, '.') == [word]
  {
    SplitPiece(word, [], '/');
    SplitPiece(word, [], '.');
    assert word[0] != '.';
    assert DropDots([word]) == [word] + DropDots([]);
  }

  /** Lower-case words longer than every device name are portable paths. */
  lemma WordIsPortable(word: string)
    requires IsLowerWord(word) && |word| > 6
    ensures Parts(word) == [word] && IsPortablePath(word)
  {
    WordHasOnePart(word);
    assert |CaseFold(word)| == |word|;
    assert PartIsPortable(word);
    assert Posix([word]) == word;
  }

  lemma ResultsIsPortable()
    ensures Parts("results") == ["results"] && IsPortablePath("results")
  {
    WordIsPortable("results");
  }

  lemma NothingInTwo(a: ZipMember, b: ZipMember)
    ensures TotalSize([a, b]) == a.fileSize + b.fileSize
  {
    assert [a, b][..1] == [a] && [a][..0] == [];
    assert TotalSize([a]) == TotalSize([]) + a.fileSize;
  }

  lemma DotArchiveNames(root: string)
    ensures NamesOk(DotArchive(root))
  {
    var names := Map(NameOf, DotArchive(root));
    assert names == [root + "/", root + "/.", root + "/results/"];
    var a := root + "/";
    assert a + "." == names[1] && a + "results/" == names[2] && a + [] == names[0];
    CommonPrefix(a, [], ".", CharRank);
    CommonPrefix(a, ".", [], CharRank);
    CommonPrefix(a, [], "results/", CharRank);
    CommonPrefix(a, "results/", [], CharRank);
    CommonPrefix(a, ".", "results/", CharRank);
    CommonPrefix(a, "results/", ".", CharRank);
    assert TextLe(names[0], names[1]) && TextLe(names[0], names[2]) && TextLe(names[1], names[2]);
    SortOfSorted(names, TextLe);
    var folded := Map(FoldedNameOf, DotArchive(root));
    assert |folded[0]| == |a| && |folded[1]| == |a| + 1 && |folded[2]| == |a| + 8;
  }

  lemma AvoidsBoth(a: string, b: string, c: char)
    requires Avoids(a, c) && Avoids(b, c)
    ensures Avoids(a + b, c)
  {
  }

  lemma ResultsNameIsClean(root: string)
    requires IsKitRoot(root)
    ensures Avoids(root + "/results/", '\\') && Avoids(root + "/results/", '\0')
  {
    KitRootIsName(root);
    AvoidsBoth(root, "/results/", '\\');
    AvoidsBoth(root, "/results/", '\0');
  }

  /** The tests below the root, passed by the file "."; */
  lemma DotFileOk(root: string, clean: string -> bool)
    requires clean(".") && IsKitRoot(root)
    ensures MemberOk(root, DotArchive(root)[1], clean)
  {
    KitRootIsName(root);
    DotRelatives(root);
    DotIsPortable();
  }

  /** and by the directory "results". */
  lemma ResultsDirectoryOk(root: string, clean: string -> bool)
    requires IsKitRoot(root)
    ensures MemberOk(root, DotArchive(root)[2], clean)
  {
    ResultsNameIsClean(root);
    DotRelatives(root);
    ResultsIsPortable();
    assert root + "/" <= root + "/results/";
  }

  lemma DotListing(root: string)
    ensures var below := DotArchive(root)[1..];
            && FilesOf(root, below) == {"."} && DirectoriesOf(root, below) == {"results"}
            && Required({"."}) == {} && TotalSize(below) == 0
  {
    var members := DotArchive(root);
    DotRelatives(root);
    DotIsPortable();
    assert members[1..] == [members[1], members[2]];
    NothingInTwo(members[1], members[2]);
  }

  lemma DotRelatives(root: string)
    ensures var members := DotArchive(root);
            Relative(root, members[1]) == "." && Relative(root, members[2]) == "results"
  {
    var members := DotArchive(root);
    assert members[1].name[|root| + 1..] == "." && members[2].name[|root| + 1..] == "results/";
    assert "results/"[..7] == "results";
  }

  /** Two members that pass the tests are a listing when they list what they require. */
  lemma TwoOk(root: string, below: seq<ZipMember>, a: ZipMember, b: ZipMember, test: ZipMember -> bool)
    requires below == [a, b] && test(a) && test(b) && TotalSize(below) <= MAX_ARCHIVE_BYTES
    requires DirectoriesOf(root, below) == Required(FilesOf(root, below)) + MUTABLE_ROOTS
    ensures MembersOk(root, below, test)
  {
  }

  lemma DotMembersOk(root: string, clean: string -> bool)
    requires clean(".") && IsKitRoot(root)
    ensures MembersOk(root, DotArchive(root)[1..], MemberTest(root, clean))
  {
    var members := DotArchive(root);
    DotFileOk(root, clean);
    ResultsDirectoryOk(root, clean);
    DotListing(root);
    TwoOk(root, members[1..], members[1], members[2], MemberTest(root, clean));
  }

  lemma DotArchiveClashes(root: string)
    requires IsKitRoot(root)
    ensures !NoClash(root, DotArchive(root))
  {
    var members := DotArchive(root);
    RootPlace(root, members[0]);
    DotRelatives(root);
    DotIsPortable();
    assert Target(root, members[0]) == Target(root, members[1]);
  }

  /** The validation accepts it, although its file and its root are the same path. */
  lemma DotArchiveIsAccepted(clean: string -> bool)
    requires clean(".")
    ensures Acceptable(DotArchive(SAMPLE_ROOT), SAMPLE_ROOT, clean)
    ensures !NoClash(SAMPLE_ROOT, DotArchive(SAMPLE_ROOT))
  {
    SampleRootIsKitRoot();
    DotArchiveNames(SAMPLE_ROOT);
    DotMembersOk(SAMPLE_ROOT, clean);
    DotArchiveClashes(SAMPLE_ROOT);
  }
}
