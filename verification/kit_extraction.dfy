/** Extraction in listed order: why every ancestor comes first, and exactly when it succeeds. */
module KitExtraction {
  import opened Text
  import opened Sorting
  import opened Paths
  import opened FileSystems
  import opened KitArchive

  /** What a member becomes. */
  function Content(m: ZipMember): Node {
    if IsDirectoryName(m) then Directory else File(m.content)
  }

  predicate Sized(m: ZipMember) {
    IsDirectoryName(m) || |m.content| == m.fileSize
  }

  /** No path is listed both as a file and as a directory. */
  predicate NoClash(root: string, members: seq<ZipMember>) {
    forall i, j | 0 <= i < |members| && 0 <= j < |members| ::
      IsDirectoryName(members[i]) && !IsDirectoryName(members[j]) ==>
        Target(root, members[i]) != Target(root, members[j])
  }

  predicate AllSized(members: seq<ZipMember>) {
    forall i | 0 <= i < |members| :: Sized(members[i])
  }

  /** A member as a node to be put in its place. */
  datatype Item = Item(place: Path, node: Node)

  // ---------- Names and places ----------

  lemma NameText(root: string, m: ZipMember)
    requires root + "/" <= m.name && Relative(root, m) != ""
    ensures m.name == root + "/" + Relative(root, m) + (if IsDirectoryName(m) then "/" else "")
  {
    var tail := m.name[|root| + 1..];
    assert m.name == root + "/" + tail;
    assert tail != [];
    assert tail[|tail| - 1] == m.name[|m.name| - 1];
    if IsDirectoryName(m) {
      assert tail == tail[..|tail| - 1] + "/";
    }
  }

  /** The text of a member below the root, taken apart. */
  lemma NameParts(root: string, m: ZipMember, clean: string -> bool)
    requires MemberOk(root, m, clean)
    ensures m.name == root + "/" + Relative(root, m) + (if IsDirectoryName(m) then "/" else "")
    ensures Posix(Target(root, m)) == Relative(root, m) && IsPath(Target(root, m))
  {
    PartsIsPath(Relative(root, m));
    NameText(root, m);
  }

  lemma RootPlace(root: string, m: ZipMember)
    requires RootOk(m, root)
    ensures IsDirectoryName(m) && Target(root, m) == []
  {
    assert m.name[|root| + 1..] == [];
    assert Relative(root, m) == "";
  }

  lemma MemberIsOk(members: seq<ZipMember>, root: string, clean: string -> bool, i: nat)
    requires Acceptable(members, root, clean) && 1 <= i < |members|
    ensures MemberOk(root, members[i], clean)
  {
    assert MemberTest(root, clean)(members[1..][i - 1]);
  }

  /** The name says where the member goes, and whether it is a directory. */
  ghost predicate Named(root: string, m: ZipMember) {
    && m.name == root + "/" + Relative(root, m) + (if IsDirectoryName(m) then "/" else "")
    && Posix(Target(root, m)) == Relative(root, m) && IsPath(Target(root, m))
  }

  lemma MembersNamed(members: seq<ZipMember>, root: string, clean: string -> bool)
    requires Acceptable(members, root, clean)
    ensures forall i | 1 <= i < |members| :: Named(root, members[i])
  {
    forall i | 1 <= i < |members|
      ensures Named(root, members[i])
    {
      MemberIsOk(members, root, clean, i);
      NameParts(root, members[i], clean);
    }
  }

  /** Listed in the order of their names. */
  lemma ListedInOrder(members: seq<ZipMember>, i: nat, j: nat)
    requires NamesOk(members) && i < |members| && j < |members|
    requires members[j].name < members[i].name
    ensures j < i
  {
    TextLeIsTotalOrder();
    var names := Map(NameOf, members);
    SortSorted(names, TextLe);
    var a, b := members[j].name, members[i].name;
    assert b == a + b[|a|..];
    ProperPrefixBefore(a, b[|a|..], CharRank);
    assert !TextLe(names[i], names[j]);
  }

  /** The ancestors of a listed directory are required too. */
  lemma RequiredParent(files: set<string>, relative: string)
    requires relative in Required(files) + MUTABLE_ROOTS
    ensures Parts(relative) != []
    ensures |Parts(relative)| > 1 ==> Join(Parent(Parts(relative)), '/') in Required(files)
  {
    if relative in Required(files) {
      var f, k :| f in files && 1 <= k < |Parts(f)| && relative == Join(Parts(f)[..k], '/');
      PartsIsPath(f);
      PartsOfPosix(Parts(f)[..k]);
      assert Parts(relative) == Parts(f)[..k];
      if k > 1 {
        assert Parent(Parts(relative)) == Parts(f)[..k - 1];
      }
    } else {
      assert relative == "results";
      SplitPiece("results", [], '/');
      assert DropDots(["results"]) == ["results"] + DropDots([]);
    }
  }

  /** The directory that a listed path stands in is required. */
  lemma ParentIsRequired(below: seq<ZipMember>, root: string, m: ZipMember)
    requires DirectoriesOf(root, below) == Required(FilesOf(root, below)) + MUTABLE_ROOTS
    requires m in below && |Target(root, m)| > 1
    ensures Join(Parent(Target(root, m)), '/') in DirectoriesOf(root, below)
  {
    var files := FilesOf(root, below);
    if IsDirectoryName(m) {
      assert Relative(root, m) in DirectoriesOf(root, below);
      RequiredParent(files, Relative(root, m));
    } else {
      assert Relative(root, m) in files;
      assert Join(Parts(Relative(root, m))[..|Target(root, m)| - 1], '/') in Required(files);
    }
  }

  /** So it is listed as well. */
  lemma ParentIsListed(members: seq<ZipMember>, root: string, i: nat) returns (j: nat)
    requires 1 <= i < |members| && |Target(root, members[i])| > 1
    requires DirectoriesOf(root, members[1..]) == Required(FilesOf(root, members[1..])) + MUTABLE_ROOTS
    ensures 1 <= j < |members| && IsDirectoryName(members[j])
    ensures Relative(root, members[j]) == Join(Parent(Target(root, members[i])), '/')
  {
    var below := members[1..];
    assert members[i] == below[i - 1];
    ParentIsRequired(below, root, members[i]);
    var d :| d in below && IsDirectoryName(d) && Relative(root, d) == Join(Parent(Target(root, members[i])), '/');
    var k :| 0 <= k < |below| && below[k] == d;
    j := k + 1;
  }

  lemma LongerText(root: string, front: string, last: string, tail: string)
    requires last != []
    ensures root + "/" + front + "/" < root + "/" + (front + ['/'] + last) + tail
  {
    assert root + "/" + (front + ['/'] + last) + tail == (root + "/" + front + "/") + (last + tail);
  }

  /** A directory's name is a proper prefix of the names in it. */
  lemma DirectoryNameIsPrefix(root: string, q: Path, tail: string)
    requires IsPath(q) && |q| > 1
    ensures root + "/" + Join(Parent(q), '/') + "/" < root + "/" + Join(q, '/') + tail
  {
    var last := q[|q| - 1];
    assert q == Parent(q) + [last];
    JoinAppend(Parent(q), [last], '/');
    assert IsName(last);
    LongerText(root, Join(Parent(q), '/'), last, tail);
  }

  lemma NameOrder(members: seq<ZipMember>, i: nat, j: nat, root: string)
    requires NamesOk(members) && i < |members| && j < |members|
    requires Named(root, members[i]) && Named(root, members[j]) && IsDirectoryName(members[j])
    requires var q := Target(root, members[i]); |q| > 1 && Relative(root, members[j]) == Join(Parent(q), '/')
    ensures j < i && Target(root, members[j]) == Parent(Target(root, members[i]))
  {
    var q := Target(root, members[i]);
    DirectoryNameIsPrefix(root, q, if IsDirectoryName(members[i]) then "/" else "");
    ListedInOrder(members, i, j);
    PartsOfPosix(Parent(q));
  }

  /** And it is listed before. */
  lemma ParentComesFirst(members: seq<ZipMember>, root: string, i: nat) returns (j: nat)
    requires NamesOk(members) && RootOk(members[0], root) && 1 <= i < |members|
    requires forall k | 1 <= k < |members| :: Named(root, members[k])
    requires DirectoriesOf(root, members[1..]) == Required(FilesOf(root, members[1..])) + MUTABLE_ROOTS
    requires Target(root, members[i]) != []
    ensures j < i && IsDirectoryName(members[j]) && Target(root, members[j]) == Parent(Target(root, members[i]))
  {
    if |Target(root, members[i])| == 1 {
      RootPlace(root, members[0]);
      j := 0;
    } else {
      j := ParentIsListed(members, root, i);
      NameOrder(members, i, j, root);
    }
  }

  /** Two members of the same kind never share a place. */
  lemma SameKindApart(members: seq<ZipMember>, root: string, clean: string -> bool, i: nat, j: nat)
    requires Acceptable(members, root, clean) && i < j < |members|
    requires IsDirectoryName(members[i]) == IsDirectoryName(members[j])
    ensures Target(root, members[i]) != Target(root, members[j])
  {
    MemberIsOk(members, root, clean, j);
    NameParts(root, members[j], clean);
    if i == 0 {
      RootPlace(root, members[0]);
      assert members[j] == members[1..][j - 1] && members[j] in members[1..];
      assert Relative(root, members[j]) in DirectoriesOf(root, members[1..]);
      RequiredParent(FilesOf(root, members[1..]), Relative(root, members[j]));
    } else {
      MemberIsOk(members, root, clean, i);
      NameParts(root, members[i], clean);
      assert Map(NameOf, members)[i] != Map(NameOf, members)[j];
    }
  }

  // ---------- Putting items in place ----------

  function ItemOf(root: string): ZipMember -> Item {
    m => Item(Target(root, m), Content(m))
  }

  function PlaceOf(item: Item): Path { item.place }

  function Places(root: string, members: seq<ZipMember>): seq<Path> {
    Map(PlaceOf, Map(ItemOf(root), members))
  }

  /** `t` with every item put in place below `base`, in order. */
  function Put(t: Tree, base: Path, items: seq<Item>): Tree {
    if items == [] then t
    else
      var item := items[|items| - 1];
      Put(t, base, items[..|items| - 1])[base + item.place := item.node]
  }

  lemma {:induction false} PutNodes(t: Tree, base: Path, items: seq<Item>)
    ensures var u := Put(t, base, items);
            && (forall p :: p in u <==> p in t || (base <= p && p[|base|..] in Map(PlaceOf, items)))
            && (forall p | p in u && !(base <= p && p[|base|..] in Map(PlaceOf, items)) :: u[p] == t[p])
  {
    if items != [] {
      var n := |items| - 1;
      PutNodes(t, base, items[..n]);
      assert items == items[..n] + [items[n]];
      assert Map(PlaceOf, items) == Map(PlaceOf, items[..n]) + [items[n].place];
      forall p
        ensures p == base + items[n].place <==> base <= p && p[|base|..] == items[n].place
      {
      }
    }
  }

  /** With all places apart, every item is found again where it was put. */
  lemma {:induction false} PutContent(t: Tree, base: Path, items: seq<Item>, j: nat)
    requires j < |items| && Distinct(Map(PlaceOf, items))
    ensures var p := base + items[j].place; p in Put(t, base, items) && Put(t, base, items)[p] == items[j].node
  {
    var n := |items| - 1;
    var places := Map(PlaceOf, items);
    if j < n {
      assert Map(PlaceOf, items[..n]) == places[..n];
      PutContent(t, base, items[..n], j);
      assert places[j] != places[n];
      var a, b := base + places[j], base + places[n];
      assert a[|base|..] == places[j] && b[|base|..] == places[n];
    }
  }

  /** The item stands in a directory put before it, or is the base itself. */
  ghost predicate StandsReady(items: seq<Item>, i: nat)
    requires i < |items|
  {
    items[i].place == [] || exists j | 0 <= j < i ::
      items[j].node.Directory? && items[j].place == Parent(items[i].place)
  }

  ghost predicate ParentsListed(items: seq<Item>) {
    forall i | 0 <= i < |items| :: StandsReady(items, i)
  }

  /** The next item has its directory ready, and its place is free unless it was listed before. */
  lemma NextItem(t: Tree, base: Path, items: seq<Item>, i: nat)
    requires WellFormed(t) && base != [] && base !in t && IsDirectory(t, Parent(base))
    requires i < |items| && StandsReady(items, i) && Distinct(Map(PlaceOf, items[..i]))
    ensures var now := Put(t, base, items[..i]);
            var p := base + items[i].place;
            && IsDirectory(now, Parent(p))
            && (p !in now <==> items[i].place !in Map(PlaceOf, items[..i]))
            && Put(t, base, items[..i + 1]) == now[p := items[i].node]
  {
    var front := items[..i];
    assert items[..i + 1][..i] == front && items[..i + 1][i] == items[i];
    var q := items[i].place;
    PutNodes(t, base, front);
    NothingUnder(t, base, q);
    assert (base + q)[|base|..] == q;
    if q == [] {
      assert base + q == base;
      assert !(base <= Parent(base));
    } else {
      var j :| 0 <= j < i && items[j].node.Directory? && items[j].place == Parent(q);
      assert front[j] == items[j];
      PutContent(t, base, front, j);
      assert Parent(base + q) == base + Parent(q);
    }
  }

  lemma DistinctPrefix(places: seq<Path>, i: nat)
    requires i < |places| && Distinct(places[..i])
    ensures Distinct(places[..i + 1]) <==> places[i] !in places[..i]
    ensures Distinct(places) ==> places[i] !in places[..i]
  {
    if places[i] in places[..i] {
      var j :| 0 <= j < i && places[..i][j] == places[i];
      assert places[..i + 1][j] == places[..i + 1][i];
      assert places[j] == places[i];
    }
  }

  // ---------- What an accepted archive lists ----------

  /** An accepted archive lists every directory before what stands in it. */
  lemma AcceptedStandsReady(members: seq<ZipMember>, root: string, clean: string -> bool)
    requires Acceptable(members, root, clean)
    ensures ParentsListed(Map(ItemOf(root), members))
  {
    var items := Map(ItemOf(root), members);
    MembersNamed(members, root, clean);
    forall i | 0 <= i < |items|
      ensures StandsReady(items, i)
    {
      if i == 0 {
        RootPlace(root, members[0]);
      } else if items[i].place != [] {
        var j := ParentComesFirst(members, root, i);
        assert items[j].node.Directory? && items[j].place == Parent(items[i].place);
      }
    }
  }

  /** Members of one kind have their own places. */
  ghost predicate KindsApart(root: string, members: seq<ZipMember>) {
    forall i, j | 0 <= i < j < |members| && IsDirectoryName(members[i]) == IsDirectoryName(members[j]) ::
      Target(root, members[i]) != Target(root, members[j])
  }

  lemma AcceptedKindsApart(members: seq<ZipMember>, root: string, clean: string -> bool)
    requires Acceptable(members, root, clean)
    ensures KindsApart(root, members)
  {
    forall i, j | 0 <= i < j < |members| && IsDirectoryName(members[i]) == IsDirectoryName(members[j])
      ensures Target(root, members[i]) != Target(root, members[j])
    {
      SameKindApart(members, root, clean, i, j);
    }
  }

  lemma ApartInOrder(root: string, members: seq<ZipMember>)
    requires Distinct(Places(root, members))
    ensures NoClash(root, members)
  {
    var places := Places(root, members);
    forall i, j | 0 <= i < |members| && 0 <= j < |members|
                  && IsDirectoryName(members[i]) && !IsDirectoryName(members[j])
      ensures Target(root, members[i]) != Target(root, members[j])
    {
      assert places[i] == Target(root, members[i]) && places[j] == Target(root, members[j]) && i != j;
    }
  }

  lemma NoClashMeansApart(root: string, members: seq<ZipMember>)
    requires KindsApart(root, members) && NoClash(root, members)
    ensures Distinct(Places(root, members))
  {
    var places := Places(root, members);
    forall i, j | 0 <= i < j < |places|
      ensures places[i] != places[j]
    {
      assert places[i] == Target(root, members[i]) && places[j] == Target(root, members[j]);
    }
  }

  /** In an accepted archive, all places are apart exactly when no path has both kinds. */
  lemma AcceptedPlacesApart(members: seq<ZipMember>, root: string, clean: string -> bool)
    requires Acceptable(members, root, clean)
    ensures NoClash(root, members) <==> Distinct(Places(root, members))
  {
    AcceptedKindsApart(members, root, clean);
    if Distinct(Places(root, members)) {
      ApartInOrder(root, members);
    }
    if NoClash(root, members) {
      NoClashMeansApart(root, members);
    }
  }

  // ---------- Extraction ----------

  method ExtractMember(fs: FileSystem, base: Path, root: string, m: ZipMember) returns (ok: bool)
    requires WellFormed(fs.nodes) && IsPath(base + Target(root, m)) && base != []
    requires IsDirectory(fs.nodes, Parent(base + Target(root, m)))
    modifies fs
    ensures WellFormed(fs.nodes)
    ensures var p := base + Target(root, m);
            && (ok <==> p !in old(fs.nodes) && Sized(m))
            && fs.nodes == if p in old(fs.nodes) then old(fs.nodes) else old(fs.nodes)[p := Content(m)]
  {
    var p := base + Target(root, m);
    if IsDirectoryName(m) {
      ok := fs.MakeDirs(p, false);
    } else {
      ok := fs.MakeDirs(Parent(p), true);
      if ok {
        ok := fs.CreateFile(p, m.content);
      }
      if ok {
        ok := |m.content| == m.fileSize;
      }
    }
  }

  /** `t` with the whole archive put in place. */
  function Extracted(t: Tree, base: Path, root: string, members: seq<ZipMember>): Tree {
    Put(t, base, Map(ItemOf(root), members))
  }

  /** What the loop finds when it comes to the member `i`. */
  lemma MemberTurn(t: Tree, base: Path, root: string, members: seq<ZipMember>, i: nat)
    requires WellFormed(t) && IsPath(base) && base != [] && base !in t && IsDirectory(t, Parent(base))
    requires ParentsListed(Map(ItemOf(root), members)) && i < |members| && Distinct(Places(root, members)[..i])
    ensures var items := Map(ItemOf(root), members);
            var now := Put(t, base, items[..i]);
            var p := base + Target(root, members[i]);
            && IsPath(p) && IsDirectory(now, Parent(p)) && p[|base|..] == Target(root, members[i])
            && (p !in now <==> Distinct(Places(root, members)[..i + 1]))
            && (p in now ==> !Distinct(Places(root, members)))
            && Put(t, base, items[..i + 1]) == now[p := Content(members[i])]
            && OnlyUnder(t, now, base)
  {
    var items := Map(ItemOf(root), members);
    var places := Map(PlaceOf, items);
    assert Map(PlaceOf, items[..i]) == places[..i];
    assert StandsReady(items, i);
    NextItem(t, base, items, i);
    DistinctPrefix(places, i);
    PutNodes(t, base, items[..i]);
    PartsIsPath(Relative(root, members[i]));
  }

  /** One turn of the loop. */
  method ExtractNext(fs: FileSystem, base: Path, root: string, members: seq<ZipMember>, i: nat, ghost t: Tree)
    returns (ok: bool)
    requires WellFormed(t) && IsPath(base) && base != [] && base !in t && IsDirectory(t, Parent(base))
    requires ParentsListed(Map(ItemOf(root), members)) && i < |members| && Distinct(Places(root, members)[..i])
    requires WellFormed(fs.nodes) && fs.nodes == Put(t, base, Map(ItemOf(root), members)[..i])
    modifies fs
    ensures WellFormed(fs.nodes) && OnlyUnder(t, fs.nodes, base)
    ensures ok ==> fs.nodes == Put(t, base, Map(ItemOf(root), members)[..i + 1])
    ensures ok ==> Distinct(Places(root, members)[..i + 1]) && Sized(members[i])
    ensures !ok ==> !Distinct(Places(root, members)) || !Sized(members[i])
  {
    MemberTurn(t, base, root, members, i);
    ok := ExtractMember(fs, base, root, members[i]);
  }

  lemma SizedStep(members: seq<ZipMember>, i: nat)
    requires i < |members| && AllSized(members[..i])
    ensures Sized(members[i]) ==> AllSized(members[..i + 1])
    ensures !Sized(members[i]) ==> !AllSized(members)
  {
  }

  /** The loop of `_extract_verified_zip`. */
  method ExtractMembers(fs: FileSystem, base: Path, root: string, members: seq<ZipMember>) returns (ok: bool)
    requires WellFormed(fs.nodes) && IsPath(base) && base != [] && base !in fs.nodes
             && IsDirectory(fs.nodes, Parent(base))
    requires ParentsListed(Map(ItemOf(root), members))
    modifies fs
    ensures WellFormed(fs.nodes) && OnlyUnder(old(fs.nodes), fs.nodes, base)
    ensures ok <==> Distinct(Places(root, members)) && AllSized(members)
    ensures ok ==> fs.nodes == Extracted(old(fs.nodes), base, root, members)
  {
    ghost var t := fs.nodes;
    ghost var items := Map(ItemOf(root), members);
    for i := 0 to |members|
      invariant WellFormed(fs.nodes) && fs.nodes == Put(t, base, items[..i]) && OnlyUnder(t, fs.nodes, base)
      invariant Distinct(Places(root, members)[..i]) && AllSized(members[..i])
    {
      SizedStep(members, i);
      var done := ExtractNext(fs, base, root, members, i, t);
      if !done {
        return false;
      }
    }
    assert items[..|items|] == items && Places(root, members)[..|members|] == Places(root, members);
    assert members[..|members|] == members;
    return true;
  }

  /** What the extraction needs to know about an archive. */
  ghost predicate Extractable(members: seq<ZipMember>, root: string) {
    && members != [] && root == WithoutSlash(members[0].name) && IsName(root)
    && ParentsListed(Map(ItemOf(root), members))
    && (NoClash(root, members) <==> Distinct(Places(root, members)))
  }

  /** Validation is what makes the order of extraction safe. */
  lemma AcceptedIsExtractable(members: seq<ZipMember>, root: string, clean: string -> bool)
    requires Acceptable(members, root, clean)
    ensures Extractable(members, root)
  {
    KitRootIsName(root);
    AcceptedStandsReady(members, root, clean);
    AcceptedPlacesApart(members, root, clean);
    assert members[0].name[..|root|] == root;
  }

  /** `_extract_verified_zip` succeeds exactly when no path is both a file and a directory and every file
      has its declared size; then what stands below `parent` is what was listed. */
  method ExtractVerifiedZip(fs: FileSystem, members: seq<ZipMember>, parent: Path) returns (ok: bool)
    requires members != [] && Extractable(members, WithoutSlash(members[0].name))
    requires WellFormed(fs.nodes) && IsPath(parent) && IsDirectory(fs.nodes, parent)
    requires parent + [WithoutSlash(members[0].name)] !in fs.nodes
    modifies fs
    ensures WellFormed(fs.nodes)
    ensures OnlyUnder(old(fs.nodes), fs.nodes, parent + [WithoutSlash(members[0].name)])
    ensures ok <==> NoClash(WithoutSlash(members[0].name), members) && AllSized(members)
    ensures ok ==> fs.nodes == Extracted(old(fs.nodes), parent + [WithoutSlash(members[0].name)],
                                         WithoutSlash(members[0].name), members)
  {
    var root := WithoutSlash(members[0].name);
    assert Parent(parent + [root]) == parent;
    ok := ExtractMembers(fs, parent + [root], root, members);
  }

  lemma PutIsListed(t: Tree, base: Path, root: string, members: seq<ZipMember>)
    requires Distinct(Places(root, members)) && WellFormed(t) && base !in t
    ensures var u := Extracted(t, base, root, members);
            && (forall i | 0 <= i < |members| ::
                  var p := base + Target(root, members[i]); p in u && u[p] == Content(members[i]))
            && (forall q: Path | base + q in u :: exists i | 0 <= i < |members| :: Target(root, members[i]) == q)
  {
    var items := Map(ItemOf(root), members);
    var u := Put(t, base, items);
    forall i | 0 <= i < |members|
      ensures base + Target(root, members[i]) in u && u[base + Target(root, members[i])] == Content(members[i])
    {
      PutContent(t, base, items, i);
    }
    PutNodes(t, base, items);
    forall q: Path | base + q in u
      ensures exists i | 0 <= i < |members| :: Target(root, members[i]) == q
    {
      NothingUnder(t, base, q);
      assert (base + q)[|base|..] == q;
      var i :| 0 <= i < |items| && Map(PlaceOf, items)[i] == q;
      assert Target(root, members[i]) == q;
    }
  }

  /** What was listed, and nothing else, stands in the extracted tree. */
  lemma ExtractedIsListed(t: Tree, base: Path, members: seq<ZipMember>, root: string, clean: string -> bool)
    requires Acceptable(members, root, clean) && NoClash(root, members) && WellFormed(t) && base !in t
    ensures var u := Extracted(t, base, root, members);
            && (forall i | 0 <= i < |members| ::
                  var p := base + Target(root, members[i]); p in u && u[p] == Content(members[i]))
            && (forall q: Path | base + q in u :: exists i | 0 <= i < |members| :: Target(root, members[i]) == q)
  {
    AcceptedPlacesApart(members, root, clean);
    PutIsListed(t, base, root, members);
  }
}
