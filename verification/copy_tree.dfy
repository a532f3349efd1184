/** Copying a tree from its inventory. */
module CopyTree {
  import opened Text
  import opened Sorting
  import opened Paths
  import opened FileSystems
  import opened TreeWalks
  import opened Inventories

  // ---------- Paths under a root ----------

  lemma {:induction false} AncestorsAreDirectories(t: Tree, p: Path, q: Path)
    requires WellFormed(t) && p in t && q < p
    ensures IsDirectory(t, q)
    decreases |p|
  {
    assert Attached(t, p);
    if q != Parent(p) {
      AncestorsAreDirectories(t, Parent(p), q);
    }
  }

  lemma Longer(root: Path, q: Path)
    requires q != []
    ensures root + q != [] && Parent(root + q) == root + Parent(q)
  {
  }

  lemma SameEnd(root: Path, q: Path, r: Path)
    ensures root + q == root + r <==> q == r
  {
    assert (root + q)[|root|..] == q && (root + r)[|root|..] == r;
  }

  lemma PrefixOfLonger(q: Path, r: Path)
    requires q != []
    ensures r <= q <==> r == q || r <= Parent(q)
  {
    if r <= q && r != q {
      assert r == q[..|r|] == Parent(q)[..|r|];
    }
  }

  /** A way is open when everything that stands on it is a directory. */
  lemma {:induction false} ReachableUnder(t: Tree, root: Path, q: Path)
    requires WellFormed(t) && IsDirectory(t, root)
    ensures Reachable(t, root + q) <==> forall r: Path | r <= q && root + r in t :: IsDirectory(t, root + r)
    decreases |q|
  {
    assert root + [] == root;
    if root + q in t {
      forall r: Path | r <= q && r != q
        ensures IsDirectory(t, root + r)
      {
        AncestorsAreDirectories(t, root + q, root + r);
      }
    } else if q != [] {
      Longer(root, q);
      ReachableUnder(t, root, Parent(q));
      if Reachable(t, root + Parent(q)) {
        forall r: Path | r <= q && root + r in t
          ensures IsDirectory(t, root + r)
        {
          PrefixOfLonger(q, r);
        }
      } else {
        var r: Path :| r <= Parent(q) && root + r in t && !IsDirectory(t, root + r);
        PrefixOfLonger(q, r);
      }
    }
  }

  /** `mkdir(parents=True)` makes what is missing on the way and nothing else. */
  lemma {:induction false} WithDirectoriesAt(t: Tree, root: Path, q: Path, r: Path)
    requires WellFormed(t) && IsDirectory(t, root)
    ensures var u := WithDirectories(t, root + q);
            && (root + r in u <==> root + r in t || r <= q)
            && (root + r in t ==> u[root + r] == t[root + r])
            && (root + r !in t && r <= q ==> IsDirectory(u, root + r))
    decreases |q|
  {
    assert root + [] == root;
    if root + q in t {
      if r <= q && r != q {
        AncestorsAreDirectories(t, root + q, root + r);
      }
    } else if q != [] {
      Longer(root, q);
      WithDirectoriesAt(t, root, Parent(q), r);
      SameEnd(root, r, q);
      PrefixOfLonger(q, r);
    }
  }

  /** Making a directory under an existing one changes nothing outside it. */
  lemma {:induction false} MakingUnder(t: Tree, root: Path, q: Path)
    requires IsDirectory(t, root)
    ensures OnlyUnder(t, WithDirectories(t, root + q), root)
    decreases |q|
  {
    if q == [] {
      assert root + q == root;
    } else if root + q !in t {
      Longer(root, q);
      MakingUnder(t, root, Parent(q));
    }
  }

  lemma Apart(source: Path, destination: Path, q: Path)
    requires !(destination <= source) && !(source <= destination)
    ensures !(destination <= source + q) && !(source <= destination + q)
  {
    if destination <= source + q {
      CommonExtension(destination, source, source + q);
    }
    if source <= destination + q {
      CommonExtension(destination, source, destination + q);
    }
  }

  lemma CommonExtension(p: Path, q: Path, r: Path)
    requires p <= r && q <= r
    ensures p <= q || q <= p
  {
  }

  // ---------- What a copy holds ----------

  /** The texts of an inventory, as paths again. */
  function PathsOf(texts: seq<string>): seq<Path> {
    Map(Parts, texts)
  }

  function FileText(f: TreeFile): string { f.relativePath }

  /** Something listed is `q` or in it. */
  ghost predicate Within(listed: seq<Path>, q: Path) {
    exists i | 0 <= i < |listed| :: q <= listed[i]
  }

  /** Something listed is in `q`. */
  ghost predicate Above(listed: seq<Path>, q: Path) {
    exists i | 0 <= i < |listed| :: q < listed[i]
  }

  lemma OneMoreListed(listed: seq<Path>, q: Path, r: Path)
    ensures Within(listed + [q], r) <==> Within(listed, r) || r <= q
    ensures Above(listed + [q], r) <==> Above(listed, r) || r < q
  {
    var more := listed + [q];
    assert more[|listed|] == q && forall i | 0 <= i < |listed| :: more[i] == listed[i];
  }

  /** Once the listed directories and files are made, there is a directory at `q`. */
  ghost predicate MadeDirectory(dirs: seq<Path>, files: seq<Path>, q: Path) {
    q == [] || Within(dirs, q) || Above(files, q)
  }

  ghost predicate CopiedAt(t: Tree, source: Path, destination: Path, dirs: seq<Path>, files: seq<Path>, now: Tree,
                           q: Path) {
    && (destination + q in now ==> MadeDirectory(dirs, files, q) || q in files)
    && (MadeDirectory(dirs, files, q) ==> IsDirectory(now, destination + q))
    && (q in files ==> && source + q in t && t[source + q].File?
                       && destination + q in now && now[destination + q] == t[source + q])
  }

  /** The copy holds the listed directories and files and the directories on the way to them, and nothing else; outside
      it nothing has changed. */
  ghost predicate Copied(t: Tree, source: Path, destination: Path, dirs: seq<Path>, files: seq<Path>, now: Tree) {
    OnlyUnder(t, now, destination) && forall q :: CopiedAt(t, source, destination, dirs, files, now, q)
  }

  /** There is a source, and a place for the copy. */
  ghost predicate Placed(t: Tree, source: Path, destination: Path) {
    && IsDirectory(t, source)
    && destination != [] && destination !in t && IsDirectory(t, Parent(destination))
  }

  /** What stands in the source now is what stood there at the start. */
  lemma SourceUnchanged(t: Tree, source: Path, destination: Path, now: Tree, q: Path)
    requires WellFormed(t) && Placed(t, source, destination) && !(source <= destination)
    requires OnlyUnder(t, now, destination)
    ensures (source + q in now <==> source + q in t) && (source + q in t ==> now[source + q] == t[source + q])
  {
    assert destination <= source ==> destination + source[|destination|..] == source;
    if destination <= source {
      NothingUnder(t, destination, source[|destination|..]);
    }
    Apart(source, destination, q);
  }

  lemma NothingCopied(t: Tree, source: Path, destination: Path)
    requires WellFormed(t) && Placed(t, source, destination)
    ensures Copied(t, source, destination, [], [], t[destination := Directory])
  {
    var now := t[destination := Directory];
    forall q
      ensures CopiedAt(t, source, destination, [], [], now, q)
    {
      if q == [] {
        assert destination + q == destination;
      } else {
        NothingUnder(t, destination, q);
      }
    }
  }

  // ---------- The directories ----------

  /** The directory is there to copy, and nothing listed before it is it or in it. */
  ghost predicate DirectoryFits(t: Tree, source: Path, listed: seq<Path>, i: nat)
    requires i < |listed|
  {
    IsDirectory(t, source + listed[i]) && listed[i] != [] && !Within(listed[..i], listed[i])
  }

  ghost predicate DirectoriesFit(t: Tree, source: Path, listed: seq<Path>) {
    forall i | 0 <= i < |listed| :: DirectoryFits(t, source, listed, i)
  }

  /** In the middle of the loop. */
  lemma NextDirectory(t: Tree, source: Path, destination: Path, listed: seq<Path>, i: nat, now: Tree)
    requires i < |listed| && WellFormed(now) && Copied(t, source, destination, listed[..i], [], now)
    ensures var p := destination + listed[i];
            && Reachable(now, p)
            && (p !in now <==> listed[i] != [] && !Within(listed[..i], listed[i]))
            && Copied(t, source, destination, listed[..i + 1], [], WithDirectories(now, p))
  {
    var q, before := listed[i], listed[..i];
    assert CopiedAt(t, source, destination, before, [], now, []) && destination + [] == destination;
    assert CopiedAt(t, source, destination, before, [], now, q);
    forall r: Path | r <= q && destination + r in now
      ensures IsDirectory(now, destination + r)
    {
      assert CopiedAt(t, source, destination, before, [], now, r);
    }
    ReachableUnder(now, destination, q);
    assert listed[..i + 1] == before + [q];
    DirectoryMade(t, source, destination, before, now, q);
  }

  lemma DirectoryMade(t: Tree, source: Path, destination: Path, before: seq<Path>, now: Tree, q: Path)
    requires WellFormed(now) && IsDirectory(now, destination) && Reachable(now, destination + q)
    requires Copied(t, source, destination, before, [], now)
    ensures Copied(t, source, destination, before + [q], [], WithDirectories(now, destination + q))
  {
    MakingUnder(now, destination, q);
    forall r
      ensures CopiedAt(t, source, destination, before + [q], [], WithDirectories(now, destination + q), r)
    {
      assert CopiedAt(t, source, destination, before, [], now, r);
      WithDirectoriesAt(now, destination, q, r);
      OneMoreListed(before, q, r);
    }
  }

  /** One turn of the loop over the directories. */
  method CopyDirectory(fs: FileSystem, source: Path, destination: Path, relative: string) returns (ok: bool)
    requires WellFormed(fs.nodes) && IsPath(destination) && IsDirectory(fs.nodes, destination)
    modifies fs
    ensures WellFormed(fs.nodes)
    ensures OnlyUnder(old(fs.nodes), fs.nodes, destination) && IsDirectory(fs.nodes, destination)
    ensures var q := Parts(relative);
            && (ok <==> IsDirectory(old(fs.nodes), source + q)
                        && Reachable(old(fs.nodes), destination + q) && destination + q !in old(fs.nodes))
            && fs.nodes == if ok then WithDirectories(old(fs.nodes), destination + q) else old(fs.nodes)
  {
    var q := Parts(relative);
    PartsIsPath(relative);
    MakingUnder(fs.nodes, destination, q);
    MadeDirectories(fs.nodes, destination + q);
    if !IsDirectory(fs.nodes, source + q) {
      return false;
    }
    ok := fs.MakeDirs(destination + q, false);
  }

  /** The loop over the directories of the inventory. */
  method CopyDirectories(fs: FileSystem, source: Path, destination: Path, directories: seq<string>, ghost t: Tree)
    returns (ok: bool)
    requires WellFormed(t) && Placed(t, source, destination) && IsPath(destination)
    requires WellFormed(fs.nodes) && fs.nodes == t[destination := Directory]
    modifies fs
    ensures WellFormed(fs.nodes) && IsDirectory(fs.nodes, destination) && OnlyUnder(t, fs.nodes, destination)
    ensures !(source <= destination) ==> (ok <==> DirectoriesFit(t, source, PathsOf(directories)))
    ensures !(source <= destination) && ok ==> Copied(t, source, destination, PathsOf(directories), [], fs.nodes)
  {
    ghost var listed := PathsOf(directories);
    NothingCopied(t, source, destination);
    assert listed[..0] == [] && listed[..|listed|] == listed;
    for i := 0 to |directories|
      invariant WellFormed(fs.nodes) && IsDirectory(fs.nodes, destination)
      invariant Copied(t, source, destination, listed[..i], [], fs.nodes)
      invariant FitSoFar(t, source, destination, listed, i)
    {
      var made := NextCopied(fs, source, destination, directories[i], t, listed, i);
      if !made {
        return false;
      }
    }
    return true;
  }

  ghost predicate FitSoFar(t: Tree, source: Path, destination: Path, listed: seq<Path>, i: nat)
    requires i <= |listed|
  {
    !(source <= destination) ==> forall k | 0 <= k < i :: DirectoryFits(t, source, listed, k)
  }

  method NextCopied(fs: FileSystem, source: Path, destination: Path, relative: string, ghost t: Tree,
                    ghost listed: seq<Path>, ghost i: nat)
    returns (ok: bool)
    requires WellFormed(t) && Placed(t, source, destination) && IsPath(destination)
    requires i < |listed| && listed[i] == Parts(relative)
    requires WellFormed(fs.nodes) && IsDirectory(fs.nodes, destination)
    requires Copied(t, source, destination, listed[..i], [], fs.nodes)
    modifies fs
    ensures WellFormed(fs.nodes) && IsDirectory(fs.nodes, destination) && OnlyUnder(t, fs.nodes, destination)
    ensures ok ==> Copied(t, source, destination, listed[..i + 1], [], fs.nodes)
    ensures !(source <= destination) ==> (ok <==> DirectoryFits(t, source, listed, i))
  {
    NextDirectory(t, source, destination, listed, i, fs.nodes);
    if !(source <= destination) {
      SourceUnchanged(t, source, destination, fs.nodes, listed[i]);
    }
    ok := CopyDirectory(fs, source, destination, relative);
  }

  // ---------- The files ----------

  /** Every listed file is still a file. */
  ghost predicate FilesThere(t: Tree, source: Path, listed: seq<Path>) {
    forall i | 0 <= i < |listed| :: source + listed[i] in t && t[source + listed[i]].File?
  }

  /** A file in a well-formed tree is no ancestor of anything. */
  lemma FileIsNoAncestor(t: Tree, source: Path, q: Path, r: Path)
    requires WellFormed(t) && source + q in t && t[source + q].File? && source + r in t && q <= r
    ensures q == r
  {
    if q != r {
      AncestorsAreDirectories(t, source + r, source + q);
    }
  }

  /** The place of the next file is free, or holds an earlier copy of it, and the way to it is open. */
  lemma NextFile(t: Tree, source: Path, destination: Path, dirs: seq<Path>, files: seq<Path>, q: Path, now: Tree)
    requires WellFormed(t) && WellFormed(now) && Copied(t, source, destination, dirs, files, now)
    requires DirectoriesFit(t, source, dirs) && IsDirectory(t, source) && source + q in t && t[source + q].File?
    ensures q != [] && !MadeDirectory(dirs, files, q) && Reachable(now, destination + Parent(q))
  {
    assert source + [] == source;
    forall i | 0 <= i < |dirs|
      ensures !(q <= dirs[i])
    {
      assert DirectoryFits(t, source, dirs, i);
      if q <= dirs[i] {
        FileIsNoAncestor(t, source, q, dirs[i]);
      }
    }
    forall i | 0 <= i < |files|
      ensures !(q < files[i])
    {
      assert files[i] in files && CopiedAt(t, source, destination, dirs, files, now, files[i]);
      if q < files[i] {
        FileIsNoAncestor(t, source, q, files[i]);
      }
    }
    assert CopiedAt(t, source, destination, dirs, files, now, []) && destination + [] == destination;
    forall r: Path | r <= Parent(q) && destination + r in now
      ensures IsDirectory(now, destination + r)
    {
      assert CopiedAt(t, source, destination, dirs, files, now, r);
      if r in files {
        FileIsNoAncestor(t, source, r, q);
      }
    }
    ReachableUnder(now, destination, Parent(q));
  }

  lemma OneMoreFile(dirs: seq<Path>, files: seq<Path>, q: Path, r: Path)
    requires q != []
    ensures MadeDirectory(dirs, files + [q], r) <==> MadeDirectory(dirs, files, r) || r <= Parent(q)
  {
    OneMoreListed(files, q, r);
    PrefixOfLonger(q, r);
  }

  /** At one path: nothing that was there changes but the place of the file. */
  lemma FileAddedAt(t: Tree, source: Path, destination: Path, dirs: seq<Path>, files: seq<Path>, q: Path, now: Tree,
                    r: Path)
    requires WellFormed(t) && WellFormed(now) && IsDirectory(now, destination) && q != []
    requires CopiedAt(t, source, destination, dirs, files, now, r) && !MadeDirectory(dirs, files, q)
    requires source + q in t && t[source + q].File?
    requires !(r in files && r <= Parent(q))
    ensures var u := WithDirectories(now, destination + Parent(q));
            CopiedAt(t, source, destination, dirs, files + [q], u[destination + q := t[source + q]], r)
  {
    WithDirectoriesAt(now, destination, Parent(q), r);
    OneMoreFile(dirs, files, q, r);
    SameEnd(destination, r, q);
  }

  /** The tree after the next file. */
  lemma FileAdded(t: Tree, source: Path, destination: Path, dirs: seq<Path>, files: seq<Path>, q: Path, now: Tree,
                  u: Tree, after: Tree)
    requires WellFormed(t) && WellFormed(now) && Copied(t, source, destination, dirs, files, now)
    requires IsDirectory(now, destination) && !MadeDirectory(dirs, files, q) && q != []
    requires source + q in t && t[source + q].File?
    requires u == WithDirectories(now, destination + Parent(q)) && after == u[destination + q := t[source + q]]
    ensures (destination + q in u ==> u[destination + q].File?)
    ensures Copied(t, source, destination, dirs, files + [q], after)
  {
    MakingUnder(now, destination, Parent(q));
    WithDirectoriesAt(now, destination, Parent(q), q);
    assert CopiedAt(t, source, destination, dirs, files, now, q);
    forall r
      ensures CopiedAt(t, source, destination, dirs, files + [q], after, r)
    {
      assert CopiedAt(t, source, destination, dirs, files, now, r);
      if r in files && r <= Parent(q) {
        FileIsNoAncestor(t, source, r, q);
      }
      FileAddedAt(t, source, destination, dirs, files, q, now, r);
    }
  }

  /** One turn of the loop over the files. */
  method CopyFile(fs: FileSystem, source: Path, destination: Path, relative: string) returns (ok: bool)
    requires WellFormed(fs.nodes) && IsPath(destination) && destination != [] && IsDirectory(fs.nodes, destination)
    modifies fs
    ensures WellFormed(fs.nodes) && IsDirectory(fs.nodes, destination)
    ensures OnlyUnder(old(fs.nodes), fs.nodes, destination)
    ensures var q := Parts(relative);
            ok ==> source + q in old(fs.nodes) && old(fs.nodes)[source + q].File?
    ensures var q := Parts(relative);
            q != [] && source + q in old(fs.nodes) && old(fs.nodes)[source + q].File? ==>
              var u := WithDirectories(old(fs.nodes), destination + Parent(q));
              && (ok <==> Reachable(old(fs.nodes), destination + Parent(q))
                          && (destination + q in u ==> u[destination + q].File?))
              && (ok ==> fs.nodes == u[destination + q := old(fs.nodes)[source + q]])
  {
    var q := Parts(relative);
    PartsIsPath(relative);
    if source + q !in fs.nodes || !fs.nodes[source + q].File? {
      return false;
    }
    var content := fs.nodes[source + q].content;
    assert Attached(fs.nodes, destination);
    if q == [] {
      assert Parent(destination + q) == Parent(destination);
    } else {
      Longer(destination, q);
      MakingUnder(fs.nodes, destination, Parent(q));
    }
    MadeDirectories(fs.nodes, Parent(destination + q));
    ok := fs.MakeDirs(Parent(destination + q), true);
    if ok {
      ok := fs.WriteFile(destination + q, content);
    }
  }

  /** The loop over the files of the inventory. */
  method CopyFiles(fs: FileSystem, source: Path, destination: Path, files: seq<TreeFile>,
                   ghost t: Tree, ghost dirs: seq<Path>)
    returns (ok: bool)
    requires WellFormed(t) && Placed(t, source, destination) && IsPath(destination)
    requires WellFormed(fs.nodes) && IsDirectory(fs.nodes, destination) && OnlyUnder(t, fs.nodes, destination)
    requires !(source <= destination) ==>
               DirectoriesFit(t, source, dirs) && Copied(t, source, destination, dirs, [], fs.nodes)
    modifies fs
    ensures WellFormed(fs.nodes) && OnlyUnder(t, fs.nodes, destination)
    ensures var listed := PathsOf(Map(FileText, files));
            !(source <= destination) ==>
              && (ok <==> FilesThere(t, source, listed))
              && (ok ==> Copied(t, source, destination, dirs, listed, fs.nodes))
  {
    ghost var listed := PathsOf(Map(FileText, files));
    ghost var apart := !(source <= destination);
    assert listed[..0] == [] && listed[..|listed|] == listed;
    for i := 0 to |files|
      invariant WellFormed(fs.nodes) && IsDirectory(fs.nodes, destination) && OnlyUnder(t, fs.nodes, destination)
      invariant apart ==> Copied(t, source, destination, dirs, listed[..i], fs.nodes)
      invariant apart ==> FilesThere(t, source, listed[..i])
    {
      assert listed[i] == Parts(files[i].relativePath) && listed[..i + 1] == listed[..i] + [listed[i]];
      if apart {
        NextFits(t, source, destination, dirs, listed[..i], listed[i], fs.nodes);
      }
      var made := CopyFile(fs, source, destination, files[i].relativePath);
      if !made {
        return false;
      }
    }
    return true;
  }

  /** The next file is copied exactly when it is there. */
  lemma NextFits(t: Tree, source: Path, destination: Path, dirs: seq<Path>, files: seq<Path>, q: Path, now: Tree)
    requires WellFormed(t) && Placed(t, source, destination) && !(source <= destination)
    requires WellFormed(now) && Copied(t, source, destination, dirs, files, now) && DirectoriesFit(t, source, dirs)
    ensures source + q in now && now[source + q].File? <==> source + q in t && t[source + q].File?
    ensures source + q in t && t[source + q].File? ==>
              && q != [] && Reachable(now, destination + Parent(q)) && now[source + q] == t[source + q]
              && var u := WithDirectories(now, destination + Parent(q));
                 && (destination + q in u ==> u[destination + q].File?)
                 && Copied(t, source, destination, dirs, files + [q], u[destination + q := t[source + q]])
  {
    SourceUnchanged(t, source, destination, now, q);
    if source + q in t && t[source + q].File? {
      NextFile(t, source, destination, dirs, files, q, now);
      assert CopiedAt(t, source, destination, dirs, files, now, []) && destination + [] == destination;
      var u := WithDirectories(now, destination + Parent(q));
      FileAdded(t, source, destination, dirs, files, q, now, u, u[destination + q := t[source + q]]);
    }
  }

  // ---------- The copy ----------

  /** `copy_inventory_tree`. To a place outside the source it succeeds exactly when there is room for the copy, every
      listed directory is still one and stands before those in it, and every listed file is still a file; the copy then
      holds what is listed, with the present contents. */
  method CopyInventoryTree(fs: FileSystem, source: Path, destination: Path, inventory: Inventory,
                           ghost w: Walked, ghost hash: Hash)
    returns (ok: bool)
    requires WellFormed(fs.nodes) && IsPath(destination)
    modifies fs
    ensures WellFormed(fs.nodes)
    ensures destination !in old(fs.nodes) ==> OnlyUnder(old(fs.nodes), fs.nodes, destination)
    ensures destination in old(fs.nodes) ==> !ok && fs.nodes == old(fs.nodes)
    ensures ok ==> Placed(old(fs.nodes), source, destination)
    ensures var dirs, files := PathsOf(inventory.directories), PathsOf(Map(FileText, inventory.files));
            !(source <= destination) ==>
              && (ok <==> && Placed(old(fs.nodes), source, destination)
                          && DirectoriesFit(old(fs.nodes), source, dirs) && FilesThere(old(fs.nodes), source, files))
              && (ok ==> Copied(old(fs.nodes), source, destination, dirs, files, fs.nodes))
    ensures Copyable(old(fs.nodes), source, destination, w)
            && inventory == InventoryOfWalk(old(fs.nodes), source, w, hash) ==>
              ok && SameTree(old(fs.nodes), source, fs.nodes, destination)
  {
    ghost var t := fs.nodes;
    ghost var dirs, files := PathsOf(inventory.directories), PathsOf(Map(FileText, inventory.files));
    ghost var same := Copyable(t, source, destination, w) && inventory == InventoryOfWalk(t, source, w, hash);
    if same {
      InventoryFits(t, source, destination, w, hash);
    }
    if !IsDirectory(fs.nodes, source) {
      return false;
    }
    ok := fs.Mkdir(destination);
    if !ok {
      return false;
    }
    ok := CopyDirectories(fs, source, destination, inventory.directories, t);
    if ok {
      ok := CopyFiles(fs, source, destination, inventory.files, t, dirs);
    }
    if same {
      CopiedIsSame(t, source, destination, w, fs.nodes);
    }
  }

  /** An unchanged source, and a free place for the copy outside it. */
  ghost predicate Copyable(t: Tree, source: Path, destination: Path, w: Walked) {
    && WellFormed(t) && Plain(t, source, {}) && IsWalk(t, source, {}, w)
    && IsPath(destination) && Placed(t, source, destination) && !(source <= destination)
  }

  // ---------- An unchanged source ----------

  /** The texts of an inventory name exactly the walked paths, sorted. */
  lemma InventoryListsPaths(t: Tree, root: Path, w: Walked, hash: Hash)
    requires WellFormed(t) && IsWalk(t, root, {}, w)
    ensures var inv := InventoryOfWalk(t, root, w, hash);
            && PathsOf(inv.directories) == SortedRelative(root, w.directories)
            && PathsOf(Map(FileText, inv.files)) == SortedRelative(root, w.files)
  {
    WalkRelative(t, root, w);
    var inv := InventoryOfWalk(t, root, w, hash);
    SortedTexts(Map(RelativeTo(root), w.directories));
    SortedTexts(Map(RelativeTo(root), w.files));
    var files := SortedRelative(root, w.files);
    forall i | 0 <= i < |files|
      ensures inv.files[i].relativePath == Posix(files[i])
    {
    }
    assert Map(FileText, inv.files) == Map(Posix, files);
  }

  lemma SortedTexts(ps: seq<Path>)
    requires ArePaths(ps)
    ensures Sort(Map(Posix, ps), TextLe) == Map(Posix, Sort(ps, PathLe))
    ensures PathsOf(Map(Posix, Sort(ps, PathLe))) == Sort(ps, PathLe)
  {
    SortRelativeFacts(ps);
    var s := Sort(ps, PathLe);
    TextLeIsTotalOrder();
    MapPermutes(Posix, ps, s);
    SortPermutes(Map(Posix, ps), TextLe);
    SortSorted(Map(Posix, ps), TextLe);
    SortedUnique(Sort(Map(Posix, ps), TextLe), Map(Posix, s), TextLe);
    forall i | 0 <= i < |s|
      ensures Parts(Posix(s[i])) == s[i]
    {
      PartsOfPosix(s[i]);
    }
  }

  /** What is on the sorted lists of a walk. */
  lemma SortedWalk(t: Tree, root: Path, w: Walked)
    requires WellFormed(t) && IsWalk(t, root, {}, w)
    ensures var dirs, files := SortedRelative(root, w.directories), SortedRelative(root, w.files);
            && (forall q :: q in dirs <==> q != [] && IsDirectory(t, root + q))
            && (forall q :: q in files <==> q != [] && root + q in t && t[root + q].File?)
            && Distinct(dirs) && IsSorted(dirs, PathLe)
  {
    WalkRelative(t, root, w);
    var ds, fs := Map(RelativeTo(root), w.directories), Map(RelativeTo(root), w.files);
    SortRelativeFacts(ds);
    SortRelativeFacts(fs);
    DistinctPermutation(ds, Sort(ds, PathLe));
  }

  /** Sorted by text, no directory comes after one that is in it. */
  lemma SortedOutsideIn(listed: seq<Path>, j: nat, i: nat)
    requires IsSorted(listed, PathLe) && Distinct(listed) && j < i < |listed| && listed[i] != []
    ensures !(listed[i] <= listed[j])
  {
    var p, q := listed[i], listed[j];
    assert PathLe(q, p) && p != q;
    if p <= q {
      assert q == p + q[|p|..];
      AncestorBefore(p, q[|p|..]);
    }
  }

  /** A directory list that was sorted once is in a good order, whatever has become of the source. */
  lemma InventoryFits(t: Tree, source: Path, destination: Path, w: Walked, hash: Hash)
    requires Copyable(t, source, destination, w)
    ensures var inv := InventoryOfWalk(t, source, w, hash);
            && PathsOf(inv.directories) == SortedRelative(source, w.directories)
            && PathsOf(Map(FileText, inv.files)) == SortedRelative(source, w.files)
            && DirectoriesFit(t, source, PathsOf(inv.directories))
            && FilesThere(t, source, PathsOf(Map(FileText, inv.files)))
  {
    InventoryListsPaths(t, source, w, hash);
    SortedWalk(t, source, w);
    var dirs, files := SortedRelative(source, w.directories), SortedRelative(source, w.files);
    forall i | 0 <= i < |dirs|
      ensures DirectoryFits(t, source, dirs, i)
    {
      assert dirs[i] in dirs;
      forall j | 0 <= j < i
        ensures !(dirs[i] <= dirs[..i][j])
      {
        SortedOutsideIn(dirs, j, i);
      }
    }
    assert forall i | 0 <= i < |files| :: files[i] in files;
  }

  /** A copy of everything in the source is the same tree. */
  lemma CopiedIsSame(t: Tree, source: Path, destination: Path, w: Walked, now: Tree)
    requires Copyable(t, source, destination, w)
    requires Copied(t, source, destination, SortedRelative(source, w.directories), SortedRelative(source, w.files), now)
    ensures SameTree(t, source, now, destination)
  {
    var dirs, files := SortedRelative(source, w.directories), SortedRelative(source, w.files);
    SortedWalk(t, source, w);
    forall q
      ensures SameTreeAt(t, source, now, destination, q)
    {
      assert CopiedAt(t, source, destination, dirs, files, now, q);
      DirectoriesMade(t, source, dirs, files, q);
      if q == [] {
        assert source + q == source;
      } else if source + q in t {
        Longer(source, q);
        assert Inspected(source, {}, source + q);
      }
    }
  }

  lemma DirectoriesMade(t: Tree, source: Path, dirs: seq<Path>, files: seq<Path>, q: Path)
    requires WellFormed(t) && IsDirectory(t, source)
    requires forall d :: d in dirs <==> d != [] && IsDirectory(t, source + d)
    requires forall f | f in files :: source + f in t
    ensures MadeDirectory(dirs, files, q) <==> IsDirectory(t, source + q)
  {
    assert source + [] == source;
    if i :| 0 <= i < |dirs| && q <= dirs[i] {
      assert dirs[i] in dirs;
      if q != dirs[i] {
        AncestorsAreDirectories(t, source + dirs[i], source + q);
      }
    }
    if i :| 0 <= i < |files| && q < files[i] {
      assert files[i] in files;
      AncestorsAreDirectories(t, source + files[i], source + q);
    }
    if q != [] && q in dirs {
      var i :| 0 <= i < |dirs| && dirs[i] == q;
    }
  }

  /** A repeated tree holds nothing special either. */
  lemma SameTreePlain(t: Tree, source: Path, u: Tree, destination: Path)
    requires Plain(t, source, {}) && SameTree(t, source, u, destination)
    ensures Plain(u, destination, {})
  {
    assert SameTreeAt(t, source, u, destination, []);
    assert source + [] == source && destination + [] == destination;
    forall p | p in u && Inspected(destination, {}, p)
      ensures !u[p].Special?
    {
      var q := p[|destination|..];
      assert p == destination + q;
      assert SameTreeAt(t, source, u, destination, q);
      assert Parent(source + q) == source + Parent(q);
    }
  }

  /** Walking the copy succeeds and finds what the source held: the two inventories are equal. */
  lemma CopyHasSameInventory(t: Tree, source: Path, w: Walked, u: Tree, destination: Path, w': Walked, hash: Hash)
    requires Copyable(t, source, destination, w) && WellFormed(u) && SameTree(t, source, u, destination)
    requires IsWalk(u, destination, {}, w')
    ensures Plain(u, destination, {})
    ensures InventoryOfWalk(u, destination, w', hash) == InventoryOfWalk(t, source, w, hash)
  {
    SameTreePlain(t, source, u, destination);
    SameTreeSameInventory(t, source, w, u, destination, w', hash);
  }
}
