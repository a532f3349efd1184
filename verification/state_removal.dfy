/** Removing the smoke user state: files first, then directories from the deepest up. */
module StateRemoval {
  import opened Sorting
  import opened Paths
  import opened FileSystems
  import opened TreeWalks

  /** The outcomes of the re-validations: before anything, after the inventory, around each entry, at the end. */
  datatype Checks = Checks(start: bool, inventoried: bool, before: Path -> bool, after: Path -> bool, last: bool)

  ghost predicate AllPass(t: Tree, root: Path, c: Checks) {
    && c.start && c.inventoried && c.last
    && forall p | p in t && root < p :: c.before(p) && c.after(p)
  }

  /** The key `len(path.parts)`, in reverse. */
  predicate DeeperFirst(p: Path, q: Path) {
    |p| >= |q|
  }

  function Without(t: Tree, gone: seq<Path>): Tree {
    t - (set p | p in gone)
  }

  /** The tree with everything at and under `root` taken out. */
  function Cut(t: Tree, root: Path): Tree {
    map p | p in t && !(root <= p) :: t[p]
  }

  /** Entries only disappear. */
  ghost predicate Shrinks(before: Tree, after: Tree) {
    forall p | p in after :: p in before && after[p] == before[p]
  }

  /** A plain tree holds nothing but the walked files and directories. */
  lemma WalkIsComplete(t: Tree, root: Path, w: Walked, p: Path)
    requires WellFormed(t) && Plain(t, root, {}) && IsWalk(t, root, {}, w)
    ensures p in t && root < p <==> p in w.files || p in w.directories
  {
    if p in t && root < p {
      KeptIsInspected(root, {}, p);
    }
  }

  lemma DepthOrder(w: Walked)
    requires Distinct(w.directories)
    ensures var s := Sort(w.directories, DeeperFirst);
            IsSorted(s, DeeperFirst) && Distinct(s) && forall p :: p in s <==> p in w.directories
  {
    SortSorted(w.directories, DeeperFirst);
    SortPermutes(w.directories, DeeperFirst);
    var s := Sort(w.directories, DeeperFirst);
    DistinctPermutation(w.directories, s);
    forall p
      ensures p in s <==> p in w.directories
    {
      assert p in s <==> p in multiset(s);
      assert p in w.directories <==> p in multiset(w.directories);
    }
  }

  /** When its turn comes, a directory is empty: what it held is deeper, and went before. */
  lemma EmptyInTurn(t: Tree, root: Path, w: Walked, i: nat)
    requires WellFormed(t) && Plain(t, root, {}) && IsWalk(t, root, {}, w)
    requires i < |Sort(w.directories, DeeperFirst)|
    ensures var s := Sort(w.directories, DeeperFirst);
            var now := Without(t, w.files + s[..i]);
            s[i] != [] && IsDirectory(now, s[i]) && !HasChildren(now, s[i])
  {
    DepthOrder(w);
    var s := Sort(w.directories, DeeperFirst);
    var now := Without(t, w.files + s[..i]);
    var d := s[i];
    assert d in s && d in w.directories && d !in w.files && d !in s[..i];
    forall p | p in t && p != [] && Parent(p) == d
      ensures p !in now
    {
      assert root < p;
      WalkIsComplete(t, root, w, p);
      if p !in w.files {
        var j :| 0 <= j < |s| && s[j] == p;
        assert !DeeperFirst(s[i], s[j]) && i != j;
        assert s[..i][j] == p;
      }
    }
  }

  lemma WithoutDescendants(t: Tree, root: Path, gone: seq<Path>)
    requires IsDirectory(t, root) && forall p :: p in gone <==> p in t && root < p
    ensures IsDirectory(Without(t, gone), root) && Without(t, gone) - {root} == Cut(t, root)
  {
    forall p
      ensures p in Without(t, gone) - {root} <==> p in Cut(t, root)
    {
      if root <= p && p != root {
        assert root < p;
      }
    }
  }

  /** After both loops only the root is left of its tree. */
  lemma OnlyRootLeft(t: Tree, root: Path, w: Walked)
    requires WellFormed(t) && Plain(t, root, {}) && IsWalk(t, root, {}, w)
    ensures var now := Without(t, w.files + Sort(w.directories, DeeperFirst));
            IsDirectory(now, root) && !HasChildren(now, root) && now - {root} == Cut(t, root)
  {
    DepthOrder(w);
    var s := Sort(w.directories, DeeperFirst);
    var gone := w.files + s;
    forall p
      ensures p in gone <==> p in t && root < p
    {
      assert p in gone <==> p in w.files || p in s;
      WalkIsComplete(t, root, w, p);
    }
    WithoutDescendants(t, root, gone);
    var now := Without(t, gone);
    forall p | p in now && p != []
      ensures Parent(p) != root
    {
      assert p in t && !(root < p);
    }
  }

  /** All checks pass when they pass at the start, around every walked entry, and at the end. */
  lemma AllPassOnWalk(t: Tree, root: Path, w: Walked, c: Checks)
    requires WellFormed(t) && Plain(t, root, {}) && IsWalk(t, root, {}, w)
    ensures AllPass(t, root, c) <==>
            && c.start && c.inventoried && c.last
            && (forall i | 0 <= i < |w.files| :: c.before(w.files[i]) && c.after(w.files[i]))
            && (forall i | 0 <= i < |w.directories| :: c.before(w.directories[i]) && c.after(w.directories[i]))
  {
    forall p
      ensures p in t && root < p <==> p in w.files || p in w.directories
    {
      WalkIsComplete(t, root, w, p);
    }
    assert forall i | 0 <= i < |w.files| :: w.files[i] in w.files;
    assert forall i | 0 <= i < |w.directories| :: w.directories[i] in w.directories;
  }

  lemma StepWithout(t: Tree, listed: seq<Path>, i: nat)
    requires i < |listed|
    ensures Without(t, listed[..i]) - {listed[i]} == Without(t, listed[..i + 1])
  {
    assert listed[..i + 1] == listed[..i] + [listed[i]];
  }

  /** Taking out any part of what was walked touches nothing outside the root. */
  lemma WithoutIsUnder(t: Tree, root: Path, w: Walked, gone: seq<Path>)
    requires IsWalk(t, root, {}, w)
    requires forall p | p in gone :: p in w.files || p in w.directories
    ensures OnlyUnder(t, Without(t, gone), root) && Shrinks(t, Without(t, gone))
  {
  }

  /** In its turn a file is still there, and unlinking it is one step further. */
  lemma FileInTurn(t: Tree, root: Path, w: Walked, i: nat)
    requires IsWalk(t, root, {}, w) && i < |w.files|
    ensures var now := Without(t, w.files[..i]);
            && w.files[i] in now && !now[w.files[i]].Directory?
            && now - {w.files[i]} == Without(t, w.files[..i + 1])
  {
    assert w.files[i] in w.files && w.files[i] !in w.files[..i];
    StepWithout(t, w.files, i);
  }

  /** The loop over the files. */
  method RemoveFiles(fs: FileSystem, root: Path, w: Walked, c: Checks) returns (ok: bool)
    requires WellFormed(fs.nodes) && IsWalk(fs.nodes, root, {}, w)
    modifies fs
    ensures WellFormed(fs.nodes) && OnlyUnder(old(fs.nodes), fs.nodes, root) && Shrinks(old(fs.nodes), fs.nodes)
    ensures ok <==> forall i | 0 <= i < |w.files| :: c.before(w.files[i]) && c.after(w.files[i])
    ensures ok ==> fs.nodes == Without(old(fs.nodes), w.files)
  {
    ghost var t := fs.nodes;
    assert Without(t, w.files[..0]) == t;
    ok := true;
    var i := 0;
    while i < |w.files| && ok
      invariant i <= |w.files| && WellFormed(fs.nodes)
      invariant fs.nodes == Without(t, w.files[..i])
                || (!ok && i < |w.files| && fs.nodes == Without(t, w.files[..i + 1]))
      invariant ok ==> forall k | 0 <= k < i :: c.before(w.files[k]) && c.after(w.files[k])
      invariant !ok ==> i < |w.files| && !(c.before(w.files[i]) && c.after(w.files[i]))
      invariant ok ==> fs.nodes == Without(t, w.files[..i])
      decreases |w.files| - i, ok
    {
      ok := c.before(w.files[i]);
      if ok {
        FileInTurn(t, root, w, i);
        var removed := fs.Unlink(w.files[i]);
        assert removed;
        ok := c.after(w.files[i]);
      }
      if ok {
        i := i + 1;
      }
    }
    assert w.files[..|w.files|] == w.files;
    WithoutIsUnder(t, root, w, w.files[..i]);
    if !ok {
      WithoutIsUnder(t, root, w, w.files[..i + 1]);
    }
  }

  /** In its turn a directory can go, and that is one step further. */
  lemma DirectoryInTurn(t: Tree, root: Path, w: Walked, i: nat)
    requires WellFormed(t) && Plain(t, root, {}) && IsWalk(t, root, {}, w)
    requires i < |Sort(w.directories, DeeperFirst)|
    ensures var s := Sort(w.directories, DeeperFirst);
            var now := Without(t, w.files + s[..i]);
            && s[i] != [] && IsDirectory(now, s[i]) && !HasChildren(now, s[i])
            && now - {s[i]} == Without(t, w.files + s[..i + 1])
  {
    EmptyInTurn(t, root, w, i);
    StepAfter(t, w.files, Sort(w.directories, DeeperFirst), i);
  }

  lemma StepAfter(t: Tree, first: seq<Path>, next: seq<Path>, i: nat)
    requires i < |next|
    ensures Without(t, first + next[..i]) - {next[i]} == Without(t, first + next[..i + 1])
  {
    var all := first + next;
    StepWithout(t, all, |first| + i);
    assert all[..|first| + i] == first + next[..i];
    assert all[..|first| + i + 1] == first + next[..i + 1];
  }

  /** The loop over the directories, deepest first. */
  method RemoveDirectories(fs: FileSystem, root: Path, w: Walked, c: Checks, ghost t: Tree) returns (ok: bool)
    requires WellFormed(t) && Plain(t, root, {}) && IsWalk(t, root, {}, w)
    requires WellFormed(fs.nodes) && fs.nodes == Without(t, w.files)
    modifies fs
    ensures WellFormed(fs.nodes) && OnlyUnder(t, fs.nodes, root) && Shrinks(t, fs.nodes)
    ensures ok <==> forall i | 0 <= i < |w.directories| :: c.before(w.directories[i]) && c.after(w.directories[i])
    ensures ok ==> fs.nodes == Without(t, w.files + Sort(w.directories, DeeperFirst))
  {
    var s := Sort(w.directories, DeeperFirst);
    assert w.files + s[..0] == w.files;
    ok := true;
    var i := 0;
    while i < |s| && ok
      invariant i <= |s| && WellFormed(fs.nodes)
      invariant (fs.nodes == Without(t, w.files + s[..i]) ||
                 (!ok && i < |s| && fs.nodes == Without(t, w.files + s[..i + 1])))
      invariant ok ==> forall k | 0 <= k < i :: c.before(s[k]) && c.after(s[k])
      invariant !ok ==> i < |s| && !(c.before(s[i]) && c.after(s[i]))
      invariant ok ==> fs.nodes == Without(t, w.files + s[..i])
      decreases |s| - i, ok
    {
      ok := c.before(s[i]);
      if ok {
        DirectoryInTurn(t, root, w, i);
        var removed := fs.Rmdir(s[i]);
        assert removed;
        ok := c.after(s[i]);
      }
      if ok {
        i := i + 1;
      }
    }
    assert s[..|s|] == s;
    SortedChecks(t, root, w, c, i);
  }

  /** Checking in sorted order is checking all, and every part of the removal stays under the root. */
  lemma SortedChecks(t: Tree, root: Path, w: Walked, c: Checks, i: nat)
    requires IsWalk(t, root, {}, w)
    ensures var s := Sort(w.directories, DeeperFirst);
            && ((forall k | 0 <= k < |s| :: c.before(s[k]) && c.after(s[k])) <==>
                (forall k | 0 <= k < |w.directories| :: c.before(w.directories[k]) && c.after(w.directories[k])))
            && (i <= |s| ==> OnlyUnder(t, Without(t, w.files + s[..i]), root)
                             && Shrinks(t, Without(t, w.files + s[..i])))
            && (i < |s| ==> OnlyUnder(t, Without(t, w.files + s[..i + 1]), root)
                            && Shrinks(t, Without(t, w.files + s[..i + 1])))
  {
    DepthOrder(w);
    var s := Sort(w.directories, DeeperFirst);
    assert forall k | 0 <= k < |s| :: s[k] in w.directories;
    assert forall k | 0 <= k < |w.directories| :: w.directories[k] in s;
    if i <= |s| {
      WithoutIsUnder(t, root, w, w.files + s[..i]);
    }
    if i < |s| {
      WithoutIsUnder(t, root, w, w.files + s[..i + 1]);
    }
  }

  /** `verify_and_remove_user_state`. */
  method RemoveUserState(fs: FileSystem, root: Path, list: Path -> seq<string>, c: Checks) returns (ok: bool)
    requires WellFormed(fs.nodes) && Lists(fs.nodes, list) && root != []
    modifies fs
    ensures WellFormed(fs.nodes) && OnlyUnder(old(fs.nodes), fs.nodes, root) && Shrinks(old(fs.nodes), fs.nodes)
    ensures ok <==> Plain(old(fs.nodes), root, {}) && AllPass(old(fs.nodes), root, c)
    ensures ok ==> fs.nodes == Cut(old(fs.nodes), root)
    ensures !Plain(old(fs.nodes), root, {}) ==> fs.nodes == old(fs.nodes)
  {
    ghost var t := fs.nodes;
    if !c.start {
      return false;
    }
    var walked := Walk(fs.nodes, root, {}, list);
    if walked.Fail? || !c.inventoried {
      return false;
    }
    var w := walked.value;
    AllPassOnWalk(t, root, w, c);
    ok := RemoveFiles(fs, root, w, c);
    if !ok {
      return;
    }
    ok := RemoveDirectories(fs, root, w, c, t);
    if !ok || !c.last {
      return false;
    }
    OnlyRootLeft(t, root, w);
    ok := fs.Rmdir(root);
    assert ok;
  }
}
