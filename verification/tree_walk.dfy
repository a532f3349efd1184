/** The work-list walks: a stack of directories still to be scanned. */
module TreeWalks {
  import opened Wrappers
  import opened Sorting
  import opened Paths
  import opened FileSystems

  /** Directories and files in the order they were met. */
  datatype Walked = Walked(directories: seq<Path>, files: seq<Path>)

  /** `p` lies under `root`, and not under one of the top-level names that are left alone. */
  predicate Kept(root: Path, mutableRoots: set<string>, p: Path) {
    root < p && p[|root|] !in mutableRoots
  }

  /** The walk lists the directory `p` stands in, and so looks at `p`. */
  predicate Inspected(root: Path, mutableRoots: set<string>, p: Path) {
    root < p && (Parent(p) == root || Kept(root, mutableRoots, Parent(p)))
  }

  /** `root` is a directory and nothing the walk looks at is special. */
  ghost predicate Plain(t: Tree, root: Path, mutableRoots: set<string>) {
    && IsDirectory(t, root)
    && forall p | p in t && Inspected(root, mutableRoots, p) :: !t[p].Special?
  }

  predicate KeptDirectory(t: Tree, root: Path, mutableRoots: set<string>, p: Path) {
    Kept(root, mutableRoots, p) && IsDirectory(t, p)
  }

  predicate KeptFile(t: Tree, root: Path, mutableRoots: set<string>, p: Path) {
    Kept(root, mutableRoots, p) && p in t && t[p].File?
  }

  /** Every kept descendant is listed exactly once, on the right list. */
  ghost predicate IsWalk(t: Tree, root: Path, mutableRoots: set<string>, w: Walked) {
    && Distinct(w.directories) && Distinct(w.files)
    && (forall p :: p in w.directories <==> KeptDirectory(t, root, mutableRoots, p))
    && (forall p :: p in w.files <==> KeptFile(t, root, mutableRoots, p))
  }

  // ---------- One directory ----------

  function Child(d: Path): string -> Path {
    name => d + [name]
  }

  lemma ChildPaths(t: Tree, list: Path -> seq<string>, d: Path)
    requires Lists(t, list) && IsDirectory(t, d)
    ensures var entries := Map(Child(d), list(d));
            && Distinct(entries)
            && forall p :: p in entries <==> p in t && p != [] && Parent(p) == d
  {
    assert ListsAt(t, list, d);
    var entries := Map(Child(d), list(d));
    forall p
      ensures p in entries <==> p in t && p != [] && Parent(p) == d
    {
      if p in entries {
        var i :| 0 <= i < |entries| && entries[i] == p;
        assert p == d + [list(d)[i]] && list(d)[i] in list(d);
      }
      if p in t && p != [] && Parent(p) == d {
        assert p == d + [p[|p| - 1]];
        var i :| 0 <= i < |list(d)| && list(d)[i] == p[|p| - 1];
        assert entries[i] == p;
      }
    }
    forall i, j | 0 <= i < j < |entries|
      ensures entries[i] != entries[j]
    {
      assert entries[i][|d|] == list(d)[i] && entries[j][|d|] == list(d)[j];
    }
  }

  function IsKeptDirectory(t: Tree, root: Path, mutableRoots: set<string>): Path -> bool {
    p => KeptDirectory(t, root, mutableRoots, p)
  }

  function IsKeptFile(t: Tree, root: Path, mutableRoots: set<string>): Path -> bool {
    p => KeptFile(t, root, mutableRoots, p)
  }

  /** The loop over the entries of one directory. */
  method Scan(t: Tree, root: Path, mutableRoots: set<string>, entries: seq<Path>) returns (r: Result<Walked>)
    requires forall p | p in entries :: p in t
    ensures r.Ok? <==> forall p | p in entries :: !t[p].Special?
    ensures r.Ok? ==> r.value == Walked(Filter(IsKeptDirectory(t, root, mutableRoots), entries),
                                        Filter(IsKeptFile(t, root, mutableRoots), entries))
  {
    var directories: seq<Path>, files: seq<Path> := [], [];
    for i := 0 to |entries|
      invariant directories == Filter(IsKeptDirectory(t, root, mutableRoots), entries[..i])
      invariant files == Filter(IsKeptFile(t, root, mutableRoots), entries[..i])
      invariant forall k | 0 <= k < i :: !t[entries[k]].Special?
    {
      var p := entries[i];
      assert entries[..i + 1][..i] == entries[..i] && entries[..i + 1][i] == p;
      if t[p].Special? {
        return Fail;
      }
      if Kept(root, mutableRoots, p) {
        if t[p].Directory? {
          directories := directories + [p];
        } else {
          files := files + [p];
        }
      }
    }
    assert entries[..|entries|] == entries;
    return Ok(Walked(directories, files));
  }

  // ---------- The whole tree ----------

  /** A directory that was met is either scanned or waiting, and waits only once. */
  ghost predicate StackOk(root: Path, pending: seq<Path>, directories: seq<Path>, done: set<Path>) {
    && Distinct(pending)
    && (forall d :: d == root || d in directories <==> d in done || d in pending)
    && (forall d | d in pending :: d !in done)
  }

  /** The lists hold what the scanned directories contain. */
  ghost predicate ListedOk(t: Tree, root: Path, mutableRoots: set<string>, w: Walked, done: set<Path>) {
    && Distinct(w.directories) && Distinct(w.files)
    && (forall p :: p in w.directories <==> KeptDirectory(t, root, mutableRoots, p) && Parent(p) in done)
    && (forall p :: p in w.files <==> KeptFile(t, root, mutableRoots, p) && Parent(p) in done)
    && (forall p | p in t && p != [] && Parent(p) in done :: !t[p].Special?)
  }

  /** What holds between two turns: `done` are the directories scanned so far. */
  ghost predicate Walking(t: Tree, root: Path, mutableRoots: set<string>, pending: seq<Path>, w: Walked,
                          done: set<Path>) {
    && StackOk(root, pending, w.directories, done)
    && ListedOk(t, root, mutableRoots, w, done)
    && IsDirectory(t, root) && done <= t.Keys
  }

  /** Every kept node is met, level by level. */
  lemma {:induction false} ParentsDone(t: Tree, root: Path, mutableRoots: set<string>, w: Walked, done: set<Path>,
                                       p: Path)
    requires WellFormed(t) && Walking(t, root, mutableRoots, [], w, done)
    requires p in t && Inspected(root, mutableRoots, p)
    ensures Parent(p) in done
    decreases |p|
  {
    var d := Parent(p);
    assert Attached(t, p);
    if d == root {
    } else {
      assert Kept(root, mutableRoots, d);
      assert Inspected(root, mutableRoots, d) by {
        var e := Parent(d);
        assert root <= e;
        if e != root {
          assert e[|root|] == d[|root|];
        }
      }
      ParentsDone(t, root, mutableRoots, w, done, d);
      assert d in w.directories;
    }
  }

  lemma KeptIsInspected(root: Path, mutableRoots: set<string>, p: Path)
    requires Kept(root, mutableRoots, p)
    ensures Inspected(root, mutableRoots, p)
  {
    var d := Parent(p);
    assert root <= d;
    if d != root {
      assert d[|root|] == p[|root|];
    }
  }

  lemma DistinctAppend(a: seq<Path>, b: seq<Path>)
    requires Distinct(a) && Distinct(b) && forall x | x in b :: x !in a
    ensures Distinct(a + b)
  {
    forall i, j | 0 <= i < j < |a + b|
      ensures (a + b)[i] != (a + b)[j]
    {
      if i < |a| <= j {
        assert (a + b)[j] in b;
      }
    }
  }

  /** What a scan of `d` finds was not met before. */
  lemma FoundIsNew(t: Tree, root: Path, mutableRoots: set<string>, pending: seq<Path>, w: Walked, done: set<Path>,
                   d: Path, p: Path)
    requires Walking(t, root, mutableRoots, pending, w, done) && d in pending
    requires root < p && Parent(p) == d
    ensures p !in w.directories && p !in w.files && p !in done && p !in pending && p != d
  {
    assert d !in done;
    assert |p| == |d| + 1;
  }

  lemma StackTurn(root: Path, rest: seq<Path>, d: Path, directories: seq<Path>, done: set<Path>, dirs: seq<Path>)
    requires StackOk(root, rest + [d], directories, done)
    requires Distinct(dirs) && forall p | p in dirs :: p !in done && p !in rest && p != d
    ensures StackOk(root, rest + dirs, directories + dirs, done + {d})
  {
    var pending := rest + [d];
    assert pending[|rest|] == d && d in pending;
    assert d !in rest by {
      forall i | 0 <= i < |rest| ensures rest[i] != d { assert pending[i] != pending[|rest|]; }
    }
    assert Distinct(rest) by {
      forall i, j | 0 <= i < j < |rest| ensures rest[i] != rest[j] { assert pending[i] != pending[j]; }
    }
    DistinctAppend(rest, dirs);
    forall e
      ensures e == root || e in directories + dirs <==> e in done + {d} || e in rest + dirs
    {
      assert e in pending <==> e in rest || e == d;
    }
  }

  lemma ListedTurn(t: Tree, root: Path, mutableRoots: set<string>, w: Walked, done: set<Path>, d: Path,
                   dirs: seq<Path>, files: seq<Path>)
    requires ListedOk(t, root, mutableRoots, w, done) && d !in done
    requires Distinct(dirs) && Distinct(files)
    requires forall p :: p in dirs <==> KeptDirectory(t, root, mutableRoots, p) && Parent(p) == d
    requires forall p :: p in files <==> KeptFile(t, root, mutableRoots, p) && Parent(p) == d
    requires forall p | p in t && p != [] && Parent(p) == d :: !t[p].Special?
    ensures ListedOk(t, root, mutableRoots, Walked(w.directories + dirs, w.files + files), done + {d})
  {
    DistinctAppend(w.directories, dirs);
    DistinctAppend(w.files, files);
  }

  /** One turn: the last pending directory is scanned. */
  lemma WalkTurn(t: Tree, root: Path, mutableRoots: set<string>, rest: seq<Path>, d: Path, w: Walked, done: set<Path>,
                 entries: seq<Path>)
    requires Walking(t, root, mutableRoots, rest + [d], w, done)
    requires Distinct(entries)
    requires forall p :: p in entries <==> p in t && p != [] && Parent(p) == d
    requires forall p | p in entries :: !t[p].Special?
    ensures var dirs := Filter(IsKeptDirectory(t, root, mutableRoots), entries);
            var files := Filter(IsKeptFile(t, root, mutableRoots), entries);
            && d !in done
            && StackOk(root, rest + dirs, w.directories + dirs, done + {d})
            && ListedOk(t, root, mutableRoots, Walked(w.directories + dirs, w.files + files), done + {d})
  {
    var dirs := Filter(IsKeptDirectory(t, root, mutableRoots), entries);
    var files := Filter(IsKeptFile(t, root, mutableRoots), entries);
    FilterMembers(IsKeptDirectory(t, root, mutableRoots), entries);
    FilterMembers(IsKeptFile(t, root, mutableRoots), entries);
    assert d in rest + [d];
    forall p | p in dirs
      ensures p !in done && p !in rest && p != d
    {
      assert p in entries && root < p;
      FoundIsNew(t, root, mutableRoots, rest + [d], w, done, d, p);
    }
    StackTurn(root, rest, d, w.directories, done, dirs);
    ListedTurn(t, root, mutableRoots, w, done, d, dirs, files);
  }

  /** The stack walk lists exactly the kept descendants, whatever the order of the listings. */
  method Walk(t: Tree, root: Path, mutableRoots: set<string>, list: Path -> seq<string>) returns (r: Result<Walked>)
    requires WellFormed(t) && Lists(t, list)
    ensures r.Ok? <==> Plain(t, root, mutableRoots)
    ensures r.Ok? ==> IsWalk(t, root, mutableRoots, r.value)
  {
    if !IsDirectory(t, root) {
      return Fail;
    }
    var pending := [root];
    var w := Walked([], []);
    ghost var done: set<Path> := {};
    while pending != []
      invariant Walking(t, root, mutableRoots, pending, w, done)
      decreases t.Keys - done
    {
      var d := pending[|pending| - 1];
      assert pending == pending[..|pending| - 1] + [d] && d in pending;
      pending := pending[..|pending| - 1];
      ChildPaths(t, list, d);
      var entries := Map(Child(d), list(d));
      var found := Scan(t, root, mutableRoots, entries);
      if found.Fail? {
        var p :| p in entries && t[p].Special?;
        assert Inspected(root, mutableRoots, p);
        return Fail;
      }
      WalkTurn(t, root, mutableRoots, pending, d, w, done, entries);
      pending := pending + found.value.directories;
      w := Walked(w.directories + found.value.directories, w.files + found.value.files);
      done := done + {d};
    }
    WalkFinished(t, root, mutableRoots, w, done);
    return Ok(w);
  }

  lemma WalkFinished(t: Tree, root: Path, mutableRoots: set<string>, w: Walked, done: set<Path>)
    requires WellFormed(t) && IsDirectory(t, root) && Walking(t, root, mutableRoots, [], w, done)
    ensures Plain(t, root, mutableRoots) && IsWalk(t, root, mutableRoots, w)
  {
    forall p | p in t && Inspected(root, mutableRoots, p)
      ensures !t[p].Special? && Parent(p) in done
    {
      ParentsDone(t, root, mutableRoots, w, done, p);
    }
    forall p | KeptDirectory(t, root, mutableRoots, p) || KeptFile(t, root, mutableRoots, p)
      ensures Parent(p) in done
    {
      KeptIsInspected(root, mutableRoots, p);
    }
  }
}
