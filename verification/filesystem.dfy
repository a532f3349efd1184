/** A file system as a map from paths to nodes, with the operations the scripts perform on it. */
module FileSystems {
  import opened Sorting
  import opened Utf8
  import opened Paths

  /** `Special` is anything the scripts refuse to touch: links, junctions, devices. */
  datatype Node = Directory | File(content: seq<Byte>) | Special

  type Tree = map<Path, Node>

  function Parent(p: Path): Path
    requires p != []
  {
    p[..|p| - 1]
  }

  predicate IsDirectory(t: Tree, p: Path) {
    p in t && t[p].Directory?
  }

  /** `p` is a proper path standing in an existing directory. */
  predicate Attached(t: Tree, p: Path) {
    IsPath(p) && (p != [] ==> IsDirectory(t, Parent(p)))
  }

  ghost predicate WellFormed(t: Tree) {
    IsDirectory(t, []) && forall p | p in t :: Attached(t, p)
  }

  predicate HasChildren(t: Tree, d: Path) {
    exists p | p in t :: p != [] && Parent(p) == d
  }

  /** Nothing outside `root` has changed. */
  ghost predicate OnlyUnder(before: Tree, after: Tree, root: Path) {
    forall p | !(root <= p) :: (p in after <==> p in before) && (p in after ==> after[p] == before[p])
  }

  /** `mkdir(parents=True)`: every missing directory on the way to `p`. */
  function WithDirectories(t: Tree, p: Path): Tree {
    if p in t || p == [] then t else WithDirectories(t, Parent(p))[p := Directory]
  }

  /** The nearest existing node on the way to `p` is a directory. */
  predicate Reachable(t: Tree, p: Path) {
    if p in t then t[p].Directory? else p != [] && Reachable(t, Parent(p))
  }

  /** Only the way to `p` is added, and `p` is a directory at the end. */
  lemma {:induction false} MadeDirectories(t: Tree, p: Path)
    ensures Reachable(t, p) ==> IsDirectory(WithDirectories(t, p), p)
    ensures forall q | q in WithDirectories(t, p) :: q in t || |q| <= |p|
    ensures forall q | q in t :: q in WithDirectories(t, p) && WithDirectories(t, p)[q] == t[q]
    decreases |p|
  {
    if p !in t && p != [] {
      MadeDirectories(t, Parent(p));
    }
  }

  /** `list(d)` enumerates the names in `d`, each once, in whatever order. */
  ghost predicate ListsAt(t: Tree, list: Path -> seq<string>, d: Path) {
    IsDirectory(t, d) ==>
      Distinct(list(d)) && forall name :: name in list(d) <==> d + [name] in t
  }

  ghost predicate Lists(t: Tree, list: Path -> seq<string>) {
    forall d :: ListsAt(t, list, d)
  }

  /** Nothing stands under a missing path. */
  lemma {:induction false} NothingUnder(t: Tree, p: Path, q: Path)
    requires WellFormed(t) && p !in t
    ensures p + q !in t
    decreases |q|
  {
    if q == [] {
      assert p + q == p;
    } else if p + q in t {
      assert Attached(t, p + q);
      assert Parent(p + q) == p + Parent(q);
      NothingUnder(t, p, Parent(q));
    }
  }

  lemma AddDirectory(t: Tree, p: Path)
    requires WellFormed(t) && p !in t && Attached(t, p)
    ensures WellFormed(t[p := Directory])
  {
    var u := t[p := Directory];
    forall q | q in u
      ensures Attached(u, q)
    {
      if q != p {
        assert Attached(t, q);
      }
    }
  }

  lemma SetFile(t: Tree, p: Path, content: seq<Byte>)
    requires WellFormed(t) && Attached(t, p) && (p in t ==> !t[p].Directory?) && p != []
    ensures WellFormed(t[p := File(content)])
  {
    var u := t[p := File(content)];
    forall q | q in u
      ensures Attached(u, q)
    {
      if q != p {
        assert Attached(t, q);
      }
    }
  }

  lemma RemoveLeaf(t: Tree, p: Path)
    requires WellFormed(t) && p != [] && !HasChildren(t, p)
    ensures WellFormed(t - {p})
  {
    var u := t - {p};
    forall q | q in u
      ensures Attached(u, q)
    {
      assert Attached(t, q);
    }
  }

  class FileSystem {
    var nodes: Tree

    constructor (nodes: Tree)
      ensures this.nodes == nodes
    {
      this.nodes := nodes;
    }

    /** `p.mkdir()`. */
    method Mkdir(p: Path) returns (ok: bool)
      requires WellFormed(nodes) && IsPath(p)
      modifies this
      ensures WellFormed(nodes)
      ensures ok <==> p !in old(nodes) && p != [] && IsDirectory(old(nodes), Parent(p))
      ensures nodes == if ok then old(nodes)[p := Directory] else old(nodes)
    {
      ok := p !in nodes && p != [] && IsDirectory(nodes, Parent(p));
      if ok {
        AddDirectory(nodes, p);
        nodes := nodes[p := Directory];
      }
    }

    /** `p.mkdir(parents=True, exist_ok=existOk)`. */
    method MakeDirs(p: Path, existOk: bool) returns (ok: bool)
      requires WellFormed(nodes) && IsPath(p)
      modifies this
      ensures WellFormed(nodes)
      ensures ok <==> Reachable(old(nodes), p) && (p in old(nodes) ==> existOk)
      ensures nodes == if ok then WithDirectories(old(nodes), p) else old(nodes)
      decreases |p|
    {
      ok := Mkdir(p);
      if !ok {
        if p in nodes {
          ok := existOk && nodes[p].Directory?;
        } else if Parent(p) !in nodes {
          MadeDirectories(nodes, Parent(p));
          ok := MakeDirs(Parent(p), true);
          if ok {
            ok := Mkdir(p);
          }
        }
      }
    }

    /** Writes `p`, replacing a file that is there. */
    method WriteFile(p: Path, content: seq<Byte>) returns (ok: bool)
      requires WellFormed(nodes) && IsPath(p)
      modifies this
      ensures WellFormed(nodes)
      ensures ok <==> p != [] && IsDirectory(old(nodes), Parent(p)) && (p in old(nodes) ==> old(nodes)[p].File?)
      ensures nodes == if ok then old(nodes)[p := File(content)] else old(nodes)
    {
      ok := p != [] && IsDirectory(nodes, Parent(p)) && (p in nodes ==> nodes[p].File?);
      if ok {
        SetFile(nodes, p, content);
        nodes := nodes[p := File(content)];
      }
    }

    /** `open(p, "xb")`: writes `p` only if nothing is there. */
    method CreateFile(p: Path, content: seq<Byte>) returns (ok: bool)
      requires WellFormed(nodes) && IsPath(p)
      modifies this
      ensures WellFormed(nodes)
      ensures ok <==> p !in old(nodes) && IsDirectory(old(nodes), Parent(p))
      ensures nodes == if ok then old(nodes)[p := File(content)] else old(nodes)
    {
      ok := p !in nodes && IsDirectory(nodes, Parent(p));
      if ok {
        SetFile(nodes, p, content);
        nodes := nodes[p := File(content)];
      }
    }

    /** `p.unlink()`. */
    method Unlink(p: Path) returns (ok: bool)
      requires WellFormed(nodes)
      modifies this
      ensures WellFormed(nodes)
      ensures ok <==> p in old(nodes) && !old(nodes)[p].Directory?
      ensures nodes == if ok then old(nodes) - {p} else old(nodes)
    {
      ok := p in nodes && !nodes[p].Directory?;
      if ok {
        LeafHasNoChildren(nodes, p);
        RemoveLeaf(nodes, p);
        nodes := nodes - {p};
      }
    }

    /** `p.rmdir()`: only an empty directory can go. */
    method Rmdir(p: Path) returns (ok: bool)
      requires WellFormed(nodes)
      modifies this
      ensures WellFormed(nodes)
      ensures ok <==> p != [] && IsDirectory(old(nodes), p) && !HasChildren(old(nodes), p)
      ensures nodes == if ok then old(nodes) - {p} else old(nodes)
    {
      ok := p != [] && IsDirectory(nodes, p) && !HasChildren(nodes, p);
      if ok {
        RemoveLeaf(nodes, p);
        nodes := nodes - {p};
      }
    }
  }

  lemma LeafHasNoChildren(t: Tree, p: Path)
    requires WellFormed(t) && p in t && !t[p].Directory?
    ensures !HasChildren(t, p) && p != []
  {
    forall q | q in t && q != []
      ensures Parent(q) != p
    {
      assert Attached(t, q);
    }
  }
}
