/** Freezing the inputs of a release: a snapshot of the package tree and of the installer script. */
module FrozenInputs {
  import opened Wrappers
  import opened Utf8
  import opened Sorting
  import opened Paths
  import opened FileSystems
  import opened TreeWalks
  import opened Inventories
  import opened CopyTree

  /** How the entries of a directory are listed, whatever the tree. */
  type Listing = Tree -> Path -> seq<string>

  ghost predicate ListsTrees(listing: Listing) {
    forall t | WellFormed(t) :: Lists(t, listing(t))
  }

  /** `file_content_digest`: size and hash. */
  function ContentDigest(content: seq<Byte>, hash: Hash): (nat, string) {
    (|content|, hash(content))
  }

  ghost predicate IsInventory(t: Tree, root: Path, hash: Hash, inventory: Inventory) {
    Plain(t, root, {}) && exists w :: IsWalk(t, root, {}, w) && inventory == InventoryOfWalk(t, root, w, hash)
  }

  predicate IsScript(t: Tree, script: Path, hash: Hash, digest: (nat, string)) {
    script in t && t[script].File? && ContentDigest(t[script].content, hash) == digest
  }

  const SNAPSHOT := "s"
  const PACKAGE := "p"
  const SCRIPT := "modori.iss"

  lemma NamesAreNames(snapshot: string, package: string, script: string)
    requires snapshot == SNAPSHOT && package == PACKAGE && script == SCRIPT
    ensures IsName(snapshot) && IsName(package) && IsName(script) && package != script
  {
    assert |package| != |script|;
  }

  // ---------- A tree that lies apart from what changes ----------

  lemma SameSource(t: Tree, now: Tree, root: Path, snapshot: Path)
    requires OnlyUnder(t, now, snapshot) && !(snapshot <= root) && !(root <= snapshot)
    ensures SameTree(t, root, now, root)
  {
    forall q
      ensures SameTreeAt(t, root, now, root, q)
    {
      Apart(root, snapshot, q);
    }
  }

  lemma SameWalk(t: Tree, now: Tree, root: Path, w: Walked)
    requires SameTree(t, root, now, root) && IsWalk(t, root, {}, w)
    ensures IsWalk(now, root, {}, w) && (Plain(t, root, {}) ==> Plain(now, root, {}))
  {
    assert SameTreeAt(t, root, now, root, []) && root + [] == root;
    forall p | root <= p
      ensures (p in now <==> p in t) && (p in t ==> now[p] == t[p])
    {
      assert SameTreeAt(t, root, now, root, p[|root|..]) && root + p[|root|..] == p;
    }
  }

  lemma SameInventory(t: Tree, now: Tree, root: Path, hash: Hash, inventory: Inventory)
    requires WellFormed(t) && WellFormed(now) && SameTree(t, root, now, root) && IsInventory(t, root, hash, inventory)
    ensures IsInventory(now, root, hash, inventory)
  {
    var w :| IsWalk(t, root, {}, w) && inventory == InventoryOfWalk(t, root, w, hash);
    SameWalk(t, now, root, w);
    SameTreeSameInventory(t, root, w, now, root, w, hash);
  }

  lemma SameTreeBack(t: Tree, root: Path, now: Tree)
    requires SameTree(t, root, now, root)
    ensures SameTree(now, root, t, root)
  {
    forall q
      ensures SameTreeAt(now, root, t, root, q)
    {
      assert SameTreeAt(t, root, now, root, q);
    }
  }

  /** `inventory_tree` finds the inventory exactly when it is the one of the tree. */
  method HasInventory(t: Tree, root: Path, listing: Listing, hash: Hash, inventory: Inventory) returns (ok: bool)
    requires WellFormed(t) && ListsTrees(listing)
    ensures ok <==> IsInventory(t, root, hash, inventory)
  {
    assert Lists(t, listing(t));
    ghost var w: Walked;
    var digest: string;
    var r: Result<Inventory>;
    r, digest, w := InventoryTree(t, root, listing(t), hash);
    ok := r.Ok? && r.value == inventory;
    if r.Ok? && IsInventory(t, root, hash, inventory) {
      ghost var v :| IsWalk(t, root, {}, v) && inventory == InventoryOfWalk(t, root, v, hash);
      SameTreeItself(t, root);
      SameTreeSameInventory(t, root, v, t, root, w, hash);
    }
  }

  lemma SameTreeItself(t: Tree, root: Path)
    ensures SameTree(t, root, t, root)
  {
    forall q
      ensures SameTreeAt(t, root, t, root, q)
    {
    }
  }

  function Under(root: Path): Path -> Path {
    q => root + q
  }

  /** A repeated tree can be walked like the first one. */
  lemma MovedWalk(t: Tree, root: Path, u: Tree, root': Path, w: Walked) returns (v: Walked)
    requires WellFormed(t) && SameTree(t, root, u, root') && IsWalk(t, root, {}, w)
    ensures IsWalk(u, root', {}, v)
  {
    WalkRelative(t, root, w);
    var dirs, files := Map(RelativeTo(root), w.directories), Map(RelativeTo(root), w.files);
    v := Walked(Map(Under(root'), dirs), Map(Under(root'), files));
    MovedList(root', dirs);
    MovedList(root', files);
    forall p
      ensures p in v.directories <==> KeptDirectory(u, root', {}, p)
      ensures p in v.files <==> KeptFile(u, root', {}, p)
    {
      if root' <= p {
        assert SameTreeAt(t, root, u, root', p[|root'|..]) && root' + p[|root'|..] == p;
      }
    }
  }

  lemma MovedList(root: Path, ps: seq<Path>)
    requires Distinct(ps)
    ensures Distinct(Map(Under(root), ps))
    ensures forall p :: p in Map(Under(root), ps) <==> root <= p && p[|root|..] in ps
  {
    var moved := Map(Under(root), ps);
    forall i, j | 0 <= i < j < |ps|
      ensures moved[i] != moved[j]
    {
      SameEnd(root, ps[i], ps[j]);
    }
    forall p
      ensures p in moved <==> root <= p && p[|root|..] in ps
    {
      if p in moved {
        var i :| 0 <= i < |moved| && moved[i] == p;
        assert p[|root|..] == ps[i];
      }
      if root <= p && p[|root|..] in ps {
        var i :| 0 <= i < |ps| && ps[i] == p[|root|..];
        assert moved[i] == p;
      }
    }
  }

  lemma MovedInventory(t: Tree, root: Path, u: Tree, root': Path, hash: Hash, inventory: Inventory)
    requires WellFormed(t) && WellFormed(u) && SameTree(t, root, u, root') && IsInventory(t, root, hash, inventory)
    ensures IsInventory(u, root', hash, inventory)
  {
    var w :| IsWalk(t, root, {}, w) && inventory == InventoryOfWalk(t, root, w, hash);
    var v := MovedWalk(t, root, u, root', w);
    SameTreePlain(t, root, u, root');
    SameTreeSameInventory(t, root, w, u, root', v, hash);
  }

  // ---------- Taking the snapshot ----------

  /** The snapshot lies neither in the package nor over the script. */
  ghost predicate Separate(package: Path, script: Path, snapshot: Path) {
    !(package <= snapshot) && !(snapshot <= script)
  }

  ghost predicate Room(t: Tree, snapshot: Path) {
    snapshot != [] && snapshot !in t && IsDirectory(t, Parent(snapshot))
  }

  predicate IsFile(t: Tree, p: Path) {
    p in t && t[p].File?
  }

  lemma NotBelow(t: Tree, p: Path, snapshot: Path)
    requires WellFormed(t) && snapshot !in t && p in t
    ensures !(snapshot <= p)
  {
    assert snapshot <= p ==> snapshot + p[|snapshot|..] == p;
    if snapshot <= p {
      NothingUnder(t, snapshot, p[|snapshot|..]);
    }
  }

  lemma PackageWalk(t: Tree, t1: Tree, package: Path, snapshot: Path, before: Inventory, hash: Hash)
    returns (w: Walked)
    requires WellFormed(t) && WellFormed(t1) && IsPath(snapshot) && Room(t, snapshot) && !(package <= snapshot)
    requires t1 == t[snapshot := Directory] && IsInventory(t, package, hash, before)
    ensures SameTree(t, package, t1, package)
    ensures Copyable(t1, package, snapshot + [PACKAGE], w) && before == InventoryOfWalk(t1, package, w, hash)
  {
    NotBelow(t, package, snapshot);
    SameSource(t, t1, package, snapshot);
    w :| IsWalk(t, package, {}, w) && before == InventoryOfWalk(t, package, w, hash);
    SameWalk(t, t1, package, w);
    SameTreeSameInventory(t, package, w, t1, package, w, hash);
    NamesAreNames(SNAPSHOT, PACKAGE, SCRIPT);
    NothingUnder(t, snapshot, [PACKAGE]);
    assert Parent(snapshot + [PACKAGE]) == snapshot;
    PrefixOfLonger(snapshot + [PACKAGE], package);
  }

  lemma Siblings(d: Path, a: string, b: string)
    requires a != b
    ensures !(d + [a] <= d + [b]) && !(d + [b] <= d + [a])
  {
    assert (d + [a])[|d|] == a && (d + [b])[|d|] == b;
  }

  lemma LongerPrefix(d: Path, name: string, p: Path)
    ensures d + [name] <= p ==> d <= p
  {
  }

  lemma InSnapshot(t: Tree, t1: Tree, now: Tree, snapshot: Path, package: string, script: string)
    requires WellFormed(t) && snapshot !in t && t1 == t[snapshot := Directory] && package != script
    requires OnlyUnder(t1, now, snapshot + [package])
    ensures OnlyUnder(t, now, snapshot) && IsDirectory(now, snapshot) && snapshot + [script] !in now
  {
    NothingUnder(t, snapshot, [script]);
    Siblings(snapshot, package, script);
    forall p | !(snapshot <= p)
      ensures (p in now <==> p in t) && (p in now ==> now[p] == t[p])
    {
      LongerPrefix(snapshot, package, p);
    }
  }

  /** The package copied into the new snapshot directory. */
  method SnapshotPackage(fs: FileSystem, package: Path, snapshot: Path, before: Inventory, ghost hash: Hash)
    returns (ok: bool)
    requires WellFormed(fs.nodes) && IsPath(snapshot) && Room(fs.nodes, snapshot)
    modifies fs
    ensures WellFormed(fs.nodes) && OnlyUnder(old(fs.nodes), fs.nodes, snapshot)
    ensures IsDirectory(fs.nodes, snapshot) && snapshot + [SCRIPT] !in fs.nodes
    ensures !(package <= snapshot) && ok ==> package in old(fs.nodes)
    ensures !(package <= snapshot) && IsInventory(old(fs.nodes), package, hash, before) ==>
              ok && SameTree(old(fs.nodes), package, fs.nodes, snapshot + [PACKAGE])
  {
    ghost var t := fs.nodes;
    var made := fs.Mkdir(snapshot);
    ghost var t1 := fs.nodes;
    ghost var w := Walked([], []);
    ghost var fits := !(package <= snapshot) && IsInventory(t, package, hash, before);
    NamesAreNames(SNAPSHOT, PACKAGE, SCRIPT);
    NothingUnder(t, snapshot, [PACKAGE]);
    if fits {
      w := PackageWalk(t, t1, package, snapshot, before, hash);
    }
    ok := CopyInventoryTree(fs, package, snapshot + [PACKAGE], before, w, hash);
    InSnapshot(t, t1, fs.nodes, snapshot, PACKAGE, SCRIPT);
    if fits {
      SameTreeThrough(t, t1, package, fs.nodes, snapshot + [PACKAGE]);
    }
  }

  lemma SameTreeThrough(t: Tree, u: Tree, root: Path, now: Tree, root': Path)
    requires SameTree(t, root, u, root) && SameTree(u, root, now, root')
    ensures SameTree(t, root, now, root')
  {
    forall q
      ensures SameTreeAt(t, root, now, root', q)
    {
      assert SameTreeAt(t, root, u, root, q) && SameTreeAt(u, root, now, root', q);
    }
  }

  /** The snapshot directory with the package and the script. */
  method TakeSnapshot(fs: FileSystem, package: Path, script: Path, snapshot: Path, before: Inventory, ghost hash: Hash)
    returns (ok: bool)
    requires WellFormed(fs.nodes) && IsPath(snapshot)
    modifies fs
    ensures WellFormed(fs.nodes) && OnlyUnder(old(fs.nodes), fs.nodes, snapshot)
    ensures ok ==> Room(old(fs.nodes), snapshot)
    ensures Separate(package, script, snapshot) && ok ==>
              package in old(fs.nodes) && IsFile(old(fs.nodes), script)
              && snapshot + [SCRIPT] in fs.nodes && fs.nodes[snapshot + [SCRIPT]] == old(fs.nodes)[script]
    ensures && Separate(package, script, snapshot) && Room(old(fs.nodes), snapshot)
            && IsInventory(old(fs.nodes), package, hash, before) && IsFile(old(fs.nodes), script) ==>
              ok && SameTree(old(fs.nodes), package, fs.nodes, snapshot + [PACKAGE])
  {
    ghost var t := fs.nodes;
    if snapshot == [] || snapshot in fs.nodes || !IsDirectory(fs.nodes, Parent(snapshot)) {
      return false;
    }
    ok := SnapshotPackage(fs, package, snapshot, before, hash);
    ghost var t1 := fs.nodes;
    if !ok || !IsFile(fs.nodes, script) {
      return false;
    }
    NamesAreNames(SNAPSHOT, PACKAGE, SCRIPT);
    assert Parent(snapshot + [SCRIPT]) == snapshot;
    ok := fs.WriteFile(snapshot + [SCRIPT], fs.nodes[script].content);
    Siblings(snapshot, PACKAGE, SCRIPT);
    SameSource(t1, fs.nodes, snapshot + [PACKAGE], snapshot + [SCRIPT]);
    if SameTree(t, package, t1, snapshot + [PACKAGE]) {
      SameTreeOn(t, package, t1, fs.nodes, snapshot + [PACKAGE]);
    }
  }

  lemma SameTreeOn(t: Tree, root: Path, u: Tree, now: Tree, root': Path)
    requires SameTree(t, root, u, root') && SameTree(u, root', now, root')
    ensures SameTree(t, root, now, root')
  {
    forall q
      ensures SameTreeAt(t, root, now, root', q)
    {
      assert SameTreeAt(t, root, u, root', q) && SameTreeAt(u, root', now, root', q);
    }
  }

  // ---------- Checking it ----------

  /** Everything is as it was listed, and there is room for the snapshot. */
  ghost predicate Ready(t: Tree, package: Path, script: Path, snapshot: Path, hash: Hash, before: Inventory,
                        scriptBefore: (nat, string)) {
    Room(t, snapshot) && IsInventory(t, package, hash, before) && IsScript(t, script, hash, scriptBefore)
  }

  /** `freeze_release_inputs`, after its own first inventory: the tree may have changed since. To a snapshot apart from
      its sources it succeeds exactly when the package still has the listed directories, files, sizes and hashes, the
      script its size and hash, and there is room; the snapshot then repeats both. */
  method FreezeReleaseInputs(fs: FileSystem, package: Path, script: Path, staging: Path, before: Inventory,
                             scriptBefore: (nat, string), listing: Listing, hash: Hash)
    returns (ok: bool)
    requires WellFormed(fs.nodes) && IsPath(staging) && ListsTrees(listing)
    modifies fs
    ensures WellFormed(fs.nodes) && OnlyUnder(old(fs.nodes), fs.nodes, staging + [SNAPSHOT])
    ensures var snapshot := staging + [SNAPSHOT];
            Separate(package, script, snapshot) ==>
              && (ok <==> Ready(old(fs.nodes), package, script, snapshot, hash, before, scriptBefore))
              && (ok ==> && SameTree(old(fs.nodes), package, fs.nodes, snapshot + [PACKAGE])
                         && snapshot + [SCRIPT] in fs.nodes
                         && fs.nodes[snapshot + [SCRIPT]] == old(fs.nodes)[script])
  {
    ghost var t := fs.nodes;
    var snapshot := staging + [SNAPSHOT];
    NamesAreNames(SNAPSHOT, PACKAGE, SCRIPT);
    ok := TakeSnapshot(fs, package, script, snapshot, before, hash);
    if !ok {
      return false;
    }
    ok := CheckSnapshot(fs.nodes, package, script, snapshot, before, scriptBefore, listing, hash);
    if Separate(package, script, snapshot) {
      CheckedIsReady(t, fs.nodes, package, script, snapshot, hash, before, scriptBefore);
    }
  }

  /** The four comparisons after copying. */
  ghost predicate Checked(now: Tree, package: Path, script: Path, snapshot: Path, hash: Hash, before: Inventory,
                          scriptBefore: (nat, string)) {
    && IsInventory(now, package, hash, before) && IsScript(now, script, hash, scriptBefore)
    && IsInventory(now, snapshot + [PACKAGE], hash, before)
    && IsScript(now, snapshot + [SCRIPT], hash, scriptBefore)
  }

  method CheckSnapshot(now: Tree, package: Path, script: Path, snapshot: Path, before: Inventory,
                       scriptBefore: (nat, string), listing: Listing, hash: Hash)
    returns (ok: bool)
    requires WellFormed(now) && ListsTrees(listing)
    ensures ok <==> Checked(now, package, script, snapshot, hash, before, scriptBefore)
  {
    ok := HasInventory(now, package, listing, hash, before);
    if !ok || !IsScript(now, script, hash, scriptBefore) {
      return false;
    }
    ok := HasInventory(now, snapshot + [PACKAGE], listing, hash, before);
    ok := ok && IsScript(now, snapshot + [SCRIPT], hash, scriptBefore);
  }

  /** Apart from its sources, a snapshot passes the comparisons exactly when they are as listed. */
  lemma CheckedIsReady(t: Tree, now: Tree, package: Path, script: Path, snapshot: Path, hash: Hash, before: Inventory,
                       scriptBefore: (nat, string))
    requires WellFormed(t) && WellFormed(now) && OnlyUnder(t, now, snapshot) && Room(t, snapshot)
    requires Separate(package, script, snapshot) && package in t && IsFile(t, script)
    requires snapshot + [SCRIPT] in now && now[snapshot + [SCRIPT]] == t[script]
    requires IsInventory(t, package, hash, before) ==> SameTree(t, package, now, snapshot + [PACKAGE])
    ensures Checked(now, package, script, snapshot, hash, before, scriptBefore) <==>
            Ready(t, package, script, snapshot, hash, before, scriptBefore)
  {
    NotBelow(t, package, snapshot);
    SameSource(t, now, package, snapshot);
    SameTreeBack(t, package, now);
    if IsInventory(now, package, hash, before) {
      SameInventory(now, t, package, hash, before);
    }
    if IsInventory(t, package, hash, before) {
      SameInventory(t, now, package, hash, before);
      MovedInventory(t, package, now, snapshot + [PACKAGE], hash, before);
    }
  }
}
