/** Publishing the three output files of a run: the authoritative JSON comes last. */
module BenchmarkOutputs {
  import opened Wrappers
  import opened Utf8

  type Files = map<string, seq<Byte>>

  /** The result file, its checksum sidecar and its summary, with the token that makes temporary names fresh. */
  datatype Outputs = Outputs(json: string, raw: seq<Byte>, sidecarBytes: seq<Byte>, summaryBytes: seq<Byte>,
                             token: string)
  {
    /** The order of `targets`. */
    function Target(i: nat): string
      requires i < 3
    {
      if i == 0 then json
      else if i == 1 then json + ".sha256"
      else json[..if |json| >= 5 then |json| - 5 else 0] + ".summary-ko.txt"
    }

    function Payload(i: nat): seq<Byte>
      requires i < 3
    {
      if i == 0 then raw else if i == 1 then sidecarBytes else summaryBytes
    }

    function Temporary(i: nat): string
      requires i < 3
    {
      "." + Target(i) + "." + token + ".tmp"
    }

    /** Sidecar, summary, and only then the JSON. */
    function Order(k: nat): (i: nat)
      requires k < 3
      ensures i < 3
    {
      if k == 0 then 1 else if k == 1 then 2 else 0
    }

    predicate Valid() {
      |json| >= 5 && |token| == 32
    }

    predicate IsTarget(name: string) {
      exists i: nat | i < 3 :: name == Target(i)
    }

    predicate IsOwn(name: string) {
      exists i: nat | i < 3 :: name == Target(i) || name == Temporary(i)
    }

    /** All six names are different. */
    lemma NamesApart(i: nat, j: nat)
      requires Valid() && i < 3 && j < 3
      ensures Target(i) == Target(j) ==> i == j
      ensures Temporary(i) == Temporary(j) ==> i == j
      ensures Target(i) != Temporary(j)
    {
      assert |Target(i)| == |json| + (if i == 0 then 0 else if i == 1 then 7 else 10);
      assert |Target(j)| == |json| + (if j == 0 then 0 else if j == 1 then 7 else 10);
      assert |Temporary(i)| == |Target(i)| + 38 && |Temporary(j)| == |Target(j)| + 38;
    }
  }

  /** Where the disk fails: opening, after some bytes of writing, renaming, unlinking. */
  datatype Disk = Disk(opens: nat -> bool, writes: nat -> Option<nat>, moves: nat -> bool, unlinks: string -> bool)

  /** `RolledBack` is the runner error; `RollbackFailed` is an error raised while rolling back. */
  datatype Ending = Published | Refused | RolledBack | RollbackFailed

  // ---------- The two promises about every state ----------

  /** A visible result comes with its complete sidecar and summary. */
  ghost predicate Authoritative(o: Outputs, files: Files) {
    o.Target(0) in files ==> forall i: nat | i < 3 :: o.Target(i) in files && files[o.Target(i)] == o.Payload(i)
  }

  /** Nothing but the six names is touched. */
  ghost predicate Untouched(o: Outputs, before: Files, files: Files) {
    forall name | !o.IsOwn(name) ::
      (name in files <==> name in before) && (name in files ==> files[name] == before[name])
  }

  ghost predicate StateOk(o: Outputs, before: Files, files: Files) {
    Authoritative(o, files) && Untouched(o, before, files)
  }

  /** No own name is visible at the start. */
  ghost predicate Clear(o: Outputs, files: Files) {
    forall name | o.IsOwn(name) :: name !in files
  }

  function WithTargets(o: Outputs, files: Files): Files {
    files[o.Target(0) := o.Payload(0)][o.Target(1) := o.Payload(1)][o.Target(2) := o.Payload(2)]
  }

  /** The output directory; `history` holds every state it has been in. */
  class OutputDirectory {
    var files: Files
    ghost var history: seq<Files>

    constructor (files: Files)
      ensures this.files == files && history == [files]
    {
      this.files := files;
      history := [files];
    }

    /** Every state since the beginning keeps both promises. */
    ghost predicate Kept(o: Outputs, before: Files)
      reads this
    {
      && history != [] && history[|history| - 1] == files
      && forall i | 0 <= i < |history| :: StateOk(o, before, history[i])
    }

    method Set(name: string, content: seq<Byte>)
      modifies this
      ensures files == old(files)[name := content] && history == old(history) + [files]
    {
      files := files[name := content];
      history := history + [files];
    }

    /** `os.replace`: atomic. */
    method Replace(source: string, target: string)
      requires source in files
      modifies this
      ensures files == (old(files) - {source})[target := old(files)[source]] && history == old(history) + [files]
    {
      files := (files - {source})[target := files[source]];
      history := history + [files];
    }

    method Unlink(name: string)
      modifies this
      ensures files == old(files) - {name} && history == old(history) + [files]
    {
      files := files - {name};
      history := history + [files];
    }
  }

  // ---------- Writing ----------

  /** No target is visible yet, and the first `i` temporary files are complete. */
  ghost predicate Writing(o: Outputs, before: Files, files: Files, i: nat) {
    && Untouched(o, before, files)
    && (forall j: nat | j < 3 :: o.Target(j) !in files)
    && (forall j: nat | j < 3 && j < i :: o.Temporary(j) in files && files[o.Temporary(j)] == o.Payload(j))
    && (forall j: nat | i <= j < 3 :: o.Temporary(j) !in files)
  }

  /** The first `k` files in publication order are in place, the others wait under their temporary names. */
  ghost predicate Moving(o: Outputs, before: Files, files: Files, k: nat) {
    && Untouched(o, before, files)
    && (forall m: nat | m < 3 && m < k :: var i := o.Order(m);
          o.Temporary(i) !in files && o.Target(i) in files && files[o.Target(i)] == o.Payload(i))
    && (forall m: nat | k <= m < 3 :: var i := o.Order(m);
          o.Target(i) !in files && o.Temporary(i) in files && files[o.Temporary(i)] == o.Payload(i))
  }

  /** Rolling back: the JSON is not visible. */
  ghost predicate Undoing(o: Outputs, before: Files, files: Files) {
    Untouched(o, before, files) && o.Target(0) !in files
  }

  lemma SetTemporary(o: Outputs, before: Files, files: Files, i: nat, content: seq<Byte>)
    requires o.Valid() && i < 3 && Untouched(o, before, files) && forall j: nat | j < 3 :: o.Target(j) !in files
    ensures var now := files[o.Temporary(i) := content];
            && Untouched(o, before, now) && (forall j: nat | j < 3 :: o.Target(j) !in now)
            && StateOk(o, before, now) && Undoing(o, before, now)
  {
    forall j: nat | j < 3
      ensures o.Target(j) != o.Temporary(i)
    {
      o.NamesApart(j, i);
    }
  }

  lemma WritingStep(o: Outputs, before: Files, files: Files, i: nat, now: Files)
    requires o.Valid() && i < 3 && Writing(o, before, files, i) && now == files[o.Temporary(i) := o.Payload(i)]
    ensures Writing(o, before, now, i + 1)
  {
    SetTemporary(o, before, files, i, o.Payload(i));
    forall j: nat | j < 3 && j != i
      ensures o.Temporary(j) != o.Temporary(i)
    {
      o.NamesApart(j, i);
    }
  }

  lemma MovingStep(o: Outputs, before: Files, files: Files, k: nat, now: Files)
    requires o.Valid() && k < 3 && Moving(o, before, files, k)
    requires var i := o.Order(k);
             now == (files - {o.Temporary(i)})[o.Target(i) := files[o.Temporary(i)]]
    ensures Moving(o, before, now, k + 1) && StateOk(o, before, now)
  {
    var i := o.Order(k);
    forall m: nat | m < 3
      ensures m != k ==> o.Target(o.Order(m)) != o.Target(i) && o.Temporary(o.Order(m)) != o.Temporary(i)
      ensures o.Target(o.Order(m)) != o.Temporary(i) && o.Temporary(o.Order(m)) != o.Target(i)
    {
      o.NamesApart(o.Order(m), i);
      o.NamesApart(i, o.Order(m));
    }
    if k < 2 {
      assert o.Order(2) == 0 && o.Target(0) !in now;
    } else {
      assert o.Order(0) == 1 && o.Order(1) == 2 && o.Order(2) == 0;
    }
  }

  /** Creates one temporary file and fills it up to `count` bytes. */
  method FillTemporary(d: OutputDirectory, o: Outputs, i: nat, count: nat, ghost before: Files)
    requires o.Valid() && i < 3 && Writing(o, before, d.files, i) && d.Kept(o, before) && count <= |o.Payload(i)|
    modifies d
    ensures d.Kept(o, before) && d.files == old(d.files)[o.Temporary(i) := o.Payload(i)[..count]]
  {
    SetTemporary(o, before, d.files, i, []);
    d.Set(o.Temporary(i), []);
    SetTemporary(o, before, d.files, i, o.Payload(i)[..count]);
    d.Set(o.Temporary(i), o.Payload(i)[..count]);
  }

  /** Opens, writes and closes one temporary file. */
  method WriteTemporary(d: OutputDirectory, o: Outputs, i: nat, disk: Disk, ghost before: Files) returns (ok: bool)
    requires o.Valid() && i < 3 && Writing(o, before, d.files, i) && d.Kept(o, before)
    modifies d
    ensures d.Kept(o, before)
    ensures ok <==> Written(disk, i)
    ensures ok ==> Writing(o, before, d.files, i + 1)
    ensures !ok ==> Failing(o, before, d.files, if disk.opens(i) then i + 1 else i)
  {
    OnlyTemporaries(o, before, d.files, i);
    if !disk.opens(i) {
      return false;
    }
    ghost var files := d.files;
    var payload := o.Payload(i);
    var limit := disk.writes(i);
    var written := if limit.Some? && limit.value < |payload| then limit.value else |payload|;
    FillTemporary(d, o, i, written, before);
    if disk.writes(i).Some? {
      FailedTemporary(o, before, files, i, payload[..written]);
      return false;
    }
    assert payload[..written] == payload;
    WritingStep(o, before, files, i, d.files);
    return true;
  }

  /** A write has failed: no target is visible, and the temporary files are the first `n`. */
  ghost predicate Failing(o: Outputs, before: Files, files: Files, n: nat) {
    Undoing(o, before, files) && (forall j: nat | j < 3 :: o.Target(j) !in files)
      && Visible(o, files, TemporariesBelow(o, n))
  }

  lemma FailedTemporary(o: Outputs, before: Files, files: Files, i: nat, content: seq<Byte>)
    requires o.Valid() && i < 3 && Writing(o, before, files, i)
    ensures Failing(o, before, files[o.Temporary(i) := content], i + 1)
  {
    SetTemporary(o, before, files, i, content);
    OnlyTemporaries(o, before, files, i);
    OneMoreTemporary(o, files, files[o.Temporary(i) := content], i);
  }

  predicate Written(disk: Disk, i: nat) {
    disk.opens(i) && disk.writes(i).None?
  }

  /** The visible own names are the given ones. */
  ghost predicate Visible(o: Outputs, files: Files, names: set<string>) {
    forall name | o.IsOwn(name) :: name in files <==> name in names
  }

  ghost function TemporariesBelow(o: Outputs, n: nat): set<string> {
    set j: nat | j < n && j < 3 :: o.Temporary(j)
  }

  lemma OnlyTemporaries(o: Outputs, before: Files, files: Files, i: nat)
    requires o.Valid() && i <= 3 && Writing(o, before, files, i)
    ensures Visible(o, files, TemporariesBelow(o, i))
  {
    forall name | o.IsOwn(name)
      ensures name in files <==> name in TemporariesBelow(o, i)
    {
      var j: nat :| j < 3 && (name == o.Target(j) || name == o.Temporary(j));
      if name == o.Target(j) {
        forall k: nat | k < 3
          ensures o.Temporary(k) != name
        {
          o.NamesApart(j, k);
        }
      } else {
        forall k: nat | k < 3 && o.Temporary(k) == name
          ensures k == j
        {
          o.NamesApart(j, k);
        }
      }
    }
  }

  lemma OneMoreTemporary(o: Outputs, files: Files, now: Files, i: nat)
    requires i < 3 && Visible(o, files, TemporariesBelow(o, i))
    requires now.Keys == files.Keys + {o.Temporary(i)}
    ensures Visible(o, now, TemporariesBelow(o, i + 1))
  {
    assert TemporariesBelow(o, i + 1) == TemporariesBelow(o, i) + {o.Temporary(i)};
  }

  /** The first temporary file that is not written, or 3. */
  function FirstUnwritten(disk: Disk): (n: nat)
    ensures n <= 3 && (n < 3 ==> !Written(disk, n)) && forall j: nat | j < n :: Written(disk, j)
  {
    if !Written(disk, 0) then 0 else if !Written(disk, 1) then 1 else if !Written(disk, 2) then 2 else 3
  }

  /** The first rename that fails, or 3. */
  function FirstUnmoved(disk: Disk): (k: nat)
    ensures k <= 3 && (k < 3 ==> !disk.moves(k)) && forall m: nat | m < k :: disk.moves(m)
  {
    if !disk.moves(0) then 0 else if !disk.moves(1) then 1 else if !disk.moves(2) then 2 else 3
  }

  /** In publication order: the final names of the first `k` files, the temporary names of the others. */
  ghost function MovedBelow(o: Outputs, k: nat): set<string> {
    set m: nat | m < 3 :: if m < k then o.Target(o.Order(m)) else o.Temporary(o.Order(m))
  }

  /** What is visible when a write or a rename has failed. */
  ghost function LeftBehind(o: Outputs, disk: Disk): set<string> {
    var n := FirstUnwritten(disk);
    if n < 3 then TemporariesBelow(o, if disk.opens(n) then n + 1 else n) else MovedBelow(o, FirstUnmoved(disk))
  }

  method WriteTemporaries(d: OutputDirectory, o: Outputs, disk: Disk, ghost before: Files) returns (ok: bool)
    requires o.Valid() && Writing(o, before, d.files, 0) && d.Kept(o, before)
    modifies d
    ensures d.Kept(o, before)
    ensures ok ==> Writing(o, before, d.files, 3) && AllWritten(disk)
    ensures !ok ==> !AllWritten(disk) && Undoing(o, before, d.files) && forall j: nat | j < 3 :: o.Target(j) !in d.files
    ensures !ok ==> Visible(o, d.files, LeftBehind(o, disk))
  {
    for i: nat := 0 to 3
      invariant d.Kept(o, before) && Writing(o, before, d.files, i)
      invariant forall j: nat | j < i :: Written(disk, j)
    {
      assert !Written(disk, i) ==> FirstUnwritten(disk) == i;
      var written := WriteTemporary(d, o, i, disk, before);
      if !written {
        return false;
      }
    }
    return true;
  }

  predicate AllWritten(disk: Disk) {
    forall j: nat | j < 3 :: Written(disk, j)
  }

  predicate AllMoved(disk: Disk) {
    forall k: nat | k < 3 :: disk.moves(k)
  }

  /** What may be visible when the loop over the renames has stopped. */
  ghost predicate OnlyPublished(o: Outputs, files: Files, published: seq<string>) {
    forall j: nat | j < 3 && o.Target(j) in files :: o.Target(j) in published
  }

  method MoveAll(d: OutputDirectory, o: Outputs, disk: Disk, ghost before: Files)
    returns (ok: bool, published: seq<string>)
    requires o.Valid() && Moving(o, before, d.files, 0) && d.Kept(o, before)
    modifies d
    ensures d.Kept(o, before)
    ensures ok ==> Moving(o, before, d.files, 3) && AllMoved(disk)
    ensures !ok ==> !AllMoved(disk) && Undoing(o, before, d.files) && OnlyPublished(o, d.files, published)
    ensures !ok ==> forall name | name in published :: o.IsTarget(name) && name != o.Target(0)
    ensures !ok ==> FirstUnmoved(disk) < 3 && Visible(o, d.files, MovedBelow(o, FirstUnmoved(disk)))
  {
    published := [];
    for k: nat := 0 to 3
      invariant d.Kept(o, before) && Moving(o, before, d.files, k)
      invariant |published| == k && forall m: nat | m < k :: published[m] == o.Target(o.Order(m)) && disk.moves(m)
    {
      var i := o.Order(k);
      if !disk.moves(k) {
        MoveFailed(o, before, d.files, k, published);
        OnlyMoved(o, before, d.files, k);
        assert FirstUnmoved(disk) == k;
        return false, published;
      }
      MovingStep(o, before, d.files, k, (d.files - {o.Temporary(i)})[o.Target(i) := d.files[o.Temporary(i)]]);
      d.Replace(o.Temporary(i), o.Target(i));
      published := published + [o.Target(i)];
    }
    return true, published;
  }

  lemma OnlyMoved(o: Outputs, before: Files, files: Files, k: nat)
    requires o.Valid() && k < 3 && Moving(o, before, files, k)
    ensures Visible(o, files, MovedBelow(o, k))
  {
    assert o.Order(0) == 1 && o.Order(1) == 2 && o.Order(2) == 0;
    forall name | o.IsOwn(name)
      ensures name in files <==> name in MovedBelow(o, k)
    {
      var i: nat :| i < 3 && (name == o.Target(i) || name == o.Temporary(i));
      var m: nat := if i == 0 then 2 else i - 1;
      assert o.Order(m) == i;
      forall n: nat | n < 3
        ensures name == o.Target(o.Order(n)) ==> n == m && name == o.Target(i)
        ensures name == o.Temporary(o.Order(n)) ==> n == m && name == o.Temporary(i)
        ensures o.Target(i) != o.Temporary(i)
      {
        o.NamesApart(i, o.Order(n));
        o.NamesApart(o.Order(n), i);
        o.NamesApart(i, i);
      }
    }
  }

  lemma MoveFailed(o: Outputs, before: Files, files: Files, k: nat, published: seq<string>)
    requires o.Valid() && k < 3 && Moving(o, before, files, k)
    requires |published| == k && forall m: nat | m < k :: published[m] == o.Target(o.Order(m))
    ensures Undoing(o, before, files) && OnlyPublished(o, files, published)
    ensures forall name | name in published :: o.IsTarget(name) && name != o.Target(0)
  {
    assert o.Order(0) == 1 && o.Order(1) == 2 && o.Order(2) == 0;
    o.NamesApart(0, 1);
    o.NamesApart(0, 2);
    if k == 1 {
      assert published == [o.Target(1)];
    } else if k == 2 {
      assert published == [o.Target(1), o.Target(2)];
    }
  }

  // ---------- Rolling back ----------

  /** `names` lists every own name that is visible. */
  ghost predicate Covered(o: Outputs, files: Files, names: seq<string>) {
    && (forall name | o.IsOwn(name) && name in files :: name in names)
    && (forall name | name in names :: o.IsOwn(name))
  }

  method RemoveOne(d: OutputDirectory, o: Outputs, name: string, disk: Disk, ghost before: Files) returns (ok: bool)
    requires d.Kept(o, before) && Undoing(o, before, d.files) && o.IsOwn(name)
    modifies d
    ensures d.Kept(o, before) && Undoing(o, before, d.files)
    ensures ok <==> (name in old(d.files) ==> disk.unlinks(name))
    ensures ok ==> d.files == old(d.files) - {name}
  {
    if name in d.files {
      if !disk.unlinks(name) {
        return false;
      }
      assert StateOk(o, before, d.files - {name});
      d.Unlink(name);
    }
    return true;
  }

  function Listed(names: seq<string>): set<string> {
    set name | name in names
  }

  /** Every listed name that is visible can be unlinked. */
  predicate Removable(disk: Disk, files: Files, names: seq<string>) {
    forall name | name in names && name in files :: disk.unlinks(name)
  }

  lemma OneMoreRemovable(disk: Disk, files: Files, names: seq<string>, n: nat, now: Files)
    requires n < |names| && now == files - Listed(names[..n]) && Removable(disk, files, names[..n])
    ensures now - {names[n]} == files - Listed(names[..n + 1])
    ensures (names[n] in now ==> disk.unlinks(names[n])) <==> Removable(disk, files, names[..n + 1])
    ensures Removable(disk, files, names) ==> Removable(disk, files, names[..n + 1])
    ensures names[n] in names
  {
    assert names[..n + 1] == names[..n] + [names[n]];
    forall name | name in names[..n + 1]
      ensures name in names
    {
    }
  }

  method RemoveListed(d: OutputDirectory, o: Outputs, names: seq<string>, disk: Disk, ghost before: Files)
    returns (ok: bool)
    requires d.Kept(o, before) && Undoing(o, before, d.files) && forall name | name in names :: o.IsOwn(name)
    modifies d
    ensures d.Kept(o, before) && Undoing(o, before, d.files)
    ensures ok <==> Removable(disk, old(d.files), names)
    ensures ok ==> d.files == old(d.files) - Listed(names)
  {
    ghost var files := d.files;
    assert names[..0] == [];
    for n := 0 to |names|
      invariant d.Kept(o, before) && Undoing(o, before, d.files)
      invariant d.files == files - Listed(names[..n]) && Removable(disk, files, names[..n])
    {
      OneMoreRemovable(disk, files, names, n, d.files);
      var removed := RemoveOne(d, o, names[n], disk, before);
      if !removed {
        return false;
      }
    }
    assert names[..|names|] == names;
    return true;
  }

  method RemoveAll(d: OutputDirectory, o: Outputs, names: seq<string>, disk: Disk, ghost before: Files)
    returns (ok: bool)
    requires o.Valid() && d.Kept(o, before) && Undoing(o, before, d.files) && Covered(o, d.files, names)
             && Clear(o, before)
    modifies d
    ensures d.Kept(o, before) && Undoing(o, before, d.files)
    ensures ok ==> d.files == before
    ensures ok <==> Removable(disk, old(d.files), names)
  {
    ghost var files := d.files;
    ok := RemoveListed(d, o, names, disk, before);
    if ok {
      NothingLeft(o, before, files, names, d.files);
    }
  }

  lemma NothingLeft(o: Outputs, before: Files, files: Files, names: seq<string>, now: Files)
    requires Undoing(o, before, now) && Covered(o, files, names) && Clear(o, before)
    requires now == files - Listed(names)
    ensures now == before
  {
    forall name
      ensures name in now <==> name in before
      ensures name in now ==> now[name] == before[name]
    {
      if o.IsOwn(name) {
        assert name in files ==> name in names;
      }
    }
  }

  method RollBack(d: OutputDirectory, o: Outputs, published: seq<string>, disk: Disk, ghost before: Files)
    returns (ending: Ending)
    requires o.Valid() && d.Kept(o, before) && Undoing(o, before, d.files) && Clear(o, before)
    requires OnlyPublished(o, d.files, published)
    requires forall name | name in published :: o.IsTarget(name) && name != o.Target(0)
    modifies d
    ensures d.Kept(o, before) && Undoing(o, before, d.files)
    ensures ending == RolledBack || ending == RollbackFailed
    ensures ending == RolledBack ==> d.files == before
    ensures ending == RolledBack <==> forall name | o.IsOwn(name) && name in old(d.files) :: disk.unlinks(name)
  {
    var names := [o.Temporary(0), o.Temporary(1), o.Temporary(2)] + published;
    assert forall name | name in published :: o.IsTarget(name);
    assert Covered(o, d.files, names) by {
      forall name | o.IsOwn(name) && name in d.files
        ensures name in names
      {
        var i: nat :| i < 3 && (name == o.Target(i) || name == o.Temporary(i));
        assert o.Temporary(i) in [o.Temporary(0), o.Temporary(1), o.Temporary(2)];
      }
    }
    var removed := RemoveAll(d, o, names, disk, before);
    ending := if removed then RolledBack else RollbackFailed;
  }

  // ---------- The whole operation ----------

  lemma AllInPlace(o: Outputs, before: Files, files: Files)
    requires o.Valid() && Moving(o, before, files, 3)
    requires Clear(o, before)
    ensures files == WithTargets(o, before)
  {
    assert o.Order(0) == 1 && o.Order(1) == 2 && o.Order(2) == 0;
    var after := WithTargets(o, before);
    o.NamesApart(0, 1);
    o.NamesApart(0, 2);
    o.NamesApart(1, 2);
    forall i: nat | i < 3
      ensures o.Target(i) in files && files[o.Target(i)] == o.Payload(i) && o.Temporary(i) !in files
      ensures o.Temporary(i) !in after
    {
      o.NamesApart(0, i);
      o.NamesApart(1, i);
      o.NamesApart(2, i);
      assert o.Order(if i == 0 then 2 else i - 1) == i;
      assert o.IsOwn(o.Temporary(i));
    }
    forall name
      ensures name in files <==> name in after
      ensures name in files ==> files[name] == after[name]
    {
      if !o.IsOwn(name) {
        assert name != o.Target(0) && name != o.Target(1) && name != o.Target(2);
      }
    }
  }

  lemma LeftAreOwn(o: Outputs, disk: Disk)
    ensures forall name | name in LeftBehind(o, disk) :: o.IsOwn(name)
  {
  }

  /** `write_benchmark_outputs`. An error leaves neither a target nor a temporary file exactly when every name that was
      visible at the failure can be unlinked. */
  method WriteBenchmarkOutputs(d: OutputDirectory, o: Outputs, disk: Disk) returns (ending: Ending)
    requires o.Valid() && d.history == [d.files]
    requires forall i: nat | i < 3 :: o.Temporary(i) !in d.files
    modifies d
    ensures ending == Refused <==> exists i: nat | i < 3 :: o.Target(i) in old(d.files)
    ensures ending == Refused ==> d.files == old(d.files) && d.history == old(d.history)
    ensures ending != Refused ==> d.Kept(o, old(d.files))
    ensures ending != Refused ==> (ending == Published <==> AllWritten(disk) && AllMoved(disk))
    ensures ending == Published ==> d.files == WithTargets(o, old(d.files))
    ensures ending == RolledBack ==> d.files == old(d.files)
    ensures ending == RollbackFailed <==>
              && (forall i: nat | i < 3 :: o.Target(i) !in old(d.files))
              && !(AllWritten(disk) && AllMoved(disk))
              && exists name | name in LeftBehind(o, disk) :: !disk.unlinks(name)
    ensures ending == RollbackFailed ==> Undoing(o, old(d.files), d.files)
  {
    ghost var before := d.files;
    if o.Target(0) in d.files || o.Target(1) in d.files || o.Target(2) in d.files {
      return Refused;
    }
    forall name | o.IsOwn(name)
      ensures name !in before
    {
      var i: nat :| i < 3 && (name == o.Target(i) || name == o.Temporary(i));
      assert i == 0 || i == 1 || i == 2;
    }
    assert Clear(o, before) && Writing(o, before, d.files, 0) && StateOk(o, before, d.files);
    var written := WriteTemporaries(d, o, disk, before);
    if !written {
      LeftAreOwn(o, disk);
      ending := RollBack(d, o, [], disk, before);
      return;
    }
    var moved, published := MoveAll(d, o, disk, before);
    if !moved {
      assert FirstUnwritten(disk) == 3;
      LeftAreOwn(o, disk);
      ending := RollBack(d, o, published, disk, before);
      return;
    }
    AllInPlace(o, before, d.files);
    return Published;
  }
}
