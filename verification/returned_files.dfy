/** Verifying the three files in the directory that a run has written them to. */
module ReturnedFiles {
  import opened Wrappers
  import opened Utf8
  import opened Json
  import opened SealedRecords
  import opened Sealing
  import opened BenchmarkOutputs
  import opened ReturnedRuns

  /** The plain files of every directory. */
  type Folders = map<string, Files>

  datatype Location = Location(parent: string, name: string)

  datatype Locations = Locations(json: Location, sidecar: Location, summary: Location)
  {
    predicate OneParent() { json.parent == sidecar.parent == summary.parent }
  }

  // ---------- Names ----------

  /** The place of the last dot, or -1. */
  function LastDot(name: string): (i: int)
    ensures -1 <= i < |name| && (i >= 0 ==> name[i] == '.')
    ensures forall j | i < j < |name| :: name[j] != '.'
  {
    if name == [] then -1
    else if name[|name| - 1] == '.' then |name| - 1 else LastDot(name[..|name| - 1])
  }

  /** `PurePath.stem`. */
  function Stem(name: string): string {
    var i := LastDot(name);
    if 0 < i < |name| - 1 then name[..i] else name
  }

  predicate IsResultName(name: string) {
    |name| > 5 && name[|name| - 5..] == NAME_END
  }

  lemma StemOfResult(name: string)
    requires IsResultName(name)
    ensures Stem(name) == name[..|name| - 5]
  {
    var end := name[|name| - 5..];
    assert end[0] == '.' && end[1] != '.' && end[2] != '.' && end[3] != '.' && end[4] != '.';
    assert forall j | 0 <= j < 5 :: end[j] == name[|name| - 5 + j];
  }

  lemma FilenameIsResultName(v: Json)
    ensures IsResultName(ResultFilename(v))
  {
    var name := ResultFilename(v);
    assert name == (NAME_FRONT + TextField(v, RUN_ID)) + NAME_END && |NAME_END| == 5 && |NAME_FRONT| > 0;
  }

  // ---------- Reading ----------

  /** `_plain_file` and `_read_small_file`. */
  function ReadSmall(folders: Folders, at: Location): Option<seq<Byte>> {
    if at.parent in folders && at.name in folders[at.parent] && IsSmall(folders[at.parent][at.name])
    then Some(folders[at.parent][at.name]) else None
  }

  predicate IsSmall(raw: seq<Byte>) { 1 <= |raw| <= MAX_JSON_BYTES }

  /** The names that verification expects beside the JSON file. */
  predicate NamedAlike(at: Locations) {
    at.sidecar.name == at.json.name + ".sha256" && at.summary.name == Stem(at.json.name) + ".summary-ko.txt"
  }

  /** `verify_returned_result` up to the tests on the bytes. */
  function ReadReturned(folders: Folders, at: Locations): Option<Returned> {
    match (ReadSmall(folders, at.json), ReadSmall(folders, at.sidecar), ReadSmall(folders, at.summary))
    case (Some(result), Some(sidecar), Some(summary)) =>
      if NamedAlike(at) && at.OneParent() then Some(Returned(at.json.name, result, sidecar, summary)) else None
    case _ => None
  }

  // ---------- Files that were written ----------

  /** What is written of a result. */
  function OutputsOf(r: Returned, token: string): Outputs {
    Outputs(r.jsonName, r.result, r.sidecar, r.summary, token)
  }

  /** The three names under which a result is written. */
  function WrittenAt(r: Returned, parent: string): Locations {
    var o := OutputsOf(r, []);
    Locations(Location(parent, o.Target(0)), Location(parent, o.Target(1)), Location(parent, o.Target(2)))
  }

  /** The directory holds the complete files. */
  ghost predicate Holds(files: Files, r: Returned) {
    forall i: nat | i < 3 :: var o := OutputsOf(r, []);
      o.Target(i) in files && files[o.Target(i)] == o.Payload(i)
  }

  /** The three files can be read. */
  predicate AreSmall(r: Returned) {
    IsSmall(r.result) && IsSmall(r.sidecar) && IsSmall(r.summary)
  }

  /** What is read under the names of verification are the files written under the names of the writer. */
  lemma ReadsWhatIsWritten(folders: Folders, at: Locations, r: Returned)
    requires IsResultName(r.jsonName)
    ensures ReadReturned(folders, at) == Some(r) <==>
            && at == WrittenAt(r, at.json.parent) && at.json.parent in folders && Holds(folders[at.json.parent], r)
            && AreSmall(r)
  {
    StemOfResult(r.jsonName);
    var o := OutputsOf(r, []);
    assert o.Target(2) == Stem(r.jsonName) + ".summary-ko.txt";
    if at.json.parent in folders && Holds(folders[at.json.parent], r) {
      var files := folders[at.json.parent];
      assert files[o.Target(0)] == o.Payload(0) && files[o.Target(1)] == o.Payload(1);
      assert files[o.Target(2)] == o.Payload(2);
    }
    if ReadReturned(folders, at) == Some(r) {
      forall i: nat | i < 3
        ensures o.Target(i) in folders[at.json.parent] && folders[at.json.parent][o.Target(i)] == o.Payload(i)
      {
        assert i == 0 || i == 1 || i == 2;
      }
    }
  }

  lemma SidecarIsSmall(s: Scripts, raw: seq<Byte>, name: string)
    requires s.Valid() && |name| <= 1000
    ensures IsSmall(Sidecar(s.sha, raw, name))
  {
    assert IsHexDigest(s.sha(raw));
    EncodeLength(s.sha(raw) + "  " + name + "\n");
  }

  lemma GenuineName(k: Kit, r: Returned)
    requires Genuine(k, r)
    ensures IsResultName(r.jsonName) && |r.jsonName| <= 1000
  {
    var base :| IsWritten(k, base, r);
    FilenameIsResultName(base);
    RunIdOf(k.scripts, base);
    FrontIsShort(NAME_FRONT, NAME_END);
  }

  lemma FrontIsShort(front: string, end: string)
    requires front == NAME_FRONT && end == NAME_END
    ensures |front| + |end| <= 100
  {
  }

  lemma AcceptedIsSmall(s: Scripts, raw: seq<Byte>)
    requires AcceptedText(s, raw)
    ensures IsSmall(raw)
  {
  }

  /** Of genuine files, the summary alone could be too short or too long to be read. */
  lemma GenuineIsReadable(k: Kit, r: Returned)
    requires k.scripts.Valid() && Genuine(k, r)
    ensures IsResultName(r.jsonName) && (AreSmall(r) <==> IsSmall(r.summary))
  {
    GenuineName(k, r);
    SidecarIsSmall(k.scripts, r.result, r.jsonName);
    var base :| IsWritten(k, base, r);
    WrittenTextIsAccepted(k.scripts, base, r.result);
    AcceptedIsSmall(k.scripts, r.result);
  }

  /** What a run of this kit has written is in the directory of the three names, and its summary can be read. */
  ghost predicate AreWrittenFiles(k: Kit, folders: Folders, at: Locations, r: Returned) {
    && Genuine(k, r) && IsSmall(r.summary) && at == WrittenAt(r, at.json.parent)
    && at.json.parent in folders && Holds(folders[at.json.parent], r)
  }

  lemma GenuineIsRead(k: Kit, folders: Folders, at: Locations, r: Returned)
    requires k.scripts.Valid()
    ensures AreWrittenFiles(k, folders, at, r) <==> Genuine(k, r) && ReadReturned(folders, at) == Some(r)
  {
    if Genuine(k, r) {
      GenuineIsReadable(k, r);
      ReadsWhatIsWritten(folders, at, r);
    }
  }

  /** `verify_returned_result`: the files are accepted exactly when the directory holds, under the names of the writer,
      what a run of this kit on a valid machine writes for some base, with a summary of 1 byte to 16 MiB. */
  method VerifyReturnedResult(k: Kit, folders: Folders, at: Locations) returns (v: ReturnedRun)
    requires k.scripts.Valid()
    ensures !v.Invalid? <==> exists r :: AreWrittenFiles(k, folders, at, r)
    ensures forall r | AreWrittenFiles(k, folders, at, r) ::
              exists base :: IsWritten(k, base, r) && StatusOf(k, base, v)
    ensures match ReadReturned(folders, at)
            case None => v == Invalid(FileSetInvalid)
            case Some(r) => ReasonFits(k, r, v)
  {
    forall r
      ensures AreWrittenFiles(k, folders, at, r) <==> Genuine(k, r) && ReadReturned(folders, at) == Some(r)
    {
      GenuineIsRead(k, folders, at, r);
    }
    match ReadReturned(folders, at) {
      case None => v := Invalid(FileSetInvalid);
      case Some(r) => v := VerifyReturnedResultBytes(k, r);
    }
  }

  /** The same names and the same directory hold one set of files. */
  lemma HeldIsOne(files: Files, parent: string, q: Returned, r: Returned)
    requires WrittenAt(q, parent) == WrittenAt(r, parent) && Holds(files, q) && Holds(files, r)
    ensures q == r
  {
    forall i: nat | i < 3
      ensures OutputsOf(q, []).Target(i) == OutputsOf(r, []).Target(i)
      ensures OutputsOf(q, []).Payload(i) == OutputsOf(r, []).Payload(i)
    {
      assert i == 0 || i == 1 || i == 2;
    }
    assert OutputsOf(q, []).Payload(0) == q.result && OutputsOf(r, []).Payload(0) == r.result;
    assert OutputsOf(q, []).Payload(1) == q.sidecar && OutputsOf(r, []).Payload(1) == r.sidecar;
    assert OutputsOf(q, []).Payload(2) == q.summary && OutputsOf(r, []).Payload(2) == r.summary;
  }

  /** What verification says of these files. */
  ghost predicate StatusOfFiles(k: Kit, r: Returned, v: ReturnedRun) {
    && (!v.Invalid? <==> Genuine(k, r) && IsSmall(r.summary))
    && (!v.Invalid? ==> exists base :: IsWritten(k, base, r) && StatusOf(k, base, v))
  }

  /** Verification of files in a directory that holds them. */
  method VerifyHeld(k: Kit, files: Files, r: Returned, parent: string) returns (v: ReturnedRun)
    requires k.scripts.Valid() && Holds(files, r)
    ensures StatusOfFiles(k, r, v)
  {
    var folders, at := map[parent := files], WrittenAt(r, parent);
    forall q | AreWrittenFiles(k, folders, at, q)
      ensures q == r
    {
      HeldIsOne(files, parent, q, r);
    }
    v := VerifyReturnedResult(k, folders, at);
    if Genuine(k, r) && IsSmall(r.summary) {
      assert AreWrittenFiles(k, folders, at, r);
    }
  }

  // ---------- Writing and verifying ----------

  /** No name in the directory ends like a temporary name with this token. */
  ghost predicate FreshToken(files: Files, token: string) {
    |token| == 32 && forall name | name in files :: |name| >= 37 ==> name[|name| - 37..] != "." + token + ".tmp"
  }

  lemma EndOf(a: string, b: string)
    ensures |a + b| == |a| + |b| && (a + b)[|a + b| - |b|..] == b
  {
  }

  lemma FreshTemporary(files: Files, o: Outputs, i: nat)
    requires FreshToken(files, o.token) && i < 3
    ensures o.Temporary(i) !in files
  {
    EndOf("." + o.Target(i), "." + o.token + ".tmp");
    assert o.Temporary(i) == ("." + o.Target(i)) + ("." + o.token + ".tmp");
  }

  /** In every state of the directory, the JSON file is visible only beside its complete sidecar and summary. */
  ghost predicate AlwaysComplete(r: Returned, history: seq<Files>) {
    forall i | 0 <= i < |history| :: r.jsonName in history[i] ==> Holds(history[i], r)
  }

  /** One of the three names of the result is taken. */
  predicate Occupied(files: Files, r: Returned) {
    var o := OutputsOf(r, []);
    o.Target(0) in files || o.Target(1) in files || o.Target(2) in files
  }

  /** Every file can be written and renamed. */
  predicate Writable(disk: Disk) {
    AllWritten(disk) && AllMoved(disk)
  }

  lemma AllComplete(o: Outputs, r: Returned, before: Files, history: seq<Files>)
    requires o == OutputsOf(r, o.token) && forall i | 0 <= i < |history| :: StateOk(o, before, history[i])
    ensures AlwaysComplete(r, history)
  {
    forall i | 0 <= i < |history| && r.jsonName in history[i]
      ensures Holds(history[i], r)
    {
      assert Authoritative(o, history[i]) && o.Target(0) in history[i];
      AuthoritativeHolds(o, r, history[i]);
    }
  }

  lemma AuthoritativeHolds(o: Outputs, r: Returned, files: Files)
    requires o == OutputsOf(r, o.token) && Authoritative(o, files) && o.Target(0) in files
    ensures Holds(files, r)
  {
    forall i: nat | i < 3
      ensures OutputsOf(r, []).Target(i) == o.Target(i) && OutputsOf(r, []).Payload(i) == o.Payload(i)
    {
    }
  }

  lemma TargetsHold(o: Outputs, r: Returned, before: Files)
    requires o == OutputsOf(r, o.token) && o.Valid()
    ensures Holds(WithTargets(o, before), r)
  {
    o.NamesApart(0, 1);
    o.NamesApart(0, 2);
    o.NamesApart(1, 2);
    var files := WithTargets(o, before);
    forall i: nat | i < 3
      ensures o.Target(i) in files && files[o.Target(i)] == o.Payload(i)
    {
      assert i == 0 || i == 1 || i == 2;
    }
    AuthoritativeHolds(o, r, files);
  }

  lemma SomeTarget(o: Outputs, r: Returned, files: Files)
    requires o == OutputsOf(r, o.token)
    ensures Occupied(files, r) <==> exists i: nat | i < 3 :: o.Target(i) in files
  {
    var names := OutputsOf(r, []);
    assert names.Target(0) == o.Target(0) && names.Target(1) == o.Target(1) && names.Target(2) == o.Target(2);
    if i: nat :| i < 3 && o.Target(i) in files {
      assert i == 0 || i == 1 || i == 2;
    }
  }

  /** `write_benchmark_outputs` into a directory. */
  method Write(d: OutputDirectory, r: Returned, token: string, disk: Disk) returns (ending: Ending)
    requires IsResultName(r.jsonName) && d.history == [d.files] && FreshToken(d.files, token)
    modifies d
    ensures ending == Refused <==> Occupied(old(d.files), r)
    ensures ending == Refused ==> d.files == old(d.files) && d.history == old(d.history)
    ensures ending != Refused ==>
              AlwaysComplete(r, d.history) && d.history != [] && d.history[|d.history| - 1] == d.files
    ensures ending != Refused ==> (ending == Published <==> Writable(disk))
    ensures ending == Published ==> Holds(d.files, r) && d.files == WithTargets(OutputsOf(r, token), old(d.files))
    ensures ending == RolledBack ==> d.files == old(d.files)
    ensures ending == RolledBack || ending == RollbackFailed ==> r.jsonName !in d.files
  {
    var o := OutputsOf(r, token);
    forall i: nat | i < 3
      ensures o.Temporary(i) !in d.files
    {
      FreshTemporary(d.files, o, i);
    }
    ghost var before := d.files;
    SomeTarget(o, r, before);
    TargetsHold(o, r, before);
    ending := WriteBenchmarkOutputs(d, o, disk);
    if ending != Refused {
      AllComplete(o, r, before, d.history);
    }
  }
}
