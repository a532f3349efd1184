/** From the first child process to the verified return of the files in the output directory. */
module EndToEnd {
  import opened Wrappers
  import opened Json
  import opened ResultJson
  import opened BenchmarkContract
  import opened Evaluations
  import opened Sealing
  import opened EncodableResults
  import opened BenchmarkOutputs
  import opened ReturnedRuns
  import opened ReturnedFiles
  import opened CompleteBenchmarks
  import RunTasks
  import RunLifecycle

  // ---------- The files of a result ----------

  /** The files are those of the sealed result. */
  ghost predicate FilesOf(k: Kit, r: RawResult, x: Others, files: Returned) {
    var sealed := SealResult(k.scripts, BaseJson(r, x));
    UniqueKeys(BaseJson(r, x)) && sealed.Ok? && OutputFiles(k, sealed.value) == Ok(files)
  }

  /** Of this kit, on a valid machine, and short enough. */
  ghost predicate Returnable(k: Kit, r: RawResult, x: Others, files: Returned) {
    && BoundTo(k.identity, BaseJson(r, x)) && ValidExecution(r.execution)
    && |files.result| <= MAX_JSON_BYTES && IsSmall(files.summary)
  }

  /** What verification says of the written files. */
  ghost predicate VerifiedAs(k: Kit, r: RawResult, x: Others, files: Returned, v: ReturnedRun) {
    && (v.Invalid? <==> !Returnable(k, r, x, files))
    && (!v.Invalid? ==> && EvaluateResult(k.scripts.c, r) == Ok(v.evaluation)
                        && (v.ValidPass? <==> AllPassed(v.evaluation.rows)))
  }

  lemma SealedReads(s: Scripts, r: RawResult, x: Others)
    requires s.Valid() && UniqueOthers(x) && r.restOk && Sealable(s, r, x)
    ensures ReadBase(s.tests, BaseJson(r, x)) == Some(r) && EvaluateBase(s, BaseJson(r, x)) == EvaluateResult(s.c, r)
    ensures ExecutionIsValid(s, BaseJson(r, x)) <==> ValidExecution(r.execution)
  {
    WrittenEvaluates(s, r, x);
    assert r.(restOk := true) == r;
  }

  /** A result that can be sealed has its three files. */
  lemma SealableHasFiles(k: Kit, r: RawResult, x: Others)
    requires k.scripts.Valid() && UniqueOthers(x) && r.restOk && Sealable(k.scripts, r, x)
    ensures SealResult(k.scripts, BaseJson(r, x)).Ok? && OutputFiles(k, SealResult(k.scripts, BaseJson(r, x)).value).Ok?
    ensures FilesOf(k, r, x, OutputFiles(k, SealResult(k.scripts, BaseJson(r, x)).value).value)
    ensures IsResultName(OutputFiles(k, SealResult(k.scripts, BaseJson(r, x)).value).value.jsonName)
  {
    SealableIsSealed(k.scripts, r, x);
    WrittenIsGenuine(k, BaseJson(r, x));
    FilesName(k, SealResult(k.scripts, BaseJson(r, x)).value);
  }

  lemma FilesName(k: Kit, d: Json)
    requires OutputFiles(k, d).Ok?
    ensures IsResultName(OutputFiles(k, d).value.jsonName)
  {
    FilenameIsResultName(d);
  }

  /** The files are genuine for their base exactly when they can be returned. */
  lemma FilesAreReturnable(k: Kit, r: RawResult, x: Others, files: Returned)
    requires k.scripts.Valid() && UniqueOthers(x) && r.restOk && Sealable(k.scripts, r, x) && FilesOf(k, r, x, files)
    ensures Genuine(k, files) && IsSmall(files.summary) <==> Returnable(k, r, x, files)
    ensures Genuine(k, files) ==> IsWritten(k, BaseJson(r, x), files)
  {
    WrittenIsGenuine(k, BaseJson(r, x));
    SealedReads(k.scripts, r, x);
  }

  lemma StatusIsOurs(k: Kit, r: RawResult, base: Json, other: Json, files: Returned, v: ReturnedRun)
    requires k.scripts.Valid() && r.errors == [] && ReadBase(k.scripts.tests, base) == Some(r)
    requires IsWritten(k, base, files) && IsWritten(k, other, files) && StatusOf(k, other, v)
    ensures !v.Invalid? && EvaluateResult(k.scripts.c, r) == Ok(v.evaluation)
    ensures v.ValidPass? <==> AllPassed(v.evaluation.rows)
  {
    TextDeterminesBase(k.scripts, other, base, files.result);
    WrittenSame(k, other, base);
    ReadSame(k.scripts, other, base);
  }

  // ---------- Verifying what is visible ----------

  /** What verification says of the files of a result. */
  lemma StatusIsVerified(k: Kit, r: RawResult, x: Others, files: Returned, v: ReturnedRun)
    requires k.scripts.Valid() && UniqueOthers(x) && r.restOk && r.errors == [] && Sealable(k.scripts, r, x)
    requires FilesOf(k, r, x, files) && StatusOfFiles(k, files, v)
    ensures VerifiedAs(k, r, x, files, v)
  {
    FilesAreReturnable(k, r, x, files);
    if !v.Invalid? {
      SealedReads(k.scripts, r, x);
      var base :| IsWritten(k, base, files) && StatusOf(k, base, v);
      StatusIsOurs(k, r, BaseJson(r, x), base, files, v);
    }
  }

  // ---------- The whole run ----------

  /** All three times the result is sealed, it can be. */
  ghost predicate SealableThrough(s: Scripts, r: RawResult, x: Stages) {
    Sealable(s, r, x.provisional) && Sealable(s, r, x.cleaned) && Sealable(s, r, x.final)
  }

  lemma SealsThroughMeans(s: Scripts, r: RawResult, x: Stages)
    requires s.Valid() && x.Unique() && r.restOk
    ensures SealsThrough(SealWith(s), r, x) <==> SealableThrough(s, r, x)
    ensures SealWith(s)(r, x.provisional).Ok? <==> Sealable(s, r, x.provisional)
  {
    SealWithMeans(s, r, x.provisional);
    SealWithMeans(s, r, x.cleaned);
    SealWithMeans(s, r, x.final);
  }

  /** The files of a sealed result. */
  method FilesOfSealed(k: Kit, r: RawResult, x: Others, sealed: Json) returns (files: Returned)
    requires k.scripts.Valid() && UniqueOthers(x) && r.restOk && Sealable(k.scripts, r, x)
    requires Ok(sealed) == SealWith(k.scripts)(r, x)
    ensures FilesOf(k, r, x, files) && IsResultName(files.jsonName)
  {
    SealableHasFiles(k, r, x);
    files := OutputFiles(k, sealed).value;
  }

  /** The files exist exactly when the result can be sealed each time; the child roots stay on disk exactly when the
      provisional result cannot be sealed. */
  ghost predicate SealedAs(k: Kit, r: RawResult, x: Stages, roots: set<string>, left: RunRoot,
                           files: Option<Returned>)
  {
    && LeftOnDisk(Sealable(k.scripts, r, x.provisional), roots, left)
    && (files.Some? <==> SealableThrough(k.scripts, r, x))
    && (files.Some? ==> FilesOf(k, r, x.final, files.value))
  }

  /** The contents of the files of a run. */
  method FilesOfRun(k: Kit, r: RawResult, x: Stages, ghost roots: set<string>, ghost left: RunRoot,
                    sealed: Result<Json>)
    returns (files: Option<Returned>)
    requires k.scripts.Valid() && x.Unique() && r.restOk
    requires SealedFrom(SealWith(k.scripts), r, x, roots, left, sealed)
    ensures SealedAs(k, r, x, roots, left, files)
    ensures files.Some? ==> IsResultName(files.value.jsonName)
  {
    SealsThroughMeans(k.scripts, r, x);
    files := None;
    if sealed.Ok? {
      var written := FilesOfSealed(k, r, x.final, sealed.value);
      files := Some(written);
    }
  }

  /** The directory after writing, and what verification says of it. The JSON file is never visible without the other
      two; there is a verification exactly when no name was taken and the disk did not fail. */
  ghost predicate PublishedAs(k: Kit, r: RawResult, x: Others, files: Returned, disk: Disk, before: Files, now: Files,
                              history: seq<Files>, v: Option<ReturnedRun>)
  {
    && (v.Some? <==> !Occupied(before, files) && Writable(disk))
    && (v.Some? ==> Holds(now, files) && VerifiedAs(k, r, x, files, v.value))
    && if Occupied(before, files) then now == before && history == [before] else AlwaysComplete(files, history)
  }

  /** Writing the files of a sealed result and verifying what is in the directory. */
  method WriteAndVerify(k: Kit, r: RawResult, ghost x: Stages, ghost roots: set<string>, ghost left: RunRoot,
                        files: Returned, d: OutputDirectory, token: string, disk: Disk, parent: string)
    returns (v: Option<ReturnedRun>)
    requires k.scripts.Valid() && x.Unique() && r.restOk && r.errors == [] && IsResultName(files.jsonName)
    requires SealedAs(k, r, x, roots, left, Some(files))
    requires d.history == [d.files] && FreshToken(d.files, token)
    modifies d
    ensures PublishedAs(k, r, x.final, files, disk, old(d.files), d.files, d.history, v)
  {
    var ending := Write(d, files, token, disk);
    if ending != Published {
      return None;
    }
    var status := VerifyHeld(k, d.files, files, parent);
    StatusIsVerified(k, r, x.final, files, status);
    return Some(status);
  }

  /** What follows the children of a run: its files, the output directory, and verification. */
  ghost predicate ReturnedAs(k: Kit, ended: bool, r: RawResult, x: Stages, roots: set<string>, left: RunRoot,
                             files: Option<Returned>, disk: Disk, before: Files, now: Files, history: seq<Files>,
                             v: Option<ReturnedRun>)
  {
    && (ended ==> SealedAs(k, r, x, roots, left, files)) && (!ended ==> files.None?)
    && match files
       case None => now == before && history == [before] && v.None?
       case Some(written) => PublishedAs(k, r, x.final, written, disk, before, now, history, v)
  }

  method ReturnFiles(k: Kit, ended: bool, r: RawResult, x: Stages, ghost roots: set<string>, ghost left: RunRoot,
                     sealed: Result<Json>, d: OutputDirectory, ghost before: Files, token: string, disk: Disk,
                     parent: string)
    returns (files: Option<Returned>, v: Option<ReturnedRun>)
    requires k.scripts.Valid() && x.Unique()
    requires RunSealed(SealWith(k.scripts), ended, r, x, roots, left, sealed)
    requires d.files == before && d.history == [before] && FreshToken(before, token)
    modifies d
    ensures ReturnedAs(k, ended, r, x, roots, left, files, disk, before, d.files, d.history, v)
  {
    files, v := None, None;
    if ended {
      files := FilesOfRun(k, r, x, roots, left, sealed);
      if files.Some? {
        v := WriteAndVerify(k, r, x, roots, left, files.value, d, token, disk, parent);
      }
    }
  }

  /** A whole run: the children, flattening, sealing around the cleanup, writing into the output directory, and
      verifying what is there. Files come out exactly when every child reports well, no authority is reused and the
      result can be sealed each time. Verification recomputes the verdict, and refuses the files exactly when they are
      of another kit, from an invalid machine, or too long. */
  method BenchmarkAndVerify(k: Kit, p: Protocol, runner: RunLifecycle.Runner, conditions: Execution, x: Stages,
                            before: Files, token: string, disk: Disk, parent: string)
    returns (ended: bool, r: RawResult, roots: set<string>, left: RunRoot, files: Option<Returned>,
             d: OutputDirectory, v: Option<ReturnedRun>)
    requires k.scripts.Valid() && p.Valid() && RunTasks.ShortNames(k.scripts.c) && x.Unique()
    requires FreshToken(before, token)
    ensures RunEnds(k.scripts.c, p, runner, conditions, ended, r, roots)
    ensures ReturnedAs(k, ended, r, x, roots, left, files, disk, before, d.files, d.history, v)
  {
    var sealed;
    ended, r, roots, left, sealed := RunAndSeal(k.scripts.c, p, runner, conditions, SealWith(k.scripts), x);
    d := new OutputDirectory(before);
    files, v := ReturnFiles(k, ended, r, x, roots, left, sealed, d, before, token, disk, parent);
  }
}
