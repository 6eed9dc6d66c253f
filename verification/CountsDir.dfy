/** The counts directory as the freeze verb and writeFrozen change it. */
module CountsDir {
  import opened Basics
  import opened TextOrder
  import opened Counts
  import opened Reconstruct
  import opened Rebuild
  import opened AnchorChain
  import opened Freeze

  /** The file as it lies on disk: `render` is the JSON text of a body. */
  function Written(render: FrozenFile -> string, f: FrozenFile): Doc { Doc(Some(f), render(f)) }

  /** The reference is the directory's own file of that sha, bytes and counts. */
  ghost predicate FromDirectory(env: Env, dir: Dir, ref: Reference) {
    ref.sha in dir && dir[ref.sha].json.Some? && dir[ref.sha].json.value.counts == ref.counts &&
      env.hash(dir[ref.sha].bytes) == ref.fileHash
  }

  predicate HasSystems(env: Env) { env.loaded.Some? && env.loaded.value.hasSystems }

  /** A new sha, or one whose counts these extend. */
  predicate CanWrite(env: Env, dir: Dir, sha: string, counts: CountMap) {
    && IsSha(sha) && ValidCounts(counts)
    && (sha in dir ==> dir[sha].json.Some? && Mergeable(HasSystems(env), dir[sha].json.value.counts, counts))
  }

  /** An anchor, or the lack of one, can be settled: the named file may serve, or every other file loads. */
  ghost predicate Settles(env: Env, dir: Dir, sha: string, cross: Option<Doc>) {
    if cross.Some? then CrossUsable(env, cross.value, sha) else OthersLoad(ViewOf(env, dir), sha)
  }

  /**
   The anchor a freeze settles on: the named file, else the other file measured last, none only when there is no other.
   */
  ghost predicate SettledOn(env: Env, dir: Dir, sha: string, cross: Option<Doc>, ref: Option<Reference>,
                            le: (string, string) -> bool) {
    if cross.Some? then cross.value.json.Some? && ref == Some(RefTo(env, cross.value)) else
    if ref.None? then Alone(dir, sha)
      else MeasuredLast(dir, sha, ref.value.sha, le) && FromDirectory(env, dir, ref.value)
  }

  /** When a file says it was measured. */
  function MeasuredAt(dir: Dir, s: string): string {
    if s in dir && dir[s].json.Some? then dir[s].json.value.measured.at else ""
  }

  /** The order of measuring times as the runtime's locale has it: a total preorder, whatever it is. */
  ghost predicate Orders(le: (string, string) -> bool) {
    (forall a, b :: le(a, b) || le(b, a)) && forall a, b, c | le(a, b) && le(b, c) :: le(a, c)
  }

  /** The last of the other files by measuring time: none is later. */
  predicate MeasuredLast(dir: Dir, sha: string, a: string, le: (string, string) -> bool) {
    a in dir && a != sha && forall s | s in dir && s != sha :: le(MeasuredAt(dir, s), MeasuredAt(dir, a))
  }

  /** The last of a list by time: the later name among the latest. */
  method LastMeasured(dir: Dir, names: seq<string>, le: (string, string) -> bool) returns (latest: Option<string>)
    requires Orders(le)
    ensures latest.None? <==> names == []
    ensures latest.Some? ==> latest.value in names && forall k | 0 <= k < |names| ::
      le(MeasuredAt(dir, names[k]), MeasuredAt(dir, latest.value))
  {
    latest := None;
    for i := 0 to |names|
      invariant latest.None? <==> i == 0
      invariant latest.Some? ==>
        latest.value in names && forall k | 0 <= k < i :: le(MeasuredAt(dir, names[k]), MeasuredAt(dir, latest.value))
    {
      var t := MeasuredAt(dir, names[i]);
      assert le(t, t) || le(t, t);
      if latest.None? {
        latest := Some(names[i]);
      } else {
        var best := MeasuredAt(dir, latest.value);
        assert le(best, t) || le(t, best);
        if le(best, t) {
          forall k | 0 <= k < i ensures le(MeasuredAt(dir, names[k]), t) { assert le(MeasuredAt(dir, names[k]), best); }
          latest := Some(names[i]);
        }
      }
    }
  }

  /** The reference made of a file. */
  function RefTo(env: Env, doc: Doc): Reference
    requires doc.json.Some?
  {
    Reference(doc.json.value.deploySha, doc.json.value.counts, env.hash(doc.bytes))
  }

  /** The file named with --cross-check may serve: it loads on its own and is for another sha. */
  ghost predicate CrossUsable(env: Env, doc: Doc, sha: string) {
    && doc.json.Some? && IsSha(doc.json.value.deploySha) && doc.json.value.deploySha != sha
    && FileLoads(env, doc, doc.json.value.deploySha, false, true)
  }

  /** The run rebuilds against the anchor, verifies with its record when that is asked again, and can be written. */
  ghost predicate Freezes(env: Env, dir: Dir, j: CountsJson, sha: string, t: StageTable, at: string, proven: bool,
                          ref: Option<Reference>, acceptDiff: seq<string>, again: bool) {
    var f := BaselineFile(j, sha, at, ref, Ignored(env));
    && Rebuilds(j, sha, t, env.system, at, proven, ref, acceptDiff, Ignored(env))
    && (again ==> ReconstructionOk(f, t, env.system)) && CanWrite(env, dir, sha, f.counts)
  }

  /** No other file moved, and the file of the sha lost nothing. */
  ghost predicate OnlyGains(before: Dir, after: Dir, sha: string) {
    && after.Keys == before.Keys && (forall s | s in after && s != sha :: after[s] == before[s])
    && sha in before && before[sha].json.Some? && after[sha].json.Some?
    && forall k | k in before[sha].json.value.counts ::
      Look(after[sha].json.value.counts, k) == Some(before[sha].json.value.counts[k])
  }

  /** The file of the sha is the old one with the counts of both. */
  ghost predicate Holds(after: Dir, sha: string, was: FrozenFile, counts: CountMap) {
    && sha in after && after[sha].json.Some? && after[sha].json.value == was.(counts := after[sha].json.value.counts)
    && (forall k | k in counts :: Look(after[sha].json.value.counts, k) == Some(counts[k]))
    && after[sha].json.value.counts.Keys == was.counts.Keys + counts.Keys
  }

  /** Under the loaded table the second verification adds nothing. */
  lemma SecondVerifyAddsNothing(env: Env, dir: Dir, j: CountsJson, sha: string, t: StageTable, at: string, proven: bool,
                                ref: Option<Reference>, acceptDiff: seq<string>)
    requires env.loaded == Some(t) && (ref.Some? ==> RefOk(ref.value, sha))
    ensures Freezes(env, dir, j, sha, t, at, proven, ref, acceptDiff, false) <==>
      Freezes(env, dir, j, sha, t, at, proven, ref, acceptDiff, true)
  {
    if Rebuilds(j, sha, t, env.system, at, proven, ref, acceptDiff, Ignored(env)) {
      RebuiltVerifies(j, sha, t, env.system, at, ref);
    }
  }

  class CountsDirectory {
    const env: Env
    const render: FrozenFile -> string
    const notLater: (string, string) -> bool
    var files: Dir

    constructor (env: Env, render: FrozenFile -> string, notLater: (string, string) -> bool, files: Dir)
      ensures this.env == env && this.render == render && this.notLater == notLater && this.files == files
    {
      this.env, this.render, this.notLater, this.files := env, render, notLater, files;
    }

    /**
     A frozen file is reviewed data: a new sha is written, an existing one only ever gains another system's counts.
     */
    method WriteFrozen(sha: string, counts: CountMap, measured: Measured) returns (ok: bool)
      modifies this`files
      ensures ok <==> CanWrite(env, old(files), sha, counts)
      ensures !ok ==> files == old(files)
      ensures ok && sha !in old(files) ==>
        files == old(files)[sha := Written(render, FrozenFile(sha, measured, counts))]
      ensures ok && sha in old(files) ==>
        OnlyGains(old(files), files, sha) && Holds(files, sha, old(files)[sha].json.value, counts)
    {
      if !IsSha(sha) || !ValidCounts(counts) { return false; }
      if sha !in files {
        files := files[sha := Written(render, FrozenFile(sha, measured, counts))];
        return true;
      }
      if files[sha].json.None? { return false; }
      var was := files[sha].json.value;
      if !Mergeable(HasSystems(env), was.counts, counts) { return false; }
      var extra := counts.Keys - was.counts.Keys;
      if extra != {} {
        MergeKeepsCounts(HasSystems(env), was.counts, counts);
        var merged := was.counts + (map k | k in counts && k !in was.counts :: counts[k]);
        files := files[sha := Written(render, was.(counts := merged))];
      } else {
        assert counts.Keys <= was.counts.Keys by { assert forall k | k in counts :: k !in extra; }
      }
      ok := true;
    }

    /** latestOtherFrozen: every other file loaded strictly, then the one measured last. */
    method LatestOther(sha: string) returns (ok: bool, latest: Option<string>)
      requires Orders(notLater)
      ensures ok <==> OthersLoad(ViewOf(env, files), sha)
      ensures ok ==> (latest.None? <==> Alone(files, sha))
      ensures ok && latest.Some? ==>
        MeasuredLast(files, sha, latest.value, notLater) &&
          FileLoads(env, files[latest.value], latest.value, false, true)
    {
      latest := None;
      ok := OtherFrozenFiles(env, files, sha);
      if !ok { return; }
      OthersAreFiles(env, files, sha);
      var names := Sorted(files.Keys - {sha});
      assert forall s :: s in names <==> s in SetOf(names);
      latest := LastMeasured(files, names, notLater);
      if latest.None? {
        assert SetOf(names) == {};
      } else {
        forall s | s in files && s != sha ensures notLater(MeasuredAt(files, s), MeasuredAt(files, latest.value)) {
          assert s in SetOf(names);
          var k :| 0 <= k < |names| && names[k] == s;
        }
      }
    }

    /** The anchor of a freeze: the file named with --cross-check, by what it holds, else the latest other file. */
    method ChooseReference(sha: string, cross: Option<Doc>) returns (ok: bool, ref: Option<Reference>)
      requires Orders(notLater) && forall b :: IsDigest(env.hash(b))
      requires forall s | s in files :: IsSha(s)
      ensures ok <==> Settles(env, files, sha, cross)
      ensures ok ==> SettledOn(env, files, sha, cross, ref, notLater)
      ensures ok && ref.Some? ==> RefOk(ref.value, sha)
    {
      if cross.Some? {
        var doc := cross.value;
        if doc.json.None? || !IsSha(doc.json.value.deploySha) { return false, None; }
        var f := LoadFrozenFile(env, doc, doc.json.value.deploySha, false, true);
        if f.None? || f.value.deploySha == sha { return false, None; }
        return true, Some(Reference(f.value.deploySha, f.value.counts, env.hash(doc.bytes)));
      }
      var loaded, latest := LatestOther(sha);
      if !loaded { return false, None; }
      if latest.None? { return true, None; }
      return true, Some(Reference(latest.value, files[latest.value].json.value.counts,
        env.hash(files[latest.value].bytes)));
    }

    /**
     freezeFromAdoptedRun: choose the anchor, rebuild the baseline, write it. For a new sha, under the table it froze
     with, the contract also says exactly when the file that was written loads.
     */
    method FreezeFromAdoptedRun(j: CountsJson, sha: string, t: StageTable, cross: Option<Doc>, acceptDiff: seq<string>,
                                at: string, proven: bool)
      returns (ok: bool, ref: Option<Reference>)
      requires Orders(notLater) && forall b :: IsDigest(env.hash(b))
      requires forall s | s in files :: IsSha(s)
      modifies this`files
      ensures !ok ==> files == old(files)
      ensures Settles(env, old(files), sha, cross) ==> SettledOn(env, old(files), sha, cross, ref, notLater)
      ensures ok <==>
        Settles(env, old(files), sha, cross) && Freezes(env, old(files), j, sha, t, at, proven, ref, acceptDiff, true)
      // under the table the process loaded the second verification never refuses
      ensures env.loaded == Some(t) ==>
        (ok <==>
          && Settles(env, old(files), sha, cross)
          && Freezes(env, old(files), j, sha, t, at, proven, ref, acceptDiff, false))
      ensures ok && sha !in old(files) ==>
        files == old(files)[sha := Written(render, BaselineFile(j, sha, at, ref, Ignored(env)))]
      ensures ok && sha !in old(files) && TableStands(env, sha, t) ==>
        LoadsAsWritten(env, old(files), files, sha, BaselineFile(j, sha, at, ref, Ignored(env)), ref)
      ensures ok && sha in old(files) ==> OnlyGains(old(files), files, sha)
    {
      ok, ref := ChooseReference(sha, cross);
      if !ok || !IsSha(sha) { return false, ref; }
      if env.loaded == Some(t) { SecondVerifyAddsNothing(env, files, j, sha, t, at, proven, ref, acceptDiff); }
      ok := RebuildAndWrite(j, sha, t, ref, acceptDiff, at, proven);
      if ok && sha !in old(files) && TableStands(env, sha, t) {
        FreezeThenLoad(env, render, old(files), j, sha, t, at, ref);
      }
    }

    /** The rest of the verb, once the anchor is settled. */
    method RebuildAndWrite(j: CountsJson, sha: string, t: StageTable, ref: Option<Reference>, acceptDiff: seq<string>,
                           at: string, proven: bool)
      returns (ok: bool)
      requires ref.Some? ==> RefOk(ref.value, sha)
      modifies this`files
      ensures !ok ==> files == old(files)
      ensures ok <==> Freezes(env, old(files), j, sha, t, at, proven, ref, acceptDiff, true)
      ensures ok && sha !in old(files) ==>
        files == old(files)[sha := Written(render, BaselineFile(j, sha, at, ref, Ignored(env)))]
      ensures ok && sha in old(files) ==> OnlyGains(old(files), files, sha)
    {
      var r := ReconstructBaseline(j, sha, t, env.system, at, proven, ref, acceptDiff, Ignored(env));
      if r.Err? { return false; }
      ok := WriteFrozen(sha, r.value.counts, r.value.measured);
    }
  }

  /** The files that load beside `sha` are parsed files of their own names. */
  lemma OthersAreFiles(env: Env, dir: Dir, sha: string)
    requires OthersLoad(ViewOf(env, dir), sha)
    ensures forall s | s in dir && s != sha ::
      dir[s].json.Some? && dir[s].json.value.deploySha == s && FileLoads(env, dir[s], s, false, true)
  {
    assert forall s | s in dir && s != sha :: ViewOf(env, dir).loads(s, false, true);
  }

  // ---- freeze then load ------------------------------------------------------------------------------

  /** Adding the new file leaves every other file as it was. */
  lemma DirectoryExtends(env: Env, dir: Dir, sha: string, doc: Doc)
    requires sha !in dir
    ensures Extends(ViewOf(env, dir), ViewOf(env, dir[sha := doc]), sha, doc)
  {
  }

  /** The written file loads on its own, as the file asked for and as a neighbour. */
  lemma WrittenLoads(env: Env, doc: Doc, sha: string, t: StageTable)
    requires doc.json.Some? && doc.json.value.deploySha == sha && ReconstructionOk(doc.json.value, t, env.system)
    requires ValidCounts(doc.json.value.counts)
    requires env.loaded == Some(t) && (env.tableAt(sha).None? || env.tableAt(sha) == Some(t))
    ensures FileLoads(env, doc, sha, false, false) && FileLoads(env, doc, sha, false, true)
  {
    assert HeaderOk(doc.json.value, doc.json.value.measured.reconstructed.value);
  }

  /** The process has the table it froze with, and git's table for the new sha, when it has one, is that table. */
  ghost predicate TableStands(env: Env, sha: string, t: StageTable) {
    env.loaded == Some(t) && (env.tableAt(sha).None? || env.tableAt(sha) == Some(t))
  }

  /**
   The directory's own file of the reference's sha has the bytes that were compared, and its counts compare the same.
   */
  ghost predicate StillThere(env: Env, dir: Dir, ref: Reference, counts: CountMap) {
    && ref.sha in dir && dir[ref.sha].json.Some? && env.hash(dir[ref.sha].bytes) == ref.fileHash
    && CrossCheckDiff(counts, dir[ref.sha].json.value.counts, Ignored(env)) == CrossCheckDiff(counts, ref.counts,
      Ignored(env))
  }

  /**
   The record the rebuild made is the hop the load looks for exactly when the reference is still that file of the
   directory.
   */
  lemma RecordIsHop(env: Env, render: FrozenFile -> string, dir: Dir, j: CountsJson, sha: string, at: string,
                    ref: Reference)
    requires sha !in dir && ref.sha != sha
    ensures var f := BaselineFile(j, sha, at, Some(ref), Ignored(env));
            var doc := Written(render, f);
            && HasAnchor(doc) && AnchorOf(doc).sha == ref.sha
            && (Hop(ViewOf(env, dir[sha := doc]), sha, ref.sha) <==> StillThere(env, dir, ref, f.counts))
  {
  }

  /**
   What a caller can look up before freezing: there is no reference, or the directory's own file of its sha is the one
   that was compared, every file loads, and that file's walk has room and ends at a plain file.
   */
  ghost predicate RestsInDirectory(env: Env, dir: Dir, f: FrozenFile, ref: Option<Reference>) {
    ref.None? || (StillThere(env, dir, ref.value, f.counts) && AnchorUsable(env, dir, ref.value.sha))
  }

  /** The file loads exactly when it rests in the directory, and then as it was written. */
  ghost predicate LoadsAsWritten(env: Env, before: Dir, after: Dir, sha: string, f: FrozenFile,
    ref: Option<Reference>) {
    var load := LoadFrozen(env, after, sha, false);
    (load.Ok? <==> RestsInDirectory(env, before, f, ref)) && (load.Ok? ==> load.value == f)
  }

  /**
   Freeze then load: a file written for a new sha loads from the same directory, with the counts written, if and only if
   there is nothing to compare with; or the directory holds the reference under its sha, as it was compared, the
   other files load, and the reference's own walk has at most seven files and ends at a plain one.
   */
  lemma FreezeThenLoad(env: Env, render: FrozenFile -> string, dir: Dir, j: CountsJson, sha: string, t: StageTable,
                       at: string, ref: Option<Reference>)
    requires sha !in dir && TableStands(env, sha, t)
    requires if ref.None? then Alone(dir, sha) else ref.value.sha != sha
    requires var f := BaselineFile(j, sha, at, ref, Ignored(env));
      ReconstructionOk(f, t, env.system) && ValidCounts(f.counts)
    ensures var f := BaselineFile(j, sha, at, ref, Ignored(env));
            LoadsAsWritten(env, dir, dir[sha := Written(render, f)], sha, f, ref)
  {
    var f := BaselineFile(j, sha, at, ref, Ignored(env));
    var doc := Written(render, f);
    DirectoryExtends(env, dir, sha, doc);
    WrittenLoads(env, doc, sha, t);
    if ref.None? {
      FirstLoads(ViewOf(env, dir[sha := doc]), sha);
    } else {
      RecordIsHop(env, render, dir, j, sha, at, ref.value);
      NewFileLoadsExactlyWhen(ViewOf(env, dir), ViewOf(env, dir[sha := doc]), sha, doc);
      OldFilesLoad(env, dir);
    }
  }

  /** An anchor whose file, and every other, loads, with a walk that has room and ends at a plain file. */
  ghost predicate AnchorUsable(env: Env, dir: Dir, a: string) {
    (forall s | s in dir :: FileLoads(env, dir[s], s, false, true)) && Usable(ViewOf(env, dir), a, MAX_ANCHOR_DEPTH - 1)
  }

  /**
   The failing input: --cross-check names a file of the directory by its path, and the verb takes the sha from what it
   holds. A file called otherwise, whose sha has no file of its own, is settled on, and what is frozen against it
   never loads.
   */
  lemma MisnamedReferenceNeverLoads(env: Env, render: FrozenFile -> string, dir: Dir, cross: Doc, j: CountsJson,
                                    sha: string, t: StageTable, at: string, le: (string, string) -> bool)
    requires CrossUsable(env, cross, sha) && cross.json.value.deploySha !in dir && sha !in dir
    requires TableStands(env, sha, t) && IsDigest(env.hash(cross.bytes)) && BodyOk(j, sha, t, env.system, at)
    ensures Settles(env, dir, sha, Some(cross)) && SettledOn(env, dir, sha, Some(cross), Some(RefTo(env, cross)), le)
    ensures var f := BaselineFile(j, sha, at, Some(RefTo(env, cross)), Ignored(env));
            LoadFrozen(env, dir[sha := Written(render, f)], sha, false).Err?
  {
    RebuiltVerifies(j, sha, t, env.system, at, Some(RefTo(env, cross)));
    FreezeThenLoad(env, render, dir, j, sha, t, at, Some(RefTo(env, cross)));
  }

  lemma OldFilesLoad(env: Env, dir: Dir)
    ensures (forall s | s in dir :: FileLoads(env, dir[s], s, false, true)) <==>
      (forall s | s in dir :: ViewOf(env, dir).loads(s, false, true))
  {
  }

  lemma FirstLoads(v: View, sha: string)
    requires sha in v.dir && v.dir[sha].json.Some? && Alone(v.dir, sha) && v.loads(sha, false, false)
    requires !HasAnchor(v.dir[sha])
    ensures LoadChain(v, sha, false, []).Ok?
  {
    LoadStepBack(v, sha, false, []);
  }
}
