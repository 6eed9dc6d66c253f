/** reconstructBaseline: from the counts of an adopted measuring run to the file a fresh chain would have measured. */
module Rebuild {
  import opened Basics
  import opened TextOrder
  import opened Counts
  import opened Reconstruct

  datatype LibraryRecord = LibraryRecord(name: string, artifact: string, address: string, codeHash: string)
  datatype AdoptedStage = AdoptedStage(stage: string, deployerTxs: int, libraries: seq<LibraryRecord>)
  datatype CountsJson = CountsJson(
    concluded: bool, deploySha: string, chainId: int, counts: CountMap, deployerNonce: int, adopted: seq<AdoptedStage>,
      startNonce: Option<int>, pinBlock: Option<int>)

  /** An earlier frozen file to compare with. */
  datatype Reference = Reference(sha: string, counts: CountMap, fileHash: string)

  datatype Refusal = Usage | NotVerified | NotProven | CountMismatch(stages: seq<Diff>)

  // ---- differences ---------------------------------------------------------------------------------

  function DiffsOver(keys: seq<string>, counts: CountMap, old_: CountMap, ignore: set<string>): (r: seq<Diff>)
    ensures forall d | d in r :: d.stage in keys
  {
    if keys == [] then [] else
      var k := keys[0];
      (if k !in ignore && Look(counts, k) != Look(old_, k) then [Diff(k, Look(old_, k), Look(counts, k))] else []) +
        DiffsOver(keys[1..], counts, old_, ignore)
  }

  /** The stage-by-stage difference, in key order. `ignore` are the other system's stages. */
  function CrossCheckDiff(counts: CountMap, old_: CountMap, ignore: set<string>): seq<Diff> {
    DiffsOver(Sorted(counts.Keys + old_.Keys), counts, old_, ignore)
  }

  lemma {:induction false} DiffsOverMember(keys: seq<string>, counts: CountMap, old_: CountMap, ignore: set<string>,
                                           d: Diff)
    ensures d in DiffsOver(keys, counts, old_, ignore) <==>
            d.stage in keys && d.stage !in ignore && d.was == Look(old_, d.stage) && d.now == Look(counts, d.stage) &&
              d.was != d.now
  {
    if keys != [] { DiffsOverMember(keys[1..], counts, old_, ignore, d); }
  }

  /** The list names exactly the stages that differ and are this system's, each with its two counts. */
  lemma DiffMember(counts: CountMap, old_: CountMap, ignore: set<string>, d: Diff)
    ensures d in CrossCheckDiff(counts, old_, ignore) <==>
            d.stage !in ignore && d.was == Look(old_, d.stage) && d.now == Look(counts, d.stage) && d.was != d.now
  {
    var keys := Sorted(counts.Keys + old_.Keys);
    DiffsOverMember(keys, counts, old_, ignore, d);
    assert d.stage in keys <==> d.stage in SetOf(keys);
  }

  predicate StagesAscend(l: seq<Diff>) {
    forall i, j | 0 <= i < j < |l| :: l[i].stage != l[j].stage && Below(l[i].stage, l[j].stage)
  }

  lemma {:induction false} DiffsOverAscend(keys: seq<string>, counts: CountMap, old_: CountMap, ignore: set<string>)
    requires Distinct(keys) && forall i, j | 0 <= i < j < |keys| :: Below(keys[i], keys[j])
    ensures StagesAscend(DiffsOver(keys, counts, old_, ignore))
  {
    if keys != [] {
      DiffsOverAscend(keys[1..], counts, old_, ignore);
      var rest := DiffsOver(keys[1..], counts, old_, ignore);
      forall i | 0 <= i < |rest| ensures rest[i].stage != keys[0] && Below(keys[0], rest[i].stage) {
        assert rest[i] in rest;
        var k :| 0 <= k < |keys[1..]| && keys[1..][k] == rest[i].stage;
        assert keys[k + 1] == rest[i].stage && keys[0] != keys[k + 1];
      }
    }
  }

  lemma {:induction false} AscendingListsAgree(l: seq<Diff>, m: seq<Diff>)
    requires StagesAscend(l) && StagesAscend(m) && forall d :: d in l <==> d in m
    ensures l == m
  {
    assert (l != [] ==> l[0] in l) && (m != [] ==> m[0] in m);
    if l != [] {
      var j :| 0 <= j < |m| && m[j] == l[0];
      var i :| 0 <= i < |l| && l[i] == m[0];
      BelowTotal(l[0].stage, m[0].stage);
      assert j == 0;
      var l', m' := l[1..], m[1..];
      forall d ensures d in l' <==> d in m' {
        if d in l' { TailDiffers(l, d); assert d in m; assert d in m'; }
        if d in m' { TailDiffers(m, d); assert d in l; assert d in l'; }
      }
      AscendingListsAgree(l', m');
      assert l == [l[0]] + l' && m == [m[0]] + m';
    }
  }

  lemma TailDiffers(l: seq<Diff>, d: Diff)
    requires l != [] && StagesAscend(l) && d in l[1..]
    ensures d in l && d != l[0]
  {
    var k :| 0 <= k < |l[1..]| && l[1..][k] == d;
    assert l[k + 1] == d && l[0].stage != l[k + 1].stage;
  }

  /**
   The list is the only ascending one that names exactly those stages, so two runs that compare alike record the same
   text.
   */
  lemma DiffIsTheOnlyListing(counts: CountMap, old_: CountMap, ignore: set<string>, l: seq<Diff>)
    requires StagesAscend(l)
    requires forall d :: d in l <==>
      d.stage !in ignore && d.was == Look(old_, d.stage) && d.now == Look(counts, d.stage) && d.was != d.now
    ensures l == CrossCheckDiff(counts, old_, ignore)
  {
    var names := counts.Keys + old_.Keys;
    forall i, j | 0 <= i < j < |Sorted(names)| ensures Below(Sorted(names)[i], Sorted(names)[j]) {
      SortedAscends(names, i, j);
    }
    DiffsOverAscend(Sorted(names), counts, old_, ignore);
    forall d ensures d in l <==> d in CrossCheckDiff(counts, old_, ignore) { DiffMember(counts, old_, ignore, d); }
    AscendingListsAgree(l, CrossCheckDiff(counts, old_, ignore));
  }

  // ---- the rebuild ---------------------------------------------------------------------------------

  function EntriesFor(s: AdoptedStage): (r: seq<Adoption>)
    ensures |r| == |s.libraries| && forall i | 0 <= i < |r| :: r[i].stage == s.stage
  {
    seq(|s.libraries|, i requires 0 <= i < |s.libraries| =>
      Adoption(s.stage, s.libraries[i].name, s.libraries[i].artifact, s.libraries[i].address, s.libraries[i].codeHash))
  }

  function AllEntries(stages: seq<AdoptedStage>): seq<Adoption> {
    if stages == [] then [] else AllEntries(stages[..|stages| - 1]) + EntriesFor(stages[|stages| - 1])
  }

  /** The baseline counts: each adopted stage gains one transaction per adopted library. */
  function Raised(counts: CountMap, stages: seq<AdoptedStage>): CountMap {
    if stages == [] then counts else
      var s := stages[|stages| - 1];
      Raised(counts, stages[..|stages| - 1])[s.stage := CountAt(counts, s.stage) + |s.libraries|]
  }

  /** What the run's manifest says each adopted stage really sent. */
  function TxsOf(stages: seq<AdoptedStage>): (r: seq<(string, int)>)
    ensures |r| == |stages| && forall i | 0 <= i < |stages| :: r[i] == (stages[i].stage, stages[i].deployerTxs)
  {
    seq(|stages|, i requires 0 <= i < |stages| => (stages[i].stage, stages[i].deployerTxs))
  }

  predicate StageRecordOk(j: CountsJson, s: AdoptedStage, keys: seq<string>) {
    s.stage in keys && s.libraries != [] && s.stage in j.counts && s.deployerTxs == j.counts[s.stage]
  }

  function BodyOf(j: CountsJson, sha: string, at: string): FrozenFile {
    FrozenFile(sha,
               Measured(j.chainId, at, [],
                 Some(Reconstruction(sha, j.chainId, j.pinBlock, AllEntries(j.adopted), j.counts, None)), None),
               Raised(j.counts, j.adopted))
  }

  /** The body with the cross-check against `ref` recorded. */
  function WithCross(f: FrozenFile, ref: Reference, diff: seq<Diff>): FrozenFile
    requires f.measured.reconstructed.Some?
  {
    var r := f.measured.reconstructed.value.(crossCheck := Some(CrossCheck(ref.sha, diff)));
    f.(measured := f.measured.(reconstructed := Some(r), crossChecked := Some(Anchor(ref.sha, ref.fileHash))))
  }

  predicate RunOk(j: CountsJson, sha: string, keys: seq<string>) {
    && j.concluded && j.deploySha == sha && j.chainId == TWIN_CHAIN_ID && j.adopted != []
    && SetOf(keys) <= j.counts.Keys && |j.counts| == |keys|
    && j.deployerNonce == (if j.startNonce.Some? then j.startNonce.value else 0) + SumValues(j.counts) + 1
  }

  function StageNamesOf(stages: seq<AdoptedStage>): (r: seq<string>)
    ensures |r| == |stages| && forall i | 0 <= i < |stages| :: r[i] == stages[i].stage
  {
    seq(|stages|, i requires 0 <= i < |stages| => stages[i].stage)
  }

  predicate HasDiffFor(diff: seq<Diff>, stage: string) { exists d | d in diff :: d.stage == stage }

  /** The loop over the adopted stages: entries appended, counts raised in place. */
  method GatherRun(j: CountsJson, keys: seq<string>) returns (ok: bool, adopted: seq<Adoption>, counts: CountMap)
    ensures ok <==> forall i | 0 <= i < |j.adopted| :: StageRecordOk(j, j.adopted[i], keys)
    ensures ok ==> adopted == AllEntries(j.adopted) && counts == Raised(j.counts, j.adopted)
  {
    adopted, counts := [], j.counts;
    for i := 0 to |j.adopted|
      invariant adopted == AllEntries(j.adopted[..i]) && counts == Raised(j.counts, j.adopted[..i])
      invariant forall k | 0 <= k < i :: StageRecordOk(j, j.adopted[k], keys)
    {
      var s := j.adopted[i];
      if !StageRecordOk(j, s, keys) { return false, adopted, counts; }
      assert j.adopted[..i + 1][..i] == j.adopted[..i];
      adopted := adopted + EntriesFor(s);
      counts := counts[s.stage := j.counts[s.stage] + |s.libraries|];
    }
    assert j.adopted[..|j.adopted|] == j.adopted;
    ok := true;
  }

  /** Every difference accepted, and nothing accepted that does not differ. */
  predicate Accepted(diff: seq<Diff>, acceptDiff: seq<string>) {
    (forall d | d in diff :: d.stage in acceptDiff) && (forall s | s in acceptDiff :: HasDiffFor(diff, s))
  }

  /** The file the rebuild returns when nothing is refused. */
  function BaselineFile(j: CountsJson, sha: string, at: string, ref: Option<Reference>,
    ignore: set<string>): FrozenFile {
    var body := BodyOf(j, sha, at);
    if ref.None? then body else WithCross(body, ref.value, CrossCheckDiff(body.counts, ref.value.counts, ignore))
  }

  /** A clean concluded run with complete adoption records that the table agrees with. */
  ghost predicate BodyOk(j: CountsJson, sha: string, t: StageTable, system: System, at: string) {
    && RunOk(j, sha, StageKeys(t, system))
    && (forall i | 0 <= i < |j.adopted| :: StageRecordOk(j, j.adopted[i], StageKeys(t, system)))
    && ReconstructionOk(BodyOf(j, sha, at), t, system)
  }

  lemma MalformedIsRefused(f: FrozenFile, t: StageTable, system: System, i: nat)
    requires f.measured.reconstructed.Some? && i < |f.measured.reconstructed.value.adopted|
    requires var a := f.measured.reconstructed.value.adopted[i];
      !PrefixedHex(a.address, 40) || !PrefixedHex(a.codeHash, 64)
    ensures !ReconstructionOk(f, t, system)
  {
    var r := f.measured.reconstructed.value;
    assert !EntryOk(r.adopted[i], StageKeys(t, system));
    assert !EntriesOk(r.adopted, StageKeys(t, system));
  }

  /** The first half: the body from the run, verified against the table. */
  method RebuildBody(j: CountsJson, sha: string, t: StageTable, system: System, at: string)
    returns (ok: bool, file: FrozenFile)
    ensures file == BodyOf(j, sha, at) || !ok
    ensures ok <==> BodyOk(j, sha, t, system, at)
  {
    file := BodyOf(j, sha, at);
    var keys := StageKeys(t, system);
    if !RunOk(j, sha, keys) { return false, file; }
    var good, adopted, counts := GatherRun(j, keys);
    if !good { return false, file; }
    file := FrozenFile(sha, Measured(j.chainId, at, [],
      Some(Reconstruction(sha, j.chainId, j.pinBlock, adopted, j.counts, None)), None), counts);
    for i := 0 to |adopted| {
      if !PrefixedHex(adopted[i].address, 40) || !PrefixedHex(adopted[i].codeHash, 64) {
        MalformedIsRefused(file, t, system, i);
        return false, file;
      }
    }
    ok := VerifyReconstruction(file, t, system);
  }

  /** The second half: compare with the reference, record the accepted differences, verify again. */
  method AddCrossCheck(body: FrozenFile, t: StageTable, system: System, ref: Reference, acceptDiff: seq<string>,
                       ignore: set<string>)
    returns (r: Result<FrozenFile, Refusal>)
    requires body.measured.reconstructed.Some?
    ensures var diff := CrossCheckDiff(body.counts, ref.counts, ignore);
            && (r.Ok? <==> Accepted(diff, acceptDiff) && ReconstructionOk(WithCross(body, ref, diff), t, system))
            && (r.Ok? ==> r.value == WithCross(body, ref, diff))
  {
    var diff := CrossCheckDiff(body.counts, ref.counts, ignore);
    if exists d | d in diff :: d.stage !in acceptDiff { return Err(CountMismatch(diff)); }
    if exists s | s in acceptDiff :: !HasDiffFor(diff, s) { return Err(Usage); }
    var file := WithCross(body, ref, diff);
    var ok := VerifyReconstruction(file, t, system);
    r := if ok then Ok(file) else Err(NotVerified);
  }

  /** The run is rebuilt: a good body, proven records, and exactly the differences from the reference accepted. */
  ghost predicate Rebuilds(j: CountsJson, sha: string, t: StageTable, system: System, at: string, proven: bool,
                           ref: Option<Reference>, acceptDiff: seq<string>, ignore: set<string>) {
    && BodyOk(j, sha, t, system, at) && proven
    && (if ref.None? then acceptDiff == []
      else Accepted(CrossCheckDiff(Raised(j.counts, j.adopted), ref.value.counts, ignore), acceptDiff))
  }

  /** A reference the verb accepts: an earlier file that loads on its own, for another sha. */
  predicate RefOk(ref: Reference, sha: string) {
    IsSha(ref.sha) && IsDigest(ref.fileHash) && ref.sha != sha && ValidCounts(ref.counts)
  }

  lemma DiffIsWellFormed(counts: CountMap, old_: CountMap, keys: seq<string>, other: set<string>, d: Diff)
    requires ValidCounts(counts) && ValidCounts(old_) && counts.Keys - other == SetOf(keys)
    requires d in CrossCheckDiff(counts, old_, other)
    ensures DiffOk(d, keys, other)
  {
    DiffMember(counts, old_, other, d);
    if d.stage !in keys { assert d.stage !in SetOf(keys) && d.stage !in counts; }
  }

  /**
   The second verification cannot fail: the differences found against a reference are always ones the check
   accepts, a changed or added stage of the table or a stage the table no longer has.
   */
  lemma CrossCheckAlwaysVerifies(body: FrozenFile, t: StageTable, system: System, ref: Reference)
    requires ReconstructionOk(body, t, system) && ValidCounts(body.counts) && ValidCounts(ref.counts)
    requires IsSha(ref.sha) && IsDigest(ref.fileHash) && ref.sha != body.deploySha
    ensures var diff := CrossCheckDiff(body.counts, ref.counts, OtherKeys(t, system));
            ReconstructionOk(WithCross(body, ref, diff), t, system)
  {
    var keys, other := StageKeys(t, system), OtherKeys(t, system);
    var diff := CrossCheckDiff(body.counts, ref.counts, other);
    CrossPartVerifies(body, ref, keys, other);
    RestIsUnchanged(body, ref, diff, keys, other);
  }

  lemma CrossPartVerifies(body: FrozenFile, ref: Reference, keys: seq<string>, other: set<string>)
    requires body.measured.reconstructed.Some? && ValidCounts(body.counts) && ValidCounts(ref.counts)
    requires body.counts.Keys - other == SetOf(keys)
    requires IsSha(ref.sha) && IsDigest(ref.fileHash) && ref.sha != body.deploySha
    ensures var file := WithCross(body, ref, CrossCheckDiff(body.counts, ref.counts, other));
            CrossOk(file, file.measured.reconstructed.value, keys, other)
  {
    forall d | d in CrossCheckDiff(body.counts, ref.counts, other) ensures DiffOk(d, keys, other) {
      DiffIsWellFormed(body.counts, ref.counts, keys, other, d);
    }
  }

  lemma RestIsUnchanged(body: FrozenFile, ref: Reference, diff: seq<Diff>, keys: seq<string>, other: set<string>)
    requires body.measured.reconstructed.Some?
    ensures var file, r := WithCross(body, ref, diff), body.measured.reconstructed.value;
            var q := file.measured.reconstructed.value;
            && q.adopted == r.adopted && (HeaderOk(body, r) ==> HeaderOk(file, q)) &&
              (SameKeys(body, r, keys, other) ==> SameKeys(file, q, keys, other))
            && (CountsAddUp(body, r, keys) ==> CountsAddUp(file, q, keys))
  {
    var file, r := WithCross(body, ref, diff), body.measured.reconstructed.value;
    assert forall k :: StageAddsUp(body, r, k) <==> StageAddsUp(file, file.measured.reconstructed.value, k);
  }

  lemma {:induction false} RaisedKeys(counts: CountMap, stages: seq<AdoptedStage>)
    requires forall i | 0 <= i < |stages| :: stages[i].stage in counts
    ensures Raised(counts, stages).Keys == counts.Keys
    decreases |stages|
  {
    if stages != [] { RaisedKeys(counts, stages[..|stages| - 1]); }
  }

  /** The counts of a rebuilt body are valid: measured counts plus creations. */
  lemma BodyCountsValid(j: CountsJson, sha: string, t: StageTable, system: System, at: string)
    requires BodyOk(j, sha, t, system, at)
    ensures ValidCounts(BodyOf(j, sha, at).counts)
  {
    var f, keys := BodyOf(j, sha, at), StageKeys(t, system);
    var r := f.measured.reconstructed.value;
    forall i | 0 <= i < |j.adopted| ensures j.adopted[i].stage in j.counts {
      assert StageRecordOk(j, j.adopted[i], keys);
    }
    RaisedKeys(j.counts, j.adopted);
    SetOfSize(keys);
    SubsetOfSameSize(SetOf(keys), j.counts.Keys);
    forall k | k in f.counts ensures f.counts[k] >= 0 {
      assert k in SetOf(keys);
      assert StageAddsUp(f, r, k);
    }
  }

  /** So the rebuild never fails in its second verification when the reference is one the verb accepts. */
  lemma RebuiltVerifies(j: CountsJson, sha: string, t: StageTable, system: System, at: string, ref: Option<Reference>)
    requires BodyOk(j, sha, t, system, at) && (ref.Some? ==> RefOk(ref.value, sha))
    ensures var f := BaselineFile(j, sha, at, ref, OtherKeys(t, system));
      ReconstructionOk(f, t, system) && ValidCounts(f.counts)
  {
    BodyCountsValid(j, sha, t, system, at);
    if ref.Some? { CrossCheckAlwaysVerifies(BodyOf(j, sha, at), t, system, ref.value); }
  }

  /** `proven` is what the build and the chain answered about the adoption records. */
  method ReconstructBaseline(j: CountsJson, sha: string, t: StageTable, system: System, at: string, proven: bool,
                             ref: Option<Reference>, acceptDiff: seq<string>,
                               ignore: set<string>) returns (r: Result<FrozenFile, Refusal>)
    ensures r.Ok? <==>
      Rebuilds(j, sha, t, system, at, proven, ref, acceptDiff, ignore) &&
        ReconstructionOk(BaselineFile(j, sha, at, ref, ignore), t, system)
    // with a reference the verb accepts, and the table's own other stages ignored, the second verification never
    // refuses
    ensures (ref.Some? ==> RefOk(ref.value, sha)) && ignore == OtherKeys(t, system) ==>
      (r.Ok? <==> Rebuilds(j, sha, t, system, at, proven, ref, acceptDiff, ignore))
    ensures r.Ok? ==> r.value == BaselineFile(j, sha, at, ref, ignore)
  {
    var ok, file := RebuildBody(j, sha, t, system, at);
    if !ok { return Err(Usage); }
    if (ref.Some? ==> RefOk(ref.value, sha)) && ignore == OtherKeys(t, system) {
      RebuiltVerifies(j, sha, t, system, at, ref);
    }
    if !proven { return Err(NotProven); }
    if ref.None? {
      if acceptDiff != [] { return Err(Usage); }
      return Ok(file);
    }
    r := AddCrossCheck(file, t, system, ref.value, acceptDiff, ignore);
  }

  // ---- the inverse ---------------------------------------------------------------------------------

  lemma {:induction false} RaisedAt(counts: CountMap, stages: seq<AdoptedStage>, k: string)
    requires Distinct(StageNamesOf(stages))
    ensures forall i | 0 <= i < |stages| && stages[i].stage == k ::
      Look(Raised(counts, stages), k) == Some(CountAt(counts, k) + |stages[i].libraries|)
    ensures (forall i | 0 <= i < |stages| :: stages[i].stage != k) ==>
      Look(Raised(counts, stages), k) == Look(counts, k)
    decreases |stages|
  {
    if stages != [] {
      var n := |stages| - 1;
      assert StageNamesOf(stages)[..n] == StageNamesOf(stages[..n]);
      assert forall i | 0 <= i < n :: StageNamesOf(stages)[i] != StageNamesOf(stages)[n];
      RaisedAt(counts, stages[..n], k);
      assert forall i | 0 <= i < n :: stages[..n][i] == stages[i];
    }
  }

  /** The run's own stages, as the rebuild accepts them. */
  ghost predicate CleanRun(j: CountsJson, keys: seq<string>) {
    && Distinct(StageNamesOf(j.adopted)) && ValidCounts(j.counts)
    && forall i | 0 <= i < |j.adopted| :: StageRecordOk(j, j.adopted[i], keys)
  }

  /**
   The inverse: counting each adopted stage at what the deployer sent turns the baseline back into the
   measured counts, at every stage, and the override is within the bounds effectiveCounts demands.
   */
  lemma EffectiveUndoesRaised(j: CountsJson, keys: seq<string>)
    requires CleanRun(j, keys)
    ensures var txs := TxsOf(j.adopted);
            var base := Raised(j.counts, j.adopted);
            && (forall i | 0 <= i < |txs| :: txs[i].0 in base && 0 <= txs[i].1 <= base[txs[i].0])
            && Overridden(base, txs) == j.counts
  {
    var txs, base := TxsOf(j.adopted), Raised(j.counts, j.adopted);
    forall i | 0 <= i < |txs| ensures txs[i].0 in base && 0 <= txs[i].1 <= base[txs[i].0] {
      RaisedAt(j.counts, j.adopted, txs[i].0);
      assert StageRecordOk(j, j.adopted[i], keys);
    }
    forall i, k | 0 <= i < k < |txs| ensures txs[i].0 != txs[k].0 {
      assert StageNamesOf(j.adopted)[i] != StageNamesOf(j.adopted)[k];
    }
    forall k ensures Look(Overridden(base, txs), k) == Look(j.counts, k) {
      OverriddenAt(base, txs, k);
      RaisedAt(j.counts, j.adopted, k);
      if i :| 0 <= i < |txs| && txs[i].0 == k {
        assert StageRecordOk(j, j.adopted[i], keys);
      } else {
        assert forall i | 0 <= i < |j.adopted| :: txs[i].0 == j.adopted[i].stage != k;
      }
    }
    SameMap(Overridden(base, txs), j.counts);
  }

  lemma SameMap(a: CountMap, b: CountMap)
    requires forall k :: Look(a, k) == Look(b, k)
    ensures a == b
  {
    forall k ensures k in a <==> k in b { assert Look(a, k) == Look(b, k); }
    forall k | k in a ensures a[k] == b[k] { assert Look(a, k) == Look(b, k); }
  }

  /**
   Conservation of the nonce: take a run the rebuild accepts, raise its counts to the baseline and count the adopted
   stages at what the deployer sent again. From the recorded start that gives the nonce the run recorded, exactly
   for the vaults system. The gateway sends no proof transaction, so there it is one short.
   */
  lemma NonceIsConserved(j: CountsJson, sha: string, t: StageTable, system: System, at: string)
    requires BodyOk(j, sha, t, system, at) && Distinct(StageNamesOf(j.adopted))
    ensures var start := if j.startNonce.Some? then j.startNonce.value else 0;
            var effective := Overridden(BodyOf(j, sha, at).counts, TxsOf(j.adopted));
            FinalDeployerNonce(t, system, effective, start) == j.deployerNonce <==> system.Vaults?
  {
    var keys := StageKeys(t, system);
    EffectiveUndoesRaised(j, keys);
    SetOfSize(keys);
    SubsetOfSameSize(SetOf(keys), j.counts.Keys);
    SumIsOrderFree(j.counts, keys, Sorted(j.counts.Keys));
  }
}
