/**
 What a rebuilt baseline holds of the run it was rebuilt from: every adoption record once, in the run's order and
 with its own fields, and nothing else.
 */
module RunRecords {
  import opened Basics
  import opened TextOrder
  import opened Counts
  import opened Reconstruct
  import opened Rebuild

  /** How many records the first `i` adopted stages carry. */
  function Start(stages: seq<AdoptedStage>, i: nat): nat
    requires i <= |stages|
  {
    if i == 0 then 0 else Start(stages, i - 1) + |stages[i - 1].libraries|
  }

  lemma {:induction false} StartOfFront(stages: seq<AdoptedStage>, n: nat, i: nat)
    requires i <= n <= |stages|
    ensures Start(stages[..n], i) == Start(stages, i)
  {
    if i > 0 { StartOfFront(stages, n, i - 1); }
  }

  lemma {:induction false} StartGrows(stages: seq<AdoptedStage>, i: nat, n: nat)
    requires i < n <= |stages|
    ensures Start(stages, i) + |stages[i].libraries| <= Start(stages, n)
    decreases n
  {
    if i < n - 1 { StartGrows(stages, i, n - 1); }
  }

  lemma {:induction false} AllStand(stages: seq<AdoptedStage>)
    ensures |AllEntries(stages)| == Start(stages, |stages|)
    decreases |stages|
  {
    if stages != [] {
      var n := |stages| - 1;
      AllStand(stages[..n]);
      StartOfFront(stages, n, n);
    }
  }

  /** Record `k` of stage `i` stands behind the records before it, with its stage and its own four fields. */
  lemma {:induction false} RecordStands(stages: seq<AdoptedStage>, i: nat, k: nat)
    requires i < |stages| && k < |stages[i].libraries|
    ensures Start(stages, i) + k < |AllEntries(stages)|
    ensures var a, l := AllEntries(stages)[Start(stages, i) + k], stages[i].libraries[k];
            && a.stage == stages[i].stage && a.library == l.name && a.artifact == l.artifact
            && a.address == l.address && a.codeHash == l.codeHash
    decreases |stages|
  {
    var n := |stages| - 1;
    StartOfFront(stages, n, i);
    AllStand(stages[..n]);
    if i < n { RecordStands(stages[..n], i, k); } else { StartOfFront(stages, n, n); }
  }

  /** Nothing else stands there: every entry is the entry of one record. */
  lemma {:induction false} EntryIsARecord(stages: seq<AdoptedStage>, p: nat) returns (i: nat, k: nat)
    requires p < |AllEntries(stages)|
    ensures i < |stages| && k < |stages[i].libraries| && p == Start(stages, i) + k
    decreases |stages|
  {
    var n := |stages| - 1;
    AllStand(stages[..n]);
    StartOfFront(stages, n, n);
    if p < Start(stages, n) {
      i, k := EntryIsARecord(stages[..n], p);
      StartOfFront(stages, n, i);
    } else {
      i, k := n, p - Start(stages, n);
    }
  }

  /** And of one only. */
  lemma RecordsStandApart(stages: seq<AdoptedStage>, i: nat, k: nat, i': nat, k': nat)
    requires i < |stages| && k < |stages[i].libraries| && i' < |stages| && k' < |stages[i'].libraries|
    requires Start(stages, i) + k == Start(stages, i') + k'
    ensures i == i' && k == k'
  {
    if i < i' { StartGrows(stages, i, i'); }
    if i' < i { StartGrows(stages, i', i); }
  }

  /** A library of a stage of the run. */
  datatype Of = Of(stage: AdoptedStage, library: LibraryRecord)

  ghost predicate InRun(stages: seq<AdoptedStage>, o: Of) { o.stage in stages && o.library in o.stage.libraries }

  /** The entry says of a library what its record says. */
  predicate Tells(a: Adoption, o: Of) {
    && a.stage == o.stage.stage && a.library == o.library.name && a.artifact == o.library.artifact
    && a.address == o.library.address && a.codeHash == o.library.codeHash
  }

  /** An entry is in the file exactly when some record of the run says the same of the same library. */
  lemma EntriesAreTheRecords(stages: seq<AdoptedStage>, a: Adoption)
    ensures a in AllEntries(stages) <==> exists o :: InRun(stages, o) && Tells(a, o)
  {
    if p :| 0 <= p < |AllEntries(stages)| && AllEntries(stages)[p] == a {
      var i, k := EntryIsARecord(stages, p);
      RecordStands(stages, i, k);
      var o := Of(stages[i], stages[i].libraries[k]);
      assert InRun(stages, o) && Tells(a, o);
    }
    if o :| InRun(stages, o) && Tells(a, o) {
      var i :| 0 <= i < |stages| && stages[i] == o.stage;
      var k :| 0 <= k < |stages[i].libraries| && stages[i].libraries[k] == o.library;
      RecordStands(stages, i, k);
    }
  }

  /** The file is the run's: its sha, its chain and block, and its counts as the measured ones. */
  lemma RebuiltFromTheRun(j: CountsJson, sha: string, at: string, ref: Option<Reference>, ignore: set<string>)
    ensures var f := BaselineFile(j, sha, at, ref, ignore);
            && f.deploySha == sha && f.measured.chainId == j.chainId && f.measured.at == at && f.measured.adopted == []
            && f.measured.reconstructed.Some?
            && var r := f.measured.reconstructed.value;
            && r.fromSha == sha && r.fromChain == j.chainId && r.pinBlock == j.pinBlock && r.measured == j.counts
            && r.adopted == AllEntries(j.adopted)
            && (ref.None? ==> r.crossCheck.None? && f.measured.crossChecked.None?)
            && (ref.Some? ==>
                  && f.measured.crossChecked == Some(Anchor(ref.value.sha, ref.value.fileHash))
                  && r.crossCheck.Some? && r.crossCheck.value.against == ref.value.sha)
  {
  }

  /** Its adopted entries are the run's records, as many as there are, and no others. */
  lemma RebuiltEntries(j: CountsJson, sha: string, at: string, ref: Option<Reference>, ignore: set<string>,
                       a: Adoption)
    ensures var f := BaselineFile(j, sha, at, ref, ignore);
            && f.measured.reconstructed.Some?
            && var adopted := f.measured.reconstructed.value.adopted;
            && (a in adopted <==> exists o :: InRun(j.adopted, o) && Tells(a, o))
            && |adopted| == Start(j.adopted, |j.adopted|)
  {
    RebuiltFromTheRun(j, sha, at, ref, ignore);
    EntriesAreTheRecords(j.adopted, a);
    AllStand(j.adopted);
  }

  /** Each stage counts what the run measured plus one for each of its records. */
  lemma RebuiltCounts(j: CountsJson, sha: string, at: string, ref: Option<Reference>, ignore: set<string>)
    requires Distinct(StageNamesOf(j.adopted))
    ensures var f := BaselineFile(j, sha, at, ref, ignore);
            && (forall s | s in j.adopted ::
                  Look(f.counts, s.stage) == Some(CountAt(j.counts, s.stage) + |s.libraries|))
            && (forall k | k !in StageNamesOf(j.adopted) :: Look(f.counts, k) == Look(j.counts, k))
  {
    var raised := Raised(j.counts, j.adopted);
    assert BaselineFile(j, sha, at, ref, ignore).counts == raised;
    forall s | s in j.adopted ensures Look(raised, s.stage) == Some(CountAt(j.counts, s.stage) + |s.libraries|) {
      AdoptedAt(j, s);
    }
    forall k | k !in StageNamesOf(j.adopted) ensures Look(raised, k) == Look(j.counts, k) { NotAdopted(j, k); }
  }

  /** And a reference leaves exactly the stages that differ from it, each with both counts. */
  lemma RebuiltCrossCheck(j: CountsJson, sha: string, at: string, ref: Reference, ignore: set<string>, d: Diff)
    ensures var f := BaselineFile(j, sha, at, Some(ref), ignore);
            && f.measured.reconstructed.Some? && f.measured.reconstructed.value.crossCheck.Some?
            && (d in f.measured.reconstructed.value.crossCheck.value.accepted <==>
                  && d.stage !in ignore && d.was != d.now
                  && d.was == Look(ref.counts, d.stage) && d.now == Look(f.counts, d.stage))
  {
    RebuiltFromTheRun(j, sha, at, Some(ref), ignore);
    DiffMember(Raised(j.counts, j.adopted), ref.counts, ignore, d);
  }

  lemma AdoptedAt(j: CountsJson, s: AdoptedStage)
    requires Distinct(StageNamesOf(j.adopted)) && s in j.adopted
    ensures Look(Raised(j.counts, j.adopted), s.stage) == Some(CountAt(j.counts, s.stage) + |s.libraries|)
  {
    RaisedAt(j.counts, j.adopted, s.stage);
  }

  lemma NotAdopted(j: CountsJson, k: string)
    requires Distinct(StageNamesOf(j.adopted)) && k !in StageNamesOf(j.adopted)
    ensures Look(Raised(j.counts, j.adopted), k) == Look(j.counts, k)
  {
    RaisedAt(j.counts, j.adopted, k);
    assert forall i | 0 <= i < |j.adopted| :: StageNamesOf(j.adopted)[i] == j.adopted[i].stage;
  }

  lemma MeasuredExactly(j: CountsJson, keys: seq<string>)
    requires Distinct(keys)
    ensures (SetOf(keys) <= j.counts.Keys && |j.counts| == |keys|) <==> forall k :: k in j.counts <==> k in keys
    ensures (forall k :: k in j.counts <==> k in keys) ==> SumValues(j.counts) == SumOver(j.counts, keys)
  {
    SetOfSize(keys);
    assert |j.counts| == |j.counts.Keys|;
    if SetOf(keys) <= j.counts.Keys && |j.counts| == |keys| {
      SubsetOfSameSize(SetOf(keys), j.counts.Keys);
      assert forall k :: k in j.counts <==> k in SetOf(keys);
    }
    if forall k :: k in j.counts <==> k in keys {
      assert SetOf(keys) == j.counts.Keys;
      SumIsOrderFree(j.counts, keys, Sorted(j.counts.Keys));
    }
  }

  lemma AcceptedExactly(counts: CountMap, old_: CountMap, ignore: set<string>, accept: seq<string>)
    ensures Accepted(CrossCheckDiff(counts, old_, ignore), accept) <==>
            forall k :: k in accept <==> k !in ignore && Look(counts, k) != Look(old_, k)
  {
    var diff := CrossCheckDiff(counts, old_, ignore);
    forall k ensures HasDiffFor(diff, k) <==> k !in ignore && Look(counts, k) != Look(old_, k) {
      DiffMember(counts, old_, ignore, Diff(k, Look(old_, k), Look(counts, k)));
      if d :| d in diff && d.stage == k { DiffMember(counts, old_, ignore, d); }
    }
    assert forall d | d in diff :: HasDiffFor(diff, d.stage);
  }

  lemma RunOkExactly(j: CountsJson, sha: string, keys: seq<string>)
    requires Distinct(keys)
    ensures RunOk(j, sha, keys) && (forall i | 0 <= i < |j.adopted| :: StageRecordOk(j, j.adopted[i], keys)) <==>
      && j.concluded && j.deploySha == sha && j.chainId == 918453 && j.adopted != []
      && (forall k :: k in j.counts <==> k in keys)
      && j.deployerNonce == (if j.startNonce.Some? then j.startNonce.value else 0) + SumOver(j.counts, keys) + 1
      && (forall s | s in j.adopted ::
            s.stage in keys && s.libraries != [] && Look(j.counts, s.stage) == Some(s.deployerTxs))
  {
    MeasuredExactly(j, keys);
    assert (forall i | 0 <= i < |j.adopted| :: StageRecordOk(j, j.adopted[i], keys)) <==>
      forall s | s in j.adopted :: StageRecordOk(j, s, keys);
    assert forall s :: StageRecordOk(j, s, keys) <==>
      s.stage in keys && s.libraries != [] && Look(j.counts, s.stage) == Some(s.deployerTxs);
  }

  lemma KeysAreDistinct(f: FrozenFile, t: StageTable, system: System)
    requires ReconstructionOk(f, t, system)
    ensures Distinct(StageKeys(t, system))
  {
  }

  /**
   When a run is rebuilt: it concluded, for this sha and on the Twin; it measured the system's stages and no others;
   its nonce is the start, what it measured and the proof transaction; every adopted stage is one of them, has
   records, and sent what was measured; the table agrees with the file; the records are proven; and the stages
   accepted are those that differ from the reference, none without one.
   */
  lemma RebuildsExactlyWhen(j: CountsJson, sha: string, t: StageTable, system: System, at: string, proven: bool,
                            ref: Option<Reference>, accept: seq<string>, ignore: set<string>)
    ensures Rebuilds(j, sha, t, system, at, proven, ref, accept, ignore) <==>
      && j.concluded && j.deploySha == sha && j.chainId == 918453 && j.adopted != [] && proven
      && (forall k :: k in j.counts <==> k in StageKeys(t, system))
      && j.deployerNonce == (if j.startNonce.Some? then j.startNonce.value else 0) +
           SumOver(j.counts, StageKeys(t, system)) + 1
      && (forall s | s in j.adopted ::
            s.stage in StageKeys(t, system) && s.libraries != [] && Look(j.counts, s.stage) == Some(s.deployerTxs))
      && ReconstructionOk(BodyOf(j, sha, at), t, system)
      && (ref.None? ==> accept == [])
      && (ref.Some? ==> forall k :: k in accept <==>
            k !in ignore && Look(Raised(j.counts, j.adopted), k) != Look(ref.value.counts, k))
  {
    if ReconstructionOk(BodyOf(j, sha, at), t, system) {
      KeysAreDistinct(BodyOf(j, sha, at), t, system);
      RunOkExactly(j, sha, StageKeys(t, system));
    }
    if ref.Some? { AcceptedExactly(Raised(j.counts, j.adopted), ref.value.counts, ignore, accept); }
  }
}
