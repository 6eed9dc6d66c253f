/** The offline check of a rebuilt baseline, in terms of the file's own fields and of single entries. */
module AcceptedBaseline {
  import opened Basics
  import opened TextOrder
  import opened Counts
  import opened Reconstruct

  /** The places of a stage's entries. */
  function At(adopted: seq<Adoption>, k: string): set<nat> { set i: nat | i < |adopted| && adopted[i].stage == k }

  lemma {:induction false} EntriesAreAt(adopted: seq<Adoption>, k: string)
    ensures |EntriesOf(adopted, k)| == |At(adopted, k)|
    decreases |adopted|
  {
    if adopted != [] {
      var n := |adopted| - 1;
      EntriesAreAt(adopted[..n], k);
      assert At(adopted, k) == At(adopted[..n], k) + (if adopted[n].stage == k then {n} else {});
    }
  }

  /** Some entry adopts this library, by name and artifact, at this stage. */
  ghost predicate Adopted(adopted: seq<Adoption>, k: string, l: Library) {
    exists a :: a in adopted && a.stage == k && a.library == l.name && a.artifact == l.artifact
  }

  lemma {:induction false} ListedIsAdopted(adopted: seq<Adoption>, k: string, l: Library)
    ensures l in EntriesOf(adopted, k) <==> Adopted(adopted, k, l)
    decreases |adopted|
  {
    if adopted != [] {
      var n := |adopted| - 1;
      ListedIsAdopted(adopted[..n], k, l);
      assert adopted == adopted[..n] + [adopted[n]];
      if a :| a in adopted && a.stage == k && a.library == l.name && a.artifact == l.artifact {
        assert a in adopted[..n] || a == adopted[n];
      }
    }
  }

  lemma {:induction false} NamesListedOnce(adopted: seq<Adoption>, k: string)
    requires NoneTwice(adopted)
    ensures Distinct(EntriesOf(adopted, k))
    decreases |adopted|
  {
    if adopted != [] {
      var n := |adopted| - 1;
      var front, last := adopted[..n], Library(adopted[n].library, adopted[n].artifact);
      NamesListedOnce(front, k);
      ListedIsAdopted(front, k, last);
      assert forall i | 0 <= i < n :: !SameEntry(adopted[i], adopted[n]);
      LastIsNew(EntriesOf(front, k), last);
    }
  }

  lemma LastIsNew(front: seq<Library>, l: Library)
    requires Distinct(front)
    ensures l !in front ==> Distinct(front + [l])
  {
  }

  lemma {:induction false} CountedOnce(s: seq<Library>, l: Library)
    ensures l in s <==> multiset(s)[l] > 0
    ensures Distinct(s) ==> multiset(s)[l] <= 1
  {
    if s != [] {
      var n := |s| - 1;
      assert s == s[..n] + [s[n]];
      CountedOnce(s[..n], l);
    }
  }

  lemma {:induction false} RepeatIsCounted(s: seq<Library>, i: nat, j: nat)
    requires i < j < |s| && s[i] == s[j]
    ensures multiset(s)[s[i]] >= 2
  {
    assert s == s[..j] + [s[j]] + s[j + 1..];
    assert s[i] in multiset(s[..j]);
  }

  /** Lists without repeats are permutations exactly when they have the same members. */
  lemma SameMembers(a: seq<Library>, b: seq<Library>)
    requires Distinct(a)
    ensures multiset(a) == multiset(b) <==> Distinct(b) && forall l :: l in a <==> l in b
  {
    if multiset(a) == multiset(b) {
      forall l ensures l in a <==> l in b { CountedOnce(a, l); CountedOnce(b, l); }
      forall i, j | 0 <= i < j < |b| ensures b[i] != b[j] {
        CountedOnce(a, b[i]);
        if b[i] == b[j] { RepeatIsCounted(b, i, j); }
      }
    }
    if Distinct(b) && forall l :: l in a <==> l in b {
      forall l ensures multiset(a)[l] == multiset(b)[l] { CountedOnce(a, l); CountedOnce(b, l); }
    }
  }

  /** The entries of every adopting stage are the libraries the table lets it adopt, each listed once. */
  ghost predicate AdoptsTheTables(adopted: seq<Adoption>, t: StageTable) {
    forall a | a in adopted :: StageAdopts(adopted, t, a.stage)
  }

  ghost predicate StageAdopts(adopted: seq<Adoption>, t: StageTable, k: string) {
    Distinct(AdoptableOf(t, k)) && forall l :: Adopted(adopted, k, l) <==> l in AdoptableOf(t, k)
  }

  lemma StageAdoptsIs(adopted: seq<Adoption>, t: StageTable, k: string)
    requires NoneTwice(adopted)
    ensures multiset(EntriesOf(adopted, k)) == multiset(AdoptableOf(t, k)) <==> StageAdopts(adopted, t, k)
  {
    NamesListedOnce(adopted, k);
    SameMembers(EntriesOf(adopted, k), AdoptableOf(t, k));
    forall l ensures l in EntriesOf(adopted, k) <==> Adopted(adopted, k, l) { ListedIsAdopted(adopted, k, l); }
  }

  lemma FullyAdoptedIs(adopted: seq<Adoption>, t: StageTable)
    requires NoneTwice(adopted)
    ensures FullyAdopted(adopted, t) <==> AdoptsTheTables(adopted, t)
  {
    forall k ensures multiset(EntriesOf(adopted, k)) == multiset(AdoptableOf(t, k)) <==> StageAdopts(adopted, t, k) {
      StageAdoptsIs(adopted, t, k);
    }
    assert forall a | a in adopted :: a.stage in StagesOf(adopted);
  }

  /** The header: this sha, the Twin twice, a block number if any, and entries instead of adopted stage names. */
  ghost predicate FromTwinRun(file: FrozenFile, r: Reconstruction) {
    && r.fromSha == file.deploySha && r.fromChain == 918453 && file.measured.chainId == 918453
    && file.measured.adopted == [] && r.adopted != [] && r.pinBlock != Some(0)
    && (r.pinBlock.Some? ==> r.pinBlock.value >= 0)
  }

  /** Every stage of the system, once, and no other but the other systems', adds up from its measured count. */
  ghost predicate EveryStageAddsUp(file: FrozenFile, r: Reconstruction, keys: seq<string>, other: set<string>) {
    && Distinct(keys)
    && (forall k | k in keys :: k !in other && k in r.measured && k in file.counts && r.measured[k] >= 0 &&
          file.counts[k] == r.measured[k] + |At(r.adopted, k)|)
    && (forall k | k in r.measured :: k in keys)
    && (forall k | k in file.counts :: k in keys || k in other)
  }

  lemma SumsAre(file: FrozenFile, r: Reconstruction, keys: seq<string>, other: set<string>)
    ensures SameKeys(file, r, keys, other) && CountsAddUp(file, r, keys) <==> EveryStageAddsUp(file, r, keys, other)
  {
    forall k ensures |EntriesOf(r.adopted, k)| == |At(r.adopted, k)| { EntriesAreAt(r.adopted, k); }
    if SameKeys(file, r, keys, other) && CountsAddUp(file, r, keys) { AddsUp(file, r, keys, other); }
    if EveryStageAddsUp(file, r, keys, other) {
      assert file.counts.Keys - other == SetOf(keys);
      assert r.measured.Keys == SetOf(keys);
      forall k | k in keys ensures StageAddsUp(file, r, k) {}
    }
  }

  lemma AddsUp(file: FrozenFile, r: Reconstruction, keys: seq<string>, other: set<string>)
    requires SameKeys(file, r, keys, other) && CountsAddUp(file, r, keys)
    requires forall k :: |EntriesOf(r.adopted, k)| == |At(r.adopted, k)|
    ensures EveryStageAddsUp(file, r, keys, other)
  {
    forall k | k in keys ensures k !in other && k in r.measured && k in file.counts && r.measured[k] >= 0 &&
      file.counts[k] == r.measured[k] + |At(r.adopted, k)|
    {
      assert k in SetOf(keys);
      assert StageAddsUp(file, r, k);
    }
    forall k | k in r.measured ensures k in keys { assert k in SetOf(keys); }
    forall k | k in file.counts ensures k in keys || k in other {
      if k !in other { assert k in SetOf(keys); }
    }
  }

  /** Each entry is at a stage of the system with an address and a code hash; no two share a library or an address. */
  ghost predicate EntriesApart(adopted: seq<Adoption>, keys: seq<string>) {
    && (forall a | a in adopted :: a.stage in keys && PrefixedHex(a.address, 40) && PrefixedHex(a.codeHash, 64))
    && (forall i, j | 0 <= i < j < |adopted| ::
          && Lower(adopted[i].address) != Lower(adopted[j].address)
          && (adopted[i].stage == adopted[j].stage ==> adopted[i].library != adopted[j].library))
  }

  /** The two halves of the cross-check name one other file; what was accepted is a stage of the system, or one gone. */
  ghost predicate CrossRecorded(file: FrozenFile, r: Reconstruction, keys: seq<string>, other: set<string>) {
    match (r.crossCheck, file.measured.crossChecked)
    case (None, None) => true
    case (Some(c), Some(anchor)) =>
      && c.against == anchor.sha && anchor.sha != file.deploySha && LowerHex(anchor.sha, 40)
      && LowerHex(anchor.fileHash, 64)
      && forall d | d in c.accepted ::
           && (d.was.Some? || d.now.Some?)
           && (d.was.Some? ==> d.was.value >= 0) && (d.now.Some? ==> d.now.value >= 0)
           && (d.stage !in keys ==> d.now.None? && d.stage !in other)
    case _ => false
  }

  /** A rebuilt file is accepted exactly when all of this holds of it. */
  lemma AcceptedExactlyWhen(file: FrozenFile, t: StageTable, system: System)
    ensures ReconstructionOk(file, t, system) <==>
      && file.measured.reconstructed.Some?
      && var r, keys, other := file.measured.reconstructed.value, StageKeys(t, system), OtherKeys(t, system);
      && FromTwinRun(file, r) && EveryStageAddsUp(file, r, keys, other) && EntriesApart(r.adopted, keys)
      && AdoptsTheTables(r.adopted, t) && CrossRecorded(file, r, keys, other)
  {
    if file.measured.reconstructed.Some? {
      var r, keys, other := file.measured.reconstructed.value, StageKeys(t, system), OtherKeys(t, system);
      SumsAre(file, r, keys, other);
      ApartIs(r.adopted, keys);
      if NoneTwice(r.adopted) { FullyAdoptedIs(r.adopted, t); }
      CrossIs(file, r, keys, other);
    }
  }

  lemma ApartIs(adopted: seq<Adoption>, keys: seq<string>)
    ensures EntriesOk(adopted, keys) <==> EntriesApart(adopted, keys)
  {
    assert (forall i | 0 <= i < |adopted| :: EntryOk(adopted[i], keys)) <==>
      forall a | a in adopted :: a.stage in keys && PrefixedHex(a.address, 40) && PrefixedHex(a.codeHash, 64);
  }

  lemma CrossIs(file: FrozenFile, r: Reconstruction, keys: seq<string>, other: set<string>)
    ensures CrossOk(file, r, keys, other) <==> CrossRecorded(file, r, keys, other)
  {
    assert forall d :: DiffOk(d, keys, other) <==>
      && (d.was.Some? || d.now.Some?)
      && (d.was.Some? ==> d.was.value >= 0) && (d.now.Some? ==> d.now.value >= 0)
      && (d.stage !in keys ==> d.now.None? && d.stage !in other);
  }
}
