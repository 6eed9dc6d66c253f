/**
 A directory whose anchor carries a stage the loaded table no longer has. The anchor answers to the table git has at its
 own sha, so the chain loads.
 */
module RetiredStage {
  import opened Basics
  import opened TextOrder
  import opened Counts
  import opened Reconstruct
  import opened Rebuild
  import opened AnchorChain
  import opened Witnesses

  const SHA_C: string := Repeat('c', 40)

  /** The table at the anchor's sha: the agent stage was still there. */
  const OLD_TABLE := StageTable(
    [Stage("libs", [], Some(Vaults)), Stage("agent", [], Some(Vaults)), Stage("gw", [], Some(Gateway))],
    [Library("X", "X")], [], true)

  const OLD_KEYS: seq<string> := ["safe", "libs", "agent"]

  /** The new baseline accepts that the stage is gone. */
  const GONE := Diff("agent", Some(3), None)

  function Rebuilt(sha: string, measured: CountMap, counts: CountMap, against: string,
    accepted: seq<Diff>): FrozenFile {
    var r := Reconstruction(sha, TWIN_CHAIN_ID, None, Adopted(), measured, Some(CrossCheck(against, accepted)));
    FrozenFile(sha, Measured(TWIN_CHAIN_ID, "t", [], Some(r), Some(Anchor(against, DIGEST))), counts)
  }

  function NewFile(): FrozenFile {
    Rebuilt(SHA_A, map["safe" := 0, "libs" := 0], map["safe" := 0, "libs" := 1], SHA_B, [GONE])
  }

  function OldFile(): FrozenFile {
    Rebuilt(SHA_B, map["safe" := 0, "libs" := 0, "agent" := 3], map["safe" := 0, "libs" := 1, "agent" := 3], SHA_C, [])
  }

  function PlainEnd(): FrozenFile {
    FrozenFile(SHA_C, Measured(TWIN_CHAIN_ID, "t", [], None, None), map["safe" := 0, "libs" := 1, "agent" := 3])
  }

  /** The process has the new table loaded, and git has the old one at the anchor's sha alone. */
  function HistoryEnv(): Env {
    Env(Vaults, Some(TABLE), (s: string) => if s == SHA_B then Some(OLD_TABLE) else None, (b: string) => DIGEST)
  }

  lemma ShasDiffer()
    ensures IsSha(SHA_C) && SHA_C != SHA_A && SHA_C != SHA_B
  {
    assert SHA_C[0] != SHA_A[0] && SHA_C[0] != SHA_B[0];
  }

  lemma OldTableKeys()
    ensures StageKeys(OLD_TABLE, Vaults) == OLD_KEYS && OtherKeys(OLD_TABLE, Vaults) == {"gw"}
  {
    var s := OLD_TABLE.stages;
    assert s[1..][1..][1..] == [] && s[1..][1..] == [s[2]] && s[1..] == [s[1], s[2]];
    assert OwnStages([], Vaults) == [];
    assert OwnStages(s[1..][1..], Vaults) == [];
    assert OwnStages(s[1..], Vaults) == [s[1]];
    assert OwnStages(s, Vaults) == [s[0], s[1]];
    assert Counts.Names([s[0], s[1]]) == ["libs", "agent"];
    assert forall x | x in s :: x == s[0] || x == s[1] || x == s[2];
    assert s[2] in s;
  }

  lemma EntriesFit(adopted: seq<Adoption>, keys: seq<string>, t: StageTable)
    requires adopted == Adopted() && "libs" in keys && t.libraries == [Library("X", "X")]
    ensures EntriesOk(adopted, keys) && FullyAdopted(adopted, t)
  {
    TextsAreGood();
    assert |adopted| == 1 && EntryOk(adopted[0], keys);
    AdoptedEntries(adopted, "libs");
  }

  lemma NewKeys(f: FrozenFile, keys: seq<string>)
    requires f == NewFile() && keys == KEYS
    ensures var r := f.measured.reconstructed.value;
      HeaderOk(f, r) && SameKeys(f, r, keys, {"gw"}) && ValidCounts(f.counts)
  {
    assert keys[0] == "safe" && keys[1] == "libs" && SetOf(keys) == {"safe", "libs"};
    assert Distinct(keys);
  }

  lemma NewSums(f: FrozenFile, keys: seq<string>)
    requires f == NewFile() && keys == KEYS
    ensures CountsAddUp(f, f.measured.reconstructed.value, keys)
  {
    var r := f.measured.reconstructed.value;
    forall k | k in keys ensures StageAddsUp(f, r, k) { AdoptedEntries(r.adopted, k); }
  }

  lemma NewVerifies(f: FrozenFile, keys: seq<string>)
    requires f == NewFile() && keys == KEYS
    ensures ReconstructionOk(f, TABLE, Vaults) && ValidCounts(f.counts)
  {
    TextsAreGood();
    TableKeys();
    NewKeys(f, keys);
    NewSums(f, keys);
    assert keys[1] == "libs";
    EntriesFit(f.measured.reconstructed.value.adopted, keys, TABLE);
    assert DiffOk(GONE, keys, {"gw"});
  }

  lemma OldKeysFit(f: FrozenFile, keys: seq<string>)
    requires f == OldFile() && keys == OLD_KEYS
    ensures var r := f.measured.reconstructed.value;
      HeaderOk(f, r) && SameKeys(f, r, keys, {"gw"}) && ValidCounts(f.counts)
  {
    assert keys[0] == "safe" && keys[1] == "libs" && keys[2] == "agent" && SetOf(keys) == {"safe", "libs", "agent"};
    assert Distinct(keys);
  }

  lemma OldSums(f: FrozenFile, keys: seq<string>)
    requires f == OldFile() && keys == OLD_KEYS
    ensures CountsAddUp(f, f.measured.reconstructed.value, keys)
  {
    var r := f.measured.reconstructed.value;
    forall k | k in keys ensures StageAddsUp(f, r, k) { AdoptedEntries(r.adopted, k); }
  }

  lemma OldVerifies(f: FrozenFile, keys: seq<string>)
    requires f == OldFile() && keys == OLD_KEYS
    ensures ReconstructionOk(f, OLD_TABLE, Vaults) && ValidCounts(f.counts)
  {
    TextsAreGood();
    ShasDiffer();
    OldTableKeys();
    OldKeysFit(f, keys);
    OldSums(f, keys);
    assert keys[1] == "libs";
    EntriesFit(f.measured.reconstructed.value.adopted, keys, OLD_TABLE);
  }

  lemma OldIsForeign(f: FrozenFile, keys: seq<string>)
    requires f == OldFile() && keys == KEYS
    ensures !ReconstructionOk(f, TABLE, Vaults)
  {
    TableKeys();
    assert "agent" in f.counts.Keys - {"gw"} && "agent" !in SetOf(keys);
  }

  lemma OnlyTheStageIsGone(f: CountMap, g: CountMap)
    requires f == NewFile().counts && g == OldFile().counts
    ensures CrossCheckDiff(f, g, {"gw"}) == [GONE] && CrossCheckDiff(g, g, {"gw"}) == []
  {
    forall d: Diff
      ensures d in [GONE] <==>
        d.stage !in {"gw"} && d.was == Look(g, d.stage) && d.now == Look(f, d.stage) && d.was != d.now
    {
    }
    DiffIsTheOnlyListing(f, g, {"gw"}, [GONE]);
    DiffIsTheOnlyListing(g, g, {"gw"}, []);
  }

  /** The directory of the three files. */
  ghost predicate RetiredDir(dir: Dir) {
    && dir.Keys == {SHA_A, SHA_B, SHA_C}
    && dir[SHA_A].json == Some(NewFile()) && dir[SHA_B].json == Some(OldFile()) && dir[SHA_C].json == Some(PlainEnd())
  }

  lemma FilesAnswer(env: Env, dir: Dir, a: string, b: string, c: string)
    requires env == HistoryEnv() && RetiredDir(dir) && a == SHA_A && b == SHA_B && c == SHA_C
    ensures FileLoads(env, dir[a], a, false, false) && FileLoads(env, dir[a], a, false, true)
    ensures FileLoads(env, dir[b], b, false, true) && FileLoads(env, dir[c], c, false, true)
  {
    TextsAreGood();
    ShasDiffer();
    NewVerifies(NewFile(), KEYS);
    OldVerifies(OldFile(), OLD_KEYS);
    FileAnswersTo(env, dir[a], a, false);
    FileAnswersTo(env, dir[b], b, false);
    FileAnswersTo(env, dir[c], c, false);
  }

  lemma HopsFit(v: View, a: string, b: string, c: string)
    requires RetiredDir(v.dir) && a == SHA_A && b == SHA_B && c == SHA_C && v.ignored == {"gw"}
    requires forall t :: v.hash(t) == DIGEST
    ensures Hop(v, a, b) && Hop(v, b, c) && Plain(v.dir[c])
  {
    OnlyTheStageIsGone(NewFile().counts, OldFile().counts);
  }

  lemma ThreeFileChainLoads(v: View, a: string, b: string, c: string)
    requires a != b && b != c && a != c && v.dir.Keys == {a, b, c} && Hop(v, a, b) && Hop(v, b, c) && Plain(v.dir[c])
    requires v.loads(a, false, false) && v.loads(a, false, true) && v.loads(b, false, true) && v.loads(c, false, true)
    ensures LoadChain(v, a, false, []).Ok?
  {
    LoadStepBack(v, c, false, [a, b]);
    assert [a] + [b] == [a, b] && [] + [a] == [a];
    LoadStepBack(v, b, false, [a]);
    LoadStepBack(v, a, false, []);
  }

  /** The chain loads, though its anchor would not verify against the table the process loaded. */
  lemma RetiredAnchorLoads(env: Env, dir: Dir)
    requires env == HistoryEnv() && RetiredDir(dir)
    ensures LoadFrozen(env, dir, SHA_A, false).Ok?
    ensures !ReconstructionOk(dir[SHA_B].json.value, TABLE, Vaults)
  {
    var v := ViewOf(env, dir);
    TextsAreGood();
    ShasDiffer();
    TableKeys();
    OldIsForeign(OldFile(), KEYS);
    FilesAnswer(env, dir, SHA_A, SHA_B, SHA_C);
    HopsFit(v, SHA_A, SHA_B, SHA_C);
    assert v.loads(SHA_A, false, false) && v.loads(SHA_A, false, true);
    assert v.loads(SHA_B, false, true) && v.loads(SHA_C, false, true);
    ThreeFileChainLoads(v, SHA_A, SHA_B, SHA_C);
  }
}
