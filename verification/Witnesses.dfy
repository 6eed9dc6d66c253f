/** Small directories and runs at which a promise fails: one input for each condition the theorems name. */
module Witnesses {
  import opened Basics
  import opened TextOrder
  import opened Counts
  import opened Reconstruct
  import opened Rebuild
  import opened AnchorChain
  import opened Freeze

  function Repeat(c: char, n: nat): (r: string)
    ensures |r| == n && forall i | 0 <= i < n :: r[i] == c
  {
    seq(n, i => c)
  }

  const SHA_A: string := Repeat('a', 40)
  const SHA_B: string := Repeat('b', 40)
  const DIGEST: string := Repeat('d', 64)
  const ADDRESS: string := "0x" + Repeat('1', 40)
  const CODE_HASH: string := "0x" + Repeat('2', 64)

  lemma TextsAreGood()
    ensures IsSha(SHA_A) && IsSha(SHA_B) && SHA_A != SHA_B && IsDigest(DIGEST) && PrefixedHex(ADDRESS, 40)
    ensures PrefixedHex(CODE_HASH, 64)
  {
    assert SHA_A[0] != SHA_B[0];
    assert ADDRESS[2..] == Repeat('1', 40) && ADDRESS[..2] == "0x";
    assert CODE_HASH[2..] == Repeat('2', 64) && CODE_HASH[..2] == "0x";
  }

  // ---- a small table and its files -----------------------------------------------------------------

  /** The libs stage of the vaults system with one library, and one gateway stage. */
  const TABLE := StageTable([Stage("libs", [], Some(Vaults)), Stage("gw", [], Some(Gateway))], [Library("X", "X")], [],
    true)

  const KEYS: seq<string> := ["safe", "libs"]

  function Adopted(): seq<Adoption> { [Adoption("libs", "X", "X", ADDRESS, CODE_HASH)] }

  /** A baseline that adopted X, with a count of the gateway's stage and perhaps a record. */
  function Baseline(sha: string, gw: int, cross: Option<Anchor>): FrozenFile {
    FrozenFile(sha,
               Measured(TWIN_CHAIN_ID, "t", [],
                        Some(Reconstruction(sha, TWIN_CHAIN_ID, None, Adopted(), map["safe" := 0, "libs" := 0],
                                            if cross.None? then None else Some(CrossCheck(cross.value.sha, [])))),
                                              cross),
               map["safe" := 0, "libs" := 1, "gw" := gw])
  }

  /** A measured file of the same counts, perhaps with a record of its own. */
  function PlainFile(sha: string, gw: int, cross: Option<Anchor>): FrozenFile {
    FrozenFile(sha, Measured(TWIN_CHAIN_ID, "t", [], None, cross), map["safe" := 0, "libs" := 1, "gw" := gw])
  }

  /** The vaults process with the table loaded and no git history. Every file hashes to one digest. */
  function VaultsEnv(): Env { Env(Vaults, Some(TABLE), (s: string) => None, (b: string) => DIGEST) }

  lemma TableKeys()
    ensures StageKeys(TABLE, Vaults) == KEYS && OtherKeys(TABLE, Vaults) == {"gw"}
  {
    var s := TABLE.stages;
    assert s[1..][1..] == [] && s[1..] == [s[1]];
    assert OwnStages([], Vaults) == [];
    assert OwnStages(s[1..], Vaults) == [];
    assert OwnStages(s, Vaults) == [s[0]];
    assert Counts.Names([s[0]]) == ["libs"];
    assert forall x | x in s :: x == s[0] || x == s[1];
    assert s[1] in s;
  }

  lemma AdoptedEntries(adopted: seq<Adoption>, k: string)
    requires adopted == Adopted()
    ensures EntriesOf(adopted, k) == (if k == "libs" then [Library("X", "X")] else []) && StagesOf(adopted) == {"libs"}
  {
    assert adopted[..0] == [];
    assert EntriesOf([], k) == [];
  }

  lemma BaselineKeys(f: FrozenFile, sha: string, gw: int, cross: Option<Anchor>, keys: seq<string>)
    requires f == Baseline(sha, gw, cross) && keys == KEYS && gw >= 0
    ensures var r := f.measured.reconstructed.value;
      HeaderOk(f, r) && SameKeys(f, r, keys, {"gw"}) && ValidCounts(f.counts)
  {
    assert keys[0] == "safe" && keys[1] == "libs" && SetOf(keys) == {"safe", "libs"};
    assert Distinct(keys);
  }

  lemma BaselineEntries(adopted: seq<Adoption>, keys: seq<string>)
    requires adopted == Adopted() && keys == KEYS
    ensures EntriesOk(adopted, keys) && FullyAdopted(adopted, TABLE)
  {
    TextsAreGood();
    assert keys[1] == "libs";
    assert |adopted| == 1 && EntryOk(adopted[0], keys);
    AdoptedEntries(adopted, "libs");
  }

  lemma BaselineSums(f: FrozenFile, sha: string, gw: int, cross: Option<Anchor>, keys: seq<string>)
    requires f == Baseline(sha, gw, cross) && keys == KEYS
    ensures CountsAddUp(f, f.measured.reconstructed.value, keys)
  {
    var r := f.measured.reconstructed.value;
    forall k | k in keys ensures StageAddsUp(f, r, k) { AdoptedEntries(r.adopted, k); }
  }

  lemma BaselineVerifies(f: FrozenFile, sha: string, gw: int, cross: Option<Anchor>, keys: seq<string>)
    requires f == Baseline(sha, gw, cross) && keys == KEYS && gw >= 0
    requires cross.Some? ==> IsSha(cross.value.sha) && IsDigest(cross.value.fileHash) && cross.value.sha != sha
    ensures ReconstructionOk(f, TABLE, Vaults) && ValidCounts(f.counts)
  {
    TableKeys();
    BaselineKeys(f, sha, gw, cross, keys);
    BaselineEntries(f.measured.reconstructed.value.adopted, keys);
    BaselineSums(f, sha, gw, cross, keys);
  }

  lemma NoDifferenceOfItsOwn(counts: CountMap, old_: CountMap)
    requires forall k | k != "gw" :: Look(counts, k) == Look(old_, k)
    ensures CrossCheckDiff(counts, old_, {"gw"}) == []
  {
    var diff := CrossCheckDiff(counts, old_, {"gw"});
    if diff != [] { DiffMember(counts, old_, {"gw"}, diff[0]); }
  }

  // ---- the other system's stages -------------------------------------------------------------------

  /** A baseline and its plain anchor that disagree on the gateway's stage. */
  function DisagreeingDir(a: string, b: string): Dir {
    map[a := Doc(Some(Baseline(a, 1, Some(Anchor(b, DIGEST)))), ""), b := Doc(Some(PlainFile(b, 2, None)), "")]
  }

  lemma TwoFileChainLoads(v: View, a: string, b: string)
    requires a != b && Hop(v, a, b) && Plain(v.dir[b]) && v.loads(a, false, false) && v.loads(b, false, true)
    requires OthersLoad(v, a)
    ensures LoadChain(v, a, false, []).Ok?
  {
    LoadStepBack(v, b, false, [a]);
    assert [] + [a] == [a];
    LoadStepBack(v, a, false, []);
  }

  lemma BaselineLoads(env: Env, doc: Doc, sha: string, gw: int, cross: Option<Anchor>, historical: bool)
    requires env == VaultsEnv() && doc.json == Some(Baseline(sha, gw, cross)) && gw >= 0
    requires cross.Some? ==> IsSha(cross.value.sha) && IsDigest(cross.value.fileHash) && cross.value.sha != sha
    ensures FileLoads(env, doc, sha, false, historical)
  {
    BaselineVerifies(doc.json.value, sha, gw, cross, KEYS);
  }

  lemma DisagreeingHop(v: View, a: string, b: string)
    requires a in v.dir && b in v.dir && v.ignored == {"gw"} && v.hash(v.dir[b].bytes) == DIGEST
    requires v.dir[a].json == Some(Baseline(a, 1, Some(Anchor(b, DIGEST))))
    requires v.dir[b].json == Some(PlainFile(b, 2, None))
    ensures Hop(v, a, b)
  {
    NoDifferenceOfItsOwn(v.dir[a].json.value.counts, v.dir[b].json.value.counts);
  }

  /** The chain loads, nothing is accepted, and the two ends count the other system's stage differently. */
  lemma OtherSystemMayDiffer(v: View, dir: Dir, a: string, b: string)
    requires IsSha(a) && IsSha(b) && a != b && dir == DisagreeingDir(a, b) && v == ViewOf(VaultsEnv(), dir)
    ensures LoadChain(v, a, false, []).Ok? && Hop(v, a, b) && Plain(v.dir[b]) && "gw" in v.ignored
    ensures AcceptedOf(v.dir[a].json.value) == []
    ensures Look(v.dir[a].json.value.counts, "gw") != Look(v.dir[b].json.value.counts, "gw")
  {
    DisagreeingView(v, dir, a, b);
    DisagreeingEnds(dir, a, b);
    DisagreeingHop(v, a, b);
    TwoFileChainLoads(v, a, b);
  }

  lemma DisagreeingEnds(dir: Dir, a: string, b: string)
    requires a != b && dir == DisagreeingDir(a, b)
    ensures dir.Keys == {a, b} && dir[a].json == Some(Baseline(a, 1, Some(Anchor(b, DIGEST))))
    ensures dir[b].json == Some(PlainFile(b, 2, None))
    ensures AcceptedOf(dir[a].json.value) == []
    ensures Look(dir[a].json.value.counts, "gw") != Look(dir[b].json.value.counts, "gw") && Plain(dir[b])
  {
  }

  lemma DisagreeingView(v: View, dir: Dir, a: string, b: string)
    requires IsSha(a) && IsSha(b) && a != b && dir == DisagreeingDir(a, b) && v == ViewOf(VaultsEnv(), dir)
    ensures v.dir == dir && v.ignored == {"gw"} && (forall t :: v.hash(t) == DIGEST)
    ensures v.loads(a, false, false) && v.loads(b, false, true) && OthersLoad(v, a)
  {
    TextsAreGood();
    TableKeys();
    BaselineLoads(VaultsEnv(), dir[a], a, 1, Some(Anchor(b, DIGEST)), false);
    PlainLoads(VaultsEnv(), dir[b], b);
  }

  lemma PlainLoads(env: Env, doc: Doc, b: string)
    requires doc.json == Some(PlainFile(b, 2, None))
    ensures FileLoads(env, doc, b, false, true)
  {
  }

  // ---- a plain file with a record --------------------------------------------------------------------

  /**
   A measured file alone with a cross-check record: it loads on its own, and the listing follows the record into
   nothing.
   */
  lemma PlainRecordIsFollowed(v: View, a: string, n: nat)
    requires v == ViewOf(VaultsEnv(), map[SHA_A := Doc(Some(PlainFile(SHA_A, 0, Some(Anchor(SHA_B, DIGEST)))), "")])
    requires a == SHA_A && n == MAX_ANCHOR_DEPTH
    ensures LoadChain(v, a, false, []).Ok? && Walk(v.dir, a, n) == [a]
    ensures AnchorsOf(v.dir, Walk(v.dir, a, n)) == [] && ListFrom(v, a, a, n + 1).None?
  {
    TextsAreGood();
    assert v.loads(a, false, false) && SHA_B !in v.dir;
    LoadStepBack(v, a, false, []);
    assert ListFrom(v, SHA_B, a, n).None?;
  }

  // ---- the first baseline ------------------------------------------------------------------------------

  /** A first baseline alone, and with a second one frozen against it. */
  function FirstDir(): Dir { map[SHA_A := Doc(Some(Baseline(SHA_A, 0, None)), "")] }

  function SecondDoc(): Doc { Doc(Some(Baseline(SHA_B, 0, Some(Anchor(SHA_A, DIGEST)))), "") }

  /** The first loads while it is alone. Beside the second neither loads. */
  lemma FirstBaselineIsStranded(v: View, w: View, a: string, b: string)
    requires a == SHA_A && b == SHA_B
    requires v == ViewOf(VaultsEnv(), FirstDir()) && w == ViewOf(VaultsEnv(), FirstDir()[b := SecondDoc()])
    ensures LoadChain(v, a, false, []).Ok?
    ensures LoadChain(w, a, false, []).Err? && LoadChain(w, b, false, []).Err?
  {
    TextsAreGood();
    BaselineLoads(VaultsEnv(), FirstDir()[a], a, 0, None, false);
    BaselineLoads(VaultsEnv(), SecondDoc(), b, 0, Some(Anchor(a, DIGEST)), false);
    assert v.loads(a, false, false) && w.loads(b, false, false);
    LoadStepBack(v, a, false, []);
    FirstBaselineStrandsTheNext(v, w, b, SecondDoc(), a);
  }

  // ---- a gateway run -----------------------------------------------------------------------------------

  /** One gateway stage, the libs stage with one library. */
  const GATEWAY_TABLE := StageTable([Stage("libs", [], Some(Gateway))], [Library("X", "X")], [], true)

  function GatewayRun(): CountsJson {
    CountsJson(true, SHA_A, TWIN_CHAIN_ID, map["libs" := 0], 1,
               [AdoptedStage("libs", 0, [LibraryRecord("X", "X", ADDRESS, CODE_HASH)])], None, None)
  }

  lemma GatewayKeys()
    ensures StageKeys(GATEWAY_TABLE, Gateway) == ["libs"] && OtherKeys(GATEWAY_TABLE, Gateway) == {}
  {
    var s := GATEWAY_TABLE.stages;
    assert s[1..] == [];
    assert OwnStages([], Gateway) == [];
    assert OwnStages(s, Gateway) == [s[0]];
    assert Counts.Names([s[0]]) == ["libs"];
  }

  lemma GatewaySum(c: CountMap)
    requires c == map["libs" := 0]
    ensures SumValues(c) == 0
  {
    var keys := Sorted(c.Keys);
    SetOfSize(keys);
    assert SetOf(keys) == {"libs"} && |keys| == 1;
    assert keys[0] in SetOf(keys);
    assert SumOver(c, []) == 0 && keys[..0] == [];
  }

  lemma GatewayBody(j: CountsJson, f: FrozenFile, at: string)
    requires j == GatewayRun() && f == BodyOf(j, SHA_A, at)
    ensures f.measured.reconstructed.value.adopted == Adopted() && f.counts == map["libs" := 1]
  {
    var a := j.adopted;
    assert a[..0] == [] && |a| == 1;
    assert AllEntries(a) == AllEntries([]) + EntriesFor(a[0]) == EntriesFor(a[0]);
    assert EntriesFor(a[0]) == Adopted();
    assert Raised(j.counts, a) == Raised(j.counts, [])["libs" := 1];
  }

  lemma GatewayVerifies(j: CountsJson, f: FrozenFile, at: string, keys: seq<string>)
    requires j == GatewayRun() && f == BodyOf(j, SHA_A, at) && keys == ["libs"]
    ensures ReconstructionOk(f, GATEWAY_TABLE, Gateway)
  {
    TextsAreGood();
    GatewayKeys();
    GatewayBody(j, f, at);
    var r := f.measured.reconstructed.value;
    assert keys[0] == "libs" && SetOf(keys) == {"libs"};
    assert |r.adopted| == 1 && EntryOk(r.adopted[0], keys);
    AdoptedEntries(r.adopted, "libs");
    assert StageAddsUp(f, r, "libs") && FullyAdopted(r.adopted, GATEWAY_TABLE);
  }

  /** A gateway run the rebuild accepts, whose recorded nonce the effective counts do not give back. */
  lemma GatewayIsOneShort(at: string)
    ensures var j := GatewayRun();
            && BodyOk(j, SHA_A, GATEWAY_TABLE, Gateway, at)
            && FinalDeployerNonce(GATEWAY_TABLE, Gateway, Overridden(BodyOf(j, SHA_A, at).counts, TxsOf(j.adopted)),
              0) != j.deployerNonce
  {
    var j := GatewayRun();
    GatewayKeys();
    GatewaySum(j.counts);
    GatewayVerifies(j, BodyOf(j, SHA_A, at), at, ["libs"]);
    assert SetOf(["libs"]) == {"libs"};
    NonceIsConserved(j, SHA_A, GATEWAY_TABLE, Gateway, at);
  }
}
