/**
 Baselines rebuilt from a run that adopted libraries already on chain: the offline check of a reconstruction
 against the stage table, the bound the table gives, and the rebuild itself.
 */
module Reconstruct {
  import opened Basics
  import opened TextOrder
  import opened Counts

  datatype Diff = Diff(stage: string, was: Option<int>, now: Option<int>)
  datatype Adoption = Adoption(stage: string, library: string, artifact: string, address: string, codeHash: string)
  datatype CrossCheck = CrossCheck(against: string, accepted: seq<Diff>)
  datatype Reconstruction = Reconstruction(
    fromSha: string, fromChain: int, pinBlock: Option<int>, adopted: seq<Adoption>, measured: CountMap,
      crossCheck: Option<CrossCheck>)
  datatype Anchor = Anchor(sha: string, fileHash: string)
  datatype Measured = Measured(chainId: int, at: string, adopted: seq<string>, reconstructed: Option<Reconstruction>,
    crossChecked: Option<Anchor>)
  datatype FrozenFile = FrozenFile(deploySha: string, measured: Measured, counts: CountMap)

  // ---- text shapes ---------------------------------------------------------------------------------

  predicate LowerHex(s: string, n: nat) {
    |s| == n && forall i | 0 <= i < n :: '0' <= s[i] <= '9' || 'a' <= s[i] <= 'f'
  }

  predicate PrefixedHex(s: string, n: nat) { |s| == n + 2 && s[..2] == "0x" && LowerHex(Lower(s[2..]), n) }

  predicate IsSha(s: string) { LowerHex(s, 40) }

  predicate IsDigest(s: string) { LowerHex(s, 64) }

  // ---- what a stage can adopt ----------------------------------------------------------------------

  /** The CREATE2 libraries some stage before position `at` lists. */
  function Earlier(t: StageTable, at: nat): set<string>
    requires at <= |t.stages|
  {
    if at == 0 then {} else Earlier(t, at - 1) + SetOf(t.stages[at - 1].create2)
  }

  function FindStage(t: StageTable, name: string): (r: Option<nat>)
    ensures r.Some? ==> r.value < |t.stages| && t.stages[r.value].name == name
    ensures r.None? ==> forall i | 0 <= i < |t.stages| :: t.stages[i].name != name
  {
    FindFrom(t, name, 0)
  }

  function FindFrom(t: StageTable, name: string, i: nat): (r: Option<nat>)
    requires i <= |t.stages|
    ensures r.Some? ==> i <= r.value < |t.stages| && t.stages[r.value].name == name
    ensures r.None? ==> forall j | i <= j < |t.stages| :: t.stages[j].name != name
    decreases |t.stages| - i
  {
    if i == |t.stages| then None else if t.stages[i].name == name then Some(i) else FindFrom(t, name, i + 1)
  }

  /** The table entry of a CREATE2 library. The table parser refuses a listing with no entry. */
  function EntryOf(libs: seq<Library>, name: string): (r: Library)
    ensures r.name == name
  {
    if libs == [] then Library(name, "") else if libs[0].name == name then libs[0] else EntryOf(libs[1..], name)
  }

  function FirstListings(names: seq<string>, earlier: set<string>, libs: seq<Library>): seq<Library> {
    if names == [] then [] else
      (if names[0] in earlier then [] else [EntryOf(libs, names[0])]) + FirstListings(names[1..], earlier, libs)
  }

  /**
   The libraries a stage can adopt: the libs stage its libraries, any other the CREATE2 libraries no earlier stage
   lists.
   */
  function AdoptableOf(t: StageTable, stage: string): seq<Library> {
    if stage == LIBS_STAGE then t.libraries else
      match FindStage(t, stage)
      case None => []
      case Some(at) => FirstListings(t.stages[at].create2, Earlier(t, at), t.create2)
  }

  // ---- the check -----------------------------------------------------------------------------------

  function EntriesOf(adopted: seq<Adoption>, stage: string): seq<Library> {
    if adopted == [] then [] else
      var n := |adopted| - 1;
      var one := if adopted[n].stage == stage then [Library(adopted[n].library, adopted[n].artifact)] else [];
      EntriesOf(adopted[..n], stage) + one
  }

  function StagesOf(adopted: seq<Adoption>): set<string> { set a | a in adopted :: a.stage }

  predicate HeaderOk(file: FrozenFile, r: Reconstruction) {
    && file.measured.adopted == [] && r.fromSha == file.deploySha
    && r.fromChain == TWIN_CHAIN_ID && file.measured.chainId == TWIN_CHAIN_ID
    && (r.pinBlock.Some? ==> r.pinBlock.value > 0) && r.adopted != []
  }

  /** The counts and the measured counts name exactly the stages of the table (the other system's apart). */
  predicate SameKeys(file: FrozenFile, r: Reconstruction, keys: seq<string>, other: set<string>) {
    Distinct(keys) && file.counts.Keys - other == SetOf(keys) && r.measured.Keys == SetOf(keys) &&
      ValidCounts(r.measured)
  }

  predicate EntryOk(a: Adoption, keys: seq<string>) {
    a.stage in keys && PrefixedHex(a.address, 40) && PrefixedHex(a.codeHash, 64)
  }

  /** Every entry names a stage, an address and a hash, and none is listed twice, by name or by address. */
  ghost predicate EntriesOk(adopted: seq<Adoption>, keys: seq<string>) {
    && (forall i | 0 <= i < |adopted| :: EntryOk(adopted[i], keys))
    && NoneTwice(adopted)
  }

  ghost predicate NoneTwice(adopted: seq<Adoption>) {
    forall i, j | 0 <= i < j < |adopted| :: !SameEntry(adopted[i], adopted[j])
  }

  predicate SameEntry(a: Adoption, b: Adoption) {
    (a.stage == b.stage && a.library == b.library) || Lower(a.address) == Lower(b.address)
  }

  /** A stage that adopts, adopts exactly what the table lets it. */
  ghost predicate FullyAdopted(adopted: seq<Adoption>, t: StageTable) {
    forall k | k in StagesOf(adopted) :: multiset(EntriesOf(adopted, k)) == multiset(AdoptableOf(t, k))
  }

  /** Each count is the measured count plus the adopted creations of the stage. */
  ghost predicate CountsAddUp(file: FrozenFile, r: Reconstruction, keys: seq<string>) {
    forall k | k in keys :: StageAddsUp(file, r, k)
  }

  predicate StageAddsUp(file: FrozenFile, r: Reconstruction, k: string) {
    Look(file.counts, k) == Some(CountAt(r.measured, k) + |EntriesOf(r.adopted, k)|)
  }

  predicate CountOrNull(x: Option<int>) { x.None? || x.value >= 0 }

  /** A difference on a stage of the table, or the removal of a stage the table no longer has. */
  predicate DiffOk(d: Diff, keys: seq<string>, other: set<string>) {
    && CountOrNull(d.was) && CountOrNull(d.now) && !(d.was.None? && d.now.None?)
    && (d.stage in keys || (d.was.Some? && d.now.None? && d.stage !in other))
  }

  ghost predicate CrossOk(file: FrozenFile, r: Reconstruction, keys: seq<string>, other: set<string>) {
    var cc := file.measured.crossChecked;
    && (cc.Some? ==> IsSha(cc.value.sha) && IsDigest(cc.value.fileHash) && cc.value.sha != file.deploySha)
    && (r.crossCheck.Some? <==> cc.Some?)
    && (r.crossCheck.Some? ==>
          && r.crossCheck.value.against == cc.value.sha
          && forall d | d in r.crossCheck.value.accepted :: DiffOk(d, keys, other))
  }

  ghost predicate ReconstructionOk(file: FrozenFile, t: StageTable, system: System) {
    && file.measured.reconstructed.Some?
    && var r := file.measured.reconstructed.value;
    && var keys, other := StageKeys(t, system), OtherKeys(t, system);
    && HeaderOk(file, r) && SameKeys(file, r, keys, other) && EntriesOk(r.adopted, keys)
    && FullyAdopted(r.adopted, t) && CountsAddUp(file, r, keys) && CrossOk(file, r, keys, other)
  }

  // ---- the check as it runs ------------------------------------------------------------------------

  function SeenNames(adopted: seq<Adoption>): set<(string, string)> { set a | a in adopted :: (a.stage, a.library) }

  function SeenAddresses(adopted: seq<Adoption>): set<string> { set a | a in adopted :: Lower(a.address) }

  /** The entries gathered per stage, in the order they are listed. */
  function Gathered(adopted: seq<Adoption>): map<string, seq<Library>> {
    if adopted == [] then map[] else
      var a := adopted[|adopted| - 1];
      var front := Gathered(adopted[..|adopted| - 1]);
      front[a.stage := (if a.stage in front then front[a.stage] else []) + [Library(a.library, a.artifact)]]
  }

  lemma {:induction false} GatheredIs(adopted: seq<Adoption>)
    ensures Gathered(adopted).Keys == StagesOf(adopted)
    ensures forall k | k in Gathered(adopted) :: Gathered(adopted)[k] == EntriesOf(adopted, k)
    ensures forall k | k !in StagesOf(adopted) :: EntriesOf(adopted, k) == []
    decreases |adopted|
  {
    if adopted != [] {
      var n := |adopted| - 1;
      GatheredIs(adopted[..n]);
      assert adopted == adopted[..n] + [adopted[n]];
      assert StagesOf(adopted) == StagesOf(adopted[..n]) + {adopted[n].stage};
    }
  }

  /** The same check entry by entry, as the loop makes it. */
  predicate Listed(adopted: seq<Adoption>, keys: seq<string>) {
    adopted == [] ||
      var n := |adopted| - 1;
      var a := adopted[n];
      && Listed(adopted[..n], keys) && EntryOk(a, keys)
      && (a.stage, a.library) !in SeenNames(adopted[..n]) && Lower(a.address) !in SeenAddresses(adopted[..n])
  }

  lemma NewEntry(front: seq<Adoption>, a: Adoption)
    ensures ((a.stage, a.library) in SeenNames(front) || Lower(a.address) in SeenAddresses(front)) <==>
            exists j :: 0 <= j < |front| && SameEntry(front[j], a)
  {
    if (a.stage, a.library) in SeenNames(front) || Lower(a.address) in SeenAddresses(front) {
      var b :| b in front && SameEntry(b, a);
      var j :| 0 <= j < |front| && front[j] == b;
    } else if j :| 0 <= j < |front| && SameEntry(front[j], a) {
      assert front[j] in front;
    }
  }

  lemma NoneTwiceGrows(front: seq<Adoption>, a: Adoption)
    ensures NoneTwice(front + [a]) <==> NoneTwice(front) && !exists j :: 0 <= j < |front| && SameEntry(front[j], a)
  {
    var all := front + [a];
    assert forall i | 0 <= i < |front| :: all[i] == front[i];
    if NoneTwice(all) {
      forall j | 0 <= j < |front| ensures !SameEntry(front[j], a) { assert all[j] == front[j] && all[|front|] == a; }
    }
    if NoneTwice(front) && !exists j :: 0 <= j < |front| && SameEntry(front[j], a) {
      forall i, j | 0 <= i < j < |all| ensures !SameEntry(all[i], all[j]) {
        if j < |front| { assert all[j] == front[j]; }
      }
    }
  }

  lemma EntryGrows(front: seq<Adoption>, a: Adoption, keys: seq<string>)
    ensures EntriesOk(front + [a], keys) <==>
            && EntriesOk(front, keys) && EntryOk(a, keys)
            && (a.stage, a.library) !in SeenNames(front) && Lower(a.address) !in SeenAddresses(front)
  {
    NoneTwiceGrows(front, a);
    NewEntry(front, a);
    var all := front + [a];
    assert all[|front|] == a && forall i | 0 <= i < |front| :: all[i] == front[i];
  }

  lemma {:induction false} ListedIsEntriesOk(adopted: seq<Adoption>, keys: seq<string>)
    ensures Listed(adopted, keys) <==> EntriesOk(adopted, keys)
    decreases |adopted|
  {
    if adopted != [] {
      var n := |adopted| - 1;
      ListedIsEntriesOk(adopted[..n], keys);
      EntryGrows(adopted[..n], adopted[n], keys);
      assert adopted == adopted[..n] + [adopted[n]];
    }
  }

  lemma {:induction false} ListedPrefix(adopted: seq<Adoption>, i: nat, keys: seq<string>)
    requires i <= |adopted| && Listed(adopted, keys)
    ensures Listed(adopted[..i], keys)
    decreases |adopted|
  {
    if i < |adopted| {
      ListedPrefix(adopted[..|adopted| - 1], i, keys);
      assert adopted[..|adopted| - 1][..i] == adopted[..i];
    } else {
      assert adopted[..i] == adopted;
    }
  }

  /** The loop over the adopted entries: seen sets for repeats, and the entries gathered per stage. */
  method GatherEntries(adopted: seq<Adoption>, keys: seq<string>)
    returns (ok: bool, perStage: map<string, seq<Library>>)
    ensures ok <==> EntriesOk(adopted, keys)
    ensures ok ==> perStage == Gathered(adopted)
  {
    ListedIsEntriesOk(adopted, keys);
    ok, perStage := GatherListed(adopted, keys);
  }

  method GatherListed(adopted: seq<Adoption>, keys: seq<string>) returns (ok: bool, perStage: map<string, seq<Library>>)
    ensures ok <==> Listed(adopted, keys)
    ensures ok ==> perStage == Gathered(adopted)
  {
    var names, addresses := {}, {};
    perStage := map[];
    for i := 0 to |adopted|
      invariant Listed(adopted[..i], keys) && perStage == Gathered(adopted[..i])
      invariant names == SeenNames(adopted[..i]) && addresses == SeenAddresses(adopted[..i])
    {
      var a := adopted[i];
      assert adopted[..i + 1] == adopted[..i] + [a] && adopted[..i + 1][..i] == adopted[..i];
      if !EntryOk(a, keys) || (a.stage, a.library) in names || Lower(a.address) in addresses {
        assert !Listed(adopted[..i + 1], keys);
        if Listed(adopted, keys) { ListedPrefix(adopted, i + 1, keys); }
        return false, perStage;
      }
      names, addresses := names + {(a.stage, a.library)}, addresses + {Lower(a.address)};
      perStage := perStage[a.stage := (if a.stage in perStage then perStage[a.stage] else []) +
        [Library(a.library, a.artifact)]];
    }
    assert adopted[..|adopted|] == adopted;
    ok := true;
  }

  /** The loop over the adopting stages: each against the table. */
  method CheckAdoptions(adopted: seq<Adoption>, t: StageTable, perStage: map<string, seq<Library>>) returns (ok: bool)
    requires perStage == Gathered(adopted)
    ensures ok <==> FullyAdopted(adopted, t)
  {
    GatheredIs(adopted);
    var left := perStage.Keys;
    while left != {}
      invariant left <= perStage.Keys
      invariant forall k | k in perStage && k !in left :: multiset(perStage[k]) == multiset(AdoptableOf(t, k))
      decreases |left|
    {
      var stage :| stage in left;
      if multiset(perStage[stage]) != multiset(AdoptableOf(t, stage)) { return false; }
      left := left - {stage};
    }
    ok := true;
  }

  /** The loop over the stages: every count against its parts. */
  method CheckSums(file: FrozenFile, r: Reconstruction, keys: seq<string>, perStage: map<string, seq<Library>>)
    returns (ok: bool)
    requires perStage == Gathered(r.adopted) && r.measured.Keys == SetOf(keys)
    ensures ok <==> CountsAddUp(file, r, keys)
  {
    for i := 0 to |keys|
      invariant forall k | k in keys[..i] :: StageAddsUp(file, r, k)
    {
      var k := keys[i];
      assert k in SetOf(keys) && k in keys;
      GatheredIs(r.adopted);
      assert StageAddsUp(file, r, k) <==>
        Look(file.counts, k) == Some(r.measured[k] + if k in perStage then |perStage[k]| else 0);
      if Look(file.counts, k) != Some(r.measured[k] + if k in perStage then |perStage[k]| else 0) { return false; }
      assert keys[..i + 1] == keys[..i] + [k];
    }
    assert keys[..|keys|] == keys;
    ok := true;
  }

  /** The cross-check record: both halves or neither, the same file, and every accepted difference well formed. */
  method CheckCross(file: FrozenFile, r: Reconstruction, keys: seq<string>, other: set<string>) returns (ok: bool)
    ensures ok <==> CrossOk(file, r, keys, other)
  {
    var cc := file.measured.crossChecked;
    if cc.Some? && (!IsSha(cc.value.sha) || !IsDigest(cc.value.fileHash) || cc.value.sha == file.deploySha) {
      return false;
    }
    if r.crossCheck.Some? != cc.Some? { return false; }
    if r.crossCheck.None? { return true; }
    if r.crossCheck.value.against != cc.value.sha { return false; }
    var accepted := r.crossCheck.value.accepted;
    for i := 0 to |accepted|
      invariant forall d | d in accepted[..i] :: DiffOk(d, keys, other)
    {
      if !DiffOk(accepted[i], keys, other) { return false; }
      assert accepted[..i + 1] == accepted[..i] + [accepted[i]];
    }
    assert accepted[..|accepted|] == accepted;
    ok := true;
  }

  /** verifyReconstruction: the offline check, loop by loop. */
  method VerifyReconstruction(file: FrozenFile, t: StageTable, system: System) returns (ok: bool)
    ensures ok <==> ReconstructionOk(file, t, system)
  {
    if file.measured.reconstructed.None? { return false; }
    var r := file.measured.reconstructed.value;
    var keys, other := StageKeys(t, system), OtherKeys(t, system);
    ok := HeaderOk(file, r) && SameKeys(file, r, keys, other);
    if !ok { return; }
    var perStage;
    ok, perStage := GatherEntries(r.adopted, keys);
    if !ok { return; }
    ok := CheckAdoptions(r.adopted, t, perStage);
    if !ok { return; }
    ok := CheckSums(file, r, keys, perStage);
    if !ok { return; }
    ok := CheckCross(file, r, keys, other);
  }
}
