/**
 Frozen transaction counts per stage: the stage table, sums, and what adopted stages contribute to the deployer nonce.
 */
module Counts {
  import opened Basics
  import opened TextOrder

  type CountMap = map<string, int>

  const LIBS_STAGE := "libs"
  const SAFE_STAGE := "safe"
  const TWIN_CHAIN_ID := 918453
  const PROOF_TX_NONCES := 1

  datatype System = Vaults | Gateway
  datatype Library = Library(name: string, artifact: string)
  datatype Stage = Stage(name: string, create2: seq<string>, system: Option<System>)
  datatype StageTable = StageTable(stages: seq<Stage>, libraries: seq<Library>, create2: seq<Library>, hasSystems: bool)

  function Names(stages: seq<Stage>): (r: seq<string>)
    ensures |r| == |stages| && forall i | 0 <= i < |stages| :: r[i] == stages[i].name
  {
    seq(|stages|, i requires 0 <= i < |stages| => stages[i].name)
  }

  function OwnStages(stages: seq<Stage>, system: System): (r: seq<Stage>)
    ensures forall s | s in r :: s in stages && s.system == Some(system)
  {
    if stages == [] then [] else
      (if stages[0].system == Some(system) then [stages[0]] else []) + OwnStages(stages[1..], system)
  }

  /** The count keys of one system: the Safe stage (not for the gateway) and its own stages. */
  function StageKeys(t: StageTable, system: System): seq<string> {
    var own := if t.hasSystems then OwnStages(t.stages, system) else t.stages;
    (if system.Gateway? then [] else [SAFE_STAGE]) + Names(own)
  }

  /** The stage names of the other systems, whose counts a combined file also holds. */
  function OtherKeys(t: StageTable, system: System): set<string> {
    if t.hasSystems then set s | s in t.stages && s.system != Some(system) :: s.name else {}
  }

  lemma {:induction false} OwnStagesAre(stages: seq<Stage>, system: System, s: Stage)
    ensures s in OwnStages(stages, system) <==> s in stages && s.system == Some(system)
  {
    if stages != [] { OwnStagesAre(stages[1..], system, s); }
  }

  /** A stage of the table that one system counts: with systems its own stages, without any. */
  ghost predicate CountsStage(t: StageTable, system: System, k: string) {
    exists s :: s in t.stages && s.name == k && (t.hasSystems ==> s.system == Some(system))
  }

  /** A stage of the table that another system counts, or none does. */
  ghost predicate CountsElsewhere(t: StageTable, system: System, k: string) {
    exists s :: s in t.stages && s.name == k && t.hasSystems && s.system != Some(system)
  }

  /** The keys are the stages the system counts and, but for the gateway, the Safe; the rest of the table is other. */
  lemma KeysOfTheTable(t: StageTable, system: System, k: string)
    ensures k in StageKeys(t, system) <==> CountsStage(t, system, k) || (k == "safe" && system != Gateway)
    ensures k in OtherKeys(t, system) <==> CountsElsewhere(t, system, k)
    ensures k in Names(t.stages) <==> CountsStage(t, system, k) || CountsElsewhere(t, system, k)
  {
    var own := if t.hasSystems then OwnStages(t.stages, system) else t.stages;
    forall s ensures s in own <==> s in t.stages && (t.hasSystems ==> s.system == Some(system)) {
      OwnStagesAre(t.stages, system, s);
    }
    NamesAre(own, k);
    NamesAre(t.stages, k);
  }

  lemma NamesAre(stages: seq<Stage>, k: string)
    ensures k in Names(stages) <==> exists s :: s in stages && s.name == k
  {
    if s :| s in stages && s.name == k {
      var i :| 0 <= i < |stages| && stages[i] == s;
      assert Names(stages)[i] == k;
    }
    if i :| 0 <= i < |stages| && Names(stages)[i] == k { assert stages[i] in stages; }
  }

  function Look(c: CountMap, k: string): Option<int> { if k in c then Some(c[k]) else None }

  predicate ValidCounts(c: CountMap) { forall k | k in c :: c[k] >= 0 }

  // ---- sums ----------------------------------------------------------------------------------------

  function SumOver(c: CountMap, keys: seq<string>): int {
    if keys == [] then 0 else SumOver(c, keys[..|keys| - 1]) + CountAt(c, keys[|keys| - 1])
  }

  function CountAt(c: CountMap, k: string): int { if k in c then c[k] else 0 }

  lemma {:induction false} SumSplit(c: CountMap, a: seq<string>, b: seq<string>)
    ensures SumOver(c, a + b) == SumOver(c, a) + SumOver(c, b)
    decreases |b|
  {
    if b == [] {
      assert a + b == a;
    } else {
      var n := |b| - 1;
      assert (a + b)[..|a + b| - 1] == a + b[..n];
      SumSplit(c, a, b[..n]);
    }
  }

  lemma SumWithout(c: CountMap, b: seq<string>, i: nat)
    requires i < |b|
    ensures SumOver(c, b) == SumOver(c, b[..i] + b[i + 1..]) + CountAt(c, b[i])
  {
    assert b == b[..i + 1] + b[i + 1..] && b[..i + 1][..i] == b[..i];
    SumSplit(c, b[..i + 1], b[i + 1..]);
    SumSplit(c, b[..i], b[i + 1..]);
  }

  /** A sum does not depend on the order the distinct keys are listed in. */
  lemma {:induction false} SumIsOrderFree(c: CountMap, a: seq<string>, b: seq<string>)
    requires Distinct(a) && Distinct(b) && SetOf(a) == SetOf(b)
    ensures SumOver(c, a) == SumOver(c, b)
    decreases |a|
  {
    SetOfSize(a);
    SetOfSize(b);
    if a == [] {
    } else {
      var n := |a| - 1;
      assert a[n] in SetOf(a);
      var i :| 0 <= i < |b| && b[i] == a[n];
      assert a[..n] + a[n + 1..] == a[..n];
      DropOne(a, n);
      DropOne(b, i);
      SumIsOrderFree(c, a[..n], b[..i] + b[i + 1..]);
      SumWithout(c, b, i);
    }
  }

  lemma DropOne(b: seq<string>, i: nat)
    requires Distinct(b) && i < |b|
    ensures var rest := b[..i] + b[i + 1..]; Distinct(rest) && SetOf(rest) == SetOf(b) - {b[i]}
  {
    var rest := b[..i] + b[i + 1..];
    forall k | 0 <= k < |rest| ensures rest[k] in SetOf(b) && rest[k] != b[i] {
      assert rest[k] == if k < i then b[k] else b[k + 1];
    }
    forall y | y in SetOf(b) - {b[i]} ensures y in SetOf(rest) {
      var k :| 0 <= k < |b| && b[k] == y;
      assert rest[if k < i then k else k - 1] == y;
    }
  }

  /** `Object.values(counts)` summed. */
  function SumValues(c: CountMap): int { SumOver(c, Sorted(c.Keys)) }

  // ---- effective counts ----------------------------------------------------------------------------

  /**
   The counts with every adopted stage at the transactions the deployer really sent. An adopted stage must
   have a count and cannot have sent more than it.
   */
  method EffectiveCounts(c: CountMap, adopted: seq<(string, int)>) returns (r: Option<CountMap>)
    ensures r.Some? <==> forall i | 0 <= i < |adopted| :: adopted[i].0 in c && 0 <= adopted[i].1 <= c[adopted[i].0]
    ensures r.Some? ==> r.value == Overridden(c, adopted)
  {
    var out := c;
    for i := 0 to |adopted|
      invariant out == Overridden(c, adopted[..i])
      invariant forall j | 0 <= j < i :: adopted[j].0 in c && 0 <= adopted[j].1 <= c[adopted[j].0]
    {
      var (k, sent) := adopted[i];
      if k !in c || sent < 0 || sent > c[k] { return None; }
      assert adopted[..i + 1][..i] == adopted[..i];
      out := out[k := sent];
    }
    assert adopted[..|adopted|] == adopted;
    r := Some(out);
  }

  function Overridden(c: CountMap, adopted: seq<(string, int)>): CountMap {
    if adopted == [] then c else
      var n := |adopted| - 1;
      Overridden(c, adopted[..n])[adopted[n].0 := adopted[n].1]
  }

  /** Per key: the sent count of an adopted stage, the frozen count of any other. */
  lemma {:induction false} OverriddenAt(c: CountMap, adopted: seq<(string, int)>, k: string)
    requires forall i, j | 0 <= i < j < |adopted| :: adopted[i].0 != adopted[j].0
    ensures forall i | 0 <= i < |adopted| && adopted[i].0 == k ::
      k in Overridden(c, adopted) && Overridden(c, adopted)[k] == adopted[i].1
    ensures (forall i | 0 <= i < |adopted| :: adopted[i].0 != k) ==> Look(Overridden(c, adopted), k) == Look(c, k)
    decreases |adopted|
  {
    if adopted != [] {
      var n := |adopted| - 1;
      OverriddenAt(c, adopted[..n], k);
      assert forall i | 0 <= i < n :: adopted[..n][i] == adopted[i];
    }
  }

  function ProofTxNonces(system: System): nat { if system.Gateway? then 0 else PROOF_TX_NONCES }

  /** The deployer nonce at the end of the deploy stages: the start, the run's own counts, and the proof transaction. */
  function FinalDeployerNonce(t: StageTable, system: System, c: CountMap, start: int): int {
    start + SumOver(c, StageKeys(t, system)) + ProofTxNonces(system)
  }

  // ---- writing -------------------------------------------------------------------------------------

  /** With systems one file holds both systems' counts: shared keys must agree. Without, the two must be identical. */
  predicate Mergeable(systems: bool, old_: CountMap, next: CountMap) {
    if systems then forall k | k in next :: k !in old_ || old_[k] == next[k] else old_ == next
  }

  /** What a merge leaves on disk: no count changed, and every key of the run present with its count. */
  lemma MergeKeepsCounts(systems: bool, old_: CountMap, next: CountMap)
    requires Mergeable(systems, old_, next)
    ensures var merged := old_ + (map k | k in next && k !in old_ :: next[k]);
            (forall k | k in old_ :: k in merged && merged[k] == old_[k]) &&
              (forall k | k in next :: k in merged && merged[k] == next[k])
  {
  }

  predicate HoldsAll(m: CountMap, c: CountMap) { forall k | k in c :: k in m && m[k] == c[k] }

  /**
   With systems two files merge exactly when some file holds both their counts, and then the merge is the least one:
   the keys of the two and no others.
   */
  lemma MergesExactlyWhen(old_: CountMap, next: CountMap)
    ensures Mergeable(true, old_, next) <==> exists m :: HoldsAll(m, old_) && HoldsAll(m, next)
    ensures Mergeable(true, old_, next) ==>
            var merged := old_ + (map k | k in next && k !in old_ :: next[k]);
            && merged.Keys == old_.Keys + next.Keys
            && forall m | HoldsAll(m, old_) && HoldsAll(m, next) :: HoldsAll(m, merged)
  {
    if Mergeable(true, old_, next) {
      var merged := old_ + (map k | k in next && k !in old_ :: next[k]);
      assert HoldsAll(merged, old_) && HoldsAll(merged, next);
    }
  }
}
