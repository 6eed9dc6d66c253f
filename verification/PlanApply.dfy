/** The weights of a receipt payload as the router's vector, checked against the registry before anything is sent. */
module PlanApply {
  import opened Basics
  import opened KeySort

  datatype VaultKey = USDC | PROTO | RWA

  /** One weight of the payload. The weight is none when it is not an integer. */
  datatype Weight = Weight(bucket: string, bps: Option<int>)

  /** The payload file, parsed: its weights, or none when it is not JSON or has no such list. */
  datatype Payload = NotJson | NoWeights | Weights(list: seq<Weight>)

  datatype Placed = Placed(vault: string, bps: int, bucket: string)

  datatype Vector = Vector(vaults: seq<string>, bps: seq<int>)

  datatype Usage =
    | BadPayload | UnknownBucket(bucket: string) | RepeatedBucket(bucket: string) | BadWeight(bucket: string)
    | RetiredBucket(bucket: string) | BadSum(sum: int)
    | NotRecorded | AlreadyReleased | NotNewer | NoDigest | OtherDigest | OtherVaults

  const BPS_TOTAL := 10000

  /** Bucket to vault. `agent_tokens` is a bucket of the schema with no vault. */
  const BUCKET_VAULT: map<string, Option<VaultKey>> := map[
    "conservative_defi_yield" := Some(USDC), "protocol_tokens" := Some(PROTO), "agent_tokens" := None,
      "real_world_assets" := Some(RWA)]

  type VaultOf = VaultKey -> string

  // ---- payloadVector -----------------------------------------------------------------------------------

  predicate InRange(bps: Option<int>) { bps.Some? && 0 <= bps.value <= BPS_TOTAL }

  predicate WeightOk(w: Weight) {
    && w.bucket in BUCKET_VAULT && w.bps.Some? && 0 <= w.bps.value <= 10000
    && (BUCKET_VAULT[w.bucket].None? ==> w.bps.value == 0)
  }

  predicate SameBucket(a: Weight, b: Weight) { a.bucket == b.bucket }

  predicate WeightsOk(ws: seq<Weight>, n: nat)
    requires n <= |ws|
  {
    && (forall i | 0 <= i < n :: WeightOk(ws[i]))
    && (forall i, j | 0 <= i < j < n :: !SameBucket(ws[i], ws[j]))
  }

  predicate HasVault(w: Weight) { w.bucket in BUCKET_VAULT && BUCKET_VAULT[w.bucket].Some? && w.bps.Some? }

  function PlacedAs(w: Weight, vaultOf: VaultOf): Placed
    requires HasVault(w)
  {
    Placed(vaultOf(BUCKET_VAULT[w.bucket].value), w.bps.value, w.bucket)
  }

  /** The entries the buckets with a vault make, in payload order. */
  function PlacedOf(ws: seq<Weight>, vaultOf: VaultOf): seq<Placed> {
    if ws == [] then [] else
      var n := |ws| - 1;
      PlacedOf(ws[..n], vaultOf) + if HasVault(ws[n]) then [PlacedAs(ws[n], vaultOf)] else []
  }

  function Sum(s: seq<Placed>): int { if s == [] then 0 else s[0].bps + Sum(s[1..]) }

  predicate IsEligible(eligible: seq<string>, vault: string) {
    exists i | 0 <= i < |eligible| :: Lower(eligible[i]) == Lower(vault)
  }

  function Kept(s: seq<Placed>, eligible: seq<string>): seq<Placed> {
    if s == [] then [] else
      (if s[0].bps > 0 || IsEligible(eligible, s[0].vault) then [s[0]] else []) + Kept(s[1..], eligible)
  }

  function VectorOf(s: seq<Placed>): (v: Vector)
    ensures |v.vaults| == |v.bps| == |s| && forall i | 0 <= i < |s| :: v.vaults[i] == s[i].vault && v.bps[i] == s[i].bps
  {
    Vector(seq(|s|, i requires 0 <= i < |s| => s[i].vault), seq(|s|, i requires 0 <= i < |s| => s[i].bps))
  }

  /** What the payload must be: known buckets, none twice, weights in range, none on a retired vault, 10000 in all. */
  predicate PayloadOk(p: Payload, vaultOf: VaultOf) {
    p.Weights? && p.list != [] && WeightsOk(p.list, |p.list|) && Sum(PlacedOf(p.list, vaultOf)) == BPS_TOTAL
  }

  method PayloadVector(p: Payload, vaultOf: VaultOf, eligible: seq<string>) returns (r: Result<seq<Placed>, Usage>)
    ensures r.Ok? <==> PayloadOk(p, vaultOf)
    ensures r.Ok? ==> r.value == Kept(PlacedOf(p.list, vaultOf), eligible)
  {
    if !p.Weights? || p.list == [] { return Err(BadPayload); }
    var ws := p.list;
    var seen: set<string> := {};
    var entries: seq<Placed> := [];
    for i := 0 to |ws|
      invariant WeightsOk(ws, i)
      invariant forall b :: b in seen <==> exists j | 0 <= j < i :: ws[j].bucket == b
      invariant entries == PlacedOf(ws[..i], vaultOf)
    {
      var w := ws[i];
      assert WeightsOk(ws, i + 1) <==>
        WeightsOk(ws, i) && WeightOk(w) && forall j | 0 <= j < i :: !SameBucket(ws[j], w);
      if w.bucket !in BUCKET_VAULT { assert !WeightOk(w); return Err(UnknownBucket(w.bucket)); }
      if w.bucket in seen { assert exists j | 0 <= j < i :: SameBucket(ws[j], w); return Err(RepeatedBucket(w.bucket));
        }
      seen := seen + {w.bucket};
      if !InRange(w.bps) { assert !WeightOk(w); return Err(BadWeight(w.bucket)); }
      assert ws[..i + 1][..i] == ws[..i];
      match BUCKET_VAULT[w.bucket]
      case None =>
        if w.bps.value > 0 { assert !WeightOk(w); return Err(RetiredBucket(w.bucket)); }
      case Some(key) =>
        entries := entries + [Placed(vaultOf(key), w.bps.value, w.bucket)];
    }
    assert ws[..|ws|] == ws;
    var sum := Sum(entries);
    if sum != BPS_TOTAL { return Err(BadSum(sum)); }
    return Ok(Kept(entries, eligible));
  }

  // ---- planApply ---------------------------------------------------------------------------------------

  /** What the chain says of the receipt. `digest` is the digest of the payload bytes. */
  datatype Receipt = Receipt(inFlight: bool, recorded: bool, released: bool, recordedAt: Option<int>,
    lastApplied: Option<int>, storedDigest: Option<string>, digest: string)

  function Folded(s: seq<string>): (r: seq<string>)
    ensures |r| == |s| && forall i | 0 <= i < |s| :: r[i] == Lower(s[i])
  {
    seq(|s|, i requires 0 <= i < |s| => Lower(s[i]))
  }

  function Vaults(s: seq<Placed>): (r: seq<string>)
    ensures |r| == |s| && forall i | 0 <= i < |s| :: r[i] == Lower(s[i].vault)
  {
    seq(|s|, i requires 0 <= i < |s| => Lower(s[i].vault))
  }

  function IndexOf(want: seq<string>, x: string): (k: int)
    ensures -1 <= k < |want| && (k >= 0 <==> x in want) && (k >= 0 ==> want[k] == x && x !in want[..k])
  {
    if want == [] then -1 else if want[0] == x then 0 else
      var k := IndexOf(want[1..], x);
      assert want == [want[0]] + want[1..];
      assert k >= 0 ==> want[..k + 1] == [want[0]] + want[1..][..k];
      if k < 0 then -1 else k + 1
  }

  function Place(want: seq<string>): Placed -> int { (e: Placed) => IndexOf(want, Lower(e.vault)) + 1 }

  /**
   The receipt may be applied: its round is in flight, or it is recorded, not released and newer than the last applied.
   */
  predicate ReceiptOk(c: Receipt) {
    && (c.inFlight || (c.recorded && !c.released && !(c.recordedAt.Some? && c.lastApplied.Some? &&
      c.recordedAt.value <= c.lastApplied.value)))
    && c.storedDigest.Some? && Lower(c.digest) == Lower(c.storedDigest.value)
  }

  /** The vault lists name the same vaults, each once. */
  predicate SameVaults(got: seq<string>, want: seq<string>) {
    Distinct(got) && Distinct(want) && SetOf(got) == SetOf(want)
  }

  /** The tool's test of the vault list: as long, nothing twice, nothing foreign. */
  predicate ListTest(got: seq<string>, want: seq<string>) {
    |got| == |want| && |SetOf(got)| == |got| && forall x | x in got :: x in want
  }

  /**
   By pigeonhole the test decides that the lists are permutations of each other, so the eligible list repeats nothing
   either.
   */
  lemma ListTestIsExact(got: seq<string>, want: seq<string>)
    ensures ListTest(got, want) <==> SameVaults(got, want)
  {
    SetOfSize(got);
    SetOfSize(want);
    if ListTest(got, want) {
      SubsetOfSameSize(SetOf(got), SetOf(want));
    }
    if SameVaults(got, want) {
      forall x | x in got ensures x in want { assert x in SetOf(got); }
    }
  }

  predicate Appliable(c: Receipt, p: Payload, vaultOf: VaultOf, eligible: seq<string>) {
    && ReceiptOk(c) && PayloadOk(p, vaultOf)
    && SameVaults(Vaults(Kept(PlacedOf(p.list, vaultOf), eligible)), Folded(eligible))
  }

  /** The entries in registry order. */
  function Arranged(p: Payload, vaultOf: VaultOf, eligible: seq<string>): seq<Placed>
    requires PayloadOk(p, vaultOf)
  {
    SortBy(Kept(PlacedOf(p.list, vaultOf), eligible), Place(Folded(eligible)))
  }

  method Plan(c: Receipt, p: Payload, vaultOf: VaultOf, eligible: seq<string>) returns (r: Result<Vector, Usage>)
    ensures r.Ok? <==> Appliable(c, p, vaultOf, eligible)
    ensures r.Ok? ==> r.value == VectorOf(Arranged(p, vaultOf, eligible))
  {
    if !c.inFlight {
      if !c.recorded { return Err(NotRecorded); }
      if c.released { return Err(AlreadyReleased); }
      if c.recordedAt.Some? && c.lastApplied.Some? && c.recordedAt.value <= c.lastApplied.value {
        return Err(NotNewer);
      }
    }
    if c.storedDigest.None? { return Err(NoDigest); }
    if Lower(c.digest) != Lower(c.storedDigest.value) { return Err(OtherDigest); }
    var v := PayloadVector(p, vaultOf, eligible);
    if v.Err? { return Err(v.error); }
    var want, got := Folded(eligible), Vaults(v.value);
    ListTestIsExact(got, want);
    if |got| != |want| || |SetOf(got)| != |got| || exists i | 0 <= i < |got| :: got[i] !in want {
      return Err(OtherVaults);
    }
    return Ok(VectorOf(SortBy(v.value, Place(want))));
  }

  // ---- what a planned vector is ------------------------------------------------------------------------

  lemma PlacesAreNumbered(s: seq<Placed>, want: seq<string>)
    requires SameVaults(Vaults(s), want)
    ensures |s| == |want| && Numbered(s, Place(want)) && forall e | e in s :: Lower(e.vault) in want
  {
    var got, key := Vaults(s), Place(want);
    SetOfSize(got);
    SetOfSize(want);
    forall i | 0 <= i < |s| ensures got[i] in want { assert got[i] in SetOf(got); }
    forall i, j | 0 <= i < j < |s| ensures KeysOf(s, key)[i] != KeysOf(s, key)[j] { assert got[i] != got[j]; }
    forall e | e in s ensures 1 <= key(e) <= |s| && Lower(e.vault) in want {
      var i :| 0 <= i < |s| && s[i] == e;
      assert got[i] in want;
    }
  }

  /** In registry order the k-th vault is the k-th eligible one. */
  lemma ArrangedIsRegistryOrder(s: seq<Placed>, want: seq<string>)
    requires SameVaults(Vaults(s), want)
    ensures Vaults(SortBy(s, Place(want))) == want
  {
    PlacesAreNumbered(s, want);
    SortFills(s, Place(want));
    var sorted := SortBy(s, Place(want));
    forall k | 0 <= k < |want| ensures Vaults(sorted)[k] == want[k] { assert Place(want)(sorted[k]) == k + 1; }
  }

  lemma {:induction false} InsertSum(e: Placed, s: seq<Placed>, key: Placed -> int)
    ensures Sum(Insert(e, s, key)) == e.bps + Sum(s)
  {
    if !(s == [] || NotLater(e, s[0], key)) { InsertSum(e, s[1..], key); }
  }

  lemma {:induction false} SortSum(s: seq<Placed>, key: Placed -> int)
    ensures Sum(SortBy(s, key)) == Sum(s)
  {
    if s != [] {
      SortSum(s[1..], key);
      InsertSum(s[0], SortBy(s[1..], key), key);
    }
  }

  function Total(bps: seq<int>): int { if bps == [] then 0 else bps[0] + Total(bps[1..]) }

  lemma {:induction false} VectorTotal(s: seq<Placed>)
    ensures Total(VectorOf(s).bps) == Sum(s)
  {
    if s != [] {
      VectorTotal(s[1..]);
      assert VectorOf(s).bps[1..] == VectorOf(s[1..]).bps;
    }
  }

  predicate NoNegative(s: seq<Placed>) { forall e | e in s :: e.bps >= 0 }

  /** Dropping moves no weight, and drops exactly the weightless entries of vaults that are not eligible. */
  lemma {:induction false} KeptHolds(s: seq<Placed>, eligible: seq<string>)
    requires NoNegative(s)
    ensures Sum(Kept(s, eligible)) == Sum(s)
    ensures forall e :: e in Kept(s, eligible) <==> e in s && (e.bps > 0 || IsEligible(eligible, e.vault))
  {
    if s != [] {
      assert s[0] in s && s == [s[0]] + s[1..];
      KeptHolds(s[1..], eligible);
      assert Kept(s, eligible) == Kept(s[1..], eligible) || Kept(s, eligible) == [s[0]] + Kept(s[1..], eligible);
    }
  }

  /** A weight of the payload as an entry. */
  predicate Carries(e: Placed, w: Weight, vaultOf: VaultOf) { HasVault(w) && e == PlacedAs(w, vaultOf) }

  lemma {:induction false} PlacedHolds(ws: seq<Weight>, vaultOf: VaultOf)
    requires forall i | 0 <= i < |ws| :: WeightOk(ws[i])
    ensures forall e | e in PlacedOf(ws, vaultOf) :: e.bps >= 0 && exists i ::
      0 <= i < |ws| && Carries(e, ws[i], vaultOf)
    ensures forall i | 0 <= i < |ws| && HasVault(ws[i]) :: PlacedAs(ws[i], vaultOf) in PlacedOf(ws, vaultOf)
  {
    if ws != [] {
      var n := |ws| - 1;
      PlacedHolds(ws[..n], vaultOf);
      assert forall i | 0 <= i < n :: ws[..n][i] == ws[i];
      assert WeightOk(ws[n]);
    }
  }

  /** Where a vault stands in a vector, with its weight. */
  predicate Stands(v: Vector, k: nat, vault: string, bps: int) {
    k < |v.vaults| && k < |v.bps| && v.vaults[k] == vault && v.bps[k] == bps
  }

  /**
   A planned vector is the registry's eligible list in order, up to address case, with nothing twice in it, and its
   weights sum to 10000.
   */
  lemma RouterVector(c: Receipt, p: Payload, vaultOf: VaultOf, eligible: seq<string>)
    requires Appliable(c, p, vaultOf, eligible)
    ensures var v := VectorOf(Arranged(p, vaultOf, eligible));
            && Folded(v.vaults) == Folded(eligible)
            && Distinct(Folded(eligible))
            && |v.bps| == |eligible|
            && Total(v.bps) == 10000
  {
    var placed := PlacedOf(p.list, vaultOf);
    var kept := Kept(placed, eligible);
    PlacedHolds(p.list, vaultOf);
    KeptHolds(placed, eligible);
    SortSum(kept, Place(Folded(eligible)));
    ArrangedIsRegistryOrder(kept, Folded(eligible));
    var v := VectorOf(Arranged(p, vaultOf, eligible));
    VectorTotal(Arranged(p, vaultOf, eligible));
    assert Folded(v.vaults) == Vaults(Arranged(p, vaultOf, eligible));
  }

  lemma ArrangedHolds(p: Payload, vaultOf: VaultOf, eligible: seq<string>, e: Placed)
    requires PayloadOk(p, vaultOf)
    ensures e in Arranged(p, vaultOf, eligible) <==>
      e in PlacedOf(p.list, vaultOf) && (e.bps > 0 || IsEligible(eligible, e.vault))
  {
    PlacedHolds(p.list, vaultOf);
    KeptHolds(PlacedOf(p.list, vaultOf), eligible);
    SortHolds(Kept(PlacedOf(p.list, vaultOf), eligible), Place(Folded(eligible)));
  }

  /** Which vault a payload bucket is for. The agent bucket is for none. */
  predicate IsFor(bucket: string, key: VaultKey) {
    match key
    case USDC => bucket == "conservative_defi_yield"
    case PROTO => bucket == "protocol_tokens"
    case RWA => bucket == "real_world_assets"
  }

  lemma BucketIsFor(w: Weight, vaultOf: VaultOf)
    requires WeightOk(w)
    ensures w.bucket == "agent_tokens" || exists key :: IsFor(w.bucket, key)
    ensures forall key | IsFor(w.bucket, key) ::
      HasVault(w) && PlacedAs(w, vaultOf) == Placed(vaultOf(key), w.bps.value, w.bucket)
    ensures HasVault(w) ==> exists key :: IsFor(w.bucket, key)
  {
    assert IsFor("conservative_defi_yield", USDC) && IsFor("protocol_tokens", PROTO) && IsFor("real_world_assets", RWA);
  }

  /**
   Every bucket's weight stands on the bucket's own vault in the vector: the yield bucket's on USDC, the protocol
   bucket's on PROTO, the real-world bucket's on RWA. What is not in the vector weighs nothing,
     nor does the agent bucket.
   */
  lemma WeightsLandOnTheirVaults(c: Receipt, p: Payload, vaultOf: VaultOf, eligible: seq<string>, i: nat, key: VaultKey)
    requires Appliable(c, p, vaultOf, eligible) && i < |p.list|
    ensures var v := VectorOf(Arranged(p, vaultOf, eligible));
            var w := p.list[i];
            && w.bps.Some? && (w.bucket == "agent_tokens" ==> w.bps.value == 0)
            && (IsFor(w.bucket, key) ==>
                  if w.bps.value > 0 || IsEligible(eligible, vaultOf(key))
                  then exists k :: Stands(v, k, vaultOf(key), w.bps.value) else w.bps.value == 0)
  {
    var w := p.list[i];
    assert WeightOk(w);
    BucketIsFor(w, vaultOf);
    if IsFor(w.bucket, key) {
      var e := Placed(vaultOf(key), w.bps.value, w.bucket);
      PlacedHolds(p.list, vaultOf);
      ArrangedHolds(p, vaultOf, eligible, e);
      if e.bps > 0 || IsEligible(eligible, e.vault) {
        var s := Arranged(p, vaultOf, eligible);
        var k :| 0 <= k < |s| && s[k] == e;
        assert Stands(VectorOf(s), k, e.vault, e.bps);
      }
    }
  }

  /** A weight of the payload put on the vault its bucket is for. */
  predicate Lands(w: Weight, key: VaultKey, vaultOf: VaultOf, vault: string, bps: int) {
    IsFor(w.bucket, key) && vault == vaultOf(key) && w.bps == Some(bps)
  }

  /** And nothing else is in the vector: each place carries the weight of one bucket of the payload, on its vault. */
  lemma EveryPlaceIsABucket(c: Receipt, p: Payload, vaultOf: VaultOf, eligible: seq<string>, k: nat)
    requires Appliable(c, p, vaultOf, eligible) && k < |VectorOf(Arranged(p, vaultOf, eligible)).vaults|
    ensures var v := VectorOf(Arranged(p, vaultOf, eligible));
            exists i, key :: 0 <= i < |p.list| && Lands(p.list[i], key, vaultOf, v.vaults[k], v.bps[k])
  {
    var e := Arranged(p, vaultOf, eligible)[k];
    assert e in Arranged(p, vaultOf, eligible);
    ArrangedHolds(p, vaultOf, eligible, e);
    PlacedHolds(p.list, vaultOf);
    var i :| 0 <= i < |p.list| && Carries(e, p.list[i], vaultOf);
    BucketIsFor(p.list[i], vaultOf);
    var key :| IsFor(p.list[i].bucket, key);
    assert Lands(p.list[i], key, vaultOf, e.vault, e.bps);
  }

  // ---- when the vault lists agree ----------------------------------------------------------------------

  /** A bucket of the payload is for a vault of this folded address. */
  predicate Brings(w: Weight, vaultOf: VaultOf, address: string) {
    exists key: VaultKey :: IsFor(w.bucket, key) && Lower(vaultOf(key)) == address
  }

  /** Both buckets bring one eligible vault. */
  predicate Collide(a: Weight, b: Weight, vaultOf: VaultOf, eligible: seq<string>) {
    exists e | e in eligible :: Brings(a, vaultOf, Lower(e)) && Brings(b, vaultOf, Lower(e))
  }

  /** A bucket with weight is for an eligible vault. */
  predicate WeightIsEligible(w: Weight, vaultOf: VaultOf, eligible: seq<string>) {
    w.bps.Some? && w.bps.value > 0 ==> exists e | e in eligible :: Brings(w, vaultOf, Lower(e))
  }

  lemma {:induction false} PlacedDistinct(ws: seq<Weight>, vaultOf: VaultOf)
    requires forall i | 0 <= i < |ws| :: WeightOk(ws[i])
    requires forall i, j | 0 <= i < j < |ws| :: !SameBucket(ws[i], ws[j])
    ensures Distinct(PlacedOf(ws, vaultOf))
  {
    if ws != [] {
      var n := |ws| - 1;
      PlacedDistinct(ws[..n], vaultOf);
      PlacedHolds(ws[..n], vaultOf);
      forall e | e in PlacedOf(ws[..n], vaultOf) ensures e.bucket != ws[n].bucket {
        var i :| 0 <= i < n && Carries(e, ws[..n][i], vaultOf);
        assert !SameBucket(ws[i], ws[n]);
      }
    }
  }

  lemma {:induction false} KeptDistinct(s: seq<Placed>, eligible: seq<string>)
    requires Distinct(s)
    ensures Distinct(Kept(s, eligible)) && forall e | e in Kept(s, eligible) :: e in s
  {
    if s != [] {
      assert s == [s[0]] + s[1..];
      KeptDistinct(s[1..], eligible);
      assert s[0] !in s[1..];
    }
  }

  lemma FoldsApart(s: seq<Placed>)
    requires Distinct(s)
    ensures Distinct(Vaults(s)) <==> forall e, f | e in s && f in s && Lower(e.vault) == Lower(f.vault) :: e == f
  {
    if Distinct(Vaults(s)) {
      forall e, f | e in s && f in s && Lower(e.vault) == Lower(f.vault) ensures e == f {
        var i :| 0 <= i < |s| && s[i] == e;
        var j :| 0 <= j < |s| && s[j] == f;
        assert Vaults(s)[i] == Vaults(s)[j];
      }
    }
    if forall e, f | e in s && f in s && Lower(e.vault) == Lower(f.vault) :: e == f {
      forall i, j | 0 <= i < j < |s| ensures Vaults(s)[i] != Vaults(s)[j] {
        assert s[i] in s && s[j] in s && s[i] != s[j]; }
    }
  }

  lemma VaultsAre(s: seq<Placed>, x: string)
    ensures x in SetOf(Vaults(s)) <==> exists e :: e in s && Lower(e.vault) == x
  {
    if x in SetOf(Vaults(s)) {
      var i :| 0 <= i < |s| && Vaults(s)[i] == x;
      assert s[i] in s;
    }
    if e :| e in s && Lower(e.vault) == x {
      var i :| 0 <= i < |s| && s[i] == e;
      assert Vaults(s)[i] == x;
    }
  }

  lemma BringsIs(w: Weight, vaultOf: VaultOf, x: string)
    requires WeightOk(w)
    ensures Brings(w, vaultOf, x) <==> HasVault(w) && Lower(PlacedAs(w, vaultOf).vault) == x
  {
    BucketIsFor(w, vaultOf);
  }

  /** The entries the tool keeps, by the buckets they come from. */
  lemma KeptIs(p: Payload, vaultOf: VaultOf, eligible: seq<string>, e: Placed)
    requires PayloadOk(p, vaultOf)
    ensures e in Kept(PlacedOf(p.list, vaultOf), eligible) <==>
            exists i :: 0 <= i < |p.list| && Carries(e, p.list[i], vaultOf) &&
              (e.bps > 0 || IsEligible(eligible, e.vault))
  {
    PlacedHolds(p.list, vaultOf);
    KeptHolds(PlacedOf(p.list, vaultOf), eligible);
  }

  /** Every eligible vault is brought, every weight is on an eligible one, and no two buckets bring one. */
  ghost predicate Covered(ws: seq<Weight>, vaultOf: VaultOf, eligible: seq<string>) {
    && Distinct(Folded(eligible))
    && (forall e | e in eligible :: exists i :: 0 <= i < |ws| && Brings(ws[i], vaultOf, Lower(e)))
    && (forall i | 0 <= i < |ws| :: WeightIsEligible(ws[i], vaultOf, eligible))
    && (forall i, j | 0 <= i < j < |ws| :: !Collide(ws[i], ws[j], vaultOf, eligible))
  }

  lemma FoldedAre(eligible: seq<string>, x: string)
    ensures x in SetOf(Folded(eligible)) <==> exists e :: e in eligible && Lower(e) == x
    ensures forall vault :: IsEligible(eligible, vault) <==> Lower(vault) in SetOf(Folded(eligible))
  {
    forall y ensures y in SetOf(Folded(eligible)) <==> exists e :: e in eligible && Lower(e) == y {
      if y in SetOf(Folded(eligible)) {
        var i :| 0 <= i < |eligible| && Folded(eligible)[i] == y;
        assert eligible[i] in eligible;
      }
      if e :| e in eligible && Lower(e) == y {
        var i :| 0 <= i < |eligible| && eligible[i] == e;
        assert Folded(eligible)[i] == y;
      }
    }
    forall vault ensures IsEligible(eligible, vault) <==> Lower(vault) in SetOf(Folded(eligible)) {
      if IsEligible(eligible, vault) {
        var i :| 0 <= i < |eligible| && Lower(eligible[i]) == Lower(vault);
        assert eligible[i] in eligible;
      }
    }
  }

  lemma AgreeIsCovered(p: Payload, vaultOf: VaultOf, eligible: seq<string>)
    requires PayloadOk(p, vaultOf)
    requires SameVaults(Vaults(Kept(PlacedOf(p.list, vaultOf), eligible)), Folded(eligible))
    ensures Covered(p.list, vaultOf, eligible)
  {
    var ws, kept := p.list, Kept(PlacedOf(p.list, vaultOf), eligible);
    PlacedDistinct(ws, vaultOf);
    KeptDistinct(PlacedOf(ws, vaultOf), eligible);
    FoldsApart(kept);
    forall e | e in eligible ensures exists i :: 0 <= i < |ws| && Brings(ws[i], vaultOf, Lower(e)) {
      FoldedAre(eligible, Lower(e));
      VaultsAre(kept, Lower(e));
      var f :| f in kept && Lower(f.vault) == Lower(e);
      KeptIs(p, vaultOf, eligible, f);
      var i :| 0 <= i < |ws| && Carries(f, ws[i], vaultOf);
      BringsIs(ws[i], vaultOf, Lower(e));
    }
    forall i | 0 <= i < |ws| ensures WeightIsEligible(ws[i], vaultOf, eligible) {
      if ws[i].bps.value > 0 {
        BucketIsFor(ws[i], vaultOf);
        var f := PlacedAs(ws[i], vaultOf);
        assert Carries(f, ws[i], vaultOf);
        KeptIs(p, vaultOf, eligible, f);
        VaultsAre(kept, Lower(f.vault));
        FoldedAre(eligible, Lower(f.vault));
        var e :| e in eligible && Lower(e) == Lower(f.vault);
        BringsIs(ws[i], vaultOf, Lower(e));
      }
    }
    forall i, j | 0 <= i < j < |ws| ensures !Collide(ws[i], ws[j], vaultOf, eligible) {
      if e :| e in eligible && Brings(ws[i], vaultOf, Lower(e)) && Brings(ws[j], vaultOf, Lower(e)) {
        BothKept(p, vaultOf, eligible, i, j, e);
      }
    }
  }

  lemma BothKept(p: Payload, vaultOf: VaultOf, eligible: seq<string>, i: nat, j: nat, e: string)
    requires PayloadOk(p, vaultOf) && i < j < |p.list| && e in eligible
    requires Brings(p.list[i], vaultOf, Lower(e)) && Brings(p.list[j], vaultOf, Lower(e))
    ensures var kept := Kept(PlacedOf(p.list, vaultOf), eligible);
            exists f, g :: f in kept && g in kept && Lower(f.vault) == Lower(g.vault) && f != g
  {
    var ws := p.list;
    BringsIs(ws[i], vaultOf, Lower(e));
    BringsIs(ws[j], vaultOf, Lower(e));
    var f, g := PlacedAs(ws[i], vaultOf), PlacedAs(ws[j], vaultOf);
    assert Carries(f, ws[i], vaultOf) && Carries(g, ws[j], vaultOf);
    FoldedAre(eligible, Lower(e));
    KeptIs(p, vaultOf, eligible, f);
    KeptIs(p, vaultOf, eligible, g);
    assert !SameBucket(ws[i], ws[j]);
  }

  /** Where a kept entry comes from: a bucket that brings an eligible vault. */
  lemma KeptIsEligible(p: Payload, vaultOf: VaultOf, eligible: seq<string>, f: Placed) returns (i: nat, e: string)
    requires PayloadOk(p, vaultOf) && Covered(p.list, vaultOf, eligible)
    requires f in Kept(PlacedOf(p.list, vaultOf), eligible)
    ensures i < |p.list| && Carries(f, p.list[i], vaultOf) && e in eligible && Lower(e) == Lower(f.vault)
    ensures Brings(p.list[i], vaultOf, Lower(e))
  {
    KeptIs(p, vaultOf, eligible, f);
    i :| 0 <= i < |p.list| && Carries(f, p.list[i], vaultOf) && (f.bps > 0 || IsEligible(eligible, f.vault));
    if f.bps > 0 {
      assert WeightIsEligible(p.list[i], vaultOf, eligible);
      e :| e in eligible && Brings(p.list[i], vaultOf, Lower(e));
    } else {
      var k :| 0 <= k < |eligible| && Lower(eligible[k]) == Lower(f.vault);
      e := eligible[k];
    }
    BringsIs(p.list[i], vaultOf, Lower(e));
  }

  lemma OneBringer(ws: seq<Weight>, vaultOf: VaultOf, eligible: seq<string>, i: nat, j: nat, e: string)
    requires Covered(ws, vaultOf, eligible) && i < |ws| && j < |ws| && e in eligible
    requires Brings(ws[i], vaultOf, Lower(e)) && Brings(ws[j], vaultOf, Lower(e))
    ensures i == j
  {
    assert Collide(ws[i], ws[j], vaultOf, eligible) && Collide(ws[j], ws[i], vaultOf, eligible);
  }

  lemma CoveredKeepsApart(p: Payload, vaultOf: VaultOf, eligible: seq<string>, f: Placed, g: Placed)
    requires PayloadOk(p, vaultOf) && Covered(p.list, vaultOf, eligible)
    requires f in Kept(PlacedOf(p.list, vaultOf), eligible) && g in Kept(PlacedOf(p.list, vaultOf), eligible)
    requires Lower(f.vault) == Lower(g.vault)
    ensures f == g
  {
    var i, e := KeptIsEligible(p, vaultOf, eligible, f);
    var j, h := KeptIsEligible(p, vaultOf, eligible, g);
    assert Lower(h) == Lower(e);
    OneBringer(p.list, vaultOf, eligible, i, j, e);
  }

  lemma CoveredAgrees(p: Payload, vaultOf: VaultOf, eligible: seq<string>)
    requires PayloadOk(p, vaultOf) && Covered(p.list, vaultOf, eligible)
    ensures SameVaults(Vaults(Kept(PlacedOf(p.list, vaultOf), eligible)), Folded(eligible))
  {
    var ws, kept := p.list, Kept(PlacedOf(p.list, vaultOf), eligible);
    PlacedDistinct(ws, vaultOf);
    KeptDistinct(PlacedOf(ws, vaultOf), eligible);
    FoldsApart(kept);
    forall f, g | f in kept && g in kept && Lower(f.vault) == Lower(g.vault) ensures f == g {
      CoveredKeepsApart(p, vaultOf, eligible, f, g);
    }
    forall x ensures x in SetOf(Vaults(kept)) <==> x in SetOf(Folded(eligible)) {
      CoveredHolds(p, vaultOf, eligible, x);
    }
  }

  lemma CoveredHolds(p: Payload, vaultOf: VaultOf, eligible: seq<string>, x: string)
    requires PayloadOk(p, vaultOf) && Covered(p.list, vaultOf, eligible)
    ensures x in SetOf(Vaults(Kept(PlacedOf(p.list, vaultOf), eligible))) <==> x in SetOf(Folded(eligible))
  {
    var ws, kept := p.list, Kept(PlacedOf(p.list, vaultOf), eligible);
    VaultsAre(kept, x);
    FoldedAre(eligible, x);
    if f :| f in kept && Lower(f.vault) == x { var i, e := KeptIsEligible(p, vaultOf, eligible, f); }
    if e :| e in eligible && Lower(e) == x {
      var i :| 0 <= i < |ws| && Brings(ws[i], vaultOf, x);
      BringsIs(ws[i], vaultOf, x);
      var f := PlacedAs(ws[i], vaultOf);
      assert Carries(f, ws[i], vaultOf);
      KeptIs(p, vaultOf, eligible, f);
    }
  }

  /**
   When a good payload's vaults agree with the registry, over the buckets and addresses alone: the registry lists no
   vault twice up to case, each of its vaults is brought by a bucket, every bucket with weight is for one of them, and
   no two buckets bring the same one.
   */
  lemma VaultsAgreeExactlyWhen(c: Receipt, p: Payload, vaultOf: VaultOf, eligible: seq<string>)
    requires ReceiptOk(c) && PayloadOk(p, vaultOf)
    ensures Appliable(c, p, vaultOf, eligible) <==> Covered(p.list, vaultOf, eligible)
  {
    if Appliable(c, p, vaultOf, eligible) { AgreeIsCovered(p, vaultOf, eligible); }
    if Covered(p.list, vaultOf, eligible) { CoveredAgrees(p, vaultOf, eligible); }
  }
}
