/** The owner-signer test before stage 1 of a mainnet run: does every sheet owner have exactly one signer? */
module OwnerSigners {
  import opened Basics

  const MAINNET_CHAIN_ID := 8453
  const PROOF_STAGE := "prove-control"

  /** The run: `names` are the stages its verb or stage list selects. */
  datatype Run = Run(chainId: int, verb: Option<string>, stage: Option<string>, dryRun: bool, names: seq<string>)

  datatype Refusal =
    | TooFew(have: nat, need: nat)
    | GivenTwice(spec: string)
    | NotAnOwner(spec: string, owner: string)
    | BothName(other: string, spec: string, owner: string)

  const NO_PROOF_VERBS: seq<string> := ["pause-all", "record-receipt", "redeploy-vault"]

  /** The run is checked: on mainnet, for real, with the proof stage among its stages. */
  predicate Checked(run: Run) {
    && run.chainId == 8453 && !run.dryRun && run.stage != Some("plan") && "prove-control" in run.names
    && run.verb != Some("pause-all") && run.verb != Some("record-receipt") && run.verb != Some("redeploy-vault")
  }

  function FoldedSet(owners: seq<string>): set<string> { set i | 0 <= i < |owners| :: Lower(owners[i]) }

  predicate Clash(specs: seq<string>, claimOf: string -> Option<string>, i: nat, j: nat)
    requires i < |specs| && j < |specs|
  {
    claimOf(specs[i]).Some? && claimOf(specs[i]) == claimOf(specs[j])
  }

  predicate ClaimOk(claim: Option<string>, owners: set<string>) { claim.Some? ==> claim.value in owners }

  predicate ClaimsOk(specs: seq<string>, owners: set<string>, claimOf: string -> Option<string>, n: nat)
    requires n <= |specs|
  {
    && (forall i | 0 <= i < n :: ClaimOk(claimOf(specs[i]), owners))
    && (forall i, j | 0 <= i < j < n :: !Clash(specs, claimOf, i, j))
  }

  /** Enough signers, none given twice, every readable claim an owner, no owner claimed twice. */
  predicate Passes(specs: seq<string>, owners: seq<string>, claimOf: string -> Option<string>) {
    |specs| >= |owners| && Distinct(specs) && ClaimsOk(specs, FoldedSet(owners), claimOf, |specs|)
  }

  method FirstRepeat(specs: seq<string>) returns (twice: Option<string>)
    ensures twice.None? <==> Distinct(specs)
    ensures twice.Some? ==> exists i, j :: 0 <= i < j < |specs| && specs[i] == specs[j] == twice.value
  {
    for k := 0 to |specs|
      invariant Distinct(specs[..k])
    {
      if j :| 0 <= j < k && specs[j] == specs[k] { return Some(specs[k]); }
    }
    assert specs[..|specs|] == specs;
    return None;
  }

  method Shortfall(run: Run, specs: seq<string>, owners: seq<string>, claimOf: string -> Option<string>)
    returns (r: Option<Refusal>)
    ensures r.None? <==> Checked(run) ==> Passes(specs, owners, claimOf)
  {
    if run.chainId != MAINNET_CHAIN_ID || run.dryRun || run.stage == Some("plan") { return None; }
    if run.verb.Some? && run.verb.value in NO_PROOF_VERBS { return None; }
    if PROOF_STAGE !in run.names { return None; }
    if |specs| < |owners| { return Some(TooFew(|specs|, |owners|)); }
    var twice := FirstRepeat(specs);
    if twice.Some? { return Some(GivenTwice(twice.value)); }
    r := ClaimRefusal(specs, FoldedSet(owners), claimOf);
  }

  method ClaimRefusal(specs: seq<string>, owners: set<string>, claimOf: string -> Option<string>)
    returns (r: Option<Refusal>)
    ensures r.None? <==> ClaimsOk(specs, owners, claimOf, |specs|)
  {
    var byOwner: map<string, string> := map[];
    ghost var at: map<string, nat> := map[];
    for i := 0 to |specs|
      invariant ClaimsOk(specs, owners, claimOf, i)
      invariant forall j | 0 <= j < i && claimOf(specs[j]).Some? :: claimOf(specs[j]).value in byOwner
      invariant at.Keys == byOwner.Keys && forall o | o in at :: at[o] < i && claimOf(specs[at[o]]) == Some(o)
    {
      var claim := claimOf(specs[i]);
      if claim.None? { continue; }
      if claim.value !in owners { assert !ClaimOk(claim, owners); return Some(NotAnOwner(specs[i], claim.value)); }
      if claim.value in byOwner {
        assert Clash(specs, claimOf, at[claim.value], i);
        return Some(BothName(byOwner[claim.value], specs[i], claim.value));
      }
      byOwner, at := byOwner[claim.value := specs[i]], at[claim.value := i];
    }
    return None;
  }

  // ---- the pigeonhole -----------------------------------------------------------------------------------

  function Claims(specs: seq<string>, claimOf: string -> Option<string>): (r: seq<string>)
    requires forall i | 0 <= i < |specs| :: claimOf(specs[i]).Some?
    ensures |r| == |specs| && forall i | 0 <= i < |r| :: r[i] == claimOf(specs[i]).value
  {
    seq(|specs|, i requires 0 <= i < |specs| => claimOf(specs[i]).value)
  }

  function FoldedOwners(owners: seq<string>): (r: seq<string>)
    ensures |r| == |owners| && forall i | 0 <= i < |r| :: r[i] == Lower(owners[i])
  {
    seq(|owners|, i requires 0 <= i < |owners| => Lower(owners[i]))
  }

  /**
   Signers and owners pair off: as many, no owner twice, no claim twice, every claim an owner and every owner claimed.
   */
  predicate PairedOff(claims: seq<string>, owners: seq<string>) {
    |claims| == |owners| && Distinct(claims) && Distinct(owners) && SetOf(claims) == SetOf(owners)
  }

  lemma PassesIsPigeonhole(claims: seq<string>, owners: seq<string>)
    ensures |claims| >= |owners| && Distinct(claims) && SetOf(claims) <= SetOf(owners) <==> PairedOff(claims, owners)
  {
    SetOfSize(claims);
    SetOfSize(owners);
    if |claims| >= |owners| && Distinct(claims) && SetOf(claims) <= SetOf(owners) {
      SubsetSize(SetOf(claims), SetOf(owners));
      SubsetOfSameSize(SetOf(claims), SetOf(owners));
    }
  }

  /** When every claim is readable, the run passes exactly when specs and sheet owners pair off. */
  lemma PassesExactlyWhenPaired(specs: seq<string>, owners: seq<string>, claimOf: string -> Option<string>)
    requires forall i | 0 <= i < |specs| :: claimOf(specs[i]).Some?
    ensures Passes(specs, owners, claimOf) <==> PairedOff(Claims(specs, claimOf), FoldedOwners(owners))
  {
    var claims, folded := Claims(specs, claimOf), FoldedOwners(owners);
    PassesIsPigeonhole(claims, folded);
    assert FoldedSet(owners) == SetOf(folded) by {
      forall o ensures o in FoldedSet(owners) <==> o in SetOf(folded) {
        if o in FoldedSet(owners) {
          var i :| 0 <= i < |owners| && Lower(owners[i]) == o;
          assert folded[i] == o;
        }
      }
    }
    if Passes(specs, owners, claimOf) {
      forall i, j | 0 <= i < j < |specs| ensures claims[i] != claims[j] { assert !Clash(specs, claimOf, i, j); }
      forall c | c in claims ensures c in SetOf(folded) {
        var i :| 0 <= i < |claims| && claims[i] == c;
        assert ClaimOk(claimOf(specs[i]), FoldedSet(owners));
      }
    }
    if PairedOff(claims, folded) {
      forall i, j | 0 <= i < j < |specs| ensures specs[i] != specs[j] && !Clash(specs, claimOf, i, j) {
        assert claims[i] != claims[j];
      }
      forall i | 0 <= i < |specs| ensures ClaimOk(claimOf(specs[i]), FoldedSet(owners)) {
        assert claims[i] in SetOf(claims);
      }
    }
  }

  /** The condition is needed: a spec whose claim cannot be read is let through, whichever owner it stands for. */
  lemma UnreadableClaimsHide(a: string, b: string, x: string, y: string)
    requires a != b && x != y
    ensures var claimOf := (s: string) => if s == x then Some(Lower(a)) else None;
            Passes([x, y], [a, b], claimOf)
  {
    var claimOf := (s: string) => if s == x then Some(Lower(a)) else None;
    assert Lower([a, b][0]) in FoldedSet([a, b]);
    assert !Clash([x, y], claimOf, 0, 1);
  }
}
