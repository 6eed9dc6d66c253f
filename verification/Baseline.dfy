/** What an accepted reconstruction bounds, the rebuild of a baseline, and why it undoes the adoption. */
module Baseline {
  import opened Basics
  import opened TextOrder
  import opened Counts
  import opened Reconstruct

  // ---- the adoption bound --------------------------------------------------------------------------

  /** Distinct stage names, no library listed twice by one stage, and a libs stage that lists no CREATE2 library. */
  ghost predicate TableOk(t: StageTable) {
    && Distinct(Names(t.stages))
    && (forall i | 0 <= i < |t.stages| :: Distinct(t.stages[i].create2))
    && (forall i | 0 <= i < |t.stages| && t.stages[i].name == LIBS_STAGE :: t.stages[i].create2 == [])
  }

  ghost predicate Adopts(t: StageTable, stage: string, n: string) {
    exists l :: l in AdoptableOf(t, stage) && l.name == n
  }

  lemma {:induction false} FirstListingsAre(names: seq<string>, earlier: set<string>, libs: seq<Library>, n: string)
    ensures (exists l :: l in FirstListings(names, earlier, libs) && l.name == n) <==> n in names && n !in earlier
  {
    if names != [] {
      FirstListingsAre(names[1..], earlier, libs, n);
      var head := if names[0] in earlier then [] else [EntryOf(libs, names[0])];
      var tail := FirstListings(names[1..], earlier, libs);
      assert FirstListings(names, earlier, libs) == head + tail;
      assert n in names <==> n == names[0] || n in names[1..];
      if n == names[0] && n !in earlier { assert EntryOf(libs, names[0]) in head + tail; }
      if l :| l in tail && l.name == n { assert l in head + tail; }
      if l :| l in head + tail && l.name == n { assert l in head || l in tail; }
    }
  }

  /** Position `at` is where `n` is listed first. */
  ghost predicate FirstAt(t: StageTable, at: nat, n: string)
    requires at < |t.stages|
  {
    n in t.stages[at].create2 && n !in Earlier(t, at)
  }

  lemma AdoptsAt(t: StageTable, stage: string, n: string)
    requires stage != LIBS_STAGE
    ensures Adopts(t, stage, n) <==> FindStage(t, stage).Some? && FirstAt(t, FindStage(t, stage).value, n)
  {
    var at := FindStage(t, stage);
    if at.Some? { FirstListingsAre(t.stages[at.value].create2, Earlier(t, at.value), t.create2, n); }
  }

  lemma {:induction false} EarlierMeans(t: StageTable, at: nat, n: string)
    requires at <= |t.stages|
    ensures n in Earlier(t, at) <==> exists i :: 0 <= i < at && n in t.stages[i].create2
  {
    if at > 0 { EarlierMeans(t, at - 1, n); }
  }

  lemma {:induction false} FirstListingIs(names: seq<string>, earlier: set<string>, libs: seq<Library>, l: Library)
    ensures l in FirstListings(names, earlier, libs) <==>
            l.name in names && l.name !in earlier && l == EntryOf(libs, l.name)
  {
    if names != [] {
      FirstListingIs(names[1..], earlier, libs, l);
      var head := if names[0] in earlier then [] else [EntryOf(libs, names[0])];
      assert FirstListings(names, earlier, libs) == head + FirstListings(names[1..], earlier, libs);
      assert l in FirstListings(names, earlier, libs) <==> l in head || l in FirstListings(names[1..], earlier, libs);
    }
  }

  /** Of several table entries with one name the first counts. */
  lemma {:induction false} EntryIsFirst(libs: seq<Library>, i: nat)
    requires i < |libs| && forall j | 0 <= j < i :: libs[j].name != libs[i].name
    ensures EntryOf(libs, libs[i].name) == libs[i]
  {
    if i > 0 {
      assert libs[0].name != libs[i].name;
      EntryIsFirst(libs[1..], i - 1);
    }
  }

  /**
   What a stage can adopt: libs the libraries of the table, any other stage a CREATE2 entry of the table, with the
   entry's own artifact, that it lists and no stage before it does.
   */
  lemma AdoptableExactly(t: StageTable, at: nat, k: nat)
    requires TableOk(t) && at < |t.stages| && k < |t.create2|
    requires forall j | 0 <= j < k :: t.create2[j].name != t.create2[k].name
    requires t.stages[at].name != "libs"
    ensures t.create2[k] in AdoptableOf(t, t.stages[at].name) <==>
            && t.create2[k].name in t.stages[at].create2
            && forall e | 0 <= e < at :: t.create2[k].name !in t.stages[e].create2
    ensures AdoptableOf(t, "libs") == t.libraries
    ensures forall l | l in AdoptableOf(t, t.stages[at].name) && l.name == t.create2[k].name :: l == t.create2[k]
  {
    StageIsFound(t, at);
    EntryIsFirst(t.create2, k);
    EarlierMeans(t, at, t.create2[k].name);
    var names, earlier := t.stages[at].create2, Earlier(t, at);
    FirstListingIs(names, earlier, t.create2, t.create2[k]);
    forall l | l in FirstListings(names, earlier, t.create2) && l.name == t.create2[k].name ensures l == t.create2[k] {
      FirstListingIs(names, earlier, t.create2, l);
    }
  }

  lemma FirstIsUnique(t: StageTable, i: nat, j: nat, n: string)
    requires i < |t.stages| && j < |t.stages| && FirstAt(t, i, n) && FirstAt(t, j, n)
    ensures i == j
  {
    EarlierMeans(t, i, n);
    EarlierMeans(t, j, n);
  }

  lemma {:induction false} FirstExists(t: StageTable, at: nat, n: string) returns (i: nat)
    requires at <= |t.stages| && n in Earlier(t, at)
    ensures i < at && FirstAt(t, i, n)
  {
    if n in Earlier(t, at - 1) { i := FirstExists(t, at - 1, n); } else { i := at - 1; }
  }

  lemma StageIsFound(t: StageTable, i: nat)
    requires Distinct(Names(t.stages)) && i < |t.stages|
    ensures FindStage(t, t.stages[i].name) == Some(i)
  {
    var r := FindStage(t, t.stages[i].name);
    assert Names(t.stages)[i] == t.stages[i].name;
    assert r.Some? ==> Names(t.stages)[r.value] == t.stages[i].name;
  }

  /** The libs stage lists a library of this name. The table parser does not forbid a CREATE2 library there. */
  ghost predicate InLibs(t: StageTable, n: string) { exists l | l in t.libraries :: l.name == n }

  /** No library of the libs stage has the name of a CREATE2 library some stage lists. */
  ghost predicate NamesApart(t: StageTable) { forall l | l in t.libraries :: l.name !in Earlier(t, |t.stages|) }

  /**
   Each listed CREATE2 library is adoptable by the first stage that lists it and by no other stage but libs. It is
   adoptable by exactly one stage if and only if the libs stage lists no library of its name.
   */
  lemma OneAdopter(t: StageTable, n: string) returns (i: nat)
    requires TableOk(t) && n in Earlier(t, |t.stages|)
    ensures i < |t.stages| && FirstAt(t, i, n) && t.stages[i].name != LIBS_STAGE && Adopts(t, t.stages[i].name, n)
    ensures forall stage | Adopts(t, stage, n) :: stage == t.stages[i].name || stage == LIBS_STAGE
    ensures (forall stage :: Adopts(t, stage, n) <==> stage == t.stages[i].name) <==> !InLibs(t, n)
  {
    i := FirstExists(t, |t.stages|, n);
    StageIsFound(t, i);
    forall stage | stage != LIBS_STAGE ensures Adopts(t, stage, n) <==> stage == t.stages[i].name {
      AdoptsAt(t, stage, n);
      if Adopts(t, stage, n) { FirstIsUnique(t, i, FindStage(t, stage).value, n); }
    }
    assert Adopts(t, LIBS_STAGE, n) <==> InLibs(t, n);
  }

  lemma {:induction false} EntryListed(adopted: seq<Adoption>, i: nat)
    requires i < |adopted|
    ensures Library(adopted[i].library, adopted[i].artifact) in EntriesOf(adopted, adopted[i].stage)
    decreases |adopted|
  {
    var n := |adopted| - 1;
    if i < n { EntryListed(adopted[..n], i); }
  }

  lemma EntryIsAdoptable(adopted: seq<Adoption>, t: StageTable, i: nat)
    requires FullyAdopted(adopted, t) && i < |adopted|
    ensures Adopts(t, adopted[i].stage, adopted[i].library)
  {
    EntryListed(adopted, i);
    var l := Library(adopted[i].library, adopted[i].artifact);
    assert adopted[i].stage in StagesOf(adopted);
    assert l in multiset(EntriesOf(adopted, adopted[i].stage));
    assert l in AdoptableOf(t, adopted[i].stage);
  }

  /**
   Two entries of an accepted file name two libraries, unless one of them stands in the libs stage, the other in a
   stage that lists a CREATE2 library of the same name. Where the table keeps those names apart, every two differ.
   */
  lemma NoLibraryTwice(file: FrozenFile, t: StageTable, system: System, i: nat, j: nat)
    requires TableOk(t) && ReconstructionOk(file, t, system) && i < j < |file.measured.reconstructed.value.adopted|
    ensures var adopted := file.measured.reconstructed.value.adopted;
            adopted[i].library == adopted[j].library ==>
              && (adopted[i].stage == LIBS_STAGE) != (adopted[j].stage == LIBS_STAGE)
              && InLibs(t, adopted[i].library) && adopted[i].library in Earlier(t, |t.stages|)
    ensures var adopted := file.measured.reconstructed.value.adopted; NamesApart(t) ==>
      adopted[i].library != adopted[j].library
  {
    var adopted := file.measured.reconstructed.value.adopted;
    assert !SameEntry(adopted[i], adopted[j]);
    if adopted[i].library == adopted[j].library {
      EntryStands(file, t, system, i);
      EntryStands(file, t, system, j);
      if adopted[i].stage != LIBS_STAGE && adopted[j].stage != LIBS_STAGE {
        FirstIsUnique(t, FindStage(t, adopted[i].stage).value, FindStage(t, adopted[j].stage).value,
          adopted[i].library);
      }
    }
  }

  /** An entry of the libs stage is one of its libraries; any other stands where its library is listed first. */
  lemma EntryStands(file: FrozenFile, t: StageTable, system: System, i: nat)
    requires ReconstructionOk(file, t, system) && i < |file.measured.reconstructed.value.adopted|
    ensures var a := file.measured.reconstructed.value.adopted[i];
            if a.stage == LIBS_STAGE then InLibs(t, a.library) else
              && FindStage(t, a.stage).Some? && FirstAt(t, FindStage(t, a.stage).value, a.library)
              && a.library in Earlier(t, |t.stages|)
  {
    var adopted := file.measured.reconstructed.value.adopted;
    EntryIsAdoptable(adopted, t, i);
    if adopted[i].stage != LIBS_STAGE {
      AdoptsAt(t, adopted[i].stage, adopted[i].library);
      EarlierMeans(t, |t.stages|, adopted[i].library);
    }
  }

  ghost predicate HasEntry(adopted: seq<Adoption>, stage: string, n: string) {
    exists i | 0 <= i < |adopted| :: adopted[i].stage == stage && adopted[i].library == n
  }

  lemma {:induction false} ListedIsEntry(adopted: seq<Adoption>, stage: string, l: Library)
    requires l in EntriesOf(adopted, stage)
    ensures HasEntry(adopted, stage, l.name)
    decreases |adopted|
  {
    var n := |adopted| - 1;
    if l in EntriesOf(adopted[..n], stage) {
      ListedIsEntry(adopted[..n], stage, l);
      var i :| 0 <= i < n && adopted[..n][i].stage == stage && adopted[..n][i].library == l.name;
      assert adopted[i] == adopted[..n][i];
    } else {
      assert adopted[n].stage == stage && adopted[n].library == l.name;
    }
  }

  /** A stage that adopts at all adopts each library it can. */
  lemma AdoptsAll(adopted: seq<Adoption>, t: StageTable, stage: string, n: string)
    requires FullyAdopted(adopted, t) && stage in StagesOf(adopted) && Adopts(t, stage, n)
    ensures HasEntry(adopted, stage, n)
  {
    var l :| l in AdoptableOf(t, stage) && l.name == n;
    assert l in multiset(AdoptableOf(t, stage));
    assert l in multiset(EntriesOf(adopted, stage));
    ListedIsEntry(adopted, stage, l);
  }

  /** The file adopts in the libs stage and in the first stage that lists a CREATE2 library of a libs library's name. */
  ghost predicate AdoptsBothWays(t: StageTable, adopted: seq<Adoption>, n: string) {
    && InLibs(t, n) && LIBS_STAGE in StagesOf(adopted)
    && exists i | 0 <= i < |t.stages| :: FirstAt(t, i, n) && t.stages[i].name in StagesOf(adopted)
  }

  ghost predicate CountedTwice(adopted: seq<Adoption>) {
    exists i, j | 0 <= i < j < |adopted| :: adopted[i].library == adopted[j].library
  }

  /**
   The exact condition: an accepted file counts a library in two stages if and only if it adopts some library both ways.
   */
  lemma CountedTwiceExactlyWhen(file: FrozenFile, t: StageTable, system: System)
    requires TableOk(t) && ReconstructionOk(file, t, system)
    ensures var adopted := file.measured.reconstructed.value.adopted;
            CountedTwice(adopted) <==> exists n :: AdoptsBothWays(t, adopted, n)
  {
    var adopted := file.measured.reconstructed.value.adopted;
    if CountedTwice(adopted) {
      var i, j :| 0 <= i < j < |adopted| && adopted[i].library == adopted[j].library;
      NoLibraryTwice(file, t, system, i, j);
      var k := if adopted[i].stage == LIBS_STAGE then j else i;
      EntryStands(file, t, system, k);
      assert adopted[i].stage in StagesOf(adopted) && adopted[j].stage in StagesOf(adopted);
      assert t.stages[FindStage(t, adopted[k].stage).value].name == adopted[k].stage;
      assert AdoptsBothWays(t, adopted, adopted[i].library);
    }
    if n :| AdoptsBothWays(t, adopted, n) {
      BothWaysCountsTwice(t, adopted, n);
    }
  }

  lemma BothWaysCountsTwice(t: StageTable, adopted: seq<Adoption>, n: string)
    requires TableOk(t) && FullyAdopted(adopted, t) && AdoptsBothWays(t, adopted, n)
    ensures CountedTwice(adopted)
  {
    var i :| 0 <= i < |t.stages| && FirstAt(t, i, n) && t.stages[i].name in StagesOf(adopted);
    EarlierMeans(t, |t.stages|, n);
    var first := OneAdopter(t, n);
    FirstIsUnique(t, i, first, n);
    assert Adopts(t, LIBS_STAGE, n);
    AdoptsAll(adopted, t, LIBS_STAGE, n);
    AdoptsAll(adopted, t, t.stages[i].name, n);
    var x :| 0 <= x < |adopted| && adopted[x].stage == LIBS_STAGE && adopted[x].library == n;
    var y :| 0 <= y < |adopted| && adopted[y].stage == t.stages[i].name && adopted[y].library == n;
    assert x != y;
    assert adopted[if x < y then x else y].library == adopted[if x < y then y else x].library;
  }

  // ---- such a table --------------------------------------------------------------------------------

  /** The libs stage and the vault stage both name the library X. */
  const DOUBLED_TABLE := StageTable(
    [Stage("libs", [], None), Stage("vault", ["X"], None)], [Library("X", "X")], [Library("X", "X")], false)

  /** A file that adopts X in both, at two addresses. */
  function DoubledFile(sha: string, at: string, a: string, b: string, h: string): FrozenFile {
    var adopted := [Adoption("libs", "X", "X", a, h), Adoption("vault", "X", "X", b, h)];
    var measured: CountMap := map["safe" := 0, "libs" := 0, "vault" := 0];
    FrozenFile(sha, Measured(TWIN_CHAIN_ID, at, [],
      Some(Reconstruction(sha, TWIN_CHAIN_ID, None, adopted, measured, None)), None),
               map["safe" := 0, "libs" := 1, "vault" := 1])
  }

  lemma DoubledAdoptable()
    ensures AdoptableOf(DOUBLED_TABLE, "libs") == [Library("X", "X")]
    ensures AdoptableOf(DOUBLED_TABLE, "vault") == [Library("X", "X")]
  {
    var t := DOUBLED_TABLE;
    assert t.stages[1].name == "vault" && t.stages[0].name == "libs";
    assert FindFrom(t, "vault", 0) == FindFrom(t, "vault", 1) == Some(1);
    assert Earlier(t, 0) == {} && Earlier(t, 1) == {};
    var names := t.stages[1].create2;
    assert names == ["X"] && names[1..] == [];
    assert FirstListings([], {}, t.create2) == [];
    assert FirstListings(names, {}, t.create2) == [EntryOf(t.create2, "X")];
  }

  lemma DoubledEntries(sha: string, at: string, a: string, b: string, h: string)
    ensures var adopted := DoubledFile(sha, at, a, b, h).measured.reconstructed.value.adopted;
            && EntriesOf(adopted, "libs") == [Library("X", "X")] && EntriesOf(adopted, "vault") == [Library("X", "X")]
            && EntriesOf(adopted, "safe") == [] && StagesOf(adopted) == {"libs", "vault"}
  {
    var adopted := DoubledFile(sha, at, a, b, h).measured.reconstructed.value.adopted;
    assert adopted[..1][..0] == [] && adopted[..1] == [adopted[0]];
    assert adopted[0].stage == "libs" && adopted[1].stage == "vault" && |adopted| == 2;
    forall k | k == "libs" || k == "vault" || k == "safe"
      ensures EntriesOf(adopted, k) == (if k == "libs" then [Library("X", "X")] else []) +
        (if k == "vault" then [Library("X", "X")] else [])
    {
      assert EntriesOf([], k) == [];
      assert EntriesOf(adopted[..1], k) == if k == "libs" then [Library("X", "X")] else [];
    }
  }

  lemma DoubledTable()
    ensures TableOk(DOUBLED_TABLE) && !NamesApart(DOUBLED_TABLE)
    ensures StageKeys(DOUBLED_TABLE, Vaults) == ["safe", "libs", "vault"] && OtherKeys(DOUBLED_TABLE, Vaults) == {}
  {
    var t := DOUBLED_TABLE;
    EarlierMeans(t, 2, "X");
    assert "X" in t.stages[1].create2 && Library("X", "X") in t.libraries;
    assert Names(t.stages) == ["libs", "vault"];
  }

  lemma DoubledSums(file: FrozenFile, sha: string, at: string, a: string, b: string, h: string, keys: seq<string>)
    requires file == DoubledFile(sha, at, a, b, h) && keys == ["safe", "libs", "vault"]
    ensures var r := file.measured.reconstructed.value; SameKeys(file, r, keys, {}) && CountsAddUp(file, r, keys)
  {
    DoubledEntries(sha, at, a, b, h);
    assert SetOf(keys) == {"safe", "libs", "vault"};
    assert keys[0] == "safe" && keys[1] == "libs" && keys[2] == "vault";
  }

  lemma DoubledEntriesOk(adopted: seq<Adoption>, sha: string, at: string, a: string, b: string, h: string,
                         keys: seq<string>)
    requires adopted == DoubledFile(sha, at, a, b, h).measured.reconstructed.value.adopted
    requires keys == ["safe", "libs", "vault"]
    requires PrefixedHex(a, 40) && PrefixedHex(b, 40) && PrefixedHex(h, 64) && Lower(a) != Lower(b)
    ensures EntriesOk(adopted, keys) && CountedTwice(adopted)
  {
    assert keys[1] == "libs" && keys[2] == "vault";
    assert |adopted| == 2 && adopted[0].library == adopted[1].library;
    assert !SameEntry(adopted[0], adopted[1]);
  }

  /**
   The failing input: a table with distinct stages and no repeated listing, and an accepted file that counts X twice.
   */
  lemma SharedNameIsCountedTwice(sha: string, at: string, a: string, b: string, h: string)
    requires PrefixedHex(a, 40) && PrefixedHex(b, 40) && PrefixedHex(h, 64) && Lower(a) != Lower(b)
    ensures TableOk(DOUBLED_TABLE) && !NamesApart(DOUBLED_TABLE)
    ensures var file := DoubledFile(sha, at, a, b, h);
            ReconstructionOk(file, DOUBLED_TABLE, Vaults) && CountedTwice(file.measured.reconstructed.value.adopted)
  {
    var file := DoubledFile(sha, at, a, b, h);
    var adopted := file.measured.reconstructed.value.adopted;
    var keys := StageKeys(DOUBLED_TABLE, Vaults);
    DoubledTable();
    DoubledSums(file, sha, at, a, b, h, keys);
    DoubledEntriesOk(adopted, sha, at, a, b, h, keys);
    DoubledFully(adopted, sha, at, a, b, h);
  }

  lemma DoubledFully(adopted: seq<Adoption>, sha: string, at: string, a: string, b: string, h: string)
    requires adopted == DoubledFile(sha, at, a, b, h).measured.reconstructed.value.adopted
    ensures FullyAdopted(adopted, DOUBLED_TABLE)
  {
    DoubledAdoptable();
    DoubledEntries(sha, at, a, b, h);
  }

  function OutsideLibs(adopted: seq<Adoption>): (r: seq<string>)
    ensures forall n | n in r :: exists i ::
      0 <= i < |adopted| && adopted[i].stage != LIBS_STAGE && adopted[i].library == n
  {
    if adopted == [] then [] else
      var n := |adopted| - 1;
      OutsideLibs(adopted[..n]) + (if adopted[n].stage != LIBS_STAGE then [adopted[n].library] else [])
  }

  lemma {:induction false} SplitByLibs(adopted: seq<Adoption>)
    ensures |adopted| == |EntriesOf(adopted, LIBS_STAGE)| + |OutsideLibs(adopted)|
    decreases |adopted|
  {
    if adopted != [] { SplitByLibs(adopted[..|adopted| - 1]); }
  }

  lemma {:induction false} OutsideDistinct(adopted: seq<Adoption>)
    requires forall i, j | 0 <= i < j < |adopted| && adopted[i].stage != LIBS_STAGE && adopted[j].stage != LIBS_STAGE ::
      adopted[i].library != adopted[j].library
    ensures Distinct(OutsideLibs(adopted))
    decreases |adopted|
  {
    if adopted != [] {
      var n := |adopted| - 1;
      OutsideDistinct(adopted[..n]);
      if adopted[n].stage != LIBS_STAGE {
        assert adopted[n].library !in OutsideLibs(adopted[..n]);
      }
    }
  }

  /** The adopted creations never exceed the libraries of the table. */
  lemma AdoptionIsBounded(file: FrozenFile, t: StageTable, system: System)
    requires TableOk(t) && ReconstructionOk(file, t, system)
    ensures |file.measured.reconstructed.value.adopted| <= |t.libraries| + |Earlier(t, |t.stages|)|
  {
    var adopted := file.measured.reconstructed.value.adopted;
    SplitByLibs(adopted);
    GatheredIs(adopted);
    if LIBS_STAGE in StagesOf(adopted) {
      assert |multiset(EntriesOf(adopted, LIBS_STAGE))| == |multiset(t.libraries)|;
    }
    forall i, j | 0 <= i < j < |adopted| && adopted[i].stage != LIBS_STAGE && adopted[j].stage != LIBS_STAGE
      ensures adopted[i].library != adopted[j].library
    {
      NoLibraryTwice(file, t, system, i, j);
    }
    OutsideDistinct(adopted);
    var names := OutsideLibs(adopted);
    SetOfSize(names);
    forall n | n in SetOf(names) ensures n in Earlier(t, |t.stages|) {
      var i :| 0 <= i < |adopted| && adopted[i].stage != LIBS_STAGE && adopted[i].library == n;
      EntryIsAdoptable(adopted, t, i);
      AdoptsAt(t, adopted[i].stage, n);
      EarlierMeans(t, |t.stages|, n);
    }
    SubsetSize(SetOf(names), Earlier(t, |t.stages|));
  }

  function EntriesOver(adopted: seq<Adoption>, keys: seq<string>): nat {
    if keys == [] then 0 else EntriesOver(adopted, keys[..|keys| - 1]) + |EntriesOf(adopted, keys[|keys| - 1])|
  }

  lemma {:induction false} OneMoreEntry(adopted: seq<Adoption>, keys: seq<string>)
    requires adopted != [] && Distinct(keys)
    ensures var n := |adopted| - 1;
            EntriesOver(adopted, keys) == EntriesOver(adopted[..n], keys) + (if adopted[n].stage in keys then 1 else 0)
    decreases |keys|
  {
    if keys != [] {
      var m := |keys| - 1;
      OneMoreEntry(adopted, keys[..m]);
      assert keys == keys[..m] + [keys[m]];
      assert keys[m] !in keys[..m];
    }
  }

  lemma {:induction false} AllEntriesCounted(adopted: seq<Adoption>, keys: seq<string>)
    requires Distinct(keys) && forall i | 0 <= i < |adopted| :: adopted[i].stage in keys
    ensures EntriesOver(adopted, keys) == |adopted|
    decreases |adopted|
  {
    if adopted == [] {
      NothingOver(keys);
    } else {
      AllEntriesCounted(adopted[..|adopted| - 1], keys);
      OneMoreEntry(adopted, keys);
    }
  }

  lemma {:induction false} NothingOver(keys: seq<string>)
    ensures EntriesOver([], keys) == 0
  {
    if keys != [] { NothingOver(keys[..|keys| - 1]); }
  }

  lemma {:induction false} SumsDiffer(file: FrozenFile, r: Reconstruction, keys: seq<string>)
    requires forall k | k in keys :: StageAddsUp(file, r, k)
    ensures SumOver(file.counts, keys) == SumOver(r.measured, keys) + EntriesOver(r.adopted, keys)
  {
    if keys != [] {
      SumsDiffer(file, r, keys[..|keys| - 1]);
      assert StageAddsUp(file, r, keys[|keys| - 1]);
    }
  }

  /**
   An accepted file counts, over the stages of its system, exactly its measured transactions plus its adopted creations.
   */
  lemma TotalIsMeasuredPlusAdopted(file: FrozenFile, t: StageTable, system: System)
    requires ReconstructionOk(file, t, system)
    ensures var r := file.measured.reconstructed.value;
            var keys := StageKeys(t, system);
            SumOver(file.counts, keys) - SumOver(r.measured, keys) == |r.adopted|
  {
    var r := file.measured.reconstructed.value;
    var keys := StageKeys(t, system);
    SumsDiffer(file, r, keys);
    forall i | 0 <= i < |r.adopted| ensures r.adopted[i].stage in keys { assert EntryOk(r.adopted[i], keys); }
    AllEntriesCounted(r.adopted, keys);
  }
}
