/**
 Loading a frozen file: a reconstructed baseline loads only if the earlier file it was compared with loads
 by the same rules, down to a plain measured file.
 */
module AnchorChain {
  import opened Basics
  import opened TextOrder
  import opened Counts
  import opened Reconstruct
  import opened Rebuild

  const MAX_ANCHOR_DEPTH := 8

  /** One `<sha>.json` of the counts directory: what it parses to, if it does, and its bytes. */
  datatype Doc = Doc(json: Option<FrozenFile>, bytes: string)

  type Dir = map<string, Doc>

  /** The stage table the process loaded, the table git has at a sha, and the sha256 of a file's bytes. */
  datatype Env = Env(system: System, loaded: Option<StageTable>, tableAt: string -> Option<StageTable>,
    hash: string -> string)

  datatype LoadError =
    | Loop | TooDeep | Missing | BadFile | BadOther | NoCrossCheck | AnchorMissing | AnchorChanged | AnchorDiffers

  /** An earlier release's file is verified against the table of its own sha when git has it. */
  function TableFor(env: Env, sha: string, historical: bool): Option<StageTable> {
    if historical && env.tableAt(sha).Some? then env.tableAt(sha) else env.loaded
  }

  /**
   One file on its own: it parses, carries its sha, is not adopted (unless allowed), and a reconstruction verifies.
   */
  ghost predicate FileLoads(env: Env, doc: Doc, sha: string, allowAdopted: bool, historical: bool) {
    && doc.json.Some?
    && var f := doc.json.value;
    && f.deploySha == sha && (allowAdopted || f.measured.adopted == []) && ValidCounts(f.counts)
    && (f.measured.reconstructed.Some? ==>
          TableFor(env, sha, historical).Some? && ReconstructionOk(f, TableFor(env, sha, historical).value, env.system))
  }

  /** The stages no comparison looks at: the other system's, by the loaded table. */
  function Ignored(env: Env): set<string> {
    if env.loaded.Some? then OtherKeys(env.loaded.value, env.system) else {}
  }

  /**
   A directory as the chain rules see it: which file loads on its own (asked with "adopted allowed" and
   "historical"), the hash of a file, and the stages left out of comparisons.
   */
  datatype View = View(dir: Dir, loads: (string, bool, bool) -> bool, hash: string -> string, ignored: set<string>)

  ghost function ViewOf(env: Env, dir: Dir): View {
    View(dir, (s: string, allow: bool, hist: bool) => s in dir &&
      FileLoads(env, dir[s], s, allow, hist), env.hash, Ignored(env))
  }

  ghost predicate OthersLoad(v: View, sha: string) { forall s | s in v.dir && s != sha :: v.loads(s, false, true) }

  predicate Alone(dir: Dir, sha: string) { dir.Keys <= {sha} }

  function AcceptedOf(f: FrozenFile): seq<Diff> {
    if f.measured.reconstructed.Some? && f.measured.reconstructed.value.crossCheck.Some?
    then f.measured.reconstructed.value.crossCheck.value.accepted else []
  }

  ghost function LoadChain(v: View, sha: string, allowAdopted: bool, seen: seq<string>)
    : (r: Result<FrozenFile, LoadError>)
    ensures r.Ok? ==> sha in v.dir && v.dir[sha].json == Some(r.value)
    decreases MAX_ANCHOR_DEPTH - |seen|
  {
    if sha in seen then Err(Loop) else
    if |seen| >= MAX_ANCHOR_DEPTH then Err(TooDeep) else
    if sha !in v.dir then Err(Missing) else
    if !v.loads(sha, allowAdopted, seen != []) || v.dir[sha].json.None? then Err(BadFile) else
      var f := v.dir[sha].json.value;
      if f.measured.reconstructed.None? then Ok(f) else
      if !OthersLoad(v, sha) then Err(BadOther) else
        match f.measured.crossChecked
        case None => if Alone(v.dir, sha) then Ok(f) else Err(NoCrossCheck)
        case Some(cc) =>
          if cc.sha !in v.dir then Err(AnchorMissing) else
            match LoadChain(v, cc.sha, false, seen + [sha])
            case Err(e) => Err(e)
            case Ok(anchor) =>
              if v.hash(v.dir[cc.sha].bytes) != cc.fileHash then Err(AnchorChanged) else
              if CrossCheckDiff(f.counts, anchor.counts, v.ignored) != AcceptedOf(f) then Err(AnchorDiffers) else
                Ok(f)
  }

  ghost function LoadFrozen(env: Env, dir: Dir, sha: string, allowAdopted: bool): Result<FrozenFile, LoadError> {
    LoadChain(ViewOf(env, dir), sha, allowAdopted, [])
  }

  // ---- the loading code ----------------------------------------------------------------------------

  method LoadFrozenFile(env: Env, doc: Doc, sha: string, allowAdopted: bool, historical: bool)
    returns (r: Option<FrozenFile>)
    ensures r.Some? <==> FileLoads(env, doc, sha, allowAdopted, historical)
    ensures r.Some? ==> doc.json == r
  {
    if doc.json.None? { return None; }
    var f := doc.json.value;
    if f.deploySha != sha || (!allowAdopted && f.measured.adopted != []) || !ValidCounts(f.counts) { return None; }
    if f.measured.reconstructed.Some? {
      var table := TableFor(env, sha, historical);
      if table.None? { return None; }
      var ok := VerifyReconstruction(f, table.value, env.system);
      if !ok { return None; }
    }
    r := Some(f);
  }

  method OtherFrozenFiles(env: Env, dir: Dir, sha: string) returns (ok: bool)
    ensures ok <==> OthersLoad(ViewOf(env, dir), sha)
  {
    var left := dir.Keys - {sha};
    while left != {}
      invariant left <= dir.Keys - {sha}
      invariant forall s | s in dir && s != sha && s !in left :: FileLoads(env, dir[s], s, false, true)
      decreases |left|
    {
      var s :| s in left;
      var f := LoadFrozenFile(env, dir[s], s, false, true);
      if f.None? {
        assert !ViewOf(env, dir).loads(s, false, true);
        return false;
      }
      left := left - {s};
    }
    ok := true;
  }

  method LoadFrozenChain(env: Env, dir: Dir, sha: string, allowAdopted: bool, seen: seq<string>)
    returns (r: Result<FrozenFile, LoadError>)
    ensures r == LoadChain(ViewOf(env, dir), sha, allowAdopted, seen)
    decreases MAX_ANCHOR_DEPTH - |seen|
  {
    if sha in seen { return Err(Loop); }
    if |seen| >= MAX_ANCHOR_DEPTH { return Err(TooDeep); }
    if sha !in dir { return Err(Missing); }
    var file := LoadFrozenFile(env, dir[sha], sha, allowAdopted, seen != []);
    if file.None? { return Err(BadFile); }
    var f := file.value;
    if f.measured.reconstructed.None? { return Ok(f); }
    var others := OtherFrozenFiles(env, dir, sha);
    if !others { return Err(BadOther); }
    if f.measured.crossChecked.None? {
      return if Alone(dir, sha) then Ok(f) else Err(NoCrossCheck);
    }
    var cc := f.measured.crossChecked.value;
    if cc.sha !in dir { return Err(AnchorMissing); }
    var anchor := LoadFrozenChain(env, dir, cc.sha, false, seen + [sha]);
    if anchor.Err? { return anchor; }
    if env.hash(dir[cc.sha].bytes) != cc.fileHash { return Err(AnchorChanged); }
    if CrossCheckDiff(f.counts, anchor.value.counts, Ignored(env)) != AcceptedOf(f) { return Err(AnchorDiffers); }
    r := Ok(f);
  }

  // ---- what a load that succeeds walked -------------------------------------------------------------

  predicate HasAnchor(doc: Doc) {
    doc.json.Some? && doc.json.value.measured.reconstructed.Some? && doc.json.value.measured.crossChecked.Some?
  }

  predicate Plain(doc: Doc) { doc.json.Some? && doc.json.value.measured.reconstructed.None? }

  function AnchorOf(doc: Doc): Anchor
    requires HasAnchor(doc)
  {
    doc.json.value.measured.crossChecked.value
  }

  /** The shas a load visits: from a reconstructed file to its anchor, at most `n` of them. */
  function Walk(dir: Dir, sha: string, n: nat): (w: seq<string>)
    ensures |w| <= n && (w != [] ==> w[0] == sha)
    decreases n
  {
    if n == 0 || sha !in dir then [] else
      [sha] + (if HasAnchor(dir[sha]) then Walk(dir, AnchorOf(dir[sha]).sha, n - 1) else [])
  }

  /**
   One hop: the anchor is the file named, with the bytes that were compared, and the counts differ exactly as accepted.
   */
  ghost predicate Hop(v: View, a: string, b: string) {
    && a in v.dir && b in v.dir && HasAnchor(v.dir[a]) && v.dir[b].json.Some?
    && AnchorOf(v.dir[a]) == Anchor(b, v.hash(v.dir[b].bytes))
    && CrossCheckDiff(v.dir[a].json.value.counts, v.dir[b].json.value.counts, v.ignored)
       == AcceptedOf(v.dir[a].json.value)
  }

  ghost predicate Chain(v: View, w: seq<string>) {
    |w| > 0 && w[0] in v.dir && v.dir[w[0]].json.Some? && (|w| > 1 ==> Hop(v, w[0], w[1]) && Chain(v, w[1..]))
  }

  ghost predicate Avoids(w: seq<string>, seen: seq<string>) { forall i | 0 <= i < |w| :: w[i] !in seen }

  /** What one level of a successful load established. */
  lemma LoadStep(v: View, sha: string, allowAdopted: bool, seen: seq<string>)
    requires LoadChain(v, sha, allowAdopted, seen).Ok?
    ensures sha !in seen && |seen| < MAX_ANCHOR_DEPTH && sha in v.dir && v.dir[sha].json.Some?
    ensures v.loads(sha, allowAdopted, seen != [])
    ensures HasAnchor(v.dir[sha]) ==>
      var b := AnchorOf(v.dir[sha]).sha;
        LoadChain(v, b, false, seen + [sha]).Ok? && Hop(v, sha, b) && OthersLoad(v, sha)
    ensures !HasAnchor(v.dir[sha]) ==> Plain(v.dir[sha]) || Alone(v.dir, sha)
  {
  }

  /** Conversely, what one level needs. */
  lemma LoadStepBack(v: View, sha: string, allowAdopted: bool, seen: seq<string>)
    requires sha !in seen && |seen| < MAX_ANCHOR_DEPTH && sha in v.dir && v.dir[sha].json.Some?
    requires v.loads(sha, allowAdopted, seen != [])
    requires HasAnchor(v.dir[sha]) ==>
      var b := AnchorOf(v.dir[sha]).sha;
        LoadChain(v, b, false, seen + [sha]).Ok? && Hop(v, sha, b) && OthersLoad(v, sha)
    requires !HasAnchor(v.dir[sha]) ==> Plain(v.dir[sha]) || (Alone(v.dir, sha) && OthersLoad(v, sha))
    ensures LoadChain(v, sha, allowAdopted, seen).Ok?
  {
  }

  lemma ConsFresh(sha: string, t: seq<string>, seen: seq<string>)
    requires Distinct(t) && Avoids(t, seen + [sha]) && sha !in seen
    ensures Distinct([sha] + t) && Avoids([sha] + t, seen)
  {
    var w := [sha] + t;
    forall i | 0 <= i < |t| ensures t[i] !in seen && t[i] != sha { assert t[i] !in seen + [sha]; }
    forall i, j | 0 <= i < j < |w| ensures w[i] != w[j] {
      assert w[j] == t[j - 1];
      if i > 0 { assert w[i] == t[i - 1]; }
    }
  }

  /** Where a walk may end: a plain file, or a reconstruction with nothing beside it. */
  predicate EndsWell(dir: Dir, s: string) { s in dir && !HasAnchor(dir[s]) && (Plain(dir[s]) || Alone(dir, s)) }

  lemma {:induction false} LoadWalks(v: View, sha: string, allowAdopted: bool, seen: seq<string>, n: nat)
    requires LoadChain(v, sha, allowAdopted, seen).Ok? && n + |seen| == MAX_ANCHOR_DEPTH
    ensures var w := Walk(v.dir, sha, n); Chain(v, w) && Distinct(w) && Avoids(w, seen) && EndsWell(v.dir, w[|w| - 1])
    decreases n
  {
    LoadStep(v, sha, allowAdopted, seen);
    if HasAnchor(v.dir[sha]) {
      var b := AnchorOf(v.dir[sha]).sha;
      LoadWalks(v, b, false, seen + [sha], n - 1);
      WalkGrows(v, sha, n);
      ConsFresh(sha, Walk(v.dir, b, n - 1), seen);
    }
  }

  lemma WalkGrows(v: View, sha: string, n: nat)
    requires n > 1 && sha in v.dir && HasAnchor(v.dir[sha])
    requires var b := AnchorOf(v.dir[sha]).sha; Hop(v, sha, b) && Chain(v, Walk(v.dir, b, n - 1))
    ensures var w, t := Walk(v.dir, sha, n), Walk(v.dir, AnchorOf(v.dir[sha]).sha, n - 1);
            w == [sha] + t && w[1..] == t && w[|w| - 1] == t[|t| - 1] && Chain(v, w)
  {
    var t := Walk(v.dir, AnchorOf(v.dir[sha]).sha, n - 1);
    assert ([sha] + t)[1..] == t;
  }

  /**
   A frozen file that loads: at most eight files are visited, none twice, each hop compares with the bytes and
   the counts recorded, and when there is a hop at all the last file is a plain measurement.
   */
  lemma ChainEndsAtPlain(v: View, sha: string, allowAdopted: bool, n: nat)
    requires LoadChain(v, sha, allowAdopted, []).Ok? && n == 8
    ensures var w := Walk(v.dir, sha, n);
            && Chain(v, w) && w[0] == sha && |w| <= 8 && Distinct(w) && w[|w| - 1] in v.dir
            && !HasAnchor(v.dir[w[|w| - 1]]) && (|w| >= 2 ==> Plain(v.dir[w[|w| - 1]]))
  {
    LoadWalks(v, sha, allowAdopted, [], n);
    var w := Walk(v.dir, sha, n);
    if |w| >= 2 {
      assert w[0] != w[|w| - 1] && {w[0], w[|w| - 1]} <= v.dir.Keys;
    }
  }

  predicate Names(diffs: seq<Diff>, stage: string) { exists d | d in diffs :: d.stage == stage }

  /** No file of the list accepts a difference on the stage. */
  ghost predicate Unnamed(dir: Dir, w: seq<string>, stage: string) {
    forall s | s in w && s in dir && dir[s].json.Some? :: !Names(AcceptedOf(dir[s].json.value), stage)
  }

  /** Induction along the chain: a stage no accepted list names has one count from end to end. */
  lemma {:induction false} CountsAgreeAlongChain(v: View, w: seq<string>, stage: string)
    requires Chain(v, w) && stage !in v.ignored && Unnamed(v.dir, w, stage)
    ensures var last := w[|w| - 1];
            && last in v.dir && v.dir[last].json.Some?
            && Look(v.dir[w[0]].json.value.counts, stage) == Look(v.dir[last].json.value.counts, stage)
    decreases |w|
  {
    if |w| > 1 {
      var a, b := v.dir[w[0]].json.value, v.dir[w[1]].json.value;
      assert w[0] in w;
      DiffMember(a.counts, b.counts, v.ignored, Diff(stage, Look(b.counts, stage), Look(a.counts, stage)));
      CountsAgreeAlongChain(v, w[1..], stage);
    }
  }

  /** Both ends of a loaded chain count a stage alike unless a reviewed difference, or the other system, names it. */
  lemma LoadedCountsAgree(v: View, sha: string, allowAdopted: bool, stage: string, n: nat)
    requires LoadChain(v, sha, allowAdopted, []).Ok? && n == 8
    requires stage !in v.ignored && Unnamed(v.dir, Walk(v.dir, sha, n), stage)
    ensures var w := Walk(v.dir, sha, n);
            && |w| > 0 && w[|w| - 1] in v.dir && v.dir[w[|w| - 1]].json.Some?
            && Look(LoadChain(v, sha, allowAdopted, []).value.counts, stage)
               == Look(v.dir[w[|w| - 1]].json.value.counts, stage)
  {
    ChainEndsAtPlain(v, sha, allowAdopted, n);
    CountsAgreeAlongChain(v, Walk(v.dir, sha, n), stage);
  }

  // ---- which table a file answers to ---------------------------------------------------------------

  /** A file that parses, is for its sha, is not adopted unless allowed, and has valid counts. */
  predicate InOrder(doc: Doc, sha: string, allowAdopted: bool) {
    && doc.json.Some? && doc.json.value.deploySha == sha && ValidCounts(doc.json.value.counts)
    && (allowAdopted || doc.json.value.measured.adopted == [])
  }

  /**
   One file on its own. The file a run asks for answers to the table the process loaded. An earlier release's file
   answers to the table git has at its own sha, and to the loaded one only when git has none.
   */
  lemma FileAnswersTo(env: Env, doc: Doc, sha: string, allowAdopted: bool)
    ensures FileLoads(env, doc, sha, allowAdopted, false) <==>
            && InOrder(doc, sha, allowAdopted)
            && (doc.json.value.measured.reconstructed.Some? ==>
                  env.loaded.Some? && ReconstructionOk(doc.json.value, env.loaded.value, env.system))
    ensures FileLoads(env, doc, sha, allowAdopted, true) <==>
            && InOrder(doc, sha, allowAdopted)
            && (doc.json.value.measured.reconstructed.Some? ==>
                  match env.tableAt(sha)
                  case Some(t) => ReconstructionOk(doc.json.value, t, env.system)
                  case None => env.loaded.Some? && ReconstructionOk(doc.json.value, env.loaded.value, env.system))
  {
  }

  /** A rebuilt earlier file answers to its own table where git has it. */
  ghost predicate AnswersToItsOwn(env: Env, doc: Doc, sha: string) {
    && InOrder(doc, sha, false)
    && (doc.json.value.measured.reconstructed.Some? && env.tableAt(sha).Some? ==>
          ReconstructionOk(doc.json.value, env.tableAt(sha).value, env.system))
    && (doc.json.value.measured.reconstructed.Some? && env.tableAt(sha).None? ==>
          env.loaded.Some? && ReconstructionOk(doc.json.value, env.loaded.value, env.system))
  }

  /**
   Over a whole load of a rebuilt file: it was verified against the loaded table, and every other file of the directory,
   its anchors among them, is unadopted and was verified against the table of its own sha where git has one.
   */
  lemma LoadAnswersToTables(env: Env, dir: Dir, sha: string, allowAdopted: bool)
    requires LoadFrozen(env, dir, sha, allowAdopted).Ok?
    ensures sha in dir && InOrder(dir[sha], sha, allowAdopted)
    ensures dir[sha].json.value.measured.reconstructed.Some? ==>
            && env.loaded.Some? && ReconstructionOk(dir[sha].json.value, env.loaded.value, env.system)
            && forall s | s in dir && s != sha :: AnswersToItsOwn(env, dir[s], s)
  {
    var v := ViewOf(env, dir);
    LoadStep(v, sha, allowAdopted, []);
    FileAnswersTo(env, dir[sha], sha, allowAdopted);
    if dir[sha].json.value.measured.reconstructed.Some? {
      forall s | s in dir && s != sha ensures AnswersToItsOwn(env, dir[s], s) {
        assert v.loads(s, false, true);
        FileAnswersTo(env, dir[s], s, false);
      }
    }
  }

  /** The files of a walk past the first answer to their own tables too, plain ones and the last included. */
  lemma AnchorsAnswerToTheirOwn(env: Env, dir: Dir, sha: string, n: nat, i: nat)
    requires LoadFrozen(env, dir, sha, false).Ok? && n == 8 && 0 < i < |Walk(dir, sha, n)|
    ensures var a := Walk(dir, sha, n)[i]; a != sha && a in dir && AnswersToItsOwn(env, dir[a], a)
  {
    var v, w := ViewOf(env, dir), Walk(dir, sha, n);
    ChainEndsAtPlain(v, sha, false, n);
    WalkInDir(dir, sha, n, i);
    LoadAnswersToTables(env, dir, sha, false);
    assert w[0] != w[i];
    assert HasAnchor(dir[sha]);
  }

  lemma {:induction false} WalkInDir(dir: Dir, sha: string, n: nat, i: nat)
    requires i < |Walk(dir, sha, n)|
    ensures Walk(dir, sha, n)[i] in dir
    decreases n
  {
    if i > 0 { WalkInDir(dir, AnchorOf(dir[sha]).sha, n - 1, i - 1); }
  }

  // ---- listing the anchors -------------------------------------------------------------------------

  /** The anchors of a walk, nearest first. */
  function AnchorsOf(dir: Dir, w: seq<string>): seq<Anchor> {
    if |w| < 2 || w[0] !in dir || !HasAnchor(dir[w[0]]) then [] else [AnchorOf(dir[w[0]])] + AnchorsOf(dir, w[1..])
  }

  /**
   What the listing loop does from one file on: follow the cross-check records, plain file or not, until one has none.
   */
  ghost function ListFrom(v: View, sha: string, top: string, n: nat): Option<seq<Anchor>>
    decreases n
  {
    if n == 0 || sha !in v.dir || !v.loads(sha, false, sha != top) || v.dir[sha].json.None? then None else
      match v.dir[sha].json.value.measured.crossChecked
      case None => Some([])
      case Some(cc) =>
        match ListFrom(v, cc.sha, top, n - 1)
        case None => None
        case Some(rest) => Some([cc] + rest)
  }

  /** The listing as the loop builds it, `out` being what it has. */
  ghost function Prepend(out: seq<Anchor>, rest: Option<seq<Anchor>>): Option<seq<Anchor>> {
    if rest.None? then None else Some(out + rest.value)
  }

  method AnchorChainOf(env: Env, dir: Dir, sha: string) returns (r: Option<seq<Anchor>>)
    ensures r == ListFrom(ViewOf(env, dir), sha, sha, MAX_ANCHOR_DEPTH + 1)
  {
    ghost var v := ViewOf(env, dir);
    var out, cur := [], sha;
    var left: nat := MAX_ANCHOR_DEPTH + 1;
    ghost var all := ListFrom(v, sha, sha, left);
    assert all.Some? ==> [] + all.value == all.value;
    while left > 0
      invariant all == Prepend(out, ListFrom(v, cur, sha, left))
    {
      if cur !in dir { return None; }
      var file := LoadFrozenFile(env, dir[cur], cur, false, cur != sha);
      assert file.Some? <==> v.loads(cur, false, cur != sha);
      if file.None? { return None; }
      if file.value.measured.crossChecked.None? {
        assert out + [] == out;
        return Some(out);
      }
      var cc := file.value.measured.crossChecked.value;
      left := left - 1;
      ghost var rest := ListFrom(v, cc.sha, sha, left);
      assert rest.Some? ==> out + ([cc] + rest.value) == (out + [cc]) + rest.value;
      out, cur := out + [cc], cc.sha;
    }
    r := None;
  }

  /**
   The listing from `sha` agrees with a walk when the walk's last file has no record, and is longer when it has one.
   */
  ghost predicate Agrees(dir: Dir, listing: Option<seq<Anchor>>, w: seq<string>) {
    && w != [] && w[|w| - 1] in dir && dir[w[|w| - 1]].json.Some?
    && (if dir[w[|w| - 1]].json.value.measured.crossChecked.None? then listing == Some(AnchorsOf(dir, w))
      else listing.None? || |listing.value| >= |w|)
  }

  lemma AgreesGrows(v: View, sha: string, top: string, k: nat, t: seq<string>)
    requires k > 0 && sha in v.dir && v.loads(sha, false, sha != top) && HasAnchor(v.dir[sha])
    requires Agrees(v.dir, ListFrom(v, AnchorOf(v.dir[sha]).sha, top, k - 1), t)
    ensures Agrees(v.dir, ListFrom(v, sha, top, k), [sha] + t)
  {
    assert ([sha] + t)[1..] == t;
    assert ([sha] + t)[|[sha] + t| - 1] == t[|t| - 1];
  }

  lemma AgreesAtEnd(v: View, sha: string, top: string, n: nat)
    requires n > 0 && sha in v.dir && v.dir[sha].json.Some? && v.loads(sha, false, sha != top) && !HasAnchor(v.dir[sha])
    ensures Agrees(v.dir, ListFrom(v, sha, top, n + 1), Walk(v.dir, sha, n))
  {
    assert Walk(v.dir, sha, n) == [sha];
    assert AnchorsOf(v.dir, [sha]) == [];
  }

  lemma NotTheTop(seen: seq<string>, sha: string, top: string, b: string)
    requires (sha == top <==> seen == []) && (seen != [] ==> seen[0] == top) && b !in seen + [sha]
    ensures b != top && (seen + [sha])[0] == top
  {
  }

  /** Every file of the walk loads on its own, as the listing asks it to. */
  ghost predicate WalkLoads(v: View, sha: string, top: string, n: nat)
    decreases n
  {
    && n > 0 && sha in v.dir && v.dir[sha].json.Some? && v.loads(sha, false, sha != top)
    && (HasAnchor(v.dir[sha]) ==> WalkLoads(v, AnchorOf(v.dir[sha]).sha, top, n - 1))
  }

  lemma {:induction false} LoadedWalkLoads(v: View, sha: string, top: string, seen: seq<string>, n: nat)
    requires LoadChain(v, sha, false, seen).Ok? && n + |seen| == MAX_ANCHOR_DEPTH
    requires (sha == top <==> seen == []) && (seen != [] ==> seen[0] == top)
    ensures WalkLoads(v, sha, top, n)
    decreases n
  {
    LoadStep(v, sha, false, seen);
    if HasAnchor(v.dir[sha]) {
      var b := AnchorOf(v.dir[sha]).sha;
      LoadStep(v, b, false, seen + [sha]);
      NotTheTop(seen, sha, top, b);
      LoadedWalkLoads(v, b, top, seen + [sha], n - 1);
    }
  }

  lemma {:induction false} ListFollowsWalk(v: View, sha: string, top: string, n: nat)
    requires WalkLoads(v, sha, top, n)
    ensures Agrees(v.dir, ListFrom(v, sha, top, n + 1), Walk(v.dir, sha, n))
    decreases n
  {
    if HasAnchor(v.dir[sha]) {
      var b := AnchorOf(v.dir[sha]).sha;
      ListFollowsWalk(v, b, top, n - 1);
      AgreesGrows(v, sha, top, n + 1, Walk(v.dir, b, n - 1));
    } else {
      AgreesAtEnd(v, sha, top, n);
    }
  }

  lemma {:induction false} AnchorsOfSize(dir: Dir, w: seq<string>)
    ensures |w| > 0 ==> |AnchorsOf(dir, w)| < |w|
  {
    if |w| >= 2 { AnchorsOfSize(dir, w[1..]); }
  }

  /**
   The listing is exactly the anchors the load walked if and only if the file the walk ends at carries no
   cross-check record. A plain file that carries one is followed by the listing and not by the load.
   */
  lemma ListingIsTheWalk(v: View, sha: string, n: nat)
    requires LoadChain(v, sha, false, []).Ok? && n == 8
    ensures var w := Walk(v.dir, sha, n);
            && w != [] && w[|w| - 1] in v.dir && v.dir[w[|w| - 1]].json.Some?
            && (ListFrom(v, sha, sha, n + 1) == Some(AnchorsOf(v.dir, w)) <==>
                v.dir[w[|w| - 1]].json.value.measured.crossChecked.None?)
  {
    LoadedWalkLoads(v, sha, sha, [], n);
    ListFollowsWalk(v, sha, sha, n);
    AnchorsOfSize(v.dir, Walk(v.dir, sha, n));
  }
}
