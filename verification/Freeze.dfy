/**
 Freezing a rebuilt baseline into the counts directory, and when the file that was written loads from it.
 */
module Freeze {
  import opened Basics
  import opened TextOrder
  import opened Counts
  import opened Reconstruct
  import opened Rebuild
  import opened AnchorChain

  // ---- a directory with one more file ------------------------------------------------------------------

  /** `w` is `v` with the file `sha` added: everything else loads, hashes and compares as before. */
  ghost predicate Extends(v: View, w: View, sha: string, doc: Doc) {
    && sha !in v.dir && w.dir == v.dir[sha := doc] && w.hash == v.hash && w.ignored == v.ignored
    && forall s, allow, hist | s in v.dir :: w.loads(s, allow, hist) == v.loads(s, allow, hist)
  }

  /** One file of a walk: it loads as an earlier release's, and it is the plain end or hops to the next. */
  ghost predicate StopAt(v: View, w: seq<string>, i: nat)
    requires i < |w|
  {
    && w[i] in v.dir && v.dir[w[i]].json.Some? && v.loads(w[i], false, true)
    && (if i == |w| - 1 then Plain(v.dir[w[i]])
      else HasAnchor(v.dir[w[i]]) && AnchorOf(v.dir[w[i]]).sha == w[i + 1] && Hop(v, w[i], w[i + 1]))
  }

  ghost predicate UsableWalk(v: View, w: seq<string>) { w != [] && forall i | 0 <= i < |w| :: StopAt(v, w, i) }

  /**
   An anchor a new file can rest on: its walk has at most `n` files, each loads as an earlier release's, and it ends at
   a plain one.
   */
  ghost predicate Usable(v: View, a: string, n: nat) {
    exists w: seq<string> :: UsableWalk(v, w) && w[0] == a && |w| <= n
  }

  lemma WalkTail(v: View, w: seq<string>)
    requires UsableWalk(v, w) && |w| > 1
    ensures UsableWalk(v, w[1..])
  {
    forall i | 0 <= i < |w| - 1 ensures StopAt(v, w[1..], i) { assert StopAt(v, w, i + 1); }
  }

  lemma WalkCons(v: View, a: string, w: seq<string>)
    requires UsableWalk(v, w) && a in v.dir && v.loads(a, false, true) && HasAnchor(v.dir[a])
    requires AnchorOf(v.dir[a]).sha == w[0] && Hop(v, a, w[0])
    ensures UsableWalk(v, [a] + w)
  {
    var long := [a] + w;
    forall i | 0 <= i < |long| ensures StopAt(v, long, i) {
      if i > 0 {
        assert StopAt(v, w, i - 1);
        assert long[i] == w[i - 1] && (i < |w| ==> long[i + 1] == w[i]);
      }
    }
  }

  /** Where a file's record points. */
  function Target(v: View, a: string): Option<string> {
    if a in v.dir && HasAnchor(v.dir[a]) then Some(AnchorOf(v.dir[a]).sha) else None
  }

  lemma WalkNext(v: View, w: seq<string>, i: nat)
    requires UsableWalk(v, w) && i < |w|
    ensures Target(v, w[i]) == if i == |w| - 1 then None else Some(w[i + 1])
  {
    assert StopAt(v, w, i);
  }

  /** A walk that came back to its start would go round for ever. */
  lemma {:induction false} WalkRepeats(v: View, w: seq<string>, i: nat, k: nat)
    requires UsableWalk(v, w) && i + k < |w| && w[i] == w[0]
    ensures w[i + k] == w[k]
  {
    if k > 0 {
      WalkRepeats(v, w, i, k - 1);
      WalkNext(v, w, k - 1);
      WalkNext(v, w, i + k - 1);
    }
  }

  lemma WalkDoesNotReturn(v: View, w: seq<string>, i: nat)
    requires UsableWalk(v, w) && 0 < i < |w|
    ensures w[i] != w[0]
  {
    var k := |w| - 1 - i;
    WalkNext(v, w, k);
    WalkNext(v, w, |w| - 1);
    if w[i] == w[0] { WalkRepeats(v, w, i, k); }
  }

  /** Every file of the old directory loads on its own, and so does the new one as an earlier release's. */
  ghost predicate AllLoad(v: View, w: View, sha: string) {
    (forall s | s in v.dir :: v.loads(s, false, true)) && w.loads(sha, false, true)
  }

  lemma SameHop(v: View, w: View, sha: string, doc: Doc, a: string, b: string)
    requires Extends(v, w, sha, doc) && a in v.dir && b in v.dir
    ensures Hop(v, a, b) <==> Hop(w, a, b)
  {
  }

  /** Soundness of a usable anchor: the chain loads in the extended directory, below the files already seen. */
  lemma {:induction false} WalkLoads(v: View, w: View, sha: string, doc: Doc, walk: seq<string>, seen: seq<string>)
    requires Extends(v, w, sha, doc) && UsableWalk(v, walk) && AllLoad(v, w, sha) && |walk| + |seen| <= MAX_ANCHOR_DEPTH
    requires seen != []
    requires Avoids(walk, seen)
    ensures LoadChain(w, walk[0], false, seen).Ok?
    decreases |walk|
  {
    var a := walk[0];
    assert StopAt(v, walk, 0);
    if |walk| > 1 {
      WalkTail(v, walk);
      WalkTailAvoids(v, walk, seen);
      WalkLoads(v, w, sha, doc, walk[1..], seen + [a]);
      SameHop(v, w, sha, doc, a, walk[1]);
      assert OthersLoad(w, a);
    }
    LoadStepBack(w, a, false, seen);
  }

  lemma WalkTailAvoids(v: View, w: seq<string>, seen: seq<string>)
    requires UsableWalk(v, w) && Avoids(w, seen)
    ensures Avoids(w[1..], seen + [w[0]])
  {
    forall i | 0 <= i < |w| - 1 ensures w[1..][i] !in seen + [w[0]] { WalkDoesNotReturn(v, w, i + 1); }
  }

  lemma UsableCons(v: View, a: string, b: string, n: nat)
    requires Usable(v, b, n) && a in v.dir && v.loads(a, false, true) && HasAnchor(v.dir[a])
    requires AnchorOf(v.dir[a]).sha == b && Hop(v, a, b)
    ensures Usable(v, a, n + 1)
  {
    var walk :| UsableWalk(v, walk) && walk[0] == b && |walk| <= n;
    WalkCons(v, a, walk);
    assert ([a] + walk)[0] == a;
  }

  lemma PlainIsUsable(v: View, a: string, n: nat)
    requires a in v.dir && Plain(v.dir[a]) && v.loads(a, false, true) && n >= 1
    ensures Usable(v, a, n)
  {
    assert StopAt(v, [a], 0);
    assert UsableWalk(v, [a]) && [a][0] == a;
  }

  /** What a load in the extended directory says of a file that was there before. */
  lemma OldStep(v: View, w: View, sha: string, doc: Doc, a: string, seen: seq<string>)
    requires Extends(v, w, sha, doc) && sha in seen && LoadChain(w, a, false, seen).Ok?
    ensures |seen| < MAX_ANCHOR_DEPTH && a in v.dir && v.loads(a, false, true) && w.dir[a] == v.dir[a]
    ensures v.dir[a].json.Some?
    ensures if HasAnchor(v.dir[a]) then
      LoadChain(w, AnchorOf(v.dir[a]).sha, false, seen + [a]).Ok? && Hop(w, a, AnchorOf(v.dir[a]).sha) &&
        w.loads(sha, false, true)
            else Plain(v.dir[a])
  {
    LoadStep(w, a, false, seen);
    assert sha in w.dir && a != sha;
  }

  /**
   Completeness: a chain that loads in the extended directory was usable before, for there is another file beside it.
   */
  lemma {:induction false} LoadedIsUsable(v: View, w: View, sha: string, doc: Doc, a: string, seen: seq<string>, n: nat)
    requires Extends(v, w, sha, doc) && n + |seen| == MAX_ANCHOR_DEPTH && sha in seen
    requires LoadChain(w, a, false, seen).Ok?
    ensures Usable(v, a, n)
    ensures a in v.dir && (!Plain(v.dir[a]) ==> w.loads(sha, false, true))
    decreases n
  {
    OldStep(v, w, sha, doc, a, seen);
    if HasAnchor(v.dir[a]) {
      var b := AnchorOf(v.dir[a]).sha;
      LoadedIsUsable(v, w, sha, doc, b, seen + [a], n - 1);
      SameHop(v, w, sha, doc, a, b);
      UsableCons(v, a, b, n - 1);
    } else {
      PlainIsUsable(v, a, n);
    }
  }

  /**
   The exact condition: the new file loads if and only if every other file of the directory loads, the anchor
   it names is the file it was compared with, that anchor's walk has room under the depth bound and ends at a
   plain file, and (when the anchor is itself reconstructed) the new file also loads as another file's neighbour.
   */
  lemma NewFileLoadsExactlyWhen(v: View, w: View, sha: string, doc: Doc)
    requires Extends(v, w, sha, doc) && HasAnchor(doc) && w.loads(sha, false, false)
    ensures LoadChain(w, sha, false, []).Ok? <==> Rests(v, w, sha, AnchorOf(doc).sha)
  {
    var a := AnchorOf(doc).sha;
    assert [] + [sha] == [sha];
    if LoadChain(w, sha, false, []).Ok? {
      LoadStep(w, sha, false, []);
      LoadedIsUsable(v, w, sha, doc, a, [sha], MAX_ANCHOR_DEPTH - 1);
      forall s | s in v.dir ensures v.loads(s, false, true) { assert w.loads(s, false, true); }
    }
    if Rests(v, w, sha, a) {
      AnchorLoads(v, w, sha, doc, a, MAX_ANCHOR_DEPTH - 1);
      assert OthersLoad(w, sha);
      LoadStepBack(w, sha, false, []);
    }
  }

  /** What the new file rests on. */
  ghost predicate Rests(v: View, w: View, sha: string, a: string) {
    && a in v.dir && (forall s | s in v.dir :: v.loads(s, false, true))
    && Hop(w, sha, a) && Usable(v, a, MAX_ANCHOR_DEPTH - 1)
    && (Plain(v.dir[a]) || w.loads(sha, false, true))
  }

  lemma AnchorLoads(v: View, w: View, sha: string, doc: Doc, a: string, n: nat)
    requires Extends(v, w, sha, doc) && Rests(v, w, sha, a) && n == MAX_ANCHOR_DEPTH - 1
    ensures LoadChain(w, a, false, [sha]).Ok?
  {
    var walk :| UsableWalk(v, walk) && walk[0] == a && |walk| <= n;
    assert StopAt(v, walk, 0);
    if |walk| == 1 {
      LoadStepBack(w, a, false, [sha]);
    } else {
      forall i | 0 <= i < |walk| ensures walk[i] !in [sha] { assert StopAt(v, walk, i); }
      WalkLoads(v, w, sha, doc, walk, [sha]);
    }
  }

  /**
   A first-ever baseline has no cross-check record and loads while it is alone. A second baseline frozen
   against it never loads, and from then on neither does the first: the rule that a reconstructed file with
   neighbours must carry a record applies to the anchor too.
   */
  lemma FirstBaselineStrandsTheNext(v: View, w: View, sha: string, doc: Doc, a: string)
    requires Extends(v, w, sha, doc) && HasAnchor(doc) && AnchorOf(doc).sha == a && w.loads(sha, false, false)
    requires a in v.dir && v.dir[a].json.Some? && !Plain(v.dir[a]) && !HasAnchor(v.dir[a])
    ensures LoadChain(w, sha, false, []).Err? && LoadChain(w, a, false, []).Err?
  {
    NewFileLoadsExactlyWhen(v, w, sha, doc);
    assert sha in w.dir && a != sha && !Alone(w.dir, a);
    if LoadChain(w, a, false, []).Ok? { LoadStep(w, a, false, []); }
  }
}
