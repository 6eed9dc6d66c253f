/**
 The CREATE2 library linker: a memoised depth-first build over the link graph of the build artifacts. A link
 site is filled with the address of the library it names, and that address is a function of the library's own
 resolved creation code.
 */
module Linker {
  import opened Basics

  datatype LinkRef = LinkRef(start: nat, length: int, lib: string)
  datatype RawArtifact = RawArtifact(creation: string, deployed: string, creationLinks: seq<LinkRef>,
    deployedLinks: seq<LinkRef>)
  datatype Lib = Lib(name: string, artifact: string)
  datatype Built = Built(name: string, artifact: string, address: string, creation: string, runtime: string,
    runtimeHash: string)
  datatype Problem = Cycle | Unlisted | NoArtifact | BadLength | Placeholder | NotALibrary

  /**
   `names` maps a listed artifact to its library name. `create2` and `hash` are the address derivation and keccak256.
   */
  datatype Project = Project(names: map<string, string>, out: map<string, RawArtifact>, create2: string -> string,
    hash: string -> string)

  // ---- code text -----------------------------------------------------------------------------------

  /** `s.slice(a, b)`: bounds past the end are clamped. */
  function Slice(s: string, a: nat, b: nat): string {
    var lo, hi := if a < |s| then a else |s|, if b < |s| then b else |s|;
    if lo <= hi then s[lo..hi] else ""
  }

  function Patch(hex: string, at: nat, address: string): string {
    Slice(hex, 0, at * 2) + Lower(Slice(address, 2, |address|)) + Slice(hex, (at + 20) * 2, |hex|)
  }

  predicate UsableCode(s: string) {
    && |s| > 2 && s[..2] == "0x"
    && forall i | 2 <= i < |s| ::
      '0' <= s[i] <= '9' || 'a' <= s[i] <= 'z' || 'A' <= s[i] <= 'Z' || s[i] == '_' || s[i] == '$'
  }

  predicate PlaceholderAt(s: string, i: nat) { i + 3 <= |s| && s[i..i + 3] == "__$" }

  predicate HasPlaceholder(s: string) { exists i | 0 <= i < |s| :: PlaceholderAt(s, i) }

  /** The library self-address push: 0x73 and twenty zero bytes. */
  predicate StartsWithSelfPush(hex: string) {
    |hex| >= 42 && hex[..2] == "73" && forall i | 2 <= i < 42 :: hex[i] == '0'
  }

  function ExpectedRuntime(hex: string, address: string): string
    requires StartsWithSelfPush(hex)
  {
    Lower("0x73" + Lower(Slice(address, 2, |address|)) + hex[42..])
  }

  // ---- the plain recursive definition --------------------------------------------------------------

  ghost function Unvisited(p: Project, stack: seq<string>): set<string> { p.names.Keys - SetOf(stack) }

  lemma VisitShrinks(p: Project, stack: seq<string>, a: string)
    requires a in p.names && a !in stack
    ensures |Unvisited(p, stack + [a])| < |Unvisited(p, stack)|
  {
    assert Unvisited(p, stack + [a]) == Unvisited(p, stack) - {a};
    assert a in Unvisited(p, stack);
  }

  predicate Usable(p: Project, a: string) {
    a in p.out && UsableCode(p.out[a].creation) && UsableCode(p.out[a].deployed)
  }

  /** The tail of a build once both codes are resolved. */
  function Finish(p: Project, a: string, creation: string, runtime: string): Result<Built, Problem>
    requires a in p.names
  {
    if HasPlaceholder(creation) || HasPlaceholder(runtime) then Err(Placeholder) else
      var address := p.create2("0x" + creation);
      if !StartsWithSelfPush(runtime) then Err(NotALibrary) else
        var filled := ExpectedRuntime(runtime, address);
        Ok(Built(p.names[a], a, address, "0x" + creation, filled, p.hash(filled)))
  }

  ghost function Resolve(p: Project, a: string, stack: seq<string>): Result<Built, Problem>
    decreases |Unvisited(p, stack)|, 0, 0
  {
    if a in stack then Err(Cycle) else
    if a !in p.names then Err(Unlisted) else
    if !Usable(p, a) then Err(NoArtifact) else
      VisitShrinks(p, stack, a);
      var raw := p.out[a];
      match ResolveLinks(p, raw.creation[2..], raw.creationLinks, stack + [a])
      case Err(e) => Err(e)
      case Ok(creation) =>
        match ResolveLinks(p, raw.deployed[2..], raw.deployedLinks, stack + [a])
        case Err(e) => Err(e)
        case Ok(runtime) => Finish(p, a, creation, runtime)
  }

  ghost function ResolveLinks(p: Project, code: string, links: seq<LinkRef>, stack: seq<string>)
    : Result<string, Problem>
    decreases |Unvisited(p, stack)|, 1, |links|
  {
    if links == [] then Ok(code) else
    if links[0].length != 20 then Err(BadLength) else
      match Resolve(p, links[0].lib, stack)
      case Err(e) => Err(e)
      case Ok(b) => ResolveLinks(p, Patch(code, links[0].start, b.address), links[1..], stack)
  }

  // ---- paths of the link graph ---------------------------------------------------------------------

  function AllLinks(p: Project, a: string): seq<LinkRef> {
    if a in p.out then p.out[a].creationLinks + p.out[a].deployedLinks else []
  }

  predicate LinksTo(p: Project, a: string, b: string) { exists r | r in AllLinks(p, a) :: r.lib == b }

  ghost predicate Path(p: Project, q: seq<string>) {
    |q| > 0 && forall i | 0 <= i < |q| - 1 :: Hop(p, q, i)
  }

  predicate Hop(p: Project, q: seq<string>, i: nat)
    requires i + 1 < |q|
  {
    LinksTo(p, q[i], q[i + 1])
  }

  lemma PathTail(p: Project, q: seq<string>)
    requires Path(p, q) && |q| > 1
    ensures Path(p, q[1..]) && LinksTo(p, q[0], q[1])
  {
    assert Hop(p, q, 0);
    forall i | 0 <= i < |q[1..]| - 1 ensures Hop(p, q[1..], i) { assert Hop(p, q, i + 1); }
  }

  lemma PathCons(p: Project, a: string, q: seq<string>)
    requires Path(p, q) && LinksTo(p, a, q[0])
    ensures Path(p, [a] + q)
  {
    forall i | 0 <= i < |[a] + q| - 1 ensures Hop(p, [a] + q, i) {
      if i > 0 { assert Hop(p, q, i - 1); }
    }
  }

  lemma PathSnoc(p: Project, q: seq<string>, b: string)
    requires Path(p, q) && LinksTo(p, q[|q| - 1], b)
    ensures Path(p, q + [b])
  {
    forall i | 0 <= i < |q + [b]| - 1 ensures Hop(p, q + [b], i) {
      if i < |q| - 1 { assert Hop(p, q, i); }
    }
  }

  /** Two paths, the second starting where the first ends, are one path. */
  lemma PathJoin(p: Project, q: seq<string>, t: seq<string>, i: nat)
    requires Path(p, q) && Path(p, t) && i < |t| && q[|q| - 1] == t[i]
    ensures Path(p, q + t[i + 1..])
  {
    var long := q + t[i + 1..];
    forall k | 0 <= k < |long| - 1 ensures Hop(p, long, k) {
      if k < |q| - 1 { assert Hop(p, q, k); } else { assert Hop(p, t, i + 1 + k - |q|); }
    }
  }

  /** What one artifact must bring: a listing, usable code, 20-byte link sites. */
  predicate WellLinked(p: Project, a: string) {
    a in p.names && Usable(p, a) && forall r | r in AllLinks(p, a) :: r.length == 20
  }

  ghost function AddressOf(p: Project, a: string): string {
    match Resolve(p, a, []) case Ok(b) => b.address case Err(_) => ""
  }

  ghost function Filled(p: Project, code: string, links: seq<LinkRef>): string
    decreases |links|
  {
    if links == [] then code else Filled(p, Patch(code, links[0].start, AddressOf(p, links[0].lib)), links[1..])
  }

  /** With its link sites filled, the artifact has no placeholder left and is a library. */
  ghost predicate Clean(p: Project, a: string)
    requires Usable(p, a)
  {
    && !HasPlaceholder(Filled(p, p.out[a].creation[2..], p.out[a].creationLinks))
    && !HasPlaceholder(Filled(p, p.out[a].deployed[2..], p.out[a].deployedLinks))
    && StartsWithSelfPush(Filled(p, p.out[a].deployed[2..], p.out[a].deployedLinks))
  }

  ghost predicate NodeOk(p: Project, a: string) { WellLinked(p, a) && Clean(p, a) }

  /** Every artifact a link path from `a` reaches is fine, and no path comes back to where it was, or to the stack. */
  ghost predicate Linkable(p: Project, a: string, stack: seq<string>) {
    forall q | Path(p, q) && q[0] == a :: FinePath(p, q, stack)
  }

  ghost predicate FinePath(p: Project, q: seq<string>, stack: seq<string>)
    requires |q| > 0
  {
    Fresh(q, stack) && Distinct(q) && NodeOk(p, q[|q| - 1])
  }

  predicate Fresh(q: seq<string>, stack: seq<string>) { forall i | 0 <= i < |q| :: q[i] !in stack }

  // ---- success means no path repeats ---------------------------------------------------------------

  lemma {:induction false} LinksResolved(p: Project, code: string, links: seq<LinkRef>, stack: seq<string>, r: LinkRef)
    requires ResolveLinks(p, code, links, stack).Ok? && r in links
    ensures r.length == 20 && Resolve(p, r.lib, stack).Ok?
    decreases |links|
  {
    if r != links[0] {
      LinksResolved(p, Patch(code, links[0].start, Resolve(p, links[0].lib, stack).value.address), links[1..], stack,
        r);
    }
  }

  lemma LinkResolved(p: Project, a: string, stack: seq<string>, r: LinkRef)
    requires Resolve(p, a, stack).Ok? && r in AllLinks(p, a)
    ensures r.length == 20 && Resolve(p, r.lib, stack + [a]).Ok?
  {
    var raw := p.out[a];
    if r in raw.creationLinks {
      LinksResolved(p, raw.creation[2..], raw.creationLinks, stack + [a], r);
    } else {
      LinksResolved(p, raw.deployed[2..], raw.deployedLinks, stack + [a], r);
    }
  }

  lemma {:induction false} PathsDoNotRepeat(p: Project, a: string, stack: seq<string>, q: seq<string>)
    requires Resolve(p, a, stack).Ok? && Path(p, q) && q[0] == a
    ensures Fresh(q, stack) && Distinct(q)
    decreases |q|
  {
    if |q| == 1 {
    } else {
      PathTail(p, q);
      var r :| r in AllLinks(p, a) && r.lib == q[1];
      LinkResolved(p, a, stack, r);
      var t := q[1..];
      PathsDoNotRepeat(p, q[1], stack + [a], t);
      ConsIsFresh(a, t, stack);
      assert q == [a] + t;
    }
  }

  lemma ConsIsFresh(a: string, q: seq<string>, stack: seq<string>)
    requires a !in stack && Distinct(q) && Fresh(q, stack + [a])
    ensures Distinct([a] + q) && Fresh([a] + q, stack)
  {
    var long := [a] + q;
    forall i | 0 <= i < |q| ensures q[i] !in stack && q[i] != a { assert q[i] !in stack + [a]; }
    forall i, j | 0 <= i < j < |long| ensures long[i] != long[j] {
      assert long[j] == q[j - 1];
      if i > 0 { assert long[i] == q[i - 1]; }
    }
  }

  /** No path from `a` meets the stack. */
  ghost predicate Avoids(p: Project, a: string, stack: seq<string>) {
    forall q | Path(p, q) && q[0] == a :: q[|q| - 1] !in stack
  }

  lemma ChildPathAvoids(p: Project, a: string, s: seq<string>, t: seq<string>, b: string, q: seq<string>)
    requires Resolve(p, a, s).Ok? && Avoids(p, a, t) && LinksTo(p, a, b) && Path(p, q) && q[0] == b
    ensures q[|q| - 1] !in t + [a]
  {
    var long := [a] + q;
    PathCons(p, a, q);
    PathsDoNotRepeat(p, a, s, long);
    assert long[|long| - 1] == q[|q| - 1] && long[0] == a;
  }

  lemma ChildAvoids(p: Project, a: string, s: seq<string>, t: seq<string>, b: string)
    requires Resolve(p, a, s).Ok? && Avoids(p, a, t) && LinksTo(p, a, b)
    ensures Avoids(p, b, t + [a])
  {
    forall q | Path(p, q) && q[0] == b ensures q[|q| - 1] !in t + [a] { ChildPathAvoids(p, a, s, t, b, q); }
  }

  /** A library that builds under one stack builds to the same thing under any stack its links do not reach. */
  lemma {:induction false} StackDoesNotMatter(p: Project, a: string, s: seq<string>, t: seq<string>)
    requires Resolve(p, a, s).Ok? && Avoids(p, a, t)
    ensures Resolve(p, a, t) == Resolve(p, a, s)
    decreases |Unvisited(p, s)|, 0, 0
  {
    assert Path(p, [a]);
    assert [a][|[a]| - 1] !in t;
    VisitShrinks(p, s, a);
    var raw := p.out[a];
    LinksDoNotMatter(p, a, raw.creation[2..], raw.creationLinks, s, t);
    LinksDoNotMatter(p, a, raw.deployed[2..], raw.deployedLinks, s, t);
  }

  lemma {:induction false} LinksDoNotMatter(p: Project, a: string, code: string, links: seq<LinkRef>, s: seq<string>,
                                            t: seq<string>)
    requires Resolve(p, a, s).Ok? && Avoids(p, a, t)
    requires forall r | r in links :: r in AllLinks(p, a)
    requires ResolveLinks(p, code, links, s + [a]).Ok?
    ensures ResolveLinks(p, code, links, t + [a]) == ResolveLinks(p, code, links, s + [a])
    decreases |Unvisited(p, s + [a])|, 1, |links|
  {
    if links != [] {
      var r := links[0];
      assert r in AllLinks(p, a) && LinksTo(p, a, r.lib);
      LinkResolved(p, a, s, r);
      ChildAvoids(p, a, s, t, r.lib);
      StackDoesNotMatter(p, r.lib, s + [a], t + [a]);
      LinksDoNotMatter(p, a, Patch(code, r.start, Resolve(p, r.lib, s + [a]).value.address), links[1..], s, t);
    }
  }

  /** The stack of a running build: each artifact links the next, and the last links `a`. */
  ghost predicate LeadsTo(p: Project, stack: seq<string>, a: string) { Path(p, stack + [a]) }

  /** A memoised answer is the right one under the stack it is asked for: nothing it links is being built. */
  lemma MemoIsSound(p: Project, a: string, stack: seq<string>)
    requires Resolve(p, a, []).Ok? && LeadsTo(p, stack, a)
    ensures Resolve(p, a, stack) == Resolve(p, a, [])
  {
    forall q | Path(p, q) && q[0] == a ensures q[|q| - 1] !in stack {
      if q[|q| - 1] in stack {
        var i :| 0 <= i < |stack| && stack[i] == q[|q| - 1];
        assert (stack + [a])[i] == q[|q| - 1];
        PathJoin(p, q, stack + [a], i);
        var loop := q + (stack + [a])[i + 1..];
        assert loop[0] == loop[|loop| - 1];
        PathsDoNotRepeat(p, a, [], loop);
        assert false;
      }
    }
    StackDoesNotMatter(p, a, [], stack);
  }

  // ---- success exactly when every path is fine -----------------------------------------------------

  lemma NothingToAvoid(p: Project, a: string)
    ensures Avoids(p, a, [])
  {
  }

  lemma {:induction false} FilledIsResolved(p: Project, code: string, links: seq<LinkRef>, stack: seq<string>)
    requires forall r | r in links :: r.length == 20 && Resolve(p, r.lib, stack).Ok?
    ensures ResolveLinks(p, code, links, stack) == Ok(Filled(p, code, links))
    decreases |links|
  {
    if links != [] {
      var r := links[0];
      assert r in links;
      NothingToAvoid(p, r.lib);
      StackDoesNotMatter(p, r.lib, stack, []);
      FilledIsResolved(p, Patch(code, r.start, AddressOf(p, r.lib)), links[1..], stack);
    }
  }

  lemma ResolvedNodeIsOk(p: Project, a: string, stack: seq<string>)
    requires Resolve(p, a, stack).Ok?
    ensures NodeOk(p, a)
  {
    forall r | r in AllLinks(p, a) ensures r.length == 20 && Resolve(p, r.lib, stack + [a]).Ok? {
      LinkResolved(p, a, stack, r);
    }
    var raw := p.out[a];
    FilledIsResolved(p, raw.creation[2..], raw.creationLinks, stack + [a]);
    FilledIsResolved(p, raw.deployed[2..], raw.deployedLinks, stack + [a]);
  }

  lemma {:induction false} ReachedNodesAreOk(p: Project, a: string, stack: seq<string>, q: seq<string>)
    requires Resolve(p, a, stack).Ok? && Path(p, q) && q[0] == a
    ensures NodeOk(p, q[|q| - 1])
    decreases |q|
  {
    if |q| == 1 {
      ResolvedNodeIsOk(p, a, stack);
    } else {
      PathTail(p, q);
      var r :| r in AllLinks(p, a) && r.lib == q[1];
      LinkResolved(p, a, stack, r);
      ReachedNodesAreOk(p, q[1], stack + [a], q[1..]);
      assert q[1..][|q[1..]| - 1] == q[|q| - 1];
    }
  }

  lemma ChildIsLinkable(p: Project, a: string, stack: seq<string>, b: string)
    requires Linkable(p, a, stack) && LinksTo(p, a, b)
    ensures Linkable(p, b, stack + [a])
  {
    forall q | Path(p, q) && q[0] == b ensures FinePath(p, q, stack + [a]) {
      PathCons(p, a, q);
      assert FinePath(p, [a] + q, stack);
      TailIsFresh(a, q, stack);
    }
  }

  lemma TailIsFresh(a: string, q: seq<string>, stack: seq<string>)
    requires Distinct([a] + q) && Fresh([a] + q, stack)
    ensures Distinct(q) && Fresh(q, stack + [a])
  {
    var long := [a] + q;
    forall i | 0 <= i < |q| ensures q[i] !in stack + [a] {
      assert long[i + 1] == q[i] && long[0] != long[i + 1] && long[i + 1] !in stack;
    }
    forall i, j | 0 <= i < j < |q| ensures q[i] != q[j] { assert long[i + 1] != long[j + 1]; }
  }

  lemma {:induction false} LinkableResolves(p: Project, a: string, stack: seq<string>)
    requires Linkable(p, a, stack)
    ensures Resolve(p, a, stack).Ok?
    decreases |Unvisited(p, stack)|
  {
    assert Path(p, [a]);
    assert FinePath(p, [a], stack) && [a][0] !in stack && NodeOk(p, [a][0]);
    VisitShrinks(p, stack, a);
    forall r | r in AllLinks(p, a) ensures r.length == 20 && Resolve(p, r.lib, stack + [a]).Ok? {
      assert LinksTo(p, a, r.lib);
      ChildIsLinkable(p, a, stack, r.lib);
      LinkableResolves(p, r.lib, stack + [a]);
    }
    var raw := p.out[a];
    FilledIsResolved(p, raw.creation[2..], raw.creationLinks, stack + [a]);
    FilledIsResolved(p, raw.deployed[2..], raw.deployedLinks, stack + [a]);
  }

  /**
   A library builds exactly when every artifact its links reach is listed, has usable code, 20-byte link sites
   and no placeholder left once they are filled, and no chain of links comes back on itself.
   */
  lemma BuildsExactlyWhenLinkable(p: Project, a: string)
    ensures Resolve(p, a, []).Ok? <==> Linkable(p, a, [])
  {
    if Resolve(p, a, []).Ok? {
      forall q | Path(p, q) && q[0] == a ensures FinePath(p, q, []) {
        PathsDoNotRepeat(p, a, [], q);
        ReachedNodesAreOk(p, a, [], q);
      }
    }
    if Linkable(p, a, []) {
      LinkableResolves(p, a, []);
    }
  }

  // ---- the memoised build --------------------------------------------------------------------------

  class Builder {
    const p: Project
    var done: map<string, Built>

    constructor (p: Project)
      ensures this.p == p && done == map[]
    {
      this.p, done := p, map[];
    }

    /** Everything in the memo is what the plain definition gives. */
    ghost predicate Valid()
      reads this
    {
      forall a | a in done :: Resolve(p, a, []) == Ok(done[a])
    }

    method Build(a: string, stack: seq<string>) returns (r: Result<Built, Problem>)
      requires Valid() && LeadsTo(p, stack, a)
      modifies this`done
      ensures Valid() && old(done.Keys) <= done.Keys
      ensures r == Resolve(p, a, stack)
      ensures r.Ok? ==> a in done && done[a] == r.value
      decreases |Unvisited(p, stack)|, 0, 0
    {
      if a in done {
        MemoIsSound(p, a, stack);
        return Ok(done[a]);
      }
      if a in stack { return Err(Cycle); }
      if a !in p.names { return Err(Unlisted); }
      if !Usable(p, a) { return Err(NoArtifact); }
      ghost var before := done.Keys;
      VisitShrinks(p, stack, a);
      var raw := p.out[a];
      var creation := PatchLinks(a, raw.creation[2..], raw.creationLinks, stack);
      if creation.Err? { return Err(creation.error); }
      var runtime := PatchLinks(a, raw.deployed[2..], raw.deployedLinks, stack);
      if runtime.Err? { return Err(runtime.error); }
      r := Finish(p, a, creation.value, runtime.value);
      if r.Ok? {
        NothingToAvoid(p, a);
        StackDoesNotMatter(p, a, stack, []);
        done := done[a := r.value];
      }
    }

    /** One `for (const r of links)` loop: each site filled with the address of the library it names. */
    method PatchLinks(a: string, code: string, links: seq<LinkRef>, stack: seq<string>)
      returns (r: Result<string, Problem>)
      requires Valid() && LeadsTo(p, stack, a) && forall l | l in links :: l in AllLinks(p, a)
      modifies this`done
      ensures Valid() && old(done.Keys) <= done.Keys
      ensures r == ResolveLinks(p, code, links, stack + [a])
      decreases |Unvisited(p, stack + [a])|, 1, |links|
    {
      var text := code;
      for i := 0 to |links|
        invariant Valid() && old(done.Keys) <= done.Keys
        invariant ResolveLinks(p, text, links[i..], stack + [a]) == ResolveLinks(p, code, links, stack + [a])
      {
        var l := links[i];
        assert links[i..][0] == l && links[i..][1..] == links[i + 1..];
        if l.length != 20 { return Err(BadLength); }
        assert LeadsTo(p, stack + [a], l.lib) by {
          assert l in AllLinks(p, a) && LinksTo(p, a, l.lib);
          PathSnoc(p, stack + [a], l.lib);
        }
        var b := Build(l.lib, stack + [a]);
        if b.Err? { return Err(b.error); }
        text := Patch(text, l.start, b.value.address);
      }
      r := Ok(text);
    }

    /** The loop over the listing: stops at the first library that does not build. */
    method BuildEach(libs: seq<Lib>) returns (problem: Option<Problem>)
      requires Valid()
      modifies this`done
      ensures Valid()
      ensures problem.None? ==> forall i | 0 <= i < |libs| :: libs[i].artifact in done
      ensures problem.Some? ==> exists i :: 0 <= i < |libs| && Resolve(p, libs[i].artifact, []) == Err(problem.value)
    {
      for i := 0 to |libs|
        invariant Valid()
        invariant forall j | 0 <= j < i :: libs[j].artifact in done
      {
        assert LeadsTo(p, [], libs[i].artifact);
        var one := Build(libs[i].artifact, []);
        if one.Err? { return Some(one.error); }
      }
      problem := None;
    }
  }

  /** The map from artifact to library name: a later listing of the same artifact wins. */
  function ByArtifact(libs: seq<Lib>): (m: map<string, string>)
    ensures Names(libs, m)
  {
    if libs == [] then map[] else
      var front, last := libs[..|libs| - 1], libs[|libs| - 1];
      assert libs == front + [last];
      ByArtifact(front)[last.artifact := last.name]
  }

  /** What a project builds to: every listed library, or nothing when one does not build. */
  ghost function BuiltAll(p: Project): Option<map<string, Built>> {
    if forall a | a in p.names :: Resolve(p, a, []).Ok? then Some(map a | a in p.names :: Resolve(p, a, []).value)
      else None
  }

  lemma OneMissingIsNone(p: Project, libs: seq<Lib>)
    requires p.names == ByArtifact(libs) && exists i | 0 <= i < |libs| :: Resolve(p, libs[i].artifact, []).Err?
    ensures BuiltAll(p).None?
  {
    var i :| 0 <= i < |libs| && Resolve(p, libs[i].artifact, []).Err?;
    assert libs[i] in libs;
  }

  lemma MemoIsBuiltAll(p: Project, done: map<string, Built>)
    requires done.Keys == p.names.Keys && forall a | a in done :: Resolve(p, a, []) == Ok(done[a])
    ensures BuiltAll(p) == Some(done)
  {
    forall a | a in p.names ensures Resolve(p, a, []).Ok? && Resolve(p, a, []).value == done[a] { assert a in done; }
    assert (map a | a in p.names :: Resolve(p, a, []).value) == done;
  }

  /** buildCreate2Libraries: every listed library, through one memo. */
  method BuildLibraries(libs: seq<Lib>, p: Project) returns (r: Result<map<string, Built>, Problem>)
    requires p.names == ByArtifact(libs)
    ensures r.Ok? <==> forall i | 0 <= i < |libs| :: Resolve(p, libs[i].artifact, []).Ok?
    ensures BuiltAll(p) == if r.Ok? then Some(r.value) else None
    ensures r.Err? ==> exists i :: 0 <= i < |libs| && Resolve(p, libs[i].artifact, []) == Err(r.error)
  {
    var b := new Builder(p);
    var problem := b.BuildEach(libs);
    if problem.Some? {
      OneMissingIsNone(p, libs);
      return Err(problem.value);
    }
    MemoIsComplete(p, libs, b.done);
    MemoIsBuiltAll(p, b.done);
    r := Ok(b.done);
  }

  /** The whole list builds exactly when nothing any of its libraries links is missing, malformed or circular. */
  lemma ListBuildsExactlyWhenLinkable(libs: seq<Lib>, p: Project)
    ensures (forall i | 0 <= i < |libs| :: Resolve(p, libs[i].artifact, []).Ok?) <==>
            (forall i | 0 <= i < |libs| :: Linkable(p, libs[i].artifact, []))
  {
    forall i | 0 <= i < |libs| ensures Resolve(p, libs[i].artifact, []).Ok? <==> Linkable(p, libs[i].artifact, []) {
      BuildsExactlyWhenLinkable(p, libs[i].artifact);
    }
  }

  lemma MemoIsComplete(p: Project, libs: seq<Lib>, done: map<string, Built>)
    requires p.names == ByArtifact(libs)
    requires forall a | a in done :: Resolve(p, a, []) == Ok(done[a])
    requires forall i | 0 <= i < |libs| :: libs[i].artifact in done
    ensures done.Keys == p.names.Keys
  {
    forall a | a in p.names ensures a in done {
      var i :| 0 <= i < |libs| && libs[i] == Lib(p.names[a], a);
    }
  }

  /** `m` names every listed artifact, each by a name it is listed under. */
  ghost predicate Names(libs: seq<Lib>, m: map<string, string>) {
    && (forall l | l in libs :: l.artifact in m)
    && (forall a | a in m :: Lib(m[a], a) in libs)
  }

  lemma NamesAgree(libs: seq<Lib>, other: seq<Lib>, m: map<string, string>, n: map<string, string>)
    requires Names(libs, m) && Names(other, n) && forall l :: l in libs <==> l in other
    requires forall l, k | l in libs && k in libs && l.artifact == k.artifact :: l == k
    ensures m == n
  {
    forall a | a in m ensures a in n && m[a] == n[a] {
      assert Lib(m[a], a) in other;
      assert Lib(n[a], a) in libs;
    }
    forall a | a in n ensures a in m {
      assert Lib(n[a], a) in libs;
    }
  }
}
