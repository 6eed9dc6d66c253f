/** When the order of the library list shows in what is built. */
module LinkOrder {
  import opened Basics
  import opened Linker

  /** The project a listing makes of the build's artifacts. */
  function Listing(libs: seq<Lib>, base: Project): Project { base.(names := ByArtifact(libs)) }

  /** The same build outcome but for the name a library is given. */
  ghost predicate AlikeButName(a: Result<Built, Problem>, b: Result<Built, Problem>) {
    if a.Ok? && b.Ok? then a.value == b.value.(name := a.value.name) else a.Err? && b.Err? && a.error == b.error
  }

  /** Two projects that list the same artifacts, perhaps under other names. */
  ghost predicate SameListed(p: Project, q: Project) { q == p.(names := q.names) && q.names.Keys == p.names.Keys }

  /** A name is only a label: what a library builds to, or why it does not, comes from the listed artifacts alone. */
  lemma {:induction false} NamesAreLabels(p: Project, q: Project, a: string, stack: seq<string>)
    requires SameListed(p, q)
    ensures AlikeButName(Resolve(p, a, stack), Resolve(q, a, stack))
    decreases |Unvisited(p, stack)|, 0, 0
  {
    if a !in stack && a in p.names && Usable(p, a) {
      VisitShrinks(p, stack, a);
      var raw := p.out[a];
      LinksIgnoreNames(p, q, raw.creation[2..], raw.creationLinks, stack + [a]);
      LinksIgnoreNames(p, q, raw.deployed[2..], raw.deployedLinks, stack + [a]);
      var creation := ResolveLinks(p, raw.creation[2..], raw.creationLinks, stack + [a]);
      var runtime := ResolveLinks(p, raw.deployed[2..], raw.deployedLinks, stack + [a]);
      if creation.Ok? && runtime.Ok? { FinishIgnoresName(p, q, a, creation.value, runtime.value); }
    }
  }

  lemma FinishIgnoresName(p: Project, q: Project, a: string, creation: string, runtime: string)
    requires SameListed(p, q) && a in p.names
    ensures AlikeButName(Finish(p, a, creation, runtime), Finish(q, a, creation, runtime))
  {
  }

  lemma {:induction false} LinksIgnoreNames(p: Project, q: Project, code: string, links: seq<LinkRef>,
                                            stack: seq<string>)
    requires SameListed(p, q)
    ensures ResolveLinks(p, code, links, stack) == ResolveLinks(q, code, links, stack)
    decreases |Unvisited(p, stack)|, 1, |links|
  {
    if links != [] && links[0].length == 20 {
      NamesAreLabels(p, q, links[0].lib, stack);
      var b := Resolve(p, links[0].lib, stack);
      if b.Ok? { LinksIgnoreNames(p, q, Patch(code, links[0].start, b.value.address), links[1..], stack); }
    }
  }

  lemma PermutedListsTheSame(libs: seq<Lib>, other: seq<Lib>, base: Project)
    requires multiset(libs) == multiset(other)
    ensures SameListed(Listing(libs, base), Listing(other, base)) && forall l :: l in libs <==> l in other
  {
    forall l ensures l in libs <==> l in other {
      assert l in libs <==> l in multiset(libs);
      assert l in other <==> l in multiset(other);
    }
    forall a ensures a in ByArtifact(libs) <==> a in ByArtifact(other) {
      if a in ByArtifact(libs) { assert Lib(ByArtifact(libs)[a], a) in other; }
      if a in ByArtifact(other) { assert Lib(ByArtifact(other)[a], a) in libs; }
    }
  }

  /** No artifact is listed under two names. */
  predicate OneName(libs: seq<Lib>) {
    forall i, j | 0 <= i < |libs| && 0 <= j < |libs| && libs[i].artifact == libs[j].artifact :: libs[i] == libs[j]
  }

  /** A listing that builds, or one with a name per artifact, builds to the same thing in every order. */
  lemma OrderDoesNotMatter(libs: seq<Lib>, other: seq<Lib>, base: Project)
    requires multiset(libs) == multiset(other)
    requires BuiltAll(Listing(libs, base)).None? || OneName(libs)
    ensures BuiltAll(Listing(other, base)) == BuiltAll(Listing(libs, base))
  {
    var p, q := Listing(libs, base), Listing(other, base);
    PermutedListsTheSame(libs, other, base);
    if BuiltAll(p).None? {
      var a :| a in p.names && Resolve(p, a, []).Err?;
      NamesAreLabels(p, q, a, []);
      assert a in q.names;
    } else {
      forall l, k | l in libs && k in libs && l.artifact == k.artifact ensures l == k {
        var i :| 0 <= i < |libs| && libs[i] == l;
        var j :| 0 <= j < |libs| && libs[j] == k;
      }
      NamesAgree(libs, other, p.names, q.names);
    }
  }

  lemma MovedLast(libs: seq<Lib>, l: Lib) returns (other: seq<Lib>)
    requires l in libs
    ensures multiset(other) == multiset(libs) && l.artifact in ByArtifact(other)
    ensures ByArtifact(other)[l.artifact] == l.name
  {
    var i :| 0 <= i < |libs| && libs[i] == l;
    var rest := libs[..i] + libs[i + 1..];
    other := rest + [l];
    assert other[..|other| - 1] == rest;
    assert libs == libs[..i] + [l] + libs[i + 1..];
    assert multiset(other) == multiset(libs);
  }

  lemma BuiltUnderItsName(p: Project, a: string)
    requires Resolve(p, a, []).Ok?
    ensures a in p.names && Resolve(p, a, []).value.name == p.names[a]
  {
  }

  lemma TwoNames(libs: seq<Lib>) returns (l: Lib, k: Lib)
    requires !OneName(libs)
    ensures l in libs && k in libs && l.artifact == k.artifact && l.name != k.name
  {
    var i, j :| 0 <= i < |libs| && 0 <= j < |libs| && libs[i].artifact == libs[j].artifact && libs[i] != libs[j];
    l, k := libs[i], libs[j];
  }

  lemma OtherNameDiffers(p: Project, q: Project, a: string)
    requires BuiltAll(p).Some? && a in p.names && a in q.names && p.names[a] != q.names[a]
    ensures BuiltAll(q) != BuiltAll(p)
  {
    BuiltUnderItsName(p, a);
    if BuiltAll(q).Some? {
      BuiltUnderItsName(q, a);
      assert BuiltAll(p).value[a].name != BuiltAll(q).value[a].name;
    }
  }

  /** A listing that builds with an artifact under two names has an order that builds to something else. */
  lemma OtherOrderDiffers(libs: seq<Lib>, base: Project) returns (other: seq<Lib>)
    requires BuiltAll(Listing(libs, base)).Some? && !OneName(libs)
    ensures multiset(other) == multiset(libs) && BuiltAll(Listing(other, base)) != BuiltAll(Listing(libs, base))
  {
    var l, k := TwoNames(libs);
    var p := Listing(libs, base);
    other := MovedLast(libs, if p.names[l.artifact] == l.name then k else l);
    OtherNameDiffers(p, Listing(other, base), l.artifact);
  }

  /**
   The exact condition: every order of a listing builds to the same thing if and only if the listing does not build at
   all, or no artifact is listed under two names. Otherwise the last listing names the library, and another order
   gives it the other name.
   */
  lemma OrderMattersExactlyWhen(libs: seq<Lib>, base: Project)
    ensures (forall other | multiset(other) == multiset(libs) ::
      BuiltAll(Listing(other, base)) == BuiltAll(Listing(libs, base))) <==>
            BuiltAll(Listing(libs, base)).None? || OneName(libs)
  {
    if BuiltAll(Listing(libs, base)).None? || OneName(libs) {
      forall other | multiset(other) == multiset(libs)
        ensures BuiltAll(Listing(other, base)) == BuiltAll(Listing(libs, base))
      {
        OrderDoesNotMatter(libs, other, base);
      }
    } else {
      var other := OtherOrderDiffers(libs, base);
    }
  }
}
