/** What a built library is, character by character and apart from the recursion that builds it. */
module LinkedBuild {
  import opened Basics
  import opened Linker

  predicate Covers(r: LinkRef, k: int) { r.start * 2 <= k < (r.start + 20) * 2 }

  predicate Apart(a: LinkRef, b: LinkRef) { a.start + 20 <= b.start || b.start + 20 <= a.start }

  /** The position is in no site. */
  ghost predicate Outside(links: seq<LinkRef>, k: int) { forall r | r in links :: !Covers(r, k) }

  /** 20-byte sites inside the code, pairwise disjoint. */
  ghost predicate SitesFit(size: nat, links: seq<LinkRef>) {
    && (forall r | r in links :: (r.start + 20) * 2 <= size)
    && (forall i, j | 0 <= i < j < |links| :: Apart(links[i], links[j]))
  }

  /** The address derivation gives 0x and twenty bytes of text. */
  ghost predicate GivesAddresses(p: Project) { forall code :: |p.create2(code)| == 42 }

  lemma PatchCharacters(hex: string, r: LinkRef, address: string)
    requires |address| == 42 && (r.start + 20) * 2 <= |hex|
    ensures var t := Patch(hex, r.start, address);
            && |t| == |hex|
            && (forall k | Covers(r, k) :: t[k] == LowerChar(address[2 + k - r.start * 2]))
            && (forall k | 0 <= k < |hex| && !Covers(r, k) :: t[k] == hex[k])
  {
    var t := Patch(hex, r.start, address);
    var front, mid, back := hex[..r.start * 2], Lower(address[2..]), hex[(r.start + 20) * 2..];
    assert t == front + mid + back;
  }

  lemma ResolvedHasAddress(p: Project, a: string, stack: seq<string>)
    requires GivesAddresses(p) && Resolve(p, a, stack).Ok?
    ensures |Resolve(p, a, stack).value.address| == 42
  {
  }

  lemma TailFits(size: nat, links: seq<LinkRef>)
    requires links != [] && SitesFit(size, links)
    ensures SitesFit(size, links[1..]) && forall r | r in links[1..] :: Apart(links[0], r)
  {
    forall r | r in links[1..] ensures Apart(links[0], r) && r in links {
      var i :| 0 <= i < |links[1..]| && links[1..][i] == r;
      assert links[i + 1] == r && Apart(links[0], links[i + 1]);
    }
    forall i, j | 0 <= i < j < |links[1..]| ensures Apart(links[1..][i], links[1..][j]) {
      assert Apart(links[i + 1], links[j + 1]);
    }
  }

  /** The text of resolved code: the folded address of the library a site names inside it, the old text elsewhere. */
  ghost predicate FilledIn(p: Project, code: string, links: seq<LinkRef>, stack: seq<string>, t: string) {
    && |t| == |code|
    && (forall r, k | r in links && Covers(r, k) && 0 <= k < |t| ::
          && Resolve(p, r.lib, stack).Ok? && |Resolve(p, r.lib, stack).value.address| == 42
          && t[k] == LowerChar(Resolve(p, r.lib, stack).value.address[2 + k - r.start * 2]))
    && (forall k | 0 <= k < |t| && Outside(links, k) :: t[k] == code[k])
  }

  lemma {:induction false} ResolvedCharacters(p: Project, code: string, links: seq<LinkRef>, stack: seq<string>)
    requires GivesAddresses(p) && SitesFit(|code|, links) && ResolveLinks(p, code, links, stack).Ok?
    ensures FilledIn(p, code, links, stack, ResolveLinks(p, code, links, stack).value)
    decreases |links|
  {
    if links != [] {
      var first, rest := links[0], links[1..];
      var b := Resolve(p, first.lib, stack).value;
      ResolvedHasAddress(p, first.lib, stack);
      var patched := Patch(code, first.start, b.address);
      PatchCharacters(code, first, b.address);
      TailFits(|code|, links);
      ResolvedCharacters(p, patched, rest, stack);
      OneSiteMore(p, code, links, stack, patched, ResolveLinks(p, code, links, stack).value);
    }
  }

  lemma OneSiteMore(p: Project, code: string, links: seq<LinkRef>, stack: seq<string>, patched: string, t: string)
    requires links != [] && SitesFit(|code|, links) && Resolve(p, links[0].lib, stack).Ok?
    requires |Resolve(p, links[0].lib, stack).value.address| == 42
    requires patched == Patch(code, links[0].start, Resolve(p, links[0].lib, stack).value.address)
    requires FilledIn(p, patched, links[1..], stack, t)
    ensures FilledIn(p, code, links, stack, t)
  {
    var first := links[0];
    PatchCharacters(code, first, Resolve(p, first.lib, stack).value.address);
    TailFits(|code|, links);
    forall k | Covers(first, k) && 0 <= k < |t| ensures t[k] == patched[k] {
      forall r | r in links[1..] ensures !Covers(r, k) { assert Apart(first, r); }
      assert Outside(links[1..], k);
    }
    forall r | r in links ensures r == first || r in links[1..] { assert links == [first] + links[1..]; }
    forall k | 0 <= k < |t| && Outside(links, k) ensures t[k] == code[k] {
      assert !Covers(first, k);
      assert Outside(links[1..], k);
    }
  }

  // ---- what is built ---------------------------------------------------------------------------------

  /**
   Every built library carries the CREATE2 address of its own creation code, the hash of its own runtime code, its
   artifact and the name it is listed under, and no placeholder is left in its creation code.
   */
  lemma BuiltIs(p: Project, built: map<string, Built>, a: string)
    requires BuiltAll(p) == Some(built) && a in built
    ensures var b := built[a];
            && b.address == p.create2(b.creation) && b.runtimeHash == p.hash(b.runtime)
            && b.artifact == a && a in p.names && b.name == p.names[a]
            && forall i | 2 <= i < |b.creation| - 2 ::
                 !(b.creation[i] == '_' && b.creation[i + 1] == '_' && b.creation[i + 2] == '$')
  {
    var b := built[a];
    assert Resolve(p, a, []) == Ok(b);
    forall i | 2 <= i < |b.creation| - 2
      ensures !(b.creation[i] == '_' && b.creation[i + 1] == '_' && b.creation[i + 2] == '$')
    {
      var creation := b.creation[2..];
      assert !PlaceholderAt(creation, i - 2);
      assert creation[i - 2..i + 1] == [b.creation[i], b.creation[i + 1], b.creation[i + 2]];
    }
  }

  /** The library a link of a built one names is built, and resolves the same from where it is linked. */
  lemma LinkedIsBuilt(p: Project, built: map<string, Built>, a: string, r: LinkRef)
    requires BuiltAll(p) == Some(built) && a in built && r in AllLinks(p, a)
    ensures r.lib in built && Resolve(p, r.lib, [a]) == Ok(built[r.lib])
  {
    assert [] + [a] == [a];
    LinkResolved(p, a, [], r);
    NothingToAvoid(p, r.lib);
    StackDoesNotMatter(p, r.lib, [a], []);
  }

  /** A site of built code: the folded address of the built library the link names, read past its 0x. */
  ghost predicate HoldsAddress(built: map<string, Built>, r: LinkRef, k: int, c: char) {
    && r.lib in built && |built[r.lib].address| == 42
    && (Covers(r, k) ==> c == LowerChar(built[r.lib].address[2 + k - r.start * 2]))
  }

  /**
   The creation code of a built library, character by character: the artifact's outside its sites, and inside each site
   the address of the library that was built for the link.
   */
  lemma BuiltCreation(p: Project, built: map<string, Built>, a: string)
    requires BuiltAll(p) == Some(built) && a in built && GivesAddresses(p) && a in p.out
    requires |p.out[a].creation| >= 2 && SitesFit(|p.out[a].creation| - 2, p.out[a].creationLinks)
    ensures var b, raw := built[a].creation, p.out[a];
            && |b| == |raw.creation| && b[..2] == "0x"
            && (forall r, k | r in raw.creationLinks && Covers(r, k) && 0 <= k < |b| - 2 ::
                  HoldsAddress(built, r, k, b[2 + k]))
            && (forall i | 2 <= i < |b| && Outside(raw.creationLinks, i - 2) :: b[i] == raw.creation[i])
  {
    var raw := p.out[a];
    assert Resolve(p, a, []) == Ok(built[a]) && [] + [a] == [a];
    ResolvedCharacters(p, raw.creation[2..], raw.creationLinks, [a]);
    var t := ResolveLinks(p, raw.creation[2..], raw.creationLinks, [a]).value;
    assert built[a].creation == "0x" + t;
    forall r | r in raw.creationLinks ensures r.lib in built && Resolve(p, r.lib, [a]) == Ok(built[r.lib]) {
      LinkedIsBuilt(p, built, a, r);
    }
    forall r | r in raw.creationLinks ensures |built[r.lib].address| == 42 { ResolvedHasAddress(p, r.lib, [a]); }
  }

  /**
   The runtime code of a built library: the push of its own address first, and after it the deployed code of the
   artifact, folded, with the address of each linked library in its sites.
   */
  lemma BuiltRuntime(p: Project, built: map<string, Built>, a: string)
    requires BuiltAll(p) == Some(built) && a in built && GivesAddresses(p) && a in p.out
    requires |p.out[a].deployed| >= 2 && SitesFit(|p.out[a].deployed| - 2, p.out[a].deployedLinks)
    ensures var b, raw := built[a].runtime, p.out[a];
            && |b| == |raw.deployed| >= 44 && b[..4] == "0x73" && |built[a].address| == 42
            && (forall k | 2 <= k < 42 :: b[2 + k] == LowerChar(built[a].address[k]))
            && (forall r, k | r in raw.deployedLinks && Covers(r, k) && 42 <= k < |b| - 2 ::
                  HoldsAddress(built, r, k, b[2 + k]))
            && (forall i | 44 <= i < |b| && Outside(raw.deployedLinks, i - 2) :: b[i] == LowerChar(raw.deployed[i]))
  {
    var raw := p.out[a];
    assert Resolve(p, a, []) == Ok(built[a]) && [] + [a] == [a];
    ResolvedHasAddress(p, a, []);
    ResolvedCharacters(p, raw.deployed[2..], raw.deployedLinks, [a]);
    var t := ResolveLinks(p, raw.deployed[2..], raw.deployedLinks, [a]).value;
    RuntimeCharacters(t, built[a].address);
    forall r | r in raw.deployedLinks ensures r.lib in built && Resolve(p, r.lib, [a]) == Ok(built[r.lib]) {
      LinkedIsBuilt(p, built, a, r);
    }
    forall r | r in raw.deployedLinks ensures |built[r.lib].address| == 42 { ResolvedHasAddress(p, r.lib, [a]); }
    assert forall c: char :: LowerChar(LowerChar(c)) == LowerChar(c);
  }

  lemma RuntimeCharacters(hex: string, address: string)
    requires StartsWithSelfPush(hex) && |address| == 42
    ensures var b := ExpectedRuntime(hex, address);
            && |b| == |hex| + 2 && b[..4] == "0x73"
            && (forall k | 2 <= k < 42 :: b[2 + k] == LowerChar(address[k]))
            && (forall k | 42 <= k < |hex| :: b[2 + k] == LowerChar(hex[k]))
  {
    assert forall c: char :: LowerChar(LowerChar(c)) == LowerChar(c);
    var folded := Lower(address[2..]);
    assert ExpectedRuntime(hex, address) == Lower("0x73" + folded + hex[42..]);
  }

  // ---- what is refused -------------------------------------------------------------------------------

  /** A placeholder is left exactly when the text can be cut around one. */
  lemma PlaceholderExactlyWhen(s: string)
    ensures HasPlaceholder(s) <==> exists before, after :: s == before + "__$" + after
  {
    if HasPlaceholder(s) {
      var i :| 0 <= i < |s| && PlaceholderAt(s, i);
      assert s == s[..i] + "__$" + s[i + 3..];
    }
    if before, after :| s == before + "__$" + after {
      assert s[|before|..|before| + 3] == "__$";
      assert PlaceholderAt(s, |before|);
    }
  }

  /** Forty zeros, the address of a library before it has one. */
  const NOWHERE := "0000000000000000000000000000000000000000"

  lemma SelfPushExactlyWhen(hex: string)
    ensures StartsWithSelfPush(hex) <==> "73" + NOWHERE <= hex
  {
    assert |NOWHERE| == 40;
    forall i | 0 <= i < 40 ensures NOWHERE[i] == '0' {}
    if StartsWithSelfPush(hex) {
      assert hex[..42] == "73" + NOWHERE;
    }
    if "73" + NOWHERE <= hex {
      assert hex[..42] == "73" + NOWHERE;
      assert hex[..2] == (hex[..42])[..2];
      forall i | 2 <= i < 42 ensures hex[i] == '0' { assert hex[i] == hex[..42][i]; }
    }
  }
}
