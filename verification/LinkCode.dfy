/**
 Linking a new implementation to the libraries the live one links: the addresses are read from the live code
 at its link sites, and written into the new creation code at the build's link sites.
 */
module LinkCode {
  import opened Basics
  import opened Linker

  datatype Ref = Ref(lib: string, start: nat, length: nat)

  datatype Refusal = Names(missing: set<string>, extra: set<string>, noCode: bool) | Leftover

  function Strip(x: string): string { if |x| >= 2 && x[..2] == "0x" then x[2..] else x }

  function NamesOf(refs: seq<Ref>): set<string> { set r | r in refs :: r.lib }

  /** The text an address leaves in the code. */
  function SiteText(libraries: map<string, string>, r: Ref): string
    requires r.lib in libraries
  {
    Lower(Strip(libraries[r.lib]))
  }

  function Splice(code: string, r: Ref, text: string): string {
    Slice(code, 0, r.start * 2) + text + Slice(code, (r.start + r.length) * 2, |code|)
  }

  function LinkAll(code: string, refs: seq<Ref>, libraries: map<string, string>): string
    requires forall r | r in refs :: r.lib in libraries
  {
    if refs == [] then code else
      var n := |refs| - 1;
      Splice(LinkAll(code, refs[..n], libraries), refs[n], SiteText(libraries, refs[n]))
  }

  method LinkCreationCode(object_: string, refs: seq<Ref>, libraries: map<string, string>)
    returns (r: Result<string, Refusal>)
    ensures r.Ok? ==> NamesOf(refs) == libraries.Keys && Strip(object_) != ""
    ensures r.Ok? ==> r.value == "0x" + LinkAll(Strip(object_), refs, libraries) && !HasPlaceholder(r.value[2..])
    ensures r.Err? && r.error.Names? ==>
      && r.error.missing == NamesOf(refs) - libraries.Keys && r.error.extra == libraries.Keys - NamesOf(refs)
      && r.error.noCode == (Strip(object_) == "") && (r.error.missing != {} || r.error.extra != {} || r.error.noCode)
    ensures r.Err? && r.error.Leftover? ==>
      NamesOf(refs) == libraries.Keys && HasPlaceholder(LinkAll(Strip(object_), refs, libraries))
  {
    var named := NamesOf(refs);
    var missing, extra := named - libraries.Keys, libraries.Keys - named;
    var code := Strip(object_);
    if missing != {} || extra != {} || code == "" { return Err(Names(missing, extra, code == "")); }
    assert forall x | x in refs :: x.lib in libraries by {
      forall x | x in refs ensures x.lib in libraries { assert x.lib in named && x.lib !in missing; }
    }
    var text := code;
    for i := 0 to |refs|
      invariant text == LinkAll(code, refs[..i], libraries)
    {
      assert refs[..i + 1][..i] == refs[..i];
      text := Splice(text, refs[i], SiteText(libraries, refs[i]));
    }
    assert refs[..|refs|] == refs;
    if HasPlaceholder(text) { return Err(Leftover); }
    r := Ok("0x" + text);
  }

  // ---- sites ---------------------------------------------------------------------------------------

  predicate Covers(r: Ref, k: int) { r.start * 2 <= k < (r.start + 20) * 2 }

  predicate Apart(a: Ref, b: Ref) { a.start + 20 <= b.start || b.start + 20 <= a.start }

  /** 20-byte sites inside the code, pairwise disjoint, each with a 20-byte address to write. */
  ghost predicate GoodSites(size: nat, refs: seq<Ref>, libraries: map<string, string>) {
    && (forall r | r in refs ::
      r.lib in libraries && r.length == 20 && (r.start + 20) * 2 <= size && |SiteText(libraries, r)| == 40)
    && (forall i, j | 0 <= i < j < |refs| :: Apart(refs[i], refs[j]))
  }

  lemma SpliceCharacters(code: string, r: Ref, text: string)
    requires r.length == 20 && (r.start + 20) * 2 <= |code| && |text| == 40
    ensures var t := Splice(code, r, text);
            |t| == |code| && forall k | 0 <= k < |code| :: t[k] == if Covers(r, k) then text[k - r.start * 2]
              else code[k]
  {
  }

  lemma FrontSites(size: nat, refs: seq<Ref>, libraries: map<string, string>)
    requires GoodSites(size, refs, libraries) && refs != []
    ensures var n := |refs| - 1;
            && GoodSites(size, refs[..n], libraries) && refs[n] in refs
            && (forall r | r in refs :: r == refs[n] || r in refs[..n])
            && (forall r | r in refs[..n] :: r in refs && Apart(r, refs[n]))
  {
    var n := |refs| - 1;
    assert refs == refs[..n] + [refs[n]];
    forall r | r in refs[..n] ensures r in refs && Apart(r, refs[n]) {
      var i :| 0 <= i < n && refs[i] == r;
    }
  }

  /** What linking does, site by site: the address inside a site, the old text outside every site. */
  lemma {:induction false} LinkedCharacters(code: string, refs: seq<Ref>, libraries: map<string, string>)
    requires GoodSites(|code|, refs, libraries)
    ensures var t := LinkAll(code, refs, libraries);
            && |t| == |code|
            && (forall r, k | r in refs && Covers(r, k) ::
                  t[k] == Lower(Strip(libraries[r.lib]))[k - r.start * 2])
            && (forall k | 0 <= k < |code| && (forall r | r in refs :: !Covers(r, k)) :: t[k] == code[k])
    decreases |refs|
  {
    if refs != [] {
      var n := |refs| - 1;
      var front, last := refs[..n], refs[n];
      FrontSites(|code|, refs, libraries);
      LinkedCharacters(code, front, libraries);
      SpliceCharacters(LinkAll(code, front, libraries), last, SiteText(libraries, last));
      forall r, k | r in refs &&
        Covers(r, k) ensures LinkAll(code, refs, libraries)[k] == SiteText(libraries, r)[k - r.start * 2] {
        if !Covers(last, k) { assert r in front; } else { assert r == last; }
      }
    }
  }

  /** The order the sites are filled in does not matter. */
  lemma SiteOrderDoesNotMatter(code: string, refs: seq<Ref>, other: seq<Ref>, libraries: map<string, string>)
    requires GoodSites(|code|, refs, libraries) && GoodSites(|code|, other, libraries)
    requires multiset(refs) == multiset(other)
    ensures LinkAll(code, refs, libraries) == LinkAll(code, other, libraries)
  {
    LinkedCharacters(code, refs, libraries);
    LinkedCharacters(code, other, libraries);
    var s, t := LinkAll(code, refs, libraries), LinkAll(code, other, libraries);
    forall r ensures r in refs <==> r in other {
      assert r in refs <==> r in multiset(refs);
      assert r in other <==> r in multiset(other);
    }
    forall k | 0 <= k < |code| ensures s[k] == t[k] {
      if r :| r in refs && Covers(r, k) {
        assert r in other && s[k] == SiteText(libraries, r)[k - r.start * 2];
      }
    }
  }

  /** The twenty bytes at a site, as the verb reads them from live code. */
  function ReadSite(code: string, start: nat): string { Slice(code, start * 2, (start + 20) * 2) }

  lemma SiteReadsBack(code: string, refs: seq<Ref>, libraries: map<string, string>, r: Ref)
    requires GoodSites(|code|, refs, libraries) && r in refs
    ensures ReadSite(LinkAll(code, refs, libraries), r.start) == Lower(Strip(libraries[r.lib]))
  {
    LinkedCharacters(code, refs, libraries);
    var t := LinkAll(code, refs, libraries);
    forall k | 0 <= k < 40 ensures ReadSite(t, r.start)[k] == SiteText(libraries, r)[k] {
      assert Covers(r, r.start * 2 + k);
    }
  }

  /** The libraries the live code links, or the name that reads two addresses. */
  method ReadLibraries(code: string, refs: seq<Ref>) returns (r: Result<map<string, string>, string>)
    ensures r.Ok? ==> r.value.Keys == NamesOf(refs) && forall x | x in refs ::
      r.value[x.lib] == "0x" + Lower(ReadSite(code, x.start))
    ensures r.Err? ==> exists x, y ::
      x in refs && y in refs && x.lib == y.lib == r.error &&
        Lower(ReadSite(code, x.start)) != Lower(ReadSite(code, y.start))
  {
    var libraries := map[];
    for i := 0 to |refs|
      invariant libraries.Keys == NamesOf(refs[..i])
      invariant forall x | x in refs[..i] :: libraries[x.lib] == "0x" + Lower(ReadSite(code, x.start))
    {
      var x := refs[i];
      var at := "0x" + Lower(ReadSite(code, x.start));
      assert refs[..i + 1] == refs[..i] + [x];
      if x.lib in libraries && libraries[x.lib] != at {
        var y :| y in refs[..i] && y.lib == x.lib;
        assert y in refs && x in refs;
        assert libraries[y.lib] == "0x" + Lower(ReadSite(code, y.start));
        return Err(x.lib);
      }
      libraries := libraries[x.lib := at];
    }
    assert refs[..|refs|] == refs;
    r := Ok(libraries);
  }

  predicate PrefixedAddress(a: string) { |a| == 42 && a[..2] == "0x" }

  lemma PrefixFolds(a: string)
    requires PrefixedAddress(a)
    ensures Lower(a) == "0x" + Lower(Strip(a))
  {
    assert a[0] == a[..2][0] && a[1] == a[..2][1];
    assert Strip(a) == a[2..];
  }

  /**
   Link then read back: reading the sites of linked code gives every library the address it was linked with,
   up to letter case, and no library two.
   */
  lemma LinkThenRead(code: string, refs: seq<Ref>, libraries: map<string, string>, x: Ref)
    requires GoodSites(|code|, refs, libraries) && x in refs
    ensures var live := LinkAll(code, refs, libraries);
            && Lower(ReadSite(live, x.start)) == Lower(Strip(libraries[x.lib]))
            && (forall y | y in refs && y.lib == x.lib ::
                  Lower(ReadSite(live, y.start)) == Lower(ReadSite(live, x.start)))
            && (PrefixedAddress(libraries[x.lib]) ==>
                  "0x" + Lower(ReadSite(live, x.start)) == Lower(libraries[x.lib]))
  {
    if PrefixedAddress(libraries[x.lib]) { PrefixFolds(libraries[x.lib]); }
    forall y | y in refs
      ensures Lower(ReadSite(LinkAll(code, refs, libraries), y.start)) == Lower(Strip(libraries[y.lib]))
    {
      SiteReadsBack(code, refs, libraries, y);
      LowerIdempotent(Strip(libraries[y.lib]));
    }
  }
}
