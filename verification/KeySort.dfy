/** The stable sort by a numeric key, and what it does to a list whose keys are 1 to n in some order. */
module KeySort {
  import opened Basics

  function KeysOf<T>(s: seq<T>, key: T -> int): (r: seq<int>)
    ensures |r| == |s| && forall i | 0 <= i < |s| :: r[i] == key(s[i])
  {
    seq(|s|, i requires 0 <= i < |s| => key(s[i]))
  }

  predicate NotLater<T>(a: T, b: T, key: T -> int) { key(a) <= key(b) }

  predicate Ascending<T>(s: seq<T>, key: T -> int) { forall i, j | 0 <= i < j < |s| :: NotLater(s[i], s[j], key) }

  function Insert<T>(e: T, s: seq<T>, key: T -> int): seq<T> {
    if s == [] || NotLater(e, s[0], key) then [e] + s else [s[0]] + Insert(e, s[1..], key)
  }

  function SortBy<T>(s: seq<T>, key: T -> int): seq<T> {
    if s == [] then [] else Insert(s[0], SortBy(s[1..], key), key)
  }

  lemma {:induction false} InsertAdds<T>(e: T, s: seq<T>, key: T -> int)
    ensures multiset(Insert(e, s, key)) == multiset(s) + multiset{e} && |Insert(e, s, key)| == |s| + 1
  {
    if !(s == [] || NotLater(e, s[0], key)) {
      InsertAdds(e, s[1..], key);
      assert s == [s[0]] + s[1..];
    }
  }

  lemma {:induction false} InsertAscends<T>(e: T, s: seq<T>, key: T -> int)
    requires Ascending(s, key)
    ensures Ascending(Insert(e, s, key), key)
  {
    if !(s == [] || NotLater(e, s[0], key)) {
      InsertAscends(e, s[1..], key);
      InsertAdds(e, s[1..], key);
      var rest := Insert(e, s[1..], key);
      forall j | 0 <= j < |rest| ensures NotLater(s[0], rest[j], key) {
        assert rest[j] in multiset(rest);
        if rest[j] != e {
          assert rest[j] in multiset(s[1..]);
          var k :| 0 <= k < |s[1..]| && s[1..][k] == rest[j];
          assert NotLater(s[0], s[k + 1], key);
        }
      }
    }
  }

  /** The sorted list is a permutation in ascending order. */
  lemma {:induction false} SortKeeps<T>(s: seq<T>, key: T -> int)
    ensures multiset(SortBy(s, key)) == multiset(s) && |SortBy(s, key)| == |s| && Ascending(SortBy(s, key), key)
  {
    if s != [] {
      SortKeeps(s[1..], key);
      InsertAdds(s[0], SortBy(s[1..], key), key);
      InsertAscends(s[0], SortBy(s[1..], key), key);
      assert s == [s[0]] + s[1..];
    }
  }

  lemma SortHolds<T>(s: seq<T>, key: T -> int)
    ensures |SortBy(s, key)| == |s| && forall x :: x in s <==> x in SortBy(s, key)
  {
    SortKeeps(s, key);
    forall x ensures x in s <==> x in SortBy(s, key) {
      assert x in s <==> x in multiset(s);
      assert x in SortBy(s, key) <==> x in multiset(SortBy(s, key));
    }
  }

  lemma {:induction false} AtLeastItsPlace(r: seq<int>, k: nat)
    requires k < |r| && Distinct(r) && forall i | 0 <= i < |r| :: 1 <= r[i] <= |r|
    requires forall i, j | 0 <= i < j < |r| :: r[i] <= r[j]
    ensures r[k] >= k + 1
  {
    if k > 0 {
      AtLeastItsPlace(r, k - 1);
      assert r[k - 1] != r[k];
    }
  }

  lemma {:induction false} AtMostItsPlace(r: seq<int>, k: nat)
    requires k < |r| && Distinct(r) && forall i | 0 <= i < |r| :: 1 <= r[i] <= |r|
    requires forall i, j | 0 <= i < j < |r| :: r[i] <= r[j]
    ensures r[k] <= k + 1
    decreases |r| - k
  {
    if k < |r| - 1 {
      AtMostItsPlace(r, k + 1);
      assert r[k] != r[k + 1];
    }
  }

  lemma KeysWithin<T>(a: seq<T>, b: seq<T>, key: T -> int)
    requires forall x | x in a :: x in b
    ensures forall r | r in KeysOf(a, key) :: r in KeysOf(b, key)
  {
    forall r | r in KeysOf(a, key) ensures r in KeysOf(b, key) {
      var i :| 0 <= i < |a| && KeysOf(a, key)[i] == r;
      assert a[i] in b;
      var j :| 0 <= j < |b| && b[j] == a[i];
      assert KeysOf(b, key)[j] == r;
    }
  }

  /** A list with the same elements, as many, repeats a key exactly when the other does. */
  lemma SameElementsSameRepeats<T>(a: seq<T>, b: seq<T>, key: T -> int)
    requires |a| == |b| && forall x :: x in a <==> x in b
    ensures Distinct(KeysOf(a, key)) <==> Distinct(KeysOf(b, key))
  {
    SetOfSize(KeysOf(a, key));
    SetOfSize(KeysOf(b, key));
    KeysWithin(a, b, key);
    KeysWithin(b, a, key);
    assert SetOf(KeysOf(a, key)) == SetOf(KeysOf(b, key));
  }

  /** The keys are 1 to n, none twice. */
  predicate Numbered<T(==)>(s: seq<T>, key: T -> int) {
    Distinct(KeysOf(s, key)) && forall e | e in s :: 1 <= key(e) <= |s|
  }

  /** Sorting puts key k in place k - 1 exactly when the keys are 1 to n, none twice. */
  lemma SortFills<T>(s: seq<T>, key: T -> int)
    ensures |SortBy(s, key)| == |s|
    ensures Numbered(s, key) <==> forall k | 0 <= k < |s| :: key(SortBy(s, key)[k]) == k + 1
  {
    var sorted := SortBy(s, key);
    SortKeeps(s, key);
    SortHolds(s, key);
    SameElementsSameRepeats(sorted, s, key);
    var r := KeysOf(sorted, key);
    if Numbered(s, key) {
      forall i, j | 0 <= i < j < |r| ensures r[i] <= r[j] { assert NotLater(sorted[i], sorted[j], key); }
      forall i | 0 <= i < |r| ensures 1 <= r[i] <= |r| { assert sorted[i] in sorted; }
      forall k | 0 <= k < |s| ensures key(sorted[k]) == k + 1 { AtLeastItsPlace(r, k); AtMostItsPlace(r, k); }
    }
    if forall k | 0 <= k < |s| :: key(sorted[k]) == k + 1 {
      forall i, j | 0 <= i < j < |r| ensures r[i] != r[j] { assert key(sorted[i]) == i + 1 && key(sorted[j]) == j + 1; }
      forall e | e in s ensures 1 <= key(e) <= |s| {
        assert e in sorted;
        var k :| 0 <= k < |sorted| && sorted[k] == e;
      }
    }
  }
}
