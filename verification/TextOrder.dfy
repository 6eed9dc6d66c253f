/** The default sort of text keys: by code unit, shorter first on a common prefix. */
module TextOrder {
  import opened Basics

  predicate Below(a: string, b: string) {
    a == [] || (b != [] && (a[0] < b[0] || (a[0] == b[0] && Below(a[1..], b[1..]))))
  }

  lemma {:induction false} BelowTotal(a: string, b: string)
    ensures Below(a, b) || Below(b, a)
    ensures Below(a, b) && Below(b, a) ==> a == b
  {
    if a != [] && b != [] && a[0] == b[0] {
      BelowTotal(a[1..], b[1..]);
      assert a == [a[0]] + a[1..] && b == [b[0]] + b[1..];
    }
  }

  lemma {:induction false} BelowTransitive(a: string, b: string, c: string)
    requires Below(a, b) && Below(b, c)
    ensures Below(a, c)
  {
    if a != [] && a[0] == b[0] == c[0] {
      BelowTransitive(a[1..], b[1..], c[1..]);
    }
  }

  /** The texts agree up to a place, where the first ends or has the lower code unit. */
  predicate PartAt(a: string, b: string, k: nat) {
    k <= |a| && k <= |b| && a[..k] == b[..k] && (k == |a| || (k < |b| && a[k] < b[k]))
  }

  lemma {:induction false} BelowExactlyWhen(a: string, b: string)
    ensures Below(a, b) <==> exists k :: PartAt(a, b, k)
  {
    if a == [] || b == [] {
      assert a == [] ==> PartAt(a, b, 0);
    } else if a[0] != b[0] {
      assert a[0] < b[0] ==> PartAt(a, b, 0);
      assert forall k | 0 < k <= |a| && k <= |b| :: a[..k][0] != b[..k][0];
    } else {
      BelowExactlyWhen(a[1..], b[1..]);
      forall k: nat | PartAt(a[1..], b[1..], k) ensures PartAt(a, b, k + 1) {
        assert a[..k + 1] == [a[0]] + a[1..][..k] && b[..k + 1] == [b[0]] + b[1..][..k];
      }
      forall k: nat | PartAt(a, b, k) ensures k > 0 && PartAt(a[1..], b[1..], k - 1) {
        assert a[1..][..k - 1] == a[..k][1..] && b[1..][..k - 1] == b[..k][1..];
      }
    }
  }

  predicate Least(s: set<string>, x: string) { x in s && forall y | y in s :: Below(x, y) }

  lemma {:induction false} LeastExists(s: set<string>)
    requires s != {}
    ensures exists x :: Least(s, x)
  {
    var y :| y in s;
    BelowTotal(y, y);
    if s == {y} {
      assert Least(s, y);
    } else {
      LeastExists(s - {y});
      var m :| Least(s - {y}, m);
      BelowTotal(m, y);
      var x := if Below(m, y) then m else y;
      forall z | z in s ensures Below(x, z) {
        if z != y && x == y { BelowTransitive(y, m, z); }
      }
      assert Least(s, x);
    }
  }

  lemma LeastUnique(s: set<string>)
    ensures forall x, y | Least(s, x) && Least(s, y) :: x == y
  {
    forall x, y | Least(s, x) && Least(s, y) ensures x == y { BelowTotal(x, y); }
  }

  /** `[...keys].sort()` of distinct keys. */
  function Sorted(s: set<string>): (r: seq<string>)
    ensures SetOf(r) == s && Distinct(r)
  {
    if s == {} then [] else
      LeastExists(s);
      LeastUnique(s);
      var x :| Least(s, x);
      var rest := Sorted(s - {x});
      assert x !in rest by { assert x !in SetOf(rest); }
      assert SetOf([x] + rest) == {x} + SetOf(rest);
      [x] + rest
  }

  /** The order is the point: the listing is ascending. */
  lemma {:induction false} SortedAscends(s: set<string>, i: int, j: int)
    requires 0 <= i < j < |Sorted(s)|
    ensures Below(Sorted(s)[i], Sorted(s)[j])
    decreases i
  {
    var r := Sorted(s);
    assert r[j] in SetOf(r);
    if i == 0 {
      assert Least(s, r[0]);
    } else {
      SortedAscends(s - {r[0]}, i - 1, j - 1);
      assert r == [r[0]] + Sorted(s - {r[0]});
    }
  }
}
