/** Byte-wise string order, as Go's `<` and SQLite's default collation use it, and sorting by it. */
module Lexicographic {
  predicate Le(a: string, b: string) {
    a == [] || (b != [] && (a[0] < b[0] || (a[0] == b[0] && Le(a[1..], b[1..]))))
  }

  predicate Less(a: string, b: string) {
    Le(a, b) && a != b
  }

  lemma {:induction false} Total(a: string, b: string)
    ensures Le(a, b) || Le(b, a)
    ensures Le(a, b) && Le(b, a) ==> a == b
  {
    if a != [] && b != [] {
      Total(a[1..], b[1..]);
      assert a == [a[0]] + a[1..] && b == [b[0]] + b[1..];
    }
  }

  lemma {:induction false} Transitive(a: string, b: string, c: string)
    requires Le(a, b) && Le(b, c)
    ensures Le(a, c)
  {
    if a != [] && b != [] && c != [] && a[0] == b[0] == c[0] {
      Transitive(a[1..], b[1..], c[1..]);
    }
  }

  /** Strings of equal-length parts compare part by part. */
  lemma {:induction false} ConcatOrder(a: string, b: string, x: string, y: string)
    requires |a| == |b|
    ensures Le(a + x, b + y) <==> if a == b then Le(x, y) else Le(a, b)
  {
    if a == [] {
      assert a + x == x && b + y == y;
    } else {
      assert (a + x)[1..] == a[1..] + x && (b + y)[1..] == b[1..] + y;
      assert a == [a[0]] + a[1..] && b == [b[0]] + b[1..];
      ConcatOrder(a[1..], b[1..], x, y);
    }
  }

  // `k` is the first place where the two differ, and `a` has the smaller character there.
  predicate SmallerAt(a: string, b: string, k: nat) {
    k < |a| && k < |b| && a[..k] == b[..k] && a[k] < b[k]
  }

  /** What the order is: a prefix comes first, otherwise the first difference decides. */
  lemma {:induction false} LeIff(a: string, b: string)
    ensures Le(a, b) <==> a <= b || exists k: nat :: SmallerAt(a, b, k)
  {
    if a != [] && b != [] {
      LeIff(a[1..], b[1..]);
      assert a == [a[0]] + a[1..] && b == [b[0]] + b[1..];
      if a[0] == b[0] {
        if k: nat :| SmallerAt(a[1..], b[1..], k) {
          assert a[..k + 1] == [a[0]] + a[1..][..k] && b[..k + 1] == [b[0]] + b[1..][..k];
          assert SmallerAt(a, b, k + 1);
        }
        if k: nat :| SmallerAt(a, b, k) {
          assert k > 0 && a[1..][..k - 1] == a[..k][1..] && b[1..][..k - 1] == b[..k][1..];
          assert SmallerAt(a[1..], b[1..], k - 1);
        }
      } else {
        assert forall k: nat :: SmallerAt(a, b, k) ==> k == 0 by {
          assert forall k: nat :: SmallerAt(a, b, k) && k > 0 ==> a[..k][0] == b[..k][0];
        }
        if a[0] < b[0] {
          assert SmallerAt(a, b, 0);
        }
      }
    }
  }

  predicate Sorted(q: seq<string>) {
    forall i, j :: 0 <= i < j < |q| ==> Le(q[i], q[j])
  }

  method InsertSorted(q: seq<string>, s: string) returns (r: seq<string>)
    requires Sorted(q)
    ensures Sorted(r) && multiset(r) == multiset(q) + multiset{s}
  {
    var i := 0;
    while i < |q| && Le(q[i], s)
      invariant i <= |q| && forall k :: 0 <= k < i ==> Le(q[k], s)
    {
      i := i + 1;
    }
    r := q[..i] + [s] + q[i..];
    assert q == q[..i] + q[i..];
    forall k | i <= k < |q|
      ensures Le(s, q[k])
    {
      Total(s, q[i]);
      if i < k {
        Transitive(s, q[i], q[k]);
      }
    }
  }

  // sort.Strings.
  method Sort(q: seq<string>) returns (r: seq<string>)
    ensures Sorted(r) && multiset(r) == multiset(q)
  {
    r := [];
    for i := 0 to |q|
      invariant Sorted(r) && multiset(r) == multiset(q[..i])
    {
      r := InsertSorted(r, q[i]);
      assert q[..i + 1] == q[..i] + [q[i]];
    }
    assert q[..|q|] == q;
  }
}
