/** What Go's `sort.Slice` promises: the same elements, in order. It is not stable, so nothing is said
    about the order of equal elements. */
module Sorting {

  ghost predicate Sorted<T(!new)>(s: seq<T>, leq: (T, T) -> bool) {
    forall i, j :: 0 <= i < j < |s| ==> leq(s[i], s[j])
  }

  ghost predicate TotalOrder<T(!new)>(leq: (T, T) -> bool) {
    && (forall x, y :: leq(x, y) || leq(y, x))
    && (forall x, y, z :: leq(x, y) && leq(y, z) ==> leq(x, z))
  }

  function Insert<T>(x: T, s: seq<T>, leq: (T, T) -> bool): seq<T> {
    if s == [] then [x]
    else if leq(x, s[0]) then [x] + s
    else [s[0]] + Insert(x, s[1..], leq)
  }

  lemma {:induction false} InsertAdds<T>(x: T, s: seq<T>, leq: (T, T) -> bool)
    ensures multiset(Insert(x, s, leq)) == multiset(s) + multiset{x}
  {
    if s == [] || leq(x, s[0]) {
    } else {
      InsertAdds(x, s[1..], leq);
      assert s == [s[0]] + s[1..];
    }
  }

  ghost predicate Below<T(!new)>(x: T, s: seq<T>, leq: (T, T) -> bool) {
    forall y :: y in s ==> leq(x, y)
  }

  lemma SortedCons<T(!new)>(x: T, s: seq<T>, leq: (T, T) -> bool)
    ensures Sorted([x] + s, leq) <==> Sorted(s, leq) && Below(x, s, leq)
  {
    var r := [x] + s;
    if Sorted(r, leq) {
      forall i, j | 0 <= i < j < |s|
        ensures leq(s[i], s[j])
      {
        assert leq(r[i + 1], r[j + 1]);
      }
      forall y | y in s
        ensures leq(x, y)
      {
        var j :| 0 <= j < |s| && s[j] == y;
        assert leq(r[0], r[j + 1]);
      }
    }
  }

  lemma {:induction false} InsertSorts<T(!new)>(x: T, s: seq<T>, leq: (T, T) -> bool)
    requires TotalOrder(leq) && Sorted(s, leq)
    ensures Sorted(Insert(x, s, leq), leq)
  {
    if s == [] {
    } else {
      assert s == [s[0]] + s[1..];
      SortedCons(s[0], s[1..], leq);
      if leq(x, s[0]) {
        assert Below(x, s, leq) by {
          forall y | y in s
            ensures leq(x, y)
          {
            if y != s[0] {
              assert leq(s[0], y);
            }
          }
        }
        SortedCons(x, s, leq);
      } else {
        InsertSorts(x, s[1..], leq);
        InsertAdds(x, s[1..], leq);
        var r := Insert(x, s[1..], leq);
        forall y | y in r
          ensures leq(s[0], y)
        {
          assert y in multiset(r);
        }
        SortedCons(s[0], r, leq);
      }
    }
  }

  /** Any order of the same elements that `leq` allows; this body picks one of them. */
  method SortSlice<T(!new)>(s: seq<T>, leq: (T, T) -> bool) returns (r: seq<T>)
    requires TotalOrder(leq)
    ensures multiset(r) == multiset(s) && Sorted(r, leq)
  {
    r := [];
    for i := 0 to |s|
      invariant multiset(r) == multiset(s[..i]) && Sorted(r, leq)
    {
      InsertSorts(s[i], r, leq);
      InsertAdds(s[i], r, leq);
      assert s[..i + 1] == s[..i] + [s[i]];
      r := Insert(s[i], r, leq);
    }
    assert s[..|s|] == s;
  }

  /** Go's `<=` on strings. */
  predicate StringLeq(a: string, b: string) {
    a == [] || (b != [] && (a[0] < b[0] || (a[0] == b[0] && StringLeq(a[1..], b[1..]))))
  }

  lemma {:induction false} StringLeqTotal(a: string, b: string)
    ensures StringLeq(a, b) || StringLeq(b, a)
  {
    if a == [] || b == [] {
    } else {
      StringLeqTotal(a[1..], b[1..]);
    }
  }

  lemma {:induction false} StringLeqTransitive(a: string, b: string, c: string)
    requires StringLeq(a, b) && StringLeq(b, c)
    ensures StringLeq(a, c)
  {
    if a != [] && a[0] == b[0] == c[0] {
      StringLeqTransitive(a[1..], b[1..], c[1..]);
    }
  }

  lemma StringLeqOrders()
    ensures TotalOrder(StringLeq)
  {
    forall x, y
      ensures StringLeq(x, y) || StringLeq(y, x)
    {
      StringLeqTotal(x, y);
    }
    forall x, y, z | StringLeq(x, y) && StringLeq(y, z)
      ensures StringLeq(x, z)
    {
      StringLeqTransitive(x, y, z);
    }
  }
}
