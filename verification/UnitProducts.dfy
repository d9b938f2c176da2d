/** Products of numbers between zero and one. */
module UnitProducts {

  type Unit = r: real | 0.0 <= r <= 1.0

  function Times(x: Unit, y: Unit): (r: Unit)
    ensures r <= x && r <= y
  {
    TimesStaysUnit(x, y);
    x * y
  }

  lemma TimesStaysUnit(x: real, y: real)
    requires 0.0 <= x <= 1.0 && 0.0 <= y <= 1.0
    ensures 0.0 <= x * y && x * y <= x && x * y <= y
  {
  }

  lemma TimesAssociates(x: Unit, y: Unit, z: Unit)
    ensures Times(x, Times(y, z)) == Times(Times(x, y), z)
    ensures Times(x, Times(y, z)) == Times(y, Times(x, z))
  {
  }

  function Product<T>(ts: seq<T>, f: T -> Unit): Unit {
    if ts == [] then 1.0 else Times(f(ts[0]), Product(ts[1..], f))
  }

  lemma {:induction false} ProductConcat<T>(a: seq<T>, b: seq<T>, f: T -> Unit)
    ensures Product(a + b, f) == Times(Product(a, f), Product(b, f))
  {
    if a == [] {
      assert a + b == b;
    } else {
      assert (a + b)[1..] == a[1..] + b;
      ProductConcat(a[1..], b, f);
      TimesAssociates(f(a[0]), Product(a[1..], f), Product(b, f));
    }
  }

  lemma ProductAppend<T>(a: seq<T>, x: T, f: T -> Unit)
    ensures Product(a + [x], f) == Times(Product(a, f), f(x))
  {
    ProductConcat(a, [x], f);
  }

  /** Taking an element from the middle to the front. */
  lemma {:induction false} ProductMovesFront<T>(a: seq<T>, x: T, b: seq<T>, f: T -> Unit)
    ensures Product(a + [x] + b, f) == Times(f(x), Product(a + b, f))
  {
    if a == [] {
      assert a + [x] + b == [x] + b && a + b == b;
    } else {
      assert (a + [x] + b)[1..] == a[1..] + [x] + b && (a + b)[1..] == a[1..] + b;
      ProductMovesFront(a[1..], x, b, f);
      TimesAssociates(f(a[0]), f(x), Product(a[1..] + b, f));
    }
  }

  /** Cutting one occurrence of the head of `a` out of `b`. */
  lemma CutHead<T>(a: seq<T>, b: seq<T>) returns (k: nat)
    requires a != [] && multiset(a) <= multiset(b)
    ensures k < |b| && b[k] == a[0] && b == b[..k] + [a[0]] + b[k + 1..]
    ensures multiset(a[1..]) <= multiset(b[..k] + b[k + 1..])
    ensures multiset(a) == multiset(b) ==> multiset(a[1..]) == multiset(b[..k] + b[k + 1..])
  {
    assert a[0] in multiset(b);
    k :| 0 <= k < |b| && b[k] == a[0];
    var rest := b[..k] + b[k + 1..];
    assert a == [a[0]] + a[1..];
    assert b == b[..k] + [a[0]] + b[k + 1..];
    assert multiset(a) == multiset{a[0]} + multiset(a[1..]);
    assert multiset(b) == multiset{a[0]} + multiset(rest);
    CancelOne(a[0], multiset(a[1..]), multiset(rest));
  }

  lemma CancelOne<T>(x: T, s: multiset<T>, t: multiset<T>)
    ensures multiset{x} + s <= multiset{x} + t ==> s <= t
    ensures multiset{x} + s == multiset{x} + t ==> s == t
  {
    assert (multiset{x} + s) - multiset{x} == s && (multiset{x} + t) - multiset{x} == t;
    if multiset{x} + s <= multiset{x} + t {
      forall y
        ensures s[y] <= t[y]
      {
        assert (multiset{x} + s)[y] <= (multiset{x} + t)[y];
      }
    }
  }

  lemma {:induction false} ProductIgnoresOrder<T>(a: seq<T>, b: seq<T>, f: T -> Unit)
    requires multiset(a) == multiset(b)
    ensures Product(a, f) == Product(b, f)
  {
    if a == [] {
      assert |multiset(b)| == 0;
    } else {
      var k := CutHead(a, b);
      ProductIgnoresOrder(a[1..], b[..k] + b[k + 1..], f);
      ProductMovesFront(b[..k], a[0], b[k + 1..], f);
    }
  }

  /** More factors, smaller product. */
  lemma {:induction false} ProductShrinks<T>(a: seq<T>, b: seq<T>, f: T -> Unit)
    requires multiset(a) <= multiset(b)
    ensures Product(b, f) <= Product(a, f)
  {
    if a == [] {
    } else {
      var k := CutHead(a, b);
      ProductShrinks(a[1..], b[..k] + b[k + 1..], f);
      ProductMovesFront(b[..k], a[0], b[k + 1..], f);
      TimesGrows(f(a[0]), Product(b[..k] + b[k + 1..], f), Product(a[1..], f));
    }
  }

  lemma TimesGrows(x: Unit, y: Unit, z: Unit)
    requires y <= z
    ensures Times(x, y) <= Times(x, z)
  {
    TimesStaysUnit(x, z - y);
    assert x * (z - y) == x * z - x * y;
  }

  lemma {:induction false} ProductAtMostEach<T>(ts: seq<T>, f: T -> Unit)
    ensures forall i :: 0 <= i < |ts| ==> Product(ts, f) <= f(ts[i])
  {
    if ts == [] {
    } else {
      ProductAtMostEach(ts[1..], f);
      forall i | 0 <= i < |ts|
        ensures Product(ts, f) <= f(ts[i])
      {
        assert i > 0 ==> ts[i] == ts[1..][i - 1];
      }
    }
  }

  /** One minus the product of the doubts: the noisy-or of independent verdicts. */
  function NoisyOr<T>(ts: seq<T>, f: T -> Unit): Unit {
    1.0 - Product(ts, f)
  }

  lemma NoisyOrOfConcat<T>(a: seq<T>, b: seq<T>, f: T -> Unit)
    ensures NoisyOr(a + b, f) == 1.0 - Times(1.0 - NoisyOr(a, f), 1.0 - NoisyOr(b, f))
    ensures NoisyOr(a + b, f) >= NoisyOr(a, f) && NoisyOr(a + b, f) >= NoisyOr(b, f)
  {
    ProductConcat(a, b, f);
  }

  function Sum<T>(ts: seq<T>, f: T -> Unit): real {
    if ts == [] then 0.0 else 1.0 - f(ts[0]) + Sum(ts[1..], f)
  }

  lemma {:induction false} NoisyOrAtMostSum<T>(ts: seq<T>, f: T -> Unit)
    ensures NoisyOr(ts, f) <= Sum(ts, f)
  {
    if ts == [] {
    } else {
      NoisyOrAtMostSum(ts[1..], f);
      UnionBound(f(ts[0]), Product(ts[1..], f));
    }
  }

  lemma UnionBound(d: Unit, p: Unit)
    ensures 1.0 - Times(d, p) <= (1.0 - d) + (1.0 - p)
  {
    assert (1.0 - d) * (1.0 - p) == 1.0 - d - p + d * p;
    TimesStaysUnit(1.0 - d, 1.0 - p);
  }
}
