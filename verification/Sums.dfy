/** Sums over sequences: what an iterator's `filter`, `map` and `sum` add up to. */
module Sums {
  function Sum<T>(f: T -> int, s: seq<T>): int {
    if s == [] then 0 else f(s[0]) + Sum(f, s[1..])
  }

  function SumReal<T>(f: T -> real, s: seq<T>): real {
    if s == [] then 0.0 else f(s[0]) + SumReal(f, s[1..])
  }

  function Any<T>(p: T -> bool, s: seq<T>): bool {
    s != [] && (p(s[0]) || Any(p, s[1..]))
  }

  lemma SumOfOne<T>(f: T -> int, a: T)
    ensures Sum(f, [a]) == f(a)
  {
    assert [a][1..] == [];
  }

  lemma SumOfTwo<T>(f: T -> int, a: T, b: T)
    ensures Sum(f, [a, b]) == f(a) + f(b)
  {
    assert [a, b][1..] == [b] && [b][1..] == [];
    assert Sum(f, [b]) == f(b) + Sum(f, []);
  }

  lemma {:induction false} AnyIsExists<T>(p: T -> bool, s: seq<T>)
    ensures Any(p, s) <==> exists x :: x in s && p(x)
  {
    if s != [] {
      AnyIsExists(p, s[1..]);
      assert s == [s[0]] + s[1..];
    }
  }

  lemma {:induction false} SumSame<T>(f: T -> int, g: T -> int, s: seq<T>)
    requires forall x :: x in s ==> f(x) == g(x)
    ensures Sum(f, s) == Sum(g, s)
  {
    if s != [] {
      assert s[0] in s && forall x :: x in s[1..] ==> x in s;
      SumSame(f, g, s[1..]);
    }
  }

  lemma {:induction false} SumAdd<T>(f: T -> int, g: T -> int, h: T -> int, s: seq<T>)
    requires forall x :: x in s ==> f(x) == g(x) + h(x)
    ensures Sum(f, s) == Sum(g, s) + Sum(h, s)
  {
    if s != [] {
      assert s[0] in s && forall x :: x in s[1..] ==> x in s;
      SumAdd(f, g, h, s[1..]);
    }
  }

  lemma {:induction false} SumNonNegative<T>(f: T -> int, s: seq<T>)
    requires forall x :: x in s ==> f(x) >= 0
    ensures Sum(f, s) >= 0
  {
    if s != [] {
      assert s[0] in s && forall x :: x in s[1..] ==> x in s;
      SumNonNegative(f, s[1..]);
    }
  }

  lemma {:induction false} SumZero<T>(f: T -> int, s: seq<T>)
    requires forall x :: x in s ==> f(x) == 0
    ensures Sum(f, s) == 0
  {
    if s != [] {
      assert s[0] in s && forall x :: x in s[1..] ==> x in s;
      SumZero(f, s[1..]);
    }
  }

  lemma {:induction false} SumScale<T>(f: T -> int, g: T -> int, k: int, s: seq<T>)
    requires forall x :: x in s ==> f(x) == k * g(x)
    ensures Sum(f, s) == k * Sum(g, s)
  {
    if s != [] {
      assert s[0] in s && forall x :: x in s[1..] ==> x in s;
      SumScale(f, g, k, s[1..]);
      Distributes(k, g(s[0]), Sum(g, s[1..]));
    }
  }

  lemma Distributes(k: int, a: int, b: int)
    ensures k * (a + b) == k * a + k * b
  {
  }

  // ---- Order does not matter ----

  function Without<T>(s: seq<T>, i: nat): seq<T>
    requires i < |s|
  {
    s[..i] + s[i + 1..]
  }

  lemma {:induction false} SumWithout<T>(f: T -> int, s: seq<T>, i: nat)
    requires i < |s|
    ensures Sum(f, s) == f(s[i]) + Sum(f, Without(s, i))
  {
    if i == 0 {
      assert Without(s, i) == s[1..];
    } else {
      SumWithout(f, s[1..], i - 1);
      assert Without(s, i)[1..] == Without(s[1..], i - 1);
    }
  }

  lemma {:induction false} SumRealWithout<T>(f: T -> real, s: seq<T>, i: nat)
    requires i < |s|
    ensures SumReal(f, s) == f(s[i]) + SumReal(f, Without(s, i))
  {
    if i == 0 {
      assert Without(s, i) == s[1..];
    } else {
      SumRealWithout(f, s[1..], i - 1);
      assert Without(s, i)[1..] == Without(s[1..], i - 1);
    }
  }

  lemma MultisetWithout<T>(s: seq<T>, i: nat)
    requires i < |s|
    ensures multiset(s) == multiset{s[i]} + multiset(Without(s, i))
  {
    assert s == s[..i] + ([s[i]] + s[i + 1..]);
  }

  lemma Reordered<T>(s: seq<T>, t: seq<T>) returns (i: nat)
    requires multiset(s) == multiset(t) && s != []
    ensures i < |t| && t[i] == s[0] && multiset(s[1..]) == multiset(Without(t, i))
  {
    assert s[0] in multiset(s);
    assert s[0] in t;
    i :| i < |t| && t[i] == s[0];
    MultisetWithout(t, i);
    MultisetWithout(s, 0);
    assert Without(s, 0) == s[1..];
    assert multiset(s[1..]) == multiset(s) - multiset{s[0]};
  }

  lemma {:induction false} SumReordered<T>(f: T -> int, s: seq<T>, t: seq<T>)
    requires multiset(s) == multiset(t)
    ensures Sum(f, s) == Sum(f, t)
  {
    if s == [] {
      assert |multiset(t)| == |t|;
    } else {
      var i := Reordered(s, t);
      SumWithout(f, t, i);
      SumReordered(f, s[1..], Without(t, i));
    }
  }

  lemma {:induction false} SumRealReordered<T>(f: T -> real, s: seq<T>, t: seq<T>)
    requires multiset(s) == multiset(t)
    ensures SumReal(f, s) == SumReal(f, t)
  {
    if s == [] {
      assert |multiset(t)| == |t|;
    } else {
      var i := Reordered(s, t);
      SumRealWithout(f, t, i);
      SumRealReordered(f, s[1..], Without(t, i));
    }
  }

  lemma AnyReordered<T>(p: T -> bool, s: seq<T>, t: seq<T>)
    requires multiset(s) == multiset(t)
    ensures Any(p, s) == Any(p, t)
  {
    AnyIsExists(p, s);
    AnyIsExists(p, t);
    assert forall x :: x in s <==> x in multiset(s);
    assert forall x :: x in t <==> x in multiset(t);
  }
}
