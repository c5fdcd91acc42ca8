/**
 * Orders and collections the Rust code gets from its standard library: `Ord for String`
 * (lexicographic by character), the ascending iteration order of `BTreeSet`/`BTreeMap`, and
 * keeping only the first occurrence of each element of a list.
 */
module Ordering {

  /** `a <= b` for Rust strings: lexicographic by character (code-point order, which UTF-8 byte order agrees with). */
  predicate LessEq(a: string, b: string) {
    a == [] || (b != [] && (a[0] < b[0] || (a[0] == b[0] && LessEq(a[1..], b[1..]))))
  }

  lemma {:induction false} LessEqReflexive(a: string)
    ensures LessEq(a, a)
  {
    if a != [] {
      LessEqReflexive(a[1..]);
    }
  }

  lemma {:induction false} LessEqAntisymmetric(a: string, b: string)
    ensures LessEq(a, b) && LessEq(b, a) ==> a == b
  {
    if a != [] && b != [] && a[0] == b[0] {
      LessEqAntisymmetric(a[1..], b[1..]);
      assert a == [a[0]] + a[1..] && b == [b[0]] + b[1..];
    }
  }

  lemma {:induction false} LessEqTransitive(a: string, b: string, c: string)
    ensures LessEq(a, b) && LessEq(b, c) ==> LessEq(a, c)
  {
    if a != [] && b != [] && c != [] {
      LessEqTransitive(a[1..], b[1..], c[1..]);
    }
  }

  lemma {:induction false} LessEqTotal(a: string, b: string)
    ensures LessEq(a, b) || LessEq(b, a)
  {
    if a != [] && b != [] && a[0] == b[0] {
      LessEqTotal(a[1..], b[1..]);
    }
  }

  /** `m` is the least element of `s`. */
  predicate IsLeast(m: string, s: set<string>) {
    m in s && forall y :: y in s ==> LessEq(m, y)
  }

  /** Every non-empty finite set of strings has a least element. */
  lemma {:induction false} MinimumExists(s: set<string>)
    requires s != {}
    ensures exists m :: IsLeast(m, s)
    decreases |s|
  {
    var x :| x in s;
    var rest := s - {x};
    if rest == {} {
      LessEqReflexive(x);
      assert s == {x};
      assert IsLeast(x, s);
    } else {
      MinimumExists(rest);
      var m :| IsLeast(m, rest);
      LessEqTotal(m, x);
      if LessEq(m, x) {
        assert IsLeast(m, s);
      } else {
        LessEqReflexive(x);
        forall y | y in s ensures LessEq(x, y) {
          if y != x {
            assert y in rest;
            LessEqTransitive(x, m, y);
          }
        }
        assert IsLeast(x, s);
      }
    }
  }

  lemma LeastIsUnique(s: set<string>, m: string, m': string)
    ensures IsLeast(m, s) && IsLeast(m', s) ==> m == m'
  {
    LessEqAntisymmetric(m, m');
  }

  /** The least element of a non-empty set of strings (the first one a `BTreeSet` yields). */
  function Minimum(s: set<string>): (m: string)
    requires s != {}
    ensures IsLeast(m, s)
  {
    MinimumExists(s);
    var m :| IsLeast(m, s);
    forall m' ensures IsLeast(m', s) ==> m' == m {
      LeastIsUnique(s, m, m');
    }
    m
  }

  predicate Sorted(xs: seq<string>) {
    forall i, j :: 0 <= i < j < |xs| ==> LessEq(xs[i], xs[j])
  }

  predicate Distinct<T(==)>(xs: seq<T>) {
    forall i, j :: 0 <= i < j < |xs| ==> xs[i] != xs[j]
  }

  lemma SortedCons(m: string, rest: seq<string>)
    requires Sorted(rest) && Distinct(rest) && m !in rest
    requires forall y :: y in rest ==> LessEq(m, y)
    ensures Sorted([m] + rest) && Distinct([m] + rest)
  {
    var r := [m] + rest;
    forall i, j | 0 <= i < j < |r| ensures LessEq(r[i], r[j]) && r[i] != r[j] {
      assert r[j] == rest[j - 1];
      if i > 0 {
        assert r[i] == rest[i - 1];
      }
    }
  }

  /** The elements of a `BTreeSet<String>` (or the keys of a `BTreeMap`) in iteration order: ascending. */
  function SortedElements(s: set<string>): (r: seq<string>)
    ensures |r| == |s| && (forall x :: x in r <==> x in s)
    decreases |s|
  {
    if s == {} then []
    else
      var m := Minimum(s);
      [m] + SortedElements(s - {m})
  }

  /** The elements come out in ascending order, each once. */
  lemma {:induction false} SortedElementsOrdered(s: set<string>)
    ensures Sorted(SortedElements(s)) && Distinct(SortedElements(s))
    decreases |s|
  {
    if s != {} {
      var m := Minimum(s);
      SortedElementsOrdered(s - {m});
      SortedCons(m, SortedElements(s - {m}));
    }
  }

  /** Keeps the elements of `xs` not seen before, remembering each kept one as seen. */
  function DedupFrom<T(==,!new)>(xs: seq<T>, seen: set<T>): seq<T> {
    if xs == [] then []
    else if xs[0] in seen then DedupFrom(xs[1..], seen)
    else [xs[0]] + DedupFrom(xs[1..], seen + {xs[0]})
  }

  lemma {:induction false} DedupFromFacts<T(!new)>(xs: seq<T>, seen: set<T>)
    ensures Distinct(DedupFrom(xs, seen))
    ensures forall x :: x in DedupFrom(xs, seen) <==> x in xs && x !in seen
  {
    if xs != [] {
      if xs[0] in seen {
        DedupFromFacts(xs[1..], seen);
        assert forall x :: x in xs <==> x == xs[0] || x in xs[1..];
      } else {
        DedupFromFacts(xs[1..], seen + {xs[0]});
        var rest := DedupFrom(xs[1..], seen + {xs[0]});
        var r := [xs[0]] + rest;
        assert forall x :: x in xs <==> x == xs[0] || x in xs[1..];
        forall i, j | 0 <= i < j < |r| ensures r[i] != r[j] {
          assert r[j] == rest[j - 1];
          if i > 0 {
            assert r[i] == rest[i - 1];
          }
        }
      }
    }
  }

  /** Keeps the first occurrence of every element, in order. */
  function Dedup<T(==,!new)>(xs: seq<T>): (r: seq<T>)
    ensures Distinct(r) && forall x :: x in r <==> x in xs
  {
    DedupFromFacts(xs, {});
    DedupFrom(xs, {})
  }

  lemma DedupFromStep<T(!new)>(xs: seq<T>, seen: set<T>)
    requires xs != []
    ensures DedupFrom(xs, seen) == if xs[0] in seen then DedupFrom(xs[1..], seen) else [xs[0]] + DedupFrom(xs[1..], seen + {xs[0]})
  {
  }

  lemma DedupOfPair<T(!new)>(a: T, b: T)
    ensures Dedup([a, b]) == if a == b then [a] else [a, b]
  {
    assert [a, b][1..] == [b];
    assert [b][1..] == [];
    assert DedupFrom([], {a}) == [] && DedupFrom([], {a} + {b}) == [];
    assert DedupFrom([b], {a}) == if a == b then [] else [b];
    assert {} + {a} == {a};
    assert Dedup([a, b]) == [a] + DedupFrom([b], {a});
  }

  /** A list that is already free of repetitions is kept as it is. */
  lemma {:induction false} DedupOfDistinct<T(!new)>(xs: seq<T>, seen: set<T>)
    requires Distinct(xs) && forall x :: x in xs ==> x !in seen
    ensures DedupFrom(xs, seen) == xs
  {
    if xs != [] {
      assert forall x :: x in xs[1..] ==> x !in seen + {xs[0]};
      DedupOfDistinct(xs[1..], seen + {xs[0]});
    }
  }

  /** Keeps the elements satisfying `p`, in order (`Iterator::filter`). */
  function Filter<T(!new)>(xs: seq<T>, p: T -> bool): (r: seq<T>)
    ensures |r| <= |xs|
    ensures forall x :: x in r <==> x in xs && p(x)
  {
    if xs == [] then []
    else if p(xs[0]) then [xs[0]] + Filter(xs[1..], p)
    else Filter(xs[1..], p)
  }

  /** Applies `f` to every element, in order (`Iterator::map`). */
  function Map<T, U>(xs: seq<T>, f: T -> U): (r: seq<U>)
    ensures |r| == |xs| && forall k :: 0 <= k < |xs| ==> r[k] == f(xs[k])
  {
    if xs == [] then [] else [f(xs[0])] + Map(xs[1..], f)
  }

  /** Filtering works element by element, so it distributes over concatenation. */
  lemma {:induction false} FilterAppend<T(!new)>(a: seq<T>, b: seq<T>, p: T -> bool)
    ensures Filter(a + b, p) == Filter(a, p) + Filter(b, p)
  {
    if a == [] {
      assert a + b == b;
    } else {
      assert (a + b)[0] == a[0];
      assert (a + b)[1..] == a[1..] + b;
      FilterAppend(a[1..], b, p);
      var x, y, z := Filter(a[1..], p), Filter(b, p), Filter(a[1..] + b, p);
      assert z == x + y;
      if p(a[0]) {
        assert Filter(a, p) == [a[0]] + x;
        assert Filter(a + b, p) == [a[0]] + z;
        assert [a[0]] + (x + y) == ([a[0]] + x) + y;
      } else {
        assert Filter(a, p) == x;
        assert Filter(a + b, p) == z;
      }
    }
  }

  /** Mapping distributes over concatenation. */
  lemma MapAppend<T, U>(a: seq<T>, b: seq<T>, f: T -> U)
    ensures Map(a + b, f) == Map(a, f) + Map(b, f)
  {
    var l := Map(a + b, f);
    var r := Map(a, f) + Map(b, f);
    assert |l| == |r|;
    forall k | 0 <= k < |l| ensures l[k] == r[k] {
      if k < |a| {
        assert (a + b)[k] == a[k];
      } else {
        assert (a + b)[k] == b[k - |a|];
      }
    }
  }
}
