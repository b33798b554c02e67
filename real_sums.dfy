/** Sums of reals: over a sequence in order (Python's `sum` and NumPy reductions), and over a
    set, where no order exists. The lemmas show the two agree, so an order of iteration never
    changes a total. */
module RealSums {

  /** The sum of a sequence, left to right. */
  function Sum(s: seq<real>): real
  {
    if s == [] then 0.0 else Sum(s[..|s| - 1]) + s[|s| - 1]
  }

  lemma {:induction false} SumAppend(s: seq<real>, t: seq<real>)
    ensures Sum(s + t) == Sum(s) + Sum(t)
    decreases |t|
  {
    if t == [] {
      assert s + t == s;
    } else {
      assert (s + t)[..|s + t| - 1] == s + t[..|t| - 1];
      SumAppend(s, t[..|t| - 1]);
    }
  }

  lemma {:induction false} SumFirst(s: seq<real>)
    requires s != []
    ensures Sum(s) == s[0] + Sum(s[1..])
  {
    assert s == [s[0]] + s[1..];
    SumAppend([s[0]], s[1..]);
    assert [s[0]][..0] == [];
  }

  /** Some element of a non-empty set; the same one every time for the same set. */
  ghost function Pick<T>(s: set<T>): (x: T)
    requires s != {}
    ensures x in s
  {
    var x :| x in s; x
  }

  /** The sum of `f` over a set; it does not depend on any order (see SetSumRemove). */
  ghost function SetSum<T>(s: set<T>, f: T -> real): real
    decreases |s|
  {
    if s == {} then 0.0 else var x := Pick(s); f(x) + SetSum(s - {x}, f)
  }

  /** Any element may be taken out first. */
  lemma {:induction false} SetSumRemove<T>(s: set<T>, f: T -> real, y: T)
    requires y in s
    ensures SetSum(s, f) == f(y) + SetSum(s - {y}, f)
    decreases |s|
  {
    var x := Pick(s);
    if x != y {
      SetSumRemove(s - {x}, f, y);
      SetSumRemove(s - {y}, f, x);
      assert s - {x} - {y} == s - {y} - {x};
    }
  }

  /** Only the values of `f` on the set matter. */
  lemma {:induction false} SetSumCongruent<T>(s: set<T>, f: T -> real, g: T -> real)
    requires forall x | x in s :: f(x) == g(x)
    ensures SetSum(s, f) == SetSum(s, g)
    decreases |s|
  {
    if s != {} {
      var x := Pick(s);
      SetSumCongruent(s - {x}, f, g);
    }
  }

  /** A sum of zeros is zero. */
  lemma {:induction false} SetSumZero<T>(s: set<T>, f: T -> real)
    requires forall x | x in s :: f(x) == 0.0
    ensures SetSum(s, f) == 0.0
    decreases |s|
  {
    if s != {} {
      var x := Pick(s);
      SetSumZero(s - {x}, f);
    }
  }

  predicate Distinct<T(==)>(xs: seq<T>)
  {
    forall a, b | 0 <= a < b < |xs| :: xs[a] != xs[b]
  }

  /** The sum of `f` over the elements of `xs`, in the order of `xs`. */
  function MapSum<T>(xs: seq<T>, f: T -> real): real
  {
    if xs == [] then 0.0 else f(xs[0]) + MapSum(xs[1..], f)
  }

  /** A sequence of terms f(xs[0]), f(xs[1]), ... sums to MapSum(xs, f). */
  lemma {:induction false} SumOfTerms<T>(terms: seq<real>, xs: seq<T>, f: T -> real)
    requires |terms| == |xs|
    requires forall j | 0 <= j < |xs| :: terms[j] == f(xs[j])
    ensures Sum(terms) == MapSum(xs, f)
    decreases |xs|
  {
    if xs != [] {
      SumFirst(terms);
      SumOfTerms(terms[1..], xs[1..], f);
    }
  }

  /** Summing in the order of any repetition-free enumeration gives the set sum. */
  lemma {:induction false} MapSumIsSetSum<T>(xs: seq<T>, s: set<T>, f: T -> real)
    requires Distinct(xs)
    requires forall x :: x in xs <==> x in s
    ensures MapSum(xs, f) == SetSum(s, f)
    decreases |xs|
  {
    if xs == [] {
      assert s == {};
    } else {
      assert forall x :: x in xs[1..] <==> x in s - {xs[0]} by {
        forall x ensures x in xs[1..] <==> x in s - {xs[0]} {
          if x in xs[1..] {
            var j :| 0 <= j < |xs[1..]| && xs[1..][j] == x;
            assert xs[j + 1] == x;
          }
        }
      }
      MapSumIsSetSum(xs[1..], s - {xs[0]}, f);
      SetSumRemove(s, f, xs[0]);
    }
  }

  /** A repetition-free enumeration of a finite set; it stands for an iteration order the
      model does not know. */
  ghost function Enumerate<T(!new)>(s: set<T>): (xs: seq<T>)
    ensures Distinct(xs)
    ensures forall x :: x in xs <==> x in s
    decreases |s|
  {
    if s == {} then []
    else
      var x := Pick(s);
      var rest := Enumerate(s - {x});
      [x] + rest
  }
}
