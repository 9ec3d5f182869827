/** Small building blocks shared by every component of the model. */
module Basics {

  /** Python's `None` / a present value. */
  datatype Option<T> = None | Some(value: T)

  /** Python's `int(r)` on a float: truncation toward zero. */
  function Trunc(r: real): (n: int)
    ensures r >= 0.0 ==> 0 <= n && n as real <= r < n as real + 1.0
    ensures r < 0.0 ==> n <= 0 && n as real - 1.0 < r <= n as real
  {
    if r >= 0.0 then r.Floor else -((-r).Floor)
  }

  /** `random.uniform(lo, hi)`, written as CPython computes it from one draw `u` of `random.random()`. */
  function Uniform(lo: real, hi: real, u: real): (r: real)
    ensures lo <= hi && 0.0 <= u <= 1.0 ==> lo <= r <= hi
  {
    ScaleWithin(hi - lo, u);
    lo + (hi - lo) * u
  }

  /** Scaling a non-negative width by a fraction keeps it within the width. */
  lemma ScaleWithin(w: real, u: real)
    ensures 0.0 <= w && 0.0 <= u <= 1.0 ==> 0.0 <= w * u <= w
  {
    if 0.0 <= w && 0.0 <= u <= 1.0 {
      assert w * u + w * (1.0 - u) == w;
      assert 0.0 <= w * (1.0 - u);
    }
  }

  /** The number of draws in `draws` that fall below `rate`. */
  function CountBelow(draws: seq<real>, rate: real): (n: nat)
    ensures n <= |draws|
    ensures n == |draws| <==> forall i :: 0 <= i < |draws| ==> draws[i] < rate
    ensures n == 0 <==> forall i :: 0 <= i < |draws| ==> draws[i] >= rate
  {
    if draws == [] then 0
    else (if draws[0] < rate then 1 else 0) + CountBelow(draws[1..], rate)
  }

  /** `order` lists every index below `n` exactly once (what `random.shuffle` produces). */
  predicate IsPermutation(order: seq<nat>, n: nat)
  {
    |order| == n
    && (forall i :: 0 <= i < n ==> order[i] < n)
    && (forall i, j :: 0 <= i < j < n ==> order[i] != order[j])
  }

  /** A subset is no larger than its superset. */
  lemma {:induction false} SubsetSize(a: set<nat>, b: set<nat>)
    requires a <= b
    ensures |a| <= |b|
    decreases b
  {
    if a != {} {
      var x :| x in a;
      SubsetSize(a - {x}, b - {x});
    }
  }

  /** The numbers below `n`. */
  function Below(n: nat): (r: set<nat>)
    ensures |r| == n
    ensures forall i :: i in r ==> i < n
    ensures forall i :: 0 <= i < n ==> i in r
  {
    if n == 0 then {} else
      var r := Below(n - 1);
      assert n - 1 !in r;
      assert |r + {n - 1}| == |r| + 1;
      r + {n - 1}
  }

  /** The values at the first `k` positions of an injective `order`: `k` distinct numbers. */
  function Image(order: seq<nat>, k: nat): (r: set<nat>)
    requires k <= |order| && forall i, j :: 0 <= i < j < |order| ==> order[i] != order[j]
    ensures |r| == k && forall v :: v in r <==> exists i :: 0 <= i < k && order[i] == v
  {
    if k == 0 then {} else
      var r := Image(order, k - 1);
      assert order[k - 1] !in r;
      r + {order[k - 1]}
  }

  /** A permutation of the indices below `n` hits each of them. */
  lemma PermutationOnto(order: seq<nat>, n: nat)
    requires IsPermutation(order, n)
    ensures forall v: nat :: v < n ==> v in order
  {
    var img := Image(order, n);
    forall v: nat | v < n ensures v in order {
      if v !in img {
        SubsetSize(img, Below(n) - {v});
        assert false;
      }
    }
  }
  /** `s` has no repeated element. */
  predicate Distinct<T(==)>(s: seq<T>)
  {
    forall i, j :: 0 <= i < j < |s| ==> s[i] != s[j]
  }

  /** Two different positions of a list without repetitions hold different elements. */
  lemma DistinctAt<T>(s: seq<T>, i: int, j: int)
    requires Distinct(s) && 0 <= i < |s| && 0 <= j < |s| && i != j
    ensures s[i] != s[j]
  {
    if j < i {
      assert s[j] != s[i];
    }
  }

  /** `list.index(x)`: the position of the first occurrence of `x`. */
  function IndexOf<T(==)>(s: seq<T>, x: T): (k: nat)
    requires x in s
    ensures k < |s| && s[k] == x && x !in s[..k]
  {
    if s[0] == x then 0
    else
      assert s == [s[0]] + s[1..];
      var k := IndexOf(s[1..], x);
      assert s[..k + 1] == [s[0]] + s[1..][..k];
      k + 1
  }

  /** `list.remove(x)`: the list without one occurrence of `x` (which one: `RemoveFirstSplit`). */
  function RemoveFirst<T(==)>(s: seq<T>, x: T): (r: seq<T>)
    requires x in s
    ensures |r| == |s| - 1
    ensures forall i :: 0 <= i < |s| && s[i] != x ==> s[i] in r
    ensures forall i :: 0 <= i < |r| ==> r[i] in s
    ensures Distinct(s) ==> Distinct(r) && x !in r
  {
    if s[0] == x then
      assert s == [s[0]] + s[1..];
      s[1..]
    else
      var t := RemoveFirst(s[1..], x);
      assert s == [s[0]] + s[1..];
      assert Distinct(s) ==> s[0] !in s[1..];
      [s[0]] + t
  }

  /** Slicing a list around position `k + 1` through its tail. */
  lemma TailSlices<T>(s: seq<T>, k: nat)
    requires k + 1 < |s|
    ensures s[..k + 1] == [s[0]] + s[1..][..k]
    ensures s[k + 2..] == s[1..][k + 1..]
  {
  }

  /** `list.remove(x)` takes out exactly the first occurrence of `x` and keeps the rest in order. */
  lemma {:induction false} RemoveFirstSplit<T>(s: seq<T>, x: T)
    requires x in s
    ensures RemoveFirst(s, x) == s[..IndexOf(s, x)] + s[IndexOf(s, x) + 1..]
  {
    if s[0] != x {
      var t := s[1..];
      RemoveFirstSplit(t, x);
      var k := IndexOf(t, x);
      TailSlices(s, k);
      calc {
        RemoveFirst(s, x);
        [s[0]] + RemoveFirst(t, x);
        [s[0]] + (t[..k] + t[k + 1..]);
        ([s[0]] + t[..k]) + t[k + 1..];
        s[..k + 1] + s[k + 2..];
      }
    }
  }
}
