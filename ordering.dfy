/** Python's `sorted(..., key=..., reverse=True)` on keyed entries: a stable sort by descending key,
    as insertion sort. */
module Ordering {
  import opened Basics

  /** Keys never increase along the list. */
  predicate Descending<T>(s: seq<(nat, T)>)
  {
    forall i, j :: 0 <= i < j < |s| ==> s[i].0 >= s[j].0
  }

  /** The entries with key `a`, in list order. */
  function WithKey<T>(s: seq<(nat, T)>, a: nat): seq<(nat, T)>
  {
    if s == [] then [] else (if s[0].0 == a then [s[0]] else []) + WithKey(s[1..], a)
  }

  /** One step of insertion sort: `x` goes after every entry whose key is at least its own. */
  function Insert<T>(x: (nat, T), s: seq<(nat, T)>): (r: seq<(nat, T)>)
    ensures |r| == |s| + 1
  {
    if s == [] then [x]
    else if s[0].0 >= x.0 then [s[0]] + Insert(x, s[1..])
    else [x] + s
  }

  /** `sorted(s, key=..., reverse=True)`: a stable sort by descending key. */
  function SortDescending<T>(s: seq<(nat, T)>): (r: seq<(nat, T)>)
    ensures |r| == |s|
  {
    if s == [] then [] else Insert(s[|s| - 1], SortDescending(s[..|s| - 1]))
  }

  /** `WithKey` distributes over concatenation. */
  lemma {:induction false} WithKeyAppend<T>(s: seq<(nat, T)>, t: seq<(nat, T)>, a: nat)
    ensures WithKey(s + t, a) == WithKey(s, a) + WithKey(t, a)
  {
    if s == [] {
      assert s + t == t;
    } else {
      var head := if s[0].0 == a then [s[0]] else [];
      assert (s + t)[0] == s[0] && (s + t)[1..] == s[1..] + t;
      assert WithKey(s + t, a) == head + WithKey(s[1..] + t, a);
      WithKeyAppend(s[1..], t, a);
      assert WithKey(s, a) == head + WithKey(s[1..], a);
    }
  }

  /** Every entry of a descending list has a key no larger than its first one's. */
  lemma {:induction false} WithKeyAbove<T>(s: seq<(nat, T)>, a: nat)
    requires Descending(s) && (s == [] || s[0].0 < a)
    ensures WithKey(s, a) == []
  {
    if s != [] {
      assert s[1..] == [] || s[1..][0].0 <= s[0].0;
      WithKeyAbove(s[1..], a);
    }
  }

  /** Insertion adds exactly `x`. */
  lemma {:induction false} InsertPermutes<T>(x: (nat, T), s: seq<(nat, T)>)
    ensures multiset(Insert(x, s)) == multiset(s) + multiset{x}
  {
    if s != [] && s[0].0 >= x.0 {
      InsertPermutes(x, s[1..]);
      assert s == [s[0]] + s[1..];
    }
  }

  /** Insertion keeps a descending list descending. */
  lemma {:induction false} InsertOrdered<T>(x: (nat, T), s: seq<(nat, T)>)
    requires Descending(s)
    ensures Descending(Insert(x, s))
  {
    if s != [] && s[0].0 >= x.0 {
      var t := Insert(x, s[1..]);
      InsertOrdered(x, s[1..]);
      InsertBounded(x, s[1..], s[0].0);
      DescendingCons(s[0], t);
    }
  }

  /** Insertion keeps every key at most `b` when `x`'s is. */
  lemma {:induction false} InsertBounded<T>(x: (nat, T), s: seq<(nat, T)>, b: nat)
    requires x.0 <= b && forall k :: 0 <= k < |s| ==> s[k].0 <= b
    ensures forall k :: 0 <= k < |Insert(x, s)| ==> Insert(x, s)[k].0 <= b
  {
    if s != [] && s[0].0 >= x.0 {
      InsertBounded(x, s[1..], b);
      var t := Insert(x, s[1..]);
      assert forall k :: 1 <= k < |t| + 1 ==> ([s[0]] + t)[k] == t[k - 1];
    }
  }

  /** A descending list with keys at most `y`'s, behind `y`, is descending. */
  lemma DescendingCons<T>(y: (nat, T), t: seq<(nat, T)>)
    requires Descending(t) && forall k :: 0 <= k < |t| ==> t[k].0 <= y.0
    ensures Descending([y] + t)
  {
    var r := [y] + t;
    forall i, j | 0 <= i < j < |r| ensures r[i].0 >= r[j].0 {
      if i > 0 {
        assert r[i] == t[i - 1] && r[j] == t[j - 1];
      }
    }
  }

  /** Insertion of a new entry keeps a list without repetitions so. */
  lemma {:induction false} InsertDistinct<T>(x: (nat, T), s: seq<(nat, T)>)
    requires Descending(s) && Distinct(s) && x !in s
    ensures Distinct(Insert(x, s))
  {
    if s != [] && s[0].0 >= x.0 {
      assert s == [s[0]] + s[1..];
      InsertDistinct(x, s[1..]);
      InsertPermutes(x, s[1..]);
      assert s[0] !in multiset(Insert(x, s[1..]));
    }
  }

  /** Insertion puts `x` after every entry with its key. */
  lemma {:induction false} InsertStable<T>(x: (nat, T), s: seq<(nat, T)>, a: nat)
    requires Descending(s)
    ensures WithKey(Insert(x, s), a) == WithKey(s, a) + (if x.0 == a then [x] else [])
  {
    if s == [] {
    } else if s[0].0 >= x.0 {
      InsertStable(x, s[1..], a);
      StableBehind(x, s, a);
    } else {
      StableInFront(x, s, a);
    }
  }

  /** The step of `InsertStable` where `x` passes the first entry. */
  lemma StableBehind<T>(x: (nat, T), s: seq<(nat, T)>, a: nat)
    requires s != [] && s[0].0 >= x.0
    requires WithKey(Insert(x, s[1..]), a) == WithKey(s[1..], a) + (if x.0 == a then [x] else [])
    ensures WithKey(Insert(x, s), a) == WithKey(s, a) + (if x.0 == a then [x] else [])
  {
    assert s == [s[0]] + s[1..];
    WithKeyAppend([s[0]], Insert(x, s[1..]), a);
    WithKeyAppend([s[0]], s[1..], a);
  }

  /** The step of `InsertStable` where `x` goes in front. */
  lemma StableInFront<T>(x: (nat, T), s: seq<(nat, T)>, a: nat)
    requires Descending(s) && s != [] && s[0].0 < x.0
    ensures WithKey(Insert(x, s), a) == WithKey(s, a) + (if x.0 == a then [x] else [])
  {
    WithKeyAppend([x], s, a);
    if x.0 == a {
      WithKeyAbove(s, a);
    }
  }

  /** The sort is a permutation. */
  lemma {:induction false} SortPermutes<T>(s: seq<(nat, T)>)
    ensures multiset(SortDescending(s)) == multiset(s)
  {
    if s != [] {
      var init, last := s[..|s| - 1], s[|s| - 1];
      assert s == init + [last];
      SortPermutes(init);
      InsertPermutes(last, SortDescending(init));
    }
  }

  /** The sort is descending. */
  lemma {:induction false} SortOrdered<T>(s: seq<(nat, T)>)
    ensures Descending(SortDescending(s))
  {
    if s != [] {
      SortOrdered(s[..|s| - 1]);
      InsertOrdered(s[|s| - 1], SortDescending(s[..|s| - 1]));
    }
  }

  /** The sort keeps a list without repetitions so. */
  lemma {:induction false} SortDistinct<T>(s: seq<(nat, T)>)
    requires Distinct(s)
    ensures Distinct(SortDescending(s))
  {
    if s != [] {
      var init, last := s[..|s| - 1], s[|s| - 1];
      assert Distinct(init);
      SortDistinct(init);
      SortOrdered(init);
      SortPermutes(init);
      assert last !in multiset(SortDescending(init));
      InsertDistinct(last, SortDescending(init));
    }
  }

  /** The sort is stable: the entries of each key keep their relative order. */
  lemma {:induction false} SortStable<T>(s: seq<(nat, T)>, a: nat)
    ensures WithKey(SortDescending(s), a) == WithKey(s, a)
  {
    if s != [] {
      var init, last := s[..|s| - 1], s[|s| - 1];
      assert s == init + [last];
      SortStable(init, a);
      SortOrdered(init);
      InsertStable(last, SortDescending(init), a);
      WithKeyAppend(init, [last], a);
    }
  }
}
