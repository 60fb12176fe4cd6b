/** Small vocabulary shared by the modules. `Option` stands for the program's optional values. `Filter`
    is the model of a query's `where` and of a comprehension with a condition; its lemmas say how a
    loop builds it up one element at a time and that the filtered collection depends only on the
    collection filtered. `Map` and `Flatten` stand for comprehensions and joins. Lists without
    repetitions model dictionaries' keys, whose order of insertion the program relies on. */
module Sequences {

  datatype Option<+T> = None | Some(value: T)

  function Filter<T>(xs: seq<T>, keep: T -> bool): seq<T> {
    if xs == [] then []
    else if keep(xs[0]) then [xs[0]] + Filter(xs[1..], keep)
    else Filter(xs[1..], keep)
  }

  lemma {:induction false} FilterMembers<T(!new)>(xs: seq<T>, keep: T -> bool)
    ensures forall x :: x in Filter(xs, keep) <==> x in xs && keep(x)
    ensures |Filter(xs, keep)| <= |xs|
  {
    if xs != [] {
      FilterMembers(xs[1..], keep);
      assert xs == [xs[0]] + xs[1..];
    }
  }

  lemma {:induction false} FilterTwice<T>(xs: seq<T>, p: T -> bool, q: T -> bool, both: T -> bool)
    requires forall x :: x in xs ==> both(x) == (p(x) && q(x))
    ensures Filter(Filter(xs, p), q) == Filter(xs, both)
  {
    if xs != [] {
      FilterTwice(xs[1..], p, q, both);
      if p(xs[0]) {
        FilterConcat([xs[0]], Filter(xs[1..], p), q);
      }
    }
  }

  lemma {:induction false} FilterAll<T>(xs: seq<T>, keep: T -> bool)
    requires forall i :: 0 <= i < |xs| ==> keep(xs[i])
    ensures Filter(xs, keep) == xs
  {
    if xs != [] {
      FilterAll(xs[1..], keep);
    }
  }

  lemma {:induction false} FilterNone<T>(xs: seq<T>, keep: T -> bool)
    requires forall i :: 0 <= i < |xs| ==> !keep(xs[i])
    ensures Filter(xs, keep) == []
  {
    if xs != [] {
      FilterNone(xs[1..], keep);
    }
  }

  /** Filtering one element at a time, as an accumulating loop does it. */
  lemma FilterSnoc<T>(xs: seq<T>, i: nat, keep: T -> bool)
    requires i < |xs|
    ensures Filter(xs[..i + 1], keep) == Filter(xs[..i], keep) + (if keep(xs[i]) then [xs[i]] else [])
  {
    assert xs[..i + 1] == xs[..i] + [xs[i]];
    FilterConcat(xs[..i], [xs[i]], keep);
  }

  lemma {:induction false} FilterConcat<T>(a: seq<T>, b: seq<T>, keep: T -> bool)
    ensures Filter(a + b, keep) == Filter(a, keep) + Filter(b, keep)
  {
    if a == [] {
      assert a + b == b;
    } else {
      assert (a + b)[1..] == a[1..] + b;
      FilterConcat(a[1..], b, keep);
    }
  }

  /** The filtered multiset depends only on the multiset filtered. */
  lemma {:induction false} FilterMultiset<T>(xs: seq<T>, keep: T -> bool, x: T)
    ensures multiset(Filter(xs, keep))[x] == if keep(x) then multiset(xs)[x] else 0
  {
    if xs != [] {
      assert xs == [xs[0]] + xs[1..];
      FilterMultiset(xs[1..], keep, x);
    }
  }

  lemma FilterPermutation<T(!new)>(a: seq<T>, b: seq<T>, keep: T -> bool)
    requires multiset(a) == multiset(b)
    ensures multiset(Filter(a, keep)) == multiset(Filter(b, keep))
  {
    forall x ensures multiset(Filter(a, keep))[x] == multiset(Filter(b, keep))[x] {
      FilterMultiset(a, keep, x);
      FilterMultiset(b, keep, x);
    }
  }

  lemma SplitLast<T>(xs: seq<T>)
    requires xs != []
    ensures xs == xs[..|xs| - 1] + [xs[|xs| - 1]]
  {}

  function Map<T, U>(xs: seq<T>, f: T -> U): (r: seq<U>)
    ensures |r| == |xs|
    ensures forall i :: 0 <= i < |xs| ==> r[i] == f(xs[i])
  {
    seq(|xs|, i requires 0 <= i < |xs| => f(xs[i]))
  }

  lemma MapConcat<T, U>(a: seq<T>, b: seq<T>, f: T -> U)
    ensures Map(a + b, f) == Map(a, f) + Map(b, f)
  {}

  lemma MapSnoc<T, U>(xs: seq<T>, i: nat, f: T -> U)
    requires i < |xs|
    ensures Map(xs[..i + 1], f) == Map(xs[..i], f) + [f(xs[i])]
  {}

  function RemoveAt<T>(xs: seq<T>, i: nat): (r: seq<T>)
    requires i < |xs|
    ensures |r| == |xs| - 1
  {
    xs[..i] + xs[i + 1..]
  }

  lemma RemovedOne<T>(xs: seq<T>, i: nat)
    requires i < |xs|
    ensures multiset(RemoveAt(xs, i)) == multiset(xs) - multiset{xs[i]}
    ensures multiset(xs) == multiset(RemoveAt(xs, i)) + multiset{xs[i]}
  {
    assert xs == xs[..i] + ([xs[i]] + xs[i + 1..]);
  }

  lemma MapRemoved<T, U>(xs: seq<T>, i: nat, f: T -> U)
    requires i < |xs|
    ensures Map(RemoveAt(xs, i), f) == RemoveAt(Map(xs, f), i)
  {}

  /** Where the first element of `a` stands in the rearrangement `b`. */
  lemma FindFirst<T>(a: seq<T>, b: seq<T>) returns (i: nat)
    requires a != [] && multiset(a) == multiset(b)
    ensures i < |b| && b[i] == a[0] && multiset(a[1..]) == multiset(RemoveAt(b, i))
  {
    assert a[0] in multiset(b);
    i :| 0 <= i < |b| && b[i] == a[0];
    RemovedOne(b, i);
    RemovedOne(a, 0);
    assert RemoveAt(a, 0) == a[1..];
  }

  lemma {:induction false} MapPermutation<T, U>(a: seq<T>, b: seq<T>, f: T -> U)
    requires multiset(a) == multiset(b)
    ensures multiset(Map(a, f)) == multiset(Map(b, f))
    decreases |a|
  {
    if a == [] {
      assert |multiset(b)| == 0;
    } else {
      var i := FindFirst(a, b);
      MapPermutation(a[1..], RemoveAt(b, i), f);
      MapRemoved(b, i, f);
      RemovedOne(Map(b, f), i);
      assert Map(a, f) == [f(a[0])] + Map(a[1..], f);
    }
  }

  function Elements<T(!new)>(xs: seq<T>): (r: set<T>)
    ensures forall x :: x in r <==> x in xs
  {
    set x | x in xs
  }

  lemma SubsetSize<T>(a: set<T>, b: set<T>)
    requires a <= b
    ensures |a| <= |b| && (a != b ==> |a| < |b|)
  {
    assert b == a + (b - a);
  }

  ghost predicate NoRepeats<T>(xs: seq<T>) { forall i, j :: 0 <= i < j < |xs| ==> xs[i] != xs[j] }

  lemma NoRepeatsConcat<T>(a: seq<T>, b: seq<T>)
    requires forall i :: 0 <= i < |a| ==> a[i] !in b
    ensures NoRepeats(a + b) <==> NoRepeats(a) && NoRepeats(b)
  {
    if NoRepeats(a + b) {
      assert forall i :: 0 <= i < |a| ==> (a + b)[i] == a[i];
      forall i, j | 0 <= i < j < |b| ensures b[i] != b[j] {
        assert (a + b)[|a| + i] == b[i] && (a + b)[|a| + j] == b[j];
      }
    }
  }

  lemma {:induction false} CountsOnce<T>(xs: seq<T>, x: T)
    requires NoRepeats(xs)
    ensures multiset(xs)[x] == if x in xs then 1 else 0
  {
    if xs != [] {
      assert xs == [xs[0]] + xs[1..];
      CountsOnce(xs[1..], x);
    }
  }

  lemma TwiceMeansTwo<T>(xs: seq<T>, i: nat, j: nat)
    requires i < j < |xs| && xs[i] == xs[j]
    ensures multiset(xs)[xs[i]] >= 2
  {
    assert xs == xs[..j] + [xs[j]] + xs[j + 1..];
    assert xs[i] in xs[..j];
  }

  lemma {:induction false} NoRepeatsPermuted<T(!new)>(a: seq<T>, b: seq<T>)
    requires NoRepeats(a) && multiset(a) == multiset(b)
    ensures NoRepeats(b)
  {
    forall i: nat, j: nat | i < j < |b| ensures b[i] != b[j] {
      CountsOnce(a, b[i]);
      if b[i] == b[j] {
        TwiceMeansTwo(b, i, j);
      }
    }
  }

  lemma SameSetSameList<T(!new)>(a: seq<T>, b: seq<T>)
    requires NoRepeats(a) && NoRepeats(b)
    requires forall x :: x in a <==> x in b
    ensures multiset(a) == multiset(b)
  {
    forall x ensures multiset(a)[x] == multiset(b)[x] {
      CountsOnce(a, x);
      CountsOnce(b, x);
    }
  }

  lemma {:induction false} FilterKeepsNoRepeats<T(!new)>(xs: seq<T>, keep: T -> bool)
    requires NoRepeats(xs)
    ensures NoRepeats(Filter(xs, keep))
  {
    if xs != [] {
      FilterKeepsNoRepeats(xs[1..], keep);
      FilterMembers(xs[1..], keep);
      forall x | x in Filter(xs[1..], keep) ensures x != xs[0] {
        assert x in xs[1..];
      }
    }
  }

  function Flatten<T>(groups: seq<seq<T>>): seq<T> {
    if groups == [] then [] else groups[0] + Flatten(groups[1..])
  }

  lemma {:induction false} FlattenSnoc<T>(groups: seq<seq<T>>, last: seq<T>)
    ensures Flatten(groups + [last]) == Flatten(groups) + last
  {
    if groups == [] {
      assert groups + [last] == [last];
      assert Flatten([last]) == last + Flatten([]);
    } else {
      assert (groups + [last])[1..] == groups[1..] + [last];
      FlattenSnoc(groups[1..], last);
    }
  }
}
