/** Filtering and sublists. */
module Lists {

  function Filter<T(!new)>(xs: seq<T>, keep: T -> bool): (r: seq<T>)
    ensures |r| <= |xs|
    ensures forall x :: x in r <==> x in xs && keep(x)
  {
    if xs == [] then []
    else
      var rest, x := Filter(xs[..|xs| - 1], keep), xs[|xs| - 1];
      if keep(x) then rest + [x] else rest
  }

  lemma {:induction false} FilterCount<T(!new)>(xs: seq<T>, keep: T -> bool, x: T)
    ensures multiset(Filter(xs, keep))[x] == if keep(x) then multiset(xs)[x] else 0
  {
    if xs != [] {
      FilterCount(xs[..|xs| - 1], keep, x);
      assert xs == xs[..|xs| - 1] + [xs[|xs| - 1]];
    }
  }

  lemma FilterPermute<T(!new)>(xs: seq<T>, ys: seq<T>, keep: T -> bool)
    requires multiset(xs) == multiset(ys)
    ensures multiset(Filter(xs, keep)) == multiset(Filter(ys, keep))
  {
    forall x ensures multiset(Filter(xs, keep))[x] == multiset(Filter(ys, keep))[x] {
      FilterCount(xs, keep, x);
      FilterCount(ys, keep, x);
    }
  }

  lemma {:induction false} FilterTwice<T(!new)>(xs: seq<T>, f: T -> bool, g: T -> bool)
    ensures Filter(Filter(xs, f), g) == Filter(xs, x => f(x) && g(x))
  {
    if xs != [] {
      FilterTwice(xs[..|xs| - 1], f, g);
      var rest, x := Filter(xs[..|xs| - 1], f), xs[|xs| - 1];
      if f(x) { assert (rest + [x])[..|rest|] == rest; }
    }
  }

  /** sub is xs with some elements left out. */
  ghost predicate IsSublist<T>(sub: seq<T>, xs: seq<T>) {
    if sub == [] then true
    else if xs == [] then false
    else if sub[|sub| - 1] == xs[|xs| - 1] && IsSublist(sub[..|sub| - 1], xs[..|xs| - 1]) then true
    else IsSublist(sub, xs[..|xs| - 1])
  }

  lemma {:induction false} FilterIsSublist<T(!new)>(xs: seq<T>, keep: T -> bool)
    ensures IsSublist(Filter(xs, keep), xs)
  {
    if xs != [] {
      FilterIsSublist(xs[..|xs| - 1], keep);
      var r := Filter(xs, keep);
      if keep(xs[|xs| - 1]) {
        assert r[..|r| - 1] == Filter(xs[..|xs| - 1], keep);
      }
    }
  }

  lemma {:induction false} SublistCount<T>(sub: seq<T>, xs: seq<T>, x: T)
    requires IsSublist(sub, xs)
    ensures multiset(sub)[x] <= multiset(xs)[x]
  {
    if sub != [] {
      var init, rest := sub[..|sub| - 1], xs[..|xs| - 1];
      assert sub == init + [sub[|sub| - 1]] && xs == rest + [xs[|xs| - 1]];
      if sub[|sub| - 1] == xs[|xs| - 1] && IsSublist(init, rest) {
        SublistCount(init, rest, x);
      } else {
        SublistCount(sub, rest, x);
      }
    }
  }

  /** ys is what is left of xs, in order, when the elements without the property
      are taken out and every other one stays. */
  ghost predicate IsSelection<T(!new)>(ys: seq<T>, xs: seq<T>, keep: T -> bool) {
    IsSublist(ys, xs) && forall x :: multiset(ys)[x] == if keep(x) then multiset(xs)[x] else 0
  }

  /** Filtering is the only such selection. */
  lemma FilterExact<T(!new)>(ys: seq<T>, xs: seq<T>, keep: T -> bool)
    ensures ys == Filter(xs, keep) <==> IsSelection(ys, xs, keep)
  {
    FilterIsSublist(xs, keep);
    forall x ensures multiset(Filter(xs, keep))[x] == if keep(x) then multiset(xs)[x] else 0 { FilterCount(xs, keep, x); }
    if IsSelection(ys, xs, keep) { SelectionIsFilter(ys, xs, keep); }
  }

  lemma {:induction false} SelectionIsFilter<T(!new)>(ys: seq<T>, xs: seq<T>, keep: T -> bool)
    requires IsSelection(ys, xs, keep)
    ensures ys == Filter(xs, keep)
  {
    if xs != [] {
      var rest, x := xs[..|xs| - 1], xs[|xs| - 1];
      assert xs == rest + [x];
      if keep(x) {
        LastIsKept(ys, xs, keep);
        var init := ys[..|ys| - 1];
        assert ys == init + [x];
        SelectionIsFilter(init, rest, keep);
      } else {
        assert ys != [] ==> multiset(ys)[ys[|ys| - 1]] > 0;
        SelectionIsFilter(ys, rest, keep);
      }
    }
  }

  lemma LastIsKept<T(!new)>(ys: seq<T>, xs: seq<T>, keep: T -> bool)
    requires IsSelection(ys, xs, keep) && xs != [] && keep(xs[|xs| - 1])
    ensures ys != [] && ys[|ys| - 1] == xs[|xs| - 1] && IsSublist(ys[..|ys| - 1], xs[..|xs| - 1])
  {
    var rest, x := xs[..|xs| - 1], xs[|xs| - 1];
    assert xs == rest + [x];
    assert multiset(ys)[x] == multiset(rest)[x] + 1;
    if IsSublist(ys, rest) { SublistCount(ys, rest, x); }
  }

  lemma {:induction false} SublistIndex<T>(sub: seq<T>, xs: seq<T>, i: nat)
    requires IsSublist(sub, xs) && i < |sub|
    ensures sub[i] in xs
  {
    if sub[|sub| - 1] == xs[|xs| - 1] && IsSublist(sub[..|sub| - 1], xs[..|xs| - 1]) {
      if i < |sub| - 1 { SublistIndex(sub[..|sub| - 1], xs[..|xs| - 1], i); }
    } else {
      SublistIndex(sub, xs[..|xs| - 1], i);
    }
  }

  /** Two positions of a sublist come from two positions of the list, in the
      same order. */
  lemma {:induction false} SublistPair<T>(sub: seq<T>, xs: seq<T>, i: nat, j: nat) returns (m: nat, n: nat)
    requires IsSublist(sub, xs) && i < j < |sub|
    ensures m < n < |xs| && xs[m] == sub[i] && xs[n] == sub[j]
  {
    if sub[|sub| - 1] == xs[|xs| - 1] && IsSublist(sub[..|sub| - 1], xs[..|xs| - 1]) {
      if j < |sub| - 1 {
        m, n := SublistPair(sub[..|sub| - 1], xs[..|xs| - 1], i, j);
      } else {
        SublistIndex(sub[..|sub| - 1], xs[..|xs| - 1], i);
        m :| m < |xs| - 1 && xs[m] == sub[i];
        n := |xs| - 1;
      }
    } else {
      m, n := SublistPair(sub, xs[..|xs| - 1], i, j);
    }
  }

  lemma Snoc<T>(xs: seq<T>, n: nat)
    requires n < |xs|
    ensures xs[..n + 1] == xs[..n] + [xs[n]]
    ensures xs[..n + 1][..n] == xs[..n]
  {
  }

  lemma Whole<T>(xs: seq<T>)
    ensures xs[..|xs|] == xs
  {
  }
}
