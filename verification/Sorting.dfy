/** sort.Slice by a string key. It is not stable, so callers may only rely on
    getting some ordered permutation. */
module Sorting {
  import opened Text

  ghost predicate SortedBy<T(!new)>(xs: seq<T>, key: T -> string) {
    forall i, j :: 0 <= i < j < |xs| ==> Leq(key(xs[i]), key(xs[j]))
  }

  ghost predicate IsSortOf<T(!new)>(ys: seq<T>, xs: seq<T>, key: T -> string) {
    multiset(ys) == multiset(xs) && SortedBy(ys, key)
  }

  ghost predicate DistinctKeys<T(!new)>(xs: seq<T>, key: T -> string) {
    forall i, j :: 0 <= i < j < |xs| ==> key(xs[i]) != key(xs[j])
  }

  // Where x goes: behind the elements that are not after it.
  function Position<T(!new)>(ys: seq<T>, key: T -> string, x: T): (k: nat)
    requires SortedBy(ys, key)
    ensures k <= |ys| && (forall i :: 0 <= i < k ==> Leq(key(ys[i]), key(x))) && (k < |ys| ==> Less(key(x), key(ys[k])))
  {
    if ys == [] then 0
    else
      var n := |ys| - 1;
      if Leq(key(ys[n]), key(x)) then LastBounds(ys, key, x); n + 1 else Position(ys[..n], key, x)
  }

  lemma LastBounds<T(!new)>(ys: seq<T>, key: T -> string, x: T)
    requires ys != [] && SortedBy(ys, key) && Leq(key(ys[|ys| - 1]), key(x))
    ensures forall i :: 0 <= i < |ys| ==> Leq(key(ys[i]), key(x))
  {
    forall i | 0 <= i < |ys| ensures Leq(key(ys[i]), key(x)) {
      if i < |ys| - 1 { LeqTransitive(key(ys[i]), key(ys[|ys| - 1]), key(x)); }
    }
  }

  // One ordered permutation of every list.
  function SortOf<T(!new)>(xs: seq<T>, key: T -> string): (ys: seq<T>)
    ensures IsSortOf(ys, xs, key)
  {
    if xs == [] then []
    else
      var zs, x := SortOf(xs[..|xs| - 1], key), xs[|xs| - 1];
      var k := Position(zs, key, x);
      InsertSorts(xs, zs, k, key);
      zs[..k] + [x] + zs[k..]
  }

  lemma InsertSorts<T(!new)>(xs: seq<T>, zs: seq<T>, k: nat, key: T -> string)
    requires xs != [] && IsSortOf(zs, xs[..|xs| - 1], key) && k <= |zs|
    requires forall i :: 0 <= i < k ==> Leq(key(zs[i]), key(xs[|xs| - 1]))
    requires k < |zs| ==> Less(key(xs[|xs| - 1]), key(zs[k]))
    ensures IsSortOf(zs[..k] + [xs[|xs| - 1]] + zs[k..], xs, key)
  {
    hide SortedBy, Leq, Less;
    InsertSorted(zs, k, xs[|xs| - 1], key);
    InsertPermutes(xs, zs, k);
  }

  lemma InsertPermutes<T>(xs: seq<T>, zs: seq<T>, k: nat)
    requires xs != [] && multiset(zs) == multiset(xs[..|xs| - 1]) && k <= |zs|
    ensures multiset(zs[..k] + [xs[|xs| - 1]] + zs[k..]) == multiset(xs)
  {
    assert zs == zs[..k] + zs[k..] && xs == xs[..|xs| - 1] + [xs[|xs| - 1]];
  }

  method SortBy<T(!new)>(xs: seq<T>, key: T -> string) returns (ys: seq<T>)
    ensures IsSortOf(ys, xs, key)
  {
    ys := SortOf(xs, key);
  }

  lemma InsertSorted<T(!new)>(ys: seq<T>, k: nat, x: T, key: T -> string)
    requires k <= |ys| && SortedBy(ys, key)
    requires forall i :: 0 <= i < k ==> Leq(key(ys[i]), key(x))
    requires k < |ys| ==> Less(key(x), key(ys[k]))
    ensures SortedBy(ys[..k] + [x] + ys[k..], key)
  {
    var zs := ys[..k] + [x] + ys[k..];
    forall i, j | 0 <= i < j < |zs| ensures Leq(key(zs[i]), key(zs[j])) {
      if i == k {
        LessTotal(key(x), key(ys[k]));
        if j - 1 > k { LeqTransitive(key(x), key(ys[k]), key(ys[j - 1])); }
      }
    }
  }

  lemma DistinctKeysPermute<T(!new)>(xs: seq<T>, ys: seq<T>, key: T -> string)
    requires multiset(ys) == multiset(xs) && DistinctKeys(xs, key)
    ensures DistinctKeys(ys, key)
  {
    forall i, j | 0 <= i < j < |ys| ensures key(ys[i]) != key(ys[j]) {
      if ys[i] == ys[j] {
        assert ys == ys[..j] + [ys[j]] + ys[j + 1..];
        assert ys[i] in ys[..j];
        assert multiset(xs)[ys[i]] >= 2;
        OccursTwice(xs, ys[i]);
      } else {
        assert ys[i] in multiset(xs) && ys[j] in multiset(xs);
        assert ys[i] in xs && ys[j] in xs;
      }
    }
  }

  lemma OccursTwice<T(!new)>(xs: seq<T>, x: T)
    requires multiset(xs)[x] >= 2
    ensures exists i, j :: 0 <= i < j < |xs| && xs[i] == x && xs[j] == x
  {
    assert x in xs;
    var i :| 0 <= i < |xs| && xs[i] == x;
    var rest := xs[..i] + xs[i + 1..];
    assert xs == xs[..i] + [x] + xs[i + 1..];
    assert multiset(rest)[x] >= 1;
    assert x in rest;
    var j :| 0 <= j < |rest| && rest[j] == x;
    var j' := if j < i then j else j + 1;
    assert xs[j'] == x && j' != i;
    if j' < i { assert xs[j'] == x && xs[i] == x; } else { assert xs[i] == x && xs[j'] == x; }
  }

  lemma SameHead<T(!new)>(a: seq<T>, b: seq<T>, key: T -> string)
    requires multiset(a) == multiset(b) && a != [] && b != []
    requires SortedBy(a, key) && SortedBy(b, key) && DistinctKeys(a, key)
    ensures a[0] == b[0]
  {
    assert a[0] in multiset(b) && b[0] in multiset(a);
    var j :| 0 <= j < |b| && b[j] == a[0];
    var i :| 0 <= i < |a| && a[i] == b[0];
    LessTotal(key(a[0]), key(b[0]));
    LessTotal(key(a[0]), key(a[0]));
    assert Leq(key(a[0]), key(b[0])) && Leq(key(b[0]), key(a[0]));
  }

  lemma TailPermutes<T>(a: seq<T>, b: seq<T>)
    requires multiset(a) == multiset(b) && a != [] && b != [] && a[0] == b[0]
    ensures multiset(a[1..]) == multiset(b[1..])
  {
    assert a == [a[0]] + a[1..] && b == [b[0]] + b[1..];
    assert multiset(a[1..]) == multiset(a) - multiset{a[0]};
    assert multiset(b[1..]) == multiset(b) - multiset{b[0]};
  }

  /** With distinct keys there is only one ordered permutation, so an unstable
      sort is as good as a stable one. */
  lemma {:induction false} SortUnique<T(!new)>(a: seq<T>, b: seq<T>, key: T -> string)
    requires multiset(a) == multiset(b)
    requires SortedBy(a, key) && SortedBy(b, key) && DistinctKeys(a, key)
    ensures a == b
  {
    assert |a| == |multiset(a)| == |multiset(b)| == |b|;
    if a != [] {
      SameHead(a, b, key);
      TailPermutes(a, b);
      TailSorted(a, key);
      TailSorted(b, key);
      assert DistinctKeys(a[1..], key);
      SortUnique(a[1..], b[1..], key);
      assert a == [a[0]] + a[1..] == [b[0]] + b[1..] == b;
    }
  }

  lemma TailSorted<T(!new)>(a: seq<T>, key: T -> string)
    requires a != [] && SortedBy(a, key)
    ensures SortedBy(a[1..], key)
  {
    forall i, j | 0 <= i < j < |a[1..]| ensures Leq(key(a[1..][i]), key(a[1..][j])) {
      assert a[1..][i] == a[i + 1] && a[1..][j] == a[j + 1];
    }
  }
}
