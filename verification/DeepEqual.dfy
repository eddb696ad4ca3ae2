/** The page's deep comparison of two JSON values. Values come from JSON.parse,
    so two references to one object are two equal values. */
module DeepEqual {
  import opened Wrappers
  import opened Text
  import opened Json
  import opened Utf16
  import Sorting

  /** The index keys of an array, as Object.keys lists them. */
  function IndexMap(items: seq<Value>): (m: map<string, Value>)
    ensures forall k :: k in m ==> m[k] in items
  {
    if items == [] then map[] else IndexMap(items[..|items| - 1])[Decimal(|items| - 1) := items[|items| - 1]]
  }

  predicate Composite(v: Value) { v.Arr? || v.Obj? }

  /** What can be read from a value by key. */
  function Children(v: Value): (m: map<string, Value>)
    ensures forall k :: k in m ==> m[k] < v
  {
    if v.Arr? then IndexMap(v.items) else if v.Obj? then v.fields else map[]
  }

  /** The meaning the comparison gives to a value: an array is the object that
      has its items under their indices. */
  function Norm(v: Value): (n: Value)
    ensures !n.Arr?
    decreases v
  {
    if Composite(v) then
      var c := Children(v);
      Obj(map k | k in c :: Norm(c[k]))
    else v
  }

  ghost predicate Same(a: Value, b: Value) { Norm(a) == Norm(b) }

  lemma {:induction false} IndexMapAt(items: seq<Value>, i: nat)
    requires i < |items|
    ensures Decimal(i) in IndexMap(items) && IndexMap(items)[Decimal(i)] == items[i]
  {
    hide Decimal;
    if i < |items| - 1 {
      IndexMapAt(items[..|items| - 1], i);
      if Decimal(i) == Decimal(|items| - 1) { DecimalInjective(i, |items| - 1); }
    }
  }

  ghost predicate IsIndex(k: string, n: nat) { exists i :: 0 <= i < n && k == Decimal(i) }

  lemma IsIndexStep(k: string, n: nat)
    ensures IsIndex(k, n + 1) <==> IsIndex(k, n) || k == Decimal(n)
    ensures !IsIndex(Decimal(n), n)
  {
    hide Decimal;
    if i :| 0 <= i < n + 1 && k == Decimal(i) { assert i == n || IsIndex(k, n); }
    if i :| 0 <= i < n && k == Decimal(i) { assert IsIndex(k, n + 1); }
    if k == Decimal(n) { assert IsIndex(k, n + 1); }
    if i :| 0 <= i < n && Decimal(n) == Decimal(i) { DecimalInjective(i, n); }
  }

  lemma {:induction false} IndexKey(items: seq<Value>, k: string)
    ensures k in IndexMap(items) <==> IsIndex(k, |items|)
  {
    hide Decimal;
    if items != [] {
      hide IsIndex;
      IndexKey(items[..|items| - 1], k);
      IsIndexStep(k, |items| - 1);
    }
  }

  lemma {:induction false} IndexMapKeys(items: seq<Value>)
    ensures forall k :: k in IndexMap(items) <==> IsIndex(k, |items|)
    ensures |IndexMap(items)| == |items|
  {
    hide Decimal, IsIndex;
    forall k ensures k in IndexMap(items) <==> IsIndex(k, |items|) { IndexKey(items, k); }
    if items != [] {
      IndexMapKeys(items[..|items| - 1]);
      IsIndexStep(Decimal(|items| - 1), |items| - 1);
    }
  }

  // ---------------------------------------------------------------- when two composites are the same

  lemma SameComposite(a: Value, b: Value)
    requires Composite(a) && Composite(b)
    ensures Same(a, b) <==>
      Children(a).Keys == Children(b).Keys && forall k :: k in Children(a) ==> Same(Children(a)[k], Children(b)[k])
  {
    var c, d := Children(a), Children(b);
    assert Norm(a).fields.Keys == c.Keys && Norm(b).fields.Keys == d.Keys;
    if Same(a, b) {
      forall k | k in c ensures Same(c[k], d[k]) {
        assert Norm(a).fields[k] == Norm(c[k]) && Norm(b).fields[k] == Norm(d[k]);
      }
    }
  }

  lemma SameIndexKeys(xs: seq<Value>, ys: seq<Value>)
    ensures IndexMap(xs).Keys == IndexMap(ys).Keys <==> |xs| == |ys|
  {
    hide IndexMap;
    IndexMapKeys(xs);
    IndexMapKeys(ys);
    assert |IndexMap(xs)| == |IndexMap(xs).Keys| && |IndexMap(ys)| == |IndexMap(ys).Keys|;
  }

  lemma SameItems(xs: seq<Value>, ys: seq<Value>)
    requires |xs| == |ys|
    ensures (forall i :: 0 <= i < |xs| ==> Same(xs[i], ys[i])) <==>
      (forall k :: k in IndexMap(xs) ==> k in IndexMap(ys) && Same(IndexMap(xs)[k], IndexMap(ys)[k]))
  {
    hide IndexMap, Same;
    var c, d := IndexMap(xs), IndexMap(ys);
    forall i | 0 <= i < |xs| ensures Decimal(i) in c && c[Decimal(i)] == xs[i] && Decimal(i) in d && d[Decimal(i)] == ys[i] {
      IndexMapAt(xs, i);
      IndexMapAt(ys, i);
    }
    IndexMapKeys(xs);
    if forall i :: 0 <= i < |xs| ==> Same(xs[i], ys[i]) {
      forall k | k in c ensures k in d && Same(c[k], d[k]) {
        var i :| 0 <= i < |xs| && k == Decimal(i);
        assert Same(xs[i], ys[i]);
      }
    }
  }

  lemma SameArrays(xs: seq<Value>, ys: seq<Value>)
    ensures Same(Arr(xs), Arr(ys)) <==> |xs| == |ys| && forall i :: 0 <= i < |xs| ==> Same(xs[i], ys[i])
  {
    hide IndexMap, Same;
    SameComposite(Arr(xs), Arr(ys));
    SameIndexKeys(xs, ys);
    if |xs| == |ys| { SameItems(xs, ys); }
  }

  lemma SameReflexive(a: Value)
    ensures Same(a, a)
  {
  }

  lemma NotSame(a: Value, b: Value)
    requires a != b && !(Composite(a) && Composite(b))
    ensures !Same(a, b)
  {
  }

  // ---------------------------------------------------------------- the comparison

  /** Sorted by code unit, without repetition. */
  ghost predicate Increasing(keys: seq<string>) {
    forall i, j :: 0 <= i < j < |keys| ==> UnitsLess(Units(keys[i]), Units(keys[j]))
  }

  ghost predicate SortedDistinct(keys: seq<string>) {
    Sorting.SortedBy(keys, SortKey) && Sorting.DistinctKeys(keys, SortKey)
  }

  lemma IncreasingIff(keys: seq<string>)
    ensures Increasing(keys) <==> SortedDistinct(keys)
  {
    hide UnitsLess, Units, Less, SortKey;
    forall i, j | 0 <= i < j < |keys|
      ensures UnitsLess(Units(keys[i]), Units(keys[j])) <==>
              Leq(SortKey(keys[i]), SortKey(keys[j])) && SortKey(keys[i]) != SortKey(keys[j])
    {
      SortKeyOrder(keys[i], keys[j]);
      LessTotal(SortKey(keys[i]), SortKey(keys[j]));
      LessTotal(SortKey(keys[j]), SortKey(keys[i]));
    }
  }

  // Object.keys(v).sort(), and the sorted list of the names in a Set.
  method SortKeys(ks: set<string>) returns (keys: seq<string>)
    ensures Increasing(keys) && forall k :: k in keys <==> k in ks
  {
    hide SortKey, Increasing;
    var all: seq<string> := [];
    var todo := ks;
    while todo != {}
      invariant todo <= ks
      invariant forall k :: k in all <==> k in ks - todo
      invariant Sorting.DistinctKeys(all, SortKey)
    {
      var k := AnyOf(todo);
      todo := todo - {k};
      forall i | 0 <= i < |all| ensures SortKey(all[i]) != SortKey(k) {
        if SortKey(all[i]) == SortKey(k) { SortKeyInjective(all[i], k); }
      }
      all := all + [k];
    }
    keys := Sorting.SortBy(all, SortKey);
    Sorting.DistinctKeysPermute(all, keys, SortKey);
    assert forall k :: k in keys <==> k in multiset(keys);
    assert forall k :: k in all <==> k in multiset(all);
    IncreasingIff(keys);
  }

  /** There is one increasing list of any set of keys. */
  lemma IncreasingIsUnique(ak: seq<string>, bk: seq<string>)
    requires Increasing(ak) && Increasing(bk) && forall k :: k in ak <==> k in bk
    ensures ak == bk
  {
    hide Increasing, SortKey;
    IncreasingIff(ak);
    IncreasingIff(bk);
    forall k ensures multiset(ak)[k] == multiset(bk)[k] {
      OccursOnce(ak, k);
      OccursOnce(bk, k);
    }
    assert multiset(ak) == multiset(bk);
    Sorting.SortUnique(ak, bk, SortKey);
  }

  lemma IncreasingDistinct(keys: seq<string>)
    requires Increasing(keys)
    ensures forall i, j :: 0 <= i < j < |keys| ==> keys[i] != keys[j]
  {
    hide Increasing, SortKey;
    IncreasingIff(keys);
    forall i, j | 0 <= i < j < |keys| ensures keys[i] != keys[j] {
      assert SortKey(keys[i]) != SortKey(keys[j]);
    }
  }

  lemma OccursOnce(ks: seq<string>, k: string)
    requires Sorting.DistinctKeys(ks, SortKey)
    ensures multiset(ks)[k] == if k in ks then 1 else 0
  {
    assert k in ks <==> k in multiset(ks);
    if multiset(ks)[k] >= 2 {
      Sorting.OccursTwice(ks, k);
      assert false;
    }
  }

  /** equal: decides whether two values mean the same. */
  method Equal(a: Value, b: Value) returns (r: bool)
    ensures r == Same(a, b)
    decreases a, 1
  {
    SameReflexive(a);
    hide Same, Children;
    if !Composite(a) && a == b {
      return true;
    }
    if a.Arr? && b.Arr? {
      SameArrays(a.items, b.items);
      if |a.items| != |b.items| {
        return false;
      }
      for i := 0 to |a.items|
        invariant forall j :: 0 <= j < i ==> Same(a.items[j], b.items[j])
      {
        var same := Equal(a.items[i], b.items[i]);
        if !same {
          return false;
        }
      }
      return true;
    }
    if Composite(a) && Composite(b) {
      r := EqualByKeys(a, b);
      return;
    }
    NotSame(a, b);
    r := false;
  }

  // The branch of equal that goes through the sorted keys of both values.
  method EqualByKeys(a: Value, b: Value) returns (r: bool)
    requires Composite(a) && Composite(b)
    ensures r == Same(a, b)
    decreases a, 0
  {
    hide Same, Children, Increasing, Composite;
    SameComposite(a, b);
    var ak := SortKeys(Children(a).Keys);
    var bk := SortKeys(Children(b).Keys);
    if Children(a).Keys == Children(b).Keys { IncreasingIsUnique(ak, bk); }
    if |ak| != |bk| {
      return false;
    }
    for i := 0 to |ak|
      invariant forall j :: 0 <= j < i ==>
        ak[j] == bk[j] && ak[j] in Children(a) && bk[j] in Children(b) && Same(Children(a)[ak[j]], Children(b)[bk[j]])
    {
      if ak[i] != bk[i] {
        return false;
      }
      assert ak[i] in ak && bk[i] in bk;
      var same := Equal(Children(a)[ak[i]], Children(b)[bk[i]]);
      if !same {
        return false;
      }
    }
    SameKeysSameValues(a, b, ak, bk);
    r := true;
  }

  lemma SameKeysSameValues(a: Value, b: Value, ak: seq<string>, bk: seq<string>)
    requires forall k :: k in ak <==> k in Children(a)
    requires forall k :: k in bk <==> k in Children(b)
    requires |ak| == |bk| && Composite(a) && Composite(b)
    requires forall j :: 0 <= j < |ak| ==>
      ak[j] == bk[j] && ak[j] in Children(a) && bk[j] in Children(b) && Same(Children(a)[ak[j]], Children(b)[bk[j]])
    ensures Same(a, b)
  {
    hide Same, Children;
    SameComposite(a, b);
    assert ak == bk;
    forall k | k in Children(a) ensures Same(Children(a)[k], Children(b)[k]) {
      assert k in ak;
      var j :| 0 <= j < |ak| && ak[j] == k;
    }
  }

  // ---------------------------------------------------------------- what the comparison confuses

  /** An object that could be an array: its keys are "0" up to some n. */
  ghost predicate ArrayLike(o: map<string, Value>) {
    exists n: nat :: IndexKeys(o, n)
  }

  ghost predicate IndexKeys(o: map<string, Value>, n: nat) {
    forall k :: k in o <==> IsIndex(k, n)
  }

  // No object anywhere inside could be an array.
  ghost predicate Plain(v: Value)
    decreases v
  {
    (v.Obj? ==> !ArrayLike(v.fields)) && forall k :: k in Children(v) ==> Plain(Children(v)[k])
  }

  /** The comparison confuses values only by taking an array for an object with
      its index keys: every array is confused with that object, the empty array
      with the empty object, and values without such objects are the same only
      when they are equal. */
  lemma ArraysAreTheirIndexObjects(items: seq<Value>)
    ensures Same(Arr(items), Obj(IndexMap(items))) && Arr(items) != Obj(IndexMap(items))
    ensures ArrayLike(IndexMap(items))
  {
    IndexMapKeys(items);
    assert IndexKeys(IndexMap(items), |items|);
    SameComposite(Arr(items), Obj(IndexMap(items)));
  }

  lemma {:induction false} PlainValuesAreCompared(a: Value, b: Value)
    requires Plain(a) && Plain(b)
    ensures Same(a, b) <==> a == b
    decreases a
  {
    if Composite(a) && Composite(b) && Same(a, b) {
      SameComposite(a, b);
      forall k | k in Children(a) ensures Children(a)[k] == Children(b)[k] {
        PlainValuesAreCompared(Children(a)[k], Children(b)[k]);
      }
      assert Children(a) == Children(b);
      if a.Arr? && b.Arr? {
        SameArrays(a.items, b.items);
        forall i | 0 <= i < |a.items| ensures a.items[i] == b.items[i] {
          IndexMapAt(a.items, i);
          IndexMapAt(b.items, i);
        }
        assert a.items == b.items;
      } else if a.Arr? {
        ArraysAreTheirIndexObjects(a.items);
      } else if b.Arr? {
        ArraysAreTheirIndexObjects(b.items);
      }
    }
  }
}
