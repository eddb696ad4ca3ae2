/** The order in which JavaScript sorts strings: by UTF-16 code unit, which is
    not the order of code points above U+FFFF. */
module Utf16 {
  import opened Text

  // The code units of one character: one, or a surrogate pair.
  function UnitsOf(c: char): seq<int> {
    var n := c as int;
    if n < 0x10000 then [n] else [0xD800 + (n - 0x10000) / 0x400, 0xDC00 + (n - 0x10000) % 0x400]
  }

  /** A character up to U+FFFF is one unit; any other is a high and a low
      surrogate that encode its ten high and ten low bits. */
  lemma UnitsDecode(c: char)
    ensures var u, n := UnitsOf(c), c as int;
      if n <= 0xFFFF then u == [n]
      else |u| == 2 && 0xD800 <= u[0] <= 0xDBFF && 0xDC00 <= u[1] <= 0xDFFF &&
           n == 0x10000 + (u[0] - 0xD800) * 0x400 + (u[1] - 0xDC00)
  {
  }

  function Units(s: string): seq<int> {
    if s == [] then [] else UnitsOf(s[0]) + Units(s[1..])
  }

  predicate UnitsLess(a: seq<int>, b: seq<int>) {
    b != [] && (a == [] || a[0] < b[0] || (a[0] == b[0] && UnitsLess(a[1..], b[1..])))
  }

  // Characters renumbered so that surrogate pairs come before U+E000.
  function Renumbered(c: char): char {
    var n := c as int;
    if n < 0xD800 then c
    else if n < 0x10000 then (n + 0x100000) as char
    else (n - 0x10000 + 0xE000) as char
  }

  /** A sort key: comparing keys by code point compares strings by code unit. */
  function SortKey(s: string): string { seq(|s|, i requires 0 <= i < |s| => Renumbered(s[i])) }

  lemma SortKeyInjective(a: string, b: string)
    requires SortKey(a) == SortKey(b)
    ensures a == b
  {
    assert |a| == |SortKey(a)| == |SortKey(b)| == |b|;
    forall i | 0 <= i < |a| ensures a[i] == b[i] {
      assert SortKey(a)[i] == SortKey(b)[i];
    }
  }

  // Two different characters differ in a unit that both have.
  lemma CharOrder(c: char, d: char, x: seq<int>, y: seq<int>)
    requires c != d
    ensures UnitsLess(UnitsOf(c) + x, UnitsOf(d) + y) <==> Renumbered(c) < Renumbered(d)
  {
    var a, b := UnitsOf(c) + x, UnitsOf(d) + y;
    if c as int >= 0x10000 && d as int >= 0x10000 {
      assert a[1..][0] == UnitsOf(c)[1] && b[1..][0] == UnitsOf(d)[1];
    }
  }

  lemma {:induction false} SameHeadOrder(p: seq<int>, x: seq<int>, y: seq<int>)
    ensures UnitsLess(p + x, p + y) <==> UnitsLess(x, y)
  {
    if p == [] {
      assert p + x == x && p + y == y;
    } else {
      assert (p + x)[1..] == p[1..] + x && (p + y)[1..] == p[1..] + y;
      SameHeadOrder(p[1..], x, y);
    }
  }

  lemma {:induction false} SortKeyOrder(a: string, b: string)
    ensures Less(SortKey(a), SortKey(b)) <==> UnitsLess(Units(a), Units(b))
  {
    if a != [] && b != [] {
      assert SortKey(a)[1..] == SortKey(a[1..]) && SortKey(b)[1..] == SortKey(b[1..]);
      if a[0] == b[0] {
        SortKeyOrder(a[1..], b[1..]);
        SameHeadOrder(UnitsOf(a[0]), Units(a[1..]), Units(b[1..]));
      } else {
        CharOrder(a[0], b[0], Units(a[1..]), Units(b[1..]));
        assert Renumbered(a[0]) != Renumbered(b[0]);
      }
    }
  }
}
