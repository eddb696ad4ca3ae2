/** The string operations the manager and the provider use: a string is a
    sequence of code points, as a Go string is when it is ranged over. */
module Text {
  import opened Wrappers

  // Unicode White_Space, as strings.TrimSpace sees it.
  predicate IsSpace(c: char) {
    var n := c as int;
    || 0x09 <= n <= 0x0D || n == 0x20 || n == 0x85 || n == 0xA0 || n == 0x1680
    || 0x2000 <= n <= 0x200A || n == 0x2028 || n == 0x2029 || n == 0x202F || n == 0x205F || n == 0x3000
  }

  lemma SpacesAreThese(c: char)
    ensures IsSpace(c) <==>
      c as int in {0x09, 0x0A, 0x0B, 0x0C, 0x0D, 0x20, 0x85, 0xA0, 0x1680, 0x2000, 0x2001, 0x2002, 0x2003, 0x2004, 0x2005,
                   0x2006, 0x2007, 0x2008, 0x2009, 0x200A, 0x2028, 0x2029, 0x202F, 0x205F, 0x3000}
  {
  }

  function TrimLeft(s: string): (r: string)
    ensures |r| <= |s|
    ensures r == [] || !IsSpace(r[0])
  {
    if s != [] && IsSpace(s[0]) then TrimLeft(s[1..]) else s
  }

  function TrimRight(s: string): (r: string)
    ensures r <= s
    ensures r == [] || !IsSpace(r[|r| - 1])
  {
    if s != [] && IsSpace(s[|s| - 1]) then TrimRight(s[..|s| - 1]) else s
  }

  function TrimSpace(s: string): (r: string) {
    TrimLeft(TrimRight(s))
  }

  predicate Trimmed(s: string) {
    s == [] || (!IsSpace(s[0]) && !IsSpace(s[|s| - 1]))
  }

  lemma {:induction false} TrimLeftKeeps(s: string)
    ensures var r := TrimLeft(s);
      && |r| <= |s| && r == s[|s| - |r|..] && (r != [] ==> !IsSpace(r[0]))
      && (r == s <==> s == [] || !IsSpace(s[0])) && (r != s ==> |r| < |s|)
  {
    hide IsSpace;
    if s != [] && IsSpace(s[0]) {
      TrimLeftKeeps(s[1..]);
      var r := TrimLeft(s[1..]);
      assert TrimLeft(s) == r && s[1..][|s| - 1 - |r|..] == s[|s| - |r|..];
    } else {
      assert TrimLeft(s) == s;
    }
  }

  lemma {:induction false} TrimRightPrefix(s: string)
    ensures var r := TrimRight(s);
      && |r| <= |s| && r == s[..|r|] && (r != [] ==> !IsSpace(r[|r| - 1]))
      && (r == s <==> s == [] || !IsSpace(s[|s| - 1])) && (r != s ==> |r| < |s|)
  {
    hide IsSpace;
    if s != [] && IsSpace(s[|s| - 1]) {
      TrimRightPrefix(s[..|s| - 1]);
      var r := TrimRight(s[..|s| - 1]);
      assert TrimRight(s) == r && s[..|s| - 1][..|r|] == s[..|r|];
    } else {
      assert TrimRight(s) == s;
    }
  }

  /** Trimming leaves a string with no space at either end, changes nothing
      when there was none, and shortens the string otherwise. */
  lemma TrimSpaceFixpoint(s: string)
    ensures Trimmed(TrimSpace(s))
    ensures TrimSpace(s) == s <==> Trimmed(s)
    ensures TrimSpace(s) != s ==> |TrimSpace(s)| < |s|
  {
    hide IsSpace, TrimLeft, TrimRight;
    var t := TrimRight(s);
    TrimRightPrefix(s);
    TrimLeftKeeps(t);
    var u := TrimLeft(t);
    if u != [] { assert u[|u| - 1] == t[|t| - 1]; }
  }

  predicate AllSpace(s: string) { forall i :: 0 <= i < |s| ==> IsSpace(s[i]) }

  lemma {:induction false} TrimLeftDrops(s: string)
    ensures var r := TrimLeft(s); |r| <= |s| && r == s[|s| - |r|..] && AllSpace(s[..|s| - |r|])
  {
    hide IsSpace;
    if s != [] && IsSpace(s[0]) {
      TrimLeftDrops(s[1..]);
      var r := TrimLeft(s);
      var n := |s| - |r|;
      assert s[1..][n - 1..] == s[n..];
      assert s[..n] == [s[0]] + s[1..][..n - 1];
    } else {
      assert s[0..] == s;
    }
  }

  lemma {:induction false} TrimRightDrops(s: string)
    ensures var r := TrimRight(s); |r| <= |s| && r == s[..|r|] && AllSpace(s[|r|..])
  {
    hide IsSpace;
    if s != [] && IsSpace(s[|s| - 1]) {
      var init := s[..|s| - 1];
      TrimRightDrops(init);
      var r := TrimRight(s);
      assert init[..|r|] == s[..|r|];
      assert s[|r|..] == init[|r|..] + [s[|s| - 1]];
    } else {
      assert s[..|s|] == s;
    }
  }

  lemma TrimSpaceParts(s: string) returns (i: nat, j: nat)
    ensures i <= j <= |s| && TrimSpace(s) == s[i..j] && AllSpace(s[..i]) && AllSpace(s[j..]) && Trimmed(s[i..j])
  {
    hide IsSpace, TrimLeft, TrimRight;
    var t := TrimRight(s);
    var u := TrimLeft(t);
    TrimRightDrops(s);
    TrimLeftDrops(t);
    TrimSpaceFixpoint(s);
    i, j := |t| - |u|, |t|;
    assert s[i..j] == t[i..];
    assert s[..i] == t[..i];
  }

  /** t is s without the space characters at its two ends. */
  ghost predicate StripsTo(s: string, t: string) {
    exists i, j :: StripsAt(s, t, i, j)
  }

  ghost predicate StripsAt(s: string, t: string, i: int, j: int) {
    0 <= i <= j <= |s| && t == s[i..j] && AllSpace(s[..i]) && AllSpace(s[j..]) && Trimmed(t)
  }

  lemma SpaceOutside(s: string, t: string, i: int, j: int, k: int)
    requires StripsAt(s, t, i, j) && 0 <= k < |s| && (k < i || j <= k)
    ensures IsSpace(s[k])
  {
    hide IsSpace;
    if k < i { assert s[..i][k] == s[k]; } else { assert s[j..][k - j] == s[k]; }
  }

  lemma StripsUnique(s: string, t: string, i: int, j: int, u: string, m: int, n: int)
    requires StripsAt(s, t, i, j) && StripsAt(s, u, m, n) && |u| <= |t|
    ensures t == u
  {
    hide IsSpace;
    if t != "" {
      if i < m || n <= i { SpaceOutside(s, u, m, n, i); }
      if n < j { SpaceOutside(s, u, m, n, j - 1); }
    }
  }

  /** strings.TrimSpace takes away all space characters at the two ends and
      nothing else. */
  lemma TrimSpaceExact(s: string, t: string)
    ensures TrimSpace(s) == t <==> StripsTo(s, t)
  {
    hide TrimSpace, IsSpace;
    var i, j := TrimSpaceParts(s);
    assert StripsAt(s, TrimSpace(s), i, j);
    if m, n :| StripsAt(s, t, m, n) {
      if |t| <= |TrimSpace(s)| { StripsUnique(s, TrimSpace(s), i, j, t, m, n); } else { StripsUnique(s, t, m, n, TrimSpace(s), i, j); }
    }
  }

  lemma StripsPadded(a: string, s: string, b: string)
    requires AllSpace(a) && AllSpace(b)
    ensures TrimSpace(a + s + b) == TrimSpace(s)
  {
    hide IsSpace, TrimSpace;
    var i, j := TrimSpaceParts(s);
    var whole, t := a + s + b, TrimSpace(s);
    assert whole[..|a| + i] == a + s[..i];
    assert whole[|a| + j..] == s[j..] + b;
    assert whole[|a| + i..|a| + j] == s[i..j];
    assert StripsAt(whole, t, |a| + i, |a| + j);
    TrimSpaceExact(whole, t);
  }

  lemma BlankExact(s: string)
    ensures TrimSpace(s) == "" <==> AllSpace(s)
  {
    hide TrimSpace, IsSpace;
    TrimSpaceExact(s, "");
    if StripsTo(s, "") {
      var i, j :| StripsAt(s, "", i, j);
      forall k | 0 <= k < |s| ensures IsSpace(s[k]) { SpaceOutside(s, "", i, j, k); }
    }
    if AllSpace(s) { assert StripsAt(s, "", 0, 0); }
  }

  /** strings.Split with a one-character separator. */
  function Split(s: string, sep: char): (parts: seq<string>)
    ensures |parts| > 0
  {
    if s == [] then [[]]
    else
      var rest := Split(s[1..], sep);
      if s[0] == sep then [[]] + rest else [[s[0]] + rest[0]] + rest[1..]
  }

  function Join(parts: seq<string>, sep: char): string {
    if parts == [] then []
    else if |parts| == 1 then parts[0]
    else parts[0] + [sep] + Join(parts[1..], sep)
  }

  /** strings.Cut: the text around the first separator, or None. */
  function Cut(s: string, sep: char): (r: Option<(string, string)>)
    ensures r.Some? <==> sep in s
    ensures r.Some? ==> s == r.value.0 + [sep] + r.value.1 && sep !in r.value.0
  {
    if s == [] then None
    else if s[0] == sep then Some(([], s[1..]))
    else match Cut(s[1..], sep)
      case None => None
      case Some(p) => Some(([s[0]] + p.0, p.1))
  }

  lemma {:induction false} CutFirst(k: string, sep: char, v: string)
    requires sep !in k
    ensures Cut(k + [sep] + v, sep) == Some((k, v))
  {
    var s := k + [sep] + v;
    if k == [] {
      assert s[1..] == v;
    } else {
      assert s[1..] == k[1..] + [sep] + v;
      CutFirst(k[1..], sep, v);
      assert [k[0]] + k[1..] == k;
    }
  }

  lemma {:induction false} SplitSingle(s: string, sep: char)
    requires sep !in s
    ensures Split(s, sep) == [s]
  {
    if s != [] {
      SplitSingle(s[1..], sep);
      assert [s[0]] + s[1..] == s;
    }
  }

  lemma {:induction false} SplitConcat(a: string, b: string, sep: char)
    ensures Split(a + [sep] + b, sep) == Split(a, sep) + Split(b, sep)
  {
    var s := a + [sep] + b;
    if a == [] {
      assert s[1..] == b;
    } else {
      assert s[1..] == a[1..] + [sep] + b;
      SplitConcat(a[1..], b, sep);
    }
  }

  /** Splitting undoes joining when no part holds the separator. */
  lemma {:induction false} SplitJoin(parts: seq<string>, sep: char)
    requires parts != []
    requires forall p :: p in parts ==> sep !in p
    ensures Split(Join(parts, sep), sep) == parts
  {
    SplitSingle(parts[0], sep);
    if |parts| > 1 {
      SplitConcat(parts[0], Join(parts[1..], sep), sep);
      SplitJoin(parts[1..], sep);
    }
  }

  /** Joining undoes splitting, and no part holds the separator. */
  lemma {:induction false} JoinSplit(s: string, sep: char)
    ensures Join(Split(s, sep), sep) == s
    ensures forall p :: p in Split(s, sep) ==> sep !in p
  {
    if s != [] {
      JoinSplit(s[1..], sep);
      var rest, parts := Split(s[1..], sep), Split(s, sep);
      if s[0] == sep {
        assert parts[1..] == rest;
        assert s == [sep] + s[1..];
      } else {
        assert s == [s[0]] + s[1..];
        if |rest| > 1 {
          assert parts[1..] == rest[1..];
          assert [s[0]] + (rest[0] + [sep] + Join(rest[1..], sep)) == parts[0] + [sep] + Join(parts[1..], sep);
        }
      }
    }
  }

  lemma {:induction false} SplitSnoc(s: string, c: char, sep: char)
    requires c != sep
    ensures var p := Split(s, sep); Split(s + [c], sep) == p[..|p| - 1] + [p[|p| - 1] + [c]]
  {
    if s == [] {
      SplitSingle([c], sep);
      assert s + [c] == [c] && Split(s, sep)[0] + [c] == [c];
    } else {
      assert (s + [c])[1..] == s[1..] + [c];
      SplitSnoc(s[1..], c, sep);
      var r, p := Split(s[1..], sep), Split(s, sep);
      var q := Split(s[1..] + [c], sep);
      assert [s[0]] + (r[0] + [c]) == ([s[0]] + r[0]) + [c];
      if s[0] != sep && |r| > 1 {
        assert q[1..] == r[1..][..|r| - 2] + [r[|r| - 1] + [c]];
      }
    }
  }

  predicate HasPrefix(s: string, p: string): (r: bool)
    ensures r <==> |p| <= |s| && forall i :: 0 <= i < |p| ==> s[i] == p[i]
  {
    p <= s
  }

  /** Byte order of UTF-8 strings is code point order. */
  predicate Less(a: string, b: string) {
    b != [] && (a == [] || a[0] < b[0] || (a[0] == b[0] && Less(a[1..], b[1..])))
  }

  predicate Leq(a: string, b: string) { !Less(b, a) }

  // The first position at which two strings differ, or the end of one of them.
  ghost predicate DifferAt(a: string, b: string, n: int) {
    && 0 <= n <= |a| && n < |b| && (forall i :: 0 <= i < n ==> a[i] == b[i])
    && (n == |a| || a[n] as int < b[n] as int)
  }

  /** The order is lexicographic by code point. */
  lemma {:induction false} LessExact(a: string, b: string)
    ensures Less(a, b) <==> exists n :: DifferAt(a, b, n)
  {
    if a == [] || b == [] || a[0] != b[0] {
      if b != [] && (a == [] || a[0] < b[0]) { assert DifferAt(a, b, 0); }
    } else {
      LessExact(a[1..], b[1..]);
      if n :| DifferAt(a[1..], b[1..], n) {
        assert forall i :: 1 <= i < n + 1 ==> a[i] == a[1..][i - 1] && b[i] == b[1..][i - 1];
        assert DifferAt(a, b, n + 1);
      }
      if n :| DifferAt(a, b, n) { assert DifferAt(a[1..], b[1..], n - 1); }
    }
  }

  lemma {:induction false} LessTotal(a: string, b: string)
    ensures Less(a, b) || Less(b, a) || a == b
    ensures !(Less(a, b) && Less(b, a)) && !Less(a, a)
  {
    if a != [] { LessTotal(a[1..], a[1..]); }
    if a != [] && b != [] && a[0] == b[0] {
      LessTotal(a[1..], b[1..]);
      if a[1..] == b[1..] { assert a == [a[0]] + a[1..] == b; }
    }
  }

  lemma {:induction false} LessTransitive(a: string, b: string, c: string)
    requires Less(a, b) && Less(b, c)
    ensures Less(a, c)
  {
    if a != [] && a[0] == b[0] == c[0] { LessTransitive(a[1..], b[1..], c[1..]); }
  }

  lemma LeqTransitive(a: string, b: string, c: string)
    requires Leq(a, b) && Leq(b, c)
    ensures Leq(a, c)
  {
    if Less(c, a) {
      LessTotal(a, b); LessTotal(b, c);
      if a != b && b != c { LessTransitive(c, a, b); LessTotal(b, c); }
    }
  }

  function Digit(d: nat): (c: char)
    requires d < 10
    ensures '0' <= c <= '9'
  {
    (d + '0' as int) as char
  }

  /** fmt's %d of a non-negative number. */
  function Decimal(n: nat): (s: string)
    ensures s != [] && forall i :: 0 <= i < |s| ==> '0' <= s[i] <= '9'
  {
    if n < 10 then [Digit(n)] else Decimal(n / 10) + [Digit(n % 10)]
  }

  lemma {:induction false} DecimalInjective(m: nat, n: nat)
    requires Decimal(m) == Decimal(n)
    ensures m == n
  {
    var a, b := Decimal(m), Decimal(n);
    if m >= 10 && n >= 10 {
      assert a[..|a| - 1] == Decimal(m / 10) && b[..|b| - 1] == Decimal(n / 10);
      DecimalInjective(m / 10, n / 10);
      assert a[|a| - 1] == Digit(m % 10) && b[|b| - 1] == Digit(n % 10);
    }
  }

  /** A number written before a dash is read back uniquely. */
  lemma DecimalDashInjective(m: nat, n: nat, x: string, y: string)
    requires Decimal(m) + "-" + x == Decimal(n) + "-" + y
    ensures m == n && x == y
  {
    var a, b := Decimal(m), Decimal(n);
    var s := a + "-" + x;
    assert s[|a|] == '-' && s[|b|] == '-';
    assert forall i :: 0 <= i < |a| ==> s[i] == a[i] != '-';
    assert forall i :: 0 <= i < |b| ==> s[i] == b[i] != '-';
    assert |a| == |b|;
    assert s[..|a|] == a && s[..|b|] == b;
    DecimalInjective(m, n);
    assert s[|a| + 1..] == x && s[|b| + 1..] == y;
  }

  /** strconv.Atoi on an optional sign and decimal digits (unbounded here). */
  function Atoi(s: string): Option<int> {
    if s == [] then None
    else if s[0] == '-' then
      (match Digits(s[1..]) case None => None case Some(n) => Some(-n))
    else Digits(if s[0] == '+' then s[1..] else s)
  }

  function Digits(s: string): (r: Option<int>)
    ensures r.Some? ==> r.value >= 0
  {
    if s == [] || !('0' <= s[|s| - 1] <= '9') then None
    else
      var d := s[|s| - 1] as int - '0' as int;
      if |s| == 1 then Some(d)
      else match Digits(s[..|s| - 1]) case None => None case Some(n) => Some(10 * n + d)
  }

  lemma {:induction false} DigitsOfDecimal(n: nat)
    ensures Digits(Decimal(n)) == Some(n)
  {
    if n >= 10 { DigitsOfDecimal(n / 10); }
  }

  predicate AllZero(s: string) { forall i :: 0 <= i < |s| ==> s[i] == '0' }

  // The decimal digits of a number, with any number of zeros before them.
  ghost predicate Spells(s: string, n: int) {
    n >= 0 && exists z :: 0 <= z < |s| && AllZero(s[..z]) && s[z..] == Decimal(n)
  }

  lemma DecimalSnoc(n: nat, d: nat)
    requires n > 0 && d < 10
    ensures Decimal(10 * n + d) == Decimal(n) + [Digit(d)]
  {
    assert (10 * n + d) / 10 == n && (10 * n + d) % 10 == d;
  }

  lemma DigitsStep(init: string, d: nat, n: nat)
    requires Spells(init, n) && d < 10
    ensures Spells(init + [Digit(d)], 10 * n + d)
  {
    hide Digit;
    var z :| 0 <= z < |init| && AllZero(init[..z]) && init[z..] == Decimal(n);
    var s := init + [Digit(d)];
    if n == 0 {
      assert init[z] == init[z..][0] == Digit(0) == '0' by { DigitZero(); }
      assert s[..z + 1] == init[..z] + ['0'] && s[z + 1..] == [Digit(d)] == Decimal(d);
    } else {
      DecimalSnoc(n, d);
      assert s[..z] == init[..z] && s[z..] == init[z..] + [Digit(d)];
    }
  }

  lemma DigitZero()
    ensures Digit(0) == '0'
  {
  }

  lemma {:induction false} DigitsSpell(s: string)
    requires Digits(s).Some?
    ensures Spells(s, Digits(s).value)
  {
    hide Spells;
    var init, c := s[..|s| - 1], s[|s| - 1];
    var d := c as int - '0' as int;
    assert s == init + [c] && c == Digit(d);
    if |s| == 1 {
      OneDigit(d);
    } else {
      DigitsSpell(init);
      DigitsStep(init, d, Digits(init).value);
    }
  }

  lemma OneDigit(d: nat)
    requires d < 10
    ensures Spells([Digit(d)], d)
  {
    assert AllZero([Digit(d)][..0]) && [Digit(d)][0..] == Decimal(d);
  }

  lemma {:induction false} DigitsAfterZeros(s: string, z: nat)
    requires z < |s| && AllZero(s[..z])
    ensures Digits(s) == Digits(s[z..])
    decreases |s|
  {
    if z > 0 {
      var init := s[..|s| - 1];
      if z < |init| {
        assert init[..z] == s[..z] && s[z..][..|s| - z - 1] == init[z..];
        DigitsAfterZeros(init, z);
      } else {
        assert init[..z - 1] == s[..z - 1] && init[z - 1..] == ['0'];
        DigitsAfterZeros(init, z - 1);
      }
    }
  }

  /** Digits are read exactly as decimal notation writes them, leading zeros aside. */
  lemma DigitsExact(s: string, n: int)
    ensures Digits(s) == Some(n) <==> Spells(s, n)
  {
    if Digits(s) == Some(n) { DigitsSpell(s); }
    if Spells(s, n) {
      var z :| 0 <= z < |s| && AllZero(s[..z]) && s[z..] == Decimal(n);
      DigitsAfterZeros(s, z);
      DigitsOfDecimal(n);
    }
  }

  /** strconv.Atoi reads an optional sign and then digits. */
  lemma AtoiExact(s: string, n: int)
    ensures Atoi(s) == Some(n) <==>
      Spells(s, n) || (s != "" && s[0] == '+' && Spells(s[1..], n)) || (s != "" && s[0] == '-' && Spells(s[1..], -n))
  {
    hide Digits;
    DigitsExact(s, n);
    if s != "" {
      if Spells(s, n) { StartsWithDigit(s, n); }
      hide Spells;
      DigitsExact(s[1..], n);
      DigitsExact(s[1..], -n);
    }
  }

  lemma StartsWithDigit(s: string, n: int)
    requires Spells(s, n)
    ensures '0' <= s[0] <= '9'
  {
    var z :| 0 <= z < |s| && AllZero(s[..z]) && s[z..] == Decimal(n);
    assert s[0] == if z == 0 then s[z..][0] else s[..z][0];
  }
}
