/** The label-selector mini-language that targets proxy hosts at agents. */
module Labels {
  import opened Wrappers
  import opened Text
  import opened Sorting

  type Requirements = map<string, string>

  datatype SelectorError = NotKeyValue(part: string) | EmptyKey(part: string) | Contradictory(key: string)

  function AddPart(reqs: Requirements, part: string): Result<Requirements, SelectorError> {
    var p := TrimSpace(part);
    if p == "" then Success(reqs)
    else match Cut(p, '=')
      case None => Failure(NotKeyValue(p))
      case Some((rawKey, rawValue)) =>
        var k, v := TrimSpace(rawKey), TrimSpace(rawValue);
        if k == "" then Failure(EmptyKey(p))
        else if k in reqs && reqs[k] != v then Failure(Contradictory(k))
        else Success(reqs[k := v])
  }

  function AddParts(reqs: Requirements, parts: seq<string>): Result<Requirements, SelectorError>
    decreases |parts|
  {
    if parts == [] then Success(reqs)
    else match AddPart(reqs, parts[0])
      case Failure(e) => Failure(e)
      case Success(r) => AddParts(r, parts[1..])
  }

  function Parsed(raw: string): Result<Requirements, SelectorError> {
    var s := TrimSpace(raw);
    if s == "" then Success(map[]) else AddParts(map[], Split(s, ','))
  }

  method Parse(raw: string) returns (r: Result<Requirements, SelectorError>)
    ensures r == Parsed(raw)
  {
    var reqs: Requirements := map[];
    var s := TrimSpace(raw);
    if s == "" {
      return Success(reqs);
    }
    var parts := Split(s, ',');
    for i := 0 to |parts|
      invariant AddParts(reqs, parts[i..]) == Parsed(raw)
    {
      assert parts[i..][1..] == parts[i + 1..];
      var part := TrimSpace(parts[i]);
      if part == "" {
        continue;
      }
      match Cut(part, '=')
      case None => return Failure(NotKeyValue(part));
      case Some((rawKey, rawValue)) =>
        var k, v := TrimSpace(rawKey), TrimSpace(rawValue);
        if k == "" {
          return Failure(EmptyKey(part));
        }
        if k in reqs && reqs[k] != v {
          return Failure(Contradictory(k));
        }
        reqs := reqs[k := v];
    }
    r := Success(reqs);
  }

  // What an agent's label list says about each key: the last entry wins and
  // entries without '=' say nothing.
  function Have(agentLabels: seq<string>): Requirements {
    if agentLabels == [] then map[]
    else
      var have := Have(agentLabels[..|agentLabels| - 1]);
      match Cut(agentLabels[|agentLabels| - 1], '=')
      case None => have
      case Some((k, v)) => have[TrimSpace(k) := TrimSpace(v)]
  }

  predicate Selects(reqs: Requirements, agentLabels: seq<string>) {
    forall k :: k in reqs ==> k in Have(agentLabels) && Have(agentLabels)[k] == reqs[k]
  }

  method Matches(reqs: Requirements, agentLabels: seq<string>) returns (ok: bool)
    ensures ok <==> Selects(reqs, agentLabels)
  {
    if reqs == map[] {
      return true;
    }
    var have: Requirements := map[];
    for i := 0 to |agentLabels|
      invariant have == Have(agentLabels[..i])
    {
      assert agentLabels[..i + 1][..i] == agentLabels[..i];
      match Cut(agentLabels[i], '=')
      case None =>
      case Some((k, v)) => have := have[TrimSpace(k) := TrimSpace(v)];
    }
    assert agentLabels[..|agentLabels|] == agentLabels;
    var todo := reqs.Keys;
    while todo != {}
      invariant todo <= reqs.Keys
      invariant forall k :: k in reqs && k !in todo ==> k in have && have[k] == reqs[k]
    {
      var k :| k in todo;
      if k !in have || have[k] != reqs[k] {
        return false;
      }
      todo := todo - {k};
    }
    ok := true;
  }

  function Self(k: string): string { k }

  function Requirement(reqs: Requirements, k: string): string
    requires k in reqs
  {
    k + "=" + reqs[k]
  }

  function AllRequirements(reqs: Requirements, keys: seq<string>): (parts: seq<string>)
    requires forall k :: k in keys ==> k in reqs
    ensures |parts| == |keys| && forall i :: 0 <= i < |keys| ==> parts[i] == Requirement(reqs, keys[i])
  {
    seq(|keys|, i requires 0 <= i < |keys| => Requirement(reqs, keys[i]))
  }

  ghost predicate KeyOrder(keys: seq<string>, reqs: Requirements) {
    multiset(keys) == multiset(reqs.Keys) && SortedBy(keys, Self)
  }

  lemma KeysInOrder(keys: seq<string>, reqs: Requirements)
    requires multiset(keys) == multiset(reqs.Keys)
    ensures forall k :: k in keys <==> k in reqs
    ensures DistinctKeys(keys, Self)
  {
    forall k ensures k in keys <==> k in reqs {
      assert k in keys <==> k in multiset(keys);
      assert k in reqs <==> k in multiset(reqs.Keys);
    }
    forall i, j | 0 <= i < j < |keys| ensures Self(keys[i]) != Self(keys[j]) {
      assert multiset(keys)[keys[i]] <= 1;
      assert keys == keys[..j] + [keys[j]] + keys[j + 1..];
      assert keys[i] in keys[..j];
    }
  }

  // Keys as a map iteration yields them: all of them, in no particular order.
  method KeysOf(reqs: Requirements) returns (unordered: seq<string>)
    ensures multiset(unordered) == multiset(reqs.Keys)
  {
    unordered := [];
    var todo := reqs.Keys;
    while todo != {}
      invariant todo <= reqs.Keys
      invariant multiset(unordered) == multiset(reqs.Keys - todo)
    {
      var k :| k in todo;
      assert reqs.Keys - (todo - {k}) == (reqs.Keys - todo) + {k};
      unordered := unordered + [k];
      todo := todo - {k};
    }
    assert reqs.Keys - todo == reqs.Keys;
  }

  /** Selector.String: the keys come out of the map in any order, are sorted,
      and written key=value with commas. */
  method String(reqs: Requirements) returns (s: string)
    ensures exists keys :: KeyOrder(keys, reqs) && s == Written(reqs, keys)
  {
    var unordered := KeysOf(reqs);
    var keys := SortBy(unordered, Self);
    assert KeyOrder(keys, reqs);
    KeysInOrder(keys, reqs);
    var parts := [];
    for i := 0 to |keys|
      invariant |parts| == i
      invariant forall j :: 0 <= j < i ==> parts[j] == Requirement(reqs, keys[j])
    {
      parts := parts + [Requirement(reqs, keys[i])];
    }
    assert parts == AllRequirements(reqs, keys);
    s := Join(parts, ',');
  }

  ghost function Written(reqs: Requirements, keys: seq<string>): string {
    if forall k :: k in keys ==> k in reqs then Join(AllRequirements(reqs, keys), ',') else ""
  }

  // ---------------------------------------------------------------- parsing ignores outer space

  ghost predicate SameTrimmed(a: seq<string>, b: seq<string>) {
    |a| == |b| && forall i :: 0 <= i < |a| ==> TrimSpace(a[i]) == TrimSpace(b[i])
  }

  lemma {:induction false} SameTrimmedParts(reqs: Requirements, a: seq<string>, b: seq<string>)
    requires SameTrimmed(a, b)
    ensures AddParts(reqs, a) == AddParts(reqs, b)
    decreases |a|
  {
    if a != [] {
      match AddPart(reqs, a[0])
      case Failure(_) =>
      case Success(r) => SameTrimmedParts(r, a[1..], b[1..]);
    }
  }

  lemma {:induction false} TrimRightCons(c: char, s: string)
    requires IsSpace(c)
    ensures TrimRight([c] + s) == if TrimRight(s) == [] then [] else [c] + TrimRight(s)
  {
    var t := [c] + s;
    if s == [] {
      assert t[..|t| - 1] == [];
    } else if IsSpace(s[|s| - 1]) {
      assert t[|t| - 1] == s[|s| - 1];
      assert t[..|t| - 1] == [c] + s[..|s| - 1];
      TrimRightCons(c, s[..|s| - 1]);
    } else {
      assert t[|t| - 1] == s[|s| - 1];
    }
  }

  lemma TrimSpaceCons(c: char, s: string)
    requires IsSpace(c)
    ensures TrimSpace([c] + s) == TrimSpace(s)
  {
    TrimRightCons(c, s);
    assert ([c] + TrimRight(s))[1..] == TrimRight(s);
  }

  lemma CommaIsNotSpace()
    ensures !IsSpace(',')
  {
  }

  lemma {:induction false} SplitTrimLeft(s: string)
    ensures SameTrimmed(Split(TrimLeft(s), ','), Split(s, ','))
  {
    hide IsSpace, TrimSpace;
    CommaIsNotSpace();
    if s != [] && IsSpace(s[0]) {
      SplitTrimLeft(s[1..]);
      TrimSpaceCons(s[0], Split(s[1..], ',')[0]);
    }
  }

  lemma TrimSpaceSnoc(s: string, c: char)
    requires IsSpace(c)
    ensures TrimSpace(s + [c]) == TrimSpace(s)
  {
    assert (s + [c])[..|s|] == s;
  }

  // Adding a space at the end only lengthens the last part.
  lemma SplitSpaceSnoc(t: string, c: char)
    requires IsSpace(c)
    ensures SameTrimmed(Split(t, ','), Split(t + [c], ','))
  {
    hide Split, TrimSpace;
    SplitSnoc(t, c, ',');
    var p := Split(t, ',');
    TrimSpaceSnoc(p[|p| - 1], c);
  }

  lemma SameTrimmedTransitive(a: seq<string>, b: seq<string>, c: seq<string>)
    requires SameTrimmed(a, b) && SameTrimmed(b, c)
    ensures SameTrimmed(a, c)
  {
    hide TrimSpace;
  }

  lemma {:induction false} SplitTrimRight(s: string)
    ensures SameTrimmed(Split(TrimRight(s), ','), Split(s, ','))
  {
    if s != [] && IsSpace(s[|s| - 1]) {
      hide Split, TrimSpace, SameTrimmed;
      var t, c := s[..|s| - 1], s[|s| - 1];
      assert s == t + [c];
      SplitTrimRight(t);
      SplitSpaceSnoc(t, c);
      SameTrimmedTransitive(Split(TrimRight(t), ','), Split(t, ','), Split(s, ','));
    }
  }

  lemma ParsedIsFold(raw: string)
    ensures Parsed(raw) == AddParts(map[], Split(raw, ','))
  {
    SplitTrimRight(raw);
    SplitTrimLeft(TrimRight(raw));
    var s := TrimSpace(raw);
    SameTrimmedParts(map[], Split(s, ','), Split(raw, ','));
    if s == "" {
      assert Split(s, ',') == [""];
      assert AddParts(map[], [""]) == AddParts(map[], [""][1..]);
    }
  }

  // ---------------------------------------------------------------- round trip

  /** What every parsed selector looks like. */
  ghost predicate Canonical(reqs: Requirements) {
    forall k :: k in reqs ==>
      k != "" && Trimmed(k) && Trimmed(reqs[k]) && ',' !in k && '=' !in k && ',' !in reqs[k]
  }

  lemma {:induction false} SplitParts(s: string, sep: char)
    ensures forall p :: p in Split(s, sep) ==> sep !in p
  {
    if s != [] { SplitParts(s[1..], sep); }
  }

  lemma TrimSpaceChars(s: string)
    ensures forall c :: c in TrimSpace(s) ==> c in s
  {
    var i, j := TrimSpaceParts(s);
  }

  lemma {:induction false} AddPartsCanonical(reqs: Requirements, parts: seq<string>)
    requires Canonical(reqs) && forall p :: p in parts ==> ',' !in p
    requires AddParts(reqs, parts).Success?
    ensures Canonical(AddParts(reqs, parts).value)
    decreases |parts|
  {
    if parts != [] {
      var p := TrimSpace(parts[0]);
      TrimSpaceChars(parts[0]);
      match Cut(p, '=') {
        case None =>
        case Some((k, v)) =>
          TrimSpaceChars(k); TrimSpaceChars(v);
          TrimSpaceFixpoint(k); TrimSpaceFixpoint(v);
          assert forall c :: c in k || c in v ==> c in p;
      }
      assert Canonical(AddPart(reqs, parts[0]).value);
      AddPartsCanonical(AddPart(reqs, parts[0]).value, parts[1..]);
    }
  }

  lemma AddRequirement(base: Requirements, reqs: Requirements, k: string)
    requires Canonical(reqs) && k in reqs && k !in base
    ensures AddPart(base, Requirement(reqs, k)) == Success(base[k := reqs[k]])
  {
    var part := Requirement(reqs, k);
    assert part[0] == k[0];
    assert part[|part| - 1] == if reqs[k] == "" then '=' else reqs[k][|reqs[k]| - 1];
    TrimSpaceFixpoint(part);
    TrimSpaceFixpoint(k);
    TrimSpaceFixpoint(reqs[k]);
    CutFirst(k, '=', reqs[k]);
    assert part == k + ['='] + reqs[k];
  }

  lemma {:induction false} AddAllRequirements(base: Requirements, reqs: Requirements, keys: seq<string>)
    requires Canonical(reqs) && DistinctKeys(keys, Self)
    requires forall k :: k in keys ==> k in reqs && k !in base
    ensures AddParts(base, AllRequirements(reqs, keys)) == Success(base + Chosen(reqs, keys))
    decreases |keys|
  {
    var parts := AllRequirements(reqs, keys);
    if keys == [] {
      assert base + Chosen(reqs, keys) == base;
    } else {
      var k := keys[0];
      AddRequirement(base, reqs, k);
      assert parts[1..] == AllRequirements(reqs, keys[1..]);
      DistinctTail(keys);
      AddAllRequirements(base[k := reqs[k]], reqs, keys[1..]);
      ChosenTail(base, reqs, keys);
    }
  }

  function Chosen(reqs: Requirements, keys: seq<string>): Requirements {
    map k | k in keys && k in reqs :: reqs[k]
  }

  lemma ChosenTail(base: Requirements, reqs: Requirements, keys: seq<string>)
    requires keys != [] && keys[0] in reqs
    ensures base[keys[0] := reqs[keys[0]]] + Chosen(reqs, keys[1..]) == base + Chosen(reqs, keys)
  {
    assert keys == [keys[0]] + keys[1..];
  }

  lemma DistinctTail(keys: seq<string>)
    requires keys != [] && DistinctKeys(keys, Self)
    ensures keys[0] !in keys[1..] && DistinctKeys(keys[1..], Self)
  {
    forall i | 1 <= i < |keys| ensures keys[i] != keys[0] {
      assert Self(keys[0]) != Self(keys[i]);
    }
    forall i, j | 0 <= i < j < |keys[1..]| ensures Self(keys[1..][i]) != Self(keys[1..][j]) {
      assert Self(keys[i + 1]) != Self(keys[j + 1]);
    }
  }

  lemma PartsHaveNoComma(reqs: Requirements, keys: seq<string>)
    requires Canonical(reqs) && forall k :: k in keys ==> k in reqs
    ensures forall p :: p in AllRequirements(reqs, keys) ==> ',' !in p
  {
    var parts := AllRequirements(reqs, keys);
    forall p | p in parts ensures ',' !in p {
      var i :| 0 <= i < |parts| && parts[i] == p;
      assert keys[i] in reqs;
    }
  }

  lemma WrittenParses(reqs: Requirements, keys: seq<string>)
    requires Canonical(reqs) && DistinctKeys(keys, Self)
    requires forall k :: k in keys ==> k in reqs
    ensures Parsed(Join(AllRequirements(reqs, keys), ',')) == Success(Chosen(reqs, keys))
  {
    hide Parsed, Canonical, Split;
    var parts := AllRequirements(reqs, keys);
    ParsedIsFold(Join(parts, ','));
    if keys == [] {
      SplitSingle("", ',');
      assert AddParts(map[], [""]) == AddParts(map[], [""][1..]);
    } else {
      PartsHaveNoComma(reqs, keys);
      SplitJoin(parts, ',');
      AddAllRequirements(map[], reqs, keys);
      assert map[] + Chosen(reqs, keys) == Chosen(reqs, keys);
    }
  }

  /** Re-encoding a parsed selector and parsing it again gives it back,
      whatever order the map was iterated in. */
  lemma ParseStringRoundTrip(raw: string, reqs: Requirements, keys: seq<string>)
    requires Parsed(raw) == Success(reqs) && KeyOrder(keys, reqs)
    ensures Parsed(Written(reqs, keys)) == Success(reqs)
  {
    hide Parsed, Canonical;
    ParsedCanonical(raw);
    KeysInOrder(keys, reqs);
    WrittenParses(reqs, keys);
    assert Chosen(reqs, keys) == reqs;
  }

  /** The canonical encoding does not depend on map iteration order. */
  lemma StringDeterministic(reqs: Requirements, a: seq<string>, b: seq<string>)
    requires KeyOrder(a, reqs) && KeyOrder(b, reqs)
    ensures Written(reqs, a) == Written(reqs, b)
  {
    KeysInOrder(a, reqs);
    SortUnique(a, b, Self);
  }

  // ---------------------------------------------------------------- what a selector says

  /** The text reads key=value: the key is what stands before its first '=' and
      the value what stands after it, both without space at the ends. */
  ghost predicate Says(s: string, k: string, v: string) {
    exists i :: SaysAt(s, k, v, i)
  }

  ghost predicate SaysAt(s: string, k: string, v: string, i: int) {
    0 <= i < |s| && s[i] == '=' && '=' !in s[..i] && StripsTo(s[..i], k) && StripsTo(s[i + 1..], v)
  }

  lemma InPrefix(s: string, i: int, n: int)
    requires 0 <= i < n <= |s| && s[i] == '='
    ensures '=' in s[..n]
  {
    assert s[..n][i] == '=';
  }

  lemma SaysHasEquals(s: string, k: string, v: string)
    requires Says(s, k, v)
    ensures '=' in s
  {
  }

  lemma CutSays(s: string, k: string, v: string)
    ensures Says(s, k, v) <==>
      var c := Cut(s, '='); c.Some? && TrimSpace(c.value.0) == k && TrimSpace(c.value.1) == v
  {
    hide Cut, TrimSpace, StripsTo;
    var c := Cut(s, '=');
    if c.Some? {
      var n := |c.value.0|;
      assert s[..n] == c.value.0 && s[n + 1..] == c.value.1 && s[n] == '=';
      TrimSpaceExact(s[..n], k);
      TrimSpaceExact(s[n + 1..], v);
      if i :| SaysAt(s, k, v, i) {
        if i < n { InPrefix(s, i, n); }
        if n < i { InPrefix(s, n, i); }
      }
      if TrimSpace(c.value.0) == k && TrimSpace(c.value.1) == v { assert SaysAt(s, k, v, n); }
    }
  }

  lemma EqualsIsNotSpace()
    ensures !IsSpace('=')
  {
  }

  // Cutting first and trimming the pieces is the same as trimming first.
  lemma CutTrimmed(s: string)
    ensures var c, d := Cut(s, '='), Cut(TrimSpace(s), '=');
      && (c.Some? <==> d.Some?)
      && (c.Some? ==> TrimSpace(c.value.0) == TrimSpace(d.value.0) && TrimSpace(c.value.1) == TrimSpace(d.value.1))
  {
    hide TrimSpace, IsSpace, Cut;
    EqualsIsNotSpace();
    var i, j := TrimSpaceParts(s);
    var d := Cut(TrimSpace(s), '=');
    assert s == s[..i] + TrimSpace(s) + s[j..];
    if d.Some? {
      var k, v := d.value.0, d.value.1;
      assert '=' !in s[..i] + k;
      assert s == (s[..i] + k) + ['='] + (v + s[j..]);
      CutFirst(s[..i] + k, '=', v + s[j..]);
      StripsPadded(s[..i], k, "");
      StripsPadded("", v, s[j..]);
      assert s[..i] + k + "" == s[..i] + k && "" + v + s[j..] == v + s[j..];
    } else {
      assert '=' !in s[..i] && '=' !in s[j..];
    }
  }

  /** A part of a selector that the parser can use. */
  ghost predicate Fine(part: string) {
    AllSpace(part) || exists k, v :: k != "" && Says(part, k, v)
  }

  ghost predicate SaidBy(parts: seq<string>, k: string, v: string) {
    exists i :: 0 <= i < |parts| && Says(parts[i], k, v)
  }

  /** No two parts give one key different values. */
  ghost predicate Agree(parts: seq<string>) {
    forall k, v, w :: SaidBy(parts, k, v) && SaidBy(parts, k, w) ==> v == w
  }

  ghost predicate Maps(reqs: Requirements, k: string, v: string) { k in reqs && reqs[k] == v }

  ghost predicate FitsIn(part: string, reqs: Requirements) {
    forall k, v :: Says(part, k, v) && k in reqs ==> reqs[k] == v
  }

  lemma SilentParts(part: string)
    requires AllSpace(part)
    ensures forall k, v :: !Says(part, k, v)
  {
    EqualsIsNotSpace();
    hide IsSpace, Says;
    forall k, v ensures !Says(part, k, v) {
      if Says(part, k, v) { SaysHasEquals(part, k, v); }
    }
  }

  lemma AddPartExact(reqs: Requirements, part: string)
    ensures AddPart(reqs, part).Success? <==> Fine(part) && FitsIn(part, reqs)
    ensures AddPart(reqs, part).Success? ==>
      forall k, v :: Maps(AddPart(reqs, part).value, k, v) <==> Maps(reqs, k, v) || Says(part, k, v)
  {
    hide TrimSpace, Cut, IsSpace, Says, AllSpace;
    BlankExact(part);
    CutTrimmed(part);
    forall k, v ensures Says(part, k, v) <==>
      var c := Cut(part, '='); c.Some? && TrimSpace(c.value.0) == k && TrimSpace(c.value.1) == v
    {
      CutSays(part, k, v);
    }
    var c, d := Cut(part, '='), Cut(TrimSpace(part), '=');
    if AllSpace(part) {
      SilentParts(part);
    } else if c.Some? {
      assert Says(part, TrimSpace(c.value.0), TrimSpace(c.value.1));
    }
  }

  lemma SaidByCons(parts: seq<string>, k: string, v: string)
    requires parts != []
    ensures SaidBy(parts, k, v) <==> Says(parts[0], k, v) || SaidBy(parts[1..], k, v)
  {
    hide Says;
    if i :| 0 <= i < |parts| && Says(parts[i], k, v) {
      if i > 0 { assert parts[1..][i - 1] == parts[i]; }
    }
  }

  ghost predicate AllFine(parts: seq<string>) { forall i :: 0 <= i < |parts| ==> Fine(parts[i]) }

  ghost predicate AllFitIn(parts: seq<string>, reqs: Requirements) {
    forall k, v :: SaidBy(parts, k, v) && k in reqs ==> reqs[k] == v
  }

  lemma AgreeCons(reqs: Requirements, parts: seq<string>, next: Requirements)
    requires parts != [] && FitsIn(parts[0], reqs)
    requires forall k, v :: Maps(next, k, v) <==> Maps(reqs, k, v) || Says(parts[0], k, v)
    requires forall k, v :: SaidBy(parts, k, v) <==> Says(parts[0], k, v) || SaidBy(parts[1..], k, v)
    ensures Agree(parts) && AllFitIn(parts, reqs) <==> Agree(parts[1..]) && AllFitIn(parts[1..], next)
  {
    hide Says, SaidBy;
    if Agree(parts) && AllFitIn(parts, reqs) {
      forall k, v | SaidBy(parts[1..], k, v) && k in next ensures next[k] == v {
        assert Maps(next, k, next[k]);
      }
    }
    if Agree(parts[1..]) && AllFitIn(parts[1..], next) {
      forall k, v | SaidBy(parts, k, v) && k in reqs ensures reqs[k] == v {
        assert Maps(next, k, reqs[k]);
      }
      forall k, v, w | SaidBy(parts, k, v) && SaidBy(parts, k, w) ensures v == w {
        if Says(parts[0], k, v) { assert Maps(next, k, v); }
        if Says(parts[0], k, w) { assert Maps(next, k, w); }
      }
    }
  }

  lemma {:induction false} AddPartsExact(reqs: Requirements, parts: seq<string>)
    ensures AddParts(reqs, parts).Success? <==> AllFine(parts) && Agree(parts) && AllFitIn(parts, reqs)
    ensures AddParts(reqs, parts).Success? ==>
      forall k, v :: Maps(AddParts(reqs, parts).value, k, v) <==> Maps(reqs, k, v) || SaidBy(parts, k, v)
    decreases |parts|
  {
    hide AddPart, Fine, Says;
    if parts != [] {
      hide Agree, AllFitIn, FitsIn, Maps, SaidBy;
      AddPartExact(reqs, parts[0]);
      forall k, v ensures SaidBy(parts, k, v) <==> Says(parts[0], k, v) || SaidBy(parts[1..], k, v) { SaidByCons(parts, k, v); }
      if AddPart(reqs, parts[0]).Success? {
        var next := AddPart(reqs, parts[0]).value;
        AddPartsExact(next, parts[1..]);
        AgreeCons(reqs, parts, next);
        AllFineCons(parts);
      } else {
        AllFineCons(parts);
        if AllFitIn(parts, reqs) { HeadFits(reqs, parts); }
      }
    }
  }

  lemma AllFineCons(parts: seq<string>)
    requires parts != []
    ensures AllFine(parts) <==> Fine(parts[0]) && AllFine(parts[1..])
  {
    hide Fine;
    if Fine(parts[0]) && AllFine(parts[1..]) {
      forall i | 0 <= i < |parts| ensures Fine(parts[i]) { if i > 0 { assert Fine(parts[1..][i - 1]); } }
    }
  }

  lemma HeadFits(reqs: Requirements, parts: seq<string>)
    requires parts != [] && AllFitIn(parts, reqs)
    ensures FitsIn(parts[0], reqs)
  {
    hide Says;
    forall k, v | Says(parts[0], k, v) && k in reqs ensures reqs[k] == v { assert SaidBy(parts, k, v); }
  }

  /** A selector is accepted exactly when each of its comma-separated parts is
      blank or reads key=value with a key, and no two parts give one key different
      values; it then requires exactly the pairs that its parts say. */
  lemma ParsedExact(raw: string)
    ensures var parts := Split(raw, ',');
      && (Parsed(raw).Success? <==>
            (forall i :: 0 <= i < |parts| ==> Fine(parts[i])) &&
            (forall k, v, w :: SaidBy(parts, k, v) && SaidBy(parts, k, w) ==> v == w))
      && (Parsed(raw).Success? ==>
            forall k, v :: k in Parsed(raw).value && Parsed(raw).value[k] == v <==> SaidBy(parts, k, v))
  {
    hide Parsed, AddParts, Split, Fine, SaidBy;
    ParsedIsFold(raw);
    AddPartsExact(map[], Split(raw, ','));
    assert AllFitIn(Split(raw, ','), map[]);
    if Parsed(raw).Success? {
      forall k, v ensures k in Parsed(raw).value && Parsed(raw).value[k] == v <==> SaidBy(Split(raw, ','), k, v) {
        assert Maps(Parsed(raw).value, k, v) <==> Maps(map[], k, v) || SaidBy(Split(raw, ','), k, v);
      }
    }
  }

  /** What the error of a selector says is wrong with part n. */
  ghost predicate Blames(parts: seq<string>, n: int, e: SelectorError) {
    && 0 <= n < |parts|
    && match e
       case NotKeyValue(p) => p != "" && StripsTo(parts[n], p) && '=' !in parts[n]
       case EmptyKey(p) => StripsTo(parts[n], p) && exists v :: Says(parts[n], "", v)
       case Contradictory(k) => k != "" && exists v, w :: v != w && Says(parts[n], k, v) && SaidBy(parts[..n], k, w)
  }

  // Where the parser stops.
  lemma {:induction false} FirstFault(reqs: Requirements, parts: seq<string>) returns (n: nat)
    requires AddParts(reqs, parts).Failure?
    ensures n < |parts| && AddParts(reqs, parts[..n]).Success?
    ensures AddPart(AddParts(reqs, parts[..n]).value, parts[n]) == Failure(AddParts(reqs, parts).error)
    decreases |parts|
  {
    hide AddPart;
    match AddPart(reqs, parts[0])
    case Failure(_) =>
      n := 0;
    case Success(next) =>
      var m := FirstFault(next, parts[1..]);
      n := m + 1;
      assert parts[..n][0] == parts[0] && parts[..n][1..] == parts[1..][..m];
  }

  lemma PartBlamed(parts: seq<string>, n: nat, reqs: Requirements)
    requires n < |parts| && AddPart(reqs, parts[n]).Failure?
    requires forall k, v :: Maps(reqs, k, v) <==> SaidBy(parts[..n], k, v)
    ensures Blames(parts, n, AddPart(reqs, parts[n]).error)
  {
    hide TrimSpace, Cut, StripsTo, Says, SaidBy;
    var c := Cut(parts[n], '=');
    CutTrimmed(parts[n]);
    TrimSpaceExact(parts[n], TrimSpace(parts[n]));
    if c.Some? {
      var k, v := TrimSpace(c.value.0), TrimSpace(c.value.1);
      CutSays(parts[n], k, v);
      if k in reqs { assert Maps(reqs, k, reqs[k]); }
    }
  }

  /** A rejected selector is blamed on its first part that cannot be used: the
      parts before it alone are accepted. */
  lemma ParseErrorExact(raw: string)
    requires Parsed(raw).Failure?
    ensures var parts := Split(raw, ',');
      exists n :: Blames(parts, n, Parsed(raw).error) && AllFine(parts[..n]) && Agree(parts[..n])
  {
    hide Parsed, AddParts, AddPart, Split, Fine, SaidBy, Blames;
    ParsedIsFold(raw);
    var parts := Split(raw, ',');
    var n := FirstFault(map[], parts);
    AddPartsExact(map[], parts[..n]);
    PartBlamed(parts, n, AddParts(map[], parts[..n]).value);
  }

  /** The labels' last word on a key is this value. */
  ghost predicate LastWord(labels: seq<string>, k: string, v: string) {
    exists i :: 0 <= i < |labels| && Says(labels[i], k, v) && forall j, w :: i < j < |labels| ==> !Says(labels[j], k, w)
  }

  lemma {:induction false} HaveExact(labels: seq<string>, k: string, v: string)
    ensures Maps(Have(labels), k, v) <==> LastWord(labels, k, v)
  {
    hide Says, Cut, TrimSpace;
    if labels != [] {
      var n := |labels| - 1;
      var init := labels[..n];
      assert labels == init + [labels[n]];
      HaveExact(init, k, v);
      HaveSnoc(init, labels[n]);
      forall x, w ensures Says(labels[n], x, w) <==>
        var c := Cut(labels[n], '='); c.Some? && TrimSpace(c.value.0) == x && TrimSpace(c.value.1) == w
      {
        CutSays(labels[n], x, w);
      }
      if Says(labels[n], k, v) {
        assert LastWord(labels, k, v);
      } else if w :| Says(labels[n], k, w) {
        assert !LastWord(labels, k, v);
      } else {
        var c := Cut(labels[n], '=');
        assert c.Some? ==> Says(labels[n], TrimSpace(c.value.0), TrimSpace(c.value.1));
        if i :| 0 <= i < n && Says(init[i], k, v) && forall j, w :: i < j < n ==> !Says(init[j], k, w) {
          assert Says(labels[i], k, v) && forall j, w :: i < j < |labels| ==> !Says(labels[j], k, w);
        }
        if i :| 0 <= i < |labels| && Says(labels[i], k, v) && forall j, w :: i < j < |labels| ==> !Says(labels[j], k, w) {
          assert Says(init[i], k, v) && forall j, w :: i < j < n ==> !Says(init[j], k, w);
        }
      }
    }
  }

  /** A parsed selector selects an agent exactly when the last word of the
      agent's labels on every required key is the required value. */
  lemma SelectsExact(reqs: Requirements, labels: seq<string>)
    ensures Selects(reqs, labels) <==> forall k :: k in reqs ==> LastWord(labels, k, reqs[k])
  {
    hide Have, LastWord;
    forall k | k in reqs ensures k in Have(labels) && Have(labels)[k] == reqs[k] <==> LastWord(labels, k, reqs[k]) {
      HaveExact(labels, k, reqs[k]);
    }
  }

  // ---------------------------------------------------------------- conjunction

  ghost predicate Contradict(a: Requirements, b: Requirements) {
    exists k :: k in a && k in b && a[k] != b[k]
  }

  lemma {:induction false} AddPartsConcat(reqs: Requirements, a: seq<string>, b: seq<string>)
    ensures AddParts(reqs, a + b) ==
            match AddParts(reqs, a) case Failure(e) => Failure(e) case Success(r) => AddParts(r, b)
    decreases |a|
  {
    if a == [] {
      assert a + b == b;
    } else {
      assert (a + b)[1..] == a[1..] + b;
      match AddPart(reqs, a[0])
      case Failure(_) =>
      case Success(r) => AddPartsConcat(r, a[1..], b);
    }
  }

  lemma {:induction false} AddPartsExtends(reqs: Requirements, parts: seq<string>)
    requires AddParts(reqs, parts).Success?
    ensures forall k :: k in reqs ==> k in AddParts(reqs, parts).value && AddParts(reqs, parts).value[k] == reqs[k]
    decreases |parts|
  {
    if parts != [] { AddPartsExtends(AddPart(reqs, parts[0]).value, parts[1..]); }
  }

  lemma AddPartOver(base: Requirements, reqs: Requirements, part: string)
    requires AddPart(reqs, part).Success? && !Contradict(base, reqs)
    ensures var r := AddPart(reqs, part).value;
      if Contradict(base, r) then AddPart(base + reqs, part).Failure?
      else AddPart(base + reqs, part) == Success(base + r)
  {
    var p, r := TrimSpace(part), AddPart(reqs, part).value;
    if p != "" {
      var kv := Cut(p, '=').value;
      var k, v := TrimSpace(kv.0), TrimSpace(kv.1);
      assert r == reqs[k := v];
      if k in base && base[k] != v {
        assert k !in reqs && (base + reqs)[k] == base[k];
      } else {
        assert !Contradict(base, r);
        assert (base + reqs)[k := v] == base + r;
      }
    }
  }

  lemma {:induction false} AddPartsOver(base: Requirements, reqs: Requirements, parts: seq<string>)
    requires AddParts(reqs, parts).Success? && !Contradict(base, reqs)
    ensures var r := AddParts(reqs, parts).value;
      if Contradict(base, r) then AddParts(base + reqs, parts).Failure?
      else AddParts(base + reqs, parts) == Success(base + r)
    decreases |parts|
  {
    if parts != [] {
      var next := AddPart(reqs, parts[0]).value;
      AddPartOver(base, reqs, parts[0]);
      if Contradict(base, next) {
        AddPartsExtends(next, parts[1..]);
        var k :| k in base && k in next && base[k] != next[k];
        assert k in AddParts(next, parts[1..]).value;
      } else {
        AddPartsOver(base, next, parts[1..]);
      }
    }
  }

  lemma HaveSnoc(labels: seq<string>, l: string)
    ensures Have(labels + [l]) ==
            match Cut(l, '=')
            case None => Have(labels)
            case Some((k, v)) => Have(labels)[TrimSpace(k) := TrimSpace(v)]
  {
    assert (labels + [l])[..|labels|] == labels;
  }

  lemma HaveRequirement(labels: seq<string>, reqs: Requirements, k: string)
    requires Canonical(reqs) && k in reqs
    ensures Have(labels + [Requirement(reqs, k)]) == Have(labels)[k := reqs[k]]
  {
    HaveSnoc(labels, Requirement(reqs, k));
    CutFirst(k, '=', reqs[k]);
    assert Requirement(reqs, k) == k + ['='] + reqs[k];
    TrimSpaceFixpoint(k);
    TrimSpaceFixpoint(reqs[k]);
  }

  lemma RequirementsSnoc(reqs: Requirements, keys: seq<string>, k: string)
    requires k in reqs && forall x :: x in keys ==> x in reqs
    ensures forall x :: x in keys + [k] ==> x in reqs
    ensures AllRequirements(reqs, keys + [k]) == AllRequirements(reqs, keys) + [Requirement(reqs, k)]
    ensures Chosen(reqs, keys + [k]) == Chosen(reqs, keys)[k := reqs[k]]
  {
    hide Requirement;
  }

  lemma {:induction false} HaveRequirements(reqs: Requirements, keys: seq<string>)
    requires Canonical(reqs) && forall k :: k in keys ==> k in reqs
    ensures Have(AllRequirements(reqs, keys)) == Chosen(reqs, keys)
  {
    if keys == [] {
      assert AllRequirements(reqs, keys) == [];
    } else {
      hide Have, Canonical, Requirement, Chosen, AllRequirements;
      var n := |keys| - 1;
      HaveRequirements(reqs, keys[..n]);
      HaveRequirement(AllRequirements(reqs, keys[..n]), reqs, keys[n]);
      RequirementsSnoc(reqs, keys[..n], keys[n]);
      assert keys == keys[..n] + [keys[n]];
    }
  }

  lemma SatisfiedBySelf(reqs: Requirements) returns (labels: seq<string>)
    requires Canonical(reqs)
    ensures Selects(reqs, labels)
  {
    var keys := SomeOrder(reqs.Keys);
    HaveRequirements(reqs, keys);
    labels := AllRequirements(reqs, keys);
  }

  lemma {:induction false} SomeOrder(s: set<string>) returns (keys: seq<string>)
    ensures forall k :: k in keys <==> k in s
  {
    if s == {} { return []; }
    var x :| x in s;
    keys := SomeOrder(s - {x});
    keys := [x] + keys;
  }

  lemma JoinedRequirements(a: string, b: string)
    requires Parsed(a).Success? && Parsed(b).Success?
    ensures var ra, rb, j := Parsed(a).value, Parsed(b).value, Parsed(a + "," + b);
      if Contradict(ra, rb) then j.Failure? else j == Success(ra + rb)
  {
    hide Parsed, Split, AddParts;
    var ra := Parsed(a).value;
    ParsedIsFold(a); ParsedIsFold(b); ParsedIsFold(a + "," + b);
    assert a + "," + b == a + [','] + b;
    SplitConcat(a, b, ',');
    AddPartsConcat(map[], Split(a, ','), Split(b, ','));
    AddPartsOver(ra, map[], Split(b, ','));
    assert ra + map[] == ra;
  }

  lemma ParsedCanonical(raw: string)
    requires Parsed(raw).Success?
    ensures Canonical(Parsed(raw).value)
  {
    hide Parsed, AddParts, Split;
    ParsedIsFold(raw);
    SplitParts(raw, ',');
    AddPartsCanonical(map[], Split(raw, ','));
  }

  /** Two valid selectors joined by a comma: the join is rejected exactly when
      no label set at all satisfies both, and otherwise it selects exactly the
      agents that both select. */
  lemma JoinIsConjunction(a: string, b: string)
    requires Parsed(a).Success? && Parsed(b).Success?
    ensures var j := Parsed(a + "," + b);
      && (j.Failure? <==> Contradict(Parsed(a).value, Parsed(b).value))
      && (j.Failure? <==> forall l :: !(Selects(Parsed(a).value, l) && Selects(Parsed(b).value, l)))
      && (j.Success? ==> forall l ::
            Selects(j.value, l) <==> Selects(Parsed(a).value, l) && Selects(Parsed(b).value, l))
  {
    hide Parsed, Canonical, Have;
    var ra, rb, j := Parsed(a).value, Parsed(b).value, Parsed(a + "," + b);
    JoinedRequirements(a, b);
    if !Contradict(ra, rb) {
      forall l ensures Selects(ra + rb, l) <==> Selects(ra, l) && Selects(rb, l) {
        if Selects(ra + rb, l) { BothSelected(ra, rb, l); }
      }
      ParsedCanonical(a + "," + b);
      var l := SatisfiedBySelf(ra + rb);
      BothSelected(ra, rb, l);
    }
  }

  lemma BothSelected(ra: Requirements, rb: Requirements, l: seq<string>)
    requires !Contradict(ra, rb) && Selects(ra + rb, l)
    ensures Selects(ra, l) && Selects(rb, l)
  {
    forall k | k in ra ensures k in Have(l) && Have(l)[k] == ra[k] {
      assert k in ra + rb;
      assert (ra + rb)[k] == ra[k];
    }
    forall k | k in rb ensures k in Have(l) && Have(l)[k] == rb[k] {
      assert k in ra + rb;
    }
  }
}
