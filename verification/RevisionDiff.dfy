/** The comparison of two revisions' host lists that the diff page shows. */
module RevisionDiff {
  import opened Wrappers
  import opened Json
  import opened Lists
  import opened DeepEqual

  /** A host as the page receives it: its name and all its other fields. */
  datatype Host = Host(name: string, fields: map<string, Value>)

  datatype Status = Added | Removed | Modified | Unchanged

  datatype Change = Change(field: string, before: Option<Value>, after: Option<Value>)

  datatype HostDiff = HostDiff(name: string, status: Status, before: Option<Host>, after: Option<Host>, changes: seq<Change>)

  const FIELDS := ["domain", "upstream_url", "entry_points", "middlewares", "tls", "label_selector", "enabled"]

  // A field that is not there reads as undefined, which equals only itself.
  function Field(h: Host, f: string): (r: Option<Value>)
    ensures f in h.fields ==> r == Some(h.fields[f])
    ensures f !in h.fields ==> r == None
  {
    if f in h.fields then Some(h.fields[f]) else None
  }

  ghost predicate SameField(x: Option<Value>, y: Option<Value>) {
    if x.Some? && y.Some? then Same(x.value, y.value) else x == y
  }

  /** The hosts show the same in every listed field. */
  ghost predicate SameHost(x: Host, y: Host) {
    forall f :: f in FIELDS ==> SameField(Field(x, f), Field(y, f))
  }

  ghost function Changes(x: Host, y: Host, fields: seq<string>): seq<Change> {
    if fields == [] then []
    else
      var f := fields[|fields| - 1];
      Changes(x, y, fields[..|fields| - 1]) +
      if SameField(Field(x, f), Field(y, f)) then [] else [Change(f, Field(x, f), Field(y, f))]
  }

  method EqualFields(x: Option<Value>, y: Option<Value>) returns (r: bool)
    ensures r == SameField(x, y)
  {
    if x.Some? && y.Some? {
      r := Equal(x.value, y.value);
    } else {
      r := x == y;
    }
  }

  method DiffFields(x: Host, y: Host, fields: seq<string>) returns (out: seq<Change>)
    ensures out == Changes(x, y, fields)
  {
    hide SameField;
    out := [];
    for i := 0 to |fields|
      invariant out == Changes(x, y, fields[..i])
    {
      assert fields[..i + 1][..i] == fields[..i];
      var f := fields[i];
      var same := EqualFields(Field(x, f), Field(y, f));
      if !same {
        out := out + [Change(f, Field(x, f), Field(y, f))];
      }
    }
    assert fields[..|fields|] == fields;
  }

  /** A Map built from a list: of hosts with one name the last stays. */
  function ByName(hosts: seq<Host>): map<string, Host> {
    if hosts == [] then map[] else ByName(hosts[..|hosts| - 1])[hosts[|hosts| - 1].name := hosts[|hosts| - 1]]
  }

  ghost function Compared(name: string, a: map<string, Host>, b: map<string, Host>): HostDiff
    requires name in a || name in b
  {
    if name !in b then HostDiff(name, Removed, Some(a[name]), None, [])
    else if name !in a then HostDiff(name, Added, None, Some(b[name]), [])
    else
      var changes := Changes(a[name], b[name], FIELDS);
      HostDiff(name, if changes == [] then Unchanged else Modified, Some(a[name]), Some(b[name]), changes)
  }

  function Names(d: seq<HostDiff>): (names: seq<string>)
    ensures |names| == |d| && forall i :: 0 <= i < |d| ==> names[i] == d[i].name
  {
    seq(|d|, i requires 0 <= i < |d| => d[i].name)
  }

  /** One entry for every name on either side, in the order of JavaScript's sort. */
  ghost predicate IsDiff(a: map<string, Host>, b: map<string, Host>, d: seq<HostDiff>) {
    && Increasing(Names(d))
    && (forall n :: n in Names(d) <==> n in a || n in b)
    && (forall i :: 0 <= i < |d| ==> (d[i].name in a || d[i].name in b) && d[i] == Compared(d[i].name, a, b))
  }

  method DiffProxyHosts(before: seq<Host>, after: seq<Host>) returns (d: seq<HostDiff>)
    ensures IsDiff(ByName(before), ByName(after), d)
  {
    hide ByName, Increasing, Changes;
    var a, b := ByName(before), ByName(after);
    var names := SortKeys(a.Keys + b.Keys);
    d := [];
    for i := 0 to |names|
      invariant |d| == i && forall j :: 0 <= j < i ==> d[j].name == names[j]
      invariant forall j :: 0 <= j < i ==> (d[j].name in a || d[j].name in b) && d[j] == Compared(d[j].name, a, b)
    {
      var name := names[i];
      assert name in names;
      if name !in b {
        d := d + [HostDiff(name, Removed, Some(a[name]), None, [])];
      } else if name !in a {
        d := d + [HostDiff(name, Added, None, Some(b[name]), [])];
      } else {
        var changes := DiffFields(a[name], b[name], FIELDS);
        var status := if |changes| == 0 then Unchanged else Modified;
        d := d + [HostDiff(name, status, Some(a[name]), Some(b[name]), changes)];
      }
    }
    assert Names(d) == names;
  }

  function Count(d: seq<HostDiff>, s: Status): nat {
    if d == [] then 0 else Count(d[..|d| - 1], s) + if d[|d| - 1].status == s then 1 else 0
  }

  method DiffSummary(d: seq<HostDiff>) returns (added: nat, removed: nat, modified: nat, same: nat)
    ensures added == Count(d, Added) && removed == Count(d, Removed)
    ensures modified == Count(d, Modified) && same == Count(d, Unchanged)
  {
    added, removed, modified, same := 0, 0, 0, 0;
    for i := 0 to |d|
      invariant added == Count(d[..i], Added) && removed == Count(d[..i], Removed)
      invariant modified == Count(d[..i], Modified) && same == Count(d[..i], Unchanged)
    {
      assert d[..i + 1][..i] == d[..i];
      match d[i].status {
        case Added => added := added + 1;
        case Removed => removed := removed + 1;
        case Modified => modified := modified + 1;
        case Unchanged => same := same + 1;
      }
    }
    assert d[..|d|] == d;
  }

  // ---------------------------------------------------------------- names and lists

  ghost predicate UniqueNames(hosts: seq<Host>) {
    forall i, j :: 0 <= i < j < |hosts| ==> hosts[i].name != hosts[j].name
  }

  /** Without repeated names the map holds exactly the listed hosts. */
  lemma {:induction false} ByNameIsExact(hosts: seq<Host>)
    requires UniqueNames(hosts)
    ensures forall h :: h in hosts <==> h.name in ByName(hosts) && ByName(hosts)[h.name] == h
    ensures forall n :: n in ByName(hosts) ==> ByName(hosts)[n].name == n
  {
    if hosts != [] {
      var init, last := hosts[..|hosts| - 1], hosts[|hosts| - 1];
      ByNameIsExact(init);
      assert forall h :: h in hosts <==> h in init || h == last;
      assert forall h :: h in init ==> h.name != last.name;
    }
  }

  // The last host of that name.
  ghost predicate LastNamed(hosts: seq<Host>, name: string, i: int) {
    0 <= i < |hosts| && hosts[i].name == name && forall j :: i < j < |hosts| ==> hosts[j].name != name
  }

  ghost predicate SomeNamed(hosts: seq<Host>, name: string) {
    exists i :: 0 <= i < |hosts| && hosts[i].name == name
  }

  lemma SomeNamedSnoc(hosts: seq<Host>, name: string)
    requires hosts != []
    ensures var n := |hosts| - 1; SomeNamed(hosts, name) <==> SomeNamed(hosts[..n], name) || hosts[n].name == name
  {
    var n := |hosts| - 1;
    assert forall i :: 0 <= i < n ==> hosts[..n][i] == hosts[i];
  }

  lemma {:induction false} ByNameNames(hosts: seq<Host>, name: string)
    ensures name in ByName(hosts) <==> SomeNamed(hosts, name)
  {
    if hosts != [] {
      ByNameNames(hosts[..|hosts| - 1], name);
      SomeNamedSnoc(hosts, name);
      hide SomeNamed;
    }
  }

  lemma {:induction false} ByNameLast(hosts: seq<Host>, name: string, i: nat)
    requires LastNamed(hosts, name, i)
    ensures name in ByName(hosts) && ByName(hosts)[name] == hosts[i]
  {
    var n := |hosts| - 1;
    if i < n {
      assert LastNamed(hosts[..n], name, i);
      ByNameLast(hosts[..n], name, i);
    }
  }

  /** The map has every name of the list, each with the last host of that name. */
  lemma ByNameKeepsLast(hosts: seq<Host>, name: string)
    ensures name in ByName(hosts) <==> exists i :: 0 <= i < |hosts| && hosts[i].name == name
    ensures forall i :: LastNamed(hosts, name, i) ==> name in ByName(hosts) && ByName(hosts)[name] == hosts[i]
  {
    ByNameNames(hosts, name);
    hide ByName;
    forall i | LastNamed(hosts, name, i) ensures name in ByName(hosts) && ByName(hosts)[name] == hosts[i] {
      ByNameLast(hosts, name, i);
    }
  }

  // ---------------------------------------------------------------- the changes of one host

  function ChangedFields(cs: seq<Change>): (fields: seq<string>)
    ensures |fields| == |cs| && forall i :: 0 <= i < |cs| ==> fields[i] == cs[i].field
  {
    seq(|cs|, i requires 0 <= i < |cs| => cs[i].field)
  }

  // The field shows differently in the two hosts.
  ghost predicate Differs(x: Host, y: Host, f: string) {
    if f in x.fields && f in y.fields then !Same(x.fields[f], y.fields[f]) else f in x.fields || f in y.fields
  }

  ghost predicate SaysChange(c: Change, x: Host, y: Host) {
    && c.before == (if c.field in x.fields then Some(x.fields[c.field]) else None)
    && c.after == (if c.field in y.fields then Some(y.fields[c.field]) else None)
  }

  lemma DiffersIff(x: Host, y: Host, f: string)
    ensures Differs(x, y, f) <==> !SameField(Field(x, f), Field(y, f))
  {
    hide Same;
  }

  ghost function DifferIn(x: Host, y: Host): string -> bool { f => Differs(x, y, f) }

  lemma ChangesStep(x: Host, y: Host, fields: seq<string>)
    requires fields != []
    ensures var n := |fields| - 1; var g, before := fields[n], Changes(x, y, fields[..n]);
      Changes(x, y, fields) == if Differs(x, y, g) then before + [Change(g, Field(x, g), Field(y, g))] else before
  {
    hide Differs, SameField;
    DiffersIff(x, y, fields[|fields| - 1]);
  }

  lemma {:induction false} ChangesSelect(x: Host, y: Host, fields: seq<string>)
    ensures ChangedFields(Changes(x, y, fields)) == Filter(fields, DifferIn(x, y))
    ensures forall c :: c in Changes(x, y, fields) ==> SaysChange(c, x, y)
  {
    hide Differs;
    if fields == [] {
      assert Changes(x, y, fields) == [];
    } else {
      ChangesSelect(x, y, fields[..|fields| - 1]);
      ChangesStep(x, y, fields);
      hide Changes;
    }
  }

  /** The changes are those of the fields that differ, in the order of the list,
      each with both sides. */
  lemma ChangesExact(x: Host, y: Host, fields: seq<string>)
    ensures IsSelection(ChangedFields(Changes(x, y, fields)), fields, DifferIn(x, y))
    ensures forall c :: c in Changes(x, y, fields) ==> SaysChange(c, x, y)
  {
    hide Differs, Changes, SaysChange;
    ChangesSelect(x, y, fields);
    FilterExact(ChangedFields(Changes(x, y, fields)), fields, DifferIn(x, y));
  }

  /** Each name on either side has its entry: removed or added when only one side
      has it, and otherwise both hosts, with the changes of domain, upstream_url,
      entry_points, middlewares, tls, label_selector and enabled, in this order;
      it is unchanged exactly when none of these differs. */
  lemma EntryIsExact(a: map<string, Host>, b: map<string, Host>, d: seq<HostDiff>, n: string) returns (i: nat)
    requires IsDiff(a, b, d) && (n in a || n in b)
    ensures i < |d| && d[i].name == n && forall j :: 0 <= j < |d| && d[j].name == n ==> j == i
    ensures n !in b ==> d[i] == HostDiff(n, Removed, Some(a[n]), None, [])
    ensures n !in a ==> d[i] == HostDiff(n, Added, None, Some(b[n]), [])
    ensures n in a && n in b ==>
      && d[i].before == Some(a[n]) && d[i].after == Some(b[n])
      && IsSelection(ChangedFields(d[i].changes),
           ["domain", "upstream_url", "entry_points", "middlewares", "tls", "label_selector", "enabled"],
           DifferIn(a[n], b[n]))
      && (forall c :: c in d[i].changes ==> SaysChange(c, a[n], b[n]))
      && d[i].status == if d[i].changes == [] then Unchanged else Modified
  {
    hide Changes, Differs, IsSelection;
    DistinctNames(d);
    assert n in Names(d);
    i :| 0 <= i < |d| && Names(d)[i] == n;
    if n in a && n in b { ChangesExact(a[n], b[n], FIELDS); }
  }

  lemma DistinctNames(d: seq<HostDiff>)
    requires Increasing(Names(d))
    ensures forall i, j :: 0 <= i < j < |d| ==> d[i].name != d[j].name
  {
    IncreasingDistinct(Names(d));
    assert forall i :: 0 <= i < |d| ==> Names(d)[i] == d[i].name;
  }

  // ---------------------------------------------------------------- replay

  /** The fields after applying a list of changes, using only their new values. */
  function Patched(fields: map<string, Value>, changes: seq<Change>): map<string, Value> {
    if changes == [] then fields
    else
      var c, rest := changes[|changes| - 1], Patched(fields, changes[..|changes| - 1]);
      if c.after.Some? then rest[c.field := c.after.value] else rest - {c.field}
  }

  function Applied(m: map<string, Host>, d: HostDiff): map<string, Host> {
    match d.status
    case Removed => m - {d.name}
    case Added => if d.after.Some? then m[d.name := d.after.value] else m
    case Modified => if d.name in m then m[d.name := Host(d.name, Patched(m[d.name].fields, d.changes))] else m
    case Unchanged => m
  }

  function Replay(m: map<string, Host>, d: seq<HostDiff>): map<string, Host> {
    if d == [] then m else Applied(Replay(m, d[..|d| - 1]), d[|d| - 1])
  }

  lemma {:induction false} PatchedField(x: Host, y: Host, fields: seq<string>, f: string)
    ensures var p := Host(x.name, Patched(x.fields, Changes(x, y, fields)));
      if f in fields then SameField(Field(p, f), Field(y, f)) else Field(p, f) == Field(x, f)
  {
    hide Same;
    if fields != [] {
      var init, g := fields[..|fields| - 1], fields[|fields| - 1];
      PatchedField(x, y, init, f);
      var cs, all := Changes(x, y, init), Changes(x, y, fields);
      assert f in fields <==> f in init || f == g;
      if SameField(Field(x, g), Field(y, g)) {
        assert all == cs;
      } else {
        assert all[..|all| - 1] == cs;
        SameFieldReflexive(Field(y, g));
      }
    }
  }

  lemma SameFieldReflexive(x: Option<Value>)
    ensures SameField(x, x)
  {
  }

  lemma NoChangesSameHost(x: Host, y: Host)
    ensures Changes(x, y, FIELDS) == [] <==> SameHost(x, y)
  {
    hide SameField, FIELDS;
    NoChanges(x, y, FIELDS);
  }

  lemma {:induction false} NoChanges(x: Host, y: Host, fields: seq<string>)
    ensures Changes(x, y, fields) == [] <==> forall f :: f in fields ==> SameField(Field(x, f), Field(y, f))
  {
    hide SameField;
    if fields != [] {
      var init, g := fields[..|fields| - 1], fields[|fields| - 1];
      NoChanges(x, y, init);
      assert forall f :: f in fields <==> f in init || f == g;
    }
  }

  // A host of the replayed list shows what the host of the new list shows.
  ghost predicate Arrived(m: map<string, Host>, b: map<string, Host>, n: string) {
    (n in m <==> n in b) && (n in m ==> SameHost(m[n], b[n]))
  }

  lemma SameHostReflexive(x: Host)
    ensures SameHost(x, x)
  {
  }

  // One entry brings one name from the old list to the new.
  lemma EntryArrives(m: map<string, Host>, a: map<string, Host>, b: map<string, Host>, name: string)
    requires (name in a || name in b) && (name in m <==> name in a) && (name in a ==> m[name] == a[name])
    ensures Arrived(Applied(m, Compared(name, a, b)), b, name)
  {
    hide Patched, Changes, Same, SameField;
    if name in b && name !in a {
      SameHostReflexive(b[name]);
    } else if name in b {
      NoChangesSameHost(a[name], b[name]);
      forall f | f in FIELDS
        ensures SameField(Field(Host(name, Patched(a[name].fields, Changes(a[name], b[name], FIELDS))), f), Field(b[name], f))
      {
        PatchedField(a[name], b[name], FIELDS, f);
      }
    }
  }

  lemma AppliedElsewhere(m: map<string, Host>, d: HostDiff, n: string)
    requires n != d.name
    ensures (n in Applied(m, d) <==> n in m) && (n in m ==> Applied(m, d)[n] == m[n])
  {
    hide Patched;
  }

  lemma {:induction false} ReplaySoFar(a: map<string, Host>, b: map<string, Host>, d: seq<HostDiff>, k: nat, n: string)
    requires IsDiff(a, b, d) && k <= |d|
    ensures var m := Replay(a, d[..k]);
      if n in Names(d)[..k] then Arrived(m, b, n) else (n in m <==> n in a) && (n in m ==> m[n] == a[n])
  {
    hide Arrived, Applied, IsDiff;
    if k > 0 {
      ReplaySoFar(a, b, d, k - 1, n);
      assert d[..k][..k - 1] == d[..k - 1];
      var m, e := Replay(a, d[..k - 1]), d[k - 1];
      assert Replay(a, d[..k]) == Applied(m, e);
      hide Replay, Compared;
      assert Names(d)[..k] == Names(d)[..k - 1] + [e.name];
      EntryOf(a, b, d, k - 1);
      if n == e.name {
        EntryArrives(m, a, b, n);
      } else {
        AppliedElsewhere(m, e, n);
        KeptArrived(m, Applied(m, e), b, n);
      }
    }
  }

  // Entry k is the only one so far with its name.
  lemma EntryOf(a: map<string, Host>, b: map<string, Host>, d: seq<HostDiff>, k: nat)
    requires IsDiff(a, b, d) && k < |d|
    ensures (d[k].name in a || d[k].name in b) && d[k] == Compared(d[k].name, a, b) && d[k].name !in Names(d)[..k]
  {
    hide Compared;
    IncreasingDistinct(Names(d));
  }

  lemma KeptArrived(m: map<string, Host>, m': map<string, Host>, b: map<string, Host>, n: string)
    requires (n in m' <==> n in m) && (n in m ==> m'[n] == m[n])
    ensures Arrived(m', b, n) <==> Arrived(m, b, n)
  {
    hide SameHost;
  }

  /** Replaying a diff on the old list gives the new list: the same names, and
      the same in every listed field. */
  lemma ReplayGivesAfter(a: map<string, Host>, b: map<string, Host>, d: seq<HostDiff>)
    requires IsDiff(a, b, d)
    ensures Replay(a, d).Keys == b.Keys
    ensures forall n :: n in b ==> SameHost(Replay(a, d)[n], b[n])
  {
    hide SameHost, Replay, IsDiff;
    forall n ensures (n in Replay(a, d) <==> n in b) && (n in b ==> SameHost(Replay(a, d)[n], b[n])) {
      ReplaySoFar(a, b, d, |d|, n);
      assert d[..|d|] == d && Names(d)[..|d|] == Names(d);
      NotNamed(a, b, d, n);
    }
  }

  lemma NotNamed(a: map<string, Host>, b: map<string, Host>, d: seq<HostDiff>, n: string)
    requires IsDiff(a, b, d)
    ensures n in Names(d) <==> n in a || n in b
  {
  }

  /** On the lists themselves: after a replay every new host is there, shown as
      it is in every listed field, and no other name is. */
  lemma DiffIsComplete(before: seq<Host>, after: seq<Host>, d: seq<HostDiff>)
    requires IsDiff(ByName(before), ByName(after), d) && UniqueNames(after)
    ensures var m := Replay(ByName(before), d);
      && (forall h :: h in after ==> h.name in m && SameHost(m[h.name], h))
      && (forall n :: n in m ==> exists h :: h in after && h.name == n)
  {
    hide IsDiff, Replay, SameHost, ByName;
    ReplayGivesAfter(ByName(before), ByName(after), d);
    ByNameIsExact(after);
    var m := Replay(ByName(before), d);
    forall n | n in m ensures exists h :: h in after && h.name == n {
      assert n in ByName(after) && ByName(after)[n].name == n;
      assert ByName(after)[n] in after;
    }
  }

  // ---------------------------------------------------------------- symmetry

  function Swapped(s: Status): Status {
    match s case Added => Removed case Removed => Added case Modified => Modified case Unchanged => Unchanged
  }

  function SwappedChanges(cs: seq<Change>): seq<Change> {
    if cs == [] then []
    else
      var c := cs[|cs| - 1];
      SwappedChanges(cs[..|cs| - 1]) + [Change(c.field, c.after, c.before)]
  }

  lemma {:induction false} ChangesSwap(x: Host, y: Host, fields: seq<string>)
    ensures Changes(y, x, fields) == SwappedChanges(Changes(x, y, fields))
  {
    if fields != [] {
      hide Same;
      var init, f := fields[..|fields| - 1], fields[|fields| - 1];
      ChangesSwap(x, y, init);
      FieldSwap(Field(x, f), Field(y, f));
      hide SameField;
      var cs, all := Changes(x, y, init), Changes(x, y, fields);
      if SameField(Field(x, f), Field(y, f)) {
        assert all == cs;
      } else {
        assert all[..|all| - 1] == cs;
      }
    }
  }

  lemma FieldSwap(x: Option<Value>, y: Option<Value>)
    ensures SameField(x, y) <==> SameField(y, x)
  {
  }

  /** Swapping the two revisions swaps added with removed, and each change's
      sides, entry by entry. */
  lemma SwapIsSymmetric(a: map<string, Host>, b: map<string, Host>, d: seq<HostDiff>, e: seq<HostDiff>)
    requires IsDiff(a, b, d) && IsDiff(b, a, e)
    ensures |d| == |e|
    ensures forall i :: 0 <= i < |d| ==>
      e[i] == HostDiff(d[i].name, Swapped(d[i].status), d[i].after, d[i].before, SwappedChanges(d[i].changes))
  {
    hide Changes, Increasing, FIELDS;
    IncreasingIsUnique(Names(d), Names(e));
    forall i | 0 <= i < |d|
      ensures e[i] == HostDiff(d[i].name, Swapped(d[i].status), d[i].after, d[i].before, SwappedChanges(d[i].changes))
    {
      var n := d[i].name;
      assert Names(e)[i] == n;
      if n in a && n in b { ChangesSwap(a[n], b[n], FIELDS); }
    }
  }

  // ---------------------------------------------------------------- counts

  function With(d: seq<HostDiff>, s: Status): set<string> {
    if d == [] then {} else With(d[..|d| - 1], s) + if d[|d| - 1].status == s then {d[|d| - 1].name} else {}
  }

  ghost predicate Listed(d: seq<HostDiff>, s: Status, n: string) {
    exists i :: 0 <= i < |d| && d[i].name == n && d[i].status == s
  }

  lemma {:induction false} WithMember(d: seq<HostDiff>, s: Status, n: string)
    ensures n in With(d, s) <==> Listed(d, s, n)
  {
    if d != [] {
      var init, last := d[..|d| - 1], d[|d| - 1];
      WithMember(init, s, n);
      hide With;
      if i :| 0 <= i < |d| && d[i].name == n && d[i].status == s {
        if i < |d| - 1 { assert init[i] == d[i]; }
      }
      if i :| 0 <= i < |init| && init[i].name == n && init[i].status == s { assert d[i] == init[i]; }
      if last.status == s && last.name == n { assert d[|d| - 1] == last; }
    }
  }

  lemma {:induction false} WithIsCount(d: seq<HostDiff>, s: Status)
    requires forall i, j :: 0 <= i < j < |d| ==> d[i].name != d[j].name
    ensures |With(d, s)| == Count(d, s)
  {
    if d != [] {
      WithIsCount(d[..|d| - 1], s);
      WithMember(d[..|d| - 1], s, d[|d| - 1].name);
    }
  }

  lemma StatusOf(a: map<string, Host>, b: map<string, Host>, d: seq<HostDiff>, s: Status, n: string)
    requires IsDiff(a, b, d)
    ensures n in With(d, s) <==> (n in a || n in b) && Compared(n, a, b).status == s
  {
    hide Compared, With;
    DistinctNames(d);
    WithMember(d, s, n);
    if n in a || n in b {
      assert n in Names(d);
      var i :| 0 <= i < |d| && Names(d)[i] == n;
    }
  }

  ghost function Alike(a: map<string, Host>, b: map<string, Host>): set<string> {
    set n | n in a && n in b && SameHost(a[n], b[n])
  }

  ghost function Changed(a: map<string, Host>, b: map<string, Host>): set<string> {
    set n | n in a && n in b && !SameHost(a[n], b[n])
  }

  /** The four counts are the sizes of the four groups of names, so together
      they count every name on either side once. */
  lemma CountsAddUp(a: map<string, Host>, b: map<string, Host>, d: seq<HostDiff>)
    requires IsDiff(a, b, d)
    ensures Count(d, Added) == |b.Keys - a.Keys| && Count(d, Removed) == |a.Keys - b.Keys|
    ensures Count(d, Unchanged) == |Alike(a, b)| && Count(d, Modified) == |Changed(a, b)|
    ensures Count(d, Added) + Count(d, Removed) + Count(d, Modified) + Count(d, Unchanged) == |a.Keys + b.Keys| == |d|
  {
    hide Count, With, SameHost, IsDiff;
    GroupSizes(a, b, d);
    Groups(a, b, d);
    NamesCount(a, b, d);
    assert Alike(a, b) !! Changed(a, b) && Alike(a, b) + Changed(a, b) == a.Keys * b.Keys;
    hide Alike, Changed;
    SetSizes(a.Keys, b.Keys, Alike(a, b), Changed(a, b));
  }

  lemma SetSizes(a: set<string>, b: set<string>, p: set<string>, q: set<string>)
    requires p !! q && p + q == a * b
    ensures |a + b| == |b - a| + |a - b| + |q| + |p|
  {
    assert |a * b| == |p| + |q|;
    assert b == (b - a) + a * b;
    assert a + b == (a - b) + b;
  }

  lemma GroupSizes(a: map<string, Host>, b: map<string, Host>, d: seq<HostDiff>)
    requires IsDiff(a, b, d)
    ensures forall s :: |With(d, s)| == Count(d, s)
  {
    hide Compared;
    DistinctNames(d);
    hide IsDiff;
    forall s ensures |With(d, s)| == Count(d, s) { WithIsCount(d, s); }
  }

  // The names with each status.
  lemma Groups(a: map<string, Host>, b: map<string, Host>, d: seq<HostDiff>)
    requires IsDiff(a, b, d)
    ensures With(d, Added) == b.Keys - a.Keys && With(d, Removed) == a.Keys - b.Keys
    ensures With(d, Unchanged) == Alike(a, b) && With(d, Modified) == Changed(a, b)
  {
    hide With, SameHost, IsDiff, Compared;
    forall n ensures
      && (n in With(d, Added) <==> n in b && n !in a)
      && (n in With(d, Removed) <==> n in a && n !in b)
      && (n in With(d, Unchanged) <==> n in a && n in b && SameHost(a[n], b[n]))
      && (n in With(d, Modified) <==> n in a && n in b && !SameHost(a[n], b[n]))
    {
      GroupOf(a, b, d, n);
    }
  }

  lemma GroupOf(a: map<string, Host>, b: map<string, Host>, d: seq<HostDiff>, n: string)
    requires IsDiff(a, b, d)
    ensures n in With(d, Added) <==> n in b && n !in a
    ensures n in With(d, Removed) <==> n in a && n !in b
    ensures n in With(d, Unchanged) <==> n in a && n in b && SameHost(a[n], b[n])
    ensures n in With(d, Modified) <==> n in a && n in b && !SameHost(a[n], b[n])
  {
    hide With, SameHost, IsDiff, Changes;
    StatusOf(a, b, d, Added, n);
    StatusOf(a, b, d, Removed, n);
    StatusOf(a, b, d, Unchanged, n);
    StatusOf(a, b, d, Modified, n);
    if n in a && n in b { NoChangesSameHost(a[n], b[n]); }
  }

  lemma NamesCount(a: map<string, Host>, b: map<string, Host>, d: seq<HostDiff>)
    requires IsDiff(a, b, d)
    ensures |d| == |a.Keys + b.Keys|
  {
    hide Compared;
    DistinctNames(d);
    SizeOf(Names(d), a.Keys + b.Keys);
  }

  lemma {:induction false} SizeOf(xs: seq<string>, names: set<string>)
    requires forall i, j :: 0 <= i < j < |xs| ==> xs[i] != xs[j]
    requires forall n :: n in xs <==> n in names
    ensures |xs| == |names|
  {
    if xs == [] {
      assert names == {};
    } else {
      var init, last := xs[..|xs| - 1], xs[|xs| - 1];
      assert last in xs;
      forall n ensures n in init <==> n in names - {last} { assert n in xs <==> n in init || n == last; }
      SizeOf(init, names - {last});
    }
  }

  // ---------------------------------------------------------------- what it does not show

  /** A change of a field outside the list, such as the full list of upstreams,
      leaves the host unchanged in the diff, whatever the new value. */
  lemma UnlistedFieldsAreNotCompared(x: Host, f: string, v: Value)
    requires f !in FIELDS
    ensures Changes(x, x.(fields := x.fields[f := v]), FIELDS) == []
  {
    hide FIELDS, Changes;
    NoChangesSameHost(x, x.(fields := x.fields[f := v]));
  }

  lemma UpstreamListIsNotListed()
    ensures "upstream_urls" !in FIELDS && "protocol" !in FIELDS && "sticky_session" !in FIELDS && "health_check" !in FIELDS
  {
    assert |"upstream_urls"| == 13 && |"upstream_url"| == 12 && |"protocol"| == 8 && |"sticky_session"| == 14;
    assert "sticky_session"[0] == 's' && "label_selector"[0] == 'l' && "health_check"[0] == 'h';
    assert forall f :: f in FIELDS ==> |f| != 13 && |f| != 8 && (|f| == 14 ==> f[0] == 'l') && (|f| == 12 ==> f[0] != 'h');
  }
}
