/** The audit log and its pages: ListAuditEntries walks backwards from the newest
    entry, and BeforeID continues where the last page ended. */
module AuditLog {
  import opened Wrappers

  datatype Entry = Entry(id: int, fleet: Option<string>, actor: string, summary: string)

  /** fleet: every entry, only global ones (an empty name), or those of one fleet. */
  datatype Query = Query(fleet: Option<string>, beforeId: int, limit: int)

  predicate InFleet(e: Entry, fleet: Option<string>) {
    match fleet
    case None => true
    case Some(want) => if want == "" then e.fleet.None? else e.fleet == Some(want)
  }

  predicate Matches(e: Entry, fleet: Option<string>, beforeId: int) {
    (beforeId > 0 ==> e.id < beforeId) && InFleet(e, fleet)
  }

  /** All matching entries, newest first. */
  function Newest(log: seq<Entry>, fleet: Option<string>, beforeId: int): seq<Entry> {
    if log == [] then []
    else
      var e := log[|log| - 1];
      (if Matches(e, fleet, beforeId) then [e] else []) + Newest(log[..|log| - 1], fleet, beforeId)
  }

  lemma NewestStep(log: seq<Entry>, fleet: Option<string>, beforeId: int)
    requires log != []
    ensures var rest := Newest(log[..|log| - 1], fleet, beforeId);
      Newest(log, fleet, beforeId) == if Matches(log[|log| - 1], fleet, beforeId) then [log[|log| - 1]] + rest else rest
  {
    hide Matches;
  }

  lemma NoEntries(fleet: Option<string>, beforeId: int)
    ensures Newest([], fleet, beforeId) == []
  {
  }

  function EffectiveLimit(limit: int): (n: nat)
    ensures 1 <= limit <= 500 ==> n == limit
    ensures limit <= 0 || limit > 500 ==> n == 100
  {
    if limit <= 0 || limit > 500 then 100 else limit
  }

  function Page(log: seq<Entry>, q: Query): seq<Entry> {
    var all, n := Newest(log, q.fleet, q.beforeId), EffectiveLimit(q.limit);
    if |all| <= n then all else all[..n]
  }

  /** Entries are numbered in the order they were appended. */
  ghost predicate Ordered(log: seq<Entry>) {
    && (forall i :: 0 <= i < |log| ==> log[i].id >= 1)
    && (forall i, j :: 0 <= i < j < |log| ==> log[i].id < log[j].id)
  }

  class AuditStore {
    var audit: seq<Entry>
    var auditSeq: int

    ghost predicate Valid()
      reads this
    {
      auditSeq == |audit| && Ordered(audit) && forall i :: 0 <= i < |audit| ==> audit[i].id <= auditSeq
    }

    constructor ()
      ensures Valid() && audit == []
    {
      audit, auditSeq := [], 0;
    }

    method Append(e: Entry)
      requires Valid()
      modifies this
      ensures Valid() && audit == old(audit) + [e.(id := old(auditSeq) + 1)]
    {
      auditSeq := auditSeq + 1;
      audit := audit + [e.(id := auditSeq)];
    }

    method List(q: Query) returns (out: seq<Entry>)
      ensures out == Page(audit, q)
      ensures var all, limit := Newest(audit, q.fleet, q.beforeId), if 1 <= q.limit <= 500 then q.limit else 100;
        out <= all && |out| == if |all| <= limit then |all| else limit
    {
      var limit := if q.limit <= 0 || q.limit > 500 then 100 else q.limit;
      out := [];
      var i := |audit|;
      ghost var all := Newest(audit, q.fleet, q.beforeId);
      assert audit[..i] == audit && out + all == all;
      hide Newest, InFleet, Page, Matches;
      while i > 0
        invariant 0 <= i <= |audit| && |out| < limit
        invariant out + Newest(audit[..i], q.fleet, q.beforeId) == all
      {
        ListStep(audit, i, q, out);
        i := i - 1;
        var e := audit[i];
        SkippedEntries(e, q);
        if q.beforeId > 0 && e.id >= q.beforeId {
          continue;
        }
        if q.fleet.Some? {
          if q.fleet.value == "" && e.fleet.Some? {
            continue;
          }
          if q.fleet.value != "" && (e.fleet.None? || e.fleet.value != q.fleet.value) {
            continue;
          }
        }
        out := out + [e];
        if |out| >= limit {
          PageIs(audit, q, out, Newest(audit[..i], q.fleet, q.beforeId));
          return;
        }
      }
      NoEntries(q.fleet, q.beforeId);
      assert audit[..i] == [];
      PageIs(audit, q, out, []);
    }
  }

  // What the loop has listed when it goes one entry further back.
  lemma ListStep(log: seq<Entry>, i: nat, q: Query, out: seq<Entry>)
    requires 0 < i <= |log|
    ensures var all, rest := out + Newest(log[..i], q.fleet, q.beforeId), Newest(log[..i - 1], q.fleet, q.beforeId);
      all == if Matches(log[i - 1], q.fleet, q.beforeId) then out + [log[i - 1]] + rest else out + rest
  {
    hide Newest, Matches;
    assert log[..i][..i - 1] == log[..i - 1];
    NewestStep(log[..i], q.fleet, q.beforeId);
    var rest := Newest(log[..i - 1], q.fleet, q.beforeId);
    assert out + ([log[i - 1]] + rest) == out + [log[i - 1]] + rest;
  }

  // Where the loop may stop.
  lemma PageIs(log: seq<Entry>, q: Query, out: seq<Entry>, rest: seq<Entry>)
    requires out + rest == Newest(log, q.fleet, q.beforeId)
    requires |out| == EffectiveLimit(q.limit) || (|out| < EffectiveLimit(q.limit) && rest == [])
    ensures out == Page(log, q)
    ensures var all, limit := Newest(log, q.fleet, q.beforeId), if 1 <= q.limit <= 500 then q.limit else 100;
      out <= all && |out| == if |all| <= limit then |all| else limit
  {
    hide Newest, EffectiveLimit;
    assert (out + rest)[..|out|] == out;
    assert out + [] == out;
  }

  // The loop's tests skip exactly the entries that do not match.
  lemma SkippedEntries(e: Entry, q: Query)
    ensures !Matches(e, q.fleet, q.beforeId) <==>
      (q.beforeId > 0 && e.id >= q.beforeId) ||
      (q.fleet.Some? && (if q.fleet.value == "" then e.fleet.Some? else e.fleet.None? || e.fleet.value != q.fleet.value))
  {
  }

  // ---------------------------------------------------------------- the list is what it should be

  lemma {:induction false} ListedExactly(log: seq<Entry>, fleet: Option<string>, beforeId: int, e: Entry)
    ensures e in Newest(log, fleet, beforeId) <==> e in log && Matches(e, fleet, beforeId)
    ensures |Newest(log, fleet, beforeId)| <= |log|
  {
    if log == [] {
      assert Newest(log, fleet, beforeId) == [];
    } else {
      ListedExactly(log[..|log| - 1], fleet, beforeId, e);
      NewestStep(log, fleet, beforeId);
      hide Newest, Matches;
      assert e in log <==> e in log[..|log| - 1] || e == log[|log| - 1];
    }
  }

  ghost predicate Descending(entries: seq<Entry>) {
    forall i, j :: 0 <= i < j < |entries| ==> entries[i].id > entries[j].id
  }

  lemma ConsDescends(x: Entry, rest: seq<Entry>)
    requires Descending(rest) && forall e :: e in rest ==> e.id < x.id
    ensures Descending([x] + rest)
  {
    forall i, j | 0 <= i < j < |[x] + rest| ensures ([x] + rest)[i].id > ([x] + rest)[j].id {
      assert ([x] + rest)[j] == rest[j - 1] && rest[j - 1] in rest;
      if i > 0 { assert ([x] + rest)[i] == rest[i - 1]; }
    }
  }

  lemma {:induction false} NewestDescends(log: seq<Entry>, fleet: Option<string>, beforeId: int)
    requires Ordered(log)
    ensures Descending(Newest(log, fleet, beforeId))
  {
    if log == [] {
      assert Newest(log, fleet, beforeId) == [];
    } else {
      hide Newest, Matches, Descending;
      var rest := Newest(log[..|log| - 1], fleet, beforeId);
      SmallerOrdered(log);
      NewestDescends(log[..|log| - 1], fleet, beforeId);
      NewestStep(log, fleet, beforeId);
      forall e | e in rest ensures e.id < log[|log| - 1].id { ListedIsOlder(log, fleet, beforeId, e); }
      hide Ordered;
      ConsDescends(log[|log| - 1], rest);
    }
  }

  /** Newest lists exactly the matching entries, each once, newest first. */
  lemma NewestIsExact(log: seq<Entry>, fleet: Option<string>, beforeId: int)
    requires Ordered(log)
    ensures var out := Newest(log, fleet, beforeId);
      && (forall e :: e in out <==> e in log && Matches(e, fleet, beforeId))
      && (forall e :: e in out <==>
            e in log && (beforeId <= 0 || e.id < beforeId) &&
            (fleet == None || (fleet == Some("") && e.fleet == None) || (fleet != Some("") && e.fleet == fleet)))
      && (forall i, j :: 0 <= i < j < |out| ==> out[i].id > out[j].id) && |out| <= |log|
  {
    forall e ensures Matches(e, fleet, beforeId) <==>
      (beforeId <= 0 || e.id < beforeId) &&
      (fleet == None || (fleet == Some("") && e.fleet == None) || (fleet != Some("") && e.fleet == fleet))
    {
    }
    hide Newest, Matches, Ordered;
    var out := Newest(log, fleet, beforeId);
    forall e ensures e in out <==> e in log && Matches(e, fleet, beforeId) { ListedExactly(log, fleet, beforeId, e); }
    if out != [] { ListedExactly(log, fleet, beforeId, out[0]); }
    NewestDescends(log, fleet, beforeId);
  }

  // An entry of the list comes from before the newest entry, or is the newest.
  lemma ListedIsOlder(log: seq<Entry>, fleet: Option<string>, beforeId: int, e: Entry)
    requires Ordered(log) && log != [] && e in Newest(log[..|log| - 1], fleet, beforeId)
    ensures 1 <= e.id < log[|log| - 1].id
  {
    hide Newest, Matches;
    ListedExactly(log[..|log| - 1], fleet, beforeId, e);
    var i :| 0 <= i < |log| - 1 && log[i] == e;
  }

  // Asking again from the id of entry k of a list gives the rest of the list.
  lemma {:induction false} Continues(log: seq<Entry>, fleet: Option<string>, beforeId: int, k: nat, e: Entry)
    requires Ordered(log) && 1 <= k <= |Newest(log, fleet, beforeId)| && e == Newest(log, fleet, beforeId)[k - 1]
    ensures Newest(log, fleet, e.id) == Newest(log, fleet, beforeId)[k..]
  {
    assert log != [];
    hide Newest, InFleet, Ordered, Matches;
    var rest := Newest(log[..|log| - 1], fleet, beforeId);
    NewestStep(log, fleet, beforeId);
    SmallerOrdered(log);
    if !Matches(log[|log| - 1], fleet, beforeId) {
      Continues(log[..|log| - 1], fleet, beforeId, k, e);
      SkipsLast(log, fleet, beforeId, e);
    } else if k == 1 {
      ContinuesFirst(log, fleet, beforeId);
    } else {
      ConsDrop(log[|log| - 1], rest, k);
      Continues(log[..|log| - 1], fleet, beforeId, k - 1, e);
      SkipsLast(log, fleet, beforeId, e);
    }
  }

  lemma ConsDrop(x: Entry, rest: seq<Entry>, k: nat)
    requires 2 <= k <= |rest| + 1
    ensures ([x] + rest)[k - 1] == rest[k - 2] && ([x] + rest)[k..] == rest[k - 1..]
  {
  }

  lemma SkipsLast(log: seq<Entry>, fleet: Option<string>, beforeId: int, e: Entry)
    requires Ordered(log) && log != [] && e in Newest(log[..|log| - 1], fleet, beforeId)
    ensures Newest(log, fleet, e.id) == Newest(log[..|log| - 1], fleet, e.id)
  {
    hide Newest, Ordered, InFleet;
    ListedIsOlder(log, fleet, beforeId, e);
    NewestStep(log, fleet, e.id);
    NotBefore(log[|log| - 1], fleet, e.id);
  }

  lemma NotBefore(e: Entry, fleet: Option<string>, bound: int)
    requires 1 <= bound <= e.id
    ensures !Matches(e, fleet, bound)
  {
  }

  lemma ContinuesFirst(log: seq<Entry>, fleet: Option<string>, beforeId: int)
    requires Ordered(log) && log != [] && Matches(log[|log| - 1], fleet, beforeId)
    ensures Newest(log, fleet, log[|log| - 1].id) == Newest(log[..|log| - 1], fleet, beforeId)
  {
    hide Newest;
    var last := log[|log| - 1];
    NewestStep(log, fleet, last.id);
    NotBefore(last, fleet, last.id);
    AllOlder(log[..|log| - 1], fleet, beforeId, last.id);
  }

  lemma SmallerOrdered(log: seq<Entry>)
    requires Ordered(log) && log != []
    ensures Ordered(log[..|log| - 1])
  {
  }

  lemma {:induction false} AllOlder(log: seq<Entry>, fleet: Option<string>, beforeId: int, bound: int)
    requires bound > 0 && (beforeId > 0 ==> bound <= beforeId)
    requires forall i :: 0 <= i < |log| ==> log[i].id < bound
    ensures Newest(log, fleet, bound) == Newest(log, fleet, beforeId)
  {
    if log != [] { AllOlder(log[..|log| - 1], fleet, beforeId, bound); }
  }

  // Entries appended later do not show below a bound already reached.
  lemma {:induction false} GrowthIsInvisible(log: seq<Entry>, later: seq<Entry>, fleet: Option<string>, bound: int)
    requires log <= later && bound > 0
    requires forall i :: |log| <= i < |later| ==> later[i].id >= bound
    ensures Newest(later, fleet, bound) == Newest(log, fleet, bound)
  {
    if |later| > |log| {
      GrowthIsInvisible(log, later[..|later| - 1], fleet, bound);
    } else {
      assert later == log;
    }
  }

  // ---------------------------------------------------------------- paging

  function Flatten(pages: seq<seq<Entry>>): seq<Entry> {
    if pages == [] then [] else Flatten(pages[..|pages| - 1]) + pages[|pages| - 1]
  }

  /** A reader follows BeforeID from page to page, while the log may grow. */
  ghost predicate IsReading(logs: seq<seq<Entry>>, pages: seq<seq<Entry>>, fleet: Option<string>, limit: int) {
    && |pages| == |logs| >= 1
    && (forall i :: 0 <= i < |logs| ==> Ordered(logs[i]))
    && (forall i :: 0 <= i < |logs| - 1 ==> logs[i] <= logs[i + 1])
    && pages[0] == Page(logs[0], Query(fleet, 0, limit))
    && (forall i :: 0 <= i < |pages| - 1 ==> NextPage(pages[i], pages[i + 1], logs[i + 1], fleet, limit))
  }

  ghost predicate NextPage(page: seq<Entry>, next: seq<Entry>, log: seq<Entry>, fleet: Option<string>, limit: int) {
    page != [] && next == Page(log, Query(fleet, page[|page| - 1].id, limit))
  }

  function Cut(m: nat, limit: nat, length: nat): nat {
    if m + limit <= length then m + limit else length
  }

  // Page n covers entries m to k of the first list, and the pages up to it the first k.
  lemma {:induction false} ReadSoFar(logs: seq<seq<Entry>>, pages: seq<seq<Entry>>, fleet: Option<string>, limit: int, n: nat)
    returns (m: nat, k: nat)
    requires IsReading(logs, pages, fleet, limit) && n < |pages|
    ensures var all := Newest(logs[0], fleet, 0);
      && logs[0] <= logs[n] && n <= m <= k <= |all| && k == Cut(m, EffectiveLimit(limit), |all|)
      && pages[n] == all[m..k] && Flatten(pages[..n + 1]) == all[..k]
  {
    hide Newest, Ordered, EffectiveLimit;
    var all := Newest(logs[0], fleet, 0);
    assert pages[..n + 1][..n] == pages[..n] && pages[..n + 1][n] == pages[n];
    if n == 0 {
      m, k := 0, Cut(0, EffectiveLimit(limit), |all|);
      assert pages[..0] == [];
    } else {
      var l, _ := ReadSoFar(logs, pages, fleet, limit, n - 1);
      m := Cut(l, EffectiveLimit(limit), |all|);
      k := Cut(m, EffectiveLimit(limit), |all|);
      assert NextPage(pages[n - 1], pages[n], logs[n], fleet, limit) && logs[n - 1] <= logs[n];
      assert Ordered(logs[0]) && Ordered(logs[n]);
      hide IsReading, NextPage, Page;
      NextCut(logs[0], logs[n], pages[n - 1], pages[n], fleet, limit, l, m);
      assert all[..m] + all[m..k] == all[..k];
    }
  }

  lemma NextCut(log: seq<Entry>, later: seq<Entry>, page: seq<Entry>, next: seq<Entry>,
                fleet: Option<string>, limit: int, l: nat, m: nat)
    requires Ordered(log) && Ordered(later) && log <= later && NextPage(page, next, later, fleet, limit)
    requires l <= m <= |Newest(log, fleet, 0)| && page == Newest(log, fleet, 0)[l..m]
    ensures var all := Newest(log, fleet, 0);
      l < m && next == all[m..Cut(m, EffectiveLimit(limit), |all|)]
  {
    hide Newest, Ordered, EffectiveLimit;
    var all := Newest(log, fleet, 0);
    assert l < m && page[|page| - 1] == all[m - 1];
    RestOfTheList(log, later, fleet, m);
  }

  // Below the id of entry k of the first list, a later log lists the rest of it.
  lemma RestOfTheList(log: seq<Entry>, later: seq<Entry>, fleet: Option<string>, k: nat)
    requires Ordered(log) && Ordered(later) && log <= later && 1 <= k <= |Newest(log, fleet, 0)|
    ensures var all := Newest(log, fleet, 0); Newest(later, fleet, all[k - 1].id) == all[k..]
  {
    var all := Newest(log, fleet, 0);
    NewestIsExact(log, fleet, 0);
    Continues(log, fleet, 0, k, all[k - 1]);
    assert all[k - 1] in log;
    var m :| 0 <= m < |log| && log[m] == all[k - 1];
    forall i | |log| <= i < |later| ensures later[i].id >= all[k - 1].id {
      assert later[m] == log[m];
    }
    GrowthIsInvisible(log, later, fleet, all[k - 1].id);
  }

  /** Following BeforeID until a page comes back short returns every matching
      entry that was present at the start exactly once, newest first, and nothing
      else, whatever was appended meanwhile; and it ends, because every page but
      the last holds an entry that was present at the start. */
  lemma PagingReadsEverythingOnce(logs: seq<seq<Entry>>, pages: seq<seq<Entry>>, fleet: Option<string>, limit: int)
    requires IsReading(logs, pages, fleet, limit)
    ensures |pages| <= |logs[0]| + 1
    ensures |pages[|pages| - 1]| < EffectiveLimit(limit) ==>
      var out := Flatten(pages);
      && (forall e :: e in out <==>
            e in logs[0] &&
            (fleet == None || (fleet == Some("") && e.fleet == None) || (fleet != Some("") && e.fleet == fleet)))
      && (forall i, j :: 0 <= i < j < |out| ==> out[i].id > out[j].id)
  {
    hide EffectiveLimit, Page, Newest;
    var m, k := ReadSoFar(logs, pages, fleet, limit, |pages| - 1);
    assert pages[..|pages|] == pages;
    NewestIsExact(logs[0], fleet, 0);
    if k == |Newest(logs[0], fleet, 0)| { assert Newest(logs[0], fleet, 0)[..k] == Newest(logs[0], fleet, 0); }
  }
}
