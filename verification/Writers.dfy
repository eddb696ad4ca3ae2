/** Who wrote each entry of a compiled section: with colliding names the last
    host in name order wins. */
module Writers {
  import opened Json
  import opened Model
  import opened Middlewares
  import opened Compiler

  // Host n is the last one of the list with this sanitized name.
  ghost predicate LastKeyed(hosts: seq<ProxyHost>, n: int, k: string) {
    0 <= n < |hosts| && Key(hosts[n]) == k && forall m :: n < m < |hosts| ==> Key(hosts[m]) != k
  }

  /** The routers and services hold one entry per sanitized name, from the
      last host that has it. */
  lemma {:induction false} WriteAllAt(hosts: seq<ProxyHost>, val: ProxyHost -> Value, k: string)
    ensures k in WriteAll(hosts, val) <==> exists n :: 0 <= n < |hosts| && Key(hosts[n]) == k
    ensures forall n :: LastKeyed(hosts, n, k) ==> k in WriteAll(hosts, val) && WriteAll(hosts, val)[k] == val(hosts[n])
  {
    hide Key;
    if hosts != [] {
      var init := hosts[..|hosts| - 1];
      WriteAllAt(init, val, k);
      assert forall n :: 0 <= n < |init| ==> init[n] == hosts[n];
      forall n | LastKeyed(hosts, n, k) ensures k in WriteAll(hosts, val) && WriteAll(hosts, val)[k] == val(hosts[n]) {
        if n < |init| { assert LastKeyed(init, n, k); }
      }
    }
  }

  lemma {:induction false} SomeLastKeyed(hosts: seq<ProxyHost>, m: nat, k: string) returns (n: nat)
    requires m < |hosts| && Key(hosts[m]) == k
    ensures LastKeyed(hosts, n, k) && m <= n
    decreases |hosts| - m
  {
    hide Key;
    if j :| m < j < |hosts| && Key(hosts[j]) == k {
      n := SomeLastKeyed(hosts, j, k);
    } else {
      n := m;
    }
  }

  ghost predicate WritesMw(h: ProxyHost, i: int, k: string) {
    0 <= i < |h.middlewares| && MwKey(h, i) == k
  }

  ghost predicate LastMw(hosts: seq<ProxyHost>, n: int, i: int, k: string) {
    0 <= n < |hosts| && WritesMw(hosts[n], i, k) && forall m, j :: n < m < |hosts| ==> !WritesMw(hosts[m], j, k)
  }

  lemma PutAllMws(p: Platform, base: Object, h: ProxyHost, k: string)
    ensures var m := PutMws(base, h, FinalMws(p, h));
      && (k in m <==> k in base || exists i :: WritesMw(h, i, k))
      && (forall i :: WritesMw(h, i, k) ==> m[k] == FinalMw(p, h, i))
      && ((forall i :: !WritesMw(h, i, k)) && k in base ==> m[k] == base[k])
  {
    hide MwKey, FinalMw, PutMws;
    PutMwsAt(base, h, FinalMws(p, h), k);
    if i :| 0 <= i < |h.middlewares| && MwKey(h, i) == k { assert WritesMw(h, i, k); }
  }

  ghost predicate SomeoneWrites(hosts: seq<ProxyHost>, k: string) {
    exists n, i :: 0 <= n < |hosts| && WritesMw(hosts[n], i, k)
  }

  lemma SomeoneSnoc(hosts: seq<ProxyHost>, k: string)
    requires hosts != []
    ensures var last := |hosts| - 1;
      SomeoneWrites(hosts, k) <==> SomeoneWrites(hosts[..last], k) || exists i :: WritesMw(hosts[last], i, k)
  {
    hide WritesMw;
    var last := |hosts| - 1;
    assert forall n :: 0 <= n < last ==> hosts[..last][n] == hosts[n];
    if SomeoneWrites(hosts, k) {
      var n, i :| 0 <= n < |hosts| && WritesMw(hosts[n], i, k);
      if n < last { assert WritesMw(hosts[..last][n], i, k); }
    }
    if i :| WritesMw(hosts[last], i, k) { assert SomeoneWrites(hosts, k); }
  }

  /** Likewise for middleware definitions and their mangled names. */
  lemma {:induction false} AllMwsAt(p: Platform, hosts: seq<ProxyHost>, k: string)
    ensures k in AllMws(p, hosts) <==> SomeoneWrites(hosts, k)
    ensures forall n, i :: LastMw(hosts, n, i, k) ==>
      k in AllMws(p, hosts) && WritesMw(hosts[n], i, k) && AllMws(p, hosts)[k] == FinalMw(p, hosts[n], i)
  {
    hide MwKey, FinalMw, PutMws;
    if hosts != [] {
      var last := |hosts| - 1;
      var init, h := hosts[..last], hosts[last];
      AllMwsAt(p, init, k);
      PutAllMws(p, AllMws(p, init), h, k);
      SomeoneSnoc(hosts, k);
      forall n, i | LastMw(hosts, n, i, k)
        ensures k in AllMws(p, hosts) && WritesMw(hosts[n], i, k) && AllMws(p, hosts)[k] == FinalMw(p, hosts[n], i)
      {
        if n < last {
          assert init[n] == hosts[n];
          assert LastMw(init, n, i, k);
        }
      }
    }
  }

  lemma {:induction false} SomeLastMw(hosts: seq<ProxyHost>, m: nat, j: nat, k: string) returns (n: nat, i: nat)
    requires m < |hosts| && WritesMw(hosts[m], j, k)
    ensures LastMw(hosts, n, i, k) && m <= n
    decreases |hosts| - m
  {
    hide WritesMw;
    if m', j' :| m < m' < |hosts| && WritesMw(hosts[m'], j', k) {
      assert j' >= 0 by { NonNegative(hosts[m'], j', k); }
      n, i := SomeLastMw(hosts, m', j', k);
    } else {
      n, i := m, j;
    }
  }

  lemma NonNegative(h: ProxyHost, i: int, k: string)
    requires WritesMw(h, i, k)
    ensures i >= 0
  {
  }

  /** No fault among hosts means no fault in any of them. */
  lemma {:induction false} NoHostFault(p: Platform, hosts: seq<ProxyHost>)
    ensures FirstHostFault(p, hosts).None? <==> forall n :: 0 <= n < |hosts| ==> HostFault(p, hosts[n]).None?
  {
    hide HostFault;
    if hosts != [] {
      var init := hosts[..|hosts| - 1];
      NoHostFault(p, init);
      assert hosts == init + [hosts[|hosts| - 1]];
    }
  }

  lemma HostFaultExact(p: Platform, h: ProxyHost)
    ensures HostFault(p, h).None? <==> Admissible(p, h.middlewares)
  {
    hide FirstRenderError, FirstChainError, Admissible;
    ListFaultExact(p, h.middlewares);
  }
}
