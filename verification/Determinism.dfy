/** The output does not depend on the order hosts and certificates arrive in. */
module Determinism {
  import opened Wrappers
  import opened Model
  import opened Lists
  import opened Sorting
  import opened Validation
  import opened Compiler

  lemma SublistDistinct(sub: seq<ProxyHost>, xs: seq<ProxyHost>)
    requires IsSublist(sub, xs) && DistinctKeys(xs, HostName)
    ensures DistinctKeys(sub, HostName)
  {
    forall i, j | 0 <= i < j < |sub| ensures HostName(sub[i]) != HostName(sub[j]) {
      var m, n := SublistPair(sub, xs, i, j);
    }
  }

  // The enabled hosts of a publishable fleet come out of the sort in one order only.
  lemma OneHostOrder(p: Platform, xs: seq<ProxyHost>, ys: seq<ProxyHost>, a: seq<ProxyHost>, b: seq<ProxyHost>)
    requires Publishable(p, xs) && multiset(xs) == multiset(ys)
    requires IsSortOf(a, Filter(xs, IsEnabled), HostName) && IsSortOf(b, Filter(ys, IsEnabled), HostName)
    ensures a == b
  {
    hide Publishable;
    FilterPermute(xs, ys, IsEnabled);
    PublishableNames(p, xs);
    FilterIsSublist(xs, IsEnabled);
    SublistDistinct(Filter(xs, IsEnabled), xs);
    DistinctKeysPermute(Filter(xs, IsEnabled), a, HostName);
    SortUnique(a, b, HostName);
  }

  ghost predicate BothInvalid(a: Result<Compiled, CompileError>, b: Result<Compiled, CompileError>) {
    a.Failure? && b.Failure? && a.error.Invalid? && b.error.Invalid?
  }

  /** For any permutation of the hosts, and of certificates with distinct
      names, two compiles agree completely: both are rejected by validation, or
      they return the same error, or the same configuration and entity tag.
      Colliding sanitized names make no difference. */
  lemma CompileDeterministic(p: Platform, hosts1: seq<ProxyHost>, certs1: seq<Certificate>, r1: Result<Compiled, CompileError>,
                             hosts2: seq<ProxyHost>, certs2: seq<Certificate>, r2: Result<Compiled, CompileError>)
    requires multiset(hosts1) == multiset(hosts2) && multiset(certs1) == multiset(certs2)
    requires DistinctKeys(certs1, CertName)
    requires CompilesTo(p, hosts1, certs1, r1) && CompilesTo(p, hosts2, certs2, r2)
    ensures r1 == r2 || BothInvalid(r1, r2)
  {
    hide AllErrors, Publishable, Emit, IsSortOf, DistinctKeys;
    ValidateExact(p, hosts1);
    ValidateExact(p, hosts2);
    if Publishable(p, hosts1) {
      PublishablePermute(p, hosts1, hosts2);
      var a, c :| IsSortOf(a, Filter(hosts1, IsEnabled), HostName) && IsSortOf(c, certs1, CertName) && r1 == Emit(p, a, c);
      var b, d :| IsSortOf(b, Filter(hosts2, IsEnabled), HostName) && IsSortOf(d, certs2, CertName) && r2 == Emit(p, b, d);
      OneHostOrder(p, hosts1, hosts2, a, b);
      OneCertOrder(certs1, certs2, c, d);
    } else if Publishable(p, hosts2) {
      PublishablePermute(p, hosts2, hosts1);
    }
  }

  lemma OneCertOrder(xs: seq<Certificate>, ys: seq<Certificate>, a: seq<Certificate>, b: seq<Certificate>)
    requires DistinctKeys(xs, CertName) && multiset(xs) == multiset(ys)
    requires IsSortOf(a, xs, CertName) && IsSortOf(b, ys, CertName)
    ensures a == b
  {
    DistinctKeysPermute(xs, a, CertName);
    SortUnique(a, b, CertName);
  }
}
