/** Certificates do not survive the snapshot intact. */
module CertificateFiltering {
  import opened Wrappers
  import opened Json
  import opened Model
  import opened Lists
  import opened Sorting
  import opened Compiler
  import opened References
  import opened Routing
  import opened Determinism

  lemma TlsIs(p: Platform, order: seq<ProxyHost>, pool: seq<Certificate>)
    ensures Sub(DocumentOf(p, order, pool), "tls") == if pool != [] then CertPool(pool).fields else map[]
  {
    hide HttpSection, L4Section, Filter, HttpMapsOf;
    SectionKeysDistinct();
  }

  lemma PoolsEqual(a: seq<Certificate>, b: seq<Certificate>)
    requires CertPool(a).fields == CertPool(b).fields
    ensures |a| == |b| && forall i :: 0 <= i < |a| ==> a[i].certPEM == b[i].certPEM && a[i].keyPEM == b[i].keyPEM
  {
    assert |"certFile"| == 8 && |"keyFile"| == 7;
    assert CertPool(a).fields["certificates"] == CertPool(b).fields["certificates"];
    var x, y := CertPool(a).fields["certificates"].items, CertPool(b).fields["certificates"].items;
    forall i | 0 <= i < |a| ensures a[i].certPEM == b[i].certPEM && a[i].keyPEM == b[i].keyPEM {
      assert x[i] == PoolEntry(a[i]) && y[i] == PoolEntry(b[i]);
      assert x[i].fields["certFile"] == y[i].fields["certFile"] && x[i].fields["keyFile"] == y[i].fields["keyFile"];
    }
  }

  lemma SortedMembers(a: seq<Certificate>, certs: seq<Certificate>)
    requires IsSortOf(a, certs, CertName)
    ensures |a| == |certs| && forall c :: c in a <==> c in certs
  {
    assert |a| == |multiset(a)| == |multiset(certs)| == |certs|;
    forall c ensures c in a <==> c in certs {
      assert c in a <==> c in multiset(a);
      assert c in certs <==> c in multiset(certs);
    }
  }

  /** An agent with a host snapshot receives the published certificate pool
      exactly when no certificate has a private key: the snapshot drops keys. */
  lemma AgentKeepsCertificates(p: Platform, hosts: seq<ProxyHost>, certs: seq<Certificate>, c: Compiled,
                               mineHosts: seq<ProxyHost>, mine: Compiled)
    requires CompilesTo(p, hosts, certs, Success(c)) && CompilesTo(p, mineHosts, SnapshotCerts(certs), Success(mine))
    requires DistinctKeys(certs, CertName)
    ensures Sub(mine.config, "tls") == Sub(c.config, "tls") <==> forall x :: x in certs ==> x.keyPEM == ""
  {
    hide CompilesTo, IsSortOf, DocumentOf, CertPool, DistinctKeys, Validation.Publishable;
    var order, pool := CompiledParts(p, hosts, certs, c);
    var order', pool' := CompiledParts(p, mineHosts, SnapshotCerts(certs), mine);
    TlsIs(p, order, pool);
    TlsIs(p, order', pool');
    SortedMembers(pool, certs);
    SortedMembers(pool', SnapshotCerts(certs));
    if Sub(mine.config, "tls") == Sub(c.config, "tls") && certs != [] {
      PoolsEqual(pool, pool');
      forall x | x in certs ensures x.keyPEM == "" {
        var i :| 0 <= i < |pool| && pool[i] == x;
        assert pool'[i] in SnapshotCerts(certs);
      }
    }
    if forall x :: x in certs ==> x.keyPEM == "" {
      assert SnapshotCerts(certs) == certs;
      OneCertOrder(certs, certs, pool, pool');
    }
  }
}
