/** The desired state of a fleet, and the library calls the manager makes
    but that are not modelled (URL parsing, JSON bytes, the hash). */
module Model {
  import opened Wrappers
  import opened Json

  datatype Platform = Platform(
    parseURL: string -> Option<(string, string)>,       // scheme and host of url.Parse
    splitHostPort: string -> Option<(string, string)>,  // net.SplitHostPort
    sprint: Value -> string,                            // fmt.Sprint
    encode: Value -> string,                            // json.Marshal
    digest: string -> nat                               // first 8 bytes of SHA-256
  )

  // The type string of a middleware: the supported ones, or anything else.
  datatype MwType =
    | Headers | RedirectScheme | StripPrefix | BasicAuth | ForwardAuth | RateLimit
    | IPAllowList | Retry | Compress | CircuitBreaker | Chain
    | Unsupported(name: string)

  // The protocol string of a host; the empty string means http.
  datatype Protocol = Unset | HTTP | TCP | UDP | OtherProtocol(name: string)

  // config is None for a nil Go map, which prints as null and not as {}.
  datatype Middleware = Middleware(name: string, kind: MwType, config: Option<Object>)

  datatype ProxyHost = ProxyHost(
    name: string,
    protocol: Protocol,
    domain: string,
    upstreamURL: string,
    upstreamURLs: seq<string>,
    stickySession: bool,
    healthCheck: Object,
    entryPoints: seq<string>,
    middlewares: seq<Middleware>,
    tls: bool,
    labelSelector: string,
    enabled: bool
  )

  datatype Certificate = Certificate(name: string, certPEM: string, keyPEM: string)

  function HostName(h: ProxyHost): string { h.name }
  function CertName(c: Certificate): string { c.name }

  function Config(mw: Middleware): (o: Object)
    ensures mw.config == Some(o) || (mw.config == None && o == map[])
  {
    if mw.config.Some? then mw.config.value else map[]
  }

  function Proto(h: ProxyHost): (r: Protocol)
    ensures r == HTTP <==> h.protocol == HTTP || h.protocol == Unset
    ensures r != HTTP ==> r == h.protocol
  {
    if h.protocol == Unset then HTTP else h.protocol
  }

  // ---------------------------------------------------------------- snapshots

  // What json.Marshal followed by json.Unmarshal does to a stored host: an
  // empty config map is omitted and comes back nil.
  function SnapshotMw(mw: Middleware): Middleware {
    if mw.config == Some(map[]) then mw.(config := None) else mw
  }

  function SnapshotHost(h: ProxyHost): ProxyHost {
    h.(middlewares := seq(|h.middlewares|, i requires 0 <= i < |h.middlewares| => SnapshotMw(h.middlewares[i])))
  }

  function SnapshotHosts(hosts: seq<ProxyHost>): seq<ProxyHost> {
    seq(|hosts|, i requires 0 <= i < |hosts| => SnapshotHost(hosts[i]))
  }

  // KeyPEM is never marshalled.
  function SnapshotCert(c: Certificate): Certificate { c.(keyPEM := "") }

  function SnapshotCerts(certs: seq<Certificate>): seq<Certificate> {
    seq(|certs|, i requires 0 <= i < |certs| => SnapshotCert(certs[i]))
  }

  /** A snapshot keeps every host and certificate, in order, and every field but
      private keys and empty config maps. */
  lemma SnapshotIsFaithful(hosts: seq<ProxyHost>, certs: seq<Certificate>)
    ensures |SnapshotHosts(hosts)| == |hosts| && |SnapshotCerts(certs)| == |certs|
    ensures forall i :: 0 <= i < |hosts| ==>
      var s := SnapshotHosts(hosts)[i];
      s == hosts[i].(middlewares := s.middlewares) && |s.middlewares| == |hosts[i].middlewares|
    ensures forall i, j :: 0 <= i < |hosts| && 0 <= j < |hosts[i].middlewares| ==>
      var was, mw := hosts[i].middlewares[j], SnapshotHosts(hosts)[i].middlewares[j];
      mw.name == was.name && mw.kind == was.kind && mw.config == if was.config == Some(map[]) then None else was.config
    ensures forall i :: 0 <= i < |certs| ==> SnapshotCerts(certs)[i] == Certificate(certs[i].name, certs[i].certPEM, "")
  {
  }

  // ---------------------------------------------------------------- entity tags

  function HexChar(n: nat): char
    requires n < 16
  {
    "0123456789abcdef"[n]
  }

  function Hex(n: nat, digits: nat): (s: string)
    ensures |s| == digits
    ensures forall i :: 0 <= i < |s| ==> '0' <= s[i] <= '9' || 'a' <= s[i] <= 'f'
  {
    if digits == 0 then "" else Hex(n / 16, digits - 1) + [HexChar(n % 16)]
  }

  /** The entity tag of a compiled configuration: a quoted, truncated hash of its bytes. */
  function EtagOf(p: Platform, config: Value): string {
    "\"sha256-" + Hex(p.digest(p.encode(config)), 16) + "\""
  }

  // ---------------------------------------------------------------- what a tag says

  predicate IsHexChar(c: char) { '0' <= c <= '9' || 'a' <= c <= 'f' }

  function HexDigit(c: char): (n: nat)
    requires IsHexChar(c)
    ensures n < 16
  {
    if c <= '9' then c as int - '0' as int else c as int - 'a' as int + 10
  }

  predicate IsHex(s: string) { forall i :: 0 <= i < |s| ==> IsHexChar(s[i]) }

  /** The number that hexadecimal digits write. */
  function HexValue(s: string): nat
    requires IsHex(s)
  {
    if s == "" then 0 else 16 * HexValue(s[..|s| - 1]) + HexDigit(s[|s| - 1])
  }

  function Pow16(d: nat): nat
    ensures Pow16(d) >= 1
  {
    if d == 0 then 1 else 16 * Pow16(d - 1)
  }

  lemma TagRange()
    ensures Pow16(16) == 0x1_0000_0000_0000_0000
  {
    assert Pow16(4) == 0x1_0000;
    assert Pow16(8) == 0x1_0000 * 0x1_0000 by { assert Pow16(6) == 0x100_0000; }
    assert Pow16(12) == 0x1_0000_0000_0000 by { assert Pow16(10) == 0x100_0000_0000; }
    assert Pow16(14) == 0x100_0000_0000_0000;
  }

  lemma Distribute(m: nat, a: nat, b: nat)
    ensures m * (a + b) == m * a + m * b
  {
  }

  lemma DivUnique(m: nat, q: nat, r: nat, k: nat, t: nat)
    requires r < m && t < m && m * q + r == m * k + t && q <= k
    ensures r == t
  {
    if q < k {
      Distribute(m, q, k - q);
      Distribute(m, 1, k - q - 1);
    }
  }

  lemma Divides(n: nat, m: nat) returns (q: nat, r: nat)
    requires m >= 1
    ensures q == n / m && r == n % m && n == m * q + r && r < m
  {
    q, r := n / m, n % m;
  }

  lemma SplitMod(n: nat, m: nat)
    requires m >= 1
    ensures n % (16 * m) == 16 * ((n / 16) % m) + n % 16
  {
    var q, r := Divides(n / 16, m);
    var k, t := Divides(n, 16 * m);
    Scale(m, q);
    if k <= q {
      DivUnique(16 * m, k, t, q, 16 * r + n % 16);
    } else {
      DivUnique(16 * m, q, 16 * r + n % 16, k, t);
    }
  }

  lemma Scale(m: nat, q: nat)
    ensures (16 * m) * q == 16 * (m * q)
  {
  }

  lemma HexCharDigit(n: nat)
    requires n < 16
    ensures IsHexChar(HexChar(n)) && HexDigit(HexChar(n)) == n
  {
    if n < 10 { assert HexChar(n) == '0' + n as char; }
  }

  /** Hex writes the last digits of a number. */
  lemma {:induction false} HexWrites(n: nat, digits: nat)
    ensures IsHex(Hex(n, digits)) && HexValue(Hex(n, digits)) == n % Pow16(digits)
  {
    if digits > 0 {
      HexWrites(n / 16, digits - 1);
      HexCharDigit(n % 16);
      var s, init := Hex(n, digits), Hex(n / 16, digits - 1);
      assert s[..|s| - 1] == init && s[|s| - 1] == HexChar(n % 16);
      SplitMod(n, Pow16(digits - 1));
    }
  }

  lemma HexDigitInjective(c: char, d: char)
    requires IsHexChar(c) && IsHexChar(d) && HexDigit(c) == HexDigit(d)
    ensures c == d
  {
  }

  lemma {:induction false} HexValueInjective(a: string, b: string)
    requires |a| == |b| && IsHex(a) && IsHex(b) && HexValue(a) == HexValue(b)
    ensures a == b
  {
    hide HexDigit, IsHexChar;
    if a != "" {
      var n := |a| - 1;
      assert 16 * HexValue(a[..n]) + HexDigit(a[n]) == 16 * HexValue(b[..n]) + HexDigit(b[n]);
      HexDigitInjective(a[n], b[n]);
      HexValueInjective(a[..n], b[..n]);
      assert a == a[..n] + [a[n]] && b == b[..n] + [b[n]];
    }
  }

  predicate SaysDigest(tag: string, n: nat) {
    |tag| == 25 && tag[..8] == "\"sha256-" && tag[24] == '"' && IsHex(tag[8..24]) && HexValue(tag[8..24]) == n
  }

  /** The tag of a configuration is a quoted text that writes the first 64 bits
      of the hash of its bytes in 16 hexadecimal digits. */
  lemma TagSaysDigest(p: Platform, config: Value)
    ensures SaysDigest(EtagOf(p, config), p.digest(p.encode(config)) % 0x1_0000_0000_0000_0000)
  {
    var n := p.digest(p.encode(config));
    var h := Hex(n, 16);
    HexWrites(n, 16);
    TagRange();
    assert EtagOf(p, config)[8..24] == h;
  }

  /** Two configurations have one tag exactly when the first 64 bits of their
      hashes agree. */
  lemma TagsAgreeIff(p: Platform, x: Value, y: Value)
    ensures EtagOf(p, x) == EtagOf(p, y) <==>
      p.digest(p.encode(x)) % 0x1_0000_0000_0000_0000 == p.digest(p.encode(y)) % 0x1_0000_0000_0000_0000
  {
    hide EtagOf, HexValue, IsHex;
    var a, b := EtagOf(p, x), EtagOf(p, y);
    TagSaysDigest(p, x);
    TagSaysDigest(p, y);
    if HexValue(a[8..24]) == HexValue(b[8..24]) {
      HexValueInjective(a[8..24], b[8..24]);
      assert a == a[..8] + a[8..24] + [a[24]] && b == b[..8] + b[8..24] + [b[24]];
    }
  }
}
