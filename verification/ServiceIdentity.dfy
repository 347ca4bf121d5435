/** Service identities and the key that indexes every stored record. */
module ServiceIdentity {
  import opened Wrappers

  datatype Identity = Identity(scopeID: string, ip: string, port: int, protocol: string)

  /** What identities take from libraries: `canonicalIP` parses an address, unmaps it and prints it;
      `digest` is the hex SHA-256 of the canonical JSON of (scope, canonical IP, port, protocol). */
  datatype Library = Library(
    canonicalIP: string -> Option<string>,
    digest: (string, string, int, string) -> string
  )

  const TCP := "tcp"
  const UDP := "udp"

  predicate ValidProtocol(protocol: string) {
    protocol == TCP || protocol == UDP
  }

  predicate ValidPort(port: int) {
    1 <= port <= 65535
  }

  predicate HexDigit(c: char) {
    '0' <= c <= '9' || 'a' <= c <= 'f'
  }

  predicate ValidServiceKeyV1(key: string) {
    |key| == 64 && forall i | 0 <= i < |key| :: HexDigit(key[i])
  }

  /** The endpoint of an identity: what the key has to determine within one scope. */
  predicate CanonicalEndpoint(lib: Library, ip: string, port: int, protocol: string) {
    lib.canonicalIP(ip) == Some(ip) && ValidPort(port) && ValidProtocol(protocol)
  }

  /** The laws assumed of the libraries. A printed address parses back to itself; a key is 64 hex digits;
      within one scope, keys of different canonical endpoints differ (collision freedom). */
  ghost predicate Lawful(lib: Library) {
    && (forall raw :: lib.canonicalIP(raw).Some? ==> lib.canonicalIP(lib.canonicalIP(raw).value) == lib.canonicalIP(raw))
    && (forall scope, ip, port, protocol :: ValidServiceKeyV1(lib.digest(scope, ip, port, protocol)))
    && (forall scope, ip, port, protocol, ip', port', protocol' ::
          && CanonicalEndpoint(lib, ip, port, protocol)
          && CanonicalEndpoint(lib, ip', port', protocol')
          && lib.digest(scope, ip, port, protocol) == lib.digest(scope, ip', port', protocol')
          ==> ip == ip' && port == port' && protocol == protocol')
  }

  /** `ServiceIdentity.Key`, with its checks in order. */
  function Key(lib: Library, id: Identity): (r: Result<string>) {
    if lib.canonicalIP(id.ip).None? then Err([InvalidIP])
    else if !ValidProtocol(id.protocol) then Err([UnsupportedProtocol])
    else if !ValidPort(id.port) then Err([InvalidPort])
    else if id.scopeID == "" then Err([EmptyScopeID])
    else Ok(lib.digest(id.scopeID, lib.canonicalIP(id.ip).value, id.port, id.protocol))
  }

  /** Within a scope two identities share a key exactly when they name the same canonical endpoint. */
  lemma KeyIdentifiesEndpoint(lib: Library, a: Identity, b: Identity)
    requires Lawful(lib) && a.scopeID == b.scopeID
    requires Key(lib, a).Ok? && Key(lib, b).Ok?
    ensures Key(lib, a) == Key(lib, b)
       <==> lib.canonicalIP(a.ip) == lib.canonicalIP(b.ip) && a.port == b.port && a.protocol == b.protocol
    ensures ValidServiceKeyV1(Key(lib, a).value)
  {
    var x, y := lib.canonicalIP(a.ip).value, lib.canonicalIP(b.ip).value;
    assert lib.canonicalIP(x) == Some(x) && lib.canonicalIP(y) == Some(y);
    assert CanonicalEndpoint(lib, x, a.port, a.protocol) && CanonicalEndpoint(lib, y, b.port, b.protocol);
  }

  /** Which identities have a key; the others are told the first thing that is wrong with them. */
  lemma KeyExistsIff(lib: Library, id: Identity)
    ensures var address, protocol := lib.canonicalIP(id.ip).Some?, id.protocol == "tcp" || id.protocol == "udp";
      && (Key(lib, id).Ok? <==> address && protocol && 0 < id.port < 65536 && id.scopeID != "")
      && (Key(lib, id) == Err([InvalidIP]) <==> !address)
      && (Key(lib, id) == Err([UnsupportedProtocol]) <==> address && !protocol)
      && (Key(lib, id) == Err([InvalidPort]) <==> address && protocol && !(0 < id.port < 65536))
      && (Key(lib, id) == Err([EmptyScopeID]) <==> address && protocol && 0 < id.port < 65536 && id.scopeID == "")
  {
  }

  /** The key format: 64 lower-case hex digits. */
  lemma KeyFormat(key: string)
    ensures ValidServiceKeyV1(key) <==> |key| == 64 && forall c | c in key :: c in "0123456789abcdef"
  {
    forall c: char ensures HexDigit(c) <==> c in "0123456789abcdef" {
      DigitByCode(c);
    }
    assert forall i | 0 <= i < |key| :: key[i] in key;
  }

  lemma DigitByCode(c: char)
    ensures HexDigit(c) <==> c in "0123456789abcdef"
  {
    var digits := "0123456789abcdef";
    if '0' <= c <= '9' {
      assert digits[c as int - '0' as int] == c;
    } else if 'a' <= c <= 'f' {
      assert digits[10 + (c as int - 'a' as int)] == c;
    }
  }

  // ---------------------------------------------------------------- the assumed laws are consistent

  function Nibble(n: int): char
    requires 0 <= n < 16
  {
    if n < 10 then '0' + n as char else 'a' + (n - 10) as char
  }

  /** The lowest `n` hex digits of a number. */
  function Hex(v: nat, n: nat): (digits: string)
    ensures |digits| == n && forall i | 0 <= i < n :: HexDigit(digits[i])
  {
    if n == 0 then [] else Hex(v / 16, n - 1) + [Nibble(v % 16)]
  }

  lemma LastHexDigit(v: nat, v': nat, n: nat)
    requires n > 0 && Hex(v, n) == Hex(v', n)
    ensures v % 16 == v' % 16 && Hex(v / 16, n - 1) == Hex(v' / 16, n - 1)
  {
    var a, b := Hex(v, n), Hex(v', n);
    assert a[n - 1] == Nibble(v % 16) && b[n - 1] == Nibble(v' % 16);
    assert a[..n - 1] == Hex(v / 16, n - 1) && b[..n - 1] == Hex(v' / 16, n - 1);
  }

  lemma FourHexDigits(v: nat, v': nat)
    requires v < 65536 && v' < 65536 && Hex(v, 4) == Hex(v', 4)
    ensures v == v'
  {
    LastHexDigit(v, v', 4);
    LastHexDigit(v / 16, v' / 16, 3);
    LastHexDigit(v / 16 / 16, v' / 16 / 16, 2);
    LastHexDigit(v / 16 / 16 / 16, v' / 16 / 16 / 16, 1);
  }

  /** A digest that spells out port and protocol. */
  function PlainDigest(scope: string, ip: string, port: int, protocol: string): (key: string)
    ensures ValidServiceKeyV1(key)
  {
    Hex(if port < 0 then 0 else port, 4) + Hex(if protocol == TCP then 0 else 1, 60)
  }

  lemma PlainDigestIsInjective(scope: string, ip: string, port: int, protocol: string, port': int, protocol': string)
    requires ValidPort(port) && ValidProtocol(protocol) && ValidPort(port') && ValidProtocol(protocol')
    requires PlainDigest(scope, ip, port, protocol) == PlainDigest(scope, ip, port', protocol')
    ensures port == port' && protocol == protocol'
  {
    var a, b := PlainDigest(scope, ip, port, protocol), PlainDigest(scope, ip, port', protocol');
    var p, p': nat := if protocol == TCP then 0 else 1, if protocol' == TCP then 0 else 1;
    assert a[..4] == Hex(port, 4) && b[..4] == Hex(port', 4);
    assert a[4..] == Hex(p, 60) && b[4..] == Hex(p', 60);
    LastHexDigit(p, p', 60);
    FourHexDigits(port, port');
  }

  /** `Lawful` can be met: a library that knows one address and spells out the rest. */
  lemma LawsAreConsistent() returns (lib: Library)
    ensures Lawful(lib) && CanonicalEndpoint(lib, "10.0.0.1", 443, TCP)
  {
    lib := Library(raw => if raw == "10.0.0.1" then Some(raw) else None, PlainDigest);
    forall scope, ip, port, protocol, ip', port', protocol' |
      && CanonicalEndpoint(lib, ip, port, protocol) && CanonicalEndpoint(lib, ip', port', protocol')
      && lib.digest(scope, ip, port, protocol) == lib.digest(scope, ip', port', protocol')
      ensures ip == ip' && port == port' && protocol == protocol'
    {
      PlainDigestIsInjective(scope, ip, port, protocol, port', protocol');
    }
  }
}
