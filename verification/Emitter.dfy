/** The second classifier: committed changes become lifecycle events. */
module Emitter {
  import opened Wrappers
  import opened ServiceIdentity
  import opened Records
  import opened Reconcile
  import opened Pipeline
  import opened Enrichment

  datatype EventType = ServiceOpened | ServiceChanged | ServiceClosed | ServiceReopened

  /** A lifecycle event without its constant, time and risk fields. */
  datatype Event = Event(
    eventID: string, scanID: string, scopeID: string, eventType: EventType,
    ip: string, context: AssetContext, protocol: string, port: int, state: string, previousState: string)

  function StatusText(s: Status): (text: string)
    ensures text == "open" <==> s == StatusOpen
    ensures text == "closed" <==> s == StatusClosed
  {
    assert |"open"| != |"closed"|;
    match s
    case StatusOpen => "open"
    case StatusClosed => "closed"
  }

  function AsScanResult(r: Option<Record>): Option<ScanResult> {
    match r
    case None => None
    case Some(x) => Some(ScanResult("", x.ip, x.port, x.protocol, StatusText(x.status),
                                    x.banner, x.osHint, x.certSubject, x.certIssuer, x.sans))
  }

  function Join(parts: seq<string>, sep: string): string {
    if parts == [] then "" else if |parts| == 1 then parts[0] else parts[0] + sep + Join(parts[1..], sep)
  }

  /** The text `hashScanResult` hashes. It leaves out the OS hint. */
  function Payload(r: ScanResult): string {
    r.state + "|" + r.banner + "|" + r.certSubject + "|" + r.certIssuer + "|" + Join(r.sans, ",")
  }

  function Decimal(n: nat): (s: string)
    ensures s != [] && forall i | 0 <= i < |s| :: '0' <= s[i] <= '9'
  {
    var digit := [('0' as int + n % 10) as char];
    if n < 10 then digit else Decimal(n / 10) + digit
  }

  function EventID(scan: string, ip: string, protocol: string, port: nat): string {
    scan + "-" + ip + "-" + protocol + "-" + Decimal(port)
  }

  /** `mapDeltaToLifecycleEvent`. `hash` is the 64-bit hash of a payload. */
  function MapDelta(
      hash: string -> int, m: Matcher, scope: string, scan: string,
      prior: Option<ScanResult>, curr: Option<ScanResult>, successful: bool): Option<Event>
    requires prior.Some? ==> prior.value.port >= 0
    requires curr.Some? ==> curr.value.port >= 0
  {
    if !successful && (curr.None? || curr.value.state == "closed") then None
    else
      var targetIP := if curr.Some? then curr.value.targetIP else if prior.Some? then prior.value.targetIP else "";
      var context := if targetIP != "" then m.MatchString(targetIP) else DEFAULT_CONTEXT;
      var isNew := prior.None? || (curr.Some? && prior.value.protocol != curr.value.protocol);
      if isNew && curr.Some? && curr.value.state == "open" then
        Some(Event(EventID(scan, curr.value.targetIP, curr.value.protocol, curr.value.port), scan, scope, ServiceOpened,
                   targetIP, context, curr.value.protocol, curr.value.port, "open", "closed"))
      else if prior.Some? && prior.value.state == "open" && curr.Some? && curr.value.state == "open" then
        if hash(Payload(prior.value)) != hash(Payload(curr.value)) then
          Some(Event(EventID(scan, curr.value.targetIP, curr.value.protocol, curr.value.port), scan, scope, ServiceChanged,
                     targetIP, context, curr.value.protocol, curr.value.port, "open", "open"))
        else None
      else if prior.Some? && prior.value.state == "closed" && curr.Some? && curr.value.state == "open" then
        Some(Event(EventID(scan, curr.value.targetIP, curr.value.protocol, curr.value.port), scan, scope, ServiceReopened,
                   targetIP, context, curr.value.protocol, curr.value.port, "open", "closed"))
      else if successful && prior.Some? && prior.value.state == "open" && (curr.None? || curr.value.state == "closed") then
        var named := if curr.Some? then curr.value else prior.value;
        Some(Event(EventID(scan, targetIP, named.protocol, named.port), scan, scope, ServiceClosed,
                   targetIP, context, named.protocol, named.port, "closed", "open"))
      else None
  }

  /** The ports of a change's records are port numbers. */
  predicate PortsAreValid(c: Change) {
    && (c.previous.Some? ==> ValidPort(c.previous.value.port))
    && (c.current.Some? ==> ValidPort(c.current.value.port))
  }

  predicate AllPortsAreValid(cs: seq<Change>) {
    forall c | c in cs :: PortsAreValid(c)
  }

  function EventOf(hash: string -> int, m: Matcher, scope: string, scan: string, c: Change): Option<Event>
    requires PortsAreValid(c)
  {
    MapDelta(hash, m, scope, scan, AsScanResult(c.previous), AsScanResult(c.current), true)
  }

  function EventsOf(hash: string -> int, m: Matcher, scope: string, scan: string, cs: seq<Change>): seq<Event>
    requires AllPortsAreValid(cs)
  {
    if cs == [] then [] else
      var n := |cs| - 1;
      EventsOf(hash, m, scope, scan, cs[..n])
      + (var e := EventOf(hash, m, scope, scan, cs[n]); if e.Some? then [e.value] else [])
  }

  /** `EmitLifecycleChanges`: write the events in order; a failed write ends the loop. */
  method EmitLifecycleChanges(
      hash: string -> int, m: Matcher, scope: string, scan: string, cs: seq<Change>, writes: nat -> bool)
    returns (out: seq<Event>, err: Error)
    requires AllPortsAreValid(cs)
    ensures err == Nil ==> out == EventsOf(hash, m, scope, scan, cs)
    ensures err != Nil ==> exists i: nat | i < |cs| :: out == EventsOf(hash, m, scope, scan, cs[..i])
    ensures err == Nil <==> forall i: nat | i < |cs| && EventOf(hash, m, scope, scan, cs[i]).Some? :: writes(i)
  {
    out := [];
    for i := 0 to |cs|
      invariant out == EventsOf(hash, m, scope, scan, cs[..i])
      invariant forall j: nat | j < i && EventOf(hash, m, scope, scan, cs[j]).Some? :: writes(j)
    {
      assert cs[..i + 1][..i] == cs[..i] && cs[i] in cs;
      var event := EventOf(hash, m, scope, scan, cs[i]);
      if event.Some? {
        if !writes(i) {
          return out, [EmitFailed];
        }
        out := out + [event.value];
      }
    }
    assert cs[..|cs|] == cs;
    err := Nil;
  }

  // ---------------------------------------------------------------- agreement of the two classifiers

  /** The record that identifies a change: the current one, or the previous one of a closed service. */
  function Subject(c: Change): Record
    requires c.current.Some? || c.previous.Some?
  {
    if c.current.Some? then c.current.value else c.previous.value
  }

  lemma SameProtocol(lib: Library, scope: string, base: RecordMap, cur: RecordMap, k: string)
    requires Lawful(lib) && ValidRecords(lib, scope, base, false) && ValidRecords(lib, scope, cur, true)
    requires k in base && k in cur
    ensures base[k].protocol == cur[k].protocol
  {
    KeyIdentifiesEndpoint(lib, IdentityOf(scope, base[k]), IdentityOf(scope, cur[k]));
  }

  /** What a change of valid maps looks like: the records each kind carries, and their statuses. */
  ghost predicate WellShaped(c: Change) {
    && PortsAreValid(c)
    && (c.previous.Some? && c.current.Some? ==> c.previous.value.protocol == c.current.value.protocol)
    && (c.current.Some? ==> c.current.value.status == StatusOpen)
    && match c.kind {
         case Opened => c.previous.None? && c.current.Some?
         case Changed => c.previous.Some? && c.current.Some? && c.previous.value.status == StatusOpen
         case Closed => c.previous.Some? && c.current.None? && c.previous.value.status == StatusOpen
         case Reopened => c.previous.Some? && c.current.Some? && c.previous.value.status == StatusClosed
       }
  }

  lemma StoredRecord(lib: Library, scope: string, m: RecordMap, k: string, current: bool)
    requires ValidRecords(lib, scope, m, current) && k in m
    ensures ValidPort(m[k].port) && (current ==> m[k].status == StatusOpen)
  {
    assert ValidRecord(lib, scope, k, m[k], current);
  }

  lemma ChangeIsWellShaped(lib: Library, scope: string, base: RecordMap, cur: RecordMap, c: Change)
    requires Lawful(lib) && ValidRecords(lib, scope, base, false) && ValidRecords(lib, scope, cur, true)
    requires ChangeAt(base, cur, c.serviceKey) == Some(c)
    ensures WellShaped(c)
  {
    var k := c.serviceKey;
    if k in cur {
      StoredRecord(lib, scope, cur, k, true);
    }
    if k in base {
      StoredRecord(lib, scope, base, k, false);
    }
    if k in base && k in cur {
      SameProtocol(lib, scope, base, cur, k);
    }
  }

  /** The subject of a change is stored under the change's key. */
  lemma SubjectIsKeyed(lib: Library, scope: string, base: RecordMap, cur: RecordMap, c: Change)
    requires ValidRecords(lib, scope, base, false) && ValidRecords(lib, scope, cur, true)
    requires ChangeAt(base, cur, c.serviceKey) == Some(c)
    ensures c.current.Some? || c.previous.Some?
    ensures Key(lib, IdentityOf(scope, Subject(c))) == Ok(c.serviceKey)
  {
    var k := c.serviceKey;
    if k in cur {
      assert ValidRecord(lib, scope, k, cur[k], true);
    } else {
      assert ValidRecord(lib, scope, k, base[k], false);
    }
  }

  /** `e` is what reconciliation's kind calls for: opened, reopened and closed are one event of that type; changed is
      `service.changed` exactly when the two payload hashes differ, and no event otherwise. */
  ghost predicate Agrees(hash: string -> int, c: Change, e: Option<Event>)
    requires WellShaped(c)
  {
    match c.kind
    case Opened => e.Some? && e.value.eventType == ServiceOpened
    case Reopened => e.Some? && e.value.eventType == ServiceReopened
    case Closed => e.Some? && e.value.eventType == ServiceClosed
    case Changed =>
      && (e.Some? <==> hash(Payload(AsScanResult(c.previous).value)) != hash(Payload(AsScanResult(c.current).value)))
      && (e.Some? ==> e.value.eventType == ServiceChanged)
  }

  /** What the emitter makes of a change: its type by the kind of the change, and the service it names. */
  lemma EventOfShape(hash: string -> int, m: Matcher, scope: string, scan: string, c: Change)
    requires WellShaped(c)
    ensures Agrees(hash, c, EventOf(hash, m, scope, scan, c))
    ensures var e := EventOf(hash, m, scope, scan, c);
      e.Some? ==>
        && e.value.ip == Subject(c).ip && e.value.port == Subject(c).port && e.value.protocol == Subject(c).protocol
        && ValidPort(Subject(c).port)
        && e.value.eventID == EventID(scan, Subject(c).ip, Subject(c).protocol, Subject(c).port)
  {
  }

  /** For every change reconciliation can report, the emitter agrees. */
  lemma ClassifiersAgree(
      lib: Library, hash: string -> int, m: Matcher, scope: string, scan: string,
      base: RecordMap, cur: RecordMap, c: Change)
    requires Lawful(lib) && ValidRecords(lib, scope, base, false) && ValidRecords(lib, scope, cur, true)
    requires ChangeAt(base, cur, c.serviceKey) == Some(c)
    ensures WellShaped(c)
    ensures Agrees(hash, c, EventOf(hash, m, scope, scan, c))
  {
    ChangeIsWellShaped(lib, scope, base, cur, c);
    EventOfShape(hash, m, scope, scan, c);
  }

  /** The states an event of each kind reports, now and before. */
  function StatesOf(kind: ChangeKind): (string, string) {
    match kind
    case Opened => ("open", "closed")
    case Changed => ("open", "open")
    case Reopened => ("open", "closed")
    case Closed => ("closed", "open")
  }

  /** Everything else an event says: its scan and scope, the asset context of the address, and both states. */
  lemma EventTellsChange(hash: string -> int, m: Matcher, scope: string, scan: string, c: Change)
    requires WellShaped(c) && EventOf(hash, m, scope, scan, c).Some?
    ensures var e := EventOf(hash, m, scope, scan, c).value;
      && e.scanID == scan && e.scopeID == scope && (e.state, e.previousState) == StatesOf(c.kind)
      && (Subject(c).ip != "" ==> e.context == m.MatchString(Subject(c).ip))
      && (Subject(c).ip == "" ==> e.context == AssetContext("unassigned", "unassigned", "unassigned"))
  {
  }

  /** Without a successful scan there is no event of a closure. */
  lemma IncompleteScansCloseNothing(
      hash: string -> int, m: Matcher, scope: string, scan: string, prior: Option<ScanResult>, curr: Option<ScanResult>)
    requires (prior.Some? ==> prior.value.port >= 0) && (curr.Some? ==> curr.value.port >= 0)
    ensures var e := MapDelta(hash, m, scope, scan, prior, curr, false);
      e.Some? ==> e.value.eventType != ServiceClosed && curr.Some? && curr.value.state == "open"
  {
  }

  /** A change of the OS hint alone is reported by reconciliation and silent in the event stream. */
  lemma OSHintChangesAreSilent(
      hash: string -> int, m: Matcher, scope: string, scan: string, r: Record, hint: string)
    requires r.status == StatusOpen && ValidPort(r.port) && hint != r.osHint
    ensures var k := "service";
      var c := Change(Changed, k, Some(r), Some(r.(osHint := hint)));
      && ChangeAt(map[k := r], map[k := r.(osHint := hint)], k) == Some(c)
      && EventOf(hash, m, scope, scan, c).None?
  {
  }

  // ---------------------------------------------------------------- event identifiers

  predicate Lacks(s: string, c: char) {
    forall i | 0 <= i < |s| :: s[i] != c
  }

  lemma SplitAt(a: string, b: string, x: string, y: string)
    requires a + x == b + y && |a| == |b|
    ensures a == b && x == y
  {
    assert a == (a + x)[..|a|] && b == (b + y)[..|b|];
    assert x == (a + x)[|a|..] && y == (b + y)[|b|..];
  }

  lemma LaterSeparator(c: char, a: string, b: string, x: string, y: string)
    requires |a| < |b| && a + [c] + x == b + [c] + y
    ensures !Lacks(x, c)
  {
    assert (b + [c] + y)[|b|] == c;
    assert x[|b| - |a| - 1] == c;
  }

  /** The text after the last separator determines the text before it. */
  lemma LastSeparator(c: char, a: string, b: string, x: string, y: string)
    requires Lacks(x, c) && Lacks(y, c) && a + [c] + x == b + [c] + y
    ensures a == b && x == y
  {
    if |a| < |b| {
      LaterSeparator(c, a, b, x, y);
    } else if |b| < |a| {
      LaterSeparator(c, b, a, y, x);
    } else {
      SplitAt(a + [c], b + [c], x, y);
      SplitAt(a, b, [c], [c]);
    }
  }

  /** The number a string of decimal digits denotes. */
  function Denoted(s: string): int {
    if s == [] then 0 else 10 * Denoted(s[..|s| - 1]) + (s[|s| - 1] as int - '0' as int)
  }

  /** The decimal text of a number denotes it. */
  lemma {:induction false} DecimalDenotes(n: nat)
    ensures Denoted(Decimal(n)) == n
  {
    var s := Decimal(n);
    if n >= 10 {
      DecimalDenotes(n / 10);
      assert s[..|s| - 1] == Decimal(n / 10);
    } else {
      assert s[..|s| - 1] == [];
    }
  }

  lemma {:induction false} DecimalIsInjective(n: nat, k: nat)
    requires Decimal(n) == Decimal(k)
    ensures n == k
  {
    var s, t := Decimal(n), Decimal(k);
    assert s[|s| - 1] == t[|t| - 1];
    assert n % 10 == k % 10;
    if n >= 10 && k >= 10 {
      assert Decimal(n / 10) == s[..|s| - 1] && Decimal(k / 10) == t[..|t| - 1];
      DecimalIsInjective(n / 10, k / 10);
    }
  }

  // ---------------------------------------------------------------- what a payload determines

  /** Every part is there and lacks the separator. */
  predicate Separable(parts: seq<string>, sep: char) {
    forall p | p in parts :: p != "" && Lacks(p, sep)
  }

  lemma EarlierSeparator(c: char, a: string, b: string, x: string, y: string)
    requires |a| < |b| && a + [c] + x == b + [c] + y
    ensures !Lacks(b, c)
  {
    assert (a + [c] + x)[|a|] == c;
    assert b[|a|] == c;
  }

  lemma FirstSeparator(c: char, a: string, b: string, x: string, y: string)
    requires Lacks(a, c) && Lacks(b, c) && a + [c] + x == b + [c] + y
    ensures a == b && x == y
  {
    if |a| < |b| {
      EarlierSeparator(c, a, b, x, y);
    } else if |b| < |a| {
      EarlierSeparator(c, b, a, y, x);
    } else {
      SplitAt(a + [c], b + [c], x, y);
      SplitAt(a, b, [c], [c]);
    }
  }

  lemma JoinHead(parts: seq<string>, sep: char)
    requires parts != [] && Separable(parts, sep)
    ensures |parts| == 1 ==> Join(parts, [sep]) == parts[0]
    ensures |parts| > 1 ==> Join(parts, [sep]) == parts[0] + [sep] + Join(parts[1..], [sep]) && !Lacks(Join(parts, [sep]), sep)
    ensures Join(parts, [sep]) != "" && parts[0] != "" && Lacks(parts[0], sep)
  {
    assert parts[0] in parts;
    if |parts| > 1 {
      assert Join(parts, [sep])[|parts[0]|] == sep;
    }
  }

  /** Parts that are there and lack the separator can be read off their join. */
  lemma {:induction false} JoinIsInjective(p: seq<string>, q: seq<string>, sep: char)
    requires Separable(p, sep) && Separable(q, sep) && Join(p, [sep]) == Join(q, [sep])
    ensures p == q
  {
    if p != [] && q != [] {
      JoinHead(p, sep);
      JoinHead(q, sep);
      if |p| > 1 && |q| > 1 {
        FirstSeparator(sep, p[0], q[0], Join(p[1..], [sep]), Join(q[1..], [sep]));
        JoinIsInjective(p[1..], q[1..], sep);
        assert p == [p[0]] + p[1..] && q == [q[0]] + q[1..];
      } else {
        assert p == [p[0]] && q == [q[0]];
      }
    } else if p != [] {
      JoinHead(p, sep);
    } else if q != [] {
      JoinHead(q, sep);
    }
  }

  lemma {:induction false} JoinLacks(parts: seq<string>, sep: char, c: char)
    requires (forall p | p in parts :: Lacks(p, c)) && sep != c
    ensures Lacks(Join(parts, [sep]), c)
  {
    if |parts| > 1 {
      assert forall p | p in parts[1..] :: p in parts;
      JoinLacks(parts[1..], sep, c);
      assert parts[0] in parts;
    } else if |parts| == 1 {
      assert parts[0] in parts;
    }
  }

  /** The fields of a result that a payload is made of can be told apart in it. */
  predicate PlainFields(r: ScanResult, sep: char) {
    && Lacks(r.state, '|') && Lacks(r.banner, '|') && Lacks(r.certSubject, '|') && Lacks(r.certIssuer, '|')
    && Separable(r.sans, sep) && forall san | san in r.sans :: Lacks(san, '|')
  }

  predicate SameFields(a: ScanResult, b: ScanResult) {
    && a.state == b.state && a.banner == b.banner && a.certSubject == b.certSubject && a.certIssuer == b.certIssuer
    && a.sans == b.sans
  }

  lemma FieldsByBars(a: seq<string>, b: seq<string>)
    requires |a| == 5 && |b| == 5 && forall i | 0 <= i < 5 :: Lacks(a[i], '|') && Lacks(b[i], '|')
    requires a[0] + "|" + a[1] + "|" + a[2] + "|" + a[3] + "|" + a[4] == b[0] + "|" + b[1] + "|" + b[2] + "|" + b[3] + "|" + b[4]
    ensures a == b
  {
    LastSeparator('|', a[0] + "|" + a[1] + "|" + a[2] + "|" + a[3], b[0] + "|" + b[1] + "|" + b[2] + "|" + b[3], a[4], b[4]);
    LastSeparator('|', a[0] + "|" + a[1] + "|" + a[2], b[0] + "|" + b[1] + "|" + b[2], a[3], b[3]);
    LastSeparator('|', a[0] + "|" + a[1], b[0] + "|" + b[1], a[2], b[2]);
    LastSeparator('|', a[0], b[0], a[1], b[1]);
  }

  /** Two payloads of plain fields are the same exactly when state, banner, subject, issuer and SANs are. */
  lemma PayloadTellsFields(a: ScanResult, b: ScanResult)
    requires PlainFields(a, ',') && PlainFields(b, ',')
    ensures Payload(a) == Payload(b) <==> SameFields(a, b)
  {
    if Payload(a) == Payload(b) {
      JoinLacks(a.sans, ',', '|');
      JoinLacks(b.sans, ',', '|');
      var x := [a.state, a.banner, a.certSubject, a.certIssuer, Join(a.sans, ",")];
      var y := [b.state, b.banner, b.certSubject, b.certIssuer, Join(b.sans, ",")];
      FieldsByBars(x, y);
      assert x[4] == y[4];
      JoinIsInjective(a.sans, b.sans, ',');
    }
  }

  /** With plain fields and a hash without collisions, a change is emitted exactly when banner, certificate subject,
      issuer or SANs differ: all that reconciliation compares but the OS hint. */
  lemma ChangedIsEmittedIff(hash: string -> int, m: Matcher, scope: string, scan: string, c: Change)
    requires WellShaped(c) && c.kind == Changed
    requires PlainFields(AsScanResult(c.previous).value, ',') && PlainFields(AsScanResult(c.current).value, ',')
    requires forall s, t :: hash(s) == hash(t) ==> s == t
    ensures var p, r := c.previous.value, c.current.value;
      EventOf(hash, m, scope, scan, c).Some?
      <==> p.banner != r.banner || p.certSubject != r.certSubject || p.certIssuer != r.certIssuer || p.sans != r.sans
  {
    EventOfShape(hash, m, scope, scan, c);
    PayloadTellsFields(AsScanResult(c.previous).value, AsScanResult(c.current).value);
  }

  /** For scan IDs of one length, the identifier determines scan, address, protocol and port. */
  lemma EventIDIsInjective(
      scan: string, ip: string, protocol: string, port: nat, scan': string, ip': string, protocol': string, port': nat)
    requires |scan| == |scan'| && ValidProtocol(protocol) && ValidProtocol(protocol')
    requires EventID(scan, ip, protocol, port) == EventID(scan', ip', protocol', port')
    ensures scan == scan' && ip == ip' && protocol == protocol' && port == port'
  {
    var a, b := scan + "-" + ip + "-" + protocol, scan' + "-" + ip' + "-" + protocol';
    LastSeparator('-', a, b, Decimal(port), Decimal(port'));
    DecimalIsInjective(port, port');
    LastSeparator('-', scan + "-" + ip, scan' + "-" + ip', protocol, protocol');
    assert scan + "-" + ip == scan + ("-" + ip) && scan' + "-" + ip' == scan' + ("-" + ip');
    SplitAt(scan, scan', "-" + ip, "-" + ip');
    SplitAt("-", "-", ip, ip');
  }

  /** Changes of different keys have different event identifiers. */
  lemma DistinctKeysDistinctIDs(
      lib: Library, hash: string -> int, m: Matcher, scope: string, scan: string,
      base: RecordMap, cur: RecordMap, c: Change, d: Change)
    requires ValidRecords(lib, scope, base, false) && ValidRecords(lib, scope, cur, true)
    requires ChangeAt(base, cur, c.serviceKey) == Some(c) && ChangeAt(base, cur, d.serviceKey) == Some(d)
    requires WellShaped(c) && WellShaped(d) && c.serviceKey != d.serviceKey
    requires EventOf(hash, m, scope, scan, c).Some? && EventOf(hash, m, scope, scan, d).Some?
    ensures EventOf(hash, m, scope, scan, c).value.eventID != EventOf(hash, m, scope, scan, d).value.eventID
  {
    EventOfShape(hash, m, scope, scan, c);
    EventOfShape(hash, m, scope, scan, d);
    SubjectIsKeyed(lib, scope, base, cur, c);
    SubjectIsKeyed(lib, scope, base, cur, d);
    var x, y := Subject(c), Subject(d);
    if EventID(scan, x.ip, x.protocol, x.port) == EventID(scan, y.ip, y.protocol, y.port) {
      assert ValidProtocol(x.protocol) && ValidProtocol(y.protocol);
      EventIDIsInjective(scan, x.ip, x.protocol, x.port, scan, y.ip, y.protocol, y.port);
    }
  }

  predicate FromChanges(
      hash: string -> int, m: Matcher, scope: string, scan: string, cs: seq<Change>, e: Event)
    requires AllPortsAreValid(cs)
  {
    exists c :: c in cs && EventOf(hash, m, scope, scan, c) == Some(e)
  }

  lemma {:induction false} EventsComeFromChanges(
      hash: string -> int, m: Matcher, scope: string, scan: string, cs: seq<Change>)
    requires AllPortsAreValid(cs)
    ensures forall e | e in EventsOf(hash, m, scope, scan, cs) :: FromChanges(hash, m, scope, scan, cs, e)
  {
    if cs != [] {
      var n := |cs| - 1;
      assert cs == cs[..n] + [cs[n]];
      EventsComeFromChanges(hash, m, scope, scan, cs[..n]);
      forall e | e in EventsOf(hash, m, scope, scan, cs[..n]) ensures FromChanges(hash, m, scope, scan, cs, e) {
        var c :| c in cs[..n] && EventOf(hash, m, scope, scan, c) == Some(e);
        assert c in cs;
      }
    }
  }

  ghost predicate DistinctIDs(es: seq<Event>) {
    forall i, j | 0 <= i < j < |es| :: es[i].eventID != es[j].eventID
  }

  lemma ChangesAreWellShaped(lib: Library, scope: string, base: RecordMap, cur: RecordMap, cs: seq<Change>)
    requires Lawful(lib) && ValidRecords(lib, scope, base, false) && ValidRecords(lib, scope, cur, true)
    requires AreChanges(base, cur, cs)
    ensures AllShaped(cs) && AllPortsAreValid(cs)
  {
    forall c | c in cs ensures WellShaped(c) {
      ChangeIsWellShaped(lib, scope, base, cur, c);
    }
  }

  ghost predicate AreChanges(base: RecordMap, cur: RecordMap, cs: seq<Change>) {
    forall c | c in cs :: ChangeAt(base, cur, c.serviceKey) == Some(c)
  }

  ghost predicate AllShaped(cs: seq<Change>) {
    forall c | c in cs :: WellShaped(c)
  }

  lemma NewEventIsDistinct(
      lib: Library, hash: string -> int, m: Matcher, scope: string, scan: string,
      base: RecordMap, cur: RecordMap, front: seq<Change>, last: Change, e: Event)
    requires ValidRecords(lib, scope, base, false) && ValidRecords(lib, scope, cur, true)
    requires AreChanges(base, cur, front + [last]) && AllShaped(front + [last]) && AllPortsAreValid(front)
    requires DistinctKeys(front + [last]) && FromChanges(hash, m, scope, scan, front, e)
    ensures WellShaped(last)
    ensures EventOf(hash, m, scope, scan, last).Some? ==> e.eventID != EventOf(hash, m, scope, scan, last).value.eventID
  {
    var c :| c in front && EventOf(hash, m, scope, scan, c) == Some(e);
    var cs := front + [last];
    assert last in cs && c in cs;
    var i :| 0 <= i < |front| && front[i] == c;
    assert cs[i] == c && cs[|front|] == last;
    if EventOf(hash, m, scope, scan, last).Some? {
      DistinctKeysDistinctIDs(lib, hash, m, scope, scan, base, cur, c, last);
    }
  }

  lemma {:induction false} IDsOfShapedChanges(
      lib: Library, hash: string -> int, m: Matcher, scope: string, scan: string,
      base: RecordMap, cur: RecordMap, cs: seq<Change>)
    requires ValidRecords(lib, scope, base, false) && ValidRecords(lib, scope, cur, true)
    requires DistinctKeys(cs) && AreChanges(base, cur, cs) && AllShaped(cs) && AllPortsAreValid(cs)
    ensures DistinctIDs(EventsOf(hash, m, scope, scan, cs))
  {
    if cs != [] {
      var n := |cs| - 1;
      var front, last := cs[..n], cs[n];
      assert cs == front + [last];
      IDsOfShapedChanges(lib, hash, m, scope, scan, base, cur, front);
      EventsComeFromChanges(hash, m, scope, scan, front);
      var before := EventsOf(hash, m, scope, scan, front);
      forall i | 0 <= i < |before| && EventOf(hash, m, scope, scan, last).Some?
        ensures before[i].eventID != EventOf(hash, m, scope, scan, last).value.eventID
      {
        NewEventIsDistinct(lib, hash, m, scope, scan, base, cur, front, last, before[i]);
      }
    }
  }

  /** The events of one promotion carry pairwise different identifiers. */
  lemma EventIDsAreDistinct(
      lib: Library, hash: string -> int, m: Matcher, scope: string, scan: string, base: RecordMap, cur: RecordMap)
    requires Lawful(lib) && ValidRecords(lib, scope, base, false) && ValidRecords(lib, scope, cur, true)
    ensures AllPortsAreValid(Reconciled(base, cur))
    ensures DistinctIDs(EventsOf(hash, m, scope, scan, Reconciled(base, cur)))
  {
    var cs := Reconciled(base, cur);
    ChangesAreWellShaped(lib, scope, base, cur, cs);
    AscendingKeysDiffer(cs);
    IDsOfShapedChanges(lib, hash, m, scope, scan, base, cur, cs);
  }
}
