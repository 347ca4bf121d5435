/** Stored service records, their canonical form and the test of the strict loader. */
module Records {
  import opened Wrappers
  import opened Ordering
  import opened ServiceIdentity

  datatype Status = StatusOpen | StatusClosed

  datatype Observation = Observation(
    banner: string, osHint: string, certSubject: string, certIssuer: string, sans: seq<string>)

  datatype Record = Record(
    ip: string, port: int, protocol: string, status: Status,
    banner: string, osHint: string, certSubject: string, certIssuer: string, sans: seq<string>)

  /** A value under a service key. `Malformed` is everything the strict decoder turns down before it looks at
      the identity: nested buckets, bad JSON, unknown fields or statuses, and `null` SAN lists. */
  datatype Cell = Stored(record: Record) | Malformed

  type Bucket = map<string, Cell>

  ghost function CanonicalStrings(values: seq<string>): (r: seq<string>)
    ensures Enumerates(StringLess, r, Elements(values))
  {
    StringOrder();
    Enumerate(StringLess, Elements(values))
  }

  method CanonicalObservationStrings(values: seq<string>) returns (r: seq<string>)
    ensures r == CanonicalStrings(values)
  {
    StringOrder();
    r := Canonicalize(StringLess, values);
  }

  /** A list is its own canonical form exactly when it is strictly ascending. */
  lemma CanonicalFixpoint(values: seq<string>)
    ensures CanonicalStrings(values) == values <==> Ascending(StringLess, values)
    ensures CanonicalStrings(CanonicalStrings(values)) == CanonicalStrings(values)
  {
    StringOrder();
    var c := CanonicalStrings(values);
    if Ascending(StringLess, values) {
      EnumerationIsUnique(StringLess, values, c, Elements(values));
    }
    EnumerationIsUnique(StringLess, c, CanonicalStrings(c), Elements(c));
  }

  function IdentityOf(scope: string, r: Record): Identity {
    Identity(scope, r.ip, r.port, r.protocol)
  }

  ghost function RecordOf(lib: Library, id: Identity, o: Observation): Record
    requires lib.canonicalIP(id.ip).Some?
  {
    Record(lib.canonicalIP(id.ip).value, id.port, id.protocol, StatusOpen,
           o.banner, o.osHint, o.certSubject, o.certIssuer, CanonicalStrings(o.sans))
  }

  /** The checks of `validatePersistentServiceRecord` that are left once a value has decoded. */
  ghost predicate ValidRecord(lib: Library, scope: string, key: string, r: Record, current: bool) {
    && (current ==> r.status == StatusOpen)
    && lib.canonicalIP(r.ip) == Some(r.ip)
    && Key(lib, IdentityOf(scope, r)) == Ok(key)
    && CanonicalStrings(r.sans) == r.sans
  }

  ghost predicate ValidCell(lib: Library, scope: string, key: string, c: Cell, current: bool) {
    ValidServiceKeyV1(key) && c.Stored? && ValidRecord(lib, scope, key, c.record, current)
  }

  ghost predicate ValidBucket(lib: Library, scope: string, b: Bucket, current: bool) {
    forall k | k in b :: ValidCell(lib, scope, k, b[k], current)
  }

  type RecordMap = map<string, Record>

  ghost predicate ValidRecords(lib: Library, scope: string, m: RecordMap, current: bool) {
    forall k | k in m :: ValidServiceKeyV1(k) && ValidRecord(lib, scope, k, m[k], current)
  }

  function Contents(b: Bucket): RecordMap
    requires forall k | k in b :: b[k].Stored?
  {
    map k | k in b :: b[k].record
  }

  function AsBucket(m: RecordMap): Bucket {
    map k | k in m :: Stored(m[k])
  }

  lemma ContentsRoundTrip(m: RecordMap)
    ensures Contents(AsBucket(m)) == m
  {
  }

  ghost function LoadSpec(lib: Library, scope: string, b: Bucket, current: bool): Result<RecordMap> {
    if ValidBucket(lib, scope, b, current) then Ok(Contents(b)) else Err([InvalidPersistentServiceRecord])
  }

  method ValidatePersistentServiceRecord(lib: Library, scope: string, key: string, r: Record, current: bool)
    returns (ok: bool)
    ensures ok == ValidRecord(lib, scope, key, r, current)
  {
    if current && r.status != StatusOpen {
      return false;
    }
    if lib.canonicalIP(r.ip) != Some(r.ip) {
      return false;
    }
    if Key(lib, IdentityOf(scope, r)) != Ok(key) {
      return false;
    }
    var sans := CanonicalObservationStrings(r.sans);
    ok := sans == r.sans;
  }

  /** The loader walks the bucket and fails on the first value it cannot accept. */
  method LoadServiceRecords(lib: Library, scope: string, b: Bucket, current: bool) returns (r: Result<RecordMap>)
    ensures r == LoadSpec(lib, scope, b, current)
  {
    var records: RecordMap := map[];
    var pending := b.Keys;
    while pending != {}
      invariant pending <= b.Keys && records.Keys == b.Keys - pending
      invariant forall k | k in records :: ValidCell(lib, scope, k, b[k], current) && b[k].record == records[k]
    {
      var key :| key in pending;
      if !ValidServiceKeyV1(key) || b[key].Malformed? {
        return Err([InvalidPersistentServiceRecord]);
      }
      var ok := ValidatePersistentServiceRecord(lib, scope, key, b[key].record, current);
      if !ok {
        return Err([InvalidPersistentServiceRecord]);
      }
      records := records[key := b[key].record];
      pending := pending - {key};
    }
    assert records == Contents(b);
    r := Ok(records);
  }

  method ServiceRecordFromObservation(lib: Library, id: Identity, o: Observation) returns (r: Result<(Record, string)>)
    ensures Key(lib, id).Err? ==> r == Err(Key(lib, id).error)
    ensures Key(lib, id).Ok? ==> r == Ok((RecordOf(lib, id, o), Key(lib, id).value))
  {
    var key := Key(lib, id);
    if key.Err? {
      return Err(key.error);
    }
    var sans := CanonicalObservationStrings(o.sans);
    r := Ok((Record(lib.canonicalIP(id.ip).value, id.port, id.protocol, StatusOpen,
                    o.banner, o.osHint, o.certSubject, o.certIssuer, sans), key.value));
  }

  /** What the record of an observation says: the observation's own fields, the identity's endpoint,
      an open status, and the SANs as the ascending list of their set. */
  ghost predicate TellsObservation(lib: Library, r: Record, id: Identity, o: Observation) {
    && lib.canonicalIP(id.ip) == Some(r.ip) && r.port == id.port && r.protocol == id.protocol && r.status == StatusOpen
    && r.banner == o.banner && r.osHint == o.osHint && r.certSubject == o.certSubject && r.certIssuer == o.certIssuer
    && Ascending(StringLess, r.sans) && forall san :: san in r.sans <==> san in o.sans
  }

  /** There is one such record, and it is the one that is built. */
  lemma RecordTellsObservation(lib: Library, id: Identity, o: Observation, r: Record)
    requires lib.canonicalIP(id.ip).Some?
    ensures TellsObservation(lib, r, id, o) <==> r == RecordOf(lib, id, o)
  {
    StringOrder();
    var c := CanonicalStrings(o.sans);
    assert forall san :: san in c <==> san in Elements(c);
    assert forall san :: san in o.sans <==> san in Elements(o.sans);
    if TellsObservation(lib, r, id, o) {
      assert Elements(r.sans) == Elements(o.sans);
      EnumerationIsUnique(StringLess, r.sans, c, Elements(o.sans));
    }
  }

  /** `r` is what some observation stores under `key`, its status aside. */
  ghost predicate StoredBy(lib: Library, scope: string, key: string, r: Record, id: Identity, o: Observation) {
    id.scopeID == scope && Key(lib, id) == Ok(key) && TellsObservation(lib, r.(status := StatusOpen), id, o)
  }

  /** The strict loader accepts exactly the records that some save stores, and tombstones of them where allowed. */
  lemma AcceptedIffStored(lib: Library, scope: string, key: string, r: Record, current: bool)
    requires Lawful(lib)
    ensures ValidCell(lib, scope, key, Stored(r), current)
       <==> (current ==> r.status == StatusOpen) && exists id, o :: StoredBy(lib, scope, key, r, id, o)
  {
    var open := r.(status := StatusOpen);
    if ValidCell(lib, scope, key, Stored(r), current) {
      var id, o := IdentityOf(scope, r), Observation(r.banner, r.osHint, r.certSubject, r.certIssuer, r.sans);
      RecordTellsObservation(lib, id, o, open);
      assert StoredBy(lib, scope, key, r, id, o);
    }
    if exists id, o :: StoredBy(lib, scope, key, r, id, o) {
      var id, o :| StoredBy(lib, scope, key, r, id, o);
      RecordTellsObservation(lib, id, o, open);
      BuiltRecordIsValid(lib, id, o);
      assert IdentityOf(scope, r) == IdentityOf(scope, open);
    }
  }

  /** A record built from an observation passes the loader's test under its own key. */
  lemma BuiltRecordIsValid(lib: Library, id: Identity, o: Observation)
    requires Lawful(lib) && Key(lib, id).Ok?
    ensures ValidCell(lib, id.scopeID, Key(lib, id).value, Stored(RecordOf(lib, id, o)), true)
  {
    KeyIdentifiesEndpoint(lib, id, id);
    CanonicalFixpoint(o.sans);
    var ip := lib.canonicalIP(id.ip).value;
    assert lib.canonicalIP(ip) == Some(ip);
  }
}
