/** The scoped lifecycle store: its state, the meaning of each transaction, and the database that runs them. */
module Store {
  import opened Wrappers
  import opened ServiceIdentity
  import opened Records
  import opened Reconcile
  import opened Completion

  datatype Metadata = NoMetadata | NoVersion | OtherVersion | BadCreatedAt | SchemaV1

  /** One scope bucket. Every reader treats an absent nested bucket like an empty one, except the baseline,
      whose presence is reported, so only that absence is kept. */
  datatype ScopeState = ScopeState(baseline: Option<Bucket>, scans: map<string, Bucket>)

  const EmptyScope := ScopeState(None, map[])

  /** The root of the database. `occupied`: some top-level bucket other than the metadata exists. */
  datatype Root = Root(metadata: Metadata, occupied: bool, scopes: map<string, ScopeState>)

  const EmptyRoot := Root(NoMetadata, false, map[])

  function ScopeOf(root: Root, scope: string): ScopeState {
    if scope in root.scopes then root.scopes[scope] else EmptyScope
  }

  function WithScope(root: Root, scope: string, s: ScopeState): Root {
    root.(occupied := true, scopes := root.scopes[scope := s])
  }

  function BaselineOf(root: Root, scope: string): Bucket {
    var b := ScopeOf(root, scope).baseline;
    if b.Some? then b.value else map[]
  }

  /** What a transaction leaves behind and answers. */
  datatype Outcome<+T> = Outcome(root: Root, result: Result<T>)

  /** `db.Update`: an error in the body or a refused commit leaves the store as it was. */
  function Update<T>(root: Root, body: Outcome<T>, disk: bool): Outcome<T> {
    if body.result.Err? then Outcome(root, body.result)
    else if !disk then Outcome(root, Err([CommitFailed]))
    else body
  }

  function SchemaError(m: Metadata): Error {
    match m
    case NoMetadata => [UnversionedStateSchema]
    case NoVersion => [UnversionedStateSchema]
    case OtherVersion => [UnsupportedStateSchemaVersion]
    case BadCreatedAt => [InvalidStateSchemaMetadata]
    case SchemaV1 => Nil
  }

  function InitSpec(root: Root, disk: bool): Outcome<()> {
    Update(root,
      if root.metadata == NoMetadata then
        if root.occupied then Outcome(root, Err([UnversionedStateSchema]))
        else Outcome(root.(metadata := SchemaV1), Ok(()))
      else if SchemaError(root.metadata) != Nil then Outcome(root, Err(SchemaError(root.metadata)))
      else Outcome(root, Ok(())),
      disk)
  }

  function ArgumentError(scope: string, scan: string): Error {
    if scope == "" then [InvalidStateScopeID] else if scan == "" then [InvalidStateScanID] else Nil
  }

  /** Create the observation bucket of a scan; `exclusive` refuses one that is already there. */
  function CreateSpec(root: Root, scope: string, scan: string, exclusive: bool, disk: bool): Outcome<()> {
    if ArgumentError(scope, scan) != Nil then Outcome(root, Err(ArgumentError(scope, scan)))
    else
      var s := ScopeOf(root, scope);
      Update(root,
        if SchemaError(root.metadata) != Nil then Outcome(root, Err(SchemaError(root.metadata)))
        else if scan in s.scans then
          if exclusive then Outcome(root, Err([StateScanAlreadyExists]))
          else Outcome(WithScope(root, scope, s), Ok(()))
        else Outcome(WithScope(root, scope, s.(scans := s.scans[scan := map[]])), Ok(())),
        disk)
  }

  function ScanBucket(s: ScopeState, scan: string): Bucket {
    if scan in s.scans then s.scans[scan] else map[]
  }

  ghost function SaveSpec(lib: Library, root: Root, scope: string, scan: string, id: Identity, o: Observation, disk: bool)
    : Outcome<()>
  {
    if ArgumentError(scope, scan) != Nil then Outcome(root, Err(ArgumentError(scope, scan)))
    else if id.scopeID != scope then Outcome(root, Err([ServiceIdentityScopeMismatch]))
    else if Key(lib, id).Err? then Outcome(root, Err(Key(lib, id).error))
    else
      var s := ScopeOf(root, scope);
      var b := ScanBucket(s, scan)[Key(lib, id).value := Stored(RecordOf(lib, id, o))];
      Update(root,
        if SchemaError(root.metadata) != Nil then Outcome(root, Err(SchemaError(root.metadata)))
        else Outcome(WithScope(root, scope, s.(scans := s.scans[scan := b])), Ok(())),
        disk)
  }

  /** `loadReconciliationState`: the committed baseline and one current scan. */
  ghost function LoadPair(lib: Library, root: Root, scope: string, scan: string): Result<(RecordMap, RecordMap)> {
    var s := ScopeOf(root, scope);
    if SchemaError(root.metadata) != Nil then Err(SchemaError(root.metadata))
    else if scope !in root.scopes then Err([CurrentScanNotFound])
    else
      var base := LoadSpec(lib, scope, BaselineOf(root, scope), false);
      if base.Err? then Err(base.error)
      else if scan !in s.scans then Err([CurrentScanNotFound])
      else
        var cur := LoadSpec(lib, scope, s.scans[scan], true);
        if cur.Err? then Err(cur.error) else Ok((base.value, cur.value))
  }

  ghost function PromoteSpec(lib: Library, root: Root, scope: string, scan: string, c: ScanCompletion, disk: bool)
    : Outcome<seq<Change>>
  {
    if ArgumentError(scope, scan) != Nil then Outcome(root, Err(ArgumentError(scope, scan)))
    else if !c.Successful() then Outcome(root, Err([PromotionRequiresSuccessfulScan]))
    else
      var pair := LoadPair(lib, root, scope, scan);
      Update(root,
        if pair.Err? then Outcome(root, Err(pair.error))
        else
          var (base, cur) := pair.value;
          Outcome(
            WithScope(root, scope,
              ScopeState(Some(AsBucket(NextBaseline(base, cur))), ScopeOf(root, scope).scans - {scan})),
            Ok(Reconciled(base, cur))),
        disk)
  }

  function DiscardSpec(root: Root, scope: string, scan: string, disk: bool): Outcome<()> {
    var s := ScopeOf(root, scope);
    Update(root,
      if SchemaError(root.metadata) != Nil then Outcome(root, Err(SchemaError(root.metadata)))
      else if scan in s.scans then Outcome(WithScope(root, scope, s.(scans := s.scans - {scan})), Ok(()))
      else Outcome(root, Ok(())),
      disk)
  }

  ghost function FinalizeSpec(lib: Library, root: Root, scope: string, scan: string, c: ScanCompletion, disk: bool)
    : Outcome<seq<Change>>
  {
    if ArgumentError(scope, scan) != Nil then Outcome(root, Err(ArgumentError(scope, scan)))
    else if c.Successful() then PromoteSpec(lib, root, scope, scan, c, disk)
    else
      var d := DiscardSpec(root, scope, scan, disk);
      Outcome(d.root, Err([ScanIncomplete] + c.err + (if d.result.Err? then d.result.error else Nil)))
  }

  ghost function ReconcileSpec(lib: Library, root: Root, scope: string, scan: string, c: ScanCompletion)
    : Result<seq<Change>>
  {
    if ArgumentError(scope, scan) != Nil then Err(ArgumentError(scope, scan))
    else if !c.Successful() then Err([ReconciliationRequiresSuccessfulScan])
    else
      var pair := LoadPair(lib, root, scope, scan);
      if pair.Err? then Err(pair.error) else Ok(Reconciled(pair.value.0, pair.value.1))
  }

  // ---------------------------------------------------------------- what the transactions leave alone

  /** `after` differs from `before` at most in scan `scan` of scope `scope`. */
  ghost predicate OnlyScanChanged(before: Root, after: Root, scope: string, scan: string) {
    && after.metadata == before.metadata
    && (forall other | other != scope :: ScopeOf(after, other) == ScopeOf(before, other))
    && ScopeOf(after, scope).baseline == ScopeOf(before, scope).baseline
    && ScopeOf(after, scope).scans - {scan} == ScopeOf(before, scope).scans - {scan}
  }

  /** A save that succeeds leaves under the key a record that tells the observation, keeps all other observations of the
      scan, and touches nothing else; one that fails touches nothing at all. */
  lemma SaveIsExact(lib: Library, root: Root, scope: string, scan: string, id: Identity, o: Observation, disk: bool)
    ensures var after := SaveSpec(lib, root, scope, scan, id, o, disk);
      && OnlyScanChanged(root, after.root, scope, scan)
      && (after.result.Err? ==> after.root == root)
      && (after.result.Ok? ==>
            && Key(lib, id).Ok? && id.scopeID == scope
            && var key, bucket := Key(lib, id).value, ScanBucket(ScopeOf(after.root, scope), scan);
            && scan in ScopeOf(after.root, scope).scans
            && key in bucket && bucket[key].Stored? && TellsObservation(lib, bucket[key].record, id, o)
            && bucket - {key} == ScanBucket(ScopeOf(root, scope), scan) - {key})
  {
    var after := SaveSpec(lib, root, scope, scan, id, o, disk);
    if after.result.Ok? {
      RecordTellsObservation(lib, id, o, RecordOf(lib, id, o));
    }
  }

  /** Ensuring a scan keeps one that is there, observations and all, and adds an empty one otherwise. */
  lemma EnsureKeepsObservations(root: Root, scope: string, scan: string, disk: bool)
    ensures var after := CreateSpec(root, scope, scan, false, disk);
      && OnlyScanChanged(root, after.root, scope, scan)
      && (after.result.Err? ==> after.root == root)
      && (after.result.Ok? ==>
            && scan in ScopeOf(after.root, scope).scans
            && ScopeOf(after.root, scope).scans[scan] == ScanBucket(ScopeOf(root, scope), scan))
      && (after.result.Ok? <==> scope != "" && scan != "" && root.metadata == SchemaV1 && disk)
  {
  }

  /** Reconciling without promoting: refused in the order scope, scan, completion; and for a successful scan it answers
      what a promotion whose commit is accepted would. */
  lemma ReconcileForecastsPromotion(lib: Library, root: Root, scope: string, scan: string, c: ScanCompletion)
    ensures var r := ReconcileSpec(lib, root, scope, scan, c);
      && (r == Err([InvalidStateScopeID]) <==> scope == "")
      && (scope != "" && scan == "" ==> r == Err([InvalidStateScanID]))
      && (scope != "" && scan != "" && !c.Successful() ==> r == Err([ReconciliationRequiresSuccessfulScan]))
      && (c.Successful() ==> r == PromoteSpec(lib, root, scope, scan, c, true).result)
      && (r.Ok? ==> c.Successful())
  {
  }

  /** A discard that fails says why, beside the causes of the incomplete scan. */
  lemma DiscardFailureIsTold(lib: Library, root: Root, scope: string, scan: string, c: ScanCompletion, disk: bool)
    requires scope != "" && scan != "" && !c.Successful()
    ensures var r := FinalizeSpec(lib, root, scope, scan, c, disk).result;
      && r.Err? && ScanIncomplete in r.error && (forall f | f in c.err :: f in r.error)
      && (root.metadata == SchemaV1 && !disk ==> CommitFailed in r.error)
      && (root.metadata == NoMetadata || root.metadata == NoVersion ==> UnversionedStateSchema in r.error)
      && (root.metadata == OtherVersion ==> UnsupportedStateSchemaVersion in r.error)
      && (root.metadata == BadCreatedAt ==> InvalidStateSchemaMetadata in r.error)
  {
  }

  /** A fresh store gets the schema and nothing else; one that has the schema is left as it is. */
  lemma InitIsExact(root: Root, disk: bool)
    ensures var after := InitSpec(root, disk);
      && after.root.scopes == root.scopes && after.root.occupied == root.occupied
      && (after.result.Ok? <==> disk && (root.metadata == SchemaV1 || (root.metadata == NoMetadata && !root.occupied)))
      && (after.result.Ok? ==> after.root.metadata == SchemaV1)
      && (after.result.Err? ==> after.root == root)
  {
  }

  /** The database file. Every mutation is one transaction on `root`; `disk` says whether its commit succeeds. */
  class Database {
    const lib: Library
    var root: Root

    constructor (lib: Library)
      ensures this.lib == lib && root == EmptyRoot
    {
      this.lib := lib;
      root := EmptyRoot;
    }

    method InitializeStateSchema(disk: bool) returns (r: Result<()>)
      modifies this
      ensures Outcome(root, r) == InitSpec(old(root), disk)
    {
      if root.metadata == NoMetadata {
        if root.occupied {
          return Err([UnversionedStateSchema]);
        }
        if !disk {
          return Err([CommitFailed]);
        }
        root := root.(metadata := SchemaV1);
        return Ok(());
      }
      if SchemaError(root.metadata) != Nil {
        return Err(SchemaError(root.metadata));
      }
      r := if disk then Ok(()) else Err([CommitFailed]);
    }

    method EnsureCurrentScan(scope: string, scan: string, disk: bool) returns (r: Result<()>)
      modifies this
      ensures Outcome(root, r) == CreateSpec(old(root), scope, scan, false, disk)
    {
      r := CreateScan(scope, scan, false, disk);
    }

    method CreateCurrentScanExclusive(scope: string, scan: string, disk: bool) returns (r: Result<()>)
      modifies this
      ensures Outcome(root, r) == CreateSpec(old(root), scope, scan, true, disk)
    {
      r := CreateScan(scope, scan, true, disk);
    }

    method CreateScan(scope: string, scan: string, exclusive: bool, disk: bool) returns (r: Result<()>)
      modifies this
      ensures Outcome(root, r) == CreateSpec(old(root), scope, scan, exclusive, disk)
    {
      if ArgumentError(scope, scan) != Nil {
        return Err(ArgumentError(scope, scan));
      }
      if SchemaError(root.metadata) != Nil {
        return Err(SchemaError(root.metadata));
      }
      var s := ScopeOf(root, scope);
      if scan in s.scans && exclusive {
        return Err([StateScanAlreadyExists]);
      }
      if !disk {
        return Err([CommitFailed]);
      }
      if scan !in s.scans {
        s := s.(scans := s.scans[scan := map[]]);
      }
      root := WithScope(root, scope, s);
      r := Ok(());
    }

    method SaveCurrentService(scope: string, scan: string, id: Identity, o: Observation, disk: bool)
      returns (r: Result<()>)
      modifies this
      ensures Outcome(root, r) == SaveSpec(lib, old(root), scope, scan, id, o, disk)
    {
      if ArgumentError(scope, scan) != Nil {
        return Err(ArgumentError(scope, scan));
      }
      if id.scopeID != scope {
        return Err([ServiceIdentityScopeMismatch]);
      }
      var built := ServiceRecordFromObservation(lib, id, o);
      if built.Err? {
        return Err(built.error);
      }
      var (record, key) := built.value;
      if SchemaError(root.metadata) != Nil {
        return Err(SchemaError(root.metadata));
      }
      if !disk {
        return Err([CommitFailed]);
      }
      var s := ScopeOf(root, scope);
      var bucket := ScanBucket(s, scan)[key := Stored(record)];
      root := WithScope(root, scope, s.(scans := s.scans[scan := bucket]));
      r := Ok(());
    }

    method LoadReconciliationState(scope: string, scan: string) returns (r: Result<(RecordMap, RecordMap)>)
      ensures r == LoadPair(lib, root, scope, scan)
    {
      if SchemaError(root.metadata) != Nil {
        return Err(SchemaError(root.metadata));
      }
      if scope !in root.scopes {
        return Err([CurrentScanNotFound]);
      }
      var base: RecordMap := map[];
      if root.scopes[scope].baseline.Some? {
        var loaded := LoadServiceRecords(lib, scope, root.scopes[scope].baseline.value, false);
        if loaded.Err? {
          return Err(loaded.error);
        }
        base := loaded.value;
      }
      if scan !in root.scopes[scope].scans {
        return Err([CurrentScanNotFound]);
      }
      var cur := LoadServiceRecords(lib, scope, root.scopes[scope].scans[scan], true);
      r := if cur.Err? then Err(cur.error) else Ok((base, cur.value));
    }

    method ReconcileScope(scope: string, scan: string, c: ScanCompletion) returns (r: Result<seq<Change>>)
      ensures r == ReconcileSpec(lib, root, scope, scan, c)
    {
      if ArgumentError(scope, scan) != Nil {
        return Err(ArgumentError(scope, scan));
      }
      if !c.Successful() {
        return Err([ReconciliationRequiresSuccessfulScan]);
      }
      var pair := LoadReconciliationState(scope, scan);
      if pair.Err? {
        return Err(pair.error);
      }
      var changes := ReconcileServiceRecords(pair.value.0, pair.value.1);
      r := Ok(changes);
    }

    method PromoteCurrentScan(scope: string, scan: string, c: ScanCompletion, disk: bool)
      returns (r: Result<seq<Change>>)
      modifies this
      ensures Outcome(root, r) == PromoteSpec(lib, old(root), scope, scan, c, disk)
    {
      if ArgumentError(scope, scan) != Nil {
        return Err(ArgumentError(scope, scan));
      }
      if !c.Successful() {
        return Err([PromotionRequiresSuccessfulScan]);
      }
      var pair := LoadReconciliationState(scope, scan);
      if pair.Err? {
        return Err(pair.error);
      }
      var (base, cur) := pair.value;
      var changes := ReconcileServiceRecords(base, cur);
      var next := BuildNextBaseline(base, cur);
      if !disk {
        return Err([CommitFailed]);
      }
      var scans := root.scopes[scope].scans - {scan};
      root := WithScope(root, scope, ScopeState(Some(AsBucket(next)), scans));
      r := Ok(changes);
    }

    method DiscardCurrentScan(scope: string, scan: string, disk: bool) returns (r: Result<()>)
      modifies this
      ensures Outcome(root, r) == DiscardSpec(old(root), scope, scan, disk)
    {
      if SchemaError(root.metadata) != Nil {
        return Err(SchemaError(root.metadata));
      }
      if !disk {
        return Err([CommitFailed]);
      }
      var s := ScopeOf(root, scope);
      if scan in s.scans {
        root := WithScope(root, scope, s.(scans := s.scans - {scan}));
      }
      r := Ok(());
    }

    method FinalizeCurrentScan(scope: string, scan: string, c: ScanCompletion, disk: bool)
      returns (r: Result<seq<Change>>)
      modifies this
      ensures Outcome(root, r) == FinalizeSpec(lib, old(root), scope, scan, c, disk)
    {
      if ArgumentError(scope, scan) != Nil {
        return Err(ArgumentError(scope, scan));
      }
      if c.Successful() {
        r := PromoteCurrentScan(scope, scan, c, disk);
        return;
      }
      var discarded := DiscardCurrentScan(scope, scan, disk);
      r := Err([ScanIncomplete] + c.err + (if discarded.Err? then discarded.error else Nil));
    }
  }
}
