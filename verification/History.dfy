/** Whole runs of the store: any sequence of transactions, refused commits and crashes. */
module History {
  import opened Wrappers
  import opened ServiceIdentity
  import opened Records
  import opened Reconcile
  import opened Completion
  import opened Store

  datatype Op =
    | InitSchema
    | Ensure(scope: string, scan: string)
    | Reserve(scope: string, scan: string)
    | Save(scope: string, scan: string, id: Identity, observation: Observation)
    | Promote(scope: string, scan: string, completion: ScanCompletion)
    | Finalize(scope: string, scan: string, completion: ScanCompletion)
    | Crash

  /** One step and whether the disk accepts its commit. A crash restarts from the committed root. */
  datatype Event = Event(op: Op, disk: bool)

  function NoChanges(o: Outcome<()>): Outcome<seq<Change>> {
    Outcome(o.root, if o.result.Ok? then Ok([]) else Err(o.result.error))
  }

  ghost function Step(lib: Library, root: Root, e: Event): Outcome<seq<Change>> {
    match e.op
    case InitSchema => NoChanges(InitSpec(root, e.disk))
    case Ensure(scope, scan) => NoChanges(CreateSpec(root, scope, scan, false, e.disk))
    case Reserve(scope, scan) => NoChanges(CreateSpec(root, scope, scan, true, e.disk))
    case Save(scope, scan, id, o) => NoChanges(SaveSpec(lib, root, scope, scan, id, o, e.disk))
    case Promote(scope, scan, c) => PromoteSpec(lib, root, scope, scan, c, e.disk)
    case Finalize(scope, scan, c) => FinalizeSpec(lib, root, scope, scan, c, e.disk)
    case Crash => Outcome(root, Ok([]))
  }

  ghost function Run(lib: Library, root: Root, es: seq<Event>): Root
    decreases |es|
  {
    if es == [] then root else Run(lib, Step(lib, root, es[0]).root, es[1..])
  }

  predicate Concerns(e: Event, scope: string) {
    match e.op
    case InitSchema => false
    case Crash => false
    case _ => e.op.scope == scope
  }

  /** The changes reported to the callers of one step, as far as they concern `scope`. */
  ghost function Reported(lib: Library, root: Root, e: Event, scope: string): seq<Change> {
    var r := Step(lib, root, e).result;
    if Concerns(e, scope) && r.Ok? then r.value else []
  }

  ghost function Trace(lib: Library, root: Root, es: seq<Event>, scope: string): seq<Change>
    decreases |es|
  {
    if es == [] then []
    else Reported(lib, root, es[0], scope) + Trace(lib, Step(lib, root, es[0]).root, es[1..], scope)
  }

  // ---------------------------------------------------------------- well-formedness

  ghost predicate ValidScope(lib: Library, scope: string, s: ScopeState) {
    && (s.baseline.Some? ==> ValidBucket(lib, scope, s.baseline.value, false))
    && (forall scan | scan in s.scans :: ValidBucket(lib, scope, s.scans[scan], true))
  }

  ghost predicate WellFormed(lib: Library, root: Root) {
    && (root.scopes != map[] ==> root.occupied && root.metadata == SchemaV1)
    && (forall scope | scope in root.scopes :: scope != "" && ValidScope(lib, scope, root.scopes[scope]))
  }

  lemma WithScopeWellFormed(lib: Library, root: Root, scope: string, s: ScopeState)
    requires WellFormed(lib, root) && root.metadata == SchemaV1 && scope != "" && ValidScope(lib, scope, s)
    ensures WellFormed(lib, WithScope(root, scope, s))
  {
  }

  lemma ScopeIsValid(lib: Library, root: Root, scope: string)
    requires WellFormed(lib, root)
    ensures ValidScope(lib, scope, ScopeOf(root, scope))
    ensures ValidBucket(lib, scope, BaselineOf(root, scope), false)
  {
  }

  lemma SavedBucketIsValid(lib: Library, id: Identity, o: Observation, b: Bucket)
    requires Lawful(lib) && Key(lib, id).Ok? && ValidBucket(lib, id.scopeID, b, true)
    ensures ValidBucket(lib, id.scopeID, b[Key(lib, id).value := Stored(RecordOf(lib, id, o))], true)
  {
    BuiltRecordIsValid(lib, id, o);
  }

  lemma LoadedRecordsAreValid(lib: Library, root: Root, scope: string, scan: string)
    requires LoadPair(lib, root, scope, scan).Ok?
    ensures var (base, cur) := LoadPair(lib, root, scope, scan).value;
      ValidRecords(lib, scope, base, false) && ValidRecords(lib, scope, cur, true)
  {
    var s := ScopeOf(root, scope);
    var (base, cur) := LoadPair(lib, root, scope, scan).value;
    assert ValidBucket(lib, scope, BaselineOf(root, scope), false) && base == Contents(BaselineOf(root, scope));
    assert ValidBucket(lib, scope, s.scans[scan], true) && cur == Contents(s.scans[scan]);
  }

  lemma PromotedBaselineIsValid(lib: Library, root: Root, scope: string, scan: string)
    requires LoadPair(lib, root, scope, scan).Ok?
    ensures var (base, cur) := LoadPair(lib, root, scope, scan).value;
      ValidBucket(lib, scope, AsBucket(NextBaseline(base, cur)), false)
  {
    LoadedRecordsAreValid(lib, root, scope, scan);
    var (base, cur) := LoadPair(lib, root, scope, scan).value;
    NextBaselineIsValid(lib, scope, base, cur);
  }

  lemma SaveKeepsWellFormed(
      lib: Library, root: Root, scope: string, scan: string, id: Identity, o: Observation, disk: bool)
    requires Lawful(lib) && WellFormed(lib, root)
    ensures WellFormed(lib, SaveSpec(lib, root, scope, scan, id, o, disk).root)
  {
    if SaveSpec(lib, root, scope, scan, id, o, disk).result.Ok? {
      var s := ScopeOf(root, scope);
      ScopeIsValid(lib, root, scope);
      SavedBucketIsValid(lib, id, o, ScanBucket(s, scan));
      var b := ScanBucket(s, scan)[Key(lib, id).value := Stored(RecordOf(lib, id, o))];
      WithScopeWellFormed(lib, root, scope, s.(scans := s.scans[scan := b]));
    }
  }

  lemma PromoteKeepsWellFormed(lib: Library, root: Root, scope: string, scan: string, c: ScanCompletion, disk: bool)
    requires WellFormed(lib, root)
    ensures WellFormed(lib, PromoteSpec(lib, root, scope, scan, c, disk).root)
  {
    if PromoteSpec(lib, root, scope, scan, c, disk).result.Ok? {
      ScopeIsValid(lib, root, scope);
      PromotedBaselineIsValid(lib, root, scope, scan);
      var (base, cur) := LoadPair(lib, root, scope, scan).value;
      WithScopeWellFormed(lib, root, scope,
        ScopeState(Some(AsBucket(NextBaseline(base, cur))), ScopeOf(root, scope).scans - {scan}));
    }
  }

  lemma StepKeepsWellFormed(lib: Library, root: Root, e: Event)
    requires Lawful(lib) && WellFormed(lib, root)
    ensures WellFormed(lib, Step(lib, root, e).root)
  {
    match e.op
    case InitSchema =>
    case Ensure(scope, scan) => ScopeIsValid(lib, root, scope);
    case Reserve(scope, scan) => ScopeIsValid(lib, root, scope);
    case Save(scope, scan, id, o) => SaveKeepsWellFormed(lib, root, scope, scan, id, o, e.disk);
    case Promote(scope, scan, c) => PromoteKeepsWellFormed(lib, root, scope, scan, c, e.disk);
    case Finalize(scope, scan, c) =>
      PromoteKeepsWellFormed(lib, root, scope, scan, c, e.disk);
      ScopeIsValid(lib, root, scope);
    case Crash =>
  }

  /** Every store the exported operations can reach holds only records the strict loader accepts. */
  lemma {:induction false} ReachableStoreIsWellFormed(lib: Library, root: Root, es: seq<Event>)
    requires Lawful(lib) && WellFormed(lib, root)
    ensures WellFormed(lib, Run(lib, root, es))
    decreases |es|
  {
    if es != [] {
      StepKeepsWellFormed(lib, root, es[0]);
      ReachableStoreIsWellFormed(lib, Step(lib, root, es[0]).root, es[1..]);
    }
  }

  /** So validation never fails a promotion: it succeeds exactly when the scan exists and the commit is accepted. */
  lemma PromotionNeverFailsValidation(lib: Library, es: seq<Event>, scope: string, scan: string, c: ScanCompletion, disk: bool)
    requires Lawful(lib) && c.Successful() && scope != "" && scan != ""
    ensures var root := Run(lib, EmptyRoot, es);
      var r := PromoteSpec(lib, root, scope, scan, c, disk).result;
      && (r.Ok? <==> scan in ScopeOf(root, scope).scans && disk)
      && (r.Err? ==> InvalidPersistentServiceRecord !in r.error)
      && (root.metadata == SchemaV1 && scan !in ScopeOf(root, scope).scans ==> r == Err([CurrentScanNotFound]))
      && (scan in ScopeOf(root, scope).scans && !disk ==> r == Err([CommitFailed]))
  {
    ReachableStoreIsWellFormed(lib, EmptyRoot, es);
    var root := Run(lib, EmptyRoot, es);
    ScopeIsValid(lib, root, scope);
  }

  // ---------------------------------------------------------------- the schema gate

  /** A store this program must not touch: another version, broken metadata, or data without any metadata. */
  predicate Foreign(root: Root) {
    root.metadata != SchemaV1 && (root.metadata == NoMetadata ==> root.occupied)
  }

  lemma ForeignStepFails(lib: Library, root: Root, e: Event)
    requires Foreign(root)
    ensures Step(lib, root, e).root == root
    ensures Step(lib, root, e).result.Err? || e.op.Crash?
  {
    match e.op
    case InitSchema =>
    case Ensure(_, _) =>
    case Reserve(_, _) =>
    case Save(_, _, _, _) =>
    case Promote(_, _, _) =>
    case Finalize(_, _, _) =>
    case Crash =>
  }

  /** No history of operations changes a foreign store, and none of them succeeds on it. */
  lemma {:induction false} ForeignStoreIsUntouched(lib: Library, root: Root, es: seq<Event>)
    requires Foreign(root)
    ensures Run(lib, root, es) == root
    ensures forall e | e in es :: Step(lib, root, e).result.Err? || e.op.Crash?
    decreases |es|
  {
    if es != [] {
      assert es == [es[0]] + es[1..];
      ForeignStepFails(lib, root, es[0]);
      ForeignStoreIsUntouched(lib, root, es[1..]);
    }
  }

  // ---------------------------------------------------------------- who may change a baseline

  function CommittedBaseline(root: Root, scope: string): RecordMap
    requires forall k | k in BaselineOf(root, scope) :: BaselineOf(root, scope)[k].Stored?
  {
    Contents(BaselineOf(root, scope))
  }

  /** `e` is a promotion of `scope` whose completion is successful. */
  predicate AuthorisedPromotion(e: Event, scope: string) {
    && (e.op.Promote? || e.op.Finalize?)
    && e.op.scope == scope && e.op.completion.Successful()
  }

  /** A baseline changes only in a committed promotion by a successful scan, which makes it
      `NextBaseline` of the two loaded maps and consumes exactly that scan. */
  lemma BaselineAuthority(lib: Library, root: Root, e: Event, scope: string)
    ensures var after := Step(lib, root, e);
      if AuthorisedPromotion(e, scope) && after.result.Ok? then
        && e.disk && LoadPair(lib, root, scope, e.op.scan).Ok?
        && var (base, cur) := LoadPair(lib, root, scope, e.op.scan).value;
        && after.result.value == Reconciled(base, cur)
        && ScopeOf(after.root, scope) == ScopeState(Some(AsBucket(NextBaseline(base, cur))),
                                                    ScopeOf(root, scope).scans - {e.op.scan})
      else
        && ScopeOf(after.root, scope).baseline == ScopeOf(root, scope).baseline
        && Reported(lib, root, e, scope) == []
  {
    match e.op
    case InitSchema =>
    case Ensure(_, _) =>
    case Reserve(_, _) =>
    case Save(_, _, _, _) =>
    case Promote(_, _, _) =>
    case Finalize(_, _, _) =>
    case Crash =>
  }

  /** An incomplete finalization answers no changes, keeps every cause of failure,
      and deletes at most that one scan's bucket. */
  lemma IncompleteFinalizationDiscards(lib: Library, root: Root, scope: string, scan: string, c: ScanCompletion, disk: bool)
    requires !c.Successful() && scope != "" && scan != ""
    ensures var after := FinalizeSpec(lib, root, scope, scan, c, disk);
      && after.result.Err? && ScanIncomplete in after.result.error
      && (forall f | f in c.err :: f in after.result.error)
      && (forall other | other != scope :: ScopeOf(after.root, other) == ScopeOf(root, other))
      && ScopeOf(after.root, scope).baseline == ScopeOf(root, scope).baseline
      && ScopeOf(after.root, scope).scans ==
         if root.metadata == SchemaV1 && disk then ScopeOf(root, scope).scans - {scan} else ScopeOf(root, scope).scans
  {
    if scan !in ScopeOf(root, scope).scans {
      assert ScopeOf(root, scope).scans - {scan} == ScopeOf(root, scope).scans;
    }
  }

  /** A promotion reads nothing of the other scans of its scope and leaves them as they were. */
  lemma OrphansAreInert(lib: Library, a: Root, b: Root, scope: string, scan: string, c: ScanCompletion, disk: bool)
    requires a.metadata == b.metadata && (scope in a.scopes <==> scope in b.scopes)
    requires ScopeOf(a, scope).baseline == ScopeOf(b, scope).baseline
    requires scan in ScopeOf(a, scope).scans <==> scan in ScopeOf(b, scope).scans
    requires scan in ScopeOf(a, scope).scans ==> ScopeOf(a, scope).scans[scan] == ScopeOf(b, scope).scans[scan]
    ensures var x, y := PromoteSpec(lib, a, scope, scan, c, disk), PromoteSpec(lib, b, scope, scan, c, disk);
      && x.result == y.result
      && ScopeOf(x.root, scope).baseline == ScopeOf(y.root, scope).baseline
      && forall orphan | orphan in ScopeOf(a, scope).scans && orphan != scan ::
           && orphan in ScopeOf(x.root, scope).scans
           && ScopeOf(x.root, scope).scans[orphan] == ScopeOf(a, scope).scans[orphan]
  {
    assert LoadPair(lib, a, scope, scan) == LoadPair(lib, b, scope, scan);
  }

  // ---------------------------------------------------------------- replay

  lemma AuthorisedStepPatches(lib: Library, root: Root, e: Event, scope: string)
    requires Lawful(lib) && WellFormed(lib, root)
    requires AuthorisedPromotion(e, scope) && Step(lib, root, e).result.Ok?
    ensures var next := Step(lib, root, e);
      && WellFormed(lib, next.root)
      && LoadPair(lib, root, scope, e.op.scan).Ok?
      && var (base, cur) := LoadPair(lib, root, scope, e.op.scan).value;
      && base == CommittedBaseline(root, scope)
      && NextBaseline(base, cur) == CommittedBaseline(next.root, scope)
      && next.result.value == Reconciled(base, cur)
      && SilentKeysAgree(base, cur)
  {
    StepKeepsWellFormed(lib, root, e);
    BaselineAuthority(lib, root, e, scope);
    ScopeIsValid(lib, root, scope);
    LoadedRecordsAreValid(lib, root, scope, e.op.scan);
    var (base, cur) := LoadPair(lib, root, scope, e.op.scan).value;
    ValidRecordsAgree(lib, scope, base, cur);
    ContentsRoundTrip(NextBaseline(base, cur));
  }

  /** One step: the reported changes lead from the old committed baseline to the new one, and back. */
  lemma StepIsPatched(lib: Library, root: Root, e: Event, scope: string)
    requires Lawful(lib) && WellFormed(lib, root)
    ensures WellFormed(lib, Step(lib, root, e).root)
    ensures var next := Step(lib, root, e).root;
      && PatchAll(CommittedBaseline(root, scope), Reported(lib, root, e, scope)) == CommittedBaseline(next, scope)
      && UnpatchAll(CommittedBaseline(next, scope), Reported(lib, root, e, scope)) == CommittedBaseline(root, scope)
  {
    StepKeepsWellFormed(lib, root, e);
    var next := Step(lib, root, e);
    if AuthorisedPromotion(e, scope) && next.result.Ok? {
      AuthorisedStepPatches(lib, root, e, scope);
      var (base, cur) := LoadPair(lib, root, scope, e.op.scan).value;
      PatchAndUnpatch(base, cur, next.result.value);
    } else {
      BaselineAuthority(lib, root, e, scope);
    }
  }

  lemma {:induction false} PatchAllConcat(base: RecordMap, cs: seq<Change>, ds: seq<Change>)
    ensures PatchAll(base, cs + ds) == PatchAll(PatchAll(base, cs), ds)
    decreases |cs|
  {
    if cs == [] {
      assert cs + ds == ds;
    } else {
      assert (cs + ds)[0] == cs[0] && (cs + ds)[1..] == cs[1..] + ds;
      PatchAllConcat(Patch(base, cs[0]), cs[1..], ds);
    }
  }

  lemma {:induction false} UnpatchAllConcat(next: RecordMap, cs: seq<Change>, ds: seq<Change>)
    ensures UnpatchAll(next, cs + ds) == UnpatchAll(UnpatchAll(next, ds), cs)
  {
    if cs == [] {
      assert cs + ds == ds;
    } else {
      assert (cs + ds)[0] == cs[0] && (cs + ds)[1..] == cs[1..] + ds;
      UnpatchAllConcat(next, cs[1..], ds);
    }
  }

  /** Over any run, replaying every change a scope ever reported rebuilds its baseline,
      and undoing them all gives the initial one back. */
  lemma {:induction false} ReplayRebuildsBaseline(lib: Library, root: Root, es: seq<Event>, scope: string)
    requires Lawful(lib) && WellFormed(lib, root)
    ensures WellFormed(lib, Run(lib, root, es))
    ensures PatchAll(CommittedBaseline(root, scope), Trace(lib, root, es, scope))
         == CommittedBaseline(Run(lib, root, es), scope)
    ensures UnpatchAll(CommittedBaseline(Run(lib, root, es), scope), Trace(lib, root, es, scope))
         == CommittedBaseline(root, scope)
    decreases |es|
  {
    if es != [] {
      var next := Step(lib, root, es[0]).root;
      var now, later := Reported(lib, root, es[0], scope), Trace(lib, next, es[1..], scope);
      StepIsPatched(lib, root, es[0], scope);
      ReplayRebuildsBaseline(lib, next, es[1..], scope);
      PatchAllConcat(CommittedBaseline(root, scope), now, later);
      UnpatchAllConcat(CommittedBaseline(Run(lib, root, es), scope), now, later);
    }
  }

  // ---------------------------------------------------------------- the automaton of one service

  /** The life of one service key: never seen, open, or a closed tombstone. */
  datatype Life = Unseen | Alive | Dead

  function LifeOf(base: RecordMap, k: string): Life {
    if k !in base then Unseen else if base[k].status == StatusOpen then Alive else Dead
  }

  /** The only legal transitions. */
  function Advance(l: Life, kind: ChangeKind): Option<Life> {
    match (l, kind)
    case (Unseen, Opened) => Some(Alive)
    case (Alive, Changed) => Some(Alive)
    case (Alive, Closed) => Some(Dead)
    case (Dead, Reopened) => Some(Alive)
    case _ => None
  }

  function Accepts(l: Life, kinds: seq<ChangeKind>): Option<Life>
    decreases |kinds|
  {
    if kinds == [] then Some(l)
    else if Advance(l, kinds[0]).None? then None
    else Accepts(Advance(l, kinds[0]).value, kinds[1..])
  }

  function KindsOf(cs: seq<Change>, k: string): (r: seq<ChangeKind>)
    ensures |r| <= |cs|
  {
    if cs == [] then []
    else (if cs[0].serviceKey == k then [cs[0].kind] else []) + KindsOf(cs[1..], k)
  }

  lemma {:induction false} KindsOfConcat(cs: seq<Change>, ds: seq<Change>, k: string)
    ensures KindsOf(cs + ds, k) == KindsOf(cs, k) + KindsOf(ds, k)
  {
    if cs == [] {
      assert cs + ds == ds;
    } else {
      var all, rest := cs + ds, cs[1..] + ds;
      assert all[0] == cs[0] && all[1..] == rest;
      KindsOfConcat(cs[1..], ds, k);
      var now: seq<ChangeKind> := if cs[0].serviceKey == k then [cs[0].kind] else [];
      assert KindsOf(all, k) == now + KindsOf(rest, k);
      assert KindsOf(cs, k) == now + KindsOf(cs[1..], k);
    }
  }

  lemma {:induction false} AcceptsConcat(l: Life, xs: seq<ChangeKind>, ys: seq<ChangeKind>)
    requires Accepts(l, xs).Some?
    ensures Accepts(l, xs + ys) == Accepts(Accepts(l, xs).value, ys)
    decreases |xs|
  {
    if xs == [] {
      assert xs + ys == ys;
    } else {
      assert (xs + ys)[0] == xs[0] && (xs + ys)[1..] == xs[1..] + ys;
      AcceptsConcat(Advance(l, xs[0]).value, xs[1..], ys);
    }
  }

  lemma {:induction false} KindsOfDistinct(cs: seq<Change>, k: string)
    requires DistinctKeys(cs)
    ensures (forall c | c in cs :: c.serviceKey != k) ==> KindsOf(cs, k) == []
    ensures forall c | c in cs && c.serviceKey == k :: KindsOf(cs, k) == [c.kind]
  {
    if cs != [] {
      assert cs == [cs[0]] + cs[1..];
      KindsOfDistinct(cs[1..], k);
    }
  }

  lemma ChangeAdvances(base: RecordMap, cur: RecordMap, k: string)
    requires forall k | k in cur :: cur[k].status == StatusOpen
    ensures match ChangeAt(base, cur, k)
      case Some(c) => Advance(LifeOf(base, k), c.kind) == Some(LifeOf(NextBaseline(base, cur), k))
      case None => LifeOf(NextBaseline(base, cur), k) == LifeOf(base, k)
  {
  }

  lemma PromotionAdvances(base: RecordMap, cur: RecordMap, cs: seq<Change>, k: string)
    requires IsChangeList(base, cur, cs)
    requires forall k | k in cur :: cur[k].status == StatusOpen
    ensures Accepts(LifeOf(base, k), KindsOf(cs, k)) == Some(LifeOf(NextBaseline(base, cur), k))
  {
    AscendingKeysDiffer(cs);
    KindsOfDistinct(cs, k);
    ChangeAdvances(base, cur, k);
    match ChangeAt(base, cur, k)
    case Some(c) =>
      assert c in cs;
      assert Accepts(LifeOf(base, k), [c.kind]) == Advance(LifeOf(base, k), c.kind);
    case None =>
  }

  lemma StepAdvances(lib: Library, root: Root, e: Event, scope: string, k: string)
    requires Lawful(lib) && WellFormed(lib, root)
    ensures WellFormed(lib, Step(lib, root, e).root)
    ensures Accepts(LifeOf(CommittedBaseline(root, scope), k), KindsOf(Reported(lib, root, e, scope), k))
         == Some(LifeOf(CommittedBaseline(Step(lib, root, e).root, scope), k))
  {
    StepKeepsWellFormed(lib, root, e);
    if AuthorisedPromotion(e, scope) && Step(lib, root, e).result.Ok? {
      AuthorisedStepPatches(lib, root, e, scope);
      LoadedRecordsAreValid(lib, root, scope, e.op.scan);
      var (base, cur) := LoadPair(lib, root, scope, e.op.scan).value;
      PromotionAdvances(base, cur, Reconciled(base, cur), k);
    } else {
      BaselineAuthority(lib, root, e, scope);
    }
  }

  /** Over any run, the change history of every key is one the automaton accepts,
      and it ends in the state the committed baseline shows. */
  lemma {:induction false} HistoryIsAccepted(lib: Library, root: Root, es: seq<Event>, scope: string, k: string)
    requires Lawful(lib) && WellFormed(lib, root)
    ensures WellFormed(lib, Run(lib, root, es))
    ensures Accepts(LifeOf(CommittedBaseline(root, scope), k), KindsOf(Trace(lib, root, es, scope), k))
         == Some(LifeOf(CommittedBaseline(Run(lib, root, es), scope), k))
    decreases |es|
  {
    if es != [] {
      var next := Step(lib, root, es[0]).root;
      var now, later := Reported(lib, root, es[0], scope), Trace(lib, next, es[1..], scope);
      StepAdvances(lib, root, es[0], scope, k);
      HistoryIsAccepted(lib, next, es[1..], scope, k);
      KindsOfConcat(now, later, k);
      AcceptsConcat(LifeOf(CommittedBaseline(root, scope), k), KindsOf(now, k), KindsOf(later, k));
    }
  }

  function KindCount(kinds: seq<ChangeKind>, kind: ChangeKind): nat {
    multiset(kinds)[kind]
  }

  lemma {:induction false} AcceptedCounts(l: Life, kinds: seq<ChangeKind>)
    requires Accepts(l, kinds).Some?
    ensures var alive := (x: Life) => if x == Alive then 1 else 0;
      alive(l) + KindCount(kinds, Opened) + KindCount(kinds, Reopened) - KindCount(kinds, Closed) == alive(Accepts(l, kinds).value)
    ensures KindCount(kinds, Opened) == if l == Unseen && kinds != [] then 1 else 0
    ensures Accepts(l, kinds) == Some(Unseen) ==> kinds == [] && l == Unseen
    decreases |kinds|
  {
    if kinds != [] {
      assert kinds == [kinds[0]] + kinds[1..];
      AcceptedCounts(Advance(l, kinds[0]).value, kinds[1..]);
    }
  }

  /** `changed* (closed reopened changed*)*`, or a prefix of it: what may follow `opened`. */
  predicate OpenPhase(kinds: seq<ChangeKind>) {
    kinds == []
    || (kinds[0] == Changed && OpenPhase(kinds[1..]))
    || (kinds[0] == Closed && (|kinds| == 1 || (kinds[1] == Reopened && OpenPhase(kinds[2..]))))
  }

  lemma {:induction false} AcceptedLanguage(kinds: seq<ChangeKind>)
    ensures Accepts(Alive, kinds).Some? <==> OpenPhase(kinds)
    ensures Accepts(Unseen, kinds).Some? <==> kinds == [] || (kinds[0] == Opened && OpenPhase(kinds[1..]))
    decreases |kinds|
  {
    if kinds != [] {
      AcceptedLanguage(kinds[1..]);
      if |kinds| > 1 {
        AcceptedLanguage(kinds[2..]);
        assert kinds[1..][1..] == kinds[2..];
      }
    }
  }

  /** The life of a service over any run from an empty database: its history is a prefix of
      `opened changed* (closed reopened changed*)*`; `opened` happens exactly once if the key is in the
      baseline; and the record is open exactly when openings outnumber closings by one. */
  lemma LifecycleLaw(lib: Library, es: seq<Event>, scope: string, k: string)
    requires Lawful(lib)
    ensures WellFormed(lib, Run(lib, EmptyRoot, es))
    ensures var kinds := KindsOf(Trace(lib, EmptyRoot, es, scope), k);
      var base := CommittedBaseline(Run(lib, EmptyRoot, es), scope);
      && (kinds == [] || (kinds[0] == Opened && OpenPhase(kinds[1..])))
      && KindCount(kinds, Opened) == (if k in base then 1 else 0)
      && KindCount(kinds, Opened) + KindCount(kinds, Reopened) - KindCount(kinds, Closed)
         == (if k in base && base[k].status == StatusOpen then 1 else 0)
  {
    HistoryIsAccepted(lib, EmptyRoot, es, scope, k);
    var kinds := KindsOf(Trace(lib, EmptyRoot, es, scope), k);
    AcceptedCounts(Unseen, kinds);
    AcceptedLanguage(kinds);
  }

  /** Keys never leave a baseline. */
  lemma KeysNeverLeave(lib: Library, root: Root, es: seq<Event>, scope: string, k: string)
    requires Lawful(lib) && WellFormed(lib, root)
    requires k in CommittedBaseline(root, scope)
    ensures WellFormed(lib, Run(lib, root, es)) && k in CommittedBaseline(Run(lib, root, es), scope)
  {
    HistoryIsAccepted(lib, root, es, scope, k);
    AcceptedCounts(LifeOf(CommittedBaseline(root, scope), k), KindsOf(Trace(lib, root, es, scope), k));
  }

  // ---------------------------------------------------------------- non-interference

  /** The steps that concern `scope`, and the schema steps every scope shares. */
  function Project(es: seq<Event>, scope: string): seq<Event> {
    if es == [] then []
    else (if Concerns(es[0], scope) || es[0].op.InitSchema? then [es[0]] else []) + Project(es[1..], scope)
  }

  /** Two stores a client of `scope` cannot tell apart. */
  ghost predicate Agree(a: Root, b: Root, scope: string) {
    && a.metadata == b.metadata
    && (a.metadata == NoMetadata ==> a.occupied == b.occupied)
    && ScopeOf(a, scope) == ScopeOf(b, scope)
    && (scope in a.scopes <==> scope in b.scopes)
  }

  lemma WithScopeAgrees(a: Root, b: Root, scope: string, s: ScopeState)
    requires Agree(a, b, scope)
    ensures Agree(WithScope(a, scope, s), WithScope(b, scope, s), scope)
  {
  }

  lemma SaveAgrees(
      lib: Library, a: Root, b: Root, scope: string, scan: string, id: Identity, o: Observation, disk: bool)
    requires Agree(a, b, scope)
    ensures var x, y := SaveSpec(lib, a, scope, scan, id, o, disk), SaveSpec(lib, b, scope, scan, id, o, disk);
      Agree(x.root, y.root, scope) && x.result == y.result
  {
    if Key(lib, id).Ok? {
      var s := ScopeOf(a, scope);
      var bucket := ScanBucket(s, scan)[Key(lib, id).value := Stored(RecordOf(lib, id, o))];
      WithScopeAgrees(a, b, scope, s.(scans := s.scans[scan := bucket]));
    }
  }

  lemma PromoteAgrees(lib: Library, a: Root, b: Root, scope: string, scan: string, c: ScanCompletion, disk: bool)
    requires Agree(a, b, scope)
    ensures var x, y := PromoteSpec(lib, a, scope, scan, c, disk), PromoteSpec(lib, b, scope, scan, c, disk);
      Agree(x.root, y.root, scope) && x.result == y.result
  {
    assert LoadPair(lib, a, scope, scan) == LoadPair(lib, b, scope, scan);
  }

  lemma DiscardAgrees(a: Root, b: Root, scope: string, scan: string, disk: bool)
    requires Agree(a, b, scope)
    ensures var x, y := DiscardSpec(a, scope, scan, disk), DiscardSpec(b, scope, scan, disk);
      Agree(x.root, y.root, scope) && x.result == y.result
  {
  }

  lemma OwnStepAgrees(lib: Library, a: Root, b: Root, e: Event, scope: string)
    requires Agree(a, b, scope) && (Concerns(e, scope) || e.op.InitSchema?)
    ensures Agree(Step(lib, a, e).root, Step(lib, b, e).root, scope)
    ensures Step(lib, a, e).result == Step(lib, b, e).result
  {
    match e.op
    case InitSchema =>
    case Ensure(_, _) =>
    case Reserve(_, _) =>
    case Save(_, scan, id, o) => SaveAgrees(lib, a, b, scope, scan, id, o, e.disk);
    case Promote(_, scan, c) => PromoteAgrees(lib, a, b, scope, scan, c, e.disk);
    case Finalize(_, scan, c) =>
      PromoteAgrees(lib, a, b, scope, scan, c, e.disk);
      DiscardAgrees(a, b, scope, scan, e.disk);
  }

  lemma ForeignStepAgrees(lib: Library, a: Root, b: Root, e: Event, scope: string)
    requires Agree(a, b, scope) && !Concerns(e, scope) && !e.op.InitSchema?
    ensures Agree(Step(lib, a, e).root, b, scope)
  {
    match e.op
    case Ensure(_, _) =>
    case Reserve(_, _) =>
    case Save(_, _, _, _) =>
    case Promote(_, _, _) =>
    case Finalize(_, _, _) =>
    case Crash =>
  }

  /** A scope's state, and every change it reports, depend only on its own transactions. */
  lemma {:induction false} ScopesDoNotInterfere(lib: Library, a: Root, b: Root, es: seq<Event>, scope: string)
    requires Agree(a, b, scope)
    ensures Agree(Run(lib, a, es), Run(lib, b, Project(es, scope)), scope)
    ensures Trace(lib, a, es, scope) == Trace(lib, b, Project(es, scope), scope)
    decreases |es|
  {
    if es != [] {
      var e, next, rest := es[0], Step(lib, a, es[0]).root, Project(es[1..], scope);
      if Concerns(e, scope) || e.op.InitSchema? {
        OwnStepAgrees(lib, a, b, e, scope);
        ScopesDoNotInterfere(lib, next, Step(lib, b, e).root, es[1..], scope);
        assert Project(es, scope)[1..] == rest;
      } else {
        ForeignStepAgrees(lib, a, b, e, scope);
        ScopesDoNotInterfere(lib, next, b, es[1..], scope);
        assert Project(es, scope) == rest;
        assert Reported(lib, a, e, scope) == [];
      }
    }
  }

  lemma StepTouchesOneScope(lib: Library, root: Root, e: Event, scope: string)
    requires Concerns(e, scope)
    ensures var next := Step(lib, root, e).root;
      next == root || (root.metadata == SchemaV1 && next == WithScope(root, scope, ScopeOf(next, scope)))
  {
    match e.op
    case Ensure(_, _) =>
    case Reserve(_, _) =>
    case Save(_, _, _, _) =>
    case Promote(_, _, _) =>
    case Finalize(_, _, _) =>
  }

  /** A step by another scope changes neither what a step answers nor what it makes of its own scope. */
  lemma StepIgnoresOthers(lib: Library, root: Root, e: Event, f: Event, s: string, t: string)
    requires s != t && Concerns(e, s) && Concerns(f, t)
    ensures var direct, after := Step(lib, root, e), Step(lib, Step(lib, root, f).root, e);
      && direct.result == after.result
      && Agree(after.root, direct.root, s)
      && Agree(after.root, Step(lib, root, f).root, t)
  {
    var f1 := Step(lib, root, f).root;
    ForeignStepAgrees(lib, root, root, f, s);
    OwnStepAgrees(lib, f1, root, e, s);
    ForeignStepAgrees(lib, f1, f1, e, t);
  }

  lemma TwoStepsTouchTwoScopes(lib: Library, root: Root, e: Event, f: Event, s: string, t: string)
    requires Concerns(e, s) && Concerns(f, t)
    ensures var last := Step(lib, Step(lib, root, e).root, f).root;
      && last.metadata == root.metadata
      && (last.scopes == map[] ==> last == root)
      && forall other | other != s && other != t ::
           (other in last.scopes <==> other in root.scopes) && ScopeOf(last, other) == ScopeOf(root, other)
  {
    var middle := Step(lib, root, e).root;
    var last := Step(lib, middle, f).root;
    StepTouchesOneScope(lib, root, e, s);
    StepTouchesOneScope(lib, middle, f, t);
    assert last != middle ==> t in last.scopes;
    assert middle != root ==> s in middle.scopes && s in last.scopes;
  }

  lemma SameScopes(a: Root, b: Root)
    requires forall scope :: (scope in a.scopes <==> scope in b.scopes) && ScopeOf(a, scope) == ScopeOf(b, scope)
    ensures a.scopes == b.scopes
  {
    forall scope | scope in a.scopes ensures a.scopes[scope] == b.scopes[scope] {
      assert ScopeOf(a, scope) == ScopeOf(b, scope);
    }
  }

  /** Transactions on different scopes commute: same final store, same answers. */
  lemma DifferentScopesCommute(lib: Library, root: Root, e: Event, f: Event, s: string, t: string)
    requires Lawful(lib) && WellFormed(lib, root)
    requires s != t && Concerns(e, s) && Concerns(f, t)
    ensures var e1, f1 := Step(lib, root, e), Step(lib, root, f);
      var f2, e2 := Step(lib, e1.root, f), Step(lib, f1.root, e);
      f2.root == e2.root && e1.result == e2.result && f1.result == f2.result
  {
    var e1, f1 := Step(lib, root, e).root, Step(lib, root, f).root;
    var f2, e2 := Step(lib, e1, f).root, Step(lib, f1, e).root;
    StepIgnoresOthers(lib, root, e, f, s, t);
    StepIgnoresOthers(lib, root, f, e, t, s);
    TwoStepsTouchTwoScopes(lib, root, e, f, s, t);
    TwoStepsTouchTwoScopes(lib, root, f, e, t, s);
    SameScopes(f2, e2);
    ReachableStoreIsWellFormed(lib, root, [e, f]);
    ReachableStoreIsWellFormed(lib, root, [f, e]);
    RunOfTwo(lib, root, e, f);
    RunOfTwo(lib, root, f, e);
  }

  lemma RunOfTwo(lib: Library, root: Root, e: Event, f: Event)
    ensures Run(lib, root, [e, f]) == Step(lib, Step(lib, root, e).root, f).root
  {
    var middle := Step(lib, root, e).root;
    assert [e, f][1..] == [f];
    assert [f][1..] == [];
    assert Run(lib, middle, [f]) == Run(lib, Step(lib, middle, f).root, []);
  }
}
