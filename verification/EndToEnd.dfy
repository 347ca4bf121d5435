/** The parts together: whole scans over one database, and what their changes mean about the network. */
module EndToEnd {
  import opened Wrappers
  import opened Ordering
  import opened ServiceIdentity
  import opened Records
  import opened Reconcile
  import opened Completion
  import opened Store
  import opened History
  import opened Targets
  import opened Scope
  import opened JobPlan
  import opened Pipeline
  import opened PipelineSafety
  import opened PipelineMeaning
  import opened Coordinator

  /** The libraries, and name resolution as one fixed function. */
  datatype Env = Env(lib: Library, scopes: ScopeLibrary, res: Resolver)

  /** What the user asked for. */
  datatype Request = Request(targets: seq<string>, tcp: seq<int>, udp: seq<int>)

  function AsScope(q: Request): ScanScope {
    ScanScope(q.targets, q.tcp, q.udp)
  }

  ghost function IDOf(env: Env, q: Request): string {
    ScopeID(env.scopes, AsScope(q))
  }

  function PlanOf(env: Env, q: Request): seq<Job> {
    PlannedJobs(env.res, q.targets, q.tcp, q.udp)
  }

  /** Every target of the request resolves. */
  predicate Resolves(env: Env, q: Request) {
    forall t | t in q.targets :: Resolve(env.res, t).Ok?
  }

  /** `ip` resolves from `target` up to its canonical form. */
  predicate ReachesIP(env: Env, target: string, ip: string) {
    && Resolve(env.res, target).Ok?
    && exists raw :: raw in Resolve(env.res, target).value && env.lib.canonicalIP(raw) == Some(ip)
  }

  /** Targets with the same normal form resolve to the same canonical addresses,
      and a target without a normal form does not resolve. */
  ghost predicate RespectsNormalization(env: Env) {
    && (forall t, t', ip |
          && NormalizeScopeTarget(env.scopes, t) == NormalizeScopeTarget(env.scopes, t')
          && Resolve(env.res, t').Ok? && ReachesIP(env, t, ip) :: ReachesIP(env, t', ip))
    && (forall t | Resolve(env.res, t).Ok? :: NormalizeScopeTarget(env.scopes, t) != "")
  }

  ghost predicate LawfulEnv(env: Env) {
    Lawful(env.lib) && CollisionFree(env.scopes) && RespectsNormalization(env)
  }

  function JobIdentity(scope: string, j: Job): Identity {
    Identity(scope, j.targetIP, j.port, j.protocol)
  }

  /** `k` is the service key of job `j`. */
  predicate KeyedBy(env: Env, scope: string, j: Job, k: string) {
    Key(env.lib, JobIdentity(scope, j)) == Ok(k)
  }

  /** `k` is the key of a planned job. */
  predicate Planned(env: Env, scope: string, q: Request, k: string) {
    exists j :: j in PlanOf(env, q) && KeyedBy(env, scope, j, k)
  }

  // ---------------------------------------------------------------- the scope ID determines the planned endpoints

  lemma SameTargets(env: Env, q: Request, p: Request, t: string)
    requires NormalizedTargets(env.scopes, q.targets) == NormalizedTargets(env.scopes, p.targets)
    requires t in q.targets && NormalizeScopeTarget(env.scopes, t) != ""
    ensures exists t' :: t' in p.targets && NormalizeScopeTarget(env.scopes, t') == NormalizeScopeTarget(env.scopes, t)
  {
    assert NormalizeScopeTarget(env.scopes, t) in NormalizedTargets(env.scopes, q.targets);
  }

  lemma SamePort(ports: seq<int>, others: seq<int>, port: int)
    requires Elements(ports) == Elements(others)
    ensures port in ports <==> port in others
  {
    assert port in ports <==> port in Elements(ports);
    assert port in others <==> port in Elements(others);
  }

  /** Requests with the same scope ID plan the same endpoints, as long as their targets resolve. */
  lemma PlanTransfers(env: Env, scope: string, q: Request, p: Request, j: Job) returns (j': Job)
    requires LawfulEnv(env) && IDOf(env, q) == IDOf(env, p) && Resolves(env, p)
    requires j in PlanOf(env, q) && env.lib.canonicalIP(j.targetIP).Some?
    ensures j' in PlanOf(env, p)
    ensures Key(env.lib, JobIdentity(scope, j')) == Key(env.lib, JobIdentity(scope, j))
  {
    ScopeIDIdentifiesScope(env.scopes, AsScope(q), AsScope(p));
    PlanIsProduct(env.res, q.targets, q.tcp, q.udp, j);
    var t, ip := j.targetName, env.lib.canonicalIP(j.targetIP).value;
    SameTargets(env, q, p, t);
    var t' :| t' in p.targets && NormalizeScopeTarget(env.scopes, t') == NormalizeScopeTarget(env.scopes, t);
    assert ReachesIP(env, t, ip);
    assert ReachesIP(env, t', ip);
    var raw :| raw in Resolve(env.res, t').value && env.lib.canonicalIP(raw) == Some(ip);
    j' := Job(raw, t', j.port, j.protocol);
    SamePort(q.tcp, p.tcp, j.port);
    SamePort(q.udp, p.udp, j.port);
    PlanIsProduct(env.res, p.targets, p.tcp, p.udp, j');
  }

  // ---------------------------------------------------------------- sessions

  /** One run of the command: its request and flags, the probe outcomes, the reserved scan ID, the schedule, the
      disk's answers; `crash` stops the process after that many results were persisted. */
  datatype Session = Session(
    request: Request, workers: nat, rate: nat, probe: Job -> Option<Finding>, readFailed: bool,
    scan: string, schedule: seq<Action>, initDisk: bool, reserveDisk: bool, saveDisk: nat -> bool, finalDisk: bool,
    cleanupErr: Error, crash: Option<nat>)

  function ConfigOf(env: Env, x: Session): Config {
    Config(PlanOf(env, x.request), PlanError(env.res, x.request.targets, x.readFailed), x.workers, x.rate, x.probe)
  }

  /** The flags are valid, the schedule is possible, and unless the process crashes it runs to the end. */
  predicate ValidSession(env: Env, x: Session) {
    && ValidCLI(ConfigOf(env, x))
    && Execute(ConfigOf(env, x), Initial(ConfigOf(env, x)), x.schedule).Some?
    && (x.crash.None? ==> Final(EndOf(env, x)))
    && (x.crash.Some? ==> x.crash.value <= |EndOf(env, x).delivered|)
  }

  function EndOf(env: Env, x: Session): State
    requires Execute(ConfigOf(env, x), Initial(ConfigOf(env, x)), x.schedule).Some?
  {
    Execute(ConfigOf(env, x), Initial(ConfigOf(env, x)), x.schedule).value
  }

  /** The store with the session's scan reserved. */
  ghost function Reserving(env: Env, root: Root, x: Session): Outcome<()> {
    CreateSpec(InitSpec(root, x.initDisk).root, IDOf(env, x.request), x.scan, true, x.reserveDisk)
  }

  ghost function Executing(env: Env, root: Root, x: Session): Executed
    requires ValidSession(env, x)
  {
    ExecuteSequentially(env.lib, Reserving(env, root, x).root, IDOf(env, x.request), x.scan,
                        EndOf(env, x).delivered, EndOf(env, x).received, x.saveDisk, x.finalDisk, x.cleanupErr)
  }

  /** What a session makes of the store. */
  ghost function RunSession(env: Env, root: Root, x: Session): Root
    requires ValidSession(env, x)
  {
    var reserved := Reserving(env, root, x);
    if reserved.result.Err? then reserved.root
    else if x.crash.Some? then
      PersistAll(env.lib, reserved.root, IDOf(env, x.request), x.scan, EndOf(env, x).delivered[..x.crash.value], x.saveDisk).root
    else Executing(env, root, x).root
  }

  ghost predicate ValidSessions(env: Env, xs: seq<Session>) {
    forall x | x in xs :: ValidSession(env, x)
  }

  ghost function RunSessions(env: Env, xs: seq<Session>): Root
    requires ValidSessions(env, xs)
  {
    if xs == [] then EmptyRoot
    else RunSession(env, RunSessions(env, xs[..|xs| - 1]), xs[|xs| - 1])
  }

  // ---------------------------------------------------------------- the runtime runs sessions

  /** The scanner's input when it reads `stream`. */
  function StreamConfig(env: Env, x: Session, stream: string): Config {
    var targets := Kept(ScanLines(stream));
    Config(PlannedJobs(env.res, targets, x.request.tcp, x.request.udp), PlanError(env.res, targets, x.readFailed),
           x.workers, x.rate, x.probe)
  }

  /** The scanner reads the spool and plans exactly the jobs of the prepared targets,
      which are the targets of the scope ID. */
  lemma ReplayedPlanIsTheScopes(env: Env, x: Session, text: string)
    requires x.request.targets == Kept(ScanLines(text))
    ensures StreamConfig(env, x, Spool(Kept(ScanLines(text)))) == ConfigOf(env, x)
    ensures ScopeID(env.scopes, ScopeOfText(text, x.request.tcp, x.request.udp)) == IDOf(env, x.request)
  {
    SpoolReplaysTargets(text);
  }

  /** One run of the command: what `Coordinator.RunLifecycleRuntime` ensures of its store and its execution is this
      session's, if the scanner it starts runs the pipeline on the stream it is given. */
  lemma RuntimeRunsSession(env: Env, root: Root, x: Session, w: World)
    requires x.request.targets == Kept(ScanLines(w.text)) && ValidSession(env, x) && x.reserveDisk
    requires w.initDisk == x.initDisk && w.saveDisk == x.saveDisk && w.finalDisk == x.finalDisk
    requires w.spoolCloseErr == x.cleanupErr
    requires var end := Execute(StreamConfig(env, x, Spool(Kept(ScanLines(w.text)))),
                                Initial(StreamConfig(env, x, Spool(Kept(ScanLines(w.text))))), x.schedule);
      end.Some? && w.scanner(Spool(Kept(ScanLines(w.text)))) == Scanned(end.value.delivered, end.value.received)
    ensures var id := ScopeID(env.scopes, ScopeOfText(w.text, x.request.tcp, x.request.udp));
      var scanned := w.scanner(Spool(Kept(ScanLines(w.text))));
      var reserved := CreateSpec(InitSpec(root, w.initDisk).root, id, x.scan, true, true);
      && reserved == Reserving(env, root, x)
      && Executing(env, root, x)
         == ExecuteSequentially(env.lib, reserved.root, id, x.scan, scanned.results, scanned.completion,
                                w.saveDisk, w.finalDisk, w.spoolCloseErr)
  {
    ReplayedPlanIsTheScopes(env, x, w.text);
  }

  // ---------------------------------------------------------------- what persisting does

  predicate ResultKeyed(lib: Library, scope: string, r: ScanResult, k: string) {
    Key(lib, ResultIdentity(scope, r)) == Ok(k)
  }

  predicate SomeKeyed(lib: Library, scope: string, rs: seq<ScanResult>, k: string) {
    exists r :: r in rs && ResultKeyed(lib, scope, r, k)
  }

  ghost predicate Untouched(before: Root, after: Root, scope: string, scan: string) {
    && after.metadata == before.metadata
    && ScopeOf(after, scope).baseline == ScopeOf(before, scope).baseline
    && (scan in ScopeOf(before, scope).scans ==> scan in ScopeOf(after, scope).scans)
    && (forall other | other != scope :: ScopeOf(after, other) == ScopeOf(before, other))
  }

  lemma PersistOneShape(lib: Library, root: Root, scope: string, scan: string, r: ScanResult, disk: bool)
    requires Lawful(lib) && WellFormed(lib, root)
    ensures var o := PersistOne(lib, root, scope, scan, r, disk);
      && WellFormed(lib, o.root) && Untouched(root, o.root, scope, scan)
      && var before, after := ScanBucket(ScopeOf(root, scope), scan), ScanBucket(ScopeOf(o.root, scope), scan);
      && if o.result.Ok? then
           && Key(lib, ResultIdentity(scope, r)).Ok?
           && after == before[Key(lib, ResultIdentity(scope, r)).value :=
                              Stored(RecordOf(lib, ResultIdentity(scope, r), ResultObservation(r)))]
         else after == before
  {
    SaveKeepsWellFormed(lib, root, scope, scan, ResultIdentity(scope, r), ResultObservation(r), disk);
  }

  /** Persisting touches one scan only; it stores nothing but the results' keys, and all of them if no save fails. */
  lemma {:induction false} PersistAllShape(
      lib: Library, root: Root, scope: string, scan: string, rs: seq<ScanResult>, disk: nat -> bool)
    requires Lawful(lib) && WellFormed(lib, root)
    ensures var p := PersistAll(lib, root, scope, scan, rs, disk);
      var before, after := ScanBucket(ScopeOf(root, scope), scan), ScanBucket(ScopeOf(p.root, scope), scan);
      && WellFormed(lib, p.root) && Untouched(root, p.root, scope, scan)
      && (forall k | k in after :: k in before || SomeKeyed(lib, scope, rs, k))
      && (p.firstErr == Nil ==> forall k :: k in before || SomeKeyed(lib, scope, rs, k) ==> k in after)
  {
    if rs != [] {
      var n := |rs| - 1;
      assert rs == rs[..n] + [rs[n]];
      PersistAllShape(lib, root, scope, scan, rs[..n], disk);
      var p := PersistAll(lib, root, scope, scan, rs[..n], disk);
      PersistOneShape(lib, p.root, scope, scan, rs[n], disk(n));
      SavesFailWithACause(lib, p.root, scope, scan, rs[n], disk(n));
      forall k ensures SomeKeyed(lib, scope, rs, k) <==>
        SomeKeyed(lib, scope, rs[..n], k) || ResultKeyed(lib, scope, rs[n], k)
      {
        SomeKeyedLast(lib, scope, rs, k);
      }
    }
  }

  lemma SomeKeyedLast(lib: Library, scope: string, rs: seq<ScanResult>, k: string)
    requires rs != []
    ensures var n := |rs| - 1;
      SomeKeyed(lib, scope, rs, k) <==> SomeKeyed(lib, scope, rs[..n], k) || ResultKeyed(lib, scope, rs[n], k)
  {
    var n := |rs| - 1;
    assert rs == rs[..n] + [rs[n]];
    if SomeKeyed(lib, scope, rs, k) {
      var r :| r in rs && ResultKeyed(lib, scope, r, k);
      assert r in rs[..n] || r == rs[n];
    }
    if SomeKeyed(lib, scope, rs[..n], k) {
      var r :| r in rs[..n] && ResultKeyed(lib, scope, r, k);
      assert r in rs;
    }
    if ResultKeyed(lib, scope, rs[n], k) {
      assert rs[n] in rs;
    }
  }

  /** The record of the last result with a key. */
  ghost function LastRecord(lib: Library, scope: string, rs: seq<ScanResult>, k: string): Option<Record> {
    if rs == [] then None
    else
      var last := rs[|rs| - 1];
      if ResultKeyed(lib, scope, last, k) then Some(RecordOf(lib, ResultIdentity(scope, last), ResultObservation(last)))
      else LastRecord(lib, scope, rs[..|rs| - 1], k)
  }

  /** Result `i` is the last with key `k`. */
  predicate IsLastFor(lib: Library, scope: string, rs: seq<ScanResult>, i: nat, k: string) {
    && i < |rs| && ResultKeyed(lib, scope, rs[i], k)
    && forall j | i < j < |rs| :: !ResultKeyed(lib, scope, rs[j], k)
  }

  lemma {:induction false} LastRecordExists(lib: Library, scope: string, rs: seq<ScanResult>, k: string)
    ensures LastRecord(lib, scope, rs, k).Some? <==> SomeKeyed(lib, scope, rs, k)
  {
    if rs != [] {
      SomeKeyedLast(lib, scope, rs, k);
      LastRecordExists(lib, scope, rs[..|rs| - 1], k);
    }
  }

  lemma {:induction false} LastRecordIsLast(lib: Library, scope: string, rs: seq<ScanResult>, i: nat, k: string)
    requires IsLastFor(lib, scope, rs, i, k)
    ensures LastRecord(lib, scope, rs, k) == Some(RecordOf(lib, ResultIdentity(scope, rs[i]), ResultObservation(rs[i])))
  {
    var n := |rs| - 1;
    if i < n {
      var front := rs[..n];
      assert !ResultKeyed(lib, scope, rs[n], k);
      assert front[i] == rs[i] && forall j | i < j < n :: front[j] == rs[j];
      LastRecordIsLast(lib, scope, front, i, k);
    }
  }

  /** The bucket holds, for every key, the record of the last result with that key, and nothing else. */
  ghost predicate HoldsLast(lib: Library, scope: string, rs: seq<ScanResult>, bucket: Bucket) {
    forall k :: HoldsLastAt(lib, scope, rs, bucket, k)
  }

  ghost predicate HoldsLastAt(lib: Library, scope: string, rs: seq<ScanResult>, bucket: Bucket, k: string) {
    && (k in bucket <==> LastRecord(lib, scope, rs, k).Some?)
    && (k in bucket ==> bucket[k] == Stored(LastRecord(lib, scope, rs, k).value))
  }

  lemma OneMoreRecord(lib: Library, scope: string, rs: seq<ScanResult>, r: ScanResult, bucket: Bucket)
    requires HoldsLast(lib, scope, rs, bucket) && Key(lib, ResultIdentity(scope, r)).Ok?
    ensures var id := ResultIdentity(scope, r);
      HoldsLast(lib, scope, rs + [r], bucket[Key(lib, id).value := Stored(RecordOf(lib, id, ResultObservation(r)))])
  {
    var id := ResultIdentity(scope, r);
    var after := bucket[Key(lib, id).value := Stored(RecordOf(lib, id, ResultObservation(r)))];
    assert (rs + [r])[..|rs|] == rs;
    forall k ensures HoldsLastAt(lib, scope, rs + [r], after, k) {
      assert HoldsLastAt(lib, scope, rs, bucket, k);
    }
  }

  /** Persisting into an empty scan without a failure leaves exactly the last record of every key. */
  lemma {:induction false} PersistedRecords(
      lib: Library, root: Root, scope: string, scan: string, rs: seq<ScanResult>, disk: nat -> bool)
    requires Lawful(lib) && WellFormed(lib, root) && ScanBucket(ScopeOf(root, scope), scan) == map[]
    requires PersistAll(lib, root, scope, scan, rs, disk).firstErr == Nil
    ensures HoldsLast(lib, scope, rs, ScanBucket(ScopeOf(PersistAll(lib, root, scope, scan, rs, disk).root, scope), scan))
  {
    if rs == [] {
      forall k ensures HoldsLastAt(lib, scope, rs, map[], k) {
      }
    } else {
      var n := |rs| - 1;
      var before := PersistAll(lib, root, scope, scan, rs[..n], disk);
      SavesFailWithACause(lib, before.root, scope, scan, rs[n], disk(n));
      PersistedRecords(lib, root, scope, scan, rs[..n], disk);
      PersistAllShape(lib, root, scope, scan, rs[..n], disk);
      PersistOneShape(lib, before.root, scope, scan, rs[n], disk(n));
      OneMoreRecord(lib, scope, rs[..n], rs[n], ScanBucket(ScopeOf(before.root, scope), scan));
      assert rs == rs[..n] + [rs[n]];
    }
  }

  lemma ReservingShape(env: Env, root: Root, x: Session)
    requires WellFormed(env.lib, root)
    ensures var o := Reserving(env, root, x);
      var scope := IDOf(env, x.request);
      && WellFormed(env.lib, o.root)
      && (forall s :: ScopeOf(o.root, s).baseline == ScopeOf(root, s).baseline)
      && (o.result.Ok? ==>
            && scope != "" && x.scan != "" && o.root.metadata == SchemaV1
            && scope in o.root.scopes && x.scan in ScopeOf(o.root, scope).scans
            && ScanBucket(ScopeOf(o.root, scope), x.scan) == map[])
  {
    var start := InitSpec(root, x.initDisk).root;
    ScopeIsValid(env.lib, start, IDOf(env, x.request));
  }

  // ---------------------------------------------------------------- what a finished session does

  /** The observations of a session when it comes to finalize. */
  ghost function Observed(env: Env, root: Root, x: Session): Persisted
    requires ValidSession(env, x)
  {
    PersistAll(env.lib, Reserving(env, root, x).root, IDOf(env, x.request), x.scan, EndOf(env, x).delivered, x.saveDisk)
  }

  ghost function ObservedBucket(env: Env, root: Root, x: Session): Bucket
    requires ValidSession(env, x)
  {
    ScanBucket(ScopeOf(Observed(env, root, x).root, IDOf(env, x.request)), x.scan)
  }

  ghost predicate Completes(env: Env, root: Root, x: Session)
    requires ValidSession(env, x)
  {
    x.crash.None? && Reserving(env, root, x).result.Ok? && Executing(env, root, x).execution.completion.Successful()
  }

  lemma ObservedShape(env: Env, root: Root, x: Session)
    requires LawfulEnv(env) && WellFormed(env.lib, root) && ValidSession(env, x) && Reserving(env, root, x).result.Ok?
    ensures var o := Observed(env, root, x);
      var scope := IDOf(env, x.request);
      && WellFormed(env.lib, o.root) && o.root.metadata == SchemaV1
      && (forall s :: ScopeOf(o.root, s).baseline == ScopeOf(root, s).baseline)
      && x.scan in ScopeOf(o.root, scope).scans
      && (o.firstErr == Nil ==> HoldsLast(env.lib, scope, EndOf(env, x).delivered, ObservedBucket(env, root, x)))
  {
    var scope := IDOf(env, x.request);
    ReservingShape(env, root, x);
    var start := Reserving(env, root, x).root;
    PersistAllShape(env.lib, start, scope, x.scan, EndOf(env, x).delivered, x.saveDisk);
    var o := Observed(env, root, x);
    if o.firstErr == Nil {
      PersistedRecords(env.lib, start, scope, x.scan, EndOf(env, x).delivered, x.saveDisk);
    }
    forall s ensures ScopeOf(o.root, s).baseline == ScopeOf(root, s).baseline {
      assert ScopeOf(start, s).baseline == ScopeOf(root, s).baseline;
    }
  }

  /** A session that completes was settled by its pipeline, lost no save, and was promoted. */
  lemma CompletionIsEarned(env: Env, root: Root, x: Session)
    requires ValidSession(env, x) && Completes(env, root, x)
    ensures var end := EndOf(env, x);
      && Settled(end) && end.received == Some(end.completion.verdict) && end.completion.verdict.Successful()
      && Observed(env, root, x).firstErr == Nil
      && var promoted := PromoteSpec(env.lib, Observed(env, root, x).root, IDOf(env, x.request), x.scan,
                                     end.completion.verdict, x.finalDisk);
         && promoted.result.Ok?
         && Executing(env, root, x).root == promoted.root
         && Executing(env, root, x).execution.changes == promoted.result.value
  {
    var end := EndOf(env, x);
    FinalStateClosesEverything(ConfigOf(env, x), x.schedule);
    ExecutionSucceedsIff(env.lib, Reserving(env, root, x).root, IDOf(env, x.request), x.scan, end.delivered,
                         end.received, x.saveDisk, x.finalDisk, x.cleanupErr);
  }

  /** A committed promotion, in terms of the two committed maps. */
  lemma PromotionShape(lib: Library, root: Root, scope: string, scan: string, c: ScanCompletion, disk: bool)
    requires WellFormed(lib, root) && PromoteSpec(lib, root, scope, scan, c, disk).result.Ok?
    ensures var o := PromoteSpec(lib, root, scope, scan, c, disk);
      var bucket := ScanBucket(ScopeOf(root, scope), scan);
      && WellFormed(lib, o.root) && ValidBucket(lib, scope, bucket, true)
      && IsChangeList(CommittedBaseline(root, scope), Contents(bucket), o.result.value)
      && CommittedBaseline(o.root, scope) == NextBaseline(CommittedBaseline(root, scope), Contents(bucket))
      && forall s | s != scope :: ScopeOf(o.root, s).baseline == ScopeOf(root, s).baseline
  {
    ScopeIsValid(lib, root, scope);
    PromoteKeepsWellFormed(lib, root, scope, scan, c, disk);
    var (base, cur) := LoadPair(lib, root, scope, scan).value;
    ContentsRoundTrip(NextBaseline(base, cur));
  }

  /** The changes and the new baseline of a completed session are the diff and the merge of the old baseline with
      the last record received for every key, and with nothing else. */
  lemma CompletedSession(env: Env, root: Root, x: Session)
    requires LawfulEnv(env) && WellFormed(env.lib, root) && ValidSession(env, x) && Completes(env, root, x)
    ensures WellFormed(env.lib, Executing(env, root, x).root)
    ensures var scope := IDOf(env, x.request);
      var bucket := ObservedBucket(env, root, x);
      && ValidBucket(env.lib, scope, bucket, true)
      && HoldsLast(env.lib, scope, EndOf(env, x).delivered, bucket)
      && IsChangeList(CommittedBaseline(root, scope), Contents(bucket), Executing(env, root, x).execution.changes)
      && CommittedBaseline(Executing(env, root, x).root, scope) == NextBaseline(CommittedBaseline(root, scope), Contents(bucket))
      && forall s | s != scope :: ScopeOf(Executing(env, root, x).root, s).baseline == ScopeOf(root, s).baseline
  {
    CompletionIsEarned(env, root, x);
    ObservedShape(env, root, x);
    var scope, o := IDOf(env, x.request), Observed(env, root, x).root;
    assert BaselineOf(o, scope) == BaselineOf(root, scope);
    PromotionShape(env.lib, o, scope, x.scan, EndOf(env, x).completion.verdict, x.finalDisk);
  }

  /** The observed keys are those of the results. */
  lemma ObservedKey(env: Env, root: Root, x: Session, k: string)
    requires ValidSession(env, x)
    requires HoldsLast(env.lib, IDOf(env, x.request), EndOf(env, x).delivered, ObservedBucket(env, root, x))
    ensures k in ObservedBucket(env, root, x)
       <==> SomeKeyed(env.lib, IDOf(env, x.request), EndOf(env, x).delivered, k)
  {
    assert HoldsLastAt(env.lib, IDOf(env, x.request), EndOf(env, x).delivered, ObservedBucket(env, root, x), k);
    LastRecordExists(env.lib, IDOf(env, x.request), EndOf(env, x).delivered, k);
  }

  /** Every other session leaves every baseline alone. */
  lemma UnfinishedSession(env: Env, root: Root, x: Session)
    requires LawfulEnv(env) && WellFormed(env.lib, root) && ValidSession(env, x) && !Completes(env, root, x)
    ensures WellFormed(env.lib, RunSession(env, root, x))
    ensures forall s :: ScopeOf(RunSession(env, root, x), s).baseline == ScopeOf(root, s).baseline
    ensures x.crash.None? && Reserving(env, root, x).result.Ok? ==> Executing(env, root, x).execution.changes == []
  {
    ReservingShape(env, root, x);
    var reserved := Reserving(env, root, x);
    var scope, end := IDOf(env, x.request), EndOf(env, x);
    if reserved.result.Ok? {
      if x.crash.Some? {
        PersistAllShape(env.lib, reserved.root, scope, x.scan, end.delivered[..x.crash.value], x.saveDisk);
        var after := RunSession(env, root, x);
        forall s ensures ScopeOf(after, s).baseline == ScopeOf(root, s).baseline {
          assert ScopeOf(reserved.root, s).baseline == ScopeOf(root, s).baseline;
        }
      } else {
        ObservedShape(env, root, x);
        UnsuccessfulExecution(env, root, x);
      }
    }
  }

  lemma UnsuccessfulExecution(env: Env, root: Root, x: Session)
    requires LawfulEnv(env) && WellFormed(env.lib, root) && ValidSession(env, x)
    requires x.crash.None? && Reserving(env, root, x).result.Ok? && !Completes(env, root, x)
    ensures WellFormed(env.lib, Executing(env, root, x).root)
    ensures forall s :: ScopeOf(Executing(env, root, x).root, s).baseline == ScopeOf(root, s).baseline
    ensures Executing(env, root, x).execution.changes == []
  {
    ObservedShape(env, root, x);
    var end, o := EndOf(env, x), Observed(env, root, x);
    var scope := IDOf(env, x.request);
    var final := WithStateError(ScannerCompletion(end.received), o.firstErr);
    ExecutionSucceedsIff(env.lib, Reserving(env, root, x).root, scope, x.scan, end.delivered,
                         end.received, x.saveDisk, x.finalDisk, x.cleanupErr);
    SuccessNeedsEveryPart(ScannerCompletion(end.received), o.firstErr);
    FailedFinalization(env.lib, o.root, scope, x.scan, final, x.finalDisk);
  }

  lemma DiscardShape(lib: Library, root: Root, scope: string, scan: string, disk: bool)
    requires WellFormed(lib, root)
    ensures var o := DiscardSpec(root, scope, scan, disk);
      && WellFormed(lib, o.root)
      && forall s :: ScopeOf(o.root, s).baseline == ScopeOf(root, s).baseline
  {
    ScopeIsValid(lib, root, scope);
  }

  /** A finalization that answers an error leaves every baseline as it was. */
  lemma FailedFinalization(lib: Library, root: Root, scope: string, scan: string, c: ScanCompletion, disk: bool)
    requires WellFormed(lib, root)
    ensures var o := FinalizeSpec(lib, root, scope, scan, c, disk);
      && WellFormed(lib, o.root)
      && (o.result.Err? ==> forall s :: ScopeOf(o.root, s).baseline == ScopeOf(root, s).baseline)
  {
    DiscardShape(lib, root, scope, scan, disk);
    PromoteKeepsWellFormed(lib, root, scope, scan, c, disk);
  }

  // ---------------------------------------------------------------- the invariant over all sessions

  /** Every key of the request's baseline is the key of a job the request plans. */
  ghost predicate Covers(env: Env, root: Root, q: Request) {
    forall k | k in BaselineOf(root, IDOf(env, q)) :: Planned(env, IDOf(env, q), q, k)
  }

  ghost predicate Covered(env: Env, root: Root) {
    forall q | Resolves(env, q) :: Covers(env, root, q)
  }

  /** The observations of a completed session are keys of its plan. */
  lemma ObservedKeysArePlanned(env: Env, root: Root, x: Session, k: string)
    requires LawfulEnv(env) && WellFormed(env.lib, root) && ValidSession(env, x) && Completes(env, root, x)
    requires k in ObservedBucket(env, root, x)
    ensures Planned(env, IDOf(env, x.request), x.request, k)
  {
    var scope, cfg, end := IDOf(env, x.request), ConfigOf(env, x), EndOf(env, x);
    CompletedSession(env, root, x);
    ObservedKey(env, root, x, k);
    CompletionIsEarned(env, root, x);
    CompletedMeansEverythingWasProbed(cfg, x.schedule);
    var r :| r in end.delivered && ResultKeyed(env.lib, scope, r, k);
    CollectMember(cfg, end.finished, r);
    var j :| j in end.finished && ResultOf(cfg, j) == Some(r);
    SameMembers(end.finished, cfg.jobs);
    ResultNamesItsJob(env, x.request, cfg, j);
    assert KeyedBy(env, scope, j, k);
  }

  /** A result carries the address, port and protocol of its job. */
  lemma ResultNamesItsJob(env: Env, q: Request, cfg: Config, j: Job)
    requires j in PlanOf(env, q)
    ensures ResultOf(cfg, j).Some? ==> forall scope ::
      ResultIdentity(scope, ResultOf(cfg, j).value) == JobIdentity(scope, j)
  {
    PlanIsProduct(env.res, q.targets, q.tcp, q.udp, j);
  }

  lemma PlannedTransfers(env: Env, q: Request, p: Request, k: string)
    requires LawfulEnv(env) && IDOf(env, q) == IDOf(env, p) && Resolves(env, p)
    requires Planned(env, IDOf(env, q), q, k)
    ensures Planned(env, IDOf(env, p), p, k)
  {
    var scope := IDOf(env, q);
    var j :| j in PlanOf(env, q) && KeyedBy(env, scope, j, k);
    var j' := PlanTransfers(env, scope, q, p, j);
    assert KeyedBy(env, scope, j', k);
  }

  lemma SessionKeepsCovers(env: Env, root: Root, x: Session, q: Request)
    requires LawfulEnv(env) && WellFormed(env.lib, root) && ValidSession(env, x)
    requires Resolves(env, q) && Covers(env, root, q)
    ensures WellFormed(env.lib, RunSession(env, root, x)) && Covers(env, RunSession(env, root, x), q)
  {
    var scope := IDOf(env, q);
    var next := RunSession(env, root, x);
    if !Completes(env, root, x) {
      UnfinishedSession(env, root, x);
    } else {
      CompletedSession(env, root, x);
      if scope == IDOf(env, x.request) {
        ScopeIsValid(env.lib, root, scope);
        ScopeIsValid(env.lib, next, scope);
        forall k | k in BaselineOf(next, scope) ensures Planned(env, scope, q, k) {
          assert k in CommittedBaseline(next, scope);
          if k in ObservedBucket(env, root, x) {
            ObservedKeysArePlanned(env, root, x, k);
            PlannedTransfers(env, x.request, q, k);
          } else {
            assert k in CommittedBaseline(root, scope);
          }
        }
      }
    }
  }

  /** Over any history of sessions, crashed and cancelled ones included, every baseline endpoint of a scope
      is one that every resolvable request with that scope ID plans to probe. */
  lemma {:induction false} BaselinesAreCovered(env: Env, xs: seq<Session>)
    requires LawfulEnv(env) && ValidSessions(env, xs)
    ensures WellFormed(env.lib, RunSessions(env, xs)) && Covered(env, RunSessions(env, xs))
  {
    if xs != [] {
      var front, x := xs[..|xs| - 1], xs[|xs| - 1];
      BaselinesAreCovered(env, front);
      var root := RunSessions(env, front);
      if Completes(env, root, x) { CompletedSession(env, root, x); } else { UnfinishedSession(env, root, x); }
      forall q | Resolves(env, q) ensures Covers(env, RunSession(env, root, x), q) {
        SessionKeepsCovers(env, root, x, q);
      }
    }
  }

  // ---------------------------------------------------------------- no false closure

  /** A completed session's plan was free of errors. */
  lemma CompletedRequestResolves(env: Env, root: Root, x: Session)
    requires ValidSession(env, x) && Completes(env, root, x)
    ensures Resolves(env, x.request)
  {
    CompletionIsEarned(env, root, x);
    CompletedMeansEverythingWasProbed(ConfigOf(env, x), x.schedule);
    CleanPlanResolvesAll(env.res, x.request.targets, x.readFailed);
  }

  /** The evidence behind a `closed` change: the pipeline's own verdict was success; a job for exactly that endpoint
      was planned; every such job was probed as often as planned, its probe found nothing, and it names the closed record's
      address, port and protocol; and no result received in this session carries the endpoint's key. */
  ghost predicate Justified(env: Env, x: Session, c: Change)
    requires ValidSession(env, x)
  {
    var scope, cfg, end := IDOf(env, x.request), ConfigOf(env, x), EndOf(env, x);
    && end.received.Some? && end.received.value.Successful()
    && Planned(env, scope, x.request, c.serviceKey)
    && (forall j | j in cfg.jobs && KeyedBy(env, scope, j, c.serviceKey) ::
          ProbedInVain(cfg, end, j) && NamesRecord(env, j, c.previous))
    && !SomeKeyed(env.lib, scope, end.delivered, c.serviceKey)
  }

  predicate ProbedInVain(cfg: Config, end: State, j: Job) {
    Count(end.finished, j) == Count(cfg.jobs, j) >= 1 && cfg.probe(j).None?
  }

  predicate NamesRecord(env: Env, j: Job, r: Option<Record>) {
    r.Some? && env.lib.canonicalIP(j.targetIP) == Some(r.value.ip) && j.port == r.value.port
    && j.protocol == r.value.protocol
  }

  lemma ClosedChange(base: RecordMap, cur: RecordMap, cs: seq<Change>, c: Change)
    requires IsChangeList(base, cur, cs) && c in cs && c.kind == Closed
    ensures c.serviceKey in base && c.serviceKey !in cur && c.previous == Some(base[c.serviceKey])
  {
  }

  lemma ClosedFacts(env: Env, root: Root, x: Session, c: Change)
    requires LawfulEnv(env) && WellFormed(env.lib, root) && ValidSession(env, x) && Completes(env, root, x)
    requires c in Executing(env, root, x).execution.changes && c.kind == Closed
    ensures var base := CommittedBaseline(root, IDOf(env, x.request));
      && c.serviceKey in base && c.previous == Some(base[c.serviceKey])
      && !SomeKeyed(env.lib, IDOf(env, x.request), EndOf(env, x).delivered, c.serviceKey)
  {
    var scope := IDOf(env, x.request);
    CompletedSession(env, root, x);
    ObservedKey(env, root, x, c.serviceKey);
    ClosedChange(CommittedBaseline(root, scope), Contents(ObservedBucket(env, root, x)),
                 Executing(env, root, x).execution.changes, c);
  }

  lemma UnansweredJob(env: Env, x: Session, j: Job, k: string)
    requires ValidSession(env, x) && Settled(EndOf(env, x))
    requires j in PlanOf(env, x.request) && KeyedBy(env, IDOf(env, x.request), j, k)
    requires !SomeKeyed(env.lib, IDOf(env, x.request), EndOf(env, x).delivered, k)
    ensures ProbedInVain(ConfigOf(env, x), EndOf(env, x), j)
  {
    var scope, cfg, end := IDOf(env, x.request), ConfigOf(env, x), EndOf(env, x);
    CompletedMeansEverythingWasProbed(cfg, x.schedule);
    SameMembers(end.finished, cfg.jobs);
    ResultsAreFindings(cfg, j);
    if ResultOf(cfg, j).Some? {
      var r := ResultOf(cfg, j).value;
      CollectMember(cfg, end.finished, r);
      ResultNamesItsJob(env, x.request, cfg, j);
      assert r in end.delivered && ResultKeyed(env.lib, scope, r, k);
    }
  }

  lemma JobNamesRecord(env: Env, root: Root, scope: string, j: Job, k: string)
    requires LawfulEnv(env) && WellFormed(env.lib, root)
    requires k in CommittedBaseline(root, scope) && KeyedBy(env, scope, j, k)
    ensures NamesRecord(env, j, Some(CommittedBaseline(root, scope)[k]))
  {
    ScopeIsValid(env.lib, root, scope);
    var r := CommittedBaseline(root, scope)[k];
    assert ValidCell(env.lib, scope, k, BaselineOf(root, scope)[k], false);
    KeyIdentifiesEndpoint(env.lib, JobIdentity(scope, j), IdentityOf(scope, r));
  }

  /** No false closure. After any history of sessions, if the next one reports a service closed, the network was
      really asked: see `Justified`. */
  lemma NoFalseClosure(env: Env, xs: seq<Session>, x: Session, c: Change)
    requires LawfulEnv(env) && ValidSessions(env, xs) && ValidSession(env, x)
    requires x.crash.None? && Reserving(env, RunSessions(env, xs), x).result.Ok?
    requires c in Executing(env, RunSessions(env, xs), x).execution.changes && c.kind == Closed
    ensures Completes(env, RunSessions(env, xs), x) && Justified(env, x, c)
  {
    var root := RunSessions(env, xs);
    BaselinesAreCovered(env, xs);
    if !Completes(env, root, x) {
      UnfinishedSession(env, root, x);
    }
    ClosedIsJustified(env, root, x, c);
  }

  lemma ClosedIsJustified(env: Env, root: Root, x: Session, c: Change)
    requires LawfulEnv(env) && WellFormed(env.lib, root) && Covered(env, root)
    requires ValidSession(env, x) && Completes(env, root, x)
    requires c in Executing(env, root, x).execution.changes && c.kind == Closed
    ensures Justified(env, x, c)
  {
    var scope, cfg := IDOf(env, x.request), ConfigOf(env, x);
    ClosedFacts(env, root, x, c);
    CompletionIsEarned(env, root, x);
    CompletedRequestResolves(env, root, x);
    assert Covers(env, root, x.request);
    forall j | j in cfg.jobs && KeyedBy(env, scope, j, c.serviceKey)
      ensures ProbedInVain(cfg, EndOf(env, x), j) && NamesRecord(env, j, c.previous)
    {
      UnansweredJob(env, x, j, c.serviceKey);
      JobNamesRecord(env, root, scope, j, c.serviceKey);
    }
  }

  /** A completed session leaves its scan ID free and the store ready for the next. */
  lemma AfterCompletion(env: Env, root: Root, x: Session)
    requires LawfulEnv(env) && WellFormed(env.lib, root) && ValidSession(env, x) && Completes(env, root, x)
    ensures var after := Executing(env, root, x).root;
      && WellFormed(env.lib, after) && InitSpec(after, true).result.Ok?
      && x.scan !in ScopeOf(after, IDOf(env, x.request)).scans
  {
    CompletedSession(env, root, x);
    CompletionIsEarned(env, root, x);
    ObservedShape(env, root, x);
  }

  // ---------------------------------------------------------------- why a scan is incomplete

  /** An uncancelled scan whose plan has an error ends with the status of the first target that does not resolve, a parse
      failure if that one has a slash and a failed resolution otherwise; with a failed read, if all resolve. */
  lemma FailedPlanIsNamed(env: Env, x: Session, i: nat)
    requires ValidSession(env, x) && Final(EndOf(env, x)) && !EndOf(env, x).cancelled
    ensures FirstBad(env.res, x.request.targets, i) ==>
      EndOf(env, x).received.Some?
      && EndOf(env, x).received.value.status == if '/' in x.request.targets[i] then ParseFailed else ResolutionFailed
    ensures Resolves(env, x.request) && x.readFailed ==>
      EndOf(env, x).received.Some? && EndOf(env, x).received.value.status == ParseFailed
  {
    UncancelledVerdictIsExact(ConfigOf(env, x), x.schedule);
    if FirstBad(env.res, x.request.targets, i) {
      PlanErrorIsFirst(env.res, x.request.targets, x.readFailed, i);
    }
    if Resolves(env, x.request) {
      ReadErrorIsLast(env.res, x.request.targets, x.readFailed);
    }
    ProducerErrorStatus(ConfigOf(env, x).planErr);
  }

  // ---------------------------------------------------------------- the report is exact

  /** The probe of some planned job for `k` finds something. */
  ghost predicate Answered(env: Env, x: Session, k: string) {
    exists j :: j in PlanOf(env, x.request) && Answers(env, x, j, k)
  }

  ghost predicate Answers(env: Env, x: Session, j: Job, k: string) {
    KeyedBy(env, IDOf(env, x.request), j, k) && x.probe(j).Some?
  }

  lemma ReceivedExactlyWhenAnswered(env: Env, x: Session, k: string)
    requires ValidSession(env, x) && Settled(EndOf(env, x))
    ensures SomeKeyed(env.lib, IDOf(env, x.request), EndOf(env, x).delivered, k) <==> Answered(env, x, k)
  {
    var scope, cfg, end := IDOf(env, x.request), ConfigOf(env, x), EndOf(env, x);
    CompletedMeansEverythingWasProbed(cfg, x.schedule);
    SameMembers(end.finished, cfg.jobs);
    if SomeKeyed(env.lib, scope, end.delivered, k) {
      var r :| r in end.delivered && ResultKeyed(env.lib, scope, r, k);
      CollectMember(cfg, end.finished, r);
      var j :| j in end.finished && ResultOf(cfg, j) == Some(r);
      ResultNamesItsJob(env, x.request, cfg, j);
      ResultsAreFindings(cfg, j);
      assert Answers(env, x, j, k);
    }
    if Answered(env, x, k) {
      var j :| j in PlanOf(env, x.request) && Answers(env, x, j, k);
      ResultsAreFindings(cfg, j);
      CollectMember(cfg, end.finished, ResultOf(cfg, j).value);
      ResultNamesItsJob(env, x.request, cfg, j);
      assert ResultKeyed(env.lib, scope, ResultOf(cfg, j).value, k);
    }
  }

  predicate Reports(cs: seq<Change>, k: string, kind: ChangeKind) {
    exists c :: c in cs && c.serviceKey == k && c.kind == kind
  }

  lemma ReportsByKey(base: RecordMap, cur: RecordMap, cs: seq<Change>, k: string, kind: ChangeKind)
    requires IsChangeList(base, cur, cs)
    ensures Reports(cs, k, kind) <==> ChangeAt(base, cur, k).Some? && ChangeAt(base, cur, k).value.kind == kind
  {
    if ChangeAt(base, cur, k).Some? {
      assert ChangeAt(base, cur, k).value in cs;
    }
  }

  /** What a change list and the next baseline say of a key, by its record before and the record seen, if any.
      What is not seen stays as a closed record that is otherwise the old one. */
  ghost predicate Tells(base: RecordMap, next: RecordMap, cs: seq<Change>, k: string, seen: Option<Record>) {
    && (Reports(cs, k, Opened) <==> LifeOf(base, k) == Unseen && seen.Some?)
    && (Reports(cs, k, Closed) <==> LifeOf(base, k) == Alive && seen.None?)
    && (Reports(cs, k, Reopened) <==> LifeOf(base, k) == Dead && seen.Some?)
    && (Reports(cs, k, Changed) <==> LifeOf(base, k) == Alive && seen.Some? && base[k] != seen.value)
    && (LifeOf(next, k) == Alive <==> seen.Some?)
    && (k in next <==> k in base || seen.Some?)
    && (seen.Some? ==> next[k] == seen.value)
    && (seen.None? && k in base ==> next[k].status == StatusClosed && next[k].(status := base[k].status) == base[k])
  }

  lemma ChangeListTells(lib: Library, scope: string, base: RecordMap, cur: RecordMap, cs: seq<Change>, k: string)
    requires Lawful(lib) && IsChangeList(base, cur, cs)
    requires ValidRecords(lib, scope, base, false) && ValidRecords(lib, scope, cur, true)
    ensures Tells(base, NextBaseline(base, cur), cs, k, Lookup(cur, k))
  {
    assert k in cur ==> ValidRecord(lib, scope, k, cur[k], true);
    if LifeOf(base, k) == Alive && k in cur {
      ChangedIffDifferent(lib, scope, base, cur, k);
    }
    ReportsByKey(base, cur, cs, k, Opened);
    ReportsByKey(base, cur, cs, k, Closed);
    ReportsByKey(base, cur, cs, k, Reopened);
    ReportsByKey(base, cur, cs, k, Changed);
  }

  /** The record a session received last for a key. */
  ghost function SeenLast(env: Env, x: Session, k: string): Option<Record>
    requires ValidSession(env, x)
  {
    LastRecord(env.lib, IDOf(env, x.request), EndOf(env, x).delivered, k)
  }

  /** A completed session reports exactly what the network answered, and its baseline says so too: a key is opened,
      closed, reopened or changed if and only if its committed record and the record last seen call for it; and
      something was seen if and only if a planned job for the key was answered. */
  lemma ReportMatchesNetwork(env: Env, root: Root, x: Session, k: string)
    requires LawfulEnv(env) && WellFormed(env.lib, root) && ValidSession(env, x) && Completes(env, root, x)
    ensures WellFormed(env.lib, Executing(env, root, x).root)
    ensures SeenLast(env, x, k).Some? <==> Answered(env, x, k)
    ensures var scope, end := IDOf(env, x.request), Executing(env, root, x);
      Tells(CommittedBaseline(root, scope), CommittedBaseline(end.root, scope), end.execution.changes, k, SeenLast(env, x, k))
  {
    var scope, bucket := IDOf(env, x.request), ObservedBucket(env, root, x);
    CompletedSession(env, root, x);
    CompletionIsEarned(env, root, x);
    ReceivedExactlyWhenAnswered(env, x, k);
    ObservedKey(env, root, x, k);
    SeenIsObserved(env, root, x, k);
    ScopeIsValid(env.lib, root, scope);
    ChangeListTells(env.lib, scope, CommittedBaseline(root, scope), Contents(bucket), Executing(env, root, x).execution.changes, k);
  }

  lemma SeenIsObserved(env: Env, root: Root, x: Session, k: string)
    requires ValidSession(env, x) && ValidBucket(env.lib, IDOf(env, x.request), ObservedBucket(env, root, x), true)
    requires HoldsLast(env.lib, IDOf(env, x.request), EndOf(env, x).delivered, ObservedBucket(env, root, x))
    ensures Lookup(Contents(ObservedBucket(env, root, x)), k) == SeenLast(env, x, k)
    ensures SeenLast(env, x, k).Some? ==> SeenLast(env, x, k).value.status == StatusOpen
  {
    var bucket := ObservedBucket(env, root, x);
    assert HoldsLastAt(env.lib, IDOf(env, x.request), EndOf(env, x).delivered, bucket, k);
    assert k in bucket ==> ValidCell(env.lib, IDOf(env, x.request), k, bucket[k], true);
  }

  // ---------------------------------------------------------------- success is possible

  /** Two sessions that ask for the same and find the same, on any schedules. */
  ghost predicate SameScan(env: Env, x: Session, y: Session) {
    x.request == y.request && x.workers == y.workers && x.rate == y.rate && x.probe == y.probe
    && x.readFailed == y.readFailed
  }


  lemma {:induction false} AllSavesSucceed(
      lib: Library, root: Root, scope: string, scan: string, rs: seq<ScanResult>, disk: nat -> bool)
    requires root.metadata == SchemaV1 && scope != "" && scan != "" && forall i :: disk(i)
    requires forall r | r in rs :: Key(lib, ResultIdentity(scope, r)).Ok?
    ensures var p := PersistAll(lib, root, scope, scan, rs, disk);
      p.firstErr == Nil && p.root.metadata == SchemaV1
  {
    if rs != [] {
      var n := |rs| - 1;
      assert rs == rs[..n] + [rs[n]];
      AllSavesSucceed(lib, root, scope, scan, rs[..n], disk);
    }
  }

  /** Every planned endpoint has a key: its address parses, its port is a port. */
  ghost predicate PlanHasKeys(env: Env, q: Request) {
    forall j | j in PlanOf(env, q) :: Key(env.lib, JobIdentity(IDOf(env, q), j)).Ok?
  }

  lemma ResultsHaveKeys(env: Env, x: Session)
    requires ValidSession(env, x) && Settled(EndOf(env, x)) && PlanHasKeys(env, x.request)
    ensures forall r | r in EndOf(env, x).delivered :: Key(env.lib, ResultIdentity(IDOf(env, x.request), r)).Ok?
  {
    var cfg, end := ConfigOf(env, x), EndOf(env, x);
    CompletedMeansEverythingWasProbed(cfg, x.schedule);
    SameMembers(end.finished, cfg.jobs);
    forall r | r in end.delivered ensures Key(env.lib, ResultIdentity(IDOf(env, x.request), r)).Ok? {
      CollectMember(cfg, end.finished, r);
      var j :| j in end.finished && ResultOf(cfg, j) == Some(r);
      ResultNamesItsJob(env, x.request, cfg, j);
    }
  }

  lemma FreshReservation(env: Env, root: Root, x: Session)
    requires LawfulEnv(env) && x.initDisk && x.reserveDisk && x.scan != ""
    requires InitSpec(root, true).result.Ok? && x.scan !in ScopeOf(root, IDOf(env, x.request)).scans
    ensures Reserving(env, root, x).result.Ok? && Reserving(env, root, x).root.metadata == SchemaV1
  {
  }

  lemma SettledSessionCompletes(env: Env, root: Root, x: Session)
    requires LawfulEnv(env) && WellFormed(env.lib, root) && ValidSession(env, x) && x.crash.None?
    requires Settled(EndOf(env, x)) && PlanHasKeys(env, x.request)
    requires EndOf(env, x).received.Some? && EndOf(env, x).received.value.Successful()
    requires Reserving(env, root, x).result.Ok? && (forall i :: x.saveDisk(i)) && x.finalDisk
    ensures Completes(env, root, x)
  {
    var scope, end, start := IDOf(env, x.request), EndOf(env, x), Reserving(env, root, x).root;
    ReservingShape(env, root, x);
    ResultsHaveKeys(env, x);
    AllSavesSucceed(env.lib, start, scope, x.scan, end.delivered, x.saveDisk);
    ObservedShape(env, root, x);
    ScopeIsValid(env.lib, Observed(env, root, x).root, scope);
    ExecutionSucceedsIff(env.lib, start, scope, x.scan, end.delivered, end.received, x.saveDisk, x.finalDisk, x.cleanupErr);
  }

  /** Nothing but its schedule and the disk stands between a session and completion: the store is the program's, the
      stream can be read, the targets resolve, the ports are supported, the endpoints have keys, the scan ID is free. */
  ghost predicate CanComplete(env: Env, root: Root, x: Session) {
    && LawfulEnv(env) && WellFormed(env.lib, root) && InitSpec(root, true).result.Ok?
    && ValidCLI(ConfigOf(env, x)) && !x.readFailed && Resolves(env, x.request)
    && PlanHasKeys(env, x.request) && !SomeUnsupported(PlanOf(env, x.request))
    && x.scan != "" && x.scan !in ScopeOf(root, IDOf(env, x.request)).scans
  }

  /** On a schedule that ends uncancelled and a disk that accepts everything, such a session completes. */
  lemma SessionOn(env: Env, root: Root, x: Session, acts: seq<Action>) returns (y: Session)
    requires CanComplete(env, root, x)
    requires Execute(ConfigOf(env, x), Initial(ConfigOf(env, x)), acts).Some?
    requires var end := Execute(ConfigOf(env, x), Initial(ConfigOf(env, x)), acts).value; Final(end) && !end.cancelled
    ensures SameScan(env, x, y) && y.scan == x.scan && y.schedule == acts
    ensures ValidSession(env, y) && Completes(env, root, y)
    ensures Settled(EndOf(env, y))
  {
    CleanPlanResolvesAll(env.res, x.request.targets, x.readFailed);
    UncancelledVerdictIsExact(ConfigOf(env, x), acts);
    y := x.(schedule := acts, initDisk := true, reserveDisk := true, saveDisk := _ => true, finalDisk := true, crash := None);
    assert ConfigOf(env, y) == ConfigOf(env, x);
    FreshReservation(env, root, y);
    SettledSessionCompletes(env, root, y);
  }

  /** Failing closed does not mean never succeeding: every session that can complete does so on some schedule. */
  lemma SessionCanComplete(env: Env, root: Root, x: Session) returns (y: Session)
    requires CanComplete(env, root, x)
    ensures SameScan(env, x, y) && y.scan == x.scan
    ensures ValidSession(env, y) && Completes(env, root, y)
  {
    CleanPlanResolvesAll(env.res, x.request.targets, x.readFailed);
    var acts := SuccessIsPossible(ConfigOf(env, x));
    y := SessionOn(env, root, x, acts);
  }
}
