/** The runtime coordinator: drain two channels in any order, keep the first persistence error, finalize once. */
module Coordinator {
  import opened Wrappers
  import opened ServiceIdentity
  import opened Records
  import opened Reconcile
  import opened Completion
  import opened Store
  import opened Targets
  import opened Scope
  import opened Pipeline
  import opened Reservation

  datatype Execution = Execution(openPorts: nat, completion: ScanCompletion, changes: seq<Change>, err: Error)

  function ResultIdentity(scope: string, r: ScanResult): Identity {
    Identity(scope, r.targetIP, r.port, r.protocol)
  }

  function ResultObservation(r: ScanResult): Observation {
    Observation(r.banner, r.osHint, r.certSubject, r.certIssuer, r.sans)
  }

  ghost function PersistOne(lib: Library, root: Root, scope: string, scan: string, r: ScanResult, disk: bool): Outcome<()> {
    SaveSpec(lib, root, scope, scan, ResultIdentity(scope, r), ResultObservation(r), disk)
  }

  datatype Persisted = Persisted(root: Root, firstErr: Error)

  /** Persist the results one after the other, remembering the first failure alone. */
  ghost function PersistAll(lib: Library, root: Root, scope: string, scan: string, rs: seq<ScanResult>, disk: nat -> bool)
    : Persisted
  {
    if rs == [] then Persisted(root, Nil)
    else
      var n := |rs| - 1;
      var before := PersistAll(lib, root, scope, scan, rs[..n], disk);
      var o := PersistOne(lib, before.root, scope, scan, rs[n], disk(n));
      Persisted(o.root, if before.firstErr == Nil && o.result.Err? then o.result.error else before.firstErr)
  }

  function CountOpen(rs: seq<ScanResult>): nat {
    if rs == [] then 0
    else CountOpen(rs[..|rs| - 1]) + (if rs[|rs| - 1].state == "OPEN" then 1 else 0)
  }

  /** A completion channel that closes without a value fails closed. */
  function ScannerCompletion(c: Option<ScanCompletion>): ScanCompletion {
    if c.Some? then c.value else ScanCompletion(WorkerFailed, [ScanCompletionMissing])
  }

  ghost function FinalCompletion(
      lib: Library, root: Root, scope: string, scan: string, rs: seq<ScanResult>, c: Option<ScanCompletion>,
      disk: nat -> bool): ScanCompletion
  {
    WithStateError(ScannerCompletion(c), PersistAll(lib, root, scope, scan, rs, disk).firstErr)
  }

  datatype Executed = Executed(root: Root, execution: Execution)

  /** The sequential meaning: persist every result in order, then finalize exactly once. */
  ghost function ExecuteSequentially(
      lib: Library, root: Root, scope: string, scan: string, rs: seq<ScanResult>, c: Option<ScanCompletion>,
      disk: nat -> bool, finalDisk: bool, cleanupErr: Error): Executed
  {
    var final := FinalCompletion(lib, root, scope, scan, rs, c, disk);
    var o := FinalizeSpec(lib, PersistAll(lib, root, scope, scan, rs, disk).root, scope, scan, final, finalDisk);
    var authoritative := if o.result.Err? then WithStateError(final, o.result.error) else final;
    Executed(o.root, Execution(CountOpen(rs), authoritative, if o.result.Ok? then o.result.value else [],
                               authoritative.err + cleanupErr))
  }

  lemma PersistNext(
      lib: Library, root: Root, scope: string, scan: string, rs: seq<ScanResult>, disk: nat -> bool, i: nat)
    requires i < |rs|
    ensures var before := PersistAll(lib, root, scope, scan, rs[..i], disk);
      var o := PersistOne(lib, before.root, scope, scan, rs[i], disk(i));
      PersistAll(lib, root, scope, scan, rs[..i + 1], disk)
      == Persisted(o.root, if before.firstErr == Nil && o.result.Err? then o.result.error else before.firstErr)
    ensures CountOpen(rs[..i + 1]) == CountOpen(rs[..i]) + (if rs[i].state == "OPEN" then 1 else 0)
  {
    assert rs[..i + 1][..i] == rs[..i];
  }

  /** `executeOwnedRuntimeScan`. The select loop may take its two channels in any order; every interleaving
      has the sequential outcome, and the prepared targets are released. */
  method ExecuteOwnedRuntimeScan(
      db: Database, scope: string, scan: string, prepared: PreparedTargetSource, results: seq<ScanResult>,
      completion: Option<ScanCompletion>, disk: nat -> bool, finalDisk: bool, closeErr: Error)
    returns (execution: Execution)
    requires prepared.Valid() && !prepared.closed
    modifies db, prepared
    ensures prepared.Valid() && prepared.closed
    ensures Executed(db.root, execution)
         == ExecuteSequentially(db.lib, old(db.root), scope, scan, results, completion, disk, finalDisk, closeErr)
  {
    var scannerCompletion := ScanCompletion(NoStatus, Nil);
    var firstPersistenceErr: Error := Nil;
    var openPorts := 0;
    var resultsQuiesced, completionReceived := false, false;
    var i := 0;
    while !resultsQuiesced || !completionReceived
      invariant 0 <= i <= |results| && (resultsQuiesced ==> i == |results|)
      invariant PersistAll(db.lib, old(db.root), scope, scan, results[..i], disk) == Persisted(db.root, firstPersistenceErr)
      invariant openPorts == CountOpen(results[..i])
      invariant completionReceived ==> scannerCompletion == ScannerCompletion(completion)
      invariant prepared.Valid() && !prepared.closed
      decreases |results| - i, !resultsQuiesced, !completionReceived
    {
      if {
        case !resultsQuiesced =>
          if i == |results| {
            resultsQuiesced := true;
          } else {
            var result := results[i];
            PersistNext(db.lib, old(db.root), scope, scan, results, disk, i);
            if result.state == "OPEN" {
              openPorts := openPorts + 1;
            }
            var saved := db.SaveCurrentService(scope, scan, ResultIdentity(scope, result), ResultObservation(result), disk(i));
            if saved.Err? && firstPersistenceErr == Nil {
              firstPersistenceErr := saved.error;
            }
            i := i + 1;
          }
        case !completionReceived =>
          scannerCompletion := ScannerCompletion(completion);
          completionReceived := true;
      }
    }
    assert results[..i] == results;
    var finalCompletion := WithStateError(scannerCompletion, firstPersistenceErr);
    var finalized := db.FinalizeCurrentScan(scope, scan, finalCompletion, finalDisk);
    var cleanupErr := prepared.Close(closeErr);
    var authoritative := if finalized.Err? then WithStateError(finalCompletion, finalized.error) else finalCompletion;
    execution := Execution(openPorts, authoritative, if finalized.Ok? then finalized.value else [],
                           authoritative.err + cleanupErr);
  }

  lemma SavesFailWithACause(lib: Library, root: Root, scope: string, scan: string, r: ScanResult, disk: bool)
    ensures var o := PersistOne(lib, root, scope, scan, r, disk); o.result.Err? ==> o.result.error != Nil
  {
  }

  /** The save of result `i` commits. */
  ghost predicate Saves(
      lib: Library, root: Root, scope: string, scan: string, rs: seq<ScanResult>, disk: nat -> bool, i: nat)
    requires i < |rs|
  {
    PersistOne(lib, PersistAll(lib, root, scope, scan, rs[..i], disk).root, scope, scan, rs[i], disk(i)).result.Ok?
  }

  ghost predicate AllSave(
      lib: Library, root: Root, scope: string, scan: string, rs: seq<ScanResult>, disk: nat -> bool)
  {
    forall i: nat | i < |rs| :: Saves(lib, root, scope, scan, rs, disk, i)
  }

  lemma AllSaveStep(lib: Library, root: Root, scope: string, scan: string, rs: seq<ScanResult>, disk: nat -> bool)
    requires rs != []
    ensures var n := |rs| - 1;
      AllSave(lib, root, scope, scan, rs, disk)
      <==> AllSave(lib, root, scope, scan, rs[..n], disk) && Saves(lib, root, scope, scan, rs, disk, n)
  {
    var n := |rs| - 1;
    var front := rs[..n];
    forall i: nat | i < n ensures Saves(lib, root, scope, scan, front, disk, i) <==> Saves(lib, root, scope, scan, rs, disk, i) {
      assert front[..i] == rs[..i];
    }
  }

  /** A persistence failure is never forgotten: the first error is nil exactly when every save succeeded. */
  lemma {:induction false} FirstErrorIsSticky(
      lib: Library, root: Root, scope: string, scan: string, rs: seq<ScanResult>, disk: nat -> bool)
    ensures PersistAll(lib, root, scope, scan, rs, disk).firstErr == Nil <==> AllSave(lib, root, scope, scan, rs, disk)
  {
    if rs != [] {
      var n := |rs| - 1;
      var front := rs[..n];
      FirstErrorIsSticky(lib, root, scope, scan, front, disk);
      AllSaveStep(lib, root, scope, scan, rs, disk);
      SavesFailWithACause(lib, PersistAll(lib, root, scope, scan, front, disk).root, scope, scan, rs[n], disk(n));
    }
  }

  lemma FinalizeFailsWithACause(lib: Library, root: Root, scope: string, scan: string, c: ScanCompletion, disk: bool)
    ensures var o := FinalizeSpec(lib, root, scope, scan, c, disk); o.result.Err? ==> o.result.error != Nil
  {
  }

  /** The first persistence error alone is kept: it is that of the first save that failed. */
  lemma {:induction false} FirstErrorAlone(
      lib: Library, root: Root, scope: string, scan: string, rs: seq<ScanResult>, disk: nat -> bool, i: nat)
    requires i < |rs| && AllSave(lib, root, scope, scan, rs[..i], disk) && !Saves(lib, root, scope, scan, rs, disk, i)
    ensures PersistAll(lib, root, scope, scan, rs, disk).firstErr
         == PersistOne(lib, PersistAll(lib, root, scope, scan, rs[..i], disk).root, scope, scan, rs[i], disk(i)).result.error
  {
    var n := |rs| - 1;
    if i == n {
      FirstErrorIsSticky(lib, root, scope, scan, rs[..n], disk);
    } else {
      assert rs[..n][..i] == rs[..i];
      FirstErrorAlone(lib, root, scope, scan, rs[..n], disk, i);
      SavesFailWithACause(lib, PersistAll(lib, root, scope, scan, rs[..i], disk).root, scope, scan, rs[i], disk(i));
    }
  }

  function OpenPositions(rs: seq<ScanResult>): set<nat> {
    set i: nat | i < |rs| && rs[i].state == "OPEN"
  }

  /** The count of open ports is the number of results in state "OPEN". */
  lemma {:induction false} CountOpenCounts(rs: seq<ScanResult>)
    ensures CountOpen(rs) == |OpenPositions(rs)|
  {
    if rs != [] {
      var n := |rs| - 1;
      CountOpenCounts(rs[..n]);
      assert OpenPositions(rs) == OpenPositions(rs[..n]) + (if rs[n].state == "OPEN" then {n} else {});
    }
  }

  /** How an execution is reported: as completed only if nothing failed; as `state_failed` if the scan completed but a save
      or the promotion failed; otherwise as the scanner ended, a missing completion being a worker failure.
      All causes are reported: the scanner's, the first persistence error, the finalization's, the cleanup's. */
  lemma ExecutionStatus(
      lib: Library, root: Root, scope: string, scan: string, rs: seq<ScanResult>, c: Option<ScanCompletion>,
      disk: nat -> bool, finalDisk: bool, cleanupErr: Error)
    ensures var x := ExecuteSequentially(lib, root, scope, scan, rs, c, disk, finalDisk, cleanupErr).execution;
      var p := PersistAll(lib, root, scope, scan, rs, disk);
      var o := FinalizeSpec(lib, p.root, scope, scan, FinalCompletion(lib, root, scope, scan, rs, c, disk), finalDisk);
      && (c.Some? && c.value.Successful() ==>
            x.completion.status == if p.firstErr == Nil && o.result.Ok? then Completed else StateFailed)
      && (c.Some? && !c.value.Successful() ==> x.completion.status == c.value.status)
      && (c.None? ==> x.completion.status == WorkerFailed && ScanCompletionMissing in x.err)
      && (c.Some? ==> forall f | f in c.value.err :: f in x.err)
      && (forall f | f in p.firstErr || (o.result.Err? && f in o.result.error) || f in cleanupErr :: f in x.err)
  {
    var p := PersistAll(lib, root, scope, scan, rs, disk);
    var sc := ScannerCompletion(c);
    var final := WithStateError(sc, p.firstErr);
    var o := FinalizeSpec(lib, p.root, scope, scan, final, finalDisk);
    SuccessNeedsEveryPart(sc, p.firstErr);
    FinalizeFailsWithACause(lib, p.root, scope, scan, final, finalDisk);
    if o.result.Err? {
      SuccessNeedsEveryPart(final, o.result.error);
    }
  }

  /** Fail closed: the execution is successful exactly when the scanner completed, every save succeeded and the
      promotion committed; otherwise it reports no change at all. */
  lemma ExecutionSucceedsIff(
      lib: Library, root: Root, scope: string, scan: string, rs: seq<ScanResult>, c: Option<ScanCompletion>,
      disk: nat -> bool, finalDisk: bool, cleanupErr: Error)
    ensures var x := ExecuteSequentially(lib, root, scope, scan, rs, c, disk, finalDisk, cleanupErr);
      var p := PersistAll(lib, root, scope, scan, rs, disk);
      && (x.execution.completion.Successful()
          <==> && c.Some? && c.value.Successful() && p.firstErr == Nil
               && FinalizeSpec(lib, p.root, scope, scan, c.value, finalDisk).result.Ok?)
      && (!x.execution.completion.Successful() ==> x.execution.changes == [] && x.execution.err != Nil)
      && (x.execution.err == Nil <==> x.execution.completion.Successful() && cleanupErr == Nil)
  {
    var p := PersistAll(lib, root, scope, scan, rs, disk);
    var sc := ScannerCompletion(c);
    SuccessNeedsEveryPart(sc, p.firstErr);
    var final := WithStateError(sc, p.firstErr);
    FinalizeFailsWithACause(lib, p.root, scope, scan, final, finalDisk);
    var o := FinalizeSpec(lib, p.root, scope, scan, final, finalDisk);
    if o.result.Err? {
      SuccessNeedsEveryPart(final, o.result.error);
    }
    if p.firstErr == Nil {
      assert final == sc;
    }
  }

  /** The workers report "open", the coordinator counts "OPEN": it finds no open port in what any worker sends. */
  lemma {:induction false} OpenPortsStayZero(cfg: Config, rs: seq<ScanResult>)
    requires forall r | r in rs :: exists j, udp :: ResultBy(cfg, udp, j) == Some(r)
    ensures CountOpen(rs) == 0
  {
    if rs != [] {
      assert rs[|rs| - 1] in rs;
      OpenPortsStayZero(cfg, rs[..|rs| - 1]);
    }
  }

  datatype RuntimeOutcome = RuntimeOutcome(
    scopeID: Option<string>, scanID: Option<string>, execution: Option<Execution>, err: Error)

  /** What a started scanner puts on its two channels. */
  datatype Scanned = Scanned(results: seq<ScanResult>, completion: Option<ScanCompletion>)

  /** What the outside world answers in one run of the command. `scanner` is what the scanner does with the stream it
      is given to read. */
  datatype World = World(
    text: string, startErr: Error, lineErr: nat -> Error, endErr: Error, sourceCloseErr: Error,
    initDisk: bool, cancelled: bool, attempt: nat -> Attempt,
    scanner: string -> Scanned, saveDisk: nat -> bool, finalDisk: bool,
    spoolCloseErr: Error, emitErr: Error, dbCloseErr: Error)

  /** The scope of a text and the ports. */
  function ScopeOfText(text: string, tcp: seq<int>, udp: seq<int>): ScanScope {
    ScanScope(Kept(ScanLines(text)), tcp, udp)
  }

  /** `runLifecycleRuntime`, from an open database on. The scan that runs has the scope of the prepared targets, reads
      exactly their spool, and works in a bucket reserved for it. An emission error is printed and then overwritten:
      the outcome's error is the execution's and the database's alone. */
  method RunLifecycleRuntime(db: Database, scopes: ScopeLibrary, tcp: seq<int>, udp: seq<int>, w: World)
    returns (outcome: RuntimeOutcome)
    modifies db
    ensures outcome.execution.Some? ==>
      && outcome.scopeID == Some(ScopeID(scopes, ScopeOfText(w.text, tcp, udp))) && outcome.scanID.Some?
      && outcome.err == outcome.execution.value.err + w.dbCloseErr
      && var reserved := CreateSpec(InitSpec(old(db.root), w.initDisk).root, outcome.scopeID.value, outcome.scanID.value,
                                    true, true);
      && var scanned := w.scanner(Spool(Kept(ScanLines(w.text))));
      && reserved.result.Ok?
      && Executed(db.root, outcome.execution.value)
         == ExecuteSequentially(db.lib, reserved.root, outcome.scopeID.value, outcome.scanID.value,
                                scanned.results, scanned.completion, w.saveDisk, w.finalDisk, w.spoolCloseErr)
    ensures outcome.execution.None? ==> outcome.err != Nil
    ensures outcome.execution.None? ==>
      (db.root == old(db.root) || db.root == InitSpec(old(db.root), w.initDisk).root)
  {
    var prepared, err, _ :=
      PrepareTargetSource(w.text, w.startErr, w.lineErr, w.endErr, w.spoolCloseErr, w.sourceCloseErr);
    if err != Nil {
      return RuntimeOutcome(None, None, None, err);
    }
    var scope := BuildScopeID(scopes, ScanScope(prepared.targets, tcp, udp));
    var initialized := db.InitializeStateSchema(w.initDisk);
    if initialized.Err? {
      var closeErr := prepared.Close(w.spoolCloseErr);
      return RuntimeOutcome(Some(scope), None, None, initialized.error + closeErr + w.dbCloseErr);
    }
    var owned := ReservePreparedRuntimeScan(db, scope, prepared, w.cancelled, w.attempt, w.spoolCloseErr);
    if owned.Err? {
      return RuntimeOutcome(Some(scope), None, None, owned.error + w.dbCloseErr);
    }
    var scanned := w.scanner(prepared.spool);
    var execution := ExecuteOwnedRuntimeScan(
      db, scope, owned.value, prepared, scanned.results, scanned.completion, w.saveDisk, w.finalDisk, w.spoolCloseErr);
    outcome := RuntimeOutcome(Some(scope), Some(owned.value), Some(execution), Nil);
    if w.emitErr != Nil {
      outcome := outcome.(err := outcome.err + w.emitErr);
    }
    outcome := outcome.(err := execution.err + w.dbCloseErr);
  }
}
