/** When the schedule of a scan can be seen in its outcome, and when it cannot. */
module Determinism {
  import opened Wrappers
  import opened Ordering
  import opened ServiceIdentity
  import opened Records
  import opened Reconcile
  import opened Store
  import opened History
  import opened JobPlan
  import opened Pipeline
  import opened PipelineSafety
  import opened PipelineMeaning
  import opened PipelineOrder
  import opened Coordinator
  import opened EndToEnd

  /** A bucket is determined by the last record of every key. */
  lemma SameBuckets(
      lib: Library, scope: string, rs: seq<ScanResult>, others: seq<ScanResult>, b: Bucket, d: Bucket)
    requires HoldsLast(lib, scope, rs, b) && HoldsLast(lib, scope, others, d)
    requires forall k :: LastRecord(lib, scope, rs, k) == LastRecord(lib, scope, others, k)
    ensures b == d
  {
    forall k ensures k in b <==> k in d {
      assert HoldsLastAt(lib, scope, rs, b, k) && HoldsLastAt(lib, scope, others, d, k);
    }
    forall k | k in b ensures b[k] == d[k] {
      assert HoldsLastAt(lib, scope, rs, b, k) && HoldsLastAt(lib, scope, others, d, k);
    }
  }

  /** Job `j` is planned for key `k` and answered. */
  predicate AnswersFor(lib: Library, cfg: Config, scope: string, j: Job, k: string) {
    Key(lib, JobIdentity(scope, j)) == Ok(k) && ResultOf(cfg, j).Some?
  }

  /** The record the answer of a job becomes. */
  ghost function RecordFor(lib: Library, cfg: Config, scope: string, j: Job): Record
    requires Key(lib, JobIdentity(scope, j)).Ok? && ResultOf(cfg, j).Some?
  {
    RecordOf(lib, JobIdentity(scope, j), ResultObservation(ResultOf(cfg, j).value))
  }

  /** The record of the last answering job for a key. */
  ghost function LastAnswer(lib: Library, cfg: Config, scope: string, jobs: seq<Job>, k: string): Option<Record> {
    if jobs == [] then None
    else
      var last := jobs[|jobs| - 1];
      if AnswersFor(lib, cfg, scope, last, k) then Some(RecordFor(lib, cfg, scope, last))
      else LastAnswer(lib, cfg, scope, jobs[..|jobs| - 1], k)
  }

  lemma LastRecordSnoc(lib: Library, scope: string, rs: seq<ScanResult>, r: ScanResult, k: string)
    ensures LastRecord(lib, scope, rs + [r], k)
         == if ResultKeyed(lib, scope, r, k) then Some(RecordOf(lib, ResultIdentity(scope, r), ResultObservation(r)))
            else LastRecord(lib, scope, rs, k)
  {
    assert (rs + [r])[..|rs|] == rs;
  }

  lemma LastAnswerSnoc(lib: Library, cfg: Config, scope: string, jobs: seq<Job>, j: Job, k: string)
    ensures LastAnswer(lib, cfg, scope, jobs + [j], k)
         == if AnswersFor(lib, cfg, scope, j, k) then Some(RecordFor(lib, cfg, scope, j))
            else LastAnswer(lib, cfg, scope, jobs, k)
  {
    assert (jobs + [j])[..|jobs|] == jobs;
  }

  lemma {:induction false} LastOfCollect(lib: Library, cfg: Config, scope: string, jobs: seq<Job>, k: string)
    requires forall j | j in jobs && ResultOf(cfg, j).Some? ::
      ResultIdentity(scope, ResultOf(cfg, j).value) == JobIdentity(scope, j)
    ensures LastRecord(lib, scope, Collect(cfg, jobs), k) == LastAnswer(lib, cfg, scope, jobs, k)
  {
    if jobs != [] {
      var front, last := jobs[..|jobs| - 1], jobs[|jobs| - 1];
      assert jobs == front + [last];
      LastOfCollect(lib, cfg, scope, front, k);
      if ResultOf(cfg, last).Some? {
        assert last in jobs && Collect(cfg, jobs) == Collect(cfg, front) + [ResultOf(cfg, last).value];
        LastRecordSnoc(lib, scope, Collect(cfg, front), ResultOf(cfg, last).value, k);
      } else {
        assert Collect(cfg, jobs) == Collect(cfg, front);
      }
    }
  }

  lemma {:induction false} LastOfKind(lib: Library, cfg: Config, scope: string, jobs: seq<Job>, k: string, udp: bool)
    requires forall j | j in jobs && AnswersFor(lib, cfg, scope, j, k) :: IsUdp(j) == udp
    ensures LastAnswer(lib, cfg, scope, jobs, k) == LastAnswer(lib, cfg, scope, OfKind(jobs, udp), k)
  {
    if jobs != [] {
      var front, last := jobs[..|jobs| - 1], jobs[|jobs| - 1];
      assert jobs == front + [last];
      LastOfKind(lib, cfg, scope, front, k, udp);
      if IsUdp(last) == udp {
        assert OfKind(jobs, udp) == OfKind(front, udp) + [last];
        LastAnswerSnoc(lib, cfg, scope, OfKind(front, udp), last, k);
      } else {
        assert OfKind(jobs, udp) == OfKind(front, udp);
        assert last in jobs;
      }
    }
  }

  /** Where all answers for a key make one record, the last one is that record, whatever the order. */
  lemma {:induction false} LastOfAgreeing(lib: Library, cfg: Config, scope: string, jobs: seq<Job>, k: string, r: Record)
    requires forall j | j in jobs && AnswersFor(lib, cfg, scope, j, k) :: RecordFor(lib, cfg, scope, j) == r
    ensures LastAnswer(lib, cfg, scope, jobs, k)
         == if exists j :: j in jobs && AnswersFor(lib, cfg, scope, j, k) then Some(r) else None
  {
    if jobs != [] {
      var front, last := jobs[..|jobs| - 1], jobs[|jobs| - 1];
      assert jobs == front + [last];
      LastOfAgreeing(lib, cfg, scope, front, k, r);
    }
  }

  /** Two answered jobs for one key make the same record, or their queue has a single worker. */
  ghost predicate AnswersAgree(env: Env, x: Session) {
    var cfg, scope := ConfigOf(env, x), IDOf(env, x.request);
    forall i, j, k | i in cfg.jobs && j in cfg.jobs
        && AnswersFor(env.lib, cfg, scope, i, k) && AnswersFor(env.lib, cfg, scope, j, k) ::
      RecordFor(env.lib, cfg, scope, i) == RecordFor(env.lib, cfg, scope, j) || WorkersOf(cfg, IsUdp(i)) == 1
  }

  lemma SameProtocolForKey(lib: Library, scope: string, i: Job, j: Job, k: string)
    requires Lawful(lib) && Key(lib, JobIdentity(scope, i)) == Ok(k) && Key(lib, JobIdentity(scope, j)) == Ok(k)
    ensures IsUdp(i) == IsUdp(j)
  {
    KeyIdentifiesEndpoint(lib, JobIdentity(scope, i), JobIdentity(scope, j));
  }

  /** What a settled session saw last of a key is the answer of the job finished last. */
  lemma SeenIsAnswered(env: Env, x: Session, k: string)
    requires ValidSession(env, x) && Settled(EndOf(env, x))
    ensures SeenLast(env, x, k) == LastAnswer(env.lib, ConfigOf(env, x), IDOf(env, x.request), EndOf(env, x).finished, k)
    ensures multiset(EndOf(env, x).finished) == multiset(ConfigOf(env, x).jobs)
  {
    var cfg, end := ConfigOf(env, x), EndOf(env, x);
    CompletedMeansEverythingWasProbed(cfg, x.schedule);
    SameMembers(end.finished, cfg.jobs);
    forall j | j in end.finished && ResultOf(cfg, j).Some?
      ensures ResultIdentity(IDOf(env, x.request), ResultOf(cfg, j).value) == JobIdentity(IDOf(env, x.request), j)
    {
      ResultNamesItsJob(env, x.request, cfg, j);
    }
    LastOfCollect(env.lib, cfg, IDOf(env, x.request), end.finished, k);
  }

  /** What the record of a job says: its endpoint with the canonical address, open, and what the probe found;
      a UDP probe finds a banner only. */
  ghost predicate RecordTells(lib: Library, r: Record, j: Job, f: Finding) {
    && lib.canonicalIP(j.targetIP) == Some(r.ip) && r.port == j.port && r.protocol == j.protocol && r.status == StatusOpen
    && r.banner == f.banner && Ascending(StringLess, r.sans)
    && (j.protocol == "tcp" ==>
          && r.osHint == f.osHint && r.certSubject == f.certSubject && r.certIssuer == f.certIssuer
          && forall san :: san in r.sans <==> san in f.sans)
    && (j.protocol == "udp" ==> r.osHint == r.certSubject == r.certIssuer == "" && r.sans == [])
  }

  lemma RecordForTellsFinding(lib: Library, cfg: Config, scope: string, j: Job)
    requires Key(lib, JobIdentity(scope, j)).Ok? && ResultOf(cfg, j).Some?
    ensures cfg.probe(j).Some? && RecordTells(lib, RecordFor(lib, cfg, scope, j), j, cfg.probe(j).value)
  {
    var o := ResultObservation(ResultOf(cfg, j).value);
    ResultTellsFinding(cfg, j);
    RecordTellsObservation(lib, JobIdentity(scope, j), o, RecordFor(lib, cfg, scope, j));
    if j.protocol == "udp" {
      assert forall san :: san !in RecordFor(lib, cfg, scope, j).sans;
      assert RecordFor(lib, cfg, scope, j).sans == [];
    }
  }

  /** Job `n` of the list is the last that answers for `k`. */
  predicate LastAnswering(lib: Library, cfg: Config, scope: string, jobs: seq<Job>, n: nat, k: string) {
    && n < |jobs| && AnswersFor(lib, cfg, scope, jobs[n], k)
    && forall m | n < m < |jobs| :: !AnswersFor(lib, cfg, scope, jobs[m], k)
  }

  lemma {:induction false} LastAnswerIsLast(lib: Library, cfg: Config, scope: string, jobs: seq<Job>, k: string) returns (n: nat)
    requires LastAnswer(lib, cfg, scope, jobs, k).Some?
    ensures LastAnswering(lib, cfg, scope, jobs, n, k)
    ensures LastAnswer(lib, cfg, scope, jobs, k) == Some(RecordFor(lib, cfg, scope, jobs[n]))
  {
    n := |jobs| - 1;
    if !AnswersFor(lib, cfg, scope, jobs[n], k) {
      var front := jobs[..n];
      n := LastAnswerIsLast(lib, cfg, scope, front, k);
    }
  }

  /** The record a completed session commits for an answered key tells the finding of the job answered last. */
  lemma CommittedRecordTellsFinding(env: Env, root: Root, x: Session, k: string) returns (n: nat)
    requires LawfulEnv(env) && WellFormed(env.lib, root) && ValidSession(env, x) && Completes(env, root, x)
    requires Answered(env, x, k)
    ensures WellFormed(env.lib, Executing(env, root, x).root)
    ensures LastAnswering(env.lib, ConfigOf(env, x), IDOf(env, x.request), EndOf(env, x).finished, n, k)
    ensures var after, j := CommittedBaseline(Executing(env, root, x).root, IDOf(env, x.request)), EndOf(env, x).finished[n];
      k in after && x.probe(j).Some? && RecordTells(env.lib, after[k], j, x.probe(j).value)
  {
    var cfg, scope, finished := ConfigOf(env, x), IDOf(env, x.request), EndOf(env, x).finished;
    CompletionIsEarned(env, root, x);
    ReportMatchesNetwork(env, root, x, k);
    SeenIsAnswered(env, x, k);
    n := LastAnswerIsLast(env.lib, cfg, scope, finished, k);
    RecordForTellsFinding(env.lib, cfg, scope, finished[n]);
  }

  /** If the queue of a key's protocol has one worker, the last answer is the plan's. */
  lemma SeenByOneWorker(env: Env, x: Session, k: string, job: Job)
    requires Lawful(env.lib) && ValidSession(env, x) && Settled(EndOf(env, x))
    requires AnswersFor(env.lib, ConfigOf(env, x), IDOf(env, x.request), job, k)
    requires WorkersOf(ConfigOf(env, x), IsUdp(job)) == 1
    ensures SeenLast(env, x, k) == LastAnswer(env.lib, ConfigOf(env, x), IDOf(env, x.request), ConfigOf(env, x).jobs, k)
  {
    var cfg, scope, end, udp := ConfigOf(env, x), IDOf(env, x.request), EndOf(env, x), IsUdp(job);
    SeenIsAnswered(env, x, k);
    OneWorkerKeepsOrder(cfg, x.schedule, udp);
    forall j | AnswersFor(env.lib, cfg, scope, j, k) ensures IsUdp(j) == udp {
      SameProtocolForKey(env.lib, scope, job, j, k);
    }
    LastOfKind(env.lib, cfg, scope, end.finished, k, udp);
    LastOfKind(env.lib, cfg, scope, cfg.jobs, k, udp);
  }

  /** If all answers for a key make one record, that record is the last. */
  lemma SeenByAgreement(env: Env, x: Session, k: string, r: Record)
    requires ValidSession(env, x) && Settled(EndOf(env, x))
    requires forall j | j in ConfigOf(env, x).jobs && AnswersFor(env.lib, ConfigOf(env, x), IDOf(env, x.request), j, k) ::
      RecordFor(env.lib, ConfigOf(env, x), IDOf(env, x.request), j) == r
    ensures SeenLast(env, x, k) == if SomeAnswer(env, x, k) then Some(r) else None
  {
    var cfg, scope, end := ConfigOf(env, x), IDOf(env, x.request), EndOf(env, x);
    SeenIsAnswered(env, x, k);
    SameMembers(end.finished, cfg.jobs);
    LastOfAgreeing(env.lib, cfg, scope, end.finished, k, r);
  }

  ghost predicate SomeAnswer(env: Env, x: Session, k: string) {
    exists j :: j in ConfigOf(env, x).jobs && AnswersFor(env.lib, ConfigOf(env, x), IDOf(env, x.request), j, k)
  }

  lemma SameSeen(env: Env, x: Session, y: Session, k: string)
    requires Lawful(env.lib) && SameScan(env, x, y) && AnswersAgree(env, x)
    requires ValidSession(env, x) && Settled(EndOf(env, x)) && ValidSession(env, y) && Settled(EndOf(env, y))
    ensures SeenLast(env, x, k) == SeenLast(env, y, k)
  {
    var cfg, scope := ConfigOf(env, x), IDOf(env, x.request);
    assert ConfigOf(env, y) == cfg && IDOf(env, y.request) == scope;
    if SomeAnswer(env, x, k) {
      var job :| job in cfg.jobs && AnswersFor(env.lib, cfg, scope, job, k);
      if WorkersOf(cfg, IsUdp(job)) == 1 {
        SeenByOneWorker(env, x, k, job);
        SeenByOneWorker(env, y, k, job);
      } else {
        var r := RecordFor(env.lib, cfg, scope, job);
        SeenByAgreement(env, x, k, r);
        SeenByAgreement(env, y, k, r);
      }
    } else {
      var r := Record("", 0, "", StatusOpen, "", "", "", "", []);
      SeenByAgreement(env, x, k, r);
      SeenByAgreement(env, y, k, r);
    }
  }

  lemma SameObservations(env: Env, root: Root, x: Session, y: Session)
    requires LawfulEnv(env) && WellFormed(env.lib, root) && SameScan(env, x, y) && AnswersAgree(env, x)
    requires ValidSession(env, x) && Completes(env, root, x)
    requires ValidSession(env, y) && Completes(env, root, y)
    ensures ObservedBucket(env, root, x) == ObservedBucket(env, root, y)
  {
    var scope := IDOf(env, x.request);
    CompletionIsEarned(env, root, x);
    CompletionIsEarned(env, root, y);
    CompletedSession(env, root, x);
    CompletedSession(env, root, y);
    forall k ensures LastRecord(env.lib, scope, EndOf(env, x).delivered, k)
                     == LastRecord(env.lib, scope, EndOf(env, y).delivered, k) {
      SameSeen(env, x, y, k);
    }
    SameBuckets(env.lib, scope, EndOf(env, x).delivered, EndOf(env, y).delivered,
                ObservedBucket(env, root, x), ObservedBucket(env, root, y));
  }

  /** Determinism of the whole pipeline: where answers agree, any two schedules of workers, router and coordinator
      that complete give the same change list and the same promoted baseline. */
  lemma SchedulesDoNotMatter(env: Env, root: Root, x: Session, y: Session)
    requires LawfulEnv(env) && WellFormed(env.lib, root) && SameScan(env, x, y) && AnswersAgree(env, x)
    requires ValidSession(env, x) && Completes(env, root, x)
    requires ValidSession(env, y) && Completes(env, root, y)
    ensures SameOutcome(env, root, x, y)
  {
    SameObservations(env, root, x, y);
    PromotedFromObserved(env, root, x);
    PromotedFromObserved(env, root, y);
  }

  ghost predicate SameOutcome(env: Env, root: Root, x: Session, y: Session)
    requires ValidSession(env, x) && ValidSession(env, y)
  {
    var scope := IDOf(env, x.request);
    && Executing(env, root, x).execution.changes == Executing(env, root, y).execution.changes
    && BaselineOf(Executing(env, root, x).root, scope) == BaselineOf(Executing(env, root, y).root, scope)
  }

  /** Changes and baseline are functions of the old baseline and the observations. */
  lemma PromotedFromObserved(env: Env, root: Root, x: Session)
    requires LawfulEnv(env) && WellFormed(env.lib, root) && ValidSession(env, x) && Completes(env, root, x)
    ensures ValidBucket(env.lib, IDOf(env, x.request), ObservedBucket(env, root, x), true)
    ensures var scope := IDOf(env, x.request);
      var base, cur := CommittedBaseline(root, scope), Contents(ObservedBucket(env, root, x));
      && Executing(env, root, x).execution.changes == Reconciled(base, cur)
      && BaselineOf(Executing(env, root, x).root, scope) == AsBucket(NextBaseline(base, cur))
  {
    CompletedSession(env, root, x);
    var scope := IDOf(env, x.request);
    var base, cur := CommittedBaseline(root, scope), Contents(ObservedBucket(env, root, x));
    ChangeListIsUnique(base, cur, Executing(env, root, x).execution.changes, Reconciled(base, cur));
    BaselineIsItsContents(env.lib, Executing(env, root, x).root, scope);
  }

  lemma BaselineIsItsContents(lib: Library, root: Root, scope: string)
    requires WellFormed(lib, root)
    ensures BaselineOf(root, scope) == AsBucket(CommittedBaseline(root, scope))
  {
    ScopeIsValid(lib, root, scope);
    BucketOfContents(BaselineOf(root, scope));
  }

  lemma BucketOfContents(b: Bucket)
    requires forall k | k in b :: b[k].Stored?
    ensures AsBucket(Contents(b)) == b
  {
  }

  // ---------------------------------------------------------------- and exactly then

  /** A schedule on which `job` is finished last, as a session. */
  lemma SessionEndingWith(env: Env, root: Root, x: Session, job: Job, k: string) returns (y: Session)
    requires CanComplete(env, root, x)
    requires job in ConfigOf(env, x).jobs && AnswersFor(env.lib, ConfigOf(env, x), IDOf(env, x.request), job, k)
    requires WorkersOf(ConfigOf(env, x), IsUdp(job)) >= 2
    ensures SameScan(env, x, y) && y.scan == x.scan && ValidSession(env, y) && Completes(env, root, y)
    ensures SeenLast(env, y, k) == Some(RecordFor(env.lib, ConfigOf(env, x), IDOf(env, x.request), job))
  {
    var cfg := ConfigOf(env, x);
    CleanPlanResolvesAll(env.res, x.request.targets, x.readFailed);
    var acts := CanBeLast(cfg, job);
    y := SessionOn(env, root, x, acts);
    SeenIsAnswered(env, y, k);
  }

  /** The observed record of a key is in the promoted baseline. */
  lemma SeenIsPromoted(env: Env, root: Root, x: Session, k: string)
    requires LawfulEnv(env) && WellFormed(env.lib, root) && ValidSession(env, x) && Completes(env, root, x)
    requires SeenLast(env, x, k).Some?
    ensures var after := BaselineOf(Executing(env, root, x).root, IDOf(env, x.request));
      k in after && after[k] == Cell.Stored(SeenLast(env, x, k).value)
  {
    CompletedSession(env, root, x);
    PromotedFromObserved(env, root, x);
    SeenIsObserved(env, root, x, k);
  }

  /** `y` is the scan of `x` on a schedule and a disk on which it completes. */
  ghost predicate CompletedVariant(env: Env, root: Root, x: Session, y: Session) {
    SameScan(env, x, y) && y.scan == x.scan && ValidSession(env, y) && Completes(env, root, y)
  }

  /** Where two answers for one key disagree and their queue has two workers, two schedules that complete
      commit two different baselines. */
  lemma SchedulesMatter(env: Env, root: Root, x: Session) returns (y: Session, z: Session)
    requires CanComplete(env, root, x) && !AnswersAgree(env, x)
    ensures CompletedVariant(env, root, x, y) && CompletedVariant(env, root, x, z)
    ensures BaselineOf(Executing(env, root, y).root, IDOf(env, x.request))
         != BaselineOf(Executing(env, root, z).root, IDOf(env, x.request))
  {
    var cfg, scope := ConfigOf(env, x), IDOf(env, x.request);
    var i, j, k :| i in cfg.jobs && j in cfg.jobs
      && AnswersFor(env.lib, cfg, scope, i, k) && AnswersFor(env.lib, cfg, scope, j, k)
      && RecordFor(env.lib, cfg, scope, i) != RecordFor(env.lib, cfg, scope, j) && WorkersOf(cfg, IsUdp(i)) != 1;
    SameProtocolForKey(env.lib, scope, i, j, k);
    y := SessionEndingWith(env, root, x, i, k);
    z := SessionEndingWith(env, root, x, j, k);
    SeenIsPromoted(env, root, y, k);
    SeenIsPromoted(env, root, z, k);
  }

  lemma VariantsAgree(env: Env, root: Root, x: Session, y: Session, z: Session)
    requires LawfulEnv(env) && WellFormed(env.lib, root) && AnswersAgree(env, x)
    requires CompletedVariant(env, root, x, y) && CompletedVariant(env, root, x, z)
    ensures SameOutcome(env, root, y, z)
  {
    assert ConfigOf(env, y) == ConfigOf(env, x) && IDOf(env, y.request) == IDOf(env, x.request);
    SchedulesDoNotMatter(env, root, y, z);
  }

  /** All schedules of the scan that complete have one outcome. */
  ghost predicate ScheduleIndependent(env: Env, root: Root, x: Session) {
    forall y, z | CompletedVariant(env, root, x, y) && CompletedVariant(env, root, x, z) :: SameOutcome(env, root, y, z)
  }

  lemma AgreementHidesSchedules(env: Env, root: Root, x: Session)
    requires LawfulEnv(env) && WellFormed(env.lib, root) && AnswersAgree(env, x)
    ensures ScheduleIndependent(env, root, x)
  {
    forall y, z | CompletedVariant(env, root, x, y) && CompletedVariant(env, root, x, z)
      ensures SameOutcome(env, root, y, z)
    {
      VariantsAgree(env, root, x, y, z);
    }
  }

  lemma DisagreementShows(env: Env, root: Root, x: Session)
    requires CanComplete(env, root, x) && !AnswersAgree(env, x)
    ensures !ScheduleIndependent(env, root, x)
  {
    var y, z := SchedulesMatter(env, root, x);
    assert !SameOutcome(env, root, y, z);
  }

  /** The exact condition, which can be checked on the plan and the probes before the run: the outcome does not depend
      on the schedule if and only if answers for one key agree or have a single worker. */
  lemma ScheduleIndependentIff(env: Env, root: Root, x: Session)
    requires CanComplete(env, root, x)
    ensures ScheduleIndependent(env, root, x) <==> AnswersAgree(env, x)
  {
    if AnswersAgree(env, x) {
      AgreementHidesSchedules(env, root, x);
    } else {
      DisagreementShows(env, root, x);
    }
  }
}
