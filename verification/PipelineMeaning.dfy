/** What the pipeline's verdict means: no job is lost, none is done twice, and no result is lost. */
module PipelineMeaning {
  import opened Wrappers
  import opened Completion
  import opened JobPlan
  import opened Pipeline
  import opened PipelineSafety

  // ---------------------------------------------------------------- jobs stay on the queue of their protocol

  predicate AllOfKind(jobs: seq<Job>, udp: bool) {
    forall j | j in jobs :: IsUdp(j) == udp
  }

  ghost predicate WorkerByProtocol(cfg: Config, w: Worker) {
    && (w.stage.Waiting? || w.stage.Probing? || w.stage.Sending? ==> IsUdp(w.stage.job) == w.udp)
    && (w.stage.Sending? ==> ResultBy(cfg, w.udp, w.stage.job) == Some(w.stage.result))
  }

  ghost predicate ByProtocol(cfg: Config, s: State) {
    && AllOfKind(s.tcp.items, false) && AllOfKind(s.udp.items, true)
    && forall i | 0 <= i < |s.workers| :: WorkerByProtocol(cfg, s.workers[i])
  }

  lemma EffectIsByProtocol(cfg: Config, s: State, w: Worker, a: Action)
    requires ByProtocol(cfg, s) && WorkerByProtocol(cfg, w) && WorkerStep(cfg, s, w, a).Some?
    ensures var e := WorkerStep(cfg, s, w, a).value;
      WorkerByProtocol(cfg, e.worker) && e.worker.udp == w.udp
  {
    assert a.Take? && QueueOf(s, w.udp).items != [] ==> QueueOf(s, w.udp).items[0] in QueueOf(s, w.udp).items;
  }

  lemma ApplyKeepsByProtocol(cfg: Config, s: State, i: nat, e: Effect)
    requires ByProtocol(cfg, s) && i < |s.workers| && WorkerByProtocol(cfg, e.worker)
    ensures ByProtocol(cfg, Apply(s, i, e))
  {
  }

  lemma RouterMoveKeepsByProtocol(cfg: Config, s: State, a: Action)
    requires ByProtocol(cfg, s) && RouterMove(cfg, s, a).Some? && !RouterMove(cfg, s, a).value.panicked
    ensures ByProtocol(cfg, RouterMove(cfg, s, a).value)
  {
    RouterMoveFrame(cfg, s, a);
    var t := RouterMove(cfg, s, a).value;
    assert t.tcp.items == s.tcp.items || (!IsUdp(s.router.job) && t.tcp.items == s.tcp.items + [s.router.job]);
    assert t.udp.items == s.udp.items || (IsUdp(s.router.job) && t.udp.items == s.udp.items + [s.router.job]);
  }

  lemma RouterKeepsByProtocol(cfg: Config, s: State, a: Action)
    requires ByProtocol(cfg, s) && RouterNext(cfg, s, a).Some? && !RouterNext(cfg, s, a).value.panicked
    ensures ByProtocol(cfg, RouterNext(cfg, s, a).value)
  {
    if s.router.Receiving? || s.router.Holding? {
      RouterMoveKeepsByProtocol(cfg, s, a);
    } else {
      RouterWindDownFrame(s, a);
    }
  }

  lemma ProducerKeepsByProtocol(cfg: Config, s: State, a: Action)
    requires ByProtocol(cfg, s) && ProducerNext(cfg, s, a).Some? && !ProducerNext(cfg, s, a).value.panicked
    ensures ByProtocol(cfg, ProducerNext(cfg, s, a).value)
  {
    ProducerFrame(cfg, s, a);
  }

  lemma WorkerKeepsByProtocol(cfg: Config, s: State, i: nat, a: Action)
    requires ByProtocol(cfg, s) && i < |s.workers|
    requires WorkerNext(cfg, s, i, a).Some? && !WorkerNext(cfg, s, i, a).value.panicked
    ensures ByProtocol(cfg, WorkerNext(cfg, s, i, a).value)
  {
    EffectIsByProtocol(cfg, s, s.workers[i], a);
    ApplyKeepsByProtocol(cfg, s, i, WorkerStep(cfg, s, s.workers[i], a).value);
  }

  lemma CompletionKeepsByProtocol(cfg: Config, s: State, a: Action)
    requires ByProtocol(cfg, s) && CompletionNext(s, a).Some? && !CompletionNext(s, a).value.panicked
    ensures ByProtocol(cfg, CompletionNext(s, a).value)
  {
    CompletionFrame(s, a);
  }

  lemma OthersKeepByProtocol(cfg: Config, s: State, a: Action)
    requires ByProtocol(cfg, s) && Next(cfg, s, a).Some? && !Next(cfg, s, a).value.panicked
    requires ProcessOf(a) in {Outside, MonitorP, CoordinatorP}
    ensures ByProtocol(cfg, Next(cfg, s, a).value)
  {
    OthersFrame(cfg, s, a);
  }

  lemma StepKeepsByProtocol(cfg: Config, s: State, a: Action)
    requires ByProtocol(cfg, s) && Next(cfg, s, a).Some? && !Next(cfg, s, a).value.panicked
    ensures ByProtocol(cfg, Next(cfg, s, a).value)
  {
    match ProcessOf(a)
    case ProducerP => ProducerKeepsByProtocol(cfg, s, a);
    case RouterP => RouterKeepsByProtocol(cfg, s, a);
    case WorkerP => WorkerKeepsByProtocol(cfg, s, WorkerOf(a).value, a);
    case CompletionP => CompletionKeepsByProtocol(cfg, s, a);
    case _ => OthersKeepByProtocol(cfg, s, a);
  }

  // ---------------------------------------------------------------- what a result says

  /** UDP ports a probe can be made for, and how many workers there are. */
  lemma SupportedPorts(port: int)
    ensures SupportedUDPPort(port) <==> port in {53, 123, 161}
  {
  }

  /** A quarter of the TCP workers, rounded down, probe UDP; at least one does. */
  lemma UdpPoolSize(cfg: Config)
    ensures cfg.workers < 4 ==> UdpWorkers(cfg) == 1
    ensures cfg.workers >= 4 ==> 4 * UdpWorkers(cfg) <= cfg.workers < 4 * UdpWorkers(cfg) + 4
  {
  }

  /** The result `r` of job `j` reports finding `f`: the job's endpoint, open, and everything found;
      UDP probes find a banner only. */
  predicate TellsFinding(r: ScanResult, j: Job, f: Finding) {
    && r.targetName == j.targetName && r.targetIP == j.targetIP && r.port == j.port && r.state == "open"
    && r.protocol == (if j.protocol == "udp" then "udp" else "tcp") && r.banner == f.banner
    && (j.protocol != "udp" ==>
          r.osHint == f.osHint && r.certSubject == f.certSubject && r.certIssuer == f.certIssuer && r.sans == f.sans)
    && (j.protocol == "udp" ==> r.osHint == r.certSubject == r.certIssuer == "" && r.sans == [])
  }

  /** Every finding becomes a result, and only findings do: a job has one exactly when its probe finds something and,
      for UDP, its port is supported; and the result tells what was found. */
  lemma ResultTellsFinding(cfg: Config, j: Job)
    ensures ResultOf(cfg, j).Some? <==> cfg.probe(j).Some? && (j.protocol == "udp" ==> j.port in {53, 123, 161})
    ensures ResultOf(cfg, j).Some? ==> TellsFinding(ResultOf(cfg, j).value, j, cfg.probe(j).value)
  {
  }

  /** Where every job is supported, the results are the findings, no more and no fewer. */
  lemma ResultsAreFindings(cfg: Config, j: Job)
    requires !SomeUnsupported(cfg.jobs) && j in cfg.jobs
    ensures ResultOf(cfg, j).Some? <==> cfg.probe(j).Some?
  {
    if j.protocol == "udp" {
      assert !Unsupported(j);
    }
  }

  // ---------------------------------------------------------------- accounting

  function Count(q: seq<Job>, j: Job): nat {
    multiset(q)[j]
  }

  lemma CountFirst(q: seq<Job>, j: Job)
    requires q != []
    ensures Count(q, j) == (if q[0] == j then 1 else 0) + Count(q[1..], j)
  {
    assert q == [q[0]] + q[1..];
  }

  lemma CountAppend(q: seq<Job>, more: seq<Job>, j: Job)
    ensures Count(q + more, j) == Count(q, j) + Count(more, j)
  {
  }

  function StageCount(g: Stage, j: Job): nat {
    if (g.Waiting? || g.Probing? || g.Sending?) && g.job == j then 1 else 0
  }

  function InFlight(ws: seq<Worker>, j: Job): nat {
    if ws == [] then 0 else StageCount(ws[0].stage, j) + InFlight(ws[1..], j)
  }

  lemma {:induction false} InFlightUpdate(ws: seq<Worker>, i: nat, w: Worker, j: Job)
    requires i < |ws|
    ensures InFlight(ws[i := w], j) + StageCount(ws[i].stage, j) == InFlight(ws, j) + StageCount(w.stage, j)
  {
    if i > 0 {
      assert ws[i := w][1..] == ws[1..][i - 1 := w];
      InFlightUpdate(ws[1..], i - 1, w, j);
    } else {
      assert ws[i := w][1..] == ws[1..];
    }
  }

  lemma {:induction false} NothingInFlight(ws: seq<Worker>, j: Job)
    requires forall i | 0 <= i < |ws| :: StageCount(ws[i].stage, j) == 0
    ensures InFlight(ws, j) == 0
  {
    if ws != [] {
      NothingInFlight(ws[1..], j);
    }
  }

  function Held(r: Router, j: Job): nat {
    if r.Holding? && r.job == j then 1 else 0
  }

  /** How often a job is anywhere: still to be sent, on a channel, with the router, with a worker, or finished. */
  function Tally(s: State, j: Job): nat {
    Count(s.todo, j) + Count(s.raw.items, j) + Held(s.router, j) + Count(s.tcp.items, j) + Count(s.udp.items, j)
    + InFlight(s.workers, j) + Count(s.finished, j)
  }

  /** The results of a list of probed jobs, in order. */
  function Collect(cfg: Config, jobs: seq<Job>): seq<ScanResult> {
    if jobs == [] then [] else
      var j := jobs[|jobs| - 1];
      Collect(cfg, jobs[..|jobs| - 1]) + (if ResultOf(cfg, j).Some? then [ResultOf(cfg, j).value] else [])
  }

  lemma CollectOne(cfg: Config, jobs: seq<Job>, j: Job)
    ensures Collect(cfg, jobs + [j])
         == Collect(cfg, jobs) + (if ResultOf(cfg, j).Some? then [ResultOf(cfg, j).value] else [])
  {
    assert (jobs + [j])[..|jobs|] == jobs;
  }

  /** `err` is the error a worker keeps for one of the unsupported jobs. */
  predicate Blames(err: Error, jobs: seq<Job>) {
    exists j :: j in jobs && Unsupported(j) && err == [UnsupportedUDPPort(j.port)]
  }

  ghost predicate WorkersBlame(ws: seq<Worker>, finished: seq<Job>) {
    forall i | 0 <= i < |ws| && ws[i].err != Nil :: Blames(ws[i].err, finished)
  }

  ghost predicate AllBlame(errs: seq<Error>, finished: seq<Job>) {
    forall e | e in errs :: Blames(e, finished)
  }

  predicate SomeError(ws: seq<Worker>) {
    exists i :: 0 <= i < |ws| && ws[i].err != Nil
  }

  predicate SomeUnsupported(jobs: seq<Job>) {
    exists j :: j in jobs && Unsupported(j)
  }

  predicate SomeExitedWithError(ws: seq<Worker>) {
    exists i :: 0 <= i < |ws| && ws[i].err != Nil && ws[i].stage.Exited?
  }

  /** Worker errors tell of unsupported jobs, of all of them, and reach the error channel. */
  ghost predicate ErrorsTell(ws: seq<Worker>, errs: seq<Error>, finished: seq<Job>, decided: bool) {
    && WorkersBlame(ws, finished) && AllBlame(errs, finished)
    && (SomeUnsupported(finished) ==> SomeError(ws))
    && (SomeExitedWithError(ws) ==> errs != [] || decided)
  }

  /** The verdict a run without cancellation must reach. */
  ghost predicate ExpectedVerdict(cfg: Config, c: ScanCompletion) {
    if cfg.planErr != Nil then c == FromProducerError(cfg.planErr)
    else if SomeUnsupported(cfg.jobs) then c.status == WorkerFailed && Blames(c.err, cfg.jobs)
    else c == ScanCompletion(Completed, Nil)
  }

  ghost predicate AllAccounted(cfg: Config, s: State) {
    forall j :: Tally(s, j) == Count(cfg.jobs, j)
  }

  ghost predicate Decisive(cfg: Config, finished: seq<Job>, c: ScanCompletion) {
    multiset(finished) == multiset(cfg.jobs) && ExpectedVerdict(cfg, c)
  }

  ghost predicate Books(cfg: Config, s: State) {
    && AllAccounted(cfg, s)
    && s.delivered == Collect(cfg, s.finished)
    && (!s.producer.Producing? ==> s.todo == [] && s.producer.err == cfg.planErr)
    && ErrorsTell(s.workers, s.workerErr.items, s.finished, HasVerdict(s))
    && (HasVerdict(s) ==> Decisive(cfg, s.finished, s.completion.verdict))
  }

  predicate Settled(s: State) {
    HasVerdict(s) && s.completion.verdict.status == Completed
  }

  /** Cancellation never struck, or only after a successful verdict. */
  predicate Clean(s: State) {
    !s.cancelled || Settled(s)
  }

  // ---------------------------------------------------------------- steps without cancellation

  /** States that agree on everything but where unfinished jobs wait agree on the books. */
  lemma BooksFrame(cfg: Config, s: State, t: State)
    requires Books(cfg, s)
    requires forall j :: Tally(t, j) == Tally(s, j)
    requires t.delivered == s.delivered && t.finished == s.finished && t.workers == s.workers
    requires t.workerErr.items == s.workerErr.items && t.completion == s.completion
    requires !t.producer.Producing? ==> t.todo == [] && t.producer.err == cfg.planErr
    ensures Books(cfg, t)
  {
  }

  /** Moving the first job of one list to the end of another, or none, keeps both together. */
  lemma MovingKeepsJobs(todo: seq<Job>, raw: seq<Job>, todo': seq<Job>, raw': seq<Job>, moved: bool, j: Job)
    requires if moved then todo != [] && todo' == todo[1..] && raw' == raw + [todo[0]] else todo' == todo && raw' == raw
    ensures Count(todo', j) + Count(raw', j) == Count(todo, j) + Count(raw, j)
  {
    if moved {
      CountFirst(todo, j);
      CountAppend(raw, [todo[0]], j);
    }
  }

  /** The producer moves the first job of its plan to `raw`, or none. */
  lemma ProducerParts(cfg: Config, s: State, a: Action)
    requires ProducerStep(cfg, s, a).Some?
    ensures var m := ProducerStep(cfg, s, a).value;
      if a.ProducerSend? then s.todo != [] && m.todo == s.todo[1..] && m.raw.items == s.raw.items + [s.todo[0]]
      else m.todo == s.todo && m.raw.items == s.raw.items
  {
  }

  /** A step that does not panic installs what the producer did. */
  lemma ProducerLands(s: State, step: Option<Production>)
    requires ProducerResult(s, step).Some? && !ProducerResult(s, step).value.panicked
    ensures step.Some?
    ensures var t := ProducerResult(s, step).value; t.todo == step.value.todo && t.raw.items == step.value.raw.items
  {
  }

  lemma ProducerKeepsJobs(cfg: Config, s: State, a: Action, j: Job)
    requires ProducerStep(cfg, s, a).Some?
    ensures var m := ProducerStep(cfg, s, a).value;
      Count(m.todo, j) + Count(m.raw.items, j) == Count(s.todo, j) + Count(s.raw.items, j)
  {
    var m := ProducerStep(cfg, s, a).value;
    ProducerParts(cfg, s, a);
    MovingKeepsJobs(s.todo, s.raw.items, m.todo, m.raw.items, a.ProducerSend?, j);
  }

  lemma ProducerKeepsPlan(cfg: Config, s: State, a: Action)
    requires !s.cancelled && ProducerNext(cfg, s, a).Some? && !ProducerNext(cfg, s, a).value.panicked
    requires !s.producer.Producing? ==> s.todo == [] && s.producer.err == cfg.planErr
    ensures var t := ProducerNext(cfg, s, a).value;
      !t.producer.Producing? ==> t.todo == [] && t.producer.err == cfg.planErr
  {
  }

  lemma ProducerKeepsBooks(cfg: Config, s: State, a: Action)
    requires Owned(s) && Books(cfg, s) && !s.cancelled
    requires ProducerNext(cfg, s, a).Some? && !ProducerNext(cfg, s, a).value.panicked
    ensures Books(cfg, ProducerNext(cfg, s, a).value)
  {
    ProducerFrame(cfg, s, a);
    var t := ProducerNext(cfg, s, a).value;
    ProducerLands(s, ProducerStep(cfg, s, a));
    forall j ensures Tally(t, j) == Tally(s, j) {
      ProducerKeepsJobs(cfg, s, a, j);
    }
    ProducerKeepsPlan(cfg, s, a);
    BooksFrame(cfg, s, t);
  }

  lemma RouteKeepsJobs(s: State, job: Job, j: Job)
    ensures var t := Route(s, job);
      Count(t.tcp.items, j) + Count(t.udp.items, j)
      == Count(s.tcp.items, j) + Count(s.udp.items, j) + (if job == j then 1 else 0)
  {
    CountAppend(s.tcp.items, [job], j);
    CountAppend(s.udp.items, [job], j);
  }

  lemma RouterMoveKeepsJobs(cfg: Config, s: State, a: Action, j: Job)
    requires !s.cancelled && RouterMove(cfg, s, a).Some? && !RouterMove(cfg, s, a).value.panicked
    ensures var t := RouterMove(cfg, s, a).value;
      Count(t.raw.items, j) + Held(t.router, j) + Count(t.tcp.items, j) + Count(t.udp.items, j)
      == Count(s.raw.items, j) + Held(s.router, j) + Count(s.tcp.items, j) + Count(s.udp.items, j)
  {
    if a.RouterReceive? {
      CountFirst(s.raw.items, j);
    } else if a.RouterSend? {
      RouteKeepsJobs(s, s.router.job, j);
    }
  }

  lemma RouterMoveKeepsBooks(cfg: Config, s: State, a: Action)
    requires Books(cfg, s) && !s.cancelled
    requires RouterMove(cfg, s, a).Some? && !RouterMove(cfg, s, a).value.panicked
    ensures Books(cfg, RouterMove(cfg, s, a).value)
  {
    var t := RouterMove(cfg, s, a).value;
    RouterMoveFrame(cfg, s, a);
    forall j ensures Tally(t, j) == Tally(s, j) {
      RouterMoveKeepsJobs(cfg, s, a, j);
    }
    BooksFrame(cfg, s, t);
  }

  lemma RouterKeepsBooks(cfg: Config, s: State, a: Action)
    requires Books(cfg, s) && !s.cancelled
    requires RouterNext(cfg, s, a).Some? && !RouterNext(cfg, s, a).value.panicked
    ensures Books(cfg, RouterNext(cfg, s, a).value)
  {
    if s.router.Receiving? || s.router.Holding? {
      RouterMoveKeepsBooks(cfg, s, a);
    } else {
      RouterWindDownKeepsJobs(s, a);
      BooksFrame(cfg, s, RouterWindDown(s, a).value);
    }
  }

  lemma RouterWindDownKeepsJobs(s: State, a: Action)
    requires !s.router.Holding? && RouterWindDown(s, a).Some? && !RouterWindDown(s, a).value.panicked
    ensures var t := RouterWindDown(s, a).value;
      && (forall j :: Tally(t, j) == Tally(s, j))
      && t == s.(router := t.router, tcp := t.tcp, udp := t.udp, routerErr := t.routerErr)
  {
    RouterWindDownFrame(s, a);
    assert !RouterWindDown(s, a).value.router.Holding?;
  }

  /** One worker step neither loses nor invents a job, and what it hands over is the job's result. */
  lemma EffectKeepsJobs(cfg: Config, s: State, w: Worker, a: Action, j: Job)
    requires cfg.rate >= 1 && !s.cancelled && WorkerByProtocol(cfg, w) && WorkerStep(cfg, s, w, a).Some?
    ensures var e := WorkerStep(cfg, s, w, a).value;
      && (e.takes ==> QueueOf(s, w.udp).items != [])
      && StageCount(e.worker.stage, j) + Count(e.done, j)
         == StageCount(w.stage, j) + (if e.takes && QueueOf(s, w.udp).items[0] == j then 1 else 0)
  {
  }

  /** A finished job's result, if it has one, is handed over in the same step. */
  lemma EffectDelivers(cfg: Config, s: State, w: Worker, a: Action)
    requires !s.cancelled && WorkerByProtocol(cfg, w) && WorkerStep(cfg, s, w, a).Some?
    ensures DeliversResult(cfg, WorkerStep(cfg, s, w, a).value)
  {
  }

  ghost predicate TellsErrors(w: Worker, errs: seq<Error>, e: Effect) {
    && (w.err != Nil ==> e.worker.err == w.err)
    && (w.err == Nil && e.worker.err != Nil ==> Blames(e.worker.err, e.done))
    && (SomeUnsupported(e.done) ==> e.worker.err != Nil)
    && (e.worker.stage.Exited? && e.worker.err != Nil ==> e.workerErr.items != [])
    && (e.workerErr.items == errs || (e.workerErr.items == [w.err] && w.err != Nil))
    && (errs != [] ==> e.workerErr.items != [])
  }

  lemma EffectTellsErrors(cfg: Config, s: State, w: Worker, a: Action)
    requires cfg.rate >= 1 && !s.cancelled && WorkerByProtocol(cfg, w) && WorkerStep(cfg, s, w, a).Some?
    ensures TellsErrors(w, s.workerErr.items, WorkerStep(cfg, s, w, a).value)
  {
    var e := WorkerStep(cfg, s, w, a).value;
    if w.err == Nil && e.worker.err != Nil {
      assert w.stage.job in e.done && Unsupported(w.stage.job);
    }
  }

  lemma TallyAfter(s: State, i: nat, e: Effect, j: Job)
    requires i < |s.workers|
    requires e.takes ==> QueueOf(s, s.workers[i].udp).items != []
    requires StageCount(e.worker.stage, j) + Count(e.done, j) == StageCount(s.workers[i].stage, j)
               + (if e.takes && QueueOf(s, s.workers[i].udp).items[0] == j then 1 else 0)
    ensures Tally(Apply(s, i, e), j) == Tally(s, j)
  {
    InFlightUpdate(s.workers, i, e.worker, j);
    CountAppend(s.finished, e.done, j);
    if e.takes {
      CountFirst(QueueOf(s, s.workers[i].udp).items, j);
    }
  }

  lemma BlamesMore(err: Error, jobs: seq<Job>, more: seq<Job>)
    requires Blames(err, jobs)
    ensures Blames(err, jobs + more) && Blames(err, more + jobs)
  {
    var j :| j in jobs && Unsupported(j) && err == [UnsupportedUDPPort(j.port)];
    assert j in jobs + more && j in more + jobs;
  }

  lemma WorkersBlameAfter(ws: seq<Worker>, i: nat, w: Worker, finished: seq<Job>, done: seq<Job>)
    requires WorkersBlame(ws, finished) && i < |ws|
    requires w.err == ws[i].err || Blames(w.err, done)
    ensures WorkersBlame(ws[i := w], finished + done)
  {
    var vs := ws[i := w];
    forall k | 0 <= k < |vs| && vs[k].err != Nil ensures Blames(vs[k].err, finished + done) {
      if k == i && w.err != ws[i].err {
        BlamesMore(w.err, done, finished);
      } else {
        BlamesMore(ws[k].err, finished, done);
      }
    }
  }

  lemma AllBlameAfter(errs: seq<Error>, after: seq<Error>, err: Error, finished: seq<Job>, done: seq<Job>)
    requires AllBlame(errs, finished)
    requires after == errs || (after == [err] && Blames(err, finished))
    ensures AllBlame(after, finished + done)
  {
    forall x | x in after ensures Blames(x, finished + done) {
      BlamesMore(x, finished, done);
    }
  }

  lemma SomeErrorAfter(ws: seq<Worker>, i: nat, w: Worker, finished: seq<Job>, done: seq<Job>)
    requires i < |ws| && (SomeUnsupported(finished) ==> SomeError(ws))
    requires ws[i].err != Nil ==> w.err != Nil
    requires SomeUnsupported(done) ==> w.err != Nil
    ensures SomeUnsupported(finished + done) ==> SomeError(ws[i := w])
  {
    var vs := ws[i := w];
    if SomeUnsupported(finished + done) {
      assert vs[i] == w;
      if w.err == Nil {
        var j :| j in finished + done && Unsupported(j);
        assert j in finished;
        var k :| 0 <= k < |ws| && ws[k].err != Nil;
        assert vs[k].err != Nil;
      }
    }
  }

  lemma ErrorsTellAfter(ws: seq<Worker>, errs: seq<Error>, finished: seq<Job>, i: nat, e: Effect)
    requires ErrorsTell(ws, errs, finished, false) && i < |ws| && TellsErrors(ws[i], errs, e)
    ensures ErrorsTell(ws[i := e.worker], e.workerErr.items, finished + e.done, false)
  {
    WorkersBlameAfter(ws, i, e.worker, finished, e.done);
    AllBlameAfter(errs, e.workerErr.items, ws[i].err, finished, e.done);
    SomeErrorAfter(ws, i, e.worker, finished, e.done);
    var vs := ws[i := e.worker];
    if SomeExitedWithError(vs) {
      var k :| 0 <= k < |vs| && vs[k].err != Nil && vs[k].stage.Exited?;
      assert k != i ==> ws[k].err != Nil && ws[k].stage.Exited?;
    }
  }

  ghost predicate DeliversResult(cfg: Config, e: Effect) {
    if e.done == [] then e.sent == []
    else |e.done| == 1 && e.sent == if ResultOf(cfg, e.done[0]).Some? then [ResultOf(cfg, e.done[0]).value] else []
  }

  lemma CollectAfter(cfg: Config, finished: seq<Job>, delivered: seq<ScanResult>, e: Effect)
    requires delivered == Collect(cfg, finished) && DeliversResult(cfg, e)
    ensures delivered + e.sent == Collect(cfg, finished + e.done)
  {
    if e.done == [] {
      assert finished + e.done == finished && delivered + e.sent == delivered;
    } else {
      assert e.done == [e.done[0]];
      CollectOne(cfg, finished, e.done[0]);
    }
  }

  lemma ApplyKeepsBooks(cfg: Config, s: State, i: nat, e: Effect)
    requires Books(cfg, s) && i < |s.workers| && !HasVerdict(s) && TellsErrors(s.workers[i], s.workerErr.items, e)
    requires forall j :: Tally(Apply(s, i, e), j) == Tally(s, j)
    requires DeliversResult(cfg, e)
    ensures Books(cfg, Apply(s, i, e))
  {
    ErrorsTellAfter(s.workers, s.workerErr.items, s.finished, i, e);
    CollectAfter(cfg, s.finished, s.delivered, e);
    ApplyShape(s, i, e);
  }

  lemma ApplyShape(s: State, i: nat, e: Effect)
    requires i < |s.workers|
    ensures var t := Apply(s, i, e);
      && t.workers == s.workers[i := e.worker] && t.workerErr == e.workerErr
      && t.finished == s.finished + e.done && t.delivered == s.delivered + e.sent
      && t.producer == s.producer && t.todo == s.todo && t.completion == s.completion
  {
  }

  lemma WorkerKeepsBooks(cfg: Config, s: State, i: nat, a: Action)
    requires cfg.rate >= 1 && Owned(s) && ByProtocol(cfg, s) && Books(cfg, s) && !s.cancelled && i < |s.workers|
    requires WorkerNext(cfg, s, i, a).Some? && !WorkerNext(cfg, s, i, a).value.panicked
    ensures Books(cfg, WorkerNext(cfg, s, i, a).value)
  {
    var w := s.workers[i];
    var e := WorkerStep(cfg, s, w, a).value;
    WorkerDoesNotPanic(cfg, s, i, a);
    EffectDelivers(cfg, s, w, a);
    EffectTellsErrors(cfg, s, w, a);
    forall j ensures Tally(Apply(s, i, e), j) == Tally(s, j) {
      EffectKeepsJobs(cfg, s, w, a, j);
      TallyAfter(s, i, e, j);
    }
    ApplyKeepsBooks(cfg, s, i, e);
  }

  /** When every goroutine before it has returned, nothing is left anywhere but in `finished`. */
  lemma NothingIsLeft(cfg: Config, s: State)
    requires ValidCLI(cfg) && Live(cfg, s) && Books(cfg, s) && !s.cancelled && s.completion.AwaitWorkerErr?
    ensures multiset(s.finished) == multiset(cfg.jobs)
    ensures s.completion.p == Some(cfg.planErr) && s.completion.r == Some(Nil)
  {
    assert AllExited(s);
    var tcp, udp: nat := 0, cfg.workers;
    assert !s.workers[tcp].udp && s.workers[udp].udp;
    assert s.workers[tcp].stage.Exited? && s.workers[udp].stage.Exited?;
    assert s.tcp.items == [] && s.udp.items == [] && s.raw.items == [] && s.todo == [];
    forall j ensures multiset(s.finished)[j] == multiset(cfg.jobs)[j] {
      NothingInFlight(s.workers, j);
      assert Tally(s, j) == Count(cfg.jobs, j);
    }
  }

  lemma SameMembers(a: seq<Job>, b: seq<Job>)
    requires multiset(a) == multiset(b)
    ensures forall j :: j in a <==> j in b
    ensures SomeUnsupported(a) <==> SomeUnsupported(b)
  {
    assert forall j :: j in a <==> j in multiset(a);
    assert forall j :: j in b <==> j in multiset(b);
  }

  lemma DecideMeetsExpectation(cfg: Config, s: State)
    requires ValidCLI(cfg) && Live(cfg, s) && Books(cfg, s) && !s.cancelled && s.completion.AwaitWorkerErr?
    ensures ExpectedVerdict(cfg, Classify(false, s.completion.p, s.completion.r, First(s.workerErr)))
  {
    NothingIsLeft(cfg, s);
    SameMembers(s.finished, cfg.jobs);
    if s.workerErr.items != [] {
      var e := s.workerErr.items[0];
      assert e in s.workerErr.items;
      var j :| j in s.finished && Unsupported(j) && e == [UnsupportedUDPPort(j.port)];
      assert j in cfg.jobs;
      assert Blames(e, cfg.jobs) && SomeUnsupported(cfg.jobs);
    } else {
      assert SomeError(s.workers) ==> SomeExitedWithError(s.workers);
    }
  }

  /** Only the decision touches the verdict or the error channel. */
  lemma CompletionShape(s: State, a: Action)
    requires CompletionNext(s, a).Some? && !CompletionNext(s, a).value.panicked
    ensures var t := CompletionNext(s, a).value;
      if a.Decide? then
        && s.completion.AwaitWorkerErr? && t.workerErr == Rest(s.workerErr)
        && t.completion == Decided(Classify(s.cancelled, s.completion.p, s.completion.r, First(s.workerErr)))
      else
        && t.workerErr == s.workerErr && (HasVerdict(t) <==> HasVerdict(s))
        && (HasVerdict(s) ==> t.completion.verdict == s.completion.verdict)
  {
  }

  lemma CompletionKeepsBooks(cfg: Config, s: State, a: Action)
    requires ValidCLI(cfg) && Live(cfg, s) && Books(cfg, s) && !s.cancelled
    requires CompletionNext(s, a).Some? && !CompletionNext(s, a).value.panicked
    ensures Books(cfg, CompletionNext(s, a).value)
  {
    CompletionFrame(s, a);
    CompletionShape(s, a);
    var t := CompletionNext(s, a).value;
    assert forall j :: Tally(t, j) == Tally(s, j);
    if a.Decide? {
      NothingIsLeft(cfg, s);
      DecideMeetsExpectation(cfg, s);
      assert AllBlame(t.workerErr.items, s.finished);
    }
  }

  lemma OthersKeepBooks(cfg: Config, s: State, a: Action)
    requires Books(cfg, s) && Next(cfg, s, a).Some? && !Next(cfg, s, a).value.panicked
    requires ProcessOf(a) in {Outside, MonitorP, CoordinatorP}
    ensures Books(cfg, Next(cfg, s, a).value)
  {
    OthersFrame(cfg, s, a);
    OthersKeepErrors(cfg, s, a);
    BooksFrame(cfg, s, Next(cfg, s, a).value);
  }

  lemma OthersKeepErrors(cfg: Config, s: State, a: Action)
    requires Next(cfg, s, a).Some? && ProcessOf(a) in {Outside, MonitorP, CoordinatorP}
    ensures Next(cfg, s, a).value.workerErr.items == s.workerErr.items
  {
  }

  // ---------------------------------------------------------------- after the verdict

  /** Once there is a verdict, only closings and the coordinator's receives are left. */
  lemma ProducerIsFrozen(cfg: Config, s: State, a: Action)
    requires ProducerPast(s) && ProducerNext(cfg, s, a).Some? && !ProducerNext(cfg, s, a).value.panicked
    ensures var t := ProducerNext(cfg, s, a).value;
      && t == s.(producer := t.producer, raw := t.raw, producerErr := t.producerErr)
      && t.raw.items == s.raw.items && !t.producer.Producing? && t.producer.err == s.producer.err
  {
  }

  lemma RouterIsFrozen(cfg: Config, s: State, a: Action)
    requires RouterPast(s) && RouterNext(cfg, s, a).Some? && !RouterNext(cfg, s, a).value.panicked
    ensures var t := RouterNext(cfg, s, a).value;
      t == s.(router := t.router, routerErr := t.routerErr) && !t.router.Holding?
  {
  }

  lemma CompletionIsFrozen(s: State, a: Action)
    requires HasVerdict(s) && CompletionNext(s, a).Some? && !CompletionNext(s, a).value.panicked
    ensures var t := CompletionNext(s, a).value;
      t == s.(completion := t.completion, verdicts := t.verdicts)
      && HasVerdict(t) && t.completion.verdict == s.completion.verdict
  {
  }

  lemma FrozenProducerBooks(cfg: Config, s: State, a: Action)
    requires Books(cfg, s) && ProducerPast(s)
    requires ProducerNext(cfg, s, a).Some? && !ProducerNext(cfg, s, a).value.panicked
    ensures Books(cfg, ProducerNext(cfg, s, a).value)
  {
    ProducerIsFrozen(cfg, s, a);
    BooksFrame(cfg, s, ProducerNext(cfg, s, a).value);
  }

  lemma FrozenRouterBooks(cfg: Config, s: State, a: Action)
    requires Books(cfg, s) && RouterPast(s)
    requires RouterNext(cfg, s, a).Some? && !RouterNext(cfg, s, a).value.panicked
    ensures Books(cfg, RouterNext(cfg, s, a).value)
  {
    RouterIsFrozen(cfg, s, a);
    BooksFrame(cfg, s, RouterNext(cfg, s, a).value);
  }

  lemma FrozenCompletionBooks(cfg: Config, s: State, a: Action)
    requires Books(cfg, s) && HasVerdict(s)
    requires CompletionNext(s, a).Some? && !CompletionNext(s, a).value.panicked
    ensures Books(cfg, CompletionNext(s, a).value)
  {
    CompletionIsFrozen(s, a);
    SettledBooks(cfg, s, CompletionNext(s, a).value);
  }

  /** With a verdict, no worker has a step left. */
  lemma WorkersRest(cfg: Config, s: State, i: nat, a: Action)
    requires MonitorOwns(s) && HasVerdict(s) && i < |s.workers|
    ensures WorkerNext(cfg, s, i, a).None?
  {
    assert s.workers[i].stage.Exited?;
  }

  lemma FrozenBooks(cfg: Config, s: State, a: Action)
    requires Owned(s) && HasVerdict(s) && Books(cfg, s) && Next(cfg, s, a).Some? && !Next(cfg, s, a).value.panicked
    ensures Books(cfg, Next(cfg, s, a).value)
  {
    match ProcessOf(a)
    case ProducerP => FrozenProducerBooks(cfg, s, a);
    case RouterP => FrozenRouterBooks(cfg, s, a);
    case WorkerP => WorkersRest(cfg, s, WorkerOf(a).value, a);
    case CompletionP => FrozenCompletionBooks(cfg, s, a);
    case _ => OthersKeepBooks(cfg, s, a);
  }

  lemma SettledBooks(cfg: Config, s: State, t: State)
    requires Books(cfg, s) && HasVerdict(s) && HasVerdict(t) && t.completion.verdict == s.completion.verdict
    requires t == s.(completion := t.completion, verdicts := t.verdicts)
    ensures Books(cfg, t)
  {
    assert forall j :: Tally(t, j) == Tally(s, j);
  }

  lemma ProducerLeavesVerdict(cfg: Config, s: State, a: Action)
    requires ProducerNext(cfg, s, a).Some? && !ProducerNext(cfg, s, a).value.panicked
    ensures var t := ProducerNext(cfg, s, a).value; t.cancelled == s.cancelled && t.completion == s.completion
  {
    ProducerFrame(cfg, s, a);
  }

  lemma RouterLeavesVerdict(cfg: Config, s: State, a: Action)
    requires RouterNext(cfg, s, a).Some? && !RouterNext(cfg, s, a).value.panicked
    ensures var t := RouterNext(cfg, s, a).value; t.cancelled == s.cancelled && t.completion == s.completion
  {
    if s.router.Receiving? || s.router.Holding? {
      RouterMoveFrame(cfg, s, a);
    } else {
      RouterWindDownFrame(s, a);
    }
  }

  lemma WorkerLeavesVerdict(cfg: Config, s: State, i: nat, a: Action)
    requires i < |s.workers| && WorkerNext(cfg, s, i, a).Some?
    ensures var t := WorkerNext(cfg, s, i, a).value; t.cancelled == s.cancelled && t.completion == s.completion
  {
  }

  lemma CompletionStaysUnclean(s: State, a: Action)
    requires s.cancelled && CompletionNext(s, a).Some? && !CompletionNext(s, a).value.panicked
    ensures var t := CompletionNext(s, a).value; t.cancelled && (Settled(t) ==> Settled(s))
  {
    CompletionFrame(s, a);
    CompletionShape(s, a);
  }

  lemma OthersLeaveVerdict(cfg: Config, s: State, a: Action)
    requires s.cancelled && Next(cfg, s, a).Some? && !Next(cfg, s, a).value.panicked
    requires ProcessOf(a) in {Outside, MonitorP, CoordinatorP}
    ensures var t := Next(cfg, s, a).value; t.cancelled && t.completion == s.completion
  {
    OthersFrame(cfg, s, a);
  }

  /** Cancellation is monotone, and no success is declared after it. */
  lemma CancelledStaysUnclean(cfg: Config, s: State, a: Action)
    requires s.cancelled && Next(cfg, s, a).Some? && !Next(cfg, s, a).value.panicked
    ensures var t := Next(cfg, s, a).value;
      t.cancelled && (Settled(t) ==> Settled(s))
  {
    match ProcessOf(a)
    case ProducerP => ProducerLeavesVerdict(cfg, s, a);
    case RouterP => RouterLeavesVerdict(cfg, s, a);
    case WorkerP => WorkerLeavesVerdict(cfg, s, WorkerOf(a).value, a);
    case CompletionP => CompletionStaysUnclean(s, a);
    case _ => OthersLeaveVerdict(cfg, s, a);
  }

  lemma UncancelledStepKeepsBooks(cfg: Config, s: State, a: Action)
    requires ValidCLI(cfg) && Live(cfg, s) && ByProtocol(cfg, s) && Books(cfg, s) && !s.cancelled
    requires Next(cfg, s, a).Some? && !Next(cfg, s, a).value.panicked
    ensures Books(cfg, Next(cfg, s, a).value)
  {
    match ProcessOf(a)
    case ProducerP => ProducerKeepsBooks(cfg, s, a);
    case RouterP => RouterKeepsBooks(cfg, s, a);
    case WorkerP => WorkerKeepsBooks(cfg, s, WorkerOf(a).value, a);
    case CompletionP => CompletionKeepsBooks(cfg, s, a);
    case _ => OthersKeepBooks(cfg, s, a);
  }

  lemma StepKeepsBooks(cfg: Config, s: State, a: Action)
    requires ValidCLI(cfg) && Live(cfg, s) && ByProtocol(cfg, s) && Next(cfg, s, a).Some?
    requires Clean(s) ==> Books(cfg, s)
    ensures Live(cfg, Next(cfg, s, a).value) && ByProtocol(cfg, Next(cfg, s, a).value)
    ensures Clean(Next(cfg, s, a).value) ==> Books(cfg, Next(cfg, s, a).value)
  {
    StepKeepsLive(cfg, s, a);
    StepKeepsByProtocol(cfg, s, a);
    if s.cancelled {
      CancelledStaysUnclean(cfg, s, a);
      if Settled(s) {
        FrozenBooks(cfg, s, a);
      }
    } else {
      UncancelledStepKeepsBooks(cfg, s, a);
    }
  }

  lemma {:induction false} RunKeepsBooks(cfg: Config, s: State, acts: seq<Action>)
    requires ValidCLI(cfg) && Live(cfg, s) && ByProtocol(cfg, s) && (Clean(s) ==> Books(cfg, s))
    requires Execute(cfg, s, acts).Some?
    ensures var t := Execute(cfg, s, acts).value;
      Live(cfg, t) && ByProtocol(cfg, t) && (Clean(t) ==> Books(cfg, t))
    decreases |acts|
  {
    if acts != [] {
      StepKeepsBooks(cfg, s, acts[0]);
      RunKeepsBooks(cfg, Next(cfg, s, acts[0]).value, acts[1..]);
    }
  }

  lemma InitialBooks(cfg: Config)
    ensures Live(cfg, Initial(cfg)) && ByProtocol(cfg, Initial(cfg)) && Books(cfg, Initial(cfg))
  {
    forall j ensures Tally(Initial(cfg), j) == Count(cfg.jobs, j) {
      NothingInFlight(Initial(cfg).workers, j);
    }
  }

  // ---------------------------------------------------------------- the theorems

  /** Every answered job was reported: the results received tell every finding of the plan, and nothing else. */
  lemma EveryFindingIsDelivered(cfg: Config, acts: seq<Action>)
    requires ValidCLI(cfg) && Execute(cfg, Initial(cfg), acts).Some?
    requires Settled(Execute(cfg, Initial(cfg), acts).value)
    ensures var s := Execute(cfg, Initial(cfg), acts).value;
      && (forall j | j in cfg.jobs && cfg.probe(j).Some? ::
            ResultOf(cfg, j).Some? && ResultOf(cfg, j).value in s.delivered
            && TellsFinding(ResultOf(cfg, j).value, j, cfg.probe(j).value))
      && (forall r | r in s.delivered ::
            exists j :: j in cfg.jobs && cfg.probe(j).Some? && TellsFinding(r, j, cfg.probe(j).value))
  {
    var s := Execute(cfg, Initial(cfg), acts).value;
    CompletedMeansEverythingWasProbed(cfg, acts);
    SameMembers(s.finished, cfg.jobs);
    forall j | j in cfg.jobs && cfg.probe(j).Some?
      ensures ResultOf(cfg, j).Some? && ResultOf(cfg, j).value in s.delivered
      ensures TellsFinding(ResultOf(cfg, j).value, j, cfg.probe(j).value)
    {
      ResultsAreFindings(cfg, j);
      ResultTellsFinding(cfg, j);
      CollectMember(cfg, s.finished, ResultOf(cfg, j).value);
    }
    forall r | r in s.delivered
      ensures exists j :: j in cfg.jobs && cfg.probe(j).Some? && TellsFinding(r, j, cfg.probe(j).value)
    {
      CollectMember(cfg, s.finished, r);
      var j :| j in s.finished && ResultOf(cfg, j) == Some(r);
      ResultTellsFinding(cfg, j);
    }
  }

  /** Job conservation. In every interleaving in which the verdict is `completed`, every target resolved, no job had
      an unsupported UDP port, the jobs probed are exactly the planned ones (each as often as planned), and the
      results received are exactly theirs; cancellation after the verdict changes nothing of that. */
  lemma CompletedMeansEverythingWasProbed(cfg: Config, acts: seq<Action>)
    requires ValidCLI(cfg) && Execute(cfg, Initial(cfg), acts).Some?
    requires Settled(Execute(cfg, Initial(cfg), acts).value)
    ensures var s := Execute(cfg, Initial(cfg), acts).value;
      && s.completion.verdict.Successful()
      && cfg.planErr == Nil && !SomeUnsupported(cfg.jobs)
      && multiset(s.finished) == multiset(cfg.jobs)
      && s.delivered == Collect(cfg, s.finished)
  {
    InitialBooks(cfg);
    RunKeepsBooks(cfg, Initial(cfg), acts);
  }

  /** The exact meaning of the verdict of a run that is never cancelled. */
  lemma UncancelledVerdictIsExact(cfg: Config, acts: seq<Action>)
    requires ValidCLI(cfg) && Execute(cfg, Initial(cfg), acts).Some?
    requires var s := Execute(cfg, Initial(cfg), acts).value; Final(s) && !s.cancelled
    ensures var s := Execute(cfg, Initial(cfg), acts).value;
      && s.received == Some(s.completion.verdict) && ExpectedVerdict(cfg, s.completion.verdict)
      && (s.completion.verdict.Successful() <==> cfg.planErr == Nil && !SomeUnsupported(cfg.jobs))
      && multiset(s.finished) == multiset(cfg.jobs) && s.delivered == Collect(cfg, s.finished)
  {
    InitialBooks(cfg);
    RunKeepsBooks(cfg, Initial(cfg), acts);
  }

  const CancelledCompletion := ScanCompletion(Cancelled, [ContextCanceled])

  /** The context is cancelled, and any verdict there is says so. */
  ghost predicate CancelledInTime(s: State) {
    s.cancelled && (HasVerdict(s) ==> s.completion.verdict == CancelledCompletion)
  }

  lemma CompletionStaysCancelled(s: State, a: Action)
    requires Owned(s) && CancelledInTime(s) && CompletionNext(s, a).Some? && !CompletionNext(s, a).value.panicked
    ensures CancelledInTime(CompletionNext(s, a).value)
  {
    CompletionFrame(s, a);
    CompletionShape(s, a);
  }

  lemma StepStaysCancelled(cfg: Config, s: State, a: Action)
    requires Owned(s) && CancelledInTime(s) && Next(cfg, s, a).Some? && !Next(cfg, s, a).value.panicked
    ensures CancelledInTime(Next(cfg, s, a).value)
  {
    match ProcessOf(a)
    case ProducerP => ProducerLeavesVerdict(cfg, s, a);
    case RouterP => RouterLeavesVerdict(cfg, s, a);
    case WorkerP => WorkerLeavesVerdict(cfg, s, WorkerOf(a).value, a);
    case CompletionP => CompletionStaysCancelled(s, a);
    case _ => OthersLeaveVerdict(cfg, s, a);
  }

  lemma {:induction false} RunStaysCancelled(cfg: Config, s: State, acts: seq<Action>)
    requires Owned(s) && CancelledInTime(s) && Execute(cfg, s, acts).Some?
    ensures Owned(Execute(cfg, s, acts).value) && CancelledInTime(Execute(cfg, s, acts).value)
    decreases |acts|
  {
    if acts != [] {
      StepKeepsOwned(cfg, s, acts[0]);
      StepStaysCancelled(cfg, s, acts[0]);
      RunStaysCancelled(cfg, Next(cfg, s, acts[0]).value, acts[1..]);
    }
  }

  /** Only the decision makes a verdict. */
  lemma OnlyDecideDecides(cfg: Config, s: State, a: Action)
    requires !HasVerdict(s) && a != Decide && Next(cfg, s, a).Some? && !Next(cfg, s, a).value.panicked
    ensures !HasVerdict(Next(cfg, s, a).value)
  {
    match ProcessOf(a)
    case Outside =>
    case ProducerP => ProducerLeavesVerdict(cfg, s, a);
    case RouterP => RouterLeavesVerdict(cfg, s, a);
    case WorkerP => WorkerLeavesVerdict(cfg, s, WorkerOf(a).value, a);
    case CompletionP => CompletionShape(s, a);
    case MonitorP => MonitorFrame(s, a);
    case CoordinatorP => CoordinatorFrame(s, a);
  }

  /** Cancellation is authoritative: in every run in which it strikes before the decision, the verdict is `cancelled`,
      and a run that ends has handed it to the coordinator. */
  lemma {:induction false} CancelledVerdict(cfg: Config, s: State, acts: seq<Action>, n: nat)
    requires Owned(s) && !HasVerdict(s) && Execute(cfg, s, acts).Some?
    requires n < |acts| && acts[n] == Cancel && forall i | 0 <= i < n :: acts[i] != Decide
    ensures var end := Execute(cfg, s, acts).value;
      && (HasVerdict(end) ==> end.completion.verdict == CancelledCompletion)
      && (Final(end) ==> end.received == Some(CancelledCompletion))
    decreases |acts|
  {
    var next := Next(cfg, s, acts[0]).value;
    StepKeepsOwned(cfg, s, acts[0]);
    if n == 0 {
      RunStaysCancelled(cfg, next, acts[1..]);
    } else {
      OnlyDecideDecides(cfg, s, acts[0]);
      CancelledVerdict(cfg, next, acts[1..], n - 1);
    }
  }

  // ---------------------------------------------------------------- runs in pieces

  lemma {:induction false} ExecuteConcat(cfg: Config, s: State, acts: seq<Action>, more: seq<Action>)
    requires Execute(cfg, s, acts).Some?
    ensures Execute(cfg, s, acts + more) == Execute(cfg, Execute(cfg, s, acts).value, more)
    decreases |acts|
  {
    if acts == [] {
      assert acts + more == more;
    } else {
      assert (acts + more)[0] == acts[0] && (acts + more)[1..] == acts[1..] + more;
      ExecuteConcat(cfg, Next(cfg, s, acts[0]).value, acts[1..], more);
    }
  }

  /** Extend a run by one action. */
  lemma Extend(cfg: Config, s: State, acts: seq<Action>, now: State, a: Action, next: State)
    requires Execute(cfg, s, acts) == Some(now) && Next(cfg, now, a) == Some(next)
    ensures Execute(cfg, s, acts + [a]) == Some(next)
  {
    ExecuteConcat(cfg, s, acts, [a]);
    assert [a][1..] == [];
  }

  // ---------------------------------------------------------------- every scan can be brought to its end

  lemma OnlyCancelCancels(cfg: Config, s: State, a: Action)
    requires Next(cfg, s, a).Some? && !Next(cfg, s, a).value.panicked && a != Cancel
    ensures Next(cfg, s, a).value.cancelled == s.cancelled
  {
    match ProcessOf(a)
    case ProducerP => ProducerLeavesVerdict(cfg, s, a);
    case RouterP => RouterLeavesVerdict(cfg, s, a);
    case WorkerP => WorkerLeavesVerdict(cfg, s, WorkerOf(a).value, a);
    case CompletionP => CompletionFrame(s, a);
    case MonitorP => MonitorFrame(s, a);
    case CoordinatorP => CoordinatorFrame(s, a);
  }

  /** From every live state some schedule leads to the end, without cancelling anything. */
  lemma {:induction false} CanFinish(cfg: Config, s: State) returns (acts: seq<Action>)
    requires ValidCLI(cfg) && Live(cfg, s)
    ensures Execute(cfg, s, acts).Some? && Final(Execute(cfg, s, acts).value)
    ensures Cancel !in acts && Execute(cfg, s, acts).value.cancelled == s.cancelled
    decreases Measure(s)
  {
    if Final(s) {
      acts := [];
    } else {
      var a := SomeActionIsPossible(cfg, s);
      var next := Next(cfg, s, a).value;
      StepKeepsLive(cfg, s, a);
      StepDecreases(cfg, s, a);
      OnlyCancelCancels(cfg, s, a);
      var rest := CanFinish(cfg, next);
      acts := [a] + rest;
      assert acts[0] == a && acts[1..] == rest;
    }
  }

  /** The decision fails closed: success needs every outcome in, no cancellation and no error;
      a missing outcome or a failed router gives a completion without a status. */
  lemma DecisionFailsClosed(cancelled: bool, p: Option<Error>, r: Option<Error>, w: Option<Error>)
    ensures var c := Classify(cancelled, p, r, w);
      && (c.Successful() <==> !cancelled && p == Some(Nil) && r == Some(Nil) && (w.None? || w == Some(Nil)))
      && (p.None? || r.None? ==> c == ScanCompletion(NoStatus, Nil))
      && (p == Some(Nil) && r.Some? && r.value != Nil && !cancelled ==> c == ScanCompletion(NoStatus, r.value))
      && (p == Some(Nil) && r == Some(Nil) && w.Some? && w.value != Nil && !cancelled ==>
            c == ScanCompletion(WorkerFailed, w.value))
  {
    if p.Some? && p.value != Nil {
      ProducerErrorStatus(p.value);
    }
  }

  /** So a plan without errors and without unsupported ports has a schedule that succeeds. */
  lemma SuccessIsPossible(cfg: Config) returns (acts: seq<Action>)
    requires ValidCLI(cfg) && cfg.planErr == Nil && !SomeUnsupported(cfg.jobs)
    ensures Execute(cfg, Initial(cfg), acts).Some? && Cancel !in acts
    ensures var s := Execute(cfg, Initial(cfg), acts).value;
      Final(s) && !s.cancelled && Settled(s) && s.received == Some(s.completion.verdict) && s.completion.verdict.Successful()
  {
    InitialIsLive(cfg);
    acts := CanFinish(cfg, Initial(cfg));
    UncancelledVerdictIsExact(cfg, acts);
  }

  // ---------------------------------------------------------------- schedules do not matter

  lemma {:induction false} CollectMember(cfg: Config, jobs: seq<Job>, r: ScanResult)
    ensures r in Collect(cfg, jobs) <==> exists j :: j in jobs && ResultOf(cfg, j) == Some(r)
  {
    if jobs != [] {
      var front, last := jobs[..|jobs| - 1], jobs[|jobs| - 1];
      assert jobs == front + [last];
      CollectMember(cfg, front, r);
    }
  }

  /** Two successful schedules of the same scan deliver the same set of results. */
  lemma SchedulesDeliverTheSame(cfg: Config, acts: seq<Action>, bs: seq<Action>)
    requires ValidCLI(cfg)
    requires Execute(cfg, Initial(cfg), acts).Some? && Settled(Execute(cfg, Initial(cfg), acts).value)
    requires Execute(cfg, Initial(cfg), bs).Some? && Settled(Execute(cfg, Initial(cfg), bs).value)
    ensures var s, t := Execute(cfg, Initial(cfg), acts).value, Execute(cfg, Initial(cfg), bs).value;
      && multiset(s.finished) == multiset(t.finished)
      && forall r :: r in s.delivered <==> r in t.delivered
  {
    CompletedMeansEverythingWasProbed(cfg, acts);
    CompletedMeansEverythingWasProbed(cfg, bs);
    var s, t := Execute(cfg, Initial(cfg), acts).value, Execute(cfg, Initial(cfg), bs).value;
    SameMembers(s.finished, t.finished);
    forall r ensures r in s.delivered <==> r in t.delivered {
      CollectMember(cfg, s.finished, r);
      CollectMember(cfg, t.finished, r);
    }
  }
}
