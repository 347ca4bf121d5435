/** The scan pipeline as a transition system: producer, router, TCP and UDP workers, monitor, completion,
    and the coordinator's two receives, over channels, with cancellation possible at any step. */
module Pipeline {
  import opened Wrappers
  import opened Completion
  import opened JobPlan

  datatype ScanResult = ScanResult(
    targetName: string, targetIP: string, port: int, protocol: string, state: string,
    banner: string, osHint: string, certSubject: string, certIssuer: string, sans: seq<string>)

  /** What a successful probe finds out about an endpoint. */
  datatype Finding = Finding(banner: string, osHint: string, certSubject: string, certIssuer: string, sans: seq<string>)

  /** One call of `Run`: the plan of the target stream, the worker count, the rate limit,
      and the probe outcome of every job. */
  datatype Config = Config(jobs: seq<Job>, planErr: Error, workers: nat, rate: nat, probe: Job -> Option<Finding>)

  function Capacity(cfg: Config): nat {
    2 * cfg.workers
  }

  function UdpWorkers(cfg: Config): nat {
    if cfg.workers / 4 < 1 then 1 else cfg.workers / 4
  }

  /** `validateCLI`: at least one worker and a rate of at least one. */
  predicate ValidCLI(cfg: Config) {
    cfg.workers >= 1 && cfg.rate >= 1
  }

  predicate IsUdp(job: Job) {
    job.protocol == "udp"
  }

  predicate SupportedUDPPort(port: int) {
    port == 53 || port == 123 || port == 161
  }

  predicate Unsupported(job: Job) {
    IsUdp(job) && !SupportedUDPPort(job.port)
  }

  /** The result a worker of the given kind sends for a job it probes, if any. */
  function ResultBy(cfg: Config, udp: bool, job: Job): Option<ScanResult> {
    match cfg.probe(job)
    case None => None
    case Some(f) =>
      if udp then
        if !SupportedUDPPort(job.port) then None
        else Some(ScanResult(job.targetName, job.targetIP, job.port, "udp", "open", f.banner, "", "", "", []))
      else
        Some(ScanResult(job.targetName, job.targetIP, job.port, "tcp", "open",
                        f.banner, f.osHint, f.certSubject, f.certIssuer, f.sans))
  }

  function ResultOf(cfg: Config, job: Job): Option<ScanResult> {
    ResultBy(cfg, IsUdp(job), job)
  }

  datatype Channel<T> = Channel(items: seq<T>, closed: bool)

  datatype Producer = Producing | Produced(err: Error) | ProducerSent(err: Error) | ProducerErrClosed(err: Error)
                    | ProducerDone(err: Error)

  datatype Router = Receiving | Holding(job: Job) | Routed(err: Error) | TcpClosed(err: Error) | UdpClosed(err: Error)
                  | RouterSent(err: Error) | RouterDone(err: Error)

  datatype Stage = Idle | Waiting(job: Job) | Probing(job: Job) | Sending(job: Job, result: ScanResult) | Leaving | Exited

  /** A worker and its sticky error (TCP workers have none). */
  datatype Worker = Worker(udp: bool, err: Error, stage: Stage)

  datatype Awaiting =
    | AwaitProducer
    | AwaitRouter(p: Option<Error>)
    | AwaitWorkers(p: Option<Error>, r: Option<Error>)
    | AwaitWorkerErr(p: Option<Error>, r: Option<Error>)
    | Decided(verdict: ScanCompletion)
    | VerdictSent(verdict: ScanCompletion)
    | CompletionDone(verdict: ScanCompletion)

  /** `finished` and `delivered` record the jobs probed to the end and the results received, in order.
      `panicked`: some goroutine sent on or closed a closed channel. */
  datatype State = State(
    cancelled: bool, panicked: bool,
    todo: seq<Job>, producer: Producer, raw: Channel<Job>, producerErr: Channel<Error>,
    router: Router, tcp: Channel<Job>, udp: Channel<Job>, routerErr: Channel<Error>,
    workers: seq<Worker>, workerErr: Channel<Error>,
    monitor: nat, resultsClosed: bool, workersDone: bool,
    completion: Awaiting, verdicts: Channel<ScanCompletion>,
    quiesced: bool, received: Option<ScanCompletion>,
    finished: seq<Job>, delivered: seq<ScanResult>)

  function Initial(cfg: Config): State {
    State(false, false,
          cfg.jobs, Producing, Channel([], false), Channel([], false),
          Receiving, Channel([], false), Channel([], false), Channel([], false),
          seq(cfg.workers + UdpWorkers(cfg), i => Worker(i >= cfg.workers, Nil, Idle)), Channel([], false),
          0, false, false,
          AwaitProducer, Channel([], false),
          false, None,
          [], [])
  }

  datatype Action =
    | Cancel
    | ProducerSend | ProducerAbort | ProducerReturn | ProducerReport | ProducerCloseErr | ProducerCloseRaw
    | RouterReceive | RouterEnd | RouterSend | RouterAbort
    | RouterCloseTcp | RouterCloseUdp | RouterReport | RouterCloseErr
    | Take(i: nat) | QueueEnd(i: nat) | WorkerCancel(i: nat) | Admit(i: nat) | Refuse(i: nat)
    | Probe(i: nat) | ProbeLost(i: nat) | Deliver(i: nat) | Exit(i: nat)
    | MonitorResults | MonitorErrs | MonitorDone
    | CompletionProducer | CompletionRouter | CompletionWorkers | Decide | SendVerdict | CloseVerdicts
    | CoordinatorQuiesce | CoordinatorReceive

  function QueueOf(s: State, udp: bool): Channel<Job> {
    if udp then s.udp else s.tcp
  }

  /** A receive on a channel that may be closed: the value, if there was one. */
  predicate Readable<T>(c: Channel<T>) {
    c.items != [] || c.closed
  }

  function First<T>(c: Channel<T>): Option<T> {
    if c.items != [] then Some(c.items[0]) else None
  }

  function Rest<T>(c: Channel<T>): Channel<T> {
    if c.items != [] then c.(items := c.items[1..]) else c
  }

  /** What a step of the producer makes of its own variables; `panics` if it touches a closed channel. */
  datatype Production = Production(
    todo: seq<Job>, producer: Producer, raw: Channel<Job>, producerErr: Channel<Error>, panics: bool)

  function ProducerStep(cfg: Config, s: State, a: Action): Option<Production> {
    var stay := Production(s.todo, s.producer, s.raw, s.producerErr, false);
    match a
    case ProducerSend =>
      if s.producer.Producing? && s.todo != [] && |s.raw.items| < Capacity(cfg) then
        Some(stay.(todo := s.todo[1..], raw := s.raw.(items := s.raw.items + [s.todo[0]]), panics := s.raw.closed))
      else None
    case ProducerAbort =>
      if s.producer.Producing? && s.cancelled then Some(stay.(producer := Produced([ContextCanceled]))) else None
    case ProducerReturn =>
      if s.producer.Producing? && s.todo == [] then Some(stay.(producer := Produced(cfg.planErr))) else None
    case ProducerReport =>
      if s.producer.Produced? && s.producerErr.items == [] then
        Some(stay.(producer := ProducerSent(s.producer.err), producerErr := s.producerErr.(items := [s.producer.err]),
                   panics := s.producerErr.closed))
      else None
    case ProducerCloseErr =>
      if s.producer.ProducerSent? then
        Some(stay.(producer := ProducerErrClosed(s.producer.err), producerErr := s.producerErr.(closed := true),
                   panics := s.producerErr.closed))
      else None
    case ProducerCloseRaw =>
      if s.producer.ProducerErrClosed? then
        Some(stay.(producer := ProducerDone(s.producer.err), raw := s.raw.(closed := true), panics := s.raw.closed))
      else None
    case _ => None
  }

  function ProducerResult(s: State, step: Option<Production>): Option<State> {
    match step
    case None => None
    case Some(m) =>
      Some(if m.panics then s.(panicked := true)
           else s.(todo := m.todo, producer := m.producer, raw := m.raw, producerErr := m.producerErr))
  }

  function ProducerNext(cfg: Config, s: State, a: Action): Option<State> {
    ProducerResult(s, ProducerStep(cfg, s, a))
  }

  datatype Routing = Routing(
    router: Router, raw: Channel<Job>, tcp: Channel<Job>, udp: Channel<Job>, routerErr: Channel<Error>, panics: bool)

  function RouterStays(s: State): Routing {
    Routing(s.router, s.raw, s.tcp, s.udp, s.routerErr, false)
  }

  function RouterResult(s: State, step: Option<Routing>): Option<State> {
    match step
    case None => None
    case Some(m) =>
      Some(if m.panics then s.(panicked := true)
           else s.(router := m.router, raw := m.raw, tcp := m.tcp, udp := m.udp, routerErr := m.routerErr))
  }

  /** `job` goes to the queue of its protocol. */
  function Route(s: State, job: Job): Routing {
    RouterStays(s).(
      router := Receiving,
      tcp := if IsUdp(job) then s.tcp else s.tcp.(items := s.tcp.items + [job]),
      udp := if IsUdp(job) then s.udp.(items := s.udp.items + [job]) else s.udp,
      panics := QueueOf(s, IsUdp(job)).closed)
  }

  /** `routeJobs`: receive a job, send it to its queue, until `raw` is closed or the context is cancelled. */
  function RouteStep(cfg: Config, s: State, a: Action): Option<Routing> {
    var stay := RouterStays(s);
    match a
    case RouterReceive =>
      if s.router.Receiving? && s.raw.items != [] then
        Some(stay.(router := Holding(s.raw.items[0]), raw := s.raw.(items := s.raw.items[1..])))
      else None
    case RouterEnd =>
      if s.router.Receiving? && s.raw.items == [] && s.raw.closed then Some(stay.(router := Routed(Nil))) else None
    case RouterSend =>
      if s.router.Holding? && |QueueOf(s, IsUdp(s.router.job)).items| < Capacity(cfg) then Some(Route(s, s.router.job))
      else None
    case RouterAbort =>
      if (s.router.Receiving? || s.router.Holding?) && s.cancelled then Some(stay.(router := Routed([ContextCanceled])))
      else None
    case _ => None
  }

  function RouterMove(cfg: Config, s: State, a: Action): Option<State> {
    RouterResult(s, RouteStep(cfg, s, a))
  }

  /** After `routeJobs`: close both queues, report the error, close the report. */
  function WindDownStep(s: State, a: Action): Option<Routing> {
    var stay := RouterStays(s);
    match a
    case RouterCloseTcp =>
      if s.router.Routed? then
        Some(stay.(router := TcpClosed(s.router.err), tcp := s.tcp.(closed := true), panics := s.tcp.closed))
      else None
    case RouterCloseUdp =>
      if s.router.TcpClosed? then
        Some(stay.(router := UdpClosed(s.router.err), udp := s.udp.(closed := true), panics := s.udp.closed))
      else None
    case RouterReport =>
      if s.router.UdpClosed? && s.routerErr.items == [] then
        Some(stay.(router := RouterSent(s.router.err), routerErr := s.routerErr.(items := [s.router.err]),
                   panics := s.routerErr.closed))
      else None
    case RouterCloseErr =>
      if s.router.RouterSent? then
        Some(stay.(router := RouterDone(s.router.err), routerErr := s.routerErr.(closed := true),
                   panics := s.routerErr.closed))
      else None
    case _ => None
  }

  function RouterWindDown(s: State, a: Action): Option<State> {
    RouterResult(s, WindDownStep(s, a))
  }

  function RouterNext(cfg: Config, s: State, a: Action): Option<State> {
    if s.router.Receiving? || s.router.Holding? then RouterMove(cfg, s, a) else RouterWindDown(s, a)
  }

  /** The error a worker leaves with. TCP workers return nothing. */
  function LeavingWith(w: Worker, err: Error): Worker {
    w.(stage := Leaving, err := if w.udp then err else Nil)
  }

  /** After probing: the first unsupported UDP port sticks as the worker's error. */
  function AfterProbe(w: Worker, job: Job): Worker {
    w.(stage := Idle,
       err := if w.udp && !SupportedUDPPort(job.port) && w.err == Nil then [UnsupportedUDPPort(job.port)] else w.err)
  }

  /** What one worker step does: the worker's next state, the job it takes from its queue, what is left in the
      worker-error channel, the jobs it finishes and the results it hands over. */
  datatype Effect = Effect(
    worker: Worker, takes: bool, workerErr: Channel<Error>, done: seq<Job>, sent: seq<ScanResult>, panics: bool)

  /** The worker loops: take a job, wait for a token, probe, send at most one result; leave on a closed queue,
      on cancellation, or when the limiter refuses. */
  function WorkerStep(cfg: Config, s: State, w: Worker, a: Action): Option<Effect> {
    var q := QueueOf(s, w.udp);
    var stay := Effect(w, false, s.workerErr, [], [], false);
    match a
    case Take(_) =>
      if w.stage.Idle? && q.items != [] then
        Some(stay.(worker := w.(stage := Waiting(q.items[0])), takes := true))
      else None
    case QueueEnd(_) =>
      if w.stage.Idle? && q.items == [] && q.closed then Some(stay.(worker := w.(stage := Leaving))) else None
    case WorkerCancel(_) =>
      if w.stage.Idle? && s.cancelled then Some(stay.(worker := LeavingWith(w, [ContextCanceled]))) else None
    case Admit(_) =>
      if w.stage.Waiting? && cfg.rate >= 1 then Some(stay.(worker := w.(stage := Probing(w.stage.job)))) else None
    case Refuse(_) =>
      if w.stage.Waiting? && (s.cancelled || cfg.rate < 1) then
        Some(stay.(worker := LeavingWith(w, if s.cancelled then [ContextCanceled] else [LimiterRefused])))
      else None
    case Probe(_) =>
      if w.stage.Probing? then
        match ResultBy(cfg, w.udp, w.stage.job)
        case Some(r) => Some(stay.(worker := w.(stage := Sending(w.stage.job, r))))
        case None => Some(stay.(worker := AfterProbe(w, w.stage.job), done := [w.stage.job]))
      else None
    case ProbeLost(_) =>
      if w.stage.Probing? && s.cancelled && !w.udp then Some(stay.(worker := w.(stage := Idle))) else None
    case Deliver(_) =>
      if w.stage.Sending? && !s.quiesced then
        Some(stay.(worker := w.(stage := Idle), done := [w.stage.job], sent := [w.stage.result], panics := s.resultsClosed))
      else None
    case Exit(_) =>
      if w.stage.Leaving? then
        if w.err == Nil || s.workerErr.items != [] then Some(stay.(worker := w.(stage := Exited)))
        else Some(stay.(worker := w.(stage := Exited), workerErr := s.workerErr.(items := [w.err]),
                        panics := s.workerErr.closed))
      else None
    case _ => None
  }

  function Apply(s: State, i: nat, e: Effect): State
    requires i < |s.workers|
  {
    var udp := s.workers[i].udp;
    s.(tcp := if e.takes && !udp then Rest(s.tcp) else s.tcp,
       udp := if e.takes && udp then Rest(s.udp) else s.udp,
       workers := s.workers[i := e.worker], workerErr := e.workerErr,
       finished := s.finished + e.done, delivered := s.delivered + e.sent)
  }

  function WorkerNext(cfg: Config, s: State, i: nat, a: Action): Option<State>
    requires i < |s.workers|
  {
    match WorkerStep(cfg, s, s.workers[i], a)
    case None => None
    case Some(e) => Some(if e.panics then s.(panicked := true) else Apply(s, i, e))
  }

  predicate AllExited(s: State) {
    forall i | 0 <= i < |s.workers| :: s.workers[i].stage.Exited?
  }

  function MonitorNext(s: State, a: Action): Option<State> {
    match a
    case MonitorResults =>
      if s.monitor == 0 && AllExited(s) then
        if s.resultsClosed then Some(s.(panicked := true)) else Some(s.(monitor := 1, resultsClosed := true))
      else None
    case MonitorErrs =>
      if s.monitor == 1 then
        if s.workerErr.closed then Some(s.(panicked := true))
        else Some(s.(monitor := 2, workerErr := s.workerErr.(closed := true)))
      else None
    case MonitorDone =>
      if s.monitor == 2 then
        if s.workersDone then Some(s.(panicked := true)) else Some(s.(monitor := 3, workersDone := true))
      else None
    case _ => None
  }

  /** `awaitScannerCompletion`, once every outcome is in. */
  function Classify(cancelled: bool, p: Option<Error>, r: Option<Error>, w: Option<Error>): ScanCompletion {
    if p.None? || r.None? then ScanCompletion(NoStatus, Nil)
    else if cancelled then ScanCompletion(Cancelled, [ContextCanceled])
    else if p.value != Nil then FromProducerError(p.value)
    else if r.value != Nil then ScanCompletion(NoStatus, r.value)
    else if w.Some? && w.value != Nil then ScanCompletion(WorkerFailed, w.value)
    else ScanCompletion(Completed, Nil)
  }

  datatype Judgement = Judgement(
    completion: Awaiting, producerErr: Channel<Error>, routerErr: Channel<Error>, workerErr: Channel<Error>,
    verdicts: Channel<ScanCompletion>, panics: bool)

  function CompletionStep(s: State, a: Action): Option<Judgement> {
    var stay := Judgement(s.completion, s.producerErr, s.routerErr, s.workerErr, s.verdicts, false);
    match a
    case CompletionProducer =>
      if s.completion.AwaitProducer? && Readable(s.producerErr) then
        Some(stay.(completion := AwaitRouter(First(s.producerErr)), producerErr := Rest(s.producerErr)))
      else None
    case CompletionRouter =>
      if s.completion.AwaitRouter? && Readable(s.routerErr) then
        Some(stay.(completion := AwaitWorkers(s.completion.p, First(s.routerErr)), routerErr := Rest(s.routerErr)))
      else None
    case CompletionWorkers =>
      if s.completion.AwaitWorkers? && s.workersDone then
        Some(stay.(completion := AwaitWorkerErr(s.completion.p, s.completion.r)))
      else None
    case Decide =>
      if s.completion.AwaitWorkerErr? && Readable(s.workerErr) then
        Some(stay.(completion := Decided(Classify(s.cancelled, s.completion.p, s.completion.r, First(s.workerErr))),
                   workerErr := Rest(s.workerErr)))
      else None
    case SendVerdict =>
      if s.completion.Decided? && s.verdicts.items == [] then
        Some(stay.(completion := VerdictSent(s.completion.verdict),
                   verdicts := s.verdicts.(items := [s.completion.verdict]), panics := s.verdicts.closed))
      else None
    case CloseVerdicts =>
      if s.completion.VerdictSent? then
        Some(stay.(completion := CompletionDone(s.completion.verdict), verdicts := s.verdicts.(closed := true),
                   panics := s.verdicts.closed))
      else None
    case _ => None
  }

  function CompletionNext(s: State, a: Action): Option<State> {
    match CompletionStep(s, a)
    case None => None
    case Some(m) =>
      Some(if m.panics then s.(panicked := true)
           else s.(completion := m.completion, producerErr := m.producerErr, routerErr := m.routerErr,
                   workerErr := m.workerErr, verdicts := m.verdicts))
  }

  function CoordinatorNext(s: State, a: Action): Option<State> {
    match a
    case CoordinatorQuiesce =>
      if !s.quiesced && s.resultsClosed then Some(s.(quiesced := true)) else None
    case CoordinatorReceive =>
      if s.received.None? && s.verdicts.items != [] then
        Some(s.(received := Some(s.verdicts.items[0]), verdicts := Rest(s.verdicts)))
      else None
    case _ => None
  }

  function WorkerOf(a: Action): Option<nat> {
    match a
    case Take(i) => Some(i)
    case QueueEnd(i) => Some(i)
    case WorkerCancel(i) => Some(i)
    case Admit(i) => Some(i)
    case Refuse(i) => Some(i)
    case Probe(i) => Some(i)
    case ProbeLost(i) => Some(i)
    case Deliver(i) => Some(i)
    case Exit(i) => Some(i)
    case _ => None
  }

  datatype Process = Outside | ProducerP | RouterP | WorkerP | MonitorP | CompletionP | CoordinatorP

  function ProcessOf(a: Action): Process {
    if a.Cancel? then Outside
    else if WorkerOf(a).Some? then WorkerP
    else if a.ProducerSend? || a.ProducerAbort? || a.ProducerReturn? || a.ProducerReport? || a.ProducerCloseErr?
            || a.ProducerCloseRaw? then ProducerP
    else if a.MonitorResults? || a.MonitorErrs? || a.MonitorDone? then MonitorP
    else if a.CoordinatorQuiesce? || a.CoordinatorReceive? then CoordinatorP
    else if a.CompletionProducer? || a.CompletionRouter? || a.CompletionWorkers? || a.Decide? || a.SendVerdict?
            || a.CloseVerdicts? then CompletionP
    else RouterP
  }

  /** One step of the system; `None` when the action is not possible. Nothing happens after a panic. */
  function Next(cfg: Config, s: State, a: Action): Option<State> {
    if s.panicked then None else
    match ProcessOf(a)
    case Outside => if s.cancelled then None else Some(s.(cancelled := true))
    case ProducerP => ProducerNext(cfg, s, a)
    case RouterP => RouterNext(cfg, s, a)
    case WorkerP =>
      var i := WorkerOf(a).value;
      if i < |s.workers| then WorkerNext(cfg, s, i, a) else None
    case MonitorP => MonitorNext(s, a)
    case CompletionP => CompletionNext(s, a)
    case CoordinatorP => CoordinatorNext(s, a)
  }

  /** `s` after a sequence of actions, if each was possible in turn. */
  function Execute(cfg: Config, s: State, acts: seq<Action>): Option<State>
    decreases |acts|
  {
    if acts == [] then Some(s)
    else
      var next := Next(cfg, s, acts[0]);
      if next.None? then None else Execute(cfg, next.value, acts[1..])
  }

  /** Every goroutine has returned and the coordinator has both of its answers. */
  predicate Final(s: State) {
    && s.producer.ProducerDone? && s.router.RouterDone? && s.monitor == 3 && AllExited(s)
    && s.completion.CompletionDone? && s.quiesced && s.received.Some?
  }

  predicate HasVerdict(s: State) {
    s.completion.Decided? || s.completion.VerdictSent? || s.completion.CompletionDone?
  }
}
