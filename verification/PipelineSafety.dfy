/** Channel safety, progress and termination of the pipeline. */
module PipelineSafety {
  import opened Wrappers
  import opened Pipeline

  // ---------------------------------------------------------------- channel ownership

  predicate ProducerPast(s: State) {
    s.producer.ProducerSent? || s.producer.ProducerErrClosed? || s.producer.ProducerDone?
  }

  predicate RouterPast(s: State) {
    s.router.RouterSent? || s.router.RouterDone?
  }

  predicate PastProducer(s: State) {
    !s.completion.AwaitProducer?
  }

  predicate PastRouter(s: State) {
    PastProducer(s) && !s.completion.AwaitRouter?
  }

  predicate PastWorkers(s: State) {
    PastRouter(s) && !s.completion.AwaitWorkers?
  }

  /** The producer owns `raw` and its error channel, which carries its error until completion reads it. */
  ghost predicate ProducerOwns(s: State) {
    && (s.raw.closed <==> s.producer.ProducerDone?)
    && (s.producerErr.closed <==> s.producer.ProducerErrClosed? || s.producer.ProducerDone?)
    && s.producerErr.items == (if ProducerPast(s) && !PastProducer(s) then [s.producer.err] else [])
    && (PastProducer(s) ==> ProducerPast(s))
    && (s.completion.AwaitRouter? || s.completion.AwaitWorkers? || s.completion.AwaitWorkerErr?
        ==> s.completion.p == Some(s.producer.err))
  }

  ghost predicate RouterOwns(s: State) {
    && (s.tcp.closed <==> !s.router.Receiving? && !s.router.Holding? && !s.router.Routed?)
    && (s.udp.closed <==> s.router.UdpClosed? || RouterPast(s))
    && (s.routerErr.closed <==> s.router.RouterDone?)
    && s.routerErr.items == (if RouterPast(s) && !PastRouter(s) then [s.router.err] else [])
    && (PastRouter(s) ==> RouterPast(s))
    && (s.completion.AwaitWorkers? || s.completion.AwaitWorkerErr? ==> s.completion.r == Some(s.router.err))
  }

  ghost predicate MonitorOwns(s: State) {
    && s.monitor <= 3
    && (s.monitor >= 1 ==> AllExited(s))
    && (s.resultsClosed <==> s.monitor >= 1)
    && (s.workerErr.closed <==> s.monitor >= 2)
    && (s.workersDone <==> s.monitor >= 3)
    && (PastWorkers(s) ==> s.monitor == 3)
    && (s.quiesced ==> s.resultsClosed)
    && |s.workerErr.items| <= 1
    && (HasVerdict(s) ==> s.workerErr.items == [])
  }

  ghost predicate CompletionOwns(s: State) {
    && (s.verdicts.closed <==> s.completion.CompletionDone?)
    && s.verdicts.items ==
       (if (s.completion.VerdictSent? || s.completion.CompletionDone?) && s.received.None? then [s.completion.verdict] else [])
    && (s.received.Some? ==> (s.completion.VerdictSent? || s.completion.CompletionDone?)
                             && s.received.value == s.completion.verdict)
  }

  /** No goroutine has touched a channel it may not touch. */
  ghost predicate Owned(s: State) {
    !s.panicked && ProducerOwns(s) && RouterOwns(s) && MonitorOwns(s) && CompletionOwns(s)
  }

  lemma ProducerDoesNotPanic(cfg: Config, s: State, a: Action)
    requires ProducerOwns(s) && ProducerStep(cfg, s, a).Some?
    ensures !ProducerStep(cfg, s, a).value.panics
  {
  }

  lemma ProducerKeepsChannels(cfg: Config, s: State, a: Action)
    requires !s.panicked && ProducerOwns(s) && ProducerNext(cfg, s, a).Some?
    ensures var t := ProducerNext(cfg, s, a).value; !t.panicked && ProducerOwns(t)
  {
    ProducerDoesNotPanic(cfg, s, a);
    assert ProducerPast(s) ==> a.ProducerCloseErr? || a.ProducerCloseRaw?;
  }

  lemma ProducerKeepsOwned(cfg: Config, s: State, a: Action)
    requires Owned(s) && ProducerNext(cfg, s, a).Some?
    ensures Owned(ProducerNext(cfg, s, a).value)
  {
    ProducerKeepsChannels(cfg, s, a);
    ProducerFrame(cfg, s, a);
  }

  /** Routing touches `raw` and the two queues, and closes none of them. */
  lemma RouterMoveShape(cfg: Config, s: State, a: Action)
    requires !s.panicked && !s.tcp.closed && !s.udp.closed && RouterMove(cfg, s, a).Some?
    ensures var t := RouterMove(cfg, s, a).value;
      && t == s.(router := t.router, raw := t.raw, tcp := t.tcp, udp := t.udp)
      && t.raw.closed == s.raw.closed && !t.tcp.closed && !t.udp.closed
      && (t.router.Receiving? || t.router.Holding? || t.router.Routed?)
  {
  }

  lemma RouterMoveKeepsOwned(cfg: Config, s: State, a: Action)
    requires Owned(s) && RouterMove(cfg, s, a).Some? && (s.router.Receiving? || s.router.Holding?)
    ensures Owned(RouterMove(cfg, s, a).value)
  {
    RouterMoveShape(cfg, s, a);
  }

  lemma WindDownDoesNotPanic(s: State, a: Action)
    requires RouterOwns(s) && WindDownStep(s, a).Some?
    ensures !WindDownStep(s, a).value.panics && WindDownStep(s, a).value.raw == s.raw
  {
  }

  lemma WindDownKeepsChannels(s: State, a: Action)
    requires RouterOwns(s) && RouterWindDown(s, a).Some? && !WindDownStep(s, a).value.panics
    ensures RouterOwns(RouterWindDown(s, a).value)
  {
  }

  lemma RouterWindDownKeepsOwned(s: State, a: Action)
    requires Owned(s) && RouterWindDown(s, a).Some?
    ensures Owned(RouterWindDown(s, a).value)
  {
    WindDownDoesNotPanic(s, a);
    WindDownKeepsChannels(s, a);
  }

  lemma RouterKeepsOwned(cfg: Config, s: State, a: Action)
    requires Owned(s) && RouterNext(cfg, s, a).Some?
    ensures Owned(RouterNext(cfg, s, a).value)
  {
    if s.router.Receiving? || s.router.Holding? {
      RouterMoveKeepsOwned(cfg, s, a);
    } else {
      RouterWindDownKeepsOwned(s, a);
    }
  }

  /** While a worker has not exited, the monitor waits. */
  lemma WorkerDoesNotPanic(cfg: Config, s: State, i: nat, a: Action)
    requires Owned(s) && i < |s.workers| && WorkerStep(cfg, s, s.workers[i], a).Some?
    ensures var e := WorkerStep(cfg, s, s.workers[i], a).value;
      && !e.panics && s.monitor == 0
      && e.workerErr.closed == s.workerErr.closed && |e.workerErr.items| <= 1
  {
    assert !s.workers[i].stage.Exited?;
  }

  lemma WorkerKeepsOwned(cfg: Config, s: State, i: nat, a: Action)
    requires Owned(s) && i < |s.workers| && WorkerNext(cfg, s, i, a).Some?
    ensures Owned(WorkerNext(cfg, s, i, a).value)
  {
    WorkerDoesNotPanic(cfg, s, i, a);
    var e := WorkerStep(cfg, s, s.workers[i], a).value;
    ApplyKeepsOwned(s, i, e);
  }

  lemma ApplyKeepsOwned(s: State, i: nat, e: Effect)
    requires Owned(s) && i < |s.workers| && s.monitor == 0
    requires e.workerErr.closed == s.workerErr.closed && |e.workerErr.items| <= 1
    ensures Owned(Apply(s, i, e))
  {
  }

  lemma CompletionDoesNotPanic(s: State, a: Action)
    requires CompletionOwns(s) && CompletionStep(s, a).Some?
    ensures !CompletionStep(s, a).value.panics
  {
  }

  lemma CompletionKeepsReports(s: State, a: Action)
    requires ProducerOwns(s) && RouterOwns(s) && CompletionNext(s, a).Some? && !CompletionStep(s, a).value.panics
    ensures ProducerOwns(CompletionNext(s, a).value) && RouterOwns(CompletionNext(s, a).value)
  {
  }

  lemma CompletionKeepsVerdict(s: State, a: Action)
    requires MonitorOwns(s) && CompletionOwns(s) && CompletionNext(s, a).Some? && !CompletionStep(s, a).value.panics
    ensures MonitorOwns(CompletionNext(s, a).value) && CompletionOwns(CompletionNext(s, a).value)
  {
  }

  lemma CompletionKeepsOwned(s: State, a: Action)
    requires Owned(s) && CompletionNext(s, a).Some?
    ensures Owned(CompletionNext(s, a).value)
  {
    CompletionDoesNotPanic(s, a);
    CompletionKeepsReports(s, a);
    CompletionKeepsVerdict(s, a);
  }

  lemma MonitorKeepsOwned(s: State, a: Action)
    requires Owned(s) && MonitorNext(s, a).Some?
    ensures Owned(MonitorNext(s, a).value)
  {
  }

  lemma CoordinatorKeepsOwned(s: State, a: Action)
    requires Owned(s) && CoordinatorNext(s, a).Some?
    ensures Owned(CoordinatorNext(s, a).value)
  {
  }

  lemma StepKeepsOwned(cfg: Config, s: State, a: Action)
    requires Owned(s) && Next(cfg, s, a).Some?
    ensures Owned(Next(cfg, s, a).value)
  {
    match ProcessOf(a)
    case Outside =>
    case ProducerP => ProducerKeepsOwned(cfg, s, a);
    case RouterP => RouterKeepsOwned(cfg, s, a);
    case WorkerP => WorkerKeepsOwned(cfg, s, WorkerOf(a).value, a);
    case MonitorP => MonitorKeepsOwned(s, a);
    case CompletionP => CompletionKeepsOwned(s, a);
    case CoordinatorP => CoordinatorKeepsOwned(s, a);
  }

  /** In no interleaving is a channel sent on after it is closed, or closed twice. */
  lemma {:induction false} ChannelsAreSafe(cfg: Config, s: State, acts: seq<Action>)
    requires Owned(s) && Execute(cfg, s, acts).Some?
    ensures Owned(Execute(cfg, s, acts).value)
    decreases |acts|
  {
    if acts != [] {
      StepKeepsOwned(cfg, s, acts[0]);
      ChannelsAreSafe(cfg, Next(cfg, s, acts[0]).value, acts[1..]);
    }
  }

  /** And when everything has returned, every channel has been closed. */
  lemma FinalStateClosesEverything(cfg: Config, acts: seq<Action>)
    requires Execute(cfg, Initial(cfg), acts).Some?
    ensures var s := Execute(cfg, Initial(cfg), acts).value;
      && !s.panicked
      && (Final(s) ==> s.raw.closed && s.producerErr.closed && s.tcp.closed && s.udp.closed && s.routerErr.closed
                       && s.resultsClosed && s.workerErr.closed && s.workersDone && s.verdicts.closed
                       && s.received == Some(s.completion.verdict))
  {
    ChannelsAreSafe(cfg, Initial(cfg), acts);
  }

  // ---------------------------------------------------------------- bounded buffers

  /** No buffer holds more than twice as many jobs as there are TCP workers, or more than one report. */
  predicate Bounded(cfg: Config, s: State) {
    && |s.raw.items| <= 2 * cfg.workers && |s.tcp.items| <= 2 * cfg.workers && |s.udp.items| <= 2 * cfg.workers
    && |s.producerErr.items| <= 1 && |s.routerErr.items| <= 1 && |s.workerErr.items| <= 1 && |s.verdicts.items| <= 1
  }

  lemma RouteIsBounded(cfg: Config, s: State, a: Action)
    requires Bounded(cfg, s) && RouteStep(cfg, s, a).Some? && !RouteStep(cfg, s, a).value.panics
    ensures var m := RouteStep(cfg, s, a).value;
      && |m.raw.items| <= |s.raw.items| && |m.tcp.items| <= 2 * cfg.workers && |m.udp.items| <= 2 * cfg.workers
      && m.routerErr == s.routerErr
  {
  }

  lemma WindDownIsBounded(s: State, a: Action)
    requires WindDownStep(s, a).Some?
    ensures var m := WindDownStep(s, a).value;
      && m.raw.items == s.raw.items && m.tcp.items == s.tcp.items && m.udp.items == s.udp.items
      && (|m.routerErr.items| <= 1 || m.routerErr.items == s.routerErr.items)
  {
  }

  lemma RoutingIsBounded(cfg: Config, s: State, m: Routing)
    requires Bounded(cfg, s) && |m.raw.items| <= |s.raw.items| && |m.routerErr.items| <= 1
    requires |m.tcp.items| <= 2 * cfg.workers && |m.udp.items| <= 2 * cfg.workers
    ensures Bounded(cfg, RouterResult(s, Some(m)).value)
  {
  }

  lemma RouterKeepsBounded(cfg: Config, s: State, a: Action)
    requires Bounded(cfg, s) && RouterNext(cfg, s, a).Some?
    ensures Bounded(cfg, RouterNext(cfg, s, a).value)
  {
    if s.router.Receiving? || s.router.Holding? {
      if !RouteStep(cfg, s, a).value.panics {
        RouteIsBounded(cfg, s, a);
        RoutingIsBounded(cfg, s, RouteStep(cfg, s, a).value);
      }
    } else {
      WindDownIsBounded(s, a);
      RoutingIsBounded(cfg, s, WindDownStep(s, a).value);
    }
  }

  lemma ProducerIsBounded(cfg: Config, s: State, a: Action)
    requires Bounded(cfg, s) && ProducerStep(cfg, s, a).Some?
    ensures var m := ProducerStep(cfg, s, a).value; |m.raw.items| <= 2 * cfg.workers && |m.producerErr.items| <= 1
  {
  }

  lemma ProductionIsBounded(cfg: Config, s: State, m: Production)
    requires Bounded(cfg, s) && |m.raw.items| <= 2 * cfg.workers && |m.producerErr.items| <= 1
    ensures Bounded(cfg, s.(panicked := true))
    ensures Bounded(cfg, s.(todo := m.todo, producer := m.producer, raw := m.raw, producerErr := m.producerErr))
  {
  }

  lemma ProducerKeepsBounded(cfg: Config, s: State, a: Action)
    requires Bounded(cfg, s) && ProducerNext(cfg, s, a).Some?
    ensures Bounded(cfg, ProducerNext(cfg, s, a).value)
  {
    ProducerIsBounded(cfg, s, a);
    ProductionIsBounded(cfg, s, ProducerStep(cfg, s, a).value);
  }

  lemma CompletionIsBounded(cfg: Config, s: State, a: Action)
    requires Bounded(cfg, s) && CompletionStep(s, a).Some?
    ensures var m := CompletionStep(s, a).value;
      && |m.producerErr.items| <= 1 && |m.routerErr.items| <= 1 && |m.workerErr.items| <= 1 && |m.verdicts.items| <= 1
  {
  }

  lemma JudgementIsBounded(cfg: Config, s: State, m: Judgement)
    requires Bounded(cfg, s) && |m.producerErr.items| <= 1 && |m.routerErr.items| <= 1
    requires |m.workerErr.items| <= 1 && |m.verdicts.items| <= 1
    ensures Bounded(cfg, s.(panicked := true))
    ensures Bounded(cfg, s.(completion := m.completion, producerErr := m.producerErr, routerErr := m.routerErr,
                            workerErr := m.workerErr, verdicts := m.verdicts))
  {
  }

  lemma CompletionKeepsBounded(cfg: Config, s: State, a: Action)
    requires Bounded(cfg, s) && CompletionNext(s, a).Some?
    ensures Bounded(cfg, CompletionNext(s, a).value)
  {
    CompletionIsBounded(cfg, s, a);
    JudgementIsBounded(cfg, s, CompletionStep(s, a).value);
  }

  lemma EffectIsBounded(cfg: Config, s: State, w: Worker, a: Action)
    requires Bounded(cfg, s) && WorkerStep(cfg, s, w, a).Some?
    ensures |WorkerStep(cfg, s, w, a).value.workerErr.items| <= 1
  {
  }

  lemma ApplyKeepsBounded(cfg: Config, s: State, i: nat, e: Effect)
    requires Bounded(cfg, s) && i < |s.workers| && |e.workerErr.items| <= 1
    ensures Bounded(cfg, Apply(s, i, e))
  {
  }

  lemma WorkerKeepsBounded(cfg: Config, s: State, i: nat, a: Action)
    requires Bounded(cfg, s) && i < |s.workers| && WorkerNext(cfg, s, i, a).Some?
    ensures Bounded(cfg, WorkerNext(cfg, s, i, a).value)
  {
    EffectIsBounded(cfg, s, s.workers[i], a);
    ApplyKeepsBounded(cfg, s, i, WorkerStep(cfg, s, s.workers[i], a).value);
  }

  lemma StepKeepsBounded(cfg: Config, s: State, a: Action)
    requires Bounded(cfg, s) && Next(cfg, s, a).Some?
    ensures Bounded(cfg, Next(cfg, s, a).value)
  {
    match ProcessOf(a)
    case Outside =>
    case ProducerP => ProducerKeepsBounded(cfg, s, a);
    case RouterP => RouterKeepsBounded(cfg, s, a);
    case WorkerP => WorkerKeepsBounded(cfg, s, WorkerOf(a).value, a);
    case MonitorP =>
    case CompletionP => CompletionKeepsBounded(cfg, s, a);
    case CoordinatorP =>
  }

  /** In no interleaving does a buffer outgrow its capacity. */
  lemma {:induction false} BuffersAreBounded(cfg: Config, s: State, acts: seq<Action>)
    requires Bounded(cfg, s) && Execute(cfg, s, acts).Some?
    ensures Bounded(cfg, Execute(cfg, s, acts).value)
    decreases |acts|
  {
    if acts != [] {
      StepKeepsBounded(cfg, s, acts[0]);
      BuffersAreBounded(cfg, Next(cfg, s, acts[0]).value, acts[1..]);
    }
  }

  // ---------------------------------------------------------------- termination

  function StageWeight(g: Stage): nat {
    match g
    case Exited => 0
    case Leaving => 1
    case Idle => 2
    case Sending(_, _) => 3
    case Probing(_) => 4
    case Waiting(_) => 5
  }

  function Load(ws: seq<Worker>): nat {
    if ws == [] then 0 else StageWeight(ws[0].stage) + Load(ws[1..])
  }

  lemma {:induction false} LoadUpdate(ws: seq<Worker>, i: nat, w: Worker)
    requires i < |ws|
    ensures Load(ws[i := w]) + StageWeight(ws[i].stage) == Load(ws) + StageWeight(w.stage)
  {
    if i > 0 {
      assert ws[i := w][1..] == ws[1..][i - 1 := w];
      LoadUpdate(ws[1..], i - 1, w);
    } else {
      assert ws[i := w][1..] == ws[1..];
    }
  }

  function ProducerWeight(p: Producer): nat {
    match p
    case Producing => 5
    case Produced(_) => 4
    case ProducerSent(_) => 3
    case ProducerErrClosed(_) => 2
    case ProducerDone(_) => 1
  }

  function RouterWeight(r: Router): nat {
    match r
    case Holding(_) => 11
    case Receiving => 6
    case Routed(_) => 5
    case TcpClosed(_) => 4
    case UdpClosed(_) => 3
    case RouterSent(_) => 2
    case RouterDone(_) => 1
  }

  function CompletionWeight(c: Awaiting): nat {
    match c
    case AwaitProducer => 6
    case AwaitRouter(_) => 5
    case AwaitWorkers(_, _) => 4
    case AwaitWorkerErr(_, _) => 3
    case Decided(_) => 2
    case VerdictSent(_) => 1
    case CompletionDone(_) => 0
  }

  function FlagWeight(s: State): nat {
    (if s.monitor <= 3 then 3 - s.monitor else 0)
    + (if s.cancelled then 0 else 1) + (if s.quiesced then 0 else 1) + (if s.received.Some? then 0 else 1)
  }

  /** A bound on the steps left: every job still has so many stages to go, every goroutine so many statements. */
  function Measure(s: State): nat {
    7 * |s.todo| + 6 * |s.raw.items| + 4 * |s.tcp.items| + 4 * |s.udp.items| + Load(s.workers)
    + ProducerWeight(s.producer) + RouterWeight(s.router) + CompletionWeight(s.completion)
    + FlagWeight(s)
  }

  /** What a worker step weighs: its own stage, and the job it may take from its queue. */
  lemma EffectDecreases(cfg: Config, s: State, w: Worker, a: Action)
    requires WorkerStep(cfg, s, w, a).Some?
    ensures var e := WorkerStep(cfg, s, w, a).value;
      && StageWeight(e.worker.stage) < StageWeight(w.stage) + (if e.takes then 4 else 0)
      && (e.takes ==> QueueOf(s, w.udp).items != [])
  {
  }

  lemma ApplyDecreases(s: State, i: nat, e: Effect)
    requires i < |s.workers|
    requires StageWeight(e.worker.stage) < StageWeight(s.workers[i].stage) + (if e.takes then 4 else 0)
    requires e.takes ==> QueueOf(s, s.workers[i].udp).items != []
    ensures Measure(Apply(s, i, e)) < Measure(s)
  {
    LoadUpdate(s.workers, i, e.worker);
    var t := Apply(s, i, e);
    assert |t.tcp.items| + |t.udp.items| + (if e.takes then 1 else 0) == |s.tcp.items| + |s.udp.items|;
  }

  lemma WorkerDecreases(cfg: Config, s: State, i: nat, a: Action)
    requires i < |s.workers| && WorkerNext(cfg, s, i, a).Some? && !WorkerNext(cfg, s, i, a).value.panicked
    ensures Measure(WorkerNext(cfg, s, i, a).value) < Measure(s)
  {
    EffectDecreases(cfg, s, s.workers[i], a);
    ApplyDecreases(s, i, WorkerStep(cfg, s, s.workers[i], a).value);
  }

  lemma ProducerFrame(cfg: Config, s: State, a: Action)
    requires ProducerNext(cfg, s, a).Some? && !ProducerNext(cfg, s, a).value.panicked
    ensures var t := ProducerNext(cfg, s, a).value;
      t == s.(todo := t.todo, producer := t.producer, raw := t.raw, producerErr := t.producerErr)
  {
  }

  lemma ProducerGetsLighter(cfg: Config, s: State, a: Action)
    requires ProducerNext(cfg, s, a).Some? && !ProducerNext(cfg, s, a).value.panicked
    ensures var t := ProducerNext(cfg, s, a).value;
      7 * |t.todo| + 6 * |t.raw.items| + ProducerWeight(t.producer)
      < 7 * |s.todo| + 6 * |s.raw.items| + ProducerWeight(s.producer)
  {
  }

  lemma RouterMoveFrame(cfg: Config, s: State, a: Action)
    requires RouterMove(cfg, s, a).Some? && !RouterMove(cfg, s, a).value.panicked
    ensures var t := RouterMove(cfg, s, a).value;
      && t == s.(router := t.router, raw := t.raw, tcp := t.tcp, udp := t.udp)
      && 6 * |t.raw.items| + 4 * |t.tcp.items| + 4 * |t.udp.items| + RouterWeight(t.router)
         < 6 * |s.raw.items| + 4 * |s.tcp.items| + 4 * |s.udp.items| + RouterWeight(s.router)
  {
  }

  lemma RouterWindDownFrame(s: State, a: Action)
    requires RouterWindDown(s, a).Some? && !RouterWindDown(s, a).value.panicked
    ensures var t := RouterWindDown(s, a).value;
      && t == s.(router := t.router, tcp := t.tcp, udp := t.udp, routerErr := t.routerErr)
      && t.tcp.items == s.tcp.items && t.udp.items == s.udp.items
      && RouterWeight(t.router) < RouterWeight(s.router)
  {
  }

  lemma CompletionFrame(s: State, a: Action)
    requires CompletionNext(s, a).Some? && !CompletionNext(s, a).value.panicked
    ensures var t := CompletionNext(s, a).value;
      t == s.(completion := t.completion, producerErr := t.producerErr, routerErr := t.routerErr,
                 workerErr := t.workerErr, verdicts := t.verdicts)
  {
  }

  lemma CompletionGetsLighter(s: State, a: Action)
    requires CompletionNext(s, a).Some? && !CompletionNext(s, a).value.panicked
    ensures CompletionWeight(CompletionNext(s, a).value.completion) < CompletionWeight(s.completion)
  {
  }

  lemma MonitorFrame(s: State, a: Action)
    requires MonitorNext(s, a).Some? && !MonitorNext(s, a).value.panicked
    ensures var t := MonitorNext(s, a).value;
      && t == s.(monitor := t.monitor, resultsClosed := t.resultsClosed, workersDone := t.workersDone, workerErr := t.workerErr)
      && FlagWeight(t) < FlagWeight(s)
  {
  }

  lemma CoordinatorFrame(s: State, a: Action)
    requires CoordinatorNext(s, a).Some?
    ensures var t := CoordinatorNext(s, a).value;
      && t == s.(quiesced := t.quiesced, received := t.received, verdicts := t.verdicts)
      && FlagWeight(t) < FlagWeight(s)
  {
  }

  lemma OthersFrame(cfg: Config, s: State, a: Action)
    requires Next(cfg, s, a).Some? && !Next(cfg, s, a).value.panicked
    requires ProcessOf(a) in {Outside, MonitorP, CoordinatorP}
    ensures var t := Next(cfg, s, a).value;
      && t == s.(cancelled := t.cancelled, monitor := t.monitor, resultsClosed := t.resultsClosed,
                 workersDone := t.workersDone, workerErr := t.workerErr, quiesced := t.quiesced,
                 received := t.received, verdicts := t.verdicts)
      && FlagWeight(t) < FlagWeight(s)
  {
    match ProcessOf(a)
    case MonitorP => MonitorFrame(s, a);
    case CoordinatorP => CoordinatorFrame(s, a);
    case _ =>
  }

  lemma ProducerDecreases(cfg: Config, s: State, a: Action)
    requires ProducerNext(cfg, s, a).Some? && !ProducerNext(cfg, s, a).value.panicked
    ensures Measure(ProducerNext(cfg, s, a).value) < Measure(s)
  {
    ProducerFrame(cfg, s, a);
    ProducerGetsLighter(cfg, s, a);
  }

  lemma RouterDecreases(cfg: Config, s: State, a: Action)
    requires RouterNext(cfg, s, a).Some? && !RouterNext(cfg, s, a).value.panicked
    ensures Measure(RouterNext(cfg, s, a).value) < Measure(s)
  {
    if s.router.Receiving? || s.router.Holding? {
      RouterMoveFrame(cfg, s, a);
    } else {
      RouterWindDownFrame(s, a);
    }
  }

  lemma CompletionDecreases(s: State, a: Action)
    requires CompletionNext(s, a).Some? && !CompletionNext(s, a).value.panicked
    ensures Measure(CompletionNext(s, a).value) < Measure(s)
  {
    CompletionFrame(s, a);
    CompletionGetsLighter(s, a);
  }

  lemma OthersDecrease(cfg: Config, s: State, a: Action)
    requires Next(cfg, s, a).Some? && !Next(cfg, s, a).value.panicked
    requires ProcessOf(a) in {Outside, MonitorP, CoordinatorP}
    ensures Measure(Next(cfg, s, a).value) < Measure(s)
  {
    OthersFrame(cfg, s, a);
  }

  lemma StepDecreases(cfg: Config, s: State, a: Action)
    requires Next(cfg, s, a).Some? && !Next(cfg, s, a).value.panicked
    ensures Measure(Next(cfg, s, a).value) < Measure(s)
  {
    match ProcessOf(a)
    case ProducerP => ProducerDecreases(cfg, s, a);
    case RouterP => RouterDecreases(cfg, s, a);
    case WorkerP => WorkerDecreases(cfg, s, WorkerOf(a).value, a);
    case CompletionP => CompletionDecreases(s, a);
    case _ => OthersDecrease(cfg, s, a);
  }

  /** Every run is finite: it has at most `Measure` steps, wherever cancellation strikes. */
  lemma {:induction false} RunsAreBounded(cfg: Config, s: State, acts: seq<Action>)
    requires Owned(s) && Execute(cfg, s, acts).Some?
    ensures |acts| + Measure(Execute(cfg, s, acts).value) <= Measure(s)
    decreases |acts|
  {
    if acts != [] {
      StepKeepsOwned(cfg, s, acts[0]);
      StepDecreases(cfg, s, acts[0]);
      RunsAreBounded(cfg, Next(cfg, s, acts[0]).value, acts[1..]);
    }
  }

  // ---------------------------------------------------------------- progress

  /** Worker kinds never change, and both kinds are present. */
  predicate Staffed(cfg: Config, s: State) {
    && |s.workers| == cfg.workers + UdpWorkers(cfg)
    && forall i | 0 <= i < |s.workers| :: s.workers[i].udp <==> i >= cfg.workers
  }

  /** Until the context is cancelled, workers leave only a closed and empty queue, and the router only a closed and
      empty `raw`. */
  ghost predicate Diligent(s: State) {
    !s.cancelled ==>
      && (forall i | 0 <= i < |s.workers| && (s.workers[i].stage.Leaving? || s.workers[i].stage.Exited?) ::
            QueueOf(s, s.workers[i].udp).closed && QueueOf(s, s.workers[i].udp).items == [])
      && (!s.router.Receiving? && !s.router.Holding? ==> s.raw.closed && s.raw.items == [] && s.router.err == Nil)
  }

  ghost predicate Live(cfg: Config, s: State) {
    Owned(s) && Staffed(cfg, s) && Diligent(s)
  }

  lemma EffectIsDiligent(cfg: Config, s: State, w: Worker, a: Action)
    requires cfg.rate >= 1 && WorkerStep(cfg, s, w, a).Some?
    ensures var e := WorkerStep(cfg, s, w, a).value;
      && e.worker.udp == w.udp
      && (e.takes ==> QueueOf(s, w.udp).items != [])
      && (!s.cancelled && (e.worker.stage.Leaving? || e.worker.stage.Exited?) ==>
            w.stage.Leaving? || (QueueOf(s, w.udp).closed && QueueOf(s, w.udp).items == []))
  {
  }

  lemma WorkerKeepsDiligent(cfg: Config, s: State, i: nat, a: Action)
    requires cfg.rate >= 1 && Staffed(cfg, s) && Diligent(s)
    requires i < |s.workers| && WorkerNext(cfg, s, i, a).Some? && !WorkerNext(cfg, s, i, a).value.panicked
    ensures Staffed(cfg, WorkerNext(cfg, s, i, a).value) && Diligent(WorkerNext(cfg, s, i, a).value)
  {
    EffectIsDiligent(cfg, s, s.workers[i], a);
    ApplyKeepsDiligent(cfg, s, i, WorkerStep(cfg, s, s.workers[i], a).value);
  }

  lemma ApplyKeepsDiligent(cfg: Config, s: State, i: nat, e: Effect)
    requires Staffed(cfg, s) && Diligent(s) && i < |s.workers|
    requires e.worker.udp == s.workers[i].udp
    requires !s.cancelled && (e.worker.stage.Leaving? || e.worker.stage.Exited?) ==>
      QueueOf(s, e.worker.udp).closed && QueueOf(s, e.worker.udp).items == []
    ensures Staffed(cfg, Apply(s, i, e)) && Diligent(Apply(s, i, e))
  {
    var t := Apply(s, i, e);
    assert t.tcp.closed == s.tcp.closed && (s.tcp.items == [] ==> t.tcp.items == []);
    assert t.udp.closed == s.udp.closed && (s.udp.items == [] ==> t.udp.items == []);
    forall j | 0 <= j < |t.workers| && !t.cancelled && (t.workers[j].stage.Leaving? || t.workers[j].stage.Exited?)
      ensures QueueOf(t, t.workers[j].udp).closed && QueueOf(t, t.workers[j].udp).items == []
    {
      assert QueueOf(s, t.workers[j].udp).closed && QueueOf(s, t.workers[j].udp).items == [];
    }
  }

  lemma RouterMoveStops(cfg: Config, s: State, a: Action)
    requires !s.cancelled && RouterMove(cfg, s, a).Some? && RouterMove(cfg, s, a).value.router.Routed?
    ensures var t := RouterMove(cfg, s, a).value; t.raw == s.raw && s.raw.closed && s.raw.items == [] && t.router.err == Nil
  {
  }

  lemma RouterMoveKeepsDiligent(cfg: Config, s: State, a: Action)
    requires Owned(s) && Staffed(cfg, s) && Diligent(s)
    requires RouterMove(cfg, s, a).Some? && (s.router.Receiving? || s.router.Holding?)
    ensures Staffed(cfg, RouterMove(cfg, s, a).value) && Diligent(RouterMove(cfg, s, a).value)
  {
    RouterMoveShape(cfg, s, a);
    if !s.cancelled && RouterMove(cfg, s, a).value.router.Routed? {
      RouterMoveStops(cfg, s, a);
    }
  }

  lemma RouterKeepsDiligent(cfg: Config, s: State, a: Action)
    requires Owned(s) && Staffed(cfg, s) && Diligent(s)
    requires RouterNext(cfg, s, a).Some? && !RouterNext(cfg, s, a).value.panicked
    ensures Staffed(cfg, RouterNext(cfg, s, a).value) && Diligent(RouterNext(cfg, s, a).value)
  {
    if s.router.Receiving? || s.router.Holding? {
      RouterMoveKeepsDiligent(cfg, s, a);
    } else {
      RouterWindDownFrame(s, a);
    }
  }

  lemma ProducerKeepsDiligent(cfg: Config, s: State, a: Action)
    requires Owned(s) && Staffed(cfg, s) && Diligent(s)
    requires ProducerNext(cfg, s, a).Some? && !ProducerNext(cfg, s, a).value.panicked
    ensures Staffed(cfg, ProducerNext(cfg, s, a).value) && Diligent(ProducerNext(cfg, s, a).value)
  {
  }

  lemma OthersKeepDiligent(cfg: Config, s: State, a: Action)
    requires Staffed(cfg, s) && Diligent(s)
    requires Next(cfg, s, a).Some? && !Next(cfg, s, a).value.panicked
    requires ProcessOf(a) in {Outside, MonitorP, CoordinatorP}
    ensures Staffed(cfg, Next(cfg, s, a).value) && Diligent(Next(cfg, s, a).value)
  {
    OthersFrame(cfg, s, a);
  }

  lemma CompletionKeepsDiligent(cfg: Config, s: State, a: Action)
    requires Staffed(cfg, s) && Diligent(s)
    requires CompletionNext(s, a).Some? && !CompletionNext(s, a).value.panicked
    ensures Staffed(cfg, CompletionNext(s, a).value) && Diligent(CompletionNext(s, a).value)
  {
    CompletionFrame(s, a);
  }

  lemma StepKeepsLive(cfg: Config, s: State, a: Action)
    requires cfg.rate >= 1 && Live(cfg, s) && Next(cfg, s, a).Some?
    ensures Live(cfg, Next(cfg, s, a).value)
  {
    StepKeepsOwned(cfg, s, a);
    StepKeepsDiligent(cfg, s, a);
  }

  lemma StepKeepsDiligent(cfg: Config, s: State, a: Action)
    requires cfg.rate >= 1 && Live(cfg, s) && Next(cfg, s, a).Some? && !Next(cfg, s, a).value.panicked
    ensures Staffed(cfg, Next(cfg, s, a).value) && Diligent(Next(cfg, s, a).value)
  {
    match ProcessOf(a)
    case ProducerP => ProducerKeepsDiligent(cfg, s, a);
    case RouterP => RouterKeepsDiligent(cfg, s, a);
    case WorkerP => WorkerKeepsDiligent(cfg, s, WorkerOf(a).value, a);
    case CompletionP => CompletionKeepsDiligent(cfg, s, a);
    case _ => OthersKeepDiligent(cfg, s, a);
  }

  lemma {:induction false} RunKeepsLive(cfg: Config, s: State, acts: seq<Action>)
    requires cfg.rate >= 1 && Live(cfg, s) && Execute(cfg, s, acts).Some?
    ensures Live(cfg, Execute(cfg, s, acts).value)
    decreases |acts|
  {
    if acts != [] {
      StepKeepsLive(cfg, s, acts[0]);
      RunKeepsLive(cfg, Next(cfg, s, acts[0]).value, acts[1..]);
    }
  }

  /** How many workers take from a queue, and the first of them. */
  function WorkersOf(cfg: Config, udp: bool): nat {
    if udp then UdpWorkers(cfg) else cfg.workers
  }

  function FirstWorker(cfg: Config, udp: bool): nat {
    if udp then cfg.workers else 0
  }

  /** The queue of worker `busy` has another worker; or `busy` is no worker at all. */
  predicate HasColleague(cfg: Config, busy: nat) {
    busy < cfg.workers + UdpWorkers(cfg) ==> WorkersOf(cfg, busy >= cfg.workers) >= 2
  }

  /** A worker that has not left can move, unless it waits for an open, empty queue. */
  lemma WorkerCanMove(cfg: Config, s: State, i: nat) returns (a: Action)
    requires ValidCLI(cfg) && Live(cfg, s) && i < |s.workers| && !s.workers[i].stage.Exited?
    requires s.workers[i].stage.Idle? ==> s.cancelled || Readable(QueueOf(s, s.workers[i].udp))
    ensures Next(cfg, s, a).Some? && WorkerOf(a) == Some(i)
  {
    var w := s.workers[i];
    match w.stage
    case Idle =>
      a := if s.cancelled then WorkerCancel(i) else if QueueOf(s, w.udp).items != [] then Take(i) else QueueEnd(i);
    case Waiting(_) => a := Admit(i);
    case Probing(_) => a := Probe(i);
    case Sending(_, _) => a := Deliver(i);
    case Leaving => a := Exit(i);
  }

  /** A worker of the router's kind, other than `busy`, is there to take from a full queue. */
  lemma HolderCanMove(cfg: Config, s: State, busy: nat) returns (a: Action)
    requires ValidCLI(cfg) && Live(cfg, s) && s.router.Holding? && HasColleague(cfg, busy)
    ensures Next(cfg, s, a).Some? && a != Cancel && WorkerOf(a) != Some(busy)
  {
    var udp := IsUdp(s.router.job);
    if s.cancelled {
      a := RouterAbort;
    } else if |QueueOf(s, udp).items| < Capacity(cfg) {
      a := RouterSend;
    } else {
      var i := FirstWorker(cfg, udp);
      i := if i == busy then i + 1 else i;
      assert s.workers[i].udp == udp && !QueueOf(s, udp).closed;
      a := WorkerCanMove(cfg, s, i);
    }
  }

  lemma RouterCanMove(cfg: Config, s: State, busy: nat) returns (a: Action)
    requires ValidCLI(cfg) && Live(cfg, s) && !s.router.RouterDone? && HasColleague(cfg, busy)
    requires s.router.Receiving? ==> Readable(s.raw)
    ensures Next(cfg, s, a).Some? && a != Cancel && WorkerOf(a) != Some(busy)
  {
    match s.router
    case Receiving => a := if s.raw.items != [] then RouterReceive else RouterEnd;
    case Holding(_) => a := HolderCanMove(cfg, s, busy);
    case Routed(_) => a := RouterCloseTcp;
    case TcpClosed(_) => a := RouterCloseUdp;
    case UdpClosed(_) => a := RouterReport;
    case RouterSent(_) => a := RouterCloseErr;
  }

  lemma ProducerCanMove(cfg: Config, s: State, busy: nat) returns (a: Action)
    requires ValidCLI(cfg) && Live(cfg, s) && !s.producer.ProducerDone? && HasColleague(cfg, busy)
    ensures Next(cfg, s, a).Some? && a != Cancel && WorkerOf(a) != Some(busy)
  {
    match s.producer
    case Producing =>
      if s.todo == [] {
        a := ProducerReturn;
      } else if s.cancelled {
        a := ProducerAbort;
      } else if |s.raw.items| < Capacity(cfg) {
        a := ProducerSend;
      } else {
        a := RouterCanMove(cfg, s, busy);
      }
    case Produced(_) => a := ProducerReport;
    case ProducerSent(_) => a := ProducerCloseErr;
    case ProducerErrClosed(_) => a := ProducerCloseRaw;
  }

  lemma CompletionCanMove(s: State) returns (a: Action)
    requires Owned(s) && s.producer.ProducerDone? && s.router.RouterDone? && s.monitor == 3
    requires !s.completion.CompletionDone?
    ensures ProcessOf(a) == CompletionP && CompletionNext(s, a).Some?
  {
    match s.completion
    case AwaitProducer => a := CompletionProducer;
    case AwaitRouter(_) => a := CompletionRouter;
    case AwaitWorkers(_, _) => a := CompletionWorkers;
    case AwaitWorkerErr(_, _) => a := Decide;
    case Decided(_) => a := SendVerdict;
    case VerdictSent(_) => a := CloseVerdicts;
  }

  /** No deadlock: with validated flags, every live state that is not final has a possible step,
      cancellation aside. */
  lemma SomeActionIsPossible(cfg: Config, s: State) returns (a: Action)
    requires ValidCLI(cfg) && Live(cfg, s) && !Final(s)
    ensures Next(cfg, s, a).Some? && a != Cancel
  {
    if !s.producer.ProducerDone? {
      a := ProducerCanMove(cfg, s, |s.workers|);
    } else if !s.router.RouterDone? {
      a := RouterCanMove(cfg, s, |s.workers|);
    } else if !AllExited(s) {
      var i: nat :| i < |s.workers| && !s.workers[i].stage.Exited?;
      a := WorkerCanMove(cfg, s, i);
    } else if s.monitor < 3 {
      a := if s.monitor == 0 then MonitorResults else if s.monitor == 1 then MonitorErrs else MonitorDone;
    } else if !s.completion.CompletionDone? {
      a := CompletionCanMove(s);
    } else if !s.quiesced {
      a := CoordinatorQuiesce;
    } else {
      a := CoordinatorReceive;
    }
  }

  lemma InitialIsLive(cfg: Config)
    ensures Live(cfg, Initial(cfg))
  {
  }

  /** Wherever cancellation strikes, a run that cannot go on has come to its end: every goroutine has
      returned, and the coordinator has seen the results closed and received the verdict. */
  lemma MaximalRunsEnd(cfg: Config, acts: seq<Action>)
    requires ValidCLI(cfg) && Execute(cfg, Initial(cfg), acts).Some?
    ensures var s := Execute(cfg, Initial(cfg), acts).value;
      && |acts| <= Measure(Initial(cfg))
      && ((forall a :: Next(cfg, s, a).None?) ==> Final(s))
  {
    InitialIsLive(cfg);
    RunKeepsLive(cfg, Initial(cfg), acts);
    RunsAreBounded(cfg, Initial(cfg), acts);
    var s := Execute(cfg, Initial(cfg), acts).value;
    if !Final(s) {
      var a := SomeActionIsPossible(cfg, s);
    }
  }
}
