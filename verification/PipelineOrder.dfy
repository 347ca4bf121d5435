/** In which order results can arrive: the order of the plan if one worker takes from a queue, and otherwise any
    planned job's result can be the last. */
module PipelineOrder {
  import opened Wrappers
  import opened JobPlan
  import opened Pipeline
  import opened PipelineSafety
  import opened PipelineMeaning

  // ---------------------------------------------------------------- one worker keeps the order of the plan

  /** The jobs of one protocol, in order. */
  function OfKind(q: seq<Job>, udp: bool): seq<Job> {
    if q == [] then []
    else OfKind(q[..|q| - 1], udp) + (if IsUdp(q[|q| - 1]) == udp then [q[|q| - 1]] else [])
  }

  lemma {:induction false} OfKindConcat(a: seq<Job>, b: seq<Job>, udp: bool)
    ensures OfKind(a + b, udp) == OfKind(a, udp) + OfKind(b, udp)
  {
    if b == [] {
      assert a + b == a;
    } else {
      var ab, front := a + b, b[..|b| - 1];
      assert ab[..|ab| - 1] == a + front && ab[|ab| - 1] == b[|b| - 1];
      OfKindConcat(a, front, udp);
    }
  }

  lemma {:induction false} OfKindOfAll(q: seq<Job>, kind: bool, udp: bool)
    requires AllOfKind(q, kind)
    ensures OfKind(q, udp) == if kind == udp then q else []
  {
    if q != [] {
      var front, last := q[..|q| - 1], q[|q| - 1];
      assert q == front + [last];
      OfKindOfAll(front, kind, udp);
    }
  }

  lemma {:induction false} OfKindCount(q: seq<Job>, udp: bool, j: Job)
    ensures Count(OfKind(q, udp), j) == if IsUdp(j) == udp then Count(q, j) else 0
  {
    if q != [] {
      var front, last := q[..|q| - 1], q[|q| - 1];
      assert q == front + [last];
      OfKindCount(front, udp, j);
    }
  }

  function InHand(g: Stage): seq<Job> {
    if g.Waiting? || g.Probing? || g.Sending? then [g.job] else []
  }

  function HeldBy(r: Router): seq<Job> {
    if r.Holding? then [r.job] else []
  }

  /** What the router and the producer still have before them, in order. */
  function Coming(s: State): seq<Job> {
    HeldBy(s.router) + s.raw.items + s.todo
  }

  /** The jobs of one protocol from the last finished to the last to come, if one worker takes from their queue. */
  function Line(cfg: Config, s: State, udp: bool): seq<Job>
    requires Staffed(cfg, s) && cfg.workers >= 1
  {
    OfKind(s.finished, udp) + InHand(s.workers[FirstWorker(cfg, udp)].stage) + QueueOf(s, udp).items + OfKind(Coming(s), udp)
  }

  /** A worker takes the first job of its queue in hand, or finishes the job in hand, or keeps it. */
  lemma EffectParts(cfg: Config, s: State, w: Worker, a: Action)
    requires cfg.rate >= 1 && !s.cancelled && WorkerByProtocol(cfg, w) && WorkerStep(cfg, s, w, a).Some?
    ensures var e, q := WorkerStep(cfg, s, w, a).value, QueueOf(s, w.udp).items;
      && e.worker.udp == w.udp && AllOfKind(e.done, w.udp)
      && if e.takes then q != [] && e.done == [] && InHand(w.stage) == [] && InHand(e.worker.stage) == [q[0]]
         else e.done + InHand(e.worker.stage) == InHand(w.stage)
  {
  }

  lemma EffectKeepsLine(cfg: Config, s: State, w: Worker, a: Action)
    requires cfg.rate >= 1 && !s.cancelled && WorkerByProtocol(cfg, w) && WorkerStep(cfg, s, w, a).Some?
    ensures var e, q := WorkerStep(cfg, s, w, a).value, QueueOf(s, w.udp).items;
      && e.worker.udp == w.udp && AllOfKind(e.done, w.udp) && (e.takes ==> q != [])
      && e.done + InHand(e.worker.stage) + (if e.takes then q[1..] else q) == InHand(w.stage) + q
  {
    EffectParts(cfg, s, w, a);
    var q := QueueOf(s, w.udp).items;
    assert q != [] ==> q == [q[0]] + q[1..];
  }

  lemma WorkerKeepsLine(cfg: Config, s: State, i: nat, a: Action, udp: bool)
    requires ValidCLI(cfg) && Staffed(cfg, s) && ByProtocol(cfg, s) && !s.cancelled && WorkersOf(cfg, udp) == 1
    requires i < |s.workers| && WorkerNext(cfg, s, i, a).Some? && !WorkerNext(cfg, s, i, a).value.panicked
    ensures var t := WorkerNext(cfg, s, i, a).value; Staffed(cfg, t) && Line(cfg, t, udp) == Line(cfg, s, udp)
  {
    var w := s.workers[i];
    var e := WorkerStep(cfg, s, w, a).value;
    EffectKeepsLine(cfg, s, w, a);
    ApplyKeepsLine(cfg, s, i, e, udp);
  }

  /** Moving jobs along from queue to hand to finished. */
  lemma MovesAlong<T>(a: seq<T>, done: seq<T>, hand': seq<T>, queue': seq<T>, hand: seq<T>, queue: seq<T>, c: seq<T>)
    requires done + hand' + queue' == hand + queue
    ensures (a + done) + hand' + queue' + c == a + hand + queue + c
  {
    assert (a + done) + hand' + queue' + c == a + (done + hand' + queue') + c;
    assert a + hand + queue + c == a + (hand + queue) + c;
  }

  lemma ApplyParts(s: State, i: nat, e: Effect)
    requires i < |s.workers| && e.worker.udp == s.workers[i].udp
    ensures var t, udp := Apply(s, i, e), e.worker.udp;
      && t.workers == s.workers[i := e.worker] && t.finished == s.finished + e.done && Coming(t) == Coming(s)
      && QueueOf(t, udp).items
         == (if e.takes && QueueOf(s, udp).items != [] then QueueOf(s, udp).items[1..] else QueueOf(s, udp).items)
      && QueueOf(t, !udp) == QueueOf(s, !udp)
  {
  }

  lemma ApplyKeepsLine(cfg: Config, s: State, i: nat, e: Effect, udp: bool)
    requires Staffed(cfg, s) && cfg.workers >= 1 && WorkersOf(cfg, udp) == 1 && i < |s.workers|
    requires var w := s.workers[i];
      var q := QueueOf(s, w.udp).items;
      && e.worker.udp == w.udp && AllOfKind(e.done, w.udp) && (e.takes ==> q != [])
      && e.done + InHand(e.worker.stage) + (if e.takes then q[1..] else q) == InHand(w.stage) + q
    ensures var t := Apply(s, i, e); Staffed(cfg, t) && Line(cfg, t, udp) == Line(cfg, s, udp)
  {
    var w, t := s.workers[i], Apply(s, i, e);
    ApplyParts(s, i, e);
    OfKindConcat(s.finished, e.done, udp);
    OfKindOfAll(e.done, w.udp, udp);
    if w.udp == udp {
      MovesAlong(OfKind(s.finished, udp), e.done, InHand(e.worker.stage), QueueOf(t, udp).items,
                 InHand(w.stage), QueueOf(s, udp).items, OfKind(Coming(s), udp));
    } else {
      assert t.workers[FirstWorker(cfg, udp)] == s.workers[FirstWorker(cfg, udp)];
    }
  }

  /** What the router does to the queues and to what is still to come. */
  lemma RouterMoveParts(cfg: Config, s: State, a: Action)
    requires !s.cancelled && RouterMove(cfg, s, a).Some? && !RouterMove(cfg, s, a).value.panicked
    ensures var t := RouterMove(cfg, s, a).value;
      if a.RouterSend? then
        && s.router.Holding? && Coming(s) == [s.router.job] + Coming(t)
        && QueueOf(t, IsUdp(s.router.job)).items == QueueOf(s, IsUdp(s.router.job)).items + [s.router.job]
        && QueueOf(t, !IsUdp(s.router.job)) == QueueOf(s, !IsUdp(s.router.job))
      else t.tcp == s.tcp && t.udp == s.udp && Coming(t) == Coming(s)
  {
    var t := RouterMove(cfg, s, a).value;
    if a.RouterSend? {
      assert Coming(s) == [s.router.job] + (s.raw.items + s.todo);
      assert Coming(t) == s.raw.items + s.todo;
    } else if a.RouterReceive? {
      assert s.raw.items == [s.raw.items[0]] + s.raw.items[1..];
    }
  }

  lemma RouterMoveKeepsLine(cfg: Config, s: State, a: Action, udp: bool)
    requires !s.cancelled && RouterMove(cfg, s, a).Some? && !RouterMove(cfg, s, a).value.panicked
    ensures var t := RouterMove(cfg, s, a).value;
      QueueOf(t, udp).items + OfKind(Coming(t), udp) == QueueOf(s, udp).items + OfKind(Coming(s), udp)
  {
    var t := RouterMove(cfg, s, a).value;
    RouterMoveParts(cfg, s, a);
    if a.RouterSend? {
      var job := s.router.job;
      OfKindConcat([job], Coming(t), udp);
      OfKindOfAll([job], IsUdp(job), udp);
      if IsUdp(job) == udp {
        Associates(QueueOf(s, udp).items, [job], OfKind(Coming(t), udp));
      }
    }
  }

  lemma Associates<T>(a: seq<T>, b: seq<T>, c: seq<T>)
    ensures (a + b) + c == a + (b + c)
  {
  }

  lemma RouterKeepsLine(cfg: Config, s: State, a: Action, udp: bool)
    requires Staffed(cfg, s) && cfg.workers >= 1 && !s.cancelled
    requires RouterNext(cfg, s, a).Some? && !RouterNext(cfg, s, a).value.panicked
    ensures var t := RouterNext(cfg, s, a).value; Staffed(cfg, t) && Line(cfg, t, udp) == Line(cfg, s, udp)
  {
    var t := RouterNext(cfg, s, a).value;
    if s.router.Receiving? || s.router.Holding? {
      RouterMoveFrame(cfg, s, a);
      RouterMoveKeepsLine(cfg, s, a, udp);
      QueueFrame(cfg, s, t, udp);
    } else {
      RouterWindDownFrame(s, a);
      RouterWindDownKeepsComing(s, a);
      LineFrame(cfg, s, t, udp);
    }
  }

  lemma QueueFrame(cfg: Config, s: State, t: State, udp: bool)
    requires Staffed(cfg, s) && cfg.workers >= 1 && t.workers == s.workers && t.finished == s.finished
    requires QueueOf(t, udp).items + OfKind(Coming(t), udp) == QueueOf(s, udp).items + OfKind(Coming(s), udp)
    ensures Staffed(cfg, t) && Line(cfg, t, udp) == Line(cfg, s, udp)
  {
    var done := OfKind(s.finished, udp) + InHand(s.workers[FirstWorker(cfg, udp)].stage);
    Associates(done, QueueOf(t, udp).items, OfKind(Coming(t), udp));
    Associates(done, QueueOf(s, udp).items, OfKind(Coming(s), udp));
  }

  lemma RouterWindDownKeepsComing(s: State, a: Action)
    requires !s.router.Holding? && RouterWindDown(s, a).Some? && !RouterWindDown(s, a).value.panicked
    ensures Coming(RouterWindDown(s, a).value) == Coming(s)
  {
  }

  lemma ProducerKeepsComing(cfg: Config, s: State, a: Action)
    requires !s.cancelled && ProducerNext(cfg, s, a).Some? && !ProducerNext(cfg, s, a).value.panicked
    ensures Coming(ProducerNext(cfg, s, a).value) == Coming(s)
  {
    if a.ProducerSend? {
      assert s.todo == [s.todo[0]] + s.todo[1..];
    }
  }

  lemma LineFrame(cfg: Config, s: State, t: State, udp: bool)
    requires Staffed(cfg, s) && cfg.workers >= 1 && t.workers == s.workers && t.finished == s.finished
    requires t.tcp.items == s.tcp.items && t.udp.items == s.udp.items && Coming(t) == Coming(s)
    ensures Staffed(cfg, t) && Line(cfg, t, udp) == Line(cfg, s, udp)
  {
  }

  /** Steps of the producer, the monitor and the two receivers leave the line alone. */
  lemma BystandersKeepLine(cfg: Config, s: State, a: Action, udp: bool)
    requires cfg.workers >= 1 && Staffed(cfg, s) && !s.cancelled && ProcessOf(a) != RouterP && ProcessOf(a) != WorkerP
    requires Next(cfg, s, a).Some? && !Next(cfg, s, a).value.panicked
    ensures var t := Next(cfg, s, a).value;
      && t.workers == s.workers && t.finished == s.finished && t.tcp == s.tcp && t.udp == s.udp && Coming(t) == Coming(s)
  {
    match ProcessOf(a)
    case ProducerP =>
      ProducerFrame(cfg, s, a);
      ProducerKeepsComing(cfg, s, a);
    case CompletionP => CompletionFrame(s, a);
    case MonitorP => MonitorFrame(s, a);
    case CoordinatorP => CoordinatorFrame(s, a);
    case Outside =>
  }

  lemma StepKeepsLine(cfg: Config, s: State, a: Action, udp: bool)
    requires ValidCLI(cfg) && Staffed(cfg, s) && ByProtocol(cfg, s) && !s.cancelled && WorkersOf(cfg, udp) == 1
    requires Next(cfg, s, a).Some? && !Next(cfg, s, a).value.panicked
    ensures Staffed(cfg, Next(cfg, s, a).value) && Line(cfg, Next(cfg, s, a).value, udp) == Line(cfg, s, udp)
  {
    match ProcessOf(a)
    case RouterP => RouterKeepsLine(cfg, s, a, udp);
    case WorkerP => WorkerKeepsLine(cfg, s, WorkerOf(a).value, a, udp);
    case _ =>
      BystandersKeepLine(cfg, s, a, udp);
      LineFrame(cfg, s, Next(cfg, s, a).value, udp);
  }

  /** What every step of an uncancelled run keeps. */
  ghost predicate Sound(cfg: Config, s: State) {
    Live(cfg, s) && ByProtocol(cfg, s) && Books(cfg, s) && !s.cancelled
  }

  lemma StepKeepsSound(cfg: Config, s: State, a: Action)
    requires ValidCLI(cfg) && Sound(cfg, s) && Next(cfg, s, a).Some? && a != Cancel
    ensures Sound(cfg, Next(cfg, s, a).value)
  {
    StepKeepsBooks(cfg, s, a);
    OnlyCancelCancels(cfg, s, a);
  }

  lemma SoundStepKeepsLine(cfg: Config, s: State, a: Action, udp: bool)
    requires ValidCLI(cfg) && Sound(cfg, s) && WorkersOf(cfg, udp) == 1 && Next(cfg, s, a).Some?
    ensures var t := Next(cfg, s, a).value; Owned(t) && Staffed(cfg, t) && Line(cfg, t, udp) == Line(cfg, s, udp)
  {
    StepKeepsOwned(cfg, s, a);
    StepKeepsLine(cfg, s, a, udp);
  }

  lemma FinishedComesFirst(cfg: Config, s: State, udp: bool)
    requires Staffed(cfg, s) && cfg.workers >= 1
    ensures OfKind(s.finished, udp) <= Line(cfg, s, udp)
  {
  }

  /** What finishes is what stands first in line. */
  lemma {:induction false} RunKeepsLine(cfg: Config, s: State, acts: seq<Action>, udp: bool)
    requires ValidCLI(cfg) && Sound(cfg, s) && WorkersOf(cfg, udp) == 1
    requires Execute(cfg, s, acts).Some? && Settled(Execute(cfg, s, acts).value)
    ensures OfKind(Execute(cfg, s, acts).value.finished, udp) <= Line(cfg, s, udp)
    decreases |acts|
  {
    if acts == [] {
      FinishedComesFirst(cfg, s, udp);
    } else {
      var a, next, rest := acts[0], Next(cfg, s, acts[0]).value, acts[1..];
      SoundStepKeepsLine(cfg, s, a, udp);
      if next.cancelled {
        CancelledFinishesNothing(cfg, next, rest);
        FinishedComesFirst(cfg, next, udp);
      } else {
        StepKeepsSound(cfg, s, a);
        RunKeepsLine(cfg, next, rest, udp);
      }
    }
  }

  /** A cancelled run that ends settled was settled. */
  lemma {:induction false} UncleanStaysUnclean(cfg: Config, s: State, acts: seq<Action>)
    requires Owned(s) && s.cancelled && Execute(cfg, s, acts).Some? && Settled(Execute(cfg, s, acts).value)
    ensures Settled(s)
    decreases |acts|
  {
    if acts != [] {
      StepKeepsOwned(cfg, s, acts[0]);
      CancelledStaysUnclean(cfg, s, acts[0]);
      UncleanStaysUnclean(cfg, Next(cfg, s, acts[0]).value, acts[1..]);
    }
  }

  /** With a verdict, every worker has exited. */
  lemma {:induction false} NothingMoreFinishes(cfg: Config, s: State, acts: seq<Action>)
    requires Owned(s) && HasVerdict(s) && Execute(cfg, s, acts).Some?
    ensures Execute(cfg, s, acts).value.finished == s.finished
    decreases |acts|
  {
    if acts != [] {
      StepKeepsOwned(cfg, s, acts[0]);
      VerdictFreezes(cfg, s, acts[0]);
      NothingMoreFinishes(cfg, Next(cfg, s, acts[0]).value, acts[1..]);
    }
  }

  lemma CancelledFinishesNothing(cfg: Config, s: State, acts: seq<Action>)
    requires Owned(s) && s.cancelled && Execute(cfg, s, acts).Some? && Settled(Execute(cfg, s, acts).value)
    ensures Execute(cfg, s, acts).value.finished == s.finished
  {
    UncleanStaysUnclean(cfg, s, acts);
    NothingMoreFinishes(cfg, s, acts);
  }

  lemma VerdictFreezes(cfg: Config, s: State, a: Action)
    requires Owned(s) && HasVerdict(s) && Next(cfg, s, a).Some? && !Next(cfg, s, a).value.panicked
    ensures var t := Next(cfg, s, a).value; t.finished == s.finished && HasVerdict(t)
  {
    if ProcessOf(a) == WorkerP {
      WorkersRest(cfg, s, WorkerOf(a).value, a);
    } else {
      OnlyWorkersFinish(cfg, s, a);
      VerdictStays(cfg, s, a);
    }
  }

  lemma VerdictStays(cfg: Config, s: State, a: Action)
    requires HasVerdict(s) && Next(cfg, s, a).Some? && !Next(cfg, s, a).value.panicked && ProcessOf(a) != WorkerP
    ensures HasVerdict(Next(cfg, s, a).value)
  {
    match ProcessOf(a)
    case Outside =>
    case ProducerP => ProducerLeavesVerdict(cfg, s, a);
    case RouterP => RouterLeavesVerdict(cfg, s, a);
    case CompletionP => CompletionIsFrozen(s, a);
    case MonitorP => MonitorFrame(s, a);
    case CoordinatorP => CoordinatorFrame(s, a);
  }

  lemma CountsDetermineLength(q: seq<Job>, r: seq<Job>)
    requires forall j :: Count(q, j) == Count(r, j)
    ensures |q| == |r|
  {
    forall j ensures multiset(q)[j] == multiset(r)[j] {
      assert Count(q, j) == Count(r, j);
    }
    assert multiset(q) == multiset(r);
    assert |q| == |multiset(q)| && |r| == |multiset(r)|;
  }

  /** If one worker takes from a queue, its jobs are finished in the order of the plan, on every schedule that succeeds. */
  lemma OneWorkerKeepsOrder(cfg: Config, acts: seq<Action>, udp: bool)
    requires ValidCLI(cfg) && WorkersOf(cfg, udp) == 1
    requires Execute(cfg, Initial(cfg), acts).Some? && Settled(Execute(cfg, Initial(cfg), acts).value)
    ensures OfKind(Execute(cfg, Initial(cfg), acts).value.finished, udp) == OfKind(cfg.jobs, udp)
  {
    var s, t := Initial(cfg), Execute(cfg, Initial(cfg), acts).value;
    InitialBooks(cfg);
    RunKeepsLine(cfg, s, acts, udp);
    assert Coming(s) == cfg.jobs;
    assert Line(cfg, s, udp) == OfKind(cfg.jobs, udp);
    CompletedMeansEverythingWasProbed(cfg, acts);
    forall j ensures Count(OfKind(t.finished, udp), j) == Count(OfKind(cfg.jobs, udp), j) {
      OfKindCount(t.finished, udp, j);
      OfKindCount(cfg.jobs, udp, j);
    }
    CountsDetermineLength(OfKind(t.finished, udp), OfKind(cfg.jobs, udp));
  }

  // ---------------------------------------------------------------- with two workers, any result can be the last

  /** A job that answers is finished by handing over its result. */
  lemma FinishesByDelivering(cfg: Config, s: State, i: nat, a: Action, job: Job)
    requires ByProtocol(cfg, s) && ResultOf(cfg, job).Some? && job !in s.finished && i < |s.workers|
    requires WorkerNext(cfg, s, i, a).Some? && job in WorkerNext(cfg, s, i, a).value.finished
    ensures s.workers[i].stage.Sending? && s.workers[i].stage.job == job
  {
    var w := s.workers[i];
    var e := WorkerStep(cfg, s, w, a).value;
    assert WorkerByProtocol(cfg, w);
    if !e.panics {
      assert job in s.finished + e.done;
      assert job in e.done;
    }
  }

  lemma RouterLeavesWorkers(cfg: Config, s: State, a: Action)
    requires RouterNext(cfg, s, a).Some? && !RouterNext(cfg, s, a).value.panicked
    ensures var t := RouterNext(cfg, s, a).value; t.finished == s.finished && t.workers == s.workers
  {
    if s.router.Receiving? || s.router.Holding? {
      RouterMoveFrame(cfg, s, a);
    } else {
      RouterWindDownFrame(s, a);
    }
  }

  lemma OnlyWorkersFinish(cfg: Config, s: State, a: Action)
    requires Next(cfg, s, a).Some? && !Next(cfg, s, a).value.panicked && ProcessOf(a) != WorkerP
    ensures var t := Next(cfg, s, a).value; t.finished == s.finished && t.workers == s.workers
  {
    match ProcessOf(a)
    case Outside =>
    case ProducerP => ProducerFrame(cfg, s, a);
    case RouterP => RouterLeavesWorkers(cfg, s, a);
    case CompletionP => CompletionFrame(s, a);
    case MonitorP => MonitorFrame(s, a);
    case CoordinatorP => CoordinatorFrame(s, a);
  }

  /** In a run that finishes an answering job, there is a moment when a worker is about to send its result. */
  lemma {:induction false} AboutToSend(cfg: Config, s: State, acts: seq<Action>, job: Job)
    returns (before: seq<Action>, i: nat)
    requires ValidCLI(cfg) && Sound(cfg, s) && ResultOf(cfg, job).Some? && job !in s.finished && Cancel !in acts
    requires Execute(cfg, s, acts).Some? && job in Execute(cfg, s, acts).value.finished
    ensures Execute(cfg, s, before).Some?
    ensures var t := Execute(cfg, s, before).value;
      Sound(cfg, t) && i < |t.workers| && t.workers[i].stage.Sending? && t.workers[i].stage.job == job
    decreases |acts|
  {
    var a, next := acts[0], Next(cfg, s, acts[0]).value;
    StepKeepsSound(cfg, s, a);
    if job in next.finished {
      if ProcessOf(a) != WorkerP {
        OnlyWorkersFinish(cfg, s, a);
      }
      before, i := [], WorkerOf(a).value;
      FinishesByDelivering(cfg, s, i, a, job);
    } else {
      var rest;
      rest, i := AboutToSend(cfg, next, acts[1..], job);
      before := [a] + rest;
      assert before[0] == a && before[1..] == rest;
    }
  }

  /** Nobody but worker `busy` has anything left to do. */
  predicate OthersDone(s: State, busy: nat) {
    && s.producer.ProducerDone? && s.router.RouterDone?
    && forall i | 0 <= i < |s.workers| && i != busy :: s.workers[i].stage.Exited?
  }

  lemma CanMoveAround(cfg: Config, s: State, busy: nat) returns (a: Action)
    requires ValidCLI(cfg) && Live(cfg, s) && busy < |s.workers| && HasColleague(cfg, busy) && !OthersDone(s, busy)
    ensures Next(cfg, s, a).Some? && a != Cancel && WorkerOf(a) != Some(busy)
  {
    if !s.producer.ProducerDone? {
      a := ProducerCanMove(cfg, s, busy);
    } else if !s.router.RouterDone? {
      a := RouterCanMove(cfg, s, busy);
    } else {
      var i: nat :| i < |s.workers| && i != busy && !s.workers[i].stage.Exited?;
      a := WorkerCanMove(cfg, s, i);
    }
  }

  lemma OthersLeaveWorker(cfg: Config, s: State, a: Action, busy: nat)
    requires busy < |s.workers| && Next(cfg, s, a).Some? && !Next(cfg, s, a).value.panicked && WorkerOf(a) != Some(busy)
    ensures var t := Next(cfg, s, a).value; busy < |t.workers| && t.workers[busy] == s.workers[busy]
  {
    if ProcessOf(a) != WorkerP {
      OnlyWorkersFinish(cfg, s, a);
    } else {
      WorkerLeavesOthers(cfg, s, WorkerOf(a).value, a, busy);
    }
  }

  lemma WorkerLeavesOthers(cfg: Config, s: State, i: nat, a: Action, busy: nat)
    requires busy < |s.workers| && i < |s.workers| && i != busy && WorkerNext(cfg, s, i, a).Some?
    ensures var t := WorkerNext(cfg, s, i, a).value; |t.workers| == |s.workers| && t.workers[busy] == s.workers[busy]
  {
  }

  /** While one worker waits to send, everyone else can finish. */
  lemma {:induction false} DriveAround(cfg: Config, s: State, busy: nat) returns (acts: seq<Action>)
    requires ValidCLI(cfg) && Sound(cfg, s) && busy < |s.workers| && HasColleague(cfg, busy)
    ensures Execute(cfg, s, acts).Some?
    ensures var t := Execute(cfg, s, acts).value;
      Sound(cfg, t) && busy < |t.workers| && t.workers[busy] == s.workers[busy] && OthersDone(t, busy)
    decreases Measure(s)
  {
    if OthersDone(s, busy) {
      acts := [];
    } else {
      var a := CanMoveAround(cfg, s, busy);
      var next := Next(cfg, s, a).value;
      StepKeepsSound(cfg, s, a);
      StepDecreases(cfg, s, a);
      OthersLeaveWorker(cfg, s, a, busy);
      var rest := DriveAround(cfg, next, busy);
      acts := [a] + rest;
      assert acts[0] == a && acts[1..] == rest;
    }
  }

  lemma DeliverStep(cfg: Config, s: State, busy: nat)
    requires Owned(s) && busy < |s.workers| && s.workers[busy].stage.Sending?
    ensures Next(cfg, s, Deliver(busy)).Some?
    ensures var t, w := Next(cfg, s, Deliver(busy)).value, s.workers[busy];
      && t.workers == s.workers[busy := w.(stage := Idle)] && t.finished == s.finished + [w.stage.job]
      && t.todo == s.todo && t.raw == s.raw && t.router == s.router && t.tcp == s.tcp && t.udp == s.udp
  {
    assert !s.workers[busy].stage.Exited?;
  }

  /** Books with nothing left but finished jobs. */
  lemma OnlyFinishedCounts(cfg: Config, s: State)
    requires AllAccounted(cfg, s) && !s.router.Holding?
    requires s.todo == [] && s.raw.items == [] && s.tcp.items == [] && s.udp.items == []
    requires forall i | 0 <= i < |s.workers| :: s.workers[i].stage.Exited? || s.workers[i].stage.Idle?
    ensures multiset(s.finished) == multiset(cfg.jobs)
  {
    forall j ensures multiset(s.finished)[j] == multiset(cfg.jobs)[j] {
      NothingInFlight(s.workers, j);
      assert Tally(s, j) == Count(cfg.jobs, j);
    }
  }

  /** Sending the last result finishes the last job. */
  lemma LastDelivery(cfg: Config, s: State, busy: nat)
    requires ValidCLI(cfg) && Sound(cfg, s) && busy < |s.workers| && HasColleague(cfg, busy) && OthersDone(s, busy)
    requires s.workers[busy].stage.Sending?
    ensures Next(cfg, s, Deliver(busy)).Some?
    ensures var t := Next(cfg, s, Deliver(busy)).value;
      && Sound(cfg, t) && t.finished == s.finished + [s.workers[busy].stage.job]
      && multiset(t.finished) == multiset(cfg.jobs)
  {
    DeliverStep(cfg, s, busy);
    StepKeepsSound(cfg, s, Deliver(busy));
    NobodyWaits(cfg, s, busy);
    LastIsFinished(cfg, s, Next(cfg, s, Deliver(busy)).value, busy);
  }

  /** Once the last worker has sent its result, only finished jobs are left. */
  lemma LastIsFinished(cfg: Config, s: State, t: State, busy: nat)
    requires AllAccounted(cfg, t) && busy < |s.workers| && OthersDone(s, busy)
    requires s.todo == [] && s.raw.items == [] && s.tcp.items == [] && s.udp.items == []
    requires t.workers == s.workers[busy := s.workers[busy].(stage := Idle)]
    requires t.todo == s.todo && t.raw == s.raw && t.router == s.router && t.tcp == s.tcp && t.udp == s.udp
    ensures multiset(t.finished) == multiset(cfg.jobs)
  {
    OnlyFinishedCounts(cfg, t);
  }

  lemma NobodyWaits(cfg: Config, s: State, busy: nat)
    requires ValidCLI(cfg) && Sound(cfg, s) && busy < |s.workers| && HasColleague(cfg, busy) && OthersDone(s, busy)
    ensures s.todo == [] && s.raw.items == [] && s.tcp.items == [] && s.udp.items == []
  {
    var tcp: nat := if busy == 0 then 1 else 0;
    var udp: nat := if busy == cfg.workers then cfg.workers + 1 else cfg.workers;
    assert !s.workers[tcp].udp && s.workers[tcp].stage.Exited?;
    assert s.workers[udp].udp && s.workers[udp].stage.Exited?;
  }

  lemma StepFinishesMore(cfg: Config, s: State, a: Action)
    requires Next(cfg, s, a).Some? && !Next(cfg, s, a).value.panicked
    ensures s.finished <= Next(cfg, s, a).value.finished
  {
    if ProcessOf(a) != WorkerP {
      OnlyWorkersFinish(cfg, s, a);
    }
  }

  lemma {:induction false} FinishedGrows(cfg: Config, s: State, acts: seq<Action>)
    requires Owned(s) && Execute(cfg, s, acts).Some?
    ensures s.finished <= Execute(cfg, s, acts).value.finished
    decreases |acts|
  {
    if acts != [] {
      StepKeepsOwned(cfg, s, acts[0]);
      StepFinishesMore(cfg, s, acts[0]);
      FinishedGrows(cfg, Next(cfg, s, acts[0]).value, acts[1..]);
    }
  }

  /** `end` is the end of an uncancelled run, and if it finished all of `jobs`, then `job` last. */
  ghost predicate EndsWith(end: State, jobs: seq<Job>, job: Job) {
    && Final(end) && !end.cancelled && job in end.finished
    && (|end.finished| == |jobs| ==> end.finished[|end.finished| - 1] == job)
  }

  /** With all jobs finished, winding down finishes no more. */
  lemma WindDown(cfg: Config, s: State) returns (acts: seq<Action>)
    requires ValidCLI(cfg) && Live(cfg, s) && !s.cancelled
    requires s.finished != [] && multiset(s.finished) == multiset(cfg.jobs)
    ensures Execute(cfg, s, acts).Some?
    ensures EndsWith(Execute(cfg, s, acts).value, cfg.jobs, s.finished[|s.finished| - 1])
  {
    acts := CanFinish(cfg, s);
    FinishedGrows(cfg, s, acts);
    LastOfPrefix(s.finished, Execute(cfg, s, acts).value.finished, cfg.jobs);
  }

  lemma ExecuteFirst(cfg: Config, s: State, a: Action, rest: seq<Action>)
    requires Next(cfg, s, a).Some?
    ensures Execute(cfg, s, [a] + rest) == Execute(cfg, Next(cfg, s, a).value, rest)
  {
    assert ([a] + rest)[1..] == rest;
  }

  /** Once everyone else is done: send the last result, and wind down. */
  lemma SendAndFinish(cfg: Config, s: State, busy: nat) returns (acts: seq<Action>)
    requires ValidCLI(cfg) && Sound(cfg, s) && busy < |s.workers| && HasColleague(cfg, busy) && OthersDone(s, busy)
    requires s.workers[busy].stage.Sending?
    ensures Execute(cfg, s, acts).Some? && EndsWith(Execute(cfg, s, acts).value, cfg.jobs, s.workers[busy].stage.job)
  {
    LastDelivery(cfg, s, busy);
    var last := WindDown(cfg, Next(cfg, s, Deliver(busy)).value);
    ExecuteFirst(cfg, s, Deliver(busy), last);
    acts := [Deliver(busy)] + last;
  }

  /** From the moment a worker is about to send, to an end where its job is the last. */
  lemma FinishWith(cfg: Config, s: State, busy: nat) returns (acts: seq<Action>)
    requires ValidCLI(cfg) && Sound(cfg, s) && busy < |s.workers| && HasColleague(cfg, busy)
    requires s.workers[busy].stage.Sending?
    ensures Execute(cfg, s, acts).Some? && EndsWith(Execute(cfg, s, acts).value, cfg.jobs, s.workers[busy].stage.job)
  {
    var around := DriveAround(cfg, s, busy);
    var last := SendAndFinish(cfg, Execute(cfg, s, around).value, busy);
    ExecuteConcat(cfg, s, around, last);
    acts := around + last;
  }

  /** A list that extends a complete one by nothing has its last element. */
  lemma LastOfPrefix(part: seq<Job>, whole: seq<Job>, jobs: seq<Job>)
    requires part != [] && part <= whole && multiset(part) == multiset(jobs)
    ensures part[|part| - 1] in whole
    ensures |whole| == |jobs| ==> whole[|whole| - 1] == part[|part| - 1]
  {
    assert |part| == |multiset(part)| == |multiset(jobs)| == |jobs|;
    assert whole[|part| - 1] == part[|part| - 1];
  }

  lemma ColleagueOf(cfg: Config, s: State, busy: nat, job: Job)
    requires Sound(cfg, s) && busy < |s.workers| && s.workers[busy].stage.Sending? && s.workers[busy].stage.job == job
    requires WorkersOf(cfg, IsUdp(job)) >= 2
    ensures HasColleague(cfg, busy)
  {
    assert WorkerByProtocol(cfg, s.workers[busy]);
  }

  /** If its queue has two workers, any planned job that answers can be the last to finish, in a run that succeeds. */
  lemma CanBeLast(cfg: Config, job: Job) returns (acts: seq<Action>)
    requires ValidCLI(cfg) && cfg.planErr == Nil && !SomeUnsupported(cfg.jobs)
    requires job in cfg.jobs && ResultOf(cfg, job).Some? && WorkersOf(cfg, IsUdp(job)) >= 2
    ensures Execute(cfg, Initial(cfg), acts).Some?
    ensures var s := Execute(cfg, Initial(cfg), acts).value;
      && Final(s) && !s.cancelled && s.finished != [] && s.finished[|s.finished| - 1] == job
  {
    var s0 := Initial(cfg);
    InitialBooks(cfg);
    var whole := SuccessIsPossible(cfg);
    CompletedMeansEverythingWasProbed(cfg, whole);
    SameMembers(Execute(cfg, s0, whole).value.finished, cfg.jobs);
    var before, busy := AboutToSend(cfg, s0, whole, job);
    var s := Execute(cfg, s0, before).value;
    ColleagueOf(cfg, s, busy, job);
    var after := FinishWith(cfg, s, busy);
    ExecuteConcat(cfg, s0, before, after);
    acts := before + after;
    UncancelledVerdictIsExact(cfg, acts);
    var end := Execute(cfg, s0, acts).value;
    assert |end.finished| == |multiset(end.finished)| == |multiset(cfg.jobs)| == |cfg.jobs|;
  }
}
