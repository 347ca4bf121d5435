/** Why the flags must ask for a rate of at least one: a run at rate 0 that completes without probing its job. */
module RateZero {
  import opened Wrappers
  import opened Completion
  import opened JobPlan
  import opened Pipeline
  import opened PipelineMeaning

  lemma Append(cfg: Config, s: State, acts: seq<Action>, now: State, more: seq<Action>, next: State)
    requires Execute(cfg, s, acts) == Some(now) && Execute(cfg, now, more) == Some(next)
    ensures Execute(cfg, s, acts + more) == Some(next)
  {
    ExecuteConcat(cfg, s, acts, more);
  }

  /** A run of two actions. */
  lemma Two(cfg: Config, s: State, a: Action, t: State, b: Action, u: State)
    requires Next(cfg, s, a) == Some(t) && Next(cfg, t, b) == Some(u)
    ensures Execute(cfg, s, [] + [a] + [b]) == Some(u)
  {
    Extend(cfg, s, [], s, a, t);
    Extend(cfg, s, [] + [a], t, b, u);
  }

  /** The producer sends its only job and returns. */
  lemma ProducesOne(cfg: Config, s: State, job: Job) returns (acts: seq<Action>)
    requires !s.panicked && s.producer.Producing? && s.todo == [job] && cfg.workers >= 1 && cfg.planErr == Nil
    requires s.raw == Channel([], false) && s.producerErr == Channel([], false)
    ensures Execute(cfg, s, acts) == Some(s.(
      todo := [], raw := Channel([job], true), producer := ProducerDone(Nil), producerErr := Channel([Nil], true)))
  {
    var t := s.(todo := [], raw := Channel([job], false));
    var u := t.(producer := Produced(Nil));
    var v := u.(producer := ProducerSent(Nil), producerErr := Channel([Nil], false));
    var w := v.(producer := ProducerErrClosed(Nil), producerErr := Channel([Nil], true));
    var x := w.(producer := ProducerDone(Nil), raw := Channel([job], true));
    assert s.todo[1..] == [] && s.raw.items + [job] == [job];
    Extend(cfg, s, [], s, ProducerSend, t);
    Extend(cfg, s, [] + [ProducerSend], t, ProducerReturn, u);
    Extend(cfg, s, [] + [ProducerSend] + [ProducerReturn], u, ProducerReport, v);
    acts := [] + [ProducerSend] + [ProducerReturn] + [ProducerReport];
    Extend(cfg, s, acts, v, ProducerCloseErr, w);
    Extend(cfg, s, acts + [ProducerCloseErr], w, ProducerCloseRaw, x);
    acts := acts + [ProducerCloseErr] + [ProducerCloseRaw];
  }

  /** The router passes one TCP job on. */
  lemma RoutesOne(cfg: Config, s: State, job: Job) returns (acts: seq<Action>)
    requires !s.panicked && s.router.Receiving? && s.raw == Channel([job], true) && cfg.workers >= 1 && !IsUdp(job)
    requires s.tcp == Channel([], false)
    ensures Execute(cfg, s, acts) == Some(s.(raw := Channel([], true), tcp := Channel([job], false)))
  {
    var t := s.(router := Holding(job), raw := Channel([], true));
    var u := t.(router := Receiving, tcp := Channel([job], false));
    assert s.raw.items[1..] == [] && s.tcp.items + [job] == [job];
    Two(cfg, s, RouterReceive, t, RouterSend, u);
    acts := [] + [RouterReceive] + [RouterSend];
  }

  lemma RouterStops(cfg: Config, s: State) returns (acts: seq<Action>)
    requires !s.panicked && s.router.Receiving? && s.raw == Channel([], true) && !s.tcp.closed
    ensures Execute(cfg, s, acts) == Some(s.(tcp := s.tcp.(closed := true), router := TcpClosed(Nil)))
  {
    var t := s.(router := Routed(Nil));
    Two(cfg, s, RouterEnd, t, RouterCloseTcp, t.(tcp := s.tcp.(closed := true), router := TcpClosed(Nil)));
    acts := [] + [RouterEnd] + [RouterCloseTcp];
  }

  lemma RouterReturns(cfg: Config, s: State) returns (acts: seq<Action>)
    requires !s.panicked && s.router == TcpClosed(Nil) && s.udp == Channel([], false) && s.routerErr == Channel([], false)
    ensures Execute(cfg, s, acts) == Some(s.(
      udp := Channel([], true), router := RouterDone(Nil), routerErr := Channel([Nil], true)))
  {
    var t := s.(router := UdpClosed(Nil), udp := Channel([], true));
    var u := t.(router := RouterSent(Nil), routerErr := Channel([Nil], false));
    var v := u.(router := RouterDone(Nil), routerErr := Channel([Nil], true));
    Two(cfg, s, RouterCloseUdp, t, RouterReport, u);
    Extend(cfg, s, [] + [RouterCloseUdp] + [RouterReport], u, RouterCloseErr, v);
    acts := [] + [RouterCloseUdp] + [RouterReport] + [RouterCloseErr];
  }

  lemma TakesOne(cfg: Config, s: State, job: Job)
    requires !s.panicked && s.tcp == Channel([job], true) && |s.workers| == 2 && s.workers[0] == Worker(false, Nil, Idle)
    ensures Next(cfg, s, Take(0)) == Some(s.(
      tcp := Channel([], true), workers := s.workers[0 := Worker(false, Nil, Waiting(job))]))
  {
    assert s.tcp.items[1..] == [] && s.finished + [] == s.finished && s.delivered + [] == s.delivered;
  }

  /** The limiter turns the TCP worker away. */
  lemma TurnedAway(cfg: Config, s: State) returns (acts: seq<Action>)
    requires !s.panicked && !s.cancelled && cfg.rate == 0
    requires |s.workers| == 2 && !s.workers[0].udp && s.workers[0].err == Nil && s.workers[0].stage.Waiting?
    ensures Execute(cfg, s, acts) == Some(s.(workers := s.workers[0 := Worker(false, Nil, Exited)]))
  {
    var t := s.(workers := s.workers[0 := Worker(false, Nil, Leaving)]);
    var u := s.(workers := s.workers[0 := Worker(false, Nil, Exited)]);
    assert s.finished + [] == s.finished && s.delivered + [] == s.delivered;
    assert t.workers[0 := Worker(false, Nil, Exited)] == u.workers;
    Two(cfg, s, Refuse(0), t, Exit(0), u);
    acts := [] + [Refuse(0)] + [Exit(0)];
  }

  /** With the worker goes the job. */
  lemma RefusesOne(cfg: Config, s: State, job: Job) returns (acts: seq<Action>)
    requires !s.panicked && !s.cancelled && cfg.rate == 0 && s.tcp == Channel([job], true)
    requires |s.workers| == 2 && s.workers[0] == Worker(false, Nil, Idle)
    ensures Execute(cfg, s, acts) == Some(s.(
      tcp := Channel([], true), workers := s.workers[0 := Worker(false, Nil, Exited)]))
  {
    TakesOne(cfg, s, job);
    var t := Next(cfg, s, Take(0)).value;
    Extend(cfg, s, [], s, Take(0), t);
    var left := TurnedAway(cfg, t);
    assert t.workers[0 := Worker(false, Nil, Exited)] == s.workers[0 := Worker(false, Nil, Exited)];
    Append(cfg, s, [] + [Take(0)], t, left, Execute(cfg, t, left).value);
    acts := [] + [Take(0)] + left;
  }

  lemma IdleWorkerLeaves(cfg: Config, s: State) returns (acts: seq<Action>)
    requires !s.panicked && s.udp == Channel([], true) && |s.workers| == 2 && s.workers[1] == Worker(true, Nil, Idle)
    ensures Execute(cfg, s, acts) == Some(s.(workers := s.workers[1 := Worker(true, Nil, Exited)]))
  {
    var t := s.(workers := s.workers[1 := Worker(true, Nil, Leaving)]);
    var u := s.(workers := s.workers[1 := Worker(true, Nil, Exited)]);
    assert s.finished + [] == s.finished && s.delivered + [] == s.delivered;
    assert t.workers[1 := Worker(true, Nil, Exited)] == u.workers;
    Extend(cfg, s, [], s, QueueEnd(1), t);
    Extend(cfg, s, [] + [QueueEnd(1)], t, Exit(1), u);
    acts := [] + [QueueEnd(1)] + [Exit(1)];
  }

  lemma MonitorStarts(cfg: Config, s: State)
    requires !s.panicked && AllExited(s) && s.monitor == 0 && !s.resultsClosed
    ensures Next(cfg, s, MonitorResults) == Some(s.(monitor := 1, resultsClosed := true))
  {
  }

  lemma MonitorEnds(cfg: Config, s: State) returns (acts: seq<Action>)
    requires !s.panicked && s.monitor == 1 && !s.workersDone && s.workerErr == Channel([], false)
    ensures Execute(cfg, s, acts) == Some(s.(monitor := 3, workersDone := true, workerErr := Channel([], true)))
  {
    var t := s.(monitor := 2, workerErr := Channel([], true));
    Two(cfg, s, MonitorErrs, t, MonitorDone, t.(monitor := 3, workersDone := true));
    acts := [] + [MonitorErrs] + [MonitorDone];
  }

  lemma ReadsReports(cfg: Config, s: State) returns (acts: seq<Action>)
    requires !s.panicked && s.completion.AwaitProducer?
    requires s.producerErr == Channel([Nil], true) && s.routerErr == Channel([Nil], true)
    ensures Execute(cfg, s, acts) == Some(s.(
      completion := AwaitWorkers(Some(Nil), Some(Nil)), producerErr := Channel([], true), routerErr := Channel([], true)))
  {
    var t := s.(completion := AwaitRouter(Some(Nil)), producerErr := Channel([], true));
    var u := t.(completion := AwaitWorkers(Some(Nil), Some(Nil)), routerErr := Channel([], true));
    assert s.producerErr.items[1..] == [] && s.routerErr.items[1..] == [];
    Two(cfg, s, CompletionProducer, t, CompletionRouter, u);
    acts := [] + [CompletionProducer] + [CompletionRouter];
  }

  lemma DecidesSuccess(cfg: Config, s: State) returns (acts: seq<Action>)
    requires !s.panicked && !s.cancelled && s.completion == AwaitWorkers(Some(Nil), Some(Nil)) && s.workersDone
    requires s.workerErr == Channel([], true)
    ensures Execute(cfg, s, acts) == Some(s.(completion := Decided(ScanCompletion(Completed, Nil))))
  {
    var t := s.(completion := AwaitWorkerErr(Some(Nil), Some(Nil)));
    Two(cfg, s, CompletionWorkers, t, Decide, s.(completion := Decided(ScanCompletion(Completed, Nil))));
    acts := [] + [CompletionWorkers] + [Decide];
  }

  /** The job arrives on the TCP queue, and producer and router have returned. */
  lemma TransmitsOne(cfg: Config, s: State, job: Job) returns (acts: seq<Action>)
    requires cfg.jobs == [job] && !IsUdp(job) && cfg.planErr == Nil && cfg.workers == 1 && s == Initial(cfg)
    ensures Execute(cfg, s, acts) == Some(s.(
      todo := [], raw := Channel([], true), producer := ProducerDone(Nil), producerErr := Channel([Nil], true),
      tcp := Channel([job], true), udp := Channel([], true), router := RouterDone(Nil), routerErr := Channel([Nil], true)))
  {
    var produced := ProducesOne(cfg, s, job);
    var t := Execute(cfg, s, produced).value;
    var routed := RoutesOne(cfg, t, job);
    var u := Execute(cfg, t, routed).value;
    Append(cfg, s, produced, t, routed, u);
    var stopped := RouterStops(cfg, u);
    var v := Execute(cfg, u, stopped).value;
    Append(cfg, s, produced + routed, u, stopped, v);
    var returned := RouterReturns(cfg, v);
    Append(cfg, s, produced + routed + stopped, v, returned, Execute(cfg, v, returned).value);
    acts := produced + routed + stopped + returned;
  }

  lemma DecidesAfterMonitor(cfg: Config, s: State) returns (acts: seq<Action>)
    requires !s.panicked && !s.cancelled && s.monitor == 1 && !s.workersDone && s.workerErr == Channel([], false)
    requires s.completion.AwaitProducer? && s.producerErr == Channel([Nil], true) && s.routerErr == Channel([Nil], true)
    ensures var end := Execute(cfg, s, acts);
      && end.Some? && end.value.completion == Decided(ScanCompletion(Completed, Nil))
      && end.value.finished == s.finished
  {
    var ended := MonitorEnds(cfg, s);
    var t := Execute(cfg, s, ended).value;
    var read := ReadsReports(cfg, t);
    var u := Execute(cfg, t, read).value;
    Append(cfg, s, ended, t, read, u);
    var decided := DecidesSuccess(cfg, u);
    Append(cfg, s, ended + read, u, decided, Execute(cfg, u, decided).value);
    acts := ended + read + decided;
  }

  /** From there to the verdict. */
  lemma CompletesRefused(cfg: Config, s: State, job: Job) returns (acts: seq<Action>)
    requires !s.panicked && !s.cancelled && cfg.rate == 0 && s.tcp == Channel([job], true) && s.udp == Channel([], true)
    requires s.workers == [Worker(false, Nil, Idle), Worker(true, Nil, Idle)] && s.workerErr == Channel([], false)
    requires s.monitor == 0 && !s.resultsClosed && !s.workersDone && s.completion.AwaitProducer?
    requires s.producerErr == Channel([Nil], true) && s.routerErr == Channel([Nil], true)
    ensures var end := Execute(cfg, s, acts);
      && end.Some? && end.value.completion == Decided(ScanCompletion(Completed, Nil))
      && end.value.finished == s.finished
  {
    var refused := RefusesOne(cfg, s, job);
    var t := Execute(cfg, s, refused).value;
    var left := IdleWorkerLeaves(cfg, t);
    var u := Execute(cfg, t, left).value;
    Append(cfg, s, refused, t, left, u);
    acts := refused + left;
    MonitorStarts(cfg, u);
    var v := Next(cfg, u, MonitorResults).value;
    Extend(cfg, s, acts, u, MonitorResults, v);
    acts := acts + [MonitorResults];
    var decided := DecidesAfterMonitor(cfg, v);
    Append(cfg, s, acts, v, decided, Execute(cfg, v, decided).value);
    acts := acts + decided;
  }

  /** At rate 0, a whole run from the start reaches the verdict `completed` without having probed its only job. */
  lemma ZeroRateLosesJobs(cfg: Config, job: Job) returns (acts: seq<Action>)
    requires cfg.jobs == [job] && !IsUdp(job) && cfg.planErr == Nil && cfg.workers == 1 && cfg.rate == 0
    ensures var end := Execute(cfg, Initial(cfg), acts);
      && end.Some? && Settled(end.value) && end.value.completion.verdict.Successful()
      && end.value.finished == [] && multiset(end.value.finished) != multiset(cfg.jobs)
  {
    var s := Initial(cfg);
    assert s.workers == [Worker(false, Nil, Idle), Worker(true, Nil, Idle)];
    var transmitted := TransmitsOne(cfg, s, job);
    var t := Execute(cfg, s, transmitted).value;
    var completed := CompletesRefused(cfg, t, job);
    Append(cfg, s, transmitted, t, completed, Execute(cfg, t, completed).value);
    acts := transmitted + completed;
    assert job in multiset(cfg.jobs);
  }
}
