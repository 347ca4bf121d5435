/** From target lines to scan jobs. */
module JobPlan {
  import opened Wrappers
  import opened Targets
  import opened Cidr

  datatype Job = Job(targetIP: string, targetName: string, port: int, protocol: string)

  datatype RawBlock = Block(addr: seq<int>, prefix: nat)

  /** The IPv4-mapped IPv6 addresses, ::ffff:0:0/96, which `net` treats as IPv4. */
  const MAPPED: seq<int> := [0, 0, 0, 0, 0, 0, 0, 0, 0, 0, 255, 255, 0, 0, 0, 0]

  /** The block shares an address with the mapped ones. */
  predicate MeetsMapped(b: RawBlock)
    requires |b.addr| == 16
  {
    var bits := if b.prefix < 96 then b.prefix else 96;
    Contains(MAPPED, bits, b.addr)
  }

  /** An IPv4 block, or an IPv6 block apart from the mapped addresses. A /0 block is left out: its expansion never ends
      (`Cidr.LoopEndsUnlessPrefixIsZero`). */
  type Block = b: RawBlock |
      && IsBytes(b.addr) && 1 <= b.prefix <= 8 * |b.addr|
      && (|b.addr| == 4 || (|b.addr| == 16 && !MeetsMapped(b)))
    witness Block([0, 0, 0, 0], 32)

  /** `net.ParseCIDR`, the printed form of an address, and `net.LookupIP`, fixed for one run. */
  datatype Resolver = Resolver(
    parseCIDR: string -> Option<Block>,
    printAddr: seq<int> -> string,
    lookupIP: string -> Option<seq<string>>
  )

  function PrintAll(res: Resolver, addrs: seq<seq<int>>): seq<string> {
    seq(|addrs|, i requires 0 <= i < |addrs| => res.printAddr(addrs[i]))
  }

  function Resolve(res: Resolver, target: string): Result<seq<string>> {
    if '/' in target then
      match res.parseCIDR(target)
      case None => Err([TargetParse])
      case Some(b) => Ok(PrintAll(res, Expansion(b.addr, b.prefix)))
    else
      match res.lookupIP(target)
      case None => Err([TargetResolution])
      case Some(ips) => Ok(ips)
  }

  function PortJobs(ip: string, name: string, ports: seq<int>, protocol: string): seq<Job> {
    seq(|ports|, i requires 0 <= i < |ports| => Job(ip, name, ports[i], protocol))
  }

  function AddressJobs(ip: string, name: string, tcp: seq<int>, udp: seq<int>): seq<Job> {
    PortJobs(ip, name, tcp, "tcp") + PortJobs(ip, name, udp, "udp")
  }

  function TargetJobs(ips: seq<string>, name: string, tcp: seq<int>, udp: seq<int>): seq<Job> {
    if ips == [] then [] else AddressJobs(ips[0], name, tcp, udp) + TargetJobs(ips[1..], name, tcp, udp)
  }

  /** Every job of a list of targets, in order; targets that do not resolve contribute none. */
  function PlannedJobs(res: Resolver, targets: seq<string>, tcp: seq<int>, udp: seq<int>): seq<Job> {
    if targets == [] then [] else
      var r := Resolve(res, targets[0]);
      (if r.Ok? then TargetJobs(r.value, targets[0], tcp, udp) else [])
      + PlannedJobs(res, targets[1..], tcp, udp)
  }

  /** The first failure to parse or resolve a target, or else a failed read of the stream. */
  function PlanError(res: Resolver, targets: seq<string>, readFailed: bool): Error {
    if targets == [] then if readFailed then [TargetParse] else Nil
    else if Resolve(res, targets[0]).Err? then Resolve(res, targets[0]).error
    else PlanError(res, targets[1..], readFailed)
  }

  lemma {:induction false} TargetJobsConcat(a: seq<string>, b: seq<string>, name: string, tcp: seq<int>, udp: seq<int>)
    ensures TargetJobs(a + b, name, tcp, udp) == TargetJobs(a, name, tcp, udp) + TargetJobs(b, name, tcp, udp)
  {
    if a == [] {
      assert a + b == b;
    } else {
      assert (a + b)[0] == a[0] && (a + b)[1..] == a[1..] + b;
      TargetJobsConcat(a[1..], b, name, tcp, udp);
    }
  }

  lemma {:induction false} PlannedJobsConcat(res: Resolver, a: seq<string>, b: seq<string>, tcp: seq<int>, udp: seq<int>)
    ensures PlannedJobs(res, a + b, tcp, udp) == PlannedJobs(res, a, tcp, udp) + PlannedJobs(res, b, tcp, udp)
  {
    if a == [] {
      assert a + b == b;
    } else {
      assert (a + b)[0] == a[0] && (a + b)[1..] == a[1..] + b;
      PlannedJobsConcat(res, a[1..], b, tcp, udp);
    }
  }

  lemma {:induction false} PlanErrorConcat(res: Resolver, a: seq<string>, b: seq<string>, readFailed: bool)
    ensures PlanError(res, a + b, readFailed)
         == if PlanError(res, a, false) != Nil then PlanError(res, a, false) else PlanError(res, b, readFailed)
  {
    if a == [] {
      assert a + b == b;
    } else {
      assert (a + b)[0] == a[0] && (a + b)[1..] == a[1..] + b;
      PlanErrorConcat(res, a[1..], b, readFailed);
    }
  }

  /** `dispatchJobs`: send the jobs of one address. `cancelled(k)` says whether the context is cancelled
      when `k` jobs have been sent; the jobs sent are a prefix of the intended ones, all of them unless cancelled. */
  method DispatchJobs(
      ip: string, name: string, tcp: seq<int>, udp: seq<int>, sent: seq<Job>, cancelled: nat -> bool)
    returns (jobs: seq<Job>, err: Error)
    ensures sent <= jobs <= sent + AddressJobs(ip, name, tcp, udp)
    ensures err == Nil ==> jobs == sent + AddressJobs(ip, name, tcp, udp)
    ensures err != Nil ==> err == [ContextCanceled] && cancelled(|jobs|)
  {
    jobs := sent;
    for i := 0 to |tcp|
      invariant jobs == sent + PortJobs(ip, name, tcp, "tcp")[..i]
    {
      if cancelled(|jobs|) {
        return jobs, [ContextCanceled];
      }
      jobs := jobs + [Job(ip, name, tcp[i], "tcp")];
    }
    for i := 0 to |udp|
      invariant jobs == sent + PortJobs(ip, name, tcp, "tcp") + PortJobs(ip, name, udp, "udp")[..i]
    {
      if cancelled(|jobs|) {
        return jobs, [ContextCanceled];
      }
      jobs := jobs + [Job(ip, name, udp[i], "udp")];
    }
    err := if cancelled(|jobs|) then [ContextCanceled] else Nil;
  }

  lemma TargetJobsStep(sent: seq<Job>, ips: seq<string>, i: nat, name: string, tcp: seq<int>, udp: seq<int>)
    requires i < |ips|
    ensures var before := sent + TargetJobs(ips[..i], name, tcp, udp);
      var after := before + AddressJobs(ips[i], name, tcp, udp);
      after == sent + TargetJobs(ips[..i + 1], name, tcp, udp) && after <= sent + TargetJobs(ips, name, tcp, udp)
  {
    assert ips[..i + 1] == ips[..i] + [ips[i]] && ips == ips[..i + 1] + ips[i + 1..];
    TargetJobsConcat(ips[..i], [ips[i]], name, tcp, udp);
    TargetJobsConcat(ips[..i + 1], ips[i + 1..], name, tcp, udp);
    var one := AddressJobs(ips[i], name, tcp, udp);
    assert TargetJobs([ips[i]], name, tcp, udp) == one + TargetJobs([], name, tcp, udp) == one;
  }

  method DispatchTarget(
      ips: seq<string>, name: string, tcp: seq<int>, udp: seq<int>, sent: seq<Job>, cancelled: nat -> bool)
    returns (jobs: seq<Job>, err: Error)
    ensures sent <= jobs <= sent + TargetJobs(ips, name, tcp, udp)
    ensures err == Nil ==> jobs == sent + TargetJobs(ips, name, tcp, udp)
    ensures err != Nil ==> err == [ContextCanceled] && cancelled(|jobs|)
  {
    jobs := sent;
    for i := 0 to |ips|
      invariant jobs == sent + TargetJobs(ips[..i], name, tcp, udp)
    {
      TargetJobsStep(sent, ips, i, name, tcp, udp);
      jobs, err := DispatchJobs(ips[i], name, tcp, udp, jobs, cancelled);
      if err != Nil {
        return;
      }
    }
    assert ips[..|ips|] == ips;
    err := Nil;
  }

  /** What line `i` adds to the plan of the lines before it. */
  lemma PlanStep(res: Resolver, lines: seq<string>, i: nat, tcp: seq<int>, udp: seq<int>)
    requires i < |lines|
    ensures var t := ParseTargetLine(lines[i]);
      var before, after := Kept(lines[..i]), Kept(lines[..i + 1]);
      var (jobs, failed) := (PlannedJobs(res, before, tcp, udp), PlanError(res, before, false));
      && PlannedJobs(res, after, tcp, udp) ==
           (if t.Some? && Resolve(res, t.value).Ok? then jobs + TargetJobs(Resolve(res, t.value).value, t.value, tcp, udp)
            else jobs)
      && PlanError(res, after, false) ==
           (if failed == Nil && t.Some? && Resolve(res, t.value).Err? then Resolve(res, t.value).error else failed)
  {
    var t := ParseTargetLine(lines[i]);
    var before := Kept(lines[..i]);
    KeptStep(lines, i);
    if t.Some? {
      PlannedJobsConcat(res, before, [t.value], tcp, udp);
      PlanErrorConcat(res, before, [t.value], false);
      StepOfOne(res, t.value, tcp, udp);
    } else {
      assert before + [] == before;
    }
  }

  lemma PlanPrefix(res: Resolver, lines: seq<string>, i: nat, tcp: seq<int>, udp: seq<int>)
    requires i <= |lines|
    ensures PlannedJobs(res, Kept(lines[..i]), tcp, udp) <= PlannedJobs(res, Kept(lines), tcp, udp)
  {
    assert lines == lines[..i] + lines[i..];
    KeptConcat(lines[..i], lines[i..]);
    PlannedJobsConcat(res, Kept(lines[..i]), Kept(lines[i..]), tcp, udp);
  }

  /** `StreamTargets`: without cancellation it sends exactly the planned jobs and answers the plan's error;
      with it, a prefix of them and the context's error. */
  method StreamTargets(
      res: Resolver, text: string, tcp: seq<int>, udp: seq<int>, readFailed: bool, cancelled: nat -> bool)
    returns (jobs: seq<Job>, err: Error)
    ensures jobs <= PlannedJobs(res, Kept(ScanLines(text)), tcp, udp)
    ensures || (&& err == PlanError(res, Kept(ScanLines(text)), readFailed)
                && jobs == PlannedJobs(res, Kept(ScanLines(text)), tcp, udp))
            || (err == [ContextCanceled] && cancelled(|jobs|))
  {
    jobs, err := [], Nil;
    var lines := ScanLines(text);
    for i := 0 to |lines|
      invariant jobs == PlannedJobs(res, Kept(lines[..i]), tcp, udp)
      invariant err == PlanError(res, Kept(lines[..i]), false)
    {
      PlanStep(res, lines, i, tcp, udp);
      PlanPrefix(res, lines, i + 1, tcp, udp);
      var target := ParseTargetLine(lines[i]);
      if target.None? {
        continue;
      }
      var addresses := ResolveTarget(res, target.value);
      if addresses.Err? {
        if err == Nil {
          err := addresses.error;
        }
        continue;
      }
      var failure;
      jobs, failure := DispatchTarget(addresses.value, target.value, tcp, udp, jobs, cancelled);
      if failure != Nil {
        return jobs, failure;
      }
    }
    assert lines[..|lines|] == lines;
    PlanErrorConcat(res, Kept(lines), [], readFailed);
    assert Kept(lines) + [] == Kept(lines);
    if readFailed && err == Nil {
      err := [TargetParse];
    }
  }

  lemma StepOfOne(res: Resolver, target: string, tcp: seq<int>, udp: seq<int>)
    ensures var r := Resolve(res, target);
      && PlannedJobs(res, [target], tcp, udp) == (if r.Ok? then TargetJobs(r.value, target, tcp, udp) else [])
      && PlanError(res, [target], false) == (if r.Ok? then Nil else r.error)
  {
    assert [target][1..] == [];
    assert PlannedJobs(res, [], tcp, udp) == [];
  }

  /** Expand a block or look a name up. */
  method ResolveTarget(res: Resolver, target: string) returns (r: Result<seq<string>>)
    ensures r == Resolve(res, target)
  {
    if '/' in target {
      var block := res.parseCIDR(target);
      if block.None? {
        return Err([TargetParse]);
      }
      var addrs := ExpandCIDR(block.value.addr, block.value.prefix);
      r := Ok(PrintAll(res, addrs));
    } else {
      var ips := res.lookupIP(target);
      r := if ips.None? then Err([TargetResolution]) else Ok(ips.value);
    }
  }

  // ---------------------------------------------------------------- what a plan covers

  predicate PortListed(j: Job, tcp: seq<int>, udp: seq<int>) {
    (j.protocol == "tcp" && j.port in tcp) || (j.protocol == "udp" && j.port in udp)
  }

  lemma {:induction false} TargetJobsMembers(ips: seq<string>, name: string, tcp: seq<int>, udp: seq<int>, j: Job)
    ensures j in TargetJobs(ips, name, tcp, udp)
       <==> j.targetIP in ips && j.targetName == name
            && PortListed(j, tcp, udp)
  {
    if ips != [] {
      TargetJobsMembers(ips[1..], name, tcp, udp, j);
      assert ips == [ips[0]] + ips[1..];
      AddressJobsMembers(ips[0], name, tcp, udp, j);
    }
  }

  lemma PortJobsMembers(ip: string, name: string, ports: seq<int>, protocol: string, j: Job)
    ensures j in PortJobs(ip, name, ports, protocol)
       <==> j.targetIP == ip && j.targetName == name && j.protocol == protocol && j.port in ports
  {
    var jobs := PortJobs(ip, name, ports, protocol);
    if j.targetIP == ip && j.targetName == name && j.protocol == protocol && j.port in ports {
      var i :| 0 <= i < |ports| && ports[i] == j.port;
      assert jobs[i] == j;
    }
  }

  lemma AddressJobsMembers(ip: string, name: string, tcp: seq<int>, udp: seq<int>, j: Job)
    ensures j in AddressJobs(ip, name, tcp, udp)
       <==> j.targetIP == ip && j.targetName == name
            && PortListed(j, tcp, udp)
  {
    PortJobsMembers(ip, name, tcp, "tcp", j);
    PortJobsMembers(ip, name, udp, "udp", j);
  }

  /** The plan is the full product: a job is planned exactly when its target resolves to its address
      and its port is listed for its protocol. */
  lemma {:induction false} PlanIsProduct(res: Resolver, targets: seq<string>, tcp: seq<int>, udp: seq<int>, j: Job)
    ensures j in PlannedJobs(res, targets, tcp, udp)
       <==> j.targetName in targets
            && Resolve(res, j.targetName).Ok? && j.targetIP in Resolve(res, j.targetName).value
            && PortListed(j, tcp, udp)
  {
    if targets != [] {
      PlanIsProduct(res, targets[1..], tcp, udp, j);
      assert targets == [targets[0]] + targets[1..];
      if Resolve(res, targets[0]).Ok? {
        TargetJobsMembers(Resolve(res, targets[0]).value, targets[0], tcp, udp, j);
      }
    }
  }

  /** A plan is free of errors exactly when the stream was read and every target resolved. */
  lemma {:induction false} CleanPlanResolvesAll(res: Resolver, targets: seq<string>, readFailed: bool)
    ensures PlanError(res, targets, readFailed) == Nil
       <==> !readFailed && forall t | t in targets :: Resolve(res, t).Ok?
  {
    if targets != [] {
      CleanPlanResolvesAll(res, targets[1..], readFailed);
      assert targets == [targets[0]] + targets[1..];
    }
  }

  // ---------------------------------------------------------------- which addresses a target stands for

  /** The first or the last address of a block of more than two. */
  predicate IsEnd(b: Block, a: seq<int>) {
    && 8 * |b.addr| - b.prefix > 1
    && (a == Mask(b.addr, b.prefix) || !Contains(b.addr, b.prefix, Increment(a)))
  }

  /** An address of the block that is scanned. */
  predicate IsScanned(b: Block, a: seq<int>) {
    IsBytes(a) && |a| == |b.addr| && Contains(b.addr, b.prefix, a) && !IsEnd(b, a)
  }

  /** The network address and the size of a block. */
  function FirstOf(b: Block): int {
    Val(Mask(b.addr, b.prefix))
  }

  function SizeOf(b: Block): nat {
    BlockSize(|b.addr|, b.prefix)
  }

  lemma FirstByValue(b: Block)
    ensures FirstOf(b) == Val(b.addr) - Val(b.addr) % SizeOf(b)
    ensures 0 <= FirstOf(b) && FirstOf(b) + SizeOf(b) <= Pow2(8 * |b.addr|)
  {
    MaskValue(b.addr, b.prefix);
    BlockIsInRange(b.addr, b.prefix);
  }

  /** The block by value. */
  lemma BlockByValue(b: Block, a: seq<int>)
    requires IsBytes(a) && |a| == |b.addr|
    ensures Contains(b.addr, b.prefix, a) <==> FirstOf(b) <= Val(a) < FirstOf(b) + SizeOf(b)
  {
    ContainsIsRange(b.addr, b.prefix, a);
  }

  lemma SizesByPrefix(n: nat)
    ensures Pow2(n) > 2 <==> n > 1
  {
    if n > 1 {
      assert Pow2(n) == 2 * Pow2(n - 1) && Pow2(n - 1) == 2 * Pow2(n - 2);
    }
  }

  /** A block that reaches the last address does not begin at the first: only a /0 block does both. */
  lemma FirstIsPositive(b: Block)
    requires FirstOf(b) + SizeOf(b) == Pow2(8 * |b.addr|)
    ensures FirstOf(b) > 0
  {
    var n := 8 * |b.addr|;
    Pow2Grows(n - b.prefix, n - 1);
    assert Pow2(n) == 2 * Pow2(n - 1);
  }

  lemma {:induction false} Pow2Grows(a: nat, b: nat)
    requires a <= b
    ensures Pow2(a) <= Pow2(b)
  {
    if a < b {
      Pow2Grows(a, b - 1);
    }
  }

  lemma LastByValue(b: Block, a: seq<int>)
    requires IsBytes(a) && |a| == |b.addr| && Contains(b.addr, b.prefix, a)
    ensures !Contains(b.addr, b.prefix, Increment(a)) <==> Val(a) == FirstOf(b) + SizeOf(b) - 1
  {
    BlockInRange(b);
    BlockByValue(b, a);
    NextByValue(b, a);
    BlockByValue(b, Increment(a));
  }

  lemma BlockInRange(b: Block)
    ensures 0 <= FirstOf(b) && FirstOf(b) + SizeOf(b) <= Pow2(8 * |b.addr|)
    ensures FirstOf(b) + SizeOf(b) == Pow2(8 * |b.addr|) ==> FirstOf(b) > 0
  {
    FirstByValue(b);
    if FirstOf(b) + SizeOf(b) == Pow2(8 * |b.addr|) {
      FirstIsPositive(b);
    }
  }

  /** The next address is one further, or the first of all. */
  lemma NextByValue(b: Block, a: seq<int>)
    requires IsBytes(a) && |a| == |b.addr|
    ensures IsBytes(Increment(a)) && |Increment(a)| == |a|
    ensures Val(a) < Pow2(8 * |b.addr|)
    ensures Val(Increment(a)) == if Val(a) + 1 == Pow2(8 * |b.addr|) then 0 else Val(a) + 1
  {
    var width := Pow2(8 * |a|);
    ValBounds(a);
    IncrementAddsOne(a);
    if Val(a) + 1 == width {
      RemainderOf(width, width, 1, 0);
    } else {
      RemainderOf(Val(a) + 1, width, 0, Val(a) + 1);
    }
  }

  /** The ends by value. */
  lemma EndsByValue(b: Block, a: seq<int>)
    requires IsBytes(a) && |a| == |b.addr| && Contains(b.addr, b.prefix, a)
    ensures IsEnd(b, a) <==> SizeOf(b) > 2 && (Val(a) == FirstOf(b) || Val(a) == FirstOf(b) + SizeOf(b) - 1)
  {
    SizesByPrefix(8 * |b.addr| - b.prefix);
    MaskIsBytes(b.addr, b.prefix);
    ValIsInjective(a, Mask(b.addr, b.prefix));
    LastByValue(b, a);
  }

  /** The expansion lists exactly the scanned addresses of the block. */
  lemma ExpansionIsScanned(b: Block, a: seq<int>)
    requires IsBytes(a) && |a| == |b.addr|
    ensures a in Expansion(b.addr, b.prefix) <==> IsScanned(b, a)
  {
    var block := Expansion(b.addr, b.prefix);
    var first := if SizeOf(b) > 2 then FirstOf(b) + 1 else FirstOf(b);
    FirstByValue(b);
    ExpansionListsBlock(b.addr, b.prefix);
    BlockByValue(b, a);
    if Contains(b.addr, b.prefix, a) {
      EndsByValue(b, a);
    }
    if a in block {
      var i :| 0 <= i < |block| && block[i] == a;
      assert Val(block[i]) == first + i;
    }
    if IsScanned(b, a) {
      var i := Val(a) - first;
      assert Val(block[i]) == Val(a);
      ValIsInjective(block[i], a);
    }
  }

  /** A target with a slash stands for the scanned addresses of its block and for nothing else;
      any other target for what it is looked up as. */
  lemma TargetAddresses(res: Resolver, target: string, ip: string)
    requires Resolve(res, target).Ok?
    ensures ip in Resolve(res, target).value
       <==> if '/' in target then
              res.parseCIDR(target).Some? && exists a :: IsScanned(res.parseCIDR(target).value, a) && res.printAddr(a) == ip
            else res.lookupIP(target).Some? && ip in res.lookupIP(target).value
  {
    if '/' in target {
      var b := res.parseCIDR(target).value;
      var block, printed := Expansion(b.addr, b.prefix), Resolve(res, target).value;
      ExpansionListsBlock(b.addr, b.prefix);
      if ip in printed {
        var i :| 0 <= i < |printed| && printed[i] == ip;
        assert block[i] in block && res.printAddr(block[i]) == ip;
        ExpansionIsScanned(b, block[i]);
      }
      if exists a :: IsScanned(b, a) && res.printAddr(a) == ip {
        var a :| IsScanned(b, a) && res.printAddr(a) == ip;
        ExpansionIsScanned(b, a);
        var i :| 0 <= i < |block| && block[i] == a;
        assert printed[i] == ip;
      }
    }
  }

  /** For a listed block, a job is planned for every scanned address and every listed port,
      and every planned job of the target names such an address. */
  lemma BlockIsPlanned(res: Resolver, targets: seq<string>, tcp: seq<int>, udp: seq<int>, target: string, j: Job)
    requires target in targets && '/' in target && res.parseCIDR(target).Some? && j.targetName == target
    ensures j in PlannedJobs(res, targets, tcp, udp)
       <==> && PortListed(j, tcp, udp)
            && exists a :: IsScanned(res.parseCIDR(target).value, a) && res.printAddr(a) == j.targetIP
  {
    PlanIsProduct(res, targets, tcp, udp, j);
    TargetAddresses(res, target, j.targetIP);
  }

  // ---------------------------------------------------------------- how often, in which order, and why not

  /** How often a job's port is listed for its protocol. */
  function PortCount(j: Job, tcp: seq<int>, udp: seq<int>): nat {
    if j.protocol == "tcp" then Occurs(tcp, j.port) else if j.protocol == "udp" then Occurs(udp, j.port) else 0
  }

  function Occurs<T(==)>(s: seq<T>, x: T): nat {
    multiset(s)[x]
  }

  lemma OccursConcat<T>(s: seq<T>, t: seq<T>, x: T)
    ensures Occurs(s + t, x) == Occurs(s, x) + Occurs(t, x)
  {
  }

  lemma OccursFirst<T>(s: seq<T>, x: T)
    requires s != []
    ensures Occurs(s, x) == (if s[0] == x then 1 else 0) + Occurs(s[1..], x)
  {
    assert s == [s[0]] + s[1..];
  }

  lemma OneMore(n: nat, c: nat)
    ensures (1 + n) * c == c + n * c
  {
  }

  lemma {:induction false} PortJobsCount(ip: string, name: string, ports: seq<int>, protocol: string, j: Job)
    ensures Occurs(PortJobs(ip, name, ports, protocol), j)
         == if j.targetIP == ip && j.targetName == name && j.protocol == protocol then Occurs(ports, j.port) else 0
  {
    if ports != [] {
      var jobs, rest := PortJobs(ip, name, ports, protocol), PortJobs(ip, name, ports[1..], protocol);
      assert jobs[1..] == rest;
      OccursFirst(jobs, j);
      OccursFirst(ports, j.port);
      PortJobsCount(ip, name, ports[1..], protocol, j);
    }
  }

  lemma AddressJobsCount(ip: string, name: string, tcp: seq<int>, udp: seq<int>, j: Job)
    ensures Occurs(AddressJobs(ip, name, tcp, udp), j)
         == if j.targetIP == ip && j.targetName == name then PortCount(j, tcp, udp) else 0
  {
    PortJobsCount(ip, name, tcp, "tcp", j);
    PortJobsCount(ip, name, udp, "udp", j);
    OccursConcat(PortJobs(ip, name, tcp, "tcp"), PortJobs(ip, name, udp, "udp"), j);
  }

  lemma {:induction false} TargetJobsCount(ips: seq<string>, name: string, tcp: seq<int>, udp: seq<int>, j: Job)
    ensures Occurs(TargetJobs(ips, name, tcp, udp), j)
         == if j.targetName == name then Occurs(ips, j.targetIP) * PortCount(j, tcp, udp) else 0
  {
    if ips != [] {
      TargetJobsCount(ips[1..], name, tcp, udp, j);
      AddressJobsCount(ips[0], name, tcp, udp, j);
      OccursConcat(AddressJobs(ips[0], name, tcp, udp), TargetJobs(ips[1..], name, tcp, udp), j);
      OccursFirst(ips, j.targetIP);
      OneMore(Occurs(ips[1..], j.targetIP), PortCount(j, tcp, udp));
    }
  }

  /** How often a target resolves to an address. */
  function AddressCount(res: Resolver, target: string, ip: string): nat {
    if Resolve(res, target).Ok? then Occurs(Resolve(res, target).value, ip) else 0
  }

  /** How many jobs equal to `j` one listing of its target gives. */
  function PerListing(res: Resolver, tcp: seq<int>, udp: seq<int>, j: Job): nat {
    AddressCount(res, j.targetName, j.targetIP) * PortCount(j, tcp, udp)
  }

  lemma FirstTargetCounts(res: Resolver, targets: seq<string>, tcp: seq<int>, udp: seq<int>, j: Job)
    requires targets != []
    ensures Occurs(PlannedJobs(res, targets, tcp, udp), j)
         == (if targets[0] == j.targetName then PerListing(res, tcp, udp, j) else 0)
            + Occurs(PlannedJobs(res, targets[1..], tcp, udp), j)
  {
    var r, rest := Resolve(res, targets[0]), PlannedJobs(res, targets[1..], tcp, udp);
    if r.Ok? {
      TargetJobsCount(r.value, targets[0], tcp, udp, j);
      OccursConcat(TargetJobs(r.value, targets[0], tcp, udp), rest, j);
    } else {
      assert [] + rest == rest;
    }
  }

  /** A job is planned as often as its target is listed, times as often as that resolves to its address, times as often
      as its port is listed: no job is left out and none is added. */
  lemma {:induction false} PlanCounts(res: Resolver, targets: seq<string>, tcp: seq<int>, udp: seq<int>, j: Job)
    ensures Occurs(PlannedJobs(res, targets, tcp, udp), j)
         == Occurs(targets, j.targetName) * PerListing(res, tcp, udp, j)
  {
    if targets != [] {
      var n, once := Occurs(targets[1..], j.targetName), PerListing(res, tcp, udp, j);
      PlanCounts(res, targets[1..], tcp, udp, j);
      FirstTargetCounts(res, targets, tcp, udp, j);
      OccursFirst(targets, j.targetName);
      OneMore(n, once);
    }
  }

  /** The jobs of one address: its TCP ports in the order listed, then its UDP ports. */
  lemma AddressJobsInOrder(ip: string, name: string, tcp: seq<int>, udp: seq<int>, i: nat)
    requires i < |tcp| + |udp|
    ensures |AddressJobs(ip, name, tcp, udp)| == |tcp| + |udp|
    ensures AddressJobs(ip, name, tcp, udp)[i]
         == if i < |tcp| then Job(ip, name, tcp[i], "tcp") else Job(ip, name, udp[i - |tcp|], "udp")
  {
  }

  /** The first target that does not resolve. */
  predicate FirstBad(res: Resolver, targets: seq<string>, i: nat) {
    i < |targets| && Resolve(res, targets[i]).Err? && forall k | 0 <= k < i :: Resolve(res, targets[k]).Ok?
  }

  /** The plan's error is that of the first target that does not resolve, a parse failure exactly if that one has
      a slash. */
  lemma {:induction false} PlanErrorIsFirst(res: Resolver, targets: seq<string>, readFailed: bool, i: nat)
    requires FirstBad(res, targets, i)
    ensures PlanError(res, targets, readFailed) == if '/' in targets[i] then [TargetParse] else [TargetResolution]
  {
    if i > 0 {
      assert Resolve(res, targets[0]).Ok?;
      assert targets[1..][i - 1] == targets[i] && forall k | 0 <= k < i - 1 :: targets[1..][k] == targets[k + 1];
      PlanErrorIsFirst(res, targets[1..], readFailed, i - 1);
    }
  }

  /** A failed read counts if all targets resolved. */
  lemma {:induction false} ReadErrorIsLast(res: Resolver, targets: seq<string>, readFailed: bool)
    requires forall t | t in targets :: Resolve(res, t).Ok?
    ensures PlanError(res, targets, readFailed) == if readFailed then [TargetParse] else Nil
  {
    if targets != [] {
      assert targets == [targets[0]] + targets[1..];
      ReadErrorIsLast(res, targets[1..], readFailed);
    }
  }
}
