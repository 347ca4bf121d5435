/** The hypotheses of the end-to-end theorems can be met, and a service can really be reported closed. */
module Witness {
  import opened Wrappers
  import opened ServiceIdentity
  import opened Reconcile
  import opened Store
  import opened History
  import opened Targets
  import opened Scope
  import opened JobPlan
  import opened Pipeline
  import opened EndToEnd
  import opened Batching

  // ---------------------------------------------------------------- an injective digest

  /** A string that says where it ends. */
  function Framed(s: string): string {
    if s == [] then "." else ['x', s[0]] + Framed(s[1..])
  }

  lemma {:induction false} FramedIsPrefixFree(s: string, t: string, a: string, b: string)
    requires Framed(s) + a == Framed(t) + b
    ensures s == t && a == b
  {
    var x, y := Framed(s) + a, Framed(t) + b;
    assert x[0] == y[0];
    if s == [] {
      assert x[1..] == a && y[1..] == b;
    } else {
      assert x[1] == s[0] && y[1] == t[0];
      assert x[2..] == Framed(s[1..]) + a && y[2..] == Framed(t[1..]) + b;
      FramedIsPrefixFree(s[1..], t[1..], a, b);
      assert s == [s[0]] + s[1..] && t == [t[0]] + t[1..];
    }
  }

  function FramedAll(l: seq<string>): string {
    if l == [] then "." else "x" + Framed(l[0]) + FramedAll(l[1..])
  }

  lemma FramedTail(l: seq<string>, a: string)
    requires l != []
    ensures (FramedAll(l) + a)[1..] == Framed(l[0]) + (FramedAll(l[1..]) + a)
  {
  }

  lemma {:induction false} FramedAllIsPrefixFree(l: seq<string>, m: seq<string>, a: string, b: string)
    requires FramedAll(l) + a == FramedAll(m) + b
    ensures l == m && a == b
  {
    var x, y := FramedAll(l) + a, FramedAll(m) + b;
    assert x[0] == y[0];
    if l == [] {
      assert x[1..] == a && y[1..] == b;
    } else {
      FramedTail(l, a);
      FramedTail(m, b);
      FramedIsPrefixFree(l[0], m[0], FramedAll(l[1..]) + a, FramedAll(m[1..]) + b);
      FramedAllIsPrefixFree(l[1..], m[1..], a, b);
      assert l == [l[0]] + l[1..] && m == [m[0]] + m[1..];
    }
  }

  function Numbers(ports: seq<int>): seq<string> {
    seq(|ports|, i requires 0 <= i < |ports| => Number(ports[i]))
  }

  lemma NumbersIsInjective(p: seq<int>, q: seq<int>)
    requires Numbers(p) == Numbers(q)
    ensures p == q
  {
    assert |p| == |Numbers(p)| && |q| == |Numbers(q)|;
    forall i | 0 <= i < |p| ensures p[i] == q[i] {
      assert Numbers(p)[i] == Number(p[i]) && Numbers(q)[i] == Number(q[i]);
      NumberIsInjective(p[i], q[i]);
    }
  }

  function PlainScopeDigest(targets: seq<string>, tcp: seq<int>, udp: seq<int>): string {
    FramedAll(targets) + (FramedAll(Numbers(tcp)) + FramedAll(Numbers(udp)))
  }

  lemma PlainScopeDigestIsInjective(
      t: seq<string>, p: seq<int>, u: seq<int>, t': seq<string>, p': seq<int>, u': seq<int>)
    requires PlainScopeDigest(t, p, u) == PlainScopeDigest(t', p', u')
    ensures t == t' && p == p' && u == u'
  {
    FramedAllIsPrefixFree(t, t', FramedAll(Numbers(p)) + FramedAll(Numbers(u)), FramedAll(Numbers(p')) + FramedAll(Numbers(u')));
    FramedAllIsPrefixFree(Numbers(p), Numbers(p'), FramedAll(Numbers(u)), FramedAll(Numbers(u')));
    assert FramedAll(Numbers(u)) + "" == FramedAll(Numbers(u')) + "";
    FramedAllIsPrefixFree(Numbers(u), Numbers(u'), "", "");
    NumbersIsInjective(p, p');
    NumbersIsInjective(u, u');
  }

  // ---------------------------------------------------------------- an environment

  const HOST := "10.0.0.1"

  function PlainScopes(): ScopeLibrary {
    ScopeLibrary(_ => None, t => if t == HOST then Some(HOST) else None, PlainScopeDigest)
  }

  function PlainResolver(): Resolver {
    Resolver(_ => None, _ => "", t => if t == HOST then Some([HOST]) else None)
  }

  lemma PlainScopesAreLawful()
    ensures CollisionFree(PlainScopes()) && PrintsCanonically(PlainScopes())
  {
    var lib := PlainScopes();
    forall t, p, u ensures lib.digest(t, p, u) != "" {
      assert |FramedAll(t)| >= 1;
    }
    forall t, p, u, t', p', u' | lib.digest(t, p, u) == lib.digest(t', p', u') ensures t == t' && p == p' && u == u' {
      PlainScopeDigestIsInjective(t, p, u, t', p', u');
    }
  }

  /** An environment that knows one address meets every law the theorems assume. */
  lemma LawfulEnvExists() returns (env: Env)
    ensures LawfulEnv(env) && PrintsCanonically(env.scopes)
    ensures env.lib.canonicalIP(HOST) == Some(HOST) && Resolve(env.res, HOST) == Ok([HOST])
  {
    var lib := LawsAreConsistent();
    env := Env(lib, PlainScopes(), PlainResolver());
    PlainScopesAreLawful();
    TrimSpaceIsTight(HOST);
    assert Tight(HOST);
  }

  // ---------------------------------------------------------------- a service opens and closes

  /** `x` with a network on which every job finds something, or none does. */
  function Loud(x: Session, found: Job -> Finding): Session {
    x.(probe := j => Some(found(j)))
  }

  function Silent(x: Session): Session {
    x.(probe := _ => None)
  }

  /** A TCP endpoint of the plan is opened by a session in which it answers, whatever is found. */
  lemma EndpointOpens(env: Env, root: Root, x: Session, found: Job -> Finding, j: Job, k: string) returns (y: Session)
    requires CanComplete(env, root, x) && j in PlanOf(env, x.request) && j.protocol == TCP
    requires KeyedBy(env, IDOf(env, x.request), j, k)
    ensures SameScan(env, Loud(x, found), y) && y.scan == x.scan && ValidSession(env, y) && Completes(env, root, y)
    ensures WellFormed(env.lib, Executing(env, root, y).root)
    ensures LifeOf(CommittedBaseline(Executing(env, root, y).root, IDOf(env, x.request)), k) == Alive
  {
    assert ConfigOf(env, Loud(x, found)).jobs == PlanOf(env, x.request);
    y := SessionCanComplete(env, root, Loud(x, found));
    ReportMatchesNetwork(env, root, y, k);
    assert Answers(env, y, j, k);
  }

  lemma SilenceIsNoAnswer(env: Env, x: Session, k: string)
    requires forall j :: x.probe(j).None?
    ensures !Answered(env, x, k)
  {
  }

  /** And closed by the next session with the same scan ID, if nothing answers there. */
  lemma EndpointCloses(env: Env, root: Root, x: Session, k: string) returns (z: Session, c: Change)
    requires CanComplete(env, root, x)
    requires LifeOf(CommittedBaseline(root, IDOf(env, x.request)), k) == Alive
    ensures SameScan(env, Silent(x), z) && z.scan == x.scan && ValidSession(env, z) && Completes(env, root, z)
    ensures c in Executing(env, root, z).execution.changes && c.kind == Closed && c.serviceKey == k
  {
    z := SessionCanComplete(env, root, Silent(x));
    ReportMatchesNetwork(env, root, z, k);
    SilenceIsNoAnswer(env, z, k);
    assert Reports(Executing(env, root, z).execution.changes, k, Closed);
    c :| c in Executing(env, root, z).execution.changes && c.serviceKey == k && c.kind == Closed;
  }

  /** So the hypotheses of `EndToEnd.NoFalseClosure` are met by real histories: every planned TCP endpoint
      of a request that can complete is reported closed after some history. */
  lemma ClosureCanOccur(env: Env, x: Session, found: Job -> Finding, j: Job) returns (y: Session, z: Session, c: Change)
    requires CanComplete(env, EmptyRoot, x) && j in PlanOf(env, x.request) && j.protocol == TCP
    ensures ValidSessions(env, [y]) && ValidSession(env, z) && z.crash.None?
    ensures Reserving(env, RunSessions(env, [y]), z).result.Ok?
    ensures c in Executing(env, RunSessions(env, [y]), z).execution.changes && c.kind == Closed
  {
    var k := Key(env.lib, JobIdentity(IDOf(env, x.request), j)).value;
    y := EndpointOpens(env, EmptyRoot, x, found, j, k);
    RunOne(env, y);
    AfterCompletion(env, EmptyRoot, y);
    z, c := EndpointCloses(env, Executing(env, EmptyRoot, y).root, x, k);
  }

  lemma RunOne(env: Env, y: Session)
    requires ValidSession(env, y) && Completes(env, EmptyRoot, y)
    ensures ValidSessions(env, [y]) && RunSessions(env, [y]) == Executing(env, EmptyRoot, y).root
  {
    assert [y][..0] == [];
    assert RunSessions(env, []) == EmptyRoot;
  }

  /** And there is an environment with a request that can complete. */
  lemma CompletableSessionExists() returns (env: Env, x: Session, j: Job)
    ensures CanComplete(env, EmptyRoot, x) && j in PlanOf(env, x.request) && j.protocol == TCP
  {
    env := LawfulEnvExists();
    var q := Request([HOST], [443], []);
    x := Session(q, 1, 1, _ => None, false, "scan", [], true, true, _ => true, true, Nil, None);
    j := Job(HOST, HOST, 443, TCP);
    PlanIsProduct(env.res, q.targets, q.tcp, q.udp, j);
    forall i | i in PlanOf(env, q) ensures i == j {
      PlanIsProduct(env.res, q.targets, q.tcp, q.udp, i);
    }
    assert IDOf(env, q) != "";
  }
}
