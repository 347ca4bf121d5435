/** Asset context by longest-prefix match: sort the rules once, then take the first that contains the address. */
module Enrichment {
  import opened Wrappers
  import opened Ordering
  import opened Cidr

  datatype AssetContext = AssetContext(environment: string, criticality: string, owner: string)

  const DEFAULT_CONTEXT := AssetContext("unassigned", "unassigned", "unassigned")

  datatype Family = V4 | V6

  datatype Addr = Addr(family: Family, value: nat)

  function Width(f: Family): nat {
    if f == V4 then 32 else 128
  }

  /** A CIDR prefix. Its address may carry host bits; containment ignores them. */
  datatype RawPrefix = Prefix(addr: Addr, bits: nat)
  type Prefix = p: RawPrefix | p.bits <= Width(p.addr.family) witness Prefix(Addr(V4, 0), 0)

  datatype AssetRule = AssetRule(prefix: Prefix, context: AssetContext)

  /** The leading `bits` of an address. */
  function Network(a: Addr, bits: nat): int
    requires bits <= Width(a.family)
  {
    a.value / Pow2(Width(a.family) - bits)
  }

  predicate Contains(p: Prefix, a: Addr) {
    a.family == p.addr.family && Network(a, p.bits) == Network(p.addr, p.bits)
  }

  /** The masked network of two rules is the same. */
  predicate SameNetwork(p: Prefix, q: Prefix) {
    p.addr.family == q.addr.family && p.bits == q.bits && Network(p.addr, p.bits) == Network(q.addr, q.bits)
  }

  /** A prefix contains an interval of addresses of its family: from its address without the host bits, as many as the
      host bits can number. */
  lemma ContainsIsInterval(p: Prefix, a: Addr)
    ensures var size := Pow2((if p.addr.family == V4 then 32 else 128) - p.bits);
      var first := p.addr.value - p.addr.value % size;
      Contains(p, a) <==> a.family == p.addr.family && first <= a.value < first + size
  {
    if a.family == p.addr.family {
      QuotientByRange(p.addr.value, a.value, Pow2(Width(p.addr.family) - p.bits));
    }
  }

  predicate MoreSpecific(a: AssetRule, b: AssetRule) {
    a.prefix.bits > b.prefix.bits
  }

  function FirstMatch(rules: seq<AssetRule>, a: Addr): AssetContext {
    if rules == [] then DEFAULT_CONTEXT
    else if Contains(rules[0].prefix, a) then rules[0].context
    else FirstMatch(rules[1..], a)
  }

  /** A matcher is its sorted rules and the address parser; `Match` walks the rules. */
  datatype Matcher = Matcher(rules: seq<AssetRule>, parse: string -> Option<Addr>) {
    function MatchString(raw: string): AssetContext {
      if parse(raw).None? then DEFAULT_CONTEXT else FirstMatch(rules, parse(raw).value)
    }
  }

  lemma SpecificityIsWeakOrder()
    ensures StrictWeakOrder(MoreSpecific)
  {
  }

  /** What does not parse as an address has the default context. */
  lemma UnparsedIsUnassigned(m: Matcher, raw: string)
    requires m.parse(raw).None?
    ensures m.MatchString(raw) == AssetContext("unassigned", "unassigned", "unassigned")
  {
  }

  /** `NewMatcher`: a copy of the rules, in some order of descending prefix length. */
  method NewMatcher(rules: seq<AssetRule>, parse: string -> Option<Addr>) returns (m: Matcher)
    ensures multiset(m.rules) == multiset(rules) && Sorted(MoreSpecific, m.rules) && m.parse == parse
  {
    SpecificityIsWeakOrder();
    var sorted := Sort(MoreSpecific, rules);
    m := Matcher(sorted, parse);
  }

  method Match(m: Matcher, addr: Option<Addr>) returns (r: AssetContext)
    ensures r == if addr.None? then DEFAULT_CONTEXT else FirstMatch(m.rules, addr.value)
  {
    if addr.None? {
      return DEFAULT_CONTEXT;
    }
    for i := 0 to |m.rules|
      invariant FirstMatch(m.rules, addr.value) == FirstMatch(m.rules[i..], addr.value)
    {
      if Contains(m.rules[i].prefix, addr.value) {
        return m.rules[i].context;
      }
    }
    r := DEFAULT_CONTEXT;
  }

  /** `rule` is a containing rule of maximal prefix length. */
  ghost predicate IsBest(rules: seq<AssetRule>, a: Addr, rule: AssetRule) {
    && rule in rules && Contains(rule.prefix, a)
    && forall other | other in rules && Contains(other.prefix, a) :: other.prefix.bits <= rule.prefix.bits
  }

  /** However the sort breaks ties, the answer is the context of a containing rule of maximal prefix length,
      or the default when no rule contains the address. */
  lemma {:induction false} MatchIsLongestPrefix(rules: seq<AssetRule>, sorted: seq<AssetRule>, a: Addr)
    requires multiset(sorted) == multiset(rules) && Sorted(MoreSpecific, sorted)
    ensures if exists rule :: rule in rules && Contains(rule.prefix, a)
      then exists rule :: IsBest(rules, a, rule) && FirstMatch(sorted, a) == rule.context
      else FirstMatch(sorted, a) == DEFAULT_CONTEXT
  {
    PermutationKeepsElements(rules, sorted);
    FirstMatchIsBest(sorted, a);
    if exists rule :: rule in rules && Contains(rule.prefix, a) {
      var best :| IsBest(sorted, a, best) && FirstMatch(sorted, a) == best.context;
      assert IsBest(rules, a, best);
    }
  }

  lemma {:induction false} FirstMatchIsBest(sorted: seq<AssetRule>, a: Addr)
    requires Sorted(MoreSpecific, sorted)
    ensures if exists rule :: rule in sorted && Contains(rule.prefix, a)
      then exists rule :: IsBest(sorted, a, rule) && FirstMatch(sorted, a) == rule.context
      else FirstMatch(sorted, a) == DEFAULT_CONTEXT
  {
    if sorted != [] {
      assert sorted == [sorted[0]] + sorted[1..];
      if Contains(sorted[0].prefix, a) {
        assert IsBest(sorted, a, sorted[0]);
      } else {
        FirstMatchIsBest(sorted[1..], a);
        if exists rule :: rule in sorted && Contains(rule.prefix, a) {
          var rule :| rule in sorted && Contains(rule.prefix, a);
          assert rule in sorted[1..];
          var best :| IsBest(sorted[1..], a, best) && FirstMatch(sorted[1..], a) == best.context;
          assert IsBest(sorted, a, best);
        }
      }
    }
  }

  // ---------------------------------------------------------------- when the order of the rules matters

  /** `sorted` is one of the lists an unstable sort may make of the rules. */
  ghost predicate IsSortOf(sorted: seq<AssetRule>, rules: seq<AssetRule>) {
    multiset(sorted) == multiset(rules) && Sorted(MoreSpecific, sorted)
  }

  /** Whatever the sort makes of ties, the answer for `a` is the same. */
  ghost predicate OrderIsIrrelevant(rules: seq<AssetRule>, a: Addr) {
    forall s, t | IsSortOf(s, rules) && IsSortOf(t, rules) :: FirstMatch(s, a) == FirstMatch(t, a)
  }

  /** The most specific rules for `a` agree on the context. */
  ghost predicate BestRulesAgree(rules: seq<AssetRule>, a: Addr) {
    forall x, y | IsBest(rules, a, x) && IsBest(rules, a, y) :: x.context == y.context
  }

  /** Insert a rule in front of the rules of its own prefix length. */
  function InsertFirst(x: AssetRule, s: seq<AssetRule>): seq<AssetRule> {
    if s == [] || !MoreSpecific(s[0], x) then [x] + s else [s[0]] + InsertFirst(x, s[1..])
  }

  lemma {:induction false} InsertFirstSorts(x: AssetRule, s: seq<AssetRule>)
    requires Sorted(MoreSpecific, s)
    ensures Sorted(MoreSpecific, InsertFirst(x, s)) && multiset(InsertFirst(x, s)) == multiset(s) + multiset{x}
  {
    if s != [] && MoreSpecific(s[0], x) {
      InsertFirstSorts(x, s[1..]);
      var rest := InsertFirst(x, s[1..]);
      assert s == [s[0]] + s[1..];
      forall j | 0 <= j < |rest| ensures !MoreSpecific(rest[j], s[0]) {
        assert rest[j] in multiset(rest);
        assert rest[j] == x || rest[j] in s[1..];
      }
    }
  }

  /** Inserted first, a best rule answers. */
  lemma {:induction false} InsertedAnswers(x: AssetRule, s: seq<AssetRule>, a: Addr)
    requires Contains(x.prefix, a)
    requires forall rule | rule in s && Contains(rule.prefix, a) :: !MoreSpecific(rule, x)
    ensures FirstMatch(InsertFirst(x, s), a) == x.context
  {
    if s != [] && MoreSpecific(s[0], x) {
      assert s == [s[0]] + s[1..];
      InsertedAnswers(x, s[1..], a);
    }
  }

  lemma {:induction false} SomeSort(rules: seq<AssetRule>) returns (sorted: seq<AssetRule>)
    ensures IsSortOf(sorted, rules)
  {
    if rules == [] {
      sorted := [];
    } else {
      var rest := SomeSort(rules[1..]);
      InsertFirstSorts(rules[0], rest);
      sorted := InsertFirst(rules[0], rest);
      assert rules == [rules[0]] + rules[1..];
    }
  }

  /** Every best rule is the answer under some sort. */
  lemma BestCanAnswer(rules: seq<AssetRule>, a: Addr, x: AssetRule) returns (sorted: seq<AssetRule>)
    requires IsBest(rules, a, x)
    ensures IsSortOf(sorted, rules) && FirstMatch(sorted, a) == x.context
  {
    var i :| 0 <= i < |rules| && rules[i] == x;
    var others := rules[..i] + rules[i + 1..];
    assert rules == rules[..i] + [x] + rules[i + 1..];
    var rest := SomeSort(others);
    PermutationKeepsElements(others, rest);
    InsertFirstSorts(x, rest);
    sorted := InsertFirst(x, rest);
    forall rule | rule in rest && Contains(rule.prefix, a) ensures !MoreSpecific(rule, x) {
      assert rule in others && rule in rules;
    }
    InsertedAnswers(x, rest, a);
  }

  /** The order of the rules is irrelevant for an address exactly when its most specific rules agree. */
  lemma OrderIsIrrelevantIff(rules: seq<AssetRule>, a: Addr)
    ensures OrderIsIrrelevant(rules, a) <==> BestRulesAgree(rules, a)
  {
    if OrderIsIrrelevant(rules, a) {
      forall x, y | IsBest(rules, a, x) && IsBest(rules, a, y) ensures x.context == y.context {
        var s := BestCanAnswer(rules, a, x);
        var t := BestCanAnswer(rules, a, y);
      }
    }
    if BestRulesAgree(rules, a) {
      forall s, t | IsSortOf(s, rules) && IsSortOf(t, rules) ensures FirstMatch(s, a) == FirstMatch(t, a) {
        MatchIsLongestPrefix(rules, s, a);
        MatchIsLongestPrefix(rules, t, a);
      }
    }
  }

  /** Two best rules that disagree are two answers. */
  lemma TiesDependOnOrder(rules: seq<AssetRule>, a: Addr, x: AssetRule, y: AssetRule)
    returns (s: seq<AssetRule>, t: seq<AssetRule>)
    requires IsBest(rules, a, x) && IsBest(rules, a, y) && x.context != y.context
    ensures SameNetwork(x.prefix, y.prefix)
    ensures IsSortOf(s, rules) && IsSortOf(t, rules) && FirstMatch(s, a) != FirstMatch(t, a)
  {
    s := BestCanAnswer(rules, a, x);
    t := BestCanAnswer(rules, a, y);
  }

  /** Rules of one network have one context; in particular, when no two rules share a network. */
  ghost predicate NetworksAgree(rules: seq<AssetRule>) {
    forall p, q | p in rules && q in rules && SameNetwork(p.prefix, q.prefix) :: p.context == q.context
  }

  /** If they do, neither the order of the rules nor an unstable sort can change an answer. */
  lemma MatchIgnoresOrder(
      rules: seq<AssetRule>, others: seq<AssetRule>, sorted: seq<AssetRule>, sorted': seq<AssetRule>, a: Addr)
    requires multiset(rules) == multiset(others) && NetworksAgree(rules)
    requires IsSortOf(sorted, rules) && IsSortOf(sorted', others)
    ensures FirstMatch(sorted, a) == FirstMatch(sorted', a)
  {
    forall x, y | IsBest(rules, a, x) && IsBest(rules, a, y) ensures x.context == y.context {
      assert SameNetwork(x.prefix, y.prefix);
    }
    OrderIsIrrelevantIff(rules, a);
  }
}
