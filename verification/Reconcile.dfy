/** The diff between a committed baseline and one scan, and the patch algebra of its result. */
module Reconcile {
  import opened Wrappers
  import opened Ordering
  import opened ServiceIdentity
  import opened Records

  datatype ChangeKind = Opened | Changed | Closed | Reopened

  datatype Change = Change(kind: ChangeKind, serviceKey: string, previous: Option<Record>, current: Option<Record>)

  predicate ComparisonEqual(a: Record, b: Record) {
    && a.banner == b.banner && a.osHint == b.osHint
    && a.certSubject == b.certSubject && a.certIssuer == b.certIssuer
    && a.sans == b.sans
  }

  /** The change one service key undergoes, if any. */
  function ChangeAt(base: RecordMap, cur: RecordMap, k: string): (r: Option<Change>)
    ensures r.Some? ==> r.value.serviceKey == k
  {
    if k in cur then
      if k !in base then Some(Change(Opened, k, None, Some(cur[k])))
      else if base[k].status == StatusClosed then Some(Change(Reopened, k, Some(base[k]), Some(cur[k])))
      else if !ComparisonEqual(base[k], cur[k]) then Some(Change(Changed, k, Some(base[k]), Some(cur[k])))
      else None
    else if k in base && base[k].status == StatusOpen then Some(Change(Closed, k, Some(base[k]), None))
    else None
  }

  predicate KeyLess(a: Change, b: Change) {
    StringLess(a.serviceKey, b.serviceKey)
  }

  /** What a change list has to be: strictly ascending by key, and exactly the changes of the two maps. */
  ghost predicate IsChangeList(base: RecordMap, cur: RecordMap, cs: seq<Change>) {
    && Ascending(KeyLess, cs)
    && forall c :: c in cs <==> ChangeAt(base, cur, c.serviceKey) == Some(c)
  }

  ghost function ChangesOver(base: RecordMap, cur: RecordMap, keys: seq<string>): (cs: seq<Change>)
    requires Ascending(StringLess, keys)
    ensures Ascending(KeyLess, cs)
    ensures forall c :: c in cs <==> c.serviceKey in keys && ChangeAt(base, cur, c.serviceKey) == Some(c)
  {
    if keys == [] then [] else
      assert keys == [keys[0]] + keys[1..];
      var c := ChangeAt(base, cur, keys[0]);
      (if c.Some? then [c.value] else []) + ChangesOver(base, cur, keys[1..])
  }

  ghost function Reconciled(base: RecordMap, cur: RecordMap): (cs: seq<Change>)
    ensures IsChangeList(base, cur, cs)
  {
    StringOrder();
    var keys := Enumerate(StringLess, base.Keys + cur.Keys);
    assert forall k :: k in keys <==> k in Elements(keys);
    ChangesOver(base, cur, keys)
  }

  /** Two maps have one change list, whatever order the maps are walked in and however the sort breaks ties. */
  lemma {:induction false} ChangeListIsUnique(base: RecordMap, cur: RecordMap, cs: seq<Change>, ds: seq<Change>)
    requires IsChangeList(base, cur, cs) && IsChangeList(base, cur, ds)
    ensures cs == ds
  {
    StringOrder();
    ListIsDetermined(cs, ds);
  }

  lemma {:induction false} ListIsDetermined(cs: seq<Change>, ds: seq<Change>)
    requires Ascending(KeyLess, cs) && Ascending(KeyLess, ds)
    requires forall c :: c in cs <==> c in ds
    ensures cs == ds
  {
    StringOrder();
    assert cs != [] ==> cs[0] in ds;
    assert ds != [] ==> ds[0] in cs;
    if cs != [] && ds != [] {
      assert cs == [cs[0]] + cs[1..] && ds == [ds[0]] + ds[1..];
      assert cs[0] == ds[0] by {
        HeadHasLeastKey(cs, ds[0]);
        HeadHasLeastKey(ds, cs[0]);
      }
      TailMembers(cs);
      TailMembers(ds);
      ListIsDetermined(cs[1..], ds[1..]);
    }
  }

  lemma HeadHasLeastKey(cs: seq<Change>, c: Change)
    requires Ascending(KeyLess, cs) && c in cs
    ensures c == cs[0] || KeyLess(cs[0], c)
  {
    var i :| 0 <= i < |cs| && cs[i] == c;
    assert i > 0 ==> KeyLess(cs[0], cs[i]);
  }

  lemma TailMembers(cs: seq<Change>)
    requires Ascending(KeyLess, cs) && cs != []
    ensures forall c :: c in cs[1..] <==> c in cs && c != cs[0]
  {
    StringOrder();
    forall c | c in cs[1..] ensures c != cs[0] {
      var i :| 0 <= i < |cs[1..]| && cs[1..][i] == c;
      assert KeyLess(cs[0], cs[i + 1]);
    }
    assert cs == [cs[0]] + cs[1..];
  }

  lemma ByKeyIsWeakOrder()
    ensures StrictWeakOrder(KeyLess)
  {
    StringOrder();
    forall x, y | KeyLess(x, y) ensures !KeyLess(y, x) {
      if KeyLess(y, x) { StringLessTransitive(x.serviceKey, y.serviceKey, x.serviceKey); }
    }
    forall x, y, z | !KeyLess(x, y) && !KeyLess(y, z) ensures !KeyLess(x, z) {
      if KeyLess(x, z) {
        StringLessTotal(x.serviceKey, y.serviceKey);
        StringLessTotal(y.serviceKey, z.serviceKey);
        if StringLess(z.serviceKey, y.serviceKey) && StringLess(y.serviceKey, x.serviceKey) {
          StringLessTransitive(z.serviceKey, y.serviceKey, x.serviceKey);
          StringLessTransitive(x.serviceKey, z.serviceKey, x.serviceKey);
        }
      }
    }
  }

  ghost predicate DistinctKeys(cs: seq<Change>) {
    forall i, j | 0 <= i < j < |cs| :: cs[i].serviceKey != cs[j].serviceKey
  }

  lemma SortedByKey(cs: seq<Change>, r: seq<Change>)
    requires DistinctKeys(cs) && Sorted(KeyLess, r) && multiset(r) == multiset(cs)
    ensures Ascending(KeyLess, r)
  {
    PermutationKeepsElements(cs, r);
    MultisetOfDistinct(cs);
    MultisetOfDistinct(r);
    forall i, j | 0 <= i < j < |r| ensures KeyLess(r[i], r[j]) {
      assert r[i] in cs && r[j] in cs;
      assert r[i] != r[j];
      StringLessTotal(r[i].serviceKey, r[j].serviceKey);
    }
  }

  /** The two map loops, in any iteration order, followed by the in-place sort. */
  method ReconcileServiceRecords(base: RecordMap, cur: RecordMap) returns (changes: seq<Change>)
    ensures IsChangeList(base, cur, changes)
    ensures changes == Reconciled(base, cur)
  {
    var found: seq<Change> := [];
    var pending := cur.Keys;
    while pending != {}
      invariant pending <= cur.Keys && DistinctKeys(found)
      invariant forall c :: c in found <==>
        c.serviceKey in cur.Keys - pending && ChangeAt(base, cur, c.serviceKey) == Some(c)
    {
      var key :| key in pending;
      if key !in base {
        found := found + [Change(Opened, key, None, Some(cur[key]))];
      } else if base[key].status == StatusClosed {
        found := found + [Change(Reopened, key, Some(base[key]), Some(cur[key]))];
      } else if !ComparisonEqual(base[key], cur[key]) {
        found := found + [Change(Changed, key, Some(base[key]), Some(cur[key]))];
      }
      pending := pending - {key};
    }
    pending := base.Keys;
    while pending != {}
      invariant pending <= base.Keys && DistinctKeys(found)
      invariant forall c :: c in found <==>
        (c.serviceKey in cur.Keys || c.serviceKey in base.Keys - pending)
        && ChangeAt(base, cur, c.serviceKey) == Some(c)
    {
      var key :| key in pending;
      if !(key in cur || base[key].status == StatusClosed) {
        found := found + [Change(Closed, key, Some(base[key]), None)];
      }
      pending := pending - {key};
    }
    ByKeyIsWeakOrder();
    changes := Sort(KeyLess, found);
    SortedByKey(found, changes);
    PermutationKeepsElements(found, changes);
    ChangeListIsUnique(base, cur, changes, Reconciled(base, cur));
  }

  /** The baseline a promotion commits: what was seen, and closed tombstones of what was not. */
  function NextBaseline(base: RecordMap, cur: RecordMap): RecordMap {
    map k | k in base.Keys + cur.Keys :: if k in cur then cur[k] else base[k].(status := StatusClosed)
  }

  method BuildNextBaseline(base: RecordMap, cur: RecordMap) returns (next: RecordMap)
    ensures next == NextBaseline(base, cur)
  {
    next := map[];
    var pending := cur.Keys;
    while pending != {}
      invariant pending <= cur.Keys && next.Keys == cur.Keys - pending
      invariant forall k | k in next :: next[k] == cur[k]
    {
      var key :| key in pending;
      next := next[key := cur[key]];
      pending := pending - {key};
    }
    pending := base.Keys;
    while pending != {}
      invariant pending <= base.Keys && next.Keys == cur.Keys + (base.Keys - pending)
      invariant forall k | k in next :: next[k] == NextBaseline(base, cur)[k]
    {
      var key :| key in pending;
      if key !in cur {
        next := next[key := base[key].(status := StatusClosed)];
      }
      pending := pending - {key};
    }
  }

  /** The effect of one change on a baseline, read off the change alone. */
  function Patch(base: RecordMap, c: Change): RecordMap {
    if c.current.Some? then base[c.serviceKey := c.current.value]
    else if c.previous.Some? then base[c.serviceKey := c.previous.value.(status := StatusClosed)]
    else base
  }

  function Unpatch(next: RecordMap, c: Change): RecordMap {
    if c.previous.Some? then next[c.serviceKey := c.previous.value] else next - {c.serviceKey}
  }

  function PatchAll(base: RecordMap, cs: seq<Change>): RecordMap
    decreases |cs|
  {
    if cs == [] then base else PatchAll(Patch(base, cs[0]), cs[1..])
  }

  /** Undo a list of changes, the last one first. */
  function UnpatchAll(next: RecordMap, cs: seq<Change>): RecordMap {
    if cs == [] then next else Unpatch(UnpatchAll(next, cs[1..]), cs[0])
  }

  function Lookup(m: RecordMap, k: string): Option<Record> {
    if k in m then Some(m[k]) else None
  }

  lemma {:induction false} PatchAllAt(base: RecordMap, cs: seq<Change>, k: string)
    requires DistinctKeys(cs)
    ensures forall c | c in cs && c.serviceKey == k :: Lookup(PatchAll(base, cs), k) == Lookup(Patch(base, c), k)
    ensures (forall c | c in cs :: c.serviceKey != k) ==> Lookup(PatchAll(base, cs), k) == Lookup(base, k)
    decreases |cs|
  {
    if cs != [] {
      assert cs == [cs[0]] + cs[1..];
      PatchAllAt(Patch(base, cs[0]), cs[1..], k);
    }
  }

  lemma {:induction false} UnpatchAllAt(next: RecordMap, cs: seq<Change>, k: string)
    requires DistinctKeys(cs)
    ensures forall c | c in cs && c.serviceKey == k :: Lookup(UnpatchAll(next, cs), k) == c.previous
    ensures (forall c | c in cs :: c.serviceKey != k) ==> Lookup(UnpatchAll(next, cs), k) == Lookup(next, k)
  {
    if cs != [] {
      assert cs == [cs[0]] + cs[1..];
      UnpatchAllAt(next, cs[1..], k);
    }
  }

  lemma AscendingKeysDiffer(cs: seq<Change>)
    requires Ascending(KeyLess, cs)
    ensures DistinctKeys(cs)
  {
    StringOrder();
  }

  lemma EqualLookups(a: RecordMap, b: RecordMap)
    requires forall k: string :: Lookup(a, k) == Lookup(b, k)
    ensures a == b
  {
    forall k: string ensures k in a <==> k in b {
      assert Lookup(a, k) == Lookup(b, k);
    }
    forall k: string | k in a ensures a[k] == b[k] {
      assert Lookup(a, k) == Lookup(b, k);
    }
  }

  /** A key without a change keeps its record. This needs the key to determine address, port and protocol. */
  lemma SilentKeyIsUnchanged(lib: Library, scope: string, base: RecordMap, cur: RecordMap, k: string)
    requires Lawful(lib)
    requires ValidRecords(lib, scope, base, false) && ValidRecords(lib, scope, cur, true)
    requires ChangeAt(base, cur, k).None?
    ensures Lookup(NextBaseline(base, cur), k) == Lookup(base, k)
  {
    if k in cur {
      KeyIdentifiesEndpoint(lib, IdentityOf(scope, base[k]), IdentityOf(scope, cur[k]));
    }
  }

  lemma ChangeCarriesRecords(base: RecordMap, cur: RecordMap, c: Change)
    requires ChangeAt(base, cur, c.serviceKey) == Some(c)
    ensures c.previous == Lookup(base, c.serviceKey)
    ensures Lookup(Patch(base, c), c.serviceKey) == Lookup(NextBaseline(base, cur), c.serviceKey)
  {
  }

  lemma PatchedKey(base: RecordMap, cur: RecordMap, cs: seq<Change>, k: string)
    requires IsChangeList(base, cur, cs)
    ensures var before := Lookup(base, k);
      match ChangeAt(base, cur, k)
      case Some(_) =>
        && Lookup(PatchAll(base, cs), k) == Lookup(NextBaseline(base, cur), k)
        && Lookup(UnpatchAll(NextBaseline(base, cur), cs), k) == before
      case None =>
        && Lookup(PatchAll(base, cs), k) == before
        && Lookup(UnpatchAll(NextBaseline(base, cur), cs), k) == Lookup(NextBaseline(base, cur), k)
  {
    AscendingKeysDiffer(cs);
    PatchAllAt(base, cs, k);
    UnpatchAllAt(NextBaseline(base, cur), cs, k);
    match ChangeAt(base, cur, k)
    case Some(c) =>
      assert c in cs;
      ChangeCarriesRecords(base, cur, c);
    case None =>
  }

  /** Keys without a change keep their record. */
  ghost predicate SilentKeysAgree(base: RecordMap, cur: RecordMap) {
    forall k: string | ChangeAt(base, cur, k).None? :: Lookup(NextBaseline(base, cur), k) == Lookup(base, k)
  }

  /** Among valid records a key that is open on both sides is reported changed exactly when its two records differ. */
  lemma ChangedIffDifferent(lib: Library, scope: string, base: RecordMap, cur: RecordMap, k: string)
    requires Lawful(lib)
    requires ValidRecords(lib, scope, base, false) && ValidRecords(lib, scope, cur, true)
    requires k in base && k in cur && base[k].status == StatusOpen
    ensures ChangeAt(base, cur, k) == if base[k] == cur[k] then None else Some(Change(Changed, k, Some(base[k]), Some(cur[k])))
  {
    KeyIdentifiesEndpoint(lib, IdentityOf(scope, base[k]), IdentityOf(scope, cur[k]));
  }

  lemma ValidRecordsAgree(lib: Library, scope: string, base: RecordMap, cur: RecordMap)
    requires Lawful(lib)
    requires ValidRecords(lib, scope, base, false) && ValidRecords(lib, scope, cur, true)
    ensures SilentKeysAgree(base, cur)
  {
    forall k: string | ChangeAt(base, cur, k).None?
      ensures Lookup(NextBaseline(base, cur), k) == Lookup(base, k)
    {
      SilentKeyIsUnchanged(lib, scope, base, cur, k);
    }
  }

  /** The returned changes patch the old baseline into the promoted one, and their `Previous` records undo it:
      on arbitrary maps exactly when the keys reported as unchanged agree on their whole record. */
  lemma PatchAndUnpatch(base: RecordMap, cur: RecordMap, cs: seq<Change>)
    requires IsChangeList(base, cur, cs)
    ensures PatchAll(base, cs) == NextBaseline(base, cur) <==> SilentKeysAgree(base, cur)
    ensures UnpatchAll(NextBaseline(base, cur), cs) == base <==> SilentKeysAgree(base, cur)
  {
    var next := NextBaseline(base, cur);
    forall k: string
      ensures ChangeAt(base, cur, k).Some? ==>
        Lookup(PatchAll(base, cs), k) == Lookup(next, k) && Lookup(UnpatchAll(next, cs), k) == Lookup(base, k)
      ensures ChangeAt(base, cur, k).None? ==>
        Lookup(PatchAll(base, cs), k) == Lookup(base, k) && Lookup(UnpatchAll(next, cs), k) == Lookup(next, k)
    {
      PatchedKey(base, cur, cs, k);
    }
    if SilentKeysAgree(base, cur) {
      EqualLookups(PatchAll(base, cs), next);
      EqualLookups(UnpatchAll(next, cs), base);
    }
  }

  /** The new baseline is one the strict loader accepts. */
  lemma NextBaselineIsValid(lib: Library, scope: string, base: RecordMap, cur: RecordMap)
    requires ValidRecords(lib, scope, base, false) && ValidRecords(lib, scope, cur, true)
    ensures ValidRecords(lib, scope, NextBaseline(base, cur), false)
  {
    var next := NextBaseline(base, cur);
    forall k | k in next ensures ValidServiceKeyV1(k) && ValidRecord(lib, scope, k, next[k], false) {
      if k !in cur {
        assert IdentityOf(scope, next[k]) == IdentityOf(scope, base[k]);
      }
    }
  }
}
