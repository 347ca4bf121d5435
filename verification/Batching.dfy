/** The micro-batched delta store: buffer results, flush them in batches, emit what changed. */
module Batching {
  import opened Wrappers
  import opened Pipeline
  import opened Coordinator
  import opened Emitter

  const MaxBatchSize := 1000

  datatype Emission = Emission(result: ScanResult, previousState: string)

  type Hashes = map<string, int>

  function Number(n: int): string {
    if n < 0 then "-" + Decimal(-n) else Decimal(n)
  }

  /** The text whose hash stands for a result, SANs printed as a Go slice. */
  function StatePayload(r: ScanResult): string {
    r.state + "|" + r.banner + "|" + r.certSubject + "|" + r.certIssuer + "|[" + Join(r.sans, " ") + "]"
  }

  function TargetKey(r: ScanResult): string {
    r.targetIP + ":" + Number(r.port) + "/" + r.protocol
  }

  lemma NumberIsInjective(n: int, k: int)
    requires Number(n) == Number(k)
    ensures n == k
  {
    assert Number(n)[0] == '-' <==> n < 0;
    assert Number(k)[0] == '-' <==> k < 0;
    if n < 0 && k < 0 {
      SplitAt("-", "-", Decimal(-n), Decimal(-k));
      DecimalIsInjective(-n, -k);
    } else {
      DecimalIsInjective(n, k);
    }
  }

  lemma NumberLacks(n: int, c: char)
    requires c == ':' || c == '/'
    ensures Lacks(Number(n), c)
  {
  }

  /** The store's keys keep protocols, ports and addresses apart, IPv6 addresses with their colons included. */
  lemma TargetKeyNamesEndpoint(r: ScanResult, r': ScanResult)
    requires Lacks(r.protocol, '/') && Lacks(r'.protocol, '/')
    ensures TargetKey(r) == TargetKey(r')
       <==> r.targetIP == r'.targetIP && r.port == r'.port && r.protocol == r'.protocol
  {
    if TargetKey(r) == TargetKey(r') {
      var a, b := r.targetIP + ":" + Number(r.port), r'.targetIP + ":" + Number(r'.port);
      LastSeparator('/', a, b, r.protocol, r'.protocol);
      NumberLacks(r.port, ':');
      NumberLacks(r'.port, ':');
      LastSeparator(':', r.targetIP, r'.targetIP, Number(r.port), Number(r'.port));
      NumberIsInjective(r.port, r'.port);
    }
  }

  /** Two summaries of plain fields are the same exactly when state, banner, subject, issuer and SANs are. */
  lemma StatePayloadTellsFields(a: ScanResult, b: ScanResult)
    requires PlainFields(a, ' ') && PlainFields(b, ' ')
    ensures StatePayload(a) == StatePayload(b) <==> SameFields(a, b)
  {
    if StatePayload(a) == StatePayload(b) {
      JoinLacks(a.sans, ' ', '|');
      JoinLacks(b.sans, ' ', '|');
      var x := [a.state, a.banner, a.certSubject, a.certIssuer, "[" + Join(a.sans, " ") + "]"];
      var y := [b.state, b.banner, b.certSubject, b.certIssuer, "[" + Join(b.sans, " ") + "]"];
      Bracketed(a);
      Bracketed(b);
      FieldsByBars(x, y);
      assert x[4] == y[4];
      assert x[4][1..|x[4]| - 1] == Join(a.sans, " ") && y[4][1..|y[4]| - 1] == Join(b.sans, " ");
      JoinIsInjective(a.sans, b.sans, ' ');
    }
  }

  lemma Bracketed(r: ScanResult)
    ensures StatePayload(r)
         == r.state + "|" + r.banner + "|" + r.certSubject + "|" + r.certIssuer + "|" + ("[" + Join(r.sans, " ") + "]")
  {
  }

  /** How a result is indexed and summarised. */
  datatype Hashing = Hashing(keyOf: ScanResult -> string, hashOf: ScanResult -> int)

  /** The program's choice, on top of the 64-bit hash of a text. */
  function PortHashing(hash: string -> int): Hashing {
    Hashing(TargetKey, r => hash(StatePayload(r)))
  }

  // ---------------------------------------------------------------- one result at a time

  function Written(h: Hashing, m: Hashes, r: ScanResult): Hashes {
    m[h.keyOf(r) := h.hashOf(r)]
  }

  function Delta(h: Hashing, m: Hashes, r: ScanResult): seq<Emission> {
    if h.keyOf(r) !in m then [Emission(r, "UNKNOWN")]
    else if m[h.keyOf(r)] != h.hashOf(r) then [Emission(r, "MUTATED")]
    else []
  }

  function StoreAll(h: Hashing, m: Hashes, rs: seq<ScanResult>): Hashes {
    if rs == [] then m else Written(h, StoreAll(h, m, rs[..|rs| - 1]), rs[|rs| - 1])
  }

  function Deltas(h: Hashing, m: Hashes, rs: seq<ScanResult>): seq<Emission> {
    if rs == [] then [] else
      var front := rs[..|rs| - 1];
      Deltas(h, m, front) + Delta(h, StoreAll(h, m, front), rs[|rs| - 1])
  }

  /** Result `i` is the last of the list with its key. */
  predicate LastOfKey(h: Hashing, rs: seq<ScanResult>, i: nat) {
    i < |rs| && forall j | i < j < |rs| :: h.keyOf(rs[j]) != h.keyOf(rs[i])
  }

  /** Every key ends with the hash of its last result; keys without a result keep theirs. */
  lemma {:induction false} LastResultWins(h: Hashing, m: Hashes, rs: seq<ScanResult>)
    ensures var after := StoreAll(h, m, rs);
      && (forall i: nat | LastOfKey(h, rs, i) ::
            h.keyOf(rs[i]) in after && after[h.keyOf(rs[i])] == h.hashOf(rs[i]))
      && (forall k | forall r | r in rs :: h.keyOf(r) != k ::
            (k in after <==> k in m) && (k in m ==> after[k] == m[k]))
  {
    if rs != [] {
      var n := |rs| - 1;
      var front := rs[..n];
      assert rs == front + [rs[n]];
      LastResultWins(h, m, front);
      forall i: nat | LastOfKey(h, rs, i) && i < n
        ensures LastOfKey(h, front, i) && h.keyOf(rs[n]) != h.keyOf(rs[i])
      {
        assert forall j | i < j < |front| :: front[j] == rs[j];
      }
    }
  }

  /** What an emission says: the result itself, and whether its key was unknown or had another hash. */
  lemma EmissionTellsChange(h: Hashing, m: Hashes, r: ScanResult)
    ensures Deltas(h, m, [r])
         == if h.keyOf(r) !in m then [Emission(r, "UNKNOWN")]
            else if m[h.keyOf(r)] != h.hashOf(r) then [Emission(r, "MUTATED")] else []
  {
    assert [r][..0] == [] && Deltas(h, m, []) == [];
  }

  /** Every result already has its hash in the store. */
  predicate UpToDate(h: Hashing, m: Hashes, rs: seq<ScanResult>) {
    forall r | r in rs :: h.keyOf(r) in m && m[h.keyOf(r)] == h.hashOf(r)
  }

  /** Results are silent and change nothing exactly when the store already has all of them. */
  lemma {:induction false} SilentExactlyWhenUpToDate(h: Hashing, m: Hashes, rs: seq<ScanResult>)
    ensures Deltas(h, m, rs) == [] <==> UpToDate(h, m, rs)
    ensures UpToDate(h, m, rs) ==> StoreAll(h, m, rs) == m
  {
    if rs != [] {
      var n := |rs| - 1;
      var front := rs[..n];
      assert rs == front + [rs[n]];
      SilentExactlyWhenUpToDate(h, m, front);
      if UpToDate(h, m, front) {
        assert UpToDate(h, m, rs) <==> UpToDate(h, m, [rs[n]]);
        assert Delta(h, m, rs[n]) == [] <==> UpToDate(h, m, [rs[n]]);
      }
    }
  }

  // ---------------------------------------------------------------- where batches end

  /** The timer fires `ticks(c)` times after `c` results; commit number `k` is accepted if `disk(k)`. */
  datatype Schedule = Schedule(ticks: nat -> nat, disk: nat -> bool)

  /** How many results are buffered after `c` of them, a full buffer having been flushed. */
  function Pending(sch: Schedule, c: nat): (p: nat)
    ensures p <= c && p < MaxBatchSize
  {
    if c == 0 then 0 else
      var p := (if sch.ticks(c - 1) > 0 then 0 else Pending(sch, c - 1)) + 1;
      if p >= MaxBatchSize then 0 else p
  }

  /** A batch ends after result `c` of `n`: the buffer is full, the timer fires, or the input ends. */
  predicate IsCut(sch: Schedule, n: nat, c: nat) {
    0 < c <= n && (Pending(sch, c) == 0 || sch.ticks(c) > 0 || c == n)
  }

  /** The number of batches that end within the first `c` results. */
  function Cuts(sch: Schedule, n: nat, c: nat): nat {
    if c == 0 then 0 else Cuts(sch, n, c - 1) + (if IsCut(sch, n, c) then 1 else 0)
  }

  function LastCut(sch: Schedule, n: nat, c: nat): (r: nat)
    ensures r <= c
  {
    if c == 0 || IsCut(sch, n, c) then c else LastCut(sch, n, c - 1)
  }

  predicate Fails(sch: Schedule, n: nat, c: nat) {
    IsCut(sch, n, c) && !sch.disk(Cuts(sch, n, c - 1))
  }

  predicate FirstFailure(sch: Schedule, n: nat, c: nat) {
    Fails(sch, n, c) && forall b: nat | b < c :: !Fails(sch, n, b)
  }

  /** Without ticks, a batch ends after every thousandth result and after the last. */
  lemma {:induction false} CutsByThousands(sch: Schedule, n: nat, c: nat)
    requires forall i :: sch.ticks(i) == 0
    ensures Pending(sch, c) == c % 1000
    ensures IsCut(sch, n, c) <==> 0 < c <= n && (c % 1000 == 0 || c == n)
  {
    if c > 0 {
      CutsByThousands(sch, n, c - 1);
    }
  }

  lemma {:induction false} NoCutBetween(sch: Schedule, n: nat, f: nat, c: nat)
    requires f <= c <= n && (f == 0 || IsCut(sch, n, f))
    requires forall b: nat | f < b <= c :: !IsCut(sch, n, b)
    ensures Cuts(sch, n, c) == Cuts(sch, n, f) && LastCut(sch, n, c) == f
  {
    if f < c {
      NoCutBetween(sch, n, f, c - 1);
    }
  }

  // ---------------------------------------------------------------- the store

  /** The `PortStates` bucket and standard output. */
  class PortStates {
    var hashes: Hashes
    var emitted: seq<Emission>

    constructor ()
      ensures hashes == map[] && emitted == []
    {
      hashes, emitted := map[], [];
    }

    /** One transaction over a batch. The changes are written out only after its commit. */
    method Flush(h: Hashing, batch: seq<ScanResult>, jsonMode: bool, commits: bool) returns (err: Error)
      modifies this
      ensures err == if batch == [] || commits then Nil else [CommitFailed]
      ensures hashes == if err == Nil then StoreAll(h, old(hashes), batch) else old(hashes)
      ensures emitted == old(emitted) + (if err == Nil && jsonMode then Deltas(h, old(hashes), batch) else [])
    {
      if batch == [] {
        return Nil;
      }
      var bucket, emissions := hashes, [];
      for i := 0 to |batch|
        invariant hashes == old(hashes) && emitted == old(emitted)
        invariant bucket == StoreAll(h, hashes, batch[..i]) && emissions == Deltas(h, hashes, batch[..i])
      {
        assert batch[..i + 1][..i] == batch[..i];
        var key, newHash := h.keyOf(batch[i]), h.hashOf(batch[i]);
        if key !in bucket {
          emissions := emissions + [Emission(batch[i], "UNKNOWN")];
          bucket := bucket[key := newHash];
        } else if bucket[key] != newHash {
          emissions := emissions + [Emission(batch[i], "MUTATED")];
          bucket := bucket[key := newHash];
        }
      }
      assert batch[..|batch|] == batch;
      if !commits {
        return [CommitFailed];
      }
      hashes := bucket;
      if jsonMode {
        emitted := emitted + emissions;
      }
      err := Nil;
    }
  }

  lemma ConcatAssociates<T>(a: seq<T>, b: seq<T>, c: seq<T>)
    ensures (a + b) + c == a + (b + c)
  {
  }

  lemma LastOfConcat<T>(a: seq<T>, b: seq<T>)
    requires b != []
    ensures (a + b)[..|a + b| - 1] == a + b[..|b| - 1] && (a + b)[|a + b| - 1] == b[|b| - 1]
  {
  }

  lemma {:induction false} StoreConcat(h: Hashing, m: Hashes, a: seq<ScanResult>, b: seq<ScanResult>)
    ensures StoreAll(h, m, a + b) == StoreAll(h, StoreAll(h, m, a), b)
    decreases |b|
  {
    var ab, after := a + b, StoreAll(h, m, a);
    if b == [] {
      assert ab == a;
    } else {
      var front, last := b[..|b| - 1], b[|b| - 1];
      StoreConcat(h, m, a, front);
      assert ab[..|ab| - 1] == a + front && ab[|ab| - 1] == last;
      assert StoreAll(h, m, ab) == Written(h, StoreAll(h, m, a + front), last);
      assert StoreAll(h, after, b) == Written(h, StoreAll(h, after, front), last);
    }
  }

  lemma {:induction false} DeltasConcat(h: Hashing, m: Hashes, a: seq<ScanResult>, b: seq<ScanResult>)
    ensures Deltas(h, m, a + b) == Deltas(h, m, a) + Deltas(h, StoreAll(h, m, a), b)
  {
    var ab, middle := a + b, StoreAll(h, m, a);
    if b == [] {
      assert ab == a;
    } else {
      var front, last := b[..|b| - 1], b[|b| - 1];
      DeltasConcat(h, m, a, front);
      StoreConcat(h, m, a, front);
      LastOfConcat(a, b);
      var delta := Delta(h, StoreAll(h, middle, front), last);
      assert Deltas(h, m, ab) == Deltas(h, m, a + front) + delta;
      assert Deltas(h, middle, b) == Deltas(h, middle, front) + delta;
      ConcatAssociates(Deltas(h, m, a), Deltas(h, middle, front), delta);
    }
  }

  /** Where the run stands after the batches up to result `f`. */
  ghost predicate Standing(sch: Schedule, n: nat, f: nat, flushes: nat, err: Error, committed: nat) {
    && committed <= f <= n && (f == 0 || IsCut(sch, n, f))
    && (err == Nil ==> committed == f && flushes == Cuts(sch, n, f) && forall c: nat | c <= f :: !Fails(sch, n, c))
    && (err != Nil ==> err == [CommitFailed] && FailedBefore(sch, n, f, committed))
  }

  /** The first failing batch ends by `f`, and `committed` is where the one before it ends. */
  ghost predicate FailedBefore(sch: Schedule, n: nat, f: nat, committed: nat) {
    exists c: nat :: 0 < c <= f && FirstFailure(sch, n, c) && committed == LastCut(sch, n, c - 1)
  }

  /** The store and the output after one-at-a-time processing of `done`. */
  ghost predicate Reflects(
      store: PortStates, h: Hashing, m: Hashes, out: seq<Emission>, jsonMode: bool, done: seq<ScanResult>)
    reads store
  {
    && store.hashes == StoreAll(h, m, done)
    && store.emitted == out + (if jsonMode then Deltas(h, m, done) else [])
  }

  lemma NextBatch(sch: Schedule, n: nat, f: nat, i: nat, flushes: nat, committed: nat)
    requires Standing(sch, n, f, flushes, Nil, committed) && f < i && IsCut(sch, n, i)
    requires forall c: nat | f < c < i :: !IsCut(sch, n, c)
    ensures sch.disk(flushes) ==> Standing(sch, n, i, flushes + 1, Nil, i)
    ensures !sch.disk(flushes) ==> Standing(sch, n, i, flushes + 1, [CommitFailed], f)
  {
    NoCutBetween(sch, n, f, i - 1);
    assert Fails(sch, n, i) <==> !sch.disk(flushes);
    assert Fails(sch, n, i) ==> FirstFailure(sch, n, i);
  }

  /** The buffer holds results `f` to `i`, and no batch ends between. */
  ghost predicate Buffering(sch: Schedule, results: seq<ScanResult>, f: nat, i: nat, buffer: seq<ScanResult>) {
    f <= i <= |results| && buffer == results[f..i] && forall c: nat | f < c < i :: !IsCut(sch, |results|, c)
  }

  /** Flushing the batch `f` to `i` on top of the first `f` results is processing the first `i`. */
  lemma FlushExtends(h: Hashing, m: Hashes, results: seq<ScanResult>, f: nat, i: nat)
    requires f <= i <= |results|
    ensures StoreAll(h, m, results[..i]) == StoreAll(h, StoreAll(h, m, results[..f]), results[f..i])
    ensures Deltas(h, m, results[..i])
         == Deltas(h, m, results[..f]) + Deltas(h, StoreAll(h, m, results[..f]), results[f..i])
  {
    assert results[..f] + results[f..i] == results[..i];
    StoreConcat(h, m, results[..f], results[f..i]);
    DeltasConcat(h, m, results[..f], results[f..i]);
  }

  /** Flush the buffered results `f` to `i`, unless an earlier flush has failed. */
  method FlushBuffer(
      store: PortStates, h: Hashing, results: seq<ScanResult>, ghost f: nat, ghost i: nat, buffer: seq<ScanResult>,
      sch: Schedule, jsonMode: bool, flushes: nat, stateErr: Error, ghost committed: nat,
      ghost m: Hashes, ghost out: seq<Emission>)
    returns (flushes': nat, err: Error, ghost committed': nat)
    requires Buffering(sch, results, f, i, buffer) && (f < i ==> IsCut(sch, |results|, i))
    requires Standing(sch, |results|, f, flushes, stateErr, committed)
    requires Reflects(store, h, m, out, jsonMode, results[..committed])
    modifies store
    ensures Standing(sch, |results|, i, flushes', err, committed')
    ensures Reflects(store, h, m, out, jsonMode, results[..committed'])
  {
    flushes', err, committed' := flushes, stateErr, committed;
    if stateErr != Nil || buffer == [] {
      return;
    }
    NextBatch(sch, |results|, f, i, flushes, committed);
    FlushExtends(h, m, results, f, i);
    err := store.Flush(h, buffer, jsonMode, sch.disk(flushes));
    flushes' := flushes + 1;
    if err == Nil {
      committed' := i;
      if jsonMode {
        ConcatAssociates(out, Deltas(h, m, results[..f]), Deltas(h, StoreAll(h, m, results[..f]), results[f..i]));
      }
    }
  }

  /** One more result: the buffer is full exactly when a batch ends here by its size. */
  lemma Received(sch: Schedule, results: seq<ScanResult>, f: nat, i: nat, buffer: seq<ScanResult>)
    requires Buffering(sch, results, f, i, buffer) && i < |results|
    requires |buffer| == if sch.ticks(i) > 0 then 0 else Pending(sch, i)
    ensures Buffering(sch, results, f, i + 1, buffer + [results[i]])
    ensures if |buffer| + 1 >= MaxBatchSize then Pending(sch, i + 1) == 0 && IsCut(sch, |results|, i + 1)
            else Pending(sch, i + 1) == |buffer| + 1
  {
    assert f < i ==> !IsCut(sch, |results|, i);
  }

  /** The timer fires `times` times. */
  method Tick(
      store: PortStates, h: Hashing, results: seq<ScanResult>, ghost f: nat, ghost i: nat, buffer: seq<ScanResult>,
      sch: Schedule, times: nat, jsonMode: bool, flushes: nat, stateErr: Error, ghost committed: nat,
      ghost m: Hashes, ghost out: seq<Emission>)
    returns (flushes': nat, err: Error, buffer': seq<ScanResult>, ghost committed': nat)
    requires Buffering(sch, results, f, i, buffer) && (times > 0 && f < i ==> IsCut(sch, |results|, i))
    requires Standing(sch, |results|, f, flushes, stateErr, committed)
    requires Reflects(store, h, m, out, jsonMode, results[..committed])
    modifies store
    ensures buffer' == if times > 0 then [] else buffer
    ensures Standing(sch, |results|, if times > 0 then i else f, flushes', err, committed')
    ensures Reflects(store, h, m, out, jsonMode, results[..committed'])
  {
    flushes', err, buffer', committed' := flushes, stateErr, buffer, committed;
    ghost var g := f;
    for t := 0 to times
      invariant g == (if t > 0 then i else f) && buffer' == (if t > 0 then [] else buffer)
      invariant Standing(sch, |results|, g, flushes', err, committed')
      invariant Reflects(store, h, m, out, jsonMode, results[..committed'])
    {
      flushes', err, committed' :=
        FlushBuffer(store, h, results, g, i, buffer', sch, jsonMode, flushes', err, committed', m, out);
      buffer', g := [], i;
    }
  }

  /** Buffer result `i`, and flush the buffer if that fills it. */
  method Receive(
      store: PortStates, h: Hashing, results: seq<ScanResult>, ghost f: nat, i: nat, buffer: seq<ScanResult>,
      sch: Schedule, jsonMode: bool, flushes: nat, stateErr: Error, ghost committed: nat,
      ghost m: Hashes, ghost out: seq<Emission>)
    returns (flushes': nat, err: Error, buffer': seq<ScanResult>, ghost committed': nat, ghost f': nat)
    requires Buffering(sch, results, f, i, buffer) && i < |results|
    requires |buffer| == if sch.ticks(i) > 0 then 0 else Pending(sch, i)
    requires Standing(sch, |results|, f, flushes, stateErr, committed)
    requires Reflects(store, h, m, out, jsonMode, results[..committed])
    modifies store
    ensures Buffering(sch, results, f', i + 1, buffer') && |buffer'| == Pending(sch, i + 1)
    ensures Standing(sch, |results|, f', flushes', err, committed')
    ensures Reflects(store, h, m, out, jsonMode, results[..committed'])
  {
    Received(sch, results, f, i, buffer);
    flushes', err, buffer', committed', f' := flushes, stateErr, buffer + [results[i]], committed, f;
    if |buffer'| >= MaxBatchSize {
      flushes', err, committed' :=
        FlushBuffer(store, h, results, f, i + 1, buffer', sch, jsonMode, flushes, stateErr, committed, m, out);
      buffer', f' := [], i + 1;
    }
  }

  lemma CountNext(results: seq<ScanResult>, i: nat)
    requires i < |results|
    ensures CountOpen(results[..i + 1]) == CountOpen(results[..i]) + (if results[i].state == "OPEN" then 1 else 0)
  {
    assert results[..i + 1][..i] == results[..i];
  }

  lemma Starts(store: PortStates, h: Hashing, results: seq<ScanResult>, sch: Schedule, jsonMode: bool)
    ensures CountOpen(results[..0]) == 0 && Buffering(sch, results, 0, 0, [])
    ensures Standing(sch, |results|, 0, 0, Nil, 0)
    ensures Reflects(store, h, store.hashes, store.emitted, jsonMode, results[..0])
  {
    assert results[..0] == [];
  }

  /** `StateManager`: receive, buffer, and flush on a full buffer, on every tick and at the end, as long as no
      flush has failed. Every result is drained and counted in any case. The store and the output are what
      one-at-a-time processing makes of the first `committed` results: all of them if no flush fails,
      and otherwise exactly those of the batches before the first that fails. The program runs it with
      `PortHashing`; nothing here depends on the choice. */
  method StateManager(
      store: PortStates, h: Hashing, results: seq<ScanResult>, sch: Schedule, jsonMode: bool)
    returns (openPorts: nat, stateErr: Error, ghost committed: nat)
    modifies store
    ensures openPorts == CountOpen(results)
    ensures committed <= |results|
    ensures Reflects(store, h, old(store.hashes), old(store.emitted), jsonMode, results[..committed])
    ensures stateErr == Nil <==> forall c: nat | c <= |results| :: !Fails(sch, |results|, c)
    ensures stateErr == Nil ==> committed == |results|
    ensures stateErr != Nil ==> stateErr == [CommitFailed] && FailedBefore(sch, |results|, |results|, committed)
  {
    ghost var m, out, f: nat := store.hashes, store.emitted, 0;
    var buffer: seq<ScanResult> := [];
    var flushes: nat, i: nat := 0, 0;
    openPorts, stateErr, committed := 0, Nil, 0;
    Starts(store, h, results, sch, jsonMode);
    while true
      invariant i <= |results| && openPorts == CountOpen(results[..i])
      invariant Buffering(sch, results, f, i, buffer) && |buffer| == Pending(sch, i)
      invariant Standing(sch, |results|, f, flushes, stateErr, committed)
      invariant Reflects(store, h, m, out, jsonMode, results[..committed])
      decreases |results| - i
    {
      flushes, stateErr, buffer, committed :=
        Tick(store, h, results, f, i, buffer, sch, sch.ticks(i), jsonMode, flushes, stateErr, committed, m, out);
      f := if sch.ticks(i) > 0 then i else f;
      if i == |results| {
        flushes, stateErr, committed :=
          FlushBuffer(store, h, results, f, i, buffer, sch, jsonMode, flushes, stateErr, committed, m, out);
        break;
      }
      CountNext(results, i);
      if results[i].state == "OPEN" {
        openPorts := openPorts + 1;
      }
      flushes, stateErr, buffer, committed, f :=
        Receive(store, h, results, f, i, buffer, sch, jsonMode, flushes, stateErr, committed, m, out);
      i := i + 1;
    }
    assert results[..i] == results;
    ErrorIsExact(sch, |results|, flushes, stateErr, committed);
  }

  lemma ErrorIsExact(sch: Schedule, n: nat, flushes: nat, err: Error, committed: nat)
    requires Standing(sch, n, n, flushes, err, committed)
    ensures err == Nil <==> forall c: nat | c <= n :: !Fails(sch, n, c)
    ensures err == Nil ==> committed == n
    ensures err != Nil ==> err == [CommitFailed] && FailedBefore(sch, n, n, committed)
  {
    if err != Nil {
      var c: nat :| 0 < c <= n && FirstFailure(sch, n, c) && committed == LastCut(sch, n, c - 1);
      assert Fails(sch, n, c);
    }
  }
}
