/** Reserving a fresh scan: a bounded number of attempts against the live scan IDs of one scope. */
module Reservation {
  import opened Wrappers
  import opened ServiceIdentity
  import opened Store
  import opened Targets
  import opened Completion

  const Attempts := 4

  /** What one attempt meets: whether the context is cancelled, what the generator answers, and the disk. */
  datatype Attempt = Attempt(cancelled: bool, generated: Option<string>, disk: bool)

  predicate ValidRuntimeScanID(id: string) {
    |id| == 32 && forall i | 0 <= i < |id| :: HexDigit(id[i])
  }

  /** The ID format: 32 lower-case hex digits. */
  lemma IDFormat(id: string)
    ensures ValidRuntimeScanID(id) <==> |id| == 32 && forall c | c in id :: c in "0123456789abcdef"
  {
    forall c: char ensures HexDigit(c) <==> c in "0123456789abcdef" {
      DigitByCode(c);
    }
    assert forall i | 0 <= i < |id| :: id[i] in id;
  }

  /** The attempt draws a valid ID and gets to the database. */
  predicate Draws(a: Attempt) {
    !a.cancelled && a.generated.Some? && ValidRuntimeScanID(a.generated.value)
  }

  /** The drawn ID is that of a live scan. */
  predicate Collides(root: Root, scope: string, a: Attempt) {
    && Draws(a) && scope != "" && SchemaError(root.metadata) == Nil
    && a.generated.value in ScopeOf(root, scope).scans
  }

  predicate Succeeds(root: Root, scope: string, a: Attempt) {
    && Draws(a) && scope != "" && SchemaError(root.metadata) == Nil
    && a.generated.value !in ScopeOf(root, scope).scans && a.disk
  }

  /** `after` is `before` with one more, empty, scan, whose ID was not live. */
  predicate Reserved(before: Root, after: Root, scope: string, scan: string) {
    var s := ScopeOf(before, scope);
    scan !in s.scans && after == WithScope(before, scope, s.(scans := s.scans[scan := map[]]))
  }

  /** A successful reservation adds exactly one empty scan that was not live before; a failed one changes nothing;
      and it succeeds exactly when, within four attempts, only collisions come before a success. */
  method ReserveRuntimeScan(db: Database, scope: string, attempt: nat -> Attempt) returns (r: Result<string>)
    modifies db
    ensures r.Ok? ==> ValidRuntimeScanID(r.value) && Reserved(old(db.root), db.root, scope, r.value)
    ensures r.Ok? ==> |r.value| == 32 && forall c | c in r.value :: c in "0123456789abcdef"
    ensures r.Ok? ==> CreateSpec(old(db.root), scope, r.value, true, true) == Outcome(db.root, Ok(()))
    ensures r.Err? ==> db.root == old(db.root) && r.error != Nil
    ensures r.Ok? <==> exists i: nat | i < 4 ::
      Succeeds(old(db.root), scope, attempt(i)) && forall j: nat | j < i :: Collides(old(db.root), scope, attempt(j))
    ensures r.Ok? ==> exists i: nat | i < 4 ::
      attempt(i).generated == Some(r.value) && forall j: nat | j < i :: Collides(old(db.root), scope, attempt(j))
    ensures r == Err([RuntimeScanIDCollisions, StateScanAlreadyExists])
      <==> forall i: nat | i < 4 :: Collides(old(db.root), scope, attempt(i))
  {
    var collision: Error := Nil;
    for i := 0 to Attempts
      invariant db.root == old(db.root)
      invariant forall j: nat | j < i :: Collides(db.root, scope, attempt(j))
      invariant i > 0 ==> collision == [StateScanAlreadyExists]
    {
      if attempt(i).cancelled {
        return Err([ContextCanceled]);
      }
      if attempt(i).generated.None? {
        return Err([EntropyFailed]);
      }
      var id := attempt(i).generated.value;
      if !ValidRuntimeScanID(id) {
        return Err([InvalidRuntimeScanID]);
      }
      var created := db.CreateCurrentScanExclusive(scope, id, attempt(i).disk);
      if created.Err? {
        if StateScanAlreadyExists in created.error {
          collision := created.error;
          continue;
        }
        return Err(created.error);
      }
      IDFormat(id);
      return Ok(id);
    }
    r := Err([RuntimeScanIDCollisions] + collision);
  }

  /** The handoff: a failed reservation releases the prepared targets, a successful one passes them on open. */
  method ReservePreparedRuntimeScan(
      db: Database, scope: string, prepared: PreparedTargetSource, cancelled: bool, attempt: nat -> Attempt, closeErr: Error)
    returns (r: Result<string>)
    requires prepared.Valid() && !prepared.closed
    modifies db, prepared
    ensures prepared.Valid() && prepared.targets == old(prepared.targets) && prepared.spool == old(prepared.spool)
    ensures r.Ok? ==> !prepared.closed && !cancelled && Reserved(old(db.root), db.root, scope, r.value)
    ensures r.Ok? ==> CreateSpec(old(db.root), scope, r.value, true, true) == Outcome(db.root, Ok(()))
    ensures r.Err? ==> prepared.closed && prepared.releases == 1 && db.root == old(db.root) && r.error != Nil
  {
    if cancelled {
      var err := prepared.Close(closeErr);
      return Err([ContextCanceled] + err);
    }
    r := ReserveRuntimeScan(db, scope, attempt);
    if r.Err? {
      var err := prepared.Close(closeErr);
      r := Err(r.error + err);
    }
  }

  /** An ID is exclusive among the live scans only: the bucket of a promoted scan is gone,
      so the same ID can be reserved again. */
  lemma PromotedIDCanBeReservedAgain(
      lib: Library, root: Root, scope: string, scan: string, c: ScanCompletion)
    requires PromoteSpec(lib, root, scope, scan, c, true).result.Ok?
    ensures CreateSpec(root, scope, scan, true, true).result == Err([StateScanAlreadyExists])
    ensures CreateSpec(PromoteSpec(lib, root, scope, scan, c, true).root, scope, scan, true, true).result == Ok(())
  {
  }
}
