/** What every transaction keeps of a row, and the only ways a row may change. */
module RowLaws {
  import opened Outcomes
  import opened RequestTable

  /** The columns agree with the status. */
  predicate RowOk(id: string, row: Row) {
    && (row.status == Completed <==> row.nonce.Some?)
    && (row.status == Completed <==> row.ciphertext.Some?)
    && (row.status == Completed <==> row.mediaType.Some?)
    && (row.status == Completed ==>
          && row.deployment.Some? && row.policyVersion.Some?
          && row.ciphertext.value.nonce == row.nonce.value
          && row.ciphertext.value.binding == Binding(id, row.owner, row.digest))
    && (row.disposition.Some? <==> row.status == Acknowledged)
    && (row.status == Reserved ==> row.attempt.None?)
    && (row.status == InProgress ==> row.attempt.Some?)
    && (row.status == Failed ==> row.error.Some?)
    && row.expires == row.digest.expires
  }

  ghost predicate TableOk(t: Table) {
    forall id :: id in t ==> RowOk(id, t[id])
  }

  predicate SameRequest(row: Row, row': Row) {
    row'.owner == row.owner && row'.digest == row.digest && row'.expires == row.expires
  }

  /** The edges of the life cycle of one row. */
  predicate Moves(row: Row, row': Row) {
    || row' == row
    || (SameRequest(row, row') && match (row.status, row'.status)
        case (Reserved, InProgress) => true
        case (InProgress, Reserved) => true
        case (InProgress, Ambiguous) => true
        case (InProgress, Failed) => true
        case (InProgress, Completed) => true
        case (Completed, Acknowledged) => true
        case (was, Expired) => !Tombstone(was)
        case _ => false)
  }

  /** One transaction: every row stays, moves along an edge, or is forgotten as a tombstone. */
  ghost predicate Evolves(t: Table, t': Table) {
    && (forall id :: id in t' ==> id in t && Moves(t[id], t'[id]))
    && (forall id :: id in t && id !in t' ==> Tombstone(t[id].status))
  }

  lemma CleanupEvolves(t: Table, now: Instant, retention: nat)
    ensures Evolves(t, Cleanup(t, now, retention))
    ensures TableOk(t) ==> TableOk(Cleanup(t, now, retention))
    ensures forall id :: id in Cleanup(t, now, retention) && Cleanup(t, now, retention)[id].status != Expired ==>
              id in t && Cleanup(t, now, retention)[id] == t[id]
  {
    assert Seconds(now - retention * MICROS) <= Seconds(now);
  }

  /** A fresh insertion is the one exception: it adds exactly the new row. */
  lemma AdmitEvolves(limits: Limits, t: Table, request: Request, owner: string, now: Instant)
    ensures var (t', result) := Admit(limits, t, request, owner, now);
            var c := Cleanup(t, now, limits.retention);
            && (TableOk(t) ==> TableOk(t'))
            && (result.Err? ==> t' == t)
            && (result.Ok? && request.id in c ==> t' == c && result.value == c[request.id])
            && (result.Ok? && request.id !in c ==> t' == c[request.id := FreshRow(request, owner, now)])
  {
    CleanupEvolves(t, now, limits.retention);
  }

  lemma GetOwnedEvolves(limits: Limits, t: Table, id: string, owner: string, digest: Option<Digest>, now: Instant)
    ensures var t' := GetOwned(limits, t, id, owner, digest, now).0;
            Evolves(t, t') && (TableOk(t) ==> TableOk(t'))
  {
    CleanupEvolves(t, now, limits.retention);
  }

  lemma MarkInProgressEvolves(limits: Limits, t: Table, id: string, attempt: nat, now: Instant)
    ensures var t' := MarkInProgress(limits, t, id, attempt, now).0;
            Evolves(t, t') && (TableOk(t) ==> TableOk(t'))
  {
    CleanupEvolves(t, now, limits.retention);
  }

  /** Rewriting one row along an edge. */
  lemma OneRowMoves(t: Table, c: Table, id: string, row: Row)
    requires Evolves(t, c) && id in c && Moves(t[id], row)
    ensures Evolves(t, c[id := row])
    ensures TableOk(c) && RowOk(id, row) ==> TableOk(c[id := row])
  {
  }

  lemma ResetEvolves(t: Table, id: string, attempt: nat, now: Instant)
    ensures var t' := ResetReserved(t, id, attempt, now);
            Evolves(t, t') && (TableOk(t) ==> TableOk(t'))
  {
    if OwnedBy(t, id, attempt) {
      OneRowMoves(t, t, id, t[id].(status := Reserved, attempt := None, updated := Seconds(now)));
    }
  }

  lemma AmbiguousEvolves(t: Table, id: string, attempt: nat, now: Instant)
    ensures var t' := MarkAmbiguous(t, id, attempt, now);
            Evolves(t, t') && (TableOk(t) ==> TableOk(t'))
  {
    if OwnedBy(t, id, attempt) {
      OneRowMoves(t, t, id, t[id].(status := Ambiguous, updated := Seconds(now)));
    }
  }

  lemma FailedEvolves(t: Table, id: string, attempt: nat, error: RowError, now: Instant)
    ensures var t' := MarkFailed(t, id, attempt, error, now);
            Evolves(t, t') && (TableOk(t) ==> TableOk(t'))
  {
    if OwnedBy(t, id, attempt) {
      OneRowMoves(t, t, id, t[id].(status := Failed, error := Some(error), updated := Seconds(now)));
    }
  }

  lemma CompleteEvolves(limits: Limits, t: Table, id: string, attempt: nat, output: Output, nonce: nat, now: Instant)
    ensures var t' := Complete(limits, t, id, attempt, output, nonce, now).0;
            Evolves(t, t') && (TableOk(t) ==> TableOk(t'))
  {
    CleanupEvolves(t, now, limits.retention);
  }

  lemma AcknowledgeEvolves(limits: Limits, t: Table, id: string, owner: string, disposition: Disposition, now: Instant)
    ensures var t' := Acknowledge(limits, t, id, owner, disposition, now).0;
            Evolves(t, t') && (TableOk(t) ==> TableOk(t'))
  {
    var c := Cleanup(t, now, limits.retention);
    CleanupEvolves(t, now, limits.retention);
    AcknowledgeCases(limits, t, id, owner, disposition, now);
    if id in c && c[id].status == Completed { OneRowMoves(t, c, id, AcknowledgedRow(c[id], disposition, now)); }
  }

  function AcknowledgedRow(row: Row, disposition: Disposition, now: Instant): Row {
    row.(status := Acknowledged, disposition := Some(disposition), mediaType := None, nonce := None, ciphertext := None,
         updated := Seconds(now))
  }

  /** The table is left alone or cleaned, and at most the completed row becomes acknowledged. */
  lemma AcknowledgeCases(limits: Limits, t: Table, id: string, owner: string, disposition: Disposition, now: Instant)
    ensures var c := Cleanup(t, now, limits.retention);
            var t' := Acknowledge(limits, t, id, owner, disposition, now).0;
            t' == t || t' == c || (id in c && c[id].status == Completed && t' == c[id := AcknowledgedRow(c[id], disposition, now)])
  {
  }

  lemma InitializeEvolves(limits: Limits, t: Table, now: Instant)
    ensures var t' := Initialize(limits, t, now);
            Evolves(t, t') && (TableOk(t) ==> TableOk(t')) && forall id :: id in t' ==> t'[id].status != InProgress
  {
    var interrupted: Table := map id | id in t :: Interrupt(t[id], now);
    InterruptEvolves(t, now);
    CleanupEvolves(interrupted, now, limits.retention);
    EvolvesTwice(t, interrupted, Initialize(limits, t, now));
  }

  lemma InterruptEvolves(t: Table, now: Instant)
    ensures var interrupted: Table := map id | id in t :: Interrupt(t[id], now);
            && Evolves(t, interrupted) && (TableOk(t) ==> TableOk(interrupted))
            && forall id :: id in interrupted ==>
                 interrupted[id].status != InProgress && (Tombstone(interrupted[id].status) ==> interrupted[id] == t[id])
  {
  }

  /** Two changes in a row are edges again if the first makes no tombstone and the second only expires rows. */
  lemma EvolvesTwice(t: Table, m: Table, t': Table)
    requires Evolves(t, m) && Evolves(m, t')
    requires forall id :: id in m && Tombstone(m[id].status) ==> m[id] == t[id]
    requires m.Keys == t.Keys
    requires forall id :: id in t' ==> t'[id] == m[id] || (t'[id].status == Expired && !Tombstone(m[id].status))
    ensures Evolves(t, t')
  {
    forall id | id in t' ensures id in t && Moves(t[id], t'[id]) {
      assert Moves(t[id], m[id]) && Moves(m[id], t'[id]);
    }
    forall id | id in t && id !in t' ensures Tombstone(t[id].status) {
      assert Tombstone(m[id].status);
    }
  }

  /** An attempt that no longer owns its row changes nothing: the outcome updates leave the whole table
      alone, and a late completion at most cleans it. */
  lemma StaleAttemptChangesNothing(limits: Limits, t: Table, id: string, attempt: nat, error: RowError, output: Output, nonce: nat, now: Instant)
    requires !OwnedBy(t, id, attempt)
    ensures ResetReserved(t, id, attempt, now) == MarkAmbiguous(t, id, attempt, now) == MarkFailed(t, id, attempt, error, now) == t
    ensures var (t', result) := Complete(limits, t, id, attempt, output, nonce, now);
            (result.Err? && t' == t) || (result == Ok(false) && t' == Cleanup(t, now, limits.retention))
  {
    CleanupEvolves(t, now, limits.retention);
  }

  /** After any cleaning at `now`, a row past its expiry is a tombstone and holds no output; every other
      row is as it was. The comparison of whole seconds agrees with the fractional clock. */
  lemma CleanedRowsHoldNoExpiredOutput(t: Table, now: Instant, retention: nat, id: string)
    requires TableOk(t) && id in Cleanup(t, now, retention)
    ensures var row := Cleanup(t, now, retention)[id];
            && (row.expires * MICROS <= now ==> Tombstone(row.status) && row.ciphertext.None? && row.nonce.None? && row.mediaType.None?)
            && (row.expires * MICROS > now ==> id in t && row == t[id])
  {
  }
}
