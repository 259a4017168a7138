/** The request store as the program holds it: one table that every method changes in place, inside a
    transaction that restores the old table when the method raises. */
module RequestStores {
  import opened Outcomes
  import opened RequestTable
  import opened RowLaws

  class RequestStore {
    const limits: Limits
    var rows: Table

    constructor (limits: Limits)
      ensures this.limits == limits && rows == map[]
    {
      this.limits := limits;
      rows := map[];
    }

    /** Every row keeps columns that agree with its status. */
    ghost predicate Valid()
      reads this
    {
      TableOk(rows)
    }

    /** The UPDATE of a cleanup: rows past their expiry give up their output. */
    method ExpireDue(now: Instant)
      modifies this
      ensures rows == map id | id in old(rows) :: ExpireRow(old(rows)[id], now)
    {
      var timestamp := Seconds(now);
      rows := map id | id in rows ::
        if rows[id].status != Acknowledged && rows[id].status != Expired && rows[id].expires <= timestamp then
          rows[id].(status := Expired, mediaType := None, nonce := None, ciphertext := None, updated := timestamp)
        else rows[id];
    }

    /** The DELETE of a cleanup: tombstones whose retention is over. */
    method DeleteForgotten(now: Instant)
      modifies this
      ensures rows == map id | id in old(rows) && !Forgotten(old(rows)[id], now, limits.retention) :: old(rows)[id]
    {
      var cutoff := Seconds(now - limits.retention * MICROS);
      rows := map id | id in rows
                && !((rows[id].status == Acknowledged || rows[id].status == Expired) && rows[id].updated < cutoff) :: rows[id];
    }

    /** The UPDATE and the DELETE that run at the head of a transaction. */
    method CleanUp(now: Instant)
      modifies this
      ensures rows == Cleanup(old(rows), now, limits.retention)
      ensures old(Valid()) ==> Valid()
    {
      CleanupEvolves(rows, now, limits.retention);
      ExpireDue(now);
      DeleteForgotten(now);
      assert rows.Keys == Cleanup(old(rows), now, limits.retention).Keys;
    }

    method Initialize(now: Instant)
      modifies this
      ensures rows == RequestTable.Initialize(limits, old(rows), now)
      ensures old(Valid()) ==> Valid()
      ensures forall id :: id in rows ==> rows[id].status != InProgress
    {
      InitializeEvolves(limits, rows, now);
      ghost var was := rows;
      var timestamp := Seconds(now);
      rows := map id | id in rows ::
        if rows[id].status == InProgress then rows[id].(status := Ambiguous, updated := timestamp) else rows[id];
      assert rows == map id | id in was :: Interrupt(was[id], now);
      CleanUp(now);
      assert rows == RequestTable.Initialize(limits, was, now);
    }

    method CountOpen(owner: Option<string>) returns (count: nat)
      ensures owner.None? ==> count == |OpenRows(rows)|
      ensures owner.Some? ==> count == |OpenRowsOf(rows, owner.value)|
    {
      if owner.None? {
        count := |set id | id in rows && rows[id].status in {Reserved, InProgress, Completed, Ambiguous}|;
        assert OpenRows(rows) == set id | id in rows && rows[id].status in {Reserved, InProgress, Completed, Ambiguous};
      } else {
        count := |set id | id in rows && rows[id].owner == owner.value && rows[id].status in {Reserved, InProgress, Completed, Ambiguous}|;
        assert OpenRowsOf(rows, owner.value)
            == set id | id in rows && rows[id].owner == owner.value && rows[id].status in {Reserved, InProgress, Completed, Ambiguous};
      }
    }

    method Admit(request: Request, owner: string, now: Instant) returns (result: Result<Row, StoreError>)
      modifies this
      ensures (rows, result) == RequestTable.Admit(limits, old(rows), request, owner, now)
      ensures result.Err? ==> rows == old(rows)
      ensures old(Valid()) ==> Valid()
    {
      var saved := rows;
      AdmitEvolves(limits, rows, request, owner, now);
      CleanUp(now);
      if request.id in rows {
        var refusal := Authorize(rows[request.id], owner, Some(request.digest));
        if refusal.Some? {
          rows := saved;
          return Err(refusal.value);
        }
        return Ok(rows[request.id]);
      }
      if request.digest.expires * MICROS <= now {
        rows := saved;
        return Err(RequestExpired);
      }
      var total := CountOpen(None);
      var perOwner := CountOpen(Some(owner));
      if total >= limits.maxOpenTotal || perOwner >= limits.maxOpenPerCredential {
        rows := saved;
        return Err(CapacityLimited);
      }
      var row := FreshRow(request, owner, now);
      rows := rows[request.id := row];
      return Ok(row);
    }

    method GetOwned(id: string, owner: string, digest: Option<Digest>, now: Instant) returns (result: Result<Row, StoreError>)
      modifies this
      ensures (rows, result) == RequestTable.GetOwned(limits, old(rows), id, owner, digest, now)
      ensures result.Err? ==> rows == old(rows)
      ensures old(Valid()) ==> Valid()
    {
      var saved := rows;
      CleanUp(now);
      if id !in rows {
        rows := saved;
        return Err(RequestUnknown);
      }
      var refusal := Authorize(rows[id], owner, digest);
      if refusal.Some? {
        rows := saved;
        return Err(refusal.value);
      }
      return Ok(rows[id]);
    }

    method MarkInProgress(id: string, attempt: nat, now: Instant) returns (result: Result<Row, StoreError>)
      modifies this
      ensures (rows, result) == RequestTable.MarkInProgress(limits, old(rows), id, attempt, now)
      ensures result.Err? ==> rows == old(rows)
      ensures old(Valid()) ==> Valid()
    {
      var saved := rows;
      CleanUp(now);
      if id !in rows || rows[id].status != Reserved {
        rows := saved;
        return Err(Rejected);
      }
      rows := rows[id := rows[id].(status := InProgress, attempt := Some(attempt), updated := Seconds(now))];
      return Ok(rows[id]);
    }

    method ResetReserved(id: string, attempt: nat, now: Instant)
      modifies this
      ensures rows == RequestTable.ResetReserved(old(rows), id, attempt, now)
      ensures old(Valid()) ==> Valid()
    {
      if id in rows && rows[id].status == InProgress && rows[id].attempt == Some(attempt) {
        rows := rows[id := rows[id].(status := Reserved, attempt := None, updated := Seconds(now))];
      }
    }

    method MarkAmbiguous(id: string, attempt: nat, now: Instant)
      modifies this
      ensures rows == RequestTable.MarkAmbiguous(old(rows), id, attempt, now)
      ensures old(Valid()) ==> Valid()
    {
      if id in rows && rows[id].status == InProgress && rows[id].attempt == Some(attempt) {
        rows := rows[id := rows[id].(status := Ambiguous, updated := Seconds(now))];
      }
    }

    method MarkFailed(id: string, attempt: nat, error: RowError, now: Instant)
      modifies this
      ensures rows == RequestTable.MarkFailed(old(rows), id, attempt, error, now)
      ensures old(Valid()) ==> Valid()
    {
      if id in rows && rows[id].status == InProgress && rows[id].attempt == Some(attempt) {
        rows := rows[id := rows[id].(status := Failed, error := Some(error), updated := Seconds(now))];
      }
    }

    method Complete(id: string, attempt: nat, output: Output, nonce: nat, now: Instant) returns (result: Result<bool, StoreError>)
      modifies this
      ensures (rows, result) == RequestTable.Complete(limits, old(rows), id, attempt, output, nonce, now)
      ensures result.Err? ==> rows == old(rows)
      ensures old(Valid()) ==> Valid()
    {
      CompleteEvolves(limits, rows, id, attempt, output, nonce, now);
      var saved := rows;
      CleanUp(now);
      if id !in rows || rows[id].status == Expired {
        return Ok(false);
      }
      if rows[id].status != InProgress || rows[id].attempt != Some(attempt) {
        rows := saved;
        return Err(Rejected);
      }
      var binding := Binding(id, rows[id].owner, rows[id].digest);
      rows := rows[id := rows[id].(status := Completed, mediaType := Some(output.mediaType), nonce := Some(nonce),
                                   ciphertext := Some(Sealed(nonce, binding, output.content)),
                                   deployment := Some(output.deployment), policyVersion := Some(output.policyVersion),
                                   updated := Seconds(now))];
      return Ok(true);
    }

    method Acknowledge(id: string, owner: string, disposition: Disposition, now: Instant) returns (result: Result<Row, StoreError>)
      modifies this
      ensures (rows, result) == RequestTable.Acknowledge(limits, old(rows), id, owner, disposition, now)
      ensures result.Err? ==> rows == old(rows)
      ensures old(Valid()) ==> Valid()
    {
      AcknowledgeEvolves(limits, rows, id, owner, disposition, now);
      var saved := rows;
      CleanUp(now);
      if id !in rows {
        rows := saved;
        return Err(RequestUnknown);
      }
      var row := rows[id];
      var refusal := Authorize(row, owner, None);
      if refusal.Some? {
        rows := saved;
        return Err(refusal.value);
      }
      if row.status == Acknowledged {
        if row.disposition != Some(disposition) {
          rows := saved;
          return Err(AcknowledgementConflict);
        }
        return Ok(row);
      }
      if row.status == Expired {
        rows := saved;
        return Err(RequestExpired);
      }
      if row.status != Completed {
        rows := saved;
        return Err(NotTerminal);
      }
      row := row.(status := Acknowledged, disposition := Some(disposition), mediaType := None, nonce := None,
                  ciphertext := None, updated := Seconds(now));
      rows := rows[id := row];
      return Ok(row);
    }
  }
}
