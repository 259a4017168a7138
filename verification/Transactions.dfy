/** What each transaction of the request table answers and changes, column by column: who may do what, which
    error comes first, and that nothing else in the table changes. `c` is the table after the cleanup that every
    such transaction begins with. */
module Transactions {
  import opened Outcomes
  import opened RequestTable

  /** The cleanup, row by row: a row that is due gives up its output, a tombstone goes once its last update is
      older than the retention, and every other row stays. */
  lemma CleanupDecides(t: Table, now: Instant, retention: nat, id: string)
    requires id in t
    ensures var c := Cleanup(t, now, retention);
            var row := t[id];
            if row.status in {Acknowledged, Expired} then
              if row.updated < (now - retention * 1_000_000) / 1_000_000 then id !in c else id in c && c[id] == row
            else if row.expires * 1_000_000 <= now then
              id in c && c[id] == row.(status := Expired, mediaType := None, nonce := None, ciphertext := None,
                                       updated := now / 1_000_000)
            else id in c && c[id] == row
  {
    assert Seconds(now - retention * MICROS) <= Seconds(now);
  }

  lemma CleanupAddsNothing(t: Table, now: Instant, retention: nat)
    ensures Cleanup(t, now, retention).Keys <= t.Keys
  {
  }

  predicate HoldsCapacity(status: Status) {
    status in {Reserved, InProgress, Completed, Ambiguous}
  }

  lemma OpenHoldsCapacity(t: Table, owner: string)
    ensures OpenRows(t) == set id | id in t && HoldsCapacity(t[id].status)
    ensures OpenRowsOf(t, owner) == set id | id in t && HoldsCapacity(t[id].status) && t[id].owner == owner
  {
  }

  /** Admission: an existing row is handed out to its own credential for the same request alone; a new row needs an
      expiry ahead, and room in both limits among the rows that are reserved, in progress, completed or ambiguous. */
  lemma AdmitDecides(limits: Limits, t: Table, request: Request, owner: string, now: Instant)
    ensures var c := Cleanup(t, now, limits.retention);
            var open := set id | id in c && HoldsCapacity(c[id].status);
            var own := set id | id in c && HoldsCapacity(c[id].status) && c[id].owner == owner;
            var full := |open| >= limits.maxOpenTotal || |own| >= limits.maxOpenPerCredential;
            var (t', r) := Admit(limits, t, request, owner, now);
            && (r.Err? ==> t' == t)
            && (request.id in c ==>
                  && (c[request.id].owner != owner ==> r == Err(Forbidden))
                  && (c[request.id].owner == owner && c[request.id].digest != request.digest ==> r == Err(IdentityConflict))
                  && (c[request.id].owner == owner && c[request.id].digest == request.digest ==>
                        r == Ok(c[request.id]) && t' == c))
            && (request.id !in c ==>
                  && (request.digest.expires * 1_000_000 <= now ==> r == Err(RequestExpired))
                  && (request.digest.expires * 1_000_000 > now && full ==> r == Err(CapacityLimited))
                  && (request.digest.expires * 1_000_000 > now && !full ==>
                        && r.Ok? && t' == c[request.id := r.value]
                        && r.value == Row(owner, request.digest, request.digest.expires, Reserved, None, None, None, None,
                                          None, None, None, None, now / 1_000_000)))
  {
    OpenHoldsCapacity(Cleanup(t, now, limits.retention), owner);
  }

  /** Reading: only its own credential reads a row, and with a digest only for the same request. */
  lemma GetOwnedDecides(limits: Limits, t: Table, id: string, owner: string, digest: Option<Digest>, now: Instant)
    ensures var c := Cleanup(t, now, limits.retention);
            var (t', r) := GetOwned(limits, t, id, owner, digest, now);
            && (r.Err? ==> t' == t)
            && (r.Ok? ==> t' == c)
            && (id !in c ==> r == Err(RequestUnknown))
            && (id in c && c[id].owner != owner ==> r == Err(Forbidden))
            && (id in c && c[id].owner == owner && digest.Some? && digest.value != c[id].digest ==> r == Err(IdentityConflict))
            && (id in c && c[id].owner == owner && (digest.None? || digest.value == c[id].digest) ==> r == Ok(c[id]))
  {
  }

  /** Marking: a row that is reserved becomes in progress under the attempt; anything else is refused. */
  lemma MarkInProgressDecides(limits: Limits, t: Table, id: string, attempt: nat, now: Instant)
    ensures var c := Cleanup(t, now, limits.retention);
            var (t', r) := MarkInProgress(limits, t, id, attempt, now);
            if id in c && c[id].status == Reserved then
              && r == Ok(c[id].(status := InProgress, attempt := Some(attempt), updated := now / 1_000_000))
              && t' == c[id := r.value]
            else r == Err(Rejected) && t' == t
  {
  }

  /** Completion: a row that is gone or expired is left so; the attempt's own row takes the result, bound to its id,
      owner and digest; any other row is refused. */
  lemma CompleteDecides(limits: Limits, t: Table, id: string, attempt: nat, output: Output, nonce: nat, now: Instant)
    ensures var c := Cleanup(t, now, limits.retention);
            var (t', r) := Complete(limits, t, id, attempt, output, nonce, now);
            if id !in c || c[id].status == Expired then r == Ok(false) && t' == c
            else if c[id].status != InProgress || c[id].attempt != Some(attempt) then r == Err(Rejected) && t' == t
            else
              && r == Ok(true)
              && t' == c[id := c[id].(status := Completed, mediaType := Some(output.mediaType), nonce := Some(nonce),
                                      ciphertext := Some(Sealed(nonce, Binding(id, c[id].owner, c[id].digest), output.content)),
                                      deployment := Some(output.deployment), policyVersion := Some(output.policyVersion),
                                      updated := now / 1_000_000)]
  {
  }

  /** Acknowledgement: only the row's own credential, only of a completed row, and only once with the same disposition;
      the output goes, the first answer is repeated, and every refusal leaves the table as it was. */
  lemma AcknowledgeDecides(limits: Limits, t: Table, id: string, owner: string, disposition: Disposition, now: Instant)
    ensures var c := Cleanup(t, now, limits.retention);
            var (t', r) := Acknowledge(limits, t, id, owner, disposition, now);
            && (r.Err? ==> t' == t)
            && (id !in c ==> r == Err(RequestUnknown))
            && (id in c && c[id].owner != owner ==> r == Err(Forbidden))
            && (id in c && c[id].owner == owner ==>
                  match c[id].status
                  case Acknowledged =>
                    if c[id].disposition == Some(disposition) then r == Ok(c[id]) && t' == c else r == Err(AcknowledgementConflict)
                  case Expired => r == Err(RequestExpired)
                  case Completed =>
                    && r == Ok(c[id].(status := Acknowledged, disposition := Some(disposition), mediaType := None, nonce := None,
                                      ciphertext := None, updated := now / 1_000_000))
                    && t' == c[id := r.value]
                  case Reserved => r == Err(NotTerminal)
                  case InProgress => r == Err(NotTerminal)
                  case Ambiguous => r == Err(NotTerminal)
                  case Failed => r == Err(NotTerminal))
  {
  }

  /** A repeated acknowledgement gives the stored answer again, and another disposition is refused. */
  lemma AcknowledgesOnce(limits: Limits, t: Table, id: string, owner: string, first: Disposition, again: Disposition, now: Instant, later: Instant)
    requires Acknowledge(limits, t, id, owner, first, now).1.Ok?
    requires now <= later && id in Cleanup(Acknowledge(limits, t, id, owner, first, now).0, later, limits.retention)
    ensures var (t', r) := Acknowledge(limits, t, id, owner, first, now);
            Acknowledge(limits, t', id, owner, again, later).1
            == if again == first then r else Err(AcknowledgementConflict)
  {
    AcknowledgeDecides(limits, t, id, owner, first, now);
    var (t', r) := Acknowledge(limits, t, id, owner, first, now);
    CleanupDecides(t', later, limits.retention, id);
    AcknowledgeDecides(limits, t', id, owner, again, later);
  }

  /** The three updates after a call that produced nothing: only the attempt's own row changes. */
  lemma FaultsDecide(t: Table, id: string, attempt: nat, error: RowError, now: Instant)
    ensures id in t && t[id].status == InProgress && t[id].attempt == Some(attempt) ==>
              && ResetReserved(t, id, attempt, now)
                 == t[id := t[id].(status := Reserved, attempt := None, updated := now / 1_000_000)]
              && MarkAmbiguous(t, id, attempt, now) == t[id := t[id].(status := Ambiguous, updated := now / 1_000_000)]
              && MarkFailed(t, id, attempt, error, now)
                 == t[id := t[id].(status := Failed, error := Some(error), updated := now / 1_000_000)]
    ensures id !in t || t[id].status != InProgress || t[id].attempt != Some(attempt) ==>
              ResetReserved(t, id, attempt, now) == MarkAmbiguous(t, id, attempt, now)
              == MarkFailed(t, id, attempt, error, now) == t
  {
  }

  /** Start-up: a row that was in progress becomes ambiguous, or expires if it is due; every other row is cleaned. */
  lemma InitializeDecides(limits: Limits, t: Table, now: Instant, id: string)
    requires id in t
    ensures var t' := Initialize(limits, t, now);
            var row := t[id];
            if row.status == InProgress then
              && id in t'
              && t'[id] == if row.expires * 1_000_000 <= now
                           then row.(status := Expired, mediaType := None, nonce := None, ciphertext := None, updated := now / 1_000_000)
                           else row.(status := Ambiguous, updated := now / 1_000_000)
            else
              var c := Cleanup(t, now, limits.retention);
              (id in t' <==> id in c) && (id in c ==> t'[id] == c[id])
  {
    assert Seconds(now - limits.retention * MICROS) <= Seconds(now);
  }
}
