/** What the caller is told at each point, by code and status, and what becomes of the row. */
module Replies {
  import opened Outcomes
  import opened RequestTable
  import opened Gateway
  import opened GatewayServices
  import opened Transactions

  /** The latest admissible expiry is the lifetime from now, rounded up to a whole second. */
  lemma MaximumExpiryRoundsUp(now: Instant, lifetime: nat)
    ensures (MaximumExpiry(now, lifetime) - 1) * 1_000_000 < now + lifetime * 1_000_000 <= MaximumExpiry(now, lifetime) * 1_000_000
  {
  }

  /** What a stored row answers: a completed one its own result, a failed one its error, an expired and an acknowledged
      one that there is nothing to get any more; the others nothing yet. */
  lemma RowsAnswer(id: string, row: Row)
    ensures var e := ExistingResponse(id, row);
            match row.status
            case Completed =>
              var plain := if row.nonce.Some? && row.ciphertext.Some? && row.ciphertext.value.nonce == row.nonce.value
                               && row.ciphertext.value.binding == Binding(id, row.owner, row.digest)
                            then Some(row.ciphertext.value.plaintext) else None;
              if row.deployment.Some? && row.policyVersion.Some? && plain.Some? then
                && e.Some? && e.value.Answer?
                && e.value.response.id == id && e.value.response.content == plain.value
                && (row.mediaType.Some? ==> e.value.response.mediaType == row.mediaType.value)
                && e.value.response.policyVersion == row.policyVersion.value && e.value.response.deployment == row.deployment.value
              else e == Some(Failure("invalid_worker_output", false, 500, None))
            case Failed =>
              if row.error.Some? && row.error.value.code != "" then
                e == Some(Failure(row.error.value.code, row.error.value.retryable, 502, row.error.value.retryAfter))
              else e.Some? && e.value.Failure? && e.value.code == "invalid_worker_output" && e.value.http == 502
            case Expired => e == Some(Failure("request_expired", false, 409, None))
            case Acknowledged => e == Some(Failure("unknown_request", false, 410, None))
            case Reserved => e.None?
            case InProgress => e.None?
            case Ambiguous => e.None?
  {
  }

  /** How a submission goes on: outside the expiry window it is turned away; another credential's row is forbidden and a
      reused id refused; a full table asks to retry; a row that answers ends it; a row in progress is joined, an
      ambiguous one times out at once, and a reserved or new one goes on to claim the lane. */
  lemma SubmissionReplies(cfg: Config, s: State, tid: nat, owner: string, r: Request, now: Instant)
    requires tid !in s.threads
    ensures var c := Cleanup(s.rows, now, cfg.limits.retention);
            var open := set id | id in c && HoldsCapacity(c[id].status);
            var own := set id | id in c && HoldsCapacity(c[id].status) && c[id].owner == owner;
            var full := |open| >= cfg.limits.maxOpenTotal || |own| >= cfg.limits.maxOpenPerCredential;
            var s' := DoSubmit(cfg, s, tid, owner, r, now);
            && tid in s'.threads && s'.lane == s.lane
            && s'.rows == (if now < r.digest.expires * 1_000_000 && r.digest.expires <= MaximumExpiry(now, cfg.lifetime)
                           then Admit(cfg.limits, s.rows, r, owner, now).0 else s.rows)
            && s'.threads[tid].pc
               == if r.digest.expires * 1_000_000 <= now then Finished(Failure("request_expired", false, 409, None))
                  else if r.digest.expires > MaximumExpiry(now, cfg.lifetime) then Finished(Failure("invalid_request", false, 422, None))
                  else if r.id !in c then
                    if full then Finished(Failure("capacity_limited", true, 429, Some(cfg.retryAfter))) else Claiming
                  else if c[r.id].owner != owner then Finished(Failure("forbidden", false, 403, None))
                  else if c[r.id].digest != r.digest then Finished(Failure("invalid_request", false, 409, None))
                  else if c[r.id].status == Reserved then Claiming
                  else if c[r.id].status == InProgress then Joining
                  else if c[r.id].status == Ambiguous then Finished(Failure("inference_timeout", true, 504, Some(cfg.retryAfter)))
                  else if ExistingResponse(r.id, c[r.id]).Some? then Finished(ExistingResponse(r.id, c[r.id]).value)
                  else Claiming
  {
    if r.digest.expires * MICROS > now && r.digest.expires <= MaximumExpiry(now, cfg.lifetime) {
      SubmissionEffect(cfg, s, tid, owner, r, now);
      AdmitDecides(cfg.limits, s.rows, r, owner, now);
      AdmittedPcs(cfg, r.id, Admit(cfg.limits, s.rows, r, owner, now).1);
    }
  }

  lemma AdmittedPcs(cfg: Config, id: string, result: Result<Row, StoreError>)
    ensures var pc := AdmittedPc(cfg, id, result);
            match result
            case Err(Forbidden) => pc == Finished(Failure("forbidden", false, 403, None))
            case Err(IdentityConflict) => pc == Finished(Failure("invalid_request", false, 409, None))
            case Err(CapacityLimited) => pc == Finished(Failure("capacity_limited", true, 429, Some(cfg.retryAfter)))
            case Err(RequestExpired) => pc == Finished(Failure("request_expired", false, 409, None))
            case Err(e) => pc == Finished(Raised(e))
            case Ok(row) =>
              if row.status == Reserved then pc == Claiming
              else if row.status == InProgress then pc == Joining
              else if row.status == Ambiguous then pc == Finished(Failure("inference_timeout", true, 504, Some(cfg.retryAfter)))
              else if ExistingResponse(id, row).Some? then pc == Finished(ExistingResponse(id, row).value)
              else pc == Claiming
  {
  }

  /** A thread takes the lane if it is free, waits if its own request holds it, and is told to come back otherwise. */
  lemma ClaimReplies(cfg: Config, s: State, tid: nat, attempt: nat)
    requires tid in s.threads && s.threads[tid].pc.Claiming? && attempt !in s.issued
    ensures var id := s.threads[tid].request.id;
            var s' := DoClaim(cfg, s, tid, attempt);
            && tid in s'.threads && s'.rows == s.rows
            && (s.lane.None? ==> s'.threads[tid].pc == Preparing(attempt) && s'.lane == Some(Lane(tid, id, attempt)))
            && (s.lane.Some? ==>
                  && s'.lane == s.lane
                  && s'.threads[tid].pc == if s.lane.value.id == id then Waiting(s.lane.value.attempt)
                                           else Finished(Failure("capacity_limited", true, 429, Some(cfg.retryAfter))))
  {
  }

  /** Joining waits for the lane's attempt when it is this request's, else reads the row at once; a wait ends with the
      attempt, or with a timeout. */
  lemma WaitReplies(cfg: Config, s: State, tid: nat)
    requires tid in s.threads
    ensures s.threads[tid].pc.Joining? ==>
              var s' := DoJoin(s, tid);
              tid in s'.threads
              && s'.threads[tid].pc == if s.lane.Some? && s.lane.value.id == s.threads[tid].request.id
                                       then Waiting(s.lane.value.attempt) else Reloading(None)
    ensures s.threads[tid].pc.Waiting? && s.threads[tid].pc.awaited in s.finished ==>
              tid in DoWake(s, tid).threads && DoWake(s, tid).threads[tid].pc == Reloading(Some(s.threads[tid].pc.awaited))
    ensures s.threads[tid].pc.Waiting? ==>
              tid in DoGiveUp(cfg, s, tid).threads
              && DoGiveUp(cfg, s, tid).threads[tid].pc == Finished(Failure("inference_timeout", true, 504, Some(cfg.retryAfter)))
  {
  }

  /** After the wait: what the row answers, or that no worker took the request if it is reserved again, or a timeout. */
  lemma ReloadReplies(cfg: Config, s: State, tid: nat, now: Instant)
    requires tid in s.threads && s.threads[tid].pc.Reloading?
    ensures var th := s.threads[tid];
            var (t, result) := GetOwned(cfg.limits, s.rows, th.request.id, th.owner, Some(th.request.digest), now);
            var s' := DoReload(cfg, s, tid, now);
            && tid in s'.threads && s'.rows == t && s'.lane == s.lane
            && s'.threads[tid].pc
               == match result
                  case Err(e) => Finished(Raised(e))
                  case Ok(row) =>
                    if ExistingResponse(th.request.id, row).Some? then Finished(ExistingResponse(th.request.id, row).value)
                    else if row.status == Reserved then Finished(Failure("worker_unavailable", true, 503, Some(cfg.retryAfter)))
                    else Finished(Failure("inference_timeout", true, 504, Some(cfg.retryAfter)))
  {
    ReloadEffect(cfg, s, tid, now);
  }

  /** The owner of an expired request tells so before it marks the row; otherwise it marks it. A transition that the
      store rejects leads to the recovery. */
  lemma PrepareReplies(cfg: Config, s: State, tid: nat, now: Instant)
    requires tid in s.threads && s.threads[tid].pc.Preparing?
    ensures var th := s.threads[tid];
            var (t, read) := GetOwned(cfg.limits, s.rows, th.request.id, th.owner, Some(th.request.digest), now);
            var (u, marked) := MarkInProgress(cfg.limits, s.rows, th.request.id, th.pc.attempt, now);
            var s' := DoPrepare(cfg, s, tid, now);
            && tid in s'.threads && s'.log == s.log && s'.lane == s.lane
            && s'.rows == (if th.request.digest.expires * 1_000_000 <= now then t else u)
            && if th.request.digest.expires * 1_000_000 <= now then
                 s'.threads[tid].pc == if read.Ok? then Releasing(th.pc.attempt, Failure("request_expired", false, 409, None))
                                       else Recovering(th.pc.attempt)
               else if marked.Ok? then s'.threads[tid].pc.Marked? && s'.threads[tid].pc.attempt == th.pc.attempt
               else s'.threads[tid].pc == Recovering(th.pc.attempt)
  {
  }

  /** The same once more before it calls the worker; otherwise the call is made for its own request. */
  lemma DispatchReplies(cfg: Config, s: State, tid: nat, now: Instant)
    requires tid in s.threads && s.threads[tid].pc.Marked?
    ensures var th := s.threads[tid];
            var (t, read) := GetOwned(cfg.limits, s.rows, th.request.id, th.owner, Some(th.request.digest), now);
            var s' := DoDispatch(cfg, s, tid, now);
            && tid in s'.threads && s'.lane == s.lane
            && if th.request.digest.expires * 1_000_000 <= now then
                 && s'.log == s.log && s'.rows == t
                 && s'.threads[tid].pc == if read.Ok? then Releasing(th.pc.attempt, Failure("request_expired", false, 409, None))
                                          else Recovering(th.pc.attempt)
               else
                 && s'.threads[tid].pc == Calling(th.pc.attempt, th.pc.row) && s'.rows == s.rows
                 && s'.log == s.log + [Called(th.request.id, th.owner, th.request.digest, th.pc.row, th.pc.attempt)]
  {
  }

  /** A call comes back with what the worker made of it, and changes nothing by itself. */
  lemma ReturnReplies(s: State, tid: nat, outcome: Outcome)
    requires tid in s.threads && s.threads[tid].pc.Calling?
    ensures var pc := s.threads[tid].pc;
            var s' := DoReturn(s, tid, outcome);
            && tid in s'.threads && s'.threads[tid].pc == Returned(pc.attempt, pc.row, outcome)
            && s'.rows == s.rows && s'.lane == s.lane && s'.log == s.log + [Ended(pc.attempt, outcome)]
  {
  }

  /** A call that produced nothing: a row still in progress under the attempt is reserved again when the worker was
      unavailable, failed for good when its output was invalid, and ambiguous otherwise; no other row changes. */
  lemma FaultReplies(cfg: Config, s: State, tid: nat, nonce: nat, now: Instant)
    requires tid in s.threads && s.threads[tid].pc.Returned? && !s.threads[tid].pc.outcome.Produced?
    ensures var th := s.threads[tid];
            var id, a := th.request.id, th.pc.attempt;
            var s' := DoSettle(cfg, s, tid, nonce, now);
            var own := id in s.rows && s.rows[id].status == InProgress && s.rows[id].attempt == Some(a);
            && tid in s'.threads && s'.log == s.log && s'.lane == s.lane && s'.born == s.born && s'.issued == s.issued
            && (!own ==> s'.rows == s.rows)
            && if th.pc.outcome == Unavailable then
                 && (own ==> s'.rows == s.rows[id := s.rows[id].(status := Reserved, attempt := None, updated := now / 1_000_000)])
                 && s'.threads[tid].pc == Releasing(a, Failure("worker_unavailable", true, 503, Some(cfg.retryAfter)))
               else if th.pc.outcome == Invalid then
                 && (own ==> s'.rows == s.rows[id := s.rows[id].(status := Failed, updated := now / 1_000_000,
                                                                 error := Some(RowError("invalid_worker_output", false, None)))])
                 && s'.threads[tid].pc == Releasing(a, Failure("invalid_worker_output", false, 502, None))
               else
                 && (own ==> s'.rows == s.rows[id := s.rows[id].(status := Ambiguous, updated := now / 1_000_000)])
                 && s'.threads[tid].pc == Releasing(a, Failure("inference_timeout", true, 504, Some(cfg.retryAfter)))
  {
    FaultsDecide(s.rows, s.threads[tid].request.id, s.threads[tid].pc.attempt, RowError("invalid_worker_output", false, None), now);
  }

  /** A result: stored and then read back, told to be too late when the row has expired, and given to the recovery when
      the row is no longer the attempt's. The recovery leaves the row ambiguous and tells of a timeout. */
  lemma ResultReplies(cfg: Config, s: State, tid: nat, nonce: nat, now: Instant)
    requires tid in s.threads
    ensures var th := s.threads[tid];
            th.pc.Returned? && th.pc.outcome.Produced? ==>
              var c := Cleanup(s.rows, now, cfg.limits.retention);
              var id, a := th.request.id, th.pc.attempt;
              var s' := DoSettle(cfg, s, tid, nonce, now);
              var output := Output(th.pc.outcome.mediaType, th.pc.outcome.content, s.release.deployment, s.release.policyVersion);
              && tid in s'.threads && s'.lane == s.lane
              && s'.rows == Complete(cfg.limits, s.rows, id, a, output, nonce, now).0
              && s'.threads[tid].pc
                 == if id !in c || c[id].status == Expired then Releasing(a, Failure("request_expired", false, 409, None))
                    else if c[id].status == InProgress && c[id].attempt == Some(a) then Collecting(a, th.pc.row)
                    else Recovering(a)
    ensures var th := s.threads[tid];
            th.pc.Recovering? ==>
              var id, a := th.request.id, th.pc.attempt;
              var s' := DoRecover(cfg, s, tid, now);
              && tid in s'.threads
              && s'.rows == (if id in s.rows && s.rows[id].status == InProgress && s.rows[id].attempt == Some(a)
                             then s.rows[id := s.rows[id].(status := Ambiguous, updated := now / 1_000_000)] else s.rows)
              && s'.threads[tid].pc == Releasing(a, Failure("inference_timeout", true, 504, Some(cfg.retryAfter)))
  {
  }

  /** Reading the stored result back for the caller. */
  lemma CollectReplies(cfg: Config, s: State, tid: nat, now: Instant)
    requires tid in s.threads && s.threads[tid].pc.Collecting?
    ensures var th := s.threads[tid];
            var (t, result) := GetOwned(cfg.limits, s.rows, th.request.id, th.owner, Some(th.request.digest), now);
            var s' := DoCollect(cfg, s, tid, now);
            && tid in s'.threads && s'.rows == t && s'.lane == s.lane
            && s'.threads[tid].pc
               == match result
                  case Err(_) => Recovering(th.pc.attempt)
                  case Ok(row) =>
                    if ExistingResponse(th.request.id, row).Some?
                    then Releasing(th.pc.attempt, ExistingResponse(th.request.id, row).value)
                    else Releasing(th.pc.attempt, Failure("invalid_worker_output", false, 500, None))
  {
  }

  /** The release hands the reply to the caller, frees the lane that is this claim's, and wakes whoever waits. */
  lemma ReleaseReplies(s: State, tid: nat)
    requires tid in s.threads && s.threads[tid].pc.Releasing?
    ensures var pc := s.threads[tid].pc;
            var s' := DoRelease(s, tid);
            && tid in s'.threads && s'.threads[tid].pc == Finished(pc.reply) && pc.attempt in s'.finished
            && s'.rows == s.rows && s'.log == s.log && s'.born == s.born && s'.issued == s.issued
            && s'.lane == if s.lane.Some? && s.lane.value.tid == tid && s.lane.value.attempt == pc.attempt then None else s.lane
  {
  }
}
