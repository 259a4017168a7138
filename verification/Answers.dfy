/** From admission to answer: a request that is let through, and that the worker produces a result for in time, ends with
    exactly that result for its caller, and with a free lane. */
module Answers {
  import opened Outcomes
  import opened RequestTable
  import opened Gateway
  import opened Replies
  import opened Retries
  import opened Transactions

  /** There is room for one more row of the owner in the cleaned table. */
  predicate HasRoom(limits: Limits, c: Table, owner: string) {
    && |set id | id in c && HoldsCapacity(c[id].status)| < limits.maxOpenTotal
    && |set id | id in c && HoldsCapacity(c[id].status) && c[id].owner == owner| < limits.maxOpenPerCredential
  }

  /** The row holds the result, sealed for the request. */
  predicate HoldsResult(s: State, owner: string, r: Request, mediaType: string, content: string, release: Provenance) {
    && r.id in s.rows && r.id in s.born && s.release == release
    && var row := s.rows[r.id];
       && row.status == Completed && row.owner == owner && row.digest == r.digest && row.expires == r.digest.expires
       && row.mediaType == Some(mediaType) && row.nonce.Some?
       && row.ciphertext == Some(Sealed(row.nonce.value, Binding(r.id, owner, r.digest), content))
       && row.deployment == Some(release.deployment) && row.policyVersion == Some(release.policyVersion)
  }

  lemma FreshIsAdmitted(cfg: Config, s: State, tid: nat, owner: string, r: Request, now: Instant)
    requires tid !in s.threads && r.digest.expires * 1_000_000 > now && r.digest.expires <= MaximumExpiry(now, cfg.lifetime)
    requires var c := Cleanup(s.rows, now, cfg.limits.retention);
             r.id !in c && HasRoom(cfg.limits, c, owner)
    ensures var s' := Next(cfg, s, Submit(tid, owner, r, now));
            && Stands(s', tid, owner, r, Claiming) && s'.lane == s.lane && s'.issued == s.issued && s'.release == s.release
            && Reserves(s', owner, r, now)
  {
    AdmitDecides(cfg.limits, s.rows, r, owner, now);
    var c := Cleanup(s.rows, now, cfg.limits.retention);
    assert DoSubmit(cfg, s, tid, owner, r, now)
        == Proceed(cfg, Insertion(s, c, tid, owner, r, now), tid, r.id, FreshRow(r, owner, now), now);
  }

  lemma ResultReturns(cfg: Config, s: State, tid: nat, owner: string, r: Request, attempt: nat, row: nat, outcome: Outcome)
    requires Stands(s, tid, owner, r, Calling(attempt, row)) && Owns(s, owner, r, attempt)
    ensures var s' := Next(cfg, s, Return(tid, outcome));
            && Stands(s', tid, owner, r, Returned(attempt, row, outcome)) && Owns(s', owner, r, attempt)
            && s'.release == s.release && s'.lane == s.lane
  {
    ReturnReplies(s, tid, outcome);
  }

  lemma ResultIsStored(cfg: Config, s: State, tid: nat, owner: string, r: Request, attempt: nat, row: nat,
                       mediaType: string, content: string, nonce: nat, now: Instant)
    requires Stands(s, tid, owner, r, Returned(attempt, row, Produced(mediaType, content))) && Owns(s, owner, r, attempt)
    requires r.digest.expires * 1_000_000 > now
    ensures var s' := Next(cfg, s, Settle(tid, nonce, now));
            && Stands(s', tid, owner, r, Collecting(attempt, row)) && s'.lane == s.lane
            && HoldsResult(s', owner, r, mediaType, content, s.release)
  {
    CleanupDecides(s.rows, now, cfg.limits.retention, r.id);
    ResultReplies(cfg, s, tid, nonce, now);
    CompleteDecides(cfg.limits, s.rows, r.id, attempt, Output(mediaType, content, s.release.deployment, s.release.policyVersion), nonce, now);
  }

  lemma StoredIsAnswered(cfg: Config, s: State, tid: nat, owner: string, r: Request, attempt: nat, row: nat,
                         mediaType: string, content: string, release: Provenance, now: Instant)
    requires Stands(s, tid, owner, r, Collecting(attempt, row)) && HoldsResult(s, owner, r, mediaType, content, release)
    requires r.digest.expires * 1_000_000 > now
    ensures var s' := Next(cfg, s, Collect(tid, now));
            && Stands(s', tid, owner, r, Releasing(attempt, Answer(Response(r.id, mediaType, content, release.policyVersion, release.deployment))))
            && s'.lane == s.lane
  {
    CleanupDecides(s.rows, now, cfg.limits.retention, r.id);
    GetOwnedDecides(cfg.limits, s.rows, r.id, owner, Some(r.digest), now);
    RowsAnswer(r.id, s.rows[r.id]);
    CollectReplies(cfg, s, tid, now);
  }

  lemma AnswerIsReleased(cfg: Config, s: State, tid: nat, owner: string, r: Request, attempt: nat, reply: Reply)
    requires Stands(s, tid, owner, r, Releasing(attempt, reply)) && s.lane == Some(Lane(tid, r.id, attempt))
    ensures var s' := Next(cfg, s, Release(tid));
            Stands(s', tid, owner, r, Finished(reply)) && s'.lane.None?
  {
    ReleaseReplies(s, tid);
  }

  lemma CallIsAnswered(cfg: Config, s: State, tid: nat, owner: string, r: Request, attempt: nat, row: nat,
                       mediaType: string, content: string, nonce: nat, settled: Instant, collected: Instant)
    requires Stands(s, tid, owner, r, Calling(attempt, row)) && Owns(s, owner, r, attempt)
    requires s.lane == Some(Lane(tid, r.id, attempt))
    requires r.digest.expires * 1_000_000 > settled && r.digest.expires * 1_000_000 > collected
    ensures var returned := Next(cfg, s, Return(tid, Produced(mediaType, content)));
            var s' := Next(cfg, Next(cfg, Next(cfg, returned, Settle(tid, nonce, settled)), Collect(tid, collected)), Release(tid));
            && Stands(s', tid, owner, r, Finished(Answer(Response(r.id, mediaType, content, s.release.policyVersion, s.release.deployment))))
            && s'.lane.None?
  {
    var s1 := Next(cfg, s, Return(tid, Produced(mediaType, content)));
    var s2 := Next(cfg, s1, Settle(tid, nonce, settled));
    var s3 := Next(cfg, s2, Collect(tid, collected));
    ResultReturns(cfg, s, tid, owner, r, attempt, row, Produced(mediaType, content));
    ResultIsStored(cfg, s1, tid, owner, r, attempt, row, mediaType, content, nonce, settled);
    StoredIsAnswered(cfg, s2, tid, owner, r, attempt, row, mediaType, content, s.release, collected);
    AnswerIsReleased(cfg, s3, tid, owner, r, attempt,
                     Answer(Response(r.id, mediaType, content, s.release.policyVersion, s.release.deployment)));
  }

  /** A fresh request that there is room for, or a repeat of a reserved one. */
  predicate LetThrough(cfg: Config, s: State, owner: string, r: Request, now: Instant) {
    && r.digest.expires * 1_000_000 > now && r.digest.expires <= MaximumExpiry(now, cfg.lifetime)
    && var c := Cleanup(s.rows, now, cfg.limits.retention);
       Reserves(s, owner, r, now) || (r.id !in c && HasRoom(cfg.limits, c, owner))
  }

  lemma SubmissionClaims(cfg: Config, s: State, tid: nat, owner: string, r: Request, now: Instant, later: Instant)
    requires tid !in s.threads && LetThrough(cfg, s, owner, r, now) && r.digest.expires * 1_000_000 > later
    ensures var s' := Next(cfg, s, Submit(tid, owner, r, now));
            && Stands(s', tid, owner, r, Claiming) && s'.lane == s.lane && s'.issued == s.issued && s'.release == s.release
            && Reserves(s', owner, r, later)
  {
    if Reserves(s, owner, r, now) {
      RepeatIsAdmitted(cfg, s, tid, owner, r, now);
    } else {
      FreshIsAdmitted(cfg, s, tid, owner, r, now);
    }
  }

  /** The clock readings of one request, in the order of its steps. */
  datatype Readings = Readings(admitted: Instant, marked: Instant, dispatched: Instant, settled: Instant, collected: Instant)

  predicate InTime(r: Request, at: Readings) {
    && r.digest.expires * 1_000_000 > at.marked && r.digest.expires * 1_000_000 > at.dispatched
    && r.digest.expires * 1_000_000 > at.settled && r.digest.expires * 1_000_000 > at.collected
  }

  /** In every run, whatever came before: a request that is let through while the lane is free, and is not overtaken,
      ends with what the worker produced for it, under the release that stored it, and leaves the lane free. */
  lemma RequestsAreAnswered(cfg: Config, steps: seq<Step>, tid: nat, owner: string, r: Request, attempt: nat,
                            mediaType: string, content: string, nonce: nat, at: Readings)
    requires var s := Run(cfg, steps);
             tid !in s.threads && s.lane.None? && attempt !in s.issued && LetThrough(cfg, s, owner, r, at.admitted)
    requires InTime(r, at)
    ensures var release := Run(cfg, steps).release;
            var s' := Run(cfg, steps + [Submit(tid, owner, r, at.admitted), Claim(tid, attempt)]
                                     + [Prepare(tid, at.marked), Dispatch(tid, at.dispatched)]
                                     + [Return(tid, Produced(mediaType, content)), Settle(tid, nonce, at.settled)]
                                     + [Collect(tid, at.collected), Release(tid)]);
            && Stands(s', tid, owner, r, Finished(Answer(Response(r.id, mediaType, content, release.policyVersion, release.deployment))))
            && s'.lane.None?
  {
    var s := Run(cfg, steps);
    var called := steps + [Submit(tid, owner, r, at.admitted), Claim(tid, attempt)] + [Prepare(tid, at.marked), Dispatch(tid, at.dispatched)];
    FourSteps(cfg, steps, Submit(tid, owner, r, at.admitted), Claim(tid, attempt), Prepare(tid, at.marked), Dispatch(tid, at.dispatched));
    FourSteps(cfg, called, Return(tid, Produced(mediaType, content)), Settle(tid, nonce, at.settled), Collect(tid, at.collected), Release(tid));
    EightSteps(cfg, s, Run(cfg, called), tid, owner, r, attempt, mediaType, content, nonce, at);
  }

  lemma EightSteps(cfg: Config, s: State, t: State, tid: nat, owner: string, r: Request, attempt: nat,
                   mediaType: string, content: string, nonce: nat, at: Readings)
    requires tid !in s.threads && s.lane.None? && attempt !in s.issued && LetThrough(cfg, s, owner, r, at.admitted) && InTime(r, at)
    requires t == Next(cfg, Next(cfg, Next(cfg, Next(cfg, s, Submit(tid, owner, r, at.admitted)), Claim(tid, attempt)),
                                 Prepare(tid, at.marked)), Dispatch(tid, at.dispatched))
    ensures var returned := Next(cfg, t, Return(tid, Produced(mediaType, content)));
            var s' := Next(cfg, Next(cfg, Next(cfg, returned, Settle(tid, nonce, at.settled)), Collect(tid, at.collected)), Release(tid));
            && Stands(s', tid, owner, r, Finished(Answer(Response(r.id, mediaType, content, s.release.policyVersion, s.release.deployment))))
            && s'.lane.None?
  {
    var claiming := Next(cfg, s, Submit(tid, owner, r, at.admitted));
    SubmissionClaims(cfg, s, tid, owner, r, at.admitted, at.marked);
    ClaimIsCalled(cfg, claiming, tid, owner, r, attempt, at.marked, at.dispatched);
    CallIsAnswered(cfg, t, tid, owner, r, attempt, claiming.born[r.id], mediaType, content, nonce, at.settled, at.collected);
  }
}
