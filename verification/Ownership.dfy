/** Whose work a call does. Marking a row fences neither owner nor digest, so a thread that stalls before
    it claims the lane can mark a row that was inserted later under the same id. Tombstones that outlast
    the longest lifetime rule that out; with any shorter retention there is a run in which one caller is
    answered with what the worker produced for another. */
module Ownership {
  import opened Outcomes
  import opened RequestTable
  import opened Gateway
  import opened Tombstones
  import opened Execution
  import opened Passages
  import opened Replay
  import opened Retention

  /** Every response comes from a call that was made for the request its row was inserted for. */
  ghost predicate AnswersOwnWork(log: seq<Event>) {
    forall n :: 0 <= n < |log| && log[n].Answered? ==> FromOwnWork(log, log[n].row, log[n].response)
  }

  ghost predicate FromOwnWork(log: seq<Event>, row: nat, r: Response) {
    exists a: nat, i: nat, j: nat, k: nat :: IsOrigin(log, row, r, a, i, j, k) && OwnCall(log, i)
  }

  lemma OwnCallsGiveOwnWork(log: seq<Event>)
    requires OwnCalls(log) && OriginInv(log)
    ensures AnswersOwnWork(log)
  {
    forall n | 0 <= n < |log| && log[n].Answered? ensures FromOwnWork(log, log[n].row, log[n].response) {
      assert HasOrigin(log, log[n].row, log[n].response);
      var a: nat, i: nat, j: nat, k: nat :| IsOrigin(log, log[n].row, log[n].response, a, i, j, k);
      assert OwnCall(log, i);
    }
  }

  lemma LastReading(steps: seq<Step>, step: Step)
    requires HasClock(step) && NonDecreasing(steps + [step])
    ensures NonDecreasing(steps) && Until(steps, step.now)
  {
    var last := steps + [step];
    assert forall i :: 0 <= i < |steps| ==> last[i] == steps[i];
    assert last[|steps|] == step;
  }

  /** When the second expiry check passes, the worker is called for the request of the row that is in
      progress under this attempt: the id, the owner and the digest are those of the row. */
  lemma CallsWorkOnTheirOwnRow(cfg: Config, steps: seq<Step>, tid: nat, now: Instant)
    requires NonDecreasing(steps + [Dispatch(tid, now)]) && cfg.limits.retention >= cfg.lifetime
    requires tid in Run(cfg, steps).threads && Run(cfg, steps).threads[tid].pc.Marked?
    requires Run(cfg, steps + [Dispatch(tid, now)]).threads[tid].pc.Calling?
    ensures var s := Run(cfg, steps);
            var th := s.threads[tid];
            && OwnedBy(s.rows, th.request.id, th.pc.attempt)
            && s.rows[th.request.id].owner == th.owner && s.rows[th.request.id].digest == th.request.digest
  {
    LastReading(steps, Dispatch(tid, now));
    RunSnoc(cfg, steps, Dispatch(tid, now));
    RunKeepsAll(cfg, steps, now);
    DispatchIsCovered(cfg, Run(cfg, steps), now, now, tid);
    MarkedRowIsOwn(Run(cfg, steps), now, tid);
  }

  /** Another request under the same id, which expires at the same time. */
  function OtherRequest(lifetime: nat): Request {
    Request("x", Digest(lifetime + 1, "other"))
  }

  /** After the first life another caller submits its own request under the forgotten id. The first
      thread, admitted in the first life, then executes it. Last, the other caller asks again. */
  function Takeover(lifetime: nat, retention: nat): seq<Step> {
    var r, later := OtherRequest(lifetime), Later(retention);
    [Submit(2, "p", r, later), Claim(0, 1), Prepare(0, later), Dispatch(0, later), Return(0, Produced("m", "c")),
     Settle(0, 0, later), Submit(3, "p", r, later)]
  }

  /** Once the other caller's row is there: the first thread has not moved. */
  ghost predicate Overtaken(cfg: Config, s: State, r: Request) {
    && s.rows == map["x" := FreshRow(r, "p", Later(cfg.limits.retention))]
    && "x" in s.born && s.born["x"] == 5
    && s.lane == None && s.threads.Keys == {0, 1, 2} && 1 !in s.issued
    && s.threads[0] == Thread("o", LongRequest(cfg.lifetime), 0, Claiming)
  }

  lemma OtherCallerIsAdmitted(cfg: Config, p: seq<Step>, s: State)
    requires Roomy(cfg) && cfg.limits.retention < cfg.lifetime && s == Run(cfg, p) && OnceAnswered(s, cfg.lifetime)
    ensures var r := OtherRequest(cfg.lifetime);
            var m := Run(cfg, p + [Submit(2, "p", r, Later(cfg.limits.retention))]);
            Overtaken(cfg, m, r) && m.log == s.log + [Inserted("x", "p", r.digest, cfg.limits.retention + 1)]
  {
    SecondAdmission(cfg, p, s, "p", OtherRequest(cfg.lifetime));
  }

  lemma SceneOfItself(s: State, row: Row, tid: nat)
    requires s.rows == map["x" := row] && tid in s.threads
    ensures s == Scene(s, row, s.lane, tid, s.threads[tid], s.log)
  {
    assert s.threads == s.threads[tid := s.threads[tid]];
  }

  /** The stalled thread calls the worker for its own request and marks the other caller's row. */
  lemma StalledThreadCalls(cfg: Config, p: seq<Step>, s: State, r: Request)
    requires cfg.limits.retention < cfg.lifetime && s == Run(cfg, p) && Overtaken(cfg, s, r) && r.digest.expires == cfg.lifetime + 1
    ensures var later := Later(cfg.limits.retention);
            Run(cfg, p + [Claim(0, 1), Prepare(0, later), Dispatch(0, later)])
            == Scene(s.(issued := s.issued + {1}), Taken(FreshRow(r, "p", later), 1, later), Some(Lane(0, "x", 1)), 0,
                     s.threads[0].(pc := Calling(1, 5)), s.log + [Called("x", "o", LongRequest(cfg.lifetime).digest, 5, 1)])
  {
    var later := Later(cfg.limits.retention);
    LaterIsInTime(cfg);
    SceneOfItself(s, FreshRow(r, "p", later), 0);
    RunCalls(cfg, p, s, FreshRow(r, "p", later), 0, s.threads[0], 1, later, s.log);
  }

  /** What it stores in that row, and the other caller is answered with. */
  function TakenRow(cfg: Config, s: State, r: Request): Row {
    var later := Later(cfg.limits.retention);
    Kept(s, Taken(FreshRow(r, "p", later), 1, later), later)
  }

  lemma TakenRowReads(cfg: Config, s: State, r: Request)
    ensures var row := TakenRow(cfg, s, r);
            && row.status == Completed && row.owner == "p" && row.digest == r.digest && row.expires == r.digest.expires
            && ExistingResponse("x", row) == Some(Answer(Reading(row)))
  {
    var later := Later(cfg.limits.retention);
    KeptReads(s, Taken(FreshRow(r, "p", later), 1, later), later);
  }

  lemma StalledThreadStores(cfg: Config, p: seq<Step>, s: State, r: Request, row: Row, th: Thread, log: seq<Event>)
    requires cfg.limits.retention < cfg.lifetime && r.digest.expires == cfg.lifetime + 1
    requires var later := Later(cfg.limits.retention);
             row == Taken(FreshRow(r, "p", later), 1, later) && th.request.id == "x" && th.pc == Calling(1, 5)
             && Run(cfg, p) == Scene(s, row, Some(Lane(0, "x", 1)), 0, th, log)
    ensures var later := Later(cfg.limits.retention);
            var m := Run(cfg, p + [Return(0, Produced("m", "c")), Settle(0, 0, later)]);
            && m.rows == map["x" := TakenRow(cfg, s, r)] && m.born == s.born && m.threads.Keys == s.threads.Keys + {0}
            && m.log == log + [Ended(1, Produced("m", "c")), Stored(5, 1, s.release, cfg.limits.retention + 1)]
  {
    LaterIsInTime(cfg);
    RunStores(cfg, p, s, row, Some(Lane(0, "x", 1)), 0, th, Later(cfg.limits.retention), log);
  }

  lemma OtherCallerIsAnswered(cfg: Config, p: seq<Step>, m: State, row: Row, r: Request)
    requires cfg.limits.retention < cfg.lifetime && r.id == "x" && r.digest.expires == cfg.lifetime + 1
    requires m == Run(cfg, p) && m.rows == map["x" := row] && "x" in m.born && m.born["x"] == 5 && 3 !in m.threads
    requires row.status == Completed && row.owner == "p" && row.digest == r.digest && row.expires == r.digest.expires
    requires ExistingResponse("x", row) == Some(Answer(Reading(row)))
    ensures Run(cfg, p + [Submit(3, "p", r, Later(cfg.limits.retention))]).log
         == m.log + [Answered(5, Reading(row), cfg.limits.retention + 1)]
  {
    LongestIsInTime(cfg, r);
    AnsweredInTime(cfg, p, m, row, r, Later(cfg.limits.retention));
  }

  lemma AnsweredInTime(cfg: Config, p: seq<Step>, m: State, row: Row, r: Request, now: Instant)
    requires m == Run(cfg, p) && m.rows == map["x" := row] && "x" in m.born && m.born["x"] == 5 && 3 !in m.threads
    requires row.status == Completed && row.owner == "p" && row.digest == r.digest && row.expires == r.digest.expires
    requires r.id == "x" && InTime(cfg, r, now) && ExistingResponse("x", row) == Some(Answer(Reading(row)))
    ensures Run(cfg, p + [Submit(3, "p", r, now)]).log == m.log + [Answered(5, Reading(row), Seconds(now))]
  {
    RunReplays(cfg, p, m, row, 3, "p", r, now);
  }

  /** The stalled thread's call, its end, and the answer to the other caller. */
  lemma StalledThreadAnswers(cfg: Config, p: seq<Step>, s: State, r: Request)
    requires cfg.limits.retention < cfg.lifetime && s == Run(cfg, p) && Overtaken(cfg, s, r)
    requires r.id == "x" && r.digest.expires == cfg.lifetime + 1
    ensures var later := Later(cfg.limits.retention);
            Run(cfg, p + [Claim(0, 1), Prepare(0, later), Dispatch(0, later)] + [Return(0, Produced("m", "c")), Settle(0, 0, later)]
                       + [Submit(3, "p", r, later)]).log
            == s.log + [Called("x", "o", LongRequest(cfg.lifetime).digest, 5, 1)]
               + [Ended(1, Produced("m", "c")), Stored(5, 1, s.release, cfg.limits.retention + 1)]
               + [Answered(5, Reading(TakenRow(cfg, s, r)), cfg.limits.retention + 1)]
  {
    var later := Later(cfg.limits.retention);
    var q := p + [Claim(0, 1), Prepare(0, later), Dispatch(0, later)];
    var row, th := Taken(FreshRow(r, "p", later), 1, later), s.threads[0].(pc := Calling(1, 5));
    StalledThreadCalls(cfg, p, s, r);
    StalledThreadStores(cfg, q, s.(issued := s.issued + {1}), r, row, th, s.log + [Called("x", "o", LongRequest(cfg.lifetime).digest, 5, 1)]);
    var q' := q + [Return(0, Produced("m", "c")), Settle(0, 0, later)];
    TakenRowReads(cfg, s, r);
    OtherCallerIsAnswered(cfg, q', Run(cfg, q'), TakenRow(cfg, s, r), r);
  }

  /** The log of the takeover: the call on row 5 is for owner "o", the row is of owner "p". */
  ghost predicate TakenOver(log: seq<Event>, d: Digest, d': Digest) {
    && |log| == 10
    && log[0] == Inserted("x", "o", d, 0) && log[1] == Called("x", "o", d, 0, 0)
    && log[2].Ended? && log[3].Stored? && log[4].Answered? && log[4].row == 0
    && log[5].Inserted? && log[5].owner == "p" && log[5].digest == d'
    && log[6] == Called("x", "o", d, 5, 1)
    && log[7] == Ended(1, Produced("m", "c")) && log[8].Stored? && log[8].row == 5
    && log[9].Answered? && log[9].row == 5 && log[9].response.content == "c"
  }

  lemma TakeoverInParts(p: seq<Step>, q: seq<Step>)
    requires |q| == 7
    ensures p + [q[0]] + [q[1], q[2], q[3]] + [q[4], q[5]] + [q[6]] == p + q
  {
  }

  lemma TakeoverNonDecreasing(lifetime: nat, retention: nat)
    ensures NonDecreasing(FirstLife(lifetime) + Takeover(lifetime, retention))
  {
    LivesNonDecreasing(lifetime, retention, Takeover(lifetime, retention));
  }

  lemma TakeoverLog(cfg: Config, s: State, log: seq<Event>, release: Provenance, r: Response)
    requires OnceAnswered(s, cfg.lifetime) && r.content == "c"
    requires var d, d', at := LongRequest(cfg.lifetime).digest, OtherRequest(cfg.lifetime).digest, cfg.limits.retention + 1;
             log == s.log + [Inserted("x", "p", d', at)] + [Called("x", "o", d, 5, 1)]
                    + [Ended(1, Produced("m", "c")), Stored(5, 1, release, at)] + [Answered(5, r, at)]
    ensures TakenOver(log, LongRequest(cfg.lifetime).digest, OtherRequest(cfg.lifetime).digest)
  {
  }

  lemma TakeoverRuns(cfg: Config)
    requires Roomy(cfg) && cfg.limits.retention < cfg.lifetime
    ensures TakenOver(Run(cfg, FirstLife(cfg.lifetime) + Takeover(cfg.lifetime, cfg.limits.retention)).log,
                      LongRequest(cfg.lifetime).digest, OtherRequest(cfg.lifetime).digest)
  {
    var p, q, r := FirstLife(cfg.lifetime), Takeover(cfg.lifetime, cfg.limits.retention), OtherRequest(cfg.lifetime);
    FirstLifeRuns(cfg);
    OtherCallerIsAdmitted(cfg, p, Run(cfg, p));
    var s := Run(cfg, p + [q[0]]);
    StalledThreadAnswers(cfg, p + [q[0]], s, r);
    TakeoverInParts(p, q);
    TakeoverLog(cfg, Run(cfg, p), Run(cfg, p + q).log, s.release, Reading(TakenRow(cfg, s, r)));
  }

  /** The answer of row 5 has no other origin than the call for the other owner and digest. */
  lemma TakenOverIsNotOwn(log: seq<Event>, d: Digest, d': Digest)
    requires TakenOver(log, d, d') && d != d'
    ensures !OwnCalls(log) && !AnswersOwnWork(log)
  {
    assert !OwnCall(log, 6);
    assert forall i: nat :: i < |log| && log[i].Called? && log[i].row == 5 ==> i == 6;
    assert !FromOwnWork(log, log[9].row, log[9].response);
  }

  /** With any shorter retention, one caller is answered with what was produced for another. */
  lemma ShorterRetentionMixesCallers(cfg: Config)
    requires Roomy(cfg) && cfg.limits.retention < cfg.lifetime
    ensures var steps := FirstLife(cfg.lifetime) + Takeover(cfg.lifetime, cfg.limits.retention);
            && NonDecreasing(steps)
            && TakenOver(Run(cfg, steps).log, LongRequest(cfg.lifetime).digest, OtherRequest(cfg.lifetime).digest)
            && !OwnCalls(Run(cfg, steps).log) && !AnswersOwnWork(Run(cfg, steps).log)
  {
    TakeoverRuns(cfg);
    TakeoverNonDecreasing(cfg.lifetime, cfg.limits.retention);
    TakenOverIsNotOwn(Run(cfg, FirstLife(cfg.lifetime) + Takeover(cfg.lifetime, cfg.limits.retention)).log,
                      LongRequest(cfg.lifetime).digest, OtherRequest(cfg.lifetime).digest);
  }

  lemma RetainedMeansOwn(cfg: Config, steps: seq<Step>)
    requires NonDecreasing(steps) && cfg.limits.retention >= cfg.lifetime
    ensures OwnCalls(Run(cfg, steps).log) && AnswersOwnWork(Run(cfg, steps).log)
  {
    HorizonExists(steps);
    var hi :| Until(steps, hi);
    RunKeepsAll(cfg, steps, hi);
    ReplaysAreStable(cfg, steps);
    OwnCallsGiveOwnWork(Run(cfg, steps).log);
  }

  /** In runs whose clock readings never go back: the worker is called only for the owner and the digest
      that the row was inserted with, and every answer is what such a call produced, exactly when
      tombstones outlast the longest lifetime. */
  lemma OwnershipDecides(cfg: Config)
    requires Roomy(cfg)
    ensures (forall steps :: NonDecreasing(steps) ==> OwnCalls(Run(cfg, steps).log)) <==> cfg.limits.retention >= cfg.lifetime
    ensures (forall steps :: NonDecreasing(steps) ==> AnswersOwnWork(Run(cfg, steps).log)) <==> cfg.limits.retention >= cfg.lifetime
  {
    if cfg.limits.retention >= cfg.lifetime {
      forall steps | NonDecreasing(steps) ensures OwnCalls(Run(cfg, steps).log) && AnswersOwnWork(Run(cfg, steps).log) {
        RetainedMeansOwn(cfg, steps);
      }
    } else {
      ShorterRetentionMixesCallers(cfg);
    }
  }
}
