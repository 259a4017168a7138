/** Admission limits and the life cycle of rows, in every run. */
module Capacity {
  import opened Outcomes
  import opened RequestTable
  import opened RowLaws
  import opened Gateway
  import opened GatewayInvariant
  import opened Replay

  lemma SettleEvolves(cfg: Config, s: State, tid: nat, nonce: nat, now: Instant)
    ensures Evolves(s.rows, DoSettle(cfg, s, tid, nonce, now).rows)
  {
    if tid in s.threads && s.threads[tid].pc.Returned? {
      var th := s.threads[tid];
      var id, a := th.request.id, th.pc.attempt;
      if th.pc.outcome.Produced? {
        var output := Output(th.pc.outcome.mediaType, th.pc.outcome.content, s.release.deployment, s.release.policyVersion);
        CompleteEvolves(cfg.limits, s.rows, id, a, output, nonce, now);
      } else {
        ResetEvolves(s.rows, id, a, now);
        FailedEvolves(s.rows, id, a, RowError("invalid_worker_output", false, None), now);
        AmbiguousEvolves(s.rows, id, a, now);
      }
    }
  }

  lemma ReadsEvolve(cfg: Config, s: State, tid: nat, now: Instant)
    ensures Evolves(s.rows, DoReload(cfg, s, tid, now).rows) && Evolves(s.rows, DoCollect(cfg, s, tid, now).rows)
  {
    if tid in s.threads {
      var th := s.threads[tid];
      GetOwnedEvolves(cfg.limits, s.rows, th.request.id, th.owner, Some(th.request.digest), now);
    }
  }

  /** Every step but an admission moves rows only along the edges of their life cycle. */
  lemma NextEvolves(cfg: Config, s: State, step: Step)
    requires TableOk(s.rows) && !step.Submit?
    ensures Evolves(s.rows, Next(cfg, s, step).rows)
  {
    match step
    case Settle(tid, nonce, now) => SettleEvolves(cfg, s, tid, nonce, now);
    case Reload(tid, now) => ReadsEvolve(cfg, s, tid, now);
    case Collect(tid, now) => ReadsEvolve(cfg, s, tid, now);
    case Prepare(tid, now) => OwnerIsCalm(cfg, s, tid, now);
    case Dispatch(tid, now) => OwnerIsCalm(cfg, s, tid, now);
    case Claim(_, _) =>
    case Join(_) =>
    case Wake(_) =>
    case GiveUp(_) =>
    case Release(_) =>
    case _ => OthersAreCalm(cfg, s, step);
  }

  /** What a submission does to the table: nothing, or what the admission does. */
  lemma SubmitRows(cfg: Config, s: State, tid: nat, owner: string, request: Request, now: Instant)
    ensures DoSubmit(cfg, s, tid, owner, request, now).rows
            == if tid in s.threads || request.digest.expires * MICROS <= now || request.digest.expires > MaximumExpiry(now, cfg.lifetime)
               then s.rows else Admit(cfg.limits, s.rows, request, owner, now).0
  {
    var (t, result) := Admit(cfg.limits, s.rows, request, owner, now);
    var c := Cleanup(s.rows, now, cfg.limits.retention);
    if result.Ok? {
      ProceedKeepsRows(cfg, Arrival(s, t, tid, owner, request), tid, request.id, result.value, now);
      ProceedKeepsRows(cfg, Insertion(s, c, tid, owner, request, now), tid, request.id, result.value, now);
    }
  }

  lemma ProceedKeepsRows(cfg: Config, m: State, tid: nat, id: string, row: Row, now: Instant)
    requires tid in m.threads
    ensures Proceed(cfg, m, tid, id, row, now).rows == m.rows
  {
  }

  /** An admission either moves rows along the edges too, or adds one fresh row within both limits. */
  lemma SubmitEvolves(cfg: Config, s: State, tid: nat, owner: string, request: Request, now: Instant)
    ensures var t := DoSubmit(cfg, s, tid, owner, request, now).rows;
            var c := Cleanup(s.rows, now, cfg.limits.retention);
            || Evolves(s.rows, t)
            || (request.id !in c && t == c[request.id := FreshRow(request, owner, now)]
                && |OpenRows(c)| < cfg.limits.maxOpenTotal && |OpenRowsOf(c, owner)| < cfg.limits.maxOpenPerCredential)
  {
    CleanupEvolves(s.rows, now, cfg.limits.retention);
    AdmitEvolves(cfg.limits, s.rows, request, owner, now);
    SubmitRows(cfg, s, tid, owner, request, now);
  }

  ghost predicate WithinLimits(limits: Limits, t: Table) {
    |OpenRows(t)| <= limits.maxOpenTotal && forall owner :: |OpenRowsOf(t, owner)| <= limits.maxOpenPerCredential
  }

  lemma SubsetIsSmaller<T>(a: set<T>, b: set<T>)
    requires a <= b
    ensures |a| <= |b|
  {
    assert b == a + (b - a);
  }

  /** Moving along the edges opens nothing. */
  lemma EvolvingOpensNothing(t: Table, t': Table, owner: string)
    requires Evolves(t, t')
    ensures OpenRows(t') <= OpenRows(t) && OpenRowsOf(t', owner) <= OpenRowsOf(t, owner)
    ensures |OpenRows(t')| <= |OpenRows(t)| && |OpenRowsOf(t', owner)| <= |OpenRowsOf(t, owner)|
  {
    SubsetIsSmaller(OpenRows(t'), OpenRows(t));
    SubsetIsSmaller(OpenRowsOf(t', owner), OpenRowsOf(t, owner));
  }

  lemma InsertionOpensOne(c: Table, request: Request, owner: string, now: Instant)
    requires request.id !in c
    ensures |OpenRows(c[request.id := FreshRow(request, owner, now)])| == |OpenRows(c)| + 1
  {
    assert OpenRows(c[request.id := FreshRow(request, owner, now)]) == OpenRows(c) + {request.id};
  }

  lemma InsertionOpensOneOf(c: Table, request: Request, owner: string, now: Instant, o: string)
    requires request.id !in c
    ensures |OpenRowsOf(c[request.id := FreshRow(request, owner, now)], o)| == |OpenRowsOf(c, o)| + if o == owner then 1 else 0
  {
    var t := c[request.id := FreshRow(request, owner, now)];
    if o == owner {
      assert OpenRowsOf(t, o) == OpenRowsOf(c, o) + {request.id};
    } else {
      assert OpenRowsOf(t, o) == OpenRowsOf(c, o);
    }
  }

  lemma EvolvingKeepsLimits(limits: Limits, t: Table, t': Table)
    requires Evolves(t, t') && WithinLimits(limits, t)
    ensures WithinLimits(limits, t')
  {
    EvolvingOpensNothing(t, t', "");
    forall o ensures |OpenRowsOf(t', o)| <= limits.maxOpenPerCredential {
      EvolvingOpensNothing(t, t', o);
    }
  }

  lemma NextKeepsLimits(cfg: Config, s: State, step: Step)
    requires TableOk(s.rows) && WithinLimits(cfg.limits, s.rows)
    ensures WithinLimits(cfg.limits, Next(cfg, s, step).rows)
  {
    var t := Next(cfg, s, step).rows;
    if step.Submit? {
      var c := Cleanup(s.rows, step.now, cfg.limits.retention);
      SubmitEvolves(cfg, s, step.tid, step.owner, step.request, step.now);
      CleanupEvolves(s.rows, step.now, cfg.limits.retention);
      if Evolves(s.rows, t) {
        EvolvingKeepsLimits(cfg.limits, s.rows, t);
      } else {
        EvolvingKeepsLimits(cfg.limits, s.rows, c);
        InsertionOpensOne(c, step.request, step.owner, step.now);
        forall o ensures |OpenRowsOf(t, o)| <= cfg.limits.maxOpenPerCredential {
          InsertionOpensOneOf(c, step.request, step.owner, step.now, o);
        }
      }
    } else {
      NextEvolves(cfg, s, step);
      EvolvingKeepsLimits(cfg.limits, s.rows, t);
    }
  }

  /** Capacity is conserved in every run: the open rows stay within the total limit, and the open rows of
      each credential within its own. */
  lemma {:induction false} RunsStayWithinLimits(cfg: Config, steps: seq<Step>)
    ensures TableOk(Run(cfg, steps).rows) && WithinLimits(cfg.limits, Run(cfg, steps).rows)
  {
    RunKeepsReplay(cfg, steps);
    if steps == [] {
      assert OpenRows(Start(cfg).rows) == {};
      assert forall o :: OpenRowsOf(Start(cfg).rows, o) == {};
    } else {
      RunsStayWithinLimits(cfg, steps[..|steps| - 1]);
      NextKeepsLimits(cfg, Run(cfg, steps[..|steps| - 1]), steps[|steps| - 1]);
    }
  }

  /** In every run, from one state to the next, only a fresh insertion raises the number of open rows, in
      total or of one credential; repeating a request whose row is still there never does. */
  lemma OnlyInsertionsOpenRows(cfg: Config, steps: seq<Step>, step: Step, owner: string)
    ensures var s, s' := Run(cfg, steps), Next(cfg, Run(cfg, steps), step);
            |OpenRows(s'.rows)| > |OpenRows(s.rows)| || |OpenRowsOf(s'.rows, owner)| > |OpenRowsOf(s.rows, owner)| ==>
              step.Submit? && step.request.id !in Cleanup(s.rows, step.now, cfg.limits.retention)
  {
    var s := Run(cfg, steps);
    RunKeepsReplay(cfg, steps);
    if step.Submit? {
      SubmitEvolves(cfg, s, step.tid, step.owner, step.request, step.now);
    } else {
      NextEvolves(cfg, s, step);
    }
    if Evolves(s.rows, Next(cfg, s, step).rows) { EvolvingOpensNothing(s.rows, Next(cfg, s, step).rows, owner); }
  }

  /** Results are stored and read back only strictly before the expiry of their row. */
  ghost predicate Timely(log: seq<Event>) {
    forall i :: 0 <= i < |log| && Keeps(log[i]) ==>
      log[i].row < |log| && log[log[i].row].Inserted? && log[i].at < log[log[i].row].digest.expires
  }

  lemma TimelyGrows(log: seq<Event>, log': seq<Event>)
    requires Timely(log) && log <= log'
    requires forall i :: |log| <= i < |log'| && Keeps(log'[i]) ==>
               log'[i].row < |log| && log[log'[i].row].Inserted? && log'[i].at < log[log'[i].row].digest.expires
    ensures Timely(log')
  {
  }

  /** What a cleaned table shows as completed has not expired. */
  lemma CompletedIsTimely(s: State, now: Instant, retention: nat, id: string)
    requires HoldInv(s) && BirthInv(s)
    requires var c := Cleanup(s.rows, now, retention); id in c && (c[id].status == Completed || c[id].status == InProgress)
    ensures id in s.born && s.born[id] < |s.log| && s.log[s.born[id]].Inserted? && Seconds(now) < s.log[s.born[id]].digest.expires
  {
  }

  /** At most one answer is added, for a row that the cleaned table shows as completed. */
  ghost predicate AnswersAtMost(cfg: Config, s: State, log: seq<Event>, id: string, now: Instant) {
    var c := Cleanup(s.rows, now, cfg.limits.retention);
    || log == s.log
    || (id in s.born && id in c && c[id].status == Completed && |log| == |s.log| + 1 && s.log <= log
        && log[|s.log|].Answered? && log[|s.log|].row == s.born[id] && log[|s.log|].at == Seconds(now))
  }

  lemma AnswersAreTimely(cfg: Config, s: State, log: seq<Event>, id: string, now: Instant)
    requires HoldInv(s) && BirthInv(s) && Timely(s.log) && AnswersAtMost(cfg, s, log, id, now)
    ensures Timely(log)
  {
    if log != s.log {
      CompletedIsTimely(s, now, cfg.limits.retention, id);
      TimelyGrows(s.log, log);
    }
  }

  lemma ReloadAnswers(cfg: Config, s: State, tid: nat, now: Instant)
    requires tid in s.threads
    ensures AnswersAtMost(cfg, s, DoReload(cfg, s, tid, now).log, s.threads[tid].request.id, now)
  {
  }

  lemma CollectAnswers(cfg: Config, s: State, tid: nat, now: Instant)
    requires tid in s.threads
    ensures AnswersAtMost(cfg, s, DoCollect(cfg, s, tid, now).log, s.threads[tid].request.id, now)
  {
  }

  /** A store is added only for a row that the cleaned table shows in progress under the attempt. */
  lemma SettleStores(cfg: Config, s: State, tid: nat, nonce: nat, now: Instant)
    requires tid in s.threads && s.threads[tid].pc.Returned?
    ensures var th := s.threads[tid];
            var log := DoSettle(cfg, s, tid, nonce, now).log;
            || log == s.log
            || (OwnedBy(Cleanup(s.rows, now, cfg.limits.retention), th.request.id, th.pc.attempt)
                && log == s.log + [Stored(th.pc.row, th.pc.attempt, s.release, Seconds(now))])
  {
  }

  lemma SettleIsTimely(cfg: Config, s: State, tid: nat, nonce: nat, now: Instant)
    requires LaneInv(s) && HoldInv(s) && BirthInv(s) && Timely(s.log) && tid in s.threads && s.threads[tid].pc.Returned?
    ensures Timely(DoSettle(cfg, s, tid, nonce, now).log)
  {
    var th := s.threads[tid];
    var log := DoSettle(cfg, s, tid, nonce, now).log;
    SettleStores(cfg, s, tid, nonce, now);
    if log != s.log {
      OwnedIsTimely(s, now, cfg.limits.retention, tid);
      StoredIsTimely(s.log, th.pc.row, th.pc.attempt, s.release, Seconds(now));
    }
  }

  lemma StoredIsTimely(log: seq<Event>, row: nat, attempt: nat, release: Provenance, at: int)
    requires Timely(log) && row < |log| && log[row].Inserted? && at < log[row].digest.expires
    ensures Timely(log + [Stored(row, attempt, release, at)])
  {
    TimelyGrows(log, log + [Stored(row, attempt, release, at)]);
  }

  /** The row that a cleaned table shows in progress under the owner's attempt is the one it marked, and has not expired. */
  lemma OwnedIsTimely(s: State, now: Instant, retention: nat, tid: nat)
    requires LaneInv(s) && HoldInv(s) && BirthInv(s) && tid in s.threads && s.threads[tid].pc.Returned?
    requires OwnedBy(Cleanup(s.rows, now, retention), s.threads[tid].request.id, s.threads[tid].pc.attempt)
    ensures var row := s.threads[tid].pc.row;
            row < |s.log| && s.log[row].Inserted? && Seconds(now) < s.log[row].digest.expires
  {
    CompletedIsTimely(s, now, retention, s.threads[tid].request.id);
    CleanupIsQuieter(s.rows, now, retention);
    assert Held(s, s.threads[tid].request.id);
  }

  lemma ProceedAnswers(cfg: Config, m: State, tid: nat, id: string, row: Row, now: Instant)
    requires tid in m.threads && id in m.born
    ensures var s' := Proceed(cfg, m, tid, id, row, now);
            s'.log == m.log || (row.status == Completed && |s'.log| == |m.log| + 1 && m.log <= s'.log
              && s'.log[|m.log|].Answered? && s'.log[|m.log|].row == m.born[id] && s'.log[|m.log|].at == Seconds(now))
  {
  }

  lemma SubmitIsTimely(cfg: Config, s: State, tid: nat, owner: string, request: Request, now: Instant)
    requires HoldInv(s) && BirthInv(s) && Timely(s.log) && tid !in s.threads
    ensures Timely(DoSubmit(cfg, s, tid, owner, request, now).log)
  {
    var s' := DoSubmit(cfg, s, tid, owner, request, now);
    var c := Cleanup(s.rows, now, cfg.limits.retention);
    SubmitCases(cfg, s, tid, owner, request, now);
    if TurnedAway(s, s', tid, owner, request) {
    } else if request.id in c {
      assert request.id in s.born;
      ProceedAnswers(cfg, Arrival(s, c, tid, owner, request), tid, request.id, c[request.id], now);
      AnswersAreTimely(cfg, s, s'.log, request.id, now);
    } else {
      ProceedAnswers(cfg, Insertion(s, c, tid, owner, request, now), tid, request.id, FreshRow(request, owner, now), now);
      TimelyGrows(s.log, s'.log);
    }
  }

  lemma NextIsTimely(cfg: Config, s: State, step: Step)
    requires LaneInv(s) && HoldInv(s) && BirthInv(s) && TableOk(s.rows) && Timely(s.log)
    ensures Timely(Next(cfg, s, step).log)
  {
    match step
    case Submit(tid, owner, request, now) => if tid !in s.threads { SubmitIsTimely(cfg, s, tid, owner, request, now); }
    case Reload(tid, now) =>
      if tid in s.threads {
        ReloadAnswers(cfg, s, tid, now);
        AnswersAreTimely(cfg, s, DoReload(cfg, s, tid, now).log, s.threads[tid].request.id, now);
      }
    case Collect(tid, now) =>
      if tid in s.threads {
        CollectAnswers(cfg, s, tid, now);
        AnswersAreTimely(cfg, s, DoCollect(cfg, s, tid, now).log, s.threads[tid].request.id, now);
      }
    case Settle(tid, nonce, now) =>
      if tid in s.threads && s.threads[tid].pc.Returned? { SettleIsTimely(cfg, s, tid, nonce, now); }
    case Prepare(tid, now) => OwnerIsCalm(cfg, s, tid, now); TimelyGrows(s.log, DoPrepare(cfg, s, tid, now).log);
    case Dispatch(tid, now) => OwnerIsCalm(cfg, s, tid, now); TimelyGrows(s.log, DoDispatch(cfg, s, tid, now).log);
    case Claim(_, _) =>
    case Join(_) =>
    case Wake(_) =>
    case GiveUp(_) =>
    case Release(_) =>
    case _ => OthersAreCalm(cfg, s, step); TimelyGrows(s.log, Next(cfg, s, step).log);
  }

  /** In every run, no output is persisted or read back at or after the expiry of its row. */
  lemma {:induction false} RunsAreTimely(cfg: Config, steps: seq<Step>)
    ensures Timely(Run(cfg, steps).log)
  {
    if steps != [] {
      var init := steps[..|steps| - 1];
      RunsAreTimely(cfg, init);
      RunKeepsInv(cfg, init);
      RunKeepsReplay(cfg, init);
      NextIsTimely(cfg, Run(cfg, init), steps[|steps| - 1]);
    }
  }
}
