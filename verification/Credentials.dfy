/** Results stay with their credential: in every run a caller reads only what was produced for its own request, and
    only a row's own credential makes its output go. */
module Credentials {
  import opened Outcomes
  import opened RequestTable
  import opened Gateway
  import opened GatewayInvariant
  import opened Replay
  import opened Transactions

  /** What an acknowledgement by the owner may do to the table. */
  ghost predicate AcknowledgedBy(retention: nat, t: Table, t': Table, owner: string, id: string, disposition: Disposition, now: Instant) {
    var c := Cleanup(t, now, retention);
    && (id in c && c[id].owner != owner ==> t' == t)
    && (id in c && c[id].owner == owner && c[id].status == Completed ==>
          t' == c[id := c[id].(status := Acknowledged, disposition := Some(disposition), mediaType := None,
                               nonce := None, ciphertext := None, updated := now / 1_000_000)])
    && (t' == t || t'.Keys == c.Keys)
    && (forall x :: x in t' && (x !in t || t'[x] != t[x]) && (x !in c || t'[x] != c[x]) ==>
          x == id && x in t && t[x].owner == owner && t[x].status == Completed && t'[x].status == Acknowledged)
  }

  /** An acknowledgement changes nothing beyond the cleanup, except that it takes the output off a completed row of the
      very credential that acknowledges. Of another credential's row it leaves even the cleanup undone. */
  lemma AcknowledgementsStayWithTheirOwner(cfg: Config, steps: seq<Step>, owner: string, id: string, disposition: Disposition, now: Instant)
    ensures var s, s' := Run(cfg, steps), Run(cfg, steps + [Ack(owner, id, disposition, now)]);
            && s'.threads == s.threads && s'.log == s.log
            && AcknowledgedBy(cfg.limits.retention, s.rows, s'.rows, owner, id, disposition, now)
  {
    var s := Run(cfg, steps);
    RunSnoc(cfg, steps, Ack(owner, id, disposition, now));
    AcknowledgementChanges(cfg.limits, s.rows, owner, id, disposition, now);
  }

  lemma AcknowledgementChanges(limits: Limits, t: Table, owner: string, id: string, disposition: Disposition, now: Instant)
    ensures AcknowledgedBy(limits.retention, t, Acknowledge(limits, t, id, owner, disposition, now).0, owner, id, disposition, now)
  {
    AcknowledgeDecides(limits, t, id, owner, disposition, now);
    CleanupAddsNothing(t, now, limits.retention);
    if id in t { CleanupDecides(t, now, limits.retention, id); }
  }

  /** The response was read from a row that was inserted for the thread's own request and credential. */
  ghost predicate OwnAnswer(log: seq<Event>, th: Thread, r: Response) {
    r.id == th.request.id && exists n :: 0 <= n < |log| && ReadFor(log, n, th, r)
  }

  predicate ReadFor(log: seq<Event>, n: nat, th: Thread, r: Response)
    requires n < |log|
  {
    && log[n].Answered? && log[n].response == r
    && log[n].row < |log| && log[log[n].row].Inserted?
    && log[log[n].row].id == th.request.id && log[log[n].row].owner == th.owner && log[log[n].row].digest == th.request.digest
  }

  predicate Tells(pc: Pc, r: Response) {
    pc == Finished(Answer(r)) || (pc.Releasing? && pc.reply == Answer(r))
  }

  ghost predicate AnswersAreOwn(s: State) {
    forall tid, r :: tid in s.threads && Tells(s.threads[tid].pc, r) ==> OwnAnswer(s.log, s.threads[tid], r)
  }

  lemma OwnAnswerGrows(log: seq<Event>, log': seq<Event>, th: Thread, th': Thread, r: Response)
    requires log <= log' && OwnAnswer(log, th, r) && th'.request == th.request && th'.owner == th.owner
    ensures OwnAnswer(log', th', r)
  {
    var n :| 0 <= n < |log| && ReadFor(log, n, th, r);
    assert ReadFor(log', n, th', r);
  }

  /** One thread moves on, telling nothing that it did not tell before. */
  ghost predicate TellsNothingNew(s: State, s': State, tid: nat) {
    && s.log <= s'.log
    && (forall t :: t in s'.threads && t != tid ==> t in s.threads && s'.threads[t] == s.threads[t])
    && (tid in s'.threads ==>
          || (forall r :: !Tells(s'.threads[tid].pc, r))
          || (tid in s.threads && s'.threads[tid].request == s.threads[tid].request && s'.threads[tid].owner == s.threads[tid].owner
              && forall r :: Tells(s'.threads[tid].pc, r) ==> Tells(s.threads[tid].pc, r)))
  }

  lemma NothingNewKeepsAnswers(s: State, s': State, tid: nat)
    requires AnswersAreOwn(s) && TellsNothingNew(s, s', tid)
    ensures AnswersAreOwn(s')
  {
    forall t, r | t in s'.threads && Tells(s'.threads[t].pc, r) ensures OwnAnswer(s'.log, s'.threads[t], r) {
      OwnAnswerGrows(s.log, s'.log, s.threads[t], s'.threads[t], r);
    }
  }

  /** The thread is told what the row holds, and the answer enters the log. */
  lemma ReadingKeepsAnswers(m: State, tid: nat, id: string, reply: Reply, now: Instant)
    requires tid in m.threads && (forall t, r :: t in m.threads && t != tid && Tells(m.threads[t].pc, r) ==> OwnAnswer(m.log, m.threads[t], r))
    requires forall r :: Tells(m.threads[tid].pc, r) ==> reply == Answer(r)
    requires RowsBorn(m) && id == m.threads[tid].request.id
    requires reply.Answer? ==>
               && id in m.rows && id in m.born && ExistingResponse(id, m.rows[id]) == Some(reply)
               && m.rows[id].owner == m.threads[tid].owner && m.rows[id].digest == m.threads[tid].request.digest
    ensures AnswersAreOwn(Record(m, id, reply, now))
  {
    var s' := Record(m, id, reply, now);
    forall t, r | t in s'.threads && Tells(s'.threads[t].pc, r) ensures OwnAnswer(s'.log, s'.threads[t], r) {
      if t == tid {
        assert s'.log[|m.log|] == Answered(m.born[id], r, Seconds(now));
        assert s'.log[m.born[id]] == m.log[m.born[id]];
        assert ReadFor(s'.log, |m.log|, s'.threads[t], r);
      } else {
        OwnAnswerGrows(m.log, s'.log, m.threads[t], s'.threads[t], r);
      }
    }
  }

  /** What reading back leads to tells the caller only of its own row. */
  lemma ReadBackKeepsAnswers(cfg: Config, s: State, s': State, tid: nat, now: Instant, pc: Pc, reply: Reply)
    requires HoldInv(s) && BirthInv(s) && AnswersAreOwn(s) && tid in s.threads && ReadsBack(cfg, s, s', tid, now, pc, reply)
    requires forall r :: Tells(pc, r) ==> reply == Answer(r)
    requires var th := s.threads[tid];
             GetOwned(cfg.limits, s.rows, th.request.id, th.owner, Some(th.request.digest), now).1.Err? ==> forall r :: !Tells(pc, r)
    ensures AnswersAreOwn(s')
  {
    var th := s.threads[tid];
    var (t, result) := GetOwned(cfg.limits, s.rows, th.request.id, th.owner, Some(th.request.digest), now);
    GetOwnedDecides(cfg.limits, s.rows, th.request.id, th.owner, Some(th.request.digest), now);
    if result.Err? {
      NothingNewKeepsAnswers(s, s', tid);
    } else {
      var m := Move(s.(rows := t), tid, pc);
      GetOwnedIsQuieter(cfg.limits, s.rows, th.request.id, th.owner, Some(th.request.digest), now);
      QuieterRowsAreBorn(s, m);
      ReadingKeepsAnswers(m, tid, th.request.id, reply, now);
    }
  }

  lemma ReloadTells(cfg: Config, s: State, tid: nat, now: Instant) returns (pc: Pc, reply: Reply)
    requires tid in s.threads && s.threads[tid].pc.Reloading?
    ensures ReadsBack(cfg, s, DoReload(cfg, s, tid, now), tid, now, pc, reply) && forall r :: Tells(pc, r) ==> reply == Answer(r)
    ensures var th := s.threads[tid];
            GetOwned(cfg.limits, s.rows, th.request.id, th.owner, Some(th.request.digest), now).1.Err? ==> forall r :: !Tells(pc, r)
  {
    pc := DoReload(cfg, s, tid, now).threads[tid].pc;
    reply := pc.reply;
  }

  lemma CollectTells(cfg: Config, s: State, tid: nat, now: Instant) returns (pc: Pc, reply: Reply)
    requires tid in s.threads && s.threads[tid].pc.Collecting?
    ensures ReadsBack(cfg, s, DoCollect(cfg, s, tid, now), tid, now, pc, reply) && forall r :: Tells(pc, r) ==> reply == Answer(r)
    ensures var th := s.threads[tid];
            GetOwned(cfg.limits, s.rows, th.request.id, th.owner, Some(th.request.digest), now).1.Err? ==> forall r :: !Tells(pc, r)
  {
    pc := DoCollect(cfg, s, tid, now).threads[tid].pc;
    reply := if pc.Releasing? then pc.reply else TooLate;
  }

  lemma ReadsKeepAnswers(cfg: Config, s: State, tid: nat, now: Instant)
    requires HoldInv(s) && BirthInv(s) && AnswersAreOwn(s) && tid in s.threads
    ensures s.threads[tid].pc.Reloading? ==> AnswersAreOwn(DoReload(cfg, s, tid, now))
    ensures s.threads[tid].pc.Collecting? ==> AnswersAreOwn(DoCollect(cfg, s, tid, now))
  {
    if s.threads[tid].pc.Reloading? {
      var pc, reply := ReloadTells(cfg, s, tid, now);
      ReadBackKeepsAnswers(cfg, s, DoReload(cfg, s, tid, now), tid, now, pc, reply);
    }
    if s.threads[tid].pc.Collecting? {
      var pc, reply := CollectTells(cfg, s, tid, now);
      ReadBackKeepsAnswers(cfg, s, DoCollect(cfg, s, tid, now), tid, now, pc, reply);
    }
  }

  /** An admitted thread is told only of the row that it was admitted to. */
  lemma ProceedKeepsAnswers(cfg: Config, m: State, tid: nat, id: string, row: Row, now: Instant)
    requires AnswersAreOwn(m) && RowsBorn(m) && tid in m.threads && m.threads[tid].pc.Claiming?
    requires id == m.threads[tid].request.id && id in m.rows && id in m.born && m.rows[id] == row
    requires row.owner == m.threads[tid].owner && row.digest == m.threads[tid].request.digest
    ensures AnswersAreOwn(Proceed(cfg, m, tid, id, row, now))
  {
    var existing := ExistingResponse(id, row);
    if existing.Some? {
      var moved := Move(m, tid, Finished(existing.value));
      assert forall t, r :: t in moved.threads && t != tid && Tells(moved.threads[t].pc, r) ==> OwnAnswer(m.log, m.threads[t], r);
      ReadingKeepsAnswers(moved, tid, id, existing.value, now);
    } else {
      NothingNewKeepsAnswers(m, Proceed(cfg, m, tid, id, row, now), tid);
    }
  }

  lemma ArrivalKeepsAnswers(cfg: Config, s: State, tid: nat, owner: string, request: Request, now: Instant)
    requires HoldInv(s) && BirthInv(s) && AnswersAreOwn(s) && tid !in s.threads
    requires var c := Cleanup(s.rows, now, cfg.limits.retention);
             request.id in c && c[request.id].owner == owner && c[request.id].digest == request.digest
    ensures var c := Cleanup(s.rows, now, cfg.limits.retention);
            AnswersAreOwn(Proceed(cfg, Arrival(s, c, tid, owner, request), tid, request.id, c[request.id], now))
  {
    var c := Cleanup(s.rows, now, cfg.limits.retention);
    var m := Arrival(s, c, tid, owner, request);
    CleanupIsQuieter(s.rows, now, cfg.limits.retention);
    QuieterRowsAreBorn(s, m);
    NothingNewKeepsAnswers(s, m, tid);
    ProceedKeepsAnswers(cfg, m, tid, request.id, c[request.id], now);
  }

  lemma InsertionKeepsAnswers(cfg: Config, s: State, tid: nat, owner: string, request: Request, now: Instant)
    requires AnswersAreOwn(s) && tid !in s.threads
    ensures var m := Insertion(s, Cleanup(s.rows, now, cfg.limits.retention), tid, owner, request, now);
            AnswersAreOwn(Proceed(cfg, m, tid, request.id, FreshRow(request, owner, now), now))
  {
    var m := Insertion(s, Cleanup(s.rows, now, cfg.limits.retention), tid, owner, request, now);
    NothingNewKeepsAnswers(s, m, tid);
    NothingNewKeepsAnswers(m, Proceed(cfg, m, tid, request.id, FreshRow(request, owner, now), now), tid);
  }

  lemma SubmitKeepsAnswers(cfg: Config, s: State, tid: nat, owner: string, request: Request, now: Instant)
    requires HoldInv(s) && BirthInv(s) && AnswersAreOwn(s) && tid !in s.threads
    ensures AnswersAreOwn(DoSubmit(cfg, s, tid, owner, request, now))
  {
    var s' := DoSubmit(cfg, s, tid, owner, request, now);
    var c := Cleanup(s.rows, now, cfg.limits.retention);
    SubmitCases(cfg, s, tid, owner, request, now);
    if TurnedAway(s, s', tid, owner, request) {
      NothingNewKeepsAnswers(s, s', tid);
    } else if request.id in c {
      ArrivalKeepsAnswers(cfg, s, tid, owner, request, now);
    } else {
      InsertionKeepsAnswers(cfg, s, tid, owner, request, now);
    }
  }

  lemma OwnerStepsTellNothing(cfg: Config, s: State, step: Step)
    requires step.Prepare? || step.Dispatch? || step.Return? || step.Settle? || step.Recover?
    ensures TellsNothingNew(s, Next(cfg, s, step), step.tid)
  {
    match step
    case Prepare(tid, now) => PrepareTellsNothing(cfg, s, tid, now);
    case Dispatch(tid, now) => DispatchTellsNothing(cfg, s, tid, now);
    case Settle(tid, nonce, now) => SettleTellsNothing(cfg, s, tid, nonce, now);
    case Return(_, _) =>
    case Recover(_, _) =>
  }

  lemma PrepareTellsNothing(cfg: Config, s: State, tid: nat, now: Instant)
    ensures TellsNothingNew(s, DoPrepare(cfg, s, tid, now), tid)
  {
  }

  lemma DispatchTellsNothing(cfg: Config, s: State, tid: nat, now: Instant)
    ensures TellsNothingNew(s, DoDispatch(cfg, s, tid, now), tid)
  {
  }

  lemma SettleTellsNothing(cfg: Config, s: State, tid: nat, nonce: nat, now: Instant)
    ensures TellsNothingNew(s, DoSettle(cfg, s, tid, nonce, now), tid)
  {
  }

  lemma LaneStepsTellNothing(cfg: Config, s: State, step: Step)
    requires step.Claim? || step.Release?
    ensures TellsNothingNew(s, Next(cfg, s, step), step.tid)
  {
    match step
    case Claim(tid, attempt) => ClaimTellsNothing(cfg, s, tid, attempt);
    case Release(tid) => ReleaseTellsNothing(s, tid);
  }

  lemma ClaimTellsNothing(cfg: Config, s: State, tid: nat, attempt: nat)
    ensures TellsNothingNew(s, DoClaim(cfg, s, tid, attempt), tid)
  {
  }

  lemma ReleaseTellsNothing(s: State, tid: nat)
    ensures TellsNothingNew(s, DoRelease(s, tid), tid)
  {
  }

  lemma WaitStepsTellNothing(cfg: Config, s: State, step: Step)
    requires step.Join? || step.Wake? || step.GiveUp?
    ensures TellsNothingNew(s, Next(cfg, s, step), step.tid)
  {
  }

  lemma NextKeepsAnswers(cfg: Config, s: State, step: Step)
    requires HoldInv(s) && BirthInv(s) && AnswersAreOwn(s)
    ensures AnswersAreOwn(Next(cfg, s, step))
  {
    match step
    case Submit(tid, owner, request, now) => if tid !in s.threads { SubmitKeepsAnswers(cfg, s, tid, owner, request, now); }
    case Reload(tid, now) => if tid in s.threads { ReadsKeepAnswers(cfg, s, tid, now); }
    case Collect(tid, now) => if tid in s.threads { ReadsKeepAnswers(cfg, s, tid, now); }
    case Claim(tid, _) => LaneStepsTellNothing(cfg, s, step); NothingNewKeepsAnswers(s, Next(cfg, s, step), tid);
    case Release(tid) => LaneStepsTellNothing(cfg, s, step); NothingNewKeepsAnswers(s, Next(cfg, s, step), tid);
    case Join(tid) => WaitStepsTellNothing(cfg, s, step); NothingNewKeepsAnswers(s, Next(cfg, s, step), tid);
    case Wake(tid) => WaitStepsTellNothing(cfg, s, step); NothingNewKeepsAnswers(s, Next(cfg, s, step), tid);
    case GiveUp(tid) => WaitStepsTellNothing(cfg, s, step); NothingNewKeepsAnswers(s, Next(cfg, s, step), tid);
    case Prepare(tid, _) => OwnerStepsTellNothing(cfg, s, step); NothingNewKeepsAnswers(s, Next(cfg, s, step), tid);
    case Dispatch(tid, _) => OwnerStepsTellNothing(cfg, s, step); NothingNewKeepsAnswers(s, Next(cfg, s, step), tid);
    case Return(tid, _) => OwnerStepsTellNothing(cfg, s, step); NothingNewKeepsAnswers(s, Next(cfg, s, step), tid);
    case Settle(tid, _, _) => OwnerStepsTellNothing(cfg, s, step); NothingNewKeepsAnswers(s, Next(cfg, s, step), tid);
    case Recover(tid, _) => OwnerStepsTellNothing(cfg, s, step); NothingNewKeepsAnswers(s, Next(cfg, s, step), tid);
    case Maintain(_) =>
    case Ack(_, _, _, _) =>
    case Restart(_, _) =>
  }

  lemma {:induction false} RunKeepsAnswers(cfg: Config, steps: seq<Step>)
    ensures AnswersAreOwn(Run(cfg, steps))
  {
    if steps != [] {
      RunKeepsAnswers(cfg, steps[..|steps| - 1]);
      RunKeepsInv(cfg, steps[..|steps| - 1]);
      NextKeepsAnswers(cfg, Run(cfg, steps[..|steps| - 1]), steps[|steps| - 1]);
    }
  }

  /** In every run, whatever the settings: whoever is answered is answered from a row that was inserted for its own id,
      credential and digest. */
  lemma CallersReadTheirOwn(cfg: Config, steps: seq<Step>, tid: nat)
    requires tid in Run(cfg, steps).threads
    requires Run(cfg, steps).threads[tid].pc.Finished? && Run(cfg, steps).threads[tid].pc.reply.Answer?
    ensures var s := Run(cfg, steps);
            OwnAnswer(s.log, s.threads[tid], s.threads[tid].pc.reply.response)
  {
    RunKeepsAnswers(cfg, steps);
    assert Tells(Run(cfg, steps).threads[tid].pc, Run(cfg, steps).threads[tid].pc.reply.response);
  }
}
