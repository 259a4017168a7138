/** How long a deleted request stays refused. With clock readings that never go back, a request is
    inserted, and hence executed, at most once in the whole history exactly when the retention of
    tombstones is at least the maximum lifetime of a request. */
module Tombstones {
  import opened Outcomes
  import opened RequestTable
  import opened Gateway
  import opened GatewayInvariant

  predicate HasClock(step: Step) {
    step.Submit? || step.Reload? || step.Prepare? || step.Dispatch? || step.Settle? || step.Collect? || step.Recover?
    || step.Maintain? || step.Ack? || step.Restart?
  }

  /** The clock reading of a step; a step without one happens at the given time. */
  function At(step: Step, hi: Instant): Instant {
    if HasClock(step) then step.now else hi
  }

  /** The readings that transactions use never go back. */
  ghost predicate NonDecreasing(steps: seq<Step>) {
    forall i, j :: 0 <= i < j < |steps| && HasClock(steps[i]) && HasClock(steps[j]) ==> steps[i].now <= steps[j].now
  }

  ghost predicate Until(steps: seq<Step>, hi: Instant) {
    forall i :: 0 <= i < |steps| && HasClock(steps[i]) ==> steps[i].now <= hi
  }

  /** What one transaction at `now` may do to the rows that are there: keep them, touch them, or forget
      a tombstone whose retention is over. */
  ghost predicate Ages(t: Table, t': Table, now: Instant, retention: nat) {
    && (forall id :: id in t' ==> id in t)
    && (forall id :: id in t ==>
          || Forgotten(ExpireRow(t[id], now), now, retention)
          || (id in t' && t'[id].expires == t[id].expires))
    && (forall id :: id in t' ==> t'[id].updated == t[id].updated || t'[id].updated == Seconds(now))
  }

  lemma CleanupAges(t: Table, now: Instant, retention: nat)
    ensures Ages(t, Cleanup(t, now, retention), now, retention)
  {
  }

  lemma GetOwnedAges(limits: Limits, t: Table, id: string, owner: string, digest: Option<Digest>, now: Instant)
    ensures Ages(t, GetOwned(limits, t, id, owner, digest, now).0, now, limits.retention)
  {
    CleanupAges(t, now, limits.retention);
  }

  lemma MarkInProgressAges(limits: Limits, t: Table, id: string, attempt: nat, now: Instant)
    ensures Ages(t, MarkInProgress(limits, t, id, attempt, now).0, now, limits.retention)
  {
    CleanupAges(t, now, limits.retention);
  }

  lemma CompleteAges(limits: Limits, t: Table, id: string, attempt: nat, output: Output, nonce: nat, now: Instant)
    ensures Ages(t, Complete(limits, t, id, attempt, output, nonce, now).0, now, limits.retention)
  {
    CleanupAges(t, now, limits.retention);
  }

  lemma AcknowledgeAges(limits: Limits, t: Table, id: string, owner: string, disposition: Disposition, now: Instant)
    ensures Ages(t, Acknowledge(limits, t, id, owner, disposition, now).0, now, limits.retention)
  {
    CleanupAges(t, now, limits.retention);
  }

  lemma FaultAges(limits: Limits, t: Table, id: string, attempt: nat, outcome: Outcome, now: Instant)
    ensures Ages(t, FaultTable(t, id, attempt, outcome, now), now, limits.retention)
  {
  }

  lemma InitializeAges(limits: Limits, t: Table, now: Instant)
    ensures Ages(t, Initialize(limits, t, now), now, limits.retention)
  {
    var interrupted: Table := map id | id in t :: Interrupt(t[id], now);
    CleanupAges(interrupted, now, limits.retention);
  }

  /** A step that inserts no row. */
  ghost predicate NoInsert(cfg: Config, s: State, s': State, now: Instant) {
    && s'.born == s.born
    && Ages(s.rows, s'.rows, now, cfg.limits.retention)
    && s.log <= s'.log
    && forall i :: |s.log| <= i < |s'.log| ==> !s'.log[i].Inserted?
  }

  lemma ProducedAges(cfg: Config, s: State, tid: nat, nonce: nat, now: Instant)
    requires tid in s.threads && s.threads[tid].pc.Returned? && s.threads[tid].pc.outcome.Produced?
    ensures NoInsert(cfg, s, DoSettle(cfg, s, tid, nonce, now), now)
  {
    var th := s.threads[tid];
    var output := Output(th.pc.outcome.mediaType, th.pc.outcome.content, s.release.deployment, s.release.policyVersion);
    CompleteAges(cfg.limits, s.rows, th.request.id, th.pc.attempt, output, nonce, now);
  }

  lemma SettleAges(cfg: Config, s: State, tid: nat, nonce: nat, now: Instant)
    ensures NoInsert(cfg, s, DoSettle(cfg, s, tid, nonce, now), now)
  {
    if tid in s.threads && s.threads[tid].pc.Returned? {
      var th := s.threads[tid];
      if th.pc.outcome.Produced? {
        ProducedAges(cfg, s, tid, nonce, now);
      } else {
        FaultAges(cfg.limits, s.rows, th.request.id, th.pc.attempt, th.pc.outcome, now);
      }
    }
  }

  lemma ReloadAges(cfg: Config, s: State, tid: nat, now: Instant)
    ensures NoInsert(cfg, s, DoReload(cfg, s, tid, now), now)
  {
    if tid in s.threads {
      var th := s.threads[tid];
      GetOwnedAges(cfg.limits, s.rows, th.request.id, th.owner, Some(th.request.digest), now);
    }
  }

  lemma CollectAges(cfg: Config, s: State, tid: nat, now: Instant)
    ensures NoInsert(cfg, s, DoCollect(cfg, s, tid, now), now)
  {
    if tid in s.threads {
      var th := s.threads[tid];
      GetOwnedAges(cfg.limits, s.rows, th.request.id, th.owner, Some(th.request.digest), now);
    }
  }

  lemma RecoverAges(cfg: Config, s: State, tid: nat, now: Instant)
    ensures NoInsert(cfg, s, DoRecover(cfg, s, tid, now), now)
  {
    if tid in s.threads && s.threads[tid].pc.Recovering? {
      FaultAges(cfg.limits, s.rows, s.threads[tid].request.id, s.threads[tid].pc.attempt, OtherFault, now);
    }
  }

  lemma WithdrawAges(cfg: Config, s: State, tid: nat, attempt: nat, now: Instant)
    requires tid in s.threads
    ensures NoInsert(cfg, s, Withdraw(cfg, s, tid, attempt, now), now)
  {
    var th := s.threads[tid];
    GetOwnedAges(cfg.limits, s.rows, th.request.id, th.owner, Some(th.request.digest), now);
  }

  lemma PrepareAges(cfg: Config, s: State, tid: nat, now: Instant)
    ensures NoInsert(cfg, s, DoPrepare(cfg, s, tid, now), now)
  {
    if tid in s.threads && s.threads[tid].pc.Preparing? {
      var th := s.threads[tid];
      WithdrawAges(cfg, s, tid, th.pc.attempt, now);
      MarkInProgressAges(cfg.limits, s.rows, th.request.id, th.pc.attempt, now);
    }
  }

  lemma DispatchAges(cfg: Config, s: State, tid: nat, now: Instant)
    ensures NoInsert(cfg, s, DoDispatch(cfg, s, tid, now), now)
  {
    if tid in s.threads && s.threads[tid].pc.Marked? {
      WithdrawAges(cfg, s, tid, s.threads[tid].pc.attempt, now);
    }
  }

  /** Steps that leave the table alone. */
  lemma OnlyThreadsAge(cfg: Config, s: State, s': State, now: Instant)
    requires s'.rows == s.rows && s'.born == s.born && s.log <= s'.log
    requires forall i :: |s.log| <= i < |s'.log| ==> !s'.log[i].Inserted?
    ensures NoInsert(cfg, s, s', now)
  {
  }

  lemma WaitStepsAge(cfg: Config, s: State, step: Step, now: Instant)
    requires step.Claim? || step.Join? || step.Wake? || step.GiveUp? || step.Return? || step.Release?
    ensures NoInsert(cfg, s, Next(cfg, s, step), now)
  {
    OnlyThreadsAge(cfg, s, Next(cfg, s, step), now);
  }

  lemma EnvironmentAges(cfg: Config, s: State, step: Step)
    requires step.Maintain? || step.Ack? || step.Restart?
    ensures NoInsert(cfg, s, Next(cfg, s, step), step.now)
  {
    match step
    case Maintain(now) => CleanupAges(s.rows, now, cfg.limits.retention);
    case Ack(owner, id, disposition, now) => AcknowledgeAges(cfg.limits, s.rows, id, owner, disposition, now);
    case Restart(_, now) => InitializeAges(cfg.limits, s.rows, now);
  }

  /** Every step but an insertion only ages the table. */
  lemma NextAges(cfg: Config, s: State, step: Step, hi: Instant)
    requires !step.Submit?
    ensures NoInsert(cfg, s, Next(cfg, s, step), At(step, hi))
  {
    match step
    case Reload(tid, now) => ReloadAges(cfg, s, tid, now);
    case Collect(tid, now) => CollectAges(cfg, s, tid, now);
    case Recover(tid, now) => RecoverAges(cfg, s, tid, now);
    case Prepare(tid, now) => PrepareAges(cfg, s, tid, now);
    case Dispatch(tid, now) => DispatchAges(cfg, s, tid, now);
    case Settle(tid, nonce, now) => SettleAges(cfg, s, tid, nonce, now);
    case Maintain(_) => EnvironmentAges(cfg, s, step);
    case Ack(_, _, _, _) => EnvironmentAges(cfg, s, step);
    case Restart(_, _) => EnvironmentAges(cfg, s, step);
    case _ => WaitStepsAge(cfg, s, step, hi);
  }

  /** No request was inserted twice. */
  ghost predicate InsertedOnce(log: seq<Event>) {
    forall i, j :: 0 <= i < j < |log| && log[i].Inserted? && log[j].Inserted? ==>
      log[i].id != log[j].id || log[i].digest != log[j].digest
  }

  /** Until its expiry a request keeps a row: live, or as a tombstone. */
  ghost predicate Remembered(s: State, i: nat, hi: Instant)
    requires i < |s.log| && s.log[i].Inserted?
  {
    s.log[i].digest.expires <= Seconds(hi) ||
    (s.log[i].id in s.rows && s.log[i].id in s.born && s.born[s.log[i].id] == i)
  }

  ghost predicate MemoryInv(cfg: Config, s: State, hi: Instant) {
    && (forall i :: 0 <= i < |s.log| && s.log[i].Inserted? ==>
          s.log[i].at <= Seconds(hi) && s.log[i].digest.expires <= s.log[i].at + cfg.lifetime + 1)
    && (forall i :: 0 <= i < |s.log| && s.log[i].Inserted? ==> Remembered(s, i, hi))
    && (forall id :: id in s.rows && id in s.born && IsBirth(s.log, s.born[id], id) ==> s.rows[id].updated >= s.log[s.born[id]].at)
    && InsertedOnce(s.log)
  }

  lemma WholeSeconds(now: Instant, retention: nat)
    ensures Seconds(now - retention * MICROS) == Seconds(now) - retention
  {
  }

  /** The tombstone arithmetic: what is forgotten at `now` has expired by `now`. */
  lemma ForgottenHasExpired(row: Row, now: Instant, retention: nat, lifetime: nat, at: int)
    requires row.updated >= at && row.expires <= at + lifetime + 1 && retention >= lifetime
    ensures Forgotten(ExpireRow(row, now), now, retention) ==> row.expires <= Seconds(now)
  {
    WholeSeconds(now, retention);
  }

  /** Aging a table cannot forget a request before its expiry. */
  lemma AgingRemembers(cfg: Config, s: State, s': State, hi: Instant, now: Instant, i: nat)
    requires HoldInv(s) && BirthInv(s) && MemoryInv(cfg, s, hi) && hi <= now && NoInsert(cfg, s, s', now)
    requires cfg.limits.retention >= cfg.lifetime
    requires i < |s.log| && s.log[i].Inserted?
    ensures i < |s'.log| && s'.log[i] == s.log[i] && Remembered(s', i, now)
  {
    assert Remembered(s, i, hi);
    assert s'.log[i] == s.log[i];
    var id := s.log[i].id;
    if s.log[i].digest.expires > Seconds(now) {
      assert id in s.rows && s.born[id] == i;
      ForgottenHasExpired(s.rows[id], now, cfg.limits.retention, cfg.lifetime, s.log[i].at);
    }
  }

  lemma AgingKeepsUpdates(cfg: Config, s: State, s': State, hi: Instant, now: Instant, id: string)
    requires HoldInv(s) && BirthInv(s) && MemoryInv(cfg, s, hi) && hi <= now && NoInsert(cfg, s, s', now)
    requires id in s'.rows
    ensures id in s'.born && s'.born[id] < |s'.log| && s'.log[s'.born[id]].Inserted? && s'.rows[id].updated >= s'.log[s'.born[id]].at
  {
    assert id in s.rows && IsBirth(s.log, s.born[id], id);
    assert s'.log[s.born[id]] == s.log[s.born[id]];
    if s'.rows[id].updated == Seconds(now) {
      assert s.log[s.born[id]].at <= Seconds(hi) <= Seconds(now);
    }
  }

  lemma AgingKeepsMemory(cfg: Config, s: State, s': State, hi: Instant, now: Instant)
    requires HoldInv(s) && BirthInv(s) && MemoryInv(cfg, s, hi) && hi <= now && NoInsert(cfg, s, s', now)
    requires cfg.limits.retention >= cfg.lifetime
    ensures MemoryInv(cfg, s', now)
  {
    assert Seconds(hi) <= Seconds(now);
    forall i | 0 <= i < |s'.log| && s'.log[i].Inserted? ensures Remembered(s', i, now) {
      AgingRemembers(cfg, s, s', hi, now, i);
    }
    forall id | id in s'.rows && id in s'.born && IsBirth(s'.log, s'.born[id], id)
      ensures s'.rows[id].updated >= s'.log[s'.born[id]].at
    {
      AgingKeepsUpdates(cfg, s, s', hi, now, id);
    }
    assert InsertedOnce(s'.log);
  }

  lemma ProceedOnlyReplies(cfg: Config, m: State, tid: nat, id: string, row: Row, now: Instant)
    requires tid in m.threads
    ensures var s' := Proceed(cfg, m, tid, id, row, now);
            && s'.rows == m.rows && s'.born == m.born && m.log <= s'.log
            && forall i :: |m.log| <= i < |s'.log| ==> s'.log[i].Answered?
  {
  }

  /** A request is inserted only if it never was before. */
  lemma InsertionIsFirst(cfg: Config, s: State, request: Request, hi: Instant, now: Instant, i: nat)
    requires HoldInv(s) && BirthInv(s) && MemoryInv(cfg, s, hi) && hi <= now && cfg.limits.retention >= cfg.lifetime
    requires request.id !in Cleanup(s.rows, now, cfg.limits.retention) && request.digest.expires * MICROS > now
    requires i < |s.log| && s.log[i].Inserted?
    ensures s.log[i].id != request.id || s.log[i].digest != request.digest
  {
    var s' := s.(rows := Cleanup(s.rows, now, cfg.limits.retention));
    CleanupAges(s.rows, now, cfg.limits.retention);
    AgingRemembers(cfg, s, s', hi, now, i);
  }

  lemma LifetimeBound(now: Instant, lifetime: nat)
    ensures MaximumExpiry(now, lifetime) <= Seconds(now) + lifetime + 1
  {
  }

  /** Inserting a request that was never inserted before, into an already cleaned table. */
  lemma FreshRowKeepsMemory(cfg: Config, m: State, tid: nat, owner: string, request: Request, now: Instant)
    requires Rooted(m) && MemoryInv(cfg, m, now) && request.id !in m.rows
    requires request.digest.expires * MICROS > now && request.digest.expires <= Seconds(now) + cfg.lifetime + 1
    requires forall i :: 0 <= i < |m.log| && m.log[i].Inserted? ==> m.log[i].id != request.id || m.log[i].digest != request.digest
    ensures MemoryInv(cfg, Insertion(m, m.rows, tid, owner, request, now), now)
  {
    var s' := Insertion(m, m.rows, tid, owner, request, now);
    assert s'.log[|m.log|] == Inserted(request.id, owner, request.digest, Seconds(now));
    assert forall i :: 0 <= i < |m.log| ==> s'.log[i] == m.log[i];
    forall i | 0 <= i < |s'.log| && s'.log[i].Inserted? ensures Remembered(s', i, now) {
      if i < |m.log| { assert Remembered(m, i, now); }
    }
  }

  lemma InsertionKeepsMemory(cfg: Config, s: State, tid: nat, owner: string, request: Request, hi: Instant, now: Instant)
    requires HoldInv(s) && BirthInv(s) && MemoryInv(cfg, s, hi) && hi <= now && cfg.limits.retention >= cfg.lifetime
    requires var c := Cleanup(s.rows, now, cfg.limits.retention);
             request.id !in c && request.digest.expires * MICROS > now && request.digest.expires <= MaximumExpiry(now, cfg.lifetime)
    ensures MemoryInv(cfg, Insertion(s, Cleanup(s.rows, now, cfg.limits.retention), tid, owner, request, now), now)
  {
    var c := Cleanup(s.rows, now, cfg.limits.retention);
    var m := s.(rows := c);
    CleanupAges(s.rows, now, cfg.limits.retention);
    AgingKeepsMemory(cfg, s, m, hi, now);
    LifetimeBound(now, cfg.lifetime);
    forall i | 0 <= i < |s.log| && s.log[i].Inserted?
      ensures s.log[i].id != request.id || s.log[i].digest != request.digest
    {
      InsertionIsFirst(cfg, s, request, hi, now, i);
    }
    FreshRowKeepsMemory(cfg, m, tid, owner, request, now);
  }

  lemma MemoryExtends(cfg: Config, m: State, s': State, now: Instant)
    requires MemoryInv(cfg, m, now) && s'.rows == m.rows && s'.born == m.born && m.log <= s'.log
    requires Rooted(m)
    requires forall i :: |m.log| <= i < |s'.log| ==> s'.log[i].Answered?
    ensures MemoryInv(cfg, s', now)
  {
    forall i | 0 <= i < |s'.log| && s'.log[i].Inserted? ensures Remembered(s', i, now) {
      assert Remembered(m, i, now);
    }
    assert forall id :: id in m.born ==> IsBirth(m.log, m.born[id], id);
  }

  lemma ArrivalKeepsMemory(cfg: Config, s: State, tid: nat, owner: string, request: Request, hi: Instant, now: Instant, row: Row)
    requires Inv(s) && MemoryInv(cfg, s, hi) && hi <= now && cfg.limits.retention >= cfg.lifetime
    ensures var m := Arrival(s, Cleanup(s.rows, now, cfg.limits.retention), tid, owner, request);
            MemoryInv(cfg, Proceed(cfg, m, tid, request.id, row, now), now)
  {
    var m := Arrival(s, Cleanup(s.rows, now, cfg.limits.retention), tid, owner, request);
    CleanupAges(s.rows, now, cfg.limits.retention);
    ProceedOnlyReplies(cfg, m, tid, request.id, row, now);
    AgingKeepsMemory(cfg, s, Proceed(cfg, m, tid, request.id, row, now), hi, now);
  }

  lemma AdmissionKeepsMemory(cfg: Config, s: State, tid: nat, owner: string, request: Request, hi: Instant, now: Instant, row: Row)
    requires Inv(s) && MemoryInv(cfg, s, hi) && hi <= now && cfg.limits.retention >= cfg.lifetime && tid !in s.threads
    requires request.id !in Cleanup(s.rows, now, cfg.limits.retention) && request.digest.expires * MICROS > now
    requires request.digest.expires <= MaximumExpiry(now, cfg.lifetime)
    ensures var m := Insertion(s, Cleanup(s.rows, now, cfg.limits.retention), tid, owner, request, now);
            MemoryInv(cfg, Proceed(cfg, m, tid, request.id, row, now), now)
  {
    var c := Cleanup(s.rows, now, cfg.limits.retention);
    var m := Insertion(s, c, tid, owner, request, now);
    InsertionKeepsMemory(cfg, s, tid, owner, request, hi, now);
    CleanupIsQuieter(s.rows, now, cfg.limits.retention);
    InsertKeepsInv(s, c, tid, owner, request, now);
    ProceedOnlyReplies(cfg, m, tid, request.id, row, now);
    MemoryExtends(cfg, m, Proceed(cfg, m, tid, request.id, row, now), now);
  }

  lemma UnchangedKeepsMemory(cfg: Config, s: State, s': State, hi: Instant, now: Instant)
    requires Inv(s) && MemoryInv(cfg, s, hi) && hi <= now && cfg.limits.retention >= cfg.lifetime
    requires s'.rows == s.rows && s'.born == s.born && s'.log == s.log
    ensures MemoryInv(cfg, s', now)
  {
    OnlyThreadsAge(cfg, s, s', now);
    AgingKeepsMemory(cfg, s, s', hi, now);
  }

  lemma SubmitKeepsMemory(cfg: Config, s: State, tid: nat, owner: string, request: Request, hi: Instant, now: Instant)
    requires Inv(s) && MemoryInv(cfg, s, hi) && hi <= now && cfg.limits.retention >= cfg.lifetime
    ensures MemoryInv(cfg, DoSubmit(cfg, s, tid, owner, request, now), now)
  {
    var s' := DoSubmit(cfg, s, tid, owner, request, now);
    var c := Cleanup(s.rows, now, cfg.limits.retention);
    if tid in s.threads {
      UnchangedKeepsMemory(cfg, s, s', hi, now);
    } else {
      SubmitCases(cfg, s, tid, owner, request, now);
      if TurnedAway(s, s', tid, owner, request) {
        UnchangedKeepsMemory(cfg, s, s', hi, now);
      } else if request.id in c {
        ArrivalKeepsMemory(cfg, s, tid, owner, request, hi, now, c[request.id]);
      } else {
        AdmissionKeepsMemory(cfg, s, tid, owner, request, hi, now, FreshRow(request, owner, now));
      }
    }
  }

  lemma NextKeepsMemory(cfg: Config, s: State, step: Step, hi: Instant)
    requires Inv(s) && MemoryInv(cfg, s, hi) && hi <= At(step, hi) && cfg.limits.retention >= cfg.lifetime
    ensures MemoryInv(cfg, Next(cfg, s, step), At(step, hi))
  {
    if step.Submit? {
      SubmitKeepsMemory(cfg, s, step.tid, step.owner, step.request, hi, step.now);
    } else {
      NextAges(cfg, s, step, hi);
      AgingKeepsMemory(cfg, s, Next(cfg, s, step), hi, At(step, hi));
    }
  }
}
