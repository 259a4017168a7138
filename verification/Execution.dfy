/** At-most-once execution in the whole history: from the per-row guarantee of the invariant and the
    memory of the tombstones. */
module Execution {
  import opened Outcomes
  import opened RequestTable
  import opened Gateway
  import opened GatewayInvariant
  import opened Tombstones

  /** Every call for a request but the last one was declined before the next one was made. */
  ghost predicate ExecutedOnce(log: seq<Event>) {
    forall i, j :: 0 <= i < j < |log| && log[i].Called? && log[j].Called?
                   && log[i].id == log[j].id && log[i].digest == log[j].digest ==>
      exists k :: i < k < j && log[k] == Ended(log[i].attempt, Unavailable)
  }

  /** The call was made for the request that the row it belongs to was inserted for. */
  predicate OwnCall(log: seq<Event>, i: nat)
    requires i < |log| && log[i].Called?
  {
    && IsBirth(log, log[i].row, log[i].id)
    && log[log[i].row].owner == log[i].owner && log[log[i].row].digest == log[i].digest
  }

  ghost predicate OwnCalls(log: seq<Event>) {
    forall i :: 0 <= i < |log| && log[i].Called? ==> OwnCall(log, i)
  }

  lemma OwnCallsGrow(log: seq<Event>, log': seq<Event>)
    requires OwnCalls(log) && log <= log'
    requires forall i :: |log| <= i < |log'| && log'[i].Called? ==> OwnCall(log', i)
    ensures OwnCalls(log')
  {
    forall i | 0 <= i < |log'| && log'[i].Called? ensures OwnCall(log', i) {
      if i < |log| { assert log[i] == log'[i] && OwnCall(log, i); }
    }
  }

  /** The owner works on the row its own request was admitted to, and until the expiry that row is in
      progress under its attempt when the worker is called. */
  ghost predicate OwnerInv(s: State, hi: Instant) {
    && (forall tid :: tid in s.threads && OnRow(s.threads[tid].pc) ==> s.threads[tid].pc.row == s.threads[tid].admitted)
    && OwnCalls(s.log)
    && (forall tid :: tid in s.threads && s.threads[tid].pc.Marked? ==> Covered(s, s.threads[tid], hi))
  }

  ghost predicate Covered(s: State, th: Thread, hi: Instant)
    requires th.pc.Marked?
  {
    OwnedBy(s.rows, th.request.id, th.pc.attempt) || th.request.digest.expires <= Seconds(hi)
  }

  /** Rows in progress stay in progress, unless they expire. */
  ghost predicate Undisturbed(t: Table, t': Table, now: Instant) {
    forall id :: id in t && t[id].status == InProgress ==>
      t[id].expires <= Seconds(now) || (id in t' && t'[id].status == InProgress && t'[id].attempt == t[id].attempt)
  }

  lemma CleanupUndisturbed(limits: Limits, t: Table, now: Instant)
    ensures Undisturbed(t, Cleanup(t, now, limits.retention), now)
  {
  }

  lemma ReadsUndisturbed(limits: Limits, t: Table, id: string, owner: string, digest: Option<Digest>, disposition: Disposition, now: Instant)
    ensures Undisturbed(t, GetOwned(limits, t, id, owner, digest, now).0, now)
    ensures Undisturbed(t, Acknowledge(limits, t, id, owner, disposition, now).0, now)
  {
    CleanupUndisturbed(limits, t, now);
  }

  /** A step of anyone but the lane's owner. */
  ghost predicate Outside(s: State, s': State, now: Instant, tid: nat) {
    && Undisturbed(s.rows, s'.rows, now)
    && s.log <= s'.log
    && (forall i :: |s.log| <= i < |s'.log| ==> !s'.log[i].Called?)
    && (forall t :: t in s'.threads ==>
          || (t in s.threads && s'.threads[t] == s.threads[t])
          || (t == tid && !OnRow(s'.threads[t].pc)))
  }

  /** The row that the owner marked is its own request's. */
  lemma MarkedRowIsOwn(s: State, hi: Instant, tid: nat)
    requires LaneInv(s) && HoldInv(s) && BirthInv(s) && OwnerInv(s, hi)
    requires tid in s.threads && s.threads[tid].pc.Marked?
    requires OwnedBy(s.rows, s.threads[tid].request.id, s.threads[tid].pc.attempt)
    ensures var th := s.threads[tid];
            var row := s.rows[th.request.id];
            row.owner == th.owner && row.digest == th.request.digest && row.expires == th.request.digest.expires
  {
    assert OnRow(s.threads[tid].pc);
    assert Held(s, s.threads[tid].request.id);
  }

  lemma OutsideKeepsOwner(s: State, s': State, hi: Instant, now: Instant, tid: nat)
    requires LaneInv(s) && HoldInv(s) && BirthInv(s) && OwnerInv(s, hi) && hi <= now && Outside(s, s', now, tid)
    ensures OwnerInv(s', now)
  {
    assert Seconds(hi) <= Seconds(now);
    forall t | t in s'.threads && s'.threads[t].pc.Marked? ensures Covered(s', s'.threads[t], now) {
      assert Covered(s, s.threads[t], hi);
      if OwnedBy(s.rows, s.threads[t].request.id, s.threads[t].pc.attempt) { MarkedRowIsOwn(s, hi, t); }
    }
    OwnCallsGrow(s.log, s'.log);
  }

  lemma OnlyOwnerIsMarked(s: State, tid: nat)
    requires LaneInv(s) && tid in s.threads && s.threads[tid].pc.OwnsLane()
    ensures forall t :: t in s.threads && s.threads[t].pc.Marked? ==> t == tid
  {
  }

  lemma OwnersRowIsTheAdmitted(cfg: Config, s: State, hi: Instant, now: Instant, tid: nat)
    requires HoldInv(s) && BirthInv(s) && MemoryInv(cfg, s, hi) && hi <= now && cfg.limits.retention >= cfg.lifetime
    requires tid in s.threads && !s.threads[tid].pc.Finished? && s.threads[tid].request.digest.expires * MICROS > now
    ensures var th := s.threads[tid];
            th.request.id in s.born && s.born[th.request.id] == th.admitted
  {
    var th := s.threads[tid];
    var s' := s.(rows := Cleanup(s.rows, now, cfg.limits.retention));
    CleanupAges(s.rows, now, cfg.limits.retention);
    AgingRemembers(cfg, s, s', hi, now, th.admitted);
  }

  /** The owner moves on from any point to one where its row is not newly marked. */
  ghost predicate OwnerMoves(s: State, s': State, tid: nat) {
    && tid in s.threads && tid in s'.threads && s.threads[tid].pc.OwnsLane()
    && !s'.threads[tid].pc.Marked?
    && (forall t :: t in s'.threads && t != tid ==> t in s.threads && s'.threads[t] == s.threads[t])
    && s'.threads[tid].admitted == s.threads[tid].admitted
    && (OnRow(s'.threads[tid].pc) ==> OnRow(s.threads[tid].pc) && s'.threads[tid].pc.row == s.threads[tid].pc.row)
    && s.log <= s'.log
    && (forall i :: |s.log| <= i < |s'.log| && s'.log[i].Called? ==> OwnCall(s'.log, i))
  }

  lemma OwnerMovesKeepsOwner(s: State, s': State, hi: Instant, now: Instant, tid: nat)
    requires LaneInv(s) && BirthInv(s) && OwnerInv(s, hi) && OwnerMoves(s, s', tid)
    ensures OwnerInv(s', now)
  {
    OnlyOwnerIsMarked(s, tid);
    OwnCallsGrow(s.log, s'.log);
  }

  lemma LaterKeepsOwner(s: State, hi: Instant, now: Instant)
    requires OwnerInv(s, hi) && hi <= now
    ensures OwnerInv(s, now)
  {
    assert forall tid :: tid in s.threads && s.threads[tid].pc.Marked? ==> Covered(s, s.threads[tid], hi) && Covered(s, s.threads[tid], now);
  }

  lemma MarkKeepsOwner(s: State, hi: Instant, now: Instant, tid: nat, t: Table)
    requires LaneInv(s) && BirthInv(s) && OwnerInv(s, hi)
    requires tid in s.threads && s.threads[tid].pc.Preparing?
    requires var th := s.threads[tid]; th.request.id in s.born && s.born[th.request.id] == th.admitted
    requires OwnedBy(t, s.threads[tid].request.id, s.threads[tid].pc.attempt)
    ensures var th := s.threads[tid];
            OwnerInv(Move(s.(rows := t), tid, Marked(th.pc.attempt, s.born[th.request.id])), now)
  {
    var th := s.threads[tid];
    var s' := Move(s.(rows := t), tid, Marked(th.pc.attempt, s.born[th.request.id]));
    OnlyOwnerIsMarked(s, tid);
    assert Covered(s', s'.threads[tid], now);
  }

  /** The row is marked, or the mark was refused. */
  lemma PrepareCases(cfg: Config, s: State, tid: nat, now: Instant)
    requires tid in s.threads && s.threads[tid].pc.Preparing? && s.threads[tid].request.digest.expires * MICROS > now
    ensures var th := s.threads[tid];
            var (t, result) := MarkInProgress(cfg.limits, s.rows, th.request.id, th.pc.attempt, now);
            var s' := DoPrepare(cfg, s, tid, now);
            && (result.Err? ==> s' == Move(s, tid, Recovering(th.pc.attempt)))
            && (result.Ok? && th.request.id in s.born ==>
                  OwnedBy(t, th.request.id, th.pc.attempt)
                  && s' == Move(s.(rows := t), tid, Marked(th.pc.attempt, s.born[th.request.id])))
  {
  }

  lemma MarkOrRefuseKeepsOwner(cfg: Config, s: State, hi: Instant, now: Instant, tid: nat)
    requires LaneInv(s) && BirthInv(s) && OwnerInv(s, hi) && tid in s.threads && s.threads[tid].pc.Preparing?
    requires s.threads[tid].request.digest.expires * MICROS > now
    requires var th := s.threads[tid]; th.request.id in s.born && s.born[th.request.id] == th.admitted
    ensures OwnerInv(DoPrepare(cfg, s, tid, now), now)
  {
    var th := s.threads[tid];
    PrepareCases(cfg, s, tid, now);
    var (t, result) := MarkInProgress(cfg.limits, s.rows, th.request.id, th.pc.attempt, now);
    if result.Ok? {
      MarkKeepsOwner(s, hi, now, tid, t);
    } else {
      OwnerMovesKeepsOwner(s, Move(s, tid, Recovering(th.pc.attempt)), hi, now, tid);
    }
  }

  lemma QuietMoves(s: State, s': State, tid: nat)
    requires tid in s.threads && s.threads[tid].pc.OwnsLane() && tid in s'.threads && Quiet(s, s', tid, s'.threads[tid].pc)
    requires s'.threads[tid].pc.Recovering? || s'.threads[tid].pc.Releasing?
    ensures OwnerMoves(s, s', tid)
  {
  }

  lemma WithdrawKeepsOwner(cfg: Config, s: State, hi: Instant, now: Instant, tid: nat)
    requires LaneInv(s) && BirthInv(s) && OwnerInv(s, hi) && tid in s.threads && s.threads[tid].pc.Preparing?
    requires s.threads[tid].request.digest.expires * MICROS <= now
    ensures OwnerInv(DoPrepare(cfg, s, tid, now), now)
  {
    var a := s.threads[tid].pc.attempt;
    var s' := Withdraw(cfg, s, tid, a, now);
    WithdrawIsQuiet(cfg, s, tid, a, now);
    QuietMoves(s, s', tid);
    OwnerMovesKeepsOwner(s, s', hi, now, tid);
  }

  lemma PrepareKeepsOwner(cfg: Config, s: State, hi: Instant, now: Instant, tid: nat)
    requires Inv(s) && MemoryInv(cfg, s, hi) && OwnerInv(s, hi) && hi <= now && cfg.limits.retention >= cfg.lifetime
    ensures OwnerInv(DoPrepare(cfg, s, tid, now), now)
  {
    if tid in s.threads && s.threads[tid].pc.Preparing? {
      if s.threads[tid].request.digest.expires * MICROS <= now {
        WithdrawKeepsOwner(cfg, s, hi, now, tid);
      } else {
        OwnersRowIsTheAdmitted(cfg, s, hi, now, tid);
        MarkOrRefuseKeepsOwner(cfg, s, hi, now, tid);
      }
    } else {
      LaterKeepsOwner(s, hi, now);
    }
  }

  /** The second expiry check passed: the worker is called while the row is in progress for this attempt. */
  lemma DispatchIsCovered(cfg: Config, s: State, hi: Instant, now: Instant, tid: nat)
    requires OwnerInv(s, hi) && hi <= now && tid in s.threads && s.threads[tid].pc.Marked?
    requires DoDispatch(cfg, s, tid, now).threads[tid].pc.Calling?
    ensures OwnedBy(s.rows, s.threads[tid].request.id, s.threads[tid].pc.attempt)
  {
    assert Covered(s, s.threads[tid], hi);
    assert Seconds(hi) <= Seconds(now);
  }

  lemma DispatchKeepsOwner(cfg: Config, s: State, hi: Instant, now: Instant, tid: nat)
    requires Inv(s) && OwnerInv(s, hi) && hi <= now
    ensures OwnerInv(DoDispatch(cfg, s, tid, now), now)
  {
    LaterKeepsOwner(s, hi, now);
    if tid in s.threads && s.threads[tid].pc.Marked? {
      DispatchMoves(cfg, s, hi, now, tid);
      OwnerMovesKeepsOwner(s, DoDispatch(cfg, s, tid, now), hi, now, tid);
    }
  }

  lemma MarkedIsBorn(s: State, hi: Instant, tid: nat)
    requires BirthInv(s) && OwnerInv(s, hi) && tid in s.threads && s.threads[tid].pc.Marked?
    ensures var th := s.threads[tid];
            IsBirth(s.log, th.pc.row, th.request.id)
            && s.log[th.pc.row].owner == th.owner && s.log[th.pc.row].digest == th.request.digest
  {
    assert OnRow(s.threads[tid].pc) && s.threads[tid].pc.row == s.threads[tid].admitted;
  }

  lemma CallMoves(s: State, tid: nat, a: nat)
    requires tid in s.threads && s.threads[tid].pc.Marked? && s.threads[tid].pc.attempt == a
    requires var th := s.threads[tid];
             IsBirth(s.log, th.pc.row, th.request.id)
             && s.log[th.pc.row].owner == th.owner && s.log[th.pc.row].digest == th.request.digest
    ensures var th := s.threads[tid];
            OwnerMoves(s, Move(s.(log := s.log + [Called(th.request.id, th.owner, th.request.digest, th.pc.row, a)]), tid,
                               Calling(a, th.pc.row)), tid)
  {
  }

  lemma DispatchMoves(cfg: Config, s: State, hi: Instant, now: Instant, tid: nat)
    requires Inv(s) && OwnerInv(s, hi) && hi <= now && tid in s.threads && s.threads[tid].pc.Marked?
    ensures OwnerMoves(s, DoDispatch(cfg, s, tid, now), tid)
  {
    var th := s.threads[tid];
    if th.request.digest.expires * MICROS <= now {
      WithdrawIsQuiet(cfg, s, tid, th.pc.attempt, now);
      QuietMoves(s, Withdraw(cfg, s, tid, th.pc.attempt, now), tid);
    } else {
      MarkedIsBorn(s, hi, tid);
      CallMoves(s, tid, th.pc.attempt);
    }
  }

  lemma SettleMoves(cfg: Config, s: State, tid: nat, nonce: nat, now: Instant)
    requires tid in s.threads && s.threads[tid].pc.Returned?
    ensures OwnerMoves(s, DoSettle(cfg, s, tid, nonce, now), tid)
  {
  }

  lemma OwnerStepsMove(cfg: Config, s: State, tid: nat, outcome: Outcome, now: Instant)
    requires tid in s.threads && s.threads[tid].pc.OwnsLane()
    ensures s.threads[tid].pc.Calling? ==> OwnerMoves(s, DoReturn(s, tid, outcome), tid)
    ensures s.threads[tid].pc.Recovering? ==> OwnerMoves(s, DoRecover(cfg, s, tid, now), tid)
    ensures s.threads[tid].pc.Releasing? ==> OwnerMoves(s, DoRelease(s, tid), tid)
  {
  }

  lemma CollectMoves(cfg: Config, s: State, tid: nat, now: Instant)
    requires tid in s.threads && s.threads[tid].pc.Collecting?
    ensures OwnerMoves(s, DoCollect(cfg, s, tid, now), tid)
  {
    CollectIsQuiet(cfg, s, tid, now);
    QuietMoves(s, DoCollect(cfg, s, tid, now), tid);
  }

  lemma OutsideThreads(cfg: Config, s: State, step: Step, hi: Instant)
    requires step.Claim? || step.Join? || step.Wake? || step.GiveUp? || step.Reload?
    ensures Outside(s, Next(cfg, s, step), At(step, hi), step.tid)
  {
    match step
    case Reload(tid, now) => OutsideReload(cfg, s, tid, now);
    case Claim(tid, attempt) => OutsideClaim(cfg, s, tid, attempt, hi);
    case _ => OutsideWaiting(cfg, s, step, hi);
  }

  lemma OutsideWaiting(cfg: Config, s: State, step: Step, hi: Instant)
    requires step.Join? || step.Wake? || step.GiveUp?
    ensures Outside(s, Next(cfg, s, step), hi, step.tid)
  {
  }

  lemma OutsideClaim(cfg: Config, s: State, tid: nat, attempt: nat, hi: Instant)
    ensures Outside(s, DoClaim(cfg, s, tid, attempt), hi, tid)
  {
  }

  lemma OutsideReload(cfg: Config, s: State, tid: nat, now: Instant)
    ensures Outside(s, DoReload(cfg, s, tid, now), now, tid)
  {
    if tid in s.threads {
      var th := s.threads[tid];
      ReadsUndisturbed(cfg.limits, s.rows, th.request.id, th.owner, Some(th.request.digest), Persisted, now);
    }
  }

  lemma OutsideEnvironment(cfg: Config, s: State, step: Step, hi: Instant)
    requires step.Maintain? || step.Ack?
    ensures Outside(s, Next(cfg, s, step), At(step, hi), 0)
  {
    CleanupUndisturbed(cfg.limits, s.rows, step.now);
    if step.Ack? {
      ReadsUndisturbed(cfg.limits, s.rows, step.id, step.owner, None, step.disposition, step.now);
    }
  }

  lemma OutsideSubmit(cfg: Config, s: State, tid: nat, owner: string, request: Request, now: Instant)
    requires tid !in s.threads
    ensures Outside(s, DoSubmit(cfg, s, tid, owner, request, now), now, tid)
  {
    CleanupUndisturbed(cfg.limits, s.rows, now);
    SubmitLands(cfg, s, tid, owner, request, now);
    LandsOutside(s, DoSubmit(cfg, s, tid, owner, request, now), Cleanup(s.rows, now, cfg.limits.retention), tid, now);
  }

  lemma LandsOutside(s: State, s': State, c: Table, tid: nat, now: Instant)
    requires tid !in s.threads && Lands(s, s', c, tid) && Undisturbed(s.rows, c, now)
    ensures Outside(s, s', now, tid)
  {
  }

  lemma NextKeepsOwner(cfg: Config, s: State, step: Step, hi: Instant)
    requires Inv(s) && MemoryInv(cfg, s, hi) && OwnerInv(s, hi) && hi <= At(step, hi) && cfg.limits.retention >= cfg.lifetime
    ensures OwnerInv(Next(cfg, s, step), At(step, hi))
  {
    LaterKeepsOwner(s, hi, At(step, hi));
    var s' := Next(cfg, s, step);
    match step
    case Submit(tid, owner, request, now) =>
      if tid !in s.threads {
        OutsideSubmit(cfg, s, tid, owner, request, now);
        OutsideKeepsOwner(s, s', hi, now, tid);
      }
    case Prepare(tid, now) => PrepareKeepsOwner(cfg, s, hi, now, tid);
    case Dispatch(tid, now) => DispatchKeepsOwner(cfg, s, hi, now, tid);
    case Restart(_, _) =>
    case Maintain(now) => OutsideEnvironment(cfg, s, step, hi); OutsideKeepsOwner(s, s', hi, now, 0);
    case Ack(_, _, _, now) => OutsideEnvironment(cfg, s, step, hi); OutsideKeepsOwner(s, s', hi, now, 0);
    case Settle(_, _, _) => OwnerStepKeepsOwner(cfg, s, step, hi);
    case Return(_, _) => OwnerStepKeepsOwner(cfg, s, step, hi);
    case Release(_) => OwnerStepKeepsOwner(cfg, s, step, hi);
    case Collect(_, _) => OwnerStepKeepsOwner(cfg, s, step, hi);
    case Recover(_, _) => OwnerStepKeepsOwner(cfg, s, step, hi);
    case _ => OutsideThreads(cfg, s, step, hi); OutsideKeepsOwner(s, s', hi, At(step, hi), step.tid);
  }

  lemma OwnerStepKeepsOwner(cfg: Config, s: State, step: Step, hi: Instant)
    requires LaneInv(s) && BirthInv(s) && OwnerInv(s, hi) && hi <= At(step, hi)
    requires step.Settle? || step.Return? || step.Release? || step.Collect? || step.Recover?
    ensures OwnerInv(Next(cfg, s, step), At(step, hi))
  {
    LaterKeepsOwner(s, hi, At(step, hi));
    var s' := Next(cfg, s, step);
    match step
    case Settle(tid, nonce, now) =>
      if s' != s { SettleMoves(cfg, s, tid, nonce, now); OwnerMovesKeepsOwner(s, s', hi, now, tid); }
    case Return(tid, outcome) =>
      if s' != s { OwnerStepsMove(cfg, s, tid, outcome, hi); OwnerMovesKeepsOwner(s, s', hi, hi, tid); }
    case Release(tid) =>
      if s' != s { OwnerStepsMove(cfg, s, tid, Unknown, hi); OwnerMovesKeepsOwner(s, s', hi, hi, tid); }
    case Collect(tid, now) =>
      if s' != s { CollectMoves(cfg, s, tid, now); OwnerMovesKeepsOwner(s, s', hi, now, tid); }
    case Recover(tid, now) =>
      if s' != s { OwnerStepsMove(cfg, s, tid, Unknown, now); OwnerMovesKeepsOwner(s, s', hi, now, tid); }
  }

  /** All three invariants at the end of every run whose clock readings never go back. */
  lemma {:induction false} RunKeepsAll(cfg: Config, steps: seq<Step>, hi: Instant)
    requires NonDecreasing(steps) && Until(steps, hi) && cfg.limits.retention >= cfg.lifetime
    ensures var s := Run(cfg, steps); Inv(s) && MemoryInv(cfg, s, hi) && OwnerInv(s, hi)
  {
    RunKeepsInv(cfg, steps);
    if steps != [] {
      var init, last := steps[..|steps| - 1], steps[|steps| - 1];
      var now := At(last, hi);
      RunKeepsAll(cfg, init, now);
      RunKeepsInv(cfg, init);
      NextKeepsMemory(cfg, Run(cfg, init), last, now);
      NextKeepsOwner(cfg, Run(cfg, init), last, now);
      LaterKeepsAll(cfg, Run(cfg, steps), now, hi);
    }
  }

  lemma LaterKeepsAll(cfg: Config, s: State, hi: Instant, now: Instant)
    requires MemoryInv(cfg, s, hi) && OwnerInv(s, hi) && hi <= now
    ensures MemoryInv(cfg, s, now) && OwnerInv(s, now)
  {
    LaterKeepsOwner(s, hi, now);
    assert Seconds(hi) <= Seconds(now);
    forall i | 0 <= i < |s.log| && s.log[i].Inserted? ensures Remembered(s, i, now) {
      assert Remembered(s, i, hi);
    }
  }

  lemma CallsOfOneRequestShareARow(cfg: Config, s: State, hi: Instant, i: nat, j: nat)
    requires Inv(s) && MemoryInv(cfg, s, hi) && OwnerInv(s, hi)
    requires i < |s.log| && j < |s.log| && s.log[i].Called? && s.log[j].Called?
    requires s.log[i].id == s.log[j].id && s.log[i].digest == s.log[j].digest
    ensures s.log[i].row == s.log[j].row
  {
    var a, b := s.log[i].row, s.log[j].row;
    assert OwnCall(s.log, i) && OwnCall(s.log, j);
    assert s.log[a].digest == s.log[b].digest;
  }

  /** Retention at least the lifetime: no request is inserted twice, and none that may have reached the
      model is ever sent again, through any interleaving, retry, crash, expiry or deletion. */
  lemma RetainedMeansOnce(cfg: Config, steps: seq<Step>, hi: Instant)
    requires NonDecreasing(steps) && Until(steps, hi) && cfg.limits.retention >= cfg.lifetime
    ensures InsertedOnce(Run(cfg, steps).log) && ExecutedOnce(Run(cfg, steps).log)
  {
    RunKeepsAll(cfg, steps, hi);
    var s := Run(cfg, steps);
    forall i, j | 0 <= i < j < |s.log| && s.log[i].Called? && s.log[j].Called?
                  && s.log[i].id == s.log[j].id && s.log[i].digest == s.log[j].digest
      ensures exists k :: i < k < j && s.log[k] == Ended(s.log[i].attempt, Unavailable)
    {
      CallsOfOneRequestShareARow(cfg, s, hi, i, j);
    }
  }
}
