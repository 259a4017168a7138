/** The inductive invariant of the gateway, kept by every step without any assumption on the clock. */
module GatewayInvariant {
  import opened Outcomes
  import opened RequestTable
  import opened Gateway

  /** At most one thread owns the lane: whoever stands at an owner's point is the one the lane names. */
  ghost predicate LaneInv(s: State) {
    && (forall tid :: tid in s.threads && s.threads[tid].pc.OwnsLane() ==>
          s.lane == Some(Lane(tid, s.threads[tid].request.id, s.threads[tid].pc.attempt)))
    && (s.lane.Some? ==>
          && s.lane.value.attempt in s.issued
          && s.lane.value.attempt !in s.finished
          && s.lane.value.tid in s.threads
          && s.threads[s.lane.value.tid].pc.OwnsLane())
    && s.finished <= s.issued
  }

  /** A row is in progress only for the lane's owner, under its attempt, at a point that will still settle it. */
  ghost predicate Held(s: State, id: string)
    requires id in s.rows && id in s.born
  {
    && s.lane.Some?
    && s.lane.value.id == id
    && s.rows[id].attempt == Some(s.lane.value.attempt)
    && s.lane.value.tid in s.threads
    && var pc := s.threads[s.lane.value.tid].pc;
       pc.MayHoldRow() && (pc.Recovering? || pc.row == s.born[id])
  }

  ghost predicate HoldInv(s: State) {
    && s.rows.Keys <= s.born.Keys
    && forall id :: id in s.rows && s.rows[id].status == InProgress ==> Held(s, id)
  }

  predicate IsBirth(log: seq<Event>, at: nat, id: string) {
    at < |log| && log[at].Inserted? && log[at].id == id
  }

  /** Every row has its own insertion. */
  ghost predicate Rooted(s: State) {
    s.rows.Keys <= s.born.Keys && forall id :: id in s.born ==> IsBirth(s.log, s.born[id], id)
  }

  /** Rows, threads and calls point back to the insertion they belong to. */
  ghost predicate BirthInv(s: State) {
    RowsBorn(s) && CallsBorn(s.log) && ThreadsBorn(s)
  }

  ghost predicate RowsBorn(s: State) {
    && (forall id :: id in s.born ==> IsBirth(s.log, s.born[id], id))
    && (forall id :: id in s.rows && id in s.born ==>
          && IsBirth(s.log, s.born[id], id)
          && s.rows[id].owner == s.log[s.born[id]].owner
          && s.rows[id].digest == s.log[s.born[id]].digest
          && s.rows[id].expires == s.rows[id].digest.expires)
  }

  ghost predicate CallsBorn(log: seq<Event>) {
    forall i :: 0 <= i < |log| && log[i].Called? ==> log[i].row < i && IsBirth(log, log[i].row, log[i].id)
  }

  ghost predicate ThreadsBorn(s: State) {
    && (forall tid :: tid in s.threads && !s.threads[tid].pc.Finished? ==>
          var th := s.threads[tid];
          && IsBirth(s.log, th.admitted, th.request.id)
          && s.log[th.admitted].owner == th.owner
          && s.log[th.admitted].digest == th.request.digest)
    && (forall tid :: tid in s.threads && OnRow(s.threads[tid].pc) ==>
          IsBirth(s.log, s.threads[tid].pc.row, s.threads[tid].request.id))
  }

  predicate OnRow(pc: Pc) {
    pc.Marked? || pc.Calling? || pc.Returned? || pc.Collecting?
  }

  /** The call at position i was answered: the worker definitely did not take the request. */
  ghost predicate Declined(log: seq<Event>, i: nat)
    requires i < |log| && log[i].Called?
  {
    exists k :: i < k < |log| && log[k] == Ended(log[i].attempt, Unavailable)
  }

  /** No call for the row may have reached the model, except possibly one of the given attempt. */
  ghost predicate UntouchedBut(log: seq<Event>, row: nat, attempt: Option<nat>) {
    forall i :: 0 <= i < |log| && log[i].Called? && log[i].row == row && Some(log[i].attempt) != attempt ==> Declined(log, i)
  }

  ghost predicate CallInv(s: State) {
    && (forall id :: id in s.rows && id in s.born && s.rows[id].status == Reserved ==> UntouchedBut(s.log, s.born[id], None))
    && (forall tid :: tid in s.threads ==> ThreadCallInv(s, s.threads[tid].pc))
  }

  ghost predicate ThreadCallInv(s: State, pc: Pc) {
    && (pc.Marked? || (pc.Returned? && pc.outcome == Unavailable) ==> UntouchedBut(s.log, pc.row, None))
    && (pc.Calling? || pc.Returned? ==> UntouchedBut(s.log, pc.row, Some(pc.attempt)))
    && (pc.Marked? || pc.Calling? || pc.Returned? ==>
          forall id :: id in s.rows && id in s.born && s.born[id] == pc.row ==> s.rows[id].status != Reserved)
  }

  /** Every call of the worker but the last one for a row was declined before the next one was made. */
  ghost predicate AtMostOnce(log: seq<Event>) {
    forall i, j :: 0 <= i < j < |log| && log[i].Called? && log[j].Called? && log[i].row == log[j].row ==>
      exists k :: i < k < j && log[k] == Ended(log[i].attempt, Unavailable)
  }

  ghost predicate Inv(s: State) {
    LaneInv(s) && HoldInv(s) && BirthInv(s) && CallInv(s) && AtMostOnce(s.log)
  }

  /** No row is newly reserved or in progress, none appears, and every row keeps its identity. */
  ghost predicate Quieter(t: Table, t': Table) {
    forall id :: id in t' ==>
      && id in t
      && t'[id].owner == t[id].owner && t'[id].digest == t[id].digest && t'[id].expires == t[id].expires
      && (t'[id].status == Reserved || t'[id].status == InProgress ==>
            t'[id].status == t[id].status && t'[id].attempt == t[id].attempt)
  }

  lemma CleanupIsQuieter(t: Table, now: Instant, retention: nat)
    ensures Quieter(t, Cleanup(t, now, retention))
  {
  }

  lemma GetOwnedIsQuieter(limits: Limits, t: Table, id: string, owner: string, digest: Option<Digest>, now: Instant)
    ensures Quieter(t, GetOwned(limits, t, id, owner, digest, now).0)
  {
    CleanupIsQuieter(t, now, limits.retention);
  }

  lemma CompleteIsQuieter(limits: Limits, t: Table, id: string, attempt: nat, output: Output, nonce: nat, now: Instant)
    ensures Quieter(t, Complete(limits, t, id, attempt, output, nonce, now).0)
  {
    CleanupIsQuieter(t, now, limits.retention);
  }

  lemma AcknowledgeIsQuieter(limits: Limits, t: Table, id: string, owner: string, disposition: Disposition, now: Instant)
    ensures Quieter(t, Acknowledge(limits, t, id, owner, disposition, now).0)
  {
    CleanupIsQuieter(t, now, limits.retention);
  }

  /** One thread moves to another point while the table only becomes quieter and the log gains at most
      one entry that is not a call. */
  ghost predicate Quiet(s: State, s': State, tid: nat, pc: Pc) {
    && tid in s.threads
    && s'.threads == s.threads[tid := s.threads[tid].(pc := pc)]
    && s'.born == s.born && s'.lane == s.lane && s'.issued == s.issued && s'.finished == s.finished
    && Quieter(s.rows, s'.rows)
    && (s'.log == s.log || (|s'.log| == |s.log| + 1 && s.log <= s'.log && !s'.log[|s.log|].Called?))
  }

  /** The points a quiet step may lead to. */
  ghost predicate Follows(s: State, s': State, tid: nat, pc: Pc)
    requires tid in s.threads
  {
    var was := s.threads[tid].pc;
    && (was.Finished? ==> pc.Finished?)
    && (was.OwnsLane() <==> pc.OwnsLane())
    && (pc.OwnsLane() ==> pc.attempt == was.attempt)
    && (OnRow(pc) ==> OnRow(was) && pc.row == was.row)
    && (was.OwnsLane() && (exists id :: id in s'.rows && s'.rows[id].status == InProgress) ==>
          was.MayHoldRow() && pc.MayHoldRow() && (was.Recovering? ==> pc.Recovering?))
    && !pc.Marked?
    && ThreadCallInv(s', pc)
  }

  lemma QuietKeepsLane(s: State, s': State, tid: nat, pc: Pc)
    requires LaneInv(s) && Quiet(s, s', tid, pc) && Follows(s, s', tid, pc)
    ensures LaneInv(s')
  {
  }

  lemma QuietKeepsHold(s: State, s': State, tid: nat, pc: Pc)
    requires LaneInv(s) && HoldInv(s) && Quiet(s, s', tid, pc) && Follows(s, s', tid, pc)
    ensures HoldInv(s')
  {
    forall id | id in s'.rows && s'.rows[id].status == InProgress ensures Held(s', id) {
      assert Held(s, id);
    }
  }

  lemma QuietKeepsBirth(s: State, s': State, tid: nat, pc: Pc)
    requires HoldInv(s) && BirthInv(s) && Quiet(s, s', tid, pc) && Follows(s, s', tid, pc)
    ensures BirthInv(s')
  {
    QuieterRowsAreBorn(s, s');
    LongerLogKeepsCalls(s.log, s'.log);
    QuietThreadsAreBorn(s, s', tid, pc);
  }

  lemma QuieterRowsAreBorn(s: State, s': State)
    requires HoldInv(s) && RowsBorn(s) && s'.born == s.born && s.log <= s'.log && Quieter(s.rows, s'.rows)
    ensures RowsBorn(s')
  {
  }

  lemma LongerLogKeepsCalls(log: seq<Event>, log': seq<Event>)
    requires CallsBorn(log) && log <= log' && forall i :: |log| <= i < |log'| ==> !log'[i].Called?
    ensures CallsBorn(log')
  {
    assert forall i :: 0 <= i < |log| ==> log'[i] == log[i];
  }

  lemma QuietThreadsAreBorn(s: State, s': State, tid: nat, pc: Pc)
    requires ThreadsBorn(s) && Quiet(s, s', tid, pc) && Follows(s, s', tid, pc)
    ensures ThreadsBorn(s')
  {
  }

  /** What was declined stays declined however the log grows. */
  lemma UntouchedGrows(log: seq<Event>, log': seq<Event>, row: nat, attempt: Option<nat>)
    requires log <= log' && UntouchedBut(log, row, attempt)
    requires forall i :: |log| <= i < |log'| ==> !log'[i].Called?
    ensures UntouchedBut(log', row, attempt)
  {
    forall i | 0 <= i < |log'| && log'[i].Called? && log'[i].row == row && Some(log'[i].attempt) != attempt
      ensures Declined(log', i)
    {
      assert log[i] == log'[i] && Declined(log, i);
    }
  }

  lemma QuietKeepsCalls(s: State, s': State, tid: nat, pc: Pc)
    requires HoldInv(s) && CallInv(s) && Quiet(s, s', tid, pc) && Follows(s, s', tid, pc)
    ensures CallInv(s')
  {
    forall id | id in s'.rows && id in s'.born && s'.rows[id].status == Reserved
      ensures UntouchedBut(s'.log, s'.born[id], None)
    {
      UntouchedGrows(s.log, s'.log, s.born[id], None);
    }
    forall t | t in s'.threads && t != tid ensures ThreadCallInv(s', s'.threads[t].pc) {
      var was := s.threads[t].pc;
      assert ThreadCallInv(s, was);
      if OnRow(was) && !was.Collecting? {
        if UntouchedBut(s.log, was.row, None) { UntouchedGrows(s.log, s'.log, was.row, None); }
        if UntouchedBut(s.log, was.row, Some(was.attempt)) { UntouchedGrows(s.log, s'.log, was.row, Some(was.attempt)); }
      }
    }
  }

  lemma QuietKeepsOnce(log: seq<Event>, log': seq<Event>)
    requires AtMostOnce(log) && log <= log'
    requires forall i :: |log| <= i < |log'| ==> !log'[i].Called?
    ensures AtMostOnce(log')
  {
    forall i, j | 0 <= i < j < |log'| && log'[i].Called? && log'[j].Called? && log'[i].row == log'[j].row
      ensures exists k :: i < k < j && log'[k] == Ended(log'[i].attempt, Unavailable)
    {
      assert log[i] == log'[i] && log[j] == log'[j];
      var k :| i < k < j && log[k] == Ended(log[i].attempt, Unavailable);
      assert log'[k] == log[k];
    }
  }

  lemma QuietKeepsInv(s: State, s': State, tid: nat, pc: Pc)
    requires Inv(s) && Quiet(s, s', tid, pc) && Follows(s, s', tid, pc)
    ensures Inv(s')
  {
    QuietKeepsLane(s, s', tid, pc);
    QuietKeepsHold(s, s', tid, pc);
    QuietKeepsBirth(s, s', tid, pc);
    QuietKeepsCalls(s, s', tid, pc);
    QuietKeepsOnce(s.log, s'.log);
  }

  /** An owner that has settled its row leaves nothing in progress. */
  lemma NothingHeld(s: State, tid: nat)
    requires LaneInv(s) && HoldInv(s)
    requires tid in s.threads && s.threads[tid].pc.OwnsLane() && !s.threads[tid].pc.MayHoldRow()
    ensures forall id :: id in s.rows ==> s.rows[id].status != InProgress
  {
    assert forall id :: id in s.rows && s.rows[id].status == InProgress ==> Held(s, id);
  }

  lemma ReloadIsQuiet(cfg: Config, s: State, tid: nat, now: Instant)
    requires tid in s.threads && s.threads[tid].pc.Reloading?
    ensures Quiet(s, DoReload(cfg, s, tid, now), tid, DoReload(cfg, s, tid, now).threads[tid].pc)
    ensures DoReload(cfg, s, tid, now).threads[tid].pc.Finished?
  {
    var th := s.threads[tid];
    GetOwnedIsQuieter(cfg.limits, s.rows, th.request.id, th.owner, Some(th.request.digest), now);
  }

  lemma ReloadKeepsInv(cfg: Config, s: State, tid: nat, now: Instant)
    requires Inv(s)
    ensures Inv(DoReload(cfg, s, tid, now))
  {
    if tid in s.threads && s.threads[tid].pc.Reloading? {
      var s' := DoReload(cfg, s, tid, now);
      ReloadIsQuiet(cfg, s, tid, now);
      QuietKeepsInv(s, s', tid, s'.threads[tid].pc);
    }
  }

  lemma CollectIsQuiet(cfg: Config, s: State, tid: nat, now: Instant)
    requires tid in s.threads && s.threads[tid].pc.Collecting?
    ensures Quiet(s, DoCollect(cfg, s, tid, now), tid, DoCollect(cfg, s, tid, now).threads[tid].pc)
    ensures var pc := DoCollect(cfg, s, tid, now).threads[tid].pc;
            (pc.Recovering? || pc.Releasing?) && pc.attempt == s.threads[tid].pc.attempt
  {
    var th := s.threads[tid];
    GetOwnedIsQuieter(cfg.limits, s.rows, th.request.id, th.owner, Some(th.request.digest), now);
  }

  lemma CollectKeepsInv(cfg: Config, s: State, tid: nat, now: Instant)
    requires Inv(s)
    ensures Inv(DoCollect(cfg, s, tid, now))
  {
    if tid in s.threads && s.threads[tid].pc.Collecting? {
      var s' := DoCollect(cfg, s, tid, now);
      NothingHeld(s, tid);
      CollectIsQuiet(cfg, s, tid, now);
      QuietKeepsInv(s, s', tid, s'.threads[tid].pc);
    }
  }

  lemma JoinKeepsInv(s: State, tid: nat)
    requires Inv(s)
    ensures Inv(DoJoin(s, tid))
  {
    if tid in s.threads && s.threads[tid].pc.Joining? {
      var joins := s.lane.Some? && s.lane.value.id == s.threads[tid].request.id;
      StepAsideKeepsInv(s, tid, if joins then Waiting(s.lane.value.attempt) else Reloading(None));
    }
  }

  lemma WakeKeepsInv(s: State, tid: nat)
    requires Inv(s)
    ensures Inv(DoWake(s, tid))
  {
    if tid in s.threads && s.threads[tid].pc.Waiting? && s.threads[tid].pc.awaited in s.finished {
      StepAsideKeepsInv(s, tid, Reloading(Some(s.threads[tid].pc.awaited)));
    }
  }

  lemma GiveUpKeepsInv(cfg: Config, s: State, tid: nat)
    requires Inv(s)
    ensures Inv(DoGiveUp(cfg, s, tid))
  {
    if tid in s.threads && s.threads[tid].pc.Waiting? {
      StepAsideKeepsInv(s, tid, Finished(TimedOut(cfg)));
    }
  }

  lemma WithdrawIsQuiet(cfg: Config, s: State, tid: nat, attempt: nat, now: Instant)
    requires tid in s.threads
    ensures var s' := Withdraw(cfg, s, tid, attempt, now);
            && Quiet(s, s', tid, s'.threads[tid].pc)
            && (s'.threads[tid].pc == Recovering(attempt) || s'.threads[tid].pc == Releasing(attempt, TooLate))
  {
    var th := s.threads[tid];
    GetOwnedIsQuieter(cfg.limits, s.rows, th.request.id, th.owner, Some(th.request.digest), now);
  }

  /** A row that its owner reads back after the expiry is no longer in progress. */
  lemma ReadBackIsExpired(limits: Limits, t: Table, id: string, owner: string, digest: Digest, now: Instant)
    requires id in t && t[id].expires == t[id].digest.expires && digest.expires * MICROS <= now
    requires GetOwned(limits, t, id, owner, Some(digest), now).1.Ok?
    ensures var t' := GetOwned(limits, t, id, owner, Some(digest), now).0;
            id in t' && Tombstone(t'[id].status)
  {
  }

  /** Reading back the row of an expired request leaves nothing of the owner's in progress. */
  lemma WithdrawKeepsInv(cfg: Config, s: State, tid: nat, now: Instant)
    requires Inv(s) && tid in s.threads && (s.threads[tid].pc.Preparing? || s.threads[tid].pc.Marked?)
    requires s.threads[tid].request.digest.expires * MICROS <= now
    ensures Inv(Withdraw(cfg, s, tid, s.threads[tid].pc.attempt, now))
  {
    var th := s.threads[tid];
    var s' := Withdraw(cfg, s, tid, th.pc.attempt, now);
    WithdrawIsQuiet(cfg, s, tid, th.pc.attempt, now);
    if th.pc.Preparing? {
      NothingHeld(s, tid);
    } else {
      WithdrawLeavesNothing(cfg, s, tid, now);
    }
    OwnerWithdraws(s, s', tid, s'.threads[tid].pc);
  }

  /** An owner that withdraws, and leaves its row in progress only for the recovery. */
  lemma OwnerWithdraws(s: State, s': State, tid: nat, pc: Pc)
    requires Inv(s) && tid in s.threads && (s.threads[tid].pc.Preparing? || s.threads[tid].pc.Marked?)
    requires Quiet(s, s', tid, pc) && (pc.Recovering? || pc.Releasing?) && pc.attempt == s.threads[tid].pc.attempt
    requires s.threads[tid].pc.Preparing? || pc.Releasing? ==> forall id :: id in s'.rows ==> s'.rows[id].status != InProgress
    ensures Inv(s')
  {
    QuietKeepsInv(s, s', tid, pc);
  }

  lemma WithdrawLeavesNothing(cfg: Config, s: State, tid: nat, now: Instant)
    requires LaneInv(s) && HoldInv(s) && RowsBorn(s) && tid in s.threads && s.threads[tid].pc.Marked?
    requires s.threads[tid].request.digest.expires * MICROS <= now
    ensures var s' := Withdraw(cfg, s, tid, s.threads[tid].pc.attempt, now);
            s'.threads[tid].pc.Releasing? ==> forall id :: id in s'.rows ==> s'.rows[id].status != InProgress
  {
    var th := s.threads[tid];
    var s' := Withdraw(cfg, s, tid, th.pc.attempt, now);
    WithdrawIsQuiet(cfg, s, tid, th.pc.attempt, now);
    forall id | id in s'.rows && s'.threads[tid].pc.Releasing? ensures s'.rows[id].status != InProgress {
      if s.rows[id].status == InProgress {
        assert Held(s, id);
        ReadBackIsExpired(cfg.limits, s.rows, id, th.owner, th.request.digest, now);
      }
    }
  }

  lemma ReturnKeepsInv(s: State, tid: nat, outcome: Outcome)
    requires Inv(s)
    ensures Inv(DoReturn(s, tid, outcome))
  {
    if tid in s.threads && s.threads[tid].pc.Calling? {
      var s' := DoReturn(s, tid, outcome);
      var pc := s.threads[tid].pc;
      assert ThreadCallInv(s, pc);
      UntouchedGrows(s.log, s'.log, pc.row, Some(pc.attempt));
      if outcome == Unavailable {
        forall i | 0 <= i < |s'.log| && s'.log[i].Called? && s'.log[i].row == pc.row ensures Declined(s'.log, i) {
          if s'.log[i].attempt == pc.attempt { assert s'.log[|s.log|] == Ended(pc.attempt, Unavailable); }
        }
      }
      QuietKeepsInv(s, s', tid, s'.threads[tid].pc);
    }
  }

  lemma RecoverKeepsInv(cfg: Config, s: State, tid: nat, now: Instant)
    requires Inv(s)
    ensures Inv(DoRecover(cfg, s, tid, now))
  {
    if tid in s.threads && s.threads[tid].pc.Recovering? {
      var s' := DoRecover(cfg, s, tid, now);
      RecoverLeavesNothing(s, tid, now);
      QuietKeepsInv(s, s', tid, Releasing(s.threads[tid].pc.attempt, TimedOut(cfg)));
    }
  }

  lemma RecoverLeavesNothing(s: State, tid: nat, now: Instant)
    requires LaneInv(s) && HoldInv(s) && tid in s.threads && s.threads[tid].pc.Recovering?
    ensures var t := MarkAmbiguous(s.rows, s.threads[tid].request.id, s.threads[tid].pc.attempt, now);
            Quieter(s.rows, t) && forall id :: id in t ==> t[id].status != InProgress
  {
    var t := MarkAmbiguous(s.rows, s.threads[tid].request.id, s.threads[tid].pc.attempt, now);
    forall id | id in t ensures t[id].status != InProgress {
      if id in s.rows && s.rows[id].status == InProgress { assert Held(s, id); }
    }
  }

  /** A table that only becomes quieter on its own keeps the invariant. */
  lemma QuieterTableKeepsInv(s: State, t: Table)
    requires Inv(s) && Quieter(s.rows, t)
    ensures Inv(s.(rows := t))
  {
    var s' := s.(rows := t);
    forall id | id in s'.rows && s'.rows[id].status == InProgress ensures Held(s', id) {
      assert Held(s, id);
    }
    forall tid | tid in s'.threads ensures ThreadCallInv(s', s'.threads[tid].pc) {
      assert ThreadCallInv(s, s.threads[tid].pc);
    }
  }

  lemma EnvironmentKeepsInv(cfg: Config, s: State, owner: string, id: string, disposition: Disposition, now: Instant)
    requires Inv(s)
    ensures Inv(s.(rows := Cleanup(s.rows, now, cfg.limits.retention)))
    ensures Inv(DoAck(cfg, s, owner, id, disposition, now))
  {
    CleanupIsQuieter(s.rows, now, cfg.limits.retention);
    QuieterTableKeepsInv(s, Cleanup(s.rows, now, cfg.limits.retention));
    AcknowledgeIsQuieter(cfg.limits, s.rows, id, owner, disposition, now);
    QuieterTableKeepsInv(s, Acknowledge(cfg.limits, s.rows, id, owner, disposition, now).0);
  }

  lemma InitializeSettles(limits: Limits, t: Table, now: Instant)
    ensures var t' := Initialize(limits, t, now);
            Quieter(t, t') && forall id :: id in t' ==> t'[id].status != InProgress
  {
    var interrupted: Table := map id | id in t :: Interrupt(t[id], now);
    CleanupIsQuieter(interrupted, now, limits.retention);
  }

  lemma RestartKeepsInv(cfg: Config, s: State, release: Provenance, now: Instant)
    requires Inv(s)
    ensures Inv(DoRestart(cfg, s, release, now))
  {
    InitializeSettles(cfg.limits, s.rows, now);
    var t := Initialize(cfg.limits, s.rows, now);
    var s' := DoRestart(cfg, s, release, now);
    assert s'.threads == map[] && s'.rows == t && s'.log == s.log && s'.born == s.born;
    forall id | id in s'.rows && id in s'.born && s'.rows[id].status == Reserved
      ensures UntouchedBut(s'.log, s'.born[id], None)
    {
      assert id in s.rows && s.rows[id].status == Reserved;
    }
  }

  lemma ReleaseKeepsInv(s: State, tid: nat)
    requires Inv(s)
    ensures Inv(DoRelease(s, tid))
  {
    if tid in s.threads && s.threads[tid].pc.Releasing? {
      var s' := DoRelease(s, tid);
      NothingHeld(s, tid);
      forall t | t in s'.threads ensures ThreadCallInv(s', s'.threads[t].pc) {
        assert ThreadCallInv(s, s.threads[t].pc);
      }
    }
  }

  lemma ClaimKeepsInv(cfg: Config, s: State, tid: nat, attempt: nat)
    requires Inv(s)
    ensures Inv(DoClaim(cfg, s, tid, attempt))
  {
    if tid in s.threads && s.threads[tid].pc.Claiming? && attempt !in s.issued {
      if s.lane.Some? {
        var joins := s.lane.value.id == s.threads[tid].request.id;
        StepAsideKeepsInv(s, tid, if joins then Waiting(s.lane.value.attempt) else Finished(Busy(cfg)));
      } else {
        TakeLaneKeepsInv(s, tid, attempt);
      }
    }
  }

  /** A thread that never owned the lane waits or finishes. */
  lemma StepAsideKeepsInv(s: State, tid: nat, pc: Pc)
    requires Inv(s) && tid in s.threads && !s.threads[tid].pc.OwnsLane() && (pc.Waiting? || pc.Reloading? || pc.Finished?)
    requires s.threads[tid].pc.Finished? ==> pc.Finished?
    ensures Inv(Move(s, tid, pc))
  {
    QuietKeepsInv(s, Move(s, tid, pc), tid, pc);
  }

  lemma TakeLaneKeepsInv(s: State, tid: nat, attempt: nat)
    requires Inv(s) && tid in s.threads && s.threads[tid].pc.Claiming? && attempt !in s.issued && s.lane.None?
    ensures Inv(Move(s.(lane := Some(Lane(tid, s.threads[tid].request.id, attempt)), issued := s.issued + {attempt}),
                     tid, Preparing(attempt)))
  {
    var s' := Move(s.(lane := Some(Lane(tid, s.threads[tid].request.id, attempt)), issued := s.issued + {attempt}),
                   tid, Preparing(attempt));
    assert LaneInv(s');
    assert HoldInv(s') by {
      assert forall id :: id in s.rows && s.rows[id].status == InProgress ==> Held(s, id);
    }
    assert BirthInv(s');
    forall t | t in s'.threads ensures ThreadCallInv(s', s'.threads[t].pc) {
      assert ThreadCallInv(s, s.threads[t].pc);
    }
  }

  /** Marking the reserved row of the lane's owner, in the cleaned table c. */
  lemma MarkKeepsInv(s: State, tid: nat, c: Table, row: Row)
    requires Inv(s) && tid in s.threads && s.threads[tid].pc.Preparing? && Quieter(s.rows, c)
    requires s.threads[tid].request.id in c && c[s.threads[tid].request.id].status == Reserved
    requires var was := c[s.threads[tid].request.id];
             && row.owner == was.owner && row.digest == was.digest && row.expires == was.expires
             && row.status == InProgress && row.attempt == Some(s.threads[tid].pc.attempt)
    ensures var id := s.threads[tid].request.id;
            id in s.born && Inv(Move(s.(rows := c[id := row]), tid, Marked(s.threads[tid].pc.attempt, s.born[id])))
  {
    MarkKeepsHold(s, tid, c, row);
    MarkKeepsBirth(s, tid, c, row);
    MarkKeepsCalls(s, tid, c, row);
  }

  lemma MarkKeepsBirth(s: State, tid: nat, c: Table, row: Row)
    requires HoldInv(s) && BirthInv(s) && tid in s.threads && s.threads[tid].pc.Preparing? && Quieter(s.rows, c)
    requires s.threads[tid].request.id in c
    requires var was := c[s.threads[tid].request.id];
             row.owner == was.owner && row.digest == was.digest && row.expires == was.expires
    ensures var id := s.threads[tid].request.id;
            id in s.born && BirthInv(Move(s.(rows := c[id := row]), tid, Marked(s.threads[tid].pc.attempt, s.born[id])))
  {
  }

  lemma MarkKeepsHold(s: State, tid: nat, c: Table, row: Row)
    requires LaneInv(s) && HoldInv(s) && tid in s.threads && s.threads[tid].pc.Preparing? && Quieter(s.rows, c)
    requires s.threads[tid].request.id in c && row.status == InProgress && row.attempt == Some(s.threads[tid].pc.attempt)
    ensures var id := s.threads[tid].request.id;
            && id in s.born
            && var s' := Move(s.(rows := c[id := row]), tid, Marked(s.threads[tid].pc.attempt, s.born[id]));
               LaneInv(s') && HoldInv(s')
  {
    var id := s.threads[tid].request.id;
    var s' := Move(s.(rows := c[id := row]), tid, Marked(s.threads[tid].pc.attempt, s.born[id]));
    NothingHeld(s, tid);
    assert forall i :: i in s'.rows && s'.rows[i].status == InProgress ==> i == id;
    assert Held(s', id);
  }

  lemma MarkKeepsCalls(s: State, tid: nat, c: Table, row: Row)
    requires HoldInv(s) && RowsBorn(s) && CallInv(s) && tid in s.threads && Quieter(s.rows, c)
    requires s.threads[tid].pc.Preparing? && row.status == InProgress
    requires s.threads[tid].request.id in c && c[s.threads[tid].request.id].status == Reserved
    ensures var id := s.threads[tid].request.id;
            id in s.born && CallInv(Move(s.(rows := c[id := row]), tid, Marked(s.threads[tid].pc.attempt, s.born[id])))
  {
    var id := s.threads[tid].request.id;
    var s' := Move(s.(rows := c[id := row]), tid, Marked(s.threads[tid].pc.attempt, s.born[id]));
    forall t | t in s'.threads ensures ThreadCallInv(s', s'.threads[t].pc) {
      assert ThreadCallInv(s, s.threads[t].pc);
      if t == tid { assert UntouchedBut(s.log, s.born[id], None); }
    }
  }

  lemma PrepareKeepsInv(cfg: Config, s: State, tid: nat, now: Instant)
    requires Inv(s)
    ensures Inv(DoPrepare(cfg, s, tid, now))
  {
    if tid in s.threads && s.threads[tid].pc.Preparing? {
      var th := s.threads[tid];
      var c := Cleanup(s.rows, now, cfg.limits.retention);
      CleanupIsQuieter(s.rows, now, cfg.limits.retention);
      if th.request.digest.expires * MICROS <= now {
        WithdrawKeepsInv(cfg, s, tid, now);
      } else if th.request.id in c && c[th.request.id].status == Reserved {
        var row := c[th.request.id].(status := InProgress, attempt := Some(th.pc.attempt), updated := Seconds(now));
        MarkKeepsInv(s, tid, c, row);
      } else {
        NothingHeld(s, tid);
        QuietKeepsInv(s, Move(s, tid, Recovering(th.pc.attempt)), tid, Recovering(th.pc.attempt));
      }
    }
  }

  /** The call itself: every earlier call for the row was declined, so one more may be made. */
  lemma CallKeepsInv(s: State, tid: nat, digest: Digest)
    requires Inv(s) && tid in s.threads && s.threads[tid].pc.Marked?
    ensures var th := s.threads[tid];
            Inv(Move(s.(log := s.log + [Called(th.request.id, th.owner, digest, th.pc.row, th.pc.attempt)]), tid,
                     Calling(th.pc.attempt, th.pc.row)))
  {
    var th := s.threads[tid];
    var call := Called(th.request.id, th.owner, digest, th.pc.row, th.pc.attempt);
    CallKeepsHold(s, tid, call);
    CallKeepsBirth(s, tid, call);
    CallKeepsCalls(s, tid, call);
    assert ThreadCallInv(s, th.pc);
    CallKeepsOnce(s.log, call);
  }

  lemma CallKeepsHold(s: State, tid: nat, call: Event)
    requires LaneInv(s) && HoldInv(s) && tid in s.threads && s.threads[tid].pc.Marked?
    ensures var s' := Move(s.(log := s.log + [call]), tid, Calling(s.threads[tid].pc.attempt, s.threads[tid].pc.row));
            LaneInv(s') && HoldInv(s')
  {
    var s' := Move(s.(log := s.log + [call]), tid, Calling(s.threads[tid].pc.attempt, s.threads[tid].pc.row));
    assert forall i :: i in s.rows && s.rows[i].status == InProgress ==> Held(s, i) && Held(s', i);
  }

  lemma CallKeepsBirth(s: State, tid: nat, call: Event)
    requires HoldInv(s) && BirthInv(s) && tid in s.threads && s.threads[tid].pc.Marked?
    requires call.Called? && call.id == s.threads[tid].request.id && call.row == s.threads[tid].pc.row
    ensures BirthInv(Move(s.(log := s.log + [call]), tid, Calling(s.threads[tid].pc.attempt, s.threads[tid].pc.row)))
  {
    var log' := s.log + [call];
    assert forall i :: 0 <= i < |s.log| ==> log'[i] == s.log[i];
    assert IsBirth(s.log, call.row, call.id);
    assert CallsBorn(log');
  }

  lemma CallKeepsCalls(s: State, tid: nat, call: Event)
    requires CallInv(s) && tid in s.threads && s.threads[tid].pc.Marked?
    requires call.Called? && call.row == s.threads[tid].pc.row && call.attempt == s.threads[tid].pc.attempt
    requires forall t :: t in s.threads && t != tid ==> !s.threads[t].pc.OwnsLane()
    ensures CallInv(Move(s.(log := s.log + [call]), tid, Calling(call.attempt, call.row)))
  {
    var a, r := call.attempt, call.row;
    var s' := Move(s.(log := s.log + [call]), tid, Calling(a, r));
    assert ThreadCallInv(s, s.threads[tid].pc);
    forall row: nat, attempt: Option<nat> | UntouchedBut(s.log, row, attempt) && (row != r || attempt == Some(a))
      ensures UntouchedBut(s'.log, row, attempt)
    {
      CallLeavesOthersUntouched(s.log, call, row, attempt);
    }
    assert UntouchedBut(s.log, r, Some(a));
    forall t | t in s'.threads ensures ThreadCallInv(s', s'.threads[t].pc) {
      assert ThreadCallInv(s, s.threads[t].pc);
    }
  }

  lemma CallLeavesOthersUntouched(log: seq<Event>, call: Event, row: nat, attempt: Option<nat>)
    requires UntouchedBut(log, row, attempt) && call.Called?
    requires call.row != row || attempt == Some(call.attempt)
    ensures UntouchedBut(log + [call], row, attempt)
  {
    var log' := log + [call];
    forall i | 0 <= i < |log'| && log'[i].Called? && log'[i].row == row && Some(log'[i].attempt) != attempt
      ensures Declined(log', i)
    {
      assert log[i] == log'[i] && Declined(log, i);
      var k :| i < k < |log| && log[k] == Ended(log[i].attempt, Unavailable);
      assert log'[k] == log[k];
    }
  }

  lemma CallKeepsOnce(log: seq<Event>, call: Event)
    requires AtMostOnce(log) && call.Called? && UntouchedBut(log, call.row, None)
    ensures AtMostOnce(log + [call])
  {
    var log' := log + [call];
    forall i, j | 0 <= i < j < |log'| && log'[i].Called? && log'[j].Called? && log'[i].row == log'[j].row
      ensures exists k :: i < k < j && log'[k] == Ended(log'[i].attempt, Unavailable)
    {
      assert log[i] == log'[i];
      if j == |log| { assert Declined(log, i); }
      var k :| i < k < j && log[k] == Ended(log[i].attempt, Unavailable);
      assert log'[k] == log[k];
    }
  }

  lemma DispatchKeepsInv(cfg: Config, s: State, tid: nat, now: Instant)
    requires Inv(s)
    ensures Inv(DoDispatch(cfg, s, tid, now))
  {
    if tid in s.threads && s.threads[tid].pc.Marked? {
      if s.threads[tid].request.digest.expires * MICROS <= now {
        WithdrawKeepsInv(cfg, s, tid, now);
      } else {
        CallKeepsInv(s, tid, s.threads[tid].request.digest);
      }
    }
  }

  lemma SettledNothingHeld(s: State, tid: nat, t: Table)
    requires LaneInv(s) && HoldInv(s) && tid in s.threads && s.threads[tid].pc.OwnsLane()
    requires Quieter(s.rows, t) && !OwnedBy(t, s.threads[tid].request.id, s.threads[tid].pc.attempt)
    ensures forall id :: id in t ==> t[id].status != InProgress
  {
    assert forall id :: id in s.rows && s.rows[id].status == InProgress ==> Held(s, id);
  }

  /** The owner's row is settled in t, and the owner goes on to release the lane. */
  lemma SettledKeepsInv(s: State, tid: nat, t: Table, reply: Reply)
    requires Inv(s) && tid in s.threads && s.threads[tid].pc.Returned?
    requires Quieter(s.rows, t) && !OwnedBy(t, s.threads[tid].request.id, s.threads[tid].pc.attempt)
    ensures Inv(Move(s.(rows := t), tid, Releasing(s.threads[tid].pc.attempt, reply)))
  {
    var pc := Releasing(s.threads[tid].pc.attempt, reply);
    SettledNothingHeld(s, tid, t);
    QuietKeepsInv(s, Move(s.(rows := t), tid, pc), tid, pc);
  }

  /** A declined attempt gives its row back: it is reserved again, and untouched. */
  lemma ResetKeepsInv(s: State, tid: nat, row: Row, reply: Reply)
    requires Inv(s) && tid in s.threads && s.threads[tid].pc.Returned? && s.threads[tid].pc.outcome == Unavailable
    requires OwnedBy(s.rows, s.threads[tid].request.id, s.threads[tid].pc.attempt)
    requires var was := s.rows[s.threads[tid].request.id];
             row.owner == was.owner && row.digest == was.digest && row.expires == was.expires && row.status == Reserved
    ensures var th := s.threads[tid];
            Inv(Move(s.(rows := s.rows[th.request.id := row]), tid, Releasing(th.pc.attempt, reply)))
  {
    ResetKeepsHold(s, tid, row, reply);
    ResetKeepsBirth(s, tid, row, reply);
    ResetKeepsCalls(s, tid, row, reply);
  }

  lemma ResetKeepsBirth(s: State, tid: nat, row: Row, reply: Reply)
    requires BirthInv(s) && tid in s.threads && s.threads[tid].pc.Returned? && s.threads[tid].request.id in s.rows
    requires var was := s.rows[s.threads[tid].request.id];
             row.owner == was.owner && row.digest == was.digest && row.expires == was.expires
    ensures var th := s.threads[tid];
            BirthInv(Move(s.(rows := s.rows[th.request.id := row]), tid, Releasing(th.pc.attempt, reply)))
  {
  }

  lemma ResetKeepsHold(s: State, tid: nat, row: Row, reply: Reply)
    requires LaneInv(s) && HoldInv(s) && tid in s.threads && s.threads[tid].pc.Returned? && row.status == Reserved
    requires OwnedBy(s.rows, s.threads[tid].request.id, s.threads[tid].pc.attempt)
    ensures var th := s.threads[tid];
            var s' := Move(s.(rows := s.rows[th.request.id := row]), tid, Releasing(th.pc.attempt, reply));
            LaneInv(s') && HoldInv(s')
  {
    assert forall i :: i in s.rows && s.rows[i].status == InProgress ==> Held(s, i);
  }

  lemma ResetKeepsCalls(s: State, tid: nat, row: Row, reply: Reply)
    requires LaneInv(s) && HoldInv(s) && CallInv(s) && tid in s.threads && row.status == Reserved
    requires s.threads[tid].pc.Returned? && s.threads[tid].pc.outcome == Unavailable
    requires OwnedBy(s.rows, s.threads[tid].request.id, s.threads[tid].pc.attempt)
    ensures var th := s.threads[tid];
            CallInv(Move(s.(rows := s.rows[th.request.id := row]), tid, Releasing(th.pc.attempt, reply)))
  {
    var th := s.threads[tid];
    var s' := Move(s.(rows := s.rows[th.request.id := row]), tid, Releasing(th.pc.attempt, reply));
    assert ThreadCallInv(s, th.pc) && Held(s, th.request.id);
    forall t | t in s'.threads ensures ThreadCallInv(s', s'.threads[t].pc) {
      assert ThreadCallInv(s, s.threads[t].pc);
    }
  }

  lemma ProducedKeepsInv(cfg: Config, s: State, tid: nat, nonce: nat, now: Instant)
    requires Inv(s) && tid in s.threads && s.threads[tid].pc.Returned? && s.threads[tid].pc.outcome.Produced?
    ensures Inv(DoSettle(cfg, s, tid, nonce, now))
  {
    var th := s.threads[tid];
    var s' := DoSettle(cfg, s, tid, nonce, now);
    var output := Output(th.pc.outcome.mediaType, th.pc.outcome.content, s.release.deployment, s.release.policyVersion);
    CompleteIsQuieter(cfg.limits, s.rows, th.request.id, th.pc.attempt, output, nonce, now);
    var result := Complete(cfg.limits, s.rows, th.request.id, th.pc.attempt, output, nonce, now);
    if result.1.Ok? { SettledNothingHeld(s, tid, result.0); }
    QuietKeepsInv(s, s', tid, s'.threads[tid].pc);
  }

  lemma FaultIsQuieter(t: Table, id: string, attempt: nat, outcome: Outcome, now: Instant)
    requires outcome != Unavailable
    ensures Quieter(t, FaultTable(t, id, attempt, outcome, now))
    ensures !OwnedBy(FaultTable(t, id, attempt, outcome, now), id, attempt)
  {
  }

  lemma DeclinedKeepsInv(cfg: Config, s: State, tid: nat, nonce: nat, now: Instant)
    requires Inv(s) && tid in s.threads && s.threads[tid].pc.Returned? && s.threads[tid].pc.outcome == Unavailable
    ensures Inv(DoSettle(cfg, s, tid, nonce, now))
  {
    var th := s.threads[tid];
    var id, a := th.request.id, th.pc.attempt;
    if OwnedBy(s.rows, id, a) {
      ResetKeepsInv(s, tid, s.rows[id].(status := Reserved, attempt := None, updated := Seconds(now)), NoWorker(cfg));
    } else {
      SettledKeepsInv(s, tid, s.rows, NoWorker(cfg));
    }
  }

  lemma SettleKeepsInv(cfg: Config, s: State, tid: nat, nonce: nat, now: Instant)
    requires Inv(s)
    ensures Inv(DoSettle(cfg, s, tid, nonce, now))
  {
    if tid in s.threads && s.threads[tid].pc.Returned? {
      var outcome := s.threads[tid].pc.outcome;
      if outcome == Unavailable {
        DeclinedKeepsInv(cfg, s, tid, nonce, now);
      } else if outcome.Produced? {
        ProducedKeepsInv(cfg, s, tid, nonce, now);
      } else {
        var th := s.threads[tid];
        FaultIsQuieter(s.rows, th.request.id, th.pc.attempt, outcome, now);
        SettledKeepsInv(s, tid, FaultTable(s.rows, th.request.id, th.pc.attempt, outcome, now), FaultReply(cfg, outcome));
      }
    }
  }

  /** A thread appears, admitted to a row that is already there; or it has already finished. */
  lemma ArriveKeepsInv(s: State, t: Table, tid: nat, th: Thread)
    requires Inv(s) && tid !in s.threads && Quieter(s.rows, t)
    requires th.pc.Finished? || (th.pc.Claiming? && IsBirth(s.log, th.admitted, th.request.id)
                                 && s.log[th.admitted].owner == th.owner && s.log[th.admitted].digest == th.request.digest)
    ensures Inv(s.(rows := t, threads := s.threads[tid := th]))
  {
    ArriveKeepsHold(s, t, tid, th);
    ArriveKeepsBirth(s, t, tid, th);
    ArriveKeepsCalls(s, t, tid, th);
  }

  lemma ArriveKeepsHold(s: State, t: Table, tid: nat, th: Thread)
    requires LaneInv(s) && HoldInv(s) && tid !in s.threads && Quieter(s.rows, t) && (th.pc.Finished? || th.pc.Claiming?)
    ensures var s' := s.(rows := t, threads := s.threads[tid := th]);
            LaneInv(s') && HoldInv(s')
  {
    var s' := s.(rows := t, threads := s.threads[tid := th]);
    assert forall i :: i in s.rows && s.rows[i].status == InProgress ==> Held(s, i);
    assert forall i :: i in t && t[i].status == InProgress ==> Held(s', i);
  }

  lemma ArriveKeepsCalls(s: State, t: Table, tid: nat, th: Thread)
    requires CallInv(s) && tid !in s.threads && Quieter(s.rows, t) && (th.pc.Finished? || th.pc.Claiming?)
    ensures CallInv(s.(rows := t, threads := s.threads[tid := th]))
  {
    var s' := s.(rows := t, threads := s.threads[tid := th]);
    forall x | x in s'.threads ensures ThreadCallInv(s', s'.threads[x].pc) {
      if x != tid { assert ThreadCallInv(s, s.threads[x].pc); }
    }
  }

  lemma ArriveKeepsBirth(s: State, t: Table, tid: nat, th: Thread)
    requires BirthInv(s) && tid !in s.threads && Quieter(s.rows, t)
    requires th.pc.Finished? || (th.pc.Claiming? && IsBirth(s.log, th.admitted, th.request.id)
                                 && s.log[th.admitted].owner == th.owner && s.log[th.admitted].digest == th.request.digest)
    ensures BirthInv(s.(rows := t, threads := s.threads[tid := th]))
  {
  }

  lemma InsertKeepsBirth(s: State, c: Table, tid: nat, owner: string, request: Request, now: Instant)
    requires HoldInv(s) && BirthInv(s) && tid !in s.threads && Quieter(s.rows, c) && request.id !in c
    ensures BirthInv(Insertion(s, c, tid, owner, request, now))
  {
    var s' := Insertion(s, c, tid, owner, request, now);
    assert forall at: nat :: at < |s.log| ==> s'.log[at] == s.log[at];
    assert s'.log[|s.log|] == Inserted(request.id, owner, request.digest, Seconds(now));
  }

  lemma InsertKeepsHold(s: State, c: Table, tid: nat, owner: string, request: Request, now: Instant)
    requires LaneInv(s) && HoldInv(s) && tid !in s.threads && Quieter(s.rows, c) && request.id !in c
    ensures LaneInv(Insertion(s, c, tid, owner, request, now)) && HoldInv(Insertion(s, c, tid, owner, request, now))
  {
    var s' := Insertion(s, c, tid, owner, request, now);
    assert forall i :: i in s.rows && s.rows[i].status == InProgress ==> Held(s, i);
    assert forall i :: i in s'.rows && s'.rows[i].status == InProgress ==> i in c && i in s.rows && Held(s', i);
  }

  /** A fresh row appears at the end of the log: no call can point to it yet. */
  lemma InsertKeepsInv(s: State, c: Table, tid: nat, owner: string, request: Request, now: Instant)
    requires Inv(s) && tid !in s.threads && Quieter(s.rows, c) && request.id !in c
    ensures Inv(Insertion(s, c, tid, owner, request, now))
  {
    InsertKeepsHold(s, c, tid, owner, request, now);
    InsertKeepsBirth(s, c, tid, owner, request, now);
    InsertKeepsCalls(s, c, tid, owner, request, now);
    QuietKeepsOnce(s.log, Insertion(s, c, tid, owner, request, now).log);
  }

  lemma InsertKeepsCalls(s: State, c: Table, tid: nat, owner: string, request: Request, now: Instant)
    requires HoldInv(s) && BirthInv(s) && CallInv(s) && tid !in s.threads && Quieter(s.rows, c) && request.id !in c
    ensures CallInv(Insertion(s, c, tid, owner, request, now))
  {
    var s' := Insertion(s, c, tid, owner, request, now);
    forall row: nat, attempt: Option<nat> | UntouchedBut(s.log, row, attempt) ensures UntouchedBut(s'.log, row, attempt) {
      UntouchedGrows(s.log, s'.log, row, attempt);
    }
    assert UntouchedBut(s'.log, |s.log|, None);
    forall x | x in s'.threads ensures ThreadCallInv(s', s'.threads[x].pc) {
      if x != tid { assert ThreadCallInv(s, s.threads[x].pc); }
    }
  }

  /** Once admitted, the thread goes on, or finishes with the reply the row already determines. */
  lemma ProceedKeepsInv(cfg: Config, m: State, tid: nat, id: string, row: Row, now: Instant)
    requires Inv(m) && tid in m.threads && m.threads[tid].pc.Claiming?
    ensures Inv(Proceed(cfg, m, tid, id, row, now))
  {
    var s' := Proceed(cfg, m, tid, id, row, now);
    ProceedIsQuiet(cfg, m, tid, id, row, now);
    if s' != m { QuietKeepsInv(m, s', tid, s'.threads[tid].pc); }
  }

  lemma ProceedIsQuiet(cfg: Config, m: State, tid: nat, id: string, row: Row, now: Instant)
    requires tid in m.threads && m.threads[tid].pc.Claiming?
    ensures var s' := Proceed(cfg, m, tid, id, row, now);
            s' == m || (tid in s'.threads && Quiet(m, s', tid, s'.threads[tid].pc) && (s'.threads[tid].pc.Joining? || s'.threads[tid].pc.Finished?))
  {
  }

  predicate TurnedAway(s: State, s': State, tid: nat, owner: string, request: Request) {
    tid in s'.threads && s'.threads[tid].pc.Finished? && !s'.threads[tid].pc.reply.Answer? && s'.rows == s.rows && s'.born == s.born && s'.lane == s.lane
    && s'.issued == s.issued && s'.finished == s.finished && s'.log == s.log && s'.release == s.release
    && s'.threads == s.threads[tid := s'.threads[tid]]
  }

  /** The ways a submission can end: turned away, admitted to the existing row, or a fresh row inserted. */
  lemma SubmitCases(cfg: Config, s: State, tid: nat, owner: string, request: Request, now: Instant)
    requires tid !in s.threads
    ensures var s' := DoSubmit(cfg, s, tid, owner, request, now);
            var c := Cleanup(s.rows, now, cfg.limits.retention);
            || TurnedAway(s, s', tid, owner, request)
            || (request.id in c && c[request.id].owner == owner && c[request.id].digest == request.digest
                && s' == Proceed(cfg, Arrival(s, c, tid, owner, request), tid, request.id, c[request.id], now))
            || (request.id !in c && request.digest.expires * MICROS > now
                && request.digest.expires <= MaximumExpiry(now, cfg.lifetime)
                && s' == Proceed(cfg, Insertion(s, c, tid, owner, request, now), tid, request.id,
                                 FreshRow(request, owner, now), now))
  {
  }

  /** How an admitted thread goes on: only its own point changes, and at most a read-back answer is recorded. */
  ghost predicate GoesOn(s: State, s': State, tid: nat)
    requires tid in s.threads
  {
    && tid in s'.threads && s'.rows == s.rows && s'.born == s.born && s'.lane == s.lane && s'.issued == s.issued
    && s'.finished == s.finished && s.log <= s'.log
    && (forall i :: |s.log| <= i < |s'.log| ==> s'.log[i].Answered?)
    && s'.threads == s.threads[tid := s.threads[tid].(pc := s'.threads[tid].pc)]
    && (s'.threads[tid].pc == s.threads[tid].pc || s'.threads[tid].pc.Joining? || s'.threads[tid].pc.Finished?)
  }

  lemma ProceedGoesOn(cfg: Config, s: State, tid: nat, id: string, row: Row, now: Instant)
    requires tid in s.threads
    ensures GoesOn(s, Proceed(cfg, s, tid, id, row, now), tid)
  {
    assert s.threads[tid := s.threads[tid].(pc := s.threads[tid].pc)] == s.threads;
  }

  /** What a submission leaves alone: the other threads, the lane and the calls. */
  ghost predicate Lands(s: State, s': State, c: Table, tid: nat) {
    && tid in s'.threads && (s'.rows == s.rows || forall id :: id in c ==> id in s'.rows && s'.rows[id] == c[id])
    && s'.lane == s.lane && s'.issued == s.issued && s'.finished == s.finished && s.log <= s'.log
    && (forall i :: |s.log| <= i < |s'.log| ==> s'.log[i].Answered? || s'.log[i].Inserted?)
    && s'.threads == s.threads[tid := s'.threads[tid]]
    && (s'.threads[tid].pc.Claiming? || s'.threads[tid].pc.Joining? || s'.threads[tid].pc.Finished?)
  }

  lemma SubmitLands(cfg: Config, s: State, tid: nat, owner: string, request: Request, now: Instant)
    requires tid !in s.threads
    ensures Lands(s, DoSubmit(cfg, s, tid, owner, request, now), Cleanup(s.rows, now, cfg.limits.retention), tid)
  {
    var s' := DoSubmit(cfg, s, tid, owner, request, now);
    var c := Cleanup(s.rows, now, cfg.limits.retention);
    SubmitCases(cfg, s, tid, owner, request, now);
    if !TurnedAway(s, s', tid, owner, request) {
      if request.id in c {
        ProceedLands(cfg, s, Arrival(s, c, tid, owner, request), c, tid, request.id, c[request.id], now);
      } else {
        ProceedLands(cfg, s, Insertion(s, c, tid, owner, request, now), c, tid, request.id, FreshRow(request, owner, now), now);
      }
    }
  }

  lemma ProceedLands(cfg: Config, s: State, m: State, c: Table, tid: nat, id: string, row: Row, now: Instant)
    requires Lands(s, m, c, tid) && m.threads[tid].pc.Claiming?
    ensures Lands(s, Proceed(cfg, m, tid, id, row, now), c, tid)
  {
    ProceedGoesOn(cfg, m, tid, id, row, now);
  }

  lemma SubmitKeepsInv(cfg: Config, s: State, tid: nat, owner: string, request: Request, now: Instant)
    requires Inv(s)
    ensures Inv(DoSubmit(cfg, s, tid, owner, request, now))
  {
    if tid !in s.threads {
      var s' := DoSubmit(cfg, s, tid, owner, request, now);
      var c := Cleanup(s.rows, now, cfg.limits.retention);
      CleanupIsQuieter(s.rows, now, cfg.limits.retention);
      SubmitCases(cfg, s, tid, owner, request, now);
      if TurnedAway(s, s', tid, owner, request) {
        ArriveKeepsInv(s, s.rows, tid, s'.threads[tid]);
      } else if request.id in c {
        var m := Arrival(s, c, tid, owner, request);
        ArriveKeepsInv(s, c, tid, m.threads[tid]);
        ProceedKeepsInv(cfg, m, tid, request.id, c[request.id], now);
      } else {
        InsertKeepsInv(s, c, tid, owner, request, now);
        ProceedKeepsInv(cfg, Insertion(s, c, tid, owner, request, now), tid, request.id, FreshRow(request, owner, now), now);
      }
    }
  }

  lemma OwnerStepKeepsInv(cfg: Config, s: State, step: Step)
    requires Inv(s)
    requires step.Prepare? || step.Dispatch? || step.Return? || step.Settle? || step.Collect? || step.Recover? || step.Release?
    ensures Inv(Next(cfg, s, step))
  {
    match step
    case Prepare(tid, now) => PrepareKeepsInv(cfg, s, tid, now);
    case Dispatch(tid, now) => DispatchKeepsInv(cfg, s, tid, now);
    case Return(tid, outcome) => ReturnKeepsInv(s, tid, outcome);
    case Settle(tid, nonce, now) => SettleKeepsInv(cfg, s, tid, nonce, now);
    case Collect(tid, now) => CollectKeepsInv(cfg, s, tid, now);
    case Recover(tid, now) => RecoverKeepsInv(cfg, s, tid, now);
    case Release(tid) => ReleaseKeepsInv(s, tid);
  }

  lemma WaitStepKeepsInv(cfg: Config, s: State, step: Step)
    requires Inv(s) && (step.Claim? || step.Join? || step.Wake? || step.GiveUp? || step.Reload?)
    ensures Inv(Next(cfg, s, step))
  {
    match step
    case Claim(tid, attempt) => ClaimKeepsInv(cfg, s, tid, attempt);
    case Join(tid) => JoinKeepsInv(s, tid);
    case Wake(tid) => WakeKeepsInv(s, tid);
    case GiveUp(tid) => GiveUpKeepsInv(cfg, s, tid);
    case Reload(tid, now) => ReloadKeepsInv(cfg, s, tid, now);
  }

  lemma NextKeepsInv(cfg: Config, s: State, step: Step)
    requires Inv(s)
    ensures Inv(Next(cfg, s, step))
  {
    match step
    case Submit(tid, owner, request, now) => SubmitKeepsInv(cfg, s, tid, owner, request, now);
    case Maintain(now) => EnvironmentKeepsInv(cfg, s, "", "", Persisted, now);
    case Ack(owner, id, disposition, now) => EnvironmentKeepsInv(cfg, s, owner, id, disposition, now);
    case Restart(release, now) => RestartKeepsInv(cfg, s, release, now);
    case Claim(_, _) => WaitStepKeepsInv(cfg, s, step);
    case Join(_) => WaitStepKeepsInv(cfg, s, step);
    case Wake(_) => WaitStepKeepsInv(cfg, s, step);
    case GiveUp(_) => WaitStepKeepsInv(cfg, s, step);
    case Reload(_, _) => WaitStepKeepsInv(cfg, s, step);
    case _ => OwnerStepKeepsInv(cfg, s, step);
  }

  /** The invariant holds at the end of every run. */
  lemma {:induction false} RunKeepsInv(cfg: Config, steps: seq<Step>)
    ensures Inv(Run(cfg, steps))
  {
    if steps != [] {
      RunKeepsInv(cfg, steps[..|steps| - 1]);
      NextKeepsInv(cfg, Run(cfg, steps[..|steps| - 1]), steps[|steps| - 1]);
    }
  }
}
