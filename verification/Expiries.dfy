/** Expired output does not survive a committed transaction: after whatever transaction cleans the table and
    commits at an instant, no row that has expired by then holds any output, and none comes back later. */
module Expiries {
  import opened Outcomes
  import opened RequestTable
  import opened RowLaws
  import opened Gateway
  import opened Replay
  import opened Capacity
  import opened Strings
  import opened Timestamps

  predicate WithoutOutput(row: Row) {
    Tombstone(row.status) && row.mediaType.None? && row.nonce.None? && row.ciphertext.None?
  }

  /** Every row that has expired by `now`, on the fractional clock, is a tombstone without output. */
  ghost predicate NothingExpiredHeld(t: Table, now: Instant) {
    forall id :: id in t && t[id].expires * MICROS <= now ==> WithoutOutput(t[id])
  }

  lemma CleanedTable(t: Table, now: Instant, retention: nat)
    requires TableOk(t)
    ensures NothingExpiredHeld(Cleanup(t, now, retention), now)
  {
    forall id | id in Cleanup(t, now, retention) && Cleanup(t, now, retention)[id].expires * MICROS <= now
      ensures WithoutOutput(Cleanup(t, now, retention)[id])
    {
      CleanedRowsHoldNoExpiredOutput(t, now, retention, id);
    }
  }

  /** Rewriting a row that has not expired. */
  lemma LiveRowRewritten(c: Table, id: string, row: Row, now: Instant)
    requires NothingExpiredHeld(c, now) && row.expires * MICROS > now
    ensures NothingExpiredHeld(c[id := row], now)
  {
  }

  /** What a cleaned table still shows as open has not expired. */
  lemma LiveInCleaned(t: Table, now: Instant, retention: nat, id: string)
    requires TableOk(t) && id in Cleanup(t, now, retention) && !Tombstone(Cleanup(t, now, retention)[id].status)
    ensures Cleanup(t, now, retention)[id].expires * MICROS > now
  {
    CleanedTable(t, now, retention);
  }

  // Every transaction that commits after it has cleaned the table.

  lemma AdmitExpires(limits: Limits, t: Table, request: Request, owner: string, now: Instant)
    requires TableOk(t) && Admit(limits, t, request, owner, now).1.Ok?
    ensures NothingExpiredHeld(Admit(limits, t, request, owner, now).0, now)
  {
    var c := Cleanup(t, now, limits.retention);
    CleanedTable(t, now, limits.retention);
    if request.id !in c { LiveRowRewritten(c, request.id, FreshRow(request, owner, now), now); }
  }

  lemma GetOwnedExpires(limits: Limits, t: Table, id: string, owner: string, digest: Option<Digest>, now: Instant)
    requires TableOk(t) && GetOwned(limits, t, id, owner, digest, now).1.Ok?
    ensures NothingExpiredHeld(GetOwned(limits, t, id, owner, digest, now).0, now)
  {
    CleanedTable(t, now, limits.retention);
  }

  lemma MarkInProgressExpires(limits: Limits, t: Table, id: string, attempt: nat, now: Instant)
    requires TableOk(t) && MarkInProgress(limits, t, id, attempt, now).1.Ok?
    ensures NothingExpiredHeld(MarkInProgress(limits, t, id, attempt, now).0, now)
  {
    var c := Cleanup(t, now, limits.retention);
    CleanedTable(t, now, limits.retention);
    LiveInCleaned(t, now, limits.retention, id);
    LiveRowRewritten(c, id, c[id].(status := InProgress, attempt := Some(attempt), updated := Seconds(now)), now);
  }

  lemma CompleteExpires(limits: Limits, t: Table, id: string, attempt: nat, output: Output, nonce: nat, now: Instant)
    requires TableOk(t) && Complete(limits, t, id, attempt, output, nonce, now).1.Ok?
    ensures NothingExpiredHeld(Complete(limits, t, id, attempt, output, nonce, now).0, now)
  {
    var c := Cleanup(t, now, limits.retention);
    CleanedTable(t, now, limits.retention);
    if OwnedBy(c, id, attempt) {
      LiveInCleaned(t, now, limits.retention, id);
      LiveRowRewritten(c, id, CompletedRow(c[id], id, output, nonce, now), now);
    }
  }

  lemma AcknowledgeExpires(limits: Limits, t: Table, id: string, owner: string, disposition: Disposition, now: Instant)
    requires TableOk(t) && Acknowledge(limits, t, id, owner, disposition, now).1.Ok?
    ensures NothingExpiredHeld(Acknowledge(limits, t, id, owner, disposition, now).0, now)
  {
    var c := Cleanup(t, now, limits.retention);
    CleanedTable(t, now, limits.retention);
    if c[id].status == Completed {
      LiveInCleaned(t, now, limits.retention, id);
      LiveRowRewritten(c, id, c[id].(status := Acknowledged, disposition := Some(disposition), mediaType := None,
                                     nonce := None, ciphertext := None, updated := Seconds(now)), now);
    }
  }

  lemma InterruptKeepsOk(t: Table, now: Instant)
    requires TableOk(t)
    ensures var interrupted: Table := map id | id in t :: Interrupt(t[id], now);
            TableOk(interrupted)
  {
  }

  lemma InitializeExpires(limits: Limits, t: Table, now: Instant)
    requires TableOk(t)
    ensures NothingExpiredHeld(Initialize(limits, t, now), now)
  {
    InterruptKeepsOk(t, now);
    var interrupted: Table := map id | id in t :: Interrupt(t[id], now);
    CleanedTable(interrupted, now, limits.retention);
  }

  // The same over the steps of the gateway.

  predicate OwnedRead(cfg: Config, s: State, tid: nat, now: Instant)
    requires tid in s.threads
  {
    var th := s.threads[tid];
    GetOwned(cfg.limits, s.rows, th.request.id, th.owner, Some(th.request.digest), now).1.Ok?
  }

  predicate Due(th: Thread, now: Instant) {
    th.request.digest.expires * MICROS <= now
  }

  predicate SettleCommits(cfg: Config, s: State, tid: nat, nonce: nat, now: Instant)
    requires tid in s.threads && s.threads[tid].pc.Returned? && s.threads[tid].pc.outcome.Produced?
  {
    var th := s.threads[tid];
    var output := Output(th.pc.outcome.mediaType, th.pc.outcome.content, s.release.deployment, s.release.policyVersion);
    Complete(cfg.limits, s.rows, th.request.id, th.pc.attempt, output, nonce, now).1.Ok?
  }

  /** The step runs a transaction that cleans the table, and that transaction commits. The updates of a fault or of a
      recovery do not clean, and a transaction that raises rolls back. */
  predicate Commits(cfg: Config, s: State, step: Step) {
    match step
    case Submit(tid, owner, request, now) =>
      tid !in s.threads && now < request.digest.expires * MICROS && request.digest.expires <= MaximumExpiry(now, cfg.lifetime)
      && Admit(cfg.limits, s.rows, request, owner, now).1.Ok?
    case Reload(tid, now) => tid in s.threads && s.threads[tid].pc.Reloading? && OwnedRead(cfg, s, tid, now)
    case Collect(tid, now) => tid in s.threads && s.threads[tid].pc.Collecting? && OwnedRead(cfg, s, tid, now)
    case Prepare(tid, now) =>
      tid in s.threads && s.threads[tid].pc.Preparing?
      && if Due(s.threads[tid], now) then OwnedRead(cfg, s, tid, now)
         else MarkInProgress(cfg.limits, s.rows, s.threads[tid].request.id, s.threads[tid].pc.attempt, now).1.Ok?
    case Dispatch(tid, now) =>
      tid in s.threads && s.threads[tid].pc.Marked? && Due(s.threads[tid], now) && OwnedRead(cfg, s, tid, now)
    case Settle(tid, nonce, now) =>
      tid in s.threads && s.threads[tid].pc.Returned? && s.threads[tid].pc.outcome.Produced? && SettleCommits(cfg, s, tid, nonce, now)
    case Ack(owner, id, disposition, now) => Acknowledge(cfg.limits, s.rows, id, owner, disposition, now).1.Ok?
    case Maintain(_) => true
    case Restart(_, _) => true
    case _ => false
  }

  lemma SubmitExpires(cfg: Config, s: State, tid: nat, owner: string, request: Request, now: Instant)
    requires TableOk(s.rows)
    ensures Commits(cfg, s, Submit(tid, owner, request, now)) ==> NothingExpiredHeld(DoSubmit(cfg, s, tid, owner, request, now).rows, now)
    ensures !Commits(cfg, s, Submit(tid, owner, request, now)) ==> DoSubmit(cfg, s, tid, owner, request, now).rows == s.rows
  {
    SubmitRows(cfg, s, tid, owner, request, now);
    if Commits(cfg, s, Submit(tid, owner, request, now)) { AdmitExpires(cfg.limits, s.rows, request, owner, now); }
  }

  lemma ReadExpires(cfg: Config, s: State, tid: nat, now: Instant)
    requires TableOk(s.rows) && tid in s.threads && OwnedRead(cfg, s, tid, now)
    ensures s.threads[tid].pc.Reloading? ==> NothingExpiredHeld(DoReload(cfg, s, tid, now).rows, now)
    ensures s.threads[tid].pc.Collecting? ==> NothingExpiredHeld(DoCollect(cfg, s, tid, now).rows, now)
    ensures forall a :: NothingExpiredHeld(Withdraw(cfg, s, tid, a, now).rows, now)
  {
    var th := s.threads[tid];
    GetOwnedExpires(cfg.limits, s.rows, th.request.id, th.owner, Some(th.request.digest), now);
  }

  lemma PrepareExpires(cfg: Config, s: State, tid: nat, now: Instant)
    requires TableOk(s.rows) && Commits(cfg, s, Prepare(tid, now))
    ensures NothingExpiredHeld(DoPrepare(cfg, s, tid, now).rows, now)
  {
    if Due(s.threads[tid], now) {
      ReadExpires(cfg, s, tid, now);
    } else {
      MarkInProgressExpires(cfg.limits, s.rows, s.threads[tid].request.id, s.threads[tid].pc.attempt, now);
    }
  }

  lemma SettleExpires(cfg: Config, s: State, tid: nat, nonce: nat, now: Instant)
    requires TableOk(s.rows) && Commits(cfg, s, Settle(tid, nonce, now))
    ensures NothingExpiredHeld(DoSettle(cfg, s, tid, nonce, now).rows, now)
  {
    var th := s.threads[tid];
    var output := Output(th.pc.outcome.mediaType, th.pc.outcome.content, s.release.deployment, s.release.policyVersion);
    CompleteExpires(cfg.limits, s.rows, th.request.id, th.pc.attempt, output, nonce, now);
  }

  /** A step whose transaction commits at `now` leaves no expired output behind. */
  lemma CommittedStepExpires(cfg: Config, s: State, step: Step)
    requires TableOk(s.rows) && Commits(cfg, s, step)
    ensures NothingExpiredHeld(Next(cfg, s, step).rows, step.now)
  {
    match step
    case Submit(tid, owner, request, now) => SubmitExpires(cfg, s, tid, owner, request, now);
    case Reload(tid, now) => ReadExpires(cfg, s, tid, now);
    case Collect(tid, now) => ReadExpires(cfg, s, tid, now);
    case Prepare(tid, now) => PrepareExpires(cfg, s, tid, now);
    case Dispatch(tid, now) => ReadExpires(cfg, s, tid, now);
    case Settle(tid, nonce, now) => SettleExpires(cfg, s, tid, nonce, now);
    case Ack(owner, id, disposition, now) => AcknowledgeExpires(cfg.limits, s.rows, id, owner, disposition, now);
    case Maintain(now) => CleanedTable(s.rows, now, cfg.limits.retention);
    case Restart(_, now) => InitializeExpires(cfg.limits, s.rows, now);
  }

  /** Moving along the edges of the life cycle gives no tombstone its output back. */
  lemma EvolvingHoldsNothing(t: Table, t': Table, now: Instant)
    requires Evolves(t, t') && NothingExpiredHeld(t, now)
    ensures NothingExpiredHeld(t', now)
  {
    forall id | id in t' && t'[id].expires * MICROS <= now ensures WithoutOutput(t'[id]) {
      assert Moves(t[id], t'[id]) && WithoutOutput(t[id]);
    }
  }

  /** A step without such a transaction does not bring expired output back either. */
  lemma OtherStepHoldsNothing(cfg: Config, s: State, step: Step, now: Instant)
    requires TableOk(s.rows) && NothingExpiredHeld(s.rows, now) && !Commits(cfg, s, step)
    ensures NothingExpiredHeld(Next(cfg, s, step).rows, now)
  {
    if step.Submit? {
      SubmitExpires(cfg, s, step.tid, step.owner, step.request, step.now);
    } else {
      NextEvolves(cfg, s, step);
      EvolvingHoldsNothing(s.rows, Next(cfg, s, step).rows, now);
    }
  }

  /** When the last transaction of the run that cleaned the table committed. */
  function LastCommit(cfg: Config, steps: seq<Step>): Option<Instant> {
    if steps == [] then None
    else
      var init, last := steps[..|steps| - 1], steps[|steps| - 1];
      if Commits(cfg, Run(cfg, init), last) then Some(last.now) else LastCommit(cfg, init)
  }

  /** At the end of every run, whatever its clock readings: a row that had expired when the last cleaning transaction
      committed is a tombstone, and holds neither ciphertext nor nonce nor media type. */
  lemma {:induction false} NoExpiredOutputSurvives(cfg: Config, steps: seq<Step>)
    ensures LastCommit(cfg, steps).Some? ==> NothingExpiredHeld(Run(cfg, steps).rows, LastCommit(cfg, steps).value)
  {
    if steps != [] {
      var init, last := steps[..|steps| - 1], steps[|steps| - 1];
      RunKeepsReplay(cfg, init);
      NoExpiredOutputSurvives(cfg, init);
      if Commits(cfg, Run(cfg, init), last) {
        CommittedStepExpires(cfg, Run(cfg, init), last);
      } else if LastCommit(cfg, init).Some? {
        OtherStepHoldsNothing(cfg, Run(cfg, init), last, LastCommit(cfg, init).value);
      }
    }
  }

  /** The cleanup compares stored texts. With the texts of a row's expiry and of its last update, a row is expired
      exactly when the text of its expiry is not after the text of `now`, and a tombstone is forgotten exactly when
      the text of its update is before the text of the cutoff. */
  lemma CleanupComparesTexts(row: Row, expires: DateTime, updated: DateTime, now: DateTime, cutoff: DateTime, retention: nat)
    requires Valid(expires) && Valid(updated) && Valid(now) && Valid(cutoff)
    requires row.expires == Timestamps.WholeSeconds(expires) && row.updated == Timestamps.WholeSeconds(updated)
    requires Micros(cutoff) == Micros(now) - retention * MICROS
    ensures ExpireRow(row, Micros(now)) != row <==> !Tombstone(row.status) && !Before(Timestamp(now), Timestamp(expires))
    ensures Forgotten(row, Micros(now), retention) <==> Tombstone(row.status) && Before(Timestamp(updated), Timestamp(cutoff))
    ensures ExpireRow(row, Micros(now)) != row ==> ExpireRow(row, Micros(now)).updated == Timestamps.WholeSeconds(now)
  {
    TextOrderIsChronological(now, expires);
    TextOrderIsChronological(updated, cutoff);
    assert Seconds(Micros(now)) == Timestamps.WholeSeconds(now);
    assert Seconds(Micros(cutoff)) == Timestamps.WholeSeconds(cutoff);
  }
}
