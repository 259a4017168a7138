/** What the invariant says about the lane, about joiners and about expiry, in every run. */
module Lanes {
  import opened Outcomes
  import opened RequestTable
  import opened RowLaws
  import opened Gateway
  import opened GatewayInvariant
  import opened Replay

  /** In every run: at most one thread owns the lane; at most one row is in progress, and it is the lane
      owner's, under its attempt; with the lane free nothing is in progress; an owner about to release
      has its outcome committed; and no finished attempt has a row in progress. */
  lemma LaneAndRowsAgree(cfg: Config, steps: seq<Step>)
    ensures var s := Run(cfg, steps);
            && (forall t, u :: t in s.threads && u in s.threads && s.threads[t].pc.OwnsLane() && s.threads[u].pc.OwnsLane() ==> t == u)
            && (forall x, y :: x in s.rows && y in s.rows && s.rows[x].status == InProgress && s.rows[y].status == InProgress ==> x == y)
            && (forall x :: x in s.rows && s.rows[x].status == InProgress ==>
                  exists t :: t in s.threads && s.threads[t].pc.MayHoldRow() && s.threads[t].request.id == x
                              && s.rows[x].attempt == Some(s.threads[t].pc.attempt))
            && (s.lane.None? ==> forall x :: x in s.rows ==> s.rows[x].status != InProgress)
            && (forall t, x :: t in s.threads && s.threads[t].pc.Releasing? && x in s.rows ==> s.rows[x].status != InProgress)
            && (forall x :: x in s.rows && s.rows[x].status == InProgress ==> s.rows[x].attempt.Some? && s.rows[x].attempt.value !in s.finished)
  {
    RunKeepsInv(cfg, steps);
    var s := Run(cfg, steps);
    assert forall x :: x in s.rows && s.rows[x].status == InProgress ==> Held(s, x);
  }

  /** In every run, a call of the worker for a row that may have reached the model is the last one for it. */
  lemma RowsExecuteOnce(cfg: Config, steps: seq<Step>)
    ensures AtMostOnce(Run(cfg, steps).log)
  {
    RunKeepsInv(cfg, steps);
  }

  ghost predicate WokenInv(s: State) {
    forall tid :: tid in s.threads ==> Woken(s, s.threads[tid].pc)
  }

  lemma CallKeepsWoken(cfg: Config, s: State, tid: nat, outcome: Outcome, now: Instant)
    requires WokenInv(s)
    ensures WokenInv(DoDispatch(cfg, s, tid, now)) && WokenInv(DoReturn(s, tid, outcome))
  {
  }

  lemma {:induction false} RunKeepsWoken(cfg: Config, steps: seq<Step>)
    ensures WokenInv(Run(cfg, steps))
  {
    if steps != [] {
      var s, step := Run(cfg, steps[..|steps| - 1]), steps[|steps| - 1];
      RunKeepsWoken(cfg, steps[..|steps| - 1]);
      match step
      case Dispatch(tid, now) => CallKeepsWoken(cfg, s, tid, Unknown, now);
      case Return(tid, outcome) => CallKeepsWoken(cfg, s, tid, outcome, 0);
      case Maintain(_) =>
      case Ack(_, _, _, _) =>
      case Restart(_, _) =>
      case _ => NextStays(cfg, s, step);
    }
  }

  lemma ReadBackRow(cfg: Config, s: State, tid: nat, now: Instant)
    requires tid in s.threads && s.threads[tid].pc.Reloading?
    ensures var th := s.threads[tid];
            var (t, result) := GetOwned(cfg.limits, s.rows, th.request.id, th.owner, Some(th.request.digest), now);
            var s' := DoReload(cfg, s, tid, now);
            && s'.threads[tid].pc.Finished?
            && (result.Ok? && ExistingResponse(th.request.id, result.value).Some? ==>
                  s'.threads[tid].pc.reply == ExistingResponse(th.request.id, result.value).value)
            && (forall i :: |s.log| <= i < |s'.log| ==> s'.log[i].Answered?)
  {
  }

  /** A joiner that woke from attempt a, in any run, never sees its row in progress under a. */
  lemma WokenAttemptIsSettled(cfg: Config, steps: seq<Step>, tid: nat, now: Instant)
    requires tid in Run(cfg, steps).threads
    requires Run(cfg, steps).threads[tid].pc.Reloading? && Run(cfg, steps).threads[tid].pc.woken.Some?
    ensures var s := Run(cfg, steps);
            var id, a := s.threads[tid].request.id, s.threads[tid].pc.woken.value;
            !OwnedBy(s.rows, id, a) && !OwnedBy(Cleanup(s.rows, now, cfg.limits.retention), id, a)
  {
    var s := Run(cfg, steps);
    RunKeepsInv(cfg, steps);
    RunKeepsWoken(cfg, steps);
    assert Woken(s, s.threads[tid].pc);
    CleanupIsQuieter(s.rows, now, cfg.limits.retention);
    assert forall x :: x in s.rows && s.rows[x].status == InProgress ==> Held(s, x);
  }

  /** The caller may read the row, and it is completed once the table is cleaned. */
  predicate Readable(cfg: Config, s: State, th: Thread, now: Instant) {
    var c := Cleanup(s.rows, now, cfg.limits.retention);
    th.request.id in c && c[th.request.id].status == Completed
    && c[th.request.id].owner == th.owner && c[th.request.id].digest == th.request.digest
  }

  lemma ReadableIsRead(cfg: Config, s: State, th: Thread, now: Instant)
    requires Readable(cfg, s, th, now)
    ensures th.request.id in s.rows && s.rows[th.request.id].status == Completed
    ensures GetOwned(cfg.limits, s.rows, th.request.id, th.owner, Some(th.request.digest), now).1 == Ok(s.rows[th.request.id])
  {
    CleanupEvolves(s.rows, now, cfg.limits.retention);
  }

  /** A joiner that reads back a completed row of its own request finishes, without any call of the
      worker, with the answer that every caller of that row ever got, the owner among them. */
  lemma JoinersAgreeWithTheOwner(cfg: Config, steps: seq<Step>, tid: nat, now: Instant)
    requires tid in Run(cfg, steps).threads && Run(cfg, steps).threads[tid].pc.Reloading?
    requires Readable(cfg, Run(cfg, steps), Run(cfg, steps).threads[tid], now)
    ensures var s, s' := Run(cfg, steps), DoReload(cfg, Run(cfg, steps), tid, now);
            var id := s.threads[tid].request.id;
            && s'.threads[tid].pc.Finished? && s'.threads[tid].pc.reply.Answer? && id in s.born
            && (forall i :: |s.log| <= i < |s'.log| ==> !s'.log[i].Called?)
            && forall i :: 0 <= i < |s.log| && s.log[i].Answered? && s.log[i].row == s.born[id] ==>
                 s.log[i].response == s'.threads[tid].pc.reply.response
  {
    RunKeepsInv(cfg, steps);
    RunKeepsReplay(cfg, steps);
    JoinerReads(cfg, Run(cfg, steps), tid, now);
  }

  lemma JoinerReads(cfg: Config, s: State, tid: nat, now: Instant)
    requires s.rows.Keys <= s.born.Keys && ReplayInv(s)
    requires tid in s.threads && s.threads[tid].pc.Reloading? && Readable(cfg, s, s.threads[tid], now)
    ensures var s' := DoReload(cfg, s, tid, now);
            var id := s.threads[tid].request.id;
            && s'.threads[tid].pc.Finished? && s'.threads[tid].pc.reply.Answer? && id in s.born
            && (forall i :: |s.log| <= i < |s'.log| ==> !s'.log[i].Called?)
            && forall i :: 0 <= i < |s.log| && s.log[i].Answered? && s.log[i].row == s.born[id] ==>
                 s.log[i].response == s'.threads[tid].pc.reply.response
  {
    var id := s.threads[tid].request.id;
    ReadableIsRead(cfg, s, s.threads[tid], now);
    assert CompletedOk(s, id);
    AnswersAgree(s, id, ExistingResponse(id, s.rows[id]).value.response);
    ReadBackRow(cfg, s, tid, now);
  }
}
