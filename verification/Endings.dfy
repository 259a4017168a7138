/** Every call of the worker returns at most once. */
module Endings {
  import opened RequestTable
  import opened Gateway
  import opened GatewayInvariant
  import opened Replay

  /** The points of an attempt whose call has not returned. */
  predicate BeforeReturn(pc: Pc) {
    pc.Preparing? || pc.Marked? || pc.Calling?
  }

  ghost predicate EndedOnce(log: seq<Event>) {
    forall i, j :: 0 <= i < j < |log| && log[i].Ended? && log[j].Ended? ==> log[i].attempt != log[j].attempt
  }

  predicate Unended(log: seq<Event>, attempt: nat) {
    forall i :: 0 <= i < |log| && log[i].Ended? ==> log[i].attempt != attempt
  }

  ghost predicate EndInv(s: State) {
    && (forall i :: 0 <= i < |s.log| && s.log[i].Ended? ==> s.log[i].attempt in s.issued)
    && (forall tid :: tid in s.threads && BeforeReturn(s.threads[tid].pc) ==> Unended(s.log, s.threads[tid].pc.attempt))
    && EndedOnce(s.log)
  }

  /** The log grows, and no call returns. */
  ghost predicate NoReturn(log: seq<Event>, log': seq<Event>) {
    log <= log' && forall i :: |log| <= i < |log'| ==> !log'[i].Ended?
  }

  /** No call returns, and an attempt whose call has not returned is a fresh one or was there before. */
  ghost predicate EndsNothing(s: State, s': State) {
    && NoReturn(s.log, s'.log) && s.issued <= s'.issued
    && forall t :: t in s'.threads && BeforeReturn(s'.threads[t].pc) ==>
         || s'.threads[t].pc.attempt !in s.issued
         || (t in s.threads && BeforeReturn(s.threads[t].pc) && s'.threads[t].pc.attempt == s.threads[t].pc.attempt)
  }

  lemma EndsNothingKeepsEnds(s: State, s': State)
    requires EndInv(s) && EndsNothing(s, s')
    ensures EndInv(s')
  {
    assert forall i :: 0 <= i < |s'.log| && s'.log[i].Ended? ==> i < |s.log| && s'.log[i] == s.log[i];
    forall t | t in s'.threads && BeforeReturn(s'.threads[t].pc) ensures Unended(s'.log, s'.threads[t].pc.attempt) {
      if s'.threads[t].pc.attempt in s.issued { assert Unended(s.log, s.threads[t].pc.attempt); }
    }
  }

  /** One thread moves on from its place, with no call in progress afterwards that was not there before. */
  lemma MovesOnEndsNothing(s: State, s': State, tid: nat, pc: Pc)
    requires tid in s.threads && s'.threads == s.threads[tid := s.threads[tid].(pc := pc)]
    requires NoReturn(s.log, s'.log) && s.issued <= s'.issued
    requires BeforeReturn(pc) ==>
               pc.attempt !in s.issued || (BeforeReturn(s.threads[tid].pc) && pc.attempt == s.threads[tid].pc.attempt)
    ensures EndsNothing(s, s')
  {
  }

  lemma LaneStepsEndNothing(cfg: Config, s: State, step: Step)
    requires step.Claim? || step.Release?
    ensures EndsNothing(s, Next(cfg, s, step))
  {
    var s' := Next(cfg, s, step);
    if s' != s { MovesOnEndsNothing(s, s', step.tid, s'.threads[step.tid].pc); }
  }

  lemma WaitStepsEndNothing(cfg: Config, s: State, step: Step)
    requires step.Join? || step.Wake? || step.GiveUp?
    ensures EndsNothing(s, Next(cfg, s, step))
  {
    var s' := Next(cfg, s, step);
    if s' != s { MovesOnEndsNothing(s, s', step.tid, s'.threads[step.tid].pc); }
  }

  lemma ReadStepsEndNothing(cfg: Config, s: State, tid: nat, now: Instant)
    requires tid in s.threads
    ensures s.threads[tid].pc.Reloading? ==> EndsNothing(s, DoReload(cfg, s, tid, now))
    ensures s.threads[tid].pc.Collecting? ==> EndsNothing(s, DoCollect(cfg, s, tid, now))
  {
    if s.threads[tid].pc.Reloading? {
      var pc, reply := ReloadCases(cfg, s, tid, now);
      MovesOnEndsNothing(s, DoReload(cfg, s, tid, now), tid, pc);
    }
    if s.threads[tid].pc.Collecting? {
      var pc, reply := CollectCases(cfg, s, tid, now);
      MovesOnEndsNothing(s, DoCollect(cfg, s, tid, now), tid, pc);
    }
  }

  lemma PrepareEndsNothing(cfg: Config, s: State, tid: nat, now: Instant)
    requires tid in s.threads && s.threads[tid].pc.Preparing?
    ensures EndsNothing(s, DoPrepare(cfg, s, tid, now))
  {
    var s' := DoPrepare(cfg, s, tid, now);
    MovesOnEndsNothing(s, s', tid, s'.threads[tid].pc);
  }

  lemma DispatchEndsNothing(cfg: Config, s: State, tid: nat, now: Instant)
    requires tid in s.threads && s.threads[tid].pc.Marked?
    ensures EndsNothing(s, DoDispatch(cfg, s, tid, now))
  {
    var s' := DoDispatch(cfg, s, tid, now);
    MovesOnEndsNothing(s, s', tid, s'.threads[tid].pc);
  }

  lemma SettleEndsNothing(cfg: Config, s: State, tid: nat, nonce: nat, now: Instant)
    requires tid in s.threads && s.threads[tid].pc.Returned?
    ensures EndsNothing(s, DoSettle(cfg, s, tid, nonce, now))
  {
    var s' := DoSettle(cfg, s, tid, nonce, now);
    MovesOnEndsNothing(s, s', tid, s'.threads[tid].pc);
  }

  lemma LandsEndsNothing(s: State, s': State, c: Table, tid: nat)
    requires tid !in s.threads && Lands(s, s', c, tid)
    ensures EndsNothing(s, s')
  {
  }

  lemma SubmitEndsNothing(cfg: Config, s: State, tid: nat, owner: string, request: Request, now: Instant)
    requires tid !in s.threads
    ensures EndsNothing(s, DoSubmit(cfg, s, tid, owner, request, now))
  {
    SubmitLands(cfg, s, tid, owner, request, now);
    LandsEndsNothing(s, DoSubmit(cfg, s, tid, owner, request, now), Cleanup(s.rows, now, cfg.limits.retention), tid);
  }

  /** Only the return of a call ends it. */
  lemma OthersEndNothing(cfg: Config, s: State, step: Step)
    requires !step.Return?
    ensures EndsNothing(s, Next(cfg, s, step))
  {
    match step
    case Submit(tid, owner, request, now) => if tid !in s.threads { SubmitEndsNothing(cfg, s, tid, owner, request, now); }
    case Claim(_, _) => LaneStepsEndNothing(cfg, s, step);
    case Release(_) => LaneStepsEndNothing(cfg, s, step);
    case Join(_) => WaitStepsEndNothing(cfg, s, step);
    case Wake(_) => WaitStepsEndNothing(cfg, s, step);
    case GiveUp(_) => WaitStepsEndNothing(cfg, s, step);
    case Reload(tid, now) => if tid in s.threads { ReadStepsEndNothing(cfg, s, tid, now); }
    case Collect(tid, now) => if tid in s.threads { ReadStepsEndNothing(cfg, s, tid, now); }
    case Prepare(tid, now) => if tid in s.threads && s.threads[tid].pc.Preparing? { PrepareEndsNothing(cfg, s, tid, now); }
    case Dispatch(tid, now) => if tid in s.threads && s.threads[tid].pc.Marked? { DispatchEndsNothing(cfg, s, tid, now); }
    case Settle(tid, nonce, now) =>
      if tid in s.threads && s.threads[tid].pc.Returned? { SettleEndsNothing(cfg, s, tid, nonce, now); }
    case _ =>
  }

  lemma ReturnKeepsEnds(s: State, tid: nat, outcome: Outcome)
    requires LaneInv(s) && EndInv(s)
    ensures EndInv(DoReturn(s, tid, outcome))
  {
    if tid in s.threads && s.threads[tid].pc.Calling? {
      var a := s.threads[tid].pc.attempt;
      var s' := DoReturn(s, tid, outcome);
      assert forall i :: 0 <= i < |s.log| ==> s'.log[i] == s.log[i];
      assert Unended(s.log, a);
      assert forall t :: t in s'.threads ==> !BeforeReturn(s'.threads[t].pc);
    }
  }

  lemma {:induction false} RunKeepsEnds(cfg: Config, steps: seq<Step>)
    ensures EndInv(Run(cfg, steps))
  {
    if steps != [] {
      var init, last := steps[..|steps| - 1], steps[|steps| - 1];
      RunKeepsEnds(cfg, init);
      RunKeepsInv(cfg, init);
      if last.Return? {
        ReturnKeepsEnds(Run(cfg, init), last.tid, last.outcome);
      } else {
        OthersEndNothing(cfg, Run(cfg, init), last);
        EndsNothingKeepsEnds(Run(cfg, init), Run(cfg, steps));
      }
    }
  }
}
