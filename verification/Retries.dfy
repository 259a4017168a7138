/** A request that the worker declined is worked on when it is repeated: the retry reaches the worker. */
module Retries {
  import opened Outcomes
  import opened RequestTable
  import opened Gateway
  import opened GatewayInvariant
  import opened Passages
  import opened Replay
  import opened Replies
  import opened Transactions

  /** The row is reserved for the request, and has not expired. */
  predicate Reserves(s: State, owner: string, r: Request, now: Instant) {
    && r.id in s.rows && r.id in s.born && s.rows[r.id].status == Reserved
    && s.rows[r.id].owner == owner && s.rows[r.id].digest == r.digest && s.rows[r.id].expires == r.digest.expires
    && r.digest.expires * 1_000_000 > now
  }

  /** The thread stands at the given point, with the request. */
  predicate Stands(s: State, tid: nat, owner: string, r: Request, pc: Pc) {
    tid in s.threads && s.threads[tid].owner == owner && s.threads[tid].request == r && s.threads[tid].pc == pc
  }

  /** The row is in progress under the attempt, for the request. */
  predicate Owns(s: State, owner: string, r: Request, attempt: nat) {
    && r.id in s.rows && r.id in s.born && s.rows[r.id].status == InProgress && s.rows[r.id].attempt == Some(attempt)
    && s.rows[r.id].owner == owner && s.rows[r.id].digest == r.digest && s.rows[r.id].expires == r.digest.expires
  }

  lemma RepeatIsAdmitted(cfg: Config, s: State, tid: nat, owner: string, r: Request, now: Instant)
    requires tid !in s.threads && Reserves(s, owner, r, now) && r.digest.expires <= MaximumExpiry(now, cfg.lifetime)
    ensures var s' := Next(cfg, s, Submit(tid, owner, r, now));
            && Stands(s', tid, owner, r, Claiming) && s'.lane == s.lane && s'.issued == s.issued && s'.log == s.log
            && s'.born == s.born && s'.release == s.release && r.id in s'.rows && s'.rows[r.id] == s.rows[r.id]
  {
    CleanupDecides(s.rows, now, cfg.limits.retention, r.id);
    var c := Cleanup(s.rows, now, cfg.limits.retention);
    assert DoSubmit(cfg, s, tid, owner, r, now) == Proceed(cfg, Arrival(s, c, tid, owner, r), tid, r.id, c[r.id], now);
  }

  lemma RepeatClaims(cfg: Config, s: State, tid: nat, owner: string, r: Request, attempt: nat)
    requires Stands(s, tid, owner, r, Claiming) && s.lane.None? && attempt !in s.issued
    ensures var s' := Next(cfg, s, Claim(tid, attempt));
            && Stands(s', tid, owner, r, Preparing(attempt)) && s'.log == s.log && s'.born == s.born && s'.rows == s.rows
            && s'.release == s.release && s'.lane == Some(Lane(tid, r.id, attempt))
  {
  }

  lemma RepeatIsMarked(cfg: Config, s: State, tid: nat, owner: string, r: Request, attempt: nat, now: Instant)
    requires Stands(s, tid, owner, r, Preparing(attempt)) && Reserves(s, owner, r, now)
    ensures var s' := Next(cfg, s, Prepare(tid, now));
            && Stands(s', tid, owner, r, Marked(attempt, s.born[r.id])) && Owns(s', owner, r, attempt)
            && s'.log == s.log && s'.born == s.born && s'.release == s.release && s'.lane == s.lane
  {
    CleanupDecides(s.rows, now, cfg.limits.retention, r.id);
  }

  lemma RepeatCallsTheWorker(cfg: Config, s: State, tid: nat, owner: string, r: Request, attempt: nat, row: nat, now: Instant)
    requires Stands(s, tid, owner, r, Marked(attempt, row)) && r.digest.expires * 1_000_000 > now
    ensures var s' := Next(cfg, s, Dispatch(tid, now));
            && Stands(s', tid, owner, r, Calling(attempt, row)) && s'.rows == s.rows && s'.born == s.born
            && s'.release == s.release && s'.lane == s.lane
            && s'.log == s.log + [Called(r.id, owner, r.digest, row, attempt)]
  {
  }

  /** Admitted, claiming, marked and dispatched one after the other. */
  function Repeated(cfg: Config, s: State, tid: nat, owner: string, r: Request, attempt: nat,
                    admitted: Instant, marked: Instant, dispatched: Instant): State {
    var claiming := Next(cfg, s, Submit(tid, owner, r, admitted));
    Next(cfg, Next(cfg, Next(cfg, claiming, Claim(tid, attempt)), Prepare(tid, marked)), Dispatch(tid, dispatched))
  }

  lemma RepeatedCalls(cfg: Config, s: State, tid: nat, owner: string, r: Request, attempt: nat,
                      admitted: Instant, marked: Instant, dispatched: Instant)
    requires tid !in s.threads && s.lane.None? && attempt !in s.issued
    requires Reserves(s, owner, r, admitted) && r.digest.expires <= MaximumExpiry(admitted, cfg.lifetime)
    requires r.digest.expires * 1_000_000 > marked && r.digest.expires * 1_000_000 > dispatched
    ensures Repeated(cfg, s, tid, owner, r, attempt, admitted, marked, dispatched).log
         == s.log + [Called(r.id, owner, r.digest, s.born[r.id], attempt)]
  {
    var s1 := Next(cfg, s, Submit(tid, owner, r, admitted));
    RepeatIsAdmitted(cfg, s, tid, owner, r, admitted);
    ClaimIsCalled(cfg, s1, tid, owner, r, attempt, marked, dispatched);
  }

  lemma ClaimIsCalled(cfg: Config, s: State, tid: nat, owner: string, r: Request, attempt: nat, marked: Instant, dispatched: Instant)
    requires Stands(s, tid, owner, r, Claiming) && s.lane.None? && attempt !in s.issued
    requires Reserves(s, owner, r, marked) && r.digest.expires * 1_000_000 > dispatched
    ensures var s' := Next(cfg, Next(cfg, Next(cfg, s, Claim(tid, attempt)), Prepare(tid, marked)), Dispatch(tid, dispatched));
            && s'.log == s.log + [Called(r.id, owner, r.digest, s.born[r.id], attempt)]
            && Stands(s', tid, owner, r, Calling(attempt, s.born[r.id])) && Owns(s', owner, r, attempt)
            && s'.release == s.release && s'.lane == Some(Lane(tid, r.id, attempt))
  {
    var s1 := Next(cfg, s, Claim(tid, attempt));
    RepeatClaims(cfg, s, tid, owner, r, attempt);
    RepeatIsMarked(cfg, s1, tid, owner, r, attempt, marked);
    RepeatCallsTheWorker(cfg, Next(cfg, s1, Prepare(tid, marked)), tid, owner, r, attempt, s.born[r.id], dispatched);
  }

  lemma RunRepeats(cfg: Config, steps: seq<Step>, s: State, tid: nat, owner: string, r: Request, attempt: nat,
                   admitted: Instant, marked: Instant, dispatched: Instant)
    requires s == Run(cfg, steps)
    ensures Run(cfg, steps + [Submit(tid, owner, r, admitted), Claim(tid, attempt)] + [Prepare(tid, marked), Dispatch(tid, dispatched)])
         == Repeated(cfg, s, tid, owner, r, attempt, admitted, marked, dispatched)
  {
    FourSteps(cfg, steps, Submit(tid, owner, r, admitted), Claim(tid, attempt), Prepare(tid, marked), Dispatch(tid, dispatched));
  }

  lemma FourSteps(cfg: Config, steps: seq<Step>, a: Step, b: Step, c: Step, d: Step)
    ensures Run(cfg, steps + [a, b] + [c, d]) == Next(cfg, Next(cfg, Next(cfg, Next(cfg, Run(cfg, steps), a), b), c), d)
  {
    TwoSteps(cfg, steps, a, b);
    TwoSteps(cfg, steps + [a, b], c, d);
  }

  /** A repeat of a reserved request, admitted, claiming the free lane, marked and dispatched in time, calls the worker. */
  lemma ReservedRequestsAreWorkedOn(cfg: Config, steps: seq<Step>, s: State, tid: nat, owner: string, r: Request, attempt: nat,
                                    admitted: Instant, marked: Instant, dispatched: Instant)
    requires s == Run(cfg, steps) && tid !in s.threads && s.lane.None? && attempt !in s.issued
    requires Reserves(s, owner, r, admitted) && r.digest.expires <= MaximumExpiry(admitted, cfg.lifetime)
    requires r.digest.expires * 1_000_000 > marked && r.digest.expires * 1_000_000 > dispatched
    ensures Run(cfg, steps + [Submit(tid, owner, r, admitted), Claim(tid, attempt)] + [Prepare(tid, marked), Dispatch(tid, dispatched)]).log
         == s.log + [Called(r.id, owner, r.digest, s.born[r.id], attempt)]
  {
    RunRepeats(cfg, steps, s, tid, owner, r, attempt, admitted, marked, dispatched);
    RepeatedCalls(cfg, s, tid, owner, r, attempt, admitted, marked, dispatched);
  }

  /** The attempt's row is in progress when its call comes back as unavailable. */
  predicate Declines(s: State, tid: nat) {
    && tid in s.threads && s.threads[tid].pc.Returned? && s.threads[tid].pc.outcome == Unavailable
    && OwnedBy(s.rows, s.threads[tid].request.id, s.threads[tid].pc.attempt)
  }

  /** The request that the row was inserted for. */
  function RowRequest(s: State, id: string): Request
    requires id in s.rows
  {
    Request(id, s.rows[id].digest)
  }

  lemma DeclinedIsReserved(cfg: Config, s: State, tid: nat, nonce: nat, now: Instant, later: Instant)
    requires Inv(s) && Declines(s, tid)
    requires s.rows[s.threads[tid].request.id].digest.expires * 1_000_000 > later
    ensures var th := s.threads[tid];
            var s' := Next(cfg, Next(cfg, s, Settle(tid, nonce, now)), Release(tid));
            && Reserves(s', s.rows[th.request.id].owner, RowRequest(s, th.request.id), later)
            && s'.lane.None? && s'.log == s.log && s'.born == s.born && s'.issued == s.issued && s'.threads.Keys == s.threads.Keys
            && s'.born[th.request.id] == th.pc.row
            && Stands(s', tid, th.owner, th.request, Finished(Failure("worker_unavailable", true, 503, Some(cfg.retryAfter))))
  {
    FaultReplies(cfg, s, tid, nonce, now);
    ReleaseReplies(DoSettle(cfg, s, tid, nonce, now), tid);
    assert Held(s, s.threads[tid].request.id);
  }

  /** After the worker declined a call, its row is reserved again, the caller is told to retry, and the lane is free; the
      next repeat by the row's credential that comes in time makes a second call for the same row. */
  lemma DeclinedRequestsAreRetried(cfg: Config, steps: seq<Step>, tid: nat, nonce: nat, settled: Instant, next: nat, attempt: nat,
                                   admitted: Instant, marked: Instant, dispatched: Instant)
    requires Declines(Run(cfg, steps), tid) && next !in Run(cfg, steps).threads && attempt !in Run(cfg, steps).issued
    requires var s := Run(cfg, steps);
             var expires := s.rows[s.threads[tid].request.id].digest.expires;
             && expires * 1_000_000 > admitted && expires <= MaximumExpiry(admitted, cfg.lifetime)
             && expires * 1_000_000 > marked && expires * 1_000_000 > dispatched
    ensures var s := Run(cfg, steps);
            var th := s.threads[tid];
            var row, r := s.rows[th.request.id], RowRequest(s, th.request.id);
            var after := steps + [Settle(tid, nonce, settled), Release(tid)];
            && Stands(Run(cfg, after), tid, th.owner, th.request,
                      Finished(Failure("worker_unavailable", true, 503, Some(cfg.retryAfter))))
            && Run(cfg, after + [Submit(next, row.owner, r, admitted), Claim(next, attempt)]
                              + [Prepare(next, marked), Dispatch(next, dispatched)]).log
               == s.log + [Called(r.id, row.owner, r.digest, th.pc.row, attempt)]
            && exists i :: 0 <= i < |s.log| && IsCall(s.log[i], th.pc.row, th.pc.attempt)
  {
    var s := Run(cfg, steps);
    var th := s.threads[tid];
    var after := steps + [Settle(tid, nonce, settled), Release(tid)];
    RunKeepsInv(cfg, steps);
    RunKeepsReplay(cfg, steps);
    assert Trail(s.log, th.pc);
    RunDeclines(cfg, steps, s, tid, nonce, settled, admitted);
    ReservedRequestsAreWorkedOn(cfg, after, Run(cfg, after), next, s.rows[th.request.id].owner, RowRequest(s, th.request.id), attempt,
                                admitted, marked, dispatched);
  }

  lemma RunDeclines(cfg: Config, steps: seq<Step>, s: State, tid: nat, nonce: nat, now: Instant, later: Instant)
    requires s == Run(cfg, steps) && Inv(s) && Declines(s, tid)
    requires s.rows[s.threads[tid].request.id].digest.expires * 1_000_000 > later
    ensures var th := s.threads[tid];
            var s' := Run(cfg, steps + [Settle(tid, nonce, now), Release(tid)]);
            && Reserves(s', s.rows[th.request.id].owner, RowRequest(s, th.request.id), later)
            && s'.lane.None? && s'.log == s.log && s'.issued == s.issued && s'.threads.Keys == s.threads.Keys
            && s'.born[th.request.id] == th.pc.row
            && Stands(s', tid, th.owner, th.request, Finished(Failure("worker_unavailable", true, 503, Some(cfg.retryAfter))))
  {
    TwoSteps(cfg, steps, Settle(tid, nonce, now), Release(tid));
    DeclinedIsReserved(cfg, s, tid, nonce, now, later);
  }
}
