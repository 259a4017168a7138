/** The gateway as a state machine: any number of request threads run the inference operation against
    one shared lane and one durable table. A step names the next atomic step together with everything
    the environment decides in it (clock readings, fresh attempt ids, the worker's outcome), so every
    interleaving, retry, crash and restart is a sequence of steps. A step that is not enabled does nothing. */
module Gateway {
  import opened Outcomes
  import opened RequestTable

  /** The provenance that a process stores beside a result: its deployment, and the task policy version of its code. */
  datatype Provenance = Provenance(deployment: string, policyVersion: nat)

  datatype Config = Config(limits: Limits, lifetime: nat, retryAfter: nat, release: Provenance)

  /** How one call of the worker ended. OtherFault is any exception outside the worker's own taxonomy. */
  datatype Outcome = Produced(mediaType: string, content: string) | Unavailable | Unknown | Invalid | OtherFault

  datatype Response = Response(id: string, mediaType: string, content: string, policyVersion: nat, deployment: string)

  /** What the inference operation returns or raises. */
  datatype Reply =
    | Answer(response: Response)
    | Failure(code: string, retryable: bool, http: nat, retryAfter: Option<nat>)
    | Raised(error: StoreError)

  /** Where a thread stands. The attempt id names the claim of the lane, one is drawn for every claim;
      `row` is the position in the log at which the row that the attempt marked was inserted. */
  datatype Pc =
    | Claiming
    | Joining
    | Waiting(awaited: nat)
    | Reloading(woken: Option<nat>)
    | Preparing(attempt: nat)
    | Marked(attempt: nat, row: nat)
    | Calling(attempt: nat, row: nat)
    | Returned(attempt: nat, row: nat, outcome: Outcome)
    | Collecting(attempt: nat, row: nat)
    | Recovering(attempt: nat)
    | Releasing(attempt: nat, reply: Reply)
    | Finished(reply: Reply)
  {
    predicate OwnsLane() {
      Preparing? || Marked? || Calling? || Returned? || Collecting? || Recovering? || Releasing?
    }

    /** The points at which the row the attempt marked may still be in progress. */
    predicate MayHoldRow() {
      Marked? || Calling? || Returned? || Recovering?
    }
  }

  /** `admitted` is the position in the log at which the row the thread was admitted to was inserted. */
  datatype Thread = Thread(owner: string, request: Request, admitted: nat, pc: Pc)

  datatype Lane = Lane(tid: nat, id: string, attempt: nat)

  /** The history: one entry per inserted row, per call of the worker, per return of such a call, per
      persisted result, and per completed result read back for a caller. */
  datatype Event =
    | Inserted(id: string, owner: string, digest: Digest, at: int)
    | Called(id: string, owner: string, digest: Digest, row: nat, attempt: nat)
    | Ended(attempt: nat, outcome: Outcome)
    | Stored(row: nat, attempt: nat, release: Provenance, at: int)
    | Answered(row: nat, response: Response, at: int)

  /** `born` gives for every id the position in the log of its latest insertion. */
  datatype State = State(
    rows: Table,
    born: map<string, nat>,
    lane: Option<Lane>,
    issued: set<nat>,
    finished: set<nat>,
    threads: map<nat, Thread>,
    release: Provenance,
    log: seq<Event>)

  datatype Step =
    | Submit(tid: nat, owner: string, request: Request, now: Instant)
    | Claim(tid: nat, attempt: nat)
    | Join(tid: nat)
    | Wake(tid: nat)
    | GiveUp(tid: nat)
    | Reload(tid: nat, now: Instant)
    | Prepare(tid: nat, now: Instant)
    | Dispatch(tid: nat, now: Instant)
    | Return(tid: nat, outcome: Outcome)
    | Settle(tid: nat, nonce: nat, now: Instant)
    | Collect(tid: nat, now: Instant)
    | Recover(tid: nat, now: Instant)
    | Release(tid: nat)
    | Maintain(now: Instant)
    | Ack(owner: string, id: string, disposition: Disposition, now: Instant)
    | Restart(release: Provenance, now: Instant)

  function Busy(cfg: Config): Reply { Failure("capacity_limited", true, 429, Some(cfg.retryAfter)) }
  function TimedOut(cfg: Config): Reply { Failure("inference_timeout", true, 504, Some(cfg.retryAfter)) }
  function NoWorker(cfg: Config): Reply { Failure("worker_unavailable", true, 503, Some(cfg.retryAfter)) }
  const TooLate: Reply := Failure("request_expired", false, 409, None)

  /** The latest whole-second expiry a request may carry: now plus the lifetime, rounded up. */
  function MaximumExpiry(now: Instant, lifetime: nat): int {
    var latest := now + lifetime * MICROS;
    if latest % MICROS != 0 then Seconds(latest) + 1 else Seconds(latest)
  }

  /** The reply for a row that needs no further work; None for a row that is still open. */
  function ExistingResponse(id: string, row: Row): Option<Reply> {
    match row.status
    case Completed =>
      if row.deployment.None? || row.policyVersion.None? || row.nonce.None? || row.ciphertext.None? then
        Some(Failure("invalid_worker_output", false, 500, None))
      else
        (match Decrypt(row.nonce.value, row.ciphertext.value, Binding(id, row.owner, row.digest))
         case None => Some(Failure("invalid_worker_output", false, 500, None))
         case Some(content) =>
           var mediaType := if row.mediaType.Some? then row.mediaType.value else "";
           Some(Answer(Response(id, mediaType, content, row.policyVersion.value, row.deployment.value))))
    case Failed =>
      if row.error.Some? then
        Some(Failure(if row.error.value.code == "" then "invalid_worker_output" else row.error.value.code,
                     row.error.value.retryable, 502, row.error.value.retryAfter))
      else Some(Failure("invalid_worker_output", false, 502, None))
    case Expired => Some(TooLate)
    case Acknowledged => Some(Failure("unknown_request", false, 410, None))
    case _ => None
  }

  function Move(s: State, tid: nat, pc: Pc): State
    requires tid in s.threads
  {
    s.(threads := s.threads[tid := s.threads[tid].(pc := pc)])
  }

  /** A completed result read back for a caller enters the log; other replies do not. */
  function Record(s: State, id: string, reply: Reply, now: Instant): State {
    if reply.Answer? && id in s.born then s.(log := s.log + [Answered(s.born[id], reply.response, Seconds(now))]) else s
  }

  /** A thread that is refused before it reaches a row. */
  function TurnAway(s: State, tid: nat, owner: string, request: Request, reply: Reply): State {
    s.(threads := s.threads[tid := Thread(owner, request, 0, Finished(reply))])
  }

  /** A fresh row is inserted into the cleaned table c for the new thread. */
  function Insertion(s: State, c: Table, tid: nat, owner: string, request: Request, now: Instant): State {
    s.(rows := c[request.id := FreshRow(request, owner, now)],
       born := s.born[request.id := |s.log|],
       log := s.log + [Inserted(request.id, owner, request.digest, Seconds(now))],
       threads := s.threads[tid := Thread(owner, request, |s.log|, Claiming)])
  }

  /** The new thread is admitted to the row that is already in the cleaned table c. */
  function Arrival(s: State, c: Table, tid: nat, owner: string, request: Request): State {
    var at := if request.id in s.born then s.born[request.id] else 0;
    s.(rows := c, threads := s.threads[tid := Thread(owner, request, at, Claiming)])
  }

  /** How an admitted thread goes on, by the status of its row. */
  function Proceed(cfg: Config, s: State, tid: nat, id: string, row: Row, now: Instant): State
    requires tid in s.threads
  {
    match ExistingResponse(id, row)
    case Some(reply) => Record(Move(s, tid, Finished(reply)), id, reply, now)
    case None =>
      if row.status == InProgress then Move(s, tid, Joining)
      else if row.status == Ambiguous then Move(s, tid, Finished(TimedOut(cfg)))
      else s
  }

  /** Policy check and admission of a request, with one clock reading. */
  function DoSubmit(cfg: Config, s: State, tid: nat, owner: string, request: Request, now: Instant): State {
    if tid in s.threads then s
    else if request.digest.expires * MICROS <= now then TurnAway(s, tid, owner, request, TooLate)
    else if request.digest.expires > MaximumExpiry(now, cfg.lifetime) then
      TurnAway(s, tid, owner, request, Failure("invalid_request", false, 422, None))
    else
      var (t, result) := Admit(cfg.limits, s.rows, request, owner, now);
      match result
      case Err(e) => TurnAway(s, tid, owner, request, Refusal(cfg, e))
      case Ok(row) =>
        var c := Cleanup(s.rows, now, cfg.limits.retention);
        if request.id in c then
          Proceed(cfg, Arrival(s, t, tid, owner, request), tid, request.id, row, now)
        else
          Proceed(cfg, Insertion(s, c, tid, owner, request, now), tid, request.id, row, now)
  }

  function Refusal(cfg: Config, error: StoreError): Reply {
    match error
    case CapacityLimited => Busy(cfg)
    case RequestExpired => TooLate
    case Forbidden => Failure("forbidden", false, 403, None)
    case IdentityConflict => Failure("invalid_request", false, 409, None)
    case e => Raised(e)
  }

  function DoClaim(cfg: Config, s: State, tid: nat, attempt: nat): State {
    if tid !in s.threads || !s.threads[tid].pc.Claiming? || attempt in s.issued then s
    else
      var id := s.threads[tid].request.id;
      match s.lane
      case None =>
        Move(s.(lane := Some(Lane(tid, id, attempt)), issued := s.issued + {attempt}), tid, Preparing(attempt))
      case Some(lane) =>
        if lane.id == id then Move(s, tid, Waiting(lane.attempt)) else Move(s, tid, Finished(Busy(cfg)))
  }

  function DoJoin(s: State, tid: nat): State {
    if tid !in s.threads || !s.threads[tid].pc.Joining? then s
    else if s.lane.Some? && s.lane.value.id == s.threads[tid].request.id then
      Move(s, tid, Waiting(s.lane.value.attempt))
    else Move(s, tid, Reloading(None))
  }

  function DoWake(s: State, tid: nat): State {
    if tid in s.threads && s.threads[tid].pc.Waiting? && s.threads[tid].pc.awaited in s.finished then
      Move(s, tid, Reloading(Some(s.threads[tid].pc.awaited)))
    else s
  }

  function DoGiveUp(cfg: Config, s: State, tid: nat): State {
    if tid in s.threads && s.threads[tid].pc.Waiting? then Move(s, tid, Finished(TimedOut(cfg))) else s
  }

  function DoReload(cfg: Config, s: State, tid: nat, now: Instant): State {
    if tid !in s.threads || !s.threads[tid].pc.Reloading? then s
    else
      var th := s.threads[tid];
      var (t, result) := GetOwned(cfg.limits, s.rows, th.request.id, th.owner, Some(th.request.digest), now);
      match result
      case Err(e) => Move(s, tid, Finished(Raised(e)))
      case Ok(row) =>
        var reply := match ExistingResponse(th.request.id, row)
                     case Some(r) => r
                     case None => if row.status == Reserved then NoWorker(cfg) else TimedOut(cfg);
        Record(Move(s.(rows := t), tid, Finished(reply)), th.request.id, reply, now)
  }

  /** The first expiry check of the owner, then the reserved row is marked in progress. */
  function DoPrepare(cfg: Config, s: State, tid: nat, now: Instant): State {
    if tid !in s.threads || !s.threads[tid].pc.Preparing? then s
    else
      var th := s.threads[tid];
      var a := th.pc.attempt;
      if th.request.digest.expires * MICROS <= now then Withdraw(cfg, s, tid, a, now)
      else
        var (t, result) := MarkInProgress(cfg.limits, s.rows, th.request.id, a, now);
        match result
        case Err(_) => Move(s, tid, Recovering(a))
        case Ok(_) =>
          Move(s.(rows := t), tid, Marked(a, if th.request.id in s.born then s.born[th.request.id] else 0))
  }

  /** The owner found its request expired: the row is read back, which also cleans the table. */
  function Withdraw(cfg: Config, s: State, tid: nat, attempt: nat, now: Instant): State
    requires tid in s.threads
  {
    var th := s.threads[tid];
    var (t, result) := GetOwned(cfg.limits, s.rows, th.request.id, th.owner, Some(th.request.digest), now);
    match result
    case Err(_) => Move(s, tid, Recovering(attempt))
    case Ok(_) => Move(s.(rows := t), tid, Releasing(attempt, TooLate))
  }

  /** The second expiry check, then the call of the worker. */
  function DoDispatch(cfg: Config, s: State, tid: nat, now: Instant): State {
    if tid !in s.threads || !s.threads[tid].pc.Marked? then s
    else
      var th := s.threads[tid];
      var a := th.pc.attempt;
      if th.request.digest.expires * MICROS <= now then Withdraw(cfg, s, tid, a, now)
      else
        Move(s.(log := s.log + [Called(th.request.id, th.owner, th.request.digest, th.pc.row, a)]), tid, Calling(a, th.pc.row))
  }

  function DoReturn(s: State, tid: nat, outcome: Outcome): State {
    if tid !in s.threads || !s.threads[tid].pc.Calling? then s
    else
      var pc := s.threads[tid].pc;
      Move(s.(log := s.log + [Ended(pc.attempt, outcome)]), tid, Returned(pc.attempt, pc.row, outcome))
  }

  /** What a call that produced nothing means for the row. */
  function FaultTable(t: Table, id: string, attempt: nat, outcome: Outcome, now: Instant): Table {
    match outcome
    case Unavailable => ResetReserved(t, id, attempt, now)
    case Invalid => MarkFailed(t, id, attempt, RowError("invalid_worker_output", false, None), now)
    case _ => MarkAmbiguous(t, id, attempt, now)
  }

  function FaultReply(cfg: Config, outcome: Outcome): Reply {
    match outcome
    case Unavailable => NoWorker(cfg)
    case Invalid => Failure("invalid_worker_output", false, 502, None)
    case _ => TimedOut(cfg)
  }

  /** The owner commits what the worker's outcome means for the row. */
  function DoSettle(cfg: Config, s: State, tid: nat, nonce: nat, now: Instant): State {
    if tid !in s.threads || !s.threads[tid].pc.Returned? then s
    else
      var th := s.threads[tid];
      var id := th.request.id;
      var a := th.pc.attempt;
      if !th.pc.outcome.Produced? then
        Move(s.(rows := FaultTable(s.rows, id, a, th.pc.outcome, now)), tid, Releasing(a, FaultReply(cfg, th.pc.outcome)))
      else
        var output := Output(th.pc.outcome.mediaType, th.pc.outcome.content, s.release.deployment, s.release.policyVersion);
        var (t, result) := Complete(cfg.limits, s.rows, id, a, output, nonce, now);
        match result
        case Err(_) => Move(s, tid, Recovering(a))
        case Ok(stored) =>
          if stored then
            Move(s.(rows := t, log := s.log + [Stored(th.pc.row, a, s.release, Seconds(now))]), tid, Collecting(a, th.pc.row))
          else
            Move(s.(rows := t), tid, Releasing(a, TooLate))
  }

  function DoCollect(cfg: Config, s: State, tid: nat, now: Instant): State {
    if tid !in s.threads || !s.threads[tid].pc.Collecting? then s
    else
      var th := s.threads[tid];
      var a := th.pc.attempt;
      var (t, result) := GetOwned(cfg.limits, s.rows, th.request.id, th.owner, Some(th.request.digest), now);
      match result
      case Err(_) => Move(s, tid, Recovering(a))
      case Ok(row) =>
        var reply := match ExistingResponse(th.request.id, row)
                     case Some(r) => r
                     case None => Failure("invalid_worker_output", false, 500, None);
        Record(Move(s.(rows := t), tid, Releasing(a, reply)), th.request.id, reply, now)
  }

  /** A rejected store transition on the owner's path: the row, if still the attempt's, becomes ambiguous. */
  function DoRecover(cfg: Config, s: State, tid: nat, now: Instant): State {
    if tid !in s.threads || !s.threads[tid].pc.Recovering? then s
    else
      var th := s.threads[tid];
      var a := th.pc.attempt;
      Move(s.(rows := MarkAmbiguous(s.rows, th.request.id, a, now)), tid, Releasing(a, TimedOut(cfg)))
  }

  function DoRelease(s: State, tid: nat): State {
    if tid !in s.threads || !s.threads[tid].pc.Releasing? then s
    else
      var pc := s.threads[tid].pc;
      var own := s.lane.Some? && s.lane.value.tid == tid && s.lane.value.attempt == pc.attempt;
      Move(s.(finished := s.finished + {pc.attempt}, lane := if own then None else s.lane), tid, Finished(pc.reply))
  }

  function DoAck(cfg: Config, s: State, owner: string, id: string, disposition: Disposition, now: Instant): State {
    s.(rows := Acknowledge(cfg.limits, s.rows, id, owner, disposition, now).0)
  }

  /** A crash or stop loses every thread and the lane; start-up then initializes the table. */
  function DoRestart(cfg: Config, s: State, release: Provenance, now: Instant): State {
    s.(rows := Initialize(cfg.limits, s.rows, now), lane := None, threads := map[], release := release)
  }

  function Next(cfg: Config, s: State, step: Step): State {
    match step
    case Submit(tid, owner, request, now) => DoSubmit(cfg, s, tid, owner, request, now)
    case Claim(tid, attempt) => DoClaim(cfg, s, tid, attempt)
    case Join(tid) => DoJoin(s, tid)
    case Wake(tid) => DoWake(s, tid)
    case GiveUp(tid) => DoGiveUp(cfg, s, tid)
    case Reload(tid, now) => DoReload(cfg, s, tid, now)
    case Prepare(tid, now) => DoPrepare(cfg, s, tid, now)
    case Dispatch(tid, now) => DoDispatch(cfg, s, tid, now)
    case Return(tid, outcome) => DoReturn(s, tid, outcome)
    case Settle(tid, nonce, now) => DoSettle(cfg, s, tid, nonce, now)
    case Collect(tid, now) => DoCollect(cfg, s, tid, now)
    case Recover(tid, now) => DoRecover(cfg, s, tid, now)
    case Release(tid) => DoRelease(s, tid)
    case Maintain(now) => s.(rows := Cleanup(s.rows, now, cfg.limits.retention))
    case Ack(owner, id, disposition, now) => DoAck(cfg, s, owner, id, disposition, now)
    case Restart(release, now) => DoRestart(cfg, s, release, now)
  }

  /** A fresh database and a process that has not served any request yet. */
  function Start(cfg: Config): State {
    State(map[], map[], None, {}, {}, map[], cfg.release, [])
  }

  /** The state after a whole run. */
  function Run(cfg: Config, steps: seq<Step>): State {
    if steps == [] then Start(cfg) else Next(cfg, Run(cfg, steps[..|steps| - 1]), steps[|steps| - 1])
  }

  lemma RunSnoc(cfg: Config, steps: seq<Step>, step: Step)
    ensures Run(cfg, steps + [step]) == Next(cfg, Run(cfg, steps), step)
  {
    assert (steps + [step])[..|steps|] == steps;
  }
}
