/** The gateway service as the program holds it: the store, the worker, the active claim of the lane, and the
    inference operation with its order of store updates, its exception handling and its final release. Between
    any two of its steps other threads may take any steps. Whatever the service does is a run of the gateway
    machine, in which every call that returned left a trace of the worker, so all that is proved about runs and
    about the traces of calls holds of it. */
module GatewayServices {
  import opened Outcomes
  import opened RequestTable
  import opened RequestStores
  import opened Gateway
  import opened Replay
  import opened Deployments
  import opened Endings
  import opened Execution
  import opened GatewayInvariant
  import opened Submissions
  import opened Tombstones

  /** What the world decides during one call of the inference operation: the clock readings, what other
      threads do at each point, the fresh attempt id, the task and the timeout of its policy, and the cipher's
      nonce. */
  datatype Environment = Environment(
    clock: nat -> Instant,
    others: nat -> seq<Step>,
    attempt: nat,
    task: SchemaPositions.Task,
    timeout: int,
    nonce: nat)

  /** Steps of other threads, of maintenance and of acknowledgement; fresh attempt ids are not shared. How a call of
      another thread ends is not its choice but the worker's. */
  predicate Foreign(step: Step, tid: nat, attempt: nat) {
    match step
    case Submit(t, _, _, _) => t != tid
    case Claim(t, a) => t != tid && a != attempt
    case Join(t) => t != tid
    case Wake(t) => t != tid
    case GiveUp(t) => t != tid
    case Reload(t, _) => t != tid
    case Prepare(t, _) => t != tid
    case Dispatch(t, _) => t != tid
    case Return(t, _) => t != tid
    case Settle(t, _, _) => t != tid
    case Collect(t, _) => t != tid
    case Recover(t, _) => t != tid
    case Release(t) => t != tid
    case Maintain(_) => true
    case Ack(_, _, _, _) => true
    case Restart(_, _) => false
  }

  /** A thread stands where it stood, and a fresh attempt id is still fresh. */
  ghost predicate LeavesThread(s: State, s': State, tid: nat, attempt: nat) {
    && (tid in s'.threads <==> tid in s.threads)
    && (tid in s.threads ==> s'.threads[tid] == s.threads[tid])
    && (attempt !in s.issued ==> attempt !in s'.issued)
  }

  lemma CallsLeaveOthers(cfg: Config, s: State, step: Step, tid: nat, attempt: nat)
    requires (step.Dispatch? || step.Return?) && step.tid != tid
    ensures LeavesThread(s, Next(cfg, s, step), tid, attempt)
  {
  }

  lemma ClaimLeavesOthers(cfg: Config, s: State, t: nat, a: nat, tid: nat, attempt: nat)
    requires t != tid && a != attempt
    ensures LeavesThread(s, DoClaim(cfg, s, t, a), tid, attempt)
  {
  }

  lemma StayLeavesOthers(s: State, s': State, t: nat, tid: nat, attempt: nat)
    requires OthersStay(s, s', t) && t != tid && s'.issued == s.issued
    ensures LeavesThread(s, s', tid, attempt)
  {
  }

  /** Only a claim of the lane draws an attempt id. */
  lemma OnlyClaimsIssue(cfg: Config, s: State, step: Step)
    requires !step.Claim?
    ensures Next(cfg, s, step).issued == s.issued
  {
    match step
    case Submit(tid, owner, request, now) => if tid !in s.threads { SubmitLands(cfg, s, tid, owner, request, now); }
    case Reload(tid, now) =>
      if tid in s.threads && s.threads[tid].pc.Reloading? { var pc, reply := ReloadCases(cfg, s, tid, now); }
    case Collect(tid, now) =>
      if tid in s.threads && s.threads[tid].pc.Collecting? { var pc, reply := CollectCases(cfg, s, tid, now); }
    case _ =>
  }

  /** What other threads do leaves a thread where it stands. */
  lemma ForeignLeavesThread(cfg: Config, s: State, step: Step, tid: nat, attempt: nat)
    requires Foreign(step, tid, attempt)
    ensures LeavesThread(s, Next(cfg, s, step), tid, attempt)
  {
    match step
    case Dispatch(_, _) => CallsLeaveOthers(cfg, s, step, tid, attempt);
    case Return(_, _) => CallsLeaveOthers(cfg, s, step, tid, attempt);
    case Claim(t, a) => ClaimLeavesOthers(cfg, s, t, a, tid, attempt);
    case Maintain(_) =>
    case Ack(_, _, _, _) =>
    case Restart(_, _) => assert false;
    case _ =>
      NextStays(cfg, s, step);
      OnlyClaimsIssue(cfg, s, step);
      StayLeavesOthers(s, Next(cfg, s, step), step.tid, tid, attempt);
  }

  /** Where a submission within policy leaves the thread. */
  function AdmittedPc(cfg: Config, id: string, result: Result<Row, StoreError>): Pc {
    match result
    case Err(e) => Finished(Refusal(cfg, e))
    case Ok(row) =>
      match ExistingResponse(id, row)
      case Some(reply) => Finished(reply)
      case None =>
        if row.status == InProgress then Joining
        else if row.status == Ambiguous then Finished(TimedOut(cfg))
        else Claiming
  }

  lemma ProceedEffect(cfg: Config, m: State, tid: nat, id: string, row: Row, now: Instant)
    requires tid in m.threads && m.threads[tid].pc.Claiming?
    ensures var s' := Proceed(cfg, m, tid, id, row, now);
            && s'.rows == m.rows && s'.lane == m.lane && tid in s'.threads && s'.issued == m.issued
            && s'.threads[tid].owner == m.threads[tid].owner && s'.threads[tid].request == m.threads[tid].request
            && s'.threads[tid].pc == AdmittedPc(cfg, id, Ok(row))
  {
  }

  lemma SubmissionEffect(cfg: Config, s: State, tid: nat, owner: string, request: Request, now: Instant)
    requires tid !in s.threads && request.digest.expires * MICROS > now && request.digest.expires <= MaximumExpiry(now, cfg.lifetime)
    ensures var s' := DoSubmit(cfg, s, tid, owner, request, now);
            var (t, result) := Admit(cfg.limits, s.rows, request, owner, now);
            && s'.rows == t && s'.lane == s.lane && tid in s'.threads && s'.issued == s.issued
            && s'.threads[tid].owner == owner && s'.threads[tid].request == request
            && s'.threads[tid].pc == AdmittedPc(cfg, request.id, result)
  {
    var (t, result) := Admit(cfg.limits, s.rows, request, owner, now);
    if result.Ok? {
      var c := Cleanup(s.rows, now, cfg.limits.retention);
      if request.id in c {
        ProceedEffect(cfg, Arrival(s, t, tid, owner, request), tid, request.id, result.value, now);
      } else {
        ProceedEffect(cfg, Insertion(s, c, tid, owner, request, now), tid, request.id, result.value, now);
      }
    }
  }

  /** The reply of a thread that reads its row back after another's attempt. */
  function ReloadReply(cfg: Config, id: string, result: Result<Row, StoreError>): Reply {
    match result
    case Err(e) => Raised(e)
    case Ok(row) =>
      match ExistingResponse(id, row)
      case Some(reply) => reply
      case None => if row.status == Reserved then NoWorker(cfg) else TimedOut(cfg)
  }

  lemma ReloadEffect(cfg: Config, s: State, tid: nat, now: Instant)
    requires tid in s.threads && s.threads[tid].pc.Reloading?
    ensures var th := s.threads[tid];
            var (t, result) := GetOwned(cfg.limits, s.rows, th.request.id, th.owner, Some(th.request.digest), now);
            var s' := DoReload(cfg, s, tid, now);
            && s'.rows == t && s'.lane == s.lane && tid in s'.threads
            && s'.threads[tid].pc == Finished(ReloadReply(cfg, th.request.id, result))
  {
  }

  /** How far a part of the owner's path got: it goes on, it ends with a reply to return or raise, or the
      store rejected a transition. */
  datatype Progress = Continues | Ends(reply: Reply) | Faults

  predicate Reached(pc: Pc, p: Progress) {
    match p
    case Continues => pc.Marked? || pc.Calling? || pc.Collecting?
    case Ends(reply) => pc.Releasing? && pc.reply == reply
    case Faults => pc.Recovering?
  }

  lemma TracesStay(log: seq<Event>, log': seq<Event>, calls: map<nat, seq<R.Act>>)
    requires AllTraced(log, calls) && NoReturn(log, log')
    ensures AllTraced(log', calls)
  {
    assert forall i :: 0 <= i < |log'| && log'[i].Ended? ==> i < |log| && log'[i] == log[i];
  }

  lemma ReturnIsTraced(log: seq<Event>, calls: map<nat, seq<R.Act>>, attempt: nat, trace: seq<R.Act>, outcome: Outcome)
    requires AllTraced(log, calls) && Unended(log, attempt) && Served(trace, outcome)
    ensures var log', calls' := log + [Ended(attempt, outcome)], calls[attempt := trace];
            AllTraced(log', calls')
  {
    var log' := log + [Ended(attempt, outcome)];
    assert forall i :: 0 <= i < |log| ==> log'[i] == log[i];
  }

  class GatewayService {
    const cfg: Config
    const store: RequestStore
    var active: Option<Lane>
    var state: State
    const world: R.World
    const worker: InferenceWorker
    ghost var trail: seq<Step>
    ghost var calls: map<nat, seq<R.Act>>

    /** The service's fields realise the state of a run: the one that its trail of steps describes. Every call
        that returned left the trace that `calls` holds for its attempt. */
    ghost predicate Valid()
      reads this, store
    {
      && state == Run(cfg, trail)
      && store.limits == cfg.limits
      && store.rows == state.rows
      && active == state.lane
      && worker.On(world)
      && AllTraced(state.log, calls)
    }

    constructor (cfg: Config, world: R.World, worker: InferenceWorker)
      requires worker.On(world)
      ensures Valid() && this.cfg == cfg && this.worker == worker && this.world == world && fresh(store)
      ensures trail == []
    {
      this.cfg := cfg;
      this.store := new RequestStore(cfg.limits);
      this.active := None;
      this.state := Start(cfg);
      this.world := world;
      this.worker := worker;
      this.trail := [];
      this.calls := map[];
    }

    /** The step that the store and the lane have just taken enters the trail. */
    method Note(step: Step)
      requires state == Run(cfg, trail) && store.limits == cfg.limits && worker.On(world) && !step.Return?
      requires store.rows == Next(cfg, state, step).rows && active == Next(cfg, state, step).lane
      requires AllTraced(state.log, calls)
      modifies this`state, this`trail
      ensures Valid() && state == Next(cfg, old(state), step) && trail == old(trail) + [step]
    {
      RunSnoc(cfg, trail, step);
      OthersEndNothing(cfg, state, step);
      TracesStay(state.log, Next(cfg, state, step).log, calls);
      state := Next(cfg, state, step);
      trail := trail + [step];
    }

    /** A thread's call of the worker, which returns the outcome that its trace decides. */
    method Call(tid: nat, task: SchemaPositions.Task, timeout: int) returns (outcome: Outcome)
      requires Valid() && tid in state.threads && state.threads[tid].pc.Calling?
      modifies this`state, this`trail, this`calls, world
      ensures Valid() && state == Next(cfg, old(state), Return(tid, outcome)) && trail == old(trail) + [Return(tid, outcome)]
    {
      ghost var trace;
      outcome, trace := Deployments.Infer(worker, world, task, timeout);
      ghost var attempt := state.threads[tid].pc.attempt;
      assert Unended(state.log, attempt) by { RunKeepsEnds(cfg, trail); }
      RunSnoc(cfg, trail, Return(tid, outcome));
      ReturnIsTraced(state.log, calls, attempt, trace, outcome);
      calls := calls[attempt := trace];
      state := Next(cfg, state, Return(tid, outcome));
      trail := trail + [Return(tid, outcome)];
    }

    /** Any steps of other threads. */
    method Interfere(steps: seq<Step>, tid: nat, attempt: nat)
      requires Valid() && forall i :: 0 <= i < |steps| ==> Foreign(steps[i], tid, attempt)
      modifies this`state, this`trail, this`active, this`calls, store, world
      ensures Valid() && old(trail) <= trail
      ensures tid in state.threads <==> tid in old(state).threads
      ensures tid in old(state).threads ==> state.threads[tid] == old(state).threads[tid]
      ensures attempt !in old(state).issued ==> attempt !in state.issued
    {
      var i := 0;
      while i < |steps|
        invariant 0 <= i <= |steps|
        invariant Valid() && old(trail) <= trail
        invariant tid in state.threads <==> tid in old(state).threads
        invariant tid in old(state).threads ==> state.threads[tid] == old(state).threads[tid]
        invariant attempt !in old(state).issued ==> attempt !in state.issued
      {
        Foreigner(steps[i], tid, attempt);
        i := i + 1;
      }
    }

    /** One step of another thread. */
    method Foreigner(step: Step, tid: nat, attempt: nat)
      requires Valid() && Foreign(step, tid, attempt)
      modifies this`state, this`trail, this`active, this`calls, store, world
      ensures Valid() && old(trail) <= trail
      ensures tid in state.threads <==> tid in old(state).threads
      ensures tid in old(state).threads ==> state.threads[tid] == old(state).threads[tid]
      ensures attempt !in old(state).issued ==> attempt !in state.issued
    {
      ForeignLeavesThread(cfg, state, step, tid, attempt);
      if !step.Return? {
        var next := Next(cfg, state, step);
        store.rows := next.rows;
        active := next.lane;
        Note(step);
      } else if step.tid in state.threads && state.threads[step.tid].pc.Calling? {
        var task: SchemaPositions.Task, timeout: int := *, *;
        ghost var before := state;
        var outcome := Call(step.tid, task, timeout);
        CallsLeaveOthers(cfg, before, Return(step.tid, outcome), tid, attempt);
      }
    }

    /** A crash or stop loses the threads and the lane; the next process starts on the same database. */
    method Restarted(release: Provenance, now: Instant)
      requires Valid()
      modifies this`state, this`trail, this`active, store
      ensures Valid() && state == Next(cfg, old(state), Restart(release, now)) && trail == old(trail) + [Restart(release, now)]
    {
      store.Initialize(now);
      active := None;
      Note(Restart(release, now));
    }

    /** Policy check and admission. The result is the row the thread goes on with, or its reply. */
    method Submitted(tid: nat, owner: string, request: Request, now: Instant) returns (row: Option<Row>, reply: Reply)
      requires Valid() && tid !in state.threads
      modifies this`state, this`trail, store
      ensures Valid() && trail == old(trail) + [Submit(tid, owner, request, now)]
      ensures state == Next(cfg, old(state), Submit(tid, owner, request, now))
      ensures tid in state.threads && state.threads[tid].request == request && state.threads[tid].owner == owner
      ensures state.issued == old(state).issued
      ensures row.None? ==> state.threads[tid].pc == Finished(reply)
      ensures row.Some? ==> state.threads[tid].pc == (if row.value.status == InProgress then Joining else Claiming)
    {
      row := None;
      reply := TooLate;
      if request.digest.expires * MICROS <= now {
        Note(Submit(tid, owner, request, now));
        return;
      }
      if request.digest.expires > MaximumExpiry(now, cfg.lifetime) {
        reply := Failure("invalid_request", false, 422, None);
        Note(Submit(tid, owner, request, now));
        return;
      }
      row, reply := AdmittedTo(tid, owner, request, now);
    }

    method AdmittedTo(tid: nat, owner: string, request: Request, now: Instant) returns (row: Option<Row>, reply: Reply)
      requires Valid() && tid !in state.threads
      requires request.digest.expires * MICROS > now && request.digest.expires <= MaximumExpiry(now, cfg.lifetime)
      modifies this`state, this`trail, store
      ensures Valid() && trail == old(trail) + [Submit(tid, owner, request, now)]
      ensures state == Next(cfg, old(state), Submit(tid, owner, request, now))
      ensures tid in state.threads && state.threads[tid].request == request && state.threads[tid].owner == owner
      ensures state.issued == old(state).issued
      ensures row.None? ==> state.threads[tid].pc == Finished(reply)
      ensures row.Some? ==> state.threads[tid].pc == (if row.value.status == InProgress then Joining else Claiming)
    {
      row := None;
      SubmissionEffect(cfg, state, tid, owner, request, now);
      var admitted := store.Admit(request, owner, now);
      Note(Submit(tid, owner, request, now));
      if admitted.Err? {
        reply := Refusal(cfg, admitted.error);
        return;
      }
      var existing := ExistingResponse(request.id, admitted.value);
      if existing.Some? {
        reply := existing.value;
        return;
      }
      reply := TimedOut(cfg);
      if admitted.value.status != Ambiguous {
        row := Some(admitted.value);
      }
    }

    /** Claim the lane if it is free; otherwise the claim that holds it. */
    method ClaimLane(tid: nat, attempt: nat) returns (lane: Lane, owner: bool)
      requires Valid() && tid in state.threads && state.threads[tid].pc.Claiming? && attempt !in state.issued
      modifies this`state, this`trail, this`active
      ensures Valid() && trail == old(trail) + [Claim(tid, attempt)]
      ensures state == Next(cfg, old(state), Claim(tid, attempt))
      ensures owner <==> old(active).None?
      ensures owner ==> lane == Lane(tid, state.threads[tid].request.id, attempt) && active == Some(lane)
      ensures !owner ==> old(active) == Some(lane) && active == old(active)
      ensures tid in state.threads && state.threads[tid].request == old(state).threads[tid].request
      ensures state.threads[tid].pc == (if owner then Preparing(attempt)
                                        else if lane.id == state.threads[tid].request.id then Waiting(lane.attempt)
                                        else Finished(Busy(cfg)))
    {
      if active.None? {
        lane := Lane(tid, state.threads[tid].request.id, attempt);
        active := Some(lane);
        owner := true;
      } else {
        lane := active.value;
        owner := false;
      }
      Note(Claim(tid, attempt));
    }

    /** Signal the waiters, and free the lane if it is still this claim's. */
    method ReleaseLane(tid: nat)
      requires Valid() && tid in state.threads && state.threads[tid].pc.Releasing?
      modifies this`state, this`trail, this`active
      ensures Valid() && trail == old(trail) + [Release(tid)] && state == Next(cfg, old(state), Release(tid))
      ensures tid in state.threads && state.threads[tid].pc == Finished(old(state).threads[tid].pc.reply)
      ensures old(state).threads[tid].pc.attempt in state.finished
    {
      var attempt := state.threads[tid].pc.attempt;
      if active.Some? && active.value.tid == tid && active.value.attempt == attempt {
        active := None;
      }
      Note(Release(tid));
    }

    /** Wait for the awaited attempt; if it finishes in time, read the row back. */
    method WaitAndReload(tid: nat, env: Environment) returns (reply: Reply)
      requires Valid() && tid in state.threads && state.threads[tid].pc.Waiting?
      requires forall k, i :: 0 <= i < |env.others(k)| ==> Foreign(env.others(k)[i], tid, env.attempt)
      modifies this`state, this`trail, this`active, this`calls, store, world
      ensures Valid() && old(trail) <= trail && tid in state.threads && state.threads[tid].pc == Finished(reply)
    {
      Interfere(env.others(10), tid, env.attempt);
      if state.threads[tid].pc.awaited !in state.finished {
        Note(GiveUp(tid));
        return TimedOut(cfg);
      }
      Note(Wake(tid));
      reply := ReloadAfterAttempt(tid, env);
    }

    method ReloadAfterAttempt(tid: nat, env: Environment) returns (reply: Reply)
      requires Valid() && tid in state.threads && state.threads[tid].pc.Reloading?
      requires forall k, i :: 0 <= i < |env.others(k)| ==> Foreign(env.others(k)[i], tid, env.attempt)
      modifies this`state, this`trail, this`active, this`calls, store, world
      ensures Valid() && old(trail) <= trail && tid in state.threads && state.threads[tid].pc == Finished(reply)
    {
      Interfere(env.others(11), tid, env.attempt);
      var th := state.threads[tid];
      var now := env.clock(11);
      ReloadEffect(cfg, state, tid, now);
      var result := store.GetOwned(th.request.id, th.owner, Some(th.request.digest), now);
      Note(Reload(tid, now));
      if result.Err? {
        return Raised(result.error);
      }
      var existing := ExistingResponse(th.request.id, result.value);
      if existing.Some? {
        return existing.value;
      }
      if result.value.status == Reserved {
        return NoWorker(cfg);
      }
      return TimedOut(cfg);
    }

    /** Join the attempt that is in progress, if it is this request's. */
    method JoinActive(tid: nat, env: Environment) returns (reply: Reply)
      requires Valid() && tid in state.threads && state.threads[tid].pc.Joining?
      requires forall k, i :: 0 <= i < |env.others(k)| ==> Foreign(env.others(k)[i], tid, env.attempt)
      modifies this`state, this`trail, this`active, this`calls, store, world
      ensures Valid() && old(trail) <= trail && tid in state.threads && state.threads[tid].pc == Finished(reply)
    {
      Interfere(env.others(9), tid, env.attempt);
      var joins := active.Some? && active.value.id == state.threads[tid].request.id;
      Note(Join(tid));
      if joins {
        reply := WaitAndReload(tid, env);
      } else {
        reply := ReloadAfterAttempt(tid, env);
      }
    }

    /** The owner found its request expired: reading the row back also cleans the table. */
    method Withdrawn(tid: nat, step: Step, now: Instant) returns (p: Progress)
      requires Valid() && tid in state.threads && (step == Prepare(tid, now) || step == Dispatch(tid, now))
      requires step.Prepare? ==> state.threads[tid].pc.Preparing?
      requires step.Dispatch? ==> state.threads[tid].pc.Marked?
      requires state.threads[tid].request.digest.expires * MICROS <= now
      modifies this`state, this`trail, store
      ensures Valid() && trail == old(trail) + [step] && tid in state.threads
      ensures !p.Continues? && Reached(state.threads[tid].pc, p)
    {
      var th := state.threads[tid];
      var result := store.GetOwned(th.request.id, th.owner, Some(th.request.digest), now);
      Note(step);
      p := if result.Err? then Faults else Ends(TooLate);
    }

    /** The first expiry check and the mark of the reserved row. */
    method MarkReserved(tid: nat, now: Instant) returns (p: Progress)
      requires Valid() && tid in state.threads && state.threads[tid].pc.Preparing?
      modifies this`state, this`trail, store
      ensures Valid() && trail == old(trail) + [Prepare(tid, now)] && tid in state.threads
      ensures Reached(state.threads[tid].pc, p) && (p.Continues? ==> state.threads[tid].pc.Marked?)
    {
      var th := state.threads[tid];
      if th.request.digest.expires * MICROS <= now {
        p := Withdrawn(tid, Prepare(tid, now), now);
      } else {
        var result := store.MarkInProgress(th.request.id, th.pc.attempt, now);
        Note(Prepare(tid, now));
        p := if result.Err? then Faults else Continues;
      }
    }

    /** The second expiry check; then the worker is called. */
    method CallWorker(tid: nat, now: Instant) returns (p: Progress)
      requires Valid() && tid in state.threads && state.threads[tid].pc.Marked?
      modifies this`state, this`trail, store
      ensures Valid() && trail == old(trail) + [Dispatch(tid, now)] && tid in state.threads
      ensures Reached(state.threads[tid].pc, p) && (p.Continues? ==> state.threads[tid].pc.Calling?)
    {
      if state.threads[tid].request.digest.expires * MICROS <= now {
        p := Withdrawn(tid, Dispatch(tid, now), now);
      } else {
        Note(Dispatch(tid, now));
        p := Continues;
      }
    }

    /** The worker's result is stored, unless the row has expired or is no longer the attempt's. */
    method StoreResult(tid: nat, mediaType: string, content: string, nonce: nat, now: Instant) returns (p: Progress)
      requires Valid() && tid in state.threads && state.threads[tid].pc.Returned?
      requires state.threads[tid].pc.outcome == Produced(mediaType, content)
      modifies this`state, this`trail, store
      ensures Valid() && trail == old(trail) + [Settle(tid, nonce, now)] && tid in state.threads
      ensures Reached(state.threads[tid].pc, p) && (p.Continues? ==> state.threads[tid].pc.Collecting?)
    {
      var th := state.threads[tid];
      var output := Output(mediaType, content, state.release.deployment, state.release.policyVersion);
      var stored := store.Complete(th.request.id, th.pc.attempt, output, nonce, now);
      Note(Settle(tid, nonce, now));
      p := if stored.Err? then Faults else if stored.value then Continues else Ends(TooLate);
    }

    /** The worker's exceptions: what each commits to the attempt's own row, and the failure it turns into. */
    method SettleFault(tid: nat, nonce: nat, now: Instant) returns (p: Progress)
      requires Valid() && tid in state.threads && state.threads[tid].pc.Returned? && !state.threads[tid].pc.outcome.Produced?
      modifies this`state, this`trail, store
      ensures Valid() && trail == old(trail) + [Settle(tid, nonce, now)] && tid in state.threads
      ensures p.Ends? && Reached(state.threads[tid].pc, p)
      ensures var th, was := old(state).threads[tid], old(store.rows);
              var id, outcome := th.request.id, th.pc.outcome;
              if id in was && was[id].status == InProgress && was[id].attempt == Some(th.pc.attempt) then
                store.rows == was[id := if outcome == Unavailable then
                                          was[id].(status := Reserved, attempt := None, updated := now / 1_000_000)
                                        else if outcome == Invalid then
                                          was[id].(status := Failed, error := Some(RowError("invalid_worker_output", false, None)),
                                                   updated := now / 1_000_000)
                                        else was[id].(status := Ambiguous, updated := now / 1_000_000)]
              else store.rows == was
      ensures var outcome := old(state).threads[tid].pc.outcome;
              p == Ends(if outcome == Unavailable then Failure("worker_unavailable", true, 503, Some(cfg.retryAfter))
                        else if outcome == Invalid then Failure("invalid_worker_output", false, 502, None)
                        else Failure("inference_timeout", true, 504, Some(cfg.retryAfter)))
    {
      var th := state.threads[tid];
      var id, attempt := th.request.id, th.pc.attempt;
      if th.pc.outcome == Unavailable {
        store.ResetReserved(id, attempt, now);
        p := Ends(NoWorker(cfg));
      } else if th.pc.outcome == Invalid {
        store.MarkFailed(id, attempt, RowError("invalid_worker_output", false, None), now);
        p := Ends(Failure("invalid_worker_output", false, 502, None));
      } else {
        store.MarkAmbiguous(id, attempt, now);
        p := Ends(TimedOut(cfg));
      }
      Note(Settle(tid, nonce, now));
    }

    /** The stored result is read back for the caller. */
    method CollectResult(tid: nat, now: Instant) returns (p: Progress)
      requires Valid() && tid in state.threads && state.threads[tid].pc.Collecting?
      modifies this`state, this`trail, store
      ensures Valid() && trail == old(trail) + [Collect(tid, now)] && tid in state.threads
      ensures !p.Continues? && Reached(state.threads[tid].pc, p)
    {
      var th := state.threads[tid];
      var result := store.GetOwned(th.request.id, th.owner, Some(th.request.digest), now);
      Note(Collect(tid, now));
      if result.Err? {
        return Faults;
      }
      var existing := ExistingResponse(th.request.id, result.value);
      p := Ends(if existing.Some? then existing.value else Failure("invalid_worker_output", false, 500, None));
    }

    /** A rejected store transition: the row, if still the attempt's, becomes ambiguous. */
    method RecoverAmbiguous(tid: nat, now: Instant) returns (p: Progress)
      requires Valid() && tid in state.threads && state.threads[tid].pc.Recovering?
      modifies this`state, this`trail, store
      ensures Valid() && trail == old(trail) + [Recover(tid, now)] && tid in state.threads
      ensures p == Ends(TimedOut(cfg)) && Reached(state.threads[tid].pc, p)
    {
      var th := state.threads[tid];
      store.MarkAmbiguous(th.request.id, th.pc.attempt, now);
      Note(Recover(tid, now));
      p := Ends(TimedOut(cfg));
    }

    /** The call of the worker returned: its result is stored and read back, or its fault is settled. */
    method AfterCall(tid: nat, env: Environment) returns (p: Progress)
      requires Valid() && tid in state.threads && state.threads[tid].pc.Calling?
      requires forall k, i :: 0 <= i < |env.others(k)| ==> Foreign(env.others(k)[i], tid, env.attempt)
      modifies this`state, this`trail, this`active, this`calls, store, world
      ensures Valid() && old(trail) <= trail && tid in state.threads
      ensures !p.Continues? && Reached(state.threads[tid].pc, p)
    {
      var outcome := Call(tid, env.task, env.timeout);
      Interfere(env.others(5), tid, env.attempt);
      if outcome.Produced? {
        p := KeepResult(tid, outcome.mediaType, outcome.content, env);
      } else {
        p := SettleFault(tid, env.nonce, env.clock(5));
      }
    }

    method KeepResult(tid: nat, mediaType: string, content: string, env: Environment) returns (p: Progress)
      requires Valid() && tid in state.threads && state.threads[tid].pc.Returned?
      requires state.threads[tid].pc.outcome == Produced(mediaType, content)
      requires forall k, i :: 0 <= i < |env.others(k)| ==> Foreign(env.others(k)[i], tid, env.attempt)
      modifies this`state, this`trail, this`active, this`calls, store, world
      ensures Valid() && old(trail) <= trail && tid in state.threads
      ensures !p.Continues? && Reached(state.threads[tid].pc, p)
    {
      p := StoreResult(tid, mediaType, content, env.nonce, env.clock(5));
      Interfere(env.others(6), tid, env.attempt);
      if p == Continues {
        p := CollectResult(tid, env.clock(6));
      }
    }

    /** The body of the try block: mark, call, settle and collect, as far as nothing stops it. */
    method Attempt(tid: nat, env: Environment) returns (p: Progress)
      requires Valid() && tid in state.threads && state.threads[tid].pc.Preparing?
      requires forall k, i :: 0 <= i < |env.others(k)| ==> Foreign(env.others(k)[i], tid, env.attempt)
      modifies this`state, this`trail, this`active, this`calls, store, world
      ensures Valid() && old(trail) <= trail && tid in state.threads
      ensures !p.Continues? && Reached(state.threads[tid].pc, p)
    {
      Interfere(env.others(2), tid, env.attempt);
      p := MarkReserved(tid, env.clock(2));
      if p != Continues {
        return;
      }
      Interfere(env.others(3), tid, env.attempt);
      p := CallWorker(tid, env.clock(3));
      if p != Continues {
        return;
      }
      Interfere(env.others(4), tid, env.attempt);
      p := AfterCall(tid, env);
    }

    /** The owner's path: the attempt, the recovery from a rejected store transition, and in every case
        the release of the lane, after everything is committed. */
    method Serve(tid: nat, env: Environment) returns (reply: Reply)
      requires Valid() && tid in state.threads && state.threads[tid].pc.Preparing?
      requires forall k, i :: 0 <= i < |env.others(k)| ==> Foreign(env.others(k)[i], tid, env.attempt)
      modifies this`state, this`trail, this`active, this`calls, store, world
      ensures Valid() && old(trail) <= trail && tid in state.threads && state.threads[tid].pc == Finished(reply)
    {
      var p := Attempt(tid, env);
      Interfere(env.others(7), tid, env.attempt);
      if p == Faults {
        p := RecoverAmbiguous(tid, env.clock(7));
        Interfere(env.others(8), tid, env.attempt);
      }
      ReleaseLane(tid);
      reply := p.reply;
    }

    /** The inference operation, whatever other threads do in between: it ends with the reply of its own
        thread, and everything it did is part of a run. */
    method Infer(tid: nat, owner: string, request: Request, env: Environment) returns (reply: Reply)
      requires Valid() && tid !in state.threads && env.attempt !in state.issued
      requires forall k, i :: 0 <= i < |env.others(k)| ==> Foreign(env.others(k)[i], tid, env.attempt)
      modifies this`state, this`trail, this`active, this`calls, store, world
      ensures Valid() && old(trail) <= trail && tid in state.threads && state.threads[tid].pc == Finished(reply)
    {
      var row, refusal := Submitted(tid, owner, request, env.clock(0));
      if row.None? {
        return refusal;
      }
      if row.value.status == InProgress {
        reply := JoinActive(tid, env);
        return;
      }
      Interfere(env.others(1), tid, env.attempt);
      var lane, owns := ClaimLane(tid, env.attempt);
      if owns {
        reply := Serve(tid, env);
      } else if lane.id == request.id {
        reply := WaitAndReload(tid, env);
      } else {
        reply := Busy(cfg);
      }
    }
  }
  lemma RepeatedCallEnded(service: GatewayService, i: nat, j: nat)
    requires service.Valid() && i < j < |service.state.log| && service.state.log[i].Called? && service.state.log[j].Called?
    requires exists k :: i < k < j && service.state.log[k] == Ended(service.state.log[i].attempt, Unavailable)
    ensures service.state.log[i].attempt in service.calls && AllRefused(service.calls[service.state.log[i].attempt])
  {
    var log := service.state.log;
    var k :| i < k < j && log[k] == Ended(log[i].attempt, Unavailable);
    DeclinedWasRefused(log, service.calls, log[i].attempt, k);
  }

  /** Of the service itself, whatever it and the other threads did: before a row is worked on again, the worker
      refused every completion request that the earlier call made for it. */
  lemma ServiceRepeatsOnlyRefused(service: GatewayService, i: nat, j: nat)
    requires service.Valid() && i < j < |service.state.log| && service.state.log[i].Called? && service.state.log[j].Called?
    requires service.state.log[i].row == service.state.log[j].row
    ensures service.state.log[i].attempt in service.calls && AllRefused(service.calls[service.state.log[i].attempt])
  {
    RunKeepsInv(service.cfg, service.trail);
    RepeatedCallEnded(service, i, j);
  }

  /** With a retention of at least the lifetime the same holds of all the calls that the service ever makes for a request. */
  lemma ServiceRepeatsOnlyRefusedEver(service: GatewayService, hi: Instant, i: nat, j: nat)
    requires service.Valid() && i < j < |service.state.log| && service.state.log[i].Called? && service.state.log[j].Called?
    requires service.state.log[i].id == service.state.log[j].id && service.state.log[i].digest == service.state.log[j].digest
    requires NonDecreasing(service.trail) && Until(service.trail, hi) && service.cfg.limits.retention >= service.cfg.lifetime
    ensures service.state.log[i].attempt in service.calls && AllRefused(service.calls[service.state.log[i].attempt])
  {
    RetainedMeansOnce(service.cfg, service.trail, hi);
    RepeatedCallEnded(service, i, j);
  }
}
