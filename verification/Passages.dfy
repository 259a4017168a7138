/** Passages of a run on one row: admission, claim and call, storing, reading back, acknowledgement.
    Each says exactly which state a few steps lead to, so that runs can be put together from them. */
module Passages {
  import opened Outcomes
  import opened RequestTable
  import opened Gateway

  /** State s with one row, and with one thread as given. */
  function Scene(s: State, row: Row, lane: Option<Lane>, tid: nat, th: Thread, log: seq<Event>): State {
    s.(rows := map["x" := row], lane := lane, threads := s.threads[tid := th], log := log)
  }

  /** The row once an attempt has marked it. */
  function Taken(row: Row, a: nat, now: Instant): Row {
    row.(status := InProgress, attempt := Some(a), updated := Seconds(now))
  }

  /** The row once the worker's content is stored in it. */
  function Kept(s: State, row: Row, now: Instant): Row {
    CompletedRow(row, "x", Output("m", "c", s.release.deployment, s.release.policyVersion), 0, now)
  }

  function Reading(row: Row): Response {
    Response("x", "m", "c", if row.policyVersion.Some? then row.policyVersion.value else 0,
             if row.deployment.Some? then row.deployment.value else "")
  }

  lemma LoneRowStays(row: Row, now: Instant, retention: nat)
    requires !Tombstone(row.status) && row.expires > Seconds(now)
    ensures Cleanup(map["x" := row], now, retention) == map["x" := row]
  {
  }

  lemma TwoSteps(cfg: Config, steps: seq<Step>, a: Step, b: Step)
    ensures Run(cfg, steps + [a, b]) == Next(cfg, Next(cfg, Run(cfg, steps), a), b)
  {
    assert steps + [a, b] == steps + [a] + [b];
    RunSnoc(cfg, steps, a);
    RunSnoc(cfg, steps + [a], b);
  }

  /** Admission of a request into a table that cleanup leaves without rows. */
  lemma Admits(cfg: Config, s: State, tid: nat, owner: string, r: Request, now: Instant)
    requires cfg.limits.maxOpenTotal >= 1 && cfg.limits.maxOpenPerCredential >= 1 && tid !in s.threads
    requires Cleanup(s.rows, now, cfg.limits.retention) == map[] && r.id == "x"
    requires now < r.digest.expires * MICROS && r.digest.expires <= MaximumExpiry(now, cfg.lifetime)
    ensures Next(cfg, s, Submit(tid, owner, r, now))
         == Scene(s.(born := s.born["x" := |s.log|]), FreshRow(r, owner, now), s.lane, tid, Thread(owner, r, |s.log|, Claiming),
                  s.log + [Inserted("x", owner, r.digest, Seconds(now))])
  {
    assert Next(cfg, s, Submit(tid, owner, r, now)) == Insertion(s, map[], tid, owner, r, now);
    assert map[]["x" := FreshRow(r, owner, now)] == map["x" := FreshRow(r, owner, now)];
  }

  /** The same request arrives again while its row waits for a worker. */
  lemma Arrives(cfg: Config, s: State, row: Row, tid: nat, owner: string, r: Request, now: Instant)
    requires tid !in s.threads && s.rows == map["x" := row] && "x" in s.born && r.id == "x"
    requires row.status == Reserved && row.owner == owner && row.digest == r.digest && row.expires == r.digest.expires > Seconds(now)
    requires r.digest.expires <= MaximumExpiry(now, cfg.lifetime)
    ensures Next(cfg, s, Submit(tid, owner, r, now))
         == Scene(s, row, s.lane, tid, Thread(owner, r, s.born["x"], Claiming), s.log)
  {
    LoneRowStays(row, now, cfg.limits.retention);
  }

  /** The same request arrives again when its row is completed. */
  lemma Replays(cfg: Config, s: State, row: Row, tid: nat, owner: string, r: Request, now: Instant)
    requires tid !in s.threads && s.rows == map["x" := row] && "x" in s.born && r.id == "x"
    requires row.status == Completed && row.owner == owner && row.digest == r.digest && row.expires == r.digest.expires > Seconds(now)
    requires r.digest.expires <= MaximumExpiry(now, cfg.lifetime) && ExistingResponse("x", row) == Some(Answer(Reading(row)))
    ensures Next(cfg, s, Submit(tid, owner, r, now)).log == s.log + [Answered(s.born["x"], Reading(row), Seconds(now))]
  {
    LoneRowStays(row, now, cfg.limits.retention);
    var m := Arrival(s, s.rows, tid, owner, r);
    assert Next(cfg, s, Submit(tid, owner, r, now)) == Proceed(cfg, m, tid, "x", row, now);
  }

  lemma Marks(cfg: Config, s: State, row: Row, tid: nat, th: Thread, a: nat, now: Instant, log: seq<Event>)
    requires "x" in s.born && th.request.id == "x" && row.status == Reserved && row.expires > Seconds(now)
    requires th.request.digest.expires > Seconds(now) && th.pc == Preparing(a)
    ensures Next(cfg, Scene(s, row, Some(Lane(tid, "x", a)), tid, th, log), Prepare(tid, now))
         == Scene(s, Taken(row, a, now), Some(Lane(tid, "x", a)), tid, th.(pc := Marked(a, s.born["x"])), log)
  {
    LoneRowStays(row, now, cfg.limits.retention);
    assert map["x" := row]["x" := Taken(row, a, now)] == map["x" := Taken(row, a, now)];
    var s' := Next(cfg, Scene(s, row, Some(Lane(tid, "x", a)), tid, th, log), Prepare(tid, now));
    assert s'.threads == s.threads[tid := th.(pc := Marked(a, s.born["x"]))];
  }

  lemma Claims(cfg: Config, s: State, row: Row, tid: nat, th: Thread, a: nat, log: seq<Event>)
    requires th.request.id == "x" && th.pc == Claiming && a !in s.issued
    ensures Next(cfg, Scene(s, row, None, tid, th, log), Claim(tid, a))
         == Scene(s.(issued := s.issued + {a}), row, Some(Lane(tid, "x", a)), tid, th.(pc := Preparing(a)), log)
  {
    var s' := Next(cfg, Scene(s, row, None, tid, th, log), Claim(tid, a));
    assert s'.threads == s.threads[tid := th.(pc := Preparing(a))];
  }

  lemma Dispatches(cfg: Config, s: State, row: Row, lane: Option<Lane>, tid: nat, th: Thread, now: Instant, log: seq<Event>)
    requires th.request.id == "x" && th.request.digest.expires > Seconds(now) && th.pc.Marked?
    ensures Next(cfg, Scene(s, row, lane, tid, th, log), Dispatch(tid, now))
         == Scene(s, row, lane, tid, th.(pc := Calling(th.pc.attempt, th.pc.row)),
                  log + [Called("x", th.owner, th.request.digest, th.pc.row, th.pc.attempt)])
  {
    var s' := Next(cfg, Scene(s, row, lane, tid, th, log), Dispatch(tid, now));
    assert s'.threads == s.threads[tid := th.(pc := Calling(th.pc.attempt, th.pc.row))];
  }

  lemma Returns(cfg: Config, s: State, row: Row, lane: Option<Lane>, tid: nat, th: Thread, log: seq<Event>)
    requires th.pc.Calling?
    ensures Next(cfg, Scene(s, row, lane, tid, th, log), Return(tid, Produced("m", "c")))
         == Scene(s, row, lane, tid, th.(pc := Returned(th.pc.attempt, th.pc.row, Produced("m", "c"))),
                  log + [Ended(th.pc.attempt, Produced("m", "c"))])
  {
    var s' := Next(cfg, Scene(s, row, lane, tid, th, log), Return(tid, Produced("m", "c")));
    assert s'.threads == s.threads[tid := th.(pc := Returned(th.pc.attempt, th.pc.row, Produced("m", "c")))];
  }

  lemma Settles(cfg: Config, s: State, row: Row, lane: Option<Lane>, tid: nat, th: Thread, now: Instant, log: seq<Event>)
    requires th.request.id == "x" && th.pc.Returned? && th.pc.outcome == Produced("m", "c")
    requires row.status == InProgress && row.attempt == Some(th.pc.attempt) && row.expires > Seconds(now)
    ensures Next(cfg, Scene(s, row, lane, tid, th, log), Settle(tid, 0, now))
         == Scene(s, Kept(s, row, now), lane, tid, th.(pc := Collecting(th.pc.attempt, th.pc.row)),
                  log + [Stored(th.pc.row, th.pc.attempt, s.release, Seconds(now))])
  {
    LoneRowStays(row, now, cfg.limits.retention);
    assert map["x" := row]["x" := Kept(s, row, now)] == map["x" := Kept(s, row, now)];
    var s' := Next(cfg, Scene(s, row, lane, tid, th, log), Settle(tid, 0, now));
    assert s'.threads == s.threads[tid := th.(pc := Collecting(th.pc.attempt, th.pc.row))];
  }

  lemma Collects(cfg: Config, s: State, row: Row, lane: Option<Lane>, tid: nat, th: Thread, now: Instant, log: seq<Event>)
    requires "x" in s.born && th.request.id == "x" && th.pc.Collecting? && row.status == Completed && row.expires > Seconds(now)
    requires row.owner == th.owner && row.digest == th.request.digest && ExistingResponse("x", row) == Some(Answer(Reading(row)))
    ensures Next(cfg, Scene(s, row, lane, tid, th, log), Collect(tid, now))
         == Scene(s, row, lane, tid, th.(pc := Releasing(th.pc.attempt, Answer(Reading(row)))),
                  log + [Answered(s.born["x"], Reading(row), Seconds(now))])
  {
    LoneRowStays(row, now, cfg.limits.retention);
    var s' := Next(cfg, Scene(s, row, lane, tid, th, log), Collect(tid, now));
    assert s'.threads == s.threads[tid := th.(pc := Releasing(th.pc.attempt, Answer(Reading(row))))];
  }

  lemma Releases(cfg: Config, s: State, row: Row, tid: nat, th: Thread, log: seq<Event>)
    requires th.pc.Releasing?
    ensures Next(cfg, Scene(s, row, Some(Lane(tid, "x", th.pc.attempt)), tid, th, log), Release(tid))
         == Scene(s.(finished := s.finished + {th.pc.attempt}), row, None, tid, th.(pc := Finished(th.pc.reply)), log)
  {
    var s' := Next(cfg, Scene(s, row, Some(Lane(tid, "x", th.pc.attempt)), tid, th, log), Release(tid));
    assert s'.threads == s.threads[tid := th.(pc := Finished(th.pc.reply))];
  }

  lemma Acknowledges(cfg: Config, s: State, row: Row, owner: string, now: Instant)
    requires s.rows == map["x" := row] && row.status == Completed && row.owner == owner && row.expires > Seconds(now)
    ensures var s' := Next(cfg, s, Ack(owner, "x", Persisted, now));
            && s' == s.(rows := s'.rows) && s'.rows.Keys == {"x"} && s'.rows["x"].status == Acknowledged
            && s'.rows["x"].updated == Seconds(now) && s'.rows["x"].expires == row.expires
  {
    LoneRowStays(row, now, cfg.limits.retention);
  }

  lemma RunAdmits(cfg: Config, steps: seq<Step>, s: State, tid: nat, owner: string, r: Request, now: Instant)
    requires cfg.limits.maxOpenTotal >= 1 && cfg.limits.maxOpenPerCredential >= 1 && s == Run(cfg, steps) && tid !in s.threads
    requires Cleanup(s.rows, now, cfg.limits.retention) == map[] && r.id == "x"
    requires now < r.digest.expires * MICROS && r.digest.expires <= MaximumExpiry(now, cfg.lifetime)
    ensures Run(cfg, steps + [Submit(tid, owner, r, now)])
         == Scene(s.(born := s.born["x" := |s.log|]), FreshRow(r, owner, now), s.lane, tid, Thread(owner, r, |s.log|, Claiming),
                  s.log + [Inserted("x", owner, r.digest, Seconds(now))])
  {
    Admits(cfg, s, tid, owner, r, now);
    RunSnoc(cfg, steps, Submit(tid, owner, r, now));
  }

  /** From the reserved row to the call, when the lane is free. */
  lemma RunCalls(cfg: Config, steps: seq<Step>, s: State, row: Row, tid: nat, th: Thread, a: nat, now: Instant, log: seq<Event>)
    requires "x" in s.born && th.request.id == "x" && row.status == Reserved && row.expires > Seconds(now)
    requires th.request.digest.expires > Seconds(now) && th.pc == Claiming && a !in s.issued
    requires Run(cfg, steps) == Scene(s, row, None, tid, th, log)
    ensures Run(cfg, steps + [Claim(tid, a), Prepare(tid, now), Dispatch(tid, now)])
         == Scene(s.(issued := s.issued + {a}), Taken(row, a, now), Some(Lane(tid, "x", a)), tid,
                  th.(pc := Calling(a, s.born["x"])), log + [Called("x", th.owner, th.request.digest, s.born["x"], a)])
  {
    var t := s.(issued := s.issued + {a});
    Claims(cfg, s, row, tid, th, a, log);
    Marks(cfg, t, row, tid, th.(pc := Preparing(a)), a, now, log);
    Dispatches(cfg, t, Taken(row, a, now), Some(Lane(tid, "x", a)), tid, th.(pc := Marked(a, s.born["x"])), now, log);
    TwoSteps(cfg, steps, Claim(tid, a), Prepare(tid, now));
    RunSnoc(cfg, steps + [Claim(tid, a), Prepare(tid, now)], Dispatch(tid, now));
    assert steps + [Claim(tid, a), Prepare(tid, now)] + [Dispatch(tid, now)]
        == steps + [Claim(tid, a), Prepare(tid, now), Dispatch(tid, now)];
  }

  /** From the call to the stored result. */
  lemma RunStores(cfg: Config, steps: seq<Step>, s: State, row: Row, lane: Option<Lane>, tid: nat, th: Thread, now: Instant, log: seq<Event>)
    requires th.request.id == "x" && th.pc.Calling?
    requires row.status == InProgress && row.attempt == Some(th.pc.attempt) && row.expires > Seconds(now)
    requires Run(cfg, steps) == Scene(s, row, lane, tid, th, log)
    ensures var a := th.pc.attempt;
            Run(cfg, steps + [Return(tid, Produced("m", "c")), Settle(tid, 0, now)])
            == Scene(s, Kept(s, row, now), lane, tid, th.(pc := Collecting(a, th.pc.row)),
                     log + [Ended(a, Produced("m", "c")), Stored(th.pc.row, a, s.release, Seconds(now))])
  {
    var a := th.pc.attempt;
    var log1 := log + [Ended(a, Produced("m", "c"))];
    Returns(cfg, s, row, lane, tid, th, log);
    Settles(cfg, s, row, lane, tid, th.(pc := Returned(a, th.pc.row, Produced("m", "c"))), now, log1);
    TwoSteps(cfg, steps, Return(tid, Produced("m", "c")), Settle(tid, 0, now));
    assert log1 + [Stored(th.pc.row, a, s.release, Seconds(now))]
        == log + [Ended(a, Produced("m", "c")), Stored(th.pc.row, a, s.release, Seconds(now))];
  }

  /** From the stored result to the reply and the free lane. */
  lemma RunReads(cfg: Config, steps: seq<Step>, s: State, row: Row, tid: nat, th: Thread, now: Instant, log: seq<Event>)
    requires "x" in s.born && th.request.id == "x" && th.pc.Collecting? && row.status == Completed && row.expires > Seconds(now)
    requires row.owner == th.owner && row.digest == th.request.digest && ExistingResponse("x", row) == Some(Answer(Reading(row)))
    requires Run(cfg, steps) == Scene(s, row, Some(Lane(tid, "x", th.pc.attempt)), tid, th, log)
    ensures Run(cfg, steps + [Collect(tid, now), Release(tid)])
         == Scene(s.(finished := s.finished + {th.pc.attempt}), row, None, tid, th.(pc := Finished(Answer(Reading(row)))),
                  log + [Answered(s.born["x"], Reading(row), Seconds(now))])
  {
    var a := th.pc.attempt;
    Collects(cfg, s, row, Some(Lane(tid, "x", a)), tid, th, now, log);
    Releases(cfg, s, row, tid, th.(pc := Releasing(a, Answer(Reading(row)))), log + [Answered(s.born["x"], Reading(row), Seconds(now))]);
    TwoSteps(cfg, steps, Collect(tid, now), Release(tid));
  }

  lemma RunReplays(cfg: Config, steps: seq<Step>, s: State, row: Row, tid: nat, owner: string, r: Request, now: Instant)
    requires s == Run(cfg, steps) && tid !in s.threads && s.rows == map["x" := row] && "x" in s.born && r.id == "x"
    requires row.status == Completed && row.owner == owner && row.digest == r.digest && row.expires == r.digest.expires > Seconds(now)
    requires r.digest.expires <= MaximumExpiry(now, cfg.lifetime) && ExistingResponse("x", row) == Some(Answer(Reading(row)))
    ensures Run(cfg, steps + [Submit(tid, owner, r, now)]).log == s.log + [Answered(s.born["x"], Reading(row), Seconds(now))]
  {
    Replays(cfg, s, row, tid, owner, r, now);
    RunSnoc(cfg, steps, Submit(tid, owner, r, now));
  }

  lemma KeptReads(s: State, row: Row, now: Instant)
    ensures ExistingResponse("x", Kept(s, row, now)) == Some(Answer(Reading(Kept(s, row, now))))
  {
  }
}
