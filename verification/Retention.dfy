/** The exact retention: a run that executes a request twice whenever the retention is shorter than the
    lifetime, and hence the condition on the two settings that decides the guarantee. */
module Retention {
  import opened Outcomes
  import opened RequestTable
  import opened Gateway
  import opened Tombstones
  import opened Execution
  import opened Passages

  lemma HorizonExists(steps: seq<Step>)
    ensures exists hi :: Until(steps, hi)
  {
    if steps == [] {
      assert Until(steps, 0);
    } else {
      var init, last := steps[..|steps| - 1], steps[|steps| - 1];
      HorizonExists(init);
      var hi :| Until(init, hi);
      var later := if HasClock(last) && last.now > hi then last.now else hi;
      assert forall i :: 0 <= i < |init| ==> init[i] == steps[i];
      assert Until(steps, later);
    }
  }

  /** A request that arrives a fraction into a second, with the longest expiry the policy admits. */
  function LongRequest(lifetime: nat): Request {
    Request("x", Digest(lifetime + 1, ""))
  }

  /** Two threads are admitted to its one row, and the second of them executes it to the end ... */
  function FirstLife(lifetime: nat): seq<Step> {
    var r := LongRequest(lifetime);
    [Submit(0, "o", r, 1), Submit(1, "o", r, 1), Claim(1, 0), Prepare(1, 1), Dispatch(1, 1), Return(1, Produced("m", "c")),
     Settle(1, 0, 1), Collect(1, 1), Release(1), Ack("o", "x", Persisted, 1)]
  }

  /** When the tombstone is forgotten, which is still before the expiry. */
  function Later(retention: nat): Instant {
    (retention + 1) * MICROS
  }

  /** ... and then it is submitted and executed a second time. */
  function SecondLife(lifetime: nat, retention: nat): seq<Step> {
    var later := Later(retention);
    [Submit(2, "o", LongRequest(lifetime), later), Claim(2, 1), Prepare(2, later), Dispatch(2, later)]
  }

  /** The limits leave room for one open row. */
  ghost predicate Roomy(cfg: Config) {
    cfg.limits.maxOpenTotal >= 1 && cfg.limits.maxOpenPerCredential >= 1
  }

  /** After the first life: one acknowledged row, the lane free, one answered call, and the first thread
      about to claim the lane. */
  ghost predicate OnceAnswered(s: State, lifetime: nat) {
    var r := LongRequest(lifetime);
    && s.rows.Keys == {"x"}
    && s.rows["x"].status == Acknowledged && s.rows["x"].updated == 0 && s.rows["x"].expires == lifetime + 1
    && s.lane == None && s.threads.Keys == {0, 1} && s.threads[0] == Thread("o", r, 0, Claiming) && s.issued == {0}
    && |s.log| == 5
    && s.log[0] == Inserted("x", "o", r.digest, 0)
    && s.log[1] == Called("x", "o", r.digest, 0, 0)
    && s.log[2] == Ended(0, Produced("m", "c")) && s.log[3].Stored? && s.log[4].Answered?
    && s.log[3].row == s.log[4].row == 0
  }

  /** The state in which both threads have been admitted. */
  function Admitted(cfg: Config): State {
    var r := LongRequest(cfg.lifetime);
    Start(cfg).(rows := map["x" := FreshRow(r, "o", 1)], born := map["x" := 0],
                threads := map[0 := Thread("o", r, 0, Claiming), 1 := Thread("o", r, 0, Claiming)],
                log := [Inserted("x", "o", r.digest, 0)])
  }

  lemma FirstAdmission(cfg: Config)
    requires Roomy(cfg) && cfg.lifetime >= 1
    ensures Run(cfg, FirstLife(cfg.lifetime)[..2]) == Admitted(cfg)
  {
    var p, r := FirstLife(cfg.lifetime), LongRequest(cfg.lifetime);
    var s0 := Start(cfg);
    Admits(cfg, s0, 0, "o", r, 1);
    var s1 := Next(cfg, s0, p[0]);
    Arrives(cfg, s1, FreshRow(r, "o", 1), 1, "o", r, 1);
    TwoSteps(cfg, [], p[0], p[1]);
    assert [] + [p[0], p[1]] == p[..2];
    assert Next(cfg, s1, p[1]).threads == Admitted(cfg).threads;
  }

  /** What the first life stores. */
  function FirstRow(cfg: Config): Row {
    Kept(Start(cfg), Taken(FreshRow(LongRequest(cfg.lifetime), "o", 1), 0, 1), 1)
  }

  lemma FirstCall(cfg: Config)
    requires Roomy(cfg) && cfg.lifetime >= 1
    ensures var s := Admitted(cfg);
            Run(cfg, FirstLife(cfg.lifetime)[..5])
            == Scene(s.(issued := {0}), Taken(s.rows["x"], 0, 1), Some(Lane(1, "x", 0)), 1, s.threads[1].(pc := Calling(0, 0)),
                     s.log + [Called("x", "o", LongRequest(cfg.lifetime).digest, 0, 0)])
  {
    var p, s := FirstLife(cfg.lifetime), Admitted(cfg);
    FirstAdmission(cfg);
    assert s.threads == s.threads[1 := s.threads[1]];
    RunCalls(cfg, p[..2], s, s.rows["x"], 1, s.threads[1], 0, 1, s.log);
    assert p[..2] + [p[2], p[3], p[4]] == p[..5];
  }

  lemma FirstResult(cfg: Config)
    requires Roomy(cfg) && cfg.lifetime >= 1
    ensures var s := Admitted(cfg);
            Run(cfg, FirstLife(cfg.lifetime)[..7])
            == Scene(s.(issued := {0}), FirstRow(cfg), Some(Lane(1, "x", 0)), 1, s.threads[1].(pc := Collecting(0, 0)),
                     s.log + [Called("x", "o", LongRequest(cfg.lifetime).digest, 0, 0)]
                     + [Ended(0, Produced("m", "c")), Stored(0, 0, cfg.release, 0)])
  {
    var p, s := FirstLife(cfg.lifetime), Admitted(cfg);
    FirstCall(cfg);
    RunStores(cfg, p[..5], s.(issued := {0}), Taken(s.rows["x"], 0, 1), Some(Lane(1, "x", 0)), 1, s.threads[1].(pc := Calling(0, 0)), 1,
              s.log + [Called("x", "o", LongRequest(cfg.lifetime).digest, 0, 0)]);
    assert p[..5] + [p[5], p[6]] == p[..7];
  }

  lemma FirstAnswer(cfg: Config)
    requires Roomy(cfg) && cfg.lifetime >= 1
    ensures var s := Admitted(cfg);
            Run(cfg, FirstLife(cfg.lifetime)[..9])
            == Scene(s.(issued := {0}, finished := {0}), FirstRow(cfg), None, 1,
                     s.threads[1].(pc := Finished(Answer(Reading(FirstRow(cfg))))),
                     s.log + [Called("x", "o", LongRequest(cfg.lifetime).digest, 0, 0)]
                     + [Ended(0, Produced("m", "c")), Stored(0, 0, cfg.release, 0)]
                     + [Answered(0, Reading(FirstRow(cfg)), 0)])
  {
    var p, s := FirstLife(cfg.lifetime), Admitted(cfg);
    FirstResult(cfg);
    KeptReads(Start(cfg), Taken(s.rows["x"], 0, 1), 1);
    RunReads(cfg, p[..7], s.(issued := {0}), FirstRow(cfg), 1, s.threads[1].(pc := Collecting(0, 0)), 1,
             s.log + [Called("x", "o", LongRequest(cfg.lifetime).digest, 0, 0)]
             + [Ended(0, Produced("m", "c")), Stored(0, 0, cfg.release, 0)]);
    assert p[..7] + [p[7], p[8]] == p[..9];
  }

  lemma FirstLifeRuns(cfg: Config)
    requires Roomy(cfg) && cfg.lifetime >= 1
    ensures OnceAnswered(Run(cfg, FirstLife(cfg.lifetime)), cfg.lifetime)
  {
    var p := FirstLife(cfg.lifetime);
    FirstAnswer(cfg);
    Acknowledges(cfg, Run(cfg, p[..9]), FirstRow(cfg), "o", 1);
    RunSnoc(cfg, p[..9], p[9]);
    assert p[..9] + [p[9]] == p;
  }

  lemma TombstoneIsForgotten(cfg: Config, s: State)
    requires OnceAnswered(s, cfg.lifetime)
    ensures Cleanup(s.rows, Later(cfg.limits.retention), cfg.limits.retention) == map[]
  {
    WholeSeconds(Later(cfg.limits.retention), cfg.limits.retention);
  }

  lemma LaterIsInTime(cfg: Config)
    requires cfg.limits.retention < cfg.lifetime
    ensures var later := Later(cfg.limits.retention);
            Seconds(later) == cfg.limits.retention + 1 && later < (cfg.lifetime + 1) * MICROS
            && cfg.lifetime + 1 <= MaximumExpiry(later, cfg.lifetime)
  {
  }

  predicate InTime(cfg: Config, r: Request, now: Instant) {
    r.digest.expires > Seconds(now) && r.digest.expires * MICROS > now && r.digest.expires <= MaximumExpiry(now, cfg.lifetime)
  }

  lemma LongestIsInTime(cfg: Config, r: Request)
    requires cfg.limits.retention < cfg.lifetime && r.digest.expires == cfg.lifetime + 1
    ensures InTime(cfg, r, Later(cfg.limits.retention)) && Seconds(Later(cfg.limits.retention)) == cfg.limits.retention + 1
  {
    LaterIsInTime(cfg);
  }

  lemma AdmittedInTime(cfg: Config, p: seq<Step>, s: State, owner: string, r: Request, now: Instant)
    requires Roomy(cfg) && s == Run(cfg, p) && s.lane == None && 2 !in s.threads && |s.log| == 5
    requires Cleanup(s.rows, now, cfg.limits.retention) == map[] && r.id == "x" && InTime(cfg, r, now)
    ensures Run(cfg, p + [Submit(2, owner, r, now)])
            == Scene(s.(born := s.born["x" := 5]), FreshRow(r, owner, now), None, 2, Thread(owner, r, 5, Claiming),
                     s.log + [Inserted("x", owner, r.digest, Seconds(now))])
  {
    RunAdmits(cfg, p, s, 2, owner, r, now);
  }

  lemma AdmittedLater(cfg: Config, p: seq<Step>, s: State, owner: string, r: Request)
    requires Roomy(cfg) && cfg.limits.retention < cfg.lifetime && s == Run(cfg, p)
    requires s.lane == None && 2 !in s.threads && |s.log| == 5 && r.id == "x" && r.digest.expires == cfg.lifetime + 1
    requires Cleanup(s.rows, Later(cfg.limits.retention), cfg.limits.retention) == map[]
    ensures var later := Later(cfg.limits.retention);
            Run(cfg, p + [Submit(2, owner, r, later)])
            == Scene(s.(born := s.born["x" := 5]), FreshRow(r, owner, later), None, 2, Thread(owner, r, 5, Claiming),
                     s.log + [Inserted("x", owner, r.digest, cfg.limits.retention + 1)])
  {
    LongestIsInTime(cfg, r);
    AdmittedInTime(cfg, p, s, owner, r, Later(cfg.limits.retention));
  }

  /** Once the tombstone is forgotten, whoever comes first owns the id: any request under it with the
      longest expiry is admitted. */
  lemma SecondAdmission(cfg: Config, p: seq<Step>, s: State, owner: string, r: Request)
    requires Roomy(cfg) && cfg.limits.retention < cfg.lifetime
    requires s == Run(cfg, p) && OnceAnswered(s, cfg.lifetime) && r.id == "x" && r.digest.expires == cfg.lifetime + 1
    ensures var later := Later(cfg.limits.retention);
            Run(cfg, p + [Submit(2, owner, r, later)])
            == Scene(s.(born := s.born["x" := 5]), FreshRow(r, owner, later), None, 2, Thread(owner, r, 5, Claiming),
                     s.log + [Inserted("x", owner, r.digest, cfg.limits.retention + 1)])
  {
    TombstoneIsForgotten(cfg, s);
    AdmittedLater(cfg, p, s, owner, r);
  }

  /** After any run that leaves one acknowledged row behind, the same request is admitted and called again. */
  lemma SecondCall(cfg: Config, p: seq<Step>, s: State)
    requires Roomy(cfg) && cfg.limits.retention < cfg.lifetime
    requires s == Run(cfg, p) && OnceAnswered(s, cfg.lifetime)
    ensures var d := LongRequest(cfg.lifetime).digest;
            Run(cfg, p + SecondLife(cfg.lifetime, cfg.limits.retention)).log
            == s.log + [Inserted("x", "o", d, cfg.limits.retention + 1)] + [Called("x", "o", d, 5, 1)]
  {
    var r, later := LongRequest(cfg.lifetime), Later(cfg.limits.retention);
    SecondAdmission(cfg, p, s, "o", r);
    LaterIsInTime(cfg);
    var q := SecondLife(cfg.lifetime, cfg.limits.retention);
    RunCalls(cfg, p + [q[0]], s.(born := s.born["x" := 5]), FreshRow(r, "o", later), 2, Thread("o", r, 5, Claiming), 1, later,
             s.log + [Inserted("x", "o", r.digest, cfg.limits.retention + 1)]);
    assert p + [q[0]] + [q[1], q[2], q[3]] == p + q;
  }

  /** The first life, and any steps that happen later. */
  lemma LivesNonDecreasing(lifetime: nat, retention: nat, q: seq<Step>)
    requires forall i :: 0 <= i < |q| && HasClock(q[i]) ==> q[i].now == Later(retention)
    ensures NonDecreasing(FirstLife(lifetime) + q)
  {
    var p := FirstLife(lifetime);
    assert forall i :: 0 <= i < |p| && HasClock(p[i]) ==> p[i].now == 1;
    assert forall i :: 0 <= i < |p + q| ==> (p + q)[i] == if i < |p| then p[i] else q[i - |p|];
  }

  lemma TwoLivesRepeat(log: seq<Event>, d: Digest, at: int)
    requires |log| == 7 && log[0] == Inserted("x", "o", d, 0) && log[1] == Called("x", "o", d, 0, 0)
    requires log[2].Ended? && log[2].outcome.Produced? && log[3].Stored? && log[4].Answered?
    requires log[5] == Inserted("x", "o", d, at) && log[6] == Called("x", "o", d, 5, 1)
    ensures !InsertedOnce(log) && !ExecutedOnce(log)
  {
    assert log[0].Inserted? && log[5].Inserted?;
    assert log[1].Called? && log[6].Called?;
    assert forall k :: 1 < k < 6 ==> log[k] != Ended(0, Unavailable);
  }

  /** Any shorter retention lets a request be inserted and executed twice. */
  lemma ShorterRetentionRepeats(cfg: Config)
    requires Roomy(cfg) && cfg.limits.retention < cfg.lifetime
    ensures var steps := FirstLife(cfg.lifetime) + SecondLife(cfg.lifetime, cfg.limits.retention);
            NonDecreasing(steps) && !InsertedOnce(Run(cfg, steps).log) && !ExecutedOnce(Run(cfg, steps).log)
  {
    var p, q := FirstLife(cfg.lifetime), SecondLife(cfg.lifetime, cfg.limits.retention);
    FirstLifeRuns(cfg);
    SecondCall(cfg, p, Run(cfg, p));
    LivesNonDecreasing(cfg.lifetime, cfg.limits.retention, q);
    TwoLivesRepeat(Run(cfg, p + q).log, LongRequest(cfg.lifetime).digest, cfg.limits.retention + 1);
  }

  /** In runs whose clock readings never go back: no request is inserted twice exactly when tombstones
      outlast the longest lifetime, and none that may have reached the model is sent again exactly then. */
  lemma RetentionDecides(cfg: Config)
    requires Roomy(cfg)
    ensures (forall steps :: NonDecreasing(steps) ==> InsertedOnce(Run(cfg, steps).log))
            <==> cfg.limits.retention >= cfg.lifetime
    ensures (forall steps :: NonDecreasing(steps) ==> ExecutedOnce(Run(cfg, steps).log))
            <==> cfg.limits.retention >= cfg.lifetime
  {
    if cfg.limits.retention >= cfg.lifetime {
      forall steps | NonDecreasing(steps) ensures InsertedOnce(Run(cfg, steps).log) && ExecutedOnce(Run(cfg, steps).log) {
        HorizonExists(steps);
        var hi :| Until(steps, hi);
        RetainedMeansOnce(cfg, steps, hi);
      }
    } else {
      ShorterRetentionRepeats(cfg);
    }
  }
}
