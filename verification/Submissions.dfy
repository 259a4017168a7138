/** The lifecycle and the routing together: after a completion request that may have been accepted, none follows. */
module Submissions {
  import opened Execution
  import opened Gateway
  import opened GatewayInvariant
  import opened Outcomes
  import opened RequestTable
  import opened Tombstones
  import R = Routing

  /** Every completion request failed to connect, or was answered with status 404, 429 or 500 to 599. */
  predicate AllRefused(s: seq<R.Act>) {
    forall i :: 0 <= i < |s| && s[i].Posted? ==>
      s[i].post.NoConnection?
      || (s[i].post.Replied? && (s[i].post.status in {404, 429} || 500 <= s[i].post.status <= 599))
  }

  /** Nothing was sent. */
  predicate NoPost(s: seq<R.Act>) {
    forall i :: 0 <= i < |s| ==> !s[i].Posted?
  }

  /** At most the last act is a completion request, and then it is in time and decides the outcome. */
  predicate PostsLast(s: seq<R.Act>, side: R.Side, deadline: int, r: Outcome) {
    if NoPost(s) then r == Unavailable || r == OtherFault
    else
      && NoPost(s[..|s| - 1]) && s[|s| - 1].Posted? && s[|s| - 1].side == side
      && s[|s| - 1].at <= deadline && r == R.Classified(s[|s| - 1].post)
  }

  lemma CallsPostLast(s: seq<R.Act>, side: R.Side, deadline: int, r: Outcome)
    requires R.IsTimedCall(s, side, deadline, r)
    ensures PostsLast(s, side, deadline, r)
  {
    if s[0].at < deadline && s[1].at < deadline && s[2].capacity == R.Told(R.Available) {
      assert s[1..][1..] == s[2..] && s[2..][1] == s[3] && |s| == 4;
    }
  }

  lemma PostsLater(before: seq<R.Act>, s: seq<R.Act>, side: R.Side, deadline: int, r: Outcome)
    requires NoPost(before) && PostsLast(s, side, deadline, r)
    ensures PostsLast(before + s, side, deadline, r)
  {
    var t := before + s;
    assert forall i :: 0 <= i < |before| ==> t[i] == before[i];
    assert forall i :: 0 <= i < |s| ==> t[|before| + i] == s[i];
    if !NoPost(s) {
      assert t[|t| - 1] == s[|s| - 1];
      assert t[..|t| - 1] == before + s[..|s| - 1];
    }
  }

  /** The order of the evidence: the primary's answer, and for the fallback an empty machine and then its own answer,
      at their places in the trace. */
  predicate Evidence(s: seq<R.Act>, side: R.Side, eligible: bool) {
    && |s| >= 3
    && if side == R.Primary then s[2] == R.Probed(R.Primary, R.Available)
       else
         && eligible && |s| >= 7 && s[2] == R.Probed(R.Primary, R.NotAvailable)
         && s[4] == R.ResidencyRead(true) && s[6] == R.Probed(R.Fallback, R.Available)
  }

  lemma RoutedTraces(s: seq<R.Act>, eligible: bool, deadline: int, r: Outcome)
    requires R.IsRouted(s, eligible, deadline, r)
    ensures NoPost(s) ==> r == Unavailable || r == OtherFault
    ensures !NoPost(s) ==> exists side :: PostsLast(s, side, deadline, r) && Evidence(s, side, eligible)
  {
    if |s| >= 3 {
      var rest := s[3..];
      assert s == s[..3] + rest;
      if s[2] == R.Probed(R.Primary, R.Available) {
        CallsPostLast(rest, R.Primary, deadline, r);
        PostsLater(s[..3], rest, R.Primary, deadline, r);
        assert Evidence(s, R.Primary, eligible);
      } else if s[2] == R.Probed(R.Primary, R.NotAvailable) && |rest| >= 4
                && R.IsReadiness(rest[..4], eligible, deadline, Ok(true)) && R.IsTimedCall(rest[4..], R.Fallback, deadline, r) {
        assert s == s[..7] + rest[4..] && s[4] == rest[..4][1] && s[6] == rest[..4][3];
        assert forall i :: 0 <= i < 4 ==> s[3 + i] == rest[..4][i];
        CallsPostLast(rest[4..], R.Fallback, deadline, r);
        PostsLater(s[..7], rest[4..], R.Fallback, deadline, r);
        assert Evidence(s, R.Fallback, eligible);
      }
    }
  }

  /** A routed call makes at most one completion request; it goes to a worker proven ready, by the deadline, and
      decides the outcome of the call. */
  lemma RoutedCallsPostOnce(s: seq<R.Act>, eligible: bool, deadline: int, r: Outcome)
    requires R.IsRouted(s, eligible, deadline, r)
    ensures forall i, j :: 0 <= i < j < |s| ==> !(s[i].Posted? && s[j].Posted?)
    ensures forall i :: 0 <= i < |s| && s[i].Posted? ==>
              s[i].at <= deadline && r == R.Classified(s[i].post) && Evidence(s, s[i].side, eligible)
    ensures r == Unavailable ==> AllRefused(s)
  {
    RoutedTraces(s, eligible, deadline, r);
    if !NoPost(s) {
      var side :| PostsLast(s, side, deadline, r) && Evidence(s, side, eligible);
      forall i | 0 <= i < |s| - 1 ensures !s[i].Posted? { assert s[i] == s[..|s| - 1][i]; }
      R.UnavailableMeansRefused(s[|s| - 1].post);
    }
  }

  /** A call of a worker on its own, without a deadline, makes at most one completion request; it follows the worker's
      answer that it has the capacity, and decides the outcome of the call. */
  lemma BareCallsPostOnce(s: seq<R.Act>, side: R.Side, r: Outcome)
    requires R.IsCall(s, side, None, r)
    ensures forall i, j :: 0 <= i < j < |s| ==> !(s[i].Posted? && s[j].Posted?)
    ensures forall i :: 0 <= i < |s| && s[i].Posted? ==>
              s[i].side == side && r == R.Classified(s[i].post) && i > 0 && s[i - 1].CapacityRead? && s[i - 1].capacity == R.Told(R.Available)
    ensures r == Unavailable ==> AllRefused(s)
  {
    if |s| == 2 {
      R.UnavailableMeansRefused(s[1].post);
    }
  }

  /** What a call leaves behind under either deployment: the primary worker alone, or the choice between two. */
  ghost predicate Served(s: seq<R.Act>, r: Outcome) {
    R.IsCall(s, R.Primary, None, r) || exists eligible: bool, deadline: int :: R.IsRouted(s, eligible, deadline, r)
  }

  lemma ServedCallsPostOnce(s: seq<R.Act>, r: Outcome)
    requires Served(s, r)
    ensures forall i, j :: 0 <= i < j < |s| ==> !(s[i].Posted? && s[j].Posted?)
    ensures forall i :: 0 <= i < |s| && s[i].Posted? ==> r == R.Classified(s[i].post) && R.MeansOutcome(s[i].post, r)
    ensures r == Unavailable ==> AllRefused(s)
  {
    forall i | 0 <= i < |s| && s[i].Posted? ensures R.MeansOutcome(s[i].post, R.Classified(s[i].post)) {
      R.OutcomesMean(s[i].post);
    }
    if R.IsCall(s, R.Primary, None, r) {
      BareCallsPostOnce(s, R.Primary, r);
    } else {
      var eligible, deadline :| R.IsRouted(s, eligible, deadline, r);
      RoutedCallsPostOnce(s, eligible, deadline, r);
    }
  }

  /** The traces of the worker calls of a run, by attempt: a call that ended left a trace of the deployment's worker
      with its outcome; a call that a crash cut off may have left anything. */
  ghost predicate Traced(log: seq<Event>, calls: map<nat, seq<R.Act>>) {
    forall i :: 0 <= i < |log| && log[i].Ended? && log[i].attempt in calls ==> Served(calls[log[i].attempt], log[i].outcome)
  }

  /** No call that ended is without its trace. */
  ghost predicate AllTraced(log: seq<Event>, calls: map<nat, seq<R.Act>>) {
    Traced(log, calls) && forall i :: 0 <= i < |log| && log[i].Ended? ==> log[i].attempt in calls
  }

  lemma DeclinedWasRefused(log: seq<Event>, calls: map<nat, seq<R.Act>>, attempt: nat, k: nat)
    requires Traced(log, calls) && attempt in calls && k < |log| && log[k] == Ended(attempt, Unavailable)
    ensures AllRefused(calls[attempt])
  {
    ServedCallsPostOnce(calls[attempt], Unavailable);
  }

  /** In every run, before a row is worked on again, every completion request for it was refused by its worker. */
  lemma NoRequestAfterAnAcceptedOne(cfg: Config, steps: seq<Step>, calls: map<nat, seq<R.Act>>, i: nat, j: nat)
    requires var log := Run(cfg, steps).log;
             Traced(log, calls) && i < j < |log| && log[i].Called? && log[j].Called?
             && log[i].row == log[j].row && log[i].attempt in calls
    ensures AllRefused(calls[Run(cfg, steps).log[i].attempt])
  {
    RunKeepsInv(cfg, steps);
    var log := Run(cfg, steps).log;
    var k :| i < k < j && log[k] == Ended(log[i].attempt, Unavailable);
    DeclinedWasRefused(log, calls, log[i].attempt, k);
  }

  /** With a retention of at least the lifetime the same holds for a request across all its rows. */
  lemma NoRequestAfterAnAcceptedOneEver(cfg: Config, steps: seq<Step>, hi: Instant, calls: map<nat, seq<R.Act>>, i: nat, j: nat)
    requires NonDecreasing(steps) && Until(steps, hi) && cfg.limits.retention >= cfg.lifetime
    requires var log := Run(cfg, steps).log;
             Traced(log, calls) && i < j < |log| && log[i].Called? && log[j].Called?
             && log[i].id == log[j].id && log[i].digest == log[j].digest && log[i].attempt in calls
    ensures AllRefused(calls[Run(cfg, steps).log[i].attempt])
  {
    RetainedMeansOnce(cfg, steps, hi);
    var log := Run(cfg, steps).log;
    var k :| i < k < j && log[k] == Ended(log[i].attempt, Unavailable);
    DeclinedWasRefused(log, calls, log[i].attempt, k);
  }
  /** The worker may have taken the completion request: it answered with another status than 404, 429 or 500 to 599,
      or the connection was lost after the request went out. */
  predicate MayBeTaken(post: R.Post) {
    post.Lost? || post.Failed?
    || (post.Replied? && post.status != 404 && post.status != 429 && !(500 <= post.status <= 599))
  }

  /** In every run, a call whose completion request may have been taken is the last one for its row. */
  lemma TakenRequestIsTheLast(cfg: Config, steps: seq<Step>, calls: map<nat, seq<R.Act>>, i: nat, k: nat)
    requires var log := Run(cfg, steps).log;
             Traced(log, calls) && i < |log| && log[i].Called? && log[i].attempt in calls
    requires var s := calls[Run(cfg, steps).log[i].attempt];
             k < |s| && s[k].Posted? && MayBeTaken(s[k].post)
    ensures var log := Run(cfg, steps).log;
            forall j :: i < j < |log| && log[j].Called? ==> log[j].row != log[i].row
  {
    var log := Run(cfg, steps).log;
    forall j | i < j < |log| && log[j].Called? && log[j].row == log[i].row ensures false {
      NoRequestAfterAnAcceptedOne(cfg, steps, calls, i, j);
    }
  }
}
