/** The two ways the program is deployed: with its primary worker alone, or with the choice between two workers. */
module Deployments {
  import opened Gateway
  import opened Outcomes
  import opened Submissions
  import SchemaPositions

  datatype InferenceWorker = Alone(primary: R.Worker) | Routed(router: R.FallbackWorker)
  {
    ghost predicate On(world: R.World) {
      match this
      case Alone(primary) => primary.world == world && primary.side == R.Primary
      case Routed(router) => router.Valid() && router.world == world
    }
  }

  /** The gateway's call of its worker, which names no deadline: the outcome, and the trace that the call leaves.
      Whichever worker it is, a completion request goes out within the timeout and means what the outcome says. */
  method Infer(worker: InferenceWorker, world: R.World, task: SchemaPositions.Task, timeout: int)
    returns (r: Outcome, ghost s: seq<R.Act>)
    requires worker.On(world)
    modifies world
    ensures world.trace == old(world.trace) + s && Served(s, r)
    ensures forall i :: 0 <= i < |s| && s[i].Posted? ==> R.MeansOutcome(s[i].post, r)
    ensures worker.Alone? && timeout >= 0 ==> forall i :: 0 <= i < |s| && s[i].Posted? ==> s[i].at <= old(world.now) + timeout
    ensures worker.Routed? ==>
              |s| > 0 && s[0].ClockRead? && forall i :: 0 <= i < |s| && s[i].Posted? ==> s[i].at <= s[0].at + timeout
  {
    ghost var before := world.trace;
    match worker {
      case Alone(primary) =>
        r := primary.Infer(task, timeout, None);
        s := world.trace[|before|..];
        assert forall i :: 0 <= i < |s| ==> s[i] == world.trace[|before| + i];
      case Routed(router) =>
        ghost var start;
        r, start := router.Infer(task, timeout, None);
        s := world.trace[|before|..];
        assert R.IsRouted(s, task in router.eligible, R.Deadline(start, timeout, None), r);
        RoutedCallsPostOnce(s, task in router.eligible, R.Deadline(start, timeout, None), r);
    }
    ServedCallsPostOnce(s, r);
  }
}
