/** One call of the worker: the capacity check, the single completion request and its exceptions, and the choice
    between a primary and a fallback worker against a moving deadline. */
module Routing {
  import opened Gateway
  import opened Outcomes
  import opened SchemaPositions
  import opened Sums

  const DOCUMENT_TASK_V2: Task := Task("document.summary.step", 2)
  const DOCUMENT_CONTEXT_TOKENS: nat := 32_768

  function RequiredContextTokens(task: Task): nat {
    if task == DOCUMENT_TASK_V2 then DOCUMENT_CONTEXT_TOKENS else 0
  }

  datatype Side = Primary | Fallback

  datatype Kind = Ollama | LMStudio

  datatype Availability = Available | NotAvailable | Undetermined

  /** The body of a reply below 400: a document whose validated result may be missing, a malformed body, or a
      connection that broke while it was read. */
  datatype Body = Document(result: Option<(string, string)>) | Malformed | Broken

  /** How one completion request went. Lost is a timeout or a transport error after submission. */
  datatype Post = NoConnection | Replied(status: int, body: Body) | Lost | Failed

  /** How the capacity check inside a call went. */
  datatype Capacity = Told(answer: Availability) | Unreachable | BadReply | Interrupted | Broke

  /** What a call does and learns, in order. Crashed is an exception outside the worker's own. */
  datatype Act =
    | ClockRead(at: int)
    | Probed(side: Side, answer: Availability)
    | ResidencyRead(empty: bool)
    | CapacityRead(side: Side, minimum: nat, capacity: Capacity)
    | Crashed
    | Posted(side: Side, at: int, post: Post)

  /** The statuses that say that the worker did not admit the request. */
  predicate RefusedStatus(status: int) {
    status in {404, 429} || 500 <= status <= 599
  }

  /** The worker certainly did not accept the request. */
  predicate Refused(post: Post) {
    post.NoConnection? || (post.Replied? && RefusedStatus(post.status))
  }

  /** The outcome of a call whose completion request went in the given way. */
  function Classified(post: Post): Outcome {
    match post
    case NoConnection => Unavailable
    case Lost => Unknown
    case Failed => OtherFault
    case Replied(status, body) =>
      if RefusedStatus(status) then Unavailable
      else if status >= 400 then Invalid
      else
        match body
        case Malformed => Invalid
        case Broken => Unknown
        case Document(None) => Invalid
        case Document(Some(result)) => Produced(result.0, result.1)
  }

  /** A call reports the worker unavailable after a completion request only if the worker refused it. */
  lemma UnavailableMeansRefused(post: Post)
    ensures Classified(post) == Unavailable <==> Refused(post)
  {
  }

  /** What each way a completion request can go means for the caller, by the numbers: no connection, or a reply with
      status 404, 429 or 500 to 599, says that the request was not taken; any other status from 400 on says that it was
      rejected; below 400 the document decides, and a validated document gives exactly its result; a timeout or a
      broken connection leaves the outcome open. */
  predicate MeansOutcome(post: Post, r: Outcome) {
    match post
    case NoConnection => r == Unavailable
    case Lost => r == Unknown
    case Failed => r == OtherFault
    case Replied(status, body) =>
      && (status == 404 || status == 429 || (500 <= status && status <= 599) ==> r == Unavailable)
      && (400 <= status && status != 404 && status != 429 && !(500 <= status && status <= 599) ==> r == Invalid)
      && (status < 400 && body == Malformed ==> r == Invalid)
      && (status < 400 && body == Broken ==> r == Unknown)
      && (status < 400 && body == Document(None) ==> r == Invalid)
      && (status < 400 && body.Document? && body.result.Some? ==> r == Produced(body.result.value.0, body.result.value.1))
  }

  lemma OutcomesMean(post: Post)
    ensures MeansOutcome(post, Classified(post))
  {
  }

  /** What an act of a call asks of the worker's capacity. LM Studio has none to show for the extended task. */
  predicate MeetsDemand(act: Act, task: Task, kind: Kind) {
    act.CapacityRead? ==>
      if task.id == "document.summary.step" && task.version == 2 then
        act.minimum == 32768 && (kind == LMStudio ==> act.capacity == Told(NotAvailable))
      else act.minimum == 0 && act.capacity == Told(Available)
  }

  /** The outside world: a clock that never goes back, and answers that nothing here decides. */
  class World {
    var now: int
    var trace: seq<Act>

    /** Some time passes. */
    method Pass()
      modifies this`now
      ensures now >= old(now)
    {
      var d: int :| d >= 0;
      now := now + d;
    }

    method ReadClock() returns (t: int)
      modifies this
      ensures t == now >= old(now) && trace == old(trace) + [ClockRead(t)]
    {
      Pass();
      t := now;
      trace := trace + [ClockRead(t)];
    }

    /** Asks whether a worker is available; None is an exception outside the worker's own. */
    method Probe(side: Side) returns (r: Option<Availability>)
      modifies this
      ensures now >= old(now)
      ensures trace == old(trace) + [if r.Some? then Probed(side, r.value) else Crashed]
    {
      Pass();
      r := *;
      trace := trace + [if r.Some? then Probed(side, r.value) else Crashed];
    }

    /** Asks whether the primary machine holds no model; a failure to find out counts as no. */
    method ReadResidency() returns (r: Option<bool>)
      modifies this
      ensures now >= old(now)
      ensures trace == old(trace) + [if r.Some? then ResidencyRead(r.value) else Crashed]
    {
      Pass();
      r := *;
      trace := trace + [if r.Some? then ResidencyRead(r.value) else Crashed];
    }

    /** The capacity check under a timer: an answer that comes after the limit is an interruption. */
    method CheckCapacity(side: Side, minimum: nat, limit: int) returns (c: Capacity)
      modifies this
      ensures now >= old(now) && trace == old(trace) + [CapacityRead(side, minimum, c)]
      ensures c.Told? ==> now <= limit || now == old(now)
    {
      var before := now;
      Pass();
      c := *;
      if c.Told? && now > limit && now != before { c := Interrupted; }
      trace := trace + [CapacityRead(side, minimum, c)];
    }

    method Send(side: Side) returns (post: Post)
      modifies this
      ensures now >= old(now) && trace == old(trace) + [Posted(side, old(now), post)]
    {
      var at := now;
      Pass();
      post := *;
      trace := trace + [Posted(side, at, post)];
    }
  }

  /** What can end the attempt to reach the worker early. */
  datatype Exception = ConnectError | InvalidOutput | Declined | TransportError | Unexpected

  /** The trace of one call of a worker, and its outcome. With a deadline the clock is read first, and nothing more
      happens once it has passed. Then the capacity is established, or the call ends before anything is sent. Then
      exactly one completion request is sent, by the deadline, and decides the outcome. */
  predicate IsCall(s: seq<Act>, side: Side, deadline: Option<int>, r: Outcome) {
    if deadline.Some? then
      && |s| >= 1 && s[0].ClockRead?
      && (if s[0].at >= deadline.value then |s| == 1 && r == Unavailable else IsDispatch(s[1..], side, deadline, r))
    else IsDispatch(s, side, deadline, r)
  }

  predicate IsDispatch(s: seq<Act>, side: Side, deadline: Option<int>, r: Outcome) {
    && |s| >= 1 && s[0].CapacityRead? && s[0].side == side
    && if s[0].capacity != Told(Available) then |s| == 1 && r == (if s[0].capacity.Broke? then OtherFault else Unavailable)
       else
         && |s| == 2 && s[1].Posted? && s[1].side == side && r == Classified(s[1].post)
         && (deadline.Some? ==> s[1].at <= deadline.value)
  }

  class Worker {
    const world: World
    const side: Side
    const kind: Kind

    constructor (world: World, side: Side, kind: Kind)
      ensures this.world == world && this.side == side && this.kind == kind
    {
      this.world := world;
      this.side := side;
      this.kind := kind;
    }

    /** A task without a context demand needs no question; the LM Studio worker has no capacity contract. */
    method ContextAvailability(minimum: nat, limit: int) returns (c: Capacity)
      modifies world
      ensures world.now >= old(world.now) && world.trace == old(world.trace) + [CapacityRead(side, minimum, c)]
      ensures c.Told? ==> world.now <= limit || world.now == old(world.now)
      ensures minimum == 0 ==> c == Told(Available)
      ensures minimum > 0 && kind == LMStudio ==> c == Told(NotAvailable)
    {
      if minimum == 0 || kind == LMStudio {
        c := Told(if minimum == 0 then Available else NotAvailable);
        world.trace := world.trace + [CapacityRead(side, minimum, c)];
      } else {
        c := world.CheckCapacity(side, minimum, limit);
      }
    }

    /** Whether the machine holds no model. The LM Studio worker is never taken as empty, and asks nothing. */
    method FallbackCapacityAvailable() returns (r: Option<bool>)
      modifies world
      ensures world.now >= old(world.now)
      ensures world.trace == old(world.trace) + [if r.Some? then ResidencyRead(r.value) else Crashed]
      ensures kind == LMStudio ==> r == Some(false)
    {
      if kind == LMStudio {
        r := Some(false);
        world.trace := world.trace + [ResidencyRead(false)];
      } else {
        r := world.ReadResidency();
      }
    }

    /** One call: at most one completion request; what is raised depends on whether it was submitted. The capacity
        asked for is 32768 tokens of context for the second version of the document task, and none for every other
        task. A completion request goes out within the timeout, and what becomes of it is the outcome. */
    method Infer(task: Task, timeout: int, deadline: Option<int>) returns (r: Outcome)
      modifies world
      ensures old(world.trace) <= world.trace && world.now >= old(world.now)
      ensures IsCall(world.trace[|old(world.trace)|..], side, deadline, r)
      ensures forall i :: |old(world.trace)| <= i < |world.trace| ==> MeetsDemand(world.trace[i], task, kind)
      ensures forall i :: |old(world.trace)| <= i < |world.trace| && world.trace[i].Posted? ==> MeansOutcome(world.trace[i].post, r)
      ensures timeout >= 0 && deadline.None? ==>
                forall i :: |old(world.trace)| <= i < |world.trace| && world.trace[i].Posted? ==>
                  world.trace[i].at <= old(world.now) + timeout
    {
      ghost var before := world.trace;
      var submitted := false;
      var raised: Option<Exception> := None;
      var result: Option<(string, string)> := None;
      var limit := world.now + timeout;
      if deadline.Some? {
        var t := world.ReadClock();
        if deadline.value - t <= 0 { raised := Some(Declined); }
        limit := t + Min(timeout, deadline.value - t);
      }
      if raised.None? {
        var capacity := ContextAvailability(RequiredContextTokens(task), limit);
        match capacity {
          case Told(answer) => if answer != Available { raised := Some(Declined); }
          case Unreachable => raised := Some(ConnectError);
          case BadReply => raised := Some(InvalidOutput);
          case Interrupted => raised := Some(TransportError);
          case Broke => raised := Some(Unexpected);
        }
      }
      if raised.None? {
        submitted := true;
        var post := world.Send(side);
        raised, result := Received(post);
      }
      ghost var s := world.trace[|before|..];
      assert world.trace == before + s;
      r := Report(submitted, raised, result);
    }

    /** The reply as the program looks at it: the exception it raises, or the validated result. */
    method Received(post: Post) returns (raised: Option<Exception>, result: Option<(string, string)>)
      ensures Report(true, raised, result) == Classified(post)
      ensures MeansOutcome(post, Report(true, raised, result))
    {
      raised, result := None, None;
      match post {
        case NoConnection => raised := Some(ConnectError);
        case Lost => raised := Some(TransportError);
        case Failed => raised := Some(Unexpected);
        case Replied(status, body) =>
          if RefusedStatus(status) { raised := Some(Declined); }
          else if status >= 400 { raised := Some(InvalidOutput); }
          else {
            match body {
              case Malformed => raised := Some(InvalidOutput);
              case Broken => raised := Some(TransportError);
              case Document(validated) => result := validated;
            }
          }
      }
    }

    /** The exception handlers: before submission every known failure means that the worker is unavailable. */
    function Report(submitted: bool, raised: Option<Exception>, result: Option<(string, string)>): Outcome {
      match raised
      case Some(ConnectError) => Unavailable
      case Some(InvalidOutput) => if submitted then Invalid else Unavailable
      case Some(Declined) => Unavailable
      case Some(TransportError) => if submitted then Unknown else Unavailable
      case Some(Unexpected) => OtherFault
      case None => if result.Some? then Produced(result.value.0, result.value.1) else Invalid
    }
  }

  // ---- The choice of a worker ----

  /** A worker that was proven ready is called, unless the deadline has passed. */
  predicate IsTimedCall(s: seq<Act>, side: Side, deadline: int, r: Outcome) {
    && |s| >= 1 && s[0].ClockRead?
    && (if s[0].at >= deadline then |s| == 1 && r == Unavailable else IsCall(s[1..], side, Some(deadline), r))
  }

  /** The questions before the fallback: the task must be eligible, the primary machine empty, and then the fallback
      available, each asked before the deadline; an error is the outcome of the whole call. */
  predicate IsReadiness(s: seq<Act>, eligible: bool, deadline: int, q: Result<bool, Outcome>) {
    if !eligible then s == [] && q == Ok(false)
    else
      && |s| >= 1 && s[0].ClockRead?
      && if s[0].at >= deadline then |s| == 1 && q == Err(Unavailable)
         else if |s| == 2 && s[1] == Crashed then q == Err(OtherFault)
         else if |s| == 2 && s[1] == ResidencyRead(false) then q == Ok(false)
         else
           && |s| >= 3 && s[1] == ResidencyRead(true) && s[2].ClockRead?
           && if s[2].at >= deadline then |s| == 3 && q == Err(Unavailable)
              else
                && |s| == 4
                && (if s[3] == Crashed then q == Err(OtherFault)
                    else s[3].Probed? && s[3].side == Fallback && q == Ok(s[3].answer == Available))
  }

  /** The trace of a routed call, from the first reading of the clock, and its outcome: the primary is asked first; if
      it is available it is called; if it is proven unavailable the fallback is called once it is proven ready. */
  predicate IsRouted(s: seq<Act>, eligible: bool, deadline: int, r: Outcome) {
    && |s| >= 2 && s[0].ClockRead? && s[1].ClockRead?
    && if s[1].at >= deadline then |s| == 2 && r == Unavailable else |s| >= 3 && IsRoute(s[2], s[3..], eligible, deadline, r)
  }

  predicate IsRoute(first: Act, s: seq<Act>, eligible: bool, deadline: int, r: Outcome) {
    match first
    case Crashed => s == [] && r == OtherFault
    case Probed(Primary, Available) => IsTimedCall(s, Primary, deadline, r)
    case Probed(Primary, NotAvailable) =>
      || (|s| >= 4 && IsReadiness(s[..4], eligible, deadline, Ok(true)) && IsTimedCall(s[4..], Fallback, deadline, r))
      || (IsReadiness(s, eligible, deadline, Ok(false)) && r == Unavailable)
      || IsReadiness(s, eligible, deadline, Err(r))
    case Probed(Primary, Undetermined) => s == [] && r == Unavailable
    case _ => false
  }

  lemma Segments(before: seq<Act>, middle: seq<Act>, after: seq<Act>)
    requires before <= middle <= after
    ensures after[|before|..] == middle[|before|..] + after[|middle|..]
  {
  }

  /** The deadline of a routed call: the caller's or the time of the call plus the timeout, whichever is earlier. */
  function Deadline(start: int, timeout: int, given: Option<int>): (d: int)
    ensures d <= start + timeout && (given.Some? ==> d <= given.value)
    ensures d == start + timeout || given == Some(d)
  {
    if given.None? then start + timeout else Min(given.value, start + timeout)
  }

  class FallbackWorker {
    const world: World
    const primary: Worker
    const fallback: Worker
    const eligible: set<Task>

    ghost predicate Valid() {
      primary.world == world && fallback.world == world && primary.side == Primary && fallback.side == Fallback
    }

    constructor (world: World, primary: Worker, fallback: Worker, eligible: set<Task>)
      requires primary.world == world && fallback.world == world
      requires primary.side == Primary && fallback.side == Fallback
      ensures Valid() && this.world == world && this.primary == primary && this.fallback == fallback
      ensures this.eligible == eligible
    {
      this.world := world;
      this.primary := primary;
      this.fallback := fallback;
      this.eligible := eligible;
    }

    /** The time left; None where it raises because the deadline has passed. */
    method Remaining(deadline: int) returns (r: Option<int>)
      modifies world
      ensures world.now >= old(world.now) && world.trace == old(world.trace) + [ClockRead(world.now)]
      ensures r == if world.now < deadline then Some(deadline - world.now) else None
    {
      var t := world.ReadClock();
      r := if deadline - t <= 0 then None else Some(deadline - t);
    }

    /** Whether the fallback may be used; an error is the outcome of the whole call. */
    method FallbackReady(task: Task, deadline: int) returns (q: Result<bool, Outcome>)
      requires Valid()
      modifies world
      ensures old(world.trace) <= world.trace && world.now >= old(world.now)
      ensures IsReadiness(world.trace[|old(world.trace)|..], task in eligible, deadline, q)
    {
      ghost var before := world.trace;
      if task !in eligible { return Ok(false); }
      var left := Remaining(deadline);
      var asked := world.now;
      assert world.trace[|before|..] == [ClockRead(asked)];
      if left.None? { return Err(Unavailable); }
      var empty := primary.FallbackCapacityAvailable();
      assert world.trace[|before|..] == [ClockRead(asked), if empty.Some? then ResidencyRead(empty.value) else Crashed];
      if empty.None? { return Err(OtherFault); }
      if !empty.value { return Ok(false); }
      left := Remaining(deadline);
      var again := world.now;
      assert world.trace[|before|..] == [ClockRead(asked), ResidencyRead(true), ClockRead(again)];
      if left.None? { return Err(Unavailable); }
      var health := world.Probe(Fallback);
      ghost var last := if health.Some? then Probed(Fallback, health.value) else Crashed;
      assert world.trace[|before|..] == [ClockRead(asked), ResidencyRead(true), ClockRead(again), last];
      if health.None? { return Err(OtherFault); }
      return Ok(health.value == Available);
    }

    /** Calls a worker with the time that is left. */
    method Call(worker: Worker, task: Task, deadline: int) returns (r: Outcome)
      requires worker.world == world
      modifies world
      ensures old(world.trace) <= world.trace && world.now >= old(world.now)
      ensures IsTimedCall(world.trace[|old(world.trace)|..], worker.side, deadline, r)
    {
      ghost var before := world.trace;
      var left := Remaining(deadline);
      ghost var middle := world.trace;
      assert middle[|before|..] == [ClockRead(world.now)];
      if left.None? { return Unavailable; }
      r := worker.Infer(task, left.value, Some(deadline));
      Segments(before, middle, world.trace);
      assert world.trace[|before|..][1..] == world.trace[|middle|..];
    }

    /** The way to the fallback, once the primary is proven unavailable. */
    method ToFallback(task: Task, deadline: int) returns (r: Outcome)
      requires Valid()
      modifies world
      ensures old(world.trace) <= world.trace && world.now >= old(world.now)
      ensures IsRoute(Probed(Primary, NotAvailable), world.trace[|old(world.trace)|..], task in eligible, deadline, r)
    {
      ghost var before := world.trace;
      var ready := FallbackReady(task, deadline);
      ghost var middle := world.trace;
      if ready.Err? { return ready.error; }
      if !ready.value { return Unavailable; }
      r := Call(fallback, task, deadline);
      Segments(before, middle, world.trace);
      ghost var s := world.trace[|before|..];
      assert s[..4] == middle[|before|..] && s[4..] == world.trace[|middle|..];
    }

    /** The choice, with the primary's answer known. */
    method Route(availability: Option<Availability>, task: Task, deadline: int) returns (r: Outcome)
      requires Valid()
      modifies world
      ensures old(world.trace) <= world.trace && world.now >= old(world.now)
      ensures IsRoute(if availability.Some? then Probed(Primary, availability.value) else Crashed,
                      world.trace[|old(world.trace)|..], task in eligible, deadline, r)
    {
      if availability.None? { return OtherFault; }
      if availability == Some(Available) {
        r := Call(primary, task, deadline);
        return;
      }
      if availability != Some(NotAvailable) { return Unavailable; }
      r := ToFallback(task, deadline);
    }

    /** The routed call: the primary if it is available, the fallback only if everything is proven in time. */
    method Infer(task: Task, timeout: int, given: Option<int>) returns (r: Outcome, ghost start: int)
      requires Valid()
      modifies world
      ensures old(world.trace) <= world.trace && world.now >= old(world.now)
      ensures var s := world.trace[|old(world.trace)|..];
              |s| > 0 && s[0] == ClockRead(start)
              && IsRouted(s, task in eligible, Deadline(start, timeout, given), r)
    {
      ghost var before := world.trace;
      var now := world.ReadClock();
      start := now;
      var deadline := if given.None? then now + timeout else Min(given.value, now + timeout);
      var left := Remaining(deadline);
      ghost var checked := world.now;
      assert world.trace[|before|..] == [ClockRead(start), ClockRead(checked)];
      if left.None? { return Unavailable, start; }
      var availability := world.Probe(Primary);
      ghost var first := if availability.Some? then Probed(Primary, availability.value) else Crashed;
      ghost var middle := world.trace;
      assert middle[|before|..] == [ClockRead(start), ClockRead(checked), first];
      r := Route(availability, task, deadline);
      Segments(before, middle, world.trace);
      assert world.trace[|before|..][3..] == world.trace[|middle|..];
    }
  }
}
