/** The incremental session over the streaming executor: slices at growing logical
    ends, each of them cut short by a step budget, then flush and close. */
module Sessions {
  import opened Stream
  import opened Operators
  import opened Plans
  import opened Scheduling
  import opened PlanRuntimes

  datatype SessionState = RUNNING | CLOSED

  datatype SessionError = NotRunning | EndNotIncreasing

  class IncrementalSession {
    const runtime: PlanRuntime
    var state: SessionState
    var logicalEnd: Option<real>

    ghost predicate Valid()
      reads this, runtime, runtime.buffers
    {
      runtime.Running()
    }

    /** start: a fresh runtime. */
    constructor (runtime: PlanRuntime)
      requires runtime.Running()
      ensures Valid() && state == RUNNING && logicalEnd == None && this.runtime == runtime
    {
      this.runtime, state, logicalEnd := runtime, RUNNING, None;
    }

    /** What is still to be done. */
    ghost function Remaining(): int
      reads this, runtime, runtime.buffers
      requires Valid()
    {
      Scheduling.Remaining(runtime.plan, runtime.net)
    }

    /** run_until: refused behind CLOSED and for an end that is not beyond the last one
        reached. A slice that used up its budget does not count as reached, so that the
        same end may be tried again. */
    method RunUntil(target: real) returns (error: Option<SessionError>)
      requires Valid()
      modifies this`logicalEnd, runtime, runtime.buffers
      ensures Valid()
      ensures error == if state != RUNNING then Some(NotRunning)
                       else if target <= 0.0 || (old(logicalEnd).Some? && target <= old(logicalEnd).value) then
                         Some(EndNotIncreasing)
                       else None
      ensures error.Some? ==> runtime.net == old(runtime.net)
      ensures logicalEnd == if error.None? && !runtime.lastBudgetExhausted then Some(target) else old(logicalEnd)
      ensures error.None? && runtime.lastBudgetExhausted ==> Remaining() < old(Remaining())
      ensures error.None? ==> runtime.duration == Some(target)
      ensures error.None? && old(Within(runtime.plan, runtime.net, Some(target))) ==>
        Within(runtime.plan, runtime.net, Some(target)) &&
        (!runtime.lastBudgetExhausted ==> Shows(runtime.plan, runtime.net, target))
    {
      if state != RUNNING { return Some(NotRunning); }
      if target <= 0.0 || (logicalEnd.Some? && target <= logicalEnd.value) { return Some(EndNotIncreasing); }
      runtime.RunUntil(target);
      if !runtime.lastBudgetExhausted { logicalEnd := Some(target); }
      error := None;
    }

    method Flush() returns (error: Option<SessionError>)
      requires Valid()
      modifies runtime, runtime.buffers
      ensures Valid()
      ensures error == if state != RUNNING then Some(NotRunning) else None
      ensures error.None? && runtime.lastBudgetExhausted ==> Remaining() < old(Remaining())
      ensures error.None? && !runtime.lastBudgetExhausted ==> Complete(runtime.plan, runtime.net)
      ensures error.Some? ==> runtime.net == old(runtime.net)
    {
      if state != RUNNING { return Some(NotRunning); }
      runtime.Flush();
      error := None;
    }

    /** close: one slice without a boundary, and then it is over, finished or not. It
        loses nothing when the budget covers the work that remains, and cuts the run
        short when the budget falls short of it by the number of roots. With a single
        root that is exact. */
    method Close() returns (error: Option<SessionError>)
      requires Valid()
      modifies this`state, runtime, runtime.buffers
      ensures Valid()
      ensures error == if old(state) != RUNNING then Some(NotRunning) else None
      ensures error.None? ==> state == CLOSED
      ensures error.None? &&
              (runtime.maxSchedulerSteps.None? || runtime.maxSchedulerSteps.value >= old(Remaining())) ==>
        Complete(runtime.plan, runtime.net)
      ensures error.None? && runtime.maxSchedulerSteps.Some? &&
              runtime.maxSchedulerSteps.value + |runtime.roots| <= old(Remaining()) ==>
        !AllClosed(runtime.plan, runtime.net)
      ensures error.None? && |runtime.roots| == 1 ==>
        (Complete(runtime.plan, runtime.net) <==>
         runtime.maxSchedulerSteps.None? || runtime.maxSchedulerSteps.value >= old(Remaining()))
    {
      if state != RUNNING { return Some(NotRunning); }
      runtime.Flush();
      state := CLOSED;
      error := None;
    }

    /** One boundary, tried again for as long as the budget cuts the slice short. */
    method Reach(target: real)
      requires Valid() && state == RUNNING && target > 0.0 && (logicalEnd.Some? ==> logicalEnd.value < target)
      requires Within(runtime.plan, runtime.net, Some(target))
      modifies this`logicalEnd, runtime, runtime.buffers
      ensures Valid() && logicalEnd == Some(target) && Within(runtime.plan, runtime.net, Some(target))
      ensures Shows(runtime.plan, runtime.net, target)
      decreases Remaining()
    {
      RemainingIsNatural(runtime.plan, runtime.net);
      var error := RunUntil(target);
      if runtime.lastBudgetExhausted { Reach(target); }
    }

    /** flush, tried again for as long as the budget cuts it short. */
    method Drain()
      requires Valid() && state == RUNNING
      modifies runtime, runtime.buffers
      ensures Valid() && Complete(runtime.plan, runtime.net)
      decreases Remaining()
    {
      RemainingIsNatural(runtime.plan, runtime.net);
      var error := Flush();
      if runtime.lastBudgetExhausted { Drain(); }
    }

    /** A whole session under any budget: any growing boundaries, each retried until it
        is reached, then flush until it is done, and close. It ends, and every port
        has published exactly what one run publishes. */
    method RunToEnd(boundaries: seq<real>)
      requires Valid() && state == RUNNING && logicalEnd == None && runtime.net == Start(runtime.plan)
      requires forall i, j :: 0 <= i < j < |boundaries| ==> boundaries[i] < boundaries[j]
      requires forall i :: 0 <= i < |boundaries| ==> boundaries[i] > 0.0
      modifies this, runtime, runtime.buffers
      ensures Valid() && state == CLOSED && Complete(runtime.plan, runtime.net)
    {
      for k := 0 to |boundaries|
        invariant Valid() && state == RUNNING
        invariant if k == 0 then logicalEnd == None && runtime.net == Start(runtime.plan)
                  else logicalEnd == Some(boundaries[k - 1]) && Within(runtime.plan, runtime.net, logicalEnd)
      {
        Reach(boundaries[k]);
      }
      Drain();
      RemainingIsNatural(runtime.plan, runtime.net);
      var error := Close();
    }
  }

  /** Every port shows its snapshot at the boundary. */
  ghost predicate Shows(plan: Plan, net: Network, boundary: real)
    requires WellFormed(plan) && |net| == |plan|
  {
    forall i :: 0 <= i < |plan| ==> (net[i].published, net[i].closed) == Snapshot(plan, Some(boundary), i)
  }

  lemma AlonePlan(items: seq<Item>)
    ensures var plan: Plan, limits := [Source(items)], Limits([1], [1]);
            && WellFormed(plan) && ValidLimits(plan, limits) && Bounded(plan, limits)
            && Required(plan, RootSet([0])) && Distinct([0])
            && Scheduling.Remaining(plan, Start(plan)) == |items| + 1
  {
    var plan: Plan := [Source(items)];
    assert 0 in RootSet([0]);
    assert LeftUpTo(plan, Start(plan), 0) == 0;
  }

  /** A source of two items as only root, with a budget of one step: close publishes one
      item and then releases everything. */
  method CloseTruncates(a: Item, b: Item) returns (session: IncrementalSession)
    ensures session.Valid() && session.state == CLOSED && !Complete(session.runtime.plan, session.runtime.net)
    ensures Denotation(session.runtime.plan, 0) == [a, b]
  {
    AlonePlan([a, b]);
    var runtime := new PlanRuntime([Source([a, b])], Limits([1], [1]), [0], Some(1));
    session := new IncrementalSession(runtime);
    var error := session.Close();
  }
}
