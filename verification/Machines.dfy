/** The streaming machine and the native machine side by side. */
module Machines {
  import opened Stream
  import opened Plans
  import opened Scheduling
  import opened CppNodes
  import opened Vectors
  import opened Scaling
  import opened CppGraphs
  import opened Spacing

  /** Whatever order the scheduler worked in, once it stands quiet at the boundary its
      ports show, in ticks and with gaps as segments, the batches of the native run. */
  lemma MachinesAgree(
      plan: Plan, net: Network, limits: Limits, duration: Option<real>, roots: set<nat>, timebase: nat, i: nat,
      batch: seq<TickItem>)
    requires Sound(plan, net) && ValidLimits(plan, limits) && Required(plan, roots) &&
             Scheduling.Within(plan, net, duration)
    requires Quiet(plan, net, limits, duration, roots) && i < |plan|
    requires BatchOf(plan, duration, timebase, i, batch)
    ensures Follows(ScaleItems(net[i].published, timebase as real), batch)
  {
    QuietIsSnapshot(plan, net, limits, duration, roots, i);
  }

  /** Two runs over different timebases decode to the same times, payloads and statuses. */
  lemma TimebaseDoesNotMatter(
      plan: Plan, duration: Option<real>, s: nat, t: nat, i: nat, left: seq<TickItem>, right: seq<TickItem>, k: nat)
    requires WellFormed(plan) && i < |plan| && s > 0 && t > 0
    requires BatchOf(plan, duration, s, i, left) && BatchOf(plan, duration, t, i, right) && k < |left|
    ensures |left| == |right|
    ensures left[k].value == right[k].value && left[k].status == right[k].status
    ensures left[k].marked == right[k].marked
    ensures left[k].start as real / s as real == right[k].start as real / t as real
    ensures left[k].end as real / s as real == right[k].end as real / t as real
    ensures k > 0 ==> (left[k].segment != left[k - 1].segment <==> right[k].segment != right[k - 1].segment)
  {
    var items := StreamOf(plan, duration, i);
    assert |left| == |Segments(left)| == |items| && |right| == |Segments(right)| == |items|;
    FollowsAt(ScaleItems(items, s as real), left, k);
    FollowsAt(ScaleItems(items, t as real), right, k);
    Decodes(items[k].start, s);
    Decodes(items[k].start, t);
    Decodes(items[k].end, s);
    Decodes(items[k].end, t);
  }

  lemma Decodes(x: real, t: nat)
    requires t > 0
    ensures Times(x, t as real) / t as real == x
  {
    Divides(x, t as real);
  }

  // ------------------------------------------------------- gap-free plans

  lemma {:induction false} SnapshotsKeepNoGaps(plan: Plan, duration: Option<real>, i: nat)
    requires WellFormed(plan) && i < |plan|
    requires forall s :: 0 <= s < |plan| && plan[s].Source? ==> NoGaps(plan[s].items)
    ensures NoGaps(StreamOf(plan, duration, i))
    decreases i
  {
    var node := plan[i];
    if !node.Source? {
      SnapshotsKeepNoGaps(plan, duration, node.input);
      var input := StreamOf(plan, duration, node.input);
      RunKeepsNoGaps(node, input);
    }
  }

  /** On gap-free sources the native run needs no condition at all. */
  lemma GapFreePlansAreFaithful(plan: Plan, duration: Option<real>)
    requires WellFormed(plan)
    requires forall s :: 0 <= s < |plan| && plan[s].Source? ==> NoGaps(plan[s].items)
    ensures FaithfulPlan(plan, duration)
  {
    forall i | 0 <= i < |plan| && !plan[i].Source? ensures Faithful(plan[i], StreamOf(plan, duration, plan[i].input)) {
      SnapshotsKeepNoGaps(plan, duration, plan[i].input);
    }
  }
}
