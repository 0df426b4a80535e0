/** The promise of a frontier for every port of a plan: which plans keep it, and what
    merges and LATEST inputs may therefore rely on when they read two of its ports. */
module PortPromises {
  import opened Stream
  import opened Operators
  import opened Plans
  import opened Frontiers
  import opened Spacing
  import Merges
  import Latests

  /** Port i may carry overlapping intervals: frames with hop < size overlap, and a MAP
      or a SAMPLE hands that on; a HOLD does not. */
  predicate Overlaps(plan: Plan, i: nat)
    requires WellFormed(plan) && i < |plan|
    decreases i
  {
    match plan[i]
    case Source(_) => false
    case Rate(input, _, HOLD) => false
    case Rate(input, _, SAMPLE) => Overlaps(plan, input)
    case Frame(input, size, hop, _) => hop < size || Overlaps(plan, input)
    case Map(input, _, _, _) => Overlaps(plan, input)
  }

  /** Gap-free sources with spaced intervals, MAPs with one output per input; and what
      reads overlapping intervals is a HOLD or a FRAME with hop < size. */
  ghost predicate Orderly(plan: Plan, i: nat)
    requires WellFormed(plan) && i < |plan|
  {
    match plan[i]
    case Source(items) => NoGaps(items) && Spaced(items)
    case Rate(input, _, policy) => policy == SAMPLE ==> !Overlaps(plan, input)
    case Frame(input, size, hop, _) => hop >= size ==> !Overlaps(plan, input)
    case Map(input, kernel, _, _) => OneRawOutput(kernel) && !Overlaps(plan, input)
  }

  ghost predicate OrderlyPlan(plan: Plan)
    requires WellFormed(plan)
  {
    forall i :: 0 <= i < |plan| ==> Orderly(plan, i)
  }

  /** Plans of spaced, gap-free sources, one-output MAPs, and FRAMEs that do not overlap. */
  lemma {:induction false} NothingOverlaps(plan: Plan, i: nat)
    requires WellFormed(plan) && i < |plan|
    requires forall k :: 0 <= k < |plan| && plan[k].Frame? ==> plan[k].hop >= plan[k].size
    ensures !Overlaps(plan, i)
    decreases i
  {
    if !plan[i].Source? { NothingOverlaps(plan, plan[i].input); }
  }

  lemma DisjointPlansAreOrderly(plan: Plan)
    requires WellFormed(plan)
    requires forall k :: 0 <= k < |plan| && plan[k].Source? ==> NoGaps(plan[k].items) && Spaced(plan[k].items)
    requires forall k :: 0 <= k < |plan| && plan[k].Frame? ==> plan[k].hop >= plan[k].size
    requires forall k :: 0 <= k < |plan| && plan[k].Map? ==> OneRawOutput(plan[k].kernel)
    ensures OrderlyPlan(plan)
  {
    forall i | 0 <= i < |plan| ensures Orderly(plan, i) {
      if !plan[i].Source? { NothingOverlaps(plan, plan[i].input); }
    }
  }

  /** Every port's stream has growing starts, and no overlap where none is predicted. */
  lemma {:induction false} PortsInOrder(plan: Plan, i: nat)
    requires WellFormed(plan) && OrderlyPlan(plan) && i < |plan|
    ensures NoGaps(Denotation(plan, i)) && Stepped(Denotation(plan, i))
    ensures !Overlaps(plan, i) ==> Spaced(Denotation(plan, i))
    decreases i
  {
    assert Orderly(plan, i);
    if plan[i].Source? {
      SpacedIsStepped(plan[i].items);
    } else {
      PortsInOrder(plan, plan[i].input);
      StreamsKeepOrder(plan[i], Denotation(plan, plan[i].input));
    }
  }

  lemma InputSuits(plan: Plan, i: nat)
    requires WellFormed(plan) && OrderlyPlan(plan) && i < |plan| && !plan[i].Source?
    ensures Suits(plan[i], Denotation(plan, plan[i].input)) && Causal(plan[i])
  {
    assert Orderly(plan, i);
    PortsInOrder(plan, plan[i].input);
    OrderSuits(plan[i], Denotation(plan, plan[i].input));
    if plan[i].Map? {
      forall items: seq<Item> | |items| > 0 ensures ValuesFrom(plan[i].kernel(items), items[|items| - 1].start) { }
    }
  }

  /** port_frontiers: what port i has announced so far. */
  ghost function PortFrontier(plan: Plan, net: Network, i: nat): Option<real>
    requires Sound(plan, net) && i < |plan|
  {
    assert NodeSound(plan, net, i);
    if plan[i].Source? then
      var out := net[i].published;
      if out == [] then None else Some(out[|out| - 1].end)
    else Frontier(plan[i], net[plan[i].input].published[..net[i].used])
  }

  /** Port i will publish nothing more that starts before its frontier. */
  ghost predicate PromiseKept(plan: Plan, net: Network, i: nat)
    requires Sound(plan, net) && i < |plan|
  {
    var whole, now := Denotation(plan, i), net[i].published;
    now <= whole && forall f, k :: PortFrontier(plan, net, i) == Some(f) && |now| <= k < |whole| ==> whole[k].start >= f
  }

  lemma NodeKeepsItsPromise(node: Node, input: seq<Item>, used: nat, published: nat, k: nat)
    requires node.Valid() && !node.Source? && Suits(node, input) && Causal(node) && 0 < used <= |input|
    requires |Run(node, input[..used]).1| <= published <= k < |Denote(node, input)|
    ensures Frontier(node, input[..used]).Some? && Denote(node, input)[k].start >= Frontier(node, input[..used]).value
  {
    SuitableIsKept(node, input);
    assert KeepsAt(node, input, used);
    RestIs(node, input, used);
  }

  /** In every reachable state of a run every port keeps its promise. */
  lemma EveryPortKeepsItsPromise(plan: Plan, net: Network, i: nat)
    requires Sound(plan, net) && OrderlyPlan(plan) && i < |plan|
    ensures PromiseKept(plan, net, i)
  {
    assert NodeSound(plan, net, i) && Orderly(plan, i);
    Determinate(plan, net, i);
    var whole, now := Denotation(plan, i), net[i].published;
    if plan[i].Source? {
      assert now != [] ==> now[|now| - 1] == whole[|now| - 1];
    } else {
      var input, used := Denotation(plan, plan[i].input), net[i].used;
      Determinate(plan, net, plan[i].input);
      InputSuits(plan, i);
      assert net[plan[i].input].published[..used] == input[..used];
      forall k | used > 0 && |now| <= k < |whole|
        ensures Frontier(plan[i], input[..used]).Some? && whole[k].start >= Frontier(plan[i], input[..used]).value
      {
        NodeKeepsItsPromise(plan[i], input, used, |now|, k);
      }
    }
  }

  lemma SteppedIsIncreasing(items: seq<Item>)
    requires Stepped(items)
    ensures Merges.Increasing(items) && Latests.Ascending(items)
  {
  }

  /** What arrived at a merge is what two ports of a running plan have published. */
  ghost predicate Fed(plan: Plan, net: Network, port: nat, arrived: seq<Item>, ended: bool)
    requires |net| == |plan| && port < |plan|
  {
    arrived == net[port].published && (ended ==> net[port].closed)
  }

  lemma PortCompletes(plan: Plan, net: Network, port: nat, ended: bool, frontier: Option<real>)
    requires Sound(plan, net) && OrderlyPlan(plan) && port < |plan| && (ended ==> net[port].closed)
    requires frontier.None? || frontier == PortFrontier(plan, net, port)
    ensures Merges.Completes(Denotation(plan, port), net[port].published, ended, frontier)
    ensures Latests.Completes(Denotation(plan, port), net[port].published, ended, frontier)
  {
    PortsInOrder(plan, port);
    SteppedIsIncreasing(Denotation(plan, port));
    EveryPortKeepsItsPromise(plan, net, port);
    Determinate(plan, net, port);
  }

  /** An exact merge of two ports of one plan, in any reachable state: it has paired a
      prefix of the join of the two whole streams, and all of it when it has stopped. */
  lemma JoinOfPorts(plan: Plan, net: Network, p: nat, q: nat, merge: Merges.ExactMerge)
    requires Sound(plan, net) && OrderlyPlan(plan) && p < |plan| && q < |plan| && merge.Valid()
    requires Fed(plan, net, p, merge.mainDone + merge.mainQueue, merge.mainEnded)
    requires Fed(plan, net, q, merge.auxDone + merge.auxQueue, merge.auxEnded)
    requires merge.auxFrontier == PortFrontier(plan, net, q)
    ensures |merge.output| <= Merges.JoinCount(Denotation(plan, p), Denotation(plan, q)) <= |Denotation(plan, p)|
    ensures Merges.Pairs(merge.output, Denotation(plan, p)[..|merge.output|], Denotation(plan, q))
    ensures merge.exhausted ==> |merge.output| == Merges.JoinCount(Denotation(plan, p), Denotation(plan, q))
  {
    assert NodeSound(plan, net, p);
    PortCompletes(plan, net, p, merge.mainEnded, None);
    PortCompletes(plan, net, q, merge.auxEnded, merge.auxFrontier);
    merge.JoinsWholeStreams(Denotation(plan, p), Denotation(plan, q));
  }

  /** A LATEST input on a port of the plan: every selection is the last item of the
      whole candidate stream that starts no later than the primary item. */
  lemma LatestOfPorts(plan: Plan, net: Network, p: nat, q: nat, node: Latests.LatestNode)
    requires Sound(plan, net) && OrderlyPlan(plan) && p < |plan| && q < |plan| && node.Valid()
    requires Fed(plan, net, p, node.mainDone + node.mainQueue, node.mainEnded)
    requires Fed(plan, net, q, node.done + node.queue, node.ended)
    requires node.frontier == PortFrontier(plan, net, q)
    ensures |node.output| <= |Denotation(plan, p)|
    ensures forall i :: 0 <= i < |node.output| ==>
              Latests.IsSelected(node.output[i], Denotation(plan, p)[i], Denotation(plan, q))
    ensures node.exhausted ==> Latests.Leading(node.output, Denotation(plan, p), Denotation(plan, q))
  {
    assert NodeSound(plan, net, p);
    PortCompletes(plan, net, p, node.mainEnded, None);
    PortCompletes(plan, net, q, node.ended, node.frontier);
    node.SelectsFromWholeStreams(Denotation(plan, p), Denotation(plan, q));
  }
}
