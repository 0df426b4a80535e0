/** Plans of single-input nodes with fan-out, what every port denotes, and the
    network of node steps that any schedule is a run of. Node i owns port i, and
    nodes are listed in topological order. */
module Plans {
  import opened Stream
  import opened Operators

  type Plan = seq<Node>

  ghost predicate WellFormed(plan: Plan) {
    forall i :: 0 <= i < |plan| ==> plan[i].Valid() && (plan[i].Source? || plan[i].input < i)
  }

  /** The whole stream of a port, computed batch by batch. */
  function Denotation(plan: Plan, port: nat): seq<Item>
    requires WellFormed(plan) && port < |plan|
    decreases port
  {
    if plan[port].Source? then plan[port].items else Denote(plan[port], Denotation(plan, plan[port].input))
  }

  // -------------------------------------------------------------- the network

  /** A port, what its node has read of its input, and the node's state. */
  datatype Port = Port(published: seq<Item>, used: nat, state: NodeState, flushed: bool, closed: bool)

  type Network = seq<Port>

  function Start(plan: Plan): Network {
    seq(|plan|, (i: nat) requires i < |plan| => Port([], 0, Init(plan[i]), false, false))
  }

  /** What node i published is its transducer applied to what it read. */
  ghost predicate NodeSound(plan: Plan, net: Network, i: nat)
    requires WellFormed(plan) && |net| == |plan| && i < |plan|
  {
    var node, port := plan[i], net[i];
    if node.Source? then
      && port.published <= node.items
      && (port.closed ==> port.published == node.items)
    else
      var input := net[node.input];
      && port.used <= |input.published|
      && var (st, out) := Run(node, input.published[..port.used]);
      && port.state == (if port.flushed then Flushed(node, st) else st)
      && port.published == (if port.flushed then out + Flush(node, st) else out)
      && (port.flushed ==> input.closed && port.used == |input.published|)
      && (port.closed ==> input.closed && port.used == |input.published| && (port.flushed || Flush(node, st) == []))
  }

  ghost predicate Sound(plan: Plan, net: Network) {
    && WellFormed(plan) && |net| == |plan|
    && forall i :: 0 <= i < |plan| ==> NodeSound(plan, net, i)
  }

  predicate Pending(plan: Plan, net: Network, i: nat)
    requires |net| == |plan| && i < |plan| && (plan[i].Source? || plan[i].input < |plan|)
  {
    !plan[i].Source? && net[i].used < |net[plan[i].input].published|
  }

  /** Node i can do something: it has an item to read or to emit, or its input has ended. */
  predicate Enabled(plan: Plan, net: Network, i: nat)
    requires |net| == |plan| && i < |plan| && (plan[i].Source? || plan[i].input < |plan|)
  {
    !net[i].closed && (plan[i].Source? || Pending(plan, net, i) || net[plan[i].input].closed)
  }

  /** One unit of work of node i. */
  ghost function Fire(plan: Plan, net: Network, i: nat): (r: Network)
    requires Sound(plan, net) && i < |plan| && Enabled(plan, net, i)
    ensures |r| == |net|
  {
    var node, port := plan[i], net[i];
    if node.Source? then
      if |port.published| < |node.items| then
        net[i := port.(published := port.published + [node.items[|port.published|]])]
      else net[i := port.(closed := true)]
    else
      StateFits(plan, net, i);
      var input := net[node.input];
      if port.used < |input.published| then
        var (st, out) := Step(node, port.state, input.published[port.used]);
        net[i := port.(published := port.published + out, used := port.used + 1, state := st)]
      else if Flush(node, port.state) != [] then
        net[i := port.(published := port.published + Flush(node, port.state),
                       state := Flushed(node, port.state), flushed := true)]
      else net[i := port.(closed := true)]
  }

  lemma StateFits(plan: Plan, net: Network, i: nat)
    requires Sound(plan, net) && i < |plan| && !plan[i].Source?
    ensures Fits(plan[i], net[i].state)
  {
    assert NodeSound(plan, net, i);
  }

  lemma StartIsSound(plan: Plan)
    requires WellFormed(plan)
    ensures Sound(plan, Start(plan))
  {
  }

  /** A flushed node has nothing more to flush. */
  lemma FlushOnce(node: Node, st: NodeState)
    requires Fits(node, st)
    ensures Flush(node, Flushed(node, st)) == []
  {
  }

  lemma FireSelf(plan: Plan, net: Network, i: nat)
    requires Sound(plan, net) && i < |plan| && Enabled(plan, net, i)
    ensures NodeSound(plan, Fire(plan, net, i), i)
  {
    var node, port := plan[i], net[i];
    assert NodeSound(plan, net, i);
    if !node.Source? {
      var input := net[node.input];
      assert input == Fire(plan, net, i)[node.input];
      StateFits(plan, net, i);
      if port.used < |input.published| {
        assert input.published[..port.used + 1] == input.published[..port.used] + [input.published[port.used]];
        RunFromSnoc(node, Init(node), input.published[..port.used], input.published[port.used]);
      } else {
        FlushOnce(node, Run(node, input.published[..port.used]).0);
      }
    }
  }

  /** The input of node j only grew: what j did stays right. */
  lemma InputGrows(plan: Plan, net: Network, next: Network, j: nat)
    requires WellFormed(plan) && |net| == |next| == |plan| && j < |plan| && NodeSound(plan, net, j)
    requires next[j] == net[j]
    requires !plan[j].Source? ==> var was, now := net[plan[j].input], next[plan[j].input];
                                  was.published <= now.published && (was.closed ==> now == was)
    ensures NodeSound(plan, next, j)
  {
    if !plan[j].Source? {
      var was, now := net[plan[j].input].published, next[plan[j].input].published;
      assert now[..net[j].used] == was[..net[j].used];
    }
  }

  /** Every unit of work, in any order, keeps every port right. */
  lemma FireIsSound(plan: Plan, net: Network, i: nat)
    requires Sound(plan, net) && i < |plan| && Enabled(plan, net, i)
    ensures Sound(plan, Fire(plan, net, i))
  {
    var next := Fire(plan, net, i);
    FireSelf(plan, net, i);
    forall j | 0 <= j < |plan| ensures NodeSound(plan, next, j) {
      if j != i { InputGrows(plan, net, next, j); }
    }
  }

  /** Schedule independence: whatever was published is the beginning of what the
      port denotes, and all of it once the port is closed. */
  lemma {:induction false} Determinate(plan: Plan, net: Network, i: nat)
    requires Sound(plan, net) && i < |plan|
    ensures net[i].published <= Denotation(plan, i)
    ensures net[i].closed ==> net[i].published == Denotation(plan, i)
    decreases i
  {
    assert NodeSound(plan, net, i);
    var node, port := plan[i], net[i];
    if !node.Source? {
      Determinate(plan, net, node.input);
      var whole, read := Denotation(plan, node.input), net[node.input].published;
      assert read[..port.used] == whole[..port.used];
      RunMonotone(node, whole, port.used);
      if port.flushed || port.closed { assert read[..port.used] == whole; }
    }
  }
}
