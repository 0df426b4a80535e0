/** Compile-time capacities: how much one unit of work may emit, and how many items a
    shared buffer must hold for the merges below it. */
module Capacities {
  import opened Stream
  import opened Operators
  import opened Plans
  import opened Scheduling
  import opened Scaling
  import opened Grids
  import opened CppNodes
  import opened Vectors

  /** _node_max_items: how many items one unit of work may emit. */
  function NodeMaxItems(plan: Plan, i: nat): (most: nat)
    requires WellFormed(plan) && i < |plan|
    ensures most > 0
  {
    match plan[i]
    case Rate(input, period, HOLD) =>
      var most := Ceil(TimeSignature(plan, input).length / period);
      if most > 1 then most else 1
    case _ => 1
  }

  /** Source intervals are no longer than one unit, and MAPs answer once per input. */
  ghost predicate ShortNode(node: Node) {
    match node
    case Source(items) => NoLonger(items, 1.0)
    case Map(_, kernel, _, _) => OneRawOutput(kernel)
    case _ => true
  }

  ghost predicate NoLonger(items: seq<Item>, length: real) {
    forall i :: 0 <= i < |items| ==> items[i].end - items[i].start <= length
  }

  ghost predicate ShortPlan(plan: Plan) {
    forall i :: 0 <= i < |plan| ==> ShortNode(plan[i])
  }

  lemma {:induction false} HeldLengths(items: seq<Item>, period: real)
    requires period > 0.0
    ensures NoLonger(HoldRun(items, period), period)
    decreases |items|
  {
    if items != [] { HeldLengths(items[..|items| - 1], period); }
  }

  lemma {:induction false} SampledLengths(items: seq<Item>, period: real, length: real)
    requires period > 0.0 && NoLonger(items, length)
    ensures NoLonger(SampleRun(items, period), length)
    decreases |items|
  {
    if items != [] { SampledLengths(items[..|items| - 1], period, length); }
  }

  lemma {:induction false} MappedLengths(node: Node, items: seq<Item>, length: real)
    requires node.Map? && OneRawOutput(node.kernel) && NoLonger(items, length)
    ensures NoLonger(Run(node, items).1, length)
    decreases |items|
  {
    if items != [] {
      var n := |items| - 1;
      MappedLengths(node, items[..n], length);
      RunSnoc(node, items);
      OneMapOutput(node, Run(node, items[..n]).0.seen, items[n]);
    }
  }

  /** Where no frames have been formed, no item is longer than its signature says,
      gaps and holes or not. */
  lemma {:induction false} LengthsAreKept(plan: Plan, i: nat)
    requires WellFormed(plan) && ShortPlan(plan) && i < |plan| && !ContainsFrame(plan, i)
    ensures NoLonger(Denotation(plan, i), TimeSignature(plan, i).length)
    decreases i
  {
    var node := plan[i];
    assert ShortNode(node);
    if node.Map? || (node.Rate? && node.policy == SAMPLE) { LengthsAreKept(plan, node.input); }
    if !node.Source? {
      var items := Denotation(plan, node.input);
      assert Denote(node, items) == Run(node, items).1 + Flush(node, Run(node, items).0);
      match node {
        case Rate(_, period, policy) =>
          RateRun(node, items);
          if policy == HOLD {
            HeldLengths(items, period);
          } else {
            SampledLengths(items, period, TimeSignature(plan, i).length);
          }
        case Map(_, _, _, _) => MappedLengths(node, items, TimeSignature(plan, i).length);
      }
    }
  }

  /** A held item never fires more often than periods begin within its length. */
  lemma HoldBurst(next: Option<real>, item: Item, period: real, length: real)
    requires period > 0.0 && item.end - item.start <= length
    ensures var n := |HoldOutputs(item, FirstFire(next, item, period), period)|; n == 0 || n <= Ceil(length / period)
  {
    var fire := FirstFire(next, item, period);
    if next.Some? { FireCountMeans(next.value, item.start, period, FireCount(next.value, item.start, period)); }
    assert fire >= item.start;
    var x, y := (item.end - fire) / period, length / period;
    assert x * period == item.end - fire && y * period == length;
    TimesOrder(y, x, period);
    assert x <= y;
  }

  /** ... and a HOLD on its grid does so with its very first item. */
  lemma BurstIsReached(plan: Plan, i: nat)
    requires WellFormed(plan) && i < |plan| && plan[i].Rate? && plan[i].policy == HOLD
    requires PortOnGrid(plan, plan[i].input) && Denotation(plan, plan[i].input) != []
    ensures Scheduling.Emitted(plan[i], Denotation(plan, plan[i].input), 0) == NodeMaxItems(plan, i)
  {
    var item, period := Denotation(plan, plan[i].input)[0], plan[i].period;
    var most := Ceil(TimeSignature(plan, plan[i].input).length / period);
    PositiveSignature(plan, plan[i].input);
    FireCountMeans(item.start, item.end, period, 0);
    assert |HoldOutputs(item, item.start, period)| == most >= 1;
    MostOfHold(plan, i);
  }

  lemma MostOfHold(plan: Plan, i: nat)
    requires WellFormed(plan) && i < |plan| && plan[i].Rate? && plan[i].policy == HOLD
    ensures NodeMaxItems(plan, i) == Max(1, Ceil(TimeSignature(plan, plan[i].input).length / plan[i].period))
  {
  }

  /** The planned burst bounds every step of every run of a plan that compiles, with
      gaps and with holes. */
  lemma BurstsAreBounded(plan: Plan, i: nat, k: nat)
    requires WellFormed(plan) && ShortPlan(plan) && Compiles(plan)
    requires i < |plan| && !plan[i].Source? && k < |Denotation(plan, plan[i].input)|
    ensures Scheduling.Emitted(plan[i], Denotation(plan, plan[i].input), k) <= NodeMaxItems(plan, i)
  {
    var node := plan[i];
    var items := Denotation(plan, node.input);
    assert ShortNode(node) && NodeCompiles(plan, i);
    var st := Run(node, items[..k]).0;
    match node
    case Rate(_, period, policy) =>
      if policy == HOLD {
        LengthsAreKept(plan, node.input);
        HoldBurst(st.next, items[k], period, TimeSignature(plan, node.input).length);
      }
    case Frame(_, _, _, _) =>
    case Map(_, _, _, _) => OneMapOutput(node, st.seen, items[k]);
  }

  // ---------------------------------------------------------- shared demand

  /** An exact merge or another MAP that reads two ports. */
  type Merging = (nat, nat)

  /** How many input items one output item of the node asks for. */
  function Multiplier(plan: Plan, i: nat): nat
    requires WellFormed(plan) && i < |plan|
  {
    match plan[i]
    case Frame(_, size, _, _) => size
    case Rate(input, period, SAMPLE) =>
      PositiveSignature(plan, input);
      assert period / TimeSignature(plan, input).step > 0.0;
      (period / TimeSignature(plan, input).step).Floor
    case _ => 1
  }

  lemma RatioIsMultiple(ratio: nat, step: real)
    requires step > 0.0
    ensures IsMultiple(Times(ratio as real, step), step)
    ensures (Times(ratio as real, step) / step).Floor == ratio
  {
    assert Times(ratio as real, step) / step == ratio as real;
  }

  /** What a FRAME or a MAP multiplies by is how many items it needs before it emits one. */
  lemma EmitsFromItsMultiplier(plan: Plan, i: nat, items: seq<Item>)
    requires WellFormed(plan) && i < |plan| && (plan[i].Frame? || (plan[i].Map? && OneRawOutput(plan[i].kernel)))
    requires forall k :: 0 <= k < |items| ==> !items[k].overrun
    ensures Run(plan[i], items).1 != [] <==> |items| >= Multiplier(plan, i)
  {
    var node := plan[i];
    if node.Frame? {
      GapFreeFrames(node, items);
      FrameCounted(|items|, node.size, node.hop, 0);
    } else if items != [] {
      RunSnoc(node, items);
      OneMapOutput(node, Run(node, items[..|items| - 1]).0.seen, items[|items| - 1]);
    }
  }

  /** What a SAMPLE multiplies by is how often it keeps an item: among so many consecutive
      items of its input there is exactly one that starts on a multiple of the period. */
  lemma SampleKeepsOneOf(plan: Plan, i: nat, from: nat) returns (kept: nat)
    requires WellFormed(plan) && i < |plan| && NodeCompiles(plan, i) && plan[i].Rate? && plan[i].policy == SAMPLE
    requires PortOnGrid(plan, plan[i].input)
    requires from + Multiplier(plan, i) <= |Denotation(plan, plan[i].input)|
    ensures from <= kept < from + Multiplier(plan, i)
    ensures forall n :: from <= n < from + Multiplier(plan, i) ==>
              (SampleOutputs(Denotation(plan, plan[i].input)[n], plan[i].period) ==
               if n == kept then [Denotation(plan, plan[i].input)[n]] else [])
  {
    var items, signature, period := Denotation(plan, plan[i].input), TimeSignature(plan, plan[i].input), plan[i].period;
    PositiveSignature(plan, plan[i].input);
    var ratio := RatioOf(period, signature.step);
    RatioIsMultiple(ratio, signature.step);
    var past := if from % ratio == 0 then 0 else ratio - from % ratio;
    kept := from + past;
    NextMultiple(from, ratio, past);
    forall n | from <= n < from + ratio
      ensures SampleOutputs(items[n], period) == if n == kept then [items[n]] else []
    {
      SampledAt(n, signature.step, ratio, period);
      OnlyMultiple(kept, n, ratio);
    }
  }

  lemma NextMultiple(from: nat, ratio: nat, past: nat)
    requires ratio > 0 && past == if from % ratio == 0 then 0 else ratio - from % ratio
    ensures past < ratio && (from + past) % ratio == 0
  {
    var q := from / ratio;
    assert from == q * ratio + from % ratio;
    if past > 0 {
      assert from + past == (q + 1) * ratio;
      DivisionOfMultiple(q + 1, ratio);
      OffsetIs(q + 1, ratio);
    }
  }

  lemma OnlyMultiple(kept: nat, n: nat, ratio: nat)
    requires ratio > 0 && kept % ratio == 0 && n < kept + ratio && kept < n + ratio
    ensures n % ratio == 0 <==> n == kept
  {
    if n % ratio == 0 {
      var p, q := kept / ratio, n / ratio;
      assert kept == p * ratio && n == q * ratio;
      if p < q { Multiply(p + 1, q, ratio); }
      if q < p { Multiply(q + 1, p, ratio); }
    }
  }

  /** ancestor_demands: how many items of port a one item of the port asks for, 0 when
      the port does not depend on a. */
  function AncestorDemand(plan: Plan, port: nat, a: nat): nat
    requires WellFormed(plan) && port < |plan|
    decreases port
  {
    if port == a then 1
    else if plan[port].Source? then 0
    else Multiplier(plan, port) * AncestorDemand(plan, plan[port].input, a)
  }

  ghost predicate IsDemand(plan: Plan, i: nat, row: seq<nat>)
    requires WellFormed(plan) && i < |plan|
  {
    |row| == |plan| && forall a :: 0 <= a < |plan| ==> row[a] == AncestorDemand(plan, i, a)
  }

  ghost predicate AreDemands(plan: Plan, demands: seq<seq<nat>>)
    requires WellFormed(plan) && |demands| <= |plan|
  {
    forall i :: 0 <= i < |demands| ==> IsDemand(plan, i, demands[i])
  }

  /** One port: its own item, and what its input asks for, multiplied. */
  method PortDemands(plan: Plan, i: nat, input: seq<nat>) returns (row: seq<nat>)
    requires WellFormed(plan) && i < |plan| && (!plan[i].Source? ==> IsDemand(plan, plan[i].input, input))
    ensures IsDemand(plan, i, row)
  {
    row := [];
    for a := 0 to |plan|
      invariant |row| == a && forall b :: 0 <= b < a ==> row[b] == AncestorDemand(plan, i, b)
    {
      row := row + [if i == a then 1 else if plan[i].Source? then 0 else Multiplier(plan, i) * input[a]];
    }
  }

  method AncestorDemands(plan: Plan) returns (demands: seq<seq<nat>>)
    requires WellFormed(plan)
    ensures |demands| == |plan| && AreDemands(plan, demands)
  {
    demands := [];
    for i := 0 to |plan|
      invariant |demands| == i && AreDemands(plan, demands)
    {
      var row := PortDemands(plan, i, if plan[i].Source? then [] else demands[plan[i].input]);
      demands := demands + [row];
    }
  }

  /** consumer_counts: how many inputs read port a. */
  function Consumers(plan: Plan, n: nat, merges: seq<Merging>, a: nat): nat
    requires n <= |plan|
    decreases n + |merges|
  {
    if n > 0 then Consumers(plan, n - 1, merges, a) + if Reads(plan, n - 1, a) then 1 else 0
    else if merges == [] then 0
    else
      var last := merges[|merges| - 1];
      Consumers(plan, 0, merges[..|merges| - 1], a) + (if last.0 == a then 1 else 0) + if last.1 == a then 1 else 0
  }

  predicate ValidMerges(plan: Plan, merges: seq<Merging>) {
    forall k :: 0 <= k < |merges| ==> merges[k].0 < |plan| && merges[k].1 < |plan|
  }

  function Max(x: int, y: int): int { if x < y then y else x }

  function RoundUp(x: nat, burst: nat): nat
    requires burst > 0
  {
    (x + burst - 1) / burst * burst
  }

  /** The least number of whole bursts that holds x items. */
  lemma RoundUpIsLeast(x: nat, burst: nat, k: nat)
    requires burst > 0
    ensures RoundUp(x, burst) >= x && RoundUp(x, burst) % burst == 0
    ensures k * burst >= x ==> k * burst >= RoundUp(x, burst)
  {
    var q := (x + burst - 1) / burst;
    assert x + burst - 1 == q * burst + (x + burst - 1) % burst;
    OffsetIs(q, burst);
    DivisionOfMultiple(q, burst);
    if k < q {
      assert (k + 1) * burst == k * burst + burst;
      Multiply(k + 1, q, burst);
    } else {
      Multiply(q, k, burst);
    }
  }

  /** What a merge asks of a port that both its branches share: as many items as the
      greedier branch needs for one item, in whole bursts. */
  function SharedDemand(plan: Plan, merges: seq<Merging>, merge: Merging, a: nat): nat
    requires WellFormed(plan) && a < |plan| && merge.0 < |plan| && merge.1 < |plan|
  {
    var main, aux := AncestorDemand(plan, merge.0, a), AncestorDemand(plan, merge.1, a);
    if main == 0 || aux == 0 || Consumers(plan, |plan|, merges, a) < 2 then 0
    else RoundUp(Max(main, aux), NodeMaxItems(plan, a))
  }

  /** The planned capacity of port a, in view of the first n merges. */
  function PlannedCapacity(plan: Plan, merges: seq<Merging>, n: nat, a: nat): nat
    requires WellFormed(plan) && ValidMerges(plan, merges) && a < |plan| && n <= |merges|
  {
    if n == 0 then NodeMaxItems(plan, a)
    else Max(PlannedCapacity(plan, merges, n - 1, a), SharedDemand(plan, merges, merges[n - 1], a))
  }

  lemma {:induction false} CapacityHoldsABurst(plan: Plan, merges: seq<Merging>, n: nat, a: nat)
    requires WellFormed(plan) && ValidMerges(plan, merges) && a < |plan| && n <= |merges|
    ensures PlannedCapacity(plan, merges, n, a) >= NodeMaxItems(plan, a)
  {
    if n > 0 { CapacityHoldsABurst(plan, merges, n - 1, a); }
  }

  /** A port with one reader, or that only one branch of every merge depends on, needs room
      for a burst and no more. */
  lemma {:induction false} UnsharedHoldsABurst(plan: Plan, merges: seq<Merging>, n: nat, a: nat)
    requires WellFormed(plan) && ValidMerges(plan, merges) && a < |plan| && n <= |merges|
    requires Consumers(plan, |plan|, merges, a) <= 1 || forall k :: 0 <= k < n ==>
               AncestorDemand(plan, merges[k].0, a) == 0 || AncestorDemand(plan, merges[k].1, a) == 0
    ensures PlannedCapacity(plan, merges, n, a) == NodeMaxItems(plan, a)
  {
    if n > 0 { UnsharedHoldsABurst(plan, merges, n - 1, a); }
  }

  /** A demand is 0 exactly where the port does not depend on the other one. */
  lemma {:induction false} DemandIsDependence(plan: Plan, port: nat, a: nat)
    requires WellFormed(plan) && Compiles(plan) && port < |plan|
    ensures AncestorDemand(plan, port, a) > 0 <==> Upstream(plan, port, a)
    decreases port
  {
    if port != a && !plan[port].Source? {
      DemandIsDependence(plan, plan[port].input, a);
      MultiplierIsPositive(plan, port);
      PositiveFactor(Multiplier(plan, port), AncestorDemand(plan, plan[port].input, a));
    }
  }

  lemma PositiveFactor(x: nat, y: nat)
    requires x > 0
    ensures x * y > 0 <==> y > 0
  {
  }

  lemma MultiplierIsPositive(plan: Plan, i: nat)
    requires WellFormed(plan) && i < |plan| && NodeCompiles(plan, i)
    ensures Multiplier(plan, i) > 0
  {
    if plan[i].Rate? && plan[i].policy == SAMPLE {
      PositiveSignature(plan, plan[i].input);
      var ratio := RatioOf(plan[i].period, TimeSignature(plan, plan[i].input).step);
      RatioIsMultiple(ratio, TimeSignature(plan, plan[i].input).step);
    }
  }

  method CountConsumers(plan: Plan, merges: seq<Merging>) returns (counts: seq<nat>)
    requires WellFormed(plan) && ValidMerges(plan, merges)
    ensures |counts| == |plan| && forall a :: 0 <= a < |plan| ==> counts[a] == Consumers(plan, |plan|, merges, a)
  {
    counts := seq(|plan|, _ => 0);
    for k := 0 to |merges|
      invariant |counts| == |plan| && forall a :: 0 <= a < |plan| ==> counts[a] == Consumers(plan, 0, merges[..k], a)
    {
      assert merges[..k + 1][..k] == merges[..k];
      var (main, aux) := merges[k];
      counts := counts[main := counts[main] + 1];
      counts := counts[aux := counts[aux] + 1];
    }
    assert merges[..|merges|] == merges;
    for n := 0 to |plan|
      invariant |counts| == |plan| && forall a :: 0 <= a < |plan| ==> counts[a] == Consumers(plan, n, merges, a)
    {
      if !plan[n].Source? {
        var input := plan[n].input;
        counts := counts[input := counts[input] + 1];
      }
    }
  }

  /** _planned_port_buffers. No unit of work of a plan that compiles emits more than its
      burst, and every buffer holds a burst and what the merges below it share. */
  method PlannedPortBuffers(plan: Plan, merges: seq<Merging>) returns (limits: Limits)
    requires WellFormed(plan) && ShortPlan(plan) && Compiles(plan) && ValidMerges(plan, merges)
    ensures ValidLimits(plan, limits) && Bounded(plan, limits)
    ensures forall i :: 0 <= i < |plan| ==>
              limits.bursts[i] == NodeMaxItems(plan, i) &&
                limits.capacities[i] == PlannedCapacity(plan, merges, |merges|, i)
  {
    var bursts: seq<nat> := [];
    for k := 0 to |plan|
      invariant |bursts| == k && forall i :: 0 <= i < k ==> bursts[i] == NodeMaxItems(plan, i)
    {
      bursts := bursts + [NodeMaxItems(plan, k)];
    }
    var demands := AncestorDemands(plan);
    var counts := CountConsumers(plan, merges);
    var capacities := bursts;
    for n := 0 to |merges|
      invariant |capacities| == |plan|
      invariant forall a :: 0 <= a < |plan| ==> capacities[a] == PlannedCapacity(plan, merges, n, a)
    {
      capacities := AddDemand(plan, merges, n, bursts, demands, counts, capacities);
    }
    limits := Limits(bursts, capacities);
    forall i | 0 <= i < |plan| ensures 0 < bursts[i] <= capacities[i] {
      CapacityHoldsABurst(plan, merges, |merges|, i);
    }
    forall i, k | 0 <= i < |plan| && !plan[i].Source? && 0 <= k < |Denotation(plan, plan[i].input)|
      ensures Scheduling.Emitted(plan[i], Denotation(plan, plan[i].input), k) <= limits.bursts[i]
    {
      BurstsAreBounded(plan, i, k);
    }
  }

  /** One merge: every ancestor that both branches share, with two readers at least. */
  method AddDemand(plan: Plan, merges: seq<Merging>, n: nat, bursts: seq<nat>, demands: seq<seq<nat>>, counts: seq<nat>,
                   capacities: seq<nat>)
    returns (more: seq<nat>)
    requires WellFormed(plan) && ValidMerges(plan, merges) && n < |merges|
    requires |bursts| == |demands| == |counts| == |capacities| == |plan|
    requires forall i :: 0 <= i < |plan| ==> bursts[i] == NodeMaxItems(plan, i)
    requires AreDemands(plan, demands)
    requires forall a :: 0 <= a < |plan| ==> counts[a] == Consumers(plan, |plan|, merges, a)
    requires forall a :: 0 <= a < |plan| ==> capacities[a] == PlannedCapacity(plan, merges, n, a)
    ensures |more| == |plan| && forall a :: 0 <= a < |plan| ==> more[a] == PlannedCapacity(plan, merges, n + 1, a)
  {
    more := capacities;
    var main, aux := demands[merges[n].0], demands[merges[n].1];
    assert IsDemand(plan, merges[n].0, main) && IsDemand(plan, merges[n].1, aux);
    for a := 0 to |plan|
      invariant |more| == |plan|
      invariant forall b :: 0 <= b < |plan| ==> more[b] == PlannedCapacity(plan, merges, if b < a then n + 1 else n, b)
    {
      if main[a] != 0 && aux[a] != 0 && counts[a] >= 2 {
        var required := RoundUp(Max(main[a], aux[a]), bursts[a]);
        more := more[a := Max(more[a], required)];
      }
    }
  }
}
