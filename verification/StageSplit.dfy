/** Executing a linear plan in pieces, native sections and Python islands in turn:
    every section behind the first starts from a synthetic source that replays the
    decoded batch of the piece before it. */
module StageSplits {
  import opened Stream
  import opened Operators
  import opened Plans
  import opened Scheduling
  import opened CppNodes
  import opened Scaling
  import opened Ticks
  import opened Fractions
  import opened CppMaps
  import opened CppGraphs
  import opened PrefixStages
  import opened Spacing
  import opened Machines

  /** A node as both executors know it; a kernel may come with a native binding. */
  datatype StageNode =
    | RateNode(period: Fraction, policy: RatePolicy)
    | FrameNode(size: nat, hop: nat, padEnd: bool)
    | MapNode(kernel: PythonKernel, native: Option<NativeKernel>, acceptsInvalid: bool)

  ghost predicate NodeMatches(node: Node, step: StageNode, input: nat) {
    match step
    case RateNode(period, policy) => period.Valid() && node == Rate(input, period.Real(), policy)
    case FrameNode(size, hop, padEnd) => node == Frame(input, size, hop, padEnd)
    case MapNode(kernel, native, acceptsInvalid) =>
      && node.Map? && node.input == input && node.acceptsInvalid == acceptsInvalid && Computes(node.kernel, kernel)
      && (native.Some? ==> AnswersAs(node.kernel, native.value))
  }

  /** The plan of a source and a chain of nodes: position 0 is the source, position
      i > 0 is nodes[i - 1]. */
  ghost predicate Linear(plan: Plan, nodes: seq<StageNode>) {
    && WellFormed(plan) && |plan| == |nodes| + 1 && plan[0].Source?
    && forall i :: 0 <= i < |nodes| ==> NodeMatches(plan[i + 1], nodes[i], i)
  }

  predicate Pads(step: StageNode) { step.FrameNode? && step.padEnd }

  lemma NothingFlushed(node: Node, input: seq<Item>)
    requires node.Valid() && !node.Source? && (node.Frame? ==> !node.padEnd)
    ensures Denote(node, input) == Run(node, input).1
  {
    assert Run(node, input).1 + [] == Run(node, input).1;
  }

  lemma StreamBehind(plan: Plan, duration: Option<real>, i: nat)
    requires WellFormed(plan) && i < |plan| && !plan[i].Source? && (plan[i].Frame? ==> !plan[i].padEnd)
    ensures StreamOf(plan, duration, i) == Run(plan[i], StreamOf(plan, duration, plan[i].input)).1
  {
    NothingFlushed(plan[i], StreamOf(plan, duration, plan[i].input));
  }

  /** Without padding a position's stream is its node run on the stream before. */
  lemma StreamStep(plan: Plan, nodes: seq<StageNode>, duration: Option<real>, i: nat)
    requires Linear(plan, nodes) && 0 < i < |plan| && !Pads(nodes[i - 1])
    ensures !plan[i].Source? && StreamOf(plan, duration, i) == Run(plan[i], StreamOf(plan, duration, i - 1)).1
  {
    assert NodeMatches(plan[i], nodes[i - 1], i - 1);
    StreamBehind(plan, duration, i);
  }

  // ------------------------------------------------------- sections as plans

  function Rebase(node: Node, input: nat): Node {
    match node
    case Source(_) => node
    case Rate(_, period, policy) => Rate(input, period, policy)
    case Frame(_, size, hop, padEnd) => Frame(input, size, hop, padEnd)
    case Map(_, kernel, acceptsInvalid, resetOnGap) => Map(input, kernel, acceptsInvalid, resetOnGap)
  }

  lemma {:induction false} RebaseRuns(node: Node, input: nat, items: seq<Item>)
    requires node.Valid()
    ensures Rebase(node, input).Valid() && Run(Rebase(node, input), items) == Run(node, items)
    decreases |items|
  {
    if items != [] { RebaseRuns(node, input, items[..|items| - 1]); }
  }

  /** The positions lo, ..., hi as a plan of their own, with `items` at position lo. */
  function SectionPlan(plan: Plan, lo: nat, hi: nat, items: seq<Item>): (section: Plan)
    requires lo <= hi < |plan|
    ensures |section| == hi - lo + 1 && section[0] == Source(items)
  {
    seq(hi - lo + 1, (j: nat) requires j <= hi - lo => if j == 0 then Source(items) else Rebase(plan[lo + j], j - 1))
  }

  lemma SectionNode(plan: Plan, nodes: seq<StageNode>, lo: nat, hi: nat, items: seq<Item>, j: nat)
    requires Linear(plan, nodes) && lo <= hi < |plan| && 0 < j <= hi - lo
    ensures SectionPlan(plan, lo, hi, items)[j] == Rebase(plan[lo + j], j - 1) && plan[lo + j].Valid() &&
            !plan[lo + j].Source?
    ensures NodeMatches(SectionPlan(plan, lo, hi, items)[j], nodes[lo + j - 1], j - 1)
  {
    assert NodeMatches(plan[lo + j], nodes[lo + j - 1], lo + j - 1);
  }

  lemma SectionIsWellFormed(plan: Plan, nodes: seq<StageNode>, lo: nat, hi: nat, items: seq<Item>)
    requires Linear(plan, nodes) && lo <= hi < |plan|
    ensures WellFormed(SectionPlan(plan, lo, hi, items))
  {
    forall j | 0 < j <= hi - lo
      ensures var node := SectionPlan(plan, lo, hi, items)[j];
              node.Valid() && !node.Source? && node.input < j
    {
      SectionNode(plan, nodes, lo, hi, items, j);
    }
  }

  predicate Unpadded(nodes: seq<StageNode>, lo: nat, hi: nat)
    requires lo <= hi <= |nodes|
  {
    forall i :: lo <= i < hi ==> !Pads(nodes[i])
  }

  /** A section that starts from the stream of its first position carries the streams
      of the whole plan. */
  lemma {:induction false} SectionStreams(
      plan: Plan, nodes: seq<StageNode>, duration: Option<real>, lo: nat, hi: nat, items: seq<Item>, end: Option<real>,
      j: nat)
    requires Linear(plan, nodes) && lo <= hi < |plan| && j <= hi - lo && Unpadded(nodes, lo, lo + j)
    requires WellFormed(SectionPlan(plan, lo, hi, items))
    requires StreamOf(SectionPlan(plan, lo, hi, items), end, 0) == StreamOf(plan, duration, lo)
    ensures StreamOf(SectionPlan(plan, lo, hi, items), end, j) == StreamOf(plan, duration, lo + j)
  {
    if j > 0 {
      var section := SectionPlan(plan, lo, hi, items);
      SectionStreams(plan, nodes, duration, lo, hi, items, end, j - 1);
      SectionNode(plan, nodes, lo, hi, items, j);
      StreamStep(plan, nodes, duration, lo + j);
      RebaseRuns(plan[lo + j], j - 1, StreamOf(plan, duration, lo + j - 1));
      StreamBehind(section, end, j);
    }
  }

  // --------------------------------------------------------- native sections

  predicate Bindable(nodes: seq<StageNode>, lo: nat, hi: nat)
    requires lo <= hi <= |nodes|
  {
    forall i :: lo <= i < hi ==> match nodes[i]
      case RateNode(period, _) => 0 < period.denominator <= I64_MAX
      case FrameNode(_, _, padEnd) => !padEnd
      case MapNode(_, native, _) => native.Some?
  }

  function BindNode(step: StageNode, input: nat): NativeNode
    requires step.MapNode? ==> step.native.Some?
  {
    match step
    case RateNode(period, policy) => NativeRate(input, period.numerator, period.denominator, policy)
    case FrameNode(size, hop, padEnd) => NativeFrame(input, size, hop, padEnd)
    case MapNode(_, native, acceptsInvalid) => NativeMap(input, native.value, acceptsInvalid)
  }

  /** The native graph of nodes[lo..hi] behind a source. */
  function Bound(nodes: seq<StageNode>, lo: nat, hi: nat): seq<NativeNode>
    requires lo <= hi <= |nodes| && Bindable(nodes, lo, hi)
  {
    seq(hi - lo + 1, (j: nat) requires j <= hi - lo =>
      if j == 0 then NativeSource else BindNode(nodes[lo + j - 1], j - 1))
  }

  lemma BoundIsPositive(nodes: seq<StageNode>, lo: nat, hi: nat)
    requires lo <= hi <= |nodes| && Bindable(nodes, lo, hi)
    ensures PositiveDenominators(Bound(nodes, lo, hi))
  {
    var bound := Bound(nodes, lo, hi);
    forall j | 0 <= j < |bound| && bound[j].NativeRate? ensures 0 < bound[j].denominator <= I64_MAX {
      assert bound[j] == BindNode(nodes[lo + j - 1], j - 1) && nodes[lo + j - 1].RateNode?;
    }
  }

  /** _bind_runtime: a source, and every selected node behind it. */
  method Bind(nodes: seq<StageNode>, lo: nat, hi: nat) returns (r: Result<seq<NativeNode>>)
    requires lo <= hi <= |nodes|
    ensures r.Ok? <==> Bindable(nodes, lo, hi)
    ensures r.Ok? ==> r.value == Bound(nodes, lo, hi) && PositiveDenominators(r.value)
  {
    var bound := [NativeSource];
    for i := lo to hi
      invariant Bindable(nodes, lo, i) && bound == Bound(nodes, lo, i)
    {
      match nodes[i] {
        case RateNode(period, _) =>
          if period.denominator == 0 || period.denominator > I64_MAX { return Err(TimebaseOverflow); }
        case FrameNode(_, _, padEnd) => if padEnd { return Err(FixedUnpaddedFrame); }
        case MapNode(_, native, _) => if native.None? { return Err(UnboundKernel); }
      }
      bound := bound + [BindNode(nodes[i], i - lo)];
    }
    BoundIsPositive(nodes, lo, hi);
    r := Ok(bound);
  }

  lemma BoundRepresents(node: Node, step: StageNode, input: nat, ingress: Ingress)
    requires NodeMatches(node, step, input) && (step.MapNode? ==> step.native.Some?)
    requires step.RateNode? ==> step.period.denominator <= I64_MAX
    ensures NodeRepresents(node, BindNode(step, input), ingress)
  {
  }

  /** The section's plan is the plan that its native graph stands for. */
  lemma SectionRepresents(plan: Plan, nodes: seq<StageNode>, lo: nat, hi: nat, input: seq<RationalItem>)
    requires Linear(plan, nodes) && lo <= hi < |plan| && AllRational(input) && Bindable(nodes, lo, hi)
    requires ValidIngress(Packed(input))
    requires PackedMeanings(Packed(input).items) == ScaleItems(Meanings(input), Packed(input).denominator as real)
    ensures Represents(SectionPlan(plan, lo, hi, Meanings(input)), Bound(nodes, lo, hi), Packed(input))
  {
    var section, bound := SectionPlan(plan, lo, hi, Meanings(input)), Bound(nodes, lo, hi);
    SectionIsWellFormed(plan, nodes, lo, hi, Meanings(input));
    forall j | 0 <= j < |section| ensures NodeRepresents(section[j], bound[j], Packed(input)) {
      if j > 0 {
        SectionNode(plan, nodes, lo, hi, Meanings(input), j);
        BoundRepresents(section[j], nodes[lo + j - 1], j - 1, Packed(input));
        assert bound[j] == BindNode(nodes[lo + j - 1], j - 1);
      }
    }
  }

  /** Every node of the section can be bound, the boundary batch can be packed, and the
      native run refuses nothing. */
  ghost predicate SectionAccepted(
      plan: Plan, nodes: seq<StageNode>, lo: nat, hi: nat, input: seq<RationalItem>, end: Option<Fraction>) {
    && Linear(plan, nodes) && lo <= hi < |plan| && AllRational(input) && (end.Some? ==> end.value.Valid())
    && Bindable(nodes, lo, hi) && Packs(input) && (end.Some? ==> end.value.denominator <= I64_MAX)
    && var section, bound := SectionPlan(plan, lo, hi, Meanings(input)), Bound(nodes, lo, hi);
    && Represents(section, bound, Packed(input)) && PositiveDenominators(bound)
    && GraphAccepts(section, bound, Packed(input), end)
  }

  /** A native time as LogicalTime(tick, 1, timebase). */
  method DecodeItem(t: TickItem, timebase: nat, ghost item: Item) returns (emission: RationalItem)
    requires timebase > 0 && AsItem(t) == ScaleItem(item, timebase as real)
    ensures emission.Valid() && emission.Meaning() == item
  {
    ReducedIs(t.start, timebase);
    ReducedIs(t.end, timebase);
    Decodes(item.start, timebase);
    Decodes(item.end, timebase);
    emission := RationalItem(t.value, Reduced(t.start, timebase), Reduced(t.end, timebase), t.status, t.marked);
  }

  /** _decode_native_output */
  method Decode(batch: seq<TickItem>, timebase: nat, ghost stream: seq<Item>) returns (emissions: seq<RationalItem>)
    requires timebase > 0 && AsItems(batch) == ScaleItems(stream, timebase as real)
    ensures AllRational(emissions) && Meanings(emissions) == stream
  {
    emissions := [];
    assert |batch| == |AsItems(batch)| == |stream|;
    for k := 0 to |batch|
      invariant AllRational(emissions) && Meanings(emissions) == stream[..k]
    {
      assert AsItem(batch[k]) == AsItems(batch)[k] == ScaleItem(stream[k], timebase as real);
      var emission := DecodeItem(batch[k], timebase, stream[k]);
      MeaningsConcat(emissions, [emission]);
      assert Meanings([emission]) == [stream[k]];
      emissions := emissions + [emission];
    }
  }

  /** Gaps stay segments in position i when it is native. */
  ghost predicate NativeFollows(plan: Plan, duration: Option<real>, i: nat)
    requires WellFormed(plan) && 0 < i < |plan|
  {
    Faithful(plan[i], StreamOf(plan, duration, i - 1))
  }

  /** What a native section needs: the boundary batch is the stream before it, only
      the first section has a logical end, and gaps stay segments in it. */
  ghost predicate SectionFits(
      plan: Plan, nodes: seq<StageNode>, duration: Option<real>, lo: nat, hi: nat, input: seq<RationalItem>,
      end: Option<Fraction>)
  {
    && Linear(plan, nodes) && lo <= hi < |plan| && AllRational(input) && (end.Some? ==> end.value.Valid())
    && Punctual(Meanings(input), Duration(end))
    && Meanings(input)[..Admitted(Meanings(input), Duration(end))] == StreamOf(plan, duration, lo)
    && forall i :: lo < i <= hi ==> NativeFollows(plan, duration, i)
  }

  lemma RebaseFaithful(node: Node, input: nat, items: seq<Item>)
    requires node.Valid() && Rebase(node, input).Valid() && Faithful(node, items)
    ensures Faithful(Rebase(node, input), items)
  {
  }

  lemma FaithfulBehind(section: Plan, end: Option<real>, j: nat, items: seq<Item>)
    requires WellFormed(section) && 0 < j < |section| && !section[j].Source? && section[j].input == j - 1
    requires StreamOf(section, end, j - 1) == items && Faithful(section[j], items)
    ensures Faithful(section[j], StreamOf(section, end, section[j].input))
  {
  }

  lemma SectionFaithfulAt(
      plan: Plan, nodes: seq<StageNode>, duration: Option<real>, lo: nat, hi: nat, items: seq<Item>, end: Option<real>,
      j: nat)
    requires Linear(plan, nodes) && lo <= hi < |plan| && Unpadded(nodes, lo, hi) && 0 < j <= hi - lo
    requires WellFormed(SectionPlan(plan, lo, hi, items))
    requires StreamOf(SectionPlan(plan, lo, hi, items), end, 0) == StreamOf(plan, duration, lo)
    requires NativeFollows(plan, duration, lo + j)
    ensures var section := SectionPlan(plan, lo, hi, items);
            !section[j].Source? && Faithful(section[j], StreamOf(section, end, section[j].input))
  {
    var section, input := SectionPlan(plan, lo, hi, items), StreamOf(plan, duration, lo + j - 1);
    SectionStreams(plan, nodes, duration, lo, hi, items, end, j - 1);
    SectionNode(plan, nodes, lo, hi, items, j);
    RebaseFaithful(plan[lo + j], j - 1, input);
    FaithfulBehind(section, end, j, input);
  }

  lemma SectionIsFaithful(
      plan: Plan, nodes: seq<StageNode>, duration: Option<real>, lo: nat, hi: nat, input: seq<RationalItem>,
      end: Option<Fraction>)
    requires SectionFits(plan, nodes, duration, lo, hi, input, end) && Unpadded(nodes, lo, hi)
    requires WellFormed(SectionPlan(plan, lo, hi, Meanings(input)))
    ensures var section := SectionPlan(plan, lo, hi, Meanings(input));
            && PunctualPlan(section, Duration(end)) && FaithfulPlan(section, Duration(end))
            && StreamOf(section, Duration(end), 0) == StreamOf(plan, duration, lo)
  {
    var section := SectionPlan(plan, lo, hi, Meanings(input));
    forall j | 0 < j <= hi - lo
      ensures !section[j].Source? && Faithful(section[j], StreamOf(section, Duration(end), section[j].input))
    {
      SectionFaithfulAt(plan, nodes, duration, lo, hi, Meanings(input), Duration(end), j);
    }
  }

  /** The streams of all positions under the boundary, in the streaming machine. */
  ghost function Streams(plan: Plan, duration: Option<real>): (streams: seq<seq<Item>>)
    requires WellFormed(plan)
    ensures |streams| == |plan|
  {
    seq(|plan|, (i: nat) requires i < |plan| => StreamOf(plan, duration, i))
  }

  /** The batches are, in ticks, the streams of the positions from lo on. */
  ghost predicate PortsOf(streams: seq<seq<Item>>, lo: nat, timebase: int, ports: seq<seq<TickItem>>) {
    && timebase > 0 && lo + |ports| <= |streams|
    && forall j :: 0 <= j < |ports| ==> AsItems(ports[j]) == ScaleItems(streams[lo + j], timebase as real)
  }

  /** The batches of the section are those of its positions in the whole plan. */
  lemma SectionPorts(
      plan: Plan, nodes: seq<StageNode>, duration: Option<real>, lo: nat, hi: nat, items: seq<Item>, end: Option<real>,
      timebase: int, ports: seq<seq<TickItem>>)
    requires Linear(plan, nodes) && lo <= hi < |plan| && Unpadded(nodes, lo, hi) && timebase > 0
    requires WellFormed(SectionPlan(plan, lo, hi, items))
    requires StreamOf(SectionPlan(plan, lo, hi, items), end, 0) == StreamOf(plan, duration, lo)
    requires |ports| == hi - lo + 1 && BatchesOf(SectionPlan(plan, lo, hi, items), end, timebase, ports)
    ensures PortsOf(Streams(plan, duration), lo, timebase, ports)
  {
    forall j | 0 <= j < |ports|
      ensures AsItems(ports[j]) == ScaleItems(Streams(plan, duration)[lo + j], timebase as real)
    {
      SectionPort(plan, nodes, duration, lo, hi, items, end, timebase, ports, j);
    }
  }

  lemma SectionPort(
      plan: Plan, nodes: seq<StageNode>, duration: Option<real>, lo: nat, hi: nat, items: seq<Item>, end: Option<real>,
      timebase: int, ports: seq<seq<TickItem>>, j: nat)
    requires Linear(plan, nodes) && lo <= hi < |plan| && Unpadded(nodes, lo, hi) && timebase > 0
    requires WellFormed(SectionPlan(plan, lo, hi, items))
    requires StreamOf(SectionPlan(plan, lo, hi, items), end, 0) == StreamOf(plan, duration, lo)
    requires j < |ports| == hi - lo + 1 && BatchesOf(SectionPlan(plan, lo, hi, items), end, timebase, ports)
    ensures AsItems(ports[j]) == ScaleItems(StreamOf(plan, duration, lo + j), timebase as real)
  {
    assert BatchOf(SectionPlan(plan, lo, hi, items), end, timebase, j, ports[j]);
    SectionStreams(plan, nodes, duration, lo, hi, items, end, j);
  }

  /** The run of one native section: packed, evaluated over its own timebase, and all
      its ports handed back. */
  method EvaluateSection(
      nodes: seq<StageNode>, lo: nat, hi: nat, input: seq<RationalItem>, end: Option<Fraction>,
      ghost plan: Plan, ghost duration: Option<real>)
    returns (r: Result<seq<seq<TickItem>>>, timebase: int)
    requires SectionFits(plan, nodes, duration, lo, hi, input, end)
    ensures r.Ok? <==> SectionAccepted(plan, nodes, lo, hi, input, end)
    ensures r.Ok? ==> lo + |r.value| == hi + 1 && PortsOf(Streams(plan, duration), lo, timebase, r.value)
  {
    timebase := 0;
    var bound := Bind(nodes, lo, hi);
    if bound.Err? { return Err(bound.error), 0; }
    var ingress := PackVectorIngress(input);
    if ingress.Err? { return Err(ingress.error), 0; }
    if end.Some? && end.value.denominator > I64_MAX { return Err(TimebaseOverflow), 0; }
    ghost var section := SectionPlan(plan, lo, hi, Meanings(input));
    SectionIsWellFormed(plan, nodes, lo, hi, Meanings(input));
    SectionIsFaithful(plan, nodes, duration, lo, hi, input, end);
    SectionRepresents(plan, nodes, lo, hi, input);
    r, timebase := RunGraph(bound.value, ingress.value, end, section);
    if r.Ok? { SectionPorts(plan, nodes, duration, lo, hi, Meanings(input), Duration(end), timebase, r.value); }
  }

  // ----------------------------------------------------------- status counts

  function Count(items: seq<Item>, status: Status): nat
    decreases |items|
  {
    if items == [] then 0
    else Count(items[..|items| - 1], status) + if items[|items| - 1].status == status then 1 else 0
  }

  lemma {:induction false} CountScale(items: seq<Item>, c: real, status: Status)
    ensures Count(ScaleItems(items, c), status) == Count(items, status)
    decreases |items|
  {
    if items != [] {
      ScaleSlice(items, 0, |items| - 1, c);
      CountScale(items[..|items| - 1], c, status);
    }
  }

  lemma CountSnoc(items: seq<Item>, item: Item, status: Status)
    ensures Count(items + [item], status) == Count(items, status) + if item.status == status then 1 else 0
  {
    assert (items + [item])[..|items|] == items;
  }

  /** How often a status occurs on the positions lo, ..., hi - 1. */
  function Tally(streams: seq<seq<Item>>, lo: nat, hi: nat, status: Status): nat
    requires lo <= hi <= |streams|
    decreases hi
  {
    if hi == lo then 0 else Tally(streams, lo, hi - 1, status) + Count(streams[hi - 1], status)
  }

  lemma {:induction false} TallySplit(streams: seq<seq<Item>>, lo: nat, mid: nat, hi: nat, status: Status)
    requires lo <= mid <= hi <= |streams|
    ensures Tally(streams, lo, hi, status) == Tally(streams, lo, mid, status) + Tally(streams, mid, hi, status)
    decreases hi
  {
    if mid < hi { TallySplit(streams, lo, mid, hi - 1, status); }
  }

  type Counts = map<Status, int>

  function At(counts: Counts, status: Status): int {
    if status in counts then counts[status] else 0
  }

  /** A dictionary without zero entries is determined by its values. */
  ghost predicate NoZeros(counts: Counts) {
    forall s :: s in counts ==> counts[s] != 0
  }

  /** Two ways of cutting a plan therefore give one and the same dictionary. */
  lemma SameCounts(a: Counts, b: Counts)
    requires NoZeros(a) && NoZeros(b) && forall s :: At(a, s) == At(b, s)
    ensures a == b
  {
    forall s ensures s in a <==> s in b { assert At(a, s) == At(b, s); }
    forall s | s in a ensures a[s] == b[s] { assert At(a, s) == At(b, s); }
  }

  ghost predicate Positive(counts: Counts) { forall s :: s in counts ==> counts[s] > 0 }

  /** `more` are the counts with the statuses of `items` added. */
  ghost predicate Adds(more: Counts, counts: Counts, items: seq<Item>) {
    Positive(more) && forall s :: At(more, s) == At(counts, s) + Count(items, s)
  }

  method CountItem(counts: Counts, status: Status, ghost items: seq<Item>, ghost item: Item, ghost was: Counts)
    returns (more: Counts)
    requires Positive(counts) && Adds(counts, was, items) && item.status == status
    ensures Adds(more, was, items + [item])
  {
    more := counts[status := (if status in counts then counts[status] else 0) + 1];
    forall s ensures At(more, s) == At(was, s) + Count(items + [item], s) { CountSnoc(items, item, s); }
  }

  method CountEmissions(counts: Counts, batch: seq<RationalItem>) returns (more: Counts)
    requires Positive(counts) && AllRational(batch)
    ensures Adds(more, counts, Meanings(batch))
  {
    more := counts;
    for k := 0 to |batch|
      invariant Adds(more, counts, Meanings(batch)[..k])
    {
      more := CountItem(more, batch[k].status, Meanings(batch)[..k], batch[k].Meaning(), counts);
      assert Meanings(batch)[..k + 1] == Meanings(batch)[..k] + [batch[k].Meaning()];
    }
    assert Meanings(batch)[..|batch|] == Meanings(batch);
  }

  /** The native counters of one port. */
  method CountTicks(counts: Counts, batch: seq<TickItem>) returns (more: Counts)
    requires Positive(counts)
    ensures Adds(more, counts, AsItems(batch))
  {
    more := counts;
    for k := 0 to |batch|
      invariant Adds(more, counts, AsItems(batch)[..k])
    {
      more := CountItem(more, batch[k].status, AsItems(batch)[..k], AsItem(batch[k]), counts);
      assert AsItems(batch)[..k + 1] == AsItems(batch)[..k] + [AsItem(batch[k])];
    }
    assert AsItems(batch)[..|batch|] == AsItems(batch);
  }

  /** The native counters of all ports of a section. */
  method CountPorts(ports: seq<seq<TickItem>>, timebase: int, ghost streams: seq<seq<Item>>, ghost lo: nat)
    returns (counts: Counts)
    requires PortsOf(streams, lo, timebase, ports)
    ensures Positive(counts) && forall s :: At(counts, s) == Tally(streams, lo, lo + |ports|, s)
  {
    counts := map[];
    for j := 0 to |ports|
      invariant Positive(counts) && forall s :: At(counts, s) == Tally(streams, lo, lo + j, s)
    {
      counts := CountTicks(counts, ports[j]);
      forall s ensures Count(AsItems(ports[j]), s) == Count(streams[lo + j], s) {
        CountScale(streams[lo + j], timebase as real, s);
      }
    }
  }

  /** _subtract_boundary_counts: the replayed batch is counted once too often. */
  method SubtractBoundaryCounts(counts: Counts, boundary: seq<RationalItem>) returns (left: Counts)
    requires NoZeros(counts) && AllRational(boundary)
    ensures NoZeros(left) && forall s :: At(left, s) == At(counts, s) - Count(Meanings(boundary), s)
  {
    left := counts;
    ghost var items := Meanings(boundary);
    for k := 0 to |boundary|
      invariant NoZeros(left) && forall s :: At(left, s) == At(counts, s) - Count(items[..k], s)
    {
      assert items[..k + 1] == items[..k] + [items[k]];
      forall s ensures Count(items[..k + 1], s) == Count(items[..k], s) + if items[k].status == s then 1 else 0 {
        CountSnoc(items[..k], items[k], s);
      }
      var status := boundary[k].status;
      var remaining := (if status in left then left[status] else 0) - 1;
      if remaining != 0 {
        left := left[status := remaining];
      } else {
        left := left - {status};
      }
    }
    assert items[..|boundary|] == items;
  }

  /** _merge_counts */
  method MergeCounts(target: Counts, source: Counts) returns (sum: Counts)
    ensures forall s :: At(sum, s) == At(target, s) + At(source, s)
    ensures (forall s :: At(target, s) >= 0 && At(source, s) >= 0) && NoZeros(target) && NoZeros(source) ==>
            NoZeros(sum)
  {
    sum := target;
    var rest := source.Keys;
    while rest != {}
      invariant rest <= source.Keys && sum.Keys == target.Keys + (source.Keys - rest)
      invariant forall s :: At(sum, s) == At(target, s) + if s in rest then 0 else At(source, s)
      decreases rest
    {
      ghost var any := Member(rest);
      var status :| status in rest;
      sum := sum[status := (if status in sum then sum[status] else 0) + source[status]];
      rest := rest - {status};
    }
    if (forall s :: At(target, s) >= 0 && At(source, s) >= 0) && NoZeros(target) && NoZeros(source) {
      forall s | s in sum ensures sum[s] != 0 {
        assert At(sum, s) == At(target, s) + At(source, s) && At(target, s) >= 0 && At(source, s) >= 0;
      }
    }
  }

  /** The status counts of the positions before `cursor`, as a dictionary without zeros. */
  ghost predicate Totals(counts: Counts, streams: seq<seq<Item>>, cursor: nat)
    requires cursor <= |streams|
  {
    NoZeros(counts) && forall s :: At(counts, s) == Tally(streams, 0, cursor, s)
  }

  /** The counts of the positions lo, ..., hi - 1 merged to those before. */
  method AddTotals(total: Counts, section: Counts, ghost streams: seq<seq<Item>>, ghost lo: nat, ghost hi: nat)
    returns (counts: Counts)
    requires lo <= hi <= |streams| && Totals(total, streams, lo)
    requires NoZeros(section) && forall s :: At(section, s) == Tally(streams, lo, hi, s)
    ensures Totals(counts, streams, hi)
  {
    counts := MergeCounts(total, section);
    forall s ensures At(counts, s) == Tally(streams, 0, hi, s) { TallySplit(streams, 0, lo, hi, s); }
  }

  // ------------------------------------------------------------------ pieces

  /** The first position of a native section: the boundary it replays, or the source. */
  function Boundary(cursor: nat): nat { if cursor > 0 then cursor - 1 else 0 }

  lemma Replayed(streams: seq<seq<Item>>, cursor: nat, hi: nat, status: Status)
    requires 0 < cursor <= hi <= |streams|
    ensures Tally(streams, cursor - 1, hi, status) ==
            Count(streams[cursor - 1], status) + Tally(streams, cursor, hi, status)
  {
    TallySplit(streams, cursor - 1, cursor, hi, status);
    assert Tally(streams, cursor - 1, cursor - 1, status) == 0;
  }

  /** The counters of a section without the batch it replays. */
  method TakeOff(
      section: Counts, input: seq<RationalItem>, ghost streams: seq<seq<Item>>, ghost cursor: nat, ghost hi: nat)
    returns (left: Counts)
    requires 0 < cursor <= hi <= |streams|
    requires NoZeros(section) && forall s :: At(section, s) == Tally(streams, cursor - 1, hi, s)
    requires AllRational(input) && Meanings(input) == streams[cursor - 1]
    ensures NoZeros(left) && forall s :: At(left, s) == Tally(streams, cursor, hi, s)
  {
    left := SubtractBoundaryCounts(section, input);
    forall s ensures At(left, s) == Tally(streams, cursor, hi, s) { Replayed(streams, cursor, hi, s); }
  }

  /** Counting the ports of a section and decoding the last one. */
  method FinishSection(
      ports: seq<seq<TickItem>>, timebase: int, cursor: nat, input: seq<RationalItem>, total: Counts,
      ghost streams: seq<seq<Item>>, ghost hi: nat)
    returns (output: seq<RationalItem>, counts: Counts)
    requires PortsOf(streams, Boundary(cursor), timebase, ports)
    requires Boundary(cursor) + |ports| == hi + 1 && cursor <= hi
    requires AllRational(input) && (cursor > 0 ==> Meanings(input) == streams[cursor - 1])
    requires Totals(total, streams, cursor)
    ensures AllRational(output) && Meanings(output) == streams[hi]
    ensures Totals(counts, streams, hi + 1)
  {
    var section := CountPorts(ports, timebase, streams, Boundary(cursor));
    if cursor > 0 { section := TakeOff(section, input, streams, cursor, hi + 1); }
    counts := AddTotals(total, section, streams, cursor, hi + 1);
    output := Decode(ports[|ports| - 1], timebase, streams[hi]);
  }

  /** The same for a run that may have been refused. */
  method Finish(
      ports: Result<seq<seq<TickItem>>>, timebase: int, cursor: nat, input: seq<RationalItem>, total: Counts,
      ghost streams: seq<seq<Item>>, ghost hi: nat)
    returns (r: Result<seq<RationalItem>>, counts: Counts)
    requires cursor <= hi < |streams|
    requires ports.Ok? ==>
             PortsOf(streams, Boundary(cursor), timebase, ports.value) && Boundary(cursor) + |ports.value| == hi + 1
    requires AllRational(input) && (cursor > 0 ==> Meanings(input) == streams[cursor - 1])
    requires Totals(total, streams, cursor)
    ensures r.Ok? <==> ports.Ok?
    ensures r.Ok? ==> AllRational(r.value) && Meanings(r.value) == streams[hi] && Totals(counts, streams, hi + 1)
  {
    if ports.Err? { return Err(ports.error), total; }
    var output, more := FinishSection(ports.value, timebase, cursor, input, total, streams, hi);
    r, counts := Ok(output), more;
  }

  // ---------------------------------------------------------- at a boundary

  ghost predicate NativeFits(plan: Plan, nodes: seq<StageNode>, duration: Option<real>, cursor: nat, stop: nat)
    requires Linear(plan, nodes) && stop <= |plan|
  {
    forall i :: cursor <= i < stop && i > 0 ==> NativeFollows(plan, duration, i)
  }

  /** What the boundary before position `cursor` holds: the source, or the decoded batch. */
  ghost predicate AtBoundary(
      plan: Plan, duration: Option<real>, source: seq<RationalItem>, end: Option<Fraction>, cursor: nat,
      input: seq<RationalItem>)
    requires WellFormed(plan) && cursor <= |plan|
  {
    && AllRational(input) && (end.Some? ==> end.value.Valid()) && duration == Duration(end)
    && (cursor > 0 ==> Meanings(input) == StreamOf(plan, duration, cursor - 1))
    && (cursor == 0 ==> input == source && |plan| > 0 && plan[0] == Source(Meanings(source)))
    && (cursor == 0 ==> Punctual(Meanings(source), duration))
  }

  /** Fractions in lowest terms: the stream determines the batch. */
  lemma SameBatch(a: seq<RationalItem>, b: seq<RationalItem>)
    requires AllRational(a) && AllRational(b) && Meanings(a) == Meanings(b)
    ensures a == b
  {
    assert |a| == |Meanings(a)| == |b|;
    forall i | 0 <= i < |a| ensures a[i] == b[i] {
      assert Meanings(a)[i] == a[i].Meaning() && Meanings(b)[i] == b[i].Meaning();
      SameFraction(a[i].start, b[i].start);
      SameFraction(a[i].end, b[i].end);
    }
  }

  /** Only the first section has a logical end. */
  function EndOf(cursor: nat, end: Option<Fraction>): Option<Fraction> { if cursor > 0 then None else end }

  lemma BoundaryFits(
      plan: Plan, nodes: seq<StageNode>, duration: Option<real>, source: seq<RationalItem>, end: Option<Fraction>,
      cursor: nat, hi: nat, input: seq<RationalItem>)
    requires Linear(plan, nodes) && cursor <= hi < |plan| && AtBoundary(plan, duration, source, end, cursor, input)
    requires NativeFits(plan, nodes, duration, cursor, hi + 1)
    ensures SectionFits(plan, nodes, duration, Boundary(cursor), hi, input, EndOf(cursor, end))
    ensures cursor > 0 ==> Meanings(input) == StreamOf(plan, duration, cursor - 1)
  {
    var e := EndOf(cursor, end);
    var n := Admitted(Meanings(input), Duration(e));
    assert cursor > 0 ==> Meanings(input)[..n] == Meanings(input);
  }

  /** The native section from `cursor` to hi refuses what its boundary holds. */
  ghost predicate SectionRefused(
      plan: Plan, nodes: seq<StageNode>, source: seq<RationalItem>, end: Option<Fraction>, cursor: nat, hi: nat)
  {
    && Linear(plan, nodes) && cursor <= |plan| && (end.Some? ==> end.value.Valid())
    && exists input {:trigger SectionAccepted(plan, nodes, Boundary(cursor), hi, input, EndOf(cursor, end))} ::
         AtBoundary(plan, Duration(end), source, end, cursor, input) &&
         !SectionAccepted(plan, nodes, Boundary(cursor), hi, input, EndOf(cursor, end))
  }

  /** Position j of the section: its run is bound and packed over a common timebase, and
      what the position computes fits its types. */
  ghost predicate PositionRuns(
      plan: Plan, nodes: seq<StageNode>, lo: nat, hi: nat, input: seq<RationalItem>, end: Option<Fraction>, j: nat)
  {
    && lo <= j <= hi && SectionAccepted(plan, nodes, lo, hi, input, end)
    && var section, bound := SectionPlan(plan, lo, hi, Meanings(input)), Bound(nodes, lo, hi);
       var timebase := RunTimebase(bound, Packed(input).denominator, end);
       Accepted(section, bound, Packed(input), Duration(end), timebase, j - lo)
  }

  lemma AllPositionsRun(
      plan: Plan, nodes: seq<StageNode>, lo: nat, hi: nat, input: seq<RationalItem>, end: Option<Fraction>, j: nat)
    requires SectionAccepted(plan, nodes, lo, hi, input, end) && lo <= j <= hi
    ensures PositionRuns(plan, nodes, lo, hi, input, end, j)
  {
  }

  /** ... and every position of it runs. */
  ghost predicate SectionRan(
      plan: Plan, nodes: seq<StageNode>, source: seq<RationalItem>, end: Option<Fraction>, cursor: nat, hi: nat)
  {
    && Linear(plan, nodes) && cursor <= |plan| && Boundary(cursor) <= hi && (end.Some? ==> end.value.Valid())
    && exists input :: AtBoundary(plan, Duration(end), source, end, cursor, input) &&
         forall j :: Boundary(cursor) <= j <= hi ==>
           PositionRuns(plan, nodes, Boundary(cursor), hi, input, EndOf(cursor, end), j)
  }

  lemma RanOrRefused(
      plan: Plan, nodes: seq<StageNode>, duration: Option<real>, source: seq<RationalItem>, end: Option<Fraction>,
      cursor: nat, hi: nat, input: seq<RationalItem>)
    requires Linear(plan, nodes) && cursor <= hi < |plan| && AtBoundary(plan, duration, source, end, cursor, input)
    ensures SectionAccepted(plan, nodes, Boundary(cursor), hi, input, EndOf(cursor, end)) ==>
            SectionRan(plan, nodes, source, end, cursor, hi)
    ensures !SectionAccepted(plan, nodes, Boundary(cursor), hi, input, EndOf(cursor, end)) ==>
            SectionRefused(plan, nodes, source, end, cursor, hi)
  {
    if SectionAccepted(plan, nodes, Boundary(cursor), hi, input, EndOf(cursor, end)) {
      forall j | Boundary(cursor) <= j <= hi
        ensures PositionRuns(plan, nodes, Boundary(cursor), hi, input, EndOf(cursor, end), j)
      {
        AllPositionsRun(plan, nodes, Boundary(cursor), hi, input, EndOf(cursor, end), j);
      }
    }
  }

  /** Not both: the batch at a boundary is determined. */
  lemma RanIsNotRefused(
      plan: Plan, nodes: seq<StageNode>, source: seq<RationalItem>, end: Option<Fraction>, cursor: nat, hi: nat)
    requires SectionRan(plan, nodes, source, end, cursor, hi)
    ensures !SectionRefused(plan, nodes, source, end, cursor, hi)
  {
    var ran :| AtBoundary(plan, Duration(end), source, end, cursor, ran) &&
               forall j :: Boundary(cursor) <= j <= hi ==>
                 PositionRuns(plan, nodes, Boundary(cursor), hi, ran, EndOf(cursor, end), j);
    assert PositionRuns(plan, nodes, Boundary(cursor), hi, ran, EndOf(cursor, end), hi);
    forall a, b | AtBoundary(plan, Duration(end), source, end, cursor, a) &&
                  AtBoundary(plan, Duration(end), source, end, cursor, b)
      ensures a == b
    {
      if cursor > 0 { SameBatch(a, b); }
    }
  }

  /** A native section. Unless it is the first it replays the batch before it. */
  method RunNativeSection(
      nodes: seq<StageNode>, cursor: nat, hi: nat, input: seq<RationalItem>, end: Option<Fraction>, total: Counts,
      ghost plan: Plan, ghost duration: Option<real>, ghost source: seq<RationalItem>)
    returns (r: Result<seq<RationalItem>>, counts: Counts)
    requires Linear(plan, nodes) && cursor <= hi < |plan| && AtBoundary(plan, duration, source, end, cursor, input)
    requires NativeFits(plan, nodes, duration, cursor, hi + 1) && Totals(total, Streams(plan, duration), cursor)
    ensures r.Err? ==> SectionRefused(plan, nodes, source, end, cursor, hi)
    ensures r.Ok? ==> SectionRan(plan, nodes, source, end, cursor, hi)
    ensures r.Ok? ==> AllRational(r.value) && Meanings(r.value) == StreamOf(plan, duration, hi)
    ensures r.Ok? ==> Totals(counts, Streams(plan, duration), hi + 1)
  {
    BoundaryFits(plan, nodes, duration, source, end, cursor, hi, input);
    RanOrRefused(plan, nodes, duration, source, end, cursor, hi, input);
    var ports, timebase := EvaluateSection(nodes, Boundary(cursor), hi, input, EndOf(cursor, end), plan, duration);
    r, counts := Finish(ports, timebase, cursor, input, total, Streams(plan, duration), hi);
  }

  // ------------------------------------------------------------ Python pieces

  /** What the batch loop of a prefix stage computes is the stream, although the loop
      knows no gaps. */
  ghost predicate PrefixFollows(node: Node, input: seq<Item>)
    requires node.Valid()
  {
    match node
    case Source(_) => true
    case Rate(_, period, HOLD) => AllFireAlike(input, period)
    case Rate(_, _, SAMPLE) => true
    case Frame(_, size, hop, _) => FramesAlign(input, 0, size, hop)
    case Map(_, _, acceptsInvalid, resetOnGap) => resetOnGap ==> NeverReset(input, acceptsInvalid)
  }

  predicate IslandRefuses(step: StageNode, prefix: bool) {
    if prefix then Pads(step) else !step.MapNode?
  }

  /** One node of a Python stage. Behind a native section only MAPs are taken. */
  method RunPythonNode(step: StageNode, prefix: bool, input: seq<RationalItem>, ghost node: Node, ghost i: nat)
    returns (r: Result<seq<RationalItem>>)
    requires NodeMatches(node, step, i) && node.Valid() && AllRational(input) && PrefixFollows(node, Meanings(input))
    ensures r.Ok? <==> !IslandRefuses(step, prefix)
    ensures r.Ok? ==> AllRational(r.value) && Meanings(r.value) == Run(node, Meanings(input)).1
  {
    ghost var stream := Meanings(input);
    match step {
      case RateNode(period, policy) =>
        if !prefix { return Err(MapIslandOnly); }
        RateRun(node, stream);
        Signed(period);
        var output;
        if policy == SAMPLE {
          output := PrefixSample(input, period);
        } else {
          output := PrefixHold(input, period);
          AlikeSuffices(stream, period.Real());
        }
        r := Ok(output);
      case FrameNode(size, hop, padEnd) =>
        if !prefix { return Err(MapIslandOnly); }
        if padEnd { return Err(FixedUnpaddedFrame); }
        StreamingFrames(node, stream);
        FramesAlignSuffices(stream, 0, size, hop);
        assert stream[0..] == stream;
        var output := PrefixFrames(input, size, hop);
        r := Ok(output);
      case MapNode(kernel, _, acceptsInvalid) =>
        UnresetAgrees(node, stream);
        var output := RunPythonMap(input, kernel, acceptsInvalid, node);
        r := Ok(output);
    }
  }

  ghost predicate PythonFollows(plan: Plan, duration: Option<real>, i: nat)
    requires WellFormed(plan) && 0 < i < |plan|
  {
    PrefixFollows(plan[i], StreamOf(plan, duration, i - 1))
  }

  /** Every position of an island is computed as its stream. */
  ghost predicate IslandFits(plan: Plan, nodes: seq<StageNode>, duration: Option<real>, from: nat, to: nat)
    requires Linear(plan, nodes) && to <= |plan|
  {
    forall i :: from <= i < to && i > 0 ==> PythonFollows(plan, duration, i)
  }

  predicate NoneRefuses(nodes: seq<StageNode>, lo: nat, hi: nat, prefix: bool)
    requires hi <= |nodes|
  {
    forall i :: lo <= i < hi ==> !IslandRefuses(nodes[i], prefix)
  }

  predicate IslandRuns(nodes: seq<StageNode>, from: nat, to: nat)
    requires 0 < to <= |nodes| + 1
  {
    NoneRefuses(nodes, if from > 0 then from - 1 else 0, to - 1, from == 0)
  }

  /** Position i of a Python island. */
  method RunPosition(
      nodes: seq<StageNode>, i: nat, prefix: bool, input: seq<RationalItem>, ghost plan: Plan,
      ghost duration: Option<real>)
    returns (r: Result<seq<RationalItem>>)
    requires Linear(plan, nodes) && 0 < i < |plan| && PythonFollows(plan, duration, i)
    requires AllRational(input) && Meanings(input) == StreamOf(plan, duration, i - 1)
    ensures r.Ok? <==> !IslandRefuses(nodes[i - 1], prefix)
    ensures r.Ok? ==> AllRational(r.value) && Meanings(r.value) == StreamOf(plan, duration, i)
  {
    assert NodeMatches(plan[i], nodes[i - 1], i - 1);
    r := RunPythonNode(nodes[i - 1], prefix, input, plan[i], i - 1);
    if r.Ok? && !Pads(nodes[i - 1]) { StreamStep(plan, nodes, duration, i); }
  }

  /** The positions start, ..., to - 1 of a Python island, and their statuses. */
  method RunPositions(
      nodes: seq<StageNode>, start: nat, to: nat, prefix: bool, input: seq<RationalItem>, counted: Counts,
      ghost plan: Plan, ghost duration: Option<real>)
    returns (r: Result<seq<RationalItem>>, counts: Counts)
    requires Linear(plan, nodes) && 0 < start <= to <= |plan| && IslandFits(plan, nodes, duration, start, to)
    requires AllRational(input) && Meanings(input) == StreamOf(plan, duration, start - 1) && Positive(counted)
    ensures r.Ok? <==> NoneRefuses(nodes, start - 1, to - 1, prefix)
    ensures r.Ok? ==> AllRational(r.value) && Meanings(r.value) == StreamOf(plan, duration, to - 1) && Positive(counts)
    ensures r.Ok? ==> forall s :: At(counts, s) == At(counted, s) + Tally(Streams(plan, duration), start, to, s)
  {
    var batch := input;
    ghost var streams := Streams(plan, duration);
    counts := counted;
    for i := start to to
      invariant AllRational(batch) && Meanings(batch) == StreamOf(plan, duration, i - 1)
      invariant NoneRefuses(nodes, start - 1, i - 1, prefix)
      invariant Positive(counts) && forall s :: At(counts, s) == At(counted, s) + Tally(streams, start, i, s)
    {
      var output := RunPosition(nodes, i, prefix, batch, plan, duration);
      if output.Err? { return Err(output.error), counted; }
      batch := output.value;
      assert Meanings(batch) == streams[i];
      counts := CountEmissions(counts, batch);
    }
    r := Ok(batch);
  }

  /** A Python island, from the batch before it; an island at the very front takes
      the source along. */
  method RunIsland(
      nodes: seq<StageNode>, from: nat, to: nat, input: seq<RationalItem>, total: Counts,
      ghost plan: Plan, ghost duration: Option<real>)
    returns (r: Result<seq<RationalItem>>, counts: Counts)
    requires Linear(plan, nodes) && from < to <= |plan| && IslandFits(plan, nodes, duration, from, to)
    requires AllRational(input) && Meanings(input) == StreamOf(plan, duration, Boundary(from))
    requires Totals(total, Streams(plan, duration), from)
    ensures r.Ok? <==> IslandRuns(nodes, from, to)
    ensures r.Ok? ==> AllRational(r.value) && Meanings(r.value) == StreamOf(plan, duration, to - 1)
    ensures r.Ok? ==> Totals(counts, Streams(plan, duration), to)
  {
    var section: Counts := map[];
    ghost var streams := Streams(plan, duration);
    var start := from;
    if from == 0 {
      section := CountEmissions(section, input);
      start := 1;
    }
    r, section := RunPositions(nodes, start, to, from == 0, input, section, plan, duration);
    counts := total;
    if r.Ok? {
      if from == 0 {
        forall s ensures At(section, s) == Tally(streams, 0, to, s) { Replayed(streams, 1, to, s); }
      }
      counts := AddTotals(total, section, streams, from, to);
    }
  }

  /** The emissions that end no later than the logical end. */
  method Admit(source: seq<RationalItem>, end: Option<Fraction>) returns (kept: seq<RationalItem>)
    requires AllRational(source) && (end.Some? ==> end.value.Valid()) && Punctual(Meanings(source), Duration(end))
    ensures AllRational(kept) && Meanings(kept) == Meanings(source)[..Admitted(Meanings(source), Duration(end))]
  {
    ghost var items, n := Meanings(source), Admitted(Meanings(source), Duration(end));
    kept := [];
    for k := 0 to |source|
      invariant AllRational(kept) && Meanings(kept) == items[..if k <= n then k else n]
    {
      if end.Some? { BeforeIs(end.value, source[k].end); }
      if end.None? || !Before(end.value, source[k].end) {
        assert k < n;
        MeaningsConcat(kept, [source[k]]);
        assert Meanings([source[k]]) == [items[k]];
        kept := kept + [source[k]];
      } else {
        assert k >= n;
      }
    }
  }

  // -------------------------------------------------------------- all pieces

  /** Islands in order, disjoint, and with a native section between any two. */
  ghost predicate IslandsFit(islands: seq<(nat, nat)>, n: nat) {
    && (forall k :: 0 <= k < |islands| ==> islands[k].0 < islands[k].1 <= n)
    && (forall k :: 0 < k < |islands| ==> islands[k - 1].1 < islands[k].0)
  }

  /** Where the native section before island k begins, and where it stops. */
  function Cut(islands: seq<(nat, nat)>, k: nat): nat
    requires k <= |islands|
  {
    if k == 0 then 0 else islands[k - 1].1
  }

  function Stop(islands: seq<(nat, nat)>, k: nat, n: nat): nat
    requires k <= |islands|
  {
    if k < |islands| then islands[k].0 else n
  }

  /** Gaps survive every piece: as segments where the piece is native, and although
      they are not looked at where it is Python. */
  ghost predicate Splits(plan: Plan, nodes: seq<StageNode>, duration: Option<real>, islands: seq<(nat, nat)>)
    requires Linear(plan, nodes) && IslandsFit(islands, |plan|)
  {
    && (forall k :: 0 <= k < |islands| ==> IslandFits(plan, nodes, duration, islands[k].0, islands[k].1))
    && (forall k :: 0 <= k <= |islands| ==>
          NativeFits(plan, nodes, duration, Cut(islands, k), Stop(islands, k, |plan|)))
  }

  /** The batch an island starts from: behind a native section its decoded output, at
      the front the source up to the logical end. */
  method RunToIsland(
      nodes: seq<StageNode>, cursor: nat, from: nat, input: seq<RationalItem>, end: Option<Fraction>, total: Counts,
      ghost plan: Plan, ghost duration: Option<real>, ghost source: seq<RationalItem>)
    returns (r: Result<seq<RationalItem>>, counts: Counts)
    requires Linear(plan, nodes) && cursor <= from < |plan| && (from > 0 ==> cursor < from)
    requires AtBoundary(plan, duration, source, end, cursor, input)
    requires NativeFits(plan, nodes, duration, cursor, from) && Totals(total, Streams(plan, duration), cursor)
    ensures r.Err? ==> from > 0 && SectionRefused(plan, nodes, source, end, cursor, from - 1)
    ensures r.Ok? && from > 0 ==> SectionRan(plan, nodes, source, end, cursor, from - 1)
    ensures r.Ok? ==> AllRational(r.value) && Meanings(r.value) == StreamOf(plan, duration, Boundary(from))
    ensures r.Ok? ==> Totals(counts, Streams(plan, duration), from)
  {
    if from > 0 {
      r, counts := RunNativeSection(nodes, cursor, from - 1, input, end, total, plan, duration, source);
    } else {
      var kept := Admit(input, end);
      r, counts := Ok(kept), total;
    }
  }

  /** Piece k of the run is refused: island k, or the native section before it. */
  ghost predicate PieceRefused(
      plan: Plan, nodes: seq<StageNode>, source: seq<RationalItem>, end: Option<Fraction>, islands: seq<(nat, nat)>,
      k: nat)
    requires Linear(plan, nodes) && IslandsFit(islands, |plan|) && k <= |islands|
  {
    || (k < |islands| && !IslandRuns(nodes, islands[k].0, islands[k].1))
    || (Cut(islands, k) < Stop(islands, k, |plan|) &&
        SectionRefused(plan, nodes, source, end, Cut(islands, k), Stop(islands, k, |plan|) - 1))
  }

  ghost predicate PieceRan(
      plan: Plan, nodes: seq<StageNode>, source: seq<RationalItem>, end: Option<Fraction>, islands: seq<(nat, nat)>,
      k: nat)
    requires Linear(plan, nodes) && IslandsFit(islands, |plan|) && k <= |islands|
  {
    && (k < |islands| ==> IslandRuns(nodes, islands[k].0, islands[k].1))
    && (Cut(islands, k) < Stop(islands, k, |plan|) ==>
          SectionRan(plan, nodes, source, end, Cut(islands, k), Stop(islands, k, |plan|) - 1))
  }

  lemma PieceIsNotRefused(
      plan: Plan, nodes: seq<StageNode>, source: seq<RationalItem>, end: Option<Fraction>, islands: seq<(nat, nat)>,
      k: nat)
    requires Linear(plan, nodes) && IslandsFit(islands, |plan|) && k <= |islands|
    requires PieceRan(plan, nodes, source, end, islands, k)
    ensures !PieceRefused(plan, nodes, source, end, islands, k)
  {
    if Cut(islands, k) < Stop(islands, k, |plan|) {
      RanIsNotRefused(plan, nodes, source, end, Cut(islands, k), Stop(islands, k, |plan|) - 1);
    }
  }

  /** An island, and the native section before it. */
  method RunPiece(
      nodes: seq<StageNode>, cursor: nat, from: nat, to: nat, input: seq<RationalItem>, end: Option<Fraction>,
      total: Counts, ghost plan: Plan, ghost duration: Option<real>, ghost source: seq<RationalItem>)
    returns (r: Result<seq<RationalItem>>, counts: Counts)
    requires Linear(plan, nodes) && cursor <= from < to <= |plan| && (from > 0 ==> cursor < from)
    requires NativeFits(plan, nodes, duration, cursor, from) && IslandFits(plan, nodes, duration, from, to)
    requires AtBoundary(plan, duration, source, end, cursor, input) && Totals(total, Streams(plan, duration), cursor)
    ensures r.Err? ==> (from > 0 && SectionRefused(plan, nodes, source, end, cursor, from - 1)) ||
                       !IslandRuns(nodes, from, to)
    ensures r.Ok? && from > 0 ==> SectionRan(plan, nodes, source, end, cursor, from - 1)
    ensures r.Ok? ==> IslandRuns(nodes, from, to) && AtBoundary(plan, duration, source, end, to, r.value)
    ensures r.Ok? ==> Totals(counts, Streams(plan, duration), to)
  {
    var before, reached := RunToIsland(nodes, cursor, from, input, end, total, plan, duration, source);
    r, counts := RunIslandAfter(nodes, from, to, before, reached, plan, duration);
  }

  /** The island, unless what lies before it was refused. */
  method RunIslandAfter(
      nodes: seq<StageNode>, from: nat, to: nat, before: Result<seq<RationalItem>>, total: Counts,
      ghost plan: Plan, ghost duration: Option<real>)
    returns (r: Result<seq<RationalItem>>, counts: Counts)
    requires Linear(plan, nodes) && from < to <= |plan| && IslandFits(plan, nodes, duration, from, to)
    requires before.Ok? ==>
             AllRational(before.value) && Meanings(before.value) == StreamOf(plan, duration, Boundary(from))
    requires before.Ok? ==> Totals(total, Streams(plan, duration), from)
    ensures r.Ok? <==> before.Ok? && IslandRuns(nodes, from, to)
    ensures r.Ok? ==> AllRational(r.value) && Meanings(r.value) == StreamOf(plan, duration, to - 1)
    ensures r.Ok? ==> Totals(counts, Streams(plan, duration), to)
  {
    if before.Err? { return before, total; }
    r, counts := RunIsland(nodes, from, to, before.value, total, plan, duration);
  }

  lemma PieceFits(plan: Plan, nodes: seq<StageNode>, duration: Option<real>, islands: seq<(nat, nat)>, k: nat)
    requires Linear(plan, nodes) && k < |islands| && IslandsFit(islands, |plan|)
    requires Splits(plan, nodes, duration, islands)
    ensures Cut(islands, k) <= islands[k].0 < islands[k].1 <= |plan| &&
            (islands[k].0 > 0 ==> Cut(islands, k) < islands[k].0)
    ensures NativeFits(plan, nodes, duration, Cut(islands, k), islands[k].0)
    ensures IslandFits(plan, nodes, duration, islands[k].0, islands[k].1)
    ensures Cut(islands, k + 1) == islands[k].1
  {
    assert NativeFits(plan, nodes, duration, Cut(islands, k), Stop(islands, k, |plan|));
    assert IslandFits(plan, nodes, duration, islands[k].0, islands[k].1);
  }

  /** What is refused, or has run, when the native section and the island end like this. */
  lemma PieceEnds(
      plan: Plan, nodes: seq<StageNode>, source: seq<RationalItem>, end: Option<Fraction>, islands: seq<(nat, nat)>,
      k: nat,
      ran: bool)
    requires Linear(plan, nodes) && k < |islands| && IslandsFit(islands, |plan|)
    requires var (from, to) := islands[k];
             if ran then IslandRuns(nodes, from, to) &&
                         (from > 0 ==> SectionRan(plan, nodes, source, end, Cut(islands, k), from - 1))
             else ((from > 0 && SectionRefused(plan, nodes, source, end, Cut(islands, k), from - 1)) ||
                   !IslandRuns(nodes, from, to))
    ensures if ran then PieceRan(plan, nodes, source, end, islands, k)
            else PieceRefused(plan, nodes, source, end, islands, k)
  {
    assert islands[k].0 > 0 ==> Cut(islands, k) < islands[k].0;
  }

  /** The native suffix, when there is one. */
  method RunSuffix(
      nodes: seq<StageNode>, cursor: nat, input: seq<RationalItem>, end: Option<Fraction>, total: Counts,
      ghost plan: Plan, ghost duration: Option<real>, ghost source: seq<RationalItem>)
    returns (r: Result<seq<RationalItem>>, counts: Counts)
    requires Linear(plan, nodes) && 0 < cursor <= |plan| == |nodes| + 1
    requires AtBoundary(plan, duration, source, end, cursor, input)
    requires NativeFits(plan, nodes, duration, cursor, |plan|) && Totals(total, Streams(plan, duration), cursor)
    ensures r.Err? ==> cursor < |plan| && SectionRefused(plan, nodes, source, end, cursor, |nodes|)
    ensures r.Ok? && cursor < |plan| ==> SectionRan(plan, nodes, source, end, cursor, |nodes|)
    ensures r.Ok? ==> AllRational(r.value) && Meanings(r.value) == StreamOf(plan, duration, |nodes|)
    ensures r.Ok? ==> Totals(counts, Streams(plan, duration), |plan|)
  {
    if cursor > |nodes| { return Ok(input), total; }
    r, counts := RunNativeSection(nodes, cursor, |nodes|, input, end, total, plan, duration, source);
  }

  /** CppMultiIslandSession.run: wherever a linear plan is cut, the decoded output and
      the status counts are those of the streaming machine at the same logical end. The
      run fails exactly when the end is not positive or one of its pieces is refused. */
  method RunIslands(
      nodes: seq<StageNode>, source: seq<RationalItem>, islands: seq<(nat, nat)>, end: Option<Fraction>,
      ghost plan: Plan)
    returns (r: Result<seq<RationalItem>>, counts: Counts)
    requires Linear(plan, nodes) && AllRational(source) && plan[0] == Source(Meanings(source))
    requires (end.Some? ==> end.value.Valid()) && Punctual(Meanings(source), Duration(end))
    requires |islands| > 0 && IslandsFit(islands, |plan|) && Splits(plan, nodes, Duration(end), islands)
    ensures r.Err? <==> (end.Some? && end.value.numerator <= 0) || SomeRefused(plan, nodes, source, end, islands)
    ensures r.Ok? ==> AllRational(r.value) && Meanings(r.value) == StreamOf(plan, Duration(end), |nodes|)
    ensures r.Ok? ==> Totals(counts, Streams(plan, Duration(end)), |plan|)
  {
    counts := map[];
    if end.Some? && end.value.numerator <= 0 { return Err(PositiveDuration), counts; }
    ghost var duration := Duration(end);
    var batch := source;
    for k := 0 to |islands|
      invariant AtBoundary(plan, duration, source, end, Cut(islands, k), batch)
      invariant Totals(counts, Streams(plan, duration), Cut(islands, k))
      invariant forall j :: 0 <= j < k ==> PieceRan(plan, nodes, source, end, islands, j)
    {
      var (from, to) := islands[k];
      PieceFits(plan, nodes, duration, islands, k);
      r, counts := RunPiece(nodes, Cut(islands, k), from, to, batch, end, counts, plan, duration, source);
      PieceEnds(plan, nodes, source, end, islands, k, r.Ok?);
      if r.Err? { return; }
      batch := r.value;
    }
    assert NativeFits(plan, nodes, duration, Cut(islands, |islands|), Stop(islands, |islands|, |plan|));
    LastPiece(plan, nodes, source, end, islands);
    r, counts := RunSuffix(nodes, Cut(islands, |islands|), batch, end, counts, plan, duration, source);
    if r.Ok? { NoneIsRefused(plan, nodes, source, end, islands); }
  }

  lemma LastPiece(
      plan: Plan, nodes: seq<StageNode>, source: seq<RationalItem>, end: Option<Fraction>, islands: seq<(nat, nat)>)
    requires Linear(plan, nodes) && |islands| > 0 && IslandsFit(islands, |plan|)
    ensures Cut(islands, |islands|) < |plan| &&
            SectionRefused(plan, nodes, source, end, Cut(islands, |islands|), |nodes|) ==>
            PieceRefused(plan, nodes, source, end, islands, |islands|)
    ensures (Cut(islands, |islands|) < |plan| ==>
               SectionRan(plan, nodes, source, end, Cut(islands, |islands|), |nodes|)) ==>
            PieceRan(plan, nodes, source, end, islands, |islands|)
  {
  }

  ghost predicate SomeRefused(
      plan: Plan, nodes: seq<StageNode>, source: seq<RationalItem>, end: Option<Fraction>, islands: seq<(nat, nat)>)
    requires Linear(plan, nodes) && IslandsFit(islands, |plan|)
  {
    exists k :: 0 <= k <= |islands| && PieceRefused(plan, nodes, source, end, islands, k)
  }

  lemma NoneIsRefused(
      plan: Plan, nodes: seq<StageNode>, source: seq<RationalItem>, end: Option<Fraction>, islands: seq<(nat, nat)>)
    requires Linear(plan, nodes) && IslandsFit(islands, |plan|)
    requires forall k :: 0 <= k <= |islands| ==> PieceRan(plan, nodes, source, end, islands, k)
    ensures !SomeRefused(plan, nodes, source, end, islands)
  {
    forall k | 0 <= k <= |islands| ensures !PieceRefused(plan, nodes, source, end, islands, k) {
      PieceIsNotRefused(plan, nodes, source, end, islands, k);
    }
  }

  lemma OneSource(plan: Plan, nodes: seq<StageNode>)
    requires Linear(plan, nodes)
    ensures forall i :: 0 < i < |plan| ==> !plan[i].Source? && plan[i].input == i - 1
  {
    forall i | 0 < i < |plan| ensures !plan[i].Source? && plan[i].input == i - 1 {
      assert NodeMatches(plan[i], nodes[i - 1], i - 1);
    }
  }

  lemma GapFreeFollows(plan: Plan, nodes: seq<StageNode>, duration: Option<real>, i: nat)
    requires Linear(plan, nodes) && 0 < i < |plan| && NoGaps(plan[0].items) && FaithfulPlan(plan, duration)
    ensures NativeFollows(plan, duration, i) && PythonFollows(plan, duration, i)
  {
    OneSource(plan, nodes);
    SnapshotsKeepNoGaps(plan, duration, i - 1);
    if plan[i].Rate? && plan[i].policy == HOLD { GapsOnGridAlike(StreamOf(plan, duration, i - 1), plan[i].period); }
    if plan[i].Frame? { GapFreeAlign(StreamOf(plan, duration, i - 1), plan[i].size, plan[i].hop); }
  }

  /** A source without gaps can be split anywhere. */
  lemma GapFreeSplits(plan: Plan, nodes: seq<StageNode>, duration: Option<real>, islands: seq<(nat, nat)>)
    requires Linear(plan, nodes) && NoGaps(plan[0].items) && IslandsFit(islands, |plan|)
    ensures Splits(plan, nodes, duration, islands)
  {
    OneSource(plan, nodes);
    GapFreePlansAreFaithful(plan, duration);
    forall i | 0 < i < |plan| ensures NativeFollows(plan, duration, i) && PythonFollows(plan, duration, i) {
      GapFreeFollows(plan, nodes, duration, i);
    }
  }
}
