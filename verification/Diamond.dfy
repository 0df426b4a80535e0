/** A shared port read by two chains of FRAME, SAMPLE and MAP nodes that meet again in an
    exact merge, run on demand of the merge: every state of the run, exactly which capacity
    suffices, and exactly when the merge receives every pair of items. */
module Diamonds {
  import opened Stream
  import opened Operators
  import opened Plans
  import opened Scheduling
  import opened Frontiers
  import opened Spacing
  import opened Grids
  import opened Capacities
  import opened Scaling
  import opened Vectors
  import opened Chains
  import opened Merges
  import opened PortPromises
  import opened MergeRuns

  /** The nodes up to the shared port, the two chains behind it, and the capacity of the
      shared buffer. */
  datatype Setting = Setting(front: Plan, main: Chain, aux: Chain, capacity: nat) {
    /** The shared port, the last port of each chain, and the two inputs of the merge. */
    function P(): nat { if front == [] then 0 else |front| - 1 }
    function M(): nat { P() + |main| }
    function A(): nat { P() + |main| + |aux| }
    function X(): nat { P() + |main| + |aux| + 1 }
    function Y(): nat { P() + |main| + |aux| + 2 }

    ghost predicate Valid() {
      && IsFront(front) && ValidChain(main) && ValidChain(aux) && |main| > 0 && |aux| > 0
      && Timed(main, TimeSignature(front, |front| - 1).step) && Timed(aux, TimeSignature(front, |front| - 1).step)
      && Stride(main) == Stride(aux) && Span(main) == Span(aux) && capacity > 0
    }
  }

  /** The period of every SAMPLE is `ratio` steps of the grid that it reads, in a chain behind
      a port of this step. */
  ghost predicate Timed(chain: Chain, step: real)
    requires ValidChain(chain)
  {
    forall i :: 0 <= i < |chain| ==> InTime(chain, step, i)
  }

  ghost predicate InTime(chain: Chain, step: real, i: nat)
    requires i < |chain|
  {
    chain[i].Sampled? ==> chain[i].period == Times(chain[i].ratio as real, Times(Stride(chain[..i]) as real, step))
  }

  /** A source and any nodes behind it, one after the other, each emitting at most one
      item per unit of work and every port on its time grid. */
  ghost predicate IsFront(front: Plan) {
    && WellFormed(front) && front != [] && UnitPlan(front) && Compiles(front) && FitPlan(front)
    && forall i :: 0 <= i < |front| ==> InChain(front, i) && NodeMaxItems(front, i) == 1
  }

  predicate InChain(front: Plan, i: nat)
    requires i < |front|
  {
    if i == 0 then front[i].Source? else !front[i].Source? && front[i].input == i - 1
  }

  /** What the shared port carries in all, and its time signature. */
  function Shared(s: Setting): seq<Item>
    requires s.Valid()
  {
    Denotation(s.front, s.P())
  }

  function SharedSignature(s: Setting): Signature
    requires s.Valid()
  {
    TimeSignature(s.front, s.P())
  }

  // ---------------------------------------------------------------- the plan

  function NodeOf(input: nat, link: Link): Node {
    match link
    case Window(size, hop) => Frame(input, size, hop, false)
    case Sampled(_, period) => Rate(input, period, SAMPLE)
    case Mapped(kernel, acceptsInvalid, resetOnGap) => Map(input, kernel, acceptsInvalid, resetOnGap)
  }

  /** Link i of the chain behind port `port` whose nodes are numbered from lo + 1 on. */
  function LinkNode(port: nat, lo: nat, i: nat, link: Link): Node
    requires i > 0
  {
    NodeOf(if i == 1 then port else lo + i - 1, link)
  }

  /** A merge reads each of its inputs at a cursor of its own; such an input is a node
      that hands on what the merge takes. */
  function Passing(): Kernel {
    (items: seq<Item>) => [Raw(if items == [] then Padding else items[|items| - 1].value)]
  }

  function DiamondNode(s: Setting, k: nat): Node
    requires s.front != []
  {
    if k <= s.P() then s.front[k]
    else if k <= s.M() then LinkNode(s.P(), s.P(), k - s.P(), s.main[k - s.P() - 1])
    else if k <= s.A() then LinkNode(s.P(), s.M(), k - s.M(), s.aux[k - s.M() - 1])
    else Map(if k == s.X() then s.M() else s.A(), Passing(), true, false)
  }

  function DiamondPlan(s: Setting): Plan {
    if s.front == [] then [] else seq(s.Y() + 1, (k: nat) => DiamondNode(s, k))
  }

  /** Every unit of work emits at most one item; only the shared buffer holds more. */
  function DiamondLimits(s: Setting): Limits {
    Limits(seq(s.Y() + 1, _ => 1), seq(s.Y() + 1, (k: nat) => if k == s.P() then s.capacity else 1))
  }

  lemma PlanIsWellFormed(s: Setting)
    requires s.Valid()
    ensures WellFormed(DiamondPlan(s)) && ValidLimits(DiamondPlan(s), DiamondLimits(s))
  {
    var plan := DiamondPlan(s);
    forall k: nat | k < |plan| ensures plan[k].Valid() && (plan[k].Source? || plan[k].input < k) {
      assert plan[k] == DiamondNode(s, k);
      if s.P() < k <= s.M() {
        assert s.main[k - s.P() - 1].Valid();
      } else if s.M() < k <= s.A() {
        assert s.aux[k - s.M() - 1].Valid();
      }
    }
  }

  ghost predicate AtLink(plan: Plan, port: nat, lo: nat, chain: Chain, i: nat)
    requires 1 <= i <= |chain| && lo + |chain| < |plan|
  {
    plan[lo + i] == LinkNode(port, lo, i, chain[i - 1])
  }

  /** The nodes lo + 1, ..., lo + |chain| are the chain, from port `port` on, and each of
      its inner ports has the next link as its only reader. */
  ghost predicate IsBranch(plan: Plan, port: nat, lo: nat, chain: Chain)
    requires WellFormed(plan)
  {
    && ValidChain(chain) && lo + |chain| < |plan| && port <= lo && Timed(chain, TimeSignature(plan, port).step)
    && (forall i :: 1 <= i <= |chain| ==> AtLink(plan, port, lo, chain, i))
    && (forall c, j :: 0 <= c < |plan| && lo < j < lo + |chain| && Reads(plan, c, j) ==> c == j + 1)
  }

  /** What link i reads. */
  lemma BranchInput(plan: Plan, port: nat, lo: nat, chain: Chain, i: nat)
    requires WellFormed(plan) && IsBranch(plan, port, lo, chain) && 1 <= i <= |chain|
    ensures !plan[lo + i].Source? && plan[lo + i].input == if i == 1 then port else lo + i - 1
  {
    assert AtLink(plan, port, lo, chain, i);
  }

  /** The nodes up to port p are one chain, and each but the last has one reader. */
  ghost predicate IsStem(plan: Plan, p: nat) {
    && p < |plan| && (forall j :: 0 <= j <= p ==> InChain(plan, j))
    && (forall c, j :: 0 <= c < |plan| && 0 <= j < p && Reads(plan, c, j) ==> c == j + 1)
  }

  lemma PlanNode(s: Setting, k: nat)
    requires k <= s.Y() && s.front != []
    ensures |DiamondPlan(s)| == s.Y() + 1 && DiamondPlan(s)[k] == DiamondNode(s, k)
  {
  }

  lemma WhoReads(s: Setting, c: nat, j: nat)
    requires s.Valid() && c <= s.Y()
    ensures |DiamondPlan(s)| == s.Y() + 1
    ensures Reads(DiamondPlan(s), c, j) <==>
            (if c == 0 then false
             else if c == s.X() then j == s.M()
             else if c == s.Y() then j == s.A()
             else if c == s.M() + 1 then j == s.P() else j == c - 1)
  {
    PlanNode(s, c);
    if c <= s.P() { assert InChain(s.front, c); }
  }

  lemma Branches(s: Setting)
    requires s.Valid()
    ensures WellFormed(DiamondPlan(s)) && IsStem(DiamondPlan(s), s.P())
    ensures IsBranch(DiamondPlan(s), s.P(), s.P(), s.main) && IsBranch(DiamondPlan(s), s.P(), s.M(), s.aux)
  {
    var plan := DiamondPlan(s);
    PlanIsWellFormed(s);
    SharedIs(s);
    forall j: nat | j <= s.A()
      ensures plan[j] == if j <= s.P() then s.front[j]
              else if j <= s.M() then LinkNode(s.P(), s.P(), j - s.P(), s.main[j - s.P() - 1])
              else LinkNode(s.P(), s.M(), j - s.M(), s.aux[j - s.M() - 1])
    {
      PlanNode(s, j);
    }
    forall j: nat | j <= s.P() ensures InChain(plan, j) { assert InChain(s.front, j); }
    forall c, j: nat | 0 <= c < |plan| && Reads(plan, c, j) && j < s.A() && j != s.M() && j != s.P()
      ensures c == j + 1
    {
      WhoReads(s, c, j);
    }
  }

  // ------------------------------------------------------------ what ports carry

  /** Up to the shared port the plan is its front. */
  lemma {:induction false} FrontIsSame(s: Setting, k: nat)
    requires s.Valid() && k <= s.P()
    ensures WellFormed(DiamondPlan(s)) && k < |DiamondPlan(s)| && DiamondPlan(s)[k] == s.front[k]
    ensures Denotation(DiamondPlan(s), k) == Denotation(s.front, k)
    ensures TimeSignature(DiamondPlan(s), k) == TimeSignature(s.front, k)
    ensures ContainsFrame(DiamondPlan(s), k) == ContainsFrame(s.front, k)
  {
    PlanIsWellFormed(s);
    PlanNode(s, k);
    assert InChain(s.front, k);
    if k > 0 { FrontIsSame(s, k - 1); }
    SameStream(DiamondPlan(s), s.front, k);
    SameSignature(DiamondPlan(s), s.front, k);
    SameContents(DiamondPlan(s), s.front, k);
  }

  /** What a node of a chain carries depends on the node and on what the one before it carries. */
  lemma SameStream(a: Plan, b: Plan, k: nat)
    requires WellFormed(a) && WellFormed(b) && k < |a| && k < |b| && a[k] == b[k] && InChain(b, k)
    requires k > 0 ==> Denotation(a, k - 1) == Denotation(b, k - 1)
    ensures Denotation(a, k) == Denotation(b, k)
  {
  }

  lemma SameSignature(a: Plan, b: Plan, k: nat)
    requires WellFormed(a) && WellFormed(b) && k < |a| && k < |b| && a[k] == b[k] && InChain(b, k)
    requires k > 0 ==> TimeSignature(a, k - 1) == TimeSignature(b, k - 1)
    ensures TimeSignature(a, k) == TimeSignature(b, k)
  {
  }

  lemma SameContents(a: Plan, b: Plan, k: nat)
    requires WellFormed(a) && WellFormed(b) && k < |a| && k < |b| && a[k] == b[k] && InChain(b, k)
    requires k > 0 ==> ContainsFrame(a, k - 1) == ContainsFrame(b, k - 1)
    ensures ContainsFrame(a, k) == ContainsFrame(b, k)
  {
  }

  lemma SharedIs(s: Setting)
    requires s.Valid()
    ensures WellFormed(DiamondPlan(s)) && s.P() < |DiamondPlan(s)|
    ensures Denotation(DiamondPlan(s), s.P()) == Shared(s)
    ensures TimeSignature(DiamondPlan(s), s.P()) == SharedSignature(s)
  {
    FrontIsSame(s, s.P());
  }

  /** What the checks say about a node depends on the node and on what it reads. */
  lemma SameVerdict(a: Plan, b: Plan, k: nat)
    requires WellFormed(a) && WellFormed(b) && k < |a| && k < |b| && a[k] == b[k] && !a[k].Source?
    requires Denotation(a, a[k].input) == Denotation(b, a[k].input)
    requires TimeSignature(a, a[k].input) == TimeSignature(b, a[k].input)
    requires ContainsFrame(a, a[k].input) == ContainsFrame(b, a[k].input)
    ensures Passes(a, k) <==> Passes(b, k)
  {
  }

  /** The checks pass for node k, and it emits one item at a time. */
  ghost predicate Passes(plan: Plan, k: nat)
    requires WellFormed(plan) && k < |plan|
  {
    UnitNode(plan[k]) && NodeCompiles(plan, k) && Fit(plan, k) && NodeMaxItems(plan, k) == 1
  }

  lemma SourcePasses(plan: Plan, k: nat)
    requires WellFormed(plan) && k < |plan| && plan[k].Source? && UnitNode(plan[k])
    ensures Passes(plan, k)
  {
  }

  lemma FrontNode(front: Plan, k: nat)
    requires IsFront(front) && k < |front|
    ensures InChain(front, k) && Passes(front, k)
  {
  }

  lemma FrontIsFit(s: Setting, k: nat)
    requires s.Valid() && k <= s.P() && k < |DiamondPlan(s)| && WellFormed(DiamondPlan(s))
    ensures Passes(DiamondPlan(s), k)
  {
    FrontIsSame(s, k);
    FrontNode(s.front, k);
    if k > 0 {
      FrontIsSame(s, k - 1);
      SameVerdict(DiamondPlan(s), s.front, k);
    } else {
      SourcePasses(DiamondPlan(s), k);
    }
  }

  /** Node j is this link, in view of the grid that it reads. */
  ghost predicate IsLink(plan: Plan, j: nat, link: Link)
    requires WellFormed(plan)
  {
    && j < |plan| && !plan[j].Source? && plan[j] == NodeOf(plan[j].input, link) && link.Valid()
    && (link.Sampled? ==> link.period == Times(link.ratio as real, TimeSignature(plan, plan[j].input).step))
  }

  lemma LinkIsFit(plan: Plan, j: nat, link: Link)
    requires WellFormed(plan) && IsLink(plan, j, link)
    ensures UnitNode(plan[j]) && NodeCompiles(plan, j) && Fit(plan, j) && NodeMaxItems(plan, j) == 1
    ensures Multiplier(plan, j) == link.Demand()
  {
    PositiveSignature(plan, plan[j].input);
    if link.Sampled? { RatioIsMultiple(link.ratio, TimeSignature(plan, plan[j].input).step); }
  }

  lemma NodeIsFit(s: Setting, k: nat)
    requires s.Valid() && k < |DiamondPlan(s)|
    ensures WellFormed(DiamondPlan(s)) && UnitNode(DiamondPlan(s)[k])
    ensures NodeCompiles(DiamondPlan(s), k) && Fit(DiamondPlan(s), k) && NodeMaxItems(DiamondPlan(s), k) == 1
  {
    PlanIsWellFormed(s);
    PlanNode(s, k);
    if k <= s.P() {
      FrontIsFit(s, k);
    } else if k <= s.A() {
      var link := LinkAt(s, k);
      LinkIsFit(DiamondPlan(s), k, link);
    }
  }

  /** The nodes between the shared port and the merge are links. */
  lemma LinkAt(s: Setting, k: nat) returns (link: Link)
    requires s.Valid() && s.P() < k <= s.A()
    ensures WellFormed(DiamondPlan(s)) && IsLink(DiamondPlan(s), k, link)
    ensures k == s.A() ==> link == s.aux[|s.aux| - 1]
  {
    Branches(s);
    if k <= s.M() {
      BranchLink(DiamondPlan(s), s.P(), s.P(), s.main, k - s.P());
      link := s.main[k - s.P() - 1];
    } else {
      BranchLink(DiamondPlan(s), s.P(), s.M(), s.aux, k - s.M());
      link := s.aux[k - s.M() - 1];
    }
  }

  lemma PortsOnGrid(s: Setting, k: nat)
    requires s.Valid() && k < |DiamondPlan(s)|
    ensures WellFormed(DiamondPlan(s)) && UnitPlan(DiamondPlan(s)) && Compiles(DiamondPlan(s))
    ensures PortOnGrid(DiamondPlan(s), k) && NoGaps(Denotation(DiamondPlan(s), k))
  {
    var plan := DiamondPlan(s);
    forall i: nat | i < |plan| ensures WellFormed(plan) && UnitNode(plan[i]) && NodeCompiles(plan, i) && Fit(plan, i) {
      NodeIsFit(s, i);
    }
    GridIsKept(plan, k);
  }

  /** No unit of work of any run emits more than one item. */
  lemma BurstsOfOne(s: Setting)
    requires s.Valid()
    ensures WellFormed(DiamondPlan(s)) && ValidLimits(DiamondPlan(s), DiamondLimits(s))
    ensures Bounded(DiamondPlan(s), DiamondLimits(s))
  {
    var plan, limits := DiamondPlan(s), DiamondLimits(s);
    PlanIsWellFormed(s);
    PortsOnGrid(s, 0);
    forall k: nat | k < |plan| ensures ShortNode(plan[k]) { NodeIsFit(s, k); }
    forall i, k | 0 <= i < |plan| && !plan[i].Source? && 0 <= k < |Denotation(plan, plan[i].input)|
      ensures Scheduling.Emitted(plan[i], Denotation(plan, plan[i].input), k) <= limits.bursts[i]
    {
      NodeIsFit(s, i);
      BurstsAreBounded(plan, i, k);
    }
  }

  /** The signature of a chain's port, behind a port of this signature. */
  function Behind(signature: Signature, chain: Chain): Signature
    requires ValidChain(chain)
  {
    Chains.Positive(chain);
    Signature(signature.length + Times((Span(chain) - 1) as real, signature.step),
              Times(Stride(chain) as real, signature.step))
  }

  lemma LinkSignature(signature: Signature, front: Chain, input: nat, link: Link, chain: Chain)
    requires ValidChain(chain) && ValidChain(front) && chain == front + [link] && link.Valid()
    requires link.Sampled? ==> link.period == Times(link.ratio as real, Behind(signature, front).step)
    ensures NodeSignature(NodeOf(input, link), Behind(signature, front)) == Behind(signature, chain)
  {
    assert chain[..|chain| - 1] == front && chain[|chain| - 1] == link;
    Chains.Positive(front);
    LinkOnGrid(input, link, Behind(signature, front));
    ProductTimes(Stride(front), link.Size() - 1, signature.step);
    ProductTimes(Stride(front), link.Hop(), signature.step);
    TimesSum((Span(front) - 1) as real, Product(Stride(front), link.Size() - 1) as real, signature.step);
    assert (Span(chain) - 1) as real == (Span(front) - 1) as real + Product(Stride(front), link.Size() - 1) as real;
  }

  /** Every link moves the grid as a FRAME of its size and hop does. */
  lemma LinkOnGrid(input: nat, link: Link, signature: Signature)
    requires link.Valid() && (link.Sampled? ==> link.period == Times(link.ratio as real, signature.step))
    ensures NodeOf(input, link).Valid()
    ensures NodeSignature(NodeOf(input, link), signature) == FrameSignature(signature, link.Size(), link.Hop())
  {
  }

  lemma {:induction false} ProductTimes(x: nat, y: nat, step: real)
    ensures Times(Product(x, y) as real, step) == Times(y as real, Times(x as real, step))
  {
    if y > 0 {
      ProductTimes(x, y - 1, step);
      TimesSum(Product(x, y - 1) as real, x as real, step);
      TimesSum((y - 1) as real, 1.0, Times(x as real, step));
    }
  }

  /** The signature of link i's port counts shared items. */
  lemma {:induction false} BranchSignature(plan: Plan, port: nat, lo: nat, chain: Chain, i: nat)
    requires WellFormed(plan) && IsBranch(plan, port, lo, chain) && 1 <= i <= |chain|
    ensures !plan[lo + i].Source?
    ensures TimeSignature(plan, plan[lo + i].input) == Behind(TimeSignature(plan, port), chain[..i - 1])
    ensures TimeSignature(plan, lo + i) == Behind(TimeSignature(plan, port), chain[..i])
    decreases i
  {
    var front, link, j := chain[..i - 1], chain[i - 1], lo + i;
    assert AtLink(plan, port, lo, chain, i);
    assert chain[..i] == front + [link];
    if i > 1 {
      BranchSignature(plan, port, lo, chain, i - 1);
    } else {
      assert front == [] && Behind(TimeSignature(plan, port), front) == TimeSignature(plan, port);
    }
    assert InTime(chain, TimeSignature(plan, port).step, i - 1);
    LinkSignature(TimeSignature(plan, port), front, plan[j].input, link, chain[..i]);
  }

  lemma BranchLink(plan: Plan, port: nat, lo: nat, chain: Chain, i: nat)
    requires WellFormed(plan) && IsBranch(plan, port, lo, chain) && 1 <= i <= |chain|
    ensures IsLink(plan, lo + i, chain[i - 1])
  {
    assert AtLink(plan, port, lo, chain, i) && InTime(chain, TimeSignature(plan, port).step, i - 1);
    BranchSignature(plan, port, lo, chain, i);
  }

  /** Equal strides and spans are equal time signatures. */
  lemma EqualSignatures(s: Setting)
    requires s.Valid()
    ensures WellFormed(DiamondPlan(s)) && TimeSignature(DiamondPlan(s), s.M()) == TimeSignature(DiamondPlan(s), s.A())
    ensures TimeSignature(DiamondPlan(s), s.M()) == Behind(SharedSignature(s), s.main)
  {
    MainSignature(s);
    AuxSignature(s, |s.aux|);
    assert s.aux[..|s.aux|] == s.aux;
  }

  lemma MainSignature(s: Setting)
    requires s.Valid()
    ensures WellFormed(DiamondPlan(s)) && s.M() < |DiamondPlan(s)|
    ensures TimeSignature(DiamondPlan(s), s.M()) == Behind(SharedSignature(s), s.main)
  {
    SharedIs(s);
    Branches(s);
    BranchSignature(DiamondPlan(s), s.P(), s.P(), s.main, |s.main|);
    assert s.main[..|s.main|] == s.main;
  }

  lemma AuxSignature(s: Setting, i: nat)
    requires s.Valid() && 1 <= i <= |s.aux|
    ensures WellFormed(DiamondPlan(s)) && s.M() + i < |DiamondPlan(s)| && ValidChain(s.aux[..i])
    ensures TimeSignature(DiamondPlan(s), s.M() + i) == Behind(SharedSignature(s), s.aux[..i])
  {
    SharedIs(s);
    Branches(s);
    BranchSignature(DiamondPlan(s), s.P(), s.M(), s.aux, i);
  }

  lemma FrameCountGrows(a: nat, b: nat, size: nat, hop: nat)
    requires size > 0 && hop > 0 && a <= b
    ensures FrameCount(a, size, hop) <= FrameCount(b, size, hop)
  {
    if FrameCount(a, size, hop) > 0 {
      FrameCounted(a, size, hop, FrameCount(a, size, hop) - 1);
      FrameCounted(b, size, hop, FrameCount(a, size, hop) - 1);
    }
  }

  ghost predicate GridPlan(plan: Plan)
    requires WellFormed(plan)
  {
    forall k :: 0 <= k < |plan| ==> PortOnGrid(plan, k) && NoGaps(Denotation(plan, k))
  }

  /** On a grid every link emits as often as a FRAME of its size and hop does. */
  lemma LinkEmits(node: Node, link: Link, items: seq<Item>, signature: Signature)
    requires !node.Source? && node == NodeOf(node.input, link) && link.Valid() && node.Valid()
    requires OnGrid(items, signature) && NoGaps(items) && signature.step > 0.0
    requires link.Sampled? ==> link.period == Times(link.ratio as real, signature.step)
    ensures |Run(node, items).1| == FrameCount(|items|, link.Size(), link.Hop())
    ensures Denote(node, items) == Run(node, items).1
  {
    assert Denote(node, items) == Run(node, items).1 + [];
    match link
    case Window(_, _) => GapFreeFrames(node, items);
    case Sampled(ratio, period) =>
      RateRun(node, items);
      SampleGrid(items, signature, ratio, period);
      SampleCount(|items|, ratio, |Run(node, items).1|);
    case Mapped(_, _, _) => MapKeepsTimes(node, items);
  }

  lemma SampleCount(n: nat, ratio: nat, m: nat)
    requires ratio > 0 && Offset(m, ratio) >= n && (m > 0 ==> Offset(m - 1, ratio) < n)
    ensures m == FrameCount(n, 1, ratio)
  {
    FrameCounted(n, 1, ratio, m);
    if m > 0 { FrameCounted(n, 1, ratio, m - 1); }
  }

  /** A link has published one item per complete window of what it has read. */
  lemma OwnCount(plan: Plan, net: Network, j: nat, link: Link)
    requires Sound(plan, net) && GridPlan(plan) && IsLink(plan, j, link)
    ensures |net[j].published| == FrameCount(net[j].used, link.Size(), link.Hop())
    ensures net[j].used <= |net[plan[j].input].published|
  {
    var input := plan[j].input;
    assert NodeSound(plan, net, j) && PortOnGrid(plan, input);
    Determinate(plan, net, input);
    PositiveSignature(plan, input);
    var read := Denotation(plan, input)[..net[j].used];
    assert net[input].published[..net[j].used] == read;
    PrefixOnGrid(Denotation(plan, input), TimeSignature(plan, input), net[j].used);
    LinkEmits(plan[j], link, read, TimeSignature(plan, input));
  }

  /** None of the nodes from, ..., to has unread input. */
  ghost predicate Drained(plan: Plan, net: Network, from: nat, to: nat)
    requires WellFormed(plan) && |net| == |plan| && to < |plan|
  {
    forall j :: from <= j <= to ==> !Pending(plan, net, j)
  }

  /** A drained chain has published what its count says; any other no more than that. */
  lemma {:induction false} BranchCount(plan: Plan, net: Network, port: nat, lo: nat, chain: Chain, i: nat)
    requires Sound(plan, net) && GridPlan(plan) && IsBranch(plan, port, lo, chain) && 1 <= i <= |chain|
    ensures |net[lo + i].published| <= ChainCount(chain[..i], net[lo + 1].used)
    ensures Drained(plan, net, lo + 2, lo + i) ==> |net[lo + i].published| == ChainCount(chain[..i], net[lo + 1].used)
    decreases i
  {
    var front, link, j := chain[..i - 1], chain[i - 1], lo + i;
    assert AtLink(plan, port, lo, chain, i) && chain[..i] == front + [link];
    BranchLink(plan, port, lo, chain, i);
    OwnCount(plan, net, j, link);
    ChainCountSnoc(front, link, chain[..i], net[lo + 1].used);
    if i > 1 {
      BranchCount(plan, net, port, lo, chain, i - 1);
      FrameCountGrows(net[j].used, ChainCount(front, net[lo + 1].used), link.Size(), link.Hop());
      if Drained(plan, net, lo + 2, j) {
        assert Drained(plan, net, lo + 2, j - 1) && !Pending(plan, net, j);
        assert net[j].used == |net[j - 1].published|;
      }
    } else {
      assert front == [];
    }
  }

  lemma ChainCountSnoc(front: Chain, link: Link, chain: Chain, n: nat)
    requires ValidChain(chain) && chain == front + [link]
    ensures ValidChain(front) && link.Valid()
    ensures ChainCount(chain, n) == FrameCount(ChainCount(front, n), link.Size(), link.Hop())
  {
    assert chain[..|chain| - 1] == front && chain[|chain| - 1] == link;
    assert forall i :: 0 <= i < |front| ==> chain[i] == front[i];
  }

  lemma LinkStream(plan: Plan, j: nat, link: Link)
    requires WellFormed(plan) && GridPlan(plan) && IsLink(plan, j, link)
    ensures |Denotation(plan, j)| == FrameCount(|Denotation(plan, plan[j].input)|, link.Size(), link.Hop())
  {
    var input := plan[j].input;
    assert PortOnGrid(plan, input);
    PositiveSignature(plan, input);
    LinkEmits(plan[j], link, Denotation(plan, input), TimeSignature(plan, input));
  }

  /** The whole stream of a chain. */
  lemma {:induction false} DenotedCount(plan: Plan, port: nat, lo: nat, chain: Chain, i: nat)
    requires WellFormed(plan) && GridPlan(plan) && IsBranch(plan, port, lo, chain) && 1 <= i <= |chain|
    ensures |Denotation(plan, lo + i)| == ChainCount(chain[..i], |Denotation(plan, port)|)
    decreases i
  {
    var front, link, node := chain[..i - 1], chain[i - 1], plan[lo + i];
    assert AtLink(plan, port, lo, chain, i) && chain[..i] == front + [link];
    ChainCountSnoc(front, link, chain[..i], |Denotation(plan, port)|);
    if i > 1 { DenotedCount(plan, port, lo, chain, i - 1); } else { assert front == []; }
    BranchLink(plan, port, lo, chain, i);
    LinkStream(plan, lo + i, link);
  }

  // ---------------------------------------------------------------- demand

  /** A demand on a port of the stem that has room leads to work there. */
  lemma {:induction false} StemDemand(plan: Plan, net: Network, limits: Limits, p: nat, i: nat)
    requires Sound(plan, net) && IsStem(plan, p) && i <= p && !net[i].closed
    requires ValidLimits(plan, limits) && (forall k :: 0 <= k < |plan| ==> limits.bursts[k] == 1)
    requires Room(plan, net, i, 1, limits.capacities[i])
    ensures Demanded(plan, net, limits, None, i).Work? && Demanded(plan, net, limits, None, i).node <= i
    decreases i
  {
    assert InChain(plan, i);
    if i > 0 && !Pending(plan, net, i) && !net[i - 1].closed {
      assert NodeSound(plan, net, i);
      StemDemand(plan, net, limits, p, i - 1);
    }
  }

  /** Where a demand on link i's port leads, when what it published is all taken: to the
      last link with unread input, or through a drained chain to the shared port. */
  lemma {:induction false} BranchDemand(
      plan: Plan, net: Network, limits: Limits, port: nat, lo: nat, chain: Chain, i: nat)
    requires Sound(plan, net) && IsBranch(plan, port, lo, chain) && 1 <= i <= |chain| && IsStem(plan, port)
    requires ValidLimits(plan, limits) && (forall k :: 0 <= k < |plan| ==> limits.bursts[k] == 1)
    requires !net[lo + i].closed && forall c :: 0 <= c < |plan| && Reads(plan, c, lo + i) ==> !Pending(plan, net, c)
    ensures var d := Demanded(plan, net, limits, None, lo + i);
            && (d.Work? || d.Full?)
            && (d.Full? ==> d.port == port)
            && (d.Work? && d.node > port ==> lo < d.node <= lo + i && Drained(plan, net, d.node + 1, lo + i))
            && (d.Full? || d.node <= port ==> Drained(plan, net, lo + 1, lo + i) && !net[port].closed)
    decreases i
  {
    var j := lo + i;
    BranchInput(plan, port, lo, chain, i);
    forall c | 0 <= c < |plan| && Reads(plan, c, j)
      ensures Lag(plan, net, c) + limits.bursts[j] <= limits.capacities[j]
    {
      assert !Pending(plan, net, c);
    }
    if !Pending(plan, net, j) && !net[plan[j].input].closed {
      if i > 1 {
        forall c | 0 <= c < |plan| && Reads(plan, c, j - 1) ensures !Pending(plan, net, c) { assert c == j; }
        BranchDemand(plan, net, limits, port, lo, chain, i - 1);
      } else if Room(plan, net, port, 1, limits.capacities[port]) {
        StemDemand(plan, net, limits, port, port);
      }
    }
  }

  // --------------------------------------------------------------- the run

  ghost predicate Good(s: Setting, net: Network) {
    s.Valid() && Sound(DiamondPlan(s), net) && !net[s.X()].closed && !net[s.Y()].closed
  }

  /** The merge has an unread item on this input. */
  ghost predicate Waits(s: Setting, net: Network, input: nat)
    requires Good(s, net) && (input == s.X() || input == s.Y())
  {
    PlanNode(s, input);
    Pending(DiamondPlan(s), net, input)
  }

  function Head(net: Network, port: nat, input: nat): Item
    requires port < |net| && input < |net| && net[input].used < |net[port].published|
  {
    net[port].published[net[input].used]
  }

  lemma MergeReads(s: Setting, net: Network)
    requires Good(s, net)
    ensures |net| == |DiamondPlan(s)| == s.Y() + 1
    ensures Waits(s, net, s.X()) <==> net[s.X()].used < |net[s.M()].published|
    ensures Waits(s, net, s.Y()) <==> net[s.Y()].used < |net[s.A()].published|
    ensures net[s.X()].used <= |net[s.M()].published| && net[s.Y()].used <= |net[s.A()].published|
  {
    PlanNode(s, s.X());
    PlanNode(s, s.Y());
    assert NodeSound(DiamondPlan(s), net, s.X()) && NodeSound(DiamondPlan(s), net, s.Y());
  }

  /** _advance_port on the port of a branch: one unit of work, or it is refused. */
  ghost function Pull(s: Setting, st: State, port: nat): State
    requires Good(s, st.net) && port <= s.A()
  {
    PlanIsWellFormed(s);
    MergeRuns.Pull(DiamondPlan(s), DiamondLimits(s), st, port)
  }

  /** The merge takes the heads of both inputs. */
  ghost function TakeBoth(s: Setting, net: Network): Network
    requires Good(s, net) && Waits(s, net, s.X()) && Waits(s, net, s.Y())
  {
    var plan := DiamondPlan(s);
    FireIsSound(plan, net, s.X());
    TakeOne(s, net);
    Fire(plan, Fire(plan, net, s.X()), s.Y())
  }

  lemma TakeOne(s: Setting, net: Network)
    requires Good(s, net) && Waits(s, net, s.X()) && Waits(s, net, s.Y())
    ensures Enabled(DiamondPlan(s), net, s.X()) && Good(s, Fire(DiamondPlan(s), net, s.X()))
    ensures Enabled(DiamondPlan(s), Fire(DiamondPlan(s), net, s.X()), s.Y())
  {
    PlanNode(s, s.X());
    PlanNode(s, s.Y());
    FireIsSound(DiamondPlan(s), net, s.X());
    FireDoesWork(DiamondPlan(s), net, s.X());
  }

  /** What the auxiliary port has announced. */
  ghost function AuxFrontier(s: Setting, net: Network): Option<real>
    requires Good(s, net)
  {
    PortFrontier(DiamondPlan(s), net, s.A())
  }

  /** One _advance_port on the merge: _advance_map for two exact inputs without gaps. */
  ghost function MergeStep(s: Setting, st: State): State
    requires Good(s, st.net)
  {
    MergeReads(s, st.net);
    var net := st.net;
    if !Waits(s, net, s.X()) then
      if net[s.M()].closed then st.(status := Joined) else Pull(s, st, s.M())
    else
      var main := Head(net, s.M(), s.X());
      if !Waits(s, net, s.Y()) then
        var frontier := AuxFrontier(s, net);
        if net[s.A()].closed || (frontier.Some? && frontier.value > main.start) then st.(status := Stalled)
        else Pull(s, st, s.A())
      else
        var aux := Head(net, s.A(), s.Y());
        if SameInterval(aux, main) then st.(net := TakeBoth(s, net), output := st.output + [(main, aux)])
        else if aux.start < main.start then st.(net := Fire(DiamondPlan(s), net, s.Y()))
        else st.(status := Stalled)
  }

  // ------------------------------------------------------------- invariants

  /** How far the branches have read the shared port when t pairs are put together:
      neither beyond what the next pair needs, and the auxiliary branch not beyond the
      last pair before the primary one has its item. */
  ghost predicate Counts(s: Setting, net: Network, t: nat)
    requires Good(s, net)
  {
    PlanNode(s, s.Y());
    var main, aux := net[s.P() + 1].used, net[s.M() + 1].used;
    && main <= Needed(s.main, t) && aux <= Needed(s.main, t)
    && (main < Needed(s.main, t) ==> aux == Base(s.main, t))
    && |net[s.P()].published| - aux <= s.capacity
  }

  /** Pair i consists of item i of either chain, and their intervals are equal. */
  ghost predicate Paired(s: Setting, output: seq<(Item, Item)>)
    requires s.Valid()
  {
    PlanIsWellFormed(s);
    var main, aux := Denotation(DiamondPlan(s), s.M()), Denotation(DiamondPlan(s), s.A());
    && |output| <= |main| && |output| <= |aux|
    && forall i :: 0 <= i < |output| ==>
        output[i] == (main[i], aux[i]) && aux[i].start == main[i].start && aux[i].end == main[i].end
  }

  ghost predicate Inv(s: Setting, st: State) {
    && Good(s, st.net) && st.net[s.X()].used == st.net[s.Y()].used == |st.output|
    && Counts(s, st.net, |st.output|) && Paired(s, st.output)
  }

  lemma AllOnGrid(s: Setting)
    requires s.Valid()
    ensures WellFormed(DiamondPlan(s)) && GridPlan(DiamondPlan(s))
  {
    PlanIsWellFormed(s);
    forall k | 0 <= k < |DiamondPlan(s)|
      ensures PortOnGrid(DiamondPlan(s), k) && NoGaps(Denotation(DiamondPlan(s), k))
    {
      PortsOnGrid(s, k);
    }
  }

  /** What a branch that has published `out` items has read. */
  ghost predicate CountsFor(chain: Chain, read: nat, out: nat, drained: bool, t: nat)
    requires ValidChain(chain)
  {
    && (t < out ==> read >= Needed(chain, t)) && (t <= out ==> read >= Base(chain, t))
    && (t == out && drained ==> read < Needed(chain, t))
  }

  lemma SameCounts(s: Setting, read: nat, out: nat, drained: bool, t: nat)
    requires s.Valid() && CountsFor(s.aux, read, out, drained, t)
    ensures CountsFor(s.main, read, out, drained, t)
  {
    NeededSame(s.main, s.aux, t);
    if t > 0 { NeededSame(s.main, s.aux, t - 1); }
  }

  /** What a branch has read, from what it has published. */
  lemma BranchReads(plan: Plan, net: Network, port: nat, lo: nat, chain: Chain, t: nat)
    requires Sound(plan, net) && GridPlan(plan) && IsBranch(plan, port, lo, chain) && |chain| > 0
    ensures CountsFor(chain, net[lo + 1].used, |net[lo + |chain|].published|,
                      Drained(plan, net, lo + 2, lo + |chain|), t)
  {
    BranchCount(plan, net, port, lo, chain, |chain|);
    assert chain[..|chain|] == chain;
    ChainNeeds(chain, net[lo + 1].used, t);
    if t > 0 { ChainNeeds(chain, net[lo + 1].used, t - 1); }
  }

  lemma MainCounts(s: Setting, net: Network, t: nat)
    requires Good(s, net) && net[s.X()].used == t
    ensures Waits(s, net, s.X()) ==> net[s.P() + 1].used >= Needed(s.main, t)
    ensures !Waits(s, net, s.X()) && Drained(DiamondPlan(s), net, s.P() + 2, s.M()) ==>
            net[s.P() + 1].used < Needed(s.main, t)
    ensures net[s.P() + 1].used >= Base(s.main, t)
  {
    MergeReads(s, net);
    MainReads(s, net, t);
  }

  lemma MainReads(s: Setting, net: Network, t: nat)
    requires Good(s, net)
    ensures s.P() + 1 < |net| && s.M() < |net|
    ensures CountsFor(s.main, net[s.P() + 1].used, |net[s.M()].published|,
                      Drained(DiamondPlan(s), net, s.P() + 2, s.M()), t)
  {
    AllOnGrid(s);
    Branches(s);
    BranchReads(DiamondPlan(s), net, s.P(), s.P(), s.main, t);
  }

  lemma AuxCounts(s: Setting, net: Network, t: nat)
    requires Good(s, net) && net[s.Y()].used == t
    ensures Waits(s, net, s.Y()) ==> net[s.M() + 1].used >= Needed(s.main, t)
    ensures !Waits(s, net, s.Y()) && Drained(DiamondPlan(s), net, s.M() + 2, s.A()) ==>
            net[s.M() + 1].used < Needed(s.main, t)
    ensures net[s.M() + 1].used >= Base(s.main, t)
  {
    MergeReads(s, net);
    AuxReads(s, net, t);
  }

  lemma AuxReads(s: Setting, net: Network, t: nat)
    requires Good(s, net)
    ensures s.M() + 1 < |net| && s.A() < |net|
    ensures CountsFor(s.main, net[s.M() + 1].used, |net[s.A()].published|,
                      Drained(DiamondPlan(s), net, s.M() + 2, s.A()), t)
  {
    AllOnGrid(s);
    Branches(s);
    BranchReads(DiamondPlan(s), net, s.P(), s.M(), s.aux, t);
    SameCounts(s, net[s.M() + 1].used, |net[s.A()].published|, Drained(DiamondPlan(s), net, s.M() + 2, s.A()), t);
  }

  // -------------------------------------------------------- one step of a branch

  lemma FireReads(plan: Plan, net: Network, i: nat)
    requires Sound(plan, net) && i < |plan| && Enabled(plan, net, i)
    ensures var next := Fire(plan, net, i);
            && Sound(plan, next)
            && (forall j :: 0 <= j < |plan| && j != i ==> next[j] == net[j])
            && next[i].used == net[i].used + (if Pending(plan, net, i) then 1 else 0)
  {
    FireIsSound(plan, net, i);
    FireDoesWork(plan, net, i);
  }

  /** The shared port grows by one item at most. */
  lemma SharedGrows(s: Setting, net: Network, n: nat)
    requires Good(s, net) && n <= s.P() && Enabled(DiamondPlan(s), net, n)
    ensures s.P() < |net| == |Fire(DiamondPlan(s), net, n)|
    ensures |Fire(DiamondPlan(s), net, n)[s.P()].published| <= |net[s.P()].published| + if n == s.P() then 1 else 0
  {
    var plan := DiamondPlan(s);
    PlanNode(s, s.Y());
    FireReads(plan, net, n);
    BurstsOfOne(s);
    if !plan[n].Source? {
      StateFits(plan, net, n);
      if Pending(plan, net, n) { BurstHolds(plan, DiamondLimits(s), net, n); }
    }
  }

  /** What both branches read of the shared port. */
  lemma SharedReads(s: Setting, net: Network)
    requires Good(s, net)
    ensures |net| == |DiamondPlan(s)| == s.Y() + 1 && s.P() + 1 < s.M() + 1 <= s.A()
    ensures Pending(DiamondPlan(s), net, s.P() + 1) <==> net[s.P() + 1].used < |net[s.P()].published|
    ensures Pending(DiamondPlan(s), net, s.M() + 1) <==> net[s.M() + 1].used < |net[s.P()].published|
    ensures net[s.P() + 1].used <= |net[s.P()].published| && net[s.M() + 1].used <= |net[s.P()].published|
  {
    ReadsShared(s, net, s.P() + 1);
    ReadsShared(s, net, s.M() + 1);
  }

  lemma ReadsShared(s: Setting, net: Network, c: nat)
    requires Good(s, net) && (c == s.P() + 1 || c == s.M() + 1)
    ensures |net| == |DiamondPlan(s)| == s.Y() + 1 && !DiamondPlan(s)[c].Source? && DiamondPlan(s)[c].input == s.P()
    ensures Pending(DiamondPlan(s), net, c) <==> net[c].used < |net[s.P()].published|
    ensures net[c].used <= |net[s.P()].published|
  {
    PlanNode(s, c);
    assert NodeSound(DiamondPlan(s), net, c);
  }

  /** The shared port has room unless the auxiliary branch lags by the capacity. */
  lemma SharedRoom(s: Setting, net: Network)
    requires Good(s, net)
    ensures Room(DiamondPlan(s), net, s.P(), 1, s.capacity) <==>
            (|net[s.P()].published| - net[s.P() + 1].used + 1 <= s.capacity &&
              |net[s.P()].published| - net[s.M() + 1].used + 1 <= s.capacity)
  {
    var plan := DiamondPlan(s);
    SharedReads(s, net);
    WhoReads(s, s.P() + 1, s.P());
    WhoReads(s, s.M() + 1, s.P());
    forall c | 0 <= c < |plan| && Reads(plan, c, s.P()) ensures c == s.P() + 1 || c == s.M() + 1 {
      WhoReads(s, c, s.P());
    }
  }

  /** The demand of the merge on its primary branch. */
  lemma MainDemand(s: Setting, net: Network) returns (d: Demand)
    requires Good(s, net) && !Waits(s, net, s.X()) && !net[s.M()].closed
    ensures WellFormed(DiamondPlan(s)) && ValidLimits(DiamondPlan(s), DiamondLimits(s))
    ensures d == Demanded(DiamondPlan(s), net, DiamondLimits(s), None, s.M())
    ensures d.Work? || (d.Full? && d.port == s.P())
    ensures d.Work? && d.node > s.P() ==> d.node <= s.M() && Drained(DiamondPlan(s), net, d.node + 1, s.M())
    ensures d.Full? || d.node <= s.P() ==> Drained(DiamondPlan(s), net, s.P() + 1, s.M())
  {
    var plan := DiamondPlan(s);
    PlanIsWellFormed(s);
    Branches(s);
    MergeReads(s, net);
    forall c | 0 <= c < |plan| && Reads(plan, c, s.M()) ensures !Pending(plan, net, c) { WhoReads(s, c, s.M()); }
    BranchDemand(plan, net, DiamondLimits(s), s.P(), s.P(), s.main, |s.main|);
    d := Demanded(plan, net, DiamondLimits(s), None, s.M());
  }

  lemma AuxDemand(s: Setting, net: Network) returns (d: Demand)
    requires Good(s, net) && !Waits(s, net, s.Y()) && !net[s.A()].closed
    ensures WellFormed(DiamondPlan(s)) && ValidLimits(DiamondPlan(s), DiamondLimits(s))
    ensures d == Demanded(DiamondPlan(s), net, DiamondLimits(s), None, s.A())
    ensures d.Work? || (d.Full? && d.port == s.P())
    ensures d.Work? && d.node > s.P() ==> s.M() < d.node <= s.A() && Drained(DiamondPlan(s), net, d.node + 1, s.A())
    ensures d.Full? || d.node <= s.P() ==> Drained(DiamondPlan(s), net, s.M() + 1, s.A())
  {
    var plan := DiamondPlan(s);
    PlanIsWellFormed(s);
    Branches(s);
    MergeReads(s, net);
    forall c | 0 <= c < |plan| && Reads(plan, c, s.A()) ensures !Pending(plan, net, c) { WhoReads(s, c, s.A()); }
    BranchDemand(plan, net, DiamondLimits(s), s.P(), s.M(), s.aux, |s.aux|);
    d := Demanded(plan, net, DiamondLimits(s), None, s.A());
  }

  lemma GoodStays(s: Setting, net: Network, i: nat)
    requires Good(s, net) && i <= s.A() && Enabled(DiamondPlan(s), net, i)
    ensures Good(s, Fire(DiamondPlan(s), net, i))
  {
    FireReads(DiamondPlan(s), net, i);
  }

  /** What one unit of work up to the merge moves. */
  lemma FiredUpTo(s: Setting, net: Network, n: nat)
    requires Good(s, net) && n <= s.A() && Enabled(DiamondPlan(s), net, n)
    ensures var next := Fire(DiamondPlan(s), net, n);
            && Good(s, next) && |next| == |net| == s.Y() + 1
            && next[s.X()] == net[s.X()] && next[s.Y()] == net[s.Y()]
            && (n != s.P() ==> next[s.P()] == net[s.P()])
            && next[s.P() + 1].used == Moved(s, net, n, s.P() + 1)
            && next[s.M() + 1].used == Moved(s, net, n, s.M() + 1)
  {
    FireReads(DiamondPlan(s), net, n);
    GoodStays(s, net, n);
  }

  /** The read position of node j when node n works. */
  ghost function Moved(s: Setting, net: Network, n: nat, j: nat): nat
    requires Good(s, net) && j <= s.A() && |net| == s.Y() + 1
  {
    PlanNode(s, j);
    net[j].used + if n == j && Pending(DiamondPlan(s), net, j) then 1 else 0
  }

  /** The counts after one unit of work somewhere up to the merge. */
  lemma CountsAfter(s: Setting, net: Network, next: Network, t: nat)
    requires Good(s, net) && Good(s, next) && Counts(s, net, t)
    requires |net| == |next| == s.Y() + 1
    requires next[s.P() + 1].used >= net[s.P() + 1].used && next[s.M() + 1].used >= net[s.M() + 1].used
    requires next[s.P() + 1].used <= Needed(s.main, t) && next[s.M() + 1].used <= Needed(s.main, t)
    requires next[s.M() + 1].used > net[s.M() + 1].used ==> net[s.P() + 1].used >= Needed(s.main, t)
    requires |next[s.P()].published| - next[s.M() + 1].used <= s.capacity
    ensures Counts(s, next, t)
  {
  }

  /** A step of the primary branch, demanded by a merge that has put t pairs together. */
  lemma MainStep(s: Setting, net: Network, t: nat, n: nat)
    requires Good(s, net) && Counts(s, net, t) && net[s.X()].used == net[s.Y()].used == t && !Waits(s, net, s.X())
    requires n <= s.M() && Enabled(DiamondPlan(s), net, n)
    requires n == s.P() ==> Room(DiamondPlan(s), net, s.P(), 1, s.capacity)
    requires n > s.P() ==> Drained(DiamondPlan(s), net, n + 1, s.M())
    ensures Good(s, Fire(DiamondPlan(s), net, n)) && Counts(s, Fire(DiamondPlan(s), net, n), t)
    ensures Fire(DiamondPlan(s), net, n)[s.X()] == net[s.X()] && Fire(DiamondPlan(s), net, n)[s.Y()] == net[s.Y()]
  {
    FiredUpTo(s, net, n);
    SharedReads(s, net);
    MainCounts(s, net, t);
    if n <= s.P() { SharedGrows(s, net, n); }
    if n == s.P() { SharedRoom(s, net); }
    CountsAfter(s, net, Fire(DiamondPlan(s), net, n), t);
  }

  lemma AuxStep(s: Setting, net: Network, t: nat, n: nat)
    requires Good(s, net) && Counts(s, net, t) && net[s.X()].used == net[s.Y()].used == t
    requires Waits(s, net, s.X()) && !Waits(s, net, s.Y())
    requires s.M() < n <= s.A() && Enabled(DiamondPlan(s), net, n) && Drained(DiamondPlan(s), net, n + 1, s.A())
    ensures Good(s, Fire(DiamondPlan(s), net, n)) && Counts(s, Fire(DiamondPlan(s), net, n), t)
    ensures Fire(DiamondPlan(s), net, n)[s.X()] == net[s.X()] && Fire(DiamondPlan(s), net, n)[s.Y()] == net[s.Y()]
  {
    FiredUpTo(s, net, n);
    SharedReads(s, net);
    MainCounts(s, net, t);
    AuxCounts(s, net, t);
    CountsAfter(s, net, Fire(DiamondPlan(s), net, n), t);
  }

  /** The capacity of the shared buffer holds what this run asks of it. */
  ghost predicate Suffices(s: Setting)
    requires s.Valid()
  {
    Holds(s.capacity, s.main, |Shared(s)|)
  }

  /** When the primary branch has read everything, a sufficient buffer has room for the
      next item. */
  lemma MainHasRoom(s: Setting, net: Network, t: nat)
    requires Good(s, net) && Counts(s, net, t) && net[s.X()].used == net[s.Y()].used == t && !Waits(s, net, s.X())
    requires Drained(DiamondPlan(s), net, s.P() + 1, s.M()) && Suffices(s)
    ensures Room(DiamondPlan(s), net, s.P(), 1, s.capacity)
  {
    MainCounts(s, net, t);
    SharedReads(s, net);
    SharedRoom(s, net);
    NeededRises(s.main, t);
    SharedIs(s);
    Determinate(DiamondPlan(s), net, s.P());
    RoomForOne(s.capacity, s.main, |Shared(s)|, t, |net[s.P()].published|);
  }

  /** For a primary item that waits, all that the auxiliary branch needs is published. */
  lemma AuxIsServed(s: Setting, net: Network, t: nat)
    requires Good(s, net) && Counts(s, net, t) && net[s.X()].used == net[s.Y()].used == t
    requires Waits(s, net, s.X()) && !Waits(s, net, s.Y())
    ensures !Drained(DiamondPlan(s), net, s.M() + 1, s.A())
  {
    SharedReads(s, net);
    MainCounts(s, net, t);
    AuxCounts(s, net, t);
  }

  /** Pulling the primary branch keeps the invariant, and with a sufficient buffer it
      is never refused. */
  lemma MainPull(s: Setting, st: State)
    requires Inv(s, st) && st.status == Running && !Waits(s, st.net, s.X()) && !st.net[s.M()].closed
    ensures Inv(s, Pull(s, st, s.M())) && Pull(s, st, s.M()).output == st.output
    ensures Suffices(s) ==> Pull(s, st, s.M()).status == Running
  {
    var d := MainDemand(s, st.net);
    if d.Work? {
      MainStep(s, st.net, |st.output|, d.node);
    } else if Suffices(s) {
      MainHasRoom(s, st.net, |st.output|);
    }
  }

  /** Pulling the auxiliary branch is never refused. */
  lemma AuxPull(s: Setting, st: State)
    requires Inv(s, st) && st.status == Running && !st.net[s.A()].closed
    requires Waits(s, st.net, s.X()) && !Waits(s, st.net, s.Y())
    ensures Inv(s, Pull(s, st, s.A())) && Pull(s, st, s.A()).status == Running && Pull(s, st, s.A()).output == st.output
  {
    var d := AuxDemand(s, st.net);
    AuxIsServed(s, st.net, |st.output|);
    AuxStep(s, st.net, |st.output|, d.node);
  }

  // ----------------------------------------------------------- the merge itself

  /** Both chains carry equally many items. */
  lemma BothCounts(s: Setting)
    requires s.Valid()
    ensures WellFormed(DiamondPlan(s)) && s.A() < |DiamondPlan(s)|
    ensures |Denotation(DiamondPlan(s), s.M())| == ChainCount(s.main, |Shared(s)|)
    ensures |Denotation(DiamondPlan(s), s.A())| == ChainCount(s.main, |Shared(s)|)
  {
    AllOnGrid(s);
    Branches(s);
    SharedIs(s);
    DenotedCount(DiamondPlan(s), s.P(), s.P(), s.main, |s.main|);
    DenotedCount(DiamondPlan(s), s.P(), s.M(), s.aux, |s.aux|);
    assert s.main[..|s.main|] == s.main && s.aux[..|s.aux|] == s.aux;
    SameCount(s.main, s.aux, |Shared(s)|);
  }

  /** Item k of either chain's stream has the same interval. */
  lemma SameGrid(s: Setting, k: nat)
    requires s.Valid()
    ensures WellFormed(DiamondPlan(s))
    ensures var main, aux := Denotation(DiamondPlan(s), s.M()), Denotation(DiamondPlan(s), s.A());
            |main| == |aux| == ChainCount(s.main, |Shared(s)|) && (k < |main| ==> SameInterval(aux[k], main[k]))
  {
    BothCounts(s);
    PortsOnGrid(s, s.M());
    PortsOnGrid(s, s.A());
    EqualSignatures(s);
  }

  lemma SameCount(main: Chain, aux: Chain, n: nat)
    requires ValidChain(main) && ValidChain(aux) && Stride(main) == Stride(aux) && Span(main) == Span(aux)
    ensures ChainCount(main, n) == ChainCount(aux, n)
  {
    var a, b := ChainCount(main, n), ChainCount(aux, n);
    ChainNeeds(main, n, a);
    ChainNeeds(aux, n, a);
    ChainNeeds(main, n, b);
    ChainNeeds(aux, n, b);
    NeededSame(main, aux, a);
    NeededSame(main, aux, b);
  }

  /** What waits at the merge is item t of the stream. */
  lemma HeadIs(s: Setting, net: Network, port: nat, input: nat)
    requires Good(s, net) && ((input == s.X() && port == s.M()) || (input == s.Y() && port == s.A())) &&
             Waits(s, net, input)
    ensures WellFormed(DiamondPlan(s)) && port < |net| && net[input].used < |net[port].published|
    ensures net[input].used < |Denotation(DiamondPlan(s), port)|
    ensures Head(net, port, input) == Denotation(DiamondPlan(s), port)[net[input].used]
  {
    MergeReads(s, net);
    Determinate(DiamondPlan(s), net, port);
  }

  lemma PairedMore(s: Setting, output: seq<(Item, Item)>)
    requires s.Valid() && Paired(s, output) && WellFormed(DiamondPlan(s))
    requires s.A() < |DiamondPlan(s)| && |output| < |Denotation(DiamondPlan(s), s.M())|
    ensures |output| < |Denotation(DiamondPlan(s), s.A())|
    ensures var main, aux := Denotation(DiamondPlan(s), s.M())[|output|], Denotation(DiamondPlan(s), s.A())[|output|];
            SameInterval(aux, main) && Paired(s, output + [(main, aux)])
  {
    SameGrid(s, |output|);
  }

  /** Two waiting heads always match. */
  lemma HeadsMatch(s: Setting, st: State)
    requires Inv(s, st) && Waits(s, st.net, s.X()) && Waits(s, st.net, s.Y())
    ensures st.net[s.X()].used < |st.net[s.M()].published| && st.net[s.Y()].used < |st.net[s.A()].published|
    ensures var main, aux := Head(st.net, s.M(), s.X()), Head(st.net, s.A(), s.Y());
            SameInterval(aux, main) && Paired(s, st.output + [(main, aux)])
  {
    HeadIs(s, st.net, s.M(), s.X());
    HeadIs(s, st.net, s.A(), s.Y());
    PairedMore(s, st.output);
  }

  lemma BothTaken(s: Setting, net: Network)
    requires Good(s, net) && Waits(s, net, s.X()) && Waits(s, net, s.Y())
    ensures var next := TakeBoth(s, net);
            && Good(s, next) && (forall j :: 0 <= j <= s.A() ==> next[j] == net[j])
            && next[s.X()].used == net[s.X()].used + 1 && next[s.Y()].used == net[s.Y()].used + 1
  {
    var plan := DiamondPlan(s);
    TakeOne(s, net);
    PlanNode(s, s.X());
    PlanNode(s, s.Y());
    FireReads(plan, net, s.X());
    FireReads(plan, Fire(plan, net, s.X()), s.Y());
  }

  /** With both heads taken the branches are where the next pair begins. */
  lemma TakenCounts(s: Setting, net: Network, next: Network, t: nat)
    requires Good(s, net) && Counts(s, net, t) && net[s.X()].used == net[s.Y()].used == t
    requires Waits(s, net, s.X()) && Waits(s, net, s.Y())
    requires Good(s, next) && forall j :: 0 <= j <= s.A() ==> next[j] == net[j]
    ensures Counts(s, next, t + 1)
  {
    MainCounts(s, net, t);
    AuxCounts(s, net, t);
    SharedReads(s, net);
    NeededRises(s.main, t + 1);
  }

  lemma MatchStep(s: Setting, st: State)
    requires Inv(s, st) && st.status == Running && Waits(s, st.net, s.X()) && Waits(s, st.net, s.Y())
    ensures MergeStep(s, st).net == TakeBoth(s, st.net) && MergeStep(s, st).status == Running
    ensures Inv(s, MergeStep(s, st)) && |MergeStep(s, st).output| == |st.output| + 1
  {
    HeadsMatch(s, st);
    BothTaken(s, st.net);
    TakenCounts(s, st.net, TakeBoth(s, st.net), |st.output|);
  }

  /** Every step of the merge keeps the invariant; with a sufficient buffer nothing is ever
      refused. */
  lemma StepKeeps(s: Setting, st: State)
    requires Inv(s, st) && st.status == Running
    ensures Inv(s, MergeStep(s, st))
    ensures Suffices(s) ==> MergeStep(s, st).status != Refused
  {
    MergeReads(s, st.net);
    if !Waits(s, st.net, s.X()) {
      if !st.net[s.M()].closed { MainPull(s, st); }
    } else if Waits(s, st.net, s.Y()) {
      MatchStep(s, st);
    } else if !st.net[s.A()].closed {
      AuxPull(s, st);
    }
  }

  lemma StartKeeps(s: Setting)
    requires s.Valid()
    ensures WellFormed(DiamondPlan(s)) && Inv(s, Beginning(s))
  {
    PlanIsWellFormed(s);
    StartIsSound(DiamondPlan(s));
    PlanNode(s, s.Y());
    NeededRises(s.main, 0);
  }

  /** One more turn; a merge that has stopped has no more turns. */
  ghost function Next(s: Setting, st: State): State {
    if st.status != Running || !Good(s, st.net) then st else MergeStep(s, st)
  }

  function Iterate<T>(step: T -> T, start: T, n: nat): T {
    if n == 0 then start else step(Iterate(step, start, n - 1))
  }

  lemma {:induction false} Invariant<T(!new)>(step: T -> T, holds: T -> bool, start: T, n: nat)
    requires holds(start) && forall x :: holds(x) ==> holds(step(x))
    ensures holds(Iterate(step, start, n))
  {
    if n > 0 { Invariant(step, holds, start, n - 1); }
  }

  ghost function Stepping(s: Setting): State -> State { st => Next(s, st) }

  ghost function Beginning(s: Setting): State { State(Start(DiamondPlan(s)), [], Running) }

  /** The state after n turns of the merge. */
  ghost function Turns(s: Setting, n: nat): State { Iterate(Stepping(s), Beginning(s), n) }

  lemma NextKeeps(s: Setting, st: State)
    requires Inv(s, st)
    ensures Inv(s, Next(s, st))
    ensures Suffices(s) && st.status != Refused ==> Next(s, st).status != Refused
  {
    if st.status == Running { StepKeeps(s, st); }
  }

  lemma TurnsKeep(s: Setting, n: nat)
    requires s.Valid()
    ensures Inv(s, Turns(s, n))
  {
    var holds: State -> bool := st => Inv(s, st);
    forall st: State | holds(st) ensures holds(Stepping(s)(st)) { NextKeeps(s, st); }
    StartKeeps(s);
    Invariant(Stepping(s), holds, Beginning(s), n);
  }

  /** With a sufficient buffer no demand is ever refused. */
  lemma NeverRefused(s: Setting, n: nat)
    requires s.Valid() && Suffices(s)
    ensures Turns(s, n).status != Refused
  {
    var holds: State -> bool := st => Inv(s, st) && st.status != Refused;
    forall st: State | holds(st) ensures holds(Stepping(s)(st)) { NextKeeps(s, st); }
    StartKeeps(s);
    Invariant(Stepping(s), holds, Beginning(s), n);
  }

  // -------------------------------------------------------------- the end

  ghost function WorkLeft(s: Setting, net: Network): int
    requires Good(s, net)
  {
    Remaining(DiamondPlan(s), net)
  }

  lemma PullWorks(s: Setting, st: State, port: nat)
    requires Good(s, st.net) && port <= s.A()
    ensures Pull(s, st, port).status == Refused ||
            (Sound(DiamondPlan(s), Pull(s, st, port).net) &&
              Remaining(DiamondPlan(s), Pull(s, st, port).net) < WorkLeft(s, st.net))
  {
    PlanIsWellFormed(s);
    var plan := DiamondPlan(s);
    var d := Demanded(plan, st.net, DiamondLimits(s), None, port);
    if d.Work? {
      FireIsSound(plan, st.net, d.node);
      FireIsOne(plan, st.net, d.node);
    }
  }

  lemma TakingWorks(s: Setting, net: Network)
    requires Good(s, net) && Waits(s, net, s.X()) && Waits(s, net, s.Y())
    ensures Sound(DiamondPlan(s), TakeBoth(s, net)) && Remaining(DiamondPlan(s), TakeBoth(s, net)) < WorkLeft(s, net)
  {
    var plan := DiamondPlan(s);
    TakeOne(s, net);
    FireIsOne(plan, net, s.X());
    FireIsOne(plan, Fire(plan, net, s.X()), s.Y());
    FireIsSound(plan, Fire(plan, net, s.X()), s.Y());
  }

  /** Every turn stops the merge or does some of the work that is left. */
  lemma StepWorks(s: Setting, st: State)
    requires Inv(s, st) && st.status == Running
    ensures Inv(s, MergeStep(s, st))
    ensures MergeStep(s, st).status == Running ==> WorkLeft(s, MergeStep(s, st).net) < WorkLeft(s, st.net)
  {
    StepKeeps(s, st);
    MergeReads(s, st.net);
    if !Waits(s, st.net, s.X()) {
      PullWorks(s, st, s.M());
    } else if Waits(s, st.net, s.Y()) {
      MatchStep(s, st);
      TakingWorks(s, st.net);
    } else {
      PullWorks(s, st, s.A());
    }
  }

  /** One more turn, in numbers. */
  lemma TurnWorks(s: Setting, k: nat, left: int) returns (less: int)
    requires s.Valid() && Good(s, Turns(s, k).net) && Turns(s, k).status == Running &&
             left == WorkLeft(s, Turns(s, k).net)
    ensures Good(s, Turns(s, k + 1).net)
    ensures Turns(s, k + 1).status == Running ==> less == WorkLeft(s, Turns(s, k + 1).net) && less < left
    ensures left >= 0
  {
    var st := Turns(s, k);
    TurnsKeep(s, k);
    StepWorks(s, st);
    WorkIsNatural(s, st);
    var next := MergeStep(s, st);
    assert Turns(s, k + 1) == next;
    less := WorkLeft(s, next.net);
  }

  lemma {:induction false} EndsFrom(s: Setting, k: nat, left: int) returns (n: nat)
    requires s.Valid() && Good(s, Turns(s, k).net)
    requires Turns(s, k).status == Running ==> left == WorkLeft(s, Turns(s, k).net)
    ensures Turns(s, n).status != Running
    decreases left
  {
    n := k;
    if Turns(s, k).status == Running {
      var less := TurnWorks(s, k, left);
      if Turns(s, k + 1).status == Running { n := EndsFrom(s, k + 1, less); } else { n := k + 1; }
    }
  }

  lemma WorkIsNatural(s: Setting, st: State)
    requires Inv(s, st)
    ensures WorkLeft(s, st.net) >= 0
  {
    RemainingIsNatural(DiamondPlan(s), st.net);
  }

  /** The run ends. */
  lemma Ends(s: Setting) returns (n: nat)
    requires s.Valid()
    ensures Turns(s, n).status != Running
  {
    TurnsKeep(s, 0);
    n := EndsFrom(s, 0, WorkLeft(s, Turns(s, 0).net));
  }

  // ------------------------------------------------------ where it can stop

  /** The links before the last auxiliary one, and the signature of what that reads. */
  function Front(s: Setting): Chain
    requires s.Valid()
  {
    s.aux[..|s.aux| - 1]
  }

  function LastLink(s: Setting): Link
    requires s.Valid()
  {
    s.aux[|s.aux| - 1]
  }

  function FrontSignature(s: Setting): Signature
    requires s.Valid()
  {
    ValidFront(s);
    Behind(SharedSignature(s), Front(s))
  }

  /** The frontier that the auxiliary branch announces can be relied on: its last node is a
      FRAME with overlapping windows, or reads intervals without overlap. */
  predicate Smooth(s: Setting)
    requires s.Valid()
  {
    LastLink(s).Hop() < LastLink(s).Size() || FrontSignature(s).length <= FrontSignature(s).step
  }

  lemma ValidFront(s: Setting)
    requires s.Valid()
    ensures ValidChain(Front(s)) && LastLink(s).Valid()
  {
  }

  lemma NothingInFront(s: Setting)
    requires s.Valid() && |s.aux| == 1
    ensures FrontSignature(s) == SharedSignature(s)
  {
    assert Front(s) == [];
  }

  lemma FrontSignatureIs(s: Setting, input: nat)
    requires s.Valid() && WellFormed(DiamondPlan(s)) && input < |DiamondPlan(s)|
    requires input == if |s.aux| > 1 then s.A() - 1 else s.P()
    ensures TimeSignature(DiamondPlan(s), input) == FrontSignature(s)
  {
    ValidFront(s);
    if |s.aux| > 1 {
      AuxSignature(s, |s.aux| - 1);
    } else {
      SharedIs(s);
      NothingInFront(s);
    }
  }

  lemma LastNode(s: Setting) returns (input: nat)
    requires s.Valid()
    ensures WellFormed(DiamondPlan(s)) && input < s.A() && IsLink(DiamondPlan(s), s.A(), LastLink(s))
    ensures DiamondPlan(s)[s.A()].input == input
    ensures OnGrid(Denotation(DiamondPlan(s), input), FrontSignature(s))
    ensures FrontSignature(s).length > 0.0 && FrontSignature(s).step > 0.0
  {
    PlanIsWellFormed(s);
    PlanNode(s, s.A());
    input := if |s.aux| > 1 then s.A() - 1 else s.P();
    var link := LinkAt(s, s.A());
    PortsOnGrid(s, input);
    PositiveSignature(DiamondPlan(s), input);
    FrontSignatureIs(s, input);
  }

  lemma GridIsStepped(items: seq<Item>, signature: Signature)
    requires OnGrid(items, signature) && signature.length > 0.0 && signature.step > 0.0
    ensures NoGaps(items) && Stepped(items) && (signature.length <= signature.step ==> Spaced(items))
  {
    forall i: nat, j: nat | i < j < |items|
      ensures items[i].start < items[j].start && (signature.length <= signature.step ==> items[i].end <= items[j].start)
    {
      PointBefore(0.0, signature.step, i, j);
    }
  }

  lemma SmoothSuits(s: Setting, input: nat)
    requires s.Valid() && Smooth(s) && FrontSignature(s).length > 0.0 && FrontSignature(s).step > 0.0
    requires WellFormed(DiamondPlan(s)) && input < s.A() && IsLink(DiamondPlan(s), s.A(), LastLink(s))
    requires DiamondPlan(s)[s.A()].input == input
    requires OnGrid(Denotation(DiamondPlan(s), input), FrontSignature(s))
    ensures Suits(DiamondPlan(s)[s.A()], Denotation(DiamondPlan(s), input))
  {
    var whole := Denotation(DiamondPlan(s), input);
    GridIsStepped(whole, FrontSignature(s));
    OrderSuits(DiamondPlan(s)[s.A()], whole);
  }

  lemma RawIsCausal(node: Node)
    requires node.Map? ==> OneRawOutput(node.kernel)
    ensures Causal(node)
  {
    if node.Map? {
      forall items: seq<Item> | |items| > 0 ensures ValuesFrom(node.kernel(items), items[|items| - 1].start) { }
    }
  }

  /** What the frontier of the last link says about the item it still owes. */
  lemma OwedItem(s: Setting, net: Network, input: nat, t: nat)
    requires Good(s, net) && WellFormed(DiamondPlan(s)) && s.A() < |DiamondPlan(s)| && input < s.A()
    requires IsLink(DiamondPlan(s), s.A(), LastLink(s)) && DiamondPlan(s)[s.A()].input == input
    requires Suits(DiamondPlan(s)[s.A()], Denotation(DiamondPlan(s), input))
    requires |net[s.A()].published| == t < |Denotation(DiamondPlan(s), s.A())|
    ensures AuxFrontier(s, net).Some? ==> AuxFrontier(s, net).value <= Denotation(DiamondPlan(s), s.A())[t].start
  {
    var node, whole, used := DiamondPlan(s)[s.A()], Denotation(DiamondPlan(s), input), net[s.A()].used;
    AuxHasAnnounced(s, net, input);
    assert NodeSound(DiamondPlan(s), net, s.A());
    Determinate(DiamondPlan(s), net, input);
    assert net[input].published[..used] == whole[..used];
    RawIsCausal(node);
    if used > 0 { NodeKeepsItsPromise(node, whole, used, t, t); }
  }

  /** With a smooth auxiliary branch its frontier never passes the item it still owes. */
  lemma SmoothNeverStalls(s: Setting, st: State)
    requires Inv(s, st) && Smooth(s) && Waits(s, st.net, s.X()) && !Waits(s, st.net, s.Y())
    ensures st.net[s.X()].used < |st.net[s.M()].published|
    ensures AuxFrontier(s, st.net).Some? ==> AuxFrontier(s, st.net).value <= Head(st.net, s.M(), s.X()).start
  {
    var input := LastNode(s);
    MergeReads(s, st.net);
    HeadIs(s, st.net, s.M(), s.X());
    SameGrid(s, |st.output|);
    SmoothSuits(s, input);
    OwedItem(s, st.net, input, |st.output|);
  }

  /** The frontier speaks about the part of the input's stream that has been read. */
  lemma AuxHasAnnounced(s: Setting, net: Network, input: nat)
    requires Good(s, net) && s.A() < |DiamondPlan(s)| && !DiamondPlan(s)[s.A()].Source? &&
             DiamondPlan(s)[s.A()].input == input
    requires WellFormed(DiamondPlan(s)) && input < s.A()
    ensures var whole, used := Denotation(DiamondPlan(s), input), net[s.A()].used;
            used <= |whole| && AuxFrontier(s, net) == Frontier(DiamondPlan(s)[s.A()], whole[..used])
  {
    assert NodeSound(DiamondPlan(s), net, s.A());
    Determinate(DiamondPlan(s), net, input);
    assert net[input].published[..net[s.A()].used] == Denotation(DiamondPlan(s), input)[..net[s.A()].used];
  }

  /** A FRAME that has formed no frame yet promises the start of its first item. */
  lemma {:induction false} FirstWindow(node: Node, items: seq<Item>)
    requires node.Frame? && node.Valid() && NoGaps(items) && 0 < |items| < node.size
    ensures Frontier(node, items) == Some(items[0].start)
    decreases |items|
  {
    var before, last := items[..|items| - 1], items[|items| - 1];
    GapFreeFrames(node, before);
    assert FrameCount(|before|, node.size, node.hop) == 0 && before[0..] == before;
    if before != [] { FirstWindow(node, before); }
  }

  /** Before the first pair nothing stalls. */
  lemma FirstNeverStalls(s: Setting, st: State)
    requires Inv(s, st) && st.output == [] && Waits(s, st.net, s.X()) && !Waits(s, st.net, s.Y())
    ensures st.net[s.X()].used < |st.net[s.M()].published|
    ensures AuxFrontier(s, st.net).Some? ==> AuxFrontier(s, st.net).value <= Head(st.net, s.M(), s.X()).start
  {
    var input := LastNode(s);
    MergeReads(s, st.net);
    HeadIs(s, st.net, s.M(), s.X());
    PortsOnGrid(s, s.M());
    PortsOnGrid(s, input);
    AuxHasAnnounced(s, st.net, input);
    FewRead(s, st.net);
    var whole, used := Denotation(DiamondPlan(s), input), st.net[s.A()].used;
    if used > 0 {
      FirstPromise(DiamondPlan(s)[s.A()], whole, used, FrontSignature(s));
    }
  }

  lemma FirstPromise(node: Node, whole: seq<Item>, used: nat, signature: Signature)
    requires node.Frame? && node.Valid() && OnGrid(whole, signature) && 0 < used <= |whole| && used < node.size
    ensures Frontier(node, whole[..used]) == Some(0.0)
  {
    FirstWindow(node, whole[..used]);
    assert whole[..used][0] == whole[0] && whole[0].start == 0.0;
  }

  /** Without an item of its own the last auxiliary node has read less than one window. */
  lemma FewRead(s: Setting, net: Network)
    requires Good(s, net) && net[s.Y()].used == 0 && !Waits(s, net, s.Y())
    requires IsLink(DiamondPlan(s), s.A(), LastLink(s))
    ensures net[s.A()].used < LastLink(s).Size()
  {
    MergeReads(s, net);
    AllOnGrid(s);
    OwnCount(DiamondPlan(s), net, s.A(), LastLink(s));
    FrameCounted(net[s.A()].used, LastLink(s).Size(), LastLink(s).Hop(), 0);
  }

  /** With the last item of a hop a FRAME without overlap holds nothing any more. */
  lemma HopEnds(node: Node, items: seq<Item>)
    requires node.Frame? && node.Valid() && node.hop >= node.size && |items| >= node.hop && NoGaps(items)
    ensures var i := node.hop - 1; StepFrontier(node, Run(node, items[..i]).0, items[i]) == items[i].end
  {
    var i := node.hop - 1;
    var before := items[..i];
    GapFreeFrames(node, before);
    FrameCounted(i, node.size, node.hop, 0);
    FrameCounted(i, node.size, node.hop, 1);
    assert Offset(1, node.hop) == node.hop && before[0..] == before;
  }

  /** A link without overlap that has read a whole hop of overlapping items has announced
      an end behind the start of its second item. */
  lemma HopAnnounced(node: Node, link: Link, items: seq<Item>, signature: Signature)
    requires !node.Source? && node == NodeOf(node.input, link) && link.Valid() && node.Valid()
    requires link.Hop() >= link.Size() && |items| >= link.Hop() && OnGrid(items, signature)
    requires signature.length > signature.step
    ensures Frontier(node, items).Some? && Frontier(node, items).value > Point(0.0, signature.step, link.Hop())
  {
    var i := link.Hop() - 1;
    if link.Window? { HopEnds(node, items); }
    FrontierSoFar(node, items, i);
    assert items[i].end == Point(0.0, signature.step, i) + signature.length;
  }

  /** When the last auxiliary FRAME has read a whole hop, the second pair stalls. */
  lemma RoughStalls(s: Setting, st: State)
    requires Inv(s, st) && !Smooth(s) && |st.output| == 1
    requires Waits(s, st.net, s.X()) && !Waits(s, st.net, s.Y()) && st.net[s.A()].used >= LastLink(s).Hop()
    ensures st.net[s.X()].used < |st.net[s.M()].published|
    ensures AuxFrontier(s, st.net).Some? && AuxFrontier(s, st.net).value > Head(st.net, s.M(), s.X()).start
  {
    var plan, net := DiamondPlan(s), st.net;
    var input := LastNode(s);
    MergeReads(s, net);
    HeadIs(s, net, s.M(), s.X());
    AuxHasAnnounced(s, net, input);
    PrefixOnGrid(Denotation(plan, input), FrontSignature(s), net[s.A()].used);
    HopAnnounced(plan[s.A()], LastLink(s), Denotation(plan, input)[..net[s.A()].used], FrontSignature(s));
    SecondFrame(s);
  }

  lemma PrefixOnGrid(items: seq<Item>, signature: Signature, n: nat)
    requires OnGrid(items, signature) && n <= |items|
    ensures OnGrid(items[..n], signature)
  {
  }

  /** Item 1 starts one hop of the last auxiliary node behind item 0. */
  lemma SecondFrame(s: Setting)
    requires s.Valid() && WellFormed(DiamondPlan(s)) && |Denotation(DiamondPlan(s), s.M())| > 1
    ensures Denotation(DiamondPlan(s), s.M())[1].start == Point(0.0, FrontSignature(s).step, LastLink(s).Hop())
  {
    PortsOnGrid(s, s.M());
    EqualSignatures(s);
    StrideIs(s);
    var step := TimeSignature(DiamondPlan(s), s.M()).step;
    assert Point(0.0, step, 1) == Point(0.0, step, 0) + step;
  }

  lemma StrideIs(s: Setting)
    requires s.Valid()
    ensures Point(0.0, FrontSignature(s).step, LastLink(s).Hop()) == Behind(SharedSignature(s), s.main).step
  {
    ValidFront(s);
    HopIsStride(Stride(Front(s)), LastLink(s).Hop(), SharedSignature(s).step);
    assert Stride(s.main) == Stride(s.aux) == Product(Stride(Front(s)), LastLink(s).Hop());
  }

  lemma HopIsStride(stride: nat, hop: nat, step: real)
    ensures Point(0.0, Times(stride as real, step), hop) == Times(Product(stride, hop) as real, step)
  {
    PointIs(0.0, Times(stride as real, step), hop);
    ProductTimes(stride, hop, step);
  }

  /** Two chains of equal signature owe each other's items: the auxiliary one has not
      ended while a primary item waits. */
  lemma AuxIsOpen(s: Setting, st: State)
    requires Inv(s, st) && Waits(s, st.net, s.X()) && !Waits(s, st.net, s.Y())
    ensures !st.net[s.A()].closed
  {
    MergeReads(s, st.net);
    HeadIs(s, st.net, s.M(), s.X());
    SameGrid(s, |st.output|);
    Determinate(DiamondPlan(s), st.net, s.A());
  }

  /** What a merge that has stopped tells. */
  ghost predicate Told(s: Setting, st: State)
    requires Inv(s, st)
  {
    && (st.status == Joined ==> st.net[s.M()].closed && !Waits(s, st.net, s.X()))
    && (st.status == Stalled ==> Waits(s, st.net, s.X()) && st.output != [] && !Smooth(s))
  }

  /** Where a turn that takes no pair leads. */
  lemma TurnCases(s: Setting, st: State)
    requires Inv(s, st) && st.status == Running
    ensures !Waits(s, st.net, s.X()) ==>
            MergeStep(s, st) == if st.net[s.M()].closed then st.(status := Joined) else Pull(s, st, s.M())
    ensures Waits(s, st.net, s.X()) && !Waits(s, st.net, s.Y()) ==>
            MergeStep(s, st) == Pull(s, st, s.A()) ||
            (MergeStep(s, st) == st.(status := Stalled) && !Smooth(s) && st.output != [])
    ensures Waits(s, st.net, s.X()) && !Waits(s, st.net, s.Y()) && st.output == [] ==>
            MergeStep(s, st) == Pull(s, st, s.A())
  {
    MergeReads(s, st.net);
    if Waits(s, st.net, s.X()) && !Waits(s, st.net, s.Y()) {
      AuxIsOpen(s, st);
      if Smooth(s) { SmoothNeverStalls(s, st); }
      if st.output == [] { FirstNeverStalls(s, st); }
    }
  }

  lemma StepTells(s: Setting, st: State)
    requires Inv(s, st) && st.status == Running
    ensures Inv(s, MergeStep(s, st)) && Told(s, MergeStep(s, st))
  {
    StepKeeps(s, st);
    TurnCases(s, st);
    if Waits(s, st.net, s.X()) {
      if Waits(s, st.net, s.Y()) { MatchStep(s, st); } else { PullStatus(s, st, s.A()); }
    } else {
      PullStatus(s, st, s.M());
    }
  }

  lemma PullStatus(s: Setting, st: State, port: nat)
    requires Good(s, st.net) && st.status == Running && port <= s.A()
    ensures Pull(s, st, port).status == Running || Pull(s, st, port).status == Refused
  {
  }

  lemma NextTells(s: Setting, st: State)
    requires Inv(s, st) && Told(s, st)
    ensures Inv(s, Next(s, st)) && Told(s, Next(s, st))
  {
    if st.status == Running { StepTells(s, st); }
  }

  lemma TurnsTell(s: Setting, n: nat)
    requires s.Valid()
    ensures Inv(s, Turns(s, n)) && Told(s, Turns(s, n))
  {
    var holds: State -> bool := st => Inv(s, st) && Told(s, st);
    forall st: State | holds(st) ensures holds(Stepping(s)(st)) { NextTells(s, st); }
    StartKeeps(s);
    Invariant(Stepping(s), holds, Beginning(s), n);
  }

  /** Joined means that every item of both chains was paired. */
  lemma JoinedIsAll(s: Setting, st: State)
    requires Inv(s, st) && Told(s, st) && st.status == Joined
    ensures |st.output| == ChainCount(s.main, |Shared(s)|)
  {
    MergeReads(s, st.net);
    SameGrid(s, 0);
    Determinate(DiamondPlan(s), st.net, s.M());
  }

  /** A stalled merge leaves a primary item behind. */
  lemma StalledIsShort(s: Setting, st: State)
    requires Inv(s, st) && Told(s, st) && st.status == Stalled
    ensures 1 <= |st.output| < ChainCount(s.main, |Shared(s)|)
  {
    HeadIs(s, st.net, s.M(), s.X());
    SameGrid(s, 0);
  }

  // ------------------------------------------------- exactly when it stalls

  ghost predicate AtMostOne(s: Setting, st: State)
    requires Inv(s, st)
  {
    |st.output| <= 1 && |st.net[s.A()].published| <= 1
  }

  lemma OneAtMost(plan: Plan, net: Network, i: nat, j: nat, link: Link)
    requires Sound(plan, net) && i < |plan| && Enabled(plan, net, i) && IsLink(plan, j, link)
    ensures |Fire(plan, net, i)[j].published| <= |net[j].published| + if i == j then 1 else 0
  {
    if i == j {
      StateFits(plan, net, i);
      if link.Mapped? && Pending(plan, net, i) {
        OneMapOutput(plan[i], net[i].state.seen, net[plan[i].input].published[net[i].used]);
      }
    } else {
      FireDoesWork(plan, net, i);
    }
  }

  lemma PullEmits(s: Setting, st: State, port: nat)
    requires Inv(s, st) && (port == s.M() || port == s.A()) && |Pull(s, st, port).net| == |st.net|
    requires port == s.M() ==> !Waits(s, st.net, s.X()) && !st.net[s.M()].closed
    ensures |Pull(s, st, port).net[s.A()].published| <= |st.net[s.A()].published| + if port == s.A() then 1 else 0
  {
    PlanIsWellFormed(s);
    PlanNode(s, s.A());
    var plan := DiamondPlan(s);
    var d := Demanded(plan, st.net, DiamondLimits(s), None, port);
    if port == s.M() { var same := MainDemand(s, st.net); }
    var link := LinkAt(s, s.A());
    if d.Work? { OneAtMost(plan, st.net, d.node, s.A(), link); }
  }

  /** Before it has read a whole hop, one more pull completes no second item. */
  lemma HopPull(s: Setting, st: State)
    requires Inv(s, st) && st.status == Running && !st.net[s.A()].closed && !Smooth(s)
    requires Waits(s, st.net, s.X()) && !Waits(s, st.net, s.Y())
    requires |st.net[s.A()].published| <= 1 && st.net[s.A()].used < LastLink(s).Hop()
    ensures Inv(s, Pull(s, st, s.A())) && |Pull(s, st, s.A()).net[s.A()].published| <= 1
  {
    var input := LastNode(s);
    var next, link := Pull(s, st, s.A()).net, LastLink(s);
    AuxPull(s, st);
    AllOnGrid(s);
    var d := AuxDemand(s, st.net);
    AuxIsServed(s, st.net, |st.output|);
    FireReads(DiamondPlan(s), st.net, d.node);
    OwnCount(DiamondPlan(s), next, s.A(), link);
    FrameCounted(next[s.A()].used, link.Size(), link.Hop(), 1);
    assert Offset(1, link.Hop()) == link.Hop();
  }

  /** Without a smooth auxiliary branch the second pair is never put together. */
  lemma StaysAtOne(s: Setting, st: State)
    requires Inv(s, st) && st.status == Running && !Smooth(s) && AtMostOne(s, st)
    ensures Inv(s, MergeStep(s, st)) && AtMostOne(s, MergeStep(s, st))
  {
    StepKeeps(s, st);
    MergeReads(s, st.net);
    if !Waits(s, st.net, s.X()) {
      if !st.net[s.M()].closed {
        MainPull(s, st);
        PullEmits(s, st, s.M());
      }
    } else if Waits(s, st.net, s.Y()) {
      MatchStep(s, st);
      BothTaken(s, st.net);
    } else if |st.output| == 1 && st.net[s.A()].used >= LastLink(s).Hop() {
      RoughStalls(s, st);
    } else if !st.net[s.A()].closed {
      AuxPull(s, st);
      if |st.output| == 1 { HopPull(s, st); } else { PullEmits(s, st, s.A()); }
    }
  }

  lemma NextAtOne(s: Setting, st: State)
    requires Inv(s, st) && !Smooth(s) && AtMostOne(s, st)
    ensures Inv(s, Next(s, st)) && AtMostOne(s, Next(s, st))
  {
    if st.status == Running { StaysAtOne(s, st); }
  }

  lemma RoughPairsOnce(s: Setting, n: nat)
    requires s.Valid() && !Smooth(s)
    ensures Inv(s, Turns(s, n)) && AtMostOne(s, Turns(s, n))
  {
    var holds: State -> bool := st => Inv(s, st) && AtMostOne(s, st);
    forall st: State | holds(st) ensures holds(Stepping(s)(st)) { NextAtOne(s, st); }
    StartKeeps(s);
    Invariant(Stepping(s), holds, Beginning(s), n);
  }

  /** How a run ends, with a sufficient buffer: nothing was ever refused, and pair i
      consists of item i of both chains. It has paired every item exactly when the
      auxiliary branch is smooth or there is no second item. Otherwise it stalls. */
  lemma Outcome(s: Setting, n: nat)
    requires s.Valid() && Suffices(s) && Turns(s, n).status != Running
    ensures var st := Turns(s, n);
            && (st.status == Joined || st.status == Stalled) && Paired(s, st.output)
            && (st.status == Joined <==> |st.output| == ChainCount(s.main, |Shared(s)|))
            && (st.status == Joined <==> Smooth(s) || ChainCount(s.main, |Shared(s)|) <= 1)
            && (st.status == Stalled ==> |st.output| == 1)
  {
    NeverRefused(s, n);
    TurnsTell(s, n);
    var st := Turns(s, n);
    if st.status == Joined { JoinedIsAll(s, st); } else { StalledIsShort(s, st); }
    if !Smooth(s) { RoughPairsOnce(s, n); }
  }

  // ------------------------------------------- exactly which capacity suffices

  /** A buffer that lacks room for what pair t asks for, were it only the end of the
      shared port. */
  ghost predicate TooSmall(s: Setting, t: nat)
    requires s.Valid()
  {
    && t <= 1 && t <= ChainCount(s.main, |Shared(s)|)
    && Least(|Shared(s)| + 1, Needed(s.main, t)) - Base(s.main, t) > s.capacity
  }

  lemma InsufficientAt(s: Setting) returns (t: nat)
    requires s.Valid() && !Suffices(s)
    ensures TooSmall(s, t)
  {
    ChainNeeds(s.main, |Shared(s)|, 0);
    NeededRises(s.main, 0);
    NeededRises(s.main, 1);
    t := if Least(|Shared(s)| + 1, Span(s.main)) > s.capacity then 0 else 1;
  }

  /** The run has come no further than before pair t, and the shared port is open. */
  ghost predicate BeforePair(s: Setting, st: State, t: nat)
    requires Inv(s, st)
  {
    PlanNode(s, s.Y());
    st.status == Refused ||
    (st.status == Running && |st.output| <= t && !st.net[s.P()].closed &&
     (|st.output| == t ==> st.net[s.P() + 1].used < Needed(s.main, t)))
  }

  lemma {:induction false} BranchUpstream(plan: Plan, port: nat, lo: nat, chain: Chain, i: nat)
    requires WellFormed(plan) && IsBranch(plan, port, lo, chain) && 1 <= i <= |chain|
    ensures Upstream(plan, lo + i, port)
    decreases i
  {
    BranchInput(plan, port, lo, chain, i);
    if i > 1 { BranchUpstream(plan, port, lo, chain, i - 1); } else { assert Upstream(plan, port, port); }
  }

  /** A branch ends only behind the shared port. */
  lemma BranchIsOpen(s: Setting, net: Network)
    requires Good(s, net) && s.P() < |net| && s.M() < |net| && !net[s.P()].closed
    ensures !net[s.M()].closed
  {
    PlanIsWellFormed(s);
    PlanNode(s, s.Y());
    Branches(s);
    BranchUpstream(DiamondPlan(s), s.P(), s.P(), s.main, |s.main|);
    if net[s.M()].closed { ClosedUpstream(DiamondPlan(s), net, s.M(), s.P()); }
  }

  /** Closing the shared port takes room, too. */
  lemma ClosingNeedsRoom(s: Setting, net: Network)
    requires Good(s, net) && s.P() < |net| && Enabled(DiamondPlan(s), net, s.P())
    ensures Sound(DiamondPlan(s), Fire(DiamondPlan(s), net, s.P())) && s.P() < |Fire(DiamondPlan(s), net, s.P())|
    ensures Fire(DiamondPlan(s), net, s.P())[s.P()].closed && !net[s.P()].closed ==>
            |net[s.P()].published| == |Shared(s)|
  {
    var plan := DiamondPlan(s);
    SharedIs(s);
    FireReads(plan, net, s.P());
    Determinate(plan, Fire(plan, net, s.P()), s.P());
  }

  /** One unit of work of the primary branch, before pair t and with u pairs so far. */
  lemma WorkBefore(s: Setting, net: Network, next: Network, t: nat, u: nat, n: nat)
    requires Good(s, net) && Counts(s, net, u) && net[s.X()].used == u <= t && !Waits(s, net, s.X())
    requires n <= s.M() && Enabled(DiamondPlan(s), net, n) && next == Fire(DiamondPlan(s), net, n)
    requires Good(s, next) && Counts(s, next, u) && TooSmall(s, t)
    requires n <= s.P() ==> Drained(DiamondPlan(s), net, s.P() + 1, s.M())
    requires n == s.P() ==> Room(DiamondPlan(s), net, s.P(), 1, s.capacity)
    requires s.P() + 1 < |net| && !net[s.P()].closed && (u == t ==> net[s.P() + 1].used < Needed(s.main, t))
    ensures s.P() + 1 < |next| && !next[s.P()].closed && (u == t ==> next[s.P() + 1].used < Needed(s.main, t))
  {
    SharedReads(s, net);
    SharedReads(s, next);
    FireReads(DiamondPlan(s), net, n);
    NeededRises(s.main, t);
    if n == s.P() { StaysOpen(s, net, t, u); }
  }

  /** When the primary branch asks for more, the shared port has more. */
  lemma StaysOpen(s: Setting, net: Network, t: nat, u: nat)
    requires Good(s, net) && Counts(s, net, u) && net[s.X()].used == u <= t && !Waits(s, net, s.X()) && TooSmall(s, t)
    requires Drained(DiamondPlan(s), net, s.P() + 1, s.M()) && Enabled(DiamondPlan(s), net, s.P())
    requires Room(DiamondPlan(s), net, s.P(), 1, s.capacity)
    requires s.P() + 1 < |net| && !net[s.P()].closed && (u == t ==> net[s.P() + 1].used < Needed(s.main, t))
    ensures s.P() < |Fire(DiamondPlan(s), net, s.P())| && !Fire(DiamondPlan(s), net, s.P())[s.P()].closed
  {
    ClosingNeedsRoom(s, net);
    SharedRoom(s, net);
    SharedReads(s, net);
    MainCounts(s, net, u);
    ChainNeeds(s.main, |Shared(s)|, 0);
    NeededRises(s.main, t);
  }

  /** Pulling the primary branch before pair t. */
  lemma PullBefore(s: Setting, st: State, t: nat)
    requires Inv(s, st) && st.status == Running && BeforePair(s, st, t) && TooSmall(s, t) && !Waits(s, st.net, s.X())
    requires s.M() < |st.net| && !st.net[s.M()].closed
    ensures Inv(s, Pull(s, st, s.M())) && BeforePair(s, Pull(s, st, s.M()), t)
  {
    MainPull(s, st);
    PullStatus(s, st, s.M());
    SharedReads(s, st.net);
    var d := MainDemand(s, st.net);
    if d.Work? { WorkBefore(s, st.net, Pull(s, st, s.M()).net, t, |st.output|, d.node); }
  }

  lemma StaysBefore(s: Setting, st: State, t: nat)
    requires Inv(s, st) && st.status == Running && BeforePair(s, st, t) && TooSmall(s, t)
    ensures Inv(s, MergeStep(s, st)) && BeforePair(s, MergeStep(s, st), t)
  {
    MergeReads(s, st.net);
    MainCounts(s, st.net, |st.output|);
    TurnCases(s, st);
    if !Waits(s, st.net, s.X()) {
      BranchIsOpen(s, st.net);
      PullBefore(s, st, t);
    } else if Waits(s, st.net, s.Y()) {
      FirstMatch(s, st);
    } else {
      AuxIsOpen(s, st);
      AuxPullBefore(s, st, t);
    }
  }

  /** The first pair is taken when the primary branch has read just what it needed. */
  lemma FirstMatch(s: Setting, st: State)
    requires Inv(s, st) && st.status == Running && st.output == [] && Waits(s, st.net, s.X()) && Waits(s, st.net, s.Y())
    requires BeforePair(s, st, 1)
    ensures Inv(s, MergeStep(s, st)) && BeforePair(s, MergeStep(s, st), 1)
  {
    MatchStep(s, st);
    BothTaken(s, st.net);
    SharedReads(s, st.net);
    NeededRises(s.main, 1);
  }

  /** Pulling the auxiliary branch leaves the shared port and the primary branch alone. */
  lemma AuxPullBefore(s: Setting, st: State, t: nat)
    requires Inv(s, st) && st.status == Running && BeforePair(s, st, t)
    requires Waits(s, st.net, s.X()) && !Waits(s, st.net, s.Y()) && s.A() < |st.net| && !st.net[s.A()].closed
    ensures Inv(s, Pull(s, st, s.A())) && BeforePair(s, Pull(s, st, s.A()), t)
  {
    AuxPull(s, st);
    SharedReads(s, st.net);
    AuxIsServed(s, st.net, |st.output|);
    var d := AuxDemand(s, st.net);
    FireReads(DiamondPlan(s), st.net, d.node);
  }

  lemma NextBefore(s: Setting, st: State, t: nat)
    requires Inv(s, st) && BeforePair(s, st, t) && TooSmall(s, t)
    ensures Inv(s, Next(s, st)) && BeforePair(s, Next(s, st), t)
  {
    if st.status == Running { StaysBefore(s, st, t); }
  }

  lemma NeverPair(s: Setting, n: nat, t: nat)
    requires s.Valid() && TooSmall(s, t)
    ensures Inv(s, Turns(s, n)) && BeforePair(s, Turns(s, n), t)
  {
    var holds: State -> bool := st => Inv(s, st) && BeforePair(s, st, t);
    forall st: State | holds(st) ensures holds(Stepping(s)(st)) { NextBefore(s, st, t); }
    StartIsBefore(s, t);
    Invariant(Stepping(s), holds, Beginning(s), n);
  }

  lemma StartIsBefore(s: Setting, t: nat)
    requires s.Valid()
    ensures Inv(s, Beginning(s)) && BeforePair(s, Beginning(s), t)
  {
    StartKeeps(s);
    PlanNode(s, s.Y());
    NeededRises(s.main, 0);
  }

  /** Of all states a run reaches none is a refusal exactly when the capacity holds one
      span and one stride of the common signature, as far as the shared port has items
      for them and for its end. */
  lemma CapacitySufficesIff(s: Setting)
    requires s.Valid()
    ensures (forall n: nat :: Turns(s, n).status != Refused) <==> Suffices(s)
  {
    if Suffices(s) {
      forall n: nat ensures Turns(s, n).status != Refused { NeverRefused(s, n); }
    } else {
      var t := InsufficientAt(s);
      var n := Ends(s);
      NeverPair(s, n, t);
      assert Turns(s, n).status == Refused;
    }
  }

  // ------------------------------------------------------- the planned capacity

  /** ancestor_demands on the graph is the product of the frame sizes and sample ratios on the path. */
  lemma {:induction false} DemandIsProduct(plan: Plan, port: nat, lo: nat, chain: Chain, i: nat)
    requires WellFormed(plan) && IsBranch(plan, port, lo, chain) && 1 <= i <= |chain|
    ensures AncestorDemand(plan, lo + i, port) == PathDemand(chain[..i])
    decreases i
  {
    var front, link := chain[..i - 1], chain[i - 1];
    BranchInput(plan, port, lo, chain, i);
    BranchLink(plan, port, lo, chain, i);
    DemandStep(plan, lo + i, link, port);
    assert chain[..i][..i - 1] == front && chain[..i][i - 1] == link;
    if i > 1 {
      DemandIsProduct(plan, port, lo, chain, i - 1);
    } else {
      assert front == [] && AncestorDemand(plan, port, port) == 1;
    }
  }

  /** One link multiplies what its output asks for. */
  lemma DemandStep(plan: Plan, j: nat, link: Link, a: nat)
    requires WellFormed(plan) && IsLink(plan, j, link) && j != a
    ensures AncestorDemand(plan, j, a) == Product(AncestorDemand(plan, plan[j].input, a), link.Demand())
  {
    LinkIsFit(plan, j, link);
    ProductIs(AncestorDemand(plan, plan[j].input, a), link.Demand());
  }

  lemma {:induction false} TwoReaders(plan: Plan, n: nat, merges: seq<Merging>, a: nat, first: nat, second: nat)
    requires first < second < n <= |plan| && Reads(plan, first, a) && Reads(plan, second, a)
    ensures Consumers(plan, n, merges, a) >= 2
  {
    if second < n - 1 {
      TwoReaders(plan, n - 1, merges, a, first, second);
    } else {
      OneReader(plan, n - 1, merges, a, first);
    }
  }

  lemma {:induction false} OneReader(plan: Plan, n: nat, merges: seq<Merging>, a: nat, first: nat)
    requires first < n <= |plan| && Reads(plan, first, a)
    ensures Consumers(plan, n, merges, a) >= 1
  {
    if first < n - 1 { OneReader(plan, n - 1, merges, a, first); }
  }

  /** What compilation plans for the shared port: the greater of both path products. */
  lemma PlannedForDiamond(s: Setting)
    requires s.Valid()
    ensures WellFormed(DiamondPlan(s)) && ValidMerges(DiamondPlan(s), [(s.M(), s.A())]) && s.P() < |DiamondPlan(s)|
    ensures PlannedCapacity(DiamondPlan(s), [(s.M(), s.A())], 1, s.P()) ==
            Max(1, Max(PathDemand(s.main), PathDemand(s.aux)))
  {
    var plan, merges := DiamondPlan(s), [(s.M(), s.A())];
    var most := Max(PathDemand(s.main), PathDemand(s.aux));
    SharedTwice(s, merges);
    BranchDemands(s);
    NodeIsFit(s, s.P());
    assert RoundUp(most, 1) == most;
    assert PlannedCapacity(plan, merges, 0, s.P()) == 1;
    assert SharedDemand(plan, merges, merges[0], s.P()) == most;
  }

  lemma BranchDemands(s: Setting)
    requires s.Valid()
    ensures WellFormed(DiamondPlan(s)) && s.A() < |DiamondPlan(s)|
    ensures AncestorDemand(DiamondPlan(s), s.M(), s.P()) == PathDemand(s.main) > 0
    ensures AncestorDemand(DiamondPlan(s), s.A(), s.P()) == PathDemand(s.aux) > 0
  {
    PlanIsWellFormed(s);
    Branches(s);
    DemandIsProduct(DiamondPlan(s), s.P(), s.P(), s.main, |s.main|);
    DemandIsProduct(DiamondPlan(s), s.P(), s.M(), s.aux, |s.aux|);
    assert s.main[..|s.main|] == s.main && s.aux[..|s.aux|] == s.aux;
    DemandIsPositive(s.main);
    DemandIsPositive(s.aux);
  }

  lemma SharedTwice(s: Setting, merges: seq<Merging>)
    requires s.Valid()
    ensures WellFormed(DiamondPlan(s)) && s.P() < |DiamondPlan(s)|
    ensures Consumers(DiamondPlan(s), |DiamondPlan(s)|, merges, s.P()) >= 2
  {
    PlanIsWellFormed(s);
    WhoReads(s, s.P() + 1, s.P());
    WhoReads(s, s.M() + 1, s.P());
    TwoReaders(DiamondPlan(s), |DiamondPlan(s)|, merges, s.P(), s.P() + 1, s.M() + 1);
  }

  lemma {:induction false} DemandIsPositive(chain: Chain)
    requires ValidChain(chain)
    ensures PathDemand(chain) > 0
    decreases |chain|
  {
    if chain != [] {
      DemandIsPositive(chain[..|chain| - 1]);
      ProductIs(PathDemand(chain[..|chain| - 1]), chain[|chain| - 1].Demand());
    }
  }

  /** With the planned capacity and no skipping FRAME nothing is ever refused. */
  lemma PlanSuffices(s: Setting, n: nat)
    requires s.Valid() && NoSkips(s.main) && NoSkips(s.aux) && WellFormed(DiamondPlan(s))
    requires ValidMerges(DiamondPlan(s), [(s.M(), s.A())]) && s.P() < |DiamondPlan(s)|
    requires s.capacity == PlannedCapacity(DiamondPlan(s), [(s.M(), s.A())], 1, s.P())
    ensures Turns(s, n).status != Refused
  {
    PlannedForDiamond(s);
    DemandCovers(s.main);
    CoversHolds(s.capacity, s.main, |Shared(s)|);
    NeverRefused(s, n);
  }

  lemma SourceIsFront(items: seq<Item>)
    requires OnGrid(items, Signature(1.0, 1.0))
    ensures IsFront([Source(items)])
  {
  }

  /** Two chains that take one item in three: one slot is planned, and the run gets as
      far as a refused demand. */
  lemma SkippingDefeatsThePlan(items: seq<Item>)
    requires OnGrid(items, Signature(1.0, 1.0)) && |items| >= 2
    ensures var s := Setting([Source(items)], [Window(1, 3)], [Window(1, 3)], 1);
            && s.Valid() && WellFormed(DiamondPlan(s)) && ValidMerges(DiamondPlan(s), [(s.M(), s.A())])
            && s.P() < |DiamondPlan(s)| && s.capacity == PlannedCapacity(DiamondPlan(s), [(s.M(), s.A())], 1, s.P())
            && exists n: nat :: Turns(s, n).status == Refused
  {
    var chain := [Window(1, 3)];
    var s := Setting([Source(items)], chain, chain, 1);
    SourceIsFront(items);
    assert chain[..0] == [];
    assert Product(1, 0) == 0 && Product(1, 1) == 1 && Product(1, 2) == 2 && Product(1, 3) == 3;
    assert Stride(chain) == 3 && Span(chain) == 1 && PathDemand(chain) == 1 && Needed(chain, 1) == 4;
    PlannedForDiamond(s);
    CapacitySufficesIff(s);
  }

  /** Two SAMPLEs that keep every `ratio`-th item: just `ratio` slots are planned, and no
      demand of the run is refused; with fewer slots one is, as soon as the shared port has
      `ratio` items. */
  lemma SamplesNeedTheirRatio(items: seq<Item>, ratio: nat, capacity: nat)
    requires OnGrid(items, Signature(1.0, 1.0)) && ratio > 0 && capacity > 0
    ensures var branch := [Sampled(ratio, ratio as real)];
            var s := Setting([Source(items)], branch, branch, capacity);
            && s.Valid() && WellFormed(DiamondPlan(s)) && ValidMerges(DiamondPlan(s), [(s.M(), s.A())])
            && s.P() < |DiamondPlan(s)| && PlannedCapacity(DiamondPlan(s), [(s.M(), s.A())], 1, s.P()) == ratio
            && (capacity >= ratio ==> forall n: nat :: Turns(s, n).status != Refused)
            && (capacity < ratio <= |items| ==> exists n: nat :: Turns(s, n).status == Refused)
  {
    var branch := [Sampled(ratio, ratio as real)];
    var s := Setting([Source(items)], branch, branch, capacity);
    SourceIsFront(items);
    SampledBranch(ratio);
    assert s.Valid() by { assert InTime(branch, 1.0, 0); }
    PlannedForDiamond(s);
    CapacitySufficesIff(s);
  }

  lemma SampledBranch(ratio: nat)
    requires ratio > 0
    ensures var branch := [Sampled(ratio, ratio as real)];
            ValidChain(branch) && Stride(branch) == ratio && Span(branch) == 1 && PathDemand(branch) == ratio &&
            InTime(branch, 1.0, 0)
  {
    var branch := [Sampled(ratio, ratio as real)];
    assert branch[..0] == [] && Product(1, 0) == 0;
    ProductIs(1, ratio);
    TimesOne(ratio as real);
  }

  lemma TimesOne(x: real)
    ensures Times(x, Times(1.0, 1.0)) == x
  {
  }

  /** How a run of several items behind a rough branch ends, in one word. */
  lemma RoughStallsAtOne(s: Setting) returns (n: nat)
    requires s.Valid() && Suffices(s) && !Smooth(s) && Needed(s.main, 1) <= |Shared(s)|
    ensures Turns(s, n).status == Stalled && |Turns(s, n).output| == 1 && ChainCount(s.main, |Shared(s)|) > 1
  {
    ChainNeeds(s.main, |Shared(s)|, 1);
    n := Ends(s);
    Outcome(s, n);
  }

  /** FRAME(4, 2) against FRAME(4, 2) and FRAME(1, 1): the same signature, but the last
      FRAME announces the end of its overlapping input, and the merge stops after one
      of several pairs. */
  lemma OverlapStallsTheMerge(items: seq<Item>) returns (n: nat)
    requires OnGrid(items, Signature(1.0, 1.0)) && |items| >= 6
    ensures var s := Setting([Source(items)], [Window(4, 2)], [Window(4, 2), Window(1, 1)], 4);
            s.Valid() && Turns(s, n).status == Stalled && |Turns(s, n).output| == 1 &&
            ChainCount(s.main, |items|) > 1
  {
    var main, aux := [Window(4, 2)], [Window(4, 2), Window(1, 1)];
    var s := Setting([Source(items)], main, aux, 4);
    SourceIsFront(items);
    assert main[..0] == [] && aux[..1] == main;
    FourByTwo();
    assert Stride(aux) == 2 && Span(aux) == 4 && Front(s) == main && LastLink(s) == Window(1, 1);
    assert SharedSignature(s) == Signature(1.0, 1.0) && FrontSignature(s) == Signature(4.0, 2.0);
    CoversHolds(4, main, |items|);
    n := RoughStallsAtOne(s);
  }

  /** ... and so does FRAME(1, 2) behind FRAME(4, 1), which skips every other frame. */
  lemma SkipStallsTheMerge(items: seq<Item>) returns (n: nat)
    requires OnGrid(items, Signature(1.0, 1.0)) && |items| >= 6
    ensures var s := Setting([Source(items)], [Window(4, 2)], [Window(4, 1), Window(1, 2)], 4);
            s.Valid() && Turns(s, n).status == Stalled && |Turns(s, n).output| == 1 &&
            ChainCount(s.main, |items|) > 1
  {
    var main, front, aux := [Window(4, 2)], [Window(4, 1)], [Window(4, 1), Window(1, 2)];
    var s := Setting([Source(items)], main, aux, 4);
    SourceIsFront(items);
    assert front[..0] == [] && aux[..1] == front;
    FourByTwo();
    assert Product(1, 1) == 1 && Product(1, 3) == 3 && Product(1, 2) == 2 && Product(1, 0) == 0;
    assert Stride(front) == 1 && Span(front) == 4 && Stride(aux) == 2 && Span(aux) == 4;
    assert Front(s) == front && LastLink(s) == Window(1, 2);
    assert SharedSignature(s) == Signature(1.0, 1.0) && FrontSignature(s) == Signature(4.0, 1.0);
    CoversHolds(4, main, |items|);
    n := RoughStallsAtOne(s);
  }

  lemma FourByTwo()
    ensures var main := [Window(4, 2)];
            Stride(main) == 2 && Span(main) == 4 && Needed(main, 1) == 6 &&
            Product(2, 1) == 2 && Product(2, 0) == 0
  {
    var main := [Window(4, 2)];
    assert main[..0] == [];
    ProductIs(1, 2);
    ProductIs(1, 3);
  }

  /** A shared FRAME(2, 1): its own frames overlap, and even FRAME(1, 1) on both branches
      stalls the merge. */
  lemma SharedOverlapStalls(items: seq<Item>) returns (n: nat)
    requires OnGrid(items, Signature(1.0, 1.0)) && |items| >= 3
    ensures var s := Setting([Source(items), Frame(0, 2, 1, false)], [Window(1, 1)], [Window(1, 1)], 1);
            s.Valid() && Turns(s, n).status == Stalled && |Turns(s, n).output| == 1 &&
            ChainCount(s.main, |Shared(s)|) > 1
  {
    var front, one: Chain := [Source(items), Frame(0, 2, 1, false)], [Window(1, 1)];
    var s := Setting(front, one, one, 1);
    assert UnitNode(front[0]) && front[1].Frame?;
    assert s.Valid() by {
      assert InChain(front, 0) && InChain(front, 1);
    }
    assert one[..0] == [] && Product(1, 1) == 1 && Product(1, 0) == 0;
    assert Stride(one) == 1 && Span(one) == 1 && Needed(one, 1) == 2;
    GapFreeFrames(front[1], items);
    FrameCounted(|items|, 2, 1, 1);
    assert Front(s) == [] && FrontSignature(s) == Signature(2.0, 1.0);
    CoversHolds(1, one, |Shared(s)|);
    n := RoughStallsAtOne(s);
  }

  // ------------------------------------------------ on the streaming executor

  /** The merge of the diamond, for the merge that runs on the executor. */
  function Wired(s: Setting): Wiring { Wiring(s.M(), s.A(), s.X(), s.Y()) }

  lemma WiringFits(s: Setting)
    requires s.Valid()
    ensures Wired(s).Fits(DiamondPlan(s))
  {
    var plan := DiamondPlan(s);
    PlanIsWellFormed(s);
    PlanNode(s, s.X());
    PlanNode(s, s.Y());
    PlanNode(s, s.A());
    forall c | 0 <= c < |plan| ensures !Reads(plan, c, s.X()) && !Reads(plan, c, s.Y()) {
      WhoReads(s, c, s.X());
      WhoReads(s, c, s.Y());
    }
    if Upstream(plan, s.M(), s.A()) { UpstreamIsEarlier(plan, s.M(), s.A()); }
  }

  /** Its turns are those of the executor's merge. */
  lemma TurnIs(s: Setting, n: nat)
    requires s.Valid() && Turns(s, n).status == Running
    ensures MergeRuns.Good(DiamondPlan(s), DiamondLimits(s), Wired(s), Turns(s, n).net)
    ensures Turns(s, n + 1) == MergeRuns.MergeStep(DiamondPlan(s), DiamondLimits(s), Wired(s), Turns(s, n))
  {
    TurnsKeep(s, n);
    PlanIsWellFormed(s);
    WiringFits(s);
    StepIsGeneric(s, Turns(s, n));
    assert Turns(s, n + 1) == Stepping(s)(Turns(s, n));
  }

  lemma TakeBothIs(s: Setting, net: Network)
    requires Good(s, net) && Waits(s, net, s.X()) && Waits(s, net, s.Y()) && Wired(s).Fits(DiamondPlan(s))
    ensures MergeRuns.TakenBoth(DiamondPlan(s), net, Wired(s)) == TakeBoth(s, net)
  {
    TakeOne(s, net);
    FireIsSound(DiamondPlan(s), net, s.X());
  }

  lemma StepIsGeneric(s: Setting, st: State)
    requires Inv(s, st) && Wired(s).Fits(DiamondPlan(s)) && ValidLimits(DiamondPlan(s), DiamondLimits(s))
    ensures MergeStep(s, st) == MergeRuns.MergeStep(DiamondPlan(s), DiamondLimits(s), Wired(s), st)
  {
    MergeReads(s, st.net);
    if Waits(s, st.net, s.X()) && Waits(s, st.net, s.Y()) {
      TakeBothIs(s, st.net);
      HeadsMatch(s, st);
    }
  }
}
