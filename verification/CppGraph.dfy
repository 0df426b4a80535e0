/** The native graph evaluation: every node of a topologically ordered plan runs
    once over the whole batch of its input, in ticks of one common timebase. */
module CppGraphs {
  import opened Stream
  import opened Operators
  import opened Plans
  import opened Scheduling
  import opened CppNodes
  import opened Vectors
  import opened Scaling
  import opened Ticks
  import opened Gaps
  import opened Agreement
  import opened CppMaps

  // ------------------------------------------------------------- timebase

  predicate PositiveDenominators(nodes: seq<NativeNode>) {
    forall i :: 0 <= i < |nodes| && nodes[i].NativeRate? ==> 0 < nodes[i].denominator <= I64_MAX
  }

  /** The least common timebase of the source and the first n nodes' periods. */
  function Timebase(nodes: seq<NativeNode>, n: nat, source: nat): (t: nat)
    requires PositiveDenominators(nodes) && n <= |nodes| && source > 0
    ensures t > 0
  {
    if n == 0 then source
    else if !nodes[n - 1].NativeRate? then Timebase(nodes, n - 1, source)
    else
      LcmIsLeast(Timebase(nodes, n - 1, source), nodes[n - 1].denominator);
      Lcm(Timebase(nodes, n - 1, source), nodes[n - 1].denominator)
  }

  lemma {:induction false} TimebaseCovers(nodes: seq<NativeNode>, n: nat, source: nat, k: nat)
    requires PositiveDenominators(nodes) && k <= n <= |nodes| && source > 0
    ensures MultipleOf(Timebase(nodes, n, source), Timebase(nodes, k, source))
    ensures forall i :: k <= i < n && nodes[i].NativeRate? ==>
            MultipleOf(Timebase(nodes, n, source), nodes[i].denominator)
    decreases n
  {
    var whole := Timebase(nodes, n, source);
    if k < n {
      var before := Timebase(nodes, n - 1, source);
      TimebaseCovers(nodes, n - 1, source, k);
      if nodes[n - 1].NativeRate? {
        LcmIsLeast(before, nodes[n - 1].denominator);
        MultipleTransitive(whole, before, Timebase(nodes, k, source));
        forall i | k <= i < n - 1 && nodes[i].NativeRate? ensures MultipleOf(whole, nodes[i].denominator) {
          MultipleTransitive(whole, before, nodes[i].denominator);
        }
      }
    } else {
      assert whole == Product(whole, 1);
    }
  }

  /** The timebase of a run, with the boundary's denominator when there is one. */
  function RunTimebase(nodes: seq<NativeNode>, source: nat, end: Option<Fraction>): (t: nat)
    requires PositiveDenominators(nodes) && source > 0 && (end.Some? ==> end.value.Valid())
    ensures t > 0
  {
    var t := Timebase(nodes, |nodes|, source);
    if end.None? then t
    else
      LcmIsLeast(t, end.value.denominator);
      Lcm(t, end.value.denominator)
  }

  lemma RunTimebaseCovers(nodes: seq<NativeNode>, source: nat, end: Option<Fraction>)
    requires PositiveDenominators(nodes) && source > 0 && (end.Some? ==> end.value.Valid())
    ensures var t := RunTimebase(nodes, source, end);
            && MultipleOf(t, source)
            && (forall i :: 0 <= i < |nodes| && nodes[i].NativeRate? ==> MultipleOf(t, nodes[i].denominator))
            && (end.Some? ==> MultipleOf(t, end.value.denominator))
  {
    var t, whole := Timebase(nodes, |nodes|, source), RunTimebase(nodes, source, end);
    TimebaseCovers(nodes, |nodes|, source, 0);
    if end.Some? {
      LcmIsLeast(t, end.value.denominator);
      MultipleTransitive(whole, t, source);
      forall i | 0 <= i < |nodes| && nodes[i].NativeRate? ensures MultipleOf(whole, nodes[i].denominator) {
        MultipleTransitive(whole, t, nodes[i].denominator);
      }
    }
  }

  method CommonTimebase(nodes: seq<NativeNode>, source: nat, end: Option<Fraction>) returns (r: Result<int>)
    requires PositiveDenominators(nodes) && 0 < source <= I64_MAX
    requires end.Some? ==> end.value.Valid() && end.value.denominator <= I64_MAX
    ensures r.Ok? <==> RunTimebase(nodes, source, end) <= I64_MAX
    ensures r.Ok? ==> r.value == RunTimebase(nodes, source, end)
  {
    var timebase: int := source;
    for n := 0 to |nodes|
      invariant timebase == Timebase(nodes, n, source) <= I64_MAX
    {
      if nodes[n].NativeRate? {
        r := CheckedLcm(timebase, nodes[n].denominator);
        if r.Err? {
          TooLarge(nodes, source, end, n + 1);
          return;
        }
        timebase := r.value;
      }
    }
    r := Ok(timebase);
    if end.Some? { r := CheckedLcm(timebase, end.value.denominator); }
  }

  /** A partial timebase beyond the range puts the whole one beyond it. */
  lemma TooLarge(nodes: seq<NativeNode>, source: nat, end: Option<Fraction>, n: nat)
    requires PositiveDenominators(nodes) && source > 0 && n <= |nodes| && (end.Some? ==> end.value.Valid())
    ensures RunTimebase(nodes, source, end) >= Timebase(nodes, n, source)
  {
    var t := Timebase(nodes, |nodes|, source);
    TimebaseCovers(nodes, |nodes|, source, n);
    MultipleIsNoLess(t, Timebase(nodes, n, source));
    if end.Some? {
      LcmIsLeast(t, end.value.denominator);
      MultipleIsNoLess(Lcm(t, end.value.denominator), t);
    }
  }

  // --------------------------------------------------------------- source

  /** The segment of source item i: how many items up to it follow a gap. */
  function SegmentOf(items: seq<PackedItem>, i: nat): nat
    requires i < |items|
  {
    (if i == 0 then 0 else SegmentOf(items, i - 1)) + if items[i].reset then 1 else 0
  }

  function SourceTick(items: seq<PackedItem>, i: nat, scale: int): TickItem
    requires i < |items|
  {
    TickItem(items[i].value, Product(items[i].start, scale), Product(items[i].end, scale), items[i].status,
      SegmentOf(items, i), items[i].reset)
  }

  predicate ScaledFit(items: seq<PackedItem>, scale: int) {
    forall i :: 0 <= i < |items| ==> FitsI64(Product(items[i].start, scale)) && FitsI64(Product(items[i].end, scale))
  }

  predicate EndsRise(items: seq<PackedItem>) {
    forall i, j :: 0 <= i < j < |items| ==> items[i].end <= items[j].end
  }

  /** How many packed items end no later than the boundary. */
  function AdmittedTicks(items: seq<PackedItem>, scale: int, boundary: Option<int>): (k: nat)
    ensures k <= |items|
    ensures k < |items| ==> boundary.Some? && Product(items[k].end, scale) > boundary.value
    ensures boundary.Some? ==> forall i :: 0 <= i < k ==> Product(items[i].end, scale) <= boundary.value
    decreases |items|
  {
    if items == [] || (boundary.Some? && Product(items[0].end, scale) > boundary.value) then 0
    else
      var k := AdmittedTicks(items[1..], scale, boundary);
      assert forall i :: 1 <= i < k + 1 ==> items[i] == items[1..][i - 1];
      1 + k
  }

  lemma ProductMonotone(x: int, y: int, c: int)
    requires x <= y && c > 0
    ensures Product(x, c) <= Product(y, c)
  {
  }

  ghost predicate SourceBatch(items: seq<PackedItem>, scale: int, n: nat, batch: seq<TickItem>)
    requires n <= |items|
  {
    |batch| == n && forall i :: 0 <= i < n ==> batch[i] == SourceTick(items, i, scale)
  }

  /** Source item i ends no later than the boundary. */
  predicate OnTime(items: seq<PackedItem>, scale: int, boundary: Option<int>, i: nat)
    requires i < |items|
  {
    boundary.None? || Product(items[i].end, scale) <= boundary.value
  }

  /** What the native source keeps of its first k items: all that are on time. */
  function KeptSource(items: seq<PackedItem>, scale: int, boundary: Option<int>, k: nat): seq<TickItem>
    requires k <= |items|
  {
    if k == 0 then []
    else
      KeptSource(items, scale, boundary, k - 1)
      + if OnTime(items, scale, boundary, k - 1) then [SourceTick(items, k - 1, scale)] else []
  }

  /** The source node: items behind the boundary are passed over one by one. */
  method RunSource(items: seq<PackedItem>, scale: int, boundary: Option<int>) returns (r: Result<seq<TickItem>>)
    ensures r.Ok? <==> ScaledFit(items, scale)
    ensures r.Ok? ==> r.value == KeptSource(items, scale, boundary, |items|)
  {
    var batch: seq<TickItem>, segment := [], 0;
    for k := 0 to |items|
      invariant segment == if k == 0 then 0 else SegmentOf(items, k - 1)
      invariant forall i :: 0 <= i < k ==>
                FitsI64(Product(items[i].start, scale)) && FitsI64(Product(items[i].end, scale))
      invariant batch == KeptSource(items, scale, boundary, k)
    {
      if items[k].reset { segment := segment + 1; }
      var start := CheckedScale(items[k].start, scale);
      if start.Err? { return Err(start.error); }
      var end := CheckedScale(items[k].end, scale);
      if end.Err? { return Err(end.error); }
      if boundary.Some? && end.value > boundary.value { continue; }
      batch := batch + [TickItem(items[k].value, start.value, end.value, items[k].status, segment, items[k].reset)];
    }
    r := Ok(batch);
  }

  /** Behind the first late item nothing is on time again. */
  ghost predicate LateStays(items: seq<PackedItem>, scale: int, boundary: Option<int>) {
    forall i, j :: 0 <= i < j < |items| && !OnTime(items, scale, boundary, i) ==> !OnTime(items, scale, boundary, j)
  }

  lemma {:induction false} KeptSoFar(items: seq<PackedItem>, scale: int, boundary: Option<int>, k: nat)
    requires k <= |items|
    ensures var n, kept := AdmittedTicks(items, scale, boundary), KeptSource(items, scale, boundary, k);
            && (k <= n ==> SourceBatch(items, scale, k, kept))
            && (k >= n ==> |kept| >= n && kept[..n] == KeptSource(items, scale, boundary, n))
            && (k >= n ==> (|kept| == n <==> forall j :: n <= j < k ==> !OnTime(items, scale, boundary, j)))
  {
    var n := AdmittedTicks(items, scale, boundary);
    if k > 0 {
      KeptSoFar(items, scale, boundary, k - 1);
      if k <= n { assert OnTime(items, scale, boundary, k - 1); }
    }
  }

  /** Passing late items over yields the admitted prefix exactly when nothing behind
      the first late item is on time. */
  lemma PassingOverIsPrefixIff(items: seq<PackedItem>, scale: int, boundary: Option<int>)
    ensures SourceBatch(items, scale, AdmittedTicks(items, scale, boundary),
            KeptSource(items, scale, boundary, |items|)) <==>
            LateStays(items, scale, boundary)
  {
    var n, kept := AdmittedTicks(items, scale, boundary), KeptSource(items, scale, boundary, |items|);
    KeptSoFar(items, scale, boundary, |items|);
    KeptSoFar(items, scale, boundary, n);
    if n < |items| { assert !OnTime(items, scale, boundary, n); }
    forall i | 0 <= i < n ensures OnTime(items, scale, boundary, i) { }
    if |kept| == n { assert kept == kept[..n]; }
  }

  /** It holds at every boundary exactly when the interval ends never fall. */
  lemma LateStaysIff(items: seq<PackedItem>, scale: int)
    requires scale > 0
    ensures (forall b: int :: LateStays(items, scale, Some(b))) <==> EndsRise(items)
  {
    if EndsRise(items) {
      forall b: int ensures LateStays(items, scale, Some(b)) {
        forall i, j | 0 <= i < j < |items| && !OnTime(items, scale, Some(b), i)
          ensures !OnTime(items, scale, Some(b), j)
        {
          ProductMonotone(items[i].end, items[j].end, scale);
        }
      }
    } else {
      var i, j :| 0 <= i < j < |items| && items[i].end > items[j].end;
      var b := Product(items[j].end, scale);
      ProductMonotone(items[j].end, items[i].end, scale);
      assert items[i].end * scale > items[j].end * scale;
      assert !OnTime(items, scale, Some(b), i) && OnTime(items, scale, Some(b), j);
      assert !LateStays(items, scale, Some(b));
    }
  }

  /** The first item ends behind the boundary and the second before it: the scheduler
      waits at the first, the native source goes on to the second. */
  lemma FallingEndsDiffer()
    ensures var items := [PackedItem(Atom(0), 0, 3, OK, false), PackedItem(Atom(1), 1, 2, OK, false)];
            AdmittedTicks(items, 1, Some(2)) == 0 && |KeptSource(items, 1, Some(2), 2)| == 1
  {
    var items := [PackedItem(Atom(0), 0, 3, OK, false), PackedItem(Atom(1), 1, 2, OK, false)];
    assert Product(items[0].end, 1) == 3 && Product(items[1].end, 1) == 2;
    assert KeptSource(items, 1, Some(2), 1) == [];
  }

  /** The same condition on the times of a source's items. */
  ghost predicate Punctual(items: seq<Item>, duration: Option<real>) {
    forall i, j :: 0 <= i < j < |items| && duration.Some? && items[i].end > duration.value ==>
      items[j].end > duration.value
  }

  lemma {:induction false} SourceUpTo(items: seq<PackedItem>, scale: int, n: nat, batch: seq<TickItem>)
    requires n <= |items| && ScaledFit(items, scale) && SourceBatch(items, scale, n, batch)
    ensures ValidBatch(batch)
    decreases n
  {
    if n > 0 {
      SourceUpTo(items, scale, n - 1, batch[..n - 1]);
    }
  }

  /** The scale from source ticks to run ticks carries the encoding over. */
  lemma Rescale(x: real, denominator: int, scale: int, tick: int)
    requires tick as real == Times(x, denominator as real)
    ensures Product(tick, scale) as real == Times(x, Product(denominator, scale) as real)
  {
    assert Product(tick, scale) as real == tick as real * scale as real;
    assert Product(denominator, scale) as real == denominator as real * scale as real;
    Regroup(x, denominator as real, scale as real);
  }

  lemma SourceFollows(items: seq<Item>, ingress: Ingress, scale: int, n: nat, batch: seq<TickItem>)
    requires PackedMeanings(ingress.items) == ScaleItems(items, ingress.denominator as real)
    requires n <= |ingress.items| && SourceBatch(ingress.items, scale, n, batch)
    ensures n <= |items| && Follows(ScaleItems(items[..n], Product(ingress.denominator, scale) as real), batch)
  {
    var packed, c := ingress.items, Product(ingress.denominator, scale) as real;
    assert |items| == |ScaleItems(items, ingress.denominator as real)| == |packed|;
    forall i | 0 <= i < n ensures AsItem(batch[i]) == ScaleItem(items[i], c) && packed[i].reset == items[i].overrun {
      assert PackedMeanings(packed)[i] == ScaleItem(items[i], ingress.denominator as real);
      Rescale(items[i].start, ingress.denominator, scale, packed[i].start);
      Rescale(items[i].end, ingress.denominator, scale, packed[i].end);
    }
    var stream := ScaleItems(items[..n], c);
    forall i | 0 <= i < n ensures stream[i] == AsItems(batch)[i] { assert AsItem(batch[i]) == stream[i]; }
    forall i | 0 < i < n ensures stream[i].overrun <==> Segments(batch)[i] != Segments(batch)[i - 1] {
      assert SegmentOf(packed, i) == SegmentOf(packed, i - 1) + if packed[i].reset then 1 else 0;
    }
  }

  lemma OnTimeAgrees(
      items: seq<Item>, ingress: Ingress, scale: int, duration: Option<real>, boundary: Option<int>, i: nat)
    requires PackedMeanings(ingress.items) == ScaleItems(items, ingress.denominator as real)
    requires Product(ingress.denominator, scale) > 0 && i < |items|
    requires duration.Some? <==> boundary.Some?
    requires duration.Some? ==>
             boundary.value as real == Times(duration.value, Product(ingress.denominator, scale) as real)
    ensures |items| == |ingress.items|
    ensures OnTime(ingress.items, scale, boundary, i) <==> (duration.Some? ==> items[i].end <= duration.value)
  {
    var packed, c := ingress.items, Product(ingress.denominator, scale) as real;
    assert |items| == |ScaleItems(items, ingress.denominator as real)| == |packed|;
    assert PackedMeanings(packed)[i] == ScaleItem(items[i], ingress.denominator as real);
    Rescale(items[i].end, ingress.denominator, scale, packed[i].end);
    if duration.Some? { TimesOrder(duration.value, items[i].end, c); }
  }

  /** The boundary cuts the ticks where it cuts the times. */
  lemma AdmittedAgree(items: seq<Item>, ingress: Ingress, scale: int, duration: Option<real>, boundary: Option<int>)
    requires PackedMeanings(ingress.items) == ScaleItems(items, ingress.denominator as real)
    requires Product(ingress.denominator, scale) > 0
    requires duration.Some? <==> boundary.Some?
    requires duration.Some? ==>
             boundary.value as real == Times(duration.value, Product(ingress.denominator, scale) as real)
    ensures Admitted(items, duration) == AdmittedTicks(ingress.items, scale, boundary)
    ensures LateStays(ingress.items, scale, boundary) <==> Punctual(items, duration)
  {
    var packed := ingress.items;
    var k := AdmittedTicks(packed, scale, boundary);
    assert |items| == |ScaleItems(items, ingress.denominator as real)| == |packed|;
    forall i | 0 <= i < |items|
      ensures OnTime(packed, scale, boundary, i) <==> (duration.Some? ==> items[i].end <= duration.value)
    {
      OnTimeAgrees(items, ingress, scale, duration, boundary, i);
    }
    forall j | 0 <= j < k ensures OnTime(packed, scale, boundary, j) { }
    if k < |items| { assert !OnTime(packed, scale, boundary, k); }
    AdmittedIs(items, duration, k);
  }

  // ----------------------------------------------------------------- nodes

  /** The gap flags of `input` are still the segments of the native batch after this
      node: the exact condition of each kind. */
  ghost predicate Faithful(node: Node, input: seq<Item>)
    requires node.Valid()
  {
    match node
    case Source(_) => true
    case Rate(_, period, HOLD) => HoldLed(input, period)
    case Rate(_, period, SAMPLE) => SampleLed(input, period)
    case Frame(_, _, _, _) => true
    case Map(_, _, acceptsInvalid, resetOnGap) => resetOnGap ==> NeverReset(input, acceptsInvalid)
  }

  lemma HoldScales(items: seq<Item>, period: real, c: real)
    requires period > 0.0 && c > 0.0
    ensures Times(period, c) > 0.0
    ensures HoldRun(ScaleItems(items, c), Times(period, c)) == ScaleItems(HoldRun(items, period), c)
    ensures HoldNext(ScaleItems(items, c), Times(period, c)) == ScaleTime(HoldNext(items, period), c)
  {
    var node := Rate(0, period, HOLD);
    TimesPositive(period, c);
    RunScale(node, items, c);
    RateRun(node, items);
    RateRun(ScaleNode(node, c), ScaleItems(items, c));
  }

  lemma FiresScale(items: seq<Item>, period: real, c: real, k: nat)
    requires period > 0.0 && c > 0.0 && k < |items|
    ensures Times(period, c) > 0.0
    ensures Fires(ScaleItems(items, c), Times(period, c), k) == Fires(items, period, k)
  {
    var next := HoldNext(items[..k], period);
    HoldScales(items[..k], period, c);
    ScaleSlice(items, 0, k, c);
    FirstFireScale(next, items[k], period, c);
    FireCountScale(FirstFire(next, items[k], period), items[k].end, period, c);
  }

  lemma SameSegmentScale(items: seq<Item>, c: real, k: nat, j: nat)
    requires k <= j < |items|
    ensures SameSegment(ScaleItems(items, c), k, j) <==> SameSegment(items, k, j)
  {
    forall i | k < i <= j ensures ScaleItems(items, c)[i].overrun == items[i].overrun { }
  }

  lemma HoldLedScale(items: seq<Item>, period: real, c: real)
    requires period > 0.0 && c > 0.0 && HoldLed(items, period)
    ensures Times(period, c) > 0.0 && HoldLed(ScaleItems(items, c), Times(period, c))
  {
    var scaled, p := ScaleItems(items, c), Times(period, c);
    TimesPositive(period, c);
    forall k | 0 <= k < |items| && items[k].overrun
      ensures scaled[k].end - scaled[k].start <= p
      ensures scaled[k].start < scaled[k].end || HoldRun(scaled[..k], p) == [] || HoldSilent(scaled, p, k)
    {
      TimesOrder(items[k].start, items[k].end, c);
      TimesSum(items[k].end, items[k].start, c);
      TimesOrder(period, items[k].end - items[k].start, c);
      ScaleSlice(items, 0, k, c);
      HoldScales(items[..k], period, c);
      if HoldSilent(items, period, k) {
        forall j | k < j < |items| && SameSegment(scaled, k, j) ensures Fires(scaled, p, j) == 0 {
          SameSegmentScale(items, c, k, j);
          FiresScale(items, period, c, j);
        }
      }
    }
  }

  lemma SampleScales(items: seq<Item>, period: real, c: real)
    requires period > 0.0 && c > 0.0
    ensures Times(period, c) > 0.0
    ensures SampleRun(ScaleItems(items, c), Times(period, c)) == ScaleItems(SampleRun(items, period), c)
  {
    var node := Rate(0, period, SAMPLE);
    TimesPositive(period, c);
    RunScale(node, items, c);
    RateRun(node, items);
    RateRun(ScaleNode(node, c), ScaleItems(items, c));
  }

  lemma SampleLedScale(items: seq<Item>, period: real, c: real)
    requires period > 0.0 && c > 0.0 && SampleLed(items, period)
    ensures Times(period, c) > 0.0 && SampleLed(ScaleItems(items, c), Times(period, c))
  {
    var scaled, p := ScaleItems(items, c), Times(period, c);
    TimesPositive(period, c);
    forall k | 0 <= k < |items| && items[k].overrun
      ensures IsMultiple(scaled[k].start, p) || SampleRun(scaled[..k], p) == [] || SampleSilent(scaled, p, k)
    {
      QuotientScale(items[k].start, period, c);
      ScaleSlice(items, 0, k, c);
      SampleScales(items[..k], period, c);
      if SampleSilent(items, period, k) {
        forall j | k < j < |items| && SameSegment(scaled, k, j) ensures !IsMultiple(scaled[j].start, p) {
          SameSegmentScale(items, c, k, j);
          QuotientScale(items[j].start, period, c);
        }
      }
    }
  }

  lemma FaithfulScale(node: Node, input: seq<Item>, c: real)
    requires node.Valid() && c > 0.0 && Faithful(node, input)
    ensures ScaleNode(node, c).Valid() && Faithful(ScaleNode(node, c), ScaleItems(input, c))
  {
    match node
    case Source(_) =>
    case Rate(_, period, HOLD) => HoldLedScale(input, period, c);
    case Rate(_, period, SAMPLE) => SampleLedScale(input, period, c);
    case Frame(_, _, _, _) =>
    case Map(_, _, _, _) =>
  }

  /** Node `native` accepts this input: its period and its fire times fit, and it does not pad. */
  ghost predicate NodeFits(native: NativeNode, input: seq<Item>, timebase: nat) {
    match native
    case NativeSource => true
    case NativeRate(_, numerator, denominator, policy) =>
      denominator > 0 && var period := Product(numerator, timebase / denominator);
      0 < period && FitsI64(period) &&
        (policy == HOLD ==> FiresFit(ScaleItems(input, timebase as real), period as real))
    case NativeFrame(_, size, hop, padEnd) => !padEnd
    case NativeMap(_, _, _) => true
  }

  lemma PeriodTicks(numerator: int, denominator: nat, timebase: nat)
    requires denominator > 0 && timebase > 0 && MultipleOf(timebase, denominator)
    ensures Product(numerator, timebase / denominator) as real ==
            Times(numerator as real / denominator as real, timebase as real)
    ensures timebase == Product(denominator, timebase / denominator) && timebase / denominator > 0
  {
    var k :| timebase == Product(denominator, k);
    QuotientOf(denominator, k);
    PositiveFactor(denominator, k);
    var x := numerator as real / denominator as real;
    assert x * denominator as real == numerator as real;
    ExactTick(x, numerator, denominator, k);
  }

  /** The stream a node makes of its input, in the units of the run. */
  ghost function Output(node: Node, input: seq<Item>, timebase: nat): seq<Item>
    requires node.Valid() && timebase > 0
  {
    ScaleItems(Run(node, input).1, timebase as real)
  }

  method RunRate(native: NativeNode, input: seq<TickItem>, timebase: nat, ghost node: Node, ghost items: seq<Item>)
    returns (r: Result<seq<TickItem>>)
    requires native.NativeRate? && node.Rate? && node.Valid() && node.policy == native.policy && timebase > 0
    requires 0 < native.denominator && MultipleOf(timebase, native.denominator)
    requires node.period == native.numerator as real / native.denominator as real
    requires ValidBatch(input) && Follows(ScaleItems(items, timebase as real), input) && Faithful(node, items)
    ensures r.Ok? <==> NodeFits(native, items, timebase)
    ensures r.Ok? ==> Follows(Output(node, items, timebase), r.value) && ValidBatch(r.value)
  {
    ghost var c, scaled := timebase as real, ScaleItems(items, timebase as real);
    PeriodTicks(native.numerator, native.denominator, timebase);
    TimesPositive(node.period, c);
    var period := CheckedScale(native.numerator, timebase / native.denominator);
    if period.Err? { return Err(period.error); }
    if period.value <= 0 { return Err(PositiveRatePeriod); }
    FaithfulScale(node, items, c);
    RunScale(node, items, c);
    RateRun(ScaleNode(node, c), scaled);
    BatchRises(input);
    if native.policy == SAMPLE {
      var output := RunSampleNode(input, period.value, scaled);
      SampleAgreesIff(scaled, Segments(input), period.value as real);
      return Ok(output);
    }
    r := RunHoldNode(input, period.value, scaled);
    if r.Ok? { HoldAgreesIff(scaled, Segments(input), period.value as real); }
  }

  /** One node of the graph on the batch of its input. */
  method RunNode(
      native: NativeNode, input: seq<TickItem>, timebase: nat, ghost node: Node, ghost items: seq<Item>,
      ghost ingress: Ingress)
    returns (r: Result<seq<TickItem>>)
    requires !native.NativeSource? && NodeRepresents(node, native, ingress) && node.Valid() && timebase > 0
    requires native.NativeRate? ==> MultipleOf(timebase, native.denominator)
    requires ValidBatch(input) && Follows(ScaleItems(items, timebase as real), input) && Faithful(node, items)
    ensures r.Ok? <==> NodeFits(native, items, timebase)
    ensures r.Ok? ==> Follows(Output(node, items, timebase), r.value) && ValidBatch(r.value)
  {
    ghost var c, scaled := timebase as real, ScaleItems(items, timebase as real);
    NativeIsTimeless(node, native, ingress, c);
    match native {
      case NativeRate(_, _, _, _) =>
        r := RunRate(native, input, timebase, node, items);
      case NativeFrame(_, size, hop, padEnd) =>
        RunScale(node, items, c);
        StreamingFrames(node, scaled);
        r := RunFrameNode(input, size, hop, padEnd, scaled);
      case NativeMap(_, kernel, acceptsInvalid) =>
        RunScale(node, items, c);
        FaithfulScale(node, items, c);
        var output := RunMapNode(input, kernel, acceptsInvalid, scaled, node);
        r := Ok(output);
    }
  }

  // ----------------------------------------------------------------- graph

  function Duration(end: Option<Fraction>): Option<real>
    requires end.Some? ==> end.value.Valid()
  {
    if end.None? then None else Some(end.value.Real())
  }

  /** What port i carries under the boundary, in the streaming machine. */
  ghost function StreamOf(plan: Plan, duration: Option<real>, i: nat): seq<Item>
    requires WellFormed(plan) && i < |plan|
  {
    Snapshot(plan, duration, i).0
  }

  ghost predicate FaithfulPlan(plan: Plan, duration: Option<real>)
    requires WellFormed(plan)
  {
    forall i :: 0 <= i < |plan| && !plan[i].Source? ==> Faithful(plan[i], StreamOf(plan, duration, plan[i].input))
  }

  ghost predicate PunctualPlan(plan: Plan, duration: Option<real>) {
    forall i :: 0 <= i < |plan| && plan[i].Source? ==> Punctual(plan[i].items, duration)
  }

  /** Node i is accepted: everything it computes fits its type. */
  ghost predicate Accepted(
      plan: Plan, nodes: seq<NativeNode>, ingress: Ingress, duration: Option<real>, timebase: nat, i: nat)
    requires Represents(plan, nodes, ingress) && i < |plan| && timebase > 0
  {
    assert NodeRepresents(plan[i], nodes[i], ingress);
    if plan[i].Source? then ScaledFit(ingress.items, timebase / ingress.denominator)
    else NodeFits(nodes[i], StreamOf(plan, duration, plan[i].input), timebase)
  }

  /** The batch of port i is the stream of port i in ticks, with its gaps as segments. */
  ghost predicate BatchOf(plan: Plan, duration: Option<real>, timebase: nat, i: nat, batch: seq<TickItem>)
    requires WellFormed(plan) && i < |plan|
  {
    ValidBatch(batch) && Follows(ScaleItems(StreamOf(plan, duration, i), timebase as real), batch)
  }

  ghost predicate AcceptedUpTo(
      plan: Plan, nodes: seq<NativeNode>, ingress: Ingress, duration: Option<real>, timebase: nat, n: nat)
    requires Represents(plan, nodes, ingress) && n <= |plan| && timebase > 0
  {
    forall i :: 0 <= i < n ==> Accepted(plan, nodes, ingress, duration, timebase, i)
  }

  ghost predicate BatchesOf(plan: Plan, duration: Option<real>, timebase: nat, batches: seq<seq<TickItem>>)
    requires WellFormed(plan)
  {
    |batches| <= |plan| && forall i :: 0 <= i < |batches| ==> BatchOf(plan, duration, timebase, i, batches[i])
  }

  lemma OneMoreAccepted(
      plan: Plan, nodes: seq<NativeNode>, ingress: Ingress, duration: Option<real>, timebase: nat, n: nat)
    requires Represents(plan, nodes, ingress) && n < |plan| && timebase > 0
    ensures AcceptedUpTo(plan, nodes, ingress, duration, timebase, n + 1) <==>
            (AcceptedUpTo(plan, nodes, ingress, duration, timebase, n) &&
              Accepted(plan, nodes, ingress, duration, timebase, n))
    ensures AcceptedUpTo(plan, nodes, ingress, duration, timebase, |plan|) ==>
            Accepted(plan, nodes, ingress, duration, timebase, n)
  {
  }

  method RunSourceNode(
      ingress: Ingress, timebase: nat, boundary: Option<int>, ghost plan: Plan, ghost duration: Option<real>,
      ghost i: nat)
    returns (r: Result<seq<TickItem>>)
    requires WellFormed(plan) && i < |plan| && plan[i].Source? && ValidIngress(ingress) &&
             Punctual(plan[i].items, duration)
    requires PackedMeanings(ingress.items) == ScaleItems(plan[i].items, ingress.denominator as real)
    requires timebase > 0 && MultipleOf(timebase, ingress.denominator)
    requires duration.Some? <==> boundary.Some?
    requires duration.Some? ==> boundary.value as real == Times(duration.value, timebase as real)
    ensures r.Ok? <==> ScaledFit(ingress.items, timebase / ingress.denominator)
    ensures r.Ok? ==> BatchOf(plan, duration, timebase, i, r.value)
  {
    var scale := timebase / ingress.denominator;
    PeriodTicks(1, ingress.denominator, timebase);
    r := RunSource(ingress.items, scale, boundary);
    if r.Ok? {
      var n := AdmittedTicks(ingress.items, scale, boundary);
      AdmittedAgree(plan[i].items, ingress, scale, duration, boundary);
      PassingOverIsPrefixIff(ingress.items, scale, boundary);
      SourceUpTo(ingress.items, scale, n, r.value);
      SourceFollows(plan[i].items, ingress, scale, n, r.value);
    }
  }

  method RunInnerNode(
      native: NativeNode, input: seq<TickItem>, timebase: nat, ghost plan: Plan, ghost ingress: Ingress,
      ghost duration: Option<real>, ghost i: nat)
    returns (r: Result<seq<TickItem>>)
    requires WellFormed(plan) && i < |plan| && !plan[i].Source? && NodeRepresents(plan[i], native, ingress) &&
             timebase > 0
    requires native.NativeRate? ==> MultipleOf(timebase, native.denominator)
    requires Faithful(plan[i], StreamOf(plan, duration, plan[i].input)) &&
             BatchOf(plan, duration, timebase, plan[i].input, input)
    ensures r.Ok? <==> NodeFits(native, StreamOf(plan, duration, plan[i].input), timebase)
    ensures r.Ok? ==> BatchOf(plan, duration, timebase, i, r.value)
  {
    ghost var items := StreamOf(plan, duration, plan[i].input);
    r := RunNode(native, input, timebase, plan[i], items, ingress);
    assert Run(plan[i], items).1 + [] == Run(plan[i], items).1;
  }

  /** The boundary in ticks; without an end there is none. */
  method BoundaryTicks(end: Option<Fraction>, timebase: nat) returns (r: Result<Option<int>>)
    requires timebase > 0 && (end.Some? ==> end.value.Valid() && MultipleOf(timebase, end.value.denominator))
    ensures r.Ok? <==> (end.Some? ==> FitsI64(Product(end.value.numerator, timebase / end.value.denominator)))
    ensures r.Ok? ==> (r.value.Some? <==> Duration(end).Some?)
    ensures r.Ok? && end.Some? ==> r.value.value as real == Times(Duration(end).value, timebase as real)
  {
    if end.None? { return Ok(None); }
    PeriodTicks(end.value.numerator, end.value.denominator, timebase);
    var scaled := CheckedScale(end.value.numerator, timebase / end.value.denominator);
    if scaled.Err? { return Err(scaled.error); }
    r := Ok(Some(scaled.value));
  }

  /** The timebase is a multiple of every denominator that occurs in the run. */
  ghost predicate TimebaseFits(timebase: nat, nodes: seq<NativeNode>, ingress: Ingress) {
    && timebase > 0 && MultipleOf(timebase, ingress.denominator)
    && forall i :: 0 <= i < |nodes| && nodes[i].NativeRate? ==> MultipleOf(timebase, nodes[i].denominator)
  }

  /** Node i, once every earlier port has its batch. */
  method RunPort(
      nodes: seq<NativeNode>, ingress: Ingress, timebase: nat, boundary: Option<int>, batches: seq<seq<TickItem>>,
      ghost plan: Plan, ghost duration: Option<real>)
    returns (r: Result<seq<TickItem>>)
    requires Represents(plan, nodes, ingress) && PunctualPlan(plan, duration) && TimebaseFits(timebase, nodes, ingress)
    requires FaithfulPlan(plan, duration) && |batches| < |nodes|
    requires duration.Some? <==> boundary.Some?
    requires duration.Some? ==> boundary.value as real == Times(duration.value, timebase as real)
    requires BatchesOf(plan, duration, timebase, batches)
    ensures r.Ok? <==> Accepted(plan, nodes, ingress, duration, timebase, |batches|)
    ensures r.Ok? ==> BatchOf(plan, duration, timebase, |batches|, r.value)
  {
    var i := |batches|;
    assert NodeRepresents(plan[i], nodes[i], ingress);
    if nodes[i].NativeSource? {
      r := RunSourceNode(ingress, timebase, boundary, plan, duration, i);
    } else {
      assert plan[i].input == nodes[i].input && plan[i].input < i;
      r := RunInnerNode(nodes[i], batches[nodes[i].input], timebase, plan, ingress, duration, i);
    }
  }

  method RunPorts(
      nodes: seq<NativeNode>, ingress: Ingress, timebase: nat, boundary: Option<int>, ghost plan: Plan,
      ghost duration: Option<real>)
    returns (r: Result<seq<seq<TickItem>>>)
    requires Represents(plan, nodes, ingress) && PunctualPlan(plan, duration) && TimebaseFits(timebase, nodes, ingress)
    requires FaithfulPlan(plan, duration)
    requires duration.Some? <==> boundary.Some?
    requires duration.Some? ==> boundary.value as real == Times(duration.value, timebase as real)
    ensures r.Ok? <==> AcceptedUpTo(plan, nodes, ingress, duration, timebase, |plan|)
    ensures r.Ok? ==> |r.value| == |plan| && BatchesOf(plan, duration, timebase, r.value)
  {
    var batches: seq<seq<TickItem>> := [];
    for i := 0 to |nodes|
      invariant |batches| == i
      invariant AcceptedUpTo(plan, nodes, ingress, duration, timebase, i) &&
                BatchesOf(plan, duration, timebase, batches)
    {
      var batch := RunPort(nodes, ingress, timebase, boundary, batches, plan, duration);
      OneMoreAccepted(plan, nodes, ingress, duration, timebase, i);
      if batch.Err? { return Err(batch.error); }
      batches := batches + [batch.value];
    }
    r := Ok(batches);
  }

  /** Everything the run computes fits 64 bits, periods are positive and no frame pads. */
  ghost predicate GraphAccepts(plan: Plan, nodes: seq<NativeNode>, ingress: Ingress, end: Option<Fraction>)
    requires Represents(plan, nodes, ingress) && PositiveDenominators(nodes)
    requires end.Some? ==> end.value.Valid()
  {
    var t := RunTimebase(nodes, ingress.denominator, end);
    && t <= I64_MAX
    && (end.Some? ==> FitsI64(Product(end.value.numerator, t / end.value.denominator)))
    && AcceptedUpTo(plan, nodes, ingress, Duration(end), t, |plan|)
  }

  /** GraphRuntimeSession::run up to an exclusive logical end. It is refused exactly
      when a value would leave 64 bits, a period is not positive or a frame pads;
      otherwise every port's batch is, in ticks, what the streaming machine has
      published on that port when it stands quiet at the same boundary. */
  method RunGraph(nodes: seq<NativeNode>, ingress: Ingress, end: Option<Fraction>, ghost plan: Plan)
    returns (r: Result<seq<seq<TickItem>>>, timebase: int)
    requires Represents(plan, nodes, ingress) && PositiveDenominators(nodes)
    requires end.Some? ==> end.value.Valid() && end.value.denominator <= I64_MAX
    requires PunctualPlan(plan, Duration(end)) && FaithfulPlan(plan, Duration(end))
    ensures r.Ok? <==> GraphAccepts(plan, nodes, ingress, end)
    ensures r.Ok? ==> timebase == RunTimebase(nodes, ingress.denominator, end) && timebase > 0 && |r.value| == |plan|
    ensures r.Ok? ==> BatchesOf(plan, Duration(end), timebase, r.value)
  {
    timebase := 0;
    var common := CommonTimebase(nodes, ingress.denominator, end);
    if common.Err? { return Err(common.error), 0; }
    timebase := common.value;
    RunTimebaseCovers(nodes, ingress.denominator, end);
    var boundary := BoundaryTicks(end, timebase);
    if boundary.Err? { return Err(boundary.error), timebase; }
    r := RunPorts(nodes, ingress, timebase, boundary.value, plan, Duration(end));
  }
}
