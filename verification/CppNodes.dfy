/** The native batch evaluation of RATE and FRAME nodes: whole batches of items
    whose times are signed 64-bit ticks, with gaps recorded as segment numbers. */
module CppNodes {
  import opened Stream

  const I64_MAX: int := 0x7FFF_FFFF_FFFF_FFFF
  const I64_MIN: int := -0x8000_0000_0000_0000

  predicate FitsI64(x: int) { I64_MIN <= x <= I64_MAX }

  datatype Error = PositiveRatePeriod | TickOverflow | TimebaseOverflow | PositiveTimebase | FixedUnpaddedFrame
    | UnboundKernel | MapIslandOnly | PositiveDuration

  datatype Result<+T> = Ok(value: T) | Err(error: Error)

  /** One GraphItem. `marked`: an item of its provenance carries an INPUT_OVERRUN diagnostic. */
  datatype TickItem = TickItem(value: Value, start: int, end: int, status: Status, segment: int, marked: bool) {
    predicate Valid() { FitsI64(start) && FitsI64(end) }
  }

  /** Ticks fit, segments never decrease and none exceeds `segment`. */
  ghost predicate UpTo(batch: seq<TickItem>, segment: int)
    decreases |batch|
  {
    batch == [] ||
      var last := batch[|batch| - 1];
      last.Valid() && last.segment <= segment && UpTo(batch[..|batch| - 1], last.segment)
  }

  ghost predicate ValidBatch(batch: seq<TickItem>) {
    batch == [] || UpTo(batch, batch[|batch| - 1].segment)
  }

  lemma {:induction false} UpToAt(batch: seq<TickItem>, segment: int, k: nat)
    requires UpTo(batch, segment) && k < |batch|
    ensures batch[k].Valid() && batch[k].segment <= segment && UpTo(batch[..k], batch[k].segment)
    ensures k > 0 ==> batch[k - 1].segment <= batch[k].segment
    decreases |batch|
  {
    var n := |batch| - 1;
    if k < n {
      UpToAt(batch[..n], batch[n].segment, k);
      assert batch[..n][..k] == batch[..k];
    }
  }

  lemma {:induction false} UpToConcat(a: seq<TickItem>, b: seq<TickItem>, s: int, t: int)
    requires UpTo(a, s) && Within(b, t) && s <= t
    ensures UpTo(a + b, t)
    decreases |b|
  {
    if b == [] {
      assert a + b == a;
    } else {
      assert (a + b)[..|a + b| - 1] == a + b[..|b| - 1];
      UpToConcat(a, b[..|b| - 1], s, t);
    }
  }

  /** Every item of `batch` is valid and lies in segment `segment`. */
  ghost predicate Within(batch: seq<TickItem>, segment: int) {
    forall i :: 0 <= i < |batch| ==> batch[i].Valid() && batch[i].segment == segment
  }

  // ------------------------------------------ reading a batch as a stream

  /** What a native item is decoded to, its times still in ticks: the diagnostics are
      those of its provenance. */
  function AsItem(t: TickItem): Item {
    Item(t.value, t.start as real, t.end as real, t.status, t.marked)
  }

  function AsItems(batch: seq<TickItem>): seq<Item> {
    seq(|batch|, (i: nat) requires i < |batch| => AsItem(batch[i]))
  }

  function Segments(batch: seq<TickItem>): seq<int> {
    seq(|batch|, (i: nat) requires i < |batch| => batch[i].segment)
  }

  /** Gap flags sit exactly on the first item of every segment; the flag of the
      very first item makes no difference to any node. */
  ghost predicate Marks(items: seq<Item>, segments: seq<int>) {
    && |items| == |segments|
    && forall i :: 0 < i < |items| ==> (items[i].overrun <==> segments[i] != segments[i - 1])
  }

  /** The batch decodes to `items`, and its segments begin at their gaps. */
  ghost predicate Follows(items: seq<Item>, batch: seq<TickItem>) {
    items == AsItems(batch) && Marks(items, Segments(batch))
  }

  lemma FollowsAt(items: seq<Item>, batch: seq<TickItem>, k: nat)
    requires Follows(items, batch) && k < |items|
    ensures |items| == |batch| && items[k] == AsItem(batch[k])
    ensures k > 0 ==> (items[k].overrun <==> batch[k].segment != batch[k - 1].segment)
  {
    assert k > 0 ==> Segments(batch)[k - 1] == batch[k - 1].segment;
  }

  lemma AsItemsConcat(a: seq<TickItem>, b: seq<TickItem>)
    ensures AsItems(a + b) == AsItems(a) + AsItems(b)
  {
  }

  // ------------------------------------------------------------------ RATE

  /** No pending fire time ever leaves the 64-bit range. */
  ghost predicate FiresFit(items: seq<Item>, period: real)
    requires period > 0.0
    decreases |items|
  {
    items == [] || (FiresFit(items[..|items| - 1], period) && HoldNext(items, period).value <= I64_MAX as real)
  }

  lemma {:induction false} FiresFitPrefix(items: seq<Item>, period: real, k: nat)
    requires period > 0.0 && k <= |items| && FiresFit(items, period)
    ensures FiresFit(items[..k], period)
    decreases |items|
  {
    if k < |items| {
      FiresFitPrefix(items[..|items| - 1], period, k);
      assert items[..|items| - 1][..k] == items[..k];
    } else {
      assert items[..k] == items;
    }
  }

  function Repeat(segment: int, n: nat): seq<int> { seq(n, _ => segment) }

  /** The segments of what a HOLD node emits: each emission stays in its item's segment. */
  function HoldSegments(items: seq<Item>, segments: seq<int>, period: real): seq<int>
    requires period > 0.0 && |items| == |segments|
    decreases |items|
  {
    if items == [] then []
    else
      var n := |items| - 1;
      HoldSegments(items[..n], segments[..n], period)
      + Repeat(segments[n], FireCount(FirstFire(HoldNext(items[..n], period), items[n], period), items[n].end, period))
  }

  lemma HoldSnoc(items: seq<Item>, period: real, k: nat)
    requires period > 0.0 && k < |items|
    ensures var next, fire := HoldNext(items[..k], period), FirstFire(HoldNext(items[..k], period), items[k], period);
            && HoldNext(items[..k + 1], period) == Some(NextFire(next, items[k], period))
            && HoldRun(items[..k + 1], period) == HoldRun(items[..k], period) + HoldOutputs(items[k], fire, period)
  {
    assert items[..k + 1][..k] == items[..k];
  }

  /** Grid points in ticks. */
  function PointTicks(fire: int, period: int, k: nat): int {
    if k == 0 then fire else PointTicks(fire, period, k - 1) + period
  }

  lemma {:induction false} PointTicksIs(fire: int, period: int, k: nat)
    ensures PointTicks(fire, period, k) as real == Point(fire as real, period as real, k)
  {
    if k > 0 { PointTicksIs(fire, period, k - 1); }
  }

  lemma {:induction false} PointTicksGrow(fire: int, period: int, k: nat, n: nat)
    requires period > 0 && k <= n
    ensures PointTicks(fire, period, k) <= PointTicks(fire, period, n)
  {
    if k < n { PointTicksGrow(fire, period, k, n - 1); }
  }

  /** Stepping on the grid from point k: whether it lies before `bound`, and that
      the last point of the walk is no earlier than any on the way. */
  lemma GridStep(fire: int, bound: int, period: int, k: nat)
    requires period > 0 && k <= FireCount(fire as real, bound as real, period as real)
    ensures var n := FireCount(fire as real, bound as real, period as real);
            && (PointTicks(fire, period, k) < bound <==> k < n)
            && (k < n ==> Point(fire as real, period as real, n) >= PointTicks(fire, period, k + 1) as real)
            && (k == n ==> PointTicks(fire, period, k) as real == Point(fire as real, period as real, n))
  {
    var n := FireCount(fire as real, bound as real, period as real);
    FireCountMeans(fire as real, bound as real, period as real, k);
    PointTicksIs(fire, period, k);
    PointTicksIs(fire, period, n);
    if k < n { PointTicksGrow(fire, period, k + 1, n); }
  }

  /** `while (next_fire < bound)` without emitting: the aligned fire time, or overflow. */
  method AlignTicks(from: int, bound: int, period: int) returns (r: Result<int>)
    requires period > 0 && FitsI64(from) && FitsI64(bound) && FitsI64(period)
    ensures var aligned := Align(from as real, bound as real, period as real);
            if r.Ok? then FitsI64(r.value) && r.value as real == aligned else aligned > I64_MAX as real
  {
    var next := from;
    ghost var k: nat, n := 0, FireCount(from as real, bound as real, period as real);
    while next < bound
      invariant next == PointTicks(from, period, k) && FitsI64(next) && k <= n
      decreases bound - next
    {
      GridStep(from, bound, period, k);
      if next > I64_MAX - period { return Err(TickOverflow); }
      next := next + period;
      k := k + 1;
    }
    GridStep(from, bound, period, k);
    r := Ok(next);
  }

  function HeldTicks(item: TickItem, fire: int, period: int, k: nat): TickItem {
    item.(start := PointTicks(fire, period, k), end := PointTicks(fire, period, k) + period)
  }

  function HeldBatch(item: TickItem, fire: int, period: int, n: nat): seq<TickItem> {
    seq(n, (k: nat) => HeldTicks(item, fire, period, k))
  }

  lemma HeldBatchMeans(item: TickItem, fire: int, period: int, n: nat)
    requires period > 0 && n == FireCount(fire as real, item.end as real, period as real)
    ensures AsItems(HeldBatch(item, fire, period, n)) == HoldOutputs(AsItem(item), fire as real, period as real)
  {
    forall k: nat | k < n
      ensures AsItem(HeldTicks(item, fire, period, k)) == Held(AsItem(item), fire as real, period as real, k)
    {
      PointTicksIs(fire, period, k);
    }
  }

  /** `while (next_fire < item.end)`: one held item per fire time, or overflow. */
  method FireTicks(item: TickItem, fire: int, period: int) returns (r: Result<int>, out: seq<TickItem>)
    requires period > 0 && FitsI64(fire) && item.Valid() && FitsI64(period)
    ensures var next := Point(fire as real, period as real, FireCount(fire as real, item.end as real, period as real));
            if r.Ok? then FitsI64(r.value) && r.value as real == next else next > I64_MAX as real
    ensures r.Ok? ==> AsItems(out) == HoldOutputs(AsItem(item), fire as real, period as real)
    ensures r.Ok? ==> Within(out, item.segment)
  {
    var next := fire;
    out := [];
    ghost var k: nat, n := 0, FireCount(fire as real, item.end as real, period as real);
    while next < item.end
      invariant next == PointTicks(fire, period, k) && FitsI64(next) && k <= n
      invariant out == HeldBatch(item, fire, period, k) && Within(out, item.segment)
      decreases item.end - next
    {
      GridStep(fire, item.end, period, k);
      if next > I64_MAX - period { return Err(TickOverflow), []; }
      out := out + [item.(start := next, end := next + period)];
      next := next + period;
      k := k + 1;
    }
    GridStep(fire, item.end, period, k);
    HeldBatchMeans(item, fire, period, n);
    r := Ok(next);
  }

  /** The state of a HOLD node after the first k items: its pending fire time. */
  ghost predicate Pending(items: seq<Item>, period: real, k: nat, nextFire: int)
    requires period > 0.0 && k <= |items|
  {
    HoldNext(items[..k], period) == if k > 0 then Some(nextFire as real) else None
  }

  lemma SegmentsConcat(a: seq<TickItem>, b: seq<TickItem>)
    ensures Segments(a + b) == Segments(a) + Segments(b)
  {
  }

  /** ... and its segments. */
  lemma SegmentsGrow(
      items: seq<Item>, segments: seq<int>, period: real, k: nat, output: seq<TickItem>, more: seq<TickItem>)
    requires period > 0.0 && k < |items| == |segments|
    requires Segments(output) == HoldSegments(items[..k], segments[..k], period)
    requires Within(more, segments[k])
    requires |more| == FireCount(FirstFire(HoldNext(items[..k], period), items[k], period), items[k].end, period)
    ensures Segments(output + more) == HoldSegments(items[..k + 1], segments[..k + 1], period)
  {
    SegmentsConcat(output, more);
    assert Segments(more) == Repeat(segments[k], |more|);
    assert items[..k + 1][..k] == items[..k] && segments[..k + 1][..k] == segments[..k];
  }

  /** Firing item k from the right grid point extends the output and the pending time. */
  lemma HoldGrows(items: seq<Item>, period: real, k: nat, item: TickItem, output: seq<TickItem>, more: seq<TickItem>)
    requires period > 0.0 && k < |items| && items[k] == AsItem(item)
    requires AsItems(output) == HoldRun(items[..k], period)
    requires AsItems(more) ==
             HoldOutputs(AsItem(item), FirstFire(HoldNext(items[..k], period), items[k], period), period)
    ensures AsItems(output + more) == HoldRun(items[..k + 1], period)
  {
    HoldSnoc(items, period, k);
    AsItemsConcat(output, more);
  }

  /** What the loop body does with one item, once its grid point `from` is chosen. */
  method HoldItem(item: TickItem, from: int, period: int, ghost pending: Option<real>, ghost flagged: Item)
    returns (r: Result<int>, out: seq<TickItem>)
    requires period > 0 && FitsI64(period) && FitsI64(from) && item.Valid()
    requires flagged == AsItem(item)
    requires FirstFire(pending, flagged, period as real) == Align(from as real, item.start as real, period as real)
    ensures if r.Ok? then FitsI64(r.value) && r.value as real == NextFire(pending, flagged, period as real)
            else NextFire(pending, flagged, period as real) > I64_MAX as real
    ensures r.Ok? ==> Within(out, item.segment)
    ensures r.Ok? ==>
            AsItems(out) == HoldOutputs(AsItem(item), FirstFire(pending, flagged, period as real), period as real)
  {
    var aligned := AlignTicks(from, item.start, period);
    if aligned.Err? {
      var first := FirstFire(pending, flagged, period as real);
      PointsGrow(first, period as real, FireCount(first, flagged.end, period as real));
      return aligned, [];
    }
    r, out := FireTicks(item, aligned.value, period);
  }

  /** run_rate_node on ticks, policy HOLD. It accepts exactly the batches all of
      whose pending fire times fit 64 bits, and then computes the stream meaning. */
  method RunHoldNode(input: seq<TickItem>, period: int, ghost items: seq<Item>) returns (r: Result<seq<TickItem>>)
    requires ValidBatch(input) && Follows(items, input) && period > 0 && FitsI64(period)
    ensures r.Ok? <==> FiresFit(items, period as real)
    ensures r.Ok? ==> AsItems(r.value) == HoldRun(items, period as real) && ValidBatch(r.value)
    ensures r.Ok? ==> Segments(r.value) == HoldSegments(items, Segments(input), period as real)
  {
    var output: seq<TickItem> := [];
    var hasNextFire, nextFire, currentSegment := false, 0, -1;
    ghost var p := period as real;
    for k := 0 to |input|
      invariant (hasNextFire <==> k > 0) && FitsI64(nextFire)
      invariant k > 0 ==> currentSegment == input[k - 1].segment
      invariant Pending(items, p, k, nextFire)
      invariant FiresFit(items[..k], p)
      invariant AsItems(output) == HoldRun(items[..k], p)
      invariant Segments(output) == HoldSegments(items[..k], Segments(input)[..k], p)
      invariant if k > 0 then UpTo(output, currentSegment) else output == []
    {
      UpToAt(input, input[|input| - 1].segment, k);
      var item := input[k];
      ghost var pending, segment := nextFire, if k > 0 then currentSegment else item.segment;
      if !hasNextFire || item.segment != currentSegment {
        nextFire := item.start;
        hasNextFire := true;
        currentSegment := item.segment;
      }
      FollowsAt(items, input, k);
      HoldSnoc(items, p, k);
      var fired, more := HoldItem(item, nextFire, period, HoldNext(items[..k], p), items[k]);
      assert items[..k + 1][..k] == items[..k];
      if fired.Err? {
        if FiresFit(items, p) { FiresFitPrefix(items, p, k + 1); }
        return Err(fired.error);
      }
      HoldGrows(items, p, k, item, output, more);
      assert |more| == |AsItems(more)|;
      SegmentsGrow(items, Segments(input), p, k, output, more);
      UpToConcat(output, more, segment, item.segment);
      output := output + more;
      nextFire := fired.value;
    }
    assert items[..|input|] == items && Segments(input)[..|input|] == Segments(input);
    r := Ok(output);
  }

  lemma DivisionOfMultiple(k: int, period: int)
    requires period > 0
    ensures (k * period) % period == 0
    ensures (k * period) as real / period as real == k as real
  {
    assert (k * period) as real == k as real * period as real;
  }

  lemma MultipleInTicks(start: int, period: int)
    requires period > 0
    ensures IsMultiple(start as real, period as real) <==> start % period == 0
  {
    DivisionOfMultiple(start / period, period);
    assert start == (start / period) * period + start % period;
    var k := (start as real / period as real).Floor;
    DivisionOfMultiple(k, period);
    if IsMultiple(start as real, period as real) { QuotientTimesPeriod(start, period, k); }
  }

  lemma QuotientTimesPeriod(start: int, period: int, k: int)
    requires period > 0 && start as real / period as real == k as real
    ensures start == k * period
  {
    assert start as real == k as real * period as real;
    assert (k * period) as real == k as real * period as real;
  }

  lemma SampleSnoc(items: seq<Item>, period: real, k: nat)
    requires period > 0.0 && k < |items|
    ensures SampleRun(items[..k + 1], period) == SampleRun(items[..k], period) + SampleOutputs(items[k], period)
  {
    assert items[..k + 1][..k] == items[..k];
  }

  /** The segments of what a SAMPLE node emits. */
  function SampleSegments(items: seq<Item>, segments: seq<int>, period: real): seq<int>
    requires period > 0.0 && |items| == |segments|
    decreases |items|
  {
    if items == [] then []
    else
      var n := |items| - 1;
      SampleSegments(items[..n], segments[..n], period) + Repeat(segments[n], |SampleOutputs(items[n], period)|)
  }

  function Sampled(item: TickItem, period: real): seq<TickItem>
    requires period > 0.0
  {
    if IsMultiple(item.start as real, period) then [item] else []
  }

  lemma SampleGrows(items: seq<Item>, segments: seq<int>, period: real, k: nat, item: TickItem, output: seq<TickItem>)
    requires period > 0.0 && k < |items| == |segments|
    requires items[k] == AsItem(item) && segments[k] == item.segment
    requires AsItems(output) == SampleRun(items[..k], period)
    requires Segments(output) == SampleSegments(items[..k], segments[..k], period)
    ensures var more := output + Sampled(item, period);
            && AsItems(more) == SampleRun(items[..k + 1], period)
            && Segments(more) == SampleSegments(items[..k + 1], segments[..k + 1], period)
  {
    SampleSnoc(items, period, k);
    AsItemsConcat(output, Sampled(item, period));
    SegmentsConcat(output, Sampled(item, period));
    assert SampleOutputs(items[k], period) == AsItems(Sampled(item, period));
    assert items[..k + 1][..k] == items[..k] && segments[..k + 1][..k] == segments[..k];
    assert Segments(Sampled(item, period)) == Repeat(segments[k], |SampleOutputs(items[k], period)|);
  }

  /** run_rate_node on ticks, policy SAMPLE. */
  method RunSampleNode(input: seq<TickItem>, period: int, ghost items: seq<Item>) returns (output: seq<TickItem>)
    requires ValidBatch(input) && Follows(items, input) && period > 0
    ensures AsItems(output) == SampleRun(items, period as real) && ValidBatch(output)
    ensures Segments(output) == SampleSegments(items, Segments(input), period as real)
  {
    output := [];
    ghost var p := period as real;
    for k := 0 to |input|
      invariant |items| == |input|
      invariant AsItems(output) == SampleRun(items[..k], p)
      invariant Segments(output) == SampleSegments(items[..k], Segments(input)[..k], p)
      invariant if k > 0 then UpTo(output, input[k - 1].segment) else output == []
    {
      UpToAt(input, input[|input| - 1].segment, k);
      FollowsAt(items, input, k);
      MultipleInTicks(input[k].start, period);
      ghost var before := if k > 0 then input[k - 1].segment else input[k].segment;
      UpToConcat(output, Sampled(input[k], p), before, input[k].segment);
      SampleGrows(items, Segments(input), p, k, input[k], output);
      if input[k].start % period == 0 {
        output := output + [input[k]];
      } else {
        assert output + [] == output;
      }
    }
    assert items[..|input|] == items && Segments(input)[..|input|] == Segments(input);
  }

  // ----------------------------------------------------------------- FRAME

  lemma AnyGrows(items: seq<Item>, item: Item)
    ensures AnyOverrun(items + [item]) <==> AnyOverrun(items) || item.overrun
  {
    assert (items + [item])[|items|] == item;
    forall i | 0 <= i < |items| ensures (items + [item])[i] == items[i] { }
  }

  /** What run_frame_node builds from the items of one frame. */
  method BuildFrame(items: seq<TickItem>) returns (frame: TickItem)
    requires |items| > 0 && Within(items, items[0].segment)
    ensures frame.Valid() && frame.segment == items[0].segment
    ensures AsItem(frame) == MakeFrame(AsItems(items))
  {
    var values: seq<Value>, status, marked := [], OK, false;
    for i := 0 to |items|
      invariant values == Values(AsItems(items[..i]))
      invariant status == WorstStatus(AsItems(items[..i]))
      invariant marked <==> AnyOverrun(AsItems(items[..i]))
    {
      AsItemsConcat(items[..i], [items[i]]);
      assert items[..i + 1] == items[..i] + [items[i]];
      assert AsItems(items[..i + 1])[..i] == AsItems(items[..i]);
      values := values + [items[i].value];
      status := Worse(status, items[i].status);
      marked := marked || items[i].marked;
      AnyGrows(AsItems(items[..i]), AsItem(items[i]));
    }
    assert items[..|items|] == items;
    frame := TickItem(Tuple(values), items[0].start, items[|items| - 1].end, status, items[0].segment, marked);
  }

  lemma FramesAppend(items: seq<TickItem>, size: nat, hop: nat, j: nat, output: seq<TickItem>, frame: TickItem)
    requires size > 0 && hop > 0 && j < FrameCount(|items|, size, hop)
    requires AsItems(output) == Frames(AsItems(items), size, hop)[..j]
    requires Offset(j, hop) + size <= |items|
    requires AsItem(frame) == MakeFrame(AsItems(items[Offset(j, hop)..Offset(j, hop) + size]))
    ensures AsItems(output + [frame]) == Frames(AsItems(items), size, hop)[..j + 1]
  {
    var at := Offset(j, hop);
    AsItemsConcat(output, [frame]);
    assert AsItems(items[at..at + size]) == AsItems(items)[at..at + size];
    assert AsItems([frame]) == [AsItem(frame)];
    assert Frames(AsItems(items), size, hop)[..j + 1] ==
           Frames(AsItems(items), size, hop)[..j] + [FrameAt(AsItems(items), size, hop, j)];
  }

  /** The frames of one segment: offsets advance by hop while size items remain. */
  method RunSegment(items: seq<TickItem>, size: nat, hop: nat) returns (output: seq<TickItem>)
    requires size > 0 && hop > 0 && |items| > 0 && Within(items, items[0].segment)
    ensures Within(output, items[0].segment)
    ensures AsItems(output) == Frames(AsItems(items), size, hop)
  {
    output := [];
    var offset, n := 0, |items|;
    ghost var j: nat := 0;
    FrameCounted(n, size, hop, 0);
    while size <= n - offset
      invariant offset == Offset(j, hop) <= n
      invariant size <= n - offset <==> j < FrameCount(n, size, hop)
      invariant j <= FrameCount(n, size, hop)
      invariant Within(output, items[0].segment)
      invariant AsItems(output) == Frames(AsItems(items), size, hop)[..j]
      decreases n - offset
    {
      var frame := BuildFrame(items[offset..offset + size]);
      FramesAppend(items, size, hop, j, output, frame);
      output := output + [frame];
      j := j + 1;
      FrameCounted(n, size, hop, j);
      if hop > n - offset { break; }
      offset := offset + hop;
    }
    assert j == FrameCount(n, size, hop);
  }

  /** Of the frames of one segment only the first carries the gap flag. */
  lemma FrameFlags(items: seq<Item>, size: nat, hop: nat, j: nat)
    requires size > 0 && hop > 0 && j < FrameCount(|items|, size, hop)
    requires forall i :: 1 <= i < |items| ==> !items[i].overrun
    ensures Frames(items, size, hop)[j].overrun <==> j == 0 && items[0].overrun
  {
    FrameCounted(|items|, size, hop, j);
    var at := Offset(j, hop);
    if j > 0 { OffsetGrows(1, j, hop); }
    assert j == 0 ==> items[at..at + size][0] == items[0];
  }

  lemma FollowsConcat(a: seq<Item>, x: seq<TickItem>, s: int, b: seq<Item>, y: seq<TickItem>, t: int)
    requires Follows(a, x) && UpTo(x, s) && s < t
    requires b == AsItems(y) && Within(y, t)
    requires forall i :: 0 < i < |b| ==> !b[i].overrun
    requires |a| > 0 && |b| > 0 ==> b[0].overrun
    ensures Follows(a + b, x + y)
  {
    AsItemsConcat(x, y);
    SegmentsConcat(x, y);
    assert |b| == |AsItems(y)| == |y|;
    forall i | 0 < i < |a + b| ensures (a + b)[i].overrun <==> (x + y)[i].segment != (x + y)[i - 1].segment {
      if i < |a| { FollowsAt(a, x, i); }
    }
  }

  lemma FollowsSlice(items: seq<Item>, batch: seq<TickItem>, s: nat, e: nat)
    requires Follows(items, batch) && s <= e <= |batch|
    ensures items[s..e] == AsItems(batch[s..e])
  {
    assert |items| == |batch|;
  }

  /** The first segment of the rest of the batch ends where its number changes. */
  lemma SegmentEndIs(items: seq<Item>, batch: seq<TickItem>, s: nat, e: nat)
    requires Follows(items, batch) && s < e <= |batch|
    requires forall i :: s <= i < e ==> batch[i].segment == batch[s].segment
    requires e < |batch| ==> batch[e].segment != batch[s].segment
    ensures SegmentEnd(items[s..]) == e - s
    ensures forall i :: s < i < e ==> !items[i].overrun
  {
    forall i | s < i < e ensures !items[i].overrun {
      FollowsAt(items, batch, i);
      assert batch[i - 1].segment == batch[s].segment;
    }
    if e < |batch| { FollowsAt(items, batch, e); }
    assert e < |batch| ==> batch[e - 1].segment == batch[s].segment && items[e].overrun;
    SegmentEndUnique(items[s..], e - s);
  }

  lemma {:induction false} SegmentEndUnique(items: seq<Item>, e: nat)
    requires 1 <= e <= |items|
    requires forall i :: 1 <= i < e ==> !items[i].overrun
    requires e < |items| ==> items[e].overrun
    ensures SegmentEnd(items) == e
    decreases |items|
  {
    if e > 1 { SegmentEndUnique(items[1..], e - 1); }
  }

  lemma SegmentSlice(batch: seq<TickItem>, s: nat, e: nat)
    requires ValidBatch(batch) && s < e <= |batch|
    requires forall i :: s <= i < e ==> batch[i].segment == batch[s].segment
    ensures Within(batch[s..e], batch[s].segment)
    ensures e < |batch| ==> batch[e - 1].segment <= batch[e].segment
  {
    var last := batch[|batch| - 1].segment;
    forall i | s <= i < e ensures batch[i].Valid() { UpToAt(batch, last, i); }
    if e < |batch| { UpToAt(batch, last, e); }
  }

  lemma SegmentFlags(items: seq<Item>, size: nat, hop: nat)
    requires size > 0 && hop > 0 && |items| > 0
    requires forall i :: 1 <= i < |items| ==> !items[i].overrun
    ensures var frames := Frames(items, size, hop);
            && (forall i :: 0 < i < |frames| ==> !frames[i].overrun)
            && (|frames| > 0 ==> (frames[0].overrun <==> items[0].overrun))
  {
    var frames := Frames(items, size, hop);
    forall j: nat | j < |frames| ensures frames[j].overrun <==> j == 0 && items[0].overrun {
      FrameFlags(items, size, hop, j);
    }
  }

  /** `more` are the frames of the segment from s to e, which is where it ends. */
  ghost predicate IsSegment(
      items: seq<Item>, input: seq<TickItem>, s: nat, e: nat, size: nat, hop: nat, more: seq<TickItem>)
    requires size > 0 && hop > 0 && |items| == |input| && s < e <= |input|
  {
    var frames := Frames(items[s..e], size, hop);
    && SegmentedFrames(items[s..], size, hop) == frames + SegmentedFrames(items[e..], size, hop)
    && Within(more, input[s].segment) && frames == AsItems(more)
    && (forall i :: 0 < i < |frames| ==> !frames[i].overrun)
    && (|frames| > 0 && items[s].overrun ==> frames[0].overrun)
    && (e < |input| ==> input[s].segment < input[e].segment && items[e].overrun)
  }

  lemma SegmentUnrolls(items: seq<Item>, s: nat, e: nat, size: nat, hop: nat)
    requires size > 0 && hop > 0 && s < e <= |items| && SegmentEnd(items[s..]) == e - s
    ensures SegmentedFrames(items[s..], size, hop) ==
            Frames(items[s..e], size, hop) + SegmentedFrames(items[e..], size, hop)
  {
    assert items[s..][..e - s] == items[s..e] && items[s..][e - s..] == items[e..];
  }

  lemma SegmentsRise(items: seq<Item>, input: seq<TickItem>, s: nat, e: nat)
    requires ValidBatch(input) && Follows(items, input) && s < e < |input|
    requires input[e - 1].segment == input[s].segment != input[e].segment
    ensures input[s].segment < input[e].segment && items[e].overrun
  {
    UpToAt(input, input[|input| - 1].segment, e);
    FollowsAt(items, input, e);
  }

  lemma SegmentDone(items: seq<Item>, input: seq<TickItem>, s: nat, e: nat, size: nat, hop: nat, more: seq<TickItem>)
    requires ValidBatch(input) && Follows(items, input) && size > 0 && hop > 0 && s < e <= |input|
    requires forall i :: s <= i < e ==> input[i].segment == input[s].segment
    requires e < |input| ==> input[e].segment != input[s].segment
    requires Within(more, input[s].segment) && AsItems(more) == Frames(AsItems(input[s..e]), size, hop)
    ensures IsSegment(items, input, s, e, size, hop, more)
  {
    SegmentSlice(input, s, e);
    SegmentEndIs(items, input, s, e);
    FollowsSlice(items, input, s, e);
    SegmentFlags(items[s..e], size, hop);
    SegmentUnrolls(items, s, e, size, hop);
    if e < |input| {
      assert input[e - 1].segment == input[s].segment;
      SegmentsRise(items, input, s, e);
    }
  }

  /** One round of run_frame_node: the segment that starts at s, and its frames. */
  method RunNextSegment(input: seq<TickItem>, s: nat, size: nat, hop: nat, ghost items: seq<Item>)
    returns (e: nat, more: seq<TickItem>)
    requires ValidBatch(input) && Follows(items, input) && size > 0 && hop > 0 && s < |input|
    ensures s < e <= |input| && IsSegment(items, input, s, e, size, hop, more)
  {
    e := s + 1;
    while e < |input| && input[e].segment == input[s].segment
      invariant s < e <= |input|
      invariant forall i :: s <= i < e ==> input[i].segment == input[s].segment
    {
      e := e + 1;
    }
    SegmentSlice(input, s, e);
    more := RunSegment(input[s..e], size, hop);
    SegmentDone(items, input, s, e, size, hop, more);
  }

  /** run_frame_node. On every stream that follows the batch it computes what the
      streaming node computes, and the frames follow the segments again. */
  method RunFrameNode(input: seq<TickItem>, size: nat, hop: nat, padEnd: bool, ghost items: seq<Item>)
    returns (r: Result<seq<TickItem>>)
    requires ValidBatch(input) && Follows(items, input)
    ensures r.Ok? <==> size > 0 && hop > 0 && !padEnd
    ensures r.Ok? ==> Follows(SegmentedFrames(items, size, hop), r.value) && ValidBatch(r.value)
  {
    if size == 0 || hop == 0 || padEnd { return Err(FixedUnpaddedFrame); }
    var output: seq<TickItem>, s := [], 0;
    ghost var done: seq<Item>, segment := [], 0;
    assert items[0..] == items;
    while s < |input|
      invariant s <= |input|
      invariant done + SegmentedFrames(items[s..], size, hop) == SegmentedFrames(items, size, hop)
      invariant Follows(done, output) && UpTo(output, segment)
      invariant 0 < s < |input| ==> segment < input[s].segment && items[s].overrun
      invariant s == 0 ==> output == []
    {
      var e, more := RunNextSegment(input, s, size, hop, items);
      ghost var frames, now := Frames(items[s..e], size, hop), input[s].segment;
      ConcatAssociates(done, frames, SegmentedFrames(items[e..], size, hop));
      if s == 0 { segment := now - 1; }
      FollowsConcat(done, output, segment, frames, more, now);
      UpToConcat(output, more, segment, now);
      done, segment := done + frames, now;
      output := output + more;
      s := e;
    }
    assert done + [] == done;
    r := Ok(output);
  }

}
