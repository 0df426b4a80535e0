/** The static time grid: what compilation predicts about every port's intervals
    and about how much a node can emit at once, and that every run keeps it. */
module Grids {
  import opened Stream
  import opened Operators
  import opened Plans
  import opened CppNodes
  import opened Vectors
  import opened Scaling

  /** The interval length and the step of a port's items. */
  datatype Signature = Signature(length: real, step: real)

  function FrameSignature(signature: Signature, size: nat, hop: nat): Signature
    requires size > 0
  {
    Signature(signature.length + Times((size - 1) as real, signature.step), Times(hop as real, signature.step))
  }

  /** The signature of a node's port, from that of its input. */
  function NodeSignature(node: Node, input: Signature): Signature
    requires node.Valid()
  {
    match node
    case Source(_) => Signature(1.0, 1.0)
    case Map(_, _, _, _) => input
    case Frame(_, size, hop, _) => FrameSignature(input, size, hop)
    case Rate(_, period, SAMPLE) => Signature(input.length, period)
    case Rate(_, period, HOLD) => Signature(period, period)
  }

  function TimeSignature(plan: Plan, i: nat): Signature
    requires WellFormed(plan) && i < |plan|
    decreases i
  {
    if plan[i].Source? then Signature(1.0, 1.0) else NodeSignature(plan[i], TimeSignature(plan, plan[i].input))
  }

  /** _time_signature: one pass over the topologically ordered nodes. */
  method TimeSignatures(plan: Plan) returns (signatures: seq<Signature>)
    requires WellFormed(plan)
    ensures |signatures| == |plan| && forall i :: 0 <= i < |plan| ==> signatures[i] == TimeSignature(plan, i)
  {
    signatures := [];
    for k := 0 to |plan|
      invariant |signatures| == k && forall i :: 0 <= i < k ==> signatures[i] == TimeSignature(plan, i)
    {
      var value;
      match plan[k] {
        case Source(_) => value := Signature(1.0, 1.0);
        case Map(input, _, _, _) => value := signatures[input];
        case Frame(input, size, hop, _) =>
          value := Signature(signatures[input].length + Times((size - 1) as real, signatures[input].step),
                             Times(hop as real, signatures[input].step));
        case Rate(input, period, policy) =>
          value := Signature(if policy == SAMPLE then signatures[input].length else period, period);
      }
      signatures := signatures + [value];
    }
  }

  /** Item i of a port is [i * step, i * step + length), and no gap is reported. */
  ghost predicate OnGrid(items: seq<Item>, signature: Signature) {
    forall i :: 0 <= i < |items| ==>
      (items[i].start == Point(0.0, signature.step, i) && items[i].end == items[i].start + signature.length &&
        !items[i].overrun)
  }

  predicate Contiguous(signature: Signature) { signature.length == signature.step }

  // ------------------------------------------------------- the compile check

  /** The stream of port i consists of completed frames. */
  predicate ContainsFrame(plan: Plan, i: nat)
    requires WellFormed(plan) && i < |plan|
    decreases i
  {
    match plan[i]
    case Source(_) => false
    case Map(input, _, _, _) => ContainsFrame(plan, input)
    case Frame(_, _, _, _) => true
    case Rate(input, _, SAMPLE) => ContainsFrame(plan, input)
    case Rate(_, _, HOLD) => false
  }

  /** HOLD does not read frames, and a SAMPLE period is a multiple of the input's. */
  predicate NodeCompiles(plan: Plan, i: nat)
    requires WellFormed(plan) && i < |plan|
  {
    match plan[i]
    case Rate(input, _, HOLD) => !ContainsFrame(plan, input)
    case Rate(input, period, SAMPLE) =>
      var step := TimeSignature(plan, input).step;
      step > 0.0 && IsMultiple(period, step)
    case _ => true
  }

  ghost predicate WholeSteps(k: nat, period: real, step: real) { k > 0 && period == k as real * step }

  /** A SAMPLE compiles exactly when its period is so many whole steps of its input. */
  lemma SampleCompilesIff(plan: Plan, i: nat)
    requires WellFormed(plan) && i < |plan| && plan[i].Rate? && plan[i].policy == SAMPLE
    ensures NodeCompiles(plan, i) <==>
            exists k: nat :: WholeSteps(k, plan[i].period, TimeSignature(plan, plan[i].input).step)
  {
    var period, step := plan[i].period, TimeSignature(plan, plan[i].input).step;
    PositiveSignature(plan, plan[i].input);
    if NodeCompiles(plan, i) {
      var ratio := RatioOf(period, step);
      assert WholeSteps(ratio, period, step);
    }
    if k: nat :| WholeSteps(k, period, step) {
      assert period / step == k as real;
    }
  }

  predicate Compiles(plan: Plan)
    requires WellFormed(plan)
  {
    forall i :: 0 <= i < |plan| ==> NodeCompiles(plan, i)
  }

  /** _validate_rate_frame_boundaries, for plans in which every MAP preserves times. */
  method ValidateRateFrameBoundaries(plan: Plan) returns (accepted: bool)
    requires WellFormed(plan)
    ensures accepted <==> Compiles(plan)
  {
    var signatures := TimeSignatures(plan);
    var framed: seq<bool> := [];
    for k := 0 to |plan|
      invariant |framed| == k && forall i :: 0 <= i < k ==> framed[i] == ContainsFrame(plan, i)
      invariant forall i :: 0 <= i < k ==> NodeCompiles(plan, i)
    {
      var contains := false;
      match plan[k] {
        case Source(_) =>
        case Map(input, _, _, _) => contains := framed[input];
        case Frame(_, _, _, _) => contains := true;
        case Rate(input, period, policy) =>
          if policy == HOLD {
            if framed[input] {
              assert !NodeCompiles(plan, k);
              return false;
            }
          } else {
            PositiveSignature(plan, input);
            if !IsMultiple(period, signatures[input].step) {
              assert !NodeCompiles(plan, k);
              return false;
            }
            contains := framed[input];
          }
      }
      framed := framed + [contains];
    }
    accepted := true;
  }

  /** The inputs for which the grid is claimed: gap-free sources with unit intervals,
      and MAPs with one output per input. */
  ghost predicate UnitPlan(plan: Plan)
    requires WellFormed(plan)
  {
    forall i :: 0 <= i < |plan| ==> UnitNode(plan[i])
  }

  ghost predicate UnitNode(node: Node) {
    match node
    case Source(items) => OnGrid(items, Signature(1.0, 1.0))
    case Map(_, kernel, _, _) => OneRawOutput(kernel)
    case _ => true
  }

  /** `more` continues the grid behind item n. */
  ghost predicate Continues(more: seq<Item>, signature: Signature, n: nat) {
    forall k :: 0 <= k < |more| ==>
      (more[k].start == Point(0.0, signature.step, n + k) && more[k].end == more[k].start + signature.length &&
        !more[k].overrun)
  }

  lemma GridConcat(items: seq<Item>, more: seq<Item>, signature: Signature)
    requires OnGrid(items, signature) && Continues(more, signature, |items|)
    ensures OnGrid(items + more, signature)
  {
  }

  // ------------------------------------------------------------------ HOLD

  /** How many points of the grid 0, period, 2 * period, ... lie before t. */
  function Before(t: real, period: real): nat
    requires period > 0.0
  {
    FireCount(0.0, t, period)
  }

  lemma BeforeGrows(s: real, t: real, period: real)
    requires period > 0.0 && s <= t
    ensures Before(s, period) <= Before(t, period)
  {
    if Before(s, period) > 0 {
      FireCountMeans(0.0, s, period, Before(s, period) - 1);
      FireCountMeans(0.0, t, period, Before(s, period) - 1);
    }
  }

  /** From point m on, the first point not before t is point m or the first of all. */
  lemma CountFrom(m: nat, t: real, period: real)
    requires period > 0.0
    ensures FireCount(Point(0.0, period, m), t, period) == if m < Before(t, period) then Before(t, period) - m else 0
    ensures Align(Point(0.0, period, m), t, period) ==
            Point(0.0, period, if m < Before(t, period) then Before(t, period) else m)
  {
    var n := FireCount(Point(0.0, period, m), t, period);
    FireCountMeans(Point(0.0, period, m), t, period, n);
    PointAdd(0.0, period, m, n);
    FireCountMeans(0.0, t, period, m + n);
    if n > 0 {
      FireCountMeans(Point(0.0, period, m), t, period, n - 1);
      PointAdd(0.0, period, m, n - 1);
      FireCountMeans(0.0, t, period, m + n - 1);
    }
  }

  /** The end of the item before item n; before the first one there is nothing. */
  function EndBefore(signature: Signature, n: nat): real {
    if n == 0 then 0.0 else Point(0.0, signature.step, n - 1) + signature.length
  }

  /** The first grid point that item n fires, unless none lies within it. */
  function FirstIndex(signature: Signature, period: real, n: nat): nat
    requires period > 0.0
  {
    var pending, start := Before(EndBefore(signature, n), period), Before(Point(0.0, signature.step, n), period);
    if pending < start then start else pending
  }

  /** A grid point lies between items n and n + 1: nobody fires it. */
  predicate Missed(signature: Signature, period: real, n: nat)
    requires period > 0.0
  {
    Before(EndBefore(signature, n + 1), period) < Before(Point(0.0, signature.step, n + 1), period)
  }

  /** A grid point lies within item n. */
  predicate Hit(signature: Signature, period: real, n: nat)
    requires period > 0.0
  {
    Before(Point(0.0, signature.step, n), period) < Before(EndBefore(signature, n + 1), period)
  }

  /** Behind a missed grid point no item fires any more. */
  ghost predicate HoldFits(signature: Signature, period: real, n: nat)
    requires period > 0.0
  {
    forall i, k :: 0 <= i < k < n && Missed(signature, period, i) ==> !Hit(signature, period, k)
  }

  ghost predicate NoneMissed(signature: Signature, period: real, n: nat)
    requires period > 0.0
  {
    forall i :: 0 <= i && i + 1 < n ==> !Missed(signature, period, i)
  }

  lemma PointStep(step: real, n: nat)
    ensures Point(0.0, step, n + 1) == Point(0.0, step, n) + step
  {
  }

  /** The pending fire time is the first grid point not before the end of the last item. */
  lemma {:induction false} HoldPending(items: seq<Item>, signature: Signature, period: real)
    requires period > 0.0 && OnGrid(items, signature) && signature.length > 0.0 && signature.step > 0.0
    ensures HoldNext(items, period) == if items == [] then None
            else Some(Point(0.0, period, Before(EndBefore(signature, |items|), period)))
    decreases |items|
  {
    if items != [] {
      var n := |items| - 1;
      HoldPending(items[..n], signature, period);
      HoldFirst(items, signature, period, n);
      var first, last := FirstIndex(signature, period, n), items[n];
      CountFrom(first, last.end, period);
      FirstIsNoLater(signature, period, n);
    }
  }

  lemma FirstIsNoLater(signature: Signature, period: real, n: nat)
    requires period > 0.0 && signature.length > 0.0 && signature.step > 0.0
    ensures FirstIndex(signature, period, n) <= Before(EndBefore(signature, n + 1), period)
  {
    BeforeGrows(Point(0.0, signature.step, n), EndBefore(signature, n + 1), period);
    if n > 0 {
      PointStep(signature.step, n - 1);
    } else {
      assert Point(0.0, signature.step, 0) == 0.0;
    }
    BeforeGrows(EndBefore(signature, n), EndBefore(signature, n + 1), period);
  }

  /** ... so item n fires from its first index on. */
  lemma HoldFirst(items: seq<Item>, signature: Signature, period: real, n: nat)
    requires period > 0.0 && OnGrid(items, signature) && n < |items|
    requires HoldNext(items[..n], period) == if n == 0 then None
             else Some(Point(0.0, period, Before(EndBefore(signature, n), period)))
    ensures FirstFire(HoldNext(items[..n], period), items[n], period) ==
            Point(0.0, period, FirstIndex(signature, period, n))
  {
    CountFrom(Before(EndBefore(signature, n), period), items[n].start, period);
    if n == 0 { assert items[0].start == 0.0 && Before(0.0, period) == 0; }
  }

  lemma {:induction false} PointsRise(period: real, i: nat, j: nat)
    requires period > 0.0 && i < j
    ensures Point(0.0, period, i) < Point(0.0, period, j)
    decreases j
  {
    if i < j - 1 { PointsRise(period, i, j - 1); }
  }

  /** What item n emits continues the grid exactly when it starts at index m. */
  lemma HeldContinues(item: Item, period: real, first: nat, m: nat)
    requires period > 0.0 && !item.overrun
    ensures var out := HoldOutputs(item, Point(0.0, period, first), period);
            && |out| == (if first < Before(item.end, period) then Before(item.end, period) - first else 0)
            && (Continues(out, Signature(period, period), m) <==> out == [] || first == m)
  {
    var out := HoldOutputs(item, Point(0.0, period, first), period);
    CountFrom(first, item.end, period);
    forall k: nat | k < |out| ensures out[k].start == Point(0.0, period, first + k) { PointAdd(0.0, period, first, k); }
    if out != [] && Continues(out, Signature(period, period), m) {
      assert out[0].start == Point(0.0, period, m + 0);
      if first < m { PointsRise(period, first, m); } else if m < first { PointsRise(period, m, first); }
    }
  }

  lemma GridSplits(items: seq<Item>, more: seq<Item>, signature: Signature)
    ensures OnGrid(items + more, signature) <==> OnGrid(items, signature) && Continues(more, signature, |items|)
  {
    var all := items + more;
    if OnGrid(all, signature) {
      forall i | 0 <= i < |items| ensures all[i] == items[i] { }
      forall k | 0 <= k < |more| ensures all[|items| + k] == more[k] { }
    }
  }

  /** Item n, behind |out| emissions, keeps the grid exactly when it fires nothing or
      nothing was missed so far. */
  lemma HoldStepIff(out: seq<Item>, item: Item, signature: Signature, period: real, n: nat)
    requires period > 0.0 && signature.length > 0.0 && signature.step > 0.0
    requires !item.overrun && item.end == EndBefore(signature, n + 1)
    requires |out| <= Before(EndBefore(signature, n), period)
    requires |out| == Before(EndBefore(signature, n), period) <==> NoneMissed(signature, period, n)
    ensures var more := out + HoldOutputs(item, Point(0.0, period, FirstIndex(signature, period, n)), period);
            && (OnGrid(more, Signature(period, period)) <==>
                OnGrid(out, Signature(period, period)) &&
                  (NoneMissed(signature, period, n + 1) || !Hit(signature, period, n)))
            && |more| <= Before(item.end, period)
            && (|more| == Before(item.end, period) <==> NoneMissed(signature, period, n + 1))
  {
    var first := FirstIndex(signature, period, n);
    FirstIsNoLater(signature, period, n);
    HeldContinues(item, period, first, |out|);
    GridSplits(out, HoldOutputs(item, Point(0.0, period, first), period), Signature(period, period));
    NoneMissedStep(signature, period, n);
    if !NoneMissed(signature, period, n + 1) { MissedIsApart(signature, period, n); }
  }

  lemma NoneMissedStep(signature: Signature, period: real, n: nat)
    requires period > 0.0
    ensures NoneMissed(signature, period, n + 1) <==>
            NoneMissed(signature, period, n) &&
              FirstIndex(signature, period, n) == Before(EndBefore(signature, n), period)
  {
    if n == 0 {
      assert Point(0.0, signature.step, 0) == 0.0 && Before(0.0, period) == 0;
    } else {
      assert Missed(signature, period, n - 1) <==>
             FirstIndex(signature, period, n) != Before(EndBefore(signature, n), period);
    }
  }

  /** A missed point means that items lie apart, so that each fires from its own start. */
  lemma MissedIsApart(signature: Signature, period: real, n: nat)
    requires period > 0.0 && signature.step > 0.0 && !NoneMissed(signature, period, n + 1)
    ensures FirstIndex(signature, period, n) == Before(Point(0.0, signature.step, n), period)
  {
    var i :| 0 <= i && i + 1 < n + 1 && Missed(signature, period, i);
    PointStep(signature.step, i);
    if signature.length >= signature.step {
      BeforeGrows(Point(0.0, signature.step, i + 1), EndBefore(signature, i + 1), period);
    }
    if n > 0 {
      PointStep(signature.step, n - 1);
      BeforeGrows(EndBefore(signature, n), Point(0.0, signature.step, n), period);
    }
  }

  lemma HoldFitsStep(signature: Signature, period: real, n: nat)
    requires period > 0.0
    ensures HoldFits(signature, period, n + 1) <==>
            HoldFits(signature, period, n) && (NoneMissed(signature, period, n + 1) || !Hit(signature, period, n))
  {
    if HoldFits(signature, period, n + 1) && !NoneMissed(signature, period, n + 1) {
      var i :| 0 <= i && i + 1 < n + 1 && Missed(signature, period, i);
      assert 0 <= i < n;
    }
  }

  lemma {:induction false} HoldCounted(items: seq<Item>, signature: Signature, period: real)
    requires period > 0.0 && OnGrid(items, signature) && signature.length > 0.0 && signature.step > 0.0
    ensures var out, due := HoldRun(items, period), Before(EndBefore(signature, |items|), period);
            && |out| <= due && (|out| == due <==> NoneMissed(signature, period, |items|))
            && (OnGrid(out, Signature(period, period)) <==> HoldFits(signature, period, |items|))
    decreases |items|
  {
    if items != [] {
      var n := |items| - 1;
      HoldCounted(items[..n], signature, period);
      HoldPending(items[..n], signature, period);
      HoldFirst(items, signature, period, n);
      HoldStepIff(HoldRun(items[..n], period), items[n], signature, period, n);
      HoldFitsStep(signature, period, n);
    }
  }

  /** HOLD on a grid: the port is on its own grid exactly when no grid point falls
      between two items, unless no item behind it meets a grid point. */
  lemma HoldOnGridIff(items: seq<Item>, signature: Signature, period: real)
    requires period > 0.0 && OnGrid(items, signature) && signature.length > 0.0 && signature.step > 0.0
    ensures OnGrid(HoldRun(items, period), Signature(period, period)) <==> HoldFits(signature, period, |items|)
  {
    HoldCounted(items, signature, period);
  }

  /** Items without holes, or one per period, meet that condition for every length. */
  lemma HoldFitsAlways(signature: Signature, period: real, n: nat)
    requires period > 0.0 && signature.length > 0.0 && signature.step > 0.0
    requires signature.length >= signature.step || period == signature.step
    ensures HoldFits(signature, period, n)
  {
    forall i: nat | i < n ensures !Missed(signature, period, i) {
      PointStep(signature.step, i);
      if signature.length >= signature.step {
        BeforeGrows(Point(0.0, signature.step, i + 1), EndBefore(signature, i + 1), period);
      } else {
        FireCountMeans(0.0, EndBefore(signature, i + 1), period, i);
        FireCountMeans(0.0, Point(0.0, period, i + 1), period, i + 1);
      }
    }
  }

  // ---------------------------------------------------------------- SAMPLE

  lemma SampledAt(n: nat, step: real, ratio: nat, period: real)
    requires step > 0.0 && ratio > 0 && period == Times(ratio as real, step)
    ensures period > 0.0 && (IsMultiple(Point(0.0, step, n), period) <==> n % ratio == 0)
  {
    PointIs(0.0, step, n);
    assert Point(0.0, step, n) == Times(n as real, step);
    QuotientScale(n as real, ratio as real, step);
    MultipleInTicks(n, ratio);
  }

  /** Every ratio-th item is sampled. */
  lemma {:induction false} SampleGrid(items: seq<Item>, signature: Signature, ratio: nat, period: real)
    requires OnGrid(items, signature) && signature.step > 0.0 && ratio > 0 &&
             period == Times(ratio as real, signature.step) && period > 0.0
    ensures OnGrid(SampleRun(items, period), Signature(signature.length, period))
    ensures var m := |SampleRun(items, period)|;
            Offset(m, ratio) >= |items| && (m > 0 ==> Offset(m - 1, ratio) < |items|)
    decreases |items|
  {
    if items != [] {
      var n := |items| - 1;
      SampleGrid(items[..n], signature, ratio, period);
      SampleGrowsOnGrid(SampleRun(items[..n], period), items[n], n, signature, ratio, period);
    }
  }

  lemma SampleGrowsOnGrid(out: seq<Item>, item: Item, n: nat, signature: Signature, ratio: nat, period: real)
    requires signature.step > 0.0 && ratio > 0 && period == Times(ratio as real, signature.step) && period > 0.0
    requires item.start == Point(0.0, signature.step, n) && item.end == item.start + signature.length && !item.overrun
    requires OnGrid(out, Signature(signature.length, period))
    requires Offset(|out|, ratio) >= n && (|out| > 0 ==> Offset(|out| - 1, ratio) < n)
    ensures var all := out + SampleOutputs(item, period);
            && OnGrid(all, Signature(signature.length, period))
            && Offset(|all|, ratio) >= n + 1 && (|all| > 0 ==> Offset(|all| - 1, ratio) < n + 1)
  {
    SampledAt(n, signature.step, ratio, period);
    MultipleBetween(n, |out|, ratio);
    if n % ratio == 0 { SampleContinues(item, signature, ratio, period, |out|); }
    GridConcat(out, SampleOutputs(item, period), Signature(signature.length, period));
  }

  lemma SampleContinues(item: Item, signature: Signature, ratio: nat, period: real, m: nat)
    requires period == Times(ratio as real, signature.step)
    requires item.start == Point(0.0, signature.step, Offset(m, ratio)) && item.end == item.start + signature.length &&
             !item.overrun
    ensures Continues([item], Signature(signature.length, period), m)
  {
    PointOffset(signature.step, ratio, m, 0);
  }

  /** n, with (m - 1) * ratio < n <= m * ratio, is a multiple exactly when it is the upper bound. */
  lemma MultipleBetween(n: nat, m: nat, ratio: nat)
    requires ratio > 0 && n <= Offset(m, ratio) && (m > 0 ==> Offset(m - 1, ratio) < n)
    ensures n % ratio == 0 <==> n == Offset(m, ratio)
  {
    OffsetIs(m, ratio);
    if m > 0 { OffsetIs(m - 1, ratio); }
    DivisionOfMultiple(m, ratio);
    if n % ratio == 0 {
      var q := n / ratio;
      assert n == q * ratio;
      if q > m { Multiply(m + 1, q, ratio); }
      if q < m { Multiply(q, m - 1, ratio); }
    }
  }

  // ----------------------------------------------------------------- FRAME

  /** Point j * hop + k of a grid, on the grid of every hop-th point. */
  lemma {:induction false} PointOffset(step: real, hop: nat, j: nat, k: nat)
    ensures Point(0.0, step, Offset(j, hop) + k) == Point(0.0, Times(hop as real, step), j) + Times(k as real, step)
    decreases j
  {
    if j == 0 {
      PointIs(0.0, step, k);
    } else {
      PointOffset(step, hop, j - 1, hop + k);
      assert Offset(j, hop) + k == Offset(j - 1, hop) + (hop + k);
      TimesSum(hop as real, k as real, step);
    }
  }

  lemma SliceOnGrid(items: seq<Item>, signature: Signature, from: nat, i: nat)
    requires OnGrid(items, signature) && from + i < |items|
    ensures var item := items[from..][i];
            item.start == Point(0.0, signature.step, from + i) && item.end == item.start + signature.length &&
              !item.overrun
  {
    assert items[from..][i] == items[from + i];
  }

  /** A frame of `size` items from offset j * hop on. */
  lemma FrameOnGrid(items: seq<Item>, signature: Signature, size: nat, hop: nat, j: nat)
    requires OnGrid(items, signature) && size > 0 && Offset(j, hop) + size <= |items|
    ensures Continues([FrameAt(items, size, hop, j)], FrameSignature(signature, size, hop), j)
  {
    PointOffset(signature.step, hop, j, 0);
    PointOffset(signature.step, hop, j, size - 1);
    var at := Offset(j, hop);
    var held := items[at..at + size];
    forall i | 0 <= i < size ensures !held[i].overrun { assert held[i] == items[at + i]; }
    assert held[0] == items[at] && held[size - 1] == items[at + size - 1];
  }

  /** The end of the last padding slot, and the end that the signature predicts. */
  lemma PaddingEnds(last: Item, signature: Signature, count: nat, size: nat)
    requires 0 < count < size && last.end == last.start + signature.length
    ensures PaddingItem(last, size - count - 1).end ==
            last.start + signature.length + Times((size - count) as real, signature.length)
    ensures Times((size - 1) as real, signature.step) ==
            Times((count - 1) as real, signature.step) + Times((size - count) as real, signature.step)
  {
    var k, duration := (size - count - 1) as real, last.end - last.start;
    TimesSum(k, 1.0, signature.length);
    assert k * duration == Times(k, signature.length);
    assert k + 1.0 == (size - count) as real;
    TimesSum((count - 1) as real, (size - count) as real, signature.step);
    assert (count - 1) as real + (size - count) as real == (size - 1) as real;
  }

  lemma TimesSame(n: nat, x: real, y: real)
    requires n > 0
    ensures Times(n as real, x) == Times(n as real, y) <==> x == y
  {
    assert Times(n as real, x) == Times(x, n as real) && Times(n as real, y) == Times(y, n as real);
    TimesOrder(x, y, n as real);
    TimesOrder(y, x, n as real);
  }

  lemma PaddedEnds(items: seq<Item>, signature: Signature, from: nat, size: nat)
    requires OnGrid(items, signature) && from < |items| < from + size
    ensures var frame, count := MakeFrame(Padded(items[from..], size)), |items| - from;
            && frame.start == items[from].start && !frame.overrun
            && frame.end == items[|items| - 1].start + signature.length +
              Times((size - count) as real, signature.length)
  {
    var held, count := items[from..], |items| - from;
    PaddingEnds(held[count - 1], signature, count, size);
    assert Padded(held, size)[0] == held[0];
    assert Padded(held, size)[size - 1] == PaddingItem(held[count - 1], size - count - 1);
    forall i | 0 <= i < size ensures !Padded(held, size)[i].overrun {
      if i < |held| { SliceOnGrid(items, signature, from, i); }
    }
  }

  /** The padded last frame is where the next full frame would be exactly when the
      input has no holes and no overlap. */
  lemma PaddedOnGridIff(items: seq<Item>, signature: Signature, size: nat, hop: nat, c: nat)
    requires OnGrid(items, signature) && size > 0 && Offset(c, hop) < |items| < Offset(c, hop) + size
    ensures Continues([MakeFrame(Padded(items[Offset(c, hop)..], size))], FrameSignature(signature, size, hop), c) <==>
            Contiguous(signature)
  {
    var from := Offset(c, hop);
    var frame, count, expected :=
      MakeFrame(Padded(items[from..], size)), |items| - from, FrameSignature(signature, size, hop);
    PaddedEnds(items, signature, from, size);
    PaddingEnds(items[|items| - 1], signature, count, size);
    PointOffset(signature.step, hop, c, 0);
    PointOffset(signature.step, hop, c, count - 1);
    TimesSame(size - count, signature.length, signature.step);
    assert [frame][0].start == Point(0.0, expected.step, c);
    assert [frame][0].end == [frame][0].start + expected.length <==> Contiguous(signature);
  }

  lemma FramesOnGrid(frames: seq<Item>, signature: Signature)
    requires forall j: nat :: j < |frames| ==> Continues([frames[j]], signature, j)
    ensures OnGrid(frames, signature)
  {
    forall j: nat | j < |frames|
      ensures frames[j].start == Point(0.0, signature.step, j) && frames[j].end == frames[j].start + signature.length &&
              !frames[j].overrun
    {
      assert Continues([frames[j]], signature, j) && [frames[j]][0] == frames[j];
    }
  }

  /** A FRAME node pads the last of n items. */
  predicate Pads(node: Node, n: nat)
    requires node.Frame? && node.Valid()
  {
    node.padEnd && Offset(FrameCount(n, node.size, node.hop), node.hop) < n
  }

  /** FRAME on a grid: the port is on its own grid exactly when nothing is padded, or
      the input is contiguous. */
  lemma FrameOnGridIff(node: Node, items: seq<Item>, signature: Signature)
    requires node.Frame? && node.Valid() && OnGrid(items, signature)
    ensures OnGrid(Denote(node, items), FrameSignature(signature, node.size, node.hop)) <==>
            !Pads(node, |items|) || Contiguous(signature)
  {
    var size, hop := node.size, node.hop;
    var c := FrameCount(|items|, size, hop);
    GapFreeFrames(node, items);
    FrameCounted(|items|, size, hop, c);
    forall j: nat | j < c ensures Continues([Frames(items, size, hop)[j]], FrameSignature(signature, size, hop), j) {
      FrameCounted(|items|, size, hop, j);
      FrameOnGrid(items, signature, size, hop, j);
    }
    FramesOnGrid(Frames(items, size, hop), FrameSignature(signature, size, hop));
    if Pads(node, |items|) {
      var padded := MakeFrame(Padded(items[Offset(c, hop)..], size));
      assert Denote(node, items) == Frames(items, size, hop) + [padded];
      PaddedOnGridIff(items, signature, size, hop, c);
      GridSplits(Frames(items, size, hop), [padded], FrameSignature(signature, size, hop));
    } else {
      assert Denote(node, items) == Frames(items, size, hop) + [];
    }
  }

  // ------------------------------------------------------------------- MAP

  lemma {:induction false} MapGrid(node: Node, items: seq<Item>, signature: Signature)
    requires node.Map? && OneRawOutput(node.kernel) && OnGrid(items, signature)
    ensures OnGrid(Run(node, items).1, signature) && |Run(node, items).1| == |items|
    decreases |items|
  {
    if items != [] {
      var n := |items| - 1;
      MapGrid(node, items[..n], signature);
      RunSnoc(node, items);
      OneMapOutput(node, Run(node, items[..n]).0.seen, items[n]);
    }
  }

  // ----------------------------------------------------------------- plans

  lemma RatioOf(period: real, step: real) returns (ratio: nat)
    requires step > 0.0 && period > 0.0 && IsMultiple(period, step)
    ensures ratio > 0 && period == Times(ratio as real, step)
  {
    var x := period / step;
    assert x * step == period;
    TimesOrder(x, 0.0, step);
    ratio := x.Floor;
  }

  lemma {:induction false} PositiveSignature(plan: Plan, i: nat)
    requires WellFormed(plan) && i < |plan|
    ensures TimeSignature(plan, i).length > 0.0 && TimeSignature(plan, i).step > 0.0
    decreases i
  {
    match plan[i]
    case Source(_) =>
    case Map(input, _, _, _) => PositiveSignature(plan, input);
    case Frame(input, size, hop, _) =>
      PositiveSignature(plan, input);
      TimesPositive(hop as real, TimeSignature(plan, input).step);
      TimesPositive((size - 1) as real, TimeSignature(plan, input).step);
    case Rate(input, _, _) => PositiveSignature(plan, input);
  }

  /** What a node needs of a gridded input of n items to stay on its own grid. */
  ghost predicate NodeFits(node: Node, signature: Signature, n: nat)
    requires node.Valid()
  {
    match node
    case Rate(_, period, HOLD) => HoldFits(signature, period, n)
    case Frame(_, _, _, _) => !Pads(node, n) || Contiguous(signature)
    case _ => true
  }

  /** Of a port on its grid: the node's own stream is on its grid exactly when it fits. */
  lemma NodeOnGridIff(node: Node, items: seq<Item>, signature: Signature)
    requires node.Valid() && !node.Source? && UnitNode(node) && OnGrid(items, signature)
    requires signature.length > 0.0 && signature.step > 0.0
    requires node.Rate? && node.policy == SAMPLE ==> IsMultiple(node.period, signature.step)
    ensures OnGrid(Denote(node, items), NodeSignature(node, signature)) <==> NodeFits(node, signature, |items|)
  {
    match node {
      case Map(_, _, _, _) =>
        MapGrid(node, items, signature);
        assert Denote(node, items) == Run(node, items).1 + [] == Run(node, items).1;
      case Frame(_, _, _, _) => FrameOnGridIff(node, items, signature);
      case Rate(_, period, policy) =>
        RateRun(node, items);
        assert Denote(node, items) == Run(node, items).1 + [] == Run(node, items).1;
        if policy == SAMPLE {
          var ratio := RatioOf(period, signature.step);
          SampleGrid(items, signature, ratio, period);
        } else {
          HoldOnGridIff(items, signature, period);
        }
    }
  }

  lemma PortOnGridIff(plan: Plan, i: nat)
    requires WellFormed(plan) && UnitPlan(plan) && Compiles(plan) && i < |plan| && !plan[i].Source?
    requires PortOnGrid(plan, plan[i].input)
    ensures PortOnGrid(plan, i) <==> Fit(plan, i)
  {
    assert UnitNode(plan[i]) && NodeCompiles(plan, i);
    PositiveSignature(plan, plan[i].input);
    NodeOnGridIff(plan[i], Denotation(plan, plan[i].input), TimeSignature(plan, plan[i].input));
  }

  /** Node i fits the stream it reads. */
  ghost predicate Fit(plan: Plan, i: nat)
    requires WellFormed(plan) && i < |plan|
  {
    plan[i].Source? ||
    NodeFits(plan[i], TimeSignature(plan, plan[i].input), |Denotation(plan, plan[i].input)|)
  }

  ghost predicate FitPlan(plan: Plan)
    requires WellFormed(plan)
  {
    forall i :: 0 <= i < |plan| ==> Fit(plan, i)
  }

  /** Static grid soundness: every port's whole stream lies on its signature's grid. */
  lemma {:induction false} GridIsKept(plan: Plan, i: nat)
    requires WellFormed(plan) && UnitPlan(plan) && Compiles(plan) && FitPlan(plan) && i < |plan|
    ensures OnGrid(Denotation(plan, i), TimeSignature(plan, i))
    decreases i
  {
    assert UnitNode(plan[i]) && Fit(plan, i);
    if !plan[i].Source? {
      GridIsKept(plan, plan[i].input);
      PortOnGridIff(plan, i);
    }
  }

  ghost predicate PortOnGrid(plan: Plan, i: nat)
    requires WellFormed(plan) && i < |plan|
  {
    OnGrid(Denotation(plan, i), TimeSignature(plan, i))
  }

  /** Of the plans that compile, exactly the fitting ones keep the grid on every port. */
  lemma GridIsKeptIff(plan: Plan)
    requires WellFormed(plan) && UnitPlan(plan) && Compiles(plan)
    ensures (forall i :: 0 <= i < |plan| ==> PortOnGrid(plan, i)) <==> FitPlan(plan)
  {
    if FitPlan(plan) {
      forall i | 0 <= i < |plan| ensures PortOnGrid(plan, i) { GridIsKept(plan, i); }
    }
    if forall i :: 0 <= i < |plan| ==> PortOnGrid(plan, i) {
      forall i | 0 <= i < |plan| ensures Fit(plan, i) {
        if !plan[i].Source? {
          assert PortOnGrid(plan, i) && PortOnGrid(plan, plan[i].input);
          PortOnGridIff(plan, i);
        }
      }
    }
  }

  /** The grid in plain numbers: item k of a port starts at k * step. */
  lemma EmissionIs(plan: Plan, i: nat, k: nat)
    requires WellFormed(plan) && UnitPlan(plan) && Compiles(plan) && FitPlan(plan) && i < |plan| &&
             k < |Denotation(plan, i)|
    ensures var signature, item := TimeSignature(plan, i), Denotation(plan, i)[k];
            item.start == Times(k as real, signature.step) &&
              item.end == Times(k as real, signature.step) + signature.length
  {
    GridIsKept(plan, i);
    ItemIs(Denotation(plan, i), TimeSignature(plan, i), k);
  }

  lemma ItemIs(items: seq<Item>, signature: Signature, k: nat)
    requires OnGrid(items, signature) && k < |items|
    ensures items[k].start == Times(k as real, signature.step) &&
            items[k].end == Times(k as real, signature.step) + signature.length
  {
    PointIs(0.0, signature.step, k);
  }

  // -------------------------------------------------------------- witnesses

  /** A gap-free unit source, sampled every second item. */
  lemma EverySecond(plan: Plan, items: seq<Item>, count: nat)
    requires WellFormed(plan) && |plan| >= 2 && plan[0] == Source(items) && plan[1] == Rate(0, 2.0, SAMPLE)
    requires OnGrid(items, Signature(1.0, 1.0)) && |items| == 2 * count - 1
    ensures TimeSignature(plan, 1) == Signature(1.0, 2.0)
    ensures |Denotation(plan, 1)| == count && PortOnGrid(plan, 1) && NodeCompiles(plan, 1)
  {
    assert TimeSignature(plan, 0) == Signature(1.0, 1.0) && IsMultiple(2.0, 1.0);
    assert Times(2 as real, 1.0) == 2.0;
    SampleGrid(items, Signature(1.0, 1.0), 2, 2.0);
    RateRun(plan[1], items);
    assert Denotation(plan, 0) == items && Denotation(plan, 1) == SampleRun(items, 2.0) + [];
    var m := |SampleRun(items, 2.0)|;
    OffsetIs(m, 2);
    if m > 0 { OffsetIs(m - 1, 2); }
  }

  /** The compile check accepts a HOLD behind a SAMPLE; but sampled every 2 and held
      every 1, nobody fires at 1, and the second emission starts at 2. */
  lemma SampleThenHoldLeavesGrid(items: seq<Item>)
    requires OnGrid(items, Signature(1.0, 1.0)) && |items| == 3
    ensures var plan := [Source(items), Rate(0, 2.0, SAMPLE), Rate(1, 1.0, HOLD)];
            WellFormed(plan) && UnitPlan(plan) && Compiles(plan) && !PortOnGrid(plan, 2)
  {
    var plan := [Source(items), Rate(0, 2.0, SAMPLE), Rate(1, 1.0, HOLD)];
    EverySecond(plan, items, 2);
    assert !ContainsFrame(plan, 0) && !ContainsFrame(plan, 1);
    assert forall i :: 0 <= i < |plan| ==> NodeCompiles(plan, i);
    var signature := Signature(1.0, 2.0);
    assert Point(0.0, 2.0, 1) == 2.0 && Point(0.0, 2.0, 0) == 0.0;
    assert Before(1.0, 1.0) == 1 && Before(2.0, 1.0) == 2 && Before(3.0, 1.0) == 3;
    assert Missed(signature, 1.0, 0) && Hit(signature, 1.0, 1);
    PortOnGridIff(plan, 2);
  }

  /** ... and a padded FRAME behind a SAMPLE: the last frame is shorter than predicted. */
  lemma SampleThenPadLeavesGrid(items: seq<Item>)
    requires OnGrid(items, Signature(1.0, 1.0)) && |items| == 5
    ensures var plan := [Source(items), Rate(0, 2.0, SAMPLE), Frame(1, 2, 2, true)];
            WellFormed(plan) && UnitPlan(plan) && Compiles(plan) && !PortOnGrid(plan, 2)
  {
    var plan := [Source(items), Rate(0, 2.0, SAMPLE), Frame(1, 2, 2, true)];
    EverySecond(plan, items, 3);
    assert forall i :: 0 <= i < |plan| ==> NodeCompiles(plan, i);
    assert FrameCount(3, 2, 2) == 1 && Offset(1, 2) == Offset(0, 2) + 2 == 2;
    assert Pads(plan[2], 3);
    PortOnGridIff(plan, 2);
  }

  /** A HOLD of the same period behind a SAMPLE keeps the grid, holes or not. */
  lemma SampleThenHoldKeepsGrid(items: seq<Item>, period: real)
    requires OnGrid(items, Signature(1.0, 1.0)) && period > 0.0 && IsMultiple(period, 1.0)
    ensures var plan := [Source(items), Rate(0, period, SAMPLE), Rate(1, period, HOLD)];
            WellFormed(plan) && UnitPlan(plan) && Compiles(plan) && PortOnGrid(plan, 2)
  {
    var plan := [Source(items), Rate(0, period, SAMPLE), Rate(1, period, HOLD)];
    assert TimeSignature(plan, 1) == Signature(1.0, period);
    assert !ContainsFrame(plan, 0) && !ContainsFrame(plan, 1);
    assert forall i :: 0 <= i < |plan| ==> NodeCompiles(plan, i);
    assert PortOnGrid(plan, 0);
    PortOnGridIff(plan, 1);
    HoldFitsAlways(Signature(1.0, period), period, |Denotation(plan, 1)|);
    PortOnGridIff(plan, 2);
  }
}
