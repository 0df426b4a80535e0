/** What the nodes of a plan do to the order of intervals on gap-free input: which of
    them publish intervals without overlap, and which only with growing starts. */
module Spacing {
  import opened Stream
  import opened Operators
  import opened Frontiers

  ghost predicate NoGaps(items: seq<Item>) {
    forall i :: 0 <= i < |items| ==> !items[i].overrun
  }

  ghost predicate NoGapsHeld(st: NodeState) {
    match st
    case RateState(_) => true
    case FrameState(history, _) => NoGaps(history)
    case MapState(_) => true
  }

  lemma StepKeepsNoGaps(node: Node, st: NodeState, item: Item)
    requires node.Valid() && Fits(node, st) && NoGapsHeld(st) && !item.overrun
    ensures NoGaps(Step(node, st, item).1) && (!node.Source? ==> NoGapsHeld(Step(node, st, item).0))
  {
    match node
    case Source(_) =>
    case Rate(_, _, _) =>
    case Frame(_, size, hop, _) =>
      if st.skip == 0 {
        var full := st.history + [item];
        assert NoGaps(full);
        if |full| >= size {
          assert NoGaps(full[..size]);
          assert FrameStep(st.history, st.skip, item, size, hop).1 == [MakeFrame(full[..size])];
        }
      }
    case Map(_, kernel, _, _) =>
      forall v: KernelValue ensures !MapOutput(item, v).overrun { }
  }

  lemma {:induction false} RunKeepsNoGaps(node: Node, items: seq<Item>)
    requires node.Valid() && !node.Source? && NoGaps(items)
    ensures NoGaps(Run(node, items).1) && NoGapsHeld(Run(node, items).0)
    decreases |items|
  {
    if items != [] {
      var before := items[..|items| - 1];
      RunKeepsNoGaps(node, before);
      RunSnoc(node, items);
      StepKeepsNoGaps(node, Run(node, before).0, items[|items| - 1]);
    }
  }

  lemma RunIsGapFree(node: Node, items: seq<Item>)
    requires node.Valid() && !node.Source? && NoGaps(items)
    ensures NoGaps(Denote(node, items))
  {
    RunKeepsNoGaps(node, items);
    var st := Run(node, items).0;
    if Flush(node, st) != [] { assert !AnyOverrun(Padded(st.history, node.size)); }
  }

  // ------------------------------------------------------------- intervals

  ghost predicate Positive(items: seq<Item>) {
    forall i :: 0 <= i < |items| ==> items[i].start < items[i].end
  }

  /** Intervals in order and without overlap. */
  ghost predicate Spaced(items: seq<Item>) {
    Positive(items) && Disjoint(items)
  }

  /** Intervals that may overlap, but start one after the other. */
  ghost predicate Stepped(items: seq<Item>) {
    Positive(items) && forall i, j :: 0 <= i < j < |items| ==> items[i].start < items[j].start
  }

  lemma SpacedIsStepped(items: seq<Item>)
    requires Spaced(items)
    ensures Stepped(items)
  {
    forall i, j | 0 <= i < j < |items| ensures items[i].start < items[j].start {
      assert items[i].start < items[i].end <= items[j].start;
    }
  }

  ghost predicate EndBy(items: seq<Item>, t: real) { forall i :: 0 <= i < |items| ==> items[i].end <= t }

  lemma SpacedConcat(a: seq<Item>, b: seq<Item>, t: real)
    requires Spaced(a) && EndBy(a, t) && Spaced(b) && StartsFrom(b, t)
    ensures Spaced(a + b)
  {
    var c := a + b;
    forall i, j | 0 <= i < j < |c| ensures c[i].end <= c[j].start {
      if i < |a| && j >= |a| { assert c[i] == a[i] && c[j] == b[j - |a|]; }
    }
  }

  // ------------------------------------------------------------------ HOLD

  lemma {:induction false} PointBefore(fire: real, period: real, i: nat, j: nat)
    requires period > 0.0 && i < j
    ensures Point(fire, period, i) + period <= Point(fire, period, j)
    decreases j
  {
    if i < j - 1 { PointBefore(fire, period, i, j - 1); }
  }

  lemma HeldSpaced(item: Item, fire: real, period: real)
    requires period > 0.0
    ensures var out := HoldOutputs(item, fire, period);
            Spaced(out) && StartsFrom(out, fire) && EndBy(out, Point(fire, period, |out|))
  {
    var out := HoldOutputs(item, fire, period);
    forall i: nat, j: nat | i < j < |out| ensures out[i].end <= out[j].start { PointBefore(fire, period, i, j); }
    forall i: nat | i < |out| ensures out[i].start >= fire && out[i].end <= Point(fire, period, |out|) {
      PointsGrow(fire, period, i);
      PointBefore(fire, period, i, |out|);
    }
  }

  /** On gap-free input a HOLD never fires an interval twice, whatever its input. */
  lemma {:induction false} HoldSpaced(items: seq<Item>, period: real)
    requires period > 0.0 && NoGaps(items)
    ensures Spaced(HoldRun(items, period))
    ensures items != [] ==> EndBy(HoldRun(items, period), HoldNext(items, period).value)
    decreases |items|
  {
    if items != [] {
      var before, last := items[..|items| - 1], items[|items| - 1];
      HoldSpaced(before, period);
      var next := HoldNext(before, period);
      var fire := FirstFire(next, last, period);
      HeldSpaced(last, fire, period);
      var n := FireCount(fire, last.end, period);
      PointsGrow(fire, period, n);
      if next.Some? { PointsGrow(next.value, period, FireCount(next.value, last.start, period)); }
      SpacedConcat(HoldRun(before, period), HoldOutputs(last, fire, period), fire);
    }
  }

  // ---------------------------------------------------------------- SAMPLE

  lemma {:induction false} SampleWithin(items: seq<Item>, period: real, t: real)
    requires period > 0.0
    ensures EndBy(items, t) ==> EndBy(SampleRun(items, period), t)
    ensures (forall i :: 0 <= i < |items| ==> items[i].start < t) ==>
            forall i :: 0 <= i < |SampleRun(items, period)| ==> SampleRun(items, period)[i].start < t
    decreases |items|
  {
    if items != [] { SampleWithin(items[..|items| - 1], period, t); }
  }

  lemma {:induction false} SampleSpaced(items: seq<Item>, period: real)
    requires period > 0.0 && Stepped(items)
    ensures Stepped(SampleRun(items, period)) && (Spaced(items) ==> Spaced(SampleRun(items, period)))
    decreases |items|
  {
    if items != [] {
      var before, last := items[..|items| - 1], items[|items| - 1];
      SampleSpaced(before, period);
      SampleWithin(before, period, last.start);
      if Spaced(items) { SpacedConcat(SampleRun(before, period), SampleOutputs(last, period), last.start); }
    }
  }

  // ------------------------------------------------------------------- MAP

  predicate SameTimes(a: seq<Item>, b: seq<Item>) {
    |a| == |b| && forall i :: 0 <= i < |a| ==> a[i].start == b[i].start && a[i].end == b[i].end
  }

  lemma {:induction false} MapKeepsTimes(node: Node, items: seq<Item>)
    requires node.Map? && OneRawOutput(node.kernel)
    ensures SameTimes(Run(node, items).1, items)
    decreases |items|
  {
    if items != [] {
      var n := |items| - 1;
      MapKeepsTimes(node, items[..n]);
      RunSnoc(node, items);
      OneMapOutput(node, Run(node, items[..n]).0.seen, items[n]);
    }
  }

  // ----------------------------------------------------------------- FRAME

  /** The frame that starts with item `from` and ends no earlier than item `to`. */
  ghost predicate Reaches(frame: Item, items: seq<Item>, from: nat, to: nat)
    requires from <= to < |items|
  {
    frame.start == items[from].start && frame.end >= items[to].end
  }

  lemma {:induction false} OffsetsApart(i: nat, j: nat, hop: nat)
    requires i < j
    ensures Offset(i, hop) + hop <= Offset(j, hop)
    decreases j
  {
    if i < j - 1 { OffsetsApart(i, j - 1, hop); }
  }

  /** `out` are all frames of the items and, behind the last one, maybe a padded frame. */
  ghost predicate Framed(out: seq<Item>, items: seq<Item>, size: nat, hop: nat)
    requires size > 0 && hop > 0
  {
    var c := FrameCount(|items|, size, hop);
    && c <= |out| <= c + 1
    && (forall j: nat {:trigger out[j]} :: j < c ==>
      Offset(j, hop) + size <= |items| && out[j] == FrameAt(items, size, hop, j))
    && (|out| > c ==> Offset(c, hop) < |items| < Offset(c, hop) + size)
    && (|out| > c ==> out[c] == MakeFrame(Padded(items[Offset(c, hop)..], size)))
  }

  lemma DenotesFrames(node: Node, items: seq<Item>)
    requires node.Frame? && node.Valid() && NoGaps(items)
    ensures Framed(Denote(node, items), items, node.size, node.hop)
  {
    var c := FrameCount(|items|, node.size, node.hop);
    GapFreeFrames(node, items);
    FrameCounted(|items|, node.size, node.hop, c);
    forall j: nat | j < c ensures Offset(j, node.hop) + node.size <= |items| {
      FrameCounted(|items|, node.size, node.hop, j);
    }
  }

  function LastOf(at: nat, size: nat, n: nat): int { if at + size <= n then at + size - 1 else n - 1 }

  lemma FrameOf(out: seq<Item>, items: seq<Item>, size: nat, hop: nat, j: nat)
    requires size > 0 && hop > 0 && Framed(out, items, size, hop) && Positive(items) && j < |out|
    ensures Offset(j, hop) < |items| && Reaches(out[j], items, Offset(j, hop), LastOf(Offset(j, hop), size, |items|))
    ensures j < |out| - 1 ==> Offset(j, hop) + size <= |items| && out[j].end == items[Offset(j, hop) + size - 1].end
  {
    var at, frame := Offset(j, hop), out[j];
    if j < FrameCount(|items|, size, hop) {
      FullFrame(items, at, size);
    } else {
      assert j == FrameCount(|items|, size, hop);
      PaddedFrame(items, at, size);
    }
  }

  lemma FullFrame(items: seq<Item>, at: nat, size: nat)
    requires size > 0 && at + size <= |items|
    ensures MakeFrame(items[at..at + size]).start == items[at].start
    ensures MakeFrame(items[at..at + size]).end == items[at + size - 1].end
  {
  }

  lemma PaddedFrame(items: seq<Item>, at: nat, size: nat)
    requires Positive(items) && at < |items| <= at + size
    ensures MakeFrame(Padded(items[at..], size)).start == items[at].start
    ensures MakeFrame(Padded(items[at..], size)).end >= items[|items| - 1].end
  {
    PaddedReaches(items[at..], size);
  }

  lemma PaddedReaches(held: seq<Item>, size: nat)
    requires 0 < |held| <= size && Positive(held)
    ensures MakeFrame(Padded(held, size)).start == held[0].start
    ensures MakeFrame(Padded(held, size)).end >= held[|held| - 1].end
  {
    var padded, last := Padded(held, size), held[|held| - 1];
    assert padded[0] == held[0];
    if |held| < size {
      var k := size - |held| - 1;
      assert padded[size - 1] == PaddingItem(last, k);
      assert k as real * (last.end - last.start) >= 0.0;
    }
  }

  lemma FrameSteps(out: seq<Item>, items: seq<Item>, size: nat, hop: nat)
    requires size > 0 && hop > 0 && Framed(out, items, size, hop) && Stepped(items)
    ensures Stepped(out)
  {
    forall j: nat | j < |out| ensures out[j].start < out[j].end {
      FrameOf(out, items, size, hop, j);
      var at := Offset(j, hop);
      var to := LastOf(at, size, |items|);
      assert at < to ==> items[at].start < items[to].start;
    }
    forall i: nat, j: nat | i < j < |out| ensures out[i].start < out[j].start {
      FrameOf(out, items, size, hop, i);
      FrameOf(out, items, size, hop, j);
      OffsetsApart(i, j, hop);
    }
  }

  lemma FrameSpaced(out: seq<Item>, items: seq<Item>, size: nat, hop: nat)
    requires size > 0 && hop >= size && Framed(out, items, size, hop) && Spaced(items)
    ensures Spaced(out)
  {
    SpacedIsStepped(items);
    FrameSteps(out, items, size, hop);
    forall i: nat, j: nat | i < j < |out| ensures out[i].end <= out[j].start {
      FrameOf(out, items, size, hop, i);
      FrameOf(out, items, size, hop, j);
      OffsetsApart(i, j, hop);
      var last := Offset(i, hop) + size - 1;
      assert items[last].end <= items[Offset(j, hop)].start;
    }
  }

  // ----------------------------------------------------- the node as a whole

  /** A gap-free stream with growing starts keeps them through every node, except that
      a MAP must answer once per input; and only overlapping FRAMEs give up spacing. */
  lemma StreamsKeepOrder(node: Node, items: seq<Item>)
    requires node.Valid() && !node.Source? && NoGaps(items) && Stepped(items) &&
             (node.Map? ==> OneRawOutput(node.kernel))
    ensures NoGaps(Denote(node, items)) && Stepped(Denote(node, items))
    ensures Spaced(items) && (node.Frame? ==> node.hop >= node.size) ==> Spaced(Denote(node, items))
    ensures node.Rate? && node.policy == HOLD ==> Spaced(Denote(node, items))
  {
    RunIsGapFree(node, items);
    match node
    case Rate(_, period, policy) =>
      RateRun(node, items);
      assert Denote(node, items) == Run(node, items).1 + [] == Run(node, items).1;
      if policy == HOLD {
        HoldSpaced(items, period);
        SpacedIsStepped(HoldRun(items, period));
      } else {
        SampleSpaced(items, period);
      }
    case Frame(_, size, hop, _) =>
      DenotesFrames(node, items);
      FrameSteps(Denote(node, items), items, size, hop);
      if Spaced(items) && hop >= size { FrameSpaced(Denote(node, items), items, size, hop); }
    case Map(_, _, _, _) =>
      MapKeepsTimes(node, items);
      assert Denote(node, items) == Run(node, items).1 + [] == Run(node, items).1;
  }

  /** What a node must know of its input to keep the promise of its frontier. */
  lemma OrderSuits(node: Node, items: seq<Item>)
    requires node.Valid() && NoGaps(items) && Stepped(items)
    requires Spaced(items) || (node.Frame? && node.hop < node.size) || (node.Rate? && node.policy == HOLD)
    ensures Suits(node, items)
  {
  }
}
