/** Changing the unit of time changes no result: every node, and hence every
    plan, commutes with multiplying all its times by a positive factor. */
module Scaling {
  import opened Stream
  import opened Operators
  import opened Plans
  import opened Vectors

  function ScaleItem(item: Item, c: real): Item { item.(start := Times(item.start, c), end := Times(item.end, c)) }

  function ScaleItems(items: seq<Item>, c: real): seq<Item> {
    seq(|items|, (i: nat) requires i < |items| => ScaleItem(items[i], c))
  }

  function ScaleTime(t: Option<real>, c: real): Option<real> {
    if t.Some? then Some(Times(t.value, c)) else None
  }

  function ScaleNode(node: Node, c: real): Node {
    match node
    case Source(items) => Source(ScaleItems(items, c))
    case Rate(input, period, policy) => Rate(input, Times(period, c), policy)
    case Frame(_, _, _, _) => node
    case Map(_, _, _, _) => node
  }

  function ScalePlan(plan: Plan, c: real): Plan {
    seq(|plan|, (i: nat) requires i < |plan| => ScaleNode(plan[i], c))
  }

  function ScaleState(st: NodeState, c: real): NodeState {
    match st
    case RateState(next) => RateState(ScaleTime(next, c))
    case FrameState(history, skip) => FrameState(ScaleItems(history, c), skip)
    case MapState(seen) => MapState(ScaleItems(seen, c))
  }

  function ScaleValue(v: KernelValue, c: real): KernelValue {
    match v
    case Raw(_) => v
    case Emitted(value, start, end, status) => Emitted(value, Times(start, c), Times(end, c), status)
  }

  function ScaleValues(values: seq<KernelValue>, c: real): seq<KernelValue> {
    seq(|values|, (i: nat) requires i < |values| => ScaleValue(values[i], c))
  }

  /** A kernel that computes with payloads, and with times only relatively. */
  ghost predicate Timeless(kernel: Kernel, c: real) {
    forall items: seq<Item> :: kernel(ScaleItems(items, c)) == ScaleValues(kernel(items), c)
  }

  ghost predicate TimelessNode(node: Node, c: real) { node.Map? ==> Timeless(node.kernel, c) }

  ghost predicate TimelessPlan(plan: Plan, c: real) {
    forall i :: 0 <= i < |plan| ==> TimelessNode(plan[i], c)
  }

  // ------------------------------------------------------------ arithmetic

  lemma TimesOrder(x: real, y: real, c: real)
    requires c > 0.0
    ensures Times(x, c) < Times(y, c) <==> x < y
  {
  }

  lemma TimesSum(x: real, y: real, c: real)
    ensures Times(x + y, c) == Times(x, c) + Times(y, c)
    ensures Times(x - y, c) == Times(x, c) - Times(y, c)
  {
  }

  lemma TimesPositive(x: real, c: real)
    requires c > 0.0
    ensures Times(x, c) > 0.0 <==> x > 0.0
  {
  }

  lemma QuotientScale(t: real, p: real, c: real)
    requires p > 0.0 && c > 0.0
    ensures Times(p, c) > 0.0 && Times(t, c) / Times(p, c) == t / p
  {
    TimesPositive(p, c);
    var x := t / p;
    assert x * p == t;
    Regroup(x, p, c);
    assert x * Times(p, c) == Times(t, c);
    assert Times(t, c) / Times(p, c) == x by { Divides(x, Times(p, c)); }
  }

  lemma Regroup(x: real, p: real, c: real)
    ensures (x * p) * c == x * (p * c)
  {
  }

  lemma Divides(x: real, y: real)
    requires y > 0.0
    ensures (x * y) / y == x
  {
  }

  // ------------------------------------------------------------------ RATE

  lemma {:induction false} PointScale(fire: real, period: real, k: nat, c: real)
    ensures Point(Times(fire, c), Times(period, c), k) == Times(Point(fire, period, k), c)
  {
    if k > 0 {
      PointScale(fire, period, k - 1, c);
      TimesSum(Point(fire, period, k - 1), period, c);
    }
  }

  lemma CountedScale(fire: real, end: real, period: real, c: real, k: nat)
    requires period > 0.0 && c > 0.0
    ensures Times(period, c) > 0.0
    ensures k < FireCount(Times(fire, c), Times(end, c), Times(period, c)) <==> k < FireCount(fire, end, period)
  {
    TimesPositive(period, c);
    FireCountMeans(fire, end, period, k);
    FireCountMeans(Times(fire, c), Times(end, c), Times(period, c), k);
    PointScale(fire, period, k, c);
    TimesOrder(Point(fire, period, k), end, c);
  }

  lemma FireCountScale(fire: real, end: real, period: real, c: real)
    requires period > 0.0 && c > 0.0
    ensures Times(period, c) > 0.0
    ensures FireCount(Times(fire, c), Times(end, c), Times(period, c)) == FireCount(fire, end, period)
  {
    CountedScale(fire, end, period, c, FireCount(fire, end, period));
    CountedScale(fire, end, period, c, FireCount(Times(fire, c), Times(end, c), Times(period, c)));
  }

  lemma FirstFireScale(next: Option<real>, item: Item, period: real, c: real)
    requires period > 0.0 && c > 0.0
    ensures Times(period, c) > 0.0
    ensures FirstFire(ScaleTime(next, c), ScaleItem(item, c), Times(period, c)) ==
            Times(FirstFire(next, item, period), c)
  {
    TimesPositive(period, c);
    if next.Some? && !item.overrun {
      FireCountScale(next.value, item.start, period, c);
      PointScale(next.value, period, FireCount(next.value, item.start, period), c);
    }
  }

  lemma HoldScale(item: Item, fire: real, period: real, c: real)
    requires period > 0.0 && c > 0.0
    ensures Times(period, c) > 0.0
    ensures HoldOutputs(ScaleItem(item, c), Times(fire, c), Times(period, c)) ==
            ScaleItems(HoldOutputs(item, fire, period), c)
  {
    FireCountScale(fire, item.end, period, c);
    forall k: nat | k < FireCount(fire, item.end, period)
      ensures Held(ScaleItem(item, c), Times(fire, c), Times(period, c), k) == ScaleItem(Held(item, fire, period, k), c)
    {
      PointScale(fire, period, k, c);
      TimesSum(Point(fire, period, k), period, c);
    }
  }

  lemma RateScale(next: Option<real>, item: Item, period: real, policy: RatePolicy, c: real)
    requires period > 0.0 && c > 0.0
    ensures Times(period, c) > 0.0
    ensures var (st, out) := RateStep(next, item, period, policy);
            RateStep(ScaleTime(next, c), ScaleItem(item, c), Times(period, c), policy) ==
              (ScaleState(st, c), ScaleItems(out, c))
  {
    TimesPositive(period, c);
    if policy == SAMPLE {
      QuotientScale(item.start, period, c);
      assert ScaleItems([item], c) == [ScaleItem(item, c)] && ScaleItems([], c) == [];
    } else {
      var fire := FirstFire(next, item, period);
      FirstFireScale(next, item, period, c);
      HoldScale(item, fire, period, c);
      FireCountScale(fire, item.end, period, c);
      PointScale(fire, period, FireCount(fire, item.end, period), c);
    }
  }

  // ----------------------------------------------------------------- FRAME

  lemma ScaleConcat(a: seq<Item>, b: seq<Item>, c: real)
    ensures ScaleItems(a + b, c) == ScaleItems(a, c) + ScaleItems(b, c)
  {
  }

  lemma ScaleSlice(items: seq<Item>, lo: nat, hi: nat, c: real)
    requires lo <= hi <= |items|
    ensures ScaleItems(items, c)[lo..hi] == ScaleItems(items[lo..hi], c)
  {
  }

  lemma {:induction false} StatusScale(items: seq<Item>, c: real)
    ensures WorstStatus(ScaleItems(items, c)) == WorstStatus(items)
    decreases |items|
  {
    if items != [] {
      ScaleSlice(items, 0, |items| - 1, c);
      StatusScale(items[..|items| - 1], c);
    }
  }

  lemma MakeFrameScale(items: seq<Item>, c: real)
    requires |items| > 0
    ensures MakeFrame(ScaleItems(items, c)) == ScaleItem(MakeFrame(items), c)
  {
    StatusScale(items, c);
    assert Values(ScaleItems(items, c)) == Values(items);
    assert forall i :: 0 <= i < |items| ==> ScaleItems(items, c)[i].overrun == items[i].overrun;
  }

  lemma FrameScale(history: seq<Item>, skip: nat, item: Item, size: nat, hop: nat, c: real)
    requires size > 0 && hop > 0
    ensures var (st, out) := FrameStep(history, skip, item, size, hop);
            FrameStep(ScaleItems(history, c), skip, ScaleItem(item, c), size, hop) ==
              (ScaleState(st, c), ScaleItems(out, c))
  {
    var kept := if item.overrun then [] else history;
    var full := kept + [item];
    assert ScaleItems([], c) == [];
    assert ScaleItems([item], c) == [ScaleItem(item, c)];
    ScaleConcat(kept, [item], c);
    if |full| >= size {
      ScaleSlice(full, 0, size, c);
      MakeFrameScale(full[..size], c);
      assert ScaleItems([MakeFrame(full[..size])], c) == [ScaleItem(MakeFrame(full[..size]), c)];
      assert hop <= |full| ==> ScaleItems(full, c)[hop..] == ScaleItems(full[hop..], c);
    }
  }

  lemma PaddingScale(last: Item, k: nat, c: real)
    ensures PaddingItem(ScaleItem(last, c), k) == ScaleItem(PaddingItem(last, k), c)
  {
    var duration, n := last.end - last.start, k as real;
    TimesSum(last.end, last.start, c);
    TimesSum(last.end, n * duration, c);
    TimesSum(last.end + n * duration, duration, c);
    Regroup(n, duration, c);
  }

  lemma PaddedScale(items: seq<Item>, size: nat, c: real)
    requires 0 < |items| <= size
    ensures Padded(ScaleItems(items, c), size) == ScaleItems(Padded(items, size), c)
  {
    var last := items[|items| - 1];
    forall k: nat | k < size - |items|
      ensures PaddingItem(ScaleItem(last, c), k) == ScaleItem(PaddingItem(last, k), c)
    {
      PaddingScale(last, k, c);
    }
  }

  lemma FlushScale(node: Node, st: NodeState, c: real)
    requires Fits(node, st)
    ensures Fits(ScaleNode(node, c), ScaleState(st, c))
    ensures Flush(ScaleNode(node, c), ScaleState(st, c)) == ScaleItems(Flush(node, st), c)
  {
    if Flush(node, st) != [] {
      PaddedScale(st.history, node.size, c);
      MakeFrameScale(Padded(st.history, node.size), c);
    }
  }

  // ------------------------------------------------------------------- MAP

  function Outputs(item: Item, values: seq<KernelValue>): seq<Item> {
    seq(|values|, (i: nat) requires i < |values| => MapOutput(item, values[i]))
  }

  lemma OutputsScale(item: Item, values: seq<KernelValue>, c: real)
    ensures Outputs(ScaleItem(item, c), ScaleValues(values, c)) == ScaleItems(Outputs(item, values), c)
  {
  }

  lemma MapScale(node: Node, seen: seq<Item>, item: Item, c: real)
    requires node.Map? && Timeless(node.kernel, c)
    ensures var (st, out) := MapStep(node, seen, item);
            MapStep(node, ScaleItems(seen, c), ScaleItem(item, c)) == (ScaleState(st, c), ScaleItems(out, c))
  {
    var past := if item.overrun && node.resetOnGap then [] else seen;
    assert ScaleItems([], c) == [];
    ScaleConcat(past, [item], c);
    assert ScaleItems([item], c) == [ScaleItem(item, c)];
    assert node.kernel(ScaleItems(past + [item], c)) == ScaleValues(node.kernel(past + [item]), c);
    OutputsScale(item, node.kernel(past + [item]), c);
    var values := node.kernel(past + [item]);
    if !(item.status == INVALID && !node.acceptsInvalid) {
      assert MapStep(node, seen, item).1 == Outputs(item, values);
      assert MapStep(node, ScaleItems(seen, c), ScaleItem(item, c)).1 ==
             Outputs(ScaleItem(item, c), ScaleValues(values, c));
    }
  }

  // ------------------------------------------------------- nodes and plans

  lemma StepScale(node: Node, st: NodeState, item: Item, c: real)
    requires node.Valid() && Fits(node, st) && !node.Source? && c > 0.0 && TimelessNode(node, c)
    ensures ScaleNode(node, c).Valid() && Fits(ScaleNode(node, c), ScaleState(st, c))
    ensures var (next, out) := Step(node, st, item);
            Step(ScaleNode(node, c), ScaleState(st, c), ScaleItem(item, c)) == (ScaleState(next, c), ScaleItems(out, c))
  {
    match node
    case Rate(_, period, policy) => RateScale(st.next, item, period, policy, c);
    case Frame(_, size, hop, _) => FrameScale(st.history, st.skip, item, size, hop, c);
    case Map(_, _, _, _) => MapScale(node, st.seen, item, c);
  }

  lemma {:induction false} RunScale(node: Node, items: seq<Item>, c: real)
    requires node.Valid() && !node.Source? && c > 0.0 && TimelessNode(node, c)
    ensures ScaleNode(node, c).Valid()
    ensures var (st, out) := Run(node, items);
            Run(ScaleNode(node, c), ScaleItems(items, c)) == (ScaleState(st, c), ScaleItems(out, c))
    decreases |items|
  {
    if node.Rate? { TimesPositive(node.period, c); }
    if items == [] {
      assert ScaleItems([], c) == [];
    } else {
      var before, last := items[..|items| - 1], items[|items| - 1];
      RunScale(node, before, c);
      ScaleSlice(items, 0, |before|, c);
      RunSnoc(node, items);
      RunSnoc(ScaleNode(node, c), ScaleItems(items, c));
      var (st, out) := Run(node, before);
      StepScale(node, st, last, c);
      ScaleConcat(out, Step(node, st, last).1, c);
    }
  }

  lemma {:induction false} DenotationScale(plan: Plan, c: real, port: nat)
    requires WellFormed(plan) && c > 0.0 && TimelessPlan(plan, c) && port < |plan|
    ensures WellFormed(ScalePlan(plan, c))
    ensures Denotation(ScalePlan(plan, c), port) == ScaleItems(Denotation(plan, port), c)
    decreases port
  {
    var node := plan[port];
    assert ScalePlan(plan, c)[port] == ScaleNode(node, c) && TimelessNode(node, c);
    if !node.Source? {
      DenotationScale(plan, c, node.input);
      var input := Denotation(plan, node.input);
      RunScale(node, input, c);
      var (st, out) := Run(node, input);
      FlushScale(node, st, c);
      ScaleConcat(out, Flush(node, st), c);
    }
  }
}
