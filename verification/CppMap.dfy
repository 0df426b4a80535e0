/** Native plan nodes, the plan nodes they stand for, and the native MAP loop. */
module CppMaps {
  import opened Stream
  import opened Operators
  import opened Plans
  import opened CppNodes
  import opened Scaling
  import opened Ticks

  /** A native kernel computes one output per input, from the payloads it was fed. */
  type NativeKernel = seq<Value> -> (Value, Status)

  datatype NativeNode =
    | NativeSource
    | NativeRate(input: nat, numerator: int, denominator: int, policy: RatePolicy)
    | NativeFrame(input: nat, size: nat, hop: nat, padEnd: bool)
    | NativeMap(input: nat, kernel: NativeKernel, acceptsInvalid: bool)

  /** What the Operation behind a native kernel answers in the streaming machine. */
  function Answers(kernel: NativeKernel, items: seq<Item>): seq<KernelValue> {
    if items == [] then []
    else
      var last, (value, status) := items[|items| - 1], kernel(Values(items));
      [Emitted(value, last.start, last.end, status)]
  }

  /** The native node and the node of the plan are two forms of one node. */
  ghost predicate NodeRepresents(node: Node, native: NativeNode, ingress: Ingress) {
    match native
    case NativeSource => node.Source? &&
      PackedMeanings(ingress.items) == ScaleItems(node.items, ingress.denominator as real)
    case NativeRate(input, numerator, denominator, policy) =>
      0 < denominator <= I64_MAX && node == Rate(input, numerator as real / denominator as real, policy)
    case NativeFrame(input, size, hop, padEnd) => node == Frame(input, size, hop, padEnd)
    case NativeMap(input, kernel, acceptsInvalid) =>
      node.Map? && node.input == input && node.acceptsInvalid == acceptsInvalid && AnswersAs(node.kernel, kernel)
  }

  ghost predicate AnswersAs(kernel: Kernel, native: NativeKernel) {
    forall items :: kernel(items) == Answers(native, items)
  }

  ghost predicate Represents(plan: Plan, nodes: seq<NativeNode>, ingress: Ingress) {
    && WellFormed(plan) && |plan| == |nodes| && ValidIngress(ingress)
    && forall i :: 0 <= i < |plan| ==> NodeRepresents(plan[i], nodes[i], ingress)
  }

  /** Native kernels are timeless: they see no times at all. */
  lemma NativeIsTimeless(node: Node, native: NativeNode, ingress: Ingress, c: real)
    requires NodeRepresents(node, native, ingress)
    ensures TimelessNode(node, c)
  {
    if native.NativeMap? {
      forall items: seq<Item> ensures node.kernel(ScaleItems(items, c)) == ScaleValues(node.kernel(items), c) {
        assert Values(ScaleItems(items, c)) == Values(items);
      }
    }
  }

  // ------------------------------------------------------------------ MAP

  lemma ValuesAppend(items: seq<Item>, item: Item)
    ensures Values(items + [item]) == Values(items) + [item.value]
  {
  }

  /** What the native loop body does with one item: the payloads seen, and the output. */
  function Apply(kernel: NativeKernel, acceptsInvalid: bool, seen: seq<Value>, t: TickItem): (seq<Value>, TickItem) {
    if t.status == INVALID && !acceptsInvalid then (seen, t)
    else
      var (value, status) := kernel(seen + [t.value]);
      (seen + [t.value], t.(value := value, status := Worse(t.status, status)))
  }

  predicate Processed(item: Item, acceptsInvalid: bool) { !(item.status == INVALID && !acceptsInvalid) }

  /** What the native loop makes of a batch: the payloads seen, and the output. */
  function Applied(kernel: NativeKernel, acceptsInvalid: bool, input: seq<TickItem>): (seq<Value>, seq<TickItem>)
    decreases |input|
  {
    if input == [] then ([], [])
    else
      var (seen, output) := Applied(kernel, acceptsInvalid, input[..|input| - 1]);
      var (values, mapped) := Apply(kernel, acceptsInvalid, seen, input[|input| - 1]);
      (values, output + [mapped])
  }

  /** One MAP step of the plan: the same payload and status, the same flag. */
  lemma MapAgrees(node: Node, kernel: NativeKernel, seen: seq<Item>, values: seq<Value>, t: TickItem)
    requires node.Map? && AnswersAs(node.kernel, kernel)
    requires Processed(AsItem(t), node.acceptsInvalid) ==>
             Values(seen) == values && (node.resetOnGap && t.marked ==> seen == [])
    ensures MapStep(node, seen, AsItem(t)).1 == [AsItem(Apply(kernel, node.acceptsInvalid, values, t).1)]
  {
    var item := AsItem(t);
    ValuesAppend(seen, item);
    if Processed(item, node.acceptsInvalid) {
      var answers := node.kernel(seen + [item]);
      assert answers == Answers(kernel, seen + [item]);
      assert MapStep(node, seen, item).1 == [MapOutput(item, answers[0])];
    }
  }

  /** The outputs so far: the same payloads, statuses and flags, in the same segments. */
  ghost predicate Mapped(node: Node, items: seq<Item>, segments: seq<int>, output: seq<TickItem>)
    requires node.Map?
  {
    var out := Run(node, items).1;
    && out == AsItems(output) && |out| == |items| == |segments| && Segments(output) == segments
    && forall i :: 0 <= i < |out| ==> out[i].overrun == items[i].overrun
  }

  lemma MappedGrows(
      node: Node, items: seq<Item>, segments: seq<int>, output: seq<TickItem>, t: TickItem, mapped: TickItem)
    requires node.Map? && Mapped(node, items, segments, output) && mapped.segment == t.segment &&
             mapped.marked == t.marked
    requires MapStep(node, Run(node, items).0.seen, AsItem(t)).1 == [AsItem(mapped)]
    ensures Mapped(node, items + [AsItem(t)], segments + [t.segment], output + [mapped])
  {
    var out := Run(node, items).1;
    RunFromSnoc(node, Init(node), items, AsItem(t));
    var more := AsItem(mapped);
    AsItemsConcat(output, [mapped]);
    SegmentsConcat(output, [mapped]);
    assert [more] == AsItems([mapped]) && Segments([mapped]) == [t.segment];
  }

  /** A kernel state is reset when an item behind a gap meets one that has seen
      something; that matters only when something is processed from there on. */
  ghost predicate NeverReset(items: seq<Item>, acceptsInvalid: bool) {
    forall i, k, j :: 0 <= i < k <= j < |items| && items[k].overrun && Processed(items[i], acceptsInvalid) ==>
      !Processed(items[j], acceptsInvalid)
  }

  ghost predicate ProcessedFrom(items: seq<Item>, acceptsInvalid: bool, k: nat) {
    exists j :: k <= j < |items| && Processed(items[j], acceptsInvalid)
  }

  /** After k items both kernel states hold the same payloads, or none of the rest
      is processed any more. */
  ghost predicate SeenAlike(node: Node, items: seq<Item>, k: nat, seen: seq<Value>)
    requires node.Map? && k <= |items|
  {
    var st := Run(node, items[..k]).0;
    && (seen != [] ==> exists i :: 0 <= i < k && Processed(items[i], node.acceptsInvalid))
    && (Values(st.seen) == seen || !ProcessedFrom(items, node.acceptsInvalid, k))
  }

  lemma SeenNext(node: Node, kernel: NativeKernel, items: seq<Item>, k: nat, seen: seq<Value>, t: TickItem)
    requires node.Map? && k < |items| && SeenAlike(node, items, k, seen) && items[k] == AsItem(t)
    requires node.resetOnGap ==> NeverReset(items, node.acceptsInvalid)
    ensures SeenAlike(node, items, k + 1, Apply(kernel, node.acceptsInvalid, seen, t).0)
    ensures Processed(items[k], node.acceptsInvalid) ==>
            var past := Run(node, items[..k]).0.seen;
            Values(past) == seen && (node.resetOnGap && items[k].overrun ==> past == [])
  {
    var past, item := Run(node, items[..k]).0.seen, items[k];
    assert items[..k + 1] == items[..k] + [item];
    RunFromSnoc(node, Init(node), items[..k], item);
    ValuesAppend(past, item);
    if node.resetOnGap && item.overrun && seen != [] {
      var i :| 0 <= i < k && Processed(items[i], node.acceptsInvalid);
      assert !ProcessedFrom(items, node.acceptsInvalid, k);
    }
    if Processed(item, node.acceptsInvalid) {
      assert ProcessedFrom(items, node.acceptsInvalid, k);
      assert Values(past) == seen;
      assert seen == [] ==> |past| == |Values(past)| == 0;
    } else {
      assert ProcessedFrom(items, node.acceptsInvalid, k + 1) ==> ProcessedFrom(items, node.acceptsInvalid, k);
      assert Values([]) == [];
    }
  }

  /** The first k items: the native loop and the node of the plan agree. */
  lemma {:induction false} AppliedAgrees(
      node: Node, kernel: NativeKernel, items: seq<Item>, input: seq<TickItem>, k: nat)
    requires Follows(items, input) && |items| == |input| && k <= |input|
    requires node.Map? && AnswersAs(node.kernel, kernel) && (node.resetOnGap ==> NeverReset(items, node.acceptsInvalid))
    ensures var (seen, output) := Applied(kernel, node.acceptsInvalid, input[..k]);
            SeenAlike(node, items, k, seen) && Mapped(node, items[..k], Segments(input)[..k], output)
  {
    if k > 0 {
      var n := k - 1;
      var (seen, output) := Applied(kernel, node.acceptsInvalid, input[..n]);
      AppliedAgrees(node, kernel, items, input, n);
      FollowsAt(items, input, n);
      SeenNext(node, kernel, items, n, seen, input[n]);
      assert input[..k][..n] == input[..n] && items[..k] == items[..n] + [items[n]];
      var (_, mapped) := Apply(kernel, node.acceptsInvalid, seen, input[n]);
      MapAgrees(node, kernel, Run(node, items[..n]).0.seen, seen, input[n]);
      MappedGrows(node, items[..n], Segments(input)[..n], output, input[n], mapped);
      assert Segments(input)[..k] == Segments(input)[..n] + [input[n].segment];
    } else {
      assert items[..0] == [] && input[..0] == [] && Values([]) == [] && Run(node, []) == (MapState([]), []);
    }
  }

  lemma AppliedFollows(node: Node, kernel: NativeKernel, items: seq<Item>, input: seq<TickItem>)
    requires Follows(items, input) && node.Map? && AnswersAs(node.kernel, kernel)
    requires node.resetOnGap ==> NeverReset(items, node.acceptsInvalid)
    ensures Follows(Run(node, items).1, Applied(kernel, node.acceptsInvalid, input).1)
  {
    assert |items| == |AsItems(input)| == |input|;
    AppliedAgrees(node, kernel, items, input, |input|);
    assert items[..|input|] == items && input[..|input|] == input && Segments(input)[..|input|] == Segments(input);
  }

  /** run_map_node for one input: a kernel state that lives through the whole batch. */
  method RunMapNode(
      input: seq<TickItem>, kernel: NativeKernel, acceptsInvalid: bool, ghost items: seq<Item>, ghost node: Node)
    returns (output: seq<TickItem>)
    requires ValidBatch(input) && Follows(items, input)
    requires node.Map? && node.acceptsInvalid == acceptsInvalid && AnswersAs(node.kernel, kernel)
    ensures output == Applied(kernel, acceptsInvalid, input).1 && ValidBatch(output)
    ensures (node.resetOnGap ==> NeverReset(items, acceptsInvalid)) ==> Follows(Run(node, items).1, output)
  {
    output := [];
    var seen: seq<Value> := [];
    for k := 0 to |input|
      invariant (seen, output) == Applied(kernel, acceptsInvalid, input[..k])
      invariant if k > 0 then UpTo(output, input[k - 1].segment) else output == []
    {
      UpToAt(input, input[|input| - 1].segment, k);
      assert input[..k + 1][..k] == input[..k];
      var mapped := input[k];
      if !(mapped.status == INVALID && !acceptsInvalid) {
        seen := seen + [mapped.value];
        var (value, status) := kernel(seen);
        mapped := mapped.(value := value, status := Worse(mapped.status, status));
      }
      UpToConcat(output, [mapped], if k > 0 then input[k - 1].segment else mapped.segment, mapped.segment);
      output := output + [mapped];
    }
    assert input[..|input|] == input;
    if node.resetOnGap ==> NeverReset(items, acceptsInvalid) { AppliedFollows(node, kernel, items, input); }
  }

  // ------------------------------------------------- kernels that reset on gaps

  /** The Operation behind a native kernel, with the reset that Python gives it. */
  function Resetting(kernel: NativeKernel, acceptsInvalid: bool): Node {
    Map(0, (items: seq<Item>) => Answers(kernel, items), acceptsInvalid, true)
  }

  ghost predicate Alike(kernel: NativeKernel, acceptsInvalid: bool, items: seq<Item>, input: seq<TickItem>) {
    Follows(Run(Resetting(kernel, acceptsInvalid), items).1, Applied(kernel, acceptsInvalid, input).1)
  }

  /** A kernel that answers how many items it has seen. */
  function Counting(): NativeKernel { (values: seq<Value>) => (Atom(|values|), OK) }

  /** How many of the items are processed. */
  function ProcessedCount(items: seq<Item>, acceptsInvalid: bool): nat
    decreases |items|
  {
    if items == [] then 0
    else
      var n := |items| - 1;
      ProcessedCount(items[..n], acceptsInvalid) + if Processed(items[n], acceptsInvalid) then 1 else 0
  }

  lemma {:induction false} NativeCounts(items: seq<Item>, input: seq<TickItem>, acceptsInvalid: bool, k: nat)
    requires Follows(items, input) && |items| == |input| && k <= |input|
    ensures |Applied(Counting(), acceptsInvalid, input[..k]).0| == ProcessedCount(items[..k], acceptsInvalid)
  {
    if k > 0 {
      NativeCounts(items, input, acceptsInvalid, k - 1);
      FollowsAt(items, input, k - 1);
      assert items[..k][..k - 1] == items[..k - 1] && input[..k][..k - 1] == input[..k - 1];
    }
  }

  lemma {:induction false} CountsGrow(items: seq<Item>, acceptsInvalid: bool, i: nat)
    requires i < |items| && Processed(items[i], acceptsInvalid)
    ensures ProcessedCount(items, acceptsInvalid) > 0
    decreases |items|
  {
    if i < |items| - 1 { CountsGrow(items[..|items| - 1], acceptsInvalid, i); }
  }

  /** With the reset a kernel has never seen more than was processed, and less once an
      item behind a gap came after a processed one. */
  lemma {:induction false} ResetForgets(kernel: NativeKernel, acceptsInvalid: bool, items: seq<Item>, i: nat, k: nat)
    requires i < k < |items| && items[k].overrun && Processed(items[i], acceptsInvalid)
    ensures |Run(Resetting(kernel, acceptsInvalid), items).0.seen| < ProcessedCount(items, acceptsInvalid)
    decreases |items|
  {
    var node, n := Resetting(kernel, acceptsInvalid), |items| - 1;
    RunSnoc(node, items);
    if k < n {
      ResetForgets(kernel, acceptsInvalid, items[..n], i, k);
    } else {
      CountsGrow(items[..n], acceptsInvalid, i);
    }
  }

  lemma CountingStep(acceptsInvalid: bool, seen: seq<Item>, item: Item)
    requires Processed(item, acceptsInvalid)
    ensures var (st, out) := MapStep(Resetting(Counting(), acceptsInvalid), seen, item);
            st.MapState? && |out| == 1 && out[0].value == Atom(|st.seen|)
  {
    var node := Resetting(Counting(), acceptsInvalid);
    var past := if item.overrun then [] else seen;
    var values := node.kernel(past + [item]);
    assert values == [Emitted(Atom(|past + [item]|), item.start, item.end, OK)];
    assert MapStep(node, seen, item).1 == [MapOutput(item, values[0])];
  }

  lemma {:induction false} ResetCounts(acceptsInvalid: bool, items: seq<Item>, i: nat, k: nat, j: nat)
    requires i < k <= j < |items| && items[k].overrun
    requires Processed(items[i], acceptsInvalid) && Processed(items[j], acceptsInvalid)
    ensures var out := Run(Resetting(Counting(), acceptsInvalid), items).1;
            |out| == |items| && out[j].value.Atom? && out[j].value.id < ProcessedCount(items[..j + 1], acceptsInvalid)
  {
    var node, now := Resetting(Counting(), acceptsInvalid), items[..j + 1];
    assert now[..j] == items[..j] && now[j] == items[j];
    RunSnoc(node, now);
    ResetForgets(Counting(), acceptsInvalid, now, i, k);
    CountingStep(acceptsInvalid, Run(node, items[..j]).0.seen, items[j]);
    OneEach(node, items, j);
  }

  lemma NativeCountsAt(acceptsInvalid: bool, items: seq<Item>, input: seq<TickItem>, j: nat)
    requires Follows(items, input) && |items| == |input| && j < |items| && Processed(items[j], acceptsInvalid)
    ensures var out := Applied(Counting(), acceptsInvalid, input).1;
            |out| == |input| && out[j].value == Atom(ProcessedCount(items[..j + 1], acceptsInvalid))
  {
    NativeCounts(items, input, acceptsInvalid, j);
    FollowsAt(items, input, j);
    AppliedAt(Counting(), acceptsInvalid, input, j);
    assert items[..j + 1][..j] == items[..j];
  }

  lemma ResetDiffers(acceptsInvalid: bool, items: seq<Item>, input: seq<TickItem>, i: nat, k: nat, j: nat)
    requires Follows(items, input) && i < k <= j < |items| && items[k].overrun
    requires Processed(items[i], acceptsInvalid) && Processed(items[j], acceptsInvalid)
    ensures !Alike(Counting(), acceptsInvalid, items, input)
  {
    assert |items| == |AsItems(input)| == |input|;
    ResetCounts(acceptsInvalid, items, i, k, j);
    NativeCountsAt(acceptsInvalid, items, input, j);
    var python, native :=
      Run(Resetting(Counting(), acceptsInvalid), items).1, Applied(Counting(), acceptsInvalid, input).1;
    assert python[j].value != AsItems(native)[j].value;
  }

  /** Two items with a gap between them: Python counts each as the first, the native
      loop counts on. */
  lemma NativeKeepsCounting()
    ensures var items := [Item(Atom(0), 0.0, 1.0, OK, false), Item(Atom(0), 1.0, 2.0, OK, true)];
            var input := [TickItem(Atom(0), 0, 1, OK, 0, false), TickItem(Atom(0), 1, 2, OK, 1, true)];
            && Follows(items, input) && !NeverReset(items, true)
            && Values(Run(Resetting(Counting(), true), items).1) == [Atom(1), Atom(1)]
            && Values(AsItems(Applied(Counting(), true, input).1)) == [Atom(1), Atom(2)]
  {
    var a, b := Item(Atom(0), 0.0, 1.0, OK, false), Item(Atom(0), 1.0, 2.0, OK, true);
    var x, y := TickItem(Atom(0), 0, 1, OK, 0, false), TickItem(Atom(0), 1, 2, OK, 1, true);
    assert [a, b][..1] == [a] && [a][..0] == [] && [x, y][..1] == [x] && [x][..0] == [];
    OneEach(Resetting(Counting(), true), [a, b], 0);
    OneEach(Resetting(Counting(), true), [a, b], 1);
    CountingStep(true, [], a);
    CountingStep(true, [a], b);
    assert [a, b] == AsItems([x, y]);
    assert [a, b][1].overrun && Processed(a, true) && Processed(b, true);
  }

  /** Such a MAP emits one item per item, so output j is that of item j. */
  lemma {:induction false} OneEach(node: Node, items: seq<Item>, j: nat)
    requires node.Map? && j < |items| && forall s :: s != [] ==> |node.kernel(s)| == 1
    ensures |Run(node, items).1| == |items| && |Step(node, Run(node, items[..j]).0, items[j]).1| == 1
    ensures Run(node, items).1[j] == Step(node, Run(node, items[..j]).0, items[j]).1[0]
    decreases |items|
  {
    var n := |items| - 1;
    RunSnoc(node, items);
    if n > 0 { OneEach(node, items[..n], if j < n then j else 0); }
    assert |Step(node, Run(node, items[..n]).0, items[n]).1| == 1;
    if j < n { assert items[..n][..j] == items[..j]; }
  }

  lemma {:induction false} AppliedAt(kernel: NativeKernel, acceptsInvalid: bool, input: seq<TickItem>, j: nat)
    requires j < |input|
    ensures |Applied(kernel, acceptsInvalid, input).1| == |input|
    ensures Applied(kernel, acceptsInvalid, input).1[j] ==
            Apply(kernel, acceptsInvalid, Applied(kernel, acceptsInvalid, input[..j]).0, input[j]).1
    decreases |input|
  {
    var n := |input| - 1;
    if n > 0 { AppliedAt(kernel, acceptsInvalid, input[..n], if j < n then j else 0); }
    if j < n { assert input[..n][..j] == input[..j]; }
  }

  /** The native loop never resets a kernel. It computes what Python does, whatever the
      kernel, exactly when no reset would matter. */
  lemma ResetAgreesIff(acceptsInvalid: bool, items: seq<Item>, input: seq<TickItem>)
    requires Follows(items, input)
    ensures (forall kernel: NativeKernel :: Alike(kernel, acceptsInvalid, items, input)) <==>
            NeverReset(items, acceptsInvalid)
  {
    if NeverReset(items, acceptsInvalid) {
      forall kernel: NativeKernel ensures Alike(kernel, acceptsInvalid, items, input) {
        AppliedFollows(Resetting(kernel, acceptsInvalid), kernel, items, input);
      }
    } else {
      var i, k, j :| 0 <= i < k <= j < |items| && items[k].overrun &&
                     Processed(items[i], acceptsInvalid) && Processed(items[j], acceptsInvalid);
      ResetDiffers(acceptsInvalid, items, input, i, k, j);
    }
  }
}
