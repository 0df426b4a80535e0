/** The nodes of a plan as sequential transducers: what one node does with one
    input item, and with the end of its input. */
module Operators {
  import opened Stream

  /** What a kernel returns: a bare value, or an Emission of its own. */
  datatype KernelValue = Raw(value: Value) | Emitted(value: Value, start: real, end: real, status: Status)

  /** A deterministic stateful kernel answers from everything it processed since
      its KernelState was created; the last element is the current input. */
  type Kernel = seq<Item> -> seq<KernelValue>

  datatype Node =
    | Source(items: seq<Item>)
    | Rate(input: nat, period: real, policy: RatePolicy)
    | Frame(input: nat, size: nat, hop: nat, padEnd: bool)
    | Map(input: nat, kernel: Kernel, acceptsInvalid: bool, resetOnGap: bool)
  {
    predicate Valid() {
      match this
      case Source(_) => true
      case Rate(_, period, _) => period > 0.0
      case Frame(_, size, hop, _) => size > 0 && hop > 0
      case Map(_, _, _, _) => true
    }
  }

  datatype NodeState =
    | RateState(next: Option<real>)
    | FrameState(history: seq<Item>, skip: nat)
    | MapState(seen: seq<Item>)

  function Init(node: Node): NodeState {
    match node
    case Source(_) => MapState([])
    case Rate(_, _, _) => RateState(None)
    case Frame(_, _, _, _) => FrameState([], 0)
    case Map(_, _, _, _) => MapState([])
  }

  /** The state constructor belongs to the node's kind. */
  predicate Fits(node: Node, st: NodeState) {
    match node
    case Source(_) => true
    case Rate(_, _, _) => st.RateState?
    case Frame(_, _, _, _) => st.FrameState?
    case Map(_, _, _, _) => st.MapState?
  }

  function RateStep(next: Option<real>, item: Item, period: real, policy: RatePolicy): (NodeState, seq<Item>)
    requires period > 0.0
  {
    if policy == SAMPLE then (RateState(next), SampleOutputs(item, period))
    else (RateState(Some(NextFire(next, item, period))), HoldOutputs(item, FirstFire(next, item, period), period))
  }

  function FrameStep(history: seq<Item>, skip: nat, item: Item, size: nat, hop: nat): (NodeState, seq<Item>)
    requires size > 0 && hop > 0
  {
    var kept := if item.overrun then [] else history;
    var toSkip := if item.overrun then 0 else skip;
    if toSkip > 0 then (FrameState(kept, toSkip - 1), [])
    else
      var full := kept + [item];
      if |full| < size then (FrameState(full, 0), [])
      else if hop <= |full| then (FrameState(full[hop..], 0), [MakeFrame(full[..size])])
      else (FrameState([], if hop > size then hop - size else 0), [MakeFrame(full[..size])])
  }

  /** One value a kernel returned for `item`, with what it inherits. */
  function MapOutput(item: Item, v: KernelValue): Item {
    match v
    case Raw(value) => item.(value := value)
    case Emitted(value, start, end, status) => Item(value, start, end, Worse(item.status, status), item.overrun)
  }

  function MapStep(node: Node, seen: seq<Item>, item: Item): (NodeState, seq<Item>)
    requires node.Map?
  {
    var past := if item.overrun && node.resetOnGap then [] else seen;
    if item.status == INVALID && !node.acceptsInvalid then (MapState(past), [item])
    else
      var values := node.kernel(past + [item]);
      (MapState(past + [item]), seq(|values|, (i: nat) requires i < |values| => MapOutput(item, values[i])))
  }

  function Step(node: Node, st: NodeState, item: Item): (r: (NodeState, seq<Item>))
    requires node.Valid() && Fits(node, st)
    ensures Fits(node, r.0)
  {
    match node
    case Source(_) => (st, [])
    case Rate(_, period, policy) => RateStep(st.next, item, period, policy)
    case Frame(_, size, hop, _) => FrameStep(st.history, st.skip, item, size, hop)
    case Map(_, _, _, _) => MapStep(node, st.seen, item)
  }

  /** The padding slots behind `last`: each as long as `last` is, DEGRADED, without a payload. */
  function PaddingItem(last: Item, k: nat): Item {
    var duration := last.end - last.start;
    Item(Padding, last.end + k as real * duration, last.end + k as real * duration + duration, DEGRADED, false)
  }

  function Padded(items: seq<Item>, size: nat): seq<Item>
    requires 0 < |items| <= size
  {
    items + seq(size - |items|, (k: nat) => PaddingItem(items[|items| - 1], k))
  }

  /** The frame that is formed when the input ends: the payloads that are held, filled up
      with empty slots that are as long as the last held item; INVALID when a held item is,
      and DEGRADED otherwise, for the slots are. */
  ghost predicate IsPadded(frame: Item, held: seq<Item>, size: nat)
    requires 0 < |held| < size
  {
    var last := held[|held| - 1];
    && frame.value == Tuple(seq(size, (i: nat) => if i < |held| then held[i].value else Padding))
    && frame.status == (if exists i :: 0 <= i < |held| && held[i].status == INVALID then INVALID else DEGRADED)
    && (frame.overrun <==> exists i :: 0 <= i < |held| && held[i].overrun)
    && frame.start == held[0].start
    && frame.end == last.end + (size - |held|) as real * (last.end - last.start)
  }

  lemma PaddedFrameIs(held: seq<Item>, size: nat)
    requires 0 < |held| < size
    ensures IsPadded(MakeFrame(Padded(held, size)), held, size)
  {
    var items, n := Padded(held, size), |held|;
    WorstMeans(items);
    PaddedStatus(held, size);
    assert Values(items) == seq(size, (i: nat) => if i < n then held[i].value else Padding);
    PaddedEnd(held[n - 1], size - n);
  }

  lemma PaddedEnd(last: Item, missing: nat)
    requires missing > 0
    ensures PaddingItem(last, missing - 1).end == last.end + missing as real * (last.end - last.start)
  {
    var duration := last.end - last.start;
    assert missing as real * duration == (missing - 1) as real * duration + duration;
  }

  lemma PaddedStatus(held: seq<Item>, size: nat)
    requires 0 < |held| < size
    ensures var items := Padded(held, size);
            && ((exists i :: 0 <= i < |items| && items[i].status == INVALID) <==>
                exists i :: 0 <= i < |held| && held[i].status == INVALID)
            && (exists i :: 0 <= i < |items| && items[i].status != OK)
            && (AnyOverrun(items) <==> exists i :: 0 <= i < |held| && held[i].overrun)
  {
    var items := Padded(held, size);
    assert forall i :: 0 <= i < |held| ==> items[i] == held[i];
    assert forall i :: |held| <= i < size ==> items[i].status == DEGRADED && !items[i].overrun;
    assert items[size - 1].status == DEGRADED;
  }

  /** What a node emits when its input ends. */
  function Flush(node: Node, st: NodeState): seq<Item>
    requires Fits(node, st)
  {
    if node.Frame? && node.padEnd && 0 < |st.history| <= node.size then [MakeFrame(Padded(st.history, node.size))]
    else []
  }

  /** The state after the input ended and was flushed. */
  function Flushed(node: Node, st: NodeState): (r: NodeState)
    requires Fits(node, st)
    ensures Fits(node, r)
  {
    if Flush(node, st) == [] then st else FrameState([], st.skip)
  }

  /** A node fed `items` from state `st`: its state afterwards and everything it emitted. */
  function RunFrom(node: Node, st: NodeState, items: seq<Item>): (r: (NodeState, seq<Item>))
    requires node.Valid() && Fits(node, st)
    ensures Fits(node, r.0)
    decreases |items|
  {
    if items == [] then (st, [])
    else
      var (mid, out) := RunFrom(node, st, items[..|items| - 1]);
      var (last, more) := Step(node, mid, items[|items| - 1]);
      (last, out + more)
  }

  function Run(node: Node, items: seq<Item>): (r: (NodeState, seq<Item>))
    requires node.Valid()
    ensures Fits(node, r.0)
  {
    RunFrom(node, Init(node), items)
  }

  /** The stream a node denotes, given its whole input: run, then flush. */
  function Denote(node: Node, input: seq<Item>): seq<Item>
    requires node.Valid()
  {
    if node.Source? then node.items
    else
      var (st, out) := Run(node, input);
      out + Flush(node, st)
  }

  /** A kernel that answers every input with one bare value. */
  ghost predicate OneRawOutput(kernel: Kernel) {
    forall items: seq<Item> :: |kernel(items)| == 1 && kernel(items)[0].Raw?
  }

  lemma OneMapOutput(node: Node, seen: seq<Item>, item: Item)
    requires node.Map? && OneRawOutput(node.kernel)
    ensures var out := MapStep(node, seen, item).1;
            |out| == 1 && out[0].start == item.start && out[0].end == item.end && out[0].overrun == item.overrun
  {
    var past := if item.overrun && node.resetOnGap then [] else seen;
    var values := node.kernel(past + [item]);
    if !(item.status == INVALID && !node.acceptsInvalid) {
      assert |values| == 1 && MapStep(node, seen, item).1[0] == MapOutput(item, values[0]);
    }
  }

  // -------------------------------------------------- laws of running a node

  lemma RunFromSnoc(node: Node, st: NodeState, items: seq<Item>, item: Item)
    requires node.Valid() && Fits(node, st)
    ensures var (mid, out) := RunFrom(node, st, items);
            var (last, more) := Step(node, mid, item);
            RunFrom(node, st, items + [item]) == (last, out + more)
  {
    assert (items + [item])[..|items|] == items;
  }

  lemma {:induction false} RunConcat(node: Node, st: NodeState, a: seq<Item>, b: seq<Item>)
    requires node.Valid() && Fits(node, st)
    ensures var (mid, out) := RunFrom(node, st, a);
            var (last, more) := RunFrom(node, mid, b);
            RunFrom(node, st, a + b) == (last, out + more)
    decreases |b|
  {
    if b == [] {
      assert a + b == a && RunFrom(node, st, a).1 + [] == RunFrom(node, st, a).1;
    } else {
      var before, item := b[..|b| - 1], b[|b| - 1];
      RunConcat(node, st, a, before);
      assert a + b == (a + before) + [item] && b == before + [item];
      RunFromSnoc(node, st, a + before, item);
      var (mid, out) := RunFrom(node, st, a);
      RunFromSnoc(node, mid, before, item);
      var (end, more) := RunFrom(node, mid, before);
      ConcatAssociates(out, more, Step(node, end, item).1);
    }
  }

  lemma RunSnoc(node: Node, items: seq<Item>)
    requires node.Valid() && |items| > 0
    ensures var (st, out) := Run(node, items[..|items| - 1]);
            var (last, more) := Step(node, st, items[|items| - 1]);
            Run(node, items) == (last, out + more)
  {
  }

  /** A longer input only ever extends the output. */
  lemma {:induction false} RunMonotone(node: Node, input: seq<Item>, k: nat)
    requires node.Valid() && k <= |input|
    ensures Run(node, input[..k]).1 <= Run(node, input).1
  {
    assert input == input[..k] + input[k..];
    RunConcat(node, Init(node), input[..k], input[k..]);
  }

  /** Whatever a MAP emits answers one item of its input: an INVALID item that it does not
      accept, as it is; otherwise a value its kernel returned for the item, with the item's
      flag, no better than the item's status, and with its very interval and status when the
      value is bare. */
  lemma {:induction false} MapEmitsAnswers(node: Node, items: seq<Item>, k: nat)
    returns (i: nat, past: seq<Item>, m: nat)
    requires node.Map? && k < |Run(node, items).1|
    ensures i < |items|
    ensures var item, out := items[i], Run(node, items).1[k];
            if item.status == INVALID && !node.acceptsInvalid then out == item
            else m < |node.kernel(past + [item])| && Answers(out, item, node.kernel(past + [item])[m])
    decreases |items|
  {
    var n := |items| - 1;
    var (st, out) := Run(node, items[..n]);
    RunSnoc(node, items);
    if k < |out| {
      i, past, m := MapEmitsAnswers(node, items[..n], k);
    } else {
      i, past, m := n, if items[n].overrun && node.resetOnGap then [] else st.seen, k - |out|;
      var (_, more) := MapStep(node, st.seen, items[n]);
      assert Run(node, items).1[k] == more[m];
      if !(items[n].status == INVALID && !node.acceptsInvalid) {
        assert more[m] == MapOutput(items[n], node.kernel(past + [items[n]])[m]);
      }
    }
  }

  ghost predicate Answers(out: Item, item: Item, v: KernelValue) {
    && out.value == v.value && out.overrun == item.overrun
    && (v.Raw? ==> out.start == item.start && out.end == item.end && out.status == item.status)
    && (v.Emitted? ==> out.start == v.start && out.end == v.end)
    && (v.Emitted? ==> (out.status == INVALID <==> item.status == INVALID || v.status == INVALID))
    && (v.Emitted? ==> (out.status == OK <==> item.status == OK && v.status == OK))
  }

  /** RATE: the step function folds to the stream meaning. */
  lemma {:induction false} RateRun(node: Node, items: seq<Item>)
    requires node.Rate? && node.Valid()
    ensures node.policy == SAMPLE ==> Run(node, items) == (RateState(None), SampleRun(items, node.period))
    ensures node.policy == HOLD ==>
            Run(node, items) == (RateState(HoldNext(items, node.period)), HoldRun(items, node.period))
    decreases |items|
  {
    if items != [] { RateRun(node, items[..|items| - 1]); }
  }

  /** What a FRAME node holds when n gap-free items completed c frames: the items
      from the start of frame c on, or the number still to skip. */
  function Holding(items: seq<Item>, c: nat, hop: nat): NodeState {
    var from := Offset(c, hop);
    if from <= |items| then FrameState(items[from..], 0) else FrameState([], from - |items|)
  }

  /** One more item completes frame c or leaves the count as it is. */
  lemma FramesGrow(items: seq<Item>, size: nat, hop: nat)
    requires size > 0 && hop > 0 && |items| > 0
    ensures var n, before := |items|, items[..|items| - 1];
            var c := FrameCount(n - 1, size, hop);
            n <= Offset(c, hop) + size &&
            if n < Offset(c, hop) + size then
              FrameCount(n, size, hop) == c && Frames(items, size, hop) == Frames(before, size, hop) + []
            else FrameCount(n, size, hop) == c + 1 &&
                 Frames(items, size, hop) == Frames(before, size, hop) + [FrameAt(items, size, hop, c)]
  {
    var n, c := |items|, FrameCount(|items| - 1, size, hop);
    FrameCounted(n - 1, size, hop, c);
    FrameCounted(n, size, hop, c);
    FrameCounted(n, size, hop, c + 1);
    if c > 0 {
      FrameCounted(n - 1, size, hop, c - 1);
      FrameCounted(n, size, hop, c - 1);
    }
    SameFrames(items, n - 1, size, hop, c);
  }

  lemma HoldingStep(items: seq<Item>, c: nat, size: nat, hop: nat)
    requires size > 0 && hop > 0 && |items| > 0 && |items| <= Offset(c, hop) + size
    requires |items| == 1 ==> c == 0
    requires |items| > 1 ==> !items[|items| - 1].overrun
    ensures var before, last := Holding(items[..|items| - 1], c, hop), items[|items| - 1];
            FrameStep(before.history, before.skip, last, size, hop) ==
              if |items| < Offset(c, hop) + size then (Holding(items, c, hop), [])
              else (Holding(items, c + 1, hop), [FrameAt(items, size, hop, c)])
  {
    var n, at := |items|, Offset(c, hop);
    if at < n {
      HeldGrows(items, at);
      if n == at + size { FrameTaken(items, at, size, hop); }
    } else if at == n {
      assert items[at..] == [];
    }
  }

  lemma HeldGrows(items: seq<Item>, at: nat)
    requires at < |items|
    ensures items[..|items| - 1][at..] + [items[|items| - 1]] == items[at..]
    ensures |items| == 1 ==> items[..|items| - 1][at..] == []
  {
  }

  lemma FrameTaken(items: seq<Item>, at: nat, size: nat, hop: nat)
    requires at + size == |items|
    ensures items[at..][..size] == items[at..at + size]
    ensures hop <= size ==> items[at..][hop..] == items[at + hop..]
  {
  }

  /** FRAME on a gap-free run: the frames at offsets 0, hop, 2 * hop, ... and what is held. */
  lemma {:induction false} GapFreeFrames(node: Node, items: seq<Item>)
    requires node.Frame? && node.Valid()
    requires forall i :: 1 <= i < |items| ==> !items[i].overrun
    ensures Run(node, items) ==
            (Holding(items, FrameCount(|items|, node.size, node.hop), node.hop), Frames(items, node.size, node.hop))
    decreases |items|
  {
    var size, hop, n := node.size, node.hop, |items|;
    if n > 0 {
      var before, c := items[..n - 1], FrameCount(n - 1, size, hop);
      GapFreeFrames(node, before);
      FramesGrow(items, size, hop);
      HoldingStep(items, c, size, hop);
      RunSnoc(node, items);
      var r := Step(node, Holding(before, c, hop), items[n - 1]);
      assert Run(node, items) == (r.0, Frames(before, size, hop) + r.1);
    } else {
      assert Frames(items, size, hop) == [];
    }
  }

  /** The first c frames of a prefix are the first c frames of the whole. */
  lemma SameFrames(items: seq<Item>, k: nat, size: nat, hop: nat, c: nat)
    requires size > 0 && hop > 0 && k <= |items|
    requires c <= FrameCount(k, size, hop) && c <= FrameCount(|items|, size, hop)
    ensures Frames(items[..k], size, hop)[..c] == Frames(items, size, hop)[..c]
  {
    forall j | 0 <= j < c ensures Frames(items[..k], size, hop)[j] == Frames(items, size, hop)[j] {
      FrameCounted(k, size, hop, j);
      assert items[..k][Offset(j, hop)..Offset(j, hop) + size] == items[Offset(j, hop)..Offset(j, hop) + size];
    }
  }

  /** The history buffer, as large as one frame, never overflows. */
  lemma {:induction false} HistoryFits(node: Node, items: seq<Item>)
    requires node.Frame? && node.Valid()
    ensures |Run(node, items).0.history| < node.size
    decreases |items|
  {
    if items != [] {
      HistoryFits(node, items[..|items| - 1]);
      RunSnoc(node, items);
    }
  }

  /** An item after a gap discards whatever a FRAME had collected. */
  lemma {:induction false} GapForgets(node: Node, st: NodeState, items: seq<Item>)
    requires node.Frame? && node.Valid() && st.FrameState?
    requires |items| > 0 && items[0].overrun
    ensures RunFrom(node, st, items) == Run(node, items)
    decreases |items|
  {
    if |items| > 1 {
      GapForgets(node, st, items[..|items| - 1]);
    } else {
      assert RunFrom(node, st, items[..0]) == (st, []) && RunFrom(node, Init(node), items[..0]) == (Init(node), []);
    }
  }

  /** FRAME: the streaming step folds, on every input, to the frames of each
      segment, at offsets 0, hop, 2 * hop, ... of that segment. */
  lemma {:induction false} StreamingFrames(node: Node, items: seq<Item>)
    requires node.Frame? && node.Valid()
    ensures Run(node, items).1 == SegmentedFrames(items, node.size, node.hop)
    decreases |items|
  {
    if items != [] {
      var e := SegmentEnd(items);
      GapFreeFrames(node, items[..e]);
      StreamingFrames(node, items[e..]);
      assert items == items[..e] + items[e..];
      RunConcat(node, Init(node), items[..e], items[e..]);
      if e < |items| { GapForgets(node, Run(node, items[..e]).0, items[e..]); }
    }
  }

  /** The items behind the last gap. */
  function LastSegmentOf(items: seq<Item>): seq<Item>
    decreases |items|
  {
    if items == [] || SegmentEnd(items) == |items| then items else LastSegmentOf(items[SegmentEnd(items)..])
  }

  ghost predicate Unbroken(items: seq<Item>) { forall i :: 1 <= i < |items| ==> !items[i].overrun }

  lemma {:induction false} LastSegmentIsGapFree(items: seq<Item>)
    ensures Unbroken(LastSegmentOf(items))
    ensures Unbroken(items) ==> LastSegmentOf(items) == items
    decreases |items|
  {
    if items != [] {
      var e := SegmentEnd(items);
      if e < |items| {
        LastSegmentIsGapFree(items[e..]);
      } else {
        assert Unbroken(items) && LastSegmentOf(items) == items;
      }
    }
  }

  /** Of everything before the last gap nothing is left in the state. */
  lemma {:induction false} OnlyLastSegmentHeld(node: Node, items: seq<Item>)
    requires node.Frame? && node.Valid()
    ensures Run(node, items).0 == Run(node, LastSegmentOf(items)).0
    decreases |items|
  {
    if items != [] && SegmentEnd(items) < |items| {
      var e := SegmentEnd(items);
      OnlyLastSegmentHeld(node, items[e..]);
      assert items == items[..e] + items[e..];
      RunConcat(node, Init(node), items[..e], items[e..]);
      GapForgets(node, Run(node, items[..e]).0, items[e..]);
    }
  }

  /** What remains of the last segment when its frames are taken. */
  function Unframed(node: Node, items: seq<Item>): seq<Item>
    requires node.Frame? && node.Valid()
  {
    var tail := LastSegmentOf(items);
    var from := Offset(FrameCount(|tail|, node.size, node.hop), node.hop);
    if from <= |tail| then tail[from..] else []
  }

  lemma UnframedIsHeld(node: Node, items: seq<Item>)
    requires node.Frame? && node.Valid()
    ensures Run(node, items).0.history == Unframed(node, items) && |Unframed(node, items)| < node.size
  {
    var tail := LastSegmentOf(items);
    OnlyLastSegmentHeld(node, items);
    LastSegmentIsGapFree(items);
    GapFreeFrames(node, tail);
    FrameCounted(|tail|, node.size, node.hop, FrameCount(|tail|, node.size, node.hop));
  }

  /** End of input with padding: behind the frames of all segments one more frame, from
      the first hop boundary of the last segment that no complete frame started at,
      exactly when items remain there: their payloads and then empty slots, DEGRADED
      unless one of them is INVALID. */
  lemma PaddedTail(node: Node, items: seq<Item>)
    requires node.Frame? && node.Valid() && node.padEnd
    ensures var held, out, frames := Unframed(node, items), Denote(node, items),
              SegmentedFrames(items, node.size, node.hop);
            && |held| < node.size && |out| == |frames| + (if held != [] then 1 else 0) && frames <= out
            && (held != [] ==> IsPadded(out[|frames|], held, node.size))
  {
    StreamingFrames(node, items);
    UnframedIsHeld(node, items);
    if Unframed(node, items) != [] { PaddedFrameIs(Unframed(node, items), node.size); }
  }
}
