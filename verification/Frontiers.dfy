/** Frontiers: the time before which a port promises to publish nothing more.
    Merges and LATEST inputs rely on this promise; here every node keeps it. */
module Frontiers {
  import opened Stream
  import opened Operators

  ghost predicate AllValid(items: seq<Item>) {
    forall i :: 0 <= i < |items| ==> items[i].Valid()
  }

  /** How far an item reaches: later items must start no earlier. For a FRAME with
      overlapping windows that is the item's start, for every other node its end. */
  function Reach(node: Node, item: Item): real {
    if node.Frame? && node.hop < node.size then item.start else item.end
  }

  /** An item that may start anywhere: HOLD fires it on the pending grid, unless it
      follows a gap, and SAMPLE publishes only the items it keeps. */
  predicate Free(node: Node, item: Item)
    requires node.Valid()
  {
    match node
    case Rate(_, _, HOLD) => !item.overrun
    case Rate(_, period, SAMPLE) => !IsMultiple(item.start, period)
    case _ => false
  }

  /** The input on which the node keeps the promise of its frontier. */
  ghost predicate Suits(node: Node, items: seq<Item>)
    requires node.Valid()
  {
    && AllValid(items)
    && forall i, j :: 0 <= i < j < |items| ==> Free(node, items[j]) || Reach(node, items[i]) <= items[j].start
  }

  function Later(a: real, b: real): real { if a < b then b else a }

  /** How far everything up to now reaches. */
  function Up(node: Node, e: real, items: seq<Item>): real
    decreases |items|
  {
    if items == [] then e else Later(Up(node, e, items[..|items| - 1]), Reach(node, items[|items| - 1]))
  }

  /** What _advance_frontier is called with after one input item. */
  function StepFrontier(node: Node, st: NodeState, item: Item): real
    requires node.Valid() && Fits(node, st)
  {
    match node
    case Source(_) => item.end
    case Rate(_, _, _) => item.end
    case Map(_, _, _, _) => item.end
    case Frame(_, size, hop, _) =>
      var kept := if item.overrun then [] else st.history;
      var toSkip := if item.overrun then 0 else st.skip;
      var full := kept + [item];
      if toSkip > 0 then item.end
      else if |full| < size then full[0].start
      else if hop < |full| then full[hop].start
      else item.end
  }

  /** The frontier of a node's port after it has read `items`: it only rises. */
  function Frontier(node: Node, items: seq<Item>): Option<real>
    requires node.Valid()
    decreases |items|
  {
    if items == [] then None
    else
      var before, last := items[..|items| - 1], items[|items| - 1];
      var was, now := Frontier(node, before), StepFrontier(node, Run(node, before).0, last);
      if was.None? || now > was.value then Some(now) else was
  }

  /** A kernel that answers with bare values, or with emissions that start no
      earlier than its input. */
  ghost predicate Causal(node: Node) {
    node.Map? ==> forall items: seq<Item> :: |items| > 0 ==> ValuesFrom(node.kernel(items), items[|items| - 1].start)
  }

  ghost predicate ValuesFrom(values: seq<KernelValue>, t: real) {
    forall i :: 0 <= i < |values| && values[i].Emitted? ==> values[i].start >= t
  }

  /** The state after items that reach up to e. */
  ghost predicate Waiting(node: Node, st: NodeState, e: real)
    requires Fits(node, st)
  {
    match node
    case Source(_) => true
    case Rate(_, _, policy) => policy == HOLD && st.next.Some? ==> st.next.value >= e
    case Frame(_, size, hop, _) =>
      && InOrder(node, st.history) && (st.history != [] ==> Reach(node, st.history[|st.history| - 1]) <= e)
      && |st.history| < size && (st.skip > 0 ==> st.history == [] && hop >= size)
    case Map(_, _, _, _) => true
  }

  ghost predicate InOrder(node: Node, items: seq<Item>) {
    AllValid(items) && forall i, j :: 0 <= i < j < |items| ==> Reach(node, items[i]) <= items[j].start
  }

  /** The earliest start a further output can have. */
  function Earliest(st: NodeState, e: real): real {
    if st.FrameState? && st.history != [] then st.history[0].start else e
  }

  ghost predicate StartsFrom(items: seq<Item>, t: real) {
    forall i :: 0 <= i < |items| ==> items[i].start >= t
  }

  /** The next item of a node in state st may come. */
  ghost predicate MayFollow(node: Node, st: NodeState, item: Item, e: real)
    requires node.Valid() && Fits(node, st)
  {
    item.Valid() && (item.start >= e || (Free(node, item) && (st.RateState? && node.policy == HOLD ==> st.next.Some?)))
  }

  lemma RateWaits(next: Option<real>, item: Item, period: real, e: real)
    requires period > 0.0 && item.Valid() && (next.Some? ==> next.value >= e)
    requires item.start >= e || (!item.overrun && next.Some?)
    ensures NextFire(next, item, period) >= item.end && NextFire(next, item, period) >= e
    ensures StartsFrom(HoldOutputs(item, FirstFire(next, item, period), period), e)
  {
    var fire := FirstFire(next, item, period);
    if next.Some? && !item.overrun { PointsGrow(next.value, period, FireCount(next.value, item.start, period)); }
    var n := FireCount(fire, item.end, period);
    FireCountMeans(fire, item.end, period, n);
    PointsGrow(fire, period, n);
    forall k: nat | k < n ensures Point(fire, period, k) >= e { PointsGrow(fire, period, k); }
  }

  /** What a FRAME makes of its history once the next item is in. */
  function FullStep(full: seq<Item>, size: nat, hop: nat): (NodeState, seq<Item>)
    requires 0 < |full| <= size && hop > 0
  {
    if |full| < size then (FrameState(full, 0), [])
    else if hop <= size then (FrameState(full[hop..], 0), [MakeFrame(full)])
    else (FrameState([], hop - size), [MakeFrame(full)])
  }

  lemma FullWaits(node: Node, full: seq<Item>, now: real)
    requires node.Frame? && node.Valid() && InOrder(node, full) && 0 < |full| <= node.size
    requires Reach(node, full[|full| - 1]) <= now && (node.hop >= node.size ==> full[|full| - 1].end == now)
    ensures var (st, out) := FullStep(full, node.size, node.hop);
            && Waiting(node, st, now) && (forall o :: o in out ==> o.start == full[0].start)
            && Earliest(st, now) >= full[0].start
            && Earliest(st, now) == if |full| < node.size then full[0].start
                                    else if node.hop < |full| then full[node.hop].start else full[|full| - 1].end
  {
    if |full| == node.size && node.hop < node.size { HopsForward(node, full); }
    ReachIsBehind(node, full[|full| - 1]);
    if |full| > 1 { ReachIsBehind(node, full[0]); }
  }

  lemma FrameWaits(history: seq<Item>, skip: nat, item: Item, node: Node, e: real)
    requires node.Frame? && node.Valid() && Waiting(node, FrameState(history, skip), e) && item.start >= e &&
             item.Valid()
    ensures var (st, out) := FrameStep(history, skip, item, node.size, node.hop);
            var now := Later(e, Reach(node, item));
            && Waiting(node, st, now) && StartsFrom(out, Earliest(FrameState(history, skip), e))
            && StepFrontier(node, FrameState(history, skip), item) == Earliest(st, now)
            && Earliest(st, now) >= Earliest(FrameState(history, skip), e)
  {
    if item.overrun || skip == 0 {
      var full := (if item.overrun then [] else history) + [item];
      HistoryGrows(node, history, item, e);
      FullWaits(node, full, Later(e, Reach(node, item)));
      StepIsFull(history, skip, item, node);
    }
  }

  lemma StepIsFull(history: seq<Item>, skip: nat, item: Item, node: Node)
    requires node.Frame? && node.Valid() && |history| < node.size && (item.overrun || skip == 0)
    ensures var full := (if item.overrun then [] else history) + [item];
            && FrameStep(history, skip, item, node.size, node.hop) == FullStep(full, node.size, node.hop)
            && StepFrontier(node, FrameState(history, skip), item) ==
                 if |full| < node.size then full[0].start
                 else if node.hop < |full| then full[node.hop].start else full[|full| - 1].end
  {
    var full := (if item.overrun then [] else history) + [item];
    assert full[..|full|] == full;
  }

  lemma HistoryGrows(node: Node, history: seq<Item>, item: Item, e: real)
    requires InOrder(node, history) && (history != [] ==> Reach(node, history[|history| - 1]) <= e)
    requires item.start >= e && item.Valid()
    ensures InOrder(node, (if item.overrun then [] else history) + [item])
    ensures history != [] ==> history[0].start <= item.start
  {
    if history != [] { ReachIsBehind(node, history[|history| - 1]); }
  }

  lemma HopsForward(node: Node, full: seq<Item>)
    requires InOrder(node, full) && node.Frame? && 0 < node.hop < |full|
    ensures var rest := full[node.hop..]; InOrder(node, rest) && rest[|rest| - 1] == full[|full| - 1]
    ensures full[0].start <= full[node.hop].start
  {
    ReachIsBehind(node, full[0]);
  }

  lemma ReachIsBehind(node: Node, item: Item)
    requires item.Valid()
    ensures item.start <= Reach(node, item)
  {
  }

  lemma MapStarts(node: Node, seen: seq<Item>, item: Item, e: real)
    requires node.Map? && item.start >= e
    requires ValuesFrom(node.kernel((if item.overrun && node.resetOnGap then [] else seen) + [item]), item.start)
    ensures StartsFrom(MapStep(node, seen, item).1, e)
  {
    var values := node.kernel((if item.overrun && node.resetOnGap then [] else seen) + [item]);
    if !(item.status == INVALID && !node.acceptsInvalid) {
      forall i | 0 <= i < |values| ensures MapStep(node, seen, item).1[i].start >= e {
        assert MapStep(node, seen, item).1[i] == MapOutput(item, values[i]);
      }
    }
  }

  /** One step: outputs start no earlier than promised, and the promise only rises. */
  lemma StepKeepsPromise(node: Node, st: NodeState, item: Item, e: real)
    requires node.Valid() && Fits(node, st) && !node.Source? && Causal(node) && Waiting(node, st, e) &&
             MayFollow(node, st, item, e)
    ensures var (next, out) := Step(node, st, item);
            var now := Later(e, Reach(node, item));
            && Waiting(node, next, now) && StartsFrom(out, Earliest(st, e))
            && Later(Earliest(st, e), StepFrontier(node, st, item)) == Earliest(next, now)
            && (node.Rate? && node.policy == HOLD ==> next.next.Some?)
  {
    match node
    case Rate(_, period, policy) => if policy == HOLD { RateWaits(st.next, item, period, e); }
    case Frame(_, _, _, _) => FrameWaits(st.history, st.skip, item, node, e);
    case Map(_, kernel, _, resetOnGap) =>
      var past := if item.overrun && resetOnGap then [] else st.seen;
      assert (past + [item])[|past + [item]| - 1] == item;
      assert ValuesFrom(kernel(past + [item]), item.start);
      MapStarts(node, st.seen, item, e);
  }

  /** A first item promises nothing before its own start. */
  lemma FirstFrontier(node: Node, item: Item)
    requires node.Valid() && item.Valid()
    ensures StepFrontier(node, Init(node), item) >= item.start
  {
  }

  lemma {:induction false} UpBelow(node: Node, e: real, items: seq<Item>, t: real)
    requires e <= t && forall i :: 0 <= i < |items| ==> Reach(node, items[i]) <= t
    ensures Up(node, e, items) <= t
    decreases |items|
  {
    if items != [] { UpBelow(node, e, items[..|items| - 1], t); }
  }

  ghost predicate SuitsFrom(node: Node, items: seq<Item>, e: real)
    requires node.Valid()
  {
    Suits(node, items) && forall j :: 0 <= j < |items| ==> Free(node, items[j]) || items[j].start >= e
  }

  lemma SuitsLast(node: Node, items: seq<Item>, e: real)
    requires node.Valid() && SuitsFrom(node, items, e) && items != []
    ensures var before, last := items[..|items| - 1], items[|items| - 1];
            SuitsFrom(node, before, e) && last.Valid() && (Free(node, last) || last.start >= Up(node, e, before))
  {
    var before, last := items[..|items| - 1], items[|items| - 1];
    if !Free(node, last) { UpBelow(node, e, before, last.start); }
  }

  lemma {:induction false} RunKeepsPromise(node: Node, st: NodeState, items: seq<Item>, e: real)
    requires node.Valid() && Fits(node, st) && !node.Source? && Causal(node) && Waiting(node, st, e)
    requires SuitsFrom(node, items, e)
    requires node.Rate? && node.policy == HOLD && items != [] ==> st.next.Some? || items[0].start >= e
    ensures var (next, out) := RunFrom(node, st, items);
            var now := Up(node, e, items);
            && Waiting(node, next, now) && Earliest(next, now) >= Earliest(st, e) && StartsFrom(out, Earliest(st, e))
            && (node.Rate? && node.policy == HOLD ==> next.next.Some? || (items == [] && next == st))
    decreases |items|
  {
    if items != [] {
      var before, last := items[..|items| - 1], items[|items| - 1];
      SuitsLast(node, items, e);
      RunKeepsPromise(node, st, before, e);
      StepKeepsPromise(node, RunFrom(node, st, before).0, last, Up(node, e, before));
    }
  }

  /** How far the items read so far reach. */
  function Reached(node: Node, items: seq<Item>): real
    requires items != []
  {
    Up(node, items[0].start, items)
  }

  /** The frontier is exactly the earliest start still possible. */
  lemma {:induction false} FrontierIs(node: Node, items: seq<Item>)
    requires node.Valid() && !node.Source? && Causal(node) && Suits(node, items) && items != []
    ensures var st, e := Run(node, items).0, Reached(node, items);
            Waiting(node, st, e) && Frontier(node, items) == Some(Earliest(st, e))
    ensures node.Rate? && node.policy == HOLD ==> Run(node, items).0.next.Some?
    decreases |items|
  {
    var before, last := items[..|items| - 1], items[|items| - 1];
    RunSnoc(node, items);
    if before == [] {
      FirstFrontier(node, last);
      StepKeepsPromise(node, Init(node), last, last.start);
      assert Up(node, last.start, before) == last.start && Run(node, before).0 == Init(node);
    } else {
      FrontierIs(node, before);
      if !Free(node, last) {
        ReachIsBehind(node, before[0]);
        UpBelow(node, before[0].start, before, last.start);
      }
      StepKeepsPromise(node, Run(node, before).0, last, Reached(node, before));
    }
  }

  /** Whatever more arrives, and at the end of the input too, the port publishes
      nothing that starts before the frontier it has announced. */
  lemma FrontierIsKept(node: Node, items: seq<Item>, more: seq<Item>)
    requires node.Valid() && !node.Source? && Causal(node) && Suits(node, items + more) && items != []
    ensures Run(node, items).1 <= Denote(node, items + more)
    ensures Frontier(node, items).Some?
    ensures StartsFrom(Denote(node, items + more)[|Run(node, items).1|..], Frontier(node, items).value)
  {
    var st, e := Run(node, items).0, Reached(node, items);
    SuitsSplit(node, items, more);
    FrontierIs(node, items);
    RunKeepsPromise(node, st, more, e);
    DenoteSplit(node, items, more);
  }

  lemma SuitsSplit(node: Node, items: seq<Item>, more: seq<Item>)
    requires node.Valid() && Suits(node, items + more) && items != []
    ensures Suits(node, items) && SuitsFrom(node, more, Reached(node, items))
  {
    var n, all := |items|, items + more;
    assert forall i :: 0 <= i < |more| ==> all[n + i] == more[i];
    assert forall i :: 0 <= i < n ==> all[i] == items[i];
    forall j | 0 <= j < |more| && !Free(node, more[j]) ensures more[j].start >= Reached(node, items) {
      forall i | 0 <= i < n ensures Reach(node, items[i]) <= more[j].start {
        assert all[i] == items[i] && all[n + j] == more[j];
      }
      ReachIsBehind(node, items[0]);
      UpBelow(node, items[0].start, items, more[j].start);
    }
  }

  lemma DenoteSplit(node: Node, items: seq<Item>, more: seq<Item>)
    requires node.Valid() && !node.Source?
    ensures var (st, out) := Run(node, items);
            var (next, rest) := RunFrom(node, st, more);
            out <= Denote(node, items + more) && Denote(node, items + more)[|out|..] == rest + Flush(node, next)
  {
    RunConcat(node, Init(node), items, more);
    var (st, out) := Run(node, items);
    var (next, rest) := RunFrom(node, st, more);
    ConcatAssociates(out, rest, Flush(node, next));
  }

  // ----------------------------------------------- exactly when it is kept

  /** What the port still publishes once its node has read k items. */
  function Rest(node: Node, items: seq<Item>, k: nat): seq<Item>
    requires node.Valid() && !node.Source? && k <= |items|
  {
    var (st, out) := RunFrom(node, Run(node, items[..k]).0, items[k..]);
    out + Flush(node, st)
  }

  lemma RestIs(node: Node, items: seq<Item>, k: nat)
    requires node.Valid() && !node.Source? && k <= |items|
    ensures Denote(node, items) == Run(node, items[..k]).1 + Rest(node, items, k)
  {
    assert items[..k] + items[k..] == items;
    DenoteSplit(node, items[..k], items[k..]);
  }

  /** The node keeps every promise it makes while it reads `items`. */
  ghost predicate Keeps(node: Node, items: seq<Item>)
    requires node.Valid() && !node.Source?
  {
    forall k :: 1 <= k <= |items| ==> KeepsAt(node, items, k)
  }

  ghost predicate KeepsAt(node: Node, items: seq<Item>, k: nat)
    requires node.Valid() && !node.Source? && 1 <= k <= |items|
  {
    Frontier(node, items[..k]).Some? && StartsFrom(Rest(node, items, k), Frontier(node, items[..k]).value)
  }

  lemma SuitableIsKept(node: Node, items: seq<Item>)
    requires node.Valid() && !node.Source? && Causal(node) && Suits(node, items)
    ensures Keeps(node, items)
  {
    forall k | 1 <= k <= |items| ensures KeepsAt(node, items, k) {
      assert items[..k] + items[k..] == items;
      FrontierIsKept(node, items[..k], items[k..]);
      DenoteSplit(node, items[..k], items[k..]);
    }
  }

  /** The frontier has passed every promise made on the way. */
  lemma {:induction false} FrontierSoFar(node: Node, items: seq<Item>, i: nat)
    requires node.Valid() && i < |items|
    ensures Frontier(node, items).Some?
    ensures Frontier(node, items).value >= StepFrontier(node, Run(node, items[..i]).0, items[i])
    decreases |items|
  {
    var n := |items| - 1;
    if i < n {
      FrontierSoFar(node, items[..n], i);
      assert items[..n][..i] == items[..i];
    }
  }

  /** What the node announces with item i of its input. */
  function Announced(node: Node, items: seq<Item>, i: nat): real
    requires node.Valid() && i < |items|
  {
    StepFrontier(node, Run(node, items[..i]).0, items[i])
  }

  /** What it publishes with item j, or with the end of its input. */
  function Publishes(node: Node, items: seq<Item>, j: nat): seq<Item>
    requires node.Valid() && j <= |items|
  {
    var st := Run(node, items[..j]).0;
    if j < |items| then Step(node, st, items[j]).1 else Flush(node, st)
  }

  /** The frontier is one of the announcements. */
  lemma {:induction false} FrontierIsAnnounced(node: Node, items: seq<Item>) returns (i: nat)
    requires node.Valid() && items != []
    ensures i < |items| && Frontier(node, items) == Some(Announced(node, items, i))
    decreases |items|
  {
    var n := |items| - 1;
    i := n;
    if n > 0 {
      var k := FrontierIsAnnounced(node, items[..n]);
      assert items[..n][..k] == items[..k];
      if Frontier(node, items) == Frontier(node, items[..n]) { i := k; }
    }
  }

  lemma RestUnrolls(node: Node, items: seq<Item>, k: nat)
    requires node.Valid() && !node.Source? && k <= |items|
    ensures k < |items| ==> Rest(node, items, k) == Publishes(node, items, k) + Rest(node, items, k + 1)
    ensures k == |items| ==> Rest(node, items, k) == Publishes(node, items, k)
  {
    var st := Run(node, items[..k]).0;
    if k < |items| {
      RestIs(node, items, k);
      RestIs(node, items, k + 1);
      assert items[..k + 1] == items[..k] + [items[k]];
      RunFromSnoc(node, Init(node), items[..k], items[k]);
      var out := Run(node, items[..k]).1;
      ConcatAssociates(out, Publishes(node, items, k), Rest(node, items, k + 1));
      SameTail(out, Rest(node, items, k), Publishes(node, items, k) + Rest(node, items, k + 1));
    } else {
      assert items[..k] == items && items[k..] == [] && RunFrom(node, st, []) == (st, []);
      assert [] + Flush(node, st) == Flush(node, st);
    }
  }

  lemma SameTail(a: seq<Item>, x: seq<Item>, y: seq<Item>)
    requires a + x == a + y
    ensures x == y
  {
    assert (a + x)[|a|..] == x && (a + y)[|a|..] == y;
  }

  /** What is left to publish is what the later steps publish. */
  lemma {:induction false} RestStarts(node: Node, items: seq<Item>, k: nat, t: real)
    requires node.Valid() && !node.Source? && k <= |items|
    ensures StartsFrom(Rest(node, items, k), t) <==>
            forall j :: k <= j <= |items| ==> StartsFrom(Publishes(node, items, j), t)
    decreases |items| - k
  {
    RestUnrolls(node, items, k);
    if k < |items| {
      RestStarts(node, items, k + 1, t);
      StartsConcat(Publishes(node, items, k), Rest(node, items, k + 1), t);
    }
  }

  lemma StartsConcat(a: seq<Item>, b: seq<Item>, t: real)
    ensures StartsFrom(a + b, t) <==> StartsFrom(a, t) && StartsFrom(b, t)
  {
    assert forall i :: 0 <= i < |a| ==> (a + b)[i] == a[i];
    assert forall i :: 0 <= i < |b| ==> (a + b)[|a| + i] == b[i];
  }

  /** No step publishes anything that starts before what an earlier step announced. */
  ghost predicate StepsInOrder(node: Node, items: seq<Item>)
    requires node.Valid()
  {
    forall i, j :: 0 <= i < j <= |items| ==> StartsFrom(Publishes(node, items, j), Announced(node, items, i))
  }

  /** Every node, on every input, keeps its promise exactly when its single steps do. */
  lemma StepsInOrderIff(node: Node, items: seq<Item>)
    requires node.Valid() && !node.Source?
    ensures Keeps(node, items) <==> StepsInOrder(node, items)
  {
    if StepsInOrder(node, items) {
      forall k | 1 <= k <= |items| ensures KeepsAt(node, items, k) {
        var i := FrontierIsAnnounced(node, items[..k]);
        assert items[..k][..i] == items[..i];
        RestStarts(node, items, k, Announced(node, items, i));
      }
    }
    if Keeps(node, items) {
      forall i, j | 0 <= i < j <= |items| ensures StartsFrom(Publishes(node, items, j), Announced(node, items, i)) {
        assert KeepsAt(node, items, j) && items[..j][..i] == items[..i];
        FrontierSoFar(node, items[..j], i);
        RestStarts(node, items, j, Frontier(node, items[..j]).value);
      }
    }
  }

  /** For a HOLD: an item that fires does so no earlier than any end before it. */
  lemma HoldKeepsIff(node: Node, items: seq<Item>)
    requires node.Rate? && node.Valid() && node.policy == HOLD
    ensures Keeps(node, items) <==>
            forall i, j :: 0 <= i < j < |items| ==>
              var fire := FirstFire(HoldNext(items[..j], node.period), items[j], node.period);
              (fire >= items[j].end || fire >= items[i].end)
  {
    StepsInOrderIff(node, items);
    forall i, j | 0 <= i < j <= |items|
      ensures StartsFrom(Publishes(node, items, j), Announced(node, items, i)) <==>
              (j < |items| ==>
                 var fire := FirstFire(HoldNext(items[..j], node.period), items[j], node.period);
                 (fire >= items[j].end || fire >= items[i].end))
    {
      RateRun(node, items[..j]);
      if j < |items| {
        FiresFrom(items[j], FirstFire(HoldNext(items[..j], node.period), items[j], node.period), node.period,
          items[i].end);
      }
    }
  }

  lemma FiresFrom(item: Item, fire: real, period: real, t: real)
    requires period > 0.0
    ensures StartsFrom(HoldOutputs(item, fire, period), t) <==> fire >= item.end || fire >= t
  {
    var out := HoldOutputs(item, fire, period);
    FireCountMeans(fire, item.end, period, 0);
    forall q: nat | q < |out| ensures out[q].start >= fire { PointsGrow(fire, period, q); }
    if |out| > 0 { assert out[0].start == fire; }
  }

  /** A MAP with one output per input, or a SAMPLE, announces every end it has read. */
  lemma {:induction false} FrontierReaches(node: Node, items: seq<Item>, i: nat)
    requires node.Valid() && (node.Map? || node.Rate?) && i < |items|
    ensures Frontier(node, items).Some? && Frontier(node, items).value >= items[i].end
    decreases |items|
  {
    var n := |items| - 1;
    if i < n { FrontierReaches(node, items[..n], i); }
  }

  /** What item k of the input makes the node publish comes first of what is left. */
  lemma RestBegins(node: Node, items: seq<Item>, k: nat)
    requires node.Valid() && !node.Source? && k < |items|
    ensures Step(node, Run(node, items[..k]).0, items[k]).1 <= Rest(node, items, k)
  {
    var st := Run(node, items[..k]).0;
    assert items[k..] == [items[k]] + items[k + 1..] && [items[k]][..0] == [];
    RunFromSnoc(node, st, [], items[k]);
    assert [] + [items[k]] == [items[k]] && RunFrom(node, st, []) == (st, []);
    RunConcat(node, st, [items[k]], items[k + 1..]);
  }

  /** A MAP with one output per input, and a SAMPLE, keep the promise of their
      frontier exactly when nothing they publish starts before an end they have read. */
  lemma PromiseKeptIff(node: Node, items: seq<Item>)
    requires node.Valid() && AllValid(items)
    requires (node.Map? && OneRawOutput(node.kernel)) || (node.Rate? && node.policy == SAMPLE)
    ensures Keeps(node, items) <==> Suits(node, items)
  {
    if Suits(node, items) {
      if node.Map? {
        forall seen: seq<Item> | |seen| > 0 ensures ValuesFrom(node.kernel(seen), seen[|seen| - 1].start) { }
      }
      SuitableIsKept(node, items);
    }
    if Keeps(node, items) {
      forall i, j | 0 <= i < j < |items| && !Free(node, items[j]) ensures items[i].end <= items[j].start {
        assert KeepsAt(node, items, j);
        FrontierReaches(node, items[..j], i);
        RestBegins(node, items, j);
        var st := Run(node, items[..j]).0;
        if node.Map? { OneMapOutput(node, st.seen, items[j]); }
        assert Step(node, st, items[j]).1[0] == Rest(node, items, j)[0];
      }
    }
  }

  /** For a MAP that means intervals without overlap. */
  ghost predicate Disjoint(items: seq<Item>) {
    AllValid(items) && forall i, j :: 0 <= i < j < |items| ==> items[i].end <= items[j].start
  }

  lemma MapKeepsIff(node: Node, items: seq<Item>)
    requires node.Map? && OneRawOutput(node.kernel) && AllValid(items)
    ensures Keeps(node, items) <==> Disjoint(items)
  {
    PromiseKeptIff(node, items);
    forall i, j | 0 <= i < j < |items|
      ensures (Free(node, items[j]) || Reach(node, items[i]) <= items[j].start) <==> items[i].end <= items[j].start
    {
    }
  }

  /** Two overlapping frames through a MAP: it has announced the end of the first when
      it publishes the second, which starts earlier. */
  lemma OverlapBreaksPromise(kernel: Kernel)
    requires OneRawOutput(kernel)
    ensures var node := Map(0, kernel, true, false);
            !Keeps(node, [Item(Atom(0), 0.0, 2.0, OK, false), Item(Atom(1), 1.0, 3.0, OK, false)])
  {
    var node, items := Map(0, kernel, true, false),
      [Item(Atom(0), 0.0, 2.0, OK, false), Item(Atom(1), 1.0, 3.0, OK, false)];
    assert items[0].end > items[1].start;
    MapKeepsIff(node, items);
  }
}
