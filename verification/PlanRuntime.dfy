/** The streaming executor: nodes communicate through shared bounded buffers and
    are advanced one unit of work at a time, on demand of the observed roots. */
module PlanRuntimes {
  import opened Stream
  import opened Operators
  import opened Plans
  import opened Scheduling
  import opened PortBuffers

  /** One more item on the port: the held items, padded to a whole frame. */
  ghost predicate AddsPadded(before: Port, after: Port, size: nat) {
    && before.state.FrameState? && 0 < |before.state.history| < size
    && |after.published| == |before.published| + 1 && before.published <= after.published
    && IsPadded(after.published[|before.published|], before.state.history, size)
  }

  class PlanRuntime {
    const plan: Plan
    const limits: Limits
    const roots: seq<nat>
    const maxSchedulerSteps: Option<nat>
    const buffers: seq<PortBuffer<Item>>
    var states: seq<NodeState>
    var exhausted: set<nat>
    var sourceIndexes: seq<nat>
    var sourcePending: map<nat, Item>
    var boundaryBlocked: set<nat>
    var duration: Option<real>
    var publishedCounts: seq<nat>
    var seenCounts: seq<nat>
    var active: set<nat>
    var lastBudgetExhausted: bool
    var schedulerSteps: nat
    ghost var net: Network
    ghost var timely: bool    // nothing lay beyond the boundary when it was set

    // ------------------------------------------------------ representation

    /** Buffer i holds what port i published, and its cursors are its consumers' positions. */
    ghost predicate BufferWired(i: nat)
      requires i < |plan| && |buffers| == |plan| == |net| == |publishedCounts| && ValidLimits(plan, limits)
      reads this`net, this`publishedCounts, buffers[i]
    {
      && buffers[i].Valid() && buffers[i].maxItems == limits.capacities[i]
      && buffers[i].published == net[i].published && publishedCounts[i] == |net[i].published|
      && (forall c :: c in buffers[i].cursors <==> 0 <= c < |plan| && Reads(plan, c, i))
      && (forall c :: c in buffers[i].cursors ==> buffers[i].cursors[c] == net[c].used)
    }

    ghost predicate Wired()
      reads this`net, this`states, this`publishedCounts, this`exhausted, buffers
    {
      && |buffers| == |plan| == |net| == |states| == |publishedCounts|
      && WellFormed(plan) && ValidLimits(plan, limits)
      && (forall i, j :: 0 <= i < j < |buffers| ==> buffers[i] != buffers[j])
      && (forall i :: 0 <= i < |plan| ==> BufferWired(i))
      && (forall i :: 0 <= i < |plan| ==> states[i] == net[i].state)
      && (forall i :: i in exhausted <==> 0 <= i < |plan| && net[i].closed)
    }

    /** The iterator of a source is past what was published and what is held back. */
    static ghost predicate SourceAt(node: Node, s: nat, published: nat, index: nat, pending: map<nat, Item>) {
      node.Source? ==>
        && index == published + (if s in pending then 1 else 0) <= |node.items|
        && (s in pending ==> pending[s] == node.items[published])
    }

    ghost predicate SourcesWired(net: Network)
      requires |net| == |plan|
      reads this`sourceIndexes, this`sourcePending
    {
      && |sourceIndexes| == |plan|
      && forall s :: 0 <= s < |plan| ==> SourceAt(plan[s], s, |net[s].published|, sourceIndexes[s], sourcePending)
    }

    ghost predicate Valid()
      reads this`net, this`states, this`publishedCounts, this`exhausted, this`sourceIndexes, this`sourcePending,
            this`boundaryBlocked, this`duration, this`timely, buffers
    {
      && Wired() && SourcesWired(net) && Sound(plan, net) && Bounded(plan, limits)
      && (timely ==> Within(plan, net, duration))
      && (forall s :: s in boundaryBlocked ==> s < |plan| && AtBoundary(plan, net, s, duration))
    }

    /** A fresh run: one buffer per port, one cursor per input, nothing done yet. */
    constructor (plan: Plan, limits: Limits, roots: seq<nat>, maxSchedulerSteps: Option<nat>)
      requires WellFormed(plan) && ValidLimits(plan, limits) && Bounded(plan, limits)
      requires (forall r :: r in roots ==> r < |plan|) && Required(plan, RootSet(roots)) && Distinct(roots)
      requires maxSchedulerSteps.Some? ==> maxSchedulerSteps.value > 0
      ensures Running() && net == Start(plan) && duration == None
      ensures this.plan == plan && this.limits == limits && this.roots == roots &&
              this.maxSchedulerSteps == maxSchedulerSteps
      ensures fresh(buffers)
    {
      this.plan, this.limits, this.roots, this.maxSchedulerSteps := plan, limits, roots, maxSchedulerSteps;
      var made := MakeBuffers(plan, limits);
      buffers := made;
      states := seq(|plan|, i requires 0 <= i < |plan| => Init(plan[i]));
      exhausted, sourcePending, boundaryBlocked, duration := {}, map[], {}, None;
      sourceIndexes, publishedCounts, seenCounts := seq(|plan|, _ => 0), seq(|plan|, _ => 0), seq(|plan|, _ => 0);
      active := set r | r in roots;
      lastBudgetExhausted, schedulerSteps := false, 0;
      net, timely := Start(plan), true;
      new;
      StartIsSound(plan);
      forall i | 0 <= i < |plan| ensures BufferWired(i) { assert Registered(plan, limits, buffers[i], i, |plan|); }
    }

    /** Buffer i is empty and has a cursor for each of its consumers below n. */
    static ghost predicate Registered(plan: Plan, limits: Limits, buffer: PortBuffer<Item>, i: nat, n: nat)
      requires i < |plan| && ValidLimits(plan, limits)
      reads buffer
    {
      && buffer.Valid() && buffer.maxItems == limits.capacities[i] && buffer.published == []
      && (forall c :: c in buffer.cursors <==> 0 <= c < |plan| && c < n && Reads(plan, c, i))
    }

    static method MakeBuffers(plan: Plan, limits: Limits) returns (made: seq<PortBuffer<Item>>)
      requires WellFormed(plan) && ValidLimits(plan, limits)
      ensures |made| == |plan| && (forall i, j :: 0 <= i < j < |made| ==> made[i] != made[j])
      ensures forall i :: 0 <= i < |plan| ==> fresh(made[i]) && Registered(plan, limits, made[i], i, |plan|)
    {
      made := [];
      for i := 0 to |plan|
        invariant |made| == i && (forall j, k :: 0 <= j < k < i ==> made[j] != made[k])
        invariant forall j :: 0 <= j < i ==> fresh(made[j]) && Registered(plan, limits, made[j], j, 0)
      {
        var buffer := new PortBuffer<Item>(limits.capacities[i]);
        made := made + [buffer];
      }
      for c := 0 to |plan|
        invariant forall i :: 0 <= i < |plan| ==> fresh(made[i]) && Registered(plan, limits, made[i], i, c)
      {
        if !plan[c].Source? {
          var input := plan[c].input;
          assert Registered(plan, limits, made[input], input, c);
          var r := made[input].RegisterConsumer(c);
        }
        forall i | 0 <= i < |plan| ensures fresh(made[i]) && Registered(plan, limits, made[i], i, c + 1) {
          assert Registered(plan, limits, made[i], i, c) || Reads(plan, c, i);
        }
      }
    }

    // -------------------------------------------------------- buffer access

    lemma RoomIsCanPublish(i: nat, count: nat)
      requires Wired() && i < |plan|
      ensures buffers[i].CanPublish(count) <==> Room(plan, net, i, count, limits.capacities[i])
    {
      var b := buffers[i];
      assert BufferWired(i);
      b.RetainedIsLargestBacklog();
      if b.cursors != map[] {
        var slow :| slow in b.Queues() && b.Queues()[slow] == b.items;
        assert Reads(plan, slow, i) && Lag(plan, net, slow) == |b.items|;
      }
      forall c | 0 <= c < |plan| && Reads(plan, c, i)
        ensures c in b.cursors && Lag(plan, net, c) == |b.Queues()[c]| <= |b.items|
      {
        assert c in b.cursors;
      }
    }

    /** _publish: one item onto a port with room for it. */
    method Publish(i: nat, item: Item)
      requires Wired() && i < |plan| && Room(plan, net, i, 1, limits.capacities[i])
      modifies this`net, this`publishedCounts, buffers[i]
      ensures Wired()
      ensures net == old(net)[i := old(net[i]).(published := old(net[i].published) + [item])]
    {
      RoomIsCanPublish(i, 1);
      assert BufferWired(i);
      var r := buffers[i].Publish(item);
      publishedCounts := publishedCounts[i := publishedCounts[i] + 1];
      net := net[i := net[i].(published := net[i].published + [item])];
      forall j | 0 <= j < |plan| ensures BufferWired(j) { assert old(BufferWired(j)); }
    }

    /** CursorQueue.popleft on the input of node i. */
    method PopInput(i: nat) returns (item: Item)
      requires Wired() && i < |plan| && Pending(plan, net, i)
      modifies this`net, buffers[plan[i].input]
      ensures Wired()
      ensures item == old(net[plan[i].input].published)[old(net[i].used)]
      ensures net == old(net)[i := old(net[i]).(used := old(net[i].used) + 1)]
    {
      var input := plan[i].input;
      item := PopFrom(i, input);
      forall j | 0 <= j < |plan| && j != input ensures BufferWired(j) {
        assert old(BufferWired(j)) && buffers[j] != buffers[input] && !Reads(plan, i, j);
      }
    }

    method PopFrom(i: nat, input: nat) returns (item: Item)
      requires Wired() && i < |plan| && Pending(plan, net, i) && input == plan[i].input
      modifies this`net, buffers[input]
      ensures |net| == |plan| && BufferWired(input)
      ensures item == old(net[input].published)[old(net[i].used)]
      ensures net == old(net)[i := old(net[i]).(used := old(net[i].used) + 1)]
    {
      assert BufferWired(input) && Reads(plan, i, input);
      assert i in buffers[input].cursors;
      var r := buffers[input].Pop(i);
      item := r.value;
      net := net[i := net[i].(used := net[i].used + 1)];
    }

    /** queue[0]: the head of the input of node i. */
    method PeekInput(i: nat) returns (item: Item)
      requires Wired() && i < |plan| && Pending(plan, net, i)
      ensures item == net[plan[i].input].published[net[i].used]
    {
      var input := plan[i].input;
      assert BufferWired(input) && Reads(plan, i, input);
      assert i in buffers[input].cursors;
      var r := buffers[input].Peek(i);
      item := r.value;
    }

    /** bool(queue): whether the input of node i has an item for it. */
    method HasInput(i: nat) returns (has: bool)
      requires Wired() && i < |plan| && !plan[i].Source?
      ensures has <==> Pending(plan, net, i)
    {
      var input := plan[i].input;
      assert BufferWired(input) && Reads(plan, i, input);
      assert i in buffers[input].cursors;
      var count := buffers[input].PendingCount(i);
      has := count.value > 0;
    }

    /** The loop that publishes what one unit of work emits. */
    method PublishAll(i: nat, out: seq<Item>)
      requires Wired() && i < |plan| && Room(plan, net, i, |out|, limits.capacities[i])
      modifies this`net, this`publishedCounts, buffers[i]
      ensures Wired()
      ensures net == old(net)[i := old(net[i]).(published := old(net[i].published) + out)]
    {
      assert net[i].published + out[..0] == net[i].published;
      for k := 0 to |out|
        invariant Wired() && Room(plan, net, i, |out| - k, limits.capacities[i])
        invariant net == old(net)[i := old(net[i]).(published := old(net[i].published) + out[..k])]
      {
        ConcatAssociates(old(net[i].published), out[..k], [out[k]]);
        assert out[..k + 1] == out[..k] + [out[k]];
        Publish(i, out[k]);
      }
      assert out[..|out|] == out;
    }

    /** The node's new state, once its output is published. */
    method SetState(i: nat, state: NodeState)
      requires Wired() && i < |plan|
      modifies this`net, this`states
      ensures Wired() && net == old(net)[i := old(net[i]).(state := state)]
    {
      states := states[i := state];
      net := net[i := net[i].(state := state)];
      forall j | 0 <= j < |plan| ensures BufferWired(j) { assert old(BufferWired(j)); }
    }

    /** exhausted_ports.add */
    method Exhaust(i: nat)
      requires Wired() && i < |plan|
      modifies this`net, this`exhausted
      ensures Wired() && net == old(net)[i := old(net[i]).(closed := true)]
    {
      exhausted := exhausted + {i};
      net := net[i := net[i].(closed := true)];
      forall j | 0 <= j < |plan| ensures BufferWired(j) { assert old(BufferWired(j)); }
    }

    /** The run's own record that the end of the input was flushed. */
    ghost method MarkFlushed(i: nat)
      requires Wired() && i < |plan|
      modifies this`net
      ensures Wired() && net == old(net)[i := old(net[i]).(flushed := true)]
    {
      net := net[i := net[i].(flushed := true)];
      forall j | 0 <= j < |plan| ensures BufferWired(j) { assert old(BufferWired(j)); }
    }

    // ------------------------------------------------------ units of work

    /** Node i read one item, emitted `out` and went to `state`. */
    ghost predicate Consumed(was: Network, i: nat, state: NodeState, out: seq<Item>)
      requires i < |was|
      reads this
    {
      net == was[i := was[i].(published := was[i].published + out, used := was[i].used + 1, state := state)]
    }

    lemma FireConsumes(i: nat)
      requires Ready(i) && Pending(plan, net, i) && Fits(plan[i], net[i].state)
      ensures var (state, out) := Step(plan[i], net[i].state, net[plan[i].input].published[net[i].used]);
              Fire(plan, net, i) ==
                net[i := net[i].(published := net[i].published + out, used := net[i].used + 1, state := state)]
    {
    }

    /** What the handlers below start from: node i may work and has room to emit. */
    ghost predicate Ready(i: nat)
      reads this`net, this`states, this`publishedCounts, this`exhausted, buffers
    {
      && Wired() && Sound(plan, net) && Bounded(plan, limits) && i < |plan| && Enabled(plan, net, i)
      && Room(plan, net, i, limits.bursts[i], limits.capacities[i])
    }

    method ProcessFrameInput(i: nat)
      requires Ready(i) && plan[i].Frame? && Pending(plan, net, i)
      modifies this`net, this`publishedCounts, this`states, buffers[i], buffers[plan[i].input]
      ensures Wired() && net == Fire(plan, old(net), i)
    {
      StateFits(plan, net, i);
      assert NodeSound(plan, net, i);
      HistoryFits(plan[i], net[plan[i].input].published[..net[i].used]);
      assert net[i].published + [] == net[i].published;
      FireConsumes(i);
      var size, hop := plan[i].size, plan[i].hop;
      var history, skip := states[i].history, states[i].skip;
      var emission := PopInput(i);
      if emission.overrun {
        history := [];
        skip := 0;
      }
      if skip > 0 {
        SetState(i, FrameState(history, skip - 1));
        return;
      }
      history := history + [emission];
      if |history| < size {
        SetState(i, FrameState(history, skip));
        return;
      }
      Publish(i, MakeFrame(history[..size]));
      if hop <= |history| {
        history := history[hop..];
      } else {
        history := [];
        skip := hop - size;
      }
      SetState(i, FrameState(history, skip));
    }

    /** The padding loop: as many empty items as the frame lacks. */
    static method PadItems(history: seq<Item>, size: nat) returns (items: seq<Item>)
      requires 0 < |history| <= size
      ensures items == Padded(history, size)
    {
      items := history;
      var last := history[|history| - 1];
      var duration := last.end - last.start;
      for offset: nat := 0 to size - |history|
        invariant |items| == |history| + offset && items[..|history|] == history
        invariant forall k: nat :: k < offset ==> items[|history| + k] == PaddingItem(last, k)
      {
        var start := last.end + offset as real * duration;
        items := items + [Item(Padding, start, start + duration, DEGRADED, false)];
      }
    }

    /** EOF of a FRAME input: one padded frame if asked for and items are left. */
    method FlushPaddedFrame(i: nat) returns (flushed: bool)
      requires Ready(i) && plan[i].Frame? && !Pending(plan, net, i)
      modifies this`net, this`publishedCounts, this`states, buffers[i]
      ensures Wired() && Fits(plan[i], net[i].state)
      ensures if flushed then net == Fire(plan, old(net), i)
              else net == old(net) && Operators.Flush(plan[i], net[i].state) == []
      ensures flushed ==> AddsPadded(old(net[i]), net[i], plan[i].size)
    {
      StateFits(plan, net, i);
      assert NodeSound(plan, net, i);
      HistoryFits(plan[i], net[plan[i].input].published[..net[i].used]);
      var history := states[i].history;
      if !plan[i].padEnd || |history| == 0 { return false; }
      PaddedFrameIs(history, plan[i].size);
      var items := PadItems(history, plan[i].size);
      Publish(i, MakeFrame(items));
      SetState(i, FrameState([], states[i].skip));
      MarkFlushed(i);
      flushed := true;
    }

    /** `while state.next_fire < end`: one held emission per fire time. */
    method FireHeld(i: nat, source: Item, first: real, period: real) returns (nextFire: real)
      requires Wired() && i < |plan| && period > 0.0
      requires Room(plan, net, i, FireCount(first, source.end, period), limits.capacities[i])
      modifies this`net, this`publishedCounts, buffers[i]
      ensures Wired()
      ensures net == old(net)[i :=
              old(net[i]).(published := old(net[i].published) + HoldOutputs(source, first, period))]
      ensures nextFire == Point(first, period, FireCount(first, source.end, period))
    {
      nextFire := first;
      ghost var k: nat, out, was := 0, HoldOutputs(source, first, period), net[i].published;
      assert was + out[..0] == was;
      while nextFire < source.end
        invariant Wired() && k <= |out| && nextFire == Point(first, period, k)
        invariant Room(plan, net, i, |out| - k, limits.capacities[i])
        invariant net == old(net)[i := old(net[i]).(published := was + out[..k])]
        decreases |out| - k
      {
        FireCountMeans(first, source.end, period, k);
        ConcatAssociates(was, out[..k], [out[k]]);
        assert out[..k + 1] == out[..k] + [out[k]];
        Publish(i, source.(start := nextFire, end := nextFire + period));
        nextFire := nextFire + period;
        k := k + 1;
      }
      FireCountMeans(first, source.end, period, k);
      assert out[..k] == out;
    }

    /** HOLD: align the pending fire time with the item, then fire. */
    method HoldInput(i: nat, source: Item, pending: Option<real>, period: real) returns (nextFire: real)
      requires Wired() && i < |plan| && period > 0.0
      requires Room(plan, net, i, |HoldOutputs(source, FirstFire(pending, source, period), period)|,
               limits.capacities[i])
      modifies this`net, this`publishedCounts, buffers[i]
      ensures Wired() && nextFire == NextFire(pending, source, period)
      ensures net == old(net)[i :=
              old(net[i]).(published := old(net[i].published) +
                HoldOutputs(source, FirstFire(pending, source, period), period))]
    {
      var next := if source.overrun || pending.None? then source.start else pending.value;
      nextFire := AlignFire(next, source.start, period);
      if source.overrun || pending.None? { FireCountMeans(next, source.start, period, 0); }
      nextFire := FireHeld(i, source, nextFire, period);
    }

    /** `while state.next_fire < start`: whole periods are skipped at once. */
    static method AlignFire(next: real, start: real, period: real) returns (fire: real)
      requires period > 0.0
      ensures fire == Align(next, start, period)
    {
      SkipToGrid(next, start, period);
      fire := next;
      if fire < start {
        fire := fire + Ceil((start - fire) / period) as real * period;
      }
    }

    method ProcessRateInput(i: nat)
      requires Ready(i) && plan[i].Rate? && Pending(plan, net, i)
      modifies this`net, this`publishedCounts, this`states, buffers[i], buffers[plan[i].input]
      ensures Wired() && net == Fire(plan, old(net), i)
    {
      StateFits(plan, net, i);
      BurstHolds(plan, limits, net, i);
      FireConsumes(i);
      var pending := states[i].next;
      var source := PopInput(i);
      if plan[i].policy == SAMPLE {
        if IsMultiple(source.start, plan[i].period) {
          Publish(i, source);
        } else {
          assert net[i].published + [] == net[i].published;
        }
        assert Consumed(old(net), i, RateState(pending), SampleOutputs(source, plan[i].period));
      } else {
        var nextFire := HoldInput(i, source, pending, plan[i].period);
        SetState(i, RateState(Some(nextFire)));
      }
    }

    static lemma SkipToGrid(next: real, start: real, period: real)
      requires period > 0.0
      ensures Align(next, start, period) ==
              if next < start then next + Ceil((start - next) / period) as real * period else next
    {
      PointIs(next, period, FireCount(next, start, period));
    }

    method ProcessMap(i: nat)
      requires Ready(i) && plan[i].Map? && Pending(plan, net, i)
      modifies this`net, this`publishedCounts, this`states, buffers[i], buffers[plan[i].input]
      ensures Wired() && net == Fire(plan, old(net), i)
    {
      StateFits(plan, net, i);
      BurstHolds(plan, limits, net, i);
      var seen := states[i].seen;
      var main := PopInput(i);
      if main.overrun && plan[i].resetOnGap { seen := []; }
      if main.status == INVALID && !plan[i].acceptsInvalid {
        Publish(i, main);
        SetState(i, MapState(seen));
        return;
      }
      var values := plan[i].kernel(seen + [main]);
      PublishAll(i, seq(|values|, (k: nat) requires k < |values| => MapOutput(main, values[k])));
      SetState(i, MapState(seen + [main]));
    }

    // ------------------------------------------------------------- demand

    /** Work at a node that is no source leaves every source as it was. */
    lemma SourcesKept(was: Network, i: nat)
      requires Wired() && Sound(plan, was) && SourcesWired(was) && Bounded(plan, limits)
      requires i < |plan| && !plan[i].Source? && Enabled(plan, was, i) && net == Fire(plan, was, i)
      requires timely ==> Within(plan, was, duration)
      requires forall s :: s in boundaryBlocked ==> s < |plan| && AtBoundary(plan, was, s, duration)
      ensures Valid()
    {
      FireIsSound(plan, was, i);
      FireDoesWork(plan, was, i);
    }

    /** The item goes out, or it is held back until a later run_until. */
    method PublishSourceAtBoundary(i: nat, emission: Item) returns (progress: bool)
      requires Ready(i) && plan[i].Source? && |sourceIndexes| == |plan|
      requires |net[i].published| < |plan[i].items| && emission == plan[i].items[|net[i].published|]
      modifies this`net, this`publishedCounts, this`sourcePending, this`boundaryBlocked, buffers[i]
      ensures Wired()
      ensures progress <==> !AtBoundary(plan, old(net), i, duration)
      ensures progress ==> net == Fire(plan, old(net), i) && sourcePending == old(sourcePending) - {i}
      ensures progress ==> boundaryBlocked == old(boundaryBlocked) - {i}
      ensures !progress ==>
              net == old(net) && sourcePending == old(sourcePending)[i := emission] &&
                boundaryBlocked == old(boundaryBlocked) + {i}
    {
      if duration.Some? && emission.end > duration.value {
        sourcePending := sourcePending[i := emission];
        boundaryBlocked := boundaryBlocked + {i};
        return false;
      }
      sourcePending := sourcePending - {i};
      boundaryBlocked := boundaryBlocked - {i};
      Publish(i, emission);
      progress := true;
    }

    /** A source that published, held back or ended leaves every other source as it was. */
    lemma SourceWorked(was: Network, i: nat, indexes: seq<nat>, pending: map<nat, Item>)
      requires Wired() && Sound(plan, was) && Bounded(plan, limits) && |indexes| == |plan| == |sourceIndexes|
      requires i < |plan| && plan[i].Source? && Enabled(plan, was, i)
      requires net == was || (net == Fire(plan, was, i) && !AtBoundary(plan, was, i, duration))
      requires forall s :: 0 <= s < |plan| ==> SourceAt(plan[s], s, |was[s].published|, indexes[s], pending)
      requires forall s :: 0 <= s < |plan| && s != i ==>
        sourceIndexes[s] == indexes[s] && (s in sourcePending <==> s in pending) &&
          (s in pending ==> sourcePending[s] == pending[s])
      requires SourceAt(plan[i], i, |net[i].published|, sourceIndexes[i], sourcePending)
      requires timely ==> Within(plan, was, duration)
      requires forall s :: s in boundaryBlocked ==>
               s < |plan| && AtBoundary(plan, was, s, duration) && (s == i ==> net == was)
      ensures Valid()
    {
      if net != was {
        FireIsSound(plan, was, i);
        FireDoesWork(plan, was, i);
      }
      forall s | 0 <= s < |plan|
        ensures SourceAt(plan[s], s, |net[s].published|, sourceIndexes[s], sourcePending)
      {
        assert SourceAt(plan[s], s, |was[s].published|, indexes[s], pending);
      }
    }

    method AdvanceSource(i: nat) returns (progress: bool)
      requires Valid() && Ready(i) && plan[i].Source?
      modifies this`net, this`publishedCounts, this`exhausted, this`sourceIndexes, this`sourcePending,
        this`boundaryBlocked, buffers[i]
      ensures Valid()
      ensures progress <==> !AtBoundary(plan, old(net), i, duration)
      ensures net == if progress then Fire(plan, old(net), i) else old(net)
      ensures !progress ==> i in boundaryBlocked && old(boundaryBlocked) <= boundaryBlocked
    {
      ghost var was, indexes, pending := net, sourceIndexes, sourcePending;
      assert NodeSound(plan, net, i) && SourceAt(plan[i], i, |net[i].published|, sourceIndexes[i], sourcePending);
      if i in sourcePending {
        progress := PublishSourceAtBoundary(i, sourcePending[i]);
      } else if sourceIndexes[i] == |plan[i].items| {
        Exhaust(i);
        progress := true;
      } else {
        var emission := plan[i].items[sourceIndexes[i]];
        sourceIndexes := sourceIndexes[i := sourceIndexes[i] + 1];
        progress := PublishSourceAtBoundary(i, emission);
      }
      SourceWorked(was, i, indexes, pending);
    }

    method AdvanceFrame(i: nat) returns (progress: bool)
      requires Valid() && i < |plan| && plan[i].Frame? && !net[i].closed &&
               Room(plan, net, i, limits.bursts[i], limits.capacities[i])
      modifies this`net, this`publishedCounts, this`states, this`exhausted, this`sourceIndexes, this`sourcePending,
        this`boundaryBlocked, buffers
      ensures Valid()
      ensures progress <==> Demanded(plan, old(net), limits, duration, i).Work?
      ensures net == if progress then Fire(plan, old(net), Demanded(plan, old(net), limits, duration, i).node)
              else old(net)
      ensures Demanded(plan, old(net), limits, duration, i).Boundary? ==>
              Demanded(plan, old(net), limits, duration, i).source in boundaryBlocked
      ensures !progress ==> old(boundaryBlocked) <= boundaryBlocked
      decreases i, 0
    {
      ghost var was := net;
      var queued := HasInput(i);
      if queued {
        ProcessFrameInput(i);
        SourcesKept(was, i);
        return true;
      }
      if plan[i].input !in exhausted {
        progress := AdvancePort(plan[i].input);
        return;
      }
      var flushed := FlushPaddedFrame(i);
      if !flushed { Exhaust(i); }
      SourcesKept(was, i);
      progress := true;
    }

    method AdvanceRate(i: nat) returns (progress: bool)
      requires Valid() && i < |plan| && plan[i].Rate? && !net[i].closed &&
               Room(plan, net, i, limits.bursts[i], limits.capacities[i])
      modifies this`net, this`publishedCounts, this`states, this`exhausted, this`sourceIndexes, this`sourcePending,
        this`boundaryBlocked, buffers
      ensures Valid()
      ensures progress <==> Demanded(plan, old(net), limits, duration, i).Work?
      ensures net == if progress then Fire(plan, old(net), Demanded(plan, old(net), limits, duration, i).node)
              else old(net)
      ensures Demanded(plan, old(net), limits, duration, i).Boundary? ==>
              Demanded(plan, old(net), limits, duration, i).source in boundaryBlocked
      ensures !progress ==> old(boundaryBlocked) <= boundaryBlocked
      decreases i, 0
    {
      ghost var was := net;
      var queued := HasInput(i);
      if queued {
        ProcessRateInput(i);
        SourcesKept(was, i);
        return true;
      }
      if plan[i].input in exhausted {
        StateFits(plan, net, i);
        Exhaust(i);
        SourcesKept(was, i);
        return true;
      }
      progress := AdvancePort(plan[i].input);
    }

    method AdvanceMap(i: nat) returns (progress: bool)
      requires Valid() && i < |plan| && plan[i].Map? && !net[i].closed &&
               Room(plan, net, i, limits.bursts[i], limits.capacities[i])
      modifies this`net, this`publishedCounts, this`states, this`exhausted, this`sourceIndexes, this`sourcePending,
        this`boundaryBlocked, buffers
      ensures Valid()
      ensures progress <==> Demanded(plan, old(net), limits, duration, i).Work?
      ensures net == if progress then Fire(plan, old(net), Demanded(plan, old(net), limits, duration, i).node)
              else old(net)
      ensures Demanded(plan, old(net), limits, duration, i).Boundary? ==>
              Demanded(plan, old(net), limits, duration, i).source in boundaryBlocked
      ensures !progress ==> old(boundaryBlocked) <= boundaryBlocked
      decreases i, 0
    {
      ghost var was := net;
      var queued := HasInput(i);
      if !queued {
        if plan[i].input in exhausted {
          StateFits(plan, net, i);
          Exhaust(i);
          SourcesKept(was, i);
          return true;
        }
        progress := AdvancePort(plan[i].input);
        return;
      }
      ProcessMap(i);
      SourcesKept(was, i);
      progress := true;
    }

    /** One unit of work towards the demand on `port`: exactly the node that the
        demand asks for works, and nothing happens when no node may. */
    method AdvancePort(port: nat) returns (progress: bool)
      requires Valid() && port < |plan|
      modifies this`net, this`publishedCounts, this`states, this`exhausted, this`sourceIndexes, this`sourcePending,
        this`boundaryBlocked, buffers
      ensures Valid()
      ensures progress <==> Demanded(plan, old(net), limits, duration, port).Work?
      ensures net == if progress then Fire(plan, old(net), Demanded(plan, old(net), limits, duration, port).node)
              else old(net)
      ensures Demanded(plan, old(net), limits, duration, port).Boundary? ==>
              Demanded(plan, old(net), limits, duration, port).source in boundaryBlocked
      ensures !progress ==> old(boundaryBlocked) <= boundaryBlocked
      decreases port, 1
    {
      if port in exhausted { return false; }
      RoomIsCanPublish(port, limits.bursts[port]);
      if !buffers[port].CanPublish(limits.bursts[port]) { return false; }
      if plan[port].Source? {
        progress := AdvanceSource(port);
      } else if plan[port].Frame? {
        progress := AdvanceFrame(port);
      } else if plan[port].Rate? {
        progress := AdvanceRate(port);
      } else {
        progress := AdvanceMap(port);
      }
    }

    // -------------------------------------------------------- the session

    /** A started session. */
    ghost predicate Running()
      reads this, buffers
    {
      && Valid() && Consistent(plan, roots, net, seenCounts, active)
      && Distinct(roots) && (maxSchedulerSteps.Some? ==> maxSchedulerSteps.value > 0)
    }

    /** One root's turn in a round of _drive. */
    method Turn(port: nat) returns (progressed: bool, step: bool)
      requires Running() && port in roots
      modifies this`net, this`publishedCounts, this`states, this`exhausted, this`sourceIndexes, this`sourcePending,
               this`boundaryBlocked, this`seenCounts, this`active, buffers
      ensures Running()
      ensures if progressed then Ahead(plan, net, seenCounts) < Ahead(plan, old(net), old(seenCounts))
              else net == old(net) && seenCounts == old(seenCounts) && old(boundaryBlocked) <= boundaryBlocked &&
                   Idle(plan, net, limits, duration, boundaryBlocked, active, port)
      ensures Remaining(plan, net) == Remaining(plan, old(net)) - if step then 1 else 0
      ensures active <= old(active)
      ensures old(active) - {port} <= active && (step ==> port in active)
    {
      progressed, step := false, false;
      if port !in active {
        return;
      }
      assert BufferWired(port);
      if seenCounts[port] < publishedCounts[port] {
        SeeOne(plan, roots, net, seenCounts, active, port);
        seenCounts := seenCounts[port := seenCounts[port] + 1];
        progressed := true;
        return;
      }
      if port in exhausted {
        active := active - {port};
        return;
      }
      var worked := AdvancePort(port);
      if worked {
        Worked(plan, roots, old(net), seenCounts, active, Demanded(plan, old(net), limits, duration, port).node);
        progressed, step := true, true;
      } else {
        // a unit of work that ends a port is progress, so there is nothing to retire here
        assert port !in exhausted;
      }
    }

    /** One round of _drive: every root has a turn. */
    method Round() returns (progressed: bool, steps: nat)
      requires Running()
      modifies this`net, this`publishedCounts, this`states, this`exhausted, this`sourceIndexes, this`sourcePending,
               this`boundaryBlocked, this`seenCounts, this`active, this`schedulerSteps, buffers
      ensures Running()
      ensures if progressed then Ahead(plan, net, seenCounts) < Ahead(plan, old(net), old(seenCounts))
              else net == old(net) && seenCounts == old(seenCounts) &&
                   Tried(plan, net, limits, duration, boundaryBlocked, active, roots, |roots|)
      ensures Remaining(plan, net) + steps == Remaining(plan, old(net)) && schedulerSteps == old(schedulerSteps) + steps
      ensures steps <= |roots| && (steps > 0 ==> active != {})
    {
      progressed, steps := false, 0;
      ghost var mover, was, seen := 0, net, seenCounts;
      for k := 0 to |roots|
        invariant Running() && schedulerSteps == old(schedulerSteps) + steps
        invariant RoundSoFar(plan, was, seen, net, seenCounts, limits, duration, boundaryBlocked, active, roots, k,
                  progressed, steps, mover)
      {
        ghost var before, sawn, blocked, were := net, seenCounts, boundaryBlocked, active;
        var moved, step := Turn(roots[k]);
        mover := NextTurn(plan, was, seen, before, sawn, net, seenCounts, limits, duration, blocked, boundaryBlocked,
                          were, active, roots, k, progressed, moved, steps, mover, step);
        progressed := progressed || moved;
        if step {
          steps := steps + 1;
          CountStep();
        }
      }
    }

    method CountStep()
      requires Running()
      modifies this`schedulerSteps
      ensures Running() && schedulerSteps == old(schedulerSteps) + 1
    {
      schedulerSteps := schedulerSteps + 1;
    }

    /** _drive: rounds over the roots until all have ended, a source waits at the
        boundary, or the step budget is used up. The deadlock report is never made.
        Every step does one of the remaining units of work, and the budget stops a
        slice only after it was spent, at most one round late. */
    method Drive()
      requires Running()
      modifies this`net, this`publishedCounts, this`states, this`exhausted, this`sourceIndexes, this`sourcePending,
               this`boundaryBlocked, this`seenCounts, this`active, this`lastBudgetExhausted,
               this`schedulerSteps, buffers
      ensures Running()
      ensures !lastBudgetExhausted ==> Quiet(plan, net, limits, duration, RootSet(roots))
      ensures !lastBudgetExhausted && duration.None? ==> active == {}
      ensures Remaining(plan, net) + schedulerSteps == Remaining(plan, old(net)) + old(schedulerSteps)
      ensures lastBudgetExhausted <==>
              maxSchedulerSteps.Some? && schedulerSteps >= old(schedulerSteps) + maxSchedulerSteps.value
      ensures lastBudgetExhausted ==>
              active != {} && schedulerSteps < old(schedulerSteps) + maxSchedulerSteps.value + |roots|
    {
      var steps := 0;
      lastBudgetExhausted := false;
      while active != {}
        invariant Running() && !lastBudgetExhausted
        invariant Remaining(plan, net) + steps == Remaining(plan, old(net)) &&
                  schedulerSteps == old(schedulerSteps) + steps
        invariant maxSchedulerSteps.Some? ==> steps < maxSchedulerSteps.value
        decreases Ahead(plan, net, seenCounts), active
      {
        AheadIsNatural(plan, roots, net, seenCounts, active);
        var progressed, moved := Round();
        steps := steps + moved;
        if active != {} && maxSchedulerSteps.Some? && steps >= maxSchedulerSteps.value {
          lastBudgetExhausted := true;
          return;
        }
        if active != {} && !progressed {
          TriedIsQuiet(plan, roots, net, seenCounts, active, limits, duration, boundaryBlocked);
          if boundaryBlocked == {} {
            assert false;  // SCHEDULER_DEADLOCK would be reported here
          }
          return;
        }
      }
      EndedIsQuiet(plan, roots, net, seenCounts, active, limits, duration);
    }

    /** run_until: advance to an exclusive logical end. Whatever order the work was
        done in, every port then shows exactly the snapshot at that end, provided
        nothing behind it was published before. */
    method RunUntil(logicalEnd: real)
      requires Running()
      modifies this`net, this`publishedCounts, this`states, this`exhausted, this`sourceIndexes, this`sourcePending,
               this`boundaryBlocked, this`seenCounts, this`active, this`lastBudgetExhausted, this`schedulerSteps,
               this`duration, this`timely, buffers
      ensures Running() && duration == Some(logicalEnd)
      ensures old(Within(plan, net, Some(logicalEnd))) ==> Within(plan, net, duration)
      ensures !lastBudgetExhausted && old(Within(plan, net, Some(logicalEnd))) ==> forall i :: 0 <= i < |plan| ==>
        (net[i].published, net[i].closed) == Snapshot(plan, Some(logicalEnd), i)
      ensures Remaining(plan, net) + schedulerSteps == Remaining(plan, old(net)) + old(schedulerSteps)
      ensures lastBudgetExhausted <==>
              maxSchedulerSteps.Some? && schedulerSteps >= old(schedulerSteps) + maxSchedulerSteps.value
    {
      timely := Within(plan, net, Some(logicalEnd));
      duration := Some(logicalEnd);
      boundaryBlocked := {};
      Drive();
      if !lastBudgetExhausted && timely { ShowsSnapshots(plan, net, limits, duration, roots); }
    }

    /** flush, and the draining part of close: no boundary. Exactly when the budget is
        no larger than the remaining work the slice reports that it was used up. A
        budget that covers the remaining work is enough for every port to end with all
        it denotes; one that is smaller by the number of roots is not. */
    method Flush()
      requires Running()
      modifies this`net, this`publishedCounts, this`states, this`exhausted, this`sourceIndexes, this`sourcePending,
               this`boundaryBlocked, this`seenCounts, this`active, this`lastBudgetExhausted, this`schedulerSteps,
               this`duration, this`timely, buffers
      ensures Running() && duration == None
      ensures Remaining(plan, net) + schedulerSteps == Remaining(plan, old(net)) + old(schedulerSteps)
      ensures lastBudgetExhausted <==> maxSchedulerSteps.Some? && maxSchedulerSteps.value <= Remaining(plan, old(net))
      ensures lastBudgetExhausted ==> Remaining(plan, net) + maxSchedulerSteps.value <= Remaining(plan, old(net))
      ensures maxSchedulerSteps.None? || maxSchedulerSteps.value >= Remaining(plan, old(net)) ==> Complete(plan, net)
      ensures maxSchedulerSteps.Some? && maxSchedulerSteps.value + |roots| <= Remaining(plan, old(net)) ==>
              !AllClosed(plan, net)
      ensures AllClosed(plan, net) ==> Complete(plan, net)
    {
      timely := true;
      duration := None;
      boundaryBlocked := {};
      RemainingIsNatural(plan, net);
      Drive();
      RemainingIsNatural(plan, net);
      if !lastBudgetExhausted { DrainedIsClosed(plan, net, limits, roots); }
      if AllClosed(plan, net) { ClosedIsComplete(plan, net); }
    }
  }

  /** Every port has ended with all it denotes. */
  ghost predicate Complete(plan: Plan, net: Network)
    requires WellFormed(plan) && |net| == |plan|
  {
    forall i :: 0 <= i < |plan| ==> net[i].published == Denotation(plan, i) && net[i].closed
  }

  lemma ClosedIsComplete(plan: Plan, net: Network)
    requires Sound(plan, net) && AllClosed(plan, net)
    ensures Complete(plan, net)
  {
    forall i | 0 <= i < |plan| ensures net[i].published == Denotation(plan, i) { Determinate(plan, net, i); }
  }

  lemma DrainedIsClosed(plan: Plan, net: Network, limits: Limits, roots: seq<nat>)
    requires Sound(plan, net) && ValidLimits(plan, limits) && Required(plan, RootSet(roots)) && Within(plan, net, None)
    requires Quiet(plan, net, limits, None, RootSet(roots))
    ensures AllClosed(plan, net)
  {
    ShowsSnapshots(plan, net, limits, None, roots);
    forall i | 0 <= i < |plan| ensures net[i].closed { FullSnapshot(plan, i); }
  }

  /** dict.fromkeys keeps the first occurrence of every root. */
  ghost predicate Distinct(roots: seq<nat>) {
    forall i, j :: 0 <= i < j < |roots| ==> roots[i] != roots[j]
  }

  /** A root that has had its turn in this round, and is active. */
  ghost predicate Active(mover: nat, active: set<nat>, roots: seq<nat>, k: nat)
    requires k <= |roots|
  {
    mover in active && mover in roots[..k]
  }

  lemma NowActive(mover: nat, active: set<nat>, roots: seq<nat>, k: nat)
    requires k < |roots| && mover == roots[k] && mover in active
    ensures Active(mover, active, roots, k + 1)
  {
    assert roots[..k + 1][k] == mover;
  }

  /** Every root has one turn in a round: later turns do not retire it. */
  lemma StaysActive(mover: nat, were: set<nat>, active: set<nat>, roots: seq<nat>, k: nat)
    requires Distinct(roots) && k < |roots| && Active(mover, were, roots, k) && were - {roots[k]} <= active
    ensures Active(mover, active, roots, k + 1)
  {
    var j :| 0 <= j < k && roots[..k][j] == mover;
    assert roots[j] == mover && roots[..k + 1][j] == mover;
  }

  /** A round after k turns: some turn was useful, or nothing happened and every root
      tried is idle. */
  ghost predicate Moved(
      plan: Plan, was: Network, wasSeen: seq<nat>, net: Network, seen: seq<nat>, limits: Limits,
      duration: Option<real>, blocked: set<nat>, active: set<nat>, roots: seq<nat>, k: nat, progressed: bool)
    requires Sound(plan, was) && Sound(plan, net) && |wasSeen| == |seen| == |plan| && ValidLimits(plan, limits) &&
             k <= |roots|
  {
    if progressed then Ahead(plan, net, seen) < Ahead(plan, was, wasSeen)
    else net == was && seen == wasSeen && Tried(plan, net, limits, duration, blocked, active, roots, k)
  }

  lemma MovedMore(
      plan: Plan, was: Network, wasSeen: seq<nat>, before: Network, sawn: seq<nat>, net: Network, seen: seq<nat>,
      limits: Limits, duration: Option<real>, few: set<nat>, many: set<nat>, were: set<nat>, active: set<nat>,
      roots: seq<nat>, k: nat, progressed: bool, moved: bool)
    requires Sound(plan, was) && Sound(plan, before) && Sound(plan, net) && |wasSeen| == |sawn| == |seen| == |plan|
    requires ValidLimits(plan, limits) && k < |roots| && roots[k] < |plan| && active <= were
    requires Moved(plan, was, wasSeen, before, sawn, limits, duration, few, were, roots, k, progressed)
    requires if moved then Ahead(plan, net, seen) < Ahead(plan, before, sawn)
             else (net == before && seen == sawn && few <= many &&
                   Idle(plan, net, limits, duration, many, active, roots[k]))
    ensures Moved(plan, was, wasSeen, net, seen, limits, duration, many, active, roots, k + 1, progressed || moved)
  {
    if !progressed && !moved { TriedMore(plan, net, limits, duration, few, many, were, active, roots, k); }
  }

  /** The first k turns of a round that began at `was` and `wasSeen`. */
  ghost predicate RoundSoFar(plan: Plan, was: Network, wasSeen: seq<nat>, net: Network, seen: seq<nat>, limits: Limits,
                             duration: Option<real>, blocked: set<nat>, active: set<nat>, roots: seq<nat>, k: nat,
                             progressed: bool, steps: nat, mover: nat)
    requires Sound(plan, was) && Sound(plan, net) && |wasSeen| == |seen| == |plan| && ValidLimits(plan, limits) &&
             k <= |roots|
  {
    && Moved(plan, was, wasSeen, net, seen, limits, duration, blocked, active, roots, k, progressed)
    && Remaining(plan, net) + steps == Remaining(plan, was)
    && steps <= k && (steps > 0 ==> Active(mover, active, roots, k))
  }

  lemma NextTurn(
      plan: Plan, was: Network, wasSeen: seq<nat>, before: Network, sawn: seq<nat>, net: Network, seen: seq<nat>,
      limits: Limits, duration: Option<real>, few: set<nat>, many: set<nat>, were: set<nat>, active: set<nat>,
      roots: seq<nat>, k: nat, progressed: bool, moved: bool, steps: nat, last: nat, step: bool)
    returns (mover: nat)
    requires Sound(plan, was) && Sound(plan, before) && Sound(plan, net) && |wasSeen| == |sawn| == |seen| == |plan|
    requires ValidLimits(plan, limits) && k < |roots| && roots[k] < |plan| && active <= were && Distinct(roots)
    requires RoundSoFar(plan, was, wasSeen, before, sawn, limits, duration, few, were, roots, k,
                        progressed, steps, last)
    requires if moved then Ahead(plan, net, seen) < Ahead(plan, before, sawn)
             else (net == before && seen == sawn && few <= many &&
                   Idle(plan, net, limits, duration, many, active, roots[k]))
    requires Remaining(plan, net) == Remaining(plan, before) - if step then 1 else 0
    requires were - {roots[k]} <= active && (step ==> roots[k] in active)
    ensures RoundSoFar(plan, was, wasSeen, net, seen, limits, duration, many, active, roots, k + 1,
                       progressed || moved, steps + (if step then 1 else 0), mover)
  {
    MovedMore(plan, was, wasSeen, before, sawn, net, seen, limits, duration, few, many, were, active, roots, k,
      progressed, moved);
    mover := last;
    if step {
      mover := roots[k];
      NowActive(mover, active, roots, k);
    } else if steps > 0 {
      StaysActive(mover, were, active, roots, k);
    }
  }

  lemma ShowsSnapshots(plan: Plan, net: Network, limits: Limits, duration: Option<real>, roots: seq<nat>)
    requires Sound(plan, net) && ValidLimits(plan, limits) && Required(plan, RootSet(roots)) &&
             Within(plan, net, duration)
    requires Quiet(plan, net, limits, duration, RootSet(roots))
    ensures forall i :: 0 <= i < |plan| ==> (net[i].published, net[i].closed) == Snapshot(plan, duration, i)
  {
    forall i | 0 <= i < |plan| ensures (net[i].published, net[i].closed) == Snapshot(plan, duration, i) {
      QuietIsSnapshot(plan, net, limits, duration, RootSet(roots), i);
    }
  }

  ghost function RootSet(roots: seq<nat>): set<nat> { set r | r in roots }

  /** The observed roots, what they have seen, and which are still active. */
  ghost predicate Consistent(plan: Plan, roots: seq<nat>, net: Network, seen: seq<nat>, active: set<nat>) {
    && Sound(plan, net) && Required(plan, RootSet(roots)) && |seen| == |plan|
    && (forall r :: r in roots ==> r < |plan|)
    && (forall i :: 0 <= i < |plan| ==> seen[i] <= |net[i].published|)
    && (forall r :: r in roots ==> r in active || net[r].closed)
    && (forall r :: r in active ==> r in roots)
  }

  /** Everything still to be done and to be seen; every useful turn lowers it. */
  ghost function Ahead(plan: Plan, net: Network, seen: seq<nat>): int
    requires Sound(plan, net) && |seen| == |plan|
  {
    Remaining(plan, net) + Unseen(plan, seen, |plan|)
  }

  lemma AheadIsNatural(plan: Plan, roots: seq<nat>, net: Network, seen: seq<nat>, active: set<nat>)
    requires Consistent(plan, roots, net, seen, active)
    ensures Ahead(plan, net, seen) >= 0
  {
    RemainingIsNatural(plan, net);
    forall i | 0 <= i < |plan| ensures seen[i] <= |Denotation(plan, i)| { Determinate(plan, net, i); }
    UnseenIsNatural(plan, seen, |plan|);
  }

  lemma Worked(plan: Plan, roots: seq<nat>, was: Network, seen: seq<nat>, active: set<nat>, node: nat)
    requires Consistent(plan, roots, was, seen, active) && node < |plan| && Enabled(plan, was, node)
    ensures Consistent(plan, roots, Fire(plan, was, node), seen, active)
    ensures Ahead(plan, Fire(plan, was, node), seen) < Ahead(plan, was, seen)
    ensures Remaining(plan, Fire(plan, was, node)) == Remaining(plan, was) - 1
  {
    FireIsSound(plan, was, node);
    FireIsOne(plan, was, node);
  }

  lemma SeeOne(plan: Plan, roots: seq<nat>, net: Network, seen: seq<nat>, active: set<nat>, port: nat)
    requires Consistent(plan, roots, net, seen, active) && port < |plan| && seen[port] < |net[port].published|
    ensures Consistent(plan, roots, net, seen[port := seen[port] + 1], active)
    ensures Ahead(plan, net, seen[port := seen[port] + 1]) < Ahead(plan, net, seen)
  {
    SeeingDecreases(plan, seen, port, |plan|);
  }

  /** Demanding this root meets no work, a source it waits for is noted as blocked,
      and it is active only while it is open. */
  ghost predicate Idle(
      plan: Plan, net: Network, limits: Limits, duration: Option<real>, blocked: set<nat>, active: set<nat>, port: nat)
    requires Sound(plan, net) && ValidLimits(plan, limits) && port < |plan|
  {
    var d := Demanded(plan, net, limits, duration, port);
    !d.Work? && (d.Boundary? ==> d.source in blocked) && (port in active ==> !net[port].closed)
  }

  ghost predicate Tried(
      plan: Plan, net: Network, limits: Limits, duration: Option<real>, blocked: set<nat>, active: set<nat>,
      roots: seq<nat>, k: nat)
    requires Sound(plan, net) && ValidLimits(plan, limits) && k <= |roots|
  {
    forall j :: 0 <= j < k ==> roots[j] < |plan| && Idle(plan, net, limits, duration, blocked, active, roots[j])
  }

  lemma TriedMore(
      plan: Plan, net: Network, limits: Limits, duration: Option<real>, few: set<nat>, many: set<nat>, were: set<nat>,
      active: set<nat>, roots: seq<nat>, k: nat)
    requires Sound(plan, net) && ValidLimits(plan, limits) && k < |roots| && few <= many && active <= were
    requires Tried(plan, net, limits, duration, few, were, roots, k) && roots[k] < |plan|
    requires Idle(plan, net, limits, duration, many, active, roots[k])
    ensures Tried(plan, net, limits, duration, many, active, roots, k + 1)
  {
  }

  /** A round in which nobody moved: the run is quiet, and some source waits. */
  lemma TriedIsQuiet(
      plan: Plan, roots: seq<nat>, net: Network, seen: seq<nat>, active: set<nat>, limits: Limits,
      duration: Option<real>, blocked: set<nat>)
    requires Consistent(plan, roots, net, seen, active) && ValidLimits(plan, limits) && active != {}
    requires Tried(plan, net, limits, duration, blocked, active, roots, |roots|)
    ensures Quiet(plan, net, limits, duration, RootSet(roots)) && blocked != {}
  {
    forall r | r in roots ensures r < |plan| && Idle(plan, net, limits, duration, blocked, active, r) {
      var j :| 0 <= j < |roots| && roots[j] == r;
    }
    var open := Member(active);
    NoDeadlock(plan, net, limits, duration, RootSet(roots), open);
  }

  lemma EndedIsQuiet(
      plan: Plan, roots: seq<nat>, net: Network, seen: seq<nat>, active: set<nat>, limits: Limits,
      duration: Option<real>)
    requires Consistent(plan, roots, net, seen, active) && ValidLimits(plan, limits) && active == {}
    ensures Quiet(plan, net, limits, duration, RootSet(roots))
  {
  }

  function Unseen(plan: Plan, seen: seq<nat>, n: nat): int
    requires WellFormed(plan) && |seen| == |plan| && n <= |plan|
  {
    if n == 0 then 0 else Unseen(plan, seen, n - 1) + |Denotation(plan, n - 1)| - seen[n - 1]
  }

  lemma {:induction false} UnseenIsNatural(plan: Plan, seen: seq<nat>, n: nat)
    requires WellFormed(plan) && |seen| == |plan| && n <= |plan|
    requires forall i :: 0 <= i < |plan| ==> seen[i] <= |Denotation(plan, i)|
    ensures Unseen(plan, seen, n) >= 0
  {
    if n > 0 { UnseenIsNatural(plan, seen, n - 1); }
  }

  lemma {:induction false} SeeingDecreases(plan: Plan, seen: seq<nat>, i: nat, n: nat)
    requires WellFormed(plan) && |seen| == |plan| && n <= |plan| && i < |plan|
    ensures Unseen(plan, seen[i := seen[i] + 1], n) == Unseen(plan, seen, n) - if i < n then 1 else 0
  {
    if n > 0 { SeeingDecreases(plan, seen, i, n - 1); }
  }

}
