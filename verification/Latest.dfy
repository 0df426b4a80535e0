/** LATEST inputs: for every primary item the last candidate that starts no later.
    The scheduler decides this while both streams are still arriving, the native
    code with a cursor over whole batches, a Python island with a third loop. */
module Latests {
  import opened Stream

  ghost predicate Ascending(items: seq<Item>) {
    forall i, j :: 0 <= i < j < |items| ==> items[i].start <= items[j].start
  }

  /** How many leading candidates start at t or before. */
  function LatestCount(candidates: seq<Item>, t: real): (k: nat)
    ensures k <= |candidates|
    decreases |candidates|
  {
    if candidates == [] || candidates[0].start > t then 0 else 1 + LatestCount(candidates[1..], t)
  }

  lemma {:induction false} LatestCountMeans(candidates: seq<Item>, t: real)
    ensures var k := LatestCount(candidates, t);
            (forall i :: 0 <= i < k ==> candidates[i].start <= t) && (k < |candidates| ==> candidates[k].start > t)
    decreases |candidates|
  {
    if candidates != [] && candidates[0].start <= t {
      LatestCountMeans(candidates[1..], t);
      assert forall i :: 1 <= i < |candidates| ==> candidates[i] == candidates[1..][i - 1];
    }
  }

  lemma {:induction false} LatestCountIs(candidates: seq<Item>, t: real, k: nat)
    requires k <= |candidates| && forall i :: 0 <= i < k ==> candidates[i].start <= t
    requires k < |candidates| ==> candidates[k].start > t
    ensures LatestCount(candidates, t) == k
    decreases k
  {
    if k > 0 {
      assert forall i :: 0 <= i < k - 1 ==> candidates[1..][i] == candidates[i + 1];
      LatestCountIs(candidates[1..], t, k - 1);
    }
  }

  /** The last candidate that starts at t or before. */
  function LatestOf(candidates: seq<Item>, t: real): Option<Item> {
    var k := LatestCount(candidates, t);
    if k == 0 then None else Some(candidates[k - 1])
  }

  /** It is the last such candidate of the whole stream. */
  lemma LatestIsLast(candidates: seq<Item>, t: real, j: nat)
    requires Ascending(candidates) && j < |candidates|
    ensures candidates[j].start <= t <==> j < LatestCount(candidates, t)
  {
    var k := LatestCount(candidates, t);
    LatestCountMeans(candidates, t);
    if k < j { assert candidates[k].start <= candidates[j].start; }
  }

  function Selected(main: Item, candidates: seq<Item>): seq<(Item, Item)> {
    var c := LatestOf(candidates, main.start);
    if c.None? then [] else [(main, c.value)]
  }

  /** Every primary item with its latest candidate; items without one are skipped. */
  function Selections(main: seq<Item>, candidates: seq<Item>): seq<(Item, Item)>
    decreases |main|
  {
    if main == [] then [] else Selections(main[..|main| - 1], candidates) + Selected(main[|main| - 1], candidates)
  }

  predicate IsSelected(pair: (Item, Item), main: Item, candidates: seq<Item>) {
    pair.0 == main && LatestOf(candidates, main.start) == Some(pair.1)
  }

  /** Leading primary items with their latest candidates, up to the first without one. */
  ghost predicate Leading(output: seq<(Item, Item)>, main: seq<Item>, candidates: seq<Item>) {
    && |output| <= |main|
    && (forall i :: 0 <= i < |output| ==> IsSelected(output[i], main[i], candidates))
    && (|output| < |main| ==> LatestOf(candidates, main[|output|].start) == None)
  }

  // ------------------------------------------------------- the batch loops

  lemma CountGrows(candidates: seq<Item>, s: real, t: real)
    requires s <= t
    ensures LatestCount(candidates, s) <= LatestCount(candidates, t)
  {
    LatestCountMeans(candidates, s);
    LatestCountMeans(candidates, t);
    var k := LatestCount(candidates, t);
    assert k < |candidates| ==> candidates[k].start > t;
  }

  /** `while cursor < size && start <= t`: the cursor catches up with the count. */
  method MoveCursor(candidates: seq<Item>, from: nat, t: real) returns (cursor: nat)
    requires from <= LatestCount(candidates, t)
    ensures cursor == LatestCount(candidates, t)
  {
    cursor := from;
    LatestCountMeans(candidates, t);
    while cursor < |candidates| && candidates[cursor].start <= t
      invariant from <= cursor <= LatestCount(candidates, t)
    {
      cursor := cursor + 1;
    }
  }

  /** The secondary input of run_map_node: one cursor, primary items without a value are skipped. */
  method CursorScan(main: seq<Item>, candidates: seq<Item>) returns (output: seq<(Item, Item)>)
    requires Ascending(main)
    ensures output == Selections(main, candidates)
  {
    output := [];
    var cursor, hasLatest := 0, false;
    for i := 0 to |main|
      invariant output == Selections(main[..i], candidates)
      invariant cursor == if i == 0 then 0 else LatestCount(candidates, main[i - 1].start)
      invariant hasLatest <==> cursor > 0
    {
      assert main[..i + 1][..i] == main[..i];
      if i > 0 { CountGrows(candidates, main[i - 1].start, main[i].start); }
      cursor := MoveCursor(candidates, cursor, main[i].start);
      if cursor > 0 { hasLatest := true; }
      if hasLatest {
        output := output + [(main[i], candidates[cursor - 1])];
      } else {
        assert output + [] == output;
      }
    }
    assert main[..|main|] == main;
  }

  /** The LATEST input of _run_python_map_nodes: it stops at the first item without a value. */
  method IslandScan(main: seq<Item>, candidates: seq<Item>) returns (output: seq<(Item, Item)>)
    requires Ascending(main)
    ensures Leading(output, main, candidates)
  {
    output := [];
    var position, latest: Option<Item> := 0, None;
    for i := 0 to |main|
      invariant |output| == i && forall k :: 0 <= k < i ==> IsSelected(output[k], main[k], candidates)
      invariant position == if i == 0 then 0 else LatestCount(candidates, main[i - 1].start)
      invariant latest == if position == 0 then None else Some(candidates[position - 1])
    {
      if i > 0 { CountGrows(candidates, main[i - 1].start, main[i].start); }
      position := MoveCursor(candidates, position, main[i].start);
      if position > 0 { latest := Some(candidates[position - 1]); }
      if latest.None? { return; }
      output := output + [(main[i], latest.value)];
    }
  }

  lemma {:induction false} AllSelected(main: seq<Item>, candidates: seq<Item>)
    requires forall i :: 0 <= i < |main| ==> LatestOf(candidates, main[i].start).Some?
    ensures |Selections(main, candidates)| == |main|
    ensures forall i :: 0 <= i < |main| ==> IsSelected(Selections(main, candidates)[i], main[i], candidates)
    decreases |main|
  {
    if main != [] {
      var k := |main| - 1;
      AllSelected(main[..k], candidates);
      var before, pair := Selections(main[..k], candidates), (main[k], LatestOf(candidates, main[k].start).value);
      var all := before + [pair];
      assert Selections(main, candidates) == all;
      forall i | 0 <= i < |main| ensures IsSelected(all[i], main[i], candidates) {
        if i < k { assert IsSelected(before[i], main[..k][i], candidates); }
      }
    }
  }

  lemma {:induction false} NoneSelected(main: seq<Item>, candidates: seq<Item>)
    requires forall i :: 0 <= i < |main| ==> LatestOf(candidates, main[i].start).None?
    ensures Selections(main, candidates) == []
    decreases |main|
  {
    if main != [] { NoneSelected(main[..|main| - 1], candidates); }
  }

  /** The native scan skips what the others stop at: they agree exactly when the first
      primary item has a value, or none has. */
  lemma ScansAgreeIff(main: seq<Item>, candidates: seq<Item>, output: seq<(Item, Item)>)
    requires Ascending(main) && Leading(output, main, candidates)
    ensures output == Selections(main, candidates) <==>
            main == [] || LatestOf(candidates, main[0].start).Some? ||
              LatestOf(candidates, main[|main| - 1].start).None?
  {
    if main != [] {
      var last := |main| - 1;
      forall i | 0 <= i <= last
        ensures LatestCount(candidates, main[0].start) <= LatestCount(candidates, main[i].start)
        ensures LatestCount(candidates, main[i].start) <= LatestCount(candidates, main[last].start)
      {
        CountGrows(candidates, main[0].start, main[i].start);
        CountGrows(candidates, main[i].start, main[last].start);
      }
      if LatestOf(candidates, main[0].start).Some? {
        assert |output| == |main|;
        AllSelected(main, candidates);
      } else {
        assert !(0 < |output|);
        if LatestOf(candidates, main[last].start).None? { NoneSelected(main, candidates); }
      }
    }
  }

  /** A first primary item before any value: the native scan skips it, the island loop
      stops there. */
  lemma ScansDiffer()
    ensures var early, late := Item(Atom(0), 0.0, 1.0, OK, false), Item(Atom(1), 2.0, 3.0, OK, false);
            var c := Item(Atom(2), 1.0, 2.0, OK, false);
            Leading([], [early, late], [c]) && Selections([early, late], [c]) == [(late, c)]
  {
    var early, late := Item(Atom(0), 0.0, 1.0, OK, false), Item(Atom(1), 2.0, 3.0, OK, false);
    var c := Item(Atom(2), 1.0, 2.0, OK, false);
    assert [early, late][..1] == [early] && [early][..0] == [];
    assert LatestCount([c], 0.0) == 0 && LatestCount([c], 2.0) == 1;
    assert Selections([early], [c]) == [];
  }

  // ---------------------------------------------------- the streaming node

  datatype Need = Progress | NeedMain | NeedLatest | Ended

  /** No candidate that is still to arrive starts at t or before. */
  ghost predicate Settled(t: real, arrived: seq<Item>, ended: bool, frontier: Option<real>) {
    LatestCount(arrived, t) < |arrived| || ended || (frontier.Some? && frontier.value > t)
  }

  /** The selections made so far are those of what has arrived, and settled. */
  ghost predicate Chosen(
      output: seq<(Item, Item)>, main: seq<Item>, arrived: seq<Item>, ended: bool, frontier: Option<real>) {
    |output| == |main| && forall i :: 0 <= i < |output| ==>
      (IsSelected(output[i], main[i], arrived) && Settled(main[i].start, arrived, ended, frontier))
  }

  /** `whole` is a possible completion of what has arrived. */
  ghost predicate Completes(whole: seq<Item>, arrived: seq<Item>, ended: bool, frontier: Option<real>) {
    && Ascending(whole) && arrived <= whole && (ended ==> whole == arrived)
    && forall j :: |arrived| <= j < |whole| && frontier.Some? ==> whole[j].start >= frontier.value
  }

  /** Once settled, the selection is that of every completion. */
  lemma SettledForGood(t: real, arrived: seq<Item>, ended: bool, frontier: Option<real>, whole: seq<Item>)
    requires Completes(whole, arrived, ended, frontier) && Settled(t, arrived, ended, frontier)
    ensures LatestOf(whole, t) == LatestOf(arrived, t)
    ensures LatestCount(whole, t) == LatestCount(arrived, t)
  {
    var k := LatestCount(arrived, t);
    LatestCountMeans(arrived, t);
    assert forall i :: 0 <= i < |arrived| ==> whole[i] == arrived[i];
    if ended { assert whole == arrived; }
    LatestCountIs(whole, t, k);
  }

  lemma ArrivalKeepsChosen(
      output: seq<(Item, Item)>, main: seq<Item>, arrived: seq<Item>, frontier: Option<real>, item: Item)
    requires Chosen(output, main, arrived, false, frontier)
    requires Ascending(arrived + [item]) && (frontier.Some? ==> item.start >= frontier.value)
    ensures Chosen(output, main, arrived + [item], false, frontier)
  {
    var more := arrived + [item];
    forall i | 0 <= i < |output|
      ensures IsSelected(output[i], main[i], more) && Settled(main[i].start, more, false, frontier)
    {
      SettledForGood(main[i].start, arrived, false, frontier, more);
    }
  }

  /** Candidates were only consumed for a primary item that starts no earlier. */
  ghost predicate Read(mainDone: seq<Item>, mainQueue: seq<Item>, done: seq<Item>) {
    forall c :: c in done ==>
      (mainDone != [] && c.start <= mainDone[|mainDone| - 1].start) ||
        (mainQueue != [] && c.start <= mainQueue[0].start)
  }

  ghost predicate HoldsLast(latest: Option<Item>, done: seq<Item>) {
    latest == if done == [] then None else Some(done[|done| - 1])
  }

  ghost predicate Queued(mainDone: seq<Item>, mainQueue: seq<Item>, done: seq<Item>, queue: seq<Item>) {
    Ascending(mainDone + mainQueue) && Ascending(done + queue) && Read(mainDone, mainQueue, done)
  }

  /** The node has stopped: this primary item has no value and never gets one. */
  ghost predicate Stopped(main: Item, arrived: seq<Item>, ended: bool, frontier: Option<real>) {
    LatestOf(arrived, main.start) == None && Settled(main.start, arrived, ended, frontier)
  }

  lemma ReadNow(mainDone: seq<Item>, mainQueue: seq<Item>, done: seq<Item>)
    requires Ascending(mainDone + mainQueue) && Read(mainDone, mainQueue, done) && mainQueue != []
    ensures forall c :: c in done ==> c.start <= mainQueue[0].start
  {
    if mainDone != [] {
      assert (mainDone + mainQueue)[|mainDone| - 1].start <= (mainDone + mainQueue)[|mainDone|].start;
    }
  }

  /** When the head starts later, exactly the consumed candidates count. */
  lemma CountIsDone(mainDone: seq<Item>, mainQueue: seq<Item>, done: seq<Item>, queue: seq<Item>)
    requires Queued(mainDone, mainQueue, done, queue) && mainQueue != []
    requires queue != [] ==> queue[0].start > mainQueue[0].start
    ensures LatestCount(done + queue, mainQueue[0].start) == |done|
    ensures LatestOf(done + queue, mainQueue[0].start) == if done == [] then None else Some(done[|done| - 1])
  {
    ReadNow(mainDone, mainQueue, done);
    forall i | 0 <= i < |done| ensures (done + queue)[i].start <= mainQueue[0].start { assert done[i] in done; }
    LatestCountIs(done + queue, mainQueue[0].start, |done|);
  }

  /** A later candidate in the queue, the frontier or the end settles the value. */
  lemma NowSettled(
      mainDone: seq<Item>, mainQueue: seq<Item>, done: seq<Item>, queue: seq<Item>, latest: Option<Item>, ended: bool,
      frontier: Option<real>)
    requires Queued(mainDone, mainQueue, done, queue) && mainQueue != [] && HoldsLast(latest, done)
    requires queue != [] ==> queue[0].start > mainQueue[0].start
    requires queue != [] || ended || (frontier.Some? && frontier.value > mainQueue[0].start)
    ensures Settled(mainQueue[0].start, done + queue, ended, frontier)
    ensures latest.None? ==> Stopped(mainQueue[0], done + queue, ended, frontier)
  {
    CountIsDone(mainDone, mainQueue, done, queue);
  }

  lemma ConsumeOne(mainDone: seq<Item>, mainQueue: seq<Item>, done: seq<Item>, queue: seq<Item>)
    requires Queued(mainDone, mainQueue, done, queue) && mainQueue != [] && queue != [] &&
             queue[0].start <= mainQueue[0].start
    ensures (done + [queue[0]]) + queue[1..] == done + queue
    ensures Queued(mainDone, mainQueue, done + [queue[0]], queue[1..])
  {
    assert (done + [queue[0]]) + queue[1..] == done + queue;
  }

  lemma ProcessOne(
      mainDone: seq<Item>, mainQueue: seq<Item>, done: seq<Item>, queue: seq<Item>, output: seq<(Item, Item)>,
      latest: Item, ended: bool, frontier: Option<real>)
    requires Queued(mainDone, mainQueue, done, queue) && mainQueue != [] && HoldsLast(Some(latest), done)
    requires queue != [] ==> queue[0].start > mainQueue[0].start
    requires Chosen(output, mainDone, done + queue, ended, frontier) &&
             Settled(mainQueue[0].start, done + queue, ended, frontier)
    ensures (mainDone + [mainQueue[0]]) + mainQueue[1..] == mainDone + mainQueue
    ensures Queued(mainDone + [mainQueue[0]], mainQueue[1..], done, queue)
    ensures Chosen(output + [(mainQueue[0], latest)], mainDone + [mainQueue[0]], done + queue, ended, frontier)
  {
    assert (mainDone + [mainQueue[0]]) + mainQueue[1..] == mainDone + mainQueue;
    ReadNow(mainDone, mainQueue, done);
    CountIsDone(mainDone, mainQueue, done, queue);
  }

  lemma RaiseKeepsChosen(
      output: seq<(Item, Item)>, main: seq<Item>, arrived: seq<Item>, ended: bool, frontier: Option<real>, value: real)
    requires Chosen(output, main, arrived, ended, frontier) && (frontier.Some? ==> value > frontier.value)
    ensures Chosen(output, main, arrived, ended, Some(value))
  {
  }

  class LatestNode {
    var mainQueue: seq<Item>
    var queue: seq<Item>
    var latest: Option<Item>
    var mainEnded: bool
    var ended: bool
    var frontier: Option<real>
    var output: seq<(Item, Item)>
    var stalled: bool
    var exhausted: bool
    ghost var mainDone: seq<Item>
    ghost var done: seq<Item>

    ghost predicate Valid()
      reads this
    {
      && Queued(mainDone, mainQueue, done, queue) && HoldsLast(latest, done)
      && Chosen(output, mainDone, done + queue, ended, frontier)
      && (exhausted && !stalled ==> mainEnded && mainQueue == [])
      && (stalled ==> exhausted && mainQueue != [])
      && (stalled ==> Stopped(mainQueue[0], done + queue, ended, frontier))
    }

    constructor ()
      ensures Valid() && output == [] && !exhausted && mainDone + mainQueue == [] && done + queue == []
    {
      mainQueue, queue, latest, mainEnded, ended, frontier := [], [], None, false, false, None;
      output, stalled, exhausted, mainDone, done := [], false, false, [], [];
    }

    method ArriveMain(item: Item)
      requires Valid() && !exhausted && !mainEnded && Ascending(mainDone + mainQueue + [item])
      modifies `mainQueue
      ensures Valid() && mainQueue == old(mainQueue) + [item]
    {
      assert mainDone + (mainQueue + [item]) == mainDone + mainQueue + [item];
      mainQueue := mainQueue + [item];
    }

    /** A candidate arrives; its producer keeps the promise its frontier made. */
    method ArriveLatest(item: Item)
      requires Valid() && !exhausted && !ended && Ascending(done + queue + [item])
      requires frontier.Some? ==> item.start >= frontier.value
      modifies `queue
      ensures Valid() && queue == old(queue) + [item]
    {
      ArrivalKeepsChosen(output, mainDone, done + queue, frontier, item);
      assert done + (queue + [item]) == done + queue + [item];
      queue := queue + [item];
    }

    method EndMain()
      requires Valid()
      modifies `mainEnded
      ensures Valid() && mainEnded
    {
      mainEnded := true;
    }

    method EndLatest()
      requires Valid()
      modifies `ended
      ensures Valid() && ended
    {
      ended := true;
    }

    method RaiseFrontier(value: real)
      requires Valid()
      modifies `frontier
      ensures Valid()
      ensures frontier == if old(frontier).None? || value > old(frontier).value then Some(value) else old(frontier)
    {
      if frontier.None? || value > frontier.value {
        RaiseKeepsChosen(output, mainDone, done + queue, ended, frontier, value);
        frontier := Some(value);
      }
    }

    /** `while queue and head.start <= main.start`: the newest of them becomes the value. */
    method Consume(t: real) returns (consumed: bool)
      requires Valid() && !exhausted && mainQueue != [] && t == mainQueue[0].start
      modifies `queue, `latest, `done
      ensures Valid() && done + queue == old(done + queue) && (queue != [] ==> queue[0].start > t)
      ensures consumed <==> |queue| < |old(queue)|
      ensures !consumed ==> queue == old(queue) && done == old(done)
    {
      consumed := false;
      while queue != [] && queue[0].start <= t
        invariant Valid() && done + queue == old(done + queue) && |queue| <= |old(queue)|
        invariant consumed <==> |queue| < |old(queue)|
        invariant !consumed ==> queue == old(queue) && done == old(done)
        decreases |queue|
      {
        ConsumeOne(mainDone, mainQueue, done, queue);
        latest, done, queue := Some(queue[0]), done + [queue[0]], queue[1..];
        consumed := true;
      }
    }

    /** _process_map_if_ready: the primary item and its value go to the kernel. */
    method Process()
      requires Valid() && !exhausted && mainQueue != [] && latest.Some? &&
               (queue != [] ==> queue[0].start > mainQueue[0].start)
      requires Settled(mainQueue[0].start, done + queue, ended, frontier)
      modifies `mainQueue, `mainDone, `output
      ensures Valid() && output == old(output) + [(old(mainQueue)[0], latest.value)]
      ensures mainQueue == old(mainQueue)[1..] && mainDone + mainQueue == old(mainDone + mainQueue)
    {
      ProcessOne(mainDone, mainQueue, done, queue, output, latest.value, ended, frontier);
      output := output + [(mainQueue[0], latest.value)];
      mainDone, mainQueue := mainDone + [mainQueue[0]], mainQueue[1..];
    }

    /** _stop_node: the primary item never gets a value. */
    method Stall()
      requires Valid() && !exhausted && mainQueue != [] && Stopped(mainQueue[0], done + queue, ended, frontier)
      modifies `stalled, `exhausted
      ensures Valid() && stalled && exhausted
    {
      stalled, exhausted := true, true;
    }

    /** Nothing that starts in time is left in the queue: the primary item is processed,
        waits for its value, or never gets one. */
    method Decide() returns (need: Need)
      requires Valid() && !exhausted && mainQueue != [] && (queue != [] ==> queue[0].start > mainQueue[0].start)
      modifies `mainQueue, `mainDone, `output, `stalled, `exhausted
      ensures Valid() && mainDone + mainQueue == old(mainDone + mainQueue)
      ensures need == Progress || need == NeedLatest || need == Ended
      ensures exhausted <==> need == Ended
      ensures need == NeedLatest ==> queue == [] && !ended
      ensures need == NeedLatest ==> mainQueue != [] && (frontier.None? || frontier.value <= mainQueue[0].start)
      ensures need == Progress ==> |mainQueue| < |old(mainQueue)|
    {
      if queue == [] && !(frontier.Some? && frontier.value > mainQueue[0].start) && !ended { return NeedLatest; }
      NowSettled(mainDone, mainQueue, done, queue, latest, ended, frontier);
      if latest.None? {
        Stall();
        return Ended;
      }
      Process();
      return Progress;
    }

    /** _advance_map with _advance_missing_latest: one unit of work, or the input it needs. */
    method Advance() returns (need: Need)
      requires Valid() && !exhausted
      modifies `mainQueue, `mainDone, `queue, `latest, `done, `output, `stalled, `exhausted
      ensures Valid() && mainDone + mainQueue == old(mainDone + mainQueue) && done + queue == old(done + queue)
      ensures exhausted <==> need == Ended
      ensures need == NeedMain ==> mainQueue == [] && !mainEnded
      ensures need == NeedLatest ==> queue == [] && !ended
      ensures need == NeedLatest ==> mainQueue != [] && (frontier.None? || frontier.value <= mainQueue[0].start)
      ensures need == Progress ==> |mainQueue| + |queue| < |old(mainQueue)| + |old(queue)|
    {
      if mainQueue == [] {
        if mainEnded {
          exhausted := true;
          return Ended;
        }
        return NeedMain;
      }
      var consumed := Consume(mainQueue[0].start);
      if consumed { return Progress; }
      need := Decide();
    }

    /** The selection, decided by the streams alone: for every completion of what
        arrived, each output pairs its primary item with the last candidate that
        starts no later, and the node stops exactly at the first item without one. */
    lemma SelectsFromWholeStreams(main: seq<Item>, candidates: seq<Item>)
      requires Valid()
      requires Completes(main, mainDone + mainQueue, mainEnded, None)
      requires Completes(candidates, done + queue, ended, frontier)
      ensures |output| <= |main| && forall i :: 0 <= i < |output| ==> IsSelected(output[i], main[i], candidates)
      ensures exhausted ==> Leading(output, main, candidates)
      ensures stalled ==> |output| < |main|
    {
      var n := |output|;
      assert main[..n] == mainDone;
      forall i | 0 <= i < n ensures IsSelected(output[i], main[i], candidates) {
        assert main[i] == mainDone[i];
        SettledForGood(mainDone[i].start, done + queue, ended, frontier, candidates);
      }
      if stalled {
        assert main[n] == (mainDone + mainQueue)[n] == mainQueue[0];
        SettledForGood(mainQueue[0].start, done + queue, ended, frontier, candidates);
      } else if exhausted {
        assert mainDone + mainQueue == mainDone;
      }
    }
  }
}
