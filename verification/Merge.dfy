/** The exact merge of a primary and an auxiliary stream: a join on equal
    intervals, whatever the order in which the two streams arrive. */
module Merges {
  import opened Stream

  predicate SameInterval(a: Item, b: Item) { a.start == b.start && a.end == b.end }

  ghost predicate Increasing(items: seq<Item>) {
    forall i, j :: 0 <= i < j < |items| ==> items[i].start < items[j].start
  }

  predicate Occurs(main: Item, aux: seq<Item>) {
    exists a :: a in aux && SameInterval(a, main)
  }

  /** How many leading primary items occur in the auxiliary stream. */
  function JoinCount(main: seq<Item>, aux: seq<Item>): (n: nat)
    ensures n <= |main|
    ensures forall i :: 0 <= i < n ==> Occurs(main[i], aux)
    ensures n < |main| ==> !Occurs(main[n], aux)
    decreases |main|
  {
    if main == [] || !Occurs(main[0], aux) then 0
    else
      var n := JoinCount(main[1..], aux);
      assert forall i :: 1 <= i < n + 1 ==> main[i] == main[1..][i - 1];
      1 + n
  }

  /** No item of the stream has both the start and the end of `main`. */
  ghost predicate Missing(main: Item, aux: seq<Item>) {
    forall a :: a in aux ==> !(a.start == main.start && a.end == main.end)
  }

  /** Pair i is primary item i with an auxiliary item that starts and ends where it does. */
  ghost predicate Matched(output: seq<(Item, Item)>, main: seq<Item>, aux: seq<Item>) {
    |output| <= |main| && forall i :: 0 <= i < |output| ==>
      output[i].0 == main[i] && output[i].1 in aux &&
      output[i].1.start == main[i].start && output[i].1.end == main[i].end
  }

  /** The pairs put together so far: each primary item with an auxiliary item of its interval. */
  ghost predicate Pairs(output: seq<(Item, Item)>, main: seq<Item>, aux: seq<Item>) {
    |output| == |main| && forall i :: 0 <= i < |output| ==>
      output[i].0 == main[i] && output[i].1 in aux && SameInterval(output[i].1, main[i])
  }

  /** In an increasing stream at most one item has a given interval, so pairs are unique. */
  lemma PairsUnique(left: seq<(Item, Item)>, right: seq<(Item, Item)>, main: seq<Item>, aux: seq<Item>)
    requires Increasing(aux) && Pairs(left, main, aux) && Pairs(right, main, aux)
    ensures left == right
  {
    forall i | 0 <= i < |left| ensures left[i] == right[i] {
      var a, b := left[i].1, right[i].1;
      var j :| 0 <= j < |aux| && aux[j] == a;
      var k :| 0 <= k < |aux| && aux[k] == b;
      if j < k { assert aux[j].start < aux[k].start; } else if k < j { assert aux[k].start < aux[j].start; }
    }
  }

  /** What the node took from its inputs: processed, or passed over as too early. */
  ghost predicate Passed(done: seq<Item>, queue: seq<Item>, aux: seq<Item>) {
    forall a :: a in aux ==>
      (done != [] && a.start <= done[|done| - 1].start) || (queue != [] && a.start < queue[0].start)
  }

  /** Nothing that is still to arrive can have the interval of `main`. */
  ghost predicate TooLate(main: Item, arrived: seq<Item>, ended: bool, frontier: Option<real>) {
    || ended
    || (frontier.Some? && frontier.value > main.start)
    || exists a :: a in arrived && a.start >= main.start
  }

  /** `whole` is a possible completion of what has arrived. */
  ghost predicate Completes(whole: seq<Item>, arrived: seq<Item>, ended: bool, frontier: Option<real>) {
    && Increasing(whole) && arrived <= whole && (ended ==> whole == arrived)
    && forall j :: |arrived| <= j < |whole| && frontier.Some? ==> whole[j].start >= frontier.value
  }

  // ---------------------------------------------------------------- the node

  datatype Need = Progress | NeedMain | NeedAux | Ended

  class ExactMerge {
    var mainQueue: seq<Item>
    var auxQueue: seq<Item>
    var mainEnded: bool
    var auxEnded: bool
    var auxFrontier: Option<real>
    var output: seq<(Item, Item)>
    var stalled: bool
    var exhausted: bool
    ghost var mainDone: seq<Item>
    ghost var auxDone: seq<Item>

    ghost predicate Valid()
      reads this
    {
      && Increasing(mainDone + mainQueue) && Increasing(auxDone + auxQueue)
      && Pairs(output, mainDone, auxDone)
      && Passed(mainDone, mainQueue, auxDone)
      && (exhausted && !stalled ==> mainEnded && mainQueue == [])
      && (stalled ==> exhausted && mainQueue != [])
      && (stalled ==> !Occurs(mainQueue[0], auxDone + auxQueue))
      && (stalled ==> TooLate(mainQueue[0], auxDone + auxQueue, auxEnded, auxFrontier))
    }

    constructor ()
      ensures Valid() && output == [] && !exhausted && !mainEnded && !auxEnded
      ensures mainDone + mainQueue == [] && auxDone + auxQueue == []
    {
      mainQueue, auxQueue, mainEnded, auxEnded, auxFrontier := [], [], false, false, None;
      output, stalled, exhausted, mainDone, auxDone := [], false, false, [], [];
      new;
      assert mainDone + mainQueue == [] && auxDone + auxQueue == [];
    }

    /** Arrivals, in any order. A stopped node has released its cursors and sees none. */
    method ArriveMain(item: Item)
      requires Valid() && !exhausted && !mainEnded && Increasing(mainDone + mainQueue + [item])
      modifies `mainQueue
      ensures Valid() && mainQueue == old(mainQueue) + [item]
    {
      assert mainDone + (mainQueue + [item]) == mainDone + mainQueue + [item];
      mainQueue := mainQueue + [item];
    }

    method ArriveAux(item: Item)
      requires Valid() && !exhausted && !auxEnded && Increasing(auxDone + auxQueue + [item])
      modifies `auxQueue
      ensures Valid() && auxQueue == old(auxQueue) + [item]
    {
      assert auxDone + (auxQueue + [item]) == auxDone + auxQueue + [item];
      auxQueue := auxQueue + [item];
    }

    method EndMain()
      requires Valid()
      modifies `mainEnded
      ensures Valid() && mainEnded
    {
      mainEnded := true;
    }

    method EndAux()
      requires Valid()
      modifies `auxEnded
      ensures Valid() && auxEnded
    {
      auxEnded := true;
    }

    /** The producer's frontier only rises. */
    method RaiseFrontier(value: real)
      requires Valid()
      modifies `auxFrontier
      ensures Valid()
      ensures auxFrontier ==
              if old(auxFrontier).None? || value > old(auxFrontier).value then Some(value) else old(auxFrontier)
    {
      if auxFrontier.None? || value > auxFrontier.value { auxFrontier := Some(value); }
    }

    /** The auxiliary head starts too early for this and every later primary item. */
    method DropAux()
      requires Valid() && !exhausted && mainQueue != [] && auxQueue != [] && auxQueue[0].start < mainQueue[0].start
      modifies `auxQueue, `auxDone
      ensures Valid() && auxQueue == old(auxQueue)[1..] && auxDone + auxQueue == old(auxDone + auxQueue)
    {
      PopAux(mainDone, mainQueue, output, auxDone, auxQueue);
      auxDone, auxQueue := auxDone + [auxQueue[0]], auxQueue[1..];
    }

    /** Equal heads: both are taken and given to the kernel. */
    method Match()
      requires Valid() && !exhausted && mainQueue != [] && auxQueue != [] && SameInterval(auxQueue[0], mainQueue[0])
      modifies `mainQueue, `mainDone, `auxQueue, `auxDone, `output
      ensures Valid() && output == old(output) + [(old(mainQueue)[0], old(auxQueue)[0])]
      ensures mainQueue == old(mainQueue)[1..] && mainDone + mainQueue == old(mainDone + mainQueue)
      ensures auxQueue == old(auxQueue)[1..] && auxDone + auxQueue == old(auxDone + auxQueue)
    {
      PopBoth(mainDone, mainQueue, output, auxDone, auxQueue);
      output := output + [(mainQueue[0], auxQueue[0])];
      mainDone, mainQueue := mainDone + [mainQueue[0]], mainQueue[1..];
      auxDone, auxQueue := auxDone + [auxQueue[0]], auxQueue[1..];
    }

    /** _stop_node: the primary interval can no longer be matched. */
    method Stall()
      requires Valid() && !exhausted && mainQueue != []
      requires !Occurs(mainQueue[0], auxDone + auxQueue) &&
               TooLate(mainQueue[0], auxDone + auxQueue, auxEnded, auxFrontier)
      modifies `stalled, `exhausted
      ensures Valid() && stalled && exhausted
    {
      stalled, exhausted := true, true;
    }

    /** _advance_map for gap-free inputs: one unit of work, or the input it needs. */
    method Advance() returns (need: Need)
      requires Valid() && !exhausted
      modifies `mainQueue, `mainDone, `auxQueue, `auxDone, `output, `stalled, `exhausted
      ensures Valid() && mainDone + mainQueue == old(mainDone + mainQueue) &&
              auxDone + auxQueue == old(auxDone + auxQueue)
      ensures exhausted <==> need == Ended
      ensures need == NeedMain ==> mainQueue == [] && !mainEnded
      ensures need == NeedAux ==> auxQueue == [] && !auxEnded
      ensures need == NeedAux ==> mainQueue != [] && (auxFrontier.None? || auxFrontier.value <= mainQueue[0].start)
      ensures need == Progress ==> |mainQueue| + |auxQueue| < |old(mainQueue)| + |old(auxQueue)|
      ensures need == Progress <==> old(mainQueue) != [] && old(auxQueue) != [] &&
                                    (old(auxQueue)[0].start < old(mainQueue)[0].start ||
                                     (old(auxQueue)[0].start == old(mainQueue)[0].start &&
                                      old(auxQueue)[0].end == old(mainQueue)[0].end))
      ensures need != Progress ==>
                mainQueue == old(mainQueue) && auxQueue == old(auxQueue) && output == old(output)
      ensures output != old(output) ==>
                need == Progress && old(auxQueue)[0].start == old(mainQueue)[0].start &&
                  old(auxQueue)[0].end == old(mainQueue)[0].end &&
                  output == old(output) + [(old(mainQueue)[0], old(auxQueue)[0])]
      ensures stalled ==> mainQueue != [] && Missing(mainQueue[0], auxDone + auxQueue)
      ensures stalled && auxQueue == [] ==>
                auxEnded || (auxFrontier.Some? && auxFrontier.value > mainQueue[0].start)
    {
      if mainQueue == [] {
        if mainEnded {
          exhausted := true;
          return Ended;
        }
        return NeedMain;
      }
      var main := mainQueue[0];
      if auxQueue == [] {
        if auxEnded || (auxFrontier.Some? && auxFrontier.value > main.start) {
          AllEarlier(mainDone, mainQueue, auxDone, auxQueue);
          Stall();
          return Ended;
        }
        return NeedAux;
      }
      if SameInterval(auxQueue[0], main) {
        Match();
        return Progress;
      }
      if auxQueue[0].start < main.start {
        DropAux();
        return Progress;
      }
      HeadMissed(mainDone, mainQueue, auxDone, auxQueue);
      Stall();
      return Ended;
    }

    /** The join, decided by the streams alone: for every completion of what arrived,
        the node emits the longest primary prefix whose intervals all occur in the
        auxiliary stream, and stops exactly at the first one that does not. */
    lemma JoinsWholeStreams(main: seq<Item>, aux: seq<Item>)
      requires Valid()
      requires Completes(main, mainDone + mainQueue, mainEnded, None)
      requires Completes(aux, auxDone + auxQueue, auxEnded, auxFrontier)
      ensures Pairs(output, main[..|output|], aux) && Matched(output, main, aux)
      ensures exhausted && |output| < |main| ==> Missing(main[|output|], aux)
      ensures |output| <= JoinCount(main, aux)
      ensures exhausted ==> |output| == JoinCount(main, aux)
      ensures stalled ==> |output| < |main|
    {
      var n := |output|;
      assert n == |mainDone| && main[..n] == mainDone;
      forall i | 0 <= i < n ensures output[i].1 in aux && Occurs(main[i], aux) {
        var j :| 0 <= j < |auxDone| && auxDone[j] == output[i].1;
        assert aux[j] == (auxDone + auxQueue)[j] == output[i].1;
        assert SameInterval(aux[j], main[i]);
      }
      var m := JoinCount(main, aux);
      assert m < |main| ==> !Occurs(main[m], aux);
      if stalled {
        assert main[n] == (mainDone + mainQueue)[n] == mainQueue[0];
      } else if exhausted {
        assert mainDone + mainQueue == mainDone;
      }
    }
  }

  ghost predicate State(
      mainDone: seq<Item>, mainQueue: seq<Item>, output: seq<(Item, Item)>, auxDone: seq<Item>, auxQueue: seq<Item>) {
    && Increasing(mainDone + mainQueue) && Increasing(auxDone + auxQueue)
    && Pairs(output, mainDone, auxDone) && Passed(mainDone, mainQueue, auxDone)
  }

  lemma PopAux(
      mainDone: seq<Item>, mainQueue: seq<Item>, output: seq<(Item, Item)>, auxDone: seq<Item>, auxQueue: seq<Item>)
    requires State(mainDone, mainQueue, output, auxDone, auxQueue)
    requires mainQueue != [] && auxQueue != [] && auxQueue[0].start < mainQueue[0].start
    ensures (auxDone + [auxQueue[0]]) + auxQueue[1..] == auxDone + auxQueue
    ensures State(mainDone, mainQueue, output, auxDone + [auxQueue[0]], auxQueue[1..])
  {
    assert (auxDone + [auxQueue[0]]) + auxQueue[1..] == auxDone + auxQueue;
  }

  lemma PopBoth(
      mainDone: seq<Item>, mainQueue: seq<Item>, output: seq<(Item, Item)>, auxDone: seq<Item>, auxQueue: seq<Item>)
    requires State(mainDone, mainQueue, output, auxDone, auxQueue)
    requires mainQueue != [] && auxQueue != [] && SameInterval(auxQueue[0], mainQueue[0])
    ensures (mainDone + [mainQueue[0]]) + mainQueue[1..] == mainDone + mainQueue
    ensures (auxDone + [auxQueue[0]]) + auxQueue[1..] == auxDone + auxQueue
    ensures State(mainDone + [mainQueue[0]], mainQueue[1..], output + [(mainQueue[0], auxQueue[0])],
                  auxDone + [auxQueue[0]], auxQueue[1..])
  {
    var main, aux := mainQueue[0], auxQueue[0];
    assert (mainDone + [main]) + mainQueue[1..] == mainDone + mainQueue;
    assert (auxDone + [aux]) + auxQueue[1..] == auxDone + auxQueue;
    forall a | a in auxDone + [aux] ensures a.start <= main.start {
      if a in auxDone && mainDone != [] {
        assert (mainDone + mainQueue)[|mainDone| - 1].start < (mainDone + mainQueue)[|mainDone|].start;
      }
    }
  }

  /** The queue is empty: everything that arrived started too early. */
  lemma AllEarlier(mainDone: seq<Item>, mainQueue: seq<Item>, auxDone: seq<Item>, auxQueue: seq<Item>)
    requires Increasing(mainDone + mainQueue) && Passed(mainDone, mainQueue, auxDone) && mainQueue != [] &&
             auxQueue == []
    ensures !Occurs(mainQueue[0], auxDone + auxQueue)
  {
    forall a | a in auxDone + auxQueue ensures a.start < mainQueue[0].start {
      Earlier(mainDone, mainQueue, auxDone, a);
    }
  }

  lemma Earlier(mainDone: seq<Item>, mainQueue: seq<Item>, auxDone: seq<Item>, a: Item)
    requires Increasing(mainDone + mainQueue) && Passed(mainDone, mainQueue, auxDone) && mainQueue != [] && a in auxDone
    ensures a.start < mainQueue[0].start
  {
    if mainDone != [] {
      assert (mainDone + mainQueue)[|mainDone| - 1].start < (mainDone + mainQueue)[|mainDone|].start;
    }
  }

  /** The auxiliary head starts no earlier and is not equal: nothing matches. */
  lemma HeadMissed(mainDone: seq<Item>, mainQueue: seq<Item>, auxDone: seq<Item>, auxQueue: seq<Item>)
    requires Increasing(mainDone + mainQueue) && Increasing(auxDone + auxQueue) && Passed(mainDone, mainQueue, auxDone)
    requires mainQueue != [] && auxQueue != [] && auxQueue[0].start >= mainQueue[0].start &&
             !SameInterval(auxQueue[0], mainQueue[0])
    ensures !Occurs(mainQueue[0], auxDone + auxQueue)
    ensures auxQueue[0] in auxDone + auxQueue
  {
    var all, n := auxDone + auxQueue, |auxDone|;
    assert all[n] == auxQueue[0];
    forall a | a in all ensures !SameInterval(a, mainQueue[0]) {
      var j :| 0 <= j < |all| && all[j] == a;
      if j < n {
        assert a == auxDone[j];
        Earlier(mainDone, mainQueue, auxDone, a);
      } else if j > n {
        assert all[n].start < all[j].start;
      }
    }
  }

  // ------------------------------------------------------- the island loop

  /** How many leading positions of both streams have equal intervals. */
  ghost predicate InStep(main: seq<Item>, aux: seq<Item>, n: nat) {
    && n <= |main| && n <= |aux|
    && (forall i :: 0 <= i < n ==> SameInterval(aux[i], main[i]))
    && (n < |main| && n < |aux| ==> !SameInterval(aux[n], main[n]))
  }

  /** The synchronous input of _run_python_map_nodes: it compares position by position
      and passes nothing over. */
  method RunIslandMerge(main: seq<Item>, aux: seq<Item>) returns (output: seq<(Item, Item)>)
    ensures InStep(main, aux, |output|) && Pairs(output, main[..|output|], aux) && |output| <= |aux|
    ensures forall i :: 0 <= i < |output| ==>
              output[i] == (main[i], aux[i]) && aux[i].start == main[i].start && aux[i].end == main[i].end
    ensures var n := |output|;
            n < |main| && n < |aux| ==> aux[n].start != main[n].start || aux[n].end != main[n].end
  {
    output := [];
    var position := 0;
    while position < |main|
      invariant position == |output| <= |main| && |output| <= |aux|
      invariant forall i :: 0 <= i < |output| ==> output[i] == (main[i], aux[i]) && SameInterval(aux[i], main[i])
    {
      if position >= |aux| || !SameInterval(aux[position], main[position]) { break; }
      output := output + [(main[position], aux[position])];
      position := position + 1;
    }
  }

  /** Equal positions are joined, so the join is at least as long. */
  lemma StepsOccur(main: seq<Item>, aux: seq<Item>, n: nat)
    requires InStep(main, aux, n)
    ensures n <= JoinCount(main, aux)
    ensures n == JoinCount(main, aux) <==> n == |main| || !Occurs(main[n], aux)
  {
    forall i | 0 <= i < n ensures Occurs(main[i], aux) { assert aux[i] in aux; }
  }

  lemma PairsPrefix(joined: seq<(Item, Item)>, main: seq<Item>, aux: seq<Item>, n: nat)
    requires n <= |joined| <= |main| && Pairs(joined, main[..|joined|], aux)
    ensures Pairs(joined[..n], main[..n], aux)
  {
    forall i | 0 <= i < n ensures joined[..n][i].0 == main[..n][i] { assert joined[i].0 == main[..|joined|][i]; }
  }

  /** The island loop stops at the first position where the streams differ, with a prefix
      of the streaming join. It computes the whole join exactly when the primary item
      there, if any, does not occur in the auxiliary stream at all. */
  lemma IslandMergeAgreesIff(main: seq<Item>, aux: seq<Item>, island: seq<(Item, Item)>, joined: seq<(Item, Item)>)
    requires Increasing(aux) && InStep(main, aux, |island|) && Pairs(island, main[..|island|], aux)
    requires |joined| == JoinCount(main, aux) && Pairs(joined, main[..|joined|], aux)
    ensures island <= joined
    ensures island == joined <==> |island| == |main| || !Occurs(main[|island|], aux)
  {
    var n := |island|;
    StepsOccur(main, aux, n);
    PairsPrefix(joined, main, aux, n);
    PairsUnique(island, joined[..n], main[..n], aux);
    if n == |joined| { assert joined[..n] == joined; }
  }

  /** One auxiliary item too many, and the island stops where the scheduler goes on. */
  lemma IslandMergeDiffers()
    ensures var a, b := Item(Atom(0), 0.0, 1.0, OK, false), Item(Atom(1), 1.0, 2.0, OK, false);
            JoinCount([b], [a, b]) == 1 && InStep([b], [a, b], 0)
  {
    var a, b := Item(Atom(0), 0.0, 1.0, OK, false), Item(Atom(1), 1.0, 2.0, OK, false);
    assert b in [a, b] && SameInterval(b, [b][0]);
  }

  /** Equal starts are not enough: the frames of FRAME(2, 2) and of FRAME(4, 2) over the same
      four items start together, and no pair of them is joined. */
  lemma LongerFramesAreMissed(items: seq<Item>)
    requires |items| == 4 && forall i :: 0 <= i < 4 ==> items[i].start == i as real && items[i].end == (i + 1) as real
    ensures var short, long := Frames(items, 2, 2), Frames(items, 4, 2);
            && |short| == 2 && |long| == 1 && short[0].start == long[0].start == 0.0
            && short[0].end == 2.0 && long[0].end == 4.0
            && JoinCount(short, long) == 0 && Missing(short[0], long)
  {
    var short, long := Frames(items, 2, 2), Frames(items, 4, 2);
    FrameContents(items, 2, 2, 0);
    FrameContents(items, 4, 2, 0);
    assert long == [long[0]];
  }

  /** Two heads that start together and end apart: the merge stalls. */
  method HeadsApart(main: Item, aux: Item) returns (merge: ExactMerge)
    requires main.start == aux.start && main.end != aux.end
    ensures fresh(merge) && merge.Valid() && merge.stalled && merge.output == []
    ensures merge.mainDone + merge.mainQueue == [main] && merge.auxDone + merge.auxQueue == [aux]
  {
    merge := new ExactMerge();
    assert [] + [main] == [main] && [] + [aux] == [aux];
    merge.ArriveMain(main);
    merge.ArriveAux(aux);
    var need := merge.Advance();
  }

  /** Their merge reads both frames, stalls, and has put nothing together. */
  method LongerFramesStall(items: seq<Item>) returns (merge: ExactMerge)
    requires |items| == 4 && forall i :: 0 <= i < 4 ==> items[i].start == i as real && items[i].end == (i + 1) as real
    ensures fresh(merge) && merge.Valid() && merge.stalled && merge.output == []
    ensures merge.mainDone + merge.mainQueue == Frames(items, 2, 2)[..1]
    ensures merge.auxDone + merge.auxQueue == Frames(items, 4, 2)
  {
    LongerFramesAreMissed(items);
    merge := HeadsApart(Frames(items, 2, 2)[0], Frames(items, 4, 2)[0]);
  }
}
