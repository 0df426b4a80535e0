/** The batch loops of a Python stage: RATE, FRAME and MAP over whole batches of
    emissions with rational times, none of which looks at gaps. */
module PrefixStages {
  import opened Stream
  import opened Operators
  import opened Scaling
  import opened Ticks
  import opened Fractions
  import opened CppNodes
  import opened CppMaps

  lemma MeaningsConcat(a: seq<RationalItem>, b: seq<RationalItem>)
    requires AllRational(a) && AllRational(b)
    ensures AllRational(a + b) && Meanings(a + b) == Meanings(a) + Meanings(b)
  {
  }

  // --------------------------------------------------- HOLD that ignores gaps

  function Unflagged(items: seq<Item>): seq<Item> {
    seq(|items|, (i: nat) requires i < |items| => items[i].(overrun := false))
  }

  /** HOLD when a gap does not restart the grid of fire times. */
  function HoldThrough(items: seq<Item>, period: real): seq<Item>
    requires period > 0.0
    decreases |items|
  {
    if items == [] then []
    else
      var before, last := items[..|items| - 1], items[|items| - 1];
      var fire := FirstFire(HoldNext(Unflagged(before), period), last.(overrun := false), period);
      HoldThrough(before, period) + HoldOutputs(last, fire, period)
  }

  lemma UnflaggedSnoc(items: seq<Item>, period: real)
    requires period > 0.0 && |items| > 0
    ensures var n := |items| - 1;
            HoldNext(Unflagged(items), period) ==
            Some(NextFire(HoldNext(Unflagged(items[..n]), period), items[n].(overrun := false), period))
  {
    assert Unflagged(items)[..|items| - 1] == Unflagged(items[..|items| - 1]);
  }

  /** So far both have emitted the same, and fire next at the same time. */
  ghost predicate InStep(items: seq<Item>, period: real)
    requires period > 0.0
  {
    HoldThrough(items, period) == HoldRun(items, period) &&
      HoldNext(Unflagged(items), period) == HoldNext(items, period)
  }

  ghost predicate GapsOnGrid(items: seq<Item>, period: real)
    requires period > 0.0
  {
    forall k :: 0 < k < |items| && items[k].overrun ==> OnGrid(items, period, k)
  }

  /** Item k starts at the fire time that is due anyway. */
  ghost predicate OnGrid(items: seq<Item>, period: real, k: nat)
    requires period > 0.0 && 0 < k < |items|
  {
    FirstFire(HoldNext(items[..k], period), items[k].(overrun := false), period) == items[k].start
  }

  /** One item that fires from a and from b. */
  lemma SameFires(item: Item, a: real, b: real, period: real)
    requires period > 0.0 && FireCount(a, item.end, period) == FireCount(b, item.end, period)
    requires Point(a, period, FireCount(a, item.end, period)) == Point(b, period, FireCount(b, item.end, period))
    ensures a == b
  {
    var n := FireCount(a, item.end, period);
    PointIs(a, period, n);
    PointIs(b, period, n);
  }

  /** One more item, from a common past: the grid point in the flagless loop, and in the stream. */
  lemma OneMore(items: seq<Item>, period: real, a: real, b: real)
    requires period > 0.0 && |items| > 1 && InStep(items[..|items| - 1], period)
    requires var n, next := |items| - 1, HoldNext(items[..|items| - 1], period);
             a == FirstFire(next, items[n].(overrun := false), period) && b == FirstFire(next, items[n], period)
    ensures var item, out := items[|items| - 1], HoldRun(items[..|items| - 1], period);
            && HoldThrough(items, period) == out + HoldOutputs(item, a, period)
            && HoldRun(items, period) == out + HoldOutputs(item, b, period)
            && HoldNext(Unflagged(items), period) == Some(Point(a, period, FireCount(a, item.end, period)))
            && HoldNext(items, period) == Some(Point(b, period, FireCount(b, item.end, period)))
  {
    UnflaggedSnoc(items, period);
  }

  lemma StepAgreesIff(items: seq<Item>, period: real)
    requires period > 0.0 && |items| > 1 && InStep(items[..|items| - 1], period)
    ensures InStep(items, period) <==> (items[|items| - 1].overrun ==> OnGrid(items, period, |items| - 1))
  {
    var item, next := items[|items| - 1], HoldNext(items[..|items| - 1], period);
    var a, b := FirstFire(next, item.(overrun := false), period), FirstFire(next, item, period);
    OneMore(items, period, a, b);
    if InStep(items, period) {
      var out := HoldRun(items[..|items| - 1], period);
      assert |out + HoldOutputs(item, a, period)| == |out| + FireCount(a, item.end, period);
      assert |out + HoldOutputs(item, b, period)| == |out| + FireCount(b, item.end, period);
      SameFires(item, a, b, period);
    }
  }

  lemma {:induction false} InStepAtFirst(items: seq<Item>, period: real)
    requires period > 0.0 && |items| <= 1
    ensures InStep(items, period)
  {
    if |items| == 1 {
      UnflaggedSnoc(items, period);
      assert items[..0] == [] && Unflagged([]) == [];
    } else {
      assert Unflagged(items) == [];
    }
  }

  lemma {:induction false} GapsOnGridSuffices(items: seq<Item>, period: real)
    requires period > 0.0 && GapsOnGrid(items, period)
    ensures InStep(items, period)
    decreases |items|
  {
    if |items| <= 1 {
      InStepAtFirst(items, period);
    } else {
      var n := |items| - 1;
      forall k | 0 < k < n && items[..n][k].overrun ensures OnGrid(items[..n], period, k) {
        assert items[..n][..k] == items[..k] && OnGrid(items, period, k);
      }
      GapsOnGridSuffices(items[..n], period);
      StepAgreesIff(items, period);
    }
  }

  /** Both loops stay in step, outputs and pending fire times at every item, exactly when
      every gap ends at a fire time that is due anyway. */
  lemma StaysInStepIff(items: seq<Item>, period: real)
    requires period > 0.0
    ensures (forall k :: 0 <= k <= |items| ==> InStep(items[..k], period)) <==> GapsOnGrid(items, period)
  {
    if GapsOnGrid(items, period) {
      forall k | 0 <= k <= |items| ensures InStep(items[..k], period) {
        forall j | 0 < j < k && items[..k][j].overrun ensures OnGrid(items[..k], period, j) {
          assert items[..k][..j] == items[..j] && OnGrid(items, period, j);
        }
        GapsOnGridSuffices(items[..k], period);
      }
    }
    if forall k :: 0 <= k <= |items| ==> InStep(items[..k], period) {
      forall k | 0 < k < |items| && items[k].overrun ensures OnGrid(items, period, k) {
        var now := items[..k + 1];
        assert now[..k] == items[..k] && InStep(items[..k], period) && InStep(now, period);
        StepAgreesIff(now, period);
        assert OnGrid(now, period, k);
      }
    }
  }

  /** Where item j starts to fire in the batch loop, and in the stream. */
  function LoopFire(items: seq<Item>, period: real, j: nat): real
    requires period > 0.0 && j < |items|
  {
    FirstFire(HoldNext(Unflagged(items[..j]), period), items[j].(overrun := false), period)
  }

  function StreamFire(items: seq<Item>, period: real, j: nat): real
    requires period > 0.0 && j < |items|
  {
    FirstFire(HoldNext(items[..j], period), items[j], period)
  }

  /** Item j fires at the same times in both, or in neither. */
  predicate FiresAlike(items: seq<Item>, period: real, j: nat)
    requires period > 0.0 && j < |items|
  {
    var a, b := LoopFire(items, period, j), StreamFire(items, period, j);
    a == b || (a >= items[j].end && b >= items[j].end)
  }

  predicate AllFireAlike(items: seq<Item>, period: real)
    requires period > 0.0
  {
    forall j :: 0 <= j < |items| ==> FiresAlike(items, period, j)
  }

  /** Nothing before a gap reaches over it. */
  predicate GapsApart(items: seq<Item>) {
    forall i, j :: 0 <= i < j < |items| && items[j].overrun ==> items[i].end <= items[j].start
  }

  lemma {:induction false} AlikeSuffices(items: seq<Item>, period: real)
    requires period > 0.0 && AllFireAlike(items, period)
    ensures HoldThrough(items, period) == HoldRun(items, period)
    decreases |items|
  {
    if items != [] {
      var n := |items| - 1;
      forall j | 0 <= j < n ensures FiresAlike(items[..n], period, j) { AlikeInPrefix(items, period, n, j); }
      AlikeSuffices(items[..n], period);
      assert FiresAlike(items, period, n);
    }
  }

  lemma HeldNoEarlier(item: Item, fire: real, period: real)
    requires period > 0.0
    ensures forall q :: 0 <= q < |HoldOutputs(item, fire, period)| ==> HoldOutputs(item, fire, period)[q].start >= fire
    ensures Point(fire, period, FireCount(fire, item.end, period)) >= fire
  {
    forall q: nat | q < FireCount(fire, item.end, period) ensures Point(fire, period, q) >= fire {
      PointsGrow(fire, period, q);
    }
    PointsGrow(fire, period, FireCount(fire, item.end, period));
  }

  /** `more` follows `out`, and nothing in it starts before t. */
  ghost predicate ThenFrom(whole: seq<Item>, out: seq<Item>, t: real) {
    out <= whole && forall q :: |out| <= q < |whole| ==> whole[q].start >= t
  }

  lemma ThenMore(whole: seq<Item>, out: seq<Item>, t: real, item: Item, fire: real, period: real)
    requires period > 0.0 && ThenFrom(whole, out, t) && fire >= t
    ensures ThenFrom(whole + HoldOutputs(item, fire, period), out, t)
    ensures Point(fire, period, FireCount(fire, item.end, period)) >= t
  {
    HeldNoEarlier(item, fire, period);
    var held := HoldOutputs(item, fire, period);
    forall q | |out| <= q < |whole + held| ensures (whole + held)[q].start >= t {
      if q >= |whole| { assert (whole + held)[q] == held[q - |whole|]; }
    }
  }

  lemma AlignNoEarlier(next: real, start: real, period: real)
    requires period > 0.0
    ensures Align(next, start, period) >= next
  {
    PointsGrow(next, period, FireCount(next, start, period));
  }

  /** From item j on the batch loop fires no earlier than item j does. */
  lemma {:induction false} LoopFromHere(items: seq<Item>, period: real, j: nat)
    requires period > 0.0 && j < |items|
    ensures ThenFrom(HoldThrough(items, period), HoldThrough(items[..j], period), LoopFire(items, period, j))
    ensures HoldNext(Unflagged(items), period).value >= LoopFire(items, period, j)
    decreases |items|
  {
    var n, t := |items| - 1, LoopFire(items, period, j);
    UnflaggedSnoc(items, period);
    if j < n {
      LoopFromHere(items[..n], period, j);
      assert items[..n][..j] == items[..j];
      AlignNoEarlier(HoldNext(Unflagged(items[..n]), period).value, items[n].start, period);
      ThenMore(HoldThrough(items[..n], period), HoldThrough(items[..j], period), t, items[n],
        LoopFire(items, period, n), period);
    } else {
      ThenMore(HoldThrough(items[..n], period), HoldThrough(items[..n], period), t, items[n], t, period);
    }
  }

  /** From item j on the stream fires no earlier than item j does, or ends. */
  lemma {:induction false} StreamFromHere(items: seq<Item>, period: real, j: nat, t: real)
    requires period > 0.0 && j < |items| && GapsApart(items)
    requires t <= StreamFire(items, period, j) && t <= items[j].end
    ensures ThenFrom(HoldRun(items, period), HoldRun(items[..j], period), t)
    ensures HoldNext(items, period).value >= t
    decreases |items|
  {
    var n := |items| - 1;
    if j < n {
      assert items[..n][..j] == items[..j];
      StreamFromHere(items[..n], period, j, t);
      AlignNoEarlier(HoldNext(items[..n], period).value, items[n].start, period);
      ThenMore(HoldRun(items[..n], period), HoldRun(items[..j], period), t, items[n], StreamFire(items, period, n),
        period);
    } else {
      ThenMore(HoldRun(items[..n], period), HoldRun(items[..n], period), t, items[n], StreamFire(items, period, n),
        period);
    }
  }

  /** The first item that fires at different times parts the outputs for good. */
  lemma FirstDifference(items: seq<Item>, period: real, j: nat)
    requires period > 0.0 && j < |items| && GapsApart(items) && !FiresAlike(items, period, j)
    requires HoldThrough(items[..j], period) == HoldRun(items[..j], period)
    ensures HoldThrough(items, period) != HoldRun(items, period)
  {
    var a, b, end := LoopFire(items, period, j), StreamFire(items, period, j), items[j].end;
    var out := HoldRun(items[..j], period);
    LoopFromHere(items, period, j);
    StreamFromHere(items, period, j, if b < end then b else end);
    FiresFirst(items, period, j);
  }

  /** An item that fires does so at its first fire time. */
  lemma FiresFirst(items: seq<Item>, period: real, j: nat)
    requires period > 0.0 && j < |items|
    ensures var out := |HoldThrough(items[..j], period)|;
            LoopFire(items, period, j) < items[j].end ==>
            |HoldThrough(items, period)| > out && HoldThrough(items, period)[out].start == LoopFire(items, period, j)
    ensures var out := |HoldRun(items[..j], period)|;
            StreamFire(items, period, j) < items[j].end ==>
            |HoldRun(items, period)| > out && HoldRun(items, period)[out].start == StreamFire(items, period, j)
  {
    LoopExtends(items, period, j + 1);
    StreamExtends(items, period, j + 1);
    assert items[..j + 1][..j] == items[..j];
    FireCountMeans(LoopFire(items, period, j), items[j].end, period, 0);
    FireCountMeans(StreamFire(items, period, j), items[j].end, period, 0);
  }

  lemma {:induction false} LoopExtends(items: seq<Item>, period: real, k: nat)
    requires period > 0.0 && k <= |items|
    ensures HoldThrough(items[..k], period) <= HoldThrough(items, period)
    decreases |items|
  {
    if k < |items| {
      LoopExtends(items[..|items| - 1], period, k);
      assert items[..|items| - 1][..k] == items[..k];
    } else {
      assert items[..k] == items;
    }
  }

  lemma {:induction false} StreamExtends(items: seq<Item>, period: real, k: nat)
    requires period > 0.0 && k <= |items|
    ensures HoldRun(items[..k], period) <= HoldRun(items, period)
    decreases |items|
  {
    if k < |items| {
      StreamExtends(items[..|items| - 1], period, k);
      assert items[..|items| - 1][..k] == items[..k];
    } else {
      assert items[..k] == items;
    }
  }

  lemma AlikeInPrefix(items: seq<Item>, period: real, k: nat, i: nat)
    requires period > 0.0 && i < k <= |items|
    ensures FiresAlike(items[..k], period, i) <==> FiresAlike(items, period, i)
  {
    assert items[..k][..i] == items[..i] && items[..k][i] == items[i];
  }

  lemma FirstUnlike(items: seq<Item>, period: real) returns (j: nat)
    requires period > 0.0 && !AllFireAlike(items, period)
    ensures j < |items| && !FiresAlike(items, period, j) && AllFireAlike(items[..j], period)
  {
    j := 0;
    while FiresAlike(items, period, j)
      invariant j < |items| && forall i :: 0 <= i < j ==> FiresAlike(items, period, i)
      decreases |items| - j
    {
      j := j + 1;
    }
    forall i | 0 <= i < j ensures FiresAlike(items[..j], period, i) { AlikeInPrefix(items, period, j, i); }
  }

  /** When nothing reaches over a gap, the batch loop emits what the stream does exactly
      when every item fires at the same times in both, or in neither. */
  lemma HoldThroughAgreesIff(items: seq<Item>, period: real)
    requires period > 0.0 && GapsApart(items)
    ensures HoldThrough(items, period) == HoldRun(items, period) <==> AllFireAlike(items, period)
  {
    if AllFireAlike(items, period) {
      AlikeSuffices(items, period);
    } else {
      var j := FirstUnlike(items, period);
      AlikeSuffices(items[..j], period);
      FirstDifference(items, period, j);
    }
  }

  /** In step, the fire times are equal. */
  lemma GapsOnGridAlike(items: seq<Item>, period: real)
    requires period > 0.0 && GapsOnGrid(items, period)
    ensures AllFireAlike(items, period)
  {
    forall j | 0 <= j < |items| ensures FiresAlike(items, period, j) {
      forall k | 0 < k < j && items[..j][k].overrun ensures OnGrid(items[..j], period, k) {
        assert items[..j][..k] == items[..k] && OnGrid(items, period, k);
      }
      GapsOnGridSuffices(items[..j], period);
      if j > 0 && items[j].overrun { assert OnGrid(items, period, j); }
    }
  }

  /** An empty item behind a gap fires in neither, on the grid or off it. */
  lemma EmptyGapAgrees()
    ensures var items := [Item(Atom(0), 0.0, 1.0, OK, false), Item(Atom(1), 1.5, 1.5, OK, true)];
            !GapsOnGrid(items, 1.0) && HoldThrough(items, 1.0) == HoldRun(items, 1.0)
  {
    var a, b := Item(Atom(0), 0.0, 1.0, OK, false), Item(Atom(1), 1.5, 1.5, OK, true);
    var items := [a, b];
    FirstFires(a);
    InStepAtFirst([a], 1.0);
    assert items[..1] == [a] && items[..0] == [];
    assert FireCount(1.0, 1.5, 1.0) == 1 && Point(1.0, 1.0, 1) == 2.0;
    assert LoopFire(items, 1.0, 1) == 2.0 && StreamFire(items, 1.0, 1) == 1.5;
    assert FiresAlike(items, 1.0, 0) && FiresAlike(items, 1.0, 1);
    AlikeSuffices(items, 1.0);
    assert !OnGrid(items, 1.0, 1);
  }

  /** A gap that ends half a period off the grid: the stream fires behind the gap at
      once, the batch loop at the next point of the old grid. */
  lemma GapOffGridDiffers()
    ensures var a, b := Item(Atom(0), 0.0, 1.0, OK, false), Item(Atom(1), 1.5, 2.5, OK, true);
            && !AllFireAlike([a, b], 1.0)
            && HoldRun([a, b], 1.0) == [a, b] && HoldThrough([a, b], 1.0) == [a, b.(start := 2.0, end := 3.0)]
  {
    var a, b := Item(Atom(0), 0.0, 1.0, OK, false), Item(Atom(1), 1.5, 2.5, OK, true);
    FirstFires(a);
    FiresBehind(b);
    assert [a, b][..1] == [a] && [a, b][1] == b;
    InStepAtFirst([a], 1.0);
    OneMore([a, b], 1.0, 2.0, 1.5);
    assert [a, b][1].start == 1.5 && [a, b.(start := 2.0, end := 3.0)][1].start == 2.0;
    if AllFireAlike([a, b], 1.0) { AlikeSuffices([a, b], 1.0); }
  }

  lemma FiresBehind(b: Item)
    requires b.start == 1.5 && b.end == 2.5
    ensures FirstFire(Some(1.0), b.(overrun := false), 1.0) == 2.0
    ensures HoldOutputs(b, 1.5, 1.0) == [b] && HoldOutputs(b, 2.0, 1.0) == [b.(start := 2.0, end := 3.0)]
  {
    assert FireCount(1.0, 1.5, 1.0) == 1 && Point(1.0, 1.0, 1) == 2.0;
    assert FireCount(1.5, 2.5, 1.0) == 1 && FireCount(2.0, 2.5, 1.0) == 1;
    assert Held(b, 1.5, 1.0, 0) == b && Held(b, 2.0, 1.0, 0) == b.(start := 2.0, end := 3.0);
  }

  lemma FirstFires(a: Item)
    requires a.start == 0.0 && a.end == 1.0
    ensures HoldNext([a], 1.0) == Some(1.0) && HoldRun([a], 1.0) == [a]
  {
    assert [a][..0] == [] && HoldNext([], 1.0) == None && HoldRun([], 1.0) == [];
    assert FireCount(0.0, 1.0, 1.0) == 1 && Point(0.0, 1.0, 1) == 1.0;
    assert HoldOutputs(a, 0.0, 1.0) == [a];
  }

  // ------------------------------------------------------------------- RATE

  lemma JumpIs(fire: real, start: real, period: real)
    requires period > 0.0 && fire < start
    ensures Align(fire, start, period) == fire + Ceil((start - fire) / period) as real * period >= start
  {
    var n := FireCount(fire, start, period);
    FireCountMeans(fire, start, period, n);
    PointIs(fire, period, n);
  }

  /** One jump by whole periods reaches the grid point. */
  method Jump(fire: Fraction, start: Fraction, period: Fraction) returns (aligned: Fraction)
    requires fire.Valid() && start.Valid() && period.Valid() && period.numerator > 0 && Before(fire, start)
    ensures aligned.Valid() && period.Real() > 0.0 && !Before(aligned, start)
    ensures aligned.Real() == Align(fire.Real(), start.Real(), period.Real())
  {
    Signed(period);
    BeforeIs(fire, start);
    MinusIs(start, fire);
    QuotientOfIs(Minus(start, fire), period);
    CeilIs(Quotient(Minus(start, fire), period));
    var skipped := CeilOf(Quotient(Minus(start, fire), period));
    MultipleIs(skipped, period);
    PlusIs(fire, Multiple(skipped, period));
    aligned := Plus(fire, Multiple(skipped, period));
    JumpIs(fire.Real(), start.Real(), period.Real());
    BeforeIs(aligned, start);
  }

  /** `while fire < start` */
  method SkipTo(fire: Fraction, start: Fraction, period: Fraction) returns (aligned: Fraction)
    requires fire.Valid() && start.Valid() && period.Valid() && period.numerator > 0
    ensures aligned.Valid() && period.Real() > 0.0
    ensures aligned.Real() == Align(fire.Real(), start.Real(), period.Real())
  {
    Signed(period);
    BeforeIs(fire, start);
    aligned := fire;
    while Before(aligned, start)
      invariant aligned.Valid()
      invariant aligned == fire ||
                (aligned.Real() == Align(fire.Real(), start.Real(), period.Real()) && !Before(aligned, start))
      decreases Before(aligned, start)
    {
      aligned := Jump(aligned, start, period);
    }
  }

  /** `while fire < end`: one held emission per fire time. */
  method FireItem(item: RationalItem, from: Fraction, period: Fraction) returns (fire: Fraction, out: seq<RationalItem>)
    requires item.Valid() && from.Valid() && period.Valid() && period.numerator > 0
    ensures period.Real() > 0.0 && fire.Valid() && AllRational(out)
    ensures fire.Real() == Point(from.Real(), period.Real(), FireCount(from.Real(), item.end.Real(), period.Real()))
    ensures Meanings(out) == HoldOutputs(item.Meaning(), from.Real(), period.Real())
  {
    ghost var f, e, p := from.Real(), item.end.Real(), period.Real();
    Signed(period);
    ghost var n, done: nat := FireCount(f, e, p), 0;
    FireCountMeans(f, e, p, 0);
    fire, out := from, [];
    BeforeIs(fire, item.end);
    while Before(fire, item.end)
      invariant fire.Valid() && fire.Real() == Point(f, p, done) && done <= n
      invariant Before(fire, item.end) <==> done < n
      invariant AllRational(out) && Meanings(out) == HoldOutputs(item.Meaning(), f, p)[..done]
      decreases n - done
    {
      var next := Plus(fire, period);
      PlusIs(fire, period);
      ghost var held := HoldOutputs(item.Meaning(), f, p);
      var emission := RationalItem(item.value, fire, next, item.status, item.overrun);
      assert emission.Meaning() == held[done];
      MeaningsConcat(out, [emission]);
      assert held[..done + 1] == held[..done] + [held[done]];
      out := out + [emission];
      fire := next;
      done := done + 1;
      FireCountMeans(f, e, p, done);
      BeforeIs(fire, item.end);
    }
  }

  lemma ThroughSnoc(items: seq<Item>, period: real, k: nat)
    requires period > 0.0 && k < |items|
    ensures var next, last := HoldNext(Unflagged(items[..k]), period), items[k];
            var first := FirstFire(next, last.(overrun := false), period);
            && HoldThrough(items[..k + 1], period) == HoldThrough(items[..k], period) + HoldOutputs(last, first, period)
            && HoldNext(Unflagged(items[..k + 1]), period) ==
              Some(Point(first, period, FireCount(first, last.end, period)))
  {
    assert items[..k + 1][..k] == items[..k];
    UnflaggedSnoc(items[..k + 1], period);
  }

  /** The HOLD loop of a Python stage. */
  method PrefixHold(items: seq<RationalItem>, period: Fraction) returns (output: seq<RationalItem>)
    requires AllRational(items) && period.Valid() && period.numerator > 0
    ensures AllRational(output) && period.Real() > 0.0
    ensures Meanings(output) == HoldThrough(Meanings(items), period.Real())
  {
    ghost var stream, p := Meanings(items), period.Real();
    Signed(period);
    var nextFire: Option<Fraction> := None;
    output := [];
    assert Unflagged(stream[..0]) == [];
    for k := 0 to |items|
      invariant nextFire.Some? ==> nextFire.value.Valid()
      invariant HoldNext(Unflagged(stream[..k]), p) == if nextFire.Some? then Some(nextFire.value.Real()) else None
      invariant nextFire.Some? <==> k > 0
      invariant AllRational(output) && Meanings(output) == HoldThrough(stream[..k], p)
    {
      var item := items[k];
      ThroughSnoc(stream, p, k);
      FireCountMeans(item.start.Real(), item.start.Real(), p, 0);
      var aligned := SkipTo(if nextFire.None? then item.start else nextFire.value, item.start, period);
      var fire, more := FireItem(item, aligned, period);
      MeaningsConcat(output, more);
      output := output + more;
      nextFire := Some(fire);
    }
    assert stream[..|items|] == stream;
  }

  lemma SampleGrows(items: seq<Item>, period: real, k: nat)
    requires period > 0.0 && k < |items|
    ensures SampleRun(items[..k + 1], period) == SampleRun(items[..k], period) + SampleOutputs(items[k], period)
  {
    assert items[..k + 1][..k] == items[..k];
  }

  /** The SAMPLE loop: an emission is kept when start / period has denominator 1. */
  method PrefixSample(items: seq<RationalItem>, period: Fraction) returns (output: seq<RationalItem>)
    requires AllRational(items) && period.Valid() && period.numerator > 0
    ensures AllRational(output) && period.Real() > 0.0
    ensures Meanings(output) == SampleRun(Meanings(items), period.Real())
  {
    ghost var stream, p := Meanings(items), period.Real();
    Signed(period);
    output := [];
    for k := 0 to |items|
      invariant AllRational(output) && Meanings(output) == SampleRun(stream[..k], p)
    {
      SampleGrows(stream, p, k);
      SampleTest(items[k].start, period);
      if Quotient(items[k].start, period).denominator == 1 {
        MeaningsConcat(output, [items[k]]);
        assert Meanings([items[k]]) == [stream[k]];
        output := output + [items[k]];
      }
    }
    assert stream[..|items|] == stream;
  }

  lemma SampleTest(start: Fraction, period: Fraction)
    requires start.Valid() && period.Valid() && period.numerator > 0
    ensures period.Real() > 0.0
    ensures Quotient(start, period).denominator == 1 <==> IsMultiple(start.Real(), period.Real())
  {
    var n, d := start.numerator * period.denominator, start.denominator * period.numerator;
    assert d > 0;
    QuotientOfIs(start, period);
    ReducedIs(n, d);
    WholeIff(n, d);
  }

  // ------------------------------------------------------------------ FRAME

  /** The emission of one frame. */
  method PrefixFrame(items: seq<RationalItem>) returns (frame: RationalItem)
    requires AllRational(items) && |items| > 0
    ensures frame.Valid() && frame.Meaning() == MakeFrame(Meanings(items))
  {
    ghost var stream := Meanings(items);
    var values: seq<Value>, status, overrun := [], OK, false;
    for i := 0 to |items|
      invariant values == Values(stream[..i])
      invariant status == WorstStatus(stream[..i])
      invariant overrun <==> AnyOverrun(stream[..i])
    {
      assert stream[..i + 1] == stream[..i] + [stream[i]] && stream[..i + 1][..i] == stream[..i];
      AnyGrows(stream[..i], stream[i]);
      values := values + [items[i].value];
      status := Worse(status, items[i].status);
      overrun := overrun || items[i].overrun;
    }
    assert stream[..|items|] == stream;
    frame := RationalItem(Tuple(values), items[0].start, items[|items| - 1].end, status, overrun);
  }

  /** The FRAME loop of a Python stage: it frames across gaps. */
  method PrefixFrames(items: seq<RationalItem>, size: nat, hop: nat) returns (output: seq<RationalItem>)
    requires AllRational(items) && size > 0 && hop > 0
    ensures AllRational(output) && Meanings(output) == Frames(Meanings(items), size, hop)
  {
    ghost var frames := Frames(Meanings(items), size, hop);
    output := [];
    var offset := 0;
    ghost var j := 0;
    FrameCounted(|items|, size, hop, 0);
    while offset + size <= |items|
      invariant offset == Offset(j, hop)
      invariant offset + size <= |items| <==> j < |frames|
      invariant j <= |frames| && AllRational(output) && Meanings(output) == frames[..j]
      decreases |items| - offset
    {
      var frame := PrefixFrame(items[offset..offset + size]);
      assert Meanings(items[offset..offset + size]) == Meanings(items)[offset..offset + size];
      assert frame.Meaning() == frames[j];
      MeaningsConcat(output, [frame]);
      assert frames[..j + 1] == frames[..j] + [frames[j]];
      output := output + [frame];
      offset := offset + hop;
      j := j + 1;
      FrameCounted(|items|, size, hop, j);
    }
  }

  // ------------------------------------------------------ framing across gaps

  /** The frames of the grid skip, skip + hop, ... over all items, gaps or not. */
  function FramesFrom(items: seq<Item>, skip: nat, size: nat, hop: nat): seq<Item>
    requires size > 0 && hop > 0
  {
    if skip <= |items| then Frames(items[skip..], size, hop) else []
  }

  /** Where the first frame of the grid starts that the first e items do not complete. */
  function NextFrame(e: nat, skip: nat, size: nat, hop: nat): (next: nat)
    requires size > 0 && hop > 0
    ensures next >= skip
  {
    if skip <= e then skip + Offset(FrameCount(e - skip, size, hop), hop) else skip
  }

  /** A frame is due exactly where a segment begins that can hold one, and no frame
      reaches over a gap. */
  predicate FramesAlign(items: seq<Item>, skip: nat, size: nat, hop: nat)
    requires size > 0 && hop > 0
    decreases |items|
  {
    items == [] ||
      var e := SegmentEnd(items);
      var next := NextFrame(e, skip, size, hop);
      (e >= size ==> skip == 0) &&
      if next < e then next + size > |items| else FramesAlign(items[e..], next - e, size, hop)
  }

  lemma OffsetSum(a: nat, b: nat, hop: nat)
    ensures Offset(a + b, hop) == Offset(a, hop) + Offset(b, hop)
  {
    OffsetIs(a, hop);
    OffsetIs(b, hop);
    OffsetIs(a + b, hop);
    assert (a + b) * hop == a * hop + b * hop;
  }

  /** Frame c + j of n items is frame j behind offset c. */
  lemma CountBehind(n: nat, size: nat, hop: nat, c: nat, j: nat)
    requires size > 0 && hop > 0 && Offset(c, hop) <= n
    ensures c + j < FrameCount(n, size, hop) <==> j < FrameCount(n - Offset(c, hop), size, hop)
  {
    FrameCounted(n, size, hop, c + j);
    FrameCounted(n - Offset(c, hop), size, hop, j);
    OffsetSum(c, j, hop);
  }

  lemma CountsBehind(n: nat, size: nat, hop: nat, c: nat)
    requires size > 0 && hop > 0 && Offset(c, hop) <= n && c <= FrameCount(n, size, hop)
    ensures FrameCount(n, size, hop) == c + FrameCount(n - Offset(c, hop), size, hop)
  {
    CountBehind(n, size, hop, c, FrameCount(n - Offset(c, hop), size, hop));
    CountBehind(n, size, hop, c, FrameCount(n, size, hop) - c);
  }

  lemma FrameIs(items: seq<Item>, size: nat, hop: nat, j: nat, at: nat)
    requires size > 0 && hop > 0 && j < FrameCount(|items|, size, hop) && at == Offset(j, hop)
    ensures at + size <= |items| && Frames(items, size, hop)[j] == MakeFrame(items[at..at + size])
  {
    FrameCounted(|items|, size, hop, j);
  }

  lemma FrameBehind(items: seq<Item>, c: nat, size: nat, hop: nat, j: nat)
    requires size > 0 && hop > 0 && Offset(c, hop) <= |items| && c + j < FrameCount(|items|, size, hop)
    requires j < FrameCount(|items| - Offset(c, hop), size, hop)
    ensures Frames(items, size, hop)[c + j] == Frames(items[Offset(c, hop)..], size, hop)[j]
  {
    var from, at := Offset(c, hop), Offset(j, hop);
    OffsetSum(c, j, hop);
    FrameIs(items, size, hop, c + j, from + at);
    FrameIs(items[from..], size, hop, j, at);
    SameSlice(items, from, at, size);
  }

  /** The frames behind the first c. */
  lemma FramesBehind(items: seq<Item>, c: nat, size: nat, hop: nat)
    requires size > 0 && hop > 0 && c <= FrameCount(|items|, size, hop)
    ensures Frames(items, size, hop)[c..] == FramesFrom(items, Offset(c, hop), size, hop)
  {
    var all, back := Frames(items, size, hop), FramesFrom(items, Offset(c, hop), size, hop);
    if Offset(c, hop) <= |items| {
      CountsBehind(|items|, size, hop, c);
      forall j: nat | j < |back| ensures all[c..][j] == back[j] { FrameBehind(items, c, size, hop, j); }
    } else {
      FrameCounted(|items|, size, hop, c);
    }
  }

  /** The frames within the first k items, and those behind. */
  lemma FramesSplit(items: seq<Item>, k: nat, size: nat, hop: nat)
    requires size > 0 && hop > 0 && k <= |items|
    ensures Frames(items, size, hop) ==
            Frames(items[..k], size, hop) + FramesFrom(items, Offset(FrameCount(k, size, hop), hop), size, hop)
  {
    var c := FrameCount(k, size, hop);
    if c > 0 {
      FrameCounted(k, size, hop, c - 1);
      FrameCounted(|items|, size, hop, c - 1);
    }
    SameFrames(items, k, size, hop, c);
    FramesBehind(items, c, size, hop);
    var all := Frames(items, size, hop);
    assert all == all[..c] + all[c..] && Frames(items[..k], size, hop)[..c] == Frames(items[..k], size, hop);
  }

  lemma SameSlice(items: seq<Item>, from: nat, at: nat, size: nat)
    requires from + at + size <= |items|
    ensures items[from..][at..at + size] == items[from + at..from + at + size]
  {
  }

  /** Fewer items than a frame make no frame. */
  lemma {:induction false} TooShort(items: seq<Item>, size: nat, hop: nat)
    requires size > 0 && hop > 0 && |items| < size
    ensures SegmentedFrames(items, size, hop) == []
    decreases |items|
  {
    if items != [] { TooShort(items[SegmentEnd(items)..], size, hop); }
  }

  lemma Cancel(a: seq<Item>, b: seq<Item>, d: seq<Item>)
    requires b != d
    ensures a + b != a + d
  {
    assert (a + b)[|a|..] == b && (a + d)[|a|..] == d;
  }

  /** Unless the grid misses the first segment, the frames of the grid and of the stream
      are the same in it. */
  lemma FirstSegment(items: seq<Item>, skip: nat, size: nat, hop: nat)
    requires size > 0 && hop > 0 && items != [] && (SegmentEnd(items) >= size ==> skip == 0)
    ensures var e := SegmentEnd(items);
            var front := Frames(items[..e], size, hop);
            && FramesFrom(items, skip, size, hop) == front + FramesFrom(items, NextFrame(e, skip, size, hop), size, hop)
            && SegmentedFrames(items, size, hop) == front + SegmentedFrames(items[e..], size, hop)
  {
    var e := SegmentEnd(items);
    if skip == 0 {
      assert items[0..] == items;
      FramesSplit(items, e, size, hop);
    } else {
      assert Frames(items[..e], size, hop) == [] && NextFrame(e, skip, size, hop) == skip;
    }
  }

  lemma PastTheEnd(items: seq<Item>, next: nat, size: nat, hop: nat)
    requires size > 0 && hop > 0 && |items| < next + size
    ensures FramesFrom(items, next, size, hop) == []
  {
  }

  lemma GridBehind(items: seq<Item>, e: nat, next: nat, size: nat, hop: nat)
    requires size > 0 && hop > 0 && e <= next && e <= |items|
    ensures FramesFrom(items, next, size, hop) == FramesFrom(items[e..], next - e, size, hop)
  {
    if next <= |items| { assert items[next..] == items[e..][next - e..]; }
  }

  lemma AlignStep(items: seq<Item>, skip: nat, size: nat, hop: nat)
    requires size > 0 && hop > 0 && items != []
    ensures var e, next := SegmentEnd(items), NextFrame(SegmentEnd(items), skip, size, hop);
            FramesAlign(items, skip, size, hop) <==>
            ((e >= size ==> skip == 0) &&
              if next < e then next + size > |items| else FramesAlign(items[e..], next - e, size, hop))
  {
  }

  lemma AgreeBehind(items: seq<Item>, skip: nat, size: nat, hop: nat)
    requires size > 0 && hop > 0 && items != [] && (SegmentEnd(items) >= size ==> skip == 0)
    requires var e := SegmentEnd(items);
             FramesFrom(items, NextFrame(e, skip, size, hop), size, hop) == SegmentedFrames(items[e..], size, hop)
    ensures FramesFrom(items, skip, size, hop) == SegmentedFrames(items, size, hop)
  {
    FirstSegment(items, skip, size, hop);
  }

  lemma {:induction false} FramesAlignSuffices(items: seq<Item>, skip: nat, size: nat, hop: nat)
    requires size > 0 && hop > 0 && FramesAlign(items, skip, size, hop)
    ensures FramesFrom(items, skip, size, hop) == SegmentedFrames(items, size, hop)
    decreases |items|
  {
    if items == [] {
      PastTheEnd(items, skip, size, hop);
      TooShort(items, size, hop);
    } else {
      var e := SegmentEnd(items);
      var next := NextFrame(e, skip, size, hop);
      AlignStep(items, skip, size, hop);
      if next < e {
        PastTheEnd(items, next, size, hop);
        TooShort(items[e..], size, hop);
      } else {
        GridBehind(items, e, next, size, hop);
        FramesAlignSuffices(items[e..], next - e, size, hop);
      }
      AgreeBehind(items, skip, size, hop);
    }
  }

  ghost predicate StartsGrow(items: seq<Item>) {
    forall i, j :: 0 <= i < j < |items| ==> items[i].start < items[j].start
  }

  /** No frame starts before the first of its items. */
  lemma {:induction false} FramesStartLate(items: seq<Item>, size: nat, hop: nat, t: real)
    requires size > 0 && hop > 0 && forall i :: 0 <= i < |items| ==> items[i].start >= t
    ensures forall j :: 0 <= j < |SegmentedFrames(items, size, hop)| ==> SegmentedFrames(items, size, hop)[j].start >= t
    decreases |items|
  {
    if items != [] {
      var e := SegmentEnd(items);
      var front, back := Frames(items[..e], size, hop), SegmentedFrames(items[e..], size, hop);
      FramesStartLate(items[e..], size, hop, t);
      forall j | 0 <= j < |front| ensures front[j].start >= t { FrameStart(items[..e], size, hop, j); }
      forall j | 0 <= j < |front + back| ensures (front + back)[j].start >= t {
        if j >= |front| { assert (front + back)[j] == back[j - |front|]; }
      }
    }
  }

  lemma FrameStart(items: seq<Item>, size: nat, hop: nat, j: nat)
    requires size > 0 && hop > 0 && j < FrameCount(|items|, size, hop)
    ensures Offset(j, hop) < |items| && Frames(items, size, hop)[j].start == items[Offset(j, hop)].start
  {
    FrameCounted(|items|, size, hop, j);
  }

  /** A frame over the gap is none of the frames behind it. */
  lemma CrossingDiffers(items: seq<Item>, e: nat, next: nat, size: nat, hop: nat)
    requires size > 0 && hop > 0 && StartsGrow(items) && next < e <= |items| && next + size <= |items|
    ensures FramesFrom(items, next, size, hop) != SegmentedFrames(items[e..], size, hop)
  {
    FrameStart(items[next..], size, hop, 0);
    if e < |items| { FramesStartLate(items[e..], size, hop, items[e].start); }
  }

  lemma DifferBehind(items: seq<Item>, skip: nat, size: nat, hop: nat)
    requires size > 0 && hop > 0 && items != [] && (SegmentEnd(items) >= size ==> skip == 0)
    requires var e := SegmentEnd(items);
             FramesFrom(items, NextFrame(e, skip, size, hop), size, hop) != SegmentedFrames(items[e..], size, hop)
    ensures FramesFrom(items, skip, size, hop) != SegmentedFrames(items, size, hop)
  {
    var e := SegmentEnd(items);
    FirstSegment(items, skip, size, hop);
    Cancel(Frames(items[..e], size, hop), FramesFrom(items, NextFrame(e, skip, size, hop), size, hop),
      SegmentedFrames(items[e..], size, hop));
  }

  lemma CrossesFirst(items: seq<Item>, skip: nat, e: nat, next: nat, size: nat, hop: nat)
    requires size > 0 && hop > 0 && StartsGrow(items) && items != []
    requires e == SegmentEnd(items) && next == NextFrame(e, skip, size, hop) && (e >= size ==> skip == 0)
    requires next < e && next + size <= |items|
    ensures FramesFrom(items, skip, size, hop) != SegmentedFrames(items, size, hop)
  {
    CrossingDiffers(items, e, next, size, hop);
    DifferBehind(items, skip, size, hop);
  }

  lemma DiffersLater(items: seq<Item>, skip: nat, e: nat, next: nat, size: nat, hop: nat)
    requires size > 0 && hop > 0 && items != []
    requires e == SegmentEnd(items) && next == NextFrame(e, skip, size, hop) && (e >= size ==> skip == 0)
    requires next >= e && FramesFrom(items[e..], next - e, size, hop) != SegmentedFrames(items[e..], size, hop)
    ensures FramesFrom(items, skip, size, hop) != SegmentedFrames(items, size, hop)
  {
    GridBehind(items, e, next, size, hop);
    DifferBehind(items, skip, size, hop);
  }

  lemma {:induction false} FramesDiffer(items: seq<Item>, skip: nat, size: nat, hop: nat)
    requires size > 0 && hop > 0 && StartsGrow(items) && !FramesAlign(items, skip, size, hop)
    ensures FramesFrom(items, skip, size, hop) != SegmentedFrames(items, size, hop)
    decreases |items|
  {
    var e := SegmentEnd(items);
    var next := NextFrame(e, skip, size, hop);
    AlignStep(items, skip, size, hop);
    if e >= size && skip > 0 {
      MissedSegment(items, skip, size, hop);
    } else if next < e {
      CrossesFirst(items, skip, e, next, size, hop);
    } else {
      FramesDiffer(items[e..], next - e, size, hop);
      DiffersLater(items, skip, e, next, size, hop);
    }
  }

  /** When item starts grow, framing across gaps is framing segment by segment exactly
      under this condition. */
  lemma FramesAlignIff(items: seq<Item>, size: nat, hop: nat)
    requires size > 0 && hop > 0 && StartsGrow(items)
    ensures Frames(items, size, hop) == SegmentedFrames(items, size, hop) <==> FramesAlign(items, 0, size, hop)
  {
    assert items[0..] == items;
    if FramesAlign(items, 0, size, hop) {
      FramesAlignSuffices(items, 0, size, hop);
    } else {
      FramesDiffer(items, 0, size, hop);
    }
  }

  lemma GapFreeAlign(items: seq<Item>, size: nat, hop: nat)
    requires size > 0 && hop > 0 && forall i :: 1 <= i < |items| ==> !items[i].overrun
    ensures FramesAlign(items, 0, size, hop)
  {
    if items != [] {
      SegmentEndUnique(items, |items|);
      var c := FrameCount(|items|, size, hop);
      FrameCounted(|items|, size, hop, c);
      AlignStep(items, 0, size, hop);
      assert items[|items|..] == [];
    }
  }

  /** Two items with a gap between them: the batch loop makes a frame of them. */
  lemma FrameAcrossGapDiffers()
    ensures var a, b := Item(Atom(0), 0.0, 1.0, OK, false), Item(Atom(1), 2.0, 3.0, OK, true);
            && !FramesAlign([a, b], 0, 2, 1)
            && Frames([a, b], 2, 1) == [MakeFrame([a, b])] && SegmentedFrames([a, b], 2, 1) == []
  {
    var a, b := Item(Atom(0), 0.0, 1.0, OK, false), Item(Atom(1), 2.0, 3.0, OK, true);
    var items := [a, b];
    SegmentEndUnique(items, 1);
    assert items[1..] == [b] && items[..1] == [a] && items[0..2] == items;
    TooShort([b], 2, 1);
    FramesAlignIff(items, 2, 1);
  }

  /** The grid starts late: the segment's first frame is missing. */
  lemma MissedSegment(items: seq<Item>, skip: nat, size: nat, hop: nat)
    requires size > 0 && hop > 0 && StartsGrow(items) && items != [] && SegmentEnd(items) >= size && skip > 0
    ensures FramesFrom(items, skip, size, hop) != SegmentedFrames(items, size, hop)
  {
    var e := SegmentEnd(items);
    FrameStart(items[..e], size, hop, 0);
    assert SegmentedFrames(items, size, hop)[0] == Frames(items[..e], size, hop)[0];
    var late := FramesFrom(items, skip, size, hop);
    if late != [] { FrameStart(items[skip..], size, hop, 0); }
  }

  // -------------------------------------------------------------------- MAP

  /** What a Python kernel returns for one emission. */
  datatype PythonValue = Bare(value: Value) | Own(value: Value, start: Fraction, end: Fraction, status: Status) {
    predicate Valid() { this.Own? ==> start.Valid() && end.Valid() }

    function Meaning(): KernelValue
      requires Valid()
    {
      match this
      case Bare(v) => Raw(v)
      case Own(v, s, e, st) => Emitted(v, s.Real(), e.Real(), st)
    }
  }

  type PythonKernel = seq<RationalItem> -> seq<PythonValue>

  predicate AllValues(values: seq<PythonValue>) {
    forall i :: 0 <= i < |values| ==> values[i].Valid()
  }

  function ValueMeanings(values: seq<PythonValue>): seq<KernelValue>
    requires AllValues(values)
  {
    seq(|values|, (i: nat) requires i < |values| => values[i].Meaning())
  }

  /** The Python kernel computes, on rational times, what the node's kernel does. */
  ghost predicate Computes(kernel: Kernel, python: PythonKernel) {
    forall items :: AllRational(items) ==>
      AllValues(python(items)) && ValueMeanings(python(items)) == kernel(Meanings(items))
  }

  /** The MAP without the reset behind a gap. */
  function Unreset(node: Node): Node
    requires node.Map?
  {
    node.(resetOnGap := false)
  }

  /** The emissions of one kernel call. */
  method EmitValues(item: RationalItem, values: seq<PythonValue>) returns (out: seq<RationalItem>)
    requires item.Valid() && AllValues(values)
    ensures AllRational(out) && Meanings(out) == Outputs(item.Meaning(), ValueMeanings(values))
  {
    out := [];
    for i := 0 to |values|
      invariant AllRational(out) && Meanings(out) == Outputs(item.Meaning(), ValueMeanings(values))[..i]
    {
      var emission := match values[i]
        case Bare(value) => item.(value := value)
        case Own(value, start, end, status) =>
          RationalItem(value, start, end, Worse(item.status, status), item.overrun);
      assert emission.Meaning() == MapOutput(item.Meaning(), values[i].Meaning());
      MeaningsConcat(out, [emission]);
      out := out + [emission];
    }
  }

  lemma MapGrows(node: Node, items: seq<Item>, k: nat)
    requires node.Map? && k < |items|
    ensures var (st, out) := Run(node, items[..k]);
            var (last, more) := Step(node, st, items[k]);
            Run(node, items[..k + 1]) == (last, out + more)
  {
    assert items[..k + 1] == items[..k] + [items[k]];
    RunFromSnoc(node, Init(node), items[..k], items[k]);
  }

  /** _run_python_map_nodes for one input: a kernel state that lives through the batch. */
  method RunPythonMap(input: seq<RationalItem>, kernel: PythonKernel, acceptsInvalid: bool, ghost node: Node)
    returns (output: seq<RationalItem>)
    requires AllRational(input) && node.Map? && node.acceptsInvalid == acceptsInvalid && Computes(node.kernel, kernel)
    ensures AllRational(output) && Meanings(output) == Run(Unreset(node), Meanings(input)).1
  {
    ghost var stream, plain := Meanings(input), Unreset(node);
    var seen: seq<RationalItem> := [];
    output := [];
    assert Meanings([]) == [];
    for k := 0 to |input|
      invariant AllRational(seen) && AllRational(output)
      invariant Run(plain, stream[..k]) == (MapState(Meanings(seen)), Meanings(output))
    {
      var item := input[k];
      var more: seq<RationalItem> := [item];
      MapGrows(plain, stream, k);
      assert Meanings(more) == [stream[k]];
      if !(item.status == INVALID && !acceptsInvalid) {
        MeaningsConcat(seen, [item]);
        seen := seen + [item];
        more := EmitValues(item, kernel(seen));
      }
      MeaningsConcat(output, more);
      output := output + more;
    }
    assert stream[..|input|] == stream;
  }

  // ------------------------------------------- a MAP that resets behind gaps

  /** Up to here both states hold the same, or nothing behind is processed. */
  ghost predicate SameSeen(node: Node, items: seq<Item>, k: nat)
    requires node.Map? && k <= |items|
  {
    var was, plain := Run(node, items[..k]), Run(Unreset(node), items[..k]);
    && was.1 == plain.1
    && (plain.0.seen != [] ==> exists i :: 0 <= i < k && Processed(items[i], node.acceptsInvalid))
    && (was.0 == plain.0 || !ProcessedFrom(items, node.acceptsInvalid, k))
  }

  lemma {:induction false} UnresetSoFar(node: Node, items: seq<Item>, k: nat)
    requires node.Map? && k <= |items| && NeverReset(items, node.acceptsInvalid)
    ensures SameSeen(node, items, k)
  {
    if k > 0 {
      var n := k - 1;
      UnresetSoFar(node, items, n);
      MapGrows(node, items, n);
      MapGrows(Unreset(node), items, n);
      var was, plain := Run(node, items[..n]).0.seen, Run(Unreset(node), items[..n]).0.seen;
      if node.resetOnGap && items[n].overrun && plain != [] {
        var i :| 0 <= i < n && Processed(items[i], node.acceptsInvalid);
        assert !ProcessedFrom(items, node.acceptsInvalid, n);
      }
      if Processed(items[n], node.acceptsInvalid) {
        assert ProcessedFrom(items, node.acceptsInvalid, n);
      } else {
        assert ProcessedFrom(items, node.acceptsInvalid, k) ==> ProcessedFrom(items, node.acceptsInvalid, n);
      }
    }
  }

  /** The reset makes no difference when no reset matters. */
  lemma UnresetAgrees(node: Node, items: seq<Item>)
    requires node.Map? && (node.resetOnGap ==> NeverReset(items, node.acceptsInvalid))
    ensures Run(Unreset(node), items).1 == Run(node, items).1
  {
    if node.resetOnGap {
      UnresetSoFar(node, items, |items|);
      assert items[..|items|] == items;
    } else {
      assert Unreset(node) == node;
    }
  }

  /** What the counting kernel has seen without the reset: everything processed. */
  lemma {:induction false} UnresetSees(acceptsInvalid: bool, items: seq<Item>)
    ensures |Run(Unreset(Resetting(Counting(), acceptsInvalid)), items).0.seen| == ProcessedCount(items, acceptsInvalid)
    decreases |items|
  {
    if items != [] {
      UnresetSees(acceptsInvalid, items[..|items| - 1]);
      RunSnoc(Unreset(Resetting(Counting(), acceptsInvalid)), items);
    }
  }

  lemma UnresetStep(acceptsInvalid: bool, seen: seq<Item>, item: Item)
    requires Processed(item, acceptsInvalid)
    ensures var out := MapStep(Unreset(Resetting(Counting(), acceptsInvalid)), seen, item).1;
            |out| == 1 && out[0].value == Atom(|seen| + 1)
  {
    var node := Unreset(Resetting(Counting(), acceptsInvalid));
    var values := node.kernel(seen + [item]);
    assert values == [Emitted(Atom(|seen + [item]|), item.start, item.end, OK)];
    assert MapStep(node, seen, item).1 == [MapOutput(item, values[0])];
  }

  /** An item behind a gap, between two that are processed: the counts differ. */
  lemma UnresetDiffers(acceptsInvalid: bool, items: seq<Item>, i: nat, k: nat, j: nat)
    requires i < k <= j < |items| && items[k].overrun
    requires Processed(items[i], acceptsInvalid) && Processed(items[j], acceptsInvalid)
    ensures var node := Resetting(Counting(), acceptsInvalid);
            Run(Unreset(node), items).1 != Run(node, items).1
  {
    var node := Resetting(Counting(), acceptsInvalid);
    ResetCounts(acceptsInvalid, items, i, k, j);
    OneEach(Unreset(node), items, j);
    UnresetSees(acceptsInvalid, items[..j]);
    UnresetStep(acceptsInvalid, Run(Unreset(node), items[..j]).0.seen, items[j]);
    assert items[..j + 1][..j] == items[..j];
    assert Run(Unreset(node), items).1[j].value == Atom(ProcessedCount(items[..j + 1], acceptsInvalid));
    assert Run(Unreset(node), items).1[j].value != Run(node, items).1[j].value;
  }

  /** The loop that never resets a kernel state computes the stream, whatever the
      kernel, exactly when no reset matters. */
  lemma UnresetAgreesIff(acceptsInvalid: bool, items: seq<Item>)
    ensures (forall kernel: Kernel ::
               var node := Map(0, kernel, acceptsInvalid, true);
               Run(Unreset(node), items).1 == Run(node, items).1) <==>
            NeverReset(items, acceptsInvalid)
  {
    if NeverReset(items, acceptsInvalid) {
      forall kernel: Kernel
        ensures var node := Map(0, kernel, acceptsInvalid, true);
                Run(Unreset(node), items).1 == Run(node, items).1
      {
        UnresetAgrees(Map(0, kernel, acceptsInvalid, true), items);
      }
    } else {
      var i, k, j :| 0 <= i < k <= j < |items| && items[k].overrun &&
                     Processed(items[i], acceptsInvalid) && Processed(items[j], acceptsInvalid);
      UnresetDiffers(acceptsInvalid, items, i, k, j);
      var node := Resetting(Counting(), acceptsInvalid);
      assert node == Map(0, node.kernel, acceptsInvalid, true);
    }
  }

  /** Two items with a gap between them: the stream counts each as the first, the loop
      counts on. */
  lemma ForgottenResetDiffers()
    ensures var a, b := Item(Atom(0), 0.0, 1.0, OK, false), Item(Atom(0), 1.0, 2.0, OK, true);
            var node := Resetting(Counting(), true);
            && !NeverReset([a, b], true)
            && Values(Run(node, [a, b]).1) == [Atom(1), Atom(1)]
            && Values(Run(Unreset(node), [a, b]).1) == [Atom(1), Atom(2)]
  {
    var a, b := Item(Atom(0), 0.0, 1.0, OK, false), Item(Atom(0), 1.0, 2.0, OK, true);
    var node := Resetting(Counting(), true);
    assert [a, b][..1] == [a] && [a][..0] == [];
    OneEach(node, [a, b], 0);
    OneEach(node, [a, b], 1);
    OneEach(Unreset(node), [a, b], 0);
    OneEach(Unreset(node), [a, b], 1);
    CountingStep(true, [], a);
    CountingStep(true, [a], b);
    UnresetStep(true, [], a);
    UnresetStep(true, [a], b);
    assert [a, b][1].overrun && Processed(a, true) && Processed(b, true);
  }
}
