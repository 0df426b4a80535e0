/** The EveryLogicalTime trigger: of the emissions that cover one boundary of the
    period, the first fires and the others do not. */
module Triggers {
  import opened Stream
  import opened Vectors
  import opened Scaling

  /** `offset % period`, as Python computes it: never negative. */
  function Normalized(offset: real, period: real): (r: real)
    requires period > 0.0
  {
    offset - Times((offset / period).Floor as real, period)
  }

  lemma NormalizedIs(offset: real, period: real)
    requires period > 0.0
    ensures 0.0 <= Normalized(offset, period) < period
    ensures IsMultiple(offset - Normalized(offset, period), period)
  {
    var x := offset / period;
    var k := x.Floor as real;
    TimesSum(x, k, period);
    Fraction(x - k, period);
    Divides(k, period);
  }

  lemma Fraction(f: real, period: real)
    requires period > 0.0 && 0.0 <= f < 1.0
    ensures 0.0 <= Times(f, period) < period
  {
  }

  /** The k-th boundary of a trigger. */
  function Boundary(offset: real, period: real, k: nat): real { Point(offset, period, k) }

  predicate Covers(e: Item, t: real) { e.start <= t < e.end }

  /** An earlier emission covers the boundary. */
  ghost predicate Claimed(history: seq<Item>, t: real) {
    exists e :: e in history && Covers(e, t)
  }

  /** An earlier emission covers the boundary, or starts behind it. */
  ghost predicate Spent(history: seq<Item>, t: real) {
    exists e :: e in history && (t < e.start || Covers(e, t))
  }

  /** Some boundary of the grid lies in the emission and is not spent. */
  ghost predicate Due(history: seq<Item>, e: Item, offset: real, period: real) {
    exists k: nat :: Covers(e, Boundary(offset, period, k)) && !Spent(history, Boundary(offset, period, k))
  }

  /** The same in numbers: some time offset + k * period lies in the emission, and no
      earlier emission reaches to it or starts behind it. */
  lemma DueMeans(history: seq<Item>, e: Item, offset: real, period: real)
    ensures Due(history, e, offset, period) <==>
            exists k: nat :: FreshAt(history, e, offset, period, k)
  {
    forall k: nat ensures Boundary(offset, period, k) == offset + k as real * period { PointIs(offset, period, k); }
    if Due(history, e, offset, period) {
      var k: nat :| Covers(e, Boundary(offset, period, k)) && !Spent(history, Boundary(offset, period, k));
      assert FreshAt(history, e, offset, period, k);
    }
    if k: nat :| FreshAt(history, e, offset, period, k) {
      assert Covers(e, Boundary(offset, period, k)) && !Spent(history, Boundary(offset, period, k));
    }
  }

  ghost predicate FreshAt(history: seq<Item>, e: Item, offset: real, period: real, k: nat) {
    var t := offset + k as real * period;
    e.start <= t < e.end && forall x :: x in history ==> x.start <= t && x.end <= t
  }

  /** The emission is the first to cover some boundary. */
  ghost predicate FirstToCover(history: seq<Item>, e: Item, offset: real, period: real) {
    exists k: nat :: Covers(e, Boundary(offset, period, k)) && !Claimed(history, Boundary(offset, period, k))
  }

  ghost predicate StartsRise(history: seq<Item>) {
    forall i, j :: 0 <= i < j < |history| ==> history[i].start <= history[j].start
  }

  /** No earlier emission starts behind a time that e is the first to cover. */
  ghost predicate NothingSkipped(history: seq<Item>, e: Item) {
    forall t, f :: Covers(e, t) && !Claimed(history, t) && f in history ==> f.start <= t
  }

  lemma NothingSkippedSuffices(history: seq<Item>, e: Item, offset: real, period: real)
    requires NothingSkipped(history, e)
    ensures Due(history, e, offset, period) <==> FirstToCover(history, e, offset, period)
  {
    forall k: nat | Covers(e, Boundary(offset, period, k))
      ensures Spent(history, Boundary(offset, period, k)) <==> Claimed(history, Boundary(offset, period, k))
    {
    }
  }

  /** On a grid with only this boundary in the emission, the emission does not fire. */
  lemma SkippedIsNotDue(history: seq<Item>, e: Item, t: real, f: Item, period: real)
    requires Covers(e, t) && !Claimed(history, t) && f in history && t < f.start && period >= e.end - e.start
    ensures period > 0.0 && FirstToCover(history, e, t, period) && !Due(history, e, t, period)
  {
    assert Boundary(t, period, 0) == t && Boundary(t, period, 1) == t + period;
    forall k: nat | Covers(e, Boundary(t, period, k)) ensures Spent(history, Boundary(t, period, k)) {
      BoundaryOrder(t, period, 1, k);
    }
  }

  /** The documented rule, that the first emission to cover a boundary fires, holds on
      every grid exactly when no earlier emission started behind a time that this one
      is the first to cover. */
  lemma FirstToCoverIsDueIff(history: seq<Item>, e: Item)
    ensures (forall offset, period | period > 0.0 ::
               Due(history, e, offset, period) <==> FirstToCover(history, e, offset, period)) <==>
            NothingSkipped(history, e)
  {
    if NothingSkipped(history, e) {
      forall offset, period | period > 0.0
        ensures Due(history, e, offset, period) <==> FirstToCover(history, e, offset, period)
      {
        NothingSkippedSuffices(history, e, offset, period);
      }
    } else {
      var t, f :| Covers(e, t) && !Claimed(history, t) && f in history && t < f.start;
      SkippedIsNotDue(history, e, t, f, e.end - e.start);
    }
  }

  /** The same, for the times from 0 on. */
  ghost predicate NothingSkippedFromZero(history: seq<Item>, e: Item) {
    forall t, f :: t >= 0.0 && Covers(e, t) && !Claimed(history, t) && f in history ==> f.start <= t
  }

  /** A session's offset lies in its first period, so that only times from 0 on matter. */
  lemma SessionsFireIff(history: seq<Item>, e: Item)
    ensures (forall offset, period | 0.0 <= offset < period ::
               Due(history, e, offset, period) <==> FirstToCover(history, e, offset, period)) <==>
            NothingSkippedFromZero(history, e)
  {
    if NothingSkippedFromZero(history, e) {
      forall offset, period | 0.0 <= offset < period
        ensures Due(history, e, offset, period) <==> FirstToCover(history, e, offset, period)
      {
        forall k: nat | Covers(e, Boundary(offset, period, k))
          ensures Spent(history, Boundary(offset, period, k)) <==> Claimed(history, Boundary(offset, period, k))
        {
          PointsGrow(offset, period, k);
        }
      }
    } else {
      var t, f :| t >= 0.0 && Covers(e, t) && !Claimed(history, t) && f in history && t < f.start;
      SkippedIsNotDue(history, e, t, f, e.end - e.start + t);
    }
  }

  /** While starts never fall, the first emission to cover a boundary is the one that fires. */
  lemma FirstToCoverIsDue(history: seq<Item>, e: Item, offset: real, period: real)
    requires StartsRise(history + [e])
    ensures Due(history, e, offset, period) <==> FirstToCover(history, e, offset, period)
  {
    forall x | x in history ensures x.start <= e.start {
      var i :| 0 <= i < |history| && history[i] == x;
      assert (history + [e])[i].start <= (history + [e])[|history|].start;
    }
    NothingSkippedSuffices(history, e, offset, period);
  }

  /** Behind an emission that started later, the first one to cover a boundary does not fire. */
  lemma LateStartIsNotDue()
    ensures var late, e := Item(Atom(0), 1.0, 2.0, OK, false), Item(Atom(1), 0.0, 1.0, OK, false);
            FirstToCover([late], e, 0.0, 1.0) && !Due([late], e, 0.0, 1.0)
  {
    var late, e := Item(Atom(0), 1.0, 2.0, OK, false), Item(Atom(1), 0.0, 1.0, OK, false);
    assert Covers(e, Boundary(0.0, 1.0, 0)) && !Claimed([late], Boundary(0.0, 1.0, 0));
    assert late in [late];
  }

  lemma {:induction false} PointGrows(fire: real, period: real, j: nat, k: nat)
    requires period > 0.0 && j < k
    ensures Point(fire, period, j) < Point(fire, period, k)
  {
    if j < k - 1 { PointGrows(fire, period, j, k - 1); }
  }

  lemma BoundaryOrder(offset: real, period: real, j: nat, k: nat)
    requires period > 0.0
    ensures Boundary(offset, period, j) < Boundary(offset, period, k) <==> j < k
  {
    if j < k { PointGrows(offset, period, j, k); } else if k < j { PointGrows(offset, period, k, j); }
  }

  /** Exactly the boundaries before `next` are spent. */
  ghost predicate Free(history: seq<Item>, offset: real, period: real, next: nat) {
    forall k: nat :: k < next <==> Spent(history, Boundary(offset, period, k))
  }

  lemma SpentSnoc(history: seq<Item>, e: Item, t: real)
    ensures Spent(history + [e], t) <==> Spent(history, t) || t < e.start || Covers(e, t)
  {
    assert e in history + [e];
    assert forall x :: x in history ==> x in history + [e];
  }

  class EveryLogicalTimeSession {
    const offset: real
    const period: real
    var nextBoundary: real
    ghost var index: nat
    ghost var history: seq<Item>

    ghost predicate Valid()
      reads this
    {
      period > 0.0 && nextBoundary == Boundary(offset, period, index) && Free(history, offset, period, index)
    }

    constructor (period: real, offset: real)
      requires period > 0.0
      ensures Valid() && history == [] && this.period == period && this.offset == Normalized(offset, period)
    {
      this.period, this.offset := period, Normalized(offset, period);
      nextBoundary := Normalized(offset, period);
      index, history := 0, [];
    }

    /** should_fire: exactly when the emission covers a boundary that no earlier
        emission of this run covered or started behind. */
    method ShouldFire(e: Item) returns (fires: bool)
      requires Valid()
      modifies this
      ensures Valid() && history == old(history) + [e]
      ensures fires <==> Due(old(history), e, offset, period)
      ensures fires <==> exists k: nat :: FreshAt(old(history), e, offset, period, k)
    {
      DueMeans(history, e, offset, period);
      SkipAhead(e);
      if !(e.start <= nextBoundary < e.end) {
        NotDue(history, e, offset, period, index);
        history := history + [e];
        return false;
      }
      assert Covers(e, Boundary(offset, period, index)) && !Spent(history, Boundary(offset, period, index));
      ghost var first := index;
      PassAll(e.end);
      Fired(history, e, offset, period, first, index);
      history := history + [e];
      return true;
    }

    /** Boundaries before the emission's start are skipped in one jump. */
    method SkipAhead(e: Item)
      requires Valid()
      modifies `nextBoundary, `index
      ensures nextBoundary == Boundary(offset, period, index) >= e.start && Reached(history, e, offset, period, index)
    {
      if nextBoundary < e.start {
        var boundary, skipped := Jump(nextBoundary, e.start, period);
        Skipped(offset, period, index, skipped, e.start);
        AllReached(history, e, offset, period, index, index + skipped);
        index := index + skipped;
        nextBoundary := boundary;
      } else {
        AllReached(history, e, offset, period, index, index);
      }
    }

    /** `while next < end`: every boundary in the emission is passed. */
    method PassAll(end: real)
      requires period > 0.0 && nextBoundary == Boundary(offset, period, index)
      modifies `nextBoundary, `index
      ensures index >= old(index) && nextBoundary == Boundary(offset, period, index) >= end
      ensures forall k: nat :: old(index) <= k < index ==> Boundary(offset, period, k) < end
    {
      while nextBoundary < end
        invariant index >= old(index) && nextBoundary == Boundary(offset, period, index)
        invariant forall k: nat :: old(index) <= k < index ==> Boundary(offset, period, k) < end
        decreases FireCount(nextBoundary, end, period)
      {
        Closer(nextBoundary, end, period);
        nextBoundary := nextBoundary + period;
        index := index + 1;
      }
    }
  }

  lemma Skipped(offset: real, period: real, was: nat, skipped: nat, start: real)
    requires period > 0.0 && forall k: nat :: k < skipped ==> Point(Boundary(offset, period, was), period, k) < start
    ensures Boundary(offset, period, was + skipped) == Point(Boundary(offset, period, was), period, skipped)
    ensures forall k: nat :: was <= k < was + skipped ==> Boundary(offset, period, k) < start
  {
    PointAdd(offset, period, was, skipped);
    forall k: nat | was <= k < was + skipped ensures Boundary(offset, period, k) < start {
      PointAdd(offset, period, was, k - was);
      assert Point(Boundary(offset, period, was), period, k - was) < start;
    }
  }

  /** The first boundary at or behind `start`, in one jump of whole periods. */
  method Jump(from: real, start: real, period: real) returns (boundary: real, skipped: nat)
    requires period > 0.0 && from < start
    ensures boundary == Point(from, period, skipped) >= start && forall k: nat :: k < skipped ==>
            Point(from, period, k) < start
  {
    ghost var n := FireCount(from, start, period);
    PointIs(from, period, n);
    FireCountMeans(from, start, period, n);
    forall k: nat | k < n ensures Point(from, period, k) < start { FireCountMeans(from, start, period, k); }
    skipped := Ceil((start - from) / period);
    boundary := from + skipped as real * period;
  }

  lemma Closer(from: real, end: real, period: real)
    requires period > 0.0 && from < end
    ensures FireCount(from + period, end, period) < FireCount(from, end, period)
  {
    var n := FireCount(from + period, end, period);
    FireCountMeans(from, end, period, 0);
    if n > 0 {
      FireCountMeans(from + period, end, period, n - 1);
      FireCountMeans(from, end, period, n);
      PointIs(from + period, period, n - 1);
      PointIs(from, period, n);
      assert n as real * period == (n - 1) as real * period + period;
    }
  }

  /** Exactly the boundaries before `now` are spent or lie before the emission. */
  ghost predicate Reached(history: seq<Item>, e: Item, offset: real, period: real, now: nat) {
    forall k: nat :: k < now <==> Spent(history, Boundary(offset, period, k)) || Boundary(offset, period, k) < e.start
  }

  lemma AllReached(history: seq<Item>, e: Item, offset: real, period: real, was: nat, now: nat)
    requires period > 0.0 && Free(history, offset, period, was) && was <= now &&
             Boundary(offset, period, now) >= e.start
    requires forall k: nat :: was <= k < now ==> Boundary(offset, period, k) < e.start
    ensures Reached(history, e, offset, period, now)
  {
    forall k: nat
      ensures k < now <==> Spent(history, Boundary(offset, period, k)) || Boundary(offset, period, k) < e.start
    {
      BoundaryOrder(offset, period, now, k);
    }
  }

  /** The first boundary left lies behind the emission: nothing is due. */
  lemma NotDue(history: seq<Item>, e: Item, offset: real, period: real, now: nat)
    requires period > 0.0 && Reached(history, e, offset, period, now)
    requires Boundary(offset, period, now) >= e.start && !Covers(e, Boundary(offset, period, now))
    ensures !Due(history, e, offset, period) && Free(history + [e], offset, period, now)
  {
    forall k: nat ensures k >= now ==> !Covers(e, Boundary(offset, period, k))
      ensures k < now <==> Spent(history + [e], Boundary(offset, period, k))
    {
      BoundaryOrder(offset, period, now, k);
      SpentSnoc(history, e, Boundary(offset, period, k));
    }
  }

  /** All boundaries in the emission are spent by it. */
  lemma Fired(history: seq<Item>, e: Item, offset: real, period: real, first: nat, now: nat)
    requires period > 0.0 && Reached(history, e, offset, period, first) && first <= now
    requires Boundary(offset, period, first) >= e.start && Boundary(offset, period, now) >= e.end
    requires forall k: nat :: first <= k < now ==> Boundary(offset, period, k) < e.end
    ensures Free(history + [e], offset, period, now)
  {
    forall k: nat ensures k < now <==> Spent(history + [e], Boundary(offset, period, k)) {
      SpentSnoc(history, e, Boundary(offset, period, k));
      BoundaryOrder(offset, period, k, now);
      BoundaryOrder(offset, period, k, first);
    }
  }
}
