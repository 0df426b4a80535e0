/** Stream semantics of RATE and FRAME over exact logical time.

    Times are rationals in the program; here they are reals, on which the
    program's four operations are exact as well. One item stands for one
    Emission; `overrun` says that it carries an INPUT_OVERRUN diagnostic,
    that is, that a realtime gap lies directly before it. */
module Stream {

  datatype Option<+T> = None | Some(value: T)

  datatype Status = OK | DEGRADED | INVALID

  function Rank(s: Status): nat {
    match s case OK => 0 case DEGRADED => 1 case INVALID => 2
  }

  function Worse(a: Status, b: Status): Status {
    if Rank(a) < Rank(b) then b else a
  }

  /** Payloads are opaque. A frame is the tuple of its items' payloads; the
      payload of a padded slot is Python's None. */
  datatype Value = Atom(id: int) | Tuple(items: seq<Value>) | Padding

  datatype Item = Item(value: Value, start: real, end: real, status: Status, overrun: bool) {
    ghost predicate Valid() { start <= end }
  }

  lemma ConcatAssociates<T>(a: seq<T>, b: seq<T>, c: seq<T>)
    ensures (a + b) + c == a + (b + c)
  {
  }

  lemma Member<K>(keys: set<K>) returns (k: K)
    requires keys != {}
    ensures k in keys
  {
    k :| k in keys;
  }

  // ------------------------------------------------------------------ RATE

  function Ceil(x: real): int { -((-x).Floor) }

  datatype RatePolicy = HOLD | SAMPLE

  /** Point k of the grid fire, fire + period, fire + 2 * period, ... */
  function Point(fire: real, period: real, k: nat): real {
    if k == 0 then fire else Point(fire, period, k - 1) + period
  }

  lemma {:induction false} PointIs(fire: real, period: real, k: nat)
    ensures Point(fire, period, k) == fire + k as real * period
  {
    if k > 0 { PointIs(fire, period, k - 1); }
  }

  lemma {:induction false} PointsGrow(fire: real, period: real, k: nat)
    requires period > 0.0
    ensures Point(fire, period, k) >= fire
  {
    if k > 0 { PointsGrow(fire, period, k - 1); }
  }

  /** Point k of the grid that starts at point m is point m + k. */
  lemma {:induction false} PointAdd(fire: real, period: real, m: nat, k: nat)
    ensures Point(Point(fire, period, m), period, k) == Point(fire, period, m + k)
  {
    if k > 0 { PointAdd(fire, period, m, k - 1); }
  }

  /** How many points of the grid lie before end. */
  function FireCount(fire: real, end: real, period: real): nat
    requires period > 0.0
  {
    if fire < end then
      assert (end - fire) / period > 0.0;
      Ceil((end - fire) / period)
    else 0
  }

  /** Point k lies before end exactly when it is counted. */
  lemma FireCountMeans(fire: real, end: real, period: real, k: nat)
    requires period > 0.0
    ensures k < FireCount(fire, end, period) <==> Point(fire, period, k) < end
  {
    PointIs(fire, period, k);
    var x := (end - fire) / period;
    assert x * period == end - fire;
    if (k as real) < x {
      assert k as real * period < x * period;
    } else {
      assert k as real * period >= x * period;
    }
    if fire >= end { assert k as real * period >= 0.0; }
  }

  /** The first point of the grid next, next + period, ... that is not before start. */
  function Align(next: real, start: real, period: real): real
    requires period > 0.0
  {
    Point(next, period, FireCount(next, start, period))
  }

  function Held(item: Item, fire: real, period: real, k: nat): Item {
    item.(start := Point(fire, period, k), end := Point(fire, period, k) + period)
  }

  function HoldOutputs(item: Item, fire: real, period: real): (out: seq<Item>)
    requires period > 0.0
  {
    seq(FireCount(fire, item.end, period), (k: nat) => Held(item, fire, period, k))
  }

  /** The grid point from which `item` starts to fire, given the pending one. */
  function FirstFire(next: Option<real>, item: Item, period: real): real
    requires period > 0.0
  {
    if next.None? || item.overrun then item.start else Align(next.value, item.start, period)
  }

  function NextFire(next: Option<real>, item: Item, period: real): real
    requires period > 0.0
  {
    var fire := FirstFire(next, item, period);
    Point(fire, period, FireCount(fire, item.end, period))
  }

  function IsMultiple(t: real, period: real): bool
    requires period > 0.0
  {
    (t / period).Floor as real == t / period
  }

  function SampleOutputs(item: Item, period: real): seq<Item>
    requires period > 0.0
  {
    if IsMultiple(item.start, period) then [item] else []
  }

  /** The pending fire time of a HOLD node that has read `items`. */
  function HoldNext(items: seq<Item>, period: real): Option<real>
    requires period > 0.0
    decreases |items|
  {
    if items == [] then None
    else Some(NextFire(HoldNext(items[..|items| - 1], period), items[|items| - 1], period))
  }

  /** Everything a HOLD node emits for `items`. */
  function HoldRun(items: seq<Item>, period: real): seq<Item>
    requires period > 0.0
    decreases |items|
  {
    if items == [] then []
    else
      var before, last := items[..|items| - 1], items[|items| - 1];
      HoldRun(before, period) + HoldOutputs(last, FirstFire(HoldNext(before, period), last, period), period)
  }

  /** Emission k of a held item: its payload, status and flag, one period from point k on. */
  lemma HeldContents(item: Item, fire: real, period: real, k: nat)
    requires period > 0.0 && k < |HoldOutputs(item, fire, period)|
    ensures var out := HoldOutputs(item, fire, period)[k];
            && out.value == item.value && out.status == item.status && out.overrun == item.overrun
            && out.start == fire + k as real * period < item.end && out.end == out.start + period
  {
    PointIs(fire, period, k);
    FireCountMeans(fire, item.end, period, k);
  }

  lemma FirstFireIsDue(next: Option<real>, item: Item, period: real)
    requires period > 0.0
    ensures FirstFire(next, item, period) >= item.start
  {
    if next.Some? {
      FireCountMeans(next.value, item.start, period, FireCount(next.value, item.start, period));
    }
  }

  /** Whatever a HOLD node emits is an item that it has read, payload, status and flag, at a
      time that lies within this item, for one period. */
  lemma {:induction false} HoldEmitsItems(items: seq<Item>, period: real, k: nat) returns (i: nat)
    requires period > 0.0 && k < |HoldRun(items, period)|
    ensures i < |items| && HoldRun(items, period)[k].value == items[i].value
    ensures HoldRun(items, period)[k].status == items[i].status && HoldRun(items, period)[k].overrun == items[i].overrun
    ensures items[i].start <= HoldRun(items, period)[k].start < items[i].end
    ensures HoldRun(items, period)[k].end == HoldRun(items, period)[k].start + period
    decreases |items|
  {
    var before, last := items[..|items| - 1], items[|items| - 1];
    var n := |HoldRun(before, period)|;
    if k < n {
      i := HoldEmitsItems(before, period, k);
    } else {
      var fire := FirstFire(HoldNext(before, period), last, period);
      HeldContents(last, fire, period, k - n);
      FirstFireIsDue(HoldNext(before, period), last, period);
      assert (k - n) as real * period >= 0.0;
      i := |items| - 1;
    }
  }

  /** Everything a SAMPLE node emits for `items`. */
  function SampleRun(items: seq<Item>, period: real): seq<Item>
    requires period > 0.0
    decreases |items|
  {
    if items == [] then []
    else SampleRun(items[..|items| - 1], period) + SampleOutputs(items[|items| - 1], period)
  }

  // ----------------------------------------------------------------- FRAME

  function WorstStatus(items: seq<Item>): Status
    decreases |items|
  {
    if items == [] then OK else Worse(WorstStatus(items[..|items| - 1]), items[|items| - 1].status)
  }

  /** The combined status is INVALID when some item is, and OK when all are. */
  lemma {:induction false} WorstMeans(items: seq<Item>)
    ensures WorstStatus(items) == INVALID <==> exists i :: 0 <= i < |items| && items[i].status == INVALID
    ensures WorstStatus(items) == OK <==> forall i :: 0 <= i < |items| ==> items[i].status == OK
    decreases |items|
  {
    if items != [] {
      var before, n := items[..|items| - 1], |items| - 1;
      WorstMeans(before);
      assert forall i :: 0 <= i < n ==> before[i] == items[i];
      if i :| 0 <= i < |before| && before[i].status == INVALID { assert items[i].status == INVALID; }
    }
  }

  function Values(items: seq<Item>): seq<Value> {
    seq(|items|, (i: nat) requires i < |items| => items[i].value)
  }

  predicate AnyOverrun(items: seq<Item>) {
    exists i :: 0 <= i < |items| && items[i].overrun
  }

  function MakeFrame(items: seq<Item>): Item
    requires |items| > 0
  {
    Item(Tuple(Values(items)), items[0].start, items[|items| - 1].end,
         WorstStatus(items), AnyOverrun(items))
  }

  /** Where frame j starts: hop, taken j times. */
  function Offset(j: nat, hop: nat): nat {
    if j == 0 then 0 else Offset(j - 1, hop) + hop
  }

  lemma {:induction false} OffsetIs(j: nat, hop: nat)
    ensures Offset(j, hop) == j * hop
  {
    if j > 0 {
      OffsetIs(j - 1, hop);
      assert j * hop == (j - 1) * hop + hop;
    }
  }

  lemma {:induction false} OffsetGrows(j: nat, k: nat, hop: nat)
    requires j <= k
    ensures Offset(j, hop) <= Offset(k, hop)
  {
    if j < k { OffsetGrows(j, k - 1, hop); }
  }

  function FrameCount(n: nat, size: nat, hop: nat): nat
    requires size > 0 && hop > 0
  {
    if n < size then 0 else 1 + (n - size) / hop
  }

  /** Frame j exists exactly when size items remain from offset j * hop. */
  lemma FrameCounted(n: nat, size: nat, hop: nat, j: nat)
    requires size > 0 && hop > 0
    ensures j < FrameCount(n, size, hop) <==> Offset(j, hop) + size <= n
  {
    OffsetIs(j, hop);
    if n >= size {
      var q := (n - size) / hop;
      assert n - size == q * hop + (n - size) % hop;
      assert (q + 1) * hop == q * hop + hop;
      if j <= q { Multiply(j, q, hop); } else { Multiply(q + 1, j, hop); }
    }
  }

  lemma Multiply(a: nat, b: nat, c: nat)
    requires a <= b
    ensures a * c <= b * c
  {
  }

  /** Frame j of a gap-free run. */
  function FrameAt(items: seq<Item>, size: nat, hop: nat, j: nat): Item
    requires size > 0 && Offset(j, hop) + size <= |items|
  {
    MakeFrame(items[Offset(j, hop)..Offset(j, hop) + size])
  }

  /** All frames of a gap-free run: one every hop items, as long as size items remain. */
  function Frames(items: seq<Item>, size: nat, hop: nat): seq<Item>
    requires size > 0 && hop > 0
  {
    seq(FrameCount(|items|, size, hop), (j: nat) requires j < FrameCount(|items|, size, hop) =>
      (FrameCounted(|items|, size, hop, j); FrameAt(items, size, hop, j)))
  }

  /** Frame j: the payloads of the items j * hop, ..., j * hop + size - 1 in their order,
      from the start of the first to the end of the last, with the worst status among them
      and the flag of any of them. */
  lemma FrameContents(items: seq<Item>, size: nat, hop: nat, j: nat)
    requires size > 0 && hop > 0 && j < FrameCount(|items|, size, hop)
    ensures j * hop + size <= |items| && |Frames(items, size, hop)| == FrameCount(|items|, size, hop)
    ensures var at, frame := j * hop, Frames(items, size, hop)[j];
            && frame.value == Tuple(seq(size, (i: nat) requires i < size => items[at + i].value))
            && frame.start == items[at].start && frame.end == items[at + size - 1].end
            && (frame.status == INVALID <==> exists i :: at <= i < at + size && items[i].status == INVALID)
            && (frame.status == OK <==> forall i :: at <= i < at + size ==> items[i].status == OK)
            && (frame.overrun <==> exists i :: at <= i < at + size && items[i].overrun)
  {
    OffsetIs(j, hop);
    FrameCounted(|items|, size, hop, j);
    var at := j * hop;
    var taken, frame := items[at..at + size], Frames(items, size, hop)[j];
    assert frame == MakeFrame(taken);
    assert Values(taken) == seq(size, (i: nat) requires i < size => items[at + i].value);
    WorstMeans(taken);
    WindowMeans(items, at, size);
  }

  /** What holds somewhere in a window, in terms of the whole stream. */
  lemma WindowMeans(items: seq<Item>, at: nat, size: nat)
    requires at + size <= |items|
    ensures var taken := items[at..at + size];
            && ((exists i :: 0 <= i < size && taken[i].status == INVALID) <==>
                exists i :: at <= i < at + size && items[i].status == INVALID)
            && ((forall i :: 0 <= i < size ==> taken[i].status == OK) <==>
                forall i :: at <= i < at + size ==> items[i].status == OK)
            && (AnyOverrun(taken) <==> exists i :: at <= i < at + size && items[i].overrun)
  {
    var taken := items[at..at + size];
    assert forall i :: at <= i < at + size ==> items[i] == taken[i - at];
  }

  /** The length of the first segment: a segment ends before the next item that follows a gap. */
  function SegmentEnd(items: seq<Item>): (e: nat)
    requires |items| > 0
    ensures 1 <= e <= |items|
    ensures forall i :: 1 <= i < e ==> !items[i].overrun
    ensures e < |items| ==> items[e].overrun
    decreases |items|
  {
    if |items| == 1 || items[1].overrun then 1 else 1 + SegmentEnd(items[1..])
  }

  /** Everything an unpadded FRAME node emits: the frames of each segment in turn. */
  function SegmentedFrames(items: seq<Item>, size: nat, hop: nat): seq<Item>
    requires size > 0 && hop > 0
    decreases |items|
  {
    if items == [] then []
    else Frames(items[..SegmentEnd(items)], size, hop) + SegmentedFrames(items[SegmentEnd(items)..], size, hop)
  }
}
