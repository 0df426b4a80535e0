/** Where the streaming machine and the two batch machines agree about gaps:
    Python carries a gap as a flag on every emission of the flagged item, the
    native code as a change of segment number. */
module Agreement {
  import opened Stream
  import opened CppNodes
  import opened Gaps

  // --------------------------------------------------------------- HOLD

  /** How many emissions item k of a HOLD node's input causes. */
  function Fires(items: seq<Item>, period: real, k: nat): nat
    requires period > 0.0 && k < |items|
  {
    FireCount(FirstFire(HoldNext(items[..k], period), items[k], period), items[k].end, period)
  }

  function HoldParts(items: seq<Item>, period: real): (parts: seq<seq<Item>>)
    requires period > 0.0
  {
    seq(|items|, (k: nat) requires k < |items| =>
      HoldOutputs(items[k], FirstFire(HoldNext(items[..k], period), items[k], period), period))
  }

  lemma HoldPartsPrefix(items: seq<Item>, period: real, n: nat)
    requires period > 0.0 && n <= |items|
    ensures HoldParts(items, period)[..n] == HoldParts(items[..n], period)
  {
    forall k: nat | k < n ensures HoldParts(items, period)[k] == HoldParts(items[..n], period)[k] {
      assert items[..n][..k] == items[..k];
    }
  }

  lemma {:induction false} HoldIsFlat(items: seq<Item>, segments: seq<int>, period: real)
    requires period > 0.0 && |items| == |segments|
    ensures Flat(HoldParts(items, period)) == HoldRun(items, period)
    ensures FlatSegments(HoldParts(items, period), segments) == HoldSegments(items, segments, period)
    decreases |items|
  {
    if items != [] {
      HoldIsFlat(items[..|items| - 1], segments[..|items| - 1], period);
      HoldPartsPrefix(items, period, |items| - 1);
    }
  }

  /** An item behind a gap fires at its own start, as often as periods begin within it. */
  lemma FlaggedFires(items: seq<Item>, period: real, k: nat)
    requires period > 0.0 && k < |items| && items[k].overrun
    ensures Fires(items, period, k) == 0 <==> items[k].end <= items[k].start
    ensures Fires(items, period, k) <= 1 <==> items[k].end - items[k].start <= period
  {
    var item := items[k];
    FireCountMeans(item.start, item.end, period, 0);
    FireCountMeans(item.start, item.end, period, 1);
    assert Point(item.start, period, 1) == item.start + period;
  }

  /** No item behind a gap spans more than one period. And when it spans nothing, then
      nothing was emitted before it, or no item of its segment meets a fire time. */
  ghost predicate HoldLed(items: seq<Item>, period: real)
    requires period > 0.0
  {
    forall k :: 0 <= k < |items| && items[k].overrun ==>
      (items[k].end - items[k].start <= period &&
       (items[k].start < items[k].end || HoldRun(items[..k], period) == [] || HoldSilent(items, period, k)))
  }

  ghost predicate HoldSilent(items: seq<Item>, period: real, k: nat)
    requires period > 0.0 && k < |items|
  {
    forall j :: k < j < |items| && SameSegment(items, k, j) ==> Fires(items, period, j) == 0
  }

  lemma HoldLedAt(items: seq<Item>, period: real, k: nat)
    requires period > 0.0 && k < |items| && items[k].overrun
    ensures LedAt(items, HoldParts(items, period), k) <==>
            (items[k].end - items[k].start <= period &&
             (items[k].start < items[k].end || HoldRun(items[..k], period) == [] || HoldSilent(items, period, k)))
  {
    var parts := HoldParts(items, period);
    FlaggedFires(items, period, k);
    HoldPartsPrefix(items, period, k);
    HoldIsFlat(items[..k], seq(k, _ => 0), period);
    assert |parts[k]| == Fires(items, period, k);
    forall j | k < j < |items| ensures parts[j] == [] <==> Fires(items, period, j) == 0 {
      assert |parts[j]| == Fires(items, period, j);
    }
  }

  /** HOLD keeps gap flags and segments in agreement exactly under this condition on
      the items behind gaps: a longer one fires several flagged emissions within one
      native segment, an empty one leaves its segment without a flagged emission. */
  lemma HoldAgreesIff(items: seq<Item>, segments: seq<int>, period: real)
    requires period > 0.0 && Marks(items, segments) && Rising(segments)
    ensures Marks(HoldRun(items, period), HoldSegments(items, segments, period)) <==> HoldLed(items, period)
  {
    var parts := HoldParts(items, period);
    HoldIsFlat(items, segments, period);
    SpreadAgreesIff(items, segments, parts);
    forall k | 0 <= k < |items| && items[k].overrun
      ensures LedAt(items, parts, k) <==>
              (items[k].end - items[k].start <= period &&
               (items[k].start < items[k].end || HoldRun(items[..k], period) == [] || HoldSilent(items, period, k)))
    {
      HoldLedAt(items, period, k);
    }
    if HoldLed(items, period) {
      forall k | 0 <= k < |items| ensures LedAt(items, parts, k) { }
    }
    if Led(items, parts) {
      forall k | 0 <= k < |items| && items[k].overrun ensures LedAt(items, parts, k) { }
    }
  }

  // ------------------------------------------------------------- SAMPLE

  function SampleParts(items: seq<Item>, period: real): seq<seq<Item>>
    requires period > 0.0
  {
    seq(|items|, (k: nat) requires k < |items| => SampleOutputs(items[k], period))
  }

  lemma {:induction false} SampleIsFlat(items: seq<Item>, segments: seq<int>, period: real)
    requires period > 0.0 && |items| == |segments|
    ensures Flat(SampleParts(items, period)) == SampleRun(items, period)
    ensures FlatSegments(SampleParts(items, period), segments) == SampleSegments(items, segments, period)
    decreases |items|
  {
    if items != [] {
      SampleIsFlat(items[..|items| - 1], segments[..|items| - 1], period);
      assert SampleParts(items, period)[..|items| - 1] == SampleParts(items[..|items| - 1], period);
    }
  }

  /** An item behind a gap is kept; or nothing was kept before it, or nothing of its
      segment is kept. */
  ghost predicate SampleLed(items: seq<Item>, period: real)
    requires period > 0.0
  {
    forall k :: 0 <= k < |items| && items[k].overrun ==>
      (IsMultiple(items[k].start, period) || SampleRun(items[..k], period) == [] || SampleSilent(items, period, k))
  }

  ghost predicate SampleSilent(items: seq<Item>, period: real, k: nat)
    requires period > 0.0 && k < |items|
  {
    forall j :: k < j < |items| && SameSegment(items, k, j) ==> !IsMultiple(items[j].start, period)
  }

  lemma SampleLedAt(items: seq<Item>, period: real, k: nat)
    requires period > 0.0 && k < |items| && items[k].overrun
    ensures LedAt(items, SampleParts(items, period), k) <==>
            (IsMultiple(items[k].start, period) || SampleRun(items[..k], period) == [] ||
              SampleSilent(items, period, k))
  {
    SampleIsFlat(items[..k], seq(k, _ => 0), period);
    assert SampleParts(items, period)[..k] == SampleParts(items[..k], period);
  }

  /** SAMPLE keeps gap flags and segments in agreement exactly when it drops no item
      behind a gap whose segment it then keeps something of. */
  lemma SampleAgreesIff(items: seq<Item>, segments: seq<int>, period: real)
    requires period > 0.0 && Marks(items, segments) && Rising(segments)
    ensures Marks(SampleRun(items, period), SampleSegments(items, segments, period)) <==> SampleLed(items, period)
  {
    var parts := SampleParts(items, period);
    SampleIsFlat(items, segments, period);
    SpreadAgreesIff(items, segments, parts);
    forall k | 0 <= k < |items| && items[k].overrun
      ensures LedAt(items, parts, k) <==>
              (IsMultiple(items[k].start, period) || SampleRun(items[..k], period) == [] ||
                SampleSilent(items, period, k))
    {
      SampleLedAt(items, period, k);
    }
    if SampleLed(items, period) {
      forall k | 0 <= k < |items| ensures LedAt(items, parts, k) { }
    }
    if Led(items, parts) {
      forall k | 0 <= k < |items| && items[k].overrun ensures LedAt(items, parts, k) { }
    }
  }

  // ------------------------------------------------------------ in sequence

  lemma {:induction false} UpToRises(batch: seq<TickItem>, segment: int)
    requires UpTo(batch, segment)
    ensures Rising(Segments(batch)) && forall t :: t in batch ==> t.segment <= segment
    decreases |batch|
  {
    if batch != [] {
      var n := |batch| - 1;
      UpToRises(batch[..n], batch[n].segment);
      forall i, j | 0 <= i < j < |batch| ensures batch[i].segment <= batch[j].segment {
        assert batch[..n][i] == batch[i] && batch[i] in batch[..n];
        if j < n { assert Segments(batch[..n])[i] <= Segments(batch[..n])[j]; }
      }
    }
  }

  lemma BatchRises(batch: seq<TickItem>)
    requires ValidBatch(batch)
    ensures Rising(Segments(batch))
  {
    if batch != [] { UpToRises(batch, batch[|batch| - 1].segment); }
  }

  /** A RATE before a FRAME, natively: under that condition the frames of the held
      batch are the frames of the held stream, gap by gap. */
  method RunHoldThenFrame(input: seq<TickItem>, period: int, size: nat, hop: nat, ghost items: seq<Item>)
    returns (r: Result<seq<TickItem>>)
    requires ValidBatch(input) && Follows(items, input) && period > 0 && FitsI64(period) && size > 0 && hop > 0
    requires HoldLed(items, period as real)
    ensures r.Ok? <==> FiresFit(items, period as real)
    ensures r.Ok? ==> Follows(SegmentedFrames(HoldRun(items, period as real), size, hop), r.value)
  {
    var held := RunHoldNode(input, period, items);
    if held.Err? { return held; }
    BatchRises(input);
    HoldAgreesIff(items, Segments(input), period as real);
    r := RunFrameNode(held.value, size, hop, false, HoldRun(items, period as real));
  }

  lemma PairedFlags(a: Item, b: Item)
    requires b.overrun
    ensures SegmentedFrames([a, b], 2, 1) == []
  {
    assert SegmentEnd([a, b]) == 1 && [a, b][..1] == [a] && [a, b][1..] == [b];
    assert SegmentEnd([b]) == 1 && [b][..1] == [b] && [b][1..] == [];
    assert Frames([a], 2, 1) == [] && Frames([b], 2, 1) == [];
    assert SegmentedFrames([b], 2, 1) == [];
  }

  lemma HoldPair(a: Item, b: Item, period: real)
    requires period > 0.0
    ensures HoldNext([a], period) == Some(NextFire(None, a, period))
    ensures HoldRun([a], period) == HoldOutputs(a, a.start, period)
    ensures HoldRun([a, b], period) ==
            HoldRun([a], period) + HoldOutputs(b, FirstFire(HoldNext([a], period), b, period), period)
  {
    assert [a][..0] == [] && [a, b][..1] == [a];
    assert HoldRun([], period) == [] && HoldNext([], period) == None;
  }

  /** A flagged item of two periods, framed in pairs, yields no frame in Python and
      one frame natively. */
  lemma LongFlaggedItemDiffers()
    ensures var item := Item(Atom(0), 0.0, 2.0, OK, true);
            && !HoldLed([item], 1.0)
            && SegmentedFrames(HoldRun([item], 1.0), 2, 1) == []
            && HoldSegments([item], [0], 1.0) == [0, 0]
            && |Frames(HoldRun([item], 1.0), 2, 1)| == 1
  {
    var item := Item(Atom(0), 0.0, 2.0, OK, true);
    var out := HoldRun([item], 1.0);
    HoldPair(item, item, 1.0);
    assert FireCount(0.0, 2.0, 1.0) == 2;
    assert out == [Held(item, 0.0, 1.0, 0), Held(item, 0.0, 1.0, 1)];
    PairedFlags(out[0], out[1]);
    assert [item][0].overrun && !HoldLed([item], 1.0);
    assert [item][..0] == [] && HoldSegments([], [], 1.0) == [] && Repeat(0, 2) == [0, 0];
  }

  /** An empty flagged item fires nothing, and its segment begins without a flag: two
      items of one run in Python, of two segments natively. */
  lemma EmptyFlaggedItemDiffers()
    ensures var a, b := Item(Atom(0), 0.0, 1.0, OK, false), Item(Atom(1), 2.0, 2.0, OK, true);
            var items := [a, b, Item(Atom(2), 2.0, 3.0, OK, false)];
            && !HoldLed(items, 1.0)
            && |HoldRun(items, 1.0)| == 2 && !HoldRun(items, 1.0)[0].overrun && !HoldRun(items, 1.0)[1].overrun
            && HoldSegments(items, [0, 1, 1], 1.0) == [0, 1]
  {
    var a, b, c := Item(Atom(0), 0.0, 1.0, OK, false), Item(Atom(1), 2.0, 2.0, OK, true),
      Item(Atom(2), 2.0, 3.0, OK, false);
    var items := [a, b, c];
    HoldPair(a, b, 1.0);
    assert items[..2] == [a, b] && items[..1] == [a] && [a, b][..1] == [a] && [a][..0] == [];
    assert FireCount(0.0, 1.0, 1.0) == 1 && FireCount(2.0, 2.0, 1.0) == 0 && FireCount(2.0, 3.0, 1.0) == 1;
    assert HoldNext([a, b], 1.0) == Some(2.0) && FirstFire(Some(2.0), c, 1.0) == 2.0;
    assert HoldRun(items, 1.0) == HoldRun([a, b], 1.0) + HoldOutputs(c, 2.0, 1.0);
    assert [0, 1, 1][..2] == [0, 1] && [0, 1][..1] == [0] && [0][..0] == [];
    assert HoldSegments([a], [0], 1.0) == [] + Repeat(0, 1);
    assert HoldSegments([a, b], [0, 1], 1.0) == HoldSegments([a], [0], 1.0) + Repeat(1, 0);
    assert Marks(items, [0, 1, 1]);
    HoldAgreesIff(items, [0, 1, 1], 1.0);
    assert HoldSegments(items, [0, 1, 1], 1.0) == [0, 1];
  }

  /** SAMPLE drops the flagged item and keeps the next one of its segment: the gap is
      gone from the Python stream, and still there natively. */
  lemma DroppedFlagDiffers()
    ensures var a, b := Item(Atom(0), 0.0, 1.0, OK, false), Item(Atom(1), 1.0, 2.0, OK, true);
            var c := Item(Atom(2), 2.0, 3.0, OK, false);
            && !SampleLed([a, b, c], 2.0)
            && SampleRun([a, b, c], 2.0) == [a, c] && SampleSegments([a, b, c], [0, 1, 1], 2.0) == [0, 1]
  {
    var a, b, c := Item(Atom(0), 0.0, 1.0, OK, false), Item(Atom(1), 1.0, 2.0, OK, true),
      Item(Atom(2), 2.0, 3.0, OK, false);
    var items := [a, b, c];
    assert items[..2] == [a, b] && [a, b][..1] == [a] && [a][..0] == [];
    assert [0, 1, 1][..2] == [0, 1] && [0, 1][..1] == [0] && [0][..0] == [];
    assert 0.0 / 2.0 == 0.0 && 1.0 / 2.0 == 0.5 && 2.0 / 2.0 == 1.0;
    assert IsMultiple(0.0, 2.0) && !IsMultiple(1.0, 2.0) && IsMultiple(2.0, 2.0);
    assert SampleSegments([a], [0], 2.0) == [] + Repeat(0, 1);
    assert SampleSegments([a, b], [0, 1], 2.0) == SampleSegments([a], [0], 2.0) + Repeat(1, 0);
    assert Marks(items, [0, 1, 1]);
    SampleAgreesIff(items, [0, 1, 1], 2.0);
    assert SampleRun([a], 2.0) == [a] && SampleRun([a, b], 2.0) == [a];
    assert SampleRun(items, 2.0) == SampleRun(items[..2], 2.0) + [c];
    assert SampleSegments(items, [0, 1, 1], 2.0) == SampleSegments(items[..2], [0, 1, 1][..2], 2.0) + Repeat(1, 1);
  }

  // ------------------------------------------------- the fixed native session

  /** The closed form of the native session for a fixed plan: the number of frames
      is computed first, frame j starts at j * hop. */
  method FrameByIndex(items: seq<Item>, size: nat, hop: nat) returns (output: seq<Item>)
    requires size > 0 && hop > 0
    ensures output == Frames(items, size, hop)
  {
    var count := if |items| < size then 0 else 1 + (|items| - size) / hop;
    output := [];
    for index := 0 to count
      invariant output == Frames(items, size, hop)[..index]
    {
      var from := index * hop;
      OffsetIs(index, hop);
      FrameCounted(|items|, size, hop, index);
      output := output + [MakeFrame(items[from..from + size])];
    }
  }
}
