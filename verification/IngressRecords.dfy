/** The records of the realtime ingress as values: which published items a record
    stands for, and what recording a gap does to them. */
module IngressRecords {
  import opened Stream

  datatype OverflowPolicy = DROP_OLDEST | DROP_NEWEST

  datatype Record =
    | Emitted(item: Item)
    | Gap(start: real, end: real, droppedCount: nat, totalDroppedCount: nat)

  // -------------------------------------------------- what records stand for

  /** The pending items, in order. */
  function Items(records: seq<Record>): seq<Item>
    decreases |records|
  {
    if records == [] then []
    else Items(records[..|records| - 1]) + if records[|records| - 1].Emitted? then [records[|records| - 1].item] else []
  }

  /** How many items the markers report as dropped. */
  function Drops(records: seq<Record>): nat
    decreases |records|
  {
    if records == [] then 0
    else
      var last := records[|records| - 1];
      Drops(records[..|records| - 1]) + if last.Gap? then last.droppedCount else 0
  }

  function Flatten(parts: seq<seq<Item>>): seq<Item>
    decreases |parts|
  {
    if parts == [] then [] else Flatten(parts[..|parts| - 1]) + parts[|parts| - 1]
  }

  ghost predicate Contiguous(items: seq<Item>) {
    forall i :: 0 < i < |items| ==> items[i - 1].end == items[i].start
  }

  /** A record stands for the items `part`: itself, or the contiguous items it
      counts and whose interval it covers exactly. */
  ghost predicate StandsFor(record: Record, part: seq<Item>) {
    match record
    case Emitted(item) => part == [item]
    case Gap(start, end, dropped, _) =>
      0 < dropped == |part| && start == part[0].start && end == part[|part| - 1].end && Contiguous(part)
  }

  ghost predicate StandFor(records: seq<Record>, parts: seq<seq<Item>>) {
    |records| == |parts| && forall i :: 0 <= i < |records| ==> StandsFor(records[i], parts[i])
  }

  lemma {:induction false} ItemsConcat(a: seq<Record>, b: seq<Record>)
    ensures Items(a + b) == Items(a) + Items(b) && Drops(a + b) == Drops(a) + Drops(b)
    decreases |b|
  {
    if b == [] {
      assert a + b == a;
    } else {
      assert (a + b)[..|a + b| - 1] == a + b[..|b| - 1];
      ItemsConcat(a, b[..|b| - 1]);
    }
  }

  lemma {:induction false} FlattenConcat(a: seq<seq<Item>>, b: seq<seq<Item>>)
    ensures Flatten(a + b) == Flatten(a) + Flatten(b)
    decreases |b|
  {
    if b == [] {
      assert a + b == a;
    } else {
      assert (a + b)[..|a + b| - 1] == a + b[..|b| - 1];
      FlattenConcat(a, b[..|b| - 1]);
      ConcatAssociates(Flatten(a), Flatten(b[..|b| - 1]), b[|b| - 1]);
    }
  }

  /** Lists are cut as front + ([middle] + back). */
  function Cut<T>(front: seq<T>, middle: T, back: seq<T>): seq<T> { front + ([middle] + back) }

  lemma CutAt<T>(s: seq<T>, index: nat)
    requires index < |s|
    ensures s == Cut(s[..index], s[index], s[index + 1..])
  {
  }

  lemma CutItems(a: seq<Record>, r: Record, b: seq<Record>)
    ensures Items(Cut(a, r, b)) == Items(a) + (Items([r]) + Items(b))
    ensures Drops(Cut(a, r, b)) == Drops(a) + Drops([r]) + Drops(b)
  {
    ItemsConcat(a, [r] + b);
    ItemsConcat([r], b);
  }

  lemma CutFlatten(a: seq<seq<Item>>, p: seq<Item>, b: seq<seq<Item>>)
    ensures Flatten(Cut(a, p, b)) == Flatten(a) + (p + Flatten(b))
  {
    FlattenConcat(a, [p] + b);
    FlattenConcat([p], b);
  }

  lemma CutStands(ra: seq<Record>, r: Record, rb: seq<Record>, pa: seq<seq<Item>>, p: seq<Item>, pb: seq<seq<Item>>)
    requires StandFor(ra, pa) && StandsFor(r, p) && StandFor(rb, pb)
    ensures StandFor(Cut(ra, r, rb), Cut(pa, p, pb))
  {
  }

  lemma OneRecord(r: Record)
    ensures Items([r]) == (if r.Emitted? then [r.item] else []) && Drops([r]) == (if r.Gap? then r.droppedCount else 0)
  {
    assert [r][..0] == [];
    assert Items([]) + [] == [];
  }

  lemma {:induction false} OnlyGaps(records: seq<Record>)
    requires forall i :: 0 <= i < |records| ==> records[i].Gap?
    ensures Items(records) == []
    decreases |records|
  {
    if records != [] { OnlyGaps(records[..|records| - 1]); }
  }

  lemma ContiguousPrefix(a: seq<Item>, b: seq<Item>)
    requires Contiguous(a + b)
    ensures Contiguous(a)
  {
    forall i | 0 < i < |a| ensures a[i - 1].end == a[i].start {
      assert (a + b)[i - 1] == a[i - 1] && (a + b)[i] == a[i];
    }
  }

  lemma ContiguousSeam(a: seq<Item>, b: seq<Item>)
    requires Contiguous(a + b) && a != [] && b != []
    ensures a[|a| - 1].end == b[0].start
  {
    assert (a + b)[|a| - 1] == a[|a| - 1] && (a + b)[|a|] == b[0];
  }

  // --------------------------------------------------------- _record_gap

  predicate Coalesces(records: seq<Record>, index: nat, item: Item)
    requires index <= |records|
  {
    index > 0 && records[index - 1].Gap? && records[index - 1].end == item.start
  }

  function Extended(gap: Record, item: Item, total: nat): Record
    requires gap.Gap?
  {
    Gap(gap.start, item.end, gap.droppedCount + 1, total)
  }

  /** A marker for `item` before position `index`, merged with an adjacent one. */
  function WithGap(records: seq<Record>, index: nat, item: Item, total: nat): seq<Record>
    requires index <= |records|
  {
    if Coalesces(records, index, item) then
      Cut(records[..index - 1], Extended(records[index - 1], item, total), records[index..])
    else Cut(records[..index], Gap(item.start, item.end, 1, total), records[index..])
  }

  ghost function WithLoss(records: seq<Record>, parts: seq<seq<Item>>, index: nat, item: Item): seq<seq<Item>>
    requires index <= |records| == |parts|
  {
    if Coalesces(records, index, item) then Cut(parts[..index - 1], parts[index - 1] + [item], parts[index..])
    else Cut(parts[..index], [item], parts[index..])
  }

  lemma ExtendedStands(gap: Record, part: seq<Item>, item: Item, total: nat)
    requires StandsFor(gap, part) && gap.Gap? && gap.end == item.start
    ensures StandsFor(Extended(gap, item, total), part + [item])
  {
  }

  /** A recorded gap stands for the dropped item and for what it stood for before. */
  lemma GapStands(records: seq<Record>, parts: seq<seq<Item>>, index: nat, item: Item, total: nat)
    requires StandFor(records, parts) && index <= |records|
    ensures StandFor(WithGap(records, index, item, total), WithLoss(records, parts, index, item))
  {
    if Coalesces(records, index, item) {
      assert StandsFor(records[index - 1], parts[index - 1]);
      ExtendedStands(records[index - 1], parts[index - 1], item, total);
      CutStands(records[..index - 1], Extended(records[index - 1], item, total), records[index..],
                parts[..index - 1], parts[index - 1] + [item], parts[index..]);
    } else {
      CutStands(records[..index], Gap(item.start, item.end, 1, total), records[index..],
                parts[..index], [item], parts[index..]);
    }
  }

  lemma Regroup<T>(a: seq<T>, b: seq<T>, c: seq<T>, d: seq<T>)
    ensures a + ((b + c) + d) == (a + b) + (c + d)
  {
  }

  /** The dropped item takes its place in the flow the records stand for. */
  lemma GapInPlace(records: seq<Record>, parts: seq<seq<Item>>, index: nat, item: Item)
    requires index <= |records| == |parts|
    ensures Flatten(WithLoss(records, parts, index, item)) ==
            Flatten(parts[..index]) + ([item] + Flatten(parts[index..]))
  {
    if Coalesces(records, index, item) {
      var front, p, back := parts[..index - 1], parts[index - 1], parts[index..];
      CutFlatten(front, p + [item], back);
      Regroup(Flatten(front), p, [item], Flatten(back));
      assert parts[..index] == front + [p];
      FlattenConcat(front, [p]);
    } else {
      CutFlatten(parts[..index], [item], parts[index..]);
    }
  }

  lemma GapCounts(records: seq<Record>, index: nat, item: Item, total: nat)
    requires index <= |records|
    ensures Items(WithGap(records, index, item, total)) == Items(records[..index]) + Items(records[index..])
    ensures Drops(WithGap(records, index, item, total)) == Drops(records[..index]) + 1 + Drops(records[index..])
  {
    if Coalesces(records, index, item) {
      var front, gap, back := records[..index - 1], records[index - 1], records[index..];
      var more := Extended(gap, item, total);
      CutItems(front, more, back);
      OneRecord(more);
      OneRecord(gap);
      assert records[..index] == front + [gap];
      ItemsConcat(front, [gap]);
      assert Items(front) + [] == Items(front) && [] + Items(back) == Items(back);
    } else {
      CutItems(records[..index], Gap(item.start, item.end, 1, total), records[index..]);
      OneRecord(Gap(item.start, item.end, 1, total));
      assert [] + Items(records[index..]) == Items(records[index..]);
    }
  }

  // ------------------------------------------------ what the ingress maintains

  /** Nothing is lost silently: what was handed out, what the records stand for and
      what a cancel discarded are together exactly what was published, in order. */
  ghost predicate Explained(
      records: seq<Record>, parts: seq<seq<Item>>, published: seq<Item>, consumed: seq<Item>, discarded: seq<Item>) {
    StandFor(records, parts) && published == (consumed + Flatten(parts)) + discarded
  }

  /** Under DROP_OLDEST every marker lies before every pending item. */
  ghost predicate MarkersFirst(records: seq<Record>) {
    forall i, j :: 0 <= i < j < |records| && records[i].Emitted? ==> records[j].Emitted?
  }

  ghost predicate NoAdjacentGaps(records: seq<Record>) {
    forall i :: 0 < i < |records| ==> !(records[i - 1].Gap? && records[i].Gap?)
  }

  ghost predicate Arranged(records: seq<Record>, published: seq<Item>, policy: OverflowPolicy) {
    && (policy == DROP_OLDEST ==> MarkersFirst(records))
    && (Contiguous(published) ==> NoAdjacentGaps(records))
  }

  /** Each marker reports the running total of drops up to and including itself. */
  ghost predicate Running(before: nat, records: seq<Record>)
    decreases |records|
  {
    records == [] || var last := records[|records| - 1];
    Running(before, records[..|records| - 1]) && (last.Gap? ==> last.totalDroppedCount == before + Drops(records))
  }

  lemma {:induction false} RunningConcat(before: nat, a: seq<Record>, b: seq<Record>)
    ensures Running(before, a + b) <==> Running(before, a) && Running(before + Drops(a), b)
    decreases |b|
  {
    if b == [] {
      assert a + b == a;
    } else {
      assert (a + b)[..|a + b| - 1] == a + b[..|b| - 1];
      RunningConcat(before, a, b[..|b| - 1]);
      ItemsConcat(a, b);
    }
  }

  lemma RunningOne(before: nat, r: Record)
    ensures Running(before, [r]) <==> (r.Gap? ==> r.totalDroppedCount == before + r.droppedCount)
  {
    OneRecord(r);
    assert [r][..0] == [];
  }

  lemma {:induction false} OnlyItems(before: nat, records: seq<Record>)
    requires forall i :: 0 <= i < |records| ==> records[i].Emitted?
    ensures Drops(records) == 0 && Running(before, records)
    decreases |records|
  {
    if records != [] { OnlyItems(before, records[..|records| - 1]); }
  }

  lemma RunningCut(before: nat, a: seq<Record>, r: Record, b: seq<Record>)
    requires Running(before, a) && (r.Gap? ==> r.totalDroppedCount == before + Drops(a) + r.droppedCount)
    requires forall i :: 0 <= i < |b| ==> b[i].Emitted?
    ensures Running(before, Cut(a, r, b))
  {
    OneRecord(r);
    RunningOne(before + Drops(a), r);
    OnlyItems(before + Drops(a) + Drops([r]), b);
    RunningConcat(before + Drops(a), [r], b);
    RunningConcat(before, a, [r] + b);
  }

  /** A marker recorded behind all markers reports the new total. */
  lemma RunningGap(before: nat, records: seq<Record>, index: nat, item: Item)
    requires index <= |records| && Running(before, records[..index])
    requires forall i :: index <= i < |records| ==> records[i].Emitted?
    ensures Running(before, WithGap(records, index, item, before + Drops(records[..index]) + 1))
  {
    var total := before + Drops(records[..index]) + 1;
    if Coalesces(records, index, item) {
      var front, gap := records[..index - 1], records[index - 1];
      assert records[..index] == front + [gap];
      RunningConcat(before, front, [gap]);
      ItemsConcat(front, [gap]);
      OneRecord(gap);
      RunningCut(before, front, Extended(gap, item, total), records[index..]);
    } else {
      RunningCut(before, records[..index], Gap(item.start, item.end, 1, total), records[index..]);
    }
  }

  lemma NewestRunning(before: nat, records: seq<Record>, item: Item)
    requires Running(before, records)
    ensures Running(before, WithGap(records, |records|, item, before + Drops(records) + 1))
  {
    assert records[..|records|] == records;
    RunningGap(before, records, |records|, item);
  }

  lemma OldestRunning(before: nat, records: seq<Record>, k: nat, item: Item)
    requires OldestAt(records, k, item) && MarkersFirst(records) && Running(before, records)
    ensures Running(before, WithGap(Without(records, k), k, item, before + Drops(records) + 1))
  {
    OldestTail(records, k, item);
    RunningPrefix(before, records, k);
    RunningGap(before, Without(records, k), k, item);
  }

  lemma RunningPrefix(before: nat, records: seq<Record>, k: nat)
    requires k < |records| && Running(before, records)
    ensures Running(before, records[..k])
  {
    CutAt(records, k);
    RunningConcat(before, records[..k], [records[k]] + records[k + 1..]);
  }

  lemma OldestTail(records: seq<Record>, k: nat, item: Item)
    requires OldestAt(records, k, item) && MarkersFirst(records)
    ensures forall i :: k < i < |records| ==> records[i].Emitted?
    ensures Drops(records) == Drops(records[..k])
  {
    forall j | k < j < |records| ensures records[j].Emitted? { assert records[k].Emitted?; }
    CutAt(records, k);
    CutItems(records[..k], records[k], records[k + 1..]);
    OneRecord(records[k]);
    OnlyItems(0, records[k + 1..]);
  }

  lemma RunningTail(before: nat, records: seq<Record>)
    requires records != [] && Running(before, records)
    ensures Running(before + Drops([records[0]]), records[1..])
  {
    assert records == [records[0]] + records[1..];
    RunningConcat(before, [records[0]], records[1..]);
  }

  lemma RunningAppend(before: nat, records: seq<Record>, item: Item)
    requires Running(before, records)
    ensures Running(before, records + [Emitted(item)])
  {
    RunningConcat(before, records, [Emitted(item)]);
    RunningOne(before + Drops(records), Emitted(item));
  }

  /** One more published item, and parts that stand for one more item. */
  lemma OneMoreExplained(
      records: seq<Record>, parts: seq<seq<Item>>, flat: seq<Item>, published: seq<Item>, consumed: seq<Item>,
      item: Item)
    requires StandFor(records, parts) && Flatten(parts) == flat + [item] && published == (consumed + flat) + []
    ensures Explained(records, parts, published + [item], consumed, [])
  {
    ConcatAssociates(consumed, flat, [item]);
  }

  lemma AppendExplained(
      records: seq<Record>, parts: seq<seq<Item>>, published: seq<Item>, consumed: seq<Item>, item: Item)
    requires Explained(records, parts, published, consumed, [])
    ensures Explained(records + [Emitted(item)], parts + [[item]], published + [item], consumed, [])
  {
    FlattenConcat(parts, [[item]]);
    OneMoreExplained(records + [Emitted(item)], parts + [[item]], Flatten(parts), published, consumed, item);
  }

  lemma AppendArranged(records: seq<Record>, published: seq<Item>, policy: OverflowPolicy, item: Item)
    requires Arranged(records, published, policy)
    ensures Arranged(records + [Emitted(item)], published + [item], policy)
  {
    if Contiguous(published + [item]) { ContiguousPrefix(published, [item]); }
  }

  /** In a contiguous stream the item behind the records starts where the last one ends. */
  lemma EndsAt(records: seq<Record>, parts: seq<seq<Item>>, before: seq<Item>, item: Item)
    requires StandFor(records, parts) && |records| > 0 && records[|records| - 1].Gap?
    requires Contiguous((before + Flatten(parts)) + [item])
    ensures Coalesces(records, |records|, item)
  {
    var last := |records| - 1;
    assert StandsFor(records[last], parts[last]);
    ConcatAssociates(before, Flatten(parts[..last]), parts[last]);
    ContiguousSeam((before + Flatten(parts[..last])) + parts[last], [item]);
  }

  lemma LossAtEnd(records: seq<Record>, parts: seq<seq<Item>>, item: Item)
    requires |records| == |parts|
    ensures Flatten(WithLoss(records, parts, |records|, item)) == Flatten(parts) + [item]
  {
    GapInPlace(records, parts, |records|, item);
    assert parts[..|parts|] == parts && parts[|parts|..] == [] && [item] + Flatten([]) == [item];
  }

  lemma NewestExplained(
      records: seq<Record>, parts: seq<seq<Item>>, published: seq<Item>, consumed: seq<Item>, item: Item, total: nat)
    requires Explained(records, parts, published, consumed, [])
    ensures Explained(WithGap(records, |records|, item, total), WithLoss(records, parts, |records|, item),
                      published + [item], consumed, [])
  {
    GapStands(records, parts, |records|, item, total);
    LossAtEnd(records, parts, item);
    OneMoreExplained(WithGap(records, |records|, item, total), WithLoss(records, parts, |records|, item),
      Flatten(parts), published, consumed, item);
  }

  lemma NewestArranged(
      records: seq<Record>, parts: seq<seq<Item>>, published: seq<Item>, consumed: seq<Item>, item: Item, total: nat)
    requires Explained(records, parts, published, consumed, []) && Arranged(records, published, DROP_NEWEST)
    ensures Arranged(WithGap(records, |records|, item, total), published + [item], DROP_NEWEST)
  {
    if Contiguous(published + [item]) {
      ContiguousPrefix(published, [item]);
      assert published == consumed + Flatten(parts);
      if records != [] && records[|records| - 1].Gap? { EndsAt(records, parts, consumed, item); }
    }
  }

  lemma NewestCounts(records: seq<Record>, item: Item, total: nat)
    ensures Items(WithGap(records, |records|, item, total)) == Items(records)
    ensures Drops(WithGap(records, |records|, item, total)) == Drops(records) + 1
  {
    GapCounts(records, |records|, item, total);
    assert records[..|records|] == records && records[|records|..] == [];
    assert Items(records) + [] == Items(records);
  }

  /** A marker for `item` behind all records. */
  method AppendGap(
      records: seq<Record>, item: Item, ghost before: nat, total: nat, ghost parts: seq<seq<Item>>,
      ghost published: seq<Item>, ghost consumed: seq<Item>)
    returns (after: seq<Record>, ghost loss: seq<seq<Item>>)
    requires Explained(records, parts, published, consumed, []) && Arranged(records, published, DROP_NEWEST)
    requires Running(before, records) && total == before + Drops(records) + 1
    ensures Explained(after, loss, published + [item], consumed, []) && Arranged(after, published + [item], DROP_NEWEST)
    ensures Items(after) == Items(records) && Drops(after) == Drops(records) + 1 && Running(before, after)
  {
    NewestExplained(records, parts, published, consumed, item, total);
    NewestArranged(records, parts, published, consumed, item, total);
    NewestCounts(records, item, total);
    NewestRunning(before, records, item);
    loss := WithLoss(records, parts, |records|, item);
    after := WithGap(records, |records|, item, total);
  }

  function Without<T>(s: seq<T>, k: nat): seq<T>
    requires k < |s|
  {
    s[..k] + s[k + 1..]
  }

  /** Position k holds the oldest pending item: only markers lie before it. */
  ghost predicate OldestAt(records: seq<Record>, k: nat, item: Item) {
    k < |records| && records[k] == Emitted(item) && forall i :: 0 <= i < k ==> records[i].Gap?
  }

  lemma OldestExplained(
      records: seq<Record>, parts: seq<seq<Item>>, published: seq<Item>, consumed: seq<Item>, k: nat, item: Item,
      total: nat)
    requires Explained(records, parts, published, consumed, []) && OldestAt(records, k, item)
    ensures Explained(WithGap(Without(records, k), k, item, total),
            WithLoss(Without(records, k), Without(parts, k), k, item), published, consumed, [])
  {
    var rest, fewer := Without(records, k), Without(parts, k);
    GapStands(rest, fewer, k, item, total);
    GapInPlace(rest, fewer, k, item);
    assert fewer[..k] == parts[..k] && fewer[k..] == parts[k + 1..];
    CutAt(parts, k);
    CutFlatten(parts[..k], parts[k], parts[k + 1..]);
    assert StandsFor(records[k], parts[k]);
  }

  lemma OldestSplit(records: seq<Record>, k: nat, item: Item)
    requires OldestAt(records, k, item)
    ensures Items(records[..k]) == [] && Items(records) == [item] + Items(records[k + 1..])
    ensures Drops(records) == Drops(records[..k]) + Drops(records[k + 1..])
  {
    CutAt(records, k);
    CutItems(records[..k], records[k], records[k + 1..]);
    OneRecord(records[k]);
    OnlyGaps(records[..k]);
  }

  lemma OldestCounts(records: seq<Record>, k: nat, item: Item, total: nat)
    requires OldestAt(records, k, item)
    ensures Items(records) == [item] + Items(WithGap(Without(records, k), k, item, total))
    ensures Items(WithGap(Without(records, k), k, item, total)) == Items(records)[1..]
    ensures Drops(WithGap(Without(records, k), k, item, total)) == Drops(records) + 1
  {
    OldestSplit(records, k, item);
    GapCounts(Without(records, k), k, item, total);
  }

  lemma OldestMarkersFirst(records: seq<Record>, k: nat, item: Item, total: nat)
    requires OldestAt(records, k, item) && MarkersFirst(records)
    ensures MarkersFirst(WithGap(Without(records, k), k, item, total))
  {
    forall j | k < j < |records| ensures records[j].Emitted? { assert records[k].Emitted?; }
  }

  lemma OldestNoAdjacent(
      records: seq<Record>, parts: seq<seq<Item>>, published: seq<Item>, consumed: seq<Item>, k: nat, item: Item,
      total: nat)
    requires Explained(records, parts, published, consumed, []) && OldestAt(records, k, item)
    requires MarkersFirst(records) && NoAdjacentGaps(records) && Contiguous(published)
    ensures NoAdjacentGaps(WithGap(Without(records, k), k, item, total))
  {
    var rest := Without(records, k);
    forall j | k < j < |records| ensures records[j].Emitted? { assert records[k].Emitted?; }
    if k > 0 {
      OldestSeam(records, parts, published, consumed, k, item);
      assert rest[k - 1] == records[k - 1];
    }
  }

  lemma OldestSeam(
      records: seq<Record>, parts: seq<seq<Item>>, published: seq<Item>, consumed: seq<Item>, k: nat, item: Item)
    requires Explained(records, parts, published, consumed, []) && OldestAt(records, k, item) && k > 0 &&
             Contiguous(published)
    ensures records[k - 1].end == item.start
  {
    var front, back := parts[..k], Flatten(parts[k + 1..]);
    assert StandsFor(records[k], parts[k]);
    CutAt(parts, k);
    CutFlatten(front, [item], parts[k + 1..]);
    ConcatAssociates(Flatten(front), [item], back);
    ConcatAssociates(consumed, Flatten(front) + [item], back);
    ConcatAssociates(consumed, Flatten(front), [item]);
    assert published == ((consumed + Flatten(front)) + [item]) + back;
    ContiguousPrefix((consumed + Flatten(front)) + [item], back);
    EndsAt(records[..k], front, consumed, item);
  }

  lemma OldestTallies(records: seq<Record>, k: nat, item: Item, before: nat)
    requires OldestAt(records, k, item) && MarkersFirst(records) && Running(before, records)
    ensures var after := WithGap(Without(records, k), k, item, before + Drops(records) + 1);
            Items(records) == [item] + Items(after) && Drops(after) == Drops(records) + 1 && Running(before, after)
  {
    OldestCounts(records, k, item, before + Drops(records) + 1);
    OldestRunning(before, records, k, item);
  }

  /** The oldest pending item, at position k, gives way to a marker. */
  method ReplaceOldest(
      records: seq<Record>, k: nat, ghost before: nat, total: nat, ghost parts: seq<seq<Item>>,
      ghost published: seq<Item>, ghost consumed: seq<Item>)
    returns (after: seq<Record>, ghost loss: seq<seq<Item>>)
    requires k < |records| && records[k].Emitted? && OldestAt(records, k, records[k].item)
    requires Explained(records, parts, published, consumed, []) && Arranged(records, published, DROP_OLDEST)
    requires Running(before, records) && total == before + Drops(records) + 1
    ensures Explained(after, loss, published, consumed, []) && Arranged(after, published, DROP_OLDEST)
    ensures Items(records) == [records[k].item] + Items(after)
    ensures Drops(after) == Drops(records) + 1 && Running(before, after)
  {
    var item := records[k].item;
    loss := WithLoss(Without(records, k), Without(parts, k), k, item);
    OldestExplained(records, parts, published, consumed, k, item, total);
    OldestArranged(records, parts, published, consumed, k, item, total);
    OldestTallies(records, k, item, before);
    after := WithGap(Without(records, k), k, records[k].item, total);
  }

  lemma TakeExplained(
      records: seq<Record>, parts: seq<seq<Item>>, published: seq<Item>, takenParts: seq<seq<Item>>,
      discarded: seq<Item>)
    requires Explained(records, parts, published, Flatten(takenParts), discarded) && records != []
    ensures Explained(records[1..], parts[1..], published, Flatten(takenParts + [parts[0]]), discarded)
  {
    CutAt(parts, 0);
    CutFlatten(parts[..0], parts[0], parts[1..]);
    ConcatAssociates(Flatten(takenParts), parts[0], Flatten(parts[1..]));
    FlattenConcat(takenParts, [parts[0]]);
  }

  lemma TakeStands(taken: seq<Record>, takenParts: seq<seq<Item>>, records: seq<Record>, parts: seq<seq<Item>>)
    requires StandFor(taken, takenParts) && StandFor(records, parts) && records != []
    ensures StandFor(taken + [records[0]], takenParts + [parts[0]])
  {
  }

  lemma DiscardExplained(
      records: seq<Record>, parts: seq<seq<Item>>, published: seq<Item>, consumed: seq<Item>, discarded: seq<Item>)
    requires Explained(records, parts, published, consumed, discarded)
    ensures Explained([], [], published, consumed, Flatten(parts) + discarded)
  {
    ConcatAssociates(consumed, Flatten(parts), discarded);
    assert consumed + Flatten([]) == consumed;
  }

  /** Every published item is an item record, counted by a marker, or discarded. */
  lemma {:induction false} StandCounts(records: seq<Record>, parts: seq<seq<Item>>)
    requires StandFor(records, parts)
    ensures |Flatten(parts)| == |Items(records)| + Drops(records)
    decreases |records|
  {
    if records != [] {
      var last := |records| - 1;
      assert StandsFor(records[last], parts[last]);
      StandCounts(records[..last], parts[..last]);
    }
  }

  lemma TakeCounts(records: seq<Record>, taken: seq<Record>)
    requires records != []
    ensures |Items(records)| == |Items(records[1..])| + if records[0].Emitted? then 1 else 0
    ensures Drops(taken + [records[0]]) + Drops(records[1..]) == Drops(taken) + Drops(records)
    ensures Running(Drops(taken), records) ==> Running(Drops(taken + [records[0]]), records[1..])
  {
    CutAt(records, 0);
    CutItems(records[..0], records[0], records[1..]);
    OneRecord(records[0]);
    ItemsConcat(taken, [records[0]]);
    if Running(Drops(taken), records) { RunningTail(Drops(taken), records); }
  }

  /** Everything the ingress maintains survives handing out the first record. */
  lemma TakeKeeps(
      records: seq<Record>, parts: seq<seq<Item>>, published: seq<Item>, taken: seq<Record>, takenParts: seq<seq<Item>>,
      discarded: seq<Item>, policy: OverflowPolicy)
    requires Explained(records, parts, published, Flatten(takenParts), discarded) && records != []
    requires StandFor(taken, takenParts) && Arranged(records, published, policy) && Running(Drops(taken), records)
    ensures Explained(records[1..], parts[1..], published, Flatten(takenParts + [parts[0]]), discarded)
    ensures StandFor(taken + [records[0]], takenParts + [parts[0]])
    ensures Arranged(records[1..], published, policy) && Running(Drops(taken + [records[0]]), records[1..])
    ensures |Items(records)| == |Items(records[1..])| + if records[0].Emitted? then 1 else 0
    ensures Drops(taken + [records[0]]) + Drops(records[1..]) == Drops(taken) + Drops(records)
  {
    TakeExplained(records, parts, published, takenParts, discarded);
    TakeStands(taken, takenParts, records, parts);
    TakeArranged(records, published, policy);
    TakeCounts(records, taken);
  }

  lemma TakeArranged(records: seq<Record>, published: seq<Item>, policy: OverflowPolicy)
    requires Arranged(records, published, policy) && records != []
    ensures Arranged(records[1..], published, policy)
  {
  }

  lemma OldestArranged(
      records: seq<Record>, parts: seq<seq<Item>>, published: seq<Item>, consumed: seq<Item>, k: nat, item: Item,
      total: nat)
    requires Explained(records, parts, published, consumed, []) && OldestAt(records, k, item)
    requires Arranged(records, published, DROP_OLDEST)
    ensures Arranged(WithGap(Without(records, k), k, item, total), published, DROP_OLDEST)
  {
    OldestMarkersFirst(records, k, item, total);
    if Contiguous(published) { OldestNoAdjacent(records, parts, published, consumed, k, item, total); }
  }
}
