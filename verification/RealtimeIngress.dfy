/** The bounded ingress between a realtime callback and the scheduler: it never
    blocks, drops items when full, and leaves a gap marker for what it dropped.
    Every method is one locked section, so a run is any interleaving of calls. */
module RealtimeIngress {
  import opened Stream
  import opened IngressRecords

  datatype Taken = Got(record: Record) | MustWait | EndOfStream | SourceFailed

  class RealtimeIngressBuffer {
    const maxItems: nat
    const policy: OverflowPolicy
    var records: seq<Record>
    var itemCount: nat
    var highWatermark: nat
    var totalDropped: nat
    var closed: bool
    var failed: bool
    ghost var parts: seq<seq<Item>>    // what each record stands for
    ghost var published: seq<Item>     // everything accepted from the callback
    ghost var taken: seq<Record>       // everything handed to the scheduler
    ghost var takenParts: seq<seq<Item>>
    ghost var discarded: seq<Item>     // what a cancel threw away
    ghost var discardedDrops: nat

    ghost predicate Valid()
      reads this
    {
      && StandFor(taken, takenParts)
      && Explained(records, parts, published, Flatten(takenParts), discarded)
      && Arranged(records, published, policy)
      && (discarded != [] ==> closed)
      && itemCount == |Items(records)| <= highWatermark <= maxItems && maxItems > 0
      && totalDropped == Drops(taken) + Drops(records) + discardedDrops && (discardedDrops > 0 ==> closed)
      && Running(Drops(taken), records)
    }

    constructor (maxItems: nat, policy: OverflowPolicy)
      requires maxItems > 0
      ensures Valid() && !closed && published == [] && taken == [] && totalDropped == 0
      ensures this.maxItems == maxItems && this.policy == policy
    {
      this.maxItems, this.policy := maxItems, policy;
      records, itemCount, highWatermark, totalDropped, closed, failed := [], 0, 0, 0, false, false;
      parts, published, taken, takenParts, discarded, discardedDrops := [], [], [], [], [], 0;
    }

    /** The index of the oldest pending item. */
    method OldestItem() returns (index: nat)
      requires |Items(records)| > 0
      ensures index < |records| && records[index].Emitted? && OldestAt(records, index, records[index].item)
    {
      index := 0;
      if |records| == 0 { assert false; }
      while records[index].Gap?
        invariant index < |records|
        invariant forall i :: 0 <= i < index ==> records[i].Gap?
        decreases |records| - index
      {
        if index + 1 == |records| { OnlyGaps(records); }
        index := index + 1;
      }
    }

    method AppendItem(item: Item)
      requires Valid() && !closed && itemCount < maxItems
      modifies `records, `itemCount, `highWatermark, `parts, `published
      ensures Valid() && published == old(published) + [item] && Items(records) == old(Items(records)) + [item]
    {
      AppendExplained(records, parts, published, Flatten(takenParts), item);
      AppendArranged(records, published, policy, item);
      RunningAppend(Drops(taken), records, item);
      ItemsConcat(records, [Emitted(item)]);
      OneRecord(Emitted(item));
      records := records + [Emitted(item)];
      itemCount := itemCount + 1;
      highWatermark := if itemCount > highWatermark then itemCount else highWatermark;
      parts, published := parts + [[item]], published + [item];
    }

    /** DROP_NEWEST: the offered item itself is dropped. */
    method DropNewest(item: Item)
      requires Valid() && !closed && policy == DROP_NEWEST
      modifies `records, `totalDropped, `parts, `published
      ensures Valid() && published == old(published) + [item] && Items(records) == old(Items(records))
      ensures totalDropped == old(totalDropped) + 1
    {
      totalDropped := totalDropped + 1;
      records, parts := AppendGap(records, item, Drops(taken), totalDropped, parts, published, Flatten(takenParts));
      published := published + [item];
    }

    /** DROP_OLDEST: the oldest pending item leaves, and a marker takes its place. */
    method DropOldest()
      requires Valid() && !closed && policy == DROP_OLDEST && itemCount > 0
      modifies `records, `itemCount, `totalDropped, `parts
      ensures Valid() && itemCount == old(itemCount) - 1 && Items(records) == old(Items(records))[1..]
      ensures totalDropped == old(totalDropped) + 1
    {
      var oldest := OldestItem();
      totalDropped := totalDropped + 1;
      itemCount := itemCount - 1;
      records, parts := ReplaceOldest(records, oldest, Drops(taken), totalDropped, parts, published,
        Flatten(takenParts));
    }

    /** The callback offers an item. Nobody waits: when the buffer is full the policy
        decides which item is dropped, and a marker takes its place. */
    method Publish(item: Item)
      requires Valid()
      modifies `records, `itemCount, `highWatermark, `totalDropped, `parts, `published
      ensures Valid()
      ensures published == if closed then old(published) else old(published) + [item]
      ensures Items(records) ==
        if closed then old(Items(records))
        else if |old(Items(records))| < maxItems then old(Items(records)) + [item]
        else if policy == DROP_NEWEST then old(Items(records))
        else old(Items(records))[1..] + [item]
      ensures totalDropped == old(totalDropped) + if closed || |old(Items(records))| < maxItems then 0 else 1
    {
      if closed { return; }
      if itemCount < maxItems {
        AppendItem(item);
      } else if policy == DROP_NEWEST {
        DropNewest(item);
      } else {
        DropOldest();
        AppendItem(item);
      }
    }

    /** The scheduler takes the next record; it waits only while the ingress is open and empty. */
    method Take() returns (r: Taken)
      requires Valid()
      modifies `records, `itemCount, `taken, `takenParts, `parts
      ensures Valid()
      ensures r.Got? <==> old(records) != []
      ensures r.Got? ==> r.record == old(records)[0] && records == old(records)[1..] && taken == old(taken) + [r.record]
      ensures r.Got? ==> takenParts == old(takenParts) + [old(parts)[0]] && parts == old(parts)[1..]
      ensures !r.Got? ==> records == old(records) && taken == old(taken) && takenParts == old(takenParts)
      ensures !r.Got? ==> r == if !closed then MustWait else if failed then SourceFailed else EndOfStream
    {
      if records == [] {
        return if !closed then MustWait else if failed then SourceFailed else EndOfStream;
      }
      var record := records[0];
      TakeKeeps(records, parts, published, taken, takenParts, discarded, policy);
      r := Got(record);
      itemCount := if record.Emitted? then itemCount - 1 else itemCount;
      records := records[1..];
      taken, takenParts, parts := taken + [record], takenParts + [parts[0]], parts[1..];
    }

    method Close()
      requires Valid()
      modifies `closed
      ensures Valid() && closed
    {
      closed := true;
    }

    method Fail()
      requires Valid()
      modifies `closed, `failed
      ensures Valid() && closed && failed
    {
      failed := true;
      closed := true;
    }

    /** Taking until nothing is left: what was pending comes out in order, and only then
        does a source that failed report it. */
    method Drain() returns (drained: seq<Record>, last: Taken)
      requires Valid() && closed
      modifies `records, `itemCount, `taken, `takenParts, `parts
      ensures Valid() && records == [] && drained == old(records) && taken == old(taken) + drained
      ensures last == if failed then SourceFailed else EndOfStream
    {
      drained := [];
      ghost var pending, before := records, taken;
      while records != []
        invariant Valid() && closed == old(closed) && failed == old(failed)
        invariant Split(pending, drained, records) && Split(taken, before, drained)
        decreases |records|
      {
        ghost var rest, handed := records, taken;
        var next := Take();
        OneDrained(pending, before, drained, rest, handed, next.record, records, taken);
        drained := drained + [next.record];
      }
      last := Take();
    }

    /** cancel: what was pending is thrown away, and counted. */
    method Discard() returns (count: nat)
      requires Valid()
      modifies `records, `itemCount, `closed, `parts, `discarded, `discardedDrops
      ensures Valid() && closed && records == [] && count == |old(Items(records))|
      ensures discarded == old(Flatten(parts) + discarded)
    {
      count := itemCount;
      DiscardExplained(records, parts, published, Flatten(takenParts), discarded);
      discarded, discardedDrops := Flatten(parts) + discarded, discardedDrops + Drops(records);
      records, parts := [], [];
      itemCount := 0;
      closed := true;
    }
  }

  ghost predicate Split(whole: seq<Record>, front: seq<Record>, back: seq<Record>) { whole == front + back }

  /** One record was taken from `rest`, and joins what was handed out. */
  lemma OneDrained(
      pending: seq<Record>, before: seq<Record>, drained: seq<Record>, rest: seq<Record>, handed: seq<Record>,
      record: Record, now: seq<Record>, taken: seq<Record>)
    requires Split(pending, drained, rest) && Split(handed, before, drained)
    requires rest != [] && record == rest[0] && now == rest[1..] && taken == handed + [record]
    ensures Split(pending, drained + [record], now) && Split(taken, before, drained + [record])
  {
    assert rest == [record] + now;
  }
}
