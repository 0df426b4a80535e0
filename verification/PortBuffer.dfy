/** The shared output buffer of one port: one copy of each item, one cursor per
    consumer, and the prefix every cursor has passed is released. */
module PortBuffers {
  import opened Stream

  datatype BufferError = KeyError | ValueError | IndexError | CapacityError

  datatype Outcome<+T> = Ok(value: T) | Err(error: BufferError)

  /** `position` is the least cursor, or the end of the stream when there is none. */
  ghost predicate IsMinimum(position: nat, cursors: map<int, nat>, end: nat) {
    && (forall c :: c in cursors ==> position <= cursors[c] <= end)
    && (if cursors == map[] then position == end else exists c :: c in cursors && cursors[c] == position)
  }

  class PortBuffer<T> {
    const maxItems: nat
    var items: seq<T>
    var startPosition: nat
    var nextPosition: nat
    var cursors: map<int, nat>
    var highWatermark: nat
    ghost var published: seq<T>

    ghost predicate Valid()
      reads this
    {
      && maxItems > 0 && nextPosition == |published| && startPosition <= nextPosition
      && items == published[startPosition..]
      && |items| <= highWatermark <= maxItems
      && IsMinimum(startPosition, cursors, nextPosition)
    }

    /** What every consumer has still to read, as if each had a queue of its own. */
    ghost function Queues(): (q: map<int, seq<T>>)
      requires Valid()
      reads this
    {
      map c | c in cursors :: published[cursors[c]..]
    }

    constructor (maxItems: nat)
      requires maxItems > 0
      ensures Valid() && cursors == map[] && Queues() == map[] && this.maxItems == maxItems && published == []
    {
      this.maxItems := maxItems;
      items, startPosition, nextPosition, cursors, highWatermark := [], 0, 0, map[], 0;
      published := [];
    }

    /** A new consumer reads from the current end on. */
    method RegisterConsumer(cursor: int) returns (r: Outcome<nat>)
      requires Valid()
      modifies this
      ensures Valid() && published == old(published)
      ensures r.Ok? <==> cursor !in old(Queues())
      ensures Queues() == if r.Ok? then old(Queues())[cursor := []] else old(Queues())
      ensures r.Ok? ==> r.value == nextPosition && cursors == old(cursors)[cursor := nextPosition]
    {
      if cursor in cursors { return Err(ValueError); }
      ghost var slowest := if cursors == map[] then cursor else var c :| c in cursors && cursors[c] == startPosition; c;
      cursors := cursors[cursor := nextPosition];
      assert cursors[slowest] == startPosition;
      assert published[nextPosition..] == [];
      assert Queues().Keys == old(Queues()).Keys + {cursor};
      r := Ok(nextPosition);
    }

    method UnregisterConsumer(cursor: int) returns (r: Outcome<()>)
      requires Valid()
      modifies this
      ensures Valid() && published == old(published)
      ensures r.Ok? <==> cursor in old(Queues())
      ensures Queues() == old(Queues()) - {cursor}
    {
      if cursor !in cursors { return Err(KeyError); }
      cursors := cursors - {cursor};
      ReclaimConsumedPrefix();
      r := Ok(());
    }

    predicate CanPublish(count: nat)
      reads this
    {
      cursors == map[] || |items| + count <= maxItems
    }

    /** Every consumer gets the item, or the buffer is full and nobody does. */
    method Publish(item: T) returns (r: Outcome<()>)
      requires Valid()
      modifies this
      ensures Valid()
      ensures r.Ok? <==> old(CanPublish(1))
      ensures published == old(published) + if r.Ok? then [item] else []
      ensures cursors == old(cursors)
      ensures Queues() == if r.Ok? then map c | c in old(Queues()) :: old(Queues())[c] + [item] else old(Queues())
    {
      if !CanPublish(1) {
        assert published + [] == published;
        return Err(CapacityError);
      }
      nextPosition := nextPosition + 1;
      published := published + [item];
      if cursors == map[] {
        startPosition := nextPosition;
      } else {
        items := items + [item];
        highWatermark := if |items| > highWatermark then |items| else highWatermark;
      }
      forall c | c in cursors ensures published[cursors[c]..] == old(published)[cursors[c]..] + [item] {}
      r := Ok(());
    }

    method Peek(cursor: int) returns (r: Outcome<T>)
      requires Valid()
      ensures match r
              case Ok(item) => cursor in Queues() && |Queues()[cursor]| > 0 && item == Queues()[cursor][0]
              case Err(KeyError) => cursor !in Queues()
              case Err(e) => e == IndexError && cursor in Queues() && Queues()[cursor] == []
    {
      if cursor !in cursors { return Err(KeyError); }
      if cursors[cursor] >= nextPosition { return Err(IndexError); }
      r := Ok(items[cursors[cursor] - startPosition]);
    }

    /** One consumer reads its next item; no other consumer notices. */
    method Pop(cursor: int) returns (r: Outcome<T>)
      requires Valid()
      modifies this
      ensures Valid() && published == old(published)
      ensures match r
              case Ok(item) =>
                && cursor in old(cursors) && old(cursors)[cursor] < |published| &&
                  item == published[old(cursors)[cursor]]
                && cursors == old(cursors)[cursor := old(cursors)[cursor] + 1]
                && item == old(Queues())[cursor][0]
                && Queues() == old(Queues())[cursor := old(Queues())[cursor][1..]]
              case Err(e) =>
                && Queues() == old(Queues()) && cursors == old(cursors)
                && (if e == KeyError then cursor !in old(Queues())
                    else e == IndexError && cursor in old(Queues()) && old(Queues())[cursor] == [])
    {
      r := Peek(cursor);
      if r.Ok? {
        cursors := cursors[cursor := cursors[cursor] + 1];
        ReclaimConsumedPrefix();
      }
    }

    method PendingCount(cursor: int) returns (r: Outcome<nat>)
      requires Valid()
      ensures r == if cursor in Queues() then Ok(|Queues()[cursor]|) else Err(KeyError)
    {
      if cursor !in cursors { return Err(KeyError); }
      r := Ok(nextPosition - cursors[cursor]);
    }

    /** min over the cursors, with the end of the stream as default. */
    method MinimumPosition() returns (minimum: nat)
      requires forall c :: c in cursors ==> startPosition <= cursors[c] <= nextPosition
      requires startPosition <= nextPosition
      ensures IsMinimum(minimum, cursors, nextPosition) && startPosition <= minimum
    {
      minimum := nextPosition;
      var rest, any := cursors.Keys, false;
      ghost var at := 0;
      while rest != {}
        invariant rest <= cursors.Keys && minimum <= nextPosition
        invariant !any ==> rest == cursors.Keys
        invariant forall c :: c in cursors && c !in rest ==> minimum <= cursors[c]
        invariant any ==> at in cursors && cursors[at] == minimum
        invariant !any ==> minimum == nextPosition
        invariant startPosition <= minimum
        decreases rest
      {
        ghost var some := Member(rest);
        var c :| c in rest;
        if !any || cursors[c] < minimum { minimum, at := cursors[c], c; }
        any := true;
        rest := rest - {c};
      }
      assert cursors.Keys == {} ==> cursors == map[];
    }

    method ReclaimConsumedPrefix()
      requires maxItems > 0 && nextPosition == |published| && startPosition <= nextPosition
      requires items == published[startPosition..] && |items| <= highWatermark <= maxItems
      requires forall c :: c in cursors ==> startPosition <= cursors[c] <= nextPosition
      modifies this`items, this`startPosition
      ensures Valid()
    {
      var minimum := MinimumPosition();
      var reclaim := minimum - startPosition;
      for k: nat := 0 to reclaim
        invariant startPosition == old(startPosition) && startPosition + k <= minimum
        invariant items == published[startPosition + k..]
      {
        items := items[1..];
      }
      startPosition := minimum;
    }

    /** What is retained is exactly the backlog of the slowest consumer. */
    lemma RetainedIsLargestBacklog()
      requires Valid()
      ensures forall c :: c in Queues() ==> |Queues()[c]| <= |items|
      ensures if Queues() == map[] then items == [] else exists c :: c in Queues() && Queues()[c] == items
    {
      if cursors != map[] {
        var c :| c in cursors && cursors[c] == startPosition;
        assert c in Queues() && Queues()[c] == items;
      } else {
        assert Queues() == map[];
      }
    }
  }
}
