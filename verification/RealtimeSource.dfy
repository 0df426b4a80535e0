/** The scheduler's side of a realtime source: markers become pending
    diagnostics, and the next received item carries them on. */
module RealtimeSources {
  import opened Stream
  import opened IngressRecords
  import opened RealtimeIngress

  /** A received emission; `dropped` is its input_overrun_dropped_count, 0 when absent. */
  datatype Received = Received(item: Item, dropped: nat)

  function Sum(counts: seq<nat>): nat
    decreases |counts|
  {
    if counts == [] then 0 else Sum(counts[..|counts| - 1]) + counts[|counts| - 1]
  }

  /** An item received after the pending gaps `gaps`. */
  function Degrade(item: Item, gaps: seq<nat>): Received {
    if gaps == [] then Received(item, 0)
    else Received(item.(status := Worse(item.status, DEGRADED), overrun := true), Sum(gaps))
  }

  /** What the source emits for the records it took, and the gaps it still has to report. */
  function Annotate(records: seq<Record>): (seq<Received>, seq<nat>)
    decreases |records|
  {
    if records == [] then ([], [])
    else
      var (out, gaps) := Annotate(records[..|records| - 1]);
      match records[|records| - 1]
      case Gap(_, _, dropped, _) => (out, gaps + [dropped])
      case Emitted(item) => (out + [Degrade(item, gaps)], [])
  }

  function Dropped(out: seq<Received>): nat
    decreases |out|
  {
    if out == [] then 0 else Dropped(out[..|out| - 1]) + out[|out| - 1].dropped
  }

  /** No drop is forgotten and none is reported twice. */
  lemma {:induction false} DropsAccounted(records: seq<Record>)
    ensures Dropped(Annotate(records).0) + Sum(Annotate(records).1) == Drops(records)
    decreases |records|
  {
    if records != [] { DropsAccounted(records[..|records| - 1]); }
  }

  ghost predicate SameContent(out: seq<Received>, items: seq<Item>) {
    |out| == |items| && forall i :: 0 <= i < |out| ==>
      out[i].item.value == items[i].value && out[i].item.start == items[i].start && out[i].item.end == items[i].end
  }

  /** Annotating changes no payload and no interval. */
  lemma {:induction false} ContentKept(records: seq<Record>)
    ensures SameContent(Annotate(records).0, Items(records))
    decreases |records|
  {
    if records != [] { ContentKept(records[..|records| - 1]); }
  }

  /** The drops that the markers at the very end of `records` report. */
  function TrailingDrops(records: seq<Record>): nat
    decreases |records|
  {
    if records == [] || !records[|records| - 1].Gap? then 0
    else TrailingDrops(records[..|records| - 1]) + records[|records| - 1].droppedCount
  }

  lemma {:induction false} PendingAreTrailing(records: seq<Record>)
    ensures Sum(Annotate(records).1) == TrailingDrops(records)
    ensures Annotate(records).1 == [] <==> records == [] || !records[|records| - 1].Gap?
    decreases |records|
  {
    if records != [] { PendingAreTrailing(records[..|records| - 1]); }
  }

  /** Behind a marker the payload and the interval stay, INVALID stays INVALID, every other
      status becomes DEGRADED, and the emission carries the overrun and its count. Without
      one the item passes as it is. */
  predicate Carries(emission: Received, item: Item, marked: bool, drops: nat) {
    if marked then
      emission.item.value == item.value && emission.item.start == item.start && emission.item.end == item.end &&
      emission.item.status == (if item.status == INVALID then INVALID else DEGRADED) && emission.item.overrun &&
      emission.dropped == drops
    else emission == Received(item, 0)
  }

  lemma DegradeCarries(item: Item, gaps: seq<nat>)
    ensures Carries(Degrade(item, gaps), item, gaps != [], Sum(gaps))
  {
  }

  /** The emission for record i: degraded and counted when markers lie directly before it,
      with the drops of just these, and untouched otherwise. */
  lemma {:induction false} MarkedExactlyAfterGaps(records: seq<Record>, i: nat)
    requires i < |records| && records[i].Emitted?
    ensures var at, out, item := |Items(records[..i])|, Annotate(records).0, records[i].item;
            at < |out| &&
            if i > 0 && records[i - 1].Gap? then
              out[at].item.value == item.value && out[at].item.start == item.start && out[at].item.end == item.end &&
              out[at].item.status == (if item.status == INVALID then INVALID else DEGRADED) && out[at].item.overrun &&
              out[at].dropped == TrailingDrops(records[..i])
            else out[at] == Received(item, 0)
    decreases |records|
  {
    var before := records[..|records| - 1];
    if i < |before| {
      assert before[..i] == records[..i];
      MarkedExactlyAfterGaps(before, i);
      assert Annotate(before).0 <= Annotate(records).0;
    } else {
      MarkedNow(before, records[i]);
      assert records == before + [records[i]];
    }
  }

  /** The emission for the record just taken. */
  lemma MarkedNow(before: seq<Record>, record: Record)
    requires record.Emitted?
    ensures var at, out := |Items(before)|, Annotate(before + [record]).0;
            at < |out| &&
            Carries(out[at], record.item, before != [] && before[|before| - 1].Gap?, TrailingDrops(before))
  {
    AnnotateSnoc(before, record);
    ContentKept(before);
    PendingAreTrailing(before);
    DegradeCarries(record.item, Annotate(before).1);
  }

  lemma AnnotateSnoc(records: seq<Record>, r: Record)
    ensures var (out, gaps) := Annotate(records);
            Annotate(records + [r]) == if r.Gap? then (out, gaps + [r.droppedCount])
              else (out + [Degrade(r.item, gaps)], [])
  {
    assert (records + [r])[..|records|] == records;
  }

  predicate Within(emission: Received, duration: Option<real>) {
    duration.None? || emission.item.end <= duration.value
  }

  /** At most one more emission, and none that ends behind the boundary. */
  predicate Extends(before: seq<Received>, after: seq<Received>, duration: Option<real>) {
    || after == before
    || (|after| == |before| + 1 && before <= after &&
        (duration.None? || after[|before|].item.end <= duration.value))
  }

  function HeldBack(held: Option<Received>): seq<Received> {
    if held.Some? then [held.value] else []
  }

  /** The emission that was received last. */
  function Newest(published: seq<Received>, held: Option<Received>): Received {
    if held.Some? then held.value
    else if published != [] then published[|published| - 1] else Received(Item(Padding, 0.0, 0.0, OK, false), 0)
  }

  /** What a record leads to: a marker becomes a pending gap; an item is emitted or held
      back, with the pending gaps, of which none are left. */
  ghost predicate Handles(
      record: Record, was: seq<Received>, gaps: seq<nat>, now: seq<Received>, held: Option<Received>, left: seq<nat>)
  {
    match record
    case Gap(_, _, dropped, _) => now == was && held == None && left == gaps + [dropped]
    case Emitted(item) =>
      && now + HeldBack(held) == was + [Newest(now, held)] && left == []
      && Carries(Newest(now, held), item, gaps != [], Sum(gaps))
  }

  class RealtimeSource {
    const ingress: RealtimeIngressBuffer
    var pendingGaps: seq<nat>
    var held: Option<Received>        // an emission that ends behind the boundary
    var published: seq<Received>
    var exhausted: bool

    ghost predicate Valid()
      reads this, ingress
    {
      && ingress.Valid()
      && Annotate(ingress.taken) == (published + HeldBack(held), pendingGaps)
      && (exhausted ==> ingress.closed && ingress.records == [] && held == None)
    }

    constructor (ingress: RealtimeIngressBuffer)
      requires ingress.Valid() && ingress.taken == []
      ensures Valid() && this.ingress == ingress && published == [] && !exhausted
    {
      this.ingress := ingress;
      pendingGaps, held, published, exhausted := [], None, [], false;
      new;
      assert published + HeldBack(held) == [];
    }

    /** An emission that ends behind the boundary is held back, not lost. */
    method PublishAtBoundary(emission: Received, duration: Option<real>) returns (progress: bool)
      modifies `held, `published
      ensures progress <==> Within(emission, duration)
      ensures held == if progress then None else Some(emission)
      ensures published + HeldBack(held) == old(published) + [emission]
      ensures published == if progress then old(published) + [emission] else old(published)
    {
      if !Within(emission, duration) {
        held := Some(emission);
        return false;
      }
      held := None;
      published := published + [emission];
      return true;
    }

    /** What a record does: a marker becomes a pending gap, an item takes them along. */
    method Receive(record: Record, duration: Option<real>) returns (progress: bool)
      requires held == None
      modifies `pendingGaps, `held, `published
      ensures held.Some? ==> !Within(held.value, duration)
      ensures record.Gap? ==>
              published == old(published) && held == None && pendingGaps == old(pendingGaps) + [record.droppedCount] &&
                progress
      ensures record.Emitted? ==>
              published + HeldBack(held) == old(published) + [Newest(published, held)] && pendingGaps == [] &&
                Newest(published, held) == Degrade(record.item, old(pendingGaps))
      ensures Handles(record, old(published), old(pendingGaps), published, held, pendingGaps)
      ensures progress <==> |published| > |old(published)| || record.Gap?
      ensures Extends(old(published), published, duration)
    {
      if record.Gap? {
        pendingGaps := pendingGaps + [record.droppedCount];
        return true;
      }
      DegradeCarries(record.item, pendingGaps);
      var emission := Degrade(record.item, pendingGaps);
      pendingGaps := [];
      progress := PublishAtBoundary(emission, duration);
    }

    /** One step of the source. A marker becomes a pending gap; an item is emitted or held
        back, degraded when gaps are pending; without a record, and with the ingress still
        open, the source waits. */
    method Advance(duration: Option<real>) returns (progress: bool)
      requires Valid() && !exhausted
      modifies `pendingGaps, `held, `published, `exhausted, ingress`records, ingress`itemCount, ingress`taken,
        ingress`takenParts, ingress`parts
      ensures Valid() && (held.Some? ==> duration.Some? && held.value.item.end > duration.value)
      ensures ingress.taken == old(ingress.taken) +
              if old(held).None? && old(ingress.records) != [] then [old(ingress.records)[0]] else []
      ensures exhausted <==> old(held).None? && old(ingress.records) == [] && ingress.closed && !ingress.failed
      ensures Extends(old(published), published, duration)
      ensures progress <==>
              exhausted || |published| > |old(published)| || |pendingGaps| > |old(pendingGaps)|
      ensures old(held).Some? ==> published + HeldBack(held) == old(published) + [old(held).value]
      ensures old(held).None? && old(ingress.records) != [] ==>
              Handles(old(ingress.records)[0], old(published), old(pendingGaps), published, held, pendingGaps)
    {
      if held.Some? {
        progress := PublishAtBoundary(held.value, duration);
        return;
      }
      assert published + HeldBack(held) == published;
      ghost var before := ingress.taken;
      var r := ingress.Take();
      if r.Got? {
        AnnotateSnoc(before, r.record);
        progress := Receive(r.record, duration);
        assert r.record.Gap? ==> published + HeldBack(held) == published;
      } else {
        exhausted := r.EndOfStream?;
        progress := exhausted;
      }
    }

    /** When the source is exhausted, every item the callback published was emitted,
        counted as dropped on an emission, left as a trailing gap, or discarded. */
    lemma NothingLostSilently()
      requires Valid() && exhausted
      ensures |ingress.published| == |published| + Dropped(published) + Sum(pendingGaps) + |ingress.discarded|
      ensures exists parts :: StandFor(ingress.taken, parts) && ingress.published == Flatten(parts) + ingress.discarded
      ensures SameContent(published, Items(ingress.taken))
    {
      assert published + HeldBack(held) == published;
      DropsAccounted(ingress.taken);
      ContentKept(ingress.taken);
      StandCounts(ingress.taken, ingress.takenParts);
      assert Flatten(ingress.takenParts) + Flatten([]) == Flatten(ingress.takenParts);
    }
  }
}
