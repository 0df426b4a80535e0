/** Gaps as flags and gaps as segments: Python carries a gap as a flag on every
    emission of the item behind it, the native code as a change of segment number.
    When a node emits any number of items per input item, the two forms still
    agree exactly when every segment is led by the item behind its gap. */
module Gaps {
  import opened Stream
  import opened CppNodes

  // ------------------------------------------- emissions, item by item

  /** The emissions of all items, each item's in turn. */
  function Flat(parts: seq<seq<Item>>): seq<Item>
    decreases |parts|
  {
    if parts == [] then [] else Flat(parts[..|parts| - 1]) + parts[|parts| - 1]
  }

  /** Natively every emission stays in the segment of its item. */
  function FlatSegments(parts: seq<seq<Item>>, segments: seq<int>): seq<int>
    requires |parts| == |segments|
    decreases |parts|
  {
    if parts == [] then []
    else
      var n := |parts| - 1;
      FlatSegments(parts[..n], segments[..n]) + Repeat(segments[n], |parts[n]|)
  }

  /** Every emission carries the gap flag of its item. */
  ghost predicate Inherits(items: seq<Item>, parts: seq<seq<Item>>) {
    |parts| == |items| && forall k, j :: 0 <= k < |parts| && 0 <= j < |parts[k]| ==>
      parts[k][j].overrun == items[k].overrun
  }

  /** No gap lies behind item k up to item j. */
  ghost predicate SameSegment(items: seq<Item>, k: nat, j: nat)
    requires k <= j < |items|
  {
    forall i :: k < i <= j ==> !items[i].overrun
  }

  ghost predicate Silent(items: seq<Item>, parts: seq<seq<Item>>, k: nat)
    requires |parts| == |items| && k < |items|
  {
    forall j :: k < j < |items| && SameSegment(items, k, j) ==> parts[j] == []
  }

  /** An item behind a gap emits at most once; and if it does not emit at all, then
      either nothing was emitted before it or its whole segment emits nothing. */
  ghost predicate LedAt(items: seq<Item>, parts: seq<seq<Item>>, k: nat)
    requires |parts| == |items| && k < |items|
  {
    items[k].overrun ==> |parts[k]| <= 1 && (parts[k] != [] || Flat(parts[..k]) == [] || Silent(items, parts, k))
  }

  ghost predicate Led(items: seq<Item>, parts: seq<seq<Item>>)
    requires |parts| == |items|
  {
    forall k :: 0 <= k < |items| ==> LedAt(items, parts, k)
  }

  ghost predicate Rising(segments: seq<int>) {
    forall i, j :: 0 <= i < j < |segments| ==> segments[i] <= segments[j]
  }

  /** Something was emitted, but nothing yet in the segment of the last item. */
  predicate Stale(items: seq<Item>, parts: seq<seq<Item>>)
    requires |parts| == |items|
    decreases |items|
  {
    items != [] &&
      var n := |items| - 1;
      parts[n] == [] && (if items[n].overrun then Flat(parts[..n]) != [] else Stale(items[..n], parts[..n]))
  }

  /** The item behind the gap that left the last segment without an emission. */
  lemma {:induction false} StaleSince(items: seq<Item>, parts: seq<seq<Item>>) returns (k: nat)
    requires |parts| == |items| && Stale(items, parts)
    ensures k < |items| && items[k].overrun && SameSegment(items, k, |items| - 1) && parts[k] == [] &&
            Flat(parts[..k]) != []
    ensures Flat(parts) != []
    decreases |items|
  {
    var n := |items| - 1;
    assert Flat(parts) == Flat(parts[..n]) + [];
    if items[n].overrun {
      k := n;
    } else {
      k := StaleSince(items[..n], parts[..n]);
      assert parts[..n][..k] == parts[..k];
    }
  }

  lemma {:induction false} StaleFrom(items: seq<Item>, parts: seq<seq<Item>>, k: nat)
    requires |parts| == |items| && k < |items| && items[k].overrun && SameSegment(items, k, |items| - 1)
    requires parts[k] == [] && Flat(parts[..k]) != [] && Silent(items, parts, k)
    ensures Stale(items, parts)
    decreases |items|
  {
    var n := |items| - 1;
    if k < n {
      assert SameSegment(items, k, n) && parts[n] == [];
      SilentBefore(items, parts, k);
      assert parts[..n][..k] == parts[..k];
      StaleFrom(items[..n], parts[..n], k);
    }
  }

  lemma SilentBefore(items: seq<Item>, parts: seq<seq<Item>>, k: nat)
    requires |parts| == |items| && k < |items| - 1
    ensures var n := |items| - 1;
            Silent(items, parts, k) <==>
            (Silent(items[..n], parts[..n], k) && (SameSegment(items, k, n) ==> parts[n] == []))
  {
    var n := |items| - 1;
    forall j | k < j < n ensures SameSegment(items[..n], k, j) <==> SameSegment(items, k, j) {
      assert forall i :: k < i <= j ==> items[..n][i] == items[i];
    }
    if Silent(items[..n], parts[..n], k) && (SameSegment(items, k, n) ==> parts[n] == []) {
      forall j | k < j < |items| && SameSegment(items, k, j) ensures parts[j] == [] {
        if j < n { assert SameSegment(items[..n], k, j) && parts[..n][j] == parts[j]; }
      }
    }
    if Silent(items, parts, k) {
      forall j | k < j < n && SameSegment(items[..n], k, j) ensures parts[..n][j] == [] {
        assert SameSegment(items, k, j);
      }
    }
  }

  /** One more item: what leading requires of it. */
  ghost predicate LedLast(items: seq<Item>, parts: seq<seq<Item>>)
    requires |parts| == |items| > 0
  {
    var n := |items| - 1;
    if items[n].overrun then |parts[n]| <= 1 else parts[n] == [] || !Stale(items[..n], parts[..n])
  }

  lemma LedAtBefore(items: seq<Item>, parts: seq<seq<Item>>, k: nat)
    requires |parts| == |items| && k < |items| - 1 && LedLast(items, parts)
    ensures LedAt(items, parts, k) <==> LedAt(items[..|items| - 1], parts[..|items| - 1], k)
  {
    var n := |items| - 1;
    SilentBefore(items, parts, k);
    assert parts[..n][..k] == parts[..k];
    if items[k].overrun && parts[k] == [] && Flat(parts[..k]) != [] && Silent(items[..n], parts[..n], k) &&
      SameSegment(items, k, n) {
      assert SameSegment(items[..n], k, n - 1);
      StaleFrom(items[..n], parts[..n], k);
    }
  }

  lemma LedUnrolls(items: seq<Item>, parts: seq<seq<Item>>)
    requires |parts| == |items| > 0
    ensures Led(items, parts) <==> (Led(items[..|items| - 1], parts[..|items| - 1]) && LedLast(items, parts))
  {
    var n := |items| - 1;
    var before, earlier := items[..n], parts[..n];
    if Led(items, parts) {
      assert LedAt(items, parts, n);
      if !items[n].overrun && parts[n] != [] && Stale(before, earlier) {
        var k := StaleSince(before, earlier);
        assert earlier[..k] == parts[..k] && LedAt(items, parts, k);
        assert SameSegment(items, k, n);
      }
    }
    if LedLast(items, parts) {
      forall k | 0 <= k < n ensures LedAt(items, parts, k) <==> LedAt(before, earlier, k) {
        LedAtBefore(items, parts, k);
      }
      if Led(before, earlier) {
        forall k | 0 <= k < |items| ensures LedAt(items, parts, k) { assert k < n ==> LedAt(before, earlier, k); }
      }
    }
  }

  lemma {:induction false} FlatLengths(parts: seq<seq<Item>>, segments: seq<int>)
    requires |parts| == |segments|
    ensures |Flat(parts)| == |FlatSegments(parts, segments)|
    decreases |parts|
  {
    if parts != [] { FlatLengths(parts[..|parts| - 1], segments[..|parts| - 1]); }
  }

  /** The last emission lies in the segment of the last item, unless that is stale. */
  lemma {:induction false} LastSegment(items: seq<Item>, segments: seq<int>, parts: seq<seq<Item>>)
    requires Marks(items, segments) && Rising(segments) && |parts| == |items| && Flat(parts) != []
    ensures var out, n := FlatSegments(parts, segments), |items| - 1;
            |out| > 0 && out[|out| - 1] <= segments[n] && (out[|out| - 1] == segments[n] <==> !Stale(items, parts))
    decreases |items|
  {
    var n := |items| - 1;
    FlatLengths(parts, segments);
    if parts[n] == [] {
      assert Flat(parts) == Flat(parts[..n]) + [];
      assert FlatSegments(parts, segments) == FlatSegments(parts[..n], segments[..n]) + [];
      LastSegment(items[..n], segments[..n], parts[..n]);
    }
  }

  /** Appending a block of equal flags and one segment to a marked stream. */
  lemma MarksAppend(a: seq<Item>, sa: seq<int>, b: seq<Item>, segment: int, flag: bool)
    requires |a| == |sa| && forall i :: 0 <= i < |b| ==> b[i].overrun == flag
    ensures Marks(a + b, sa + Repeat(segment, |b|)) <==>
            (Marks(a, sa) && (|b| > 1 ==> !flag) && (|a| > 0 && |b| > 0 ==> (flag <==> segment != sa[|sa| - 1])))
  {
    var c, sc := a + b, sa + Repeat(segment, |b|);
    if Marks(c, sc) {
      forall i | 0 < i < |a| ensures a[i].overrun <==> sa[i] != sa[i - 1] {
        assert c[i] == a[i] && sc[i] == sa[i] && sc[i - 1] == sa[i - 1];
      }
      if |b| > 1 { assert c[|a| + 1].overrun <==> sc[|a| + 1] != sc[|a|]; }
      if |a| > 0 && |b| > 0 { assert c[|a|].overrun <==> sc[|a|] != sc[|a| - 1]; }
    }
  }

  /** Whatever a node emits per item: its flags and its segments still agree exactly
      when every segment is led by the item behind its gap. */
  lemma {:induction false} SpreadAgreesIff(items: seq<Item>, segments: seq<int>, parts: seq<seq<Item>>)
    requires Marks(items, segments) && Rising(segments) && Inherits(items, parts)
    ensures Marks(Flat(parts), FlatSegments(parts, segments)) <==> Led(items, parts)
    decreases |items|
  {
    if items != [] {
      var n := |items| - 1;
      var before, earlier, firsts := items[..n], segments[..n], parts[..n];
      SpreadAgreesIff(before, earlier, firsts);
      FlatLengths(firsts, earlier);
      MarksAppend(Flat(firsts), FlatSegments(firsts, earlier), parts[n], segments[n], items[n].overrun);
      LedUnrolls(items, parts);
      if Flat(firsts) != [] {
        LastSegment(before, earlier, firsts);
      } else if Stale(before, firsts) {
        var k := StaleSince(before, firsts);
      }
    }
  }
}
