/** Chains of FRAME, SAMPLE and MAP nodes in numbers: how many items leave a chain, how many
    items each of them needs, and what a shared buffer must therefore hold. */
module Chains {
  import opened Stream
  import opened Operators

  /** One node of a chain: a FRAME, a SAMPLE of `ratio` steps of its input's grid, or a MAP
      that answers once per input. */
  datatype Link =
    | Window(size: nat, hop: nat)
    | Sampled(ratio: nat, period: real)
    | Mapped(kernel: Kernel, acceptsInvalid: bool, resetOnGap: bool)
  {
    ghost predicate Valid() {
      match this
      case Window(size, hop) => size > 0 && hop > 0
      case Sampled(ratio, period) => ratio > 0 && period > 0.0
      case Mapped(kernel, _, _) => OneRawOutput(kernel)
    }

    /** Output j of the node needs the input items from j * Hop() on, Size() in number. */
    function Size(): nat {
      match this
      case Window(size, _) => size
      case _ => 1
    }

    function Hop(): nat {
      match this
      case Window(_, hop) => hop
      case Sampled(ratio, _) => ratio
      case Mapped(_, _, _) => 1
    }

    /** What capacity planning multiplies by. */
    function Demand(): nat {
      match this
      case Window(size, _) => size
      case Sampled(ratio, _) => ratio
      case Mapped(_, _, _) => 1
    }
  }

  type Chain = seq<Link>

  ghost predicate ValidChain(chain: Chain) {
    forall i :: 0 <= i < |chain| ==> chain[i].Valid()
  }

  /** No FRAME of the chain skips items. */
  predicate NoSkips(chain: Chain) {
    forall i :: 0 <= i < |chain| && chain[i].Window? ==> chain[i].hop <= chain[i].size
  }

  function Product(x: nat, y: nat): nat { if y == 0 then 0 else Product(x, y - 1) + x }

  lemma {:induction false} ProductIs(x: nat, y: nat)
    ensures Product(x, y) == x * y
  {
    if y > 0 {
      ProductIs(x, y - 1);
      assert x * y == x * (y - 1) + x;
    }
  }

  /** How many items leave the chain when n shared items entered it. */
  function ChainCount(chain: Chain, n: nat): nat
    requires ValidChain(chain)
    decreases |chain|
  {
    if chain == [] then n
    else FrameCount(ChainCount(chain[..|chain| - 1], n), chain[|chain| - 1].Size(), chain[|chain| - 1].Hop())
  }

  /** The signature of the chain's port, in shared items: how far apart its items
      start, and how many shared ones each of them covers. */
  function Stride(chain: Chain): nat
    decreases |chain|
  {
    if chain == [] then 1 else Product(Stride(chain[..|chain| - 1]), chain[|chain| - 1].Hop())
  }

  function Span(chain: Chain): nat
    requires ValidChain(chain)
    decreases |chain|
  {
    if chain == [] then 1
    else Span(chain[..|chain| - 1]) + Product(Stride(chain[..|chain| - 1]), chain[|chain| - 1].Size() - 1)
  }

  /** How many shared items item j of the chain needs. */
  function Needed(chain: Chain, j: nat): nat
    requires ValidChain(chain)
  {
    if j == 0 then Span(chain) else Needed(chain, j - 1) + Stride(chain)
  }

  lemma {:induction false} NeededIs(chain: Chain, j: nat)
    requires ValidChain(chain)
    ensures Needed(chain, j) == Product(Stride(chain), j) + Span(chain)
  {
    if j > 0 {
      NeededIs(chain, j - 1);
      assert Product(Stride(chain), j) == Product(Stride(chain), j - 1) + Stride(chain);
    }
  }

  lemma Rearrange(stride: nat, hop: nat, j: nat, size: nat)
    requires size > 0
    ensures Product(stride, Offset(j, hop) + (size - 1)) == Product(Product(stride, hop), j) + Product(stride, size - 1)
  {
    OffsetIs(j, hop);
    ProductIs(stride, Offset(j, hop) + (size - 1));
    ProductIs(stride, hop);
    ProductIs(Product(stride, hop), j);
    ProductIs(stride, size - 1);
    RearrangeIs(stride, hop, j, size - 1);
  }

  lemma RearrangeIs(stride: nat, hop: nat, j: nat, rest: nat)
    ensures stride * (j * hop + rest) == (stride * hop) * j + stride * rest
  {
    assert stride * (j * hop + rest) == stride * (j * hop) + stride * rest;
    assert stride * (j * hop) == (stride * hop) * j;
  }

  /** Frame j leaves the chain exactly when that many items entered it. */
  lemma {:induction false} ChainNeeds(chain: Chain, n: nat, j: nat)
    requires ValidChain(chain)
    ensures j < ChainCount(chain, n) <==> Needed(chain, j) <= n
    decreases |chain|
  {
    NeededIs(chain, j);
    if chain != [] {
      var front, last := chain[..|chain| - 1], chain[|chain| - 1];
      var k := Offset(j, last.Hop()) + (last.Size() - 1);
      NeededIs(front, k);
      FrameCounted(ChainCount(front, n), last.Size(), last.Hop(), j);
      ChainNeeds(front, n, k);
      Rearrange(Stride(front), last.Hop(), j, last.Size());
      assert Needed(front, k) == Needed(chain, j);
    } else {
      ProductIs(1, j);
    }
  }

  lemma ProductGrows(a: nat, b: nat, c: nat, d: nat)
    requires a <= b && c <= d
    ensures Product(a, c) <= Product(b, d)
  {
    ProductIs(a, c);
    ProductIs(b, d);
    assert a * c <= b * c <= b * d;
  }

  /** Both branches fit into a shared buffer of this capacity. */
  ghost predicate Covers(capacity: nat, chain: Chain)
    requires ValidChain(chain)
  {
    Stride(chain) <= capacity && Span(chain) <= capacity
  }

  lemma {:induction false} Positive(chain: Chain)
    requires ValidChain(chain)
    ensures Stride(chain) > 0 && Span(chain) > 0
    decreases |chain|
  {
    if chain != [] {
      Positive(chain[..|chain| - 1]);
    }
  }

  lemma {:induction false} NeededSame(main: Chain, aux: Chain, j: nat)
    requires ValidChain(main) && ValidChain(aux) && Stride(main) == Stride(aux) && Span(main) == Span(aux)
    ensures Needed(main, j) == Needed(aux, j)
  {
    if j > 0 { NeededSame(main, aux, j - 1); }
  }

  lemma {:induction false} NeededGrows(chain: Chain, j: nat)
    requires ValidChain(chain)
    ensures Needed(chain, j) > j
  {
    Positive(chain);
    if j > 0 { NeededGrows(chain, j - 1); }
  }

  /** ancestor_demands along the chain: the product of the frame sizes and sample ratios. */
  function PathDemand(chain: Chain): nat
    decreases |chain|
  {
    if chain == [] then 1 else Product(PathDemand(chain[..|chain| - 1]), chain[|chain| - 1].Demand())
  }

  /** Without skips the planned demand covers both the span and the stride. */
  lemma {:induction false} DemandCovers(chain: Chain)
    requires ValidChain(chain) && NoSkips(chain)
    ensures Covers(PathDemand(chain), chain)
    decreases |chain|
  {
    if chain != [] {
      var front, last := chain[..|chain| - 1], chain[|chain| - 1];
      DemandCovers(front);
      ProductGrows(Stride(front), PathDemand(front), last.Hop(), last.Demand());
      ProductGrows(Stride(front), PathDemand(front), last.Size() - 1, last.Demand() - 1);
      assert Product(PathDemand(front), last.Demand()) ==
             PathDemand(front) + Product(PathDemand(front), last.Demand() - 1);
    }
  }

  /** What was needed for the pair before pair t. */
  function Base(chain: Chain, t: nat): nat
    requires ValidChain(chain)
  {
    if t == 0 then 0 else Needed(chain, t - 1)
  }

  lemma NeededRises(chain: Chain, t: nat)
    requires ValidChain(chain)
    ensures Base(chain, t) < Needed(chain, t)
    ensures Needed(chain, t) - Base(chain, t) == if t == 0 then Span(chain) else Stride(chain)
  {
    Positive(chain);
  }

  function Least(x: nat, y: nat): nat { if x < y then x else y }

  /** Both branches fit into a shared buffer of this capacity while n items, and then the
      end, come through: up to the first span, and a stride at a time behind it. */
  ghost predicate Holds(capacity: nat, chain: Chain, n: nat)
    requires ValidChain(chain)
  {
    && Least(n + 1, Span(chain)) <= capacity
    && (Span(chain) <= n ==> Least(n + 1 - Span(chain), Stride(chain)) <= capacity)
  }

  lemma CoversHolds(capacity: nat, chain: Chain, n: nat)
    requires ValidChain(chain) && Covers(capacity, chain)
    ensures Holds(capacity, chain, n)
  {
  }

  lemma {:induction false} SpanIsFirst(chain: Chain, j: nat)
    requires ValidChain(chain)
    ensures Needed(chain, j) >= Span(chain)
  {
    if j > 0 { SpanIsFirst(chain, j - 1); }
  }

  /** Between what pair t - 1 needed and what pair t needs there is room for one more. */
  lemma RoomForOne(capacity: nat, chain: Chain, n: nat, t: nat, read: nat)
    requires ValidChain(chain) && Holds(capacity, chain, n) && Base(chain, t) <= read <= n && read < Needed(chain, t)
    ensures read + 1 - Base(chain, t) <= capacity
  {
    NeededRises(chain, t);
    if t > 0 { SpanIsFirst(chain, t - 1); }
  }
}
