/** Rational times as signed 64-bit ticks over a common denominator: the encoding
    loses nothing, and every value outside the range is reported. */
module Ticks {
  import opened Stream
  import opened CppNodes
  import opened Vectors
  import opened Scaling

  /** A product by name, and what it means to be a multiple. */
  function Product(x: int, y: int): int { x * y }

  ghost predicate MultipleOf(n: int, d: int) { exists k :: n == Product(d, k) }

  function Gcd(a: nat, b: nat): (g: nat)
    requires a > 0 || b > 0
    ensures g > 0
    decreases b
  {
    if b == 0 then a else Gcd(b, a % b)
  }

  function Lcm(a: nat, b: nat): nat
    requires a > 0 && b > 0
  {
    Product(a / Gcd(a, b), b)
  }

  ghost predicate LeastCommonMultiple(m: int, a: int, b: int) {
    && m > 0 && MultipleOf(m, a) && MultipleOf(m, b)
    && forall n :: MultipleOf(n, a) && MultipleOf(n, b) ==> MultipleOf(n, m)
  }

  // ------------------------------------------------------- number theory

  lemma Assoc(x: int, y: int, z: int)
    ensures Product(Product(x, y), z) == Product(x, Product(y, z))
  {
    assert (x * y) * z == x * (y * z);
  }

  lemma Commute(x: int, y: int)
    ensures Product(x, y) == Product(y, x)
  {
  }

  /** One step of Euclid's algorithm, backwards. */
  lemma EuclidStep(q: int, u: int, v: int, x: int, y: int)
    requires Product(x, u) + Product(y, v) == 1
    ensures Product(y, Product(q, u) + v) + Product(x - Product(q, y), u) == 1
  {
    Commute(x - Product(q, y), u);
    Commute(u, x);
    Commute(u, Product(q, y));
    Assoc(q, y, u);
    Commute(y, Product(q, u));
    Assoc(q, u, y);
    Commute(u, y);
  }

  /** The divisor divides both numbers, and is a combination of them. */
  lemma {:induction false} Bezout(a: nat, b: nat) returns (u: int, v: int, x: int, y: int)
    requires a > 0 || b > 0
    ensures a == Product(Gcd(a, b), u) && b == Product(Gcd(a, b), v)
    ensures Product(x, u) + Product(y, v) == 1
    decreases b
  {
    if b == 0 {
      u, v, x, y := 1, 0, 1, 0;
    } else {
      var g, q := Gcd(a, b), a / b;
      var u1, v1, x1, y1 := Bezout(b, a % b);
      u, v, x, y := Product(q, u1) + v1, u1, y1, x1 - Product(q, y1);
      EuclidStep(q, u1, v1, x1, y1);
      assert a == Product(q, b) + a % b;
      Assoc(q, g, u1);
      Commute(q, g);
      Assoc(g, q, u1);
    }
  }

  /** Dividing a multiple is exact. */
  lemma QuotientOf(g: nat, u: int)
    requires g > 0
    ensures Product(g, u) / g == u && Product(g, u) % g == 0
  {
    var n := Product(g, u);
    var q, r := n / g, n % g;
    assert n == Product(g, q) + r;
    if u > q {
      PositiveProduct(g, u - q);
    } else if u < q {
      PositiveProduct(g, q - u);
    }
  }

  lemma PositiveFactor(g: nat, u: int)
    requires g > 0 && Product(g, u) > 0
    ensures u > 0
  {
  }

  lemma PositiveProduct(x: int, y: int)
    requires x > 0 && y > 0
    ensures Product(x, y) >= x && Product(x, y) >= y
  {
  }

  /** Any common multiple n = a * s = b * t is the combination x * t + y * s of the least one. */
  lemma CommonMultiple(a: int, b: int, u: int, v: int, x: int, y: int, s: int, t: int, m: int)
    requires Product(x, u) + Product(y, v) == 1
    requires m == Product(u, b) == Product(v, a) && Product(a, s) == Product(b, t)
    ensures Product(a, s) == Product(m, Product(x, t) + Product(y, s))
  {
    var n := Product(a, s);
    // n = n * (x * u + y * v)
    assert Product(n, 1) == n;
    // n * (x * u) = b * t * x * u = m * (x * t)
    Swap(b, t, x, u);
    Swap(a, s, y, v);
  }

  lemma Swap(b: int, t: int, x: int, u: int)
    ensures Product(Product(b, t), Product(x, u)) == Product(Product(u, b), Product(x, t))
  {
    assert (b * t) * (x * u) == (u * b) * (x * t);
  }

  /** (a / gcd) * b is the least common multiple. */
  lemma LcmIsLeast(a: nat, b: nat)
    requires a > 0 && b > 0
    ensures LeastCommonMultiple(Lcm(a, b), a, b)
  {
    var g := Gcd(a, b);
    var u, v, x, y := Bezout(a, b);
    QuotientOf(g, u);
    PositiveFactor(g, u);
    PositiveFactor(g, v);
    var m := Lcm(a, b);
    assert m == Product(u, b);
    PositiveProduct(u, b);
    Commute(u, b);
    assert MultipleOf(m, b);
    Assoc(u, g, v);
    Commute(u, g);
    Commute(v, a);
    assert m == Product(a, v);
    assert MultipleOf(m, a);
    forall n | MultipleOf(n, a) && MultipleOf(n, b) ensures MultipleOf(n, m) {
      var s :| n == Product(a, s);
      var t :| n == Product(b, t);
      CommonMultiple(a, b, u, v, x, y, s, t, m);
    }
  }

  lemma MultipleIsNoLess(n: int, m: int)
    requires MultipleOf(n, m) && n > 0 && m > 0
    ensures n >= m
  {
    var k :| n == Product(m, k);
    PositiveFactor(m, k);
    PositiveProduct(m, k);
  }

  lemma MultipleTransitive(n: int, m: int, d: int)
    requires MultipleOf(n, m) && MultipleOf(m, d)
    ensures MultipleOf(n, d)
  {
    var k :| n == Product(m, k);
    var j :| m == Product(d, j);
    Assoc(d, j, k);
  }

  // ------------------------------------------------------ checked arithmetic

  /** checked_lcm: the least common timebase, or a report that it does not fit. */
  method CheckedLcm(left: int, right: int) returns (r: Result<int>)
    requires FitsI64(left) && FitsI64(right)
    ensures r.Ok? <==> left > 0 && right > 0 && Lcm(left, right) <= I64_MAX
    ensures r.Err? <==> left <= 0 || right <= 0 || Lcm(left, right) > 9223372036854775807
    ensures r.Ok? ==> r.value == Lcm(left, right) && LeastCommonMultiple(r.value, left, right) && FitsI64(r.value)
  {
    if left <= 0 || right <= 0 { return Err(PositiveTimebase); }
    var divisor := Gcd(left, right);
    var value := Product(left / divisor, right);
    LcmIsLeast(left, right);
    if value > I64_MAX { return Err(TimebaseOverflow); }
    r := Ok(value);
  }

  /** checked_scale: the product, or a report that it leaves the 64-bit range. */
  method CheckedScale(value: int, factor: int) returns (r: Result<int>)
    ensures r == if FitsI64(Product(value, factor)) then Ok(Product(value, factor)) else Err(TickOverflow)
    ensures r.Ok? <==> -9223372036854775808 <= value * factor <= 9223372036854775807
  {
    var scaled := Product(value, factor);
    if scaled < I64_MIN || scaled > I64_MAX { return Err(TickOverflow); }
    r := Ok(scaled);
  }

  // ------------------------------------------------------- native ingress

  function Abs(n: int): nat { if n < 0 then -n else n }

  /** Python's Fraction is in lowest terms. */
  datatype Fraction = Fraction(numerator: int, denominator: nat) {
    predicate Valid() { denominator > 0 && Gcd(Abs(numerator), denominator) == 1 }

    function Real(): real
      requires Valid()
    {
      numerator as real / denominator as real
    }
  }

  datatype RationalItem = RationalItem(value: Value, start: Fraction, end: Fraction, status: Status, overrun: bool) {
    predicate Valid() { start.Valid() && end.Valid() }

    function Meaning(): Item
      requires Valid()
    {
      Item(value, start.Real(), end.Real(), status, overrun)
    }
  }

  predicate AllRational(items: seq<RationalItem>) {
    forall i :: 0 <= i < |items| ==> items[i].Valid()
  }

  function Meanings(items: seq<RationalItem>): seq<Item>
    requires AllRational(items)
  {
    seq(|items|, (i: nat) requires i < |items| => items[i].Meaning())
  }

  /** One packed item: ticks over the ingress denominator, and whether a gap precedes it. */
  datatype PackedItem = PackedItem(value: Value, start: int, end: int, status: Status, reset: bool) {
    predicate Valid() { FitsI64(start) && FitsI64(end) }

    function Meaning(): Item { Item(value, start as real, end as real, status, reset) }
  }

  function PackedMeanings(items: seq<PackedItem>): seq<Item> {
    seq(|items|, (i: nat) requires i < |items| => items[i].Meaning())
  }

  datatype Ingress = Ingress(items: seq<PackedItem>, denominator: int)

  predicate ValidIngress(ingress: Ingress) {
    && 0 < ingress.denominator <= I64_MAX
    && forall i :: 0 <= i < |ingress.items| ==> ingress.items[i].Valid()
  }

  /** The least common denominator of all interval ends. */
  function Denominator(items: seq<RationalItem>): (d: nat)
    requires AllRational(items)
    ensures d > 0
    decreases |items|
  {
    if items == [] then 1
    else
      var last := items[|items| - 1];
      var d := Denominator(items[..|items| - 1]);
      LcmIsLeast(d, last.start.denominator);
      LcmIsLeast(Lcm(d, last.start.denominator), last.end.denominator);
      Lcm(Lcm(d, last.start.denominator), last.end.denominator)
  }

  lemma {:induction false} DenominatorCovers(items: seq<RationalItem>, k: nat)
    requires AllRational(items) && k <= |items|
    ensures MultipleOf(Denominator(items), Denominator(items[..k]))
    ensures forall i :: k <= i < |items| ==>
            MultipleOf(Denominator(items), items[i].start.denominator) &&
              MultipleOf(Denominator(items), items[i].end.denominator)
    decreases |items|
  {
    if k < |items| {
      var n := |items| - 1;
      var last, d, whole := items[n], Denominator(items[..n]), Denominator(items);
      var mid := Lcm(d, last.start.denominator);
      LcmIsLeast(d, last.start.denominator);
      LcmIsLeast(mid, last.end.denominator);
      MultipleTransitive(whole, mid, last.start.denominator);
      MultipleTransitive(whole, mid, d);
      DenominatorCovers(items[..n], k);
      assert items[..n][..k] == items[..k];
      MultipleTransitive(whole, d, Denominator(items[..k]));
      forall i | k <= i < n
        ensures MultipleOf(whole, items[i].start.denominator) && MultipleOf(whole, items[i].end.denominator)
      {
        assert items[..n][i] == items[i];
        MultipleTransitive(whole, d, items[i].start.denominator);
        MultipleTransitive(whole, d, items[i].end.denominator);
      }
    } else {
      assert items[..k] == items;
      assert Denominator(items) == Product(Denominator(items), 1);
    }
  }

  /** ... and it is the least one: every common multiple of the denominators is a multiple. */
  lemma {:induction false} DenominatorIsLeast(items: seq<RationalItem>, n: int)
    requires AllRational(items)
    requires forall i :: 0 <= i < |items| ==>
               MultipleOf(n, items[i].start.denominator) && MultipleOf(n, items[i].end.denominator)
    ensures MultipleOf(n, Denominator(items))
    decreases |items|
  {
    if items == [] {
      assert n == Product(1, n);
    } else {
      var last, before := items[|items| - 1], items[..|items| - 1];
      DenominatorIsLeast(before, n);
      var d := Denominator(before);
      LcmIsLeast(d, last.start.denominator);
      LcmIsLeast(Lcm(d, last.start.denominator), last.end.denominator);
    }
  }

  /** The exact tick value of a time over a multiple of its denominator. */
  function TickOf(time: Fraction, denominator: nat): int
    requires time.Valid()
  {
    Product(time.numerator, denominator) / time.denominator
  }

  lemma TickIsExact(time: Fraction, denominator: nat)
    requires time.Valid() && MultipleOf(denominator, time.denominator)
    ensures Product(time.numerator, denominator) % time.denominator == 0
    ensures TickOf(time, denominator) as real == Times(time.Real(), denominator as real)
  {
    var k :| denominator == Product(time.denominator, k);
    var n, d := time.numerator, time.denominator;
    Commute(d, k);
    Assoc(n, k, d);
    var tick := Product(n, k);
    Commute(tick, d);
    assert Product(n, denominator) == Product(d, tick);
    QuotientOf(d, tick);
    assert time.Real() * d as real == n as real;
    ExactTick(time.Real(), n, d, k);
  }

  lemma ExactTick(x: real, n: int, d: nat, k: int)
    requires d > 0 && x * d as real == n as real
    ensures Product(n, k) as real == Times(x, Product(d, k) as real)
  {
    assert Product(n, k) as real == n as real * k as real;
    assert Product(d, k) as real == d as real * k as real;
    assert (x * d as real) * k as real == x * (d as real * k as real);
  }

  /** _checked_i64_ticks */
  method CheckedTicks(time: Fraction, denominator: nat) returns (r: Result<int>)
    requires time.Valid() && MultipleOf(denominator, time.denominator)
    ensures r.Ok? <==> FitsI64(TickOf(time, denominator))
    ensures r.Ok? <==> -9223372036854775808 <= TickOf(time, denominator) <= 9223372036854775807
    ensures r.Ok? ==> r.value == TickOf(time, denominator)
  {
    TickIsExact(time, denominator);
    var scaled := Product(time.numerator, denominator);
    if scaled % time.denominator != 0 || !FitsI64(scaled / time.denominator) { return Err(TickOverflow); }
    r := Ok(scaled / time.denominator);
  }

  predicate TicksFit(item: RationalItem, denominator: nat)
    requires item.Valid()
  {
    FitsI64(TickOf(item.start, denominator)) && FitsI64(TickOf(item.end, denominator))
  }

  function InTicks(item: RationalItem, denominator: nat): PackedItem
    requires item.Valid()
  {
    PackedItem(item.value, TickOf(item.start, denominator), TickOf(item.end, denominator), item.status, item.overrun)
  }

  predicate Packs(items: seq<RationalItem>)
    requires AllRational(items)
  {
    Denominator(items) <= I64_MAX && forall i :: 0 <= i < |items| ==> TicksFit(items[i], Denominator(items))
  }

  function Packed(items: seq<RationalItem>): Ingress
    requires AllRational(items)
  {
    var d := Denominator(items);
    Ingress(seq(|items|, (i: nat) requires i < |items| => InTicks(items[i], d)), d)
  }

  /** _pack_vector_ingress: every emission in ticks over the least common
      denominator. It refuses exactly what does not fit, and what it accepts is the
      same stream, in ticks. */
  method PackVectorIngress(items: seq<RationalItem>) returns (r: Result<Ingress>)
    requires AllRational(items)
    ensures r.Ok? <==> Packs(items)
    ensures r.Ok? ==> r.value == Packed(items) && ValidIngress(r.value)
    ensures r.Ok? ==> PackedMeanings(r.value.items) == ScaleItems(Meanings(items), r.value.denominator as real)
  {
    var denominator: nat := 1;
    for k := 0 to |items|
      invariant denominator == Denominator(items[..k]) <= I64_MAX
    {
      assert items[..k + 1][..k] == items[..k];
      LcmIsLeast(denominator, items[k].start.denominator);
      denominator := Lcm(Lcm(denominator, items[k].start.denominator), items[k].end.denominator);
      if denominator > I64_MAX {
        DenominatorCovers(items, k + 1);
        MultipleIsNoLess(Denominator(items), denominator);
        return Err(TimebaseOverflow);
      }
    }
    assert items[..|items|] == items;
    DenominatorCovers(items, 0);
    var packed: seq<PackedItem> := [];
    for k := 0 to |items|
      invariant |packed| == k
      invariant forall i :: 0 <= i < k ==>
        (TicksFit(items[i], denominator) && packed[i] == InTicks(items[i], denominator))
    {
      var start := CheckedTicks(items[k].start, denominator);
      if start.Err? { return Err(start.error); }
      var end := CheckedTicks(items[k].end, denominator);
      if end.Err? { return Err(end.error); }
      packed := packed + [PackedItem(items[k].value, start.value, end.value, items[k].status, items[k].overrun)];
    }
    forall i | 0 <= i < |items| ensures packed[i].Meaning() == ScaleItem(items[i].Meaning(), denominator as real) {
      TickIsExact(items[i].start, denominator);
      TickIsExact(items[i].end, denominator);
    }
    assert packed == Packed(items).items;
    r := Ok(Ingress(packed, denominator));
  }
}
