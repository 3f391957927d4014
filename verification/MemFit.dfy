/** Memory-fit arithmetic: the KV cache against the memory budget, in exact
    rationals. Sizes per element and per token are counted in 32nds of a byte. */
module MemFit {
  import opened Text

  const U64: nat := 0x1_0000_0000_0000_0000
  const U128: nat := 0x1_0000_0000_0000_0000_0000_0000_0000_0000
  const I64: int := 0x8000_0000_0000_0000

  datatype Dims = Dims(layers: nat, headsKv: nat, headDim: nat, ctxTrain: Option<nat>)

  /** Bytes per KV element, in 32nds; an unknown type counts as f16. */
  function PerElem(kvQuant: string): (n: nat)
    ensures 18 <= n <= 128
  {
    var q := Lower(kvQuant);
    if q == "f32" then 128
    else if q == "f16" || q == "bf16" then 64
    else if q == "q8_0" then 34
    else if q == "q8_1" then 36
    else if q == "q5_1" then 24
    else if q == "q5_0" then 22
    else if q == "q4_1" then 20
    else if q == "q4_0" then 18
    else 64
  }

  function Min(a: nat, b: nat): nat {
    if a < b then a else b
  }

  /** `u128::saturating_mul`. */
  function SatMul(a: nat, b: nat): nat {
    Min(a * b, U128 - 1)
  }

  function KvBytes(d: Dims, ctx: nat, perElem: nat): nat {
    var elems := SatMul(SatMul(SatMul(SatMul(2, d.layers), d.headsKv), d.headDim), ctx);
    Min(elems * perElem / 32, U64 - 1)
  }

  /** Cost of one token, in 32nds of a byte. */
  function PerToken(d: Dims, perElem: nat): nat {
    2 * d.layers * d.headsKv * d.headDim * perElem
  }

  /** Tokens a budget buys, before the trained context caps them. */
  function Affordable(d: Dims, budget: int, perElem: nat): nat {
    var t := PerToken(d, perElem);
    if budget <= 0 || t == 0 then 0 else Min(32 * budget / t, U64 - 1)
  }

  function MaxCtx(d: Dims, budget: int, perElem: nat): nat {
    var ctx := Affordable(d, budget, perElem);
    if d.ctxTrain.Some? && d.ctxTrain.value > 0 then Min(ctx, d.ctxTrain.value) else ctx
  }

  // --- Multiplication and division ------------------------------------------

  lemma MulMono(a: nat, b: nat, c: nat)
    requires a <= b
    ensures a * c <= b * c && c * a <= c * b
  {}

  lemma DivBounds(n: nat, d: nat)
    requires d > 0
    ensures (n / d) * d <= n < (n / d + 1) * d
  {}

  lemma DivMono(a: nat, b: nat, d: nat)
    requires a <= b && d > 0
    ensures a / d <= b / d
  {
    DivBounds(a, d);
    DivBounds(b, d);
    if b / d < a / d { MulMono(b / d + 1, a / d, d); }
  }

  lemma QuotientsOrdered(n: nat, a: nat, b: nat, x: nat, y: nat)
    requires 0 < a <= b && x == n / a && y == n / b
    ensures y <= x
  {
    DivBounds(n, a);
    DivBounds(n, b);
    MulMono(a, b, y);
    assert y * a <= n < (x + 1) * a;
    if x < y { MulMono(x + 1, y, a); }
  }

  lemma DivAnti(n: nat, a: nat, b: nat)
    requires 0 < a <= b
    ensures n / b <= n / a
  {
    QuotientsOrdered(n, a, b, n / a, n / b);
  }

  // --- The cache size -------------------------------------------------------

  lemma SatProduct(x: nat, c: nat)
    ensures Min(Min(x, U128 - 1) * c, U128 - 1) == Min(x * c, U128 - 1)
  {
    if x >= U128 - 1 && c > 0 {
      MulMono(1, c, x);
      MulMono(1, c, U128 - 1);
    }
  }

  /** Saturation never shows below the largest `u64`: the cache size is the exact
      cost rounded down, or that largest value. */
  lemma KvBytesExact(d: Dims, ctx: nat, perElem: nat)
    requires perElem >= 18
    ensures KvBytes(d, ctx, perElem) == Min(PerToken(d, perElem) * ctx / 32, U64 - 1)
  {
    var p := 2 * d.layers * d.headsKv * d.headDim;
    SatProduct(2 * d.layers, d.headsKv);
    SatProduct(2 * d.layers * d.headsKv, d.headDim);
    SatProduct(p, ctx);
    CostOf(p, ctx, perElem);
    assert PerToken(d, perElem) == p * perElem;
    SaturatedCost(p * ctx, perElem);
  }

  lemma CostOf(p: nat, ctx: nat, perElem: nat)
    ensures p * ctx * perElem == p * perElem * ctx
  {
    assert p * (ctx * perElem) == p * (perElem * ctx);
  }

  lemma SaturatedCost(exact: nat, perElem: nat)
    requires perElem >= 18
    ensures Min(Min(exact, U128 - 1) * perElem / 32, U64 - 1) == Min(exact * perElem / 32, U64 - 1)
  {
    if exact > U128 - 1 {
      MulMono(18, perElem, U128 - 1);
      MulMono(U128 - 1, exact, perElem);
      DivMono((U128 - 1) * 18, (U128 - 1) * perElem, 32);
      DivMono((U128 - 1) * perElem, exact * perElem, 32);
    }
  }

  // --- The budget inverse ---------------------------------------------------

  /** The maximum context is exactly that: a context is at most it if and only if its
      cost, compared exactly, is within the budget, it is within the trained context
      where there is one, and it fits a `u64`. Without a budget or a cost it is none. */
  lemma MaxCtxExact(d: Dims, budget: int, perElem: nat, ctx: nat)
    ensures var token := 2 * d.layers * d.headsKv * d.headDim * perElem;
      ctx <= MaxCtx(d, budget, perElem)
      <==> ctx == 0
           || (budget > 0 && token > 0 && token * ctx <= 32 * budget && ctx < 0x1_0000_0000_0000_0000
               && (d.ctxTrain.Some? && d.ctxTrain.value > 0 ==> ctx <= d.ctxTrain.value))
  {
    var t := PerToken(d, perElem);
    assert t == 2 * d.layers * d.headsKv * d.headDim * perElem;
    hide PerToken;
    if budget > 0 && t > 0 { QuotientExact(32 * budget, t, ctx); }
  }

  lemma QuotientExact(n: nat, t: nat, x: nat)
    requires t > 0
    ensures x <= n / t <==> t * x <= n
  {
    DivBounds(n, t);
    if x <= n / t { MulMono(x, n / t, t); } else { MulMono(n / t + 1, x, t); }
  }

  /** Bytes of a block of 32 cache elements: the data bits, and two bytes for each
      scale; the names count in either case and any other type as `f16`. */
  lemma BlockBytes(kvQuant: string)
    ensures PerElem("f32") == 32 * 4 && PerElem("f16") == 32 * 2 && PerElem("bf16") == 32 * 2
    ensures PerElem("q8_0") == 32 * 8 / 8 + 2 && PerElem("q8_1") == 32 * 8 / 8 + 4
    ensures PerElem("q5_0") == 32 * 5 / 8 + 2 && PerElem("q5_1") == 32 * 5 / 8 + 4
    ensures PerElem("q4_0") == 32 * 4 / 8 + 2 && PerElem("q4_1") == 32 * 4 / 8 + 4
    ensures Lower(kvQuant) !in {"f32", "q8_0", "q8_1", "q5_0", "q5_1", "q4_0", "q4_1"} ==> PerElem(kvQuant) == 64
    ensures PerElem(Lower(kvQuant)) == PerElem(kvQuant)
  {
    SmallNames();
    LowerTwice(kvQuant);
    NamesDiffer();
    hide Lower;
  }

  lemma SmallNames()
    ensures forall s :: s in {"f32", "f16", "bf16", "q8_0", "q8_1", "q5_0", "q5_1", "q4_0", "q4_1"} ==> Lower(s) == s
  {
    hide Lower;
  }

  lemma LowerTwice(s: string)
    ensures Lower(Lower(s)) == Lower(s)
  {
    hide Lower;
  }

  lemma NamesDiffer()
    ensures "f32" != "f16" && "f32" != "bf16"
  {
    assert "f32"[1] != "f16"[1];
  }

  /** Every context up to the maximum has its cache within the budget. */
  lemma WithinBudget(d: Dims, budget: int, perElem: nat, ctx: nat)
    requires perElem >= 18 && budget >= 0 && ctx <= MaxCtx(d, budget, perElem)
    ensures KvBytes(d, ctx, perElem) <= budget
  {
    KvBytesExact(d, ctx, perElem);
    var t := PerToken(d, perElem);
    hide KvBytes, PerToken;
    if budget > 0 && t > 0 {
      DivBounds(32 * budget, t);
      MulMono(ctx, 32 * budget / t, t);
      DivMono(t * ctx, 32 * budget, 32);
    } else {
      assert t * ctx == 0;
    }
  }

  /** One token more costs more than the budget, unless the trained context is
      what stopped it. Costs are compared exactly, before rounding to bytes. */
  lemma OneMoreCostsMore(d: Dims, budget: int, perElem: nat)
    requires perElem >= 18 && 0 < budget < I64 && PerToken(d, perElem) > 0
    requires MaxCtx(d, budget, perElem) == Affordable(d, budget, perElem)
    ensures PerToken(d, perElem) * (MaxCtx(d, budget, perElem) + 1) > 32 * budget
  {
    var t := PerToken(d, perElem);
    PerTokenAtLeast(d, perElem);
    hide PerToken;
    DivBounds(32 * budget, t);
    DivAnti(32 * budget, 32, t);
  }

  lemma PerTokenAtLeast(d: Dims, perElem: nat)
    requires perElem >= 18 && PerToken(d, perElem) > 0
    ensures PerToken(d, perElem) >= 36
  {
    var p := d.layers * d.headsKv * d.headDim;
    assert PerToken(d, perElem) == 2 * p * perElem;
    assert p > 0;
    MulMono(1, p, perElem);
  }

  ghost predicate OneMoreShows(d: Dims, perElem: nat, budget: int) {
    KvBytes(d, Affordable(d, budget, perElem) + 1, perElem) > budget
  }

  /** Rounded down to bytes, one token more shows as more than the budget for
      every budget if and only if a token costs a whole number of bytes, or more
      than any budget. */
  lemma OneMoreShowsExactly(d: Dims, perElem: nat)
    requires perElem >= 18 && PerToken(d, perElem) > 0
    ensures (forall b :: 0 < b < I64 ==> OneMoreShows(d, perElem, b))
       <==> PerToken(d, perElem) % 32 == 0 || PerToken(d, perElem) >= 32 * I64
  {
    var t := PerToken(d, perElem);
    PerTokenAtLeast(d, perElem);
    if t % 32 == 0 || t >= 32 * I64 {
      forall b | 0 < b < I64 ensures OneMoreShows(d, perElem, b) { WholeTokenShows(d, perElem, b); }
    } else {
      FractionHides(d, perElem);
    }
  }

  lemma FractionHides(d: Dims, perElem: nat)
    requires perElem >= 18 && PerToken(d, perElem) % 32 != 0 && PerToken(d, perElem) < 32 * I64
    ensures !OneMoreShows(d, perElem, PerToken(d, perElem) / 32) && 0 < PerToken(d, perElem) / 32 < I64
  {
    var t := PerToken(d, perElem);
    PerTokenAtLeast(d, perElem);
    KvBytesExact(d, 1, perElem);
    hide KvBytes, PerToken;
    SmallQuotient(t);
    assert Affordable(d, t / 32, perElem) == 0;
  }

  lemma SmallQuotient(t: nat)
    requires t % 32 != 0 && 36 <= t < 32 * I64
    ensures 0 < t / 32 < I64 && 32 * (t / 32) / t == 0 && Min(t * 1 / 32, U64 - 1) == t / 32
  {
    QuotientIsZero(32 * (t / 32), t);
  }

  lemma QuotientIsZero(n: nat, t: nat)
    requires n < t
    ensures n / t == 0
  {
    DivBounds(n, t);
    if n / t >= 1 { MulMono(1, n / t, t); }
  }

  lemma WholeTokenShows(d: Dims, perElem: nat, b: int)
    requires perElem >= 18 && PerToken(d, perElem) > 0 && 0 < b < I64
    requires PerToken(d, perElem) % 32 == 0 || PerToken(d, perElem) >= 32 * I64
    ensures OneMoreShows(d, perElem, b)
  {
    var t := PerToken(d, perElem);
    PerTokenAtLeast(d, perElem);
    KvBytesExact(d, Affordable(d, b, perElem) + 1, perElem);
    hide KvBytes, PerToken;
    DivAnti(32 * b, 32, t);
    assert Affordable(d, b, perElem) == 32 * b / t;
    DivBounds(32 * b, t);
    WholeCost(t, 32 * b / t + 1, b);
  }

  lemma WholeCost(t: nat, n: nat, b: int)
    requires n > 0 && n * t > 32 * b && 0 < b < I64 && (t % 32 == 0 || t >= 32 * I64)
    ensures t * n / 32 > b
  {
    if t % 32 == 0 {
      var p := t / 32;
      assert t * n == 32 * (p * n) by { assert t == 32 * p; }
    } else {
      MulMono(1, n, t);
      DivMono(t, t * n, 32);
    }
  }

  /** More budget never buys less context. */
  lemma MonotoneInBudget(d: Dims, a: int, b: int, perElem: nat)
    requires a <= b
    ensures MaxCtx(d, a, perElem) <= MaxCtx(d, b, perElem)
  {
    var t := PerToken(d, perElem);
    hide PerToken;
    if a > 0 && t > 0 { DivMono(32 * a, 32 * b, t); }
  }

  /** A smaller cache element never buys less context. */
  lemma AntitoneInElement(d: Dims, budget: int, small: nat, large: nat)
    requires 0 < small <= large
    ensures MaxCtx(d, budget, large) <= MaxCtx(d, budget, small)
  {
    var p := 2 * d.layers * d.headsKv * d.headDim;
    MulMono(small, large, p);
    assert PerToken(d, small) == p * small && PerToken(d, large) == p * large;
    hide PerToken;
    if budget > 0 && p > 0 {
      assert p * small > 0;
      DivAnti(32 * budget, p * small, p * large);
    }
  }

  // --- The estimate ---------------------------------------------------------

  const RUNTIME_RESERVE: nat := 0x4000_0000

  datatype UmaBudget = UmaBudget(vramTotal: nat, gttTotal: nat, gttUsed: nat, sysTotal: nat, sysAvailable: nat)

  function SatAdd(a: nat, b: nat): nat {
    Min(a + b, U64 - 1)
  }

  function Usable(b: UmaBudget): nat {
    if b.sysTotal > 0 then
      var free := SatAdd(b.sysAvailable, b.gttUsed);
      if free < RUNTIME_RESERVE then 0 else free - RUNTIME_RESERVE
    else SatAdd(b.vramTotal, b.gttTotal)
  }

  /** `x as i64` for a `u64`. */
  function AsI64(x: nat): int {
    if x >= I64 then x - U64 else x
  }

  /** Two's complement difference of two `i64`s. */
  function WrapSub(a: int, b: int): int {
    var d := a - b;
    if d >= I64 then d - U64 else if d < -I64 then d + U64 else d
  }

  datatype Estimate = Estimate(kv: nat, working: nat, headroom: int, maxCtx: nat)

  function EstimateFit(weights: nat, d: Dims, ctx: nat, kvQuant: string, b: UmaBudget): Estimate {
    var kv := KvBytes(d, ctx, PerElem(kvQuant));
    var working := SatAdd(weights, kv);
    Estimate(kv, working,
             WrapSub(AsI64(Usable(b)), AsI64(working)),
             MaxCtx(d, WrapSub(AsI64(Usable(b)), AsI64(weights)), PerElem(kvQuant)))
  }

  /** The signed difference the estimate works with is the real one exactly when
      the real one fits an `i64`. */
  lemma DifferenceExact(a: nat, b: nat)
    requires a < U64 && b < U64
    ensures WrapSub(AsI64(a), AsI64(b)) == a - b <==> -I64 <= a - b < I64
  {}

  /** What a model can take: the available memory and what the GPU holds of it, less
      one GiB; without a reading of the memory, the GPU's whole pool. */
  lemma UsableExact(b: UmaBudget)
    requires b.sysAvailable + b.gttUsed < U64 && b.vramTotal + b.gttTotal < U64
    ensures b.sysTotal == 0 ==> Usable(b) == b.vramTotal + b.gttTotal
    ensures b.sysTotal > 0 ==>
      var free := b.sysAvailable + b.gttUsed;
      if free <= 1_073_741_824 then Usable(b) == 0 else Usable(b) + 1_073_741_824 == free
  {}

  /** The estimate where nothing saturates or wraps: the cache's exact cost rounded
      down, what weights and cache take, what is left, and the maximum context for
      what the weights leave. */
  lemma EstimateExact(weights: nat, d: Dims, ctx: nat, kvQuant: string, b: UmaBudget)
    requires weights + 2 * d.layers * d.headsKv * d.headDim * PerElem(kvQuant) * ctx / 32 < I64
    requires Usable(b) < I64
    ensures var (e, kv) :=
        (EstimateFit(weights, d, ctx, kvQuant, b), 2 * d.layers * d.headsKv * d.headDim * PerElem(kvQuant) * ctx / 32);
      && e.kv == kv && e.working == weights + kv && e.headroom == Usable(b) - weights - kv
      && e.maxCtx == MaxCtx(d, Usable(b) - weights, PerElem(kvQuant))
  {
    KvBytesExact(d, ctx, PerElem(kvQuant));
    assert PerToken(d, PerElem(kvQuant)) == 2 * d.layers * d.headsKv * d.headDim * PerElem(kvQuant);
    hide KvBytes, PerElem, PerToken, Usable, MaxCtx;
    var kv := PerToken(d, PerElem(kvQuant)) * ctx / 32;
    DifferenceExact(Usable(b), weights);
    DifferenceExact(Usable(b), weights + kv);
  }

  /** Whatever the sizes, even where a difference wraps: if the estimate offers
      some context, every context up to it is reported with headroom that is not
      negative, and with what is really left when that fits an `i64`. */
  lemma OfferedContextFits(weights: nat, d: Dims, ctx: nat, kvQuant: string, b: UmaBudget)
    requires weights < U64
    requires b.vramTotal < U64 && b.gttTotal < U64 && b.sysAvailable < U64
    ensures var e := EstimateFit(weights, d, ctx, kvQuant, b);
      e.maxCtx > 0 && ctx <= e.maxCtx ==>
        && e.headroom >= 0
        && (-I64 <= Usable(b) - weights < I64 ==> e.headroom == Usable(b) - weights - e.kv)
  {
    var e := EstimateFit(weights, d, ctx, kvQuant, b);
    hide KvBytes, PerElem;
    var budget := WrapSub(AsI64(Usable(b)), AsI64(weights));
    if e.maxCtx > 0 && ctx <= e.maxCtx {
      assert budget > 0;
      WithinBudget(d, budget, PerElem(kvQuant), ctx);
      HeadroomStays(Usable(b), weights, e.kv);
    }
  }

  /** Wrapping cannot turn a budget that covers the cache into lack of headroom. */
  lemma HeadroomStays(usable: nat, weights: nat, kv: nat)
    requires usable < U64 && weights < U64
    requires kv <= WrapSub(AsI64(usable), AsI64(weights))
    ensures var headroom := WrapSub(AsI64(usable), AsI64(SatAdd(weights, kv)));
      headroom >= 0 && (-I64 <= usable - weights < I64 ==> headroom == usable - weights - kv)
  {}

  /** Outside that range the difference wraps: weights of nearly 2^64 bytes are
      reported as fitting ten bytes of memory. */
  lemma HugeWeightsWrap(d: Dims)
    requires d == Dims(1, 1, 1, None)
    ensures var e := EstimateFit(U64 - 1, d, 1, "q8_0", UmaBudget(10, 0, 0, 0, 0));
      e.headroom == 11 && e.maxCtx > 0
  {
    assert Lower("q8_0") == "q8_0";
  }
}
