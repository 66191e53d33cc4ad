/** Exact token pricing (crates/penny-cost/src/lib.rs). */
module Pricing {
  import opened Outcomes
  import opened Amounts

  const HALF: int := 500_000
  const I128_MIN: int := -0x8000_0000_0000_0000_0000_0000_0000_0000
  const I128_MAX: int := 0x7fff_ffff_ffff_ffff_ffff_ffff_ffff_ffff

  type Tokens = n: int | 0 <= n < 0x1_0000_0000_0000_0000

  datatype CostError = PriceNotFound | MoneyOverflow

  datatype Price = Price(input: Money, output: Money, cacheRead: Option<Money>, cacheWrite: Option<Money>)

  /** Integer division that truncates toward zero, as the source's does. */
  function TruncDiv(a: int, b: int): int
    requires b > 0
  {
    if a >= 0 then a / b else -((-a) / b)
  }

  function Rounded(numerator: int): int {
    if numerator >= 0 then TruncDiv(numerator + HALF, SCALE) else TruncDiv(numerator - HALF, SCALE)
  }

  function ProrateMtok(tokens: Tokens, rate: Money): Result<Money, CostError> {
    var micros := Rounded(tokens * rate);
    if InI64(micros) then Ok(micros) else Err(MoneyOverflow)
  }

  /** One side of the bill: a token count at a rate. */
  datatype Part = Part(tokens: Tokens, rate: Money)

  function RateOr(rate: Option<Money>, fallback: Money): Money {
    match rate
    case Some(r) => r
    case None => fallback
  }

  /** The four parts of a request, in billing order. Missing cache rates bill at the input rate. */
  function Parts(price: Price, uncached: Tokens, read: Tokens, write: Tokens, output: Tokens): seq<Part> {
    [Part(uncached, price.input),
     Part(read, RateOr(price.cacheRead, price.input)),
     Part(write, RateOr(price.cacheWrite, price.input)),
     Part(output, price.output)]
  }

  /** The sum of the rounded parts, in exact arithmetic. */
  function RoundedSum(parts: seq<Part>): int {
    if parts == [] then 0
    else RoundedSum(parts[..|parts| - 1]) + Rounded(parts[|parts| - 1].tokens * parts[|parts| - 1].rate)
  }

  /** The sum of the parts in micro-dollars times a million, before any rounding. */
  function ExactSum(parts: seq<Part>): int {
    if parts == [] then 0
    else ExactSum(parts[..|parts| - 1]) + parts[|parts| - 1].tokens * parts[|parts| - 1].rate
  }

  /** Every rounded part, and every sum of the first few, is a 64-bit amount. */
  ghost predicate Representable(parts: seq<Part>) {
    parts == [] ||
    var last := parts[|parts| - 1];
    && Representable(parts[..|parts| - 1])
    && InI64(Rounded(last.tokens * last.rate))
    && InI64(RoundedSum(parts))
  }

  lemma {:induction false} PrefixIsRepresentable(parts: seq<Part>, n: nat)
    requires n <= |parts| && Representable(parts)
    ensures Representable(parts[..n])
    decreases |parts|
  {
    if n < |parts| {
      assert parts[..|parts| - 1][..n] == parts[..n];
      PrefixIsRepresentable(parts[..|parts| - 1], n);
    } else {
      assert parts[..n] == parts;
    }
  }

  /** `price` is the pricebook row in force, or `None` when the model has none. */
  method CalculateWithCache(price: Option<Price>, uncached: Tokens, read: Tokens, write: Tokens, output: Tokens)
    returns (r: Result<Money, CostError>)
    ensures if uncached == 0 && read == 0 && write == 0 && output == 0 then r == Ok(0)
            else if price.None? then r == Err(PriceNotFound)
            else
              var parts := Parts(price.value, uncached, read, write, output);
              r == if Representable(parts) then Ok(RoundedSum(parts)) else Err(MoneyOverflow)
    ensures r.Ok? && price.Some? ==>
              var readRate := if price.value.cacheRead.Some? then price.value.cacheRead.value else price.value.input;
              var writeRate := if price.value.cacheWrite.Some? then price.value.cacheWrite.value else price.value.input;
              var exact := uncached * price.value.input + read * readRate + write * writeRate + output * price.value.output;
              exact - 2 * SCALE <= r.value * SCALE <= exact + 2 * SCALE
  {
    if uncached == 0 && read == 0 && write == 0 && output == 0 {
      return Ok(0);
    }
    if price.None? {
      return Err(PriceNotFound);
    }
    r := AddParts(price.value, uncached, read, write, output);
    CostIsWithinTwoMicros(price.value, uncached, read, write, output);
  }

  method AddParts(price: Price, uncached: Tokens, read: Tokens, write: Tokens, output: Tokens)
    returns (r: Result<Money, CostError>)
    ensures var parts := Parts(price, uncached, read, write, output);
            r == if Representable(parts) then Ok(RoundedSum(parts)) else Err(MoneyOverflow)
  {
    ghost var parts := Parts(price, uncached, read, write, output);
    var readRate := RateOr(price.cacheRead, price.input);
    var writeRate := RateOr(price.cacheWrite, price.input);
    var first := ProrateMtok(uncached, price.input);
    var rest := [Part(read, readRate), Part(write, writeRate), Part(output, price.output)];
    assert parts[1..] == rest;
    FirstPart(parts);
    if first.Err? {
      CannotRepresent(parts, 1);
      return first;
    }
    var total := first.value;
    for i := 0 to |rest|
      invariant Representable(parts[..i + 1]) && total == RoundedSum(parts[..i + 1])
    {
      assert parts[..i + 2][..i + 1] == parts[..i + 1] && rest[i] == parts[i + 1];
      var cost := ProrateMtok(rest[i].tokens, rest[i].rate);
      if cost.Err? {
        CannotRepresent(parts, i + 2);
        return cost;
      }
      var sum := CheckedAdd(total, cost.value);
      if sum.None? {
        CannotRepresent(parts, i + 2);
        return Err(MoneyOverflow);
      }
      total := sum.value;
    }
    assert parts[..4] == parts;
    r := Ok(total);
  }

  lemma FirstPart(parts: seq<Part>)
    requires parts != []
    ensures var cost := Rounded(parts[0].tokens * parts[0].rate);
            RoundedSum(parts[..1]) == cost && (Representable(parts[..1]) <==> InI64(cost))
  {
    var one := parts[..1];
    assert one[..0] == [];
    assert Representable(one[..0]);
  }

  lemma CannotRepresent(parts: seq<Part>, n: nat)
    requires n <= |parts| && !Representable(parts[..n])
    ensures !Representable(parts)
  {
    if Representable(parts) {
      PrefixIsRepresentable(parts, n);
    }
  }

  // ---------------------------------------------------------------- rounding

  /** Rounding picks the nearest micro, and away from zero on a tie. */
  lemma RoundsHalfAwayFromZero(numerator: int)
    ensures var r := Rounded(numerator);
            && numerator - HALF <= r * SCALE <= numerator + HALF
            && (numerator > 0 ==> r * SCALE > numerator - HALF)
            && (numerator < 0 ==> r * SCALE < numerator + HALF)
  {
  }

  lemma ProductBounds(tokens: Tokens, rate: Money)
    ensures -0x8000_0000_0000_0000 * 0xffff_ffff_ffff_ffff <= tokens * rate
    ensures tokens * rate <= 0x7fff_ffff_ffff_ffff * 0xffff_ffff_ffff_ffff
  {
    assert InI64(rate);
    ProductWithin(tokens, 0xffff_ffff_ffff_ffff, -0x8000_0000_0000_0000, rate, 0x7fff_ffff_ffff_ffff);
  }

  lemma ProductWithin(n: int, most: int, low: int, x: int, high: int)
    requires 0 <= n <= most && low <= x <= high && low <= 0 <= high
    ensures low * most <= n * x <= high * most
  {
    assert n * (high - x) >= 0 && n * (x - low) >= 0;
    assert (most - n) * high >= 0 && (most - n) * (0 - low) >= 0;
  }

  /** The product and both rounding adjustments fit the 128-bit intermediate for every token count
      and every rate. */
  lemma ProrationNeverOverflowsI128(tokens: Tokens, rate: Money)
    ensures I128_MIN <= tokens * rate - HALF && tokens * rate + HALF <= I128_MAX
  {
    ProductBounds(tokens, rate);
  }

  lemma RoundingIsMonotone(a: int, b: int)
    requires a <= b
    ensures Rounded(a) <= Rounded(b)
  {
  }

  /** More tokens never cost less, for any non-negative rate. */
  lemma ProrationIsMonotone(fewer: Tokens, more: Tokens, rate: Money)
    requires fewer <= more && rate >= 0
    ensures Rounded(fewer * rate) <= Rounded(more * rate)
  {
    assert (more - fewer) * rate >= 0;
    RoundingIsMonotone(fewer * rate, more * rate);
  }

  /** A refund at the negated rate cancels the charge exactly. */
  lemma ProrationIsOdd(tokens: Tokens, rate: Money)
    ensures Rounded(tokens * (0 - rate)) == 0 - Rounded(tokens * rate)
  {
    assert tokens * (0 - rate) == -(tokens * rate);
  }

  lemma {:induction false} RoundingErrorOfSum(parts: seq<Part>)
    ensures ExactSum(parts) - HALF * |parts| <= RoundedSum(parts) * SCALE <= ExactSum(parts) + HALF * |parts|
  {
    if parts != [] {
      RoundingErrorOfSum(parts[..|parts| - 1]);
      RoundsHalfAwayFromZero(parts[|parts| - 1].tokens * parts[|parts| - 1].rate);
    }
  }

  /** A four-part cost is within two micros of the exact price: fresh input and output at their own rates,
      cache reads and cache writes at theirs, or at the input rate where the price has none. */
  lemma CostIsWithinTwoMicros(price: Price, uncached: Tokens, read: Tokens, write: Tokens, output: Tokens)
    ensures var readRate := if price.cacheRead.Some? then price.cacheRead.value else price.input;
            var writeRate := if price.cacheWrite.Some? then price.cacheWrite.value else price.input;
            var exact := uncached * price.input + read * readRate + write * writeRate + output * price.output;
            exact - 2 * SCALE <= RoundedSum(Parts(price, uncached, read, write, output)) * SCALE <= exact + 2 * SCALE
  {
    RoundingErrorOfSum(Parts(price, uncached, read, write, output));
    FourTerms(Parts(price, uncached, read, write, output));
  }

  lemma OneMorePart(parts: seq<Part>, n: nat)
    requires n < |parts|
    ensures ExactSum(parts[..n + 1]) == ExactSum(parts[..n]) + parts[n].tokens * parts[n].rate
    ensures RoundedSum(parts[..n + 1]) == RoundedSum(parts[..n]) + Rounded(parts[n].tokens * parts[n].rate)
    ensures Representable(parts[..n + 1])
            <==> Representable(parts[..n]) && InI64(Rounded(parts[n].tokens * parts[n].rate))
                 && InI64(RoundedSum(parts[..n + 1]))
  {
    assert parts[..n + 1][..n] == parts[..n];
  }

  lemma FourTerms(parts: seq<Part>)
    requires |parts| == 4
    ensures ExactSum(parts) == parts[0].tokens * parts[0].rate + parts[1].tokens * parts[1].rate
                               + parts[2].tokens * parts[2].rate + parts[3].tokens * parts[3].rate
  {
    OneMorePart(parts, 0);
    OneMorePart(parts, 1);
    OneMorePart(parts, 2);
    OneMorePart(parts, 3);
    assert parts[..4] == parts && parts[..0] == [];
  }

  /** The amount is the nearest micro to the numerator, away from zero on a tie. */
  predicate IsNearest(micros: int, numerator: int) {
    && numerator - HALF <= micros * SCALE <= numerator + HALF
    && (numerator > 0 ==> micros * SCALE > numerator - HALF)
    && (numerator < 0 ==> micros * SCALE < numerator + HALF)
  }

  lemma RoundedIsNearest(micros: int, numerator: int)
    ensures IsNearest(micros, numerator) <==> micros == Rounded(numerator)
  {
    RoundsHalfAwayFromZero(numerator);
  }

  /** The bill of a request: each part is its exact price rounded to the nearest micro, the total is their
      sum, and the calculation overflows exactly when a part or the sum of the first few leaves 64 bits. */
  lemma BillIsExact(price: Price, uncached: Tokens, read: Tokens, write: Tokens, output: Tokens)
    returns (forInput: int, forReads: int, forWrites: int, forOutput: int)
    ensures var readRate := if price.cacheRead.Some? then price.cacheRead.value else price.input;
            var writeRate := if price.cacheWrite.Some? then price.cacheWrite.value else price.input;
            && IsNearest(forInput, uncached * price.input) && IsNearest(forReads, read * readRate)
            && IsNearest(forWrites, write * writeRate) && IsNearest(forOutput, output * price.output)
    ensures RoundedSum(Parts(price, uncached, read, write, output)) == forInput + forReads + forWrites + forOutput
    ensures Representable(Parts(price, uncached, read, write, output))
            <==> InI64(forInput) && InI64(forReads) && InI64(forWrites) && InI64(forOutput)
                 && InI64(forInput + forReads) && InI64(forInput + forReads + forWrites)
                 && InI64(forInput + forReads + forWrites + forOutput)
  {
    var parts := Parts(price, uncached, read, write, output);
    forInput, forReads := Rounded(parts[0].tokens * parts[0].rate), Rounded(parts[1].tokens * parts[1].rate);
    forWrites, forOutput := Rounded(parts[2].tokens * parts[2].rate), Rounded(parts[3].tokens * parts[3].rate);
    RoundedIsNearest(forInput, parts[0].tokens * parts[0].rate);
    RoundedIsNearest(forReads, parts[1].tokens * parts[1].rate);
    RoundedIsNearest(forWrites, parts[2].tokens * parts[2].rate);
    RoundedIsNearest(forOutput, parts[3].tokens * parts[3].rate);
    FourAreRepresentable(parts, forInput, forReads, forWrites, forOutput);
  }

  lemma FourAreRepresentable(parts: seq<Part>, w: int, x: int, y: int, z: int)
    requires |parts| == 4
    requires w == Rounded(parts[0].tokens * parts[0].rate) && x == Rounded(parts[1].tokens * parts[1].rate)
    requires y == Rounded(parts[2].tokens * parts[2].rate) && z == Rounded(parts[3].tokens * parts[3].rate)
    ensures RoundedSum(parts) == w + x + y + z
    ensures Representable(parts)
            <==> InI64(w) && InI64(x) && InI64(y) && InI64(z)
                 && InI64(w + x) && InI64(w + x + y) && InI64(w + x + y + z)
  {
    OneMorePart(parts, 0);
    OneMorePart(parts, 1);
    OneMorePart(parts, 2);
    OneMorePart(parts, 3);
    assert parts[..4] == parts && parts[..0] == [];
  }

  /** Tokens of one kind alone cost what their own rate makes of them, to the nearest micro. */
  lemma OneKindIsPricedAtItsRate(price: Price, tokens: Tokens)
    ensures IsNearest(RoundedSum(Parts(price, tokens, 0, 0, 0)), tokens * price.input)
    ensures IsNearest(RoundedSum(Parts(price, 0, tokens, 0, 0)),
                      tokens * if price.cacheRead.Some? then price.cacheRead.value else price.input)
    ensures IsNearest(RoundedSum(Parts(price, 0, 0, tokens, 0)),
                      tokens * if price.cacheWrite.Some? then price.cacheWrite.value else price.input)
    ensures IsNearest(RoundedSum(Parts(price, 0, 0, 0, tokens)), tokens * price.output)
  {
    OneOfFour(Parts(price, tokens, 0, 0, 0), 0);
    OneOfFour(Parts(price, 0, tokens, 0, 0), 1);
    OneOfFour(Parts(price, 0, 0, tokens, 0), 2);
    OneOfFour(Parts(price, 0, 0, 0, tokens), 3);
  }

  lemma OneOfFour(parts: seq<Part>, k: nat)
    requires k < |parts| == 4 && forall i :: 0 <= i < 4 && i != k ==> parts[i].tokens == 0
    ensures IsNearest(RoundedSum(parts), parts[k].tokens * parts[k].rate)
  {
    forall i | 0 <= i < 4 && i != k
      ensures Rounded(parts[i].tokens * parts[i].rate) == 0
    {
      assert parts[i].tokens * parts[i].rate == 0;
    }
    FourAreRepresentable(parts, Rounded(parts[0].tokens * parts[0].rate), Rounded(parts[1].tokens * parts[1].rate),
                         Rounded(parts[2].tokens * parts[2].rate), Rounded(parts[3].tokens * parts[3].rate));
    RoundedIsNearest(RoundedSum(parts), parts[k].tokens * parts[k].rate);
  }

  /** Without cache rates, splitting the input tokens into uncached, read and written ones changes the
      price by at most one micro against pricing them together, whatever the sign of the rate. */
  lemma SplittingInputCostsAtMostOneMicro(uncached: Tokens, read: Tokens, write: Tokens, rate: Money)
    ensures var split := Rounded(uncached * rate) + Rounded(read * rate) + Rounded(write * rate);
            var joint := Rounded((uncached + read + write) * rate);
            -1 <= split - joint <= 1
  {
    var a, b, c := uncached * rate, read * rate, write * rate;
    assert (uncached + read + write) * rate == a + b + c;
    ProductSign(uncached, rate);
    ProductSign(read, rate);
    ProductSign(write, rate);
    SplitRounding(a, b, c);
  }

  lemma ProductSign(tokens: Tokens, rate: Money)
    ensures rate >= 0 ==> tokens * rate >= 0
    ensures rate <= 0 ==> tokens * rate <= 0
  {
  }

  lemma SplitRounding(a: int, b: int, c: int)
    requires (a >= 0 && b >= 0 && c >= 0) || (a <= 0 && b <= 0 && c <= 0)
    ensures -1 <= Rounded(a) + Rounded(b) + Rounded(c) - Rounded(a + b + c) <= 1
  {
    RoundsHalfAwayFromZero(a);
    RoundsHalfAwayFromZero(b);
    RoundsHalfAwayFromZero(c);
    RoundsHalfAwayFromZero(a + b + c);
  }
}
