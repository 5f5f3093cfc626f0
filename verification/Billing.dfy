/** BillingService: the price of a request, and its value in prompt tokens. */
module Billing {
  import opened Common
  import opened Decimals
  import opened Division

  /** Prices per thousand tokens. */
  datatype Pricing = Pricing(prompt: Decimal, completion: Decimal, cacheRead: Decimal, cacheWrite: Decimal)

  datatype TokenCounts = TokenCounts(input: int, output: int, cacheRead: int, cacheCreation: int)

  function PriceOf(price: Decimal, tokens: int): Decimal {
    Div(Mul(price, FromInt(tokens)), FromInt(1000))
  }

  function UncachedInput(n: TokenCounts): int {
    Max(n.input - n.cacheRead, 0)
  }

  /** The cost computation shared by CalculateCost and CalculateEquivalentTokens. */
  function UsageCost(m: Pricing, n: TokenCounts): Decimal {
    var uncached := PriceOf(m.prompt, UncachedInput(n));
    var withRead :=
      if n.cacheRead > 0 && m.cacheRead.units != 0 then Add(uncached, PriceOf(m.cacheRead, n.cacheRead))
      else if n.cacheRead > 0 then Add(uncached, PriceOf(m.prompt, n.cacheRead))
      else uncached;
    var withWrite :=
      if n.cacheCreation > 0 && m.cacheWrite.units != 0 then Add(withRead, PriceOf(m.cacheWrite, n.cacheCreation))
      else if n.cacheCreation > 0 then Add(withRead, PriceOf(m.prompt, n.cacheCreation))
      else withRead;
    Add(withWrite, PriceOf(m.completion, n.output))
  }

  /** None when the model has no pricing row. */
  function CalculateCost(m: Option<Pricing>, n: TokenCounts): Option<Decimal> {
    if m == None then None else Some(UsageCost(m.value, n))
  }

  function CalculateEquivalentTokens(m: Option<Pricing>, n: TokenCounts): int {
    if m == None then n.input + n.output
    else if m.value.prompt.units != 0 then
      IntPart(Mul(Div(UsageCost(m.value, n), m.value.prompt), FromInt(1000)))
    else n.input + n.output
  }

  // ------------------------------------------------- exact integer reference

  /** Stored prices have at most six decimal places. */
  predicate OnGrid(price: Decimal) { price.scale <= 6 }

  predicate PricesOnGrid(m: Pricing) {
    OnGrid(m.prompt) && OnGrid(m.completion) && OnGrid(m.cacheRead) && OnGrid(m.cacheWrite)
  }

  /** A price in units of 10^-6. */
  function Micro(price: Decimal): int
    requires OnGrid(price)
  {
    price.units * Pow10(6 - price.scale)
  }

  /** Cost in units of 10^-9: each token class at its own rate, cached classes at
      the prompt rate when they have none. */
  function MicroCost(m: Pricing, n: TokenCounts): int
    requires PricesOnGrid(m)
  {
    var readRate := Micro(if m.cacheRead.units != 0 then m.cacheRead else m.prompt);
    var writeRate := Micro(if m.cacheWrite.units != 0 then m.cacheWrite else m.prompt);
    Micro(m.prompt) * Max(n.input - n.cacheRead, 0)
    + readRate * Max(n.cacheRead, 0)
    + writeRate * Max(n.cacheCreation, 0)
    + Micro(m.completion) * n.output
  }

  const TEN_TO_7: int := 10_000_000
  const TEN_TO_13: int := 10_000_000_000_000

  lemma Powers()
    ensures Pow10(3) == 1000 && Pow10(6) == 1_000_000 && Pow10(13) == TEN_TO_13 && Pow10(16) == TEN_TO_13 * 1000
  {
    Pow10Add(3, 3);
    Pow10Add(6, 6);
    Pow10Add(12, 1);
    Pow10Add(13, 3);
  }

  /** The number c * 10^-9 at the scale divisions produce. */
  function AtScale16(c: int): Decimal { Decimal(c * TEN_TO_7, 16) }

  lemma Regroup(u: int, t: int, a: int, b: int)
    requires a * b == 1_000_000
    ensures (u * t) * (TEN_TO_13 * 1000) == (((u * b) * t) * TEN_TO_7) * (1000 * a)
  {
    calc {
      (((u * b) * t) * TEN_TO_7) * (1000 * a);
      ((u * t) * b) * (TEN_TO_7 * 1000 * a);
      ((u * t) * (a * b)) * (TEN_TO_7 * 1000);
      (u * t) * (TEN_TO_13 * 1000);
    }
  }

  lemma PriceIsExact(price: Decimal, tokens: int)
    requires OnGrid(price)
    ensures PriceOf(price, tokens) == AtScale16(Micro(price) * tokens)
  {
    var s := price.scale;
    Powers();
    Pow10Add(s, 6 - s);
    Regroup(price.units, tokens, Pow10(s), Pow10(6 - s));
    RoundDivExact(Micro(price) * tokens * TEN_TO_7, 1000 * Pow10(s));
  }

  lemma AddAtScale16(a: int, b: int)
    ensures Add(AtScale16(a), AtScale16(b)) == AtScale16(a + b)
  {
  }

  /** No rounding happens in the cost: all six branches together compute the
      exact sum over the four token classes. */
  lemma CostIsExact(m: Pricing, n: TokenCounts)
    requires PricesOnGrid(m)
    ensures UsageCost(m, n) == AtScale16(MicroCost(m, n))
  {
    var read := if m.cacheRead.units != 0 then m.cacheRead else m.prompt;
    var write := if m.cacheWrite.units != 0 then m.cacheWrite else m.prompt;
    var a := Micro(m.prompt) * UncachedInput(n);
    var b := Micro(read) * n.cacheRead;
    var c := Micro(write) * n.cacheCreation;
    var d := Micro(m.completion) * n.output;
    PriceIsExact(m.prompt, UncachedInput(n));
    PriceIsExact(read, n.cacheRead);
    PriceIsExact(write, n.cacheCreation);
    PriceIsExact(m.completion, n.output);
    var ab := if n.cacheRead > 0 then a + b else a;
    var abc := if n.cacheCreation > 0 then ab + c else ab;
    AddAtScale16(a, b);
    AddAtScale16(ab, c);
    AddAtScale16(abc, d);
  }

  lemma RegroupQuotient(c: int, a: int, b: int, k: int)
    requires a * b == 1_000_000
    ensures (c * TEN_TO_7) * (k * a) == ((c * TEN_TO_7) * a) * k
    ensures ((c * TEN_TO_7) * a) * b == c * TEN_TO_13
  {
    Times3(c * TEN_TO_7, a, b);
    Times3(c * TEN_TO_7, k, a);
    Times3(c * TEN_TO_7, a, k);
  }

  /** The conversion in integers: the rounded quotient of the cost by the prompt
      price, cut back to whole tokens. */
  lemma EquivalentTokensInIntegers(m: Pricing, n: TokenCounts)
    requires PricesOnGrid(m) && m.prompt.units != 0
    ensures Micro(m.prompt) != 0
    ensures CalculateEquivalentTokens(Some(m), n) ==
            Quot(RoundDiv(MicroCost(m, n) * TEN_TO_13, Micro(m.prompt)), TEN_TO_13)
  {
    var c, u, s := MicroCost(m, n), m.prompt.units, m.prompt.scale;
    var a, b, k := Pow10(s), Pow10(6 - s), Pow10(16);
    CostIsExact(m, n);
    Powers();
    Pow10Add(16, s);
    Pow10Add(s, 6 - s);
    NonZeroProduct(u, b);
    RegroupQuotient(c, a, b, k);
    RoundDivCancel((c * TEN_TO_7) * a, u, k);
    RoundDivCancel((c * TEN_TO_7) * a, u, b);
    ThousandCancels(RoundDiv(c * TEN_TO_13, Micro(m.prompt)));
  }

  lemma ThousandCancels(r: int)
    ensures IntPart(Mul(Decimal(r, 16), FromInt(1000))) == Quot(r, TEN_TO_13)
  {
    Powers();
    var a := Abs(r);
    AbsProduct(r, 1000);
    DivModOf(a * 1000, a / TEN_TO_13, TEN_TO_13 * 1000, (a % TEN_TO_13) * 1000);
  }

  /** The value in whole prompt tokens is exact unless the cost lies within half
      of 10^-13 of a prompt price below the next whole token; then it is one too
      large. */
  lemma EquivalentTokensExactly(m: Pricing, n: TokenCounts)
    requires PricesOnGrid(m) && m.prompt.units != 0
    ensures Micro(m.prompt) != 0
    ensures var c, p := MicroCost(m, n), Micro(m.prompt);
      var next := 2 * ((Abs(p) - Abs(c) % Abs(p)) * TEN_TO_13) <= Abs(p);
      CalculateEquivalentTokens(Some(m), n) == Signed(c, p, Abs(c) / Abs(p) + if next then 1 else 0)
  {
    var c, p := MicroCost(m, n), Micro(m.prompt);
    EquivalentTokensInIntegers(m, n);
    AbsProduct(c, TEN_TO_13);
    QuotSigned(c * TEN_TO_13, p, RoundUp(Abs(c) * TEN_TO_13, Abs(p)), TEN_TO_13);
    RoundThenTruncate(Abs(c), Abs(p), TEN_TO_13);
  }

  /** Rounding is harmless for every price a decimal(10,6) column can hold: the
      result is the exact integer quotient of cost by prompt price. */
  lemma EquivalentTokensAreExact(m: Pricing, n: TokenCounts)
    requires PricesOnGrid(m) && m.prompt.units != 0
    requires Abs(Micro(m.prompt)) < 10_000_000_000
    ensures Micro(m.prompt) != 0
    ensures CalculateEquivalentTokens(Some(m), n) == Quot(MicroCost(m, n), Micro(m.prompt))
  {
    var c, p := Abs(MicroCost(m, n)), Abs(Micro(m.prompt));
    EquivalentTokensExactly(m, n);
    assert (p - c % p) * TEN_TO_13 >= TEN_TO_13;
  }

  /** Plain prompt tokens convert to themselves. */
  lemma PromptTokensAreTheirOwnValue(m: Pricing, input: nat)
    requires PricesOnGrid(m) && m.prompt.units != 0
    requires Abs(Micro(m.prompt)) < 10_000_000_000
    ensures CalculateEquivalentTokens(Some(m), TokenCounts(input, 0, 0, 0)) == input
  {
    var n := TokenCounts(input, 0, 0, 0);
    EquivalentTokensAreExact(m, n);
    WholeQuotient(Micro(m.prompt), input);
  }

  lemma WholeQuotient(p: int, n: nat)
    requires p != 0
    ensures Quot(p * n, p) == n
  {
    if n > 0 {
      AbsProduct(p, n);
    }
    DivModOf(Abs(p * n), n, Abs(p), 0);
  }

  /** Without a pricing row there is no cost. With one, the cost is the exact sum
      over the four token classes. */
  lemma CostIsKnownExactlyWithPricing(m: Option<Pricing>, n: TokenCounts)
    requires m.Some? ==> PricesOnGrid(m.value)
    ensures CalculateCost(m, n) == match m case None => None case Some(pricing) => Some(AtScale16(MicroCost(pricing, n)))
  {
    if m.Some? {
      CostIsExact(m.value, n);
    }
  }

  /** Where there is no prompt price to divide by, input and output tokens count
      as they are, and cached ones not at all. */
  lemma UnpricedTokensCountPlainly(m: Option<Pricing>, n: TokenCounts)
    requires m == None || m.value.prompt.units == 0
    ensures CalculateEquivalentTokens(m, n) == n.input + n.output
  {
  }

  /** That is their value for a model whose input and output cost the same, in a
      request without cached tokens. */
  lemma PlainTokensAreTheirOwnValue(m: Pricing, input: nat, output: nat)
    requires PricesOnGrid(m) && m.prompt.units != 0 && Abs(Micro(m.prompt)) < 10_000_000_000
    requires m.completion == m.prompt
    ensures CalculateEquivalentTokens(Some(m), TokenCounts(input, output, 0, 0)) ==
            CalculateEquivalentTokens(None, TokenCounts(input, output, 0, 0))
  {
    EquivalentTokensAreExact(m, TokenCounts(input, output, 0, 0));
    PlainCost(m, input, output);
    WholeQuotient(Micro(m.prompt), input + output);
  }

  lemma PlainCost(m: Pricing, input: nat, output: nat)
    requires PricesOnGrid(m) && m.completion == m.prompt
    ensures MicroCost(m, TokenCounts(input, output, 0, 0)) == Micro(m.prompt) * (input + output)
  {
    var p := Micro(m.prompt);
    assert p * (input + output) == p * input + p * output;
  }
}
