/** The cost of one request in units of 1e-8 USD, its rounding error over many requests, and the price table. */
module CostCalculator {
  datatype PricingEntry = PricingEntry(provider: string, model: string, inputPerMTok: real, outputPerMTok: real,
                                       cacheDiscount: real, batchDiscount: real, fineTunePremium: real)

  datatype Options = Options(cacheHit: bool, isBatch: bool, isFineTuned: bool)

  /** total is in units of 1e-8 USD, the other amounts in USD. */
  datatype Cost = Cost(total: int, inputCost: real, outputCost: real, adjustments: real)

  datatype Request = Request(input: int, output: int, price: PricingEntry, options: Options)

  const UNITS_PER_USD := 100_000_000.0

  /** math.Round: to the nearest integer, halves away from zero. */
  function Round(x: real): int {
    if x >= 0.0 then (x + 0.5).Floor else -((-x + 0.5).Floor)
  }

  function PerMTok(tokens: int, price: real): real {
    tokens as real / 1_000_000.0 * price
  }

  function Discount(p: PricingEntry, o: Options): real {
    (if o.cacheHit then p.cacheDiscount else 0.0) + (if o.isBatch then p.batchDiscount else 0.0)
  }

  /** What the premium adds; the breakdown has no field for it. */
  function FineTune(r: Request): real {
    if r.options.isFineTuned then PerMTok(r.input + r.output, r.price.fineTunePremium) else 0.0
  }

  function Base(r: Request): real {
    PerMTok(r.input, r.price.inputPerMTok) + PerMTok(r.output, r.price.outputPerMTok) + FineTune(r)
  }

  /** A discounted amount of USD in units. */
  function InUnits(usd: real, discount: real): real {
    usd * (1.0 - discount) * UNITS_PER_USD
  }

  /** The unrounded cost in units. */
  function Exact(r: Request): real {
    InUnits(Base(r), Discount(r.price, r.options))
  }

  function Calculate(r: Request): Cost {
    Cost(Round(Exact(r)), PerMTok(r.input, r.price.inputPerMTok), PerMTok(r.output, r.price.outputPerMTok),
         -(Base(r) * Discount(r.price, r.options)))
  }

  // ----- What the amounts mean

  /** A million tokens of one kind cost their listed price; fine-tuning adds its premium. */
  lemma MillionTokens(p: PricingEntry, o: Options)
    ensures Base(Request(1_000_000, 0, p, o)) == p.inputPerMTok + if o.isFineTuned then p.fineTunePremium else 0.0
    ensures Base(Request(0, 1_000_000, p, o)) == p.outputPerMTok + if o.isFineTuned then p.fineTunePremium else 0.0
  {
  }

  /** A cache hit takes off the cache discount, a batch the batch discount, both their sum. */
  lemma DiscountsScale(r: Request)
    ensures
      var full := Exact(r.(options := r.options.(cacheHit := false, isBatch := false)));
      var c, b := r.price.cacheDiscount, r.price.batchDiscount;
      Exact(r) == if r.options.cacheHit && r.options.isBatch then full * (1.0 - c - b)
                  else if r.options.cacheHit then full * (1.0 - c)
                  else if r.options.isBatch then full * (1.0 - b) else full
  {
    var full := Exact(r.(options := r.options.(cacheHit := false, isBatch := false)));
    var k := 1.0 - Discount(r.price, r.options);
    assert full == Base(r) * UNITS_PER_USD;
    Commutes(Base(r), k, UNITS_PER_USD);
  }

  lemma Commutes(a: real, k: real, u: real)
    ensures a * k * u == a * u * k
  {
  }

  /** With the premium the breakdown adds up to the total within half a unit; each part is of its own tokens. */
  lemma BreakdownAddsUp(r: Request)
    ensures
      var c := Calculate(r);
      && -0.5 <= c.total as real - (c.inputCost + c.outputCost + FineTune(r) + c.adjustments) * UNITS_PER_USD <= 0.5
      && (r.output == 0 ==> c.outputCost == 0.0 && c.inputCost + FineTune(r) == Base(r))
      && (r.input == 0 ==> c.inputCost == 0.0 && c.outputCost + FineTune(r) == Base(r))
  {
    var d := Discount(r.price, r.options);
    assert Base(r) * (1.0 - d) == Base(r) + -(Base(r) * d);
    RoundError(Exact(r));
  }

  // ----- Rounding

  lemma RoundError(x: real)
    ensures -0.5 <= Round(x) as real - x <= 0.5
  {
  }

  /** A half unit goes away from zero. */
  lemma RoundHalf(n: nat)
    ensures Round(n as real + 0.5) == n + 1 && Round(-(n as real + 0.5)) == -(n + 1)
  {
  }

  lemma RoundMonotone(x: real, y: real)
    requires x <= y
    ensures Round(x) <= Round(y)
  {
  }

  function Billed(rs: seq<Request>): int {
    if rs == [] then 0 else Billed(rs[..|rs| - 1]) + Calculate(rs[|rs| - 1]).total
  }

  function ExactSum(rs: seq<Request>): real {
    if rs == [] then 0.0 else ExactSum(rs[..|rs| - 1]) + Exact(rs[|rs| - 1])
  }

  /** The bill for n requests is within n/2 units of the exact amount. */
  lemma {:induction false} BillError(rs: seq<Request>)
    ensures -(|rs| as real) <= 2.0 * (Billed(rs) as real - ExactSum(rs)) <= |rs| as real
  {
    if rs != [] {
      BillError(rs[..|rs| - 1]);
      RoundError(Exact(rs[|rs| - 1]));
    }
  }

  lemma PerMTokAdds(a: int, b: int, price: real)
    ensures PerMTok(a + b, price) == PerMTok(a, price) + PerMTok(b, price)
  {
    assert (a + b) as real / 1_000_000.0 == a as real / 1_000_000.0 + b as real / 1_000_000.0;
  }

  lemma BaseAdds(r: Request, input: int, output: int)
    ensures Base(r) == Base(r.(input := input, output := output))
                       + Base(r.(input := r.input - input, output := r.output - output))
  {
    PerMTokAdds(input, r.input - input, r.price.inputPerMTok);
    PerMTokAdds(output, r.output - output, r.price.outputPerMTok);
    PerMTokAdds(input + output, r.input - input + r.output - output, r.price.fineTunePremium);
    assert input + output + (r.input - input + r.output - output) == r.input + r.output;
    assert r.input - input + r.output - output == (r.input - input) + (r.output - output);
  }

  lemma InUnitsAdds(a: real, b: real, discount: real)
    ensures InUnits(a + b, discount) == InUnits(a, discount) + InUnits(b, discount)
  {
    var k := 1.0 - discount;
    assert (a + b) * k == a * k + b * k;
  }

  /** Splitting one request into two changes the bill by at most one unit. */
  lemma SplitChangesOneUnit(r: Request, input: int, output: int)
    ensures
      var r1, r2 := r.(input := input, output := output), r.(input := r.input - input, output := r.output - output);
      -1 <= Calculate(r1).total + Calculate(r2).total - Calculate(r).total <= 1
  {
    var r1, r2 := r.(input := input, output := output), r.(input := r.input - input, output := r.output - output);
    BaseAdds(r, input, output);
    InUnitsAdds(Base(r1), Base(r2), Discount(r.price, r.options));
    RoundError(Exact(r1));
    RoundError(Exact(r2));
    RoundError(Exact(r));
  }

  // ----- Signs and monotonicity

  predicate PricesNonNegative(p: PricingEntry) {
    p.inputPerMTok >= 0.0 && p.outputPerMTok >= 0.0 && p.fineTunePremium >= 0.0
  }

  predicate DiscountsSane(p: PricingEntry) {
    p.cacheDiscount >= 0.0 && p.batchDiscount >= 0.0 && p.cacheDiscount + p.batchDiscount <= 1.0
  }

  lemma PerMTokMonotone(a: int, b: int, price: real)
    requires a <= b && price >= 0.0
    ensures PerMTok(a, price) <= PerMTok(b, price)
  {
    var d := b as real / 1_000_000.0 - a as real / 1_000_000.0;
    assert d >= 0.0;
    assert d * price >= 0.0;
    assert PerMTok(b, price) == PerMTok(a, price) + d * price;
  }

  lemma BaseMonotone(r: Request, s: Request)
    requires s.price == r.price && s.options == r.options && PricesNonNegative(r.price)
    requires r.input <= s.input && r.output <= s.output
    ensures Base(r) <= Base(s)
  {
    PerMTokMonotone(r.input, s.input, r.price.inputPerMTok);
    PerMTokMonotone(r.output, s.output, r.price.outputPerMTok);
    PerMTokMonotone(r.input + r.output, s.input + s.output, r.price.fineTunePremium);
  }

  lemma BaseNonNegative(r: Request)
    requires r.input >= 0 && r.output >= 0 && PricesNonNegative(r.price)
    ensures Base(r) >= 0.0
  {
    BaseMonotone(r.(input := 0, output := 0), r);
    assert Base(r.(input := 0, output := 0)) == 0.0;
  }

  lemma InUnitsMonotone(a: real, b: real, discount: real)
    requires a <= b && discount <= 1.0
    ensures InUnits(a, discount) <= InUnits(b, discount)
  {
    InUnitsAdds(a, b - a, discount);
    InUnitsSign(b - a, discount);
  }

  lemma InUnitsAntitone(usd: real, discount: real, larger: real)
    requires usd >= 0.0 && discount <= larger
    ensures InUnits(usd, larger) <= InUnits(usd, discount)
  {
    var k, k' := 1.0 - larger, 1.0 - discount;
    assert usd * (k' - k) >= 0.0;
    assert usd * (k' - k) == usd * k' - usd * k;
  }

  /** A positive amount stays non-negative exactly when the discount is at most 1. */
  lemma InUnitsSign(usd: real, discount: real)
    requires usd >= 0.0
    ensures discount <= 1.0 ==> InUnits(usd, discount) >= 0.0
    ensures discount > 1.0 && usd > 0.0 ==> InUnits(usd, discount) < 0.0
  {
    var k := 1.0 - discount;
    if k >= 0.0 {
      assert usd * k >= 0.0;
    } else if usd > 0.0 {
      assert usd * k < 0.0;
    }
  }

  /** More tokens never cost less. */
  lemma MonotoneInTokens(r: Request, s: Request)
    requires s.price == r.price && s.options == r.options
    requires PricesNonNegative(r.price) && DiscountsSane(r.price)
    requires r.input <= s.input && r.output <= s.output
    ensures Calculate(r).total <= Calculate(s).total
  {
    BaseMonotone(r, s);
    InUnitsMonotone(Base(r), Base(s), Discount(r.price, r.options));
    RoundMonotone(Exact(r), Exact(s));
  }

  /** A larger discount never costs more. */
  lemma AntitoneInDiscount(r: Request, s: Request)
    requires s.input == r.input && s.output == r.output && Base(s) == Base(r)
    requires r.input >= 0 && r.output >= 0 && PricesNonNegative(r.price)
    requires Discount(r.price, r.options) <= Discount(s.price, s.options)
    ensures Calculate(s).total <= Calculate(r).total
  {
    BaseNonNegative(r);
    InUnitsAntitone(Base(r), Discount(r.price, r.options), Discount(s.price, s.options));
    RoundMonotone(Exact(s), Exact(r));
  }

  /** The unrounded cost of a positive base is not negative exactly when the discounts do not exceed 1. */
  lemma ExactSign(r: Request)
    requires Base(r) > 0.0
    ensures Exact(r) >= 0.0 <==> Discount(r.price, r.options) <= 1.0
  {
    InUnitsSign(Base(r), Discount(r.price, r.options));
  }

  /**
   The bill itself is negative exactly when the discounts take off at least half a unit more than the
   base; this takes discounts above 1, which the code does not refuse.
   */
  lemma BillSign(r: Request)
    ensures Calculate(r).total < 0 <==> InUnits(Base(r), Discount(r.price, r.options)) <= -0.5
    ensures Base(r) >= 0.0 && Calculate(r).total < 0 ==> Discount(r.price, r.options) > 1.0
  {
    if Base(r) >= 0.0 {
      InUnitsSign(Base(r), Discount(r.price, r.options));
    }
  }

  /** Discounts of 0.75 and 0.5 together: two tokens are billed below zero, a single one is not. */
  lemma DiscountsCanExceedOne()
    ensures
      var p := PricingEntry("", "", 0.01, 0.0, 0.75, 0.5, 0.0);
      var both := Options(true, true, false);
      && Calculate(Request(2, 0, p, both)).total < 0
      && Exact(Request(1, 0, p, both)) < 0.0 && Calculate(Request(1, 0, p, both)).total == 0
  {
    var p := PricingEntry("", "", 0.01, 0.0, 0.75, 0.5, 0.0);
    var both := Options(true, true, false);
    assert Base(Request(1, 0, p, both)) == 0.00000001;
    assert Base(Request(2, 0, p, both)) == 0.00000002;
    assert Exact(Request(1, 0, p, both)) == -0.25;
    assert Exact(Request(2, 0, p, both)) == -0.5;
  }

  lemma NonNegative(r: Request)
    requires r.input >= 0 && r.output >= 0 && PricesNonNegative(r.price) && DiscountsSane(r.price)
    ensures Calculate(r).total >= 0
  {
    MonotoneInTokens(r.(input := 0, output := 0), r);
    var z := r.(input := 0, output := 0);
    assert Base(z) == 0.0;
    assert Exact(z) == 0.0;
  }

  // ----- The price table

  function Priced(provider: string, model: string, input: real, output: real, cache: real, batch: real): PricingEntry {
    PricingEntry(provider, model, input, output, cache, batch, 0.0)
  }

  const DEFAULT_PRICING_TABLE: map<string, PricingEntry> := map[
    "anthropic:claude-3-5-haiku-20241022" := Priced("anthropic", "claude-3-5-haiku-20241022", 0.80, 4.00, 0.10, 0.0),
    "anthropic:claude-3-5-sonnet-20241022" := Priced("anthropic", "claude-3-5-sonnet-20241022", 3.00, 15.00, 0.10, 0.0),
    "anthropic:claude-opus-4-0" := Priced("anthropic", "claude-opus-4-0", 15.00, 75.00, 0.0, 0.0),
    "openai:gpt-4o-mini" := Priced("openai", "gpt-4o-mini", 0.15, 0.60, 0.0, 0.50),
    "openai:gpt-4o" := Priced("openai", "gpt-4o", 2.50, 10.00, 0.0, 0.50),
    "openai:o3" := Priced("openai", "o3", 10.00, 40.00, 0.0, 0.0),
    "google:gemini-2.0-flash" := Priced("google", "gemini-2.0-flash", 0.075, 0.30, 0.0, 0.0),
    "google:gemini-2.5-pro" := Priced("google", "gemini-2.5-pro", 1.25, 5.00, 0.0, 0.0)
  ]

  const ZERO_ENTRY := PricingEntry("", "", 0.0, 0.0, 0.0, 0.0, 0.0)

  /** An unknown model gets the zero entry and so costs nothing. */
  function Get(provider: string, model: string): (r: (PricingEntry, bool))
    ensures PricesNonNegative(r.0) && DiscountsSane(r.0)
  {
    var key := provider + ":" + model;
    if key in DEFAULT_PRICING_TABLE then (DEFAULT_PRICING_TABLE[key], true) else (ZERO_ENTRY, false)
  }

  /** The cost of a request that is not fine-tuned, at these prices. */
  function BillAt(price: PricingEntry, input: int, output: int, cacheHit: bool, isBatch: bool): int {
    Calculate(Request(input, output, price, Options(cacheHit, isBatch, false))).total
  }

  /** What process bills: never fine-tuned, priced from the table. */
  function Bill(provider: string, model: string, input: int, output: int, cacheHit: bool, isBatch: bool): int {
    BillAt(Get(provider, model).0, input, output, cacheHit, isBatch)
  }

  lemma BillNonNegative(provider: string, model: string, input: nat, output: nat, cacheHit: bool, isBatch: bool)
    ensures Bill(provider, model, input, output, cacheHit, isBatch) >= 0
  {
    NonNegative(Request(input, output, Get(provider, model).0, Options(cacheHit, isBatch, false)));
  }

  // ----- What the table says

  /** The model is listed; a million input tokens, output tokens, cached and batched input tokens are billed this. */
  predicate Bills(provider: string, model: string, input: int, output: int, cached: int, batched: int) {
    && Get(provider, model).1
    && Bill(provider, model, 1_000_000, 0, false, false) == input
    && Bill(provider, model, 0, 1_000_000, false, false) == output
    && Bill(provider, model, 1_000_000, 0, true, false) == cached
    && Bill(provider, model, 1_000_000, 0, false, true) == batched
  }

  lemma MillionAt(p: PricingEntry, cacheHit: bool, isBatch: bool, discount: real)
    requires discount == Discount(p, Options(cacheHit, isBatch, false))
    ensures BillAt(p, 1_000_000, 0, cacheHit, isBatch) == Round(InUnits(p.inputPerMTok, discount))
    ensures BillAt(p, 0, 1_000_000, cacheHit, isBatch) == Round(InUnits(p.outputPerMTok, discount))
  {
    MillionTokens(p, Options(cacheHit, isBatch, false));
  }

  lemma OneMillion(p: PricingEntry)
    ensures BillAt(p, 1_000_000, 0, false, false) == Round(InUnits(p.inputPerMTok, 0.0))
    ensures BillAt(p, 0, 1_000_000, false, false) == Round(InUnits(p.outputPerMTok, 0.0))
    ensures BillAt(p, 1_000_000, 0, true, false) == Round(InUnits(p.inputPerMTok, p.cacheDiscount))
    ensures BillAt(p, 1_000_000, 0, false, true) == Round(InUnits(p.inputPerMTok, p.batchDiscount))
  {
    MillionAt(p, false, false, 0.0);
    MillionAt(p, true, false, p.cacheDiscount);
    MillionAt(p, false, true, p.batchDiscount);
  }

  lemma FoundHaiku()
    ensures Get("anthropic", "claude-3-5-haiku-20241022") ==
            (Priced("anthropic", "claude-3-5-haiku-20241022", 0.80, 4.00, 0.10, 0.0), true)
  {
    assert "anthropic" + ":" + "claude-3-5-haiku-20241022" == "anthropic:claude-3-5-haiku-20241022";
  }

  lemma PriceHaiku()
    ensures Bills("anthropic", "claude-3-5-haiku-20241022",
                  80_000_000, 400_000_000, 72_000_000, 80_000_000)
  {
    FoundHaiku();
    OneMillion(Priced("anthropic", "claude-3-5-haiku-20241022", 0.80, 4.00, 0.10, 0.0));
  }

  lemma FoundSonnet()
    ensures Get("anthropic", "claude-3-5-sonnet-20241022") ==
            (Priced("anthropic", "claude-3-5-sonnet-20241022", 3.00, 15.00, 0.10, 0.0), true)
  {
    assert "anthropic" + ":" + "claude-3-5-sonnet-20241022" == "anthropic:claude-3-5-sonnet-20241022";
  }

  lemma PriceSonnet()
    ensures Bills("anthropic", "claude-3-5-sonnet-20241022",
                  300_000_000, 1_500_000_000, 270_000_000, 300_000_000)
  {
    FoundSonnet();
    OneMillion(Priced("anthropic", "claude-3-5-sonnet-20241022", 3.00, 15.00, 0.10, 0.0));
  }

  lemma FoundOpus()
    ensures Get("anthropic", "claude-opus-4-0") ==
            (Priced("anthropic", "claude-opus-4-0", 15.00, 75.00, 0.0, 0.0), true)
  {
    assert "anthropic" + ":" + "claude-opus-4-0" == "anthropic:claude-opus-4-0";
  }

  lemma PriceOpus()
    ensures Bills("anthropic", "claude-opus-4-0",
                  1_500_000_000, 7_500_000_000, 1_500_000_000, 1_500_000_000)
  {
    FoundOpus();
    OneMillion(Priced("anthropic", "claude-opus-4-0", 15.00, 75.00, 0.0, 0.0));
  }

  lemma FoundMini()
    ensures Get("openai", "gpt-4o-mini") ==
            (Priced("openai", "gpt-4o-mini", 0.15, 0.60, 0.0, 0.50), true)
  {
    assert "openai" + ":" + "gpt-4o-mini" == "openai:gpt-4o-mini";
  }

  lemma PriceMini()
    ensures Bills("openai", "gpt-4o-mini",
                  15_000_000, 60_000_000, 15_000_000, 7_500_000)
  {
    FoundMini();
    OneMillion(Priced("openai", "gpt-4o-mini", 0.15, 0.60, 0.0, 0.50));
  }

  lemma FoundGpt4o()
    ensures Get("openai", "gpt-4o") ==
            (Priced("openai", "gpt-4o", 2.50, 10.00, 0.0, 0.50), true)
  {
    assert "openai" + ":" + "gpt-4o" == "openai:gpt-4o";
  }

  lemma PriceGpt4o()
    ensures Bills("openai", "gpt-4o",
                  250_000_000, 1_000_000_000, 250_000_000, 125_000_000)
  {
    FoundGpt4o();
    OneMillion(Priced("openai", "gpt-4o", 2.50, 10.00, 0.0, 0.50));
  }

  lemma FoundO3()
    ensures Get("openai", "o3") ==
            (Priced("openai", "o3", 10.00, 40.00, 0.0, 0.0), true)
  {
    assert "openai" + ":" + "o3" == "openai:o3";
  }

  lemma PriceO3()
    ensures Bills("openai", "o3",
                  1_000_000_000, 4_000_000_000, 1_000_000_000, 1_000_000_000)
  {
    FoundO3();
    OneMillion(Priced("openai", "o3", 10.00, 40.00, 0.0, 0.0));
  }

  lemma FoundFlash()
    ensures Get("google", "gemini-2.0-flash") ==
            (Priced("google", "gemini-2.0-flash", 0.075, 0.30, 0.0, 0.0), true)
  {
    assert "google" + ":" + "gemini-2.0-flash" == "google:gemini-2.0-flash";
  }

  lemma PriceFlash()
    ensures Bills("google", "gemini-2.0-flash",
                  7_500_000, 30_000_000, 7_500_000, 7_500_000)
  {
    FoundFlash();
    OneMillion(Priced("google", "gemini-2.0-flash", 0.075, 0.30, 0.0, 0.0));
  }

  lemma FoundPro()
    ensures Get("google", "gemini-2.5-pro") ==
            (Priced("google", "gemini-2.5-pro", 1.25, 5.00, 0.0, 0.0), true)
  {
    assert "google" + ":" + "gemini-2.5-pro" == "google:gemini-2.5-pro";
  }

  lemma PricePro()
    ensures Bills("google", "gemini-2.5-pro",
                  125_000_000, 500_000_000, 125_000_000, 125_000_000)
  {
    FoundPro();
    OneMillion(Priced("google", "gemini-2.5-pro", 1.25, 5.00, 0.0, 0.0));
  }

  /** The bills of the listed models, in units of 1e-8 USD. */
  lemma TablePrices()
    ensures Bills("anthropic", "claude-3-5-haiku-20241022", 80_000_000, 400_000_000, 72_000_000, 80_000_000)
    ensures Bills("anthropic", "claude-3-5-sonnet-20241022", 300_000_000, 1_500_000_000, 270_000_000, 300_000_000)
    ensures Bills("anthropic", "claude-opus-4-0", 1_500_000_000, 7_500_000_000, 1_500_000_000, 1_500_000_000)
    ensures Bills("openai", "gpt-4o-mini", 15_000_000, 60_000_000, 15_000_000, 7_500_000)
    ensures Bills("openai", "gpt-4o", 250_000_000, 1_000_000_000, 250_000_000, 125_000_000)
    ensures Bills("openai", "o3", 1_000_000_000, 4_000_000_000, 1_000_000_000, 1_000_000_000)
    ensures Bills("google", "gemini-2.0-flash", 7_500_000, 30_000_000, 7_500_000, 7_500_000)
    ensures Bills("google", "gemini-2.5-pro", 125_000_000, 500_000_000, 125_000_000, 125_000_000)
  {
    PriceHaiku();
    PriceSonnet();
    PriceOpus();
    PriceMini();
    PriceGpt4o();
    PriceO3();
    PriceFlash();
    PricePro();
  }

  predicate Listed(provider: string, model: string) {
    exists key :: key in DEFAULT_PRICING_TABLE
                  && DEFAULT_PRICING_TABLE[key].provider == provider && DEFAULT_PRICING_TABLE[key].model == model
  }

  /** Every entry stands under its own provider and model, and neither holds the separator. */
  predicate WellKeyed(key: string, e: PricingEntry) {
    key == e.provider + ":" + e.model && ':' !in e.provider && ':' !in e.model
  }

  lemma KeyedHaiku()
    ensures WellKeyed("anthropic:claude-3-5-haiku-20241022",
                      DEFAULT_PRICING_TABLE["anthropic:claude-3-5-haiku-20241022"])
  {
    assert "anthropic" + ":" + "claude-3-5-haiku-20241022" == "anthropic:claude-3-5-haiku-20241022";
  }

  lemma KeyedSonnet()
    ensures WellKeyed("anthropic:claude-3-5-sonnet-20241022",
                      DEFAULT_PRICING_TABLE["anthropic:claude-3-5-sonnet-20241022"])
  {
    assert "anthropic" + ":" + "claude-3-5-sonnet-20241022" == "anthropic:claude-3-5-sonnet-20241022";
  }

  lemma KeyedOpus()
    ensures WellKeyed("anthropic:claude-opus-4-0",
                      DEFAULT_PRICING_TABLE["anthropic:claude-opus-4-0"])
  {
    assert "anthropic" + ":" + "claude-opus-4-0" == "anthropic:claude-opus-4-0";
  }

  lemma KeyedMini()
    ensures WellKeyed("openai:gpt-4o-mini",
                      DEFAULT_PRICING_TABLE["openai:gpt-4o-mini"])
  {
    assert "openai" + ":" + "gpt-4o-mini" == "openai:gpt-4o-mini";
  }

  lemma KeyedGpt4o()
    ensures WellKeyed("openai:gpt-4o",
                      DEFAULT_PRICING_TABLE["openai:gpt-4o"])
  {
    assert "openai" + ":" + "gpt-4o" == "openai:gpt-4o";
  }

  lemma KeyedO3()
    ensures WellKeyed("openai:o3",
                      DEFAULT_PRICING_TABLE["openai:o3"])
  {
    assert "openai" + ":" + "o3" == "openai:o3";
  }

  lemma KeyedFlash()
    ensures WellKeyed("google:gemini-2.0-flash",
                      DEFAULT_PRICING_TABLE["google:gemini-2.0-flash"])
  {
    assert "google" + ":" + "gemini-2.0-flash" == "google:gemini-2.0-flash";
  }

  lemma KeyedPro()
    ensures WellKeyed("google:gemini-2.5-pro",
                      DEFAULT_PRICING_TABLE["google:gemini-2.5-pro"])
  {
    assert "google" + ":" + "gemini-2.5-pro" == "google:gemini-2.5-pro";
  }

  lemma AllWellKeyed(key: string)
    requires key in DEFAULT_PRICING_TABLE
    ensures WellKeyed(key, DEFAULT_PRICING_TABLE[key])
  {
    if key == "anthropic:claude-3-5-haiku-20241022" {
      KeyedHaiku();
    } else if key == "anthropic:claude-3-5-sonnet-20241022" {
      KeyedSonnet();
    } else if key == "anthropic:claude-opus-4-0" {
      KeyedOpus();
    } else if key == "openai:gpt-4o-mini" {
      KeyedMini();
    } else if key == "openai:gpt-4o" {
      KeyedGpt4o();
    } else if key == "openai:o3" {
      KeyedO3();
    } else if key == "google:gemini-2.0-flash" {
      KeyedFlash();
    } else if key == "google:gemini-2.5-pro" {
      KeyedPro();
    }
  }

  lemma EntryIsFound(key: string)
    requires key in DEFAULT_PRICING_TABLE
    ensures WellKeyed(key, DEFAULT_PRICING_TABLE[key])
    ensures
      var e := DEFAULT_PRICING_TABLE[key];
      Get(e.provider, e.model) == (e, true)
  {
    AllWellKeyed(key);
  }

  /** A pair that no entry carries is recorded at no cost. */
  lemma UnlistedIsFree(provider: string, model: string, input: int, output: int, cacheHit: bool, isBatch: bool)
    requires !Listed(provider, model)
    ensures Get(provider, model) == (PricingEntry("", "", 0.0, 0.0, 0.0, 0.0, 0.0), false)
    ensures Bill(provider, model, input, output, cacheHit, isBatch) == 0
  {
    var key := provider + ":" + model;
    if key in DEFAULT_PRICING_TABLE {
      var e := DEFAULT_PRICING_TABLE[key];
      EntryIsFound(key);
      SplitAtColon(provider, model, e.provider, e.model);
      assert false;
    }
    var r := Request(input, output, ZERO_ENTRY, Options(cacheHit, isBatch, false));
    assert Base(r) == 0.0;
  }

  /** A text with one colon splits there alone. */
  lemma SplitAtColon(a: string, b: string, c: string, d: string)
    requires a + ":" + b == c + ":" + d && ':' !in c && ':' !in d
    ensures a == c && b == d
  {
    var s, s' := a + ":" + b, c + ":" + d;
    assert s[|a|] == ':' && s'[|c|] == ':';
    assert forall i :: 0 <= i < |c| ==> s'[i] == c[i];
    assert forall i :: |c| < i < |s'| ==> s'[i] == d[i - |c| - 1];
    assert |a| == |c|;
    assert a == s[..|a|] && c == s'[..|c|] && b == s[|a| + 1..] && d == s'[|c| + 1..];
  }
}
