/** What AI token usage costs: prices by longest matching prefix, and the chain
    tokens -> USD -> Toman -> discount -> integer micro-Toman. */
module AiPricing {
  import opened Common

  const MICRO := 1_000_000.0

  /** The five counters billed separately. */
  datatype Tokens = Tokens(input: int, write5m: int, write1h: int, read: int, output: int)

  const BLANK := Tokens(0, 0, 0, 0, 0)

  function Plus(a: Tokens, b: Tokens): Tokens {
    Tokens(a.input + b.input, a.write5m + b.write5m, a.write1h + b.write1h,
           a.read + b.read, a.output + b.output)
  }

  lemma PlusAssociates(a: Tokens, b: Tokens, c: Tokens)
    ensures Plus(Plus(a, b), c) == Plus(a, Plus(b, c))
  {
  }

  lemma PlusBlank(a: Tokens)
    ensures Plus(a, BLANK) == a && Plus(BLANK, a) == a
  {
  }

  /** What is new in `total` above the mark `mark`, never negative. */
  function Delta(total: Tokens, mark: Tokens): Tokens {
    Tokens(Max(0, total.input - mark.input), Max(0, total.write5m - mark.write5m),
           Max(0, total.write1h - mark.write1h), Max(0, total.read - mark.read),
           Max(0, total.output - mark.output))
  }

  function Rise(a: Tokens, b: Tokens): Tokens {
    Tokens(Max(a.input, b.input), Max(a.write5m, b.write5m), Max(a.write1h, b.write1h),
           Max(a.read, b.read), Max(a.output, b.output))
  }

  predicate AtMost(a: Tokens, b: Tokens) {
    && a.input <= b.input && a.write5m <= b.write5m && a.write1h <= b.write1h
    && a.read <= b.read && a.output <= b.output
  }

  predicate Counts(t: Tokens) {
    AtMost(BLANK, t)
  }

  /** USD per million tokens of each counter, under the prefix `model`. */
  datatype Price = Price(
    model: string,
    input: real, write5m: real, write1h: real, read: real, output: real)

  /** What the admin form accepts. */
  predicate Sane(p: Price) {
    p.input >= 0.0 && p.write5m >= 0.0 && p.write1h >= 0.0 && p.read >= 0.0 && p.output >= 0.0
  }

  predicate IsBest(model: string, prices: seq<Price>, best: Price) {
    && best in prices
    && best.model <= model
    && forall p :: p in prices && p.model <= model ==> |p.model| <= |best.model|
  }

  /** The table is a dict: one row per prefix. */
  predicate DistinctPrefixes(prices: seq<Price>) {
    forall i, j :: 0 <= i < j < |prices| ==> prices[i].model != prices[j].model
  }

  /** The price for a logged model name. None exactly when the name is empty or no
      prefix matches, and otherwise the longest matching row. */
  method Resolve(model: string, prices: seq<Price>) returns (best: Option<Price>)
    ensures best == Resolved(model, prices)
    ensures best.None? <==> model == "" || forall p :: p in prices ==> !(p.model <= model)
    ensures best.Some? ==> IsBest(model, prices, best.value)
  {
    best := None;
    if model == "" {
      return;
    }
    for i := 0 to |prices|
      invariant best == Resolved(model, prices[..i])
      invariant best.None? ==> forall p :: p in prices[..i] ==> !(p.model <= model)
      invariant best.Some? ==> IsBest(model, prices[..i], best.value)
    {
      assert prices[..i + 1] == prices[..i] + [prices[i]];
      if prices[i].model <= model && (best.None? || |prices[i].model| > |best.value.model|) {
        best := Some(prices[i]);
      }
    }
    assert prices[..|prices|] == prices;
  }

  /** The value `Resolve` computes, for use in other specifications. */
  function Resolved(model: string, prices: seq<Price>): Option<Price> {
    if model == "" || prices == [] then None
    else
      var best := Resolved(model, prices[..|prices| - 1]);
      var last := prices[|prices| - 1];
      if last.model <= model && (best.None? || |last.model| > |best.value.model|)
      then Some(last) else best
  }

  lemma {:induction false} ResolvedIsBest(model: string, prices: seq<Price>)
    ensures Resolved(model, prices).None? <==>
              model == "" || forall p :: p in prices ==> !(p.model <= model)
    ensures Resolved(model, prices).Some? ==> IsBest(model, prices, Resolved(model, prices).value)
  {
    if model != "" && prices != [] {
      var front := prices[..|prices| - 1];
      ResolvedIsBest(model, front);
      assert prices == front + [prices[|prices| - 1]];
    }
  }

  /** Two matching prefixes of one length are the same prefix, so the answer does
      not depend on the order in which the table lists its rows. */
  lemma {:induction false} ResolveIgnoresOrder(model: string, a: seq<Price>, b: seq<Price>)
    requires DistinctPrefixes(a)
    requires forall p :: p in a <==> p in b
    ensures Resolved(model, a) == Resolved(model, b)
  {
    ResolvedIsBest(model, a);
    ResolvedIsBest(model, b);
    if Resolved(model, a).Some? {
      var x, y := Resolved(model, a).value, Resolved(model, b).value;
      assert x.model == model[..|x.model|] == y.model;
      var i :| 0 <= i < |a| && a[i] == x;
      var j :| 0 <= j < |a| && a[j] == y;
    }
  }

  function Usd(t: Tokens, p: Price): real {
    (Max(0, t.input) as real * p.input
     + Max(0, t.write5m) as real * p.write5m
     + Max(0, t.write1h) as real * p.write1h
     + Max(0, t.read) as real * p.read
     + Max(0, t.output) as real * p.output) / 1_000_000.0
  }

  function DiscountMultiplier(percent: real): (m: real)
    ensures 0.0 <= m <= 1.0
    ensures percent <= 0.0 ==> m == 1.0
    ensures percent >= 100.0 ==> m == 0.0
  {
    MaxReal(0.0, MinReal(1.0, 1.0 - percent / 100.0))
  }

  /** The exact price in micro-Toman, before it is rounded to the ledger's unit. */
  function ExactMicro(t: Tokens, p: Price, usdToToman: real, discount: real): real {
    Usd(t, p) * usdToToman * DiscountMultiplier(discount) * MICRO
  }

  function TomanMicro(t: Tokens, p: Price, usdToToman: real, discount: real): int {
    Max(0, Round(ExactMicro(t, p, usdToToman, discount)))
  }

  lemma ScaleNonNegative(a: real, b: real)
    requires a >= 0.0 && b >= 0.0
    ensures a * b >= 0.0
  {
  }

  lemma Distribute(a: real, b: real, k: real)
    ensures (a + b) * k == a * k + b * k
  {
  }

  lemma {:induction false} UsdNonNegative(t: Tokens, p: Price)
    requires Sane(p)
    ensures Usd(t, p) >= 0.0
  {
    ScaleNonNegative(Max(0, t.input) as real, p.input);
    ScaleNonNegative(Max(0, t.write5m) as real, p.write5m);
    ScaleNonNegative(Max(0, t.write1h) as real, p.write1h);
    ScaleNonNegative(Max(0, t.read) as real, p.read);
    ScaleNonNegative(Max(0, t.output) as real, p.output);
  }

  lemma {:induction false} ExactNonNegative(t: Tokens, p: Price, usdToToman: real, discount: real)
    requires Sane(p) && usdToToman >= 0.0
    ensures ExactMicro(t, p, usdToToman, discount) >= 0.0
  {
    UsdNonNegative(t, p);
    ScaleNonNegative(Usd(t, p), usdToToman);
    ScaleNonNegative(Usd(t, p) * usdToToman, DiscountMultiplier(discount));
    ScaleNonNegative(Usd(t, p) * usdToToman * DiscountMultiplier(discount), MICRO);
  }

  /** A charge is within half a micro-Toman of the exact price, and never negative. */
  lemma {:induction false} ChargeIsNearest(t: Tokens, p: Price, usdToToman: real, discount: real)
    requires Sane(p) && usdToToman >= 0.0
    ensures TomanMicro(t, p, usdToToman, discount) >= 0
    ensures AbsReal(TomanMicro(t, p, usdToToman, discount) as real
                    - ExactMicro(t, p, usdToToman, discount)) <= 0.5
  {
    ExactNonNegative(t, p, usdToToman, discount);
  }

  /** Every counter at its own rate per million, turned into Toman and discounted: what the
      chain of conversions comes to, in micro-Toman. */
  lemma {:induction false} BillSpelledOut(t: Tokens, p: Price, usdToToman: real, percent: real)
    requires Counts(t) && 0.0 <= percent <= 100.0
    ensures ExactMicro(t, p, usdToToman, percent)
         == (t.input as real * p.input + t.write5m as real * p.write5m + t.write1h as real * p.write1h
             + t.read as real * p.read + t.output as real * p.output)
            * usdToToman * (1.0 - percent / 100.0)
  {
    var sum := t.input as real * p.input + t.write5m as real * p.write5m + t.write1h as real * p.write1h
               + t.read as real * p.read + t.output as real * p.output;
    assert Usd(t, p) == sum / 1_000_000.0;
    assert DiscountMultiplier(percent) == 1.0 - percent / 100.0;
    MillionsCancel(sum, usdToToman, 1.0 - percent / 100.0);
  }

  lemma {:induction false} MillionsCancel(sum: real, a: real, b: real)
    ensures sum / 1_000_000.0 * a * b * 1_000_000.0 == sum * a * b
  {
    var part := sum / 1_000_000.0;
    assert part * 1_000_000.0 == sum;
    assert part * a * b * 1_000_000.0 == part * 1_000_000.0 * a * b;
  }

  /** So tokens of one counter alone cost their number times that counter's own rate. */
  lemma {:induction false} EachCounterAtItsOwnRate(n: nat, p: Price, usdToToman: real, percent: real)
    requires 0.0 <= percent <= 100.0
    ensures var k := usdToToman * (1.0 - percent / 100.0);
            && ExactMicro(Tokens(n, 0, 0, 0, 0), p, usdToToman, percent) == n as real * p.input * k
            && ExactMicro(Tokens(0, n, 0, 0, 0), p, usdToToman, percent) == n as real * p.write5m * k
            && ExactMicro(Tokens(0, 0, n, 0, 0), p, usdToToman, percent) == n as real * p.write1h * k
            && ExactMicro(Tokens(0, 0, 0, n, 0), p, usdToToman, percent) == n as real * p.read * k
            && ExactMicro(Tokens(0, 0, 0, 0, n), p, usdToToman, percent) == n as real * p.output * k
  {
    hide ExactMicro;
    BillSpelledOut(Tokens(n, 0, 0, 0, 0), p, usdToToman, percent);
    BillSpelledOut(Tokens(0, n, 0, 0, 0), p, usdToToman, percent);
    BillSpelledOut(Tokens(0, 0, n, 0, 0), p, usdToToman, percent);
    BillSpelledOut(Tokens(0, 0, 0, n, 0), p, usdToToman, percent);
    BillSpelledOut(Tokens(0, 0, 0, 0, n), p, usdToToman, percent);
  }

  /** And what is charged is the nearest whole number to that, never negative. */
  lemma {:induction false} ChargeSpelledOut(t: Tokens, p: Price, usdToToman: real, percent: real)
    requires Counts(t) && Sane(p) && usdToToman >= 0.0 && 0.0 <= percent <= 100.0
    ensures var exact := (t.input as real * p.input + t.write5m as real * p.write5m + t.write1h as real * p.write1h
                          + t.read as real * p.read + t.output as real * p.output)
                         * usdToToman * (1.0 - percent / 100.0);
            AbsReal(TomanMicro(t, p, usdToToman, percent) as real - exact) <= 0.5
  {
    hide ExactMicro, TomanMicro, Sane;
    BillSpelledOut(t, p, usdToToman, percent);
    ChargeIsNearest(t, p, usdToToman, percent);
  }

  lemma {:induction false} UsdAdds(a: Tokens, b: Tokens, p: Price)
    requires Counts(a) && Counts(b)
    ensures Usd(Plus(a, b), p) == Usd(a, p) + Usd(b, p)
  {
    Distribute(a.input as real, b.input as real, p.input);
    Distribute(a.write5m as real, b.write5m as real, p.write5m);
    Distribute(a.write1h as real, b.write1h as real, p.write1h);
    Distribute(a.read as real, b.read as real, p.read);
    Distribute(a.output as real, b.output as real, p.output);
  }

  /** Exact prices add up, so a bill split over several passes loses only rounding. */
  lemma {:induction false} ExactAdds(a: Tokens, b: Tokens, p: Price, usdToToman: real, discount: real)
    requires Counts(a) && Counts(b)
    ensures ExactMicro(Plus(a, b), p, usdToToman, discount)
         == ExactMicro(a, p, usdToToman, discount) + ExactMicro(b, p, usdToToman, discount)
  {
    UsdAdds(a, b, p);
    Distribute(Usd(a, p), Usd(b, p), usdToToman);
    Distribute(Usd(a, p) * usdToToman, Usd(b, p) * usdToToman, DiscountMultiplier(discount));
    Distribute(Usd(a, p) * usdToToman * DiscountMultiplier(discount),
               Usd(b, p) * usdToToman * DiscountMultiplier(discount), MICRO);
  }

  /** A mark raised to the newest total has grown by exactly the delta. */
  lemma DeltaRaisesMark(total: Tokens, mark: Tokens)
    ensures Plus(mark, Delta(total, mark)) == Rise(total, mark)
    ensures Counts(Delta(total, mark))
    ensures Delta(total, mark) == BLANK <==> AtMost(total, mark)
  {
  }
}
