/** OpenRouter spend: charging the supplier's cumulative figure, and keeping the
    supplier-side cap in step with what the customer can still afford. */
module Hermes {
  import opened Common
  import opened Ledger
  import opened AiPricing

  const MIN_CAP_USD := 0.10
  const MAX_CAP_USD := 500.0

  // ---------------------------------------------------------------- what credit buys

  function AffordableUsd(balance: int, rate: real, discount: real): real {
    if rate <= 0.0 then MIN_CAP_USD
    else
      var mult := DiscountMultiplier(discount);
      if mult <= 0.0 then MAX_CAP_USD
      else MaxReal(MIN_CAP_USD, MinReal(MAX_CAP_USD, MaxReal(0.0, balance as real / MICRO) / rate / mult))
  }

  /** What `usd` dollars of supplier spend cost the customer, in micro-Toman. */
  function SpendMicro(usd: real, rate: real, discount: real): real {
    usd * rate * DiscountMultiplier(discount) * MICRO
  }

  /** Dollars at the rate, discounted, in millionths of a Toman. */
  lemma SpendSpelledOut(usd: real, rate: real, percent: real)
    requires 0.0 <= percent <= 100.0
    ensures SpendMicro(usd, rate, percent) == usd * rate * (1.0 - percent / 100.0) * 1_000_000.0
  {
  }

  lemma {:induction false} DivideThenMultiply(a: real, b: real, c: real)
    requires b > 0.0 && c > 0.0
    ensures a / b / c * b * c == a
  {
    assert a / b / c * c == a / b;
    assert a / b / c * b * c == (a / b / c * c) * b;
  }

  lemma ScaleMonotone(a: real, b: real, k: real)
    requires a <= b && k >= 0.0
    ensures a * k <= b * k
  {
  }

  /** Between the caps, spending the headroom costs exactly the balance; the headroom is ten
      cents exactly when the balance buys no more than that, and five hundred dollars
      exactly when it buys as much or everything is free. */
  lemma {:induction false} HeadroomIsTheBalance(balance: int, rate: real, percent: real)
    requires 0.0 <= percent <= 100.0 && rate > 0.0
    ensures var usd := AffordableUsd(balance, rate, percent);
            && (0.10 < usd < 500.0 ==> SpendMicro(usd, rate, percent) == balance as real)
            && (usd == 0.10 <==> percent < 100.0 && balance as real <= SpendMicro(0.10, rate, percent))
            && (usd == 500.0 <==> percent == 100.0 || balance as real >= SpendMicro(500.0, rate, percent))
  {
    if percent < 100.0 {
      var mult := DiscountMultiplier(percent);
      var toman := MaxReal(0.0, balance as real / MICRO);
      var bought := toman / rate / mult;
      DivideThenMultiply(toman, rate, mult);
      assert AffordableUsd(balance, rate, percent) == MaxReal(0.10, MinReal(500.0, bought));
      Buys(balance, toman, bought, 0.10, rate, mult);
      Buys(balance, toman, bought, 500.0, rate, mult);
    }
  }

  /** What `cap` dollars would cost against what the balance buys. */
  lemma {:induction false} Buys(balance: int, toman: real, bought: real, cap: real, rate: real, mult: real)
    requires rate > 0.0 && mult > 0.0 && cap > 0.0
    requires toman == MaxReal(0.0, balance as real / MICRO) && bought * rate * mult == toman
    ensures bought <= cap <==> balance as real <= cap * rate * mult * MICRO
    ensures bought >= cap <==> balance as real >= cap * rate * mult * MICRO
    ensures bought > 0.0 ==> bought * rate * mult * MICRO == balance as real
  {
    var cost := cap * rate * mult;
    BuysAtMost(bought, cap, rate, mult, toman, cost);
    BuysAtMost(cap, bought, rate, mult, cost, toman);
    BuysAtMost(cap, 0.0, rate, mult, cost, 0.0);
    BuysAtMost(bought, 0.0, rate, mult, toman, 0.0);
    assert cost > 0.0;
    assert toman * MICRO == MaxReal(0.0, balance as real);
    assert toman <= cost <==> toman * MICRO <= cost * MICRO;
  }

  lemma {:induction false} BuysAtMost(a: real, b: real, rate: real, mult: real, x: real, y: real)
    requires rate > 0.0 && mult > 0.0 && x == a * rate * mult && y == b * rate * mult
    ensures a <= b <==> x <= y
  {
    if a <= b {
      ScaleMonotone(a, b, rate);
      ScaleMonotone(a * rate, b * rate, mult);
    } else {
      assert a * rate > b * rate;
      assert a * rate * mult > b * rate * mult;
    }
  }

  /** With no rate there is nothing to convert, and the key may spend ten cents. */
  lemma NoRateNoHeadroom(balance: int, rate: real, percent: real)
    requires rate <= 0.0
    ensures AffordableUsd(balance, rate, percent) == 0.10
  {
  }

  /** Headroom is always within the two caps, and above the ten-cent floor spending
      all of it never costs more than the balance. */
  lemma {:induction false} HeadroomIsAffordable(balance: int, rate: real, discount: real)
    ensures MIN_CAP_USD <= AffordableUsd(balance, rate, discount) <= MAX_CAP_USD
    ensures rate > 0.0 && AffordableUsd(balance, rate, discount) > MIN_CAP_USD ==>
      SpendMicro(AffordableUsd(balance, rate, discount), rate, discount) <= MaxReal(0.0, balance as real)
  {
    var mult := DiscountMultiplier(discount);
    var usd := AffordableUsd(balance, rate, discount);
    if rate > 0.0 && usd > MIN_CAP_USD {
      if mult > 0.0 {
        var toman := MaxReal(0.0, balance as real / MICRO);
        assert usd <= toman / rate / mult;
        DivideThenMultiply(toman, rate, mult);
        ScaleMonotone(usd, toman / rate / mult, rate);
        ScaleMonotone(usd * rate, toman / rate / mult * rate, mult);
        ScaleMonotone(usd * rate * mult, toman, MICRO);
      } else {
        assert usd * rate * mult * MICRO == 0.0;
      }
    }
  }

  // -------------------------------------------------------------------------- meter

  function Scope(user: int): string {
    if user >= 0 then "openrouter:" + Decimal(user) else "openrouter:-" + Decimal(-user)
  }

  function ChargePosting(user: int, micro: int, bucket: int): Posting {
    Posting(user, None, ChargeHermes, -micro, Some(bucket), Some(Scope(user)))
  }

  function BillMicro(delta: real, rate: real, discount: real): int {
    Max(0, Round(SpendMicro(delta, rate, discount)))
  }

  datatype Metered = Metered(mark: real, db: Db, micro: int)

  /** One metering pass over the supplier's cumulative figure `usage`. */
  function MeterPass(mark: real, db: Db, user: int, usage: real, bucket: int, rate: real, discount: real): Metered {
    if usage <= mark then Metered(usage, db, 0)
    else
      var micro := BillMicro(usage - mark, rate, discount);
      if micro <= 0 then Metered(mark, db, 0)
      else
        var (after, posted) := Post(db, ChargePosting(user, micro, bucket));
        if posted then Metered(usage, after, micro) else Metered(mark, db, 0)
  }

  /** No two customers share the scope of a charge. */
  lemma {:induction false} ScopeIsUser(a: int, b: int)
    requires Scope(a) == Scope(b)
    ensures a == b
  {
    ScopeReads(a);
    ScopeReads(b);
    DecimalInjective(if a >= 0 then a else -a, if b >= 0 then b else -b);
  }

  lemma {:induction false} ScopeReads(user: int)
    ensures var digits := Decimal(if user >= 0 then user else -user);
            if user >= 0 then Scope(user)[11..] == digits && '0' <= Scope(user)[11] <= '9'
            else Scope(user)[11] == '-' && Scope(user)[12..] == digits
  {
    DecimalParses(if user >= 0 then user else -user);
  }

  /** A charging pass adds one row and takes what it returns from its customer, and nothing
      from anybody else. Otherwise no money moves. */
  lemma {:induction false} SpendIsChargedToItsCustomer(
    mark: real, db: Db, user: int, usage: real, bucket: int, rate: real, discount: real)
    requires Consistent(db)
    ensures var r := MeterPass(mark, db, user, usage, bucket, rate, discount);
            && r.micro >= 0
            && (r.micro == 0 ==> r.db == db)
            && (r.micro > 0 ==>
                  && r.db.rows == db.rows + [Posting(user, None, ChargeHermes, -r.micro, Some(bucket), Some(Scope(user)))]
                  && Balance(r.db, user) == Balance(db, user) - r.micro
                  && forall u :: u != user ==> Balance(r.db, u) == Balance(db, u))
  {
    hide Consistent, Taken, SpendMicro, Scope;
    if usage > mark && BillMicro(usage - mark, rate, discount) > 0 {
      PostKeepsConsistent(db, ChargePosting(user, BillMicro(usage - mark, rate, discount), bucket));
    }
  }

  /** One customer's account row, with the supplier's own record of the key beside it. */
  class Account {
    const user: int
    var db: Db
    // The row in openrouter_accounts.
    var hasKey: bool
    var mark: real
    var creditBlocked: bool
    var limitDirty: bool
    var limitUsd: Option<real>
    // The key at the supplier.
    var usage: real
    var upstreamLimit: Option<real>
    var disabled: bool

    ghost predicate FullPass(meterUsage: bool)
      reads this
    {
      !hasKey || meterUsage || limitDirty || creditBlocked != (Balance(db, user) <= 0)
    }

    /** Charge what the supplier has metered since the last pass. `crash` is a
        process that dies before its commit. */
    method Meter(bucket: int, rate: real, discount: real, crash: bool) returns (micro: int)
      modifies this`mark, this`db
      ensures var r := MeterPass(old(mark), old(db), user, usage, bucket, rate, discount);
              if crash then mark == old(mark) && db == old(db)
              else mark == r.mark && db == r.db && micro == r.micro
    {
      micro := 0;
      var delta := usage - mark;
      if crash {
        return;
      }
      if delta <= 0.0 {
        if usage < mark {
          mark := usage;
        }
        return;
      }
      var bill := BillMicro(delta, rate, discount);
      if bill <= 0 {
        return;
      }
      var (after, posted) := Post(db, ChargePosting(user, bill, bucket));
      if !posted {
        return;
      }
      db, mark := after, usage;
      micro := bill;
    }

    /** Mint the key of an account that has none; the supplier answers with a figure of
        its own for what the new key has used. */
    method EnsureKey(cap: real, reported: real) returns (minted: bool)
      modifies this
      ensures db == old(db)
      ensures minted <==> !old(hasKey)
      ensures minted ==> hasKey && usage == mark == reported && upstreamLimit == Some(cap) && !disabled
      ensures !minted ==> unchanged(this)
    {
      if hasKey {
        return false;
      }
      hasKey, usage, upstreamLimit, disabled := true, reported, Some(cap), false;
      mark := reported;
      creditBlocked := false;
      minted := true;
    }

    /** One pass over the account whose supplier calls all succeed. */
    method Reconcile(bucket: int, rate: real, discount: real, meterUsage: bool, reported: real)
      modifies this
      // A full pass leaves the cap within one cent of what is spent and affordable, unless
      // it minted a key that the supplier says was used already, and the key disabled
      // exactly when there is no credit.
      ensures old(FullPass(meterUsage)) ==>
        && hasKey
        && upstreamLimit.Some?
        && ((old(hasKey) || AbsReal(reported) <= 0.01) <==>
              AbsReal(upstreamLimit.value - (usage + AffordableUsd(Balance(db, user), rate, discount))) <= 0.01)
        && (disabled <==> Balance(db, user) <= 0)
        && (creditBlocked <==> Balance(db, user) <= 0)
        && !limitDirty
      ensures old(hasKey && FullPass(meterUsage)) ==>
        var r := MeterPass(old(mark), old(db), user, old(usage), bucket, rate, discount);
        && usage == old(usage)
        && mark == (if meterUsage then r.mark else old(mark))
        && db == (if meterUsage then r.db else old(db))
      ensures !old(hasKey) ==>
        && db == old(db) && usage == mark == reported
        && upstreamLimit == Some(AffordableUsd(Balance(db, user), rate, discount))
      ensures !old(FullPass(meterUsage)) ==> unchanged(this)
    {
      var blocked := Balance(db, user) <= 0;
      var cap := AffordableUsd(Balance(db, user), rate, discount);
      var minted := EnsureKey(cap, reported);
      if minted {
        if blocked {
          upstreamLimit, disabled := Some(cap), true;
        }
        creditBlocked, limitDirty, limitUsd := blocked, false, Some(cap);
        return;
      }
      if !meterUsage && !limitDirty && creditBlocked == blocked {
        return;
      }
      if meterUsage {
        var _ := Meter(bucket, rate, discount, false);
      }
      blocked := Balance(db, user) <= 0;
      cap := usage + AffordableUsd(Balance(db, user), rate, discount);
      var limitChanged := upstreamLimit.None? || AbsReal(upstreamLimit.value - cap) > 0.01;
      if limitChanged || disabled != blocked {
        upstreamLimit, disabled := Some(cap), blocked;
      }
      creditBlocked, limitDirty, limitUsd := blocked, false, Some(cap);
    }
  }

  // ------------------------------------------------------------------------ any run

  datatype Event =
    | Read(usage: real, bucket: int, crash: bool)
    | Other(posting: Posting)

  /** The account's committed state with what its history adds up to: how many
      charges, their money, the dollars they were for, and the dollars by which the
      supplier's figure ever fell below the mark. */
  datatype World = World(mark: real, db: Db, charges: nat, micro: int, usd: real, fallen: real)

  function Step(w: World, e: Event, user: int, rate: real, discount: real): World {
    match e
    case Other(p) => w.(db := Post(w.db, p).0)
    case Read(usage, bucket, crash) =>
      var r := MeterPass(w.mark, w.db, user, usage, bucket, rate, discount);
      if crash then w
      else if r.micro > 0 then
        World(r.mark, r.db, w.charges + 1, w.micro + r.micro, w.usd + (usage - w.mark), w.fallen)
      else World(r.mark, r.db, w.charges, w.micro, w.usd, w.fallen + (w.mark - r.mark))
  }

  function Run(start: real, events: seq<Event>, user: int, rate: real, discount: real): World {
    if events == [] then World(start, EMPTY, 0, 0, 0.0, 0.0)
    else
      Step(Run(start, events[..|events| - 1], user, rate, discount), events[|events| - 1], user, rate, discount)
  }

  predicate Foreign(e: Event) {
    e.Other? ==> e.posting.kind != ChargeHermes
  }

  /** What the ledger took from `user` under the OpenRouter kind. */
  function TakenFrom(rows: seq<Posting>, user: int): int {
    if rows == [] then 0
    else
      var last := rows[|rows| - 1];
      TakenFrom(rows[..|rows| - 1], user) - (if last.user == user && last.kind == ChargeHermes then last.amount else 0)
  }

  ghost predicate Inv(w: World, start: real, user: int, rate: real, discount: real) {
    && w.mark == start + w.usd - w.fallen
    && w.fallen >= 0.0
    && AbsReal(w.micro as real - SpendMicro(w.usd, rate, discount)) <= w.charges as real * 0.5
    && TakenFrom(w.db.rows, user) == w.micro
    && Consistent(w.db)
  }

  lemma {:induction false} TakenAppend(rows: seq<Posting>, p: Posting, user: int)
    ensures TakenFrom(rows + [p], user)
         == TakenFrom(rows, user) - (if p.user == user && p.kind == ChargeHermes then p.amount else 0)
  {
    assert (rows + [p])[..|rows|] == rows;
  }

  lemma {:induction false} SpendAdds(a: real, b: real, rate: real, discount: real)
    ensures SpendMicro(a + b, rate, discount) == SpendMicro(a, rate, discount) + SpendMicro(b, rate, discount)
  {
    Distribute(a, b, rate);
    Distribute(a * rate, b * rate, DiscountMultiplier(discount));
    Distribute(a * rate * DiscountMultiplier(discount), b * rate * DiscountMultiplier(discount), MICRO);
  }

  lemma {:induction false} SpendNonNegative(usd: real, rate: real, discount: real)
    requires usd >= 0.0 && rate >= 0.0
    ensures SpendMicro(usd, rate, discount) >= 0.0
  {
    ScaleNonNegative(usd, rate);
    ScaleNonNegative(usd * rate, DiscountMultiplier(discount));
    ScaleNonNegative(usd * rate * DiscountMultiplier(discount), MICRO);
  }

  lemma {:induction false} StepKeepsInv(w: World, e: Event, start: real, user: int, rate: real, discount: real)
    requires Inv(w, start, user, rate, discount) && Foreign(e) && rate >= 0.0
    ensures Inv(Step(w, e, user, rate, discount), start, user, rate, discount)
  {
    hide Consistent, TakenFrom, SpendMicro, Taken, Decimal;
    match e
    case Other(p) =>
      PostKeepsConsistent(w.db, p);
      TakenAppend(w.db.rows, p, user);
    case Read(usage, bucket, crash) =>
      var r := MeterPass(w.mark, w.db, user, usage, bucket, rate, discount);
      if !crash && r.micro > 0 {
        var p := ChargePosting(user, r.micro, bucket);
        PostKeepsConsistent(w.db, p);
        TakenAppend(w.db.rows, p, user);
        SpendAdds(w.usd, usage - w.mark, rate, discount);
        SpendNonNegative(usage - w.mark, rate, discount);
      }
  }

  lemma {:induction false} RunKeepsInv(start: real, events: seq<Event>, user: int, rate: real, discount: real)
    requires forall i :: 0 <= i < |events| ==> Foreign(events[i])
    requires rate >= 0.0
    ensures Inv(Run(start, events, user, rate, discount), start, user, rate, discount)
  {
    if events == [] {
      assert SpendMicro(0.0, rate, discount) == 0.0;
    } else {
      RunKeepsInv(start, events[..|events| - 1], user, rate, discount);
      StepKeepsInv(Run(start, events[..|events| - 1], user, rate, discount), events[|events| - 1],
                   start, user, rate, discount);
    }
  }

  /** Over every run at a fixed rate, n committed charges total within n/2 micro-Toman
      of the exact price of the dollars they were for, and the ledger holds them. */
  lemma {:induction false} SpendIsBilledToHalfAUnit(
    start: real, events: seq<Event>, user: int, rate: real, discount: real)
    requires forall i :: 0 <= i < |events| ==> Foreign(events[i])
    requires rate >= 0.0
    ensures var w := Run(start, events, user, rate, discount);
            && AbsReal(w.micro as real - SpendMicro(w.usd, rate, discount)) <= w.charges as real * 0.5
            && TakenFrom(w.db.rows, user) == w.micro
            && Consistent(w.db)
  {
    RunKeepsInv(start, events, user, rate, discount);
  }

  /** The supplier never reported a figure below the mark of its moment. */
  ghost predicate NeverBelowMark(start: real, events: seq<Event>, user: int, rate: real, discount: real) {
    forall i :: 0 <= i < |events| && events[i].Read? && !events[i].crash ==>
      Run(start, events[..i], user, rate, discount).mark <= events[i].usage
  }

  lemma FallStep(w: World, e: Event, user: int, rate: real, discount: real)
    ensures Step(w, e, user, rate, discount).fallen
         == w.fallen + (if e.Read? && !e.crash && e.usage < w.mark then w.mark - e.usage else 0.0)
  {
  }

  lemma {:induction false} FallenIsSumOfFalls(start: real, events: seq<Event>, user: int, rate: real, discount: real)
    ensures Run(start, events, user, rate, discount).fallen >= 0.0
    ensures Run(start, events, user, rate, discount).fallen == 0.0
       <==> NeverBelowMark(start, events, user, rate, discount)
  {
    hide Step;
    if events != [] {
      var n := |events| - 1;
      var front := events[..n];
      FallenIsSumOfFalls(start, front, user, rate, discount);
      FallStep(Run(start, front, user, rate, discount), events[n], user, rate, discount);
      assert forall i :: 0 <= i < n ==> front[..i] == events[..i] && front[i] == events[i];
    }
  }

  /** The dollars billed are the dollars the mark moved exactly when the supplier's
      figure never dipped below the mark: a figure that falls and recovers is billed
      twice, because the mark follows it down. */
  lemma {:induction false} BilledOnceIffNoFall(start: real, events: seq<Event>, user: int, rate: real, discount: real)
    requires forall i :: 0 <= i < |events| ==> Foreign(events[i])
    requires rate >= 0.0
    ensures var w := Run(start, events, user, rate, discount);
            w.usd == w.mark - start <==> NeverBelowMark(start, events, user, rate, discount)
  {
    RunKeepsInv(start, events, user, rate, discount);
    FallenIsSumOfFalls(start, events, user, rate, discount);
  }

  /** After a pass that was not a duplicate, what is left unbilled is worth at most
      half a micro-Toman. */
  lemma {:induction false} RemainderIsSmall(
    mark: real, db: Db, user: int, usage: real, bucket: int, rate: real, discount: real)
    requires rate >= 0.0
    requires !Taken(db.rows, ChargePosting(user, BillMicro(usage - mark, rate, discount), bucket))
    ensures var r := MeterPass(mark, db, user, usage, bucket, rate, discount);
            r.mark <= usage && SpendMicro(usage - r.mark, rate, discount) <= 0.5
  {
    if usage > mark {
      SpendNonNegative(usage - mark, rate, discount);
    }
    assert SpendMicro(0.0, rate, discount) == 0.0;
  }
}
