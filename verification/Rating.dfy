/**
 * Call rating: longest-prefix match on the dialed digits, billing in whole
 * increments, prices rounded to five decimals. Money is exact (`real`).
 */
module Rating {
  import opened Common

  datatype Rate = Rate(prefix: string, sellPerMin: real, setupFee: real, incrementSecs: int, minSecs: int)

  datatype Plan = Plan(id: int, currency: string, isDefault: bool, rates: seq<Rate>)

  datatype Book = Book(plans: map<int, Plan>, defaultPlanId: Option<int>)

  datatype Rated = Rated(cost: real, currency: string, ratePrefix: string, billedSecs: int)

  datatype Quote = Quote(cost: real, currency: string)

  // ----- the rate book -----

  /** The default among the first `n` rows: the first one flagged. */
  function FirstFlagged(rows: seq<Plan>, n: nat): Option<int>
    requires n <= |rows|
  {
    if n == 0 then None
    else
      var before := FirstFlagged(rows, n - 1);
      if before.None? && rows[n - 1].isDefault then Some(rows[n - 1].id) else before
  }

  /** Later rows with the same id replace earlier ones. */
  function ById(rows: seq<Plan>, n: nat): map<int, Plan>
    requires n <= |rows|
  {
    if n == 0 then map[] else ById(rows, n - 1)[rows[n - 1].id := rows[n - 1]]
  }

  function Loaded(rows: seq<Plan>): Book {
    var flagged := FirstFlagged(rows, |rows|);
    Book(ById(rows, |rows|), if flagged.None? && rows != [] then Some(rows[0].id) else flagged)
  }

  function ResolvePlan(book: Book, planId: Option<int>): Option<Plan> {
    if planId.Some? && planId.value in book.plans then Some(book.plans[planId.value])
    else if book.defaultPlanId.Some? && book.defaultPlanId.value in book.plans
    then Some(book.plans[book.defaultPlanId.value])
    else None
  }

  class RatingService {
    var plans: map<int, Plan>
    var defaultPlanId: Option<int>

    function Model(): Book
      reads this
    {
      Book(plans, defaultPlanId)
    }

    constructor ()
      ensures Model() == Loaded([])
    {
      plans, defaultPlanId := map[], None;
    }

    /** A failed load (`rows` absent) keeps the previous book. */
    method Reload(rows: Option<seq<Plan>>) returns (count: nat)
      modifies this
      ensures Model() == if rows.Some? then Loaded(rows.value) else old(Model())
      ensures count == |plans|
    {
      if rows.None? {
        return |plans|;
      }
      var all := rows.value;
      var next: map<int, Plan> := map[];
      var defaultId: Option<int> := None;
      for i := 0 to |all|
        invariant next == ById(all, i) && defaultId == FirstFlagged(all, i)
      {
        next := next[all[i].id := all[i]];
        if all[i].isDefault && defaultId.None? {
          defaultId := Some(all[i].id);
        }
      }
      if defaultId.None? && |all| > 0 {
        defaultId := Some(all[0].id);
      }
      plans, defaultPlanId := next, defaultId;
      return |next|;
    }
  }

  lemma {:induction false} BookRows(rows: seq<Plan>, n: nat)
    requires n <= |rows|
    ensures forall i :: 0 <= i < n ==> rows[i].id in ById(rows, n)
    ensures n == 0 ==> ById(rows, n) == map[]
    ensures var flagged := FirstFlagged(rows, n); flagged.Some? ==> flagged.value in ById(rows, n)
  {
    if n > 0 {
      BookRows(rows, n - 1);
    }
  }

  /** Whatever plan a user is assigned, a loaded book resolves to some plan exactly when it has any. */
  lemma LoadedBookResolves(rows: seq<Plan>, planId: Option<int>)
    ensures ResolvePlan(Loaded(rows), planId).Some? <==> rows != []
    ensures Loaded(rows).plans == map[] <==> rows == []
  {
    BookRows(rows, |rows|);
  }

  lemma {:induction false} LastRowWins(rows: seq<Plan>, n: nat, i: nat)
    requires i < n <= |rows| && forall j :: i < j < n ==> rows[j].id != rows[i].id
    ensures rows[i].id in ById(rows, n) && ById(rows, n)[rows[i].id] == rows[i]
  {
    if i < n - 1 {
      LastRowWins(rows, n - 1, i);
    }
  }

  lemma {:induction false} NoFlag(rows: seq<Plan>, n: nat)
    requires n <= |rows| && forall j :: 0 <= j < n ==> !rows[j].isDefault
    ensures FirstFlagged(rows, n).None?
  {
    if n > 0 {
      NoFlag(rows, n - 1);
    }
  }

  lemma {:induction false} FirstFlagWins(rows: seq<Plan>, n: nat, i: nat)
    requires i < n <= |rows| && rows[i].isDefault && forall j :: 0 <= j < i ==> !rows[j].isDefault
    ensures FirstFlagged(rows, n) == Some(rows[i].id)
  {
    if i < n - 1 {
      FirstFlagWins(rows, n - 1, i);
    } else {
      NoFlag(rows, i);
    }
  }

  lemma {:induction false} UnknownId(rows: seq<Plan>, n: nat, id: int)
    requires n <= |rows| && forall j :: 0 <= j < n ==> rows[j].id != id
    ensures id !in ById(rows, n)
  {
    if n > 0 {
      UnknownId(rows, n - 1, id);
    }
  }

  /** `rows[i]` is the row that stands for its id. */
  ghost predicate StandsForId(rows: seq<Plan>, i: nat) {
    i < |rows| && forall j :: i < j < |rows| ==> rows[j].id != rows[i].id
  }

  /** `rows[i]` is the first one flagged as default, or the very first when none is. */
  ghost predicate IsDefaultRow(rows: seq<Plan>, i: nat) {
    && i < |rows|
    && (forall j :: 0 <= j < i ==> !rows[j].isDefault)
    && (!rows[i].isDefault ==> i == 0 && forall j :: 0 <= j < |rows| ==> !rows[j].isDefault)
  }

  ghost predicate UnknownPlan(rows: seq<Plan>, planId: Option<int>) {
    planId.Some? ==> forall j :: 0 <= j < |rows| ==> rows[j].id != planId.value
  }

  /** A user's own plan is the row of its id; a user without one, or with an unknown one, gets the default row's plan. */
  lemma LoadedBookIs(rows: seq<Plan>, planId: Option<int>, i: nat, d: nat)
    requires StandsForId(rows, i)
    ensures planId == Some(rows[i].id) ==> ResolvePlan(Loaded(rows), planId) == Some(rows[i])
    ensures UnknownPlan(rows, planId) && IsDefaultRow(rows, d) && rows[d].id == rows[i].id ==>
      ResolvePlan(Loaded(rows), planId) == Some(rows[i])
  {
    LastRowWins(rows, |rows|, i);
    if planId.Some? && UnknownPlan(rows, planId) {
      UnknownId(rows, |rows|, planId.value);
    }
    if IsDefaultRow(rows, d) {
      if rows[d].isDefault {
        FirstFlagWins(rows, |rows|, d);
      } else {
        NoFlag(rows, |rows|);
      }
    }
  }

  // ----- matching -----

  predicate IsDigit(c: char) {
    '0' <= c <= '9'
  }

  function Digits(value: string): string {
    if value == "" then ""
    else
      var n := |value| - 1;
      Digits(value[..n]) + (if IsDigit(value[n]) then [value[n]] else "")
  }

  method ToDigits(value: string) returns (out: string)
    ensures out == Digits(value)
  {
    out := "";
    for i := 0 to |value|
      invariant out == Digits(value[..i])
    {
      assert value[..i + 1][..i] == value[..i];
      if '0' <= value[i] <= '9' {
        out := out + [value[i]];
      }
    }
    assert value[..|value|] == value;
  }

  lemma {:induction false} DigitsConcat(a: string, b: string)
    ensures Digits(a + b) == Digits(a) + Digits(b)
  {
    if b == "" {
      assert a + b == a;
    } else {
      var n := |b| - 1;
      DigitsConcat(a, b[..n]);
      assert (a + b)[..|a + b| - 1] == a + b[..n];
    }
  }

  lemma TenDigits(c: char)
    ensures IsDigit(c) <==> c in "0123456789"
  {
    var ten := "0123456789";
    if IsDigit(c) {
      assert ten[c as int - '0' as int] == c;
    }
  }

  /** The ten digits are kept and every other character goes, wherever it stands. */
  lemma DigitsAre(before: string, c: char, after: string)
    ensures Digits(before + [c] + after) == Digits(before) + (if c in "0123456789" then [c] else "") + Digits(after)
  {
    DigitsConcat(before + [c], after);
    DigitsConcat(before, [c]);
    assert [c][..0] == "";
    TenDigits(c);
  }

  /** The rate applies to the number: its prefix is not empty and the number starts with it. */
  predicate Applies(rate: Rate, digits: string) {
    rate.prefix != "" && rate.prefix <= digits
  }

  function Match(rates: seq<Rate>, digits: string): Option<Rate> {
    if rates == [] then None
    else
      var n := |rates| - 1;
      var best := Match(rates[..n], digits);
      if Applies(rates[n], digits) && (best.None? || |rates[n].prefix| > |best.value.prefix|) then Some(rates[n]) else best
  }

  method LongestPrefixMatch(rates: seq<Rate>, digits: string) returns (best: Option<Rate>)
    ensures best == Match(rates, digits)
  {
    best := None;
    for i := 0 to |rates|
      invariant best == Match(rates[..i], digits)
    {
      assert rates[..i + 1][..i] == rates[..i];
      var rate := rates[i];
      if rate.prefix != "" && rate.prefix <= digits {
        if best.None? || |rate.prefix| > |best.value.prefix| {
          best := Some(rate);
        }
      }
    }
    assert rates[..|rates|] == rates;
  }

  /** The match is a rate with a non-empty prefix of the digits that no other such prefix exceeds; none only when there is none. */
  lemma {:induction false} MatchIsLongest(rates: seq<Rate>, digits: string)
    ensures var best := Match(rates, digits);
      && (best.Some? ==> best.value in rates && best.value.prefix != "" && best.value.prefix <= digits)
      && (forall r :: r in rates && r.prefix != "" && r.prefix <= digits ==>
            best.Some? && |r.prefix| <= |best.value.prefix|)
  {
    if rates != [] {
      var n := |rates| - 1;
      MatchIsLongest(rates[..n], digits);
      assert forall r :: r in rates ==> r in rates[..n] || r == rates[n];
    }
  }

  /** Among rates with the same prefix the first one counts. */
  lemma {:induction false} MatchIsFirst(rates: seq<Rate>, digits: string, k: nat)
    requires k < |rates| && rates[k].prefix != "" && rates[k].prefix <= digits
    requires forall j :: 0 <= j < |rates| && rates[j].prefix != "" && rates[j].prefix <= digits ==>
      |rates[j].prefix| <= |rates[k].prefix| && (j < k ==> |rates[j].prefix| < |rates[k].prefix|)
    ensures Match(rates, digits) == Some(rates[k])
  {
    var n := |rates| - 1;
    var init := rates[..n];
    if k < n {
      MatchIsFirst(init, digits, k);
    } else {
      MatchIsLongest(init, digits);
      var best := Match(init, digits);
      if best.Some? {
        var j :| 0 <= j < |init| && init[j] == best.value;
        assert rates[j] == best.value;
      }
    }
  }

  /** With distinct prefixes, the order of the rates is irrelevant. */
  lemma MatchOrderIrrelevant(a: seq<Rate>, b: seq<Rate>, digits: string)
    requires forall r :: r in a <==> r in b
    requires forall r, s :: r in a && s in a && r.prefix == s.prefix ==> r == s
    ensures Match(a, digits) == Match(b, digits)
  {
    MatchIsLongest(a, digits);
    MatchIsLongest(b, digits);
    var x, y := Match(a, digits), Match(b, digits);
    if x.Some? && y.Some? {
      assert |x.value.prefix| == |y.value.prefix|;
      assert x.value.prefix == digits[..|x.value.prefix|] == y.value.prefix;
    }
  }

  // ----- pricing -----

  /** The least whole number not below `x`. */
  function Ceil(x: real): (c: int)
    ensures c as real >= x > (c - 1) as real
  {
    -((-x).Floor)
  }

  function BillableSeconds(duration: real, incrementSecs: int, minSecs: int): (billed: int)
  {
    var inc := if incrementSecs > 0 then incrementSecs else 60;
    Max(Ceil(duration / inc as real) * inc, if minSecs > 0 then minSecs else 0)
  }

  function Round5(value: real): real {
    (value * 100000.0 + 0.5).Floor as real / 100000.0
  }

  function Price(rate: Rate, billed: int): real {
    rate.setupFee + rate.sellPerMin * billed as real / 60.0
  }

  function Cost(rate: Rate, billed: int): real {
    Round5(Price(rate, billed))
  }

  function RateCall(book: Book, dialed: string, duration: real, planId: Option<int>): Option<Rated> {
    if duration <= 0.0 then None
    else
      match ResolvePlan(book, planId)
      case None => None
      case Some(plan) =>
        var digits := Digits(dialed);
        if digits == "" then None
        else
          match Match(plan.rates, digits)
          case None => None
          case Some(rate) =>
            var billed := BillableSeconds(duration, rate.incrementSecs, rate.minSecs);
            Some(Rated(Cost(rate, billed), plan.currency, rate.prefix, billed))
  }

  function EstimateMinCharge(book: Book, dialed: string, planId: Option<int>): Option<Quote> {
    match ResolvePlan(book, planId)
    case None => None
    case Some(plan) =>
      var digits := Digits(dialed);
      if digits == "" then None
      else
        match Match(plan.rates, digits)
        case None => None
        case Some(rate) =>
          Some(Quote(Cost(rate, BillableSeconds(1.0, rate.incrementSecs, rate.minSecs)), plan.currency))
  }

  predicate IsUnrated(book: Book, dialed: string, planId: Option<int>) {
    && book.plans != map[]
    && ResolvePlan(book, planId).Some?
    && Digits(dialed) != ""
    && Match(ResolvePlan(book, planId).value.rates, Digits(dialed)).None?
  }

  /** No plan has a negative price. */
  ghost predicate PricesNotNegative(book: Book) {
    forall id, r :: id in book.plans && r in book.plans[id].rates ==> r.setupFee >= 0.0 && r.sellPerMin >= 0.0
  }

  /** Some rate of the plan has a non-empty prefix of the digits. */
  ghost predicate HasRate(plan: Plan, digits: string) {
    exists r :: r in plan.rates && r.prefix != "" && r.prefix <= digits
  }

  /**
   * Whether a rate applies is one question with one answer: pricing a call of
   * any positive length, quoting its minimum and the unrated gate agree on every
   * number and every book, and the answer is whether some rate of the resolved
   * plan has a prefix of the digits.
   */
  lemma RatingAgrees(book: Book, dialed: string, duration: real, planId: Option<int>)
    ensures var plan, digits := ResolvePlan(book, planId), Digits(dialed);
      var rated := plan.Some? && HasRate(plan.value, digits);
      && (RateCall(book, dialed, duration, planId).Some? <==> duration > 0.0 && rated)
      && (EstimateMinCharge(book, dialed, planId).Some? <==> rated)
      && (IsUnrated(book, dialed, planId) <==> plan.Some? && digits != "" && !rated)
  {
    var plan := ResolvePlan(book, planId);
    if plan.Some? {
      MatchIsLongest(plan.value.rates, Digits(dialed));
      assert book.plans != map[];
    }
  }

  lemma IncrementBounds(duration: real, d: real, c: int)
    requires d > 0.0 && c as real >= duration / d > (c - 1) as real
    ensures c as real * d >= duration
    ensures duration > c as real * d - d
  {
    var q, k := duration / d, c as real;
    assert q * d == duration;
    assert (k - q) * d >= 0.0;
    var e := q - k + 1.0;
    assert e > 0.0;
    assert e * d > 0.0;
    assert e * d == q * d - k * d + d;
  }

  lemma MultipleOf(c: int, n: int)
    requires n > 0
    ensures (c * n) % n == 0
  {
    var q, r := (c * n) / n, (c * n) % n;
    assert c * n == q * n + r;
    assert (c - q) * n == r;
    assert c - q >= 1 ==> (c - q) * n >= n;
    assert c - q <= -1 ==> (c - q) * n <= -n;
  }

  /** Billing rounds up to whole increments and to the minimum, and no further. */
  lemma BilledIs(duration: real, incrementSecs: int, minSecs: int)
    requires duration > 0.0
    ensures var billed := BillableSeconds(duration, incrementSecs, minSecs);
      var inc := if incrementSecs > 0 then incrementSecs else 60;
      && billed as real >= duration && billed >= minSecs
      && (billed == minSecs || (billed % inc == 0 && (billed - inc) as real < duration))
  {
    var inc := if incrementSecs > 0 then incrementSecs else 60;
    var d := inc as real;
    var c := Ceil(duration / d);
    IncrementBounds(duration, d, c);
    assert (c * inc) as real == c as real * d;
    MultipleOf(c, inc);
  }

  /** The plan that prices the user's calls: the one asked for if it is known, else the default. */
  ghost predicate IsPlanOf(book: Book, planId: Option<int>, plan: Plan) {
    if planId.Some? && planId.value in book.plans then plan == book.plans[planId.value]
    else book.defaultPlanId.Some? && book.defaultPlanId.value in book.plans && plan == book.plans[book.defaultPlanId.value]
  }

  /** The fee and the billed minutes, before rounding. */
  ghost function ExactPrice(rate: Rate, billed: int): real {
    rate.setupFee + rate.sellPerMin * (billed as real / 60.0)
  }

  lemma PriceIs(rate: Rate, billed: int)
    ensures Price(rate, billed) == ExactPrice(rate, billed)
  {
    var m := billed as real / 60.0;
    assert billed as real == m * 60.0;
    assert rate.sellPerMin * billed as real == rate.sellPerMin * m * 60.0;
  }

  lemma RoundedIs(x: real) returns (units: int)
    ensures Round5(x) * 100000.0 == units as real
    ensures x * 100000.0 - 0.5 < units as real <= x * 100000.0 + 0.5
  {
    units := (x * 100000.0 + 0.5).Floor;
  }

  lemma CostIs(rate: Rate, billed: int) returns (units: int)
    ensures Cost(rate, billed) * 100000.0 == units as real
    ensures ExactPrice(rate, billed) * 100000.0 - 0.5 < units as real <= ExactPrice(rate, billed) * 100000.0 + 0.5
  {
    PriceIs(rate, billed);
    units := RoundedIs(Price(rate, billed));
  }

  /**
   * What a call costs: by the longest matching rate of the user's plan, billed
   * in whole increments and at least the minimum, the fee plus the price of the
   * billed minutes, to the nearest hundred-thousandth.
   */
  lemma RatedIs(book: Book, dialed: string, duration: real, planId: Option<int>)
    returns (plan: Plan, rate: Rate, units: int)
    requires RateCall(book, dialed, duration, planId).Some?
    ensures IsPlanOf(book, planId, plan)
    ensures rate in plan.rates && rate.prefix != "" && rate.prefix <= Digits(dialed)
    ensures forall r :: r in plan.rates && r.prefix != "" && r.prefix <= Digits(dialed) ==> |r.prefix| <= |rate.prefix|
    ensures var rated := RateCall(book, dialed, duration, planId).value;
      var inc := if rate.incrementSecs > 0 then rate.incrementSecs else 60;
      var exact := ExactPrice(rate, rated.billedSecs);
      && rated.currency == plan.currency && rated.ratePrefix == rate.prefix
      && rated.cost * 100000.0 == units as real
      && exact * 100000.0 - 0.5 < units as real <= exact * 100000.0 + 0.5
      && rated.billedSecs as real >= duration && rated.billedSecs >= rate.minSecs
      && (rated.billedSecs == rate.minSecs || (rated.billedSecs % inc == 0 && (rated.billedSecs - inc) as real < duration))
  {
    plan := ResolvePlan(book, planId).value;
    MatchIsLongest(plan.rates, Digits(dialed));
    rate := Match(plan.rates, Digits(dialed)).value;
    var rated := RateCall(book, dialed, duration, planId).value;
    BilledIs(duration, rate.incrementSecs, rate.minSecs);
    units := CostIs(rate, rated.billedSecs);
  }

  /** The quoted minimum is the price of one second. */
  lemma QuoteIsOneSecond(book: Book, dialed: string, planId: Option<int>)
    ensures var second := RateCall(book, dialed, 1.0, planId);
      EstimateMinCharge(book, dialed, planId) ==
      if second.Some? then Some(Quote(second.value.cost, second.value.currency)) else None
  {
  }

  lemma CeilMonotone(x: real, y: real)
    requires x <= y
    ensures Ceil(x) <= Ceil(y)
  {
  }

  lemma MulMonotone(a: int, b: int, n: int)
    requires a <= b && n >= 0
    ensures a * n <= b * n
  {
    assert (b - a) * n >= 0;
  }

  lemma DivMonotone(x: real, y: real, d: real)
    requires x <= y && d > 0.0
    ensures x / d <= y / d
  {
    assert (y - x) / d >= 0.0;
  }

  /** Billing rounds up to whole increments, never below the call or the minimum, and never falls with length. */
  lemma BillableSecondsMonotone(x: real, y: real, incrementSecs: int, minSecs: int)
    requires x <= y
    ensures BillableSeconds(x, incrementSecs, minSecs) <= BillableSeconds(y, incrementSecs, minSecs)
  {
    var inc := if incrementSecs > 0 then incrementSecs else 60;
    DivMonotone(x, y, inc as real);
    CeilMonotone(x / inc as real, y / inc as real);
    MulMonotone(Ceil(x / inc as real), Ceil(y / inc as real), inc);
  }

  /** Any positive fraction of a second is billed at least like the first second. */
  lemma FirstIncrement(x: real, incrementSecs: int, minSecs: int)
    requires x > 0.0
    ensures BillableSeconds(1.0, incrementSecs, minSecs) <= BillableSeconds(x, incrementSecs, minSecs)
  {
    var inc := if incrementSecs > 0 then incrementSecs else 60;
    var d := inc as real;
    assert 1.0 / d <= 1.0 by { DivMonotone(1.0, d, d); }
    assert Ceil(1.0 / d) <= 1;
    assert x / d > 0.0;
    assert Ceil(x / d) >= 1;
    MulMonotone(Ceil(1.0 / d), Ceil(x / d), inc);
  }

  lemma RoundMonotone(x: real, y: real)
    requires x <= y
    ensures Round5(x) <= Round5(y)
  {
    var a, b := (x * 100000.0 + 0.5).Floor, (y * 100000.0 + 0.5).Floor;
    assert a <= b;
    DivMonotone(a as real, b as real, 100000.0);
  }

  lemma CostMonotone(rate: Rate, a: int, b: int)
    requires rate.sellPerMin >= 0.0 && a <= b
    ensures Cost(rate, a) <= Cost(rate, b)
  {
    var x, y := rate.sellPerMin * a as real, rate.sellPerMin * b as real;
    assert y - x == rate.sellPerMin * (b - a) as real;
    DivMonotone(x, y, 60.0);
    assert Price(rate, a) <= Price(rate, b);
    RoundMonotone(Price(rate, a), Price(rate, b));
  }

  /** The rate that prices a call, when one does. */
  lemma PricingRate(book: Book, dialed: string, planId: Option<int>) returns (rate: Rate)
    requires PricesNotNegative(book) && ResolvePlan(book, planId).Some?
    requires Match(ResolvePlan(book, planId).value.rates, Digits(dialed)).Some?
    ensures Match(ResolvePlan(book, planId).value.rates, Digits(dialed)) == Some(rate)
    ensures rate.sellPerMin >= 0.0 && rate.setupFee >= 0.0
  {
    var plan := ResolvePlan(book, planId).value;
    MatchIsLongest(plan.rates, Digits(dialed));
    rate := Match(plan.rates, Digits(dialed)).value;
    var id := if planId.Some? && planId.value in book.plans then planId.value else book.defaultPlanId.value;
    assert id in book.plans && rate in book.plans[id].rates;
  }

  /** A longer call is never cheaper. */
  lemma CostNeverFalls(book: Book, dialed: string, short: real, long: real, planId: Option<int>)
    requires 0.0 < short <= long && PricesNotNegative(book)
    ensures var a, b := RateCall(book, dialed, short, planId), RateCall(book, dialed, long, planId);
      (a.Some? <==> b.Some?) && (a.Some? ==> a.value.cost <= b.value.cost && a.value.billedSecs <= b.value.billedSecs)
  {
    if RateCall(book, dialed, short, planId).Some? {
      var rate := PricingRate(book, dialed, planId);
      BillableSecondsMonotone(short, long, rate.incrementSecs, rate.minSecs);
      CostMonotone(rate, BillableSeconds(short, rate.incrementSecs, rate.minSecs),
                   BillableSeconds(long, rate.incrementSecs, rate.minSecs));
    }
  }

  /** No call of any positive length costs less than the minimum quoted before it. */
  lemma CostAtLeastMinimum(book: Book, dialed: string, duration: real, planId: Option<int>)
    requires duration > 0.0 && PricesNotNegative(book) && RateCall(book, dialed, duration, planId).Some?
    ensures var quote := EstimateMinCharge(book, dialed, planId);
      quote.Some? && quote.value.cost <= RateCall(book, dialed, duration, planId).value.cost
  {
    var rate := PricingRate(book, dialed, planId);
    FirstIncrement(duration, rate.incrementSecs, rate.minSecs);
    CostMonotone(rate, BillableSeconds(1.0, rate.incrementSecs, rate.minSecs),
                 BillableSeconds(duration, rate.incrementSecs, rate.minSecs));
  }
}
