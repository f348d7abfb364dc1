/** The promotion routes: the validity window, the title-based eligibility
    rules and the discount applied to a trip price. The promotion and the
    user's trips are the rows the database returned; `now` is a parameter. */
module Promotions {
  import opened Wrappers
  import opened Text
  import opened JsMath

  /** A point in time, in milliseconds. */
  type Time = int

  /** A row of `promotions`; a `None` discount is `null`. */
  datatype Promotion = Promotion(
    id: string,
    title: string,
    discountPercentage: Option<int>,
    discountAmount: Option<int>,
    validFrom: Time,
    validUntil: Time,
    isActive: bool)

  /** The `id, status` pair selected from the user's trips. */
  datatype TripSummary = TripSummary(id: string, status: string)

  datatype PromoError =
    | InvalidTripPrice    // 400 'Invalid trip price'
    | PromotionNotFound   // 404 'Promotion not found'
    | PromotionNotValid   // 400 'Promotion not valid'

  /** The HTTP status each error answers with. */
  function HttpStatus(e: PromoError): int {
    if e == PromotionNotFound then 404 else 400
  }

  /** The negation of `!is_active || now < validFrom || now > validUntil`:
      active, and inside the window with both ends included. */
  function CurrentlyValid(p: Promotion, now: Time): (ok: bool)
    ensures ok <==> p.isActive && p.validFrom <= now <= p.validUntil
  {
    !(!p.isActive || now < p.validFrom || now > p.validUntil)
  }

  /** The statuses of the trips, in order. */
  function Statuses(trips: seq<TripSummary>): (r: seq<string>)
    ensures |r| == |trips|
    ensures forall i :: 0 <= i < |trips| ==> r[i] == trips[i].status
  {
    seq(|trips|, i requires 0 <= i < |trips| => trips[i].status)
  }

  /** `userTrips.filter(trip => trip.status === 'completed').length`: the
      number of times `completed` occurs among the statuses. */
  function CompletedCount(trips: seq<TripSummary>): (n: nat)
    ensures n == multiset(Statuses(trips))["completed"]
    ensures n <= |trips|
    ensures n == 0 <==> forall i :: 0 <= i < |trips| ==> trips[i].status != "completed"
  {
    if trips == [] then 0
    else
      assert Statuses(trips) == [trips[0].status] + Statuses(trips[1..]);
      (if trips[0].status == "completed" then 1 else 0) + CompletedCount(trips[1..])
  }

  const LoyaltyTrips: nat := 10
  const FirstRideReason: string := "This promotion is only for first-time users"
  const InactiveReason: string := "Promotion is not currently active"
  const EligibleReason: string := "You are eligible for this promotion"

  const LoyaltyReasonPrefix: string := "Complete "
  const LoyaltyReasonSuffix: string := " more trips to unlock this promotion"

  /** `Complete ${10 - completedTrips.length} more trips ...`: the number
      written is how many completed trips are still missing. */
  function LoyaltyReason(completed: nat): (reason: string)
    requires completed < LoyaltyTrips
    ensures |reason| > |LoyaltyReasonPrefix| + |LoyaltyReasonSuffix|
    ensures var count := reason[|LoyaltyReasonPrefix|..|reason| - |LoyaltyReasonSuffix|];
      && reason == LoyaltyReasonPrefix + count + LoyaltyReasonSuffix
      && AllDigits(count) && DigitsValue(count) == LoyaltyTrips - completed
  {
    var count := NatToDigits(LoyaltyTrips - completed);
    DigitsValueOfNatToDigits(LoyaltyTrips - completed);
    var reason := LoyaltyReasonPrefix + count + LoyaltyReasonSuffix;
    assert reason[|LoyaltyReasonPrefix|..|reason| - |LoyaltyReasonSuffix|] == count;
    reason
  }

  predicate IsFirstRideTitle(title: string) {
    Contains(Lower(title), "first ride")
  }

  predicate IsLoyaltyTitle(title: string) {
    Contains(Lower(title), "loyalty")
  }

  datatype Eligibility = Eligibility(eligible: bool, reason: string)

  /** The two title rules, in source order: `eligible` starts true and
      `reason` empty; the first-ride rule may clear `eligible`, then the
      loyalty rule may clear it and overwrite the reason. */
  function TitleRules(title: string, completed: nat): (e: Eligibility)
    ensures e.eligible <==> !(IsFirstRideTitle(title) && completed > 0) && !(IsLoyaltyTitle(title) && completed < LoyaltyTrips)
    ensures e.eligible ==> e.reason == ""
    ensures IsLoyaltyTitle(title) && completed < LoyaltyTrips ==> e.reason == LoyaltyReason(completed)
    ensures !e.eligible && !(IsLoyaltyTitle(title) && completed < LoyaltyTrips) ==> e.reason == FirstRideReason
  {
    var start := Eligibility(true, "");
    var afterFirstRide :=
      if IsFirstRideTitle(title) && completed > 0 then Eligibility(false, FirstRideReason) else start;
    var afterLoyalty :=
      if IsLoyaltyTitle(title) && completed < LoyaltyTrips then Eligibility(false, LoyaltyReason(completed))
      else afterFirstRide;
    afterLoyalty
  }

  /** The title rules as the handler runs them: `eligible` and `reason`
      start true and empty, and each rule that fires overwrites them. */
  method EvaluateTitleRules(title: string, completed: nat) returns (eligible: bool, reason: string)
    ensures Eligibility(eligible, reason) == TitleRules(title, completed)
  {
    eligible := true;
    reason := "";
    if IsFirstRideTitle(title) {
      if completed > 0 {
        eligible := false;
        reason := FirstRideReason;
      }
    }
    if IsLoyaltyTitle(title) {
      if completed < LoyaltyTrips {
        eligible := false;
        reason := LoyaltyReason(completed);
      }
    }
  }

  /** `GET /:promotionId/eligibility`; `promo` is `None` when it was not found. */
  function CheckEligibility(promo: Option<Promotion>, now: Time, trips: seq<TripSummary>): (r: Result<Eligibility, PromoError>)
    ensures r.Err? <==> promo.None?
    ensures r.Err? ==> r.error == PromotionNotFound
    ensures r.Ok? ==> (r.value.eligible <==>
              && CurrentlyValid(promo.value, now)
              && !(IsFirstRideTitle(promo.value.title) && CompletedCount(trips) > 0)
              && !(IsLoyaltyTitle(promo.value.title) && CompletedCount(trips) < LoyaltyTrips))
    ensures r.Ok? && !CurrentlyValid(promo.value, now) ==> r.value.reason == InactiveReason
    ensures r.Ok? && CurrentlyValid(promo.value, now) && !r.value.eligible
            ==> r.value.reason == TitleRules(promo.value.title, CompletedCount(trips)).reason
    ensures r.Ok? && r.value.eligible ==> r.value.reason == EligibleReason
  {
    if promo.None? then Err(PromotionNotFound)
    else if !CurrentlyValid(promo.value, now) then Ok(Eligibility(false, InactiveReason))
    else
      var e := TitleRules(promo.value.title, CompletedCount(trips));
      Ok(Eligibility(e.eligible, if e.eligible then EligibleReason else e.reason))
  }

  /** The title match ignores case: a "First Ride Bonus" is refused once the
      user has a completed trip and granted before. */
  lemma FirstRideBonusExample()
    ensures !TitleRules("First Ride Bonus", 1).eligible
    ensures TitleRules("First Ride Bonus", 0).eligible
  {
    assert Lower("First Ride Bonus") == "first ride bonus";
    assert StartsWith("first ride bonus", "first ride");
    assert 'l' !in "first ride bonus";
    ContainsNeedsFirstChar("first ride bonus", "loyalty");
  }

  /** A JavaScript number used as a condition: `null` and 0 are false. */
  predicate Truthy(x: Option<int>) {
    x.Some? && x.value != 0
  }

  /** The discount of lines 224-230: a percentage, rounded, if one is set;
      otherwise a fixed amount capped at the price; otherwise nothing. */
  function DiscountAmount(p: Promotion, tripPrice: int): (d: int)
    ensures !Truthy(p.discountPercentage) && !Truthy(p.discountAmount) ==> d == 0
    ensures Truthy(p.discountPercentage) ==> d == Round((tripPrice * p.discountPercentage.value) as real / 100.0)
    ensures !Truthy(p.discountPercentage) && Truthy(p.discountAmount) ==>
      d <= p.discountAmount.value && d <= tripPrice && (d == p.discountAmount.value || d == tripPrice)
    ensures Truthy(p.discountPercentage) && 0 < p.discountPercentage.value <= 100 && tripPrice >= 0 ==>
              0 <= d <= tripPrice
  {
    if Truthy(p.discountPercentage) then
      PercentageWithinPrice(tripPrice, p.discountPercentage.value);
      Round((tripPrice * p.discountPercentage.value) as real / 100.0)
    else if Truthy(p.discountAmount) then
      if p.discountAmount.value < tripPrice then p.discountAmount.value else tripPrice
    else 0
  }

  /** A percentage between 0 and 100 of a non-negative price, rounded, lies
      between 0 and the price. */
  lemma PercentageWithinPrice(price: int, pct: int)
    ensures 0 <= pct <= 100 && price >= 0 ==> 0 <= Round((price * pct) as real / 100.0) <= price
  {
    if 0 <= pct <= 100 && price >= 0 {
      var x := (price * pct) as real / 100.0;
      assert 0 <= price * pct <= price * 100;
      assert 0.0 <= x <= price as real;
      RoundMonotone(0.0, x);
      RoundMonotone(x, price as real);
      RoundOfInteger(0);
      RoundOfInteger(price);
    }
  }

  /** The discount as the handler computes it: `discountAmount` starts at 0
      and is overwritten by the percentage or, failing that, the fixed amount. */
  method ComputeDiscount(p: Promotion, tripPrice: int) returns (discountAmount: int)
    ensures discountAmount == DiscountAmount(p, tripPrice)
  {
    discountAmount := 0;
    if Truthy(p.discountPercentage) {
      discountAmount := Round((tripPrice * p.discountPercentage.value) as real / 100.0);
    } else if Truthy(p.discountAmount) {
      discountAmount := if p.discountAmount.value < tripPrice then p.discountAmount.value else tripPrice;
    }
  }

  /** `Math.max(0, tripPrice - discountAmount)`. */
  function FinalPrice(tripPrice: int, discount: int): (f: int)
    ensures f >= 0
    ensures discount >= 0 && tripPrice >= 0 ==> f <= tripPrice
    ensures discount <= tripPrice ==> f + discount == tripPrice
    ensures discount > tripPrice ==> f == 0
  {
    if 0 < tripPrice - discount then tripPrice - discount else 0
  }

  datatype Discount = Discount(promotionId: string, originalPrice: int, discountAmount: int, finalPrice: int)

  /** `POST /:promotionId/apply`: the price is checked first, then the
      promotion's existence, then only its validity window (not the title
      rules). `tripPrice` is `None` when absent. */
  function ApplyPromotion(promo: Option<Promotion>, tripPrice: Option<int>, now: Time): (r: Result<Discount, PromoError>)
    ensures (tripPrice.None? || tripPrice.value <= 0) ==> r == Err(InvalidTripPrice)
    ensures r.Ok? <==> tripPrice.Some? && tripPrice.value > 0 && promo.Some? && CurrentlyValid(promo.value, now)
    ensures r.Ok? ==> r.value.originalPrice == tripPrice.value && r.value.finalPrice >= 0
    ensures r.Ok? && r.value.discountAmount >= 0 ==> r.value.finalPrice <= tripPrice.value
    ensures tripPrice.Some? && tripPrice.value > 0 && promo.None? ==> r == Err(PromotionNotFound)
    ensures tripPrice.Some? && tripPrice.value > 0 && promo.Some? && !CurrentlyValid(promo.value, now)
            ==> r == Err(PromotionNotValid)
    ensures r.Ok? ==> r.value.promotionId == promo.value.id
    ensures r.Ok? ==> r.value.discountAmount == DiscountAmount(promo.value, tripPrice.value)
    ensures r.Ok? ==> r.value.finalPrice == FinalPrice(tripPrice.value, r.value.discountAmount)
  {
    if tripPrice.None? || tripPrice.value == 0 || tripPrice.value <= 0 then Err(InvalidTripPrice)
    else if promo.None? then Err(PromotionNotFound)
    else if !CurrentlyValid(promo.value, now) then Err(PromotionNotValid)
    else
      var d := DiscountAmount(promo.value, tripPrice.value);
      Ok(Discount(promo.value.id, tripPrice.value, d, FinalPrice(tripPrice.value, d)))
  }

  /** Applying never looks at the title: the eligibility rules are not enforced. */
  lemma ApplyIgnoresTitle(p: Promotion, title: string, tripPrice: Option<int>, now: Time)
    ensures ApplyPromotion(Some(p), tripPrice, now) == ApplyPromotion(Some(p.(title := title)), tripPrice, now)
  {
  }

  /** A fixed non-negative amount (and no percentage) splits the price into
      the discount and what is left to pay. */
  lemma FixedAmountSplitsPrice(p: Promotion, tripPrice: int, now: Time)
    requires !Truthy(p.discountPercentage) && p.discountAmount.Some? && p.discountAmount.value >= 0
    requires tripPrice > 0 && CurrentlyValid(p, now)
    ensures ApplyPromotion(Some(p), Some(tripPrice), now).Ok?
    ensures var d := ApplyPromotion(Some(p), Some(tripPrice), now).value;
            0 <= d.discountAmount <= tripPrice && d.discountAmount + d.finalPrice == tripPrice
  {
  }

  /** A percentage between 1 and 100 does the same. */
  lemma PercentageSplitsPrice(p: Promotion, tripPrice: int, now: Time)
    requires Truthy(p.discountPercentage) && 0 < p.discountPercentage.value <= 100
    requires tripPrice > 0 && CurrentlyValid(p, now)
    ensures ApplyPromotion(Some(p), Some(tripPrice), now).Ok?
    ensures var d := ApplyPromotion(Some(p), Some(tripPrice), now).value;
            0 <= d.discountAmount <= tripPrice && d.discountAmount + d.finalPrice == tripPrice
  {
  }

  /** 20 % of 1000 DA is 200 DA off, 800 DA to pay. */
  lemma TwentyPercentExample(p: Promotion, now: Time)
    requires p.discountPercentage == Some(20) && CurrentlyValid(p, now)
    ensures ApplyPromotion(Some(p), Some(1000), now) == Ok(Discount(p.id, 1000, 200, 800))
  {
    assert Round(20000 as real / 100.0) == 200;
  }

  /** The eligibility check fails only with 404, for a missing promotion. */
  lemma CheckEligibilityCode(promo: Option<Promotion>, now: Time, trips: seq<TripSummary>)
    ensures var r := CheckEligibility(promo, now, trips);
      r.Err? ==> HttpStatus(r.error) == 404
  {
  }

  /** Applying answers 404 exactly for a missing promotion with a valid price,
      and 400 for a bad price or a promotion out of its window. */
  lemma ApplyPromotionCode(promo: Option<Promotion>, tripPrice: Option<int>, now: Time)
    ensures var r := ApplyPromotion(promo, tripPrice, now);
      r.Err? ==> HttpStatus(r.error) == (if tripPrice.Some? && tripPrice.value > 0 && promo.None? then 404 else 400)
  {
  }
}
