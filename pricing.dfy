/**
 * The discount policy and the payment calculator. Rates are whole
 * percents (0, 5, 10, 20, plus 25 for the Pizza of the Day); money is a
 * real number, so no binary floating point enters the model.
 */
module Pricing {

  datatype OrderType = Box | Slice

  /** The extra percentage points the Pizza of the Day receives. */
  const PizzaOfDayBonus: nat := 25

  /** Base rate of a box order: 10% for 5 to 9 boxes, 20% from 10 on. */
  function BoxBaseRate(quantity: nat): nat {
    if 5 <= quantity < 10 then 10
    else if quantity >= 10 then 20
    else 0
  }

  /** Base rate of a slice order: 5% from 8 slices on. */
  function SliceBaseRate(quantity: nat): nat {
    if quantity >= 8 then 5 else 0
  }

  function BaseRate(kind: OrderType, quantity: nat): nat {
    match kind
    case Box => BoxBaseRate(quantity)
    case Slice => SliceBaseRate(quantity)
  }

  /** The final rate: the base rate, plus the bonus when the pizza is the
      Pizza of the Day. Every rate the kiosk can charge is listed here, and
      none of them reaches 100%. */
  function DiscountRate(kind: OrderType, quantity: nat, isPizzaOfDay: bool): (rate: nat)
    ensures rate in {0, 5, 10, 20, 25, 30, 35, 45}
    ensures rate < 100
  {
    BaseRate(kind, quantity) + if isPizzaOfDay then PizzaOfDayBonus else 0
  }

  /** The discount_applied flag of a rate. */
  predicate DiscountApplied(rate: nat) {
    rate > 0
  }

  /** A whole percent as the fraction calculate_payment multiplies by. */
  function Fraction(percent: nat): real {
    percent as real / 100.0
  }

  /** calculate_payment: the undiscounted total minus its discount. */
  function Payment(price: real, quantity: int, rate: real): real {
    var total := price * quantity as real;
    total - total * rate
  }

  lemma BoxBaseRateTiers(quantity: nat)
    ensures quantity < 5 ==> BoxBaseRate(quantity) == 0
    ensures 5 <= quantity < 10 ==> BoxBaseRate(quantity) == 10
    ensures quantity >= 10 ==> BoxBaseRate(quantity) == 20
  {
  }

  lemma SliceBaseRateTier(quantity: nat)
    ensures SliceBaseRate(quantity) == 5 <==> quantity >= 8
    ensures SliceBaseRate(quantity) == 0 <==> quantity < 8
  {
  }

  /** The Pizza of the Day adds exactly 25 points to either base rate. */
  lemma PizzaOfDayAddsBonus(kind: OrderType, quantity: nat)
    ensures DiscountRate(kind, quantity, true) == DiscountRate(kind, quantity, false) + 25
    ensures DiscountRate(kind, quantity, false) == BaseRate(kind, quantity)
  {
  }

  /** discount_applied holds exactly when the pizza is the Pizza of the
      Day or the quantity reaches the first tier of its order type. */
  lemma DiscountAppliedIff(kind: OrderType, quantity: nat, isPizzaOfDay: bool)
    ensures DiscountApplied(DiscountRate(kind, quantity, isPizzaOfDay)) <==>
              isPizzaOfDay || (kind == Box && quantity >= 5) || (kind == Slice && quantity >= 8)
  {
  }

  /** Every charged rate is a fraction in [0, 1). */
  lemma RateIsFraction(kind: OrderType, quantity: nat, isPizzaOfDay: bool)
    ensures 0.0 <= Fraction(DiscountRate(kind, quantity, isPizzaOfDay)) < 1.0
  {
  }

  /** The payment is the undiscounted total scaled by (1 - rate). */
  lemma PaymentClosedForm(price: real, quantity: int, rate: real)
    ensures Payment(price, quantity, rate) == price * quantity as real * (1.0 - rate)
  {
  }

  lemma PaymentWithoutDiscount(price: real, quantity: int)
    ensures Payment(price, quantity, 0.0) == price * quantity as real
  {
  }

  /** A rate in [0, 1) never makes the payment negative nor larger than the
      undiscounted total. */
  lemma PaymentBounds(price: real, quantity: int, rate: real)
    requires price >= 0.0 && quantity >= 0 && 0.0 <= rate < 1.0
    ensures 0.0 <= Payment(price, quantity, rate) <= price * quantity as real
  {
    var total := price * quantity as real;
    ProductNonNegative(price, quantity as real);
    ProductNonNegative(total, rate);
    ProductNonNegative(total, 1.0 - rate);
    assert total - total * rate == total * (1.0 - rate);
  }

  lemma ProductNonNegative(a: real, b: real)
    requires a >= 0.0 && b >= 0.0
    ensures a * b >= 0.0
  {
  }

  /** Two worked orders: ten boxes at 4.00 with 20% off, and eight slices
      at 8.00 with 5% plus the Pizza of the Day's 25%. */
  lemma PaymentExamples()
    ensures Payment(4.0, 10, Fraction(DiscountRate(Box, 10, false))) == 32.0
    ensures Payment(8.0, 8, Fraction(DiscountRate(Slice, 8, true))) == 44.8
  {
  }
}
