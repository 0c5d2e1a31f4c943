/**
  The payment page (public/payment.js): the booking summary built from the URL
  parameters — duration label, hourly rate, total and the discount line worked back
  from the discounted total — and the card field check before the session request.
*/
module Payment {
  import opened Wrappers
  import opened Text

  /** The URL parameters the summary reads; `None` where `urlParams.get` gives `null`. */
  datatype BookingDetails = BookingDetails(
    locationName: Option<string>, vehiclePlate: Option<string>,
    duration: Option<string>, totalCost: Option<string>)

  /** What the browser makes of the parameter text: `Number(duration)` (used by the
      comparisons), `parseInt(duration)` and `parseFloat(totalCost)`; `None` stands for NaN. */
  datatype ParsedNumbers = ParsedNumbers(durationValue: Option<real>, durationInt: Option<int>, totalValue: Option<real>)

  /** A string parameter counts as present when it is neither `null` nor empty. */
  predicate Present(p: Option<string>) { p.Some? && p.value != "" }

  /** The discount tier for a duration in hours; a NaN duration fails every comparison. */
  function DiscountRate(duration: Option<real>): (r: real)
    ensures r == 0.2 <==> duration.Some? && duration.value >= 24.0
    ensures r == 0.15 <==> duration.Some? && 12.0 <= duration.value < 24.0
    ensures r == 0.1 <==> duration.Some? && 8.0 <= duration.value < 12.0
    ensures r == 0.0 <==> duration.None? || duration.value < 8.0
  {
    if duration.None? then 0.0
    else if duration.value >= 24.0 then 0.2
    else if duration.value >= 12.0 then 0.15
    else if duration.value >= 8.0 then 0.1
    else 0.0
  }

  /** A longer stay never gets a smaller discount. */
  lemma DiscountMonotone(a: real, b: real)
    requires a <= b
    ensures DiscountRate(Some(a)) <= DiscountRate(Some(b))
  {
  }

  /** The discount shown next to a total that already has the rate `rate` taken off. */
  function DiscountAmount(total: real, rate: real): (d: real)
    requires 0.0 < rate < 1.0
    ensures total >= 0.0 ==> d >= 0.0
  {
    var taken := total * rate;
    if total >= 0.0 then QuotientNonnegative(taken, 1.0 - rate); taken / (1.0 - rate)
    else taken / (1.0 - rate)
  }

  lemma QuotientNonnegative(a: real, b: real)
    requires a >= 0.0 && b > 0.0
    ensures a / b >= 0.0
  {
  }

  /** Worked back from the discounted total, the discount is what the rate takes off the
      undiscounted price: discounted total plus discount gives back the full price. */
  lemma DiscountBackCalculation(basePrice: real, rate: real)
    requires 0.0 < rate < 1.0
    ensures DiscountAmount(basePrice * (1.0 - rate), rate) == basePrice * rate
    ensures basePrice * (1.0 - rate) + DiscountAmount(basePrice * (1.0 - rate), rate) == basePrice
  {
    var k := 1.0 - rate;
    var saving := basePrice * rate;
    assert basePrice * k * rate == saving * k;
    assert saving * k / k == saving;
    assert DiscountAmount(basePrice * k, rate) == (basePrice * k * rate) / k;
  }

  /** The discount line: absent when the tier is 0, otherwise the amount (`None` when the
      total did not parse and the page shows NaN). */
  datatype DiscountLine = NoDiscountLine | DiscountLine(amount: Option<real>)

  /** The pricing block: the rate is `None` where the division gives NaN or Infinity. */
  datatype Pricing = Pricing(hourlyRate: Option<real>, total: Option<real>, discount: DiscountLine)

  /** The summary text for the duration. */
  function DurationLabel(duration: Option<string>, durationValue: Option<real>): (shown: string)
    ensures !Present(duration) ==> shown == "Not specified"
    ensures Present(duration) ==> StartsWith(shown, duration.value + " hour")
    ensures Present(duration) ==>
      shown == duration.value + " hour" + (if durationValue.Some? && durationValue.value > 1.0 then "s" else "")
    ensures Present(duration) ==>
      (EndsWith(shown, "hours") <==> durationValue.Some? && durationValue.value > 1.0)
  {
    if !Present(duration) then "Not specified"
    else
      var shown := duration.value + " hour" + (if durationValue.Some? && durationValue.value > 1.0 then "s" else "");
      assert shown[..|duration.value + " hour"|] == duration.value + " hour";
      assert shown[|shown| - 1] == (if durationValue.Some? && durationValue.value > 1.0 then 's' else 'r');
      shown
  }

  datatype Summary = Summary(location: string, vehicle: string, duration: string, pricing: Option<Pricing>)

  /** `displayBookingDetails`: the pricing block is filled only when both the total and the
      duration parameters are present. */
  function DisplayBookingDetails(details: BookingDetails, numbers: ParsedNumbers): (s: Summary)
    ensures s.pricing.Some? <==> Present(details.totalCost) && Present(details.duration)
    ensures s.location == (if Present(details.locationName) then details.locationName.value else "Not specified")
    ensures s.vehicle == (if Present(details.vehiclePlate) then details.vehiclePlate.value else "Not specified")
    ensures s.duration == DurationLabel(details.duration, numbers.durationValue)
    ensures s.pricing.Some? ==> s.pricing.value.total == numbers.totalValue
    ensures s.pricing.Some? ==>
      (s.pricing.value.hourlyRate.Some? <==>
        numbers.totalValue.Some? && numbers.durationInt.Some? && numbers.durationInt.value != 0)
    ensures s.pricing.Some? && s.pricing.value.hourlyRate.Some? ==>
      s.pricing.value.hourlyRate.value * (numbers.durationInt.value as real) == numbers.totalValue.value
    ensures s.pricing.Some? ==>
      (s.pricing.value.discount.DiscountLine? <==> numbers.durationValue.Some? && numbers.durationValue.value >= 8.0)
  {
    var location := if Present(details.locationName) then details.locationName.value else "Not specified";
    var vehicle := if Present(details.vehiclePlate) then details.vehiclePlate.value else "Not specified";
    var durationText := DurationLabel(details.duration, numbers.durationValue);
    if !(Present(details.totalCost) && Present(details.duration)) then
      Summary(location, vehicle, durationText, None)
    else
      var rate :=
        if numbers.totalValue.Some? && numbers.durationInt.Some? && numbers.durationInt.value != 0
        then Some(numbers.totalValue.value / (numbers.durationInt.value as real))
        else None;
      var discountRate := DiscountRate(numbers.durationValue);
      var discount :=
        if discountRate > 0.0 then
          DiscountLine(if numbers.totalValue.Some? then Some(DiscountAmount(numbers.totalValue.value, discountRate)) else None)
        else NoDiscountLine;
      Summary(location, vehicle, durationText, Some(Pricing(rate, numbers.totalValue, discount)))
  }

  /** Whenever a discount line is shown for a total that is the undiscounted price with the
      tier's rate taken off, the line is exactly the part the tier took off. */
  lemma DiscountLineIsSaving(details: BookingDetails, numbers: ParsedNumbers, basePrice: real)
    requires Present(details.totalCost) && Present(details.duration)
    requires numbers.totalValue == Some(basePrice * (1.0 - DiscountRate(numbers.durationValue)))
    ensures var p := DisplayBookingDetails(details, numbers).pricing.value;
      p.discount.DiscountLine? ==>
        p.discount.amount == Some(basePrice * DiscountRate(numbers.durationValue))
  {
    var r := DiscountRate(numbers.durationValue);
    if r > 0.0 {
      DiscountBackCalculation(basePrice, r);
    }
  }

  /** The card fields as they are sent on. */
  datatype CardFields = CardFields(cardNumber: string, expiryDate: string, cvv: string)

  /** `processPayment`'s check: every field, trimmed, must be non-empty. */
  function ValidatePayment(cardNumber: string, expiryDate: string, cvv: string): (r: Option<CardFields>)
    ensures r.Some? <==> Trim(cardNumber) != "" && Trim(expiryDate) != "" && Trim(cvv) != ""
    ensures r.Some? ==> r.value == CardFields(Trim(cardNumber), Trim(expiryDate), Trim(cvv))
  {
    var number, expiry, code := Trim(cardNumber), Trim(expiryDate), Trim(cvv);
    if number == "" || expiry == "" || code == "" then None
    else Some(CardFields(number, expiry, code))
  }

  /** Fields that passed the check pass it again unchanged. */
  lemma ValidatePaymentIdempotent(cardNumber: string, expiryDate: string, cvv: string)
    requires ValidatePayment(cardNumber, expiryDate, cvv).Some?
    ensures var f := ValidatePayment(cardNumber, expiryDate, cvv).value;
      ValidatePayment(f.cardNumber, f.expiryDate, f.cvv) == Some(f)
  {
    TrimIdempotent(cardNumber);
    TrimIdempotent(expiryDate);
    TrimIdempotent(cvv);
  }
}
