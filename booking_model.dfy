/** The `Booking` document: its schema constraints (required fields, the
    `numberOfSeats` minimum, the three enums and their defaults) and the
    pre-save hook that generates `bookingReference`.

    The hook's clock and random number are parameters: the year, the
    zero-based month index, the day of the month and the random integer
    `Math.floor(Math.random() * 10000)`. */
module Bookings {
  import opened Wrappers
  import opened Strings

  const BOOKING_STATUS_VALUES: seq<string> := ["Pending", "Confirmed", "Cancelled"]
  const DEFAULT_BOOKING_STATUS: string := "Confirmed"
  const STATUS_VALUES: seq<string> := ["pending", "confirmed", "cancelled", "completed"]
  const DEFAULT_STATUS: string := "pending"
  const PAYMENT_METHODS: seq<string> := ["credit_card", "debit_card", "upi", "netbanking", "wallet", "card"]
  const PAYMENT_STATUS_VALUES: seq<string> := ["pending", "completed", "failed"]
  const DEFAULT_PAYMENT_STATUS: string := "pending"

  /** A `Date` value: the instant in milliseconds and the day part of its
      `toISOString()`. Converting between the two is left to the caller. */
  datatype DateValue = DateValue(instant: int, isoDay: string)

  /** `paymentDetails` once the schema defaults are applied. */
  datatype PaymentDetails = PaymentDetails(paymentMethod: Option<string>, status: string)

  /** A `Booking` document. Absent string fields are "". Price fields and
      `cancellationDetails` are not part of this model. */
  datatype Booking = Booking(
    id: string,
    user: string,
    movie: string,
    theaterName: string,
    city: string,
    showtime: string,
    showDate: DateValue,
    seatsBooked: seq<int>,
    numberOfSeats: int,
    bookingStatus: string,
    status: string,
    paymentDetails: Option<PaymentDetails>,
    bookingReference: string)

  /** What the schema's validators accept. */
  predicate SchemaValid(b: Booking)
  {
    && b.movie != "" && b.user != "" && b.theaterName != "" && b.city != "" && b.showtime != ""
    && b.numberOfSeats >= 1
    && b.bookingStatus in BOOKING_STATUS_VALUES
    && b.status in STATUS_VALUES
    && (b.paymentDetails.Some? ==>
          && (b.paymentDetails.value.paymentMethod.Some? ==> b.paymentDetails.value.paymentMethod.value in PAYMENT_METHODS)
          && b.paymentDetails.value.status in PAYMENT_STATUS_VALUES)
  }

  /** The schema defaults: an absent status field takes its default. */
  function WithDefault(given: Option<string>, fallback: string): (v: string)
    ensures given.Some? ==> v == given.value
    ensures given.None? ==> v == fallback
  {
    if given.Some? then given.value else fallback
  }

  /** Every default the schema supplies passes its own enum, and a
      `numberOfSeats` below one is refused. */
  lemma DefaultsAreValid(b: Booking)
    requires b.movie != "" && b.user != "" && b.theaterName != "" && b.city != "" && b.showtime != ""
    requires b.paymentDetails.None?
    ensures b.numberOfSeats >= 1 ==>
              SchemaValid(b.(bookingStatus := DEFAULT_BOOKING_STATUS, status := DEFAULT_STATUS))
    ensures SchemaValid(b.(paymentDetails := Some(PaymentDetails(Some("card"), DEFAULT_PAYMENT_STATUS)))) ==
            SchemaValid(b)
    ensures b.numberOfSeats < 1 ==> !SchemaValid(b)
  {
  }

  // -----------------------------------------------------------------------
  // bookingReference

  /** `BMS${year}${month}${day}${random}` with the year cut to its last two
      characters and the month, day and random number zero padded to 2, 2
      and 4 characters. */
  function Reference(year: nat, monthIndex: nat, day: nat, random: nat): string
  {
    "BMS" + LastChars(NatToString(year), 2)
          + PadStart(NatToString(monthIndex + 1), 2, '0')
          + PadStart(NatToString(day), 2, '0')
          + PadStart(NatToString(random), 4, '0')
  }

  /** The slices of "BMS" followed by fields of 2, 2, 2 and 4 characters. */
  lemma ReferenceSlices(y: string, m: string, d: string, n: string)
    requires |y| == 2 && |m| == 2 && |d| == 2 && |n| == 4
    ensures var r := "BMS" + y + m + d + n;
            && |r| == 13 && r[..3] == "BMS"
            && r[3..5] == y && r[5..7] == m && r[7..9] == d && r[9..13] == n
  {
  }

  /** The number the characters `i` to `j` of `s` spell, or -1 when they
      are not all digits. */
  function DigitsAt(s: string, i: nat, j: nat): int
  {
    if i <= j <= |s| && AllDigits(s[i..j]) then DecimalValue(s[i..j]) else -1
  }

  /** For a year of at least two digits, a real date and a random number
      below 10000, the reference is 13 characters: "BMS" and ten digits
      that read back as the year modulo 100, the month, the day and the
      random number. */
  lemma ReferenceFormat(year: nat, monthIndex: nat, day: nat, random: nat)
    requires year >= 10 && monthIndex < 12 && 1 <= day <= 31 && random < 10000
    ensures |Reference(year, monthIndex, day, random)| == 13
    ensures Reference(year, monthIndex, day, random)[..3] == "BMS"
    ensures DigitsAt(Reference(year, monthIndex, day, random), 3, 5) == year % 100
    ensures DigitsAt(Reference(year, monthIndex, day, random), 5, 7) == monthIndex + 1
    ensures DigitsAt(Reference(year, monthIndex, day, random), 7, 9) == day
    ensures DigitsAt(Reference(year, monthIndex, day, random), 9, 13) == random
  {
    var y := LastChars(NatToString(year), 2);
    var m := PadStart(NatToString(monthIndex + 1), 2, '0');
    var d := PadStart(NatToString(day), 2, '0');
    var n := PadStart(NatToString(random), 4, '0');
    LastTwoDigits(year);
    PadNumber(monthIndex + 1, 2);
    PadNumber(day, 2);
    PadNumber(random, 4);
    ReferenceSlices(y, m, d, n);
  }

  /** Two references generated for different dates or random numbers
      differ, as long as the years agree modulo 100. */
  lemma ReferenceDeterminesParts(y1: nat, m1: nat, d1: nat, r1: nat,
                                 y2: nat, m2: nat, d2: nat, r2: nat)
    requires y1 >= 10 && m1 < 12 && 1 <= d1 <= 31 && r1 < 10000
    requires y2 >= 10 && m2 < 12 && 1 <= d2 <= 31 && r2 < 10000
    requires Reference(y1, m1, d1, r1) == Reference(y2, m2, d2, r2)
    ensures y1 % 100 == y2 % 100 && m1 == m2 && d1 == d2 && r1 == r2
  {
    ReferenceFormat(y1, m1, d1, r1);
    ReferenceFormat(y2, m2, d2, r2);
  }

  /** A year below 10 is not padded: its reference is one character
      short. */
  lemma ShortYearReference()
    ensures |Reference(5, 0, 1, 0)| == 12
  {
    assert NatToString(5) == "5";
    assert NatToString(1) == "1";
    assert NatToString(0) == "0";
  }

  /** The pre-save hook: a booking with no reference gets one generated
      from the given clock parts and random number; an existing reference
      is kept. */
  function PreSave(b: Booking, year: nat, monthIndex: nat, day: nat, random: nat): (b': Booking)
    ensures b.bookingReference != "" ==> b' == b
    ensures b.bookingReference == "" ==> b'.bookingReference == Reference(year, monthIndex, day, random)
    ensures b'.(bookingReference := b.bookingReference) == b
    ensures b'.bookingReference != ""
  {
    if b.bookingReference == "" then b.(bookingReference := Reference(year, monthIndex, day, random))
    else b
  }
}
