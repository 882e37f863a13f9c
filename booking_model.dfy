/**
 * The booking document of models/BookRideModel.js: its fields, the status enum,
 * the required fields, the `min: 0` on price and the defaults a new document gets.
 */
module BookingModel {
  import opened Wrappers

  /** Passenger (User) and driver references are ObjectIds, given as strings. */
  type UserId = string
  type DriverId = string

  predicate IsHexDigit(c: char) {
    ('0' <= c <= '9') || ('a' <= c <= 'f') || ('A' <= c <= 'F')
  }

  /** A string that casts to an ObjectId: exactly 24 hexadecimal digits, in either case. */
  predicate IsObjectId(s: string) {
    |s| == 24 && forall i :: 0 <= i < |s| ==> IsHexDigit(s[i])
  }

  function LowerHex(c: char): char {
    if 'A' <= c <= 'F' then (c as int - 'A' as int + 'a' as int) as char else c
  }

  /**
   * The spelling an ObjectId prints as: lower-case hexadecimal. Two strings that cast
   * name the same ObjectId exactly when their canonical forms are equal.
   */
  function CanonicalId(s: string): (r: string)
    ensures |r| == |s|
    ensures forall i :: 0 <= i < |s| ==> r[i] == LowerHex(s[i])
    ensures IsObjectId(r) <==> IsObjectId(s)
    ensures forall i :: 0 <= i < |r| ==> !('A' <= r[i] <= 'F')
  {
    seq(|s|, i requires 0 <= i < |s| => LowerHex(s[i]))
  }

  /** An id already in its canonical spelling is its own canonical form, and only then. */
  lemma CanonicalIdFixed(s: string)
    ensures CanonicalId(s) == s <==> forall i :: 0 <= i < |s| ==> !('A' <= s[i] <= 'F')
  {
    if forall i :: 0 <= i < |s| ==> !('A' <= s[i] <= 'F') {
      assert forall i :: 0 <= i < |s| ==> CanonicalId(s)[i] == s[i];
    } else {
      var i :| 0 <= i < |s| && 'A' <= s[i] <= 'F';
      assert CanonicalId(s)[i] != s[i];
    }
  }

  /** A point given as latitude and longitude. */
  datatype Location = Location(latitude: real, longitude: real)

  /**
   * Every status the booking handlers write. The schema's enum lists only four of
   * them (see InStatusEnum): `Ongoing` is written by startRide but not declared.
   */
  datatype BookingStatus = Pending | Confirmed | Ongoing | Completed | Cancelled

  datatype Booking = Booking(
    user: UserId,
    driver: Option<DriverId>,
    pickUpLocation: Location,
    dropOffLocation: Location,
    thirdStop: Option<Location>,
    status: BookingStatus,
    price: Option<real>,
    driverCancellationRequested: bool,
    userCancellationRequested: bool,
    createdAt: int,           // milliseconds; the clock is a parameter of whoever creates the document
    driverArrivedAtPickup: bool,
    driverArrivedAtDropoff: bool)

  /** The status enum exactly as the schema declares it. */
  predicate InStatusEnum(s: BookingStatus) {
    s == Pending || s == Confirmed || s == Completed || s == Cancelled
  }

  /** `price` is required and at least 0. */
  predicate PriceValid(price: Option<real>) {
    price.Some? && price.value >= 0.0
  }

  /**
   * Validation of a booking on save, with the status enum widened to every status the
   * handlers write (the corrected schema). `user` is required and must cast to an
   * ObjectId, and so must `driver` when it is set; the pickup and dropoff coordinates are
   * required, which Location's fields always carry; `thirdStop` is optional.
   */
  predicate BookingValid(b: Booking) {
    IsObjectId(b.user) && (b.driver.Some? ==> IsObjectId(b.driver.value)) && PriceValid(b.price)
  }

  /** Validation on save with the schema's enum as written. */
  predicate BookingValidAsWritten(b: Booking) {
    BookingValid(b) && InStatusEnum(b.status)
  }

  /** The four boolean flags are all at their default, false. */
  predicate FlagsAtDefault(b: Booking) {
    !b.driverCancellationRequested && !b.userCancellationRequested
    && !b.driverArrivedAtPickup && !b.driverArrivedAtDropoff
  }

  /**
   * A new booking document: the given fields, and every other path at its default
   * (status pending, no driver, no third stop, all flags false).
   */
  function NewBooking(user: UserId, pickUp: Location, dropOff: Location, price: Option<real>, createdAt: int): (b: Booking)
    ensures b.user == user && b.pickUpLocation == pickUp && b.dropOffLocation == dropOff
    ensures b.price == price && b.createdAt == createdAt
    ensures b.status == Pending && b.driver == None && b.thirdStop == None && FlagsAtDefault(b)
    ensures BookingValidAsWritten(b) <==> IsObjectId(user) && PriceValid(price)
    ensures BookingValid(b) <==> BookingValidAsWritten(b)
  {
    Booking(user, None, pickUp, dropOff, None, Pending, price, false, false, createdAt, false, false)
  }
}
