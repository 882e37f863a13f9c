/**
 * The driver document of models/DriverModel.js: required fields, optional vehicle
 * information, the GeoJSON location, the status enum, rating bounds, and the unique
 * index on email.
 */
module DriverModel {
  import opened Wrappers

  type DriverId = string

  /** The `driverStatus` enum: exactly these two values. */
  datatype DriverStatus = Available | Unavailable

  /** Every sub-field of `vehicleInfo` is optional; dates are milliseconds. */
  datatype VehicleInfo = VehicleInfo(
    registrationNumber: Option<string>,
    licenseNumber: Option<string>,
    licenseExpirationDate: Option<int>,
    brand: Option<string>,
    model: Option<string>,
    seats: Option<real>,
    color: Option<string>,
    category: Option<string>)

  /** A GeoJSON location: a `type` string and a coordinate list. */
  datatype GeoLocation = GeoLocation(kind: string, coordinates: seq<real>)

  datatype Rating = Rating(rating: Option<real>, comment: Option<string>, createdAt: int)

  datatype Driver = Driver(
    firstName: string,
    lastName: string,
    dob: Option<int>,
    email: string,
    phoneNumber: string,
    nrcNumber: string,
    address: string,
    password: string,
    vehicleInfo: VehicleInfo,
    location: GeoLocation,
    otp: string,
    driverStatus: DriverStatus,
    ratings: seq<Rating>)

  const NoVehicleInfo := VehicleInfo(None, None, None, None, None, None, None, None)

  /** The location a new driver gets: a Point at [0, 0]. */
  const DefaultLocation := GeoLocation("Point", [0.0, 0.0])

  /** `rating` has min 1 and max 5; like every validator but `required`, it applies only when present. */
  predicate RatingValid(r: Rating) {
    r.rating.Some? ==> 1.0 <= r.rating.value <= 5.0
  }

  /** The only GeoJSON type the enum admits is "Point". */
  predicate LocationValid(loc: GeoLocation) {
    loc.kind == "Point"
  }

  /** The required paths: a required string must be non-empty, a required date present. */
  predicate RequiredPresent(d: Driver) {
    d.firstName != "" && d.lastName != "" && d.dob.Some? && d.email != ""
    && d.phoneNumber != "" && d.nrcNumber != "" && d.address != ""
    && d.password != "" && d.otp != ""
  }

  /** Validation of one driver document on save. */
  predicate DriverValid(d: Driver) {
    RequiredPresent(d) && LocationValid(d.location)
    && forall i :: 0 <= i < |d.ratings| ==> RatingValid(d.ratings[i])
  }

  /** Every id in `ids` names a stored driver whose status is available. */
  predicate AllAvailable(drivers: map<DriverId, Driver>, ids: seq<DriverId>) {
    forall i :: 0 <= i < |ids| ==> ids[i] in drivers && drivers[ids[i]].driverStatus == Available
  }

  /** The unique index on `email`: no two driver documents share one. */
  predicate EmailsUnique(drivers: map<DriverId, Driver>) {
    forall i, j :: i in drivers && j in drivers && i != j ==> drivers[i].email != drivers[j].email
  }

  /**
   * A new driver document from the fields a registration supplies; every other path
   * takes its default: no vehicle information, a Point at [0, 0], available, no ratings.
   */
  function NewDriver(firstName: string, lastName: string, dob: Option<int>, email: string,
                     phoneNumber: string, nrcNumber: string, address: string, password: string,
                     otp: string): (d: Driver)
    ensures d.driverStatus == Available && d.location == DefaultLocation
    ensures d.vehicleInfo == NoVehicleInfo && d.ratings == []
    ensures d.email == email && d.otp == otp
    ensures DriverValid(d) <==>
      firstName != "" && lastName != "" && dob.Some? && email != "" && phoneNumber != ""
      && nrcNumber != "" && address != "" && password != "" && otp != ""
  {
    Driver(firstName, lastName, dob, email, phoneNumber, nrcNumber, address, password,
           NoVehicleInfo, DefaultLocation, otp, Available, [])
  }

  /** The document with its status set, as the booking handlers write it. */
  function WithStatus(d: Driver, s: DriverStatus): (r: Driver)
    ensures r.driverStatus == s
    ensures r.(driverStatus := d.driverStatus) == d
    ensures DriverValid(r) <==> DriverValid(d)
  {
    d.(driverStatus := s)
  }

  /**
   * Writing a driver with an unchanged email over an existing entry keeps every
   * document valid and every email unique.
   */
  lemma {:induction false} StatusWritePreservesTable(drivers: map<DriverId, Driver>, id: DriverId, s: DriverStatus)
    requires id in drivers
    requires EmailsUnique(drivers)
    requires forall k :: k in drivers ==> DriverValid(drivers[k])
    ensures var t := drivers[id := WithStatus(drivers[id], s)];
      EmailsUnique(t) && (forall k :: k in t ==> DriverValid(t[k])) && t.Keys == drivers.Keys
  {
    var t := drivers[id := WithStatus(drivers[id], s)];
    forall i, j | i in t && j in t && i != j ensures t[i].email != t[j].email {
      assert t[i].email == drivers[i].email && t[j].email == drivers[j].email;
    }
  }

  /**
   * Saving a new driver document: validation, then the unique index. The result is the
   * new table, or None when the document is invalid or its email is taken.
   */
  function InsertDriver(drivers: map<DriverId, Driver>, id: DriverId, d: Driver): (r: Option<map<DriverId, Driver>>)
    requires id !in drivers
    ensures r.Some? <==> DriverValid(d) && forall k :: k in drivers ==> drivers[k].email != d.email
    ensures r.Some? ==> r.value.Keys == drivers.Keys + {id} && r.value[id] == d
    ensures r.Some? && EmailsUnique(drivers) ==> EmailsUnique(r.value)
  {
    if DriverValid(d) && forall k :: k in drivers ==> drivers[k].email != d.email
    then Some(drivers[id := d]) else None
  }
}
