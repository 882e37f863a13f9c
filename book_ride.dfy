/**
 * The booking handlers of controllers/BookRideController.js, each as a function from the
 * two tables (bookings and drivers, keyed by id) to a result code, the new tables and the
 * events it broadcasts. Each handler is one atomic step: it loads the records, checks its
 * guard exactly as the source writes it, changes fields and saves.
 */
module BookRide {
  import opened Wrappers
  import opened BookingModel
  import DM = DriverModel

  type BookingId = nat

  /**
   * The HTTP answer of a handler: 200, 404, 400, or the 500 of its catch block, reached
   * when a save fails validation or a lookup is given an id that does not cast to an
   * ObjectId.
   */
  datatype Code = Ok | NotFound | Invalid | ServerError

  /** The broadcasts (io.emit) of the lifecycle handlers, with the ids they carry. */
  datatype Event =
    | BookingConfirmed(bookingId: BookingId, driverId: DriverId)
    | BookingCancelled(bookingId: BookingId)
    | DriverArrivedAtPickup(bookingId: BookingId)
    | RideStarted(bookingId: BookingId)
    | RideEnded(bookingId: BookingId)

  /** The record store. `nextId` stands for the id the store hands the next new booking. */
  datatype Tables = Tables(bookings: map<BookingId, Booking>, drivers: map<DriverId, DM.Driver>, nextId: nat)

  datatype Outcome = Outcome(code: Code, tables: Tables, emitted: seq<Event>)

  /** The body of a booking request; a field the client did not send is None. */
  datatype BookingRequest = BookingRequest(
    user: Option<UserId>,
    pickUpLatitude: Option<real>,
    pickUpLongitude: Option<real>,
    dropOffLatitude: Option<real>,
    dropOffLongitude: Option<real>,
    price: Option<real>,
    hasThirdStop: bool,
    thirdStopLatitude: Option<real>,
    thirdStopLongitude: Option<real>)

  /** JavaScript truthiness of a number field: present and not 0. */
  predicate Truthy(x: Option<real>) {
    x.Some? && x.value != 0.0
  }

  /** JavaScript truthiness of an id field: present and not the empty string. */
  predicate TruthyId(x: Option<string>) {
    x.Some? && x.value != ""
  }

  /** The presence check at the top of the booking request handler. */
  predicate HasRequiredFields(req: BookingRequest) {
    TruthyId(req.user) && Truthy(req.pickUpLatitude) && Truthy(req.pickUpLongitude)
    && Truthy(req.dropOffLatitude) && Truthy(req.dropOffLongitude)
  }

  /** The third stop is attached only when the flag and both of its coordinates are truthy. */
  predicate WantsThirdStop(req: BookingRequest) {
    req.hasThirdStop && Truthy(req.thirdStopLatitude) && Truthy(req.thirdStopLongitude)
  }

  /** `st'` differs from `st` at most in the booking stored under `id`, which both hold. */
  predicate OnlyBookingChanged(st: Tables, st': Tables, id: BookingId) {
    id in st.bookings && id in st'.bookings
    && st'.bookings == st.bookings[id := st'.bookings[id]]
    && st'.drivers == st.drivers && st'.nextId == st.nextId
  }

  /** `st'` differs from `st` at most in booking `id` and driver `did`, which both hold. */
  predicate OnlyBookingAndDriverChanged(st: Tables, st': Tables, id: BookingId, did: DriverId) {
    id in st.bookings && id in st'.bookings && did in st.drivers && did in st'.drivers
    && st'.bookings == st.bookings[id := st'.bookings[id]]
    && st'.drivers == st.drivers[did := st'.drivers[did]]
    && st'.nextId == st.nextId
  }

  /** On failure a handler changes nothing and broadcasts nothing. */
  predicate Unchanged(r: Outcome, st: Tables) {
    r.tables == st && r.emitted == []
  }

  /**
   * PassengerBookingRequest: the presence check (400), then a new pending booking,
   * then the save, whose validation rejects a user id that does not cast to an ObjectId
   * and a missing or negative price (500). The user is stored as the ObjectId it casts to.
   */
  function CreateBooking(st: Tables, req: BookingRequest, now: int): (r: Outcome)
    ensures r.code == Invalid <==> !HasRequiredFields(req)
    ensures r.code == ServerError <==>
      HasRequiredFields(req) && !(IsObjectId(req.user.value) && PriceValid(req.price))
    ensures r.code == Ok || r.code == Invalid || r.code == ServerError
    ensures r.code != Ok ==> Unchanged(r, st)
    ensures r.code == Ok ==>
      && r.emitted == []
      && r.tables.drivers == st.drivers && r.tables.nextId == st.nextId + 1
      && st.nextId in r.tables.bookings
      && r.tables.bookings == st.bookings[st.nextId := r.tables.bookings[st.nextId]]
      && var b := r.tables.bookings[st.nextId];
         && b.status == Pending && b.driver == None && FlagsAtDefault(b)
         && b.user == CanonicalId(req.user.value) && b.price == req.price && b.createdAt == now
         && Some(b.pickUpLocation.latitude) == req.pickUpLatitude
         && Some(b.pickUpLocation.longitude) == req.pickUpLongitude
         && Some(b.dropOffLocation.latitude) == req.dropOffLatitude
         && Some(b.dropOffLocation.longitude) == req.dropOffLongitude
         && (b.thirdStop.Some? <==> WantsThirdStop(req))
         && (b.thirdStop.Some? ==>
               Some(b.thirdStop.value.latitude) == req.thirdStopLatitude
               && Some(b.thirdStop.value.longitude) == req.thirdStopLongitude)
         && BookingValidAsWritten(b)
  {
    if !HasRequiredFields(req) then Outcome(Invalid, st, [])
    else
      var doc := NewBooking(CanonicalId(req.user.value),
                              Location(req.pickUpLatitude.value, req.pickUpLongitude.value),
                              Location(req.dropOffLatitude.value, req.dropOffLongitude.value),
                              req.price, now);
      var b := if WantsThirdStop(req)
               then doc.(thirdStop := Some(Location(req.thirdStopLatitude.value, req.thirdStopLongitude.value)))
               else doc;
      if !BookingValid(b) then Outcome(ServerError, st, [])
      else Outcome(Ok, st.(bookings := st.bookings[st.nextId := b], nextId := st.nextId + 1), [])
  }

  /**
   * assignDriverToBooking: 500 when the driver id does not cast to an ObjectId (the
   * lookup throws); 404 when either record is missing; otherwise the booking gets the
   * driver and status confirmed and the driver becomes unavailable. The driver is looked
   * up by the ObjectId the request casts to, in either case, and stored and broadcast as
   * its canonical id. Neither the driver's availability nor the booking's status is checked.
   */
  function AssignDriver(st: Tables, id: BookingId, did: DriverId): (r: Outcome)
    ensures r.code == ServerError <==> !IsObjectId(did)
    ensures r.code == NotFound <==> IsObjectId(did) && (id !in st.bookings || CanonicalId(did) !in st.drivers)
    ensures r.code == Ok || r.code == NotFound || r.code == ServerError
    ensures r.code != Ok ==> Unchanged(r, st)
    ensures r.code == Ok ==>
      var key := CanonicalId(did);
      && OnlyBookingAndDriverChanged(st, r.tables, id, key)
      && r.tables.drivers[key] == DM.WithStatus(st.drivers[key], DM.Unavailable)
      && r.emitted == [BookingConfirmed(id, key)]
      && var (b, b') := (st.bookings[id], r.tables.bookings[id]);
         && b'.driver == Some(key) && b'.status == Confirmed
         && b'.(driver := b.driver, status := b.status) == b
  {
    if !IsObjectId(did) then Outcome(ServerError, st, [])
    else
      var key := CanonicalId(did);
      if id !in st.bookings || key !in st.drivers then Outcome(NotFound, st, [])
      else
        var b := st.bookings[id].(driver := Some(key), status := Confirmed);
        var d := DM.WithStatus(st.drivers[key], DM.Unavailable);
        Outcome(Ok, st.(bookings := st.bookings[id := b], drivers := st.drivers[key := d]),
                [BookingConfirmed(id, key)])
  }

  /** The driver table with `did` made available, when a driver record exists under it. */
  function Release(drivers: map<DriverId, DM.Driver>, did: Option<DriverId>): (r: map<DriverId, DM.Driver>)
    ensures r.Keys == drivers.Keys
    ensures did.Some? && did.value in drivers ==>
      r == drivers[did.value := DM.WithStatus(drivers[did.value], DM.Available)]
    ensures did.None? || did.value !in drivers ==> r == drivers
  {
    if did.Some? && did.value in drivers
    then drivers[did.value := DM.WithStatus(drivers[did.value], DM.Available)]
    else drivers
  }

  /**
   * cancelBooking: 404 when the booking is missing; otherwise it is cancelled whatever its
   * status, its assigned driver (if that record exists) becomes available, and
   * `booking.driver` stays set.
   */
  function CancelBooking(st: Tables, id: BookingId): (r: Outcome)
    ensures r.code == NotFound <==> id !in st.bookings
    ensures r.code == Ok || r.code == NotFound
    ensures r.code == NotFound ==> Unchanged(r, st)
    ensures r.code == Ok ==>
      && id in r.tables.bookings
      && r.tables.bookings == st.bookings[id := r.tables.bookings[id]]
      && r.tables.bookings[id] == st.bookings[id].(status := Cancelled)
      && r.tables.drivers == Release(st.drivers, st.bookings[id].driver)
      && r.tables.nextId == st.nextId
      && r.emitted == [BookingCancelled(id)]
  {
    if id !in st.bookings then Outcome(NotFound, st, [])
    else
      var b := st.bookings[id];
      Outcome(Ok, st.(bookings := st.bookings[id := b.(status := Cancelled)],
                      drivers := Release(st.drivers, b.driver)),
              [BookingCancelled(id)])
  }

  /**
   * requestDriverCancellation: 404 unless the booking exists and its driver equals the
   * requesting one (plain equality of the optional ids); then only the request flag is set.
   */
  function RequestDriverCancellation(st: Tables, id: BookingId, did: Option<DriverId>): (r: Outcome)
    ensures r.code == Ok <==> id in st.bookings && st.bookings[id].driver == did
    ensures r.code == Ok || r.code == NotFound
    ensures r.code == NotFound ==> Unchanged(r, st)
    ensures r.code == Ok ==>
      && OnlyBookingChanged(st, r.tables, id)
      && r.tables.bookings[id] == st.bookings[id].(driverCancellationRequested := true)
      && r.emitted == []
  {
    if id !in st.bookings || st.bookings[id].driver != did then Outcome(NotFound, st, [])
    else Outcome(Ok, st.(bookings := st.bookings[id := st.bookings[id].(driverCancellationRequested := true)]), [])
  }

  /**
   * The acceptDriverCancellation socket handler: 400 unless the request flag is set and the
   * driver matches; then the driver record (if any) becomes available, and the booking loses
   * its driver and the flag and goes back to pending.
   */
  function AcceptDriverCancellation(st: Tables, id: BookingId, did: Option<DriverId>): (r: Outcome)
    ensures r.code == Ok <==>
      id in st.bookings && st.bookings[id].driverCancellationRequested && st.bookings[id].driver == did
    ensures r.code == Ok || r.code == Invalid
    ensures r.code == Invalid ==> Unchanged(r, st)
    ensures r.code == Ok ==>
      && id in r.tables.bookings
      && r.tables.bookings == st.bookings[id := r.tables.bookings[id]]
      && r.tables.bookings[id] == st.bookings[id].(driver := None, driverCancellationRequested := false, status := Pending)
      && r.tables.drivers == Release(st.drivers, did)
      && r.tables.nextId == st.nextId
      && r.emitted == []
  {
    if id in st.bookings && st.bookings[id].driverCancellationRequested && st.bookings[id].driver == did then
      var b := st.bookings[id].(driver := None, driverCancellationRequested := false, status := Pending);
      Outcome(Ok, st.(bookings := st.bookings[id := b], drivers := Release(st.drivers, did)), [])
    else Outcome(Invalid, st, [])
  }

  /**
   * driverAtPickupLocation: 404 unless the booking is confirmed and has a driver; then only
   * the arrival flag is set.
   */
  function ArriveAtPickup(st: Tables, id: BookingId): (r: Outcome)
    ensures r.code == Ok <==> id in st.bookings && st.bookings[id].status == Confirmed && st.bookings[id].driver.Some?
    ensures r.code == Ok || r.code == NotFound
    ensures r.code == NotFound ==> Unchanged(r, st)
    ensures r.code == Ok ==>
      && OnlyBookingChanged(st, r.tables, id)
      && r.tables.bookings[id] == st.bookings[id].(driverArrivedAtPickup := true)
      && r.emitted == [DriverArrivedAtPickup(id)]
  {
    if id !in st.bookings || st.bookings[id].status != Confirmed || st.bookings[id].driver.None?
    then Outcome(NotFound, st, [])
    else Outcome(Ok, st.(bookings := st.bookings[id := st.bookings[id].(driverArrivedAtPickup := true)]),
                 [DriverArrivedAtPickup(id)])
  }

  /** The guard of startRide: only the arrival flag, never the status. */
  predicate CanStart(st: Tables, id: BookingId) {
    id in st.bookings && st.bookings[id].driverArrivedAtPickup
  }

  /**
   * startRide with the corrected schema: 400 unless the driver has arrived at pickup; then
   * the status becomes ongoing, whatever it was.
   */
  function StartRide(st: Tables, id: BookingId): (r: Outcome)
    ensures r.code == Ok <==> CanStart(st, id)
    ensures r.code == Ok || r.code == Invalid
    ensures r.code == Invalid ==> Unchanged(r, st)
    ensures r.code == Ok ==>
      && OnlyBookingChanged(st, r.tables, id)
      && r.tables.bookings[id] == st.bookings[id].(status := Ongoing)
      && r.emitted == [RideStarted(id)]
  {
    if !CanStart(st, id) then Outcome(Invalid, st, [])
    else
      var b := st.bookings[id].(status := Ongoing);
      assert BookingValid(b) <==> BookingValid(st.bookings[id]);
      Outcome(Ok, st.(bookings := st.bookings[id := b]), [RideStarted(id)])
  }

  /**
   * startRide as written: the same guard, but the save validates the status against the
   * schema's enum, which lacks 'ongoing', so the save always fails (500) and nothing is
   * stored or broadcast.
   */
  function StartRideAsWritten(st: Tables, id: BookingId): (r: Outcome)
    ensures r.code == Invalid <==> !CanStart(st, id)
    ensures r.code == ServerError <==> CanStart(st, id)
    ensures Unchanged(r, st)
  {
    if !CanStart(st, id) then Outcome(Invalid, st, [])
    else
      var b := st.bookings[id].(status := Ongoing);
      if BookingValidAsWritten(b) then Outcome(Ok, st.(bookings := st.bookings[id := b]), [RideStarted(id)])
      else Outcome(ServerError, st, [])
  }

  /**
   * endRide: 400 unless the booking is ongoing; then the dropoff flag is set and the
   * status becomes completed.
   */
  function EndRide(st: Tables, id: BookingId): (r: Outcome)
    ensures r.code == Ok <==> id in st.bookings && st.bookings[id].status == Ongoing
    ensures r.code == Ok || r.code == Invalid
    ensures r.code == Invalid ==> Unchanged(r, st)
    ensures r.code == Ok ==>
      && OnlyBookingChanged(st, r.tables, id)
      && r.tables.bookings[id] == st.bookings[id].(driverArrivedAtDropoff := true, status := Completed)
      && r.emitted == [RideEnded(id)]
  {
    if id !in st.bookings || st.bookings[id].status != Ongoing then Outcome(Invalid, st, [])
    else Outcome(Ok, st.(bookings := st.bookings[id := st.bookings[id].(driverArrivedAtDropoff := true, status := Completed)]),
                 [RideEnded(id)])
  }

  /** One call of a handler, with its arguments. */
  datatype Op =
    | Create(req: BookingRequest, now: int)
    | Assign(id: BookingId, did: DriverId)
    | Cancel(id: BookingId)
    | RequestCancellation(id: BookingId, requester: Option<DriverId>)
    | AcceptCancellation(id: BookingId, requester: Option<DriverId>)
    | Arrive(id: BookingId)
    | Start(id: BookingId)
    | End(id: BookingId)

  /** The handler `op` names, applied to `st` (with the corrected schema). */
  function Apply(st: Tables, op: Op): Outcome {
    match op
    case Create(req, now) => CreateBooking(st, req, now)
    case Assign(id, did) => AssignDriver(st, id, did)
    case Cancel(id) => CancelBooking(st, id)
    case RequestCancellation(id, did) => RequestDriverCancellation(st, id, did)
    case AcceptCancellation(id, did) => AcceptDriverCancellation(st, id, did)
    case Arrive(id) => ArriveAtPickup(st, id)
    case Start(id) => StartRide(st, id)
    case End(id) => EndRide(st, id)
  }

  /** The handler `op` names with the schema as written: only startRide differs. */
  function ApplyAsWritten(st: Tables, op: Op): Outcome {
    if op.Start? then StartRideAsWritten(st, op.id) else Apply(st, op)
  }

  /** The tables after a sequence of handler calls, one atomic step each. */
  function Run(st: Tables, ops: seq<Op>): Tables
    decreases |ops|
  {
    if ops == [] then st else Run(Apply(st, ops[0]).tables, ops[1..])
  }

  function RunAsWritten(st: Tables, ops: seq<Op>): Tables
    decreases |ops|
  {
    if ops == [] then st else RunAsWritten(ApplyAsWritten(st, ops[0]).tables, ops[1..])
  }
}
