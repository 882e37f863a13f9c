/**
 * What the booking handlers of controllers/BookRideController.js keep and what they do not:
 * the invariants every handler preserves, the lifecycle invariants the guards are too weak
 * to keep (each shown broken on a reachable store), and the schema finding about 'ongoing'.
 */
module BookRideProperties {
  import opened Wrappers
  import opened BookingModel
  import DM = DriverModel
  import opened BookRide

  // ---------------------------------------------------------------------------------------
  // Invariants every handler preserves

  /** Every stored document passes validation, ids are below the next id, emails are unique. */
  predicate StoreValid(st: Tables) {
    && (forall id :: id in st.bookings ==> id < st.nextId && BookingValid(st.bookings[id]))
    && (forall did :: did in st.drivers ==> DM.DriverValid(st.drivers[did]))
    && DM.EmailsUnique(st.drivers)
    && DriverKeysCanonical(st.drivers)
  }

  /** Drivers are stored under their ObjectId, spelled as it prints: lower-case hex. */
  predicate DriverKeysCanonical(drivers: map<DriverId, DM.Driver>) {
    forall did :: did in drivers ==> IsObjectId(did) && CanonicalId(did) == did
  }

  /** An assigned driver id always names a stored driver. */
  predicate DriversResolve(st: Tables) {
    forall id :: id in st.bookings && st.bookings[id].driver.Some? ==> st.bookings[id].driver.value in st.drivers
  }

  /** Ongoing implies arrived at pickup; completed implies arrived at dropoff. */
  predicate FlagsMatchStatus(b: Booking) {
    (b.status == Ongoing ==> b.driverArrivedAtPickup) && (b.status == Completed ==> b.driverArrivedAtDropoff)
  }

  predicate Inv(st: Tables) {
    StoreValid(st) && DriversResolve(st) && forall id :: id in st.bookings ==> FlagsMatchStatus(st.bookings[id])
  }

  /** A store with no bookings over a table of valid drivers with unique emails. */
  function Initial(drivers: map<DriverId, DM.Driver>): (st: Tables)
    requires forall did :: did in drivers ==> DM.DriverValid(drivers[did])
    requires DM.EmailsUnique(drivers)
    requires DriverKeysCanonical(drivers)
    ensures Inv(st) && st.bookings == map[] && st.drivers == drivers
  {
    Tables(map[], drivers, 0)
  }

  /**
   * A handler that rewrites one booking, into a valid document whose flags match its status
   * and whose driver is stored, and leaves the driver table valid over the same ids, keeps Inv.
   */
  predicate WriteKeepsInv(st: Tables, st': Tables, id: BookingId) {
    && id in st.bookings && id in st'.bookings
    && st'.bookings == st.bookings[id := st'.bookings[id]]
    && st'.nextId == st.nextId
    && st'.drivers.Keys == st.drivers.Keys
    && (forall did :: did in st'.drivers ==> DM.DriverValid(st'.drivers[did]))
    && DM.EmailsUnique(st'.drivers)
    && BookingValid(st'.bookings[id]) && FlagsMatchStatus(st'.bookings[id])
    && (st'.bookings[id].driver.Some? ==> st'.bookings[id].driver.value in st.drivers)
  }

  lemma WritePreservesInv(st: Tables, st': Tables, id: BookingId)
    requires Inv(st) && WriteKeepsInv(st, st', id)
    ensures Inv(st')
  {
    forall k | k in st'.bookings && st'.bookings[k].driver.Some?
      ensures st'.bookings[k].driver.value in st'.drivers
    {
      if k != id { assert st'.bookings[k] == st.bookings[k]; }
    }
  }

  lemma CreatePreservesInv(st: Tables, req: BookingRequest, now: int)
    requires Inv(st)
    ensures Inv(CreateBooking(st, req, now).tables)
  {
  }

  lemma AssignPreservesInv(st: Tables, id: BookingId, did: DriverId)
    requires Inv(st)
    ensures Inv(AssignDriver(st, id, did).tables)
  {
    var r := AssignDriver(st, id, did);
    if r.code == Ok {
      DM.StatusWritePreservesTable(st.drivers, CanonicalId(did), DM.Unavailable);
      WritePreservesInv(st, r.tables, id);
    }
  }

  lemma CancelPreservesInv(st: Tables, id: BookingId)
    requires Inv(st)
    ensures Inv(CancelBooking(st, id).tables)
  {
    var r := CancelBooking(st, id);
    if r.code == Ok {
      var did := st.bookings[id].driver;
      if did.Some? && did.value in st.drivers {
        DM.StatusWritePreservesTable(st.drivers, did.value, DM.Available);
      }
      WritePreservesInv(st, r.tables, id);
    }
  }

  lemma AcceptPreservesInv(st: Tables, id: BookingId, did: Option<DriverId>)
    requires Inv(st)
    ensures Inv(AcceptDriverCancellation(st, id, did).tables)
  {
    var r := AcceptDriverCancellation(st, id, did);
    if r.code == Ok {
      if did.Some? && did.value in st.drivers {
        DM.StatusWritePreservesTable(st.drivers, did.value, DM.Available);
      }
      WritePreservesInv(st, r.tables, id);
    }
  }

  /** Every handler, whatever its arguments and outcome, keeps Inv. */
  lemma ApplyPreservesInv(st: Tables, op: Op)
    requires Inv(st)
    ensures Inv(Apply(st, op).tables)
  {
    match op
    case Create(req, now) => CreatePreservesInv(st, req, now);
    case Assign(id, did) => AssignPreservesInv(st, id, did);
    case Cancel(id) => CancelPreservesInv(st, id);
    case AcceptCancellation(id, did) => AcceptPreservesInv(st, id, did);
    case RequestCancellation(id, did) => RequestPreservesInv(st, id, did);
    case Arrive(id) => ArrivePreservesInv(st, id);
    case Start(id) => StartPreservesInv(st, id);
    case End(id) => EndPreservesInv(st, id);
  }

  lemma RequestPreservesInv(st: Tables, id: BookingId, did: Option<DriverId>)
    requires Inv(st)
    ensures Inv(RequestDriverCancellation(st, id, did).tables)
  {
    var r := RequestDriverCancellation(st, id, did);
    if r.code == Ok { WritePreservesInv(st, r.tables, id); }
  }

  lemma ArrivePreservesInv(st: Tables, id: BookingId)
    requires Inv(st)
    ensures Inv(ArriveAtPickup(st, id).tables)
  {
    var r := ArriveAtPickup(st, id);
    if r.code == Ok { WritePreservesInv(st, r.tables, id); }
  }

  lemma StartPreservesInv(st: Tables, id: BookingId)
    requires Inv(st)
    ensures Inv(StartRide(st, id).tables)
  {
    var r := StartRide(st, id);
    if r.code == Ok { WritePreservesInv(st, r.tables, id); }
  }

  lemma EndPreservesInv(st: Tables, id: BookingId)
    requires Inv(st)
    ensures Inv(EndRide(st, id).tables)
  {
    var r := EndRide(st, id);
    if r.code == Ok { WritePreservesInv(st, r.tables, id); }
  }

  /** Inv holds after any sequence of handler calls from a store where it held. */
  lemma {:induction false} RunPreservesInv(st: Tables, ops: seq<Op>)
    requires Inv(st)
    ensures Inv(Run(st, ops))
    decreases |ops|
  {
    if ops != [] {
      ApplyPreservesInv(st, ops[0]);
      RunPreservesInv(Apply(st, ops[0]).tables, ops[1..]);
    }
  }

  /** A booking becomes completed only by endRide, and only from ongoing. */
  lemma CompletedOnlyFromOngoing(st: Tables, op: Op, id: BookingId)
    requires id in st.bookings && st.bookings[id].status != Completed
    requires id in Apply(st, op).tables.bookings && Apply(st, op).tables.bookings[id].status == Completed
    ensures op.End? && op.id == id && st.bookings[id].status == Ongoing
  {
  }

  // ---------------------------------------------------------------------------------------
  // The lifecycle invariant the guards do not keep: a driver is set exactly while the
  // booking is confirmed, ongoing or completed.

  predicate DriverIffActive(b: Booking) {
    b.driver.Some? <==> (b.status == Confirmed || b.status == Ongoing || b.status == Completed)
  }

  predicate AllDriverIffActive(st: Tables) {
    forall id :: id in st.bookings ==> DriverIffActive(st.bookings[id])
  }

  /** Every handler but cancelBooking and startRide keeps DriverIffActive. */
  lemma DriverIffActiveKeptByOtherHandlers(st: Tables, op: Op)
    requires AllDriverIffActive(st)
    requires !op.Cancel? && !op.Start?
    ensures AllDriverIffActive(Apply(st, op).tables)
  {
  }

  /** cancelBooking leaves `driver` set on a cancelled booking. */
  lemma CancelKeepsDriver(st: Tables, id: BookingId)
    requires id in st.bookings && st.bookings[id].driver.Some?
    ensures var r := CancelBooking(st, id);
      r.code == Ok && r.tables.bookings[id].driver == st.bookings[id].driver
      && r.tables.bookings[id].status == Cancelled && !DriverIffActive(r.tables.bookings[id])
  {
  }

  /** startRide looks only at the arrival flag: any status, even cancelled or pending, becomes ongoing. */
  lemma StartIgnoresStatus(st: Tables, id: BookingId)
    requires id in st.bookings && st.bookings[id].driverArrivedAtPickup
    ensures var r := StartRide(st, id);
      r.code == Ok && r.tables.bookings[id].status == Ongoing
      && r.tables.bookings[id].driver == st.bookings[id].driver
  {
  }

  /** Cancelling twice succeeds twice and the second call changes nothing more. */
  lemma CancelIdempotent(st: Tables, id: BookingId)
    requires id in st.bookings
    ensures var r1 := CancelBooking(st, id);
      var r2 := CancelBooking(r1.tables, id);
      r1.code == Ok && r2.code == Ok && r2.tables == r1.tables
  {
  }

  // ---------------------------------------------------------------------------------------
  // Concrete runs

  const D1: DriverId := "5f8d0d55b54764421b7156d1"
  const U1: UserId := "5f8d0d55b54764421b7156c9"

  /** Both sample ids cast to ObjectIds, and D1 is spelled canonically. */
  lemma SampleIdsCast()
    ensures IsObjectId(D1) && IsObjectId(U1) && CanonicalId(D1) == D1
  {
    CanonicalIdFixed(D1);
  }

  /**
   * The driver id spelled in upper case finds the driver stored under D1, since findById
   * casts it to the same ObjectId; the booking and the broadcast carry D1.
   */
  lemma AssignFindsAnySpelling(st: Tables, id: BookingId)
    requires id in st.bookings && D1 in st.drivers
    ensures var r := AssignDriver(st, id, "5F8D0D55B54764421B7156D1");
      && r.code == Ok && r.tables.bookings[id].driver == Some(D1)
      && r.tables.drivers[D1].driverStatus == DM.Unavailable
      && r.emitted == [BookingConfirmed(id, D1)]
  {
    var up: string := "5F8D0D55B54764421B7156D1";
    assert IsObjectId(up);
    assert CanonicalId(up) == D1 by {
      assert forall i :: 0 <= i < |up| ==> CanonicalId(up)[i] == D1[i];
    }
  }

  function SampleDriver(email: string): DM.Driver {
    DM.NewDriver("Ann", "Banda", Some(0), email, "0977", "123/45/1", "Lusaka", "hash", "1234")
  }

  function SampleDrivers(): map<DriverId, DM.Driver> {
    map[D1 := SampleDriver("ann@example.com")]
  }

  /** The sample driver table meets what a store requires of its drivers. */
  lemma SampleDriversValid()
    ensures forall did :: did in SampleDrivers() ==> DM.DriverValid(SampleDrivers()[did])
    ensures DM.EmailsUnique(SampleDrivers()) && DriverKeysCanonical(SampleDrivers())
  {
    SampleIdsCast();
  }

  /** A store with no bookings over the sample drivers. */
  function SampleStore(): (st: Tables)
    ensures Inv(st) && st == Tables(map[], SampleDrivers(), 0)
  {
    SampleDriversValid();
    Initial(SampleDrivers())
  }

  function SampleRequest(): BookingRequest {
    BookingRequest(Some(U1), Some(-15.41), Some(28.28), Some(-15.43), Some(28.30), Some(50.0), false, None, None)
  }

  /** A request with pickup (-15.41, 28.28), dropoff (-15.43, 28.30) and price 50 creates a pending booking. */
  lemma CreateSampleBooking(st: Tables)
    ensures var r := CreateBooking(st, SampleRequest(), 0);
      r.code == Ok && r.tables.bookings[st.nextId].status == Pending
      && r.tables.bookings[st.nextId].thirdStop == None
  {
    SampleIdsCast();
  }

  /** A user id spelled in upper case is stored as the ObjectId it casts to, in lower case. */
  lemma CreateStoresCanonicalUser(st: Tables)
    ensures var r := CreateBooking(st, SampleRequest().(user := Some("5F8D0D55B54764421B7156C9")), 0);
      r.code == Ok && r.tables.bookings[st.nextId].user == U1
  {
    var up: string := "5F8D0D55B54764421B7156C9";
    assert IsObjectId(up);
    assert CanonicalId(up) == U1 by {
      assert forall i :: 0 <= i < |up| ==> CanonicalId(up)[i] == U1[i];
    }
  }

  /**
   * A user id that does not cast to an ObjectId passes the presence check but fails the
   * save: the answer is 500 and nothing is stored.
   */
  lemma UncastableUserRejected(st: Tables)
    ensures var r := CreateBooking(st, SampleRequest().(user := Some("u1")), 0);
      r.code == ServerError && r.tables == st && r.emitted == []
  {
  }

  /** A coordinate of 0 is falsy, so a request with one is rejected and nothing is created. */
  lemma ZeroCoordinateRejected(st: Tables)
    ensures var r := CreateBooking(st, SampleRequest().(dropOffLongitude := Some(0.0)), 0);
      r.code == Invalid && r.tables == st
  {
  }

  /**
   * From a valid store: create, assign, arrive, request and accept a driver cancellation,
   * start. The booking ends up ongoing with no driver, although every step succeeded.
   */
  lemma {:induction false} OngoingWithoutDriver()
    ensures var st := Run(SampleStore(),
                          [Create(SampleRequest(), 0), Assign(0, D1), Arrive(0),
                           RequestCancellation(0, Some(D1)), AcceptCancellation(0, Some(D1)), Start(0)]);
      Inv(st) && 0 in st.bookings && st.bookings[0].status == Ongoing && st.bookings[0].driver == None
      && !AllDriverIffActive(st)
  {
    SampleIdsCast();
    var ops := [Create(SampleRequest(), 0), Assign(0, D1), Arrive(0),
                RequestCancellation(0, Some(D1)), AcceptCancellation(0, Some(D1)), Start(0)];
    var s0 := SampleStore();
    var s1 := Apply(s0, ops[0]).tables;
    assert s1.bookings[0].status == Pending;
    var s2 := Apply(s1, ops[1]).tables;
    assert s2.bookings[0].driver == Some(D1);
    var s3 := Apply(s2, ops[2]).tables;
    assert s3.bookings[0].driverArrivedAtPickup;
    var s4 := Apply(s3, ops[3]).tables;
    assert s4.bookings[0].driverCancellationRequested;
    var s5 := Apply(s4, ops[4]).tables;
    assert s5.bookings[0].driver == None && s5.bookings[0].driverArrivedAtPickup;
    var s6 := Apply(s5, ops[5]).tables;
    assert s6.bookings[0].status == Ongoing;
    assert Run(s6, []) == s6;
    assert Run(s5, ops[5..]) == s6;
    assert Run(s4, ops[4..]) == s6;
    assert Run(s3, ops[3..]) == s6;
    assert Run(s2, ops[2..]) == s6;
    assert Run(s1, ops[1..]) == s6;
    RunPreservesInv(s0, ops);
  }

  /**
   * Two bookings, the same driver assigned to both: both assignments succeed, so one
   * unavailable driver serves two confirmed bookings; cancelling the first then makes that
   * driver available while the second is still confirmed with it.
   */
  lemma {:induction false} DoubleAssignment()
    ensures var ops := [Create(SampleRequest(), 0), Create(SampleRequest(), 1), Assign(0, D1), Assign(1, D1)];
      var st := Run(SampleStore(), ops);
      var st' := CancelBooking(st, 0).tables;
      && 0 in st.bookings && 1 in st.bookings
      && st.bookings[0].status == Confirmed && st.bookings[1].status == Confirmed
      && st.bookings[0].driver == Some(D1) && st.bookings[1].driver == Some(D1)
      && D1 in st.drivers && D1 in st'.drivers
      && st.drivers[D1].driverStatus == DM.Unavailable
      && st'.bookings[1].status == Confirmed && st'.bookings[1].driver == Some(D1)
      && st'.drivers[D1].driverStatus == DM.Available
  {
    SampleIdsCast();
    var ops := [Create(SampleRequest(), 0), Create(SampleRequest(), 1), Assign(0, D1), Assign(1, D1)];
    var s0 := SampleStore();
    var s1 := Apply(s0, ops[0]).tables;
    var s2 := Apply(s1, ops[1]).tables;
    assert 0 in s2.bookings && 1 in s2.bookings;
    var s3 := Apply(s2, ops[2]).tables;
    var s4 := Apply(s3, ops[3]).tables;
    assert s4.bookings[0].driver == Some(D1) && s4.bookings[1].driver == Some(D1);
    assert D1 in s4.drivers && s4.drivers[D1].driverStatus == DM.Unavailable;
    assert Run(s4, []) == s4;
    assert Run(s3, ops[3..]) == s4;
    assert Run(s2, ops[2..]) == s4;
    assert Run(s1, ops[1..]) == s4;
  }

  /** Arrival, start and end in sequence complete a confirmed booking with both flags set. */
  lemma ArriveStartEndCompletes(st: Tables, id: BookingId)
    requires id in st.bookings && st.bookings[id].status == Confirmed && st.bookings[id].driver.Some?
    ensures var r1 := ArriveAtPickup(st, id);
      var r2 := StartRide(r1.tables, id);
      var r3 := EndRide(r2.tables, id);
      && r1.code == Ok && r2.code == Ok && r3.code == Ok
      && r3.tables.bookings[id].status == Completed
      && r3.tables.bookings[id].driverArrivedAtPickup && r3.tables.bookings[id].driverArrivedAtDropoff
  {
  }

  /** A driver cancellation request then its acceptance: pending, no driver, driver available. */
  lemma RequestThenAcceptReleases(st: Tables, id: BookingId, did: DriverId)
    requires id in st.bookings && st.bookings[id].driver == Some(did) && did in st.drivers
    ensures var r1 := RequestDriverCancellation(st, id, Some(did));
      var r2 := AcceptDriverCancellation(r1.tables, id, Some(did));
      && r1.code == Ok && r1.tables.bookings[id].status == st.bookings[id].status
      && r2.code == Ok && r2.tables.bookings[id].status == Pending
      && r2.tables.bookings[id].driver == None && !r2.tables.bookings[id].driverCancellationRequested
      && r2.tables.drivers[did].driverStatus == DM.Available
  {
  }

  // ---------------------------------------------------------------------------------------
  // The schema as written: 'ongoing' is not in the status enum

  /** No stored booking is ongoing. */
  predicate NoneOngoing(st: Tables) {
    forall id :: id in st.bookings ==> st.bookings[id].status != Ongoing
  }

  lemma ApplyAsWrittenKeepsNoneOngoing(st: Tables, op: Op)
    requires NoneOngoing(st)
    ensures NoneOngoing(ApplyAsWritten(st, op).tables)
    ensures op.End? ==> ApplyAsWritten(st, op).code == Invalid
  {
  }

  /**
   * With the schema as written, from a store with no ongoing booking, no sequence of
   * handler calls ever makes one ongoing, so endRide can never succeed and no ride is
   * ever completed by endRide.
   */
  lemma {:induction false} NoRideEverEndsAsWritten(st: Tables, ops: seq<Op>, id: BookingId)
    requires NoneOngoing(st)
    ensures NoneOngoing(RunAsWritten(st, ops))
    ensures EndRide(RunAsWritten(st, ops), id).code == Invalid
    decreases |ops|
  {
    if ops != [] {
      ApplyAsWrittenKeepsNoneOngoing(st, ops[0]);
      NoRideEverEndsAsWritten(ApplyAsWritten(st, ops[0]).tables, ops[1..], id);
    }
  }
}
