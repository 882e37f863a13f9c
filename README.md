# BantuRide ride booking: a Dafny model

This project models the ride-booking core of the BantuRide backend, an Express and
socket.io server backed by MongoDB. It covers five things:

- **Booking lifecycle.** A passenger creates a booking. A driver is assigned to it, arrives
  at the pickup point, starts the ride and ends it. Along the way the booking can be
  cancelled, and the driver can ask to be released, which the passenger accepts.
- **Stored documents.** The booking and driver documents, and what mongoose validation
  accepts when one is saved.
- **Driver search.** A poller queries for available drivers every 10 seconds and gives up
  after one minute.
- **Broadcasts.** The events the handlers pass to `io.emit`. As the source wires it,
  `socketServer(server)` attaches its own socket.io server to an HTTP server that never
  listens. The controller then builds `io` from the `{ io, emitToUser }` object that
  call returns, which socket.io reads as options, so the controller's `io` is attached
  to no server at all. Its broadcasts reach no client, and its acceptDriverCancellation
  listener never fires. The model records what each handler emits.
- **Socket registry.** The table that maps user ids to socket ids, so events can be sent
  to one user.

Layout:

- `booking_model.dfy` and `driver_model.dfy`: the two document schemas.
- `book_ride.dfy`: each handler as a pure transition on the two tables, with its result
  code. The codes follow the handler's HTTP status: 400 is `Invalid`, 404 is `NotFound`,
  and the 500 of a catch block is `ServerError`. A 500 comes from a save that fails
  validation, or from a lookup given an id that does not cast to an ObjectId. The
  transition also returns the broadcast events. `assignDriverToBooking` is neither
  exported nor routed in the source; it is modelled as the handler it is written to be.
- `book_ride_store.dfy`: the handlers as methods of a store object that loads, updates
  and saves records. Each method is proved to match its transition and to keep the store
  invariant.
- `book_ride_properties.dfy`: that invariant; what the guards do and do not ensure; and
  the consequence of the status enum lacking `ongoing`.
- `driver_search.dfy`: the poller in discrete ticks of 10 seconds. Polls happen at ticks
  1 to 5, and the one-minute timeout fires at tick 6. The locator is a parameter that
  answers each poll. The HTTP response can be written only once: a second write throws,
  and the model records that as a crash.
- `socket_server.dfy`: the user-to-socket registry, kept in key-insertion order so the
  `for ... in` loop in the disconnect handler can be modelled.

## Model

| member | source | states |
|---|---|---|
| BookingModel.NewBooking | models/BookRideModel.js:3-67 | a new booking holds the given user, locations, price and creation time. It is pending, with no driver, no third stop and all four flags false. It passes save validation exactly when the user id casts to an ObjectId and the price is present and at least 0 |
| BookingModel.IsObjectId | models/BookRideModel.js:4-12 | the form a string must have to cast to an ObjectId: exactly 24 hexadecimal digits |
| BookingModel.CanonicalId | models/BookRideModel.js:4-12 | the ObjectId a string casts to, as it prints: same length, each hex letter in lower case and every other character kept, and the result casts exactly when the string does |
| BookingModel.CanonicalIdFixed | models/BookRideModel.js:4-12 | a string is its own ObjectId spelling exactly when it holds no upper-case hex letter |
| BookingModel.InStatusEnum | models/BookRideModel.js:37-41 | the four statuses the schema declares; ongoing is not among them |
| BookingModel.PriceValid | models/BookRideModel.js:42-46 | price is required and at least 0 |
| BookingModel.BookingValid | models/BookRideModel.js:3-67 | save validation with every status the handlers write allowed: user casts to an ObjectId, driver does too when set, and price is valid |
| BookingModel.BookingValidAsWritten | models/BookRideModel.js:3-67 | save validation with the enum as declared: BookingValid and a declared status |
| DriverModel.NewDriver | models/DriverModel.js:3-82 | a new driver is available, located at Point [0, 0], with no vehicle information and no ratings. It is valid exactly when every required path is present |
| DriverModel.RequiredPresent | models/DriverModel.js:4-36 | every required string is non-empty and dob is present; otp at lines 59-62 is required too |
| DriverModel.RatingValid | models/DriverModel.js:68-81 | a rating, when given, lies between 1 and 5 |
| DriverModel.LocationValid | models/DriverModel.js:47-58 | the location type is Point, the only value of its enum |
| DriverModel.DriverValid | models/DriverModel.js:3-82 | save validation of a driver: the required paths, the location type and every rating |
| DriverModel.EmailsUnique | models/DriverModel.js:16-20 | the unique index on email: no two stored drivers share one |
| DriverModel.AllAvailable | controllers/BookRideController.js:78-88 | every id names a stored driver whose status is available, as the query filters |
| DriverModel.WithStatus | models/DriverModel.js:63-67 | setting the driver status changes that field only, so validity is unchanged |
| DriverModel.StatusWritePreservesTable | models/DriverModel.js:16-20 | rewriting one driver's status keeps every driver valid, keeps emails unique and keeps the same ids |
| DriverModel.InsertDriver | models/DriverModel.js:16-20 | a new driver is stored exactly when it is valid and its email is not taken. The table then gains only that id, and the unique index on email is kept |
| BookRide.HasRequiredFields | controllers/BookRideController.js:21 | the user and all four coordinates are truthy |
| BookRide.WantsThirdStop | controllers/BookRideController.js:42 | hasThirdStop and both third-stop coordinates are truthy |
| BookRide.CreateBooking | controllers/BookRideController.js:18-67 | 400 exactly when the user or any of the four coordinates is falsy, where 0 counts as falsy. 500 exactly when the user id does not cast to an ObjectId or the price is missing or negative. Otherwise one new pending booking is stored at the next id, holding the request's fields, with the user stored as the ObjectId it casts to (lower-case hex), and a third stop exactly when one is wanted and both its coordinates are truthy. It emits nothing. Every failure changes nothing |
| BookRide.AssignDriver | controllers/BookRideController.js:182-240 | 500 exactly when the driver id does not cast to an ObjectId, since the lookup throws. Otherwise the driver is looked up by the ObjectId the id casts to, in either case of hex digit, and 404 comes exactly when the booking or that driver is missing. Otherwise the booking gets that ObjectId as driver and status confirmed, the driver becomes unavailable, nothing else changes, and bookingConfirmed is emitted with that ObjectId. Every failure changes nothing |
| BookRide.Release | controllers/BookRideController.js:262-269 | makes the named driver available when that driver's record exists; otherwise the table is unchanged |
| BookRide.CancelBooking | controllers/BookRideController.js:245-286 | 404 exactly when the booking is missing. Otherwise it is cancelled whatever its status, its driver is released, its `driver` field stays set, and bookingCancelled is emitted |
| BookRide.RequestDriverCancellation | controllers/BookRideController.js:289-318 | OK exactly when the booking exists and its driver equals the requester; only the request flag is then set. Otherwise 404 and nothing changes |
| BookRide.AcceptDriverCancellation | controllers/BookRideController.js:321-363 | OK exactly when the request flag is set and the driver matches. The driver is then released, and the booking loses its driver and the flag and goes back to pending. Otherwise 400 and nothing changes |
| BookRide.ArriveAtPickup | controllers/BookRideController.js:367-399 | OK exactly when the booking is confirmed and has a driver; only the pickup flag is then set, and driverArrivedAtPickup is emitted. Otherwise 404 |
| BookRide.CanStart | controllers/BookRideController.js:409 | the guard of startRide: the booking exists and its pickup flag is set; its status is not looked at |
| BookRide.StartRide | controllers/BookRideController.js:403-435 | OK exactly when the driver has arrived at pickup. The status of the booking becomes ongoing, whatever it was, and rideStarted is emitted. Otherwise 400 (corrected schema) |
| BookRide.StartRideAsWritten | controllers/BookRideController.js:416-418 | with the enum as written, 400 when the driver has not arrived and 500 when it has. The store never changes and nothing is emitted |
| BookRide.EndRide | controllers/BookRideController.js:438-471 | OK exactly when the booking is ongoing. The dropoff flag is then set, the booking is completed, and rideEnded is emitted. Otherwise 400 |
| BookRideStore.BookingStore.constructor | controllers/BookRideController.js:1-2 | the Booking and Driver collections as the handlers first find them: no bookings, the given valid drivers with unique emails stored under their ObjectIds, and the store invariant holding |
| BookRideStore.BookingStore.PassengerBookingRequest | controllers/BookRideController.js:18-67 | the handler's code, new tables and broadcasts are those of CreateBooking. On success the returned id is the old next id. The store invariant is kept |
| BookRideStore.BookingStore.AssignDriverToBooking | controllers/BookRideController.js:182-240 | the result and new state are those of AssignDriver; the invariant is kept |
| BookRideStore.BookingStore.CancelBooking | controllers/BookRideController.js:245-286 | the result and new state are those of CancelBooking; the invariant is kept |
| BookRideStore.BookingStore.RequestDriverCancellation | controllers/BookRideController.js:289-318 | the result and new state are those of RequestDriverCancellation; the invariant is kept |
| BookRideStore.BookingStore.AcceptDriverCancellation | controllers/BookRideController.js:321-363 | the result and new state are those of AcceptDriverCancellation; the invariant is kept |
| BookRideStore.BookingStore.DriverAtPickupLocation | controllers/BookRideController.js:367-399 | the result and new state are those of ArriveAtPickup; the invariant is kept |
| BookRideStore.BookingStore.StartRide | controllers/BookRideController.js:403-435 | the result and new state are those of the corrected StartRide; the invariant is kept |
| BookRideStore.BookingStore.EndRide | controllers/BookRideController.js:438-471 | the result and new state are those of EndRide; the invariant is kept |
| BookRideStore.BookingStore.SearchDriversForBooking | controllers/BookRideController.js:100-120 | 404 exactly when the booking is missing, with its own "Booking not found" reply and no broadcast. Otherwise the outcome is that of the corrected search around the booking's pickup point, as [longitude, latitude] within 3 miles. It never crashes, and the drivers of a 200 reply are all stored and available drivers |
| BookRideProperties.CreatePreservesInv | controllers/BookRideController.js:18-67 | creating a booking keeps the store invariant: ids below the next id, every document valid, emails unique, drivers stored under their lower-case ObjectId, every assigned driver stored, and the flags consistent with the status |
| BookRideProperties.AssignPreservesInv | controllers/BookRideController.js:182-200 | an assignment keeps the store invariant |
| BookRideProperties.CancelPreservesInv | controllers/BookRideController.js:245-269 | a cancellation keeps the store invariant |
| BookRideProperties.AcceptPreservesInv | controllers/BookRideController.js:321-339 | accepting a driver cancellation keeps the store invariant |
| BookRideProperties.RequestPreservesInv | controllers/BookRideController.js:289-304 | requesting a driver cancellation keeps the store invariant |
| BookRideProperties.ArrivePreservesInv | controllers/BookRideController.js:367-382 | marking arrival at pickup keeps the store invariant |
| BookRideProperties.StartPreservesInv | controllers/BookRideController.js:403-418 | starting a ride keeps the store invariant |
| BookRideProperties.EndPreservesInv | controllers/BookRideController.js:438-454 | ending a ride keeps the store invariant |
| BookRideProperties.ApplyPreservesInv | controllers/BookRideController.js:18-471 | every handler, with any arguments and any outcome, keeps the store invariant |
| BookRideProperties.RunPreservesInv | controllers/BookRideController.js:18-471 | any sequence of handler calls keeps the store invariant |
| BookRideProperties.CompletedOnlyFromOngoing | controllers/BookRideController.js:444-454 | a booking becomes completed only through endRide on that booking, and only from ongoing |
| BookRideProperties.DriverIffActiveKeptByOtherHandlers | controllers/BookRideController.js:182-471 | apart from cancelBooking and startRide, every handler keeps this rule: a booking has a driver exactly when it is confirmed, ongoing or completed |
| BookRideProperties.CancelKeepsDriver | controllers/BookRideController.js:258-269 | cancelling a booking that has a driver leaves the driver set on the cancelled booking, which breaks that rule |
| BookRideProperties.StartIgnoresStatus | controllers/BookRideController.js:409-418 | startRide succeeds on any booking whose pickup flag is set, whatever its status, and makes it ongoing |
| BookRideProperties.CancelIdempotent | controllers/BookRideController.js:245-272 | a second cancel succeeds again and changes nothing more |
| BookRideProperties.CreateSampleBooking | controllers/BookRideController.js:18-57 | a request from a well-formed user id with pickup (-15.41, 28.28), dropoff (-15.43, 28.30) and price 50 is stored as a pending booking without a third stop |
| BookRideProperties.CreateStoresCanonicalUser | controllers/BookRideController.js:28-50 | a request whose user id is spelled in upper case is stored with the lower-case ObjectId that id casts to |
| BookRideProperties.UncastableUserRejected | controllers/BookRideController.js:50-65 | the same request with user "u1" passes the presence check, but its save fails: 500, and nothing is stored |
| BookRideProperties.ZeroCoordinateRejected | controllers/BookRideController.js:21-26 | a request with a 0 coordinate is rejected with 400 and nothing is stored |
| BookRideProperties.OngoingWithoutDriver | controllers/BookRideController.js:321-418 | create, assign, arrive, request cancellation, accept it, then start: the booking ends up ongoing with no driver, while the store invariant still holds |
| BookRideProperties.AssignFindsAnySpelling | controllers/BookRideController.js:182-211 | in any store holding a booking and the driver stored under a lower-case ObjectId, assigning with that id spelled in upper case succeeds; the booking gets the lower-case id, that driver becomes unavailable, and bookingConfirmed carries the lower-case id |
| BookRideProperties.DoubleAssignment | controllers/BookRideController.js:182-200 | one driver can be confirmed on two bookings. Cancelling the first then makes the driver available while the second booking is still confirmed with them |
| BookRideProperties.ArriveStartEndCompletes | controllers/BookRideController.js:367-454 | a confirmed booking with a driver goes through arrive, start and end to completed, with both arrival flags set |
| BookRideProperties.RequestThenAcceptReleases | controllers/BookRideController.js:289-339 | a request followed by its acceptance leaves the booking pending, with no driver and the flag cleared, and the driver available |
| BookRideProperties.ApplyAsWrittenKeepsNoneOngoing | controllers/BookRideController.js:416-418 | with the enum as written, no handler makes any booking ongoing, and endRide always answers 400 |
| BookRideProperties.NoRideEverEndsAsWritten | controllers/BookRideController.js:444-450 | with the enum as written, starting from no ongoing booking, no sequence of calls ever lets endRide succeed |
| DriverSearch.QueryFor | controllers/BookRideController.js:128 | every poll of a booking's search asks for [longitude, latitude] of its pickup point within 3 miles |
| DriverSearch.FirstDecisive | controllers/BookRideController.js:126-163 | the first poll before the deadline that returns drivers or fails; every earlier poll returned an empty list |
| DriverSearch.Expected | controllers/BookRideController.js:122-178 | the outcome a search must have, read off the first decisive poll, as written or with the error branch ending the search |
| DriverSearch.SearchRun.constructor | controllers/BookRideController.js:123-124 | a fresh search at tick 0, not complete, interval running, nothing sent |
| DriverSearch.SearchRun.Respond | controllers/BookRideController.js:142 | the first write of the response is sent, and any later write throws |
| DriverSearch.SearchRun.TryFindDrivers | controllers/BookRideController.js:126-163 | requires the interval to be running. Non-empty drivers: driversAvailable and the 200 reply are sent, the interval is cleared and the search is complete. Empty list: nothing happens. Failed query: the interval is cleared and noDriversAvailable and the 500 reply are sent; searchComplete stays false as written and becomes true in the corrected handler. It keeps Valid |
| DriverSearch.SearchRun.OnTimeout | controllers/BookRideController.js:168-177 | unless the search is complete: the interval is cleared and noDriversAvailable is sent. Then the 404 is written when no reply was written before; otherwise the write throws. A complete search is left alone |
| DriverSearch.SearchRun.AdvanceTick | controllers/BookRideController.js:165-177 | keeps Valid. At tick 6 the timeout runs, with the 404 or the throw as above. Before it, a poll runs only while the interval is active, and otherwise nothing happens |
| DriverSearch.SearchAndSendAvailableDrivers | controllers/BookRideController.js:122-178 | the broadcasts, the reply and whether the process crashes match Expected |
| DriverSearch.SuccessAtFirstNonEmptyPoll | controllers/BookRideController.js:129-150 | after empty polls, the first non-empty poll yields exactly one driversAvailable and one 200 reply with those drivers |
| DriverSearch.NoDriversTimesOutOnce | controllers/BookRideController.js:168-177 | when every poll is empty, exactly one noDriversAvailable is sent and the reply is the 404 |
| DriverSearch.SuccessExcludesTimeout | controllers/BookRideController.js:129-177 | the reply is a 200 exactly when the only broadcast is driversAvailable; otherwise every broadcast is noDriversAvailable. This rests on queries answering within their tick |
| DriverSearch.QueryErrorCrashesAsWritten | controllers/BookRideController.js:151-177 | as written, a failed query before any success sends the 500, and at tick 6 the timeout sends noDriversAvailable a second time and its 404 write throws |
| DriverSearch.QueryErrorEndsSearch | controllers/BookRideController.js:151-161 | corrected, the same failed query ends the search with one noDriversAvailable and the 500 alone |
| DriverSearch.OneResponseWhenEndingOnError | controllers/BookRideController.js:122-178 | corrected, no locator makes the search crash, and exactly one event is broadcast. As written, it crashes exactly when some poll fails before any poll finds drivers |
| DriverSearch.FoundComesFromAPoll | controllers/BookRideController.js:127-145 | a 200 reply carries exactly the drivers that some poll before the deadline returned |
| DriverSearch.FirstPollAfterOneInterval | controllers/BookRideController.js:165 | the outcome never depends on an answer at tick 0: the first poll comes one interval after the start |
| SocketServer.Register | helpers/socketServer.js:13-16 | the user is mapped to the socket, the only key added is the user, and every other user's entry is unchanged. A new user goes last in key order; an existing user keeps their place |
| SocketServer.FirstMappedTo | helpers/socketServer.js:21-22 | the first key, in enumeration order, whose socket matches; none earlier matches |
| SocketServer.RemoveAt | helpers/socketServer.js:23 | removing one key from the enumeration order keeps the other keys in their order |
| SocketServer.Disconnect | helpers/socketServer.js:19-28 | the key removed is the first in key order whose entry is the socket; no other key is removed, no remaining entry changes, every user on another socket stays, and with no user on the socket nothing changes |
| SocketServer.Deliveries | helpers/socketServer.js:32-37 | at most one delivery, to the user's socket. There is one exactly when the user is registered with a non-empty socket id |
| SocketServer.EmitAfterRegister | helpers/socketServer.js:13-37 | after registering on a socket, emitting to that user delivers exactly once, to that socket |
| SocketServer.DisconnectClearsSoleMapping | helpers/socketServer.js:19-28 | when only one user is on the socket, disconnecting removes that user and no entry maps to the socket afterwards |
| SocketServer.DisconnectKeepsLaterSharer | helpers/socketServer.js:21-26 | when two users share a socket, the loop removes the first in key order and leaves the later one mapped to the socket |
| SocketServer.Registry.constructor | helpers/socketServer.js:7 | `const users = {}`: an empty, well-formed registry with nothing sent |
| SocketServer.Registry.RegisterUser | helpers/socketServer.js:13-16 | the registry's table becomes Register of the old one; nothing is sent |
| SocketServer.Registry.DeleteAt | helpers/socketServer.js:23 | the key leaves both the map and the enumeration order; the table stays well formed |
| SocketServer.Registry.OnDisconnect | helpers/socketServer.js:19-28 | the for-in loop with delete and break leaves the table that Disconnect gives; nothing is sent |
| SocketServer.Registry.EmitToUser | helpers/socketServer.js:32-37 | the table is unchanged, and what is sent is the Deliveries for that user |

## Left out

- Geospatial query: the `$near` search within 3 miles is a parameter, the locator, that
  answers each poll with a list of driver ids or a failure. The miles-to-meters
  conversion and the 2dsphere index are not modelled.
- Driver summary payload: each driver's name and vehicle information is reduced to the
  driver id in three places: the driversAvailable payload, the driver in the
  bookingConfirmed payload (controllers/BookRideController.js:203-211) and the drivers
  listed in the 200 search reply (controllers/BookRideController.js:142-146).
- Timers: setInterval and setTimeout are ticks of 10 seconds, with the timeout at tick 6,
  taken to run before a sixth poll. The model assumes that every query answers within its
  own tick. In the source, the `await` of the query is where the timeout and further
  interval callbacks can run. The success branch does not check `searchComplete`, so a
  query still outstanding at 60 seconds could broadcast driversAvailable after
  noDriversAvailable. SuccessExcludesTimeout holds only under this assumption.
  Interleaving with other handlers during a search is not modelled either: the search
  reads a fixed snapshot of the store.
- SearchDriversForBooking: requires the locator to answer only with stored drivers that are
  available. This restates the query's `driverStatus` filter in place of the database
  search. On a missing booking, the outcome holds the 404 and no broadcast.
- BookRide.CreateBooking: request fields are taken as typed JSON values: real coordinates
  and price, and a boolean hasThirdStop. Server.js also accepts form-encoded bodies, in
  which every field is a string, and the model does not capture three consequences. A
  coordinate sent as `0` is the truthy string "0": it passes the presence check, is cast
  to 0 and saved, and the handler answers 200 where the model answers 400.
  `hasThirdStop=false` is a truthy string, so a supplied third stop is stored where the
  model stores none. A non-numeric coordinate string passes the presence check and fails
  the Number cast on save, answering 500; the model cannot represent that input.
- BookRideStore.BookingStore.PassengerBookingRequest: proved equal to CreateBooking, so it
  carries the same gap: request fields are typed JSON values, and form-encoded bodies,
  with their truthy "0" and "false" strings and uncastable coordinate strings, are not
  modelled.
- socket.io transport, HTTP responses and JSON bodies: a response is its result code, and
  a broadcast is a value appended to an event log. Server.js and the Express routing are
  not part of this model.
- MongoDB I/O and failures: finding and saving records cannot fail except by validation
  or by an id that does not cast. The catch branches for database errors (500) therefore
  fire in the model only for those two causes.
- Booking ids: a booking id is an abstract number, so every booking id is well formed. In
  the source, a booking id that does not cast to an ObjectId makes `findById` throw and
  the handler answer 500; the model does not represent that case.
- IsObjectId: only the 24-hexadecimal-digit form is modelled. BSON releases before
  version 6 also cast any 12-character string.
- Date.now: the creation time of a booking is a parameter.
- Save of an existing record: a handler's save is a plain write. The invariant lemmas show
  that every record written is still valid, so validation never rejects those saves. In
  cancelBooking the booking is saved before the driver; with no failures, the order does
  not matter.
- BookRide.RequestDriverCancellation: compares the stored driver id with the requested one
  by value, so equal ids match. In the source, the stored id is an ObjectId and the
  request's is a string, and `!==` between an object and a string is always true. In the
  source, therefore, the request succeeds only for a booking with no driver when no
  driverId is given (`undefined !== undefined` is false); with any driver assigned it
  always answers 404. The model does not capture that.
- BookRide.AcceptDriverCancellation: the same value comparison of driver ids as above. Every
  `res` in this socket handler is undefined in its scope. After the record updates, the
  call to the search throws a ReferenceError, and so do the replies in the 400 and 500
  branches, so no response is ever sent. The model keeps the record updates. Its result
  code is the model's own and is not a reply the source sends. No new search starts.
- SocketServer: user ids are assumed to be ordinary strings that do not look like integer
  indexes. In JavaScript, a `for ... in` loop visits integer-like keys first, in ascending
  order. A `"__proto__"` key is never stored, and a lookup of `"constructor"` finds an
  inherited, truthy value. The model keeps none of these.
- Users, payments, notifications, favourites, profiles, authentication and OTP handling
  live in other controllers and are not part of this model.
- Haversine distance and fare calculation are not part of this model.

## Findings

| source | as written | input that shows it | evidently intended | confidence | as-written member | corrected member |
|---|---|---|---|---|---|---|
| models/BookRideModel.js:37-41 | The status enum lists pending, confirmed, completed and cancelled, but startRide stores 'ongoing' (controllers/BookRideController.js:417-418). That save fails validation with a 500, so no booking ever becomes ongoing, and endRide, which requires ongoing, always answers 400. | A confirmed booking with a driver after driverAtPickupLocation; then startRide, then endRide | 'ongoing' belongs in the enum, so that start and end complete a ride | not executed | BookRide.StartRideAsWritten, BookRideProperties.NoRideEverEndsAsWritten | BookRide.StartRide, BookRideProperties.ArriveStartEndCompletes |
| controllers/BookRideController.js:151-177 | After a failed query, the catch sends the 500, clears the interval and leaves `searchComplete` false. At 60 seconds the timeout sends a second noDriversAvailable and writes the 404 to a response already sent. That write throws ERR_HTTP_HEADERS_SENT inside a timer callback, where nothing catches it, so the process exits. | A locator that fails at the first poll (tick 1) | the error branch ends the search, so the timeout sends nothing and the client gets one 500 | not executed | DriverSearch.QueryErrorCrashesAsWritten, DriverSearch.SearchAndSendAvailableDrivers | DriverSearch.QueryErrorEndsSearch, DriverSearch.OneResponseWhenEndingOnError |
