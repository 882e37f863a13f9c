/**
 * The driver search of controllers/BookRideController.js (searchAndSendAvailableDrivers),
 * on discrete ticks of one poll interval (10 s). The interval callback first runs at tick 1,
 * then every tick; the one-minute timeout fires at tick 6. The two closure variables
 * `searchComplete` and `intervalId` become fields of a SearchRun object, and the HTTP
 * response, which can be written once only, becomes a write-once field. The geospatial
 * query is an oracle: for each tick it answers with a list of driver ids, possibly empty,
 * or fails, and it answers within its tick.
 */
module DriverSearch {
  import opened Wrappers
  import opened BookingModel

  const PollIntervalMs: nat := 10000
  const TimeoutMs: nat := 60000
  /** The tick at which the timeout fires. */
  const DeadlineTick: nat := TimeoutMs / PollIntervalMs
  const SearchRadiusMiles: nat := 3

  /** The locator's arguments: a [longitude, latitude] center and a radius in miles. */
  datatype Query = Query(center: seq<real>, radiusMiles: nat)

  /** The query every poll of a booking's search sends. */
  function QueryFor(pickUp: Location): Query {
    Query([pickUp.longitude, pickUp.latitude], SearchRadiusMiles)
  }

  /** What one poll of the locator yields. */
  datatype PollResult = Drivers(ids: seq<DriverId>) | QueryFailed

  /** The locator's answer to a query at a tick. */
  type Locator = (Query, nat) -> PollResult

  /** The broadcasts of a search. */
  datatype SearchEvent = DriversAvailable(bookingId: nat, drivers: seq<DriverId>) | NoDriversAvailable(bookingId: nat)

  /**
   * The HTTP replies of searchDriversForBooking: 200 with drivers, 500 on a query error,
   * 404 on timeout, and the 404 for a booking that is not found, sent before any search.
   */
  datatype Reply = Found(drivers: seq<DriverId>) | SearchError | NoneFound | BookingNotFound

  /**
   * What a search leaves behind: its broadcasts, the one reply the client receives, and
   * whether a second write to the response threw (ERR_HTTP_HEADERS_SENT) in a timer
   * callback, where nothing catches it and the process exits.
   */
  datatype SearchOutcome = SearchOutcome(emitted: seq<SearchEvent>, reply: Reply, crashed: bool)

  /** A poll that ends polling: a non-empty driver list, or a failed query. */
  predicate Decisive(r: PollResult) {
    r.QueryFailed? || |r.ids| > 0
  }

  /** The first tick from `from` on, before the deadline, whose poll is decisive. */
  function FirstDecisive(locate: Locator, q: Query, from: nat): (r: Option<nat>)
    ensures r.Some? ==> from <= r.value < DeadlineTick && Decisive(locate(q, r.value))
    ensures forall t :: from <= t < DeadlineTick && (r.None? || t < r.value) ==> !Decisive(locate(q, t))
    decreases DeadlineTick - from
  {
    if from >= DeadlineTick then None
    else if Decisive(locate(q, from)) then Some(from)
    else FirstDecisive(locate, q, from + 1)
  }

  /**
   * What a search reports, read off the first decisive poll: success with its drivers;
   * or, with no decisive poll, the timeout's 404. After a failed query the 500 is sent.
   * As written (`endsOnError` false) the error branch leaves `searchComplete` false, so
   * the timeout broadcasts again and its 404 write throws; with `endsOnError` the error
   * branch ends the search and the timeout does nothing.
   */
  function Expected(bookingId: nat, q: Query, locate: Locator, endsOnError: bool): SearchOutcome {
    match FirstDecisive(locate, q, 1)
    case None => SearchOutcome([NoDriversAvailable(bookingId)], NoneFound, false)
    case Some(t) =>
      match locate(q, t)
      case Drivers(ids) => SearchOutcome([DriversAvailable(bookingId, ids)], Found(ids), false)
      case QueryFailed =>
        if endsOnError then SearchOutcome([NoDriversAvailable(bookingId)], SearchError, false)
        else SearchOutcome([NoDriversAvailable(bookingId), NoDriversAvailable(bookingId)], SearchError, true)
  }

  /** The state of one search: the closure variables, the response and the broadcasts so far. */
  class SearchRun {
    const bookingId: nat
    const query: Query
    /** Whether the error branch also sets `searchComplete` (the corrected handler). */
    const endsOnError: bool
    var tick: nat
    var searchComplete: bool
    var intervalActive: bool     // the interval has not been cleared
    var emitted: seq<SearchEvent>
    var reply: Option<Reply>     // the response, once written
    var crashed: bool            // a second write to the response threw

    /**
     * The interval runs exactly until a response is written; a complete search has
     * cleared it; a crash can only come from the timeout; at the deadline the interval
     * has been cleared.
     */
    ghost predicate Valid()
      reads this
    {
      && tick <= DeadlineTick
      && (intervalActive <==> reply.None?)
      && (intervalActive ==> !searchComplete && emitted == [] && !crashed)
      && (searchComplete ==> !intervalActive)
      && (crashed ==> tick == DeadlineTick)
      && (tick == DeadlineTick ==> !intervalActive)
    }

    constructor (bookingId: nat, query: Query, endsOnError: bool)
      ensures Valid()
      ensures this.bookingId == bookingId && this.query == query && this.endsOnError == endsOnError
      ensures tick == 0 && !searchComplete && intervalActive && emitted == [] && reply == None && !crashed
    {
      this.bookingId, this.query, this.endsOnError := bookingId, query, endsOnError;
      tick, searchComplete, intervalActive := 0, false, true;
      emitted, reply, crashed := [], None, false;
    }

    /** `res.status(..).json(..)`: the first write is sent; a later one throws. */
    method Respond(r: Reply)
      modifies this
      ensures old(reply).None? ==> reply == Some(r) && crashed == old(crashed)
      ensures old(reply).Some? ==> reply == old(reply) && crashed
      ensures tick == old(tick) && searchComplete == old(searchComplete)
      ensures intervalActive == old(intervalActive) && emitted == old(emitted)
    {
      if reply.None? {
        reply := Some(r);
      } else {
        crashed := true;
      }
    }

    /** tryFindDrivers: the interval callback, given the locator's answer. */
    method TryFindDrivers(result: PollResult)
      requires Valid() && intervalActive && tick < DeadlineTick
      modifies this
      ensures Valid() && tick == old(tick) && !crashed
      ensures result.Drivers? && |result.ids| > 0 ==>
        && searchComplete && !intervalActive
        && emitted == [DriversAvailable(bookingId, result.ids)]
        && reply == Some(Found(result.ids))
      ensures result.Drivers? && |result.ids| == 0 ==>
        !searchComplete && intervalActive && emitted == [] && reply == None
      ensures result.QueryFailed? ==>
        && searchComplete == endsOnError && !intervalActive
        && emitted == [NoDriversAvailable(bookingId)]
        && reply == Some(SearchError)
    {
      match result
      case Drivers(ids) =>
        if |ids| > 0 {
          emitted := emitted + [DriversAvailable(bookingId, ids)];
          Respond(Found(ids));
          intervalActive := false;
          searchComplete := true;
        }
      case QueryFailed =>
        if !searchComplete {
          intervalActive := false;
          emitted := emitted + [NoDriversAvailable(bookingId)];
          Respond(SearchError);
          if endsOnError {
            searchComplete := true;
          }
        }
    }

    /**
     * The timeout callback: unless the search was marked complete, it clears the interval,
     * broadcasts "no drivers" and writes the 404, which throws when a reply was sent.
     */
    method OnTimeout()
      requires Valid() && tick == DeadlineTick - 1
      modifies this
      ensures tick == old(tick) && searchComplete == old(searchComplete)
      ensures !old(searchComplete) ==>
        && !intervalActive
        && emitted == old(emitted) + [NoDriversAvailable(bookingId)]
        && (old(reply).None? ==> reply == Some(NoneFound) && !crashed)
        && (old(reply).Some? ==> reply == old(reply) && crashed)
      ensures old(searchComplete) ==>
        intervalActive == old(intervalActive) && emitted == old(emitted)
        && reply == old(reply) && crashed == old(crashed)
    {
      if !searchComplete {
        intervalActive := false;
        emitted := emitted + [NoDriversAvailable(bookingId)];
        Respond(NoneFound);
      }
    }

    /**
     * One poll interval passes. At the deadline the timeout runs (and clears the interval
     * before a further poll); before it, the interval callback runs while not cleared.
     */
    method AdvanceTick(result: PollResult)
      requires Valid() && tick < DeadlineTick
      modifies this
      ensures Valid() && tick == old(tick) + 1
      ensures tick == DeadlineTick ==>
        searchComplete == old(searchComplete)
        && (!old(searchComplete) ==>
              && !intervalActive
              && emitted == old(emitted) + [NoDriversAvailable(bookingId)]
              && (old(reply).None? ==> reply == Some(NoneFound) && !crashed)
              && (old(reply).Some? ==> reply == old(reply) && crashed))
        && (old(searchComplete) ==>
              intervalActive == old(intervalActive) && emitted == old(emitted)
              && reply == old(reply) && crashed == old(crashed))
      ensures tick < DeadlineTick && old(intervalActive) ==>
        !crashed
        && (result.Drivers? && |result.ids| > 0 ==>
              searchComplete && !intervalActive
              && emitted == [DriversAvailable(bookingId, result.ids)]
              && reply == Some(Found(result.ids)))
        && (result.Drivers? && |result.ids| == 0 ==>
              !searchComplete && intervalActive && emitted == [] && reply == None)
        && (result.QueryFailed? ==>
              searchComplete == endsOnError && !intervalActive
              && emitted == [NoDriversAvailable(bookingId)]
              && reply == Some(SearchError))
      ensures tick < DeadlineTick && !old(intervalActive) ==>
        searchComplete == old(searchComplete) && intervalActive == old(intervalActive)
        && emitted == old(emitted) && reply == old(reply) && crashed == old(crashed)
    {
      if tick + 1 == DeadlineTick {
        OnTimeout();
      } else if intervalActive {
        TryFindDrivers(result);
      }
      tick := tick + 1;
    }
  }

  /**
   * searchAndSendAvailableDrivers: start the interval and the timeout, then let the ticks
   * pass up to the deadline, each interval callback asking the locator. What is broadcast
   * and replied is the Expected outcome.
   */
  method SearchAndSendAvailableDrivers(bookingId: nat, q: Query, locate: Locator, endsOnError: bool)
    returns (outcome: SearchOutcome)
    ensures outcome == Expected(bookingId, q, locate, endsOnError)
  {
    var run := new SearchRun(bookingId, q, endsOnError);
    ghost var f := FirstDecisive(locate, q, 1);
    while run.tick < DeadlineTick
      invariant run.Valid()
      invariant run.bookingId == bookingId && run.query == q && run.endsOnError == endsOnError
      invariant f.Some? && f.value <= run.tick && locate(q, f.value).Drivers? ==>
        run.searchComplete && !run.crashed
        && run.emitted == [DriversAvailable(bookingId, locate(q, f.value).ids)]
        && run.reply == Some(Found(locate(q, f.value).ids))
      invariant f.Some? && f.value <= run.tick && locate(q, f.value).QueryFailed? ==>
        && run.searchComplete == endsOnError
        && run.reply == Some(SearchError)
        && run.crashed == (run.tick == DeadlineTick && !endsOnError)
        && run.emitted == [NoDriversAvailable(bookingId)]
                          + (if run.tick == DeadlineTick && !endsOnError then [NoDriversAvailable(bookingId)] else [])
      invariant (f.None? || run.tick < f.value) && run.tick < DeadlineTick ==>
        run.intervalActive
      invariant (f.None? || run.tick < f.value) && run.tick == DeadlineTick ==>
        !run.crashed && run.emitted == [NoDriversAvailable(bookingId)] && run.reply == Some(NoneFound)
      decreases DeadlineTick - run.tick
    {
      run.AdvanceTick(locate(q, run.tick + 1));
    }
    outcome := SearchOutcome(run.emitted, run.reply.value, run.crashed);
  }

  /** Success comes from the first poll with a non-empty list, when every earlier poll was empty. */
  lemma SuccessAtFirstNonEmptyPoll(bookingId: nat, q: Query, locate: Locator, endsOnError: bool, t: nat)
    requires 1 <= t < DeadlineTick
    requires locate(q, t).Drivers? && |locate(q, t).ids| > 0
    requires forall u :: 1 <= u < t ==> locate(q, u) == Drivers([])
    ensures Expected(bookingId, q, locate, endsOnError)
      == SearchOutcome([DriversAvailable(bookingId, locate(q, t).ids)], Found(locate(q, t).ids), false)
  {
  }

  /** When every poll comes back empty, the timeout reports "no drivers" once and replies 404. */
  lemma NoDriversTimesOutOnce(bookingId: nat, q: Query, locate: Locator, endsOnError: bool)
    requires forall u :: 1 <= u < DeadlineTick ==> locate(q, u) == Drivers([])
    ensures Expected(bookingId, q, locate, endsOnError) == SearchOutcome([NoDriversAvailable(bookingId)], NoneFound, false)
  {
  }

  /**
   * Success and "no drivers" never both happen: the reply is 200 exactly when the one
   * broadcast is driversAvailable, and otherwise every broadcast is noDriversAvailable.
   * This rests on each query answering within its tick.
   */
  lemma SuccessExcludesTimeout(bookingId: nat, q: Query, locate: Locator, endsOnError: bool)
    ensures var o := Expected(bookingId, q, locate, endsOnError);
      && |o.emitted| > 0
      && (o.reply.Found? ==> o.emitted == [DriversAvailable(bookingId, o.reply.drivers)] && !o.crashed)
      && (!o.reply.Found? ==> forall i :: 0 <= i < |o.emitted| ==> o.emitted[i] == NoDriversAvailable(bookingId))
  {
  }

  /**
   * As written: a failed query before any success sends the 500 and clears the interval
   * without setting the flag, so at the deadline the timeout broadcasts "no drivers" a
   * second time and its 404 write throws.
   */
  lemma QueryErrorCrashesAsWritten(bookingId: nat, q: Query, locate: Locator, t: nat)
    requires 1 <= t < DeadlineTick && locate(q, t).QueryFailed?
    requires forall u :: 1 <= u < t ==> locate(q, u) == Drivers([])
    ensures Expected(bookingId, q, locate, false)
      == SearchOutcome([NoDriversAvailable(bookingId), NoDriversAvailable(bookingId)], SearchError, true)
  {
  }

  /** Corrected: the same failed query ends the search with one broadcast and the 500 alone. */
  lemma QueryErrorEndsSearch(bookingId: nat, q: Query, locate: Locator, t: nat)
    requires 1 <= t < DeadlineTick && locate(q, t).QueryFailed?
    requires forall u :: 1 <= u < t ==> locate(q, u) == Drivers([])
    ensures Expected(bookingId, q, locate, true) == SearchOutcome([NoDriversAvailable(bookingId)], SearchError, false)
  {
  }

  /**
   * Corrected: whatever the locator answers, the response is written once without a
   * throw, and exactly one event is broadcast. As written, the throw happens exactly when
   * some poll fails before any poll finds drivers.
   */
  lemma {:induction false} OneResponseWhenEndingOnError(bookingId: nat, q: Query, locate: Locator)
    ensures !Expected(bookingId, q, locate, true).crashed
    ensures |Expected(bookingId, q, locate, true).emitted| == 1
    ensures Expected(bookingId, q, locate, false).crashed <==>
      exists t :: 1 <= t < DeadlineTick && locate(q, t).QueryFailed?
                  && forall u :: 1 <= u < t ==> !Decisive(locate(q, u))
  {
    var f := FirstDecisive(locate, q, 1);
    if f.Some? && locate(q, f.value).QueryFailed? {
      assert forall u :: 1 <= u < f.value ==> !Decisive(locate(q, u));
    }
    if exists t :: 1 <= t < DeadlineTick && locate(q, t).QueryFailed? && forall u :: 1 <= u < t ==> !Decisive(locate(q, u)) {
      var t :| 1 <= t < DeadlineTick && locate(q, t).QueryFailed? && forall u :: 1 <= u < t ==> !Decisive(locate(q, u));
      assert f.Some? && f.value == t;
    }
  }

  /** A 200 reply carries exactly the drivers some poll before the deadline returned. */
  lemma FoundComesFromAPoll(bookingId: nat, q: Query, locate: Locator, endsOnError: bool)
    ensures var o := Expected(bookingId, q, locate, endsOnError);
      o.reply.Found? ==> exists t :: 1 <= t < DeadlineTick && locate(q, t) == Drivers(o.reply.drivers)
  {
    var f := FirstDecisive(locate, q, 1);
    if f.Some? && locate(q, f.value).Drivers? {
      assert locate(q, f.value) == Drivers(locate(q, f.value).ids);
    }
  }

  /** The first poll happens one interval after the start, not at once; the tick-0 answer is never used. */
  lemma FirstPollAfterOneInterval(bookingId: nat, q: Query, l1: Locator, l2: Locator, endsOnError: bool)
    requires forall t :: t != 0 ==> l1(q, t) == l2(q, t)
    ensures Expected(bookingId, q, l1, endsOnError) == Expected(bookingId, q, l2, endsOnError)
  {
    EqualFromHere(q, l1, l2, 1);
  }

  lemma {:induction false} EqualFromHere(q: Query, l1: Locator, l2: Locator, from: nat)
    requires from >= 1
    requires forall t :: t != 0 ==> l1(q, t) == l2(q, t)
    ensures FirstDecisive(l1, q, from) == FirstDecisive(l2, q, from)
    decreases DeadlineTick - from
  {
    if from < DeadlineTick {
      assert l1(q, from) == l2(q, from);
      EqualFromHere(q, l1, l2, from + 1);
    }
  }
}
