/** The booking routes: the per-show seat lock table (`lockSeats`,
    `areSeatsLocked`), `POST /` with its lock check and conflict check,
    `DELETE /:bookingId` with its multi-stage ledger cleanup, and the
    `/booked-seats` de-duplication.

    Each request is one atomic step at an explicit time `now`. The date
    conversions of the routes are done by the caller: a booking's
    `showDate` carries its ISO day, and a create request comes with the
    instants of its show day and of the next day. */
module BookingRoutes {
  import opened Wrappers
  import opened Strings
  import opened Collections
  import opened ShowSeats
  import opened Bookings
  import SeatRoutes

  /** `LOCK_TIMEOUT = 5 * 60 * 1000`. */
  const LOCK_TIMEOUT: int := 5 * 60 * 1000

  /** `seatLocks`: lock key -> (seat number -> lock time). */
  type LockTable = map<string, map<int, int>>

  /** `getCacheKey(movie, city, showtime, date)`: the lock key has the same
      form as the seat routes' show key. */
  function CacheKey(movie: string, city: string, showtime: string, date: string): (k: string)
    ensures k == SeatRoutes.ShowKey(movie, city, showtime, date)
  {
    Join([movie, city, showtime, date], '_')
  }

  /** `seatLocks.get(lockKey) || new Map()`. */
  function LocksOf(locks: LockTable, key: string): map<int, int>
  {
    if key in locks then locks[key] else map[]
  }

  /** What `lockSeats` leaves: every listed seat of the show locked at
      `now`, everything else as it was. */
  function WithLocks(locks: LockTable, key: string, seats: seq<int>, now: int): (locks': LockTable)
    ensures locks'.Keys == locks.Keys + {key}
    ensures forall s :: s in seats ==> s in locks'[key] && locks'[key][s] == now
    ensures forall s :: s !in seats ==>
              (s in locks'[key] <==> s in LocksOf(locks, key)) &&
              (s in LocksOf(locks, key) ==> locks'[key][s] == LocksOf(locks, key)[s])
    ensures forall k :: k in locks && k != key ==> locks'[k] == locks[k]
  {
    var listed := set x | x in seats;
    locks[key := map s | s in LocksOf(locks, key).Keys + listed ::
                   if s in seats then now else LocksOf(locks, key)[s]]
  }

  /** A lock time that still blocks at `now`: present, truthy (not 0) and
      younger than `LOCK_TIMEOUT`. */
  predicate LockLive(m: map<int, int>, seat: int, now: int)
  {
    seat in m && m[seat] != 0 && now - m[seat] < LOCK_TIMEOUT
  }

  /** `areSeatsLocked`: false without a lock map for the show, else whether
      some requested seat has a live lock. */
  predicate SeatsLocked(locks: LockTable, key: string, seats: seq<int>, now: int)
  {
    key in locks && exists i :: 0 <= i < |seats| && LockLive(locks[key], seats[i], now)
  }

  /** Locks are never removed: locking keeps every lock of every show, and
      no lock time goes back. */
  lemma LocksOnlyGrow(locks: LockTable, key: string, seats: seq<int>, now: int, k: string, s: int)
    requires s in LocksOf(locks, k)
    requires LocksOf(locks, k)[s] <= now
    ensures s in LocksOf(WithLocks(locks, key, seats, now), k)
    ensures LocksOf(locks, k)[s] <= LocksOf(WithLocks(locks, key, seats, now), k)[s]
  {
  }

  /** A seat locked at a non-zero `now` blocks every request naming it
      until `LOCK_TIMEOUT` has passed. */
  lemma LockedSeatBlocks(locks: LockTable, key: string, seats: seq<int>, now: int,
                         other: seq<int>, i: nat, later: int)
    requires now != 0
    requires i < |other| && other[i] in seats
    requires later < now + LOCK_TIMEOUT
    ensures SeatsLocked(WithLocks(locks, key, seats, now), key, other, later)
  {
    assert LockLive(WithLocks(locks, key, seats, now)[key], other[i], later);
  }

  // -----------------------------------------------------------------------
  // POST /

  /** The fields of a create request the model reads. Absent strings are
      "", an absent `numberOfSeats` is 0, and `seatsBooked` is `None` when
      missing. */
  datatype CreateRequest = CreateRequest(
    user: string,
    movie: string,
    email: string,
    theaterName: string,
    city: string,
    showtime: string,
    showDate: string,
    seatsBooked: Option<seq<int>>,
    numberOfSeats: int,
    paymentDetails: Option<PaymentDetails>)

  /** `new Date(showDate)` and the start of the following day. */
  datatype ShowDay = ShowDay(date: DateValue, nextDay: int)

  /** The clock parts and random number the pre-save hook reads. */
  datatype RefClock = RefClock(year: nat, monthIndex: nat, day: nat, random: nat)

  /** The 400 guard. `city` is not checked. */
  predicate MissingFields(req: CreateRequest)
  {
    || req.user == "" || req.movie == "" || req.email == "" || req.showtime == "" || req.showDate == ""
    || req.seatsBooked.None? || |req.seatsBooked.value| == 0
  }

  /** An existing booking the conflict query returns: same movie, city and
      showtime, a show date within the requested day, status confirmed or
      completed. */
  predicate SameShow(b: Booking, req: CreateRequest, day: ShowDay)
  {
    && b.movie == req.movie && b.city == req.city && b.showtime == req.showtime
    && day.date.instant <= b.showDate.instant < day.nextDay
    && b.status in ["confirmed", "completed"]
  }

  /** `existingBookings.flatMap(b => b.seatsBooked)`. */
  function SeatsOfShow(bookings: seq<Booking>, req: CreateRequest, day: ShowDay): (seats: seq<int>)
    ensures forall s :: s in seats <==>
              exists i :: 0 <= i < |bookings| && SameShow(bookings[i], req, day) && s in bookings[i].seatsBooked
    decreases |bookings|
  {
    if bookings == [] then []
    else
      var rest := SeatsOfShow(bookings[..|bookings| - 1], req, day);
      var b := bookings[|bookings| - 1];
      rest + if SameShow(b, req, day) then b.seatsBooked else []
  }

  /** `requestedSeats.filter(seat => bookedSeats.includes(seat))`. */
  function Conflicting(requested: seq<int>, booked: seq<int>): (c: seq<int>)
    ensures |c| <= |requested|
    ensures forall s :: s in c <==> s in requested && s in booked
    decreases |requested|
  {
    if requested == [] then []
    else
      var rest := Conflicting(requested[..|requested| - 1], booked);
      var s := requested[|requested| - 1];
      rest + if s in booked then [s] else []
  }

  /** `conflictingSeats.join(', ')`. */
  function SeatList(seats: seq<int>): string
    decreases |seats|
  {
    if seats == [] then ""
    else if |seats| == 1 then IntToString(seats[0])
    else IntToString(seats[0]) + ", " + SeatList(seats[1..])
  }

  /** The `Booking` the route constructs, after its pre-save hook. */
  function NewBooking(req: CreateRequest, day: ShowDay, newId: string, clock: RefClock): (b: Booking)
    requires req.seatsBooked.Some?
    ensures b.id == newId && b.user == req.user && b.movie == req.movie && b.city == req.city
    ensures b.showtime == req.showtime && b.showDate == day.date && b.seatsBooked == req.seatsBooked.value
    ensures b.theaterName == if req.theaterName != "" then req.theaterName else req.city + " theater"
    ensures b.numberOfSeats == if req.numberOfSeats != 0 then req.numberOfSeats else |req.seatsBooked.value|
    ensures b.status == "confirmed" && b.bookingStatus == DEFAULT_BOOKING_STATUS
    ensures b.paymentDetails == Some(if req.paymentDetails.Some? then req.paymentDetails.value
                                     else PaymentDetails(Some("default"), "completed"))
    ensures b.bookingReference == Reference(clock.year, clock.monthIndex, clock.day, clock.random)
  {
    var seats := req.seatsBooked.value;
    var b := Booking(
      newId, req.user, req.movie,
      if req.theaterName != "" then req.theaterName else req.city + " theater",
      req.city, req.showtime, day.date, seats,
      if req.numberOfSeats != 0 then req.numberOfSeats else |seats|,
      DEFAULT_BOOKING_STATUS, "confirmed",
      Some(if req.paymentDetails.Some? then req.paymentDetails.value
           else PaymentDetails(Some("default"), "completed")),
      "");
    Bookings.PreSave(b, clock.year, clock.monthIndex, clock.day, clock.random)
  }

  /** The unique index on `bookingReference`. */
  predicate ReferenceTaken(bookings: seq<Booking>, reference: string)
  {
    exists i :: 0 <= i < |bookings| && bookings[i].bookingReference == reference
  }

  /** Whether a create request passes the 400 guard and the lock check, so
      that it locks its seats. */
  predicate PassesLockCheck(locks: LockTable, req: CreateRequest, now: int)
  {
    !MissingFields(req) &&
    !SeatsLocked(locks, CacheKey(req.movie, req.city, req.showtime, req.showDate), req.seatsBooked.value, now)
  }

  /** What `POST /` answers. */
  function CreateReply(bookings: seq<Booking>, locks: LockTable, req: CreateRequest, day: ShowDay,
                       now: int, newId: string, clock: RefClock): Reply<Booking>
  {
    if MissingFields(req) then BadRequest("Missing required booking fields")
    else if !PassesLockCheck(locks, req, now) then Conflict("Some selected seats are being booked by another user")
    else StoreReply(bookings, req, day, newId, clock)
  }

  /** What `POST /` answers once the seats are locked: the conflict check,
      then the save. */
  function StoreReply(bookings: seq<Booking>, req: CreateRequest, day: ShowDay,
                      newId: string, clock: RefClock): Reply<Booking>
    requires req.seatsBooked.Some?
  {
    var conflicts := Conflicting(req.seatsBooked.value, SeatsOfShow(bookings, req, day));
    if |conflicts| > 0 then Conflict("Some selected seats are already booked: " + SeatList(conflicts))
    else
      var doc := NewBooking(req, day, newId, clock);
      if !Bookings.SchemaValid(doc) || ReferenceTaken(bookings, doc.bookingReference)
      then ServerError("Database error while creating booking")
      else Ok(doc)
  }

  // -----------------------------------------------------------------------
  // DELETE /:bookingId

  /** The showKey the cancel route builds: from the booking's `movie`
      field and the ISO day of its show date. */
  function CancelKey(b: Booking): string
  {
    CacheKey(b.movie, b.city, b.showtime, b.showDate.isoDay)
  }

  /** The ledger after the cleanup stages: `deleteByBookingId`, and only
      when that removed nothing, the fallbacks by bookingId again, by
      (showKey, seat in booking's seats) and by (showKey, bookedBy). */
  function CancelRows(rows: Rows, bookingId: string, b: Booking): Rows
  {
    var first := RemoveMatching(rows, ByBookingId(bookingId));
    if |MatchingIds(rows, ByBookingId(bookingId))| != 0 then first
    else
      var again := RemoveMatching(first, ByBookingId(bookingId));
      var bySeats := if |b.seatsBooked| > 0 then RemoveMatching(again, ByShowKeySeats(CancelKey(b), b.seatsBooked))
                     else again;
      if b.user != "" then RemoveMatching(bySeats, ByShowKeyUser(CancelKey(b), b.user)) else bySeats
  }

  /** `Booking.findById(id)`. */
  function FindBooking(bookings: seq<Booking>, id: string): (r: Option<Booking>)
    ensures r.Some? ==> r.value in bookings && r.value.id == id
    ensures r.None? ==> forall i :: 0 <= i < |bookings| ==> bookings[i].id != id
    decreases |bookings|
  {
    if bookings == [] then None
    else if bookings[0].id == id then Some(bookings[0])
    else FindBooking(bookings[1..], id)
  }

  /** `Booking.findByIdAndDelete(id)`. */
  function RemoveBooking(bookings: seq<Booking>, id: string): (rest: seq<Booking>)
    ensures forall b :: b in rest <==> b in bookings && b.id != id
    ensures |rest| <= |bookings|
    decreases |bookings|
  {
    if bookings == [] then []
    else (if bookings[0].id == id then [] else [bookings[0]]) + RemoveBooking(bookings[1..], id)
  }

  predicate UniqueIds(bookings: seq<Booking>)
  {
    forall i, j :: 0 <= i < j < |bookings| ==> bookings[i].id != bookings[j].id
  }

  // -----------------------------------------------------------------------
  // GET /booked-seats

  /** The bookings `Booking.find({ movie, city, showtime })` returns, in
      collection order. */
  function ShowBookings(bookings: seq<Booking>, movie: string, city: string, showtime: string): (r: seq<Booking>)
    ensures forall b :: b in r <==> b in bookings && b.movie == movie && b.city == city && b.showtime == showtime
    decreases |bookings|
  {
    if bookings == [] then []
    else
      var b := bookings[0];
      (if b.movie == movie && b.city == city && b.showtime == showtime then [b] else [])
        + ShowBookings(bookings[1..], movie, city, showtime)
  }

  /** `bookings.flatMap(b => b.seatsBooked)`. */
  function AllSeats(bookings: seq<Booking>): (seats: seq<int>)
    ensures forall s :: s in seats <==> exists b :: b in bookings && s in b.seatsBooked
    decreases |bookings|
  {
    if bookings == [] then [] else bookings[0].seatsBooked + AllSeats(bookings[1..])
  }

  /** `GET /booked-seats`: each seat booked for the show, once, first
      occurrence first. */
  function BookedSeatsReply(bookings: seq<Booking>, movie: string, city: string, showtime: string)
    : (r: Reply<seq<int>>)
    ensures (movie == "" || city == "" || showtime == "") <==> r == BadRequest("Missing parameters")
    ensures r.Ok? ==> NoDuplicates(r.value)
    ensures r.Ok? ==> forall s :: s in r.value <==>
              exists b :: b in bookings && b.movie == movie && b.city == city && b.showtime == showtime &&
                          s in b.seatsBooked
  {
    if movie == "" || city == "" || showtime == "" then BadRequest("Missing parameters")
    else
      var seats := AllSeats(ShowBookings(bookings, movie, city, showtime));
      DistinctMembers(seats);
      Ok(Distinct(seats))
  }

  // -----------------------------------------------------------------------
  // The routes' state

  class BookingService {
    /** The `ShowSeat` collection. */
    const ledger: Ledger
    /** The `Booking` collection, in insertion order. */
    var bookings: seq<Booking>
    /** `seatLocks`. */
    var seatLocks: LockTable
    /** Show keys of the `cancelBooking` broadcasts, in order. */
    ghost var emits: seq<string>

    ghost predicate Valid()
      reads this, ledger
    {
      ledger.Valid() && UniqueIds(bookings)
    }

    constructor (ledger: Ledger)
      requires ledger.Valid()
      ensures Valid() && this.ledger == ledger
      ensures bookings == [] && seatLocks == map[] && emits == []
    {
      this.ledger := ledger;
      bookings := [];
      seatLocks := map[];
      emits := [];
    }

    /** `lockSeats`: lock every listed seat of the show at `now`. */
    method LockSeats(key: string, seats: seq<int>, now: int)
      modifies this
      ensures seatLocks == WithLocks(old(seatLocks), key, seats, now)
      ensures bookings == old(bookings) && emits == old(emits)
    {
      var current := LocksOf(seatLocks, key);
      ghost var before := current;
      var i := 0;
      while i < |seats|
        invariant 0 <= i <= |seats|
        invariant current == map s | s in before.Keys + (set x | x in seats[..i]) ::
                               if s in seats[..i] then now else before[s]
        invariant seatLocks == old(seatLocks) && bookings == old(bookings) && emits == old(emits)
      {
        PrefixElements(seats, i);
        current := current[seats[i] := now];
        i := i + 1;
      }
      assert seats[..i] == seats;
      seatLocks := seatLocks[key := current];
    }

    /** `POST /`. `newId` is the fresh `_id` of the new document. */
    method Create(req: CreateRequest, day: ShowDay, now: int, newId: string, clock: RefClock)
      returns (reply: Reply<Booking>)
      requires Valid()
      requires forall i :: 0 <= i < |bookings| ==> bookings[i].id != newId
      modifies this
      ensures Valid()
      ensures reply == CreateReply(old(bookings), old(seatLocks), req, day, now, newId, clock)
      ensures seatLocks == if PassesLockCheck(old(seatLocks), req, now)
                           then WithLocks(old(seatLocks), CacheKey(req.movie, req.city, req.showtime, req.showDate),
                                          req.seatsBooked.value, now)
                           else old(seatLocks)
      ensures bookings == old(bookings) + if reply.Ok? then [reply.value] else []
      ensures emits == old(emits)
    {
      if MissingFields(req) {
        return BadRequest("Missing required booking fields");
      }
      var lockKey := CacheKey(req.movie, req.city, req.showtime, req.showDate);
      var requestedSeats := req.seatsBooked.value;
      if SeatsLocked(seatLocks, lockKey, requestedSeats, now) {
        return Conflict("Some selected seats are being booked by another user");
      }
      LockSeats(lockKey, requestedSeats, now);
      reply := Store(req, day, newId, clock);
    }

    /** The part of `POST /` after `lockSeats`: the conflict query and the
        save. */
    method Store(req: CreateRequest, day: ShowDay, newId: string, clock: RefClock)
      returns (reply: Reply<Booking>)
      requires Valid()
      requires req.seatsBooked.Some?
      requires forall i :: 0 <= i < |bookings| ==> bookings[i].id != newId
      modifies this
      ensures Valid()
      ensures reply == StoreReply(old(bookings), req, day, newId, clock)
      ensures bookings == old(bookings) + if reply.Ok? then [reply.value] else []
      ensures seatLocks == old(seatLocks) && emits == old(emits)
    {
      var conflictingSeats := Conflicting(req.seatsBooked.value, SeatsOfShow(bookings, req, day));
      if |conflictingSeats| > 0 {
        return Conflict("Some selected seats are already booked: " + SeatList(conflictingSeats));
      }
      var booking := NewBooking(req, day, newId, clock);
      var saved := SaveBooking(booking);
      if !saved {
        return ServerError("Database error while creating booking");
      }
      reply := Ok(booking);
    }

    /** `newBooking.save()`: the schema validators and the unique index on
        `bookingReference`; only a valid document with a free reference is
        stored. */
    method SaveBooking(booking: Booking) returns (saved: bool)
      requires Valid()
      requires forall i :: 0 <= i < |bookings| ==> bookings[i].id != booking.id
      modifies this
      ensures Valid()
      ensures saved <==> Bookings.SchemaValid(booking) && !ReferenceTaken(old(bookings), booking.bookingReference)
      ensures bookings == old(bookings) + if saved then [booking] else []
      ensures seatLocks == old(seatLocks) && emits == old(emits)
    {
      if !Bookings.SchemaValid(booking) || ReferenceTaken(bookings, booking.bookingReference) {
        return false;
      }
      AppendKeepsUnique(bookings, booking);
      bookings := bookings + [booking];
      saved := true;
    }

    /** The loop over the rows `findByBookingId` still finds:
        `findByIdAndDelete` each. */
    method DeleteRemaining(remaining: set<ShowSeat>)
      requires Valid()
      modifies ledger
      ensures Valid()
      ensures ledger.rows == old(ledger.rows) - IdsOf(remaining)
    {
      var todo := remaining;
      while todo != {}
        invariant Valid()
        invariant todo <= remaining
        invariant ledger.rows == old(ledger.rows) - IdsOf(remaining - todo)
        decreases todo
      {
        var seat :| seat in todo;
        ledger.FindByIdAndDelete(seat.Id());
        todo := todo - {seat};
      }
    }

    /** The three deletion stages of `DELETE /:bookingId`, in source order:
        by `bookingId`, and when that deletes nothing, by `bookingId` again,
        by the booking's seats and by its user. */
    method DeleteStages(bookingId: string, booking: Booking)
      requires Valid()
      modifies ledger
      ensures Valid()
      ensures ledger.rows == CancelRows(old(ledger.rows), bookingId, booking)
    {
      var showKey := CancelKey(booking);
      var seatNumbers := booking.seatsBooked;
      var deleted := ledger.DeleteByBookingId(bookingId);
      if deleted == 0 {
        var again := ledger.DeleteMany(ByBookingId(bookingId));
        ghost var afterAgain := ledger.rows;
        if |seatNumbers| > 0 {
          var bySeats := ledger.DeleteMany(ByShowKeySeats(showKey, seatNumbers));
        }
        assert ledger.rows == if |seatNumbers| > 0 then RemoveMatching(afterAgain, ByShowKeySeats(showKey, seatNumbers))
                              else afterAgain;
        if booking.user != "" {
          var byUser := ledger.DeleteMany(ByShowKeyUser(showKey, booking.user));
        }
      }
    }

    /** The ledger cleanup of `DELETE /:bookingId`: the deletion stages,
        then deleting one by one whatever rows still carry the booking id
        (none are left by then). */
    method CleanUpSeats(bookingId: string, booking: Booking)
      requires Valid()
      modifies ledger
      ensures Valid()
      ensures ledger.rows == CancelRows(old(ledger.rows), bookingId, booking)
      ensures ledger.FindByBookingId(bookingId) == {}
    {
      ghost var rows0 := ledger.rows;
      DeleteStages(bookingId, booking);
      CancelLeavesNoRow(rows0, bookingId, booking);
      var remaining := ledger.FindByBookingId(bookingId);
      DeleteRemaining(remaining);
      assert IdsOf(remaining) == {};
    }

    /** `DELETE /:bookingId`. */
    method Cancel(bookingId: string) returns (reply: Reply<string>)
      requires Valid()
      modifies this, ledger
      ensures Valid()
      ensures seatLocks == old(seatLocks)
      ensures FindBooking(old(bookings), bookingId).None? ==>
                && reply == NotFound("Booking not found")
                && bookings == old(bookings) && ledger.rows == old(ledger.rows) && emits == old(emits)
      ensures FindBooking(old(bookings), bookingId).Some? ==>
                var b := FindBooking(old(bookings), bookingId).value;
                && reply == Ok("Booking cancelled successfully")
                && ledger.rows == CancelRows(old(ledger.rows), bookingId, b)
                && ledger.FindByBookingId(bookingId) == {}
                && bookings == RemoveBooking(old(bookings), bookingId)
                && emits == old(emits) + [CancelKey(b)]
    {
      var found := FindBooking(bookings, bookingId);
      if found.None? {
        return NotFound("Booking not found");
      }
      var booking := found.value;
      CleanUpSeats(bookingId, booking);
      RemoveBookingKeepsUnique(bookings, bookingId);
      bookings := RemoveBooking(bookings, bookingId);
      reply := Ok("Booking cancelled successfully");
      emits := emits + [CancelKey(booking)];
    }
  }

  /** The index keys of a set of documents. */
  function IdsOf(seats: set<ShowSeat>): (ids: set<SeatId>)
    ensures forall id :: id in ids <==> exists r :: r in seats && r.Id() == id
  {
    set r | r in seats :: r.Id()
  }

  lemma PrefixElements<T>(s: seq<T>, i: nat)
    requires i < |s|
    ensures forall x :: x in s[..i + 1] <==> x in s[..i] || x == s[i]
  {
    assert s[..i + 1] == s[..i] + [s[i]];
  }

  /** Saving a booking with a fresh id keeps the booking ids unique. */
  lemma AppendKeepsUnique(bookings: seq<Booking>, b: Booking)
    requires UniqueIds(bookings)
    requires forall i :: 0 <= i < |bookings| ==> bookings[i].id != b.id
    ensures UniqueIds(bookings + [b])
  {
  }

  lemma RemoveBookingKeepsUnique(bookings: seq<Booking>, id: string)
    requires UniqueIds(bookings)
    ensures UniqueIds(RemoveBooking(bookings, id))
    decreases |bookings|
  {
    if bookings != [] {
      RemoveBookingKeepsUnique(bookings[1..], id);
      var rest := RemoveBooking(bookings[1..], id);
      forall b | b in rest ensures b.id != bookings[0].id {
        var j :| 0 <= j < |bookings[1..]| && bookings[1..][j] == b;
        assert bookings[j + 1] == b;
      }
    }
  }

  // -----------------------------------------------------------------------
  // Properties

  /** After cancel no ledger document with the bookingId remains,
      whichever stages ran. */
  lemma CancelLeavesNoRow(rows: Rows, bookingId: string, b: Booking)
    ensures Find(CancelRows(rows, bookingId, b), ByBookingId(bookingId)) == {}
  {
    var rest := CancelRows(rows, bookingId, b);
    forall id | id in rest ensures rest[id].bookingId != bookingId {
    }
  }

  /** When `deleteByBookingId` removes something, the fallbacks do not run:
      exactly the booking's own documents go. */
  lemma CancelWithOwnRows(rows: Rows, bookingId: string, b: Booking)
    requires exists id :: id in rows && rows[id].bookingId == bookingId
    ensures CancelRows(rows, bookingId, b) == RemoveMatching(rows, ByBookingId(bookingId))
  {
    var id :| id in rows && rows[id].bookingId == bookingId;
    assert id in MatchingIds(rows, ByBookingId(bookingId));
  }

  /** The fallback by (showKey, bookedBy) reaches beyond the booking: a
      document of another booking by the same user on the same show is
      deleted when the cancelled booking has no documents of its own. */
  lemma FallbackRemovesOtherBooking()
    ensures var b := Booking("B1", "u", "m", "T", "Delhi", "10:00", DateValue(0, "2024-05-01"), [7], 1,
                             "Confirmed", "confirmed", None, "BMS2405010001");
            var key := CancelKey(b);
            var other := ShowSeat(key, 5, "u", "B2", "booked", 0, 0);
            var rows := map[SeatId(key, 5) := other];
            SeatId(key, 5) !in CancelRows(rows, "B1", b)
  {
    var b := Booking("B1", "u", "m", "T", "Delhi", "10:00", DateValue(0, "2024-05-01"), [7], 1,
                     "Confirmed", "confirmed", None, "BMS2405010001");
    var key := CancelKey(b);
    var rows := map[SeatId(key, 5) := ShowSeat(key, 5, "u", "B2", "booked", 0, 0)];
    assert MatchingIds(rows, ByBookingId("B1")) == {};
  }

  /** The seat rows are keyed by the movie id while a booking's `movie`
      holds the title: when the two differ (and no part holds '_'), the
      showKey cancel builds matches none of those rows, so the fallback by
      seats cannot find them. */
  lemma TitleKeyMissesSeatRows(b: Booking, movieId: string, r: ShowSeat)
    requires b.movie != movieId
    requires NoSep(b.movie, '_') && NoSep(movieId, '_') && NoSep(b.city, '_')
    requires NoSep(b.showtime, '_') && NoSep(b.showDate.isoDay, '_')
    requires r.showKey == CacheKey(movieId, b.city, b.showtime, b.showDate.isoDay)
    ensures !Matches(ByShowKeySeats(CancelKey(b), b.seatsBooked), r)
    ensures !Matches(ByShowKeyUser(CancelKey(b), b.user), r)
  {
    if CancelKey(b) == r.showKey {
      var a := [b.movie, b.city, b.showtime, b.showDate.isoDay];
      var c := [movieId, b.city, b.showtime, b.showDate.isoDay];
      JoinInjective(a, c, '_');
    }
  }

  /** A create that passed the lock check blocks every overlapping create
      for the same show within `LOCK_TIMEOUT`, whatever became of the
      first one, even from the same user. */
  lemma OverlappingCreateRefused(bookings: seq<Booking>, bookings2: seq<Booking>, locks: LockTable,
                                 req: CreateRequest, req2: CreateRequest, day: ShowDay, now: int,
                                 later: int, newId: string, clock: RefClock, i: nat)
    requires PassesLockCheck(locks, req, now) && now != 0
    requires !MissingFields(req2)
    requires req2.movie == req.movie && req2.city == req.city && req2.showtime == req.showtime
    requires req2.showDate == req.showDate
    requires i < |req2.seatsBooked.value| && req2.seatsBooked.value[i] in req.seatsBooked.value
    requires later < now + LOCK_TIMEOUT
    ensures var locks' := WithLocks(locks, CacheKey(req.movie, req.city, req.showtime, req.showDate),
                                    req.seatsBooked.value, now);
            CreateReply(bookings2, locks', req2, day, later, newId, clock) ==
              Conflict("Some selected seats are being booked by another user")
  {
    LockedSeatBlocks(locks, CacheKey(req.movie, req.city, req.showtime, req.showDate),
                     req.seatsBooked.value, now, req2.seatsBooked.value, i, later);
  }

  /** A later lock step: a create at `at` that passed its lock check. */
  datatype LockStep = LockStep(key: string, seats: seq<int>, at: int)

  /** The lock table after later creates; a cancel leaves it unchanged. */
  function ApplyLocks(locks: LockTable, steps: seq<LockStep>): LockTable
    decreases |steps|
  {
    if steps == [] then locks
    else ApplyLocks(WithLocks(locks, steps[0].key, steps[0].seats, steps[0].at), steps[1..])
  }

  /** A lock taken no earlier than `now` stays, at a time no earlier than
      `now`, through later lock steps of a clock that does not go back. */
  lemma {:induction false} LockSurvives(locks: LockTable, steps: seq<LockStep>, key: string, x: int, now: int)
    requires x in LocksOf(locks, key) && LocksOf(locks, key)[x] >= now
    requires forall j :: 0 <= j < |steps| ==> steps[j].at >= now
    ensures x in LocksOf(ApplyLocks(locks, steps), key) && LocksOf(ApplyLocks(locks, steps), key)[x] >= now
    decreases |steps|
  {
    if steps != [] {
      var next := WithLocks(locks, steps[0].key, steps[0].seats, steps[0].at);
      assert x in LocksOf(next, key) && LocksOf(next, key)[x] >= now;
      assert forall j :: 0 <= j < |steps[1..]| ==> steps[1..][j] == steps[j + 1];
      LockSurvives(next, steps[1..], key, x, now);
    }
  }

  /** The refusal of an overlapping create lasts through any later creates
      and cancels, for `LOCK_TIMEOUT` after the first create. */
  lemma OverlappingCreateRefusedLater(bookings2: seq<Booking>, locks: LockTable, req: CreateRequest,
                                      req2: CreateRequest, day: ShowDay, now: int, steps: seq<LockStep>,
                                      later: int, newId: string, clock: RefClock, i: nat)
    requires PassesLockCheck(locks, req, now) && now > 0
    requires !MissingFields(req2)
    requires req2.movie == req.movie && req2.city == req.city && req2.showtime == req.showtime
    requires req2.showDate == req.showDate
    requires i < |req2.seatsBooked.value| && req2.seatsBooked.value[i] in req.seatsBooked.value
    requires forall j :: 0 <= j < |steps| ==> steps[j].at >= now
    requires later < now + LOCK_TIMEOUT
    ensures var key := CacheKey(req.movie, req.city, req.showtime, req.showDate);
            CreateReply(bookings2, ApplyLocks(WithLocks(locks, key, req.seatsBooked.value, now), steps),
                        req2, day, later, newId, clock) ==
              Conflict("Some selected seats are being booked by another user")
  {
    var key := CacheKey(req.movie, req.city, req.showtime, req.showDate);
    var x := req2.seatsBooked.value[i];
    var first := WithLocks(locks, key, req.seatsBooked.value, now);
    LockSurvives(first, steps, key, x, now);
    var final := ApplyLocks(first, steps);
    assert LockLive(final[key], x, later);
    assert SeatsLocked(final, key, req2.seatsBooked.value, later);
  }

  /** The 400 guard comes before the locks: a rejected request leaves the
      lock table alone, and a conflict found after locking saves nothing. */
  lemma CreateOrder(bookings: seq<Booking>, locks: LockTable, req: CreateRequest, day: ShowDay,
                    now: int, newId: string, clock: RefClock)
    ensures MissingFields(req) ==>
              CreateReply(bookings, locks, req, day, now, newId, clock) == BadRequest("Missing required booking fields")
              && !PassesLockCheck(locks, req, now)
    ensures PassesLockCheck(locks, req, now) &&
            |Conflicting(req.seatsBooked.value, SeatsOfShow(bookings, req, day))| > 0 ==>
              CreateReply(bookings, locks, req, day, now, newId, clock).Conflict?
  {
  }

  /** A saved booking is confirmed, holds the requested seats and none of
      them is in a confirmed or completed booking of the same show day. */
  lemma CreateSavesConfirmed(bookings: seq<Booking>, locks: LockTable, req: CreateRequest, day: ShowDay,
                             now: int, newId: string, clock: RefClock)
    requires CreateReply(bookings, locks, req, day, now, newId, clock).Ok?
    ensures var b := CreateReply(bookings, locks, req, day, now, newId, clock).value;
            && b.status == "confirmed" && b.seatsBooked == req.seatsBooked.value && |b.seatsBooked| > 0
            && Bookings.SchemaValid(b)
            && forall s, j :: s in b.seatsBooked && 0 <= j < |bookings| && SameShow(bookings[j], req, day) ==>
                 s !in bookings[j].seatsBooked
  {
    var seats := req.seatsBooked.value;
    var booked := SeatsOfShow(bookings, req, day);
    assert Conflicting(seats, booked) == [];
  }

  /** Without `paymentDetails` the route's fallback method 'default' is not
      in the schema's enum, so such a create always ends in a 500. */
  lemma CreateWithoutPaymentFails(bookings: seq<Booking>, locks: LockTable, req: CreateRequest,
                                  day: ShowDay, now: int, newId: string, clock: RefClock)
    requires PassesLockCheck(locks, req, now)
    requires Conflicting(req.seatsBooked.value, SeatsOfShow(bookings, req, day)) == []
    requires req.paymentDetails.None?
    ensures CreateReply(bookings, locks, req, day, now, newId, clock) ==
            ServerError("Database error while creating booking")
  {
    assert "default" !in PAYMENT_METHODS;
  }
}
