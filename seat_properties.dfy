/** What the seat routes guarantee across calls: a seat is sold at most
    once, an unexpired hold excludes other users, the expiry boundary, and
    the effects of release. All stated over the reply functions the
    `SeatEngine` methods are proved to follow. */
module SeatProperties {
  import opened Wrappers
  import opened ShowSeats
  import opened HoldTables
  import opened SeatRoutes

  /** The state `/book` leaves behind when it succeeds. */
  function RowsAfterBook(rows: Rows, t: HoldTable, req: BookRequest, now: int): Rows
    requires BookReply(rows, t, req, now).Ok?
  {
    rows[SeatId(req.Key(), req.seatNumber) := BookReply(rows, t, req, now).value]
  }

  /** `/hold` rejects before touching anything: a missing user, a falsy
      seat number (so seat 0), and a seat already in the ledger. */
  lemma HoldRejections(rows: Rows, t: HoldTable, req: SeatRequest, now: int)
    ensures req.user == "" ==> HoldReply(rows, t, req, now) == BadRequest("User is required")
    ensures req.user != "" && req.seatNumber == 0 ==>
              HoldReply(rows, t, req, now) == BadRequest("Seat number is required")
    ensures req.user != "" && req.seatNumber != 0 && SeatId(req.Key(), req.seatNumber) in rows ==>
              HoldReply(rows, t, req, now) == Conflict("Seat already booked")
  {
  }

  /** `/hold` succeeds exactly when the request is complete, the seat is not
      booked and no other user holds it unexpired; it then holds the seat
      for `HOLD_TIMEOUT`. */
  lemma HoldSucceedsIff(rows: Rows, t: HoldTable, req: SeatRequest, now: int)
    ensures HoldReply(rows, t, req, now).Ok? <==>
              && req.user != "" && req.seatNumber != 0
              && SeatId(req.Key(), req.seatNumber) !in rows
              && !(GetHold(t, req.Key(), req.seatNumber).Some? &&
                   HeldByOther(GetHold(t, req.Key(), req.seatNumber).value, req.user, now))
    ensures HoldReply(rows, t, req, now).Ok? ==>
              HoldReply(rows, t, req, now).value ==
              HeldSeat(req.Key(), req.seatNumber, req.user, now + HOLD_TIMEOUT)
  {
  }

  /** An unexpired hold excludes every other user: after `a` holds a seat,
      a hold by a different user before the expiry is refused. */
  lemma HoldExcludesOthers(rows: Rows, t: HoldTable, a: SeatRequest, now: int,
                           b: SeatRequest, later: int)
    requires HoldReply(rows, t, a, now).Ok?
    requires b.Key() == a.Key() && b.seatNumber == a.seatNumber
    requires b.user != "" && b.user != a.user
    requires later < now + HOLD_TIMEOUT
    ensures HoldReply(rows, PutHold(t, a.Key(), a.seatNumber, HoldTables.Hold(a.user, now + HOLD_TIMEOUT)),
                      b, later) == Conflict("Seat held by another user")
  {
  }

  /** A hold again by the same user refreshes its expiry. */
  lemma ReHoldRefreshes(rows: Rows, t: HoldTable, req: SeatRequest, now: int, later: int)
    requires HoldReply(rows, t, req, now).Ok?
    ensures var t1 := PutHold(t, req.Key(), req.seatNumber, HoldTables.Hold(req.user, now + HOLD_TIMEOUT));
            HoldReply(rows, t1, req, later) == Ok(HeldSeat(req.Key(), req.seatNumber, req.user, later + HOLD_TIMEOUT))
  {
  }

  /** The expiry boundary: at `now == expiresAt` the hold no longer
      excludes other users and the snapshot omits it, yet the sweep keeps
      it and its owner may still book. */
  lemma ExpiryBoundary(rows: Rows, t: HoldTable, req: SeatRequest, other: string, bookingId: string)
    requires GetHold(t, req.Key(), req.seatNumber).Some?
    requires GetHold(t, req.Key(), req.seatNumber).value.heldBy == req.user
    requires req.user != "" && req.seatNumber != 0 && other != "" && bookingId != ""
    requires SeatId(req.Key(), req.seatNumber) !in rows
    ensures var h := GetHold(t, req.Key(), req.seatNumber).value;
            && HoldReply(rows, t, req.(user := other), h.expiresAt).Ok?
            && !Live(h, h.expiresAt)
            && GetHold(Swept(t, h.expiresAt), req.Key(), req.seatNumber) == Some(h)
            && BookReply(rows, t, BookRequest(req.movie, req.city, req.showtime, req.date,
                                              req.seatNumber, req.user, bookingId), h.expiresAt).Ok?
  {
    var h := GetHold(t, req.Key(), req.seatNumber).value;
    SweptExact(t, h.expiresAt);
  }

  /** Ownership is checked before expiry: another user's hold blocks
      `/book` even once it has expired, while `/hold` by the same caller
      then succeeds and takes the seat over. */
  lemma ExpiredForeignHold(rows: Rows, t: HoldTable, req: BookRequest, now: int)
    requires req.bookingId != "" && req.user != "" && req.seatNumber != 0
    requires SeatId(req.Key(), req.seatNumber) !in rows
    requires GetHold(t, req.Key(), req.seatNumber).Some?
    requires GetHold(t, req.Key(), req.seatNumber).value.heldBy != req.user
    requires GetHold(t, req.Key(), req.seatNumber).value.expiresAt <= now
    ensures BookReply(rows, t, req, now) == Conflict("Seat not held by you")
    ensures HoldReply(rows, t, SeatRequest(req.movie, req.city, req.showtime, req.date,
                                           req.seatNumber, req.user), now).Ok?
  {
  }

  /** `/book` checks the hold in source order: another user's hold, live or
      expired, refuses; the caller's expired hold refuses; and a seat with
      no hold at all is booked. */
  lemma BookCases(rows: Rows, t: HoldTable, req: BookRequest, now: int)
    ensures req.bookingId == "" ==> BookReply(rows, t, req, now) == BadRequest("Booking ID is required")
    ensures req.bookingId != "" && SeatId(req.Key(), req.seatNumber) in rows ==>
              BookReply(rows, t, req, now) == Conflict("Seat already booked")
    ensures req.bookingId != "" && SeatId(req.Key(), req.seatNumber) !in rows ==>
              var h := GetHold(t, req.Key(), req.seatNumber);
              && (h.Some? && h.value.heldBy != req.user ==>
                    BookReply(rows, t, req, now) == Conflict("Seat not held by you"))
              && (h.Some? && h.value.heldBy == req.user && h.value.expiresAt < now ==>
                    BookReply(rows, t, req, now) == Conflict("Hold has expired"))
              && (h.None? && req.user != "" ==>
                    BookReply(rows, t, req, now) == Ok(BookedDoc(req, now)))
  {
  }

  /** `/book` succeeds exactly when it has a booking id and a user, the
      seat is not booked, and the seat is either not held or held by the
      caller unexpired (`expiresAt >= now`); it then saves the booked
      document for the caller. */
  lemma BookSucceedsIff(rows: Rows, t: HoldTable, req: BookRequest, now: int)
    ensures var h := GetHold(t, req.Key(), req.seatNumber);
            BookReply(rows, t, req, now).Ok? <==>
              && req.bookingId != "" && req.user != ""
              && SeatId(req.Key(), req.seatNumber) !in rows
              && (h.None? || (h.value.heldBy == req.user && h.value.expiresAt >= now))
    ensures BookReply(rows, t, req, now).Ok? ==> BookReply(rows, t, req, now).value == BookedDoc(req, now)
  {
  }

  /** A successful `/book` adds exactly the one ledger document for
      (showKey, seatNumber) with the caller as `bookedBy` and the request's
      `bookingId`, status `booked`. */
  lemma BookAddsOneRow(rows: Rows, t: HoldTable, req: BookRequest, now: int)
    requires WellKeyed(rows)
    requires BookReply(rows, t, req, now).Ok?
    ensures var doc := BookReply(rows, t, req, now).value;
            && doc.showKey == req.Key() && doc.seatNumber == req.seatNumber
            && doc.bookedBy == req.user && doc.bookingId == req.bookingId && doc.status == "booked"
    ensures SeatId(req.Key(), req.seatNumber) !in rows
    ensures WellKeyed(RowsAfterBook(rows, t, req, now))
    ensures |RowsAfterBook(rows, t, req, now)| == |rows| + 1
  {
  }

  /** No double sale: once a seat is booked, every later `/book` of it
      with a booking id, and every later `/hold` of it, is refused. */
  lemma NoDoubleSale(rows: Rows, t: HoldTable, req: BookRequest, now: int,
                     t2: HoldTable, req2: BookRequest, hold2: SeatRequest, now2: int)
    requires BookReply(rows, t, req, now).Ok?
    requires req2.Key() == req.Key() && req2.seatNumber == req.seatNumber && req2.bookingId != ""
    requires hold2.Key() == req.Key() && hold2.seatNumber == req.seatNumber
    requires hold2.user != "" && hold2.seatNumber != 0
    ensures BookReply(RowsAfterBook(rows, t, req, now), t2, req2, now2) == Conflict("Seat already booked")
    ensures HoldReply(RowsAfterBook(rows, t, req, now), t2, hold2, now2) == Conflict("Seat already booked")
  {
  }

  /** `/release` deletes the hold only when the caller owns it, and is
      idempotent. */
  lemma ReleaseOnlyOwner(t: HoldTable, req: SeatRequest)
    ensures var h := GetHold(t, req.Key(), req.seatNumber);
            ReleaseEffect(t, req) == if h.Some? && h.value.heldBy == req.user
                                     then DeleteHold(t, req.Key(), req.seatNumber) else t
    ensures forall k, s :: (k != req.Key() || s != req.seatNumber) ==>
              GetHold(ReleaseEffect(t, req), k, s) == GetHold(t, k, s)
    ensures GetHold(ReleaseEffect(t, req), req.Key(), req.seatNumber).Some? ==>
              GetHold(ReleaseEffect(t, req), req.Key(), req.seatNumber).value.heldBy != req.user
    ensures ReleaseEffect(ReleaseEffect(t, req), req) == ReleaseEffect(t, req)
  {
  }

  /** The batch reports the number of items it was sent, whatever it
      actually released: releasing seats nobody holds still says
      "Released 1 seats". */
  lemma BatchCountsItemsNotReleases(req: SeatRequest)
    ensures ReleaseAll(map[], [req]) == map[]
    ensures ReleasedMessage(1) == "Released 1 seats"
  {
    assert [req][..0] == [];
  }

  /** The two-user flow: alice holds seat 12, bob is refused, alice books
      it, the show's snapshot reports it `booked` by alice and not `held`;
      once the booking's ledger rows are deleted the seat is reported
      neither way, that is, available. */
  lemma TwoUserScenario()
    ensures var key := ShowKey("m", "Delhi", "10:00", "2024-05-01");
            var aliceHold := SeatRequest("m", "Delhi", "10:00", "2024-05-01", 12, "alice");
            var bobHold := aliceHold.(user := "bob");
            var aliceBook := BookRequest("m", "Delhi", "10:00", "2024-05-01", 12, "alice", "BK1");
            var t1 := PutHold(map[], key, 12, HoldTables.Hold("alice", 0 + HOLD_TIMEOUT));
            && HoldReply(map[], map[], aliceHold, 0).Ok?
            && HoldReply(map[], t1, bobHold, 1000) == Conflict("Seat held by another user")
            && BookReply(map[], t1, aliceBook, 2000).Ok?
            && var rows2 := RowsAfterBook(map[], t1, aliceBook, 2000);
               var t2 := DeleteHold(t1, key, 12);
               && BookedSeat(key, 12, "alice") in BookedViews(rows2, key)
               && (forall v :: v in LiveViews(HoldsOf(t2, key), key, 3000) ==> v.seatNumber != 12)
               && var rows3 := RemoveMatching(rows2, ByBookingId("BK1"));
                  forall v :: v in BookedViews(rows3, key) ==> v.seatNumber != 12
  {
    var key := ShowKey("m", "Delhi", "10:00", "2024-05-01");
    var aliceBook := BookRequest("m", "Delhi", "10:00", "2024-05-01", 12, "alice", "BK1");
    var t1 := PutHold(map[], key, 12, HoldTables.Hold("alice", 0 + HOLD_TIMEOUT));
    assert BookReply(map[], t1, aliceBook, 2000) == Ok(BookedDoc(aliceBook, 2000));
    var rows2 := RowsAfterBook(map[], t1, aliceBook, 2000);
    assert rows2[SeatId(key, 12)].bookedBy == "alice";
    var t2 := DeleteHold(t1, key, 12);
    assert HoldsOf(t2, key) == map[];
  }
}
