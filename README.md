# Book My Show seat reservation core, in Dafny

This project models the seat reservation core of a movie-ticket booking
service. The backend keeps two stores:

- an in-memory **hold table** `heldSeats`, from a show key to a map from a
  seat number to its hold `{heldBy, expiresAt}`;
- the **seat ledger**, a `ShowSeat` collection with one document per booked
  seat, unique on `(showKey, seatNumber)`.

The routes `/hold`, `/book`, `/release`, `/release-batch` and `/status`
change and read these two stores. A periodic sweep evicts expired holds, and
`emitSeatStatus` broadcasts a snapshot of a show.

The booking routes keep a second, per-show table of seat locks. `POST /`
locks seats and creates a `Booking` after a conflict check. `DELETE
/:bookingId` removes the booking's ledger documents in several stages.

Around this core, the project also models:

- the server's `seatCache`: key building, entries, a lock set, and removal
  by show prefix;
- the client's TTL request cache and the cache patterns that the seat API
  calls remove;
- the `Theater` page's seat-list logic: its show key, the merge of server
  and local updates, the `seatUpdated` upsert, selection on click, grid
  status and the payment guards;
- the `Booking` schema constraints and its pre-save `bookingReference`
  generation.

Each request is one atomic step at an explicit time `now`. A route's answer
is a `Reply`: `Ok`, `BadRequest` (400), `NotFound` (404), `Conflict` (409) or
`ServerError` (500). Socket emits are recorded as a ghost log of show keys.
The modules follow the source files:

| module | file | source |
|---|---|---|
| `ShowSeats` | show_seat.dfy | backend/models/ShowSeat.js |
| `HoldTables`, `SeatRoutes` | hold_table.dfy, seat_routes.dfy | backend/routes/seat.js |
| `SeatProperties` | seat_properties.dfy | cross-call properties of backend/routes/seat.js |
| `Bookings` | booking_model.dfy | backend/models/Booking.js |
| `BookingRoutes` | booking_routes.dfy | backend/routes/booking.js |
| `ServerSeatCache` | seat_cache.dfy | backend/server.js |
| `RequestCache` | request_cache.dfy | src/services/api.js |
| `Theater` | theater.dfy | src/components/Theater.jsx |
| `Strings`, `Collections`, `Wrappers` | strings.dfy, collections.dfy, wrappers.dfy | template literals, `padStart`, `slice`, `includes`, `Set` de-duplication, result types |

Some of what the code does is weaker than a careful design would promise.
The model follows the code in each case:

- `/book` books one seat. A multi-seat order is one independent call per seat
  (src/components/Theater.jsx:398-410), so nothing is all-or-nothing.
- `/book` proceeds when the seat has no hold at all.
- Hold ownership is checked before expiry. Another user's expired hold
  therefore still blocks `/book`.
- At `expiresAt == now`, a hold no longer excludes other users and is no longer
  in the snapshot. The sweep still keeps it, and its owner may still book the
  seat.
- The sweep emits once per evicted seat, not once per show.
- `/release-batch` reports the number of items it was sent, not the number of
  holds it released.
- The cancel fallbacks build the show key from the booking's `movie` field,
  which holds the title. Ledger documents are keyed by the movie id, so the
  fallbacks miss them. The fallback by user also removes that user's seats
  from other bookings of the same show.
- Without `paymentDetails`, the route fills in the method 'default', which the
  schema's enum refuses, so such a create always answers 500.
- The page joins the room `city_movie_showtime_date`, while the server emits to
  `movie_city_showtime_date`.

## Model

| member | source | states |
|---|---|---|
| `ShowSeats.NewShowSeat` | backend/models/ShowSeat.js:3-17 | a new document has the given key, bookedBy and bookingId; its status is the given one or `booked` by default; createdAt and updatedAt are `now` |
| `ShowSeats.SchemaValid` | backend/models/ShowSeat.js:3-17 | the schema validator: showKey and bookedBy required, status in the enum; `ShowSeats.DefaultStatusIsValid` and `ShowSeats.SaveOutcome` state its use |
| `ShowSeats.DefaultStatusIsValid` | backend/models/ShowSeat.js:4-12 | with the required fields present, a document with the default status passes the schema, and that status is `booked` |
| `ShowSeats.PreSave` | backend/models/ShowSeat.js:24-27 | the pre-save hook sets updatedAt to `now` and changes no other field |
| `ShowSeats.MatchingIds` | backend/models/ShowSeat.js:40-45 | the index keys a filter selects are exactly the documents it matches |
| `ShowSeats.Find` | backend/models/ShowSeat.js:40-45 | `find(filter)` returns exactly the stored documents the filter matches |
| `ShowSeats.RemoveMatching` | backend/models/ShowSeat.js:59-64 | `deleteMany(filter)` removes exactly the matched keys; every remaining document is unchanged and unmatched |
| `ShowSeats.RemoveMatchingExact` | backend/models/ShowSeat.js:29-65 | after a delete, the same filter finds nothing; unmatched documents stay; deleted plus kept equals the old count, so deleteByBookingId removes exactly what findByBookingId returns |
| `ShowSeats.RemoveMatchingTwice` | backend/models/ShowSeat.js:59-64 | deleting by one filter and then another leaves the documents matched by neither |
| `ShowSeats.SaveOutcome` | backend/models/ShowSeat.js:19 | an insert succeeds iff the document passes the schema and its (showKey, seatNumber) is free; a taken pair gives a duplicate-key error; the saved document is the pre-saved one |
| `ShowSeats.SecondInsertRefused` | backend/models/ShowSeat.js:19 | after one insert for a pair, a second valid insert for the same pair is refused |
| `ShowSeats.Ledger.constructor` | backend/models/ShowSeat.js:67 | the collection starts empty and well keyed |
| `ShowSeats.Ledger.Save` | backend/models/ShowSeat.js:19-27 | save answers the insert outcome; only a successful save stores the document, under its own key |
| `ShowSeats.Ledger.FindByBookingId` | backend/models/ShowSeat.js:29-46 | returns exactly the stored documents whose bookingId equals the id |
| `ShowSeats.Ledger.DeleteMany` | backend/routes/booking.js:193-208 | removes exactly the matching documents and answers how many were removed |
| `ShowSeats.Ledger.DeleteByBookingId` | backend/models/ShowSeat.js:48-65 | removes exactly the documents findByBookingId returned; afterwards findByBookingId is empty; answers the count removed |
| `ShowSeats.Ledger.FindByIdAndDelete` | backend/routes/booking.js:217-219 | removes the document with that key and nothing else |
| `HoldTables.PutHold` | backend/routes/seat.js:102-114 | creates the show's map if missing and sets the hold; every other (show, seat) hold is unchanged |
| `HoldTables.DeleteHold` | backend/routes/seat.js:195-197 | deletes that seat's hold only; no show map is created or removed |
| `HoldTables.SweptShow` | backend/routes/seat.js:17-22 | the inner loop keeps exactly the holds with `expiresAt >= now`, unchanged |
| `HoldTables.Swept` | backend/routes/seat.js:14-27 | the table after the sweep; `HoldTables.SweptExact` states it and `HoldTables.SweptIdempotent` its idempotence |
| `HoldTables.SweptExact` | backend/routes/seat.js:14-27 | after a sweep, no hold with `expiresAt < now` remains; every other hold is unchanged; no show is left with an empty map |
| `HoldTables.SweptIdempotent` | backend/routes/seat.js:14-27 | a second sweep at the same time changes nothing |
| `SeatRoutes.ShowKey` | backend/routes/seat.js:10-12 | the key is `movie_city_showtime_date` |
| `SeatRoutes.ShowKeyInjective` | backend/routes/seat.js:10-12 | for parts without '_', equal show keys mean equal parts |
| `SeatRoutes.HoldReply` | backend/routes/seat.js:81-125 | the `/hold` reply; `SeatProperties.HoldRejections`, `HoldSucceedsIff`, `HoldExcludesOthers` and `ReHoldRefreshes` state its cases |
| `SeatRoutes.BookReply` | backend/routes/seat.js:142-197 | the `/book` reply; `SeatProperties.BookSucceedsIff` states when it succeeds and with what, `SeatProperties.BookCases` states each refusal, and `BookAddsOneRow` and `NoDoubleSale` state the saved row |
| `SeatRoutes.ReleaseEffect` | backend/routes/seat.js:229-246 | one release; `SeatProperties.ReleaseOnlyOwner` states it |
| `SeatRoutes.ReleaseAll` | backend/routes/seat.js:273-291 | the batch loop's effect on the table; `SeatRoutes.ReleaseAllEffect` states it in closed form |
| `SeatRoutes.ReleaseAllEffect` | backend/routes/seat.js:273-291 | per seat: a missing hold stays missing; a hold is deleted iff some handled item names its show, seat and holder, and is unchanged otherwise; the table keeps its shows |
| `SeatRoutes.PresentPrefix` | backend/routes/seat.js:273-274 | the batch loop handles the items before the first `null` one, whose destructuring throws; a number, string or boolean item is a request with every field absent |
| `SeatRoutes.SweepShow` | backend/routes/seat.js:17-22 | the inner sweep loop leaves the show's map swept and lists each evicted seat once: exactly the seats with `expiresAt < now` |
| `SeatRoutes.BookedPart` | backend/routes/seat.js:343-348 | lists every ledger document of the show as `booked`, each once |
| `SeatRoutes.HeldPart` | backend/routes/seat.js:323-339 | lists exactly the show's holds with `expiresAt > now` as `held`, each once |
| `SeatRoutes.Snapshot` | backend/routes/seat.js:342-350 | the snapshot has the booked entries first, then the live holds, each once, and nothing else |
| `SeatRoutes.SnapshotsAgree` | backend/routes/seat.js:30-61 | any two snapshots of the same state have the same entries with the same multiplicities, so the broadcast matches the reply |
| `SeatRoutes.SnapshotOmitsHoldAtExpiry` | backend/routes/seat.js:328-339 | a hold with `expiresAt <= now` is not in the snapshot |
| `SeatRoutes.SeatEngine.constructor` | backend/routes/seat.js:7-8 | the hold table and the emit log start empty, over the given ledger |
| `SeatRoutes.SeatEngine.Hold` | backend/routes/seat.js:77-136 | answers the hold reply; changes the table only on success, by setting (user, now + HOLD_TIMEOUT); emits the show key only on success |
| `SeatRoutes.SeatEngine.Book` | backend/routes/seat.js:138-220 | answers the book reply; on success adds exactly that seat's document and deletes only its hold; otherwise changes nothing; emits only on success |
| `SeatRoutes.SeatEngine.DropOwnHold` | backend/routes/seat.js:229-246 | deletes the hold only when the caller holds it |
| `SeatRoutes.SeatEngine.Release` | backend/routes/seat.js:222-260 | always succeeds; deletes the hold only when it is the caller's; emits only when it deleted one |
| `SeatRoutes.SeatEngine.ReleaseBatch` | backend/routes/seat.js:262-306 | 400 for a missing or empty list; otherwise the table becomes `ReleaseAll` of the handled items, so by `SeatRoutes.ReleaseAllEffect` exactly the holds a handled item names with their holder are deleted and every other hold stays; emits once per distinct show key; reports the item count; answers "Attempted to release seats" with no emit when a `null` item throws |
| `SeatRoutes.SeatEngine.ReleaseItems` | backend/routes/seat.js:273-291 | releases the items in order until a `null` one throws, and collects their distinct show keys in first-seen order |
| `SeatRoutes.SeatEngine.EmitAll` | backend/routes/seat.js:293-299 | the emit log grows by exactly the given show keys, and the table is unchanged |
| `SeatRoutes.SeatEngine.Sweep` | backend/routes/seat.js:14-27 | the table becomes the swept table; the evicted (show, seat) pairs are exactly the expired holds, each once; there is one emit per evicted seat |
| `SeatRoutes.SeatEngine.EmitSeatStatus` | backend/routes/seat.js:30-61 | broadcasts a snapshot of the show and logs one emit |
| `SeatRoutes.SeatEngine.Status` | backend/routes/seat.js:308-364 | 400 iff movie, city, showtime or date is missing; otherwise answers a snapshot and broadcasts the same entries |
| `SeatProperties.HoldRejections` | backend/routes/seat.js:81-100 | hold answers 400 without a user and for seat number 0, and 409 "Seat already booked" for a seat in the ledger |
| `SeatProperties.HoldSucceedsIff` | backend/routes/seat.js:81-125 | a hold succeeds iff the request is complete, the seat is not booked and no other user holds it unexpired; it then holds for HOLD_TIMEOUT |
| `SeatProperties.HoldExcludesOthers` | backend/routes/seat.js:108-112 | after a hold, another user's hold before the expiry gets 409 "Seat held by another user" |
| `SeatProperties.ReHoldRefreshes` | backend/routes/seat.js:108-114 | a re-hold by the same user succeeds and refreshes the expiry |
| `SeatProperties.ExpiryBoundary` | backend/routes/seat.js:108-181 | at `now == expiresAt` another user may hold the seat (line 109), the snapshot omits the hold (line 329), the sweep keeps it (line 18), and its owner may book (line 178) |
| `SeatProperties.ExpiredForeignHold` | backend/routes/seat.js:173-181 | another user's expired hold still answers 409 "Seat not held by you" to book, while hold by the caller succeeds |
| `SeatProperties.BookCases` | backend/routes/seat.js:142-181 | book answers 400 without a bookingId, 409 for a booked seat, 409 "Seat not held by you" for another user's hold whether live or expired, 409 for the caller's expired hold, and proceeds when no hold exists |
| `SeatProperties.BookSucceedsIff` | backend/routes/seat.js:142-197 | book succeeds iff it has a bookingId and a user, the seat is not booked, and the seat is unheld or held by the caller with expiresAt >= now; the reply is then the booked document for the caller |
| `SeatProperties.BookAddsOneRow` | backend/routes/seat.js:183-197 | a successful book adds exactly one well-keyed document (show key, seat, bookedBy = user, the bookingId, `booked`) |
| `SeatProperties.NoDoubleSale` | backend/routes/seat.js:164-168 | once booked, every later book with a bookingId and every later hold of the seat answers 409 "Seat already booked" |
| `SeatProperties.ReleaseOnlyOwner` | backend/routes/seat.js:229-249 | release deletes only the caller's own hold, touches no other hold, and is idempotent |
| `SeatProperties.BatchCountsItemsNotReleases` | backend/routes/seat.js:283-301 | a batch item nobody holds changes nothing, yet the reply says "Released 1 seats" |
| `SeatProperties.TwoUserScenario` | backend/routes/seat.js:77-220 | alice holds seat 12, bob is refused, alice books it, the snapshot shows it booked and not held; once its documents are deleted it is reported neither way |
| `Bookings.SchemaValid` | backend/models/Booking.js:32-70 | the schema validator: required fields, numberOfSeats at least 1 and the enums; `Bookings.DefaultsAreValid` states it |
| `Bookings.WithDefault` | backend/models/Booking.js:41-54 | an absent enum field takes its default, and a given one is kept |
| `Bookings.DefaultsAreValid` | backend/models/Booking.js:32-70 | the defaults Confirmed, pending and the payment status pass their enums; 'card' is a valid payment method; numberOfSeats below 1 fails the schema |
| `Bookings.Reference` | backend/models/Booking.js:92-97 | the generated reference; `Bookings.ReferenceFormat`, `ReferenceDeterminesParts` and `ShortYearReference` state it |
| `Bookings.ReferenceFormat` | backend/models/Booking.js:92-97 | for a year of at least two digits, the reference is 13 characters: "BMS" and ten digits that read back as year mod 100, month, day and the random number |
| `Bookings.ReferenceDeterminesParts` | backend/models/Booking.js:92-97 | equal references mean equal month, day, random number and year mod 100 |
| `Bookings.ShortYearReference` | backend/models/Booking.js:93 | a one-digit year gives a 12-character reference |
| `Bookings.PreSave` | backend/models/Booking.js:90-100 | an existing reference is kept; a missing one is generated; no other field changes |
| `Strings.PadNumber` | backend/models/Booking.js:94-96 | `padStart(w, '0')` of a number below 10^w has w digits that read back as the number |
| `Strings.LastTwoDigits` | backend/models/Booking.js:93 | `slice(-2)` of a number of at least two digits is two digits that read back as the number mod 100 |
| `BookingRoutes.CacheKey` | backend/routes/booking.js:13-14 | the lock key is `movie_city_showtime_date`, the same form as `SeatRoutes.ShowKey` |
| `BookingRoutes.WithLocks` | backend/routes/booking.js:16-25 | every listed seat of the show is locked at `now`; other seats and other shows keep their locks |
| `BookingRoutes.LocksOnlyGrow` | backend/routes/booking.js:16-25 | locking never removes a lock and never moves a lock time back |
| `BookingRoutes.SeatsLocked` | backend/routes/booking.js:27-38 | `areSeatsLocked`; `BookingRoutes.LockedSeatBlocks` states when a lock blocks |
| `BookingRoutes.LockedSeatBlocks` | backend/routes/booking.js:27-38 | after locking at a non-zero `now`, a request sharing a seat is reported locked until LOCK_TIMEOUT has passed |
| `BookingRoutes.SeatsOfShow` | backend/routes/booking.js:101-111 | the booked seats are exactly those of confirmed or completed bookings of the same movie, city, showtime and day |
| `BookingRoutes.Conflicting` | backend/routes/booking.js:112 | the conflicts are exactly the requested seats that are booked |
| `BookingRoutes.NewBooking` | backend/routes/booking.js:121-137 | the saved booking copies the request, with the theater name, seat count and payment defaults, status confirmed and a generated reference |
| `BookingRoutes.FindBooking` | backend/routes/booking.js:173 | finds a booking with that id, or reports that none has it |
| `BookingRoutes.RemoveBooking` | backend/routes/booking.js:225 | removes exactly the bookings with that id |
| `BookingRoutes.ShowBookings` | backend/routes/booking.js:248 | selects exactly the bookings of that movie, city and showtime |
| `BookingRoutes.AllSeats` | backend/routes/booking.js:249 | holds exactly the seats of the given bookings |
| `BookingRoutes.BookedSeatsReply` | backend/routes/booking.js:242-255 | 400 iff a parameter is missing; otherwise each booked seat of the show exactly once |
| `BookingRoutes.BookingService.constructor` | backend/routes/booking.js:10-11 | no bookings, no locks and no emits, over the given ledger |
| `BookingRoutes.BookingService.LockSeats` | backend/routes/booking.js:16-25 | the lock table becomes the locked table for the listed seats |
| `BookingRoutes.BookingService.Create` | backend/routes/booking.js:56-159 | answers the create reply; locks the seats exactly when the 400 guard and the lock check pass; stores the booking only on success |
| `BookingRoutes.BookingService.Store` | backend/routes/booking.js:101-151 | after the lock step: 409 with the seat list when a requested seat is already booked, otherwise the save's outcome; only a successful save adds the booking; locks unchanged |
| `BookingRoutes.BookingService.SaveBooking` | backend/routes/booking.js:138 | a booking is stored iff it passes the schema and its bookingReference is not taken; nothing else changes |
| `BookingRoutes.BookingService.DeleteRemaining` | backend/routes/booking.js:211-220 | deletes the remaining documents one by one, and nothing else |
| `BookingRoutes.BookingService.DeleteStages` | backend/routes/booking.js:183-209 | deletes by bookingId; only when that removed nothing, deletes by bookingId again, by (show key, booking seats) and by (show key, user) |
| `BookingRoutes.BookingService.CleanUpSeats` | backend/routes/booking.js:182-223 | the ledger becomes the cancel ledger, and no document with the bookingId remains |
| `BookingRoutes.BookingService.Cancel` | backend/routes/booking.js:170-240 | 404 "Booking not found" with nothing changed for an unknown id; otherwise cleans the ledger, deletes the booking, emits the cancel key and answers success |
| `BookingRoutes.AppendKeepsUnique` | backend/routes/booking.js:138 | saving a booking with a fresh id keeps the booking ids unique |
| `BookingRoutes.RemoveBookingKeepsUnique` | backend/routes/booking.js:225 | deleting a booking keeps the booking ids unique |
| `BookingRoutes.CancelLeavesNoRow` | backend/routes/booking.js:183-220 | after the cleanup, no ledger document carries the bookingId, so the remaining-seat loop has nothing to do |
| `BookingRoutes.CancelWithOwnRows` | backend/routes/booking.js:183-184 | when some document carries the bookingId, only the bookingId deletion runs |
| `BookingRoutes.FallbackRemovesOtherBooking` | backend/routes/booking.js:203-208 | the fallback by user also deletes the same user's seat from another booking of the show |
| `BookingRoutes.TitleKeyMissesSeatRows` | backend/routes/booking.js:180 | a show key built from the title matches no document keyed by a different movie id, so the fallbacks delete none of those rows |
| `BookingRoutes.MissingFields` | backend/routes/booking.js:75 | the 400 guard; `BookingRoutes.CreateOrder` states that it answers first, before any lock |
| `BookingRoutes.CreateReply` | backend/routes/booking.js:75-151 | the `POST /` reply; `BookingRoutes.CreateOrder`, `OverlappingCreateRefused`, `CreateSavesConfirmed` and `CreateWithoutPaymentFails` state it |
| `BookingRoutes.StoreReply` | backend/routes/booking.js:101-151 | the reply after the lock check; `BookingRoutes.BookingService.Store` answers it and `BookingRoutes.CreateSavesConfirmed` states its success case |
| `BookingRoutes.CancelRows` | backend/routes/booking.js:183-208 | the ledger after the cancel cleanup; `BookingRoutes.CancelLeavesNoRow`, `CancelWithOwnRows` and `FallbackRemovesOtherBooking` state it |
| `BookingRoutes.OverlappingCreateRefused` | backend/routes/booking.js:92-99 | within LOCK_TIMEOUT of a create that passed the lock check, an overlapping create is answered 409 "being booked by another user" |
| `BookingRoutes.LockSurvives` | backend/routes/booking.js:16-25 | a lock taken at or after `now` stays, at a time at or after `now`, through any later lock steps whose clock does not go back |
| `BookingRoutes.OverlappingCreateRefusedLater` | backend/routes/booking.js:16-99 | the 409 for an overlapping create within LOCK_TIMEOUT of the first create lasts through any later creates (lock steps at or after `now`) and cancels (which leave the locks) |
| `BookingRoutes.CreateOrder` | backend/routes/booking.js:75-99 | missing fields answer 400 before any lock check; a passed lock check with conflicts answers 409 with the seat list |
| `BookingRoutes.CreateSavesConfirmed` | backend/routes/booking.js:121-144 | a successful create saves a schema-valid booking with status confirmed and the requested seats, none of which is in a confirmed or completed booking of the same show day |
| `BookingRoutes.CreateWithoutPaymentFails` | backend/routes/booking.js:133 | without paymentDetails the default method 'default' fails the enum, so the create answers 500 |
| `ServerSeatCache.GetKey` | backend/server.js:19-21 | a seat key is the show prefix followed by the seat number |
| `ServerSeatCache.GetKeyCollides` | backend/server.js:19-21 | two different part tuples can give the same key, so getKey is not injective |
| `ServerSeatCache.WithoutPrefix` | backend/server.js:68-76 | exactly the keys not starting with the prefix remain, with their entries |
| `ServerSeatCache.InvalidateShowEffect` | backend/server.js:68-76 | invalidating a show removes all its seats, keeps every key without its prefix, and is idempotent |
| `ServerSeatCache.InvalidateShowOverreach` | backend/server.js:68-76 | invalidating one show can remove a seat of another whose parts contain '_' |
| `ServerSeatCache.CancelEffect` | backend/server.js:124-127 | the cancelBooking handler invalidates the show only when all four fields are present |
| `ServerSeatCache.SeatCache.constructor` | backend/server.js:15-17 | no entries and no locks |
| `ServerSeatCache.SeatCache.Get` | backend/server.js:23-26 | returns the entry stored under the seat's key, if any |
| `ServerSeatCache.SeatCache.Set` | backend/server.js:28-32 | stores `{status, user, now}` and answers true; a get then returns it; no other key and no lock changes |
| `ServerSeatCache.SeatCache.AcquireLock` | backend/server.js:34-60 | the answer is true iff the key was free, and the key is locked afterwards; the cache is unchanged |
| `ServerSeatCache.SeatCache.ReleaseLock` | backend/server.js:62-66 | removes only that key's lock and answers true |
| `ServerSeatCache.SeatCache.InvalidateShow` | backend/server.js:68-76 | the deletion loop leaves exactly the keys not starting with the show prefix; locks are unchanged |
| `ServerSeatCache.SeatCache.OnCancelBooking` | backend/server.js:124-129 | the cache becomes the cancel effect; locks are unchanged |
| `RequestCache.Lookup` | src/services/api.js:19-29 | getCache answers the data iff an entry exists and `now - timestamp < MAX_AGE` |
| `RequestCache.AfterLookup` | src/services/api.js:23-28 | reading a stale entry deletes it; reading a fresh or missing one changes nothing |
| `RequestCache.LookupProperties` | src/services/api.js:19-36 | a second read answers as the first; an entry set at `now` is read back until MAX_AGE has passed and not after; reads of other keys are unaffected |
| `RequestCache.CreateKey` | src/services/api.js:38-42 | the key is `method:url:query:body`, with "" for an absent query or body |
| `RequestCache.WithoutPattern` | src/services/api.js:44-50 | exactly the keys not containing the pattern remain, with their entries |
| `RequestCache.KeyContainsUrl` | src/services/api.js:41 | every key contains its url |
| `RequestCache.InvalidateRemovesStatusKeys` | src/services/api.js:387-389 | invalidateCache removes every status key, whatever its query and body |
| `RequestCache.SeatCallPatternMissesStatusKeys` | src/services/api.js:351 | the hold, book and release pattern removes no status key whose method, query and body have no '?' |
| `RequestCache.RequestCacheState.constructor` | src/services/api.js:13-17 | the cache starts empty |
| `RequestCache.RequestCacheState.GetCache` | src/services/api.js:19-29 | answers Lookup and leaves AfterLookup |
| `RequestCache.RequestCacheState.SetCache` | src/services/api.js:31-36 | stores the data stamped with `now`, so a read at `now` returns it |
| `RequestCache.RequestCacheState.ClearCache` | src/services/api.js:44-50 | the deletion loop leaves exactly the keys not containing the pattern |
| `RequestCache.RequestCacheState.ClearAll` | src/services/api.js:52-54 | empties the cache |
| `RequestCache.RequestCacheState.InvalidateCache` | src/services/api.js:387-389 | removes every key containing "/seats/status" |
| `RequestCache.RequestCacheState.BeforeSeatCall` | src/services/api.js:348-378 | hold, book and release first remove the keys containing "/seats/status?movie=…&city=…" |
| `Theater.ClientShowKey` | src/components/Theater.jsx:11-13 | the page's key is the server's key form with city and movie swapped |
| `Theater.ClientRoomIsServerRoomOnlyIfCityIsMovie` | src/components/Theater.jsx:148-154 | for parts without '_', the room the page joins is the server's room only when city equals movie id |
| `Theater.DelhiRoomDiffers` | src/components/Theater.jsx:11-13 | for city "Delhi" and movie "m1" the page's room differs from the server's |
| `Theater.FromView` | src/components/Theater.jsx:138-143 | a status reply entry reaches the page with its seat and status and no timestamp |
| `Theater.Merge` | src/components/Theater.jsx:138-144 | the merge of the status reply with the local updates; `Theater.MergeProperties` and `LocalWinsOverStatusReply` state it |
| `Theater.MergeProperties` | src/components/Theater.jsx:138-144 | the merge keeps length, order and all fields but status; a status changes only to a newer local one; it is idempotent; with no local updates it is the identity |
| `Theater.LocalWinsOverStatusReply` | src/components/Theater.jsx:138-144 | since status replies carry no timestamp (taken as 0), every local update with a positive time wins |
| `Theater.FindIndex` | src/components/Theater.jsx:169 | the first index with that seat number, or -1 when there is none |
| `Theater.Upsert` | src/components/Theater.jsx:168-189 | the `seatUpdated` upsert; `Theater.UpsertProperties` states it |
| `Theater.UpsertProperties` | src/components/Theater.jsx:168-189 | the upsert replaces the first match or appends; grows by at most one; appends iff no match; keeps every other index; the sent seat is then the one found |
| `Theater.SetStatus` | src/components/Theater.jsx:256-263 | every seat with that number takes the status and keeps its other fields; every other seat is kept; the length is kept |
| `Theater.Without` | src/components/Theater.jsx:248 | the filter leaves exactly the other seat numbers, and is the identity when the seat is absent |
| `Theater.GridStatus` | src/components/Theater.jsx:599-611 | selected iff the seat is selected; booked iff unselected and the server's first entry for it is booked; otherwise available |
| `Theater.GridSize` | src/components/Theater.jsx:597 | the grid has totalSeats seats, or 40 when that is missing or zero |
| `Theater.HeldShownAvailable` | src/components/Theater.jsx:599-611 | an unselected seat the server reports as held is drawn available |
| `Theater.Click` | src/components/Theater.jsx:239-344 | the click handler's effect on the view; `Theater.ClickToggles` and `ClickFailureRestores` state it |
| `Theater.ClickToggles` | src/components/Theater.jsx:239-311 | a click on a booked seat changes nothing; an accepted click toggles the selection, records the local status, and the grid then shows it selected or available |
| `Theater.ClickFailureRestores` | src/components/Theater.jsx:275-342 | a refused or thrown call restores the set of selected seats, drops the seat's local update and sets an error; a refused deselection moves the seat to the end of the list |
| `Theater.PaymentGuard` | src/components/Theater.jsx:346-355 | no request iff no payment method or no selected seat, with the matching error message |
| `Theater.TheaterView.constructor` | src/components/Theater.jsx:26-47 | the page starts with no seats, no selection, no local updates and no error |
| `Theater.TheaterView.ApplyStatusReply` | src/components/Theater.jsx:136-154 | a successful reply replaces the seats by the merge and joins the page's room; a failed one changes nothing |
| `Theater.TheaterView.OnSeatUpdated` | src/components/Theater.jsx:164-190 | invalidates the status cache, drops a listed seat's local update and upserts the seat |
| `Theater.TheaterView.HandleSeatClick` | src/components/Theater.jsx:239-344 | the page state follows Click; the seat call's cache pattern is cleared unless the seat is booked |
| `Theater.TheaterView.HandlePayment` | src/components/Theater.jsx:346-358 | goes on iff the guard passes, then clears the error and marks processing; otherwise shows the guard's error |

## Left out

- Socket.io transport is not modelled: rooms, `joinShow`, the connection handlers and the `cancelBooking` emit/listen pair. Emits are a ghost log of show keys, and the page's joined rooms a ghost log.
- `handleBookingCancellation` and the `cancelBooking` listener of backend/routes/seat.js only re-emit a snapshot; they fall under the socket transport.
- Database failures are not modelled: the 500 answers of `/status`, `/hold`, `/release` and the other routes' catch blocks. The exception is the save errors of `/book` and `POST /`, which come from the schema and the unique indexes.
- MongoDB I/O is not modelled. The ledger is an in-memory map keyed by the unique index, and the bookings are a sequence.
- A `bookingId` is a single string. The ObjectId form that `findByBookingId`, `deleteByBookingId`, `/book` and the cancel route also try is not modelled, and neither is the ObjectId `deleteMany` attempt at backend/routes/booking.js:186-188.
- Concurrency is not modelled. Each request is one atomic step, so the await gaps between a check and a write, and interleavings, are not modelled.
- The waiting branch of `acquireLock` (polling and timeout) is not modelled. With a lock held, the model answers false at once.
- The sweep's `setInterval` cadence is not modelled; the sweep is one call at a given `now`.
- Time is not read from a clock. `Date.now()` and `Math.random()` are parameters.
- Date conversions are not modelled. A booking's show date carries its ISO day (`toISOString().split('T')[0]`), and a create request comes with the instants of its day and of the next day.
- Prices, fees and taxes (floating point), `totalAmount`, `theaterId`, `cancellationDetails` and the `heldBy` and `holdExpiresAt` ledger fields are not modelled.
- `email` is checked by `POST /` but is not a schema field, so the stored booking does not carry it.
- `seatsBooked` holds integers. The `[String]` schema type and the `Number(...)` conversions are not modelled, nor a non-array `seatsBooked`.
- The seat routes' `seatNumber` is an integer. A string seat number is not modelled: `!seatNumber` at backend/routes/seat.js:86 lets the string "0" through, and the `Number(seatNumber)` conversions for the hold table (for example backend/routes/seat.js:108, 114, 196) against the raw value in the ledger queries (backend/routes/seat.js:96, 164) are not distinguished.
- Absent request fields are "". JavaScript's interpolation of `undefined` as "undefined" is not modelled, nor a query on a missing field matching only documents without it. This covers a number, string or boolean item of `/release-batch`, which is a request with every field absent (its key `undefined_undefined_undefined_undefined` is collected and emitted, and it releases nothing).
- `SeatRoutes.SeatEngine.Book`: a successful reply carries the saved ledger document, where the route answers only its `showKey`, `seatNumber`, `status`, `bookedBy` and `bookingId` (backend/routes/seat.js:199-208).
- Snapshot order is not modelled: `BookedPart` and `HeldPart` pick entries without fixing the collection order or the `Map` insertion order (backend/routes/seat.js:38, 328), and `SweepShow` and `Sweep` pick the order of the per-seat emits. So `SeatRoutes.SnapshotsAgree` promises multiset equality, where in the source the reply and the broadcast at one instant are equal as sequences.
- `SeatRoutes.SeatEngine.Status`: the reply and the broadcast share one instant. `emitSeatStatus` reads `Date.now()` again after its queries (backend/routes/seat.js:36 against :325), so a hold that expires in between is in the reply and not in the broadcast; this is not modelled.
- `Theater.CallResult`: the `seatAPI.hold` and `seatAPI.release` wrappers of src/services/api.js:348-377 catch every error, so the page only sees success or `Failed("Failed to hold seat")` / `Failed("Failed to release seat")`. `Thrown`, the "Network error" messages and a server message reaching the page do not occur with these wrappers; `Thrown` is kept for the handler's catch branches (src/components/Theater.jsx:285-294, 333-342).
- `Theater.TheaterView.OnSeatUpdated`: no backend code emits `seatUpdated` (the seat emits are `seatStatusUpdate`, backend/routes/seat.js:61,71 and backend/server.js:128), so this handler is never triggered by this backend.
- The booking routes' own `seatCache` is never written, so its `delete` is a no-op and is left out.
- The routes `/seat-status` and `/user/:userId` are not modelled.
- Axios interceptors and the pending-request de-duplication are not modelled. `URLSearchParams`, `JSON.stringify` and `encodeURIComponent` results are passed in as strings.
- The page's fetch cooldown, the `statusChangedSeats` animation, localStorage, `beforeunload`, rendering and the booking submission after the payment guard are not modelled.
- The pre-save hooks are modelled on document values rather than by assigning to `this`.
- Authentication, the movie routes and the other pages are not modelled.
