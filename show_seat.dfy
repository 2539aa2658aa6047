/** The seat ledger: the `ShowSeat` collection, one document per booked
    seat, with a unique index on (showKey, seatNumber), the schema's
    required fields and status enum, the pre-save timestamp hook and the
    bookingId filters `findByBookingId` / `deleteByBookingId` use.

    The collection is a map from the unique index key to the document, so
    the unique index holds by construction and a second insert of the same
    key is refused, as MongoDB refuses it. */
module ShowSeats {
  import opened Wrappers
  import opened Collections

  /** The values the schema's `status` enum admits, and its default. */
  const STATUS_VALUES: seq<string> := ["available", "held", "booked"]
  const DEFAULT_STATUS: string := "booked"

  /** The unique index key of a ledger document. */
  datatype SeatId = SeatId(showKey: string, seatNumber: int)

  /** One `ShowSeat` document. `bookingId` is one canonical string. */
  datatype ShowSeat = ShowSeat(
    showKey: string,
    seatNumber: int,
    bookedBy: string,
    bookingId: string,
    status: string,
    createdAt: int,
    updatedAt: int)
  {
    function Id(): SeatId { SeatId(showKey, seatNumber) }
  }

  /** A freshly constructed document: `status` falls back to the schema
      default and both timestamps default to the current time. */
  function NewShowSeat(showKey: string, seatNumber: int, bookedBy: string,
                       bookingId: string, status: Option<string>, now: int): (r: ShowSeat)
    ensures r.Id() == SeatId(showKey, seatNumber)
    ensures r.bookedBy == bookedBy && r.bookingId == bookingId
    ensures r.status == (if status.Some? then status.value else DEFAULT_STATUS)
    ensures r.createdAt == now && r.updatedAt == now
  {
    ShowSeat(showKey, seatNumber, bookedBy, bookingId,
             if status.Some? then status.value else DEFAULT_STATUS, now, now)
  }

  /** Schema validation: the required string paths are non-empty (a
      required String path refuses ""), and `status` is in the enum.
      `seatNumber` and `bookingId` are always present in this model. */
  predicate SchemaValid(r: ShowSeat)
  {
    r.showKey != "" && r.bookedBy != "" && r.status in STATUS_VALUES
  }

  /** A document built with no explicit status gets one the enum admits. */
  lemma DefaultStatusIsValid(showKey: string, seatNumber: int, bookedBy: string,
                             bookingId: string, now: int)
    requires showKey != "" && bookedBy != ""
    ensures SchemaValid(NewShowSeat(showKey, seatNumber, bookedBy, bookingId, None, now))
    ensures NewShowSeat(showKey, seatNumber, bookedBy, bookingId, None, now).status == "booked"
  {
  }

  /** The pre-save hook: stamps `updatedAt` with the current time. */
  function PreSave(r: ShowSeat, now: int): (r': ShowSeat)
    ensures r'.updatedAt == now
    ensures r'.(updatedAt := r.updatedAt) == r
    ensures r'.Id() == r.Id() && SchemaValid(r') == SchemaValid(r)
  {
    r.(updatedAt := now)
  }

  /** The query filters the routes issue against the collection. */
  datatype Filter =
    | ByShowKey(showKey: string)                          // find({ showKey })
    | BySeat(showKey: string, seatNumber: int)            // findOne({ showKey, seatNumber })
    | ByBookingId(bookingId: string)                      // findByBookingId / deleteByBookingId
    | ByShowKeySeats(showKey: string, seatNumbers: seq<int>)  // { showKey, seatNumber: { $in } }
    | ByShowKeyUser(showKey: string, bookedBy: string)    // { showKey, bookedBy }

  predicate Matches(f: Filter, r: ShowSeat)
  {
    match f
    case ByShowKey(k) => r.showKey == k
    case BySeat(k, n) => r.showKey == k && r.seatNumber == n
    case ByBookingId(id) => r.bookingId == id
    case ByShowKeySeats(k, ns) => r.showKey == k && r.seatNumber in ns
    case ByShowKeyUser(k, u) => r.showKey == k && r.bookedBy == u
  }

  type Rows = map<SeatId, ShowSeat>

  /** Every document is stored under its own index key. */
  predicate WellKeyed(rows: Rows)
  {
    forall id :: id in rows ==> rows[id].Id() == id
  }

  /** The index keys of the documents a filter matches. */
  function MatchingIds(rows: Rows, f: Filter): (ids: set<SeatId>)
    ensures ids <= rows.Keys
    ensures forall id :: id in ids <==> id in rows && Matches(f, rows[id])
  {
    set id | id in rows && Matches(f, rows[id])
  }

  /** `find(filter)`: the matching documents. */
  function Find(rows: Rows, f: Filter): (found: set<ShowSeat>)
    ensures forall r :: r in found <==> exists id :: id in rows && rows[id] == r && Matches(f, r)
  {
    set id | id in rows && Matches(f, rows[id]) :: rows[id]
  }

  /** `deleteMany(filter)`: the collection without the matching documents. */
  function RemoveMatching(rows: Rows, f: Filter): (rest: Rows)
    ensures rest.Keys == rows.Keys - MatchingIds(rows, f)
    ensures forall id :: id in rest ==> rest[id] == rows[id] && !Matches(f, rest[id])
  {
    map id | id in rows && !Matches(f, rows[id]) :: rows[id]
  }

  /** A delete leaves nothing the same filter would still find, keeps every
      document it does not match, and removes as many documents as the
      filter matched. */
  lemma RemoveMatchingExact(rows: Rows, f: Filter)
    ensures Find(RemoveMatching(rows, f), f) == {}
    ensures forall id :: id in rows && !Matches(f, rows[id]) ==>
              id in RemoveMatching(rows, f) && RemoveMatching(rows, f)[id] == rows[id]
    ensures |RemoveMatching(rows, f)| + |MatchingIds(rows, f)| == |rows|
  {
    var rest := RemoveMatching(rows, f);
    var ids := MatchingIds(rows, f);
    assert rows.Keys == rest.Keys + ids;
    assert rest.Keys * ids == {};
    CardinalityOfDisjointUnion(rest.Keys, ids);
  }

  /** Deleting with one filter and then another is deleting with either. */
  lemma RemoveMatchingTwice(rows: Rows, f: Filter, g: Filter)
    ensures RemoveMatching(RemoveMatching(rows, f), g) ==
            map id | id in rows && !Matches(f, rows[id]) && !Matches(g, rows[id]) :: rows[id]
  {
  }

  /** What inserting a document does: the schema validates it, the
      pre-save hook stamps it, the unique index refuses a taken key. */
  datatype SaveResult = Saved(doc: ShowSeat) | ValidationError | DuplicateKey

  function SaveOutcome(rows: Rows, r: ShowSeat, now: int): (res: SaveResult)
    ensures res.Saved? <==> SchemaValid(r) && r.Id() !in rows
    ensures res.Saved? ==> res.doc == PreSave(r, now)
    ensures res.DuplicateKey? <==> SchemaValid(r) && r.Id() in rows
  {
    if !SchemaValid(r) then ValidationError
    else if r.Id() in rows then DuplicateKey
    else Saved(PreSave(r, now))
  }

  /** The unique index: once a document for (showKey, seatNumber) has been
      saved, a second valid document for the same pair is refused. */
  lemma SecondInsertRefused(rows: Rows, r1: ShowSeat, r2: ShowSeat, now1: int, now2: int)
    requires SaveOutcome(rows, r1, now1).Saved?
    requires SchemaValid(r2) && r2.Id() == r1.Id()
    ensures SaveOutcome(rows[r1.Id() := PreSave(r1, now1)], r2, now2) == DuplicateKey
  {
  }

  /** The collection itself. */
  class Ledger {
    var rows: Rows

    ghost predicate Valid()
      reads this
    {
      WellKeyed(rows)
    }

    constructor ()
      ensures Valid() && rows == map[]
    {
      rows := map[];
    }

    /** `findOne({ showKey, seatNumber })` found a document. */
    predicate IsBooked(showKey: string, seatNumber: int)
      reads this
    {
      SeatId(showKey, seatNumber) in rows
    }

    /** `doc.save()` for a new document. */
    method Save(r: ShowSeat, now: int) returns (res: SaveResult)
      requires Valid()
      modifies this
      ensures Valid()
      ensures res == SaveOutcome(old(rows), r, now)
      ensures rows == if res.Saved? then old(rows)[r.Id() := res.doc] else old(rows)
    {
      if !SchemaValid(r) {
        return ValidationError;
      }
      if r.Id() in rows {
        return DuplicateKey;
      }
      var doc := PreSave(r, now);
      rows := rows[r.Id() := doc];
      res := Saved(doc);
    }

    /** `findByBookingId(id)`: the documents whose bookingId is `id`. */
    function FindByBookingId(bookingId: string): (found: set<ShowSeat>)
      reads this
      ensures forall r :: r in found <==> r in rows.Values && r.bookingId == bookingId
    {
      Find(rows, ByBookingId(bookingId))
    }

    /** `deleteMany(filter)`, answering `deletedCount`. */
    method DeleteMany(f: Filter) returns (deletedCount: nat)
      requires Valid()
      modifies this
      ensures Valid()
      ensures rows == RemoveMatching(old(rows), f)
      ensures deletedCount == |MatchingIds(old(rows), f)|
      ensures deletedCount == |old(rows)| - |rows|
    {
      RemoveMatchingExact(rows, f);
      deletedCount := |MatchingIds(rows, f)|;
      rows := RemoveMatching(rows, f);
    }

    /** `deleteByBookingId(id)`: the same filter as `findByBookingId`, so it
        removes exactly the documents that one finds and keeps all others. */
    method DeleteByBookingId(bookingId: string) returns (deletedCount: nat)
      requires Valid()
      modifies this
      ensures Valid()
      ensures rows.Values == old(rows.Values) - old(FindByBookingId(bookingId))
      ensures rows == RemoveMatching(old(rows), ByBookingId(bookingId))
      ensures deletedCount == |MatchingIds(old(rows), ByBookingId(bookingId))|
      ensures deletedCount == |old(rows)| - |rows|
      ensures FindByBookingId(bookingId) == {}
    {
      ghost var before := rows;
      deletedCount := DeleteMany(ByBookingId(bookingId));
      RemoveMatchingExact(before, ByBookingId(bookingId));
      assert rows.Values == before.Values - Find(before, ByBookingId(bookingId)) by {
        forall r | r in rows.Values ensures r in before.Values - Find(before, ByBookingId(bookingId)) {
          var id :| id in rows && rows[id] == r;
          assert before[id] == r;
        }
        forall r | r in before.Values - Find(before, ByBookingId(bookingId)) ensures r in rows.Values {
          var id :| id in before && before[id] == r;
          assert !Matches(ByBookingId(bookingId), r);
          assert id in rows;
        }
      }
    }

    /** `findByIdAndDelete(_id)`: a document is identified by its unique
        index key here. */
    method FindByIdAndDelete(id: SeatId)
      requires Valid()
      modifies this
      ensures Valid()
      ensures rows == old(rows) - {id}
    {
      rows := rows - {id};
    }
  }
}
