/** The seat reservation engine of the seat routes: `/hold`, `/book`,
    `/release`, `/release-batch`, `/status`, the expiry sweep and the
    `emitSeatStatus` snapshot, over the hold table and the seat ledger.

    Each request is one atomic step at an explicit time `now`. The socket
    broadcasts the routes start are recorded, by show key, in the ghost log
    `emits`; the payload of a broadcast is the status snapshot of that
    show. */
module SeatRoutes {
  import opened Wrappers
  import opened Strings
  import opened Collections
  import opened ShowSeats
  import opened HoldTables

  /** `getShowKey({ movie, city, showtime, date })`: movie first. */
  function ShowKey(movie: string, city: string, showtime: string, date: string): (k: string)
    ensures k == movie + "_" + city + "_" + showtime + "_" + date
  {
    Join([movie, city, showtime, date], '_')
  }

  /** Show keys of underscore-free parts determine the parts. */
  lemma ShowKeyInjective(m1: string, c1: string, s1: string, d1: string,
                         m2: string, c2: string, s2: string, d2: string)
    requires NoSep(m1, '_') && NoSep(c1, '_') && NoSep(s1, '_') && NoSep(d1, '_')
    requires NoSep(m2, '_') && NoSep(c2, '_') && NoSep(s2, '_') && NoSep(d2, '_')
    requires ShowKey(m1, c1, s1, d1) == ShowKey(m2, c2, s2, d2)
    ensures m1 == m2 && c1 == c2 && s1 == s2 && d1 == d2
  {
    var a, b := [m1, c1, s1, d1], [m2, c2, s2, d2];
    JoinInjective(a, b, '_');
    assert a[0] == b[0] && a[1] == b[1] && a[2] == b[2] && a[3] == b[3];
  }

  /** The body of `/hold` and `/release`, and of one `/release-batch` item. */
  datatype SeatRequest = SeatRequest(movie: string, city: string, showtime: string,
                                     date: string, seatNumber: int, user: string)
  {
    function Key(): string { ShowKey(movie, city, showtime, date) }
  }

  /** The body of `/book`. */
  datatype BookRequest = BookRequest(movie: string, city: string, showtime: string,
                                     date: string, seatNumber: int, user: string,
                                     bookingId: string)
  {
    function Key(): string { ShowKey(movie, city, showtime, date) }
  }

  /** The query of `/status`. */
  datatype StatusQuery = StatusQuery(movie: string, city: string, showtime: string, date: string)

  /** One entry of a status snapshot. */
  datatype SeatView =
    | BookedSeat(showKey: string, seatNumber: int, bookedBy: string)
    | HeldSeat(showKey: string, seatNumber: int, heldBy: string, holdExpiresAt: int)
  {
    function Status(): string { if BookedSeat? then "booked" else "held" }
  }

  // -----------------------------------------------------------------------
  // What each route answers, as a function of the stores before the call

  /** `/hold`: the checks in source order, then the new hold. */
  function HoldReply(rows: Rows, t: HoldTable, req: SeatRequest, now: int): Reply<SeatView>
  {
    var key := req.Key();
    var h := GetHold(t, key, req.seatNumber);
    if req.user == "" then BadRequest("User is required")
    else if req.seatNumber == 0 then BadRequest("Seat number is required")
    else if SeatId(key, req.seatNumber) in rows then Conflict("Seat already booked")
    else if h.Some? && HeldByOther(h.value, req.user, now) then Conflict("Seat held by another user")
    else Ok(HeldSeat(key, req.seatNumber, req.user, now + HOLD_TIMEOUT))
  }

  /** The ledger document `/book` saves. */
  function BookedDoc(req: BookRequest, now: int): ShowSeat
  {
    NewShowSeat(req.Key(), req.seatNumber, req.user, req.bookingId, Some("booked"), now)
  }

  /** `/book`: ownership of an existing hold is checked before its expiry,
      and a seat with no hold at all is booked. */
  function BookReply(rows: Rows, t: HoldTable, req: BookRequest, now: int): Reply<ShowSeat>
  {
    var key := req.Key();
    var h := GetHold(t, key, req.seatNumber);
    if req.bookingId == "" then BadRequest("Booking ID is required")
    else if SeatId(key, req.seatNumber) in rows then Conflict("Seat already booked")
    else if h.Some? && h.value.heldBy != req.user then Conflict("Seat not held by you")
    else if h.Some? && h.value.expiresAt < now then Conflict("Hold has expired")
    else
      match SaveOutcome(rows, BookedDoc(req, now), now)
      case Saved(doc) => Ok(doc)
      case ValidationError => ServerError("ShowSeat validation failed")
      case DuplicateKey => ServerError("E11000 duplicate key error")
  }

  /** `/release` and each `/release-batch` item: delete the hold only when
      the caller owns it. */
  function ReleaseEffect(t: HoldTable, req: SeatRequest): HoldTable
  {
    var h := GetHold(t, req.Key(), req.seatNumber);
    if h.Some? && h.value.heldBy == req.user then DeleteHold(t, req.Key(), req.seatNumber) else t
  }

  /** The batch items before the first `null` one (destructuring `null`
      throws and ends the loop). A number, string or boolean item is not
      `null`: it is a request whose fields are all absent. */
  function PresentPrefix(items: seq<Option<SeatRequest>>): (reqs: seq<SeatRequest>)
    ensures |reqs| <= |items|
    ensures forall i :: 0 <= i < |reqs| ==> items[i] == Some(reqs[i])
    ensures |reqs| < |items| ==> items[|reqs|].None?
  {
    if items == [] || items[0].None? then [] else [items[0].value] + PresentPrefix(items[1..])
  }

  /** An object item within the handled prefix is handled too. */
  lemma PresentPrefixContinues(items: seq<Option<SeatRequest>>, i: nat)
    requires i <= |PresentPrefix(items)| && i < |items| && items[i].Some?
    ensures i < |PresentPrefix(items)| && items[i] == Some(PresentPrefix(items)[i])
  {
  }

  /** The loop stops exactly at the end of the handled prefix. */
  lemma PresentPrefixEnds(items: seq<Option<SeatRequest>>, i: nat)
    requires i <= |PresentPrefix(items)|
    requires !(i < |items| && items[i].Some?)
    ensures i == |PresentPrefix(items)|
  {
  }

  lemma PrefixStep<T>(s: seq<T>, i: nat)
    requires i < |s|
    ensures s[..i + 1] == s[..i] + [s[i]]
  {
  }

  /** Releasing the requests one after the other. */
  function ReleaseAll(t: HoldTable, reqs: seq<SeatRequest>): HoldTable
    decreases |reqs|
  {
    if reqs == [] then t else ReleaseEffect(ReleaseAll(t, reqs[..|reqs| - 1]), reqs[|reqs| - 1])
  }

  /** The request names seat `s` of show `k` for user `u`. */
  predicate NamesSeat(r: SeatRequest, k: string, s: int, u: string)
  {
    r.Key() == k && r.seatNumber == s && r.user == u
  }

  /** Some request names seat `s` of show `k` for user `u`. */
  predicate Names(reqs: seq<SeatRequest>, k: string, s: int, u: string)
  {
    exists i :: 0 <= i < |reqs| && NamesSeat(reqs[i], k, s, u)
  }

  /** What one request does to one seat. */
  lemma ReleaseEffectAt(t: HoldTable, req: SeatRequest, k: string, s: int)
    ensures ReleaseEffect(t, req).Keys == t.Keys
    ensures GetHold(ReleaseEffect(t, req), k, s) ==
              if GetHold(t, k, s).Some? && NamesSeat(req, k, s, GetHold(t, k, s).value.heldBy)
              then None else GetHold(t, k, s)
  {
  }

  /** A request names a seat iff an earlier one or the last one does. */
  lemma NamesStep(reqs: seq<SeatRequest>, k: string, s: int, u: string)
    requires reqs != []
    ensures Names(reqs, k, s, u) <==>
              Names(reqs[..|reqs| - 1], k, s, u) || NamesSeat(reqs[|reqs| - 1], k, s, u)
  {
    var init := reqs[..|reqs| - 1];
    if Names(reqs, k, s, u) {
      var i :| 0 <= i < |reqs| && NamesSeat(reqs[i], k, s, u);
      if i < |init| {
        assert init[i] == reqs[i];
      }
    }
    if Names(init, k, s, u) {
      var i :| 0 <= i < |init| && NamesSeat(init[i], k, s, u);
      assert reqs[i] == init[i];
    }
  }

  /** What a batch does to one seat: a missing hold stays missing; a hold
      is deleted iff some request names it with its holder, and is kept
      unchanged otherwise. The shows of the table stay. */
  lemma {:induction false} ReleaseAllEffect(t: HoldTable, reqs: seq<SeatRequest>, k: string, s: int)
    ensures ReleaseAll(t, reqs).Keys == t.Keys
    ensures GetHold(t, k, s).None? ==> GetHold(ReleaseAll(t, reqs), k, s).None?
    ensures GetHold(t, k, s).Some? ==>
              (GetHold(ReleaseAll(t, reqs), k, s).None? <==> Names(reqs, k, s, GetHold(t, k, s).value.heldBy))
    ensures GetHold(t, k, s).Some? && !Names(reqs, k, s, GetHold(t, k, s).value.heldBy) ==>
              GetHold(ReleaseAll(t, reqs), k, s) == GetHold(t, k, s)
    decreases |reqs|
  {
    if reqs != [] {
      var init := reqs[..|reqs| - 1];
      var before := ReleaseAll(t, init);
      assert ReleaseAll(t, reqs) == ReleaseEffect(before, reqs[|reqs| - 1]);
      ReleaseAllEffect(t, init, k, s);
      ReleaseEffectAt(before, reqs[|reqs| - 1], k, s);
      if GetHold(t, k, s).Some? {
        NamesStep(reqs, k, s, GetHold(t, k, s).value.heldBy);
      }
    }
  }

  /** The show keys of the requests, in request order. */
  function KeysOf(reqs: seq<SeatRequest>): (keys: seq<string>)
    ensures |keys| == |reqs|
    ensures forall i :: 0 <= i < |reqs| ==> keys[i] == reqs[i].Key()
    decreases |reqs|
  {
    if reqs == [] then [] else KeysOf(reqs[..|reqs| - 1]) + [reqs[|reqs| - 1].Key()]
  }

  /** The message of a completed batch: the number of items sent, not the
      number of holds actually deleted. */
  function ReleasedMessage(n: nat): string
  {
    "Released " + NatToString(n) + " seats"
  }

  /** The show keys of evicted (showKey, seatNumber) pairs, in order. */
  function FirstsOf(ps: seq<(string, int)>): (keys: seq<string>)
    ensures |keys| == |ps|
    ensures forall i :: 0 <= i < |ps| ==> keys[i] == ps[i].0
    decreases |ps|
  {
    if ps == [] then [] else FirstsOf(ps[..|ps| - 1]) + [ps[|ps| - 1].0]
  }

  lemma KeysOfAppend(reqs: seq<SeatRequest>, r: SeatRequest)
    ensures KeysOf(reqs + [r]) == KeysOf(reqs) + [r.Key()]
  {
    assert (reqs + [r])[..|reqs|] == reqs;
  }

  /** One more batch item: its release follows the earlier ones. */
  lemma ReleaseAllStep(t: HoldTable, reqs: seq<SeatRequest>, i: nat)
    requires i < |reqs|
    ensures ReleaseAll(t, reqs[..i + 1]) == ReleaseEffect(ReleaseAll(t, reqs[..i]), reqs[i])
  {
    assert reqs[..i + 1][..i] == reqs[..i];
  }

  /** One more batch item: its show key follows the earlier ones. */
  lemma KeysStep(reqs: seq<SeatRequest>, i: nat)
    requires i < |reqs|
    ensures KeysOf(reqs[..i + 1]) == KeysOf(reqs[..i]) + [reqs[i].Key()]
  {
    PrefixStep(reqs, i);
    KeysOfAppend(reqs[..i], reqs[i]);
  }

  lemma FirstsOfAppend(a: seq<(string, int)>, b: seq<(string, int)>)
    ensures FirstsOf(a + b) == FirstsOf(a) + FirstsOf(b)
  {
    assert forall i :: 0 <= i < |a + b| ==> FirstsOf(a + b)[i] == (FirstsOf(a) + FirstsOf(b))[i];
  }

  /** The pairs (showKey, s) for the seats `s` in order. */
  function Tagged(showKey: string, seats: seq<int>): (ps: seq<(string, int)>)
    ensures |ps| == |seats|
    ensures forall i :: 0 <= i < |seats| ==> ps[i] == (showKey, seats[i])
    ensures NoDuplicates(seats) ==> NoDuplicates(ps)
  {
    seq(|seats|, i requires 0 <= i < |seats| => (showKey, seats[i]))
  }

  /** The sweep's inner loop over one show's map: the map without its
      expired holds, and the seats evicted, in eviction order. */
  method SweepShow(holds: ShowHolds, now: int) returns (kept: ShowHolds, gone: seq<int>)
    ensures kept == SweptShow(holds, now)
    ensures NoDuplicates(gone)
    ensures forall s :: s in gone <==> s in holds && Expired(holds[s], now)
  {
    kept := holds;
    gone := [];
    var entries := holds.Items;
    while entries != {}
      invariant entries <= holds.Items
      invariant kept == map s | s in holds && ((s, holds[s]) in entries || !Expired(holds[s], now)) :: holds[s]
      invariant NoDuplicates(gone)
      invariant forall s :: s in gone <==> s in holds && Expired(holds[s], now) && (s, holds[s]) !in entries
      decreases entries
    {
      var e :| e in entries;
      var (n, h) := e;
      if h.expiresAt < now {
        kept := kept - {n};
        gone := gone + [n];
      }
      entries := entries - {e};
    }
  }

  /** The table part way through a sweep: the shows in `pending` not yet
      visited, the others swept. */
  ghost function PartSwept(t: HoldTable, pending: set<string>, now: int): HoldTable
  {
    map k | k in t && (k in pending || SweptShow(t[k], now) != map[]) ::
      if k in pending then t[k] else SweptShow(t[k], now)
  }

  /** Visiting one more show of a sweep. */
  lemma PartSweptStep(t: HoldTable, pending: set<string>, k: string, now: int)
    requires k in pending && pending <= t.Keys
    ensures PartSwept(t, pending - {k}, now) ==
            if SweptShow(t[k], now) == map[] then PartSwept(t, pending, now) - {k}
            else PartSwept(t, pending, now)[k := SweptShow(t[k], now)]
  {
  }

  /** A sweep with nothing left to visit is the whole sweep. */
  lemma PartSweptDone(t: HoldTable, now: int)
    ensures PartSwept(t, {}, now) == Swept(t, now)
    ensures PartSwept(t, t.Keys, now) == t
  {
  }

  /** Visiting one more show of a sweep adds exactly its expired holds to
      the evicted pairs. */
  lemma EvictedStep(t: HoldTable, pending: set<string>, k: string, now: int,
                    evicted: seq<(string, int)>, gone: seq<int>)
    requires k in pending && pending <= t.Keys
    requires NoDuplicates(evicted)
    requires forall p :: p in evicted <==> ExpiredAt(t, now, p) && p.0 !in pending
    requires NoDuplicates(gone)
    requires forall s :: s in gone <==> s in t[k] && Expired(t[k][s], now)
    ensures NoDuplicates(evicted + Tagged(k, gone))
    ensures forall p :: p in evicted + Tagged(k, gone) <==> ExpiredAt(t, now, p) && p.0 !in pending - {k}
  {
    var tagged := Tagged(k, gone);
    forall p | p in evicted ensures p !in tagged {
    }
    NoDuplicatesAppend(evicted, tagged);
    forall p | ExpiredAt(t, now, p) && p.0 == k ensures p in tagged {
      var i :| 0 <= i < |gone| && gone[i] == p.1;
      assert tagged[i] == p;
    }
    forall p | p in tagged ensures ExpiredAt(t, now, p) && p.0 == k {
      var i :| 0 <= i < |tagged| && tagged[i] == p;
      assert gone[i] in gone;
    }
    assert forall p :: p in evicted + tagged <==> p in evicted || p in tagged;
  }

  // -----------------------------------------------------------------------
  // The status snapshot

  /** The `booked` entries: one per ledger document of the show. */
  ghost function BookedViews(rows: Rows, showKey: string): set<SeatView>
  {
    set id | id in rows && rows[id].showKey == showKey ::
      BookedSeat(showKey, rows[id].seatNumber, rows[id].bookedBy)
  }

  /** The `held` entries: one per hold of the show with `expiresAt > now`. */
  ghost function LiveViews(holds: ShowHolds, showKey: string, now: int): set<SeatView>
  {
    set s | s in holds && Live(holds[s], now) :: HeldSeat(showKey, s, holds[s].heldBy, holds[s].expiresAt)
  }

  /** What a status snapshot is: every booked entry and every live hold of
      the show, each once, booked entries first. */
  ghost predicate IsSnapshot(rows: Rows, holds: ShowHolds, showKey: string, now: int,
                             seats: seq<SeatView>)
  {
    && NoDuplicates(seats)
    && (forall v :: v in seats <==> v in BookedViews(rows, showKey) || v in LiveViews(holds, showKey, now))
    && (forall i, j :: 0 <= i < j < |seats| && seats[i].HeldSeat? ==> seats[j].HeldSeat?)
  }

  /** The `booked` part of the snapshot, one entry per document of the show. */
  method BookedPart(rows: Rows, showKey: string) returns (seats: seq<SeatView>)
    requires WellKeyed(rows)
    ensures NoDuplicates(seats)
    ensures forall i :: 0 <= i < |seats| ==> seats[i].BookedSeat?
    ensures forall v :: v in seats <==> v in BookedViews(rows, showKey)
  {
    seats := [];
    var ids := rows.Keys;
    ghost var done: set<SeatId> := {};
    while ids != {}
      invariant ids + done == rows.Keys && ids * done == {}
      invariant NoDuplicates(seats)
      invariant forall i :: 0 <= i < |seats| ==> seats[i].BookedSeat?
      invariant forall v :: v in seats <==>
                  exists id :: id in done && rows[id].showKey == showKey &&
                               v == BookedSeat(showKey, rows[id].seatNumber, rows[id].bookedBy)
      decreases ids
    {
      var id :| id in ids;
      if rows[id].showKey == showKey {
        var v := BookedSeat(showKey, rows[id].seatNumber, rows[id].bookedBy);
        assert v !in seats by {
          forall id' | id' in done && rows[id'].showKey == showKey
            ensures rows[id'].seatNumber != rows[id].seatNumber
          {
            assert id' != id && rows[id'].Id() == id' && rows[id].Id() == id;
          }
        }
        seats := seats + [v];
      }
      ids := ids - {id};
      done := done + {id};
    }
  }

  /** The `held` part of the snapshot, one entry per live hold of the show. */
  method HeldPart(holds: ShowHolds, showKey: string, now: int) returns (seats: seq<SeatView>)
    ensures NoDuplicates(seats)
    ensures forall i :: 0 <= i < |seats| ==> seats[i].HeldSeat?
    ensures forall v :: v in seats <==> v in LiveViews(holds, showKey, now)
  {
    seats := [];
    var entries := holds.Items;
    ghost var visited: set<(int, Hold)> := {};
    while entries != {}
      invariant entries + visited == holds.Items && entries * visited == {}
      invariant NoDuplicates(seats)
      invariant forall i :: 0 <= i < |seats| ==> seats[i].HeldSeat?
      invariant forall v :: v in seats <==>
                  exists e :: e in visited && Live(e.1, now) &&
                              v == HeldSeat(showKey, e.0, e.1.heldBy, e.1.expiresAt)
      decreases entries
    {
      var e :| e in entries;
      var (n, h) := e;
      if h.expiresAt > now {
        var v := HeldSeat(showKey, n, h.heldBy, h.expiresAt);
        assert v !in seats by {
          forall e' | e' in visited ensures e'.0 != n {
            assert e' != e && e' in holds.Items && e in holds.Items;
          }
        }
        seats := seats + [v];
      }
      entries := entries - {e};
      visited := visited + {e};
    }
    assert forall v :: v in LiveViews(holds, showKey, now) ==> v in seats by {
      forall v | v in LiveViews(holds, showKey, now) ensures v in seats {
        var s :| s in holds && Live(holds[s], now) &&
                 v == HeldSeat(showKey, s, holds[s].heldBy, holds[s].expiresAt);
        assert (s, holds[s]) in visited;
      }
    }
  }

  /** The snapshot `/status` answers and `emitSeatStatus` broadcasts: the
      ledger documents of the show as `booked`, then the holds of the show
      with `expiresAt > now` as `held`. Expired holds the sweep has not yet
      evicted are left out. */
  method Snapshot(rows: Rows, holds: ShowHolds, showKey: string, now: int)
    returns (seats: seq<SeatView>)
    requires WellKeyed(rows)
    ensures IsSnapshot(rows, holds, showKey, now, seats)
  {
    var booked := BookedPart(rows, showKey);
    var held := HeldPart(holds, showKey, now);
    seats := booked + held;
    assert forall i :: 0 <= i < |booked| ==> seats[i] == booked[i];
    assert forall i :: |booked| <= i < |seats| ==> seats[i] == held[i - |booked|];
  }

  /** Any two snapshots of the same state list the same entries, possibly
      in another order of the holds. */
  lemma SnapshotsAgree(rows: Rows, holds: ShowHolds, showKey: string, now: int,
                       a: seq<SeatView>, b: seq<SeatView>)
    requires IsSnapshot(rows, holds, showKey, now, a)
    requires IsSnapshot(rows, holds, showKey, now, b)
    ensures multiset(a) == multiset(b) && |a| == |b|
  {
    SameElementsSameMultiset(a, b);
  }

  /** A hold whose expiry is exactly `now` is not reported as held. */
  lemma SnapshotOmitsHoldAtExpiry(rows: Rows, holds: ShowHolds, showKey: string, now: int,
                                  seats: seq<SeatView>, s: int)
    requires IsSnapshot(rows, holds, showKey, now, seats)
    requires s in holds && holds[s].expiresAt <= now
    ensures HeldSeat(showKey, s, holds[s].heldBy, holds[s].expiresAt) !in seats
  {
  }

  // -----------------------------------------------------------------------
  // The engine

  class SeatEngine {
    /** The `ShowSeat` collection. */
    const ledger: Ledger
    /** `heldSeats`. */
    var heldSeats: HoldTable
    /** Show keys of the `emitSeatStatus` broadcasts started, in order. */
    ghost var emits: seq<string>

    ghost predicate Valid()
      reads this, ledger
    {
      ledger.Valid()
    }

    constructor (ledger: Ledger)
      requires ledger.Valid()
      ensures Valid() && this.ledger == ledger
      ensures heldSeats == map[] && emits == []
    {
      this.ledger := ledger;
      heldSeats := map[];
      emits := [];
    }

    /** `POST /hold`. */
    method Hold(req: SeatRequest, now: int) returns (reply: Reply<SeatView>)
      requires Valid()
      modifies this
      ensures Valid()
      ensures reply == HoldReply(ledger.rows, old(heldSeats), req, now)
      ensures heldSeats == if reply.Ok?
                           then PutHold(old(heldSeats), req.Key(), req.seatNumber,
                                        HoldTables.Hold(req.user, now + HOLD_TIMEOUT))
                           else old(heldSeats)
      ensures emits == old(emits) + if reply.Ok? then [req.Key()] else []
    {
      if req.user == "" {
        return BadRequest("User is required");
      }
      if req.seatNumber == 0 {
        return BadRequest("Seat number is required");
      }
      var showKey := req.Key();
      var expiresAt := now + HOLD_TIMEOUT;
      if ledger.IsBooked(showKey, req.seatNumber) {
        return Conflict("Seat already booked");
      }
      var showHolds: ShowHolds;
      if showKey in heldSeats {
        showHolds := heldSeats[showKey];
      } else {
        showHolds := map[];
        heldSeats := heldSeats[showKey := showHolds];
      }
      if req.seatNumber in showHolds && HeldByOther(showHolds[req.seatNumber], req.user, now) {
        return Conflict("Seat held by another user");
      }
      showHolds := showHolds[req.seatNumber := HoldTables.Hold(req.user, expiresAt)];
      heldSeats := heldSeats[showKey := showHolds];
      reply := Ok(HeldSeat(showKey, req.seatNumber, req.user, expiresAt));
      emits := emits + [showKey];
    }

    /** `POST /book`: one seat per call. A successful reply carries the
        saved ledger document; the route answers only its `showKey`,
        `seatNumber`, `status`, `bookedBy` and `bookingId`. */
    method Book(req: BookRequest, now: int) returns (reply: Reply<ShowSeat>)
      requires Valid()
      modifies this, ledger
      ensures Valid()
      ensures reply == BookReply(old(ledger.rows), old(heldSeats), req, now)
      ensures reply.Ok? ==> ledger.rows == old(ledger.rows)[SeatId(req.Key(), req.seatNumber) := reply.value]
      ensures reply.Ok? ==> heldSeats == DeleteHold(old(heldSeats), req.Key(), req.seatNumber)
      ensures !reply.Ok? ==> ledger.rows == old(ledger.rows) && heldSeats == old(heldSeats)
      ensures emits == old(emits) + if reply.Ok? then [req.Key()] else []
    {
      if req.bookingId == "" {
        return BadRequest("Booking ID is required");
      }
      var showKey := req.Key();
      if ledger.IsBooked(showKey, req.seatNumber) {
        return Conflict("Seat already booked");
      }
      var existingHold := GetHold(heldSeats, showKey, req.seatNumber);
      if existingHold.Some? {
        if existingHold.value.heldBy != req.user {
          return Conflict("Seat not held by you");
        } else if existingHold.value.expiresAt < now {
          return Conflict("Hold has expired");
        }
      }
      var seat := NewShowSeat(showKey, req.seatNumber, req.user, req.bookingId, Some("booked"), now);
      var saved := ledger.Save(seat, now);
      match saved {
        case ValidationError =>
          return ServerError("ShowSeat validation failed");
        case DuplicateKey =>
          return ServerError("E11000 duplicate key error");
        case Saved(doc) =>
          if showKey in heldSeats {
            heldSeats := heldSeats[showKey := heldSeats[showKey] - {req.seatNumber}];
          }
          reply := Ok(doc);
          emits := emits + [showKey];
      }
    }

    /** The hold deletion of `/release` and of each `/release-batch` item:
        `showHolds.delete(seatNumber)` when the caller's hold is there. */
    method DropOwnHold(req: SeatRequest)
      requires Valid()
      modifies this
      ensures Valid()
      ensures heldSeats == ReleaseEffect(old(heldSeats), req)
      ensures emits == old(emits)
    {
      var showKey := req.Key();
      if showKey in heldSeats {
        var showHolds := heldSeats[showKey];
        if req.seatNumber in showHolds && showHolds[req.seatNumber].heldBy == req.user {
          heldSeats := heldSeats[showKey := showHolds - {req.seatNumber}];
        }
      }
    }

    /** `POST /release`: always a success; deletes only the caller's hold. */
    method Release(req: SeatRequest) returns (reply: Reply<()>)
      requires Valid()
      modifies this
      ensures Valid()
      ensures reply == Ok(())
      ensures heldSeats == ReleaseEffect(old(heldSeats), req)
      ensures emits == old(emits) + if heldSeats != old(heldSeats) then [req.Key()] else []
    {
      ghost var before := heldSeats;
      DropOwnHold(req);
      if heldSeats != before {
        emits := emits + [req.Key()];
      }
      reply := Ok(());
    }

    /** `POST /release-batch`. `seats` is `None` when the body's `seats` is
        missing or not an array; an item is `None` when it is `null`, and a
        number, string or boolean item is a request with every field
        absent. */
    method ReleaseBatch(seats: Option<seq<Option<SeatRequest>>>) returns (reply: Reply<string>)
      requires Valid()
      modifies this
      ensures Valid()
      ensures (seats.None? || |seats.value| == 0) ==>
                reply == BadRequest("No seats provided for release") &&
                heldSeats == old(heldSeats) && emits == old(emits)
      ensures seats.Some? && |seats.value| > 0 ==>
                heldSeats == ReleaseAll(old(heldSeats), PresentPrefix(seats.value))
      ensures seats.Some? && |seats.value| > 0 && |PresentPrefix(seats.value)| == |seats.value| ==>
                reply == Ok(ReleasedMessage(|seats.value|)) &&
                emits == old(emits) + Distinct(KeysOf(PresentPrefix(seats.value)))
      ensures seats.Some? && |PresentPrefix(seats.value)| < |seats.value| ==>
                reply == Ok("Attempted to release seats") && emits == old(emits)
    {
      if seats.None? || |seats.value| == 0 {
        return BadRequest("No seats provided for release");
      }
      var showKeys, complete := ReleaseItems(seats.value);
      if !complete {
        return Ok("Attempted to release seats");
      }
      EmitAll(showKeys);
      reply := Ok(ReleasedMessage(|seats.value|));
    }

    /** The loop of `/release-batch`: release the items in order, collecting
        their show keys first-seen first. It stops at the first `null` item,
        whose destructuring throws, which `complete` reports. */
    method ReleaseItems(items: seq<Option<SeatRequest>>) returns (showKeys: seq<string>, complete: bool)
      requires Valid()
      modifies this
      ensures Valid()
      ensures heldSeats == ReleaseAll(old(heldSeats), PresentPrefix(items))
      ensures complete <==> |PresentPrefix(items)| == |items|
      ensures showKeys == Distinct(KeysOf(PresentPrefix(items)))
      ensures emits == old(emits)
    {
      ghost var reqs := PresentPrefix(items);
      ghost var keys: seq<string> := [];
      showKeys := [];
      var i := 0;
      while i < |items| && items[i].Some?
        invariant 0 <= i <= |reqs|
        invariant heldSeats == ReleaseAll(old(heldSeats), reqs[..i])
        invariant keys == KeysOf(reqs[..i])
        invariant showKeys == Distinct(keys)
        invariant emits == old(emits)
        invariant Valid()
      {
        PresentPrefixContinues(items, i);
        var item := items[i].value;
        ReleaseAllStep(old(heldSeats), reqs, i);
        KeysStep(reqs, i);
        DistinctStep(keys, item.Key());
        if item.Key() !in showKeys {
          showKeys := showKeys + [item.Key()];
        }
        keys := keys + [item.Key()];
        DropOwnHold(item);
        i := i + 1;
      }
      PresentPrefixEnds(items, i);
      assert reqs[..i] == reqs;
      complete := i == |items|;
    }

    /** One broadcast per show key, in order. */
    method EmitAll(showKeys: seq<string>)
      modifies this
      ensures heldSeats == old(heldSeats)
      ensures emits == old(emits) + showKeys
    {
      var j := 0;
      while j < |showKeys|
        invariant 0 <= j <= |showKeys|
        invariant emits == old(emits) + showKeys[..j]
        invariant heldSeats == old(heldSeats)
      {
        emits := emits + [showKeys[j]];
        assert showKeys[..j + 1] == showKeys[..j] + [showKeys[j]];
        j := j + 1;
      }
      assert showKeys[..j] == showKeys;
    }

    /** The `setInterval` body: evict every hold with `expiresAt < now`,
        starting one broadcast per evicted seat, and drop shows left with
        no holds. `evicted` lists the evicted (showKey, seatNumber) pairs in
        eviction order. */
    method Sweep(now: int) returns (ghost evicted: seq<(string, int)>)
      requires Valid()
      modifies this
      ensures Valid()
      ensures heldSeats == Swept(old(heldSeats), now)
      ensures NoDuplicates(evicted)
      ensures forall p :: p in evicted <==> ExpiredAt(old(heldSeats), now, p)
      ensures emits == old(emits) + FirstsOf(evicted)
    {
      evicted := [];
      ghost var t0 := heldSeats;
      PartSweptDone(t0, now);
      var pending := heldSeats.Keys;
      while pending != {}
        invariant pending <= t0.Keys
        invariant heldSeats == PartSwept(t0, pending, now)
        invariant NoDuplicates(evicted)
        invariant forall p :: p in evicted <==> ExpiredAt(t0, now, p) && p.0 !in pending
        invariant emits == old(emits) + FirstsOf(evicted)
        invariant Valid()
        decreases pending
      {
        var showKey :| showKey in pending;
        var seats, gone := SweepShow(heldSeats[showKey], now);
        ghost var tagged := Tagged(showKey, gone);
        EvictedStep(t0, pending, showKey, now, evicted, gone);
        FirstsOfAppend(evicted, tagged);
        ghost var log := FirstsOf(tagged);
        assert (old(emits) + FirstsOf(evicted)) + log == old(emits) + FirstsOf(evicted + tagged);
        evicted := evicted + tagged;
        emits := emits + log;
        PartSweptStep(t0, pending, showKey, now);
        if |seats| == 0 {
          heldSeats := heldSeats - {showKey};
        } else {
          heldSeats := heldSeats[showKey := seats];
        }
        pending := pending - {showKey};
      }
    }

    /** `emitSeatStatus(showKey)`: broadcast the show's snapshot. */
    method EmitSeatStatus(showKey: string, now: int) returns (broadcast: seq<SeatView>)
      requires Valid()
      modifies this
      ensures Valid() && heldSeats == old(heldSeats)
      ensures emits == old(emits) + [showKey]
      ensures IsSnapshot(ledger.rows, HoldsOf(heldSeats, showKey), showKey, now, broadcast)
    {
      broadcast := Snapshot(ledger.rows, HoldsOf(heldSeats, showKey), showKey, now);
      emits := emits + [showKey];
    }

    /** `GET /status`: answers the snapshot, then broadcasts the same one.
        The reply and the broadcast are taken at the one instant `now`; the
        route's broadcast reads the clock again after its own queries. */
    method Status(q: StatusQuery, now: int) returns (reply: Reply<seq<SeatView>>, broadcast: seq<SeatView>)
      requires Valid()
      modifies this
      ensures Valid() && heldSeats == old(heldSeats)
      ensures (q.movie == "" || q.city == "" || q.showtime == "" || q.date == "") <==>
                reply == BadRequest("Missing required parameters")
      ensures !reply.Ok? ==> emits == old(emits) && broadcast == []
      ensures reply.Ok? ==>
                var key := ShowKey(q.movie, q.city, q.showtime, q.date);
                && IsSnapshot(ledger.rows, HoldsOf(heldSeats, key), key, now, reply.value)
                && emits == old(emits) + [key]
                && multiset(broadcast) == multiset(reply.value)
    {
      broadcast := [];
      if q.movie == "" || q.city == "" || q.showtime == "" || q.date == "" {
        return BadRequest("Missing required parameters"), broadcast;
      }
      var showKey := ShowKey(q.movie, q.city, q.showtime, q.date);
      var seats := Snapshot(ledger.rows, HoldsOf(heldSeats, showKey), showKey, now);
      reply := Ok(seats);
      broadcast := EmitSeatStatus(showKey, now);
      SnapshotsAgree(ledger.rows, HoldsOf(heldSeats, showKey), showKey, now, seats, broadcast);
    }
  }
}
