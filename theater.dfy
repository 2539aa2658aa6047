/** The seat-list logic of the `Theater` page: the show key it joins, the
    merge of a status reply with the page's local updates, the
    `seatUpdated` upsert, seat selection on click, the grid's per-seat
    status and the payment guards. The page's state is the class
    `TheaterView`; every state updater is a function over `ViewState`. The
    replies of the seat API calls are parameters. */
module Theater {
  import opened Wrappers
  import opened Strings
  import opened SeatRoutes
  import opened RequestCache

  // -----------------------------------------------------------------------
  // Show key

  /** The page's `getShowKey`: city first. */
  function ClientShowKey(city: string, movieId: string, showTime: string, date: string): (k: string)
    ensures k == ShowKey(city, movieId, showTime, date)
  {
    Join([city, movieId, showTime, date], '_')
  }

  /** The room the page joins is the server's room for the same show only
      when the city and the movie id coincide (for parts without '_'). */
  lemma ClientRoomIsServerRoomOnlyIfCityIsMovie(city: string, movieId: string, showTime: string, date: string)
    requires NoSep(city, '_') && NoSep(movieId, '_') && NoSep(showTime, '_') && NoSep(date, '_')
    requires ClientShowKey(city, movieId, showTime, date) == ShowKey(movieId, city, showTime, date)
    ensures city == movieId
  {
    ShowKeyInjective(city, movieId, showTime, date, movieId, city, showTime, date);
  }

  /** For city "Delhi" and movie "m1" the two rooms differ. */
  lemma DelhiRoomDiffers(showTime: string, date: string)
    ensures ClientShowKey("Delhi", "m1", showTime, date) != ShowKey("m1", "Delhi", showTime, date)
  {
    assert ClientShowKey("Delhi", "m1", showTime, date)[0] == 'D';
    assert ShowKey("m1", "Delhi", showTime, date)[0] == 'm';
  }

  // -----------------------------------------------------------------------
  // Seats on the page

  /** A seat of the page's list: a status reply entry, or an entry the
      `seatUpdated` event sent. `owner` is `bookedBy` or `heldBy`. */
  datatype ClientSeat = ClientSeat(seatNumber: int, status: string, timestamp: Option<int>, owner: string)

  /** A status reply entry as the page receives it: it has no timestamp. */
  function FromView(v: SeatView): (s: ClientSeat)
    ensures s.seatNumber == v.seatNumber && s.status == v.Status() && s.timestamp.None?
  {
    ClientSeat(v.seatNumber, v.Status(), None,
               if v.BookedSeat? then v.bookedBy else v.heldBy)
  }

  /** One entry of `localSeatUpdates`. */
  datatype LocalUpdate = LocalUpdate(status: string, timestamp: int)

  type LocalUpdates = map<int, LocalUpdate>

  /** `serverSeat.timestamp || 0`. */
  function TimestampOrZero(s: ClientSeat): int
  {
    if s.timestamp.Some? then s.timestamp.value else 0
  }

  /** The local update overrides the server's status when it is newer. */
  predicate Overrides(s: ClientSeat, local: LocalUpdates)
  {
    s.seatNumber in local && local[s.seatNumber].timestamp > TimestampOrZero(s)
  }

  function MergeSeat(s: ClientSeat, local: LocalUpdates): ClientSeat
  {
    if Overrides(s, local) then s.(status := local[s.seatNumber].status) else s
  }

  /** The merge in `fetchSeatData`. */
  function Merge(server: seq<ClientSeat>, local: LocalUpdates): seq<ClientSeat>
  {
    seq(|server|, i requires 0 <= i < |server| => MergeSeat(server[i], local))
  }

  /** The merge keeps the length, the order and every field but the status
      of the server's list; a status changes only to a newer local one. It
      is idempotent, and without local updates it is the identity. */
  lemma MergeProperties(server: seq<ClientSeat>, local: LocalUpdates)
    ensures |Merge(server, local)| == |server|
    ensures forall i :: 0 <= i < |server| ==>
              Merge(server, local)[i].(status := server[i].status) == server[i]
    ensures forall i :: 0 <= i < |server| ==>
              Merge(server, local)[i].status ==
              if Overrides(server[i], local) then local[server[i].seatNumber].status else server[i].status
    ensures Merge(Merge(server, local), local) == Merge(server, local)
    ensures Merge(server, map[]) == server
  {
    var m := Merge(server, local);
    assert |Merge(m, local)| == |m|;
    forall i | 0 <= i < |m| ensures Merge(m, local)[i] == m[i] {
      assert TimestampOrZero(m[i]) == TimestampOrZero(server[i]);
    }
  }

  /** A status reply carries no timestamps, so every local update with a
      positive timestamp wins over it. */
  lemma LocalWinsOverStatusReply(views: seq<SeatView>, local: LocalUpdates, i: nat)
    requires i < |views|
    requires views[i].seatNumber in local && local[views[i].seatNumber].timestamp > 0
    ensures var server := seq(|views|, k requires 0 <= k < |views| => FromView(views[k]));
            Merge(server, local)[i].status == local[views[i].seatNumber].status
  {
  }

  /** `seats.findIndex(s => s.seatNumber === n)`. */
  function FindIndex(seats: seq<ClientSeat>, n: int): (i: int)
    ensures -1 <= i < |seats|
    ensures i >= 0 ==> seats[i].seatNumber == n && forall j :: 0 <= j < i ==> seats[j].seatNumber != n
    ensures i == -1 ==> forall j :: 0 <= j < |seats| ==> seats[j].seatNumber != n
    decreases |seats|
  {
    if |seats| == 0 then -1
    else if seats[0].seatNumber == n then 0
    else
      var k := FindIndex(seats[1..], n);
      if k == -1 then -1 else k + 1
  }

  /** `seats.find(s => s.seatNumber === n)`. */
  function FindSeat(seats: seq<ClientSeat>, n: int): Option<ClientSeat>
  {
    var i := FindIndex(seats, n);
    if i >= 0 then Some(seats[i]) else None
  }

  /** The `seatUpdated` updater: replace the first seat with the same
      number, or append the seat when there is none. */
  function Upsert(prev: seq<ClientSeat>, updated: ClientSeat): seq<ClientSeat>
  {
    var i := FindIndex(prev, updated.seatNumber);
    if i >= 0 then prev[i := updated] else prev + [updated]
  }

  /** The upsert grows the list by at most one, makes the sent seat the one
      found for its number, keeps every other index, and appends only when
      the number was missing. */
  lemma UpsertProperties(prev: seq<ClientSeat>, updated: ClientSeat)
    ensures var r := Upsert(prev, updated);
            && |prev| <= |r| <= |prev| + 1
            && FindSeat(r, updated.seatNumber) == Some(updated)
            && (forall j :: 0 <= j < |prev| && j != FindIndex(prev, updated.seatNumber) ==> r[j] == prev[j])
            && (|r| == |prev| + 1 <==> FindIndex(prev, updated.seatNumber) == -1)
  {
    var r := Upsert(prev, updated);
    var i := FindIndex(prev, updated.seatNumber);
    if i == -1 {
      assert r[|prev|] == updated;
      FindIndexIsFirst(r, updated.seatNumber, |prev|);
    } else {
      FindIndexIsFirst(r, updated.seatNumber, i);
    }
  }

  /** The click updater `prev.map(...)`: every seat with that number gets
      the status, keeping its other fields; every other seat is kept. */
  function SetStatus(seats: seq<ClientSeat>, n: int, status: string): (r: seq<ClientSeat>)
    ensures |r| == |seats|
    ensures forall i :: 0 <= i < |seats| ==>
              && r[i].(status := seats[i].status) == seats[i]
              && (seats[i].seatNumber == n ==> r[i].status == status)
              && (seats[i].seatNumber != n ==> r[i] == seats[i])
  {
    seq(|seats|, i requires 0 <= i < |seats| =>
      if seats[i].seatNumber == n then seats[i].(status := status) else seats[i])
  }

  /** The first index holding the number is what `FindIndex` answers. */
  lemma FindIndexIsFirst(seats: seq<ClientSeat>, n: int, i: int)
    requires -1 <= i < |seats|
    requires i >= 0 ==> seats[i].seatNumber == n && forall j :: 0 <= j < i ==> seats[j].seatNumber != n
    requires i == -1 ==> forall j :: 0 <= j < |seats| ==> seats[j].seatNumber != n
    ensures FindIndex(seats, n) == i
  {
  }

  /** After `SetStatus`, the seat found for that number has the status, and
      every number is found at the index it was found at before. */
  lemma FindAfterSetStatus(seats: seq<ClientSeat>, n: int, status: string, m: int)
    ensures FindIndex(SetStatus(seats, n, status), m) == FindIndex(seats, m)
    ensures FindSeat(SetStatus(seats, n, status), n).Some? ==> FindSeat(SetStatus(seats, n, status), n).value.status == status
  {
    var r := SetStatus(seats, n, status);
    assert forall j :: 0 <= j < |seats| ==> r[j].seatNumber == seats[j].seatNumber;
    FindIndexIsFirst(r, m, FindIndex(seats, m));
    FindIndexIsFirst(r, n, FindIndex(seats, n));
  }

  /** `prev.filter(s => s !== n)`. */
  function Without(s: seq<int>, n: int): (r: seq<int>)
    ensures forall x :: x in r <==> x in s && x != n
    ensures n !in s ==> r == s
    decreases |s|
  {
    if |s| == 0 then []
    else if s[0] == n then Without(s[1..], n)
    else [s[0]] + Without(s[1..], n)
  }

  /** Filtering out `n` after appending it drops what was appended. */
  lemma {:induction false} WithoutAppended(s: seq<int>, n: int)
    ensures Without(s + [n], n) == Without(s, n)
    decreases |s|
  {
    if |s| > 0 {
      assert (s + [n])[1..] == s[1..] + [n];
      WithoutAppended(s[1..], n);
    }
  }

  // -----------------------------------------------------------------------
  // Grid

  /** The status shown for seat `n`: selected first, then booked by the
      server's list; anything else, a held seat included, is available. */
  function GridStatus(selected: seq<int>, seats: seq<ClientSeat>, n: int): (st: string)
    ensures st in ["selected", "booked", "available"]
    ensures st == "selected" <==> n in selected
    ensures st == "booked" <==> n !in selected && FindSeat(seats, n).Some? && FindSeat(seats, n).value.status == "booked"
  {
    if n in selected then "selected"
    else if FindSeat(seats, n).Some? && FindSeat(seats, n).value.status == "booked" then "booked"
    else "available"
  }

  /** The grid draws seats 1 to `movie.totalSeats`, or 1 to 40 when the
      movie has no (or a zero) seat count. */
  function GridSize(totalSeats: Option<nat>): (n: nat)
    ensures n >= 1
    ensures totalSeats.Some? && totalSeats.value != 0 ==> n == totalSeats.value
    ensures totalSeats.None? || totalSeats.value == 0 ==> n == 40
  {
    if totalSeats.Some? && totalSeats.value != 0 then totalSeats.value else 40
  }

  /** A seat the server reports as held is drawn as available unless the
      page has selected it. */
  lemma HeldShownAvailable(selected: seq<int>, seats: seq<ClientSeat>, n: int)
    requires n !in selected
    requires FindSeat(seats, n).Some? && FindSeat(seats, n).value.status == "held"
    ensures GridStatus(selected, seats, n) == "available"
  {
  }

  // -----------------------------------------------------------------------
  // Clicking a seat

  /** The reply of `seatAPI.hold` or `seatAPI.release` as the handler sees
      it: success, `success: false` with a message ("" when absent), or a
      thrown error. The `seatAPI` wrappers of src/services/api.js catch
      every error, the server's 400 and 409 answers included, and answer
      `Failed("Failed to hold seat")` or `Failed("Failed to release seat")`;
      so from them the handler never sees `Thrown` nor the server's own
      message. `Thrown` stands for the handler's own catch branches. */
  datatype CallResult = Succeeded | Failed(message: string) | Thrown

  datatype ViewState = ViewState(seats: seq<ClientSeat>, selected: seq<int>, local: LocalUpdates, error: string)

  function ReleaseError(r: CallResult): string
  {
    match r
    case Failed(m) => if m != "" then m else "Failed to unselect seat"
    case _ => "Network error while releasing seat"
  }

  function HoldError(r: CallResult): string
  {
    match r
    case Failed(m) => if m != "" then m else "Failed to select seat"
    case _ => "Network error while selecting seat"
  }

  /** A click the handler ignores: the server's list has the seat booked. */
  predicate IgnoredClick(st: ViewState, n: int)
  {
    FindSeat(st.seats, n).Some? && FindSeat(st.seats, n).value.status == "booked"
  }

  /** `handleSeatClick`'s state changes once the call has answered `r`. */
  function Click(st: ViewState, n: int, now: int, r: CallResult): ViewState
  {
    if IgnoredClick(st, n) then st
    else if n in st.selected then
      var st1 := st.(selected := Without(st.selected, n),
                     local := st.local[n := LocalUpdate("available", now)],
                     seats := SetStatus(st.seats, n, "available"));
      if r.Succeeded? then st1
      else st1.(selected := st1.selected + [n], error := ReleaseError(r), local := st1.local - {n})
    else
      var st1 := st.(selected := st.selected + [n],
                     local := st.local[n := LocalUpdate("selected", now)],
                     seats := SetStatus(st.seats, n, "selected"));
      if r.Succeeded? then st1
      else st1.(selected := Without(st1.selected, n), error := HoldError(r), local := st1.local - {n})
  }

  /** A click on a booked seat changes nothing. A click that the server
      accepts toggles the seat's selection and records the new status
      locally; the grid then shows the seat selected or available. */
  lemma ClickToggles(st: ViewState, n: int, now: int)
    ensures IgnoredClick(st, n) ==> Click(st, n, now, Succeeded) == st && Click(st, n, now, Thrown) == st
    ensures !IgnoredClick(st, n) ==>
              var st' := Click(st, n, now, Succeeded);
              && (n in st'.selected <==> n !in st.selected)
              && (forall x :: x != n ==> (x in st'.selected <==> x in st.selected))
              && n in st'.local
              && st'.local[n].status == (if n in st.selected then "available" else "selected")
              && GridStatus(st'.selected, st'.seats, n) == (if n in st.selected then "available" else "selected")
  {
    if !IgnoredClick(st, n) && n in st.selected {
      FindAfterSetStatus(st.seats, n, "available", n);
    }
  }

  /** A click the server refuses (or that throws) leaves the same seats
      selected and no local update for the seat, and reports an error; a
      refused selection leaves the list exactly as it was, while a refused
      deselection moves the seat to the end of the list. */
  lemma ClickFailureRestores(st: ViewState, n: int, now: int, r: CallResult)
    requires !r.Succeeded?
    requires !IgnoredClick(st, n)
    ensures var st' := Click(st, n, now, r);
            && (forall x :: x in st'.selected <==> x in st.selected)
            && n !in st'.local
            && (forall k :: k != n ==> (k in st'.local <==> k in st.local))
            && st'.error != ""
            && (n !in st.selected ==> st'.selected == st.selected)
            && (n in st.selected ==> st'.selected == Without(st.selected, n) + [n])
  {
    WithoutAppended(st.selected, n);
  }

  // -----------------------------------------------------------------------
  // Payment

  /** `handlePayment`'s guards: the error it shows before any request, if
      any. */
  function PaymentGuard(paymentMethod: string, selected: seq<int>): (e: Option<string>)
    ensures e.None? <==> paymentMethod != "" && |selected| > 0
    ensures paymentMethod == "" ==> e == Some("Please select a payment method")
    ensures paymentMethod != "" && |selected| == 0 ==> e == Some("Please select at least one seat")
  {
    if paymentMethod == "" then Some("Please select a payment method")
    else if |selected| == 0 then Some("Please select at least one seat")
    else None
  }

  // -----------------------------------------------------------------------
  // The page

  class TheaterView {
    var seats: seq<ClientSeat>
    var selectedSeats: seq<int>
    var localSeatUpdates: LocalUpdates
    var error: string
    var paymentMethod: string
    var isProcessing: bool
    /** The rooms the page has asked to join, in order. */
    ghost var joined: seq<string>

    function State(): ViewState
      reads this
    {
      ViewState(seats, selectedSeats, localSeatUpdates, error)
    }

    constructor()
      ensures seats == [] && selectedSeats == [] && localSeatUpdates == map[]
      ensures error == "" && paymentMethod == "" && !isProcessing && joined == []
    {
      seats := [];
      selectedSeats := [];
      localSeatUpdates := map[];
      error := "";
      paymentMethod := "";
      isProcessing := false;
      joined := [];
    }

    /** The part of `fetchSeatData` after the status reply: when it
        succeeded, merge it into the seat list and join the show's room. */
    method ApplyStatusReply(success: bool, server: seq<ClientSeat>,
                            city: string, movieId: string, showTime: string, date: string)
      modifies this
      ensures success ==> seats == Merge(server, old(localSeatUpdates))
                          && joined == old(joined) + [ClientShowKey(city, movieId, showTime, date)]
      ensures !success ==> seats == old(seats) && joined == old(joined)
      ensures selectedSeats == old(selectedSeats) && localSeatUpdates == old(localSeatUpdates)
      ensures error == old(error) && paymentMethod == old(paymentMethod) && isProcessing == old(isProcessing)
    {
      if success {
        seats := Merge(server, localSeatUpdates);
        joined := joined + [ClientShowKey(city, movieId, showTime, date)];
      }
    }

    /** The `seatUpdated` handler: invalidate the cached status replies,
        drop the local update of a seat already on the list, and upsert the
        seat. The backend never emits `seatUpdated` (its seat emits are all
        `seatStatusUpdate`), so this handler runs only for a server that
        does. */
    method OnSeatUpdated(updated: ClientSeat, rc: RequestCacheState)
      modifies this, rc
      ensures rc.cache == WithoutPattern(old(rc.cache), STATUS_URL)
      ensures seats == Upsert(old(seats), updated)
      ensures localSeatUpdates == if FindIndex(old(seats), updated.seatNumber) >= 0
                                  then old(localSeatUpdates) - {updated.seatNumber}
                                  else old(localSeatUpdates)
      ensures selectedSeats == old(selectedSeats) && error == old(error)
      ensures paymentMethod == old(paymentMethod) && isProcessing == old(isProcessing) && joined == old(joined)
    {
      rc.InvalidateCache();
      var i := FindIndex(seats, updated.seatNumber);
      if i >= 0 {
        if updated.seatNumber in localSeatUpdates {
          localSeatUpdates := localSeatUpdates - {updated.seatNumber};
        }
        seats := seats[i := updated];
      } else {
        seats := seats + [updated];
      }
    }

    /** `handleSeatClick` for seat `n` in the show (`movieId`, `city`):
        the optimistic update, the seat call (which first clears the
        matching cached status replies), and the rollback when the call
        answers anything but success. */
    method HandleSeatClick(n: int, now: int, movieId: string, city: string,
                           rc: RequestCacheState, r: CallResult)
      modifies this, rc
      ensures State() == Click(old(State()), n, now, r)
      ensures IgnoredClick(old(State()), n) ==> rc.cache == old(rc.cache)
      ensures !IgnoredClick(old(State()), n) ==>
                rc.cache == WithoutPattern(old(rc.cache), SeatCallPattern(movieId, city))
      ensures paymentMethod == old(paymentMethod) && isProcessing == old(isProcessing) && joined == old(joined)
    {
      var seat := FindSeat(seats, n);
      if seat.Some? && seat.value.status == "booked" {
        return;
      }
      if n in selectedSeats {
        selectedSeats := Without(selectedSeats, n);
        localSeatUpdates := localSeatUpdates[n := LocalUpdate("available", now)];
        seats := SetStatus(seats, n, "available");
        rc.BeforeSeatCall(movieId, city);
        if !r.Succeeded? {
          selectedSeats := selectedSeats + [n];
          error := ReleaseError(r);
          localSeatUpdates := localSeatUpdates - {n};
        }
      } else {
        selectedSeats := selectedSeats + [n];
        localSeatUpdates := localSeatUpdates[n := LocalUpdate("selected", now)];
        seats := SetStatus(seats, n, "selected");
        rc.BeforeSeatCall(movieId, city);
        if !r.Succeeded? {
          selectedSeats := Without(selectedSeats, n);
          error := HoldError(r);
          localSeatUpdates := localSeatUpdates - {n};
        }
      }
    }

    /** The guards of `handlePayment`: on a missing payment method or an
        empty selection, show the error and stop; otherwise clear the error,
        mark the page as processing and go on. */
    method HandlePayment() returns (proceed: bool)
      modifies this
      ensures proceed <==> PaymentGuard(old(paymentMethod), old(selectedSeats)).None?
      ensures !proceed ==> error == PaymentGuard(old(paymentMethod), old(selectedSeats)).value
                           && isProcessing == old(isProcessing)
      ensures proceed ==> error == "" && isProcessing
      ensures seats == old(seats) && selectedSeats == old(selectedSeats) && localSeatUpdates == old(localSeatUpdates)
      ensures paymentMethod == old(paymentMethod) && joined == old(joined)
    {
      if paymentMethod == "" {
        error := "Please select a payment method";
        return false;
      }
      if |selectedSeats| == 0 {
        error := "Please select at least one seat";
        return false;
      }
      isProcessing := true;
      error := "";
      proceed := true;
    }
  }
}
