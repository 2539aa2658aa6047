/** The in-memory hold table `heldSeats`: showKey -> (seatNumber -> hold),
    and the pure operations on it that the seat routes and the expiry
    sweep are specified by. Times are milliseconds. */
module HoldTables {
  import opened Wrappers

  /** `HOLD_TIMEOUT = 5 * 60 * 1000`. */
  const HOLD_TIMEOUT: int := 5 * 60 * 1000

  datatype Hold = Hold(heldBy: string, expiresAt: int)

  type ShowHolds = map<int, Hold>
  type HoldTable = map<string, ShowHolds>

  /** `heldSeats.get(showKey)?.get(seatNumber)`. */
  function GetHold(t: HoldTable, showKey: string, seatNumber: int): Option<Hold>
  {
    if showKey in t && seatNumber in t[showKey] then Some(t[showKey][seatNumber]) else None
  }

  /** `heldSeats.get(showKey) || new Map()`. */
  function HoldsOf(t: HoldTable, showKey: string): ShowHolds
  {
    if showKey in t then t[showKey] else map[]
  }

  /** The sequence `/hold` runs on success: create the show's map when it
      is missing, then `showHolds.set(seatNumber, h)`. */
  function PutHold(t: HoldTable, showKey: string, seatNumber: int, h: Hold): (t': HoldTable)
    ensures t'.Keys == t.Keys + {showKey}
    ensures GetHold(t', showKey, seatNumber) == Some(h)
    ensures forall k, s :: (k != showKey || s != seatNumber) ==> GetHold(t', k, s) == GetHold(t, k, s)
  {
    t[showKey := HoldsOf(t, showKey)[seatNumber := h]]
  }

  /** `showHolds.delete(seatNumber)` on an existing show map; no show map
      is created or removed. */
  function DeleteHold(t: HoldTable, showKey: string, seatNumber: int): (t': HoldTable)
    ensures t'.Keys == t.Keys
    ensures GetHold(t', showKey, seatNumber) == None
    ensures forall k, s :: (k != showKey || s != seatNumber) ==> GetHold(t', k, s) == GetHold(t, k, s)
  {
    if showKey in t then t[showKey := t[showKey] - {seatNumber}] else t
  }

  /** The test `/hold` refuses on: another user's hold that has not yet
      expired (`expiresAt > now`). */
  predicate HeldByOther(h: Hold, user: string, now: int)
  {
    h.heldBy != user && h.expiresAt > now
  }

  /** A hold the status snapshot still reports (`expiresAt > now`). */
  predicate Live(h: Hold, now: int)
  {
    h.expiresAt > now
  }

  /** A hold the sweep evicts (`expiresAt < now`). */
  predicate Expired(h: Hold, now: int)
  {
    h.expiresAt < now
  }

  /** `(showKey, seatNumber)` is a hold the sweep at `now` evicts. */
  predicate ExpiredAt(t: HoldTable, now: int, p: (string, int))
  {
    p.0 in t && p.1 in t[p.0] && Expired(t[p.0][p.1], now)
  }

  /** One show's map after the sweep's inner loop. */
  function SweptShow(m: ShowHolds, now: int): (m': ShowHolds)
    ensures forall s :: s in m' <==> s in m && !Expired(m[s], now)
    ensures forall s :: s in m' ==> m'[s] == m[s]
  {
    map s | s in m && !Expired(m[s], now) :: m[s]
  }

  /** The whole table after a sweep: expired holds dropped, shows left
      without holds dropped. */
  function Swept(t: HoldTable, now: int): HoldTable
  {
    map k | k in t && SweptShow(t[k], now) != map[] :: SweptShow(t[k], now)
  }

  /** After a sweep at `now` no hold with `expiresAt < now` remains, every
      other hold is unchanged, and no show is left with an empty map. */
  lemma SweptExact(t: HoldTable, now: int)
    ensures forall k, s :: GetHold(Swept(t, now), k, s) ==
              if GetHold(t, k, s).Some? && !Expired(GetHold(t, k, s).value, now)
              then GetHold(t, k, s) else None
    ensures forall k :: k in Swept(t, now) ==> Swept(t, now)[k] != map[]
  {
    forall k, s ensures GetHold(Swept(t, now), k, s) ==
              if GetHold(t, k, s).Some? && !Expired(GetHold(t, k, s).value, now)
              then GetHold(t, k, s) else None
    {
      if k in t && s in t[k] && !Expired(t[k][s], now) {
        assert s in SweptShow(t[k], now);
      }
    }
  }

  /** A sweep is idempotent at a fixed time. */
  lemma SweptIdempotent(t: HoldTable, now: int)
    ensures Swept(Swept(t, now), now) == Swept(t, now)
  {
    var t1 := Swept(t, now);
    forall k | k in t1 ensures SweptShow(t1[k], now) == t1[k] {
    }
  }
}
