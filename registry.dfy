/**
 * The hotel's room registry: an ordered sequence of occupancy flags, one per
 * room, where 0 means the room is open and anything else (the program only
 * ever writes 1) means it is full. The check-in clerk claims the lowest open
 * room; the check-out clerk opens the room whose key it is handed back.
 */
module Registry {

  datatype Option<T> = None | Some(value: T)

  /** Flag value of an open room. */
  const Open: int := 0
  /** Flag value the check-in clerk writes into a room it assigns. */
  const Full: int := 1
  /** Number of rooms in the hotel (the registry starts as three open flags). */
  const RoomCount: nat := 3

  /** 1 when a flag marks its room as taken, 0 when the room is open. */
  function Mark(flag: int): nat
  {
    if flag != Open then 1 else 0
  }

  /** Number of rooms currently occupied. */
  function Occupied(flags: seq<int>): (n: nat)
    ensures n <= |flags|
    ensures n == 0 <==> forall j :: 0 <= j < |flags| ==> flags[j] == Open
  {
    if |flags| == 0 then 0 else Mark(flags[0]) + Occupied(flags[1..])
  }

  /**
   * The room the first-fit scan picks: the lowest index whose flag is open,
   * or None when every room is taken.
   */
  function FirstFree(flags: seq<int>): (r: Option<nat>)
    ensures r.Some? ==> r.value < |flags| && flags[r.value] == Open
    ensures r.Some? ==> forall j :: 0 <= j < r.value ==> flags[j] != Open
    ensures r.None? ==> forall j :: 0 <= j < |flags| ==> flags[j] != Open
  {
    if |flags| == 0 then None
    else if flags[0] == Open then Some(0)
    else match FirstFree(flags[1..])
      case None => None
      case Some(k) => Some(k + 1)
  }

  /** Writing one flag changes the occupied count only by that room's own mark. */
  lemma {:induction false} OccupiedUpdate(flags: seq<int>, k: int, v: int)
    requires 0 <= k < |flags|
    ensures Occupied(flags[k := v]) == Occupied(flags) - Mark(flags[k]) + Mark(v)
  {
    if k == 0 {
      assert flags[k := v][1..] == flags[1..];
    } else {
      assert flags[k := v][1..] == flags[1..][k - 1 := v];
      OccupiedUpdate(flags[1..], k - 1, v);
    }
  }

  /** The scan finds no room exactly when every room is occupied. */
  lemma {:induction false} NoFreeRoomIffAllOccupied(flags: seq<int>)
    ensures FirstFree(flags).None? <==> Occupied(flags) == |flags|
  {
    if |flags| > 0 {
      NoFreeRoomIffAllOccupied(flags[1..]);
    }
  }

  /**
   * The registry after the check-in clerk's scan: the lowest open room
   * becomes full and nothing else changes; a registry with no open room is
   * left as it is. A successful assignment occupies exactly one more room.
   */
  function AfterAssign(flags: seq<int>): (r: seq<int>)
    ensures |r| == |flags|
    ensures FirstFree(flags).Some? ==>
      r[FirstFree(flags).value] == Full &&
      forall j :: 0 <= j < |r| && j != FirstFree(flags).value ==> r[j] == flags[j]
    ensures FirstFree(flags).None? ==> r == flags
    ensures Occupied(r) == Occupied(flags) + (if FirstFree(flags).Some? then 1 else 0)
  {
    match FirstFree(flags)
    case None => flags
    case Some(k) =>
      OccupiedUpdate(flags, k, Full);
      flags[k := Full]
  }

  /**
   * The registry after the check-out clerk opens room `key`: that flag is
   * open, every other flag is unchanged, and the occupied count drops by one
   * when the room was taken.
   */
  function Released(flags: seq<int>, key: int): (r: seq<int>)
    requires 0 <= key < |flags|
    ensures |r| == |flags|
    ensures r[key] == Open
    ensures forall j :: 0 <= j < |r| && j != key ==> r[j] == flags[j]
    ensures Occupied(r) == Occupied(flags) - Mark(flags[key])
  {
    OccupiedUpdate(flags, key, Open);
    flags[key := Open]
  }

  /** Checking a guest in and then out again with the key just issued restores the registry. */
  lemma AssignThenReleaseRestores(flags: seq<int>)
    requires FirstFree(flags).Some?
    ensures Released(AfterAssign(flags), FirstFree(flags).value) == flags
  {
  }

  /** Opening the same room twice is the same as opening it once. */
  lemma ReleaseIdempotent(flags: seq<int>, key: int)
    requires 0 <= key < |flags|
    ensures Released(Released(flags, key), key) == Released(flags, key)
  {
  }

  /**
   * A guest holding one of the room permits finds a room: as long as fewer
   * guests are inside than there are rooms, the scan succeeds and its result
   * still fits the capacity.
   */
  lemma AssignWithinCapacity(flags: seq<int>)
    requires Occupied(flags) < |flags|
    ensures FirstFree(flags).Some?
    ensures Occupied(AfterAssign(flags)) == Occupied(flags) + 1 <= |flags|
  {
  }

  /** When every room is full, the scan changes nothing. */
  lemma FullRegistryUnchanged(flags: seq<int>)
    requires Occupied(flags) == |flags|
    ensures FirstFree(flags).None?
    ensures AfterAssign(flags) == flags
  {
  }
}
