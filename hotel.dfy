/**
 * The hotel's shared state as the two clerks and the guests update it: the
 * room registry (three occupancy flags) and the activity counters (four
 * counts). Each operation changes its array in place, step by step, and its
 * contract ties the new contents to the specification functions of the
 * Registry and Tally modules.
 */
module HotelSim {
  import opened Registry
  import opened Tally

  /** What a guest carries to the clerks: identity, money, chosen activity and room key. */
  datatype GuestData = GuestData(id: int, money: int, activity: string, roomKey: int)

  class Hotel {
    /** Occupancy flags, one per room: Open (0) or Full (1). */
    const roomAvailability: array<int>
    /** One counter per entry of Activities, in the same order. */
    const activityCounter: array<int>

    ghost predicate Valid()
      reads this
    {
      roomAvailability.Length == RoomCount &&
      activityCounter.Length == |Activities| &&
      roomAvailability != activityCounter
    }

    /** All rooms open and every activity counted zero times. */
    constructor ()
      ensures Valid()
      ensures fresh(roomAvailability) && fresh(activityCounter)
      ensures roomAvailability[..] == [Open, Open, Open]
      ensures activityCounter[..] == [0, 0, 0, 0]
      ensures Occupied(roomAvailability[..]) == 0
    {
      roomAvailability := new int[3] [Open, Open, Open];
      activityCounter := new int[4] [0, 0, 0, 0];
    }

    /**
     * The check-in clerk's scan: the first open room is marked full and its
     * index becomes the guest's key; with no open room, neither the registry
     * nor the key changes and `found` stays false.
     */
    method CheckAndAssignRoom(guest: GuestData) returns (found: bool, updated: GuestData)
      requires Valid()
      modifies roomAvailability
      ensures roomAvailability[..] == AfterAssign(old(roomAvailability[..]))
      ensures found == FirstFree(old(roomAvailability[..])).Some?
      ensures updated == if found then guest.(roomKey := FirstFree(old(roomAvailability[..])).value) else guest
    {
      found, updated := false, guest;
      var i := 0;
      while i < roomAvailability.Length
        invariant 0 <= i <= roomAvailability.Length
        invariant roomAvailability[..] == old(roomAvailability[..])
        invariant forall j :: 0 <= j < i ==> roomAvailability[j] != Open
        invariant !found && updated == guest
      {
        if roomAvailability[i] == Open {
          updated := updated.(roomKey := i);
          roomAvailability[i] := Full;
          found := true;
          break;
        }
        i := i + 1;
      }
    }

    /**
     * The check-out clerk opens the room whose key the guest hands back; no
     * other flag changes. The key must index the registry: a guest who never
     * checked in still holds its initial key -1, which the program would use
     * as an out-of-range index.
     */
    method CheckGuestOut(guest: GuestData)
      requires Valid()
      requires 0 <= guest.roomKey < roomAvailability.Length
      modifies roomAvailability
      ensures roomAvailability[..] == Released(old(roomAvailability[..]), guest.roomKey)
    {
      roomAvailability[guest.roomKey] := Open;
    }

    /** The tally step of a guest's activity: every counter whose name equals `activity` goes up by one. */
    method GuestExecuteHotelActivity(activity: string)
      requires Valid()
      modifies activityCounter
      ensures activityCounter[..] == Tallied(old(activityCounter[..]), activity)
    {
      var i := 0;
      while i < 4
        invariant 0 <= i <= 4
        invariant forall j :: 0 <= j < 4 ==>
          activityCounter[j] == old(activityCounter[j]) + (if j < i then Hit(activity, j) else 0)
      {
        if Activities[i] == activity {
          activityCounter[i] := activityCounter[i] + 1;
        }
        i := i + 1;
      }
    }
  }

  /**
   * One guest's stay with the hotel to itself: check-in, the activity, and
   * check-out with the key just issued leave the registry as it was, tally
   * the guest's activity and so raise the counters' total by one.
   */
  method SoloStay(h: Hotel, guest: GuestData)
    requires h.Valid()
    requires guest.activity in Activities
    requires Occupied(h.roomAvailability[..]) < RoomCount
    modifies h.roomAvailability, h.activityCounter
    ensures h.roomAvailability[..] == old(h.roomAvailability[..])
    ensures h.activityCounter[..] == Tallied(old(h.activityCounter[..]), guest.activity)
    ensures Sum(h.activityCounter[..]) == old(Sum(h.activityCounter[..])) + 1
  {
    ghost var before := h.roomAvailability[..];
    AssignWithinCapacity(before);
    var found, inside := h.CheckAndAssignRoom(guest);
    AssignThenReleaseRestores(before);
    h.GuestExecuteHotelActivity(inside.activity);
    TalliedSum(old(h.activityCounter[..]), guest.activity);
    h.CheckGuestOut(inside);
  }
}
