# Hotel simulation: room registry and activity tally

The hotel simulation runs five guest threads, a check-in clerk and a
check-out clerk. They share two tables, and this project models those tables
and the three operations that update them.

- The **room registry** `roomAvailability` holds three occupancy flags. A flag
  is 0 when its room is open and 1 when it is full.
  - The check-in clerk (`checkAndAssignRoom`) scans the flags from the lowest
    index up. It marks the first open room full, writes that index into the
    guest's room key, and stops.
  - The check-out clerk (`checkGuestOut`) opens the room whose key the guest
    hands back.
- The **activity tally** `activityCounter` holds four counters. They follow the
  order of the four activity names: Pool, Restaurant, Fitness center and
  Business center. A guest's activity (`guestExecuteHotelActivity`) adds one
  to the counter of every name equal to the chosen activity.

The project has three modules:

- `Registry` (registry.dfy) states the registry's meaning on sequences of
  flags. It has the occupied count, the first-fit choice, the registry after an
  assignment and the registry after a release, plus lemmas relating them.
- `Tally` (tally.dfy) does the same for the counters. It also covers a whole run
  of guests, each doing one activity.
- `HotelSim` (hotel.dfy) holds the class `Hotel`. The class keeps the two tables
  as `array<int>` fields, which the three operations update in place. Check-in
  and the activity tally keep the program's loops; check-out is the program's
  single write. Each operation's `ensures` equates the new array contents
  with the matching specification function of the old contents. The
  sequential method `SoloStay` chains check-in, activity and check-out for one
  guest.

The guest record `struct guest_data` (hotelsim.cpp:36-41) is the datatype
`HotelSim.GuestData`. The in and out mailbox records `shared_guest_in` and
`shared_guest_out` (hotelsim.cpp:80-81) are modelled as a `GuestData` value. The
operation takes it as a parameter. The check-in operation returns it with the
new room key. The four activity names (hotelsim.cpp:76) are the constant
`Tally.Activities`. The name comparison `activities[i].compare(activity) == 0`
(hotelsim.cpp:220) is the helper `Tally.Hit`.

## Model

| member | source | states |
|---|---|---|
| Registry.Occupied | hotelsim.cpp:82 | The number of occupied rooms never exceeds the number of rooms. It is zero exactly when every flag is open. |
| Registry.FirstFree | hotelsim.cpp:273-276 | The scan picks an index whose flag is open, and every lower flag is taken. It picks nothing exactly when no flag is open. |
| Registry.OccupiedUpdate | hotelsim.cpp:279 | Writing one flag changes the occupied count only by the difference between that room's old and new marks. |
| Registry.NoFreeRoomIffAllOccupied | hotelsim.cpp:272-284 | The scan finds no room if and only if every room is occupied. |
| Registry.AfterAssign | hotelsim.cpp:271-284 | On success, the chosen flag becomes full and every other flag is unchanged. On failure, the registry is unchanged. The length never changes. A success adds exactly one occupied room. |
| Registry.Released | hotelsim.cpp:316-323 | The returned room's flag becomes open and every other flag is unchanged. The occupied count drops by one when that room was taken. |
| Registry.AssignThenReleaseRestores | hotelsim.cpp:276-321 | Assigning a room and then releasing the key just issued restores the original registry. |
| Registry.ReleaseIdempotent | hotelsim.cpp:321 | Releasing the same room twice gives the same registry as releasing it once. |
| Registry.AssignWithinCapacity | hotelsim.cpp:271-284 | While fewer rooms are occupied than exist, the scan succeeds. The occupied count then rises by one and stays within capacity. |
| Registry.FullRegistryUnchanged | hotelsim.cpp:272-284 | When every room is occupied, the scan finds nothing and leaves the registry as it was. |
| Tally.ActivitiesDistinct | hotelsim.cpp:76 | The four activity names are pairwise distinct, so at most one counter can match a given activity. |
| Tally.Tallied | hotelsim.cpp:219-223 | Tallying an activity keeps exactly one counter per activity. |
| Tally.TallyMatching | hotelsim.cpp:219-222 | When the activity equals the k-th name, counter k rises by one and the other three are unchanged. |
| Tally.TallyUnknown | hotelsim.cpp:219-223 | An activity that matches none of the four names leaves every counter unchanged. |
| Tally.TalliedSum | hotelsim.cpp:219-222 | The counters' total rises by one exactly when the activity is one of the four names. |
| Tally.TallyRun | hotelsim.cpp:105-121 | A run of guests, each doing its activity in turn, leaves one counter per activity. The model runs the guests one after another. |
| Tally.TallyRunCounts | hotelsim.cpp:355-362 | After a run in which the increments happen one at a time, each counter has risen by the number of guests who chose its activity. |
| Tally.TallyRunSum | hotelsim.cpp:355-362 | When every guest chose one of the four activities, the counters' total rises by the number of guests. |
| Tally.RacedPair | hotelsim.cpp:219-222 | Two guests' unlocked increments, with both loading a counter before either stores it back, keep one counter per activity. |
| Tally.LostUpdate | hotelsim.cpp:221 | Under that interleaving, two guests with the same activity raise its counter by one, where one after the other raises it by two. |
| Tally.RaceHarmlessForDistinctActivities | hotelsim.cpp:219-222 | Under that interleaving, two guests with different activities give the same counters as one after the other. |
| Tally.FiveGuestExample | hotelsim.cpp:358-361 | Guests choosing Pool, Pool, Restaurant, Fitness center and Business center give the counts 2, 1, 1 and 1. |
| HotelSim.Hotel.constructor | hotelsim.cpp:76-82 | The hotel starts with three open rooms and four zero counters. |
| HotelSim.Hotel.CheckAndAssignRoom | hotelsim.cpp:271-287 | The registry becomes the first-fit assignment of its old contents. `found` tells whether an open room existed. The returned guest carries the lowest open index as its key, or keeps its old key when every room is full. |
| HotelSim.Hotel.CheckGuestOut | hotelsim.cpp:316-323 | It requires that the key indexes the registry. The registry becomes its old contents with that room opened. |
| HotelSim.Hotel.GuestExecuteHotelActivity | hotelsim.cpp:217-225 | The counters become the tally of their old contents for the given activity. |
| HotelSim.SoloStay | hotelsim.cpp:146-178 | One guest's check-in, activity and check-out, with no one else in between, leave the registry as it was. The counters become the tally of the guest's activity, so their total rises by one. |

## Left out

- Threads, semaphores and the wait/post choreography of `guest`, `checkin`, `checkout`, `main` and `initializeAllSemaphores` are left out. The subject of that code is concurrency. The `roomDesignation` mutex around each registry write has no effect in a sequential model.
- `getRandomActivity` is left out, because it uses `rand()`. The activity is an input instead. `hotelsim.cpp` indexes a four-name array with `rand() % 5`, which can read one past its end; the model does not reproduce that read.
- The `sleep((rand() % 3) + 1)` in `guestExecuteHotelActivity` is left out because it only affects timing. Its `guest_id` parameter is used only for printing, so the model does not take it either.
- All `printf` narration and `printHotelResults` are left out. `Tally.TallyRunCounts` states the counts that `printHotelResults` would print if the increments happened one at a time.
- `setSharedGuestInfo_In` and `setSharedGuestInfo_Out` are left out. They only copy a guest record into a shared slot for the thread handoff. The record is passed as a parameter instead.
- The error exits on thread-creation failure in `main` are process plumbing and are left out.
- Tally.TallyRun: the model runs guests one after another. In the program, up to three guests can run the tally at the same time, because a guest holds only a room permit while it does its activity (hotelsim.cpp:159-165, 338). No lock guards `activityCounter[i]++` (hotelsim.cpp:221), so increments can be lost. `Tally.RacedPair` models only the two-guest interleaving in which both guests load a counter before either stores it; other interleavings and the C++ data race itself are not modelled. The counters are unbounded integers; the program's `int` counters (hotelsim.cpp:77) can overflow, and the model does not capture that.
- HotelSim.Hotel.CheckGuestOut: the program does not check the key. Using the initial key -1, or any out-of-range key, is undefined behaviour, so the model requires a key in range.

## Findings

| source | as written | input that shows it | evidently intended | confidence | as-written member | corrected member |
|---|---|---|---|---|---|---|
| hotelsim.cpp:221 | `activityCounter[i]++` runs with no lock while up to three guests are inside the hotel | two guests who both chose Pool, each loading counter 0 before either stores it: the counter rises by 1 | each guest's activity raises its counter by one, so the final counts match the guests' choices | not executed | Tally.LostUpdate | Tally.TallyRunCounts |
