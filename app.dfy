/**
 * The dashboard's state and its update tick: the current room snapshot
 * and the alert count, replaced together on every interval tick. The
 * alert count counts the rooms whose readings fall in a critical band;
 * rooms that are only in a warning band are not counted.
 */
module App {
  import opened RoomCard
  import opened MockData

  /** The filter predicate of the tick: a critical temperature or a critical humidity. */
  predicate IsCriticalReading(room: RoomData) {
    (room.temperature < 18.0 || room.temperature > 28.0) || (room.humidity < 35.0 || room.humidity > 65.0)
  }

  /** The status the room card shows for a room. */
  function RoomStatus(room: RoomData): Status {
    GetStatus(room.temperature, room.humidity)
  }

  /** `rooms.filter(IsCriticalReading)`: the critical rooms, in their order. */
  function CriticalRooms(rooms: seq<RoomData>): (r: seq<RoomData>)
    ensures |r| <= |rooms|
  {
    if rooms == [] then []
    else
      var init := rooms[..|rooms| - 1];
      var last := rooms[|rooms| - 1];
      CriticalRooms(init) + (if IsCriticalReading(last) then [last] else [])
  }

  /** The filter keeps every critical room and nothing else. */
  lemma {:induction false} CriticalRoomsMembers(rooms: seq<RoomData>)
    ensures forall x :: x in CriticalRooms(rooms) ==> x in rooms && IsCriticalReading(x)
    ensures forall x :: x in rooms && IsCriticalReading(x) ==> x in CriticalRooms(rooms)
  {
    if rooms != [] {
      var init := rooms[..|rooms| - 1];
      CriticalRoomsMembers(init);
      assert rooms == init + [rooms[|rooms| - 1]];
    }
  }

  /** `filter(...).length`: the number of critical rooms. */
  function AlertCount(rooms: seq<RoomData>): (n: nat)
    ensures n <= |rooms|
  {
    |CriticalRooms(rooms)|
  }

  /** The positions of the rooms the room card would label critical. */
  function CriticalIndices(rooms: seq<RoomData>): set<int> {
    set i | 0 <= i < |rooms| && RoomStatus(rooms[i]) == Critical
  }

  /** The tick's inline filter flags a room exactly when the card labels it critical; warning rooms are not flagged. */
  lemma CriticalReadingIsCriticalStatus(room: RoomData)
    ensures IsCriticalReading(room) <==> RoomStatus(room) == Critical
    ensures RoomStatus(room) == Warning ==> !IsCriticalReading(room)
  {
  }

  /** The positions of the rooms the tick's filter flags. */
  function FlaggedIndices(rooms: seq<RoomData>): set<int> {
    set i | 0 <= i < |rooms| && IsCriticalReading(rooms[i])
  }

  /** The length of the filtered list is the number of positions the filter flags. */
  lemma {:induction false} AlertCountIsFlaggedCount(rooms: seq<RoomData>)
    ensures AlertCount(rooms) == |FlaggedIndices(rooms)|
  {
    if rooms != [] {
      var n := |rooms| - 1;
      var init := rooms[..n];
      var before := FlaggedIndices(init);
      AlertCountIsFlaggedCount(init);
      assert n !in before;
      if IsCriticalReading(rooms[n]) {
        assert AlertCount(rooms) == AlertCount(init) + 1;
        assert FlaggedIndices(rooms) == before + {n} by {
          assert forall i :: 0 <= i < n ==> init[i] == rooms[i];
        }
        assert |before + {n}| == |before| + 1;
      } else {
        assert AlertCount(rooms) == AlertCount(init);
        assert FlaggedIndices(rooms) == before by {
          assert forall i :: 0 <= i < n ==> init[i] == rooms[i];
        }
      }
    }
  }

  /** The alert count is the number of rooms whose status is critical. */
  lemma AlertCountIsCriticalStatusCount(rooms: seq<RoomData>)
    ensures AlertCount(rooms) == |CriticalIndices(rooms)|
  {
    AlertCountIsFlaggedCount(rooms);
    forall i | 0 <= i < |rooms|
      ensures IsCriticalReading(rooms[i]) <==> RoomStatus(rooms[i]) == Critical
    {
      CriticalReadingIsCriticalStatus(rooms[i]);
    }
    assert FlaggedIndices(rooms) == CriticalIndices(rooms);
  }

  /** The seed snapshot has exactly one critical room, room-b; the others are safe. */
  lemma InitialCriticalRooms(now: int)
    ensures var rooms := GetInitialRoomData(now);
      && (forall i :: 0 <= i < |rooms| ==> (RoomStatus(rooms[i]) == Critical <==> rooms[i].id == "room-b"))
      && RoomStatus(rooms[0]) == Safe && RoomStatus(rooms[2]) == Safe && RoomStatus(rooms[3]) == Safe
  {
  }

  /** The hard-coded initial alert count of 1 is the count of the seed snapshot. */
  lemma InitialAlertCount(now: int)
    ensures AlertCount(GetInitialRoomData(now)) == 1
  {
    var rooms := GetInitialRoomData(now);
    var a, b, c, d := rooms[0], rooms[1], rooms[2], rooms[3];
    assert [a][..0] == [] && [a, b][..1] == [a] && [a, b, c][..2] == [a, b] && rooms[..3] == [a, b, c];
    assert CriticalRooms([a]) == [];
    assert CriticalRooms([a, b]) == [b];
    assert CriticalRooms([a, b, c]) == [b];
  }

  /**
   * One tick from the seed snapshot, whatever the draws: the simulator
   * cannot lower room-b's humidity below 67 in one step, so room-b stays
   * critical, while the three safe rooms cannot reach a critical band, so
   * the published count is exactly 1.
   */
  lemma FirstTickFromSeed(t0: int, draws: seq<RoomDraw>, now: int)
    requires |draws| == 4
    ensures var u := UpdateRoomData(GetInitialRoomData(t0), draws, now);
      u[1].id == "room-b" && RoomStatus(u[1]) == Critical && AlertCount(u) == 1
  {
    var u := UpdateRoomData(GetInitialRoomData(t0), draws, now);
    AlertCountIsCriticalStatusCount(u);
    assert RoomStatus(u[0]) != Critical;
    assert RoomStatus(u[1]) == Critical;
    assert RoomStatus(u[2]) != Critical;
    assert RoomStatus(u[3]) != Critical;
    assert CriticalIndices(u) == {1};
  }

  /**
   * After an update no room is flagged for a low temperature: the clamp
   * keeps temperatures at 18 or above, so only a high temperature or a
   * critical humidity can flag a room.
   */
  lemma NoLowTemperatureAlertAfterUpdate(rooms: seq<RoomData>, draws: seq<RoomDraw>, now: int)
    requires |draws| == |rooms|
    ensures var updated := UpdateRoomData(rooms, draws, now);
      forall i :: 0 <= i < |updated| ==>
        updated[i].temperature >= 18.0 &&
        (IsCriticalReading(updated[i]) <==> updated[i].temperature > 28.0 || updated[i].humidity < 35.0 || updated[i].humidity > 65.0)
  {
  }

  /**
   * The dashboard state: the current snapshot and the alert count shown on
   * the bell. The count always matches the snapshot, and every reading is
   * within the simulator's clamp bounds.
   */
  class Monitor {
    var rooms: seq<RoomData>
    var alertCount: nat

    /**
     * An invariant of every reachable state: the constructor establishes it
     * and `Tick` re-establishes it from any state, so no method needs to
     * require it.
     */
    ghost predicate Valid()
      reads this
    {
      alertCount == AlertCount(rooms) && AllInBounds(rooms)
    }

    /** The initial state: the seed snapshot and an alert count of 1. */
    constructor (now: int)
      ensures rooms == GetInitialRoomData(now)
      ensures alertCount == 1
      ensures Valid()
    {
      rooms := GetInitialRoomData(now);
      alertCount := 1;
      InitialAlertCount(now);
      InitialRoomsShape(now);
    }

    /**
     * One interval tick: replace the snapshot by its update and set the
     * alert count from the new snapshot.
     */
    method Tick(draws: seq<RoomDraw>, now: int)
      requires |draws| == |rooms|
      modifies this
      ensures rooms == UpdateRoomData(old(rooms), draws, now)
      ensures alertCount == AlertCount(rooms) && alertCount <= |rooms|
      ensures |rooms| == |old(rooms)|
      ensures forall i :: 0 <= i < |rooms| ==> rooms[i].id == old(rooms)[i].id && rooms[i].name == old(rooms)[i].name
      ensures alertCount == |CriticalIndices(rooms)|
      ensures Valid()
    {
      var updated := UpdateRoomData(rooms, draws, now);
      var criticalCount := |CriticalRooms(updated)|;
      alertCount := criticalCount;
      rooms := updated;
      AlertCountIsCriticalStatusCount(rooms);
    }
  }
}
