/**
 * The schedule comparison: the meetings of the selected room before and
 * after the search, and whether the room selector is enabled.
 */
module Comparison {
  import opened Wrappers
  import opened Text
  import opened Runs
  import Solve

  /** `alloc[room] ?? []` */
  function SlotsIn(alloc: Allocation, room: string): seq<SlotEntry>
  {
    if room in alloc then alloc[room] else []
  }

  /**
   * The two lists compared: the selected room's meetings in the initial
   * and in the final allocation; nothing without a run or with an empty
   * room name.
   */
  function SlotLists(run: Option<SolverRun>, room: string): (r: (seq<SlotEntry>, seq<SlotEntry>))
    ensures run.None? || room == "" ==> r == ([], [])
    ensures run.Some? && room != "" ==>
      && (room in run.value.common.initialAllocation ==> r.0 == run.value.common.initialAllocation[room])
      && (room in run.value.common.finalAllocation ==> r.1 == run.value.common.finalAllocation[room])
      && (room !in run.value.common.initialAllocation ==> r.0 == [])
      && (room !in run.value.common.finalAllocation ==> r.1 == [])
  {
    if run.Some? && room != "" then
      (SlotsIn(run.value.common.initialAllocation, room), SlotsIn(run.value.common.finalAllocation, room))
    else ([], [])
  }

  /** The room selector is disabled exactly when no room is offered. */
  function SelectorDisabled(rooms: seq<string>): (d: bool)
    ensures d <==> forall x :: x !in rooms
  {
    if |rooms| == 0 then true
    else assert rooms[0] in rooms; false
  }

  /**
   * After the repairs, with rooms offered for a run whose room codes are
   * non-empty, the selected room is one of the run's rooms, so at least
   * one side of the comparison is the run's own list for that room; when
   * the selector is disabled, the room is "" and both lists are empty.
   */
  lemma RepairedRoomIsShown(run: SolverRun, rooms: seq<string>, prev: string)
    requires forall x :: x in rooms <==> x in Solve.RoomsOf(run)
    requires "" !in Solve.RoomsOf(run)
    ensures var room := Solve.RepairedRoom(rooms, prev);
      var lists := SlotLists(Some(run), room);
      && (SelectorDisabled(rooms) ==> lists == ([], []))
      && (!SelectorDisabled(rooms) ==>
            && room in Solve.RoomsOf(run)
            && (room in run.common.initialAllocation ==> lists.0 == run.common.initialAllocation[room])
            && (room in run.common.finalAllocation ==> lists.1 == run.common.finalAllocation[room]))
  {
    var room := Solve.RepairedRoom(rooms, prev);
    if !SelectorDisabled(rooms) {
      assert room in rooms;
    }
  }
}
