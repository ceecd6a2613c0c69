/**
 * The back end's schedule representation: a meeting slot is a room and a
 * one-day hour interval, a schedule maps each class code to the list of
 * its meeting slots. The search objective is taken as a function of each
 * class's slots as a multiset, so it does not see the order of a list.
 */
module Slots {
  datatype Slot = Slot(room: string, day: string, start: int, end: int)

  /** `slot_kuliah`: class code to its meeting slots. */
  type Schedule = map<string, seq<Slot>>

  /** A schedule up to the order of each class's list. */
  type Bags = map<string, multiset<Slot>>

  /** The objective to minimise (left uninterpreted). */
  type Objective = Bags -> real

  function BagsOf(sk: Schedule): (b: Bags)
    ensures b.Keys == sk.Keys
    ensures forall k :: k in sk ==> b[k] == multiset(sk[k])
  {
    map k | k in sk :: multiset(sk[k])
  }

  /** The one-hour slots of one room, in start-time order. */
  function RoomSlots(room: string, startTimes: seq<(string, int)>): (r: seq<Slot>)
    ensures |r| == |startTimes|
    ensures forall j :: 0 <= j < |r| ==>
      r[j] == Slot(room, startTimes[j].0, startTimes[j].1, startTimes[j].1 + 1)
  {
    seq(|startTimes|, j requires 0 <= j < |startTimes| =>
      Slot(room, startTimes[j].0, startTimes[j].1, startTimes[j].1 + 1))
  }

  predicate OnGrid(s: Slot, rooms: seq<string>, startTimes: seq<(string, int)>)
  {
    s.room in rooms && (s.day, s.start) in startTimes && s.end == s.start + 1
  }

  /** Every meeting of the schedule is on the grid. */
  predicate SlotsOnGrid(sk: Schedule, rooms: seq<string>, startTimes: seq<(string, int)>)
  {
    forall k, s :: k in sk && s in sk[k] ==> OnGrid(s, rooms, startTimes)
  }

  /** A slot belongs to a room's row exactly when it is that room's one-hour slot at a listed start time. */
  lemma RoomSlotsMembers(room: string, startTimes: seq<(string, int)>)
    ensures forall s :: s in RoomSlots(room, startTimes) <==>
      s.room == room && (s.day, s.start) in startTimes && s.end == s.start + 1
  {
    var r := RoomSlots(room, startTimes);
    forall s: Slot | s.room == room && (s.day, s.start) in startTimes && s.end == s.start + 1
      ensures s in r
    {
      var j :| 0 <= j < |startTimes| && startTimes[j] == (s.day, s.start);
      assert r[j] == s;
    }
  }

  /**
   * `_all_possible_slots`: for each room in order, for each start time in
   * order, the one-hour slot there.
   */
  function AllSlots(rooms: seq<string>, startTimes: seq<(string, int)>): (r: seq<Slot>)
    ensures forall s :: s in r <==> OnGrid(s, rooms, startTimes)
  {
    if rooms == [] then []
    else
      RoomSlotsMembers(rooms[0], startTimes);
      assert forall x :: x in rooms <==> x == rooms[0] || x in rooms[1..];
      RoomSlots(rooms[0], startTimes) + AllSlots(rooms[1..], startTimes)
  }

  /** The grid has one slot per room and start time. */
  lemma {:induction false} AllSlotsLength(rooms: seq<string>, startTimes: seq<(string, int)>)
    ensures |AllSlots(rooms, startTimes)| == |rooms| * |startTimes|
  {
    if rooms != [] {
      AllSlotsLength(rooms[1..], startTimes);
      assert |rooms| * |startTimes| == |startTimes| + (|rooms| - 1) * |startTimes|;
    }
  }

  /** The slots some class of the schedule uses. */
  function UsedSlots(sk: Schedule): (used: set<Slot>)
    ensures forall s :: s in used <==> exists k :: k in sk && s in sk[k]
  {
    set k, s | k in sk && s in sk[k] :: s
  }
}
