/**
 * `load_problem`: the request body becomes the problem the search works
 * on. Classes and rooms are copied entry by entry; each student's
 * parallel `daftar_mk`/`prioritas` lists become the priority dictionary,
 * after checking that the lists have equal length and the priorities are
 * unique. The first student that fails aborts the whole load.
 */
module ProblemParser {
  import opened Wrappers
  import opened ProblemState

  /** `KelasMataKuliahModel` */
  datatype ClassModel = ClassModel(code: string, enrolment: int, credits: int)

  /** `RoomModel`: a room code and its quota. */
  datatype RoomModel = RoomModel(code: string, quota: int)

  /** `MahasiswaModel`: a student's chosen class codes and their priority numbers, position by position. */
  datatype StudentModel = StudentModel(nim: string, courses: seq<string>, priorities: seq<int>)

  /** `StateInputModel` */
  datatype Request = Request(classes: seq<ClassModel>, rooms: seq<RoomModel>, students: seq<StudentModel>)

  /** `Problem` */
  datatype Problem = Problem(classes: seq<Class>, rooms: seq<Room>, students: seq<StudentPlan>)

  /** `[KelasMataKuliah(**k.dict()) for k in data.kelas_mata_kuliah]` */
  function ToClasses(models: seq<ClassModel>): (r: seq<Class>)
    ensures |r| == |models|
    ensures forall i :: 0 <= i < |models| ==>
      r[i] == Class(models[i].code, models[i].enrolment, models[i].credits)
  {
    seq(|models|, i requires 0 <= i < |models| => Class(models[i].code, models[i].enrolment, models[i].credits))
  }

  /** `[Ruangan(**r.dict()) for r in data.ruangan]`: the quota becomes the capacity. */
  function ToRooms(models: seq<RoomModel>): (r: seq<Room>)
    ensures |r| == |models|
    ensures forall i :: 0 <= i < |models| ==> r[i] == Room(models[i].code, models[i].quota)
  {
    seq(|models|, i requires 0 <= i < |models| => Room(models[i].code, models[i].quota))
  }

  /** `zip(prioritas, daftar_mk)` of two lists of one length. */
  function Zip(priorities: seq<int>, courses: seq<string>): (r: seq<(int, string)>)
    requires |priorities| == |courses|
    ensures |r| == |priorities|
    ensures forall i :: 0 <= i < |r| ==> r[i] == (priorities[i], courses[i])
  {
    seq(|priorities|, i requires 0 <= i < |priorities| => (priorities[i], courses[i]))
  }

  /** The dictionary a comprehension builds from entries: a later entry overwrites an earlier one. */
  function AsMap(entries: seq<(int, string)>): map<int, string>
  {
    if entries == [] then map[]
    else
      var last := entries[|entries| - 1];
      AsMap(entries[..|entries| - 1])[last.0 := last.1]
  }

  /** The dictionary's keys are the entries' keys. */
  lemma {:induction false} AsMapKeys(entries: seq<(int, string)>)
    ensures AsMap(entries).Keys == set i | 0 <= i < |entries| :: entries[i].0
  {
    if entries != [] {
      var n := |entries|;
      AsMapKeys(entries[..n - 1]);
      assert forall i :: 0 <= i < n - 1 ==> entries[..n - 1][i] == entries[i];
    }
  }

  /** An entry whose key no later entry repeats is what the dictionary holds for that key. */
  lemma {:induction false} AsMapLookup(entries: seq<(int, string)>, i: nat)
    requires i < |entries|
    requires forall j :: i < j < |entries| ==> entries[j].0 != entries[i].0
    ensures entries[i].0 in AsMap(entries) && AsMap(entries)[entries[i].0] == entries[i].1
  {
    var n := |entries|;
    if i < n - 1 {
      assert forall j :: i < j < n - 1 ==> entries[..n - 1][j] == entries[j];
      AsMapLookup(entries[..n - 1], i);
    }
  }

  /** With unique priorities, the dictionary maps each priority to its class and has one key per entry. */
  lemma AsMapZip(priorities: seq<int>, courses: seq<string>)
    requires |priorities| == |courses| && Distinct(priorities)
    ensures |AsMap(Zip(priorities, courses))| == |priorities|
    ensures AsMap(Zip(priorities, courses)).Keys == Elements(priorities)
    ensures forall i :: 0 <= i < |priorities| ==> AsMap(Zip(priorities, courses))[priorities[i]] == courses[i]
  {
    var e := Zip(priorities, courses);
    AsMapKeys(e);
    assert (set i | 0 <= i < |e| :: e[i].0) == Elements(priorities);
    ElementsCardinality(priorities);
    forall i | 0 <= i < |priorities|
      ensures AsMap(e)[priorities[i]] == courses[i]
    {
      AsMapLookup(e, i);
    }
  }

  /** Why a student's lists are rejected, if they are. */
  function StudentError(m: StudentModel): Option<string>
  {
    if |m.priorities| != |m.courses| then
      Some("Prioritas mahasiswa NIM " + m.nim + " tidak valid")
    else if |Elements(m.priorities)| != |m.priorities| then
      Some("Prioritas mahasiswa NIM " + m.nim + " harus unik untuk setiap mata kuliah")
    else None
  }

  /** A student passes exactly when its lists have one length and its priorities are unique. */
  lemma StudentErrorNone(m: StudentModel)
    ensures StudentError(m).None? <==> |m.priorities| == |m.courses| && Distinct(m.priorities)
  {
    ElementsCardinality(m.priorities);
  }

  /** `load_problem`: the problem, or the message of the first student's `ValueError`. */
  method LoadProblem(data: Request) returns (r: Result<Problem, string>)
    ensures r.Failure? <==> exists i :: 0 <= i < |data.students| && StudentError(data.students[i]).Some?
    ensures r.Failure? ==> Some(r.error) == FirstProblem(data.students, StudentError)
    ensures r.Success? ==> r.value.classes == ToClasses(data.classes) && r.value.rooms == ToRooms(data.rooms)
    ensures r.Success? ==> |r.value.students| == |data.students|
    ensures r.Success? ==> forall i :: 0 <= i < |data.students| ==>
      var m := data.students[i];
      && |m.priorities| == |m.courses| && Distinct(m.priorities)
      && r.value.students[i] == StudentPlan(m.nim, Zip(m.priorities, m.courses))
  {
    var classes := ToClasses(data.classes);
    var rooms := ToRooms(data.rooms);
    var plans: seq<StudentPlan> := [];
    for i := 0 to |data.students|
      invariant |plans| == i
      invariant forall j :: 0 <= j < i ==> StudentError(data.students[j]).None?
      invariant forall j :: 0 <= j < i ==>
        var m := data.students[j];
        && |m.priorities| == |m.courses|
        && plans[j] == StudentPlan(m.nim, Zip(m.priorities, m.courses))
    {
      var m := data.students[i];
      if |m.priorities| != |m.courses| {
        FirstProblemAt(data.students, StudentError, i);
        return Failure("Prioritas mahasiswa NIM " + m.nim + " tidak valid");
      }
      if |Elements(m.priorities)| != |m.priorities| {
        FirstProblemAt(data.students, StudentError, i);
        return Failure("Prioritas mahasiswa NIM " + m.nim + " harus unik untuk setiap mata kuliah");
      }
      plans := plans + [StudentPlan(m.nim, Zip(m.priorities, m.courses))];
    }
    forall i | 0 <= i < |data.students|
      ensures Distinct(data.students[i].priorities)
    {
      StudentErrorNone(data.students[i]);
    }
    return Success(Problem(classes, rooms, plans));
  }
}
