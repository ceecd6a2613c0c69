/**
 * The problem the back end schedules and its checks: classes with their
 * enrolment and credits (one weekly meeting hour per credit), rooms with a
 * capacity, and each student's class choices keyed by priority number.
 * `Validate` rejects malformed input with the first error in a fixed order;
 * `SeedJadwal` draws a random first timetable, one room and one distinct
 * weekday hour per credit of every class.
 */
module ProblemState {
  import opened Wrappers
  import opened Text
  import opened Oracle

  /** `KelasMataKuliah`: code, number of students, credits. */
  datatype Class = Class(code: string, enrolment: int, credits: int)

  /** `Ruangan`: code and capacity. */
  datatype Room = Room(code: string, capacity: int)

  /**
   * `KuliahMahasiswa`: a student and `prio_mata_kuliah`, held as its
   * (priority number, class code) entries in the dictionary's order.
   */
  datatype StudentPlan = StudentPlan(nim: string, priorities: seq<(int, string)>)

  /** `PosisiKuliah`: a room code and a (day, hour) start. */
  datatype Position = Position(room: string, start: (string, int))

  /** `LIST_HARI`: the teaching days. */
  const Days: seq<string> := ["Senin", "Selasa", "Rabu", "Kamis", "Jumat"]

  /** Meetings start at 7 at the earliest and end by 18 at the latest. */
  const FirstHour: int := 7
  const EndHour: int := 18

  // ---------------------------------------------------------------------
  // Sequences as Python sets see them
  // ---------------------------------------------------------------------

  predicate Distinct<T(==)>(s: seq<T>)
  {
    forall i, j :: 0 <= i < j < |s| ==> s[i] != s[j]
  }

  /** `set(s)` */
  function Elements<T(==)>(s: seq<T>): set<T>
  {
    set x | x in s
  }

  /** `len(set(s)) == len(s)` holds exactly when s has no repeated element. */
  lemma {:induction false} ElementsCardinality<T>(s: seq<T>)
    ensures |Elements(s)| <= |s|
    ensures |Elements(s)| == |s| <==> Distinct(s)
  {
    if s != [] {
      var t := s[1..];
      ElementsCardinality(t);
      assert Elements(s) == {s[0]} + Elements(t);
      if s[0] in t {
        assert Elements(s) == Elements(t);
        var j :| 0 <= j < |t| && t[j] == s[0];
        assert s[0] == s[j + 1];
      } else {
        assert |Elements(s)| == |Elements(t)| + 1;
        if Distinct(t) {
          forall i, j | 0 <= i < j < |s|
            ensures s[i] != s[j]
          {
            assert s[j] == t[j - 1];
            if i > 0 {
              assert s[i] == t[i - 1];
            }
          }
        } else {
          var i, j :| 0 <= i < j < |t| && t[i] == t[j];
          assert s[i + 1] == s[j + 1];
        }
      }
    }
  }

  // ---------------------------------------------------------------------
  // What `validate` checks, as reference definitions
  // ---------------------------------------------------------------------

  /** The first problem found scanning s in order, if any. */
  function FirstProblem<T>(s: seq<T>, problem: T -> Option<string>): (r: Option<string>)
    ensures r.None? <==> forall i :: 0 <= i < |s| ==> problem(s[i]).None?
    ensures r.Some? ==> exists i :: 0 <= i < |s| && problem(s[i]) == r &&
                          forall j :: 0 <= j < i ==> problem(s[j]).None?
  {
    if s == [] then None
    else if problem(s[0]).Some? then problem(s[0])
    else
      var r := FirstProblem(s[1..], problem);
      assert forall i :: 0 < i < |s| ==> s[i] == s[1..][i - 1];
      r
  }

  /** The problem at position i is the first problem when none comes before it. */
  lemma {:induction false} FirstProblemAt<T>(s: seq<T>, problem: T -> Option<string>, i: nat)
    requires i < |s| && problem(s[i]).Some?
    requires forall j :: 0 <= j < i ==> problem(s[j]).None?
    ensures FirstProblem(s, problem) == problem(s[i])
  {
    if i > 0 {
      assert forall j :: 0 <= j < i - 1 ==> s[1..][j] == s[j + 1];
      FirstProblemAt(s[1..], problem, i - 1);
    }
  }

  function ClassProblem(c: Class): Option<string>
  {
    if c.credits < 1 then Some("SKS tidak lebih dari nol")
    else if c.enrolment < 1 then Some("Jumlah mahasiswa tidak lebih dari nol")
    else None
  }

  function RoomProblem(r: Room): Option<string>
  {
    if r.capacity < 0 then Some("Kapasitas ruangan negatif") else None
  }

  /** One priority entry of a student with n entries checked against the known class codes. */
  function EntryProblem(e: (int, string), n: int, known: set<string>): Option<string>
  {
    if e.0 < 1 || e.0 > n then Some("memiliki nomor prioritas invalid (" + IntToString(e.0) + ")")
    else if e.1 !in known then Some("memiliki kode mata kuliah invalid (" + e.1 + ")")
    else None
  }

  function PlanProblem(p: StudentPlan, known: set<string>): Option<string>
  {
    FirstProblem(p.priorities, e => EntryProblem(e, |p.priorities|, known))
  }

  function StudentMessage(nim: string, problem: string): string
  {
    "Mahasiswa NIM " + nim + " " + problem
  }

  function ClassCodes(classes: seq<Class>): (codes: seq<string>)
    ensures |codes| == |classes|
    ensures forall i :: 0 <= i < |classes| ==> codes[i] == classes[i].code
  {
    seq(|classes|, i requires 0 <= i < |classes| => classes[i].code)
  }

  function RoomCodes(rooms: seq<Room>): (codes: seq<string>)
    ensures |codes| == |rooms|
    ensures forall i :: 0 <= i < |rooms| ==> codes[i] == rooms[i].code
  {
    seq(|rooms|, i requires 0 <= i < |rooms| => rooms[i].code)
  }

  /**
   * The student error of the nested loop as written: every pass of the
   * outer loop scans all students, and the message names the student of
   * the OUTER loop, so it always names the first student.
   */
  function StudentsErrorAsWritten(outer: seq<StudentPlan>, all: seq<StudentPlan>, known: set<string>): Option<string>
  {
    if outer == [] then None
    else
      match FirstProblem(all, p => PlanProblem(p, known))
      case Some(problem) => Some(StudentMessage(outer[0].nim, problem))
      case None => StudentsErrorAsWritten(outer[1..], all, known)
  }

  /** The student error with the message naming the student whose entry is at fault. */
  function StudentsError(students: seq<StudentPlan>, known: set<string>): (r: Option<string>)
    ensures r.None? <==> forall i :: 0 <= i < |students| ==> PlanProblem(students[i], known).None?
    ensures r.Some? ==> exists i :: 0 <= i < |students| && PlanProblem(students[i], known).Some? &&
                          r == Some(StudentMessage(students[i].nim, PlanProblem(students[i], known).value))
  {
    if students == [] then None
    else
      match PlanProblem(students[0], known)
      case Some(problem) => Some(StudentMessage(students[0].nim, problem))
      case None =>
        var r := StudentsError(students[1..], known);
        assert forall i :: 0 < i < |students| ==> students[i] == students[1..][i - 1];
        r
  }

  /**
   * Exhibits the misnamed student: the second student's priority 3 is out
   * of range and the first student's single entry is fine, yet the
   * message names the first student.
   */
  lemma StudentsErrorNamesWrongStudent()
    ensures var known := {"IF2211"};
            var a := StudentPlan("13521001", [(1, "IF2211")]);
            var b := StudentPlan("13521002", [(3, "IF2211")]);
            && PlanProblem(a, known).None? && PlanProblem(b, known).Some?
            && StudentsErrorAsWritten([a, b], [a, b], known)
               == Some(StudentMessage(a.nim, PlanProblem(b, known).value))
            && StudentsError([a, b], known)
               == Some(StudentMessage(b.nim, PlanProblem(b, known).value))
  {
    var known := {"IF2211"};
    var a := StudentPlan("13521001", [(1, "IF2211")]);
    var b := StudentPlan("13521002", [(3, "IF2211")]);
    FirstProblemAt(b.priorities, e => EntryProblem(e, 1, known), 0);
    FirstProblemAt([a, b], p => PlanProblem(p, known), 1);
  }

  /**
   * `validate`'s verdict: the first class problem, then duplicate class
   * codes, then the first room problem, then duplicate room codes, then the
   * first student problem.
   */
  function ValidationError(classes: seq<Class>, rooms: seq<Room>, students: seq<StudentPlan>): Option<string>
  {
    var classCodes := Elements(ClassCodes(classes));
    if FirstProblem(classes, ClassProblem).Some? then FirstProblem(classes, ClassProblem)
    else if |classCodes| != |classes| then Some("Terdapat kode kelas mata kuliah duplikat")
    else if FirstProblem(rooms, RoomProblem).Some? then FirstProblem(rooms, RoomProblem)
    else if |Elements(RoomCodes(rooms))| != |rooms| then Some("Terdapat kode ruangan duplikat")
    else StudentsError(students, classCodes)
  }

  /** Well-formed input: what `validate` accepts. */
  predicate WellFormedInput(classes: seq<Class>, rooms: seq<Room>, students: seq<StudentPlan>)
  {
    && (forall i :: 0 <= i < |classes| ==> classes[i].credits >= 1 && classes[i].enrolment >= 1)
    && Distinct(ClassCodes(classes))
    && (forall i :: 0 <= i < |rooms| ==> rooms[i].capacity >= 0)
    && Distinct(RoomCodes(rooms))
    && (forall i, k :: 0 <= i < |students| && 0 <= k < |students[i].priorities| ==>
          var e := students[i].priorities[k];
          1 <= e.0 <= |students[i].priorities| && e.1 in ClassCodes(classes))
  }

  /** A plan passes exactly when every entry has a priority in 1..n and a known class code. */
  lemma PlanProblemNone(p: StudentPlan, known: set<string>)
    ensures PlanProblem(p, known).None? <==>
      forall k :: 0 <= k < |p.priorities| ==>
        1 <= p.priorities[k].0 <= |p.priorities| && p.priorities[k].1 in known
  {
    var f := e => EntryProblem(e, |p.priorities|, known);
    assert forall k :: 0 <= k < |p.priorities| ==>
      (f(p.priorities[k]).None? <==> 1 <= p.priorities[k].0 <= |p.priorities| && p.priorities[k].1 in known);
  }

  /** `validate` returns normally exactly on well-formed input. */
  lemma ValidationErrorNone(classes: seq<Class>, rooms: seq<Room>, students: seq<StudentPlan>)
    ensures ValidationError(classes, rooms, students).None? <==> WellFormedInput(classes, rooms, students)
  {
    ElementsCardinality(ClassCodes(classes));
    ElementsCardinality(RoomCodes(rooms));
    var known := Elements(ClassCodes(classes));
    forall i | 0 <= i < |students|
      ensures PlanProblem(students[i], known).None? <==>
        forall k :: 0 <= k < |students[i].priorities| ==>
          1 <= students[i].priorities[k].0 <= |students[i].priorities| &&
          students[i].priorities[k].1 in ClassCodes(classes)
    {
      PlanProblemNone(students[i], known);
    }
    assert (forall i :: 0 <= i < |classes| ==> ClassProblem(classes[i]).None?) <==>
           (forall i :: 0 <= i < |classes| ==> classes[i].credits >= 1 && classes[i].enrolment >= 1);
  }

  // ---------------------------------------------------------------------
  // The seeded timetable
  // ---------------------------------------------------------------------

  /** How `seed_jadwal` ends; `OutOfDraws` is the redraw bound of the model, not a case of the source. */
  datatype SeedOutcome = Seeded | NoRoom | OutOfDraws

  /** A class's hours: `range(sks)` is empty for sks below one. */
  function Hours(c: Class): nat
  {
    if c.credits > 0 then c.credits else 0
  }

  /** Positions on the weekly grid, in listed rooms, no two starting at the same time. */
  predicate Placed(positions: seq<Position>, roomCodes: seq<string>)
  {
    && (forall t :: 0 <= t < |positions| ==>
          && positions[t].room in roomCodes
          && positions[t].start.0 in Days
          && FirstHour <= positions[t].start.1 < EndHour)
    && (forall s, t :: 0 <= s < t < |positions| ==> positions[s].start != positions[t].start)
  }

  /** No later class among the first n shares class i's code: its list is the one kept. */
  predicate LastOfCode(classes: seq<Class>, i: int, n: int)
    requires 0 <= i < n <= |classes|
  {
    forall l :: i < l < n ==> classes[l].code != classes[i].code
  }

  /** Each of the first n classes whose list is kept has one position per hour. */
  predicate Sized(posisi: map<string, seq<Position>>, classes: seq<Class>, n: int)
    requires 0 <= n <= |classes|
  {
    forall j :: 0 <= j < n && LastOfCode(classes, j, n) ==>
      classes[j].code in posisi && |posisi[classes[j].code]| == Hours(classes[j])
  }

  predicate AllPlaced(posisi: map<string, seq<Position>>, roomCodes: seq<string>)
  {
    forall k :: k in posisi ==> Placed(posisi[k], roomCodes)
  }

  /** Storing class n's list keeps the kept lists sized. */
  lemma SizedStep(posisi: map<string, seq<Position>>, classes: seq<Class>, n: int, list: seq<Position>)
    requires 0 <= n < |classes| && Sized(posisi, classes, n) && |list| == Hours(classes[n])
    ensures Sized(posisi[classes[n].code := list], classes, n + 1)
  {
    var p := posisi[classes[n].code := list];
    forall j | 0 <= j < n + 1 && LastOfCode(classes, j, n + 1)
      ensures classes[j].code in p && |p[classes[j].code]| == Hours(classes[j])
    {
      if j < n {
        assert LastOfCode(classes, j, n);
        assert classes[j].code != classes[n].code;
      }
    }
  }

  /** None of the first n classes has a credit, so none needs a room. */
  predicate Hourless(classes: seq<Class>, n: int)
    requires 0 <= n <= |classes|
  {
    forall j :: 0 <= j < n ==> classes[j].credits < 1
  }

  /** What the class loop of `seed_jadwal` has built after its first n classes. */
  predicate SeededSoFar(posisi: map<string, seq<Position>>, classes: seq<Class>, n: int, roomCodes: seq<string>)
    requires 0 <= n <= |classes|
  {
    && posisi.Keys == Elements(ClassCodes(classes[..n]))
    && AllPlaced(posisi, roomCodes)
    && Sized(posisi, classes, n)
  }

  /** Storing the placed list of class n extends what has been built. */
  lemma SeededStep(posisi: map<string, seq<Position>>, classes: seq<Class>, n: int, roomCodes: seq<string>,
                   list: seq<Position>)
    requires 0 <= n < |classes| && SeededSoFar(posisi, classes, n, roomCodes)
    requires |list| == Hours(classes[n]) && Placed(list, roomCodes)
    ensures SeededSoFar(posisi[classes[n].code := list], classes, n + 1, roomCodes)
  {
    SizedStep(posisi, classes, n, list);
    var code := classes[n].code;
    var p := posisi[code := list];
    var before := ClassCodes(classes[..n]);
    assert ClassCodes(classes[..n + 1]) == before + [code];
    assert Elements(before + [code]) == Elements(before) + {code};
    forall k | k in p
      ensures Placed(p[k], roomCodes)
    {
      if k != code {
        assert p[k] == posisi[k];
      }
    }
  }

  /** `State`: the input lists, the random source and `output_jadwal`. */
  class State {
    const classes: seq<Class>
    const rooms: seq<Room>
    const students: seq<StudentPlan>
    const rng: Rng
    var outputJadwal: map<string, seq<Position>>

    constructor (classes: seq<Class>, rooms: seq<Room>, students: seq<StudentPlan>, rng: Rng)
      ensures this.classes == classes && this.rooms == rooms && this.students == students
      ensures this.rng == rng && outputJadwal == map[]
    {
      this.classes := classes;
      this.rooms := rooms;
      this.students := students;
      this.rng := rng;
      outputJadwal := map[];
    }

    /** The priority entries of one student: the first entry at fault, if any. */
    method CheckPlan(plan: StudentPlan, known: set<string>) returns (problem: Option<string>)
      ensures problem == PlanProblem(plan, known)
    {
      var f := e => EntryProblem(e, |plan.priorities|, known);
      var n := |plan.priorities|;
      var k := 0;
      while k < |plan.priorities|
        invariant 0 <= k <= |plan.priorities|
        invariant forall j :: 0 <= j < k ==> f(plan.priorities[j]).None?
      {
        var (prio, kode) := plan.priorities[k];
        if prio < 1 || prio > n {
          FirstProblemAt(plan.priorities, f, k);
          return Some("memiliki nomor prioritas invalid (" + IntToString(prio) + ")");
        }
        if kode !in known {
          FirstProblemAt(plan.priorities, f, k);
          return Some("memiliki kode mata kuliah invalid (" + kode + ")");
        }
        k := k + 1;
      }
      return None;
    }

    /**
     * `validate`: None when the input is accepted, else the message of the
     * `ValueError` raised. The student check names the student whose entry
     * is at fault.
     */
    method Validate() returns (error: Option<string>)
      ensures error == ValidationError(classes, rooms, students)
    {
      var classCodes;
      error, classCodes := CheckClasses();
      if error.Some? {
        return;
      }
      if |classCodes| != |classes| {
        return Some("Terdapat kode kelas mata kuliah duplikat");
      }
      var roomCodes;
      error, roomCodes := CheckRooms();
      if error.Some? {
        return;
      }
      if |roomCodes| != |rooms| {
        return Some("Terdapat kode ruangan duplikat");
      }
      error := CheckStudents(classCodes);
    }

    /** The class loop of `validate`: the first class problem, else the set of class codes. */
    method CheckClasses() returns (error: Option<string>, codes: set<string>)
      ensures error == FirstProblem(classes, ClassProblem)
      ensures error.None? ==> codes == Elements(ClassCodes(classes))
    {
      codes := {};
      var i := 0;
      while i < |classes|
        invariant 0 <= i <= |classes|
        invariant codes == set j | 0 <= j < i :: classes[j].code
        invariant forall j :: 0 <= j < i ==> ClassProblem(classes[j]).None?
      {
        codes := codes + {classes[i].code};
        if classes[i].credits < 1 || classes[i].enrolment < 1 {
          FirstProblemAt(classes, ClassProblem, i);
          if classes[i].credits < 1 {
            return Some("SKS tidak lebih dari nol"), codes;
          }
          return Some("Jumlah mahasiswa tidak lebih dari nol"), codes;
        }
        i := i + 1;
      }
      assert codes == Elements(ClassCodes(classes));
      return None, codes;
    }

    /** The room loop of `validate`: the first room problem, else the set of room codes. */
    method CheckRooms() returns (error: Option<string>, codes: set<string>)
      ensures error == FirstProblem(rooms, RoomProblem)
      ensures error.None? ==> codes == Elements(RoomCodes(rooms))
    {
      codes := {};
      var i := 0;
      while i < |rooms|
        invariant 0 <= i <= |rooms|
        invariant codes == set j | 0 <= j < i :: rooms[j].code
        invariant forall j :: 0 <= j < i ==> RoomProblem(rooms[j]).None?
      {
        codes := codes + {rooms[i].code};
        if rooms[i].capacity < 0 {
          FirstProblemAt(rooms, RoomProblem, i);
          return Some("Kapasitas ruangan negatif"), codes;
        }
        i := i + 1;
      }
      assert codes == Elements(RoomCodes(rooms));
      return None, codes;
    }

    /** The nested student loop of `validate`, each message naming the student at fault. */
    method CheckStudents(known: set<string>) returns (error: Option<string>)
      ensures error == StudentsError(students, known)
    {
      for m := 0 to |students|
        invariant m > 0 ==> forall j :: 0 <= j < |students| ==> PlanProblem(students[j], known).None?
      {
        for k := 0 to |students|
          invariant forall j :: 0 <= j < k ==> PlanProblem(students[j], known).None?
        {
          var problem := CheckPlan(students[k], known);
          if problem.Some? {
            StudentsErrorAt(students, known, k);
            return Some(StudentMessage(students[k].nim, problem.value));
          }
        }
      }
      return None;
    }

    /**
     * `seed_jadwal`: for each class, one start per credit, redrawn while it
     * repeats an earlier start of the class, and a room drawn for each
     * start; the timetable replaces `output_jadwal` once every class is
     * placed. With no rooms the first room draw fails, as `choice` of an
     * empty list raises. Each redraw loop is bounded by `maxRedraws`.
     */
    method SeedJadwal(maxRedraws: nat) returns (outcome: SeedOutcome)
      modifies this, rng
      ensures outcome.NoRoom? <==> rooms == [] && exists i :: 0 <= i < |classes| && classes[i].credits >= 1
      ensures !outcome.Seeded? ==> outputJadwal == old(outputJadwal)
      ensures outcome.Seeded? ==> outputJadwal.Keys == Elements(ClassCodes(classes))
      ensures outcome.Seeded? ==> AllPlaced(outputJadwal, RoomCodes(rooms))
      ensures outcome.Seeded? ==> Sized(outputJadwal, classes, |classes|)
    {
      var posisi;
      posisi, outcome := SeedClasses(maxRedraws);
      if outcome.Seeded? {
        outputJadwal := posisi;
      }
    }

    /** The class loop of `seed_jadwal`, building the new timetable. */
    method SeedClasses(maxRedraws: nat) returns (posisi: map<string, seq<Position>>, outcome: SeedOutcome)
      modifies rng
      ensures outcome.NoRoom? <==> rooms == [] && !Hourless(classes, |classes|)
      ensures outcome.Seeded? ==> posisi.Keys == Elements(ClassCodes(classes))
      ensures outcome.Seeded? ==> AllPlaced(posisi, RoomCodes(rooms))
      ensures outcome.Seeded? ==> Sized(posisi, classes, |classes|)
    {
      var roomCodes := RoomCodes(rooms);
      posisi := map[];
      var i := 0;
      while i < |classes|
        invariant 0 <= i <= |classes|
        invariant SeededSoFar(posisi, classes, i, roomCodes)
        invariant rooms == [] ==> Hourless(classes, i)
      {
        var list, o := SeedClass(classes[i], roomCodes, maxRedraws);
        if !o.Seeded? {
          return posisi, o;
        }
        SeededStep(posisi, classes, i, roomCodes, list);
        posisi := posisi[classes[i].code := list];
        i := i + 1;
      }
      assert classes[..|classes|] == classes;
      return posisi, Seeded;
    }

    /** The positions of one class: one per credit, each start fresh for the class. */
    method SeedClass(c: Class, roomCodes: seq<string>, maxRedraws: nat) returns (list: seq<Position>, outcome: SeedOutcome)
      modifies rng
      ensures outcome.NoRoom? <==> roomCodes == [] && c.credits >= 1
      ensures outcome.OutOfDraws? ==> roomCodes != []
      ensures outcome.Seeded? ==> |list| == Hours(c) && Placed(list, roomCodes)
    {
      list := [];
      var starts: seq<(string, int)> := [];
      var n := 0;
      while n < c.credits
        invariant 0 <= n <= Hours(c) && |list| == |starts| == n
        invariant forall t :: 0 <= t < n ==> list[t].start == starts[t]
        invariant Placed(list, roomCodes)
        invariant roomCodes == [] ==> n == 0
      {
        var start := DrawStart();
        var redraws := 0;
        while start in starts
          invariant 0 <= redraws <= maxRedraws
          invariant start.0 in Days && FirstHour <= start.1 < EndHour
          decreases maxRedraws - redraws
        {
          if redraws == maxRedraws {
            return list, OutOfDraws;
          }
          start := DrawStart();
          redraws := redraws + 1;
        }
        starts := starts + [start];
        if roomCodes == [] {
          return list, NoRoom;
        }
        var r := rng.Below(|roomCodes|);
        list := list + [Position(roomCodes[r], start)];
        n := n + 1;
      }
      return list, Seeded;
    }

    /** `(choice(LIST_HARI), randint(7, 17))`: a weekday and an hour from which a meeting ends by 18. */
    method DrawStart() returns (start: (string, int))
      modifies rng
      ensures start.0 in Days && FirstHour <= start.1 < EndHour
      ensures start == (Days[rng.ints(old(rng.pos)) % |Days|],
                        FirstHour + rng.ints(old(rng.pos) + 1) % (EndHour - FirstHour))
      ensures rng.pos == old(rng.pos) + 2
    {
      var d := rng.Below(|Days|);
      var h := rng.Below(EndHour - FirstHour);
      start := (Days[d], FirstHour + h);
    }
  }

  /** The error of the first student at fault names that student. */
  lemma {:induction false} StudentsErrorAt(students: seq<StudentPlan>, known: set<string>, k: nat)
    requires k < |students| && PlanProblem(students[k], known).Some?
    requires forall j :: 0 <= j < k ==> PlanProblem(students[j], known).None?
    ensures StudentsError(students, known) == Some(StudentMessage(students[k].nim, PlanProblem(students[k], known).value))
  {
    if k > 0 {
      assert forall j :: 0 <= j < k - 1 ==> students[1..][j] == students[j + 1];
      StudentsErrorAt(students[1..], known, k - 1);
    }
  }
}
