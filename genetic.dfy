/**
 * The genetic algorithm over class schedules: individuals are schedules
 * with their objective, parents are picked by tournament, children come
 * from a per-class uniform crossover and one of two mutations, and the
 * best individuals of a generation pass unchanged into the next.
 */
module Genetic {
  import opened Wrappers
  import opened Slots
  import opened Oracle

  /** `GAParams`, with the source's defaults in `DefaultParams`. */
  datatype GAParams = GAParams(
    populationSize: int,
    maxGenerations: int,
    crossoverRate: real,
    mutationRate: real,
    tournamentK: int,
    elitism: int)

  const DefaultParams := GAParams(50, 200, 0.9, 0.2, 3, 1)

  /** `GAIndividual`: a schedule and the objective it was scored with. */
  datatype Individual = Individual(jadwal: Schedule, objective: real)

  /** Every class has a non-empty list of meetings. */
  predicate WellFormed(sk: Schedule, classCodes: seq<string>)
  {
    forall c :: c in classCodes ==> c in sk && |sk[c]| > 0
  }

  /** No value occurs twice. */
  predicate Distinct<T(==)>(s: seq<T>)
  {
    forall i, j :: 0 <= i < j < |s| ==> s[i] != s[j]
  }

  /** Every individual of the population is well formed. */
  predicate AllWellFormed(pop: seq<Individual>, classCodes: seq<string>)
  {
    forall i :: 0 <= i < |pop| ==> WellFormed(pop[i].jadwal, classCodes)
  }

  /** Same class codes, same number of meetings for each. */
  predicate SameShape(a: Schedule, b: Schedule)
  {
    a.Keys == b.Keys && forall c :: c in a ==> |a[c]| == |b[c]|
  }

  // ---------------------------------------------------------------------
  // min(…, key=objective), sorted(…, key=objective), the mean objective
  // ---------------------------------------------------------------------

  /** The key every ordering of individuals uses. */
  function ObjectiveOf(ind: Individual): real
  {
    ind.objective
  }

  /** Python's `min` with a key: the first position holding a least key. */
  function MinIndex<T>(s: seq<T>, key: T -> real): (i: nat)
    requires |s| > 0
    ensures i < |s|
    ensures forall j :: 0 <= j < |s| ==> key(s[i]) <= key(s[j])
    ensures forall j :: 0 <= j < i ==> key(s[j]) > key(s[i])
  {
    if |s| == 1 then 0
    else
      var m := MinIndex(s[1..], key) + 1;
      if key(s[m]) < key(s[0]) then m else 0
  }

  /** `min(population, key=lambda ind: ind.objective)` */
  function Best(s: seq<Individual>): Individual
    requires |s| > 0
  {
    s[MinIndex(s, ObjectiveOf)]
  }

  predicate SortedBy<T>(s: seq<T>, key: T -> real)
  {
    forall i, j :: 0 <= i < j < |s| ==> key(s[i]) <= key(s[j])
  }

  /** Insert x in front of the first element whose key is not smaller. */
  function Insert<T>(x: T, s: seq<T>, key: T -> real): (r: seq<T>)
    ensures |r| == |s| + 1
    ensures r[0] == x || (s != [] && r[0] == s[0])
  {
    if s == [] || key(x) <= key(s[0]) then [x] + s
    else [s[0]] + Insert(x, s[1..], key)
  }

  /** Inserting adds exactly x. */
  lemma {:induction false} InsertCount<T>(x: T, s: seq<T>, key: T -> real)
    ensures multiset(Insert(x, s, key)) == multiset(s) + multiset{x}
  {
    if s != [] && key(s[0]) < key(x) {
      InsertCount(x, s[1..], key);
      assert s == [s[0]] + s[1..];
    }
  }

  /** An element no greater than any of a sorted list can head it. */
  lemma ConsSorted<T>(a: T, t: seq<T>, key: T -> real)
    requires SortedBy(t, key)
    requires forall k :: 0 <= k < |t| ==> key(a) <= key(t[k])
    ensures SortedBy([a] + t, key)
  {
    var r := [a] + t;
    forall i, j | 0 <= i < j < |r|
      ensures key(r[i]) <= key(r[j])
    {
      assert r[j] == t[j - 1];
      if i > 0 {
        assert r[i] == t[i - 1];
      }
    }
  }

  /** Inserting into a sorted list keeps it sorted. */
  lemma {:induction false} InsertSorted<T>(x: T, s: seq<T>, key: T -> real)
    requires SortedBy(s, key)
    ensures SortedBy(Insert(x, s, key), key)
  {
    if s != [] && key(s[0]) < key(x) {
      var t := Insert(x, s[1..], key);
      InsertSorted(x, s[1..], key);
      InsertCount(x, s[1..], key);
      forall k | 0 <= k < |t|
        ensures key(s[0]) <= key(t[k])
      {
        assert t[k] in multiset(t);
        if t[k] != x {
          assert t[k] in multiset(s[1..]);
          var m :| 0 <= m < |s| - 1 && s[1..][m] == t[k];
          assert s[1..][m] == s[m + 1];
        }
      }
      ConsSorted(s[0], t, key);
    } else {
      forall k | 0 <= k < |s|
        ensures key(x) <= key(s[k])
      {
        assert key(s[0]) <= key(s[k]) || k == 0;
      }
      ConsSorted(x, s, key);
    }
  }

  /** `sorted(s, key=key)`: a stable insertion sort. */
  function Sort<T>(s: seq<T>, key: T -> real): (r: seq<T>)
  {
    if s == [] then [] else Insert(s[0], Sort(s[1..], key), key)
  }

  /** The sort orders by key. */
  lemma {:induction false} SortSorted<T>(s: seq<T>, key: T -> real)
    ensures SortedBy(Sort(s, key), key)
  {
    if s != [] {
      var t := Sort(s[1..], key);
      SortSorted(s[1..], key);
      InsertSorted(s[0], t, key);
    }
  }

  /** The sort is a permutation. */
  lemma {:induction false} SortPermutes<T>(s: seq<T>, key: T -> real)
    ensures multiset(Sort(s, key)) == multiset(s)
  {
    if s != [] {
      var t := Sort(s[1..], key);
      SortPermutes(s[1..], key);
      InsertCount(s[0], t, key);
      assert s == [s[0]] + s[1..];
    }
  }

  /** The sort orders by key and is a permutation. */
  lemma SortSpec<T>(s: seq<T>, key: T -> real)
    ensures SortedBy(Sort(s, key), key)
    ensures multiset(Sort(s, key)) == multiset(s)
    ensures |Sort(s, key)| == |s|
  {
    SortSorted(s, key);
    SortPermutes(s, key);
    assert |multiset(Sort(s, key))| == |multiset(s)|;
  }

  /**
   * `_elitism`: nothing for n ≤ 0, otherwise the n individuals of least
   * objective (all of them when there are fewer), in ascending order.
   */
  function Elitism(pop: seq<Individual>, n: int): (r: seq<Individual>)
  {
    if n <= 0 then [] else
      var sorted := Sort(pop, ObjectiveOf);
      SortSpec(pop, ObjectiveOf);
      sorted[..if n < |pop| then n else |pop|]
  }

  /** A prefix of a sorted sequence is sorted and part of it. */
  lemma Prefix<T>(s: seq<T>, m: nat, key: T -> real)
    requires m <= |s| && SortedBy(s, key)
    ensures SortedBy(s[..m], key)
    ensures multiset(s[..m]) <= multiset(s)
  {
    assert s == s[..m] + s[m..];
  }

  /** In a sorted sequence, an element of a prefix is no greater than any element left out of it. */
  lemma PrefixBeatsRest<T>(s: seq<T>, m: nat, key: T -> real, i: nat, y: T)
    requires m <= |s| && SortedBy(s, key) && i < m
    requires y in multiset(s) - multiset(s[..m])
    ensures key(s[i]) <= key(y)
  {
    assert s == s[..m] + s[m..];
    assert multiset(s) == multiset(s[..m]) + multiset(s[m..]);
    assert y in multiset(s[m..]);
    var j :| m <= j < |s| && s[j] == y;
  }

  /** The elites: none for n ≤ 0, otherwise min(n, |pop|) of them. */
  lemma ElitismSize(pop: seq<Individual>, n: int)
    ensures n <= 0 ==> Elitism(pop, n) == []
    ensures n > 0 ==> |Elitism(pop, n)| == if n < |pop| then n else |pop|
  {
    SortSpec(pop, ObjectiveOf);
  }

  /** The elites are in ascending objective order and drawn from the population. */
  lemma ElitismOrdered(pop: seq<Individual>, n: int)
    ensures SortedBy(Elitism(pop, n), ObjectiveOf)
    ensures multiset(Elitism(pop, n)) <= multiset(pop)
  {
    if n > 0 {
      SortSpec(pop, ObjectiveOf);
      Prefix(Sort(pop, ObjectiveOf), if n < |pop| then n else |pop|, ObjectiveOf);
    }
  }

  /** No individual left out of the elites has a smaller objective than an elite. */
  lemma ElitesBeatTheRest(pop: seq<Individual>, n: int, i: int, y: Individual)
    requires 0 <= i < |Elitism(pop, n)|
    requires y in multiset(pop) - multiset(Elitism(pop, n))
    ensures Elitism(pop, n)[i].objective <= y.objective
  {
    SortSpec(pop, ObjectiveOf);
    PrefixBeatsRest(Sort(pop, ObjectiveOf), if n < |pop| then n else |pop|, ObjectiveOf, i, y);
  }

  /** The best individual of a non-empty population is first among its elites. */
  lemma BestIsFirstElite(pop: seq<Individual>, n: int)
    requires |pop| > 0 && n > 0
    ensures |Elitism(pop, n)| > 0
    ensures Elitism(pop, n)[0].objective == Best(pop).objective
  {
    ElitismSize(pop, n);
    ElitismOrdered(pop, n);
    var r := Elitism(pop, n);
    var b := Best(pop);
    if b !in multiset(r) {
      assert b in multiset(pop) - multiset(r);
      ElitesBeatTheRest(pop, n, 0, b);
    } else {
      var j :| 0 <= j < |r| && r[j] == b;
      assert ObjectiveOf(r[0]) <= ObjectiveOf(r[j]);
    }
    assert r[0] in multiset(pop);
    var k :| 0 <= k < |pop| && pop[k] == r[0];
    assert ObjectiveOf(b) <= ObjectiveOf(pop[k]);
  }

  function SumObjectives(s: seq<Individual>): real
  {
    if s == [] then 0.0 else s[0].objective + SumObjectives(s[1..])
  }

  /** The average objective of a non-empty population. */
  function Mean(s: seq<Individual>): real
    requires |s| > 0
  {
    SumObjectives(s) / (|s| as real)
  }

  lemma {:induction false} SumAtLeast(s: seq<Individual>, m: real)
    requires forall i :: 0 <= i < |s| ==> m <= s[i].objective
    ensures SumObjectives(s) >= (|s| as real) * m
  {
    if s != [] {
      SumAtLeast(s[1..], m);
    }
  }

  /** The best objective of a population never exceeds its average. */
  lemma BestAtMostMean(s: seq<Individual>)
    requires |s| > 0
    ensures Best(s).objective <= Mean(s)
  {
    var m := Best(s).objective;
    SumAtLeast(s, m);
    assert SumObjectives(s) >= (|s| as real) * m;
  }

  // ---------------------------------------------------------------------
  // The slot grid and the slots a schedule leaves free
  // ---------------------------------------------------------------------

  /** `r` lists some of the elements of `xs`, in the order `xs` has them. */
  predicate IsSubsequence<T(==)>(r: seq<T>, xs: seq<T>)
    decreases |xs|
  {
    if r == [] then true
    else if xs == [] then false
    else (r[0] == xs[0] && IsSubsequence(r[1..], xs[1..])) || IsSubsequence(r, xs[1..])
  }

  /** The elements of `xs` outside `used`, in their order, every copy of each kept. */
  function Without(xs: seq<Slot>, used: set<Slot>): (r: seq<Slot>)
    ensures forall s :: s in r <==> s in xs && s !in used
    ensures forall s :: multiset(r)[s] == if s in used then 0 else multiset(xs)[s]
    ensures IsSubsequence(r, xs)
  {
    if xs == [] then []
    else
      var t := Without(xs[1..], used);
      assert xs == [xs[0]] + xs[1..];
      assert forall s :: s in xs <==> s == xs[0] || s in xs[1..];
      assert forall s :: multiset(xs)[s] == multiset([xs[0]])[s] + multiset(xs[1..])[s];
      if xs[0] in used then t else [xs[0]] + t
  }

  /**
   * `_empty_slots_for`: the grid slots (`_all_possible_slots`, which is
   * AllSlots) that no class of the schedule meets in, in grid order.
   */
  function EmptySlotsFor(sk: Schedule, rooms: seq<string>, startTimes: seq<(string, int)>): (r: seq<Slot>)
    ensures forall s :: s in r <==> OnGrid(s, rooms, startTimes) && s !in UsedSlots(sk)
    ensures forall s :: multiset(r)[s] == if s in UsedSlots(sk) then 0 else multiset(AllSlots(rooms, startTimes))[s]
    ensures IsSubsequence(r, AllSlots(rooms, startTimes))
  {
    Without(AllSlots(rooms, startTimes), UsedSlots(sk))
  }

  // ---------------------------------------------------------------------
  // The two mutations as edits of a schedule
  // ---------------------------------------------------------------------

  /**
   * `s1_list[i], s2_list[j] = s2_list[j], s1_list[i]`: when both names
   * denote the same list, the two entries of that list trade places.
   */
  function SwapMeetings(sk: Schedule, k1: string, i: nat, k2: string, j: nat): Schedule
    requires k1 in sk && k2 in sk && i < |sk[k1]| && j < |sk[k2]|
  {
    if k1 == k2 then
      sk[k1 := sk[k1][i := sk[k1][j]][j := sk[k1][i]]]
    else
      sk[k1 := sk[k1][i := sk[k2][j]]][k2 := sk[k2][j := sk[k1][i]]]
  }

  /** Writing v at position i trades one l[i] for one v. */
  lemma UpdateCount<T>(l: seq<T>, i: nat, v: T)
    requires i < |l|
    ensures multiset(l[i := v]) == multiset(l) - multiset{l[i]} + multiset{v}
  {
    assert l == l[..i] + [l[i]] + l[i + 1..];
    assert l[i := v] == l[..i] + [v] + l[i + 1..];
  }

  /** A swap of two meetings keeps every list's length and touches no other class. */
  lemma SwapMeetingsShape(sk: Schedule, k1: string, i: nat, k2: string, j: nat)
    requires k1 in sk && k2 in sk && i < |sk[k1]| && j < |sk[k2]|
    ensures SameShape(SwapMeetings(sk, k1, i, k2, j), sk)
    ensures SwapMeetings(sk, k1, i, k2, j)[k1][i] == sk[k2][j]
    ensures SwapMeetings(sk, k1, i, k2, j)[k2][j] == sk[k1][i]
    ensures forall c :: c in sk && c != k1 && c != k2 ==> SwapMeetings(sk, k1, i, k2, j)[c] == sk[c]
  {
  }

  /** Between two classes, a swap keeps the meetings of both together as a multiset. */
  lemma SwapMeetingsBetween(sk: Schedule, k1: string, i: nat, k2: string, j: nat)
    requires k1 in sk && k2 in sk && i < |sk[k1]| && j < |sk[k2]| && k1 != k2
    ensures multiset(SwapMeetings(sk, k1, i, k2, j)[k1]) + multiset(SwapMeetings(sk, k1, i, k2, j)[k2])
      == multiset(sk[k1]) + multiset(sk[k2])
  {
    UpdateCount(sk[k1], i, sk[k2][j]);
    UpdateCount(sk[k2], j, sk[k1][i]);
  }

  /** Within one class, a swap permutes its meetings. */
  lemma SwapMeetingsWithin(sk: Schedule, k: string, i: nat, j: nat)
    requires k in sk && i < |sk[k]| && j < |sk[k]|
    ensures multiset(SwapMeetings(sk, k, i, k, j)[k]) == multiset(sk[k])
  {
    var l := sk[k];
    UpdateCount(l, i, l[j]);
    UpdateCount(l[i := l[j]], j, l[i]);
  }

  /** The same swap done twice gives the schedule back. */
  lemma SwapMeetingsTwice(sk: Schedule, k1: string, i: nat, k2: string, j: nat)
    requires k1 in sk && k2 in sk && i < |sk[k1]| && j < |sk[k2]|
    ensures k1 in SwapMeetings(sk, k1, i, k2, j) && k2 in SwapMeetings(sk, k1, i, k2, j)
    ensures i < |SwapMeetings(sk, k1, i, k2, j)[k1]| && j < |SwapMeetings(sk, k1, i, k2, j)[k2]|
    ensures SwapMeetings(SwapMeetings(sk, k1, i, k2, j), k1, i, k2, j) == sk
  {
    var r := SwapMeetings(sk, k1, i, k2, j);
    var r2 := SwapMeetings(r, k1, i, k2, j);
    if k1 == k2 {
      assert r2[k1] == sk[k1];
    } else {
      assert r2[k1] == sk[k1] && r2[k2] == sk[k2];
    }
    assert r2.Keys == sk.Keys;
  }

  /** `s_list[idx] = e`: one meeting of class k put in slot e. */
  function Place(sk: Schedule, k: string, idx: nat, e: Slot): (r: Schedule)
    requires k in sk && idx < |sk[k]|
    ensures SameShape(r, sk)
    ensures r[k][idx] == e
    ensures forall j :: 0 <= j < |sk[k]| && j != idx ==> r[k][j] == sk[k][j]
    ensures forall c :: c in sk && c != k ==> r[c] == sk[c]
  {
    sk[k := sk[k][idx := e]]
  }

  // ---------------------------------------------------------------------
  // Mutations as recorded edits
  // ---------------------------------------------------------------------

  /** What a mutation did: nothing, a swap of two meetings, or a move of one meeting into a free grid slot. */
  datatype Mutation = Kept | Swapped(k1: string, i: nat, k2: string, j: nat) | Moved(k: string, idx: nat, e: Slot)

  /** `after` is `before` with mutation m carried out on it, m drawn from the classes and the free slots of `before`. */
  predicate Mutated(before: Schedule, after: Schedule, m: Mutation,
                    classCodes: seq<string>, rooms: seq<string>, startTimes: seq<(string, int)>)
  {
    match m
    case Kept => after == before
    case Swapped(k1, i, k2, j) =>
      k1 in classCodes && k2 in classCodes && k1 in before && k2 in before &&
      i < |before[k1]| && j < |before[k2]| && after == SwapMeetings(before, k1, i, k2, j)
    case Moved(k, idx, e) =>
      k in classCodes && k in before && idx < |before[k]| &&
      e in EmptySlotsFor(before, rooms, startTimes) && after == Place(before, k, idx, e)
  }

  /**
   * Every mutation keeps the class codes and list lengths, and a moved
   * meeting lands on a one-hour grid slot no class used before.
   */
  lemma MutatedSpec(before: Schedule, after: Schedule, m: Mutation,
                    classCodes: seq<string>, rooms: seq<string>, startTimes: seq<(string, int)>)
    requires Mutated(before, after, m, classCodes, rooms, startTimes)
    ensures SameShape(after, before)
    ensures WellFormed(before, classCodes) ==> WellFormed(after, classCodes)
    ensures m.Moved? ==> OnGrid(after[m.k][m.idx], rooms, startTimes) && after[m.k][m.idx] !in UsedSlots(before)
  {
    if m.Swapped? {
      SwapMeetingsShape(before, m.k1, m.i, m.k2, m.j);
    }
  }

  /** The schedule a mutation edits in place. */
  class Jadwal {
    var slotKuliah: Schedule

    constructor (sk: Schedule)
      ensures slotKuliah == sk
    {
      slotKuliah := sk;
    }
  }

  /** The best of a seeded population is a seed, scored, and no seed scores less. */
  lemma BestOfSeeds(pop: seq<Individual>, seeds: seq<Schedule>, objective: Objective)
    requires |pop| == |seeds| > 0 && Scored(pop, objective)
    requires forall i :: 0 <= i < |seeds| ==> pop[i].jadwal == seeds[i]
    ensures Best(pop).jadwal in seeds && Best(pop).objective == objective(BagsOf(Best(pop).jadwal))
    ensures forall i :: 0 <= i < |seeds| ==> Best(pop).objective <= objective(BagsOf(seeds[i]))
  {
    var m := MinIndex(pop, ObjectiveOf);
    assert Best(pop) == pop[m];
    forall i | 0 <= i < |seeds|
      ensures Best(pop).objective <= objective(BagsOf(seeds[i]))
    {
      assert ObjectiveOf(pop[m]) <= ObjectiveOf(pop[i]);
    }
  }

  /** Every individual carries the objective of its own schedule. */
  predicate Scored(pop: seq<Individual>, objective: Objective)
  {
    forall i :: 0 <= i < |pop| ==> pop[i].objective == objective(BagsOf(pop[i].jadwal))
  }

  /** Elites are individuals of the population, so they are well formed and scored when it is. */
  lemma ElitesInherit(pop: seq<Individual>, n: int, classCodes: seq<string>, objective: Objective)
    requires AllWellFormed(pop, classCodes) && Scored(pop, objective)
    ensures AllWellFormed(Elitism(pop, n), classCodes) && Scored(Elitism(pop, n), objective)
  {
    ElitismOrdered(pop, n);
    var r := Elitism(pop, n);
    forall i | 0 <= i < |r|
      ensures WellFormed(r[i].jadwal, classCodes) && r[i].objective == objective(BagsOf(r[i].jadwal))
    {
      assert r[i] in multiset(pop);
      var k :| 0 <= k < |pop| && pop[k] == r[i];
    }
  }

  /** Appending a well-formed, scored individual keeps a population so and keeps its prefix. */
  lemma Extend(pop: seq<Individual>, ind: Individual, prefix: seq<Individual>,
               classCodes: seq<string>, objective: Objective)
    requires AllWellFormed(pop, classCodes) && Scored(pop, objective)
    requires WellFormed(ind.jadwal, classCodes) && ind.objective == objective(BagsOf(ind.jadwal))
    requires |prefix| <= |pop| && pop[..|prefix|] == prefix
    ensures AllWellFormed(pop + [ind], classCodes) && Scored(pop + [ind], objective)
    ensures (pop + [ind])[..|prefix|] == prefix
  {
    assert (pop + [ind])[..|prefix|] == pop[..|prefix|];
  }

  /** With at least one elite, the best of the next generation is no worse than the best of this one. */
  lemma ElitistStep(pop: seq<Individual>, next: seq<Individual>, n: int)
    requires |pop| > 0 && n > 0
    requires |Elitism(pop, n)| <= |next| && next[..|Elitism(pop, n)|] == Elitism(pop, n)
    ensures |next| > 0 && Best(next).objective <= Best(pop).objective
  {
    BestIsFirstElite(pop, n);
    assert next[0] == Elitism(pop, n)[0];
    assert ObjectiveOf(Best(next)) <= ObjectiveOf(next[0]);
  }

  /**
   * Traces recorded so far: one best and one average objective per
   * population, the best never above the average, and, with at least one
   * elite, the best never rising.
   */
  predicate TracesSoFar(bt: seq<real>, at: seq<real>, elitist: bool)
  {
    && |bt| == |at|
    && (forall g :: 0 <= g < |bt| ==> bt[g] <= at[g])
    && (elitist ==> forall g :: 0 < g < |bt| ==> bt[g] <= bt[g - 1])
  }

  /** What `search` records: the traces of the starting population and of each generation. */
  predicate Traces(bt: seq<real>, at: seq<real>, gens: int, elitist: bool)
  {
    |bt| == (if gens > 0 then gens else 0) + 1 && TracesSoFar(bt, at, elitist)
  }

  /** Appending a best at most its average, and (when elitist) at most the previous best, keeps the traces' shape. */
  lemma TracesGrow(bt: seq<real>, at: seq<real>, b: real, a: real, elitist: bool)
    requires TracesSoFar(bt, at, elitist) && |bt| > 0 && b <= a
    requires elitist ==> b <= bt[|bt| - 1]
    ensures TracesSoFar(bt + [b], at + [a], elitist)
  {
  }

  /** `elitism_n = max(0, min(elitism, ps - 1))`: fewer elites than individuals. */
  function ElitismCount(ps: int, elitism: int): (n: int)
    ensures 0 <= n && (ps >= 1 ==> n < ps)
    ensures 0 <= elitism < ps ==> n == elitism
  {
    var m := if elitism < ps - 1 then elitism else ps - 1;
    if m < 0 then 0 else m
  }

  /**
   * `tournament_select` as an outcome: `chosen` holds min(k, |pop|)
   * distinct positions of `pop`, and `best` is the first individual among
   * them, in sample order, with the least objective.
   */
  ghost predicate Tournament(pop: seq<Individual>, k: int, chosen: seq<nat>, best: Individual)
  {
    && |chosen| == (if k < |pop| then k else |pop|)
    && (forall i :: 0 <= i < |chosen| ==> chosen[i] < |pop|)
    && (forall i, j :: 0 <= i < j < |chosen| ==> chosen[i] != chosen[j])
    && (exists t :: 0 <= t < |chosen| && best == pop[chosen[t]] &&
                    forall u :: 0 <= u < t ==> pop[chosen[u]].objective > best.objective)
    && (forall i :: 0 <= i < |chosen| ==> best.objective <= pop[chosen[i]].objective)
  }

  /**
   * The two children before mutation: with crossover, each class's list
   * comes from one parent for the first child and from the other for the
   * second; without it, copies of the parents.
   */
  ghost predicate Inherited(p1: Schedule, p2: Schedule, crossed: bool, j1: Schedule, j2: Schedule,
                            classCodes: seq<string>)
  {
    if crossed then
      && (forall c :: c in j1 <==> c in classCodes)
      && j2.Keys == j1.Keys
      && (forall c :: c in classCodes ==>
            c in p1 && c in p2 &&
            ((j1[c] == p1[c] && j2[c] == p2[c]) || (j1[c] == p2[c] && j2[c] == p1[c])))
    else j1 == p1 && j2 == p2
  }

  /**
   * How one pair of children of a generation came about: the two
   * tournaments, whether the parents were crossed over, the children
   * before mutation, the mutations, and the children.
   */
  datatype Pairing = Pairing(
    chosen1: seq<nat>, p1: Individual, chosen2: seq<nat>, p2: Individual,
    crossed: bool, j1: Schedule, j2: Schedule, m1: Mutation, m2: Mutation,
    c1: Schedule, c2: Schedule)

  ghost predicate Bred(pop: seq<Individual>, k: int, pr: Pairing,
                       classCodes: seq<string>, rooms: seq<string>, startTimes: seq<(string, int)>)
  {
    && Tournament(pop, k, pr.chosen1, pr.p1)
    && Tournament(pop, k, pr.chosen2, pr.p2)
    && Inherited(pr.p1.jadwal, pr.p2.jadwal, pr.crossed, pr.j1, pr.j2, classCodes)
    && Mutated(pr.j1, pr.c1, pr.m1, classCodes, rooms, startTimes)
    && Mutated(pr.j2, pr.c2, pr.m2, classCodes, rooms, startTimes)
  }

  /**
   * After the `nElites` elites, `next` holds the children of `pairings` in
   * order, two per pairing, except that the second child of the last
   * pairing is dropped when the population is already full.
   */
  ghost predicate Lineage(next: seq<Individual>, nElites: nat, pairings: seq<Pairing>, pop: seq<Individual>,
                            k: int, classCodes: seq<string>, rooms: seq<string>, startTimes: seq<(string, int)>)
  {
    && nElites <= |next|
    && (|next| - nElites == 2 * |pairings| || |next| - nElites == 2 * |pairings| - 1)
    && (forall t :: 0 <= t < |pairings| ==>
          && Bred(pop, k, pairings[t], classCodes, rooms, startTimes)
          && next[nElites + 2 * t].jadwal == pairings[t].c1
          && (nElites + 2 * t + 1 < |next| ==> next[nElites + 2 * t + 1].jadwal == pairings[t].c2))
  }

  /** Appending the children of one more pairing keeps the record of who bred whom. */
  lemma LineageStep(before: seq<Individual>, after: seq<Individual>, nElites: nat, pairings: seq<Pairing>,
                      pr: Pairing, pop: seq<Individual>, k: int,
                      classCodes: seq<string>, rooms: seq<string>, startTimes: seq<(string, int)>)
    requires Lineage(before, nElites, pairings, pop, k, classCodes, rooms, startTimes)
    requires |before| - nElites == 2 * |pairings|
    requires Bred(pop, k, pr, classCodes, rooms, startTimes)
    requires |after| == |before| + 1 || |after| == |before| + 2
    requires after[..|before|] == before
    requires after[|before|].jadwal == pr.c1
    requires |after| == |before| + 2 ==> after[|before| + 1].jadwal == pr.c2
    ensures Lineage(after, nElites, pairings + [pr], pop, k, classCodes, rooms, startTimes)
  {
    var ps := pairings + [pr];
    forall t | 0 <= t < |ps|
      ensures Bred(pop, k, ps[t], classCodes, rooms, startTimes)
      ensures after[nElites + 2 * t].jadwal == ps[t].c1
      ensures nElites + 2 * t + 1 < |after| ==> after[nElites + 2 * t + 1].jadwal == ps[t].c2
    {
      if t < |pairings| {
        assert after[nElites + 2 * t] == before[nElites + 2 * t];
        assert after[nElites + 2 * t + 1] == before[nElites + 2 * t + 1];
      }
    }
  }

  /** `GAState`: the problem's classes and grid, the objective and the random source. */
  class GAState {
    const classCodes: seq<string>          // codes of problem.list_kelas
    const rooms: seq<string>               // codes of problem.list_ruangan
    const startTimes: seq<(string, int)>   // LIST_WAKTU_MULAI
    const objective: Objective
    const rng: Rng

    constructor (classCodes: seq<string>, rooms: seq<string>, startTimes: seq<(string, int)>,
                 objective: Objective, rng: Rng)
      ensures this.classCodes == classCodes && this.rooms == rooms && this.startTimes == startTimes
      ensures this.objective == objective && this.rng == rng
    {
      this.classCodes := classCodes;
      this.rooms := rooms;
      this.startTimes := startTimes;
      this.objective := objective;
      this.rng := rng;
    }

    /** `_evaluate`: the objective of a schedule. */
    function Evaluate(sk: Schedule): real
    {
      objective(BagsOf(sk))
    }

    /**
     * `tournament_select`: sample min(k, |pop|) distinct members and return
     * the first of least objective in sample order. `chosen` lists the
     * sampled positions.
     */
    method TournamentSelect(pop: seq<Individual>, k: int) returns (best: Individual, ghost chosen: seq<nat>)
      requires |pop| > 0 && k >= 1
      modifies rng
      ensures Tournament(pop, k, chosen, best)
      ensures rng.pos == old(rng.pos) + |chosen|
    {
      var size := if k < |pop| then k else |pop|;
      var picked := rng.Sample(|pop|, size);
      var sample := seq(size, i requires 0 <= i < size => pop[picked[i]]);
      var t := MinIndex(sample, ObjectiveOf);
      best := sample[t];
      chosen := picked;
      forall u | 0 <= u < |chosen|
        ensures best.objective <= pop[chosen[u]].objective
        ensures u < t ==> pop[chosen[u]].objective > best.objective
      {
        assert sample[u] == pop[chosen[u]];
        assert ObjectiveOf(sample[t]) <= ObjectiveOf(sample[u]);
      }
      assert best == pop[chosen[t]];
    }

    /**
     * `crossover`: for each class code in order, one draw decides whether
     * the first child takes that class's list from the first parent and the
     * second child from the second, or the other way round.
     */
    method Crossover(p1: Individual, p2: Individual) returns (c1: Schedule, c2: Schedule)
      requires forall c :: c in classCodes ==> c in p1.jadwal && c in p2.jadwal
      modifies rng
      ensures forall c :: c in c1 <==> c in classCodes
      ensures c2.Keys == c1.Keys
      ensures forall c :: c in classCodes ==>
        (c1[c] == p1.jadwal[c] && c2[c] == p2.jadwal[c]) || (c1[c] == p2.jadwal[c] && c2[c] == p1.jadwal[c])
      ensures Distinct(classCodes) ==> forall i :: 0 <= i < |classCodes| ==>
        if rng.reals(old(rng.pos) + i) < 0.5
        then c1[classCodes[i]] == p1.jadwal[classCodes[i]] && c2[classCodes[i]] == p2.jadwal[classCodes[i]]
        else c1[classCodes[i]] == p2.jadwal[classCodes[i]] && c2[classCodes[i]] == p1.jadwal[classCodes[i]]
      ensures rng.pos == old(rng.pos) + |classCodes|
    {
      c1, c2 := map[], map[];
      var t := 0;
      while t < |classCodes|
        invariant 0 <= t <= |classCodes| && rng.pos == old(rng.pos) + t
        invariant forall c :: c in c1 <==> c in classCodes[..t]
        invariant c2.Keys == c1.Keys
        invariant forall c :: c in c1 ==>
          (c1[c] == p1.jadwal[c] && c2[c] == p2.jadwal[c]) || (c1[c] == p2.jadwal[c] && c2[c] == p1.jadwal[c])
        invariant Distinct(classCodes) ==> forall i :: 0 <= i < t ==>
          if rng.reals(old(rng.pos) + i) < 0.5
          then c1[classCodes[i]] == p1.jadwal[classCodes[i]] && c2[classCodes[i]] == p2.jadwal[classCodes[i]]
          else c1[classCodes[i]] == p2.jadwal[classCodes[i]] && c2[classCodes[i]] == p1.jadwal[classCodes[i]]
      {
        var kode := classCodes[t];
        var x := rng.Random();
        if x < 0.5 {
          c1, c2 := c1[kode := p1.jadwal[kode]], c2[kode := p2.jadwal[kode]];
        } else {
          c1, c2 := c1[kode := p2.jadwal[kode]], c2[kode := p1.jadwal[kode]];
        }
        assert classCodes[..t + 1] == classCodes[..t] + [kode];
        t := t + 1;
      }
      assert classCodes[..t] == classCodes;
    }

    /** `_mut_swap_two_meetings`: two classes, a meeting of each, and the two trade slots. */
    method MutSwapTwoMeetings(jadwal: Jadwal) returns (ghost m: Mutation)
      requires |classCodes| > 0 && WellFormed(jadwal.slotKuliah, classCodes)
      modifies jadwal, rng
      ensures m.Swapped? && Mutated(old(jadwal.slotKuliah), jadwal.slotKuliah, m, classCodes, rooms, startTimes)
      ensures rng.pos == old(rng.pos) + 4
    {
      var a := rng.Below(|classCodes|);
      var k1 := classCodes[a];
      var b := rng.Below(|classCodes|);
      var k2 := classCodes[b];
      var i := rng.Below(|jadwal.slotKuliah[k1]|);
      var j := rng.Below(|jadwal.slotKuliah[k2]|);
      m := Swapped(k1, i, k2, j);
      jadwal.slotKuliah := SwapMeetings(jadwal.slotKuliah, k1, i, k2, j);
    }

    /**
     * `_mut_move_to_empty`: when some grid slot is free, one meeting of a
     * class moves to a free slot; otherwise nothing happens and nothing is drawn.
     */
    method MutMoveToEmpty(jadwal: Jadwal) returns (ghost m: Mutation)
      requires |classCodes| > 0 && WellFormed(jadwal.slotKuliah, classCodes)
      modifies jadwal, rng
      ensures m.Kept? <==> EmptySlotsFor(old(jadwal.slotKuliah), rooms, startTimes) == []
      ensures !m.Swapped? && Mutated(old(jadwal.slotKuliah), jadwal.slotKuliah, m, classCodes, rooms, startTimes)
      ensures rng.pos == old(rng.pos) + if m.Kept? then 0 else 3
    {
      var empty := EmptySlotsFor(jadwal.slotKuliah, rooms, startTimes);
      if |empty| == 0 {
        m := Kept;
        return;
      }
      var a := rng.Below(|classCodes|);
      var k := classCodes[a];
      var idx := rng.Below(|jadwal.slotKuliah[k]|);
      var b := rng.Below(|empty|);
      var e := empty[b];
      m := Moved(k, idx, e);
      jadwal.slotKuliah := Place(jadwal.slotKuliah, k, idx, e);
    }

    /**
     * `mutate`: a first draw above the rate leaves the schedule alone;
     * otherwise a second draw below 0.5 picks the swap, any other the move.
     */
    method Mutate(jadwal: Jadwal, mutationRate: real) returns (ghost m: Mutation)
      requires |classCodes| > 0 && WellFormed(jadwal.slotKuliah, classCodes)
      modifies jadwal, rng
      ensures rng.reals(old(rng.pos)) > mutationRate ==> m.Kept? && rng.pos == old(rng.pos) + 1
      ensures rng.reals(old(rng.pos)) <= mutationRate ==>
        (m.Swapped? <==> rng.reals(old(rng.pos) + 1) < 0.5)
      ensures Mutated(old(jadwal.slotKuliah), jadwal.slotKuliah, m, classCodes, rooms, startTimes)
      ensures WellFormed(jadwal.slotKuliah, classCodes)
    {
      ghost var before := jadwal.slotKuliah;
      var x := rng.Random();
      if x > mutationRate {
        m := Kept;
        return;
      }
      var y := rng.Random();
      if y < 0.5 {
        m := MutSwapTwoMeetings(jadwal);
      } else {
        m := MutMoveToEmpty(jadwal);
      }
      MutatedSpec(before, jadwal.slotKuliah, m, classCodes, rooms, startTimes);
    }
  }

  /**
   * `GeneticAlgorithm`: the parameters (the defaults when none are given),
   * the search state, and the statistics `search` leaves behind.
   */
  class GeneticAlgorithm {
    const params: GAParams
    const state: GAState
    var generationsDone: int
    var bestTrace: seq<real>
    var avgTrace: seq<real>
    var jadwalInit: Option<Schedule>
    var jadwal: Option<Schedule>

    constructor (params: Option<GAParams>, state: GAState)
      ensures this.params == if params.Some? then params.value else DefaultParams
      ensures this.state == state
      ensures generationsDone == 0 && bestTrace == [] && avgTrace == []
      ensures jadwalInit == None && jadwal == None
    {
      this.params := if params.Some? then params.value else DefaultParams;
      this.state := state;
      generationsDone := 0;
      bestTrace := [];
      avgTrace := [];
      jadwalInit := None;
      jadwal := None;
    }

    /**
     * The body of one generation of `search`: the elites first, then pairs
     * of children of tournament winners (crossed over or copied, then
     * mutated) until the population is full again.
     */
    method NextGeneration(population: seq<Individual>, elitismN: int)
      returns (next: seq<Individual>, ghost pairings: seq<Pairing>)
      requires |population| == params.populationSize && 0 <= elitismN < |population|
      requires params.tournamentK >= 1 && |state.classCodes| > 0
      requires AllWellFormed(population, state.classCodes) && Scored(population, state.objective)
      modifies state.rng
      ensures |next| == params.populationSize
      ensures AllWellFormed(next, state.classCodes) && Scored(next, state.objective)
      ensures |Elitism(population, elitismN)| <= |next|
      ensures next[..|Elitism(population, elitismN)|] == Elitism(population, elitismN)
      ensures Lineage(next, |Elitism(population, elitismN)|, pairings, population, params.tournamentK,
                        state.classCodes, state.rooms, state.startTimes)
    {
      var ps := params.populationSize;
      var elites := Elitism(population, elitismN);
      ElitismSize(population, elitismN);
      ElitesInherit(population, elitismN, state.classCodes, state.objective);
      next := elites;
      pairings := [];
      while |next| < ps
        invariant |elites| <= |next| <= ps && next[..|elites|] == elites
        invariant AllWellFormed(next, state.classCodes) && Scored(next, state.objective)
        invariant Lineage(next, |elites|, pairings, population, params.tournamentK,
                            state.classCodes, state.rooms, state.startTimes)
        invariant |next| < ps ==> |next| - |elites| == 2 * |pairings|
        decreases ps - |next|
      {
        var c1, c2, pr := Pair(population);
        next := AddChildren(next, c1, c2, ps, elites, pairings, pr, population);
        pairings := pairings + [pr];
      }
    }

    /** The inner loop's tail: the first child joins, the second only while there is room. */
    method AddChildren(next: seq<Individual>, c1: Schedule, c2: Schedule, ps: int, ghost elites: seq<Individual>,
                       ghost pairings: seq<Pairing>, ghost pr: Pairing, ghost population: seq<Individual>)
      returns (after: seq<Individual>)
      requires |elites| <= |next| < ps && next[..|elites|] == elites
      requires AllWellFormed(next, state.classCodes) && Scored(next, state.objective)
      requires WellFormed(c1, state.classCodes) && WellFormed(c2, state.classCodes)
      requires Lineage(next, |elites|, pairings, population, params.tournamentK,
                       state.classCodes, state.rooms, state.startTimes)
      requires |next| - |elites| == 2 * |pairings|
      requires Bred(population, params.tournamentK, pr, state.classCodes, state.rooms, state.startTimes)
      requires pr.c1 == c1 && pr.c2 == c2
      ensures |next| < |after| <= ps && after[..|elites|] == elites
      ensures AllWellFormed(after, state.classCodes) && Scored(after, state.objective)
      ensures Lineage(after, |elites|, pairings + [pr], population, params.tournamentK,
                      state.classCodes, state.rooms, state.startTimes)
      ensures |after| < ps ==> |after| - |elites| == 2 * |pairings + [pr]|
    {
      var child1 := Individual(c1, state.Evaluate(c1));
      Extend(next, child1, elites, state.classCodes, state.objective);
      after := next + [child1];
      assert after[..|next|] == next && after[|next|] == child1;
      if |after| < ps {
        var child2 := Individual(c2, state.Evaluate(c2));
        Extend(after, child2, elites, state.classCodes, state.objective);
        ghost var one := after;
        after := after + [child2];
        assert after[..|next|] == one[..|next|] && after[|next|] == child1 && after[|next| + 1] == child2;
      }
      LineageStep(next, after, |elites|, pairings, pr, population, params.tournamentK,
                  state.classCodes, state.rooms, state.startTimes);
    }

    /** One generation, seen from the loop: same size, and with elites, a best no worse than before. */
    method Generation(population: seq<Individual>, elitismN: int) returns (next: seq<Individual>)
      requires |population| == params.populationSize && 0 <= elitismN < |population|
      requires params.tournamentK >= 1 && |state.classCodes| > 0
      requires AllWellFormed(population, state.classCodes) && Scored(population, state.objective)
      modifies state.rng
      ensures |next| == |population|
      ensures AllWellFormed(next, state.classCodes) && Scored(next, state.objective)
      ensures elitismN >= 1 ==> Best(next).objective <= Best(population).objective
    {
      ghost var pairings;
      next, pairings := NextGeneration(population, elitismN);
      if elitismN >= 1 {
        ElitistStep(population, next, elitismN);
      }
    }

    /** Two tournaments, then the two children of their winners. */
    method Pair(population: seq<Individual>) returns (c1: Schedule, c2: Schedule, ghost pr: Pairing)
      requires |population| > 0 && params.tournamentK >= 1 && |state.classCodes| > 0
      requires AllWellFormed(population, state.classCodes)
      modifies state.rng
      ensures Bred(population, params.tournamentK, pr, state.classCodes, state.rooms, state.startTimes)
      ensures pr.c1 == c1 && pr.c2 == c2
      ensures WellFormed(c1, state.classCodes) && WellFormed(c2, state.classCodes)
    {
      var p1, p2;
      ghost var chosen1, chosen2;
      p1, chosen1 := state.TournamentSelect(population, params.tournamentK);
      p2, chosen2 := state.TournamentSelect(population, params.tournamentK);
      assert p1 in population && p2 in population by {
        var t1 :| 0 <= t1 < |chosen1| && p1 == population[chosen1[t1]];
        var t2 :| 0 <= t2 < |chosen2| && p2 == population[chosen2[t2]];
      }
      ghost var crossed, j1, j2, m1, m2;
      c1, c2, crossed, j1, j2, m1, m2 := Breed(p1, p2);
      pr := Pairing(chosen1, p1, chosen2, p2, crossed, j1, j2, m1, m2, c1, c2);
    }

    /**
     * Two children of two parents: a first draw below the crossover rate
     * crosses them over, otherwise they are copied (`j1`, `j2`); then each
     * child is mutated (`m1`, `m2`).
     */
    method Breed(p1: Individual, p2: Individual)
      returns (c1: Schedule, c2: Schedule, ghost crossed: bool, ghost j1: Schedule, ghost j2: Schedule,
               ghost m1: Mutation, ghost m2: Mutation)
      requires |state.classCodes| > 0
      requires WellFormed(p1.jadwal, state.classCodes) && WellFormed(p2.jadwal, state.classCodes)
      modifies state.rng
      ensures crossed <==> state.rng.reals(old(state.rng.pos)) < params.crossoverRate
      ensures Inherited(p1.jadwal, p2.jadwal, crossed, j1, j2, state.classCodes)
      ensures Mutated(j1, c1, m1, state.classCodes, state.rooms, state.startTimes)
      ensures Mutated(j2, c2, m2, state.classCodes, state.rooms, state.startTimes)
      ensures WellFormed(c1, state.classCodes) && WellFormed(c2, state.classCodes)
    {
      var x := state.rng.Random();
      var k1, k2;
      if x < params.crossoverRate {
        k1, k2 := state.Crossover(p1, p2);
      } else {
        k1, k2 := p1.jadwal, p2.jadwal;
      }
      crossed, j1, j2 := x < params.crossoverRate, k1, k2;
      c1, m1 := Offspring(k1);
      c2, m2 := Offspring(k2);
    }

    /** One child: a fresh `Jadwal` holding the schedule, mutated with the mutation rate. */
    method Offspring(j: Schedule) returns (c: Schedule, ghost m: Mutation)
      requires |state.classCodes| > 0 && WellFormed(j, state.classCodes)
      modifies state.rng
      ensures WellFormed(c, state.classCodes)
      ensures Mutated(j, c, m, state.classCodes, state.rooms, state.startTimes)
    {
      var child := new Jadwal(j);
      m := state.Mutate(child, params.mutationRate);
      c := child.slotKuliah;
    }

    /**
     * `search`, given the schedules the base class seeds, one per
     * individual. The statistics are reset first; the traces hold the best
     * and the average objective of the seeded population and of every
     * generation after it.
     */
    method Search(seeds: seq<Schedule>)
      requires |seeds| == params.populationSize >= 1
      requires params.maxGenerations >= 1 ==> params.tournamentK >= 1
      requires |state.classCodes| > 0
      requires forall i :: 0 <= i < |seeds| ==> WellFormed(seeds[i], state.classCodes)
      modifies this, state.rng
      ensures generationsDone == if params.maxGenerations > 0 then params.maxGenerations else 0
      ensures Traces(bestTrace, avgTrace, params.maxGenerations,
                     ElitismCount(params.populationSize, params.elitism) >= 1)
      ensures jadwalInit.Some? && jadwalInit.value in seeds
      ensures bestTrace[0] == state.Evaluate(jadwalInit.value)
      ensures forall i :: 0 <= i < |seeds| ==> bestTrace[0] <= state.Evaluate(seeds[i])
      ensures jadwal.Some? && WellFormed(jadwal.value, state.classCodes)
      ensures state.Evaluate(jadwal.value) == bestTrace[|bestTrace| - 1]
    {
      generationsDone, bestTrace, avgTrace := 0, [], [];
      jadwalInit, jadwal := None, None;
      var bt, at, init, final := Run(seeds);
      var gens := params.maxGenerations;
      generationsDone := if gens > 0 then gens else 0;
      bestTrace, avgTrace := bt, at;
      jadwalInit, jadwal := Some(init), Some(final);
    }

    /** The work of `search` on local values: seed, keep the best seed, evolve, keep the final best. */
    method Run(seeds: seq<Schedule>) returns (bt: seq<real>, at: seq<real>, init: Schedule, final: Schedule)
      requires |seeds| == params.populationSize >= 1
      requires params.maxGenerations >= 1 ==> params.tournamentK >= 1
      requires |state.classCodes| > 0
      requires forall i :: 0 <= i < |seeds| ==> WellFormed(seeds[i], state.classCodes)
      modifies state.rng
      ensures Traces(bt, at, params.maxGenerations, ElitismCount(params.populationSize, params.elitism) >= 1)
      ensures init in seeds && bt[0] == state.Evaluate(init)
      ensures forall i :: 0 <= i < |seeds| ==> bt[0] <= state.Evaluate(seeds[i])
      ensures WellFormed(final, state.classCodes) && state.Evaluate(final) == bt[|bt| - 1]
    {
      var elitismN := ElitismCount(params.populationSize, params.elitism);
      var population := SeedPopulation(seeds);
      BestOfSeeds(population, seeds, state.objective);
      init := Best(population).jadwal;
      population, bt, at := Evolve(population, elitismN);
      var b := Best(population);
      assert b in population;
      final := b.jadwal;
    }

    /**
     * The generation loop of `search`: `bt` and `at` are the best and the
     * average objective of the starting population and of each of the
     * `max_generations` generations after it.
     */
    method Evolve(population0: seq<Individual>, elitismN: int)
      returns (population: seq<Individual>, bt: seq<real>, at: seq<real>)
      requires |population0| == params.populationSize && 0 <= elitismN < |population0|
      requires params.maxGenerations >= 1 ==> params.tournamentK >= 1
      requires |state.classCodes| > 0
      requires AllWellFormed(population0, state.classCodes) && Scored(population0, state.objective)
      modifies state.rng
      ensures |population| == params.populationSize
      ensures AllWellFormed(population, state.classCodes) && Scored(population, state.objective)
      ensures Traces(bt, at, params.maxGenerations, elitismN >= 1)
      ensures bt[0] == Best(population0).objective && bt[|bt| - 1] == Best(population).objective
    {
      var gens := params.maxGenerations;
      population := population0;
      BestAtMostMean(population);
      bt, at := [Best(population).objective], [Mean(population)];
      var gen := 1;
      while gen <= gens
        invariant 1 <= gen <= (if gens > 0 then gens else 0) + 1
        invariant |population| == |population0|
        invariant AllWellFormed(population, state.classCodes) && Scored(population, state.objective)
        invariant |bt| == gen && TracesSoFar(bt, at, elitismN >= 1)
        invariant bt[0] == Best(population0).objective && bt[gen - 1] == Best(population).objective
      {
        var next := Generation(population, elitismN);
        BestAtMostMean(next);
        TracesGrow(bt, at, Best(next).objective, Mean(next), elitismN >= 1);
        population := next;
        bt, at := bt + [Best(population).objective], at + [Mean(population)];
        gen := gen + 1;
      }
    }

    /** `seed_population`: each seeded schedule with its objective. */
    method SeedPopulation(seeds: seq<Schedule>) returns (population: seq<Individual>)
      requires forall i :: 0 <= i < |seeds| ==> WellFormed(seeds[i], state.classCodes)
      ensures |population| == |seeds|
      ensures forall i :: 0 <= i < |seeds| ==> population[i].jadwal == seeds[i]
      ensures AllWellFormed(population, state.classCodes) && Scored(population, state.objective)
    {
      population := [];
      var i := 0;
      while i < |seeds|
        invariant 0 <= i <= |seeds| && |population| == i
        invariant forall t :: 0 <= t < i ==> population[t].jadwal == seeds[t]
        invariant AllWellFormed(population, state.classCodes) && Scored(population, state.objective)
      {
        population := population + [Individual(seeds[i], state.Evaluate(seeds[i]))];
        i := i + 1;
      }
    }
  }
}
