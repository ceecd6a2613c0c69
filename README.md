# Weekly class timetabling with local search — a Dafny model

The system schedules a university's weekly classes. Each class has a code,
an enrolment and a number of credits (SKS), and meets for one hour per
credit. Rooms have a capacity. Each student lists the classes they want,
keyed by priority number. The Python back end does four things:

- it turns a JSON request into a problem (`load_problem`);
- it validates the problem (`State.validate`);
- it seeds a random first timetable (`State.seed_jadwal`);
- it improves the timetable by steepest-descent hill climbing
  (`HillClimbingState`, `SteepestAscentHillClimbing`) or by a genetic
  algorithm (`GAState`, `GeneticAlgorithm`).

The React front end does the rest:

- it checks the algorithm parameters and sends the request (`handleSolve`);
- it tags every returned run with its kind and selects the run with the
  least final objective;
- it keeps the selected run, the rooms offered and the selected room
  consistent through three effects;
- it renders the metrics cards, the charts, the results table and the
  before/after room timetables.

The model has one module per source file, plus four shared modules:

- `Wrappers`: Option and Result.
- `Text`: integer rendering and parsing, string order, join.
- `Slots`: schedules, the room × start-time grid, the slots in use.
- `Oracle`: the random source. It is an explicit stream of draws, so every
  random choice is a parameter of the model.

The mapping of source files to modules:

| source | module |
|---|---|
| `state.py` | `ProblemState` |
| `state_model_parser.py` | `ProblemParser` |
| `hill_climbing.py` | `HillClimbing` |
| `genetic_algorithm.py` | `Genetic` |
| `utils.ts` | `Runs` |
| `main.tsx` | `Solve` |
| `ChartsDisplay.tsx` | `Charts` |
| `MetricsDisplay.tsx` | `Metrics` |
| `ResultsTable.tsx` | `ResultsTable` |
| `ScheduleComparison.tsx` | `Comparison` |

The form of the model follows the form of the code:

- Code that updates objects in place becomes classes with `modifies`
  clauses and loops with invariants. This covers the hill-climbing state,
  the genetic-algorithm state and solver, the validating and seeding
  `State`, and the page state of `SchedulerUI`.
- The rendering code and the pure helpers become functions and lemmas.

The back end never fixes the search objective: `State.objective` returns 0
and is marked TODO. The model therefore takes the objective as a parameter.
It is a function of each class's multiset of slots, so it does not depend
on the order of the slot lists. Every property proved about the searches
holds for any objective.

## Model

| member | source | states |
|---|---|---|
| `ProblemParser.ToClasses` | src/api/app/algorithms/state_model_parser.py:5 | each class model is copied field by field, in order |
| `ProblemParser.ToRooms` | src/api/app/algorithms/state_model_parser.py:6 | each room model is copied in order, its quota becoming the room's capacity |
| `ProblemParser.Zip` | src/api/app/algorithms/state_model_parser.py:20 | pairs the i-th priority with the i-th course code |
| `ProblemParser.AsMapKeys` | src/api/app/algorithms/state_model_parser.py:19-21 | the dictionary built from the entries has exactly the entries' keys |
| `ProblemParser.AsMapLookup` | src/api/app/algorithms/state_model_parser.py:19-21 | an entry whose key no later entry repeats is what the dictionary holds for that key (a later duplicate overwrites) |
| `ProblemParser.AsMapZip` | src/api/app/algorithms/state_model_parser.py:19-21 | with unique priorities, the priority dictionary has one key per course, its keys are the priorities, and it maps each priority to its course |
| `ProblemParser.StudentErrorNone` | src/api/app/algorithms/state_model_parser.py:9-14 | a student is accepted exactly when the two lists have equal length and the priorities are pairwise distinct |
| `ProblemParser.LoadProblem` | src/api/app/algorithms/state_model_parser.py:4-29 | fails exactly when some student is rejected, with the message of the first rejected student; otherwise the classes and rooms are converted and each student becomes its nim with its zipped, duplicate-free priority entries, in order |
| `ProblemState.ElementsCardinality` | src/api/app/algorithms/state.py:63 | `len(set(s)) == len(s)` holds exactly when s has no repeated element, and the set is never larger |
| `ProblemState.FirstProblem` | src/api/app/algorithms/state.py:57-62 | no problem exactly when no element has one; otherwise the problem of an element that no earlier element beats |
| `ProblemState.FirstProblemAt` | src/api/app/algorithms/state.py:57-62 | the problem at position i is the one reported when no earlier position has a problem |
| `ProblemState.StudentsError` | src/api/app/algorithms/state.py:74-82 | no error exactly when every student's plan passes; otherwise the message names a student whose plan fails, with that plan's problem |
| `ProblemState.StudentsErrorAt` | src/api/app/algorithms/state.py:74-82 | when student k is the first at fault, the error is "Mahasiswa NIM <k's nim> " followed by k's problem |
| `ProblemState.StudentsErrorNamesWrongStudent` | src/api/app/algorithms/state.py:74-82 | for two students of whom only the second is at fault, the nested loop as written names the first student, while the corrected check names the second |
| `ProblemState.PlanProblemNone` | src/api/app/algorithms/state.py:77-82 | a plan passes exactly when every priority lies in 1..n and every class code is known |
| `ProblemState.ValidationErrorNone` | src/api/app/algorithms/state.py:55-82 | `validate` raises nothing exactly when all classes have credits and students at least 1, class codes are unique, capacities are non-negative, room codes are unique, and every student entry has a priority in 1..n and a known class code |
| `ProblemState.SizedStep` | src/api/app/algorithms/state.py:91-105 | storing class n's list under its code (overwriting an earlier class of that code) keeps every kept list one position per credit |
| `ProblemState.SeededStep` | src/api/app/algorithms/state.py:91-105 | storing class n's placed list extends the timetable built so far: keys are the codes seen, every list placed and sized |
| `ProblemState.State.constructor` | src/api/app/algorithms/state.py:47-52 | the input lists and the random source are stored; `output_jadwal` starts empty |
| `ProblemState.State.CheckPlan` | src/api/app/algorithms/state.py:77-82 | the loop over one student's entries returns the first entry problem: a priority outside 1..n, else an unknown class code |
| `ProblemState.State.CheckClasses` | src/api/app/algorithms/state.py:56-64 | returns the first class problem (credits before enrolment); when there is none, the set of class codes |
| `ProblemState.State.CheckRooms` | src/api/app/algorithms/state.py:66-72 | returns the first negative-capacity room; when there is none, the set of room codes |
| `ProblemState.State.CheckStudents` | src/api/app/algorithms/state.py:74-82 | the nested student loop returns the corrected student error |
| `ProblemState.State.Validate` | src/api/app/algorithms/state.py:55-82 | returns the first error in source order: class problems, duplicate class codes, room problems, duplicate room codes, student problems |
| `ProblemState.State.SeedJadwal` | src/api/app/algorithms/state.py:87-107 | fails for lack of a room exactly when there are no rooms and some class has a credit; on failure `output_jadwal` is unchanged; on success it has one entry per class code, one position per credit, every position in a listed room on a weekday at 7..17, and no start repeated within a class |
| `ProblemState.State.SeedClasses` | src/api/app/algorithms/state.py:88-105 | the class loop: no room exactly when there are no rooms and some class has a credit; on success the same timetable properties |
| `ProblemState.State.SeedClass` | src/api/app/algorithms/state.py:92-104 | one class: no room exactly when there are no rooms and it has a credit; on success one position per credit, with distinct starts, on the grid and in listed rooms |
| `ProblemState.State.DrawStart` | src/api/app/algorithms/state.py:95 | the drawn start is a day of `LIST_HARI` and an hour in 7..17, taken from the next two draws |
| `Slots.RoomSlots` | src/api/app/algorithms/genetic_algorithm.py:62-64 | one room's row: one one-hour slot per listed start time, in order |
| `Slots.AllSlots` | src/api/app/algorithms/genetic_algorithm.py:60-65 | `_all_possible_slots`: a slot is in the list exactly when it is a one-hour slot of a listed room at a listed start |
| `Slots.AllSlotsLength` | src/api/app/algorithms/genetic_algorithm.py:60-65 | the grid has rooms × start times slots |
| `Slots.UsedSlots` | src/api/app/algorithms/genetic_algorithm.py:68-71 | a slot is used exactly when some class meets in it |
| `Oracle.Rng.constructor` | src/api/app/algorithms/state.py:48 | a random source at the start of its draw streams |
| `Oracle.Rng.Below` | src/api/app/algorithms/hill_climbing.py:106 | `choice` / `randrange`: an index below n, from the next draw |
| `Oracle.Rng.Random` | src/api/app/algorithms/genetic_algorithm.py:84 | `random()`: the next real draw |
| `Oracle.Rng.Sample` | src/api/app/algorithms/genetic_algorithm.py:56 | `sample(range(n), k)`: k pairwise distinct indices below n, using k draws |
| `HillClimbing.FirstIndex` | src/api/app/algorithms/hill_climbing.py:97 | `list.index(x)`: a position holding x with no earlier x |
| `HillClimbing.ReplaceFirstCounts` | src/api/app/algorithms/hill_climbing.py:97-98 | `l[l.index(x)] = y` keeps the length and trades one x for one y |
| `HillClimbing.SwapSchedule` | src/api/app/algorithms/hill_climbing.py:95-98 | the swap on the slot lists keeps the class codes |
| `HillClimbing.SwapScheduleBags` | src/api/app/algorithms/hill_climbing.py:95-98 | up to list order, the swap takes one s1 from k1 and gives it s2, then takes one s2 from k2 and gives it s1 |
| `HillClimbing.SwapScheduleLengths` | src/api/app/algorithms/hill_climbing.py:95-98 | a swap keeps every class's number of meetings |
| `HillClimbing.SwapBagsCount` | src/api/app/algorithms/hill_climbing.py:95-98 | the count of each (class, slot) pair after a swap, in terms of the count before |
| `HillClimbing.SwapIdxCount` | src/api/app/algorithms/hill_climbing.py:100-103 | the index count of each (slot, class) pair after the index swap, in terms of the count before |
| `HillClimbing.RelabelCount` | src/api/app/algorithms/hill_climbing.py:102 | replacing one class under a slot moves one count from the old class to the new one |
| `HillClimbing.SwapKeepsConsistent` | src/api/app/algorithms/hill_climbing.py:94-103 | a swap is defined on the index (each `index` call finds its element) and keeps the index the inverse of the schedule |
| `HillClimbing.SwapIdxNonEmpty` | src/api/app/algorithms/hill_climbing.py:100-103 | a swap leaves no slot of the index with an empty list |
| `HillClimbing.SwapBagsMembers` | src/api/app/algorithms/hill_climbing.py:95-98 | after a swap, k1 meets in s2 and k2 meets in s1 |
| `HillClimbing.SwapIdxMembers` | src/api/app/algorithms/hill_climbing.py:100-103 | after the index swap, k1 is listed under s2 and k2 under s1 |
| `HillClimbing.SwapUndoCount` | src/api/app/algorithms/hill_climbing.py:37-46 | swapping back restores each (class, slot) count |
| `HillClimbing.SwapUndoBags` | src/api/app/algorithms/hill_climbing.py:37-46 | `_swap_pair_jadwal(k1, s2, k2, s1)` after `_swap_pair_jadwal(k1, s1, k2, s2)` restores every class's slots as multisets |
| `HillClimbing.SwapUndoIdx` | src/api/app/algorithms/hill_climbing.py:37-46 | swapping back restores the index as multisets |
| `HillClimbing.SwapUndo` | src/api/app/algorithms/hill_climbing.py:37-46 | the undo swap is defined and restores both the schedule and the index as multisets |
| `HillClimbing.MoveSchedule` | src/api/app/algorithms/hill_climbing.py:119-120 | the move on the slot lists keeps the class codes |
| `HillClimbing.MoveScheduleBags` | src/api/app/algorithms/hill_climbing.py:119-120 | up to list order, the move trades one `from` of the class for one `to` |
| `HillClimbing.MoveScheduleLengths` | src/api/app/algorithms/hill_climbing.py:119-120 | a move keeps every class's number of meetings |
| `HillClimbing.MoveBagsCount` | src/api/app/algorithms/hill_climbing.py:119-120 | the count of each (class, slot) pair after a move, in terms of the count before |
| `HillClimbing.WithdrawKeys` | src/api/app/algorithms/hill_climbing.py:122-125 | removing the class drops the slot's entry exactly when the class was its only member, and changes no other entry |
| `HillClimbing.WithdrawCount` | src/api/app/algorithms/hill_climbing.py:122-125 | removing the class lowers exactly its count under `from` by one |
| `HillClimbing.DepositCount` | src/api/app/algorithms/hill_climbing.py:127-131 | appending (or creating `[kode]`) adds the slot's entry, raises exactly the count of the class under `to` by one, and changes no other entry |
| `HillClimbing.MoveIdxKeys` | src/api/app/algorithms/hill_climbing.py:122-131 | the slots the index has after a move |
| `HillClimbing.MoveIdxCount` | src/api/app/algorithms/hill_climbing.py:122-131 | the index count of each (slot, class) pair after a move, in terms of the count before |
| `HillClimbing.MoveKeepsCounts` | src/api/app/algorithms/hill_climbing.py:118-131 | after a move, the index still counts every class in every slot as the schedule does |
| `HillClimbing.MoveKeepsNonEmpty` | src/api/app/algorithms/hill_climbing.py:122-125 | a move leaves no slot of the index with an empty list |
| `HillClimbing.MoveEmptyKeys` | src/api/app/algorithms/hill_climbing.py:123-131 | after a move the empty slots stay disjoint from the index, and together they gain exactly the target |
| `HillClimbing.MoveKeepsConsistent` | src/api/app/algorithms/hill_climbing.py:118-131 | a move is defined on the index and keeps the index inverse to the schedule and disjoint from the empty slots |
| `HillClimbing.MoveIntoFresh` | src/api/app/algorithms/hill_climbing.py:129-131 | moving into a slot the index lacks creates its list holding the class alone |
| `HillClimbing.MoveUndoBags` | src/api/app/algorithms/hill_climbing.py:54-63 | moving out and back restores every class's slots as multisets |
| `HillClimbing.MoveUndoIdxCount` | src/api/app/algorithms/hill_climbing.py:54-63 | moving into a slot the index lacks and back restores every index count |
| `HillClimbing.MoveUndoIdx` | src/api/app/algorithms/hill_climbing.py:54-63 | moving into an empty slot and back restores the index as multisets |
| `HillClimbing.MoveUndoEmpty` | src/api/app/algorithms/hill_climbing.py:54-63 | moving into an empty slot and back restores the set of empty slots exactly |
| `HillClimbing.MoveUndo` | src/api/app/algorithms/hill_climbing.py:54-63 | a trial move into an empty slot followed by the move back restores the schedule, the index and the empty slots |
| `HillClimbing.ReplaceFirstUndo` | src/api/app/algorithms/hill_climbing.py:120 | replacing the first x by a y the list lacks, then the first y by x, gives the list back |
| `HillClimbing.MoveScheduleUndo` | src/api/app/algorithms/hill_climbing.py:54-63 | a move into a slot the class does not use, followed by the move back, restores the lists exactly, order included |
| `HillClimbing.BestSoFarStart` | src/api/app/algorithms/hill_climbing.py:30-32 | before any trial: best change 0 and no best move |
| `HillClimbing.BestSoFarStep` | src/api/app/algorithms/hill_climbing.py:41-44 | a trial whose change is strictly below the best becomes the best; any other trial leaves the best alone |
| `HillClimbing.SwapKeepsInvariant` | src/api/app/algorithms/hill_climbing.py:94-103 | a swap keeps the search state's invariant (the index inverts the schedule, empty slots are unindexed, every class meets), and the empty slots and the index still cover the same slots |
| `HillClimbing.MoveKeepsInvariant` | src/api/app/algorithms/hill_climbing.py:118-131 | a move keeps the same invariant; the new empty slots and index cover what the old ones covered plus the target |
| `HillClimbing.SwapIdxKeys` | src/api/app/algorithms/hill_climbing.py:100-103 | the index swap keeps the set of indexed slots |
| `HillClimbing.MoveKeepsCovers` | src/api/app/algorithms/hill_climbing.py:122-131 | the slots left empty after a move and the slots the moved index lists together are the slots covered before plus the target |
| `HillClimbing.IndexedIsUsed` | src/api/app/algorithms/hill_climbing.py:80-84 | every slot the index lists is a meeting slot of some class |
| `HillClimbing.ConsistentByCounts` | src/api/app/algorithms/hill_climbing.py:80-84 | an index without empty lists that counts each class per slot as the schedule does is its inverse |
| `HillClimbing.AddMeetings` | src/api/app/algorithms/hill_climbing.py:81-84 | listing a class under each of its slots raises its count under each slot by that slot's multiplicity |
| `HillClimbing.IndexOf` | src/api/app/algorithms/hill_climbing.py:80-84 | the first loop of `seed_jadwal` builds the inverse index of the schedule |
| `HillClimbing.GridSlotsFree` | src/api/app/algorithms/hill_climbing.py:85-89 | a slot is recorded empty exactly when it is on the grid and not indexed |
| `HillClimbing.HillClimbingState.constructor` | src/api/app/algorithms/hill_climbing.py:17-26 | empty schedule, empty index, no empty slots |
| `HillClimbing.HillClimbingState.SwapPair` | src/api/app/algorithms/hill_climbing.py:94-103 | the schedule and the index both become their swapped versions, the empty slots are untouched, and the invariant holds, covering the same slots |
| `HillClimbing.HillClimbingState.SeedJadwal` | src/api/app/algorithms/hill_climbing.py:76-89 | keeps the seeded schedule, rebuilds the index as its inverse, and records as empty exactly the unindexed grid slots; when every meeting is on the grid, the grid is exactly the empty slots plus the indexed ones |
| `HillClimbing.HillClimbingState.MoveIntoSlot` | src/api/app/algorithms/hill_climbing.py:118-131 | the schedule, the index and the empty slots become their moved versions, and the invariant holds, now also covering the target |
| `HillClimbing.HillClimbingState.RandomPair` | src/api/app/algorithms/hill_climbing.py:105-110 | two problem classes, each with one of its own meeting slots, using four draws |
| `HillClimbing.HillClimbingState.RandomMove` | src/api/app/algorithms/hill_climbing.py:112-116 | a problem class, one of its meeting slots, and an empty slot, using three draws |
| `HillClimbing.HillClimbingState.TrySwap` | src/api/app/algorithms/hill_climbing.py:35-46 | one swap trial returns an applicable swap and its exact energy change, and the undo restores the index and the empty slots exactly and the schedule up to list order |
| `HillClimbing.HillClimbingState.TryMove` | src/api/app/algorithms/hill_climbing.py:52-63 | one move trial returns an applicable move and its exact energy change, and the undo restores the state exactly |
| `HillClimbing.HillClimbingState.SwapTrials` | src/api/app/algorithms/hill_climbing.py:34-46 | makes `min(n², 50)` swap trials and keeps the strictly best improving one |
| `HillClimbing.HillClimbingState.MoveTrials` | src/api/app/algorithms/hill_climbing.py:48-63 | makes `min(n·|empty|, 50)` move trials when some slot is empty, none otherwise, and keeps the strictly best improving one |
| `HillClimbing.HillClimbingState.ApplyMove` | src/api/app/algorithms/hill_climbing.py:65-71 | carries out the chosen swap or move: the index becomes exactly the swapped or moved index, the empty slots stay for a swap and lose the target and gain the vacated slot for a move, and the invariant holds over the same covered slots |
| `HillClimbing.HillClimbingState.Next` | src/api/app/algorithms/hill_climbing.py:28-74 | accepts exactly when some trial lowered the energy; then it applies a trial with the least change, the index and the empty slots become exactly that move's results, the returned delta is that change and the new energy is the old plus delta; otherwise delta is 0, the energy, the index and the empty slots are unchanged, and each class keeps its slots as a multiset (the trials may reorder a list) |
| `HillClimbing.SteepestAscent.constructor` | src/api/app/algorithms/hill_climbing.py:135-145 | statistics start at zero and empty |
| `HillClimbing.SteepestAscent.Step` | src/api/app/algorithms/hill_climbing.py:164 | an accepted step strictly lowers the energy; a rejected one keeps it |
| `HillClimbing.SteepestAscent.Climb` | src/api/app/algorithms/hill_climbing.py:163-172 | the objective trace starts at the old energy and ends at the current one, strictly decreases through the accepted steps, and stops at the first rejected step, which is recorded as the local-optimum iteration |
| `HillClimbing.SteepestAscent.Search` | src/api/app/algorithms/hill_climbing.py:147-175 | resets the statistics, seeds the state, keeps the initial schedule, and records one objective more than iterations, strictly decreasing until the local optimum, where the last value repeats; at the end a slot is empty exactly when it is covered and unindexed, so with every seeded meeting on the grid, exactly when it is a grid slot no class meets in |
| `Genetic.MinIndex` | src/api/app/algorithms/genetic_algorithm.py:57 | `min` with a key: a least element, with every earlier one strictly greater |
| `Genetic.SortSorted` | src/api/app/algorithms/genetic_algorithm.py:143 | `sorted` orders by objective |
| `Genetic.SortPermutes` | src/api/app/algorithms/genetic_algorithm.py:143 | `sorted` is a permutation |
| `Genetic.SortSpec` | src/api/app/algorithms/genetic_algorithm.py:143 | `sorted` is ordered, a permutation and of the same length |
| `Genetic.InsertSorted` | src/api/app/algorithms/genetic_algorithm.py:143 | the insertion step of the sort keeps a sorted list sorted |
| `Genetic.ElitismSize` | src/api/app/algorithms/genetic_algorithm.py:140-144 | no elites for n ≤ 0, otherwise min(n, population size) of them |
| `Genetic.ElitismOrdered` | src/api/app/algorithms/genetic_algorithm.py:143-144 | the elites are in ascending objective order and drawn from the population |
| `Genetic.ElitesBeatTheRest` | src/api/app/algorithms/genetic_algorithm.py:143 | no individual left out of the elites has a smaller objective than an elite |
| `Genetic.BestIsFirstElite` | src/api/app/algorithms/genetic_algorithm.py:143 | the first elite has the population's best objective |
| `Genetic.ElitesInherit` | src/api/app/algorithms/genetic_algorithm.py:144 | elite copies are well formed and carry their own schedule's objective |
| `Genetic.ElitismCount` | src/api/app/algorithms/genetic_algorithm.py:159 | the number of elites is non-negative and below the population size, and equals the parameter when that is already in range |
| `Genetic.BestAtMostMean` | src/api/app/algorithms/genetic_algorithm.py:199-200 | the best objective of a population is at most its average |
| `Genetic.ElitistStep` | src/api/app/algorithms/genetic_algorithm.py:175-199 | with at least one elite, the best of the next generation is no worse than the best of this one |
| `Genetic.TracesGrow` | src/api/app/algorithms/genetic_algorithm.py:199-202 | appending a generation's best and average keeps the traces aligned, best ≤ average, and (with elites) the best non-increasing |
| `Genetic.BestOfSeeds` | src/api/app/algorithms/genetic_algorithm.py:161-163 | the best individual of the seeded population is one of the seeds, scored with its own objective, and no seed scores less |
| `Genetic.Without` | src/api/app/algorithms/genetic_algorithm.py:73 | keeps exactly the elements outside `used`, in their original order and with their multiplicities |
| `Genetic.EmptySlotsFor` | src/api/app/algorithms/genetic_algorithm.py:67-73 | a slot is listed exactly when it is on the grid and no class uses it, in grid order, as often as the grid lists it |
| `Genetic.SwapMeetingsShape` | src/api/app/algorithms/genetic_algorithm.py:101 | a swap of two meetings exchanges the two entries, keeps every list's length and touches no other class |
| `Genetic.SwapMeetingsBetween` | src/api/app/algorithms/genetic_algorithm.py:101 | between two classes the swap keeps their meetings together as a multiset |
| `Genetic.SwapMeetingsWithin` | src/api/app/algorithms/genetic_algorithm.py:101 | within one class the swap permutes its meetings |
| `Genetic.SwapMeetingsTwice` | src/api/app/algorithms/genetic_algorithm.py:101 | the same swap done twice gives the schedule back |
| `Genetic.Place` | src/api/app/algorithms/genetic_algorithm.py:110 | writes the new slot at the index and changes nothing else |
| `Genetic.MutatedSpec` | src/api/app/algorithms/genetic_algorithm.py:94-119 | every mutation keeps the class codes and list lengths (so a well-formed schedule stays well formed), and a moved meeting lands on a grid slot no class used before |
| `Genetic.GAState.constructor` | src/api/app/algorithms/genetic_algorithm.py:31-36 | the problem data, the objective and the random source are stored |
| `Genetic.GAState.TournamentSelect` | src/api/app/algorithms/genetic_algorithm.py:55-58 | samples min(k, \|pop\|) distinct members and returns the first one of least objective in sample order, using one draw per sampled member |
| `Genetic.GAState.Crossover` | src/api/app/algorithms/genetic_algorithm.py:75-92 | both children have exactly the class codes; for each class one draw below 0.5 gives child 1 the first parent's list and child 2 the second's, otherwise the reverse |
| `Genetic.GAState.MutSwapTwoMeetings` | src/api/app/algorithms/genetic_algorithm.py:94-101 | the schedule becomes the swap of two meetings of two drawn classes, using four draws |
| `Genetic.GAState.MutMoveToEmpty` | src/api/app/algorithms/genetic_algorithm.py:103-110 | nothing happens, and nothing is drawn, exactly when no grid slot is free; otherwise one meeting moves to a free slot, using three draws |
| `Genetic.GAState.Mutate` | src/api/app/algorithms/genetic_algorithm.py:112-119 | a first draw above the rate keeps the schedule; otherwise a second draw below 0.5 chooses the swap, anything else the move; the schedule stays well formed |
| `Genetic.GeneticAlgorithm.constructor` | src/api/app/algorithms/genetic_algorithm.py:123-134 | the given parameters or the defaults; empty statistics and no schedules |
| `Genetic.GeneticAlgorithm.SeedPopulation` | src/api/app/algorithms/genetic_algorithm.py:45-53 | one individual per seeded schedule, scored with its own objective |
| `Genetic.GeneticAlgorithm.NextGeneration` | src/api/app/algorithms/genetic_algorithm.py:173-197 | a full population that starts with the elites; every child is well formed and scored, and the children come in pairs bred from two tournament winners by crossover and mutation, the second child of the last pair dropped when the population is full |
| `Genetic.LineageStep` | src/api/app/algorithms/genetic_algorithm.py:190-197 | appending a bred pair's first child, and its second when there is room, extends the lineage of the generation by that pair |
| `Genetic.GeneticAlgorithm.AddChildren` | src/api/app/algorithms/genetic_algorithm.py:190-197 | the first child always joins and the second only while the population is not full; the prefix is kept and the lineage grows by the pair |
| `Genetic.GeneticAlgorithm.Pair` | src/api/app/algorithms/genetic_algorithm.py:177-191 | two tournaments pick the parents; the children are their crossover (or copies, on a draw at or above the rate) followed by a mutation each |
| `Genetic.GeneticAlgorithm.Generation` | src/api/app/algorithms/genetic_algorithm.py:172-199 | the population keeps its size and, with elites, its best never gets worse |
| `Genetic.GeneticAlgorithm.Breed` | src/api/app/algorithms/genetic_algorithm.py:182-189 | crossover happens exactly when the first draw is below the crossover rate; the children are the per-class mix of the parents then, the parents' own schedules otherwise, each then mutated, and both are well formed |
| `Genetic.GeneticAlgorithm.Offspring` | src/api/app/algorithms/genetic_algorithm.py:188-191 | the child is a mutation of the given schedule and stays well formed |
| `Genetic.GeneticAlgorithm.Evolve` | src/api/app/algorithms/genetic_algorithm.py:172-204 | after max(gens, 0) generations: the traces have one entry per population, best ≤ average everywhere, a non-increasing best with elites, and they start at the first population's best and end at the last one's |
| `Genetic.GeneticAlgorithm.Run` | src/api/app/algorithms/genetic_algorithm.py:154-210 | the traces as in `Evolve`; the initial schedule is a seed of least objective; the final schedule is well formed and scores the last best |
| `Genetic.GeneticAlgorithm.Search` | src/api/app/algorithms/genetic_algorithm.py:146-210 | resets the statistics; then generations done = max(gens, 0), the traces as in `Evolve`, `jadwal_init` a best seed, and `jadwal` a well-formed schedule scoring the last best objective |
| `Text.IntToStringRoundTrip` | src/web/src/components/scheduler/utils.ts:13-14 | an integral number's decimal text reads back as the number |
| `Text.IntToStringInjective` | src/web/src/components/scheduler/MetricsDisplay.tsx:77 | distinct integers render differently |
| `Text.StrictlySortedUnique` | src/web/src/components/main.tsx:80 | two strictly sorted lists of the same strings are equal: the sorted room list is determined by the set |
| `Text.Join` | src/web/src/components/scheduler/ResultsTable.tsx:69 | joining nothing gives the empty string; otherwise the text starts with the first item |
| `Runs.FormatNumber` | src/web/src/components/scheduler/utils.ts:9-17 | a non-finite value renders as "-"; an integral value renders as its decimal text, which reads back as the value |
| `Runs.GuardsPartition` | src/web/src/components/scheduler/utils.ts:19-33 | no guard holds for an absent run; for a present run exactly the guard its `type` names holds |
| `Runs.FinalObjective` | src/web/src/components/scheduler/utils.ts:35-43 | the last entry of the run's objective series (the best-over-generation series for genetic runs), or +∞ when the series is empty |
| `Runs.ObjectiveOrder` | src/web/src/components/main.tsx:304-308 | `<` on final objectives is irreflexive, total on distinct values, transitive and asymmetric |
| `Runs.ResolveAlgorithm` | src/web/src/components/scheduler/utils.ts:45-62 | a label resolves exactly when it is one of the six selector labels, and to a hill-climbing variant exactly for the first four |
| `Runs.SelectorLabelsResolve` | src/web/src/components/scheduler/utils.ts:45-62 | every label resolves, the four hill-climbing labels to four different variants, and the last two to simulated annealing and the genetic algorithm |
| `Solve.FirstParamError` | src/web/src/components/main.tsx:118-229 | no error exactly when the selected form's parameters are accepted; an error always belongs to the selected form, and a later field is blamed only when the earlier ones pass |
| `Solve.ValidateParams` | src/web/src/components/main.tsx:118-229 | fails exactly when the checks find an error, and then with the first one in source order; accepts exactly the parameters each check passes; the query holds the parsed values; the GA elitism is clamped below the population size |
| `Solve.Tag` | src/web/src/components/main.tsx:250-297 | every record gets the `type` of the endpoint that answered, keeping ids and order |
| `Solve.ReduceBest` | src/web/src/components/main.tsx:304-308 | the reduction returns the first entry of least final objective |
| `Solve.BestIndex` | src/web/src/components/main.tsx:299-308 | for a non-empty response, the index of the first entry of least final objective |
| `Solve.FirstMinimalUnique` | src/web/src/components/main.tsx:304-308 | at most one entry is the first minimal one, so the choice is deterministic |
| `Solve.Lookup` | src/web/src/components/main.tsx:73 | `runs[id]` is present exactly when the id is an entry's id, and then it is that entry's record |
| `Solve.RepairedRunId` | src/web/src/components/main.tsx:61-69 | none without runs; a valid selection is kept; otherwise the first entry's id |
| `Solve.SortRooms` | src/web/src/components/main.tsx:80 | `Array.from(rooms).sort()`: strictly increasing, with exactly the set's elements |
| `Solve.RepairedRoom` | src/web/src/components/main.tsx:87-95 | "" without rooms; the previous room when it is non-empty and still offered; otherwise the first room |
| `Solve.SelectedRun` | src/web/src/components/main.tsx:338 | a run is selected exactly when the id is a non-empty string naming a run |
| `Solve.DerivedFlags` | src/web/src/components/main.tsx:339-351 | each flag holds exactly when the run's tag and the recorded solver kind agree; at most one holds |
| `Solve.FlagsFollowKind` | src/web/src/components/main.tsx:338-351 | when every run carries the recorded kind, as after a successful solve, a selected run raises exactly the flag of that kind |
| `Solve.Scheduler.constructor` | src/web/src/components/main.tsx:49-55 | the page starts with no runs, no selection, no rooms, no error and not loading |
| `Solve.Scheduler.Fail` | src/web/src/components/main.tsx:320-332 | a failure records the message and clears all run state together |
| `Solve.Scheduler.Succeed` | src/web/src/components/main.tsx:310-319 | a success replaces the runs as a whole, selects the best run, and records the kind and the variant |
| `Solve.Scheduler.HandleSolve` | src/web/src/components/main.tsx:97-336 | an unknown algorithm or a rejected parameter changes nothing and sends nothing; otherwise a query of the selected kind is sent and the page ends either failed (server message or "Gagal menjalankan solver", or "Respons solver kosong" for no runs) or succeeded with the best run selected; loading ends in both cases |
| `Solve.Scheduler.RepairSelectedRun` | src/web/src/components/main.tsx:61-69 | the first effect: the selected id becomes the repaired id |
| `Solve.Scheduler.RepairRooms` | src/web/src/components/main.tsx:71-85 | the second effect: the offered rooms are the sorted union of the selected run's two allocation keys, or none |
| `Solve.Scheduler.RepairSelectedRoom` | src/web/src/components/main.tsx:87-95 | the third effect: the selected room becomes the repaired room |
| `Charts.ObjectiveSeries` | src/web/src/components/scheduler/ChartsDisplay.tsx:18-30 | the score series of the run when a view shows it, else empty |
| `Charts.ObjectiveChartEndsAtFinal` | src/web/src/components/scheduler/ChartsDisplay.tsx:24-31 | a non-empty objective chart ends at the run's final objective |
| `Charts.AverageSeries` | src/web/src/components/scheduler/ChartsDisplay.tsx:33 | the average trace of a shown genetic run, else empty |
| `Charts.Acceptance` | src/web/src/components/scheduler/ChartsDisplay.tsx:41-43 | 0 for a non-positive temperature, 1 for a non-positive delta, exp(−Δ/T) otherwise |
| `Charts.AcceptanceSeries` | src/web/src/components/scheduler/ChartsDisplay.tsx:36-45 | one value per recorded delta, empty unless a simulated run is shown |
| `Charts.AcceptanceIsProbability` | src/web/src/components/scheduler/ChartsDisplay.tsx:38-45 | given an exp that maps negative arguments into (0, 1), every acceptance value lies in [0, 1], and it is below 1 exactly when the temperature is non-positive or the delta positive |
| `Charts.MissingTemperatureCountsAsOne` | src/web/src/components/scheduler/ChartsDisplay.tsx:40 | past the end of the temperature trace, the acceptance is that of temperature 1 |
| `Charts.ChartsMatchKind` | src/web/src/components/scheduler/ChartsDisplay.tsx:46-92 | the temperature and acceptance charts appear only for a simulated run, the average chart only for a genetic one |
| `Metrics.SecondaryMetricOf` | src/web/src/components/scheduler/MetricsDisplay.tsx:39-62 | the title, value and suffix of the fourth card for each view and hill variant; no value exactly when no run is selected |
| `Metrics.MetricDisplay` | src/web/src/components/scheduler/MetricsDisplay.tsx:64-67 | "-" exactly for no value; an integer value reads back as itself |
| `Metrics.SecondaryDashIffNoRun` | src/web/src/components/scheduler/MetricsDisplay.tsx:41-67 | the fourth card shows "-" exactly when no run is selected |
| `Metrics.CardsAgreeWithTableRow` | src/web/src/components/scheduler/MetricsDisplay.tsx:32-77 | the selected run's cards and its results-table row show the same final objective and duration; the iteration card reads the local-optimum column's number in the hill-climbing view and the iterations column's otherwise; the sideways and restart cards match their columns on a number, and read 0 beside an empty column on `null` |
| `Metrics.FinalCardIsChartEnd` | src/web/src/components/scheduler/MetricsDisplay.tsx:32 | the Final Objective card is the last point of a non-empty objective chart |
| `Metrics.TitlesAgree` | src/web/src/components/scheduler/MetricsDisplay.tsx:37 | the iteration card says "Generations" exactly when the objective chart is titled by generation, and both do whenever the average chart is shown |
| `Metrics.NoRunCards` | src/web/src/components/scheduler/MetricsDisplay.tsx:32-67 | with no run selected the cards read "0", "0", 0 and "-" |
| `ResultsTable.OptionalCell` | src/web/src/components/scheduler/ResultsTable.tsx:55-66 | "-" exactly when the field is left out of the record, empty exactly when it is `null`, and otherwise text that reads back as the number |
| `ResultsTable.IterationsPerRestartCell` | src/web/src/components/scheduler/ResultsTable.tsx:67-71 | "-" exactly for an absent or empty list; otherwise it starts with the first count |
| `ResultsTable.ParamValue` | src/web/src/components/scheduler/ResultsTable.tsx:77-79 | an integral parameter value renders as text that reads back as the value |
| `ResultsTable.ParamsCell` | src/web/src/components/scheduler/ResultsTable.tsx:74-83 | "-" exactly when there are no parameters; otherwise it starts with the first `key=` |
| `ResultsTable.Rows` | src/web/src/components/scheduler/ResultsTable.tsx:44-112 | one row per entry, in order, labelled "Run i+1", keyed by id, highlighted exactly when selected |
| `ResultsTable.RowNamesDistinct` | src/web/src/components/scheduler/ResultsTable.tsx:93 | distinct rows get distinct labels |
| `ResultsTable.ExactlyOneHighlighted` | src/web/src/components/scheduler/ResultsTable.tsx:86-91 | with distinct ids, a selected id present in the table highlights exactly one row |
| `ResultsTable.ColumnsOfOtherKindsAreDashes` | src/web/src/components/scheduler/ResultsTable.tsx:49-83 | the columns that belong to other kinds of run read "-", and a run's own stuck-count or population column does not |
| `ResultsTable.LocalOptimaColumn` | src/web/src/components/scheduler/ResultsTable.tsx:52-54 | the local-optimum column reads back as the recorded iteration, falling back to the iteration count |
| `Comparison.SlotLists` | src/web/src/components/scheduler/ScheduleComparison.tsx:27-34 | empty lists without a run or a room; otherwise the room's initial and final slots, or empty where the room is missing |
| `Comparison.SelectorDisabled` | src/web/src/components/scheduler/ScheduleComparison.tsx:44 | the room selector is disabled exactly when no room is offered |
| `Comparison.RepairedRoomIsShown` | src/web/src/components/scheduler/ScheduleComparison.tsx:27-34 | after the room repair, a disabled selector shows two empty tables; otherwise the room is one of the run's rooms and each table shows the run's own list for it |

## Left out

- File and network I/O are not modelled: `fetch`, JSON parsing, `alert`, `console.error`, the HTTP endpoints and the Pydantic schemas. The server is a function parameter of `Solve.Scheduler.HandleSolve`, and a JSON parse failure is not modelled.
- Clocks are not modelled: `time.time()`, `search_time` and the clock-based random seeds. `search_time` is an input of the front-end run record.
- React rendering and styling are not modelled. Each component's values are functions; the JSX markup, the particles and the chart drawing are not.
- `Number.prototype.toFixed` and `Math.exp` are foreign calls. They are function parameters (`toFixed`, `exp`), so only the integral branch of `formatNumber` is pinned down.
- Floating point is not modelled. Objectives, averages, temperatures and rates are exact reals, and JavaScript numbers are a `Number` datatype with infinities and NaN.
- `State.objective` in state.py:109-111 returns 0 and is marked TODO. The objective is a parameter (`Slots.Objective`), a function of each class's multiset of slots.
- `_form_alokasi_ruangan`, `Solver` and `get_result` build the response from the schedule in a class that is not part of this model. The simulated-annealing solver is not part of this model either.
- `Problem`, `Slot`, `JadwalKuliah.slot_kuliah` and `LIST_WAKTU_MULAI` come from a version of state.py that is not part of this model. The shown state.py has only `posisi_kuliah`. `Slot` is modelled as (room, day, start, end), and the start times are a parameter.
- `HillClimbing.HillClimbingState.SeedJadwal`: the base class's `seed_jadwal` is not part of this model. It takes the seeded schedule as a parameter.
- `Genetic.GeneticAlgorithm.Search`: seeding is likewise a parameter, one schedule per individual.
- `HillClimbing.SteepestAscent.Search`: the source loops until no move is accepted. The model bounds the loop by `fuel` and reports whether it converged.
- `ProblemState.State.SeedJadwal`: the source redraws a repeated start without bound. The model bounds each redraw loop by `maxRedraws` and reports `OutOfDraws` when the bound is hit.
- `HillClimbing.HillClimbingState.TrySwap`: a trial swap and its undo restore each class's slot list only up to order, so the contract states multisets. The objective ignores list order, so every energy in the search is exact.
- `HillClimbing.HillClimbingState.RandomMove`: `choice(tuple(empty_slots))` depends on Python's set iteration order. The model draws an arbitrary member of the set.
- `slot_assignment` lists are kept as multisets, because their order is never read.
- Python's `random` is an explicit stream of draws (`Oracle.Rng`). `choice` and `randrange` draw an index modulo the length. `randint(7, 17)` is 7 plus a draw below 11. `sample` uses the pool method.
- `Genetic.GAState.Mutate`: the source mutates the child's dictionary in place. The model gives each child a fresh `Jadwal`, so aliasing between a parent's lists and a copied child's lists is not modelled; the source deep-copies there anyway.
- Raising on bad search input is not modelled. The model requires at least one class and a tournament size of at least 1 (with k = 0 the sample is empty and `min([])` at genetic_algorithm.py:56-57 would raise) and leaves out `_evaluate_population`, which nothing calls.
- `HillClimbing.StateInvariant` requires every class to have a non-empty slot list, and `SeedJadwal`, `RandomPair` and `RandomMove` rely on it. The source raises only when such a class is drawn (`choice` on an empty list at hill_climbing.py:107-108 and 113), and `validate`, which would rule out a class without credits, is never called before a search. The model does not follow a search into that exception.
- `Text.StrLess` orders strings by code point; JavaScript's default `sort` compares UTF-16 code units. The two differ only for characters outside the Basic Multilingual Plane, which room codes are taken not to contain.
- `KuliahMahasiswa.prio_mata_kuliah` is the dictionary's entry sequence, so the order in which `validate` scans the entries is the order of insertion.
- The parser copies a room's `kuota` into the problem's capacity. The schema's field name and the `Ruangan` shown here differ; the `Ruangan` that the parser builds belongs to the unseen version of state.py.
- `Object.entries` order is taken as given: a run collection is a sequence of (id, record) pairs.

## Findings

| source | as written | input that shows it | evidently intended | confidence | as-written member | corrected member |
|---|---|---|---|---|---|---|
| src/api/app/algorithms/state.py:74-82 | the student check is a loop inside a loop over the same students; the error message uses the outer loop's `mahasiswa.nim`, so it always names the first student (`ProblemState.StudentsErrorAsWritten`) | students 13521001 with priority 1 for IF2211 and 13521002 with priority 3 for IF2211: only the second is at fault, but the message says "Mahasiswa NIM 13521001 memiliki nomor prioritas invalid (3)" | the message names the student whose entry is at fault | not executed | `ProblemState.StudentsErrorNamesWrongStudent` | `ProblemState.StudentsError` |
