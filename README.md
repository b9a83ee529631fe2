# Single-depot oil collection routing, in Dafny

This project models the two route builders of a small capacitated vehicle routing tool.
Trucks leave one depot, visit oil fields, pick up each field's production without
exceeding their capacity, and come back. It also models the unit and cost conversions
those builders depend on. The contracts are proved about the model.

- `Models` (`models.dfy`): the records of `src/utils/models.py`, plus the shared vocabulary.
  - `Location`, `OilField`, `Solution` and a value copy `TruckState` are datatypes.
  - `Truck` is a class, because both solvers change its `route`, `var_cost` and `capacity` in place.
  - The shared `visited` list is a `FieldStack` object with `Push` and `Pop`.
  - `Best` is a real cost or `Inf`, the `np.inf` the search starts from.
  - The vocabulary includes route production, step-by-step capacity feasibility, duplicate-freedom and concatenation of routes.
- `Converter` (`converter.dfy`): `liter_to_bbl` and `distance_to_cost`.
- `GlobalSearch` (`global_search.dfy`): the exhaustive depth-first solver of `src/global_search.py`.
  - Setup covers the location table, the trucks and the total cost.
  - The search is the class `GlobalSolver`. `Solve` is the nested loops of `__solve`. `TryField` is one loop body: push, recursive call, pop, comparison, undo. `Visit`, `Push`, `Unvisit` and `Undo` are the in-place steps inside it.
  - The search is specified by *assignments*. An assignment gives each truck the list of fields it still takes, so that every field is covered exactly once together with `visited`, and every truck's capacity holds at each step. The recursion's result is proved to be:
    - at most the incoming cost;
    - no more than the total cost of every assignment reachable from the current state;
    - either the incoming cost or the cost of an assignment it returns a copy of.
  - The trucks and `visited` are proved to be restored exactly on return.
- `HeuristicSearch` (`heuristic_search.dfy`): the greedy solver of `src/heuristic_search.py`.
  - Its class is also called `GlobalSolver` in the source, and is modelled under that name.
  - `Solve` fills the trucks in order. `FillTruck` is a truck's `while` loop. `Step` is one pass of its body. `TakeCandidate` is the `for oil` loop. `Take` is the two appends and the capacity decrement.
  - The loop invariant `Filling` states:
    - `visited` grew by exactly the route;
    - the capacity dropped by the route's production and stayed feasible at every step;
    - the truck stands at its last stop;
    - every rank below the cursor offers nothing;
    - every stop was the greedy choice, i.e. the first field found at the lowest rank that had an addable field.

Matrices are total functions.
- The exhaustive solver's cost matrix is keyed exactly as the source indexes it: `cost_matrix[<name>][<idx>]`, the column of the location called `name` at row position `idx`. The distance table stores origins as rows and destinations as columns (src/utils/distance_matrix.py:53), so this entry is the trip from row `idx` to `name`.
- The heuristic's distance matrix maps a location name to its column, indexed by row position: the distances from each row's location to that name.

Money, distances and volumes are `real`.

Three facts about the code that the model keeps as written:
- The heuristic never updates `var_cost` and never computes a total cost.
- The heuristic's rank cursor gives up at 9, whatever the number of locations.
- The heuristic numbers fields and depot by row position. The exhaustive solver numbers fields densely from 0, and its depot is always `idx` 0.

## Model

| member | source | states |
|---|---|---|
| Models.Truck.constructor | src/utils/models.py:13-21 | a new truck holds exactly the given index, start, end, route, fixed cost, variable cost and capacity |
| Models.FieldStack.Push | src/global_search.py:129 | pushing appends the field at the end of `visited` |
| Models.FieldStack.Pop | src/global_search.py:146 | popping removes exactly the last field of `visited` |
| Models.FeasibleAppend | src/global_search.py:128-138 | appending a field that fits the remaining capacity to a feasible route keeps it feasible |
| Models.FeasibleNonNegative | src/global_search.py:128-138 | along a feasible, non-empty route the remaining capacity never drops below zero |
| Models.ProductionAppend | src/global_search.py:138 | the production of a route grows by exactly the appended field's production |
| Converter.LiterToBblLinear | src/utils/converter.py:15 | the conversion is additive and homogeneous, and maps 0 to 0 |
| Converter.LiterToBblMonotone | src/utils/converter.py:15 | a larger volume never converts to fewer barrels; a non-negative volume converts to between 0 and itself |
| Converter.DistanceToCost | src/utils/converter.py:19-39 | requires a non-zero consumption; the result has the input's columns and rows; every entry is distance × (diesel price / consumption); zero distances cost zero; a symmetric matrix gives a symmetric cost matrix |
| GlobalSearch.ScanFields | src/global_search.py:42-51 | from any row on, the fields collected are those so far followed by the remaining non-depot rows in order, numbered consecutively from the count so far |
| GlobalSearch.ScanDepot | src/global_search.py:42-53 | with no depot row left the depot is unchanged; otherwise it is the last remaining depot row, with `idx` 0 |
| GlobalSearch.SetupLocationsFields | src/global_search.py:34-54 | the fields are exactly the non-depot rows in table order, with `idx` 0, 1, 2, … and no gap for the depot row |
| GlobalSearch.SetupLocationsDepot | src/global_search.py:34-54 | setup succeeds if and only if some row is a depot; the depot is the last depot row, with `idx` 0 |
| GlobalSearch.SetupFieldsDistinct | src/global_search.py:40-51 | the fields built from the table are pairwise distinct |
| GlobalSearch.SetupTrucks | src/global_search.py:67-95 | exactly `num_trucks` fresh, distinct trucks (none when negative); truck `i` has `idx` `i`, an empty route, fixed cost 300, variable cost 0, capacity `liter_to_bbl(truck_capacity)`, and starts and ends at the depot |
| GlobalSearch.TotalCostIdleFleet | src/global_search.py:65 | a fleet in which no truck has a route costs 0 |
| GlobalSearch.TotalCostWithoutIdle | src/global_search.py:65 | removing a truck with an empty route leaves the total unchanged, so idle trucks contribute nothing |
| GlobalSearch.RouteCostAppend | src/global_search.py:130-136 | the incremental update equals the route cost of the longer route: from the start when the route was empty; otherwise the closing leg `last -> end` is replaced by `last -> f -> end` |
| GlobalSearch.ExtendCons | src/global_search.py:129-138 | appending one field and then a list of fields gives the same truck as appending both at once |
| GlobalSearch.CompleteShift | src/global_search.py:129-145 | pushing `f` onto truck `i` and then completing is the same as completing with `f` in front of that truck's share |
| GlobalSearch.FeasibleShift | src/global_search.py:128-138 | truck `i` can take `f` followed by its share if and only if `f` fits now and the truck can take its share afterwards |
| GlobalSearch.AssignmentStep | src/global_search.py:125-145 | the first field of any truck's share is unvisited and fits that truck, which is the guard of lines 127-128; after pushing it, the rest is an assignment of the new state with the same completion, so the loops reach every assignment |
| GlobalSearch.LiftCover | src/global_search.py:129-146 | moving `f` from the end of `visited` to the front of a share keeps everything duplicate-free, within the fields, and of the same total length |
| GlobalSearch.AssignmentLift | src/global_search.py:129-146 | conversely, every assignment after a push, with `f` put back in front of its truck's share, is an assignment before the push, with the same completion |
| GlobalSearch.FirstUsed | src/global_search.py:125 | the first truck with a non-empty share: every truck before it has an empty share |
| GlobalSearch.SearchedNothing | src/global_search.py:125-126 | before the loops start, no assignment has been tried |
| GlobalSearch.SearchedNextField | src/global_search.py:126-149 | after field `fi`, the best cost bounds every assignment whose first step is any of the first `fi + 1` fields on the current truck. For field `fi` there is either no such assignment (visited, or does not fit) or the recursive call bounds them |
| GlobalSearch.SearchedNextTruck | src/global_search.py:125-126 | after every field for truck `ti`, every assignment whose first non-empty share is truck `ti`'s has been bounded |
| GlobalSearch.SearchedAll | src/global_search.py:125-159 | after the loops, at a state with unvisited fields, the returned cost bounds every complete assignment |
| GlobalSearch.TerminalAssignments | src/global_search.py:118-123 | once every field is visited, the only assignment is the empty one, and it completes to the current trucks |
| GlobalSearch.AchievedLift | src/global_search.py:147-149 | a solution reachable after pushing `f` is reachable from the state before the push, at the same cost |
| GlobalSearch.AssignmentCover | src/global_search.py:118-127 | from an empty `visited`, a complete assignment puts every field on exactly one route |
| GlobalSearch.CompleteFromEmpty | src/global_search.py:137-138 | from trucks with empty routes, each completed truck's route is its share, its capacity drops by the share's production and its variable cost is the share's route cost |
| GlobalSearch.AchievedShape | src/global_search.py:118-123 | a recorded solution from the initial fleet has one truck per truck; every field is on exactly one route; every route fits its truck step by step; capacity = initial − production and never negative; variable cost = route cost; same start and end; the recorded cost is its total |
| GlobalSearch.GlobalSolver.constructor | src/global_search.py:27-32 | the solver holds the given cost matrix, location table and solution record |
| GlobalSearch.GlobalSolver.Solve | src/global_search.py:97-159 | result ≤ incoming `optimal_cost` and ≤ the total cost of every complete assignment reachable from the current trucks and `visited`. It equals the incoming cost, or it is the total of such an assignment and the returned trucks are its copy. The incoming `solution` is returned unchanged when nothing better is found at a non-terminal state. `visited` and every truck are as on entry |
| GlobalSearch.GlobalSolver.TryField | src/global_search.py:129-158 | one loop body. Its result ≤ the best so far and ≤ the bound on every assignment that starts by giving `f` to truck `ti`. It either keeps the best so far (strict `<`, so the first minimum is kept) or takes a strictly cheaper, reachable solution. `visited` and the trucks are restored exactly |
| GlobalSearch.GlobalSolver.Visit | src/global_search.py:129 | `f` is appended to `visited`, which stays duplicate-free, within the fields and no longer than them |
| GlobalSearch.GlobalSolver.Unvisit | src/global_search.py:146 | the last field is removed from `visited`; the trucks are untouched |
| GlobalSearch.GlobalSolver.Push | src/global_search.py:130-138 | truck `ti` becomes its old state extended by `f`: route + [f], capacity − production, variable cost = cost of the new route; the other trucks are unchanged and every variable cost still equals its route cost |
| GlobalSearch.GlobalSolver.Undo | src/global_search.py:150-158 | undoing `Push` restores every truck exactly, including the reset of the variable cost to 0 when `f` was the only stop |
| GlobalSearch.GlobalSolver.Run | src/global_search.py:161-182 | succeeds if and only if the table has a depot row, recording nothing otherwise. The recorded cost bounds every complete assignment from the initial fleet; it is `Inf` when none exists, or else it is achieved by the recorded trucks |
| HeuristicSearch.RowFieldsTake | src/heuristic_search.py:41-51 | a non-depot row adds one field numbered by its row position, after all earlier fields |
| HeuristicSearch.RowFieldsSkip | src/heuristic_search.py:49-51 | a depot row adds no field, but the counter still advances |
| HeuristicSearch.ScanFields | src/heuristic_search.py:40-51 | the fields collected are the non-depot rows in table order, each numbered by its row position, and every non-depot row appears |
| HeuristicSearch.ScanDepot | src/heuristic_search.py:40-51 | with no depot row left the depot is unchanged; otherwise it is the last remaining depot row, numbered by its row position |
| HeuristicSearch.SetupLocationsFields | src/heuristic_search.py:32-52 | every non-depot row becomes exactly one field, in order, with `idx` equal to its row position |
| HeuristicSearch.SetupLocationsDepot | src/heuristic_search.py:32-52 | setup succeeds if and only if some row is a depot; the depot is the last depot row, with `idx` equal to its row position |
| HeuristicSearch.SetupFieldsDistinct | src/heuristic_search.py:40-51 | the fields have pairwise distinct indices and are pairwise distinct |
| HeuristicSearch.InsertSorted | src/heuristic_search.py:113 | inserting into a sorted row keeps it sorted and adds exactly that value |
| HeuristicSearch.SortAscendingSpec | src/heuristic_search.py:113 | the sorted row is ascending and a permutation of the row |
| HeuristicSearch.FirstIndexOfSpec | src/heuristic_search.py:114 | the position found holds the value, and no earlier position does |
| HeuristicSearch.CandidateOrder | src/heuristic_search.py:112-118 | the candidate at rank `r` is the first row position holding the `r`-th smallest distance; a higher rank never names a nearer location |
| HeuristicSearch.CandidateNearest | src/heuristic_search.py:109-114 | rank 0 names a location at the least distance in the row, which the cursor skips by starting at 1 |
| HeuristicSearch.TakenFilling | src/heuristic_search.py:121-126 | after a field is taken at the cursor's rank, the loop invariant holds with the cursor back at 1, and the taken field extends the greedy chain |
| HeuristicSearch.SkippedFilling | src/heuristic_search.py:128-132 | when the cursor's rank offers nothing, the invariant holds with the cursor one higher, giving up exactly when it reaches 9 |
| HeuristicSearch.ChainAppend | src/heuristic_search.py:117-126 | a greedy chain followed by one more greedy step is a greedy chain |
| HeuristicSearch.FleetDoneStart | src/heuristic_search.py:104 | before the first truck, no truck is done and nothing has been added to `visited` |
| HeuristicSearch.FleetDoneNext | src/heuristic_search.py:104-132 | finishing truck `n` extends the finished prefix by that truck, appends its route to `visited`, and leaves the later trucks as they were |
| HeuristicSearch.FleetDoneAll | src/heuristic_search.py:104-122 | after the last truck, `visited` is the initial list followed by every route in truck order |
| HeuristicSearch.IdleAfterCovered | src/heuristic_search.py:110 | once the first trucks' routes cover every field, every later truck keeps an empty route |
| HeuristicSearch.GlobalSolver.constructor | src/heuristic_search.py:27-30 | the solver holds the given location table and distance matrix |
| HeuristicSearch.GlobalSolver.FillTruck | src/heuristic_search.py:105-132 | the truck ends having taken its fields one greedy step at a time. `visited` grew by exactly its route and stays duplicate-free; the capacity dropped by the route's production and held at every step. It stops only when every field is visited or no rank from 1 to 8 at its last stop offers an addable field |
| HeuristicSearch.GlobalSolver.Step | src/heuristic_search.py:111-132 | one pass keeps the loop invariant. Either `visited` grows and the cursor is reset to exactly 1, or `visited` is unchanged and the cursor is exactly one higher, which is the loop's termination measure; `test_capacity` is set exactly when the cursor has reached 9 |
| HeuristicSearch.GlobalSolver.Take | src/heuristic_search.py:121-123 | the field is appended to the route and to `visited`, its production is taken off the capacity, and the invariant on `visited` and capacity is kept |
| HeuristicSearch.GlobalSolver.TakeCandidate | src/heuristic_search.py:117-126 | a field is added only when its `idx` is the candidate's, it is unvisited and it fits. With unique indices, at most one field is added, and the truck then stands there with the cursor at 1. When nothing is added, every field at the candidate is visited or too large, and nothing changes |
| HeuristicSearch.GlobalSolver.Solve | src/heuristic_search.py:84-135 | each truck in order is filled by the greedy loop from where earlier trucks left `visited`; only routes, capacities and `visited` change; `visited` is the initial list followed by the routes in truck order, duplicate-free and within the fields |
| HeuristicSearch.GlobalSolver.Run | src/heuristic_search.py:138-152 | succeeds if and only if the table has a depot row. The returned trucks are the initial fleet filled greedily; together their routes hold each field at most once |

## Left out

- The data fetching and scripts are not part of this model: `src/utils/distance_matrix.py` (an HTTP request, `.env` loading, CSV backup), `utils/utils.py`, `utils/create_distances.py`, and the `__main__` blocks. They do I/O, and the core receives their output as its inputs.
- The interactive entry point `main.py` and the console rendering `format_solution_output` are not part of this model: they are I/O only. The entry point's wiring for the heuristic does not match the class it imports, so the dispatch is not modelled.
- Timing measurements are not modelled; they do not affect any result.
- Floating-point rounding is not modelled: costs, distances and volumes are `real`. With reals, resetting the variable cost to 0 on line 151 of the exhaustive solver coincides exactly with undoing the additions.
- pandas and numpy indexing are modelled only as lookups:
  - The cost matrix is a total function of (from-name, to-idx).
  - A distance column is a sequence indexed by row position.
  - Label-versus-position fallback and `np.where` internals are not modelled.
  - The exhaustive solver takes a field's name from the table's index; the heuristic takes it from the "Name" column. Both are the one `name` of a `Row`.
- The write `t.total_cargo = 0` (src/global_search.py:152) is not modelled: `Truck` has no such attribute and nothing reads it.
- Python aliasing is not modelled. `deepcopy` is a value copy (`Snapshot`). Returning the live `trucks` list at a terminal state is modelled as returning its value copy, taken before any undo, which is what the caller keeps.
- The exhaustive solver's unused `dist_matrix` field is left out.
- Tables without a depot row: the source fails on an unbound variable; the model returns `None` from setup, and `false` from `Run`.
- HeuristicSearch.GlobalSolver.Solve: requires every truck to start with an empty route. This holds for its only caller, `run`. With a non-empty route, `position` is not set for that truck (src/heuristic_search.py:106-107): for the first truck the source fails with an unbound-variable error, and for a later one it starts from where the previous truck stopped. Neither case is modelled.
- HeuristicSearch.GlobalSolver.Solve: requires every distance column to hold at least 9 entries (`Ranked`). With a shorter column the source's `np.sort(...)[idx_pos]` (src/heuristic_search.py:113-114) fails with an index error only if the cursor reaches the column's length before every field is visited; a run that visits every field first finishes normally. `Ranked` excludes both kinds of run, so the model says nothing about either.
- HeuristicSearch.GlobalSolver.TakeCandidate: "the greedy choice" and "at most one field per pass" are proved only when field indices are distinct, which `SetupFieldsDistinct` proves for every table. With repeated indices the source could take several fields in one pass; the model does the same, but only the capacity and `visited` facts are stated for that case.
- The heuristic's `__setup_trucks` (src/heuristic_search.py:54-82) is not modelled separately: it is line for line the exhaustive solver's, so the heuristic's `Run` reuses `GlobalSearch.SetupTrucks`.
- Converter.DistanceToCost: requires a non-zero `truck_consumption`. With 0 the source's division on line 34 raises a division-by-zero error, and the value is read from the console by the entry point, so nothing rules it out; that error path is not modelled.
- Converter.LiterToBblLinear and Converter.LiterToBblMonotone: these follow directly from the single multiplication on line 15 and need no proof steps.
