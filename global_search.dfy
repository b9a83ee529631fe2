/** The exhaustive solver (src/global_search.py): every oil field is assigned to some
    truck's route by a depth-first search that mutates the trucks in place and undoes
    each step on backtrack; the cheapest complete assignment is kept. */
module GlobalSearch {
  import opened Models
  import Converter

  /** `cost_matrix[<name>][<idx>]`: the entry in the column of the location called
      `name`, at row position `idx`. The table stores origins as rows and destinations
      as columns, so this is the travel cost from the location in row `idx` to the
      location called `name`; on a symmetric matrix the direction does not matter. */
  type CostMatrix = (string, nat) -> real

  // ---------------------------------------------------------------------------
  // Problem setup
  // ---------------------------------------------------------------------------

  datatype Scan = Scan(fields: seq<OilField>, depot: Option<Location>)
  datatype Setup = Setup(fields: seq<OilField>, depot: Location)

  /** The loop of `__setup_locations` from row `i` on: a non-depot row becomes the next
      oil field, numbered by how many fields precede it; a depot row replaces the depot,
      always with `idx` 0. */
  function ScanLocations(table: seq<Row>, i: nat, acc: Scan): Scan
    requires i <= |table|
    decreases |table| - i
  {
    if i == |table| then acc
    else if table[i].depot == 0 then
      ScanLocations(table, i + 1,
        acc.(fields := acc.fields + [OilField(|acc.fields|, table[i].name, table[i].production)]))
    else
      ScanLocations(table, i + 1, acc.(depot := Some(Location(0, table[i].name))))
  }

  /** `__setup_locations`; `None` where the source fails because no row is a depot. */
  function SetupLocations(table: seq<Row>): Option<Setup>
  {
    var scan := ScanLocations(table, 0, Scan([], None));
    if scan.depot.None? then None else Some(Setup(scan.fields, scan.depot.value))
  }

  /** `rows` numbered consecutively from `k`. */
  function Numbered(rows: seq<Row>, k: nat): (r: seq<OilField>)
    ensures |r| == |rows|
    ensures forall j :: 0 <= j < |rows| ==> r[j] == OilField(k + j, rows[j].name, rows[j].production)
  {
    seq(|rows|, j requires 0 <= j < |rows| => OilField(k + j, rows[j].name, rows[j].production))
  }

  lemma {:induction false} ScanFields(table: seq<Row>, i: nat, acc: Scan)
    requires i <= |table|
    ensures ScanLocations(table, i, acc).fields
         == acc.fields + Numbered(NonDepotRows(table[i..]), |acc.fields|)
    decreases |table| - i
  {
    if i < |table| {
      var rest := table[i + 1..];
      assert table[i..] == [table[i]] + rest;
      assert table[i..][1..] == rest;
      if table[i].depot == 0 {
        var f := OilField(|acc.fields|, table[i].name, table[i].production);
        ScanFields(table, i + 1, acc.(fields := acc.fields + [f]));
        assert NonDepotRows(table[i..]) == [table[i]] + NonDepotRows(rest);
        assert [f] + Numbered(NonDepotRows(rest), |acc.fields| + 1)
            == Numbered(NonDepotRows(table[i..]), |acc.fields|);
      } else {
        ScanFields(table, i + 1, acc.(depot := Some(Location(0, table[i].name))));
        assert NonDepotRows(table[i..]) == NonDepotRows(rest);
      }
    } else {
      assert table[i..] == [];
    }
  }

  lemma {:induction false} ScanDepot(table: seq<Row>, i: nat, acc: Scan)
    requires i <= |table|
    ensures (forall j :: i <= j < |table| ==> table[j].depot == 0) ==>
      ScanLocations(table, i, acc).depot == acc.depot
    ensures (exists j :: i <= j < |table| && table[j].depot != 0) ==>
      exists j :: i <= j < |table| && table[j].depot != 0
        && ScanLocations(table, i, acc).depot == Some(Location(0, table[j].name))
        && forall k :: j < k < |table| ==> table[k].depot == 0
    decreases |table| - i
  {
    if i < |table| {
      if table[i].depot == 0 {
        var f := OilField(|acc.fields|, table[i].name, table[i].production);
        ScanDepot(table, i + 1, acc.(fields := acc.fields + [f]));
      } else {
        var acc' := acc.(depot := Some(Location(0, table[i].name)));
        ScanDepot(table, i + 1, acc');
        if forall j :: i + 1 <= j < |table| ==> table[j].depot == 0 {
          assert ScanLocations(table, i, acc).depot == Some(Location(0, table[i].name));
        }
      }
    }
  }

  /** The oil fields are the non-depot rows in table order, numbered 0, 1, 2, ...
      with no gap for the depot row. */
  lemma SetupLocationsFields(table: seq<Row>)
    ensures SetupLocations(table).Some? ==>
      var fields := SetupLocations(table).value.fields;
      |fields| == |NonDepotRows(table)| &&
      forall k :: 0 <= k < |fields| ==>
        fields[k] == OilField(k, NonDepotRows(table)[k].name, NonDepotRows(table)[k].production)
  {
    ScanFields(table, 0, Scan([], None));
    assert table[0..] == table;
  }

  /** Setup succeeds exactly when some row is a depot; the depot is the LAST such row,
      with `idx` 0. */
  lemma SetupLocationsDepot(table: seq<Row>)
    ensures SetupLocations(table).Some? <==> exists i :: 0 <= i < |table| && table[i].depot != 0
    ensures SetupLocations(table).Some? ==>
      exists i :: 0 <= i < |table| && table[i].depot != 0
        && SetupLocations(table).value.depot == Location(0, table[i].name)
        && forall j :: i < j < |table| ==> table[j].depot == 0
  {
    ScanDepot(table, 0, Scan([], None));
  }

  /** The trucks `__setup_trucks` builds, as values. */
  function InitialFleet(numTrucks: int, capacity: real, depot: Location): (fleet: seq<TruckState>)
    ensures |fleet| == if numTrucks < 0 then 0 else numTrucks
    ensures forall i :: 0 <= i < |fleet| ==> fleet[i] == TruckState(i, depot, depot, [], 300.0, 0.0, capacity)
  {
    var n := if numTrucks < 0 then 0 else numTrucks;
    seq(n, i requires 0 <= i < n => TruckState(i, depot, depot, [], 300.0, 0.0, capacity))
  }

  /** `__setup_trucks`: `num_trucks` fresh trucks (none when it is negative), all idle at
      the depot with the converted capacity. */
  method SetupTrucks(numTrucks: int, truckCapacity: real, depot: Location) returns (trucks: seq<Truck>)
    ensures DistinctTrucks(trucks)
    ensures forall i :: 0 <= i < |trucks| ==> fresh(trucks[i])
    ensures Snapshot(trucks) == InitialFleet(numTrucks, Converter.LiterToBbl(truckCapacity), depot)
  {
    var capacity := Converter.LiterToBbl(truckCapacity);
    trucks := [];
    var i := 0;
    while i < numTrucks
      invariant 0 <= i && (numTrucks >= 0 ==> i <= numTrucks) && (numTrucks < 0 ==> i == 0)
      invariant |trucks| == i
      invariant DistinctTrucks(trucks)
      invariant forall j :: 0 <= j < i ==> fresh(trucks[j])
      invariant forall j :: 0 <= j < i ==>
        trucks[j].Snapshot() == TruckState(j, depot, depot, [], 300.0, 0.0, capacity)
    {
      var t := new Truck(i, depot, depot, [], 300.0, 0.0, capacity);
      trucks := trucks + [t];
      i := i + 1;
    }
    assert forall j :: 0 <= j < |trucks| ==>
      Snapshot(trucks)[j] == InitialFleet(numTrucks, capacity, depot)[j];
  }

  // ---------------------------------------------------------------------------
  // Costs
  // ---------------------------------------------------------------------------

  /** `__calculate_total_cost`: fixed plus variable cost of every truck that has a route;
      an idle truck costs nothing. */
  function TotalCost(fleet: seq<TruckState>): real
  {
    if fleet == [] then 0.0
    else
      var own := if fleet[0].route != [] then fleet[0].fixedCost + fleet[0].varCost else 0.0;
      own + TotalCost(fleet[1..])
  }

  /** A fleet in which no truck has left the depot costs 0. */
  lemma {:induction false} TotalCostIdleFleet(fleet: seq<TruckState>)
    requires forall i :: 0 <= i < |fleet| ==> fleet[i].route == []
    ensures TotalCost(fleet) == 0.0
  {
    if fleet != [] {
      TotalCostIdleFleet(fleet[1..]);
    }
  }

  /** Removing an idle truck does not change the total. */
  lemma {:induction false} TotalCostWithoutIdle(fleet: seq<TruckState>, i: nat)
    requires i < |fleet| && fleet[i].route == []
    ensures TotalCost(fleet) == TotalCost(fleet[..i] + fleet[i + 1..])
  {
    if i == 0 {
      assert fleet[..0] + fleet[1..] == fleet[1..];
    } else {
      TotalCostWithoutIdle(fleet[1..], i - 1);
      assert fleet[1..][..i - 1] + fleet[1..][i..] == (fleet[..i] + fleet[i + 1..])[1..];
    }
  }

  /** The sum of `cost[r_k.name][r_{k+1}.idx]` over consecutive stops of a route. */
  function PathCost(cost: CostMatrix, route: seq<OilField>): real
  {
    if |route| <= 1 then 0.0
    else PathCost(cost, route[..|route| - 1]) + cost(route[|route| - 2].name, route[|route| - 1].idx)
  }

  /** What driving `start -> route -> end` costs; nothing for an empty route. */
  function RouteCost(cost: CostMatrix, start: Location, route: seq<OilField>, end: Location): real
  {
    if route == [] then 0.0
    else cost(start.name, route[0].idx) + PathCost(cost, route) + cost(route[|route| - 1].name, end.idx)
  }

  /** Appending `f` replaces the closing edge `last -> end` by `last -> f -> end`
      (from the depot directly when the route was empty): the update the solver makes. */
  lemma RouteCostAppend(cost: CostMatrix, start: Location, route: seq<OilField>, f: OilField, end: Location)
    ensures route == [] ==>
      RouteCost(cost, start, route + [f], end) == cost(start.name, f.idx) + cost(f.name, end.idx)
    ensures route != [] ==>
      RouteCost(cost, start, route + [f], end)
      == RouteCost(cost, start, route, end) - cost(route[|route| - 1].name, end.idx)
         + cost(route[|route| - 1].name, f.idx) + cost(f.name, end.idx)
  {
    if route == [] {
      assert route + [f] == [f];
    } else {
      assert (route + [f])[..|route|] == route;
    }
  }

  /** The variable cost of a truck is the cost of its route. */
  ghost predicate ValidState(cost: CostMatrix, s: TruckState)
  {
    s.varCost == RouteCost(cost, s.start, s.route, s.end)
  }

  ghost predicate ValidFleet(cost: CostMatrix, fleet: seq<TruckState>)
  {
    forall i :: 0 <= i < |fleet| ==> ValidState(cost, fleet[i])
  }

  // ---------------------------------------------------------------------------
  // The search space: complete assignments reachable from a search state
  // ---------------------------------------------------------------------------

  /** Truck `s` after the fields of `ext` are appended to its route. */
  function Extend(cost: CostMatrix, s: TruckState, ext: seq<OilField>): TruckState
  {
    s.(route := s.route + ext, capacity := s.capacity - Production(ext),
       varCost := RouteCost(cost, s.start, s.route + ext, s.end))
  }

  /** Every truck of `fleet` after its share `exts[i]` is appended. */
  function Complete(cost: CostMatrix, fleet: seq<TruckState>, exts: seq<seq<OilField>>): (r: seq<TruckState>)
    requires |exts| == |fleet|
    ensures |r| == |fleet|
    ensures forall i :: 0 <= i < |fleet| ==> r[i] == Extend(cost, fleet[i], exts[i])
  {
    seq(|fleet|, i requires 0 <= i < |fleet| => Extend(cost, fleet[i], exts[i]))
  }

  /** `exts` gives each truck a share of the fields not yet visited so that every field
      ends up visited exactly once, and each truck can take its share in order without
      its remaining capacity going negative: a complete assignment that extends the
      current search state. */
  ghost predicate IsAssignment(fields: seq<OilField>, visited: seq<OilField>,
                               fleet: seq<TruckState>, exts: seq<seq<OilField>>)
  {
    && |exts| == |fleet|
    && (forall i :: 0 <= i < |fleet| ==> Feasible(fleet[i].capacity, exts[i]))
    && Distinct(visited + Flatten(exts))
    && Within(Flatten(exts), fields)
    && |visited| + |Flatten(exts)| == |fields|
  }

  /** `best` is no more than the total cost of any complete assignment from this state. */
  ghost predicate LowerBound(cost: CostMatrix, fields: seq<OilField>, visited: seq<OilField>,
                             fleet: seq<TruckState>, best: Best)
  {
    forall exts :: IsAssignment(fields, visited, fleet, exts) ==>
      Le(best, Fin(TotalCost(Complete(cost, fleet, exts))))
  }

  /** `best` is the total cost of the complete assignment `sol` from this state. */
  ghost predicate Achieved(cost: CostMatrix, fields: seq<OilField>, visited: seq<OilField>,
                           fleet: seq<TruckState>, best: Best, sol: seq<TruckState>)
  {
    best.Fin? &&
    exists exts :: IsAssignment(fields, visited, fleet, exts) &&
      sol == Complete(cost, fleet, exts) && TotalCost(sol) == best.value
  }

  lemma {:induction false} ExtendCons(cost: CostMatrix, s: TruckState, f: OilField, rest: seq<OilField>)
    ensures Extend(cost, Extend(cost, s, [f]), rest) == Extend(cost, s, [f] + rest)
  {
    assert ([f] + rest)[1..] == rest;
    assert [f][1..] == [];
    assert Production([f]) == f.production;
    assert Production([f] + rest) == f.production + Production(rest);
    assert s.route + [f] + rest == s.route + ([f] + rest);
  }

  /** Putting `f` in front of truck `i`'s share completes to the same fleet as first
      appending `f` to that truck. */
  lemma CompleteShift(cost: CostMatrix, fleet: seq<TruckState>, exts: seq<seq<OilField>>, i: nat, f: OilField)
    requires |exts| == |fleet| && i < |fleet|
    ensures Complete(cost, fleet[i := Extend(cost, fleet[i], [f])], exts)
         == Complete(cost, fleet, exts[i := [f] + exts[i]])
  {
    ExtendCons(cost, fleet[i], f, exts[i]);
  }

  /** Truck `i` can take `[f] + share` exactly when `f` fits and it can then take `share`. */
  lemma FeasibleShift(cost: CostMatrix, fleet: seq<TruckState>, exts: seq<seq<OilField>>, i: nat, f: OilField)
    requires |exts| == |fleet| && i < |fleet|
    ensures (&& fleet[i].capacity - f.production >= 0.0
             && forall j :: 0 <= j < |fleet| ==>
                  Feasible(fleet[i := Extend(cost, fleet[i], [f])][j].capacity, exts[j]))
        <==> (forall j :: 0 <= j < |fleet| ==> Feasible(fleet[j].capacity, exts[i := [f] + exts[i]][j]))
  {
    assert Production([f]) == f.production by { assert [f][1..] == []; }
    assert ([f] + exts[i])[1..] == exts[i];
    assert Feasible(fleet[i].capacity, [f] + exts[i])
      <==> fleet[i].capacity - f.production >= 0.0 && Feasible(fleet[i].capacity - f.production, exts[i]);
  }

  /** The first field `f` of any truck's share is unvisited and fits that truck; pushing it
      leaves an assignment of the rest that completes to the same fleet. This is why the
      search, which tries every truck and every such field, reaches every assignment. */
  lemma AssignmentStep(cost: CostMatrix, fields: seq<OilField>, visited: seq<OilField>,
                       fleet: seq<TruckState>, exts: seq<seq<OilField>>, i: nat)
    requires IsAssignment(fields, visited, fleet, exts)
    requires i < |exts| && exts[i] != []
    ensures var f := exts[i][0];
      && f in fields && f !in visited && fleet[i].capacity - f.production >= 0.0
      && IsAssignment(fields, visited + [f], fleet[i := Extend(cost, fleet[i], [f])], exts[i := exts[i][1..]])
      && Complete(cost, fleet[i := Extend(cost, fleet[i], [f])], exts[i := exts[i][1..]])
         == Complete(cost, fleet, exts)
  {
    var f := exts[i][0];
    var exts' := exts[i := exts[i][1..]];
    var fleet' := fleet[i := Extend(cost, fleet[i], [f])];
    assert exts'[i := [f] + exts'[i]] == exts by {
      assert exts[i] == [f] + exts[i][1..];
    }
    FlattenCons(exts', i, f);
    assert multiset(visited + [f] + Flatten(exts')) == multiset(visited + Flatten(exts));
    assert Distinct(visited + [f] + Flatten(exts')) by {
      SamePermutation(visited + [f] + Flatten(exts'), visited + Flatten(exts), fields);
    }
    assert f !in visited by {
      assert multiset(visited + [f] + Flatten(exts'))[f]
          == multiset(visited)[f] + 1 + multiset(Flatten(exts'))[f];
    }
    assert f in fields by {
      assert multiset(Flatten(exts))[f] > 0;
    }
    assert Within(Flatten(exts'), fields) by {
      forall x | x in Flatten(exts') ensures x in fields {
        assert multiset(Flatten(exts))[x] > 0;
      }
    }
    FeasibleShift(cost, fleet, exts', i, f);
    assert IsAssignment(fields, visited + [f], fleet', exts');
    CompleteShift(cost, fleet, exts', i, f);
  }

  /** Moving `f` from the visited list to the front of share `i` keeps the list and the
      shares together free of repeats, within `fields`, and of the same total length. */
  lemma LiftCover(fields: seq<OilField>, visited: seq<OilField>, i: nat, f: OilField,
                  exts': seq<seq<OilField>>)
    requires i < |exts'| && f in fields
    requires Distinct(visited + [f] + Flatten(exts')) && Within(Flatten(exts'), fields)
    ensures Distinct(visited + Flatten(exts'[i := [f] + exts'[i]]))
    ensures Within(Flatten(exts'[i := [f] + exts'[i]]), fields)
    ensures |Flatten(exts'[i := [f] + exts'[i]])| == |Flatten(exts')| + 1
  {
    var exts := exts'[i := [f] + exts'[i]];
    FlattenCons(exts', i, f);
    assert multiset(visited + Flatten(exts)) == multiset(visited + [f] + Flatten(exts'));
    SamePermutation(visited + Flatten(exts), visited + [f] + Flatten(exts'), fields);
    forall x | x in Flatten(exts) ensures x in fields {
      assert multiset(Flatten(exts))[x] > 0;
      if x != f {
        assert multiset(Flatten(exts'))[x] > 0;
      }
    }
  }

  /** Conversely, an assignment from the state after pushing `f` onto truck `i` is, with
      `f` put back in front of that truck's share, an assignment from the state before. */
  lemma AssignmentLift(cost: CostMatrix, fields: seq<OilField>, visited: seq<OilField>,
                       fleet: seq<TruckState>, i: nat, f: OilField, exts': seq<seq<OilField>>)
    requires i < |fleet| && f in fields && f !in visited && fleet[i].capacity - f.production >= 0.0
    requires IsAssignment(fields, visited + [f], fleet[i := Extend(cost, fleet[i], [f])], exts')
    ensures IsAssignment(fields, visited, fleet, exts'[i := [f] + exts'[i]])
    ensures Complete(cost, fleet, exts'[i := [f] + exts'[i]])
         == Complete(cost, fleet[i := Extend(cost, fleet[i], [f])], exts')
  {
    LiftCover(fields, visited, i, f, exts');
    FeasibleShift(cost, fleet, exts', i, f);
    CompleteShift(cost, fleet, exts', i, f);
  }

  /** The index of the first truck with a non-empty share. */
  function FirstUsed(exts: seq<seq<OilField>>): (i: nat)
    ensures i <= |exts|
    ensures forall j :: 0 <= j < i ==> exts[j] == []
    ensures i < |exts| ==> exts[i] != []
  {
    if exts == [] then 0
    else if exts[0] != [] then 0
    else 1 + FirstUsed(exts[1..])
  }

  /** The assignments whose first step the search has tried once the loop over trucks is at
      truck `ti` and the loop over fields at field `fi`. */
  ghost predicate Tried(fields: seq<OilField>, exts: seq<seq<OilField>>, ti: nat, fi: nat)
  {
    FirstUsed(exts) < ti ||
    (FirstUsed(exts) == ti && ti < |exts| && fi <= |fields| && exts[ti][0] in fields[..fi])
  }

  /** `best` bounds every assignment already tried from this state. */
  ghost predicate SearchedUpTo(cost: CostMatrix, fields: seq<OilField>, visited: seq<OilField>,
                               fleet: seq<TruckState>, ti: nat, fi: nat, best: Best)
  {
    forall exts :: IsAssignment(fields, visited, fleet, exts) && Tried(fields, exts, ti, fi) ==>
      Le(best, Fin(TotalCost(Complete(cost, fleet, exts))))
  }

  lemma SearchedNothing(cost: CostMatrix, fields: seq<OilField>, visited: seq<OilField>,
                        fleet: seq<TruckState>, best: Best)
    ensures SearchedUpTo(cost, fields, visited, fleet, 0, 0, best)
  {
  }

  /** Moving on to field `fi + 1`: the assignments that start by pushing `fields[fi]` onto
      truck `ti` are bounded, either because there are none (the field is visited or does
      not fit) or by the bound the recursive call established. */
  lemma SearchedNextField(cost: CostMatrix, fields: seq<OilField>, visited: seq<OilField>,
                          fleet: seq<TruckState>, ti: nat, fi: nat, best: Best, newBest: Best, stepBound: Best)
    requires ti < |fleet| && fi < |fields|
    requires SearchedUpTo(cost, fields, visited, fleet, ti, fi, best) && Le(newBest, best)
    requires
      || fields[fi] in visited
      || fleet[ti].capacity - fields[fi].production < 0.0
      || (&& LowerBound(cost, fields, visited + [fields[fi]],
                        fleet[ti := Extend(cost, fleet[ti], [fields[fi]])], stepBound)
          && Le(newBest, stepBound))
    ensures SearchedUpTo(cost, fields, visited, fleet, ti, fi + 1, newBest)
  {
    var f := fields[fi];
    forall exts | IsAssignment(fields, visited, fleet, exts) && Tried(fields, exts, ti, fi + 1)
      ensures Le(newBest, Fin(TotalCost(Complete(cost, fleet, exts))))
    {
      if !Tried(fields, exts, ti, fi) {
        assert fields[..fi + 1] == fields[..fi] + [f];
        assert exts[ti][0] == f;
        AssignmentStep(cost, fields, visited, fleet, exts, ti);
      }
    }
  }

  /** Moving on to truck `ti + 1`: every field was tried as the first step for truck `ti`. */
  lemma SearchedNextTruck(cost: CostMatrix, fields: seq<OilField>, visited: seq<OilField>,
                          fleet: seq<TruckState>, ti: nat, best: Best)
    requires |visited| < |fields|
    requires SearchedUpTo(cost, fields, visited, fleet, ti, |fields|, best)
    ensures SearchedUpTo(cost, fields, visited, fleet, ti + 1, 0, best)
  {
    forall exts | IsAssignment(fields, visited, fleet, exts) && Tried(fields, exts, ti + 1, 0)
      ensures Tried(fields, exts, ti, |fields|)
    {
      FlattenEmpty(exts);
      if FirstUsed(exts) == ti {
        FlattenMember(exts, ti, exts[ti][0]);
        assert fields[..|fields|] == fields;
      }
    }
  }

  /** Once every truck was tried, every assignment from a non-terminal state is bounded. */
  lemma SearchedAll(cost: CostMatrix, fields: seq<OilField>, visited: seq<OilField>,
                    fleet: seq<TruckState>, best: Best)
    requires |visited| < |fields|
    requires SearchedUpTo(cost, fields, visited, fleet, |fleet|, 0, best)
    ensures LowerBound(cost, fields, visited, fleet, best)
  {
    forall exts | IsAssignment(fields, visited, fleet, exts)
      ensures Le(best, Fin(TotalCost(Complete(cost, fleet, exts))))
    {
      FlattenEmpty(exts);
      assert FirstUsed(exts) < |fleet|;
    }
  }

  /** At a terminal state the only assignment gives every truck an empty share, and it
      completes to the current fleet. */
  lemma TerminalAssignments(cost: CostMatrix, fields: seq<OilField>, visited: seq<OilField>,
                            fleet: seq<TruckState>)
    requires ValidFleet(cost, fleet)
    requires Distinct(visited) && Within(visited, fields) && |visited| == |fields|
    ensures IsAssignment(fields, visited, fleet, seq(|fleet|, _ => []))
    ensures Complete(cost, fleet, seq(|fleet|, _ => [])) == fleet
    ensures forall exts :: IsAssignment(fields, visited, fleet, exts) ==> Complete(cost, fleet, exts) == fleet
  {
    var empty: seq<seq<OilField>> := seq(|fleet|, _ => []);
    FlattenEmpty(empty);
    assert visited + [] == visited;
    assert forall i :: 0 <= i < |fleet| ==> fleet[i].route + [] == fleet[i].route;
    assert Complete(cost, fleet, empty) == fleet;
    forall exts | IsAssignment(fields, visited, fleet, exts)
      ensures Complete(cost, fleet, exts) == fleet
    {
      FlattenEmpty(exts);
      assert exts == empty;
    }
  }

  /** `sol` from a state after pushing `f` onto truck `i` is also reachable from the state
      before. */
  lemma AchievedLift(cost: CostMatrix, fields: seq<OilField>, visited: seq<OilField>,
                     fleet: seq<TruckState>, i: nat, f: OilField, best: Best, sol: seq<TruckState>)
    requires i < |fleet| && f in fields && f !in visited && fleet[i].capacity - f.production >= 0.0
    requires Achieved(cost, fields, visited + [f], fleet[i := Extend(cost, fleet[i], [f])], best, sol)
    ensures Achieved(cost, fields, visited, fleet, best, sol)
  {
    var exts' :| IsAssignment(fields, visited + [f], fleet[i := Extend(cost, fleet[i], [f])], exts')
      && sol == Complete(cost, fleet[i := Extend(cost, fleet[i], [f])], exts') && TotalCost(sol) == best.value;
    AssignmentLift(cost, fields, visited, fleet, i, f, exts');
  }

  // ---------------------------------------------------------------------------
  // The solver
  // ---------------------------------------------------------------------------

  class GlobalSolver {
    const costMatrix: CostMatrix
    const locationsInfo: seq<Row>
    var optimalSolution: Solution

    constructor (costMatrix: CostMatrix, locationsInfo: seq<Row>, optimalSolution: Solution)
      ensures this.costMatrix == costMatrix && this.locationsInfo == locationsInfo
      ensures this.optimalSolution == optimalSolution
    {
      this.costMatrix := costMatrix;
      this.locationsInfo := locationsInfo;
      this.optimalSolution := optimalSolution;
    }

    /** `__solve`: from the current trucks and `visited`, try every unvisited field that
        fits on every truck, recurse, and undo. Returns the best of `optimalCost` and the
        cost of every complete assignment reachable from here, with a copy of the trucks
        that achieve it; the trucks and `visited` are left exactly as they were. */
    method Solve(visited: FieldStack, trucks: seq<Truck>, fields: seq<OilField>,
                 solution: seq<TruckState>, optimalCost: Best)
      returns (best: seq<TruckState>, bestCost: Best)
      requires DistinctTrucks(trucks)
      requires ValidFleet(costMatrix, Snapshot(trucks))
      requires Distinct(visited.items) && Within(visited.items, fields)
      modifies visited, trucks
      decreases |fields| - |visited.items|, 1
      ensures visited.items == old(visited.items)
      ensures Snapshot(trucks) == old(Snapshot(trucks))
      ensures Le(bestCost, optimalCost)
      ensures LowerBound(costMatrix, fields, visited.items, Snapshot(trucks), bestCost)
      ensures bestCost == optimalCost || Achieved(costMatrix, fields, visited.items, Snapshot(trucks), bestCost, best)
      ensures bestCost == optimalCost && |visited.items| != |fields| ==> best == solution
    {
      DistinctWithinBound(visited.items, fields);
      if |visited.items| == |fields| {
        var totalCost := TotalCost(Snapshot(trucks));
        bestCost := optimalCost;
        if Less(Fin(totalCost), optimalCost) {
          bestCost := Fin(totalCost);
        }
        best := Snapshot(trucks);
        TerminalAssignments(costMatrix, fields, visited.items, Snapshot(trucks));
        return;
      }
      best, bestCost := solution, optimalCost;
      ghost var V0 := visited.items;
      ghost var S0 := Snapshot(trucks);
      SearchedNothing(costMatrix, fields, V0, S0, bestCost);
      for ti := 0 to |trucks|
        invariant visited.items == V0 && Snapshot(trucks) == S0
        invariant Le(bestCost, optimalCost)
        invariant SearchedUpTo(costMatrix, fields, V0, S0, ti, 0, bestCost)
        invariant (bestCost == optimalCost && best == solution)
               || (Less(bestCost, optimalCost) && Achieved(costMatrix, fields, V0, S0, bestCost, best))
      {
        for fi := 0 to |fields|
          invariant visited.items == V0 && Snapshot(trucks) == S0
          invariant Le(bestCost, optimalCost)
          invariant SearchedUpTo(costMatrix, fields, V0, S0, ti, fi, bestCost)
          invariant (bestCost == optimalCost && best == solution)
                 || (Less(bestCost, optimalCost) && Achieved(costMatrix, fields, V0, S0, bestCost, best))
        {
          var f := fields[fi];
          ghost var before := bestCost;
          ghost var stepBound := bestCost;
          if f !in visited.items && trucks[ti].capacity - f.production >= 0.0 {
            best, bestCost, stepBound := TryField(visited, trucks, ti, f, fields, best, bestCost);
          }
          SearchedNextField(costMatrix, fields, V0, S0, ti, fi, before, bestCost, stepBound);
        }
        SearchedNextTruck(costMatrix, fields, V0, S0, ti, bestCost);
      }
      SearchedAll(costMatrix, fields, V0, S0, bestCost);
    }

    /** The body of the loops of `__solve` for one truck `ti` and one unvisited field `f`
        that fits: push, recurse, pop, keep the better of the two results, undo.
        `stepBound` is what the recursive call bounds: every assignment that starts by
        giving `f` to truck `ti`. */
    method TryField(visited: FieldStack, trucks: seq<Truck>, ti: nat, f: OilField, fields: seq<OilField>,
                    best: seq<TruckState>, bestCost: Best)
      returns (newBest: seq<TruckState>, newCost: Best, ghost stepBound: Best)
      requires DistinctTrucks(trucks) && ti < |trucks|
      requires ValidFleet(costMatrix, Snapshot(trucks))
      requires Distinct(visited.items) && Within(visited.items, fields)
      requires f in fields && f !in visited.items && trucks[ti].capacity - f.production >= 0.0
      modifies visited, trucks
      decreases |fields| - |visited.items|, 0
      ensures visited.items == old(visited.items)
      ensures Snapshot(trucks) == old(Snapshot(trucks))
      ensures Le(newCost, bestCost) && Le(newCost, stepBound)
      ensures LowerBound(costMatrix, fields, visited.items + [f],
                         Snapshot(trucks)[ti := Extend(costMatrix, Snapshot(trucks)[ti], [f])], stepBound)
      ensures (newCost == bestCost && newBest == best)
           || (Less(newCost, bestCost) && Achieved(costMatrix, fields, visited.items, Snapshot(trucks), newCost, newBest))
    {
      ghost var V0 := visited.items;
      ghost var S0 := Snapshot(trucks);
      Visit(visited, f, fields);
      assert Snapshot(trucks) == S0;
      Push(trucks, ti, f);
      ghost var V1 := visited.items;
      ghost var S1 := Snapshot(trucks);
      var retTrucks, retCost := Solve(visited, trucks, fields, best, bestCost);
      assert LowerBound(costMatrix, fields, V1, S1, retCost);
      assert retCost == bestCost || Achieved(costMatrix, fields, V1, S1, retCost, retTrucks);
      stepBound := retCost;
      Unvisit(visited, trucks);
      assert visited.items == V0 && Snapshot(trucks) == S1;
      newBest, newCost := best, bestCost;
      if Less(retCost, bestCost) {
        newBest, newCost := retTrucks, retCost;
        AchievedLift(costMatrix, fields, V0, S0, ti, f, retCost, retTrucks);
      }
      assert ValidFleet(costMatrix, S0);
      assert Snapshot(trucks) == S0[ti := Extend(costMatrix, S0[ti], [f])];
      Undo(trucks, ti, f, S0);
      assert V1 == V0 + [f] && S1 == S0[ti := Extend(costMatrix, S0[ti], [f])];
      assert LowerBound(costMatrix, fields, V0 + [f], S0[ti := Extend(costMatrix, S0[ti], [f])], stepBound);
    }

    /** Line 129: mark `f` visited; `visited` stays free of repeats and within `fields`. */
    method Visit(visited: FieldStack, f: OilField, ghost fields: seq<OilField>)
      requires Distinct(visited.items) && Within(visited.items, fields)
      requires f in fields && f !in visited.items
      modifies visited
      ensures visited.items == old(visited.items) + [f]
      ensures Distinct(visited.items) && Within(visited.items, fields)
      ensures |visited.items| <= |fields|
    {
      visited.Push(f);
      DistinctWithinBound(visited.items, fields);
    }

    /** Line 146: unmark the field marked last; the trucks are not touched. */
    method Unvisit(visited: FieldStack, ghost trucks: seq<Truck>)
      requires visited.items != []
      modifies visited
      ensures visited.items == old(visited.items)[..|old(visited.items)| - 1]
      ensures Snapshot(trucks) == old(Snapshot(trucks))
    {
      visited.Pop();
    }

    /** Lines 130-138: append `f` to truck `ti`, updating its variable cost incrementally
        and its remaining capacity; the other trucks are untouched. */
    method Push(trucks: seq<Truck>, ti: nat, f: OilField)
      requires DistinctTrucks(trucks) && ti < |trucks|
      requires ValidFleet(costMatrix, Snapshot(trucks))
      modifies trucks[ti]
      ensures Snapshot(trucks) == old(Snapshot(trucks))[ti := Extend(costMatrix, old(Snapshot(trucks))[ti], [f])]
      ensures ValidFleet(costMatrix, Snapshot(trucks))
    {
      ghost var S := Snapshot(trucks);
      var t := trucks[ti];
      ghost var s := S[ti];
      RouteCostAppend(costMatrix, s.start, s.route, f, s.end);
      if |t.route| == 0 {
        t.varCost := t.varCost + costMatrix(t.start.name, f.idx);
        t.varCost := t.varCost + costMatrix(f.name, t.end.idx);
      } else {
        t.varCost := t.varCost - costMatrix(t.route[|t.route| - 1].name, t.end.idx);
        t.varCost := t.varCost + costMatrix(t.route[|t.route| - 1].name, f.idx);
        t.varCost := t.varCost + costMatrix(f.name, t.end.idx);
      }
      t.route := t.route + [f];
      t.capacity := t.capacity - f.production;
      assert Production([f]) == f.production by { assert [f][1..] == []; }
      assert t.Snapshot() == Extend(costMatrix, s, [f]);
      assert forall j :: 0 <= j < |trucks| && j != ti ==> trucks[j].Snapshot() == S[j];
      assert Snapshot(trucks) == S[ti := Extend(costMatrix, s, [f])];
    }

    /** Lines 150-158: undo `Push` exactly, resetting the variable cost to 0 when `f` was
        the only stop. */
    method Undo(trucks: seq<Truck>, ti: nat, f: OilField, ghost S0: seq<TruckState>)
      requires DistinctTrucks(trucks) && ti < |trucks| && |S0| == |trucks|
      requires ValidFleet(costMatrix, S0)
      requires Snapshot(trucks) == S0[ti := Extend(costMatrix, S0[ti], [f])]
      modifies trucks[ti]
      ensures Snapshot(trucks) == S0
    {
      var t := trucks[ti];
      ghost var s := S0[ti];
      ghost var r := s.route;
      assert t.route == r + [f];
      RouteCostAppend(costMatrix, s.start, r, f, s.end);
      if |t.route| == 1 {
        t.varCost := 0.0;
      } else {
        assert t.route[|t.route| - 2] == r[|r| - 1];
        t.varCost := t.varCost + costMatrix(t.route[|t.route| - 2].name, t.end.idx);
        t.varCost := t.varCost - costMatrix(t.route[|t.route| - 2].name, f.idx);
        t.varCost := t.varCost - costMatrix(f.name, t.end.idx);
      }
      t.capacity := t.capacity + f.production;
      t.route := t.route[..|t.route| - 1];
      assert Production([f]) == f.production by { assert [f][1..] == []; }
      assert t.route == r;
      assert t.Snapshot() == s;
      assert forall j :: 0 <= j < |trucks| && j != ti ==> trucks[j].Snapshot() == S0[j];
      assert Snapshot(trucks) == S0;
    }

    /** `run`: set up the fields, the depot and the trucks, search from no field visited
        and record the best solution. `ok` is false, and nothing is recorded, where the
        source fails because the table has no depot row. The recorded cost bounds every
        complete assignment from the initial fleet and is `Inf` or achieved by the
        recorded trucks. */
    method Run(numTrucks: int, truckCapacity: real) returns (ok: bool)
      modifies this
      ensures ok <==> SetupLocations(locationsInfo).Some?
      ensures !ok ==> optimalSolution == old(optimalSolution)
      ensures ok ==>
        var setup := SetupLocations(locationsInfo).value;
        var fleet := InitialFleet(numTrucks, Converter.LiterToBbl(truckCapacity), setup.depot);
        && LowerBound(costMatrix, setup.fields, [], fleet, optimalSolution.totalCost)
        && (optimalSolution.totalCost == Inf
            || Achieved(costMatrix, setup.fields, [], fleet, optimalSolution.totalCost, optimalSolution.trucks))
    {
      var setup := SetupLocations(locationsInfo);
      if setup.None? {
        return false;
      }
      var trucks := SetupTrucks(numTrucks, truckCapacity, setup.value.depot);
      var visited := new FieldStack();
      var fleet := Snapshot(trucks);
      assert ValidFleet(costMatrix, fleet);
      var solution, optimalCost := Solve(visited, trucks, setup.value.fields, [], Inf);
      optimalSolution := Solution(solution, optimalCost);
      ok := true;
    }
  }

  /** The fields `__setup_locations` builds are pairwise distinct: their indices are. */
  lemma SetupFieldsDistinct(table: seq<Row>)
    requires SetupLocations(table).Some?
    ensures Distinct(SetupLocations(table).value.fields)
  {
    SetupLocationsFields(table);
    DistinctIndices(SetupLocations(table).value.fields);
  }

  /** A complete assignment from the empty search state covers `fields` exactly once. */
  lemma AssignmentCover(fields: seq<OilField>, fleet: seq<TruckState>, exts: seq<seq<OilField>>)
    requires Distinct(fields) && IsAssignment(fields, [], fleet, exts)
    ensures Distinct(Flatten(exts))
    ensures forall f :: f in fields <==> f in Flatten(exts)
  {
    assert [] + Flatten(exts) == Flatten(exts);
    CoverAll(Flatten(exts), fields);
  }

  /** From trucks with empty routes, each truck's route is its share. */
  lemma CompleteFromEmpty(cost: CostMatrix, fleet: seq<TruckState>, exts: seq<seq<OilField>>)
    requires |exts| == |fleet| && forall i :: 0 <= i < |fleet| ==> fleet[i].route == []
    ensures Routes(Complete(cost, fleet, exts)) == exts
    ensures forall i :: 0 <= i < |fleet| ==>
      Complete(cost, fleet, exts)[i] == fleet[i].(route := exts[i],
        capacity := fleet[i].capacity - Production(exts[i]),
        varCost := RouteCost(cost, fleet[i].start, exts[i], fleet[i].end))
  {
    forall i | 0 <= i < |fleet| ensures fleet[i].route + exts[i] == exts[i] {
    }
  }

  /** What a solution reachable from the initial fleet looks like: one route per truck,
      every field on exactly one route, each route within its truck's capacity with the
      remaining capacity accounted for, each variable cost the cost of its route, and the
      recorded cost their total. */
  lemma AchievedShape(cost: CostMatrix, fields: seq<OilField>, fleet: seq<TruckState>,
                      best: Best, sol: seq<TruckState>)
    requires Distinct(fields)
    requires forall i :: 0 <= i < |fleet| ==> fleet[i].route == []
    requires Achieved(cost, fields, [], fleet, best, sol)
    ensures |sol| == |fleet| && best == Fin(TotalCost(sol))
    ensures Distinct(Flatten(Routes(sol)))
    ensures forall f :: f in fields <==> f in Flatten(Routes(sol))
    ensures forall i :: 0 <= i < |sol| && sol[i].route != [] ==> sol[i].capacity >= 0.0
    ensures forall i :: 0 <= i < |sol| ==>
      && sol[i].capacity == fleet[i].capacity - Production(sol[i].route)
      && Feasible(fleet[i].capacity, sol[i].route)
      && sol[i].varCost == RouteCost(cost, sol[i].start, sol[i].route, sol[i].end)
      && sol[i].start == fleet[i].start && sol[i].end == fleet[i].end
  {
    var exts :| IsAssignment(fields, [], fleet, exts)
      && sol == Complete(cost, fleet, exts) && TotalCost(sol) == best.value;
    CompleteFromEmpty(cost, fleet, exts);
    AssignmentCover(fields, fleet, exts);
    forall i | 0 <= i < |sol|
      ensures sol[i].route != [] ==> sol[i].capacity >= 0.0
      ensures sol[i].capacity == fleet[i].capacity - Production(sol[i].route)
      ensures Feasible(fleet[i].capacity, sol[i].route)
    {
      assert sol[i].route == exts[i];
      if exts[i] != [] {
        FeasibleNonNegative(fleet[i].capacity, exts[i]);
      }
    }
  }

}
