/** The greedy heuristic (src/heuristic_search.py): trucks are filled one after the
    other; each keeps driving to the nearest location, by rank in the distance row of
    where it stands, that is an unvisited oil field it still has room for. */
module HeuristicSearch {
  import opened Models
  import Converter
  import GlobalSearch

  /** `dist_matrix[<name>]`: the column of the location called `name`, indexed by row
      position. The table stores origins as rows and destinations as columns, so entry
      `i` is the distance from the location in row `i` to `name`. */
  type DistMatrix = string -> seq<real>

  /** The rank cursor gives up once it reaches this value. */
  const MaxRank: nat := 9

  // ---------------------------------------------------------------------------
  // Problem setup
  // ---------------------------------------------------------------------------

  datatype Scan = Scan(fields: seq<OilField>, depot: Option<Location>)
  datatype Setup = Setup(fields: seq<OilField>, depot: Location)

  /** The loop of `__setup_locations` from row `i` on. Unlike the exhaustive solver's,
      the counter advances on every row, so a field's `idx` and the depot's `idx` are
      their row positions; the last depot row wins. */
  function ScanLocations(table: seq<Row>, i: nat, acc: Scan): Scan
    requires i <= |table|
    decreases |table| - i
  {
    if i == |table| then acc
    else if table[i].depot == 0 then
      ScanLocations(table, i + 1, acc.(fields := acc.fields + [OilField(i, table[i].name, table[i].production)]))
    else
      ScanLocations(table, i + 1, acc.(depot := Some(Location(i, table[i].name))))
  }

  /** `__setup_locations`; `None` where the source fails because no row is a depot. */
  function SetupLocations(table: seq<Row>): Option<Setup>
  {
    var scan := ScanLocations(table, 0, Scan([], None));
    if scan.depot.None? then None else Some(Setup(scan.fields, scan.depot.value))
  }

  /** `fields` are the non-depot rows among the first `n`, in table order, each numbered
      by its row position. */
  ghost predicate RowFields(table: seq<Row>, fields: seq<OilField>, n: nat)
    requires n <= |table|
  {
    && (forall k :: 0 <= k < |fields| ==>
          && fields[k].idx < n && table[fields[k].idx].depot == 0
          && fields[k] == OilField(fields[k].idx, table[fields[k].idx].name, table[fields[k].idx].production))
    && (forall k, l :: 0 <= k < l < |fields| ==> fields[k].idx < fields[l].idx)
    && (forall j :: 0 <= j < n && table[j].depot == 0 ==> exists k :: 0 <= k < |fields| && fields[k].idx == j)
  }

  /** A field row extends the fields found so far by itself. */
  lemma RowFieldsTake(table: seq<Row>, fields: seq<OilField>, i: nat)
    requires i < |table| && table[i].depot == 0 && RowFields(table, fields, i)
    ensures RowFields(table, fields + [OilField(i, table[i].name, table[i].production)], i + 1)
  {
    var fields' := fields + [OilField(i, table[i].name, table[i].production)];
    assert fields'[|fields|].idx == i;
    forall j | 0 <= j < i + 1 && table[j].depot == 0
      ensures exists k :: 0 <= k < |fields'| && fields'[k].idx == j
    {
      if j < i {
        var k :| 0 <= k < |fields| && fields[k].idx == j;
        assert fields'[k].idx == j;
      }
    }
  }

  /** A depot row adds no field. */
  lemma RowFieldsSkip(table: seq<Row>, fields: seq<OilField>, i: nat)
    requires i < |table| && table[i].depot != 0 && RowFields(table, fields, i)
    ensures RowFields(table, fields, i + 1)
  {
  }

  lemma {:induction false} ScanFields(table: seq<Row>, i: nat, acc: Scan)
    requires i <= |table| && RowFields(table, acc.fields, i)
    ensures RowFields(table, ScanLocations(table, i, acc).fields, |table|)
    decreases |table| - i
  {
    if i < |table| {
      if table[i].depot == 0 {
        RowFieldsTake(table, acc.fields, i);
        ScanFields(table, i + 1, acc.(fields := acc.fields + [OilField(i, table[i].name, table[i].production)]));
      } else {
        RowFieldsSkip(table, acc.fields, i);
        ScanFields(table, i + 1, acc.(depot := Some(Location(i, table[i].name))));
      }
    }
  }

  lemma {:induction false} ScanDepot(table: seq<Row>, i: nat, acc: Scan)
    requires i <= |table|
    ensures (forall j :: i <= j < |table| ==> table[j].depot == 0) ==>
      ScanLocations(table, i, acc).depot == acc.depot
    ensures (exists j :: i <= j < |table| && table[j].depot != 0) ==>
      exists j :: i <= j < |table| && table[j].depot != 0
        && ScanLocations(table, i, acc).depot == Some(Location(j, table[j].name))
        && forall k :: j < k < |table| ==> table[k].depot == 0
    decreases |table| - i
  {
    if i < |table| {
      if table[i].depot == 0 {
        ScanDepot(table, i + 1, acc.(fields := acc.fields + [OilField(i, table[i].name, table[i].production)]));
      } else {
        ScanDepot(table, i + 1, acc.(depot := Some(Location(i, table[i].name))));
        if forall j :: i + 1 <= j < |table| ==> table[j].depot == 0 {
          assert ScanLocations(table, i, acc).depot == Some(Location(i, table[i].name));
        }
      }
    }
  }

  /** Every non-depot row becomes exactly one field, in table order, whose `idx` is its
      row position. */
  lemma SetupLocationsFields(table: seq<Row>)
    ensures SetupLocations(table).Some? ==> RowFields(table, SetupLocations(table).value.fields, |table|)
  {
    ScanFields(table, 0, Scan([], None));
  }

  /** Setup succeeds exactly when some row is a depot; the depot is the LAST such row,
      numbered by its row position. */
  lemma SetupLocationsDepot(table: seq<Row>)
    ensures SetupLocations(table).Some? <==> exists i :: 0 <= i < |table| && table[i].depot != 0
    ensures SetupLocations(table).Some? ==>
      exists i :: 0 <= i < |table| && table[i].depot != 0
        && SetupLocations(table).value.depot == Location(i, table[i].name)
        && forall j :: i < j < |table| ==> table[j].depot == 0
  {
    ScanDepot(table, 0, Scan([], None));
  }

  /** No two fields share an `idx`. */
  ghost predicate DistinctIdx(fields: seq<OilField>)
  {
    forall k, l :: 0 <= k < l < |fields| ==> fields[k].idx != fields[l].idx
  }

  /** The fields from the table have distinct indices (and so are distinct). */
  lemma SetupFieldsDistinct(table: seq<Row>)
    requires SetupLocations(table).Some?
    ensures DistinctIdx(SetupLocations(table).value.fields)
    ensures Distinct(SetupLocations(table).value.fields)
  {
    SetupLocationsFields(table);
    DistinctIndices(SetupLocations(table).value.fields);
  }

  // ---------------------------------------------------------------------------
  // Ranking a distance row: `np.sort` and `np.where(...)[0][0]`
  // ---------------------------------------------------------------------------

  ghost predicate Sorted(s: seq<real>)
  {
    forall i, j :: 0 <= i < j < |s| ==> s[i] <= s[j]
  }

  /** `x` inserted into the ascending `s` before the first larger-or-equal entry. */
  function Insert(x: real, s: seq<real>): seq<real>
  {
    if s == [] then [x]
    else if x <= s[0] then [x] + s
    else [s[0]] + Insert(x, s[1..])
  }

  lemma {:induction false} InsertSorted(x: real, s: seq<real>)
    requires Sorted(s)
    ensures Sorted(Insert(x, s)) && multiset(Insert(x, s)) == multiset(s) + multiset{x}
  {
    if s == [] {
    } else if x <= s[0] {
      SortedCons(x, s);
    } else {
      var r := Insert(x, s[1..]);
      InsertSorted(x, s[1..]);
      assert s == [s[0]] + s[1..];
      forall j | 0 <= j < |r| ensures s[0] <= r[j] {
        assert r[j] in multiset(r);
        if r[j] != x {
          assert r[j] in multiset(s[1..]);
        }
      }
      SortedCons(s[0], r);
    }
  }

  lemma SortedCons(a: real, r: seq<real>)
    requires Sorted(r) && forall j :: 0 <= j < |r| ==> a <= r[j]
    ensures Sorted([a] + r)
  {
  }

  /** `np.sort`: the same values in ascending order (see `SortAscendingSpec`). */
  function SortAscending(s: seq<real>): seq<real>
  {
    if s == [] then [] else Insert(s[0], SortAscending(s[1..]))
  }

  lemma {:induction false} SortAscendingSpec(s: seq<real>)
    ensures Sorted(SortAscending(s)) && multiset(SortAscending(s)) == multiset(s)
    ensures |SortAscending(s)| == |s|
  {
    if s != [] {
      assert s == [s[0]] + s[1..];
      SortAscendingSpec(s[1..]);
      InsertSorted(s[0], SortAscending(s[1..]));
    }
    assert |multiset(SortAscending(s))| == |multiset(s)|;
  }

  /** `np.where(s == v)[0][0]`: the first position holding `v` (see `FirstIndexOfSpec`). */
  function FirstIndexOf(s: seq<real>, v: real): (k: nat)
    requires v in s
    ensures k < |s|
  {
    if s[0] == v then 0 else 1 + FirstIndexOf(s[1..], v)
  }

  lemma {:induction false} FirstIndexOfSpec(s: seq<real>, v: real)
    requires v in s
    ensures s[FirstIndexOf(s, v)] == v
    ensures forall j :: 0 <= j < FirstIndexOf(s, v) ==> s[j] != v
  {
    if s[0] != v {
      FirstIndexOfSpec(s[1..], v);
    }
  }

  /** The row position of the `rank`-th smallest entry of `row` (rank 0 is the smallest:
      the location itself); the first one on a tie. */
  function Candidate(row: seq<real>, rank: nat): (k: nat)
    requires rank < |row|
    ensures k < |row|
  {
    SortAscendingSpec(row);
    assert SortAscending(row)[rank] in multiset(row);
    FirstIndexOf(row, SortAscending(row)[rank])
  }

  /** The candidate holds the `rank`-th smallest distance and no earlier entry holds it;
      a higher rank never names a nearer location. */
  lemma CandidateOrder(row: seq<real>, r1: nat, r2: nat)
    requires r1 <= r2 < |row|
    ensures |SortAscending(row)| == |row|
    ensures row[Candidate(row, r2)] == SortAscending(row)[r2]
    ensures forall j :: 0 <= j < Candidate(row, r2) ==> row[j] != row[Candidate(row, r2)]
    ensures row[Candidate(row, r1)] <= row[Candidate(row, r2)]
  {
    SortAscendingSpec(row);
    assert SortAscending(row)[r1] in multiset(row);
    assert SortAscending(row)[r2] in multiset(row);
    FirstIndexOfSpec(row, SortAscending(row)[r1]);
    FirstIndexOfSpec(row, SortAscending(row)[r2]);
  }

  /** Rank 0 names a location at the least distance in the row. */
  lemma CandidateNearest(row: seq<real>)
    requires 0 < |row|
    ensures forall j :: 0 <= j < |row| ==> row[Candidate(row, 0)] <= row[j]
  {
    var sorted := SortAscending(row);
    CandidateOrder(row, 0, 0);
    SortAscendingSpec(row);
    forall j | 0 <= j < |row| ensures sorted[0] <= row[j] {
      assert row[j] in multiset(sorted);
      var i :| 0 <= i < |sorted| && sorted[i] == row[j];
    }
  }

  // ---------------------------------------------------------------------------
  // What one truck does
  // ---------------------------------------------------------------------------

  /** Every column is long enough for the ranks the cursor reaches (1 through 8). */
  ghost predicate Ranked(dist: DistMatrix)
  {
    forall name :: |dist(name)| >= MaxRank
  }

  /** Where a truck with `route` stands: its start, or its last field. */
  function LastName(start: Location, route: seq<OilField>): (name: string)
    ensures route != [] ==> name == route[|route| - 1].name
  {
    if route == [] then start.name else route[|route| - 1].name
  }

  /** A field the truck may take: a field of the problem, not visited, that fits. */
  ghost predicate Addable(fields: seq<OilField>, visited: seq<OilField>, capacity: real, f: OilField)
  {
    f in fields && f !in visited && capacity - f.production >= 0.0
  }

  /** No field at the location of rank `rank` from `position` may be taken. */
  ghost predicate Stuck(dist: DistMatrix, fields: seq<OilField>, visited: seq<OilField>,
                        capacity: real, position: string, rank: nat)
  {
    rank < |dist(position)| &&
    forall j :: 0 <= j < |fields| && fields[j].idx == Candidate(dist(position), rank) ==>
      fields[j] in visited || capacity - fields[j].production < 0.0
  }

  /** Taking `f` is the greedy choice: it lies at the smallest rank from 1 up to 8 at
      which some field may be taken. */
  ghost predicate GreedyStep(dist: DistMatrix, fields: seq<OilField>, visited: seq<OilField>,
                             capacity: real, position: string, f: OilField)
  {
    exists rank :: 1 <= rank < MaxRank && rank < |dist(position)|
      && f.idx == Candidate(dist(position), rank)
      && Addable(fields, visited, capacity, f)
      && forall r :: 1 <= r < rank ==> Stuck(dist, fields, visited, capacity, position, r)
  }

  /** Every stop of `route` was the greedy choice from the state the truck was in
      just before it: `visited` and `capacity` are the state before the first stop. */
  ghost predicate GreedyChain(dist: DistMatrix, fields: seq<OilField>, visited: seq<OilField>,
                              capacity: real, start: Location, route: seq<OilField>)
    decreases |route|
  {
    route == [] ||
    var prefix := route[..|route| - 1];
    && GreedyChain(dist, fields, visited, capacity, start, prefix)
    && GreedyStep(dist, fields, visited + prefix, capacity - Production(prefix),
                  LastName(start, prefix), route[|route| - 1])
  }

  /** A truck stops when every field is visited or no rank from 1 up to 8 offers a field. */
  ghost predicate Stopped(dist: DistMatrix, fields: seq<OilField>, visited: seq<OilField>,
                          capacity: real, position: string)
  {
    |visited| == |fields| ||
    forall r :: 1 <= r < MaxRank ==> Stuck(dist, fields, visited, capacity, position, r)
  }

  /** `visited` grew from `v0` by the route of `s`, without repeats and within `fields`,
      and `s` is `t0` with that route and its production taken off the capacity. */
  ghost predicate Loaded(fields: seq<OilField>, v0: seq<OilField>, t0: TruckState,
                         s: TruckState, visited: seq<OilField>)
  {
    && visited == v0 + s.route
    && Distinct(visited) && Within(visited, fields)
    && s == t0.(route := s.route, capacity := t0.capacity - Production(s.route))
    && Feasible(t0.capacity, s.route)
  }

  /** The loop invariant of one truck's `while` loop: `visited` grew by the route, the
      capacity dropped by its production, the truck stands at its last stop, every rank
      below the cursor offers nothing, and every stop so far was the greedy choice. */
  ghost predicate Filling(dist: DistMatrix, fields: seq<OilField>, v0: seq<OilField>, t0: TruckState,
                          s: TruckState, visited: seq<OilField>, position: string, idxPos: int,
                          testCapacity: bool)
  {
    && 1 <= idxPos <= MaxRank && (testCapacity <==> idxPos >= MaxRank)
    && Loaded(fields, v0, t0, s, visited)
    && position == LastName(s.start, s.route)
    && (|v0| == |fields| ==> s.route == [])
    && (forall r :: 1 <= r < idxPos ==> Stuck(dist, fields, visited, s.capacity, position, r))
    && (DistinctIdx(fields) ==> GreedyChain(dist, fields, v0, t0.capacity, s.start, s.route))
  }

  /** After a field was taken at rank `rank`: the cursor is back at 1 and the chain has
      grown by a greedy step. */
  lemma TakenFilling(dist: DistMatrix, fields: seq<OilField>, v0: seq<OilField>, t0: TruckState,
                     s1: TruckState, v1: seq<OilField>, p1: string, rank: int,
                     s2: TruckState, v2: seq<OilField>, p2: string)
    requires Ranked(dist)
    requires Filling(dist, fields, v0, t0, s1, v1, p1, rank, false)
    requires Loaded(fields, v0, t0, s2, v2) && p2 == LastName(s2.start, s2.route)
    requires |s2.route| > |s1.route| && s2.route[..|s1.route|] == s1.route
    requires DistinctIdx(fields) ==>
      && |s2.route| == |s1.route| + 1
      && s2.route[|s1.route|].idx == Candidate(dist(p1), rank)
      && Addable(fields, v1, s1.capacity, s2.route[|s1.route|])
    ensures Filling(dist, fields, v0, t0, s2, v2, p2, 1, false)
  {
    DistinctWithinBound(v2, fields);
    if DistinctIdx(fields) {
      var f := s2.route[|s1.route|];
      assert s2.route == s1.route + [f];
      assert GreedyStep(dist, fields, v1, s1.capacity, p1, f);
      ChainAppend(dist, fields, v0, t0.capacity, s1.start, s1.route, f);
    }
  }

  /** After rank `rank` offered nothing: it joins the ranks that offer nothing. */
  lemma SkippedFilling(dist: DistMatrix, fields: seq<OilField>, v0: seq<OilField>, t0: TruckState,
                       s1: TruckState, v1: seq<OilField>, p1: string, rank: int)
    requires Ranked(dist)
    requires Filling(dist, fields, v0, t0, s1, v1, p1, rank, false)
    requires forall j :: 0 <= j < |fields| && fields[j].idx == Candidate(dist(p1), rank) ==>
      fields[j] in v1 || s1.capacity - fields[j].production < 0.0
    ensures Filling(dist, fields, v0, t0, s1, v1, p1, rank + 1, rank + 1 >= MaxRank)
  {
    assert Stuck(dist, fields, v1, s1.capacity, p1, rank);
  }

  lemma {:induction false} ChainAppend(dist: DistMatrix, fields: seq<OilField>, visited: seq<OilField>,
                                       capacity: real, start: Location, route: seq<OilField>, f: OilField)
    requires GreedyChain(dist, fields, visited, capacity, start, route)
    requires GreedyStep(dist, fields, visited + route, capacity - Production(route), LastName(start, route), f)
    ensures GreedyChain(dist, fields, visited, capacity, start, route + [f])
  {
    var r := route + [f];
    assert r[..|r| - 1] == route;
    assert r[|r| - 1] == f;
  }

  /** Whatever one truck did, in terms of its state before (`s0`) and after (`s`) and
      the visited list before it started. */
  ghost predicate TruckDone(dist: DistMatrix, fields: seq<OilField>, before: seq<OilField>,
                            s0: TruckState, s: TruckState)
  {
    && s == s0.(route := s.route, capacity := s0.capacity - Production(s.route))
    && Feasible(s0.capacity, s.route)
    && (|before| == |fields| ==> s.route == [])
    && Stopped(dist, fields, before + s.route, s.capacity, LastName(s.start, s.route))
    && (DistinctIdx(fields) ==> GreedyChain(dist, fields, before, s0.capacity, s.start, s.route))
  }

  /** The first `n` trucks are done, in order, from the visited list `v0`; the rest are
      untouched, and `v` is `v0` followed by the routes of the first `n`. */
  ghost predicate FleetDone(dist: DistMatrix, fields: seq<OilField>, v0: seq<OilField>,
                            s0: seq<TruckState>, s: seq<TruckState>, v: seq<OilField>, n: nat)
  {
    && |s| == |s0| && n <= |s|
    && v == v0 + Flatten(Routes(s)[..n])
    && (forall i :: 0 <= i < n ==> TruckDone(dist, fields, v0 + Flatten(Routes(s)[..i]), s0[i], s[i]))
    && (forall i :: n <= i < |s| ==> s[i] == s0[i])
  }

  lemma FleetDoneStart(dist: DistMatrix, fields: seq<OilField>, v0: seq<OilField>, s0: seq<TruckState>)
    ensures FleetDone(dist, fields, v0, s0, s0, v0, 0)
  {
    assert Routes(s0)[..0] == [];
    assert v0 + [] == v0;
  }

  lemma FleetDoneNext(dist: DistMatrix, fields: seq<OilField>, v0: seq<OilField>,
                      s0: seq<TruckState>, s: seq<TruckState>, v: seq<OilField>, n: nat, t: TruckState)
    requires FleetDone(dist, fields, v0, s0, s, v, n) && n < |s|
    requires TruckDone(dist, fields, v, s0[n], t)
    ensures FleetDone(dist, fields, v0, s0, s[n := t], v + t.route, n + 1)
  {
    var s' := s[n := t];
    assert Routes(s')[..n] == Routes(s)[..n];
    assert Routes(s')[..n + 1] == Routes(s)[..n] + [t.route];
    FlattenAppend(Routes(s)[..n], t.route);
    forall i | 0 <= i < n + 1
      ensures TruckDone(dist, fields, v0 + Flatten(Routes(s')[..i]), s0[i], s'[i])
    {
      assert Routes(s')[..i] == Routes(s)[..i];
    }
  }

  /** After the last truck, the visited list is the routes concatenated in truck order. */
  lemma FleetDoneAll(dist: DistMatrix, fields: seq<OilField>, v0: seq<OilField>,
                     s0: seq<TruckState>, s: seq<TruckState>, v: seq<OilField>)
    requires FleetDone(dist, fields, v0, s0, s, v, |s|)
    ensures v == v0 + Flatten(Routes(s))
  {
    assert Routes(s)[..|s|] == Routes(s);
  }

  /** Once every field is visited, every later truck stays at its start. */
  lemma IdleAfterCovered(dist: DistMatrix, fields: seq<OilField>, v0: seq<OilField>,
                         s0: seq<TruckState>, s: seq<TruckState>, i: nat, j: nat)
    requires FleetDone(dist, fields, v0, s0, s, v0 + Flatten(Routes(s)), |s|)
    requires Distinct(v0 + Flatten(Routes(s))) && Within(v0 + Flatten(Routes(s)), fields)
    requires i < j < |s|
    requires |v0 + Flatten(Routes(s)[..i + 1])| == |fields|
    ensures s[j].route == []
  {
    var all := v0 + Flatten(Routes(s));
    DistinctWithinBound(all, fields);
    FlattenPrefix(Routes(s), i + 1, j);
    FlattenPrefix(Routes(s), j, |s|);
    assert Routes(s)[..|s|] == Routes(s);
    assert |v0 + Flatten(Routes(s)[..j])| == |fields|;
  }

  // ---------------------------------------------------------------------------
  // The solver
  // ---------------------------------------------------------------------------

  /** The heuristic's solver object; the source names this class `GlobalSolver` too. */
  class GlobalSolver {
    const locationsInfo: seq<Row>
    const distMatrix: DistMatrix

    constructor (locationsInfo: seq<Row>, distMatrix: DistMatrix)
      ensures this.locationsInfo == locationsInfo && this.distMatrix == distMatrix
    {
      this.locationsInfo := locationsInfo;
      this.distMatrix := distMatrix;
    }

    /** The `while` loop of `__solve` for one truck `t` with an empty route standing at
        its start: step through the ranks until every field is visited or the cursor
        reaches 9. */
    method FillTruck(t: Truck, visited: FieldStack, fields: seq<OilField>, position0: string)
      returns (position: string)
      requires Ranked(distMatrix)
      requires t.route == [] && position0 == t.start.name
      requires Distinct(visited.items) && Within(visited.items, fields)
      modifies t, visited
      ensures TruckDone(distMatrix, fields, old(visited.items), old(t.Snapshot()), t.Snapshot())
      ensures visited.items == old(visited.items) + t.route
      ensures Distinct(visited.items) && Within(visited.items, fields)
      ensures position == LastName(t.start, t.route)
    {
      ghost var V0 := visited.items;
      ghost var T0 := t.Snapshot();
      position := position0;
      var testCapacity := false;
      var idxPos := 1;
      assert visited.items == V0 + t.route;
      DistinctWithinBound(visited.items, fields);
      while !(testCapacity || |visited.items| == |fields|)
        invariant Filling(distMatrix, fields, V0, T0, t.Snapshot(), visited.items, position, idxPos, testCapacity)
        invariant |visited.items| <= |fields|
        decreases |fields| - |visited.items|, MaxRank - idxPos
      {
        position, idxPos, testCapacity := Step(t, visited, fields, position, idxPos, V0, T0);
        DistinctWithinBound(visited.items, fields);
      }
    }

    /** One pass of the `while` body (lines 111-132): rank the distances from where the
        truck stands, look at the location of rank `idx_pos`, take the fields there; then
        restart from rank 1 at the new position, or move the cursor on, giving up at 9. */
    method Step(t: Truck, visited: FieldStack, fields: seq<OilField>, position0: string, idxPos0: int,
                ghost V0: seq<OilField>, ghost T0: TruckState)
      returns (position: string, idxPos: int, testCapacity: bool)
      requires Ranked(distMatrix) && |visited.items| < |fields|
      requires Filling(distMatrix, fields, V0, T0, t.Snapshot(), visited.items, position0, idxPos0, false)
      modifies t, visited
      ensures Filling(distMatrix, fields, V0, T0, t.Snapshot(), visited.items, position, idxPos, testCapacity)
      ensures |visited.items| > |old(visited.items)|
           || (visited.items == old(visited.items) && idxPos0 < idxPos)
      ensures idxPos == if |visited.items| > |old(visited.items)| then 1 else idxPos0 + 1
      ensures testCapacity <==> idxPos >= MaxRank
    {
      var row := distMatrix(position0);
      var next := Candidate(row, idxPos0);
      ghost var s1, v1 := t.Snapshot(), visited.items;
      var change;
      position, idxPos, change := TakeCandidate(t, visited, fields, next, position0, idxPos0, V0, T0);
      if !change {
        idxPos := idxPos + 1;
      }
      testCapacity := false;
      if idxPos >= MaxRank {
        testCapacity := true;
      }
      if change {
        TakenFilling(distMatrix, fields, V0, T0, s1, v1, position0, idxPos0, t.Snapshot(), visited.items, position);
      } else {
        assert t.route == t.route[..|s1.route|] == s1.route;
        assert t.Snapshot() == s1 && visited.items == v1;
        SkippedFilling(distMatrix, fields, V0, T0, s1, v1, position0, idxPos0);
      }
    }

    /** Lines 121-123: append `oil` to the route and to `visited` and take its production
        off the remaining capacity. */
    method Take(t: Truck, visited: FieldStack, oil: OilField, ghost fields: seq<OilField>,
                ghost V0: seq<OilField>, ghost T0: TruckState)
      requires Loaded(fields, V0, T0, t.Snapshot(), visited.items)
      requires oil in fields && oil !in visited.items && t.capacity - oil.production >= 0.0
      modifies t, visited
      ensures t.route == old(t.route) + [oil] && visited.items == old(visited.items) + [oil]
      ensures t.capacity == old(t.capacity) - oil.production
      ensures Loaded(fields, V0, T0, t.Snapshot(), visited.items)
    {
      DistinctPush(visited.items, oil);
      FeasibleAppend(T0.capacity, t.route, oil);
      ProductionAppend(t.route, oil);
      t.route := t.route + [oil];
      visited.Push(oil);
      t.capacity := t.capacity - oil.production;
    }

    /** The `for oil in oil_fields` loop: every field whose `idx` is `next`, is not
        visited and fits is appended to the route and to `visited`; the truck moves there
        and the rank cursor goes back to 1. `V0` and `T0` are the visited list and the
        truck from before its first stop. */
    method TakeCandidate(t: Truck, visited: FieldStack, fields: seq<OilField>, next: nat,
                         position0: string, idxPos0: nat,
                         ghost V0: seq<OilField>, ghost T0: TruckState)
      returns (position: string, idxPos: nat, change: bool)
      requires Loaded(fields, V0, T0, t.Snapshot(), visited.items)
      requires position0 == LastName(t.start, t.route)
      modifies t, visited
      ensures Loaded(fields, V0, T0, t.Snapshot(), visited.items)
      ensures position == LastName(t.start, t.route)
      ensures |t.route| >= |old(t.route)| && t.route[..|old(t.route)|] == old(t.route)
      ensures change <==> |t.route| > |old(t.route)|
      ensures idxPos == if change then 1 else idxPos0
      ensures !change ==> forall j :: 0 <= j < |fields| && fields[j].idx == next ==>
        fields[j] in visited.items || t.capacity - fields[j].production < 0.0
      ensures DistinctIdx(fields) && change ==>
        && |t.route| == |old(t.route)| + 1
        && t.route[|old(t.route)|].idx == next
        && Addable(fields, old(visited.items), old(t.capacity), t.route[|old(t.route)|])
    {
      ghost var R1, V1, C1 := t.route, visited.items, t.capacity;
      position, idxPos, change := position0, idxPos0, false;
      for k := 0 to |fields|
        invariant Loaded(fields, V0, T0, t.Snapshot(), visited.items)
        invariant position == LastName(t.start, t.route)
        invariant |t.route| >= |R1| && t.route[..|R1|] == R1
        invariant change <==> |t.route| > |R1|
        invariant idxPos == if change then 1 else idxPos0
        invariant !change ==> forall j :: 0 <= j < k && fields[j].idx == next ==>
          fields[j] in visited.items || t.capacity - fields[j].production < 0.0
        invariant DistinctIdx(fields) && change ==>
          && |t.route| == |R1| + 1
          && t.route[|R1|].idx == next && Addable(fields, V1, C1, t.route[|R1|])
          && forall j :: k <= j < |fields| ==> fields[j].idx != next
      {
        var oil := fields[k];
        if oil.idx == next {
          if oil !in visited.items {
            if t.capacity - oil.production >= 0.0 {
              Take(t, visited, oil, fields, V0, T0);
              position := oil.name;
              idxPos := 1;
              change := true;
            }
          }
        }
      }
    }

    /** `__solve`: fill the trucks one after the other, each starting from its own start
        location (every truck of the only caller is still at the depot). Only the
        routes and remaining capacities change; variable costs are left as they are. */
    method Solve(visited: FieldStack, trucks: seq<Truck>, fields: seq<OilField>)
      returns (solution: seq<Truck>)
      requires Ranked(distMatrix)
      requires DistinctTrucks(trucks)
      requires forall i :: 0 <= i < |trucks| ==> trucks[i].route == []
      requires Distinct(visited.items) && Within(visited.items, fields)
      modifies visited, trucks
      ensures solution == trucks
      ensures FleetDone(distMatrix, fields, old(visited.items), old(Snapshot(trucks)), Snapshot(trucks),
                        visited.items, |trucks|)
      ensures visited.items == old(visited.items) + Flatten(Routes(Snapshot(trucks)))
      ensures Distinct(visited.items) && Within(visited.items, fields)
    {
      ghost var V0 := visited.items;
      ghost var S0 := Snapshot(trucks);
      FleetDoneStart(distMatrix, fields, V0, S0);
      var position: string := "";
      for ti := 0 to |trucks|
        invariant FleetDone(distMatrix, fields, V0, S0, Snapshot(trucks), visited.items, ti)
        invariant Distinct(visited.items) && Within(visited.items, fields)
      {
        var t := trucks[ti];
        ghost var S := Snapshot(trucks);
        ghost var V := visited.items;
        if |t.route| == 0 {
          position := t.start.name;
        }
        position := FillTruck(t, visited, fields, position);
        assert Snapshot(trucks) == S[ti := t.Snapshot()];
        FleetDoneNext(distMatrix, fields, V0, S0, S, V, ti, t.Snapshot());
      }
      FleetDoneAll(distMatrix, fields, V0, S0, Snapshot(trucks), visited.items);
      solution := trucks;
    }

    /** `run`: set up the fields, the depot and the trucks, and fill the trucks from no
        field visited. `ok` is false where the source fails because the table has no
        depot row. */
    method Run(numTrucks: int, truckCapacity: real) returns (ok: bool, solution: seq<Truck>)
      requires Ranked(distMatrix)
      ensures ok <==> SetupLocations(locationsInfo).Some?
      ensures ok ==>
        var setup := SetupLocations(locationsInfo).value;
        var fleet := GlobalSearch.InitialFleet(numTrucks, Converter.LiterToBbl(truckCapacity), setup.depot);
        && FleetDone(distMatrix, setup.fields, [], fleet, Snapshot(solution),
                     Flatten(Routes(Snapshot(solution))), |fleet|)
        && Distinct(Flatten(Routes(Snapshot(solution))))
        && Within(Flatten(Routes(Snapshot(solution))), setup.fields)
    {
      var setup := SetupLocations(locationsInfo);
      if setup.None? {
        return false, [];
      }
      var trucks := GlobalSearch.SetupTrucks(numTrucks, truckCapacity, setup.value.depot);
      var visited := new FieldStack();
      solution := Solve(visited, trucks, setup.value.fields);
      assert [] + Flatten(Routes(Snapshot(solution))) == Flatten(Routes(Snapshot(solution)));
      ok := true;
    }
  }
}
