/** The records shared by both solvers (src/utils/models.py) and the
    sequence vocabulary used to state their invariants. */
module Models {

  datatype Option<T> = None | Some(value: T)

  /** A named place; `idx` is the row the cost and distance matrices use for it. */
  datatype Location = Location(idx: nat, name: string)

  /** A production site: a location plus the volume (in barrels) to pick up. */
  datatype OilField = OilField(idx: nat, name: string, production: real)

  /** One row of the location table: its name, its "Depot" flag and its "Production". */
  datatype Row = Row(name: string, depot: int, production: real)

  /** A value copy of a truck, as `deepcopy` produces it. */
  datatype TruckState = TruckState(
    idx: nat, start: Location, end: Location, route: seq<OilField>,
    fixedCost: real, varCost: real, capacity: real)

  /** The cost of the best solution found so far; `Inf` is the `np.inf` sentinel. */
  datatype Best = Fin(value: real) | Inf

  /** Python's `<` between a float and a float-or-infinity. */
  predicate Less(a: Best, b: Best)
  {
    match (a, b)
    case (Fin(x), Fin(y)) => x < y
    case (Fin(_), Inf) => true
    case (Inf, _) => false
  }

  predicate Le(a: Best, b: Best)
  {
    !Less(b, a)
  }

  datatype Solution = Solution(trucks: seq<TruckState>, totalCost: Best)

  /** A truck: the solvers update its route, variable cost and remaining capacity in place. */
  class Truck {
    const idx: nat
    const start: Location
    const end: Location
    var route: seq<OilField>
    const fixedCost: real
    var varCost: real
    var capacity: real

    constructor (idx: nat, start: Location, end: Location, route: seq<OilField>,
                 fixedCost: real, varCost: real, capacity: real)
      ensures this.idx == idx && this.start == start && this.end == end
      ensures this.route == route && this.fixedCost == fixedCost
      ensures this.varCost == varCost && this.capacity == capacity
    {
      this.idx := idx;
      this.start := start;
      this.end := end;
      this.route := route;
      this.fixedCost := fixedCost;
      this.varCost := varCost;
      this.capacity := capacity;
    }

    function Snapshot(): (s: TruckState)
      reads this
    {
      TruckState(idx, start, end, route, fixedCost, varCost, capacity)
    }
  }

  /** Value copies of a list of trucks, in list order. */
  function Snapshot(trucks: seq<Truck>): (s: seq<TruckState>)
    reads trucks
    ensures |s| == |trucks|
    ensures forall i :: 0 <= i < |trucks| ==> s[i] == trucks[i].Snapshot()
  {
    seq(|trucks|, i requires 0 <= i < |trucks| reads trucks => trucks[i].Snapshot())
  }

  /** The list of visited fields that the solvers push to and pop from. */
  class FieldStack {
    var items: seq<OilField>

    constructor ()
      ensures items == []
    {
      items := [];
    }

    method Push(f: OilField)
      modifies this
      ensures items == old(items) + [f]
    {
      items := items + [f];
    }

    method Pop()
      requires items != []
      modifies this
      ensures items == old(items)[..|old(items)| - 1]
    {
      items := items[..|items| - 1];
    }
  }

  /** No value occurs twice. */
  ghost predicate Distinct(s: seq<OilField>)
  {
    forall x :: multiset(s)[x] <= 1
  }

  /** Every element of `s` is an element of `whole`. */
  ghost predicate Within(s: seq<OilField>, whole: seq<OilField>)
  {
    forall x :: x in s ==> x in whole
  }

  /** Pairwise distinct objects. */
  ghost predicate DistinctTrucks(trucks: seq<Truck>)
  {
    forall i, j :: 0 <= i < j < |trucks| ==> trucks[i] != trucks[j]
  }

  /** Concatenation of a sequence of routes. */
  function Flatten<T>(ss: seq<seq<T>>): (r: seq<T>)
  {
    if ss == [] then [] else ss[0] + Flatten(ss[1..])
  }

  function Routes(fleet: seq<TruckState>): (r: seq<seq<OilField>>)
    ensures |r| == |fleet| && forall i :: 0 <= i < |fleet| ==> r[i] == fleet[i].route
  {
    seq(|fleet|, i requires 0 <= i < |fleet| => fleet[i].route)
  }

  /** The rows of the location table whose "Depot" flag is 0, in table order. */
  function NonDepotRows(table: seq<Row>): seq<Row>
  {
    if table == [] then []
    else (if table[0].depot == 0 then [table[0]] else []) + NonDepotRows(table[1..])
  }

  /** Total production of a route. */
  function Production(route: seq<OilField>): real
  {
    if route == [] then 0.0 else route[0].production + Production(route[1..])
  }

  /** Starting from remaining capacity `c`, each field of `route` fits when it is
      appended (`capacity - production >= 0`), in route order. */
  predicate Feasible(c: real, route: seq<OilField>)
    decreases |route|
  {
    route == [] || (c - route[0].production >= 0.0 && Feasible(c - route[0].production, route[1..]))
  }

  lemma {:induction false} FlattenAppend<T>(ss: seq<seq<T>>, s: seq<T>)
    ensures Flatten(ss + [s]) == Flatten(ss) + s
  {
    if ss == [] {
      assert ss + [s] == [s];
    } else {
      assert (ss + [s])[1..] == ss[1..] + [s];
      FlattenAppend(ss[1..], s);
    }
  }

  /** Replacing one route changes the multiset of all fields by exactly that route. */
  lemma {:induction false} FlattenUpdate<T>(ss: seq<seq<T>>, i: nat, s: seq<T>)
    requires i < |ss|
    ensures multiset(Flatten(ss[i := s])) + multiset(ss[i]) == multiset(Flatten(ss)) + multiset(s)
  {
    if i == 0 {
      assert ss[i := s][1..] == ss[1..];
    } else {
      var tail := ss[1..];
      assert ss[i := s] == [ss[0]] + tail[i - 1 := s];
      assert ss[i] == tail[i - 1];
      FlattenUpdate(tail, i - 1, s);
      calc {
        multiset(Flatten(ss[i := s])) + multiset(ss[i]);
        multiset(ss[0]) + (multiset(Flatten(tail[i - 1 := s])) + multiset(tail[i - 1]));
        multiset(ss[0]) + (multiset(Flatten(tail)) + multiset(s));
        multiset(Flatten(ss)) + multiset(s);
      }
    }
  }

  /** An element of one route is an element of the concatenation. */
  lemma {:induction false} FlattenMember<T>(ss: seq<seq<T>>, i: nat, x: T)
    requires i < |ss| && x in ss[i]
    ensures x in Flatten(ss)
  {
    if i > 0 {
      assert ss[i] == ss[1..][i - 1];
      FlattenMember(ss[1..], i - 1, x);
    }
  }

  lemma MultisetCancel<T>(a: multiset<T>, b: multiset<T>, c: multiset<T>, x: T)
    requires a + c == b + (multiset{x} + c)
    ensures a == b + multiset{x}
  {
    forall y ensures a[y] == (b + multiset{x})[y] {
      assert (a + c)[y] == (b + (multiset{x} + c))[y];
    }
  }

  /** Putting `x` in front of route `i` adds exactly `x` to the concatenation. */
  lemma FlattenCons<T>(ss: seq<seq<T>>, i: nat, x: T)
    requires i < |ss|
    ensures multiset(Flatten(ss[i := [x] + ss[i]])) == multiset(Flatten(ss)) + multiset{x}
    ensures |Flatten(ss[i := [x] + ss[i]])| == |Flatten(ss)| + 1
  {
    var ss' := ss[i := [x] + ss[i]];
    FlattenUpdate(ss, i, [x] + ss[i]);
    assert multiset([x] + ss[i]) == multiset{x} + multiset(ss[i]);
    MultisetCancel(multiset(Flatten(ss')), multiset(Flatten(ss)), multiset(ss[i]), x);
    assert |multiset(Flatten(ss'))| == |multiset(Flatten(ss))| + 1;
  }

  /** Two orderings of the same fields are both duplicate-free or both not, and lie
      within the same lists. */
  lemma SamePermutation(a: seq<OilField>, b: seq<OilField>, whole: seq<OilField>)
    requires multiset(a) == multiset(b)
    ensures Distinct(a) <==> Distinct(b)
    ensures Within(a, whole) <==> Within(b, whole)
  {
    assert forall x :: x in a <==> x in multiset(b);
  }

  /** If every route is empty, so is their concatenation, and conversely. */
  lemma {:induction false} FlattenEmpty<T>(ss: seq<seq<T>>)
    ensures Flatten(ss) == [] <==> forall i :: 0 <= i < |ss| ==> ss[i] == []
  {
    if ss != [] {
      FlattenEmpty(ss[1..]);
      assert forall i :: 1 <= i < |ss| ==> ss[i] == ss[1..][i - 1];
    }
  }

  lemma {:induction false} ProductionAppend(route: seq<OilField>, f: OilField)
    ensures Production(route + [f]) == Production(route) + f.production
  {
    if route == [] {
      assert [f][1..] == [];
    } else {
      assert (route + [f])[1..] == route[1..] + [f];
      ProductionAppend(route[1..], f);
    }
  }

  /** Appending a field that fits keeps a feasible route feasible. */
  lemma {:induction false} FeasibleAppend(c: real, route: seq<OilField>, f: OilField)
    requires Feasible(c, route)
    requires c - Production(route) - f.production >= 0.0
    ensures Feasible(c, route + [f])
    decreases |route|
  {
    if route == [] {
      assert [f][1..] == [];
    } else {
      assert (route + [f])[1..] == route[1..] + [f];
      FeasibleAppend(c - route[0].production, route[1..], f);
    }
  }

  /** A non-empty feasible route never drives the remaining capacity below zero. */
  lemma {:induction false} FeasibleNonNegative(c: real, route: seq<OilField>)
    requires Feasible(c, route) && route != []
    ensures c - Production(route) >= 0.0
    decreases |route|
  {
    if route[1..] != [] {
      FeasibleNonNegative(c - route[0].production, route[1..]);
    }
  }

  lemma {:induction false} SubsetCard<T>(a: set<T>, b: set<T>)
    requires a <= b
    ensures |a| <= |b|
    decreases a
  {
    if a != {} {
      var x :| x in a;
      SubsetCard(a - {x}, b - {x});
    }
  }

  lemma {:induction false} ElementsCard(s: seq<OilField>)
    ensures |set x | x in s| <= |s|
    ensures Distinct(s) ==> |set x | x in s| == |s|
  {
    if s != [] {
      var last := s[|s| - 1];
      var init := s[..|s| - 1];
      assert s == init + [last];
      ElementsCard(init);
      assert (set x | x in s) == (set x | x in init) + {last};
      if Distinct(s) {
        assert multiset(s) == multiset(init) + multiset{last};
        forall x ensures multiset(init)[x] <= 1 {
          assert multiset(s)[x] <= 1;
        }
        assert last !in init by {
          assert multiset(s)[last] <= 1;
        }
      }
    }
  }

  /** Fields with pairwise distinct indices are pairwise distinct. */
  lemma DistinctIndices(s: seq<OilField>)
    requires forall i, j :: 0 <= i < j < |s| ==> s[i].idx != s[j].idx
    ensures Distinct(s)
  {
    forall x ensures multiset(s)[x] <= 1 {
      DistinctIndicesCount(s, x);
    }
  }

  lemma {:induction false} DistinctIndicesCount(s: seq<OilField>, x: OilField)
    requires forall i, j :: 0 <= i < j < |s| ==> s[i].idx != s[j].idx
    ensures multiset(s)[x] <= 1
  {
    if s != [] {
      var init := s[..|s| - 1];
      assert s == init + [s[|s| - 1]];
      DistinctIndicesCount(init, x);
      if x == s[|s| - 1] {
        assert x !in init;
      }
    }
  }

  /** A duplicate-free list drawn from `whole` is no longer than `whole`: this bounds
      the number of pushes onto the visited list. */
  lemma DistinctWithinBound(s: seq<OilField>, whole: seq<OilField>)
    requires Distinct(s) && Within(s, whole)
    ensures |s| <= |whole|
  {
    ElementsCard(s);
    ElementsCard(whole);
    SubsetCard(set x | x in s, set x | x in whole);
  }

  /** A duplicate-free list drawn from a duplicate-free `whole`, and as long as it,
      holds every element of `whole`. */
  lemma CoverAll(s: seq<OilField>, whole: seq<OilField>)
    requires Distinct(s) && Distinct(whole) && Within(s, whole) && |s| == |whole|
    ensures forall x :: x in whole <==> x in s
  {
    var a := set x | x in s;
    var b := set x | x in whole;
    ElementsCard(s);
    ElementsCard(whole);
    forall x | x in whole ensures x in s {
      if x !in s {
        assert x in b;
        SubsetCard(a, b - {x});
      }
    }
  }

  /** Pushing a field not yet in the list keeps it duplicate-free. */
  lemma DistinctPush(s: seq<OilField>, x: OilField)
    requires Distinct(s) && x !in s
    ensures Distinct(s + [x])
  {
    assert multiset(s + [x]) == multiset(s) + multiset{x};
  }

  /** Concatenating the first `b` routes is concatenating the first `a`, then the next. */
  lemma {:induction false} FlattenPrefix<T>(ss: seq<seq<T>>, a: nat, b: nat)
    requires a <= b <= |ss|
    ensures Flatten(ss[..b]) == Flatten(ss[..a]) + Flatten(ss[a..b])
    decreases b
  {
    if b == a {
      assert ss[a..b] == [];
      assert ss[..b] == ss[..a];
    } else {
      FlattenPrefix(ss, a, b - 1);
      assert ss[..b] == ss[..b - 1] + [ss[b - 1]];
      assert ss[a..b] == ss[a..b - 1] + [ss[b - 1]];
      FlattenAppend(ss[..b - 1], ss[b - 1]);
      FlattenAppend(ss[a..b - 1], ss[b - 1]);
    }
  }
}
