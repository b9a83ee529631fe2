/** Unit and cost conversions (src/utils/converter.py). */
module Converter {

  /** Barrels per liter, the factor `liter_to_bbl` multiplies by. */
  const BarrelsPerLiter: real := 0.00628981

  /** A data frame of distances or costs, as its columns; each column is indexed by
      row position. */
  type Matrix = seq<seq<real>>

  /** liter_to_bbl: a volume in liters, in barrels. */
  function LiterToBbl(volume: real): (bbl: real)
  {
    volume * BarrelsPerLiter
  }

  /** The conversion is linear: it adds and scales like its argument. */
  lemma LiterToBblLinear(a: real, b: real, k: real)
    ensures LiterToBbl(a + b) == LiterToBbl(a) + LiterToBbl(b)
    ensures LiterToBbl(k * a) == k * LiterToBbl(a)
    ensures LiterToBbl(0.0) == 0.0
  {
  }

  /** A larger volume never converts to fewer barrels, and a barrel holds more than a liter. */
  lemma LiterToBblMonotone(a: real, b: real)
    requires a <= b
    ensures LiterToBbl(a) <= LiterToBbl(b)
    ensures 0.0 <= a ==> 0.0 <= LiterToBbl(a) <= a
  {
  }

  /** One column scaled by `ratio`: `dist_matrix[col] * ratio`. */
  function ScaleColumn(column: seq<real>, ratio: real): (r: seq<real>)
    ensures |r| == |column|
    ensures forall i :: 0 <= i < |column| ==> r[i] == column[i] * ratio
  {
    seq(|column|, i requires 0 <= i < |column| => column[i] * ratio)
  }

  ghost predicate Symmetric(m: Matrix)
  {
    forall c, r :: 0 <= c < |m| && 0 <= r < |m| ==>
      |m[c]| == |m| && |m[r]| == |m| && m[c][r] == m[r][c]
  }

  /** distance_to_cost: a fresh copy of the distance matrix, column by column scaled by
      diesel price per unit of distance (`diesel_price / truck_consumption`). */
  method DistanceToCost(dieselPrice: real, truckConsumption: real, distMatrix: Matrix)
    returns (costMatrix: Matrix)
    requires truckConsumption != 0.0
    ensures |costMatrix| == |distMatrix|
    ensures forall c :: 0 <= c < |distMatrix| ==> |costMatrix[c]| == |distMatrix[c]|
    ensures forall c, r :: 0 <= c < |distMatrix| && 0 <= r < |distMatrix[c]| ==>
      costMatrix[c][r] == distMatrix[c][r] * (dieselPrice / truckConsumption)
    ensures forall c, r :: 0 <= c < |distMatrix| && 0 <= r < |distMatrix[c]| && distMatrix[c][r] == 0.0 ==>
      costMatrix[c][r] == 0.0
    ensures Symmetric(distMatrix) ==> Symmetric(costMatrix)
  {
    var ratio := dieselPrice / truckConsumption;
    costMatrix := distMatrix;
    for col := 0 to |distMatrix|
      invariant |costMatrix| == |distMatrix|
      invariant forall c :: 0 <= c < col ==> costMatrix[c] == ScaleColumn(distMatrix[c], ratio)
      invariant forall c :: col <= c < |distMatrix| ==> costMatrix[c] == distMatrix[c]
    {
      costMatrix := costMatrix[col := ScaleColumn(distMatrix[col], ratio)];
    }
  }
}
