/**
 * The index bookkeeping of the dynamic matrix controller: the dynamic
 * matrix built from a step response, its transpose, and the shift of the
 * input history.  The regularised least-squares solve that yields the
 * control move is an input here.
 */
module Dmc {

  /** Entry `(i, j)` of the dynamic matrix: the step response `i - j` steps on, or 0 above the diagonal. */
  function GEntry(step: seq<real>, i: nat, j: nat): real
    requires i < |step|
  {
    if i >= j then step[i - j] else 0.0
  }

  /** The matrix is lower triangular, constant along each diagonal, with the step response in column 0. */
  lemma GIsLowerTriangularToeplitz(step: seq<real>, i: nat, j: nat)
    requires i + 1 < |step|
    ensures i < j ==> GEntry(step, i, j) == 0.0
    ensures GEntry(step, i + 1, j + 1) == GEntry(step, i, j)
    ensures GEntry(step, i, 0) == step[i]
  {
  }

  /**
   * `construct_g_matrix`: a `prediction_horizon x control_horizon` matrix
   * of zeros, filled below and on the diagonal row by row.  The step
   * response is read up to index `prediction_horizon - 1` whenever there is
   * a column at all.
   */
  method ConstructGMatrix(step: seq<real>, p: nat, c: nat) returns (g: array2<real>)
    requires c > 0 ==> |step| >= p
    ensures fresh(g) && g.Length0 == p && g.Length1 == c
    ensures forall i, j :: 0 <= i < p && 0 <= j < c ==> g[i, j] == GEntry(step, i, j)
  {
    g := new real[p, c]((_, _) => 0.0);
    for i := 0 to p
      invariant forall i', j' :: 0 <= i' < i && 0 <= j' < c ==> g[i', j'] == GEntry(step, i', j')
      invariant forall i', j' :: i <= i' < p && 0 <= j' < c ==> g[i', j'] == 0.0
    {
      for j := 0 to c
        invariant forall i', j' :: 0 <= i' < i && 0 <= j' < c ==> g[i', j'] == GEntry(step, i', j')
        invariant forall j' :: 0 <= j' < j ==> g[i, j'] == GEntry(step, i, j')
        invariant forall i', j' :: i <= i' < p && 0 <= j' < c && (i' > i || j' >= j) ==> g[i', j'] == 0.0
      {
        if i >= j {
          g[i, j] := step[i - j];
        }
      }
    }
  }

  /** `transpose`. */
  method Transpose(m: array2<real>) returns (t: array2<real>)
    ensures fresh(t) && t.Length0 == m.Length1 && t.Length1 == m.Length0
    ensures forall i, j :: 0 <= i < m.Length0 && 0 <= j < m.Length1 ==> t[j, i] == m[i, j]
  {
    t := new real[m.Length1, m.Length0];
    for j := 0 to m.Length1
      invariant forall i', j' :: 0 <= i' < m.Length0 && 0 <= j' < j ==> t[j', i'] == m[i', j']
    {
      for i := 0 to m.Length0
        invariant forall i', j' :: 0 <= i' < m.Length0 && 0 <= j' < j ==> t[j', i'] == m[i', j']
        invariant forall i' :: 0 <= i' < i ==> t[j, i'] == m[i', j]
      {
        t[j, i] := m[i, j];
      }
    }
  }

  /** The error vector: `prediction_horizon` copies of `setpoint - output`. */
  function ErrorVector(setpoint: real, output: real, p: nat): (e: seq<real>)
    ensures |e| == p && forall k :: 0 <= k < p ==> e[k] == setpoint - output
  {
    seq(p, _ => setpoint - output)
  }

  /** `insert(0, u)` then `pop()`: the newest input in front, the oldest dropped. */
  function ShiftInputs(inputs: seq<real>, u: real): (r: seq<real>)
    ensures |r| == |inputs|
    ensures |inputs| > 0 ==> r[0] == u && r[1..] == inputs[..|inputs| - 1]
  {
    ([u] + inputs)[..|inputs|]
  }

  class DMC {
    const predictionHorizon: nat
    const controlHorizon: nat
    const lambda: real
    var previousInputs: seq<real>
    var previousOutputs: seq<real>
    const gMatrix: array2<real>
    const gMatrixT: array2<real>

    /** `DMC::new`. */
    constructor (step: seq<real>, p: nat, c: nat, lambda: real)
      requires c > 0 ==> |step| >= p
      ensures predictionHorizon == p && controlHorizon == c && this.lambda == lambda
      ensures previousInputs == seq(c, _ => 0.0) && previousOutputs == seq(p, _ => 0.0)
      ensures fresh(gMatrix) && fresh(gMatrixT)
      ensures gMatrix.Length0 == p && gMatrix.Length1 == c
      ensures forall i, j :: 0 <= i < p && 0 <= j < c ==> gMatrix[i, j] == GEntry(step, i, j)
      ensures gMatrixT.Length0 == c && gMatrixT.Length1 == p
      ensures forall i, j :: 0 <= i < p && 0 <= j < c ==> gMatrixT[j, i] == gMatrix[i, j]
    {
      predictionHorizon := p;
      controlHorizon := c;
      this.lambda := lambda;
      previousInputs := seq(c, _ => 0.0);
      previousOutputs := seq(p, _ => 0.0);
      var g := ConstructGMatrix(step, p, c);
      var gt := Transpose(g);
      gMatrix := g;
      gMatrixT := gt;
    }

    /**
     * `compute_control`, given the first entry of the solve's move vector
     * for `ErrorVector(setpoint, output, prediction_horizon)`: that entry is
     * the control signal, and it goes in front of the input history; the
     * output history and the matrices are untouched.  The move vector has
     * `control_horizon` entries, so indexing its first needs one.
     */
    method ComputeControl(setpoint: real, output: real, firstMove: real) returns (u: real)
      requires controlHorizon > 0
      modifies this
      ensures u == firstMove
      ensures previousInputs == ShiftInputs(old(previousInputs), u)
      ensures previousOutputs == old(previousOutputs)
    {
      var error := ErrorVector(setpoint, output, predictionHorizon);
      u := firstMove;
      previousInputs := [u] + previousInputs;
      previousInputs := previousInputs[..|previousInputs| - 1];
    }
  }

  /** The history keeps its length and holds the latest moves, newest first. */
  lemma {:induction false} ShiftInputsTwice(inputs: seq<real>, u: real, v: real)
    requires |inputs| >= 2
    ensures ShiftInputs(ShiftInputs(inputs, u), v) == [v, u] + inputs[..|inputs| - 2]
  {
    var once := ShiftInputs(inputs, u);
    assert once == [u] + inputs[..|inputs| - 1];
    assert ShiftInputs(once, v) == [v] + once[..|once| - 1];
    assert once[..|once| - 1] == [u] + inputs[..|inputs| - 2];
  }
}
