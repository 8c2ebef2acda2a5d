/** The shunt table of the grid model: per shunt, the active and reactive power
    it consumes at nominal voltage (a constant admittance), its grid bus and its
    status; the loop that subtracts the admittances from the diagonal of the
    admittance matrix, and the power each shunt draws once the voltages are known. */
module ShuntTable {
  import opened Numeric
  import opened Common

  /** The exception the shunt table throws. */
  datatype ShuntError =
    | OnDeactivatedBus   // a connected shunt sits on a bus the solver dropped

  /** The power drawn at bus voltage `e` by a shunt of admittance
      `y = -(p + i q)`: `s = E * conj(y * E)`, that is `-p |E|^2` active and
      `q |E|^2` reactive. */
  function ShuntPower(p: real, q: real, e: Complex): (s: Complex)
    ensures s == Complex(-p * NormSq(e), q * NormSq(e))
  {
    var y := Mul(Complex(-1.0, 0.0), Complex(p, q));
    var current := Conj(Mul(y, e));
    Mul(e, current)
  }

  /** The diagonal entries that the first `k` shunts touch (and so store). */
  function TouchedDiagonal(on: seq<bool>, at: seq<int>, k: nat): set<(int, int)>
    requires k <= |on| && k <= |at|
  {
    set g | 0 <= g < k && on[g] :: (at[g], at[g])
  }

  /** The admittance matrix's coefficients after the first `k` shunts have
      subtracted `p + i q` from the diagonal entry of their solver bus. */
  function ShuntsSubtracted(m: map<(int, int), Complex>, on: seq<bool>, at: seq<int>,
                            p: seq<real>, q: seq<real>, k: nat): map<(int, int), Complex>
    requires k <= |on| && k <= |at| && k <= |p| && k <= |q|
  {
    if k == 0 then m
    else
      var before := ShuntsSubtracted(m, on, at, p, q, k - 1);
      var b := at[k - 1];
      if on[k - 1] then before[(b, b) := Sub(Coeff(before, b, b), Complex(p[k - 1], q[k - 1]))]
      else before
  }

  /** Each diagonal coefficient loses the admittances of the connected shunts on
      that bus, and no off-diagonal coefficient changes. */
  lemma {:induction false} ShuntsSubtractedCoeff(m: map<(int, int), Complex>, on: seq<bool>, at: seq<int>,
                                                 p: seq<real>, q: seq<real>, k: nat, i: int, j: int)
    requires k <= |on| && k <= |at| && k <= |p| && k <= |q|
    ensures Coeff(ShuntsSubtracted(m, on, at, p, q, k), i, j)
         == if i == j then Sub(Coeff(m, i, i), Complex(SumAt(on, at, p, k, i), SumAt(on, at, q, k, i)))
            else Coeff(m, i, j)
  {
    if k > 0 {
      ShuntsSubtractedCoeff(m, on, at, p, q, k - 1, i, j);
    }
  }

  /** A bus without connected shunts keeps its diagonal coefficient. */
  lemma ShuntsSubtractedAbsent(m: map<(int, int), Complex>, on: seq<bool>, at: seq<int>,
                               p: seq<real>, q: seq<real>, k: nat, b: int)
    requires k <= |on| && k <= |at| && k <= |p| && k <= |q|
    requires forall g :: 0 <= g < k ==> !(on[g] && at[g] == b)
    ensures Coeff(ShuntsSubtracted(m, on, at, p, q, k), b, b) == Coeff(m, b, b)
  {
    ShuntsSubtractedCoeff(m, on, at, p, q, k, b, b);
    SumAtAbsent(on, at, p, k, b);
    SumAtAbsent(on, at, q, k, b);
  }

  /** The stored entries are the old ones plus the diagonal entries of the connected shunts' buses. */
  lemma {:induction false} ShuntsSubtractedKeys(m: map<(int, int), Complex>, on: seq<bool>, at: seq<int>,
                                                p: seq<real>, q: seq<real>, k: nat)
    requires k <= |on| && k <= |at| && k <= |p| && k <= |q|
    ensures ShuntsSubtracted(m, on, at, p, q, k).Keys == m.Keys + TouchedDiagonal(on, at, k)
  {
    if k > 0 {
      ShuntsSubtractedKeys(m, on, at, p, q, k - 1);
      assert TouchedDiagonal(on, at, k)
          == TouchedDiagonal(on, at, k - 1) + (if on[k - 1] then {(at[k - 1], at[k - 1])} else {});
    }
  }

  class DataShunt {
    var pMw: seq<real>
    var qMvar: seq<real>
    var busId: seq<int>
    var status: seq<bool>

    var resP: seq<real>
    var resQ: seq<real>
    var resV: seq<real>

    /** An empty table. */
    constructor ()
      ensures pMw == [] && qMvar == [] && busId == [] && status == []
      ensures resP == [] && resQ == [] && resV == []
    {
      pMw, qMvar, busId, status := [], [], [], [];
      resP, resQ, resV := [], [], [];
    }

    /** The loops read a status, both powers and a grid bus per shunt. */
    ghost predicate Aligned()
      reads this
    {
      |qMvar| == |pMw| && |busId| == |pMw| && |status| == |pMw|
    }

    /** init: stores the three vectors and connects every shunt (one status per active power). */
    method Init(shuntP: seq<real>, shuntQ: seq<real>, shuntBusId: seq<int>)
      modifies this
      ensures pMw == shuntP && qMvar == shuntQ && busId == shuntBusId
      ensures status == seq(|shuntP|, _ => true)
      ensures resP == old(resP) && resQ == old(resQ) && resV == old(resV)
    {
      pMw, qMvar, busId := shuntP, shuntQ, shuntBusId;
      status := seq(|pMw|, _ => true);
    }

    /** fillYbus: subtracts `p + i q` of each connected shunt from the diagonal
        entry of its solver bus, stopping with an exception at the first connected
        shunt on a deactivated bus. */
    method FillYbus(res: SparseMatrix, toSolver: seq<int>) returns (o: Outcome<ShuntError>)
      requires Aligned()
      requires forall g :: 0 <= g < |pMw| && status[g] ==> 0 <= busId[g] < |toSolver|
      requires BusesFit(status, SolverBuses(status, busId, toSolver), res.dim)
      modifies res
      ensures var at := SolverBuses(status, busId, toSolver);
              var k := FirstDeactivated(status, at);
              && o == (if k == |pMw| then Pass else Fail(OnDeactivatedBus))
              && res.coeffs == ShuntsSubtracted(old(res.coeffs), status, at, pMw, qMvar, k)
    {
      var n := |qMvar|;
      ghost var at := SolverBuses(status, busId, toSolver);
      var g := 0;
      while g < n
        invariant 0 <= g <= n
        invariant forall h :: 0 <= h < g ==> !(status[h] && at[h] == DeactivatedBus)
        invariant res.coeffs == ShuntsSubtracted(old(res.coeffs), status, at, pMw, qMvar, g)
      {
        if status[g] {
          var admittance := Complex(pMw[g], qMvar[g]);
          var busSolver := toSolver[busId[g]];
          if busSolver == DeactivatedBus {
            return Fail(OnDeactivatedBus);
          }
          res.coeffs := res.coeffs[(busSolver, busSolver) := Sub(Coeff(res.coeffs, busSolver, busSolver), admittance)];
        }
        g := g + 1;
      }
      return Pass;
    }

    /** compute_results: `vKv` stands for the voltages in kV that the unit converter
        computes; every shunt's results start at 0 and each connected shunt's are
        the power it draws at its bus voltage, until the first connected shunt on a
        deactivated bus stops the loop with an exception. */
    method ComputeResults(v: seq<Complex>, toSolver: seq<int>, vKv: seq<real>) returns (o: Outcome<ShuntError>)
      requires Aligned()
      requires forall g :: 0 <= g < |pMw| && status[g] ==> 0 <= busId[g] < |toSolver|
      requires BusesFit(status, SolverBuses(status, busId, toSolver), |v|)
      modifies this`resP, this`resQ, this`resV
      ensures var at := SolverBuses(status, busId, toSolver);
              var k := FirstDeactivated(status, at);
              && o == (if k == |pMw| then Pass else Fail(OnDeactivatedBus))
              && resV == vKv && |resP| == |pMw| && |resQ| == |pMw|
              && forall g :: 0 <= g < |pMw| ==>
                   Complex(resP[g], resQ[g])
                   == if g < k && status[g] then ShuntPower(pMw[g], qMvar[g], v[at[g]]) else Zero
    {
      var n := |pMw|;
      ghost var at := SolverBuses(status, busId, toSolver);
      resV := vKv;
      resP := seq(n, _ => 0.0);
      resQ := seq(n, _ => 0.0);
      var g := 0;
      while g < n
        invariant 0 <= g <= n && |resP| == n && |resQ| == n && resV == vKv
        invariant forall h :: 0 <= h < g ==> !(status[h] && at[h] == DeactivatedBus)
        invariant forall h :: 0 <= h < n ==>
                    Complex(resP[h], resQ[h])
                    == if h < g && status[h] then ShuntPower(pMw[h], qMvar[h], v[at[h]]) else Zero
      {
        if status[g] {
          var busSolver := toSolver[busId[g]];
          if busSolver == DeactivatedBus {
            return Fail(OnDeactivatedBus);
          }
          var s := ShuntPower(pMw[g], qMvar[g], v[busSolver]);
          resP := resP[g := s.re];
          resQ := resQ[g := s.im];
        }
        g := g + 1;
      }
      return Pass;
    }

    /** reset_results: all three result vectors become empty. */
    method ResetResults()
      modifies this`resP, this`resQ, this`resV
      ensures resP == [] && resQ == [] && resV == []
    {
      resP, resQ, resV := [], [], [];
    }
  }
}
