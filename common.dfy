/** What the generator and shunt tables share: the deactivated-bus sentinel, the
    error-carrying result types, the per-bus accumulators that their loops compute,
    and the index at which a loop over elements stops with an exception. */
module Common {

  /** Value of the grid-to-solver bus map for a bus the solver does not use. */
  const DeactivatedBus: int := -1

  /** Outcome of a `void` operation that may throw. */
  datatype Outcome<+E> = Pass | Fail(error: E)

  /** Outcome of an operation that returns a value or throws. */
  datatype Result<+T, +E> = Ok(value: T) | Err(error: E)

  /** The sum of `vals[g]` over the connected elements `g < k` whose bus `at[g]` is `b`:
      what a loop `if(status[g]) acc(at[g]) += vals[g]` has added to entry `b`
      after its first `k` iterations. */
  function SumAt(on: seq<bool>, at: seq<int>, vals: seq<real>, k: nat, b: int): real
    requires k <= |on| && k <= |at| && k <= |vals|
  {
    if k == 0 then 0.0
    else SumAt(on, at, vals, k - 1, b) + (if on[k - 1] && at[k - 1] == b then vals[k - 1] else 0.0)
  }

  /** The number of connected elements `g < k` whose bus is `b`. */
  function CountAt(on: seq<bool>, at: seq<int>, k: nat, b: int): nat
    requires k <= |on| && k <= |at|
  {
    if k == 0 then 0
    else CountAt(on, at, k - 1, b) + (if on[k - 1] && at[k - 1] == b then 1 else 0)
  }

  /** The sum of `vals[g]` over all connected elements `g < k`, whatever their bus. */
  function SumConnected(on: seq<bool>, vals: seq<real>, k: nat): real
    requires k <= |on| && k <= |vals|
  {
    if k == 0 then 0.0
    else SumConnected(on, vals, k - 1) + (if on[k - 1] then vals[k - 1] else 0.0)
  }

  /** The sum over the buses `b < nb` of what the first `k` elements added there. */
  function SumOverBuses(on: seq<bool>, at: seq<int>, vals: seq<real>, k: nat, nb: nat): real
    requires k <= |on| && k <= |at| && k <= |vals|
  {
    if nb == 0 then 0.0
    else SumOverBuses(on, at, vals, k, nb - 1) + SumAt(on, at, vals, k, nb - 1)
  }

  /** The solver bus of each element: `id_grid_to_solver[bus_id[g]]` for a connected
      element whose grid bus is a valid index, the sentinel otherwise (the value
      of a disconnected element is never read). */
  function SolverBuses(on: seq<bool>, busId: seq<int>, toSolver: seq<int>): (at: seq<int>)
    requires |busId| >= |on|
    ensures |at| == |on|
  {
    seq(|on|, g requires 0 <= g < |on| =>
      if on[g] && 0 <= busId[g] < |toSolver| then toSolver[busId[g]] else DeactivatedBus)
  }

  /** Every connected element's solver bus is the sentinel or an index below `n`. */
  predicate BusesFit(on: seq<bool>, at: seq<int>, n: int)
    requires |at| == |on|
  {
    forall g :: 0 <= g < |on| && on[g] ==> at[g] == DeactivatedBus || 0 <= at[g] < n
  }

  /** The iteration at which a loop over the elements throws "connected to a
      disconnected bus": the first connected element whose solver bus is the
      sentinel, or `|on|` when there is none. */
  function FirstDeactivated(on: seq<bool>, at: seq<int>): (k: nat)
    requires |at| == |on|
    ensures k <= |on|
    ensures forall g :: 0 <= g < k ==> !(on[g] && at[g] == DeactivatedBus)
    ensures k < |on| ==> on[k] && at[k] == DeactivatedBus
  {
    if |on| == 0 then 0
    else if on[0] && at[0] == DeactivatedBus then 0
    else 1 + FirstDeactivated(on[1..], at[1..])
  }

  /** A bus that no connected element is attached to receives nothing. */
  lemma {:induction false} SumAtAbsent(on: seq<bool>, at: seq<int>, vals: seq<real>, k: nat, b: int)
    requires k <= |on| && k <= |at| && k <= |vals|
    requires forall g :: 0 <= g < k ==> !(on[g] && at[g] == b)
    ensures SumAt(on, at, vals, k, b) == 0.0
  {
    if k > 0 {
      SumAtAbsent(on, at, vals, k - 1, b);
    }
  }

  /** The count at a bus is zero exactly when no connected element is attached to it. */
  lemma {:induction false} CountAtZeroIff(on: seq<bool>, at: seq<int>, k: nat, b: int)
    requires k <= |on| && k <= |at|
    ensures CountAt(on, at, k, b) == 0 <==> forall g :: 0 <= g < k ==> !(on[g] && at[g] == b)
  {
    if k > 0 {
      CountAtZeroIff(on, at, k - 1, b);
    }
  }

  /** An element that is the only connected one on its bus makes the count 1. */
  lemma {:induction false} CountAtAlone(on: seq<bool>, at: seq<int>, k: nat, g: nat)
    requires k <= |on| && k <= |at|
    requires g < k && on[g]
    requires forall h :: 0 <= h < k && h != g ==> !(on[h] && at[h] == at[g])
    ensures CountAt(on, at, k, at[g]) == 1
  {
    if g == k - 1 {
      CountAtZeroIff(on, at, k - 1, at[g]);
    } else {
      CountAtAlone(on, at, k - 1, g);
    }
  }

  /** When exactly one connected element sits on bus `b`, the accumulated value
      there is that element's value. */
  lemma {:induction false} SumAtSingle(on: seq<bool>, at: seq<int>, vals: seq<real>, c: real, k: nat, b: int)
    requires k <= |on| && k <= |at| && k <= |vals|
    requires CountAt(on, at, k, b) == 1
    requires forall g :: 0 <= g < k && on[g] && at[g] == b ==> vals[g] == c
    ensures SumAt(on, at, vals, k, b) == c
  {
    if on[k - 1] && at[k - 1] == b {
      CountAtZeroIff(on, at, k - 1, b);
      SumAtAbsent(on, at, vals, k - 1, b);
    } else {
      SumAtSingle(on, at, vals, c, k - 1, b);
    }
  }

  /** Accumulation is monotone in the values. */
  lemma {:induction false} SumAtMonotone(on: seq<bool>, at: seq<int>, lo: seq<real>, hi: seq<real>, k: nat, b: int)
    requires k <= |on| && k <= |at| && k <= |lo| && k <= |hi|
    requires forall g :: 0 <= g < k ==> lo[g] <= hi[g]
    ensures SumAt(on, at, lo, k, b) <= SumAt(on, at, hi, k, b)
  {
    if k > 0 {
      SumAtMonotone(on, at, lo, hi, k - 1, b);
    }
  }

  /** The sum of `hi - lo + e` over the connected elements `g < k` on bus `b`. */
  function WidthAt(on: seq<bool>, at: seq<int>, lo: seq<real>, hi: seq<real>, e: real, k: nat, b: int): real
    requires k <= |on| && k <= |at| && k <= |lo| && k <= |hi|
  {
    SumAt(on, at, hi, k, b) - SumAt(on, at, lo, k, b) + CountAt(on, at, k, b) as real * e
  }

  /** One more element on bus `b` widens the total by its own `hi - lo + e`; any other leaves it. */
  lemma WidthAtStep(on: seq<bool>, at: seq<int>, lo: seq<real>, hi: seq<real>, e: real, k: nat, b: int)
    requires 0 < k <= |on| && k <= |at| && k <= |lo| && k <= |hi|
    ensures WidthAt(on, at, lo, hi, e, k, b)
         == WidthAt(on, at, lo, hi, e, k - 1, b)
            + (if on[k - 1] && at[k - 1] == b then hi[k - 1] - lo[k - 1] + e else 0.0)
  {
    var c := CountAt(on, at, k - 1, b);
    if on[k - 1] && at[k - 1] == b {
      assert CountAt(on, at, k, b) == c + 1;
      MulSucc(c as real, e);
    } else {
      assert CountAt(on, at, k, b) == c;
    }
  }

  /** Every connected element `g < k` on bus `b` carries `q * (r * (hi[g] - lo[g] + e))`:
      a share of `q` in proportion to its width `hi - lo + e`, `r` being the
      inverse of the total width. */
  predicate Proportional(on: seq<bool>, at: seq<int>, vals: seq<real>,
                         lo: seq<real>, hi: seq<real>, e: real, q: real, r: real, k: nat, b: int)
    requires k <= |on| && k <= |at| && k <= |vals| && k <= |lo| && k <= |hi|
  {
    forall g :: 0 <= g < k && on[g] && at[g] == b ==> vals[g] == q * (r * (hi[g] - lo[g] + e))
  }

  /** Proportional shares: when every connected element on bus `b` carries
      `q * (r * (hi - lo + e))`, the values there total `q * (r * w)` with `w` the
      sum of `hi - lo + e` over those elements. */
  lemma {:induction false} SumAtProportional(on: seq<bool>, at: seq<int>, vals: seq<real>,
                                             lo: seq<real>, hi: seq<real>, e: real, q: real, r: real,
                                             k: nat, b: int)
    requires k <= |on| && k <= |at| && k <= |vals| && k <= |lo| && k <= |hi|
    requires Proportional(on, at, vals, lo, hi, e, q, r, k, b)
    ensures SumAt(on, at, vals, k, b) == q * (r * WidthAt(on, at, lo, hi, e, k, b))
  {
    if k == 0 {
      Distribute(q, r, 0.0, 0.0, 0.0);
    } else {
      SumAtProportional(on, at, vals, lo, hi, e, q, r, k - 1, b);
      WidthAtStep(on, at, lo, hi, e, k, b);
      var x := if on[k - 1] && at[k - 1] == b then hi[k - 1] - lo[k - 1] + e else 0.0;
      Distribute(q, r, WidthAt(on, at, lo, hi, e, k - 1, b), x, WidthAt(on, at, lo, hi, e, k, b));
    }
  }

  lemma MulSucc(c: real, e: real)
    ensures (c + 1.0) * e == c * e + e
  {
  }

  lemma Distribute(q: real, r: real, w: real, x: real, y: real)
    requires y == w + x
    ensures q * (r * w) + q * (r * x) == q * (r * y)
  {
  }

  /** Proportional shares of a whole: when the widths on bus `b` total `d` and
      each element there carries `q` times its width over `d`, the elements
      there carry `q` in all. */
  lemma SumAtWhole(on: seq<bool>, at: seq<int>, vals: seq<real>,
                   lo: seq<real>, hi: seq<real>, e: real, q: real, r: real, d: real, k: nat, b: int)
    requires k <= |on| && k <= |at| && k <= |vals| && k <= |lo| && k <= |hi|
    requires d != 0.0 && r == 1.0 / d && WidthAt(on, at, lo, hi, e, k, b) == d
    requires Proportional(on, at, vals, lo, hi, e, q, r, k, b)
    ensures SumAt(on, at, vals, k, b) == q
  {
    SumAtProportional(on, at, vals, lo, hi, e, q, r, k, b);
    InverseOf(r, d);
    TimesInverse(q, r, WidthAt(on, at, lo, hi, e, k, b), d);
  }

  lemma InverseOf(r: real, d: real)
    requires d != 0.0 && r == 1.0 / d
    ensures r * d == 1.0
  {
  }

  lemma TimesInverse(q: real, r: real, w: real, d: real)
    requires w == d && r * d == 1.0
    ensures q * (r * w) == q
  {
    assert r * w == 1.0;
  }

  /** One more element adds its value to the total over the buses when its bus is
      one of them, and nothing otherwise. */
  lemma {:induction false} SumOverBusesStep(on: seq<bool>, at: seq<int>, vals: seq<real>, k: nat, nb: nat)
    requires k < |on| && k < |at| && k < |vals|
    ensures SumOverBuses(on, at, vals, k + 1, nb)
         == SumOverBuses(on, at, vals, k, nb) + (if on[k] && 0 <= at[k] < nb then vals[k] else 0.0)
  {
    if nb > 0 {
      SumOverBusesStep(on, at, vals, k, nb - 1);
    }
  }

  /** Conservation: when every connected element sits on one of the buses
      `0 .. nb-1`, the values added over all buses total the values of the
      connected elements. */
  lemma {:induction false} SumOverBusesIsTotal(on: seq<bool>, at: seq<int>, vals: seq<real>, k: nat, nb: nat)
    requires k <= |on| && k <= |at| && k <= |vals|
    requires forall g :: 0 <= g < k && on[g] ==> 0 <= at[g] < nb
    ensures SumOverBuses(on, at, vals, k, nb) == SumConnected(on, vals, k)
  {
    if k == 0 {
      SumOverBusesZero(on, at, vals, nb);
    } else {
      SumOverBusesIsTotal(on, at, vals, k - 1, nb);
      SumOverBusesStep(on, at, vals, k - 1, nb);
    }
  }

  /** Before any element, nothing has been added anywhere. */
  lemma {:induction false} SumOverBusesZero(on: seq<bool>, at: seq<int>, vals: seq<real>, nb: nat)
    ensures SumOverBuses(on, at, vals, 0, nb) == 0.0
  {
    if nb > 0 {
      SumOverBusesZero(on, at, vals, nb - 1);
    }
  }
}
