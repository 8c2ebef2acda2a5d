/** Complex numbers as pairs of reals (the engine's `cdouble`), and the sparse
    complex matrix that the admittance matrix (Y-bus) is assembled into. */
module Numeric {

  datatype Complex = Complex(re: real, im: real)

  const Zero: Complex := Complex(0.0, 0.0)

  function Add(a: Complex, b: Complex): Complex
  {
    Complex(a.re + b.re, a.im + b.im)
  }

  function Sub(a: Complex, b: Complex): Complex
  {
    Complex(a.re - b.re, a.im - b.im)
  }

  function Mul(a: Complex, b: Complex): Complex
  {
    Complex(a.re * b.re - a.im * b.im, a.re * b.im + a.im * b.re)
  }

  function Conj(a: Complex): Complex
  {
    Complex(a.re, -a.im)
  }

  /** |a|^2, the squared modulus: no square root is needed anywhere below. */
  function NormSq(a: Complex): (r: real)
    ensures r >= 0.0
  {
    a.re * a.re + a.im * a.im
  }

  /** A coefficient of a sparse matrix: an entry that is not stored reads as zero. */
  function Coeff(m: map<(int, int), Complex>, i: int, j: int): Complex
  {
    if (i, j) in m then m[(i, j)] else Zero
  }

  /** A square sparse complex matrix of dimension `dim`, owned by the caller and
      updated in place (coeffRef inserts a stored entry when it is missing). */
  class SparseMatrix {
    const dim: nat
    var coeffs: map<(int, int), Complex>

    constructor (n: nat)
      ensures dim == n && coeffs == map[]
    {
      dim := n;
      coeffs := map[];
    }
  }
}
