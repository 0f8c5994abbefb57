/** Decomposition of a 2x2 complex matrix A into the Pauli basis: the coefficients
    a_k = tr(σ_k A) / 2 for σ_0 = I, σ_1 = σx, σ_2 = σy, σ_3 = σz, which satisfy
    A = Σ_k a_k σ_k. Arithmetic is exact. */
module PauliMath {
  import opened Results

  datatype Complex = Complex(re: real, im: real)

  function Add(z: Complex, w: Complex): Complex {
    Complex(z.re + w.re, z.im + w.im)
  }

  function Mul(z: Complex, w: Complex): Complex {
    Complex(z.re * w.re - z.im * w.im, z.re * w.im + z.im * w.re)
  }

  function Half(z: Complex): Complex {
    Complex(z.re / 2.0, z.im / 2.0)
  }

  /** A 2x2 complex matrix, row by row. */
  datatype Mat2 = Mat2(m00: Complex, m01: Complex, m10: Complex, m11: Complex)

  function MatAdd(a: Mat2, b: Mat2): Mat2 {
    Mat2(Add(a.m00, b.m00), Add(a.m01, b.m01), Add(a.m10, b.m10), Add(a.m11, b.m11))
  }

  function MatMul(a: Mat2, b: Mat2): Mat2 {
    Mat2(Add(Mul(a.m00, b.m00), Mul(a.m01, b.m10)), Add(Mul(a.m00, b.m01), Mul(a.m01, b.m11)),
         Add(Mul(a.m10, b.m00), Mul(a.m11, b.m10)), Add(Mul(a.m10, b.m01), Mul(a.m11, b.m11)))
  }

  function Trace(a: Mat2): Complex {
    Add(a.m00, a.m11)
  }

  /** The entries of the Pauli matrices: 0, 1, -1, i and -i. */
  datatype Entry = Nought | PlusOne | MinusOne | PlusI | MinusI

  function Value(e: Entry): Complex {
    match e
    case Nought => Complex(0.0, 0.0)
    case PlusOne => Complex(1.0, 0.0)
    case MinusOne => Complex(-1.0, 0.0)
    case PlusI => Complex(0.0, 1.0)
    case MinusI => Complex(0.0, -1.0)
  }

  /** The product of an entry and a complex number, as a sign change and a swap. */
  function Times(e: Entry, z: Complex): Complex {
    match e
    case Nought => Complex(0.0, 0.0)
    case PlusOne => z
    case MinusOne => Complex(-z.re, -z.im)
    case PlusI => Complex(-z.im, z.re)
    case MinusI => Complex(z.im, -z.re)
  }

  /** A matrix whose entries are all Pauli entries. */
  datatype EntryMat = EntryMat(e00: Entry, e01: Entry, e10: Entry, e11: Entry) {
    function ToMat2(): Mat2 {
      Mat2(Value(e00), Value(e01), Value(e10), Value(e11))
    }
  }

  const Identity: EntryMat := EntryMat(PlusOne, Nought, Nought, PlusOne)
  const SigmaX: EntryMat := EntryMat(Nought, PlusOne, PlusOne, Nought)
  const SigmaY: EntryMat := EntryMat(Nought, MinusI, PlusI, Nought)
  const SigmaZ: EntryMat := EntryMat(PlusOne, Nought, Nought, MinusOne)

  /** The basis in the order the coefficients are returned: I, σx, σy, σz. */
  const Pauli2x2Basis: seq<EntryMat> := [Identity, SigmaX, SigmaY, SigmaZ]

  /** The tabulated matrices as complex matrices, in basis order. */
  lemma TabulatedMatrices()
    ensures |Pauli2x2Basis| == 4
    ensures Pauli2x2Basis[0].ToMat2() == Mat2(Complex(1.0, 0.0), Complex(0.0, 0.0), Complex(0.0, 0.0), Complex(1.0, 0.0))
    ensures Pauli2x2Basis[1].ToMat2() == Mat2(Complex(0.0, 0.0), Complex(1.0, 0.0), Complex(1.0, 0.0), Complex(0.0, 0.0))
    ensures Pauli2x2Basis[2].ToMat2() == Mat2(Complex(0.0, 0.0), Complex(0.0, -1.0), Complex(0.0, 1.0), Complex(0.0, 0.0))
    ensures Pauli2x2Basis[3].ToMat2() == Mat2(Complex(1.0, 0.0), Complex(0.0, 0.0), Complex(0.0, 0.0), Complex(-1.0, 0.0))
  {
  }

  /** σ A, entry by entry. */
  function LeftMul(s: EntryMat, a: Mat2): Mat2 {
    Mat2(Add(Times(s.e00, a.m00), Times(s.e01, a.m10)), Add(Times(s.e00, a.m01), Times(s.e01, a.m11)),
         Add(Times(s.e10, a.m00), Times(s.e11, a.m10)), Add(Times(s.e10, a.m01), Times(s.e11, a.m11)))
  }

  /** c σ, entry by entry. */
  function ScaleBy(c: Complex, s: EntryMat): Mat2 {
    Mat2(Times(s.e00, c), Times(s.e01, c), Times(s.e10, c), Times(s.e11, c))
  }

  /** Multiplying by an entry is complex multiplication by its value, on either side. */
  lemma TimesIsMul(e: Entry, z: Complex)
    ensures Times(e, z) == Mul(Value(e), z) == Mul(z, Value(e))
  {
  }

  /** The entry-wise product is the matrix product σ A. */
  lemma LeftMulIsMatMul(s: EntryMat, a: Mat2)
    ensures LeftMul(s, a) == MatMul(s.ToMat2(), a)
  {
    TimesIsMul(s.e00, a.m00);
    TimesIsMul(s.e00, a.m01);
    TimesIsMul(s.e01, a.m10);
    TimesIsMul(s.e01, a.m11);
    TimesIsMul(s.e10, a.m00);
    TimesIsMul(s.e10, a.m01);
    TimesIsMul(s.e11, a.m10);
    TimesIsMul(s.e11, a.m11);
  }

  /** The entry-wise scaling is c times each entry of σ. */
  lemma ScaleByIsMul(c: Complex, s: EntryMat)
    ensures ScaleBy(c, s) == Mat2(Mul(c, Value(s.e00)), Mul(c, Value(s.e01)), Mul(c, Value(s.e10)), Mul(c, Value(s.e11)))
  {
    TimesIsMul(s.e00, c);
    TimesIsMul(s.e01, c);
    TimesIsMul(s.e10, c);
    TimesIsMul(s.e11, c);
  }

  /** The coefficient of σ in A: tr(σ A) / 2. */
  function Coefficient(s: EntryMat, a: Mat2): Complex {
    Half(Trace(LeftMul(s, a)))
  }

  /** The four coefficients of a matrix, one per basis matrix in basis order. */
  function Coefficients(a: Mat2): (c: seq<Complex>)
    ensures |c| == 4
    ensures c[0] == Complex(0.5 * (a.m00.re + a.m11.re), 0.5 * (a.m00.im + a.m11.im))
    ensures c[1] == Complex(0.5 * (a.m01.re + a.m10.re), 0.5 * (a.m01.im + a.m10.im))
    ensures c[2] == Complex(0.5 * (a.m10.im - a.m01.im), 0.5 * (a.m01.re - a.m10.re))
    ensures c[3] == Complex(0.5 * (a.m00.re - a.m11.re), 0.5 * (a.m00.im - a.m11.im))
  {
    [Coefficient(Pauli2x2Basis[0], a), Coefficient(Pauli2x2Basis[1], a),
     Coefficient(Pauli2x2Basis[2], a), Coefficient(Pauli2x2Basis[3], a)]
  }

  /** Σ_k c_k σ_k. */
  function Recompose(c: seq<Complex>): (m: Mat2)
    requires |c| == 4
    ensures m.m00 == Complex(c[0].re + c[3].re, c[0].im + c[3].im)
    ensures m.m01 == Complex(c[1].re + c[2].im, c[1].im - c[2].re)
    ensures m.m10 == Complex(c[1].re - c[2].im, c[1].im + c[2].re)
    ensures m.m11 == Complex(c[0].re - c[3].re, c[0].im - c[3].im)
  {
    MatAdd(MatAdd(ScaleBy(c[0], Identity), ScaleBy(c[1], SigmaX)),
           MatAdd(ScaleBy(c[2], SigmaY), ScaleBy(c[3], SigmaZ)))
  }

  /** `decompose_into_pauli_2x2_basis` on a matrix given as rows; anything that is not
      two rows of two entries fails the shape assertion. */
  function Decompose(rows: seq<seq<Complex>>): (r: Result<seq<Complex>>)
    ensures r.Ok? <==> |rows| == 2 && |rows[0]| == 2 && |rows[1]| == 2
    ensures r.Err? ==> r.error == AssertionError
    ensures r.Ok? ==> |r.value| == 4
  {
    if |rows| == 2 && |rows[0]| == 2 && |rows[1]| == 2 then
      Ok(Coefficients(Mat2(rows[0][0], rows[0][1], rows[1][0], rows[1][1])))
    else Err(AssertionError)
  }

  /** Reconstruction: the coefficients of A recombine to A. */
  lemma RecomposeCoefficients(a: Mat2)
    ensures Recompose(Coefficients(a)) == a
  {
    var c := Coefficients(a);
    var r := Recompose(c);
    assert r.m00 == a.m00;
    assert r.m01 == a.m01;
    assert r.m10 == a.m10;
    assert r.m11 == a.m11;
  }

  /** Uniqueness: the coefficients of Σ_k c_k σ_k are c, so the decomposition is a
      bijection between matrices and coefficient vectors. */
  lemma CoefficientsOfRecompose(c: seq<Complex>)
    requires |c| == 4
    ensures Coefficients(Recompose(c)) == c
  {
    var d := Coefficients(Recompose(c));
    assert d[0] == c[0];
    assert d[1] == c[1];
    assert d[2] == c[2];
    assert d[3] == c[3];
  }

  /** Each coefficient is half the trace of σ_k A, with the tabulated σ_k and the
      ordinary matrix product. */
  lemma CoefficientsAreHalfTraces(a: Mat2, k: nat)
    requires k < 4
    ensures Coefficients(a)[k] == Half(Trace(MatMul(Pauli2x2Basis[k].ToMat2(), a)))
  {
    LeftMulIsMatMul(Pauli2x2Basis[k], a);
  }

  /** c M, entry by entry, with complex multiplication. */
  function ScaleMat(c: Complex, m: Mat2): Mat2 {
    Mat2(Mul(c, m.m00), Mul(c, m.m01), Mul(c, m.m10), Mul(c, m.m11))
  }

  /** The recombination is the linear combination Σ_k c_k σ_k of the tabulated matrices. */
  lemma RecomposeIsLinearCombination(c: seq<Complex>)
    requires |c| == 4
    ensures Recompose(c)
         == MatAdd(MatAdd(ScaleMat(c[0], Pauli2x2Basis[0].ToMat2()), ScaleMat(c[1], Pauli2x2Basis[1].ToMat2())),
                   MatAdd(ScaleMat(c[2], Pauli2x2Basis[2].ToMat2()), ScaleMat(c[3], Pauli2x2Basis[3].ToMat2())))
  {
    ScaleByIsMul(c[0], Identity);
    ScaleByIsMul(c[1], SigmaX);
    ScaleByIsMul(c[2], SigmaY);
    ScaleByIsMul(c[3], SigmaZ);
  }

  /** For a well-shaped input the decomposition recombines to the input matrix. */
  lemma DecomposeRoundTrip(rows: seq<seq<Complex>>)
    requires |rows| == 2 && |rows[0]| == 2 && |rows[1]| == 2
    ensures Decompose(rows).Ok?
    ensures Recompose(Decompose(rows).value) == Mat2(rows[0][0], rows[0][1], rows[1][0], rows[1][1])
  {
    RecomposeCoefficients(Mat2(rows[0][0], rows[0][1], rows[1][0], rows[1][1]));
  }

  /** The coefficients of a matrix of the shape a I-part, b σx-part, y σy-part and d
      σz-part with real a, b, y, d, which covers all four basis matrices. */
  lemma HermitianCoefficients(m: Mat2, a: real, b: real, y: real, d: real)
    requires m == Mat2(Complex(a, 0.0), Complex(b, -y), Complex(b, y), Complex(d, 0.0))
    ensures Coefficients(m) == [Complex((a + d) / 2.0, 0.0), Complex(b, 0.0), Complex(y, 0.0), Complex((a - d) / 2.0, 0.0)]
  {
  }

  /** The unit coefficient vector e_j: 1 at position j, 0 elsewhere. */
  function UnitVector(j: nat): (e: seq<Complex>)
    requires j < 4
    ensures |e| == 4 && e[j] == Value(PlusOne)
    ensures forall k :: 0 <= k < 4 && k != j ==> e[k] == Value(Nought)
  {
    [Value(if j == 0 then PlusOne else Nought), Value(if j == 1 then PlusOne else Nought),
     Value(if j == 2 then PlusOne else Nought), Value(if j == 3 then PlusOne else Nought)]
  }

  /** The coefficients of σ_j, for each j: e_j. */
  lemma BasisMatrixCoefficients(j: nat, m: Mat2)
    requires j < 4 && m == Pauli2x2Basis[j].ToMat2()
    ensures Coefficients(m) == UnitVector(j)
  {
    var a, b, y, d :=
      if j == 0 then 1.0 else if j == 3 then 1.0 else 0.0,
      if j == 1 then 1.0 else 0.0,
      if j == 2 then 1.0 else 0.0,
      if j == 0 then 1.0 else if j == 3 then -1.0 else 0.0;
    assert m == Mat2(Complex(a, 0.0), Complex(b, -y), Complex(b, y), Complex(d, 0.0));
    HermitianCoefficients(m, a, b, y, d);
  }
}
