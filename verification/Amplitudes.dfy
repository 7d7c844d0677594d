/** Complex amplitudes and the 2x2 matrices of one-qubit gates, over exact reals. */
module Amplitudes {

  datatype Complex = Complex(re: real, im: real)

  const Zero := Complex(0.0, 0.0)
  const One := Complex(1.0, 0.0)
  const MinusOne := Complex(-1.0, 0.0)
  const Imag := Complex(0.0, 1.0)

  function Add(a: Complex, b: Complex): Complex { Complex(a.re + b.re, a.im + b.im) }

  function Mul(a: Complex, b: Complex): Complex {
    Complex(a.re * b.re - a.im * b.im, a.re * b.im + a.im * b.re)
  }

  function Conj(a: Complex): Complex { Complex(a.re, -a.im) }

  /** The part x*p + y*q of a matrix-vector product that one row contributes. */
  function Dot(x: Complex, p: Complex, y: Complex, q: Complex): Complex { Add(Mul(x, p), Mul(y, q)) }

  /** A unit: a complex number of modulus one. */
  predicate Unit(w: Complex) { w.re * w.re + w.im * w.im == 1.0 }

  /** The matrix [[a, b], [c, d]]. */
  datatype Matrix = Matrix(a: Complex, b: Complex, c: Complex, d: Complex)

  const Identity := Matrix(One, Zero, Zero, One)

  function Times(m: Matrix, n: Matrix): Matrix {
    Matrix(Dot(m.a, n.a, m.b, n.c), Dot(m.a, n.b, m.b, n.d),
           Dot(m.c, n.a, m.d, n.c), Dot(m.c, n.b, m.d, n.d))
  }

  function Dagger(m: Matrix): Matrix { Matrix(Conj(m.a), Conj(m.c), Conj(m.b), Conj(m.d)) }

  function ScaledBy(w: Complex, m: Matrix): Matrix {
    Matrix(Mul(w, m.a), Mul(w, m.b), Mul(w, m.c), Mul(w, m.d))
  }

  function Diag(a: Complex, d: Complex): Matrix { Matrix(a, Zero, Zero, d) }

  // Ring laws. They are stated one instance at a time, so that the proofs below can hide the
  // polynomial bodies of Add and Mul and work by rewriting alone.

  lemma MulAssoc(a: Complex, b: Complex, c: Complex)
    ensures Mul(Mul(a, b), c) == Mul(a, Mul(b, c))
  {
  }

  lemma MulComm(a: Complex, b: Complex)
    ensures Mul(a, b) == Mul(b, a)
  {
  }

  lemma MulAddRight(a: Complex, b: Complex, c: Complex)
    ensures Mul(a, Add(b, c)) == Add(Mul(a, b), Mul(a, c))
  {
  }

  lemma MulAddLeft(a: Complex, b: Complex, c: Complex)
    ensures Mul(Add(a, b), c) == Add(Mul(a, c), Mul(b, c))
  {
  }

  lemma AddSwap(a: Complex, b: Complex, c: Complex, d: Complex)
    ensures Add(Add(a, b), Add(c, d)) == Add(Add(a, c), Add(b, d))
  {
  }

  lemma MulOne(a: Complex)
    ensures Mul(One, a) == a == Mul(a, One)
  {
  }

  lemma MulSwap(a: Complex, b: Complex, p: Complex)
    ensures Mul(a, Mul(b, p)) == Mul(b, Mul(a, p))
  {
    hide Mul;
    MulAssoc(a, b, p);
    MulAssoc(b, a, p);
    MulComm(a, b);
  }

  lemma DotIdentity(p: Complex, q: Complex)
    ensures Dot(One, p, Zero, q) == p && Dot(Zero, p, One, q) == q
  {
  }

  /** One entry of the associativity law (m*n)*v == m*(n*v). */
  lemma DotCompose(x: Complex, y: Complex, a: Complex, b: Complex, c: Complex, d: Complex, p: Complex, q: Complex)
    ensures Dot(x, Dot(a, p, b, q), y, Dot(c, p, d, q)) == Dot(Dot(x, a, y, c), p, Dot(x, b, y, d), q)
  {
    hide Mul, Add;
    MulAddRight(x, Mul(a, p), Mul(b, q));
    MulAddRight(y, Mul(c, p), Mul(d, q));
    MulAssoc(x, a, p);
    MulAssoc(x, b, q);
    MulAssoc(y, c, p);
    MulAssoc(y, d, q);
    MulAddLeft(Mul(x, a), Mul(y, c), p);
    MulAddLeft(Mul(x, b), Mul(y, d), q);
    AddSwap(Mul(x, Mul(a, p)), Mul(x, Mul(b, q)), Mul(y, Mul(c, p)), Mul(y, Mul(d, q)));
  }

  /** Two rows acting on different bits may be applied in either order. */
  lemma DotExchange(a: Complex, b: Complex, c: Complex, d: Complex, p: Complex, q: Complex, r: Complex, s: Complex)
    ensures Dot(a, Dot(c, p, d, q), b, Dot(c, r, d, s)) == Dot(c, Dot(a, p, b, r), d, Dot(a, q, b, s))
  {
    hide Mul, Add;
    MulAddRight(a, Mul(c, p), Mul(d, q));
    MulAddRight(b, Mul(c, r), Mul(d, s));
    MulAddRight(c, Mul(a, p), Mul(b, r));
    MulAddRight(d, Mul(a, q), Mul(b, s));
    MulSwap(a, c, p);
    MulSwap(a, d, q);
    MulSwap(b, c, r);
    MulSwap(b, d, s);
    AddSwap(Mul(a, Mul(c, p)), Mul(a, Mul(d, q)), Mul(b, Mul(c, r)), Mul(b, Mul(d, s)));
  }

  /** A row is linear: a common factor of the two amplitudes comes out in front. */
  lemma DotScale(w: Complex, x: Complex, p: Complex, y: Complex, q: Complex)
    ensures Dot(x, Mul(w, p), y, Mul(w, q)) == Mul(w, Dot(x, p, y, q))
    ensures Dot(Mul(w, x), p, Mul(w, y), q) == Mul(w, Dot(x, p, y, q))
  {
    hide Mul, Add;
    MulSwap(x, w, p);
    MulSwap(y, w, q);
    MulAddRight(w, Mul(x, p), Mul(y, q));
    MulAssoc(w, x, p);
    MulAssoc(w, y, q);
  }

  lemma TimesAssoc(m: Matrix, n: Matrix, k: Matrix)
    ensures Times(Times(m, n), k) == Times(m, Times(n, k))
  {
    hide Dot;
    DotCompose(m.a, m.b, n.a, n.b, n.c, n.d, k.a, k.c);
    DotCompose(m.a, m.b, n.a, n.b, n.c, n.d, k.b, k.d);
    DotCompose(m.c, m.d, n.a, n.b, n.c, n.d, k.a, k.c);
    DotCompose(m.c, m.d, n.a, n.b, n.c, n.d, k.b, k.d);
  }

  lemma TimesIdentity(m: Matrix)
    ensures Times(m, Identity) == m == Times(Identity, m)
  {
  }

  lemma TimesScaled(w: Complex, m: Matrix, n: Matrix)
    ensures Times(ScaledBy(w, m), n) == ScaledBy(w, Times(m, n)) == Times(m, ScaledBy(w, n))
  {
    hide Dot, Mul;
    DotScale(w, m.a, n.a, m.b, n.c);
    DotScale(w, m.a, n.b, m.b, n.d);
    DotScale(w, m.c, n.a, m.d, n.c);
    DotScale(w, m.c, n.b, m.d, n.d);
  }
}
