/** Unit phases exp(i*x) and the matrices built from them.  A diagonal matrix of phases is a pair of
    angles, and so is an antidiagonal one; products of such matrices are sums of angles. */
module Phases {
  import opened Amplitudes
  import opened Gates
  import opened LocalRules
  import opened Angles

  function Straight(tr: Trig, x: real, y: real): Matrix { Diag(tr.Phase(x), tr.Phase(y)) }
  function Cross(tr: Trig, x: real, y: real): Matrix { Matrix(Zero, tr.Phase(x), tr.Phase(y), Zero) }

  lemma PhaseSum(tr: Trig, x: real, y: real)
    requires tr.Lawful()
    ensures Mul(tr.Phase(x), tr.Phase(y)) == tr.Phase(x + y)
  {
    assert tr.SumLaw(x, y);
  }

  lemma PhaseUnit(tr: Trig, x: real)
    requires tr.Lawful()
    ensures Unit(tr.Phase(x))
  {
    assert tr.UnitLaw(x);
  }

  lemma PhaseLandmarks(tr: Trig)
    requires tr.Lawful()
    ensures tr.Phase(0.0) == One && tr.Phase(tr.pi) == MinusOne
    ensures tr.Phase(tr.pi / 2.0) == Imag && tr.Phase(-tr.pi / 2.0) == Complex(0.0, -1.0)
  {
    PiLaw(tr);
    NegativeAngle(tr, tr.pi / 2.0);
    assert -tr.pi / 2.0 == -(tr.pi / 2.0);
  }

  /** The named matrices as pairs of angles. */
  lemma NamedPhases(tr: Trig, a: real)
    requires tr.Lawful()
    ensures Identity == Straight(tr, 0.0, 0.0) && MatX == Cross(tr, 0.0, 0.0) && MatZ == Straight(tr, 0.0, tr.pi)
    ensures MatRz(tr, a) == Straight(tr, -a / 2.0, a / 2.0)
    ensures MatY == Cross(tr, -tr.pi / 2.0, tr.pi / 2.0)
  {
    hide tr.Lawful;
    PhaseLandmarks(tr);
  }

  lemma StraightStraight(tr: Trig, x: real, y: real, x': real, y': real)
    requires tr.Lawful()
    ensures Times(Straight(tr, x, y), Straight(tr, x', y')) == Straight(tr, x + x', y + y')
  {
    hide Mul, tr.Lawful, Trig.Phase;
    ZeroMul();
    PhaseSum(tr, x, x');
    PhaseSum(tr, y, y');
  }

  lemma StraightCross(tr: Trig, x: real, y: real, x': real, y': real)
    requires tr.Lawful()
    ensures Times(Straight(tr, x, y), Cross(tr, x', y')) == Cross(tr, x + x', y + y')
  {
    hide Mul, tr.Lawful, Trig.Phase;
    ZeroMul();
    PhaseSum(tr, x, x');
    PhaseSum(tr, y, y');
  }

  lemma CrossStraight(tr: Trig, x: real, y: real, x': real, y': real)
    requires tr.Lawful()
    ensures Times(Cross(tr, x, y), Straight(tr, x', y')) == Cross(tr, x + y', y + x')
  {
    hide Mul, tr.Lawful, Trig.Phase;
    ZeroMul();
    PhaseSum(tr, x, y');
    PhaseSum(tr, y, x');
  }

  lemma CrossCross(tr: Trig, x: real, y: real, x': real, y': real)
    requires tr.Lawful()
    ensures Times(Cross(tr, x, y), Cross(tr, x', y')) == Straight(tr, x + y', y + x')
  {
    hide Mul, tr.Lawful, Trig.Phase;
    ZeroMul();
    PhaseSum(tr, x, y');
    PhaseSum(tr, y, x');
  }

  lemma ScaledStraight(tr: Trig, s: real, x: real, y: real)
    requires tr.Lawful()
    ensures ScaledBy(tr.Phase(s), Straight(tr, x, y)) == Straight(tr, s + x, s + y)
  {
    hide Mul, tr.Lawful, Trig.Phase;
    ZeroMul();
    PhaseSum(tr, s, x);
    PhaseSum(tr, s, y);
  }

  // ---- Matrices that are not diagonal ----

  lemma DiagonalSides(p: Complex, q: Complex, m: Matrix, r: Complex, s: Complex)
    ensures Times(Diag(p, q), Times(m, Diag(r, s)))
         == Matrix(Mul(Mul(p, r), m.a), Mul(Mul(p, s), m.b), Mul(Mul(q, r), m.c), Mul(Mul(q, s), m.d))
  {
    hide Mul;
    ZeroMul();
    MulSwap(p, m.a, r);
    MulSwap(p, m.b, s);
    MulSwap(q, m.c, r);
    MulSwap(q, m.d, s);
    MulComm(m.a, Mul(p, r));
    MulComm(m.b, Mul(p, s));
    MulComm(m.c, Mul(q, r));
    MulComm(m.d, Mul(q, s));
  }

  /** The Euler angles: Rz(phi) Ry(theta) Rz(lam) is U(theta, phi, lam) up to a global phase. */
  lemma EulerAngles(tr: Trig, theta: real, phi: real, lam: real)
    requires tr.Lawful()
    ensures Times(MatRz(tr, phi), Times(MatRy(tr, theta), MatRz(tr, lam)))
         == ScaledBy(tr.Phase(-(phi + lam) / 2.0), MatU3(tr, theta, phi, lam))
  {
    hide Mul, Times, tr.Lawful, Trig.Phase, Trig.HalfCos, Trig.HalfSin;
    var f, l := phi / 2.0, lam / 2.0;
    var w := -(phi + lam) / 2.0;
    var c, s := tr.HalfCos(theta), tr.HalfSin(theta);
    DiagonalSides(tr.Phase(-phi / 2.0), tr.Phase(f), MatRy(tr, theta), tr.Phase(-lam / 2.0), tr.Phase(l));
    PhaseSum(tr, -phi / 2.0, -lam / 2.0);
    PhaseSum(tr, -phi / 2.0, l);
    PhaseSum(tr, f, -lam / 2.0);
    PhaseSum(tr, f, l);
    PhaseSum(tr, w, lam);
    PhaseSum(tr, w, phi);
    PhaseSum(tr, w, phi + lam);
    MulSwap(tr.Phase(w), MinusOne, Mul(tr.Phase(lam), s));
    MulAssoc(tr.Phase(w), tr.Phase(lam), s);
    MulSwap(tr.Phase(w + lam), MinusOne, s);
    MulAssoc(tr.Phase(w), tr.Phase(phi), s);
    MulAssoc(tr.Phase(w), tr.Phase(phi + lam), c);
    assert w == -phi / 2.0 + -lam / 2.0 && w + lam == -phi / 2.0 + l;
    assert w + phi == f + -lam / 2.0 && w + (phi + lam) == f + l;
  }

  /** The built-in gate of the OpenQASM 3 specification, section "Gates". */
  function BuiltinMatrix(tr: Trig, theta: real, phi: real, lam: real): Matrix {
    var e, half := tr.Phase(theta), Complex(0.5, 0.0);
    var plus, minus := Mul(half, Complex(1.0 + e.re, e.im)), Mul(half, Complex(1.0 - e.re, -e.im));
    Matrix(plus, Mul(Complex(0.0, -1.0), Mul(tr.Phase(lam), minus)),
           Mul(Imag, Mul(tr.Phase(phi), minus)), Mul(tr.Phase(phi + lam), plus))
  }

  /** The built-in gate is the half-angle matrix times the phase theta/2. */
  lemma BuiltinIsU3(tr: Trig, theta: real, phi: real, lam: real)
    requires tr.Lawful()
    ensures BuiltinMatrix(tr, theta, phi, lam) == ScaledBy(tr.Phase(theta / 2.0), MatU3(tr, theta, phi, lam))
  {
    hide tr.Lawful, Trig.Phase, Mul;
    var x := theta / 2.0;
    var c, s, e, u := tr.HalfCos(theta), tr.HalfSin(theta), tr.Phase(theta), tr.Phase(x);
    var plus := Mul(Complex(0.5, 0.0), Complex(1.0 + e.re, e.im));
    var minus := Mul(Complex(0.5, 0.0), Complex(1.0 - e.re, -e.im));
    HalfAngle(tr, theta);
    assert plus == Mul(u, c) && Mul(Imag, minus) == Mul(u, s) && Mul(Complex(0.0, -1.0), minus) == Mul(MinusOne,
        Mul(u, s));
    MulSwap(Complex(0.0, -1.0), tr.Phase(lam), minus);
    MulSwap(MinusOne, tr.Phase(lam), Mul(u, s));
    MulSwap(tr.Phase(lam), u, s);
    MulSwap(MinusOne, u, Mul(tr.Phase(lam), s));
    MulSwap(Imag, tr.Phase(phi), minus);
    MulSwap(tr.Phase(phi), u, s);
    MulSwap(tr.Phase(phi + lam), u, c);
  }

  lemma HalfAngle(tr: Trig, theta: real)
    requires tr.Lawful()
    ensures var u, e := tr.Phase(theta / 2.0), tr.Phase(theta);
            var plus := Mul(Complex(0.5, 0.0), Complex(1.0 + e.re, e.im));
            var minus := Mul(Complex(0.5, 0.0), Complex(1.0 - e.re, -e.im));
            && plus == Mul(u, tr.HalfCos(theta)) && Mul(Imag, minus) == Mul(u, tr.HalfSin(theta))
            && Mul(Complex(0.0, -1.0), minus) == Mul(MinusOne, Mul(u, tr.HalfSin(theta)))
  {
    var x := theta / 2.0;
    assert x + x == theta;
    assert tr.SumLaw(x, x) && tr.UnitLaw(x);
    var c, s := tr.cos(x), tr.sin(x);
    assert 0.5 * (1.0 + tr.cos(theta)) == c * c && 0.5 * (1.0 - tr.cos(theta)) == s * s && 0.5 * tr.sin(theta) == s * c;
  }

  // ---- Hadamard between diagonal matrices ----

  lemma HadamardDiagonal(tr: Trig, p: Complex, q: Complex)
    requires tr.Lawful()
    ensures Times(MatH(tr), Times(Diag(p, q), MatH(tr)))
         == Matrix(Mul(Complex(0.5, 0.0), Add(p, q)), Mul(Complex(0.5, 0.0), Add(p, Mul(MinusOne, q))),
                   Mul(Complex(0.5, 0.0), Add(p, Mul(MinusOne, q))), Mul(Complex(0.5, 0.0), Add(p, q)))
  {
    hide tr.Lawful;
    RootSquare(tr);
    var h := tr.cos(tr.pi / 4.0);
    HalfTwice(h, p.re, q.re);
    HalfTwice(h, p.im, q.im);
  }

  lemma HalfTwice(h: real, x: real, y: real)
    requires h * h == 0.5
    ensures h * (x * h) == 0.5 * x && h * (y * h) == 0.5 * y
  {
  }

  /** H Rz(a) H == Rx(a). */
  lemma HadamardRz(tr: Trig, a: real)
    requires tr.Lawful()
    ensures Times(MatH(tr), Times(MatRz(tr, a), MatH(tr))) == MatRx(tr, a)
  {
    hide tr.Lawful, Times;
    HadamardDiagonal(tr, tr.Phase(-a / 2.0), tr.Phase(a / 2.0));
    NegativeAngle(tr, a / 2.0);
    assert -a / 2.0 == -(a / 2.0);
  }
}
