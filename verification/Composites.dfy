/** The gates whose macros work on several qubits at once: ecr, rxx and rccx. */
module Composites {
  import opened Amplitudes
  import opened Blocks
  import opened Gates
  import opened LocalRules
  import opened Angles
  import opened Phases
  import opened Products
  import opened GateCalls
  import opened References
  import opened Macros

  // ---- ecr ----

  function Toggle(s: Basis, q: nat): Basis { if q in s then Off(s, q) else On(s, q) }

  lemma StepX(a: nat, psi: State, s: Basis)
    ensures Step(Mux(Everywhere(MatX), a), psi)(s) == psi(Toggle(s, a))
  {
    hide Dot;
    BitCases(a, s);
    DotIdentity(psi(Off(s, a)), psi(On(s, a)));
  }

  lemma ToggleApart(s: Basis, a: nat, t: nat)
    requires a != t
    ensures Off(Toggle(s, a), t) == Toggle(Off(s, t), a) && On(Toggle(s, a), t) == Toggle(On(s, t), a)
    ensures t in Toggle(s, a) <==> t in s
  {
  }

  /** Moving a block past an X on qubit a toggles the block's view of a. */
  lemma PastX(f: Family, f': Family, a: nat, t: nat)
    requires a != t && forall s: Basis :: f'(s) == f(Toggle(s, a))
    ensures Equiv(One, [Mux(Everywhere(MatX), a), Mux(f', t)], [Mux(f, t), Mux(Everywhere(MatX), a)])
  {
    var x := Mux(Everywhere(MatX), a);
    hide Effect, Mul, Row, Off, On, Toggle, Everywhere;
    forall psi: State, s: Basis
      ensures Effect([x, Mux(f', t)], psi)(s) == Mul(One, Effect([Mux(f, t), x], psi)(s))
    {
      EffectTwo(x, Mux(f', t), psi);
      EffectTwo(Mux(f, t), x, psi);
      MulOne(Effect([Mux(f, t), x], psi)(s));
      StepX(a, Step(Mux(f, t), psi), s);
      StepX(a, psi, Off(s, t));
      StepX(a, psi, On(s, t));
      ToggleApart(s, a, t);
    }
  }

  lemma RxSum(tr: Trig, x: real, y: real)
    requires tr.Lawful()
    ensures Times(MatRx(tr, x), MatRx(tr, y)) == MatRx(tr, x + y)
  {
    hide tr.Lawful;
    assert tr.SumLaw(x / 2.0, y / 2.0) by { SumAt(tr, x / 2.0, y / 2.0); }
    assert (x + y) / 2.0 == x / 2.0 + y / 2.0;
  }

  /** Rx(pi) == -i X. */
  lemma RxPi(tr: Trig)
    requires tr.Lawful()
    ensures MatRx(tr, tr.pi) == ScaledBy(tr.Phase(-tr.pi / 2.0), MatX)
  {
    hide tr.Lawful, Mul;
    PhaseLandmarks(tr);
    ZeroMul();
    MulOne(Complex(0.0, -1.0));
    assert tr.HalfSin(tr.pi) == One && tr.HalfCos(tr.pi) == Zero;
  }

  lemma EcrMeans(tr: Trig, a: nat, b: nat)
    requires tr.Lawful() && a != b
    ensures Equiv(tr.Phase(-tr.pi / 2.0), Denote(tr, EcrOps(tr.pi, false, a, b)),
                  [Mux(SignedRotation(a, RxOf(tr), tr.pi / 2.0), b), Mux(Everywhere(MatX), a)])
  {
    hide Equiv, Times, ScaledBy, tr.Lawful, MatRx, Mul, Trig.Phase, RzxOps, Denote, SignedRotation;
    var q, w := tr.pi / 4.0, tr.Phase(-tr.pi / 2.0);
    var k, k' := EcrFamily(tr, a, q), EcrFamily(tr, a, -q);
    var rx := OneQubit(Rx, false, [tr.pi], a);
    var x, h := Everywhere(MatX), SignedRotation(a, RxOf(tr), tr.pi / 2.0);
    assert -tr.pi / 4.0 == -q;
    var first, last := RzxOps(false, q, a, b), RzxOps(false, -q, a, b);
    RzxMeans(tr, q, a, b, k);
    RzxMeans(tr, -q, a, b, k');
    EcrMiddle(tr, a);
    DenoteConcat(tr, first, [rx]);
    DenoteConcat(tr, first + [rx], last);
    EquivConcat(One, w, Denote(tr, first), [Mux(k, b)], Denote(tr, [rx]), [Mux(x, a)]);
    EquivConcat(Mul(One, w), One, Denote(tr, first) + Denote(tr, [rx]), [Mux(k, b)] + [Mux(x, a)],
                Denote(tr, last), [Mux(k', b)]);
    MulOne(w);
    PastX(k, k', a, b);
    EquivInside(One, [Mux(k, b)], [Mux(x, a), Mux(k', b)], [Mux(k, b), Mux(x, a)], []);
    EcrProduct(tr, a, b, k, h);
    EquivInside(One, [], [Mux(k, b), Mux(k, b)], [Mux(h, b)], [Mux(x, a)]);
    assert [Mux(k, b)] + [Mux(x, a)] + [Mux(k', b)] == [Mux(k, b)] + [Mux(x, a), Mux(k', b)] + [];
    assert [Mux(k, b)] + [Mux(k, b), Mux(x, a)] + [] == [] + [Mux(k, b), Mux(k, b)] + [Mux(x, a)];
    assert [] + [Mux(h, b)] + [Mux(x, a)] == [Mux(h, b), Mux(x, a)];
    MulOne(One);
    Chain(One, One, One, [Mux(k, b)] + [Mux(x, a), Mux(k', b)] + [], [] + [Mux(k, b), Mux(k, b)] + [Mux(x, a)],
          [Mux(h, b), Mux(x, a)]);
    Chain(w, One, w, Denote(tr, first + [rx] + last), [Mux(k, b)] + [Mux(x, a)] + [Mux(k', b)], [Mux(h, b), Mux(x, a)]);
  }

  function EcrFamily(tr: Trig, a: nat, angle: real): Family {
    (s: Basis) => MatRx(tr, if a in s then -angle else angle)
  }

  lemma EcrMiddle(tr: Trig, a: nat)
    requires tr.Lawful()
    ensures Equiv(tr.Phase(-tr.pi / 2.0), Denote(tr, [OneQubit(Rx, false, [tr.pi], a)]), [Mux(Everywhere(MatX), a)])
  {
    hide Equiv, ScaledBy, tr.Lawful, MatRx, Trig.Phase, Controlled;
    var g, w := OneQubit(Rx, false, [tr.pi], a), tr.Phase(-tr.pi / 2.0);
    RxPi(tr);
    DenoteOne(tr, g);
    forall s: Basis ensures FamilyOf(tr, g)(s) == ScaledBy(w, Everywhere(MatX)(s)) {
      BareAt(tr, g, s);
    }
    MuxScaled(w, FamilyOf(tr, g), Everywhere(MatX), a);
  }

  lemma EcrProduct(tr: Trig, a: nat, b: nat, k: Family, h: Family)
    requires tr.Lawful()
    requires forall s: Basis :: k(s) == MatRx(tr, if a in s then -(tr.pi / 4.0) else tr.pi / 4.0)
    requires h == SignedRotation(a, RxOf(tr), tr.pi / 2.0)
    ensures Equiv(One, [Mux(k, b), Mux(k, b)], [Mux(h, b)])
  {
    hide Equiv, Times, ScaledBy, tr.Lawful, MatRx;
    forall s: Basis ensures Times(k(s), k(s)) == ScaledBy(One, h(s)) {
      var q := if a in s then -(tr.pi / 4.0) else tr.pi / 4.0;
      RxSum(tr, q, q);
      ScaledOne(h(s));
      assert q + q == if a in s then -(tr.pi / 2.0) else tr.pi / 2.0;
    }
    MuxCompose(One, k, k, h, b);
  }

  // ---- rccx ----

  /** U(pi/2, 0, pi) is the Hadamard gate. */
  lemma U2IsHadamard(tr: Trig)
    requires tr.Lawful()
    ensures MatU3(tr, tr.pi / 2.0, 0.0, tr.pi) == MatH(tr)
  {
    hide tr.Lawful;
    RootSquare(tr);
    PhaseLandmarks(tr);
    assert tr.pi / 2.0 / 2.0 == tr.pi / 4.0 && 0.0 + tr.pi == tr.pi;
    var h := tr.Root();
    MulOne(h);
    Negate(h);
    Negate(Complex(-h.re, 0.0));
  }

  /** What stands between the two Hadamard gates of rccx: nothing, X, or -Y. */
  function RccxCore(tr: Trig, zero: bool, one: bool): Matrix {
    if !zero then Identity else if one then Cross(tr, tr.pi / 2.0, -tr.pi / 2.0) else MatX
  }

  lemma {:induction false} RccxMatrices(tr: Trig, zero: bool, one: bool)
    requires tr.Lawful()
    ensures var d, d' := Straight(tr, 0.0, tr.pi / 4.0), Straight(tr, 0.0, -tr.pi / 4.0);
            var x0, x1 := if zero then MatX else Identity, if one then MatX else Identity;
            Times(d', Times(x1, Times(d, Times(x0, Times(d', Times(x1, d)))))) == RccxCore(tr, zero, one)
  {
    hide Times, tr.Lawful, Straight, Cross, Trig.Phase;
    var q := tr.pi / 4.0;
    assert -tr.pi / 4.0 == -q;
    NamedPhases(tr, 0.0);
    MaybeFlip(tr, one, 0.0, q);
    if one {
      StraightCross(tr, 0.0, -q, q, 0.0);
      MaybeFlip(tr, zero, q, -q);
      if zero {
        StraightStraight(tr, 0.0, q, -q, q);
        MaybeFlip(tr, true, -q, q + q);
        StraightCross(tr, 0.0, -q, q + q, -q);
        assert q + q == tr.pi / 2.0 && -q + -q == -tr.pi / 2.0;
      } else {
        StraightCross(tr, 0.0, q, q, -q);
        MaybeFlip(tr, true, q, q + -q);
        StraightStraight(tr, 0.0, -q, q + -q, q);
      }
    } else {
      StraightStraight(tr, 0.0, -q, 0.0, q);
      MaybeFlip(tr, zero, 0.0, -q + q);
      StraightCross(tr, 0.0, q, 0.0, 0.0);
      StraightStraight(tr, 0.0, q, 0.0, 0.0);
      MaybeFlip(tr, false, 0.0, q);
      StraightCross(tr, 0.0, -q, 0.0, q);
      StraightStraight(tr, 0.0, -q, 0.0, q);
    }
  }

  lemma RccxMiddleMeans(tr: Trig, q0: nat, q1: nat, q2: nat, h: Family)
    requires tr.Lawful() && q0 != q2 && q1 != q2
    requires forall s: Basis :: h(s) == RccxCore(tr, q0 in s, q1 in s)
    ensures Equiv(One, Denote(tr, RccxMiddle(tr.pi, false, q0, q1, q2)), [Mux(h, q2)])
  {
    hide Equiv, Product, ScaledBy, Times, Controlled, tr.Lawful, RccxCore, Trig.Phase;
    var gs := RccxMiddle(tr.pi, false, q0, q1, q2);
    PhaseLandmarks(tr);
    forall s: Basis ensures Product(Families(tr, gs, q2), s) == ScaledBy(One, h(s)) {
      var d, x1, d', x0 := FamilyOf(tr, gs[0]), FamilyOf(tr, gs[1]), FamilyOf(tr, gs[2]), FamilyOf(tr, gs[3]);
      assert Families(tr, gs, q2) == [d, x1, d', x0, d, x1, d'];
      ProductSeven(d, x1, d', x0, d, x1, d', s);
      BareAt(tr, gs[0], s);
      CxAt(tr, q1, q2, s);
      BareAt(tr, gs[2], s);
      CxAt(tr, q0, q2, s);
      RccxMatrices(tr, q0 in s, q1 in s);
      ScaledOne(h(s));
    }
    OneTargetRun(tr, One, gs, h, q2);
  }

  lemma RccxSandwich(tr: Trig, zero: bool, one: bool)
    requires tr.Lawful()
    ensures Times(MatH(tr), Times(RccxCore(tr, zero, one), MatH(tr)))
         == if !zero then Identity else if one then MatY else MatZ
  {
    hide Times, MatH, tr.Lawful, ScaledBy, Mul;
    var h := MatH(tr);
    TimesIdentity(h);
    HadamardSquare(tr);
    HadamardSandwich(tr);
    HadamardConjugates(tr);
    MinusY(tr);
    TimesScaled(MinusOne, MatY, h);
    TimesScaled(MinusOne, h, Times(MatY, h));
    TimesAssoc(h, MatY, h);
    TimesScaled(MinusOne, Times(MatY, h), h);
    TimesAssoc(MatY, h, h);
    TimesIdentity(MatY);
    ScaledTwice(MatY);
  }

  lemma MinusY(tr: Trig)
    requires tr.Lawful()
    ensures Cross(tr, tr.pi / 2.0, -tr.pi / 2.0) == ScaledBy(MinusOne, MatY)
  {
    hide tr.Lawful;
    PhaseLandmarks(tr);
  }

  lemma ScaledTwice(m: Matrix)
    ensures ScaledBy(MinusOne, ScaledBy(MinusOne, m)) == m
  {
  }

  lemma RccxMeans(tr: Trig, q0: nat, q1: nat, q2: nat)
    requires tr.Lawful() && q0 != q2 && q1 != q2
    ensures Equiv(tr.Phase(tr.pi), Denote(tr, RccxOps(tr.pi, false, q0, q1, q2)), [Mux(SimplifiedToffoli(q0, q1), q2)])
  {
    hide Equiv, Product, ScaledBy, Times, tr.Lawful, RccxCore, Trig.Phase, EulerOps, RccxMiddle, MatH, Mul, MatU3,
         Denote;
    var h, m: Family := Everywhere(MatH(tr)), (s: Basis) => RccxCore(tr, q0 in s, q1 in s);
    var e, mid := EulerOps(false, q2, tr.pi, tr.pi / 2.0, 0.0), RccxMiddle(tr.pi, false, q0, q1, q2);
    var w := tr.Phase(-tr.pi / 2.0);
    U2IsHadamard(tr);
    EulerMeans(tr, q2, tr.pi / 2.0, 0.0, tr.pi, h);
    assert -(0.0 + tr.pi) / 2.0 == -tr.pi / 2.0;
    RccxMiddleMeans(tr, q0, q1, q2, m);
    DenoteConcat(tr, e, mid);
    DenoteConcat(tr, e + mid, e);
    EquivConcat(w, One, Denote(tr, e), [Mux(h, q2)], Denote(tr, mid), [Mux(m, q2)]);
    EquivConcat(Mul(w, One), w, Denote(tr, e) + Denote(tr, mid), [Mux(h, q2)] + [Mux(m, q2)],
                Denote(tr, e), [Mux(h, q2)]);
    MulOne(w);
    RccxPhases(tr);
    var fs, r := [h, m, h], SimplifiedToffoli(q0, q1);
    forall s: Basis ensures Product(fs, s) == ScaledBy(One, r(s)) {
      ProductThree(h, m, h, s);
      RccxSandwich(tr, q0 in s, q1 in s);
      ScaledOne(r(s));
    }
    RunIs(One, fs, r, q2);
    assert [Mux(h, q2)] + [Mux(m, q2)] + [Mux(h, q2)] == OnTarget(fs, q2);
    MulOne(MinusOne);
    Chain(MinusOne, One, MinusOne, Denote(tr, e + mid + e), OnTarget(fs, q2), [Mux(r, q2)]);
  }

  lemma RccxPhases(tr: Trig)
    requires tr.Lawful()
    ensures var w := tr.Phase(-tr.pi / 2.0); Mul(w, w) == MinusOne
    ensures tr.Phase(tr.pi) == MinusOne
  {
    PhaseLandmarks(tr);
  }

  /** The phase by which rccx differs from the Toffoli gate, a function of the basis state alone. */
  function ToffoliPhase(q0: nat, q1: nat, q2: nat, s: Basis): Complex {
    if q0 !in s then One
    else if q1 !in s then if q2 in s then MinusOne else One
    else if q2 in s then Imag else Complex(0.0, -1.0)
  }

  /** rccx is a Toffoli gate up to a unit phase that depends only on the basis state. */
  lemma RccxIsToffoli(q0: nat, q1: nat, q2: nat, psi: State, s: Basis)
    requires q0 != q2 && q1 != q2
    ensures Effect([Mux(SimplifiedToffoli(q0, q1), q2)], psi)(s)
         == Mul(ToffoliPhase(q0, q1, q2, s), Effect([Mux(Controlled({q0, q1}, MatX), q2)], psi)(s))
    ensures Unit(ToffoliPhase(q0, q1, q2, s))
  {
    hide Effect, Mul, Off, On;
    EffectOne(Mux(SimplifiedToffoli(q0, q1), q2), psi);
    EffectOne(Mux(Controlled({q0, q1}, MatX), q2), psi);
    var lo := Off(s, q2);
    assert q0 in lo <==> q0 in s by { OffKeeps(s, q2, q0); }
    assert q1 in lo <==> q1 in s by { OffKeeps(s, q2, q1); }
    assert {q0, q1} <= lo <==> q0 in s && q1 in s;
    var p, q := psi(lo), psi(On(s, q2));
    RowsOf(p, q);
  }

  lemma OffKeeps(s: Basis, t: nat, q: nat)
    requires q != t
    ensures q in Off(s, t) <==> q in s
  {
  }

  lemma RowsOf(p: Complex, q: Complex)
    ensures Dot(One, p, Zero, q) == Mul(One, p) && Dot(Zero, p, One, q) == Mul(One, q) == q && Mul(One, p) == p
    ensures Dot(Zero, p, MinusOne, q) == Mul(MinusOne, q)
    ensures Dot(Zero, p, Complex(0.0, -1.0), q) == Mul(Complex(0.0, -1.0), q)
    ensures Dot(Imag, p, Zero, q) == Mul(Imag, p)
  {
  }

  // ---- rxx ----

  /** U(pi/2, phi, lam) as a Hadamard gate between two phases. */
  lemma U2Factors(tr: Trig, phi: real, lam: real)
    requires tr.Lawful()
    ensures MatU3(tr, tr.pi / 2.0, phi, lam)
         == Times(Straight(tr, 0.0, phi), Times(MatH(tr), Straight(tr, 0.0, lam + tr.pi)))
  {
    hide tr.Lawful, Mul, Times, Trig.Phase;
    RootSquare(tr);
    PhaseLandmarks(tr);
    assert tr.pi / 2.0 / 2.0 == tr.pi / 4.0;
    var h, l := tr.Root(), tr.Phase(lam + tr.pi);
    DiagonalSides(tr.Phase(0.0), tr.Phase(phi), MatH(tr), tr.Phase(0.0), l);
    MulOne(One);
    MulOne(h);
    MulOne(tr.Phase(phi));
    MulOne(l);
    PhaseSum(tr, lam, tr.pi);
    PhaseSum(tr, phi, lam);
    MulComm(tr.Phase(lam), MinusOne);
    MulAssoc(MinusOne, tr.Phase(lam), h);
    var f := tr.Phase(phi);
    MulSwap(f, MinusOne, tr.Phase(lam));
    MulAssoc(MinusOne, tr.Phase(phi + lam), Mul(MinusOne, h));
    MulSwap(tr.Phase(phi + lam), MinusOne, h);
    MinusTwice(Mul(tr.Phase(phi + lam), h));
  }

  lemma MinusTwice(x: Complex)
    ensures Mul(MinusOne, Mul(MinusOne, x)) == x
  {
  }

  /** Z on both sides of a rotation about X turns it the other way. */
  lemma RxBetweenZ(tr: Trig, angle: real)
    requires tr.Lawful()
    ensures Times(MatZ, Times(MatRx(tr, angle), MatZ)) == MatRx(tr, -angle)
  {
    hide tr.Lawful;
    NegativeAngle(tr, angle / 2.0);
    assert -angle / 2.0 == -(angle / 2.0);
  }

  lemma RxxMatrices(tr: Trig, angle: real, between: real)
    requires tr.Lawful()
    ensures Times(MatU3(tr, tr.pi / 2.0, -tr.pi, tr.pi - angle),
                  Times(MatRz(tr, between), MatU3(tr, tr.pi / 2.0, angle, 0.0))) == MatRx(tr, -between)
  {
    hide Times, MatH, MatU3, MatRx, MatRz, tr.Lawful, Straight;
    var h, z, x := MatH(tr), MatZ, between / 2.0;
    var left, mid, right := Straight(tr, 0.0, tr.pi - angle + tr.pi), MatRz(tr, between), Straight(tr, 0.0, angle);
    U2Factors(tr, -tr.pi, tr.pi - angle);
    U2Factors(tr, angle, 0.0);
    MinusPi(tr);
    NamedPhases(tr, between);
    assert -between / 2.0 == -x && 0.0 + tr.pi == tr.pi;
    InnerPhases(tr, angle, x);
    TimesFive(z, h, left, mid, right, Times(h, z));
    TimesAssoc(h, mid, Times(h, z));
    HadamardAround(tr, between, z);
    RxBetweenZ(tr, between);
  }

  lemma MinusPi(tr: Trig)
    requires tr.Lawful()
    ensures Straight(tr, 0.0, -tr.pi) == MatZ == Straight(tr, 0.0, tr.pi)
  {
    hide tr.Lawful;
    PiLaw(tr);
    NegativeAngle(tr, tr.pi);
    PhaseLandmarks(tr);
  }

  lemma InnerPhases(tr: Trig, angle: real, x: real)
    requires tr.Lawful()
    ensures Times(Straight(tr, 0.0, tr.pi - angle + tr.pi), Times(Straight(tr, -x, x), Straight(tr, 0.0, angle)))
         == Straight(tr, -x, x)
  {
    hide Times, tr.Lawful, Trig.Phase, Mul;
    StraightStraight(tr, -x, x, 0.0, angle);
    StraightStraight(tr, 0.0, tr.pi - angle + tr.pi, -x + 0.0, x + angle);
    PhaseSum(tr, x, tr.pi);
    PhaseSum(tr, x + tr.pi, tr.pi);
    PhaseLandmarks(tr);
    MulComm(tr.Phase(x), MinusOne);
    MulComm(tr.Phase(x + tr.pi), MinusOne);
    MinusTwice(tr.Phase(x));
    assert tr.pi - angle + tr.pi + (x + angle) == x + tr.pi + tr.pi;
  }

  lemma TimesFive(z: Matrix, h: Matrix, left: Matrix, mid: Matrix, right: Matrix, last: Matrix)
    ensures Times(Times(z, Times(h, left)), Times(mid, Times(right, last)))
         == Times(z, Times(h, Times(Times(left, Times(mid, right)), last)))
  {
    hide Times;
    TimesAssoc(z, Times(h, left), Times(mid, Times(right, last)));
    TimesAssoc(h, left, Times(mid, Times(right, last)));
    TimesAssoc(mid, right, last);
    TimesAssoc(left, Times(mid, right), last);
  }

  lemma HadamardAround(tr: Trig, between: real, z: Matrix)
    requires tr.Lawful()
    ensures Times(MatH(tr), Times(MatRz(tr, between), Times(MatH(tr), z))) == Times(MatRx(tr, between), z)
  {
    hide Times, MatH, MatRz, MatRx, tr.Lawful;
    var h, m := MatH(tr), MatRz(tr, between);
    HadamardRz(tr, between);
    TimesAssoc(m, h, z);
    TimesAssoc(h, Times(m, h), z);
  }

  /** The diagonal middle of rxx, seen from the other qubit. */
  lemma RzzSymmetric(tr: Trig, angle: real, a: nat, b: nat, f: Family, g: Family)
    requires a != b
    requires forall s: Basis :: f(s) == MatRz(tr, if a in s then -angle else angle)
    requires forall s: Basis :: g(s) == MatRz(tr, if b in s then -angle else angle)
    ensures Equiv(One, [Mux(f, b)], [Mux(g, a)])
  {
    hide Equiv, Trig.Phase;
    assert -(-angle) / 2.0 == angle / 2.0;
    forall s: Basis | a !in s ensures g(s) == Diag(DiagEntry(f, b, s), DiagEntry(f, b, Blocks.On(s, a))) {
      assert b in s <==> b in Blocks.On(s, a);
      assert a !in Off(s, b) && a in Off(Blocks.On(s, a), b);
    }
    Retarget(f, b, g, a);
  }

  /** The operations of rxx on qubit a, with the diagonal middle brought over to a. */
  lemma RxxOnA(tr: Trig, angle: real, a: nat, b: nat, z: Family, u: Family)
    requires tr.Lawful() && a != b
    requires forall s: Basis :: z(s) == MatRz(tr, if b in s then angle else -angle)
    requires forall s: Basis :: u(s) == MatU3(tr, tr.pi / 2.0, -tr.pi, tr.pi - angle)
    ensures var first := OneQubit(U3, false, [tr.pi / 2.0, angle, 0.0], a);
            Equiv(One, Denote(tr, [first]) + [Mux(z, a), Mux(u, a)], [Mux(SignedRotation(b, RxOf(tr), angle), a)])
  {
    hide Equiv, Product, ScaledBy, Times, tr.Lawful, MatU3, MatRx, MatRz, Controlled;
    var first := OneQubit(U3, false, [tr.pi / 2.0, angle, 0.0], a);
    var r, f := SignedRotation(b, RxOf(tr), angle), FamilyOf(tr, first);
    DenoteOne(tr, first);
    var fs := [f, z, u];
    assert Denote(tr, [first]) + [Mux(z, a), Mux(u, a)] == OnTarget(fs, a);
    forall s: Basis ensures Product(fs, s) == ScaledBy(One, r(s)) {
      ProductThree(f, z, u, s);
      BareAt(tr, first, s);
      RxxMatrices(tr, angle, if b in s then angle else -angle);
      ScaledOne(r(s));
      assert -(-angle) == angle;
    }
    RunIs(One, fs, r, a);
  }

  lemma HadamardBlock(tr: Trig, b: nat)
    ensures Equiv(One, Denote(tr, [OneQubit(H, false, [], b)]), [Mux(Everywhere(MatH(tr)), b)])
  {
    hide Equiv, ScaledBy, Controlled, MatH;
    var g := OneQubit(H, false, [], b);
    DenoteOne(tr, g);
    forall s: Basis ensures FamilyOf(tr, g)(s) == ScaledBy(One, Everywhere(MatH(tr))(s)) {
      BareAt(tr, g, s);
      ScaledOne(MatH(tr));
    }
    MuxScaled(One, FamilyOf(tr, g), Everywhere(MatH(tr)), b);
  }

  lemma RxxMeans(tr: Trig, angle: real, a: nat, b: nat)
    requires tr.Lawful() && a != b
    ensures Equiv(One, Denote(tr, RxxOps(tr.pi, false, angle, a, b)),
                  [Mux(Everywhere(MatH(tr)), b), Mux(SignedRotation(b, RxOf(tr), angle), a),
                      Mux(Everywhere(MatH(tr)), b)])
  {
    hide Equiv, tr.Lawful, MatU3, MatRz, MatH, Mul, Trig.Phase, Denote, SignedRotation, Everywhere;
    var u3, hb := OneQubit(U3, false, [tr.pi / 2.0, angle, 0.0], a), OneQubit(H, false, [], b);
    var mid, euler := RzzOps(false, -angle, a, b), EulerOps(false, a, tr.pi - angle, tr.pi / 2.0, -tr.pi);
    var z: Family := (s: Basis) => MatRz(tr, if b in s then angle else -angle);
    var u: Family := (s: Basis) => MatU3(tr, tr.pi / 2.0, -tr.pi, tr.pi - angle);
    var r, h := SignedRotation(b, RxOf(tr), angle), Everywhere(MatH(tr));
    RxxMiddle(tr, angle, a, b, z);
    EulerMeans(tr, a, tr.pi / 2.0, -tr.pi, tr.pi - angle, u);
    assert -(-tr.pi + (tr.pi - angle)) / 2.0 == angle / 2.0;
    var v, w := tr.Phase(-angle / 2.0), tr.Phase(angle / 2.0);
    assert Mul(v, w) == One by { PhaseSum(tr, -angle / 2.0, angle / 2.0); PhaseLandmarks(tr); }
    EquivConcat(v, w, Denote(tr, mid), [Mux(z, a)], Denote(tr, euler), [Mux(u, a)]);
    assert [Mux(z, a)] + [Mux(u, a)] == [Mux(z, a), Mux(u, a)];
    PassableCommutes(tr, u3, hb);
    HadamardBlock(tr, b);
    RxxOnA(tr, angle, a, b, z, u);
    RxxAssemble(tr, u3, hb, mid, euler, [Mux(z, a), Mux(u, a)], [Mux(r, a)], [Mux(h, b)]);
    assert [Mux(h, b)] + [Mux(r, a)] + [Mux(h, b)] == [Mux(h, b), Mux(r, a), Mux(h, b)];
  }

  lemma RxxMiddle(tr: Trig, angle: real, a: nat, b: nat, z: Family)
    requires tr.Lawful() && a != b
    requires forall s: Basis :: z(s) == MatRz(tr, if b in s then angle else -angle)
    ensures Equiv(tr.Phase(-angle / 2.0), Denote(tr, RzzOps(false, -angle, a, b)), [Mux(z, a)])
  {
    hide Equiv, tr.Lawful, MatRz, Mul, Trig.Phase, Denote, RzzOps;
    var f: Family := (s: Basis) => MatRz(tr, if a in s then -(-angle) else -angle);
    assert -(-angle) == angle;
    RzzMeans(tr, -angle, a, b, f);
    RzzSymmetric(tr, -angle, a, b, f, z);
    MulOne(tr.Phase(-angle / 2.0));
    Chain(tr.Phase(-angle / 2.0), One, tr.Phase(-angle / 2.0), Denote(tr, RzzOps(false, -angle, a, b)), [Mux(f, b)],
         [Mux(z, a)]);
  }

  /** Putting the pieces of rxx together: the Hadamard gate comes forward, the rest fuses on qubit a. */
  lemma RxxAssemble(tr: Trig, u3: Gate, hb: Gate, mid: seq<Gate>, euler: seq<Gate>, zu: seq<Block>, r: seq<Block>,
      h: seq<Block>)
    requires Means(tr, One, [u3, hb], [hb, u3])
    requires Equiv(One, Denote(tr, mid) + Denote(tr, euler), zu)
    requires Equiv(One, Denote(tr, [u3]) + zu, r)
    requires Equiv(One, Denote(tr, [hb]), h)
    ensures Equiv(One, Denote(tr, [u3, hb] + mid + euler + [hb]), h + r + h)
  {
    hide Equiv, Denote, Mul;
    var tail := Denote(tr, [hb]);
    DenoteConcat(tr, [u3, hb], mid);
    DenoteConcat(tr, [u3, hb] + mid, euler);
    DenoteConcat(tr, [u3, hb] + mid + euler, [hb]);
    DenoteConcat(tr, [hb], [u3]);
    assert [hb] + [u3] == [hb, u3];
    var body := Denote(tr, mid) + Denote(tr, euler);
    MulOne(One);
    EquivConcat(One, One, Denote(tr, [u3, hb]), Denote(tr, [hb, u3]), body, zu);
    EquivInside(One, Denote(tr, [hb]), Denote(tr, [u3]) + zu, r, []);
    assert Denote(tr, [hb]) + (Denote(tr, [u3]) + zu) + [] == Denote(tr, [hb, u3]) + zu;
    assert Denote(tr, [hb]) + r + [] == Denote(tr, [hb]) + r;
    Chain(One, One, One, Denote(tr, [u3, hb]) + body, Denote(tr, [hb, u3]) + zu, Denote(tr, [hb]) + r);
    EquivInside(One, [], Denote(tr, [hb]), h, r);
    assert [] + Denote(tr, [hb]) + r == Denote(tr, [hb]) + r && [] + h + r == h + r;
    Chain(One, One, One, Denote(tr, [u3, hb]) + body, Denote(tr, [hb]) + r, h + r);
    EquivConcat(One, One, Denote(tr, [u3, hb]) + body, h + r, tail, h);
    assert Denote(tr, [u3, hb] + mid + euler + [hb]) == Denote(tr, [u3, hb]) + body + tail;
  }

  // ---- rxx on amplitudes ----

  /** The Hadamard matrix undoes itself on a pair of amplitudes. */
  lemma HadamardPair(h: Complex, p: Complex, q: Complex)
    requires Mul(h, h) == Complex(0.5, 0.0) && h.im == 0.0
    ensures var u, v := Dot(h, p, h, q), Dot(h, p, Mul(MinusOne, h), q);
            var v' := Mul(MinusOne, v);
            && Dot(h, u, h, v) == p && Dot(h, u, Mul(MinusOne, h), v) == q
            && Dot(h, u, h, v') == q && Dot(h, u, Mul(MinusOne, h), v') == p
  {
    hide Mul, Dot;
    var x := h.re;
    var u, v := Dot(h, p, h, q), Dot(h, p, Mul(MinusOne, h), q);
    Negate(h);
    Negate(v);
    RealMul(x, x);
    DotReal(x, p, x, q);
    DotReal(x, p, -x, q);
    DotReal(x, u, x, v);
    DotReal(x, u, -x, v);
    DotReal(x, u, x, Mul(MinusOne, v));
    DotReal(x, u, -x, Mul(MinusOne, v));
    HalfPair(x, p.re, q.re);
    HalfPair(x, p.im, q.im);
  }

  lemma DotReal(x: real, p: Complex, y: real, q: Complex)
    ensures Dot(Complex(x, 0.0), p, Complex(y, 0.0), q) == Complex(x * p.re + y * q.re, x * p.im + y * q.im)
  {
  }

  lemma HalfPair(x: real, p: real, q: real)
    requires x * x == 0.5
    ensures var u, v := x * p + x * q, x * p + -x * q;
            && x * u + x * v == p && x * u + -x * v == q && x * u + x * -v == q && x * u + -x * -v == p
  {
    assert x * (x * p) == 0.5 * p && x * (x * q) == 0.5 * q;
  }

  /** H on one bit, a signed rotation on the other, H on the first: the four amplitudes. */
  lemma Butterfly(h: Complex, c: Complex, s: Complex, p0: Complex, p1: Complex, q0: Complex, q1: Complex)
    requires Mul(h, h) == Complex(0.5, 0.0) && h.im == 0.0
    ensures var n, m := Mul(MinusOne, h), Mul(MinusOne, s);
            var u0, u1, v0, v1 := Dot(h, p0, h, p1), Dot(h, p0, n, p1), Dot(h, q0, h, q1), Dot(h, q0, n, q1);
            var x0, x1, y0, y1 := Dot(c, u0, s, v0), Dot(c, u1, m, v1), Dot(s, u0, c, v0), Dot(m, u1, c, v1);
            && Dot(h, x0, h, x1) == Dot(c, p0, s, q1) && Dot(h, x0, n, x1) == Dot(c, p1, s, q0)
            && Dot(h, y0, h, y1) == Dot(s, p1, c, q0) && Dot(h, y0, n, y1) == Dot(s, p0, c, q1)
  {
    hide Mul, Add;
    var n := Mul(MinusOne, h);
    var u0, u1, v0, v1 := Dot(h, p0, h, p1), Dot(h, p0, n, p1), Dot(h, q0, h, q1), Dot(h, q0, n, q1);
    var u1', v1' := Mul(MinusOne, u1), Mul(MinusOne, v1);
    HadamardPair(h, p0, p1);
    HadamardPair(h, q0, q1);
    MoveSign(s, u1);
    MoveSign(s, v1);
    DotExchange(h, h, c, s, u0, v0, u1, v1');
    DotExchange(h, n, c, s, u0, v0, u1, v1');
    DotExchange(h, h, s, c, u0, v0, u1', v1);
    DotExchange(h, n, s, c, u0, v0, u1', v1);
  }

  lemma MoveSign(s: Complex, v: Complex)
    ensures Mul(Mul(MinusOne, s), v) == Mul(s, Mul(MinusOne, v))
  {
    hide Mul;
    MulAssoc(MinusOne, s, v);
    MulSwap(MinusOne, s, v);
  }

  /** rxx(angle) is cos(angle/2) - i sin(angle/2) times the flip of both qubits. */
  lemma RxxAmplitude(tr: Trig, angle: real, a: nat, b: nat, psi: State, s: Basis)
    requires tr.Lawful() && a != b
    ensures Effect([Mux(Everywhere(MatH(tr)), b), Mux(SignedRotation(b, RxOf(tr), angle), a),
        Mux(Everywhere(MatH(tr)), b)],
                   psi)(s)
         == Dot(tr.HalfCos(angle), psi(s), Mul(Complex(0.0, -1.0), tr.HalfSin(angle)), psi(Toggle(Toggle(s, a), b)))
  {
    hide tr.Lawful, Effect, Mul, Add, Dot, MuxAmp, Off, On, Toggle;
    var h, f := Mux(Everywhere(MatH(tr)), b), Mux(SignedRotation(b, RxOf(tr), angle), a);
    EffectConcat([h, f], [h], psi);
    assert [h, f] + [h] == [h, f, h];
    EffectTwo(h, f, psi);
    EffectOne(h, Step(f, Step(h, psi)));
    var c := Off(Off(s, a), b);
    Corners(s, a, b);
    RxxCorners(tr, angle, a, b, psi, c);
    DotComm(tr.HalfCos(angle), psi(On(c, a)), Mul(Complex(0.0, -1.0), tr.HalfSin(angle)), psi(On(c, b)));
    DotComm(tr.HalfCos(angle), psi(On(On(c, a), b)), Mul(Complex(0.0, -1.0), tr.HalfSin(angle)), psi(c));
  }

  lemma DotComm(x: Complex, p: Complex, y: Complex, q: Complex)
    ensures Dot(x, p, y, q) == Dot(y, q, x, p)
  {
  }

  /** A basis state is one of the four that agree with it away from two qubits. */
  lemma Corners(s: Basis, a: nat, b: nat)
    requires a != b
    ensures var c := Off(Off(s, a), b);
            var ca, cb, cab := On(c, a), On(c, b), On(On(c, a), b);
            && a !in c && b !in c
            && s == (if a in s then if b in s then cab else ca else if b in s then cb else c)
            && Toggle(Toggle(s, a), b) == (if a in s then if b in s then c else cb else if b in s then ca else cab)
  {
  }

  lemma RxxCorners(tr: Trig, angle: real, a: nat, b: nat, psi: State, c: Basis)
    requires tr.Lawful() && a != b && a !in c && b !in c
    ensures var h, f := Mux(Everywhere(MatH(tr)), b), Mux(SignedRotation(b, RxOf(tr), angle), a);
            var out := Step(h, Step(f, Step(h, psi)));
            var ca, cb, cab := On(c, a), On(c, b), On(On(c, a), b);
            var k, l := tr.HalfCos(angle), Mul(Complex(0.0, -1.0), tr.HalfSin(angle));
            && out(c) == Dot(k, psi(c), l, psi(cab)) && out(cb) == Dot(k, psi(cb), l, psi(ca))
            && out(ca) == Dot(l, psi(cb), k, psi(ca)) && out(cab) == Dot(l, psi(c), k, psi(cab))
  {
    hide tr.Lawful, Mul, Dot, MuxAmp, On;
    var ca, cb := On(c, a), On(c, b);
    var e, r := Everywhere(MatH(tr)), SignedRotation(b, RxOf(tr), angle);
    var phi := Step(Mux(e, b), psi);
    var chi := Step(Mux(r, a), phi);
    OnBoth(c, a, b);
    MuxAt(e, b, psi, c);
    MuxAt(e, b, psi, ca);
    MuxAt(r, a, phi, c);
    MuxAt(r, a, phi, cb);
    MuxAt(e, b, chi, c);
    MuxAt(e, b, chi, ca);
    NegativeRx(tr, angle);
    assert Mul(tr.Root(), tr.Root()) == Complex(0.5, 0.0) by { RootSquare(tr); RealMul(tr.cos(tr.pi / 4.0),
        tr.cos(tr.pi / 4.0)); }
    Butterfly(tr.Root(), tr.HalfCos(angle), Mul(Complex(0.0, -1.0), tr.HalfSin(angle)), psi(c), psi(cb), psi(ca),
         psi(On(ca, b)));
  }

  lemma OnBoth(c: Basis, a: nat, b: nat)
    requires a != b && a !in c && b !in c
    ensures On(On(c, b), a) == On(On(c, a), b) && b !in On(c, a) && a !in On(c, b) && b in On(c, b)
  {
  }

  lemma NegativeRx(tr: Trig, angle: real)
    requires tr.Lawful()
    ensures var k, l := tr.HalfCos(angle), Mul(Complex(0.0, -1.0), tr.HalfSin(angle));
            MatRx(tr, -angle) == Matrix(k, Mul(MinusOne, l), Mul(MinusOne, l), k)
  {
    hide tr.Lawful;
    NegativeAngle(tr, angle / 2.0);
    assert -angle / 2.0 == -(angle / 2.0);
  }
}
