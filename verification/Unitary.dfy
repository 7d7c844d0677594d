/** Every gate can be undone: its matrix is unitary, the adjoint flag turns it into the inverse, and a
    circuit is undone by the adjoint gates in reverse order. */
module Unitary {
  import opened Amplitudes
  import opened Blocks
  import opened Gates
  import opened LocalRules
  import opened Angles
  import opened Phases

  predicate UnitaryMatrix(m: Matrix) {
    Times(Dagger(m), m) == Identity == Times(m, Dagger(m))
  }

  // ---- Matrices ----

  lemma ConjMul(x: Complex, y: Complex)
    ensures Conj(Mul(x, y)) == Mul(Conj(x), Conj(y))
  {
  }

  lemma ConjDot(x: Complex, p: Complex, y: Complex, q: Complex)
    ensures Conj(Dot(x, p, y, q)) == Dot(Conj(p), Conj(x), Conj(q), Conj(y))
  {
    hide Mul;
    ConjMul(x, p);
    ConjMul(y, q);
    MulComm(Conj(x), Conj(p));
    MulComm(Conj(y), Conj(q));
  }

  lemma DaggerTimes(m: Matrix, n: Matrix)
    ensures Dagger(Times(m, n)) == Times(Dagger(n), Dagger(m))
  {
    hide Dot, Conj;
    ConjDot(m.a, n.a, m.b, n.c);
    ConjDot(m.a, n.b, m.b, n.d);
    ConjDot(m.c, n.a, m.d, n.c);
    ConjDot(m.c, n.b, m.d, n.d);
  }

  lemma DaggerTwice(m: Matrix)
    ensures Dagger(Dagger(m)) == m
  {
  }

  lemma UnitaryProduct(m: Matrix, n: Matrix)
    requires UnitaryMatrix(m) && UnitaryMatrix(n)
    ensures UnitaryMatrix(Times(m, n))
  {
    hide Times, Dagger;
    DaggerTimes(m, n);
    var m', n' := Dagger(m), Dagger(n);
    TimesAssoc(n', m', Times(m, n));
    TimesAssoc(m', m, n);
    TimesAssoc(m, n, Times(n', m'));
    TimesAssoc(n, n', m');
    TimesIdentity(n);
    TimesIdentity(m');
  }

  lemma DaggerStraight(tr: Trig, x: real, y: real)
    requires tr.Lawful()
    ensures Dagger(Straight(tr, x, y)) == Straight(tr, -x, -y)
  {
    hide tr.Lawful;
    NegativeAngle(tr, x);
    NegativeAngle(tr, y);
  }

  lemma StraightUnitary(tr: Trig, x: real, y: real)
    requires tr.Lawful()
    ensures UnitaryMatrix(Straight(tr, x, y))
  {
    hide tr.Lawful, Times, Straight, Dagger;
    DaggerStraight(tr, x, y);
    StraightStraight(tr, x, y, -x, -y);
    StraightStraight(tr, -x, -y, x, y);
    NamedPhases(tr, 0.0);
  }

  /** The rotation matrix of an angle with cosine c and sine s. */
  lemma TurnUnitary(c: real, s: real)
    requires c * c + s * s == 1.0
    ensures UnitaryMatrix(Matrix(Complex(c, 0.0), Complex(-s, 0.0), Complex(s, 0.0), Complex(c, 0.0)))
  {
    hide Mul;
    RealMul(c, c);
    RealMul(s, s);
    RealMul(-s, -s);
    RealMul(c, s);
    RealMul(s, c);
    RealMul(c, -s);
    RealMul(-s, c);
  }

  lemma RyUnitary(tr: Trig, a: real)
    requires tr.Lawful()
    ensures UnitaryMatrix(MatRy(tr, a))
  {
    hide tr.Lawful, UnitaryMatrix, Mul;
    UnitAt(tr, a / 2.0);
    Negate(tr.HalfSin(a));
    TurnUnitary(tr.cos(a / 2.0), tr.sin(a / 2.0));
  }

  lemma HadamardUnitary(tr: Trig)
    requires tr.Lawful()
    ensures UnitaryMatrix(MatH(tr)) && Dagger(MatH(tr)) == MatH(tr)
  {
    hide tr.Lawful, Times;
    HadamardSquare(tr);
  }

  lemma RxUnitary(tr: Trig, a: real)
    requires tr.Lawful()
    ensures UnitaryMatrix(MatRx(tr, a))
  {
    hide tr.Lawful, UnitaryMatrix, Times, MatH, MatRx, Straight;
    HadamardRz(tr, a);
    NamedPhases(tr, a);
    StraightUnitary(tr, -a / 2.0, a / 2.0);
    HadamardUnitary(tr);
    UnitaryProduct(MatRz(tr, a), MatH(tr));
    UnitaryProduct(MatH(tr), Times(MatRz(tr, a), MatH(tr)));
  }

  /** U3 and the phased rotation are a rotation between two phases. */
  lemma U3Sides(tr: Trig, theta: real, phi: real, lam: real)
    requires tr.Lawful()
    ensures MatU3(tr, theta, phi, lam)
         == Times(Straight(tr, 0.0, phi), Times(MatRy(tr, theta), Straight(tr, 0.0, lam)))
  {
    hide tr.Lawful, Mul, Times, Trig.Phase, Trig.HalfCos, Trig.HalfSin;
    PhaseLandmarks(tr);
    var c, s := tr.HalfCos(theta), tr.HalfSin(theta);
    DiagonalSides(tr.Phase(0.0), tr.Phase(phi), MatRy(tr, theta), tr.Phase(0.0), tr.Phase(lam));
    PhaseSum(tr, phi, lam);
    MulOne(One);
    MulOne(c);
    MulOne(tr.Phase(phi));
    MulOne(tr.Phase(lam));
    MulSwap(tr.Phase(lam), MinusOne, s);
  }

  lemma PhasedRxSides(tr: Trig, theta: real, phi: real)
    requires tr.Lawful()
    ensures MatPhasedRx(tr, theta, phi)
         == Times(Straight(tr, 0.0, phi), Times(MatRx(tr, theta), Straight(tr, 0.0, -phi)))
  {
    hide tr.Lawful, Mul, Times, Trig.Phase, Trig.HalfCos, Trig.HalfSin;
    PhaseLandmarks(tr);
    DiagonalSides(tr.Phase(0.0), tr.Phase(phi), MatRx(tr, theta), tr.Phase(0.0), tr.Phase(-phi));
    PhaseSum(tr, phi, -phi);
    MulOne(One);
    MulOne(tr.HalfCos(theta));
    MulOne(tr.Phase(phi));
    MulOne(tr.Phase(-phi));
    assert phi + -phi == 0.0;
  }

  lemma SidesUnitary(tr: Trig, m: Matrix, x: real, y: real)
    requires tr.Lawful() && UnitaryMatrix(m)
    ensures UnitaryMatrix(Times(Straight(tr, 0.0, x), Times(m, Straight(tr, 0.0, y))))
  {
    hide tr.Lawful, UnitaryMatrix, Times, Straight;
    StraightUnitary(tr, 0.0, x);
    StraightUnitary(tr, 0.0, y);
    UnitaryProduct(m, Straight(tr, 0.0, y));
    UnitaryProduct(Straight(tr, 0.0, x), Times(m, Straight(tr, 0.0, y)));
  }

  lemma PauliUnitary()
    ensures UnitaryMatrix(MatX) && UnitaryMatrix(MatY)
  {
    hide Times;
    XSquare();
    YSquare();
    assert Dagger(MatX) == MatX && Dagger(MatY) == MatY;
  }

  lemma {:induction false} DiagonalUnitary(tr: Trig, k: Kind, params: seq<real>)
    requires tr.Lawful() && |params| == ParamCount(k) && k in {Z, S, T, Rz, R1}
    ensures UnitaryMatrix(MatrixOf(tr, k, params))
  {
    hide tr.Lawful, UnitaryMatrix, Trig.Phase;
    PhaseLandmarks(tr);
    if k == Rz {
      StraightUnitary(tr, -params[0] / 2.0, params[0] / 2.0);
    } else if k == R1 {
      StraightUnitary(tr, 0.0, params[0]);
    } else {
      StraightUnitary(tr, 0.0, if k == Z then tr.pi else if k == S then tr.pi / 2.0 else tr.pi / 4.0);
    }
  }

  lemma SidedUnitary(tr: Trig, theta: real, phi: real, lam: real)
    requires tr.Lawful()
    ensures UnitaryMatrix(MatU3(tr, theta, phi, lam)) && UnitaryMatrix(MatPhasedRx(tr, theta, phi))
  {
    hide tr.Lawful, UnitaryMatrix, Times, Straight, MatRx, MatRy, MatU3, MatPhasedRx;
    RyUnitary(tr, theta);
    U3Sides(tr, theta, phi, lam);
    SidesUnitary(tr, MatRy(tr, theta), phi, lam);
    RxUnitary(tr, theta);
    PhasedRxSides(tr, theta, phi);
    SidesUnitary(tr, MatRx(tr, theta), phi, -phi);
  }

  /** The matrix of every gate kind is unitary. */
  lemma {:induction false} KindUnitary(tr: Trig, k: Kind, params: seq<real>)
    requires tr.Lawful() && |params| == ParamCount(k) && !k.Swap?
    ensures UnitaryMatrix(MatrixOf(tr, k, params))
  {
    hide tr.Lawful, UnitaryMatrix, MatRx, MatRy, MatRz, MatU3, MatPhasedRx, MatH, Diag;
    if k in {Z, S, T, Rz, R1} {
      DiagonalUnitary(tr, k, params);
    } else if k == X || k == Y {
      PauliUnitary();
    } else if k == H {
      HadamardUnitary(tr);
    } else if k == Rx {
      RxUnitary(tr, params[0]);
    } else if k == Ry {
      RyUnitary(tr, params[0]);
    } else if k == PhasedRx {
      SidedUnitary(tr, params[0], params[1], 0.0);
    } else if k == U2 {
      SidedUnitary(tr, tr.pi / 2.0, params[0], params[1]);
    } else {
      SidedUnitary(tr, params[0], params[1], params[2]);
    }
  }

  // ---- Gates and circuits ----

  /** The same gate with its adjoint flag turned over. */
  function Adjoint(g: Gate): Gate {
    Operation(g.kind, !g.adj, g.params, g.controls, g.targets)
  }

  lemma AdjointMatrix(tr: Trig, g: Gate)
    requires tr.Lawful() && !g.kind.Swap?
    ensures GateMatrix(tr, Adjoint(g)) == Dagger(GateMatrix(tr, g))
    ensures UnitaryMatrix(GateMatrix(tr, g))
  {
    hide tr.Lawful, Times, MatrixOf, Dagger;
    assert g.WellFormed();
    KindUnitary(tr, g.kind, g.params);
    DaggerTwice(MatrixOf(tr, g.kind, g.params));
  }

  /** The adjoint flag inverts every gate, in both orders. */
  lemma {:induction false} AdjointUndoes(tr: Trig, g: Gate)
    requires tr.Lawful()
    ensures Means(tr, One, [g, Adjoint(g)], []) && Means(tr, One, [Adjoint(g), g], [])
  {
    hide tr.Lawful, Times, GateMatrix, Dagger, Equiv;
    if g.kind.Swap? {
      OperandsApart(g);
      ExchangeTwice(Wires(g.controls), g.targets[0], g.targets[1]);
      DenoteTwo(tr, g, Adjoint(g));
      DenoteTwo(tr, Adjoint(g), g);
      DenoteNone(tr);
    } else {
      AdjointMatrix(tr, g);
      InversePair(tr, g, Adjoint(g));
      InversePair(tr, Adjoint(g), g);
    }
  }

  /** The adjoint gates in reverse order. */
  function Undo(gs: seq<Gate>): seq<Gate> {
    if gs == [] then [] else Undo(gs[1..]) + [Adjoint(gs[0])]
  }

  lemma {:induction false} UndoAfter(tr: Trig, gs: seq<Gate>)
    requires tr.Lawful()
    ensures Means(tr, One, gs + Undo(gs), [])
    decreases |gs|
  {
    hide Means, tr.Lawful, Adjoint, Operation.WellFormed;
    if gs == [] {
      MeansRefl(tr, []);
    } else {
      var g, rest := gs[0], gs[1..];
      UndoAfter(tr, rest);
      MeansInside(tr, One, [g], rest + Undo(rest), [], [Adjoint(g)]);
      assert [g] + (rest + Undo(rest)) + [Adjoint(g)] == gs + Undo(gs);
      assert [g] + [] + [Adjoint(g)] == [g, Adjoint(g)];
      AdjointUndoes(tr, g);
      MeansChain(tr, gs + Undo(gs), [g, Adjoint(g)], []);
    }
  }

  lemma {:induction false} UndoBefore(tr: Trig, gs: seq<Gate>)
    requires tr.Lawful()
    ensures Means(tr, One, Undo(gs) + gs, [])
    decreases |gs|
  {
    hide Means, tr.Lawful, Adjoint, Operation.WellFormed;
    if gs == [] {
      MeansRefl(tr, []);
    } else {
      var g, rest := gs[0], gs[1..];
      UndoBefore(tr, rest);
      AdjointUndoes(tr, g);
      MeansInside(tr, One, Undo(rest), [Adjoint(g), g], [], rest);
      assert Undo(rest) + [Adjoint(g), g] + rest == Undo(gs) + gs;
      assert Undo(rest) + [] + rest == Undo(rest) + rest;
      MeansChain(tr, Undo(gs) + gs, Undo(rest) + rest, []);
    }
  }

  lemma {:induction false} Strip(tr: Trig, pre: seq<Gate>, xs: seq<Gate>, post: seq<Gate>)
    requires tr.Lawful()
    ensures Means(tr, One, Undo(pre) + (pre + xs + post) + Undo(post), xs)
  {
    hide Means, tr.Lawful, Undo;
    UndoBefore(tr, pre);
    UndoAfter(tr, post);
    MeansInside(tr, One, [], Undo(pre) + pre, [], xs + (post + Undo(post)));
    MeansInside(tr, One, xs, post + Undo(post), [], []);
    assert [] + (Undo(pre) + pre) + (xs + (post + Undo(post))) == Undo(pre) + (pre + xs + post) + Undo(post);
    assert [] + [] + (xs + (post + Undo(post))) == xs + (post + Undo(post)) + [] && xs + [] + [] == xs;
    MeansChain(tr, Undo(pre) + (pre + xs + post) + Undo(post), xs + (post + Undo(post)) + [], xs);
  }

  /** Two circuits that agree between the same surroundings agree. */
  lemma {:induction false} OnlyInside(tr: Trig, w: Complex, pre: seq<Gate>, xs: seq<Gate>, ys: seq<Gate>,
      post: seq<Gate>)
    requires tr.Lawful()
    ensures Means(tr, w, pre + xs + post, pre + ys + post) <==> Means(tr, w, xs, ys)
  {
    hide Means, tr.Lawful, Undo, Mul;
    if Means(tr, w, xs, ys) {
      MeansInside(tr, w, pre, xs, ys, post);
    }
    if Means(tr, w, pre + xs + post, pre + ys + post) {
      var u, v := Undo(pre), Undo(post);
      MeansInside(tr, w, u, pre + xs + post, pre + ys + post, v);
      Strip(tr, pre, xs, post);
      Strip(tr, pre, ys, post);
      MeansSym(tr, u + (pre + xs + post) + v, xs);
      MeansTrans(tr, One, w, xs, u + (pre + xs + post) + v, u + (pre + ys + post) + v);
      MeansTrans(tr, Mul(One, w), One, xs, u + (pre + ys + post) + v, ys);
      MulOne(w);
      MulOne(Mul(One, w));
    }
  }
}
