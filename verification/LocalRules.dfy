/** The matrix identities behind the rewrites, and the rewrites on adjacent gates. */
module LocalRules {
  import opened Amplitudes
  import opened Blocks
  import opened Gates

  // ---- Matrices ----

  lemma RootSquare(tr: Trig)
    requires tr.Lawful()
    ensures tr.cos(tr.pi / 4.0) * tr.cos(tr.pi / 4.0) == 0.5
    ensures tr.sin(tr.pi / 4.0) == tr.cos(tr.pi / 4.0)
  {
    var q := tr.pi / 4.0;
    assert tr.SumLaw(q, q) && tr.UnitLaw(q);
    assert q + q == tr.pi / 2.0;
    var c, s := tr.cos(q), tr.sin(q);
    assert c * c == 0.5 && s * c == 0.5;
    assert (s - c) * c == 0.0;
    Cancel(s - c, c);
  }

  lemma Cancel(x: real, y: real)
    requires x * y == 0.0 && y != 0.0
    ensures x == 0.0
  {
  }

  lemma HadamardSquare(tr: Trig)
    requires tr.Lawful()
    ensures Times(MatH(tr), MatH(tr)) == Identity
  {
    hide Mul, tr.Lawful;
    RootSquare(tr);
    var h := tr.Root();
    var n := Mul(MinusOne, h);
    assert Mul(h, h) == Complex(0.5, 0.0) == Mul(n, n) by { RealMul(h.re, h.re); Negate(h); RealMul(-h.re, -h.re); }
    assert Mul(h, n) == Complex(-0.5, 0.0) == Mul(n, h) by { Negate(h); RealMul(h.re, -h.re); RealMul(-h.re, h.re); }
  }

  lemma RealMul(x: real, y: real)
    ensures Mul(Complex(x, 0.0), Complex(y, 0.0)) == Complex(x * y, 0.0)
  {
  }

  lemma Negate(x: Complex)
    ensures Mul(MinusOne, x) == Complex(-x.re, -x.im)
  {
  }

  lemma XSquare()
    ensures Times(MatX, MatX) == Identity
  {
    hide Mul;
    ImagSquare();
    ZeroMul();
  }

  lemma YSquare()
    ensures Times(MatY, MatY) == Identity
  {
    hide Mul;
    ImagSquare();
    ZeroMul();
  }

  lemma ZSquare()
    ensures Times(MatZ, MatZ) == Identity
  {
    hide Mul;
    ImagSquare();
    ZeroMul();
  }

  lemma ImagSquare()
    ensures Mul(Complex(0.0, -1.0), Imag) == One == Mul(Imag, Complex(0.0, -1.0))
    ensures Mul(One, One) == One == Mul(MinusOne, MinusOne)
  {
  }

  lemma ZeroMul()
    ensures forall x: Complex :: Mul(Zero, x) == Zero == Mul(x, Zero)
  {
  }

  /** H turns X into Z, Z into X, and Y into -Y. */
  lemma HadamardConjugates(tr: Trig)
    ensures Times(MatH(tr), MatX) == Times(MatZ, MatH(tr))
    ensures Times(MatX, MatH(tr)) == Times(MatH(tr), MatZ)
    ensures Times(MatH(tr), MatZ) == Times(MatX, MatH(tr))
    ensures Times(MatZ, MatH(tr)) == Times(MatH(tr), MatX)
    ensures Times(MatH(tr), MatY) == ScaledBy(MinusOne, Times(MatY, MatH(tr)))
    ensures Times(MatY, MatH(tr)) == ScaledBy(MinusOne, Times(MatH(tr), MatY))
  {
  }

  lemma HadamardSandwich(tr: Trig)
    requires tr.Lawful()
    ensures Times(MatH(tr), Times(MatX, MatH(tr))) == MatZ
    ensures Times(MatH(tr), Times(MatZ, MatH(tr))) == MatX
  {
    hide Times, MatH;
    var h := MatH(tr);
    HadamardConjugates(tr);
    HadamardSquare(tr);
    TimesAssoc(h, h, MatZ);
    TimesAssoc(h, h, MatX);
    TimesIdentity(MatZ);
    TimesIdentity(MatX);
  }

  /** X, Y, Z and H are their own adjoints. */
  lemma SelfAdjoint(tr: Trig, g: Gate)
    requires g.kind in {X, Y, Z, H}
    ensures GateMatrix(tr, g) == MatrixOf(tr, g.kind, g.params)
  {
  }

  lemma SelfInverse(tr: Trig, g: Gate)
    requires tr.Lawful() && g.kind in {X, Y, Z, H}
    ensures Times(GateMatrix(tr, g), GateMatrix(tr, g)) == Identity
  {
    hide Times, MatH;
    SelfAdjoint(tr, g);
    XSquare();
    YSquare();
    ZSquare();
    HadamardSquare(tr);
  }

  lemma ScaledOne(m: Matrix)
    ensures ScaledBy(One, m) == m
  {
  }

  // ---- Gates on one target ----

  lemma DenoteTwo(tr: Trig, p: Gate, g: Gate)
    ensures Denote(tr, [p, g]) == [BlockOf(tr, p), BlockOf(tr, g)]
  {
    hide BlockOf;
  }

  lemma DenoteOne(tr: Trig, p: Gate)
    ensures Denote(tr, [p]) == [BlockOf(tr, p)]
  {
    hide BlockOf;
  }

  /** Two gates on the same target are one multiplexed gate; the pair is w times any circuit that
      multiplies to the same matrices up to w. */
  lemma SameTarget(tr: Trig, w: Complex, p: Gate, g: Gate, h: Family)
    requires !p.kind.Swap? && !g.kind.Swap? && p.targets[0] == g.targets[0]
    requires forall b: Basis :: Times(Controlled(Wires(g.controls), GateMatrix(tr, g))(b),
                                      Controlled(Wires(p.controls), GateMatrix(tr, p))(b)) == ScaledBy(w, h(b))
    ensures Equiv(w, Denote(tr, [p, g]), [Mux(h, p.targets[0])])
  {
    hide Times, ScaledBy, Equiv, GateMatrix, Controlled, Denote;
    DenoteTwo(tr, p, g);
    MuxCompose(w, Controlled(Wires(p.controls), GateMatrix(tr, p)),
               Controlled(Wires(g.controls), GateMatrix(tr, g)), h, p.targets[0]);
  }

  /** A gate followed by its inverse on the same wires is nothing. */
  lemma {:induction false} InversePair(tr: Trig, p: Gate, g: Gate)
    requires !p.kind.Swap? && !g.kind.Swap? && Times(GateMatrix(tr, g), GateMatrix(tr, p)) == Identity
    requires p.targets == g.targets && Wires(p.controls) == Wires(g.controls)
    ensures Means(tr, One, [p, g], [])
  {
    hide Times, ScaledBy, Equiv, GateMatrix, Denote, Mul;
    TimesIdentity(Identity);
    ScaledOne(Identity);
    var h: Family := (b: Basis) => Identity;
    SameTarget(tr, One, p, g, h);
    MuxScalar(One, h, p.targets[0]);
    MulOne(One);
    EquivTrans(One, One, Denote(tr, [p, g]), [Mux(h, p.targets[0])], []);
    DenoteNone(tr);
  }

  lemma CancelPair(tr: Trig, p: Gate, g: Gate)
    requires tr.Lawful() && p.kind == g.kind && p.kind in {X, Y, Z, H}
    requires p.targets == g.targets && Wires(p.controls) == Wires(g.controls)
    ensures Means(tr, One, [p, g], [])
  {
    hide Times, Means, GateMatrix, MatrixOf;
    SelfAdjoint(tr, p);
    SelfAdjoint(tr, g);
    SelfInverse(tr, p);
    InversePair(tr, p, g);
  }

  lemma DenoteNone(tr: Trig)
    ensures Denote(tr, []) == []
  {
  }

  /** Gates on the same target commute when their matrices do, whatever controls they have. */
  lemma CommuteSameTarget(tr: Trig, p: Gate, g: Gate)
    requires !p.kind.Swap? && !g.kind.Swap? && p.targets[0] == g.targets[0]
    requires Times(GateMatrix(tr, p), GateMatrix(tr, g)) == Times(GateMatrix(tr, g), GateMatrix(tr, p))
    ensures Means(tr, One, [p, g], [g, p])
  {
    hide Times, ScaledBy, Equiv, GateMatrix, Denote, Mul;
    var m, n := GateMatrix(tr, p), GateMatrix(tr, g);
    var f, k := Controlled(Wires(p.controls), m), Controlled(Wires(g.controls), n);
    var h: Family := (b: Basis) => Times(k(b), f(b));
    forall b: Basis
      ensures Times(k(b), f(b)) == ScaledBy(One, h(b)) && Times(f(b), k(b)) == ScaledBy(One, h(b))
    {
      ScaledOne(h(b));
      TimesIdentity(m);
      TimesIdentity(n);
    }
    SameTarget(tr, One, p, g, h);
    SameTarget(tr, One, g, p, h);
    EquivSymOne(Denote(tr, [g, p]), [Mux(h, p.targets[0])]);
    MulOne(One);
    EquivTrans(One, One, Denote(tr, [p, g]), [Mux(h, p.targets[0])], Denote(tr, [g, p]));
  }

  lemma CommuteWithX(m: Matrix)
    requires m.a == m.d && m.b == m.c
    ensures Times(m, MatX) == Times(MatX, m)
  {
  }

  /** X and Rx on one target commute, under any controls and adjoint flags. */
  lemma XCommutesWithRx(tr: Trig, p: Gate, g: Gate)
    requires p.kind == X && g.kind in {X, Rx} && p.targets[0] == g.targets[0]
    ensures Means(tr, One, [p, g], [g, p]) && Means(tr, One, [g, p], [p, g])
  {
    hide Times, Means, Mul;
    var m := GateMatrix(tr, g);
    assert m.a == m.d && m.b == m.c;
    CommuteWithX(m);
    SelfAdjoint(tr, p);
    CommuteSameTarget(tr, p, g);
    CommuteSameTarget(tr, g, p);
  }

  /** Two uncontrolled gates on one wire, w times two others with the same product up to w. */
  lemma {:induction false} SwapPair(tr: Trig, w: Complex, p: Gate, g: Gate, p': Gate, g': Gate)
    requires p.targets == g.targets == p'.targets == g'.targets
    requires p.controls == g.controls == p'.controls == g'.controls == []
    requires !p.kind.Swap? && !g.kind.Swap? && !p'.kind.Swap? && !g'.kind.Swap?
    requires Times(GateMatrix(tr, g'), GateMatrix(tr, p'))
          == ScaledBy(w, Times(GateMatrix(tr, g), GateMatrix(tr, p)))
    ensures Means(tr, w, [p', g'], [p, g])
  {
    hide Times, ScaledBy, Equiv, GateMatrix, Denote, Mul;
    var t := p.targets[0];
    var k := Times(GateMatrix(tr, g), GateMatrix(tr, p));
    var h: Family := (b: Basis) => k;
    ScaledOne(k);
    assert forall b: Basis, m: Matrix :: Controlled(Wires([]), m)(b) == m;
    SameTarget(tr, w, p', g', h);
    SameTarget(tr, One, p, g, h);
    EquivSymOne(Denote(tr, [p, g]), [Mux(h, t)]);
    MulOne(w);
    EquivTrans(w, One, Denote(tr, [p', g']), [Mux(h, t)], Denote(tr, [p, g]));
  }

  // ---- Diagonal gates ----

  /** The phase that a diagonal family on target c gives to basis state b. */
  function DiagEntry(f: Family, c: nat, b: Basis): Complex {
    if c in b then f(Off(b, c)).d else f(Off(b, c)).a
  }

  lemma DotDiagonal(a: Complex, d: Complex, p: Complex, q: Complex)
    ensures Dot(a, p, Zero, q) == Mul(a, p) && Dot(Zero, p, d, q) == Mul(d, q)
  {
  }

  lemma DiagonalStep(f: Family, c: nat, psi: State, b: Basis)
    requires f(Off(b, c)).b == Zero && f(Off(b, c)).c == Zero
    ensures MuxAmp(f, c, psi, b) == Mul(DiagEntry(f, c, b), psi(b))
  {
    hide Dot, Mul;
    var m := f(Off(b, c));
    BitCases(c, b);
    DotDiagonal(m.a, m.d, psi(Off(b, c)), psi(On(b, c)));
    assert c in b ==> On(b, c) == b;
  }

  /** A diagonal block on qubit c is also a diagonal block on any other qubit t. */
  lemma Retarget(f: Family, c: nat, g: Family, t: nat)
    requires forall b: Basis :: f(b).b == Zero && f(b).c == Zero
    requires forall b: Basis :: t !in b ==> g(b) == Diag(DiagEntry(f, c, b), DiagEntry(f, c, On(b, t)))
    ensures Equiv(One, [Mux(f, c)], [Mux(g, t)])
  {
    hide Effect, Mul, MuxAmp, DiagEntry, Off, On;
    forall psi: State, b: Basis ensures Effect([Mux(f, c)], psi)(b) == Mul(One, Effect([Mux(g, t)], psi)(b)) {
      EffectOne(Mux(f, c), psi);
      EffectOne(Mux(g, t), psi);
      DiagonalStep(f, c, psi, b);
      BitCases(t, b);
      DiagonalStep(g, t, psi, b);
      RetargetEntry(f, c, g, t, b);
      MulOne(Effect([Mux(g, t)], psi)(b));
    }
  }

  lemma RetargetEntry(f: Family, c: nat, g: Family, t: nat, b: Basis)
    requires g(Off(b, t)) == Diag(DiagEntry(f, c, Off(b, t)), DiagEntry(f, c, On(Off(b, t), t)))
    ensures DiagEntry(g, t, b) == DiagEntry(f, c, b)
  {
    hide Off, On;
    BitCases(t, b);
    OffTwice(b, t);
  }

  lemma OffTwice(b: Basis, t: nat)
    ensures Off(Off(b, t), t) == Off(b, t)
  {
  }

  /** A Z on the control of a gate commutes with the gate. */
  lemma ZOnControl(tr: Trig, z: Gate, g: Gate)
    requires z.Is(Z, 0) && !g.kind.Swap? && z.targets[0] in g.controls && z.targets[0] != g.targets[0]
    ensures Means(tr, One, [z, g], [g, z])
  {
    hide Times, Equiv, Denote, Mul, MatrixOf;
    var c, t := z.targets[0], g.targets[0];
    var m := GateMatrix(tr, g);
    var f, k := Controlled(Wires([]), MatZ), Controlled(Wires(g.controls), m);
    assert GateMatrix(tr, z) == MatZ by { SelfAdjoint(tr, z); MatrixOfZ(tr); }
    assert BlockOf(tr, z) == Mux(f, c) by { assert z.controls == []; }
    var e: Family := (b: Basis) => ScaledBy(if c in b then MinusOne else One, Identity);
    ZAsScalar(f, c, e, t);
    ScalarCommutes(k, e, t);
    DenoteTwo(tr, z, g);
    DenoteTwo(tr, g, z);
    var x, y, v := Mux(f, c), Mux(e, t), Mux(k, t);
    EquivInside(One, [], [x], [y], [v]);
    EquivSymOne([x], [y]);
    EquivInside(One, [v], [y], [x], []);
    assert [] + [x] + [v] == [x, v] && [] + [y] + [v] == [y, v];
    assert [v] + [y] + [] == [v, y] && [v] + [x] + [] == [v, x];
    MulOne(One);
    EquivTrans(One, One, [x, v], [y, v], [v, y]);
    EquivTrans(One, One, [x, v], [v, y], [v, x]);
  }

  /** A Z on qubit c, seen from another qubit t, is a sign that depends on c. */
  lemma ZAsScalar(f: Family, c: nat, e: Family, t: nat)
    requires c != t
    requires forall b: Basis :: f(b) == MatZ && e(b) == ScaledBy(if c in b then MinusOne else One, Identity)
    ensures Equiv(One, [Mux(f, c)], [Mux(e, t)])
    ensures forall b: Basis :: e(b) == ScaledBy(e(b).a, Identity)
  {
    hide Equiv, ScaledBy;
    ScaledIdentity(MinusOne);
    ScaledIdentity(One);
    forall b: Basis | t !in b ensures e(b) == Diag(DiagEntry(f, c, b), DiagEntry(f, c, On(b, t))) {
      assert c in b <==> c in On(b, t);
    }
    Retarget(f, c, e, t);
  }

  lemma MatrixOfZ(tr: Trig)
    ensures MatrixOf(tr, Z, []) == MatZ
  {
  }

  lemma ScaledIdentity(w: Complex)
    ensures ScaledBy(w, Identity) == Diag(w, w)
  {
  }

  /** A family of scalars commutes with every family on the same target. */
  lemma ScalarCommutes(k: Family, e: Family, t: nat)
    requires forall b: Basis :: e(b) == ScaledBy(e(b).a, Identity)
    ensures Equiv(One, [Mux(e, t), Mux(k, t)], [Mux(k, t), Mux(e, t)])
  {
    hide Equiv, Times, ScaledBy, Mul;
    var h: Family := (b: Basis) => Times(k(b), e(b));
    forall b: Basis
      ensures Times(k(b), e(b)) == ScaledBy(One, h(b)) && Times(e(b), k(b)) == ScaledBy(One, h(b))
    {
      ScaledOne(h(b));
      TimesScaled(e(b).a, k(b), Identity);
      TimesScaled(e(b).a, Identity, k(b));
      TimesIdentity(k(b));
    }
    MuxCompose(One, e, k, h, t);
    MuxCompose(One, k, e, h, t);
    EquivSymOne([Mux(k, t), Mux(e, t)], [Mux(h, t)]);
    MulOne(One);
    EquivTrans(One, One, [Mux(e, t), Mux(k, t)], [Mux(h, t)], [Mux(k, t), Mux(e, t)]);
  }

  /** Scaling every matrix of a block scales the block. */
  lemma MuxScaled(w: Complex, f: Family, g: Family, t: nat)
    requires forall b: Basis :: f(b) == ScaledBy(w, g(b))
    ensures Equiv(w, [Mux(f, t)], [Mux(g, t)])
  {
    hide Times, ScaledBy, Equiv, Mul;
    var i: Family := (b: Basis) => Identity;
    forall b: Basis ensures Times(f(b), i(b)) == ScaledBy(w, g(b)) {
      TimesIdentity(f(b));
    }
    MuxCompose(w, i, f, g, t);
    ScaledOne(Identity);
    MuxScalar(One, i, t);
    EquivInside(One, [], [Mux(i, t)], [], [Mux(f, t)]);
    assert [] + [Mux(i, t)] + [Mux(f, t)] == [Mux(i, t), Mux(f, t)];
    assert [] + [] + [Mux(f, t)] == [Mux(f, t)];
    EquivSymOne([Mux(i, t), Mux(f, t)], [Mux(f, t)]);
    EquivTrans(One, w, [Mux(f, t)], [Mux(i, t), Mux(f, t)], [Mux(g, t)]);
    MulOne(w);
  }

  // ---- Three gates on one target ----

  lemma DenoteThree(tr: Trig, p: Gate, g: Gate, k: Gate)
    ensures Denote(tr, [p, g, k]) == [BlockOf(tr, p), BlockOf(tr, g), BlockOf(tr, k)]
  {
    hide BlockOf;
  }

  function FamilyOf(tr: Trig, g: Gate): Family
    requires !g.kind.Swap?
  {
    Controlled(Wires(g.controls), GateMatrix(tr, g))
  }

  lemma TripleTarget(tr: Trig, p: Gate, g: Gate, k: Gate, r: Gate)
    requires !p.kind.Swap? && !g.kind.Swap? && !k.kind.Swap? && !r.kind.Swap?
    requires p.targets == g.targets == k.targets == r.targets
    requires forall b: Basis ::
               Times(FamilyOf(tr, k)(b), Times(FamilyOf(tr, g)(b), FamilyOf(tr, p)(b))) == FamilyOf(tr, r)(b)
    ensures Means(tr, One, [p, g, k], [r])
  {
    hide Times, ScaledBy, Equiv, GateMatrix, Denote, Mul;
    var t := p.targets[0];
    var x, y, z, v := FamilyOf(tr, p), FamilyOf(tr, g), FamilyOf(tr, k), FamilyOf(tr, r);
    var h: Family := (b: Basis) => Times(y(b), x(b));
    forall b: Basis ensures Times(y(b), x(b)) == ScaledBy(One, h(b)) && Times(z(b), h(b)) == ScaledBy(One, v(b)) {
      ScaledOne(h(b));
      ScaledOne(v(b));
    }
    MuxCompose(One, x, y, h, t);
    MuxCompose(One, h, z, v, t);
    EquivInside(One, [], [Mux(x, t), Mux(y, t)], [Mux(h, t)], [Mux(z, t)]);
    DenoteThree(tr, p, g, k);
    DenoteOne(tr, r);
    assert [] + [Mux(x, t), Mux(y, t)] + [Mux(z, t)] == [Mux(x, t), Mux(y, t), Mux(z, t)];
    assert [] + [Mux(h, t)] + [Mux(z, t)] == [Mux(h, t), Mux(z, t)];
    MulOne(One);
    EquivTrans(One, One, [Mux(x, t), Mux(y, t), Mux(z, t)], [Mux(h, t), Mux(z, t)], [Mux(v, t)]);
  }

  /** H K H with a controlled K in the middle is the controlled H K H. */
  lemma SandwichControlled(tr: Trig, h1: Gate, g: Gate, h2: Gate, r: Gate)
    requires tr.Lawful()
    requires h1.Is(H, 0) && h2.Is(H, 0) && h1.targets == g.targets == h2.targets == r.targets
    requires (g.kind == X && r.kind == Z) || (g.kind == Z && r.kind == X)
    requires Wires(g.controls) == Wires(r.controls)
    ensures Means(tr, One, [h1, g, h2], [r])
  {
    hide Times, MatH, tr.Lawful;
    SelfAdjoint(tr, h1);
    SelfAdjoint(tr, h2);
    SelfAdjoint(tr, g);
    SelfAdjoint(tr, r);
    HadamardSandwich(tr);
    HadamardSquare(tr);
    TimesIdentity(MatH(tr));
    forall b: Basis
      ensures Times(FamilyOf(tr, h2)(b), Times(FamilyOf(tr, g)(b), FamilyOf(tr, h1)(b))) == FamilyOf(tr, r)(b)
    {
      assert Wires(h1.controls) <= b && Wires(h2.controls) <= b;
    }
    TripleTarget(tr, h1, g, h2, r);
  }

  /** Control and target of a controlled Z may trade places. */
  lemma CzSymmetric(tr: Trig, p: Gate, g: Gate)
    requires p.Is(Z, 1) && g.Is(Z, 1) && p.controls == g.targets && p.targets == g.controls
    requires p.controls[0] != p.targets[0]
    ensures Means(tr, One, [p], [g])
  {
    hide Equiv, MatrixOf;
    MatrixOfZ(tr);
    SelfAdjoint(tr, p);
    SelfAdjoint(tr, g);
    DenoteOne(tr, p);
    DenoteOne(tr, g);
    var c, t := p.targets[0], g.targets[0];
    var f, k := FamilyOf(tr, p), FamilyOf(tr, g);
    forall b: Basis | t !in b ensures k(b) == Diag(DiagEntry(f, c, b), DiagEntry(f, c, On(b, t))) {
      assert Wires(p.controls) == {t} && Wires(g.controls) == {c};
      assert !({t} <= Off(b, c)) && {t} <= Off(On(b, t), c);
      assert c in b <==> c in On(b, t);
    }
    Retarget(f, c, k, t);
  }

  /** S-adjoint then Z is S, and S then Z is S-adjoint. */
  lemma SThenZ(tr: Trig, p: Gate, g: Gate, r: Gate)
    requires p.Is(S, 0) && g.Is(Z, 0) && r.Is(S, 0) && r.adj == !p.adj && p.targets == g.targets == r.targets
    ensures Means(tr, One, [r], [p, g])
  {
    hide Times, Equiv, GateMatrix, Denote, Mul;
    var m := GateMatrix(tr, r);
    SMatrices(tr, p, g, r);
    ScaledOne(m);
    var h: Family := FamilyOf(tr, r);
    SameTarget(tr, One, p, g, h);
    DenoteOne(tr, r);
    EquivSymOne(Denote(tr, [p, g]), [Mux(h, p.targets[0])]);
  }

  lemma SMatrices(tr: Trig, p: Gate, g: Gate, r: Gate)
    requires p.kind == S && g.kind == Z && r.kind == S && r.adj == !p.adj
    ensures Times(GateMatrix(tr, g), GateMatrix(tr, p)) == GateMatrix(tr, r)
  {
    hide Times, Mul;
    SelfAdjoint(tr, g);
    var d := if p.adj then Complex(0.0, -1.0) else Imag;
    assert GateMatrix(tr, p) == Diag(One, d);
    TimesDiag(One, MinusOne, One, d);
    Negate(d);
    MulOne(One);
  }

  lemma TimesDiag(a: Complex, d: Complex, a': Complex, d': Complex)
    ensures Times(Diag(a, d), Diag(a', d')) == Diag(Mul(a, a'), Mul(d, d'))
  {
    hide Mul;
    ZeroMul();
  }

  // ---- The decompositions of CX and CZ ----

  lemma CxFromCz(tr: Trig, g: Gate)
    requires tr.Lawful() && g.Is(X, 1) && g.controls[0] != g.targets[0]
    ensures var c, t := g.controls[0], g.targets[0];
            Means(tr, One, [Plain(H, [], t), Plain(Z, [t], c), Plain(H, [], t)], [g])
  {
    hide Means, tr.Lawful;
    var c, t := g.controls[0], g.targets[0];
    var h, z, z' := Plain(H, [], t), Plain(Z, [t], c), Plain(Z, [c], t);
    CzSymmetric(tr, z, z');
    MeansInside(tr, One, [h], [z], [z'], [h]);
    assert [h] + [z] + [h] == [h, z, h] && [h] + [z'] + [h] == [h, z', h];
    SandwichControlled(tr, h, z', h, g);
    MeansChain(tr, [h, z, h], [h, z', h], [g]);
  }

  lemma CzFromCx(tr: Trig, g: Gate)
    requires tr.Lawful() && g.Is(Z, 1) && g.controls[0] != g.targets[0]
    ensures var c, t := g.controls[0], g.targets[0];
            Means(tr, One, [Plain(H, [], t), Plain(X, [c], t), Plain(H, [], t)], [g])
  {
    hide tr.Lawful;
    var c, t := g.controls[0], g.targets[0];
    SandwichControlled(tr, Plain(H, [], t), Plain(X, [c], t), Plain(H, [], t), g);
  }

  lemma CxFromReversed(tr: Trig, g: Gate)
    requires tr.Lawful() && g.Is(X, 1) && g.controls[0] != g.targets[0]
    ensures var c, t := g.controls[0], g.targets[0];
            Means(tr, One, [Plain(H, [], t), Plain(H, [], c), Plain(X, [t], c), Plain(H, [], t), Plain(H, [], c)], [g])
  {
    hide Means, tr.Lawful;
    var c, t := g.controls[0], g.targets[0];
    var ht, hc, x, z := Plain(H, [], t), Plain(H, [], c), Plain(X, [t], c), Plain(Z, [t], c);
    PassableCommutes(tr, ht, hc);
    MeansInside(tr, One, [ht, hc, x], [ht, hc], [hc, ht], []);
    assert [ht, hc, x] + [ht, hc] + [] == [ht, hc, x, ht, hc];
    assert [ht, hc, x] + [hc, ht] + [] == [ht] + [hc, x, hc] + [ht];
    CzFromCx(tr, z);
    MeansInside(tr, One, [ht], [hc, x, hc], [z], [ht]);
    assert [ht] + [z] + [ht] == [ht, z, ht];
    CxFromCz(tr, g);
    MeansChain(tr, [ht, hc, x, ht, hc], [ht] + [hc, x, hc] + [ht], [ht, z, ht]);
    MeansChain(tr, [ht, hc, x, ht, hc], [ht, z, ht], [g]);
  }
}
