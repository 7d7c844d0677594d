/** What a drawing says about the circuit.  A drawing fixes a circuit up to parameters that print alike,
    and it fixes what the circuit does exactly when no drawn gate has a parameter. */
module DrawingMeaning {
  import opened Amplitudes
  import opened Blocks
  import opened Gates
  import opened LocalRules
  import opened Angles
  import opened Phases
  import opened Unitary
  import opened Tikz

  function Drawings(gs: seq<Gate>): seq<Drawn> {
    seq(|gs|, i requires 0 <= i < |gs| => DrawGate(gs[i]))
  }

  predicate SameDrawing(gs: seq<Gate>, hs: seq<Gate>, n: nat) {
    Drawable(Drawings(hs), n) && SameRows(Drawings(gs), Drawings(hs), n)
  }

  predicate NoParameters(gs: seq<Gate>) {
    forall g <- gs :: g.params == []
  }

  lemma SameDrawingGates(gs: seq<Gate>, hs: seq<Gate>, n: nat)
    requires n > 0 && Drawable(Drawings(gs), n) && Drawable(Drawings(hs), n)
    ensures SameDrawing(gs, hs, n) <==> |gs| == |hs| && forall k :: 0 <= k < |gs| ==> SameGate(gs[k], hs[k])
  {
    hide Drawable, SameRows, SameGate;
    DrawingDetermines(Drawings(gs), Drawings(hs), n);
    if SameDrawing(gs, hs, n) {
      forall k | 0 <= k < |gs| ensures SameGate(gs[k], hs[k]) {
        assert SameDrawn(Drawings(gs)[k], Drawings(hs)[k], n);
      }
    }
  }

  /** Circuits with the same drawing and the same parameters do the same to every state. */
  lemma DrawingMeans(tr: Trig, gs: seq<Gate>, hs: seq<Gate>, n: nat)
    requires n > 0 && Drawable(Drawings(gs), n) && SameDrawing(gs, hs, n)
    requires forall k :: 0 <= k < |gs| && k < |hs| ==> gs[k].params == hs[k].params
    ensures Means(tr, One, gs, hs)
  {
    hide Equiv, Drawable, SameDrawing, MatrixOf, Labels;
    assert Drawable(Drawings(hs), n) by { DrawableOf(gs, hs, n); }
    SameDrawingGates(gs, hs, n);
    forall k | 0 <= k < |gs| ensures BlockOf(tr, gs[k]) == BlockOf(tr, hs[k]) {
      assert SameGate(gs[k], hs[k]);
    }
    assert Denote(tr, gs) == Denote(tr, hs);
    EquivRefl(Denote(tr, gs));
  }

  lemma DrawableOf(gs: seq<Gate>, hs: seq<Gate>, n: nat)
    requires SameDrawing(gs, hs, n)
    ensures Drawable(Drawings(hs), n)
  {
  }

  // ---- Other parameters that print alike ----

  /** Near every number, on one side, there is room for other numbers that print alike. */
  lemma PrintsAlike(x: real, e: real) returns (y: real)
    requires 0.0 < e <= 0.002
    ensures Fixed2(y) == Fixed2(x) && (y == x + e || y == x - e)
  {
    var z := if x < 0.0 then -x * 100.0 else x * 100.0;
    var f, d := z.Floor, 100.0 * e;
    var r := z - f as real;
    var up := if r < 0.25 then true else if r < 0.5 then false else if r == 0.5 then f % 2 != 0 else r < 0.75;
    var t := if up then z + d else z - d;
    assert 0.0 <= t - f as real < 1.0;
    assert t.Floor == f && Nearest(t) == Nearest(z);
    y := if (x < 0.0) == up then x - e else x + e;
    assert (if y < 0.0 then -y * 100.0 else y * 100.0) == t && (y < 0.0 <==> x < 0.0);
  }

  lemma DoubleSine(tr: Trig, x: real)
    requires tr.Lawful() && tr.sin(x / 2.0) == 0.0
    ensures tr.sin(x) == 0.0
  {
    var h := x / 2.0;
    SumAt(tr, h, h);
    assert h + h == x;
  }

  /** Halving an angle often enough makes it small, and its half keeps a sine other than zero. */
  lemma SmallAngle(tr: Trig, x: real) returns (e: real)
    requires tr.Lawful() && x > 0.0 && tr.sin(x / 2.0) != 0.0
    ensures 0.0 < e <= 0.002 && tr.sin(e / 2.0) != 0.0
    decreases (x * 500.0).Floor
  {
    hide tr.Lawful;
    if x <= 0.002 {
      e := x;
    } else {
      var h := x / 2.0;
      if tr.sin(h / 2.0) == 0.0 {
        DoubleSine(tr, h);
        assert false;
      }
      assert h * 500.0 == x * 500.0 / 2.0;
      HalfFloor(x * 500.0);
      e := SmallAngle(tr, h);
    }
  }

  lemma HalfFloor(y: real)
    requires y > 1.0
    ensures 0 <= (y / 2.0).Floor < y.Floor
  {
  }

  // ---- Another parameter is another matrix ----

  lemma CrossProducts(w: Complex, m: Matrix, n: Matrix)
    requires m == ScaledBy(w, n)
    ensures Mul(m.a, n.c) == Mul(m.c, n.a) && Mul(m.a, n.d) == Mul(m.d, n.a) && Mul(m.b, n.c) == Mul(m.c, n.b)
  {
    hide Mul;
    MulAssoc(w, n.a, n.c);
    MulAssoc(w, n.c, n.a);
    MulComm(n.a, n.c);
    MulAssoc(w, n.a, n.d);
    MulAssoc(w, n.d, n.a);
    MulComm(n.a, n.d);
    MulAssoc(w, n.b, n.c);
    MulAssoc(w, n.c, n.b);
    MulComm(n.b, n.c);
  }

  lemma CancelFactor(z: Complex, x: Complex, y: Complex)
    requires z != Zero && Mul(z, x) == Mul(z, y)
    ensures x == y
  {
    hide Mul, Norm;
    var n := Norm(z);
    MulAssoc(Conj(z), z, x);
    MulAssoc(Conj(z), z, y);
    NormSquare(z);
    RealTimes(n, x);
    RealTimes(n, y);
    NormPositive(z);
    CancelReal(n, x.re, y.re);
    CancelReal(n, x.im, y.im);
  }

  lemma NormSquare(z: Complex)
    ensures Mul(Conj(z), z) == Complex(Norm(z), 0.0)
  {
  }

  function Product(x: real, y: real): real { x * y }

  function Square(x: real): real { Product(x, x) }

  function Norm(z: Complex): real { Square(z.re) + Square(z.im) }

  lemma NormPositive(z: Complex)
    requires z != Zero
    ensures Norm(z) > 0.0
  {
    hide Square;
    SquareNotNegative(z.re);
    SquareNotNegative(z.im);
    if z.re != 0.0 { SquarePositive(z.re); } else { SquarePositive(z.im); }
  }

  lemma SquareNotNegative(x: real)
    ensures Square(x) >= 0.0
  {
    if x != 0.0 { SquarePositive(x); }
  }

  lemma SquarePositive(x: real)
    requires x != 0.0
    ensures Square(x) > 0.0
  {
    hide Square;
    SquareEven(x);
    if x > 0.0 { SquareOfPositive(x); } else { SquareOfPositive(-x); }
  }

  lemma SquareOfPositive(x: real)
    requires x > 0.0
    ensures Square(x) > 0.0
  {
    hide Product;
    ProductOfPositive(x, x);
  }

  lemma ProductOfPositive(x: real, y: real)
    requires x > 0.0 && y > 0.0
    ensures Product(x, y) > 0.0
  {
  }

  lemma SquareEven(x: real)
    ensures Square(-x) == Square(x)
  {
  }

  lemma RealTimes(n: real, x: Complex)
    ensures Mul(Complex(n, 0.0), x) == Complex(n * x.re, n * x.im)
  {
  }

  lemma CancelReal(n: real, x: real, y: real)
    requires n > 0.0 && n * x == n * y
    ensures x == y
  {
    assert n * (x - y) == 0.0;
  }

  lemma SineOfDifference(tr: Trig, x: real, y: real)
    requires tr.Lawful() && tr.cos(y) * tr.sin(x) == tr.sin(y) * tr.cos(x)
    ensures tr.sin(x - y) == 0.0
  {
    hide tr.Lawful;
    SumAt(tr, x, -y);
    NegativeAngle(tr, y);
    assert x + -y == x - y;
  }

  /** Equal phases belong to angles whose difference has a half with sine zero. */
  lemma PhaseEqual(tr: Trig, x: real, y: real)
    requires tr.Lawful() && tr.Phase(x) == tr.Phase(y)
    ensures tr.sin((x - y) / 2.0) == 0.0
  {
    hide tr.Lawful;
    var z := (x - y) / 2.0;
    SumAt(tr, x, -y);
    NegativeAngle(tr, y);
    UnitAt(tr, x);
    assert x + -y == x - y == z + z;
    SumAt(tr, z, z);
    UnitAt(tr, z);
    assert 2.0 * (tr.sin(z) * tr.sin(z)) == 0.0;
  }

  /** A first column of a cosine and a unit multiple of a sine tells the angle. */
  lemma ColumnTells(tr: Trig, u: Complex, a: real, a': real)
    requires tr.Lawful() && u != Zero
    requires Mul(tr.HalfCos(a'), Mul(u, tr.HalfSin(a))) == Mul(Mul(u, tr.HalfSin(a')), tr.HalfCos(a))
    ensures tr.sin((a - a') / 2.0) == 0.0
  {
    hide tr.Lawful, Mul;
    var c, s, c', s' := tr.HalfCos(a), tr.HalfSin(a), tr.HalfCos(a'), tr.HalfSin(a');
    MulSwap(c', u, s);
    MulAssoc(u, s', c);
    CancelFactor(u, Mul(c', s), Mul(s', c));
    RealMul(c'.re, s.re);
    RealMul(s'.re, c.re);
    SineOfDifference(tr, a / 2.0, a' / 2.0);
    assert a / 2.0 - a' / 2.0 == (a - a') / 2.0;
  }

  lemma TurnTells(tr: Trig, w: Complex, k: Kind, params: seq<real>, a': real)
    requires tr.Lawful() && k in {Rx, Ry, PhasedRx} && |params| == ParamCount(k)
    requires MatrixOf(tr, k, params[0 := a']) == ScaledBy(w, MatrixOf(tr, k, params))
    ensures tr.sin((params[0] - a') / 2.0) == 0.0
  {
    hide tr.Lawful, Mul, ScaledBy, Trig.HalfCos, Trig.HalfSin, Trig.Phase;
    CrossProducts(w, MatrixOf(tr, k, params[0 := a']), MatrixOf(tr, k, params));
    var i := Complex(0.0, -1.0);
    if k == Rx {
      ColumnTells(tr, i, params[0], a');
    } else if k == Ry {
      MulOne(tr.HalfSin(params[0]));
      MulOne(tr.HalfSin(a'));
      ColumnTells(tr, One, params[0], a');
    } else {
      var f := tr.Phase(params[1]);
      MulAssoc(f, i, tr.HalfSin(params[0]));
      MulAssoc(f, i, tr.HalfSin(a'));
      PhaseTimesI(tr, params[1]);
      ColumnTells(tr, Mul(f, i), params[0], a');
    }
  }

  lemma PhaseTimesI(tr: Trig, x: real)
    requires tr.Lawful()
    ensures Mul(tr.Phase(x), Complex(0.0, -1.0)) != Zero && tr.Phase(x) != Zero
  {
    hide tr.Lawful, Mul;
    UnitAt(tr, x);
    var p := tr.Phase(x);
    ProductNotZero(p, Complex(0.0, -1.0));
  }

  lemma DiagonalTells(tr: Trig, w: Complex, k: Kind, params: seq<real>, a': real)
    requires tr.Lawful() && k in {Rz, R1} && |params| == ParamCount(k)
    requires MatrixOf(tr, k, [a']) == ScaledBy(w, MatrixOf(tr, k, params))
    ensures tr.sin((params[0] - a') / 2.0) == 0.0
  {
    hide tr.Lawful, Mul, ScaledBy, Trig.Phase;
    var a := params[0];
    CrossProducts(w, MatrixOf(tr, k, [a']), MatrixOf(tr, k, params));
    if k == Rz {
      PhaseSum(tr, -a' / 2.0, a / 2.0);
      PhaseSum(tr, a' / 2.0, -a / 2.0);
      PhaseEqual(tr, -a' / 2.0 + a / 2.0, a' / 2.0 + -a / 2.0);
      assert ((-a' / 2.0 + a / 2.0) - (a' / 2.0 + -a / 2.0)) / 2.0 == (a - a') / 2.0;
    } else {
      MulOne(tr.Phase(a));
      MulOne(tr.Phase(a'));
      PhaseEqual(tr, a, a');
    }
  }

  lemma U3Tells(tr: Trig, w: Complex, theta: real, phi: real, lam: real, lam': real)
    requires tr.Lawful() && MatU3(tr, theta, phi, lam') == ScaledBy(w, MatU3(tr, theta, phi, lam))
    ensures tr.sin((lam - lam') / 2.0) == 0.0
  {
    hide tr.Lawful, Mul, ScaledBy, Trig.Phase;
    var c, s := tr.HalfCos(theta), tr.HalfSin(theta);
    var m, n := MatU3(tr, theta, phi, lam'), MatU3(tr, theta, phi, lam);
    CrossProducts(w, m, n);
    UnitAt(tr, theta / 2.0);
    if c != Zero {
      CosineTells(c, tr.Phase(phi + lam), tr.Phase(phi + lam'));
      PhaseEqual(tr, phi + lam, phi + lam');
      assert ((phi + lam) - (phi + lam')) / 2.0 == (lam - lam') / 2.0;
    } else {
      PhaseTimesI(tr, phi);
      SineTells(s, tr.Phase(phi), tr.Phase(lam), tr.Phase(lam'));
      PhaseEqual(tr, lam, lam');
    }
  }

  lemma CosineTells(c: Complex, p: Complex, q: Complex)
    requires c != Zero && Mul(c, Mul(p, c)) == Mul(Mul(q, c), c)
    ensures p == q
  {
    hide Mul;
    MulComm(p, c);
    MulComm(q, c);
    MulAssoc(c, q, c);
    MulComm(q, c);
    CancelFactor(c, Mul(c, p), Mul(c, q));
    CancelFactor(c, p, q);
  }

  lemma SineTells(s: Complex, f: Complex, p: Complex, q: Complex)
    requires s != Zero && f != Zero
    requires Mul(Mul(MinusOne, Mul(q, s)), Mul(f, s)) == Mul(Mul(f, s), Mul(MinusOne, Mul(p, s)))
    ensures p == q
  {
    hide Mul;
    var x, y := Mul(MinusOne, Mul(q, s)), Mul(MinusOne, Mul(p, s));
    MulComm(x, Mul(f, s));
    ProductNotZero(f, s);
    CancelFactor(Mul(f, s), x, y);
    CancelFactor(MinusOne, Mul(q, s), Mul(p, s));
    MulComm(q, s);
    MulComm(p, s);
    CancelFactor(s, q, p);
  }

  lemma ProductNotZero(f: Complex, s: Complex)
    requires f != Zero && s != Zero
    ensures Mul(f, s) != Zero
  {
    hide Mul;
    ZeroMul();
    if Mul(f, s) == Zero {
      CancelFactor(f, s, Zero);
    }
  }

  // ---- A gate with another parameter ----

  /** The parameter that is changed. */
  function Slot(k: Kind): nat {
    if k == U3 then 2 else if k == U2 then 1 else 0
  }

  function Nudged(g: Gate, a: real): Gate
    requires ParamCount(g.kind) > 0
  {
    Operation(g.kind, g.adj, g.params[Slot(g.kind) := a], g.controls, g.targets)
  }

  lemma {:induction false} KindTells(tr: Trig, w: Complex, k: Kind, params: seq<real>, a': real)
    requires tr.Lawful() && |params| == ParamCount(k) > 0
    requires MatrixOf(tr, k, params[Slot(k) := a']) == ScaledBy(w, MatrixOf(tr, k, params))
    ensures tr.sin((params[Slot(k)] - a') / 2.0) == 0.0
  {
    hide tr.Lawful, ScaledBy, MatU3, MatRx, MatRy, MatRz, MatPhasedRx;
    if k in {Rx, Ry, PhasedRx} {
      TurnTells(tr, w, k, params, a');
    } else if k in {Rz, R1} {
      assert params[0 := a'] == [a'];
      DiagonalTells(tr, w, k, params, a');
    } else if k == U2 {
      U3Tells(tr, w, tr.pi / 2.0, params[0], params[1], a');
    } else {
      U3Tells(tr, w, params[0], params[1], params[2], a');
    }
  }

  lemma DaggerScaled(w: Complex, m: Matrix, n: Matrix)
    requires Dagger(m) == ScaledBy(w, Dagger(n))
    ensures m == ScaledBy(Conj(w), n)
  {
    hide Mul;
    DaggerTwice(m);
    DaggerTwice(n);
    ConjMul(w, Conj(n.a));
    ConjMul(w, Conj(n.b));
    ConjMul(w, Conj(n.c));
    ConjMul(w, Conj(n.d));
  }

  /** If the gate with another parameter is a multiple of the gate, then half the difference of the
      parameters has sine zero. */
  lemma {:induction false} NudgeTells(tr: Trig, w: Complex, g: Gate, a: real)
    requires tr.Lawful() && ParamCount(g.kind) > 0 && Means(tr, w, [Nudged(g, a)], [g])
    ensures tr.sin((g.params[Slot(g.kind)] - a) / 2.0) == 0.0
  {
    hide tr.Lawful, Equiv, MatrixOf, Dagger, ScaledBy;
    var h := Nudged(g, a);
    DenoteOne(tr, h);
    DenoteOne(tr, g);
    var cs, t := Wires(g.controls), g.targets[0];
    assert t !in cs by { OperandsApart(g); }
    MuxDetermined(w, FamilyOf(tr, h), FamilyOf(tr, g), t, cs);
    if g.adj {
      DaggerScaled(w, MatrixOf(tr, h.kind, h.params), MatrixOf(tr, g.kind, g.params));
      KindTells(tr, Conj(w), g.kind, g.params, a);
    } else {
      KindTells(tr, w, g.kind, g.params, a);
    }
  }

  lemma SmallestTurn(tr: Trig) returns (e: real)
    requires tr.Lawful()
    ensures 0.0 < e <= 0.002 && tr.sin(e / 2.0) != 0.0 && tr.sin(-e / 2.0) != 0.0
  {
    e := SmallAngle(tr, tr.pi);
    NegativeAngle(tr, e / 2.0);
    assert -e / 2.0 == -(e / 2.0);
  }

  /** Every gate with a parameter has a twin that is drawn alike and is no multiple of it. */
  lemma {:induction false} DrawnAlike(tr: Trig, g: Gate) returns (h: Gate)
    requires tr.Lawful() && g.params != []
    ensures SameGate(g, h) && !h.kind.Swap?
    ensures forall w: Complex :: !Means(tr, w, [h], [g])
  {
    hide tr.Lawful, Means, Fixed2;
    assert g.WellFormed();
    var k := Slot(g.kind);
    var e := SmallestTurn(tr);
    var a := PrintsAlike(g.params[k], e);
    h := Nudged(g, a);
    assert Labels(h.params) == Labels(g.params);
    assert (g.params[k] - a) / 2.0 == e / 2.0 || (g.params[k] - a) / 2.0 == -e / 2.0;
    forall w: Complex ensures !Means(tr, w, [h], [g]) {
      if Means(tr, w, [h], [g]) {
        NudgeTells(tr, w, g, a);
        assert false;
      }
    }
  }

  // ---- When the drawing fixes what the circuit does ----

  /** With a parameter anywhere, another circuit has the drawing and does something else. */
  lemma {:induction false} ParametersHidden(tr: Trig, gs: seq<Gate>, n: nat, k: nat) returns (hs: seq<Gate>)
    requires tr.Lawful() && n > 0 && Drawable(Drawings(gs), n) && k < |gs| && gs[k].params != []
    ensures SameDrawing(gs, hs, n) && forall w: Complex :: !Means(tr, w, hs, gs)
  {
    hide tr.Lawful, Means, SameGate, Drawable, SameRows;
    var h := DrawnAlike(tr, gs[k]);
    var pre, post := gs[..k], gs[k + 1..];
    hs := pre + [h] + post;
    assert gs == pre + [gs[k]] + post;
    forall w: Complex ensures !Means(tr, w, hs, gs) {
      OnlyInside(tr, w, pre, [h], [gs[k]], post);
    }
    DrawableTwin(gs, n, k, h);
    forall i | 0 <= i < |gs| ensures SameGate(gs[i], hs[i]) {
      if i != k { SameGateRefl(gs[i]); }
    }
    assert hs == gs[k := h];
    SameDrawingGates(gs, hs, n);
  }

  lemma SameGateRefl(g: Gate)
    ensures SameGate(g, g)
  {
  }

  lemma DrawableTwin(gs: seq<Gate>, n: nat, k: nat, h: Gate)
    requires Drawable(Drawings(gs), n) && k < |gs| && SameGate(gs[k], h) && !h.kind.Swap?
    ensures Drawable(Drawings(gs[k := h]), n)
  {
    var ds, es := Drawings(gs), Drawings(gs[k := h]);
    assert ds[k] in ds;
    forall q | q in h.controls ensures q < n {
      assert q in Wires(h.controls) && q in Wires(gs[k].controls) && q in gs[k].controls;
    }
    forall e | e in es ensures e.Fits(n) && !e.ControlledSwap() {
      var i :| 0 <= i < |es| && es[i] == e;
      assert i != k ==> ds[i] in ds && e == ds[i];
    }
  }

  /** Main theorem.  All circuits with this drawing do the same to every state, even if a global factor
      is forgiven, exactly when no drawn gate has a parameter. */
  lemma {:induction false} DrawingFixesMeaning(tr: Trig, gs: seq<Gate>, n: nat)
    requires tr.Lawful() && n > 0 && Drawable(Drawings(gs), n)
    ensures (forall hs: seq<Gate> | SameDrawing(gs, hs, n) :: exists w: Complex :: Means(tr, w, hs, gs))
        <==> NoParameters(gs)
    ensures NoParameters(gs) ==> forall hs: seq<Gate> | SameDrawing(gs, hs, n) :: Means(tr, One, gs, hs)
  {
    hide tr.Lawful, Means, Drawable, SameDrawing;
    if NoParameters(gs) {
      forall hs: seq<Gate> | SameDrawing(gs, hs, n) ensures Means(tr, One, gs, hs) && Means(tr, One, hs, gs) {
        ParametersAgree(gs, hs, n);
        DrawingMeans(tr, gs, hs, n);
        MeansSym(tr, gs, hs);
      }
    } else {
      var g :| g in gs && g.params != [];
      var k :| 0 <= k < |gs| && gs[k] == g;
      var hs := ParametersHidden(tr, gs, n, k);
    }
  }

  lemma ParametersAgree(gs: seq<Gate>, hs: seq<Gate>, n: nat)
    requires n > 0 && Drawable(Drawings(gs), n) && SameDrawing(gs, hs, n) && NoParameters(gs)
    ensures |gs| == |hs| && forall k :: 0 <= k < |gs| ==> gs[k].params == hs[k].params
  {
    hide Drawable, SameDrawing, Labels;
    DrawableOf(gs, hs, n);
    SameDrawingGates(gs, hs, n);
    forall k | 0 <= k < |gs| ensures gs[k].params == hs[k].params {
      assert gs[k] in gs && SameGate(gs[k], hs[k]);
      assert gs[k].WellFormed() && hs[k].WellFormed();
    }
  }

  /** An Rx by less than 0.005 is drawn as the Rx by zero, and is no multiple of it. */
  lemma RoundingHides(tr: Trig) returns (e: real)
    requires tr.Lawful()
    ensures 0.0 < e < 0.005
    ensures var g, h: Gate := Operation(Rx, false, [0.0], [], [0]), Operation(Rx, false, [e], [], [0]);
            && Tikz.Row(Drawings([g]), 0) == Tikz.Row(Drawings([h]), 0)
            && forall w: Complex :: !Means(tr, w, [h], [g])
  {
    hide tr.Lawful, Means;
    e := SmallestTurn(tr);
    var g: Gate, h: Gate := Operation(Rx, false, [0.0], [], [0]), Operation(Rx, false, [e], [], [0]);
    assert Fixed2(0.0) == Fixed2(e) by { assert (e * 100.0).Floor == 0 && (0.0 * 100.0).Floor == 0; }
    assert Labels([0.0]) == Labels([e]);
    assert Drawings([g])[..0] == [] == Drawings([h])[..0];
    assert h == Nudged(g, e);
    assert (0.0 - e) / 2.0 == -e / 2.0;
    forall w: Complex ensures !Means(tr, w, [h], [g]) {
      if Means(tr, w, [h], [g]) {
        NudgeTells(tr, w, g, e);
        assert false;
      }
    }
  }
}
