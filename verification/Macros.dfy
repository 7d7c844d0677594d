/** Each macro of the gate table does what its reference does, up to the global phase. */
module Macros {
  import opened Amplitudes
  import opened Blocks
  import opened Gates
  import opened LocalRules
  import opened Phases
  import opened Products
  import opened GateCalls

  // ---- Operations that share one target ----

  predicate AllOn(gs: seq<Gate>, t: nat) {
    forall g <- gs :: !g.kind.Swap? && g.targets == [t]
  }

  function Families(tr: Trig, gs: seq<Gate>, t: nat): seq<Family>
    requires AllOn(gs, t)
  {
    seq(|gs|, i requires 0 <= i < |gs| => assert gs[i] in gs; FamilyOf(tr, gs[i]))
  }

  lemma OneTargetRun(tr: Trig, w: Complex, gs: seq<Gate>, h: Family, t: nat)
    requires AllOn(gs, t)
    requires forall b: Basis :: Product(Families(tr, gs, t), b) == ScaledBy(w, h(b))
    ensures Equiv(w, Denote(tr, gs), [Mux(h, t)])
  {
    hide Equiv, Product, ScaledBy, GateMatrix, Controlled;
    forall i | 0 <= i < |gs| ensures BlockOf(tr, gs[i]) == Mux(Families(tr, gs, t)[i], t) {
      assert gs[i] in gs;
    }
    assert Denote(tr, gs) == OnTarget(Families(tr, gs, t), t);
    RunIs(w, Families(tr, gs, t), h, t);
  }

  lemma BareAt(tr: Trig, g: Gate, b: Basis)
    requires !g.kind.Swap? && g.controls == []
    ensures FamilyOf(tr, g)(b) == GateMatrix(tr, g)
  {
    hide GateMatrix;
  }

  lemma CxAt(tr: Trig, c: nat, t: nat, b: Basis)
    requires c != t
    ensures FamilyOf(tr, Cx(false, c, t))(b) == if c in b then MatX else Identity
  {
    assert Wires([c]) <= b <==> c in b;
  }

  /** Equiv survives replacing w by an equal number. */
  lemma Chain(v: Complex, w: Complex, u: Complex, xs: seq<Block>, ys: seq<Block>, zs: seq<Block>)
    requires Equiv(v, xs, ys) && Equiv(w, ys, zs) && Mul(v, w) == u
    ensures Equiv(u, xs, zs)
  {
    hide Equiv, Mul;
    EquivTrans(v, w, xs, ys, zs);
  }

  // ---- U, u and u2 ----

  lemma EulerMeans(tr: Trig, t: nat, theta: real, phi: real, lam: real, h: Family)
    requires tr.Lawful()
    requires forall b: Basis :: h(b) == MatU3(tr, theta, phi, lam)
    ensures Equiv(tr.Phase(-(phi + lam) / 2.0), Denote(tr, EulerOps(false, t, lam, theta, phi)), [Mux(h, t)])
  {
    hide Equiv, Product, ScaledBy, Times, Controlled, tr.Lawful, MatU3;
    var gs := EulerOps(false, t, lam, theta, phi);
    var w := tr.Phase(-(phi + lam) / 2.0);
    EulerAngles(tr, theta, phi, lam);
    forall b: Basis ensures Product(Families(tr, gs, t), b) == ScaledBy(w, h(b)) {
      var f, g, k := FamilyOf(tr, gs[0]), FamilyOf(tr, gs[1]), FamilyOf(tr, gs[2]);
      assert Families(tr, gs, t) == [f, g, k];
      ProductThree(f, g, k, b);
      BareAt(tr, gs[0], b);
      BareAt(tr, gs[1], b);
      BareAt(tr, gs[2], b);
    }
    OneTargetRun(tr, w, gs, h, t);
  }

  // ---- rzz and rzx ----

  /** X on both sides of a diagonal matrix of phases swaps the two phases. */
  lemma FlippedPhases(tr: Trig, x: real, y: real)
    requires tr.Lawful()
    ensures Times(MatX, Times(Straight(tr, x, y), MatX)) == Straight(tr, y, x)
  {
    hide Times, tr.Lawful, Straight, Cross;
    NamedPhases(tr, 0.0);
    StraightCross(tr, x, y, 0.0, 0.0);
    CrossCross(tr, 0.0, 0.0, x, y);
  }

  lemma RzzMatrices(tr: Trig, angle: real, flip: bool)
    requires tr.Lawful()
    ensures var m := if flip then MatX else Identity;
            Times(m, Times(Diag(One, tr.Phase(angle)), m))
            == ScaledBy(tr.Phase(angle / 2.0), MatRz(tr, if flip then -angle else angle))
  {
    hide Times, tr.Lawful, ScaledBy, Trig.Phase;
    PhaseLandmarks(tr);
    var half := angle / 2.0;
    TimesIdentity(Diag(One, tr.Phase(angle)));
    FlippedPhases(tr, 0.0, angle);
    NamedPhases(tr, angle);
    NamedPhases(tr, -angle);
    ScaledStraight(tr, half, -half, half);
    ScaledStraight(tr, half, half, -half);
    assert -angle / 2.0 == -half && -(-angle) / 2.0 == half && half + half == angle && half + -half == 0.0;
  }

  lemma RzzMeans(tr: Trig, angle: real, a: nat, b: nat, h: Family)
    requires tr.Lawful() && a != b
    requires forall s: Basis :: h(s) == MatRz(tr, if a in s then -angle else angle)
    ensures Equiv(tr.Phase(angle / 2.0), Denote(tr, RzzOps(false, angle, a, b)), [Mux(h, b)])
  {
    hide Equiv, Product, ScaledBy, Times, Controlled, tr.Lawful, MatRz;
    var gs := RzzOps(false, angle, a, b);
    forall s: Basis ensures Product(Families(tr, gs, b), s) == ScaledBy(tr.Phase(angle / 2.0), h(s)) {
      var f, g := FamilyOf(tr, gs[0]), FamilyOf(tr, gs[1]);
      assert Families(tr, gs, b) == [f, g, f];
      ProductThree(f, g, f, s);
      CxAt(tr, a, b, s);
      BareAt(tr, gs[1], s);
      RzzMatrices(tr, angle, a in s);
    }
    OneTargetRun(tr, tr.Phase(angle / 2.0), gs, h, b);
  }

  lemma RzxMatrices(tr: Trig, angle: real, flip: bool)
    requires tr.Lawful()
    ensures var m := if flip then MatX else Identity;
            Times(MatH(tr), Times(m, Times(MatRz(tr, angle), Times(m, MatH(tr)))))
            == MatRx(tr, if flip then -angle else angle)
  {
    hide Times, tr.Lawful, ScaledBy, MatH, MatRz, MatRx, Trig.Phase, Straight;
    var h, z := MatH(tr), MatRz(tr, angle);
    HadamardRz(tr, angle);
    HadamardRz(tr, -angle);
    TimesIdentity(h);
    TimesIdentity(Times(z, h));
    NamedPhases(tr, angle);
    NamedPhases(tr, -angle);
    FlippedPhases(tr, -angle / 2.0, angle / 2.0);
    assert -(-angle) / 2.0 == angle / 2.0;
    TimesAssoc(z, MatX, h);
    TimesAssoc(MatX, Times(z, MatX), h);
  }

  lemma RzxMeans(tr: Trig, angle: real, a: nat, b: nat, h: Family)
    requires tr.Lawful() && a != b
    requires forall s: Basis :: h(s) == MatRx(tr, if a in s then -angle else angle)
    ensures Equiv(One, Denote(tr, RzxOps(false, angle, a, b)), [Mux(h, b)])
  {
    hide Equiv, Product, ScaledBy, Times, Controlled, tr.Lawful, MatRz, MatRx, MatH;
    var gs := RzxOps(false, angle, a, b);
    forall s: Basis ensures Product(Families(tr, gs, b), s) == ScaledBy(One, h(s)) {
      var e, f, g := FamilyOf(tr, gs[0]), FamilyOf(tr, gs[1]), FamilyOf(tr, gs[2]);
      assert Families(tr, gs, b) == [e, f, g, f, e];
      ProductFive(e, f, g, f, e, s);
      BareAt(tr, gs[0], s);
      CxAt(tr, a, b, s);
      BareAt(tr, gs[2], s);
      RzxMatrices(tr, angle, a in s);
      ScaledOne(h(s));
    }
    OneTargetRun(tr, One, gs, h, b);
  }

  // ---- cp and cphase ----

  /** X or the identity, after a matrix of phases. */
  lemma MaybeFlip(tr: Trig, flip: bool, x: real, y: real)
    requires tr.Lawful()
    ensures var m := if flip then MatX else Identity;
            && Times(m, Straight(tr, x, y)) == (if flip then Cross(tr, y, x) else Straight(tr, x, y))
            && Times(m, Cross(tr, x, y)) == (if flip then Straight(tr, y, x) else Cross(tr, x, y))
  {
    hide Times, tr.Lawful, Straight, Cross;
    NamedPhases(tr, 0.0);
    CrossStraight(tr, 0.0, 0.0, x, y);
    CrossCross(tr, 0.0, 0.0, x, y);
    StraightStraight(tr, 0.0, 0.0, x, y);
    StraightCross(tr, 0.0, 0.0, x, y);
  }

  /** With quarter = angle/4: the five matrices of cp, with the control's own rotation first. */
  lemma {:induction false} CpMatrices(tr: Trig, quarter: real, on: bool)
    requires tr.Lawful()
    ensures var m := if on then MatX else Identity;
            var own := if on then quarter else -quarter;
            Times(Straight(tr, -quarter, quarter),
                  Times(m, Times(Straight(tr, quarter, -quarter), Times(m, Straight(tr, own, own)))))
            == ScaledBy(tr.Phase(-quarter), if on then Straight(tr, 0.0, 4.0 * quarter) else Straight(tr, 0.0, 0.0))
  {
    hide Times, tr.Lawful, Straight, Cross, Trig.Phase;
    var q := quarter;
    if on {
      MaybeFlip(tr, true, q, q);
      StraightCross(tr, q, -q, q, q);
      MaybeFlip(tr, true, q + q, -q + q);
      StraightStraight(tr, -q, q, -q + q, q + q);
      ScaledStraight(tr, -q, 0.0, 4.0 * q);
      assert -q + (-q + q) == -q + 0.0 && q + (q + q) == -q + 4.0 * q;
    } else {
      MaybeFlip(tr, false, -q, -q);
      StraightStraight(tr, q, -q, -q, -q);
      MaybeFlip(tr, false, q + -q, -q + -q);
      StraightStraight(tr, -q, q, q + -q, -q + -q);
      ScaledStraight(tr, -q, 0.0, 0.0);
      assert -q + (q + -q) == -q + 0.0 && q + (-q + -q) == -q + 0.0;
    }
  }

  /** A rotation about Z on qubit c, seen from another qubit t, is a phase that depends on c. */
  lemma RzFromElsewhere(tr: Trig, angle: real, c: nat, f: Family, t: nat, e: Family)
    requires c != t
    requires forall s: Basis :: f(s) == MatRz(tr, angle)
    requires forall s: Basis :: var x := if c in s then angle / 2.0 else -angle / 2.0; e(s) == Straight(tr, x, x)
    ensures Equiv(One, [Mux(f, c)], [Mux(e, t)])
  {
    hide Equiv, Trig.Phase;
    forall s: Basis | t !in s ensures e(s) == Diag(DiagEntry(f, c, s), DiagEntry(f, c, Blocks.On(s, t))) {
      assert c in s <==> c in Blocks.On(s, t);
    }
    Retarget(f, c, e, t);
  }

  lemma CpMeans(tr: Trig, angle: real, c: nat, t: nat, h: Family)
    requires tr.Lawful() && c != t
    requires forall s: Basis :: h(s) == if c in s then Diag(One, tr.Phase(angle)) else Identity
    ensures Equiv(tr.Phase(-angle / 4.0), Denote(tr, CpOps(false, angle, c, t)), [Mux(h, t)])
  {
    hide Equiv, Product, ScaledBy, Times, Controlled, tr.Lawful, MatRz, Mul, Straight, Trig.Phase, BlockOf;
    var gs := CpOps(false, angle, c, t);
    var q := angle / 4.0;
    var tail := gs[1..];
    var e: Family := (s: Basis) => var x := if c in s then q else -q; Straight(tr, x, x);
    var f, x, r, z := FamilyOf(tr, gs[0]), FamilyOf(tr, gs[1]), FamilyOf(tr, gs[2]), FamilyOf(tr, gs[4]);
    CpFirst(tr, angle, c, t, e);
    EquivInside(One, [], Denote(tr, [gs[0]]), [Mux(e, t)], Denote(tr, tail));
    DenoteConcat(tr, [gs[0]], tail);
    assert gs == [gs[0]] + tail;
    var w := tr.Phase(-q);
    CpTail(tr, angle, c, t);
    var fs := [e, x, r, x, z];
    assert [] + [Mux(e, t)] + Denote(tr, tail) == OnTarget(fs, t);
    forall s: Basis ensures Product(fs, s) == ScaledBy(w, h(s)) {
      ProductFive(e, x, r, x, z, s);
      CxAt(tr, c, t, s);
      BareAt(tr, gs[2], s);
      BareAt(tr, gs[4], s);
      CpEntries(tr, angle);
      CpMatrices(tr, q, c in s);
    }
    RunIs(w, fs, h, t);
    MulOne(w);
    assert [] + Denote(tr, [gs[0]]) + Denote(tr, tail) == Denote(tr, gs);
    Chain(One, w, w, Denote(tr, gs), OnTarget(fs, t), [Mux(h, t)]);
    assert -angle / 4.0 == -q;
  }

  lemma CpFirst(tr: Trig, angle: real, c: nat, t: nat, e: Family)
    requires c != t
    requires forall s: Basis :: var x := if c in s then angle / 4.0 else -(angle / 4.0); e(s) == Straight(tr, x, x)
    ensures Equiv(One, Denote(tr, [CpOps(false, angle, c, t)[0]]), [Mux(e, t)])
  {
    hide Equiv, Straight, MatRz, Controlled;
    var g := CpOps(false, angle, c, t)[0];
    DenoteOne(tr, g);
    forall s: Basis ensures FamilyOf(tr, g)(s) == MatRz(tr, angle / 2.0) {
      BareAt(tr, g, s);
    }
    assert angle / 2.0 / 2.0 == angle / 4.0 && -(angle / 2.0) / 2.0 == -(angle / 4.0);
    RzFromElsewhere(tr, angle / 2.0, c, FamilyOf(tr, g), t, e);
  }

  lemma CpTail(tr: Trig, angle: real, c: nat, t: nat)
    requires c != t
    ensures var gs := CpOps(false, angle, c, t);
            Denote(tr, gs[1..]) == [Mux(FamilyOf(tr, gs[1]), t), Mux(FamilyOf(tr, gs[2]), t),
                                    Mux(FamilyOf(tr, gs[1]), t), Mux(FamilyOf(tr, gs[4]), t)]
  {
    hide Controlled, GateMatrix;
  }

  lemma CpEntries(tr: Trig, angle: real)
    requires tr.Lawful()
    ensures var q := angle / 4.0;
            && MatRz(tr, angle / 2.0) == Straight(tr, -q, q) && MatRz(tr, -angle / 2.0) == Straight(tr, q, -q)
            && Straight(tr, 0.0, 0.0) == Identity && Straight(tr, 0.0, 4.0 * q) == Diag(One, tr.Phase(angle))
  {
    hide tr.Lawful, Trig.Phase;
    PhaseLandmarks(tr);
    assert -(angle / 2.0) / 2.0 == -(angle / 4.0) && -(-angle / 2.0) / 2.0 == angle / 4.0;
  }
}
