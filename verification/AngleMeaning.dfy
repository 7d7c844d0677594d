/** What normalising and deleting rotations does to the meaning of a circuit. */
module AngleMeaning {
  import opened Amplitudes
  import opened Blocks
  import opened Gates
  import opened LocalRules
  import opened Soundness
  import opened Angles

  /** A gate whose matrix is w times that of another, on the same wires: w must be one under controls. */
  lemma ScaledGate(tr: Trig, w: Complex, g': Gate, g: Gate)
    requires !g.kind.Swap? && !g'.kind.Swap? && g'.controls == g.controls && g'.targets == g.targets
    requires GateMatrix(tr, g') == ScaledBy(w, GateMatrix(tr, g))
    requires g.controls == [] || w == One
    ensures Means(tr, w, [g'], [g])
  {
    hide Equiv, GateMatrix, ScaledBy;
    DenoteOne(tr, g');
    DenoteOne(tr, g);
    ScaledOne(GateMatrix(tr, g));
    if g.controls == [] {
      assert forall b: Basis, m: Matrix :: Controlled(Wires([]), m)(b) == m;
      MuxScaled(w, FamilyOf(tr, g'), FamilyOf(tr, g), g.targets[0]);
    } else {
      EquivRefl([BlockOf(tr, g)]);
    }
  }

  predicate Odd(k: int) { k % 2 != 0 }

  /** A rotation that an odd number of full turns is taken off, under controls. */
  predicate SignLost(pi: real, g: Gate)
    requires pi > 0.0
  {
    g.kind in {Rx, Ry, Rz} && g.controls != [] && Odd(Turns(pi, g.params[0]))
  }

  predicate SignPaid(pi: real, g: Gate)
    requires pi > 0.0
  {
    g.kind in {Rx, Ry, Rz} && Odd(Turns(pi, g.params[0]))
  }

  lemma NormalizedMatrix(tr: Trig, g: Gate)
    requires tr.Lawful() && Rotation(g)
    ensures GateMatrix(tr, Normalized(tr.pi, g)) == ScaledBy(SignOf(Turns(tr.pi, g.params[0])), GateMatrix(tr, g))
  {
    hide GateMatrix;
    TurnedMatrix(tr, g, Normalized(tr.pi, g), Turns(tr.pi, g.params[0]));
  }

  lemma NormalizedMeans(tr: Trig, g: Gate)
    requires tr.Lawful() && !SignLost(tr.pi, g)
    ensures Means(tr, if SignPaid(tr.pi, g) then MinusOne else One, [Normalized(tr.pi, g)], [g])
  {
    hide Means, GateMatrix, Turns, NormalAngle;
    if Rotation(g) {
      NormalizedMatrix(tr, g);
      assert SignOf(Turns(tr.pi, g.params[0])) == if SignPaid(tr.pi, g) then MinusOne else One;
      ScaledGate(tr, SignOf(Turns(tr.pi, g.params[0])), Normalized(tr.pi, g), g);
    } else {
      MeansRefl(tr, [g]);
    }
  }

  // ---- The sign is lost under controls ----

  /** Under controls, negating a gate's matrix is not a global factor. */
  lemma NegatedUnderControls(w: Complex, cs: set<nat>, t: nat, m: Matrix)
    requires cs != {} && t !in cs && (m.a != Zero || m.c != Zero)
    ensures !Equiv(w, [Mux(Controlled(cs, ScaledBy(MinusOne, m)), t)], [Mux(Controlled(cs, m), t)])
  {
    hide Equiv, Mul;
    var f, g := Controlled(cs, ScaledBy(MinusOne, m)), Controlled(cs, m);
    if Equiv(w, [Mux(f, t)], [Mux(g, t)]) {
      assert !(cs <= {});
      MuxDetermined(w, f, g, t, {});
      MuxDetermined(w, f, g, t, cs);
      MulOne(w);
      MulOne(m.a);
      MulOne(m.c);
      Negate(m.a);
      Negate(m.c);
      NotItsNegation(m.a);
      NotItsNegation(m.c);
      assert false;
    }
  }

  lemma NotItsNegation(x: Complex)
    ensures Complex(-x.re, -x.im) == x ==> x == Zero
  {
  }

  lemma {:induction false} RotationColumn(tr: Trig, g: Gate)
    requires tr.Lawful() && Rotation(g)
    ensures GateMatrix(tr, g).a != Zero || GateMatrix(tr, g).c != Zero
  {
    hide tr.Lawful, GateMatrix;
    var x := g.params[0] / 2.0;
    NegativeAngle(tr, x);
    UnitAt(tr, x);
    assert -g.params[0] / 2.0 == -x;
    RotationEntries(tr, g, tr.cos(x), tr.sin(x));
    NotBothZero(tr.cos(x), tr.sin(x));
  }

  lemma NotBothZero(c: real, s: real)
    requires c * c + s * s == 1.0
    ensures c != 0.0 || s != 0.0
  {
  }

  lemma SignLostBreaks(tr: Trig, w: Complex, g: Gate)
    requires tr.Lawful() && SignLost(tr.pi, g)
    ensures !Means(tr, w, [Normalized(tr.pi, g)], [g])
  {
    hide Equiv, GateMatrix, Turns, NormalAngle, tr.Lawful, Operation.WellFormed;
    PositivePi(tr);
    var n, cs := Normalized(tr.pi, g), Wires(g.controls);
    NormalizedMatrix(tr, g);
    RotationColumn(tr, g);
    OperandsApart(g);
    assert g.controls[0] in cs;
    NegatedUnderControls(w, cs, g.targets[0], GateMatrix(tr, g));
    DenoteOne(tr, n);
    DenoteOne(tr, g);
  }

  /** Normalising one gate keeps its meaning up to a global factor exactly when the gate is not a
      controlled rotation that loses an odd number of turns. */
  lemma NormalizingExact(tr: Trig, g: Gate)
    requires tr.Lawful()
    ensures (exists w: Complex :: Means(tr, w, [Normalized(tr.pi, g)], [g])) <==> !SignLost(tr.pi, g)
  {
    hide Means, tr.Lawful, SignLost, SignPaid, Normalized;
    PositivePi(tr);
    if SignLost(tr.pi, g) {
      if w: Complex :| Means(tr, w, [Normalized(tr.pi, g)], [g]) {
        SignLostBreaks(tr, w, g);
        assert false;
      }
    } else {
      NormalizedMeans(tr, g);
    }
  }

  /** How many rotations of the circuit lose an odd number of turns. */
  function SignsPaid(pi: real, gs: seq<Gate>): nat
    requires pi > 0.0
  {
    if gs == [] then 0 else SignsPaid(pi, gs[..|gs| - 1]) + (if SignPaid(pi, gs[|gs| - 1]) then 1 else 0)
  }

  /** Normalising a whole circuit keeps its meaning up to a sign, unless a controlled rotation loses
      an odd number of turns. */
  lemma {:induction false} NormalizingSound(tr: Trig, gs: seq<Gate>)
    requires tr.Lawful() && forall g <- gs :: !SignLost(tr.pi, g)
    ensures Means(tr, SignOf(SignsPaid(tr.pi, gs)), AllNormalized(tr.pi, gs), gs)
  {
    hide Means, SignOf, SignLost, SignPaid, Normalized, Mul, Operation.WellFormed;
    if gs == [] {
      MeansRefl(tr, []);
      SignZero();
    } else {
      var init, g := gs[..|gs| - 1], gs[|gs| - 1];
      assert g in gs && forall h <- init :: h in gs;
      NormalizingSound(tr, init);
      NormalizedMeans(tr, g);
      var j, k: nat := SignsPaid(tr.pi, init), if SignPaid(tr.pi, g) then 1 else 0;
      SignOne();
      SignZero();
      MeansConcat(tr, SignOf(j), SignOf(k), AllNormalized(tr.pi, init), init, [Normalized(tr.pi, g)], [g]);
      assert init + [g] == gs;
      SignSum(j, k);
    }
  }

  lemma SignOne()
    ensures SignOf(1) == MinusOne
  {
  }

  // ---- Deleting null rotations ----

  lemma NoRotation(tr: Trig, g: Gate)
    requires tr.Lawful() && Rotation(g) && g.params[0] == 0.0
    ensures GateMatrix(tr, g) == Identity
  {
    hide GateMatrix;
    RotationEntries(tr, g, 1.0, 0.0) by { ZeroHalf(tr, g.params[0]); }
  }

  lemma ZeroHalf(tr: Trig, a: real)
    requires tr.Lawful() && a == 0.0
    ensures tr.cos(a / 2.0) == 1.0 && tr.sin(a / 2.0) == 0.0 && tr.cos(-a / 2.0) == 1.0 && tr.sin(-a / 2.0) == 0.0
  {
    assert a / 2.0 == 0.0 && -a / 2.0 == 0.0;
  }

  /** Deleting a rotation by zero is exact, whatever controls it has. */
  lemma ZeroRotationMeans(tr: Trig, g: Gate)
    requires tr.Lawful() && Rotation(g) && g.params[0] == 0.0
    ensures Means(tr, One, [], [g])
  {
    hide Equiv, GateMatrix, ScaledBy, tr.Lawful;
    NoRotation(tr, g);
    ScaledOne(Identity);
    MuxScalar(One, FamilyOf(tr, g), g.targets[0]);
    DenoteOne(tr, g);
    DenoteNone(tr);
    EquivSymOne([BlockOf(tr, g)], []);
  }

  /** A null rotation is normalised to a rotation by zero, so deleting it costs what normalising it
      costs: a sign for an odd number of turns, which must not be under controls. */
  lemma NullMatters(tr: Trig, w: Complex, g: Gate)
    requires tr.Lawful() && NullRotation(tr.pi, g)
    ensures Means(tr, w, [], [g]) <==> Means(tr, w, [Normalized(tr.pi, g)], [g])
  {
    hide Means, tr.Lawful, Mul, NormalAngle, DoublePiMultiple;
    PositivePi(tr);
    var n := Normalized(tr.pi, g);
    NullAngle(tr.pi, g.params[0]);
    ZeroRotationMeans(tr, n);
    MeansSym(tr, [], [n]);
    MulOne(w);
    if Means(tr, w, [], [g]) {
      MeansTrans(tr, One, w, [n], [], [g]);
    }
    if Means(tr, w, [n], [g]) {
      MeansTrans(tr, One, w, [], [n], [g]);
    }
  }

  lemma NullAngle(pi: real, a: real)
    requires pi > 0.0 && (DoublePiMultiple(pi, a) || a == 0.0)
    ensures NormalAngle(pi, a) == 0.0
  {
    hide DoublePiMultiple;
    FmodZero(pi, a);
    NormalZero(pi, a);
    if a == 0.0 {
      assert a == FullTurns(0, pi);
    }
  }

  /** Deleting one null rotation is sound up to a global factor exactly when it is not a controlled
      rotation by an odd number of turns. */
  lemma DeletingExact(tr: Trig, g: Gate)
    requires tr.Lawful() && NullRotation(tr.pi, g)
    ensures (exists w: Complex :: Means(tr, w, [], [g])) <==> !SignLost(tr.pi, g)
  {
    hide Means, tr.Lawful, SignLost, NullRotation, Normalized;
    PositivePi(tr);
    forall w: Complex ensures Means(tr, w, [], [g]) <==> Means(tr, w, [Normalized(tr.pi, g)], [g]) {
      NullMatters(tr, w, g);
    }
    NormalizingExact(tr, g);
  }

  function ControlledRx(a: real, c: nat, t: nat): Gate
    requires c != t
  {
    assert [c, t][1..] == [t] && Distinct([c] + [t]);
    Operation(Rx, false, [a], [c], [t])
  }

  /** A controlled Rx by one full turn: both passes lose its sign, and no factor makes up for it. */
  lemma FullTurnBreaks(tr: Trig)
    requires tr.Lawful()
    ensures var g := ControlledRx(2.0 * tr.pi, 0, 1);
            && NullRotation(tr.pi, g) && Normalized(tr.pi, g) == ControlledRx(0.0, 0, 1)
            && forall w: Complex :: !Means(tr, w, [Normalized(tr.pi, g)], [g]) && !Means(tr, w, [], [g])
  {
    hide Means, tr.Lawful;
    PositivePi(tr);
    var g := ControlledRx(2.0 * tr.pi, 0, 1);
    Quotient(1.0, 2.0 * tr.pi);
    assert g.params[0] / (2.0 * tr.pi) == 1.0;
    assert Turns(tr.pi, g.params[0]) == 1 && NullRotation(tr.pi, g) && SignLost(tr.pi, g);
    NormalizingExact(tr, g);
    DeletingExact(tr, g);
  }

  /** After normalising, deleting null rotations is exact on every circuit, with or without controls. */
  lemma {:induction false} DeletingAfterNormalizing(tr: Trig, gs: seq<Gate>)
    requires tr.Lawful()
    ensures Means(tr, One, WithoutNulls(tr.pi, AllNormalized(tr.pi, gs)), AllNormalized(tr.pi, gs))
  {
    hide Means, NullRotation, Normalized, Operation.WellFormed, tr.Lawful, Mul;
    PositivePi(tr);
    MulOne(One);
    if gs == [] {
      MeansRefl(tr, []);
    } else {
      var init, n := gs[..|gs| - 1], Normalized(tr.pi, gs[|gs| - 1]);
      var xs := AllNormalized(tr.pi, init);
      var kept := WithoutNulls(tr.pi, xs);
      DeletingAfterNormalizing(tr, init);
      NullsSnoc(tr.pi, xs, n);
      assert AllNormalized(tr.pi, gs) == xs + [n];
      if NullRotation(tr.pi, n) {
        NullIsZero(tr.pi, gs[|gs| - 1]);
        ZeroRotationMeans(tr, n);
        MeansConcat(tr, One, One, kept, xs, [], [n]);
        assert kept + [] == kept;
      } else {
        MeansRefl(tr, [n]);
        MeansConcat(tr, One, One, kept, xs, [n], [n]);
      }
    }
  }

  lemma NullIsZero(pi: real, g: Gate)
    requires pi > 0.0 && NullRotation(pi, Normalized(pi, g))
    ensures Rotation(Normalized(pi, g)) && Normalized(pi, g).params[0] == 0.0
  {
    hide DoublePiMultiple, NormalAngle;
    NormalRange(pi, g.params[0]);
    NullInRange(pi, NormalAngle(pi, g.params[0]));
  }

  /** Normalising and then deleting null rotations keeps the meaning of the circuit up to a sign. */
  lemma CleanedSound(tr: Trig, gs: seq<Gate>)
    requires tr.Lawful() && forall g <- gs :: !SignLost(tr.pi, g)
    ensures Means(tr, SignOf(SignsPaid(tr.pi, gs)), WithoutNulls(tr.pi, AllNormalized(tr.pi, gs)), gs)
  {
    hide Means, SignOf, SignLost, SignsPaid, Mul, tr.Lawful, WithoutNulls, AllNormalized;
    PositivePi(tr);
    var w := SignOf(SignsPaid(tr.pi, gs));
    var xs := AllNormalized(tr.pi, gs);
    NormalizingSound(tr, gs);
    DeletingAfterNormalizing(tr, gs);
    MeansTrans(tr, One, w, WithoutNulls(tr.pi, xs), xs, gs);
    MulOne(w);
  }

  lemma PositivePi(tr: Trig)
    requires tr.Lawful()
    ensures tr.pi > 0.0
  {
  }
}
