/** When the one-wire scan is enough: the guard of the two-qubit rewrites is exact.

    A two-qubit rewrite compares wires only, so the question a caller can ask is about wires: are the
    wires between the two matched gates such that the rewrite is sound whatever gates sit on them? */
module Guards {
  import opened Amplitudes
  import opened Blocks
  import opened Gates
  import opened Scans
  import opened Passes
  import opened LocalRules
  import opened Soundness
  import opened Unitary

  /** The same gates up to what they do: equal operands, position by position. */
  predicate SameWiring(xs: seq<Gate>, ys: seq<Gate>) {
    |xs| == |ys| && forall i :: 0 <= i < |xs| ==> xs[i].controls == ys[i].controls && xs[i].targets == ys[i].targets
  }

  lemma FreeByWiring(p: Gate, xs: seq<Gate>, ys: seq<Gate>)
    requires SameWiring(xs, ys) && Free(p, xs)
    ensures Free(p, ys)
  {
    forall g | g in ys ensures Passable(p, g) {
      var i :| 0 <= i < |ys| && ys[i] == g;
      assert Passable(p, xs[i]);
    }
  }

  // ---- Gates that do nothing ----

  /** A rotation by zero on the wires of g. */
  function Null(g: Gate): Gate
    requires !g.kind.Swap?
  {
    Operation(Rz, false, [0.0], g.controls, g.targets)
  }

  lemma ZeroRotation(tr: Trig, n: Gate)
    requires tr.Lawful() && n.kind == Rz && n.params == [0.0] && !n.adj
    ensures GateMatrix(tr, n) == Identity
  {
    assert 0.0 / 2.0 == 0.0 && -0.0 / 2.0 == 0.0;
  }

  lemma NullMeans(tr: Trig, g: Gate)
    requires tr.Lawful() && !g.kind.Swap?
    ensures Means(tr, One, [Null(g)], [])
  {
    hide Equiv, Denote, GateMatrix, ScaledBy;
    var n := Null(g);
    ZeroRotation(tr, n);
    ScaledOne(Identity);
    MuxScalar(One, FamilyOf(tr, n), n.targets[0]);
    DenoteOne(tr, n);
    DenoteNone(tr);
  }

  predicate SingleTargets(gs: seq<Gate>) {
    forall g <- gs :: !g.kind.Swap?
  }

  function Nulls(gs: seq<Gate>): seq<Gate>
    requires SingleTargets(gs)
  {
    seq(|gs|, i requires 0 <= i < |gs| => assert gs[i] in gs; Null(gs[i]))
  }

  lemma {:induction false} NullsMean(tr: Trig, gs: seq<Gate>)
    requires tr.Lawful() && SingleTargets(gs)
    ensures Means(tr, One, Nulls(gs), [])
    decreases |gs|
  {
    hide Means, tr.Lawful, Null;
    if gs == [] {
      assert Nulls(gs) == [];
      MeansRefl(tr, []);
    } else {
      assert gs[0] in gs;
      assert Nulls(gs) == [] + [Null(gs[0])] + Nulls(gs[1..]);
      NullMeans(tr, gs[0]);
      MeansInside(tr, One, [], [Null(gs[0])], [], Nulls(gs[1..]));
      NullsMean(tr, gs[1..]);
      assert [] + [] + Nulls(gs[1..]) == Nulls(gs[1..]);
      MeansChain(tr, Nulls(gs), Nulls(gs[1..]), []);
    }
  }

  /** The same wiring with nothing on it but x at position i. */
  function Alone(gs: seq<Gate>, i: nat, x: Gate): seq<Gate>
    requires i < |gs| && SingleTargets(gs)
  {
    Nulls(gs)[i := x]
  }

  lemma AloneMeans(tr: Trig, gs: seq<Gate>, i: nat, x: Gate)
    requires tr.Lawful() && i < |gs| && SingleTargets(gs)
    ensures Means(tr, One, Alone(gs, i, x), [x])
  {
    hide Means, tr.Lawful, Null;
    var pre, post := gs[..i], gs[i + 1..];
    assert SingleTargets(pre) && SingleTargets(post);
    NullsMean(tr, pre);
    NullsMean(tr, post);
    assert Alone(gs, i, x) == [] + Nulls(pre) + ([x] + Nulls(post));
    MeansInside(tr, One, [], Nulls(pre), [], [x] + Nulls(post));
    MeansInside(tr, One, [x], Nulls(post), [], []);
    assert [x] + Nulls(post) + [] == [] + [] + ([x] + Nulls(post));
    assert [x] + [] + [] == [x];
    MeansChain(tr, Alone(gs, i, x), [x] + Nulls(post) + [], [x]);
  }

  // ---- A controlled gate does not commute with a gate that targets its control ----

  lemma StepControlled(ds: set<nat>, m: Matrix, t: nat, psi: State, b: Basis)
    requires t !in ds
    ensures !(ds <= b) ==> Step(Mux(Controlled(ds, m), t), psi)(b) == psi(b)
    ensures ds <= b && t in b ==>
              Step(Mux(Controlled(ds, m), t), psi)(b) == Dot(m.c, psi(Off(b, t)), m.d, psi(b))
    ensures ds <= b && t !in b ==>
              Step(Mux(Controlled(ds, m), t), psi)(b) == Dot(m.a, psi(b), m.b, psi(On(b, t)))
  {
    hide Dot;
    BitCases(t, b);
    assert ds <= Off(b, t) <==> ds <= b;
    assert t in b ==> On(b, t) == b;
    assert t !in b ==> Off(b, t) == b;
    DotIdentity(psi(Off(b, t)), psi(On(b, t)));
  }

  /** CM x CM, with x a (controlled) X on the control of CM, applies M at one value of the control. */
  lemma {:induction false} Sandwiched(c: nat, t: nat, m: Matrix, ds: set<nat>, psi: State)
    requires c != t && c !in ds && t !in ds
    ensures var p, x := Mux(Controlled({c}, m), t), Mux(Controlled(ds, MatX), c);
            var high, low := On(On(ds, c), t), ds;
            && Step(p, Step(x, Step(p, psi)))(high) == Dot(m.c, psi(ds), m.d, psi(On(ds, t)))
            && Step(x, psi)(high) == psi(On(ds, t))
            && Step(p, Step(x, Step(p, psi)))(low) == Dot(m.a, psi(On(ds, c)), m.b, psi(On(On(ds, c), t)))
            && Step(x, psi)(low) == psi(On(ds, c))
  {
    hide Dot, Step, Controlled;
    var p, x := Mux(Controlled({c}, m), t), Mux(Controlled(ds, MatX), c);
    var s1 := Step(p, psi);
    var s2 := Step(x, s1);
    var dc, dt := On(ds, c), On(ds, t);
    var dct := On(dc, t);
    assert Off(dct, t) == dc && Off(dct, c) == dt && Off(dc, c) == ds;
    StepControlled({c}, m, t, s2, dct);
    StepControlled({c}, m, t, s2, ds);
    StepControlled(ds, MatX, c, s1, dct);
    StepControlled(ds, MatX, c, s1, dc);
    StepControlled(ds, MatX, c, s1, ds);
    StepControlled(ds, MatX, c, psi, dct);
    StepControlled(ds, MatX, c, psi, ds);
    StepControlled({c}, m, t, psi, ds);
    StepControlled({c}, m, t, psi, dt);
    StepControlled({c}, m, t, psi, dc);
    DotIdentity(s1(dt), s1(dct));
    DotIdentity(s1(ds), s1(dc));
    DotIdentity(psi(dt), psi(dct));
    DotIdentity(psi(ds), psi(dc));
  }

  /** For a traceless M, no number w makes x equal to w times CM x CM. */
  lemma NeverSandwiched(w: Complex, c: nat, t: nat, m: Matrix, ds: set<nat>)
    requires c != t && c !in ds && t !in ds && Add(m.a, m.d) == Zero
    ensures var p, x := Mux(Controlled({c}, m), t), Mux(Controlled(ds, MatX), c);
            !Equiv(w, [x], [p, x, p])
  {
    hide Dot, Step, Controlled, Mul, Effect, Add;
    var p, x := Mux(Controlled({c}, m), t), Mux(Controlled(ds, MatX), c);
    if Equiv(w, [x], [p, x, p]) {
      var high, low := Certain(On(ds, t)), Certain(On(ds, c));
      EffectOne(x, high);
      EffectOne(x, low);
      EffectThree(p, x, p, high);
      EffectThree(p, x, p, low);
      Sandwiched(c, t, m, ds, high);
      Sandwiched(c, t, m, ds, low);
      assert On(ds, t) != ds && On(On(ds, c), t) != On(ds, c);
      DotCertain(m.c, m.d);
      DotCertain(m.a, m.b);
      assert One == Mul(w, m.d) && One == Mul(w, m.a);
      MulAddRight(w, m.a, m.d);
      TwoIsNotZero(w);
      assert false;
    }
  }

  lemma TwoIsNotZero(w: Complex)
    ensures Add(One, One) != Mul(w, Zero)
  {
  }

  lemma EffectThree(j: Block, k: Block, l: Block, psi: State)
    ensures Effect([j, k, l], psi) == Step(l, Step(k, Step(j, psi)))
  {
    hide Step, Effect;
    assert [j, k, l] == [j, k] + [l];
    EffectConcat([j, k], [l], psi);
    EffectTwo(j, k, psi);
    EffectOne(l, Step(k, Step(j, psi)));
  }

  // ---- Controlled pairs ----

  /** A controlled X, Y, Z or H. */
  predicate ControlledPauliOrH(p: Gate) {
    |p.controls| == 1 && |p.targets| == 1 && p.kind in {X, Y, Z, H}
  }

  lemma Traceless(tr: Trig, p: Gate)
    requires p.kind in {X, Y, Z, H}
    ensures Add(GateMatrix(tr, p).a, GateMatrix(tr, p).d) == Zero
  {
    SelfAdjoint(tr, p);
    Negate(tr.Root());
  }

  /** An X on the control of p, under the controls of g. */
  function Blocker(g: Gate): Gate
    requires !g.kind.Swap?
  {
    Operation(X, false, [], g.controls, g.targets)
  }

  /** p x p is never a multiple of x when x is an X on p's control. */
  lemma BlockerBlocks(tr: Trig, w: Complex, p: Gate, g: Gate)
    requires ControlledPauliOrH(p) && !g.kind.Swap? && g.targets[0] == p.controls[0] && !g.Touches(p.targets[0])
    ensures !Means(tr, w, [Blocker(g)], [p, Blocker(g), p])
  {
    hide Equiv, MatH, Add;
    var x := Blocker(g);
    var c, t := p.controls[0], p.targets[0];
    var m, ds := GateMatrix(tr, p), Wires(g.controls);
    Traceless(tr, p);
    OperandsApart(p);
    OperandsApart(g);
    NeverSandwiched(w, c, t, m, ds);
    DenoteOne(tr, x);
    DenoteThree(tr, p, x, p);
    assert Wires(p.controls) == {c};
    assert BlockOf(tr, p) == Mux(Controlled({c}, m), t);
    assert BlockOf(tr, x) == Mux(Controlled(ds, MatX), c);
  }

  /** Cancelling the pair p, p around mid is sound. */
  ghost predicate CancelSound(tr: Trig, p: Gate, mid: seq<Gate>) {
    exists w: Complex :: Means(tr, w, mid, [p] + mid + [p])
  }

  lemma FreeCancels(tr: Trig, p: Gate, mid: seq<Gate>)
    requires tr.Lawful() && ControlledPauliOrH(p) && Free(p, mid)
    ensures Means(tr, One, mid, [p] + mid + [p])
  {
    hide Means, tr.Lawful, Free;
    Slide(tr, p, mid);
    MeansInside(tr, One, [], [p] + mid, mid + [p], [p]);
    assert [] + ([p] + mid) + [p] == [p] + mid + [p];
    assert [] + (mid + [p]) + [p] == mid + [p, p] + [];
    CancelPair(tr, p, p);
    MeansInside(tr, One, mid, [p, p], [], []);
    assert mid + [] + [] == mid;
    MeansChain(tr, [p] + mid + [p], mid + [p, p] + [], mid);
    MeansSym(tr, [p] + mid + [p], mid);
  }

  lemma NotFreeBlocks(tr: Trig, p: Gate, mid: seq<Gate>, i: nat)
    requires tr.Lawful() && ControlledPauliOrH(p) && SingleTargets(mid)
    requires forall g <- mid :: !g.Touches(p.targets[0])
    requires i < |mid| && mid[i].targets == [p.controls[0]]
    ensures SameWiring(mid, Alone(mid, i, Blocker(mid[i])))
    ensures !CancelSound(tr, p, Alone(mid, i, Blocker(mid[i])))
  {
    hide Means, tr.Lawful, ControlledPauliOrH;
    var x := Blocker(mid[i]);
    var mid' := Alone(mid, i, x);
    AloneMeans(tr, mid, i, x);
    if w: Complex :| Means(tr, w, mid', [p] + mid' + [p]) {
      MeansInside(tr, One, [p], mid', [x], [p]);
      MeansSym(tr, mid', [x]);
      MeansTrans(tr, One, w, [x], mid', [p] + mid' + [p]);
      MeansTrans(tr, Mul(One, w), One, [x], [p] + mid' + [p], [p] + [x] + [p]);
      assert [p] + [x] + [p] == [p, x, p];
      BlockerBlocks(tr, Mul(Mul(One, w), One), p, mid[i]);
      assert false;
    }
  }

  /** Main theorem of this module.  Let p be a controlled gate that cancels with its repetition, and
      let mid be what the scan of p's target skips.  Cancelling is sound whatever gates sit on the
      wires of mid, even if a global factor is forgiven, exactly when nothing in mid targets p's
      control. */
  lemma CancelGuardExact(tr: Trig, p: Gate, mid: seq<Gate>)
    requires tr.Lawful() && ControlledPauliOrH(p) && SingleTargets(mid)
    requires forall g <- mid :: !g.Touches(p.targets[0])
    ensures (forall mid': seq<Gate> | SameWiring(mid, mid') :: CancelSound(tr, p, mid'))
        <==> (forall g <- mid :: p.controls[0] !in g.targets)
  {
    hide Means, tr.Lawful, ControlledPauliOrH;
    assert |p.controls| == 1 && |p.targets| == 1 by { OneAndOne(p); }
    if forall g <- mid :: p.controls[0] !in g.targets {
      assert Free(p, mid);
      forall mid': seq<Gate> | SameWiring(mid, mid') ensures CancelSound(tr, p, mid') {
        FreeByWiring(p, mid, mid');
        FreeCancels(tr, p, mid');
      }
    } else {
      var g :| g in mid && p.controls[0] in g.targets;
      var i :| 0 <= i < |mid| && mid[i] == g;
      assert |g.targets| == 1;
      NotFreeBlocks(tr, p, mid, i);
    }
  }

  lemma OneAndOne(p: Gate)
    requires ControlledPauliOrH(p)
    ensures |p.controls| == 1 && |p.targets| == 1
  {
  }

  // ---- Commuting a CX to the right ----

  /** Moving p behind g, where p is separated from g by mid, is sound. */
  ghost predicate MoveSound(tr: Trig, p: Gate, mid: seq<Gate>, g: Gate) {
    exists w: Complex :: Means(tr, w, mid + [g, p], [p] + mid + [g])
  }

  lemma FreeMoves(tr: Trig, p: Gate, mid: seq<Gate>, g: Gate)
    requires Free(p, mid) && Means(tr, One, [p, g], [g, p])
    ensures Means(tr, One, mid + [g, p], [p] + mid + [g])
  {
    hide Means, Free;
    Slide(tr, p, mid);
    MeansInside(tr, One, [], [p] + mid, mid + [p], [g]);
    assert [] + ([p] + mid) + [g] == [p] + mid + [g];
    assert [] + (mid + [p]) + [g] == mid + [p, g] + [];
    MeansInside(tr, One, mid, [p, g], [g, p], []);
    assert mid + [g, p] + [] == mid + [g, p];
    MeansChain(tr, [p] + mid + [g], mid + [p, g] + [], mid + [g, p]);
    MeansSym(tr, [p] + mid + [g], mid + [g, p]);
  }

  /** If moving p over x and g keeps the meaning up to w, then so does wrapping x in p. */
  lemma MoveToSandwich(tr: Trig, w: Complex, p: Gate, x: Gate, g: Gate)
    requires tr.Lawful() && p.Is(X, 1) && Means(tr, One, [p, g], [g, p])
    requires Means(tr, w, [x, g, p], [p, x, g])
    ensures Means(tr, w, [x], [p, x, p])
  {
    hide Means, tr.Lawful, Mul, Operation.WellFormed;
    var u := Adjoint(g);
    // [x] == [x, p, p] == [x, p, g, u, p] == [x, g, p, u, p] == w [p, x, g, u, p] == w [p, x, p]
    CancelPair(tr, p, p);
    AdjointUndoes(tr, g);
    MeansInside(tr, One, [x], [p, p], [], []);
    MeansInside(tr, One, [x, p], [g, u], [], [p]);
    MeansInside(tr, One, [x], [p, g], [g, p], [u, p]);
    MeansInside(tr, w, [], [x, g, p], [p, x, g], [u, p]);
    MeansInside(tr, One, [p, x], [g, u], [], [p]);
    assert [x] + [p, p] + [] == [x, p] + [] + [p] == [x, p, p] && [x] + [] + [] == [x];
    assert [x, p] + [g, u] + [p] == [x] + [p, g] + [u, p] == [x, p, g, u, p];
    assert [x] + [g, p] + [u, p] == [] + [x, g, p] + [u, p] == [x, g, p, u, p];
    assert [] + [p, x, g] + [u, p] == [p, x] + [g, u] + [p] == [p, x, g, u, p];
    assert [p, x] + [] + [p] == [p, x, p];
    MeansSym(tr, [x, p, p], [x]);
    MeansSym(tr, [x, p, g, u, p], [x, p, p]);
    MeansChain(tr, [x], [x, p, p], [x, p, g, u, p]);
    MeansChain(tr, [x], [x, p, g, u, p], [x, g, p, u, p]);
    MeansTrans(tr, One, w, [x], [x, g, p, u, p], [p, x, g, u, p]);
    MeansTrans(tr, Mul(One, w), One, [x], [p, x, g, u, p], [p, x, p]);
    MulOne(w);
    MulOne(Mul(One, w));
  }

  /** A sound move over the wiring of mid with nothing on it but x is a sandwich. */
  lemma MoveAlone(tr: Trig, w: Complex, p: Gate, mid: seq<Gate>, i: nat, x: Gate, g: Gate)
    requires tr.Lawful() && p.Is(X, 1) && Means(tr, One, [p, g], [g, p])
    requires SingleTargets(mid) && i < |mid|
    requires Means(tr, w, Alone(mid, i, x) + [g, p], [p] + Alone(mid, i, x) + [g])
    ensures Means(tr, w, [x], [p, x, p])
  {
    hide Means, tr.Lawful, Alone, Mul;
    var mid' := Alone(mid, i, x);
    AloneMeans(tr, mid, i, x);
    MeansInside(tr, One, [], mid', [x], [g, p]);
    MeansInside(tr, One, [p], mid', [x], [g]);
    assert [] + mid' + [g, p] == mid' + [g, p] && [] + [x] + [g, p] == [x, g, p];
    assert [p] + [x] + [g] == [p, x, g];
    MeansSym(tr, mid' + [g, p], [x, g, p]);
    MeansTrans(tr, One, w, [x, g, p], mid' + [g, p], [p] + mid' + [g]);
    MeansTrans(tr, Mul(One, w), One, [x, g, p], [p] + mid' + [g], [p, x, g]);
    MulOne(w);
    MulOne(Mul(One, w));
    MoveToSandwich(tr, w, p, x, g);
  }

  lemma AloneWiring(gs: seq<Gate>, i: nat, x: Gate)
    requires i < |gs| && SingleTargets(gs) && x.controls == gs[i].controls && x.targets == gs[i].targets
    ensures SameWiring(gs, Alone(gs, i, x))
  {
  }

  /** CX-Rx and CX-X: moving a CX behind a gate on its target, over what the scan of the target
      skips, is sound for every choice of gates on those wires exactly when nothing in between
      targets the CX's control. */
  lemma CommuteGuardExact(tr: Trig, p: Gate, mid: seq<Gate>, g: Gate)
    requires tr.Lawful() && p.Is(X, 1) && g.kind in {Rx, X} && g.targets == p.targets && SingleTargets(mid)
    requires forall k <- mid :: !k.Touches(p.targets[0])
    ensures (forall mid': seq<Gate> | SameWiring(mid, mid') :: MoveSound(tr, p, mid', g))
        <==> (forall k <- mid :: p.controls[0] !in k.targets)
  {
    hide Means, tr.Lawful;
    XCommutesWithRx(tr, p, g);
    if forall k <- mid :: p.controls[0] !in k.targets {
      assert Free(p, mid);
      forall mid': seq<Gate> | SameWiring(mid, mid') ensures MoveSound(tr, p, mid', g) {
        FreeByWiring(p, mid, mid');
        FreeMoves(tr, p, mid', g);
      }
    } else {
      var k :| k in mid && p.controls[0] in k.targets;
      var i :| 0 <= i < |mid| && mid[i] == k;
      AloneWiring(mid, i, Blocker(k));
      if MoveSound(tr, p, Alone(mid, i, Blocker(k)), g) {
        var w: Complex :| Means(tr, w, Alone(mid, i, Blocker(k)) + [g, p], [p] + Alone(mid, i, Blocker(k)) + [g]);
        MoveAlone(tr, w, p, mid, i, Blocker(k), g);
        BlockerBlocks(tr, w, p, k);
        assert false;
      }
    }
  }

  // ---- CX-Z: the scan looks at the control, so the target is the open wire ----

  /** A Z on t, or an X controlled by t, under the wires of k. */
  function TargetBlocker(k: Gate, t: nat): Gate
    requires !k.kind.Swap?
  {
    Operation(if t in k.targets then Z else X, false, [], k.controls, k.targets)
  }

  lemma ZOnTargetBlocks(w: Complex, c: nat, t: nat, ds: set<nat>)
    requires c != t && c !in ds && t !in ds
    ensures var p, x := Mux(Controlled({c}, MatX), t), Mux(Controlled(ds, MatZ), t);
            !Equiv(w, [x], [p, x, p])
  {
    hide Dot, Step, Controlled, Mul, Effect;
    var p, x := Mux(Controlled({c}, MatX), t), Mux(Controlled(ds, MatZ), t);
    if Equiv(w, [x], [p, x, p]) {
      var dc := On(ds, c);
      var dct := On(dc, t);
      var low, high := Certain(ds), Certain(dc);
      assert Off(dct, t) == dc;
      EffectOne(x, low);
      EffectThree(p, x, p, low);
      EffectOne(x, high);
      EffectThree(p, x, p, high);
      StepControlled({c}, MatX, t, low, ds);
      StepControlled(ds, MatZ, t, Step(p, low), ds);
      StepControlled({c}, MatX, t, Step(x, Step(p, low)), ds);
      StepControlled(ds, MatZ, t, low, ds);
      StepControlled({c}, MatX, t, high, dct);
      StepControlled(ds, MatZ, t, Step(p, high), dct);
      StepControlled({c}, MatX, t, Step(x, Step(p, high)), dc);
      StepControlled(ds, MatZ, t, high, dc);
      DotIdentity(One, low(On(ds, t)));
      DotIdentity(One, Step(p, low)(On(ds, t)));
      DotIdentity(One, high(dct));
      DotIdentity(high(dc), high(dct));
      DotLast(Step(p, high)(dc), One);
      DotIdentity(Step(x, Step(p, high))(dc), Step(x, Step(p, high))(dct));
      assert One == Mul(w, One) && One == Mul(w, MinusOne);
      OneIsNotMinusOne(w);
      assert false;
    }
  }

  lemma DotLast(p: Complex, q: Complex)
    ensures Dot(Zero, p, MinusOne, q) == Mul(MinusOne, q)
    ensures Mul(MinusOne, One) == MinusOne
  {
  }

  lemma OneIsNotMinusOne(w: Complex)
    ensures !(One == Mul(w, One) && One == Mul(w, MinusOne))
  {
  }

  lemma XUnderTargetBlocks(w: Complex, c: nat, t: nat, u: nat, ds: set<nat>)
    requires c != t && c !in ds && t in ds && u !in ds && u != c
    ensures var p, x := Mux(Controlled({c}, MatX), t), Mux(Controlled(ds, MatX), u);
            !Equiv(w, [x], [p, x, p])
  {
    hide Dot, Step, Controlled, Mul, Effect;
    var p, x := Mux(Controlled({c}, MatX), t), Mux(Controlled(ds, MatX), u);
    if Equiv(w, [x], [p, x, p]) {
      var b := On(ds, c);
      var d := Off(b, t);
      var psi := Certain(On(b, u));
      assert On(d, t) == b && t !in d && c in d && !(ds <= d) && b != On(b, u);
      EffectOne(x, psi);
      EffectThree(p, x, p, psi);
      StepControlled(ds, MatX, u, psi, b);
      StepControlled({c}, MatX, t, Step(x, Step(p, psi)), b);
      StepControlled(ds, MatX, u, Step(p, psi), d);
      StepControlled({c}, MatX, t, psi, d);
      DotIdentity(psi(b), psi(On(b, u)));
      DotIdentity(Step(x, Step(p, psi))(d), Step(x, Step(p, psi))(b));
      DotIdentity(psi(d), psi(b));
      assert One == Mul(w, Zero);
      ZeroMul();
      assert false;
    }
  }

  lemma TargetBlockerBlocks(tr: Trig, w: Complex, p: Gate, k: Gate)
    requires p.Is(X, 1) && !k.kind.Swap? && k.Touches(p.targets[0]) && !k.Touches(p.controls[0])
    ensures var x := TargetBlocker(k, p.targets[0]);
            !Means(tr, w, [x], [p, x, p])
  {
    hide Equiv, MatH;
    var c, t, u := p.controls[0], p.targets[0], k.targets[0];
    var x, ds := TargetBlocker(k, t), Wires(k.controls);
    OperandsApart(p);
    OperandsApart(k);
    assert Wires(p.controls) == {c};
    assert BlockOf(tr, p) == Mux(Controlled({c}, MatX), t);
    DenoteOne(tr, x);
    DenoteThree(tr, p, x, p);
    if u == t {
      assert BlockOf(tr, x) == Mux(Controlled(ds, MatZ), t);
      ZOnTargetBlocks(w, c, t, ds);
    } else {
      assert BlockOf(tr, x) == Mux(Controlled(ds, MatX), u);
      XUnderTargetBlocks(w, c, t, u, ds);
    }
  }

  /** CX-Z: moving a CX behind a Z on its control, over what the scan of the control skips, is sound
      for every choice of gates on those wires exactly when nothing in between touches the CX's
      target. */
  lemma CxZGuardExact(tr: Trig, p: Gate, mid: seq<Gate>, g: Gate)
    requires tr.Lawful() && p.Is(X, 1) && g.Is(Z, 0) && g.targets == p.controls && SingleTargets(mid)
    requires forall k <- mid :: !k.Touches(p.controls[0])
    ensures (forall mid': seq<Gate> | SameWiring(mid, mid') :: MoveSound(tr, p, mid', g))
        <==> (forall k <- mid :: !k.Touches(p.targets[0]))
  {
    hide Means, tr.Lawful;
    OperandsApart(p);
    ZOnControl(tr, g, p);
    MeansSym(tr, [g, p], [p, g]);
    var t := p.targets[0];
    if forall k <- mid :: !k.Touches(t) {
      assert Free(p, mid);
      forall mid': seq<Gate> | SameWiring(mid, mid') ensures MoveSound(tr, p, mid', g) {
        FreeByWiring(p, mid, mid');
        FreeMoves(tr, p, mid', g);
      }
    } else {
      var k :| k in mid && k.Touches(t);
      var i :| 0 <= i < |mid| && mid[i] == k;
      var x := TargetBlocker(k, t);
      AloneWiring(mid, i, x);
      if MoveSound(tr, p, Alone(mid, i, x), g) {
        var w: Complex :| Means(tr, w, Alone(mid, i, x) + [g, p], [p] + Alone(mid, i, x) + [g]);
        MoveAlone(tr, w, p, mid, i, x, g);
        TargetBlockerBlocks(tr, w, p, k);
        assert false;
      }
    }
  }

  // ---- The guard of the walk ----

  /** The rewrite of p and g around mid, behind pre, keeps the meaning up to some factor. */
  ghost predicate RewriteSound(tr: Trig, pass: Pass, pre: seq<Gate>, p: Gate, mid: seq<Gate>, g: Gate)
    requires ScanWire(pass, g).Some? && PairRule(pass, p, g).Some?
  {
    exists w: Complex :: Means(tr, w, pre + (mid + PairRule(pass, p, g).value), pre + ([p] + mid + [g]))
  }

  lemma RewriteInside(tr: Trig, pass: Pass, pre: seq<Gate>, p: Gate, mid: seq<Gate>, g: Gate)
    requires tr.Lawful() && ScanWire(pass, g).Some? && PairRule(pass, p, g).Some?
    ensures RewriteSound(tr, pass, pre, p, mid, g)
       <==> exists w: Complex :: Means(tr, w, mid + PairRule(pass, p, g).value, [p] + mid + [g])
  {
    hide Means, tr.Lawful, PairRule, ScanWire;
    var xs, ys := mid + PairRule(pass, p, g).value, [p] + mid + [g];
    assert pre + xs + [] == pre + xs && pre + ys + [] == pre + ys;
    forall w: Complex ensures Means(tr, w, pre + xs, pre + ys) <==> Means(tr, w, xs, ys) {
      OnlyInside(tr, w, pre, xs, ys, []);
    }
  }

  lemma {:induction false} FreeRewrites(tr: Trig, pass: Pass, p: Gate, mid: seq<Gate>, g: Gate)
    requires tr.Lawful() && Shipped(pass) && ScanWire(pass, g).Some? && PairRule(pass, p, g).Some?
    requires p.Touches(ScanWire(pass, g).value) && Free(p, mid)
    ensures Means(tr, PairSign(pass, p, g), mid + PairRule(pass, p, g).value, [p] + mid + [g])
  {
    hide Means, tr.Lawful, PairRule, ScanWire, PairSign, Shipped, Free, Mul;
    var w, out := PairSign(pass, p, g), PairRule(pass, p, g).value;
    PairSound(tr, pass, p, g);
    MeansInside(tr, w, mid, out, [p, g], []);
    Slide(tr, p, mid);
    MeansAppend(tr, One, [p] + mid, mid + [p], [g]);
    MeansSym(tr, [p] + mid + [g], mid + [p] + [g]);
    assert mid + out + [] == mid + out && mid + [p, g] + [] == mid + [p] + [g];
    MeansTrans(tr, w, One, mid + out, mid + [p] + [g], [p] + mid + [g]);
    MulOne(w);
  }

  /** A gate that cancels with p may stand in for p. */
  lemma {:induction false} CancelTwin(tr: Trig, w: Complex, p: Gate, mid: seq<Gate>, g: Gate)
    requires tr.Lawful() && p.kind == g.kind && p.kind in {X, Y, Z, H}
    requires p.targets == g.targets && Wires(p.controls) == Wires(g.controls)
    requires Means(tr, w, mid, [p] + mid + [g])
    ensures Means(tr, w, mid, [p] + mid + [p])
  {
    hide Equiv, tr.Lawful, Mul, GateMatrix;
    SelfAdjoint(tr, p);
    SelfAdjoint(tr, g);
    DenoteOne(tr, p);
    DenoteOne(tr, g);
    EquivRefl([BlockOf(tr, g)]);
    MeansInside(tr, One, [p] + mid, [g], [p], []);
    assert [p] + mid + [g] + [] == [p] + mid + [g] && [p] + mid + [p] + [] == [p] + mid + [p];
    MeansTrans(tr, w, One, mid, [p] + mid + [g], [p] + mid + [p]);
    MulOne(w);
  }

  lemma FreeOfOne(p: Gate, mid: seq<Gate>)
    requires |p.controls| == 1 && |p.targets| == 1
    ensures Free(p, mid) <==> forall k <- mid :: p.controls[0] !in k.targets && !k.Touches(p.targets[0])
  {
    forall k | k in mid
      ensures Passable(p, k) <==> p.controls[0] !in k.targets && !k.Touches(p.targets[0])
    {
      assert p.controls == [p.controls[0]] && p.targets == [p.targets[0]];
    }
  }

  /** If the rewrite of a controlled gate is sound for every choice of gates on the wiring in between,
      then that gate could slide over them. */
  lemma {:induction false} SoundOnlyIfFree(tr: Trig, pass: Pass, p: Gate, mid: seq<Gate>, g: Gate)
    requires tr.Lawful() && Shipped(pass) && ScanWire(pass, g).Some? && PairRule(pass, p, g).Some?
    requires p.Touches(ScanWire(pass, g).value) && p.controls != [] && SingleTargets(mid)
    requires forall k <- mid :: !k.Touches(ScanWire(pass, g).value)
    requires forall mid': seq<Gate> | SameWiring(mid, mid') ::
               exists w: Complex :: Means(tr, w, mid' + PairRule(pass, p, g).value, [p] + mid' + [g])
    ensures Free(p, mid)
  {
    hide Means, tr.Lawful, SortedDescending, SameWiring;
    if pass.Cancellation? {
      SortedWires(g.controls, p.controls);
      SortedWires(g.targets, p.targets);
      ShippedCancellation(pass, g);
      assert ControlledPauliOrH(p);
      FreeOfOne(p, mid);
      forall mid': seq<Gate> | SameWiring(mid, mid') ensures CancelSound(tr, p, mid') {
        var w: Complex :| Means(tr, w, mid' + PairRule(pass, p, g).value, [p] + mid' + [g]);
        assert mid' + [] == mid';
        CancelTwin(tr, w, p, mid', g);
      }
      CancelGuardExact(tr, p, mid);
    } else {
      MovedPartner(pass, p, g);
      FreeOfOne(p, mid);
      forall mid': seq<Gate> | SameWiring(mid, mid') ensures MoveSound(tr, p, mid', g) {
        var w: Complex :| Means(tr, w, mid' + PairRule(pass, p, g).value, [p] + mid' + [g]);
      }
      if pass.CxPastZ? {
        CxZGuardExact(tr, p, mid, g);
      } else {
        CommuteGuardExact(tr, p, mid, g);
      }
    }
  }

  lemma MovedPartner(pass: Pass, p: Gate, g: Gate)
    requires Shipped(pass) && !pass.Cancellation? && ScanWire(pass, g).Some? && PairRule(pass, p, g).Some?
    requires p.controls != []
    ensures p.Is(X, 1) && PairRule(pass, p, g).value == [g, p]
    ensures pass.CxPastZ? ==> g.Is(Z, 0) && g.targets == p.controls && ScanWire(pass, g).value == p.controls[0]
    ensures !pass.CxPastZ? ==>
              g.kind in {Rx, X} && g.targets == p.targets && ScanWire(pass, g).value == p.targets[0]
  {
    hide SortedDescending;
  }

  /** Main theorem.  A two-gate visit of any shipped pass is sound, up to a factor, for every choice of
      one-target gates on the wiring between the two matched gates exactly when the visit is guarded. */
  lemma {:induction false} GuardExact(tr: Trig, pass: Pass, done: seq<Gate>, g: Gate)
    requires tr.Lawful() && Shipped(pass)
    requires var j := Partner(pass, done, g); j >= 0 && SingleTargets(done[j + 1..])
    ensures var j := Partner(pass, done, g);
            (forall mid: seq<Gate> | SameWiring(done[j + 1..], mid) ::
               RewriteSound(tr, pass, done[..j], done[j], mid, g))
            <==> Guarded(pass, done, g)
  {
    hide Means, tr.Lawful, Shipped, PairRule, ScanWire, Free, SameWiring, SingleTargets, PrevOn, RewriteSound;
    var j := Partner(pass, done, g);
    var p, mid, q := done[j], done[j + 1..], ScanWire(pass, g).value;
    forall k | k in mid ensures !k.Touches(q) {
      var n :| 0 <= n < |mid| && mid[n] == k;
      assert done[j + 1 + n] == k;
    }
    forall mid': seq<Gate>
      ensures RewriteSound(tr, pass, done[..j], p, mid', g)
         <==> exists w: Complex :: Means(tr, w, mid' + PairRule(pass, p, g).value, [p] + mid' + [g])
    {
      RewriteInside(tr, pass, done[..j], p, mid', g);
    }
    if Guarded(pass, done, g) {
      forall mid': seq<Gate> | SameWiring(mid, mid') ensures RewriteSound(tr, pass, done[..j], p, mid', g) {
        FreeByWiring(p, mid, mid');
        FreeRewrites(tr, pass, p, mid', g);
      }
    } else {
      if p.controls == [] { UncontrolledGuarded(pass, done, g); }
      if forall mid': seq<Gate> | SameWiring(mid, mid') :: RewriteSound(tr, pass, done[..j], p, mid', g) {
        SoundOnlyIfFree(tr, pass, p, mid, g);
      }
    }
  }

  // ---- Circuits that a pass breaks ----

  /** A walk over three gates whose last two-gate match is the first gate and the last. */
  lemma WalkThree(pass: Pass, p: Gate, m: Gate, g: Gate)
    requires !pass.Sandwich? && !Decomposing(pass)
    requires Partner(pass, [p], m) < 0 && Partner(pass, [p, m], g) == 0
    ensures Walk(pass, [p, m, g]) == [m] + PairRule(pass, p, g).value
    ensures !GuardedWalk(pass, [p, m, g]) <== !Passable(p, m)
  {
    hide PairRule, PrevOn, ScanWire, Passable, Walk, GuardedWalk, YSwitches, YSwitched, Operation.WellFormed;
    WalkUnfold(pass, []);
    WalkUnfold(pass, [p]);
    WalkUnfold(pass, [p, m]);
    WalkUnfold(pass, [p, m, g]);
    assert [p, m, g][..2] == [p, m] && [p, m][..1] == [p] && [p][..0] == [];
    assert [] + [p] == [p] && [p] + [m] == [p, m];
    assert Without([p, m], 0) == [m] && [p, m][1..] == [m];
    assert m in [m];
  }

  /** The walk moves a CX over a gate that blocks it, and no number w repairs the result. */
  lemma BlockedMoveBreaks(tr: Trig, w: Complex, p: Gate, x: Gate, g: Gate)
    requires tr.Lawful() && p.Is(X, 1) && Means(tr, One, [p, g], [g, p]) && !Means(tr, w, [x], [p, x, p])
    ensures !Means(tr, w, [x, g, p], [p, x, g])
  {
    hide Means, tr.Lawful;
    if Means(tr, w, [x, g, p], [p, x, g]) {
      MoveToSandwich(tr, w, p, x, g);
    }
  }

  /** CX, then an X on its control, then the same CX: the pass cancels the two CX, and what is left
      is not the circuit times any number. */
  lemma CancellationBreaks(tr: Trig, w: Complex)
    requires tr.Lawful()
    ensures var cx, x := Plain(X, [0], 1), Plain(X, [], 0);
            && Walk(CancellationDoubleCx, [cx, x, cx]) == [x]
            && !GuardedWalk(CancellationDoubleCx, [cx, x, cx])
            && !Means(tr, w, [x], [cx, x, cx])
  {
    hide Means, tr.Lawful, Walk, GuardedWalk, SortedDescending, PrevOn;
    var cx, x := Plain(X, [0], 1), Plain(X, [], 0);
    PrevOnUnique([cx, x], 1, 0);
    assert ScanWire(CancellationDoubleCx, cx) == Some(1) && PairRule(CancellationDoubleCx, cx, cx) == Some([]);
    assert 0 in cx.controls && 0 in x.targets && !Passable(cx, x);
    WalkThree(CancellationDoubleCx, cx, x, cx);
    assert [x] + [] == [x];
    BlockerBlocks(tr, w, cx, x);
  }

  /** CX, then an X on its control, then an Rx or an X on its target: the passes move the CX behind,
      and the result is not the circuit times any number, whatever the angle. */
  lemma CommutingBreaks(tr: Trig, w: Complex, angle: real)
    requires tr.Lawful()
    ensures var cx, x := Plain(X, [0], 1), Plain(X, [], 0);
            var rx, xt := Operation(Rx, false, [angle], [], [1]), Plain(X, [], 1);
            && Walk(CommuteCxRx, [cx, x, rx]) == [x, rx, cx] && !Means(tr, w, [x, rx, cx], [cx, x, rx])
            && Walk(CommuteCxX, [cx, x, xt]) == [x, xt, cx] && !Means(tr, w, [x, xt, cx], [cx, x, xt])
  {
    hide Means, tr.Lawful, Walk, GuardedWalk, PrevOn;
    var cx, x := Plain(X, [0], 1), Plain(X, [], 0);
    var rx: Gate, xt := Operation(Rx, false, [angle], [], [1]), Plain(X, [], 1);
    PrevOnUnique([cx, x], 1, 0);
    PrevOnUnique([cx], 0, 0);
    WalkThree(CommuteCxRx, cx, x, rx);
    WalkThree(CommuteCxX, cx, x, xt);
    BlockerBlocks(tr, w, cx, x);
    XCommutesWithRx(tr, cx, rx);
    XCommutesWithRx(tr, cx, xt);
    BlockedMoveBreaks(tr, w, cx, x, rx);
    BlockedMoveBreaks(tr, w, cx, x, xt);
  }

  /** CX, then a Z on its target, then a Z on its control: the pass moves the CX to the end, and the
      result is not the circuit times any number. */
  lemma CxZBreaks(tr: Trig, w: Complex)
    requires tr.Lawful()
    ensures var cx, z, g := Plain(X, [0], 1), Plain(Z, [], 1), Plain(Z, [], 0);
            Walk(CommuteCxZ, [cx, z, g]) == [z, g, cx] && !Means(tr, w, [z, g, cx], [cx, z, g])
  {
    hide Means, tr.Lawful, Walk, GuardedWalk, PrevOn;
    var cx, z, g := Plain(X, [0], 1), Plain(Z, [], 1), Plain(Z, [], 0);
    PrevOnUnique([cx, z], 0, 0);
    PrevOnUnique([cx], 1, 0);
    WalkThree(CommuteCxZ, cx, z, g);
    TargetBlockerBlocks(tr, w, cx, z);
    ZOnControl(tr, g, cx);
    MeansSym(tr, [g, cx], [cx, g]);
    BlockedMoveBreaks(tr, w, cx, z, g);
  }
}
