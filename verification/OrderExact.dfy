/** Which orders of a kernel's gates mean the kernel, whatever the gates do on their wires. */
module OrderExact {
  import opened Amplitudes
  import opened Blocks
  import opened Gates
  import opened LocalRules
  import opened Guards
  import opened Dag
  import opened DagOrder

  // ---- Two gates that may not pass each other ----

  lemma StepX(ds: set<nat>, t: nat, psi: State, b: Basis)
    requires t !in ds
    ensures Step(Mux(Controlled(ds, MatX), t), psi)(b)
         == if ds <= b then psi(if t in b then Off(b, t) else On(b, t)) else psi(b)
  {
    hide Dot, Step, Controlled;
    StepControlled(ds, MatX, t, psi, b);
    DotIdentity(psi(Off(b, t)), psi(b));
    DotIdentity(psi(b), psi(On(b, t)));
  }

  lemma StepS(ds: set<nat>, t: nat, psi: State, b: Basis)
    requires t !in ds
    ensures Step(Mux(Controlled(ds, MatS), t), psi)(b) == if ds <= b && t in b then Mul(Imag, psi(b)) else psi(b)
  {
    hide Step, Controlled;
    StepControlled(ds, MatS, t, psi, b);
  }

  /** X before S is no multiple of S before X on the same target. */
  lemma SameTargetClash(w: Complex, cs: set<nat>, ds: set<nat>, t: nat)
    requires t !in cs && t !in ds
    ensures var x, y := Mux(Controlled(cs, MatX), t), Mux(Controlled(ds, MatS), t); !Equiv(w, [y, x], [x, y])
  {
    hide Step, Controlled, Effect, Mul;
    var x, y := Mux(Controlled(cs, MatX), t), Mux(Controlled(ds, MatS), t);
    if Equiv(w, [y, x], [x, y]) {
      var b := cs + ds;
      var d := On(b, t);
      assert Off(d, t) == b && t !in b;
      var low, high := Certain(b), Certain(d);
      EffectTwo(x, y, low);
      EffectTwo(y, x, low);
      EffectTwo(x, y, high);
      EffectTwo(y, x, high);
      StepX(cs, t, low, d);
      StepS(ds, t, low, b);
      StepX(cs, t, Step(y, low), d);
      StepS(ds, t, Step(x, low), d);
      StepX(cs, t, high, b);
      StepS(ds, t, high, d);
      StepX(cs, t, Step(y, high), b);
      StepS(ds, t, Step(x, high), b);
      assert One == Mul(w, Mul(Imag, One)) && Mul(Imag, One) == Mul(w, One);
      NotBoth(w);
      assert false;
    }
  }

  lemma NotBoth(w: Complex)
    ensures !(One == Mul(w, Mul(Imag, One)) && Mul(Imag, One) == Mul(w, One))
  {
    assert Mul(Imag, Imag) == MinusOne;
    hide Mul;
    MulOne(w);
    MulOne(Imag);
  }

  /** Two X do not commute when the first one targets a control of the second one. */
  lemma TargetControls(w: Complex, cs: set<nat>, t: nat, ds: set<nat>, u: nat)
    requires t !in cs && u !in ds && t in ds
    ensures var x, y := Mux(Controlled(cs, MatX), t), Mux(Controlled(ds, MatX), u); !Equiv(w, [y, x], [x, y])
  {
    hide Step, Controlled, Effect, Mul;
    var x, y := Mux(Controlled(cs, MatX), t), Mux(Controlled(ds, MatX), u);
    if Equiv(w, [y, x], [x, y]) {
      var d := cs + ds;
      var e := Off(d, t);
      var psi, flipped := Certain(e), if u in d then Off(d, u) else On(d, u);
      EffectTwo(x, y, psi);
      EffectTwo(y, x, psi);
      assert t != u && (u in Off(flipped, t)) != (u in e);
      assert t in d && t !in e && cs <= e && ds <= d && !(ds <= e) && t in flipped && Off(flipped, t) != e;
      StepX(cs, t, Step(y, psi), d);
      StepX(ds, u, psi, e);
      StepX(ds, u, Step(x, psi), d);
      StepX(cs, t, psi, flipped);
      assert One == Mul(w, Zero);
      ZeroMul();
      assert false;
    }
  }

  /** Nor when the second one targets a control of the first one. */
  lemma ControlTargeted(w: Complex, cs: set<nat>, t: nat, ds: set<nat>, u: nat)
    requires t !in cs && u !in ds && u in cs && t !in ds
    ensures var x, y := Mux(Controlled(cs, MatX), t), Mux(Controlled(ds, MatX), u); !Equiv(w, [y, x], [x, y])
  {
    hide Step, Controlled, Effect, Mul;
    var x, y := Mux(Controlled(cs, MatX), t), Mux(Controlled(ds, MatX), u);
    if Equiv(w, [y, x], [x, y]) {
      var d := cs + ds;
      var e, b := Off(d, u), On(d, t);
      var psi := Certain(e);
      EffectTwo(x, y, psi);
      EffectTwo(y, x, psi);
      assert u in b && t in b && Off(b, t) == d && u in d && cs <= b && ds <= b && ds <= d;
      assert !(cs <= Off(b, u)) && t in Off(b, u) && t !in e;
      StepX(cs, t, Step(y, psi), b);
      StepX(ds, u, psi, d);
      StepX(ds, u, Step(x, psi), b);
      StepX(cs, t, psi, Off(b, u));
      assert One == Mul(w, Zero);
      ZeroMul();
      assert false;
    }
  }

  /** On the wires of two gates that may not pass each other there are gates that do not commute. */
  lemma {:induction false} ClashingPair(tr: Trig, p: Gate, g: Gate) returns (x: Gate, y: Gate)
    requires !p.kind.Swap? && !g.kind.Swap? && !Passable(p, g)
    ensures x.controls == p.controls && x.targets == p.targets && y.controls == g.controls && y.targets == g.targets
    ensures forall w: Complex :: !Means(tr, w, [y, x], [x, y])
  {
    hide Equiv, Controlled;
    OperandsApart(p);
    OperandsApart(g);
    var cs, ds, t, u := Wires(p.controls), Wires(g.controls), p.targets[0], g.targets[0];
    x := Blocker(p);
    if t == u {
      y := Operation(S, false, [], g.controls, g.targets);
    } else {
      y := Blocker(g);
    }
    DenoteTwo(tr, x, y);
    DenoteTwo(tr, y, x);
    forall w: Complex ensures !Means(tr, w, [y, x], [x, y]) {
      if t == u {
        SameTargetClash(w, cs, ds, t);
      } else if t in ds {
        TargetControls(w, cs, t, ds, u);
      } else {
        assert u in cs;
        ControlTargeted(w, cs, t, ds, u);
      }
    }
  }

  // ---- Circuits with two gates that do something ----

  predicate Idle(g: Gate) { !g.kind.Swap? && g == Null(g) }

  predicate AllIdle(n: nat, hs: seq<Gate>, order: seq<nat>) {
    forall v <- order :: n <= v < n + |hs| ==> Idle(hs[v - n])
  }

  lemma {:induction false} IdleMeans(tr: Trig, n: nat, hs: seq<Gate>, order: seq<nat>)
    requires tr.Lawful() && AllIdle(n, hs, order)
    ensures Means(tr, One, GatesIn(n, hs, order), [])
  {
    hide Means, tr.Lawful, Operation.WellFormed, Null;
    if order == [] {
      MeansRefl(tr, []);
    } else {
      var init, v := order[..|order| - 1], order[|order| - 1];
      assert v in order && forall u <- init :: u in order;
      IdleMeans(tr, n, hs, init);
      if n <= v < n + |hs| {
        NullMeans(tr, hs[v - n]);
        BothMean(tr, GatesIn(n, hs, init), [], [hs[v - n]], []);
        var none: seq<Gate> := [];
        assert none + none == none;
      } else {
        assert GatesIn(n, hs, order) == GatesIn(n, hs, init);
      }
    }
  }

  lemma BothMean(tr: Trig, xs: seq<Gate>, xs': seq<Gate>, ys: seq<Gate>, ys': seq<Gate>)
    requires Means(tr, One, xs, xs') && Means(tr, One, ys, ys')
    ensures Means(tr, One, xs + ys, xs' + ys')
  {
    hide Means, Mul;
    MulOne(One);
    MeansConcat(tr, One, One, xs, xs', ys, ys');
  }

  lemma {:induction false} OneBusy(tr: Trig, n: nat, hs: seq<Gate>, order: seq<nat>, i: nat)
    requires tr.Lawful() && i < |order| && n <= order[i] < n + |hs|
    requires AllIdle(n, hs, order[..i]) && AllIdle(n, hs, order[i + 1..])
    ensures Means(tr, One, GatesIn(n, hs, order), [hs[order[i] - n]])
  {
    hide Means, tr.Lawful, Operation.WellFormed, GatesIn, AllIdle;
    var front, g, back := order[..i], hs[order[i] - n], order[i + 1..];
    assert order == front + [order[i]] + back;
    GatesInConcat(n, hs, front + [order[i]], back);
    GatesInConcat(n, hs, front, [order[i]]);
    OneGate(n, hs, order[i]);
    IdleMeans(tr, n, hs, front);
    IdleMeans(tr, n, hs, back);
    MeansRefl(tr, [g]);
    BothMean(tr, GatesIn(n, hs, front), [], [g], [g]);
    BothMean(tr, GatesIn(n, hs, front) + [g], [] + [g], GatesIn(n, hs, back), []);
    assert [] + [g] + [] == [g];
  }

  /** A schedule of two gates among idle ones means those two, in the order of the schedule. */
  lemma {:induction false} TwoBusy(tr: Trig, n: nat, hs: seq<Gate>, order: seq<nat>, i: nat, j: nat)
    requires tr.Lawful() && NoRepeats(order) && i < j < |order|
    requires n <= order[i] < n + |hs| && n <= order[j] < n + |hs|
    requires forall k :: 0 <= k < |hs| && n + k != order[i] && n + k != order[j] ==> Idle(hs[k])
    ensures Means(tr, One, GatesIn(n, hs, order), [hs[order[i] - n], hs[order[j] - n]])
  {
    hide Means, tr.Lawful, Operation.WellFormed, GatesIn, Idle;
    var front, back := order[..j], order[j..];
    assert order == front + back;
    GatesInConcat(n, hs, front, back);
    assert AllIdle(n, hs, front[..i]) && AllIdle(n, hs, front[i + 1..]) && AllIdle(n, hs, back[1..]);
    OneBusy(tr, n, hs, front, i);
    OneBusy(tr, n, hs, back, 0);
    var g, h := hs[order[i] - n], hs[order[j] - n];
    BothMean(tr, GatesIn(n, hs, front), [g], GatesIn(n, hs, back), [h]);
    assert [g] + [h] == [g, h];
  }

  // ---- The orders that mean the kernel ----

  /** Running the gates in this order is the circuit up to some factor. */
  ghost predicate OrderSound(tr: Trig, n: nat, hs: seq<Gate>, order: seq<nat>) {
    exists w: Complex :: Means(tr, w, GatesIn(n, hs, order), hs)
  }

  /** x and y on the wires of gates a and b, nothing on the other wires. */
  function Pair(gs: seq<Gate>, a: nat, b: nat, x: Gate, y: Gate): seq<Gate>
    requires SingleTargets(gs) && a < b < |gs|
  {
    Nulls(gs)[a := x][b := y]
  }

  lemma {:induction false} PairIdle(gs: seq<Gate>, a: nat, b: nat, x: Gate, y: Gate)
    requires SingleTargets(gs) && a < b < |gs|
    requires x.controls == gs[a].controls && x.targets == gs[a].targets
    requires y.controls == gs[b].controls && y.targets == gs[b].targets
    ensures var hs := Pair(gs, a, b, x, y);
            && SameWiring(gs, hs) && hs[a] == x && hs[b] == y
            && forall k :: 0 <= k < |hs| && k != a && k != b ==> Idle(hs[k])
  {
    hide Operation.WellFormed;
  }

  lemma {:induction false} PairMeans(tr: Trig, n: nat, hs: seq<Gate>, a: nat, b: nat)
    requires tr.Lawful() && a < b < |hs| && forall k :: 0 <= k < |hs| && k != a && k != b ==> Idle(hs[k])
    ensures Means(tr, One, hs, [hs[a], hs[b]])
  {
    hide Means, tr.Lawful, Operation.WellFormed, GatesIn, EdgesOf, Idle;
    ProgramOrderTopological(n, hs);
    TwoBusy(tr, n, hs, UpTo(n + |hs| + 1), n + a, n + b);
  }

  /** An order that exchanges two gates that may not pass each other fails for some gates on the wiring. */
  lemma {:induction false} ReversedBreaks(tr: Trig, n: nat, gs: seq<Gate>, order: seq<nat>, a: nat, b: nat)
      returns (hs: seq<Gate>)
    requires tr.Lawful() && SingleTargets(gs) && Schedule(n, gs, order)
    requires a < b < |gs| && !Passable(gs[a], gs[b]) && !Precedes(order, n + a, n + b)
    ensures SameWiring(gs, hs) && !OrderSound(tr, n, hs, order)
  {
    hide Means, tr.Lawful, Operation.WellFormed, GatesIn, Passable, Mul, Idle, SameWiring, Pair;
    assert gs[a] in gs && gs[b] in gs;
    var x, y := ClashingPair(tr, gs[a], gs[b]);
    hs := Pair(gs, a, b, x, y);
    PairIdle(gs, a, b, x, y);
    assert |hs| == |gs| by { WiringLength(gs, hs); }
    var i, j :| 0 <= i < |order| && 0 <= j < |order| && order[i] == n + a && order[j] == n + b && i >= j;
    TwoBusy(tr, n, hs, order, j, i);
    PairMeans(tr, n, hs, a, b);
    var xs := GatesIn(n, hs, order);
    if w: Complex :| Means(tr, w, xs, hs) {
      MeansSym(tr, xs, [y, x]);
      MeansTrans(tr, One, w, [y, x], xs, hs);
      MulOne(w);
      MeansTrans(tr, w, One, [y, x], hs, [x, y]);
      assert false;
    }
  }

  lemma WiringLength(gs: seq<Gate>, hs: seq<Gate>)
    requires SameWiring(gs, hs)
    ensures |gs| == |hs|
  {
  }

  lemma KeepsByWiring(n: nat, gs: seq<Gate>, hs: seq<Gate>, order: seq<nat>)
    requires SameWiring(gs, hs) && KeepsDependencies(n, gs, order)
    ensures KeepsDependencies(n, hs, order)
  {
    hide Precedes, NoRepeats, Operation.WellFormed;
    forall a, b | 0 <= a < b < |hs| && !Passable(hs[a], hs[b]) ensures Precedes(order, n + a, n + b) {
      assert !Passable(gs[a], gs[b]);
    }
  }

  /** Main theorem.  A schedule of one-target gates means the kernel, up to a factor, for every choice of
      gates on the kernel's wiring exactly when it keeps the order of any two gates one of which targets
      a wire of the other. */
  lemma {:induction false} OrderExactly(tr: Trig, n: nat, gs: seq<Gate>, order: seq<nat>)
    requires tr.Lawful() && SingleTargets(gs) && Schedule(n, gs, order)
    ensures (forall hs: seq<Gate> | SameWiring(gs, hs) :: OrderSound(tr, n, hs, order))
        <==> KeepsDependencies(n, gs, order)
  {
    hide Means, tr.Lawful, Precedes, SameWiring, Schedule, Operation.WellFormed, GatesIn, Passable;
    if KeepsDependencies(n, gs, order) {
      forall hs: seq<Gate> | SameWiring(gs, hs) ensures OrderSound(tr, n, hs, order) {
        KeepsByWiring(n, gs, hs, order);
        DependenciesDecide(tr, n, hs, order);
      }
    } else {
      var a, b :| 0 <= a < b < |gs| && !Passable(gs[a], gs[b]) && !Precedes(order, n + a, n + b);
      var hs := ReversedBreaks(tr, n, gs, order, a, b);
    }
  }

  /** Two CX from the same control, and an order that exchanges them. */
  const FanOut: seq<Gate> := [Plain(X, [0], 1), Plain(X, [0], 2)]
  const SecondFirst: seq<nat> := [0, 1, 2, 4, 3, 5]

  /** Two CX from the same control may change places, and the graph does not let them. */
  lemma GraphOrdersMore(tr: Trig)
    ensures GatesIn(3, FanOut, SecondFirst) == [FanOut[1], FanOut[0]]
    ensures Means(tr, One, GatesIn(3, FanOut, SecondFirst), FanOut)
    ensures forall order :: Topological(order, EdgesOf(3, FanOut), 6) ==> Precedes(order, 3, 4)
    ensures !Topological(SecondFirst, EdgesOf(3, FanOut), 6)
  {
    hide Means, EdgesOf, GatesIn, Topological;
    SecondFirstGates();
    assert SecondFirst[4] == 3 + 0 && SecondFirst[3] == 3 + 1;
    assert KeepsDependencies(3, FanOut, SecondFirst) by {
      assert forall k :: 0 <= k < 2 ==> Placed(3, SecondFirst, k);
      assert Passable(FanOut[0], FanOut[1]);
    }
    DependenciesDecide(tr, 3, FanOut, SecondFirst);
    forall order | Topological(order, EdgesOf(3, FanOut), 6) ensures Precedes(order, 3, 4) {
      SharePrecedes(3, FanOut, order, 0, 1, 0);
    }
    assert !Precedes(SecondFirst, 3, 4);
  }

  lemma SecondFirstGates()
    ensures GatesIn(3, FanOut, SecondFirst) == [FanOut[1], FanOut[0]]
  {
    hide GatesIn, Operation.WellFormed;
    AddedOrder(3, FanOut, 3);
    assert SecondFirst == UpTo(3) + [4] + [3] + [5];
    GatesInConcat(3, FanOut, UpTo(3) + [4] + [3], [5]);
    GatesInConcat(3, FanOut, UpTo(3) + [4], [3]);
    GatesInConcat(3, FanOut, UpTo(3), [4]);
    OneGate(3, FanOut, 4);
    OneGate(3, FanOut, 3);
    NotAGate(3, FanOut, 5);
  }
}
