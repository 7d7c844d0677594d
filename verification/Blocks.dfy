/** What a quantum circuit means, as a linear map on amplitude functions.

    A computational basis state is the finite set of qubits that read 1, so one definition covers
    registers of every size.  A state gives each basis state an amplitude.  A block is one step of a
    circuit: a 2x2 matrix on a target qubit, chosen by the values of the other qubits (a controlled
    gate chooses between its matrix and the identity), an exchange of two qubits under controls, or
    a macro, that is, a circuit used as one step. */
module Blocks {
  import opened Amplitudes

  type Basis = set<nat>
  type State = Basis -> Complex
  type Family = Basis -> Matrix

  datatype Block =
    | Mux(f: Family, t: nat)
    | Exchange(cs: set<nat>, u: nat, v: nat)
    | Macro(body: seq<Block>)

  function Off(b: Basis, t: nat): Basis { b - {t} }
  function On(b: Basis, t: nat): Basis { b + {t} }

  function Exchanged(b: Basis, u: nat, v: nat): Basis {
    if (u in b) == (v in b) then b else if u in b then On(Off(b, u), v) else On(Off(b, v), u)
  }

  function Row(m: Matrix, bit: bool, p: Complex, q: Complex): Complex {
    if bit then Dot(m.c, p, m.d, q) else Dot(m.a, p, m.b, q)
  }

  function MuxAmp(f: Family, t: nat, psi: State, b: Basis): Complex {
    Row(f(Off(b, t)), t in b, psi(Off(b, t)), psi(On(b, t)))
  }

  function ExchangeAmp(cs: set<nat>, u: nat, v: nat, psi: State, b: Basis): Complex {
    if cs <= b then psi(Exchanged(b, u, v)) else psi(b)
  }

  function Step(k: Block, psi: State): State
    decreases k
  {
    match k
    case Mux(f, t) => (b: Basis) => MuxAmp(f, t, psi, b)
    case Exchange(cs, u, v) => (b: Basis) => ExchangeAmp(cs, u, v, psi, b)
    case Macro(body) => Run(body, psi)
  }

  function Run(ks: seq<Block>, psi: State): State
    decreases ks
  {
    if ks == [] then psi else Run(ks[1..], Step(ks[0], psi))
  }

  /** What a circuit, taken as one step, does to a state. */
  function Effect(ks: seq<Block>, psi: State): State { Step(Macro(ks), psi) }

  /** The first circuit is the second one times the number w, on every state. */
  ghost predicate Equiv(w: Complex, xs: seq<Block>, ys: seq<Block>) {
    forall psi: State, b: Basis :: Effect(xs, psi)(b) == Mul(w, Effect(ys, psi)(b))
  }

  ghost predicate Same(w: Complex, psi: State, phi: State) {
    hide Step;
    forall b: Basis :: psi(b) == Mul(w, phi(b))
  }

  // ---- Circuits compose ----

  lemma {:induction false} RunConcat(xs: seq<Block>, ys: seq<Block>, psi: State)
    ensures Run(xs + ys, psi) == Run(ys, Run(xs, psi))
  {
    if xs == [] {
      assert xs + ys == ys;
    } else {
      assert (xs + ys)[1..] == xs[1..] + ys;
      RunConcat(xs[1..], ys, Step(xs[0], psi));
    }
  }

  lemma {:induction false} StepScale(w: Complex, k: Block, psi: State, phi: State)
    requires Same(w, psi, phi)
    ensures Same(w, Step(k, psi), Step(k, phi))
    decreases k
  {
    hide Mul, MuxAmp, Exchanged, Run;
    match k
    case Mux(f, t) =>
      forall b: Basis ensures Step(k, psi)(b) == Mul(w, Step(k, phi)(b)) {
        MuxScale(w, f, t, psi, phi, b);
      }
    case Exchange(cs, u, v) =>
    case Macro(body) => RunScale(w, body, psi, phi);
  }

  lemma MuxScale(w: Complex, f: Family, t: nat, psi: State, phi: State, b: Basis)
    requires Same(w, psi, phi)
    ensures MuxAmp(f, t, psi, b) == Mul(w, MuxAmp(f, t, phi, b))
  {
    hide Mul, Dot, Off, On;
    var m, p, q := f(Off(b, t)), phi(Off(b, t)), phi(On(b, t));
    assert psi(Off(b, t)) == Mul(w, p) && psi(On(b, t)) == Mul(w, q);
    DotScale(w, m.a, p, m.b, q);
    DotScale(w, m.c, p, m.d, q);
  }

  lemma {:induction false} RunScale(w: Complex, ks: seq<Block>, psi: State, phi: State)
    requires Same(w, psi, phi)
    ensures Same(w, Run(ks, psi), Run(ks, phi))
    decreases ks
  {
    hide Step, Same;
    if ks != [] {
      StepScale(w, ks[0], psi, phi);
      RunScale(w, ks[1..], Step(ks[0], psi), Step(ks[0], phi));
    }
  }

  lemma EffectRun(xs: seq<Block>, psi: State)
    ensures Effect(xs, psi) == Run(xs, psi)
  {
  }

  lemma EffectConcat(xs: seq<Block>, ys: seq<Block>, psi: State)
    ensures Effect(xs + ys, psi) == Effect(ys, Effect(xs, psi))
  {
    EffectRun(xs + ys, psi);
    EffectRun(xs, psi);
    EffectRun(ys, Effect(xs, psi));
    RunConcat(xs, ys, psi);
  }

  lemma EffectScale(w: Complex, ks: seq<Block>, psi: State, phi: State)
    requires Same(w, psi, phi)
    ensures Same(w, Effect(ks, psi), Effect(ks, phi))
  {
    EffectRun(ks, psi);
    EffectRun(ks, phi);
    RunScale(w, ks, psi, phi);
  }

  lemma EffectNone(psi: State)
    ensures Effect([], psi) == psi
  {
    EffectRun([], psi);
  }

  lemma EffectOne(j: Block, psi: State)
    ensures Effect([j], psi) == Step(j, psi)
  {
    hide Step, Effect;
    EffectRun([j], psi);
    assert [j][1..] == [];
    EffectNone(Step(j, psi));
    EffectRun([], Step(j, psi));
  }

  lemma EffectTwo(j: Block, k: Block, psi: State)
    ensures Effect([j, k], psi) == Step(k, Step(j, psi))
  {
    hide Step, Effect;
    assert [j, k] == [j] + [k];
    EffectConcat([j], [k], psi);
    EffectOne(j, psi);
    EffectOne(k, Step(j, psi));
  }

  lemma EquivRefl(xs: seq<Block>)
    ensures Equiv(One, xs, xs)
  {
    hide Effect, Mul;
    forall psi: State, b: Basis ensures Effect(xs, psi)(b) == Mul(One, Effect(xs, psi)(b)) {
      MulOne(Effect(xs, psi)(b));
    }
  }

  lemma EquivTrans(v: Complex, w: Complex, xs: seq<Block>, ys: seq<Block>, zs: seq<Block>)
    requires Equiv(v, xs, ys) && Equiv(w, ys, zs)
    ensures Equiv(Mul(v, w), xs, zs)
  {
    hide Effect, Mul;
    forall psi: State, b: Basis ensures Effect(xs, psi)(b) == Mul(Mul(v, w), Effect(zs, psi)(b)) {
      MulAssoc(v, w, Effect(zs, psi)(b));
    }
  }

  lemma EquivSym(v: Complex, w: Complex, xs: seq<Block>, ys: seq<Block>)
    requires Equiv(v, xs, ys) && Mul(w, v) == One
    ensures Equiv(w, ys, xs)
  {
    hide Effect, Mul;
    forall psi: State, b: Basis ensures Effect(ys, psi)(b) == Mul(w, Effect(xs, psi)(b)) {
      MulAssoc(w, v, Effect(ys, psi)(b));
      MulOne(Effect(ys, psi)(b));
    }
  }

  lemma EquivConcat(v: Complex, w: Complex, xs: seq<Block>, xs': seq<Block>, ys: seq<Block>, ys': seq<Block>)
    requires Equiv(v, xs, xs') && Equiv(w, ys, ys')
    ensures Equiv(Mul(v, w), xs + ys, xs' + ys')
  {
    hide Effect, Mul;
    forall psi: State, b: Basis ensures Effect(xs + ys, psi)(b) == Mul(Mul(v, w), Effect(xs' + ys', psi)(b)) {
      EffectConcat(xs, ys, psi);
      EffectConcat(xs', ys', psi);
      assert Same(v, Effect(xs, psi), Effect(xs', psi));
      EffectScale(v, ys, Effect(xs, psi), Effect(xs', psi));
      var phi := Effect(xs', psi);
      assert Effect(ys, Effect(xs, psi))(b) == Mul(v, Effect(ys, phi)(b));
      assert Effect(ys, phi)(b) == Mul(w, Effect(ys', phi)(b));
      MulAssoc(v, w, Effect(ys', phi)(b));
    }
  }

  /** Exact equality of meaning may be used inside any circuit. */
  lemma EquivInside(w: Complex, pre: seq<Block>, xs: seq<Block>, ys: seq<Block>, post: seq<Block>)
    requires Equiv(w, xs, ys)
    ensures Equiv(w, pre + xs + post, pre + ys + post)
  {
    hide Mul, Equiv;
    EquivRefl(pre);
    EquivRefl(post);
    MulOne(w);
    EquivConcat(One, w, pre, pre, xs, ys);
    EquivConcat(w, One, pre + xs, pre + ys, post, post);
  }

  // ---- Laws of blocks ----

  lemma MuxAt(f: Family, t: nat, psi: State, b: Basis)
    requires t !in b
    ensures MuxAmp(f, t, psi, b) == Dot(f(b).a, psi(b), f(b).b, psi(On(b, t)))
    ensures MuxAmp(f, t, psi, On(b, t)) == Dot(f(b).c, psi(b), f(b).d, psi(On(b, t)))
  {
    hide Dot;
    assert Off(b, t) == b && Off(On(b, t), t) == b && On(On(b, t), t) == On(b, t);
    assert t in On(b, t);
  }

  lemma BitCases(t: nat, b: Basis)
    ensures t !in Off(b, t)
    ensures b == if t in b then On(Off(b, t), t) else Off(b, t)
  {
  }

  /** Two blocks on the same target multiply; the later one is the left factor. */
  lemma MuxCompose(w: Complex, f: Family, g: Family, h: Family, t: nat)
    requires forall b: Basis :: t !in b ==> Times(g(b), f(b)) == ScaledBy(w, h(b))
    ensures Equiv(w, [Mux(f, t), Mux(g, t)], [Mux(h, t)])
  {
    hide Effect, Mul, Dot, MuxAmp, Times, ScaledBy, Off, On;
    forall psi: State, b: Basis
      ensures Effect([Mux(f, t), Mux(g, t)], psi)(b) == Mul(w, Effect([Mux(h, t)], psi)(b))
    {
      EffectTwo(Mux(f, t), Mux(g, t), psi);
      EffectOne(Mux(h, t), psi);
      BitCases(t, b);
      MuxComposeAt(w, f, g, h, t, psi, Off(b, t));
    }
  }

  lemma MuxComposeAt(w: Complex, f: Family, g: Family, h: Family, t: nat, psi: State, b: Basis)
    requires t !in b && Times(g(b), f(b)) == ScaledBy(w, h(b))
    ensures MuxAmp(g, t, Step(Mux(f, t), psi), b) == Mul(w, MuxAmp(h, t, psi, b))
    ensures MuxAmp(g, t, Step(Mux(f, t), psi), On(b, t)) == Mul(w, MuxAmp(h, t, psi, On(b, t)))
  {
    hide Mul, Dot, MuxAmp, On, Off;
    var n, m, k := f(b), g(b), h(b);
    var p, q := psi(b), psi(On(b, t));
    MuxAt(f, t, psi, b);
    MuxAt(h, t, psi, b);
    MuxAt(g, t, Step(Mux(f, t), psi), b);
    DotCompose(m.a, m.b, n.a, n.b, n.c, n.d, p, q);
    DotCompose(m.c, m.d, n.a, n.b, n.c, n.d, p, q);
    DotScale(w, k.a, p, k.b, q);
    DotScale(w, k.c, p, k.d, q);
  }

  /** A block whose matrix is everywhere w times the identity is the number w. */
  lemma MuxScalar(w: Complex, f: Family, t: nat)
    requires forall b: Basis :: t !in b ==> f(b) == ScaledBy(w, Identity)
    ensures Equiv(w, [Mux(f, t)], [])
  {
    hide Effect, Mul, Dot, MuxAmp, Off, On, ScaledBy;
    forall psi: State, b: Basis
      ensures Effect([Mux(f, t)], psi)(b) == Mul(w, Effect([], psi)(b))
    {
      EffectOne(Mux(f, t), psi);
      EffectNone(psi);
      BitCases(t, b);
      MuxScalarAt(w, f, t, psi, Off(b, t));
    }
  }

  lemma MuxScalarAt(w: Complex, f: Family, t: nat, psi: State, b: Basis)
    requires t !in b && f(b) == ScaledBy(w, Identity)
    ensures MuxAmp(f, t, psi, b) == Mul(w, psi(b))
    ensures MuxAmp(f, t, psi, On(b, t)) == Mul(w, psi(On(b, t)))
  {
    hide Mul, Dot, MuxAmp, Off, On;
    var p, q := psi(b), psi(On(b, t));
    MuxAt(f, t, psi, b);
    DotScale(w, One, p, Zero, q);
    DotScale(w, Zero, p, One, q);
    DotIdentity(p, q);
  }

  /** The family does not depend on the value of qubit u. */
  ghost predicate Ignores(f: Family, u: nat) {
    forall b: Basis :: f(On(b, u)) == f(Off(b, u))
  }

  /** Blocks with different targets commute when neither one's matrix depends on the other's target. */
  lemma MuxCommute(f: Family, t: nat, g: Family, u: nat)
    requires t != u && Ignores(f, u) && Ignores(g, t)
    ensures Equiv(One, [Mux(f, t), Mux(g, u)], [Mux(g, u), Mux(f, t)])
  {
    hide Effect, Mul, Dot, MuxAmp, Off, On, Ignores;
    forall psi: State, b: Basis
      ensures Effect([Mux(f, t), Mux(g, u)], psi)(b) == Mul(One, Effect([Mux(g, u), Mux(f, t)], psi)(b))
    {
      EffectTwo(Mux(f, t), Mux(g, u), psi);
      EffectTwo(Mux(g, u), Mux(f, t), psi);
      BitCases(t, b);
      BitCases(u, Off(b, t));
      var c := Off(Off(b, t), u);
      OffOther(b, t, u);
      MuxCommuteAt(f, t, g, u, psi, c);
      MulOne(Effect([Mux(g, u), Mux(f, t)], psi)(b));
    }
  }

  lemma OffOther(b: Basis, t: nat, u: nat)
    requires t != u
    ensures t !in Off(Off(b, t), u) && u !in Off(Off(b, t), u)
    ensures On(On(Off(Off(b, t), u), u), t) == On(On(Off(Off(b, t), u), t), u)
  {
  }

  lemma MuxCommuteAt(f: Family, t: nat, g: Family, u: nat, psi: State, b: Basis)
    requires t != u && Ignores(f, u) && Ignores(g, t) && t !in b && u !in b
    ensures var x, y := Step(Mux(g, u), Step(Mux(f, t), psi)), Step(Mux(f, t), Step(Mux(g, u), psi));
            && x(b) == y(b) && x(On(b, t)) == y(On(b, t)) && x(On(b, u)) == y(On(b, u))
            && x(On(On(b, t), u)) == y(On(On(b, t), u))
  {
    hide Dot, MuxAmp;
    var bt, bu := On(b, t), On(b, u);
    assert On(bt, u) == On(bu, t) && Off(b, u) == b == Off(b, t);
    var p, r, q, s := psi(b), psi(bt), psi(bu), psi(On(bt, u));
    var m, n := f(b), g(b);
    assert f(bu) == m && g(bt) == n;
    assert t !in bu && u !in bt;
    MuxAt(g, u, psi, b);
    MuxAt(g, u, psi, bt);
    MuxAt(f, t, psi, b);
    MuxAt(f, t, psi, bu);
    MuxAt(f, t, Step(Mux(g, u), psi), b);
    MuxAt(f, t, Step(Mux(g, u), psi), bu);
    MuxAt(g, u, Step(Mux(f, t), psi), b);
    MuxAt(g, u, Step(Mux(f, t), psi), bt);
    DotExchange(m.a, m.b, n.a, n.b, p, q, r, s);
    DotExchange(m.c, m.d, n.a, n.b, p, q, r, s);
    DotExchange(m.a, m.b, n.c, n.d, p, q, r, s);
    DotExchange(m.c, m.d, n.c, n.d, p, q, r, s);
  }

  /** A block commutes with an exchange that leaves its target and its controls alone. */
  lemma MuxExchangeCommute(f: Family, t: nat, cs: set<nat>, u: nat, v: nat)
    requires t !in cs && t != u && t != v && Ignores(f, u) && Ignores(f, v)
    ensures Equiv(One, [Mux(f, t), Exchange(cs, u, v)], [Exchange(cs, u, v), Mux(f, t)])
  {
    var j, k := Mux(f, t), Exchange(cs, u, v);
    hide Effect, Mul, Row, Off, On, Ignores, Exchanged;
    forall psi: State, b: Basis
      ensures Effect([j, k], psi)(b) == Mul(One, Effect([k, j], psi)(b))
    {
      EffectTwo(j, k, psi);
      EffectTwo(k, j, psi);
      MulOne(Effect([k, j], psi)(b));
      ExchangeApart(b, cs, t, u, v);
      FamilyExchange(f, u, v, Off(b, t));
    }
  }

  lemma ExchangeApart(b: Basis, cs: set<nat>, t: nat, u: nat, v: nat)
    requires t !in cs && t != u && t != v
    ensures cs <= b <==> cs <= Off(b, t)
    ensures cs <= b <==> cs <= On(b, t)
    ensures t in b <==> t in Exchanged(b, u, v)
    ensures Off(Exchanged(b, u, v), t) == Exchanged(Off(b, t), u, v)
    ensures On(Exchanged(b, u, v), t) == Exchanged(On(b, t), u, v)
  {
    var lo, hi := Off(b, t), On(b, t);
    assert (u in b) == (u in lo) == (u in hi) && (v in b) == (v in lo) == (v in hi);
  }

  lemma FamilyExchange(f: Family, u: nat, v: nat, b: Basis)
    requires Ignores(f, u) && Ignores(f, v)
    ensures f(Exchanged(b, u, v)) == f(b)
  {
    BitCases(u, b);
    BitCases(v, b);
    if (u in b) != (v in b) {
      var c := Off(Off(b, u), v);
      if u in b {
        assert c == Off(b, u) && Exchanged(b, u, v) == On(c, v) && Off(c, v) == c && Off(c, u) == c && b == On(c, u);
      } else {
        assert c == Off(b, v) && Exchanged(b, u, v) == On(c, u) && Off(c, v) == c && Off(c, u) == c && b == On(c, v);
      }
    }
  }

  /** Exchanges on different wires commute. */
  lemma ExchangeCommute(cs: set<nat>, u: nat, v: nat, ds: set<nat>, x: nat, y: nat)
    requires {u, v} !! {x, y} && {u, v} !! ds && {x, y} !! cs
    ensures Equiv(One, [Exchange(cs, u, v), Exchange(ds, x, y)], [Exchange(ds, x, y), Exchange(cs, u, v)])
  {
    var j, k := Exchange(cs, u, v), Exchange(ds, x, y);
    hide Effect, Mul;
    forall psi: State, b: Basis
      ensures Effect([j, k], psi)(b) == Mul(One, Effect([k, j], psi)(b))
    {
      EffectTwo(j, k, psi);
      EffectTwo(k, j, psi);
      MulOne(Effect([k, j], psi)(b));
      assert Exchanged(Exchanged(b, u, v), x, y) == Exchanged(Exchanged(b, x, y), u, v);
      assert cs <= b <==> cs <= Exchanged(b, x, y);
      assert ds <= b <==> ds <= Exchanged(b, u, v);
    }
  }

  /** An exchange undoes itself. */
  lemma ExchangeTwice(cs: set<nat>, u: nat, v: nat)
    requires u != v && u !in cs && v !in cs
    ensures Equiv(One, [Exchange(cs, u, v), Exchange(cs, u, v)], [])
  {
    var k := Exchange(cs, u, v);
    hide Effect, Mul;
    forall psi: State, b: Basis ensures Effect([k, k], psi)(b) == Mul(One, Effect([], psi)(b)) {
      EffectTwo(k, k, psi);
      EffectNone(psi);
      MulOne(psi(b));
      assert Exchanged(Exchanged(b, u, v), u, v) == b;
      assert cs <= b <==> cs <= Exchanged(b, u, v);
    }
  }

  // ---- Blocks are determined by what they do ----

  /** The state that is certainly e. */
  function Certain(e: Basis): State {
    (b: Basis) => if b == e then One else Zero
  }

  lemma DotCertain(m: Complex, n: Complex)
    ensures Dot(m, Zero, n, One) == n && Dot(m, One, n, Zero) == m
  {
  }

  /** If one block is w times another on the same target, then so is each of its matrices. */
  lemma MuxDetermined(w: Complex, f: Family, g: Family, t: nat, b: Basis)
    requires t !in b && Equiv(w, [Mux(f, t)], [Mux(g, t)])
    ensures f(b) == ScaledBy(w, g(b))
  {
    hide Effect, Mul, Dot, MuxAmp, On;
    OnDiffers(b, t);
    forall psi: State, c: Basis ensures MuxAmp(f, t, psi, c) == Mul(w, MuxAmp(g, t, psi, c)) {
      EffectOne(Mux(f, t), psi);
      EffectOne(Mux(g, t), psi);
      assert Effect([Mux(f, t)], psi)(c) == Mul(w, Effect([Mux(g, t)], psi)(c));
    }
    var lo, hi := Certain(b), Certain(On(b, t));
    MuxAt(f, t, lo, b);
    MuxAt(g, t, lo, b);
    MuxAt(f, t, hi, b);
    MuxAt(g, t, hi, b);
    var m, n := f(b), g(b);
    DotCertain(m.a, m.b);
    DotCertain(m.c, m.d);
    DotCertain(n.a, n.b);
    DotCertain(n.c, n.d);
    assert MuxAmp(f, t, lo, b) == Mul(w, MuxAmp(g, t, lo, b)) && MuxAmp(f, t, hi, b) == Mul(w, MuxAmp(g, t, hi, b));
    assert MuxAmp(f, t, lo, On(b, t)) == Mul(w, MuxAmp(g, t, lo, On(b, t)));
    assert MuxAmp(f, t, hi, On(b, t)) == Mul(w, MuxAmp(g, t, hi, On(b, t)));
  }

  lemma OnDiffers(b: Basis, t: nat)
    requires t !in b
    ensures On(b, t) != b
  {
  }
}
