/** The gates of the quake dialect and what each of them does to a state. */
module Gates {
  import opened Amplitudes
  import opened Blocks

  datatype Kind = X | Y | Z | H | S | T | Rx | Ry | Rz | R1 | U2 | U3 | PhasedRx | Swap

  /** One quake operation: `quake.<kind><adj> (params) [controls] targets`. */
  datatype Operation = Operation(kind: Kind, adj: bool, params: seq<real>, controls: seq<nat>, targets: seq<nat>) {

    predicate WellFormed() {
      && |targets| == (if kind.Swap? then 2 else 1)
      && |params| == ParamCount(kind)
      && Distinct(controls + targets)
    }

    predicate Touches(q: nat) {
      q in targets || q in controls
    }

    /** The dyn_cast and the operand-count test that every pattern starts with. */
    predicate Is(k: Kind, nCtrls: nat) {
      kind == k && |controls| == nCtrls && |targets| == 1
    }
  }

  predicate Distinct(s: seq<nat>) {
    |s| <= 1 || (s[0] !in s[1..] && Distinct(s[1..]))
  }

  function ParamCount(k: Kind): nat {
    match k
    case Rx | Ry | Rz | R1 => 1
    case U2 | PhasedRx => 2
    case U3 => 3
    case X | Y | Z | H | S | T | Swap => 0
  }

  type Gate = g: Operation | g.WellFormed() witness Operation(X, false, [], [], [0])

  function Wires(s: seq<nat>): set<nat> { set q | q in s }

  /** A parameterless, unadjointed gate, as `rewriter.create<K>(loc, controls, targets)` builds it. */
  function Plain(k: Kind, controls: seq<nat>, target: nat): Gate
    requires ParamCount(k) == 0 && !k.Swap? && Distinct(controls + [target])
  {
    Operation(k, false, [], controls, [target])
  }

  lemma DistinctAt(s: seq<nat>, i: nat, j: nat)
    requires Distinct(s) && i < j < |s|
    ensures s[i] != s[j]
  {
    if i > 0 {
      DistinctAt(s[1..], i - 1, j - 1);
    }
  }

  lemma {:induction false} DistinctParts(xs: seq<nat>, ys: seq<nat>)
    requires Distinct(xs + ys)
    ensures Distinct(xs) && Distinct(ys) && forall q <- xs :: q !in ys
  {
    if xs == [] {
      assert xs + ys == ys;
    } else {
      assert (xs + ys)[1..] == xs[1..] + ys;
      DistinctParts(xs[1..], ys);
      assert xs == [xs[0]] + xs[1..];
    }
  }

  /** The operands of a gate are different from each other. */
  lemma OperandsApart(g: Gate)
    ensures Distinct(g.controls) && Distinct(g.targets)
    ensures forall q <- g.controls :: q !in g.targets
    ensures g.kind.Swap? ==> g.targets == [g.targets[0], g.targets[1]] && g.targets[0] != g.targets[1]
    ensures !g.kind.Swap? ==> g.targets == [g.targets[0]] && g.targets[0] !in g.controls
  {
    DistinctParts(g.controls, g.targets);
  }

  // ---- Trigonometry, as hypotheses ----

  /** Cosine, sine and pi.  Dafny's reals have no trigonometry, so every theorem about rotations
      takes a Lawful instance as a hypothesis; h = cos(pi/4) is the entry of the Hadamard matrix. */
  datatype Trig = Trig(cos: real -> real, sin: real -> real, pi: real) {

    predicate SumLaw(a: real, b: real) {
      && cos(a + b) == cos(a) * cos(b) - sin(a) * sin(b)
      && sin(a + b) == sin(a) * cos(b) + cos(a) * sin(b)
    }

    predicate UnitLaw(a: real) {
      cos(a) * cos(a) + sin(a) * sin(a) == 1.0
    }

    ghost predicate Lawful() {
      && pi > 0.0
      && cos(0.0) == 1.0 && sin(0.0) == 0.0
      && cos(pi / 2.0) == 0.0 && sin(pi / 2.0) == 1.0
      && (forall a: real, b: real :: SumLaw(a, b))
      && (forall a: real :: UnitLaw(a))
    }

    /** The unit complex number exp(i*a). */
    function Phase(a: real): Complex { Complex(cos(a), sin(a)) }

    function HalfCos(a: real): Complex { Complex(cos(a / 2.0), 0.0) }
    function HalfSin(a: real): Complex { Complex(sin(a / 2.0), 0.0) }
    function Root(): Complex { Complex(cos(pi / 4.0), 0.0) }
  }

  // ---- Matrices ----

  const MatX := Matrix(Zero, One, One, Zero)
  const MatY := Matrix(Zero, Complex(0.0, -1.0), Imag, Zero)
  const MatZ := Diag(One, MinusOne)
  const MatS := Diag(One, Imag)

  function MatH(tr: Trig): Matrix {
    var h := tr.Root();
    Matrix(h, h, h, Mul(MinusOne, h))
  }

  function MatRx(tr: Trig, a: real): Matrix {
    var s := Mul(Complex(0.0, -1.0), tr.HalfSin(a));
    Matrix(tr.HalfCos(a), s, s, tr.HalfCos(a))
  }

  function MatRy(tr: Trig, a: real): Matrix {
    Matrix(tr.HalfCos(a), Mul(MinusOne, tr.HalfSin(a)), tr.HalfSin(a), tr.HalfCos(a))
  }

  function MatRz(tr: Trig, a: real): Matrix { Diag(tr.Phase(-a / 2.0), tr.Phase(a / 2.0)) }

  function MatU3(tr: Trig, theta: real, phi: real, lam: real): Matrix {
    Matrix(tr.HalfCos(theta), Mul(MinusOne, Mul(tr.Phase(lam), tr.HalfSin(theta))),
           Mul(tr.Phase(phi), tr.HalfSin(theta)), Mul(tr.Phase(phi + lam), tr.HalfCos(theta)))
  }

  function MatPhasedRx(tr: Trig, theta: real, phi: real): Matrix {
    var s := Mul(Complex(0.0, -1.0), tr.HalfSin(theta));
    Matrix(tr.HalfCos(theta), Mul(tr.Phase(-phi), s), Mul(tr.Phase(phi), s), tr.HalfCos(theta))
  }

  function MatrixOf(tr: Trig, k: Kind, params: seq<real>): Matrix
    requires |params| == ParamCount(k) && !k.Swap?
  {
    match k
    case X => MatX
    case Y => MatY
    case Z => MatZ
    case H => MatH(tr)
    case S => MatS
    case T => Diag(One, tr.Phase(tr.pi / 4.0))
    case Rx => MatRx(tr, params[0])
    case Ry => MatRy(tr, params[0])
    case Rz => MatRz(tr, params[0])
    case R1 => Diag(One, tr.Phase(params[0]))
    case U2 => MatU3(tr, tr.pi / 2.0, params[0], params[1])
    case U3 => MatU3(tr, params[0], params[1], params[2])
    case PhasedRx => MatPhasedRx(tr, params[0], params[1])
  }

  function GateMatrix(tr: Trig, g: Gate): Matrix
    requires !g.kind.Swap?
  {
    var m := MatrixOf(tr, g.kind, g.params);
    if g.adj then Dagger(m) else m
  }

  function Controlled(cs: set<nat>, m: Matrix): Family {
    (b: Basis) => if cs <= b then m else Identity
  }

  function BlockOf(tr: Trig, g: Gate): Block {
    if g.kind.Swap? then Exchange(Wires(g.controls), g.targets[0], g.targets[1])
    else Mux(Controlled(Wires(g.controls), GateMatrix(tr, g)), g.targets[0])
  }

  /** The circuit as a sequence of blocks. */
  function Denote(tr: Trig, gs: seq<Gate>): seq<Block> {
    seq(|gs|, i requires 0 <= i < |gs| => BlockOf(tr, gs[i]))
  }

  /** On every state of every register, circuit xs has the effect of circuit ys times the number w. */
  ghost predicate Means(tr: Trig, w: Complex, xs: seq<Gate>, ys: seq<Gate>) {
    Equiv(w, Denote(tr, xs), Denote(tr, ys))
  }

  // ---- Circuits compose ----

  lemma DenoteConcat(tr: Trig, xs: seq<Gate>, ys: seq<Gate>)
    ensures Denote(tr, xs + ys) == Denote(tr, xs) + Denote(tr, ys)
  {
  }

  lemma MeansRefl(tr: Trig, xs: seq<Gate>)
    ensures Means(tr, One, xs, xs)
  {
    hide Equiv, Denote;
    EquivRefl(Denote(tr, xs));
  }

  lemma MeansTrans(tr: Trig, v: Complex, w: Complex, xs: seq<Gate>, ys: seq<Gate>, zs: seq<Gate>)
    requires Means(tr, v, xs, ys) && Means(tr, w, ys, zs)
    ensures Means(tr, Mul(v, w), xs, zs)
  {
    hide Equiv, Denote, Mul;
    EquivTrans(v, w, Denote(tr, xs), Denote(tr, ys), Denote(tr, zs));
  }

  lemma MeansSym(tr: Trig, xs: seq<Gate>, ys: seq<Gate>)
    requires Means(tr, One, xs, ys)
    ensures Means(tr, One, ys, xs)
  {
    hide Equiv, Denote, Mul;
    MulOne(One);
    EquivSym(One, One, Denote(tr, xs), Denote(tr, ys));
  }

  /** A chain of two exact equalities. */
  lemma MeansChain(tr: Trig, xs: seq<Gate>, ys: seq<Gate>, zs: seq<Gate>)
    requires Means(tr, One, xs, ys) && Means(tr, One, ys, zs)
    ensures Means(tr, One, xs, zs)
  {
    hide Means, Mul;
    MulOne(One);
    MeansTrans(tr, One, One, xs, ys, zs);
  }

  lemma MeansConcat(tr: Trig, v: Complex, w: Complex, xs: seq<Gate>, xs': seq<Gate>, ys: seq<Gate>, ys': seq<Gate>)
    requires Means(tr, v, xs, xs') && Means(tr, w, ys, ys')
    ensures Means(tr, Mul(v, w), xs + ys, xs' + ys')
  {
    hide Equiv, Denote, Mul;
    DenoteConcat(tr, xs, ys);
    DenoteConcat(tr, xs', ys');
    EquivConcat(v, w, Denote(tr, xs), Denote(tr, xs'), Denote(tr, ys), Denote(tr, ys'));
  }

  lemma MeansInside(tr: Trig, w: Complex, pre: seq<Gate>, xs: seq<Gate>, ys: seq<Gate>, post: seq<Gate>)
    requires Means(tr, w, xs, ys)
    ensures Means(tr, w, pre + xs + post, pre + ys + post)
  {
    hide Equiv, Denote;
    DenoteConcat(tr, pre, xs);
    DenoteConcat(tr, pre + xs, post);
    DenoteConcat(tr, pre, ys);
    DenoteConcat(tr, pre + ys, post);
    EquivInside(w, Denote(tr, pre), Denote(tr, xs), Denote(tr, ys), Denote(tr, post));
  }

  lemma MeansAppend(tr: Trig, w: Complex, xs: seq<Gate>, ys: seq<Gate>, post: seq<Gate>)
    requires Means(tr, w, xs, ys)
    ensures Means(tr, w, xs + post, ys + post)
  {
    hide Means;
    MeansInside(tr, w, [], xs, ys, post);
    assert [] + xs == xs && [] + ys == ys;
  }

  // ---- Which gates commute ----

  lemma ControlledIgnores(cs: set<nat>, m: Matrix, u: nat)
    requires u !in cs
    ensures Ignores(Controlled(cs, m), u)
  {
    forall b: Basis ensures Controlled(cs, m)(On(b, u)) == Controlled(cs, m)(Off(b, u)) {
      assert cs <= On(b, u) <==> cs <= Off(b, u);
    }
  }

  /** Gate p may be moved past gate g: g neither targets a control of p nor touches a target of p. */
  predicate Passable(p: Gate, g: Gate) {
    && (forall c <- p.controls :: c !in g.targets)
    && (forall t <- p.targets :: !g.Touches(t))
  }

  /** A gate commutes with every gate it may pass. */
  lemma PassableCommutes(tr: Trig, p: Gate, g: Gate)
    requires Passable(p, g)
    ensures Means(tr, One, [p, g], [g, p])
  {
    hide Equiv, GateMatrix;
    assert Denote(tr, [p, g]) == [BlockOf(tr, p), BlockOf(tr, g)];
    assert Denote(tr, [g, p]) == [BlockOf(tr, g), BlockOf(tr, p)];
    var cs, ds := Wires(p.controls), Wires(g.controls);
    var t, u := p.targets[0], g.targets[0];
    assert t in p.targets && u in g.targets && !g.Touches(t);
    assert u !in cs && t !in ds && t != u;
    if p.kind.Swap? && g.kind.Swap? {
      assert p.targets[1] in p.targets && g.targets[1] in g.targets;
      ExchangeCommute(cs, t, p.targets[1], ds, u, g.targets[1]);
    } else if p.kind.Swap? {
      var m := GateMatrix(tr, g);
      assert p.targets[1] in p.targets;
      ControlledIgnores(ds, m, t);
      ControlledIgnores(ds, m, p.targets[1]);
      MuxExchangeCommute(Controlled(ds, m), u, cs, t, p.targets[1]);
      EquivSymOne([BlockOf(tr, g), BlockOf(tr, p)], [BlockOf(tr, p), BlockOf(tr, g)]);
    } else if g.kind.Swap? {
      var m := GateMatrix(tr, p);
      assert g.targets[1] in g.targets;
      ControlledIgnores(cs, m, u);
      ControlledIgnores(cs, m, g.targets[1]);
      MuxExchangeCommute(Controlled(cs, m), t, ds, u, g.targets[1]);
    } else {
      ControlledIgnores(cs, GateMatrix(tr, p), u);
      ControlledIgnores(ds, GateMatrix(tr, g), t);
      MuxCommute(Controlled(cs, GateMatrix(tr, p)), t, Controlled(ds, GateMatrix(tr, g)), u);
    }
  }

  lemma EquivSymOne(xs: seq<Block>, ys: seq<Block>)
    requires Equiv(One, xs, ys)
    ensures Equiv(One, ys, xs)
  {
    hide Equiv, Mul;
    MulOne(One);
    EquivSym(One, One, xs, ys);
  }

  predicate Free(p: Gate, mid: seq<Gate>) {
    forall g <- mid :: Passable(p, g)
  }

  /** The frame argument: a gate slides over any segment that leaves its wires alone. */
  lemma {:induction false} Slide(tr: Trig, p: Gate, mid: seq<Gate>)
    requires Free(p, mid)
    ensures Means(tr, One, [p] + mid, mid + [p])
    decreases |mid|
  {
    hide Means, Passable;
    if mid == [] {
      assert [p] + mid == [p] == mid + [p];
      MeansRefl(tr, [p]);
    } else {
      var g, rest := mid[0], mid[1..];
      PassableCommutes(tr, p, g);
      MeansInside(tr, One, [], [p, g], [g, p], rest);
      assert [] + [p, g] + rest == [p] + mid;
      Slide(tr, p, rest);
      MeansInside(tr, One, [g], [p] + rest, rest + [p], []);
      assert [g] + ([p] + rest) + [] == [] + [g, p] + rest;
      assert [g] + (rest + [p]) + [] == mid + [p];
      MeansChain(tr, [p] + mid, [g] + ([p] + rest) + [], mid + [p]);
    }
  }
}
