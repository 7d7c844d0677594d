/** What each OpenQASM gate is supposed to do, written without reference to how it is lowered.

    The matrices are those of the OpenQASM 3 specification, sections "Gates" and "Standard library",
    up to the global phase that quake's half-angle convention fixes.  rxx, rzz, rzx and ecr are
    exponentials of Pauli products, and rccx is the simplified Toffoli gate. */
module References {
  import opened Amplitudes
  import opened Blocks
  import opened Gates
  import opened GateCalls

  // ---- What each gate takes ----

  /** How many angles the standard library gives the gate. */
  function LibraryParams(n: Name): nat {
    match n
    case BuiltinU | QU | QU3 | QCu3 => 3
    case QU2 => 2
    case QU1 | QP | QPhase | QCp | QCphase | QCu1 => 1
    case QRx | QRy | QRz | QCrx | QCry => 1
    case QRxx | QRzz | QRzx => 1
    case BuiltinCX | QX | QY | QZ | QH | QS | QSdg | QSx | QSxdg | QT | QTdg | QId => 0
    case QCx | QCy | QCz | QCh | QCcx | QSwap | QCswap | QDcx | QEcr | QRccx => 0
    case NotSupported => 0
  }

  /** How many leading operands are controls in the definition the standard library gives the gate. */
  function ControlOperands(n: Name): nat {
    match n
    case BuiltinCX | QCx | QCy | QCz | QCh | QCrx | QCry | QCp | QCphase | QCu1 | QCu3 | QCswap => 1
    case QCcx => 2
    case _ => 0
  }

  /** How many operands follow the controls. */
  function TargetOperands(n: Name): nat {
    match n
    case BuiltinU | QU | QU1 | QU2 | QU3 | QP | QPhase | QRx | QRy | QRz => 1
    case QX | QY | QZ | QH | QS | QSdg | QSx | QSxdg | QT | QTdg | QId => 1
    case BuiltinCX | QCx | QCy | QCz | QCh | QCcx | QCrx | QCry | QCp | QCphase | QCu1 | QCu3 => 1
    case QSwap | QCswap | QRxx | QRzz | QRzx | QDcx | QEcr => 2
    case QRccx => 3
    case NotSupported => 0
  }

  /** A call with that many angles and operands; `id` takes any, and `rccx` ignores operands past the
      third. */
  predicate LibraryShape(n: Name, nParams: nat, nControls: nat, nTargets: nat) {
    || n == QId
    || (n != NotSupported && nParams == LibraryParams(n) && nControls == ControlOperands(n)
        && (nTargets == TargetOperands(n) || (n == QRccx && nTargets > 3)))
  }

  /** A call of the gate with as many angles and operands, controls included, as the library gives it. */
  predicate LibraryTakes(n: Name, nParams: nat, nOperands: nat) {
    || n == QId
    || (n != NotSupported && nParams == LibraryParams(n)
        && (nOperands == ControlOperands(n) + TargetOperands(n) || (n == QRccx && nOperands > 3)))
  }

  // ---- What each gate does ----

  /** The matrix of a gate that acts on one target, under whatever controls it has. */
  function NamedMatrix(tr: Trig, n: Name, params: seq<real>): Matrix
    requires |params| == LibraryParams(n)
  {
    match n
    case BuiltinU | QU | QU3 | QCu3 => MatU3(tr, params[0], params[1], params[2])
    case QU2 => MatU3(tr, tr.pi / 2.0, params[0], params[1])
    case QU1 | QP | QPhase | QCp | QCphase | QCu1 => Diag(One, tr.Phase(params[0]))
    case QX | QCx | BuiltinCX | QCcx => MatX
    case QY | QCy => MatY
    case QZ | QCz => MatZ
    case QH | QCh => MatH(tr)
    case QS => MatS
    case QSdg => Diag(One, Complex(0.0, -1.0))
    case QT => Diag(One, tr.Phase(tr.pi / 4.0))
    case QTdg => Diag(One, tr.Phase(-tr.pi / 4.0))
    case QSx => RootOfX
    case QSxdg => Dagger(RootOfX)
    case QRx | QCrx => MatRx(tr, params[0])
    case QRy | QCry => MatRy(tr, params[0])
    case QRz => MatRz(tr, params[0])
    case _ => Identity
  }

  /** The square root of X. */
  const RootOfX := Matrix(Complex(0.5, 0.5), Complex(0.5, -0.5), Complex(0.5, -0.5), Complex(0.5, 0.5))

  function Everywhere(m: Matrix): Family { (b: Basis) => m }

  /** One matrix where qubit q reads 0, another where it reads 1. */
  function Chosen(q: nat, zero: Matrix, one: Matrix): Family { (b: Basis) => if q in b then one else zero }

  /** exp(-i*angle/2 * Z(q) P(t)), where rotation(angle) is exp(-i*angle/2 * P). */
  function SignedRotation(q: nat, rotation: real -> Matrix, angle: real): Family {
    Chosen(q, rotation(angle), rotation(-angle))
  }

  /** rccx: Toffoli up to a sign or a factor i that the basis state decides. */
  function SimplifiedToffoli(q0: nat, q1: nat): Family {
    (b: Basis) => if q0 !in b then Identity else if q1 in b then MatY else MatZ
  }

  function RxOf(tr: Trig): real -> Matrix { (a: real) => MatRx(tr, a) }
  function RzOf(tr: Trig): real -> Matrix { (a: real) => MatRz(tr, a) }

  function Reference(tr: Trig, n: Name, params: seq<real>, cs: seq<nat>, ts: seq<nat>): seq<Block>
    requires LibraryShape(n, |params|, |cs|, |ts|)
  {
    match n
    case QId => []
    case QSwap | QCswap => [Exchange(Wires(cs), ts[0], ts[1])]
    case QRzz => [Mux(SignedRotation(ts[0], RzOf(tr), params[0]), ts[1])]
    case QRzx => [Mux(SignedRotation(ts[0], RxOf(tr), params[0]), ts[1])]
    case QRxx =>
      [Mux(Everywhere(MatH(tr)), ts[1]), Mux(SignedRotation(ts[1], RxOf(tr), params[0]), ts[0]),
       Mux(Everywhere(MatH(tr)), ts[1])]
    case QDcx => [Mux(Chosen(ts[0], Identity, MatX), ts[1]), Mux(Chosen(ts[1], Identity, MatX), ts[0])]
    case QEcr => [Mux(SignedRotation(ts[0], RxOf(tr), tr.pi / 2.0), ts[1]), Mux(Everywhere(MatX), ts[0])]
    case QRccx => [Mux(SimplifiedToffoli(ts[0], ts[1]), ts[2])]
    case _ => [Mux(Controlled(Wires(cs), NamedMatrix(tr, n, params)), ts[0])]
  }

  /** The angle of the global phase by which the emitted operations exceed the reference. */
  function GlobalPhase(pi: real, n: Name, params: seq<real>): real
    requires |params| >= LibraryParams(n)
  {
    match n
    case BuiltinU | QU => -(params[1] + params[2]) / 2.0
    case QU2 => -(params[0] + params[1]) / 2.0
    case QP | QPhase => -params[0] / 2.0
    case QCp | QCphase => -params[0] / 4.0
    case QSx => -pi / 4.0
    case QSxdg => pi / 4.0
    case QRzz => params[0] / 2.0
    case QEcr => -pi / 2.0
    case QRccx => pi
    case _ => 0.0
  }
}
