/** The OpenQASM gate calls the translator knows, and the quake operations it appends for each.

    The function Emitted is the table; module Builder appends its operations one by one. */
module GateCalls {
  import opened Gates

  /** Gate identifiers.  BuiltinU and BuiltinCX are `U` and `CX`; every other name is its lower-case
      OpenQASM spelling behind a Q.  NotSupported stands for the entries that assert (`gphase`, `ryy`,
      `iswap`, `iswapdg`, `teleport`, `xx_plus_yy`, `xx_minus_yy`) and for unknown identifiers. */
  datatype Name =
    | BuiltinU | BuiltinCX
    | QU | QU1 | QU2 | QU3 | QP | QPhase
    | QX | QY | QZ | QH | QS | QSdg | QSx | QSxdg | QT | QTdg | QId
    | QRx | QRy | QRz
    | QCx | QCy | QCz | QCh | QCcx | QCrx | QCry | QCp | QCphase | QCu1 | QCu3
    | QSwap | QCswap | QRxx | QRzz | QRzx | QDcx | QEcr | QRccx
    | NotSupported

  /** Gates whose leading operands are controls. */
  predicate IsMultiQubitGate(n: Name) {
    n in {QCx, QCy, QCz, QCh, QCcx, QCswap, QCrx, QCry, QCp, QCphase, BuiltinCX, QCu1, QCu3}
  }

  function GetNumControls(n: Name): nat {
    match n
    case QCx | BuiltinCX | QCy | QCrx | QCry | QCp | QCphase | QCz | QCu1 | QCu3 | QCh | QCswap => 1
    case QCcx => 2
    case _ => 0
  }

  /** Identifiers that contain the letters "dg". */
  predicate IsAdjoint(n: Name) { n in {QSdg, QTdg, QSxdg} }

  function NumParams(n: Name): nat {
    match n
    case BuiltinU | QU | QU3 | QCu3 => 3
    case QU2 => 2
    case QU1 | QP | QPhase | QRx | QRy | QRz | QCrx | QCry | QCp | QCphase | QCu1 | QRxx | QRzz | QRzx => 1
    case _ => 0
  }

  function NumTargets(n: Name): nat {
    match n
    case QSwap | QCswap | QRxx | QRzz | QRzx | QDcx | QEcr => 2
    case QRccx => 3
    case _ => 1
  }

  /** The operand counts the table entries assert.  `id` asserts nothing, and `rccx` only reads its
      first three targets. */
  predicate Shape(n: Name, nParams: nat, nControls: nat, nTargets: nat) {
    || n == QId
    || (n != NotSupported && nParams == NumParams(n) && nControls == GetNumControls(n)
        && (nTargets == NumTargets(n) || (n == QRccx && nTargets > 3)))
  }

  // ---- The macros ----

  function OneQubit(k: Kind, adj: bool, params: seq<real>, t: nat): Gate
    requires !k.Swap? && |params| == ParamCount(k)
  {
    Operation(k, adj, params, [], [t])
  }

  function Cx(adj: bool, c: nat, t: nat): Gate
    requires c != t
  {
    assert [c, t][1..] == [t] && Distinct([c] + [t]);
    Operation(X, adj, [], [c], [t])
  }

  function EulerOps(adj: bool, t: nat, first: real, middle: real, last: real): seq<Gate> {
    [OneQubit(Rz, adj, [first], t), OneQubit(Ry, adj, [middle], t), OneQubit(Rz, adj, [last], t)]
  }

  function CpOps(adj: bool, angle: real, c: nat, t: nat): seq<Gate>
    requires c != t
  {
    [OneQubit(Rz, adj, [angle / 2.0], c), Cx(adj, c, t), OneQubit(Rz, adj, [-angle / 2.0], t), Cx(adj, c, t),
     OneQubit(Rz, adj, [angle / 2.0], t)]
  }

  function RzzOps(adj: bool, angle: real, a: nat, b: nat): seq<Gate>
    requires a != b
  {
    [Cx(adj, a, b), OneQubit(R1, adj, [angle], b), Cx(adj, a, b)]
  }

  function RzxOps(adj: bool, angle: real, a: nat, b: nat): seq<Gate>
    requires a != b
  {
    [OneQubit(H, adj, [], b), Cx(adj, a, b), OneQubit(Rz, adj, [angle], b), Cx(adj, a, b), OneQubit(H, adj, [], b)]
  }

  function EcrOps(pi: real, adj: bool, a: nat, b: nat): seq<Gate>
    requires a != b
  {
    RzxOps(adj, pi / 4.0, a, b) + [OneQubit(Rx, adj, [pi], a)] + RzxOps(adj, -pi / 4.0, a, b)
  }

  function RxxOps(pi: real, adj: bool, angle: real, a: nat, b: nat): seq<Gate>
    requires a != b
  {
    [OneQubit(U3, adj, [pi / 2.0, angle, 0.0], a), OneQubit(H, adj, [], b)]
    + RzzOps(adj, -angle, a, b)
    + EulerOps(adj, a, pi - angle, pi / 2.0, -pi)
    + [OneQubit(H, adj, [], b)]
  }

  /** The part of `rccx` between its two `u2(0, pi)`. */
  function RccxMiddle(pi: real, adj: bool, q0: nat, q1: nat, q2: nat): seq<Gate>
    requires q0 != q2 && q1 != q2
  {
    [OneQubit(R1, adj, [pi / 4.0], q2), Cx(adj, q1, q2), OneQubit(R1, adj, [-pi / 4.0], q2), Cx(adj, q0, q2),
     OneQubit(R1, adj, [pi / 4.0], q2), Cx(adj, q1, q2), OneQubit(R1, adj, [-pi / 4.0], q2)]
  }

  function RccxOps(pi: real, adj: bool, q0: nat, q1: nat, q2: nat): seq<Gate>
    requires q0 != q2 && q1 != q2
  {
    EulerOps(adj, q2, pi, pi / 2.0, 0.0) + RccxMiddle(pi, adj, q0, q1, q2) + EulerOps(adj, q2, pi, pi / 2.0, 0.0)
  }

  // ---- The table ----

  /** Entries that create several operations, or none. */
  predicate IsMacro(n: Name) {
    n in {BuiltinU, QU, QU2, QCp, QCphase, QRzz, QRzx, QRxx, QDcx, QEcr, QRccx, QId}
  }

  /** The gate kind behind the entries that create one operation. */
  function DirectKind(n: Name): Kind {
    match n
    case QX | QCx | BuiltinCX | QCcx => X
    case QY | QCy => Y
    case QZ | QCz => Z
    case QH | QCh => H
    case QS | QSdg => S
    case QT | QTdg => T
    case QRx | QCrx | QSx | QSxdg => Rx
    case QRy | QCry => Ry
    case QU1 | QCu1 => R1
    case QU3 | QCu3 => U3
    case QSwap | QCswap => Swap
    case _ => Rz
  }

  function DirectParams(pi: real, n: Name, params: seq<real>): seq<real> {
    if n == QSx then [pi / 2.0] else if n == QSxdg then [-pi / 2.0] else params
  }

  /** The adjoint flag of the created operation; adj is the one the table is called with. */
  predicate DirectAdjoint(n: Name, adj: bool) {
    if n == QSdg || n == QTdg then true else if n == QSxdg then false else adj
  }

  function DirectOp(pi: real, n: Name, params: seq<real>, cs: seq<nat>, ts: seq<nat>, adj: bool): Gate
    requires !IsMacro(n) && Shape(n, |params|, |cs|, |ts|) && Distinct(cs + ts)
  {
    Operation(DirectKind(n), DirectAdjoint(n, adj), DirectParams(pi, n, params), cs, ts)
  }

  /** What insertQASMGateIntoQuakeModule appends. */
  function Emitted(pi: real, n: Name, params: seq<real>, cs: seq<nat>, ts: seq<nat>, adj: bool): seq<Gate>
    requires Shape(n, |params|, |cs|, |ts|) && Distinct(cs + ts)
  {
    if IsMacro(n) then MacroOps(pi, n, params, cs, ts, adj) else [DirectOp(pi, n, params, cs, ts, adj)]
  }

  function MacroOps(pi: real, n: Name, params: seq<real>, cs: seq<nat>, ts: seq<nat>, adj: bool): seq<Gate>
    requires IsMacro(n) && Shape(n, |params|, |cs|, |ts|) && Distinct(cs + ts)
  {
    match n
    case BuiltinU | QU => EulerOps(adj, ts[0], params[2], params[0], params[1])
    case QU2 => EulerOps(adj, ts[0], params[1], pi / 2.0, params[0])
    case QCp | QCphase => DistinctAt(cs + ts, 0, 1); CpOps(adj, params[0], cs[0], ts[0])
    case QRzz => DistinctAt(cs + ts, 0, 1); RzzOps(adj, params[0], ts[0], ts[1])
    case QRzx => DistinctAt(cs + ts, 0, 1); RzxOps(adj, params[0], ts[0], ts[1])
    case QRxx => DistinctAt(cs + ts, 0, 1); RxxOps(pi, adj, params[0], ts[0], ts[1])
    case QDcx => DistinctAt(cs + ts, 0, 1); [Cx(adj, ts[0], ts[1]), Cx(adj, ts[1], ts[0])]
    case QEcr => DistinctAt(cs + ts, 0, 1); EcrOps(pi, adj, ts[0], ts[1])
    case QRccx =>
      DistinctAt(cs + ts, 0, 2); DistinctAt(cs + ts, 1, 2);
      RccxOps(pi, adj, ts[0], ts[1], ts[2])
    case _ => []
  }

  // ---- Calls and programs ----

  datatype GateCall = GateCall(name: Name, args: seq<real>, operands: seq<nat>) {

    /** How many leading operands are controls; a call without modifiers has only the implicit ones. */
    function Split(): nat {
      var k := if IsMultiQubitGate(name) then GetNumControls(name) else 0;
      if k <= |operands| then k else |operands|
    }

    function Controls(): seq<nat> { operands[..Split()] }
    function Targets(): seq<nat> { operands[Split()..] }

    predicate Accepted() { Shape(name, |args|, |Controls()|, |Targets()|) }
  }

  /** A call whose operands are different qubits. */
  type Call = c: GateCall | Distinct(c.operands) witness GateCall(QId, [], [])

  lemma OperandsSplit(c: Call)
    ensures Distinct(c.Controls() + c.Targets())
  {
    assert c.Controls() + c.Targets() == c.operands;
  }

  function Lowered(pi: real, c: Call): seq<Gate>
    requires c.Accepted()
  {
    OperandsSplit(c);
    Emitted(pi, c.name, c.args, c.Controls(), c.Targets(), IsAdjoint(c.name))
  }

  predicate AllAccepted(calls: seq<Call>) { forall c <- calls :: c.Accepted() }

  function LoweredProgram(pi: real, calls: seq<Call>): seq<Gate>
    requires AllAccepted(calls)
  {
    if calls == [] then []
    else
      var init := calls[..|calls| - 1];
      assert AllAccepted(init);
      LoweredProgram(pi, init) + Lowered(pi, calls[|calls| - 1])
  }
}
