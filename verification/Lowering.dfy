/** Translating gate calls keeps their meaning, up to one global phase. */
module Lowering {
  import opened Amplitudes
  import opened Blocks
  import opened Gates
  import opened LocalRules
  import opened Angles
  import opened Phases
  import opened GateCalls
  import opened References
  import opened Macros
  import opened Composites

  /** Names whose table entry creates one operation on one target. */
  predicate SingleOperation(n: Name) {
    !IsMacro(n) && n !in {QSwap, QCswap, NotSupported}
  }

  /** The matrix of that operation. */
  function OperationMatrix(tr: Trig, n: Name, params: seq<real>): Matrix
    requires SingleOperation(n) && |params| == NumParams(n)
  {
    var m := MatrixOf(tr, DirectKind(n), DirectParams(tr.pi, n, params));
    if DirectAdjoint(n, IsAdjoint(n)) then Dagger(m) else m
  }

  lemma {:induction false} SingleForm(tr: Trig, n: Name, params: seq<real>, cs: seq<nat>, ts: seq<nat>)
    requires SingleOperation(n) && Shape(n, |params|, |cs|, |ts|) && Distinct(cs + ts)
    ensures var gs := Emitted(tr.pi, n, params, cs, ts, IsAdjoint(n));
            && |gs| == 1 && !gs[0].kind.Swap? && gs[0].controls == cs && gs[0].targets == ts && |ts| == 1
            && GateMatrix(tr, gs[0]) == OperationMatrix(tr, n, params)
  {
    hide MatrixOf, Operation.WellFormed, Distinct, DirectAdjoint, DirectParams;
  }

  predicate Phased(n: Name) { n in {QP, QPhase, QSx, QSxdg} }

  lemma {:induction false} FixedEntry(tr: Trig, n: Name)
    requires SingleOperation(n) && n !in {QSx, QSxdg, QSdg, QTdg} && NumParams(n) == 0
    ensures OperationMatrix(tr, n, []) == NamedMatrix(tr, n, [])
  {
    hide MatH, MatRx, MatRy, MatRz, MatU3, Diag, Dagger, Trig.Phase;
  }

  lemma {:induction false} AdjointEntry(tr: Trig, n: Name)
    requires tr.Lawful() && n in {QSdg, QTdg}
    ensures OperationMatrix(tr, n, []) == NamedMatrix(tr, n, [])
  {
    hide tr.Lawful, Diag, Dagger, Trig.Phase, MatRx, MatRy, MatRz, MatU3;
    ConjImag();
    ConjPhase(tr, tr.pi / 4.0);
    assert -tr.pi / 4.0 == -(tr.pi / 4.0);
  }

  lemma ConjImag()
    ensures Dagger(Diag(One, Imag)) == Diag(One, Complex(0.0, -1.0))
  {
  }

  lemma {:induction false} RotationEntry(tr: Trig, n: Name, params: seq<real>)
    requires SingleOperation(n) && n !in {QP, QPhase} && |params| > 0 && |params| == NumParams(n)
    ensures OperationMatrix(tr, n, params) == NamedMatrix(tr, n, params)
  {
    hide MatRx, MatRy, MatRz, MatU3, Trig.Phase, Dagger;
  }

  lemma {:induction false} PhaseEntry(tr: Trig, n: Name, params: seq<real>)
    requires tr.Lawful() && n in {QP, QPhase} && |params| == NumParams(n)
    ensures OperationMatrix(tr, n, params)
         == ScaledBy(tr.Phase(GlobalPhase(tr.pi, n, params)), NamedMatrix(tr, n, params))
  {
    hide tr.Lawful, ScaledBy, MatRz, Trig.Phase, Diag, Dagger;
    PhaseGate(tr, params[0]);
  }

  lemma {:induction false} RootEntry(tr: Trig, n: Name, params: seq<real>)
    requires tr.Lawful() && n in {QSx, QSxdg} && |params| == NumParams(n)
    ensures OperationMatrix(tr, n, params)
         == ScaledBy(tr.Phase(GlobalPhase(tr.pi, n, params)), NamedMatrix(tr, n, params))
  {
    hide tr.Lawful, ScaledBy, MatRx, Trig.Phase, Diag, Dagger;
    RootMatrices(tr);
  }

  /** The matrix of the created operation is the named matrix times the global phase. */
  lemma {:induction false} SingleMatrix(tr: Trig, n: Name, params: seq<real>)
    requires tr.Lawful() && SingleOperation(n) && |params| == NumParams(n)
    ensures OperationMatrix(tr, n, params)
         == ScaledBy(tr.Phase(GlobalPhase(tr.pi, n, params)), NamedMatrix(tr, n, params))
  {
    hide tr.Lawful, ScaledBy, Trig.Phase, OperationMatrix, NamedMatrix;
    if Phased(n) {
      if n in {QSx, QSxdg} {
        RootEntry(tr, n, params);
      } else {
        PhaseEntry(tr, n, params);
      }
    } else {
      PhaseLandmarks(tr);
      if params == [] {
        if n in {QSdg, QTdg} {
          AdjointEntry(tr, n);
        } else {
          FixedEntry(tr, n);
        }
      } else {
        RotationEntry(tr, n, params);
      }
      ScaledOne(NamedMatrix(tr, n, params));
    }
  }

  lemma PhaseGate(tr: Trig, angle: real)
    requires tr.Lawful()
    ensures MatRz(tr, angle) == ScaledBy(tr.Phase(-angle / 2.0), Diag(One, tr.Phase(angle)))
  {
    hide tr.Lawful, ScaledBy, Trig.Phase;
    PhaseLandmarks(tr);
    ScaledStraight(tr, -angle / 2.0, 0.0, angle);
    assert -angle / 2.0 + 0.0 == -angle / 2.0 && -angle / 2.0 + angle == angle / 2.0;
  }

  lemma ConjPhase(tr: Trig, x: real)
    requires tr.Lawful()
    ensures Dagger(Diag(One, tr.Phase(x))) == Diag(One, tr.Phase(-x))
  {
    hide tr.Lawful;
    NegativeAngle(tr, x);
  }

  lemma RootMatrices(tr: Trig)
    requires tr.Lawful()
    ensures MatRx(tr, tr.pi / 2.0) == ScaledBy(tr.Phase(-tr.pi / 4.0), RootOfX)
    ensures MatRx(tr, -tr.pi / 2.0) == ScaledBy(tr.Phase(tr.pi / 4.0), Dagger(RootOfX))
  {
    hide tr.Lawful;
    RootSquare(tr);
    NegativeAngle(tr, tr.pi / 4.0);
    assert tr.pi / 2.0 / 2.0 == tr.pi / 4.0 && -tr.pi / 2.0 / 2.0 == -(tr.pi / 4.0) && -tr.pi / 4.0 == -(tr.pi / 4.0);
  }

  /** What a call emits is what the gate does, times exp(i * GlobalPhase). */
  ghost predicate Faithful(tr: Trig, n: Name, params: seq<real>, cs: seq<nat>, ts: seq<nat>)
    requires Shape(n, |params|, |cs|, |ts|) && Distinct(cs + ts)
  {
    Equiv(tr.Phase(GlobalPhase(tr.pi, n, params)), Denote(tr, Emitted(tr.pi, n, params, cs, ts, IsAdjoint(n))),
          Reference(tr, n, params, cs, ts))
  }

  /** Only entries without controls carry a global phase. */
  lemma {:induction false} SingleEntry(tr: Trig, n: Name, params: seq<real>, cs: seq<nat>, ts: seq<nat>)
    requires tr.Lawful() && SingleOperation(n) && Shape(n, |params|, |cs|, |ts|) && Distinct(cs + ts)
    ensures Faithful(tr, n, params, cs, ts)
  {
    hide tr.Lawful, Equiv, ScaledBy, Trig.Phase, Emitted, NamedMatrix, OperationMatrix, GateMatrix;
    var gs := Emitted(tr.pi, n, params, cs, ts, IsAdjoint(n));
    SingleForm(tr, n, params, cs, ts);
    SingleMatrix(tr, n, params);
    assert gs == [gs[0]];
    DenoteOne(tr, gs[0]);
    var w, m := tr.Phase(GlobalPhase(tr.pi, n, params)), NamedMatrix(tr, n, params);
    PhaseLandmarks(tr);
    ScaledOne(Identity);
    var f, h := FamilyOf(tr, gs[0]), Controlled(Wires(cs), m);
    assert cs == [] || w == One;
    forall s: Basis ensures f(s) == ScaledBy(w, h(s)) {
      assert Wires([]) <= s;
    }
    MuxScaled(w, f, h, ts[0]);
  }

  lemma {:induction false} SwapEntry(tr: Trig, n: Name, params: seq<real>, cs: seq<nat>, ts: seq<nat>)
    requires tr.Lawful() && n in {QId, QSwap, QCswap} && Shape(n, |params|, |cs|, |ts|) && Distinct(cs + ts)
    ensures Faithful(tr, n, params, cs, ts)
  {
    hide tr.Lawful, Equiv, Trig.Phase;
    PhaseLandmarks(tr);
    var gs := Emitted(tr.pi, n, params, cs, ts, IsAdjoint(n));
    if n == QId {
      DenoteNone(tr);
    } else {
      DenoteOne(tr, gs[0]);
    }
    EquivRefl(Denote(tr, gs));
  }

  lemma {:induction false} EulerForm(tr: Trig, n: Name, params: seq<real>, cs: seq<nat>, ts: seq<nat>, theta: real,
      phi: real, lam: real)
    requires n in {BuiltinU, QU, QU2} && Shape(n, |params|, |cs|, |ts|) && Distinct(cs + ts)
    requires [theta, phi, lam] == if n == QU2 then [tr.pi / 2.0] + params else params
    ensures cs == [] && NamedMatrix(tr, n, params) == MatU3(tr, theta, phi, lam)
    ensures Emitted(tr.pi, n, params, cs, ts, IsAdjoint(n)) == EulerOps(false, ts[0], lam, theta, phi)
    ensures GlobalPhase(tr.pi, n, params) == -(phi + lam) / 2.0
    ensures Reference(tr, n, params, cs, ts) == [Mux(Controlled(Wires(cs), NamedMatrix(tr, n, params)), ts[0])]
  {
    hide EulerOps, MatU3, Operation.WellFormed, Distinct, DirectKind, Controlled;
    var p := if n == QU2 then [tr.pi / 2.0] + params else params;
    assert p[0] == theta && p[1] == phi && p[2] == lam;
  }

  lemma {:induction false} EulerEntry(tr: Trig, n: Name, params: seq<real>, cs: seq<nat>, ts: seq<nat>)
    requires tr.Lawful() && n in {BuiltinU, QU, QU2} && Shape(n, |params|, |cs|, |ts|) && Distinct(cs + ts)
    ensures Faithful(tr, n, params, cs, ts)
  {
    hide tr.Lawful, Equiv, Trig.Phase, MatU3, EulerOps, Denote, Emitted, NamedMatrix, Reference, GlobalPhase;
    var p := if n == QU2 then [tr.pi / 2.0] + params else params;
    EulerForm(tr, n, params, cs, ts, p[0], p[1], p[2]);
    var h := Controlled(Wires(cs), NamedMatrix(tr, n, params));
    forall s: Basis ensures h(s) == MatU3(tr, p[0], p[1], p[2]) {
      assert Wires([]) <= s;
    }
    EulerMeans(tr, ts[0], p[0], p[1], p[2], h);
  }

  lemma {:induction false} PairEntry(tr: Trig, n: Name, params: seq<real>, cs: seq<nat>, ts: seq<nat>)
    requires tr.Lawful() && n in {QRzz, QRzx} && Shape(n, |params|, |cs|, |ts|) && Distinct(cs + ts)
    ensures Faithful(tr, n, params, cs, ts)
  {
    hide tr.Lawful, Equiv, Trig.Phase, MatRx, MatRz, RzzOps, RzxOps, Denote, Operation.WellFormed;
    DistinctAt(cs + ts, 0, 1);
    PhaseLandmarks(tr);
    if n == QRzz {
      RzzMeans(tr, params[0], ts[0], ts[1], SignedRotation(ts[0], RzOf(tr), params[0]));
    } else {
      RzxMeans(tr, params[0], ts[0], ts[1], SignedRotation(ts[0], RxOf(tr), params[0]));
    }
  }

  lemma {:induction false} CpEntry(tr: Trig, n: Name, params: seq<real>, cs: seq<nat>, ts: seq<nat>)
    requires tr.Lawful() && n in {QCp, QCphase} && Shape(n, |params|, |cs|, |ts|) && Distinct(cs + ts)
    ensures Faithful(tr, n, params, cs, ts)
  {
    hide tr.Lawful, Equiv, Trig.Phase, CpOps, Denote, Operation.WellFormed;
    DistinctAt(cs + ts, 0, 1);
    var h := Controlled(Wires(cs), NamedMatrix(tr, n, params));
    assert forall s: Basis :: Wires(cs) <= s <==> cs[0] in s;
    CpMeans(tr, params[0], cs[0], ts[0], h);
  }

  lemma {:induction false} RxxEntry(tr: Trig, n: Name, params: seq<real>, cs: seq<nat>, ts: seq<nat>)
    requires tr.Lawful() && n == QRxx && Shape(n, |params|, |cs|, |ts|) && Distinct(cs + ts)
    ensures Faithful(tr, n, params, cs, ts)
  {
    hide tr.Lawful, Equiv, Trig.Phase, SignedRotation, SimplifiedToffoli, Everywhere, RxxOps, EcrOps, RccxOps, Denote,
         Operation.WellFormed, NamedMatrix, DirectOp, Controlled;
    PhaseLandmarks(tr);
    DistinctAt(cs + ts, 0, 1);
    RxxMeans(tr, params[0], ts[0], ts[1]);
  }

  lemma {:induction false} EcrEntry(tr: Trig, n: Name, params: seq<real>, cs: seq<nat>, ts: seq<nat>)
    requires tr.Lawful() && n == QEcr && Shape(n, |params|, |cs|, |ts|) && Distinct(cs + ts)
    ensures Faithful(tr, n, params, cs, ts)
  {
    hide tr.Lawful, Equiv, Trig.Phase, SignedRotation, SimplifiedToffoli, Everywhere, RxxOps, EcrOps, RccxOps, Denote,
         Operation.WellFormed, NamedMatrix, DirectOp, Controlled;
    PhaseLandmarks(tr);
    DistinctAt(cs + ts, 0, 1);
    EcrMeans(tr, ts[0], ts[1]);
  }

  lemma {:induction false} RccxEntry(tr: Trig, n: Name, params: seq<real>, cs: seq<nat>, ts: seq<nat>)
    requires tr.Lawful() && n == QRccx && Shape(n, |params|, |cs|, |ts|) && Distinct(cs + ts)
    ensures Faithful(tr, n, params, cs, ts)
  {
    hide tr.Lawful, Equiv, Trig.Phase, SignedRotation, SimplifiedToffoli, Everywhere, RxxOps, EcrOps, RccxOps, Denote,
         Operation.WellFormed, NamedMatrix, DirectOp, Controlled;
    PhaseLandmarks(tr);
    DistinctAt(cs + ts, 0, 2);
    DistinctAt(cs + ts, 1, 2);
    RccxMeans(tr, ts[0], ts[1], ts[2]);
  }

  lemma {:induction false} DcxForm(tr: Trig, n: Name, params: seq<real>, cs: seq<nat>, ts: seq<nat>)
    requires n == QDcx && Shape(n, |params|, |cs|, |ts|) && Distinct(cs + ts)
    ensures ts[0] != ts[1] && GlobalPhase(tr.pi, n, params) == 0.0
    ensures Emitted(tr.pi, n, params, cs, ts, IsAdjoint(n)) == [Cx(false, ts[0], ts[1]), Cx(false, ts[1], ts[0])]
    ensures Reference(tr, n, params, cs, ts)
         == [Mux(Chosen(ts[0], Identity, MatX), ts[1]), Mux(Chosen(ts[1], Identity, MatX), ts[0])]
  {
    hide Cx, Chosen, Distinct, Operation.WellFormed;
    DistinctAt(cs + ts, 0, 1);
  }

  lemma {:induction false} DcxEntry(tr: Trig, n: Name, params: seq<real>, cs: seq<nat>, ts: seq<nat>)
    requires tr.Lawful() && n == QDcx && Shape(n, |params|, |cs|, |ts|) && Distinct(cs + ts)
    ensures Faithful(tr, n, params, cs, ts)
  {
    hide tr.Lawful, Equiv, Trig.Phase, Mul, Denote, Chosen, Cx, Emitted, Reference, GlobalPhase;
    DcxForm(tr, n, params, cs, ts);
    PhaseLandmarks(tr);
    var a, b := ts[0], ts[1];
    CxEntry(tr, a, b);
    CxEntry(tr, b, a);
    var p, g := Cx(false, a, b), Cx(false, b, a);
    DenoteConcat(tr, [p], [g]);
    assert [p] + [g] == [p, g];
    var x, y := Mux(Chosen(a, Identity, MatX), b), Mux(Chosen(b, Identity, MatX), a);
    EquivConcat(One, One, Denote(tr, [p]), [x], Denote(tr, [g]), [y]);
    MulOne(One);
    assert [x] + [y] == [x, y];
  }

  lemma CxEntry(tr: Trig, c: nat, t: nat)
    requires c != t
    ensures Equiv(One, Denote(tr, [Cx(false, c, t)]), [Mux(Chosen(c, Identity, MatX), t)])
  {
    hide Equiv, ScaledBy;
    DenoteOne(tr, Cx(false, c, t));
    var f, h := FamilyOf(tr, Cx(false, c, t)), Chosen(c, Identity, MatX);
    forall s: Basis ensures f(s) == ScaledBy(One, h(s)) {
      CxAt(tr, c, t, s);
      ScaledOne(h(s));
    }
    MuxScaled(One, f, h, t);
  }

  /** Whatever a supported gate call emits is the gate it names, times exp(i * GlobalPhase). */
  lemma {:induction false} EmittedMeans(tr: Trig, n: Name, params: seq<real>, cs: seq<nat>, ts: seq<nat>)
    requires tr.Lawful() && Shape(n, |params|, |cs|, |ts|) && Distinct(cs + ts)
    ensures Faithful(tr, n, params, cs, ts)
  {
    hide tr.Lawful, Faithful;
    match n {
      case BuiltinU | QU | QU2 => EulerEntry(tr, n, params, cs, ts);
      case QCp | QCphase => CpEntry(tr, n, params, cs, ts);
      case QRzz | QRzx => PairEntry(tr, n, params, cs, ts);
      case QRxx => RxxEntry(tr, n, params, cs, ts);
      case QEcr => EcrEntry(tr, n, params, cs, ts);
      case QRccx => RccxEntry(tr, n, params, cs, ts);
      case QDcx => DcxEntry(tr, n, params, cs, ts);
      case QId | QSwap | QCswap => SwapEntry(tr, n, params, cs, ts);
      case NotSupported => assert false;
      case _ => SingleEntry(tr, n, params, cs, ts);
    }
  }

  // ---- Whole programs ----

  /** The translator splits the operands of an accepted call where the library does. */
  lemma SplitAtControls(c: Call)
    requires c.Accepted()
    ensures c.Split() == ControlOperands(c.name) <= |c.operands|
  {
  }

  /** The table asks for the angles and operands that the standard library gives the gate. */
  lemma CountsOfLibrary(n: Name)
    ensures NumParams(n) == LibraryParams(n)
    ensures n != NotSupported ==> NumTargets(n) == TargetOperands(n)
  {
  }

  lemma ControlsOfLibrary(n: Name)
    ensures GetNumControls(n) == ControlOperands(n) && (IsMultiQubitGate(n) <==> ControlOperands(n) > 0)
  {
  }

  /** A call is accepted exactly when its gate is supported and it has as many angles and operands as the
      standard library gives the gate. */
  lemma {:induction false} AcceptedExactly(c: Call)
    ensures c.Accepted() <==> LibraryTakes(c.name, |c.args|, |c.operands|)
  {
    hide NumParams, NumTargets, GetNumControls, IsMultiQubitGate, LibraryParams, TargetOperands, ControlOperands,
         Distinct;
    CountsOfLibrary(c.name);
    ControlsOfLibrary(c.name);
    OneTargetAtLeast(c.name);
  }

  lemma OneTargetAtLeast(n: Name)
    ensures n != NotSupported ==> TargetOperands(n) > 0
    ensures n == QRccx ==> ControlOperands(n) == 0 && TargetOperands(n) == 3
  {
  }

  /** The gate a call names, on the operands the library gives it. */
  function CallReference(tr: Trig, c: Call): seq<Block>
    requires c.Accepted()
  {
    SplitAtControls(c);
    var k := ControlOperands(c.name);
    Reference(tr, c.name, c.args, c.operands[..k], c.operands[k..])
  }

  /** The gates a program names, one after the other. */
  function ProgramReference(tr: Trig, calls: seq<Call>): seq<Block>
    requires AllAccepted(calls)
  {
    if calls == [] then []
    else
      var init := calls[..|calls| - 1];
      assert AllAccepted(init);
      ProgramReference(tr, init) + CallReference(tr, calls[|calls| - 1])
  }

  function CallPhase(pi: real, c: Call): real
    requires c.Accepted()
  {
    GlobalPhase(pi, c.name, c.args)
  }

  function ProgramPhase(pi: real, calls: seq<Call>): real
    requires AllAccepted(calls)
  {
    if calls == [] then 0.0
    else
      var init := calls[..|calls| - 1];
      assert AllAccepted(init);
      ProgramPhase(pi, init) + CallPhase(pi, calls[|calls| - 1])
  }

  lemma {:induction false} LoweredMeans(tr: Trig, c: Call)
    requires tr.Lawful() && c.Accepted()
    ensures Equiv(tr.Phase(CallPhase(tr.pi, c)), Denote(tr, Lowered(tr.pi, c)), CallReference(tr, c))
  {
    hide tr.Lawful, Equiv, Emitted, Reference, GlobalPhase, Shape, GateCall.Split;
    OperandsSplit(c);
    SplitAtControls(c);
    EmittedMeans(tr, c.name, c.args, c.Controls(), c.Targets());
  }

  /** The phases of the calls add up. */
  lemma {:induction false} ProgramPhases(tr: Trig, calls: seq<Call>)
    requires tr.Lawful() && AllAccepted(calls)
    ensures Equiv(tr.Phase(ProgramPhase(tr.pi, calls)), Denote(tr, LoweredProgram(tr.pi, calls)),
                  ProgramReference(tr, calls))
    decreases |calls|
  {
    hide tr.Lawful, Equiv, Lowered, CallReference, CallPhase, Denote, Trig.Phase, GateCall.Accepted, Mul;
    if calls == [] {
      DenoteNone(tr);
      EquivRefl([]);
      PhaseLandmarks(tr);
    } else {
      var init, c := calls[..|calls| - 1], calls[|calls| - 1];
      assert AllAccepted(init) && c in calls;
      ProgramPhases(tr, init);
      LoweredMeans(tr, c);
      var x, y := ProgramPhase(tr.pi, init), CallPhase(tr.pi, c);
      EquivConcat(tr.Phase(x), tr.Phase(y), Denote(tr, LoweredProgram(tr.pi, init)), ProgramReference(tr, init),
                  Denote(tr, Lowered(tr.pi, c)), CallReference(tr, c));
      PhaseSum(tr, x, y);
      DenoteConcat(tr, LoweredProgram(tr.pi, init), Lowered(tr.pi, c));
    }
  }

  /** Main theorem.  A translated program is the composition of the gates it names, times one unit
      factor. */
  lemma {:induction false} ProgramMeans(tr: Trig, calls: seq<Call>)
    requires tr.Lawful() && AllAccepted(calls)
    ensures exists w: Complex ::
              Unit(w) && Equiv(w, Denote(tr, LoweredProgram(tr.pi, calls)), ProgramReference(tr, calls))
  {
    hide tr.Lawful, Equiv, Unit, Denote, LoweredProgram, ProgramReference, ProgramPhase, Trig.Phase;
    ProgramPhases(tr, calls);
    PhaseUnit(tr, ProgramPhase(tr.pi, calls));
  }
}
