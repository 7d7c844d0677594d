/** The builder that appends quake operations to the module, and what it has appended once a call or a
    program has been translated. */
module Builder {
  import opened Amplitudes
  import opened Blocks
  import opened Gates
  import opened GateCalls
  import opened References
  import opened Lowering

  /** The operations after the call do what the operations before it do, followed by the gate that the
      call names, times exp(i * angle). */
  ghost predicate Performs(pi: real, before: seq<Gate>, after: seq<Gate>, c: Call)
    requires c.Accepted()
  {
    forall tr: Trig | tr.Lawful() && tr.pi == pi ::
      Equiv(tr.Phase(CallPhase(pi, c)), Denote(tr, after), Denote(tr, before) + CallReference(tr, c))
  }

  /** The same for all calls of a program, one after the other. */
  ghost predicate PerformsAll(pi: real, before: seq<Gate>, after: seq<Gate>, calls: seq<Call>)
    requires AllAccepted(calls)
  {
    forall tr: Trig | tr.Lawful() && tr.pi == pi ::
      Equiv(tr.Phase(ProgramPhase(pi, calls)), Denote(tr, after), Denote(tr, before) + ProgramReference(tr, calls))
  }

  lemma LoweredPerforms(pi: real, before: seq<Gate>, c: Call)
    requires c.Accepted()
    ensures Performs(pi, before, before + Lowered(pi, c), c)
  {
    hide Equiv, Lowered, CallReference, CallPhase, GateCall.Accepted, Denote, Trig.Phase, Trig.Lawful;
    forall tr: Trig | tr.Lawful() && tr.pi == pi
      ensures Equiv(tr.Phase(CallPhase(pi, c)), Denote(tr, before + Lowered(pi, c)),
                    Denote(tr, before) + CallReference(tr, c))
    {
      LoweredMeans(tr, c);
      AppendedMeans(tr, tr.Phase(CallPhase(pi, c)), before, Lowered(pi, c), CallReference(tr, c));
    }
  }

  lemma ProgramPerforms(pi: real, before: seq<Gate>, calls: seq<Call>)
    requires AllAccepted(calls)
    ensures PerformsAll(pi, before, before + LoweredProgram(pi, calls), calls)
  {
    hide Equiv, LoweredProgram, ProgramReference, ProgramPhase, AllAccepted, Denote, Trig.Phase, Trig.Lawful;
    forall tr: Trig | tr.Lawful() && tr.pi == pi
      ensures Equiv(tr.Phase(ProgramPhase(pi, calls)), Denote(tr, before + LoweredProgram(pi, calls)),
                    Denote(tr, before) + ProgramReference(tr, calls))
    {
      ProgramPhases(tr, calls);
      AppendedMeans(tr, tr.Phase(ProgramPhase(pi, calls)), before, LoweredProgram(pi, calls),
                    ProgramReference(tr, calls));
    }
  }

  lemma AcceptedIsShape(c: Call)
    ensures c.Accepted() == Shape(c.name, |c.args|, |c.Controls()|, |c.Targets()|)
  {
  }

  lemma AllAcceptedExactly(calls: seq<Call>)
    ensures AllAccepted(calls) <==> forall c <- calls :: LibraryTakes(c.name, |c.args|, |c.operands|)
  {
    hide GateCall.Accepted, LibraryTakes;
    forall c | c in calls ensures c.Accepted() <==> LibraryTakes(c.name, |c.args|, |c.operands|) {
      AcceptedExactly(c);
    }
  }

  lemma ProgramStart(pi: real, calls: seq<Call>)
    ensures AllAccepted(calls[..0]) && LoweredProgram(pi, calls[..0]) == []
  {
    assert calls[..0] == [];
  }

  lemma ProgramStep(pi: real, calls: seq<Call>, i: nat)
    requires i < |calls| && AllAccepted(calls[..i])
    ensures AllAccepted(calls) ==> calls[i].Accepted()
    ensures calls[i].Accepted() ==>
              AllAccepted(calls[..i + 1])
              && LoweredProgram(pi, calls[..i + 1]) == LoweredProgram(pi, calls[..i]) + Lowered(pi, calls[i])
  {
    hide Lowered, GateCall.Accepted;
    assert calls[..i + 1][..i] == calls[..i] && calls[i] in calls;
  }

  lemma AppendedMeans(tr: Trig, w: Complex, before: seq<Gate>, added: seq<Gate>, ref: seq<Block>)
    requires Equiv(w, Denote(tr, added), ref)
    ensures Equiv(w, Denote(tr, before + added), Denote(tr, before) + ref)
  {
    hide Equiv, Denote;
    DenoteConcat(tr, before, added);
    EquivInside(w, Denote(tr, before), Denote(tr, added), ref, []);
    assert Denote(tr, before) + ref + [] == Denote(tr, before) + ref;
    assert Denote(tr, before) + Denote(tr, added) + [] == Denote(tr, before) + Denote(tr, added);
  }

  class QuakeBuilder {
    var ops: seq<Gate>

    constructor ()
      ensures ops == []
    {
      ops := [];
    }

    method Create(g: Gate)
      modifies this
      ensures ops == old(ops) + [g]
    {
      ops := ops + [g];
    }

    method CreateEuler(adj: bool, t: nat, first: real, middle: real, last: real)
      modifies this
      ensures ops == old(ops) + EulerOps(adj, t, first, middle, last)
    {
      Create(OneQubit(Rz, adj, [first], t));
      Create(OneQubit(Ry, adj, [middle], t));
      Create(OneQubit(Rz, adj, [last], t));
    }

    method CreateCp(adj: bool, angle: real, c: nat, t: nat)
      requires c != t
      modifies this
      ensures ops == old(ops) + CpOps(adj, angle, c, t)
    {
      Create(OneQubit(Rz, adj, [angle / 2.0], c));
      Create(Cx(adj, c, t));
      Create(OneQubit(Rz, adj, [-angle / 2.0], t));
      Create(Cx(adj, c, t));
      Create(OneQubit(Rz, adj, [angle / 2.0], t));
    }

    method CreateRzz(adj: bool, angle: real, a: nat, b: nat)
      requires a != b
      modifies this
      ensures ops == old(ops) + RzzOps(adj, angle, a, b)
    {
      Create(Cx(adj, a, b));
      Create(OneQubit(R1, adj, [angle], b));
      Create(Cx(adj, a, b));
    }

    method CreateRzx(adj: bool, angle: real, a: nat, b: nat)
      requires a != b
      modifies this
      ensures ops == old(ops) + RzxOps(adj, angle, a, b)
    {
      Create(OneQubit(H, adj, [], b));
      Create(Cx(adj, a, b));
      Create(OneQubit(Rz, adj, [angle], b));
      Create(Cx(adj, a, b));
      Create(OneQubit(H, adj, [], b));
    }

    method CreateEcr(pi: real, adj: bool, a: nat, b: nat)
      requires a != b
      modifies this
      ensures ops == old(ops) + EcrOps(pi, adj, a, b)
    {
      hide RzxOps;
      CreateRzx(adj, pi / 4.0, a, b);
      Create(OneQubit(Rx, adj, [pi], a));
      CreateRzx(adj, -pi / 4.0, a, b);
    }

    method CreateRxx(pi: real, adj: bool, angle: real, a: nat, b: nat)
      requires a != b
      modifies this
      ensures ops == old(ops) + RxxOps(pi, adj, angle, a, b)
    {
      hide RzzOps, EulerOps;
      Create(OneQubit(U3, adj, [pi / 2.0, angle, 0.0], a));
      Create(OneQubit(H, adj, [], b));
      CreateRzz(adj, -angle, a, b);
      CreateEuler(adj, a, pi - angle, pi / 2.0, -pi);
      Create(OneQubit(H, adj, [], b));
    }

    method CreateRccx(pi: real, adj: bool, q0: nat, q1: nat, q2: nat)
      requires q0 != q2 && q1 != q2
      modifies this
      ensures ops == old(ops) + RccxOps(pi, adj, q0, q1, q2)
    {
      hide EulerOps, RccxMiddle;
      CreateEuler(adj, q2, pi, pi / 2.0, 0.0);
      CreateRccxMiddle(pi, adj, q0, q1, q2);
      CreateEuler(adj, q2, pi, pi / 2.0, 0.0);
    }

    method CreateRccxMiddle(pi: real, adj: bool, q0: nat, q1: nat, q2: nat)
      requires q0 != q2 && q1 != q2
      modifies this
      ensures ops == old(ops) + RccxMiddle(pi, adj, q0, q1, q2)
    {
      hide Operation.WellFormed, Distinct, Cx, OneQubit;
      Create(OneQubit(R1, adj, [pi / 4.0], q2));
      Create(Cx(adj, q1, q2));
      Create(OneQubit(R1, adj, [-pi / 4.0], q2));
      Create(Cx(adj, q0, q2));
      Create(OneQubit(R1, adj, [pi / 4.0], q2));
      Create(Cx(adj, q1, q2));
      Create(OneQubit(R1, adj, [-pi / 4.0], q2));
    }

    /** The gate table; ok is false where the table's assertions fail. */
    method InsertQasmGate(pi: real, n: Name, params: seq<real>, cs: seq<nat>, ts: seq<nat>, adj: bool)
      returns (ok: bool)
      requires Distinct(cs + ts)
      modifies this
      ensures ok == Shape(n, |params|, |cs|, |ts|)
      ensures ops == if ok then old(ops) + Emitted(pi, n, params, cs, ts, adj) else old(ops)
    {
      hide MacroOps, Distinct, Shape;
      ok := Shape(n, |params|, |cs|, |ts|);
      if !ok {
        return;
      }
      if IsMacro(n) {
        CreateMacro(pi, n, params, cs, ts, adj);
      } else {
        Create(DirectOp(pi, n, params, cs, ts, adj));
      }
    }

    method CreateMacro(pi: real, n: Name, params: seq<real>, cs: seq<nat>, ts: seq<nat>, adj: bool)
      requires IsMacro(n) && Shape(n, |params|, |cs|, |ts|) && Distinct(cs + ts)
      modifies this
      ensures ops == old(ops) + MacroOps(pi, n, params, cs, ts, adj)
    {
      hide EulerOps, CpOps, RzzOps, RzxOps, EcrOps, RxxOps, RccxOps, Operation.WellFormed, Distinct;
      match n {
        case BuiltinU | QU => CreateEuler(adj, ts[0], params[2], params[0], params[1]);
        case QU2 => CreateEuler(adj, ts[0], params[1], pi / 2.0, params[0]);
        case QCp | QCphase =>
          DistinctAt(cs + ts, 0, 1);
          CreateCp(adj, params[0], cs[0], ts[0]);
        case QRzz =>
          DistinctAt(cs + ts, 0, 1);
          CreateRzz(adj, params[0], ts[0], ts[1]);
        case QRzx =>
          DistinctAt(cs + ts, 0, 1);
          CreateRzx(adj, params[0], ts[0], ts[1]);
        case QRxx =>
          DistinctAt(cs + ts, 0, 1);
          CreateRxx(pi, adj, params[0], ts[0], ts[1]);
        case QDcx =>
          DistinctAt(cs + ts, 0, 1);
          Create(Cx(adj, ts[0], ts[1]));
          Create(Cx(adj, ts[1], ts[0]));
        case QEcr =>
          DistinctAt(cs + ts, 0, 1);
          CreateEcr(pi, adj, ts[0], ts[1]);
        case QRccx =>
          DistinctAt(cs + ts, 0, 2);
          DistinctAt(cs + ts, 1, 2);
          CreateRccx(pi, adj, ts[0], ts[1], ts[2]);
        case QId =>
      }
    }

    /** insertGate on a call without modifiers: the leading operands become controls. */
    method InsertGate(pi: real, c: Call) returns (ok: bool)
      modifies this
      ensures ok == c.Accepted() == LibraryTakes(c.name, |c.args|, |c.operands|)
      ensures ops == if ok then old(ops) + Lowered(pi, c) else old(ops)
      ensures ok ==> Performs(pi, old(ops), ops, c)
    {
      hide Emitted, Performs, GateCall.Accepted, Shape, LibraryTakes, Distinct;
      ghost var before := ops;
      AcceptedExactly(c);
      var numControls := 0;
      if IsMultiQubitGate(c.name) {
        numControls := GetNumControls(c.name);
      }
      var controls: seq<nat>, targets: seq<nat> := [], [];
      for i := 0 to |c.operands|
        invariant controls == c.operands[..if i <= numControls then i else numControls]
        invariant targets == c.operands[(if i <= numControls then i else numControls)..i]
        invariant ops == old(ops)
      {
        if i < numControls {
          controls := controls + [c.operands[i]];
        } else {
          targets := targets + [c.operands[i]];
        }
      }
      assert controls == c.Controls() && targets == c.Targets();
      OperandsSplit(c);
      ok := InsertQasmGate(pi, c.name, c.args, controls, targets, IsAdjoint(c.name));
      assert ok == c.Accepted() by { AcceptedIsShape(c); }
      if ok { LoweredPerforms(pi, before, c); }
    }

    /** The statement loop; it stops at the first call whose assertion fails. */
    method Translate(pi: real, calls: seq<Call>) returns (ok: bool)
      modifies this
      ensures ok == AllAccepted(calls)
      ensures ok <==> forall c <- calls :: LibraryTakes(c.name, |c.args|, |c.operands|)
      ensures ok ==> ops == old(ops) + LoweredProgram(pi, calls)
      ensures ok ==> PerformsAll(pi, old(ops), ops, calls)
    {
      hide Lowered, LoweredProgram, AllAccepted, PerformsAll, Performs, GateCall.Accepted, LibraryTakes;
      ghost var before := ops;
      AllAcceptedExactly(calls);
      ProgramStart(pi, calls);
      ok := true;
      for i := 0 to |calls|
        invariant AllAccepted(calls[..i])
        invariant ops == before + LoweredProgram(pi, calls[..i])
      {
        ProgramStep(pi, calls, i);
        var done := InsertGate(pi, calls[i]);
        if !done {
          ok := false;
          return;
        }
      }
      assert calls[..|calls|] == calls;
      ProgramPerforms(pi, before, calls);
    }
  }
}
