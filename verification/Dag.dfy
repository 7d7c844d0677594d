/** The dependency graph of a kernel: lib/Support/DAG/QuakeDAG.cpp. */
module Dag {
  import opened Gates
  import opened Scans

  /** The string keys of node_map.  Each key is built from a qubit number or from a fresh operation
      number, so keys are equal exactly when these are. */
  datatype Name = QubitName(i: nat) | OperationName(kind: Kind, idx: nat) | MeasurementName

  datatype Content = Qubit | Measurement | Operates(gate: Gate) | Blank

  datatype Vertex = Vertex(name: Name, content: Content)

  type Edge = (nat, nat)

  // ---- Which edges a kernel has ----

  /** The vertex of the last gate of gs on qubit q, or the vertex of the qubit itself. */
  function LastOn(n: nat, gs: seq<Gate>, q: nat): nat {
    if PrevOn(gs, q) >= 0 then n + PrevOn(gs, q) else q
  }

  /** Edges into vertex v from the last vertices on the given wires. */
  function WireEdges(n: nat, gs: seq<Gate>, v: nat, wires: seq<nat>): seq<Edge> {
    if wires == [] then []
    else
      var q := wires[|wires| - 1];
      WireEdges(n, gs, v, wires[..|wires| - 1]) + (if q < n then [(LastOn(n, gs, q), v)] else [])
  }

  function GateEdges(n: nat, gs: seq<Gate>): seq<Edge> {
    if gs == [] then []
    else
      var init, g := gs[..|gs| - 1], gs[|gs| - 1];
      GateEdges(n, init) + WireEdges(n, init, n + |init|, g.targets + g.controls)
  }

  function UpTo(n: nat): seq<nat> { seq(n, i => i) }

  /** All edges: one per gate operand, and one from every qubit's last vertex to the measurement. */
  function EdgesOf(n: nat, gs: seq<Gate>): seq<Edge> {
    GateEdges(n, gs) + WireEdges(n, gs, n + |gs|, UpTo(n))
  }

  /** The vertex at position i before the measurement is added. */
  function VertexOf(n: nat, gs: seq<Gate>, i: nat): Vertex
    requires i < n + |gs|
  {
    if i < n then Vertex(QubitName(i), Qubit)
    else Vertex(OperationName(gs[i - n].kind, i - n), Operates(gs[i - n]))
  }

  function GateVertices(n: nat, gs: seq<Gate>): seq<Vertex> {
    seq(n + |gs|, i requires 0 <= i < n + |gs| => VertexOf(n, gs, i))
  }

  /** All vertices, in the order in which they are added. */
  function VerticesOf(n: nat, gs: seq<Gate>): seq<Vertex> {
    GateVertices(n, gs) + [Vertex(MeasurementName, Measurement)]
  }

  // ---- The builder ----

  class QuakeDAG {
    var vertices: seq<Vertex>
    var edges: seq<Edge>
    var nodeMap: map<Name, nat>

    constructor ()
      ensures vertices == [] && edges == [] && nodeMap == map[]
    {
      vertices, edges, nodeMap := [], [], map[];
    }

    /** node_map lists exactly the vertices of the graph, by name. */
    ghost predicate Valid()
      reads this
    {
      && (forall k <- nodeMap :: nodeMap[k] < |vertices| && vertices[nodeMap[k]].name == k)
      && (forall i :: 0 <= i < |vertices| ==> vertices[i].name in nodeMap && nodeMap[vertices[i].name] == i)
    }

    method GetOrAddNode(name: Name) returns (v: nat)
      requires Valid()
      modifies this
      ensures Valid() && edges == old(edges)
      ensures v < |vertices| && vertices[v].name == name
      ensures name in old(nodeMap) ==> vertices == old(vertices) && v == old(nodeMap)[name]
      ensures name !in old(nodeMap) ==> vertices == old(vertices) + [Vertex(name, Blank)] && v == |old(vertices)|
    {
      if name !in nodeMap {
        v := |vertices|;
        vertices := vertices + [Vertex(name, Blank)];
        nodeMap := nodeMap[name := v];
      }
      v := nodeMap[name];
    }

    method Fill(v: nat, content: Content)
      requires Valid() && v < |vertices|
      modifies this
      ensures Valid() && edges == old(edges)
      ensures vertices == old(vertices)[v := Vertex(old(vertices)[v].name, content)]
    {
      vertices := vertices[v := Vertex(vertices[v].name, content)];
    }

    /** The loops over targets and over controls: an edge from the last vertex on each operand, which
        the new operation then replaces. */
    method ConnectOperands(history: map<nat, nat>, operands: seq<nat>, v: nat) returns (history': map<nat, nat>)
      requires Valid() && forall i, j :: 0 <= i < j < |operands| ==> operands[i] != operands[j]
      modifies this
      ensures Valid() && vertices == old(vertices)
      ensures history'.Keys == history.Keys
      ensures forall q <- history :: history'[q] == if q in operands then v else history[q]
      ensures edges == old(edges) + HistoryEdges(history, v, operands)
    {
      history' := history;
      for i := 0 to |operands|
        invariant Valid() && vertices == old(vertices)
        invariant history'.Keys == history.Keys
        invariant forall q <- history :: history'[q] == if q in operands[..i] then v else history[q]
        invariant edges == old(edges) + HistoryEdges(history, v, operands[..i])
      {
        assert operands[..i + 1][..i] == operands[..i];
        assert operands[i] !in operands[..i];
        if operands[i] in history' {
          edges := edges + [(history'[operands[i]], v)];
          history' := history'[operands[i] := v];
        }
      }
      assert operands[..|operands|] == operands;
    }

    method AddQubits(n: nat) returns (history: map<nat, nat>)
      requires vertices == [] && edges == [] && nodeMap == map[]
      modifies this
      ensures Valid() && vertices == GateVertices(n, []) && edges == []
      ensures forall q :: q in history <==> 0 <= q < n
      ensures forall q <- history :: history[q] == LastOn(n, [], q)
    {
      history := map[];
      for i := 0 to n
        invariant Valid() && vertices == GateVertices(i, []) && edges == []
        invariant forall q :: q in history <==> 0 <= q < i
        invariant forall q <- history :: history[q] == q
      {
        AbsentName(vertices, nodeMap, QubitName(i));
        var qubit := GetOrAddNode(QubitName(i));
        Fill(qubit, Qubit);
        history := history[i := qubit];
      }
    }

    /** The walk callback: a vertex for the gate, and an edge from the last vertex on each operand. */
    method AddOperation(n: nat, ghost before: seq<Gate>, idx: nat, gate: Gate, history: map<nat, nat>)
      returns (history': map<nat, nat>)
      requires Valid() && idx == |before| && vertices == GateVertices(n, before)
      requires forall q :: q in history <==> 0 <= q < n
      requires forall q <- history :: history[q] == LastOn(n, before, q)
      modifies this
      ensures Valid() && vertices == GateVertices(n, before + [gate])
      ensures edges == old(edges) + WireEdges(n, before, n + idx, gate.targets + gate.controls)
      ensures forall q :: q in history' <==> 0 <= q < n
      ensures forall q <- history' :: history'[q] == LastOn(n, before + [gate], q)
    {
      hide LastOn, WireEdges, HistoryEdges, Distinct, PrevOn, Operation.WellFormed;
      AbsentName(vertices, nodeMap, OperationName(gate.kind, idx));
      var operation := GetOrAddNode(OperationName(gate.kind, idx));
      Fill(operation, Operates(gate));
      assert vertices == GateVertices(n, before + [gate]);
      OperandsApart(gate);
      DistinctIndices(gate.controls);
      DistinctIndices(gate.targets);
      var middle := ConnectOperands(history, gate.targets, operation);
      history' := ConnectOperands(middle, gate.controls, operation);
      GateConnected(n, before, history, middle, gate, operation);
      forall q | q in history' ensures history'[q] == LastOn(n, before + [gate], q) {
        LastOnSnoc(n, before, gate, q);
      }
    }

    method AddMeasurement(n: nat, ghost kernel: seq<Gate>, history: map<nat, nat>)
      requires Valid() && vertices == GateVertices(n, kernel)
      requires forall q :: q in history <==> 0 <= q < n
      requires forall q <- history :: history[q] == LastOn(n, kernel, q)
      modifies this
      ensures Valid() && vertices == VerticesOf(n, kernel)
      ensures edges == old(edges) + WireEdges(n, kernel, n + |kernel|, UpTo(n))
    {
      hide LastOn, Operation.WellFormed;
      AbsentName(vertices, nodeMap, MeasurementName);
      var mes := GetOrAddNode(MeasurementName);
      Fill(mes, Measurement);
      for q := 0 to n
        invariant Valid() && vertices == VerticesOf(n, kernel)
        invariant edges == old(edges) + WireEdges(n, kernel, mes, UpTo(n)[..q])
      {
        assert UpTo(n)[..q + 1][..q] == UpTo(n)[..q];
        edges := edges + [(history[q], mes)];
      }
      assert UpTo(n)[..n] == UpTo(n);
    }

    method ParseMlir(numQubits: nat, kernel: seq<Gate>)
      requires vertices == [] && edges == [] && nodeMap == map[]
      modifies this
      ensures Valid() && vertices == VerticesOf(numQubits, kernel) && edges == EdgesOf(numQubits, kernel)
    {
      hide LastOn, WireEdges, GateVertices, VerticesOf, Operation.WellFormed;
      var history := AddQubits(numQubits);
      for idx := 0 to |kernel|
        invariant Valid() && vertices == GateVertices(numQubits, kernel[..idx])
        invariant forall q :: q in history <==> 0 <= q < numQubits
        invariant forall q <- history :: history[q] == LastOn(numQubits, kernel[..idx], q)
        invariant edges == GateEdges(numQubits, kernel[..idx])
      {
        assert kernel[..idx + 1] == kernel[..idx] + [kernel[idx]];
        assert kernel[..idx + 1][..idx] == kernel[..idx];
        history := AddOperation(numQubits, kernel[..idx], idx, kernel[idx], history);
      }
      assert kernel[..|kernel|] == kernel;
      AddMeasurement(numQubits, kernel, history);
    }
  }

  /** The edges that the operand loops add, in terms of the history they start from. */
  function HistoryEdges(history: map<nat, nat>, v: nat, operands: seq<nat>): seq<Edge> {
    if operands == [] then []
    else
      var q := operands[|operands| - 1];
      HistoryEdges(history, v, operands[..|operands| - 1]) + (if q in history then [(history[q], v)] else [])
  }

  lemma {:induction false} HistoryIsLast(n: nat, gs: seq<Gate>, history: map<nat, nat>, v: nat, operands: seq<nat>)
    requires forall q :: q in history <==> 0 <= q < n
    requires forall q <- operands :: q < n ==> history[q] == LastOn(n, gs, q)
    ensures HistoryEdges(history, v, operands) == WireEdges(n, gs, v, operands)
  {
    hide LastOn;
    if operands != [] {
      HistoryIsLast(n, gs, history, v, operands[..|operands| - 1]);
    }
  }

  lemma {:induction false} WireEdgesConcat(n: nat, gs: seq<Gate>, v: nat, xs: seq<nat>, ys: seq<nat>)
    ensures WireEdges(n, gs, v, xs + ys) == WireEdges(n, gs, v, xs) + WireEdges(n, gs, v, ys)
  {
    hide LastOn, Operation.WellFormed;
    if ys == [] {
      assert xs + ys == xs;
    } else {
      var m := |ys| - 1;
      assert (xs + ys)[..|xs + ys| - 1] == xs + ys[..m] && (xs + ys)[|xs + ys| - 1] == ys[m];
      WireEdgesConcat(n, gs, v, xs, ys[..m]);
    }
  }

  /** Connecting targets and then controls adds the edges of the gate. */
  lemma GateConnected(n: nat, gs: seq<Gate>, history: map<nat, nat>, middle: map<nat, nat>, g: Gate, v: nat)
    requires forall q :: q in history <==> 0 <= q < n
    requires history.Keys == middle.Keys
    requires forall q <- history :: history[q] == LastOn(n, gs, q)
    requires forall q <- history :: q !in g.targets ==> middle[q] == history[q]
    requires forall q <- g.controls :: q !in g.targets
    ensures HistoryEdges(history, v, g.targets) + HistoryEdges(middle, v, g.controls)
         == WireEdges(n, gs, v, g.targets + g.controls)
  {
    hide LastOn, Operation.WellFormed;
    HistoryIsLast(n, gs, history, v, g.targets);
    HistoryIsLast(n, gs, middle, v, g.controls);
    WireEdgesConcat(n, gs, v, g.targets, g.controls);
  }

  lemma AbsentName(vertices: seq<Vertex>, nodeMap: map<Name, nat>, name: Name)
    requires forall k <- nodeMap :: nodeMap[k] < |vertices| && vertices[nodeMap[k]].name == k
    requires forall i :: 0 <= i < |vertices| ==> vertices[i].name != name
    ensures name !in nodeMap
  {
  }

  lemma {:induction false} DistinctIndices(s: seq<nat>)
    requires Distinct(s)
    ensures forall i, j :: 0 <= i < j < |s| ==> s[i] != s[j]
  {
    if |s| > 1 {
      DistinctIndices(s[1..]);
      forall i, j | 0 <= i < j < |s| ensures s[i] != s[j] {
        assert s[j] == s[1..][j - 1];
        if i > 0 { assert s[i] == s[1..][i - 1]; }
      }
    }
  }

  lemma LastOnSnoc(n: nat, gs: seq<Gate>, g: Gate, q: nat)
    ensures LastOn(n, gs + [g], q) == if g.Touches(q) then n + |gs| else LastOn(n, gs, q)
  {
    assert (gs + [g])[..|gs|] == gs;
  }
}
