/** Which edges the dependency graph has, and the path of each qubit through it, in terms of the gates
    on each qubit. */
module DagLinks {
  import opened Gates
  import opened Scans
  import opened Dag
  import opened DagOrder

  /** Vertex v is a gate on qubit q, or the measurement; u is the last gate on q before v, or, when there
      is none, the vertex of q. */
  predicate Links(n: nat, gs: seq<Gate>, q: nat, u: nat, v: nat) {
    && q < n <= v <= n + |gs|
    && (v < n + |gs| ==> gs[v - n].Touches(q))
    && (if u < n then u == q else u < v && gs[u - n].Touches(q))
    && forall k :: 0 <= k < v - n && u < n + k ==> !gs[k].Touches(q)
  }

  /** The qubits by which u and v are linked. */
  function LinkingQubits(n: nat, gs: seq<Gate>, u: nat, v: nat): set<nat> {
    set q: nat | q < n && Links(n, gs, q, u, v)
  }

  lemma {:induction false} LinkIsLast(n: nat, gs: seq<Gate>, q: nat, u: nat, v: nat)
    requires q < n <= v <= n + |gs|
    ensures Links(n, gs, q, u, v)
       <==> LastOn(n, gs[..v - n], q) == u && (v == n + |gs| || gs[v - n].Touches(q))
  {
    hide PrevOn, Operation.WellFormed, Operation.Touches;
    var before := gs[..v - n];
    var j := PrevOn(before, q);
    assert forall k :: 0 <= k < v - n ==> before[k] == gs[k];
    if Links(n, gs, q, u, v) {
      if u < n {
        PrevOnNone(before, q);
      } else {
        PrevOnUnique(before, q, u - n);
      }
    }
  }

  /** The vertices: the qubits, the gates in program order and the measurement. */
  lemma VerticesExactly(n: nat, gs: seq<Gate>)
    ensures var vs := VerticesOf(n, gs);
            && |vs| == n + |gs| + 1 && vs[n + |gs|] == Vertex(MeasurementName, Measurement)
            && (forall q :: 0 <= q < n ==> vs[q] == Vertex(QubitName(q), Qubit))
            && (forall k :: 0 <= k < |gs| ==> vs[n + k] == Vertex(OperationName(gs[k].kind, k), Operates(gs[k])))
  {
  }

  // ---- Counting the edges ----

  /** The wires among the given ones whose last vertex is u. */
  function EndingIn(n: nat, gs: seq<Gate>, wires: seq<nat>, u: nat): set<nat> {
    set q | q in wires && q < n && LastOn(n, gs, q) == u
  }

  lemma EndingSnoc(n: nat, gs: seq<Gate>, front: seq<nat>, q: nat, u: nat)
    requires q !in front
    ensures |EndingIn(n, gs, front + [q], u)|
         == |EndingIn(n, gs, front, u)| + if q < n && LastOn(n, gs, q) == u then 1 else 0
  {
    hide LastOn;
    assert EndingIn(n, gs, front + [q], u)
        == EndingIn(n, gs, front, u) + if q < n && LastOn(n, gs, q) == u then {q} else {};
  }

  lemma {:induction false} WireEdgesCounted(n: nat, gs: seq<Gate>, v: nat, wires: seq<nat>, e: Edge)
    requires forall i, j :: 0 <= i < j < |wires| ==> wires[i] != wires[j]
    ensures multiset(WireEdges(n, gs, v, wires))[e] == if e.1 == v then |EndingIn(n, gs, wires, e.0)| else 0
  {
    hide LastOn, EndingIn, Operation.WellFormed;
    if wires == [] {
      assert EndingIn(n, gs, wires, e.0) == {} by { EndingNone(n, gs, e.0); }
    } else {
      var front, q := wires[..|wires| - 1], wires[|wires| - 1];
      WireEdgesCounted(n, gs, v, front, e);
      assert wires == front + [q];
      EndingSnoc(n, gs, front, q, e.0);
      var added := if q < n then [(LastOn(n, gs, q), v)] else [];
      assert multiset(WireEdges(n, gs, v, wires)) == multiset(WireEdges(n, gs, v, front)) + multiset(added);
    }
  }

  lemma EndingNone(n: nat, gs: seq<Gate>, u: nat)
    ensures EndingIn(n, gs, [], u) == {}
  {
  }

  lemma {:induction false} GateEdgesCounted(n: nat, gs: seq<Gate>, e: Edge)
    ensures multiset(GateEdges(n, gs))[e]
         == if n <= e.1 < n + |gs|
            then |EndingIn(n, gs[..e.1 - n], gs[e.1 - n].targets + gs[e.1 - n].controls, e.0)| else 0
  {
    hide WireEdges, EndingIn, Operation.WellFormed;
    if gs != [] {
      var init, g := gs[..|gs| - 1], gs[|gs| - 1];
      GateEdgesCounted(n, init, e);
      OperandIndices(g);
      WireEdgesCounted(n, init, n + |init|, g.targets + g.controls, e);
      var added := WireEdges(n, init, n + |init|, g.targets + g.controls);
      assert multiset(GateEdges(n, gs)) == multiset(GateEdges(n, init)) + multiset(added);
      if n <= e.1 < n + |init| {
        assert init[..e.1 - n] == gs[..e.1 - n] && init[e.1 - n] == gs[e.1 - n];
      }
    }
  }

  lemma {:induction false} OperandIndices(g: Gate)
    ensures var s := g.targets + g.controls; forall i, j :: 0 <= i < j < |s| ==> s[i] != s[j]
  {
    OperandsApart(g);
    DistinctIndices(g.controls);
    DistinctIndices(g.targets);
    var s, m := g.targets + g.controls, |g.targets|;
    forall i, j | 0 <= i < j < |s| ensures s[i] != s[j] {
      assert s[i] == if i < m then g.targets[i] else g.controls[i - m];
      assert s[j] == if j < m then g.targets[j] else g.controls[j - m];
      assert i < m <= j ==> g.controls[j - m] in g.controls && g.targets[i] in g.targets;
    }
  }

  /** Main theorem on the graph.  It has as many edges from u to v as there are qubits that link them;
      in particular there is an edge exactly when some qubit does. */
  lemma {:induction false} EdgesExactly(n: nat, gs: seq<Gate>, u: nat, v: nat)
    ensures multiset(EdgesOf(n, gs))[(u, v)] == |LinkingQubits(n, gs, u, v)|
    ensures (u, v) in EdgesOf(n, gs) <==> exists q: nat :: Links(n, gs, q, u, v)
  {
    hide WireEdges, GateEdges, LastOn, Links, Operation.WellFormed;
    var e := (u, v);
    GateEdgesCounted(n, gs, e);
    WireEdgesCounted(n, gs, n + |gs|, UpTo(n), e);
    var links := LinkingQubits(n, gs, u, v);
    forall q: nat | q < n && n <= v <= n + |gs|
      ensures Links(n, gs, q, u, v)
         <==> LastOn(n, gs[..v - n], q) == u && (v == n + |gs| || gs[v - n].Touches(q))
    {
      LinkIsLast(n, gs, q, u, v);
    }
    LinksInRange(n, gs, u, v);
    if v == n + |gs| {
      assert gs[..|gs|] == gs;
      assert forall q: nat :: q in UpTo(n) <==> q < n by { UpToHolds(n); }
      assert links == EndingIn(n, gs, UpTo(n), u);
    } else if n <= v < n + |gs| {
      assert links == EndingIn(n, gs[..v - n], gs[v - n].targets + gs[v - n].controls, u);
    } else {
      assert links == {};
    }
    assert multiset(EdgesOf(n, gs)) == multiset(GateEdges(n, gs)) + multiset(WireEdges(n, gs, n + |gs|, UpTo(n)));
    assert e in EdgesOf(n, gs) <==> e in multiset(EdgesOf(n, gs));
    if q: nat :| Links(n, gs, q, u, v) {
      assert q in links;
    }
    if links != {} {
      var q :| q in links;
    }
  }

  lemma LinksInRange(n: nat, gs: seq<Gate>, u: nat, v: nat)
    ensures forall q: nat :: Links(n, gs, q, u, v) ==> q < n <= v <= n + |gs|
  {
  }

  lemma UpToHolds(n: nat)
    ensures forall q: nat :: q in UpTo(n) <==> q < n
  {
    forall q: nat | q < n ensures q in UpTo(n) {
      assert UpTo(n)[q] == q;
    }
  }

  // ---- The path of a qubit ----

  /** An ascending path from the vertex of q through exactly the gates on q among the first m. */
  ghost predicate Route(n: nat, gs: seq<Gate>, q: nat, m: nat, path: seq<nat>)
    requires m <= |gs|
  {
    && path != [] && path[0] == q && path[|path| - 1] == LastOn(n, gs[..m], q)
    && (forall i :: 0 < i < |path| ==> Hop(n, gs, path, i))
    && (forall i :: 0 < i < |path| ==> n <= path[i] < n + m && gs[path[i] - n].Touches(q))
    && (forall k :: 0 <= k < m && gs[k].Touches(q) ==> Placed(n, path, k))
  }

  /** Step i of the path follows an edge, to a later vertex. */
  ghost predicate Hop(n: nat, gs: seq<Gate>, path: seq<nat>, i: nat)
    requires 0 < i < |path|
  {
    path[i - 1] < path[i] && (path[i - 1], path[i]) in EdgesOf(n, gs)
  }

  lemma HopSnoc(n: nat, gs: seq<Gate>, path: seq<nat>, v: nat)
    requires path != [] && path[|path| - 1] < v && (path[|path| - 1], v) in EdgesOf(n, gs)
    requires forall i :: 0 < i < |path| ==> Hop(n, gs, path, i)
    ensures forall i :: 0 < i <= |path| ==> Hop(n, gs, path + [v], i)
  {
    hide EdgesOf, Operation.WellFormed;
    forall i | 0 < i <= |path| ensures Hop(n, gs, path + [v], i) {
      assert i < |path| ==> Hop(n, gs, path, i);
    }
  }

  lemma PlacedSnoc(n: nat, path: seq<nat>, v: nat)
    ensures forall k :: Placed(n, path + [v], k) <==> Placed(n, path, k) || n + k == v
  {
  }

  lemma {:induction false} EdgeFromLast(n: nat, gs: seq<Gate>, q: nat, v: nat)
    requires q < n <= v <= n + |gs| && (v < n + |gs| ==> gs[v - n].Touches(q))
    ensures (LastOn(n, gs[..v - n], q), v) in EdgesOf(n, gs) && LastOn(n, gs[..v - n], q) < v
  {
    hide EdgesOf, Links, Operation.WellFormed, Operation.Touches;
    var u := LastOn(n, gs[..v - n], q);
    LinkIsLast(n, gs, q, u, v);
    EdgesExactly(n, gs, u, v);
  }

  /** Gate m is on q and comes next on the path. */
  lemma {:induction false} RouteExtended(n: nat, gs: seq<Gate>, q: nat, m: nat, path: seq<nat>)
    requires q < n && m < |gs| && Route(n, gs, q, m, path) && gs[m].Touches(q)
    ensures Route(n, gs, q, m + 1, path + [n + m])
  {
    hide EdgesOf, LastOn, Hop, Placed, Operation.WellFormed, Operation.Touches;
    assert gs[..m + 1] == gs[..m] + [gs[m]];
    LastOnSnoc(n, gs[..m], gs[m], q);
    EdgeFromLast(n, gs, q, n + m);
    HopSnoc(n, gs, path, n + m);
    PlacedSnoc(n, path, n + m);
    var longer := path + [n + m];
    assert longer[|path|] == n + m && forall i :: 0 <= i < |path| ==> longer[i] == path[i];
  }

  /** Gate m is not on q, and the path stays as it is. */
  lemma {:induction false} RouteKept(n: nat, gs: seq<Gate>, q: nat, m: nat, path: seq<nat>)
    requires m < |gs| && Route(n, gs, q, m, path) && !gs[m].Touches(q)
    ensures Route(n, gs, q, m + 1, path)
  {
    hide EdgesOf, LastOn, Hop, Placed, Operation.WellFormed, Operation.Touches;
    assert gs[..m + 1] == gs[..m] + [gs[m]];
    LastOnSnoc(n, gs[..m], gs[m], q);
  }

  lemma {:induction false} QubitPathTo(n: nat, gs: seq<Gate>, q: nat, m: nat) returns (path: seq<nat>)
    requires q < n && m <= |gs|
    ensures Route(n, gs, q, m, path)
  {
    hide Route, Operation.WellFormed, Operation.Touches;
    if m == 0 {
      path := [q];
      RouteStart(n, gs, q);
    } else {
      var front := QubitPathTo(n, gs, q, m - 1);
      if gs[m - 1].Touches(q) {
        RouteExtended(n, gs, q, m - 1, front);
        path := front + [n + m - 1];
      } else {
        RouteKept(n, gs, q, m - 1, front);
        path := front;
      }
    }
  }

  lemma RouteStart(n: nat, gs: seq<Gate>, q: nat)
    requires q < n
    ensures Route(n, gs, q, 0, [q])
  {
    hide PrevOn;
    PrevOnNone(gs[..0], q);
  }

  /** Every qubit's vertex reaches the measurement by a path through exactly the gates on that qubit, in
      program order. */
  lemma {:induction false} QubitPath(n: nat, gs: seq<Gate>, q: nat) returns (path: seq<nat>)
    requires q < n
    ensures |path| > 1 && path[0] == q && path[|path| - 1] == n + |gs|
    ensures forall i :: 0 < i < |path| ==> Hop(n, gs, path, i)
    ensures forall i :: 0 < i < |path| - 1 ==> n <= path[i] < n + |gs| && gs[path[i] - n].Touches(q)
    ensures forall k :: 0 <= k < |gs| && gs[k].Touches(q) ==> Placed(n, path, k)
  {
    hide EdgesOf, LastOn, Hop, Placed, Operation.WellFormed, Operation.Touches;
    var front := QubitPathTo(n, gs, q, |gs|);
    assert gs[..|gs|] == gs;
    EdgeFromLast(n, gs, q, n + |gs|);
    HopSnoc(n, gs, front, n + |gs|);
    PlacedSnoc(n, front, n + |gs|);
    path := front + [n + |gs|];
    assert forall i :: 0 <= i < |front| ==> path[i] == front[i];
  }
}
