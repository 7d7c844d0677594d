/** What the dependency graph promises: any order that respects its edges is the same circuit. */
module DagOrder {
  import opened Amplitudes
  import opened Gates
  import opened Scans
  import opened Dag

  predicate InRange(n: nat, gs: seq<Gate>) {
    forall g <- gs :: (forall q <- g.targets :: q < n) && (forall q <- g.controls :: q < n)
  }

  // ---- Structure ----

  lemma {:induction false} WireEdgesForward(n: nat, gs: seq<Gate>, v: nat, wires: seq<nat>)
    requires v >= n + |gs|
    ensures forall e <- WireEdges(n, gs, v, wires) :: e.0 < e.1 == v
  {
    hide Operation.WellFormed;
    if wires != [] {
      WireEdgesForward(n, gs, v, wires[..|wires| - 1]);
    }
  }

  lemma {:induction false} GateEdgesForward(n: nat, gs: seq<Gate>)
    ensures forall e <- GateEdges(n, gs) :: e.0 < e.1 < n + |gs| && n <= e.1
  {
    hide WireEdges, Operation.WellFormed;
    if gs != [] {
      var init, g := gs[..|gs| - 1], gs[|gs| - 1];
      GateEdgesForward(n, init);
      WireEdgesForward(n, init, n + |init|, g.targets + g.controls);
    }
  }

  /** The graph is acyclic: every edge goes to a vertex that was added later. */
  lemma Acyclic(n: nat, gs: seq<Gate>)
    ensures forall e <- EdgesOf(n, gs) :: e.0 < e.1
  {
    hide WireEdges, GateEdges;
    GateEdgesForward(n, gs);
    WireEdgesForward(n, gs, n + |gs|, UpTo(n));
  }

  function Arity(g: Gate): nat { |g.targets| + |g.controls| }

  function TotalArity(gs: seq<Gate>): nat {
    if gs == [] then 0 else TotalArity(gs[..|gs| - 1]) + Arity(gs[|gs| - 1])
  }

  lemma {:induction false} WireEdgesCount(n: nat, gs: seq<Gate>, v: nat, wires: seq<nat>)
    requires forall q <- wires :: q < n
    ensures |WireEdges(n, gs, v, wires)| == |wires|
  {
    hide LastOn, Operation.WellFormed;
    if wires != [] {
      var front := wires[..|wires| - 1];
      assert wires[|wires| - 1] in wires;
      forall q | q in front ensures q < n {
        assert q in wires;
      }
      WireEdgesCount(n, gs, v, front);
    }
  }

  lemma {:induction false} GateEdgesCount(n: nat, gs: seq<Gate>)
    requires InRange(n, gs)
    ensures |GateEdges(n, gs)| == TotalArity(gs)
  {
    hide WireEdges, Operation.WellFormed;
    if gs != [] {
      var init, g := gs[..|gs| - 1], gs[|gs| - 1];
      assert g in gs;
      assert forall h <- init :: h in gs;
      GateEdgesCount(n, init);
      WireEdgesCount(n, init, n + |init|, g.targets + g.controls);
    }
  }

  /** There is one edge per gate operand and one per qubit. */
  lemma EdgeCount(n: nat, gs: seq<Gate>)
    requires InRange(n, gs)
    ensures |EdgesOf(n, gs)| == TotalArity(gs) + n
  {
    hide WireEdges, GateEdges;
    GateEdgesCount(n, gs);
    WireEdgesCount(n, gs, n + |gs|, UpTo(n));
  }

  lemma {:induction false} WireEdgeExists(n: nat, gs: seq<Gate>, v: nat, wires: seq<nat>, q: nat)
    requires q in wires && q < n
    ensures (LastOn(n, gs, q), v) in WireEdges(n, gs, v, wires)
  {
    hide LastOn, Operation.WellFormed;
    if q != wires[|wires| - 1] {
      WireEdgeExists(n, gs, v, wires[..|wires| - 1], q);
    }
  }

  /** Every operand of every gate has its edge. */
  lemma {:induction false} OperandEdge(n: nat, gs: seq<Gate>, k: nat, q: nat)
    requires k < |gs| && q < n && gs[k].Touches(q)
    ensures (LastOn(n, gs[..k], q), n + k) in GateEdges(n, gs)
  {
    hide LastOn, WireEdges, Operation.WellFormed;
    var m := |gs| - 1;
    if k == m {
      WireEdgeExists(n, gs[..m], n + m, gs[m].targets + gs[m].controls, q);
    } else {
      OperandEdge(n, gs[..m], k, q);
      assert gs[..m][..k] == gs[..k];
    }
  }

  // ---- Paths ----

  ghost predicate IsPath(es: seq<Edge>, path: seq<nat>, u: nat, v: nat) {
    && |path| > 1 && path[0] == u && path[|path| - 1] == v
    && forall i :: 0 < i < |path| ==> (path[i - 1], path[i]) in es
  }

  /** Two gates that share a qubit are joined by a path from the earlier to the later one. */
  lemma {:induction false} SharedQubitPath(n: nat, gs: seq<Gate>, a: nat, b: nat, q: nat) returns (path: seq<nat>)
    requires a < b < |gs| && q < n && gs[a].Touches(q) && gs[b].Touches(q)
    ensures IsPath(GateEdges(n, gs), path, n + a, n + b)
    decreases b
  {
    hide GateEdges, Operation.WellFormed, Operation.Touches, PrevOn;
    var m := PrevOn(gs[..b], q);
    assert m >= a by { assert gs[..b][a] == gs[a]; }
    assert gs[..b][m] == gs[m];
    OperandEdge(n, gs, b, q);
    if m == a {
      path := [n + a, n + b];
    } else {
      var front := SharedQubitPath(n, gs, a, m, q);
      path := front + [n + b];
    }
  }

  // ---- Topological orders ----

  /** u stands before v wherever both stand. */
  predicate Precedes(order: seq<nat>, u: nat, v: nat) {
    forall i, j :: 0 <= i < |order| && 0 <= j < |order| && order[i] == u && order[j] == v ==> i < j
  }

  predicate NoRepeats(order: seq<nat>) {
    forall i, j :: 0 <= i < j < |order| ==> order[i] != order[j]
  }

  /** The order lists every vertex once, and the source of every edge before its target. */
  ghost predicate Topological(order: seq<nat>, es: seq<Edge>, size: nat) {
    && NoRepeats(order)
    && (forall v :: v in order <==> 0 <= v < size)
    && (forall e <- es :: Precedes(order, e.0, e.1))
  }

  /** The gates on an order's gate vertices, in that order. */
  function GatesIn(n: nat, gs: seq<Gate>, order: seq<nat>): seq<Gate> {
    if order == [] then []
    else
      var v := order[|order| - 1];
      GatesIn(n, gs, order[..|order| - 1]) + (if n <= v < n + |gs| then [gs[v - n]] else [])
  }

  lemma {:induction false} GatesInConcat(n: nat, gs: seq<Gate>, xs: seq<nat>, ys: seq<nat>)
    ensures GatesIn(n, gs, xs + ys) == GatesIn(n, gs, xs) + GatesIn(n, gs, ys)
  {
    hide Operation.WellFormed;
    if ys == [] {
      assert xs + ys == xs;
    } else {
      var m := |ys| - 1;
      assert (xs + ys)[..|xs + ys| - 1] == xs + ys[..m] && (xs + ys)[|xs + ys| - 1] == ys[m];
      GatesInConcat(n, gs, xs, ys[..m]);
    }
  }

  lemma {:induction false} GatesInPrefix(n: nat, gs: seq<Gate>, order: seq<nat>)
    requires gs != [] && n + |gs| - 1 !in order
    ensures GatesIn(n, gs, order) == GatesIn(n, gs[..|gs| - 1], order)
  {
    hide Operation.WellFormed;
    if order != [] {
      GatesInPrefix(n, gs, order[..|order| - 1]);
    }
  }

  lemma {:induction false} GatesInFrom(n: nat, gs: seq<Gate>, order: seq<nat>, g: Gate)
    requires g in GatesIn(n, gs, order)
    ensures exists i :: 0 <= i < |order| && n <= order[i] < n + |gs| && gs[order[i] - n] == g
  {
    hide Operation.WellFormed;
    var m := |order| - 1;
    if g in GatesIn(n, gs, order[..m]) {
      GatesInFrom(n, gs, order[..m], g);
      var i :| 0 <= i < m && n <= order[..m][i] < n + |gs| && gs[order[..m][i] - n] == g;
      assert order[i] == order[..m][i];
    } else {
      assert n <= order[m] < n + |gs| && gs[order[m] - n] == g;
    }
  }

  /** Gate k has a place in the order. */
  predicate Placed(n: nat, order: seq<nat>, k: nat) { n + k in order }

  /** The order lists every gate once. */
  predicate Schedule(n: nat, gs: seq<Gate>, order: seq<nat>) {
    NoRepeats(order) && forall k :: 0 <= k < |gs| ==> Placed(n, order, k)
  }

  /** A schedule that keeps the program order of any two gates one of which targets a wire of the other. */
  predicate KeepsDependencies(n: nat, gs: seq<Gate>, order: seq<nat>) {
    && Schedule(n, gs, order)
    && (forall a, b :: 0 <= a < b < |gs| && !Passable(gs[a], gs[b]) ==> Precedes(order, n + a, n + b))
  }

  lemma {:induction false} SharePrecedes(n: nat, gs: seq<Gate>, order: seq<nat>, a: nat, b: nat, q: nat)
    requires a < b < |gs| && q < n && gs[a].Touches(q) && gs[b].Touches(q)
    requires Topological(order, EdgesOf(n, gs), n + |gs| + 1)
    ensures Precedes(order, n + a, n + b)
    decreases b
  {
    hide GateEdges, WireEdges, Operation.WellFormed, Operation.Touches, PrevOn;
    var m := PrevOn(gs[..b], q);
    assert m >= a by { assert gs[..b][a] == gs[a]; }
    assert gs[..b][m] == gs[m];
    OperandEdge(n, gs, b, q);
    assert (n + m, n + b) in EdgesOf(n, gs);
    assert Precedes(order, n + m, n + b);
    if m != a {
      SharePrecedes(n, gs, order, a, m, q);
      assert n + m in order;
    }
  }

  lemma TopologicalKeeps(n: nat, gs: seq<Gate>, order: seq<nat>)
    requires InRange(n, gs) && Topological(order, EdgesOf(n, gs), n + |gs| + 1)
    ensures KeepsDependencies(n, gs, order)
  {
    hide Precedes, EdgesOf, NoRepeats, Passable, Operation.WellFormed;
    forall a, b | 0 <= a < b < |gs| && !Passable(gs[a], gs[b]) ensures Precedes(order, n + a, n + b) {
      var q := SharedWire(gs[a], gs[b]);
      assert gs[a] in gs;
      SharePrecedes(n, gs, order, a, b, q);
    }
  }

  /** Two gates that may not pass each other share a qubit. */
  lemma SharedWire(p: Gate, g: Gate) returns (q: nat)
    requires !Passable(p, g)
    ensures p.Touches(q) && g.Touches(q)
  {
    if c :| c in p.controls && c in g.targets {
      q := c;
    } else {
      q :| q in p.targets && g.Touches(q);
    }
  }

  /** The last gate of the program may stand anywhere behind the gates it depends on. */
  lemma LastIsFree(n: nat, gs: seq<Gate>, order: seq<nat>, p: nat)
    requires gs != [] && KeepsDependencies(n, gs, order)
    requires p < |order| && order[p] == n + |gs| - 1
    ensures Free(gs[|gs| - 1], GatesIn(n, gs, order[p + 1..]))
  {
    hide GatesIn, Passable, Operation.WellFormed;
    var m := |gs| - 1;
    forall g | g in GatesIn(n, gs, order[p + 1..]) ensures Passable(gs[m], g) {
      GatesInFrom(n, gs, order[p + 1..], g);
      var i :| 0 <= i < |order[p + 1..]| && n <= order[p + 1..][i] < n + |gs| && gs[order[p + 1..][i] - n] == g;
      var k := order[p + 1..][i] - n;
      assert order[p + 1 + i] == n + k && k != m;
      assert !Precedes(order, n + k, n + m);
      PassableSymmetric(g, gs[m]);
    }
  }

  lemma PassableSymmetric(p: Gate, g: Gate)
    requires Passable(p, g)
    ensures Passable(g, p)
  {
  }

  lemma WithoutLastKeeps(n: nat, gs: seq<Gate>, order: seq<nat>, p: nat)
    requires gs != [] && KeepsDependencies(n, gs, order)
    requires p < |order| && order[p] == n + |gs| - 1
    ensures KeepsDependencies(n, gs[..|gs| - 1], order[..p] + order[p + 1..])
  {
    hide Passable, Operation.WellFormed;
    var init, rest := gs[..|gs| - 1], order[..p] + order[p + 1..];
    forall k | 0 <= k < |init| ensures Placed(n, rest, k) {
      assert Placed(n, order, k);
      var i :| 0 <= i < |order| && order[i] == n + k;
      assert rest[if i < p then i else i - 1] == n + k;
    }
    forall a, b | 0 <= a < b < |init| && !Passable(init[a], init[b]) ensures Precedes(rest, n + a, n + b) {
      assert Precedes(order, n + a, n + b);
      forall i, j | 0 <= i < |rest| && 0 <= j < |rest| && rest[i] == n + a && rest[j] == n + b ensures i < j {
        assert order[if i < p then i else i + 1] == n + a && order[if j < p then j else j + 1] == n + b;
      }
    }
  }

  /** Any order that keeps dependencies is the same circuit. */
  lemma {:induction false} DependenciesDecide(tr: Trig, n: nat, gs: seq<Gate>, order: seq<nat>)
    requires KeepsDependencies(n, gs, order)
    ensures Means(tr, One, GatesIn(n, gs, order), gs)
    decreases |gs|
  {
    hide Means, GatesIn, KeepsDependencies, Free, Operation.WellFormed;
    if gs == [] {
      NoGates(n, order);
      MeansRefl(tr, []);
    } else {
      var init, g := gs[..|gs| - 1], gs[|gs| - 1];
      var p := LastPosition(n, gs, order);
      var front, back := order[..p], order[p + 1..];
      var xs, ys := GatesIn(n, gs, front), GatesIn(n, gs, back);
      assert order == front + [order[p]] + back;
      GatesInConcat(n, gs, front + [order[p]], back);
      GatesInConcat(n, gs, front, [order[p]]);
      OneGate(n, gs, order[p]);
      LastIsFree(n, gs, order, p);
      Slide(tr, g, ys);
      MeansInside(tr, One, xs, [g] + ys, ys + [g], []);
      assert xs + ([g] + ys) + [] == GatesIn(n, gs, order);
      WithoutLastKeeps(n, gs, order, p);
      LastNowhereElse(n, gs, order, p);
      GatesInPrefix(n, gs, front);
      GatesInPrefix(n, gs, back);
      GatesInConcat(n, init, front, back);
      DependenciesDecide(tr, n, init, front + back);
      MeansInside(tr, One, [], xs + ys, init, [g]);
      assert [] + (xs + ys) + [g] == xs + (ys + [g]) + [] && [] + init + [g] == gs;
      MeansChain(tr, GatesIn(n, gs, order), xs + (ys + [g]) + [], gs);
    }
  }

  lemma LastPosition(n: nat, gs: seq<Gate>, order: seq<nat>) returns (p: nat)
    requires gs != [] && KeepsDependencies(n, gs, order)
    ensures p < |order| && order[p] == n + |gs| - 1
  {
    hide Passable, Precedes, Operation.WellFormed;
    assert Placed(n, order, |gs| - 1);
    p :| p < |order| && order[p] == n + |gs| - 1;
  }

  lemma LastNowhereElse(n: nat, gs: seq<Gate>, order: seq<nat>, p: nat)
    requires gs != [] && KeepsDependencies(n, gs, order) && p < |order| && order[p] == n + |gs| - 1
    ensures n + |gs| - 1 !in order[..p] && n + |gs| - 1 !in order[p + 1..]
  {
    hide Passable, Precedes, Operation.WellFormed;
  }

  lemma {:induction false} NoGates(n: nat, order: seq<nat>)
    ensures GatesIn(n, [], order) == []
  {
    if order != [] { NoGates(n, order[..|order| - 1]); }
  }

  lemma OneGate(n: nat, gs: seq<Gate>, v: nat)
    requires n <= v < n + |gs|
    ensures GatesIn(n, gs, [v]) == [gs[v - n]]
  {
    assert [v][..0] == [];
  }

  /** The gates that the vertices hold, in the given order. */
  function Performed(vertices: seq<Vertex>, order: seq<nat>): seq<Gate> {
    if order == [] then []
    else
      var v := order[|order| - 1];
      Performed(vertices, order[..|order| - 1])
      + (if v < |vertices| && vertices[v].content.Operates? then [vertices[v].content.gate] else [])
  }

  lemma {:induction false} PerformedGates(n: nat, gs: seq<Gate>, order: seq<nat>)
    ensures Performed(VerticesOf(n, gs), order) == GatesIn(n, gs, order)
  {
    hide Operation.WellFormed;
    if order != [] { PerformedGates(n, gs, order[..|order| - 1]); }
  }

  /** Main theorem.  Running the gates that the vertices of the graph of any kernel hold, in any
      topological order, is the kernel. */
  lemma TopologicalOrderMeans(tr: Trig, n: nat, gs: seq<Gate>, order: seq<nat>)
    requires InRange(n, gs) && Topological(order, EdgesOf(n, gs), |VerticesOf(n, gs)|)
    ensures Means(tr, One, Performed(VerticesOf(n, gs), order), gs)
  {
    hide Means, GatesIn, Performed, Topological, EdgesOf, KeepsDependencies, InRange;
    PerformedGates(n, gs, order);
    TopologicalKeeps(n, gs, order);
    DependenciesDecide(tr, n, gs, order);
  }

  /** The order in which the vertices were added is topological, and runs the kernel as written. */
  lemma ProgramOrderTopological(n: nat, gs: seq<Gate>)
    ensures Topological(UpTo(n + |gs| + 1), EdgesOf(n, gs), n + |gs| + 1)
    ensures GatesIn(n, gs, UpTo(n + |gs| + 1)) == gs == Performed(VerticesOf(n, gs), UpTo(n + |gs| + 1))
  {
    hide EdgesOf, Operation.WellFormed, GatesIn, Performed;
    PerformedGates(n, gs, UpTo(n + |gs| + 1));
    Acyclic(n, gs);
    AddedOrder(n, gs, n + |gs|);
    var m := n + |gs|;
    var all := UpTo(m + 1);
    forall v | 0 <= v < |all| ensures v in all {
      assert all[v] == v;
    }
    assert UpTo(m + 1) == UpTo(m) + [m];
    GatesInConcat(n, gs, UpTo(m), [m]);
    assert GatesIn(n, gs, [m]) == [] by { NotAGate(n, gs, m); }
    assert gs[..|gs|] == gs;
  }

  lemma NotAGate(n: nat, gs: seq<Gate>, v: nat)
    requires !(n <= v < n + |gs|)
    ensures GatesIn(n, gs, [v]) == []
  {
    assert [v][..0] == [];
  }

  lemma {:induction false} AddedOrder(n: nat, gs: seq<Gate>, m: nat)
    requires m <= n + |gs|
    ensures GatesIn(n, gs, UpTo(m)) == if m <= n then [] else gs[..m - n]
  {
    hide Operation.WellFormed;
    if m > 0 {
      AddedOrder(n, gs, m - 1);
      assert UpTo(m)[..m - 1] == UpTo(m - 1);
    }
  }
}
