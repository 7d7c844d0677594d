/** The circuit drawing: one row of cells per qubit, one cell per row for each drawn operation. */
module Tikz {
  import opened Gates

  /** A number as the label shows it: a sign and a whole number of hundredths. */
  datatype Printed = Printed(negative: bool, hundredths: nat)

  /** The nearest whole number, the even one of two that are equally near. */
  function Nearest(y: real): nat
    requires y >= 0.0
  {
    var f := y.Floor;
    var r := y - f as real;
    if r < 0.5 || (r == 0.5 && f % 2 == 0) then f else f + 1
  }

  /** std::fixed with std::setprecision(2). */
  function Fixed2(x: real): Printed {
    if x < 0.0 then Printed(true, Nearest(-x * 100.0)) else Printed(false, Nearest(x * 100.0))
  }

  function Hundredths(m: int): real { m as real / 100.0 }

  /** The number that a label shows. */
  function Shown(p: Printed): real {
    if p.negative then -Hundredths(p.hundredths) else Hundredths(p.hundredths)
  }

  function Distance(x: real, y: real): real { if x < y then y - x else x - y }

  /** The label shows a number within half a hundredth of x, the even one of two that are equally near,
      and keeps the sign of x even where the number shown is zero. */
  predicate RoundsTo(x: real, p: Printed) {
    && (p.negative <==> x < 0.0)
    && Distance(x, Shown(p)) <= 0.005
    && (Distance(x, Shown(p)) == 0.005 ==> p.hundredths % 2 == 0)
  }

  /** A label is printed for x exactly when it rounds x, and then no whole number of hundredths is nearer. */
  lemma Fixed2Exact(x: real, p: Printed)
    ensures p == Fixed2(x) <==> RoundsTo(x, p)
    ensures RoundsTo(x, p) ==> forall m: int :: Distance(x, Shown(p)) <= Distance(x, Hundredths(m))
  {
    var y, h := if x < 0.0 then -x * 100.0 else x * 100.0, p.hundredths;
    assert Distance(x, Shown(p)) * 100.0 == Distance(y, h as real) || p.negative != (x < 0.0);
    NearestExact(y, h);
    if RoundsTo(x, p) {
      forall m: int ensures Distance(x, Shown(p)) <= Distance(x, Hundredths(m)) {
        var k := if x < 0.0 then -m else m;
        assert Distance(x, Hundredths(m)) * 100.0 == Distance(y, k as real);
        NoneNearer(y, h, k);
      }
    }
  }

  lemma NearestExact(y: real, h: nat)
    requires y >= 0.0
    ensures h == Nearest(y)
        <==> Distance(y, h as real) <= 0.5 && (Distance(y, h as real) == 0.5 ==> h % 2 == 0)
  {
    var f := y.Floor;
    assert h <= f - 1 || h == f || h == f + 1 || h >= f + 2;
  }

  lemma NoneNearer(y: real, h: int, k: int)
    requires Distance(y, h as real) <= 0.5
    ensures Distance(y, h as real) <= Distance(y, k as real)
  {
    assert k <= h - 1 || k == h || k >= h + 1;
  }

  function Labels(params: seq<real>): seq<Printed> {
    seq(|params|, i requires 0 <= i < |params| => Fixed2(params[i]))
  }

  /** A cell of the drawing.  Offsets are rows, counted downwards; a box shows the name, the dagger and
      the parameters of the gate. */
  datatype Cell =
    | Lstick
    | Wire
    | Meter
    | Box(kind: Kind, adj: bool, labels: seq<Printed>)
    | Control(offset: int)
    | SwapTo(offset: int)
    | SwapEnd

  /** What is drawn: a gate, a measurement of some qubits, or one of a whole register. */
  datatype Drawn = DrawGate(gate: Gate) | DrawMeasure(qubits: seq<nat>) | DrawMeasureAll {

    predicate Fits(n: nat) {
      match this
      case DrawGate(g) => (forall q <- g.targets :: q < n) && (forall q <- g.controls :: q < n)
      case DrawMeasure(qs) => Distinct(qs) && forall q <- qs :: q < n
      case DrawMeasureAll => true
    }

    predicate Touches(q: nat) {
      match this
      case DrawGate(g) => g.Touches(q)
      case DrawMeasure(qs) => q in qs
      case DrawMeasureAll => true
    }

    /** A swap under controls. */
    predicate ControlledSwap() {
      DrawGate? && gate.kind.Swap? && gate.controls != []
    }
  }

  /** The cells that an operation adds to row r; the controls of a swap get none. */
  function Added(d: Drawn, r: nat): seq<Cell> {
    if !d.Touches(r) then [Wire]
    else
      match d
      case DrawGate(g) =>
        if g.kind.Swap? then
          if r == g.targets[0] then [SwapTo(g.targets[1] as int - g.targets[0])]
          else if r == g.targets[1] then [SwapEnd] else []
        else if r == g.targets[0] then [Box(g.kind, g.adj, Labels(g.params))] else [Control(g.targets[0] as int - r)]
      case DrawMeasure(_) | DrawMeasureAll => [Meter]
  }

  /** The cell is what row r must show of the operation: a plain wire, a meter, the ends of a swap, the way
      from a control to its target, or a box with the gate and its rounded parameters. */
  predicate Shows(d: Drawn, r: nat, c: Cell) {
    match d
    case DrawMeasure(qs) => c == (if r in qs then Meter else Wire)
    case DrawMeasureAll => c == Meter
    case DrawGate(g) =>
      if r !in g.targets && r !in g.controls then c == Wire
      else if g.kind == Swap then
        c == (if r == g.targets[0] then SwapTo(g.targets[1] as int - g.targets[0]) else SwapEnd)
      else if r in g.controls then c == Control(g.targets[0] as int - r)
      else
        && c.Box? && c.kind == g.kind && c.adj == g.adj && |c.labels| == |g.params|
        && forall i :: 0 <= i < |g.params| ==> RoundsTo(g.params[i], c.labels[i])
  }

  /** The row of a swap's control. */
  predicate Skipped(d: Drawn, r: nat) {
    d.DrawGate? && d.gate.kind == Swap && r in d.gate.controls
  }

  lemma AddedShows(d: Drawn, r: nat)
    ensures if Skipped(d, r) then Added(d, r) == [] else |Added(d, r)| == 1 && Shows(d, r, Added(d, r)[0])
  {
    hide RoundsTo, Fixed2, Distinct;
    if d.DrawGate? {
      var g := d.gate;
      OperandsApart(g);
      forall i | 0 <= i < |g.params| ensures RoundsTo(g.params[i], Labels(g.params)[i]) {
        Fixed2Exact(g.params[i], Fixed2(g.params[i]));
      }
    }
  }

  function Row(ds: seq<Drawn>, r: nat): seq<Cell> {
    if ds == [] then [Lstick] else Row(ds[..|ds| - 1], r) + Added(ds[|ds| - 1], r)
  }

  // ---- The grid, filled in place ----

  class Grid {
    var rows: seq<seq<Cell>>

    constructor (n: nat)
      ensures rows == seq(n, _ => [Lstick])
    {
      rows := seq(n, _ => [Lstick]);
    }

    method Push(r: nat, c: Cell)
      requires r < |rows|
      modifies this
      ensures rows == old(rows)[r := old(rows)[r] + [c]]
    {
      rows := rows[r := rows[r] + [c]];
    }

    /** The measured rows. */
    method PushMeters(d: Drawn)
      requires !d.DrawGate? && d.Fits(|rows|)
      modifies this
      ensures |rows| == |old(rows)|
      ensures forall r :: 0 <= r < |rows| ==> rows[r] == old(rows)[r] + if d.Touches(r) then [Meter] else []
    {
      if d.DrawMeasure? {
        var qs := d.qubits;
        for i := 0 to |qs|
          invariant |rows| == |old(rows)|
          invariant forall r :: 0 <= r < |rows| ==> rows[r] == old(rows)[r] + if r in qs[..i] then [Meter] else []
        {
          NotBefore(qs, i);
          assert qs[i] in qs;
          Push(qs[i], Meter);
          assert qs[..i + 1] == qs[..i] + [qs[i]];
        }
        assert qs[..|qs|] == qs;
      } else {
        for i := 0 to |rows|
          invariant |rows| == |old(rows)|
          invariant forall r :: 0 <= r < |rows| ==> rows[r] == old(rows)[r] + if r < i then [Meter] else []
        {
          Push(i, Meter);
        }
      }
    }

    /** The rows the operation does not touch. */
    method PushWires(d: Drawn)
      modifies this
      ensures |rows| == |old(rows)|
      ensures forall r :: 0 <= r < |rows| ==> rows[r] == old(rows)[r] + if d.Touches(r) then [] else [Wire]
    {
      for i := 0 to |rows|
        invariant |rows| == |old(rows)|
        invariant forall r :: 0 <= r < |rows| ==>
                    rows[r] == old(rows)[r] + if r < i && !d.Touches(r) then [Wire] else []
      {
        if !d.Touches(i) {
          Push(i, Wire);
        }
      }
    }

    /** The controls of a gate that is not a swap. */
    method PushControls(g: Gate)
      requires !g.kind.Swap? && forall q <- g.controls :: q < |rows|
      modifies this
      ensures |rows| == |old(rows)|
      ensures forall r :: 0 <= r < |rows| ==>
                rows[r] == old(rows)[r] + if r in g.controls then [Control(g.targets[0] as int - r)] else []
    {
      var cs, t := g.controls, g.targets[0];
      OperandsApart(g);
      for i := 0 to |cs|
        invariant |rows| == |old(rows)|
        invariant forall r :: 0 <= r < |rows| ==>
                    rows[r] == old(rows)[r] + if r in cs[..i] then [Control(t as int - r)] else []
      {
        NotBefore(cs, i);
        assert cs[i] in cs;
        Push(cs[i], Control(t as int - cs[i]));
        assert cs[..i + 1] == cs[..i] + [cs[i]];
      }
      assert cs[..|cs|] == cs;
    }

    /** The parameters of a label, printed one after the other. */
    method PrintParameters(params: seq<real>) returns (labels: seq<Printed>)
      ensures labels == Labels(params)
      ensures |labels| == |params| && forall k :: 0 <= k < |params| ==> RoundsTo(params[k], labels[k])
    {
      hide RoundsTo, Fixed2;
      labels := [];
      for i := 0 to |params|
        invariant |labels| == i && forall k :: 0 <= k < i ==> labels[k] == Fixed2(params[k])
        invariant forall k :: 0 <= k < i ==> RoundsTo(params[k], labels[k])
      {
        Fixed2Exact(params[i], Fixed2(params[i]));
        labels := labels + [Fixed2(params[i])];
      }
    }

    /** dumpQuakeOperationToTikz. */
    method Dump(d: Drawn)
      requires d.Fits(|rows|)
      modifies this
      ensures |rows| == |old(rows)|
      ensures forall r :: 0 <= r < |rows| ==> rows[r] == old(rows)[r] + Added(d, r)
      ensures forall r :: 0 <= r < |rows| && !Skipped(d, r) ==>
                |rows[r]| == |old(rows)[r]| + 1 && Shows(d, r, rows[r][|old(rows)[r]|])
    {
      hide RoundsTo, Labels, Distinct, Shows, Skipped;
      forall r: nat ensures Skipped(d, r) || (|Added(d, r)| == 1 && Shows(d, r, Added(d, r)[0])) {
        AddedShows(d, r);
      }
      if !d.DrawGate? {
        PushMeters(d);
      }
      PushWires(d);
      if !d.DrawGate? {
        return;
      }
      var g := d.gate;
      OperandsApart(g);
      assert forall t <- g.targets :: t < |rows|;
      if g.kind.Swap? {
        assert g.targets[0] in g.targets && g.targets[1] in g.targets;
        Push(g.targets[0], SwapTo(g.targets[1] as int - g.targets[0]));
        Push(g.targets[1], SwapEnd);
        return;
      }
      assert g.targets[0] in g.targets;
      var labels := PrintParameters(g.params);
      Push(g.targets[0], Box(g.kind, g.adj, labels));
      PushControls(g);
    }
  }

  lemma NotBefore(s: seq<nat>, i: nat)
    requires Distinct(s) && i < |s|
    ensures s[i] !in s[..i]
  {
    if i > 0 {
      NotBefore(s[1..], i - 1);
      assert s[..i] == [s[0]] + s[1..][..i - 1];
    }
  }

  /** runOnOperation: a row head for each qubit, then every operation in turn. */
  method Draw(n: nat, ds: seq<Drawn>) returns (rows: seq<seq<Cell>>)
    requires forall d <- ds :: d.Fits(n)
    ensures |rows| == n && forall r :: 0 <= r < n ==> rows[r] == Row(ds, r)
  {
    var grid := new Grid(n);
    for i := 0 to |ds|
      invariant |grid.rows| == n
      invariant forall r :: 0 <= r < n ==> grid.rows[r] == Row(ds[..i], r)
    {
      grid.Dump(ds[i]);
      assert ds[..i + 1][..i] == ds[..i];
    }
    assert ds[..|ds|] == ds;
    rows := grid.rows;
  }

  // ---- The shape of the drawing ----

  lemma AddedLength(d: Drawn, r: nat)
    ensures |Added(d, r)| <= 1
    ensures |Added(d, r)| == 0 <==> d.ControlledSwap() && r in d.gate.controls
  {
    if d.DrawGate? {
      OperandsApart(d.gate);
    }
  }

  predicate Complete(ds: seq<Drawn>, n: nat) {
    forall r :: 0 <= r < n ==> |Row(ds, r)| == 1 + |ds|
  }

  lemma {:induction false} RowLength(ds: seq<Drawn>, r: nat)
    ensures |Row(ds, r)| <= 1 + |ds|
    ensures |Row(ds, r)| == 1 + |ds| <==> forall d <- ds :: !(d.ControlledSwap() && r in d.gate.controls)
    decreases |ds|
  {
    if ds != [] {
      var init, d := ds[..|ds| - 1], ds[|ds| - 1];
      RowLength(init, r);
      AddedLength(d, r);
      assert ds == init + [d];
    }
  }

  /** Every row has one cell per operation exactly when no swap has controls. */
  lemma CompleteIff(ds: seq<Drawn>, n: nat)
    requires forall d <- ds :: d.Fits(n)
    ensures Complete(ds, n) <==> forall d <- ds :: !d.ControlledSwap()
  {
    forall r | 0 <= r < n
      ensures |Row(ds, r)| == 1 + |ds| <==> forall d <- ds :: !(d.ControlledSwap() && r in d.gate.controls)
    {
      RowLength(ds, r);
    }
    if d :| d in ds && d.ControlledSwap() {
      var q := d.gate.controls[0];
      assert q in d.gate.controls;
      assert |Row(ds, q)| != 1 + |ds|;
    }
  }

  function Fredkin(c: nat, a: nat, b: nat): Gate
    requires c != a && c != b && a != b
  {
    assert [c] + [a, b] == [c, a, b] && [c, a, b][1..] == [a, b] && [a, b][1..] == [b];
    assert Distinct([a, b]);
    Operation(Swap, false, [], [c], [a, b])
  }

  /** A swap under one control: the row of the control falls one cell behind the others. */
  lemma ControlledSwapShort()
    ensures var g := Fredkin(0, 1, 2);
            && Row([DrawGate(g)], 0) == [Lstick]
            && Row([DrawGate(g)], 1) == [Lstick, SwapTo(1)] && Row([DrawGate(g)], 2) == [Lstick, SwapEnd]
            && !Complete([DrawGate(g)], 3)
  {
    var g := Fredkin(0, 1, 2);
    assert [DrawGate(g)][..0] == [];
    assert 0 in g.controls && 1 in g.targets && 2 in g.targets;
    assert |Row([DrawGate(g)], 0)| != 2;
  }

  /** In a drawing without controlled swaps, the cell for operation k is in column k + 1 of its row. */
  lemma {:induction false} CellAt(ds: seq<Drawn>, k: nat, r: nat)
    requires k < |ds| && forall d <- ds :: !d.ControlledSwap()
    ensures |Row(ds, r)| == 1 + |ds| && |Added(ds[k], r)| == 1 && Row(ds, r)[k + 1] == Added(ds[k], r)[0]
    decreases |ds|
  {
    var init, d := ds[..|ds| - 1], ds[|ds| - 1];
    AddedLength(ds[k], r);
    RowLength(ds, r);
    RowLength(init, r);
    if k < |init| {
      CellAt(init, k, r);
    }
  }

  /** Main theorem on cells.  In a drawing without controlled swaps, column k + 1 of every row shows what
      it must of operation k, behind one head per row. */
  lemma CellsExactly(ds: seq<Drawn>, k: nat, r: nat)
    requires k < |ds| && forall d <- ds :: !(d.DrawGate? && d.gate.kind == Swap && d.gate.controls != [])
    ensures |Row(ds, r)| == 1 + |ds| && Shows(ds[k], r, Row(ds, r)[k + 1])
  {
    hide Shows, Added, Row;
    CellAt(ds, k, r);
    AddedShows(ds[k], r);
    assert ds[k] in ds;
  }

  /** With controlled swaps too, each operation appends what the row must show of it, except that it
      appends nothing to the rows of a swap's controls. */
  lemma RowGrows(ds: seq<Drawn>, d: Drawn, r: nat)
    ensures var before, after := Row(ds, r), Row(ds + [d], r);
            if Skipped(d, r) then after == before
            else |after| == |before| + 1 && after[..|before|] == before && Shows(d, r, after[|before|])
    ensures Row([], r) == [Lstick]
  {
    hide Shows, Added, Skipped;
    assert (ds + [d])[..|ds|] == ds;
    AddedShows(d, r);
  }

  /** A cell is a plain wire exactly when the operation leaves its qubit alone. */
  lemma WireIff(ds: seq<Drawn>, k: nat, r: nat)
    requires k < |ds| && forall d <- ds :: !d.ControlledSwap()
    ensures |Row(ds, r)| == 1 + |ds| && (Row(ds, r)[k + 1] == Wire <==> !ds[k].Touches(r))
  {
    CellAt(ds, k, r);
  }

  /** A control points at the gate it controls, and a swap at its partner, in the same column. */
  lemma LinksMeet(ds: seq<Drawn>, n: nat, k: nat, r: nat)
    requires k < |ds| && r < n && (forall d <- ds :: d.Fits(n)) && forall d <- ds :: !d.ControlledSwap()
    ensures |Row(ds, r)| == 1 + |ds|
    ensures var c := Row(ds, r)[k + 1];
            && (c.Control? ==> 0 <= r + c.offset < n && |Row(ds, r + c.offset)| == 1 + |ds|
                               && Row(ds, r + c.offset)[k + 1].Box?)
            && (c.SwapTo? ==> 0 <= r + c.offset < n && |Row(ds, r + c.offset)| == 1 + |ds|
                              && Row(ds, r + c.offset)[k + 1] == SwapEnd)
  {
    CellAt(ds, k, r);
    var d := ds[k];
    assert d in ds && d.Fits(n);
    if d.DrawGate? && d.Touches(r) {
      var g := d.gate;
      OperandsApart(g);
      var t := if g.kind.Swap? then g.targets[1] else g.targets[0];
      assert t in g.targets && g.targets[0] in g.targets;
      CellAt(ds, k, t);
    }
  }

  // ---- What can be read off the drawing ----

  /** Two operations that differ at most in the order of their controls, in parameters that print
      alike, in the adjoint flag of a swap, or in how their measured qubits are written down. */
  predicate SameDrawn(d: Drawn, e: Drawn, n: nat) {
    if d.DrawGate? && e.DrawGate? then SameGate(d.gate, e.gate)
    else !d.DrawGate? && !e.DrawGate? && forall r :: 0 <= r < n ==> d.Touches(r) == e.Touches(r)
  }

  predicate SameGate(g: Gate, h: Gate) {
    && g.kind == h.kind && g.targets == h.targets && Wires(g.controls) == Wires(h.controls)
    && (g.kind.Swap? || (g.adj == h.adj && Labels(g.params) == Labels(h.params)))
  }

  predicate SameColumn(d: Drawn, e: Drawn, n: nat) {
    forall r :: 0 <= r < n ==> Added(d, r) == Added(e, r)
  }

  predicate SameRows(ds: seq<Drawn>, es: seq<Drawn>, n: nat) {
    forall r :: 0 <= r < n ==> Row(ds, r) == Row(es, r)
  }

  /** Operations that fit on n rows, without swaps under controls. */
  predicate Drawable(ds: seq<Drawn>, n: nat) {
    forall d <- ds :: d.Fits(n) && !d.ControlledSwap()
  }

  /** Equal columns come from the same operations, and only from them. */
  lemma ColumnDetermines(d: Drawn, e: Drawn, n: nat)
    requires d.Fits(n) && e.Fits(n) && !d.ControlledSwap() && !e.ControlledSwap()
    ensures SameColumn(d, e, n) <==> SameDrawn(d, e, n)
  {
    if SameColumn(d, e, n) {
      if d.DrawGate? {
        GateColumn(d.gate, e, n);
      } else if e.DrawGate? {
        GateColumn(e.gate, d, n);
      } else {
        forall r | 0 <= r < n ensures d.Touches(r) == e.Touches(r) {
          assert Added(d, r) == Added(e, r);
        }
      }
    }
    if SameDrawn(d, e, n) && d.DrawGate? {
      OperandsApart(d.gate);
      forall r: nat | r < n ensures Added(d, r) == Added(e, r) {
        assert r in d.gate.controls <==> r in Wires(d.gate.controls);
        assert r in e.gate.controls <==> r in Wires(e.gate.controls);
      }
    }
  }

  lemma GateColumn(g: Gate, e: Drawn, n: nat)
    requires DrawGate(g).Fits(n) && e.Fits(n) && !DrawGate(g).ControlledSwap() && !e.ControlledSwap()
    requires SameColumn(DrawGate(g), e, n)
    ensures e.DrawGate? && SameGate(g, e.gate)
  {
    hide Labels;
    var d := DrawGate(g);
    OperandsApart(g);
    assert forall t <- g.targets :: t < n && Added(d, t) == Added(e, t);
    assert g.targets[0] in g.targets;
    var h := e.gate;
    OperandsApart(h);
    if g.kind.Swap? {
      assert g.targets[1] in g.targets;
      assert Wires(g.controls) == {} == Wires(h.controls);
    } else {
      forall q: nat ensures q in g.controls <==> q in h.controls {
        assert q < n ==> Added(d, q) == Added(e, q);
      }
    }
  }

  lemma {:induction false} ColumnsMakeRows(ds: seq<Drawn>, es: seq<Drawn>, n: nat)
    requires |ds| == |es| && forall k :: 0 <= k < |ds| ==> SameColumn(ds[k], es[k], n)
    ensures SameRows(ds, es, n)
    decreases |ds|
  {
    hide Added;
    if ds == [] {
      assert es == [];
    } else {
      var init, init' := ds[..|ds| - 1], es[..|es| - 1];
      ColumnsMakeRows(init, init', n);
      assert SameColumn(ds[|ds| - 1], es[|es| - 1], n);
      forall r | 0 <= r < n ensures Row(ds, r) == Row(es, r) {
        assert Row(init, r) == Row(init', r);
      }
    }
  }

  lemma {:induction false} RowsMakeColumns(ds: seq<Drawn>, es: seq<Drawn>, n: nat)
    requires n > 0 && Drawable(ds, n) && Drawable(es, n) && SameRows(ds, es, n)
    ensures |ds| == |es| && forall k :: 0 <= k < |ds| ==> SameColumn(ds[k], es[k], n)
  {
    hide Added;
    RowLength(ds, 0);
    RowLength(es, 0);
    assert Row(ds, 0) == Row(es, 0);
    forall k, r | 0 <= k < |ds| && 0 <= r < n ensures Added(ds[k], r) == Added(es[k], r) {
      CellAt(ds, k, r);
      CellAt(es, k, r);
      assert Row(ds, r) == Row(es, r);
      assert Added(ds[k], r) == [Added(ds[k], r)[0]] && Added(es[k], r) == [Added(es[k], r)[0]];
    }
  }

  /** Two drawings without controlled swaps have the same rows exactly when they show the same
      operations, column by column. */
  lemma {:induction false} DrawingDetermines(ds: seq<Drawn>, es: seq<Drawn>, n: nat)
    requires n > 0 && Drawable(ds, n) && Drawable(es, n)
    ensures SameRows(ds, es, n) <==> |ds| == |es| && forall k :: 0 <= k < |ds| ==> SameDrawn(ds[k], es[k], n)
  {
    hide SameDrawn, SameColumn, SameRows, Added, Drawn.Fits, Drawn.ControlledSwap;
    if |ds| == |es| {
      forall k | 0 <= k < |ds| ensures SameColumn(ds[k], es[k], n) <==> SameDrawn(ds[k], es[k], n) {
        assert ds[k] in ds && es[k] in es;
        ColumnDetermines(ds[k], es[k], n);
      }
      if forall k :: 0 <= k < |ds| ==> SameDrawn(ds[k], es[k], n) {
        ColumnsMakeRows(ds, es, n);
      }
    }
    if SameRows(ds, es, n) {
      RowsMakeColumns(ds, es, n);
    }
  }
}
