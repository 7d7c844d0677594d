/** The rewriting passes, as functions from a block of gates to a block of gates.

    A pass walks the block once, left to right.  The walk fetches the successor of an operation
    before it calls back, so operations a rewrite inserts after the visited one are not visited:
    a pass is a fold over the original gates whose accumulator is the rewritten prefix. */
module Passes {
  import opened Gates
  import opened Scans

  datatype Option<+T> = None | Some(value: T)

  datatype PassShape =
    | Cancellation(patterns: seq<(Kind, nat)>)
    | Commutation(k1: Kind, n1: nat, k2: Kind, n2: nat)
    | CxPastZ
    | ZPastCx
    | Switch(k1: Kind, k2: Kind, k3: Kind, k4: Kind)
    | PauliPastH
    | Sandwich(inner: Kind, result: Kind)
    | SAndZ(fromAdj: bool)
    | CxAsHCzH
    | CzAsHCxH
    | CxReversed
  {
    predicate Valid() {
      match this
      case Switch(k1, k2, k3, k4) => Nullary(k1) && Nullary(k2) && Nullary(k3) && Nullary(k4)
      case Sandwich(inner, result) => Nullary(inner) && Nullary(result)
      case Commutation(k1, _, k2, _) => !k1.Swap? && !k2.Swap?
      case Cancellation(ps) => forall kn <- ps :: !kn.0.Swap?
      case _ => true
    }
  }

  predicate Nullary(k: Kind) { ParamCount(k) == 0 && !k.Swap? }

  type Pass = p: PassShape | p.Valid() witness CxPastZ

  // ---- The passes the repository ships ----

  const ReductionPattern: Pass :=
    Cancellation([(X, 1), (X, 0), (Y, 1), (Y, 0), (Z, 1), (Z, 0), (H, 1), (H, 0)])
  const CancellationDoubleCx: Pass := Cancellation([(X, 1)])
  const CommuteCxRx: Pass := Commutation(X, 1, Rx, 0)
  const CommuteCxX: Pass := Commutation(X, 1, X, 0)
  const CommuteRxCx: Pass := Commutation(Rx, 0, X, 1)
  const CommuteXCx: Pass := Commutation(X, 0, X, 1)
  const CommuteCxZ: Pass := CxPastZ
  const CommuteZCx: Pass := ZPastCx
  const SwitchXH: Pass := Switch(X, H, H, Z)
  const SwitchYH: Pass := Switch(Y, H, H, Y)
  const SwitchZH: Pass := Switch(Z, H, H, X)
  const SwitchHX: Pass := Switch(H, X, Z, H)
  const SwitchHY: Pass := Switch(H, Y, Y, H)
  const SwitchHZ: Pass := Switch(H, Z, X, H)
  const SwitchPauliH: Pass := PauliPastH
  const HXHToZ: Pass := Sandwich(X, Z)
  const HZHToX: Pass := Sandwich(Z, X)
  const SAdjToS: Pass := SAndZ(true)
  const SToSAdj: Pass := SAndZ(false)
  const CxToHCzH: Pass := CxAsHCzH
  const CzToHCxH: Pass := CzAsHCxH
  const ReverseCx: Pass := CxReversed

  predicate Commuting(p: Pass) {
    match p
    case Commutation(_, _, _, _) => p == CommuteCxRx || p == CommuteCxX || p == CommuteRxCx || p == CommuteXCx
    case CxPastZ => true
    case ZPastCx => true
    case _ => false
  }

  predicate Switching(p: Pass) {
    match p
    case Switch(_, _, _, _) =>
      p == SwitchXH || p == SwitchYH || p == SwitchZH || p == SwitchHX || p == SwitchHY || p == SwitchHZ
    case PauliPastH => true
    case _ => false
  }

  predicate Decomposing(p: Pass) {
    p.CxAsHCzH? || p.CzAsHCxH? || p.CxReversed?
  }

  predicate Cancelling(p: Pass) {
    p.Cancellation? && (p == ReductionPattern || p == CancellationDoubleCx)
  }

  predicate Merging(p: Pass) {
    p.SAndZ? || (p.Sandwich? && (p == HXHToZ || p == HZHToX))
  }

  predicate Shipped(p: Pass) {
    Commuting(p) || Switching(p) || Decomposing(p) || Cancelling(p) || Merging(p)
  }

  // ---- Operand lists ----

  function InsertDescending(x: nat, s: seq<nat>): seq<nat> {
    if s == [] || x >= s[0] then [x] + s else [s[0]] + InsertDescending(x, s[1..])
  }

  /** std::sort with std::greater<int>. */
  function SortedDescending(s: seq<nat>): seq<nat> {
    if s == [] then [] else InsertDescending(s[0], SortedDescending(s[1..]))
  }

  // ---- What each pass does to one gate ----

  /** The wire that the pass scans when it visits g, if g is a gate that the pass reacts to. */
  function ScanWire(pass: Pass, g: Gate): Option<nat> {
    match pass
    case Cancellation(ps) => if (g.kind, |g.controls|) in ps && |g.targets| == 1 then Some(g.targets[0]) else None
    case Commutation(_, _, k2, n2) => if g.Is(k2, n2) then Some(g.targets[0]) else None
    case CxPastZ => if g.Is(Z, 0) then Some(g.targets[0]) else None
    case ZPastCx => if g.Is(X, 1) then Some(g.controls[0]) else None
    case Switch(_, k2, _, _) => if g.Is(k2, 0) then Some(g.targets[0]) else None
    case PauliPastH => if g.Is(H, 0) then Some(g.targets[0]) else None
    case Sandwich(_, _) => if g.Is(H, 0) then Some(g.targets[0]) else None
    case SAndZ(_) => if g.Is(Z, 0) then Some(g.targets[0]) else None
    case CxAsHCzH => None
    case CzAsHCxH => None
    case CxReversed => None
  }

  /** The same operands and adjoint flag under another kind. */
  function As(k: Kind, g: Gate): Gate
    requires Nullary(k) && Nullary(g.kind)
  {
    Operation(k, g.adj, g.params, g.controls, g.targets)
  }

  function PauliAfterH(k: Kind): Kind {
    if k == X then Z else if k == Z then X else k
  }

  predicate Pauli(k: Kind) { k == X || k == Y || k == Z }

  /** What a pass that looks at two gates puts in place of p and g, when it reacts to them. */
  function PairRule(pass: Pass, p: Gate, g: Gate): Option<seq<Gate>>
    requires ScanWire(pass, g).Some?
  {
    match pass
    case Cancellation(_) =>
      if p.Is(g.kind, |g.controls|)
         && SortedDescending(g.controls) == SortedDescending(p.controls)
         && SortedDescending(g.targets) == SortedDescending(p.targets)
      then Some([]) else None
    case Commutation(k1, n1, _, _) =>
      if p.Is(k1, n1) && p.targets[0] == g.targets[0] then Some([g, p]) else None
    case CxPastZ =>
      if p.Is(X, 1) && g.targets[0] == p.controls[0] then Some([g, p]) else None
    case ZPastCx =>
      if p.Is(Z, 0) && p.targets[0] == g.controls[0] then Some([g, p]) else None
    case Switch(k1, _, k3, k4) =>
      if p.Is(k1, 0) then Some([As(k3, g), As(k4, p)]) else None
    case PauliPastH =>
      if Pauli(p.kind) && p.Is(p.kind, 0) then Some([g, As(PauliAfterH(p.kind), p)]) else None
    case SAndZ(fromAdj) =>
      if p.Is(S, 0) && p.adj == fromAdj then Some([Operation(S, !fromAdj, p.params, p.controls, p.targets)]) else None
    case _ => None
  }

  /** What a decomposition puts in place of g, when it reacts to g. */
  function SingleRule(pass: Pass, g: Gate): Option<seq<Gate>> {
    match pass
    case CxAsHCzH =>
      if g.Is(X, 1) then
        var c, t := g.controls[0], g.targets[0];
        assert (g.controls + g.targets)[0] == c && (g.controls + g.targets)[1] == t;
        Some([Plain(H, [], t), Plain(Z, [t], c), Plain(H, [], t)])
      else None
    case CzAsHCxH =>
      if g.Is(Z, 1) then
        var c, t := g.controls[0], g.targets[0];
        assert (g.controls + g.targets)[0] == c && (g.controls + g.targets)[1] == t;
        Some([Plain(H, [], t), Plain(X, [c], t), Plain(H, [], t)])
      else None
    case CxReversed =>
      if g.Is(X, 1) then
        var c, t := g.controls[0], g.targets[0];
        assert (g.controls + g.targets)[0] == c && (g.controls + g.targets)[1] == t;
        Some([Plain(H, [], t), Plain(H, [], c), Plain(X, [t], c), Plain(H, [], t), Plain(H, [], c)])
      else None
    case _ => None
  }

  function Without(gs: seq<Gate>, j: nat): seq<Gate>
    requires j < |gs|
  {
    gs[..j] + gs[j + 1..]
  }

  /** The index of the gate that a two-gate pass rewrites together with g, or -1. */
  function Partner(pass: Pass, done: seq<Gate>, g: Gate): (j: int)
    ensures -1 <= j < |done|
  {
    match ScanWire(pass, g)
    case None => -1
    case Some(q) =>
      var j := PrevOn(done, q);
      if j >= 0 && PairRule(pass, done[j], g).Some? then j else -1
  }

  /** The H before the inner gate of an H-K-H pattern that ends at g, and the inner gate. */
  function SandwichAt(pass: Pass, done: seq<Gate>, g: Gate): (r: Option<(nat, nat)>)
    ensures r.Some? ==> r.value.0 < r.value.1 < |done|
  {
    match pass
    case Sandwich(inner, _) =>
      if !g.Is(H, 0) then None else
      var j := PrevOn(done, g.targets[0]);
      if j < 0 || !done[j].Is(inner, 0) then None else
      var i := PrevOn(done[..j], g.targets[0]);
      if i < 0 || !done[i].Is(H, 0) then None else Some((i, j))
    case _ => None
  }

  /** Visiting g after the prefix has been rewritten to done. */
  function Visit(pass: Pass, done: seq<Gate>, g: Gate): seq<Gate> {
    if pass.Sandwich? then
      match SandwichAt(pass, done, g)
      case None => done + [g]
      case Some(ij) => Without(Without(done, ij.1), ij.0) + [Plain(pass.result, [], g.targets[0])]
    else if SingleRule(pass, g).Some? then done + SingleRule(pass, g).value
    else
      var j := Partner(pass, done, g);
      if j < 0 then done + [g] else Without(done, j) + PairRule(pass, done[j], g).value
  }

  /** The block that `kernel.walk` leaves behind: each gate is visited after the gates before it. */
  function Walk(pass: Pass, gs: seq<Gate>): seq<Gate> {
    if gs == [] then [] else Visit(pass, Walk(pass, gs[..|gs| - 1]), gs[|gs| - 1])
  }

  // ---- Guards ----

  /** The condition under which the visit is sound: nothing between the two matched gates targets a
      control, or touches a target, of the earlier one.  It holds by itself when that gate has no
      control, because the scan already looked at its only wire. */
  predicate Guarded(pass: Pass, done: seq<Gate>, g: Gate) {
    var j := Partner(pass, done, g);
    j >= 0 ==> Free(done[j], done[j + 1..])
  }

  /** Every visit of the walk is sound. */
  predicate GuardedWalk(pass: Pass, gs: seq<Gate>) {
    gs == [] || (GuardedWalk(pass, gs[..|gs| - 1]) && Guarded(pass, Walk(pass, gs[..|gs| - 1]), gs[|gs| - 1]))
  }
}
