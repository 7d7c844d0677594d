/** The passes as the repository runs them: a kernel whose block of operations is searched, extended
    and cut in place while it is being walked. */
module Kernels {
  import opened Gates
  import opened Scans
  import opened Passes

  class Kernel {
    var ops: seq<Gate>

    constructor (gs: seq<Gate>)
      ensures ops == gs
    {
      ops := gs;
    }

    // ---- Scans ----

    /** Does operation i act on qubit q?  Targets are looked at first, then controls. */
    method ActsOn(i: nat, q: nat) returns (found: bool)
      requires i < |ops|
      ensures found == ops[i].Touches(q)
    {
      var g := ops[i];
      for k := 0 to |g.targets|
        invariant q !in g.targets[..k]
      {
        if g.targets[k] == q { return true; }
      }
      for k := 0 to |g.controls|
        invariant q !in g.controls[..k]
      {
        if g.controls[k] == q { return true; }
      }
      assert g.targets[..|g.targets|] == g.targets && g.controls[..|g.controls|] == g.controls;
      return false;
    }

    /** The last operation before operation i that acts on q, or -1. */
    method PreviousOperationOnTarget(i: nat, q: nat) returns (j: int)
      requires i < |ops|
      ensures j == PrevOn(ops[..i], q)
    {
      j := i - 1;
      while j >= 0
        invariant -1 <= j < i
        invariant forall k :: j < k < i ==> !ops[k].Touches(q)
      {
        var found := ActsOn(j, q);
        if found {
          PrevOnUnique(ops[..i], q, j);
          return;
        }
        j := j - 1;
      }
    }

    /** The first operation after operation i that acts on q, or -1. */
    method NextOperationOnTarget(i: nat, q: nat) returns (j: int)
      requires i < |ops|
      ensures j == NextOn(ops, i, q)
    {
      j := i + 1;
      while j < |ops|
        invariant i < j <= |ops|
        invariant forall k :: i < k < j ==> !ops[k].Touches(q)
      {
        var found := ActsOn(j, q);
        if found { return; }
        j := j + 1;
      }
      j := -1;
    }

    // ---- The rewriter ----

    method EraseOp(i: nat)
      requires i < |ops|
      modifies this
      ensures ops == Without(old(ops), i)
    {
      ops := ops[..i] + ops[i + 1..];
    }

    /** Creates g right after operation i. */
    method CreateAfter(i: nat, g: Gate)
      requires i < |ops|
      modifies this
      ensures ops == Inserted(old(ops), i + 1, g)
    {
      ops := ops[..i + 1] + [g] + ops[i + 1..];
    }

    /** Creates g right before operation i. */
    method CreateBefore(i: nat, g: Gate)
      requires i < |ops|
      modifies this
      ensures ops == Inserted(old(ops), i, g)
    {
      ops := ops[..i] + [g] + ops[i..];
    }

    // ---- The pattern templates ----

    /** The tests of patternCancellation<T, T>(op, n, 1, n, 1). */
    method MatchCancellation(i: nat, k: Kind, n: nat) returns (j: int)
      requires i < |ops| && !k.Swap?
      ensures j == Partner(Cancellation([(k, n)]), ops[..i], ops[i])
    {
      var cur := ops[i];
      if !cur.Is(k, n) { return -1; }
      j := PreviousOperationOnTarget(i, cur.targets[0]);
      if j < 0 { return; }
      var prev := ops[j];
      if !prev.Is(k, n) { return -1; }
      if SortedDescending(cur.controls) != SortedDescending(prev.controls) { return -1; }
      if SortedDescending(cur.targets) != SortedDescending(prev.targets) { return -1; }
    }

    /** patternCancellation<T, T>(op, n, 1, n, 1). */
    method PatternCancellation(i: nat, k: Kind, n: nat) returns (matched: bool)
      requires i < |ops| && !k.Swap?
      modifies this
      ensures matched == (Partner(Cancellation([(k, n)]), old(ops[..i]), old(ops[i])) >= 0)
      ensures ops == Visit(Cancellation([(k, n)]), old(ops[..i]), old(ops[i])) + old(ops[i + 1..])
    {
      hide Visit, Partner, PairRule, ScanWire, SingleRule, PrevOn, Inserted, Without, Operation.WellFormed,
           Operation.Touches;
      ghost var done, rest := ops[..i], ops[i + 1..];
      var cur := ops[i];
      assert ops == done + [cur] + rest;
      var j := MatchCancellation(i, k, n);
      CancellationRule(k, n, done, cur);
      if j < 0 { return false; }
      EraseOp(i);
      ErasedAt(done, cur, rest);
      EraseOp(j);
      ErasedBefore(done, j, rest);
      return true;
    }

    /** The tests of commuteOperation<T1, T2>(op, n1, 1, n2, 1). */
    method MatchCommute(i: nat, k1: Kind, n1: nat, k2: Kind, n2: nat) returns (j: int)
      requires i < |ops| && !k1.Swap? && !k2.Swap?
      ensures j == Partner(Commutation(k1, n1, k2, n2), ops[..i], ops[i])
    {
      var cur := ops[i];
      if !cur.Is(k2, n2) { return -1; }
      j := PreviousOperationOnTarget(i, cur.targets[0]);
      if j < 0 { return; }
      var prev := ops[j];
      if !prev.Is(k1, n1) { return -1; }
      if prev.targets[0] != cur.targets[0] { return -1; }
    }

    /** commuteOperation<T1, T2>(op, n1, 1, n2, 1). */
    method CommuteOperation(i: nat, k1: Kind, n1: nat, k2: Kind, n2: nat)
      requires i < |ops| && !k1.Swap? && !k2.Swap?
      modifies this
      ensures ops == Visit(Commutation(k1, n1, k2, n2), old(ops[..i]), old(ops[i])) + old(ops[i + 1..])
    {
      hide Visit, Partner, PairRule, ScanWire, SingleRule, PrevOn, Inserted, Without, Operation.WellFormed,
           Operation.Touches;
      ghost var done, rest := ops[..i], ops[i + 1..];
      var cur := ops[i];
      assert ops == done + [cur] + rest;
      var j := MatchCommute(i, k1, n1, k2, n2);
      CommuteRule(Commutation(k1, n1, k2, n2), done, cur);
      if j < 0 { return; }
      var prev := ops[j];
      CreateAfter(i, prev);
      InsertedAt(done + [cur], rest, prev);
      assert ops == done + [cur] + ([prev] + rest);
      CreateBefore(i + 1, cur);
      InsertedAt(done + [cur], [prev] + rest, cur);
      assert ops == done + [cur] + ([cur, prev] + rest);
      EraseOp(i);
      ErasedAt(done, cur, [cur, prev] + rest);
      EraseOp(j);
      ErasedBefore(done, j, [cur, prev] + rest);
    }

    /** The tests of commuteCNotZ. */
    method MatchCNotZ(i: nat) returns (j: int)
      requires i < |ops|
      ensures j == Partner(CxPastZ, ops[..i], ops[i])
    {
      var cur := ops[i];
      if !cur.Is(Z, 0) { return -1; }
      j := PreviousOperationOnTarget(i, cur.targets[0]);
      if j < 0 { return; }
      var prev := ops[j];
      if !prev.Is(X, 1) { return -1; }
      if cur.targets[0] != prev.controls[0] { return -1; }
    }

    /** commuteCNotZ: the visited gate stays where it is. */
    method CommuteCNotZ(i: nat)
      requires i < |ops|
      modifies this
      ensures ops == Visit(CxPastZ, old(ops[..i]), old(ops[i])) + old(ops[i + 1..])
    {
      hide Visit, Partner, PairRule, ScanWire, SingleRule, PrevOn, Inserted, Without, Operation.WellFormed,
           Operation.Touches;
      ghost var done, rest := ops[..i], ops[i + 1..];
      var cur := ops[i];
      assert ops == done + [cur] + rest;
      var j := MatchCNotZ(i);
      CommuteRule(CxPastZ, done, cur);
      if j < 0 { return; }
      var prev := ops[j];
      CreateAfter(i, prev);
      InsertedAt(done + [cur], rest, prev);
      assert ops == done + ([cur, prev] + rest);
      EraseOp(j);
      ErasedBefore(done, j, [cur, prev] + rest);
    }

    /** The tests of commuteZCNot. */
    method MatchZCNot(i: nat) returns (j: int)
      requires i < |ops|
      ensures j == Partner(ZPastCx, ops[..i], ops[i])
    {
      var cur := ops[i];
      if !cur.Is(X, 1) { return -1; }
      j := PreviousOperationOnTarget(i, cur.controls[0]);
      if j < 0 { return; }
      var prev := ops[j];
      if !prev.Is(Z, 0) { return -1; }
      if prev.targets[0] != cur.controls[0] { return -1; }
    }

    /** commuteZCNot: the visited gate stays where it is. */
    method CommuteZCNot(i: nat)
      requires i < |ops|
      modifies this
      ensures ops == Visit(ZPastCx, old(ops[..i]), old(ops[i])) + old(ops[i + 1..])
    {
      hide Visit, Partner, PairRule, ScanWire, SingleRule, PrevOn, Inserted, Without, Operation.WellFormed,
           Operation.Touches;
      ghost var done, rest := ops[..i], ops[i + 1..];
      var cur := ops[i];
      assert ops == done + [cur] + rest;
      var j := MatchZCNot(i);
      CommuteRule(ZPastCx, done, cur);
      if j < 0 { return; }
      var prev := ops[j];
      CreateAfter(i, prev);
      InsertedAt(done + [cur], rest, prev);
      assert ops == done + ([cur, prev] + rest);
      EraseOp(j);
      ErasedBefore(done, j, [cur, prev] + rest);
    }

    /** The tests of patternSwitch<T1, T2, T3, T4>. */
    method MatchSwitch(i: nat, k1: Kind, k2: Kind, k3: Kind, k4: Kind) returns (j: int)
      requires i < |ops| && Nullary(k1) && Nullary(k2) && Nullary(k3) && Nullary(k4)
      ensures j == Partner(Switch(k1, k2, k3, k4), ops[..i], ops[i])
    {
      var cur := ops[i];
      if !cur.Is(k2, 0) { return -1; }
      j := PreviousOperationOnTarget(i, cur.targets[0]);
      if j < 0 { return; }
      if !ops[j].Is(k1, 0) { return -1; }
    }

    /** patternSwitch<T1, T2, T3, T4>. */
    method PatternSwitch(i: nat, k1: Kind, k2: Kind, k3: Kind, k4: Kind)
      requires i < |ops| && Nullary(k1) && Nullary(k2) && Nullary(k3) && Nullary(k4)
      modifies this
      ensures ops == Visit(Switch(k1, k2, k3, k4), old(ops[..i]), old(ops[i])) + old(ops[i + 1..])
    {
      hide Visit, Partner, PairRule, ScanWire, SingleRule, PrevOn, Inserted, Without, Operation.WellFormed,
           Operation.Touches;
      ghost var done, rest := ops[..i], ops[i + 1..];
      var cur := ops[i];
      assert ops == done + [cur] + rest;
      var j := MatchSwitch(i, k1, k2, k3, k4);
      SwitchRule(k1, k2, k3, k4, done, cur);
      if j < 0 { return; }
      var first, second := As(k3, cur), As(k4, ops[j]);
      CreateAfter(i, first);
      InsertedAt(done + [cur], rest, first);
      CreateAfter(i + 1, second);
      InsertedAt(done + [cur] + [first], rest, second);
      assert ops == done + [cur] + ([first, second] + rest);
      EraseOp(i);
      ErasedAt(done, cur, [first, second] + rest);
      EraseOp(j);
      ErasedBefore(done, j, [first, second] + rest);
    }

    /** The tests of SwitchPauliHOperation. */
    method MatchPauliH(i: nat) returns (j: int)
      requires i < |ops|
      ensures j == Partner(PauliPastH, ops[..i], ops[i])
    {
      var cur := ops[i];
      if !cur.Is(H, 0) { return -1; }
      j := PreviousOperationOnTarget(i, cur.targets[0]);
      if j < 0 { return; }
      var prev := ops[j];
      if prev.kind != X && prev.kind != Y && prev.kind != Z { return -1; }
      if |prev.controls| != 0 || |prev.targets| != 1 { return -1; }
    }

    method SwitchPauliHOperation(i: nat)
      requires i < |ops|
      modifies this
      ensures ops == Visit(PauliPastH, old(ops[..i]), old(ops[i])) + old(ops[i + 1..])
    {
      hide Visit, Partner, PairRule, ScanWire, SingleRule, PrevOn, Inserted, Without, Operation.WellFormed,
           Operation.Touches;
      ghost var done, rest := ops[..i], ops[i + 1..];
      var cur := ops[i];
      assert ops == done + [cur] + rest;
      var j := MatchPauliH(i);
      PauliRule(done, cur);
      if j < 0 { return; }
      var prev := ops[j];
      ghost var moved := As(PauliAfterH(prev.kind), prev);
      if prev.kind == X {
        CreateAfter(i, As(Z, prev));
      } else if prev.kind == Y {
        CreateAfter(i, As(Y, prev));
      } else {
        CreateAfter(i, As(X, prev));
      }
      InsertedAfter(done, cur, rest, moved);
      EraseOp(j);
      ErasedBefore(done, j, [cur, moved] + rest);
    }

    /** The tests of ReplaceHXHToZ and ReplaceHZHToX. */
    method MatchSandwich(i: nat, inner: Kind, result: Kind) returns (m: Option<(nat, nat)>)
      requires i < |ops| && Nullary(inner) && Nullary(result)
      ensures m == SandwichAt(Sandwich(inner, result), ops[..i], ops[i])
    {
      var cur := ops[i];
      if !cur.Is(H, 0) { return None; }
      var j := PreviousOperationOnTarget(i, cur.targets[0]);
      if j < 0 { return None; }
      if !ops[j].Is(inner, 0) { return None; }
      var h := PreviousOperationOnTarget(j, cur.targets[0]);
      assert ops[..i][..j] == ops[..j];
      if h < 0 { return None; }
      if !ops[h].Is(H, 0) { return None; }
      return Some((h, j));
    }

    /** ReplaceHXHToZ (inner X, result Z) and ReplaceHZHToX (inner Z, result X). */
    method ReplaceSandwich(i: nat, inner: Kind, result: Kind)
      requires i < |ops| && Nullary(inner) && Nullary(result)
      modifies this
      ensures ops == Visit(Sandwich(inner, result), old(ops[..i]), old(ops[i])) + old(ops[i + 1..])
    {
      hide Visit, SandwichAt, PrevOn, Inserted, Without, Operation.WellFormed, Operation.Touches;
      ghost var done, rest := ops[..i], ops[i + 1..];
      var cur := ops[i];
      assert ops == done + [cur] + rest;
      var m := MatchSandwich(i, inner, result);
      SandwichRule(inner, result, done, cur);
      if m == None { return; }
      var (h, j) := m.value;
      var g := Plain(result, [], cur.targets[0]);
      CreateAfter(i, g);
      InsertedAt(done + [cur], rest, g);
      assert ops == done + [cur] + ([g] + rest);
      EraseOp(i);
      ErasedAt(done, cur, [g] + rest);
      EraseOp(j);
      ErasedBefore(done, j, [g] + rest);
      EraseOp(h);
      ErasedBefore(Without(done, j), h, [g] + rest);
    }

    /** The tests of ReplaceSAdjZToS (fromAdj) and ReplaceSZToSAdj (not fromAdj). */
    method MatchSAndZ(i: nat, fromAdj: bool) returns (j: int)
      requires i < |ops|
      ensures j == Partner(SAndZ(fromAdj), ops[..i], ops[i])
    {
      var cur := ops[i];
      if !cur.Is(Z, 0) { return -1; }
      j := PreviousOperationOnTarget(i, cur.targets[0]);
      if j < 0 { return; }
      var prev := ops[j];
      if !prev.Is(S, 0) { return -1; }
      if prev.adj != fromAdj { return -1; }
    }

    /** ReplaceSAdjZToS (fromAdj) and ReplaceSZToSAdj (not fromAdj). */
    method ReplaceSAndZ(i: nat, fromAdj: bool)
      requires i < |ops|
      modifies this
      ensures ops == Visit(SAndZ(fromAdj), old(ops[..i]), old(ops[i])) + old(ops[i + 1..])
    {
      hide Visit, Partner, PairRule, ScanWire, SingleRule, PrevOn, Inserted, Without, Operation.Touches;
      ghost var done, rest := ops[..i], ops[i + 1..];
      var cur := ops[i];
      assert ops == done + [cur] + rest;
      var j := MatchSAndZ(i, fromAdj);
      SAndZRule(fromAdj, done, cur);
      if j < 0 { return; }
      var prev := ops[j];
      var g: Gate := Operation(S, !fromAdj, prev.params, prev.controls, prev.targets);
      CreateAfter(i, g);
      InsertedAt(done + [cur], rest, g);
      assert ops == done + [cur] + ([g] + rest);
      EraseOp(i);
      ErasedAt(done, cur, [g] + rest);
      EraseOp(j);
      ErasedBefore(done, j, [g] + rest);
    }

    // ---- The decompositions ----

    method CxToHCzHPattern(i: nat)
      requires i < |ops|
      modifies this
      ensures ops == Visit(CxAsHCzH, old(ops[..i]), old(ops[i])) + old(ops[i + 1..])
    {
      hide Visit, Inserted, Without, Operation.WellFormed, Operation.Touches;
      ghost var done, rest := ops[..i], ops[i + 1..];
      var g := ops[i];
      assert ops == done + [g] + rest;
      DecompositionRule(CxAsHCzH, done, g);
      if !g.Is(X, 1) { return; }
      var control, target := g.controls[0], g.targets[0];
      assert g.controls + g.targets == [control, target];
      DistinctSwapped(g);
      ghost var out := SingleRule(CxAsHCzH, g).value;
      EmittingStart(done, g, out, rest);
      CreateAfter(i, Plain(H, [], target));
      Emitting(done, g, out, 0, rest);
      CreateAfter(i + 1, Plain(Z, [target], control));
      Emitting(done, g, out, 1, rest);
      CreateAfter(i + 2, Plain(H, [], target));
      Emitting(done, g, out, 2, rest);
      EraseOp(i);
      ErasedAt(done, g, out + rest);
      EmittingEnd(done, g, out, rest);
    }

    method ReplaceCzToHCxH(i: nat)
      requires i < |ops|
      modifies this
      ensures ops == Visit(CzAsHCxH, old(ops[..i]), old(ops[i])) + old(ops[i + 1..])
    {
      hide Visit, Inserted, Without, Operation.WellFormed, Operation.Touches;
      ghost var done, rest := ops[..i], ops[i + 1..];
      var g := ops[i];
      assert ops == done + [g] + rest;
      DecompositionRule(CzAsHCxH, done, g);
      if !g.Is(Z, 1) { return; }
      var control, target := g.controls[0], g.targets[0];
      assert g.controls + g.targets == [control, target];
      DistinctSwapped(g);
      ghost var out := SingleRule(CzAsHCxH, g).value;
      EmittingStart(done, g, out, rest);
      CreateAfter(i, Plain(H, [], target));
      Emitting(done, g, out, 0, rest);
      CreateAfter(i + 1, Plain(X, [control], target));
      Emitting(done, g, out, 1, rest);
      CreateAfter(i + 2, Plain(H, [], target));
      Emitting(done, g, out, 2, rest);
      EraseOp(i);
      ErasedAt(done, g, out + rest);
      EmittingEnd(done, g, out, rest);
    }

    method ReverseCNot(i: nat)
      requires i < |ops|
      modifies this
      ensures ops == Visit(CxReversed, old(ops[..i]), old(ops[i])) + old(ops[i + 1..])
    {
      hide Visit, Inserted, Without, Operation.WellFormed, Operation.Touches;
      ghost var done, rest := ops[..i], ops[i + 1..];
      var g := ops[i];
      assert ops == done + [g] + rest;
      DecompositionRule(CxReversed, done, g);
      if !g.Is(X, 1) { return; }
      var control, target := g.controls[0], g.targets[0];
      assert g.controls + g.targets == [control, target];
      DistinctSwapped(g);
      ghost var out := SingleRule(CxReversed, g).value;
      EmittingStart(done, g, out, rest);
      CreateAfter(i, Plain(H, [], target));
      Emitting(done, g, out, 0, rest);
      CreateAfter(i + 1, Plain(H, [], control));
      Emitting(done, g, out, 1, rest);
      CreateAfter(i + 2, Plain(X, [target], control));
      Emitting(done, g, out, 2, rest);
      CreateAfter(i + 3, Plain(H, [], target));
      Emitting(done, g, out, 3, rest);
      CreateAfter(i + 4, Plain(H, [], control));
      Emitting(done, g, out, 4, rest);
      EraseOp(i);
      ErasedAt(done, g, out + rest);
      EmittingEnd(done, g, out, rest);
    }

    // ---- The walk ----

    /** A list of cancellation patterns tried on one operation, up to the first that fires. */
    method TryCancellations(i: nat, patterns: seq<(Kind, nat)>)
      requires i < |ops| && forall kn <- patterns :: !kn.0.Swap?
      modifies this
      ensures ops == Visit(Cancellation(patterns), old(ops[..i]), old(ops[i])) + old(ops[i + 1..])
    {
      ghost var was := ops;
      for m := 0 to |patterns|
        invariant ops == was
        invariant forall l :: 0 <= l < m ==> Partner(Cancellation([patterns[l]]), was[..i], was[i]) < 0
      {
        var matched := PatternCancellation(i, patterns[m].0, patterns[m].1);
        if matched {
          OnePatternFires(patterns, m, was[..i], was[i]);
          return;
        }
        assert ops == was[..i] + [was[i]] + was[i + 1..] == was;
      }
      NoPatternFires(patterns, was[..i], was[i]);
      assert ops == was[..i] + [was[i]] + was[i + 1..];
    }

    /** The callback of a pass on operation i. */
    method VisitOp(pass: Pass, i: nat)
      requires i < |ops|
      modifies this
      ensures ops == Visit(pass, old(ops[..i]), old(ops[i])) + old(ops[i + 1..])
    {
      match pass
      case Cancellation(ps) => TryCancellations(i, ps);
      case Commutation(k1, n1, k2, n2) => CommuteOperation(i, k1, n1, k2, n2);
      case CxPastZ => CommuteCNotZ(i);
      case ZPastCx => CommuteZCNot(i);
      case Switch(k1, k2, k3, k4) => PatternSwitch(i, k1, k2, k3, k4);
      case PauliPastH => SwitchPauliHOperation(i);
      case Sandwich(inner, result) => ReplaceSandwich(i, inner, result);
      case SAndZ(fromAdj) => ReplaceSAndZ(i, fromAdj);
      case CxAsHCzH => CxToHCzHPattern(i);
      case CzAsHCxH => ReplaceCzToHCxH(i);
      case CxReversed => ReverseCNot(i);
    }

    /** kernel.walk: the walker holds the successor of the operation it calls back on, so what stays
        the same across a callback is the number of operations not visited yet. */
    method RunPass(pass: Pass)
      modifies this
      ensures ops == Walk(pass, old(ops))
    {
      hide Visit, Walk, Operation.WellFormed;
      ghost var was := ops;
      WalkStart(pass, was);
      var rest := |ops|;
      while rest > 0
        invariant 0 <= rest <= |was|
        invariant ops == Walk(pass, was[..|was| - rest]) + was[|was| - rest..]
      {
        var i := |ops| - rest;
        WalkStep(pass, was, |was| - rest, ops);
        rest := rest - 1;
        VisitOp(pass, i);
      }
      assert was[..|was|] == was;
    }
  }

  lemma WalkStart(pass: Pass, was: seq<Gate>)
    ensures was == Walk(pass, was[..0]) + was[0..]
  {
    assert was[..0] == [];
  }

  /** One more visit: the walker stands on operation k of the original block. */
  lemma WalkStep(pass: Pass, was: seq<Gate>, k: nat, now: seq<Gate>)
    requires k < |was| && now == Walk(pass, was[..k]) + was[k..]
    ensures var i := |now| - (|was| - k);
            && i >= 0 && now[..i] == Walk(pass, was[..k]) && now[i] == was[k] && now[i + 1..] == was[k + 1..]
    ensures Walk(pass, was[..k + 1]) == Visit(pass, Walk(pass, was[..k]), was[k])
  {
    hide Visit, Operation.WellFormed;
    assert was[..k + 1][..k] == was[..k];
  }

  function Inserted(gs: seq<Gate>, i: nat, g: Gate): seq<Gate>
    requires i <= |gs|
  {
    gs[..i] + [g] + gs[i..]
  }

  lemma InsertedAt(pre: seq<Gate>, tail: seq<Gate>, g: Gate)
    ensures Inserted(pre + tail, |pre|, g) == pre + [g] + tail
  {
  }

  lemma InsertedAfter(done: seq<Gate>, g: Gate, rest: seq<Gate>, moved: Gate)
    ensures Inserted(done + [g] + rest, |done| + 1, moved) == done + ([g, moved] + rest)
  {
  }

  // The operations of a decomposition are created one after the other behind the decomposed gate.

  lemma EmittingStart(done: seq<Gate>, g: Gate, out: seq<Gate>, rest: seq<Gate>)
    ensures done + [g] + rest == done + [g] + out[..0] + rest
  {
  }

  lemma Emitting(done: seq<Gate>, g: Gate, out: seq<Gate>, n: nat, rest: seq<Gate>)
    requires n < |out|
    ensures Inserted(done + [g] + out[..n] + rest, |done| + 1 + n, out[n]) == done + [g] + out[..n + 1] + rest
  {
    InsertedAt(done + [g] + out[..n], rest, out[n]);
    assert out[..n] + [out[n]] == out[..n + 1];
  }

  lemma EmittingEnd(done: seq<Gate>, g: Gate, out: seq<Gate>, rest: seq<Gate>)
    ensures done + [g] + out[..|out|] + rest == done + [g] + (out + rest) && done + (out + rest) == done + out + rest
  {
  }

  lemma ErasedAt(pre: seq<Gate>, g: Gate, tail: seq<Gate>)
    ensures Without(pre + [g] + tail, |pre|) == pre + tail
  {
  }

  // ---- What a visit of each pass amounts to ----

  lemma CancellationRule(k: Kind, n: nat, done: seq<Gate>, g: Gate)
    requires !k.Swap?
    ensures var j := Partner(Cancellation([(k, n)]), done, g);
            Visit(Cancellation([(k, n)]), done, g) == if j < 0 then done + [g] else Without(done, j)
  {
    hide PrevOn, SortedDescending;
  }

  lemma DecompositionRule(pass: Pass, done: seq<Gate>, g: Gate)
    requires pass in {CxAsHCzH, CzAsHCxH, CxReversed}
    ensures SingleRule(pass, g).Some? <==> g.Is(if pass == CzAsHCxH then Z else X, 1)
    ensures Visit(pass, done, g) == if SingleRule(pass, g).Some? then done + SingleRule(pass, g).value else done + [g]
  {
    hide PrevOn;
  }

  /** Control and target of a gate with one of each may trade places. */
  lemma DistinctSwapped(g: Gate)
    requires |g.controls| == 1 && |g.targets| == 1
    ensures Distinct(g.targets + g.controls)
  {
    OperandsApart(g);
    assert g.targets + g.controls == [g.targets[0], g.controls[0]];
    assert [g.targets[0], g.controls[0]][1..] == [g.controls[0]];
  }

  lemma CommuteRule(pass: Pass, done: seq<Gate>, g: Gate)
    requires pass.Commutation? || pass.CxPastZ? || pass.ZPastCx?
    ensures var j := Partner(pass, done, g);
            Visit(pass, done, g) == if j < 0 then done + [g] else Without(done, j) + [g, done[j]]
  {
    hide PrevOn;
  }

  lemma SwitchRule(k1: Kind, k2: Kind, k3: Kind, k4: Kind, done: seq<Gate>, g: Gate)
    requires Nullary(k1) && Nullary(k2) && Nullary(k3) && Nullary(k4)
    ensures var j := Partner(Switch(k1, k2, k3, k4), done, g);
            && (j >= 0 ==> done[j].kind == k1 && g.kind == k2)
            && Visit(Switch(k1, k2, k3, k4), done, g)
               == if j < 0 then done + [g] else Without(done, j) + [As(k3, g), As(k4, done[j])]
  {
    hide PrevOn;
  }

  lemma PauliRule(done: seq<Gate>, g: Gate)
    ensures var j := Partner(PauliPastH, done, g);
            && (j >= 0 ==> Pauli(done[j].kind))
            && Visit(PauliPastH, done, g)
               == if j < 0 then done + [g] else Without(done, j) + [g, As(PauliAfterH(done[j].kind), done[j])]
  {
    hide PrevOn;
  }

  lemma SandwichRule(inner: Kind, result: Kind, done: seq<Gate>, g: Gate)
    requires Nullary(inner) && Nullary(result)
    ensures var m := SandwichAt(Sandwich(inner, result), done, g);
            && (m.Some? ==> |g.targets| == 1)
            && Visit(Sandwich(inner, result), done, g)
               == if m == None then done + [g]
                  else Without(Without(done, m.value.1), m.value.0) + [Plain(result, [], g.targets[0])]
  {
    hide PrevOn;
  }

  lemma SAndZRule(fromAdj: bool, done: seq<Gate>, g: Gate)
    ensures var j := Partner(SAndZ(fromAdj), done, g);
            && (j >= 0 ==> done[j].Is(S, 0))
            && Visit(SAndZ(fromAdj), done, g)
               == if j < 0 then done + [g]
                  else Without(done, j)
                       + [Operation(S, !fromAdj, done[j].params, done[j].controls, done[j].targets)]
  {
    hide PrevOn;
  }

  // ---- Cutting and extending a block ----

  lemma ErasedBefore(done: seq<Gate>, j: nat, tail: seq<Gate>)
    requires j < |done|
    ensures Without(done + tail, j) == Without(done, j) + tail
    ensures |Without(done, j)| == |done| - 1
  {
  }

  lemma OnePatternFires(ps: seq<(Kind, nat)>, m: nat, done: seq<Gate>, g: Gate)
    requires m < |ps| && forall kn <- ps :: !kn.0.Swap?
    requires Partner(Cancellation([ps[m]]), done, g) >= 0
    ensures Visit(Cancellation(ps), done, g) == Visit(Cancellation([ps[m]]), done, g)
  {
    hide PrevOn, SortedDescending;
    assert (g.kind, |g.controls|) in [ps[m]];
    assert ps[m] in ps;
  }

  lemma NoPatternFires(ps: seq<(Kind, nat)>, done: seq<Gate>, g: Gate)
    requires forall kn <- ps :: !kn.0.Swap?
    requires forall l :: 0 <= l < |ps| ==> Partner(Cancellation([ps[l]]), done, g) < 0
    ensures Visit(Cancellation(ps), done, g) == done + [g]
  {
    hide PrevOn, SortedDescending;
    if ScanWire(Cancellation(ps), g).Some? {
      var l :| 0 <= l < |ps| && ps[l] == (g.kind, |g.controls|);
      assert (g.kind, |g.controls|) in [ps[l]];
    }
  }
}
