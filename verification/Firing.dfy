/** What each shipped pass does, pass by pass: which gates it reacts to and what it leaves behind, in
    terms of kinds, operand lists and the gates in between. */
module Firing {
  import opened Gates
  import opened Scans
  import opened Passes
  import opened Kernels
  import opened Soundness
  import opened Progress

  predicate On(g: Gate, q: nat) { q in g.targets || q in g.controls }

  /** Gate j is on qubit q, and no gate between j and k is. */
  predicate LastBefore(gs: seq<Gate>, j: nat, k: nat, q: nat)
    requires j < k < |gs|
  {
    On(gs[j], q) && forall i :: j < i < k ==> !On(gs[i], q)
  }

  predicate Bare(g: Gate, k: Kind) { g.kind == k && g.controls == [] }

  predicate IsCx(g: Gate) { g.kind == X && |g.controls| == 1 }

  /** Equal gates but for the adjoint flag, of a kind that cancels, under at most one control. */
  predicate Twins(p: Gate, g: Gate) {
    && p.kind == g.kind && p.controls == g.controls && p.targets == g.targets
    && |g.controls| <= 1 && g.kind in {X, Y, Z, H}
  }

  /** The passes that rewrite two gates at a time. */
  predicate TwoGates(pass: Pass) {
    Cancelling(pass) || Commuting(pass) || Switching(pass) || pass.SAndZ?
  }

  /** The pass rewrites p and g when p is the last gate before g on the wire that counts. */
  predicate Reacts(pass: Pass, p: Gate, g: Gate) {
    match pass
    case Cancellation(_) =>
      Twins(p, g) && (pass == ReductionPattern || (pass == CancellationDoubleCx && IsCx(g)))
    case Commutation(_, _, _, _) =>
      && p.targets == g.targets
      && (|| (pass == CommuteCxRx && IsCx(p) && Bare(g, Rx))
          || (pass == CommuteCxX && IsCx(p) && Bare(g, X))
          || (pass == CommuteRxCx && Bare(p, Rx) && IsCx(g))
          || (pass == CommuteXCx && Bare(p, X) && IsCx(g)))
    case CxPastZ => pass == CommuteCxZ && IsCx(p) && Bare(g, Z) && p.controls == g.targets
    case ZPastCx => pass == CommuteZCx && Bare(p, Z) && IsCx(g) && p.targets == g.controls
    case Switch(_, _, _, _) =>
      || (pass == SwitchXH && Bare(p, X) && Bare(g, H))
      || (pass == SwitchYH && Bare(p, Y) && Bare(g, H))
      || (pass == SwitchZH && Bare(p, Z) && Bare(g, H))
      || (pass == SwitchHX && Bare(p, H) && Bare(g, X))
      || (pass == SwitchHY && Bare(p, H) && Bare(g, Y))
      || (pass == SwitchHZ && Bare(p, H) && Bare(g, Z))
    case PauliPastH => pass == SwitchPauliH && (Bare(p, X) || Bare(p, Y) || Bare(p, Z)) && Bare(g, H)
    case SAndZ(_) => Bare(p, S) && Bare(g, Z) && ((pass == SAdjToS && p.adj) || (pass == SToSAdj && !p.adj))
    case _ => false
  }

  /** The wire that counts: the target of g, except that a Z is sought on the control of a CX. */
  function WireOf(pass: Pass, g: Gate): nat {
    if pass == CommuteZCx && IsCx(g) then g.controls[0] else g.targets[0]
  }

  /** The pass rewrites gate k together with gate j in front of it. */
  predicate Acts(pass: Pass, gs: seq<Gate>, j: nat, k: nat)
    requires j < k < |gs|
  {
    Reacts(pass, gs[j], gs[k]) && LastBefore(gs, j, k, WireOf(pass, gs[k]))
  }

  /** A gate without controls or parameters on the target of g, with the flag of g. */
  function Renamed(k: Kind, g: Gate): Operation { Operation(k, g.adj, [], [], g.targets) }

  /** What the pass leaves at the place of gate g when it rewrites g with p. */
  function Leaves(pass: Pass, p: Gate, g: Gate): seq<Operation> {
    match pass
    case Cancellation(_) => []
    case Commutation(_, _, _, _) => [g, p]
    case CxPastZ => [g, p]
    case ZPastCx => [g, p]
    case Switch(_, _, _, _) =>
      if pass == SwitchXH then [Renamed(H, g), Renamed(Z, p)]
      else if pass == SwitchYH then [Renamed(H, g), Renamed(Y, p)]
      else if pass == SwitchZH then [Renamed(H, g), Renamed(X, p)]
      else if pass == SwitchHX then [Renamed(Z, g), Renamed(H, p)]
      else if pass == SwitchHY then [Renamed(Y, g), Renamed(H, p)]
      else [Renamed(X, g), Renamed(H, p)]
    case PauliPastH => [g, Renamed(if p.kind == X then Z else if p.kind == Y then Y else X, p)]
    case SAndZ(_) => [Operation(S, pass == SToSAdj, [], [], p.targets)]
    case _ => []
  }

  // ---- The scan finds the last gate before ----

  /** The scan from position k finds the last gate before k. */
  lemma {:induction false} LastIsScanned(done: seq<Gate>, g: Gate, k: nat, j: nat, q: nat)
    requires j < k <= |done|
    ensures LastBefore(done + [g], j, k, q) <==> PrevOn(done[..k], q) == j
  {
    hide PrevOn, Operation.WellFormed;
    var all := done + [g];
    forall i | 0 <= i < k ensures On(all[i], q) <==> done[..k][i].Touches(q) {
      assert all[i] == done[i] == done[..k][i];
    }
    if LastBefore(all, j, k, q) {
      forall i | j < i < k ensures !done[..k][i].Touches(q) {
        assert !On(all[i], q);
      }
      PrevOnUnique(done[..k], q, j);
    }
    if PrevOn(done[..k], q) == j {
      forall i | j < i < k ensures !On(all[i], q) {
      }
    }
  }

  lemma {:induction false} FoundLast(pass: Pass, done: seq<Gate>, g: Gate, j: nat)
    requires j < |done| && ScanWire(pass, g).Some?
    ensures Partner(pass, done, g) == j
       <==> LastBefore(done + [g], j, |done|, ScanWire(pass, g).value) && PairRule(pass, done[j], g).Some?
  {
    hide PairRule, ScanWire, LastBefore, Operation.WellFormed;
    LastIsScanned(done, g, |done|, j, ScanWire(pass, g).value);
    assert done[..|done|] == done;
  }

  // ---- The rule of each pass ----

  lemma Sizes(g: Gate)
    ensures |g.targets| == (if g.kind == Swap then 2 else 1) && |g.params| == ParamCount(g.kind)
  {
  }

  /** The operand lists that cancellation compares after sorting hold at most one qubit each. */
  lemma {:induction false} SortedOne(s: seq<nat>, r: seq<nat>)
    requires |s| <= 1 && |s| == |r|
    ensures SortedDescending(s) == SortedDescending(r) <==> s == r
  {
    SortDecides(s, r);
    if s != [] && SortedDescending(s) == SortedDescending(r) { SortedWires(s, r); }
  }

  /** The rule fires on the pairs of the table and leaves what the table says. */
  predicate RuleIs(pass: Pass, p: Gate, g: Gate) {
    && (Reacts(pass, p, g) <==> ScanWire(pass, g).Some? && PairRule(pass, p, g).Some?)
    && (Reacts(pass, p, g) ==> ScanWire(pass, g).value == WireOf(pass, g)
                               && PairRule(pass, p, g).value == Leaves(pass, p, g))
  }

  lemma {:induction false} ReductionScan(g: Gate)
    ensures ScanWire(ReductionPattern, g)
         == if g.kind in {X, Y, Z, H} && |g.controls| <= 1 then Some(g.targets[0]) else None
  {
    hide Distinct;
    var ps := [(X, 1), (X, 0), (Y, 1), (Y, 0), (Z, 1), (Z, 0), (H, 1), (H, 0)];
    assert (g.kind, |g.controls|) in ps <==> g.kind in {X, Y, Z, H} && |g.controls| <= 1;
  }

  lemma {:induction false} DoubleGateRuleIs(p: Gate, g: Gate)
    ensures RuleIs(ReductionPattern, p, g)
  {
    hide SortedDescending, Distinct, ScanWire;
    ReductionScan(g);
    if p.kind == g.kind && |p.controls| == |g.controls| <= 1 && |p.targets| == |g.targets| == 1 {
      SortedOne(g.controls, p.controls);
      SortedOne(g.targets, p.targets);
    }
  }

  lemma {:induction false} DoubleCxRuleIs(p: Gate, g: Gate)
    ensures RuleIs(CancellationDoubleCx, p, g)
  {
    hide SortedDescending, Distinct;
    if p.kind == g.kind && |p.controls| == |g.controls| <= 1 && |p.targets| == |g.targets| == 1 {
      SortedOne(g.controls, p.controls);
      SortedOne(g.targets, p.targets);
    }
  }

  lemma {:induction false} CommutationRule(p: Gate, g: Gate, k1: Kind, n1: nat, k2: Kind, n2: nat)
    requires k1 != Swap && k2 != Swap
    ensures var pass: Pass := Commutation(k1, n1, k2, n2);
            && (ScanWire(pass, g).Some? && PairRule(pass, p, g).Some?
                <==> p.kind == k1 && |p.controls| == n1 && g.kind == k2 && |g.controls| == n2 && p.targets == g.targets)
            && (ScanWire(pass, g).Some? && PairRule(pass, p, g).Some? ==>
                  ScanWire(pass, g).value == g.targets[0] && PairRule(pass, p, g).value == [g, p])
  {
    hide Operation.WellFormed;
    Sizes(p);
    Sizes(g);
  }

  lemma {:induction false} TargetRulesAre(p: Gate, g: Gate)
    ensures RuleIs(CommuteCxRx, p, g) && RuleIs(CommuteCxX, p, g)
    ensures RuleIs(CommuteRxCx, p, g) && RuleIs(CommuteXCx, p, g)
  {
    hide ScanWire, PairRule, Operation.WellFormed;
    CommutationRule(p, g, X, 1, Rx, 0);
    CommutationRule(p, g, X, 1, X, 0);
    CommutationRule(p, g, Rx, 0, X, 1);
    CommutationRule(p, g, X, 0, X, 1);
  }

  lemma {:induction false} ControlRulesAre(p: Gate, g: Gate)
    ensures RuleIs(CommuteCxZ, p, g) && RuleIs(CommuteZCx, p, g)
  {
    hide Operation.WellFormed;
    Sizes(p);
    Sizes(g);
  }

  lemma {:induction false} SwitchRule(p: Gate, g: Gate, k1: Kind, k2: Kind, k3: Kind, k4: Kind)
    requires Nullary(k1) && Nullary(k2) && Nullary(k3) && Nullary(k4)
    ensures var pass: Pass := Switch(k1, k2, k3, k4);
            && (ScanWire(pass, g).Some? && PairRule(pass, p, g).Some? <==> Bare(p, k1) && Bare(g, k2))
            && (ScanWire(pass, g).Some? && PairRule(pass, p, g).Some? ==>
                  ScanWire(pass, g).value == g.targets[0]
                  && PairRule(pass, p, g).value == [Renamed(k3, g), Renamed(k4, p)])
  {
    hide Operation.WellFormed;
    Sizes(p);
    Sizes(g);
  }

  lemma {:induction false} PauliFirstRulesAre(p: Gate, g: Gate)
    ensures RuleIs(SwitchXH, p, g) && RuleIs(SwitchYH, p, g) && RuleIs(SwitchZH, p, g)
  {
    hide ScanWire, PairRule, Bare, Renamed, Operation.WellFormed;
    SwitchRule(p, g, X, H, H, Z);
    SwitchRule(p, g, Y, H, H, Y);
    SwitchRule(p, g, Z, H, H, X);
  }

  lemma {:induction false} HFirstRulesAre(p: Gate, g: Gate)
    ensures RuleIs(SwitchHX, p, g) && RuleIs(SwitchHY, p, g) && RuleIs(SwitchHZ, p, g)
  {
    hide ScanWire, PairRule, Bare, Renamed, Operation.WellFormed;
    SwitchRule(p, g, H, X, Z, H);
    SwitchRule(p, g, H, Y, Y, H);
    SwitchRule(p, g, H, Z, X, H);
  }

  lemma {:induction false} PauliRuleIs(p: Gate, g: Gate)
    ensures RuleIs(SwitchPauliH, p, g)
  {
    hide Operation.WellFormed;
    Sizes(p);
    Sizes(g);
  }

  lemma {:induction false} MergingRulesAre(p: Gate, g: Gate)
    ensures RuleIs(SAdjToS, p, g) && RuleIs(SToSAdj, p, g)
  {
    hide Operation.WellFormed;
    Sizes(p);
    Sizes(g);
  }

  lemma {:induction false} EveryRuleIs(pass: Pass, p: Gate, g: Gate)
    requires TwoGates(pass)
    ensures RuleIs(pass, p, g)
  {
    hide RuleIs;
    DoubleGateRuleIs(p, g);
    DoubleCxRuleIs(p, g);
    TargetRulesAre(p, g);
    ControlRulesAre(p, g);
    PauliFirstRulesAre(p, g);
    HFirstRulesAre(p, g);
    PauliRuleIs(p, g);
    MergingRulesAre(p, g);
  }

  // ---- Visits ----

  /** The gate that a visit finds is the one that the table names. */
  lemma {:induction false} PartnerExactly(pass: Pass, done: seq<Gate>, g: Gate, j: nat)
    requires TwoGates(pass) && j < |done|
    ensures Partner(pass, done, g) == j <==> Acts(pass, done + [g], j, |done|)
  {
    hide SortedDescending, LastBefore, PairRule, ScanWire, Reacts, WireOf, PrevOn, Operation.WellFormed;
    assert (done + [g])[j] == done[j] && (done + [g])[|done|] == g;
    EveryRuleIs(pass, done[j], g);
    if ScanWire(pass, g).Some? {
      FoundLast(pass, done, g, j);
    }
  }

  lemma {:induction false} VisitFinding(pass: Pass, done: seq<Gate>, g: Gate, j: nat)
    requires TwoGates(pass) && j < |done| && Acts(pass, done + [g], j, |done|)
    ensures Visit(pass, done, g) == done[..j] + done[j + 1..] + Leaves(pass, done[j], g)
  {
    hide LastBefore, Reacts, WireOf, Acts, Leaves, TwoGates, PrevOn, ScanWire, PairRule, Partner, Operation.WellFormed;
    PartnerExactly(pass, done, g, j);
    NoOtherRule(pass, g);
    EveryRuleIs(pass, done[j], g);
    ActsReacts(pass, done, g, j);
  }

  lemma {:induction false} VisitFindingNone(pass: Pass, done: seq<Gate>, g: Gate)
    requires TwoGates(pass) && forall j: nat :: j < |done| ==> !Acts(pass, done + [g], j, |done|)
    ensures Visit(pass, done, g) == done + [g]
  {
    hide Acts, TwoGates, PrevOn, ScanWire, PairRule, Partner, Operation.WellFormed;
    NoOtherRule(pass, g);
    var j := Partner(pass, done, g);
    if j >= 0 { PartnerExactly(pass, done, g, j); }
  }

  /** Main theorem on callbacks.  The callback of a two-gate pass on g takes the gate that the table names
      out of the block and leaves what the table says at the place of g; without such a gate it
      changes nothing. */
  lemma {:induction false} VisitExactly(pass: Pass, done: seq<Gate>, g: Gate)
    requires TwoGates(pass)
    ensures forall j: nat :: j < |done| && Acts(pass, done + [g], j, |done|) ==>
              Visit(pass, done, g) == done[..j] + done[j + 1..] + Leaves(pass, done[j], g)
    ensures (forall j: nat :: j < |done| ==> !Acts(pass, done + [g], j, |done|)) ==> Visit(pass, done, g) == done + [g]
  {
    hide Acts, TwoGates, Visit, Leaves, Operation.WellFormed;
    forall j: nat | j < |done| && Acts(pass, done + [g], j, |done|)
      ensures Visit(pass, done, g) == done[..j] + done[j + 1..] + Leaves(pass, done[j], g)
    {
      VisitFinding(pass, done, g, j);
    }
    if forall j: nat :: j < |done| ==> !Acts(pass, done + [g], j, |done|) {
      VisitFindingNone(pass, done, g);
    }
  }

  lemma ActsReacts(pass: Pass, done: seq<Gate>, g: Gate, j: nat)
    requires j < |done| && Acts(pass, done + [g], j, |done|)
    ensures Reacts(pass, done[j], g)
  {
    hide Reacts, LastBefore;
    assert (done + [g])[j] == done[j] && (done + [g])[|done|] == g;
  }

  lemma NoOtherRule(pass: Pass, g: Gate)
    requires TwoGates(pass)
    ensures !pass.Sandwich? && SingleRule(pass, g) == None
  {
  }

  /** A block is stable exactly when the table names no two of its gates. */
  lemma {:induction false} StableExactly(pass: Pass, gs: seq<Gate>)
    requires TwoGates(pass)
    ensures Stable(pass, gs) <==> forall j: nat, k: nat :: j < k < |gs| ==> !Acts(pass, gs, j, k)
  {
    hide Partner, Acts, Operation.WellFormed;
    forall j: nat, k: nat | j < k < |gs|
      ensures Partner(pass, gs[..k], gs[k]) == j <==> Acts(pass, gs, j, k)
    {
      PartnerExactly(pass, gs[..k], gs[k], j);
      ActsPrefix(pass, gs, j, k);
    }
    if Stable(pass, gs) {
      forall j: nat, k: nat | j < k < |gs| ensures !Acts(pass, gs, j, k) {
        assert Partner(pass, gs[..k], gs[k]) < 0;
      }
    }
    if !Stable(pass, gs) {
      var k :| 0 <= k < |gs| && Partner(pass, gs[..k], gs[k]) >= 0;
      assert Acts(pass, gs, Partner(pass, gs[..k], gs[k]), k);
    }
  }

  lemma {:induction false} ActsPrefix(pass: Pass, gs: seq<Gate>, j: nat, k: nat)
    requires j < k < |gs|
    ensures Acts(pass, gs[..k] + [gs[k]], j, k) <==> Acts(pass, gs, j, k)
  {
    hide Reacts, WireOf, On, Operation.WellFormed;
    assert forall i :: 0 <= i <= k ==> (gs[..k] + [gs[k]])[i] == gs[i];
  }

  /** Settling ends in a block of which the table names no two gates. */
  lemma {:induction false} SettledExactly(pass: Pass, gs: seq<Gate>)
    requires Moving(pass)
    ensures var r := Settled(pass, gs); forall j: nat, k: nat :: j < k < |r| ==> !Acts(pass, r, j, k)
  {
    hide Acts, Stable, Settled;
    SettledStable(pass, gs);
    StableExactly(pass, Settled(pass, gs));
  }

  /** SwitchPauliH moves every uncontrolled X, Y and Z behind the H that finds it, as Z, Y and X. */
  lemma {:induction false} PauliMoves(done: seq<Gate>, g: Gate, j: nat)
    requires j < |done| && g.kind == H && g.controls == [] && PrevOn(done, g.targets[0]) == j
    requires done[j].controls == [] && done[j].kind in {X, Y, Z}
    ensures var p := done[j];
            Visit(SwitchPauliH, done, g) == done[..j] + done[j + 1..] + [g]
              + [Operation(if p.kind == X then Z else if p.kind == Y then Y else X, p.adj, [], [], p.targets)]
  {
    hide Visit, PrevOn, Distinct, LastBefore;
    LastIsScanned(done, g, |done|, j, g.targets[0]);
    assert done[..|done|] == done && (done + [g])[j] == done[j] && (done + [g])[|done|] == g;
    VisitFinding(SwitchPauliH, done, g, j);
  }

  /** Everywhere else it changes nothing. */
  lemma {:induction false} PauliStays(done: seq<Gate>, g: Gate)
    requires var j := if g.kind == H && g.controls == [] then PrevOn(done, g.targets[0]) else -1;
             j < 0 || done[j].controls != [] || done[j].kind !in {X, Y, Z}
    ensures Visit(SwitchPauliH, done, g) == done + [g]
  {
    hide Visit, PrevOn, Distinct, LastBefore;
    forall j: nat | j < |done| ensures !Acts(SwitchPauliH, done + [g], j, |done|) {
      LastIsScanned(done, g, |done|, j, g.targets[0]);
      assert done[..|done|] == done && (done + [g])[j] == done[j] && (done + [g])[|done|] == g;
    }
    VisitFindingNone(SwitchPauliH, done, g);
  }

  /** In the settled block no uncontrolled H finds an uncontrolled X, Y or Z. */
  lemma {:induction false} PauliSettled(gs: seq<Gate>, k: nat)
    requires var r := Settled(SwitchPauliH, gs); k < |r| && r[k].kind == H && r[k].controls == []
    ensures var r := Settled(SwitchPauliH, gs);
            var j := PrevOn(r[..k], r[k].targets[0]);
            j >= 0 ==> r[j].controls != [] || r[j].kind !in {X, Y, Z}
  {
    hide Settled, PrevOn, Distinct, LastBefore;
    var r := Settled(SwitchPauliH, gs);
    var j := PrevOn(r[..k], r[k].targets[0]);
    SettledExactly(SwitchPauliH, gs);
    if j >= 0 {
      assert !Acts(SwitchPauliH, r, j, k) && r[..k][j] == r[j];
      LastIsScanned(r[..k], r[k], k, j, r[k].targets[0]);
      assert r[..k][..k] == r[..k];
      ActsPrefix(SwitchPauliH, r, j, k);
      assert (r[..k] + [r[k]])[j] == r[j] && (r[..k] + [r[k]])[k] == r[k];
    }
  }

  // ---- Three gates at a time, and one ----

  /** H, an inner gate and H without controls, the last three gates on their qubit. */
  predicate Sandwiches(gs: seq<Gate>, i: nat, j: nat, k: nat, inner: Kind) {
    && i < j < k < |gs| && Bare(gs[i], H) && Bare(gs[j], inner) && Bare(gs[k], H)
    && LastBefore(gs, i, j, gs[k].targets[0]) && LastBefore(gs, j, k, gs[k].targets[0])
  }

  lemma {:induction false} SandwichExactly(done: seq<Gate>, g: Gate, inner: Kind, i: nat, j: nat)
    requires inner == X || inner == Z
    ensures SandwichAt(if inner == X then HXHToZ else HZHToX, done, g) == Some((i, j))
       <==> Sandwiches(done + [g], i, j, |done|, inner)
  {
    hide LastBefore, PrevOn, Distinct;
    var all := done + [g];
    assert all[|done|] == g && forall l :: 0 <= l < |done| ==> all[l] == done[l];
    if i < j < |done| && g.kind == H {
      LastIsScanned(done, g, |done|, j, g.targets[0]);
      LastIsScanned(done, g, j, i, g.targets[0]);
      assert done[..|done|] == done;
    }
  }

  /** HXHToZ and HZHToX take the first H and the inner gate out of the block and leave the conjugate of
      the inner gate at the place of the last H. */
  lemma {:induction false} SandwichVisitExactly(done: seq<Gate>, g: Gate, inner: Kind)
    requires inner == X || inner == Z
    ensures var after := Visit(if inner == X then HXHToZ else HZHToX, done, g);
            && (forall i: nat, j: nat :: Sandwiches(done + [g], i, j, |done|, inner) ==>
                  after == done[..i] + done[i + 1..j] + done[j + 1..]
                           + [Operation(if inner == X then Z else X, false, [], [], g.targets)])
            && ((forall i: nat, j: nat :: !Sandwiches(done + [g], i, j, |done|, inner)) ==> after == done + [g])
  {
    hide Sandwiches, SandwichAt, Distinct;
    var pass := if inner == X then HXHToZ else HZHToX;
    forall i: nat, j: nat
      ensures SandwichAt(pass, done, g) == Some((i, j)) <==> Sandwiches(done + [g], i, j, |done|, inner)
    {
      SandwichExactly(done, g, inner, i, j);
    }
    if SandwichAt(pass, done, g).Some? {
      var (i, j) := SandwichAt(pass, done, g).value;
      SandwichEnds(done, g, i, j, inner);
      assert Without(Without(done, j), i) == done[..i] + done[i + 1..j] + done[j + 1..];
    }
  }

  lemma SandwichEnds(done: seq<Gate>, g: Gate, i: nat, j: nat, inner: Kind)
    requires Sandwiches(done + [g], i, j, |done|, inner)
    ensures i < j < |done| && g.kind == H && g.targets == [g.targets[0]]
  {
    assert (done + [g])[|done|] == g;
  }

  /** The decompositions replace each CX, or each CZ, where it stands. */
  lemma {:induction false} DecompositionsExactly(done: seq<Gate>, g: Gate)
    ensures var cx, cz := IsCx(g), g.kind == Z && |g.controls| == 1;
            var ht, hc := Operation(H, false, [], [], g.targets), Operation(H, false, [], [], g.controls);
            && Visit(CxToHCzH, done, g)
               == done + (if cx then [ht, Operation(Z, false, [], g.targets, g.controls), ht] else [g])
            && Visit(CzToHCxH, done, g)
               == done + (if cz then [ht, Operation(X, false, [], g.controls, g.targets), ht] else [g])
            && Visit(ReverseCx, done, g)
               == done + (if cx then [ht, hc, Operation(X, false, [], g.targets, g.controls), ht, hc] else [g])
  {
    hide Visit, SingleRule, Distinct;
    DecompositionRule(CxToHCzH, done, g);
    DecompositionRule(CzToHCxH, done, g);
    DecompositionRule(ReverseCx, done, g);
    if |g.controls| == 1 && (g.kind == X || g.kind == Z) { OutputOfDecomposition(g); }
  }

  lemma {:induction false} OutputOfDecomposition(g: Gate)
    requires |g.controls| == 1 && (g.kind == X || g.kind == Z)
    ensures var ht, hc := Operation(H, false, [], [], g.targets), Operation(H, false, [], [], g.controls);
            if g.kind == X
            then SingleRule(CxToHCzH, g) == Some([ht, Operation(Z, false, [], g.targets, g.controls), ht])
              && SingleRule(ReverseCx, g) == Some([ht, hc, Operation(X, false, [], g.targets, g.controls), ht, hc])
            else SingleRule(CzToHCxH, g) == Some([ht, Operation(X, false, [], g.controls, g.targets), ht])
  {
    hide Distinct;
    assert g.targets == [g.targets[0]] && g.controls == [g.controls[0]];
  }

  // ---- Whole walks ----

  /** A walk is a run of callbacks, one for each gate of the block and in their order. */
  lemma {:induction false} WalkRuns(pass: Pass, gs: seq<Gate>) returns (blocks: seq<seq<Gate>>)
    ensures |blocks| == |gs| + 1 && blocks[0] == [] && blocks[|gs|] == Walk(pass, gs)
    ensures forall k :: 0 <= k < |gs| ==> blocks[k + 1] == Visit(pass, blocks[k], gs[k])
  {
    hide Visit, Walk, YSwitches, YSwitched, GuardedWalk, Guarded, Operation.WellFormed;
    WalkUnfold(pass, gs);
    if gs == [] {
      blocks := [[]];
    } else {
      var init := gs[..|gs| - 1];
      var before := WalkRuns(pass, init);
      blocks := before + [Walk(pass, gs)];
      assert forall k :: 0 <= k < |init| ==> init[k] == gs[k];
    }
  }

  /** A visit pays a sign exactly when the two gates it rewrites are a Y and an H. */
  lemma {:induction false} SignExactly(pass: Pass, done: seq<Gate>, g: Gate)
    requires TwoGates(pass)
    ensures YSwitched(pass, done, g)
       <==> exists j: nat :: j < |done| && Acts(pass, done + [g], j, |done|)
                             && (pass == SwitchYH || pass == SwitchHY || (pass == SwitchPauliH && done[j].kind == Y))
  {
    hide Partner, Acts, Reacts, LastBefore, Operation.WellFormed;
    forall j: nat | j < |done|
      ensures Partner(pass, done, g) == j <==> Acts(pass, done + [g], j, |done|)
    {
      PartnerExactly(pass, done, g, j);
    }
    var j := Partner(pass, done, g);
    if j >= 0 {
      ActsReacts(pass, done, g, j);
      SignOfPair(pass, done[j], g);
    }
  }

  lemma {:induction false} SignOfPair(pass: Pass, p: Gate, g: Gate)
    requires TwoGates(pass) && Reacts(pass, p, g)
    ensures YSwitch(pass, p, g) <==> pass == SwitchYH || pass == SwitchHY || (pass == SwitchPauliH && p.kind == Y)
  {
    hide Twins;
  }

  /** Two gates count as inverted when the pass would rewrite them if nothing stood in between. */
  lemma {:induction false} PairExactly(pass: Pass, p: Gate, g: Gate)
    requires TwoGates(pass)
    ensures Pair(pass, p, g) <==> Reacts(pass, p, g) && On(p, WireOf(pass, g))
  {
    hide Reacts, WireOf, PairRule, ScanWire;
    EveryRuleIs(pass, p, g);
  }

  lemma {:induction false} BeforeBound(pass: Pass, gs: seq<Gate>, g: Gate)
    ensures Before(pass, gs, g) <= |gs|
  {
    hide Pair, Operation.WellFormed;
    if gs != [] { BeforeBound(pass, gs[..|gs| - 1], g); }
  }

  lemma {:induction false} InversionsBound(pass: Pass, gs: seq<Gate>)
    ensures 2 * Inversions(pass, gs) <= |gs| * (|gs| - 1)
  {
    hide Before, Operation.WellFormed;
    if gs != [] {
      var init := gs[..|gs| - 1];
      InversionsBound(pass, init);
      BeforeBound(pass, init, gs[|gs| - 1]);
      assert |gs| * (|gs| - 1) == |init| * (|init| - 1) + 2 * |init|;
    }
  }

  /** Settling a block of n gates changes it at most n (n - 1) / 2 times. */
  lemma RoundsBound(pass: Pass, gs: seq<Gate>)
    requires Moving(pass)
    ensures 2 * Rounds(pass, gs) <= |gs| * (|gs| - 1)
  {
    InversionsBound(pass, gs);
  }

  /** The theorems on shipped passes cover all 22 of them. */
  lemma AllPassesShipped()
    ensures Cancelling(ReductionPattern) && Cancelling(CancellationDoubleCx)
    ensures Commuting(CommuteCxRx) && Commuting(CommuteCxX) && Commuting(CommuteCxZ)
    ensures Commuting(CommuteRxCx) && Commuting(CommuteXCx) && Commuting(CommuteZCx)
    ensures Switching(SwitchXH) && Switching(SwitchYH) && Switching(SwitchZH)
    ensures Switching(SwitchHX) && Switching(SwitchHY) && Switching(SwitchHZ) && Switching(SwitchPauliH)
    ensures Merging(HXHToZ) && Merging(HZHToX) && Merging(SAdjToS) && Merging(SToSAdj)
    ensures Decomposing(CxToHCzH) && Decomposing(CzToHCxH) && Decomposing(ReverseCx)
    ensures forall pass :: OneWire(pass)
              <==> !pass.Cancellation? && pass != CommuteCxRx && pass != CommuteCxX && pass != CommuteCxZ
    ensures forall pass :: Moving(pass) <==> Commuting(pass) || pass == SwitchPauliH
    ensures forall pass :: Shipped(pass) <==> TwoGates(pass) || Decomposing(pass) || Merging(pass)
  {
  }
}
