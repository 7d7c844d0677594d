/** Normalising rotation angles and deleting null rotations, over exact reals. */
module Angles {
  import opened Amplitudes
  import opened Gates
  import opened Passes
  import opened LocalRules
  import opened Soundness
  import opened Kernels

  // ---- What the two callbacks compute ----

  predicate Rotation(g: Gate) { g.kind == Rx || g.kind == Ry || g.kind == Rz }

  /** floor(a / (2 * pi)): how many full turns normalising takes off. */
  function Turns(pi: real, a: real): int
    requires pi > 0.0
  {
    (a / (2.0 * pi)).Floor
  }

  function NormalAngle(pi: real, a: real): real
    requires pi > 0.0
  {
    a - Turns(pi, a) as real * 2.0 * pi
  }

  function Normalized(pi: real, g: Gate): Gate
    requires pi > 0.0
  {
    if Rotation(g) then Operation(g.kind, g.adj, [NormalAngle(pi, g.params[0])], g.controls, g.targets) else g
  }

  function AllNormalized(pi: real, gs: seq<Gate>): seq<Gate>
    requires pi > 0.0
  {
    if gs == [] then [] else AllNormalized(pi, gs[..|gs| - 1]) + [Normalized(pi, gs[|gs| - 1])]
  }

  function Truncated(x: real): int { if x >= 0.0 then x.Floor else -((-x).Floor) }

  /** std::fmod: the remainder of division truncated towards zero. */
  function Fmod(a: real, d: real): real
    requires d > 0.0
  {
    a - Truncated(a / d) as real * d
  }

  /** checkDoublePiMultiplies. */
  predicate DoublePiMultiple(pi: real, a: real)
    requires pi > 0.0
  {
    Fmod(a, 2.0 * pi) == 0.0
  }

  predicate NullRotation(pi: real, g: Gate)
    requires pi > 0.0
  {
    Rotation(g) && (DoublePiMultiple(pi, g.params[0]) || g.params[0] == 0.0)
  }

  function WithoutNulls(pi: real, gs: seq<Gate>): seq<Gate>
    requires pi > 0.0
  {
    if gs == [] then []
    else WithoutNulls(pi, gs[..|gs| - 1]) + (if NullRotation(pi, gs[|gs| - 1]) then [] else [gs[|gs| - 1]])
  }

  // ---- The callbacks, in place ----

  method NormalizeAngleOfRotations(kernel: Kernel, i: nat, pi: real)
    requires i < |kernel.ops| && pi > 0.0
    modifies kernel
    ensures kernel.ops == old(kernel.ops)[i := Normalized(pi, old(kernel.ops[i]))]
  {
    var gate := kernel.ops[i];
    if gate.kind != Rx && gate.kind != Ry && gate.kind != Rz { return; }
    var params: seq<real> := [];
    for k := 0 to |gate.params|
      invariant |params| == k
      invariant forall l :: 0 <= l < k ==> params[l] == NormalAngle(pi, gate.params[l])
    {
      var param := gate.params[k];
      param := param - (param / (2.0 * pi)).Floor as real * 2.0 * pi;
      params := params + [param];
    }
    assert params == [NormalAngle(pi, gate.params[0])];
    kernel.CreateAfter(i, Operation(gate.kind, gate.adj, params, gate.controls, gate.targets));
    kernel.EraseOp(i);
  }

  method NullRotationCancellation(kernel: Kernel, i: nat, pi: real)
    requires i < |kernel.ops| && pi > 0.0
    modifies kernel
    ensures kernel.ops == if NullRotation(pi, old(kernel.ops[i])) then Without(old(kernel.ops), i) else old(kernel.ops)
  {
    var gate := kernel.ops[i];
    if gate.kind != Rx && gate.kind != Ry && gate.kind != Rz { return; }
    var deleteGate := true;
    for k := 0 to |gate.params|
      invariant deleteGate == forall l :: 0 <= l < k ==> DoublePiMultiple(pi, gate.params[l]) || gate.params[l] == 0.0
    {
      if !DoublePiMultiple(pi, gate.params[k]) && gate.params[k] != 0.0 {
        deleteGate := false;
      }
    }
    if deleteGate { kernel.EraseOp(i); }
  }

  /** The first k operations have been visited by the normalising walk. */
  predicate NormalizedUpTo(pi: real, was: seq<Gate>, k: nat, now: seq<Gate>)
    requires pi > 0.0 && k <= |was|
  {
    now == AllNormalized(pi, was[..k]) + was[k..]
  }

  method NormalizeArgAngle(kernel: Kernel, pi: real)
    requires pi > 0.0
    modifies kernel
    ensures kernel.ops == AllNormalized(pi, old(kernel.ops))
    ensures |kernel.ops| == |old(kernel.ops)|
    ensures forall i :: 0 <= i < |kernel.ops| ==> InNormalForm(pi, old(kernel.ops)[i], kernel.ops[i])
  {
    hide Operation.WellFormed, Normalized, AllNormalized, NormalizedUpTo, InNormalForm;
    ghost var was := kernel.ops;
    NormalizedEnds(pi, was, was);
    var rest := |kernel.ops|;
    while rest > 0
      invariant 0 <= rest <= |was|
      invariant NormalizedUpTo(pi, was, |was| - rest, kernel.ops)
    {
      NormalizedStep(pi, was, |was| - rest, kernel.ops);
      var i := |kernel.ops| - rest;
      rest := rest - 1;
      NormalizeAngleOfRotations(kernel, i, pi);
    }
    NormalizedEnds(pi, was, kernel.ops);
    NormalizedWalk(pi, was);
  }

  lemma NormalizedEnds(pi: real, was: seq<Gate>, now: seq<Gate>)
    requires pi > 0.0
    ensures NormalizedUpTo(pi, was, 0, was)
    ensures NormalizedUpTo(pi, was, |was|, now) <==> now == AllNormalized(pi, was)
  {
    assert was[..0] == [] && was[..|was|] == was;
  }

  /** One turn of the loop: operation k of the original block is operation k of the current one. */
  lemma NormalizedStep(pi: real, was: seq<Gate>, k: nat, now: seq<Gate>)
    requires pi > 0.0 && k < |was| && NormalizedUpTo(pi, was, k, now)
    ensures |now| == |was|
    ensures NormalizedUpTo(pi, was, k + 1, now[k := Normalized(pi, now[k])])
  {
    hide Normalized, Operation.WellFormed;
    assert was[..k + 1] == was[..k] + [was[k]];
    NormalizedSnoc(pi, was[..k], was[k]);
    NormalizedLength(pi, was[..k]);
  }

  lemma NormalizedLength(pi: real, gs: seq<Gate>)
    requires pi > 0.0
    ensures |AllNormalized(pi, gs)| == |gs|
  {
  }

  /** The first k operations have been visited by the deleting walk. */
  predicate DeletedUpTo(pi: real, was: seq<Gate>, k: nat, now: seq<Gate>)
    requires pi > 0.0 && k <= |was|
  {
    now == WithoutNulls(pi, was[..k]) + was[k..]
  }

  method CancelNullRotations(kernel: Kernel, pi: real)
    requires pi > 0.0
    modifies kernel
    ensures kernel.ops == WithoutNulls(pi, old(kernel.ops))
    ensures exists kept :: Survivors(pi, old(kernel.ops), kept, kernel.ops)
  {
    hide Operation.WellFormed, NullRotation, WithoutNulls, Without, DeletedUpTo, Survivors;
    ghost var was := kernel.ops;
    DeletedEnds(pi, was, was);
    var rest := |kernel.ops|;
    while rest > 0
      invariant 0 <= rest <= |was|
      invariant DeletedUpTo(pi, was, |was| - rest, kernel.ops)
    {
      DeletedStep(pi, was, |was| - rest, kernel.ops);
      var i := |kernel.ops| - rest;
      rest := rest - 1;
      NullRotationCancellation(kernel, i, pi);
    }
    DeletedEnds(pi, was, kernel.ops);
    var kept := DeletedWalk(pi, was);
  }

  lemma DeletedEnds(pi: real, was: seq<Gate>, now: seq<Gate>)
    requires pi > 0.0
    ensures DeletedUpTo(pi, was, 0, was)
    ensures DeletedUpTo(pi, was, |was|, now) <==> now == WithoutNulls(pi, was)
  {
    assert was[..0] == [] && was[..|was|] == was;
  }

  /** One turn of the loop: operation k of the original block stands right after the survivors. */
  lemma DeletedStep(pi: real, was: seq<Gate>, k: nat, now: seq<Gate>)
    requires pi > 0.0 && k < |was| && DeletedUpTo(pi, was, k, now)
    ensures var i := |now| - (|was| - k);
            && i >= 0
            && DeletedUpTo(pi, was, k + 1, if NullRotation(pi, now[i]) then Without(now, i) else now)
  {
    hide NullRotation, WithoutNulls, Operation.WellFormed;
    assert was[..k + 1] == was[..k] + [was[k]];
    NullsSnoc(pi, was[..k], was[k]);
    assert now[|now| - (|was| - k)] == was[k];
  }

  // ---- Angles ----

  /** k full turns. */
  function FullTurns(k: int, pi: real): real { k as real * (2.0 * pi) }

  /** The normal angle is the angle less some whole number of turns, and lies in [0, 2pi). */
  lemma NormalRange(pi: real, a: real)
    requires pi > 0.0
    ensures 0.0 <= NormalAngle(pi, a) < 2.0 * pi
    ensures exists k: int :: NormalAngle(pi, a) == a - FullTurns(k, pi)
  {
    var d, x := 2.0 * pi, a / (2.0 * pi);
    assert x * d == a;
    var k := x.Floor as real;
    assert k <= x < k + 1.0;
    ScaleOrder(k, x, d);
    ScaleOrder(x, k + 1.0, d);
    Regroup(k, pi);
    Spread(k, d);
    StrictOrder(x, k + 1.0, d);
    assert NormalAngle(pi, a) == a - FullTurns(x.Floor, pi);
  }

  /** A whole number of turns other than none is at least one turn, in one direction or the other. */
  lemma OneTurnOrMore(pi: real, k: int)
    requires pi > 0.0
    ensures k >= 1 ==> FullTurns(k, pi) >= 2.0 * pi
    ensures k <= -1 ==> FullTurns(k, pi) <= -2.0 * pi
    ensures FullTurns(0, pi) == 0.0
  {
    var d, x := 2.0 * pi, k as real;
    if x >= 1.0 {
      ScaleOrder(1.0, x, d);
    } else if x <= -1.0 {
      ScaleOrder(x, -1.0, d);
    }
  }

  lemma TurnsApart(pi: real, a: real, k: int, l: int)
    ensures (a - FullTurns(k, pi)) - (a - FullTurns(l, pi)) == FullTurns(l - k, pi)
  {
    var d, x, y := 2.0 * pi, k as real, l as real;
    assert (l - k) as real == y - x;
    assert (y - x) * d == y * d - x * d;
  }

  /** The normal angle is the only angle in the range that differs from the given one by whole turns. */
  lemma NormalUnique(pi: real, a: real, b: real)
    requires pi > 0.0
    ensures b == NormalAngle(pi, a) <==> 0.0 <= b < 2.0 * pi && exists k: int :: b == a - FullTurns(k, pi)
  {
    hide NormalAngle, FullTurns;
    NormalRange(pi, a);
    var l: int :| NormalAngle(pi, a) == a - FullTurns(l, pi);
    if k: int :| 0.0 <= b < 2.0 * pi && b == a - FullTurns(k, pi) {
      TurnsApart(pi, a, k, l);
      OneTurnOrMore(pi, l - k);
      assert k == l;
    }
  }

  lemma Regroup(k: real, pi: real)
    ensures k * 2.0 * pi == k * (2.0 * pi)
  {
  }

  lemma Spread(k: real, d: real)
    ensures (k + 1.0) * d == k * d + d
  {
  }

  lemma ScaleOrder(x: real, y: real, d: real)
    requires x <= y && d > 0.0
    ensures x * d <= y * d
  {
  }

  lemma StrictOrder(x: real, y: real, d: real)
    requires x < y && d > 0.0
    ensures x * d < y * d
  {
  }

  /** An angle in the normal range is its own normal form. */
  lemma NormalFixed(pi: real, a: real)
    requires pi > 0.0 && 0.0 <= a < 2.0 * pi
    ensures Turns(pi, a) == 0 && NormalAngle(pi, a) == a
  {
    var d, x := 2.0 * pi, a / (2.0 * pi);
    assert x * d == a;
    if x < 0.0 { StrictOrder(x, 0.0, d); }
    if x >= 1.0 { ScaleOrder(1.0, x, d); }
  }

  /** Normalising a second time changes nothing. */
  lemma NormalizedTwice(pi: real, g: Gate)
    requires pi > 0.0
    ensures Normalized(pi, Normalized(pi, g)) == Normalized(pi, g)
  {
    if Rotation(g) {
      NormalRange(pi, g.params[0]);
      NormalFixed(pi, NormalAngle(pi, g.params[0]));
    }
  }

  /** The test of null rotations accepts exactly the whole numbers of full turns. */
  lemma FmodZero(pi: real, a: real)
    requires pi > 0.0
    ensures DoublePiMultiple(pi, a) <==> exists k: int :: a == FullTurns(k, pi)
  {
    if DoublePiMultiple(pi, a) {
      assert a == FullTurns(Truncated(a / (2.0 * pi)), pi);
    }
    if k: int :| a == FullTurns(k, pi) {
      Quotient(k as real, 2.0 * pi);
      assert a / (2.0 * pi) == k as real;
      TruncatedWhole(k);
    }
  }

  lemma Quotient(x: real, d: real)
    requires d > 0.0
    ensures (x * d) / d == x
  {
  }

  lemma TruncatedWhole(k: int)
    ensures Truncated(k as real) == k
  {
    if k < 0 {
      assert -(k as real) == (-k) as real;
    }
  }

  /** The one null rotation in the normal range is the rotation by zero. */
  lemma NullInRange(pi: real, b: real)
    requires pi > 0.0 && 0.0 <= b < 2.0 * pi
    ensures DoublePiMultiple(pi, b) <==> b == 0.0
  {
    hide DoublePiMultiple;
    FmodZero(pi, b);
    OneTurnOrMore(pi, 0);
    if k: int :| b == FullTurns(k, pi) {
      OneTurnOrMore(pi, k);
    }
  }

  lemma NormalZero(pi: real, a: real)
    requires pi > 0.0
    ensures NormalAngle(pi, a) == 0.0 <==> exists k: int :: a == FullTurns(k, pi)
  {
    Regroup(Turns(pi, a) as real, pi);
    if NormalAngle(pi, a) == 0.0 {
      assert a == FullTurns(Turns(pi, a), pi);
    }
    if k: int :| a == FullTurns(k, pi) {
      Quotient(k as real, 2.0 * pi);
      assert a / (2.0 * pi) == k as real;
      assert Turns(pi, a) == k;
    }
  }

  /** After normalising, the null rotations are those whose original angle is a multiple of 2pi. */
  lemma NullAfterNormalizing(pi: real, g: Gate)
    requires pi > 0.0
    ensures NullRotation(pi, Normalized(pi, g))
        <==> g.kind in {Rx, Ry, Rz} && exists k: int :: g.params[0] == FullTurns(k, pi)
  {
    if Rotation(g) {
      hide DoublePiMultiple, NormalAngle;
      NormalRange(pi, g.params[0]);
      NullInRange(pi, NormalAngle(pi, g.params[0]));
      NormalZero(pi, g.params[0]);
    }
  }

  /** A rotation whose angle is a multiple of 2pi. */
  ghost predicate FullTurn(pi: real, g: Gate) {
    g.kind in {Rx, Ry, Rz} && exists k: int :: g.params[0] == FullTurns(k, pi)
  }

  ghost function WithoutFullTurns(pi: real, gs: seq<Gate>): seq<Gate> {
    if gs == [] then []
    else WithoutFullTurns(pi, gs[..|gs| - 1]) + (if FullTurn(pi, gs[|gs| - 1]) then [] else [gs[|gs| - 1]])
  }

  lemma NormalizedSnoc(pi: real, gs: seq<Gate>, g: Gate)
    requires pi > 0.0
    ensures AllNormalized(pi, gs + [g]) == AllNormalized(pi, gs) + [Normalized(pi, g)]
  {
    hide Normalized;
    assert (gs + [g])[..|gs|] == gs;
  }

  lemma NullsSnoc(pi: real, gs: seq<Gate>, g: Gate)
    requires pi > 0.0
    ensures WithoutNulls(pi, gs + [g]) == WithoutNulls(pi, gs) + (if NullRotation(pi, g) then [] else [g])
  {
    hide NullRotation;
    assert (gs + [g])[..|gs|] == gs;
  }

  // ---- What the two walks do to a whole circuit ----

  /** h is g with, for an Rx, Ry or Rz, the angle in [0, 2pi) that differs by whole turns. */
  ghost predicate InNormalForm(pi: real, g: Gate, h: Gate) {
    && h.kind == g.kind && h.adj == g.adj && h.controls == g.controls && h.targets == g.targets
    && (if g.kind in {Rx, Ry, Rz}
        then |h.params| == 1 && 0.0 <= h.params[0] < 2.0 * pi
             && exists k: int :: h.params[0] == g.params[0] - FullTurns(k, pi)
        else h.params == g.params)
  }

  lemma NormalizedGate(pi: real, g: Gate)
    requires pi > 0.0
    ensures InNormalForm(pi, g, Normalized(pi, g))
  {
    if g.kind in {Rx, Ry, Rz} {
      hide NormalAngle;
      NormalRange(pi, g.params[0]);
    }
  }

  /** The normalising walk keeps every gate at its place and brings it into normal form. */
  lemma {:induction false} NormalizedWalk(pi: real, gs: seq<Gate>)
    requires pi > 0.0
    ensures |AllNormalized(pi, gs)| == |gs|
    ensures forall i :: 0 <= i < |gs| ==> InNormalForm(pi, gs[i], AllNormalized(pi, gs)[i])
  {
    hide Normalized, InNormalForm, Distinct;
    if gs != [] {
      NormalizedWalk(pi, gs[..|gs| - 1]);
      NormalizedGate(pi, gs[|gs| - 1]);
    }
  }

  lemma NullExactly(pi: real, g: Gate)
    requires pi > 0.0
    ensures NullRotation(pi, g) <==> FullTurn(pi, g)
  {
    if Rotation(g) {
      hide DoublePiMultiple, FullTurns;
      FmodZero(pi, g.params[0]);
      OneTurnOrMore(pi, 0);
    }
  }

  predicate Listed(places: seq<nat>, i: nat) { i in places }

  lemma ListedSnoc(places: seq<nat>, j: nat)
    ensures forall i: nat :: Listed(places + [j], i) <==> Listed(places, i) || i == j
  {
  }

  /** The later block consists of the gates of the earlier one at these places, and these are the places
      of the gates that are not an Rx, Ry or Rz by a whole number of full turns. */
  ghost predicate Survivors(pi: real, gs: seq<Gate>, kept: seq<nat>, after: seq<Gate>) {
    && (forall i, j :: 0 <= i < j < |kept| ==> kept[i] < kept[j])
    && (forall i :: 0 <= i < |kept| ==> kept[i] < |gs| && !FullTurn(pi, gs[kept[i]]))
    && (forall i :: 0 <= i < |gs| && !FullTurn(pi, gs[i]) ==> Listed(kept, i))
    && |after| == |kept|
    && (forall i :: 0 <= i < |kept| ==> after[i] == gs[kept[i]])
  }

  lemma SurvivorsSnoc(pi: real, gs: seq<Gate>, g: Gate, kept: seq<nat>)
    requires pi > 0.0 && Survivors(pi, gs, kept, WithoutNulls(pi, gs))
    ensures Survivors(pi, gs + [g], if FullTurn(pi, g) then kept else kept + [|gs|], WithoutNulls(pi, gs + [g]))
  {
    hide FullTurn, NullRotation, WithoutNulls, Listed, Operation.WellFormed;
    ListedSnoc(kept, |gs|);
    NullExactly(pi, g);
    NullsSnoc(pi, gs, g);
    var all := gs + [g];
    assert all[|gs|] == g && forall i :: 0 <= i < |gs| ==> all[i] == gs[i];
  }

  /** The deleting walk keeps exactly those gates, in their order. */
  lemma {:induction false} DeletedWalk(pi: real, gs: seq<Gate>) returns (kept: seq<nat>)
    requires pi > 0.0
    ensures Survivors(pi, gs, kept, WithoutNulls(pi, gs))
  {
    hide Survivors, FullTurn, WithoutNulls, Operation.WellFormed;
    if gs == [] {
      kept := [];
      NoSurvivors(pi);
    } else {
      var init, g := gs[..|gs| - 1], gs[|gs| - 1];
      var front := DeletedWalk(pi, init);
      SurvivorsSnoc(pi, init, g, front);
      assert init + [g] == gs;
      kept := if FullTurn(pi, g) then front else front + [|init|];
    }
  }

  lemma NoSurvivors(pi: real)
    requires pi > 0.0
    ensures Survivors(pi, [], [], WithoutNulls(pi, []))
  {
  }

  /** Normalising and then deleting null rotations deletes exactly the rotations by a multiple of 2pi. */
  lemma {:induction false} DeletesFullTurns(pi: real, gs: seq<Gate>)
    requires pi > 0.0
    ensures WithoutNulls(pi, AllNormalized(pi, gs)) == AllNormalized(pi, WithoutFullTurns(pi, gs))
  {
    hide Normalized, NullRotation, Rotation, Operation.WellFormed;
    if gs != [] {
      var init, g := gs[..|gs| - 1], gs[|gs| - 1];
      DeletesFullTurns(pi, init);
      NullAfterNormalizing(pi, g);
      NullsSnoc(pi, AllNormalized(pi, init), Normalized(pi, g));
      NormalizedSnoc(pi, WithoutFullTurns(pi, init), g);
      assert AllNormalized(pi, gs) == AllNormalized(pi, init) + [Normalized(pi, g)];
      assert WithoutFullTurns(pi, gs)
          == if FullTurn(pi, g) then WithoutFullTurns(pi, init) else WithoutFullTurns(pi, init) + [g];
    }
  }

  /** A second normalising walk changes nothing. */
  lemma {:induction false} NormalizingIdempotent(pi: real, gs: seq<Gate>)
    requires pi > 0.0
    ensures AllNormalized(pi, AllNormalized(pi, gs)) == AllNormalized(pi, gs)
  {
    hide Normalized, Operation.WellFormed;
    if gs != [] {
      var init, g := gs[..|gs| - 1], gs[|gs| - 1];
      NormalizingIdempotent(pi, init);
      NormalizedTwice(pi, g);
      assert AllNormalized(pi, gs) == AllNormalized(pi, init) + [Normalized(pi, g)];
      NormalizedSnoc(pi, AllNormalized(pi, init), Normalized(pi, g));
    }
  }

  /** A second deleting walk changes nothing. */
  lemma {:induction false} DeletingIdempotent(pi: real, gs: seq<Gate>)
    requires pi > 0.0
    ensures WithoutNulls(pi, WithoutNulls(pi, gs)) == WithoutNulls(pi, gs)
  {
    hide NullRotation, Operation.WellFormed;
    if gs != [] {
      var init, g := gs[..|gs| - 1], gs[|gs| - 1];
      DeletingIdempotent(pi, init);
      assert WithoutNulls(pi, gs)
          == if NullRotation(pi, g) then WithoutNulls(pi, init) else WithoutNulls(pi, init) + [g];
      NullsSnoc(pi, WithoutNulls(pi, init), g);
    }
  }

  /** Running the two passes a second time, one after the other, changes nothing. */
  lemma CleanedIdempotent(pi: real, gs: seq<Gate>)
    requires pi > 0.0
    ensures var cleaned := WithoutNulls(pi, AllNormalized(pi, gs));
            AllNormalized(pi, cleaned) == cleaned && WithoutNulls(pi, AllNormalized(pi, cleaned)) == cleaned
  {
    hide AllNormalized, WithoutNulls, WithoutFullTurns;
    DeletesFullTurns(pi, gs);
    NormalizingIdempotent(pi, WithoutFullTurns(pi, gs));
    DeletingIdempotent(pi, AllNormalized(pi, gs));
  }

  // ---- What a turn does to a rotation ----

  lemma PiLaw(tr: Trig)
    requires tr.Lawful()
    ensures tr.cos(tr.pi) == -1.0 && tr.sin(tr.pi) == 0.0
  {
    var q := tr.pi / 2.0;
    assert tr.SumLaw(q, q);
    assert q + q == tr.pi;
  }

  lemma HalfTurn(tr: Trig, x: real)
    requires tr.Lawful()
    ensures tr.cos(x + tr.pi) == -tr.cos(x) && tr.sin(x + tr.pi) == -tr.sin(x)
  {
    PiLaw(tr);
    assert tr.SumLaw(x, tr.pi);
  }

  /** v, negated when k is odd. */
  function Signed(k: int, v: real): real { if k % 2 == 0 then v else -v }

  function Turned(x: real, k: int, pi: real): real { x + k as real * pi }

  lemma TurnedNext(x: real, k: int, pi: real)
    ensures Turned(x, k, pi) + pi == Turned(x, k + 1, pi) && Turned(x, 0, pi) == x
  {
    Spread(k as real, pi);
  }

  lemma {:induction false} HalfTurns(tr: Trig, x: real, k: int)
    requires tr.Lawful()
    ensures tr.cos(Turned(x, k, tr.pi)) == Signed(k, tr.cos(x))
    ensures tr.sin(Turned(x, k, tr.pi)) == Signed(k, tr.sin(x))
    decreases if k < 0 then -k else k
  {
    hide tr.Lawful, Turned;
    if k == 0 {
      TurnedNext(x, 0, tr.pi);
    } else if k > 0 {
      HalfTurns(tr, x, k - 1);
      TurnedNext(x, k - 1, tr.pi);
      HalfTurn(tr, Turned(x, k - 1, tr.pi));
    } else {
      HalfTurns(tr, x, k + 1);
      TurnedNext(x, k, tr.pi);
      HalfTurn(tr, Turned(x, k, tr.pi));
    }
  }

  lemma UnitAt(tr: Trig, a: real)
    requires tr.Lawful()
    ensures tr.UnitLaw(a)
  {
  }

  lemma SumAt(tr: Trig, x: real, y: real)
    requires tr.Lawful()
    ensures tr.SumLaw(x, y)
  {
  }

  lemma NegativeAngle(tr: Trig, x: real)
    requires tr.Lawful()
    ensures tr.cos(-x) == tr.cos(x) && tr.sin(-x) == -tr.sin(x)
  {
    var c, s, c', s' := tr.cos(x), tr.sin(x), tr.cos(-x), tr.sin(-x);
    assert tr.SumLaw(x, -x) && tr.UnitLaw(x);
    assert x + -x == 0.0;
    assert c * c' - s * s' == 1.0 && s * c' + c * s' == 0.0;
    assert c' == c' * (c * c + s * s) == c * (c * c' - s * s') + s * (s * c' + c * s');
    assert s' == s' * (c * c + s * s) == c * (s * c' + c * s') - s * (c * c' - s * s');
  }

  /** Taking k full turns off a rotation multiplies its matrix by (-1)^k. */
  lemma TurnedMatrix(tr: Trig, g: Gate, g': Gate, k: int)
    requires tr.Lawful() && Rotation(g) && g'.kind == g.kind && g'.adj == g.adj
    requires g'.params[0] == g.params[0] - k as real * 2.0 * tr.pi
    ensures GateMatrix(tr, g') == ScaledBy(SignOf(k), GateMatrix(tr, g))
  {
    hide tr.Lawful, Turned, GateMatrix;
    var x, x' := g.params[0] / 2.0, g'.params[0] / 2.0;
    HalfTurns(tr, x, -k);
    HalvedTurns(g.params[0], k, tr.pi);
    assert x' == Turned(x, -k, tr.pi);
    var c, s := tr.cos(x), tr.sin(x);
    var c', s' := tr.cos(x'), tr.sin(x');
    if g.kind == Rz {
      NegativeAngle(tr, x);
      NegativeAngle(tr, x');
      assert -g.params[0] / 2.0 == -x && -g'.params[0] / 2.0 == -x';
    }
    TurnedEntries(c, s, c', s', k);
    TurnedCases(tr, g, g', c, s, c', s', SignOf(k));
  }

  lemma HalvedTurns(a: real, k: int, pi: real)
    ensures (a - k as real * 2.0 * pi) / 2.0 == Turned(a / 2.0, -k, pi)
  {
    assert (-k) as real == -(k as real);
    Regroup(k as real, pi);
    Halves(k as real, pi);
  }

  lemma Halves(k: real, pi: real)
    ensures (k * (2.0 * pi)) / 2.0 == k * pi && (-k) * pi == -(k * pi)
  {
  }

  lemma TurnedEntries(c: real, s: real, c': real, s': real, k: int)
    requires c' == Signed(-k, c) && s' == Signed(-k, s)
    ensures (SignOf(k) == One && c' == c && s' == s) || (SignOf(k) == MinusOne && c' == -c && s' == -s)
  {
  }

  lemma {:induction false} TurnedCases(tr: Trig, g: Gate, g': Gate, c: real, s: real, c': real, s': real, w: Complex)
    requires Rotation(g) && g'.kind == g.kind && g'.adj == g.adj
    requires c == tr.cos(g.params[0] / 2.0) && s == tr.sin(g.params[0] / 2.0)
    requires c' == tr.cos(g'.params[0] / 2.0) && s' == tr.sin(g'.params[0] / 2.0)
    requires g.kind == Rz ==> tr.cos(-g.params[0] / 2.0) == c && tr.sin(-g.params[0] / 2.0) == -s
    requires g.kind == Rz ==> tr.cos(-g'.params[0] / 2.0) == c' && tr.sin(-g'.params[0] / 2.0) == -s'
    requires (w == One && c' == c && s' == s) || (w == MinusOne && c' == -c && s' == -s)
    ensures GateMatrix(tr, g') == ScaledBy(w, GateMatrix(tr, g))
  {
    hide Mul, GateMatrix;
    var m := GateMatrix(tr, g);
    RotationEntries(tr, g, c, s);
    RotationEntries(tr, g', c', s');
    if w == One {
      ScaledOne(m);
    } else {
      Negate(m.a);
      Negate(m.b);
      Negate(m.c);
      Negate(m.d);
    }
  }

  /** The entries of a rotation matrix, given cosine and sine of half its angle. */
  lemma RotationEntries(tr: Trig, g: Gate, c: real, s: real)
    requires Rotation(g) && c == tr.cos(g.params[0] / 2.0) && s == tr.sin(g.params[0] / 2.0)
    requires g.kind == Rz ==> tr.cos(-g.params[0] / 2.0) == c && tr.sin(-g.params[0] / 2.0) == -s
    ensures var e := if g.adj then -s else s;
            GateMatrix(tr, g) ==
              if g.kind == Rx then Matrix(Complex(c, 0.0), Complex(0.0, -e), Complex(0.0, -e), Complex(c, 0.0))
              else if g.kind == Ry then Matrix(Complex(c, 0.0), Complex(-e, 0.0), Complex(e, 0.0), Complex(c, 0.0))
              else Matrix(Complex(c, -e), Zero, Zero, Complex(c, e))
  {
  }
}
