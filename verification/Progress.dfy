/** What repeated passes do: when cancellation reaches a fixpoint in one walk, and that commuting or
    switching until nothing changes comes to an end. */
module Progress {
  import opened Amplitudes
  import opened Gates
  import opened Scans
  import opened Passes
  import opened Soundness

  // ---- Cancellation: when one walk is enough ----

  /** No gate forms a pair with what its scan finds. */
  predicate Stable(pass: Pass, gs: seq<Gate>) {
    forall i :: 0 <= i < |gs| ==> Partner(pass, gs[..i], gs[i]) < 0
  }

  /** What a scan of q finds once gate j is erased: what it found before, or, if that was gate j, what
      a scan from gate j finds. */
  lemma {:induction false} PrevOnErased(gs: seq<Gate>, j: nat, q: nat)
    requires j < |gs|
    ensures var m := PrevOn(gs, q);
            PrevOn(Without(gs, j), q) == (if m == j then PrevOn(gs[..j], q) else if m < j then m else m - 1)
  {
    var m, r := PrevOn(gs, q), Without(gs, j);
    var l := if m == j then PrevOn(gs[..j], q) else if m < j then m else m - 1;
    hide PrevOn;
    if l < 0 {
      forall k | 0 <= k < |r| ensures !r[k].Touches(q) {
        assert k < j ==> gs[..j][k] == gs[k];
      }
      PrevOnNone(r, q);
    } else {
      forall k | l < k < |r| ensures !r[k].Touches(q) {
        assert k < j ==> gs[..j][k] == gs[k];
      }
      assert m == j ==> gs[..j][l] == gs[l];
      PrevOnUnique(r, q, l);
    }
  }

  /** Erasing gate j brings gate k together with a gate in front of j that it forms a pair with. */
  predicate Reunited(pass: Pass, done: seq<Gate>, j: nat, k: nat)
    requires j < k < |done|
  {
    match ScanWire(pass, done[k])
    case None => false
    case Some(q) =>
      var i := PrevOn(done[..j], q);
      PrevOn(done[..k], q) == j && i >= 0 && PairRule(pass, done[i], done[k]).Some?
  }

  predicate ReunitesNothing(pass: Pass, done: seq<Gate>, j: nat)
    requires j < |done|
  {
    forall k :: j < k < |done| ==> !Reunited(pass, done, j, k)
  }

  /** The partner of a gate behind the erased one. */
  lemma {:induction false} PartnerErased(pass: Pass, done: seq<Gate>, j: nat, k: nat)
    requires pass.Cancellation? && j < k < |done| && Partner(pass, done[..k], done[k]) < 0
    ensures Partner(pass, Without(done, j)[..k - 1], Without(done, j)[k - 1]) >= 0 <==> Reunited(pass, done, j, k)
  {
    hide PrevOn, PairRule, ScanWire, Operation.WellFormed;
    var r, h := Without(done, j), done[k];
    assert r[k - 1] == h && r[..k - 1] == Without(done[..k], j);
    assert done[..k][..j] == done[..j];
    if ScanWire(pass, h).Some? {
      PrevOnErased(done[..k], j, ScanWire(pass, h).value);
    }
  }

  /** Erasing gate j from a stable block leaves a stable block exactly when it reunites nothing. */
  lemma {:induction false} EraseStableExact(pass: Pass, done: seq<Gate>, j: nat)
    requires pass.Cancellation? && Stable(pass, done) && j < |done|
    ensures Stable(pass, Without(done, j)) <==> ReunitesNothing(pass, done, j)
  {
    hide Partner, Reunited, PrevOn, Operation.WellFormed;
    var r := Without(done, j);
    forall i | 0 <= i < |r|
      ensures Partner(pass, r[..i], r[i]) >= 0 <==> i >= j && Reunited(pass, done, j, i + 1)
    {
      if i < j {
        assert r[..i] == done[..i] && r[i] == done[i];
      } else {
        PartnerErased(pass, done, j, i + 1);
      }
    }
    if Stable(pass, r) {
      forall k | j < k < |done| ensures !Reunited(pass, done, j, k) {
        assert Partner(pass, r[..k - 1], r[k - 1]) < 0;
      }
    }
  }

  /** A gate that could slide to the end is the last on every wire that is scanned for it. */
  lemma {:induction false} FreeReunitesNothing(pass: Pass, done: seq<Gate>, j: nat)
    requires pass.Cancellation? && j < |done| && Free(done[j], done[j + 1..])
    ensures ReunitesNothing(pass, done, j)
  {
    hide PrevOn, PairRule, Operation.WellFormed;
    forall k | j < k < |done| ensures !Reunited(pass, done, j, k) {
      var h := done[k];
      assert h == done[j + 1..][k - j - 1] && Passable(done[j], h);
      if ScanWire(pass, h).Some? {
        var q := ScanWire(pass, h).value;
        assert q in h.targets && !done[j].Touches(q);
        assert done[..k][j] == done[j];
      }
    }
  }

  /** The gates behind a partner that could slide to the end find what they found before. */
  lemma {:induction false} EraseKeepsStable(pass: Pass, done: seq<Gate>, j: nat)
    requires pass.Cancellation? && Stable(pass, done) && j < |done| && Free(done[j], done[j + 1..])
    ensures Stable(pass, Without(done, j))
  {
    hide Stable, ReunitesNothing, Free, Without;
    FreeReunitesNothing(pass, done, j);
    EraseStableExact(pass, done, j);
  }

  /** The visit of g behind done does not bring a pair together. */
  predicate VisitReunitesNothing(pass: Pass, done: seq<Gate>, g: Gate) {
    var j := Partner(pass, done, g);
    j >= 0 ==> ReunitesNothing(pass, done, j)
  }

  /** No visit of the walk brings a pair together. */
  predicate WalkReunitesNothing(pass: Pass, gs: seq<Gate>) {
    gs != [] ==>
      var init, g := gs[..|gs| - 1], gs[|gs| - 1];
      WalkReunitesNothing(pass, init) && VisitReunitesNothing(pass, Walk(pass, init), g)
  }

  /** A visit behind a stable block leaves a stable block exactly when it reunites nothing. */
  lemma {:induction false} VisitStableExact(pass: Pass, done: seq<Gate>, g: Gate)
    requires pass.Cancellation? && Stable(pass, done)
    ensures Stable(pass, Visit(pass, done, g)) <==> VisitReunitesNothing(pass, done, g)
  {
    hide Stable, ReunitesNothing, Partner, Without, Visit, Operation.WellFormed;
    CancellationVisit(pass, done, g);
    var j := Partner(pass, done, g);
    if j < 0 {
      StableSnoc(pass, done, g);
    } else {
      EraseStableExact(pass, done, j);
    }
  }

  /** Every prefix of the walk leaves a stable block. */
  predicate StableThroughout(pass: Pass, gs: seq<Gate>) {
    forall m :: 0 <= m <= |gs| ==> Stable(pass, Walk(pass, gs[..m]))
  }

  lemma {:induction false} StableThroughoutSnoc(pass: Pass, gs: seq<Gate>)
    requires gs != []
    ensures StableThroughout(pass, gs)
       <==> StableThroughout(pass, gs[..|gs| - 1]) && Stable(pass, Walk(pass, gs))
  {
    hide Stable, Walk, Operation.WellFormed;
    var init := gs[..|gs| - 1];
    assert gs[..|gs|] == gs;
    forall m | 0 <= m <= |init| ensures gs[..m] == init[..m] {
    }
    if StableThroughout(pass, gs) {
      forall m | 0 <= m <= |init| ensures Stable(pass, Walk(pass, init[..m])) {
        assert Stable(pass, Walk(pass, gs[..m]));
      }
      assert Stable(pass, Walk(pass, gs[..|gs|]));
    }
    if StableThroughout(pass, init) && Stable(pass, Walk(pass, gs)) {
      forall m | 0 <= m <= |gs| ensures Stable(pass, Walk(pass, gs[..m])) {
        assert m < |gs| ==> Stable(pass, Walk(pass, init[..m]));
      }
    }
  }

  /** Main theorem on cancellation.  The block is stable after every visit of the walk exactly when no
      visit brings a pair together, with or without a guard. */
  lemma {:induction false} StableThroughoutExact(pass: Pass, gs: seq<Gate>)
    requires pass.Cancellation?
    ensures StableThroughout(pass, gs) <==> WalkReunitesNothing(pass, gs)
  {
    hide Stable, VisitReunitesNothing, Walk, Visit, StableThroughout, YSwitches, YSwitched, GuardedWalk, Guarded,
         Operation.WellFormed;
    WalkUnfold(pass, gs);
    if gs == [] {
      EmptyStable(pass);
      StableThroughoutNone(pass);
    } else {
      var init, g := gs[..|gs| - 1], gs[|gs| - 1];
      StableThroughoutExact(pass, init);
      StableThroughoutSnoc(pass, gs);
      if StableThroughout(pass, init) {
        StableThroughoutEnds(pass, init);
        VisitStableExact(pass, Walk(pass, init), g);
      }
    }
  }

  lemma StableThroughoutNone(pass: Pass)
    ensures StableThroughout(pass, [])
  {
  }

  lemma StableThroughoutEnds(pass: Pass, gs: seq<Gate>)
    requires StableThroughout(pass, gs)
    ensures Stable(pass, Walk(pass, gs))
  {
    hide Stable, Walk;
    assert gs[..|gs|] == gs;
  }

  /** A walk that brings no pair together leaves no cancellable pair behind. */
  lemma CancellationFixpoint(pass: Pass, gs: seq<Gate>)
    requires pass.Cancellation? && WalkReunitesNothing(pass, gs)
    ensures Stable(pass, Walk(pass, gs))
  {
    hide Stable, Walk, WalkReunitesNothing, StableThroughout;
    StableThroughoutExact(pass, gs);
    StableThroughoutEnds(pass, gs);
  }

  /** A guarded walk is one. */
  lemma {:induction false} GuardedReunitesNothing(pass: Pass, gs: seq<Gate>)
    requires pass.Cancellation? && GuardedWalk(pass, gs)
    ensures WalkReunitesNothing(pass, gs)
  {
    hide Partner, ReunitesNothing, Walk, Free, Operation.WellFormed;
    if gs != [] {
      var init, g := gs[..|gs| - 1], gs[|gs| - 1];
      GuardedReunitesNothing(pass, init);
      var done := Walk(pass, init);
      var j := Partner(pass, done, g);
      if j >= 0 { FreeReunitesNothing(pass, done, j); }
    }
  }

  /** A cancellation walk changes a block exactly when the block is not stable. */
  lemma {:induction false} QuietIffStable(pass: Pass, gs: seq<Gate>)
    requires pass.Cancellation?
    ensures Walk(pass, gs) == gs <==> Stable(pass, gs)
    ensures |Walk(pass, gs)| <= |gs|
  {
    hide Partner, Visit, Walk, YSwitches, YSwitched, GuardedWalk, Guarded, Operation.WellFormed;
    WalkUnfold(pass, gs);
    if gs == [] {
      EmptyStable(pass);
    } else {
      var init, g := gs[..|gs| - 1], gs[|gs| - 1];
      var done := Walk(pass, init);
      QuietIffStable(pass, init);
      CancellationVisit(pass, done, g);
      StableSnoc(pass, init, g);
      assert gs == init + [g];
      if Partner(pass, done, g) < 0 {
        assert Walk(pass, gs) == gs ==> done == (done + [g])[..|done|] == init;
      } else {
        assert |Walk(pass, gs)| < |gs|;
      }
    }
  }

  lemma StableSnoc(pass: Pass, done: seq<Gate>, g: Gate)
    ensures Stable(pass, done + [g]) <==> Stable(pass, done) && Partner(pass, done, g) < 0
  {
    hide Partner;
    var all := done + [g];
    assert all[..|done|] == done;
    forall i | 0 <= i < |done| ensures all[..i] == done[..i] && all[i] == done[i] {
    }
    if Stable(pass, all) {
      forall i | 0 <= i < |done| ensures Partner(pass, done[..i], done[i]) < 0 {
        assert Partner(pass, all[..i], all[i]) < 0;
      }
      assert Partner(pass, all[..|done|], all[|done|]) < 0;
    }
  }

  lemma EmptyStable(pass: Pass)
    ensures Stable(pass, [])
  {
  }

  lemma CancellationVisit(pass: Pass, done: seq<Gate>, g: Gate)
    requires pass.Cancellation?
    ensures var j := Partner(pass, done, g);
            Visit(pass, done, g) == if j < 0 then done + [g] else Without(done, j)
  {
    hide PrevOn, SortedDescending;
  }

  /** A second walk changes nothing exactly when the first one ends stable, so certainly when the first
      one brings no pair together. */
  lemma {:induction false} CancellationIdempotent(pass: Pass, gs: seq<Gate>)
    requires pass.Cancellation?
    ensures Walk(pass, Walk(pass, gs)) == Walk(pass, gs) <==> Stable(pass, Walk(pass, gs))
    ensures WalkReunitesNothing(pass, gs) ==> Walk(pass, Walk(pass, gs)) == Walk(pass, gs)
  {
    hide Walk, WalkReunitesNothing, Stable;
    QuietIffStable(pass, Walk(pass, gs));
    if WalkReunitesNothing(pass, gs) {
      CancellationFixpoint(pass, gs);
    }
  }

  /** A guarded walk ends stable, and a second one changes nothing. */
  lemma GuardedFixpoint(pass: Pass, gs: seq<Gate>)
    requires pass.Cancellation? && GuardedWalk(pass, gs)
    ensures Stable(pass, Walk(pass, gs)) && Walk(pass, Walk(pass, gs)) == Walk(pass, gs)
  {
    hide Walk, GuardedWalk, WalkReunitesNothing, Stable;
    GuardedReunitesNothing(pass, gs);
    CancellationFixpoint(pass, gs);
    CancellationIdempotent(pass, gs);
  }

  /** A walk that is not stable in the end: the two CX cancel over the X on their control, which brings
      two X together that no later visit compares, so that a second walk cancels them too. */
  lemma UnguardedNotStable()
    ensures var x, cx := Plain(X, [], 0), Plain(X, [0], 1);
            && Walk(ReductionPattern, [x, cx, x, cx]) == [x, x]
            && !Stable(ReductionPattern, [x, x])
            && Walk(ReductionPattern, [x, x]) == []
            && Visit(ReductionPattern, [x, x], x) == [x]
  {
    hide SortedDescending, PrevOn, Walk, Visit, Partner, YSwitched, YSwitches, GuardedWalk, Guarded, Without,
         PairRule, ScanWire, Operation.WellFormed;
    var x, cx := Plain(X, [], 0), Plain(X, [0], 1);
    var pass := ReductionPattern;
    assert [x, cx, x, cx][..3] == [x, cx, x] && [x, cx, x][..2] == [x, cx] && [x, cx][..1] == [x] && [x][..0] == [];
    assert [x, x][..1] == [x];
    WalkUnfold(pass, []);
    WalkUnfold(pass, [x]);
    WalkUnfold(pass, [x, cx]);
    WalkUnfold(pass, [x, cx, x]);
    WalkUnfold(pass, [x, cx, x, cx]);
    WalkUnfold(pass, [x, x]);
    UnguardedVisits();
    assert Partner(pass, [x, x][..1], [x, x][1]) == 0;
  }

  /** A walk may end stable although a visit brought a pair together, because a later visit takes one of
      the two away again: with one X more, the two X that the CX brought together are parted. */
  lemma RepairedReunion()
    ensures var x, cx := Plain(X, [], 0), Plain(X, [0], 1);
            var gs := [x, cx, x, cx, x];
            && !WalkReunitesNothing(ReductionPattern, gs)
            && Walk(ReductionPattern, gs) == [x] && Stable(ReductionPattern, [x])
  {
    hide PrevOn, Walk, Visit, Partner, YSwitched, YSwitches, GuardedWalk, Guarded, VisitReunitesNothing,
         Operation.WellFormed;
    var x, cx := Plain(X, [], 0), Plain(X, [0], 1);
    var gs := [x, cx, x, cx, x];
    assert gs[..4] == [x, cx, x, cx];
    UnguardedNotStable();
    WalkUnfold(ReductionPattern, gs);
    if WalkReunitesNothing(ReductionPattern, [x, cx, x, cx]) {
      CancellationFixpoint(ReductionPattern, [x, cx, x, cx]);
    }
    EmptyStable(ReductionPattern);
    PrevOnNone([], 0);
    ReductionRules();
    CancellationStep(ReductionPattern, [], x, 0, -1);
    StableSnoc(ReductionPattern, [], x);
    assert [] + [x] == [x];
  }

  lemma ReductionRules()
    ensures var x, cx := Plain(X, [], 0), Plain(X, [0], 1);
            && ScanWire(ReductionPattern, x) == Some(0) && ScanWire(ReductionPattern, cx) == Some(1)
            && PairRule(ReductionPattern, x, x) == Some([]) == PairRule(ReductionPattern, cx, cx)
            && PairRule(ReductionPattern, cx, x) == None
  {
    hide SortedDescending;
  }

  lemma UnguardedVisits()
    ensures var x, cx := Plain(X, [], 0), Plain(X, [0], 1);
            && Visit(ReductionPattern, [], x) == [x]
            && Visit(ReductionPattern, [x], cx) == [x, cx]
            && Visit(ReductionPattern, [x, cx], x) == [x, cx, x]
            && Visit(ReductionPattern, [x, cx, x], cx) == [x, x]
            && Partner(ReductionPattern, [x], x) == 0 && Visit(ReductionPattern, [x], x) == []
            && Visit(ReductionPattern, [x, x], x) == [x]
  {
    hide PrevOn, PairRule, ScanWire, Visit, Partner, Without, Operation.WellFormed;
    var x, cx := Plain(X, [], 0), Plain(X, [0], 1);
    ReductionRules();
    UnguardedScans();
    CancellationStep(ReductionPattern, [], x, 0, -1);
    CancellationStep(ReductionPattern, [x], cx, 1, -1);
    CancellationStep(ReductionPattern, [x, cx], x, 0, 1);
    CancellationStep(ReductionPattern, [x, cx, x], cx, 1, 1);
    UnguardedSecondWalk();
    WithoutMiddle(x, cx, x);
    assert [] + [x] == [x] && [x] + [cx] == [x, cx] && [x, cx] + [x] == [x, cx, x];
  }

  lemma UnguardedScans()
    ensures var x, cx := Plain(X, [], 0), Plain(X, [0], 1);
            && PrevOn([], 0) == -1 && PrevOn([x], 1) == -1 && PrevOn([x, cx], 0) == 1 && PrevOn([x, cx, x], 1) == 1
            && PrevOn([x], 0) == 0 && PrevOn([x, x], 0) == 1
  {
    hide PrevOn;
    var x, cx := Plain(X, [], 0), Plain(X, [0], 1);
    PrevOnNone([], 0);
    PrevOnNone([x], 1);
    PrevOnUnique([x, cx], 0, 1);
    PrevOnUnique([x, cx, x], 1, 1);
    PrevOnUnique([x], 0, 0);
    PrevOnUnique([x, x], 0, 1);
  }

  lemma UnguardedSecondWalk()
    ensures var x := Plain(X, [], 0);
            && Partner(ReductionPattern, [x], x) == 0 && Visit(ReductionPattern, [x], x) == []
            && Visit(ReductionPattern, [x, x], x) == [x]
  {
    hide PrevOn, PairRule, ScanWire, Visit, Partner, Operation.WellFormed;
    var x := Plain(X, [], 0);
    ReductionRules();
    UnguardedScans();
    CancellationStep(ReductionPattern, [x], x, 0, 0);
    CancellationStep(ReductionPattern, [x, x], x, 0, 1);
  }

  /** A visit whose scan of wire q stops at position j. */
  lemma CancellationStep(pass: Pass, done: seq<Gate>, g: Gate, q: nat, j: int)
    requires pass.Cancellation? && ScanWire(pass, g) == Some(q) && PrevOn(done, q) == j
    ensures var found := j >= 0 && PairRule(pass, done[j], g).Some?;
            && Partner(pass, done, g) == (if found then j else -1)
            && Visit(pass, done, g) == if found then Without(done, j) else done + [g]
  {
    hide PrevOn, PairRule, ScanWire, Operation.WellFormed;
    CancellationVisit(pass, done, g);
  }

  lemma WithoutMiddle(x: Gate, y: Gate, z: Gate)
    ensures Without([x, y, z], 1) == [x, z] && Without([x], 0) == [] && Without([x, z], 1) == [x]
  {
  }

  // ---- Commuting and switching: the measure ----

  /** The rule would rewrite p and g if nothing stood between them. */
  predicate Pair(pass: Pass, p: Gate, g: Gate) {
    && ScanWire(pass, g).Some?
    && p.Touches(ScanWire(pass, g).value)
    && PairRule(pass, p, g).Some?
  }

  /** How many gates of gs pair with a later g. */
  function Before(pass: Pass, gs: seq<Gate>, g: Gate): nat {
    if gs == [] then 0 else Before(pass, gs[..|gs| - 1], g) + (if Pair(pass, gs[|gs| - 1], g) then 1 else 0)
  }

  /** How many (earlier, later) pairs of gates pair up. */
  function Inversions(pass: Pass, gs: seq<Gate>): nat {
    if gs == [] then 0
    else Inversions(pass, gs[..|gs| - 1]) + Before(pass, gs[..|gs| - 1], gs[|gs| - 1])
  }

  /** How many rewrites a walk performs. */
  function Fires(pass: Pass, gs: seq<Gate>): nat {
    if gs == [] then 0
    else Fires(pass, gs[..|gs| - 1]) + (if Partner(pass, Walk(pass, gs[..|gs| - 1]), gs[|gs| - 1]) >= 0 then 1 else 0)
  }

  /** The passes that move the earlier gate behind the later one. */
  predicate Moving(pass: Pass) {
    Commuting(pass) || pass.PauliPastH?
  }

  /** The earlier gate as it comes out behind the later one. */
  function Moved(pass: Pass, p: Gate): Gate {
    if pass.PauliPastH? && Pauli(p.kind) then As(PauliAfterH(p.kind), p) else p
  }

  lemma {:induction false} BeforeConcat(pass: Pass, xs: seq<Gate>, ys: seq<Gate>, g: Gate)
    ensures Before(pass, xs + ys, g) == Before(pass, xs, g) + Before(pass, ys, g)
  {
    hide Pair;
    if ys == [] {
      assert xs + ys == xs;
    } else {
      var n := |ys| - 1;
      assert (xs + ys)[..|xs + ys| - 1] == xs + ys[..n] && (xs + ys)[|xs + ys| - 1] == ys[n];
      BeforeConcat(pass, xs, ys[..n], g);
    }
  }

  lemma BeforeOne(pass: Pass, p: Gate, g: Gate)
    ensures Before(pass, [p], g) == if Pair(pass, p, g) then 1 else 0
  {
    hide Pair;
    assert [p][..0] == [];
  }

  /** The pairs whose earlier gate is in xs and whose later gate is in ys. */
  function Across(pass: Pass, xs: seq<Gate>, ys: seq<Gate>): nat {
    if ys == [] then 0 else Across(pass, xs, ys[..|ys| - 1]) + Before(pass, xs, ys[|ys| - 1])
  }

  lemma {:induction false} InversionsConcat(pass: Pass, xs: seq<Gate>, ys: seq<Gate>)
    ensures Inversions(pass, xs + ys) == Inversions(pass, xs) + Inversions(pass, ys) + Across(pass, xs, ys)
  {
    hide Before;
    if ys == [] {
      assert xs + ys == xs;
    } else {
      var n := |ys| - 1;
      assert (xs + ys)[..|xs + ys| - 1] == xs + ys[..n] && (xs + ys)[|xs + ys| - 1] == ys[n];
      InversionsConcat(pass, xs, ys[..n]);
      BeforeConcat(pass, xs, ys[..n], ys[n]);
    }
  }

  lemma {:induction false} AcrossConcat(pass: Pass, xs: seq<Gate>, ys: seq<Gate>, zs: seq<Gate>)
    ensures Across(pass, xs + ys, zs) == Across(pass, xs, zs) + Across(pass, ys, zs)
  {
    hide Before;
    if zs != [] {
      AcrossConcat(pass, xs, ys, zs[..|zs| - 1]);
      BeforeConcat(pass, xs, ys, zs[|zs| - 1]);
    }
  }

  lemma {:induction false} AcrossSplit(pass: Pass, xs: seq<Gate>, ys: seq<Gate>, zs: seq<Gate>)
    ensures Across(pass, xs, ys + zs) == Across(pass, xs, ys) + Across(pass, xs, zs)
  {
    hide Before;
    if zs == [] {
      assert ys + zs == ys;
    } else {
      var n := |zs| - 1;
      assert (ys + zs)[..|ys + zs| - 1] == ys + zs[..n] && (ys + zs)[|ys + zs| - 1] == zs[n];
      AcrossSplit(pass, xs, ys, zs[..n]);
    }
  }

  lemma InversionsSnoc(pass: Pass, xs: seq<Gate>, g: Gate)
    ensures Inversions(pass, xs + [g]) == Inversions(pass, xs) + Before(pass, xs, g)
  {
    hide Before;
    assert (xs + [g])[..|xs|] == xs;
  }

  lemma OneInversions(pass: Pass, p: Gate)
    ensures Inversions(pass, [p]) == 0
  {
    assert [p][..0] == [];
    assert Before(pass, [], p) == 0;
  }

  lemma AcrossOne(pass: Pass, xs: seq<Gate>, p: Gate)
    ensures Across(pass, xs, [p]) == Before(pass, xs, p)
  {
    hide Before;
    assert [p][..0] == [];
    assert Across(pass, xs, []) == 0;
  }

  /** A gate that is never the later gate of a pair. */
  lemma {:induction false} NeverLater(pass: Pass, xs: seq<Gate>, p: Gate)
    requires ScanWire(pass, p).None?
    ensures Before(pass, xs, p) == 0
  {
    if xs != [] { NeverLater(pass, xs[..|xs| - 1], p); }
  }

  lemma {:induction false} NeverEarlier(pass: Pass, p: Gate, ys: seq<Gate>)
    requires forall g <- ys :: !Pair(pass, p, g)
    ensures Across(pass, [p], ys) == 0
  {
    hide Pair;
    if ys != [] {
      BeforeOne(pass, p, ys[|ys| - 1]);
      NeverEarlier(pass, p, ys[..|ys| - 1]);
    }
  }

  /** What the moving passes have in common: the rule turns p, g into g, p' where p' pairs with the
      same gates as p, and neither p nor p' is ever the later, nor g the earlier, gate of a pair. */
  lemma MovingRule(pass: Pass, p: Gate, g: Gate)
    requires Moving(pass) && Pair(pass, p, g)
    ensures PairRule(pass, p, g) == Some([g, Moved(pass, p)])
    ensures ScanWire(pass, p).None? && ScanWire(pass, Moved(pass, p)).None?
    ensures forall h: Gate :: !Pair(pass, g, h)
    ensures forall h: Gate :: Pair(pass, p, h) == Pair(pass, Moved(pass, p), h)
    ensures forall h: Gate :: Pair(pass, p, h) ==> h.Touches(ScanWire(pass, g).value)
  {
    hide SortedDescending, Operation.WellFormed;
  }

  /** Moving p out to behind g removes exactly the pair (p, g). */
  lemma MoveLowers(pass: Pass, xs: seq<Gate>, p: Gate, mid: seq<Gate>, g: Gate)
    requires Moving(pass) && Pair(pass, p, g)
    requires forall h <- mid :: !h.Touches(ScanWire(pass, g).value)
    ensures Inversions(pass, xs + [p] + mid + [g]) == Inversions(pass, xs + mid + [g, Moved(pass, p)]) + 1
  {
    hide Pair, Inversions, Before, Across, Moving, ScanWire, PairRule;
    var p' := Moved(pass, p);
    MovingRule(pass, p, g);
    NeverLater(pass, xs, p);
    NeverLater(pass, xs + mid + [g], p');
    NeverEarlier(pass, p, mid);
    // xs [p] mid [g]
    InversionsConcat(pass, xs + [p] + mid, [g]);
    InversionsConcat(pass, xs + [p], mid);
    InversionsConcat(pass, xs, [p]);
    AcrossConcat(pass, xs, [p], mid);
    AcrossOne(pass, xs + [p] + mid, g);
    AcrossOne(pass, xs, p);
    BeforeConcat(pass, xs + [p], mid, g);
    BeforeConcat(pass, xs, [p], g);
    BeforeOne(pass, p, g);
    // xs mid [g] [p']
    assert xs + mid + [g, p'] == xs + mid + [g] + [p'];
    InversionsConcat(pass, xs + mid + [g], [p']);
    InversionsConcat(pass, xs + mid, [g]);
    InversionsConcat(pass, xs, mid);
    AcrossOne(pass, xs + mid + [g], p');
    AcrossOne(pass, xs + mid, g);
    BeforeConcat(pass, xs, mid, g);
    OneInversions(pass, p);
    OneInversions(pass, p');
    OneInversions(pass, g);
  }

  lemma MoveKeepsBefore(pass: Pass, xs: seq<Gate>, p: Gate, mid: seq<Gate>, g: Gate, h: Gate)
    requires Moving(pass) && Pair(pass, p, g)
    ensures Before(pass, xs + mid + [g, Moved(pass, p)], h) == Before(pass, xs + [p] + mid + [g], h)
  {
    hide Pair, Before, Moving, ScanWire, PairRule;
    var p' := Moved(pass, p);
    MovingRule(pass, p, g);
    assert xs + mid + [g, p'] == xs + mid + [g] + [p'];
    BeforeConcat(pass, xs + mid + [g], [p'], h);
    BeforeConcat(pass, xs + mid, [g], h);
    BeforeConcat(pass, xs, mid, h);
    BeforeConcat(pass, xs + [p] + mid, [g], h);
    BeforeConcat(pass, xs + [p], mid, h);
    BeforeConcat(pass, xs, [p], h);
    BeforeOne(pass, p, h);
    BeforeOne(pass, p', h);
  }

  /** One visit either leaves the block alone or moves one gate and removes one pair. */
  lemma VisitMoves(pass: Pass, done: seq<Gate>, g: Gate)
    requires Moving(pass)
    ensures var j := Partner(pass, done, g);
            && (j < 0 ==> Visit(pass, done, g) == done + [g])
            && (j >= 0 ==>
                && Pair(pass, done[j], g)
                && Visit(pass, done, g) == done[..j] + done[j + 1..] + [g, Moved(pass, done[j])]
                && done + [g] == done[..j] + [done[j]] + done[j + 1..] + [g]
                && forall h <- done[j + 1..] :: !h.Touches(ScanWire(pass, g).value))
  {
    hide Moving, Operation.WellFormed, Operation.Touches, Pair, Partner, Visit, PairRule, Moved;
    var j := Partner(pass, done, g);
    PartnerPairs(pass, done, g);
    MovingShape(pass);
    VisitIs(pass, done, g);
    if j >= 0 {
      MovingRule(pass, done[j], g);
      assert done == done[..j] + [done[j]] + done[j + 1..];
    }
  }

  lemma VisitIs(pass: Pass, done: seq<Gate>, g: Gate)
    requires !pass.Sandwich? && !Decomposing(pass)
    ensures var j := Partner(pass, done, g);
            && (j < 0 ==> Visit(pass, done, g) == done + [g])
            && (j >= 0 ==> && ScanWire(pass, g).Some? && PairRule(pass, done[j], g).Some?
                           && Visit(pass, done, g) == Without(done, j) + PairRule(pass, done[j], g).value)
  {
    hide PrevOn, SortedDescending, Without;
  }

  /** A partner pairs with g, and nothing behind it touches the scanned wire. */
  lemma PartnerPairs(pass: Pass, done: seq<Gate>, g: Gate)
    ensures var j := Partner(pass, done, g);
            j >= 0 ==> Pair(pass, done[j], g)
                       && forall h <- done[j + 1..] :: !h.Touches(ScanWire(pass, g).value)
  {
    hide PairRule, ScanWire, Operation.Touches, Operation.WellFormed;
    var j := Partner(pass, done, g);
    if j >= 0 {
      forall h | h in done[j + 1..] ensures !h.Touches(ScanWire(pass, g).value) {
        var n :| 0 <= n < |done[j + 1..]| && done[j + 1..][n] == h;
        assert done[j + 1 + n] == h;
      }
    }
  }

  lemma MovingShape(pass: Pass)
    requires Moving(pass)
    ensures !pass.Sandwich? && !Decomposing(pass)
  {
  }

  lemma {:induction false} WalkKeepsBefore(pass: Pass, gs: seq<Gate>, h: Gate)
    requires Moving(pass)
    ensures Before(pass, Walk(pass, gs), h) == Before(pass, gs, h)
  {
    hide Pair, Moving, Partner, Visit, Moved, ScanWire, Walk, Before, YSwitches, YSwitched, GuardedWalk, Guarded,
         Operation.WellFormed;
    WalkUnfold(pass, gs);
    if gs != [] {
      var init, g := gs[..|gs| - 1], gs[|gs| - 1];
      var done := Walk(pass, init);
      var j := Partner(pass, done, g);
      WalkKeepsBefore(pass, init, h);
      VisitMoves(pass, done, g);
      BeforeConcat(pass, done, [g], h);
      BeforeConcat(pass, init, [g], h);
      assert gs == init + [g];
      if j >= 0 {
        MoveKeepsBefore(pass, done[..j], done[j], done[j + 1..], g, h);
      }
    }
  }

  /** A walk of a commuting pass, or of SwitchPauliH, removes one pair per rewrite it performs. */
  lemma {:induction false} WalkLowers(pass: Pass, gs: seq<Gate>)
    requires Moving(pass)
    ensures Inversions(pass, Walk(pass, gs)) + Fires(pass, gs) == Inversions(pass, gs)
  {
    hide Pair, Moving, Partner, Visit, Moved, ScanWire, Before, Operation.WellFormed, Operation.Touches;
    if gs != [] {
      var init, g := gs[..|gs| - 1], gs[|gs| - 1];
      var done := Walk(pass, init);
      var j := Partner(pass, done, g);
      WalkLowers(pass, init);
      WalkKeepsBefore(pass, init, g);
      VisitMoves(pass, done, g);
      InversionsSnoc(pass, done, g);
      if j >= 0 {
        MoveLowers(pass, done[..j], done[j], done[j + 1..], g);
      }
    }
  }

  /** Commuting passes only reorder. */
  lemma {:induction false} CommutingPermutes(pass: Pass, gs: seq<Gate>)
    requires Commuting(pass)
    ensures multiset(Walk(pass, gs)) == multiset(gs)
  {
    hide Pair, Partner, Visit, ScanWire, Operation.WellFormed, Commuting;
    if gs != [] {
      var init, g := gs[..|gs| - 1], gs[|gs| - 1];
      var done := Walk(pass, init);
      var j := Partner(pass, done, g);
      CommutingPermutes(pass, init);
      assert Moving(pass);
      VisitMoves(pass, done, g);
      assert gs == init + [g];
      NotPauliPastH(pass);
      if j >= 0 { PermutedMove(done[..j], done[j], done[j + 1..], g); }
    }
  }

  lemma NotPauliPastH(pass: Pass)
    requires Commuting(pass)
    ensures !pass.PauliPastH?
  {
  }

  lemma PermutedMove(xs: seq<Gate>, p: Gate, mid: seq<Gate>, g: Gate)
    ensures multiset(xs + mid + [g, p]) == multiset(xs + [p] + mid + [g])
  {
  }

  /** A walk changes nothing exactly when it performs no rewrite. */
  lemma {:induction false} QuietWalk(pass: Pass, gs: seq<Gate>)
    requires Moving(pass)
    ensures Fires(pass, gs) == 0 <==> Walk(pass, gs) == gs
  {
    if Walk(pass, gs) == gs {
      WalkLowers(pass, gs);
    }
    if Fires(pass, gs) == 0 {
      QuietWalkKeeps(pass, gs);
    }
  }

  lemma {:induction false} QuietWalkKeeps(pass: Pass, gs: seq<Gate>)
    requires Moving(pass) && Fires(pass, gs) == 0
    ensures Walk(pass, gs) == gs
  {
    hide Pair, Moving, Partner, Visit, Moved, ScanWire, Operation.WellFormed;
    if gs != [] {
      var init, g := gs[..|gs| - 1], gs[|gs| - 1];
      QuietWalkKeeps(pass, init);
      VisitMoves(pass, init, g);
      assert gs == init + [g];
    }
  }

  /** The block after the pass has been run until it changes nothing. */
  function Settled(pass: Pass, gs: seq<Gate>): (r: seq<Gate>)
    requires Moving(pass)
    ensures Walk(pass, r) == r
    decreases Inversions(pass, gs)
  {
    var next := Walk(pass, gs);
    if next == gs then gs
    else
      WalkLowers(pass, gs);
      QuietWalk(pass, gs);
      Settled(pass, next)
  }

  lemma {:induction false} FiresStable(pass: Pass, gs: seq<Gate>)
    requires Moving(pass) && Fires(pass, gs) == 0
    ensures Stable(pass, gs)
  {
    hide Moving, Partner, Walk, Stable, Operation.WellFormed;
    if gs == [] {
      EmptyStable(pass);
    } else {
      var init, g := gs[..|gs| - 1], gs[|gs| - 1];
      FiresStable(pass, init);
      QuietWalk(pass, init);
      StableSnoc(pass, init, g);
      assert gs == init + [g];
    }
  }

  /** In the settled block no gate finds a gate it would be exchanged with. */
  lemma SettledStable(pass: Pass, gs: seq<Gate>)
    requires Moving(pass)
    ensures Stable(pass, Settled(pass, gs))
  {
    hide Moving, Walk, Stable, Fires;
    QuietWalk(pass, Settled(pass, gs));
    FiresStable(pass, Settled(pass, gs));
  }

  /** How many walks change the block before it is settled: at most as many as it has inverted pairs. */
  function Rounds(pass: Pass, gs: seq<Gate>): (n: nat)
    requires Moving(pass)
    ensures n <= Inversions(pass, gs)
    decreases Inversions(pass, gs)
  {
    var next := Walk(pass, gs);
    if next == gs then 0
    else
      WalkLowers(pass, gs);
      QuietWalk(pass, gs);
      1 + Rounds(pass, next)
  }

  /** The block after n walks. */
  function Walks(pass: Pass, gs: seq<Gate>, n: nat): seq<Gate>
    decreases n
  {
    if n == 0 then gs else Walks(pass, Walk(pass, gs), n - 1)
  }

  /** That many walks are what it takes: they give the settled block, and each of them changes its own. */
  lemma {:induction false} RoundsSettle(pass: Pass, gs: seq<Gate>)
    requires Moving(pass)
    ensures Walks(pass, gs, Rounds(pass, gs)) == Settled(pass, gs)
    ensures forall m: nat :: m < Rounds(pass, gs) ==> Walk(pass, Walks(pass, gs, m)) != Walks(pass, gs, m)
    decreases Inversions(pass, gs)
  {
    hide Walk, Moving, Inversions, Fires;
    var next := Walk(pass, gs);
    if next != gs {
      WalkLowers(pass, gs);
      QuietWalk(pass, gs);
      RoundsSettle(pass, next);
      forall m: nat | m < Rounds(pass, gs) ensures Walk(pass, Walks(pass, gs, m)) != Walks(pass, gs, m) {
        assert m > 0 ==> Walks(pass, gs, m) == Walks(pass, next, m - 1);
      }
    }
  }

  // ---- What the settled block means ----

  /** How many Y gates all the walks together switch with an H. */
  function SettledSwitches(pass: Pass, gs: seq<Gate>): nat
    requires Moving(pass)
    decreases Inversions(pass, gs)
  {
    var next := Walk(pass, gs);
    if next == gs then 0
    else
      WalkLowers(pass, gs);
      QuietWalk(pass, gs);
      YSwitches(pass, gs) + SettledSwitches(pass, next)
  }

  /** Every walk on the way satisfies the guard. */
  predicate GuardedRuns(pass: Pass, gs: seq<Gate>)
    requires Moving(pass)
    decreases Inversions(pass, gs)
  {
    var next := Walk(pass, gs);
    if next == gs then GuardedWalk(pass, gs)
    else
      WalkLowers(pass, gs);
      QuietWalk(pass, gs);
      GuardedWalk(pass, gs) && GuardedRuns(pass, next)
  }

  lemma MovingShipped(pass: Pass)
    requires Moving(pass)
    ensures Shipped(pass)
  {
  }

  /** Repeating a guarded pass until nothing changes keeps the meaning, up to the sign of the Y
      switches of all walks. */
  lemma {:induction false} SettledMeans(tr: Trig, pass: Pass, gs: seq<Gate>)
    requires tr.Lawful() && Moving(pass) && GuardedRuns(pass, gs)
    ensures Means(tr, SignOf(SettledSwitches(pass, gs)), Settled(pass, gs), gs)
    decreases Inversions(pass, gs)
  {
    hide Means, tr.Lawful, SignOf, Mul, Walk, Moving, Shipped, GuardedWalk, YSwitches, Inversions, Fires, Settled,
         SettledSwitches, GuardedRuns, Operation.WellFormed;
    var next := Walk(pass, gs);
    SettledUnfold(pass, gs);
    if next == gs {
      MeansRefl(tr, gs);
      SignZero();
    } else {
      WalkLowers(pass, gs);
      QuietWalk(pass, gs);
      MovingShipped(pass);
      SettledMeans(tr, pass, next);
      WalkSound(tr, pass, gs);
      var j, k := SettledSwitches(pass, next), YSwitches(pass, gs);
      MeansTrans(tr, SignOf(j), SignOf(k), Settled(pass, next), next, gs);
      SignSum(j, k);
      assert j + k == k + j;
    }
  }

  lemma SettledUnfold(pass: Pass, gs: seq<Gate>)
    requires Moving(pass)
    ensures var next := Walk(pass, gs);
            if next == gs then Settled(pass, gs) == gs && SettledSwitches(pass, gs) == 0
            else
              && Settled(pass, gs) == Settled(pass, next)
              && SettledSwitches(pass, gs) == YSwitches(pass, gs) + SettledSwitches(pass, next)
              && (GuardedRuns(pass, gs) ==> GuardedWalk(pass, gs) && GuardedRuns(pass, next))
  {
    hide Walk, Moving, GuardedWalk, YSwitches, Inversions, Fires, Operation.WellFormed;
  }

  lemma {:induction false} OneWireRuns(pass: Pass, gs: seq<Gate>)
    requires Moving(pass) && OneWire(pass)
    ensures GuardedRuns(pass, gs)
    decreases Inversions(pass, gs)
  {
    hide Walk, Moving, Shipped, OneWire, GuardedWalk, Inversions, Fires;
    MovingShipped(pass);
    OneWireGuardedWalk(pass, gs);
    if Walk(pass, gs) != gs {
      WalkLowers(pass, gs);
      QuietWalk(pass, gs);
      OneWireRuns(pass, Walk(pass, gs));
    }
  }

  /** Rx-CX, X-CX, Z-CX and SwitchPauliH may be repeated on any circuit. */
  lemma OneWireSettledMeans(tr: Trig, pass: Pass, gs: seq<Gate>)
    requires tr.Lawful() && Moving(pass) && OneWire(pass)
    ensures Means(tr, SignOf(SettledSwitches(pass, gs)), Settled(pass, gs), gs)
  {
    hide Means, tr.Lawful, SignOf, Moving, OneWire, Settled, SettledSwitches, GuardedRuns;
    OneWireRuns(pass, gs);
    SettledMeans(tr, pass, gs);
  }

  /** Settling a commuting pass pays no sign and keeps the multiset of gates. */
  lemma {:induction false} SettledPermutes(pass: Pass, gs: seq<Gate>)
    requires Commuting(pass)
    ensures SettledSwitches(pass, gs) == 0 && multiset(Settled(pass, gs)) == multiset(gs)
    decreases Inversions(pass, gs)
  {
    hide Walk, Commuting, YSwitches, Inversions, Fires;
    assert Moving(pass);
    if Walk(pass, gs) != gs {
      WalkLowers(pass, gs);
      QuietWalk(pass, gs);
      NeverSwitching(pass);
      NoYSwitches(pass, gs);
      CommutingPermutes(pass, gs);
      SettledPermutes(pass, Walk(pass, gs));
    }
  }

  lemma NeverSwitching(pass: Pass)
    requires Commuting(pass)
    ensures !Switching(pass)
  {
  }
}
