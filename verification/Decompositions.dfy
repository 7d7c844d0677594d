/** The decomposition passes gate by gate: growth, and how two of them compose to the third. */
module Decompositions {
  import opened Gates
  import opened Passes

  /** What a decomposition leaves in place of one gate. */
  function Expanded(pass: Pass, g: Gate): seq<Gate> {
    if SingleRule(pass, g).Some? then SingleRule(pass, g).value else [g]
  }

  lemma VisitExpands(pass: Pass, done: seq<Gate>, g: Gate)
    requires Decomposing(pass)
    ensures Visit(pass, done, g) == done + Expanded(pass, g)
  {
    hide SingleRule;
  }

  /** Each original gate is visited once and no inserted gate is: the walk of a circuit is the walk
      of its parts, one after the other. */
  lemma {:induction false} WalkSplits(pass: Pass, xs: seq<Gate>, ys: seq<Gate>)
    requires Decomposing(pass)
    ensures Walk(pass, xs + ys) == Walk(pass, xs) + Walk(pass, ys)
  {
    hide Visit, SingleRule, Expanded, Operation.WellFormed;
    if ys == [] {
      assert xs + ys == xs;
    } else {
      var init, g := ys[..|ys| - 1], ys[|ys| - 1];
      assert (xs + ys)[..|xs + ys| - 1] == xs + init && (xs + ys)[|xs + ys| - 1] == g;
      WalkSplits(pass, xs, init);
      VisitExpands(pass, Walk(pass, xs + init), g);
      VisitExpands(pass, Walk(pass, init), g);
    }
  }

  lemma WalkOne(pass: Pass, g: Gate)
    requires Decomposing(pass)
    ensures Walk(pass, [g]) == Expanded(pass, g)
  {
    hide SingleRule, Visit, Expanded;
    assert [g][..0] == [];
    VisitExpands(pass, [], g);
  }

  /** How many gates the pass expands. */
  function Matches(pass: Pass, gs: seq<Gate>): nat {
    if gs == [] then 0 else Matches(pass, gs[..|gs| - 1]) + (if SingleRule(pass, gs[|gs| - 1]).Some? then 1 else 0)
  }

  /** ReverseCx adds four gates per CX; the other two decompositions add two per matched gate. */
  lemma {:induction false} WalkGrows(pass: Pass, gs: seq<Gate>)
    requires Decomposing(pass)
    ensures |Walk(pass, gs)| == |gs| + (if pass == ReverseCx then 4 else 2) * Matches(pass, gs)
  {
    hide Visit, SingleRule, Operation.WellFormed;
    if gs != [] {
      var g := gs[|gs| - 1];
      WalkGrows(pass, gs[..|gs| - 1]);
      VisitExpands(pass, Walk(pass, gs[..|gs| - 1]), g);
      if SingleRule(pass, g).Some? { RuleLength(pass, g); }
    }
  }

  lemma RuleLength(pass: Pass, g: Gate)
    requires Decomposing(pass) && SingleRule(pass, g).Some?
    ensures |SingleRule(pass, g).value| == (if pass == ReverseCx then 5 else 3)
  {
  }

  // ---- CxToHCzH and then CzToHCxH is ReverseCx, up to the order of two H gates ----

  predicate LoneH(g: Gate) { g.Is(H, 0) }

  /** ys is xs with one adjacent pair of H gates on different qubits exchanged. */
  ghost predicate OneSwap(xs: seq<Gate>, ys: seq<Gate>) {
    exists pre: seq<Gate>, g: Gate, h: Gate, post: seq<Gate> ::
      && LoneH(g) && LoneH(h) && g.targets[0] != h.targets[0]
      && xs == pre + [g, h] + post && ys == pre + [h, g] + post
  }

  ghost predicate Swaps(n: nat, xs: seq<Gate>, ys: seq<Gate>) {
    if n == 0 then xs == ys else exists zs: seq<Gate> :: OneSwap(xs, zs) && Swaps(n - 1, zs, ys)
  }

  lemma OneSwapInside(pre: seq<Gate>, xs: seq<Gate>, ys: seq<Gate>, post: seq<Gate>)
    requires OneSwap(xs, ys)
    ensures OneSwap(pre + xs + post, pre + ys + post)
  {
    var a: seq<Gate>, g: Gate, h: Gate, b: seq<Gate> :|
      && LoneH(g) && LoneH(h) && g.targets[0] != h.targets[0]
      && xs == a + [g, h] + b && ys == a + [h, g] + b;
    assert pre + xs + post == (pre + a) + [g, h] + (b + post);
    assert pre + ys + post == (pre + a) + [h, g] + (b + post);
  }

  lemma {:induction false} SwapsInside(n: nat, pre: seq<Gate>, xs: seq<Gate>, ys: seq<Gate>, post: seq<Gate>)
    requires Swaps(n, xs, ys)
    ensures Swaps(n, pre + xs + post, pre + ys + post)
  {
    hide OneSwap, Operation.WellFormed;
    if n > 0 {
      var zs: seq<Gate> :| OneSwap(xs, zs) && Swaps(n - 1, zs, ys);
      OneSwapInside(pre, xs, zs, post);
      SwapsInside(n - 1, pre, zs, ys, post);
    }
  }

  lemma {:induction false} SwapsTrans(m: nat, n: nat, xs: seq<Gate>, ys: seq<Gate>, zs: seq<Gate>)
    requires Swaps(m, xs, ys) && Swaps(n, ys, zs)
    ensures Swaps(m + n, xs, zs)
  {
    hide OneSwap, Operation.WellFormed;
    if m > 0 {
      var vs: seq<Gate> :| OneSwap(xs, vs) && Swaps(m - 1, vs, ys);
      SwapsTrans(m - 1, n, vs, ys, zs);
    }
  }

  predicate NoCz(gs: seq<Gate>) {
    forall g <- gs :: !g.Is(Z, 1)
  }

  function Twice(gs: seq<Gate>): seq<Gate> {
    Walk(CzToHCxH, Walk(CxToHCzH, gs))
  }

  /** On one gate other than CZ: a CX needs one exchange, anything else none. */
  lemma OneGateComposes(g: Gate)
    requires !g.Is(Z, 1)
    ensures Swaps(if g.Is(X, 1) then 1 else 0, Twice([g]), Walk(ReverseCx, [g]))
  {
    hide Walk, Operation.WellFormed;
    WalkOne(CxToHCzH, g);
    WalkOne(ReverseCx, g);
    if g.Is(X, 1) {
      var c, t := g.controls[0], g.targets[0];
      var cz := SingleRule(CxToHCzH, g).value[1];
      CxTwice(g);
      var ht, hc, x := Plain(H, [], t), Plain(H, [], c), SingleRule(ReverseCx, g).value[2];
      assert Twice([g]) == [ht, hc, x] + [hc, ht] + [];
      assert Walk(ReverseCx, [g]) == [ht, hc, x] + [ht, hc] + [];
      OperandsApart(g);
      assert OneSwap(Twice([g]), Walk(ReverseCx, [g]));
      assert Swaps(0, Walk(ReverseCx, [g]), Walk(ReverseCx, [g]));
    } else {
      assert Expanded(CxToHCzH, g) == [g];
      WalkOne(CzToHCxH, g);
      assert Twice([g]) == [g];
    }
  }

  lemma CxTwice(g: Gate)
    requires g.Is(X, 1)
    ensures var c, t := g.controls[0], g.targets[0];
            Twice([g]) == [Plain(H, [], t), Plain(H, [], c), SingleRule(ReverseCx, g).value[2], Plain(H, [], c),
                Plain(H, [], t)]
  {
    hide Walk;
    var c, t := g.controls[0], g.targets[0];
    var h, cz := Plain(H, [], t), SingleRule(CxToHCzH, g).value[1];
    WalkOne(CxToHCzH, g);
    assert Walk(CxToHCzH, [g]) == [h] + [cz] + [h];
    WalkSplits(CzToHCxH, [h] + [cz], [h]);
    WalkSplits(CzToHCxH, [h], [cz]);
    WalkOne(CzToHCxH, h);
    WalkOne(CzToHCxH, cz);
  }

  /** Decomposing every CX through CZ and decomposing the CZ again gives what ReverseCx gives, after
      exchanging one adjacent pair of H gates per CX; the circuit must not hold CZ gates of its own. */
  lemma {:induction false} ComposesToReverse(gs: seq<Gate>)
    requires NoCz(gs)
    ensures Swaps(Matches(ReverseCx, gs), Twice(gs), Walk(ReverseCx, gs))
  {
    hide Walk, SingleRule, Swaps, Operation.WellFormed;
    if gs == [] {
      assert Twice([]) == [] == Walk(ReverseCx, []) by { EmptyWalks(); }
      SwapsNone([]);
    } else {
      var init, g := gs[..|gs| - 1], gs[|gs| - 1];
      assert g in gs && NoCz(init);
      assert gs == init + [g];
      ComposesToReverse(init);
      OneGateComposes(g);
      WalkSplits(CxToHCzH, init, [g]);
      WalkSplits(CzToHCxH, Walk(CxToHCzH, init), Walk(CxToHCzH, [g]));
      WalkSplits(ReverseCx, init, [g]);
      MatchesCx(g);
      var m, n: nat := Matches(ReverseCx, init), if g.Is(X, 1) then 1 else 0;
      SwapsInside(m, [], Twice(init), Walk(ReverseCx, init), Twice([g]));
      SwapsInside(n, Walk(ReverseCx, init), Twice([g]), Walk(ReverseCx, [g]), []);
      assert [] + Twice(init) + Twice([g]) == Twice(gs);
      assert [] + Walk(ReverseCx, init) + Twice([g]) == Walk(ReverseCx, init) + Twice([g]) + [];
      assert Walk(ReverseCx, init) + Walk(ReverseCx, [g]) + [] == Walk(ReverseCx, gs);
      SwapsTrans(m, n, Twice(gs), Walk(ReverseCx, init) + Twice([g]) + [], Walk(ReverseCx, gs));
    }
  }

  lemma EmptyWalks()
    ensures Twice([]) == [] == Walk(ReverseCx, [])
  {
  }

  lemma SwapsNone(xs: seq<Gate>)
    ensures Swaps(0, xs, xs)
  {
  }

  lemma MatchesCx(g: Gate)
    ensures SingleRule(ReverseCx, g).Some? <==> g.Is(X, 1)
  {
  }

  // ---- The condition on CZ is exact ----

  lemma {:induction false} SwapsKeepLength(n: nat, xs: seq<Gate>, ys: seq<Gate>)
    requires Swaps(n, xs, ys)
    ensures |xs| == |ys|
  {
    hide Operation.WellFormed;
    if n > 0 {
      var zs: seq<Gate> :| OneSwap(xs, zs) && Swaps(n - 1, zs, ys);
      SwapsKeepLength(n - 1, zs, ys);
    }
  }

  lemma TwiceOneLength(g: Gate)
    ensures |Twice([g])| == 1 + (if g.Is(X, 1) then 4 else if g.Is(Z, 1) then 2 else 0)
  {
    hide Walk;
    WalkOne(CxToHCzH, g);
    if g.Is(X, 1) {
      CxTwice(g);
    } else {
      WalkOne(CzToHCxH, g);
    }
  }

  lemma {:induction false} TwiceLength(gs: seq<Gate>)
    ensures |Twice(gs)| == |gs| + 4 * Matches(ReverseCx, gs) + 2 * Matches(CzToHCxH, gs)
  {
    hide Walk, SingleRule, Operation.WellFormed;
    if gs == [] {
      EmptyWalks();
    } else {
      var init, g := gs[..|gs| - 1], gs[|gs| - 1];
      assert gs == init + [g];
      TwiceLength(init);
      TwiceOneLength(g);
      WalkSplits(CxToHCzH, init, [g]);
      WalkSplits(CzToHCxH, Walk(CxToHCzH, init), Walk(CxToHCzH, [g]));
      MatchesCx(g);
      MatchesCz(g);
    }
  }

  lemma MatchesCz(g: Gate)
    ensures SingleRule(CzToHCxH, g).Some? <==> g.Is(Z, 1)
  {
  }

  lemma {:induction false} NoCzMatches(gs: seq<Gate>)
    ensures NoCz(gs) <==> Matches(CzToHCxH, gs) == 0
  {
    hide SingleRule, Operation.WellFormed;
    if gs != [] {
      var init, g := gs[..|gs| - 1], gs[|gs| - 1];
      NoCzMatches(init);
      MatchesCz(g);
      assert gs == init + [g];
      assert g in gs && forall h <- gs :: h in init || h == g;
    }
  }

  /** The two routes agree, up to exchanging adjacent H gates, exactly on the circuits without CZ. */
  lemma RoutesAgree(gs: seq<Gate>)
    ensures (exists n: nat :: Swaps(n, Twice(gs), Walk(ReverseCx, gs))) <==> NoCz(gs)
  {
    hide Walk, SingleRule, Swaps, Twice, Operation.WellFormed;
    if NoCz(gs) {
      ComposesToReverse(gs);
    }
    if n: nat :| Swaps(n, Twice(gs), Walk(ReverseCx, gs)) {
      SwapsKeepLength(n, Twice(gs), Walk(ReverseCx, gs));
      TwiceLength(gs);
      WalkGrows(ReverseCx, gs);
      NoCzMatches(gs);
    }
  }

  /** A CZ alone: one route expands it into three gates, the other leaves it, and no exchange helps. */
  lemma CzKeepsRoutesApart()
    ensures var cz := Plain(Z, [0], 1);
            && Twice([cz]) == [Plain(H, [], 1), Plain(X, [0], 1), Plain(H, [], 1)]
            && Walk(ReverseCx, [cz]) == [cz]
            && forall n: nat :: !Swaps(n, Twice([cz]), Walk(ReverseCx, [cz]))
  {
    hide Walk, Swaps;
    var cz := Plain(Z, [0], 1);
    WalkOne(CxToHCzH, cz);
    WalkOne(CzToHCxH, cz);
    WalkOne(ReverseCx, cz);
    assert cz in [cz] && !NoCz([cz]);
    RoutesAgree([cz]);
  }
}
