/** Every shipped pass keeps the meaning of every circuit, up to the sign of its Y switches. */
module Soundness {
  import opened Amplitudes
  import opened Gates
  import opened Passes
  import opened LocalRules

  // ---- Comparing operand lists by sorting ----

  predicate Descending(s: seq<nat>) {
    forall i, j :: 0 <= i < j < |s| ==> s[i] >= s[j]
  }

  lemma {:induction false} InsertKeeps(x: nat, s: seq<nat>)
    ensures multiset(InsertDescending(x, s)) == multiset(s) + multiset{x}
  {
    if s != [] && x < s[0] {
      InsertKeeps(x, s[1..]);
      assert s == [s[0]] + s[1..];
    }
  }

  lemma {:induction false} InsertSorted(x: nat, s: seq<nat>)
    requires Descending(s)
    ensures Descending(InsertDescending(x, s))
  {
    hide Descending;
    HeadLargest(s);
    if s == [] || x >= s[0] {
      ConsDescending(x, s);
    } else {
      var r := InsertDescending(x, s[1..]);
      InsertSorted(x, s[1..]);
      InsertKeeps(x, s[1..]);
      forall y | y in r ensures s[0] >= y {
        assert y in multiset(r);
        assert y == x || y in s[1..];
        assert y in s[1..] ==> y in s;
      }
      ConsDescending(s[0], r);
    }
  }

  lemma HeadLargest(s: seq<nat>)
    requires Descending(s)
    ensures s != [] ==> Descending(s[1..]) && forall y <- s :: s[0] >= y
  {
  }

  lemma SameBound(m: nat, r: seq<nat>, s: seq<nat>)
    requires multiset(r) == multiset(s) && forall x <- s :: m >= x
    ensures forall x <- r :: m >= x
  {
    forall x | x in r ensures m >= x {
      assert x in multiset(r);
      assert x in multiset(s);
      assert x in s;
    }
  }

  lemma ConsDescending(x: nat, r: seq<nat>)
    requires Descending(r) && forall y <- r :: x >= y
    ensures Descending([x] + r)
  {
    forall i, j | 0 <= i < j < |[x] + r| ensures ([x] + r)[i] >= ([x] + r)[j] {
      assert r[j - 1] in r;
    }
  }

  lemma {:induction false} SortSorts(s: seq<nat>)
    ensures Descending(SortedDescending(s)) && multiset(SortedDescending(s)) == multiset(s)
  {
    if s != [] {
      SortSorts(s[1..]);
      InsertSorted(s[0], SortedDescending(s[1..]));
      InsertKeeps(s[0], SortedDescending(s[1..]));
      assert s == [s[0]] + s[1..];
    }
  }

  lemma {:induction false} DescendingUnique(s: seq<nat>, r: seq<nat>)
    requires Descending(s) && Descending(r) && multiset(s) == multiset(r)
    ensures s == r
  {
    if s == [] {
      assert |multiset(r)| == 0;
    } else {
      assert s[0] in multiset(r);
      assert r[0] in multiset(s);
      SameBound(s[0], r, s);
      SameBound(r[0], s, r);
      assert s == [s[0]] + s[1..];
      assert r == [r[0]] + r[1..];
      assert multiset(s[1..]) == multiset(s) - multiset{s[0]};
      assert multiset(r[1..]) == multiset(r) - multiset{r[0]};
      DescendingUnique(s[1..], r[1..]);
    }
  }

  /** Sorting both lists and comparing them decides whether they hold the same indices. */
  lemma SortDecides(s: seq<nat>, r: seq<nat>)
    ensures SortedDescending(s) == SortedDescending(r) <==> multiset(s) == multiset(r)
  {
    SortSorts(s);
    SortSorts(r);
    if multiset(s) == multiset(r) {
      DescendingUnique(SortedDescending(s), SortedDescending(r));
    }
  }

  lemma {:induction false} SortedWires(s: seq<nat>, r: seq<nat>)
    requires SortedDescending(s) == SortedDescending(r)
    ensures Wires(s) == Wires(r) && (|s| == 1 && |r| == 1 ==> s == r)
  {
    SortDecides(s, r);
    forall q: nat ensures q in s <==> q in r {
      assert q in s <==> q in multiset(s);
      assert q in r <==> q in multiset(r);
    }
    if |s| == 1 && |r| == 1 { assert s[0] in r; }
  }

  // ---- Adjacent pairs ----

  predicate YSwitch(pass: Pass, p: Gate, g: Gate) {
    Switching(pass) && (p.kind == Y || g.kind == Y)
  }

  function PairSign(pass: Pass, p: Gate, g: Gate): Complex {
    if YSwitch(pass, p, g) then MinusOne else One
  }

  lemma {:induction false} CancelPairSound(tr: Trig, pass: Pass, p: Gate, g: Gate)
    requires tr.Lawful() && Shipped(pass) && pass.Cancellation?
    requires ScanWire(pass, g).Some? && PairRule(pass, p, g).Some?
    requires p.Touches(ScanWire(pass, g).value)
    ensures Means(tr, PairSign(pass, p, g), PairRule(pass, p, g).value, [p, g])
  {
    hide Means, tr.Lawful, SortedDescending, Shipped;
    SortedWires(g.controls, p.controls);
    SortedWires(g.targets, p.targets);
    ShippedCancellation(pass, g);
    CancelPair(tr, p, g);
    MeansSym(tr, [p, g], []);
  }

  lemma {:induction false} CommutePairSound(tr: Trig, pass: Pass, p: Gate, g: Gate)
    requires tr.Lawful() && Shipped(pass) && Commuting(pass)
    requires ScanWire(pass, g).Some? && PairRule(pass, p, g).Some?
    requires p.Touches(ScanWire(pass, g).value)
    ensures Means(tr, PairSign(pass, p, g), PairRule(pass, p, g).value, [p, g])
  {
    hide Means, tr.Lawful, Shipped;
    if pass.Commutation? {
      ShippedCommutation(pass);
      if pass.k1 == X { XCommutesWithRx(tr, p, g); } else { XCommutesWithRx(tr, g, p); }
    } else if pass.CxPastZ? {
      OperandsApart(p);
      ZOnControl(tr, g, p);
    } else {
      OperandsApart(g);
      ZOnControl(tr, p, g);
      MeansSym(tr, [p, g], [g, p]);
    }
  }

  lemma {:induction false} SwitchPairSound(tr: Trig, pass: Pass, p: Gate, g: Gate)
    requires tr.Lawful() && Shipped(pass) && Switching(pass)
    requires ScanWire(pass, g).Some? && PairRule(pass, p, g).Some?
    requires p.Touches(ScanWire(pass, g).value)
    ensures Means(tr, PairSign(pass, p, g), PairRule(pass, p, g).value, [p, g])
  {
    hide Means, tr.Lawful, Shipped;
    if pass.Switch? {
      ShippedSwitch(pass);
      SwitchSound(tr, p, g, As(pass.k3, g), As(pass.k4, p));
    } else {
      SwitchSound(tr, p, g, g, As(PauliAfterH(p.kind), p));
    }
  }

  lemma {:induction false} SAndZPairSound(tr: Trig, pass: Pass, p: Gate, g: Gate)
    requires tr.Lawful() && Shipped(pass) && pass.SAndZ?
    requires ScanWire(pass, g).Some? && PairRule(pass, p, g).Some?
    requires p.Touches(ScanWire(pass, g).value)
    ensures Means(tr, PairSign(pass, p, g), PairRule(pass, p, g).value, [p, g])
  {
    hide Means, tr.Lawful, Shipped;
    assert p.targets == g.targets;
    SThenZ(tr, p, g, PairRule(pass, p, g).value[0]);
  }

  /** What a two-gate rule puts in place of an adjacent pair means the pair, up to its sign. */
  lemma {:induction false} PairSound(tr: Trig, pass: Pass, p: Gate, g: Gate)
    requires tr.Lawful() && Shipped(pass)
    requires ScanWire(pass, g).Some? && PairRule(pass, p, g).Some?
    requires p.Touches(ScanWire(pass, g).value)
    ensures Means(tr, PairSign(pass, p, g), PairRule(pass, p, g).value, [p, g])
  {
    hide Means, tr.Lawful, PairSign, Operation.Touches;
    match pass
    case Cancellation(_) => CancelPairSound(tr, pass, p, g);
    case Commutation(_, _, _, _) => CommutePairSound(tr, pass, p, g);
    case CxPastZ => CommutePairSound(tr, pass, p, g);
    case ZPastCx => CommutePairSound(tr, pass, p, g);
    case Switch(_, _, _, _) => SwitchPairSound(tr, pass, p, g);
    case PauliPastH => SwitchPairSound(tr, pass, p, g);
    case SAndZ(_) => SAndZPairSound(tr, pass, p, g);
  }

  lemma ShippedCancellation(pass: Pass, g: Gate)
    requires pass.Cancellation? && Shipped(pass) && ScanWire(pass, g).Some?
    ensures g.kind in {X, Y, Z, H} && Cancelling(pass)
  {
  }

  lemma ShippedCommutation(pass: Pass)
    requires pass.Commutation? && Shipped(pass)
    ensures (pass.k1 == X && pass.k2 in {X, Rx}) || (pass.k1 == Rx && pass.k2 == X)
    ensures pass.n1 + pass.n2 == 1
  {
  }

  lemma ShippedSwitch(pass: Pass)
    requires pass.Switch? && Shipped(pass)
    ensures (pass.k2 == H && pass.k3 == H && Pauli(pass.k1) && pass.k4 == PauliAfterH(pass.k1))
         || (pass.k1 == H && pass.k4 == H && Pauli(pass.k2) && pass.k3 == PauliAfterH(pass.k2))
  {
  }

  /** A Pauli and an H on one wire trade places; the Pauli becomes its conjugate, and Y costs a sign. */
  lemma SwitchSound(tr: Trig, p: Gate, g: Gate, p': Gate, g': Gate)
    requires p.targets == g.targets == p'.targets == g'.targets
    requires p.controls == g.controls == p'.controls == g'.controls == []
    requires (Pauli(p.kind) && g.kind == H && p'.kind == H && g'.kind == PauliAfterH(p.kind))
          || (p.kind == H && Pauli(g.kind) && p'.kind == PauliAfterH(g.kind) && g'.kind == H)
    ensures Means(tr, if p.kind == Y || g.kind == Y then MinusOne else One, [p', g'], [p, g])
  {
    hide Means, Times, MatH, ScaledBy, GateMatrix;
    SelfAdjoint(tr, p);
    SelfAdjoint(tr, g);
    SelfAdjoint(tr, p');
    SelfAdjoint(tr, g');
    HadamardConjugates(tr);
    ScaledOne(Times(GateMatrix(tr, g), GateMatrix(tr, p)));
    SwapPair(tr, if p.kind == Y || g.kind == Y then MinusOne else One, p, g, p', g');
  }

  // ---- Whole walks ----

  predicate YSwitched(pass: Pass, done: seq<Gate>, g: Gate) {
    var j := Partner(pass, done, g);
    j >= 0 && YSwitch(pass, done[j], g)
  }

  /** How many Y gates a walk switches with an H. */
  function YSwitches(pass: Pass, gs: seq<Gate>): nat {
    if gs == [] then 0
    else
      YSwitches(pass, gs[..|gs| - 1])
      + (if YSwitched(pass, Walk(pass, gs[..|gs| - 1]), gs[|gs| - 1]) then 1 else 0)
  }

  /** (-1)^k. */
  function SignOf(k: int): Complex { if k % 2 == 0 then One else MinusOne }

  lemma SignSum(j: int, k: int)
    ensures Mul(SignOf(j), SignOf(k)) == SignOf(j + k)
  {
    hide Mul;
    MulOne(One);
    MulOne(MinusOne);
    Negate(MinusOne);
  }

  /** A gate that slides out to the end of the prefix it stands in. */
  lemma SlideOut(tr: Trig, done: seq<Gate>, j: nat, post: seq<Gate>)
    requires j < |done| && Free(done[j], done[j + 1..])
    ensures Means(tr, One, done + post, Without(done, j) + [done[j]] + post)
  {
    hide Means, Free;
    var p, mid := done[j], done[j + 1..];
    Slide(tr, p, mid);
    MeansInside(tr, One, done[..j], [p] + mid, mid + [p], post);
    assert done[..j] + ([p] + mid) + post == done + post;
    assert done[..j] + (mid + [p]) + post == Without(done, j) + [p] + post;
  }

  lemma PairVisitSound(tr: Trig, pass: Pass, done: seq<Gate>, g: Gate)
    requires tr.Lawful() && Shipped(pass) && Guarded(pass, done, g)
    requires Partner(pass, done, g) >= 0
    ensures var j := Partner(pass, done, g);
            Means(tr, PairSign(pass, done[j], g), Without(done, j) + PairRule(pass, done[j], g).value, done + [g])
  {
    hide Means, tr.Lawful, PairRule, PairSign, Shipped;
    var j := Partner(pass, done, g);
    var p, out, w := done[j], PairRule(pass, done[j], g).value, PairSign(pass, done[j], g);
    PairSound(tr, pass, p, g);
    MeansInside(tr, w, Without(done, j), out, [p, g], []);
    assert Without(done, j) + out + [] == Without(done, j) + out;
    SlideOut(tr, done, j, [g]);
    assert Without(done, j) + [p] + [g] == Without(done, j) + [p, g] + [];
    MeansSym(tr, done + [g], Without(done, j) + [p, g] + []);
    MeansTrans(tr, w, One, Without(done, j) + out, Without(done, j) + [p, g] + [], done + [g]);
    MulOne(w);
  }

  /** Both outer gates of a sandwich may slide up to its end. */
  lemma {:induction false} SandwichFree(pass: Pass, done: seq<Gate>, g: Gate)
    requires pass.Sandwich? && SandwichAt(pass, done, g).Some?
    ensures var (i, j) := SandwichAt(pass, done, g).value;
            && done[i].Is(H, 0) && done[j].Is(pass.inner, 0) && g.Is(H, 0)
            && done[i].targets == done[j].targets == g.targets
            && Free(done[j], done[j + 1..])
            && i < |Without(done, j)| && Without(done, j)[i] == done[i] && Free(done[i], Without(done, j)[i + 1..])
  {
    var (i, j) := SandwichAt(pass, done, g).value;
    var q := g.targets[0];
    assert done[j].targets == [q] && done[i].targets == [q];
    forall k | k in done[j + 1..] ensures Passable(done[j], k) {
      var n :| 0 <= n < |done[j + 1..]| && done[j + 1..][n] == k;
      assert done[j + 1 + n] == k;
    }
    assert Without(done, j)[i + 1..] == done[i + 1..j] + done[j + 1..];
    forall k | k in done[i + 1..j] + done[j + 1..] ensures Passable(done[i], k) {
      if k in done[i + 1..j] {
        var n :| 0 <= n < |done[i + 1..j]| && done[i + 1..j][n] == k;
        assert done[..j][i + 1 + n] == k;
      } else {
        var n :| 0 <= n < |done[j + 1..]| && done[j + 1..][n] == k;
        assert done[j + 1 + n] == k;
      }
    }
  }

  lemma {:induction false} SandwichVisitSound(tr: Trig, pass: Pass, done: seq<Gate>, g: Gate)
    requires tr.Lawful() && pass in {HXHToZ, HZHToX}
    requires SandwichAt(pass, done, g).Some?
    ensures Means(tr, One, Visit(pass, done, g), done + [g])
  {
    hide Means, tr.Lawful, SandwichAt, Free, Without;
    SandwichFree(pass, done, g);
    var (i, j) := SandwichAt(pass, done, g).value;
    var rest, h, x, r := Without(done, j), done[i], done[j], Plain(pass.result, [], g.targets[0]);
    var base := Without(rest, i);
    SlideOut(tr, done, j, [g]);
    SlideOut(tr, rest, i, [x, g]);
    SandwichControlled(tr, h, x, g, r);
    MeansSym(tr, [h, x, g], [r]);
    MeansInside(tr, One, base, [r], [h, x, g], []);
    assert base + [r] + [] == Visit(pass, done, g);
    assert base + [h, x, g] + [] == base + [h] + [x, g];
    assert rest + [x] + [g] == rest + [x, g];
    MeansSym(tr, rest + [x, g], base + [h] + [x, g]);
    MeansSym(tr, done + [g], rest + [x, g]);
    MeansChain(tr, Visit(pass, done, g), base + [h] + [x, g], rest + [x, g]);
    MeansChain(tr, Visit(pass, done, g), rest + [x, g], done + [g]);
  }

  lemma SingleVisitSound(tr: Trig, pass: Pass, done: seq<Gate>, g: Gate)
    requires tr.Lawful() && SingleRule(pass, g).Some?
    ensures Means(tr, One, done + SingleRule(pass, g).value, done + [g])
  {
    hide Means, tr.Lawful;
    var out := SingleRule(pass, g).value;
    OperandsApart(g);
    match pass {
      case CxAsHCzH => CxFromCz(tr, g);
      case CzAsHCxH => CzFromCx(tr, g);
      case CxReversed => CxFromReversed(tr, g);
    }
    MeansInside(tr, One, done, out, [g], []);
    assert done + out + [] == done + out && done + [g] + [] == done + [g];
  }

  lemma {:induction false} VisitSound(tr: Trig, pass: Pass, done: seq<Gate>, g: Gate)
    requires tr.Lawful() && Shipped(pass) && Guarded(pass, done, g)
    ensures Means(tr, SignOf(if YSwitched(pass, done, g) then 1 else 0), Visit(pass, done, g), done + [g])
  {
    hide Means, tr.Lawful, PairRule, SingleRule, Shipped, Guarded, Without, ScanWire, Operation.WellFormed;
    if pass.Sandwich? {
      if SandwichAt(pass, done, g).Some? {
        ShippedSandwich(pass);
        SandwichVisitSound(tr, pass, done, g);
      } else {
        MeansRefl(tr, done + [g]);
      }
      SandwichNoPartner(pass, done, g);
      assert !YSwitched(pass, done, g);
    } else if SingleRule(pass, g).Some? {
      SingleVisitSound(tr, pass, done, g);
      SingleNoPartner(pass, done, g);
      assert !YSwitched(pass, done, g);
    } else {
      var j := Partner(pass, done, g);
      if j < 0 {
        MeansRefl(tr, done + [g]);
      } else {
        PairVisitSound(tr, pass, done, g);
      }
    }
  }

  lemma ShippedSandwich(pass: Pass)
    requires pass.Sandwich? && Shipped(pass)
    ensures pass in {HXHToZ, HZHToX}
  {
  }

  lemma SandwichNoPartner(pass: Pass, done: seq<Gate>, g: Gate)
    requires pass.Sandwich?
    ensures Partner(pass, done, g) == -1
  {
  }

  lemma SingleNoPartner(pass: Pass, done: seq<Gate>, g: Gate)
    requires SingleRule(pass, g).Some?
    ensures Partner(pass, done, g) == -1
  {
  }

  /** Main theorem.  A walk of any shipped pass over any circuit leaves a circuit with the same
      meaning times (-1)^k, where k is the number of Y gates it switched with an H. */
  lemma {:induction false} WalkSound(tr: Trig, pass: Pass, gs: seq<Gate>)
    requires tr.Lawful() && Shipped(pass) && GuardedWalk(pass, gs)
    ensures Means(tr, SignOf(YSwitches(pass, gs)), Walk(pass, gs), gs)
  {
    hide Means, tr.Lawful, Visit, Guarded, SignOf, Mul, Shipped, YSwitched, Walk, YSwitches, GuardedWalk,
         Operation.WellFormed;
    WalkUnfold(pass, gs);
    if gs == [] {
      MeansRefl(tr, []);
      SignZero();
    } else {
      var init, g := gs[..|gs| - 1], gs[|gs| - 1];
      var done := Walk(pass, init);
      var j, k: nat := YSwitches(pass, init), if YSwitched(pass, done, g) then 1 else 0;
      WalkSound(tr, pass, init);
      MeansAppend(tr, SignOf(j), done, init, [g]);
      assert init + [g] == gs;
      VisitSound(tr, pass, done, g);
      MeansTrans(tr, SignOf(k), SignOf(j), Visit(pass, done, g), done + [g], gs);
      SignSum(k, j);
    }
  }

  lemma WalkUnfold(pass: Pass, gs: seq<Gate>)
    ensures gs == [] ==> Walk(pass, gs) == [] && YSwitches(pass, gs) == 0
    ensures gs != [] ==>
              var init, g := gs[..|gs| - 1], gs[|gs| - 1];
              var done := Walk(pass, init);
              && Walk(pass, gs) == Visit(pass, done, g)
              && YSwitches(pass, gs) == YSwitches(pass, init) + (if YSwitched(pass, done, g) then 1 else 0)
              && (GuardedWalk(pass, gs) ==> GuardedWalk(pass, init) && Guarded(pass, done, g))
  {
    hide Visit, YSwitched, Guarded, Operation.WellFormed;
  }

  lemma SignZero()
    ensures SignOf(0) == One
  {
  }

  // ---- Passes that need no guard ----

  /** The earlier gate of the pattern has no control. */
  predicate OneWire(pass: Pass) {
    !pass.Cancellation? && pass != CommuteCxRx && pass != CommuteCxX && pass != CommuteCxZ
  }

  /** A visit whose earlier gate has no control needs no guard, whatever the pass. */
  lemma UncontrolledGuarded(pass: Pass, done: seq<Gate>, g: Gate)
    requires Shipped(pass)
    requires var j := Partner(pass, done, g); j >= 0 ==> done[j].controls == []
    ensures Guarded(pass, done, g)
  {
    hide Shipped;
    var j := Partner(pass, done, g);
    if j >= 0 {
      var p, q := done[j], ScanWire(pass, g).value;
      UncontrolledPartner(pass, p, g);
      forall k | k in done[j + 1..] ensures Passable(p, k) {
        var n :| 0 <= n < |done[j + 1..]| && done[j + 1..][n] == k;
        assert done[j + 1 + n] == k;
      }
    }
  }

  lemma UncontrolledPartner(pass: Pass, p: Gate, g: Gate)
    requires ScanWire(pass, g).Some? && PairRule(pass, p, g).Some?
    requires p.Touches(ScanWire(pass, g).value) && p.controls == []
    ensures p.targets == [ScanWire(pass, g).value]
  {
    hide SortedDescending;
    if pass.Cancellation? {
      SortedWires(g.targets, p.targets);
    }
  }

  lemma OneWirePartner(pass: Pass, p: Gate, g: Gate)
    requires Shipped(pass) && OneWire(pass) && ScanWire(pass, g).Some? && PairRule(pass, p, g).Some?
    ensures p.controls == []
  {
    hide SortedDescending;
  }

  lemma {:induction false} OneWireGuardedWalk(pass: Pass, gs: seq<Gate>)
    requires Shipped(pass) && OneWire(pass)
    ensures GuardedWalk(pass, gs)
  {
    hide Shipped, OneWire, Guarded, Walk, PairRule, ScanWire;
    if gs != [] {
      var done, g := Walk(pass, gs[..|gs| - 1]), gs[|gs| - 1];
      OneWireGuardedWalk(pass, gs[..|gs| - 1]);
      var j := Partner(pass, done, g);
      if j >= 0 { OneWirePartner(pass, done[j], g); }
      UncontrolledGuarded(pass, done, g);
    }
  }

  /** The passes whose earlier gate is uncontrolled keep the meaning of every circuit. */
  lemma {:induction false} OneWireWalkSound(tr: Trig, pass: Pass, gs: seq<Gate>)
    requires tr.Lawful() && Shipped(pass) && OneWire(pass)
    ensures Means(tr, SignOf(YSwitches(pass, gs)), Walk(pass, gs), gs)
  {
    hide Means, tr.Lawful, Shipped, SignOf, OneWire, Walk;
    OneWireGuardedWalk(pass, gs);
    WalkSound(tr, pass, gs);
  }

  /** Outside the switching passes no sign is ever paid. */
  lemma {:induction false} NoYSwitches(pass: Pass, gs: seq<Gate>)
    requires !Switching(pass)
    ensures YSwitches(pass, gs) == 0
  {
    hide Walk;
    if gs != [] {
      NoYSwitches(pass, gs[..|gs| - 1]);
    }
  }
}
