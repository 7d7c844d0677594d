/** Runs of blocks on one target, taken together as one block. */
module Products {
  import opened Amplitudes
  import opened Blocks
  import opened Gates
  import opened LocalRules

  /** The product of the matrices that the families give at basis state b, the first one rightmost. */
  function Product(fs: seq<Family>, b: Basis): Matrix {
    if fs == [] then Identity else Times(Product(fs[1..], b), fs[0](b))
  }

  function OnTarget(fs: seq<Family>, t: nat): seq<Block> {
    seq(|fs|, i requires 0 <= i < |fs| => Mux(fs[i], t))
  }

  /** A run of blocks on one target is one block: the product, up to w, of the matrices. */
  lemma {:induction false} RunIsProduct(fs: seq<Family>, t: nat)
    ensures Equiv(One, OnTarget(fs, t), [Mux((b: Basis) => Product(fs, b), t)])
    decreases |fs|
  {
    hide Equiv, Times, ScaledBy, Mul;
    var whole: Family := (b: Basis) => Product(fs, b);
    ScaledOne(Identity);
    if fs == [] {
      MuxScalar(One, whole, t);
      EquivSymOne([Mux(whole, t)], []);
      assert OnTarget(fs, t) == [];
    } else {
      var rest: Family := (b: Basis) => Product(fs[1..], b);
      RunIsProduct(fs[1..], t);
      EquivInside(One, [Mux(fs[0], t)], OnTarget(fs[1..], t), [Mux(rest, t)], []);
      assert [Mux(fs[0], t)] + OnTarget(fs[1..], t) + [] == OnTarget(fs, t);
      assert [Mux(fs[0], t)] + [Mux(rest, t)] + [] == [Mux(fs[0], t), Mux(rest, t)];
      forall b: Basis ensures Times(rest(b), fs[0](b)) == ScaledBy(One, whole(b)) {
        ScaledOne(whole(b));
      }
      MuxCompose(One, fs[0], rest, whole, t);
      MulOne(One);
      EquivTrans(One, One, OnTarget(fs, t), [Mux(fs[0], t), Mux(rest, t)], [Mux(whole, t)]);
    }
  }

  lemma RunIs(w: Complex, fs: seq<Family>, h: Family, t: nat)
    requires forall b: Basis :: Product(fs, b) == ScaledBy(w, h(b))
    ensures Equiv(w, OnTarget(fs, t), [Mux(h, t)])
  {
    hide Equiv, Product, ScaledBy, Mul, OnTarget;
    var whole: Family := (b: Basis) => Product(fs, b);
    RunIsProduct(fs, t);
    MuxScaled(w, whole, h, t);
    MulOne(w);
    EquivTrans(One, w, OnTarget(fs, t), [Mux(whole, t)], [Mux(h, t)]);
  }

  lemma ProductCons(f: Family, fs: seq<Family>, b: Basis)
    ensures Product([f] + fs, b) == Times(Product(fs, b), f(b))
  {
    assert ([f] + fs)[1..] == fs;
  }

  lemma ProductThree(f: Family, g: Family, k: Family, b: Basis)
    ensures Product([f, g, k], b) == Times(k(b), Times(g(b), f(b)))
  {
    hide Times;
    ProductCons(k, [], b);
    ProductCons(g, [k], b);
    ProductCons(f, [g, k], b);
    assert [k] + [] == [k] && [g] + [k] == [g, k] && [f] + [g, k] == [f, g, k];
    TimesIdentity(k(b));
    TimesAssoc(k(b), g(b), f(b));
  }

  lemma ProductFive(f: Family, g: Family, k: Family, l: Family, m: Family, b: Basis)
    ensures Product([f, g, k, l, m], b) == Times(m(b), Times(l(b), Times(k(b), Times(g(b), f(b)))))
  {
    hide Times, Product;
    ProductThree(k, l, m, b);
    ProductCons(g, [k, l, m], b);
    ProductCons(f, [g, k, l, m], b);
    assert [g] + [k, l, m] == [g, k, l, m] && [f] + [g, k, l, m] == [f, g, k, l, m];
    var x, y, z := k(b), l(b), m(b);
    TimesAssoc(Times(z, Times(y, x)), g(b), f(b));
    TimesAssoc(z, Times(y, x), Times(g(b), f(b)));
    TimesAssoc(y, x, Times(g(b), f(b)));
  }

  lemma ProductSeven(f: Family, g: Family, k: Family, l: Family, m: Family, n: Family, p: Family, b: Basis)
    ensures Product([f, g, k, l, m, n, p], b)
         == Times(p(b), Times(n(b), Times(m(b), Times(l(b), Times(k(b), Times(g(b), f(b)))))))
  {
    hide Times, Product;
    ProductFive(k, l, m, n, p, b);
    ProductCons(g, [k, l, m, n, p], b);
    ProductCons(f, [g, k, l, m, n, p], b);
    assert [g] + [k, l, m, n, p] == [g, k, l, m, n, p] && [f] + [g, k, l, m, n, p] == [f, g, k, l, m, n, p];
    var low := Times(g(b), f(b));
    var x, y, z, u, v := k(b), l(b), m(b), n(b), p(b);
    TimesAssoc(Times(v, Times(u, Times(z, Times(y, x)))), g(b), f(b));
    TimesAssoc(v, Times(u, Times(z, Times(y, x))), low);
    TimesAssoc(u, Times(z, Times(y, x)), low);
    TimesAssoc(z, Times(y, x), low);
    TimesAssoc(y, x, low);
  }
}
