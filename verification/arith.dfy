/** Facts of real arithmetic that the solver does not find on its own. */
module Arith {

  lemma DivMul(a: real, b: real)
    requires b != 0.0
    ensures (a / b) * b == a
  {
  }

  lemma Cancel(x: real, y: real, t: real)
    requires t != 0.0 && x * t == y * t
    ensures x == y
  {
    assert (x - y) * t == 0.0;
  }

  lemma LowerBoundOfMean(s: real, n: real, lo: real)
    requires n > 0.0 && n * lo <= s
    ensures lo <= s / n
  {
    assert s / n - lo == (s - n * lo) / n;
  }

  lemma UpperBoundOfMean(s: real, n: real, hi: real)
    requires n > 0.0 && s <= n * hi
    ensures s / n <= hi
  {
    assert hi - s / n == (n * hi - s) / n;
  }

  /** Selling the `a` units that `v` bought at `bp` at the price `sp` gains `sp / bp - 1` of `v`. */
  lemma ProfitShare(a: real, v: real, bp: real, sp: real)
    requires v > 0.0 && bp > 0.0 && a == v / bp
    ensures (a * sp - v) / v * 100.0 == (sp / bp - 1.0) * 100.0
  {
    var x := a * sp - v;
    var g := sp / bp - 1.0;
    DivMul(v, bp);
    DivMul(sp, bp);
    assert a * sp * bp == v * sp;
    assert g * v * bp == v * sp - v * bp;
    Cancel(x, g * v, bp);
    DivMul(x, v);
    Cancel(x / v, g, v);
  }

  /** A return over a positive base, as a fraction: `(f - c) / c == f / c - 1`. */
  lemma ReturnFraction(f: real, c: real)
    requires c != 0.0
    ensures (f - c) / c == f / c - 1.0
  {
    DivMul(f - c, c);
    DivMul(f, c);
    assert (f / c - 1.0) * c == f - c;
    Cancel((f - c) / c, f / c - 1.0, c);
  }

  /** Spending `v` at `p` and selling at `q` scales `v` by `q / p`. */
  lemma Rescale(v: real, p: real, q: real)
    requires p != 0.0
    ensures (v / p) * q == v * (q / p)
  {
    DivMul(v, p);
    DivMul(q, p);
    assert (v / p) * q * p == v * q;
    assert v * (q / p) * p == v * q;
    Cancel((v / p) * q, v * (q / p), p);
  }

  lemma ScaleBack(c: real, g: real)
    requires c != 0.0
    ensures (c * g) / c == g
  {
    DivMul(c * g, c);
    Cancel((c * g) / c, g, c);
  }

  /** Spending `capital * before` at `buyPrice` and selling at `sellPrice` compounds by one more ratio. */
  lemma Compound(capital: real, before: real, spent: real, buyPrice: real, units: real, sellPrice: real, raised: real)
    requires buyPrice != 0.0 && spent == capital * before
    requires units == spent / buyPrice && raised == units * sellPrice
    ensures raised == capital * (before * (sellPrice / buyPrice))
  {
    Rescale(spent, buyPrice, sellPrice);
    assert raised == (capital * before) * (sellPrice / buyPrice);
  }

  /** Over a positive count, a mean is positive iff the sum is. */
  lemma PositiveQuotient(s: real, n: real)
    requires n > 0.0
    ensures s / n > 0.0 <==> s > 0.0
  {
    if s > 0.0 {
      LowerBoundOfMean(s, n, s / (2.0 * n));
      DivMul(s, 2.0 * n);
    } else {
      UpperBoundOfMean(s, n, 0.0);
    }
  }
}
