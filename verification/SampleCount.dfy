// How many samples a sketch supports (include/sketch.h, calc_cc_samples), and why that
// is more than a Boruvka run can need.

module SampleCount {
  import opened Words
  import opened Pairing
  import opened SketchSpec

  function Pow(b: nat, k: nat): (r: nat)
    ensures b > 0 ==> r > 0
  {
    if k == 0 then 1 else b * Pow(b, k - 1)
  }

  /** default_cols_per_sample of the L0_SAMPLING build and of the default one. */
  function DefaultCols(l0: bool): nat {
    if l0 then 7 else 1
  }

  /** The length of the vector a sketch of n vertices summarises: one entry per possible edge. */
  function VectorLength(n: nat): nat {
    n * (n - 1) / 2
  }

  /** The ceiling of the binary logarithm. */
  function CeilLog2(len: nat): (k: nat)
    ensures len <= Pow2(k) && (k == 0 || Pow2(k - 1) < len)
  {
    BigEnough(len);
    LeastPower(len, 0, len)
  }

  function LeastPower(len: nat, k: nat, limit: nat): (r: nat)
    requires k <= limit && len <= Pow2(limit)
    ensures k <= r && len <= Pow2(r) && (r == k || Pow2(r - 1) < len)
    decreases limit - k
  {
    if len <= Pow2(k) then k else LeastPower(len, k + 1, limit)
  }

  lemma {:induction false} BigEnough(len: nat)
    ensures len <= Pow2(len)
  {
    if len > 0 {
      BigEnough(len - 1);
    }
  }

  /** calc_bkt_per_col */
  function BktPerCol(len: nat): nat {
    CeilLog2(len) + 1
  }

  /**
   * The sketches the engine makes for n vertices at a sample factor of num / den. A single
   * vertex has no edges, and log2(0) no value: nothing is said of its number of rows.
   */
  predicate Configured(p: Params, n: nat, num: nat, den: nat)
    requires n > 0 && den > 0
  {
    && p.Valid() && p.numSamples == CcSamples(n, num, den, p.l0) && p.cols == DefaultCols(p.l0)
    && (n > 1 ==> p.bkts == BktPerCol(VectorLength(n)))
  }

  /** The edges from smaller vertices below k to m. */
  ghost function Spokes(m: nat, k: nat): set<Edge> {
    set i: nat | i < k :: Edge(i, m)
  }

  /** All edges a simple graph on n vertices can have. */
  ghost function AllEdges(n: nat): set<Edge> {
    set i: nat, j: nat | i < j < n :: Edge(i, j)
  }

  lemma {:induction false} SpokesCard(m: nat, k: nat)
    ensures |Spokes(m, k)| == k
    decreases k
  {
    if k == 0 {
      assert Spokes(m, k) == {};
    } else {
      SpokesCard(m, k - 1);
      var rest, last := Spokes(m, k - 1), Edge(k - 1, m);
      assert last !in rest;
      assert Spokes(m, k) == rest + {last};
    }
  }

  /** One more vertex adds an edge from every other one. */
  lemma Grown(m: nat)
    ensures |AllEdges(m + 1)| == |AllEdges(m)| + |Spokes(m, m)|
  {
    var a, b, c := AllEdges(m + 1), AllEdges(m), Spokes(m, m);
    assert b !! c;
    assert a == b + c;
  }

  lemma {:induction false} VectorCountsEdges(n: nat)
    ensures |AllEdges(n)| == VectorLength(n)
    decreases n
  {
    if n == 0 {
      assert AllEdges(n) == {};
    } else {
      var m := n - 1;
      VectorCountsEdges(m);
      SpokesCard(m, m);
      Grown(m);
      assert n * m == m * (m - 1) + 2 * m;
    }
  }

  /**
   * The shape of a configured sketch: a column has one row more than the least power of two that
   * reaches the number of possible edges, a sample one column, or seven in the L0_SAMPLING build.
   */
  lemma ConfiguredMeans(p: Params, n: nat, num: nat, den: nat)
    requires n > 1 && den > 0 && Configured(p, n, num, den)
    ensures |AllEdges(n)| <= Pow2(p.bkts - 1) && (p.bkts > 1 ==> Pow2(p.bkts - 2) < |AllEdges(n)|)
    ensures p.cols == (if p.l0 then 7 else 1) && p.NumBuckets() == p.numSamples * p.cols * p.bkts + 1
  {
    VectorCountsEdges(n);
  }

  /** From eight vertices on a column has at least six rows. */
  lemma EnoughRows(n: nat)
    requires n >= 8
    ensures BktPerCol(VectorLength(n)) > 5
  {
    Lengthens(8, n);
    SmallPowers();
    var k := CeilLog2(VectorLength(n));
    if k <= 4 {
      Pow2Mono(k, 4);
    }
  }

  lemma Lengthens(m: nat, n: nat)
    requires 1 <= m <= n
    ensures m * (m - 1) <= n * (n - 1)
  {
    MulLess(m - 1, n - 1, m, n);
  }

  /** The base of the logarithm that log2(n) / num_samples_div amounts to, as a fraction. */
  function BaseTop(l0: bool): nat {
    if l0 then 3 else 5
  }

  function BaseBottom(l0: bool): nat {
    if l0 then 2 else 3
  }

  /** c is at least f * log2(n) / num_samples_div, for the factor f = num / den. */
  predicate Enough(n: nat, num: nat, den: nat, l0: bool, c: nat) {
    Pow(BaseTop(l0), c * den) >= Pow(n, num) * Pow(BaseBottom(l0), c * den)
  }

  /** The ceiling of that bound, and never less than 18. */
  function CcSamples(n: nat, num: nat, den: nat, l0: bool): (c: nat)
    requires n > 0 && den > 0
    ensures c >= 18 && Enough(n, num, den, l0, c)
    ensures c == 18 || !Enough(n, num, den, l0, c - 1)
  {
    EventuallyEnough(n, num, den, l0, 18 + 3 * Pow(n, num));
    LeastFrom(n, num, den, l0, 18, 18 + 3 * Pow(n, num))
  }

  function LeastFrom(n: nat, num: nat, den: nat, l0: bool, c: nat, limit: nat): (r: nat)
    requires c <= limit && Enough(n, num, den, l0, limit)
    ensures c <= r && Enough(n, num, den, l0, r)
    ensures r == c || !Enough(n, num, den, l0, r - 1)
    decreases limit - c
  {
    if Enough(n, num, den, l0, c) then c else LeastFrom(n, num, den, l0, c + 1, limit)
  }

  /**
   * In the words of the code: the default build asks for the least number of samples from 18 on at
   * which (5/3)^samples reaches n^factor, the other one for that at which (3/2)^samples does.
   */
  lemma SamplesReach(n: nat, num: nat, den: nat)
    requires n > 0 && den > 0
    ensures var c := CcSamples(n, num, den, false);
      && c >= 18 && Pow(5, c * den) >= Pow(n, num) * Pow(3, c * den)
      && (c > 18 ==> Pow(5, (c - 1) * den) < Pow(n, num) * Pow(3, (c - 1) * den))
    ensures var c := CcSamples(n, num, den, true);
      && c >= 18 && Pow(3, c * den) >= Pow(n, num) * Pow(2, c * den)
      && (c > 18 ==> Pow(3, (c - 1) * den) < Pow(n, num) * Pow(2, (c - 1) * den))
  {
    var b, a := CcSamples(n, num, den, false), CcSamples(n, num, den, true);
    assert b > 18 ==> !Enough(n, num, den, false, b - 1);
    assert a > 18 ==> !Enough(n, num, den, true, a - 1);
  }

  lemma {:induction false} Growth(l0: bool, k: nat)
    ensures BaseBottom(l0) * Pow(BaseTop(l0), k) >= Pow(BaseBottom(l0), k) * (BaseBottom(l0) + k)
    decreases k
  {
    if k > 0 {
      Growth(l0, k - 1);
      GrowthStep(l0, Pow(BaseTop(l0), k - 1), Pow(BaseBottom(l0), k - 1), k);
    }
  }

  lemma GrowthStep(l0: bool, t: nat, b: nat, k: nat)
    requires k > 0 && BaseBottom(l0) * t >= b * (BaseBottom(l0) + (k - 1))
    ensures BaseBottom(l0) * (BaseTop(l0) * t) >= BaseBottom(l0) * b * (BaseBottom(l0) + k)
  {
    if l0 {
      assert b * (2 + (k - 1)) == b * k + b;
      assert 2 * b * (2 + k) == 2 * (b * k) + 4 * b;
      assert b <= b * k;
    } else {
      assert b * (3 + (k - 1)) == b * k + 2 * b;
      assert 3 * b * (3 + k) == 3 * (b * k) + 9 * b;
      assert b <= b * k;
    }
  }

  lemma EventuallyEnough(n: nat, num: nat, den: nat, l0: bool, c: nat)
    requires n > 0 && den > 0 && c >= 3 * Pow(n, num)
    ensures Enough(n, num, den, l0, c)
  {
    var k := c * den;
    MulLess(1, den, c, c);
    Growth(l0, k);
    Cancel(l0, Pow(BaseTop(l0), k), Pow(BaseBottom(l0), k), Pow(n, num), k);
  }

  lemma Cancel(l0: bool, t: nat, b: nat, m: nat, k: nat)
    requires BaseBottom(l0) * t >= b * (BaseBottom(l0) + k) && k >= 3 * m
    ensures t >= m * b
  {
    MulLess(b, b, 3 * m, BaseBottom(l0) + k);
    assert b * (3 * m) == 3 * (m * b);
  }

  lemma Regroup(a: nat, b: nat, x: nat, y: nat)
    ensures a * b * (x * y) == (a * x) * (b * y)
  {
    Shift(a, b, x * y);
    Shift(b, x, y);
    Shift(x, b, y);
    Shift(a, x, b * y);
  }

  lemma Shift(a: nat, b: nat, c: nat)
    ensures a * b * c == a * (b * c)
  {
  }

  lemma {:induction false} PowMul(a: nat, b: nat, k: nat)
    ensures Pow(a * b, k) == Pow(a, k) * Pow(b, k)
    decreases k
  {
    if k > 0 {
      PowMul(a, b, k - 1);
      Regroup(a, b, Pow(a, k - 1), Pow(b, k - 1));
    }
  }

  lemma {:induction false} PowAdd(a: nat, j: nat, k: nat)
    ensures Pow(a, j + k) == Pow(a, j) * Pow(a, k)
    decreases j
  {
    if j > 0 {
      PowAdd(a, j - 1, k);
      Shift(a, Pow(a, j - 1), Pow(a, k));
    }
  }

  lemma {:induction false} PowPow(a: nat, c: nat, d: nat)
    ensures Pow(Pow(a, c), d) == Pow(a, c * d)
    decreases d
  {
    if d > 0 {
      PowPow(a, c, d - 1);
      PowAdd(a, c, c * (d - 1));
      assert c + c * (d - 1) == c * d;
    }
  }

  lemma {:induction false} PowMono(a: nat, b: nat, k: nat)
    requires a <= b
    ensures Pow(a, k) <= Pow(b, k)
    ensures a < b && k > 0 ==> Pow(a, k) < Pow(b, k)
    decreases k
  {
    if k > 0 {
      PowMono(a, b, k - 1);
      MulLess(a, b, Pow(a, k - 1), Pow(b, k - 1));
    }
  }

  lemma MulLess(a: nat, b: nat, x: nat, y: nat)
    requires a <= b && x <= y
    ensures a * x <= b * y
    ensures a < b && y > 0 ==> a * x < b * y
  {
    assert a * x <= a * y;
    assert a < b ==> (a + 1) * y <= b * y;
  }

  lemma {:induction false} PowGrows(a: nat, j: nat, k: nat)
    requires a > 0 && j <= k
    ensures Pow(a, j) <= Pow(a, k)
    decreases k
  {
    if j < k {
      PowGrows(a, j, k - 1);
      assert Pow(a, k - 1) <= a * Pow(a, k - 1);
    }
  }

  lemma {:induction false} Pow2IsPow(k: nat)
    ensures Pow2(k) == Pow(2, k)
    decreases k
  {
    if k > 0 {
      Pow2IsPow(k - 1);
    }
  }

  /** With a factor of at least one the samples outnumber every halving of n. */
  lemma SamplesCoverLog(n: nat, num: nat, den: nat, l0: bool)
    requires n > 0 && 0 < den <= num
    ensures n < Pow2(CcSamples(n, num, den, l0))
  {
    var c := CcSamples(n, num, den, l0);
    var k := c * den;
    var a, b := BaseTop(l0), BaseBottom(l0);
    Pow2IsPow(c);
    if Pow(2, c) <= n {
      PowMono(Pow(2, c), n, den);
      PowPow(2, c, den);
      PowGrows(n, den, num);
      PowMul(2, b, k);
      MulLess(Pow(2, k), Pow(n, num), Pow(b, k), Pow(b, k));
      assert k > 0;
      PowMono(a, 2 * b, k);
    }
  }
}
