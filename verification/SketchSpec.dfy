// What a sketch holds and what sampling it may answer
// (include/bucket.h, include/sketch.h, src/sketch.cpp).

module Depths {
  import opened Words

  function Bit(h: nat, k: nat): bool {
    h / Pow2(k) % 2 == 1
  }

  /** h | (1 << k) */
  function OrBit(h: nat, k: nat): nat {
    if Bit(h, k) then h else h + Pow2(k)
  }

  /** __builtin_ctzll */
  function TrailingZeros(h: nat): nat
    requires h > 0
  {
    if h % 2 == 1 then 0 else 1 + TrailingZeros(h / 2)
  }

  lemma HalfBit(h: nat, k: nat)
    requires k > 0
    ensures Bit(h / 2, k - 1) == Bit(h, k)
  {
    var q := Pow2(k - 1);
    DivDiv(h, q);
  }

  lemma DivDiv(h: nat, q: nat)
    requires q > 0
    ensures h / 2 / q == h / (2 * q)
  {
    var r := h / (2 * q);
    var s := h % (2 * q);
    assert h == 2 * q * r + s;
    assert h / 2 == q * r + s / 2;
    assert 0 <= s / 2 < q;
    DivUnique(h / 2, q, r, s / 2);
  }

  lemma DivUnique(x: nat, b: nat, q: nat, r: nat)
    requires b > 0 && x == q * b + r && r < b
    ensures x / b == q && x % b == r
  {
    var d, e := x / b, x % b;
    assert q * b + r == d * b + e;
    Distribute(q, d, b);
    SmallMultiple(q - d, b);
  }

  lemma Distribute(q: int, d: int, b: int)
    ensures (q - d) * b == q * b - d * b
  {
  }

  lemma SmallMultiple(k: int, b: int)
    requires -b < k * b < b
    ensures k == 0
  {
  }

  lemma BitZero(h: nat)
    ensures Bit(h, 0) <==> h % 2 == 1
  {
    assert Pow2(0) == 1;
  }

  lemma NoBits(k: nat)
    ensures !Bit(0, k)
  {
    DivUnique(0, Pow2(k), 0, 0);
  }

  lemma {:induction false} LowestBit(h: nat, k: nat)
    requires Bit(h, k)
    ensures h > 0 && TrailingZeros(h) <= k
    ensures Bit(h, TrailingZeros(h))
    decreases k
  {
    BitZero(h);
    if h == 0 {
      NoBits(k);
    } else if h % 2 == 0 {
      HalfBit(h, k);
      LowestBit(h / 2, k - 1);
      HalfBit(h, TrailingZeros(h / 2) + 1);
    }
  }

  lemma {:induction false} NoneBelow(h: nat)
    requires h > 0
    ensures forall k: nat | k < TrailingZeros(h) :: !Bit(h, k)
  {
    BitZero(h);
    if h % 2 == 0 {
      NoneBelow(h / 2);
      forall k: nat | k < TrailingZeros(h)
        ensures !Bit(h, k)
      {
        if k > 0 {
          HalfBit(h, k);
        }
      }
    }
  }

  /** The words' exclusive or, bit by bit. */
  lemma {:induction false} XorBits(a: nat, b: nat, k: nat)
    ensures Bit(Xor(a, b), k) <==> Bit(a, k) != Bit(b, k)
    decreases k
  {
    if k == 0 {
      XorLowBit(a, b);
    } else {
      XorBits(a / 2, b / 2, k - 1);
      HalfBit(a, k);
      HalfBit(b, k);
      XorHalf(a, b, k);
    }
  }

  lemma XorLowBit(a: nat, b: nat)
    ensures Bit(Xor(a, b), 0) <==> Bit(a, 0) != Bit(b, 0)
  {
    XorUnfold(a, b);
    OddSum(a, b, Xor(a, b));
    BitZero(a);
    BitZero(b);
    BitZero(Xor(a, b));
  }

  lemma OddSum(a: nat, b: nat, x: nat)
    requires x % 2 == (a + b) % 2
    ensures x % 2 == 1 <==> (a % 2 == 1) != (b % 2 == 1)
  {
  }

  lemma XorHalf(a: nat, b: nat, k: nat)
    requires k > 0
    ensures Bit(Xor(a, b), k) == Bit(Xor(a / 2, b / 2), k - 1)
  {
    var x := Xor(a, b);
    XorUnfold(a, b);
    HalfBit(x, k);
  }

  lemma OrBitSets(h: nat, k: nat)
    ensures Bit(OrBit(h, k), k)
  {
    if !Bit(h, k) {
      var p := Pow2(k);
      DivUnique(h + p, p, h / p + 1, h % p);
    }
  }

  lemma {:induction false} PowerAbove(j: nat, k: nat) returns (q: nat)
    requires j < k
    ensures Pow2(k) == Pow2(j) * (2 * q)
    decreases k
  {
    if k == j + 1 {
      return 1;
    }
    var r := PowerAbove(j, k - 1);
    return 2 * r;
  }

  lemma AddEven(h: nat, p: nat, q: nat)
    requires p > 0
    ensures (h + p * (2 * q)) / p % 2 == h / p % 2
  {
    var m := 2 * q;
    assert h == p * (h / p) + h % p;
    assert p * (h / p) + p * m == (h / p + m) * p;
    DivUnique(h + p * m, p, h / p + m, h % p);
  }

  /** Setting a bit leaves the lower ones. */
  lemma OrBitKeeps(h: nat, k: nat, j: nat)
    requires j < k
    ensures Bit(OrBit(h, k), j) == Bit(h, j)
  {
    var q := PowerAbove(j, k);
    AddEven(h, Pow2(j), q);
  }

  /** get_index_depth: the lowest set bit of the hash, and maxDepth when there is none below it. */
  function IndexDepth(h: nat, maxDepth: nat): (depth: nat)
    ensures depth <= maxDepth
    ensures Bit(OrBit(h, maxDepth), depth)
    ensures forall k: nat | k < depth :: !Bit(OrBit(h, maxDepth), k)
  {
    OrBitSets(h, maxDepth);
    LowestBit(OrBit(h, maxDepth), maxDepth);
    NoneBelow(OrBit(h, maxDepth));
    TrailingZeros(OrBit(h, maxDepth))
  }
}

module SketchSpec {
  import opened Words
  import opened Buckets
  import opened Depths

  /**
   * The shape of a sketch. hash(x, seed) stands for the external 64-bit hash, about
   * which nothing is assumed; l0 tells the L0_SAMPLING build from the default one.
   */
  datatype Params = Params(seed: nat, numSamples: nat, cols: nat, bkts: nat, l0: bool, hash: (nat, nat) -> nat) {

    predicate Valid() {
      cols > 0 && bkts > 0
    }

    function NumColumns(): nat {
      numSamples * cols
    }

    function NumBuckets(): nat {
      NumColumns() * bkts + 1
    }

    /** The deterministic bucket, which every update reaches. */
    function Last(): nat {
      NumColumns() * bkts
    }

    function ColumnSeed(col: nat): nat {
      seed + col * 5
    }

    function Checksum(x: nat): nat {
      hash(x, seed)
    }

    function Depth(x: nat, col: nat): nat {
      IndexDepth(hash(x, ColumnSeed(col)), bkts)
    }

    /** Does an update of index x touch row j of a column? */
    predicate Reaches(x: nat, col: nat, j: nat) {
      if l0 then Depth(x, col) < bkts && j <= Depth(x, col) else Depth(x, col) == j
    }

    predicate Member(x: nat, i: nat)
      requires Valid()
    {
      i == Last() || Reaches(x, i / bkts, i % bkts)
    }

    function Item(x: nat): Bucket {
      Bucket(x, Checksum(x))
    }

    /** is_good: the checksum of the XORed indices is the XOR of their checksums. */
    predicate Good(b: Bucket) {
      b.gamma == Checksum(b.alpha)
    }

    function Start(sample: nat): nat {
      sample * cols * bkts
    }

    /** The buckets one sample looks at. */
    predicate Relevant(sample: nat, i: nat) {
      i == Last() || Start(sample) <= i < Start(sample + 1)
    }
  }

  function Items(p: Params): nat -> Bucket {
    (x: nat) => p.Item(x)
  }

  /** The contribution of an index to bucket i. */
  function Unit(p: Params, i: nat): nat -> Bucket
    requires p.Valid()
  {
    (x: nat) => if p.Member(x, i) then p.Item(x) else ZERO
  }

  /** The indices of s that live in bucket i. */
  ghost function Content(p: Params, s: set<nat>, i: nat): set<nat>
    requires p.Valid()
  {
    set x | x in s && p.Member(x, i)
  }

  /** The sketch of a set of indices. */
  ghost function SketchOf(p: Params, s: set<nat>): (r: seq<Bucket>)
    requires p.Valid()
    ensures |r| == p.NumBuckets()
    ensures forall i: nat | i < |r| :: r[i] == Sum(s, Unit(p, i))
  {
    seq(p.NumBuckets(), i requires 0 <= i => Sum(s, Unit(p, i)))
  }

  function Zeros(p: Params): (r: seq<Bucket>)
    ensures |r| == p.NumBuckets()
  {
    seq(p.NumBuckets(), i => ZERO)
  }

  function Merged(a: seq<Bucket>, b: seq<Bucket>): (r: seq<Bucket>)
    requires |a| == |b|
    ensures |r| == |a|
  {
    seq(|a|, i requires 0 <= i < |a| => Add(a[i], b[i]))
  }

  function Updated(p: Params, a: seq<Bucket>, x: nat): (r: seq<Bucket>)
    requires p.Valid()
    ensures |r| == |a|
  {
    seq(|a|, i requires 0 <= i < |a| => if p.Member(x, i) then Add(a[i], p.Item(x)) else a[i])
  }

  /** Each bucket folds exactly the members of s at its depth. */
  lemma {:induction false} BucketFold(p: Params, s: set<nat>, i: nat)
    requires p.Valid() && i < p.NumBuckets()
    ensures SketchOf(p, s)[i] == Sum(Content(p, s, i), Items(p))
    decreases s
  {
    if s == {} {
      assert Content(p, s, i) == {};
    } else {
      var x :| x in s;
      SumRemove(s, Unit(p, i), x);
      BucketFold(p, s - {x}, i);
      if p.Member(x, i) {
        SumRemove(Content(p, s, i), Items(p), x);
        assert Content(p, s, i) - {x} == Content(p, s - {x}, i);
      } else {
        assert Content(p, s, i) == Content(p, s - {x}, i);
        AddZero(Sum(s - {x}, Unit(p, i)));
      }
    }
  }

  // Where an update lands, read off the bits of the hash

  predicate BitSet(h: nat, k: nat) {
    h / Pow2(k) % 2 == 1
  }

  /**
   * The rows of a column for a hash h. The default build takes the row of the lowest set bit; the
   * other one takes every row up to it. Neither takes any if no bit below the number of rows is set.
   */
  predicate InRow(h: nat, l0: bool, rows: nat, j: nat) {
    && (forall k: nat | k < j :: !BitSet(h, k))
    && (if l0 then exists k: nat :: j <= k < rows && BitSet(h, k) else BitSet(h, j))
  }

  lemma DepthBits(h: nat, rows: nat, k: nat)
    requires k < rows
    ensures k < IndexDepth(h, rows) ==> !BitSet(h, k)
    ensures k == IndexDepth(h, rows) ==> BitSet(h, k)
  {
    OrBitKeeps(h, rows, k);
    assert BitSet(h, k) == Bit(h, k);
  }

  lemma DepthRow(h: nat, l0: bool, rows: nat, j: nat)
    requires j < rows
    ensures var d := IndexDepth(h, rows);
      InRow(h, l0, rows, j) <==> if l0 then d < rows && j <= d else d == j
  {
    var d := IndexDepth(h, rows);
    forall k: nat | k < rows
      ensures (k < d ==> !BitSet(h, k)) && (k == d ==> BitSet(h, k))
    {
      DepthBits(h, rows, k);
    }
    assert d < rows ==> BitSet(h, d);
  }

  lemma CellOfColumn(p: Params, col: nat, j: nat)
    requires p.Valid() && col < p.NumColumns() && j < p.bkts
    ensures var i := col * p.bkts + j;
      i < p.Last() && col * p.bkts + p.bkts <= p.Last() && i / p.bkts == col && i % p.bkts == j
  {
    MulMono(col + 1, p.NumColumns(), p.bkts);
    assert (col + 1) * p.bkts == col * p.bkts + p.bkts;
    DivUnique(col * p.bkts + j, p.bkts, col, j);
  }

  /** An update reaches row j of a column exactly when its hash under that column's seed says so. */
  lemma RowsReached(p: Params, x: nat, col: nat, j: nat)
    requires p.Valid() && col < p.numSamples * p.cols && j < p.bkts
    ensures p.Member(x, col * p.bkts + j) <==> InRow(p.hash(x, p.seed + 5 * col), p.l0, p.bkts, j)
  {
    CellOfColumn(p, col, j);
    DepthRow(p.hash(x, p.seed + 5 * col), p.l0, p.bkts, j);
  }

  /** The members of s that the hashes put into row j of a column. */
  ghost function InCell(p: Params, s: set<nat>, col: nat, j: nat): set<nat> {
    set x | x in s && InRow(p.hash(x, p.seed + 5 * col), p.l0, p.bkts, j)
  }

  /** An index with its checksum, which is its hash under the seed of the sketch. */
  function Checked(p: Params): nat -> Bucket {
    (x: nat) => Bucket(x, p.hash(x, p.seed))
  }

  lemma {:induction false} SameSum(s: set<nat>, f: nat -> Bucket, g: nat -> Bucket)
    requires forall x | x in s :: f(x) == g(x)
    ensures Sum(s, f) == Sum(s, g)
    decreases s
  {
    if s != {} {
      var x :| x in s;
      SumRemove(s, f, x);
      SumRemove(s, g, x);
      SameSum(s - {x}, f, g);
    }
  }

  /**
   * What the sketch of s holds, by the bits of the hashes alone: the last bucket is the XOR of all of
   * s, and row j of a column the XOR of those the hashes put there.
   */
  lemma SketchHolds(p: Params, s: set<nat>, col: nat, j: nat)
    requires p.Valid() && col < p.numSamples * p.cols && j < p.bkts
    ensures |SketchOf(p, s)| == p.numSamples * p.cols * p.bkts + 1 && col * p.bkts + j < p.numSamples * p.cols * p.bkts
    ensures SketchOf(p, s)[p.numSamples * p.cols * p.bkts] == Sum(s, Checked(p))
    ensures SketchOf(p, s)[col * p.bkts + j] == Sum(InCell(p, s, col, j), Checked(p))
  {
    var i := col * p.bkts + j;
    CellOfColumn(p, col, j);
    CellContent(p, s, col, j);
    BucketFold(p, s, i);
    SameSum(Content(p, s, i), Items(p), Checked(p));
    SameSum(s, Unit(p, p.Last()), Checked(p));
  }

  lemma CellContent(p: Params, s: set<nat>, col: nat, j: nat)
    requires p.Valid() && col < p.NumColumns() && j < p.bkts
    ensures Content(p, s, col * p.bkts + j) == InCell(p, s, col, j)
  {
    forall x | x in s
      ensures p.Member(x, col * p.bkts + j) <==> InRow(p.hash(x, p.seed + 5 * col), p.l0, p.bkts, j)
    {
      RowsReached(p, x, col, j);
    }
  }

  /** An update toggles its index in the sketched set: two equal updates cancel. */
  lemma UpdateToggles(p: Params, s: set<nat>, x: nat)
    requires p.Valid()
    ensures Updated(p, SketchOf(p, s), x) == SketchOf(p, SymDiff(s, {x}))
  {
    var a, b := Updated(p, SketchOf(p, s), x), SketchOf(p, SymDiff(s, {x}));
    forall i: nat | i < |a|
      ensures a[i] == b[i]
    {
      SumSymDiff(s, {x}, Unit(p, i));
      SumSingleton(x, Unit(p, i));
      AddZero(SketchOf(p, s)[i]);
    }
  }

  /** Merging two sketches sketches the symmetric difference. */
  lemma MergeIsSymDiff(p: Params, s: set<nat>, t: set<nat>)
    requires p.Valid()
    ensures Merged(SketchOf(p, s), SketchOf(p, t)) == SketchOf(p, SymDiff(s, t))
  {
    var a, b := Merged(SketchOf(p, s), SketchOf(p, t)), SketchOf(p, SymDiff(s, t));
    forall i: nat | i < |a|
      ensures a[i] == b[i]
    {
      SumSymDiff(s, t, Unit(p, i));
    }
  }

  lemma ZerosSketchNothing(p: Params)
    requires p.Valid()
    ensures SketchOf(p, {}) == Zeros(p)
  {
  }

  /** The indices updated an odd number of times. */
  function Parity(xs: seq<nat>): set<nat> {
    if xs == [] then {} else SymDiff(Parity(xs[..|xs| - 1]), {xs[|xs| - 1]})
  }

  function UpdatedAll(p: Params, a: seq<Bucket>, xs: seq<nat>): (r: seq<Bucket>)
    requires p.Valid()
    ensures |r| == |a|
  {
    if xs == [] then a else Updated(p, UpdatedAll(p, a, xs[..|xs| - 1]), xs[|xs| - 1])
  }

  /** Any sequence of updates leaves the sketch of its parity set, whatever its order. */
  lemma {:induction false} UpdatesSketchParity(p: Params, xs: seq<nat>)
    requires p.Valid()
    ensures UpdatedAll(p, Zeros(p), xs) == SketchOf(p, Parity(xs))
  {
    if xs == [] {
      ZerosSketchNothing(p);
    } else {
      UpdatesSketchParity(p, xs[..|xs| - 1]);
      UpdateToggles(p, Parity(xs[..|xs| - 1]), xs[|xs| - 1]);
    }
  }

  /**
   * Unbounded numbers stand for machine words without loss: if indices fit k bits and their
   * checksums m bits, so does every bucket of every sketch.
   */
  lemma WordsSuffice(p: Params, s: set<nat>, i: nat, k: nat, m: nat)
    requires p.Valid() && i < p.NumBuckets() && forall x | x in s :: Fits(p.Item(x), k, m)
    ensures Fits(SketchOf(p, s)[i], k, m)
  {
    AllUnitsFit(p, s, i, k, m);
    SumFits(s, Unit(p, i), k, m);
  }

  lemma AllUnitsFit(p: Params, s: set<nat>, i: nat, k: nat, m: nat)
    requires p.Valid() && forall x | x in s :: Fits(p.Item(x), k, m)
    ensures forall x | x in s :: Fits(Unit(p, i)(x), k, m)
  {
  }

  // Sampling

  datatype Outcome = GoodSample(idx: nat) | ZeroSample | FailSample | OutOfSamples

  /** Bucket values together with the number of samples taken so far. */
  datatype SketchVal = SketchVal(bks: seq<Bucket>, idx: nat)

  function FirstGood(p: Params, a: seq<Bucket>, lo: nat, hi: nat): (o: Outcome)
    requires lo <= hi <= |a|
    ensures o.FailSample? || o.GoodSample?
    decreases hi - lo
  {
    if lo == hi then FailSample
    else if p.Good(a[lo]) then GoodSample(a[lo].alpha)
    else FirstGood(p, a, lo + 1, hi)
  }

  lemma StartMono(p: Params, s: nat, t: nat)
    requires s <= t
    ensures p.Start(s) <= p.Start(t)
    ensures p.Start(p.numSamples) == p.Last()
    ensures p.Start(s + 1) == p.Start(s) + p.cols * p.bkts
  {
    MulMono(s, t, p.cols);
    MulMono(s * p.cols, t * p.cols, p.bkts);
    assert (s + 1) * p.cols == s * p.cols + p.cols;
    assert (s * p.cols + p.cols) * p.bkts == s * p.cols * p.bkts + p.cols * p.bkts;
  }

  lemma MulMono(a: nat, b: nat, c: nat)
    requires a <= b
    ensures a * c <= b * c
  {
  }

  /** The answer of sample() on its current sample. */
  function Sampled(p: Params, a: SketchVal): (o: Outcome)
    requires p.Valid() && |a.bks| == p.NumBuckets()
    ensures o.OutOfSamples? <==> a.idx >= p.numSamples
  {
    if a.idx >= p.numSamples then OutOfSamples
    else if a.bks[p.Last()] == ZERO then ZeroSample
    else if p.Good(a.bks[p.Last()]) then GoodSample(a.bks[p.Last()].alpha)
    else
      StartMono(p, a.idx, a.idx + 1);
      StartMono(p, a.idx + 1, p.numSamples);
      FirstGood(p, a.bks, p.Start(a.idx), p.Start(a.idx + 1))
  }

  /** The checksum of the bucket is the hash of its index under the seed of the sketch. */
  predicate Right(p: Params, b: Bucket) {
    b.gamma == p.hash(b.alpha, p.seed)
  }

  /** Bucket b is the first one from lo on whose checksum is right. */
  ghost predicate FirstRight(p: Params, a: seq<Bucket>, lo: nat, b: nat) {
    lo <= b < |a| && Right(p, a[b]) && forall i: nat | lo <= i < b :: !Right(p, a[i])
  }

  lemma {:induction false} FirstGoodFinds(p: Params, a: seq<Bucket>, lo: nat, hi: nat)
    requires lo <= hi <= |a|
    ensures var o := FirstGood(p, a, lo, hi);
      if o.GoodSample? then exists b: nat :: b < hi && FirstRight(p, a, lo, b) && o.idx == a[b].alpha
      else forall i: nat | lo <= i < hi :: !Right(p, a[i])
    decreases hi - lo
  {
    if lo < hi {
      if p.Good(a[lo]) {
        assert FirstRight(p, a, lo, lo);
      } else {
        FirstGoodFinds(p, a, lo + 1, hi);
        if FirstGood(p, a, lo, hi).GoodSample? {
          var b: nat :| b < hi && FirstRight(p, a, lo + 1, b) && FirstGood(p, a, lo, hi).idx == a[b].alpha;
          assert FirstRight(p, a, lo, b);
        }
      }
    }
  }

  /**
   * What a sample that is not exhausted answers: nothing to return exactly when the last bucket
   * is zero; its index if its checksum is right; else the index of the first bucket of the
   * sample's columns whose checksum is right; a failure exactly when there is none.
   */
  lemma SampleAnswers(p: Params, a: SketchVal)
    requires p.Valid() && |a.bks| == p.numSamples * p.cols * p.bkts + 1 && a.idx < p.numSamples
    ensures
      var o, last := Sampled(p, a), a.bks[|a.bks| - 1];
      var lo, width := a.idx * p.cols * p.bkts, p.cols * p.bkts;
      && !o.OutOfSamples?
      && (o.ZeroSample? <==> last.alpha == 0 && last.gamma == 0)
      && (!o.ZeroSample? && Right(p, last) ==> o == GoodSample(last.alpha))
      && (!o.ZeroSample? && !Right(p, last) ==>
            if o.GoodSample? then exists b: nat :: b < lo + width && FirstRight(p, a.bks, lo, b) && o.idx == a.bks[b].alpha
            else forall i: nat | lo <= i < lo + width :: i < |a.bks| && !Right(p, a.bks[i]))
  {
    StartMono(p, a.idx, a.idx + 1);
    StartMono(p, a.idx + 1, p.numSamples);
    FirstGoodFinds(p, a.bks, p.Start(a.idx), p.Start(a.idx + 1));
  }

  /** range_merge of n samples of b from sample start on; out of range it poisons the sample index. */
  function RangeMerged(p: Params, a: SketchVal, b: seq<Bucket>, start: nat, n: nat): (r: SketchVal)
    requires p.Valid() && |a.bks| == |b| == p.NumBuckets()
    ensures |r.bks| == |a.bks|
  {
    if start + n > p.numSamples then a.(idx := p.numSamples)
    else
      SketchVal(
        seq(|a.bks|, i requires 0 <= i < |a.bks| =>
          if i == p.Last() || p.Start(start) <= i < p.Start(start + n) then Add(a.bks[i], b[i]) else a.bks[i]),
        if a.idx > start then a.idx else start)
  }

  /** a and b agree on what sample s looks at. */
  ghost predicate Agree(p: Params, s: nat, a: seq<Bucket>, b: seq<Bucket>) {
    && |a| == |b| == p.NumBuckets()
    && (s < p.numSamples ==> forall i: nat | i < |a| && p.Relevant(s, i) :: a[i] == b[i])
  }

  lemma {:induction false} FirstGoodAgrees(p: Params, a: seq<Bucket>, b: seq<Bucket>, lo: nat, hi: nat)
    requires lo <= hi <= |a| && |a| == |b| && forall i: nat | lo <= i < hi :: a[i] == b[i]
    ensures FirstGood(p, a, lo, hi) == FirstGood(p, b, lo, hi)
    decreases hi - lo
  {
    if lo < hi {
      FirstGoodAgrees(p, a, b, lo + 1, hi);
    }
  }

  /** Sample s only depends on its own columns and the deterministic bucket. */
  lemma SampleAgrees(p: Params, s: nat, a: seq<Bucket>, b: seq<Bucket>)
    requires p.Valid() && Agree(p, s, a, b)
    ensures Sampled(p, SketchVal(a, s)) == Sampled(p, SketchVal(b, s))
  {
    if s < p.numSamples {
      StartMono(p, s, s + 1);
      StartMono(p, s + 1, p.numSamples);
      FirstGoodAgrees(p, a, b, p.Start(s), p.Start(s + 1));
    }
  }

  /**
   * A range merge merges exactly the samples of the range: those answer as in the full merge,
   * and the columns of all others stay.
   */
  lemma RangeMergesRange(p: Params, a: SketchVal, b: seq<Bucket>, start: nat, n: nat, s: nat)
    requires p.Valid() && |a.bks| == |b| == p.NumBuckets() && start + n <= p.numSamples && s < p.numSamples
    ensures var r := RangeMerged(p, a, b, start, n);
      && (start <= s < start + n ==> Agree(p, s, r.bks, Merged(a.bks, b)))
      && (!(start <= s < start + n) ==>
            forall i: nat | s * p.cols * p.bkts <= i < (s + 1) * p.cols * p.bkts :: i < |r.bks| && r.bks[i] == a.bks[i])
      && start <= r.idx && a.idx <= r.idx && (r.idx == a.idx || r.idx == start)
  {
    StartMono(p, s, s + 1);
    StartMono(p, s + 1, p.numSamples);
    if start <= s < start + n {
      StartMono(p, start, s);
      StartMono(p, s + 1, start + n);
    } else if s < start {
      StartMono(p, s + 1, start);
    } else {
      StartMono(p, start + n, s);
    }
  }

  function RangeMergedAll(p: Params, a: SketchVal, bs: seq<seq<Bucket>>, s: nat): (r: SketchVal)
    requires p.Valid() && |a.bks| == p.NumBuckets() && forall b | b in bs :: |b| == p.NumBuckets()
    ensures |r.bks| == p.NumBuckets()
  {
    if bs == [] then a else RangeMerged(p, RangeMergedAll(p, a, bs[..|bs| - 1], s), bs[|bs| - 1], s, 1)
  }

  function MergedAll(p: Params, a: seq<Bucket>, bs: seq<seq<Bucket>>): (r: seq<Bucket>)
    requires p.Valid() && |a| == p.NumBuckets() && forall b | b in bs :: |b| == p.NumBuckets()
    ensures |r| == p.NumBuckets()
  {
    if bs == [] then a else Merged(MergedAll(p, a, bs[..|bs| - 1]), bs[|bs| - 1])
  }

  lemma {:induction false} RangeMergeAgrees(p: Params, bs: seq<seq<Bucket>>, s: nat)
    requires p.Valid() && forall b | b in bs :: |b| == p.NumBuckets()
    ensures var r := RangeMergedAll(p, SketchVal(Zeros(p), 0), bs, s);
      Agree(p, s, r.bks, MergedAll(p, Zeros(p), bs)) &&
      r.idx == (if bs == [] then 0 else if s < p.numSamples then s else p.numSamples)
  {
    if bs != [] {
      RangeMergeAgrees(p, bs[..|bs| - 1], s);
    }
  }

  /**
   * A zeroed sketch range-merged with any members for round s answers as the fully
   * merged sketch does at sample s; past the last sample both are exhausted.
   */
  lemma RangeMergeSamplesMerge(p: Params, bs: seq<seq<Bucket>>, s: nat)
    requires p.Valid() && bs != [] && forall b | b in bs :: |b| == p.NumBuckets()
    ensures Sampled(p, RangeMergedAll(p, SketchVal(Zeros(p), 0), bs, s)) ==
            Sampled(p, SketchVal(MergedAll(p, Zeros(p), bs), s))
  {
    var r := RangeMergedAll(p, SketchVal(Zeros(p), 0), bs, s);
    RangeMergeAgrees(p, bs, s);
    SampleAgrees(p, s, r.bks, MergedAll(p, Zeros(p), bs));
  }

  /** No column range reaches the deterministic bucket. */
  lemma RangesAvoidLast(p: Params, s: nat)
    requires p.Valid() && s < p.numSamples
    ensures p.Start(s) < p.Start(s + 1) <= p.Last() < p.NumBuckets()
  {
    StartMono(p, s, s + 1);
    StartMono(p, s + 1, p.numSamples);
    assert p.cols * p.bkts > 0;
  }

  // The checksum hypothesis

  /** The checksum of a bucket content is convincing only for single indices, and nothing else cancels out. */
  ghost predicate Convincing(p: Params, content: set<nat>) {
    var b := Sum(content, Items(p));
    (p.Good(b) ==> |content| == 1) && (b == ZERO ==> content == {})
  }

  /** No bucket of the sketch of s deceives its reader. */
  ghost predicate Sound(p: Params, s: set<nat>)
    requires p.Valid()
  {
    forall i: nat | i < p.NumBuckets() :: Convincing(p, Content(p, s, i))
  }

  lemma SoundBucket(p: Params, s: set<nat>, i: nat)
    requires p.Valid() && i < p.NumBuckets() && Sound(p, s)
    ensures p.Good(SketchOf(p, s)[i]) ==> SketchOf(p, s)[i].alpha in s
  {
    var c := Content(p, s, i);
    assert Convincing(p, c);
    BucketFold(p, s, i);
    if p.Good(SketchOf(p, s)[i]) {
      assert |c| == 1;
      var x :| x in c;
      assert |c - {x}| == 0;
      assert c == {x};
      SumSingleton(x, Items(p));
    }
  }

  lemma {:induction false} FirstGoodInside(p: Params, a: seq<Bucket>, s: set<nat>, lo: nat, hi: nat)
    requires lo <= hi <= |a|
    requires forall i: nat | lo <= i < hi && p.Good(a[i]) :: a[i].alpha in s
    ensures var o := FirstGood(p, a, lo, hi);
      o == FailSample || (o.GoodSample? && o.idx in s)
    decreases hi - lo
  {
    if lo < hi {
      FirstGoodInside(p, a, s, lo + 1, hi);
    }
  }

  lemma SoundBuckets(p: Params, s: set<nat>)
    requires p.Valid() && Sound(p, s)
    ensures forall i: nat | i < p.NumBuckets() && p.Good(SketchOf(p, s)[i]) :: SketchOf(p, s)[i].alpha in s
  {
    forall i: nat | i < p.NumBuckets() && p.Good(SketchOf(p, s)[i])
      ensures SketchOf(p, s)[i].alpha in s
    {
      SoundBucket(p, s, i);
    }
  }

  /** A good sample is a member, and a zero sample means the set is empty. */
  lemma SampleSound(p: Params, s: set<nat>, sample: nat)
    requires p.Valid() && Sound(p, s)
    ensures var o := Sampled(p, SketchVal(SketchOf(p, s), sample));
      && (o.OutOfSamples? <==> sample >= p.numSamples)
      && (o.GoodSample? ==> o.idx in s)
      && (sample < p.numSamples ==> (o.ZeroSample? <==> s == {}))
  {
    if sample < p.numSamples {
      var a := SketchOf(p, s);
      var c := Content(p, s, p.Last());
      assert c == s;
      assert Convincing(p, c);
      BucketFold(p, s, p.Last());
      SoundBuckets(p, s);
      StartMono(p, sample, sample + 1);
      StartMono(p, sample + 1, p.numSamples);
      FirstGoodInside(p, a, s, p.Start(sample), p.Start(sample + 1));
    }
  }

  /** Without any hypothesis: one index is recovered and an empty set is recognised. */
  lemma SampleOfOneOrNone(p: Params, x: nat, sample: nat)
    requires p.Valid() && sample < p.numSamples && x != 0
    ensures Sampled(p, SketchVal(SketchOf(p, {x}), sample)) == GoodSample(x)
    ensures Sampled(p, SketchVal(SketchOf(p, {}), sample)) == ZeroSample
  {
    SumSingleton(x, Unit(p, p.Last()));
  }
}
