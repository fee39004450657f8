// Hashes that make a sample of two indices answer with the one we like, or fail, without
// deceiving anyone: what the checksum hypothesis does not rule out (src/sketch.cpp).

module Decoys {
  import opened Words
  import opened Buckets
  import opened Depths
  import opened SketchSpec
  import opened SampleCount
  import Partition

  /** Where each index ranks in the columns of the first sample, and in those of all others. */
  type Ranking = (nat, bool) -> nat

  ghost predicate Ranked(rank: Ranking) {
    forall x: nat, first: bool :: rank(x, first) <= 5
  }

  /** The hash of an index that should reach a depth: every checksum has bit 6 set. */
  function HashTo(depth: nat): nat {
    64 + Pow2(depth)
  }

  /** Low ranks are sampled first, in both builds. */
  function DepthFor(l0: bool, r: nat): nat {
    if l0 then (if r <= 5 then 5 - r else 0) else r
  }

  function DecoyParams(samples: nat, bkts: nat, l0: bool, rank: Ranking): (p: Params)
    requires bkts > 0
    ensures p.Valid() && p.numSamples == samples && p.bkts == bkts && p.l0 == l0 && p.cols == DefaultCols(l0)
  {
    Params(0, samples, DefaultCols(l0), bkts, l0, (x: nat, seed: nat) => HashTo(DepthFor(l0, rank(x, EarlySeed(l0, seed)))))
  }

  /** The seed of a column of the first sample. */
  predicate EarlySeed(l0: bool, seed: nat) {
    seed < if l0 then 35 else 5
  }

  lemma HashIs(samples: nat, bkts: nat, l0: bool, rank: Ranking, x: nat, seed: nat)
    requires bkts > 0
    ensures DecoyParams(samples, bkts, l0, rank).hash(x, seed) == HashTo(DepthFor(l0, rank(x, EarlySeed(l0, seed))))
  {
  }

  // Depths

  lemma {:induction false} OddTimes(d: nat, m: nat)
    ensures Pow2(d) * (2 * m + 1) > 0 && TrailingZeros(Pow2(d) * (2 * m + 1)) == d
    decreases d
  {
    if d > 0 {
      OddTimes(d - 1, m);
      var h := Pow2(d - 1) * (2 * m + 1);
      Twofold(Pow2(d - 1), 2 * m + 1);
      assert Pow2(d) * (2 * m + 1) == 2 * h;
    }
  }

  lemma Twofold(a: nat, b: nat)
    ensures 2 * a * b == 2 * (a * b)
  {
  }

  lemma {:induction false} Pow2Add(a: nat, b: nat)
    ensures Pow2(a + b) == Pow2(a) * Pow2(b)
    decreases a
  {
    if a > 0 {
      Pow2Add(a - 1, b);
      Twofold(Pow2(a - 1), Pow2(b));
    }
  }

  /** 2^d plus an even multiple of it. */
  lemma LowBitStays(d: nat, k: nat, h: nat, m: nat)
    requires h == Pow2(d) * (2 * m + 1) && k > d
    ensures h + Pow2(k) > 0 && TrailingZeros(h + Pow2(k)) == d && TrailingZeros(h) == d
  {
    OddTimes(d, m);
    Pow2Add(d, k - d);
    var e := Pow2(k - d - 1);
    assert Pow2(k - d) == 2 * e;
    Shared(Pow2(d), 2 * m + 1, 2 * e);
    OddTimes(d, m + e);
  }

  lemma Shared(a: nat, b: nat, c: nat)
    ensures a * b + a * c == a * (b + c)
  {
  }

  lemma HashReaches(depth: nat, bkts: nat)
    requires depth <= 5 < bkts
    ensures IndexDepth(HashTo(depth), bkts) == depth
  {
    SmallPowers();
    Pow2Add(depth, 6 - depth);
    var m := Pow2(5 - depth);
    assert Pow2(6 - depth) == 2 * m;
    Shared(Pow2(depth), 2 * m, 1);
    LowBitStays(depth, bkts, HashTo(depth), m);
  }

  lemma DecoyDepth(samples: nat, bkts: nat, l0: bool, rank: Ranking, x: nat, col: nat)
    requires bkts > 5 && Ranked(rank)
    ensures DecoyParams(samples, bkts, l0, rank).Depth(x, col) == DepthFor(l0, rank(x, col < DefaultCols(l0)))
  {
    var p := DecoyParams(samples, bkts, l0, rank);
    assert p.ColumnSeed(col) == col * 5;
    assert EarlySeed(l0, col * 5) <==> col < DefaultCols(l0);
    HashIs(samples, bkts, l0, rank, x, col * 5);
    HashReaches(DepthFor(l0, rank(x, col < DefaultCols(l0))), bkts);
  }

  // Checksums

  lemma {:induction false} XorDiffers(a: nat, b: nat)
    ensures Xor(a, b) == 0 <==> a == b
    decreases a + b
  {
    if a + b > 0 {
      XorDiffers(a / 2, b / 2);
      XorUnfold(a, b);
    }
  }

  /** The top bit of two words that share it cancels. */
  lemma {:induction false} TopCancels(a: nat, b: nat, k: nat)
    requires Pow2(k) <= a < 2 * Pow2(k) && Pow2(k) <= b < 2 * Pow2(k)
    ensures Xor(a, b) < Pow2(k)
    decreases k
  {
    if k == 0 {
      XorSelf(1);
    } else {
      TopCancels(a / 2, b / 2, k - 1);
      XorUnfold(a, b);
    }
  }

  lemma ChecksumRange(samples: nat, bkts: nat, l0: bool, rank: Ranking, x: nat)
    requires bkts > 5 && Ranked(rank)
    ensures 64 < DecoyParams(samples, bkts, l0, rank).Checksum(x) < 128
  {
    HashIs(samples, bkts, l0, rank, x, 0);
    HashRange(DepthFor(l0, rank(x, true)));
  }

  lemma HashRange(d: nat)
    requires d <= 5
    ensures 64 < HashTo(d) < 128
  {
    SmallPowers();
    assert d == 0 || d == 1 || d == 2 || d == 3 || d == 4 || d == 5;
  }

  /** Two different indices XOR to something that is neither convincing nor zero. */
  lemma PairDull(samples: nat, bkts: nat, l0: bool, rank: Ranking, c: set<nat>, x: nat, y: nat)
    requires bkts > 5 && Ranked(rank) && c == {x, y} && x != y
    ensures var p := DecoyParams(samples, bkts, l0, rank); var b := Sum(c, Items(p)); !p.Good(b) && b != ZERO
  {
    var p := DecoyParams(samples, bkts, l0, rank);
    SumRemove(c, Items(p), x);
    assert c - {x} == {y};
    SumSingleton(y, Items(p));
    var b := Sum(c, Items(p));
    ChecksumRange(samples, bkts, l0, rank, x);
    ChecksumRange(samples, bkts, l0, rank, y);
    ChecksumRange(samples, bkts, l0, rank, b.alpha);
    SmallPowers();
    TopCancels(p.Checksum(x), p.Checksum(y), 6);
    XorDiffers(x, y);
  }

  lemma NothingDull(samples: nat, bkts: nat, l0: bool, rank: Ranking)
    requires bkts > 5 && Ranked(rank)
    ensures var p := DecoyParams(samples, bkts, l0, rank); !p.Good(ZERO)
  {
    ChecksumRange(samples, bkts, l0, rank, 0);
  }

  /** At most two indices. */
  ghost predicate Few(c: set<nat>) {
    c == {} || (exists x: nat :: c == {x}) || exists x: nat, y: nat :: x != y && c == {x, y}
  }

  lemma FewConvincing(samples: nat, bkts: nat, l0: bool, rank: Ranking, c: set<nat>)
    requires bkts > 5 && Ranked(rank) && Few(c)
    ensures Convincing(DecoyParams(samples, bkts, l0, rank), c)
  {
    var p := DecoyParams(samples, bkts, l0, rank);
    if c == {} {
      NothingDull(samples, bkts, l0, rank);
    } else if x: nat :| c == {x} {
      SumSingleton(x, Items(p));
      ChecksumRange(samples, bkts, l0, rank, x);
    } else {
      var x: nat, y: nat :| x != y && c == {x, y};
      PairDull(samples, bkts, l0, rank, c, x, y);
    }
  }

  lemma FewSubset(c: set<nat>, s: set<nat>)
    requires c <= s && Few(s)
    ensures Few(c)
  {
    if x: nat :| s == {x} {
      assert c == {} || c == {x};
    } else if x: nat, y: nat :| x != y && s == {x, y} {
      assert c == (if x in c then {x} else {}) + if y in c then {y} else {};
      assert c == {} || c == {x} || c == {y} || c == {x, y};
    }
  }

  /** The sketch of at most two indices deceives nobody. */
  lemma FewSound(samples: nat, bkts: nat, l0: bool, rank: Ranking, s: set<nat>)
    requires bkts > 5 && Ranked(rank) && Few(s)
    ensures Sound(DecoyParams(samples, bkts, l0, rank), s)
  {
    var p := DecoyParams(samples, bkts, l0, rank);
    forall i: nat | i < p.NumBuckets()
      ensures Convincing(p, Content(p, s, i))
    {
      FewSubset(Content(p, s, i), s);
      FewConvincing(samples, bkts, l0, rank, Content(p, s, i));
    }
  }

  // Samples of two indices

  /** The bucket in row j of column col. */
  function RowOf(bkts: nat, col: nat, j: nat): nat {
    col * bkts + j
  }

  lemma RowAt(bkts: nat, col: nat, j: nat)
    requires j < bkts
    ensures RowOf(bkts, col, j) / bkts == col && RowOf(bkts, col, j) % bkts == j
  {
    DivUnique(col * bkts + j, bkts, col, j);
  }

  lemma RowInside(bkts: nat, cols: nat, col: nat, j: nat)
    requires j < bkts && col < cols
    ensures RowOf(bkts, col, j) < cols * bkts
  {
    MulMono(col + 1, cols, bkts);
    Shared(bkts, col, 1);
  }

  /** Does an index of that rank reach row j? */
  predicate InRow(l0: bool, r: nat, j: nat) {
    if l0 then j <= DepthFor(l0, r) else j == DepthFor(l0, r)
  }

  lemma RowMember(samples: nat, bkts: nat, l0: bool, rank: Ranking, x: nat, col: nat, j: nat)
    requires bkts > 5 && Ranked(rank) && j < bkts && col < samples * DefaultCols(l0)
    ensures var p := DecoyParams(samples, bkts, l0, rank);
      && RowOf(bkts, col, j) < p.Last()
      && (p.Member(x, RowOf(bkts, col, j)) <==> InRow(l0, rank(x, col < DefaultCols(l0)), j))
  {
    RowAt(bkts, col, j);
    RowInside(bkts, samples * DefaultCols(l0), col, j);
    DecoyDepth(samples, bkts, l0, rank, x, col);
  }

  function Those(x: nat, y: nat, hasX: bool, hasY: bool): set<nat> {
    (if hasX then {x} else {}) + if hasY then {y} else {}
  }

  lemma PairContent(p: Params, x: nat, y: nat, i: nat)
    requires p.Valid()
    ensures Content(p, {x, y}, i) == Those(x, y, p.Member(x, i), p.Member(y, i))
  {
  }

  lemma PairSum(samples: nat, bkts: nat, l0: bool, rank: Ranking, x: nat, y: nat, hasX: bool, hasY: bool)
    requires bkts > 5 && Ranked(rank) && x != y
    ensures var p := DecoyParams(samples, bkts, l0, rank);
      var b := Sum(Those(x, y, hasX, hasY), Items(p));
      (p.Good(b) <==> hasX != hasY) && (hasX != hasY ==> b.alpha == if hasX then x else y)
  {
    var p := DecoyParams(samples, bkts, l0, rank);
    if hasX && hasY {
      PairDull(samples, bkts, l0, rank, Those(x, y, true, true), x, y);
    } else if hasX {
      assert Those(x, y, true, false) == {x};
      SumSingleton(x, Items(p));
    } else if hasY {
      assert Those(x, y, false, true) == {y};
      SumSingleton(y, Items(p));
    } else {
      NothingDull(samples, bkts, l0, rank);
    }
  }

  /** A bucket of a sketch of two indices is convincing exactly if it holds one of them. */
  lemma PairBucket(samples: nat, bkts: nat, l0: bool, rank: Ranking, x: nat, y: nat, i: nat)
    requires bkts > 5 && Ranked(rank) && x != y && i < DecoyParams(samples, bkts, l0, rank).NumBuckets()
    ensures var p := DecoyParams(samples, bkts, l0, rank);
      var b := SketchOf(p, {x, y})[i];
      && (p.Good(b) <==> p.Member(x, i) != p.Member(y, i))
      && (p.Member(x, i) != p.Member(y, i) ==> b.alpha == if p.Member(x, i) then x else y)
  {
    var p := DecoyParams(samples, bkts, l0, rank);
    BucketFold(p, {x, y}, i);
    PairContent(p, x, y, i);
    PairSum(samples, bkts, l0, rank, x, y, p.Member(x, i), p.Member(y, i));
  }

  /** The answer of sample k to two indices of different ranks is the one that ranks lower. */
  predicate Prefers(rank: Ranking, k: nat, x: nat, y: nat) {
    rank(x, k == 0) < rank(y, k == 0)
  }

  lemma FirstRow(samples: nat, bkts: nat, l0: bool, rank: Ranking, x: nat, y: nat, k: nat, j: nat)
    requires bkts > 5 && Ranked(rank) && x != y && k < samples && j < bkts
    ensures var p := DecoyParams(samples, bkts, l0, rank);
      var i := RowOf(bkts, k * DefaultCols(l0), j);
      && i == p.Start(k) + j && p.Start(k) + bkts <= p.Start(k + 1) <= p.Last() && i < p.NumBuckets()
      && (p.Good(SketchOf(p, {x, y})[i]) <==> InRow(l0, rank(x, k == 0), j) != InRow(l0, rank(y, k == 0), j))
      && (InRow(l0, rank(x, k == 0), j) && !InRow(l0, rank(y, k == 0), j) ==> SketchOf(p, {x, y})[i].alpha == x)
  {
    var p := DecoyParams(samples, bkts, l0, rank);
    var col := k * DefaultCols(l0);
    StartMono(p, k, k + 1);
    StartMono(p, k + 1, samples);
    ColumnOf(k, samples, DefaultCols(l0));
    MulMono(1, DefaultCols(l0), bkts);
    RowMember(samples, bkts, l0, rank, x, col, j);
    RowMember(samples, bkts, l0, rank, y, col, j);
    PairBucket(samples, bkts, l0, rank, x, y, RowOf(bkts, col, j));
  }

  lemma ColumnOf(k: nat, samples: nat, cols: nat)
    requires k < samples && cols > 0
    ensures k * cols < samples * cols && (k * cols < cols <==> k == 0)
  {
    MulMono(k + 1, samples, cols);
    Shared(cols, k, 1);
    if k > 0 {
      MulMono(1, k, cols);
    }
  }

  /** Where FirstGood meets a good bucket with a, and no good bucket with anything else before it. */
  lemma {:induction false} FirstGoodIs(p: Params, a: seq<Bucket>, lo: nat, at: nat, hi: nat, x: nat)
    requires lo <= at < hi <= |a| && p.Good(a[at]) && forall i: nat | lo <= i <= at && p.Good(a[i]) :: a[i].alpha == x
    ensures FirstGood(p, a, lo, hi) == GoodSample(x)
    decreases at - lo
  {
    if !p.Good(a[lo]) {
      FirstGoodIs(p, a, lo + 1, at, hi, x);
    }
  }

  lemma FirstGoodNone(p: Params, a: seq<Bucket>, lo: nat, hi: nat)
    requires lo <= hi <= |a| && forall i: nat | lo <= i < hi :: !p.Good(a[i])
    ensures FirstGood(p, a, lo, hi) == FailSample
  {
    FirstGoodFinds(p, a, lo, hi);
  }

  /** The deterministic bucket of two indices tells nothing. */
  lemma LastDull(samples: nat, bkts: nat, l0: bool, rank: Ranking, x: nat, y: nat)
    requires bkts > 5 && Ranked(rank) && x != y
    ensures var p := DecoyParams(samples, bkts, l0, rank);
      var b := SketchOf(p, {x, y})[p.Last()]; !p.Good(b) && b != ZERO
  {
    var p := DecoyParams(samples, bkts, l0, rank);
    BucketFold(p, {x, y}, p.Last());
    assert Content(p, {x, y}, p.Last()) == {x, y};
    PairDull(samples, bkts, l0, rank, {x, y}, x, y);
  }

  /** When the deterministic bucket tells nothing, the columns of the sample decide. */
  lemma ScanDecides(p: Params, a: seq<Bucket>, k: nat, lo: nat, hi: nat)
    requires p.Valid() && |a| == p.NumBuckets() && k < p.numSamples && a[p.Last()] != ZERO && !p.Good(a[p.Last()])
    requires lo == p.Start(k) && hi == p.Start(k + 1)
    ensures lo <= hi < |a| && Sampled(p, SketchVal(a, k)) == FirstGood(p, a, lo, hi)
  {
    StartMono(p, k, k + 1);
    StartMono(p, k + 1, p.numSamples);
  }

  lemma RowsBefore(samples: nat, bkts: nat, l0: bool, rank: Ranking, x: nat, y: nat, k: nat, i: nat)
    requires bkts > 5 && Ranked(rank) && x != y && k < samples && Prefers(rank, k, x, y)
    requires var p := DecoyParams(samples, bkts, l0, rank);
      p.Start(k) <= i <= p.Start(k) + DepthFor(l0, rank(x, k == 0)) && i < p.NumBuckets() && p.Good(SketchOf(p, {x, y})[i])
    ensures SketchOf(DecoyParams(samples, bkts, l0, rank), {x, y})[i].alpha == x
  {
    var p := DecoyParams(samples, bkts, l0, rank);
    FirstRow(samples, bkts, l0, rank, x, y, k, i - p.Start(k));
  }

  /** Of two indices the one that ranks lower is sampled. */
  lemma PreferredSample(samples: nat, bkts: nat, l0: bool, rank: Ranking, x: nat, y: nat, k: nat)
    requires bkts > 5 && Ranked(rank) && x != y && k < samples && Prefers(rank, k, x, y)
    ensures var p := DecoyParams(samples, bkts, l0, rank); Sampled(p, SketchVal(SketchOf(p, {x, y}), k)) == GoodSample(x)
  {
    var p := DecoyParams(samples, bkts, l0, rank);
    LastDull(samples, bkts, l0, rank, x, y);
    PreferredRow(samples, bkts, l0, rank, x, y, k, p.Start(k), p.Start(k + 1));
    ScanDecides(p, SketchOf(p, {x, y}), k, p.Start(k), p.Start(k + 1));
  }

  lemma PreferredRow(samples: nat, bkts: nat, l0: bool, rank: Ranking, x: nat, y: nat, k: nat, lo: nat, hi: nat)
    requires bkts > 5 && Ranked(rank) && x != y && k < samples && Prefers(rank, k, x, y)
    requires var p := DecoyParams(samples, bkts, l0, rank); lo == p.Start(k) && hi == p.Start(k + 1)
    ensures var p := DecoyParams(samples, bkts, l0, rank);
      lo <= hi <= |SketchOf(p, {x, y})| && FirstGood(p, SketchOf(p, {x, y}), lo, hi) == GoodSample(x)
  {
    var p := DecoyParams(samples, bkts, l0, rank);
    var a, j := SketchOf(p, {x, y}), DepthFor(l0, rank(x, k == 0));
    FirstRow(samples, bkts, l0, rank, x, y, k, j);
    forall i: nat | lo <= i <= lo + j && p.Good(a[i])
      ensures a[i].alpha == x
    {
      RowsBefore(samples, bkts, l0, rank, x, y, k, i);
    }
    FirstGoodIs(p, a, lo, lo + j, hi, x);
  }

  /** Which column and row a bucket of a sample is in. */
  lemma BucketAt(bkts: nat, cols: nat, k: nat, i: nat)
    requires bkts > 0 && k * cols * bkts <= i < (k + 1) * cols * bkts
    ensures k * cols <= i / bkts < (k + 1) * cols && i == RowOf(bkts, i / bkts, i % bkts)
  {
    Partition.FloorLeq(i, bkts, k * cols);
    Partition.FloorLeq(i, bkts, (k + 1) * cols);
    assert i == i / bkts * bkts + i % bkts;
  }

  lemma TieRow(samples: nat, bkts: nat, l0: bool, rank: Ranking, x: nat, y: nat, k: nat, i: nat)
    requires bkts > 5 && Ranked(rank) && x != y && k < samples && rank(x, k == 0) == rank(y, k == 0)
    requires var p := DecoyParams(samples, bkts, l0, rank); p.Start(k) <= i < p.Start(k + 1) <= p.Last()
    ensures var p := DecoyParams(samples, bkts, l0, rank); !p.Good(SketchOf(p, {x, y})[i])
  {
    var p := DecoyParams(samples, bkts, l0, rank);
    var cols := DefaultCols(l0);
    BucketAt(bkts, cols, k, i);
    var col, j := i / bkts, i % bkts;
    MulMono(k + 1, samples, cols);
    EarlyColumn(cols, k, col);
    RowMember(samples, bkts, l0, rank, x, col, j);
    RowMember(samples, bkts, l0, rank, y, col, j);
    PairBucket(samples, bkts, l0, rank, x, y, i);
  }

  lemma EarlyColumn(cols: nat, k: nat, col: nat)
    requires k * cols <= col < (k + 1) * cols
    ensures col < cols <==> k == 0
  {
    if k > 0 {
      MulMono(1, k, cols);
    }
  }

  /** Two indices of the same rank share every bucket, and the sample fails. */
  lemma TieFails(samples: nat, bkts: nat, l0: bool, rank: Ranking, x: nat, y: nat, k: nat)
    requires bkts > 5 && Ranked(rank) && x != y && k < samples && rank(x, k == 0) == rank(y, k == 0)
    ensures var p := DecoyParams(samples, bkts, l0, rank); Sampled(p, SketchVal(SketchOf(p, {x, y}), k)) == FailSample
  {
    var p := DecoyParams(samples, bkts, l0, rank);
    var a := SketchOf(p, {x, y});
    LastDull(samples, bkts, l0, rank, x, y);
    ScanDecides(p, a, k, p.Start(k), p.Start(k + 1));
    TieRows(samples, bkts, l0, rank, x, y, k, p.Start(k), p.Start(k + 1));
  }

  lemma TieRows(samples: nat, bkts: nat, l0: bool, rank: Ranking, x: nat, y: nat, k: nat, lo: nat, hi: nat)
    requires bkts > 5 && Ranked(rank) && x != y && k < samples && rank(x, k == 0) == rank(y, k == 0)
    requires var p := DecoyParams(samples, bkts, l0, rank);
      lo == p.Start(k) && hi == p.Start(k + 1) && lo <= hi < |SketchOf(p, {x, y})|
    ensures var p := DecoyParams(samples, bkts, l0, rank); FirstGood(p, SketchOf(p, {x, y}), lo, hi) == FailSample
  {
    var p := DecoyParams(samples, bkts, l0, rank);
    forall i: nat | lo <= i < hi
      ensures !p.Good(SketchOf(p, {x, y})[i])
    {
      TieRow(samples, bkts, l0, rank, x, y, k, i);
    }
    FirstGoodNone(p, SketchOf(p, {x, y}), lo, hi);
  }
}
