// The sketch object (src/sketch.cpp).

module Sketches {
  import opened Words
  import opened Buckets
  import opened Depths
  import opened SketchSpec

  /** Which cells of one column an update of x reaches. */
  lemma ColumnMembers(p: Params, x: nat, col: nat)
    requires p.Valid() && col < p.NumColumns()
    ensures col * p.bkts + p.bkts <= p.Last()
    ensures forall i: nat | col * p.bkts <= i < col * p.bkts + p.bkts ::
      p.Member(x, i) <==> p.Reaches(x, col, i - col * p.bkts)
  {
    CellOfColumn(p, col, 0);
    forall i: nat | col * p.bkts <= i < col * p.bkts + p.bkts
      ensures p.Member(x, i) <==> p.Reaches(x, col, i - col * p.bkts)
    {
      CellOfColumn(p, col, i - col * p.bkts);
    }
  }

  lemma {:induction false} FirstGoodSplit(p: Params, a: seq<Bucket>, lo: nat, mid: nat, hi: nat)
    requires lo <= mid <= hi <= |a|
    ensures FirstGood(p, a, lo, hi) ==
            (if FirstGood(p, a, lo, mid).FailSample? then FirstGood(p, a, mid, hi) else FirstGood(p, a, lo, mid))
    decreases mid - lo
  {
    if lo < mid {
      FirstGoodSplit(p, a, lo + 1, mid, hi);
    }
  }

  class Sketch {
    const p: Params
    const buckets: array<Bucket>
    var sampleIdx: nat

    ghost predicate Valid()
      reads this, buckets
    {
      p.Valid() && buckets.Length == p.NumBuckets()
    }

    ghost function Val(): SketchVal
      reads this, buckets
    {
      SketchVal(buckets[..], sampleIdx)
    }

    constructor (p: Params)
      requires p.Valid()
      ensures Valid() && fresh(buckets)
      ensures this.p == p && Val() == SketchVal(SketchOf(p, {}), 0)
    {
      this.p := p;
      buckets := new Bucket[p.NumBuckets()](_ => ZERO);
      sampleIdx := 0;
      new;
      ZerosSketchNothing(p);
      assert buckets[..] == Zeros(p);
    }

    method UpdateBucket(i: nat, x: nat, checksum: nat)
      requires i < buckets.Length
      modifies buckets
      ensures buckets[..] == old(buckets[..])[i := Add(old(buckets[i]), Bucket(x, checksum))]
    {
      buckets[i] := Bucket(Xor(buckets[i].alpha, x), Xor(buckets[i].gamma, checksum));
    }

    /** Both builds of update: one bucket per column, or every bucket down to the depth. */
    method Update(x: nat)
      requires Valid()
      modifies buckets
      ensures Val() == SketchVal(Updated(p, old(buckets[..]), x), old(sampleIdx))
    {
      ghost var was := buckets[..];
      var checksum := p.Checksum(x);
      UpdateBucket(buckets.Length - 1, x, checksum);
      for col := 0 to p.NumColumns()
        invariant col * p.bkts <= p.Last() == buckets.Length - 1
        invariant forall i: nat | i < col * p.bkts || i == p.Last() :: buckets[i] == Updated(p, was, x)[i]
        invariant forall i: nat | col * p.bkts <= i < p.Last() :: buckets[i] == was[i]
      {
        ColumnMembers(p, x, col);
        var depth := p.Depth(x, col);
        if depth < p.bkts {
          if p.l0 {
            UpdateDownTo(x, checksum, col, depth);
          } else {
            UpdateBucket(col * p.bkts + depth, x, checksum);
          }
        }
        assert (col + 1) * p.bkts == col * p.bkts + p.bkts;
      }
      assert p.NumColumns() * p.bkts == p.Last();
      assert buckets[..] == Updated(p, was, x);
    }

    method UpdateDownTo(x: nat, checksum: nat, col: nat, depth: nat)
      requires Valid() && col < p.NumColumns() && depth < p.bkts
      requires col * p.bkts + p.bkts < buckets.Length
      modifies buckets
      ensures forall i: nat | i < buckets.Length ::
        buckets[i] == if col * p.bkts <= i <= col * p.bkts + depth
                      then Add(old(buckets[i]), Bucket(x, checksum)) else old(buckets[i])
    {
      for j := 0 to depth + 1
        invariant forall i: nat | i < buckets.Length ::
                    buckets[i] == if col * p.bkts <= i < col * p.bkts + j
                                  then Add(old(buckets[i]), Bucket(x, checksum)) else old(buckets[i])
      {
        UpdateBucket(col * p.bkts + j, x, checksum);
      }
    }

    method ZeroContents()
      requires Valid()
      modifies this, buckets
      ensures Val() == SketchVal(SketchOf(p, {}), 0)
    {
      for i := 0 to buckets.Length
        invariant forall k: nat | k < i :: buckets[k] == ZERO
      {
        buckets[i] := ZERO;
      }
      ResetSampleState();
      ZerosSketchNothing(p);
      assert buckets[..] == Zeros(p);
    }

    method ResetSampleState()
      modifies this
      ensures sampleIdx == 0
    {
      sampleIdx := 0;
    }

    /** OutOfSamples stands for the exception, which leaves the sketch as it was. */
    method Sample() returns (o: Outcome)
      requires Valid()
      modifies this
      ensures o == Sampled(p, old(Val()))
      ensures sampleIdx == if o.OutOfSamples? then old(sampleIdx) else old(sampleIdx) + 1
    {
      if sampleIdx >= p.numSamples {
        return OutOfSamples;
      }
      var idx := sampleIdx;
      sampleIdx := sampleIdx + 1;
      var last := buckets[buckets.Length - 1];
      if last == ZERO {
        return ZeroSample;
      }
      if p.Good(last) {
        return GoodSample(last.alpha);
      }
      o := ScanColumns(idx);
    }

    /** The two nested loops of sample(), over the columns of one sample. */
    method ScanColumns(idx: nat) returns (o: Outcome)
      requires Valid() && idx < p.numSamples
      ensures p.Start(idx) <= p.Start(idx + 1) <= buckets.Length
      ensures o == FirstGood(p, buckets[..], p.Start(idx), p.Start(idx + 1))
      ensures o.GoodSample? || o.FailSample?
    {
      RangesAvoidLast(p, idx);
      var firstColumn := idx * p.cols;
      ghost var hi := p.Start(idx + 1);
      ghost var bks := buckets[..];
      assert (idx + 1) * p.cols == firstColumn + p.cols;
      for i := 0 to p.cols
        invariant p.Start(idx) <= (i + firstColumn) * p.bkts <= hi
        invariant FirstGood(p, bks, p.Start(idx), hi) == FirstGood(p, bks, (i + firstColumn) * p.bkts, hi)
      {
        RowEnds(i, firstColumn, p.cols, p.bkts);
        var lo := (i + firstColumn) * p.bkts;
        FirstGoodSplit(p, bks, lo, lo + p.bkts, hi);
        o := ScanColumn(lo);
        if o.GoodSample? {
          return;
        }
      }
      return FailSample;
    }

    method ScanColumn(lo: nat) returns (o: Outcome)
      requires Valid() && lo + p.bkts <= buckets.Length
      ensures o == FirstGood(p, buckets[..], lo, lo + p.bkts)
      ensures o.GoodSample? || o.FailSample?
    {
      for j := 0 to p.bkts
        invariant FirstGood(p, buckets[..], lo, lo + p.bkts) == FirstGood(p, buckets[..], lo + j, lo + p.bkts)
      {
        if p.Good(buckets[lo + j]) {
          return GoodSample(buckets[lo + j].alpha);
        }
      }
      return FailSample;
    }

    /** All good indices of the current sample; they are members whenever the contents are sound. */
    method ExhaustiveSample() returns (o: Outcome, found: set<nat>)
      requires Valid()
      modifies this
      ensures o.OutOfSamples? <==> old(sampleIdx) >= p.numSamples
      ensures sampleIdx == if o.OutOfSamples? then old(sampleIdx) else old(sampleIdx) + 1
      ensures o.ZeroSample? <==> Sampled(p, old(Val())).ZeroSample?
      ensures o.FailSample? <==> Sampled(p, old(Val())).FailSample?
      ensures o.GoodSample? ==> o.idx in found
      ensures o.GoodSample? && p.Good(buckets[p.Last()]) ==> found == {buckets[p.Last()].alpha}
      ensures forall x | x in found ::
        exists b: nat :: b < buckets.Length && p.Relevant(old(sampleIdx), b) && p.Good(buckets[b]) && buckets[b].alpha == x
      ensures o.GoodSample? && !p.Good(buckets[p.Last()]) ==>
        forall b: nat | b < buckets.Length && p.Start(old(sampleIdx)) <= b < p.Start(old(sampleIdx) + 1) && p.Good(buckets[b]) ::
          buckets[b].alpha in found
      ensures !o.GoodSample? ==> found == {}
    {
      found := {};
      if sampleIdx >= p.numSamples {
        o := OutOfSamples;
        return;
      }
      var idx := sampleIdx;
      sampleIdx := sampleIdx + 1;
      var last := buckets[buckets.Length - 1];
      if last == ZERO {
        o := ZeroSample;
        return;
      }
      if p.Good(last) {
        found := {last.alpha};
        o := GoodSample(last.alpha);
        return;
      }
      RangesAvoidLast(p, idx);
      var b := p.Start(idx);
      o := FailSample;
      while b < p.Start(idx + 1)
        invariant p.Start(idx) <= b <= p.Start(idx + 1) && sampleIdx == idx + 1
        invariant o.FailSample? || (o.GoodSample? && o.idx in found)
        invariant o.FailSample? <==> found == {}
        invariant o.FailSample? ==>
          FirstGood(p, buckets[..], p.Start(idx), p.Start(idx + 1)) == FirstGood(p, buckets[..], b, p.Start(idx + 1))
        invariant o.GoodSample? ==> FirstGood(p, buckets[..], p.Start(idx), p.Start(idx + 1)).GoodSample?
        invariant forall x | x in found ::
          exists k: nat :: k < buckets.Length && p.Relevant(idx, k) && p.Good(buckets[k]) && buckets[k].alpha == x
        invariant forall k: nat | p.Start(idx) <= k < b && p.Good(buckets[k]) :: buckets[k].alpha in found
      {
        if p.Good(buckets[b]) {
          assert p.Relevant(idx, b);
          found := found + {buckets[b].alpha};
          o := GoodSample(buckets[b].alpha);
        }
        b := b + 1;
      }
    }

    method Merge(other: Sketch)
      requires Valid() && other.Valid() && other.p.NumBuckets() == p.NumBuckets()
      modifies buckets
      ensures Val() == SketchVal(Merged(old(buckets[..]), old(other.buckets[..])), old(sampleIdx))
    {
      MergeRawBucketBuffer(other.buckets);
    }

    method MergeRawBucketBuffer(raw: array<Bucket>)
      requires Valid() && raw.Length == p.NumBuckets()
      modifies buckets
      ensures Val() == SketchVal(Merged(old(buckets[..]), old(raw[..])), old(sampleIdx))
    {
      for i := 0 to buckets.Length
        invariant forall k: nat | k < i :: buckets[k] == Add(old(buckets[k]), old(raw[k]))
        invariant forall k: nat | i <= k < buckets.Length :: buckets[k] == old(buckets[k]) && raw[k] == old(raw[k])
      {
        buckets[i] := Add(buckets[i], raw[i]);
      }
      assert buckets[..] == Merged(old(buckets[..]), old(raw[..]));
    }

    method RangeMerge(other: Sketch, start: nat, n: nat)
      requires Valid() && other.Valid() && other.p.NumBuckets() == p.NumBuckets() && other.buckets != buckets
      modifies this, buckets
      ensures Val() == RangeMerged(p, old(Val()), old(other.buckets[..]), start, n)
    {
      if start + n > p.numSamples {
        sampleIdx := p.numSamples;
        return;
      }
      if sampleIdx < start {
        sampleIdx := start;
      }
      RangeWidth(p, start, n);
      var last := buckets.Length - 1;
      buckets[last] := Add(buckets[last], other.buckets[last]);
      AddRange(other, start * p.cols * p.bkts, n * p.cols * p.bkts);
      assert buckets[..] == RangeMerged(p, old(Val()), old(other.buckets[..]), start, n).bks;
    }

    method AddRange(other: Sketch, lo: nat, count: nat)
      requires other.buckets != buckets && other.buckets.Length == buckets.Length && lo + count <= buckets.Length
      modifies buckets
      ensures forall k: nat | k < buckets.Length ::
                buckets[k] == (if lo <= k < lo + count then Add(old(buckets[k]), other.buckets[k]) else old(buckets[k]))
    {
      for i := 0 to count
        invariant forall k: nat | k < buckets.Length ::
                    buckets[k] == (if lo <= k < lo + i then Add(old(buckets[k]), other.buckets[k]) else old(buckets[k]))
      {
        buckets[lo + i] := Add(buckets[lo + i], other.buckets[lo + i]);
      }
    }
  }

  lemma RowEnds(i: nat, first: nat, cols: nat, bkts: nat)
    requires i < cols
    ensures (i + first) * bkts + bkts <= (first + cols) * bkts
    ensures (i + 1 + first) * bkts == (i + first) * bkts + bkts
  {
    MulMono(i + first + 1, first + cols, bkts);
  }

  lemma RangeWidth(p: Params, start: nat, n: nat)
    requires start + n <= p.numSamples
    ensures p.Start(start) + n * p.cols * p.bkts == p.Start(start + n) <= p.Last()
  {
    assert (start + n) * p.cols == start * p.cols + n * p.cols;
    assert (start * p.cols + n * p.cols) * p.bkts == start * p.cols * p.bkts + n * p.cols * p.bkts;
    StartMono(p, start + n, p.numSamples);
  }
}
