// For any number of threads from two on, a place for every vertex of the ring: where the
// labelling phase races, and in whose share of round 0 (src/cc_sketch_alg.cpp).

module RingSeats {
  import opened Counting
  import opened DsuFindRace
  import opened Partition
  import opened Jobs
  import opened Pairing
  import opened Rings
  import opened RingStart
  import opened RingLabels
  import opened SplitLabels
  import Z = RoundZero

  predicate Ascending(r: seq<nat>) {
    forall i: nat, k: nat | i < k < |r| :: r[i] < r[k]
  }

  /** k vertices from lo on that are not in use, in ascending order. */
  lemma {:induction false} Spare(n: nat, used: set<nat>, lo: nat, k: nat) returns (r: seq<nat>)
    requires lo <= n && |Range(lo, n) - used| >= k
    ensures |r| == k && Ascending(r) && forall i: nat | i < k :: lo <= r[i] < n && r[i] !in used
    decreases n - lo
  {
    SpareCard(n, used, lo);
    if k == 0 {
      r := [];
    } else if lo in used {
      r := Spare(n, used, lo + 1, k);
    } else {
      r := Spare(n, used, lo + 1, k - 1);
      r := [lo] + r;
    }
  }

  lemma SpareCard(n: nat, used: set<nat>, lo: nat)
    requires lo <= n
    ensures lo == n ==> |Range(lo, n) - used| == 0
    ensures lo < n ==> |Range(lo, n) - used| == |Range(lo + 1, n) - used| + if lo in used then 0 else 1
  {
    if lo < n {
      assert Range(lo, n) - used == (if lo in used then {} else {lo}) + (Range(lo + 1, n) - used);
    } else {
      assert Range(lo, n) - used == {};
    }
  }

  lemma SpareOf(n: nat, used: set<nat>, k: nat) returns (r: seq<nat>)
    requires |used| + k <= n
    ensures |r| == k && Ascending(r) && forall i: nat | i < k :: r[i] < n && r[i] !in used
  {
    RangeCard(0, n);
    MinusCard(Range(0, n), used);
    r := Spare(n, used, 0, k);
  }

  lemma MinusCard(a: set<nat>, b: set<nat>)
    ensures |a - b| >= |a| - |b|
  {
    SubsetCard(a, (a - b) + b);
    assert |(a - b) + b| == |a - b| + |b|;
  }

  /** The ring whose vertices take their turns in the order of the line. */
  function InTurn(n: nat, line: seq<nat>): (c: Ring)
    requires |line| == 8 || |line| == 12
    ensures c.n == n && |c.at| == |line|
  {
    Ring(n, seq(|line|, i requires 0 <= i < |line| => line[Time(|line|, i)]))
  }

  /** Of one thread's vertices, those further down the line have the higher numbers. */
  predicate Shared(line: seq<nat>, owner: seq<nat>) {
    && (forall j: nat | j < |line| :: line[j] < |owner|)
    && forall j: nat, k: nat | j < k < |line| && owner[line[j]] == owner[line[k]] :: line[j] < line[k]
  }

  lemma InTurnValid(n: nat, line: seq<nat>, owner: seq<nat>)
    requires (|line| == 8 || |line| == 12) && Distinct(line) && |owner| == n <= NODE_LIMIT && Shared(line, owner)
    ensures InTurn(n, line).Valid() && Consistent(InTurn(n, line), owner)
  {
    var c := InTurn(n, line);
    forall i: nat, k: nat | i < |c.at| && k < |c.at| && c.at[i] == c.at[k]
      ensures i == k
    {
      TimesDiffer(|line|, i, k);
    }
  }

  /** The divisions of round 0: thread 1 gets q and s, thread t gets p, thread 0 all the rest. */
  function Owners(n: nat, q: nat, s: nat, p: nat, t: nat): (owner: seq<nat>)
    ensures |owner| == n
  {
    seq(n, x => if x == q || x == s then 1 else if x == p then t else 0)
  }

  // Twelve

  function Line12(p: nat, q: nat, s: nat, r: seq<nat>): seq<nat>
    requires |r| == 8
  {
    [0, p, r[0], r[1], q, s, r[2], r[3], r[4], r[5], r[6], r[7]]
  }

  /** Four different vertices, and eight others in ascending order. */
  predicate Spread(n: nat, p: nat, q: nat, s: nat, r: seq<nat>) {
    && 0 < p < n && 0 < q < s < n && p != q && p != s && |r| == 8 && Ascending(r)
    && forall i: nat | i < 8 :: r[i] < n && r[i] != 0 && r[i] != p && r[i] != q && r[i] != s
  }

  /** The place of the j-th vertex of the line among the spare ones. */
  function SpareIx(j: nat): nat
    requires 2 <= j < 12 && j != 4 && j != 5
  {
    if j < 4 then j - 2 else j - 4
  }

  lemma LineSpare(p: nat, q: nat, s: nat, r: seq<nat>, j: nat)
    requires |r| == 8 && 2 <= j < 12 && j != 4 && j != 5
    ensures Line12(p, q, s, r)[j] == r[SpareIx(j)]
  {
    assert j == 2 || j == 3 || j == 6 || j == 7 || j == 8 || j == 9 || j == 10 || j == 11;
  }

  lemma LineDistinct(n: nat, p: nat, q: nat, s: nat, r: seq<nat>, j: nat, k: nat)
    requires Spread(n, p, q, s, r) && j < k < 12
    ensures Line12(p, q, s, r)[j] != Line12(p, q, s, r)[k]
  {
    if 2 <= j && j != 4 && j != 5 {
      LineSpare(p, q, s, r, j);
    }
    if 2 <= k && k != 4 && k != 5 {
      LineSpare(p, q, s, r, k);
    }
  }

  lemma LineShared(n: nat, p: nat, q: nat, s: nat, r: seq<nat>, t: nat, j: nat, k: nat)
    requires Spread(n, p, q, s, r) && j < k < 12 && (t == 2 || (t == 0 && p == 1))
    requires Line12(p, q, s, r)[j] < n && Line12(p, q, s, r)[k] < n
    requires Owners(n, q, s, p, t)[Line12(p, q, s, r)[j]] == Owners(n, q, s, p, t)[Line12(p, q, s, r)[k]]
    ensures Line12(p, q, s, r)[j] < Line12(p, q, s, r)[k]
  {
    if 2 <= j && j != 4 && j != 5 {
      LineSpare(p, q, s, r, j);
    }
    if 2 <= k && k != 4 && k != 5 {
      LineSpare(p, q, s, r, k);
    }
  }

  lemma Line12Fits(n: nat, p: nat, q: nat, s: nat, r: seq<nat>, t: nat)
    requires Spread(n, p, q, s, r) && (t == 2 || (t == 0 && p == 1))
    ensures Distinct(Line12(p, q, s, r)) && Shared(Line12(p, q, s, r), Owners(n, q, s, p, t))
  {
    var line := Line12(p, q, s, r);
    forall j: nat | j < 12
      ensures line[j] < n
    {
      if 2 <= j && j != 4 && j != 5 {
        LineSpare(p, q, s, r, j);
      }
    }
    forall j: nat, k: nat | j < 12 && k < 12 && line[j] == line[k]
      ensures j == k
    {
      if j < k {
        LineDistinct(n, p, q, s, r, j, k);
      } else if k < j {
        LineDistinct(n, p, q, s, r, k, j);
      }
    }
    forall j: nat, k: nat | j < k < 12 && Owners(n, q, s, p, t)[line[j]] == Owners(n, q, s, p, t)[line[k]]
      ensures line[j] < line[k]
    {
      LineShared(n, p, q, s, r, t, j, k);
    }
  }

  /** The second race's positions: at threads 2 and 3, or right behind the first race. */
  function SecondLow(n: nat, threads: nat): nat
    requires threads > 0
  {
    if threads >= 4 then Start(n, 2, threads) else 1
  }

  function SecondHigh(n: nat, threads: nat): nat
    requires threads > 0
  {
    if threads >= 4 then Start(n, 3, threads) else Start(n, 1, threads) + 1
  }

  lemma RoomForTwo(n: nat, threads: nat)
    requires n >= 12 && (threads == 2 || threads == 3)
    ensures 2 <= Start(n, 1, threads) && Start(n, 1, threads) + 2 <= Start(n, 2, threads) <= n
  {
    Inside(n, threads, 2);
    CeilLeq(n * 1, threads, 1);
    CeilLeq(n * 2, threads, Start(n, 1, threads) + 1);
    CeilLeq(n * 1, threads, Start(n, 1, threads) - 1);
  }

  lemma SecondFits(n: nat, threads: nat)
    requires 12 <= n && 2 <= threads <= n
    ensures var p, q, s := SecondLow(n, threads), Start(n, 1, threads), SecondHigh(n, threads);
      0 < p < n && 0 < q < s < n && p != q && p != s
    ensures exists w: nat :: Seats(FirstJob(n, threads), w, SecondLow(n, threads), SecondHigh(n, threads))
  {
    var j := FirstJob(n, threads);
    PartitionsTile(n, threads, 0);
    PartitionsTile(n, threads, 1);
    if threads >= 4 {
      PartitionsTile(n, threads, 2);
      PartitionsTile(n, threads, 3);
      assert Seats(j, 2, SecondLow(n, threads), SecondHigh(n, threads));
    } else {
      RoomForTwo(n, threads);
      assert Seats(j, 0, SecondLow(n, threads), SecondHigh(n, threads));
    }
  }

  lemma FourUsed(p: nat, q: nat, s: nat)
    ensures |{0, p, q, s}| <= 4
  {
    SubsetCard({0, p, q, s}, {0, p} + {q, s});
    assert |{0, p} + {q, s}| <= |{0, p}| + |{q, s}|;
  }

  /** A ring of twelve for any number of threads. */
  lemma Seat12(n: nat, threads: nat) returns (c: Ring, owner: seq<nat>)
    requires 12 <= n <= NODE_LIMIT && 2 <= threads <= n
    ensures c.n == n && |c.at| == 12 && Seated(c, threads) && Z.Shares(owner, n, threads) && Consistent(c, owner)
  {
    var p, q, s := SecondLow(n, threads), Start(n, 1, threads), SecondHigh(n, threads);
    var t := if threads >= 4 then 2 else 0;
    SecondFits(n, threads);
    FourUsed(p, q, s);
    var r := SpareOf(n, {0, p, q, s}, 8);
    owner := Owners(n, q, s, p, t);
    Line12Fits(n, p, q, s, r, t);
    c := InTurn(n, Line12(p, q, s, r));
    InTurnValid(n, Line12(p, q, s, r), owner);
    Seats12(c, threads, p, q, s, r);
  }

  lemma Seats12(c: Ring, threads: nat, p: nat, q: nat, s: nat, r: seq<nat>)
    requires |r| == 8 && c == InTurn(c.n, Line12(p, q, s, r)) && c.Valid() && 2 <= threads <= c.n && q == Start(c.n, 1, threads)
    requires exists w: nat :: Seats(FirstJob(c.n, threads), w, p, s)
    ensures Seated(c, threads)
  {
    assert c.at[0] == Line12(p, q, s, r)[0] && c.at[2] == Line12(p, q, s, r)[4];
    assert c.at[11] == Line12(p, q, s, r)[1] && c.at[9] == Line12(p, q, s, r)[5];
  }

  // Eight

  function Line8(q: nat, r: seq<nat>): seq<nat>
    requires |r| == 6
  {
    [0, r[0], q] + r[1..]
  }

  lemma Line8Fits(n: nat, q: nat, r: seq<nat>)
    requires 0 < q < n && |r| == 6 && Ascending(r) && forall i: nat | i < 6 :: r[i] < n && r[i] != 0 && r[i] != q
    ensures |Line8(q, r)| == 8 && Distinct(Line8(q, r)) && Shared(Line8(q, r), Owners(n, q, q, q, 1))
  {
    var line := Line8(q, r);
    forall j: nat | 3 <= j < 8
      ensures line[j] == r[j - 2]
    {
    }
  }

  /** A ring of eight for any number of threads. */
  lemma Seat8(n: nat, threads: nat) returns (c: Ring, owner: seq<nat>)
    requires 8 <= n <= NODE_LIMIT && 2 <= threads <= n
    ensures c.n == n && |c.at| == 8 && Seated(c, threads) && Z.Shares(owner, n, threads) && Consistent(c, owner)
  {
    var q := Start(n, 1, threads);
    PartitionsTile(n, threads, 0);
    PartitionsTile(n, threads, 1);
    assert |{0, q}| <= 2;
    var r := SpareOf(n, {0, q}, 6);
    owner := Owners(n, q, q, q, 1);
    Line8Fits(n, q, r);
    c := InTurn(n, Line8(q, r));
    InTurnValid(n, Line8(q, r), owner);
  }
}
