// Unsigned machine words and the XOR algebra of sketch buckets
// (include/bucket.h, src/sketch.cpp).

module Words {

  /** Bitwise exclusive or of two unsigned words. */
  function Xor(a: nat, b: nat): nat
    decreases a + b
  {
    if a == 0 && b == 0 then 0 else 2 * Xor(a / 2, b / 2) + (a + b) % 2
  }

  function Pow2(k: nat): (p: nat)
    ensures p > 0
  {
    if k == 0 then 1 else 2 * Pow2(k - 1)
  }

  lemma {:induction false} Pow2Mono(a: nat, b: nat)
    requires a <= b
    ensures Pow2(a) <= Pow2(b)
    decreases b
  {
    if a < b {
      Pow2Mono(a, b - 1);
    }
  }

  lemma SmallPowers()
    ensures Pow2(0) == 1 && Pow2(1) == 2 && Pow2(2) == 4 && Pow2(3) == 8 && Pow2(4) == 16 && Pow2(5) == 32 && Pow2(6) == 64
  {
    assert Pow2(2) == 2 * Pow2(1);
    assert Pow2(4) == 2 * Pow2(3);
    assert Pow2(6) == 2 * Pow2(5);
  }

  lemma {:induction false} XorComm(a: nat, b: nat)
    ensures Xor(a, b) == Xor(b, a)
    decreases a + b
  {
    if a != 0 || b != 0 {
      XorComm(a / 2, b / 2);
    }
  }

  lemma {:induction false} XorZero(a: nat)
    ensures Xor(a, 0) == a && Xor(0, a) == a
  {
    if a != 0 {
      XorZero(a / 2);
    }
  }

  lemma {:induction false} XorSelf(a: nat)
    ensures Xor(a, a) == 0
  {
    if a != 0 {
      XorSelf(a / 2);
    }
  }

  // The halves and the low bit of a XOR, which is all an induction needs.
  lemma XorUnfold(a: nat, b: nat)
    ensures Xor(a, b) / 2 == Xor(a / 2, b / 2)
    ensures Xor(a, b) % 2 == (a + b) % 2
  {
  }

  lemma Parity(x: nat, y: nat, z: nat, w: nat)
    requires x % 2 == (y + z) % 2
    ensures (x + w) % 2 == (y + z + w) % 2
  {
  }

  lemma LeftHalf(a: nat, b: nat, c: nat)
    ensures Xor(Xor(a, b), c) / 2 == Xor(Xor(a / 2, b / 2), c / 2)
    ensures Xor(Xor(a, b), c) % 2 == (a + b + c) % 2
  {
    var ab := Xor(a, b);
    XorUnfold(a, b);
    XorUnfold(ab, c);
    Parity(ab, a, b, c);
  }

  lemma RightHalf(a: nat, b: nat, c: nat)
    ensures Xor(a, Xor(b, c)) / 2 == Xor(a / 2, Xor(b / 2, c / 2))
    ensures Xor(a, Xor(b, c)) % 2 == (a + b + c) % 2
  {
    var bc := Xor(b, c);
    XorUnfold(b, c);
    XorUnfold(a, bc);
    Parity(bc, b, c, a);
  }

  lemma SameWord(x: nat, y: nat)
    requires x / 2 == y / 2 && x % 2 == y % 2
    ensures x == y
  {
  }

  lemma {:induction false} XorAssoc(a: nat, b: nat, c: nat)
    ensures Xor(Xor(a, b), c) == Xor(a, Xor(b, c))
    decreases a + b + c
  {
    if a + b + c > 0 {
      XorAssoc(a / 2, b / 2, c / 2);
      LeftHalf(a, b, c);
      RightHalf(a, b, c);
      SameWord(Xor(Xor(a, b), c), Xor(a, Xor(b, c)));
    }
  }

  /** XOR never leaves the word width: the result of two k-bit words is a k-bit word. */
  lemma {:induction false} XorFits(a: nat, b: nat, k: nat)
    requires a < Pow2(k) && b < Pow2(k)
    ensures Xor(a, b) < Pow2(k)
    decreases k
  {
    if k != 0 {
      XorFits(a / 2, b / 2, k - 1);
    }
  }
}

module Buckets {
  import opened Words

  /** alpha XORs the vector indices of a bucket, gamma their checksums. */
  datatype Bucket = Bucket(alpha: nat, gamma: nat)

  const ZERO := Bucket(0, 0)

  function Add(b: Bucket, c: Bucket): Bucket {
    Bucket(Xor(b.alpha, c.alpha), Xor(b.gamma, c.gamma))
  }

  lemma AddComm(b: Bucket, c: Bucket)
    ensures Add(b, c) == Add(c, b)
  {
    XorComm(b.alpha, c.alpha);
    XorComm(b.gamma, c.gamma);
  }

  lemma AddAssoc(b: Bucket, c: Bucket, d: Bucket)
    ensures Add(Add(b, c), d) == Add(b, Add(c, d))
  {
    XorAssoc(b.alpha, c.alpha, d.alpha);
    XorAssoc(b.gamma, c.gamma, d.gamma);
  }

  lemma AddZero(b: Bucket)
    ensures Add(b, ZERO) == b && Add(ZERO, b) == b
  {
    XorZero(b.alpha);
    XorZero(b.gamma);
  }

  lemma AddSelf(b: Bucket)
    ensures Add(b, b) == ZERO
  {
    XorSelf(b.alpha);
    XorSelf(b.gamma);
  }

  function SymDiff<T>(a: set<T>, b: set<T>): set<T> {
    (a - b) + (b - a)
  }

  /** The XOR of f over a finite set, in no particular order. */
  ghost function Sum(s: set<nat>, f: nat -> Bucket): Bucket {
    if s == {} then ZERO else
    var x :| x in s;
    Add(f(x), Sum(s - {x}, f))
  }

  /** Any element may be taken out first: the fold does not depend on an order. */
  lemma {:induction false} SumRemove(s: set<nat>, f: nat -> Bucket, y: nat)
    requires y in s
    ensures Sum(s, f) == Add(f(y), Sum(s - {y}, f))
    decreases s
  {
    var x :| x in s && Sum(s, f) == Add(f(x), Sum(s - {x}, f));
    if x != y {
      SumRemove(s - {x}, f, y);
      SumRemove(s - {y}, f, x);
      var rest := Sum(s - {x} - {y}, f);
      assert s - {x} - {y} == s - {y} - {x};
      AddAssoc(f(x), f(y), rest);
      AddComm(f(x), f(y));
      AddAssoc(f(y), f(x), rest);
    }
  }

  lemma SumSingleton(x: nat, f: nat -> Bucket)
    ensures Sum({x}, f) == f(x)
  {
    SumRemove({x}, f, x);
    assert {x} - {x} == {};
    AddZero(f(x));
  }

  lemma {:induction false} SumUnion(a: set<nat>, b: set<nat>, f: nat -> Bucket)
    requires a !! b
    ensures Sum(a + b, f) == Add(Sum(a, f), Sum(b, f))
    decreases a
  {
    if a == {} {
      assert a + b == b;
      AddZero(Sum(b, f));
    } else {
      var x :| x in a;
      SumRemove(a, f, x);
      SumRemove(a + b, f, x);
      assert a + b - {x} == (a - {x}) + b;
      SumUnion(a - {x}, b, f);
      AddAssoc(f(x), Sum(a - {x}, f), Sum(b, f));
    }
  }

  /** XOR of folds is the fold over the symmetric difference. */
  lemma SumSymDiff(a: set<nat>, b: set<nat>, f: nat -> Bucket)
    ensures Sum(SymDiff(a, b), f) == Add(Sum(a, f), Sum(b, f))
  {
    var l, m, r := Sum(a - b, f), Sum(a * b, f), Sum(b - a, f);
    assert a == (a - b) + (a * b);
    assert b == (a * b) + (b - a);
    SumUnion(a - b, a * b, f);
    SumUnion(a * b, b - a, f);
    SumUnion(a - b, b - a, f);
    AddAssoc(Add(l, m), m, r);
    AddAssoc(l, m, m);
    AddSelf(m);
    AddZero(l);
  }

  /** Buckets of k-bit indices and m-bit checksums never leave those widths. */
  predicate Fits(b: Bucket, k: nat, m: nat) {
    b.alpha < Pow2(k) && b.gamma < Pow2(m)
  }

  lemma {:induction false} SumFits(s: set<nat>, f: nat -> Bucket, k: nat, m: nat)
    requires forall x | x in s :: Fits(f(x), k, m)
    ensures Fits(Sum(s, f), k, m)
    decreases s
  {
    if s != {} {
      var x :| x in s;
      SumRemove(s, f, x);
      SumFits(s - {x}, f, k, m);
      var rest := Sum(s - {x}, f);
      XorFits(f(x).alpha, rest.alpha, k);
      XorFits(f(x).gamma, rest.gamma, m);
    }
  }
}
