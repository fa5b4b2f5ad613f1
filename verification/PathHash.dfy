/** The inode hash of NodeFS: a loop over UTF-16 code units on wrapping 32-bit integers. */
module PathHash {
  import opened Numbers

  function Pow31(k: nat): (r: nat)
    ensures r >= 1
  {
    if k == 0 then 1 else 31 * Pow31(k - 1)
  }

  /** The sum of s[i] * 31^(|s|-1-i), over unbounded integers. */
  function WeightedSum(s: Text): int {
    if s == [] then 0 else s[0] * Pow31(|s| - 1) + WeightedSum(s[1..])
  }

  /** The accumulator before `Math.abs`. */
  function Acc(s: Text): I32 { ToInt32(WeightedSum(s)) }

  /** The inode number of a path. */
  function InodeOf(s: Text): nat { Abs(Acc(s)) }

  /** What one round of the loop computes, as the code writes it. */
  function Round(h: I32, c: CodeUnit): I32 { AndSelf(ShiftLeft5(h) - h + c) }

  lemma {:induction false} ConcatenationLaw(a: Text, b: Text)
    ensures WeightedSum(a + b) == WeightedSum(a) * Pow31(|b|) + WeightedSum(b)
  {
    if a == [] {
      assert a + b == b;
    } else {
      assert (a + b)[1..] == a[1..] + b;
      ConcatenationLaw(a[1..], b);
      PowerOfSum(|a| - 1, |b|);
      Distribute(a[0], Pow31(|a| - 1), Pow31(|b|), WeightedSum(a[1..]));
    }
  }

  lemma Distribute(x: int, p: int, q: int, w: int)
    ensures x * (p * q) + w * q == (x * p + w) * q
  {
  }

  lemma {:induction false} PowerOfSum(j: nat, k: nat)
    ensures Pow31(j + k) == Pow31(j) * Pow31(k)
  {
    if j > 0 {
      PowerOfSum(j - 1, k);
    }
  }

  /** Only the residue of the parent's accumulator matters for a child path. */
  lemma AccOfConcatenation(a: Text, b: Text)
    ensures Acc(a + b) == ToInt32(Acc(a) * Pow31(|b|) + Acc(b))
  {
    ConcatenationLaw(a, b);
    SameAffine(Acc(a), WeightedSum(a), Pow31(|b|), Acc(b), WeightedSum(b), WeightedSum(a + b));
  }

  lemma SameAffine(x: I32, w: int, p: int, y: I32, v: int, t: int)
    requires x == ToInt32(w) && y == ToInt32(v) && t == w * p + v
    ensures ToInt32(t) == ToInt32(x * p + y)
  {
    var j := Wraps(w);
    var k := Wraps(v);
    var m := Wraps(x * p + y);
    Shift(x, j, p);
    WrapsTo(t, ToInt32(x * p + y), j * p + k + m);
  }

  lemma Shift(x: int, j: int, p: int)
    ensures (x + j * 0x1_0000_0000) * p == x * p + (j * p) * 0x1_0000_0000
  {
  }

  lemma SumOfLast(s: Text, c: CodeUnit)
    ensures WeightedSum(s + [c]) == WeightedSum(s) * 31 + c
  {
    ConcatenationLaw(s, [c]);
    assert Pow31(1) == 31 * Pow31(0);
    assert WeightedSum([c]) == c * Pow31(0) + WeightedSum([c][1..]);
  }

  /** The round the loop performs at index i is exact in double arithmetic (every
      intermediate is an integer below 2^53 in size) and extends the accumulator
      by one code unit. */
  lemma RoundIsExact(s: Text, i: nat)
    requires i < |s|
    ensures
      var h := Acc(s[..i]);
      && Abs(ShiftLeft5(h)) < TWO_53
      && Abs(ShiftLeft5(h) - h) < TWO_53
      && Abs(ShiftLeft5(h) - h + s[i]) < TWO_53
      && Round(h, s[i]) == Acc(s[..i + 1])
  {
    var w := WeightedSum(s[..i]);
    assert s[..i + 1] == s[..i] + [s[i]];
    SumOfLast(s[..i], s[i]);
    var k := Wraps(w);
    RoundResidue(Acc(s[..i]), s[i], w * 31 + s[i], 31 * k);
  }

  lemma RoundResidue(h: I32, c: CodeUnit, t: int, k: int)
    requires t == 31 * h + c + k * 0x1_0000_0000
    ensures Round(h, c) == ToInt32(t)
  {
    var j := Wraps(h * 32);
    var m := Wraps(t);
    WrapsTo(ShiftLeft5(h) - h + c, ToInt32(t), m - k - j);
  }

  /** `this.hash`. */
  method Hash(str: Text) returns (inode: nat)
    ensures inode == InodeOf(str)
    ensures 0 <= inode <= 0x8000_0000
  {
    var hash: I32 := 0;
    var i := 0;
    while i < |str|
      invariant 0 <= i <= |str|
      invariant hash == Acc(str[..i])
    {
      RoundIsExact(str, i);
      var c := str[i];
      var wide := ShiftLeft5(hash) - hash + c;
      hash := AndSelf(wide);
      i := i + 1;
    }
    assert str[..i] == str;
    inode := Abs(hash);
  }

  // ---- Separation: 31^k is invertible modulo 2^32 ----

  /** 31 * INVERSE_31 == 23 * 2^32 + 1. */
  const INVERSE_31: int := 3186588639

  lemma {:induction false} CancelPower(d: int, k: nat, m: int) returns (n: int)
    requires d * Pow31(k) == m * 0x1_0000_0000
    ensures d == n * 0x1_0000_0000
    decreases k
  {
    if k == 0 {
      n := m;
    } else {
      Associate(d, Pow31(k - 1));
      var l := CancelPower(d * 31, k - 1, m);
      n := l * INVERSE_31 - 23 * d;
    }
  }

  lemma Associate(d: int, p: int)
    ensures d * (31 * p) == (d * 31) * p
  {
  }

  ghost predicate DifferOnlyAt(a: Text, b: Text, i: nat) {
    && i < |a| == |b|
    && a[i] != b[i]
    && forall j :: 0 <= j < |a| && j != i ==> a[j] == b[j]
  }

  lemma SamePrefix(u: Text, s: Text, t: Text)
    requires |s| == |t|
    ensures WeightedSum(u + s) - WeightedSum(u + t) == WeightedSum(s) - WeightedSum(t)
  {
    ConcatenationLaw(u, s);
    ConcatenationLaw(u, t);
  }

  lemma SameSuffix(x: CodeUnit, y: CodeUnit, v: Text)
    ensures WeightedSum([x] + v) - WeightedSum([y] + v) == (x - y) * Pow31(|v|)
  {
    assert ([x] + v)[1..] == v && ([y] + v)[1..] == v;
    Subtract(x, y, Pow31(|v|));
  }

  lemma Subtract(x: int, y: int, p: int)
    ensures x * p - y * p == (x - y) * p
  {
  }

  lemma SumDifference(a: Text, b: Text, i: nat)
    requires DifferOnlyAt(a, b, i)
    ensures WeightedSum(a) - WeightedSum(b) == (a[i] - b[i]) * Pow31(|a| - 1 - i)
  {
    var u, v := a[..i], a[i + 1..];
    assert a == u + ([a[i]] + v) && b == u + ([b[i]] + v);
    SamePrefix(u, [a[i]] + v, [b[i]] + v);
    SameSuffix(a[i], b[i], v);
  }

  /** Strings of one length that differ in exactly one code unit have different
      accumulators; their inodes are equal exactly when the accumulators are opposite. */
  lemma HashSeparation(a: Text, b: Text, i: nat)
    requires DifferOnlyAt(a, b, i)
    ensures Acc(a) != Acc(b)
    ensures InodeOf(a) == InodeOf(b) <==> Acc(a) + Acc(b) == 0
  {
    SumDifference(a, b, i);
    SeparatedSums(a[i], b[i], |a| - 1 - i, WeightedSum(a), WeightedSum(b));
  }

  lemma SeparatedSums(x: CodeUnit, y: CodeUnit, k: nat, v: int, w: int)
    requires x != y && v - w == (x - y) * Pow31(k)
    ensures ToInt32(v) != ToInt32(w)
  {
    if ToInt32(v) == ToInt32(w) {
      var i := Wraps(v);
      var j := Wraps(w);
      var n := CancelPower(x - y, k, i - j);
      assert false;
    }
  }

  // ---- Collisions exist ----

  /** "/tmp/qwsdxca" and "/tmp/qwsdxcq" differ in the last code unit only and
      share inode 8 by sign; "/tmp/Aa" and "/tmp/BB" share an accumulator. */
  const PATH_MINUS_8: Text := [47, 116, 109, 112, 47, 113, 119, 115, 100, 120, 99, 97]
  const PATH_PLUS_8: Text := [47, 116, 109, 112, 47, 113, 119, 115, 100, 120, 99, 113]
  const PATH_AA: Text := [47, 116, 109, 112, 47, 65, 97]
  const PATH_BB: Text := [47, 116, 109, 112, 47, 66, 66]

  lemma SignCollision()
    ensures DifferOnlyAt(PATH_MINUS_8, PATH_PLUS_8, 11)
    ensures Acc(PATH_MINUS_8) == -8 && Acc(PATH_PLUS_8) == 8
    ensures InodeOf(PATH_MINUS_8) == InodeOf(PATH_PLUS_8)
  {
    AccOfMinus8();
    SumDifference(PATH_PLUS_8, PATH_MINUS_8, 11);
    var k := Wraps(WeightedSum(PATH_MINUS_8));
    WrapsTo(WeightedSum(PATH_PLUS_8), 8, k);
  }

  lemma NextAcc(s: Text, i: nat, h: I32, next: I32, k: int)
    requires i < |s| && h == Acc(s[..i])
    requires next == 31 * h + s[i] + k * 0x1_0000_0000
    ensures next == Acc(s[..i + 1])
  {
    RoundIsExact(s, i);
    RoundResidue(h, s[i], next, k);
    WrapsTo(next, next, 0);
  }

  lemma AccOfTmp()
    ensures Acc(PATH_MINUS_8[..5]) == 46969511
  {
    assert PATH_MINUS_8[..0] == [];
    NextAcc(PATH_MINUS_8, 0, 0, 47, 0);
    NextAcc(PATH_MINUS_8, 1, 47, 1573, 0);
    NextAcc(PATH_MINUS_8, 2, 1573, 48872, 0);
    NextAcc(PATH_MINUS_8, 3, 48872, 1515144, 0);
    NextAcc(PATH_MINUS_8, 4, 1515144, 46969511, 0);
  }

  lemma AccOfMinus8()
    ensures Acc(PATH_MINUS_8) == -8
  {
    AccOfTmp();
    NextAcc(PATH_MINUS_8, 5, 46969511, 1456054954, 0);
    NextAcc(PATH_MINUS_8, 6, 1456054954, -2106936563, -11);
    NextAcc(PATH_MINUS_8, 7, -2106936563, -890523898, 15);
    NextAcc(PATH_MINUS_8, 8, -890523898, -1836436962, 6);
    NextAcc(PATH_MINUS_8, 9, -1836436962, -1094970854, 13);
    NextAcc(PATH_MINUS_8, 10, -1094970854, 415641993, 8);
    NextAcc(PATH_MINUS_8, 11, 415641993, -8, -3);
    assert PATH_MINUS_8[..12] == PATH_MINUS_8;
  }

  lemma AccumulatorCollision()
    ensures PATH_AA != PATH_BB && Acc(PATH_AA) == Acc(PATH_BB)
  {
    var u := PATH_AA[..5];
    assert PATH_AA == u + [65, 97] && PATH_BB == u + [66, 66];
    SamePrefix(u, [65, 97], [66, 66]);
    SumOfTwo(65, 97);
    SumOfTwo(66, 66);
  }

  lemma SumOfTwo(x: CodeUnit, y: CodeUnit)
    ensures WeightedSum([x, y]) == 31 * x + y
  {
    assert [x, y] == [x] + [y] && [x] == [] + [x];
    SumOfLast([], x);
    SumOfLast([x], y);
  }
}
