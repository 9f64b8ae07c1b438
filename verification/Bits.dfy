/** Powers of two, alignment and the bitwise operators the allocators use on page indices. */
module Bits {

  /** `1 << k` on unbounded integers. */
  function Pow2(k: nat): (r: nat)
    ensures r >= 1
  {
    if k == 0 then 1 else 2 * Pow2(k - 1)
  }

  /** The low `k` bits of `p` are zero. */
  predicate Aligned(p: nat, k: nat) {
    k == 0 || (p % 2 == 0 && Aligned(p / 2, k - 1))
  }

  /** `q & ~((1 << k) - 1)`: the start of the order-`k` block that holds `q`. */
  function Floor(q: nat, k: nat): nat {
    if k == 0 then q else 2 * Floor(q / 2, k - 1)
  }

  /** The C operator `^`, bit by bit. */
  function Xor(a: nat, b: nat): nat
    decreases a + b
  {
    if a == 0 && b == 0 then 0 else (a % 2 + b % 2) % 2 + 2 * Xor(a / 2, b / 2)
  }

  /** The C operator `&`, bit by bit. */
  function And(a: nat, b: nat): nat
    decreases a + b
  {
    if a == 0 && b == 0 then 0
    else (if a % 2 == 1 && b % 2 == 1 then 1 else 0) + 2 * And(a / 2, b / 2)
  }

  /** Alignment is divisibility by the power of two. */
  lemma {:induction false} AlignedIsDivisible(p: nat, k: nat)
    ensures Aligned(p, k) <==> p % Pow2(k) == 0
  {
    if k == 0 {
    } else {
      AlignedIsDivisible(p / 2, k - 1);
      HalfDivides(p, Pow2(k - 1));
    }
  }

  lemma HalfDivides(p: nat, m: nat)
    requires m >= 1
    ensures p % (2 * m) == 0 <==> p % 2 == 0 && (p / 2) % m == 0
  {
    if p % (2 * m) == 0 {
      var t := p / (2 * m);
      assert p == 2 * (m * t);
      assert p / 2 == m * t;
      MultipleHasNoRemainder(m, t);
    }
    if p % 2 == 0 && (p / 2) % m == 0 {
      var t := p / 2 / m;
      assert p / 2 == m * t;
      assert p == (2 * m) * t;
      MultipleHasNoRemainder(2 * m, t);
    }
  }

  lemma {:induction false} MultipleHasNoRemainder(m: nat, t: nat)
    requires m >= 1
    ensures m * t % m == 0
  {
    if t == 0 {
    } else {
      MultipleHasNoRemainder(m, t - 1);
      assert m * t == m * (t - 1) + m;
      AddingTheModulus(m * (t - 1), m);
    }
  }

  lemma AddingTheModulus(x: nat, m: nat)
    requires m >= 1
    ensures (x + m) % m == x % m
  {
    var q, r := x / m, x % m;
    assert x + m == m * (q + 1) + r;
    QuotientIsUnique(x + m, m, q + 1, r);
  }

  lemma QuotientIsUnique(x: nat, m: nat, q: nat, r: nat)
    requires m >= 1 && x == m * q + r && r < m
    ensures x / m == q && x % m == r
  {
    var q', r' := x / m, x % m;
    assert x == m * q' + r';
    assert q' > q ==> m * q' >= m * (q + 1);
    assert q' < q ==> m * q >= m * (q' + 1);
  }

  lemma {:induction false} AlignedDown(p: nat, j: nat, k: nat)
    requires j <= k && Aligned(p, k)
    ensures Aligned(p, j)
  {
    if j == 0 {
    } else {
      AlignedDown(p / 2, j - 1, k - 1);
    }
  }

  lemma {:induction false} Pow2Monotone(j: nat, k: nat)
    requires j <= k
    ensures Pow2(j) <= Pow2(k)
    ensures j < k ==> 2 * Pow2(j) <= Pow2(k)
  {
    if j == k {
    } else {
      Pow2Monotone(j, k - 1);
    }
  }

  /** Two aligned blocks are nested or disjoint. */
  lemma {:induction false} Nested(p: nat, j: nat, q: nat, k: nat)
    requires j <= k && Aligned(p, j) && Aligned(q, k)
    ensures (q <= p && p + Pow2(j) <= q + Pow2(k)) || p + Pow2(j) <= q || q + Pow2(k) <= p
  {
    if j == 0 {
    } else {
      Nested(p / 2, j - 1, q / 2, k - 1);
    }
  }

  lemma {:induction false} FloorProperties(q: nat, k: nat)
    ensures Aligned(Floor(q, k), k)
    ensures Floor(q, k) <= q < Floor(q, k) + Pow2(k)
  {
    if k == 0 {
    } else {
      FloorProperties(q / 2, k - 1);
    }
  }

  lemma {:induction false} XorZero(a: nat)
    ensures Xor(a, 0) == a
  {
    if a == 0 {
    } else {
      XorZero(a / 2);
    }
  }

  lemma {:induction false} AndSelf(a: nat)
    ensures And(a, a) == a
  {
    if a == 0 {
    } else {
      AndSelf(a / 2);
    }
  }

  lemma XorHalves(p: nat, k: nat)
    requires k > 0 && p % 2 == 0
    ensures Xor(p, Pow2(k)) == 2 * Xor(p / 2, Pow2(k - 1))
  {
    assert Pow2(k) / 2 == Pow2(k - 1) && Pow2(k) % 2 == 0;
  }

  lemma AndHalves(a: nat, b: nat)
    ensures And(2 * a, 2 * b) == 2 * And(a, b)
  {
    assert 2 * a / 2 == a && 2 * b / 2 == b;
  }

  /** For an aligned index the buddy computed with `^` is the other half of the
      enclosing block of twice the size. */
  lemma {:induction false} BuddyIsOtherHalf(p: nat, k: nat)
    requires Aligned(p, k)
    ensures !Aligned(p, k + 1) ==> p >= Pow2(k)
    ensures Xor(p, Pow2(k)) == if Aligned(p, k + 1) then p + Pow2(k) else p - Pow2(k)
  {
    if k == 0 {
      XorZero(p / 2);
    } else {
      BuddyIsOtherHalf(p / 2, k - 1);
      XorHalves(p, k);
      assert Aligned(p, k + 1) == Aligned(p / 2, k);
    }
  }

  /** ... and `&` with it yields that block's start. */
  lemma {:induction false} AndIsCommonBase(p: nat, k: nat)
    requires Aligned(p, k + 1)
    ensures And(p, p + Pow2(k)) == And(p + Pow2(k), p) == p
  {
    if k == 0 {
      AndSelf(p / 2);
      assert (p + 1) / 2 == p / 2;
    } else {
      AndIsCommonBase(p / 2, k - 1);
      AndHalves(p / 2, p / 2 + Pow2(k - 1));
      AndHalves(p / 2 + Pow2(k - 1), p / 2);
    }
  }

  lemma XorStep(p: nat, k: nat)
    requires k > 0
    ensures Xor(p, Pow2(k)) == p % 2 + 2 * Xor(p / 2, Pow2(k - 1))
  {
    assert Pow2(k) / 2 == Pow2(k - 1) && Pow2(k) % 2 == 0;
  }

  lemma AndStep(x: nat, a: nat, b: nat)
    requires x <= 1
    ensures And(x + 2 * a, x + 2 * b) == x + 2 * And(a, b)
  {
    assert (x + 2 * a) / 2 == a && (x + 2 * b) / 2 == b;
  }

  lemma LowBuddies(p: nat)
    ensures And(p, Xor(p, 1)) == p || And(p, Xor(p, 1)) == Xor(p, 1)
  {
    XorZero(p / 2);
    AndSelf(p / 2);
  }

  /** AND of an index with its buddy is one of the two, whatever the alignment. */
  lemma {:induction false} AndOfBuddies(p: nat, k: nat)
    ensures And(p, Xor(p, Pow2(k))) == p || And(p, Xor(p, Pow2(k))) == Xor(p, Pow2(k))
  {
    hide And, Xor;
    if k == 0 {
      LowBuddies(p);
    } else {
      XorStep(p, k);
      AndStep(p % 2, p / 2, Xor(p / 2, Pow2(k - 1)));
      AndOfBuddies(p / 2, k - 1);
    }
  }

  lemma {:induction false} AlignedStep(p: nat, k: nat)
    requires Aligned(p, k + 1)
    ensures Aligned(p, k) && Aligned(p + Pow2(k), k) && !Aligned(p + Pow2(k), k + 1)
  {
    if k == 0 {
    } else {
      AlignedStep(p / 2, k - 1);
      assert (p + Pow2(k)) / 2 == p / 2 + Pow2(k - 1);
    }
  }

  lemma {:induction false} AlignedBelow(p: nat, k: nat)
    requires Aligned(p, k) && !Aligned(p, k + 1)
    ensures p >= Pow2(k) && Aligned(p - Pow2(k), k + 1)
  {
    if k == 0 {
    } else {
      AlignedBelow(p / 2, k - 1);
      assert (p - Pow2(k)) / 2 == p / 2 - Pow2(k - 1);
    }
  }

  /** The start of the block of twice the size around an order-`k` block. */
  function Parent(p: nat, k: nat): nat {
    if Aligned(p, k + 1) || p < Pow2(k) then p else p - Pow2(k)
  }

  /** What `^` and `&` compute in the merge loop, in arithmetic terms. */
  lemma BuddyArithmetic(p: nat, k: nat)
    requires Aligned(p, k)
    ensures Aligned(Parent(p, k), k + 1)
    ensures p == Parent(p, k) ==> Xor(p, Pow2(k)) == p + Pow2(k)
    ensures p != Parent(p, k) ==> p == Parent(p, k) + Pow2(k) && Xor(p, Pow2(k)) == p - Pow2(k)
    ensures And(p, Xor(p, Pow2(k))) == Parent(p, k)
    ensures Aligned(Xor(p, Pow2(k)), k)
  {
    BuddyIsOtherHalf(p, k);
    if Aligned(p, k + 1) {
      AndIsCommonBase(p, k);
      AlignedStep(p, k);
    } else {
      AlignedBelow(p, k);
      AndIsCommonBase(p - Pow2(k), k);
      AlignedDown(p - Pow2(k), k, k + 1);
    }
  }

  // ----- masks

  function Shl(b: nat, n: nat): nat { if n == 0 then b else 2 * Shl(b, n - 1) }

  function Shr(a: nat, n: nat): nat { if n == 0 then a else Shr(a / 2, n - 1) }

  lemma {:induction false} AndShift(a: nat, b: nat, n: nat)
    ensures And(a, Shl(b, n)) == Shl(And(Shr(a, n), b), n)
  {
    if n == 0 {
    } else {
      assert And(a, 2 * Shl(b, n - 1)) == 2 * And(a / 2, Shl(b, n - 1));
      AndShift(a / 2, b, n - 1);
    }
  }

  lemma {:induction false} ShrDivides(a: nat, n: nat)
    ensures Shr(a, n) == a / Pow2(n)
  {
    if n == 0 {
    } else {
      ShrDivides(a / 2, n - 1);
      HalfThenDivide(a, Pow2(n - 1));
    }
  }

  lemma HalfThenDivide(a: nat, m: nat)
    requires m > 0
    ensures a / 2 / m == a / (2 * m)
  {
    var q := a / 2 / m;
    var r := a / 2 % m;
    assert a / 2 == m * q + r;
    assert a == (2 * m) * q + (2 * r + a % 2);
    QuotientIsUnique(a, 2 * m, q, 2 * r + a % 2);
  }

  lemma {:induction false} AndAllOnes(a: nat, n: nat)
    requires a < Pow2(n)
    ensures And(a, Pow2(n) - 1) == a
  {
    if n == 0 {
    } else {
      assert (Pow2(n) - 1) / 2 == Pow2(n - 1) - 1 && (Pow2(n) - 1) % 2 == 1;
      AndAllOnes(a / 2, n - 1);
    }
  }

  lemma {:induction false} ShlMultiplies(x: nat, n: nat)
    ensures Shl(x, n) == x * Pow2(n)
  {
    if n == 0 {
    } else {
      ShlMultiplies(x, n - 1);
    }
  }

  lemma {:induction false} Pow2Sum(j: nat, k: nat)
    ensures Pow2(j + k) == Pow2(j) * Pow2(k)
  {
    if j == 0 {
    } else {
      Pow2Sum(j - 1, k);
    }
  }

  lemma MaskIsShift(k: nat)
    requires k <= 32
    ensures Pow2(k) <= Pow2(32) == Pow2(32 - k) * Pow2(k) && Shl(Pow2(32 - k) - 1, k) == Pow2(32) - Pow2(k)
  {
    hide Shl, Pow2;
    Pow2Monotone(k, 32);
    Pow2Sum(32 - k, k);
    ShlMultiplies(Pow2(32 - k) - 1, k);
    var m, p := Pow2(32 - k), Pow2(k);
    assert (m - 1) * p == m * p - p;
  }

  /** Masking off the low `k` of 32 bits rounds down to a multiple of the power of two. */
  lemma HighBits(a: nat, k: nat)
    requires a < Pow2(32) && k <= 32
    ensures Pow2(k) <= Pow2(32) && And(a, Pow2(32) - Pow2(k)) == a / Pow2(k) * Pow2(k)
  {
    hide And, Shl, Shr, Pow2;
    MaskIsShift(k);
    AndShift(a, Pow2(32 - k) - 1, k);
    ShrDivides(a, k);
    QuotientBelow(a, Pow2(k), Pow2(32 - k));
    AndAllOnes(a / Pow2(k), 32 - k);
    ShlMultiplies(a / Pow2(k), k);
  }

  lemma QuotientBelow(a: nat, m: nat, n: nat)
    requires m > 0 && a < n * m
    ensures a / m < n
  {
    var q := a / m;
    assert a == m * q + a % m;
    assert q >= n ==> q * m >= n * m;
  }
}
