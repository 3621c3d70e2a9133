// Unsigned numbers as rows of bits, and the C operators on them.
module Binary {
  function Pow2(n: nat): (r: nat)
    ensures 1 <= r
  {
    if n == 0 then 1 else 2 * Pow2(n - 1)
  }

  // v >> n
  function Shr(v: nat, n: nat): nat
    decreases n
  {
    if n == 0 then v else Shr(v / 2, n - 1)
  }

  // v << n, without a word size
  function Shl(v: nat, n: nat): nat {
    if n == 0 then v else 2 * Shl(v, n - 1)
  }

  // v & ((1 << n) - 1), also the truncation of v to n bits
  function Low(v: nat, n: nat): (r: nat)
    ensures r < Pow2(n)
    decreases n
  {
    if n == 0 then 0 else v % 2 + 2 * Low(v / 2, n - 1)
  }

  // (1 << n) - 1
  function Ones(n: nat): nat {
    if n == 0 then 0 else 1 + 2 * Ones(n - 1)
  }

  function Or(a: nat, b: nat): nat {
    if a == 0 && b == 0 then 0
    else 2 * Or(a / 2, b / 2) + if a % 2 == 1 || b % 2 == 1 then 1 else 0
  }

  // a & ~b
  function AndNot(a: nat, b: nat): nat {
    if a == 0 then 0
    else 2 * AndNot(a / 2, b / 2) + if a % 2 == 1 && b % 2 == 0 then 1 else 0
  }

  function Xor(a: nat, b: nat): nat
    decreases a + b
  {
    if a == 0 && b == 0 then 0
    else 2 * Xor(a / 2, b / 2) + if a % 2 == b % 2 then 0 else 1
  }

  predicate Bit(v: nat, k: nat)
    decreases k
  {
    if k == 0 then v % 2 == 1 else Bit(v / 2, k - 1)
  }

  lemma {:induction false} ZeroBit(k: nat)
    ensures !Bit(0, k)
  {
    if k > 0 { ZeroBit(k - 1); }
  }

  lemma {:induction false} ShrBit(v: nat, n: nat, k: nat)
    ensures Bit(Shr(v, n), k) == Bit(v, k + n)
    decreases n
  {
    if n > 0 { ShrBit(v / 2, n - 1, k); }
  }

  lemma {:induction false} ShlBit(v: nat, n: nat, k: nat)
    ensures Bit(Shl(v, n), k) == (k >= n && Bit(v, k - n))
    decreases n
  {
    if n > 0 && k > 0 { ShlBit(v, n - 1, k - 1); }
  }

  lemma {:induction false} LowBit(v: nat, n: nat, k: nat)
    ensures Bit(Low(v, n), k) == (k < n && Bit(v, k))
    decreases n
  {
    if n == 0 {
      ZeroBit(k);
    } else if k > 0 {
      LowBit(v / 2, n - 1, k - 1);
    }
  }

  lemma {:induction false} OnesBit(n: nat, k: nat)
    ensures Bit(Ones(n), k) == (k < n)
  {
    if n == 0 {
      ZeroBit(k);
    } else if k > 0 {
      OnesBit(n - 1, k - 1);
    }
  }

  lemma {:induction false} OrBit(a: nat, b: nat, k: nat)
    ensures Bit(Or(a, b), k) == (Bit(a, k) || Bit(b, k))
    decreases k
  {
    if a == 0 && b == 0 {
      ZeroBit(k);
    } else if k > 0 {
      OrBit(a / 2, b / 2, k - 1);
    }
  }

  lemma {:induction false} AndNotBit(a: nat, b: nat, k: nat)
    ensures Bit(AndNot(a, b), k) == (Bit(a, k) && !Bit(b, k))
    decreases k
  {
    if a == 0 {
      ZeroBit(k);
    } else if k > 0 {
      AndNotBit(a / 2, b / 2, k - 1);
    }
  }

  // Numbers with the same bits are equal.
  lemma {:induction false} SameBits(a: nat, b: nat)
    requires forall k: nat :: Bit(a, k) == Bit(b, k)
    ensures a == b
    decreases a + b
  {
    if a != b {
      assert Bit(a, 0) == Bit(b, 0);
      forall k: nat
        ensures Bit(a / 2, k) == Bit(b / 2, k)
      {
        assert Bit(a, k + 1) == Bit(b, k + 1);
      }
      SameBits(a / 2, b / 2);
    }
  }

  // A number below 2^n has no bits from n on.
  lemma {:induction false} SmallBit(v: nat, n: nat, k: nat)
    requires v < Pow2(n) && n <= k
    ensures !Bit(v, k)
    decreases n
  {
    if n == 0 { ZeroBit(k); } else { SmallBit(v / 2, n - 1, k - 1); }
  }

  // A number of n bits with a second number above it
  lemma {:induction false} JoinedBit(low: nat, n: nat, high: nat, k: nat)
    requires low < Pow2(n)
    ensures Bit(low + Pow2(n) * high, k) == if k < n then Bit(low, k) else Bit(high, k - n)
    decreases n
  {
    if n > 0 {
      TwiceTimes(Pow2(n - 1), high);
      HalfOfSum(low, Pow2(n - 1) * high);
      if k > 0 {
        JoinedBit(low / 2, n - 1, high, k - 1);
      }
    }
  }

  lemma HalfOfSum(a: nat, b: nat)
    ensures (a + 2 * b) / 2 == a / 2 + b && (a + 2 * b) % 2 == a % 2
  {
  }

  lemma TwiceTimes(a: nat, b: nat)
    ensures 2 * a * b == 2 * (a * b)
  {
  }

  lemma {:induction false} Pow2Sum(a: nat, b: nat)
    ensures Pow2(a + b) == Pow2(a) * Pow2(b)
    decreases a
  {
    if a > 0 {
      Pow2Sum(a - 1, b);
      TwiceTimes(Pow2(a - 1), Pow2(b));
      assert Pow2(a + b) == 2 * Pow2(a - 1 + b);
    }
  }

  lemma Pow2Words()
    ensures Pow2(8) == 256 && Pow2(32) == 0x1_0000_0000
  {
    assert Pow2(4) == 16;
    Pow2Sum(4, 4);
    Pow2Sum(8, 8);
    Pow2Sum(16, 16);
  }

  lemma {:induction false} ShlIsTimes(v: nat, n: nat)
    ensures Shl(v, n) == v * Pow2(n)
  {
    if n > 0 { ShlIsTimes(v, n - 1); }
  }

  // Shifts and masks are division and remainder by powers of two.
  lemma {:induction false} ShrIsDiv(v: nat, n: nat)
    ensures Shr(v, n) == v / Pow2(n)
    decreases n
  {
    if n > 0 {
      ShrIsDiv(v / 2, n - 1);
      DivTwice(v, Pow2(n - 1));
    }
  }

  lemma DivTwice(v: nat, m: nat)
    requires 0 < m
    ensures v / 2 / m == v / (2 * m)
  {
    var q := v / (2 * m);
    var r := v % (2 * m);
    assert v == 2 * m * q + r;
    assert v / 2 == m * q + r / 2;
    assert 0 <= r / 2 < m;
    DivUnique(v / 2, m, q, r / 2);
  }

  lemma DivUnique(a: nat, m: nat, q: nat, r: nat)
    requires 0 < m && a == m * q + r && r < m
    ensures a / m == q && a % m == r
  {
    var d := a / m - q;
    assert m * d == r - a % m;
    Multiples(m, d);
  }

  lemma Multiples(m: int, d: int)
    requires 0 < m
    ensures d > 0 ==> m * d >= m
    ensures d < 0 ==> m * d <= -m
  {
  }

  lemma ModTwice(v: nat, m: nat)
    requires 0 < m
    ensures v % (2 * m) == v % 2 + 2 * (v / 2 % m)
  {
    var h := v / 2;
    var q := h / m;
    assert h == m * q + h % m;
    assert v == (2 * m) * q + (v % 2 + 2 * (h % m));
    DivUnique(v, 2 * m, q, v % 2 + 2 * (h % m));
  }

  lemma {:induction false} LowIsMod(v: nat, n: nat)
    ensures Low(v, n) == v % Pow2(n)
    decreases n
  {
    if n > 0 {
      LowIsMod(v / 2, n - 1);
      ModTwice(v, Pow2(n - 1));
    }
  }
}
