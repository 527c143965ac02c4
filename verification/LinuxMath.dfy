/** fls, fls64 and div64_64, with shifts written as multiplications and divisions by powers of two. */
module LinuxMath {

  const WORD := 0x1_0000_0000
  const DWORD := 0x1_0000_0000_0000_0000

  function Pow2(n: nat): (p: nat)
    ensures p > 0
  {
    if n == 0 then 1 else 2 * Pow2(n - 1)
  }

  lemma {:induction false} Pow2Add(a: nat, b: nat)
    ensures Pow2(a + b) == Pow2(a) * Pow2(b)
  {
    if a > 0 {
      Pow2Add(a - 1, b);
      assert Pow2(a + b) == 2 * Pow2(a - 1 + b);
    }
  }

  lemma Pow2Values()
    ensures Pow2(1) == 2 && Pow2(2) == 4 && Pow2(4) == 16 && Pow2(8) == 256 && Pow2(16) == 65536
    ensures Pow2(24) == 0x100_0000 && Pow2(28) == 0x1000_0000 && Pow2(30) == 0x4000_0000
    ensures Pow2(31) == 0x8000_0000 && Pow2(32) == WORD
  {
    assert Pow2(1) == 2 && Pow2(2) == 4 && Pow2(3) == 8 && Pow2(4) == 16;
    Pow2Add(4, 4);
    Pow2Add(8, 8);
    Pow2Add(16, 16);
    Pow2Add(16, 8);
    Pow2Add(24, 4);
    Pow2Add(28, 2);
    assert Pow2(31) == 2 * Pow2(30);
  }

  /** `r` is the position of the highest bit of `x`, counted from 1. */
  predicate HighestBit(x: nat, r: nat) {
    r >= 1 && Pow2(r - 1) <= x < Pow2(r)
  }

  /** Doubling moves the highest bit; from its place at the top it can be read off. */
  lemma FromTop(x0: nat, x: nat, r: nat)
    requires 1 <= r <= 32 && x == x0 * Pow2(32 - r) && 0x8000_0000 <= x < WORD
    ensures HighestBit(x0, r)
  {
    Pow2Values();
    Pow2Add(r - 1, 32 - r);
    Pow2Add(r, 32 - r);
    hide Pow2;
    Cancel(Pow2(r - 1), x0, Pow2(r), Pow2(32 - r));
  }

  lemma Cancel(lo: nat, x: nat, hi: nat, k: nat)
    requires k > 0 && lo * k <= x * k < hi * k
    ensures lo <= x < hi
  {
    if x < lo {
      Strict(x, lo, k);
    }
    if hi <= x {
      Times(hi, x, k);
    }
  }

  lemma Times(a: nat, b: nat, k: nat)
    requires a <= b
    ensures a * k <= b * k
  {
  }

  /** Whether the top bits are clear is tested on the mask, or by comparison. */
  lemma Masks(x: bv32)
    ensures x & 0xffff0000 == 0 <==> x < 0x10000
    ensures x & 0xff000000 == 0 <==> x < 0x1000000
    ensures x & 0xf0000000 == 0 <==> x < 0x10000000
    ensures x & 0xc0000000 == 0 <==> x < 0x40000000
    ensures x & 0x80000000 == 0 <==> x < 0x80000000
  {
  }

  /** One step of fls: `x` moves up by `k` bits when its top `k` bits are clear. */
  method Step(x0: nat, x: nat, r: nat, k: nat) returns (y: nat, s: nat)
    requires k < r <= 32 && x == x0 * Pow2(32 - r) && x < WORD
    ensures r - k <= s <= r && y == x0 * Pow2(32 - s) && y < WORD
    ensures s == if x < Pow2(32 - k) then r - k else r
    ensures y == if x < Pow2(32 - k) then x * Pow2(k) else x
  {
    y, s := x, r;
    if x < Pow2(32 - k) {
      Moved(x0, x, r, k);
      y, s := x * Pow2(k), r - k;
    }
  }

  lemma Moved(x0: nat, x: nat, r: nat, k: nat)
    requires k < r <= 32 && x == x0 * Pow2(32 - r) && x < Pow2(32 - k)
    ensures x * Pow2(k) == x0 * Pow2(32 - (r - k)) && x * Pow2(k) < WORD
  {
    Pow2Values();
    Pow2Add(32 - r, k);
    Pow2Add(32 - k, k);
    hide Pow2;
    Regroup(x0, Pow2(32 - r), Pow2(k));
    Strict(x, Pow2(32 - k), Pow2(k));
  }

  lemma Regroup(a: nat, b: nat, c: nat)
    ensures (a * b) * c == a * (b * c)
  {
  }

  lemma Strict(a: nat, b: nat, k: nat)
    requires a < b && k > 0
    ensures a * k < b * k
  {
  }

  /** fls(x) */
  method Fls(x0: nat) returns (r: nat)
    requires x0 < WORD
    ensures x0 == 0 ==> r == 0
    ensures x0 > 0 ==> r <= 32 && HighestBit(x0, r)
  {
    if x0 == 0 {
      return 0;
    }
    Pow2Values();
    hide Pow2;
    var x := x0;
    r := 32;
    assert x == x0 * Pow2(32 - r) by {
      PowZero();
    }
    x, r := Step(x0, x, r, 16);
    assert x >= 0x1_0000;
    x, r := Step(x0, x, r, 8);
    assert x >= 0x100_0000;
    x, r := Step(x0, x, r, 4);
    x, r := Step(x0, x, r, 2);
    x, r := Step(x0, x, r, 1);
    FromTop(x0, x, r);
  }

  lemma PowZero()
    ensures Pow2(0) == 1
  {
  }

  /** fls64(x) */
  method Fls64(x: nat) returns (r: nat)
    requires x < DWORD
    ensures x == 0 ==> r == 0
    ensures x > 0 ==> r <= 64 && HighestBit(x, r)
  {
    var h := x / WORD;
    if h != 0 {
      r := Fls(h);
      Upper(x, h, r);
      r := r + 32;
    } else {
      r := Fls(x);
    }
  }

  lemma Upper(x: nat, h: nat, r: nat)
    requires h == x / WORD && HighestBit(h, r)
    ensures HighestBit(x, r + 32)
  {
    Pow2Values();
    Pow2Add(r - 1, 32);
    Pow2Add(r, 32);
    Times(Pow2(r - 1), h, WORD);
    Times(h + 1, Pow2(r), WORD);
  }

  /**
   The divisor, shifted down by the position of the highest bit of its upper half, fits 32 bits and
   has the top one set.
   */
  lemma ShiftedDivisor(m: nat, shift: nat)
    requires m < DWORD && HighestBit(m / WORD, shift)
    ensures 0x8000_0000 <= m / Pow2(shift) < WORD
  {
    var s := Pow2(shift);
    Upper(m, m / WORD, shift);
    Pow2Values();
    Pow2Add(shift, 32);
    Pow2Add(shift, 31);
    QuotientBounds(m, s, 0x8000_0000, WORD);
  }

  lemma QuotientBounds(m: nat, s: nat, lo: nat, hi: nat)
    requires s > 0 && lo * s <= m < hi * s
    ensures lo <= m / s < hi
  {
    var q := m / s;
    assert m == s * q + m % s;
    if q < lo {
      Times(q + 1, lo, s);
    }
    if q >= hi {
      Times(hi, q, s);
    }
  }

  /** floor(n / m) */
  function Quo(n: nat, m: nat): nat
    requires m > 0
  {
    n / m
  }

  lemma QuoBounds(n: nat, m: nat)
    requires m > 0
    ensures m * Quo(n, m) <= n < m * Quo(n, m) + m
  {
  }

  /** Dropping low bits of both numbers never makes the quotient smaller. */
  lemma NotSmaller(n: nat, m: nat, s: nat)
    requires s > 0 && m >= s
    ensures Quo(m, s) > 0 && Quo(n, m) <= Quo(Quo(n, s), Quo(m, s))
  {
    hide Quo;
    var q, d, e := Quo(n, m), Quo(m, s), Quo(n, s);
    QuoBounds(n, m);
    QuoBounds(m, s);
    QuoBounds(n, s);
    assert d > 0;
    ScaledDown(n, m, q, d, e, s);
    QuotientAtLeast(e, d, q);
  }

  lemma ScaledDown(n: nat, m: nat, q: nat, d: nat, e: nat, s: nat)
    requires s * d <= m && m * q <= n && n < s * e + s && s > 0
    ensures q * d <= e
  {
    Times(d * s, m, q);
    Regroup(q, d, s);
    if q * d > e {
      Times(e + 1, q * d, s);
    }
  }

  lemma QuotientAtLeast(e: nat, d: nat, q: nat)
    requires d > 0 && q * d <= e
    ensures q <= Quo(e, d)
  {
    hide Quo;
    QuoBounds(e, d);
    if q > Quo(e, d) {
      Times(Quo(e, d) + 1, q, d);
    }
  }

  /** Nor larger by more than one, for a 64-bit dividend and a divisor whose upper bits were kept. */
  lemma AtMostOneLarger(n: nat, m: nat, s: nat)
    requires n < DWORD && s >= 2 && m > 0 && 0x8000_0000 <= Quo(m, s)
    ensures Quo(Quo(n, s), Quo(m, s)) <= Quo(n, m) + 1
  {
    hide Quo;
    var q, d, e := Quo(n, m), Quo(m, s), Quo(n, s);
    QuoBounds(n, m);
    QuoBounds(m, s);
    QuoBounds(n, s);
    QuoBounds(e, d);
    if Quo(e, d) >= q + 2 {
      Crossing(n, m, q, d, e, s, Quo(e, d));
      TooLarge(n, q, d, s, d * s);
    }
  }

  /** n is at least (q + 2) d s and less than (q + 1) m, where m < d s + s. */
  lemma Crossing(n: nat, m: nat, q: nat, d: nat, e: nat, s: nat, q': nat)
    requires m < s * d + s && s * e <= n && d * q' <= e && n < m * q + m && q' >= q + 2 && s >= 1
    ensures (q + 2) * (d * s) <= n && d * s < (q + 1) * (s - 1)
  {
    var P := d * s;
    Times(q + 2, q', d);
    Times((q + 2) * d, e, s);
    Regroup(q + 2, d, s);
    assert (q + 2) * P <= n;
    Times(m, P + s - 1, q + 1);
    assert n < (q + 1) * m;
    assert (q + 1) * (P + s - 1) == (q + 1) * P + (q + 1) * (s - 1);
    assert (q + 2) * P == (q + 1) * P + P;
  }

  lemma TooLarge(n: nat, q: nat, d: nat, s: nat, P: nat)
    requires s >= 2 && d >= 0x8000_0000 && P == d * s
    requires (q + 2) * P <= n && P < (q + 1) * (s - 1)
    ensures n >= DWORD
  {
    // n (s - 1) >= (q + 1) (s - 1) P > P P >= 4 (s - 1) d d
    assert (q + 1) * P <= n by {
      Times(q + 1, q + 2, P);
    }
    Times((q + 1) * P, n, s - 1);
    Regroup(q + 1, s - 1, P);
    Regroup(q + 1, P, s - 1);
    Times(P, (q + 1) * (s - 1), P);
    assert P * P <= n * (s - 1);
    Square(d, s, P);
    Times(0x8000_0000, d, 0x8000_0000);
    Times(0x8000_0000, d, d);
    assert d * d >= 0x4000_0000_0000_0000;
    Times(4 * 0x4000_0000_0000_0000, 4 * (d * d), s - 1);
    if n < DWORD {
      Strict(n, DWORD, s - 1);
    }
  }

  lemma Square(d: nat, s: nat, P: nat)
    requires P == d * s && s >= 2
    ensures P * P >= (4 * (d * d)) * (s - 1)
  {
    assert P * P == (d * d) * (s * s) by {
      Regroup(d, s, d * s);
      Regroup(s, d, s);
      Regroup(d, d, s * s);
      Regroup(d, s, s);
    }
    assert s * s - 4 * (s - 1) == (s - 2) * (s - 2);
    Times(4 * (s - 1), s * s, d * d);
    Regroup(d * d, 4, s - 1);
  }

  /**
   div64_64(dividend, divisor): the quotient or one more, and exactly the quotient when the
   divisor fits 32 bits. The divisor the 32-bit division gets is never 0 and fits.
   */
  method Div64(n: nat, m: nat) returns (q: nat)
    requires n < DWORD && 0 < m < DWORD
    ensures Quo(n, m) <= q <= Quo(n, m) + 1
    ensures m < WORD ==> q == Quo(n, m)
  {
    var high := m / WORD;
    if high != 0 {
      hide Quo, HighestBit;
      var shift := Fls(high);
      ByShift(n, m, high, shift);
      var s := Pow2(shift);
      q := Quo(Quo(n, s), Quo(m, s));
    } else {
      q := Quo(n, m);
    }
  }

  lemma ByShift(n: nat, m: nat, high: nat, shift: nat)
    requires n < DWORD && 0 < m < DWORD && high == m / WORD && HighestBit(high, shift)
    ensures var s := Pow2(shift); 0 < Quo(m, s) < WORD && Quo(n, m) <= Quo(Quo(n, s), Quo(m, s)) <= Quo(n, m) + 1
    ensures m >= WORD
  {
    ShiftedDivisor(m, shift);
    TwoAtLeast(shift);
    LeastDivisor(m, shift);
    var s := Pow2(shift);
    assert Quo(m, s) >= 0x8000_0000;
    hide Pow2, HighestBit, Quo;
    NotSmaller(n, m, s);
    AtMostOneLarger(n, m, s);
  }

  lemma LeastDivisor(m: nat, shift: nat)
    requires HighestBit(m / WORD, shift)
    ensures m >= WORD && m >= Pow2(shift)
  {
    Upper(m, m / WORD, shift);
    Pow2Add(shift, 31);
    Times(1, Pow2(31), Pow2(shift));
  }

  lemma TwoAtLeast(k: nat)
    requires k >= 1
    ensures Pow2(k) >= 2
  {
  }

  /** One more does occur: 2^32 by 2^32 + 1 is 0, and the shifted division gives 1. */
  lemma OneTooMany()
    ensures var n, m := 0x1_0000_0000, 0x1_0000_0001;
      HighestBit(m / WORD, 1) && n / m == 0 && (n / Pow2(1)) / (m / Pow2(1)) == 1
  {
    PowZero();
    assert Pow2(1) == 2;
  }
}
