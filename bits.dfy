/**
  Fixed-width integers and the bit operations the patcher uses, defined on
  unbounded integers: `And` and `Or` are the bitwise operators on
  non-negative values, `x / Pow2(k)` is `x >> k`, and `x % Pow2(k)` is
  `x & ((1 << k) - 1)` (proved below as `AndLowMask`).
 */
module Bits {

  type u8 = x: int | 0 <= x < 0x100
  type i8 = x: int | -0x80 <= x < 0x80
  type i32 = x: int | -0x8000_0000 <= x < 0x8000_0000
  type u32 = x: int | 0 <= x < 0x1_0000_0000
  type i64 = x: int | -0x8000_0000_0000_0000 <= x < 0x8000_0000_0000_0000
  type u64 = x: int | 0 <= x < 0x1_0000_0000_0000_0000

  function Pow2(n: nat): (r: nat)
    ensures r > 0
  {
    if n == 0 then 1 else 2 * Pow2(n - 1)
  }

  lemma {:induction false} Pow2Add(a: nat, b: nat)
    ensures Pow2(a + b) == Pow2(a) * Pow2(b)
  {
    if b > 0 {
      Pow2Add(a, b - 1);
      assert Pow2(a + b) == 2 * Pow2(a + b - 1);
    }
  }

  lemma {:induction false} Pow2Monotone(a: nat, b: nat)
    requires a <= b
    ensures Pow2(a) <= Pow2(b)
  {
    if a < b {
      Pow2Monotone(a, b - 1);
    }
  }

  lemma Pow2Four()
    ensures Pow2(4) == 0x10
  {
    Pow2Add(2, 2);
    assert Pow2(2) == 4;
  }

  lemma Pow2Eight()
    ensures Pow2(8) == 0x100
  {
    Pow2Four();
    Pow2Add(4, 4);
  }

  /** The powers of two the patcher uses as literal constants. */
  lemma Pow2Constants()
    ensures Pow2(1) == 2 && Pow2(2) == 4 && Pow2(4) == 16 && Pow2(6) == 64 && Pow2(8) == 256
    ensures Pow2(24) == 0x100_0000 && Pow2(26) == 0x400_0000 && Pow2(32) == 0x1_0000_0000
    ensures Pow2(36) == 0x10_0000_0000 && Pow2(38) == 0x40_0000_0000
    ensures Pow2(64) == 0x1_0000_0000_0000_0000
  {
    assert Pow2(1) == 2;
    assert Pow2(2) == 4;
    Pow2Eight();
    Pow2Add(4, 2);
    Pow2Add(8, 8);
    Pow2Add(16, 8);
    Pow2Add(24, 2);
    Pow2Add(24, 8);
    Pow2Add(32, 4);
    Pow2Add(32, 6);
    Pow2Add(32, 32);
  }

  lemma MulMono(a: int, b: int, d: int)
    requires d > 0 && a <= b
    ensures a * d <= b * d
  {
    assert b * d == a * d + (b - a) * d;
  }

  /** Euclidean division is characterised by its quotient and remainder. */
  lemma DivModUnique(x: int, d: int, q: int, r: int)
    requires d > 0 && x == q * d + r && 0 <= r < d
    ensures x / d == q && x % d == r
  {
    var q' := x / d;
    assert x == q' * d + x % d;
    if q' < q {
      MulMono(q' + 1, q, d);
      assert false;
    } else if q < q' {
      MulMono(q + 1, q', d);
      assert false;
    }
  }

  lemma DivDiv(x: int, m: int, n: int)
    requires m > 0 && n > 0
    ensures x / m / n == x / (m * n)
    ensures (x % (m * n)) / m == (x / m) % n
  {
    var q, r := x / (m * n), x % (m * n);
    var s, t := r / m, r % m;
    assert r == s * m + t && 0 <= t < m;
    assert 0 <= s < n by {
      if s >= n {
        MulMono(n, s, m);
        assert false;
      }
    }
    assert x == (q * n + s) * m + t by {
      assert x == q * (m * n) + r;
      assert q * (m * n) == (q * n) * m;
    }
    DivModUnique(x, m, q * n + s, t);
    DivModUnique(x / m, n, q, s);
  }

  lemma ModMod(x: int, m: int, n: int)
    requires m > 0 && n > 0
    ensures (x % (m * n)) % m == x % m
  {
    var q, r := x / (m * n), x % (m * n);
    var s, t := r / m, r % m;
    assert r == s * m + t;
    assert x == q * (m * n) + r;
    assert q * (m * n) == (q * n) * m;
    assert x == (q * n + s) * m + t;
    DivModUnique(x, m, q * n + s, t);
  }

  /** Bitwise and of two non-negative integers, one bit at a time from the least significant. */
  function And(a: int, b: int): nat
    decreases a
  {
    if a <= 0 || b <= 0 then 0
    else 2 * And(a / 2, b / 2) + (if a % 2 == 1 && b % 2 == 1 then 1 else 0)
  }

  /** Bitwise or of two non-negative integers. */
  function Or(a: int, b: int): nat
    decreases if a < 0 then 0 else a, if b < 0 then 0 else b
  {
    if a <= 0 && b <= 0 then 0
    else 2 * Or(a / 2, b / 2) + (if a % 2 == 1 || b % 2 == 1 then 1 else 0)
  }

  lemma {:induction false} OrZero(a: nat)
    ensures Or(a, 0) == a && Or(0, a) == a
  {
    if a != 0 {
      OrZero(a / 2);
    }
  }

  /** `x & ((1 << k) - 1)` keeps the low `k` bits. */
  lemma {:induction false} AndLowMask(x: nat, k: nat)
    ensures And(x, Pow2(k) - 1) == x % Pow2(k)
  {
    if k > 0 {
      AndLowMask(x / 2, k - 1);
      AndLowMaskStep(x, Pow2(k - 1), Pow2(k));
    }
  }

  lemma AndLowMaskStep(x: nat, p': nat, p: nat)
    requires p' > 0 && p == 2 * p' && And(x / 2, p' - 1) == (x / 2) % p'
    ensures And(x, p - 1) == x % p
  {
    DivModUnique(p - 1, 2, p' - 1, 1);
    AndUnfold(x, p - 1);
    DivDiv(x, 2, p');
    ModMod(x, 2, p');
    var r := x % p;
    DivModUnique(r, 2, r / 2, r % 2);
  }

  lemma AndUnfold(a: nat, b: nat)
    ensures And(a, b) == 2 * And(a / 2, b / 2) + (if a % 2 == 1 && b % 2 == 1 then 1 else 0)
  {
  }

  lemma OrUnfold(a: nat, b: nat)
    ensures Or(a, b) == 2 * Or(a / 2, b / 2) + (if a % 2 == 1 || b % 2 == 1 then 1 else 0)
  {
  }

  lemma Regroup(hi: int, lo: int, p': int)
    ensures 2 * (hi * p' + lo) == hi * (2 * p') + 2 * lo
  {
  }

  /** Splitting both operands at bit `k` splits their bitwise and. */
  lemma {:induction false} AndSplit(a: nat, b: nat, k: nat)
    ensures And(a, b) == And(a / Pow2(k), b / Pow2(k)) * Pow2(k) + And(a % Pow2(k), b % Pow2(k))
  {
    if k > 0 {
      AndSplit(a / 2, b / 2, k - 1);
      AndSplitStep(a, b, Pow2(k - 1));
    }
  }

  lemma AndSplitStep(a: nat, b: nat, p': nat)
    requires p' > 0
    requires And(a / 2, b / 2) == And(a / 2 / p', b / 2 / p') * p' + And(a / 2 % p', b / 2 % p')
    ensures And(a, b) == And(a / (2 * p'), b / (2 * p')) * (2 * p') + And(a % (2 * p'), b % (2 * p'))
  {
    var p := 2 * p';
    DivDiv(a, 2, p');
    DivDiv(b, 2, p');
    ModMod(a, 2, p');
    ModMod(b, 2, p');
    AndUnfold(a, b);
    AndUnfold(a % p, b % p);
    var hi := And(a / p, b / p);
    var lo := And((a % p) / 2, (b % p) / 2);
    Regroup(hi, lo, p');
  }

  /** Splitting both operands at bit `k` splits their bitwise or. */
  lemma {:induction false} OrSplit(a: nat, b: nat, k: nat)
    ensures Or(a, b) == Or(a / Pow2(k), b / Pow2(k)) * Pow2(k) + Or(a % Pow2(k), b % Pow2(k))
  {
    if k > 0 {
      OrSplit(a / 2, b / 2, k - 1);
      OrSplitStep(a, b, Pow2(k - 1));
    }
  }

  lemma OrSplitStep(a: nat, b: nat, p': nat)
    requires p' > 0
    requires Or(a / 2, b / 2) == Or(a / 2 / p', b / 2 / p') * p' + Or(a / 2 % p', b / 2 % p')
    ensures Or(a, b) == Or(a / (2 * p'), b / (2 * p')) * (2 * p') + Or(a % (2 * p'), b % (2 * p'))
  {
    var p := 2 * p';
    DivDiv(a, 2, p');
    DivDiv(b, 2, p');
    ModMod(a, 2, p');
    ModMod(b, 2, p');
    OrUnfold(a, b);
    OrUnfold(a % p, b % p);
    var hi := Or(a / p, b / p);
    var lo := Or((a % p) / 2, (b % p) / 2);
    Regroup(hi, lo, p');
  }

  /** Or of two `k`-bit values is a `k`-bit value. */
  lemma {:induction false} OrBound(a: nat, b: nat, k: nat)
    requires a < Pow2(k) && b < Pow2(k)
    ensures Or(a, b) < Pow2(k)
  {
    if k > 0 && !(a == 0 && b == 0) {
      OrBound(a / 2, b / 2, k - 1);
    }
  }

  /** The bits of `b` are all set in `a | b`. */
  lemma {:induction false} OrCovers(a: nat, b: nat)
    ensures And(Or(a, b), b) == b
  {
    if b != 0 {
      OrCovers(a / 2, b / 2);
      OrUnfold(a, b);
      AndUnfold(Or(a, b), b);
    }
  }

  /** Bits already set in `a` stay set in `a | b`. */
  lemma {:induction false} OrKeeps(a: nat, b: nat, v: nat)
    requires And(a, v) == v
    ensures And(Or(a, b), v) == v
  {
    if v != 0 {
      AndUnfold(a, v);
      OrKeeps(a / 2, b / 2, v / 2);
      OrUnfold(a, b);
      AndUnfold(Or(a, b), v);
    }
  }

  /** A bit clear in both operands is clear in their or. */
  lemma {:induction false} OrDisjoint(a: nat, b: nat, m: nat)
    requires And(a, m) == 0 && And(b, m) == 0
    ensures And(Or(a, b), m) == 0
  {
    if m != 0 && !(a == 0 && b == 0) {
      AndUnfold(a, m);
      AndUnfold(b, m);
      OrDisjoint(a / 2, b / 2, m / 2);
      OrUnfold(a, b);
      var o := Or(a, b);
      assert o / 2 == Or(a / 2, b / 2);
      AndUnfold(o, m);
    }
  }

  /** The `width`-bit field of `x` that starts at bit `lo`: `(x >> lo) & ((1 << width) - 1)`. */
  function Field(x: nat, lo: nat, width: nat): (r: nat)
    ensures r < Pow2(width)
  {
    (x / Pow2(lo)) % Pow2(width)
  }

  /** Truncating `x` to its low `n` bits leaves every field below bit `n` unchanged. */
  lemma FieldOfTruncated(x: nat, n: nat, lo: nat, width: nat)
    requires lo + width <= n
    ensures Field(x % Pow2(n), lo, width) == Field(x, lo, width)
  {
    var pl, pw, pr := Pow2(lo), Pow2(width), Pow2(n - lo - width);
    Pow2Add(lo, n - lo);
    Pow2Add(width, n - lo - width);
    assert Pow2(n) == pl * (pw * pr);
    DivDiv(x, pl, pw * pr);
    // (x % Pow2(n)) / pl == (x / pl) % (pw * pr)
    ModMod(x / pl, pw, pr);
  }
}
