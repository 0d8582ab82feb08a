/** Bitwise conjunction of natural numbers, for masks and alignment. */
module Bits {

  function Pow2(k: nat): (p: nat)
    ensures p > 0
  {
    if k == 0 then 1 else 2 * Pow2(k - 1)
  }

  /** Digit by digit: 1 where both binary digits are 1. */
  function And(x: nat, y: nat): (r: nat)
    ensures r <= y
    decreases x
  {
    if x == 0 || y == 0 then 0 else (x % 2) * (y % 2) + 2 * And(x / 2, y / 2)
  }

  /** Size of a 64-bit unsigned counter. */
  const WORD := 0x1_0000_0000_0000_0000

  function Wrap(n: int): (w: nat)
    ensures w < WORD
  {
    n % WORD
  }

  lemma {:induction false} Pow2Succ(k: nat)
    ensures Pow2(k + 1) == 2 * Pow2(k) && Pow2(0) == 1
  {
  }

  lemma {:induction false} Pow2Square(k: nat, p: nat)
    requires Pow2(k) == p
    ensures Pow2(2 * k) == p * p
  {
    hide Pow2;
    Pow2Add(k, k);
    assert k + k == 2 * k;
  }

  lemma {:induction false} Pow2Word()
    ensures Pow2(64) == WORD && Pow2(63) == 0x8000_0000_0000_0000
  {
    hide Pow2;
    Pow2Succ(0);
    Pow2Square(1, 2);
    Pow2Square(2, 4);
    Pow2Square(4, 16);
    Pow2Square(8, 256);
    Pow2Square(16, 65536);
    Pow2Square(32, 4294967296);
    Pow2Succ(63);
  }

  lemma {:induction false} Pow2Add(a: nat, b: nat)
    ensures Pow2(a + b) == Pow2(a) * Pow2(b)
    decreases b
  {
    if b > 0 {
      Pow2Add(a, b - 1);
      calc {
        Pow2(a + b);
        2 * Pow2(a + (b - 1));
        2 * (Pow2(a) * Pow2(b - 1));
        Pow2(a) * (2 * Pow2(b - 1));
      }
    }
  }

  lemma {:induction false} Pow2Monotone(a: nat, b: nat)
    requires a <= b
    ensures Pow2(a) <= Pow2(b)
    decreases b - a
  {
    if a < b {
      Pow2Monotone(a + 1, b);
    }
  }

  /** A number below `2 * p` digits is its last digit and the rest. */
  lemma {:induction false} ModDouble(x: nat, p: nat)
    requires p > 0
    ensures x % (2 * p) == x % 2 + 2 * (x / 2 % p)
  {
    var q, r := x / 2 / p, x / 2 % p;
    assert x / 2 == p * q + r;
    assert x == (2 * p) * q + (x % 2 + 2 * r) by {
      assert (2 * p) * q == 2 * (p * q);
    }
    Remainder(x, 2 * p, q, x % 2 + 2 * r);
  }

  lemma {:induction false} Remainder(x: int, d: nat, q: int, r: int)
    requires x == d * q + r && 0 <= r < d
    ensures x % d == r
  {
    var q', r' := x / d, x % d;
    assert d * (q' - q) == r - r' by {
      assert d * (q' - q) == d * q' - d * q;
    }
    SmallMultiple(d, q' - q);
  }

  lemma {:induction false} SmallMultiple(d: nat, k: int)
    requires d * k < d && -(d * k) < d
    ensures k == 0
  {
    if k >= 1 {
      Scales(d, 1, k);
    } else if k <= -1 {
      Scales(d, k, -1);
    }
  }

  lemma {:induction false} Scales(d: nat, a: int, b: int)
    requires a <= b
    ensures d * a <= d * b
  {
    assert d * b - d * a == d * (b - a);
  }

  /** A mask of ones takes the remainder by a power of two. */
  lemma {:induction false} MaskIsModulo(x: nat, k: nat)
    ensures And(x, Pow2(k) - 1) == x % Pow2(k)
    decreases k
  {
    hide And, Pow2;
    Pow2Succ(0);
    if k == 0 {
      assert x % 1 == 0;
    } else {
      Pow2Succ(k - 1);
      MaskIsModulo(x / 2, k - 1);
      MaskStep(x, Pow2(k - 1), Pow2(k));
    }
  }

  lemma {:induction false} MaskStep(x: nat, p: nat, p2: nat)
    requires p2 == 2 * p && p > 0 && And(x / 2, p - 1) == x / 2 % p
    ensures And(x, p2 - 1) == x % p2
  {
    hide And;
    ModDouble(x, p);
    AndOdd(x, p - 1);
    assert p2 - 1 == 2 * (p - 1) + 1;
  }

  lemma {:induction false} AndOdd(x: nat, y: nat)
    ensures And(x, 2 * y + 1) == x % 2 + 2 * And(x / 2, y)
  {
    assert (2 * y + 1) % 2 == 1 && (2 * y + 1) / 2 == y;
  }

  /** A mask of `q - p` rounds `x` down to a multiple of `p`. */
  predicate RoundsDown(x: nat, p: nat, q: nat) {
    0 < p <= q && And(x, q - p) == x - x % p
  }

  /** The complement of a mask of ones rounds down to a multiple. */
  lemma {:induction false} ClearLowBits(x: nat, j: nat, n: nat)
    requires j <= n && x < Pow2(n)
    ensures RoundsDown(x, Pow2(j), Pow2(n))
    decreases j
  {
    hide And, Pow2, RoundsDown;
    if j == 0 {
      ClearNothing(x, n);
    } else {
      Pow2Succ(j - 1);
      Pow2Succ(n - 1);
      HalfBelow(x, Pow2(n - 1));
      ClearLowBits(x / 2, j - 1, n - 1);
      ClearStep(x, Pow2(j - 1), Pow2(n - 1), Pow2(j), Pow2(n));
    }
  }

  lemma {:induction false} HalfBelow(x: nat, q: nat)
    requires x < 2 * q
    ensures x / 2 < q
  {
  }

  lemma {:induction false} ClearNothing(x: nat, n: nat)
    requires x < Pow2(n)
    ensures RoundsDown(x, Pow2(0), Pow2(n))
  {
    hide And, Pow2;
    Pow2Succ(0);
    MaskIsModulo(x, n);
    Remainder(x, Pow2(n), 0, x);
    assert x % 1 == 0;
  }

  lemma {:induction false} ClearStep(x: nat, p: nat, q: nat, p2: nat, q2: nat)
    requires p2 == 2 * p && q2 == 2 * q && RoundsDown(x / 2, p, q)
    ensures RoundsDown(x, p2, q2)
  {
    hide And;
    ModDouble(x, p);
    AndEven(x, q - p);
    assert q2 - p2 == 2 * (q - p);
    var h := x / 2 % p;
    assert x == 2 * (x / 2) + x % 2;
  }

  lemma {:induction false} AndEven(x: nat, y: nat)
    ensures And(x, 2 * y) == 2 * And(x / 2, y)
  {
    assert 2 * y % 2 == 0 && 2 * y / 2 == y;
  }

  /** Powers of two up to the word size divide it, so wrapping does not move a slot. */
  lemma {:induction false} WrapModulo(n: nat, k: nat)
    requires k <= 64
    ensures Wrap(n) % Pow2(k) == n % Pow2(k)
  {
    hide Pow2;
    Pow2Word();
    Pow2Add(k, 64 - k);
    MultipleModulo(n, Pow2(k), Pow2(64 - k), WORD);
  }

  lemma {:induction false} MultipleModulo(n: nat, p: nat, m: nat, w: nat)
    requires p > 0 && m > 0 && w == p * m
    ensures w > 0 && n % w % p == n % p
  {
    var q, r := n % w / p, n % w % p;
    assert n == w * (n / w) + n % w;
    assert w * (n / w) == p * (m * (n / w));
    assert p * (m * (n / w) + q) == p * (m * (n / w)) + p * q;
    Remainder(n, p, m * (n / w) + q, r);
  }

  lemma {:induction false} WrapNext(n: nat)
    ensures Wrap(Wrap(n) + 1) == Wrap(n + 1)
  {
  }

  /** Wrapped counters still tell their distance when it is less than a word. */
  lemma {:induction false} WrapDistance(a: nat, b: nat)
    requires b <= a && a - b < WORD
    ensures Wrap(Wrap(a) - Wrap(b)) == a - b
  {
  }
}
