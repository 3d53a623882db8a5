/** Bitwise operators on naturals, by binary digits, and the facts that bit packing rests on. */
module Bits {
  const WORD: nat := 0x1_0000_0000_0000_0000

  function Pow2(k: nat): (p: nat)
    ensures p > 0
  {
    if k == 0 then 1 else 2 * Pow2(k - 1)
  }

  /** Go's `|`, digit by digit. */
  function BitOr(a: nat, b: nat): nat {
    if a == 0 && b == 0 then 0
    else 2 * BitOr(a / 2, b / 2) + (if a % 2 == 1 || b % 2 == 1 then 1 else 0)
  }

  /** Go's `&`, digit by digit. */
  function BitAnd(a: nat, b: nat): nat {
    if a == 0 || b == 0 then 0
    else 2 * BitAnd(a / 2, b / 2) + (if a % 2 == 1 && b % 2 == 1 then 1 else 0)
  }

  /** Go's `<<` on a 64-bit integer, read back as the unsigned word; negative operands are two's complement. */
  function Shl64(x: int, k: nat): nat {
    (x * Pow2(k)) % WORD
  }

  lemma {:induction false} OrZero(a: nat)
    ensures BitOr(a, 0) == a
  {
    if a != 0 { OrZero(a / 2); }
  }

  /** OR-ing a value below 2^k into a multiple of 2^k is addition. */
  lemma {:induction false} OrDisjoint(a: nat, b: nat, k: nat)
    requires b < Pow2(k)
    ensures BitOr(a * Pow2(k), b) == a * Pow2(k) + b
  {
    if k == 0 {
      OrZero(a);
    } else {
      var c := a * Pow2(k - 1);
      assert a * Pow2(k) == 2 * c;
      OrDisjoint(a, b / 2, k - 1);
      if c == 0 && b == 0 {
      } else {
        assert BitOr(2 * c, b) == 2 * BitOr(c, b / 2) + b % 2;
      }
    }
  }

  /** AND-ing with k one-digits is the remainder modulo 2^k. */
  lemma {:induction false} AndMask(a: nat, k: nat)
    ensures BitAnd(a, Pow2(k) - 1) == a % Pow2(k)
  {
    if a != 0 && k != 0 {
      AndMask(a / 2, k - 1);
      ModHalves(a, Pow2(k - 1));
    }
  }

  lemma AndMaskAs(a: nat, k: nat, mask: nat)
    requires mask == Pow2(k) - 1
    ensures BitAnd(a, mask) == a % (mask + 1)
  {
    AndMask(a, k);
  }

  lemma ModHalves(a: nat, p: nat)
    requires p > 0
    ensures a % (2 * p) == 2 * ((a / 2) % p) + a % 2
  {
    var h := a / 2;
    var q, r := h / p, h % p;
    assert h == p * q + r;
    assert a == (2 * p) * q + (2 * r + a % 2) by {
      assert a == 2 * h + a % 2;
      assert 2 * (p * q) == (2 * p) * q;
    }
    QuotientUnique(a, 2 * p, q, 2 * r + a % 2);
  }

  lemma QuotientUnique(a: int, n: int, q: int, r: int)
    requires n > 0 && 0 <= r < n && a == n * q + r
    ensures a % n == r
  {
    var d := a / n - q;
    assert a == n * (a / n) + a % n;
    assert n * d == r - a % n by {
      assert n * d == n * (a / n) - n * q;
    }
    assert d >= 1 ==> n * d >= n;
    assert d <= -1 ==> n * d <= -n;
  }
}
