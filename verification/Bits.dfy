/** Powers of two and the bit operations the page allocator uses on page frame numbers. */
module Bits {

  function Pow2(n: nat): (r: nat)
    ensures r > 0
  {
    if n == 0 then 1 else 2 * Pow2(n - 1)
  }

  /** `a ^ b` on unsigned numbers, bit by bit from the lowest. */
  function Xor(a: nat, b: nat): nat
    decreases a + b
  {
    if a == 0 && b == 0 then 0
    else (if a % 2 == b % 2 then 0 else 1) + 2 * Xor(a / 2, b / 2)
  }

  /** `a & b` on unsigned numbers, bit by bit from the lowest. */
  function And(a: nat, b: nat): nat
    decreases a + b
  {
    if a == 0 || b == 0 then 0
    else (if a % 2 == 1 && b % 2 == 1 then 1 else 0) + 2 * And(a / 2, b / 2)
  }

  /** `a >> k`. */
  function ShiftRight(a: nat, k: nat): nat
    decreases k
  {
    if k == 0 then a else ShiftRight(a / 2, k - 1)
  }

  /** Bit `o` of `a`, that is `(a >> o) & 1`. */
  function Bit(a: nat, o: nat): nat {
    if o == 0 then a % 2 else Bit(a / 2, o - 1)
  }

  /** The low `o` bits of `s` are zero. */
  predicate Aligned(s: nat, o: nat) {
    o == 0 || (s % 2 == 0 && Aligned(s / 2, o - 1))
  }

  lemma Pow2Grows(a: nat, b: nat)
    requires a <= b
    ensures Pow2(a) <= Pow2(b)
    ensures a < b ==> 2 * Pow2(a) <= Pow2(b)
  {
    if a < b { Pow2Grows(a, b - 1); }
  }

  lemma {:induction false} Pow2Adds(a: nat, b: nat)
    ensures Pow2(a + b) == Pow2(a) * Pow2(b)
  {
    if a == 0 {
    } else {
      calc {
        Pow2(a + b);
        2 * Pow2(a - 1 + b);
        { Pow2Adds(a - 1, b); }
        2 * (Pow2(a - 1) * Pow2(b));
        Pow2(a) * Pow2(b);
      }
    }
  }

  lemma DivModUnique(a: int, b: int, q: int, r: int)
    requires b > 0 && 0 <= r < b && a == q * b + r
    ensures a / b == q && a % b == r
  {
    var d := a / b - q;
    assert d * b == r - a % b by {
      assert a == (a / b) * b + a % b;
    }
    assert d >= 1 ==> d * b >= b;
    assert d <= -1 ==> d * b <= -b;
  }

  /** Dropping the lowest bit commutes with taking a remainder by a power of two. */
  lemma ModHalves(s: nat, p: nat)
    requires p > 0
    ensures s % (2 * p) == 2 * ((s / 2) % p) + s % 2
    ensures s / (2 * p) == (s / 2) / p
  {
    var q, r := (s / 2) / p, (s / 2) % p;
    assert s / 2 == q * p + r;
    assert q * (2 * p) == 2 * (q * p);
    DivModUnique(s, 2 * p, q, 2 * r + s % 2);
  }

  lemma {:induction false} AlignedIsMultiple(s: nat, o: nat)
    ensures Aligned(s, o) <==> s % Pow2(o) == 0
    decreases o
  {
    if o > 0 {
      AlignedIsMultiple(s / 2, o - 1);
      ModHalves(s, Pow2(o - 1));
    }
  }

  lemma {:induction false} XorSelf(a: nat, b: nat)
    requires b == 0
    ensures Xor(a, b) == a
  {
    if a > 0 { XorSelf(a / 2, 0); }
  }

  lemma {:induction false} AndSelf(a: nat)
    ensures And(a, a) == a
  {
    if a > 0 { AndSelf(a / 2); }
  }

  /** Flipping bit `o` adds `2^o` if the bit was clear and subtracts it if it was set; keeping
      the bits common to both leaves the smaller of the two numbers. */
  lemma {:induction false} XorPow2(a: nat, o: nat)
    ensures Xor(a, Pow2(o)) == if Bit(a, o) == 0 then a + Pow2(o) else a - Pow2(o)
    ensures And(Xor(a, Pow2(o)), a) == if Bit(a, o) == 0 then a else a - Pow2(o)
    decreases o
  {
    if o == 0 {
      XorSelf(a / 2, 0);
      AndSelf(a / 2);
    } else {
      XorPow2(a / 2, o - 1);
      var x := Xor(a, Pow2(o));
      assert x == a % 2 + 2 * Xor(a / 2, Pow2(o - 1));
      assert x / 2 == Xor(a / 2, Pow2(o - 1)) && x % 2 == a % 2;
    }
  }

  /** Masking with `2^n - 1` is the remainder by `2^n`. */
  lemma {:induction false} MaskLow(a: nat, n: nat)
    ensures And(a, Pow2(n) - 1) == a % Pow2(n)
    decreases n
  {
    if n == 0 {
    } else {
      MaskLow(a / 2, n - 1);
      ModHalves(a, Pow2(n - 1));
      var m: nat := Pow2(n) - 1;
      assert m % 2 == 1 && m / 2 == Pow2(n - 1) - 1;
      if a == 0 { assert And(a / 2, m / 2) == 0; }
    }
  }

  /** Shifting right is dividing by a power of two. */
  lemma {:induction false} ShiftIsQuotient(a: nat, k: nat)
    ensures ShiftRight(a, k) == a / Pow2(k)
    decreases k
  {
    if k > 0 {
      ShiftIsQuotient(a / 2, k - 1);
      ModHalves(a, Pow2(k - 1));
    }
  }
}
