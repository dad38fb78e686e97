/** Fixed-point load averages: how far fast exponentiation and one big step stray from exact
    powers and from many small steps. */
module LoadAverage {
  import opened Bits

  // ---------- real arithmetic; products and quotients are named so that proofs can treat them
  // ---------- as atoms and only the identities below look inside

  function Mul(x: real, y: real): real {
    x * y
  }

  function Quot(x: real, q: real): real
    requires q > 0.0
  {
    x / q
  }

  lemma MulUnit(x: real)
    ensures Mul(1.0, x) == x && Mul(x, 1.0) == x && Mul(0.0, x) == 0.0
  {
  }

  lemma MulComm(x: real, y: real)
    ensures Mul(x, y) == Mul(y, x)
  {
  }

  lemma MulAssoc(x: real, y: real, z: real)
    ensures Mul(x, Mul(y, z)) == Mul(Mul(x, y), z)
  {
  }

  lemma MulPlus(x: real, y: real, z: real)
    ensures Mul(x + y, z) == Mul(x, z) + Mul(y, z)
  {
  }

  lemma MulMinus(x: real, y: real, z: real)
    ensures Mul(x - y, z) == Mul(x, z) - Mul(y, z)
  {
  }

  lemma MulNonNegative(x: real, y: real)
    requires x >= 0.0 && y >= 0.0
    ensures Mul(x, y) >= 0.0
  {
  }

  lemma MulCancel(x: real, y: real, q: real)
    requires q > 0.0 && Mul(x, q) <= Mul(y, q)
    ensures x <= y
  {
    assert x > y ==> (x - y) * q > 0.0;
  }

  lemma QuotTimes(x: real, q: real)
    requires q > 0.0
    ensures Mul(Quot(x, q), q) == x
  {
  }

  lemma {:induction false} CastTimes(a: nat, b: nat)
    ensures (a * b) as real == Mul(a as real, b as real)
  {
    if a == 0 {
      MulUnit(b as real);
    } else {
      CastTimes(a - 1, b);
      MulPlus((a - 1) as real, 1.0, b as real);
      MulUnit(b as real);
      assert a * b == (a - 1) * b + b;
      hide Mul;
    }
  }

  /** `x` and `y` differ by at most `d`. */
  predicate Near(x: real, y: real, d: real) {
    -d <= x - y <= d
  }

  lemma NearChain(x: real, y: real, z: real, d: real, d': real)
    requires Near(x, y, d) && Near(y, z, d')
    ensures Near(x, z, d + d')
  {
  }

  lemma NearCancel(r: real, z: real, d: real, q: real)
    requires q > 0.0 && Near(Mul(r, q), Mul(z, q), Mul(d, q))
    ensures Near(r, z, d)
  {
    hide Mul;
    MulPlus(z, d, q);
    MulMinus(z, d, q);
    MulCancel(r, z + d, q);
    MulCancel(z - d, r, q);
  }

  /** Scaling an error by at most `q`. */
  lemma ScaledError(b: real, q: real, e: real, d: real)
    requires 0.0 <= b <= q && -d <= e <= d
    ensures -Mul(q, d) <= Mul(b, e) <= Mul(q, d)
  {
    hide Mul;
    MulNonNegative(d - e, b);
    MulNonNegative(d + e, b);
    MulNonNegative(q - b, d);
    MulMinus(d, e, b);
    MulPlus(d, e, b);
    MulMinus(q, b, d);
    MulComm(d, b);
    MulComm(e, b);
  }

  /** `a*b - x*y`, split into one error scaled by `b` and one scaled by `x`. */
  lemma SplitDifference(a: real, b: real, x: real, y: real)
    ensures Mul(a, b) - Mul(x, y) == Mul(b, a - x) + Mul(x, b - y)
  {
    hide Mul;
    MulMinus(a, x, b);
    MulMinus(b, y, x);
    MulComm(a - x, b);
    MulComm(b - y, x);
    MulComm(b, x);
    MulComm(y, x);
  }

  // ---------- exact powers

  function RealPow(e: real, n: nat): real {
    if n == 0 then 1.0 else Mul(e, RealPow(e, n - 1))
  }

  /** The exact value of a power, in units of the last place. */
  function Exact(q: real, e: real, n: nat): real {
    Mul(q, RealPow(e, n))
  }

  lemma {:induction false} RealPowAdds(e: real, a: nat, b: nat)
    ensures RealPow(e, a + b) == Mul(RealPow(e, a), RealPow(e, b))
  {
    hide Mul;
    if a == 0 {
      MulUnit(RealPow(e, b));
    } else {
      RealPowAdds(e, a - 1, b);
      MulAssoc(e, RealPow(e, a - 1), RealPow(e, b));
    }
  }

  lemma {:induction false} RealPowUnit(e: real, n: nat)
    requires 0.0 <= e <= 1.0
    ensures 0.0 <= RealPow(e, n) <= 1.0
  {
    hide Mul;
    if n > 0 {
      RealPowUnit(e, n - 1);
      var p := RealPow(e, n - 1);
      MulNonNegative(e, p);
      MulNonNegative(1.0 - e, p);
      MulMinus(1.0, e, p);
      MulUnit(p);
    }
  }

  lemma ExactBounds(q: real, e: real, n: nat)
    requires q > 0.0 && 0.0 <= e <= 1.0
    ensures 0.0 <= Exact(q, e, n) <= q
  {
    hide Mul;
    RealPowUnit(e, n);
    var p := RealPow(e, n);
    MulNonNegative(q, p);
    MulNonNegative(1.0 - p, q);
    MulMinus(1.0, p, q);
    MulUnit(q);
    MulComm(p, q);
  }

  lemma ExactProduct(q: real, e: real, a: nat, b: nat)
    ensures Mul(Exact(q, e, a), Exact(q, e, b)) == Mul(Exact(q, e, a + b), q)
  {
    hide Mul, RealPow;
    var x, y := RealPow(e, a), RealPow(e, b);
    RealPowAdds(e, a, b);
    MulAssoc(q, x, Mul(q, y));
    MulComm(q, y);
    MulAssoc(x, y, q);
    MulAssoc(q, Mul(x, y), q);
  }

  lemma StartExact(x: real, q: real)
    requires 0.0 <= x <= q && q > 0.0
    ensures 0.0 <= Quot(x, q) <= 1.0 && Exact(q, Quot(x, q), 0) == q && Exact(q, Quot(x, q), 1) == x
  {
    hide Mul, Quot;
    var e := Quot(x, q);
    QuotTimes(x, q);
    MulUnit(q);
    MulUnit(e);
    MulCancel(e, 1.0, q);
    MulCancel(0.0, e, q);
    MulComm(q, e);
    assert RealPow(e, 1) == Mul(e, RealPow(e, 0));
  }

  // ---------- rounding

  /** Add half a unit and shift right: `(a + (1UL << (f - 1))) >> f`. */
  function Round(a: nat, f: nat): nat
    requires f > 0
  {
    (a + Pow2(f - 1)) / Pow2(f)
  }

  lemma DivBounds(a: nat, q: nat)
    requires q > 0
    ensures a / q * q <= a < a / q * q + q
  {
  }

  lemma DoublePow(f: nat)
    requires f > 0
    ensures Pow2(f) == 2 * Pow2(f - 1)
  {
  }

  lemma RoundBounds(a: nat, f: nat)
    requires f > 0
    ensures Round(a, f) * Pow2(f) <= a + Pow2(f - 1) < Round(a, f) * Pow2(f) + Pow2(f)
  {
    hide Pow2;
    DivBounds(a + Pow2(f - 1), Pow2(f));
  }

  lemma CastNear(x: nat, a: nat, h: nat, q: nat)
    requires q == 2 * h && x <= a + h < x + q
    ensures Near(x as real, a as real, 0.5 * q as real)
  {
  }

  lemma HalfTimes(q: real)
    ensures Mul(0.5, q) == 0.5 * q
  {
  }

  /** Rounding moves a value by at most half a unit. */
  lemma RoundIsNear(a: nat, f: nat, q: real)
    requires f > 0 && q == Pow2(f) as real
    ensures Near(Mul(Round(a, f) as real, q), a as real, Mul(0.5, q))
  {
    hide Pow2, Round, Mul, Near;
    RoundBounds(a, f);
    DoublePow(f);
    var x := Round(a, f) * Pow2(f);
    CastTimes(Round(a, f), Pow2(f));
    CastNear(x, a, Pow2(f - 1), Pow2(f));
    HalfTimes(q);
  }

  lemma TimesMonotone(x: nat, y: nat, q: nat)
    requires x <= y
    ensures x * q <= y * q
  {
  }

  lemma RoundStaysBelow(a: nat, b: nat, f: nat)
    requires f > 0 && a <= b * Pow2(f)
    ensures Round(a, f) <= b
  {
    hide Pow2, Round;
    RoundBounds(a, f);
    DoublePow(f);
    if Round(a, f) > b { TimesMonotone(b + 1, Round(a, f), Pow2(f)); }
  }

  lemma ProductStaysBelow(a: nat, b: nat, f: nat)
    requires f > 0 && a <= Pow2(f) && b <= Pow2(f)
    ensures Round(a * b, f) <= Pow2(f)
  {
    hide Pow2, Round;
    TimesMonotone(b, Pow2(f), a);
    TimesMonotone(a, Pow2(f), Pow2(f));
    RoundStaysBelow(a * b, Pow2(f), f);
  }

  /** Multiplying two approximations and rounding adds their errors and half a unit. */
  lemma ProductError(q: real, a: real, b: real, r: real, x: real, y: real, z: real, da: real, db: real)
    requires q > 0.0 && 0.0 <= b <= q && 0.0 <= x <= q && Mul(x, y) == Mul(z, q)
    requires Near(a, x, da) && Near(b, y, db) && Near(Mul(r, q), Mul(a, b), Mul(0.5, q))
    ensures Near(r, z, da + db + 0.5)
  {
    hide Mul;
    SplitDifference(a, b, x, y);
    ScaledError(b, q, a - x, da);
    ScaledError(x, q, b - y, db);
    MulComm(q, da);
    MulComm(q, db);
    MulPlus(da, db, q);
    MulPlus(da + db, 0.5, q);
    NearCancel(r, z, da + db + 0.5, q);
  }

  /** One multiplication of `fixed_power_int`. */
  lemma MultiplyError(f: nat, a: nat, b: nat, q: real, e: real, m: nat, p: nat, da: real, db: real)
    requires f > 0 && a <= Pow2(f) && b <= Pow2(f) && q == Pow2(f) as real && 0.0 <= e <= 1.0
    requires Near(a as real, Exact(q, e, m), da) && Near(b as real, Exact(q, e, p), db)
    ensures Near(Round(a * b, f) as real, Exact(q, e, m + p), da + db + 0.5)
    ensures Round(a * b, f) <= Pow2(f)
  {
    hide Pow2, Round, Exact, Mul;
    ProductStaysBelow(a, b, f);
    RoundIsNear(a * b, f, q);
    CastTimes(a, b);
    ExactBounds(q, e, m);
    ExactProduct(q, e, m, p);
    ProductError(q, a as real, b as real, Round(a * b, f) as real,
                 Exact(q, e, m), Exact(q, e, p), Exact(q, e, m + p), da, db);
  }

  // ---------- fast exponentiation

  /** What a product of two weights takes before it is shifted. */
  function Before(a: nat, b: nat, f: nat): nat
    requires f > 0
  {
    a * b + Pow2(f - 1)
  }

  /** `2^(2f) + 2^(f-1)`. */
  function Peak(f: nat): nat
    requires f > 0
  {
    Pow2(f) * Pow2(f) + Pow2(f - 1)
  }

  lemma BeforeIsSmall(a: nat, b: nat, f: nat)
    requires f > 0 && a <= Pow2(f) && b <= Pow2(f)
    ensures Before(a, b, f) <= Peak(f)
  {
    hide Pow2;
    TimesMonotone(b, Pow2(f), a);
    TimesMonotone(a, Pow2(f), Pow2(f));
  }

  function Larger(a: nat, b: nat): nat {
    if a < b then b else a
  }

  /** `fixed_power_int`: within `n/2` units of the last place of the exact power. `peak` is the largest value
      formed on the way; it fits any word that has room for `2^(2f) + 2^(f-1)`. */
  method FixedPowerInt(x0: nat, f: nat, n0: nat) returns (result: nat, ghost peak: nat)
    requires f > 0 && x0 <= Pow2(f)
    ensures result <= Pow2(f) && peak <= Peak(f)
    ensures Near(result as real, Exact(Pow2(f) as real, Quot(x0 as real, Pow2(f) as real), n0), 0.5 * n0 as real)
  {
    hide Round, RealPow, Pow2, Exact, Mul, Quot, Before, Peak;
    result := Pow2(f);
    peak := 0;
    ghost var q := Pow2(f) as real;
    ghost var e := Quot(x0 as real, q);
    StartExact(x0 as real, q);
    if n0 != 0 {
      var x: nat, n: nat := x0, n0;
      ghost var m: nat, p: nat := 0, 1;
      while true
        invariant n >= 1 && p >= 1 && n0 == m + p * n
        invariant x <= Pow2(f) && result <= Pow2(f) && peak <= Peak(f)
        invariant Near(x as real, Exact(q, e, p), 0.5 * (p - 1) as real)
        invariant Near(result as real, Exact(q, e, m), 0.5 * m as real)
        decreases n
      {
        HalfTheBits(p, n);
        if n % 2 == 1 {
          MultiplyError(f, result, x, q, e, m, p, 0.5 * m as real, 0.5 * (p - 1) as real);
          BeforeIsSmall(result, x, f);
          peak := Larger(peak, Before(result, x, f));
          result := Round(result * x, f);
          m := m + p;
        }
        n := n / 2;
        if n == 0 { break; }
        MultiplyError(f, x, x, q, e, p, p, 0.5 * (p - 1) as real, 0.5 * (p - 1) as real);
        BeforeIsSmall(x, x, f);
        peak := Larger(peak, Before(x, x, f));
        x := Round(x * x, f);
        p := p + p;
      }
    }
  }

  lemma HalfTheBits(p: nat, n: nat)
    ensures p * n == (p + p) * (n / 2) + if n % 2 == 1 then p else 0
  {
    assert n == 2 * (n / 2) + n % 2;
    assert p * n == p * (2 * (n / 2)) + p * (n % 2);
  }

  // ---------- load averages

  /** `calc_load`, for any number of fractional bits. */
  function CalcLoad(load: nat, exp: nat, active: nat, f: nat): nat
    requires f > 0 && exp <= Pow2(f)
  {
    Round(load * exp + active * (Pow2(f) - exp), f)
  }

  /** `n` successive applications of `calc_load`. */
  function CalcLoadSteps(load: nat, exp: nat, active: nat, f: nat, n: nat): nat
    requires f > 0 && exp <= Pow2(f)
  {
    if n == 0 then load else CalcLoad(CalcLoadSteps(load, exp, active, f, n - 1), exp, active, f)
  }

  /** The weighted mean of load and active, before rounding. */
  function Mix(load: real, w: real, active: real): real {
    active + Mul(load - active, w)
  }

  lemma CastMix(load: nat, exp: nat, active: nat, n: nat)
    requires exp <= n
    ensures (load * exp + active * (n - exp)) as real
         == Mul(load as real, exp as real) + Mul(active as real, n as real) - Mul(active as real, exp as real)
  {
    hide Mul;
    CastTimes(load, exp);
    CastTimes(active, n);
    CastTimes(active, exp);
    assert active * (n - exp) == active * n - active * exp;
  }

  lemma MixTimes(load: real, x: real, active: real, q: real)
    requires q > 0.0
    ensures Mul(Mix(load, Quot(x, q), active), q) == Mul(load, x) + Mul(active, q) - Mul(active, x)
  {
    hide Mul, Quot;
    var w := Quot(x, q);
    QuotTimes(x, q);
    MulPlus(active, Mul(load - active, w), q);
    MulAssoc(load - active, w, q);
    MulMinus(load, active, x);
  }

  /** One `calc_load` is within half a unit of the exact mean. */
  lemma CalcLoadIsNear(load: nat, exp: nat, active: nat, f: nat, q: real)
    requires f > 0 && exp <= Pow2(f) && q == Pow2(f) as real
    ensures Near(CalcLoad(load, exp, active, f) as real, Mix(load as real, Quot(exp as real, q), active as real), 0.5)
  {
    hide Pow2, Round, Mix, Mul, Quot;
    CastMix(load, exp, active, Pow2(f));
    MixTimes(load as real, exp as real, active as real, q);
    RoundIsNear(load * exp + active * (Pow2(f) - exp), f, q);
    NearCancel(CalcLoad(load, exp, active, f) as real, Mix(load as real, Quot(exp as real, q), active as real), 0.5, q);
  }

  /** Mixing once more scales the old error by the weight. */
  lemma MixStep(load: real, l: real, e: real, p: real, active: real, d: real)
    requires 0.0 <= e <= 1.0 && Near(l, Mix(load, p, active), d)
    ensures Near(Mix(l, e, active), Mix(load, Mul(e, p), active), d)
  {
    hide Mul;
    var c := load - active;
    ScaledError(e, 1.0, l - Mix(load, p, active), d);
    MulUnit(d);
    MulMinus(l - active, Mul(c, p), e);
    MulComm(l - Mix(load, p, active), e);
    MulComm(Mul(c, p), e);
    MulAssoc(e, c, p);
    MulComm(e, c);
    MulAssoc(c, e, p);
    assert l - active - Mul(c, p) == l - Mix(load, p, active);
  }

  lemma NextStepIsNear(load: nat, l: nat, exp: nat, active: nat, f: nat, q: real, e: real, p: real, d: real)
    requires f > 0 && exp <= Pow2(f) && q == Pow2(f) as real && e == Quot(exp as real, q) && 0.0 <= e <= 1.0
    requires Near(l as real, Mix(load as real, p, active as real), d)
    ensures Near(CalcLoad(l, exp, active, f) as real, Mix(load as real, Mul(e, p), active as real), 0.5 + d)
  {
    hide Pow2, Round, CalcLoad, Mix, Mul, Quot;
    CalcLoadIsNear(l, exp, active, f, q);
    MixStep(load as real, l as real, e, p, active as real, d);
    NearChain(CalcLoad(l, exp, active, f) as real, Mix(l as real, e, active as real),
              Mix(load as real, Mul(e, p), active as real), 0.5, d);
  }

  /** Each further step adds half a unit: the old error is scaled by a weight of at most one. */
  lemma {:induction false} StepsAreNear(load: nat, exp: nat, active: nat, f: nat, n: nat, q: real, e: real)
    requires f > 0 && exp <= Pow2(f) && q == Pow2(f) as real && e == Quot(exp as real, q)
    ensures Near(CalcLoadSteps(load, exp, active, f, n) as real, Mix(load as real, RealPow(e, n), active as real),
                 0.5 * n as real)
  {
    hide Pow2, Round, CalcLoad, Mul, Quot, Exact;
    if n == 0 {
      MulUnit(load as real - active as real);
    } else {
      hide Mix;
      StepsAreNear(load, exp, active, f, n - 1, q, e);
      StartExact(exp as real, q);
      NextStepIsNear(load, CalcLoadSteps(load, exp, active, f, n - 1), exp, active, f, q, e,
                     RealPow(e, n - 1), 0.5 * (n - 1) as real);
    }
  }

  /** An error in the weight moves the mean by that error times the distance. */
  lemma MixWeight(load: real, active: real, w: real, p: real, k: real, dist: real)
    requires Near(w, p, k) && (dist == load - active || dist == active - load) && dist >= 0.0
    ensures Near(Mix(load, w, active), Mix(load, p, active), Mul(dist, k))
  {
    hide Mul;
    ScaledError(dist, dist, w - p, k);
    MulComm(dist, w - p);
    MulMinus(w, p, dist);
    MulComm(w, dist);
    MulComm(p, dist);
    MulMinus(0.0, dist, w);
    MulMinus(0.0, dist, p);
    MulUnit(w);
    MulUnit(p);
    assert load - active == dist || load - active == 0.0 - dist;
  }

  function Distance(a: nat, b: nat): nat {
    if a > b then a - b else b - a
  }

  /** `n/2` units of accumulated rounding, half a unit of the big step, and the error of the
      power scaled by how far load and active are apart. */
  function LoadBound(load: nat, active: nat, f: nat, n: nat): real {
    0.5 + Mul(Distance(load, active) as real, Quot(0.5 * n as real, Pow2(f) as real)) + 0.5 * n as real
  }

  lemma WeightIsNear(w: real, q: real, e: real, n: nat)
    requires q > 0.0 && Near(w, Exact(q, e, n), 0.5 * n as real)
    ensures Near(Quot(w, q), RealPow(e, n), Quot(0.5 * n as real, q))
  {
    hide Mul, Quot, RealPow;
    QuotTimes(w, q);
    QuotTimes(0.5 * n as real, q);
    MulComm(q, RealPow(e, n));
    NearCancel(Quot(w, q), RealPow(e, n), Quot(0.5 * n as real, q), q);
  }

  lemma JoinBounds(r: real, mixed: real, exact: real, steps: real, d: real, d': real)
    requires Near(r, mixed, 0.5) && Near(mixed, exact, d) && Near(steps, exact, d')
    ensures Near(r, steps, 0.5 + d + d')
  {
  }

  lemma BigStepIsNear(load: nat, exp: nat, active: nat, f: nat, n: nat, w: nat, q: real, e: real, k: real)
    requires f > 0 && exp <= Pow2(f) && w <= Pow2(f) && q == Pow2(f) as real && e == Quot(exp as real, q)
    requires Near(Quot(w as real, q), RealPow(e, n), k)
    ensures Near(CalcLoad(load, w, active, f) as real, CalcLoadSteps(load, exp, active, f, n) as real,
                 0.5 + Mul(Distance(load, active) as real, k) + 0.5 * n as real)
  {
    hide Pow2, Round, CalcLoad, CalcLoadSteps, Mix, RealPow, Mul, Quot;
    CalcLoadIsNear(load, w, active, f, q);
    StepsAreNear(load, exp, active, f, n, q, e);
    var dist := Distance(load, active) as real;
    MixWeight(load as real, active as real, Quot(w as real, q), RealPow(e, n), k, dist);
    JoinBounds(CalcLoad(load, w, active, f) as real, Mix(load as real, Quot(w as real, q), active as real),
               Mix(load as real, RealPow(e, n), active as real), CalcLoadSteps(load, exp, active, f, n) as real,
               Mul(dist, k), 0.5 * n as real);
  }

  /** What `calc_load` shifts right stays below a word if the larger of its two arguments does with
      `f + 1` bits to spare. */
  lemma SumFitsWord(load: nat, exp: nat, active: nat, f: nat, word: nat)
    requires f > 0 && exp <= Pow2(f)
    requires (if load < active then active else load) * Pow2(f) + Pow2(f - 1) < word
    ensures load * exp + active * (Pow2(f) - exp) + Pow2(f - 1) < word
  {
    var m, p := if load < active then active else load, Pow2(f);
    hide Pow2;
    assert load * exp <= m * exp;
    assert active * (p - exp) <= m * (p - exp);
    assert m * exp + m * (p - exp) == m * p;
  }

  /** `calc_load_n`: one step with the power of the weight instead of `n` steps. */
  method CalcLoadN(load: nat, exp: nat, active: nat, f: nat, n: nat) returns (r: nat)
    requires f > 0 && exp <= Pow2(f)
    ensures Near(r as real, CalcLoadSteps(load, exp, active, f, n) as real, LoadBound(load, active, f, n))
  {
    hide Pow2, Round, CalcLoad, CalcLoadSteps, Exact, RealPow, Mul, Quot;
    ghost var peak;
    var w;
    w, peak := FixedPowerInt(exp, f, n);
    r := CalcLoad(load, w, active, f);
    ghost var q := Pow2(f) as real;
    ghost var e := Quot(exp as real, q);
    WeightIsNear(w as real, q, e, n);
    BigStepIsNear(load, exp, active, f, n, w, q, e, Quot(0.5 * n as real, q));
  }
}
