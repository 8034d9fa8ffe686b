/** 32-bit unsigned arithmetic as the C sources use it, and the masking trick of the ring queue. */
module Words {
  const WORD: nat := 0x1_0000_0000

  type byte = bv8

  /** Unsigned subtraction: the value of `a - b` in C when both are 32-bit words. */
  function Minus(a: nat, b: nat): (r: int)
    ensures b < WORD ==> r >= 0
  {
    if a >= b then a - b else a - b + WORD
  }

  /** Bitwise and of two non-negative integers. */
  function And(a: nat, b: nat): (r: nat)
    ensures r <= b
  {
    if a == 0 || b == 0 then 0
    else (if a % 2 == 1 && b % 2 == 1 then 1 else 0) + 2 * And(a / 2, b / 2)
  }

  function Pow2(k: nat): (r: nat)
    ensures r >= 1
  {
    if k == 0 then 1 else 2 * Pow2(k - 1)
  }

  /** The capacity test of the queue: exactly one bit is set. */
  predicate PowerOfTwo(c: nat) {
    c > 0 && And(c, c - 1) == 0
  }

  lemma {:induction false} AndSelf(a: nat)
    ensures And(a, a) == a
  {
    if a > 0 {
      AndSelf(a / 2);
    }
  }

  /** The bit test accepts exactly the powers of two. */
  lemma {:induction false} PowerOfTwoMeaning(c: nat)
    ensures PowerOfTwo(c) <==> exists k :: Pow2(k) == c
  {
    if PowerOfTwo(c) {
      var k := Log2(c);
      assert Pow2(k) == c;
    }
    if k :| Pow2(k) == c {
      Pow2Passes(k);
    }
  }

  lemma {:induction false} Log2(c: nat) returns (k: nat)
    requires PowerOfTwo(c)
    ensures Pow2(k) == c
  {
    if c == 1 {
      k := 0;
      assert Pow2(0) == 1;
    } else if c % 2 == 1 {
      assert (c - 1) / 2 == c / 2;
      AndSelf(c / 2);
      assert false;
    } else {
      assert (c - 1) / 2 == c / 2 - 1;
      k := Log2(c / 2);
      k := k + 1;
    }
  }

  lemma {:induction false} Pow2Passes(k: nat)
    ensures PowerOfTwo(Pow2(k))
  {
    if k > 0 {
      Pow2Passes(k - 1);
      var h := Pow2(k - 1);
      assert (2 * h - 1) / 2 == h - 1 && 2 * h / 2 == h;
    }
  }

  lemma Scale(d: int, n: nat)
    requires n > 0
    ensures d > 0 ==> d * n >= n
    ensures d < 0 ==> d * n + n <= 0
  {
  }

  lemma ModUnique(t: nat, n: nat, q: nat, r: nat)
    requires n > 0 && r < n && t == q * n + r
    ensures t % n == r
  {
    var d := t / n - q;
    assert d * n == r - t % n;
    Scale(d, n);
  }

  lemma HalveMod(t: nat, h: nat)
    requires h > 0
    ensures t % (2 * h) == t % 2 + 2 * ((t / 2) % h)
  {
    var q, r := (t / 2) / h, (t / 2) % h;
    assert t / 2 == q * h + r;
    assert t == q * (2 * h) + (2 * r + t % 2);
    ModUnique(t, 2 * h, q, 2 * r + t % 2);
  }

  lemma ModPeriodic(a: nat, c: nat)
    requires c > 0
    ensures (a + c) % c == a % c
  {
    assert a + c == (a / c + 1) * c + a % c;
    ModUnique(a + c, c, a / c + 1, a % c);
  }

  lemma {:induction false} AddMultiple(x: nat, k: nat)
    ensures (x + k * WORD) % WORD == x % WORD
  {
    if k > 0 {
      AddMultiple(x, k - 1);
      assert x + k * WORD == x + (k - 1) * WORD + WORD;
    }
  }

  /** Adding to a counter cut to 32 bits. */
  lemma AddMod(a: nat, b: nat)
    ensures (a % WORD + b) % WORD == (a + b) % WORD
  {
    Divide(a, WORD);
    AddMultiple(a % WORD + b, a / WORD);
  }

  /** A counter advanced by less than 2^32 wraps once at most. */
  lemma AddWrap(a: nat, n: nat)
    requires n < WORD
    ensures (a + n) % WORD == if a % WORD + n < WORD then a % WORD + n else a % WORD + n - WORD
  {
    AddMod(a, n);
  }

  /** The difference of two wrapped counters is the true one. */
  lemma MinusWraps(a: nat, n: nat)
    requires n < WORD
    ensures Minus((a + n) % WORD, a % WORD) == n
  {
    AddWrap(a, n);
  }

  lemma ModInjective(a: nat, b: nat, c: nat)
    requires c > 0 && a <= b < a + c && a % c == b % c
    ensures a == b
  {
    var d := b / c - a / c;
    assert b - a == d * c;
    Scale(d, c);
  }

  lemma ModOfMod(t: nat, w: nat, m: nat, c: nat)
    requires c > 0 && w > 0 && w == m * c
    ensures (t % w) % c == t % c
  {
    Divide(t, w);
    ModOfRest(t, t / w, m, c, t % w);
  }

  lemma ModOfRest(t: nat, q: nat, m: nat, c: nat, r: nat)
    requires c > 0 && t == q * (m * c) + r
    ensures r % c == t % c
  {
    Regroup(q, m, c, r);
    var k := q * m + r / c;
    ModUnique(t, c, k, r % c);
  }

  lemma Divide(t: nat, w: nat)
    requires w > 0
    ensures t == (t / w) * w + t % w
  {
  }

  lemma Regroup(q: nat, m: nat, c: nat, r: nat)
    requires c > 0
    ensures q * (m * c) + r == (q * m + r / c) * c + r % c
  {
    assert q * (m * c) == (q * m) * c;
    assert (q * m + r / c) * c == (q * m) * c + (r / c) * c;
  }

  lemma {:induction false} MaskPow2(t: nat, k: nat)
    ensures And(t, Pow2(k) - 1) == t % Pow2(k)
  {
    if t == 0 {
      ModUnique(0, Pow2(k), 0, 0);
    } else if k == 0 {
      assert Pow2(k) == 1;
    } else {
      var h := Pow2(k - 1);
      MaskPow2(t / 2, k - 1);
      MaskStep(t, h);
      assert Pow2(k) == 2 * h;
    }
  }

  lemma MaskStep(t: nat, h: nat)
    requires t > 0 && h > 0
    requires And(t / 2, h - 1) == (t / 2) % h
    ensures And(t, 2 * h - 1) == t % (2 * h)
  {
    AndOddMask(t, h);
    HalveMod(t, h);
  }

  lemma AndOddMask(t: nat, h: nat)
    requires t > 0 && h > 0
    ensures And(t, 2 * h - 1) == t % 2 + 2 * And(t / 2, h - 1)
  {
    var m := 2 * h - 1;
    assert m / 2 == h - 1 && m % 2 == 1;
  }

  /** Masking a position with capacity - 1 is reduction modulo the capacity. */
  lemma MaskIsMod(t: nat, c: nat)
    requires PowerOfTwo(c)
    ensures And(t, c - 1) == t % c
  {
    var k := Log2(c);
    MaskPow2(t, k);
  }

  lemma MaskSmall(t: nat, c: nat)
    requires PowerOfTwo(c) && t < c
    ensures And(t, c - 1) == t
  {
    MaskIsMod(t, c);
    ModUnique(t, c, 0, t);
  }

  /** Two positions less than one lap apart share a slot only if they are equal. */
  lemma MaskInjective(a: nat, b: nat, c: nat)
    requires PowerOfTwo(c)
    requires a <= b < a + c
    requires And(a, c - 1) == And(b, c - 1)
    ensures a == b
  {
    MaskIsMod(a, c);
    MaskIsMod(b, c);
    ModInjective(a, b, c);
  }

  /** A full lap comes back to the same slot. */
  lemma MaskPeriodic(a: nat, c: nat)
    requires PowerOfTwo(c)
    ensures And(a + c, c - 1) == And(a, c - 1)
  {
    MaskIsMod(a, c);
    MaskIsMod(a + c, c);
    ModPeriodic(a, c);
  }

  lemma {:induction false} Pow2Splits(j: nat, k: nat)
    requires j <= k
    ensures Pow2(k) == Pow2(k - j) * Pow2(j)
    decreases k - j
  {
    if j < k {
      Pow2Splits(j, k - 1);
      Double(Pow2(k - 1 - j), Pow2(j));
    }
  }

  lemma Double(a: nat, b: nat)
    ensures 2 * (a * b) == (2 * a) * b
  {
  }

  lemma {:induction false} Pow2Monotone(j: nat, k: nat)
    requires j <= k
    ensures Pow2(j) <= Pow2(k)
  {
    if j < k {
      Pow2Monotone(j, k - 1);
    }
  }

  lemma Pow2Of32()
    ensures Pow2(32) == WORD
  {
    assert Pow2(8) == 256;
    assert Pow2(16) == 0x1_0000;
    assert Pow2(24) == 0x100_0000;
  }

  /** A power of two that fits a word divides the word size. */
  lemma WordIsMultiple(c: nat) returns (m: nat)
    requires PowerOfTwo(c) && c < WORD
    ensures m > 0 && WORD == m * c
  {
    var j := Log2(c);
    Pow2Of32();
    if j > 32 {
      Pow2Monotone(32, j);
      assert false;
    }
    Pow2Splits(j, 32);
    m := Pow2(32 - j);
  }

  /** Wrapping a counter to 32 bits does not change the slot it selects. */
  lemma MaskAfterWrap(t: nat, c: nat)
    requires PowerOfTwo(c) && c < WORD
    ensures And(t % WORD, c - 1) == And(t, c - 1)
  {
    var m := WordIsMultiple(c);
    ModOfMod(t, WORD, m, c);
    MaskIsMod(t, c);
    MaskIsMod(t % WORD, c);
  }
}
