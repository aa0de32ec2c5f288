/** Bit operations on unbounded naturals, and counting of residue classes. */
module Bits {

  function Pow2(k: nat): (p: nat)
    ensures p >= 1
  {
    if k == 0 then 1 else 2 * Pow2(k - 1)
  }

  function Xor(a: nat, b: nat): nat
  {
    if a == 0 && b == 0 then 0 else (a + b) % 2 + 2 * Xor(a / 2, b / 2)
  }

  function And(a: nat, b: nat): nat
  {
    if a == 0 then 0 else a % 2 * (b % 2) + 2 * And(a / 2, b / 2)
  }

  function Shr(a: nat, k: nat): nat
    decreases k
  {
    if k == 0 then a else Shr(a / 2, k - 1)
  }

  /** The test used by the C code: x & (x - 1) is zero. */
  predicate IsPow2(x: nat)
    requires x > 0
  {
    And(x, x - 1) == 0
  }

  // ----- exclusive or ---------------------------------------------------------

  lemma {:induction false} XorZero(a: nat)
    ensures Xor(a, 0) == a
  {
    if a != 0 { XorZero(a / 2); }
  }

  lemma XorParts(a: nat, b: nat)
    ensures Xor(a, b) / 2 == Xor(a / 2, b / 2) && Xor(a, b) % 2 == (a + b) % 2
  {}

  lemma Parity(x: nat, a: nat, b: nat)
    requires x % 2 == (a + b) % 2
    ensures (x + b) % 2 == a % 2
  {}

  /** Exclusive or with the same word twice restores the original. */
  lemma {:induction false} XorCancel(a: nat, b: nat)
    ensures Xor(Xor(a, b), b) == a
    decreases a + b
  {
    if a != 0 || b != 0 {
      var x := Xor(a, b);
      XorCancel(a / 2, b / 2);
      XorParts(a, b);
      Parity(x, a, b);
      XorParts(x, b);
    }
  }

  lemma {:induction false} XorBound(a: nat, b: nat, k: nat)
    requires a < Pow2(k) && b < Pow2(k)
    ensures Xor(a, b) < Pow2(k)
  {
    if k != 0 { XorBound(a / 2, b / 2, k - 1); }
  }

  lemma {:induction false} XorShr(a: nat, b: nat, k: nat)
    ensures Shr(Xor(a, b), k) == Xor(Shr(a, k), Shr(b, k))
    decreases k
  {
    if k != 0 {
      XorShr(a / 2, b / 2, k - 1);
      assert Xor(a, b) / 2 == Xor(a / 2, b / 2);
    }
  }

  lemma {:induction false} ShrVanishes(a: nat, k: nat)
    requires a < Pow2(k)
    ensures Shr(a, k) == 0
    decreases k
  {
    if k != 0 { ShrVanishes(a / 2, k - 1); }
  }

  lemma {:induction false} ShrShr(a: nat, j: nat, k: nat)
    ensures Shr(Shr(a, j), k) == Shr(a, j + k)
    decreases j
  {
    if j != 0 { ShrShr(a / 2, j - 1, k); }
  }

  // ----- masks and powers of two ----------------------------------------------

  lemma MulAtLeast(d: int, x: int)
    requires d > 0 && x >= 1
    ensures d * x >= d
  {}

  lemma QuotientUnique(d: int, q: int, r: int, q': int, r': int)
    requires d > 0 && d * q + r == d * q' + r' && 0 <= r < d && 0 <= r' < d
    ensures q == q' && r == r'
  {
    assert d * (q - q') == d * q - d * q' && d * (q' - q) == d * q' - d * q;
    if q > q' { MulAtLeast(d, q - q'); }
    if q < q' { MulAtLeast(d, q' - q); }
  }

  lemma DivModUnique(a: int, d: int, q: int, r: int)
    requires d > 0 && a == d * q + r && 0 <= r < d
    ensures a / d == q && a % d == r
  {
    QuotientUnique(d, q, r, a / d, a % d);
  }

  lemma DivMod(a: int, d: int)
    requires d > 0
    ensures a == d * (a / d) + a % d && 0 <= a % d < d
  {}

  lemma ModDouble(h: nat, p: nat)
    requires p > 0
    ensures h % (2 * p) == h % 2 + 2 * (h / 2 % p)
  {
    var q, r := h / 2 / p, h / 2 % p;
    assert h / 2 == p * q + r;
    assert h == 2 * (p * q + r) + h % 2;
    assert 2 * (p * q + r) == 2 * p * q + 2 * r;
    DivModUnique(h, 2 * p, q, 2 * r + h % 2);
  }

  /** The remainder, as a function that a proof need not unfold. */
  function Mod(a: nat, d: nat): nat
    requires d > 0
  {
    a % d
  }

  lemma ModTwice(h: nat, p: nat)
    requires p > 0
    ensures Mod(h, 2 * p) == h % 2 + 2 * Mod(h / 2, p)
  {
    ModDouble(h, p);
  }

  lemma MaskOne(h: nat)
    ensures And(h, 0) == Mod(h, 1)
  {
    AndZero(h);
  }

  lemma MaskStep(h: nat, p: nat)
    requires p > 0 && And(h / 2, p - 1) == Mod(h / 2, p)
    ensures And(h, 2 * p - 1) == Mod(h, 2 * p)
  {
    hide And, Mod;
    ModTwice(h, p);
    AndOddMask(h, p);
  }

  /** Masking with 2^k - 1 is reduction modulo 2^k. */
  lemma {:induction false} AndMask(h: nat, k: nat)
    ensures And(h, Pow2(k) - 1) == Mod(h, Pow2(k))
  {
    hide And, Mod;
    if k == 0 {
      MaskOne(h);
    } else {
      AndMask(h / 2, k - 1);
      MaskStep(h, Pow2(k - 1));
    }
  }

  lemma AndOddMask(h: nat, p: nat)
    requires p >= 1
    ensures And(h, 2 * p - 1) == h % 2 + 2 * And(h / 2, p - 1)
  {
    assert (2 * p - 1) % 2 == 1 && (2 * p - 1) / 2 == p - 1;
  }

  lemma {:induction false} AndZero(a: nat)
    ensures And(a, 0) == 0
  {
    if a != 0 { AndZero(a / 2); }
  }

  lemma {:induction false} AndSelf(a: nat)
    ensures And(a, a) == a
  {
    if a != 0 { AndSelf(a / 2); }
  }

  /** What passes the C test is a power of two, and here is its exponent. */
  lemma {:induction false} IsPow2Exponent(x: nat) returns (k: nat)
    requires x > 0 && IsPow2(x)
    ensures x == Pow2(k)
  {
    if x == 1 {
      k := 0;
    } else {
      var y := x / 2;
      if x % 2 == 0 {
        assert (x - 1) % 2 == 1 && (x - 1) / 2 == y - 1;
        k := IsPow2Exponent(y);
        k := k + 1;
      } else {
        assert (x - 1) / 2 == y;
        AndSelf(y);
        assert false;
      }
    }
  }

  /** Mask and modulo pick the same slot whenever the size passes the C test. */
  lemma MaskIsModulo(h: nat, n: nat)
    requires n > 0 && IsPow2(n)
    ensures And(h, n - 1) == h % n
  {
    var k := IsPow2Exponent(n);
    AndMask(h, k);
  }

  // ----- residue classes ------------------------------------------------------

  /** The members of residue class `r` modulo `n` inside the interval [lo, hi). */
  ghost function Residues(lo: nat, hi: nat, n: nat, r: nat): set<int>
    requires n > 0
  {
    set x | lo <= x < hi && x % n == r
  }

  /** The one member of class `r` in the round of `n` integers that starts at `lo`. */
  lemma FirstResidue(lo: nat, n: nat, r: nat) returns (x: nat)
    requires n > 0 && r < n
    ensures lo <= x < lo + n && x % n == r
  {
    var q, m := lo / n, lo % n;
    var p := if r >= m then q else q + 1;
    x := n * p + r;
    assert lo == n * q + m && n * (q + 1) == n * q + n;
    DivModUnique(x, n, p, r);
  }

  lemma SameResidueNear(x: nat, y: nat, lo: nat, n: nat)
    requires n > 0 && x % n == y % n && lo <= x < lo + n && lo <= y < lo + n
    ensures x == y
  {
    var p, q, r := x / n, y / n, x % n;
    assert x == n * p + r && y == n * q + r;
    assert n * (p - q) == n * p - n * q && n * (q - p) == n * q - n * p;
    if p > q { MulAtLeast(n, p - q); }
    if p < q { MulAtLeast(n, q - p); }
  }

  /** Any `n` consecutive integers hit each residue class once. */
  lemma OneResiduePerRound(lo: nat, n: nat, r: nat)
    requires n > 0 && r < n
    ensures |Residues(lo, lo + n, n, r)| == 1
  {
    var x := FirstResidue(lo, n, r);
    var all := Residues(lo, lo + n, n, r);
    assert x in all;
    forall y: int | y in all ensures y == x {
      SameResidueNear(x, y, lo, n);
    }
    assert all == {x};
  }

  lemma DivModStep(len: nat, n: nat)
    requires n > 0 && len >= n
    ensures len / n == (len - n) / n + 1 && len % n == (len - n) % n
  {
    var q, m := (len - n) / n, (len - n) % n;
    assert len - n == n * q + m && n * (q + 1) == n * q + n;
    DivModUnique(len, n, q + 1, m);
  }

  lemma ResidueSplit(lo: nat, mid: nat, hi: nat, n: nat, r: nat)
    requires n > 0 && lo <= mid <= hi
    ensures |Residues(lo, hi, n, r)| == |Residues(lo, mid, n, r)| + |Residues(mid, hi, n, r)|
  {
    var a, b := Residues(lo, mid, n, r), Residues(mid, hi, n, r);
    assert Residues(lo, hi, n, r) == a + b && a !! b;
  }

  /** An interval of length `len` meets every residue class `len / n` times, or once more. */
  lemma {:induction false} ResidueCount(lo: nat, len: nat, n: nat, r: nat)
    requires n > 0 && r < n
    ensures len / n <= |Residues(lo, lo + len, n, r)| <= len / n + (if len % n == 0 then 0 else 1)
    decreases len
  {
    OneResiduePerRound(lo, n, r);
    if len < n {
      Subset(Residues(lo, lo + len, n, r), Residues(lo, lo + n, n, r));
      DivModUnique(len, n, 0, len);
      if len == 0 { assert Residues(lo, lo + len, n, r) == {}; }
    } else {
      ResidueSplit(lo, lo + n, lo + len, n, r);
      ResidueCount(lo + n, len - n, n, r);
      DivModStep(len, n);
    }
  }

  lemma {:induction false} Subset<T>(a: set<T>, b: set<T>)
    requires a <= b
    ensures |a| <= |b|
  {
    if a != {} {
      var x :| x in a;
      Subset(a - {x}, b - {x});
    }
  }

  /** Two finite sets matched by mutually inverse functions have the same size. */
  lemma {:induction false} MatchedSize<T, U>(a: set<T>, b: set<U>, f: T -> U, g: U -> T)
    requires forall x :: x in a ==> f(x) in b && g(f(x)) == x
    requires forall y :: y in b ==> g(y) in a && f(g(y)) == y
    ensures |a| == |b|
  {
    if x :| x in a {
      MatchedSize(a - {x}, b - {f(x)}, f, g);
    } else {
      assert forall y :: y in b ==> g(y) in a;
      assert b == {};
    }
  }
}
