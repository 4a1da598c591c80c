/** Powers of two: masking, multiples, and the rounding that sizes the circular buffer. */
module PowersOfTwo {
  import opened Options

  const USIZE_TOP_BIT: nat := 0x8000_0000_0000_0000
  const USIZE_LIMIT: nat := 0x1_0000_0000_0000_0000

  function Pow2(k: nat): (p: nat)
    ensures p > 0
  {
    if k == 0 then 1 else 2 * Pow2(k - 1)
  }

  ghost predicate IsPow2(n: nat) {
    exists k: nat :: n == Pow2(k)
  }

  /** Bitwise and of unsigned integers. */
  function BitAnd(a: nat, b: nat): nat {
    if a == 0 || b == 0 then 0
    else (if a % 2 == 1 && b % 2 == 1 then 1 else 0) + 2 * BitAnd(a / 2, b / 2)
  }

  /** `p2_modulo`. */
  function P2Modulo(n: nat, m: nat): nat
    requires m > 0
  {
    BitAnd(n, m - 1)
  }

  // ---------------------------------------------------------------------------------------------
  // Masking
  // ---------------------------------------------------------------------------------------------

  lemma ProductsAscend(m: nat, a: int, b: int)
    requires a <= b
    ensures m * a <= m * b
  {}

  lemma ModUnique(n: int, m: int, q: int, r: int)
    requires 0 <= r < m && n == m * q + r
    ensures n % m == r && n / m == q
  {
    var d := q - n / m;
    assert m * d == n % m - r by {
      assert n == m * (n / m) + n % m;
      assert m * d == m * q - m * (n / m);
    }
    if d >= 1 {
      ProductsAscend(m, 1, d);
    } else if d <= -1 {
      ProductsAscend(m, d, -1);
    }
  }

  lemma ModDouble(n: nat, m: nat)
    requires m > 0
    ensures n % (2 * m) == n % 2 + 2 * ((n / 2) % m)
  {
    var q, r := (n / 2) / m, (n / 2) % m;
    assert n / 2 == m * q + r;
    assert n == (2 * m) * q + (n % 2 + 2 * r) by {
      assert n == 2 * (m * q + r) + n % 2;
    }
    ModUnique(n, 2 * m, q, n % 2 + 2 * r);
  }

  lemma AndHalves(n: nat, m: nat)
    requires m > 0
    ensures BitAnd(n, 2 * m - 1) == n % 2 + 2 * BitAnd(n / 2, m - 1)
  {}

  lemma MaskDoubles(n: nat, m: nat)
    requires m > 0 && BitAnd(n / 2, m - 1) == (n / 2) % m
    ensures BitAnd(n, 2 * m - 1) == n % (2 * m)
  {
    hide BitAnd;
    AndHalves(n, m);
    ModDouble(n, m);
  }

  lemma {:induction false} MaskIsModulo(n: nat, k: nat)
    ensures BitAnd(n, Pow2(k) - 1) == n % Pow2(k)
    decreases k
  {
    hide BitAnd;
    if k == 0 {
      MaskZero(n);
    } else {
      MaskIsModulo(n / 2, k - 1);
      MaskDoubles(n, Pow2(k - 1));
    }
  }

  lemma MaskZero(n: nat)
    ensures BitAnd(n, 0) == n % 1
  {}

  /** The bit trick is the remainder, for every power of two. */
  lemma P2ModuloIsModulo(n: nat, m: nat)
    requires IsPow2(m)
    ensures m > 0 && P2Modulo(n, m) == n % m
  {
    var k: nat :| m == Pow2(k);
    MaskIsModulo(n, k);
  }

  // ---------------------------------------------------------------------------------------------
  // Rounding up
  // ---------------------------------------------------------------------------------------------

  /** `checked_next_multiple_of`. */
  function NextMultiple(n: nat, m: nat): Option<nat>
    requires m > 0
  {
    if n % m == 0 then Some(n)
    else if n + (m - n % m) < USIZE_LIMIT then Some(n + (m - n % m))
    else None
  }

  /** `p`, doubled until it is at least `n`. */
  function Doubled(p: nat, n: nat): nat
    requires p > 0
    decreases n - p
  {
    if p >= n then p else Doubled(2 * p, n)
  }

  /** `checked_next_power_of_two`, which takes zero to one. */
  function NextPowerOfTwo(n: nat): Option<nat> {
    if n > USIZE_TOP_BIT then None else Some(Doubled(1, n))
  }

  /** `calculate_length`; the page size is what the operating system says. */
  function CalculateLength(length: nat, page: nat): Option<nat>
    requires page > 0
  {
    var multiple := NextMultiple(length, page);
    if multiple.None? then None else NextPowerOfTwo(multiple.value)
  }

  lemma {:induction false} Pow2Divides(j: nat, k: nat)
    requires j <= k
    ensures Pow2(j) <= Pow2(k) && Pow2(k) % Pow2(j) == 0
    decreases k
  {
    if j == k {
      ModUnique(Pow2(k), Pow2(j), 1, 0);
    } else {
      Pow2Divides(j, k - 1);
      var q := Pow2(k - 1) / Pow2(j);
      assert Pow2(k - 1) == Pow2(j) * q;
      assert Pow2(k) == Pow2(j) * (2 * q);
      ModUnique(Pow2(k), Pow2(j), 2 * q, 0);
    }
  }

  /** The larger of two powers of two is a multiple of the smaller, and at least its double unless they are equal. */
  lemma LargerPow2(p: nat, q: nat)
    requires IsPow2(p) && IsPow2(q) && p <= q
    ensures p > 0 && q % p == 0 && (p < q ==> 2 * p <= q)
  {
    var j: nat :| p == Pow2(j);
    var k: nat :| q == Pow2(k);
    if k < j {
      Pow2Divides(k, j);
    }
    Pow2Divides(j, if k < j then j else k);
    if p < q {
      Pow2Divides(j + 1, k);
    }
  }

  lemma {:induction false} DoubledIsLeast(p: nat, n: nat)
    requires IsPow2(p) && p > 0
    ensures IsPow2(Doubled(p, n)) && Doubled(p, n) >= n && Doubled(p, n) >= p
    ensures forall q: nat :: IsPow2(q) && q >= n && q >= p ==> q >= Doubled(p, n)
    decreases n - p
  {
    if p < n {
      var k: nat :| p == Pow2(k);
      assert 2 * p == Pow2(k + 1);
      DoubledIsLeast(2 * p, n);
      forall q: nat | IsPow2(q) && q >= n && q >= p ensures q >= 2 * p {
        LargerPow2(p, q);
      }
    }
  }

  lemma QuotientIsLarger(m: nat, a: nat, b: nat, r: nat)
    requires m * b >= m * a + r && r > 0
    ensures m * b >= m * (a + 1)
  {}

  /** A multiple of `m` that is at least `n` is at least the rounded-up `n`. */
  lemma NextMultipleIsLeast(n: nat, m: nat, q: nat)
    requires m > 0 && q % m == 0 && q >= n
    ensures n % m == 0 ==> q >= n
    ensures n % m != 0 ==> q >= n + (m - n % m)
  {
    var a, b := n / m, q / m;
    assert n == m * a + n % m && q == m * b;
    if n % m != 0 {
      QuotientIsLarger(m, a, b, n % m);
    }
  }

  lemma NextMultipleIsMultiple(n: nat, m: nat)
    requires m > 0
    ensures (n + (m - n % m)) % m == 0
  {
    ModUnique(n + (m - n % m), m, n / m + 1, 0);
  }

  lemma {:induction false} Pow2Sum(j: nat, k: nat)
    ensures Pow2(j + k) == Pow2(j) * Pow2(k)
  {
    if k > 0 {
      Pow2Sum(j, k - 1);
    }
  }

  lemma Pow2Squares(k: nat, p: nat)
    requires Pow2(k) == p
    ensures Pow2(2 * k + 1) == 2 * (p * p)
  {
    Pow2Sum(k, k);
  }

  lemma TopBit()
    ensures Pow2(63) == USIZE_TOP_BIT
  {
    Pow2Squares(1, 2);
    hide Pow2;
    Pow2Squares(3, 8);
    Pow2Squares(7, 0x80);
    Pow2Squares(15, 0x8000);
    Pow2Squares(31, 0x8000_0000);
  }

  lemma TopBitIsPow2()
    ensures IsPow2(USIZE_TOP_BIT) && IsPow2(1)
  {
    assert Pow2(0) == 1;
    TopBit();
  }

  lemma HalfTopBitIsPow2()
    ensures IsPow2(USIZE_TOP_BIT / 2)
  {
    TopBit();
    assert Pow2(63) == 2 * Pow2(62);
  }

  /** Beyond half the top bit the next power of two is the top bit. */
  lemma LargerThanHalf(r: nat)
    requires IsPow2(r) && r > USIZE_TOP_BIT / 2
    ensures r >= USIZE_TOP_BIT
  {
    HalfTopBitIsPow2();
    LargerPow2(USIZE_TOP_BIT / 2, r);
  }

  /**
   For a length of at least 1: it fails exactly if no power of two in a `usize` is large enough, and
   otherwise yields the least power of two that is at least the length and at least a page, so whole pages.
   */
  lemma CalculatesLeastPower(length: nat, page: nat)
    requires length >= 1 && IsPow2(page) && page <= USIZE_TOP_BIT
    ensures page > 0 && (CalculateLength(length, page).None? <==> length > USIZE_TOP_BIT)
    ensures CalculateLength(length, page).Some? ==>
      var r := CalculateLength(length, page).value;
      && IsPow2(r) && r >= length && r >= page && r % page == 0 && r < USIZE_LIMIT
      && forall q: nat :: IsPow2(q) && q >= length && q >= page ==> q >= r
  {
    TopBitIsPow2();
    LargerPow2(page, USIZE_TOP_BIT);
    if length <= USIZE_TOP_BIT {
      NextMultipleIsLeast(length, page, USIZE_TOP_BIT);
      NextMultipleIsMultiple(length, page);
      var m := NextMultiple(length, page).value;
      MultipleIsWholePages(m, page);
      DoubledIsLeast(1, m);
      var r := Doubled(1, m);
      LargerPow2(page, r);
      forall q: nat | IsPow2(q) && q >= length && q >= page ensures q >= r {
        LargerPow2(page, q);
        NextMultipleIsLeast(length, page, q);
      }
    }
  }

  lemma MultipleIsWholePages(m: nat, page: nat)
    requires page > 0 && m % page == 0 && m >= 1
    ensures m >= page
  {}

  /** Length 0 yields 1 whatever the page size, so a result is whole pages exactly if something was asked for. */
  lemma WholePagesExactly(length: nat, page: nat)
    requires IsPow2(page) && page <= USIZE_TOP_BIT && length <= USIZE_TOP_BIT
    ensures page > 0 && CalculateLength(length, page).Some?
    ensures CalculateLength(length, page).value % page == 0 <==> length >= 1 || page == 1
    ensures length == 0 ==> CalculateLength(length, page).value == 1
  {
    if length >= 1 {
      CalculatesLeastPower(length, page);
    } else {
      TopBitIsPow2();
      LargerPow2(page, USIZE_TOP_BIT);
      assert NextMultiple(0, page) == Some(0);
    }
  }
}
