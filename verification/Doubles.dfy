/** What adding two whole numbers in JavaScript leaves: the nearest number that a double can hold. */
module Doubles {

  /** The gap between neighbouring doubles around `n`, starting the search at `gap`. */
  function Gap(n: nat, gap: nat): (g: nat)
    requires gap >= 1
    ensures g >= gap && n < 0x20_0000_0000_0000 * g
    ensures g == gap || 0x10_0000_0000_0000 * g <= n
    decreases if n < 0x20_0000_0000_0000 * gap then 0 else n - gap + 1
  {
    if n < 0x20_0000_0000_0000 * gap then gap else Gap(n, 2 * gap)
  }

  /** The double nearest to `n`, ties to the even neighbour: what adding a high and a low word in a
      JavaScript number leaves. */
  function ToDouble(n: nat): nat {
    var gap := Gap(n, 1);
    var low, rest := n / gap, n % gap;
    if 2 * rest < gap || (2 * rest == gap && low % 2 == 0) then low * gap else (low + 1) * gap
  }

  predicate IsDouble(n: nat) {
    n % Gap(n, 1) == 0
  }

  lemma ToDoubleExactly(n: nat)
    ensures ToDouble(n) == n <==> IsDouble(n)
  {
    var gap := Gap(n, 1);
    assert n == gap * (n / gap) + n % gap;
    assert (n / gap + 1) * gap == (n / gap) * gap + gap;
  }

  lemma SmallIsDouble(n: nat)
    requires n <= 0x20_0000_0000_0000
    ensures IsDouble(n)
  {
  }

  /** The first whole number a double cannot hold. */
  lemma FirstGap()
    ensures !IsDouble(0x20_0000_0000_0001) && ToDouble(0x20_0000_0000_0001) == 0x20_0000_0000_0000
  {
    assert Gap(0x20_0000_0000_0001, 1) == 2;
  }

  // ----- What the definitions mean

  function Pow2(k: nat): (p: nat)
    ensures p >= 1
  {
    if k == 0 then 1 else 2 * Pow2(k - 1)
  }

  /** A number of at most 53 binary digits, scaled by a power of two. */
  ghost predicate Scaled(n: nat, digits: nat, k: nat) {
    digits < 0x20_0000_0000_0000 && n == digits * Pow2(k)
  }

  lemma {:induction false} GapIsPower(n: nat, j: nat) returns (k: nat)
    ensures k >= j && Gap(n, Pow2(j)) == Pow2(k)
    decreases if n < 0x20_0000_0000_0000 * Pow2(j) then 0 else n - Pow2(j) + 1
  {
    k := j;
    if n >= 0x20_0000_0000_0000 * Pow2(j) {
      k := GapIsPower(n, j + 1);
    }
  }

  lemma {:induction false} PowSplits(j: nat, k: nat)
    requires j <= k
    ensures Pow2(k) == Pow2(k - j) * Pow2(j)
  {
    if j < k {
      PowSplits(j, k - 1);
      DoubleFirst(Pow2(k - 1 - j), Pow2(j));
    }
  }

  lemma DoubleFirst(a: nat, b: nat)
    ensures 2 * (a * b) == (2 * a) * b
  {
  }

  lemma {:induction false} PowGrows(j: nat, k: nat)
    requires j <= k
    ensures Pow2(j) <= Pow2(k)
  {
    if j < k {
      PowGrows(j, k - 1);
    }
  }

  lemma ProductsGrow(a: nat, b: nat, g: nat)
    requires a <= b
    ensures a * g <= b * g
  {
  }

  lemma FactorsFollow(a: nat, b: nat, g: nat)
    requires a * g < b * g
    ensures a < b
  {
    if b <= a {
      ProductsGrow(b, a, g);
    }
  }

  lemma Divides(n: nat, g: nat)
    requires g >= 1
    ensures n == (n / g) * g + n % g && n < (n / g + 1) * g
  {
    assert (n / g + 1) * g == (n / g) * g + g;
  }

  lemma MultipleOf(n: nat, q: nat, g: nat)
    requires g >= 1 && n == q * g
    ensures n % g == 0 && n / g == q
  {
    Divides(n, g);
    FactorsFollow(q, n / g + 1, g);
    assert (q + 1) * g == q * g + g;
    FactorsFollow(n / g, q + 1, g);
  }

  /** The gap around a scaled number is at most its scale. */
  lemma GapIsSmall(n: nat, digits: nat, scale: nat, gap: nat)
    requires n == digits * scale && digits < 0x20_0000_0000_0000 && scale >= 1
    requires gap == 1 || 0x10_0000_0000_0000 * gap <= n
    ensures gap < 2 * scale
  {
    ProductsGrow(digits, 0x1F_FFFF_FFFF_FFFF, scale);
  }

  /** A scaled number is a multiple of the gap around it. */
  lemma ScaledIsDouble(n: nat, digits: nat, k: nat)
    requires Scaled(n, digits, k)
    ensures IsDouble(n)
  {
    var j := GapIsPower(n, 0);
    GapIsSmall(n, digits, Pow2(k), Pow2(j));
    if j > k {
      PowGrows(k + 1, j);
    }
    PowSplits(j, k);
    Regroups(digits, Pow2(k - j), Pow2(j));
    MultipleOf(n, digits * Pow2(k - j), Pow2(j));
  }

  lemma Regroups(a: nat, b: nat, c: nat)
    ensures a * (b * c) == (a * b) * c
  {
  }

  /** The doubles are the scaled numbers. */
  lemma IsDoubleExactly(n: nat)
    ensures IsDouble(n) <==> exists digits, k :: Scaled(n, digits, k)
  {
    if IsDouble(n) {
      var k := GapIsPower(n, 0);
      Below(n, Pow2(k));
      assert Scaled(n, n / Pow2(k), k);
    }
    if digits, k :| Scaled(n, digits, k) {
      ScaledIsDouble(n, digits, k);
    }
  }

  lemma Below(n: nat, g: nat)
    requires g >= 1 && n < 0x20_0000_0000_0000 * g
    ensures n / g < 0x20_0000_0000_0000 && n == (n / g) * g + n % g
  {
    Divides(n, g);
    FactorsFollow(n / g, 0x20_0000_0000_0000, g);
  }

  /** Rounding gives a double. */
  lemma ToDoubleIsDouble(n: nat)
    ensures IsDouble(ToDouble(n))
  {
    var k := GapIsPower(n, 0);
    var g := Pow2(k);
    Below(n, g);
    var q := n / g;
    var up := if ToDouble(n) == q * g then q else q + 1;
    if up < 0x20_0000_0000_0000 {
      ScaledIsDouble(up * g, up, k);
    } else {
      assert up * g == 0x10_0000_0000_0000 * Pow2(k + 1);
      ScaledIsDouble(up * g, 0x10_0000_0000_0000, k + 1);
    }
  }

  function Distance(a: nat, b: nat): nat {
    if a <= b then b - a else a - b
  }

  /** What rounding moves a number by is the way to the nearer of the two multiples around it. */
  lemma RoundingMoves(n: nat)
    ensures var g := Gap(n, 1);
            Distance(n, ToDouble(n)) <= n % g && Distance(n, ToDouble(n)) <= g - n % g
  {
    var g := Gap(n, 1);
    Divides(n, g);
    assert (n / g + 1) * g == (n / g) * g + g;
  }

  lemma MultiplesAreNoNearer(n: nat, g: nat, m: nat)
    requires g >= 1
    ensures Distance(n, m * g) >= n % g || Distance(n, m * g) >= g - n % g
  {
    var q := n / g;
    Divides(n, g);
    if m <= q {
      ProductsGrow(m, q, g);
    } else {
      ProductsGrow(q + 1, m, g);
      assert (q + 1) * g == q * g + g;
    }
  }

  /** A double with a finer gap is below the multiple of the coarser gap that is just below `n`. */
  lemma FinerIsBelow(n: nat, d: nat, g: nat, finer: nat)
    requires g >= 1 && 2 * finer <= g && d < 0x20_0000_0000_0000 * finer && 0x10_0000_0000_0000 * g <= n
    ensures Distance(n, d) >= n % g
  {
    Divides(n, g);
    FactorsFollow(0x10_0000_0000_0000, n / g + 1, g);
    ProductsGrow(0x10_0000_0000_0000, n / g, g);
  }

  lemma CoarserIsNoNearer(n: nat, g: nat, d: nat, gd: nat, ratio: nat)
    requires g >= 1 && gd == ratio * g && gd >= 1 && d % gd == 0
    ensures Distance(n, d) >= n % g || Distance(n, d) >= g - n % g
  {
    Divides(d, gd);
    Regroups(d / gd, ratio, g);
    MultiplesAreNoNearer(n, g, (d / gd) * ratio);
  }

  /** No double is nearer to `n` than the one that rounding gives. */
  lemma ToDoubleIsNearest(n: nat, d: nat)
    requires IsDouble(d)
    ensures Distance(n, ToDouble(n)) <= Distance(n, d)
  {
    var k := GapIsPower(n, 0);
    var j := GapIsPower(d, 0);
    RoundingMoves(n);
    if k <= j {
      PowSplits(k, j);
      CoarserIsNoNearer(n, Pow2(k), d, Pow2(j), Pow2(j - k));
    } else {
      PowGrows(j + 1, k);
      FinerIsBelow(n, d, Pow2(k), Pow2(j));
    }
  }

  /** Between two equally near ones it takes the even multiple. */
  lemma TiesGoToEven(n: nat)
    requires 2 * (n % Gap(n, 1)) == Gap(n, 1)
    ensures (ToDouble(n) / Gap(n, 1)) % 2 == 0
  {
    var g := Gap(n, 1);
    var q := n / g;
    if q % 2 == 0 {
      MultipleOf(q * g, q, g);
    } else {
      MultipleOf((q + 1) * g, q + 1, g);
    }
  }
}
