/**
 Arithmetic modulo a prime, as far as the token scheme needs it: powers by repeated squaring
 (client/src/crypto/privacy-pass.js) and the fact that a^(q-2) inverts a.
*/
module PrimeField {

  ghost predicate IsPrime(q: int) {
    q > 1 && forall d :: 1 < d < q ==> q % d != 0
  }

  /** Congruence modulo q. */
  ghost predicate Same(q: int, a: int, b: int)
    requires q > 0
  {
    a % q == b % q
  }

  function Pow(a: int, n: nat): int {
    if n == 0 then 1 else a * Pow(a, n - 1)
  }

  // ----- remainders -----

  lemma QuotientUnique(q: int, a: int, k: int, r: int)
    requires q > 0 && 0 <= r < q && a == q * k + r
    ensures a % q == r && a / q == k
  {
    var d := k - a / q;
    assert q * d == a % q - r by {
      assert a == q * (a / q) + a % q;
      assert q * d == q * k - q * (a / q);
    }
    MultipleIsFar(q, d);
  }

  lemma MultipleIsFar(q: int, d: int)
    requires q > 0
    ensures (d >= 1 ==> q * d >= q) && (d <= -1 ==> q * d <= -q)
  {
  }

  lemma SameBy(q: int, a: int, b: int, k: int)
    requires q > 0 && a == b + q * k
    ensures Same(q, a, b)
  {
    assert a == q * (b / q + k) + b % q;
    QuotientUnique(q, a, b / q + k, b % q);
  }

  lemma SameGap(q: int, a: int, b: int) returns (k: int)
    requires q > 0 && Same(q, a, b)
    ensures a == b + q * k
  {
    k := a / q - b / q;
    assert q * k == q * (a / q) - q * (b / q);
  }

  lemma SameMod(q: int, a: int)
    requires q > 0
    ensures Same(q, a % q, a)
  {
  }

  lemma SameAdd(q: int, a: int, b: int, c: int, d: int)
    requires q > 0 && Same(q, a, b) && Same(q, c, d)
    ensures Same(q, a + c, b + d) && Same(q, a - c, b - d)
  {
    var k := SameGap(q, a, b);
    var l := SameGap(q, c, d);
    assert q * (k + l) == q * k + q * l && q * (k - l) == q * k - q * l;
    SameBy(q, a + c, b + d, k + l);
    SameBy(q, a - c, b - d, k - l);
  }

  lemma SameScale(q: int, a: int, b: int, c: int)
    requires q > 0 && Same(q, a, b)
    ensures Same(q, a * c, b * c) && Same(q, c * a, c * b)
  {
    var k := SameGap(q, a, b);
    assert a * c == b * c + q * (k * c) by {
      assert (b + q * k) * c == b * c + q * k * c;
    }
    SameBy(q, a * c, b * c, k * c);
  }

  lemma SameMul(q: int, a: int, b: int, c: int, d: int)
    requires q > 0 && Same(q, a, b) && Same(q, c, d)
    ensures Same(q, a * c, b * d)
  {
    SameScale(q, a, b, c);
    SameScale(q, c, d, b);
  }

  // ----- a prime divides a product only through a factor -----

  datatype Bezout = Bezout(gcd: nat, x: int, y: int)

  /** Extended Euclid. */
  function Euclid(a: nat, b: nat): Bezout
    decreases b
  {
    if b == 0 then Bezout(a, 1, 0)
    else
      var r := Euclid(b, a % b);
      Bezout(r.gcd, r.y, r.x - (a / b) * r.y)
  }

  lemma BackSubstitute(g: int, a: int, b: int, k: int, m: int, x: int, y: int)
    requires a == b * k + m && g == b * x + m * y
    ensures g == a * y + b * (x - k * y)
  {
  }

  lemma {:induction false} EuclidCombines(a: nat, b: nat)
    ensures var r := Euclid(a, b); r.gcd == a * r.x + b * r.y
    decreases b
  {
    if b != 0 {
      EuclidCombines(b, a % b);
      var r := Euclid(b, a % b);
      BackSubstitute(r.gcd, a, b, a / b, a % b, r.x, r.y);
    }
  }

  ghost predicate Divides(d: int, a: int) {
    exists k :: a == d * k
  }

  lemma {:induction false} EuclidDivides(a: nat, b: nat)
    ensures Divides(Euclid(a, b).gcd, a) && Divides(Euclid(a, b).gcd, b)
    decreases b
  {
    var g := Euclid(a, b).gcd;
    if b == 0 {
      assert a == g * 1 && b == g * 0;
    } else {
      EuclidDivides(b, a % b);
      var i :| b == g * i;
      var j :| a % b == g * j;
      assert a == g * (i * (a / b) + j) by {
        assert a == b * (a / b) + a % b;
        assert b * (a / b) == g * (i * (a / b));
      }
    }
  }

  lemma FactorBound(q: int, g: nat, i: int)
    requires 0 < q == g * i
    ensures 1 <= g <= q
  {
  }

  lemma GcdOfPrime(q: nat, a: nat)
    requires IsPrime(q) && a % q != 0
    ensures Euclid(q, a).gcd == 1
  {
    var g := Euclid(q, a).gcd;
    EuclidDivides(q, a);
    var i :| q == g * i;
    var j :| a == g * j;
    FactorBound(q, g, i);
    if g == q {
      SameBy(q, a, 0, j);
    } else if 1 < g {
      QuotientUnique(g, q, i, 0);
    }
  }

  /** Euclid's lemma. */
  lemma NoZeroDivisors(q: nat, a: nat, b: nat)
    requires IsPrime(q) && a % q != 0 && b % q != 0
    ensures (a * b) % q != 0
  {
    GcdOfPrime(q, a);
    EuclidCombines(q, a);
    var r := Euclid(q, a);
    if Same(q, a * b, 0) {
      var k := SameGap(q, a * b, 0);
      FactorOut(q, a, b, k, r.x, r.y);
      SameBy(q, b, 0, b * r.x + k * r.y);
    }
  }

  lemma FactorOut(q: int, a: int, b: int, k: int, x: int, y: int)
    requires 1 == q * x + a * y && a * b == q * k
    ensures b == q * (b * x + k * y)
  {
  }

  lemma ZeroProduct(q: nat, a: int, c: nat)
    requires IsPrime(q) && c % q != 0 && Same(q, a * c, 0)
    ensures Same(q, a, 0)
  {
    var d: nat := a % q;
    SameMod(q, a);
    SameScale(q, d, a, c);
    if d != 0 {
      QuotientUnique(q, d, 0, d);
      NoZeroDivisors(q, d, c);
    }
    QuotientUnique(q, 0, 0, 0);
  }

  lemma TimesDifference(a: int, b: int, c: int)
    ensures a * c - b * c == (a - b) * c
  {
  }

  lemma SameDifference(q: int, x: int, y: int)
    requires q > 0
    ensures Same(q, x, y) <==> Same(q, x - y, 0)
  {
    if Same(q, x, y) {
      var k := SameGap(q, x, y);
      SameBy(q, x - y, 0, k);
    }
    if Same(q, x - y, 0) {
      var k := SameGap(q, x - y, 0);
      SameBy(q, x, y, k);
    }
  }

  /** A factor that is not 0 modulo a prime cancels. */
  lemma Cancel(q: nat, a: int, b: int, c: nat)
    requires IsPrime(q) && c % q != 0 && Same(q, a * c, b * c)
    ensures Same(q, a, b)
  {
    SameDifference(q, a * c, b * c);
    TimesDifference(a, b, c);
    ZeroProduct(q, a - b, c);
    SameDifference(q, a, b);
  }

  // ----- powers by squaring -----

  lemma {:induction false} PowSquare(a: int, n: nat)
    ensures Pow(a * a, n) == Pow(a, 2 * n)
  {
    if n != 0 {
      PowSquare(a, n - 1);
      assert Pow(a, 2 * n) == a * (a * Pow(a, 2 * n - 2));
      assert a * (a * Pow(a, 2 * n - 2)) == (a * a) * Pow(a, 2 * (n - 1));
    }
  }

  lemma {:induction false} PowSame(q: int, a: int, b: int, n: nat)
    requires q > 0 && Same(q, a, b)
    ensures Same(q, Pow(a, n), Pow(b, n))
  {
    if n != 0 {
      PowSame(q, a, b, n - 1);
      SameMul(q, a, b, Pow(a, n - 1), Pow(b, n - 1));
    }
  }

  /** What one turn of the squaring loop leaves unchanged: the part done times the power still to do. */
  lemma SquareStep(q: int, base: int, exp: nat, result: int, base': int, result': int)
    requires q > 0 && exp > 0
    requires base' == base * base % q && result' == if exp % 2 == 1 then result * base % q else result
    ensures Same(q, result' * Pow(base', exp / 2), result * Pow(base, exp))
  {
    var half := exp / 2;
    SameMod(q, base * base);
    PowSame(q, base', base * base, half);
    PowSquare(base, half);
    if exp % 2 == 1 {
      SameMod(q, result * base);
      SameMul(q, result', result * base, Pow(base', half), Pow(base, 2 * half));
      assert Pow(base, exp) == base * Pow(base, 2 * half);
      assert (result * base) * Pow(base, 2 * half) == result * Pow(base, exp);
    } else {
      SameScale(q, Pow(base', half), Pow(base, 2 * half), result);
    }
  }

  method ModPow(b: nat, e: nat, mod: nat) returns (result: nat)
    requires mod > 1
    ensures result == Pow(b, e) % mod
  {
    result := 1;
    var base, exp := b % mod, e;
    SameMod(mod, b);
    PowSame(mod, base, b, e);
    while exp > 0
      invariant result < mod
      invariant Same(mod, result * Pow(base, exp), Pow(b, e))
    {
      ghost var r0, b0, e0 := result, base, exp;
      if exp % 2 == 1 {
        result := result * base % mod;
      }
      exp := exp / 2;
      base := base * base % mod;
      SquareStep(mod, b0, e0, r0, base, result);
    }
    QuotientUnique(mod, result, 0, result);
  }

  // ----- Fermat's little theorem -----

  /** The product of the members of `s` among 1 to n. */
  function Product(s: set<nat>, n: nat): nat {
    if n == 0 then 1 else Product(s, n - 1) * (if n in s then n else 1)
  }

  lemma {:induction false} ProductBeyond(s: set<nat>, x: nat, n: nat)
    requires n < x
    ensures Product(s + {x}, n) == Product(s, n)
  {
    if n != 0 { ProductBeyond(s, x, n - 1); }
  }

  lemma Associate(x: int, y: int, z: int)
    ensures (x * y) * z == x * (y * z)
  {
  }

  lemma {:induction false} ProductInsert(s: set<nat>, x: nat, n: nat)
    requires x !in s && 1 <= x <= n
    ensures Product(s + {x}, n) == x * Product(s, n)
  {
    var t := s + {x};
    if x == n {
      ProductBeyond(s, x, n - 1);
      assert Product(t, n) == Product(t, n - 1) * n && Product(s, n) == Product(s, n - 1) * 1;
    } else {
      ProductInsert(s, x, n - 1);
      assert n in t <==> n in s;
      if n in s { Associate(x, Product(s, n - 1), n); }
    }
  }

  function UpTo(n: nat): set<nat> {
    if n == 0 then {} else UpTo(n - 1) + {n}
  }

  lemma {:induction false} UpToIs(n: nat, x: nat)
    ensures x in UpTo(n) <==> 1 <= x <= n
  {
    if n != 0 { UpToIs(n - 1, x); }
  }

  /** The remainders of a, 2a, .., na. */
  function Multiples(q: nat, a: nat, n: nat): set<nat>
    requires q > 0
  {
    if n == 0 then {} else Multiples(q, a, n - 1) + {(a * n) % q}
  }

  lemma {:induction false} MultiplesAre(q: nat, a: nat, n: nat, x: nat)
    requires q > 0 && x in Multiples(q, a, n)
    ensures exists i: nat :: 1 <= i <= n && x == (a * i) % q
  {
    if x == (a * n) % q {
    } else {
      MultiplesAre(q, a, n - 1, x);
    }
  }

  /** A new multiple of a nonzero residue is not 0 and not among the earlier ones. */
  lemma NextMultiple(q: nat, a: nat, n: nat)
    requires IsPrime(q) && a % q != 0 && 1 <= n < q
    ensures (a * n) % q !in Multiples(q, a, n - 1) && 1 <= (a * n) % q <= q - 1
  {
    QuotientUnique(q, n, 0, n);
    NoZeroDivisors(q, a, n);
    var x := (a * n) % q;
    if x in Multiples(q, a, n - 1) {
      MultiplesAre(q, a, n - 1, x);
      var i: nat :| 1 <= i <= n - 1 && x == (a * i) % q;
      assert Same(q, i * a, n * a);
      Cancel(q, i, n, a);
      QuotientUnique(q, i, 0, i);
    }
  }

  /** The multiples are n different residues, and their product is a^n n! modulo q. */
  lemma {:induction false} MultiplesProduct(q: nat, a: nat, n: nat)
    requires IsPrime(q) && a % q != 0 && n < q
    ensures Multiples(q, a, n) <= UpTo(q - 1) && |Multiples(q, a, n)| == n
    ensures Same(q, Product(Multiples(q, a, n), q - 1), Pow(a, n) * Product(UpTo(n), n))
  {
    if n == 0 {
      ProductEmpty(q - 1);
    } else {
      var rest := Multiples(q, a, n - 1);
      var x := (a * n) % q;
      UpToIs(q - 1, x);
      MultiplesProduct(q, a, n - 1);
      NextMultiple(q, a, n);
      ProductInsert(rest, x, q - 1);
      SameMod(q, a * n);
      SameMul(q, x, a * n, Product(rest, q - 1), Pow(a, n - 1) * Product(UpTo(n - 1), n - 1));
      FactorialStep(n);
      Regroup(a, n, Pow(a, n - 1), Product(UpTo(n - 1), n - 1));
    }
  }

  lemma Regroup(a: int, n: int, p: int, f: int)
    ensures (a * n) * (p * f) == (a * p) * (f * n)
  {
  }

  lemma {:induction false} ProductEmpty(n: nat)
    ensures Product({}, n) == 1
  {
    if n != 0 { ProductEmpty(n - 1); }
  }

  lemma FactorialStep(n: nat)
    requires n >= 1
    ensures Product(UpTo(n), n) == Product(UpTo(n - 1), n - 1) * n
  {
    UpToIs(n, n);
    ProductBeyond(UpTo(n - 1), n, n - 1);
  }

  lemma {:induction false} UpToSize(n: nat)
    ensures |UpTo(n)| == n
  {
    if n != 0 {
      UpToSize(n - 1);
      UpToIs(n - 1, n);
    }
  }

  lemma {:induction false} FactorialNotZero(q: nat, n: nat)
    requires IsPrime(q) && n < q
    ensures Product(UpTo(n), n) % q != 0
  {
    if n == 0 {
      QuotientUnique(q, 1, 0, 1);
    } else {
      FactorialNotZero(q, n - 1);
      FactorialStep(n);
      QuotientUnique(q, n, 0, n);
      NoZeroDivisors(q, Product(UpTo(n - 1), n - 1), n);
    }
  }

  lemma SameSet(s: set<nat>, t: set<nat>)
    requires s <= t && |s| == |t|
    ensures s == t
  {
    assert |t - s| == |t| - |s|;
    assert t == s + (t - s);
  }

  lemma Fermat(q: nat, a: nat)
    requires IsPrime(q) && a % q != 0
    ensures Same(q, Pow(a, q - 1), 1)
  {
    var n: nat := q - 1;
    MultiplesProduct(q, a, n);
    UpToSize(n);
    SameSet(Multiples(q, a, n), UpTo(n));
    FactorialNotZero(q, n);
    Cancel(q, Pow(a, n), 1, Product(UpTo(n), n));
  }

  // ----- inverses -----

  function Inverse(q: nat, a: nat): (r: nat)
    requires q > 1
    ensures r < q
  {
    Pow(a, q - 2) % q
  }

  /** Raising to the power q - 2 inverts every residue but 0. */
  lemma InverseInverts(q: nat, a: nat)
    requires IsPrime(q) && a % q != 0
    ensures (a * Inverse(q, a)) % q == 1 && Inverse(q, a) != 0
  {
    Fermat(q, a);
    SameMod(q, Pow(a, q - 2));
    SameScale(q, Inverse(q, a), Pow(a, q - 2), a);
    assert Pow(a, q - 1) == a * Pow(a, q - 2);
    QuotientUnique(q, 1, 0, 1);
    QuotientUnique(q, 0, 0, 0);
  }
}
