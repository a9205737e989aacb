/**
 Conversion of integers to double precision: 53 significant bits, ties to even
 (section 4.3.1 of IEEE 754-2008).
 */
module Float64 {

  const TWO_63: int := 0x8000_0000_0000_0000

  const TWO_53: int := 0x20_0000_0000_0000

  const TWO_52: int := 0x10_0000_0000_0000

  /** Distance between neighbouring doubles at magnitude m. */
  function Spacing(m: nat): (q: nat)
    ensures q > 0
  {
    if m < TWO_53 then 1 else 2 * Spacing(m / 2)
  }

  function RoundTo(m: nat, q: nat): (x: nat)
    requires q > 0
  {
    var k, r := m / q, m % q;
    if 2 * r < q || (2 * r == q && k % 2 == 0) then m - r else m - r + q
  }

  function Abs(n: int): nat {
    if n < 0 then -n else n
  }

  /** float64(n), as the integer it denotes. */
  function ToFloat64(n: int): int {
    var x: int := RoundTo(Abs(n), Spacing(Abs(n)));
    if n < 0 then -x else x
  }

  /** Integers a double holds exactly. */
  predicate Representable(n: int) {
    Abs(n) % Spacing(Abs(n)) == 0
  }

  /** The binade of m with spacing q is [2^52 * q, 2^53 * q), or everything below 2^53 for q = 1. */
  lemma {:induction false} Binade(m: nat) returns (lo: nat, hi: nat)
    ensures var q := Spacing(m);
            && lo <= m < hi && hi == TWO_53 * q
            && (lo == TWO_52 * q || (q == 1 && lo == 0))
    ensures forall x :: lo <= x < hi ==> Spacing(x) == Spacing(m)
    ensures Spacing(hi) == 2 * Spacing(m)
  {
    if m < TWO_53 {
      lo, hi := 0, TWO_53;
      assert Spacing(hi / 2) == 1;
    } else {
      var lo', hi' := Binade(m / 2);
      hi := 2 * hi';
      lo := if lo' == 0 then TWO_53 else 2 * lo';
      assert hi / 2 == hi';
      forall x | lo <= x < hi ensures Spacing(x) == Spacing(m) {
        assert lo' <= x / 2 < hi';
      }
    }
  }

  lemma Monotone(a: int, b: int, q: nat)
    requires a <= b
    ensures a * q <= b * q
    ensures (a + 1) * q == a * q + q
  {
  }

  lemma MultipleModulo(k: nat, q: nat)
    requires q > 0
    ensures (k * q) % q == 0 && (k * q) / q == k
  {
    var d, r := (k * q) / q, (k * q) % q;
    assert k * q == d * q + r;
    if k > d {
      Monotone(d + 1, k, q);
    } else if k < d {
      Monotone(k + 1, d, q);
    }
  }

  /** Rounding between two multiples of q stays between them and gives a multiple of q, the nearest one. */
  lemma RoundWithin(m: nat, q: nat, a: nat, b: nat)
    requires q > 0 && a * q <= m <= b * q
    ensures a * q <= RoundTo(m, q) <= b * q && RoundTo(m, q) % q == 0
    ensures 2 * Abs(RoundTo(m, q) - m) <= q
    ensures RoundTo(m, q) == m <==> m % q == 0
  {
    var k, r := m / q, m % q;
    assert m == k * q + r;
    MultipleModulo(k, q);
    MultipleModulo(k + 1, q);
    assert (k + 1) * q == k * q + q;
    if k < a {
      Monotone(k + 1, a, q);
    } else {
      Monotone(a, k, q);
    }
    if k < b {
      Monotone(k + 1, b, q);
    } else {
      Monotone(b, k, q);
    }
  }

  /** Halfway between two multiples of q, the even multiple is taken. */
  lemma TiesToEven(m: nat, q: nat)
    requires q > 0 && 2 * (m % q) == q
    ensures RoundTo(m, q) % q == 0 && RoundTo(m, q) / q % 2 == 0
  {
    var k := m / q;
    assert m == k * q + m % q;
    MultipleModulo(k, q);
    MultipleModulo(k + 1, q);
    assert (k + 1) * q == k * q + q;
  }

  lemma RoundInBinade(m: nat) returns (lo: nat, hi: nat)
    ensures var q := Spacing(m); var x := RoundTo(m, q);
            && lo <= m < hi && lo <= x <= hi && x % q == 0
            && lo % q == 0 && hi % q == 0
            && 2 * Abs(x - m) <= q
            && (x == m <==> m % q == 0)
    ensures forall x :: lo <= x < hi ==> Spacing(x) == Spacing(m)
    ensures Spacing(hi) == 2 * Spacing(m) && hi % Spacing(hi) == 0
  {
    lo, hi := Binade(m);
    var q := Spacing(m);
    MultipleModulo(TWO_52, q);
    MultipleModulo(TWO_53, q);
    MultipleModulo(0, q);
    MultipleModulo(TWO_52, 2 * q);
    RoundWithin(m, q, if lo == 0 then 0 else TWO_52, TWO_53);
  }

  /** The rounded value is a double, is within half a spacing, and is n itself exactly when n is a double. */
  lemma RoundedIsRepresentable(n: int)
    ensures Representable(ToFloat64(n))
    ensures ToFloat64(n) == n <==> Representable(n)
    ensures 2 * Abs(ToFloat64(n) - n) <= Spacing(Abs(n))
  {
    var lo, hi := RoundInBinade(Abs(n));
    var x := RoundTo(Abs(n), Spacing(Abs(n)));
    assert Abs(ToFloat64(n)) == x;
    if x < hi {
      assert Spacing(x) == Spacing(Abs(n));
    } else {
      assert x == hi;
    }
  }

  lemma NearestMultiple(n: nat, q: nat, y: nat)
    requires q > 0 && y % q == 0
    ensures Abs(RoundTo(n, q) - n) <= Abs(y - n)
  {
    var k, j := n / q, y / q;
    assert n == k * q + n % q && y == j * q;
    if j <= k {
      Monotone(j, k, q);
    } else {
      Monotone(k + 1, j, q);
      Monotone(k, k + 1, q);
    }
  }

  /** No double is closer: rounding is to nearest. */
  lemma RoundedIsNearest(n: nat, x: nat)
    requires Representable(x)
    ensures Abs(ToFloat64(n) - n) <= Abs(x - n)
  {
    var lo, hi := RoundInBinade(n);
    var y := if x < lo then lo else if x >= hi then hi else x;
    assert y % Spacing(n) == 0;
    NearestMultiple(n, Spacing(n), y);
  }

  /** Below 2^63 the spacing is a power of two up to 1024. */
  lemma {:induction false} SpacingBelow(m: nat, b: nat)
    requires b in {1, 2, 4, 8, 16, 32, 64, 128, 256, 512, 1024} && m < TWO_53 * b
    ensures Spacing(m) in {1, 2, 4, 8, 16, 32, 64, 128, 256, 512, 1024} && Spacing(m) <= b
  {
    if m >= TWO_53 {
      SpacingBelow(m / 2, b / 2);
    }
  }

  lemma RoundBelow(m: nat, q: nat)
    requires q in {1, 2, 4, 8, 16, 32, 64, 128, 256, 512, 1024, 2048} && m <= TWO_63
    ensures RoundTo(m, q) <= TWO_63
  {
    assert TWO_63 % q == 0;
    RoundWithin(m, q, 0, TWO_63 / q);
  }

  /** Rounding does not leave the closed int64 range, but it reaches its open end 2^63. */
  lemma RoundedInRange(n: int)
    requires -TWO_63 <= n <= TWO_63
    ensures -TWO_63 <= ToFloat64(n) <= TWO_63
  {
    var m := Abs(n);
    if m < TWO_63 {
      SpacingBelow(m, 1024);
      RoundBelow(m, Spacing(m));
    } else {
      SpacingBelow(TWO_63 / 2, 1024);
      RoundBelow(m, Spacing(m));
    }
  }

  /** Every integer of magnitude up to 2^53 is a double. */
  lemma SmallIsRepresentable(n: int)
    requires -TWO_53 <= n <= TWO_53
    ensures Representable(n) && ToFloat64(n) == n
  {
  }
}
