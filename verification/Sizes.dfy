/**
 Capacities in GiB: the float ceiling of the controller, the sector count of
 the node and the size field of the backend.
 */
module Sizes {
  import opened Text
  import opened Numerals
  import opened Float64
  import opened Wire

  datatype CapacityRange = CapacityRange(requiredBytes: int, limitBytes: int)

  datatype CapacityError = RangeMissing | RequiredNotPositive | LimitExceeded

  datatype CapacityResult = Gibibytes(size: int) | Rejected(error: CapacityError)

  function CeilReal(x: real): int {
    -((-x).Floor)
  }

  /** Ceiling of a double division; a quotient by 2^30 is exact because only the exponent changes. */
  function RequestedSizeGiB(capacity: Option<CapacityRange>): CapacityResult {
    match capacity
    case None => Rejected(RangeMissing)
    case Some(range) =>
      if range.requiredBytes <= 0 then Rejected(RequiredNotPositive)
      else if range.limitBytes > 0 && range.requiredBytes > range.limitBytes then Rejected(LimitExceeded)
      else Gibibytes(CeilReal(ToFloat64(range.requiredBytes) as real / GIB as real))
  }

  /** The exact number of GiB that hold n bytes. */
  function CeilGiB(n: int): int {
    (n + GIB - 1) / GIB
  }

  lemma CeilOfQuotient(x: int)
    ensures CeilReal(x as real / GIB as real) == CeilGiB(x)
  {
  }

  /** What the capacity check lets through. */
  predicate Accepts(required: int, limit: int) {
    required > 0 && (limit > 0 ==> required <= limit)
  }

  /** Which requests are rejected, and for what: the first of three faults. */
  lemma RejectedExactly(capacity: Option<CapacityRange>)
    ensures var r := RequestedSizeGiB(capacity);
            && (r.Gibibytes? <==>
                capacity.Some? && Accepts(capacity.value.requiredBytes, capacity.value.limitBytes))
            && (r == Rejected(RangeMissing) <==> capacity.None?)
            && (r == Rejected(RequiredNotPositive) <==> capacity.Some? && capacity.value.requiredBytes <= 0)
            && (r == Rejected(LimitExceeded) <==>
                capacity.Some? && 0 < capacity.value.limitBytes < capacity.value.requiredBytes)
  {
  }

  lemma QuotientIs(n: nat, q: nat, k: nat, r: nat)
    requires r < q && n == k * q + r
    ensures n / q == k && n % q == r
  {
    var d := n / q;
    assert n == d * q + n % q;
    if d < k {
      Monotone(d + 1, k, q);
    } else if d > k {
      Monotone(k + 1, d, q);
    }
  }

  /** Rounding commutes with adding an even multiple of the spacing. */
  lemma RoundShift(n: nat, q: nat, c: nat, m: nat)
    requires q > 0 && n == c * q + m && c % 2 == 0
    ensures RoundTo(n, q) == c * q + RoundTo(m, q)
  {
    var k, r := m / q, m % q;
    assert m == k * q + r;
    assert n == (c + k) * q + r by {
      assert (c + k) * q == c * q + k * q;
    }
    QuotientIs(n, q, c + k, r);
  }

  /** Rounding gives zero exactly up to half a spacing. */
  lemma RoundsToZero(m: nat, q: nat)
    requires q > 0
    ensures RoundTo(m, q) == 0 <==> 2 * m <= q
  {
    var k, r := m / q, m % q;
    assert m == k * q + r;
    if k == 0 {
      assert m == r;
    } else {
      Monotone(1, k, q);
      assert RoundTo(m, q) >= m - r;
    }
  }

  lemma CeilShift(g: nat, x: nat)
    requires x <= GIB
    ensures CeilGiB(g * GIB + x) == if x == 0 then g else g + 1
  {
  }

  lemma RoundedCeilingBy(n: nat, q: nat, h: nat, half: nat)
    requires q > 0 && GIB == h * q && h == 2 * half
    ensures CeilGiB(RoundTo(n, q)) == if 0 < n % GIB && 2 * (n % GIB) <= q then CeilGiB(n) - 1 else CeilGiB(n)
  {
    var g, m := n / GIB, n % GIB;
    var c := g * h;
    assert c == 2 * (g * half);
    assert c * q == g * (h * q);
    RoundShift(n, q, c, m);
    RoundWithin(m, q, 0, h);
    RoundsToZero(m, q);
    CeilShift(g, RoundTo(m, q));
    CeilShift(g, m);
  }

  lemma RoundedCeiling(n: nat, q: nat)
    requires q in {1, 2, 4, 8, 16, 32, 64, 128, 256, 512, 1024}
    ensures CeilGiB(RoundTo(n, q)) == if 0 < n % GIB && 2 * (n % GIB) <= q then CeilGiB(n) - 1 else CeilGiB(n)
  {
    assert GIB == GIB / q * q && GIB / q == 2 * (GIB / q / 2);
    RoundedCeilingBy(n, q, GIB / q, GIB / q / 2);
  }

  /**
   The float ceiling is the exact one or one GiB low, and it is low exactly when
   the bytes beyond a whole number of GiB are at most half a spacing of doubles.
   */
  lemma FloatCeiling(required: int, limit: int)
    requires Accepts(required, limit) && required < TWO_63
    ensures var size := RequestedSizeGiB(Some(CapacityRange(required, limit))).size;
            size == if 0 < required % GIB
              && 2 * (required % GIB) <= Spacing(required) then CeilGiB(required) - 1 else CeilGiB(required)
  {
    SpacingBelow(required, 1024);
    CeilOfQuotient(ToFloat64(required));
    RoundedCeiling(required, Spacing(required));
  }

  /** Exact for everything up to 2^53 bytes. */
  lemma ExactUpTo53(required: int, limit: int)
    requires Accepts(required, limit) && required <= TWO_53
    ensures RequestedSizeGiB(Some(CapacityRange(required, limit))).size == CeilGiB(required)
  {
  }

  /** One byte above 2^53 is already lost: the capacity returned is smaller than the one required. */
  lemma LowAbove53()
    ensures RequestedSizeGiB(Some(CapacityRange(TWO_53 + 1, 0))).size * GIB == TWO_53
  {
    FloatCeiling(TWO_53 + 1, 0);
    assert Spacing((TWO_53 + 1) / 2) == 1;
    assert Spacing(TWO_53 + 1) == 2;
  }

  /** An accepted 64-bit requirement asks for at least one GiB. */
  lemma AcceptedIsPositive(required: int, limit: int)
    requires Accepts(required, limit) && required < TWO_63
    ensures RequestedSizeGiB(Some(CapacityRange(required, limit))).size >= 1
  {
    FloatCeiling(required, limit);
    if required < GIB {
      ExactUpTo53(required, limit);
    }
  }

  /** CapacityBytes as CreateVolume returns it, in 64-bit arithmetic. */
  function CapacityBytes(size: int): int {
    Wrap(size * GIB)
  }

  lemma TopSpacing(n: nat)
    requires TWO_63 / 2 <= n < TWO_63
    ensures Spacing(n) == 1024
  {
    var m := n / 2 / 2 / 2 / 2 / 2;
    assert Spacing(n / 2) == 2 * Spacing(n / 2 / 2);
    assert Spacing(n / 2 / 2) == 2 * Spacing(n / 2 / 2 / 2);
    assert Spacing(n / 2 / 2 / 2) == 2 * Spacing(n / 2 / 2 / 2 / 2);
    assert Spacing(n / 2 / 2 / 2 / 2) == 2 * Spacing(m);
    assert Spacing(m) == 2 * Spacing(m / 2);
    assert Spacing(m / 2) == 2 * Spacing(m / 2 / 2);
    assert Spacing(m / 2 / 2) == 2 * Spacing(m / 2 / 2 / 2);
    assert Spacing(m / 2 / 2 / 2) == 2 * Spacing(m / 2 / 2 / 2 / 2);
    assert Spacing(m / 2 / 2 / 2 / 2) == 2 * Spacing(m / 2 / 2 / 2 / 2 / 2);
  }

  /** The returned capacity fits in 64 bits exactly up to 2^63 - 2^30 + 512 required bytes. */
  lemma CapacityFits(required: int, limit: int)
    requires Accepts(required, limit) && required < TWO_63
    ensures var size := RequestedSizeGiB(Some(CapacityRange(required, limit))).size;
            CapacityBytes(size) == size * GIB <==> required <= TWO_63 - GIB + 512
  {
    FloatCeiling(required, limit);
    SpacingBelow(required, 1024);
    if required > TWO_63 - GIB {
      assert Spacing(required) == 1024 by {
        TopSpacing(required);
      }
    }
  }

  /** A request beyond that: the size is accepted, and the capacity answered for it is negative. */
  lemma CapacityOverflows()
    ensures var size := RequestedSizeGiB(Some(CapacityRange(TWO_63 - 1, 0)));
            && size.Gibibytes? && size.size * GIB == TWO_63 && CapacityBytes(size.size) == -TWO_63
  {
    FloatCeiling(TWO_63 - 1, 0);
    TopSpacing(TWO_63 - 1);
    CapacityFits(TWO_63 - 1, 0);
  }

  /**
   Up to the limit, the returned capacity is less than one GiB above what was
   required, and short of it by at most 512 bytes.
   */
  lemma CapacityClose(required: int, limit: int)
    requires Accepts(required, limit) && required <= TWO_63 - GIB
    ensures var size := RequestedSizeGiB(Some(CapacityRange(required, limit))).size;
            && size >= 0 && IsInt64(size * GIB)
            && required - 512 <= size * GIB < required + GIB
            && (size * GIB < required <==> 0 < required % GIB && 2 * (required % GIB) <= Spacing(required))
  {
    FloatCeiling(required, limit);
    SpacingBelow(required, 1024);
  }

  // ------------------------------------------------------------- other sizes

  /** The size file of a block device counts 512-byte sectors. */
  function BlockDeviceSizeGiB(text: string): Option<int> {
    match ParseInt(Trim(text))
    case None => None
    case Some(sectors) => Some(TruncDiv(Wrap(Wrap(sectors * 512) + GIB - 1), GIB))
  }

  /**
   A sector count that does not overflow gives the smallest number of GiB that
   holds the sectors; text that is no 64-bit number gives none.
   */
  lemma SectorsRoundUp(text: string)
    ensures BlockDeviceSizeGiB(text).None? <==> ParseInt(Trim(text)).None?
    ensures ParseInt(Trim(text)).Some? && 0 <= ParseInt(Trim(text)).value * 512 <= TWO_63 - GIB ==>
              var bytes, s := ParseInt(Trim(text)).value * 512, BlockDeviceSizeGiB(text).value;
              (s - 1) * GIB < bytes <= s * GIB
  {
  }

  /** Close to 2^63 bytes the rounding overflows, and the size reads as negative; beyond that it wraps around. */
  lemma SectorsOverflow(text: string)
    requires ParseInt(Trim(text)).Some? && TWO_63 - GIB < ParseInt(Trim(text)).value * 512 < TWO_63
    ensures BlockDeviceSizeGiB(text).Some? && BlockDeviceSizeGiB(text).value == -0x1_ffff_ffff
  {
  }

  /** A disk of s GiB is read back from its sector count as s GiB, up to the largest int64 size. */
  lemma SectorsAgree(s: int)
    requires 1 <= s <= 0x1_ffff_ffff
    ensures BlockDeviceSizeGiB(FormatInt(s * 0x20_0000)) == Some(s)
    ensures IsInt64(s * 0x20_0000 * 512) && IsInt64(s * 0x20_0000 * 512 + GIB - 1)
  {
    ParseFormat(s * 0x20_0000);
  }

  /** What the backend reports under a key, as JSON. */
  function Report(key: string, n: int): map<string, Json> {
    map[key := Transmit(IntField(n))]
  }

  lemma ReportedSize(key: string, n: int)
    requires key in {"maxStorage", "size"} && IsInt64(n) && Representable(n)
    ensures StorageSizeGiB(Report(key, n)) == if n > GIB then TruncDiv(Wrap(n + GIB - 1), GIB) else n
  {
    var m := Report(key, n);
    RoundedIsRepresentable(n);
    TruncatedInteger(n);
    assert m == map[key := Num(n as real)];
    assert FirstValue(m, ["sizeGiB", "sizeGB", "sizeGb"]) == Null by {
      assert "sizeGiB" !in m && "sizeGB" !in m && "sizeGb" !in m;
      var two, one: seq<string> := ["sizeGB", "sizeGb"], ["sizeGb"];
      assert ["sizeGiB", "sizeGB", "sizeGb"][1..] == two;
      assert two[1..] == one;
      assert FirstValue(m, one) == Null;
      assert FirstValue(m, two) == Null;
    }
    assert FirstValue(m, ["maxStorage", "size"]) == m[key] by {
      var one := ["size"];
      assert ["maxStorage", "size"][1..] == one;
      if key == "size" {
        assert "maxStorage" !in m;
        assert FirstValue(m, one) == m[key];
      }
    }
  }

  lemma WholeGibibytes(s: int)
    requires 0 <= s <= GIB
    ensures Representable(s * GIB)
  {
    SpacingBelow(s * GIB, 256);
    var q := Spacing(s * GIB);
    var h := GIB / q;
    assert GIB == h * q;
    assert s * h * q == s * GIB;
    MultipleModulo(s * h, q);
  }

  /**
   The backend's size field gives back s for a size in GiB up to 2^30, and for a
   byte count of s GiB except that exactly one GiB of bytes reads as 2^30.
   */
  lemma BackendSizesAgree(s: int)
    requires 1 <= s <= GIB
    ensures StorageSizeGiB(Report("size", s)) == s
    ensures StorageSizeGiB(Report("maxStorage", s * GIB)) == s <==> s >= 2
    ensures StorageSizeGiB(Report("maxStorage", GIB)) == GIB
  {
    SmallIsRepresentable(s);
    WholeGibibytes(s);
    WholeGibibytes(1);
    ReportedSize("size", s);
    ReportedSize("maxStorage", s * GIB);
    ReportedSize("maxStorage", GIB);
  }

  /** The three computations agree on every size the controller can request up to 2^30 GiB. */
  lemma ThreeSizesAgree(required: int, limit: int)
    requires Accepts(required, limit) && required <= GIB * GIB
    ensures var s := RequestedSizeGiB(Some(CapacityRange(required, limit))).size;
            && 1 <= s <= GIB
            && BlockDeviceSizeGiB(FormatInt(s * 0x20_0000)) == Some(s)
            && StorageSizeGiB(Report("size", s)) == s
            && (s >= 2 ==> StorageSizeGiB(Report("maxStorage", s * GIB)) == s)
  {
    FloatCeiling(required, limit);
    var s := RequestedSizeGiB(Some(CapacityRange(required, limit))).size;
    assert CeilGiB(required) <= GIB;
    if required < GIB {
      ExactUpTo53(required, limit);
    }
    SectorsAgree(s);
    BackendSizesAgree(s);
  }
}
