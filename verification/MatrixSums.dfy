/** What matrix_sum of core_matrix.c counts, and what the products are, without the loops. */
module MatrixSums {
  import opened Words
  import opened Crc
  import opened Matrix
  import opened MatrixInit
  import opened ListIndex

  // ---------- What is counted ----------

  /** The sum of the elements from `i` on and before `j`. */
  function SumBetween(c: seq<int>, i: nat, j: nat): int
    requires j <= |c|
  {
    if j <= i then 0 else SumBetween(c, i, j - 1) + c[j - 1]
  }

  /** At position `k` the sum since the last such position exceeds the clip. */
  predicate Exceeds(c: seq<int>, clip: s16, k: nat)
    requires k < |c|
    decreases k, 1
  {
    ToS32(SumBetween(c, RestartsAt(c, clip, k), k + 1)) > clip
  }

  /** Where the sum begins that is compared at position `k`. */
  function RestartsAt(c: seq<int>, clip: s16, k: nat): (i: nat)
    requires k <= |c|
    ensures i <= k
    decreases k, 0
  {
    if k == 0 then 0 else if Exceeds(c, clip, k - 1) then k else RestartsAt(c, clip, k - 1)
  }

  function Previous(c: seq<int>, k: nat): int
    requires k <= |c|
  {
    if k == 0 then 0 else c[k - 1]
  }

  /** How many of the first `k` positions exceed. */
  function Exceeding(c: seq<int>, clip: s16, k: nat): (n: nat)
    requires k <= |c|
    ensures n <= k
  {
    if k == 0 then 0 else Exceeding(c, clip, k - 1) + if Exceeds(c, clip, k - 1) then 1 else 0
  }

  /** How many of the others hold more than the element before. */
  function Ascending(c: seq<int>, clip: s16, k: nat): (n: nat)
    requires k <= |c|
    ensures Exceeding(c, clip, k) + n <= k
  {
    if k == 0 then 0
    else Ascending(c, clip, k - 1) + if !Exceeds(c, clip, k - 1) && c[k - 1] > Previous(c, k - 1) then 1 else 0
  }

  lemma WrapShort(x: int, y: int)
    ensures ToS16(ToS16(x) + y) == ToS16(x + y)
  {
  }

  /** The variables of the loop before position `k`. */
  function SumAt(c: seq<int>, clip: s16, k: nat): Sum
    requires k <= |c|
  {
    Sum(ToS32(SumBetween(c, RestartsAt(c, clip, k), k)), Previous(c, k),
        ToS16(10 * Exceeding(c, clip, k) + Ascending(c, clip, k)))
  }

  lemma StepIs(tmp: int, prev: int, total: nat, cur: int, clip: s16)
    ensures SumStep(Sum(ToS32(tmp), prev, ToS16(total)), cur, clip) ==
            if ToS32(tmp + cur) > clip then Sum(0, cur, ToS16(total + 10))
            else Sum(ToS32(tmp + cur), cur, ToS16(total + if cur > prev then 1 else 0))
  {
    WrapSum(tmp, cur);
    WrapShort(total, 10);
    WrapShort(total, if cur > prev then 1 else 0);
  }

  lemma SumNext(c: seq<int>, clip: s16, k: nat)
    requires k < |c|
    ensures SumStep(SumAt(c, clip, k), c[k], clip) == SumAt(c, clip, k + 1)
  {
    var total := 10 * Exceeding(c, clip, k) + Ascending(c, clip, k);
    StepIs(SumBetween(c, RestartsAt(c, clip, k), k), Previous(c, k), total, c[k], clip);
  }

  lemma {:induction false} SumUpTo(c: seq<int>, clip: s16, k: nat)
    requires k <= |c|
    ensures SumOf(c[..k], clip) == SumAt(c, clip, k)
  {
    if k > 0 {
      SumUpTo(c, clip, k - 1);
      SumUpToNext(c, clip, k - 1);
    }
  }

  lemma SumUpToNext(c: seq<int>, clip: s16, k: nat)
    requires k < |c| && SumOf(c[..k], clip) == SumAt(c, clip, k)
    ensures SumOf(c[..k + 1], clip) == SumAt(c, clip, k + 1)
  {
    SumGrows(c, k, clip);
    SumNext(c, clip, k);
  }

  /** The result is ten times the positions that exceed, and one for each of the others that ascends. */
  lemma SumCounts(c: seq<int>, clip: s16)
    ensures SumOf(c, clip).ret == ToS16(10 * Exceeding(c, clip, |c|) + Ascending(c, clip, |c|))
  {
    SumUpTo(c, clip, |c|);
    assert c[..|c|] == c;
  }

  lemma {:induction false} AllExceed(c: seq<int>, clip: s16, k: nat)
    requires k <= |c| && clip < 0 && forall i :: 0 <= i < |c| ==> 0 <= c[i] < 0x8000_0000
    ensures Exceeding(c, clip, k) == k && Ascending(c, clip, k) == 0 && RestartsAt(c, clip, k) == k
  {
    if k > 0 {
      AllExceed(c, clip, k - 1);
      assert SumBetween(c, k - 1, k) == SumBetween(c, k - 1, k - 1) + c[k - 1];
      ExactWord(c[k - 1]);
    }
  }

  /** With a negative clip every element that is not negative counts ten. */
  lemma TenEach(c: seq<int>, clip: s16)
    requires clip < 0 && forall i :: 0 <= i < |c| ==> 0 <= c[i] < 0x8000_0000
    ensures SumOf(c, clip).ret == ToS16(10 * |c|)
  {
    AllExceed(c, clip, |c|);
    SumCounts(c, clip);
  }

  /** How many of the first `k` elements are larger than the one before, and the first than zero. */
  function Ascents(c: seq<int>, k: nat): nat
    requires k <= |c|
  {
    if k == 0 then 0 else Ascents(c, k - 1) + if c[k - 1] > Previous(c, k - 1) then 1 else 0
  }

  lemma {:induction false} NoneExceeds(c: seq<int>, clip: s16, k: nat)
    requires k <= |c| && forall j :: 0 < j <= |c| ==> ToS32(SumBetween(c, 0, j)) <= clip
    ensures Exceeding(c, clip, k) == 0 && Ascending(c, clip, k) == Ascents(c, k) && RestartsAt(c, clip, k) == 0
  {
    if k > 0 {
      NoneExceeds(c, clip, k - 1);
    }
  }

  /** If no sum from the beginning exceeds the clip, the result is the number of ascents. */
  lemma OnlyAscents(c: seq<int>, clip: s16)
    requires forall j :: 0 < j <= |c| ==> ToS32(SumBetween(c, 0, j)) <= clip
    ensures SumOf(c, clip).ret == ToS16(Ascents(c, |c|))
  {
    NoneExceeds(c, clip, |c|);
    SumCounts(c, clip);
  }

  // ---------- The clip ----------

  lemma ShiftByTwelve(a: nat)
    ensures ShiftLeft(a, 12) == 0x1000 * a
  {
    ShiftByByte(a);
    assert ShiftLeft(a, 10) == 4 * ShiftLeft(a, 8);
    assert ShiftLeft(a, 12) == 4 * ShiftLeft(a, 10);
  }

  lemma OrNibble(h: nat, l: nat)
    requires h < 16 && l < 0x1000
    ensures Or(0xf000, 0x1000 * h + l) == 0xf000 + l
  {
    Pow2Values();
    assert Pow2(12) == 0x1000;
    OrSelf(0xf, h, 4);
    OrZero(l);
    OrParts(0xf, 0, h, l, 12);
    ShiftByTwelve(0xf);
    ShiftByTwelve(h);
  }

  /** matrix_big: the four upper bits are set, which makes every clip negative. */
  lemma ClipIs(val: s16)
    ensures ClipValue(val) == val % 0x1000 - 0x1000
  {
    var u := ToU16(val);
    UpperAndLower(val);
    ClipOf(u, u / 0x1000, u % 0x1000);
  }

  lemma ClipOf(u: u16, h: nat, l: nat)
    requires u == 0x1000 * h + l && h < 16 && l < 0x1000
    ensures ToS16(Or16(0xf000, u)) == l - 0x1000
  {
    OrNibble(h, l);
    NegativeShort(l);
  }

  lemma NegativeShort(l: nat)
    requires l < 0x1000
    ensures ToS16(0xf000 + l) == l - 0x1000
  {
  }

  lemma UpperAndLower(val: s16)
    ensures var u := ToU16(val);
            u == 0x1000 * (u / 0x1000) + u % 0x1000 && u / 0x1000 < 16 && u % 0x1000 == val % 0x1000
  {
  }

  // ---------- The bit fields ----------

  /** The value of the `m` bits of `x` from bit `n` on. */
  function Field(x: nat, n: nat, m: nat): nat
    decreases m
  {
    if m == 0 then 0 else BitValue(Bit(x, n)) + 2 * Field(x, n + 1, m - 1)
  }

  lemma {:induction false} FieldOfHalf(x: nat, n: nat, m: nat)
    ensures Field(x / 2, n, m) == Field(x, n + 1, m)
    decreases m
  {
    if m > 0 {
      FieldOfHalf(x, n + 1, m - 1);
    }
  }

  lemma HalfRemainder(x: nat, p: nat)
    requires p > 0
    ensures x % (2 * p) == x % 2 + 2 * (x / 2 % p)
  {
    var h := x / 2;
    var q, r := h / p, h % p;
    assert h == p * q + r;
    assert x == (2 * p) * q + (2 * r + x % 2);
    RemainderOf(q, 2 * r + x % 2, 2 * p);
  }

  lemma RemainderOf(q: nat, r: nat, d: nat)
    requires r < d
    ensures (d * q + r) % d == r
  {
    var t := d * q + r;
    assert t == d * (t / d) + t % d;
    assert d * (q - t / d) == t % d - r;
    ZeroMultiple(d, q - t / d);
  }

  lemma {:induction false} LowField(x: nat, m: nat)
    ensures Field(x, 0, m) == x % Pow2(m)
    decreases m
  {
    if m > 0 {
      LowField(x / 2, m - 1);
      FieldOfHalf(x, 0, m - 1);
      HalfRemainder(x, Pow2(m - 1));
    }
  }

  lemma FieldFromTwo(x: nat, m: nat)
    ensures Field(x, 2, m) == x / 4 % Pow2(m)
  {
    FieldOfHalf(x, 1, m);
    FieldOfHalf(x / 2, 0, m);
    LowField(x / 4, m);
    assert x / 2 / 2 == x / 4;
  }

  lemma FieldFromFive(x: nat, m: nat)
    ensures Field(x, 5, m) == x / 32 % Pow2(m)
  {
    FieldOfHalf(x, 4, m);
    FieldOfHalf(x / 2, 3, m);
    FieldOfHalf(x / 4, 2, m);
    FieldFromTwo(x / 8, m);
    assert x / 2 / 2 == x / 4 && x / 4 / 2 == x / 8 && x / 8 / 4 == x / 32;
  }

  /** With bit extraction a term is the product of bits 2 to 5 and bits 5 to 11 of the product's bit pattern. */
  lemma TermFields(product: s32)
    ensures var x := product % 0x1_0000_0000; Term(true, product) == Field(x, 2, 4) * Field(x, 5, 7)
  {
    var x := product % 0x1_0000_0000;
    assert Pow2(4) == 16;
    assert Pow2(7) == 128;
    FieldFromTwo(x, 4);
    FieldFromFive(x, 7);
    SameFields(product, x);
  }

  lemma SameFields(product: s32, x: nat)
    requires x == product % 0x1_0000_0000
    ensures product / 4 % 16 == x / 4 % 16 && product / 32 % 128 == x / 32 % 128
  {
    if product < 0 {
      Quotients(product, x);
      Sixteens(product / 4, 0x400_0000);
      OneTwentyEights(product / 32, 0x10_0000);
    }
  }

  lemma Quotients(p: int, x: int)
    requires x == p + 0x1_0000_0000
    ensures x / 4 == p / 4 + 16 * 0x400_0000 && x / 32 == p / 32 + 128 * 0x10_0000
  {
  }

  lemma Sixteens(a: int, q: int)
    ensures (a + 16 * q) % 16 == a % 16
  {
  }

  lemma OneTwentyEights(a: int, q: int)
    ensures (a + 128 * q) % 128 == a % 128
  {
  }

  // ---------- The products ----------

  /** `d` on the diagonal and zero elsewhere. */
  function Diagonal(n: nat, d: int): (e: seq<int>)
    ensures |e| == n * n
  {
    seq(n * n, t requires 0 <= t < n * n => RowOf(t, n); if t / n == t % n then d else 0)
  }

  lemma DiagonalCell(n: nat, d: int, i: nat, j: nat)
    requires i < n && j < n
    ensures Cell(Diagonal(n, d), n, i, j) == if i == j then d else 0
  {
    Flat(i, j, n);
    RowAndColumn(i, j, n);
  }

  lemma {:induction false} TimesDiagonal(a: seq<int>, d: int, n: nat, i: nat, j: nat, k: nat)
    requires |a| == n * n && i < n && j < n && k <= n
    ensures Dot(false, a, Diagonal(n, d), n, i, j, k) == if j < k then Cell(a, n, i, j) * d else 0
  {
    if k > 0 {
      TimesDiagonal(a, d, n, i, j, k - 1);
      DiagonalCell(n, d, k - 1, j);
    }
  }

  lemma {:induction false} DiagonalTimes(b: seq<int>, d: int, n: nat, i: nat, j: nat, k: nat)
    requires |b| == n * n && i < n && j < n && k <= n
    ensures Dot(false, Diagonal(n, d), b, n, i, j, k) == if i < k then d * Cell(b, n, i, j) else 0
  {
    if k > 0 {
      DiagonalTimes(b, d, n, i, j, k - 1);
      DiagonalCell(n, d, i, k - 1);
    }
  }

  lemma DiagonalAt(a: seq<int>, d: int, n: nat, t: nat)
    requires |a| == n * n && t < n * n
    ensures Product(false, a, Diagonal(n, d), n)[t] == ToS32(a[t] * d)
    ensures Product(false, Diagonal(n, d), a, n)[t] == ToS32(d * a[t])
  {
    RowOf(t, n);
    var i, j := t / n, t % n;
    TimesDiagonal(a, d, n, i, j, n);
    DiagonalTimes(a, d, n, i, j, n);
    ProductAt(false, a, Diagonal(n, d), n, t, i, j);
    ProductAt(false, Diagonal(n, d), a, n, t, i, j);
  }

  lemma ScaledAt(a: seq<s16>, val: s16, t: nat)
    requires t < |a|
    ensures Scaled(a, val)[t] == ToS32(a[t] * val) == ToS32((val as int) * a[t])
  {
    ExactWord(Times(a[t], val));
  }

  /** The product with a diagonal matrix, from either side, is the product with the constant; and with the
      identity it is the other matrix. */
  lemma ProductWithDiagonal(a: seq<s16>, val: s16, n: nat)
    requires |a| == n * n
    ensures Product(false, a, Diagonal(n, val), n) == Scaled(a, val) == Product(false, Diagonal(n, val), a, n)
    ensures val == 1 ==> Scaled(a, val) == a
  {
    forall t: nat | t < n * n
      ensures Product(false, a, Diagonal(n, val), n)[t] == Scaled(a, val)[t]
      ensures Product(false, Diagonal(n, val), a, n)[t] == Scaled(a, val)[t]
    {
      DiagonalAt(a, val, n, t);
      ScaledAt(a, val, t);
    }
  }

  /** The product with a vector that is one at `j` and zero elsewhere is column `j`. */
  lemma {:induction false} VectorPicksColumn(a: seq<int>, b: seq<int>, n: nat, i: nat, j: nat, k: nat)
    requires |a| == |b| == n * n && i < n && j < n && k <= n <= n * n
    requires forall m :: 0 <= m < n ==> b[m] == if m == j then 1 else 0
    ensures VectorDot(a, b, n, i, k) == if j < k then Cell(a, n, i, j) else 0
  {
    if k > 0 {
      VectorPicksColumn(a, b, n, i, j, k - 1);
    }
  }

  // ---------- The sums of a run ----------

  lemma ScaledTenEach(seed: int, n: nat, val: s16)
    requires 0 <= val <= 0xff
    ensures SumOf(Scaled(Shifted(MatrixA(seed, n), val), val), ClipValue(val)).ret == ToS16(10 * (n * n))
  {
    ClipIs(val);
    InitialRanges(seed, n);
    ScaleNoOverflow(MatrixA(seed, n), val);
    TenEach(Scaled(Shifted(MatrixA(seed, n), val), val), ClipValue(val));
  }

  lemma ExtractCell(a: seq<int>, b: seq<int>, n: nat, t: nat)
    requires |a| == |b| == n * n && t < n * n && n <= 0x10_0000
    ensures 0 <= Product(true, a, b, n)[t] < 0x8000_0000
  {
    RowOf(t, n);
    var i, j := t / n, t % n;
    ProductAt(true, a, b, n, t, i, j);
    ExtractNoOverflow(a, b, n, i, j, n);
    ExactWord(Dot(true, a, b, n, i, j, n));
  }

  lemma ExtractTenEach(a: seq<int>, b: seq<int>, n: nat, val: s16)
    requires |a| == |b| == n * n && n <= 0x10_0000
    ensures SumOf(Product(true, a, b, n), ClipValue(val)).ret == ToS16(10 * (n * n))
  {
    ClipIs(val);
    forall t: nat | t < n * n
      ensures 0 <= Product(true, a, b, n)[t] < 0x8000_0000
    {
      ExtractCell(a, b, n, t);
    }
    TenEach(Product(true, a, b, n), ClipValue(val));
  }

  lemma FourWords(w1: u16, w2: u16, w3: u16, w4: u16)
    ensures CrcWords([w1, w2, w3, w4], 0) == CrcWord(w4, CrcWord(w3, CrcWord(w2, CrcWord(w1, 0))))
  {
    CrcWordsAppend([], w1, 0);
    CrcWordsAppend([w1], w2, 0);
    CrcWordsAppend([w1, w2], w3, 0);
    CrcWordsAppend([w1, w2, w3], w4, 0);
    assert [] + [w1] == [w1] && [w1] + [w2] == [w1, w2] && [w1, w2] + [w3] == [w1, w2, w3];
    assert [w1, w2, w3] + [w4] == [w1, w2, w3, w4];
  }

  /** In a run the value of matrix_test is the code of four words; the first and the last of them are
      10 n^2, whatever the seeds and the item, as only the two products in the middle depend on them. */
  lemma TestWords(seed: int, n: nat, val: s16)
    requires 0 <= val <= 0xff && n <= 0x10_0000
    ensures var a, b, clip := Shifted(MatrixA(seed, n), val), MatrixB(seed, n), ClipValue(val);
            var ten := 10 * (n * n) % 0x1_0000;
            MatrixTestCrc(n, MatrixA(seed, n), b, val) ==
            CrcWords([ten, ToU16(SumOf(VectorResult(Scaled(a, val), a, b, n), clip).ret),
                      ToU16(SumOf(Product(false, a, b, n), clip).ret), ten], 0)
  {
    var a, b, clip := Shifted(MatrixA(seed, n), val), MatrixB(seed, n), ClipValue(val);
    ScaledTenEach(seed, n, val);
    ExtractTenEach(a, b, n, val);
    RoundTrip(10 * (n * n));
    FourWords(10 * (n * n) % 0x1_0000, ToU16(SumOf(VectorResult(Scaled(a, val), a, b, n), clip).ret),
              ToU16(SumOf(Product(false, a, b, n), clip).ret), 10 * (n * n) % 0x1_0000);
  }
}
