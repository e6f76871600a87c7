/** core_init_matrix of core_matrix.c: dimension, layout and contents of the matrices, and the ranges
    that keep the kernels' arithmetic inside 32 bits. */
module MatrixInit {
  import opened Words
  import opened Matrix

  // ---------- The running seed ----------

  const M: int := 65536

  /** The C remainder, which has the sign of the dividend. */
  function Rem(x: int): int {
    if x >= 0 then x % M else -((-x) % M)
  }

  /** The seed after `k` elements, the first of which has order 1. */
  function SeedAfter(seed: int, k: nat): int {
    if k == 0 then seed else Rem(k * SeedAfter(seed, k - 1))
  }

  function Factorial(k: nat): nat {
    if k == 0 then 1 else k * Factorial(k - 1)
  }

  function ElementB(seed: int, order: nat): s16 {
    ToS16(ToU16(ToS16(SeedAfter(seed, order) + order)))
  }

  function ElementA(seed: int, order: nat): s16 {
    ToU16(ToS16(ElementB(seed, order) + order)) % 0x100
  }

  ghost predicate Congruent(x: int, y: int) {
    (x - y) % M == 0
  }

  lemma CongruentBy(x: int, y: int, q: int)
    requires x - y == M * q
    ensures Congruent(x, y)
  {
  }

  lemma RemCongruent(x: int)
    ensures Congruent(Rem(x), x) && -M < Rem(x) < M
  {
    CongruentBy(Rem(x), x, if x >= 0 then -(x / M) else (-x) / M);
  }

  lemma CongruentTimes(k: nat, x: int, y: int)
    requires Congruent(x, y)
    ensures Congruent(k * x, k * y)
  {
    var q := (x - y) / M;
    assert k * x - k * y == M * (k * q) by {
      assert x == y + M * q;
      assert k * x == k * y + k * (M * q);
    }
    CongruentBy(k * x, k * y, k * q);
  }

  lemma CongruentTransitive(x: int, y: int, z: int)
    requires Congruent(x, y) && Congruent(y, z)
    ensures Congruent(x, z)
  {
  }

  /** The running seed is the initial one times k!, modulo 2^16. */
  lemma {:induction false} SeedIsFactorial(seed: int, k: nat)
    ensures Congruent(SeedAfter(seed, k), seed * Factorial(k))
  {
    if k > 0 {
      var s, f := SeedAfter(seed, k - 1), Factorial(k - 1);
      SeedIsFactorial(seed, k - 1);
      CongruentTimes(k, s, seed * f);
      RemCongruent(k * s);
      CongruentTransitive(Rem(k * s), k * s, k * (seed * f));
      Regroup(k, seed, f);
    } else {
      assert seed * 1 == seed;
    }
  }

  lemma Regroup(k: int, seed: int, f: int)
    ensures k * (seed * f) == seed * (k * f)
  {
  }

  lemma FactorialVanishes()
    ensures Factorial(18) % M == 0
  {
    assert Factorial(6) == 720;
    assert Factorial(8) == 40320;
    assert Factorial(10) == 3628800;
    assert Factorial(12) == 479001600;
    assert Factorial(14) == 87178291200;
    assert Factorial(16) == 20922789888000;
    assert Factorial(18) == 6402373705728000;
  }

  /** From the eighteenth element on the initial seed is forgotten. */
  lemma {:induction false} SeedForgotten(seed: int, k: nat)
    requires k >= 18
    ensures SeedAfter(seed, k) == 0
  {
    if k == 18 {
      SeedVanishes(seed, k);
    } else {
      SeedForgotten(seed, k - 1);
      assert SeedAfter(seed, k) == Rem(k * 0);
    }
  }

  lemma SeedVanishes(seed: int, k: nat)
    requires k == 18
    ensures SeedAfter(seed, k) == 0
  {
    SeedIsFactorial(seed, k);
    FactorialVanishes();
    MultipleVanishes(seed, Factorial(k));
    CongruentTransitive(SeedAfter(seed, k), seed * Factorial(k), 0);
    RemCongruent(k * SeedAfter(seed, k - 1));
    SmallMultiple(SeedAfter(seed, k));
  }

  lemma SmallMultiple(x: int)
    requires Congruent(x, 0) && -M < x < M
    ensures x == 0
  {
  }

  lemma MultipleVanishes(x: int, f: int)
    requires f % M == 0
    ensures Congruent(x * f, 0)
  {
    assert x * f == M * (x * (f / M)) by {
      assert f == M * (f / M);
    }
    CongruentBy(x * f, 0, x * (f / M));
  }

  /** The k-th elements, for every initial seed: B is k as a short and A is 2k modulo 256. */
  lemma ElementsForgetSeed(seed: int, k: nat)
    requires k >= 18
    ensures ElementB(seed, k) == ToS16(k) && ElementA(seed, k) == 2 * k % 0x100
    ensures k < 0x8000 ==> ElementB(seed, k) == k
  {
    SeedForgotten(seed, k);
    ElementsWithoutSeed(k);
    ElementsFrom(seed, k, k);
    ShortIs(k);
  }

  lemma ShortIs(k: nat)
    ensures k < 0x8000 ==> ToS16(k) == k
  {
  }

  lemma ElementsFrom(seed: int, k: nat, x: int)
    requires x == SeedAfter(seed, k) + k
    ensures ElementB(seed, k) == ToS16(ToU16(ToS16(x)))
    ensures ElementA(seed, k) == ToU16(ToS16(ElementB(seed, k) + k)) % 0x100
  {
  }

  lemma ElementsWithoutSeed(k: nat)
    ensures ToS16(ToU16(ToS16(k))) == ToS16(k)
    ensures ToU16(ToS16(ToS16(k) + k)) % 0x100 == 2 * k % 0x100
  {
    ShortAgain(k);
    ShortPlus(k, k);
    WordBytes(k + k);
  }

  lemma ShortAgain(k: int)
    ensures ToS16(ToU16(ToS16(k))) == ToS16(k)
  {
  }

  lemma ShortPlus(x: int, y: int)
    ensures ToS16(ToS16(x) + y) == ToS16(x + y)
  {
  }

  lemma WordBytes(x: nat)
    ensures ToU16(ToS16(x)) == x % 0x1_0000 && x % 0x1_0000 % 0x100 == x % 0x100
  {
    RoundTrip(x);
    ByteOfWord(x);
  }

  lemma RoundTrip(x: int)
    ensures ToU16(ToS16(x)) == x % 0x1_0000
  {
  }

  /** A starts with small values. */
  lemma ElementABounds(seed: int, k: nat)
    ensures 0 <= ElementA(seed, k) <= 0xff
  {
  }

  lemma CongruentWord(x: int, y: int, k: nat)
    requires Congruent(x, y)
    ensures ToU16(ToS16(x + k)) == (y + k) % M
  {
    var q := (x - y) / M;
    assert x - y == M * q;
    assert x + k == (y + k) + M * q;
    Multiples(y + k, q);
  }

  lemma Multiples(x: int, q: int)
    ensures (x + M * q) % M == x % M
  {
  }

  /** Every element in closed form: the bits of B are those of seed k! + k, and A is the low byte of
      seed k! + 2k. */
  lemma ElementsAre(seed: int, k: nat)
    ensures ToU16(ElementB(seed, k)) == (seed * Factorial(k) + k) % M
    ensures ElementA(seed, k) == (seed * Factorial(k) + 2 * k) % 0x100
  {
    var x := seed * Factorial(k);
    SeedIsFactorial(seed, k);
    CongruentWord(SeedAfter(seed, k), x, k);
    WordBack(ToS16(SeedAfter(seed, k) + k));
    LowByteOfA(x, k, ElementB(seed, k));
  }

  lemma WordBack(w: s16)
    ensures ToS16(ToU16(w)) == w
  {
  }

  lemma LowByteOfA(x: int, k: nat, b: s16)
    requires ToU16(b) == (x + k) % M
    ensures ToU16(ToS16(b + k)) % 0x100 == (x + 2 * k) % 0x100
  {
    var q := (x + k) / M;
    var c := if b < 0 then -1 else 0;
    assert b == (x + k) - M * q + M * c;
    assert b + k == (x + 2 * k) + M * (c - q);
    Multiples(x + 2 * k, c - q);
    ByteOfWord(x + 2 * k);
  }

  lemma ByteOfWord(y: int)
    ensures y % M % 0x100 == y % 0x100
  {
    assert y == 0x100 * (0x100 * (y / M)) + y % M;
  }

  /** The code's product of order and seed stays inside 32 bits: it is small at first, and then zero. */
  lemma SeedNoOverflow(seed: s32, k: nat)
    requires k >= 1
    ensures -0x8000_0000 <= k * SeedAfter(seed, k - 1) < 0x8000_0000
  {
    if k > 0x8000 {
      SeedForgotten(seed, k - 1);
    } else if k > 1 {
      var s := SeedAfter(seed, k - 1);
      RemCongruent((k - 1) * SeedAfter(seed, k - 2));
      MultipleAtLeast(k, -M + 1, s);
      MultipleAtLeast(k, s, M - 1);
    }
  }

  function MatrixA(seed: int, n: nat): (a: seq<s16>)
    ensures |a| == n * n
  {
    seq(n * n, t requires 0 <= t < n * n => ElementA(seed, t + 1))
  }

  function MatrixB(seed: int, n: nat): (b: seq<s16>)
    ensures |b| == n * n
  {
    seq(n * n, t requires 0 <= t < n * n => ElementB(seed, t + 1))
  }

  /** Two runs of the initialisation differ at most in the first 17 elements. */
  lemma MatricesForgetSeed(seed: int, seed': int, n: nat, t: nat)
    requires 17 <= t < n * n
    ensures MatrixA(seed, n)[t] == MatrixA(seed', n)[t]
    ensures MatrixB(seed, n)[t] == MatrixB(seed', n)[t]
  {
    ElementsForgetSeed(seed, t + 1);
    ElementsForgetSeed(seed', t + 1);
  }

  // ---------- The dimension ----------

  /** `n` is the largest dimension whose three matrices, of 8n^2 bytes, are smaller than the block. */
  ghost predicate Fits(blksize: nat, n: nat) {
    8 * (n * n) < blksize <= 8 * ((n + 1) * (n + 1))
  }

  lemma SquareMonotone(a: nat, b: nat)
    requires a <= b
    ensures a * a <= b * b
  {
  }

  lemma FitsUnique(blksize: nat, n: nat, m: nat)
    requires Fits(blksize, n) && Fits(blksize, m)
    ensures n == m
  {
    if n < m {
      SquareMonotone(n + 1, m);
      assert false;
    }
    if m < n {
      SquareMonotone(m + 1, n);
      assert false;
    }
  }

  /** The search loop; with the given bound its unsigned product never wraps. */
  method Dimension(blksize: nat) returns (n: nat)
    requires 0 < blksize <= 8 * 23170 * 23170
    ensures Fits(blksize, n)
  {
    var i, j := 0, 0;
    while j < blksize
      invariant i <= 23170
      invariant i == 0 ==> j == 0
      invariant j == 8 * (i * i) < 0x1_0000_0000
      invariant i > 0 ==> 8 * ((i - 1) * (i - 1)) < blksize
      decreases 23170 - i
    {
      if i == 23170 {
        assert false;
      }
      i := i + 1;
      SquareMonotone(i, 23170);
      j := i * i * 2 * 4;
      assert j == 8 * (i * i);
    }
    n := i - 1;
  }

  // ---------- The layout ----------

  /** align_mem on 32-bit addresses. */
  function AlignMem(x: u32): u32 {
    (4 + (x - 1) % 0x1_0000_0000 / 4 * 4) % 0x1_0000_0000
  }

  lemma AlignMemIsNext(x: u32)
    requires x <= 0xffff_fffc
    ensures AlignMem(x) % 4 == 0 && x <= AlignMem(x) < x + 4
    ensures x % 4 == 0 ==> AlignMem(x) == x
  {
  }

  /** Addresses of B and C behind A, for matrices of `cells` elements: two bytes each in A and B. */
  function OffsetB(mem: u32, cells: nat): int {
    AlignMem(mem) + 2 * cells
  }

  function OffsetC(mem: u32, cells: nat): int
    requires OffsetB(mem, cells) + 2 * cells < 0x1_0000_0000
  {
    AlignMem(OffsetB(mem, cells) + 2 * cells)
  }

  /** A, B and C follow each other without a gap, aligned for their element types; C, of four bytes an
      element, ends inside the block exactly when the alignment of A leaves room for all three. */
  lemma Layout(mem: u32, blksize: nat, n: nat)
    requires mem + blksize <= 0xffff_fff0 && Fits(blksize, n)
    ensures OffsetB(mem, n * n) + 2 * (n * n) < 0x1_0000_0000
    ensures OffsetC(mem, n * n) == OffsetB(mem, n * n) + 2 * (n * n)
    ensures AlignMem(mem) % 4 == 0 && OffsetB(mem, n * n) % 2 == 0 && OffsetC(mem, n * n) % 4 == 0
    ensures OffsetC(mem, n * n) + 4 * (n * n) <= mem + blksize <==> AlignMem(mem) - mem + 8 * (n * n) <= blksize
    ensures mem % 4 == 0 ==> OffsetC(mem, n * n) + 4 * (n * n) <= mem + blksize
  {
    CellsLayout(mem, blksize, n * n);
    MultipleOfFour(AlignMem(mem), n * n);
  }

  /** In a block at `mem` the three matrices end inside the block. */
  ghost predicate MatricesFit(mem: u32, blksize: nat) {
    forall n: nat :: Fits(blksize, n) ==> AlignMem(mem) - mem + 8 * (n * n) <= blksize
  }

  /** How far alignment shifts A, in a block that follows another of the same size. */
  lemma Shift(base: nat, cells: nat, d: nat)
    requires base + 8 * cells + d <= 0xffff_fffc && d >= 1
    ensures var mem := base + 8 * cells + d;
            AlignMem(mem) - mem <= d <==> !(base % 4 <= 1 && d == 1) && !(base % 4 == 3 && d == 2)
  {
    var t, r := base / 4, base % 4;
    assert base + 8 * cells + d == 4 * (t + 2 * cells) + (r + d);
    ShiftOf(t + 2 * cells, r, d);
  }

  lemma ShiftOf(q: nat, r: nat, d: nat)
    requires r < 4 && d >= 1 && 4 * q + r + d <= 0xffff_fffc
    ensures AlignMem(4 * q + r + d) - (4 * q + r + d) <= d <==> !(r <= 1 && d == 1) && !(r == 3 && d == 2)
  {
    var a := AlignMem(4 * q + r + d);
    AlignMemIsNext(4 * q + r + d);
    if d < 4 && r + d <= 4 {
      OnlyMultiple(q, r + d, a);
    } else if d < 4 {
      OnlyMultiple(q + 1, r + d - 4, a);
    }
  }

  lemma OnlyMultiple(q: nat, e: nat, a: nat)
    requires 1 <= e <= 4 && a % 4 == 0 && 4 * q + e <= a < 4 * q + e + 4
    ensures a == 4 * q + 4
  {
    assert a == 4 * (a / 4);
  }

  /** The second of several blocks of one size: C ends inside its block, and does not reach the text in the
      next one, if and only if the size is none of one or two sizes for each dimension. */
  lemma FitsInside(base: u32, size: nat, n: nat)
    requires base + 2 * size <= 0xffff_fff0 && Fits(size, n)
    ensures MatricesFit(base + size, size) <==> OffsetB(base + size, n * n) + 2 * (n * n) < 0x1_0000_0000 &&
                                                OffsetC(base + size, n * n) + 4 * (n * n) <= base + 2 * size
    ensures MatricesFit(base + size, size) <==>
            !(base % 4 <= 1 && size == 8 * (n * n) + 1) && !(base % 4 == 3 && size == 8 * (n * n) + 2)
  {
    Layout(base + size, size, n);
    Shift(base, n * n, size - 8 * (n * n));
    forall m: nat | Fits(size, m)
      ensures m == n
    {
      FitsUnique(size, n, m);
    }
  }

  /** One of the four bytes of a word in memory. */
  function WordByte(x: s32, i: nat): (b: u8)
    requires i < 4
  {
    if i == 0 then x % 0x100 else if i == 1 then x / 0x100 % 0x100
    else if i == 2 then x / 0x1_0000 % 0x100 else x / 0x100_0000 % 0x100
  }

  /** What matrix_test leaves in the last element of C: up to dimension 34 its upper half is zero. */
  lemma LastCell(seed: int, n: nat, val: s16)
    requires 1 <= n <= 34 && 0 <= val <= 0xff
    ensures n * n >= 1
    ensures var c := Product(true, Shifted(MatrixA(seed, n), val), MatrixB(seed, n), n);
            WordByte(c[n * n - 1], 2) == WordByte(c[n * n - 1], 3) == 0
  {
    var a, b := Shifted(MatrixA(seed, n), val), MatrixB(seed, n);
    LastIndex(n);
    ProductCell(true, a, b, n, n - 1, n - 1);
    ExtractNoOverflow(a, b, n, n - 1, n - 1, n);
    SmallCell(Dot(true, a, b, n, n - 1, n - 1, n));
  }

  lemma SmallCell(x: int)
    requires 0 <= x < 0x1_0000
    ensures ToS32(x) == x && WordByte(x, 2) == WordByte(x, 3) == 0
  {
  }

  lemma LastIndex(n: nat)
    requires n >= 1
    ensures n * n >= 1 && (n - 1) * n + (n - 1) == n * n - 1
  {
  }

  lemma MultipleOfFour(a: nat, cells: nat)
    requires a % 4 == 0
    ensures (a + 4 * cells) % 4 == 0 && (a + 2 * cells) % 2 == 0
  {
  }

  lemma CellsLayout(mem: u32, blksize: nat, cells: nat)
    requires mem + blksize <= 0xffff_fff0 && 8 * cells <= blksize
    ensures OffsetB(mem, cells) + 2 * cells < 0x1_0000_0000
    ensures OffsetC(mem, cells) == OffsetB(mem, cells) + 2 * cells
    ensures AlignMem(mem) % 4 == 0 && OffsetC(mem, cells) == AlignMem(mem) + 4 * cells
    ensures OffsetC(mem, cells) + 4 * cells <= mem + blksize <==> AlignMem(mem) - mem + 8 * cells <= blksize
    ensures mem % 4 == 0 ==> AlignMem(mem) == mem
  {
    AlignMemIsNext(mem);
    AlignedC(AlignMem(mem), cells);
  }

  lemma AlignedC(a: u32, cells: nat)
    requires a % 4 == 0 && a + 4 * cells <= 0xffff_fffc
    ensures AlignMem(a + 2 * cells + 2 * cells) == a + 4 * cells
  {
    var x: u32 := a + 4 * cells;
    MultipleOfFour(a, cells);
    AlignMemIsNext(x);
    assert a + 2 * cells + 2 * cells == x;
  }

  // ---------- The code ----------

  datatype MatParams = MatParams(n: nat, a: array<s16>, b: array<s16>, c: array<s32>)

  method CoreInitMatrix(blksize: nat, seed0: s32) returns (p: MatParams)
    requires 0 < blksize <= 8 * 23170 * 23170
    ensures Fits(blksize, p.n)
    ensures fresh(p.a) && fresh(p.b) && fresh(p.c) && p.a != p.b
    ensures p.c as object != p.a as object && p.c as object != p.b as object
    ensures p.a.Length == p.b.Length == p.c.Length == p.n * p.n
    ensures p.a[..] == MatrixA(if seed0 == 0 then 1 else seed0, p.n)
    ensures p.b[..] == MatrixB(if seed0 == 0 then 1 else seed0, p.n)
  {
    var seed: int := if seed0 == 0 then 1 else seed0;
    var n := Dimension(blksize);
    var a, b := new s16[n * n], new s16[n * n];
    var c := new s32[n * n];
    FillMatrices(n, a, b, seed);
    p := MatParams(n, a, b, c);
  }

  /** The elements before `k` are filled in. */
  ghost predicate FilledTo(seed0: int, a: array<s16>, b: array<s16>, k: nat)
    reads a, b
  {
    k <= a.Length == b.Length &&
    forall t: nat | t < k :: a[t] == ElementA(seed0, t + 1) && b[t] == ElementB(seed0, t + 1)
  }

  method FillMatrices(n: nat, a: array<s16>, b: array<s16>, seed0: int)
    requires a.Length == b.Length == n * n && a != b
    modifies a, b
    ensures a[..] == MatrixA(seed0, n)
    ensures b[..] == MatrixB(seed0, n)
  {
    var seed, order := seed0, 1;
    for i := 0 to n
      invariant i * n <= n * n
      invariant order == i * n + 1 && seed == SeedAfter(seed0, i * n)
      invariant FilledTo(seed0, a, b, i * n)
    {
      seed, order := FillRow(n, i, a, b, seed, order, seed0);
    }
  }

  method FillRow(n: nat, i: nat, a: array<s16>, b: array<s16>, seed1: int, order1: nat, ghost seed0: int)
    returns (seed: int, order: nat)
    requires a.Length == b.Length == n * n && a != b && i < n && FilledTo(seed0, a, b, i * n)
    requires order1 == i * n + 1 && seed1 == SeedAfter(seed0, i * n)
    modifies a, b
    ensures (i + 1) * n <= n * n && FilledTo(seed0, a, b, (i + 1) * n)
    ensures order == (i + 1) * n + 1 && seed == SeedAfter(seed0, (i + 1) * n)
  {
    seed, order := seed1, order1;
    RowEnd(i, n);
    for j := 0 to n
      invariant i * n + j <= (i + 1) * n <= n * n
      invariant order == i * n + j + 1 && seed == SeedAfter(seed0, i * n + j)
      invariant FilledTo(seed0, a, b, i * n + j)
    {
      Flat(i, j, n);
      seed := FillCell(i * n + j, a, b, seed, order, seed0);
      order := order + 1;
    }
  }

  method FillCell(k: nat, a: array<s16>, b: array<s16>, seed1: int, order: nat, ghost seed0: int) returns (seed: int)
    requires k < a.Length && a != b && FilledTo(seed0, a, b, k)
    requires order == k + 1 && seed1 == SeedAfter(seed0, k)
    modifies a, b
    ensures FilledTo(seed0, a, b, k + 1) && seed == SeedAfter(seed0, k + 1)
  {
    seed := Rem(order * seed1);
    var val := ToS16(seed + order);
    val := ToS16(ToU16(val));
    b[k] := val;
    assert val == ElementB(seed0, order);
    val := ToS16(val + order);
    val := ToU16(val) % 0x100;
    a[k] := val;
    assert val == ElementA(seed0, order);
  }

  // ---------- Ranges ----------

  ghost predicate InRange(m: seq<int>, low: int, high: int) {
    forall t | 0 <= t < |m| :: low <= m[t] <= high
  }

  lemma InitialRanges(seed: int, n: nat)
    ensures InRange(MatrixA(seed, n), 0, 0xff)
    ensures InRange(MatrixB(seed, n), -0x8000, 0x7fff)
  {
    forall t | 0 <= t < n * n
      ensures 0 <= MatrixA(seed, n)[t] <= 0xff
    {
      ElementABounds(seed, t + 1);
    }
  }

  /** The constant that a data item passes to matrix_test is a byte, so nothing wraps in A. */
  lemma ShiftedRange(a: seq<s16>, val: s16)
    requires InRange(a, 0, 0xff) && 0 <= val <= 0xff
    ensures InRange(Shifted(a, val), 0, 510)
    ensures forall t | 0 <= t < |a| :: Shifted(a, val)[t] == a[t] + val
  {
  }

  /** The products with the constant stay far inside 32 bits. */
  lemma ScaleNoOverflow(a: seq<s16>, val: s16)
    requires InRange(a, 0, 0xff) && 0 <= val <= 0xff
    ensures InRange(Scaled(Shifted(a, val), val), 0, 510 * 0xff)
  {
    ShiftedRange(a, val);
    var c := Scaled(Shifted(a, val), val);
    forall t | 0 <= t < |c|
      ensures 0 <= c[t] <= 510 * 0xff
    {
      MultipleAtLeast(val, 0, Shifted(a, val)[t]);
      MultipleAtLeast(val, Shifted(a, val)[t], 510);
      MultipleAtLeast(510, val, 0xff);
    }
  }

  const TERM: int := 510 * 0x8000

  lemma ProductRange(x: int, y: int)
    requires 0 <= x <= 510 && -0x8000 <= y <= 0x7fff
    ensures -TERM <= x * y <= TERM
  {
    MultipleAtLeast(x, -0x8000, y);
    MultipleAtLeast(x, y, 0x8000);
    MultipleAtLeast(0x8000, x, 510);
  }

  lemma CellRange(m: seq<int>, n: nat, i: nat, j: nat, low: int, high: int)
    requires |m| == n * n && i < n && j < n && InRange(m, low, high)
    ensures low <= Cell(m, n, i, j) <= high
  {
    Flat(i, j, n);
  }

  /** Every partial sum of the products stays inside 32 bits up to dimension 128. */
  lemma {:induction false} DotNoOverflow(a: seq<int>, b: seq<int>, n: nat, i: nat, j: nat, k: nat)
    requires |a| == |b| == n * n && i < n && j < n && k <= n <= 128
    requires InRange(a, 0, 510) && InRange(b, -0x8000, 0x7fff)
    ensures -TERM * k <= Dot(false, a, b, n, i, j, k) <= TERM * k
    ensures -0x8000_0000 <= Dot(false, a, b, n, i, j, k) < 0x8000_0000
  {
    if k > 0 {
      DotNoOverflow(a, b, n, i, j, k - 1);
      CellRange(a, n, i, k - 1, 0, 510);
      CellRange(b, n, k - 1, j, -0x8000, 0x7fff);
      ProductRange(Cell(a, n, i, k - 1), Cell(b, n, k - 1, j));
    }
  }

  lemma {:induction false} VectorNoOverflow(a: seq<int>, b: seq<int>, n: nat, i: nat, k: nat)
    requires |a| == |b| == n * n && i < n && k <= n <= 128
    requires InRange(a, 0, 510) && InRange(b, -0x8000, 0x7fff)
    ensures -TERM * k <= VectorDot(a, b, n, i, k) <= TERM * k
    ensures -0x8000_0000 <= VectorDot(a, b, n, i, k) < 0x8000_0000
  {
    if k > 0 {
      VectorNoOverflow(a, b, n, i, k - 1);
      CellRange(a, n, i, k - 1, 0, 510);
      Flat(0, k - 1, n);
      ProductRange(Cell(a, n, i, k - 1), b[k - 1]);
    }
  }

  /** The two extracted fields have four and seven bits. */
  lemma TermRange(product: int)
    ensures 0 <= Term(true, product) <= 1905
  {
    var x, y := BitExtract(product, 4, 16), BitExtract(product, 32, 128);
    MultipleAtLeast(x, y, 127);
    MultipleAtLeast(127, x, 15);
  }

  lemma {:induction false} ExtractNoOverflow(a: seq<int>, b: seq<int>, n: nat, i: nat, j: nat, k: nat)
    requires |a| == |b| == n * n && i < n && j < n && k <= n
    ensures 0 <= Dot(true, a, b, n, i, j, k) <= 1905 * k
  {
    if k > 0 {
      ExtractNoOverflow(a, b, n, i, j, k - 1);
      TermRange(Cell(a, n, i, k - 1) * Cell(b, n, k - 1, j));
    }
  }

  // ---------- The kernels on the matrices of a run ----------

  ghost predicate Fits32(x: int) {
    -0x8000_0000 <= x < 0x8000_0000
  }

  lemma ExactWord(x: int)
    requires Fits32(x)
    ensures ToS32(x) == x
  {
  }

  /** No partial sum of any kernel leaves 32 bits, for every seed, dimension up to 128 and byte constant. */
  lemma SumsFit(seed: int, n: nat, val: s16, i: nat, j: nat, k: nat)
    requires n <= 128 && 0 <= val <= 0xff && i < n && j < n && k <= n
    ensures var a, b := Shifted(MatrixA(seed, n), val), MatrixB(seed, n);
            Fits32(Dot(false, a, b, n, i, j, k)) && Fits32(Dot(true, a, b, n, i, j, k)) &&
            Fits32(VectorDot(a, b, n, i, k)) && InRange(Scaled(a, val), 0, 510 * 0xff)
  {
    var a, b := Shifted(MatrixA(seed, n), val), MatrixB(seed, n);
    InitialRanges(seed, n);
    ShiftedRange(MatrixA(seed, n), val);
    ScaleNoOverflow(MatrixA(seed, n), val);
    DotNoOverflow(a, b, n, i, j, k);
    ExtractNoOverflow(a, b, n, i, j, k);
    VectorNoOverflow(a, b, n, i, k);
  }

  /** The product as a mathematical matrix. */
  function TrueProduct(extract: bool, a: seq<int>, b: seq<int>, n: nat): (c: seq<int>)
    requires |a| == |b| == n * n
    ensures |c| == n * n
  {
    seq(n * n, t requires 0 <= t < n * n => RowOf(t, n); Dot(extract, a, b, n, t / n, t % n, n))
  }

  function TrueVector(c: seq<int>, a: seq<int>, b: seq<int>, n: nat): (r: seq<int>)
    requires |a| == |b| == |c| == n * n
    ensures |r| == n * n
  {
    seq(n * n, t requires 0 <= t < n * n => if t < n then VectorDot(a, b, n, t, n) else c[t])
  }

  /** The code of the four mathematical results. */
  function TrueTestCrc(n: nat, a: seq<s16>, b: seq<s16>, val: s16): u16
    requires |a| == |b| == n * n
  {
    var a', clip := Shifted(a, val), ClipValue(val);
    var c1 := Scaled(a', val);
    var c2 := TrueVector(c1, a', b, n);
    SumCrc(TrueProduct(true, a', b, n), clip,
           SumCrc(TrueProduct(false, a', b, n), clip, SumCrc(c2, clip, SumCrc(c1, clip, 0))))
  }

  lemma ProductAt(extract: bool, a: seq<int>, b: seq<int>, n: nat, t: nat, i: nat, j: nat)
    requires |a| == |b| == n * n && t < n * n && n > 0 && i == t / n && j == t % n && i < n && j < n
    ensures Product(extract, a, b, n)[t] == ToS32(Dot(extract, a, b, n, i, j, n))
    ensures TrueProduct(extract, a, b, n)[t] == Dot(extract, a, b, n, i, j, n)
  {
  }

  lemma AgreesAt(extract: bool, a: seq<int>, b: seq<int>, n: nat, t: nat)
    requires |a| == |b| == n * n && t < n * n
    requires forall i, j :: 0 <= i < n && 0 <= j < n ==> Fits32(Dot(extract, a, b, n, i, j, n))
    ensures Product(extract, a, b, n)[t] == TrueProduct(extract, a, b, n)[t]
  {
    RowOf(t, n);
    var i, j := t / n, t % n;
    ProductAt(extract, a, b, n, t, i, j);
    ExactWord(Dot(extract, a, b, n, i, j, n));
  }

  lemma ProductsAgree(extract: bool, a: seq<int>, b: seq<int>, n: nat)
    requires |a| == |b| == n * n
    requires forall i, j :: 0 <= i < n && 0 <= j < n ==> Fits32(Dot(extract, a, b, n, i, j, n))
    ensures Product(extract, a, b, n) == TrueProduct(extract, a, b, n)
  {
    forall t: nat | t < n * n
      ensures Product(extract, a, b, n)[t] == TrueProduct(extract, a, b, n)[t]
    {
      AgreesAt(extract, a, b, n, t);
    }
  }

  lemma ProductExact(extract: bool, seed: int, n: nat, val: s16)
    requires n <= 128 && 0 <= val <= 0xff
    ensures var a, b := Shifted(MatrixA(seed, n), val), MatrixB(seed, n);
            Product(extract, a, b, n) == TrueProduct(extract, a, b, n)
  {
    var a, b := Shifted(MatrixA(seed, n), val), MatrixB(seed, n);
    forall i, j | 0 <= i < n && 0 <= j < n
      ensures Fits32(Dot(extract, a, b, n, i, j, n))
    {
      SumsFit(seed, n, val, i, j, n);
    }
    ProductsAgree(extract, a, b, n);
  }

  lemma VectorExact(seed: int, n: nat, val: s16, c: seq<s32>)
    requires n <= 128 && 0 <= val <= 0xff && |c| == n * n
    ensures var a, b := Shifted(MatrixA(seed, n), val), MatrixB(seed, n);
            VectorResult(c, a, b, n) == TrueVector(c, a, b, n)
  {
    var a, b := Shifted(MatrixA(seed, n), val), MatrixB(seed, n);
    forall t: nat | t < n * n
      ensures VectorResult(c, a, b, n)[t] == TrueVector(c, a, b, n)[t]
    {
      if t < n {
        SumsFit(seed, n, val, t, 0, n);
        ExactWord(VectorDot(a, b, n, t, n));
      }
    }
  }

  /** Up to dimension 128 matrix_test codes the mathematical results: its 32-bit sums are exact. */
  lemma MatrixTestExact(seed: int, n: nat, val: s16)
    requires n <= 128 && 0 <= val <= 0xff
    ensures MatrixTestCrc(n, MatrixA(seed, n), MatrixB(seed, n), val) ==
            TrueTestCrc(n, MatrixA(seed, n), MatrixB(seed, n), val)
  {
    ProductExact(true, seed, n, val);
    ProductExact(false, seed, n, val);
    VectorExact(seed, n, val, Scaled(Shifted(MatrixA(seed, n), val), val));
  }

  /** Blocks of up to 133128 bytes have dimensions up to 128. */
  lemma DimensionAtMost128(blksize: nat, n: nat)
    requires Fits(blksize, n)
    ensures n <= 128 <==> blksize <= 8 * 129 * 129
  {
    if n <= 128 {
      SquareMonotone(n + 1, 129);
    } else {
      SquareMonotone(129, n);
    }
  }
}
