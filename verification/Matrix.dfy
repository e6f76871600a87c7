/** The kernels of core_matrix.c over flattened N by N matrices. */
module Matrix {
  import opened Words
  import opened Crc

  // ---------- Flattened indices ----------

  lemma Flat(i: nat, j: nat, n: nat)
    requires i < n && j < n
    ensures i * n + j < n * n
  {
    var d := n - 1 - i;
    assert n * n == (i + 1 + d) * n == i * n + n + d * n;
  }

  lemma RowEnd(i: nat, n: nat)
    requires i < n
    ensures i * n + n == (i + 1) * n <= n * n
  {
  }

  lemma RowAndColumn(i: nat, j: nat, n: nat)
    requires i < n && j < n
    ensures (i * n + j) / n == i && (i * n + j) % n == j
  {
    var t := i * n + j;
    var q, r := t / n, t % n;
    assert t == n * q + r;
    assert n * (i - q) == r - j;
    ZeroMultiple(n, i - q);
  }

  lemma NonzeroMultiple(n: int, e: int)
    requires n > 0 && e != 0
    ensures n * e <= -n || n <= n * e
  {
    if e >= 1 {
      MultipleAtLeast(n, 1, e);
    } else {
      MultipleAtLeast(n, e, -1);
    }
  }

  lemma ZeroMultiple(n: int, e: int)
    requires -n < n * e < n && n > 0
    ensures e == 0
  {
    if e != 0 {
      NonzeroMultiple(n, e);
      assert false;
    }
  }

  lemma MultipleAtLeast(n: nat, a: int, b: int)
    requires a <= b
    ensures n * a <= n * b
  {
  }

  lemma RowOf(t: nat, n: nat)
    requires t < n * n
    ensures n > 0 && t / n < n && t % n < n && t == (t / n) * n + t % n
  {
    var q := t / n;
    assert t == n * q + t % n;
    if q >= n {
      MultipleAtLeast(n, n, q);
      assert false;
    }
  }

  function Cell(m: seq<int>, n: nat, i: nat, j: nat): int
    requires |m| == n * n && i < n && j < n
  {
    Flat(i, j, n);
    m[i * n + j]
  }

  // ---------- What the kernels compute ----------

  /** (x >> from) & mask, with `scale` == 1 << from and `width` == mask + 1. */
  function BitExtract(x: int, scale: nat, width: nat): int
    requires scale > 0 && width > 0
  {
    x / scale % width
  }

  /** One product, whole or with two of its bit fields multiplied. */
  function Term(extract: bool, product: int): int {
    if extract then BitExtract(product, 4, 16) * BitExtract(product, 32, 128) else product
  }

  /** Row `i` of `a` against column `j` of `b`, over the first `k` terms. */
  function Dot(extract: bool, a: seq<int>, b: seq<int>, n: nat, i: nat, j: nat, k: nat): int
    requires |a| == |b| == n * n && i < n && j < n && k <= n
  {
    if k == 0 then 0
    else Dot(extract, a, b, n, i, j, k - 1) + Term(extract, Cell(a, n, i, k - 1) * Cell(b, n, k - 1, j))
  }

  /** The elements of C, which accumulate in 32 bits. */
  function Product(extract: bool, a: seq<int>, b: seq<int>, n: nat): (c: seq<s32>)
    requires |a| == |b| == n * n
    ensures |c| == n * n
  {
    seq(n * n, t requires 0 <= t < n * n => RowOf(t, n); ToS32(Dot(extract, a, b, n, t / n, t % n, n)))
  }

  /** The flattened product is the matrix product: C[i,j] is the sum over k of A[i,k] * B[k,j], modulo 2^32. */
  lemma ProductCell(extract: bool, a: seq<int>, b: seq<int>, n: nat, i: nat, j: nat)
    requires |a| == |b| == n * n && i < n && j < n
    ensures Cell(Product(extract, a, b, n), n, i, j) == ToS32(Dot(extract, a, b, n, i, j, n))
  {
    Flat(i, j, n);
    RowAndColumn(i, j, n);
  }

  /** Wrapping after every addition is wrapping the sum. */
  lemma WrapSum(x: int, y: int)
    ensures ToS32(ToS32(x) + y) == ToS32(x + y)
  {
  }

  lemma ShortProduct(x: int, y: int)
    requires -0x8000 <= x <= 0x8000 && -0x8000 <= y <= 0x8000
    ensures -0x4000_0000 <= x * y <= 0x4000_0000
    decreases x < 0
  {
    if x < 0 {
      ShortProduct(-x, y);
    } else {
      MultipleAtLeast(x, -0x8000, y);
      MultipleAtLeast(x, y, 0x8000);
    }
  }

  /** The product of two shorts as 32-bit integers never overflows. */
  function Times(x: s16, y: s16): (p: s32)
    ensures p == x * y
  {
    ShortProduct(x, y);
    x * y
  }

  function VectorDot(a: seq<int>, b: seq<int>, n: nat, i: nat, k: nat): int
    requires |a| == |b| == n * n && i < n && k <= n
  {
    if k == 0 then 0
    else
      Flat(0, k - 1, n);
      VectorDot(a, b, n, i, k - 1) + Cell(a, n, i, k - 1) * b[k - 1]
  }

  function Scaled(a: seq<s16>, val: s16): (c: seq<s32>)
    ensures |c| == |a|
  {
    seq(|a|, t requires 0 <= t < |a| => Times(a[t], val))
  }

  function Shifted(a: seq<s16>, val: int): (r: seq<s16>)
    ensures |r| == |a|
  {
    seq(|a|, t requires 0 <= t < |a| => ToS16(a[t] + val))
  }

  // ---------- The kernels ----------

  method MatrixMulConst(n: nat, c: array<s32>, a: array<s16>, val: s16)
    requires c.Length == a.Length == n * n && c as object != a as object
    modifies c
    ensures c[..] == Scaled(a[..], val)
  {
    for i := 0 to n
      invariant i * n <= n * n
      invariant unchanged(a)
      invariant forall t | 0 <= t < i * n :: c[t] == Times(a[t], val)
    {
      RowEnd(i, n);
      for j := 0 to n
        invariant i * n + j <= (i + 1) * n <= n * n
        invariant unchanged(a)
        invariant forall t | 0 <= t < i * n + j :: c[t] == Times(a[t], val)
      {
        Flat(i, j, n);
        c[i * n + j] := Times(a[i * n + j], val);
      }
    }
  }

  method MatrixAddConst(n: nat, a: array<s16>, val: s16)
    requires a.Length == n * n
    modifies a
    ensures a[..] == Shifted(old(a[..]), val)
  {
    ghost var a0 := a[..];
    for i := 0 to n
      invariant i * n <= n * n
      invariant forall t | 0 <= t < n * n :: a[t] == if t < i * n then ToS16(a0[t] + val) else a0[t]
    {
      RowEnd(i, n);
      for j := 0 to n
        invariant i * n + j <= (i + 1) * n <= n * n
        invariant forall t | 0 <= t < n * n :: a[t] == if t < i * n + j then ToS16(a0[t] + val) else a0[t]
      {
        Flat(i, j, n);
        a[i * n + j] := ToS16(a[i * n + j] + val);
      }
    }
  }

  method MatrixMulVect(n: nat, c: array<s32>, a: array<s16>, b: array<s16>)
    requires a.Length == b.Length == c.Length == n * n
    requires c as object != a as object && c as object != b as object
    modifies c
    ensures forall i | 0 <= i < n :: c[i] == ToS32(VectorDot(a[..], b[..], n, i, n))
    ensures forall t | n <= t < n * n :: c[t] == old(c[t])
  {
    ghost var a0, b0 := a[..], b[..];
    for i := 0 to n
      invariant unchanged(a) && unchanged(b)
      invariant n <= n * n
      invariant forall r | 0 <= r < i :: c[r] == ToS32(VectorDot(a0, b0, n, r, n))
      invariant forall t | n <= t < n * n :: c[t] == old(c[t])
    {
      c[i] := 0;
      for j := 0 to n
        invariant unchanged(a) && unchanged(b)
        invariant forall r | 0 <= r < i :: c[r] == ToS32(VectorDot(a0, b0, n, r, n))
        invariant c[i] == ToS32(VectorDot(a0, b0, n, i, j))
        invariant forall t | n <= t < n * n :: c[t] == old(c[t])
      {
        Flat(i, j, n);
        Flat(0, j, n);
        WrapSum(VectorDot(a0, b0, n, i, j), Times(a[i * n + j], b[j]));
        c[i] := ToS32(c[i] + Times(a[i * n + j], b[j]));
      }
    }
    assert a[..] == a0 && b[..] == b0;
  }

  /** The inner loop of both matrix products. */
  method DotProduct(extract: bool, n: nat, c: array<s32>, a: array<s16>, b: array<s16>, i: nat, j: nat)
    requires a.Length == b.Length == c.Length == n * n && i < n && j < n
    requires c as object != a as object && c as object != b as object
    requires i * n + j < c.Length
    modifies c
    ensures c[..] == old(c[..])[i * n + j := ToS32(Dot(extract, a[..], b[..], n, i, j, n))]
  {
    ghost var a0, b0, c0 := a[..], b[..], c[..];
    c[i * n + j] := 0;
    for k := 0 to n
      invariant unchanged(a) && unchanged(b)
      invariant c[..] == c0[i * n + j := ToS32(Dot(extract, a0, b0, n, i, j, k))]
    {
      Flat(i, k, n);
      Flat(k, j, n);
      var tmp: int := Times(a[i * n + k], b[k * n + j]);
      if extract {
        tmp := BitExtract(tmp, 4, 16) * BitExtract(tmp, 32, 128);
      }
      assert tmp == Term(extract, Cell(a0, n, i, k) * Cell(b0, n, k, j));
      WrapSum(Dot(extract, a0, b0, n, i, j, k), tmp);
      c[i * n + j] := ToS32(c[i * n + j] + tmp);
    }
    assert a[..] == a0 && b[..] == b0;
  }

  /** matrix_mul_matrix, and with `extract` matrix_mul_matrix_bitextract: the two differ in one line. */
  method MatrixMulMatrix(extract: bool, n: nat, c: array<s32>, a: array<s16>, b: array<s16>)
    requires a.Length == b.Length == c.Length == n * n
    requires c as object != a as object && c as object != b as object
    modifies c
    ensures c[..] == Product(extract, a[..], b[..], n)
  {
    ghost var p := Product(extract, a[..], b[..], n);
    for i := 0 to n
      invariant i * n <= n * n
      invariant unchanged(a) && unchanged(b)
      invariant c[..i * n] == p[..i * n]
    {
      RowEnd(i, n);
      for j := 0 to n
        invariant i * n + j <= (i + 1) * n <= n * n
        invariant unchanged(a) && unchanged(b)
        invariant c[..i * n + j] == p[..i * n + j]
      {
        Flat(i, j, n);
        RowAndColumn(i, j, n);
        ghost var t, before := i * n + j, c[..];
        DotProduct(extract, n, c, a, b, i, j);
        assert c[t] == p[t];
        assert c[..t + 1] == before[..t] + [p[t]];
      }
    }
    assert c[..] == c[..n * n] && p == p[..n * n];
  }

  // ---------- matrix_sum ----------

  datatype Sum = Sum(tmp: s32, prev: int, ret: s16)

  function SumStep(s: Sum, cur: int, clip: s16): Sum {
    var tmp := ToS32(s.tmp + cur);
    if tmp > clip then Sum(0, cur, ToS16(s.ret + 10))
    else Sum(tmp, cur, ToS16(s.ret + if cur > s.prev then 1 else 0))
  }

  function SumOf(c: seq<int>, clip: s16): Sum {
    if c == [] then Sum(0, 0, 0) else SumStep(SumOf(c[..|c| - 1], clip), c[|c| - 1], clip)
  }

  lemma SumGrows(c: seq<int>, t: nat, clip: s16)
    requires t < |c|
    ensures SumOf(c[..t + 1], clip) == SumStep(SumOf(c[..t], clip), c[t], clip)
  {
    assert c[..t + 1][..t] == c[..t];
  }

  method SumElement(tmp: s32, prev: int, ret: s16, cur: int, clip: s16) returns (tmp': s32, ret': s16)
    ensures Sum(tmp', cur, ret') == SumStep(Sum(tmp, prev, ret), cur, clip)
  {
    tmp' := ToS32(tmp + cur);
    if tmp' > clip {
      ret' := ToS16(ret + 10);
      tmp' := 0;
    } else {
      ret' := ToS16(ret + if cur > prev then 1 else 0);
    }
  }

  method MatrixSum(n: nat, c: array<s32>, clip: s16) returns (ret: s16)
    requires c.Length == n * n
    ensures ret == SumOf(c[..], clip).ret
  {
    var tmp: s32, prev, cur := 0, 0, 0;
    ret := 0;
    ghost var m := c[..];
    for i := 0 to n
      invariant i * n <= n * n
      invariant Sum(tmp, prev, ret) == SumOf(m[..i * n], clip)
    {
      RowEnd(i, n);
      for j := 0 to n
        invariant i * n + j <= (i + 1) * n <= n * n
        invariant Sum(tmp, prev, ret) == SumOf(m[..i * n + j], clip)
      {
        Flat(i, j, n);
        SumGrows(m, i * n + j, clip);
        cur := c[i * n + j];
        tmp, ret := SumElement(tmp, prev, ret, cur, clip);
        prev := cur;
      }
    }
    assert m[..n * n] == c[..];
  }

  lemma SumStepBounds(s: Sum, cur: int, clip: s16, most: nat)
    requires 0 <= s.ret <= most && most + 10 < 0x8000
    ensures 0 <= SumStep(s, cur, clip).ret <= most + 10
  {
  }

  /** Each element adds between 0 and 10, so up to N == 57 the short result never wraps. */
  lemma {:induction false} SumBounds(c: seq<int>, clip: s16)
    requires 10 * |c| < 0x8000
    ensures 0 <= SumOf(c, clip).ret <= 10 * |c|
  {
    if c != [] {
      SumBounds(c[..|c| - 1], clip);
      SumStepBounds(SumOf(c[..|c| - 1], clip), c[|c| - 1], clip, 10 * (|c| - 1));
    }
  }

  lemma SumOfMatrixBounds(c: seq<int>, n: nat, clip: s16)
    requires |c| == n * n && n <= 57
    ensures 0 <= SumOf(c, clip).ret <= 10 * (n * n)
  {
    MultipleAtLeast(n, n, 57);
    SumBounds(c, clip);
  }

  // ---------- matrix_test ----------

  function ClipValue(val: s16): s16 {
    ToS16(Or16(0xf000, ToU16(val)))
  }

  /** The result matrix after mul_vect, which overwrites its first N elements only. */
  function VectorResult(c: seq<s32>, a: seq<int>, b: seq<int>, n: nat): (r: seq<s32>)
    requires |a| == |b| == |c| == n * n
    ensures |r| == n * n
  {
    seq(n * n, t requires 0 <= t < n * n => if t < n then ToS32(VectorDot(a, b, n, t, n)) else c[t])
  }

  function SumCrc(c: seq<int>, clip: s16, crc: u16): u16 {
    CrcWord(ToU16(SumOf(c, clip).ret), crc)
  }

  /** The code of the four results, all computed from A with `val` added throughout. */
  function MatrixTestCrc(n: nat, a: seq<s16>, b: seq<s16>, val: s16): u16
    requires |a| == |b| == n * n
  {
    var a', clip := Shifted(a, val), ClipValue(val);
    var c1 := Scaled(a', val);
    var c2 := VectorResult(c1, a', b, n);
    SumCrc(Product(true, a', b, n), clip,
           SumCrc(Product(false, a', b, n), clip, SumCrc(c2, clip, SumCrc(c1, clip, 0))))
  }

  /** -val, converted to a short: the smallest short is its own negation. */
  function Negated(val: s16): s16 {
    ToS16(0 - (val as int))
  }

  lemma AddSubtract(x: s16, val: s16)
    ensures ToS16(ToS16(x + val) + Negated(val)) == x
  {
  }

  /** Adding a constant and then its negation restores every short, whatever the wrap-around. */
  lemma ShiftedBack(a: seq<s16>, val: s16)
    ensures Shifted(Shifted(a, val), Negated(val)) == a
  {
    forall t | 0 <= t < |a|
      ensures ToS16(ToS16(a[t] + val) + Negated(val)) == a[t]
    {
      AddSubtract(a[t], val);
    }
  }

  method SumAndCrc(n: nat, c: array<s32>, clip: s16, crc: u16) returns (r: u16)
    requires c.Length == n * n
    ensures r == SumCrc(c[..], clip, crc)
  {
    var sum := MatrixSum(n, c, clip);
    r := Crcu16(ToU16(sum), crc);
  }

  method MatrixTest(n: nat, c: array<s32>, a: array<s16>, b: array<s16>, val: s16) returns (crc: u16)
    requires a.Length == b.Length == c.Length == n * n && a != b
    requires c as object != a as object && c as object != b as object
    modifies a, c
    ensures a[..] == old(a[..])
    ensures crc == MatrixTestCrc(n, old(a[..]), b[..], val)
    ensures c[..] == Product(true, Shifted(old(a[..]), val), b[..], n)
  {
    var clipval := ClipValue(val);
    ghost var b0 := b[..];
    MatrixAddConst(n, a, val);
    ghost var a' := a[..];
    crc := Kernels(n, c, a, b, val, clipval);
    assert a[..] == a' && b[..] == b0;
    MatrixAddConst(n, a, Negated(val));
    ShiftedBack(old(a[..]), val);
  }

  /** The four kernels between the two additions. */
  method Kernels(n: nat, c: array<s32>, a: array<s16>, b: array<s16>, val: s16, clip: s16) returns (crc: u16)
    requires a.Length == b.Length == c.Length == n * n
    requires c as object != a as object && c as object != b as object
    modifies c
    ensures var c1 := Scaled(a[..], val);
            var c2 := VectorResult(c1, a[..], b[..], n);
            crc == SumCrc(Product(true, a[..], b[..], n), clip,
                          SumCrc(Product(false, a[..], b[..], n), clip, SumCrc(c2, clip, SumCrc(c1, clip, 0))))
    ensures c[..] == Product(true, a[..], b[..], n)
  {
    ghost var a0, b0 := a[..], b[..];
    MatrixMulConst(n, c, a, val);
    crc := SumAndCrc(n, c, clip, 0);
    ghost var c1 := c[..];
    MatrixMulVect(n, c, a, b);
    assert a[..] == a0 && b[..] == b0;
    assert c[..] == VectorResult(c1, a0, b0, n);
    crc := SumAndCrc(n, c, clip, crc);
    MatrixMulMatrix(false, n, c, a, b);
    crc := SumAndCrc(n, c, clip, crc);
    assert a[..] == a0 && b[..] == b0;
    MatrixMulMatrix(true, n, c, a, b);
    crc := SumAndCrc(n, c, clip, crc);
    assert a[..] == a0 && b[..] == b0;
  }
}
