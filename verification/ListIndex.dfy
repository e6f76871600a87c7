/** The idx and data values that core_list_init of core_list_join.c gives its items, and when the idx
    values differ, on which the restoration of the list depends. */
module ListIndex {
  import opened Words
  import opened Records
  import opened Items

  // ---------- The values ----------

  /** Where the block is cut: how many list headers, and how many data items, have room. */
  function ListSize(blksize: u32): int {
    blksize / 20 - 2
  }

  /** Headers and data items fit into the block, with 32-bit and with 64-bit pointers. */
  lemma ListFits(blksize: u32, pointer: nat)
    requires ListSize(blksize) >= 0 && (pointer == 4 || pointer == 8)
    ensures 2 * pointer * ListSize(blksize) + 4 * ListSize(blksize) + 40 <= blksize
  {
  }

  /** The data of the i-th item: bits 0-2 choose the operation, bits 3-6 hold its input, and the upper
      byte repeats the lower one. */
  function ItemData(seed: s16, i: nat): u16 {
    Doubled(LowData(seed, i))
  }

  function Doubled(d: u8): u16 {
    d * 0x100 + d
  }

  function LowData(seed: s16, i: nat): (d: u8)
    ensures d < 0x80
  {
    Xor(ToU16(seed), i) % 16 * 8 + i % 8
  }

  const HEADER_DATA: u16 := 0x8080
  const TAIL_DATA: u16 := 0xffff
  const TAIL_IDX: s16 := 0x7fff

  function Low(x: nat): nat {
    x % 0x100
  }

  function High(x: nat): nat {
    x / 0x100
  }

  /** A pseudo random number for position `k`, from the bit pattern `s` of the seed. */
  function SeedPattern(s: u16, k: nat): u16 {
    Xor16(k % 0x1_0000, s)
  }

  function Mixed(s: u16, k: nat): s16 {
    Or((k + 1) % 8 * 0x100, SeedPattern(s, k)) % 0x4000
  }

  /** The idx of the element at position `p` of the list before it is sorted; the last is the tail. */
  function InitialIdx(size: nat, seed: s16, p: nat): s16 {
    if p == 0 then 0
    else if p + 2 == size then TAIL_IDX
    else if p < size / 5 then ToS16(p)
    else Mixed(ToU16(seed), p)
  }

  /** Items are inserted behind the header, so the first one inserted comes last, before the tail. */
  function InitialItem(size: nat, seed: s16, p: nat): Item {
    Item(Doubled(InitialByte(size, seed, p)), InitialIdx(size, seed, p))
  }

  function InitialByte(size: nat, seed: s16, p: nat): (d: u8)
    ensures d >= 0x80 <==> p == 0 || p + 2 == size
  {
    if p == 0 then HEADER_DATA % 0x100
    else if p + 2 == size then TAIL_DATA % 0x100
    else LowData(seed, if p + 3 <= size then size - 3 - p else 0)
  }

  /** The header has the smallest idx and the tail the largest, as long as a fifth of the list can be
      numbered in signed shorts. */
  lemma IdxBounds(size: nat, seed: s16, p: nat)
    requires size / 5 <= 0x7fff && size >= 3 && p < size - 1
    ensures 0 <= InitialIdx(size, seed, p)
    ensures InitialIdx(size, seed, p) < TAIL_IDX <==> p + 2 != size
  {
  }

  lemma DoubledByte(dat: u8)
    ensures Regenerated(Doubled(dat)) && (Cached(Doubled(dat)) <==> dat >= 0x80)
  {
    OwnBackup(Doubled(dat), dat);
    BitSeven(Doubled(dat), dat, dat);
  }

  lemma OwnBackup(x: u16, dat: u8)
    requires x == dat * 0x100 + dat
    ensures Regenerated(x)
  {
  }

  lemma BitSeven(x: u16, h: u8, l: u8)
    requires x == h * 0x100 + l
    ensures Cached(x) <==> l >= 0x80
  {
    if l < 0x80 {
      HalfBytes(2 * h, l);
    } else {
      HalfBytes(2 * h + 1, l - 0x80);
    }
  }

  /** Every item is its own backup; header and tail count as cached and all others are still to be
      calculated. */
  lemma InitialItemFacts(size: nat, seed: s16, p: nat)
    ensures var x := InitialItem(size, seed, p);
            Regenerated(x.data16) && (Cached(x.data16) <==> p == 0 || p + 2 == size)
  {
    var d := InitialByte(size, seed, p);
    assert InitialItem(size, seed, p).data16 == Doubled(d);
    DoubledByte(d);
  }

  /** The i-th item that is inserted asks for operation i modulo 8, whatever the seed; its input repeats the
      lower four bits of seed xor i. */
  lemma ItemKind(size: nat, seed: s16, p: nat, i: nat)
    requires 0 < p && p + i + 3 == size
    ensures InitialItem(size, seed, p).data16 % 8 == i % 8 && !Cached(InitialItem(size, seed, p).data16)
    ensures DataType(InitialItem(size, seed, p).data16) == 0x11 * (Xor(ToU16(seed), i) % 16)
  {
    InitialItemFacts(size, seed, p);
    LowThree(InitialByte(size, seed, p), Xor(ToU16(seed), i) % 16, i % 8);
  }

  lemma LowThree(d: u8, h: nat, r: nat)
    requires d == h * 8 + r && r < 8 && h < 16
    ensures Doubled(d) % 8 == r && Doubled(d) / 8 % 16 == h
  {
    assert Doubled(d) == 8 * (0x101 * h + 0x20 * r) + r;
    assert 0x101 * h + 0x20 * r == 16 * (0x10 * h + 2 * r) + h;
  }

  lemma Bytes(h: nat, l: nat)
    requires l < 0x100
    ensures High(0x100 * h + l) == h && Low(0x100 * h + l) == l
  {
  }

  lemma HalfBytes(h: nat, l: nat)
    requires l < 0x80
    ensures (0x80 * h + l) / 0x80 == h
  {
  }

  // ---------- Exclusive and inclusive or, byte by byte ----------

  /** a << n */
  function ShiftLeft(a: nat, n: nat): nat {
    if n == 0 then a else 2 * ShiftLeft(a, n - 1)
  }

  lemma ShiftByByte(a: nat)
    ensures ShiftLeft(a, 6) == 0x40 * a && ShiftLeft(a, 8) == 0x100 * a
  {
    assert ShiftLeft(a, 1) == 2 * a;
    assert ShiftLeft(a, 2) == 4 * a;
    assert ShiftLeft(a, 4) == 4 * ShiftLeft(a, 2);
    assert ShiftLeft(a, 6) == 4 * ShiftLeft(a, 4);
  }

  lemma XorDouble(a: nat, x: nat, b: nat, y: nat, c: nat)
    requires Xor(a + x / 2, b + y / 2) == c + Xor(x / 2, y / 2)
    ensures Xor(2 * a + x, 2 * b + y) == 2 * c + Xor(x, y)
  {
    XorStep(2 * a + x, 2 * b + y, c + Xor(x / 2, y / 2));
    XorStep(x, y, Xor(x / 2, y / 2));
  }

  /** The lower `n` bits and the others can be combined separately. */
  lemma {:induction false} XorParts(a: nat, x: nat, b: nat, y: nat, n: nat)
    requires x < Pow2(n) && y < Pow2(n)
    ensures Xor(ShiftLeft(a, n) + x, ShiftLeft(b, n) + y) == ShiftLeft(Xor(a, b), n) + Xor(x, y)
  {
    if n > 0 {
      XorParts(a, x / 2, b, y / 2, n - 1);
      XorDouble(ShiftLeft(a, n - 1), x, ShiftLeft(b, n - 1), y, ShiftLeft(Xor(a, b), n - 1));
    } else {
      XorZero(0);
    }
  }

  lemma OrStep(a: nat, b: nat, half: nat)
    requires Or(a / 2, b / 2) == half
    ensures Or(a, b) == 2 * half + BitValue(a % 2 == 1 || b % 2 == 1)
  {
  }

  lemma OrDouble(a: nat, x: nat, b: nat, y: nat, c: nat)
    requires Or(a + x / 2, b + y / 2) == c + Or(x / 2, y / 2)
    ensures Or(2 * a + x, 2 * b + y) == 2 * c + Or(x, y)
  {
    OrStep(2 * a + x, 2 * b + y, c + Or(x / 2, y / 2));
    OrStep(x, y, Or(x / 2, y / 2));
  }

  lemma {:induction false} OrParts(a: nat, x: nat, b: nat, y: nat, n: nat)
    requires x < Pow2(n) && y < Pow2(n)
    ensures Or(ShiftLeft(a, n) + x, ShiftLeft(b, n) + y) == ShiftLeft(Or(a, b), n) + Or(x, y)
  {
    if n > 0 {
      OrParts(a, x / 2, b, y / 2, n - 1);
      OrDouble(ShiftLeft(a, n - 1), x, ShiftLeft(b, n - 1), y, ShiftLeft(Or(a, b), n - 1));
    } else {
      OrZero(0);
    }
  }

  lemma {:induction false} OrZero(b: nat)
    ensures Or(0, b) == b
  {
    if b > 0 {
      OrZero(b / 2);
    }
  }

  lemma {:induction false} OrSelf(a: nat, b: nat, n: nat)
    requires a + 1 == Pow2(n) && b < Pow2(n)
    ensures Or(a, b) == a
  {
    if n > 0 {
      OrSelf(a / 2, b / 2, n - 1);
    }
  }

  lemma {:induction false} OrVanishes(a: nat, b: nat)
    ensures Or(a, b) == 0 <==> a == 0 && b == 0
    decreases a + b
  {
    if a + b > 0 {
      OrVanishes(a / 2, b / 2);
    }
  }

  lemma SeedPatternBytes(s: u16, k: nat)
    ensures Low(SeedPattern(s, k)) == Xor(Low(k), Low(s))
    ensures High(SeedPattern(s, k)) == Xor(High(k) % 0x100, High(s))
  {
    var h: u8, l: u8 := High(k) % 0x100, Low(k);
    SixteenBits(k);
    XorBytes(h, l, High(s), Low(s));
    assert s == 0x100 * High(s) + Low(s);
  }

  lemma SixteenBits(k: nat)
    ensures k % 0x1_0000 == 0x100 * (High(k) % 0x100) + Low(k)
  {
    assert k == 0x1_0000 * (High(k) / 0x100) + (0x100 * (High(k) % 0x100) + Low(k));
  }

  lemma XorBytes(h1: u8, l1: u8, h2: u8, l2: u8)
    ensures Low(Xor(0x100 * h1 + l1, 0x100 * h2 + l2)) == Xor(l1, l2)
    ensures High(Xor(0x100 * h1 + l1, 0x100 * h2 + l2)) == Xor(h1, h2)
  {
    PowByte();
    XorParts(h1, l1, h2, l2, 8);
    ShiftByByte(h1);
    ShiftByByte(h2);
    ShiftByByte(Xor(h1, h2));
    XorBound(l1, l2, 8);
    Bytes(Xor(h1, h2), Xor(l1, l2));
  }

  /** The lower byte of a mixed idx is the pattern's; the upper six bits have (k + 1) mod 8 or-ed in. */
  lemma MixedBytes(s: u16, k: nat)
    ensures Low(Mixed(s, k)) == Low(SeedPattern(s, k))
    ensures High(Mixed(s, k)) == Or((k + 1) % 8, High(SeedPattern(s, k))) % 0x40
  {
    var m, pat := (k + 1) % 8, SeedPattern(s, k);
    OrByte(m, High(pat), Low(pat));
    FourteenBits(Or(m * 0x100, pat), Or(m, High(pat)), Low(pat));
  }

  lemma PowByte()
    ensures Pow2(8) == 0x100
  {
    Pow2Values();
  }

  lemma OrByte(m: nat, h: nat, l: u8)
    ensures Or(m * 0x100, 0x100 * h + l) == 0x100 * Or(m, h) + l
  {
    PowByte();
    OrParts(m, 0, h, l, 8);
    OrZero(l);
    ShiftByByte(m);
    ShiftByByte(h);
    ShiftByByte(Or(m, h));
  }

  lemma FourteenBits(x: nat, h: nat, l: nat)
    requires x == 0x100 * h + l && l < 0x100
    ensures Low(x % 0x4000) == l && High(x % 0x4000) == h % 0x40
  {
    FourteenBitsBack(x, h, l);
    Bytes(h % 0x40, l);
  }

  /** A mixed idx is below 256 exactly when neither k + 1 nor the pattern contributes an upper bit. */
  lemma MixedIsSmall(s: u16, k: nat)
    ensures High(Mixed(s, k)) == 0 <==> (k + 1) % 8 == 0 && High(SeedPattern(s, k)) % 0x40 == 0
  {
    MixedBytes(s, k);
    OrLow((k + 1) % 8, High(SeedPattern(s, k)));
    OrVanishes((k + 1) % 8, High(SeedPattern(s, k)) % 0x40);
  }

  lemma OrLow(m: nat, h: nat)
    requires m < 8
    ensures Or(m, h) % 0x40 == Or(m, h % 0x40)
  {
    Pow2Values();
    assert Pow2(6) == 4 * Pow2(4);
    var q, r := h / 0x40, h % 0x40;
    OrParts(0, m, q, r, 6);
    ShiftByByte(0);
    ShiftByByte(q);
    ShiftByByte(Or(0, q));
    OrBound(m, r, 6);
    SixBits(Or(m, h), Or(0, q), Or(m, r));
  }

  lemma SixBits(x: nat, h: nat, l: nat)
    requires x == 0x40 * h + l && l < 0x40
    ensures x % 0x40 == l
  {
  }

  // ---------- When all idx values differ ----------

  ghost predicate IdxDistinct(size: nat, seed: s16) {
    forall p, q :: 0 <= p < q < size - 1 ==> InitialIdx(size, seed, p) != InitialIdx(size, seed, q)
  }

  /** A mixed item that would fall among the first fifth of the list, which is numbered in order. */
  predicate FallsAmongFirst(size: nat, s: u16, k: nat) {
    (k + 1) % 8 == 0 && SeedPattern(s, k) % 0x4000 < size / 5
  }

  /** What a caller can check. */
  ghost predicate GoodSeed(size: nat, s: u16) {
    size <= 322 && forall k :: size / 5 <= k <= size - 3 ==> !FallsAmongFirst(size, s, k)
  }

  lemma MixedAmongFirst(size: nat, s: u16, k: nat)
    requires size <= 322
    ensures Mixed(s, k) < size / 5 <==> FallsAmongFirst(size, s, k)
  {
    MixedIsSmall(s, k);
    MixedBytes(s, k);
    SmallParts(Mixed(s, k), SeedPattern(s, k), size / 5);
  }

  lemma SmallParts(x: nat, pat: nat, n: nat)
    requires n <= 0x100 && Low(x) == Low(pat)
    ensures pat % 0x4000 < n <==> High(pat) % 0x40 == 0 && Low(pat) < n
    ensures x < n <==> High(x) == 0 && Low(pat) < n
  {
    SmallWord(n, High(x), Low(x));
    FourteenBitsBack(pat, High(pat), Low(pat));
    SmallWord(n, High(pat) % 0x40, Low(pat));
  }

  lemma SmallWord(n: nat, h: nat, l: nat)
    requires n <= 0x100 && l < 0x100
    ensures 0x100 * h + l < n <==> h == 0 && l < n
  {
  }

  lemma FourteenBitsBack(x: nat, h: nat, l: nat)
    requires x == 0x100 * h + l && l < 0x100
    ensures x % 0x4000 == 0x100 * (h % 0x40) + l
  {
    assert x == 0x4000 * (h / 0x40) + (0x100 * (h % 0x40) + l);
  }

  lemma MixedDiffer(s: u16, k: nat, k': nat)
    requires k < k' < k + 0x100
    ensures Mixed(s, k) != Mixed(s, k')
  {
    MixedBytes(s, k);
    MixedBytes(s, k');
    SeedPatternBytes(s, k);
    SeedPatternBytes(s, k');
    XorCommutes(Low(k), Low(s));
    XorCommutes(Low(k'), Low(s));
    if Low(Mixed(s, k)) == Low(Mixed(s, k')) {
      XorCancels(Low(s), Low(k), Low(k'));
      assert false;
    }
  }

  lemma GoodSeedsDiffer(size: nat, seed: s16, p: nat, q: nat)
    requires size >= 3 && GoodSeed(size, ToU16(seed)) && p < q < size - 1
    ensures InitialIdx(size, seed, p) != InitialIdx(size, seed, q)
  {
    var s := ToU16(seed);
    if q + 2 == size {
    } else if q < size / 5 {
      FirstIdx(size, seed, p);
      FirstIdx(size, seed, q);
    } else {
      MixedIdx(size, seed, q);
      MixedAmongFirst(size, s, q);
      if p == 0 {
        MixedIsNotZero(size, s, q);
      } else if p < size / 5 {
        FirstIdx(size, seed, p);
      } else {
        MixedIdx(size, seed, p);
        MixedDiffer(s, p, q);
      }
    }
  }

  /** Below ten elements no mixed item has k + 1 divisible by 8. */
  lemma MixedIsNotZero(size: nat, s: u16, k: nat)
    requires 0 < k <= size - 3 && Mixed(s, k) >= size / 5
    ensures Mixed(s, k) != 0
  {
    if size < 10 {
      MixedIsSmall(s, k);
    }
  }

  /** Two equal values, where (k + 1) mod 8 is odd and hides the bit in which k and k + 256 differ. */
  lemma LargeListsRepeat(s: u16, k: nat)
    requires k % 2 == 0 && High(k) % 2 == 0
    ensures Mixed(s, k) == Mixed(s, k + 0x100)
  {
    var k', h := k + 0x100, High(k) % 0x100;
    Later(k);
    SeedPatternBytes(s, k);
    SeedPatternBytes(s, k');
    MixedBytes(s, k);
    MixedBytes(s, k');
    HiddenBit((k + 1) % 8, h, High(s));
    SameBytes(Mixed(s, k), Mixed(s, k'));
  }

  lemma Later(k: nat)
    requires k % 2 == 0 && High(k) % 2 == 0
    ensures High(k + 0x100) % 0x100 == High(k) % 0x100 + 1 && Low(k + 0x100) == Low(k)
    ensures (k + 0x100 + 1) % 8 == (k + 1) % 8 && (k + 1) % 8 % 2 == 1 && High(k) % 0x100 % 2 == 0
  {
    var q := High(k);
    Bytes(q + 1, Low(k));
    assert k + 0x100 == 0x100 * (q + 1) + Low(k);
    EvenByte(q);
    OddRemainder(k);
  }

  lemma EvenByte(q: nat)
    requires q % 2 == 0
    ensures q % 0x100 % 2 == 0 && (q + 1) % 0x100 == q % 0x100 + 1
  {
    var r := q % 0x100;
    assert q == 0x100 * (q / 0x100) + r;
  }

  lemma OddRemainder(k: nat)
    requires k % 2 == 0
    ensures (k + 0x100 + 1) % 8 == (k + 1) % 8 && (k + 1) % 8 % 2 == 1
  {
  }

  lemma SameBytes(x: nat, y: nat)
    requires Low(x) == Low(y) && High(x) == High(y)
    ensures x == y
  {
  }

  lemma HiddenBit(m: nat, high: nat, s: nat)
    requires m % 2 == 1 && high % 2 == 0
    ensures Or(m, Xor(high, s)) == Or(m, Xor(high + 1, s))
  {
    assert (high + 1) / 2 == high / 2;
    assert Xor(high, s) / 2 == Xor(high / 2, s / 2) == Xor(high + 1, s) / 2;
  }

  /** A position whose value comes back 256 positions later. */
  function Repeating(size: nat): (k: nat)
    requires size >= 323
    ensures size / 5 <= k && k + 0x100 <= size - 3
    ensures k % 2 == 0 && High(k) % 2 == 0
  {
    var m := size / 5;
    var t := m / 512;
    BitEightClear(t, m % 512);
    if m % 512 < 255 then m + m % 2 else 512 * t + 512
  }

  lemma BitEightClear(t: nat, r: nat)
    requires r < 512
    ensures r < 255 ==> (512 * t + r + r % 2) % 2 == 0 && High(512 * t + r + r % 2) == 2 * t
    ensures (512 * t + 512) % 2 == 0 && High(512 * t + 512) == 2 * t + 2
  {
    Bytes(2 * t + 2, 0);
    if r < 255 {
      Bytes(2 * t, r + r % 2);
    }
  }

  lemma FirstIdx(size: nat, seed: s16, p: nat)
    requires p < size / 5 <= 0x7fff
    ensures InitialIdx(size, seed, p) == p
  {
  }

  lemma MixedIdx(size: nat, seed: s16, k: nat)
    requires size / 5 <= k <= size - 3 && k > 0
    ensures InitialIdx(size, seed, k) == Mixed(ToU16(seed), k)
  {
  }

  lemma BadSeedsRepeat(size: nat, seed: s16) returns (p: nat, q: nat)
    requires size >= 3 && !GoodSeed(size, ToU16(seed))
    ensures p < q < size - 1 && 0 <= InitialIdx(size, seed, p) == InitialIdx(size, seed, q)
  {
    var s := ToU16(seed);
    if size <= 322 {
      var k :| size / 5 <= k <= size - 3 && FallsAmongFirst(size, s, k);
      MixedAmongFirst(size, s, k);
      p, q := Mixed(s, k), k;
      FirstIdx(size, seed, p);
      MixedIdx(size, seed, q);
    } else {
      p := Repeating(size);
      q := p + 0x100;
      LargeListsRepeat(s, p);
    }
  }

  /** The idx values differ exactly when the list is no longer than 321 elements and none of the mixed
      ones falls among the first fifth. */
  lemma IdxDistinctIff(size: nat, seed: s16)
    requires size >= 3
    ensures IdxDistinct(size, seed) <==> GoodSeed(size, ToU16(seed))
  {
    if GoodSeed(size, ToU16(seed)) {
      forall p, q | 0 <= p < q < size - 1
        ensures InitialIdx(size, seed, p) != InitialIdx(size, seed, q)
      {
        GoodSeedsDiffer(size, seed, p, q);
      }
    } else {
      var p, q := BadSeedsRepeat(size, seed);
    }
  }

  /** Seed 0 is good, and so is every seed with one of the bits 8-13 set. */
  lemma SimpleGoodSeeds(size: nat, s: u16)
    requires 3 <= size <= 258
    requires s == 0 || High(s) % 0x40 != 0
    ensures GoodSeed(size, s)
  {
    forall k | size / 5 <= k <= size - 3
      ensures !FallsAmongFirst(size, s, k)
    {
      SimplePattern(s, k);
      SmallParts(SeedPattern(s, k), SeedPattern(s, k), size / 5);
    }
  }

  lemma SimplePattern(s: u16, k: nat)
    requires k < 0x100
    ensures High(SeedPattern(s, k)) == High(s)
    ensures s == 0 ==> SeedPattern(s, k) == k
  {
    SmallPosition(k);
    SeedPatternBytes(s, k);
    XorCommutes(0, High(s));
    XorZero(High(s));
    if s == 0 {
      XorZero(k);
    }
  }

  lemma SmallPosition(k: nat)
    requires k < 0x100
    ensures High(k) % 0x100 == 0 && k % 0x1_0000 == k
  {
  }
}
