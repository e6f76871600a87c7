/** main of core_main.c: seeds, the partition of the memory block, initialisation, and the run. */
module Benchmark {
  import opened Words
  import opened Crc
  import opened Records
  import opened Items
  import opened Sorting
  import opened StateBench
  import opened StateInit
  import opened Matrix
  import opened MatrixInit
  import opened Results
  import opened LinkedList
  import opened ListOps
  import opened ListBench
  import opened ListIndex
  import opened ListInit
  import opened CoreMark
  import opened Iterations
  import opened InitialRun
  import opened Renaming

  // ---------- Seeds ----------

  datatype Seeds = Seeds(seed1: s16, seed2: s16, seed3: s16)

  /** 0, 0, 0 asks for the performance run and 1, 0, 0 for the validation run. */
  function DefaultSeeds(s: Seeds): Seeds {
    var t := if s == Seeds(0, 0, 0) then Seeds(0, 0, 0x66) else s;
    if t == Seeds(1, 0, 0) then Seeds(0x3415, 0x3415, 0x66) else t
  }

  /** What the two requests stand for; all other seeds are used as they are. */
  lemma DefaultSeedsAre(s: Seeds)
    ensures s.seed1 == s.seed2 == s.seed3 == 0 ==> DefaultSeeds(s) == Seeds(0, 0, 0x66)
    ensures s.seed1 == 1 && s.seed2 == s.seed3 == 0 ==> DefaultSeeds(s) == Seeds(0x3415, 0x3415, 0x66)
    ensures (s.seed1 != 0 && s.seed1 != 1) || s.seed2 != 0 || s.seed3 != 0 ==> DefaultSeeds(s) == s
    ensures DefaultSeeds(DefaultSeeds(s)) == DefaultSeeds(s)
  {
  }

  /** A signed number in 32 bits. */
  function ToU32(x: int): u32 {
    x % 0x1_0000_0000
  }

  /** (ee_s32)seed1 | ((ee_s32)seed2 << 16) */
  function MatrixSeed(s: Seeds): s32 {
    ToS32(Or(ToU32(s.seed1), ToU32(s.seed2 * 0x1_0000)))
  }

  lemma ShiftByWord(a: nat)
    ensures ShiftLeft(a, 16) == 0x1_0000 * a
  {
    ShiftByByte(a);
    assert ShiftLeft(a, 10) == 4 * ShiftLeft(a, 8);
    assert ShiftLeft(a, 12) == 4 * ShiftLeft(a, 10);
    assert ShiftLeft(a, 14) == 4 * ShiftLeft(a, 12);
    assert ShiftLeft(a, 16) == 4 * ShiftLeft(a, 14);
  }

  lemma OrWords(h1: nat, l: nat, h2: nat)
    requires l < 0x1_0000
    ensures Or(0x1_0000 * h1 + l, 0x1_0000 * h2) == 0x1_0000 * Or(h1, h2) + l
  {
    Pow2Values();
    OrParts(h1, l, h2, 0, 16);
    OrCommutes(l, 0);
    OrZero(l);
    ShiftByWord(h1);
    ShiftByWord(h2);
    ShiftByWord(Or(h1, h2));
  }

  lemma {:induction false} OrCommutes(a: nat, b: nat)
    ensures Or(a, b) == Or(b, a)
    decreases a + b
  {
    if a + b > 0 {
      OrCommutes(a / 2, b / 2);
    }
  }

  lemma UpperHalf(x: s16)
    ensures ToU32(x * 0x1_0000) == 0x1_0000 * (x % 0x1_0000)
  {
  }

  lemma NonNegative(x: s16, y: s16)
    requires x >= 0
    ensures ToU32(x) == x && ToS32(0x1_0000 * (y % 0x1_0000) + x) == 0x1_0000 * y + x
  {
  }

  lemma Negative(x: s16)
    requires x < 0
    ensures ToU32(x) == 0xffff_0000 + (x + 0x1_0000) && ToS32(0xffff_0000 + (x + 0x1_0000)) == x
  {
  }

  /** A negative seed1 is extended with ones, which hide seed2. */
  lemma MatrixSeedIs(s: Seeds)
    ensures MatrixSeed(s) == if s.seed1 < 0 then s.seed1 else s.seed1 + 0x1_0000 * s.seed2
  {
    UpperHalf(s.seed2);
    if s.seed1 < 0 {
      NegativeSeed(s.seed1, s.seed2 % 0x1_0000);
    } else {
      NonNegative(s.seed1, s.seed2);
      OrZero(s.seed2 % 0x1_0000);
      OrWords(0, s.seed1, s.seed2 % 0x1_0000);
    }
  }

  lemma NegativeSeed(x: s16, h: u16)
    requires x < 0
    ensures ToS32(Or(ToU32(x), 0x1_0000 * h)) == x
  {
    Pow2Values();
    Negative(x);
    OrSelf(0xffff, h, 16);
    OrWords(0xffff, x + 0x1_0000, h);
  }

  // ---------- The partition ----------

  const ALL_ALGORITHMS_MASK: u32 := 7

  function DefaultExecs(execs: u32): u32 {
    if execs == 0 then ALL_ALGORITHMS_MASK else execs
  }

  /** 0 selects all three algorithms; any other selection is used as it is. */
  lemma DefaultExecsAre(execs: u32)
    ensures execs != 0 ==> DefaultExecs(execs) == execs
    ensures execs == 0 ==> forall i: nat :: i < 3 ==> Bit(DefaultExecs(execs), i)
  {
  }

  /** How many of the first `i` algorithms are selected. */
  function Rank(execs: nat, i: nat): (n: nat)
    ensures n <= i
  {
    if i == 0 then 0 else Rank(execs, i - 1) + if Bit(execs, i - 1) then 1 else 0
  }

  lemma SomeAlgorithm(execs: nat)
    requires execs % 8 != 0
    ensures Rank(execs, 3) > 0
  {
    if !Bit(execs, 0) && !Bit(execs, 1) && !Bit(execs, 2) {
      ThreeBits(execs);
      assert false;
    }
    RankCounts(execs, 3);
  }

  lemma {:induction false} RankCounts(execs: nat, n: nat)
    ensures forall i: nat :: i < n && Bit(execs, i) ==> Rank(execs, n) > 0
  {
    if n > 0 {
      RankCounts(execs, n - 1);
    }
  }

  lemma ThreeBits(execs: nat)
    requires !Bit(execs, 0) && !Bit(execs, 1) && !Bit(execs, 2)
    ensures execs % 8 == 0
  {
    var h := EvenHalf(execs);
    var q := EvenHalf(h);
    var r := EvenHalf(q);
    assert execs == 8 * r;
  }

  lemma EvenHalf(x: nat) returns (h: nat)
    requires !Bit(x, 0)
    ensures x == 2 * h
    ensures forall i: nat :: Bit(h, i) == Bit(x, i + 1)
  {
    h := x / 2;
  }

  /** The offset of the block of algorithm `i` among blocks of `size` bytes. */
  function BlockOffset(execs: nat, size: nat, i: nat): nat {
    size * Rank(execs, i)
  }

  /** At least one of the three algorithms must be selected: the code divides by their number. */
  method Partition(execs: u32, total: u32, memblock: array<int>) returns (size: u32)
    requires execs % 8 != 0 && memblock.Length == 4
    modifies memblock
    ensures Rank(execs, 3) > 0 && size == total / Rank(execs, 3)
    ensures memblock[0] == old(memblock[0])
    ensures forall i: nat :: i < 3 ==>
      memblock[i + 1] == if Bit(execs, i) then memblock[0] + BlockOffset(execs, size, i) else old(memblock[i + 1])
  {
    var algorithms := 0;
    for i := 0 to 3
      invariant algorithms == Rank(execs, i)
    {
      if Bit(execs, i) {
        algorithms := algorithms + 1;
      }
    }
    SomeAlgorithm(execs);
    size := total / algorithms;
    AssignBlocks(execs, size, memblock);
  }

  method AssignBlocks(execs: u32, size: nat, memblock: array<int>)
    requires memblock.Length == 4
    modifies memblock
    ensures memblock[0] == old(memblock[0])
    ensures forall i: nat :: i < 3 ==>
      memblock[i + 1] == if Bit(execs, i) then memblock[0] + BlockOffset(execs, size, i) else old(memblock[i + 1])
  {
    var j := 0;
    for i := 0 to 3
      invariant j == Rank(execs, i) && memblock[0] == old(memblock[0])
      invariant forall k: nat :: k < i ==>
        memblock[k + 1] == if Bit(execs, k) then memblock[0] + BlockOffset(execs, size, k) else old(memblock[k + 1])
      invariant forall k :: i < k < 4 ==> memblock[k] == old(memblock[k])
    {
      if Bit(execs, i) {
        memblock[i + 1] := memblock[0] + size * j;
        j := j + 1;
      }
    }
  }

  lemma OddHalf(x: nat, q: nat)
    requires x == 2 * q + 1
    ensures Bit(x, 0) && forall i: nat :: Bit(q, i) == Bit(x, i + 1)
  {
    assert x / 2 == q;
  }

  lemma AllSelected(execs: nat)
    requires execs % 8 == 7
    ensures Rank(execs, 3) == 3
  {
    var q := execs / 8;
    assert execs == 8 * q + 7;
    OddHalf(execs, 4 * q + 3);
    OddHalf(4 * q + 3, 2 * q + 1);
    OddHalf(2 * q + 1, q);
    assert Bit(execs, 0) && Bit(execs, 1) && Bit(execs, 2);
    assert Rank(execs, 1) == 1 && Rank(execs, 2) == 2;
  }

  lemma {:induction false} RankGrows(execs: nat, i: nat, k: nat)
    requires i < k && Bit(execs, i)
    ensures Rank(execs, i) + 1 <= Rank(execs, k)
  {
    if i < k - 1 {
      RankGrows(execs, i, k - 1);
    }
  }

  lemma TimesMonotone(size: nat, a: nat, b: nat)
    requires a + 1 <= b
    ensures size * a + size <= size * b
  {
    assert size * b == size * a + size * (b - a);
    assert size * (b - a) == size + size * (b - a - 1);
  }

  /** The blocks of the selected algorithms follow each other without overlap, inside the memory block. */
  lemma BlocksDisjoint(execs: nat, total: nat, i: nat, k: nat)
    requires Rank(execs, 3) > 0 && i < k <= 3 && Bit(execs, i)
    ensures var size := total / Rank(execs, 3);
            BlockOffset(execs, size, i) + size <= BlockOffset(execs, size, k) &&
            BlockOffset(execs, size, i) + size <= total
  {
    var size := total / Rank(execs, 3);
    RankGrows(execs, i, k);
    RankGrows(execs, i, 3);
    TimesMonotone(size, Rank(execs, i), Rank(execs, k));
    TimesMonotone(size, Rank(execs, i), Rank(execs, 3));
    assert size * Rank(execs, 3) <= total;
  }

  // ---------- When iterations are identical ----------

  /** What makes every call start from the same data in blocks at `base`: C does not reach the text, and the
      list and the text come back. */
  ghost predicate Repeatable(base: u32, size: u32, seeds: Seeds) {
    base + 2 * size <= 0xffff_fff0 && MatricesFit(base + size, size) && ListAndTextReturn(size, seeds)
  }

  /** Distinct idx values in the list, equal low bytes of the seeds, and no byte of the text that turns into
      a comma. */
  ghost predicate ListAndTextReturn(size: u32, seeds: Seeds) {
    && ListSize(size) >= 4 && GoodSeed(ListSize(size), ToU16(seeds.seed1))
    && seeds.seed1 % 0x100 == seeds.seed2 % 0x100
    && Harmless(ListSize(size), seeds.seed1, InitialText(size, seeds.seed1))
  }

  lemma XorEight(q: nat)
    requires q < 4
    ensures 7 <= Xor(8 * q + 7, 8) < 0x20
  {
    assert Pow2(2) == 4;
    assert Pow2(3) == 8;
    XorBound(q, 1, 2);
    XorZero(7);
    XorParts(q, 7, 1, 0, 3);
    ShiftByThree(q);
    ShiftByThree(1);
    ShiftByThree(Xor(q, 1));
  }

  lemma EightAt(s: u16, k: nat)
    requires s == 8 && 6 <= k <= 28
    ensures !FallsAmongFirst(31, s, k)
  {
    if (k + 1) % 8 == 0 {
      var q := EighthsOf(k);
      assert q < 4;
      EightFlips(s, k, q);
      SmallWordStays(SeedPattern(s, k));
    }
  }

  function EighthsOf(k: nat): (q: nat)
    requires (k + 1) % 8 == 0
    ensures k == 8 * q + 7
  {
    k / 8
  }

  lemma EightFlips(s: u16, k: nat, q: nat)
    requires s == 8 && k == 8 * q + 7 && q < 4
    ensures 7 <= SeedPattern(s, k) < 0x20
  {
    XorEight(q);
    assert k % 0x1_0000 == k;
  }

  /** Seed 8 flips bit 3 only, which does not bring any position from 6 to 28 below 6. */
  lemma EightIsGood(s: u16)
    requires s == 8
    ensures GoodSeed(31, s)
  {
    forall k | 6 <= k <= 28
      ensures !FallsAmongFirst(31, s, k)
    {
      EightAt(s, k);
    }
  }

  lemma ShiftByThree(a: nat)
    ensures ShiftLeft(a, 3) == 8 * a
  {
    assert ShiftLeft(a, 1) == 2 * a;
  }

  lemma QuietSeeds(size: u32, seeds: Seeds)
    requires size == 649 || size == 666
    requires (seeds.seed1 == seeds.seed2 == 0) || (seeds.seed1 == seeds.seed2 == 0x3415) ||
             (size == 666 && seeds.seed1 == seeds.seed2 == 8)
    ensures ListAndTextReturn(size, seeds)
  {
    var list := ListSize(size);
    assert list == if size == 649 then 30 else 31;
    if seeds.seed1 == 8 {
      EightIsGood(8);
    } else {
      SimpleGoodSeeds(list, ToU16(seeds.seed1));
    }
    if seeds.seed1 != 0 {
      KnownSeedsQualify(seeds.seed1 % 0x100);
    }
    QuietSeedIsHarmless(list, size, seeds.seed1);
  }

  /** The performance, validation and profile runs on blocks of 666 bytes, a third of 2000, wherever they
      are. */
  lemma StandardRunsRepeat(base: u32, seeds: Seeds)
    requires base + 2 * 666 <= 0xffff_fff0
    requires (seeds.seed1 == seeds.seed2 == 0) || (seeds.seed1 == seeds.seed2 == 0x3415) ||
             (seeds.seed1 == seeds.seed2 == 8)
    ensures Repeatable(base, 666, seeds)
  {
    QuietSeeds(666, seeds);
    FitsInside(base, 666, 9);
  }

  // ---------- When C reaches the text ----------

  /** The seeds, and what initialisation gives to the matrices. */
  ghost function InitialEnv(seeds: Seeds, n: nat): Env {
    var m := MatrixSeed(seeds);
    EnvBase(seeds.seed1, seeds.seed2, n, MatrixA(if m == 0 then 1 else m, n), MatrixB(if m == 0 then 1 else m, n))
  }

  /** For block sizes one above 8n^2, at an address divisible by 4, the last element of C covers the first
      two bytes of the text.  These bytes are not zero at first, and every item that runs the matrix
      benchmark makes them zero, for any seeds and dimensions up to 34. */
  lemma MatricesReachText(base: u32, size: u32, seeds: Seeds, n: nat, val: s16)
    requires base % 4 == 0 && size == 8 * (n * n) + 1 && 2 <= n <= 34 && base + 2 * size <= 0xffff_fff0
    requires 0 <= val <= 0xff
    ensures n * n >= 1 && Fits(size, n) && !MatricesFit(base + size, size)
    ensures OffsetB(base + size, n * n) + 2 * (n * n) < 0x1_0000_0000
    ensures OffsetC(base + size, n * n) + 4 * (n * n) == base + 2 * size + 2
    ensures var env := InitialEnv(seeds, n);
            var c := Product(true, Shifted(env.a, val), env.b, n);
            WordByte(c[n * n - 1], 2) == WordByte(c[n * n - 1], 3) == 0
    ensures InitialText(size, seeds.seed1)[0] != 0
  {
    var m := MatrixSeed(seeds);
    SquareMonotone(2, n);
    ReachOfMatrices(base, size, n);
    LastCell(if m == 0 then 1 else m, n, val);
    InitialTextBegins(size, seeds.seed1);
  }

  lemma ReachOfMatrices(base: u32, size: u32, n: nat)
    requires base % 4 == 0 && size == 8 * (n * n) + 1 && base + 2 * size <= 0xffff_fff0
    ensures Fits(size, n) && !MatricesFit(base + size, size)
    ensures OffsetB(base + size, n * n) + 2 * (n * n) < 0x1_0000_0000
    ensures OffsetC(base + size, n * n) + 4 * (n * n) == base + 2 * size + 2
  {
    FitsInside(base, size, n);
    Layout(base + size, size, n);
    ShiftOfThree(base / 4 + 2 * (n * n), base + size);
  }

  lemma ShiftOfThree(q: nat, mem: u32)
    requires mem == 4 * q + 1 && mem <= 0xffff_fffc
    ensures AlignMem(mem) == mem + 3
  {
    AlignMemIsNext(mem);
  }

  /** The performance seeds with 1947 bytes, three blocks of 649: all other conditions hold, but the text is
      not the initial one after the first item of the matrix benchmark, which every eighth item asks for. */
  lemma SixHundredFortyNine(base: u32, size: u32, n: nat, p: nat, i: nat, seeds: Seeds, val: s16)
    requires size == 649 && n == 9 && 0 < p && p + i + 3 == ListSize(size) && i % 8 == 1 && seeds == Seeds(0, 0, 0x66)
    requires base % 4 == 0 && base + 2 * size <= 0xffff_fff0 && 0 <= val <= 0xff
    ensures n * n >= 1 && ListAndTextReturn(size, seeds) && !Repeatable(base, size, seeds) && Fits(size, n)
    ensures var x := InitialItem(ListSize(size), seeds.seed1, p); x.data16 % 8 == 1 && !Cached(x.data16)
    ensures OffsetB(base + size, n * n) + 2 * (n * n) < 0x1_0000_0000
    ensures OffsetC(base + size, n * n) + 4 * (n * n) == base + 2 * size + 2
    ensures var env := InitialEnv(seeds, n);
            var c := Product(true, Shifted(env.a, val), env.b, n);
            WordByte(c[n * n - 1], 2) == WordByte(c[n * n - 1], 3) == 0 && InitialText(size, seeds.seed1)[0] != 0
  {
    QuietSeeds(size, seeds);
    ItemKind(ListSize(size), seeds.seed1, p, i);
    MatricesReachText(base, size, seeds, n, val);
  }

  // ---------- The run ----------

  /** The part of the memory block that holds the list: headers, then data items. */
  method ListBlock(size: nat) returns (heads: seq<ListHead>, datas: seq<ListData>)
    ensures |heads| == |datas| == size && NoRepeats(heads) && NoRepeats(datas)
    ensures fresh(heads) && fresh(datas)
  {
    heads, datas := [], [];
    for i := 0 to size
      invariant |heads| == |datas| == i && NoRepeats(heads) && NoRepeats(datas)
      invariant fresh(heads) && fresh(datas)
    {
      var d := new ListData(0, 0);
      var h := new ListHead(d);
      heads, datas := heads + [h], datas + [d];
    }
  }

  /** The list, the records, the registers and the text before the first call. */
  function InitialSnap(size: u32, seeds: Seeds, s: seq<ListHead>, items: map<ListHead, Item>): Snap {
    Snap(s, items, Regs(0, 0, 0, InitialText(size, seeds.seed1)))
  }

  ghost function BlockView(heads: seq<ListHead>, datas: seq<ListData>, env: Env): View
    requires |heads| >= 3
  {
    View(Used(heads), Elements(datas), CmpComplex(env), env)
  }

  /** The text and the matrices. */
  method InitBlocks(size: u32, seeds: Seeds) returns (text: array<u8>, mat: MatParams)
    requires 2 <= size <= 8 * 23170 * 23170
    ensures fresh(text) && text[..] == InitialText(size, seeds.seed1)
    ensures Fits(size, mat.n)
    ensures fresh(mat.a) && fresh(mat.b) && fresh(mat.c) && SeparateBlocks(text, mat)
    ensures mat.a[..] == InitialEnv(seeds, mat.n).a && mat.b[..] == InitialEnv(seeds, mat.n).b
  {
    mat := CoreInitMatrix(size, MatrixSeed(seeds));
    text := new u8[size];
    CoreInitState(size, seeds.seed1, text);
  }

  /** The list, in a block with room for at least three headers. */
  method InitList(size: u32, seed: s16)
    returns (list: ListHead, heads: seq<ListHead>, datas: seq<ListData>, ghost s: seq<ListHead>,
             ghost items: map<ListHead, Item>)
    requires ListSize(size) >= 3
    ensures fresh(heads) && fresh(datas) && |heads| == |datas| == ListSize(size)
    ensures Initialised(heads, seed, s, items) && Listed(Used(heads), Elements(datas), s, items, list)
  {
    heads, datas := ListBlock(ListSize(size));
    var l;
    l, s, items := CoreListInit(size, heads, datas, seed);
    InitialSettled(heads, seed, s, items);
    list := l;
  }

  ghost predicate SeparateBlocks(text: array<u8>, mat: MatParams) {
    && mat.a.Length == mat.b.Length == mat.c.Length == mat.n * mat.n && mat.a != mat.b
    && mat.c as object != mat.a as object && mat.c as object != mat.b as object
    && text as object != mat.a as object && text as object != mat.b as object && text as object != mat.c as object
  }

  /** The results structure for blocks that are filled in. */
  method MakeResults(size: u32, seeds: Seeds, text: array<u8>, mat: MatParams, list: ListHead, iterations: nat)
    returns (res: CoreResults)
    requires size >= 2 && text[..] == InitialText(size, seeds.seed1) && SeparateBlocks(text, mat)
    requires mat.a[..] == InitialEnv(seeds, mat.n).a && mat.b[..] == InitialEnv(seeds, mat.n).b
    ensures fresh(res) && res.seed1 == seeds.seed1 && res.seed2 == seeds.seed2 && res.seed3 == seeds.seed3
    ensures res.memblock3 == text && text[..] == InitialText(size, seeds.seed1)
    ensures res.mat == mat && res.list == list && res.iterations == iterations
    ensures ReadyIn(res, InitialEnv(seeds, mat.n))
    ensures res.Registers() == Regs(0, 0, 0, InitialText(size, seeds.seed1))
  {
    InitialTextSafe(size, seeds.seed1);
    res := new CoreResults(seeds.seed1, seeds.seed2, seeds.seed3, text, mat, list, iterations);
  }

  /** The results structure after initialisation, for any seeds. */
  method Setup(size: u32, seeds: Seeds, iterations: nat)
    returns (res: CoreResults, heads: seq<ListHead>, datas: seq<ListData>, ghost s: seq<ListHead>,
             ghost items: map<ListHead, Item>)
    requires size <= 8 * 23170 * 23170 && ListSize(size) >= 3
    ensures fresh(res) && fresh(heads) && fresh(datas) && fresh(Arrays(res))
    ensures res.seed1 == seeds.seed1 && res.seed2 == seeds.seed2 && res.seed3 == seeds.seed3
    ensures res.iterations == iterations && Fits(size, res.mat.n)
    ensures res.memblock3[..] == InitialText(size, seeds.seed1)
    ensures |heads| == |datas| == ListSize(size) && Initialised(heads, seeds.seed1, s, items)
    ensures Current(res, BlockView(heads, datas, InitialEnv(seeds, res.mat.n)), InitialSnap(size, seeds, s, items))
  {
    var list;
    list, heads, datas, s, items := InitList(size, seeds.seed1);
    var text, mat := InitBlocks(size, seeds);
    res := MakeResults(size, seeds, text, mat, list, iterations);
    ghost var x := InitialSnap(size, seeds, s, items);
    CurrentIs(res, BlockView(heads, datas, InitialEnv(seeds, mat.n)), x, x.regs);
  }

  /** A whole run for any seeds, on a third of the memory block at `base` for each of the three algorithms: it
      goes through the states that `Calls` describes, if C ends inside its block. */
  method Run(base: u32, total: u32, execs: u32, given: Seeds, iterations: nat, stack: nat -> u16)
    returns (res: CoreResults, heads: seq<ListHead>, datas: seq<ListData>, ghost s: seq<ListHead>,
             ghost items: map<ListHead, Item>)
    requires DefaultExecs(execs) % 8 == 7 && ListSize(total / 3) >= 4
    requires base + total <= 0xffff_fff0 && MatricesFit(base + total / 3, total / 3)
    ensures Fits(total / 3, res.mat.n) && |heads| == |datas| == ListSize(total / 3)
    ensures Initialised(heads, DefaultSeeds(given).seed1, s, items)
    ensures var seeds := DefaultSeeds(given);
            var env, x := InitialEnv(seeds, res.mat.n), InitialSnap(total / 3, seeds, s, items);
            Current(res, BlockView(heads, datas, env), Calls(env, x, seeds.seed3, stack, 2 * iterations)) &&
            res.crclist == CrcListAfter(env, x, seeds.seed3, stack, iterations)
  {
    var seeds, memblock := DefaultSeeds(given), new int[4];
    memblock[0] := base;
    var size := Partition(DefaultExecs(execs), total, memblock);
    AllSelected(DefaultExecs(execs));
    res, heads, datas, s, items := Setup(size, seeds, iterations);
    ghost var env := InitialEnv(seeds, res.mat.n);
    ghost var x := InitialSnap(size, seeds, s, items);
    InitialRunProceeds(heads, seeds.seed1, x, env, seeds.seed3, stack, 2 * iterations);
    Iterate(res, stack, BlockView(heads, datas, env), x);
  }

  /** All iterations of a run are identical in what they start from, which is what initialisation left. */
  lemma RunIsRepeated(base: u32, size: u32, seeds: Seeds, stack: nat -> u16, k: nat, n: nat, heads: seq<ListHead>,
                      s: seq<ListHead>, items: map<ListHead, Item>)
    requires Repeatable(base, size, seeds) && |heads| == ListSize(size) && Initialised(heads, seeds.seed1, s, items)
    ensures var x := InitialSnap(size, seeds, s, items);
            SameData(x, Calls(InitialEnv(seeds, n), x, seeds.seed3, stack, k))
  {
    IterationsRepeat(heads, seeds.seed1, InitialSnap(size, seeds, s, items), InitialEnv(seeds, n), seeds.seed3, stack,
                     k);
  }

  /** With seeds 25 and 25 every call after the first finds a text other than the initial one. */
  lemma SeedTwentyFiveDamages(base: u32, size: u32, seeds: Seeds, stack: nat -> u16, k: nat, n: nat,
                              heads: seq<ListHead>, s: seq<ListHead>, items: map<ListHead, Item>)
    requires seeds.seed1 == seeds.seed2 == 25 && size >= 280 && k >= 1
    requires base + 2 * size <= 0xffff_fff0 && MatricesFit(base + size, size)
    requires |heads| == ListSize(size) && Initialised(heads, seeds.seed1, s, items)
    ensures Calls(InitialEnv(seeds, n), InitialSnap(size, seeds, s, items), seeds.seed3, stack, k).regs.text !=
            InitialText(size, seeds.seed1)
  {
    SeedTwentyFiveHarms(size, seeds.seed1);
    TextKeptIff(heads, seeds.seed1, InitialSnap(size, seeds, s, items), InitialEnv(seeds, n), seeds.seed3, stack, k);
  }

  /** In a block of up to 133128 bytes the matrix benchmark, for every item that asks for it, codes the
      mathematical products: no sum leaves 32 bits. */
  lemma RunMatrixExact(size: u32, seeds: Seeds, n: nat, data: u16, regs: Regs)
    requires Fits(size, n) && size <= 8 * 129 * 129 && data % 8 == 1
    ensures var env := InitialEnv(seeds, n);
            Calculated(env, data, regs) == CrcWord(TrueTestCrc(n, env.a, env.b, DataType(data)), regs.crc)
  {
    var m := MatrixSeed(seeds);
    DimensionAtMost128(size, n);
    MatrixTestExact(if m == 0 then 1 else m, n, DataType(data));
  }

  /** What initialisation can make of blocks of `size` bytes at `base`: the dimension and the list. */
  ghost predicate Starts(base: u32, size: u32, seeds: Seeds, n: nat, heads: seq<ListHead>, x: Snap) {
    forall i {:trigger Look(RUN, i)} :: Look(RUN, i) ==>
      && base + 2 * size <= 0xffff_fff0 && MatricesFit(base + size, size)
      && Fits(size, n) && |heads| == ListSize(size) && Initialised(heads, seeds.seed1, x.order, x.items)
      && x.regs == Regs(0, 0, 0, InitialText(size, seeds.seed1))
  }

  /** Two runs with the same arguments report the same values, wherever their memory is. */
  lemma RunsAgree(size: u32, seeds: Seeds, stack: nat -> u16, k: nat, base: u32, n: nat, heads: seq<ListHead>, x: Snap,
                  base': u32, n': nat, heads': seq<ListHead>, x': Snap)
    requires Starts(base, size, seeds, n, heads, x) && Starts(base', size, seeds, n', heads', x')
    ensures Calls(InitialEnv(seeds, n), x, seeds.seed3, stack, k).regs ==
            Calls(InitialEnv(seeds, n'), x', seeds.seed3, stack, k).regs
  {
    assert Look(RUN, 0);
    FitsUnique(size, n, n');
    Reproducible(heads, heads', seeds.seed1, x, x', InitialEnv(seeds, n), seeds.seed3, stack, k);
  }
}
