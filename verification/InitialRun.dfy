/** The list, the text and the matrices of main in core_main.c, seen by core_bench_list and by iterate:
    which seeds make every iteration start from the same data, and inputs for which none does. */
module InitialRun {
  import opened Words
  import opened Records
  import opened Items
  import opened Sorting
  import opened SortProof
  import Scanner
  import opened StateBench
  import opened StateInit
  import opened Results
  import opened ListOps
  import opened ListBench
  import opened ListIndex
  import opened ListInit
  import opened Restore
  import opened TextRun
  import opened CoreMark
  import opened Iterations
  import opened RunLog

  // ---------- The order of the initial list ----------

  /** No element behind the header has its idx: what a caller can check of size and seed. */
  ghost predicate HeaderLeads(size: nat, seed: s16) {
    forall p {:trigger InitialIdx(size, seed, p)} :: 0 < p < size - 1 ==> InitialIdx(size, seed, p) > 0
  }

  lemma XorNone(a: nat, b: nat)
    requires Xor(a, b) == 0
    ensures a == b
  {
    XorInvolutive(a, b);
    XorCommutes(0, b);
    XorZero(b);
  }

  lemma MixedNone(s: u16, k: nat)
    requires Mixed(s, k) == 0
    ensures s % 8 == 7
  {
    assert High(Mixed(s, k)) == 0 && Low(Mixed(s, k)) == 0;
    MixedIsSmall(s, k);
    MixedBytes(s, k);
    SeedPatternBytes(s, k);
    XorNone(Low(k), Low(s));
    SameResidue(s, k);
  }

  lemma SameResidue(s: nat, k: nat)
    requires Low(k) == Low(s) && (k + 1) % 8 == 0
    ensures s % 8 == 7
  {
    Eights(0x20 * High(s), Low(s), s);
    Eights(0x20 * High(k), Low(k), k);
    LastOfEight(k);
  }

  lemma Eights(q: nat, r: nat, x: nat)
    requires x == 8 * q + r
    ensures x % 8 == r % 8
  {
  }

  lemma LastOfEight(k: nat)
    requires (k + 1) % 8 == 0
    ensures k % 8 == 7
  {
  }

  /** The header can only share its idx if the seed ends in three ones. */
  lemma MostSeedsLead(size: nat, seed: s16)
    requires 3 <= size <= 5 * 0x7fff && ToU16(seed) % 8 != 7
    ensures HeaderLeads(size, seed)
  {
    forall p | 0 < p < size - 1
      ensures InitialIdx(size, seed, p) > 0
    {
      IdxBounds(size, seed, p);
      if size / 5 <= p && p + 2 != size && Mixed(ToU16(seed), p) == 0 {
        MixedNone(ToU16(seed), p);
      }
    }
  }

  /** The list and its records, as initialisation leaves them in the given headers. */
  ghost predicate Initialised(heads: seq<ListHead>, seed: s16, s: seq<ListHead>, items: map<ListHead, Item>) {
    |heads| >= 3 && NoRepeats(heads) && InitialRecords(heads, seed, items) && InitialOrder(heads, s, items)
  }

  lemma InitialSettled(heads: seq<ListHead>, seed: s16, s: seq<ListHead>, items: map<ListHead, Item>)
    requires Initialised(heads, seed, s, items)
    ensures Settled(s, items) && |s| == |heads| - 1 && multiset(s) == multiset(Inserted(heads))
    ensures forall n :: n in items ==> n in s
  {
    var t := Inserted(heads);
    InsertedFacts(heads);
    InitialTouched(heads, seed, items);
    SamePermutation(t, s);
    assert |s| == |multiset(s)| == |multiset(t)| == |t|;
  }

  lemma PositionOf(heads: seq<ListHead>, seed: s16, items: map<ListHead, Item>, n: ListHead) returns (p: nat)
    requires |heads| >= 3 && InitialRecords(heads, seed, items) && n in Inserted(heads)
    ensures p < |heads| - 1 && Inserted(heads)[p] == n && items[n] == InitialItem(|heads|, seed, p)
    ensures KeyOf(CmpIdx(), n, items) == InitialIdx(|heads|, seed, p)
  {
    p :| p < |Inserted(heads)| && Inserted(heads)[p] == n;
    InitialKey(heads, seed, items, p);
  }

  lemma HeaderIsFirst(heads: seq<ListHead>, seed: s16, s: seq<ListHead>, items: map<ListHead, Item>)
    requires Initialised(heads, seed, s, items) && HeaderLeads(|heads|, seed)
    ensures s != [] && s[0] == heads[0] && HeaderAlone(s, items)
  {
    var t := Inserted(heads);
    InitialSettled(heads, seed, s, items);
    SamePermutation(t, s);
    InitialKey(heads, seed, items, 0);
    forall n | n in t && n != t[0]
      ensures KeyOf(CmpIdx(), t[0], items) < KeyOf(CmpIdx(), n, items)
    {
      var p := PositionOf(heads, seed, items, n);
    }
    SmallestStaysFirst(CmpIdx(), t, s, items);
  }

  lemma InitialDistinct(heads: seq<ListHead>, seed: s16, s: seq<ListHead>, items: map<ListHead, Item>)
    requires Initialised(heads, seed, s, items)
    ensures DistinctKeys(CmpIdx(), s, items) <==> GoodSeed(|heads|, ToU16(seed))
  {
    InitialSettled(heads, seed, s, items);
    InsertedFacts(heads);
    InitialKeysDistinct(heads, seed, items);
    SameDistinct(s, Inserted(heads), items);
  }

  /** The promise of core_bench_list for the list of a run, of any size and seed: the order comes back from
      every call that iterate may make if and only if the idx values differ. */
  lemma InitialRestoredIff(heads: seq<ListHead>, seed: s16, s: seq<ListHead>, items: map<ListHead, Item>)
    requires Initialised(heads, seed, s, items)
    ensures RestoredBy(1, s, items) && RestoredBy(-1, s, items) <==> GoodSeed(|heads|, ToU16(seed))
  {
    InitialSettled(heads, seed, s, items);
    InitialDistinct(heads, seed, s, items);
    AlwaysRestoredIff(s, items);
  }

  // ---------- What a run keeps ----------

  /** Position 1 never has the header's idx 0. */
  lemma FirstPositive(size: nat, seed: s16)
    requires size >= 4
    ensures InitialIdx(size, seed, 1) > 0
  {
    if size / 5 <= 1 {
      NotLastOfEight(ToU16(seed), 1);
    }
  }

  lemma NotLastOfEight(s: u16, k: nat)
    requires (k + 1) % 8 != 0
    ensures Mixed(s, k) > 0
  {
    MixedIsSmall(s, k);
  }

  /** The first item and the tail come behind the header, whatever the size and the seed. */
  lemma InitialTwoBehind(heads: seq<ListHead>, seed: s16, x: Snap)
    requires Initialised(heads, seed, x.order, x.items) && |heads| >= 4
    ensures TwoBehind(x)
  {
    var size, t := |heads|, Inserted(heads);
    InitialSettled(heads, seed, x.order, x.items);
    InsertedFacts(heads);
    SamePermutation(t, x.order);
    FirstPositive(size, seed);
    InitialKey(heads, seed, x.items, 0);
    InitialKey(heads, seed, x.items, 1);
    InitialKey(heads, seed, x.items, size - 2);
    assert t[0] in t && t[1] in t && t[size - 2] in t && t[1] != t[size - 2];
    HeaderSmallest(x.order, x.items, t[0]);
    assert Behind(x, t[1]) && Behind(x, t[size - 2]);
  }

  /** For every size and seed and any number of calls: all records are the initial ones, and the list lacks
      at most elements with the header's idx; none at all if no element shares it. */
  lemma InitialRunKeeps(heads: seq<ListHead>, seed: s16, x: Snap, env: Env, findNum: s16, stack: nat -> u16, n: nat)
    requires Initialised(heads, seed, x.order, x.items) && |heads| >= 4
    ensures var y := Calls(env, x, findNum, stack, n);
            && y.items == x.items && Settled(y.order, y.items) && |y.order| >= 3 && y.order[0] == x.order[0]
            && (forall h :: h in y.order ==> h in x.order)
            && (forall h :: h in x.order && h !in y.order ==>
                  KeyOf(CmpIdx(), h, x.items) == KeyOf(CmpIdx(), x.order[0], x.items))
            && (HeaderLeads(|heads|, seed) ==> multiset(y.order) == multiset(x.order))
  {
    var y := Calls(env, x, findNum, stack, n);
    InitialSettled(heads, seed, x.order, x.items);
    InitialTwoBehind(heads, seed, x);
    RunKeeps(env, x, findNum, stack, n);
    KeptFacts(x, y);
    ThreeLeft(x, y);
    forall h | h in x.order && h !in y.order
      ensures KeyOf(CmpIdx(), h, x.items) == KeyOf(CmpIdx(), x.order[0], x.items)
    {
      OnlyTiesLost(x, y, h);
    }
    if HeaderLeads(|heads|, seed) {
      HeaderIsFirst(heads, seed, x.order, x.items);
      NothingLost(x, y);
    }
  }

  /** So the calls of a run never run out of nodes. */
  lemma InitialRunProceeds(heads: seq<ListHead>, seed: s16, x: Snap, env: Env, findNum: s16, stack: nat -> u16, n: nat)
    requires Initialised(heads, seed, x.order, x.items) && |heads| >= 4
    ensures Proceeds(env, x, findNum, stack, n)
  {
    InitialSettled(heads, seed, x.order, x.items);
    InitialTwoBehind(heads, seed, x);
    RunProceeds(env, x, findNum, stack, n);
  }

  // ---------- Calls that change the order ----------

  lemma XorLowBits(a: nat, b: nat)
    requires Xor(a, b) % 8 == 0
    ensures a % 8 == b % 8
  {
    XorLowBit(a, b);
    XorLowBit(a / 2, b / 2);
    XorLowBit(a / 2 / 2, b / 2 / 2);
    LowThreeBits(Xor(a, b));
    LowThreeBits(a);
    LowThreeBits(b);
  }

  lemma LowThreeBits(x: nat)
    ensures x % 8 == x % 2 + 2 * (x / 2 % 2) + 4 * (x / 2 / 2 % 2)
  {
    var h := x / 2 / 2;
    assert x == 4 * h + 2 * (x / 2 % 2) + x % 2;
    Eights(h / 2, 4 * (h % 2) + 2 * (x / 2 % 2) + x % 2, x);
  }

  lemma XorLowBit(a: nat, b: nat)
    ensures Xor(a, b) % 2 == 0 <==> a % 2 == b % 2
    ensures Xor(a, b) / 2 == Xor(a / 2, b / 2)
  {
  }

  lemma ItemNotZero(seed: s16, i: nat)
    requires ToU16(seed) % 8 != 0
    ensures LowData(seed, i) != 0
  {
    if LowData(seed, i) == 0 {
      LowParts(Xor(ToU16(seed), i), i);
      XorLowBits(ToU16(seed), i);
    }
  }

  lemma LowParts(x: nat, i: nat)
    requires x % 16 * 8 + i % 8 == 0
    ensures x % 8 == 0 && i % 8 == 0
  {
    assert x == 8 * (2 * (x / 16));
  }

  /** With a seed that is no multiple of 8 no low byte is 0, so that the first search by data misses. */
  lemma FirstSearchMisses(heads: seq<ListHead>, seed: s16, s: seq<ListHead>, items: map<ListHead, Item>)
    requires Initialised(heads, seed, s, items) && ToU16(seed) % 8 != 0
    ensures AllMiss(s, items, 1)
  {
    var size, t := |heads|, Inserted(heads);
    InitialSettled(heads, seed, s, items);
    SamePermutation(t, s);
    forall x | x in s
      ensures ItemAt(items, x).data16 % 0x100 != LowByte(0)
    {
      var p := PositionOf(heads, seed, items, x);
      LowByteOf(size, seed, p);
      ItemNotZero(seed, if p + 3 <= size then size - 3 - p else 0);
    }
  }

  lemma LowByteOf(size: nat, seed: s16, p: nat)
    ensures InitialItem(size, seed, p).data16 % 0x100 == InitialByte(size, seed, p)
  {
    DoubledLow(InitialByte(size, seed, p));
  }

  lemma DoubledLow(d: u8)
    ensures Doubled(d) % 0x100 == d
  {
  }

  /** In a run with seed3 1 every second call, wherever the run stands, restores the order it found if and
      only if the idx values in that list differ; as long as no element shares the header's idx, if and only
      if those of the initial list do. */
  lemma EveryMissRestoresIff(heads: seq<ListHead>, seed: s16, x: Snap, env: Env, stack: nat -> u16, k: nat)
    requires Initialised(heads, seed, x.order, x.items) && |heads| >= 4 && ToU16(seed) % 8 != 0
    ensures var y := Calls(env, x, 1, stack, k);
            var restored := BenchList(env, y, 1, -1, stack(k)).after.order == y.order;
            && (restored <==> DistinctKeys(CmpIdx(), y.order, x.items))
            && (HeaderLeads(|heads|, seed) ==> (restored <==> GoodSeed(|heads|, ToU16(seed))))
  {
    var y := Calls(env, x, 1, stack, k);
    InitialSettled(heads, seed, x.order, x.items);
    InitialTwoBehind(heads, seed, x);
    RunKeeps(env, x, 1, stack, k);
    KeptFacts(x, y);
    ThreeLeft(x, y);
    FirstSearchMisses(heads, seed, x.order, x.items);
    MissLosesOrder(env, x, y, -1, stack(k));
    if HeaderLeads(|heads|, seed) {
      HeaderIsFirst(heads, seed, x.order, x.items);
      NothingLost(x, y);
      SameDistinct(x.order, y.order, x.items);
      InitialDistinct(heads, seed, x.order, x.items);
    }
  }

  lemma SameDistinct(s: seq<ListHead>, t: seq<ListHead>, items: map<ListHead, Item>)
    requires NoRepeats(s) && NoRepeats(t) && multiset(s) == multiset(t)
    ensures DistinctKeys(CmpIdx(), s, items) <==> DistinctKeys(CmpIdx(), t, items)
  {
    if DistinctKeys(CmpIdx(), s, items) {
      DistinctKeysPermute(CmpIdx(), s, t, items);
    }
    if DistinctKeys(CmpIdx(), t, items) {
      DistinctKeysPermute(CmpIdx(), t, s, items);
    }
  }

  lemma XorOfSeven()
    ensures Xor(7, 4) == 3 && Xor(7, 7) == 0
  {
    XorSelf(1);
    XorStep(3, 2, 0);
    XorStep(7, 4, 1);
    XorSelf(7);
  }

  lemma XorSelf(a: nat)
    ensures Xor(a, a) == 0
  {
    XorCommutes(0, a);
    XorZero(a);
    XorInvolutive(0, a);
  }

  /** A pattern among the first fifth of the list. */
  lemma MixedAmongSmall(size: nat, seed: s16, k: nat, pat: nat)
    requires 15 <= size <= 322 && size / 5 <= k <= size - 3 && (k + 1) % 8 == 0
    requires SeedPattern(ToU16(seed), k) == pat < size / 5
    ensures InitialIdx(size, seed, k) == pat && !GoodSeed(size, ToU16(seed))
  {
    MixedIdx(size, seed, k);
    OnlyPattern(ToU16(seed), k, pat);
    SmallWordStays(pat);
    assert FallsAmongFirst(size, ToU16(seed), k);
  }

  lemma SmallWordStays(x: nat)
    requires x < 0x4000
    ensures x % 0x4000 == x
  {
  }

  lemma OnlyPattern(s: u16, k: nat, pat: nat)
    requires (k + 1) % 8 == 0 && SeedPattern(s, k) == pat < 0x100
    ensures Mixed(s, k) == pat
  {
    Bytes(0, pat);
    MixedIsSmall(s, k);
    MixedBytes(s, k);
    SameBytes(Mixed(s, k), pat);
  }

  lemma PatternAtSeven(s: u16, k: nat)
    requires k == 7 && s < 8
    ensures SeedPattern(s, k) == Xor(7, s)
  {
    SmallPosition(k);
  }

  /** An input for which the promise fails, in a block of 666 bytes: with seed 4 the positions 3 and 7 of
      the list share the idx 3, so that every call with one search by data loses the order it found. */
  lemma SeedFourLosesOrder(heads: seq<ListHead>, seed: s16, x: Snap, env: Env, stack: nat -> u16, k: nat)
    requires seed == 4 && |heads| == ListSize(666) && Initialised(heads, seed, x.order, x.items)
    ensures InitialIdx(|heads|, seed, 3) == InitialIdx(|heads|, seed, 7) == 3
    ensures var y := Calls(env, x, 1, stack, k); BenchList(env, y, 1, -1, stack(k)).after.order != y.order
  {
    SeedFour(|heads|, seed, 3, 7);
    MostSeedsLead(|heads|, seed);
    EveryMissRestoresIff(heads, seed, x, env, stack, k);
  }

  lemma SeedFour(size: nat, seed: s16, p: nat, k: nat)
    requires size == 31 && seed == 4 && p == 3 && k == 7
    ensures ToU16(seed) == 4 && !GoodSeed(size, ToU16(seed))
    ensures InitialIdx(size, seed, p) == InitialIdx(size, seed, k) == 3
  {
    XorOfSeven();
    PatternAtSeven(4, k);
    MixedAmongSmall(size, seed, k, 3);
    FirstIdx(size, seed, p);
  }

  /** A call with one search by data leaves all elements in the list that starts at res->list if and only
      if no other element has the header's idx. */
  lemma NodesKeptIff(heads: seq<ListHead>, seed: s16, x: Snap, env: Env, stack: u16)
    requires Initialised(heads, seed, x.order, x.items) && 4 <= |heads| <= 5 * 0x7fff
    ensures |Half(env, x, 1, -1, stack).order| == |x.order| <==> HeaderLeads(|heads|, seed)
  {
    InitialSettled(heads, seed, x.order, x.items);
    if HeaderLeads(|heads|, seed) {
      HeaderIsFirst(heads, seed, x.order, x.items);
      KeptAtFirst(x);
      HalfKept(env, x, x, 1, -1, stack);
      NothingLost(x, Half(env, x, 1, -1, stack));
      SameLength(Half(env, x, 1, -1, stack).order, x.order);
    } else {
      if ToU16(seed) % 8 != 7 {
        MostSeedsLead(|heads|, seed);
      }
      var n := SameAsHeader(heads, seed, x.order, x.items);
      FirstSearchMisses(heads, seed, x.order, x.items);
      HeaderLost(env, x, 1, -1, stack, n);
      BenchPermutes(env, x, 1, -1, stack);
      var a := BenchList(env, x, 1, -1, stack).after.order;
      assert |a| == |multiset(a)| == |multiset(x.order)| == |x.order|;
      assert From(a, x.order[0]) == From(a[1..], x.order[0]);
    }
  }

  lemma SameLength<N>(s: seq<N>, t: seq<N>)
    requires multiset(s) == multiset(t)
    ensures |s| == |t|
  {
    assert |s| == |multiset(s)| == |multiset(t)| == |t|;
  }

  lemma SameAsHeader(heads: seq<ListHead>, seed: s16, s: seq<ListHead>, items: map<ListHead, Item>)
    returns (n: ListHead)
    requires Initialised(heads, seed, s, items) && |heads| <= 5 * 0x7fff && !HeaderLeads(|heads|, seed)
    ensures s != [] && n in s && n != s[0] && KeyOf(CmpIdx(), n, items) == KeyOf(CmpIdx(), s[0], items)
  {
    var p: nat :| 0 < p < |heads| - 1 && InitialIdx(|heads|, seed, p) <= 0;
    IdxBounds(|heads|, seed, p);
    InitialKey(heads, seed, items, 0);
    InitialKey(heads, seed, items, p);
    InitialSettled(heads, seed, s, items);
    InsertedFacts(heads);
    SamePermutation(Inserted(heads), s);
    EndsOfTheList(heads, seed, s, items);
    n := Inserted(heads)[p];
    assert n in Inserted(heads);
  }

  /** Seed 7 in a block of 666 bytes is such a case: position 7 of the list has the header's idx 0. */
  lemma SeedSevenLosesNodes(heads: seq<ListHead>, seed: s16, x: Snap, env: Env, stack: u16)
    requires seed == 7 && |heads| == ListSize(666) && Initialised(heads, seed, x.order, x.items)
    ensures InitialIdx(|heads|, seed, 0) == InitialIdx(|heads|, seed, 7) == 0
    ensures |Half(env, x, 1, -1, stack).order| < |x.order|
  {
    SeedSeven(|heads|, seed, 7);
    NodesKeptIff(heads, seed, x, env, stack);
    NeverLonger(env, x, 1, -1, stack);
  }

  lemma NeverLonger(env: Env, x: Snap, findNum: s16, finderIdx: s16, stack: u16)
    ensures |Half(env, x, findNum, finderIdx, stack).order| <= |x.order|
  {
    BenchPermutes(env, x, findNum, finderIdx, stack);
    var a := BenchList(env, x, findNum, finderIdx, stack).after.order;
    assert |a| == |multiset(a)| == |multiset(x.order)| == |x.order|;
  }

  lemma SeedSeven(size: nat, seed: s16, k: nat)
    requires size == 31 && seed == 7 && k == 7
    ensures ToU16(seed) == 7 && !HeaderLeads(size, seed)
    ensures InitialIdx(size, seed, 0) == InitialIdx(size, seed, k) == 0
  {
    XorOfSeven();
    PatternAtSeven(ToU16(seed), k);
    MixedAmongSmall(size, seed, k, 0);
    AlsoZero(size, seed, k);
  }

  lemma AlsoZero(size: nat, seed: s16, k: nat)
    requires 0 < k < size - 1 && InitialIdx(size, seed, k) == 0
    ensures !HeaderLeads(size, seed)
  {
  }

  // ---------- The text ----------

  /** The item at position `p` makes calc_func turn byte `j` into a comma that is never turned back. */
  predicate Harms(size: nat, seed: s16, text: seq<u8>, p: nat, j: nat) {
    j < |text| && Bad(seed % 0x100, text[j]) && Visits(InitialItem(size, seed, p), j)
  }

  ghost predicate Harmless(size: nat, seed: s16, text: seq<u8>) {
    forall p: nat, j: nat :: p < size - 1 ==> !Harms(size, seed, text, p, j)
  }

  lemma HarmlessIff(heads: seq<ListHead>, seed: s16, items: map<ListHead, Item>, text: seq<u8>)
    requires |heads| >= 3 && InitialRecords(heads, seed, items)
    ensures Harmless(|heads|, seed, text) <==> forall j: nat :: !HitsBad(seed % 0x100, items, text, j)
  {
    var t := Inserted(heads);
    forall p: nat, j: nat | p < |t| && Harms(|heads|, seed, text, p, j)
      ensures HitsBad(seed % 0x100, items, text, j)
    {
      assert t[p] in items && items[t[p]] == InitialItem(|heads|, seed, p);
    }
    forall j: nat | HitsBad(seed % 0x100, items, text, j)
      ensures !Harmless(|heads|, seed, text)
    {
      var n :| n in items && Visits(items[n], j);
      var p := PositionOf(heads, seed, items, n);
      assert Harms(|heads|, seed, text, p, j);
    }
  }

  /** The text of a run with equal seed bytes is the same after any number of calls if and only if it has
      no such byte. */
  lemma TextKeptIff(heads: seq<ListHead>, seed: s16, x: Snap, env: Env, findNum: s16, stack: nat -> u16, n: nat)
    requires Initialised(heads, seed, x.order, x.items) && |heads| >= 4
    requires SameSeedByte(env, seed % 0x100) && n >= 1
    ensures Calls(env, x, findNum, stack, n).regs.text == x.regs.text <==> Harmless(|heads|, seed, x.regs.text)
  {
    InitialSettled(heads, seed, x.order, x.items);
    InitialTwoBehind(heads, seed, x);
    HarmlessIff(heads, seed, x.items, x.regs.text);
    RunKeepsTextIff(env, seed % 0x100, x, findNum, stack, n);
  }

  /** What a caller can check instead of the text: the byte that a comma is flipped to occurs in none. */
  lemma QuietSeedIsHarmless(size: nat, blksize: nat, seed: s16)
    requires var s := seed % 0x100; s == 0 || !TextByte(Xor8(Scanner.COMMA, s))
    ensures Harmless(size, seed, InitialText(blksize, seed))
  {
    var b := InitialText(blksize, seed);
    FillBytes(blksize, seed, 0);
    assert Look(TEXT, 0);
    forall j: nat | j < |b|
      ensures TextByte(b[j])
    {
    }
  }

  lemma XorOfTwentyFive()
    ensures Xor(0x19, 8) == 0x11
  {
    XorZero(1);
    XorStep(3, 1, 1);
    XorStep(6, 2, 2);
    XorStep(0xc, 4, 4);
    XorStep(0x19, 8, 8);
  }

  lemma ItemEight(size: nat, seed: s16)
    requires seed == 25 && size >= 12
    ensures InitialItem(size, seed, size - 11).data16 == 0x0808
  {
    XorOfTwentyFive();
    assert ToU16(seed) == 0x19;
    assert LowData(seed, 8) == 8;
  }

  lemma StrideOfEight(j: nat)
    requires j == 68
    ensures Visits(Item(0x0808, 0), j)
  {
    assert DataType(0x0808) == 0x11;
  }

  /** A seed that damages its own text, for every block of at least 280 bytes: the ninth item asks for
      stride 0x22, which visits the 5 of 35.54400, and 5 is a comma xor-ed with 25. */
  lemma SeedTwentyFiveHarms(blksize: u32, seed: s16)
    requires seed == 25 && blksize >= 280
    ensures !Harmless(ListSize(blksize), seed, InitialText(blksize, seed))
  {
    var size := ListSize(blksize);
    TextFor25(blksize, seed);
    XorTo5();
    XorInvolutive(0x35, 0x19);
    ItemEight(size, seed);
    StrideOfEight(68);
    assert Harms(size, seed, InitialText(blksize, seed), size - 11, 68);
  }

  // ---------- Identical iterations ----------

  /** Every call of a run starts from the original list, records and text. */
  lemma IterationsRepeat(heads: seq<ListHead>, seed: s16, x: Snap, env: Env, findNum: s16, stack: nat -> u16, n: nat)
    requires Initialised(heads, seed, x.order, x.items) && |heads| >= 4 && GoodSeed(|heads|, ToU16(seed))
    requires SameSeedByte(env, seed % 0x100) && Harmless(|heads|, seed, x.regs.text)
    ensures SameData(x, Calls(env, x, findNum, stack, n))
  {
    InitialSettled(heads, seed, x.order, x.items);
    InitialTwoBehind(heads, seed, x);
    InitialDistinct(heads, seed, x.order, x.items);
    HarmlessIff(heads, seed, x.items, x.regs.text);
    RunRepeats(env, seed % 0x100, x, findNum, stack, n);
  }

  // ---------- What is coded ----------

  lemma {:induction false} ElementsCount<N>(s: seq<N>)
    requires NoRepeats(s)
    ensures |Elements(s)| == |s|
  {
    if s != [] {
      assert NoRepeats(s[1..]) && s[0] !in s[1..];
      ElementsCount(s[1..]);
      assert Elements(s) == {s[0]} + Elements(s[1..]);
    }
  }

  /** All elements but header and tail are still to be calculated. */
  lemma InitialToCalculate(heads: seq<ListHead>, seed: s16, s: seq<ListHead>, items: map<ListHead, Item>)
    requires Initialised(heads, seed, s, items)
    ensures |ToCalculate(s, items)| == |heads| - 3
  {
    var size, t := |heads|, Inserted(heads);
    InitialSettled(heads, seed, s, items);
    InsertedFacts(heads);
    SamePermutation(t, s);
    var inner := t[1..size - 2];
    forall n
      ensures n in ToCalculate(s, items) <==> n in inner
    {
      if n in s && n in items {
        var p := PositionOf(heads, seed, items, n);
        InitialItemFacts(size, seed, p);
        if n in inner {
          var q :| 0 <= q < |inner| && inner[q] == n;
          assert t[q + 1] == n;
        }
        if 0 < p < size - 2 {
          assert inner[p - 1] == n;
        }
      }
    }
    ElementsCount(inner);
    assert ToCalculate(s, items) == Elements(inner);
  }

  /** The lengths of the log. */
  ghost function Lengths(env: Env, x: Snap, findNum: s16, stack: nat -> u16): nat -> nat {
    (k: nat) => |Log(env, x, findNum, stack, k)|
  }

  lemma NextLength(env: Env, x: Snap, findNum: s16, stack: nat -> u16, k: nat, n: nat)
    requires |CallLog(env, Calls(env, x, findNum, stack, k), findNum, FinderIdx(k), stack(k))| == n
    ensures Lengths(env, x, findNum, stack)(k + 1) == Lengths(env, x, findNum, stack)(k) + n
  {
    LogNext(env, x, findNum, stack, k);
  }

  lemma SameToCalculate(x: Snap, y: Snap)
    requires multiset(x.order) == multiset(y.order) && x.items == y.items
    ensures ToCalculate(y.order, y.items) == ToCalculate(x.order, x.items)
  {
    SameMembers(x.order, y.order);
  }

  lemma CallLength(heads: seq<ListHead>, seed: s16, x: Snap, env: Env, findNum: s16, stack: nat -> u16, k: nat)
    requires Initialised(heads, seed, x.order, x.items) && |heads| >= 4 && HeaderLeads(|heads|, seed)
    ensures |CallLog(env, Calls(env, x, findNum, stack, k), findNum, FinderIdx(k), stack(k))| ==
            if FinderIdx(k) > 0 then |heads| - 2 else 1
  {
    var y := Calls(env, x, findNum, stack, k);
    InitialRunKeeps(heads, seed, x, env, findNum, stack, k);
    InitialToCalculate(heads, seed, x.order, x.items);
    SameToCalculate(x, y);
    CallLogLength(env, y, findNum, FinderIdx(k), stack(k));
  }

  /** Calls log `size` - 2 words and one word in turn. */
  ghost predicate InTurns(f: nat -> nat, size: nat) {
    f(0) == 0 && forall k: nat {:trigger Look(PASS, k)} :: Look(PASS, k) ==>
      f(k + 1) == f(k) + if FinderIdx(k) > 0 then size - 2 else 1
  }

  lemma {:induction false} ByTwos(f: nat -> nat, size: nat, i: nat)
    requires size >= 2 && InTurns(f, size)
    ensures f(2 * i) == i * (size - 1)
  {
    if i > 0 {
      var j: nat := i - 1;
      ByTwos(f, size, j);
      InTurn(j);
      assert Look(PASS, 2 * j) && Look(PASS, 2 * j + 1);
      assert 2 * j + 1 + 1 == 2 * i;
    }
  }

  lemma LogBegins(env: Env, x: Snap, findNum: s16, stack: nat -> u16)
    ensures Lengths(env, x, findNum, stack)(0) == 0
  {
  }

  lemma LogInTurns(heads: seq<ListHead>, seed: s16, x: Snap, env: Env, findNum: s16, stack: nat -> u16)
    requires Initialised(heads, seed, x.order, x.items) && |heads| >= 4 && HeaderLeads(|heads|, seed)
    ensures InTurns(Lengths(env, x, findNum, stack), |heads|)
  {
    var f := Lengths(env, x, findNum, stack);
    LogBegins(env, x, findNum, stack);
    forall k: nat | Look(PASS, k)
      ensures f(k + 1) == f(k) + if FinderIdx(k) > 0 then |heads| - 2 else 1
    {
      CallLength(heads, seed, x, env, findNum, stack, k);
      NextLength(env, x, findNum, stack, k, if FinderIdx(k) > 0 then |heads| - 2 else 1);
    }
  }

  /** As long as no element shares the header's idx, the sort by data of every iteration calculates all
      elements but header and tail, each once: an iteration codes one word less than the block has headers. */
  lemma InitialLogLength(heads: seq<ListHead>, seed: s16, x: Snap, env: Env, findNum: s16, stack: nat -> u16,
                         i: nat, k: nat)
    requires Initialised(heads, seed, x.order, x.items) && |heads| >= 4 && HeaderLeads(|heads|, seed) && k == 2 * i
    ensures |Log(env, x, findNum, stack, k)| == i * (|heads| - 1)
  {
    var f := Lengths(env, x, findNum, stack);
    LogInTurns(heads, seed, x, env, findNum, stack);
    ByTwos(f, |heads|, i);
    assert f(k) == i * (|heads| - 1);
  }

  lemma FirstSortIs(env: Env, x: Snap, findNum: s16, r: seq<ListHead>, order: seq<ListHead>)
    requires r == Searches(x, findNum, 1).order && order == BeforeLastSort(env, x, findNum, 1).order
    ensures order == Sort(CmpComplex(env), r, 1, State(x.items, x.regs, 0)).order && multiset(r) == multiset(x.order)
  {
  }

  /** After the sort by data of the first call the elements that ask for no benchmark stand in order of their
      initial low bytes. */
  lemma FirstSortOrders(heads: seq<ListHead>, seed: s16, x: Snap, env: Env, findNum: s16, order: seq<ListHead>,
                        i: nat, j: nat)
    requires Initialised(heads, seed, x.order, x.items) && order == BeforeLastSort(env, x, findNum, 1).order
    ensures |order| == |x.order| && forall n :: n in order ==> n in x.items
    ensures i < j < |order| && Plain(x.items[order[i]].data16) && Plain(x.items[order[j]].data16) ==>
              x.items[order[i]].data16 % 0x100 <= x.items[order[j]].data16 % 0x100
  {
    var r := Searches(x, findNum, 1).order;
    FirstSortIs(env, x, findNum, r, order);
    InitialSettled(heads, seed, x.order, x.items);
    SortKeepsAll(env, x, r, order);
    PlainInOrder(env, r, State(x.items, x.regs, 0), i, j);
  }

  lemma SortKeepsAll(env: Env, x: Snap, r: seq<ListHead>, order: seq<ListHead>)
    requires Settled(x.order, x.items) && multiset(r) == multiset(x.order)
    requires order == Sort(CmpComplex(env), r, 1, State(x.items, x.regs, 0)).order
    ensures NoRepeats(r) && (forall n :: n in r ==> n in x.items)
    ensures |order| == |x.order| && forall n :: n in order ==> n in x.items
  {
    SamePermutation(x.order, r);
    SortPermutes(CmpComplex(env), r, 1, State(x.items, x.regs, 0));
    SamePermutation(x.order, order);
    SameLength(x.order, order);
  }
}
