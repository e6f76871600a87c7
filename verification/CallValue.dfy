/** The value of core_bench_list of core_list_join.c in closed form: what the searches are worth, and the
    words that are coded behind that. */
module CallValue {
  import opened Words
  import opened Crc
  import opened Records
  import opened Items
  import opened Sorting
  import opened SortProof
  import opened Results
  import opened ListOps
  import opened ListBench
  import opened Restore
  import opened Chains

  // ---------- Sums and tallies ----------

  function Total(f: nat -> int, n: nat): int {
    if n == 0 then 0 else Total(f, n - 1) + f(n - 1)
  }

  function Tally(p: nat -> bool, n: nat): (t: nat)
    ensures t <= n
  {
    if n == 0 then 0 else Tally(p, n - 1) + if p(n - 1) then 1 else 0
  }

  lemma {:induction false} SameTotal(f: nat -> int, n: nat, g: int)
    requires forall i: nat :: i < n ==> f(i) == g
    ensures Total(f, n) == g * n
  {
    if n > 0 {
      SameTotal(f, n - 1, g);
    }
  }

  // ---------- One search ----------

  /** info.idx before the i-th search: it counts up, and stays once it is negative. */
  function IdxAt(idx: s16, i: nat): s16 {
    if idx < 0 then idx else if idx + i < 0x8000 then idx + i else -0x8000
  }

  /** The list before the i-th search. */
  function OrderAt(items: map<ListHead, Item>, s: seq<ListHead>, idx: s16, i: nat): (r: seq<ListHead>)
    ensures |r| == |s|
  {
    if i == 0 then s
    else
      var r := OrderAt(items, s, idx, i - 1);
      OrderAfter(r, FindIndex(items, r, IdxAt(idx, i - 1), (i - 1) % 0x100))
  }

  /** The position that the i-th search finds, or the length. */
  function FoundAt(items: map<ListHead, Item>, s: seq<ListHead>, idx: s16, i: nat): (k: nat)
    ensures k <= |s|
  {
    FindIndex(items, OrderAt(items, s, idx, i), IdxAt(idx, i), i % 0x100)
  }

  /** What a search adds that finds position `k` of `r`: for a hit 4, and 1 more if bits 0 and 9 of the data
      found are set; for a miss bit 8 of the data behind the new head, the second last element, minus 1. */
  function GainIn(items: map<ListHead, Item>, r: seq<ListHead>, k: nat): int {
    if k < |r| then 4 + BitValue(Bit(DataAt(items, r, k), 0) && Bit(DataAt(items, r, k), 9))
    else BitValue(Bit(SecondLast(items, r), 8)) - 1
  }

  function SecondLast(items: map<ListHead, Item>, r: seq<ListHead>): u16 {
    if |r| < 2 then 0 else DataAt(items, r, |r| - 2)
  }

  /** The gain of every search. */
  function Gain(items: map<ListHead, Item>, s: seq<ListHead>, idx: s16): nat -> int {
    (i: nat) => GainIn(items, OrderAt(items, s, idx, i), FoundAt(items, s, idx, i))
  }

  function Hits(items: map<ListHead, Item>, s: seq<ListHead>, idx: s16): nat -> bool {
    (i: nat) => FoundAt(items, s, idx, i) < |s|
  }

  lemma UpperBits(d: u16)
    ensures Bit(d, 0) <==> d % 2 == 1
    ensures Bit(d, 8) <==> d / 0x100 % 2 == 1
    ensures Bit(d, 9) <==> d / 0x200 % 2 == 1
  {
    HighByteBit(d, 0);
    HighByteBit(d, 1);
    assert d / 0x100 / 2 == d / 0x200;
    assert Bit(d / 0x100, 1) == Bit(d / 0x100 / 2, 0);
  }

  lemma PlusWraps(x: int, y: nat)
    ensures Plus(x % 0x1_0000, y) == (x + y) % 0x1_0000
  {
  }

  lemma HitIs(d: u16, x: int)
    ensures HitValue(d, x % 0x1_0000) == (x + BitValue(Bit(d, 0) && Bit(d, 9))) % 0x1_0000
  {
    UpperBits(d);
    PlusWraps(x, d / 0x200 % 2);
  }

  lemma MissIs(d: u16, x: int)
    ensures Plus(x % 0x1_0000, d / 0x100 % 2) == (x + BitValue(Bit(d, 8))) % 0x1_0000
  {
    UpperBits(d);
    PlusWraps(x, d / 0x100 % 2);
  }

  lemma SecondOfReversed(items: map<ListHead, Item>, r: seq<ListHead>)
    ensures SecondLast(items, r) == DataAt(items, Reversed(r), 1)
  {
  }

  // ---------- All searches ----------

  /** retval after `n` searches: the gains without the 4 for a hit and the -1 for a miss. */
  function Raw(f: nat -> int, p: nat -> bool, n: nat): int {
    Total(f, n) - 4 * Tally(p, n) + (n - Tally(p, n))
  }

  /** The counting variables of the loop after `n` searches with these gains and hits. */
  ghost predicate Tallied(f: nat -> int, p: nat -> bool, n: nat, y: Search) {
    && y.found == Tally(p, n) % 0x1_0000 && y.missed == (n - Tally(p, n)) % 0x1_0000
    && y.retval == Raw(f, p, n) % 0x1_0000
  }

  lemma RawHit(f: nat -> int, p: nat -> bool, n: nat)
    requires p(n)
    ensures Tally(p, n + 1) == Tally(p, n) + 1 && Raw(f, p, n + 1) == Raw(f, p, n) + f(n) - 4
  {
  }

  lemma RawMiss(f: nat -> int, p: nat -> bool, n: nat)
    requires !p(n)
    ensures Tally(p, n + 1) == Tally(p, n) && Raw(f, p, n + 1) == Raw(f, p, n) + f(n) + 1
  {
  }

  lemma CountHit(f: nat -> int, p: nat -> bool, n: nat, y: Search, d: u16, z: Search)
    requires Tallied(f, p, n, y) && p(n) && f(n) == 4 + BitValue(Bit(d, 0) && Bit(d, 9))
    requires z.retval == HitValue(d, y.retval) && z.found == Plus(y.found, 1) && z.missed == y.missed
    ensures Tallied(f, p, n + 1, z)
  {
    RawHit(f, p, n);
    HitIs(d, Raw(f, p, n));
    PlusWraps(Tally(p, n), 1);
  }

  lemma CountMiss(f: nat -> int, p: nat -> bool, n: nat, y: Search, d: u16, z: Search)
    requires Tallied(f, p, n, y) && !p(n) && f(n) == BitValue(Bit(d, 8)) - 1
    requires z.retval == Plus(y.retval, d / 0x100 % 2) && z.found == y.found && z.missed == Plus(y.missed, 1)
    ensures Tallied(f, p, n + 1, z)
  {
    RawMiss(f, p, n);
    MissIs(d, Raw(f, p, n));
    PlusWraps(n - Tally(p, n), 1);
  }

  lemma CountsWorth(f: nat -> int, p: nat -> bool, n: nat, y: Search)
    requires Tallied(f, p, n, y)
    ensures SearchValue(y.retval, y.found, y.missed) == Total(f, n) % 0x1_0000
    ensures (y.found + y.missed) % 0x1_0000 == n % 0x1_0000
  {
    SumWraps(Total(f, n), Tally(p, n), n);
  }

  lemma SumWraps(g: int, h: nat, n: nat)
    requires h <= n
    ensures ToU16((g - 4 * h + (n - h)) % 0x1_0000 + h % 0x1_0000 * 4 - (n - h) % 0x1_0000) == g % 0x1_0000
    ensures (h % 0x1_0000 + (n - h) % 0x1_0000) % 0x1_0000 == n % 0x1_0000
  {
  }

  ghost predicate Scored(items: map<ListHead, Item>, s: seq<ListHead>, idx: s16, n: nat, y: Search) {
    forall k {:trigger Look(MERGE, k)} :: Look(MERGE, k) ==>
      && y.order == OrderAt(items, s, idx, n) && y.idx == IdxAt(idx, n)
      && Tallied(Gain(items, s, idx), Hits(items, s, idx), n, y)
  }

  lemma IdxNext(idx: s16, i: nat)
    ensures NextIdx(IdxAt(idx, i)) == IdxAt(idx, i + 1)
  {
  }

  lemma NextOrderAt(items: map<ListHead, Item>, s: seq<ListHead>, idx: s16, n: nat)
    ensures OrderAt(items, s, idx, n + 1) == OrderAfter(OrderAt(items, s, idx, n), FoundAt(items, s, idx, n))
    ensures FoundAt(items, s, idx, n) == FindIndex(items, OrderAt(items, s, idx, n), IdxAt(idx, n), LowByte(n))
  {
  }

  lemma ScoredNext(items: map<ListHead, Item>, s: seq<ListHead>, idx: s16, n: nat, y: Search, z: Search)
    requires Scored(items, s, idx, n, y) && z == SearchStep(items, LowByte(n), y)
    ensures Scored(items, s, idx, n + 1, z)
  {
    assert Look(MERGE, 0);
    var r, k := y.order, FoundAt(items, s, idx, n);
    IdxNext(idx, n);
    NextOrderAt(items, s, idx, n);
    if k < |s| {
      SearchStepIs(items, LowByte(n), y, k, HitValue(DataAt(items, r, k), y.retval), Plus(y.found, 1), y.missed);
      CountHit(Gain(items, s, idx), Hits(items, s, idx), n, y, DataAt(items, r, k), z);
    } else {
      SearchStepIs(items, LowByte(n), y, k, MissValue(items, Reversed(r), y.retval), y.found, Plus(y.missed, 1));
      SecondOfReversed(items, r);
      CountMiss(Gain(items, s, idx), Hits(items, s, idx), n, y, DataAt(items, Reversed(r), 1), z);
    }
  }

  ghost function Scores(items: map<ListHead, Item>, s: seq<ListHead>, idx: s16): nat -> bool {
    (n: nat) => Scored(items, s, idx, n, SearchAll(items, n, SearchStart(s, idx)))
  }

  lemma StartScored(items: map<ListHead, Item>, s: seq<ListHead>, idx: s16)
    ensures Scores(items, s, idx)(0)
  {
  }

  lemma NextScored(items: map<ListHead, Item>, s: seq<ListHead>, idx: s16, n: nat)
    requires Scores(items, s, idx)(n)
    ensures Scores(items, s, idx)(n + 1)
  {
    var x := SearchStart(s, idx);
    SearchNext(items, n, x);
    ScoredNext(items, s, idx, n, SearchAll(items, n, x), SearchAll(items, n + 1, x));
  }

  lemma AllScored(items: map<ListHead, Item>, s: seq<ListHead>, idx: s16, n: nat)
    ensures Scores(items, s, idx)(n)
  {
    StartScored(items, s, idx);
    forall i: nat | Look(RUN, i) && Scores(items, s, idx)(i)
      ensures Scores(items, s, idx)(i + 1)
    {
      NextScored(items, s, idx, i);
    }
    Along(Scores(items, s, idx), n);
  }

  lemma ScoredParts(items: map<ListHead, Item>, s: seq<ListHead>, idx: s16, n: nat, y: Search)
    requires Scored(items, s, idx, n, y)
    ensures y.order == OrderAt(items, s, idx, n) && y.idx == IdxAt(idx, n)
    ensures Tallied(Gain(items, s, idx), Hits(items, s, idx), n, y)
  {
    assert Look(MERGE, 0);
  }

  /** What the searches contribute to the value of core_bench_list is the sum of their gains. */
  lemma SearchesWorth(items: map<ListHead, Item>, s: seq<ListHead>, idx: s16, n: nat, y: Search)
    requires y == SearchAll(items, n, SearchStart(s, idx))
    ensures SearchValue(y.retval, y.found, y.missed) == Total(Gain(items, s, idx), n) % 0x1_0000
    ensures (y.found + y.missed) % 0x1_0000 == n % 0x1_0000
    ensures y.order == OrderAt(items, s, idx, n) && y.idx == IdxAt(idx, n)
  {
    AllScored(items, s, idx, n);
    ScoredParts(items, s, idx, n, y);
    CountsWorth(Gain(items, s, idx), Hits(items, s, idx), n, y);
  }

  /** A search that finds even data is worth 4. */
  lemma EvenHit(items: map<ListHead, Item>, r: seq<ListHead>, k: nat)
    requires k < |r| && DataAt(items, r, k) % 2 == 0
    ensures GainIn(items, r, k) == 4
  {
    UpperBits(DataAt(items, r, k));
  }

  /** A search that finds nothing, with bit 8 clear behind the new head, costs 1. */
  lemma ClearMiss(items: map<ListHead, Item>, r: seq<ListHead>)
    requires |r| >= 2 && DataAt(items, r, |r| - 2) / 0x100 % 2 == 0
    ensures GainIn(items, r, |r|) == -1
  {
    UpperBits(DataAt(items, r, |r| - 2));
  }

  /** Searches that all find even data are worth 4 each. */
  lemma EvenHits(items: map<ListHead, Item>, s: seq<ListHead>, idx: s16, n: nat)
    requires forall i: nat :: i < n ==>
      var r, k := OrderAt(items, s, idx, i), FoundAt(items, s, idx, i); k < |r| && DataAt(items, r, k) % 2 == 0
    ensures Total(Gain(items, s, idx), n) == 4 * n
  {
    forall i: nat | i < n
      ensures Gain(items, s, idx)(i) == 4
    {
      EvenHit(items, OrderAt(items, s, idx, i), FoundAt(items, s, idx, i));
    }
    SameTotal(Gain(items, s, idx), n, 4);
  }

  /** Searches that all find nothing, with bit 8 clear behind the new head, cost 1 each. */
  lemma ClearMisses(items: map<ListHead, Item>, s: seq<ListHead>, idx: s16, n: nat)
    requires |s| >= 2
    requires forall i: nat :: i < n ==>
      var r := OrderAt(items, s, idx, i); FoundAt(items, s, idx, i) == |r| && DataAt(items, r, |r| - 2) / 0x100 % 2 == 0
    ensures Total(Gain(items, s, idx), n) == -1 * n
  {
    forall i: nat | i < n
      ensures Gain(items, s, idx)(i) == -1
    {
      ClearMiss(items, OrderAt(items, s, idx, i));
    }
    SameTotal(Gain(items, s, idx), n, -1);
  }

  // ---------- The value ----------

  function Copies(v: u16, n: nat): (ws: seq<u16>)
    ensures |ws| == n
  {
    seq(n, _ => v)
  }

  lemma {:induction false} RepeatIsCode(v: u16, n: nat, crc: u16)
    ensures CrcRepeat(v, n, crc) == CrcWords(Copies(v, n), crc)
  {
    if n > 0 {
      RepeatIsCode(v, n - 1, CrcWord(v, crc));
      assert Copies(v, n)[1..] == Copies(v, n - 1);
    }
  }

  /** The key of the last search by data: the number of the search, or what was on the stack before. */
  function LastKey(n: nat, stack: u16): u16 {
    if n == 0 then stack else (n - 1) % 0x100
  }

  /** How often the data of the first element is coded while the list lacks an element: once for every
      element from the one found on, or behind the first if none is found. */
  function Coded(items: map<ListHead, Item>, s: seq<ListHead>, idx: s16, key: u16): nat {
    if |s| < 3 || s[1] !in items || s[2] !in items then 0
    else
      var exchanged := items[s[1] := items[s[2]]][s[2] := items[s[1]]];
      var t := s[..2] + s[3..];
      var k := FindIndex(exchanged, t, idx, key);
      if k < |t| then |t| - k else |t| - 1
  }

  /** The words that a call codes: the data of the first element of the list as it is before the last sort,
      as often as Coded says, and then the data of the first element of the sorted list, once for each of
      the others. */
  function CallWords(now: Out<ListHead>, after: Snap, idx: s16, key: u16): seq<u16> {
    Copies(DataAt(now.st.items, now.order, 0), Coded(now.st.items, now.order, idx, key)) +
    Copies(DataAt(after.items, after.order, 0), if after.order == [] then 0 else |after.order| - 1)
  }

  lemma CodedValueIs(now: Out<ListHead>, idx: s16, key: u16, crc: u16)
    requires |now.order| >= 3 && NoRepeats(now.order) && forall n :: n in now.order ==> n in now.st.items
    ensures CodedValue(now, idx, key, crc) ==
            CrcWords(Copies(DataAt(now.st.items, now.order, 0), Coded(now.st.items, now.order, idx, key)), crc)
  {
    var s, items := now.order, now.st.items;
    assert s[0] in s && s[1] in s && s[2] in s;
    RemovedHead(s, items);
    RepeatIsCode(DataAt(items, s, 0), CrcCount(Exchanged(items, s[1], s[2]), Removed(s), idx, key), crc);
  }

  lemma ValueIs(now: Out<ListHead>, back: Out<ListHead>, after: Snap, idx: s16, key: u16, crc: u16)
    requires |now.order| >= 3 && NoRepeats(now.order) && forall n :: n in now.order ==> n in now.st.items
    requires after.order == back.order != [] && after.items == back.st.items
    ensures FinalValue(back, CodedValue(now, idx, key, crc)) == CrcWords(CallWords(now, after, idx, key), crc)
  {
    var d := DataAt(back.st.items, back.order, 0);
    CodedValueIs(now, idx, key, crc);
    RepeatIsCode(d, |back.order| - 1, CodedValue(now, idx, key, crc));
    CrcWordsConcat(Copies(DataAt(now.st.items, now.order, 0), Coded(now.st.items, now.order, idx, key)),
                   Copies(d, |back.order| - 1), crc);
  }

  lemma NowFacts(env: Env, x: Snap, findNum: s16, finderIdx: s16, now: Out<ListHead>)
    requires Settled(x.order, x.items) && now == BeforeLastSort(env, x, findNum, finderIdx)
    ensures |now.order| == |x.order| && NoRepeats(now.order) && forall n :: n in now.order ==> n in now.st.items
  {
    BeforeLastSortFacts(env, x, findNum, finderIdx);
    SamePermutation(x.order, now.order);
    assert |now.order| == |multiset(now.order)| == |multiset(x.order)| == |x.order|;
  }

  lemma OutcomeIs(env: Env, x: Snap, findNum: s16, finderIdx: s16, stack: u16, y: Search, now: Out<ListHead>,
                  back: Out<ListHead>, o: Outcome)
    requires y == Searches(x, findNum, finderIdx) && now == BeforeLastSort(env, x, findNum, finderIdx)
    requires back == SortedByIdx(now) && o == BenchList(env, x, findNum, finderIdx, stack)
    ensures o.retval == FinalValue(back, CodedValue(now, y.idx, LastData(Count(findNum), stack),
                                                    SearchValue(y.retval, y.found, y.missed)))
    ensures o.after.order == back.order && o.after.items == back.st.items
  {
  }

  lemma KeyIs(findNum: s16, n: nat, stack: u16)
    requires n == if findNum < 0 then 0 else findNum
    ensures Count(findNum) == n && LastData(Count(findNum), stack) == LastKey(n, stack)
  {
  }

  /** The value of a call is the code of these words, in a register that starts with the sum of the gains. */
  lemma CallValueIs(env: Env, x: Snap, findNum: s16, finderIdx: s16, stack: u16, n: nat, now: Out<ListHead>,
                    o: Outcome)
    requires Settled(x.order, x.items) && |x.order| >= 3 && n == (if findNum < 0 then 0 else findNum)
    requires now == BeforeLastSort(env, x, findNum, finderIdx) && o == BenchList(env, x, findNum, finderIdx, stack)
    ensures o.retval == CrcWords(CallWords(now, o.after, IdxAt(finderIdx, n), LastKey(n, stack)),
                                 Total(Gain(x.items, x.order, finderIdx), n) % 0x1_0000)
  {
    var y, back := Searches(x, findNum, finderIdx), SortedByIdx(now);
    KeyIs(findNum, n, stack);
    SearchesWorth(x.items, x.order, finderIdx, n, y);
    NowFacts(env, x, findNum, finderIdx, now);
    AfterFacts(env, x, findNum, finderIdx, stack);
    OutcomeIs(env, x, findNum, finderIdx, stack, y, now, back, o);
    ValueIs(now, back, o.after, IdxAt(finderIdx, n), LastKey(n, stack),
            Total(Gain(x.items, x.order, finderIdx), n) % 0x1_0000);
  }

  lemma AfterFacts(env: Env, x: Snap, findNum: s16, finderIdx: s16, stack: u16)
    requires Settled(x.order, x.items) && |x.order| >= 3
    ensures |BenchList(env, x, findNum, finderIdx, stack).after.order| == |x.order|
    ensures BenchList(env, x, findNum, finderIdx, stack).after.items == x.items
  {
    var a := BenchList(env, x, findNum, finderIdx, stack).after;
    RestoredIff(env, x, findNum, finderIdx, stack);
    assert |a.order| == |multiset(a.order)| == |multiset(x.order)| == |x.order|;
  }
}
