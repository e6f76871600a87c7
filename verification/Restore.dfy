/** "At the end of this function, the list is back to original state" of core_list_join.c: which part of
    the promise core_bench_list always keeps, and exactly when it keeps the rest. */
module Restore {
  import opened Words
  import opened Records
  import opened Items
  import opened Sorting
  import opened SortProof
  import opened Results
  import opened ListOps
  import opened ListBench
  import opened Chains

  // ---------- Sorted lists and their ties ----------

  /** A list as initialisation leaves it: sorted by idx, with every low byte equal to its backup.  There
      may be other nodes, which are not in the list. */
  ghost predicate Settled(s: seq<ListHead>, items: map<ListHead, Item>) {
    && NoRepeats(s) && (forall n :: n in s ==> n in items)
    && Sorted(CmpIdx(), s, items) && AllTouched(CmpIdx(), s, items)
  }

  /** Elements with equal idx come in the same order in both. */
  ghost predicate SameTies<N>(cmp: Comparator, r: seq<N>, s: seq<N>, items: map<N, Item>) {
    forall k :: Filter(cmp, r, items, k) == Filter(cmp, s, items, k)
  }

  /** A sorted sequence is determined by its elements and the order of its ties. */
  lemma {:induction false} StableUnique<N>(cmp: Comparator, s: seq<N>, t: seq<N>, items: map<N, Item>)
    requires Sorted(cmp, s, items) && Sorted(cmp, t, items) && multiset(s) == multiset(t)
    requires SameTies(cmp, s, t, items)
    ensures s == t
  {
    assert |s| == |multiset(s)| == |multiset(t)| == |t|;
    if s != [] {
      SameHead(cmp, s, t, items);
      SameTail(s, t);
      forall k
        ensures Filter(cmp, s[1..], items, k) == Filter(cmp, t[1..], items, k)
      {
        FilterTail(cmp, s, items, k);
        FilterTail(cmp, t, items, k);
      }
      StableUnique(cmp, s[1..], t[1..], items);
    }
  }

  lemma SameHead<N>(cmp: Comparator, s: seq<N>, t: seq<N>, items: map<N, Item>)
    requires Sorted(cmp, s, items) && Sorted(cmp, t, items) && multiset(s) == multiset(t)
    requires s != [] && t != [] && SameTies(cmp, s, t, items)
    ensures s[0] == t[0]
  {
    assert s[0] in multiset(s) && t[0] in multiset(t);
    assert s[0] in t && t[0] in s;
    var k := KeyOf(cmp, s[0], items);
    assert KeyOf(cmp, t[0], items) == k;
    assert Filter(cmp, s, items, k)[0] == s[0] && Filter(cmp, t, items, k)[0] == t[0];
  }

  lemma FilterTail<N>(cmp: Comparator, s: seq<N>, items: map<N, Item>, k: int)
    requires s != []
    ensures Filter(cmp, s[1..], items, k) ==
            if KeyOf(cmp, s[0], items) == k then Filter(cmp, s, items, k)[1..] else Filter(cmp, s, items, k)
  {
  }

  // ---------- What a call always restores, and when it restores the order ----------

  /** `now` holds the list in some order, and records of which only lower bytes of the list's nodes may
      have been rewritten. */
  ghost predicate LowBytesOnly(s: seq<ListHead>, items: map<ListHead, Item>, now: Out<ListHead>) {
    && multiset(now.order) == multiset(s) && now.st.items.Keys == items.Keys
    && (forall n :: n in items ==> SameBackup(items[n], now.st.items[n]))
    && Elsewhere(s, items, now.st.items)
  }

  /** The sort by idx brings back every record, whatever bytes were rewritten, and it is stable. */
  lemma SortedByIdxFacts(s: seq<ListHead>, items: map<ListHead, Item>, now: Out<ListHead>)
    requires Settled(s, items) && |s| >= 2 && LowBytesOnly(s, items, now)
    ensures var back := SortedByIdx(now);
            back.st.items == items && StablySorted(CmpIdx(), now.order, back.order, items)
  {
    var back := SortedByIdx(now);
    CmpIdxLawful();
    SamePermutation(s, now.order);
    SortIsRight(CmpIdx(), now.order, State(now.st.items, NO_REGS, 0));
    SortElsewhere(CmpIdx(), now.order, 1, State(now.st.items, NO_REGS, 0));
    assert |now.order| == |multiset(now.order)| == |multiset(s)| == |s|;
    ItemsRestored(s, items, now.st.items, back.st.items);
  }

  lemma ItemsRestored(s: seq<ListHead>, items: map<ListHead, Item>, mid: map<ListHead, Item>,
                      after: map<ListHead, Item>)
    requires items.Keys == mid.Keys == after.Keys && Elsewhere(s, items, mid) && Elsewhere(s, mid, after)
    requires forall n :: n in mid ==> SameBackup(items[n], mid[n]) && SameBackup(mid[n], after[n])
    requires forall n :: n in s ==> n in items && Regenerated(items[n].data16) && Regenerated(after[n].data16)
    ensures after == items
  {
    forall n | n in after
      ensures after[n] == items[n]
    {
      if n in s {
        RegeneratedUnique(items[n], after[n]);
      }
    }
  }

  /** Searches and the sort by data rearrange the list and rewrite lower bytes, nothing else. */
  lemma BeforeLastSortFacts(env: Env, x: Snap, findNum: s16, finderIdx: s16)
    requires Settled(x.order, x.items)
    ensures LowBytesOnly(x.order, x.items, BeforeLastSort(env, x, findNum, finderIdx))
  {
    RearrangedFacts(env, x, Searches(x, findNum, finderIdx).order, finderIdx);
  }

  lemma RearrangedFacts(env: Env, x: Snap, r: seq<ListHead>, finderIdx: s16)
    requires Settled(x.order, x.items) && multiset(r) == multiset(x.order)
    ensures LowBytesOnly(x.order, x.items, SortedByData(env, x.regs, r, x.items, finderIdx))
  {
    SamePermutation(x.order, r);
    SortedByDataFacts(env, x.regs, r, x.items, finderIdx);
  }

  lemma SortedByDataFacts(env: Env, regs: Regs, r: seq<ListHead>, items: map<ListHead, Item>, finderIdx: s16)
    requires NoRepeats(r) && forall n :: n in r ==> n in items
    ensures LowBytesOnly(r, items, SortedByData(env, regs, r, items, finderIdx))
  {
    if finderIdx > 0 {
      SortByDataIsRight(env, r, State(items, regs, 0));
      SortElsewhere(CmpComplex(env), r, 1, State(items, regs, 0));
    }
  }

  /** Every call restores every record of a settled list, and leaves the list sorted; and it restores the
      order if and only if searches and sort by data have kept the order of elements with equal idx. */
  lemma RestoredIff(env: Env, x: Snap, findNum: s16, finderIdx: s16, stack: u16)
    requires Settled(x.order, x.items) && |x.order| >= 2
    ensures var a := BenchList(env, x, findNum, finderIdx, stack).after;
            a.items == x.items && multiset(a.order) == multiset(x.order) && Settled(a.order, a.items) &&
            (a.order == x.order <==>
             SameTies(CmpIdx(), BeforeLastSort(env, x, findNum, finderIdx).order, x.order, x.items))
  {
    var now := BeforeLastSort(env, x, findNum, finderIdx);
    var a := BenchList(env, x, findNum, finderIdx, stack).after;
    BeforeLastSortFacts(env, x, findNum, finderIdx);
    SortedByIdxFacts(x.order, x.items, now);
    SamePermutation(x.order, a.order);
    OrderIff(x.order, now.order, a.order, x.items);
    SettledAgain(x.order, a.order, x.items);
  }

  lemma SettledAgain(s: seq<ListHead>, t: seq<ListHead>, items: map<ListHead, Item>)
    requires Settled(s, items) && multiset(t) == multiset(s) && Sorted(CmpIdx(), t, items)
    ensures Settled(t, items)
  {
    SamePermutation(s, t);
  }

  lemma OrderIff<N>(s: seq<N>, now: seq<N>, t: seq<N>, items: map<N, Item>)
    requires Sorted(CmpIdx(), s, items) && multiset(now) == multiset(s) && StablySorted(CmpIdx(), now, t, items)
    ensures t == s <==> SameTies(CmpIdx(), now, s, items)
  {
    if SameTies(CmpIdx(), now, s, items) {
      forall k
        ensures Filter(CmpIdx(), t, items, k) == Filter(CmpIdx(), s, items, k)
      {
        assert Filter(CmpIdx(), t, items, k) == Filter(CmpIdx(), now, items, k);
      }
      StableUnique(CmpIdx(), t, s, items);
    }
    if t == s {
      forall k
        ensures Filter(CmpIdx(), now, items, k) == Filter(CmpIdx(), s, items, k)
      {
        assert Filter(CmpIdx(), t, items, k) == Filter(CmpIdx(), now, items, k);
      }
    }
  }

  /** With distinct idx values the order is always restored. */
  lemma DistinctRestores(env: Env, x: Snap, findNum: s16, finderIdx: s16, stack: u16)
    requires Settled(x.order, x.items) && |x.order| >= 2 && DistinctKeys(CmpIdx(), x.order, x.items)
    ensures BenchList(env, x, findNum, finderIdx, stack).after.order == x.order
  {
    RestoredIff(env, x, findNum, finderIdx, stack);
    SortedUnique(CmpIdx(), x.order, BenchList(env, x, findNum, finderIdx, stack).after.order, x.items);
  }

  /** A call that neither searches nor sorts by data restores every order, with or without equal idx. */
  lemma NoSearchRestores(env: Env, x: Snap, findNum: s16, finderIdx: s16, stack: u16)
    requires Settled(x.order, x.items) && |x.order| >= 2 && findNum <= 0 && finderIdx <= 0
    ensures BenchList(env, x, findNum, finderIdx, stack).after.order == x.order
  {
    RestoredIff(env, x, findNum, finderIdx, stack);
  }

  // ---------- Searches that find nothing ----------

  /** None of the first `n` bytes searched for is the low byte of an element. */
  ghost predicate AllMiss(s: seq<ListHead>, items: map<ListHead, Item>, n: nat) {
    forall k {:trigger Look(LIST, k)} :: Look(LIST, k) ==>
      forall i: nat, x :: i < n && x in s ==> ItemAt(items, x).data16 % 0x100 != LowByte(i)
  }

  lemma ReversedTwice<N>(s: seq<N>)
    ensures Reversed(Reversed(s)) == s
  {
  }

  /** After misses: reversed, if their number is odd. */
  ghost predicate Missed(odd: bool, s: seq<ListHead>, y: Search) {
    forall k {:trigger Look(LIST, k)} :: Look(LIST, k) ==>
      y.idx < 0 && multiset(y.order) == multiset(s) && y.order == if odd then Reversed(s) else s
  }

  lemma MissedIs(odd: bool, s: seq<ListHead>, y: Search)
    requires y.idx < 0 && y.order == if odd then Reversed(s) else s
    ensures Missed(odd, s, y)
  {
    ReversedPermutes(s);
  }

  lemma MissedNext(items: map<ListHead, Item>, data: u16, odd: bool, s: seq<ListHead>, y: Search)
    requires Missed(odd, s, y) && forall x :: x in s ==> ItemAt(items, x).data16 % 0x100 != data
    ensures Missed(!odd, s, SearchStep(items, data, y))
  {
    assert Look(LIST, 0);
    MissOne(items, data, y, s);
    ReversedTwice(s);
    MissedIs(!odd, s, SearchStep(items, data, y));
  }

  predicate Odd(n: nat) {
    n % 2 == 1
  }

  lemma AllMissAt(s: seq<ListHead>, items: map<ListHead, Item>, n: nat, i: nat)
    requires i < n && AllMiss(s, items, n)
    ensures forall x :: x in s ==> ItemAt(items, x).data16 % 0x100 != LowByte(i)
  {
    assert Look(LIST, 0);
  }

  lemma OddNext(i: nat)
    ensures Odd(i + 1) == !Odd(i)
  {
  }

  /** The first `i` of `n` searches miss. */
  ghost predicate MissedTo(items: map<ListHead, Item>, n: nat, x: Search, i: nat) {
    forall k {:trigger Look(MERGE, k)} :: Look(MERGE, k) && i <= n ==>
      Missed(Odd(i), x.order, SearchAll(items, i, x))
  }

  ghost function Misses(items: map<ListHead, Item>, n: nat, x: Search): nat -> bool {
    (i: nat) => MissedTo(items, n, x, i)
  }

  lemma MissStart(items: map<ListHead, Item>, n: nat, x: Search)
    requires x.idx < 0
    ensures Misses(items, n, x)(0)
  {
    MissedIs(false, x.order, x);
  }

  lemma MissStep(items: map<ListHead, Item>, n: nat, x: Search, i: nat)
    requires AllMiss(x.order, items, n) && Misses(items, n, x)(i)
    ensures Misses(items, n, x)(i + 1)
  {
    assert Look(MERGE, 0);
    if i < n {
      SearchNext(items, i, x);
      AllMissAt(x.order, items, n, i);
      MissedNext(items, LowByte(i), Odd(i), x.order, SearchAll(items, i, x));
      OddNext(i);
    }
  }

  lemma MissAll(items: map<ListHead, Item>, n: nat, x: Search, i: nat)
    requires x.idx < 0 && AllMiss(x.order, items, n)
    ensures Misses(items, n, x)(i)
  {
    MissStart(items, n, x);
    forall j: nat | Look(RUN, j) && Misses(items, n, x)(j)
      ensures Misses(items, n, x)(j + 1)
    {
      MissStep(items, n, x, j);
    }
    Along(Misses(items, n, x), i);
  }

  lemma MissOne(items: map<ListHead, Item>, data: u16, y: Search, s: seq<ListHead>)
    requires y.idx < 0 && multiset(y.order) == multiset(s)
    requires forall x :: x in s ==> ItemAt(items, x).data16 % 0x100 != data
    ensures SearchStep(items, data, y).order == Reversed(y.order) && SearchStep(items, data, y).idx == y.idx
  {
    FindNothing(items, y.order, s, y.idx, data);
  }

  lemma FindNothing(items: map<ListHead, Item>, r: seq<ListHead>, s: seq<ListHead>, idx: s16, data: u16)
    requires idx < 0 && multiset(r) == multiset(s)
    requires forall x :: x in s ==> ItemAt(items, x).data16 % 0x100 != data
    ensures FindIndex(items, r, idx, data) == |r|
  {
    forall i | 0 <= i < |r|
      ensures !Matches(ItemAt(items, r[i]), idx, data)
    {
      assert r[i] in multiset(r);
      assert r[i] in s;
    }
    FindIndexIs(items, r, idx, data, |r|);
  }

  lemma {:induction false} FilterReversed<N>(cmp: Comparator, s: seq<N>, items: map<N, Item>, k: int)
    ensures Filter(cmp, Reversed(s), items, k) == Reversed(Filter(cmp, s, items, k))
  {
    if s != [] {
      var t := s[1..];
      FilterReversed(cmp, t, items, k);
      assert Reversed(s) == Reversed(t) + [s[0]];
      FilterConcat(cmp, Reversed(t), [s[0]], items, k);
      var f := Filter(cmp, t, items, k);
      assert Reversed([s[0]] + f) == Reversed(f) + [s[0]];
    }
  }

  lemma {:induction false} FilterIn<N>(cmp: Comparator, s: seq<N>, items: map<N, Item>, k: int)
    ensures forall x :: x in Filter(cmp, s, items, k) <==> x in s && KeyOf(cmp, x, items) == k
    ensures NoRepeats(s) ==> NoRepeats(Filter(cmp, s, items, k))
  {
    if s != [] {
      FilterIn(cmp, s[1..], items, k);
      if NoRepeats(s) {
        assert NoRepeats(s[1..]) && s[0] !in s[1..];
      }
    }
  }

  lemma FirstIsNotLast<N>(f: seq<N>, x: N, y: N)
    requires NoRepeats(f) && x in f && y in f && x != y
    ensures f != [] && Reversed(f)[0] != f[0]
  {
    var a :| 0 <= a < |f| && f[a] == x;
    var b :| 0 <= b < |f| && f[b] == y;
    assert Reversed(f)[0] == f[|f| - 1] != f[0];
  }

  /** Reversing changes the order of every tie. */
  lemma TieReversed<N>(cmp: Comparator, s: seq<N>, items: map<N, Item>, i: nat, j: nat)
    requires NoRepeats(s) && i < j < |s| && KeyOf(cmp, s[i], items) == KeyOf(cmp, s[j], items)
    ensures var f := Filter(cmp, s, items, KeyOf(cmp, s[i], items)); f != [] && Reversed(f)[0] != f[0]
  {
    var f := Filter(cmp, s, items, KeyOf(cmp, s[i], items));
    FilterIn(cmp, s, items, KeyOf(cmp, s[i], items));
    assert s[i] in s && s[j] in s && s[i] != s[j];
    FirstIsNotLast(f, s[i], s[j]);
  }

  lemma ReversedTies<N>(cmp: Comparator, s: seq<N>, items: map<N, Item>)
    requires NoRepeats(s) && !DistinctKeys(cmp, s, items)
    ensures !SameTies(cmp, Reversed(s), s, items)
  {
    var i, j :| 0 <= i < j < |s| && KeyOf(cmp, s[i], items) == KeyOf(cmp, s[j], items);
    TieReversed(cmp, s, items, i, j);
    FilterReversed(cmp, s, items, KeyOf(cmp, s[i], items));
  }

  /** When every search misses, an even number of them leaves the order to be restored, and an odd number
      does so exactly when all idx values differ. */
  lemma RestoredAfterMisses(env: Env, x: Snap, findNum: s16, finderIdx: s16, stack: u16)
    requires Settled(x.order, x.items) && |x.order| >= 2
    requires finderIdx < 0 && AllMiss(x.order, x.items, Count(findNum))
    ensures BenchList(env, x, findNum, finderIdx, stack).after.order == x.order <==>
            !Odd(Count(findNum)) || DistinctKeys(CmpIdx(), x.order, x.items)
  {
    RestoredIff(env, x, findNum, finderIdx, stack);
    LastOrderAfterMisses(env, x, findNum, finderIdx);
    if DistinctKeys(CmpIdx(), x.order, x.items) {
      DistinctRestores(env, x, findNum, finderIdx, stack);
    } else if Odd(Count(findNum)) {
      ReversedTies(CmpIdx(), x.order, x.items);
    }
  }

  // ---------- Whatever the seed: a few searches lose every tie ----------

  ghost predicate Before<N>(s: seq<N>, x: N, y: N) {
    exists i, j :: 0 <= i < j < |s| && s[i] == x && s[j] == y
  }

  lemma BeforeFirst<N>(s: seq<N>, x: N, y: N)
    requires s != []
    ensures Before(s, x, y) <==> (s[0] == x && y in s[1..]) || Before(s[1..], x, y)
  {
    var t := s[1..];
    if Before(s, x, y) {
      var i, j :| 0 <= i < j < |s| && s[i] == x && s[j] == y;
      assert t[j - 1] == y;
      if i > 0 {
        assert t[i - 1] == x;
      }
    }
    if Before(t, x, y) {
      var i, j :| 0 <= i < j < |t| && t[i] == x && t[j] == y;
      assert s[i + 1] == x && s[j + 1] == y;
    }
    if s[0] == x && y in t {
      var j :| 0 <= j < |t| && t[j] == y;
      assert s[j + 1] == y;
    }
  }

  /** The order of two elements with the same key is that of the elements with this key. */
  lemma {:induction false} FilterOrder<N>(cmp: Comparator, s: seq<N>, items: map<N, Item>, x: N, y: N)
    requires KeyOf(cmp, x, items) == KeyOf(cmp, y, items)
    ensures Before(s, x, y) <==> Before(Filter(cmp, s, items, KeyOf(cmp, x, items)), x, y)
  {
    if s != [] {
      var k := KeyOf(cmp, x, items);
      var f := Filter(cmp, s[1..], items, k);
      FilterOrder(cmp, s[1..], items, x, y);
      FilterIn(cmp, s[1..], items, k);
      BeforeFirst(s, x, y);
      if KeyOf(cmp, s[0], items) == k {
        BeforeFirst([s[0]] + f, x, y);
        assert ([s[0]] + f)[1..] == f;
      } else {
        assert Filter(cmp, s, items, k) == f;
      }
    }
  }

  lemma NotOpposite<N>(s: seq<N>, x: N, y: N)
    requires NoRepeats(s) && Before(s, y, x)
    ensures !Before(s, x, y)
  {
  }

  lemma NotReversed<N>(s: seq<N>, x: N, y: N)
    requires Before(s, x, y)
    ensures Before(Reversed(s), y, x)
  {
    var i, j :| 0 <= i < j < |s| && s[i] == x && s[j] == y;
    assert Reversed(s)[|s| - 1 - j] == y && Reversed(s)[|s| - 1 - i] == x;
  }

  /** Where an element goes when the one at `m` is moved behind the head. */
  function Place(m: nat, i: nat): nat {
    if i == m then 1 else if 1 <= i < m then i + 1 else i
  }

  lemma MovedAt<N>(s: seq<N>, m: nat, i: nat)
    requires 1 <= m < |s| && i < |s|
    ensures Place(m, i) < |s| && MoveToFront(s, m)[Place(m, i)] == s[i]
  {
  }

  lemma OthersKeepOrder<N>(t: seq<N>, m: nat, y: N, x: N)
    requires 1 <= m < |t| && t[m] != x && Before(t, y, x)
    ensures Before(MoveToFront(t, m), y, x)
  {
    var b, a :| 0 <= b < a < |t| && t[b] == y && t[a] == x;
    MovedAt(t, m, a);
    MovedAt(t, m, b);
  }

  /** A search reverses the order of any two elements, unless it moves the one that it leaves behind. */
  lemma OnlyMoved<N>(r: seq<N>, k: nat, x: N, y: N)
    requires NoRepeats(r) && k <= |r| && Before(r, x, y) && Before(OrderAfter(r, k), x, y)
    ensures 0 < k < |r| && r[k - 1] == x && OrderAfter(r, k)[1] == x
  {
    var t, m := Reversed(r), |r| - k;
    KeepsNoRepeats(r, k);
    NotReversed(r, x, y);
    if k == 0 || k == |r| {
      NotOpposite(OrderAfter(r, k), x, y);
    } else if t[m] != x {
      OthersKeepOrder(t, m, y, x);
      NotOpposite(OrderAfter(r, k), x, y);
    }
  }

  /** Two searches that find the third element leave it there. */
  lemma ThirdComesBack<N>(r: seq<N>)
    requires |r| >= 3
    ensures OrderAfter(OrderAfter(r, 2), 2)[2] == r[2]
  {
    AfterThird(r);
    AfterThird(OrderAfter(r, 2));
  }

  lemma AfterThird<N>(r: seq<N>)
    requires |r| >= 3
    ensures var s := OrderAfter(r, 2);
            s[0] == r[|r| - 1] && s[|r| - 1] == r[0] && forall j :: 2 <= j <= |r| - 2 ==> s[j] == r[|r| - j]
  {
    var t, m := Reversed(r), |r| - 2;
    forall i: nat | i < |r|
      ensures Place(m, i) < |r| && MoveToFront(t, m)[Place(m, i)] == r[|r| - 1 - i]
    {
      MovedAt(t, m, i);
    }
    forall j | 2 <= j <= |r| - 2
      ensures OrderAfter(r, 2)[j] == r[|r| - j]
    {
      assert Place(m, j - 1) == j;
    }
    assert Place(m, 0) == 0 && Place(m, |r| - 1) == |r| - 1;
  }

  /** Four searches by data, for 0 to 3, cannot all keep `x` before `y`: from the second on each would find
      the third element, and the second and the fourth the same one. */
  lemma FourSearches(items: map<ListHead, Item>, r: seq<ListHead>, x: ListHead, y: ListHead, r1: seq<ListHead>,
                     r2: seq<ListHead>, r3: seq<ListHead>, r4: seq<ListHead>)
    requires NoRepeats(r) && Before(r, x, y) && Before(r1, x, y) && Before(r2, x, y) && Before(r3, x, y)
    requires r1 == OrderAfter(r, FindIndex(items, r, -1, 0)) && r2 == OrderAfter(r1, FindIndex(items, r1, -1, 1))
    requires r3 == OrderAfter(r2, FindIndex(items, r2, -1, 2)) && r4 == OrderAfter(r3, FindIndex(items, r3, -1, 3))
    ensures !Before(r4, x, y)
  {
    if Before(r4, x, y) {
      KeepsNoRepeats(r, FindIndex(items, r, -1, 0));
      OnlyMoved(r, FindIndex(items, r, -1, 0), x, y);
      FindsThird(items, r1, 1, x, y);
      FindsThird(items, r2, 2, x, y);
      FindsThird(items, r3, 3, x, y);
      ThirdComesBack(r1);
      assert false;
    }
  }

  lemma KeepsNoRepeats<N>(r: seq<N>, k: nat)
    requires NoRepeats(r) && k <= |r|
    ensures NoRepeats(OrderAfter(r, k))
  {
    OrderAfterPermutes(r, k);
    SamePermutation(r, OrderAfter(r, k));
  }

  /** With `x` in second place. */
  lemma FindsThird(items: map<ListHead, Item>, r: seq<ListHead>, data: u16, x: ListHead, y: ListHead)
    requires NoRepeats(r) && |r| >= 2 && r[1] == x && Before(r, x, y)
    requires Before(OrderAfter(r, FindIndex(items, r, -1, data)), x, y)
    ensures var k := FindIndex(items, r, -1, data);
            k == 2 && |r| >= 3 && ItemAt(items, r[2]).data16 % 0x100 == data &&
            NoRepeats(OrderAfter(r, k)) && OrderAfter(r, k)[1] == x
  {
    var k := FindIndex(items, r, -1, data);
    OnlyMoved(r, k, x, y);
    KeepsNoRepeats(r, k);
    assert k - 1 == 1;
  }

  /** The order after `n` searches of a call that does not sort by data. */
  function SearchedOrder(items: map<ListHead, Item>, s: seq<ListHead>, n: nat): seq<ListHead> {
    SearchAll(items, n, SearchStart(s, -1)).order
  }

  /** What the next search makes of the order; a negative idx stays. */
  ghost predicate Follows(items: map<ListHead, Item>, idx: s16, data: u16, y: Search, z: Search) {
    forall k {:trigger Look(MERGE, k)} :: Look(MERGE, k) ==>
      z.idx == idx && z.order == OrderAfter(y.order, FindIndex(items, y.order, idx, data))
  }

  lemma StepFollows(items: map<ListHead, Item>, data: u16, y: Search)
    requires y.idx < 0
    ensures Follows(items, y.idx, data, y, SearchStep(items, data, y))
  {
  }

  lemma SmallByte(n: nat)
    requires n < 0x100
    ensures LowByte(n) == n
  {
  }

  lemma {:induction false} StillNegative(items: map<ListHead, Item>, x: Search, n: nat)
    requires x.idx < 0
    ensures SearchAll(items, n, x).idx == x.idx
  {
    if n > 0 {
      StillNegative(items, x, n - 1);
      StepFollows(items, LowByte(n - 1), SearchAll(items, n - 1, x));
      assert Look(MERGE, 0);
    }
  }

  lemma NextFollows(items: map<ListHead, Item>, x: Search, n: nat)
    requires n < 0x100 && x.idx < 0
    ensures Follows(items, x.idx, n, SearchAll(items, n, x), SearchAll(items, n + 1, x))
  {
    StillNegative(items, x, n);
    SmallByte(n);
    SearchNext(items, n, x);
    StepFollows(items, n, SearchAll(items, n, x));
  }

  lemma NextOrder(items: map<ListHead, Item>, s: seq<ListHead>, n: nat)
    requires n < 0x100
    ensures SearchedOrder(items, s, n + 1) ==
            OrderAfter(SearchedOrder(items, s, n), FindIndex(items, SearchedOrder(items, s, n), -1, n))
  {
    NextFollows(items, SearchStart(s, -1), n);
    assert Look(MERGE, 0);
  }

  /** If two elements share an idx, one of the first four numbers of searches changes their order. */
  lemma TieLost(items: map<ListHead, Item>, s: seq<ListHead>, i: nat, j: nat) returns (n: s16)
    requires NoRepeats(s) && i < j < |s|
    ensures 1 <= n <= 4 && !Before(SearchedOrder(items, s, n), s[i], s[j])
  {
    NextOrder(items, s, 0);
    NextOrder(items, s, 1);
    NextOrder(items, s, 2);
    NextOrder(items, s, 3);
    var r1, r2, r3, r4 := SearchedOrder(items, s, 1), SearchedOrder(items, s, 2), SearchedOrder(items, s, 3),
                          SearchedOrder(items, s, 4);
    n := if !Before(r1, s[i], s[j]) then 1 else if !Before(r2, s[i], s[j]) then 2
         else if !Before(r3, s[i], s[j]) then 3 else 4;
    if n == 4 {
      FourSearches(items, s, s[i], s[j], r1, r2, r3, r4);
    }
  }

  /** The order is restored by every call with this finder_idx, whatever seed3 and the state of the other
      benchmarks are. */
  ghost predicate RestoredBy(finderIdx: s16, s: seq<ListHead>, items: map<ListHead, Item>) {
    forall env: Env, regs, findNum: s16, stack: u16 ::
      BenchList(env, Snap(s, items, regs), findNum, finderIdx, stack).after.order == s
  }

  /** A call with one, two, three or four searches, which ends without the sort by data, loses the order. */
  lemma TieNotRestored(env: Env, x: Snap, stack: u16, i: nat, j: nat) returns (findNum: s16)
    requires Settled(x.order, x.items) && i < j < |x.order|
    requires KeyOf(CmpIdx(), x.order[i], x.items) == KeyOf(CmpIdx(), x.order[j], x.items)
    ensures 1 <= findNum <= 4 && BenchList(env, x, findNum, -1, stack).after.order != x.order
  {
    var s := x.order;
    var k := KeyOf(CmpIdx(), s[i], x.items);
    findNum := TieLost(x.items, s, i, j);
    RestoredIff(env, x, findNum, -1, stack);
    assert BeforeLastSort(env, x, findNum, -1).order == SearchedOrder(x.items, s, findNum);
    FilterOrder(CmpIdx(), s, x.items, s[i], s[j]);
    FilterOrder(CmpIdx(), SearchedOrder(x.items, s, findNum), x.items, s[i], s[j]);
    assert Before(s, s[i], s[j]);
  }

  lemma DistinctRestoredBy(finderIdx: s16, s: seq<ListHead>, items: map<ListHead, Item>)
    requires Settled(s, items) && |s| >= 2 && DistinctKeys(CmpIdx(), s, items)
    ensures RestoredBy(finderIdx, s, items)
  {
    forall env: Env, regs, findNum: s16, stack: u16
      ensures BenchList(env, Snap(s, items, regs), findNum, finderIdx, stack).after.order == s
    {
      DistinctRestores(env, Snap(s, items, regs), findNum, finderIdx, stack);
    }
  }

  /** The promise, for the calls that iterate makes, with finder_idx 1 and -1: core_bench_list restores the
      order whatever seed3 and the state of the other benchmarks are, if and only if all idx values differ;
      and then it does so for every finder_idx. */
  lemma AlwaysRestoredIff(s: seq<ListHead>, items: map<ListHead, Item>)
    requires Settled(s, items) && |s| >= 2
    ensures RestoredBy(1, s, items) && RestoredBy(-1, s, items) <==> DistinctKeys(CmpIdx(), s, items)
    ensures DistinctKeys(CmpIdx(), s, items) ==> forall finderIdx: s16 :: RestoredBy(finderIdx, s, items)
  {
    if DistinctKeys(CmpIdx(), s, items) {
      forall finderIdx: s16
        ensures RestoredBy(finderIdx, s, items)
      {
        DistinctRestoredBy(finderIdx, s, items);
      }
    } else {
      var i, j :| 0 <= i < j < |s| && KeyOf(CmpIdx(), s[i], items) == KeyOf(CmpIdx(), s[j], items);
      NotRestoredBy(s, items, i, j);
    }
  }

  lemma NotRestoredBy(s: seq<ListHead>, items: map<ListHead, Item>, i: nat, j: nat)
    requires Settled(s, items) && i < j < |s|
    requires KeyOf(CmpIdx(), s[i], items) == KeyOf(CmpIdx(), s[j], items)
    ensures !RestoredBy(-1, s, items)
  {
    var env: Env := EnvBase(0, 0, 0, [], []);
    var findNum := TieNotRestored(env, Snap(s, items, NO_REGS), 0, i, j);
    assert BenchList(env, Snap(s, items, NO_REGS), findNum, -1, 0).after.order != s;
  }

  // ---------- The header ----------

  /** No other element has an idx as small as the header's. */
  ghost predicate HeaderAlone(s: seq<ListHead>, items: map<ListHead, Item>) {
    s != [] && forall n :: n in s && n != s[0] ==> KeyOf(CmpIdx(), s[0], items) < KeyOf(CmpIdx(), n, items)
  }

  /** Then the header stays the first node, and res->list stays the head of the list. */
  lemma HeaderStays(env: Env, x: Snap, findNum: s16, finderIdx: s16, stack: u16)
    requires Settled(x.order, x.items) && |x.order| >= 2 && HeaderAlone(x.order, x.items)
    ensures var a := BenchList(env, x, findNum, finderIdx, stack).after;
            a.order != [] && a.order[0] == x.order[0] && HeaderAlone(a.order, a.items)
  {
    var a := BenchList(env, x, findNum, finderIdx, stack).after;
    RestoredIff(env, x, findNum, finderIdx, stack);
    AloneStaysFirst(x.order, a.order, a.items);
  }

  lemma AloneStaysFirst(s: seq<ListHead>, a: seq<ListHead>, items: map<ListHead, Item>)
    requires Settled(s, items) && HeaderAlone(s, items) && multiset(a) == multiset(s) && Sorted(CmpIdx(), a, items)
    ensures a != [] && a[0] == s[0] && HeaderAlone(a, items)
  {
    SamePermutation(s, a);
    SmallestFirst(s, a, items);
    assert a[0] in s;
  }

  /** If another element has the header's idx, an odd number of misses brings it in front of the header, so
      that the list that starts at res->list is shorter afterwards. */
  lemma HeaderLost(env: Env, x: Snap, findNum: s16, finderIdx: s16, stack: u16, n: ListHead)
    requires Settled(x.order, x.items) && |x.order| >= 2 && n in x.order && n != x.order[0]
    requires KeyOf(CmpIdx(), n, x.items) == KeyOf(CmpIdx(), x.order[0], x.items)
    requires finderIdx < 0 && AllMiss(x.order, x.items, Count(findNum)) && Odd(Count(findNum))
    ensures var a := BenchList(env, x, findNum, finderIdx, stack).after.order;
            a != [] && a[0] != x.order[0]
  {
    var s, k := x.order, KeyOf(CmpIdx(), x.order[0], x.items);
    var now := BeforeLastSort(env, x, findNum, finderIdx);
    var a := BenchList(env, x, findNum, finderIdx, stack).after.order;
    LastOrderAfterMisses(env, x, findNum, finderIdx);
    BeforeLastSortFacts(env, x, findNum, finderIdx);
    SortedByIdxFacts(s, x.items, now);
    FilterReversed(CmpIdx(), s, x.items, k);
    assert Filter(CmpIdx(), a, x.items, k) == Reversed(Filter(CmpIdx(), s, x.items, k));
    FirstOfReversed(s, a, x.items, n);
  }

  lemma LastOrderAfterMisses(env: Env, x: Snap, findNum: s16, finderIdx: s16)
    requires finderIdx < 0 && AllMiss(x.order, x.items, Count(findNum))
    ensures BeforeLastSort(env, x, findNum, finderIdx).order ==
            if Odd(Count(findNum)) then Reversed(x.order) else x.order
  {
    MissAll(x.items, Count(findNum), SearchStart(x.order, finderIdx), Count(findNum));
    assert Look(MERGE, 0) && Look(LIST, 0);
  }

  lemma FirstOfReversed(s: seq<ListHead>, a: seq<ListHead>, items: map<ListHead, Item>, n: ListHead)
    requires NoRepeats(s) && |s| >= 2 && Sorted(CmpIdx(), s, items) && Sorted(CmpIdx(), a, items)
    requires multiset(a) == multiset(s) && n in s && n != s[0]
    requires var k := KeyOf(CmpIdx(), s[0], items);
             KeyOf(CmpIdx(), n, items) == k &&
             Filter(CmpIdx(), a, items, k) == Reversed(Filter(CmpIdx(), s, items, k))
    ensures a != [] && a[0] != s[0]
  {
    var k := KeyOf(CmpIdx(), s[0], items);
    var j :| 0 <= j < |s| && s[j] == n;
    TieReversed(CmpIdx(), s, items, 0, j);
    SmallestFirst(s, a, items);
    assert Filter(CmpIdx(), a, items, k)[0] == a[0] && Filter(CmpIdx(), s, items, k)[0] == s[0];
  }

  lemma SmallestFirst(s: seq<ListHead>, a: seq<ListHead>, items: map<ListHead, Item>)
    requires s != [] && Sorted(CmpIdx(), s, items) && Sorted(CmpIdx(), a, items) && multiset(a) == multiset(s)
    ensures a != [] && KeyOf(CmpIdx(), a[0], items) == KeyOf(CmpIdx(), s[0], items)
  {
    assert |a| == |multiset(a)| == |multiset(s)| == |s|;
    assert s[0] in multiset(a) && a[0] in multiset(s);
    var i :| 0 <= i < |a| && a[i] == s[0];
    var j :| 0 <= j < |s| && s[j] == a[0];
    assert KeyOf(CmpIdx(), a[0], items) <= KeyOf(CmpIdx(), a[i], items);
    assert KeyOf(CmpIdx(), s[0], items) <= KeyOf(CmpIdx(), s[j], items);
  }
}
