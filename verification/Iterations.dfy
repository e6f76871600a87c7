/** Whole runs of iterate: what every call starts from. */
module Iterations {
  import opened Words
  import opened Records
  import opened Items
  import opened Sorting
  import opened SortProof
  import opened StateBench
  import opened Results
  import opened ListOps
  import opened ListBench
  import opened Restore
  import opened TextRun
  import opened CoreMark
  import opened Chains

  // ---------- The list ----------

  /** The idx of `n` is larger than the header's. */
  ghost predicate Behind(x: Snap, n: ListHead) {
    x.order != [] && KeyOf(CmpIdx(), x.order[0], x.items) < KeyOf(CmpIdx(), n, x.items)
  }

  /** `y` has the same records as `x`, all of them, and its list is a part of the list of `x`, sorted by idx
      with the same header first, in which only elements with the header's idx can be missing. */
  ghost predicate Kept(x: Snap, y: Snap) {
    forall k {:trigger Look(LIST, k)} :: Look(LIST, k) ==>
      && y.items == x.items && Settled(y.order, y.items)
      && y.order != [] && x.order != [] && y.order[0] == x.order[0]
      && (forall n :: n in y.order ==> n in x.order)
      && (forall n :: n in x.order && Behind(x, n) ==> n in y.order)
  }

  lemma KeptFacts(x: Snap, y: Snap)
    requires Kept(x, y)
    ensures y.items == x.items && Settled(y.order, y.items)
    ensures y.order != [] && x.order != [] && y.order[0] == x.order[0]
    ensures forall n :: n in y.order ==> n in x.order
    ensures forall n :: n in x.order && Behind(x, n) ==> n in y.order
  {
    assert Look(LIST, 0);
  }

  /** Two elements behind the header, as header, first item and tail give. */
  ghost predicate TwoBehind(x: Snap) {
    exists a, b :: a in x.order && b in x.order && a != b && Behind(x, a) && Behind(x, b)
  }

  /** Two elements that cannot be lost, and the header. */
  lemma ThreeLeft(x: Snap, y: Snap)
    requires Kept(x, y) && TwoBehind(x)
    ensures |y.order| >= 3
  {
    KeptFacts(x, y);
    var a, b :| a in x.order && b in x.order && a != b && Behind(x, a) && Behind(x, b);
    var i :| 0 <= i < |y.order| && y.order[i] == a;
    var j :| 0 <= j < |y.order| && y.order[j] == b;
    assert i != 0 && j != 0 && i != j;
  }

  lemma SuffixFacts(s: seq<ListHead>, items: map<ListHead, Item>, k: nat)
    requires Settled(s, items) && k < |s|
    ensures Settled(s[k..], items) && forall n :: n in s[k..] ==> n in s
  {
  }

  lemma StillBehind(s: seq<ListHead>, items: map<ListHead, Item>, k: nat, n: ListHead)
    requires Sorted(CmpIdx(), s, items) && k < |s| && n in s
    requires KeyOf(CmpIdx(), s[k], items) < KeyOf(CmpIdx(), n, items)
    ensures n in s[k..]
  {
    var i :| 0 <= i < |s| && s[i] == n;
    assert s[k..][i - k] == n;
  }

  lemma FromFacts(s: seq<ListHead>, items: map<ListHead, Item>, head: ListHead)
    requires Settled(s, items) && head in s
    ensures var t := From(s, head);
            Settled(t, items) && t != [] && t[0] == head && (forall n :: n in t ==> n in s) &&
            forall n :: n in s && KeyOf(CmpIdx(), head, items) < KeyOf(CmpIdx(), n, items) ==> n in t
  {
    FromSuffix(s, head);
    var k: nat :| k <= |s| && From(s, head) == s[k..];
    SuffixFacts(s, items, k);
    forall n | n in s && KeyOf(CmpIdx(), head, items) < KeyOf(CmpIdx(), n, items)
      ensures n in s[k..]
    {
      StillBehind(s, items, k, n);
    }
  }

  lemma HeaderSmallest(s: seq<ListHead>, items: map<ListHead, Item>, n: ListHead)
    requires Settled(s, items) && n in s
    ensures KeyOf(CmpIdx(), s[0], items) <= KeyOf(CmpIdx(), n, items)
  {
  }

  /** A call keeps all records, and all elements except perhaps some with the header's idx. */
  lemma HalfKept(env: Env, x: Snap, y: Snap, findNum: s16, finderIdx: s16, stack: u16)
    requires Kept(x, y) && |y.order| >= 2
    ensures Kept(x, Half(env, y, findNum, finderIdx, stack))
  {
    KeptFacts(x, y);
    var after := BenchList(env, y, findNum, finderIdx, stack).after;
    RestoredIff(env, y, findNum, finderIdx, stack);
    SamePermutation(y.order, after.order);
    FromFacts(after.order, after.items, y.order[0]);
  }

  lemma KeptAtFirst(x: Snap)
    requires Settled(x.order, x.items) && x.order != []
    ensures Kept(x, x)
  {
  }

  lemma CallKeeps(env: Env, x: Snap, findNum: s16, stack: nat -> u16, k: nat)
    requires Kept(x, Calls(env, x, findNum, stack, k)) && TwoBehind(x)
    ensures Kept(x, Calls(env, x, findNum, stack, k + 1))
  {
    ThreeLeft(x, Calls(env, x, findNum, stack, k));
    CallsNext(env, x, findNum, stack, k);
    HalfKept(env, x, Calls(env, x, findNum, stack, k), findNum, FinderIdx(k), stack(k));
  }

  /** Over any number of calls: every record is kept, and the list stays sorted by idx, starts with the same
      header, and loses at most elements with the header's idx. */
  lemma RunKeeps(env: Env, x: Snap, findNum: s16, stack: nat -> u16, n: nat)
    requires Settled(x.order, x.items) && TwoBehind(x)
    ensures Kept(x, Calls(env, x, findNum, stack, n))
  {
    var holds := (k: nat) => Kept(x, Calls(env, x, findNum, stack, k));
    KeptAtFirst(x);
    forall k: nat | Look(RUN, k) && holds(k)
      ensures holds(k + 1)
    {
      CallKeeps(env, x, findNum, stack, k);
    }
    Along(holds, n);
  }

  /** What has been lost has the header's idx. */
  lemma OnlyTiesLost(x: Snap, y: Snap, n: ListHead)
    requires Kept(x, y) && Settled(x.order, x.items) && n in x.order && n !in y.order
    ensures KeyOf(CmpIdx(), n, x.items) == KeyOf(CmpIdx(), x.order[0], x.items)
  {
    KeptFacts(x, y);
    HeaderSmallest(x.order, x.items, n);
    assert !Behind(x, n);
  }

  /** So nothing is lost if no element shares the header's idx. */
  lemma NothingLost(x: Snap, y: Snap)
    requires Kept(x, y) && Settled(x.order, x.items) && HeaderAlone(x.order, x.items)
    ensures multiset(y.order) == multiset(x.order)
  {
    KeptFacts(x, y);
    forall n | n in x.order
      ensures n in y.order
    {
      if n !in y.order {
        assert n != x.order[0];
        OnlyTiesLost(x, y, n);
      }
    }
    SameElements(y.order, x.order);
  }

  lemma OnceIfIn<N>(s: seq<N>, x: N)
    requires NoRepeats(s)
    ensures multiset(s)[x] == if x in s then 1 else 0
  {
    NoRepeatsOnce(s, x);
    assert x in s <==> x in multiset(s);
  }

  lemma SameElements<N>(s: seq<N>, t: seq<N>)
    requires NoRepeats(s) && NoRepeats(t) && forall x :: x in s <==> x in t
    ensures multiset(s) == multiset(t)
  {
    forall x
      ensures multiset(s)[x] == multiset(t)[x]
    {
      OnceIfIn(s, x);
      OnceIfIn(t, x);
    }
  }

  /** No call runs out of nodes. */
  lemma RunProceeds(env: Env, x: Snap, findNum: s16, stack: nat -> u16, n: nat)
    requires Settled(x.order, x.items) && TwoBehind(x)
    ensures Proceeds(env, x, findNum, stack, n)
  {
    forall k: nat | Look(RUN, k) && k < n
      ensures |Calls(env, x, findNum, stack, k).order| >= 3
    {
      RunKeeps(env, x, findNum, stack, k);
      ThreeLeft(x, Calls(env, x, findNum, stack, k));
    }
  }

  ghost predicate SameList(x: Snap, y: Snap) {
    y.order == x.order && y.items == x.items
  }

  /** With distinct idx values every call starts from exactly the original list. */
  lemma RunRestoresList(env: Env, x: Snap, findNum: s16, stack: nat -> u16, n: nat)
    requires Settled(x.order, x.items) && |x.order| >= 2 && DistinctKeys(CmpIdx(), x.order, x.items)
    ensures SameList(x, Calls(env, x, findNum, stack, n))
  {
    var holds := (k: nat) => SameList(x, Calls(env, x, findNum, stack, k));
    forall k: nat | Look(RUN, k) && holds(k)
      ensures holds(k + 1)
    {
      CallsNext(env, x, findNum, stack, k);
      HalfRestores(env, x, Calls(env, x, findNum, stack, k), findNum, FinderIdx(k), stack(k));
    }
    Along(holds, n);
  }

  lemma HalfRestores(env: Env, x: Snap, y: Snap, findNum: s16, finderIdx: s16, stack: u16)
    requires Settled(x.order, x.items) && |x.order| >= 2 && DistinctKeys(CmpIdx(), x.order, x.items)
    requires SameList(x, y)
    ensures SameList(x, Half(env, y, findNum, finderIdx, stack))
  {
    RestoredIff(env, y, findNum, finderIdx, stack);
    DistinctRestores(env, y, findNum, finderIdx, stack);
  }

  // ---------- The text ----------

  ghost predicate SameSeedByte(env: Env, s: u8) {
    env.seed1 % 0x100 == env.seed2 % 0x100 == s
  }

  /** The list holds all nodes. */
  ghost predicate Whole(x: Snap) {
    forall n :: n in x.items ==> n in x.order
  }

  /** The first sort by data does all the damage to the text, and no other does any, whatever part of the
      list it sorts. */
  lemma SortedText(env: Env, s: u8, x: Snap, k: nat, y: Snap, r: seq<ListHead>)
    requires SameSeedByte(env, s) && TextDamaged(s, x, k, y) && |y.order| >= 2 && Whole(x)
    requires multiset(r) == multiset(y.order)
    ensures SortedByData(env, y.regs, r, y.items, FinderIdx(k)).st.regs.text == Damaged(s, x.items, x.regs.text)
  {
    KeptFacts(x, y);
    SamePermutation(y.order, r);
    assert |r| == |multiset(r)| == |multiset(y.order)| == |y.order|;
    if k == 0 {
      SortDamages(env, s, r, State(y.items, y.regs, 0));
    } else if FinderIdx(k) > 0 {
      DamagedTwice(s, x.items, x.regs.text);
      SortDamagesOnce(env, s, r, State(y.items, y.regs, 0));
    }
  }

  lemma TextOfHalf(env: Env, y: Snap, z: Snap, findNum: s16, finderIdx: s16, stack: u16)
    requires y.order != [] && z == Half(env, y, findNum, finderIdx, stack)
    ensures z.regs.text ==
            SortedByData(env, y.regs, Searches(y, findNum, finderIdx).order, y.items, finderIdx).st.regs.text
  {
  }

  /** From the second call on. */
  ghost predicate TextDamaged(s: u8, x: Snap, k: nat, y: Snap) {
    Kept(x, y) && if k == 0 then y == x else y.regs.text == Damaged(s, x.items, x.regs.text)
  }

  lemma NextDamaged(env: Env, s: u8, x: Snap, k: nat, y: Snap, z: Snap, findNum: s16, stack: u16)
    requires SameSeedByte(env, s) && TextDamaged(s, x, k, y) && z == Half(env, y, findNum, FinderIdx(k), stack)
    requires TwoBehind(x) && Whole(x)
    ensures TextDamaged(s, x, k + 1, z)
  {
    ThreeLeft(x, y);
    HalfKept(env, x, y, findNum, FinderIdx(k), stack);
    TextOfHalf(env, y, z, findNum, FinderIdx(k), stack);
    SortedText(env, s, x, k, y, Searches(y, findNum, FinderIdx(k)).order);
  }

  /** The states before the calls of a run. */
  ghost predicate IsRun(env: Env, findNum: s16, stack: nat -> u16, run: nat -> Snap) {
    forall k: nat {:trigger Look(PASS, k)} :: Look(PASS, k) ==>
      run(k + 1) == Half(env, run(k), findNum, FinderIdx(k), stack(k))
  }

  lemma CallDamages(env: Env, s: u8, x: Snap, findNum: s16, stack: nat -> u16, run: nat -> Snap, k: nat)
    requires SameSeedByte(env, s) && TextDamaged(s, x, k, run(k)) && TwoBehind(x) && Whole(x)
    requires IsRun(env, findNum, stack, run)
    ensures TextDamaged(s, x, k + 1, run(k + 1))
  {
    assert Look(PASS, k);
    NextDamaged(env, s, x, k, run(k), run(k + 1), findNum, stack(k));
  }

  lemma AllDamaged(env: Env, s: u8, x: Snap, findNum: s16, stack: nat -> u16, run: nat -> Snap, n: nat)
    requires SameSeedByte(env, s) && TextDamaged(s, x, 0, run(0)) && TwoBehind(x) && Whole(x)
    requires IsRun(env, findNum, stack, run)
    ensures TextDamaged(s, x, n, run(n))
  {
    var holds := (k: nat) => TextDamaged(s, x, k, run(k));
    forall k: nat | Look(RUN, k) && holds(k)
      ensures holds(k + 1)
    {
      CallDamages(env, s, x, findNum, stack, run, k);
    }
    Along(holds, n);
  }

  lemma CallsAreRun(env: Env, x: Snap, findNum: s16, stack: nat -> u16)
    ensures IsRun(env, findNum, stack, (k: nat) => Calls(env, x, findNum, stack, k))
  {
    forall k: nat | Look(PASS, k)
      ensures Calls(env, x, findNum, stack, k + 1) ==
              Half(env, Calls(env, x, findNum, stack, k), findNum, FinderIdx(k), stack(k))
    {
      CallsNext(env, x, findNum, stack, k);
    }
  }

  /** With equal seed bytes the first call does all the damage that is ever done: every later call starts
      from the same text, the original one with commas where an item visits a bad byte. */
  lemma RunDamages(env: Env, s: u8, x: Snap, findNum: s16, stack: nat -> u16, n: nat)
    requires Settled(x.order, x.items) && TwoBehind(x) && Whole(x) && SameSeedByte(env, s)
    ensures Calls(env, x, findNum, stack, n).regs.text ==
            if n == 0 then x.regs.text else Damaged(s, x.items, x.regs.text)
  {
    KeptAtFirst(x);
    CallsAreRun(env, x, findNum, stack);
    AllDamaged(env, s, x, findNum, stack, (k: nat) => Calls(env, x, findNum, stack, k), n);
  }

  /** So the text of a run never changes if and only if no item that asks for the text benchmark visits a
      byte that turns into a comma. */
  lemma RunKeepsTextIff(env: Env, s: u8, x: Snap, findNum: s16, stack: nat -> u16, n: nat)
    requires Settled(x.order, x.items) && TwoBehind(x) && Whole(x) && SameSeedByte(env, s) && n >= 1
    ensures Calls(env, x, findNum, stack, n).regs.text == x.regs.text <==>
            forall j: nat :: !HitsBad(s, x.items, x.regs.text, j)
  {
    RunDamages(env, s, x, findNum, stack, n);
    UndamagedIff(s, x.items, x.regs.text);
  }

  /** Iterations are identical: every call of a run starts from the same list, records and text. */
  ghost predicate SameData(x: Snap, y: Snap) {
    SameList(x, y) && y.regs.text == x.regs.text
  }

  lemma RunRepeats(env: Env, s: u8, x: Snap, findNum: s16, stack: nat -> u16, n: nat)
    requires Settled(x.order, x.items) && TwoBehind(x) && Whole(x) && DistinctKeys(CmpIdx(), x.order, x.items)
    requires SameSeedByte(env, s) && forall j: nat :: !HitsBad(s, x.items, x.regs.text, j)
    ensures SameData(x, Calls(env, x, findNum, stack, n))
  {
    RunRestoresList(env, x, findNum, stack, n);
    RunDamages(env, s, x, findNum, stack, n);
    UndamagedIff(s, x.items, x.regs.text);
  }

  /** A call with one search that misses and no sort by data, as every second call of a run with seed3 1
      makes, moves some element of a list with equal idx values, whatever state it starts from. */
  lemma MissLosesOrder(env: Env, x: Snap, y: Snap, finderIdx: s16, stack: u16)
    requires Kept(x, y) && |y.order| >= 2 && finderIdx < 0 && AllMiss(x.order, x.items, 1)
    ensures BenchList(env, y, 1, finderIdx, stack).after.order == y.order <==>
            DistinctKeys(CmpIdx(), y.order, y.items)
  {
    KeptFacts(x, y);
    MissPart(x.order, y.order, x.items, 1);
    RestoredAfterMisses(env, y, 1, finderIdx, stack);
  }

  lemma MissPart(s: seq<ListHead>, t: seq<ListHead>, items: map<ListHead, Item>, n: nat)
    requires AllMiss(s, items, n) && forall x :: x in t ==> x in s
    ensures AllMiss(t, items, n)
  {
    assert Look(LIST, 0);
  }
}
