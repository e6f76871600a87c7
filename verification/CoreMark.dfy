/** iterate of core_main.c: the run loop.  res->list is never updated, so each call works on the list that
    starts at the node that was first in the beginning. */
module CoreMark {
  import opened Words
  import opened Crc
  import opened Records
  import opened Items
  import opened Sorting
  import opened Results
  import opened LinkedList
  import opened MergeSort
  import opened ListOps
  import opened ListBench

  // ---------- What a run computes ----------

  /** The part of a list from a node on. */
  function From(s: seq<ListHead>, head: ListHead): (t: seq<ListHead>)
    ensures |t| <= |s| && (head in s <==> t != []) && (t != [] ==> t[0] == head)
  {
    if s == [] || s[0] == head then s else From(s[1..], head)
  }

  /** What one call of core_bench_list and the crcu16 after it lead to. */
  function Half(env: Env, x: Snap, findNum: s16, finderIdx: s16, stack: u16): Snap {
    if x.order == [] then x
    else
      var o := BenchList(env, x, findNum, finderIdx, stack);
      Snap(From(o.after.order, x.order[0]), o.after.items,
           o.after.regs.(crc := CrcWord(o.retval, o.after.regs.crc)))
  }

  /** The finder_idx of the k-th call: 1 and -1 in turn. */
  function FinderIdx(k: nat): s16 {
    if k % 2 == 0 then 1 else -1
  }

  /** The state before the k-th call. */
  function Calls(env: Env, x: Snap, findNum: s16, stack: nat -> u16, k: nat): Snap {
    if k == 0 then x
    else Half(env, Calls(env, x, findNum, stack, k - 1), findNum, FinderIdx(k - 1), stack(k - 1))
  }

  lemma CallsNext(env: Env, x: Snap, findNum: s16, stack: nat -> u16, k: nat)
    ensures Calls(env, x, findNum, stack, k + 1) ==
            Half(env, Calls(env, x, findNum, stack, k), findNum, FinderIdx(k), stack(k))
  {
  }

  /** The state in which iterate starts. */
  function Cleared(x: Snap): Snap {
    x.(regs := Regs(0, 0, 0, x.regs.text))
  }

  /** Every call finds the three nodes that it reads without a test. */
  ghost predicate Proceeds(env: Env, x: Snap, findNum: s16, stack: nat -> u16, n: nat) {
    forall k {:trigger Look(RUN, k)} :: Look(RUN, k) && 0 <= k < n ==> |Calls(env, x, findNum, stack, k).order| >= 3
  }

  // ---------- The loop ----------

  /** The list that starts at res->list, the records and the registers are as `x` says. */
  ghost predicate Current(res: CoreResults, v: View, x: Snap)
    reads res, res.memblock3, res.mat.a, res.mat.b, v.nodes, v.datas, x.order, set n | n in v.nodes :: n.info
  {
    forall k {:trigger Look(LIST, k)} :: Look(LIST, k) ==> res.list != null && Shows(res, v, x, res.list)
  }

  lemma CurrentIs(res: CoreResults, v: View, x: Snap, regs: Regs)
    requires Benching(v) && Serves(CMP_COMPLEX, res, v.c, v.env) && res.Registers() == regs
    requires Listed(v.nodes, v.datas, x.order, x.items, res.list) && res.list != null
    ensures Current(res, v, x.(regs := regs))
  {
    ListedSortable(CMP_COMPLEX, res, v, x.order, x.items, regs, res.list);
  }

  lemma CurrentFacts(res: CoreResults, v: View, x: Snap)
    requires Current(res, v, x)
    ensures Benching(v) && Serves(CMP_COMPLEX, res, v.c, v.env) && res.Registers() == x.regs
    ensures Listed(v.nodes, v.datas, x.order, x.items, res.list) && res.list != null
    ensures x.order != [] && res.list == x.order[0] && Shows(res, v, x, res.list)
  {
    assert Look(LIST, 0);
    SortableListed(CMP_COMPLEX, res, v, x.order, State(x.items, x.regs, 0), res.list);
  }

  lemma {:induction false} FromSuffix(s: seq<ListHead>, head: ListHead)
    ensures exists k :: 0 <= k <= |s| && From(s, head) == s[k..]
  {
    if s == [] || s[0] == head {
      assert From(s, head) == s[0..];
    } else {
      FromSuffix(s[1..], head);
      var k :| 0 <= k <= |s[1..]| && From(s[1..], head) == s[1..][k..];
      assert s[1..][k..] == s[k + 1..];
    }
  }

  lemma CurrentShows(res: CoreResults, v: View, x: Snap)
    requires Current(res, v, x)
    ensures x.order != [] && res.list == x.order[0] && Shows(res, v, x, res.list)
  {
    CurrentFacts(res, v, x);
  }

  /** The rest of a list is a list. */
  lemma RestListed(nodes: set<ListHead>, datas: set<ListData>, s: seq<ListHead>, items: map<ListHead, Item>,
                   list: ListHead?, head: ListHead, k: nat)
    requires Listed(nodes, datas, s, items, list) && k < |s| && s[k] == head
    ensures Listed(nodes, datas, s[k..], items, head)
  {
    var t := s[k..];
    assert t[|t| - 1] == s[|s| - 1];
    assert forall i :: 0 <= i < |t| ==> t[i] == s[k + i];
  }

  lemma {:induction false} SortPermutes<N>(c: Comparator, s: seq<N>, w: nat, st: State<N>)
    requires w > 0
    ensures multiset(Sort(c, s, w, st).order) == multiset(s)
    decreases |s| - w
  {
    PassPermutes(c, s, w, st);
    if |s| > 2 * w {
      var pass := Pass(c, s, w, st);
      SortPermutes(c, pass.order, 2 * w, pass.st);
    }
  }

  /** A call keeps the nodes of the list. */
  lemma BenchPermutes(env: Env, x: Snap, findNum: s16, finderIdx: s16, stack: u16)
    ensures multiset(BenchList(env, x, findNum, finderIdx, stack).after.order) == multiset(x.order)
  {
    var y := Searches(x, findNum, finderIdx);
    var now := BeforeLastSort(env, x, findNum, finderIdx);
    SortPermutes(CmpComplex(env), y.order, 1, State(x.items, x.regs, 0));
    SortPermutes(CmpIdx(), now.order, 1, State(now.st.items, NO_REGS, 0));
  }

  lemma HeadStays(env: Env, x: Snap, findNum: s16, finderIdx: s16, stack: u16)
    requires x.order != []
    ensures x.order[0] in BenchList(env, x, findNum, finderIdx, stack).after.order
  {
    BenchPermutes(env, x, findNum, finderIdx, stack);
    assert x.order[0] in multiset(x.order);
  }

  method StoreCrc(res: CoreResults, crc: u16, ghost v: View, ghost x: Snap)
    requires Current(res, v, x)
    modifies res`crc
    ensures Current(res, v, x.(regs := x.regs.(crc := crc)))
  {
    CurrentFacts(res, v, x);
    res.crc := crc;
    CurrentIs(res, v, x, x.regs.(crc := crc));
  }

  /** The list left by core_bench_list, seen from res->list. */
  lemma AfterBench(res: CoreResults, v: View, after: Snap, list: ListHead, head: ListHead, y: Snap)
    requires res.list == head && head in after.order && Shows(res, v, after, list)
    requires y == after.(order := From(after.order, head))
    ensures Current(res, v, y) && res.crc == after.regs.crc
  {
    SortableListed(CMP_COMPLEX, res, v, after.order, State(after.items, after.regs, 0), list);
    FromSuffix(after.order, head);
    var k: nat :| k <= |after.order| && From(after.order, head) == after.order[k..];
    RestListed(v.nodes, v.datas, after.order, after.items, list, head, k);
    CurrentIs(res, v, y, after.regs);
  }

  method BenchOnce(res: CoreResults, finderIdx: s16, stack: u16, ghost v: View, ghost x: Snap, ghost o: Outcome,
                   ghost y: Snap)
    returns (crc: u16)
    requires Current(res, v, x) && |x.order| >= 3 && o == BenchList(v.env, x, res.seed3, finderIdx, stack)
    requires y == o.after.(order := From(o.after.order, x.order[0]))
    modifies v.nodes, v.datas`data16, res`crc, res`crcmatrix, res`crcstate, Arrays(res)
    ensures Current(res, v, y)
    ensures crc == o.retval && res.crc == o.after.regs.crc
    ensures forall n :: n in v.nodes ==> n.info == old(n.info)
  {
    CurrentShows(res, v, x);
    HeadStays(v.env, x, res.seed3, finderIdx, stack);
    ghost var list;
    crc, list := CoreBenchList(res, finderIdx, stack, v, x);
    AfterBench(res, v, o.after, list, x.order[0], y);
  }

  method HalfIteration(res: CoreResults, finderIdx: s16, stack: u16, ghost v: View, ghost x: Snap, ghost z: Snap)
    requires Current(res, v, x) && |x.order| >= 3 && z == Half(v.env, x, res.seed3, finderIdx, stack)
    modifies v.nodes, v.datas`data16, res`crc, res`crcmatrix, res`crcstate, Arrays(res)
    ensures Current(res, v, z)
    ensures forall n :: n in v.nodes ==> n.info == old(n.info)
  {
    ghost var o := BenchList(v.env, x, res.seed3, finderIdx, stack);
    ghost var y := o.after.(order := From(o.after.order, x.order[0]));
    var crc := BenchOnce(res, finderIdx, stack, v, x, o, y);
    crc := Crcu16(crc, res.crc);
    StoreCrc(res, crc, v, y);
  }

  /** The state before the k-th call. */
  ghost predicate InRun(res: CoreResults, v: View, x: Snap, stack: nat -> u16, k: nat, now: Snap)
    reads res, res.memblock3, res.mat.a, res.mat.b, v.nodes, v.datas, now.order, set n | n in v.nodes :: n.info
  {
    Current(res, v, now) &&
    forall i {:trigger Look(RUN, i)} :: Look(RUN, i) ==> now == Calls(v.env, x, res.seed3, stack, k)
  }

  lemma ProceedsAt(res: CoreResults, v: View, x: Snap, stack: nat -> u16, n: nat, k: nat, now: Snap)
    requires Proceeds(v.env, x, res.seed3, stack, n) && k < n && InRun(res, v, x, stack, k, now)
    ensures |now.order| >= 3
  {
    assert Look(RUN, k);
  }

  /** The k-th call, and the crcu16 behind it. */
  method Call(res: CoreResults, finderIdx: s16, k: nat, stack: nat -> u16, ghost v: View, ghost x: Snap, ghost n: nat,
              ghost now: Snap)
    returns (ghost next: Snap)
    requires InRun(res, v, x, stack, k, now) && finderIdx == FinderIdx(k)
    requires Proceeds(v.env, x, res.seed3, stack, n) && k < n
    modifies v.nodes, v.datas`data16, res`crc, res`crcmatrix, res`crcstate, Arrays(res)
    ensures InRun(res, v, x, stack, k + 1, next)
    ensures forall n :: n in v.nodes ==> n.info == old(n.info)
  {
    ProceedsAt(res, v, x, stack, n, k, now);
    next := Half(v.env, now, res.seed3, finderIdx, stack(k));
    NextCall(res, v, x, stack, k, now, next);
    HalfIteration(res, finderIdx, stack(k), v, now, next);
  }

  lemma NextCall(res: CoreResults, v: View, x: Snap, stack: nat -> u16, k: nat, now: Snap, next: Snap)
    requires InRun(res, v, x, stack, k, now) && next == Half(v.env, now, res.seed3, FinderIdx(k), stack(k))
    ensures forall i {:trigger Look(RUN, i)} :: Look(RUN, i) ==> next == Calls(v.env, x, res.seed3, stack, k + 1)
  {
    assert Look(RUN, 0);
    CallsNext(v.env, x, res.seed3, stack, k);
  }

  method Reset(res: CoreResults, ghost v: View, ghost x: Snap)
    requires Current(res, v, x)
    modifies res`crc, res`crclist, res`crcmatrix, res`crcstate
    ensures Current(res, v, Cleared(x)) && res.crclist == 0
  {
    CurrentFacts(res, v, x);
    res.crc, res.crclist, res.crcmatrix, res.crcstate := 0, 0, 0, 0;
    CurrentIs(res, v, x, Cleared(x).regs);
  }

  /** The code reported for the list after `n` turns of the loop, the first of which stores the register. */
  function CrcListAfter(env: Env, x: Snap, findNum: s16, stack: nat -> u16, n: nat): u16 {
    if n == 0 then 0
    else if n == 1 then Calls(env, x, findNum, stack, 2).regs.crc
    else CrcListAfter(env, x, findNum, stack, n - 1)
  }

  /** The list value is that of `n` iterations. */
  ghost predicate Reported(res: CoreResults, env: Env, x: Snap, stack: nat -> u16, n: nat)
    reads res
  {
    forall i {:trigger Look(RUN, i)} :: Look(RUN, i) ==>
      res.crclist == CrcListAfter(env, x, res.seed3, stack, n)
  }

  lemma ReportedNext(res: CoreResults, v: View, x: Snap, stack: nat -> u16, i: nat, now: Snap)
    requires InRun(res, v, x, stack, 2 * i + 2, now)
    ensures i == 0 ==> CrcListAfter(v.env, x, res.seed3, stack, i + 1) == now.regs.crc
    ensures i > 0 ==> CrcListAfter(v.env, x, res.seed3, stack, i + 1) == CrcListAfter(v.env, x, res.seed3, stack, i)
  {
    assert Look(RUN, 0);
  }

  /** if (i == 0) res->crclist = res->crc */
  method StoreCrclist(res: CoreResults, i: nat, ghost v: View, ghost x: Snap, ghost stack: nat -> u16, ghost now: Snap)
    requires InRun(res, v, x, stack, 2 * i + 2, now) && Reported(res, v.env, x, stack, i)
    modifies res`crclist
    ensures Current(res, v, now) && Reported(res, v.env, x, stack, i + 1)
  {
    CurrentFacts(res, v, now);
    ReportedNext(res, v, x, stack, i, now);
    if i == 0 {
      res.crclist := res.crc;
    }
    CurrentIs(res, v, now, now.regs);
  }

  lemma InTurn(i: nat)
    ensures FinderIdx(2 * i) == 1 && FinderIdx(2 * i + 1) == -1
  {
  }

  /** Two calls. */
  method TwoCalls(res: CoreResults, i: nat, stack: nat -> u16, ghost v: View, ghost x: Snap, ghost now: Snap)
    returns (ghost next: Snap)
    requires InRun(res, v, x, stack, 2 * i, now) && Proceeds(v.env, x, res.seed3, stack, 2 * i + 2)
    modifies v.nodes, v.datas`data16, res`crc, res`crcmatrix, res`crcstate, Arrays(res)
    ensures InRun(res, v, x, stack, 2 * i + 1 + 1, next)
    ensures forall n :: n in v.nodes ==> n.info == old(n.info)
  {
    InTurn(i);
    ghost var mid := Call(res, 1, 2 * i, stack, v, x, 2 * i + 2, now);
    next := Call(res, -1, 2 * i + 1, stack, v, x, 2 * i + 2, mid);
  }

  method OneIteration(res: CoreResults, i: nat, stack: nat -> u16, ghost v: View, ghost x: Snap, ghost now: Snap)
    returns (ghost next: Snap)
    requires InRun(res, v, x, stack, 2 * i, now) && Reported(res, v.env, x, stack, i)
    requires Proceeds(v.env, x, res.seed3, stack, 2 * i + 2)
    modifies v.nodes, v.datas`data16, res`crc, res`crclist, res`crcmatrix, res`crcstate, Arrays(res)
    ensures InRun(res, v, x, stack, 2 * i + 2, next) && Reported(res, v.env, x, stack, i + 1)
    ensures forall n :: n in v.nodes ==> n.info == old(n.info)
  {
    next := TwoCalls(res, i, stack, v, x, now);
    StoreCrclist(res, i, v, x, stack, next);
  }

  /** iterate, for any seeds and any list on which the calls find three nodes: the run goes through the
      states that `Calls` describes. */
  method Iterate(res: CoreResults, stack: nat -> u16, ghost v: View, ghost x: Snap)
    requires Current(res, v, x) && Proceeds(v.env, Cleared(x), res.seed3, stack, 2 * res.iterations)
    modifies v.nodes, v.datas`data16, res`crc, res`crclist, res`crcmatrix, res`crcstate, Arrays(res)
    ensures Current(res, v, Calls(v.env, Cleared(x), res.seed3, stack, 2 * res.iterations))
    ensures res.crclist == CrcListAfter(v.env, Cleared(x), res.seed3, stack, res.iterations)
    ensures forall n :: n in v.nodes ==> n.info == old(n.info)
  {
    var iterations := res.iterations;
    ghost var x0 := Cleared(x);
    ghost var now := x0;
    Reset(res, v, x);
    for i := 0 to iterations
      invariant InRun(res, v, x0, stack, 2 * i, now) && Reported(res, v.env, x0, stack, i)
      invariant forall n :: n in v.nodes ==> n.info == old(n.info)
    {
      ProceedsLess(v.env, x0, res.seed3, stack, 2 * iterations, 2 * i + 2);
      now := OneIteration(res, i, stack, v, x0, now);
    }
    assert Look(RUN, 0);
  }

  lemma ProceedsLess(env: Env, x: Snap, findNum: s16, stack: nat -> u16, n: nat, m: nat)
    requires Proceeds(env, x, findNum, stack, n) && m <= n
    ensures Proceeds(env, x, findNum, stack, m)
  {
  }
}
