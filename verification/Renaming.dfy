/** Why the values that a run reports are the same wherever its list nodes lie in memory: everything the
    run computes commutes with renaming the nodes. */
module Renaming {
  import opened Words
  import opened Records
  import opened Items
  import opened Sorting
  import opened SortProof
  import opened Results
  import opened ListOps
  import opened ListBench
  import opened ListIndex
  import opened ListInit
  import opened Restore
  import opened CoreMark
  import opened Chains

  // ---------- Renaming ----------

  ghost predicate Injective<N, M>(f: map<N, M>) {
    forall x, y :: x in f && y in f && x != y ==> f[x] != f[y]
  }

  /** `t` is `s` with its nodes renamed. */
  ghost predicate Matched<N, M>(f: map<N, M>, s: seq<N>, t: seq<M>) {
    |s| == |t| && forall k {:trigger Look(NODES, k)} :: Look(NODES, k) ==>
      forall i :: 0 <= i < |s| ==> s[i] in f && t[i] == f[s[i]]
  }

  /** Renamed nodes have the same records. */
  ghost predicate SameItems<N, M>(f: map<N, M>, items: map<N, Item>, items': map<M, Item>) {
    forall k {:trigger Look(NODES, k)} :: Look(NODES, k) ==>
      Injective(f) && forall x :: x in f ==> x in items && f[x] in items' && items'[f[x]] == items[x]
  }

  ghost predicate Alike<N, M>(f: map<N, M>, st: State<N>, st': State<M>) {
    SameItems(f, st.items, st'.items) && st.regs == st'.regs && st.cmps == st'.cmps
  }

  lemma MatchedHead<N, M>(f: map<N, M>, s: seq<N>, t: seq<M>)
    requires Matched(f, s, t) && s != []
    ensures s[0] in f && t[0] == f[s[0]] && Matched(f, s[1..], t[1..])
  {
    assert Look(NODES, 0);
  }

  lemma MatchedCons<N, M>(f: map<N, M>, x: N, s: seq<N>, t: seq<M>)
    requires Matched(f, s, t) && x in f
    ensures Matched(f, [x] + s, [f[x]] + t)
  {
    assert Look(NODES, 0);
  }

  lemma MatchedParts<N, M>(f: map<N, M>, s: seq<N>, t: seq<M>, k: nat, m: nat)
    requires Matched(f, s, t) && k <= m <= |s|
    ensures Matched(f, s[k..m], t[k..m])
  {
    assert Look(NODES, 0);
  }

  lemma MatchedJoin<N, M>(f: map<N, M>, a: seq<N>, b: seq<M>, s: seq<N>, t: seq<M>)
    requires Matched(f, a, b) && Matched(f, s, t)
    ensures Matched(f, a + s, b + t)
  {
    assert Look(NODES, 0);
  }

  lemma KeyAlike<N, M>(f: map<N, M>, cmp: Comparator, x: N, items: map<N, Item>, items': map<M, Item>)
    requires SameItems(f, items, items') && x in f
    ensures KeyOf(cmp, x, items) == KeyOf(cmp, f[x], items')
  {
    assert Look(NODES, 0);
  }

  // ---------- Sorting ----------

  lemma CompareAlike<N, M>(f: map<N, M>, cmp: Comparator, p: N, q: N, st: State<N>, st': State<M>)
    requires Alike(f, st, st') && p in f && q in f
    ensures Alike(f, Compare(cmp, p, q, st), Compare(cmp, f[p], f[q], st'))
  {
    assert Look(NODES, 0);
  }

  lemma {:induction false} MergeAlike<N, M>(f: map<N, M>, cmp: Comparator, p: seq<N>, q: seq<N>, p': seq<M>, q': seq<M>,
                                            st: State<N>, st': State<M>)
    requires Alike(f, st, st') && Matched(f, p, p') && Matched(f, q, q')
    ensures var r, r' := Merge(cmp, p, q, st), Merge(cmp, p', q', st');
            Matched(f, r.order, r'.order) && Alike(f, r.st, r'.st)
    decreases |p| + |q|
  {
    if p != [] && q != [] {
      var mid, mid' := Compare(cmp, p[0], q[0], st), Compare(cmp, p'[0], q'[0], st');
      MatchedHead(f, p, p');
      MatchedHead(f, q, q');
      CompareAlike(f, cmp, p[0], q[0], st, st');
      KeyAlike(f, cmp, p[0], mid.items, mid'.items);
      KeyAlike(f, cmp, q[0], mid.items, mid'.items);
      if KeyOf(cmp, p[0], mid.items) <= KeyOf(cmp, q[0], mid.items) {
        MergeAlike(f, cmp, p[1..], q, p'[1..], q', mid, mid');
        MatchedCons(f, p[0], Merge(cmp, p[1..], q, mid).order, Merge(cmp, p'[1..], q', mid').order);
      } else {
        MergeAlike(f, cmp, p, q[1..], p', q'[1..], mid, mid');
        MatchedCons(f, q[0], Merge(cmp, p, q[1..], mid).order, Merge(cmp, p', q'[1..], mid').order);
      }
    }
  }

  lemma {:induction false} PassAlike<N, M>(f: map<N, M>, cmp: Comparator, s: seq<N>, t: seq<M>, w: nat,
                                           st: State<N>, st': State<M>)
    requires w > 0 && Alike(f, st, st') && Matched(f, s, t)
    ensures var r, r' := Pass(cmp, s, w, st), Pass(cmp, t, w, st');
            Matched(f, r.order, r'.order) && Alike(f, r.st, r'.st)
    decreases |s|
  {
    if s != [] {
      var k, m := Min(w, |s|), Min(2 * w, |s|);
      var merged, merged' := Merge(cmp, s[..k], s[k..m], st), Merge(cmp, t[..k], t[k..m], st');
      MatchedParts(f, s, t, 0, k);
      MatchedParts(f, s, t, k, m);
      MatchedParts(f, s, t, m, |s|);
      MergeAlike(f, cmp, s[..k], s[k..m], t[..k], t[k..m], st, st');
      PassAlike(f, cmp, s[m..], t[m..], w, merged.st, merged'.st);
      MatchedJoin(f, merged.order, merged'.order, Pass(cmp, s[m..], w, merged.st).order,
                  Pass(cmp, t[m..], w, merged'.st).order);
    }
  }

  lemma {:induction false} SortAlike<N, M>(f: map<N, M>, cmp: Comparator, s: seq<N>, t: seq<M>, w: nat,
                                           st: State<N>, st': State<M>)
    requires w > 0 && Alike(f, st, st') && Matched(f, s, t)
    ensures var r, r' := Sort(cmp, s, w, st), Sort(cmp, t, w, st');
            Matched(f, r.order, r'.order) && Alike(f, r.st, r'.st)
    decreases |s| - w
  {
    PassAlike(f, cmp, s, t, w, st, st');
    if |s| > 2 * w {
      var pass, pass' := Pass(cmp, s, w, st), Pass(cmp, t, w, st');
      SortAlike(f, cmp, pass.order, pass'.order, 2 * w, pass.st, pass'.st);
    }
  }

  // ---------- Searching ----------

  lemma ItemAlike(f: map<ListHead, ListHead>, items: map<ListHead, Item>, items': map<ListHead, Item>, x: ListHead)
    requires SameItems(f, items, items') && x in f
    ensures ItemAt(items, x) == ItemAt(items', f[x])
  {
    assert Look(NODES, 0);
  }

  lemma DataAlike(f: map<ListHead, ListHead>, items: map<ListHead, Item>, items': map<ListHead, Item>,
                  s: seq<ListHead>, t: seq<ListHead>, i: nat)
    requires SameItems(f, items, items') && Matched(f, s, t)
    ensures DataAt(items, s, i) == DataAt(items', t, i)
  {
    assert Look(NODES, 0);
  }

  lemma {:induction false} FindAlike(f: map<ListHead, ListHead>, items: map<ListHead, Item>, items': map<ListHead,
                                     Item>,
                                     s: seq<ListHead>, t: seq<ListHead>, idx: s16, data: u16)
    requires SameItems(f, items, items') && Matched(f, s, t)
    ensures FindIndex(items, s, idx, data) == FindIndex(items', t, idx, data)
  {
    if s != [] {
      MatchedHead(f, s, t);
      ItemAlike(f, items, items', s[0]);
      FindAlike(f, items, items', s[1..], t[1..], idx, data);
    }
  }

  lemma OrderAlike(f: map<ListHead, ListHead>, s: seq<ListHead>, t: seq<ListHead>, k: nat)
    requires Matched(f, s, t) && k <= |s|
    ensures Matched(f, Reversed(s), Reversed(t))
    ensures Matched(f, OrderAfter(s, k), OrderAfter(t, k))
  {
    assert Look(NODES, 0);
    if 0 < k < |s| {
      MoveAlike(f, Reversed(s), Reversed(t), |s| - k);
    }
  }

  lemma MoveAlike(f: map<ListHead, ListHead>, s: seq<ListHead>, t: seq<ListHead>, j: nat)
    requires Matched(f, s, t) && 1 <= j < |s|
    ensures Matched(f, MoveToFront(s, j), MoveToFront(t, j))
  {
    MatchedParts(f, s, t, 0, 1);
    MatchedParts(f, s, t, j, j + 1);
    MatchedParts(f, s, t, 1, j);
    MatchedParts(f, s, t, j + 1, |s|);
    MatchedJoin(f, s[..1], t[..1], s[j..j + 1], t[j..j + 1]);
    assert [s[0], s[j]] == s[..1] + s[j..j + 1] && [t[0], t[j]] == t[..1] + t[j..j + 1];
    MatchedJoin(f, [s[0], s[j]], [t[0], t[j]], s[1..j], t[1..j]);
    MatchedJoin(f, [s[0], s[j]] + s[1..j], [t[0], t[j]] + t[1..j], s[j + 1..], t[j + 1..]);
  }

  ghost predicate SearchAlike(f: map<ListHead, ListHead>, x: Search, y: Search) {
    Matched(f, x.order, y.order) && y == x.(order := y.order)
  }

  lemma StepAlike(f: map<ListHead, ListHead>, items: map<ListHead, Item>, items': map<ListHead, Item>, data: u16,
                  x: Search, y: Search)
    requires SameItems(f, items, items') && SearchAlike(f, x, y)
    ensures SearchAlike(f, SearchStep(items, data, x), SearchStep(items', data, y))
  {
    var k := FindIndex(items, x.order, x.idx, data);
    FindAlike(f, items, items', x.order, y.order, x.idx, data);
    OrderAlike(f, x.order, y.order, k);
    DataAlike(f, items, items', Reversed(x.order), Reversed(y.order), 1);
    DataAlike(f, items, items', x.order, y.order, k);
  }

  lemma SearchAllAlike(f: map<ListHead, ListHead>, items: map<ListHead, Item>, items': map<ListHead, Item>, n: nat,
                       x: Search, y: Search)
    requires SameItems(f, items, items') && SearchAlike(f, x, y)
    ensures SearchAlike(f, SearchAll(items, n, x), SearchAll(items', n, y))
  {
    var holds := (i: nat) => SearchAlike(f, SearchAll(items, i, x), SearchAll(items', i, y));
    forall i: nat | Look(RUN, i) && holds(i)
      ensures holds(i + 1)
    {
      SearchNext(items, i, x);
      SearchNext(items', i, y);
      StepAlike(f, items, items', LowByte(i), SearchAll(items, i, x), SearchAll(items', i, y));
    }
    Along(holds, n);
  }

  // ---------- The benchmark ----------

  lemma CodedAlike(f: map<ListHead, ListHead>, a: Out<ListHead>, b: Out<ListHead>, idx: s16, data: u16, retval: u16)
    requires Alike(f, a.st, b.st) && Matched(f, a.order, b.order)
    ensures CodedValue(a, idx, data, retval) == CodedValue(b, idx, data, retval)
  {
    var s, t := a.order, b.order;
    if |s| >= 3 {
      assert Look(NODES, 0);
      var items, items' := Exchanged(a.st.items, s[1], s[2]), Exchanged(b.st.items, t[1], t[2]);
      FindAlike(f, items, items', Removed(s), Removed(t), idx, data);
    }
  }

  lemma SortedByDataAlike(f: map<ListHead, ListHead>, env: Env, regs: Regs, s: seq<ListHead>, t: seq<ListHead>,
                          items: map<ListHead, Item>, items': map<ListHead, Item>, finderIdx: s16)
    requires SameItems(f, items, items') && Matched(f, s, t)
    ensures var a, b := SortedByData(env, regs, s, items, finderIdx), SortedByData(env, regs, t, items', finderIdx);
            Alike(f, a.st, b.st) && Matched(f, a.order, b.order)
  {
    SortAlike(f, CmpComplex(env), s, t, 1, State(items, regs, 0), State(items', regs, 0));
  }

  lemma SortedByIdxAlike(f: map<ListHead, ListHead>, a: Out<ListHead>, b: Out<ListHead>)
    requires Alike(f, a.st, b.st) && Matched(f, a.order, b.order)
    ensures Alike(f, SortedByIdx(a).st, SortedByIdx(b).st) && Matched(f, SortedByIdx(a).order, SortedByIdx(b).order)
  {
    SortAlike(f, CmpIdx(), a.order, b.order, 1, State(a.st.items, NO_REGS, 0), State(b.st.items, NO_REGS, 0));
  }

  lemma FinalAlike(f: map<ListHead, ListHead>, a: Out<ListHead>, b: Out<ListHead>, retval: u16)
    requires Alike(f, a.st, b.st) && Matched(f, a.order, b.order)
    ensures FinalValue(a, retval) == FinalValue(b, retval)
  {
    DataAlike(f, a.st.items, b.st.items, a.order, b.order, 0);
  }

  ghost predicate SnapAlike(f: map<ListHead, ListHead>, x: Snap, y: Snap) {
    SameItems(f, x.items, y.items) && Matched(f, x.order, y.order) && x.regs == y.regs
  }

  lemma SearchesAlike(f: map<ListHead, ListHead>, x: Snap, y: Snap, findNum: s16, finderIdx: s16)
    requires SnapAlike(f, x, y)
    ensures SearchAlike(f, Searches(x, findNum, finderIdx), Searches(y, findNum, finderIdx))
  {
    SearchAllAlike(f, x.items, y.items, Count(findNum), SearchStart(x.order, finderIdx),
                   SearchStart(y.order, finderIdx));
  }

  lemma LastSortAlike(f: map<ListHead, ListHead>, env: Env, x: Snap, y: Snap, findNum: s16, finderIdx: s16)
    requires SnapAlike(f, x, y)
    ensures var a, b := BeforeLastSort(env, x, findNum, finderIdx), BeforeLastSort(env, y, findNum, finderIdx);
            Alike(f, a.st, b.st) && Matched(f, a.order, b.order)
  {
    SearchesAlike(f, x, y, findNum, finderIdx);
    SortedByDataAlike(f, env, x.regs, Searches(x, findNum, finderIdx).order, Searches(y, findNum, finderIdx).order,
                      x.items, y.items, finderIdx);
  }

  /** core_bench_list on renamed nodes returns the same value and leaves the same list, renamed. */
  lemma BenchAlike(f: map<ListHead, ListHead>, env: Env, x: Snap, y: Snap, findNum: s16, finderIdx: s16, stack: u16)
    requires SnapAlike(f, x, y)
    ensures var o, o' := BenchList(env, x, findNum, finderIdx, stack), BenchList(env, y, findNum, finderIdx, stack);
            o.retval == o'.retval && SnapAlike(f, o.after, o'.after)
  {
    var a, b := BeforeLastSort(env, x, findNum, finderIdx), BeforeLastSort(env, y, findNum, finderIdx);
    var z := Searches(x, findNum, finderIdx);
    SearchesAlike(f, x, y, findNum, finderIdx);
    LastSortAlike(f, env, x, y, findNum, finderIdx);
    var coded := SearchValue(z.retval, z.found, z.missed);
    CodedAlike(f, a, b, z.idx, LastData(Count(findNum), stack), coded);
    SortedByIdxAlike(f, a, b);
    FinalAlike(f, SortedByIdx(a), SortedByIdx(b), CodedValue(a, z.idx, LastData(Count(findNum), stack), coded));
  }

  lemma {:induction false} FromAlike(f: map<ListHead, ListHead>, s: seq<ListHead>, t: seq<ListHead>, head: ListHead)
    requires Matched(f, s, t) && Injective(f) && head in f
    ensures Matched(f, From(s, head), From(t, f[head]))
  {
    if s != [] {
      MatchedHead(f, s, t);
      if s[0] != head {
        FromAlike(f, s[1..], t[1..], head);
      }
    }
  }

  lemma HalfAlike(f: map<ListHead, ListHead>, env: Env, x: Snap, y: Snap, x': Snap, y': Snap, findNum: s16,
                  finderIdx: s16, stack: u16)
    requires SnapAlike(f, x, y) && Injective(f)
    requires x' == Half(env, x, findNum, finderIdx, stack) && y' == Half(env, y, findNum, finderIdx, stack)
    ensures SnapAlike(f, x', y')
  {
    if x.order != [] {
      BenchAlike(f, env, x, y, findNum, finderIdx, stack);
      MatchedHead(f, x.order, y.order);
      FromAlike(f, BenchList(env, x, findNum, finderIdx, stack).after.order,
                BenchList(env, y, findNum, finderIdx, stack).after.order, x.order[0]);
    }
  }

  lemma CallAlike(f: map<ListHead, ListHead>, env: Env, x: Snap, y: Snap, findNum: s16, stack: nat -> u16, k: nat)
    requires SnapAlike(f, Calls(env, x, findNum, stack, k), Calls(env, y, findNum, stack, k)) && Injective(f)
    ensures SnapAlike(f, Calls(env, x, findNum, stack, k + 1), Calls(env, y, findNum, stack, k + 1))
  {
    CallsNext(env, x, findNum, stack, k);
    CallsNext(env, y, findNum, stack, k);
    HalfAlike(f, env, Calls(env, x, findNum, stack, k), Calls(env, y, findNum, stack, k),
              Calls(env, x, findNum, stack, k + 1), Calls(env, y, findNum, stack, k + 1), findNum, FinderIdx(k),
              stack(k));
  }

  /** Runs on lists that differ in their nodes only go through the same states, renamed. */
  lemma RunAlike(f: map<ListHead, ListHead>, env: Env, x: Snap, y: Snap, findNum: s16, stack: nat -> u16, n: nat)
    requires SnapAlike(f, x, y) && Injective(f)
    ensures SnapAlike(f, Calls(env, x, findNum, stack, n), Calls(env, y, findNum, stack, n))
  {
    var holds := (k: nat) => SnapAlike(f, Calls(env, x, findNum, stack, k), Calls(env, y, findNum, stack, k));
    forall k: nat | Look(RUN, k) && holds(k)
      ensures holds(k + 1)
    {
      CallAlike(f, env, x, y, findNum, stack, k);
    }
    Along(holds, n);
  }

  // ---------- The initial list ----------

  /** The order of the initial list is determined, even where idx values are equal. */
  lemma InitialOrderIs(heads: seq<ListHead>, seed: s16, s: seq<ListHead>, items: map<ListHead, Item>)
    requires |heads| >= 3 && NoRepeats(heads)
    requires InitialRecords(heads, seed, items) && InitialOrder(heads, s, items)
    ensures s == Sort(CmpIdx(), Inserted(heads), 1, State(items, NO_REGS, 0)).order
  {
    var out := Sort(CmpIdx(), Inserted(heads), 1, State(items, NO_REGS, 0));
    InitialSort(heads, seed, items);
    forall k
      ensures Filter(CmpIdx(), s, items, k) == Filter(CmpIdx(), out.order, items, k)
    {
      assert Filter(CmpIdx(), s, items, k) == Filter(CmpIdx(), Inserted(heads), items, k);
    }
    StableUnique(CmpIdx(), s, out.order, items);
  }

  /** Nodes at the same position correspond. */
  ghost function Correspondence(t: seq<ListHead>, t': seq<ListHead>): (f: map<ListHead, ListHead>)
    requires NoRepeats(t) && NoRepeats(t') && |t| == |t'|
    ensures Matched(f, t, t') && Injective(f)
    ensures forall x :: x in f ==> x in t
  {
    map i | 0 <= i < |t| :: t[i] := t'[i]
  }

  lemma InitialItemsSame(heads: seq<ListHead>, heads': seq<ListHead>, seed: s16, items: map<ListHead, Item>,
                         items': map<ListHead, Item>, f: map<ListHead, ListHead>)
    requires |heads| == |heads'| >= 3 && NoRepeats(heads) && NoRepeats(heads')
    requires InitialRecords(heads, seed, items) && InitialRecords(heads', seed, items')
    requires Matched(f, Inserted(heads), Inserted(heads')) && Injective(f)
    requires forall x :: x in f ==> x in Inserted(heads)
    ensures SameItems(f, items, items')
  {
    var t, t' := Inserted(heads), Inserted(heads');
    assert Look(NODES, 0);
    forall x | x in f
      ensures x in items && f[x] in items' && items'[f[x]] == items[x]
    {
      var p: nat :| p < |t| && t[p] == x;
      assert t[p] in t && t'[p] in t';
      assert items[t[p]] == InitialItem(|heads|, seed, p);
      assert items'[t'[p]] == InitialItem(|heads'|, seed, p);
    }
  }

  /** Two runs on blocks of the same size with the same seeds have the same registers and the same text
      after any number of calls, wherever their list nodes are. */
  lemma Reproducible(heads: seq<ListHead>, heads': seq<ListHead>, seed: s16, x: Snap, x': Snap, env: Env, findNum: s16,
                     stack: nat -> u16, n: nat)
    requires |heads| == |heads'| >= 3 && NoRepeats(heads) && NoRepeats(heads') && x.regs == x'.regs
    requires InitialRecords(heads, seed, x.items) && InitialOrder(heads, x.order, x.items)
    requires InitialRecords(heads', seed, x'.items) && InitialOrder(heads', x'.order, x'.items)
    ensures Calls(env, x, findNum, stack, n).regs == Calls(env, x', findNum, stack, n).regs
  {
    InsertedFacts(heads);
    InsertedFacts(heads');
    var t, t' := Inserted(heads), Inserted(heads');
    var f := Correspondence(t, t');
    InitialItemsSame(heads, heads', seed, x.items, x'.items, f);
    InitialOrderIs(heads, seed, x.order, x.items);
    InitialOrderIs(heads', seed, x'.order, x'.items);
    SortAlike(f, CmpIdx(), t, t', 1, State(x.items, NO_REGS, 0), State(x'.items, NO_REGS, 0));
    RunAlike(f, env, x, x', findNum, stack, n);
  }
}
