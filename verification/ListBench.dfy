/** core_bench_list of core_list_join.c: search, sort by data, remove an element and put it back, and
    sort by index. */
module ListBench {
  import opened Words
  import opened Crc
  import opened Records
  import opened Items
  import opened Sorting
  import opened SortProof
  import opened Results
  import opened LinkedList
  import opened MergeSort
  import opened ListOps

  // ---------- The searches ----------

  function LowByte(i: nat): u16 {
    i % 0x100
  }

  datatype Search = Search(order: seq<ListHead>, idx: s16, retval: u16, found: u16, missed: u16)

  function NextIdx(idx: s16): s16 {
    if idx >= 0 then ToS16(idx + 1) else idx
  }

  /** Unsigned short addition. */
  function Plus(x: u16, y: nat): u16 {
    ToU16(x + y)
  }

  function DataAt(items: map<ListHead, Item>, s: seq<ListHead>, i: nat): u16 {
    if i < |s| then ItemAt(items, s[i]).data16 else 0
  }

  /** The order after a search that found position `k` (none if `k` is the length). */
  function OrderAfter<N>(s: seq<N>, k: nat): (r: seq<N>)
    requires k <= |s|
    ensures |r| == |s|
  {
    if 0 < k < |s| then MoveToFront(Reversed(s), |s| - k) else Reversed(s)
  }

  function MissValue(items: map<ListHead, Item>, r: seq<ListHead>, retval: u16): u16 {
    Plus(retval, DataAt(items, r, 1) / 0x100 % 2)
  }

  function HitValue(data: u16, retval: u16): u16 {
    if data % 2 == 1 then Plus(retval, data / 0x200 % 2) else retval
  }

  /** One search: reverse the list, and bring the element after the one found to the front. */
  function SearchStep(items: map<ListHead, Item>, data: u16, x: Search): (y: Search)
    ensures multiset(y.order) == multiset(x.order) && |y.order| == |x.order|
  {
    var k := FindIndex(items, x.order, x.idx, data);
    OrderAfterPermutes(x.order, k);
    if k == |x.order| then
      Search(OrderAfter(x.order, k), NextIdx(x.idx), MissValue(items, Reversed(x.order), x.retval),
             x.found, Plus(x.missed, 1))
    else
      Search(OrderAfter(x.order, k), NextIdx(x.idx), HitValue(DataAt(items, x.order, k), x.retval),
             Plus(x.found, 1), x.missed)
  }

  /** However many searches there are, they only rearrange the list. */
  function SearchAll(items: map<ListHead, Item>, n: nat, x: Search): (y: Search)
    ensures multiset(y.order) == multiset(x.order) && |y.order| == |x.order|
  {
    if n == 0 then x else SearchStep(items, LowByte(n - 1), SearchAll(items, n - 1, x))
  }

  lemma SearchNext(items: map<ListHead, Item>, i: nat, x: Search)
    ensures SearchAll(items, i + 1, x) == SearchStep(items, LowByte(i), SearchAll(items, i, x))
  {
  }

  lemma OrderAfterPermutes<N>(s: seq<N>, k: nat)
    requires k <= |s|
    ensures multiset(OrderAfter(s, k)) == multiset(s)
  {
    ReversedPermutes(s);
    if 0 < k < |s| {
      MoveToFrontPermutes(Reversed(s), |s| - k);
    }
  }

  method Miss(list: ListHead, retval: u16, ghost nodes: set<ListHead>, ghost datas: set<ListData>,
              ghost r: seq<ListHead>, ghost items: map<ListHead, Item>) returns (retval': u16)
    requires Listed(nodes, datas, r, items, list) && |r| >= 2
    ensures retval' == MissValue(items, r, retval)
  {
    assert r[0] in r && r[1] in r;
    retval' := Plus(retval, list.next.info.data16 / 0x100 % 2);
  }

  method Hit(list: ListHead, thisFind: ListHead, retval: u16, ghost nodes: set<ListHead>, ghost datas: set<ListData>,
             ghost s: seq<ListHead>, ghost k: nat, ghost items: map<ListHead, Item>) returns (retval': u16)
    requires Listed(nodes, datas, Reversed(s), items, list) && k < |s| && thisFind == s[k]
    modifies nodes`next
    ensures retval' == HitValue(DataAt(items, s, k), retval)
    ensures Listed(nodes, datas, OrderAfter(s, k), items, list)
  {
    ghost var r := Reversed(s);
    assert thisFind == r[|r| - 1 - k] && thisFind in r;
    assert k > 0 ==> thisFind.next == r[|r| - k];
    retval' := retval;
    if thisFind.info.data16 % 2 == 1 {
      retval' := Plus(retval, thisFind.info.data16 / 0x200 % 2);
    }
    if thisFind.next != null {
      assert k > 0;
      MoveNext(list, thisFind, nodes, datas, r, items, |r| - k);
    }
  }

  lemma SearchStepIs(items: map<ListHead, Item>, data: u16, x: Search, k: nat, retval: u16, found: u16, missed: u16)
    requires k == FindIndex(items, x.order, x.idx, data)
    requires if k == |x.order|
             then retval == MissValue(items, Reversed(x.order), x.retval) && found == x.found &&
                  missed == Plus(x.missed, 1)
             else retval == HitValue(DataAt(items, x.order, k), x.retval) && found == Plus(x.found, 1) &&
                  missed == x.missed
    ensures SearchStep(items, data, x) == Search(OrderAfter(x.order, k), NextIdx(x.idx), retval, found, missed)
  {
  }

  /** The loop's variables hold what `x` says. */
  ghost predicate InSearch(nodes: set<ListHead>, datas: set<ListData>, items: map<ListHead, Item>, x: Search,
                           list: ListHead, idx: s16, retval: u16, found: u16, missed: u16)
    reads nodes, datas, x.order, set n | n in nodes :: n.info
  {
    forall k {:trigger Look(HEAP, k)} :: Look(HEAP, k) ==>
      Listed(nodes, datas, x.order, items, list) && |x.order| >= 2 && x == Search(x.order, idx, retval, found, missed)
  }

  /** Count a miss, or count a hit and bring the element behind it to the front. */
  method Score(list: ListHead, thisFind: ListHead?, retval0: u16, found0: u16, missed0: u16,
               ghost nodes: set<ListHead>, ghost datas: set<ListData>, ghost s: seq<ListHead>, ghost k: nat,
               ghost items: map<ListHead, Item>)
    returns (retval: u16, found: u16, missed: u16)
    requires Listed(nodes, datas, Reversed(s), items, list) && |s| >= 2
    requires k <= |s| && thisFind == At(s, k)
    modifies nodes`next
    ensures Listed(nodes, datas, OrderAfter(s, k), items, list)
    ensures if k == |s|
            then retval == MissValue(items, Reversed(s), retval0) && found == found0 && missed == Plus(missed0, 1)
            else retval == HitValue(DataAt(items, s, k), retval0) && found == Plus(found0, 1) && missed == missed0
  {
    found, missed := found0, missed0;
    if thisFind == null {
      missed := Plus(missed, 1);
      retval := Miss(list, retval0, nodes, datas, Reversed(s), items);
    } else {
      found := Plus(found, 1);
      retval := Hit(list, thisFind, retval0, nodes, datas, s, k, items);
    }
  }

  method SearchOnce(list0: ListHead, data: u16, idx: s16, retval0: u16, found0: u16, missed0: u16,
                    ghost nodes: set<ListHead>, ghost datas: set<ListData>, ghost items: map<ListHead, Item>,
                    ghost x: Search)
    returns (list: ListHead, idx': s16, retval: u16, found: u16, missed: u16, ghost y: Search)
    requires InSearch(nodes, datas, items, x, list0, idx, retval0, found0, missed0)
    modifies nodes`next
    ensures y == SearchStep(items, data, x) && InSearch(nodes, datas, items, y, list, idx', retval, found, missed)
  {
    assert Look(HEAP, 0);
    ghost var s := x.order;
    ghost var k := FindIndex(items, s, idx, data);
    var thisFind := CoreListFind(list0, idx, data, nodes, datas, s, items);
    var reversed := CoreListReverse(list0, nodes, datas, s, items);
    list := reversed;
    retval, found, missed := Score(list, thisFind, retval0, found0, missed0, nodes, datas, s, k, items);
    idx' := idx;
    if idx' >= 0 {
      idx' := ToS16(idx' + 1);
    }
    assert idx' == NextIdx(idx);
    SearchStepIs(items, data, x, k, retval, found, missed);
    y := Search(OrderAfter(s, k), idx', retval, found, missed);
  }

  /** The state before the first search. */
  function SearchStart(s: seq<ListHead>, idx: s16): Search {
    Search(s, idx, 0, 0, 0)
  }

  function Count(findNum: s16): nat {
    if findNum < 0 then 0 else findNum
  }

  /** info.data16 after the searches; before the first it is whatever was on the stack. */
  function LastData(n: nat, initial: u16): u16 {
    if n == 0 then initial else LowByte(n - 1)
  }

  /** `x` is the state after `n` searches. */
  ghost predicate Searched(items: map<ListHead, Item>, n: nat, start: Search, x: Search) {
    forall k {:trigger Look(MERGE, k)} :: Look(MERGE, k) ==> x == SearchAll(items, n, start)
  }

  lemma SearchedStep(items: map<ListHead, Item>, n: nat, start: Search, x: Search)
    requires Searched(items, n, start, x)
    ensures Searched(items, n + 1, start, SearchStep(items, LowByte(n), x))
  {
    assert Look(MERGE, 0);
  }

  /** retval += found * 4 - missed */
  function SearchValue(retval: u16, found: u16, missed: u16): u16 {
    ToU16(retval + found * 4 - missed)
  }

  lemma SearchBegins(nodes: set<ListHead>, datas: set<ListData>, s: seq<ListHead>, items: map<ListHead, Item>,
                     list: ListHead, idx: s16)
    requires Listed(nodes, datas, s, items, list) && |s| >= 2
    ensures InSearch(nodes, datas, items, SearchStart(s, idx), list, idx, 0, 0, 0)
    ensures Searched(items, 0, SearchStart(s, idx), SearchStart(s, idx))
  {
  }

  method SearchLoop(list0: ListHead, findNum: s16, finderIdx: s16, stack: u16,
                    ghost nodes: set<ListHead>, ghost datas: set<ListData>, ghost start: Search,
                    ghost items: map<ListHead, Item>)
    returns (list: ListHead, idx: s16, data: u16, retval: u16, found: u16, missed: u16, ghost x: Search)
    requires InSearch(nodes, datas, items, start, list0, finderIdx, 0, 0, 0) && Searched(items, 0, start, start)
    modifies nodes`next
    ensures InSearch(nodes, datas, items, x, list, idx, retval, found, missed)
    ensures Searched(items, Count(findNum), start, x) && data == LastData(Count(findNum), stack)
  {
    var i: nat := 0;
    list, idx, data, retval, found, missed, x := list0, finderIdx, stack, 0, 0, 0, start;
    while i < findNum
      invariant i <= Count(findNum)
      invariant Searched(items, i, start, x)
      invariant InSearch(nodes, datas, items, x, list, idx, retval, found, missed)
      invariant data == LastData(i, stack)
    {
      data := LowByte(i);
      SearchedStep(items, i, start, x);
      list, idx, retval, found, missed, x := SearchOnce(list, data, idx, retval, found, missed, nodes, datas, items, x);
      i := i + 1;
    }
    assert i == Count(findNum);
  }

  /** All searches, and the value they contribute. */
  method SearchPhase(list0: ListHead, findNum: s16, finderIdx: s16, stack: u16,
                     ghost nodes: set<ListHead>, ghost datas: set<ListData>, ghost s: seq<ListHead>,
                     ghost items: map<ListHead, Item>)
    returns (list: ListHead, idx: s16, data: u16, retval: u16, ghost x: Search)
    requires Listed(nodes, datas, s, items, list0) && |s| >= 2
    modifies nodes`next
    ensures x == SearchAll(items, Count(findNum), SearchStart(s, finderIdx))
    ensures Listed(nodes, datas, x.order, items, list)
    ensures forall n :: n in nodes ==> n.info == old(n.info)
    ensures idx == x.idx && data == LastData(Count(findNum), stack)
    ensures retval == SearchValue(x.retval, x.found, x.missed)
  {
    var found, missed;
    SearchBegins(nodes, datas, s, items, list0, finderIdx);
    list, idx, data, retval, found, missed, x :=
      SearchLoop(list0, findNum, finderIdx, stack, nodes, datas, SearchStart(s, finderIdx), items);
    assert Look(HEAP, 0) && Look(MERGE, 0);
    retval := SearchValue(retval, found, missed);
  }

  // ---------- The codes ----------

  /** The loops at the end feed the same value once for every element they pass. */
  function CrcRepeat(value: u16, n: nat, crc: u16): u16 {
    if n == 0 then crc else CrcRepeat(value, n - 1, CrcWord(value, crc))
  }

  method CrcFrom(list: ListHead, finder0: ListHead?, retval0: u16,
                 ghost nodes: set<ListHead>, ghost datas: set<ListData>, ghost s: seq<ListHead>, ghost k0: nat,
                 ghost items: map<ListHead, Item>)
    returns (retval: u16)
    requires Listed(nodes, datas, s, items, list)
    requires k0 <= |s| && finder0 == At(s, k0)
    ensures retval == CrcRepeat(DataAt(items, s, 0), |s| - k0, retval0)
  {
    var finder := finder0;
    ghost var k := k0;
    assert s[0] in s;
    retval := retval0;
    while finder != null
      invariant k0 <= k <= |s| && finder == At(s, k)
      invariant CrcRepeat(DataAt(items, s, 0), |s| - k, retval) == CrcRepeat(DataAt(items, s, 0), |s| - k0, retval0)
      decreases |s| - k
    {
      retval := Crcu16(list.info.data16, retval);
      assert k + 1 < |s| ==> s[k].next == s[k + 1];
      finder := finder.next;
      k := k + 1;
    }
  }

  // ---------- What the benchmark computes ----------

  /** The list that starts at res->list, the records of all nodes, and the registers. */
  datatype Snap = Snap(order: seq<ListHead>, items: map<ListHead, Item>, regs: Regs)

  /** The order and the items after the sort by data, which only the first of two calls makes. */
  function SortedByData(env: Env, regs: Regs, s: seq<ListHead>, items: map<ListHead, Item>, finderIdx: s16)
    : Out<ListHead>
  {
    if finderIdx > 0 then Sort(CmpComplex(env), s, 1, State(items, regs, 0)) else Out(s, State(items, regs, 0))
  }

  /** The order and the items after the sort by idx, which looks at no registers. */
  function SortedByIdx(now: Out<ListHead>): Out<ListHead> {
    Sort(CmpIdx(), now.order, 1, State(now.st.items, NO_REGS, 0))
  }

  /** How many elements the first code loop passes: from the one found on, or all but the first. */
  function CrcCount(items: map<ListHead, Item>, s: seq<ListHead>, idx: s16, data: u16): nat {
    var k := FindIndex(items, s, idx, data);
    if k < |s| then |s| - k else Rest(s)
  }

  /** The number of elements behind the first. */
  function Rest(s: seq<ListHead>): nat {
    if s == [] then 0 else |s| - 1
  }

  /** The value after the element at position 1 has been removed and the rest coded. */
  function CodedValue(sorted: Out<ListHead>, idx: s16, data: u16, retval: u16): u16
  {
    var s, items := sorted.order, sorted.st.items;
    if |s| < 3 || s[1] !in items || s[2] !in items then retval
    else CrcRepeat(DataAt(items, s, 0), CrcCount(Exchanged(items, s[1], s[2]), Removed(s), idx, data), retval)
  }

  /** The value after the whole list, sorted by idx again, has been coded. */
  function FinalValue(back: Out<ListHead>, retval: u16): u16 {
    CrcRepeat(DataAt(back.st.items, back.order, 0), Rest(back.order), retval)
  }

  datatype Outcome = Outcome(retval: u16, after: Snap)

  /** The searches of a call. */
  function Searches(x: Snap, findNum: s16, finderIdx: s16): Search {
    SearchAll(x.items, Count(findNum), SearchStart(x.order, finderIdx))
  }

  /** The list before its last sort. */
  function BeforeLastSort(env: Env, x: Snap, findNum: s16, finderIdx: s16): Out<ListHead> {
    SortedByData(env, x.regs, Searches(x, findNum, finderIdx).order, x.items, finderIdx)
  }

  /** What core_bench_list returns, and the list, the records and the registers it leaves. */
  function BenchList(env: Env, x: Snap, findNum: s16, finderIdx: s16, stack: u16): Outcome
  {
    var y := Searches(x, findNum, finderIdx);
    var sorted := BeforeLastSort(env, x, findNum, finderIdx);
    var back := SortedByIdx(sorted);
    var coded := CodedValue(sorted, y.idx, LastData(Count(findNum), stack), SearchValue(y.retval, y.found, y.missed));
    Outcome(FinalValue(back, coded), Snap(back.order, back.st.items, sorted.st.regs))
  }

  /** What the sort by data makes of any list: although calc_func writes to the records while they are
      compared, the nodes end up sorted, and stably, by the values that are cached in the end; with two
      nodes or more all values are cached, those of plain items as they were; and neither cached values nor
      backups ever change. */
  lemma SortByDataIsRight(env: Env, s: seq<ListHead>, st: State<ListHead>)
    requires Covers(st, s) && NoRepeats(s)
    ensures var out := Sort(CmpComplex(env), s, 1, st);
            StablySorted(CmpComplex(env), s, out.order, out.st.items)
    ensures var after := Sort(CmpComplex(env), s, 1, st).st.items;
            forall n :: n in st.items ==> n in after && SameBackup(st.items[n], after[n])
    ensures var after := Sort(CmpComplex(env), s, 1, st).st.items;
            forall n :: n in st.items && Cached(st.items[n].data16) ==> n in after && after[n] == st.items[n]
    ensures var after := Sort(CmpComplex(env), s, 1, st).st.items;
            |s| >= 2 ==> forall n :: n in s ==> n in after && Cached(after[n].data16)
    ensures var after := Sort(CmpComplex(env), s, 1, st).st.items;
            |s| >= 2 ==> forall n :: n in s && Plain(st.items[n].data16) ==>
              n in after && Cache(after[n].data16) == st.items[n].data16 % 0x80
    ensures var out := Sort(CmpComplex(env), s, 1, st);
            forall i, j :: 0 <= i < j < |s| && out.order[i] in out.st.items && out.order[j] in out.st.items ==>
              Cache(out.st.items[out.order[i]].data16) <= Cache(out.st.items[out.order[j]].data16)
  {
    CmpComplexLawful(env);
    SortIsRight(CmpComplex(env), s, st);
    var out := Sort(CmpComplex(env), s, 1, st);
    forall i, j | 0 <= i < j < |s| && out.order[i] in out.st.items && out.order[j] in out.st.items
      ensures Cache(out.st.items[out.order[i]].data16) <= Cache(out.st.items[out.order[j]].data16)
    {
      assert KeyOf(CmpComplex(env), out.order[i], out.st.items) <= KeyOf(CmpComplex(env), out.order[j], out.st.items);
    }
  }

  lemma LowByteKept(data: u16)
    requires !Cached(data)
    ensures data % 0x80 == data % 0x100
  {
  }

  /** Elements that ask for no benchmark end up in order of the low bytes they had before the sort, whatever
      the benchmarks return for the others. */
  lemma PlainInOrder(env: Env, s: seq<ListHead>, st: State<ListHead>, i: nat, j: nat)
    requires Covers(st, s) && NoRepeats(s)
    ensures var order := Sort(CmpComplex(env), s, 1, st).order;
            i < j < |order| && order[i] in st.items && order[j] in st.items &&
            Plain(st.items[order[i]].data16) && Plain(st.items[order[j]].data16) ==>
              st.items[order[i]].data16 % 0x100 <= st.items[order[j]].data16 % 0x100
  {
    var out := Sort(CmpComplex(env), s, 1, st);
    SortByDataIsRight(env, s, st);
    if i < j < |out.order| && out.order[i] in st.items && out.order[j] in st.items &&
       Plain(st.items[out.order[i]].data16) && Plain(st.items[out.order[j]].data16) {
      LowByteKept(st.items[out.order[i]].data16);
      LowByteKept(st.items[out.order[j]].data16);
      InList(s, out.order, i);
      InList(s, out.order, j);
    }
  }

  lemma InList<N>(s: seq<N>, r: seq<N>, i: nat)
    requires multiset(r) == multiset(s) && i < |r|
    ensures r[i] in s && |r| == |s|
  {
    assert r[i] in multiset(r);
    assert |r| == |multiset(r)| == |multiset(s)| == |s|;
  }

  // ---------- The benchmark ----------

  /** The nodes and records, with cmp_complex as the comparison. */
  ghost predicate Benching(v: View) {
    v.c == CmpComplex(v.env)
  }

  /** The heap holds what `x` says, with the list starting at `list`. */
  ghost predicate Shows(res: CoreResults, v: View, x: Snap, list: ListHead?)
    reads res, res.memblock3, res.mat.a, res.mat.b, v.nodes, v.datas, x.order, set n | n in v.nodes :: n.info
  {
    Benching(v) && Sortable(CMP_COMPLEX, res, v, x.order, State(x.items, x.regs, 0), list)
  }

  /** A list is what the sort takes. */
  lemma ListedSortable(cmp: ListCmp, res: CoreResults?, v: View, s: seq<ListHead>, items: map<ListHead, Item>,
                       regs: Regs, list: ListHead?)
    requires Serves(cmp, res, v.c, v.env) && Listed(v.nodes, v.datas, s, items, list)
    requires res != null ==> res.Registers() == regs
    ensures Sortable(cmp, res, v, s, State(items, regs, 0), list)
  {
  }

  /** A list is what the sort gives back. */
  lemma SortableListed(cmp: ListCmp, res: CoreResults?, v: View, s: seq<ListHead>, st: State<ListHead>, list: ListHead?)
    requires Sortable(cmp, res, v, s, st, list)
    ensures Serves(cmp, res, v.c, v.env) && Listed(v.nodes, v.datas, s, st.items, list)
    ensures res != null ==> res.Registers() == st.regs
  {
    assert Look(HEAP, 0);
  }

  /** The sort by data leaves the records with their nodes. */
  method SortData(list0: ListHead, finderIdx: s16, res: CoreResults, ghost v: View, ghost x: Snap,
                  ghost sorted: Out<ListHead>)
    returns (list: ListHead?)
    requires Shows(res, v, x, list0) && sorted == SortedByData(v.env, x.regs, x.order, x.items, finderIdx)
    modifies v.nodes`next, v.datas`data16, res`crc, res`crcmatrix, res`crcstate, Arrays(res)
    ensures Sortable(CMP_COMPLEX, res, v, sorted.order, sorted.st, list)
    ensures forall n :: n in v.nodes ==> n.info == old(n.info)
  {
    list := list0;
    if finderIdx > 0 {
      ghost var passes, widest, out;
      list, passes, widest, out := CoreListMergesort(list, CMP_COMPLEX, res, v, x.order, State(x.items, x.regs, 0));
    }
  }

  /** Code the rest of the list from the element found on, or from the second. */
  method CodeFound(list: ListHead, idx: s16, data: u16, retval0: u16,
                   ghost nodes: set<ListHead>, ghost datas: set<ListData>, ghost t: seq<ListHead>,
                   ghost items: map<ListHead, Item>)
    returns (retval: u16)
    requires Listed(nodes, datas, t, items, list) && |t| >= 2
    ensures retval == CrcRepeat(DataAt(items, t, 0), CrcCount(items, t, idx, data), retval0)
  {
    assert t[0] in t && t[1] in t;
    var finder := CoreListFind(list, idx, data, nodes, datas, t, items);
    ghost var k := FindIndex(items, t, idx, data);
    if finder == null {
      finder := list.next;
      k := 1;
    }
    retval := CrcFrom(list, finder, retval0, nodes, datas, t, k, items);
  }

  lemma RemovedHead(s: seq<ListHead>, items: map<ListHead, Item>)
    requires |s| >= 3 && NoRepeats(s) && s[1] in items && s[2] in items
    ensures |Removed(s)| >= 2 && Removed(s)[0] == s[0] && Removed(s)[1] == s[1]
    ensures DataAt(Exchanged(items, s[1], s[2]), Removed(s), 0) == DataAt(items, s, 0)
  {
    assert s[0] != s[1] && s[0] != s[2];
  }

  /** Remove the element at position 1, code from the element found on, and put it back. */
  method RemoveAndCode(list: ListHead, idx: s16, data: u16, retval0: u16,
                       ghost nodes: set<ListHead>, ghost datas: set<ListData>, ghost s: seq<ListHead>,
                       ghost items: map<ListHead, Item>)
    returns (retval: u16)
    requires Listed(nodes, datas, s, items, list) && |s| >= 3
    modifies nodes
    ensures Listed(nodes, datas, s, items, list)
    ensures forall n :: n in nodes ==> n.info == old(n.info)
    ensures s[1] in items && s[2] in items
    ensures retval == CrcRepeat(DataAt(items, s, 0),
                                CrcCount(Exchanged(items, s[1], s[2]), Removed(s), idx, data), retval0)
  {
    assert s[0] in s && s[1] in s && s[2] in s;
    var remover := CoreListRemove(list.next, list, nodes, datas, s, items);
    RemovedHead(s, items);
    retval := CodeFound(list, idx, data, retval0, nodes, datas, Removed(s), Exchanged(items, s[1], s[2]));
    assert list.next == s[1];
    remover := CoreListUndoRemove(remover, list.next, list, nodes, datas, s, items);
  }

  /** `Listed`, folded. */
  ghost predicate IsList(nodes: set<ListHead>, datas: set<ListData>, now: Out<ListHead>, list: ListHead?)
    reads nodes, datas, now.order, set n | n in nodes :: n.info
  {
    forall k {:trigger Look(LIST, k)} :: Look(LIST, k) ==> Listed(nodes, datas, now.order, now.st.items, list)
  }

  /** The sort by idx, which works without a results structure. */
  method SortIdx(list0: ListHead, ghost nodes: set<ListHead>, ghost datas: set<ListData>, ghost now: Out<ListHead>)
    returns (list: ListHead?)
    requires IsList(nodes, datas, now, list0)
    modifies nodes`next, datas`data16
    ensures IsList(nodes, datas, SortedByIdx(now), list) && (now.order != [] ==> list != null)
    ensures forall n :: n in nodes ==> n.info == old(n.info)
  {
    ghost var st := State(now.st.items, NO_REGS, 0);
    ghost var v := View(nodes, datas, CmpIdx(), EnvBase(0, 0, 0, [], []));
    ghost var passes, widest, out;
    assert Look(LIST, 0);
    ListedSortable(CMP_IDX, null, v, now.order, now.st.items, NO_REGS, list0);
    list, passes, widest, out := CoreListMergesort(list0, CMP_IDX, null, v, now.order, st);
    SortableListed(CMP_IDX, null, v, out.order, out.st, list);
  }

  /** Sort by idx and code the list. */
  method SortBackAndCode(list0: ListHead, retval0: u16, ghost nodes: set<ListHead>, ghost datas: set<ListData>,
                         ghost now: Out<ListHead>, ghost back: Out<ListHead>)
    returns (retval: u16, list: ListHead)
    requires IsList(nodes, datas, now, list0) && |now.order| >= 3 && back == SortedByIdx(now)
    modifies nodes`next, datas`data16
    ensures IsList(nodes, datas, back, list) && retval == FinalValue(back, retval0)
    ensures forall n :: n in nodes ==> n.info == old(n.info)
  {
    var l := SortIdx(list0, nodes, datas, now);
    list := l;
    retval := CodeRest(list, retval0, nodes, datas, back);
  }

  method CodeRest(list: ListHead, retval0: u16, ghost nodes: set<ListHead>, ghost datas: set<ListData>,
                  ghost back: Out<ListHead>)
    returns (retval: u16)
    requires IsList(nodes, datas, back, list)
    ensures retval == FinalValue(back, retval0)
  {
    assert Look(LIST, 0);
    assert list.next == At(back.order, 1);
    retval := CrcFrom(list, list.next, retval0, nodes, datas, back.order, 1, back.st.items);
  }

  /** The second half: remove, code, put back, and sort by idx. */
  method FinishList(list0: ListHead, idx: s16, data: u16, retval0: u16, ghost nodes: set<ListHead>,
                    ghost datas: set<ListData>, ghost now: Out<ListHead>, ghost back: Out<ListHead>)
    returns (retval: u16, list: ListHead)
    requires IsList(nodes, datas, now, list0) && |now.order| >= 3 && back == SortedByIdx(now)
    modifies nodes, datas`data16
    ensures IsList(nodes, datas, back, list) && retval == FinalValue(back, CodedValue(now, idx, data, retval0))
    ensures forall n :: n in nodes ==> n.info == old(n.info)
  {
    assert Look(LIST, 0);
    retval := RemoveAndCode(list0, idx, data, retval0, nodes, datas, now.order, now.st.items);
    retval, list := SortBackAndCode(list0, retval, nodes, datas, now, back);
  }

  /** The second half does not touch the results structure or its blocks. */
  method FinishFramed(list0: ListHead, idx: s16, data: u16, retval0: u16, ghost res: CoreResults, ghost v: View,
                      ghost now: Out<ListHead>, ghost back: Out<ListHead>)
    returns (retval: u16, list: ListHead)
    requires IsList(v.nodes, v.datas, now, list0) && |now.order| >= 3 && back == SortedByIdx(now)
    requires Serves(CMP_COMPLEX, res, v.c, v.env)
    modifies v.nodes, v.datas`data16
    ensures Serves(CMP_COMPLEX, res, v.c, v.env) && res.Registers() == old(res.Registers())
    ensures IsList(v.nodes, v.datas, back, list)
    ensures retval == FinalValue(back, CodedValue(now, idx, data, retval0))
    ensures forall n :: n in v.nodes ==> n.info == old(n.info)
  {
    retval, list := FinishList(list0, idx, data, retval0, v.nodes, v.datas, now, back);
  }

  /** The second half, from what the sort by data gives back. */
  method Finish(list0: ListHead?, idx: s16, data: u16, retval0: u16, ghost res: CoreResults, ghost v: View,
                ghost now: Out<ListHead>, ghost back: Out<ListHead>)
    returns (retval: u16, list: ListHead)
    requires Benching(v) && Sortable(CMP_COMPLEX, res, v, now.order, now.st, list0) && |now.order| >= 3
    requires back == SortedByIdx(now)
    modifies v.nodes, v.datas`data16
    ensures Shows(res, v, Snap(back.order, back.st.items, now.st.regs), list)
    ensures retval == FinalValue(back, CodedValue(now, idx, data, retval0))
    ensures forall n :: n in v.nodes ==> n.info == old(n.info)
  {
    SortableIsList(res, v, now, list0);
    retval, list := FinishFramed(list0, idx, data, retval0, res, v, now, back);
    IsListSortable(res, v, back, now.st.regs, list);
  }

  lemma SortableIsList(res: CoreResults, v: View, now: Out<ListHead>, list: ListHead?)
    requires Sortable(CMP_COMPLEX, res, v, now.order, now.st, list) && now.order != []
    ensures Serves(CMP_COMPLEX, res, v.c, v.env) && IsList(v.nodes, v.datas, now, list)
    ensures res.Registers() == now.st.regs && list != null
  {
    SortableListed(CMP_COMPLEX, res, v, now.order, now.st, list);
  }

  lemma IsListSortable(res: CoreResults, v: View, back: Out<ListHead>, regs: Regs, list: ListHead?)
    requires Serves(CMP_COMPLEX, res, v.c, v.env) && IsList(v.nodes, v.datas, back, list) && res.Registers() == regs
    ensures Sortable(CMP_COMPLEX, res, v, back.order, State(back.st.items, regs, 0), list)
  {
    assert Look(LIST, 0);
    ListedSortable(CMP_COMPLEX, res, v, back.order, back.st.items, regs, list);
  }

  /** The first half: the searches. */
  method Begin(res: CoreResults, finderIdx: s16, stack: u16, ghost v: View, ghost x: Snap)
    returns (list: ListHead, idx: s16, data: u16, retval: u16, ghost y: Search)
    requires Shows(res, v, x, res.list) && |x.order| >= 3
    modifies v.nodes`next
    ensures y == Searches(x, res.seed3, finderIdx) && Shows(res, v, x.(order := y.order), list)
    ensures forall n :: n in v.nodes ==> n.info == old(n.info)
    ensures idx == y.idx && data == LastData(Count(res.seed3), stack)
    ensures retval == SearchValue(y.retval, y.found, y.missed)
  {
    SortableListed(CMP_COMPLEX, res, v, x.order, State(x.items, x.regs, 0), res.list);
    list, idx, data, retval, y :=
      SearchPhase(res.list, res.seed3, finderIdx, stack, v.nodes, v.datas, x.order, x.items);
    ListedSortable(CMP_COMPLEX, res, v, y.order, x.items, x.regs, list);
  }

  lemma SortKeepsLength(env: Env, x: Snap, findNum: s16, finderIdx: s16)
    ensures |BeforeLastSort(env, x, findNum, finderIdx).order| == |x.order|
  {
  }

  /** core_bench_list, on any list of at least three nodes: without a test, the code reads the third.  It
      returns and leaves what `BenchList` says, and every node keeps its record pointer. */
  method CoreBenchList(res: CoreResults, finderIdx: s16, stack: u16, ghost v: View, ghost x: Snap)
    returns (retval: u16, ghost list: ListHead)
    requires Shows(res, v, x, res.list) && |x.order| >= 3
    modifies v.nodes, v.datas`data16, res`crc, res`crcmatrix, res`crcstate, Arrays(res)
    ensures retval == BenchList(v.env, x, res.seed3, finderIdx, stack).retval
    ensures Shows(res, v, BenchList(v.env, x, res.seed3, finderIdx, stack).after, list)
    ensures forall n :: n in v.nodes ==> n.info == old(n.info)
  {
    var first, sorted, idx, data;
    ghost var y;
    ghost var now := BeforeLastSort(v.env, x, res.seed3, finderIdx);
    SortKeepsLength(v.env, x, res.seed3, finderIdx);
    first, idx, data, retval, y := Begin(res, finderIdx, stack, v, x);
    sorted := SortData(first, finderIdx, res, v, x.(order := y.order), now);
    retval, list := Finish(sorted, idx, data, retval, res, v, now, SortedByIdx(now));
  }
}
