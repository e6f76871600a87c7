/** The linked list of core_list_join.c on the heap: comparisons, merge sort, reversal, search, and
    removal of an element. */
module LinkedList {
  import opened Words
  import opened Records
  import opened Items
  import opened Sorting
  import opened SortProof
  import opened Results

  // ---------- Lists on the heap ----------

  ghost predicate Linked(s: seq<ListHead>)
    reads s
  {
    forall i :: 0 <= i < |s| - 1 ==> s[i].next == s[i + 1]
  }

  /** `s` is the list that starts at `head`. */
  ghost predicate Chain(head: ListHead?, s: seq<ListHead>)
    reads s
  {
    Linked(s) && if s == [] then head == null else head == s[0] && s[|s| - 1].next == null
  }

  /** The records of the nodes, and the registers, are those of `st`; no two nodes share a record. */
  ghost predicate Holds(nodes: set<ListHead>, datas: set<ListData>, st: State<ListHead>, res: CoreResults?)
    reads nodes, set n | n in nodes :: n.info
    reads if res == null then {} else {res as object, res.memblock3}
  {
    && st.items.Keys == nodes
    && (forall n :: n in nodes ==> n.info in datas)
    && (forall n :: n in nodes ==> st.items[n] == Item(n.info.data16, n.info.idx))
    && (forall n, m :: n in nodes && m in nodes && n != m ==> n.info != m.info)
    && (res != null ==> st.regs == res.Registers())
  }

  // ---------- Comparisons ----------

  /** The comparison functions that core_list_mergesort is called with. */
  datatype ListCmp = CMP_COMPLEX | CMP_IDX

  ghost predicate Means(cmp: ListCmp, res: CoreResults?, c: Comparator, env: Env)
    reads if res == null then {} else {res.memblock3 as object, res.mat.a, res.mat.b}
  {
    if res == null then cmp == CMP_IDX && c == CmpIdx()
    else res.Ready() && res.Environment() == env &&
         c == if cmp.CMP_COMPLEX? then CmpComplex(env) else CmpIdxOnly()
  }

  /** `c` is what `cmp` means when it is called with `res`, in the environment `env`. */
  ghost predicate Serves(cmp: ListCmp, res: CoreResults?, c: Comparator, env: Env)
    reads if res == null then {} else {res.memblock3 as object, res.mat.a, res.mat.b}
  {
    forall k {:trigger Look(BLOCKS, k)} :: Look(BLOCKS, k) ==> Means(cmp, res, c, env)
  }

  /** The arrays that comparisons use; every comparison leaves the environment as it was. */
  ghost function Arrays(res: CoreResults?): set<object> {
    if res == null then {} else {res.memblock3 as object, res.mat.a, res.mat.c}
  }

  ghost function Owner(res: CoreResults?): set<CoreResults> {
    if res == null then {} else {res}
  }

  method CompareComplex(a: ListData, b: ListData, res: CoreResults, ghost env: Env) returns (r: int)
    requires ReadyIn(res, env) && a != b
    modifies a`data16, b`data16, res`crc, res`crcmatrix, res`crcstate, res.memblock3, res.mat.a, res.mat.c
    ensures ReadyIn(res, env)
    ensures var regs := old(res.Registers());
            var regs' := CalcRegs(env, old(a.data16), regs);
            a.data16 == CalcData(env, old(a.data16), regs) &&
            b.data16 == CalcData(env, old(b.data16), regs') &&
            res.Registers() == CalcRegs(env, old(b.data16), regs')
    ensures r == (Cache(a.data16) as int) - (Cache(b.data16) as int)
  {
    var val1 := CalcFunc(a, res, env);
    var val2 := CalcFunc(b, res, env);
    r := (val1 as int) - (val2 as int);
  }

  method CompareIdx(a: ListData, b: ListData, res: CoreResults?) returns (r: int)
    requires a != b
    modifies a`data16, b`data16
    ensures a.data16 == if res == null then Regen(old(a.data16)) else old(a.data16)
    ensures b.data16 == if res == null then Regen(old(b.data16)) else old(b.data16)
    ensures r == (a.idx as int) - (b.idx as int)
  {
    if res == null {
      a.data16 := a.data16 / 0x100 * 0x100 + a.data16 / 0x100 % 0x100;
      b.data16 := b.data16 / 0x100 * 0x100 + b.data16 / 0x100 % 0x100;
    }
    r := (a.idx as int) - (b.idx as int);
  }

  /** Two records rewritten: what `Holds` becomes. */
  ghost predicate Rewritten(st: State<ListHead>, st': State<ListHead>, p: ListHead, q: ListHead, x: u16, y: u16) 
    requires p in st.items && q in st.items
  {
    st'.items == st.items[p := st.items[p].(data16 := x)][q := st.items[q].(data16 := y)]
  }

  lemma CompareComplexRewrites(env: Env, p: ListHead, q: ListHead, st: State<ListHead>)
    requires p in st.items && q in st.items
    ensures var st' := Compare(CmpComplex(env), p, q, st);
            var regs := CalcRegs(env, st.items[p].data16, st.regs);
            Rewritten(st, st', p, q, CalcData(env, st.items[p].data16, st.regs),
                                     CalcData(env, st.items[q].data16, regs)) &&
            st'.regs == CalcRegs(env, st.items[q].data16, regs)
  {
  }

  lemma CompareIdxRewrites(p: ListHead, q: ListHead, st: State<ListHead>)
    requires p in st.items && q in st.items
    ensures var st' := Compare(CmpIdx(), p, q, st);
            Rewritten(st, st', p, q, Regen(st.items[p].data16), Regen(st.items[q].data16)) && st'.regs == st.regs
    ensures var st' := Compare(CmpIdxOnly(), p, q, st);
            Rewritten(st, st', p, q, st.items[p].data16, st.items[q].data16) && st'.regs == st.regs
  {
  }

  method CallComplex(p: ListHead, q: ListHead, res: CoreResults, ghost env: Env,
                     ghost nodes: set<ListHead>, ghost datas: set<ListData>, ghost st: State<ListHead>)
    returns (r: int, ghost st': State<ListHead>)
    requires ReadyIn(res, env) && Holds(nodes, datas, st, res) && p in nodes && q in nodes && p != q
    modifies p.info`data16, q.info`data16, res`crc, res`crcmatrix, res`crcstate, Arrays(res)
    ensures ReadyIn(res, env)
    ensures st' == Compare(CmpComplex(env), p, q, st)
    ensures Holds(nodes, datas, st', res)
    ensures r == (Cache(st'.items[p].data16) as int) - (Cache(st'.items[q].data16) as int)
    ensures unchanged(nodes)
  {
    CompareComplexRewrites(env, p, q, st);
    st' := Compare(CmpComplex(env), p, q, st);
    r := CompareComplex(p.info, q.info, res, env);
  }

  method CallIdx(p: ListHead, q: ListHead, res: CoreResults?,
                 ghost nodes: set<ListHead>, ghost datas: set<ListData>, ghost st: State<ListHead>)
    returns (r: int, ghost st': State<ListHead>)
    requires Holds(nodes, datas, st, res) && p in nodes && q in nodes && p != q
    modifies p.info`data16, q.info`data16
    ensures st' == Compare(if res == null then CmpIdx() else CmpIdxOnly(), p, q, st)
    ensures Holds(nodes, datas, st', res)
    ensures r == (st'.items[p].idx as int) - (st'.items[q].idx as int)
    ensures unchanged(nodes)
  {
    CompareIdxRewrites(p, q, st);
    st' := Compare(if res == null then CmpIdx() else CmpIdxOnly(), p, q, st);
    r := CompareIdx(p.info, q.info, res);
  }

  /** What a sort works with: the nodes, their records, the meaning of the comparison function, and the
      environment that it reads. */
  datatype View = View(nodes: set<ListHead>, datas: set<ListData>, c: Comparator, env: Env)

  /** A call through the function pointer, on the records of two nodes. */
  method CallCmp(cmp: ListCmp, p: ListHead, q: ListHead, res: CoreResults?, ghost v: View, ghost st: State<ListHead>)
    returns (r: int, ghost st': State<ListHead>)
    requires Serves(cmp, res, v.c, v.env) && Holds(v.nodes, v.datas, st, res)
    requires p in v.nodes && q in v.nodes && p != q
    modifies p.info`data16, q.info`data16, Owner(res)`crc, Owner(res)`crcmatrix, Owner(res)`crcstate, Arrays(res)
    ensures Serves(cmp, res, v.c, v.env)
    ensures st' == Compare(v.c, p, q, st) && Holds(v.nodes, v.datas, st', res)
    ensures r <= 0 <==> KeyOf(v.c, p, st'.items) <= KeyOf(v.c, q, st'.items)
    ensures unchanged(v.nodes)
  {
    assert Look(BLOCKS, 0);
    if cmp.CMP_COMPLEX? {
      r, st' := CallComplex(p, q, res, v.env, v.nodes, v.datas, st);
    } else {
      r, st' := CallIdx(p, q, res, v.nodes, v.datas, st);
    }
  }
}
