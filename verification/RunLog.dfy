/** What the register of a run is the code of: an explicit log of all values that calc_func of
    core_list_join.c calculates and that core_bench_list returns to iterate of core_main.c. */
module RunLog {
  import opened Words
  import opened Crc
  import opened Records
  import opened Items
  import opened Sorting
  import opened SortProof
  import opened Results
  import opened ListOps
  import opened ListBench
  import opened CoreMark
  import opened Chains

  datatype Source = FROM_TEXT | FROM_MATRIX | FROM_ITEM | FROM_CALL

  datatype Entry = Entry(source: Source, word: u16)

  function CodeWords(log: seq<Entry>): (ws: seq<u16>)
    ensures |ws| == |log|
  {
    seq(|log|, i requires 0 <= i < |log| => log[i].word)
  }

  /** The first value from this source that is not zero, if nothing has been stored before. */
  function Stored(log: seq<Entry>, source: Source, before: u16): u16 {
    if before != 0 || log == [] then before
    else Stored(log[1..], source, if log[0].source == source then log[0].word else 0)
  }

  /** The code goes on with the words of the log, and the first results of both benchmarks are stored. */
  ghost predicate Logged(before: Regs, log: seq<Entry>, after: Regs) {
    && after.crc == CrcWords(CodeWords(log), before.crc)
    && after.crcmatrix == Stored(log, FROM_MATRIX, before.crcmatrix)
    && after.crcstate == Stored(log, FROM_TEXT, before.crcstate)
  }

  lemma {:induction false} StoredConcat(a: seq<Entry>, b: seq<Entry>, source: Source, before: u16)
    ensures Stored(a + b, source, before) == Stored(b, source, Stored(a, source, before))
  {
    if a == [] {
      assert a + b == b;
    } else if before == 0 {
      assert (a + b)[1..] == a[1..] + b;
      StoredConcat(a[1..], b, source, if a[0].source == source then a[0].word else 0);
    }
  }

  lemma LoggedConcat(r0: Regs, a: seq<Entry>, r1: Regs, b: seq<Entry>, r2: Regs)
    requires Logged(r0, a, r1) && Logged(r1, b, r2)
    ensures Logged(r0, a + b, r2)
  {
    assert CodeWords(a + b) == CodeWords(a) + CodeWords(b);
    CrcWordsConcat(CodeWords(a), CodeWords(b), r0.crc);
    StoredConcat(a, b, FROM_MATRIX, r0.crcmatrix);
    StoredConcat(a, b, FROM_TEXT, r0.crcstate);
  }

  lemma LoggedNothing(r: Regs)
    ensures Logged(r, [], r)
  {
    assert CodeWords([]) == [];
  }

  // ---------- Looking at items ----------

  function SourceOf(data: u16): Source {
    if data % 8 == 0 then FROM_TEXT else if data % 8 == 1 then FROM_MATRIX else FROM_ITEM
  }

  /** An item that is not cached is calculated, and its value coded, once. */
  function LookLog(env: Env, data: u16, regs: Regs): seq<Entry> {
    if Cached(data) then [] else [Entry(SourceOf(data), Calculated(env, data, regs))]
  }

  lemma LookLogged(env: Env, data: u16, regs: Regs)
    ensures Logged(regs, LookLog(env, data, regs), CalcRegs(env, data, regs))
  {
    LoggedNothing(regs);
    if !Cached(data) {
      var v := Calculated(env, data, regs);
      var log := [Entry(SourceOf(data), v)];
      assert CodeWords(log) == [v] && log[1..] == [];
      CrcWordsAppend([], v, regs.crc);
      assert [] + [v] == [v];
    }
  }

  function CompareLog<N>(env: Env, p: N, q: N, st: State<N>): seq<Entry>
  {
    if p !in st.items || q !in st.items then []
    else
      LookLog(env, st.items[p].data16, st.regs) +
      LookLog(env, st.items[q].data16, CalcRegs(env, st.items[p].data16, st.regs))
  }

  lemma CompareLogged<N>(env: Env, p: N, q: N, st: State<N>)
    ensures Logged(st.regs, CompareLog(env, p, q, st), Compare(CmpComplex(env), p, q, st).regs)
  {
    LoggedNothing(st.regs);
    if p in st.items && q in st.items {
      var d, e := st.items[p].data16, st.items[q].data16;
      LookLogged(env, d, st.regs);
      LookLogged(env, e, CalcRegs(env, d, st.regs));
      LoggedConcat(st.regs, LookLog(env, d, st.regs), CalcRegs(env, d, st.regs),
                   LookLog(env, e, CalcRegs(env, d, st.regs)), CalcRegs(env, e, CalcRegs(env, d, st.regs)));
    }
  }

  // ---------- Sorting by data ----------

  function MergeLog<N>(env: Env, p: seq<N>, q: seq<N>, st: State<N>): seq<Entry>
    decreases |p| + |q|
  {
    if p == [] || q == [] then []
    else
      var st' := Compare(CmpComplex(env), p[0], q[0], st);
      CompareLog(env, p[0], q[0], st) +
      if KeyOf(CmpComplex(env), p[0], st'.items) <= KeyOf(CmpComplex(env), q[0], st'.items)
      then MergeLog(env, p[1..], q, st') else MergeLog(env, p, q[1..], st')
  }

  function PassLog<N>(env: Env, s: seq<N>, w: nat, st: State<N>): seq<Entry>
    requires w > 0
    decreases |s|
  {
    if s == [] then []
    else
      var k, m := Min(w, |s|), Min(2 * w, |s|);
      MergeLog(env, s[..k], s[k..m], st) +
      PassLog(env, s[m..], w, Merge(CmpComplex(env), s[..k], s[k..m], st).st)
  }

  function SortLog<N>(env: Env, s: seq<N>, w: nat, st: State<N>): seq<Entry>
    requires w > 0
    decreases |s| - w
  {
    var pass := Pass(CmpComplex(env), s, w, st);
    PassLog(env, s, w, st) + if |s| <= 2 * w then [] else SortLog(env, pass.order, 2 * w, pass.st)
  }

  lemma {:induction false} MergeLogged<N>(env: Env, p: seq<N>, q: seq<N>, st: State<N>)
    ensures Logged(st.regs, MergeLog(env, p, q, st), Merge(CmpComplex(env), p, q, st).st.regs)
    decreases |p| + |q|
  {
    if p == [] || q == [] {
      LoggedNothing(st.regs);
    } else {
      var cmp := CmpComplex(env);
      var st' := Compare(cmp, p[0], q[0], st);
      var log := CompareLog(env, p[0], q[0], st);
      CompareLogged(env, p[0], q[0], st);
      if KeyOf(cmp, p[0], st'.items) <= KeyOf(cmp, q[0], st'.items) {
        MergeLogged(env, p[1..], q, st');
        LoggedConcat(st.regs, log, st'.regs, MergeLog(env, p[1..], q, st'), Merge(cmp, p[1..], q, st').st.regs);
      } else {
        MergeLogged(env, p, q[1..], st');
        LoggedConcat(st.regs, log, st'.regs, MergeLog(env, p, q[1..], st'), Merge(cmp, p, q[1..], st').st.regs);
      }
    }
  }

  lemma {:induction false} PassLogged<N>(env: Env, s: seq<N>, w: nat, st: State<N>)
    requires w > 0
    ensures Logged(st.regs, PassLog(env, s, w, st), Pass(CmpComplex(env), s, w, st).st.regs)
    decreases |s|
  {
    if s == [] {
      LoggedNothing(st.regs);
    } else {
      var k, m := Min(w, |s|), Min(2 * w, |s|);
      var merged := Merge(CmpComplex(env), s[..k], s[k..m], st);
      MergeLogged(env, s[..k], s[k..m], st);
      PassLogged(env, s[m..], w, merged.st);
      LoggedConcat(st.regs, MergeLog(env, s[..k], s[k..m], st), merged.st.regs, PassLog(env, s[m..], w, merged.st),
                   Pass(CmpComplex(env), s[m..], w, merged.st).st.regs);
    }
  }

  lemma {:induction false} SortLogged<N>(env: Env, s: seq<N>, w: nat, st: State<N>)
    requires w > 0
    ensures Logged(st.regs, SortLog(env, s, w, st), Sort(CmpComplex(env), s, w, st).st.regs)
    decreases |s| - w
  {
    var pass := Pass(CmpComplex(env), s, w, st);
    PassLogged(env, s, w, st);
    if |s| <= 2 * w {
      assert SortLog(env, s, w, st) == PassLog(env, s, w, st);
    } else {
      SortLogged(env, pass.order, 2 * w, pass.st);
      LoggedConcat(st.regs, PassLog(env, s, w, st), pass.st.regs, SortLog(env, pass.order, 2 * w, pass.st),
                   Sort(CmpComplex(env), pass.order, 2 * w, pass.st).st.regs);
    }
  }

  // ---------- A run ----------

  /** The values of the sort by data, which only the first of two calls makes. */
  function DataLog(env: Env, x: Snap, r: seq<ListHead>, finderIdx: s16): seq<Entry> {
    if finderIdx > 0 then SortLog(env, r, 1, State(x.items, x.regs, 0)) else []
  }

  /** The values of one call: of every item that its sort by data calculates, and what it returns. */
  function CallLog(env: Env, x: Snap, findNum: s16, finderIdx: s16, stack: u16): seq<Entry> {
    if x.order == [] then []
    else
      DataLog(env, x, Searches(x, findNum, finderIdx).order, finderIdx) +
      [Entry(FROM_CALL, BenchList(env, x, findNum, finderIdx, stack).retval)]
  }

  /** The values of the first `k` calls. */
  function Log(env: Env, x: Snap, findNum: s16, stack: nat -> u16, k: nat): seq<Entry> {
    if k == 0 then []
    else
      Log(env, x, findNum, stack, k - 1) +
      CallLog(env, Calls(env, x, findNum, stack, k - 1), findNum, FinderIdx(k - 1), stack(k - 1))
  }

  lemma DataLogged(env: Env, x: Snap, r: seq<ListHead>, finderIdx: s16)
    ensures Logged(x.regs, DataLog(env, x, r, finderIdx),
                   SortedByData(env, x.regs, r, x.items, finderIdx).st.regs)
  {
    LoggedNothing(x.regs);
    if finderIdx > 0 {
      SortLogged(env, r, 1, State(x.items, x.regs, 0));
    }
  }

  lemma CallLogged(env: Env, x: Snap, findNum: s16, finderIdx: s16, stack: u16)
    ensures Logged(x.regs, CallLog(env, x, findNum, finderIdx, stack), Half(env, x, findNum, finderIdx, stack).regs)
  {
    LoggedNothing(x.regs);
    if x.order != [] {
      var r := Searches(x, findNum, finderIdx).order;
      var o := BenchList(env, x, findNum, finderIdx, stack);
      DataLogged(env, x, r, finderIdx);
      ValueLogged(o.after.regs, o.retval);
      LoggedConcat(x.regs, DataLog(env, x, r, finderIdx), o.after.regs, [Entry(FROM_CALL, o.retval)],
                   o.after.regs.(crc := Crcu16Of(o.retval, o.after.regs.crc)));
    }
  }

  /** The code of one more word. */
  function Crcu16Of(v: u16, crc: u16): (r: u16)
    ensures r == CrcWords([v], crc)
  {
    CrcWordsAppend([], v, crc);
    assert [] + [v] == [v];
    CrcWord(v, crc)
  }

  lemma ValueLogged(r: Regs, v: u16)
    ensures Logged(r, [Entry(FROM_CALL, v)], r.(crc := Crcu16Of(v, r.crc)))
  {
    var log := [Entry(FROM_CALL, v)];
    assert CodeWords(log) == [v] && log[1..] == [];
  }

  lemma LogNext(env: Env, x: Snap, findNum: s16, stack: nat -> u16, k: nat)
    ensures Log(env, x, findNum, stack, k + 1) ==
            Log(env, x, findNum, stack, k) +
            CallLog(env, Calls(env, x, findNum, stack, k), findNum, FinderIdx(k), stack(k))
  {
  }

  /** The registers before the k-th call are what the values of the calls before it make of the first ones. */
  ghost function IsLogged(env: Env, x: Snap, findNum: s16, stack: nat -> u16): nat -> bool {
    (k: nat) => Logged(x.regs, Log(env, x, findNum, stack, k), Calls(env, x, findNum, stack, k).regs)
  }

  lemma NextLogged(env: Env, x: Snap, findNum: s16, stack: nat -> u16, k: nat)
    requires IsLogged(env, x, findNum, stack)(k)
    ensures IsLogged(env, x, findNum, stack)(k + 1)
  {
    var y, z := Calls(env, x, findNum, stack, k), Calls(env, x, findNum, stack, k + 1);
    CallsNext(env, x, findNum, stack, k);
    LogNext(env, x, findNum, stack, k);
    CallLogged(env, y, findNum, FinderIdx(k), stack(k));
    LoggedConcat(x.regs, Log(env, x, findNum, stack, k), y.regs, CallLog(env, y, findNum, FinderIdx(k), stack(k)),
                 z.regs);
  }

  lemma RunLogged(env: Env, x: Snap, findNum: s16, stack: nat -> u16, k: nat)
    ensures IsLogged(env, x, findNum, stack)(k)
  {
    LoggedNothing(x.regs);
    forall i: nat | Look(RUN, i) && IsLogged(env, x, findNum, stack)(i)
      ensures IsLogged(env, x, findNum, stack)(i + 1)
    {
      NextLogged(env, x, findNum, stack, i);
    }
    Along(IsLogged(env, x, findNum, stack), k);
  }

  /** The register of a run of iterate, whatever the registers held before, is the code of its log, and the
      stored results are the first ones in it that are not zero. */
  lemma RegisterIsCode(env: Env, x: Snap, findNum: s16, stack: nat -> u16, k: nat)
    ensures var log := Log(env, Cleared(x), findNum, stack, k);
            var regs := Calls(env, Cleared(x), findNum, stack, k).regs;
            && regs.crc == CrcWords(CodeWords(log), 0)
            && regs.crcmatrix == Stored(log, FROM_MATRIX, 0) && regs.crcstate == Stored(log, FROM_TEXT, 0)
  {
    RunLogged(env, Cleared(x), findNum, stack, k);
  }

  /** The log only grows, and the last entry of a call is the value that core_bench_list returned. */
  lemma LogGrows(env: Env, x: Snap, findNum: s16, stack: nat -> u16, k: nat)
    requires Calls(env, x, findNum, stack, k).order != []
    ensures var log, next := Log(env, x, findNum, stack, k), Log(env, x, findNum, stack, k + 1);
            var y := Calls(env, x, findNum, stack, k);
            && log <= next && |log| < |next|
            && next[|next| - 1] == Entry(FROM_CALL, BenchList(env, y, findNum, FinderIdx(k), stack(k)).retval)
  {
    LogNext(env, x, findNum, stack, k);
  }

  /** No single value of a run can change without changing the register. */
  lemma OneValueDetected(env: Env, x: Snap, findNum: s16, stack: nat -> u16, k: nat, i: nat, v: u16)
    requires i < |Log(env, Cleared(x), findNum, stack, k)| && v != Log(env, Cleared(x), findNum, stack, k)[i].word
    ensures CrcWords(CodeWords(Log(env, Cleared(x), findNum, stack, k))[i := v], 0) !=
            Calls(env, Cleared(x), findNum, stack, k).regs.crc
  {
    RegisterIsCode(env, x, findNum, stack, k);
    CrcDetectsOneWord(CodeWords(Log(env, Cleared(x), findNum, stack, k)), i, v, 0);
  }

  // ---------- How many values ----------

  function Uncached<N>(items: map<N, Item>): set<N> {
    set n | n in items && !Cached(items[n].data16)
  }

  lemma CompareCount<N>(env: Env, p: N, q: N, st: State<N>)
    requires p in st.items && q in st.items && p != q
    ensures |CompareLog(env, p, q, st)| + |Uncached(Compare(CmpComplex(env), p, q, st).items)| == |Uncached(st.items)|
  {
    var d, e := st.items[p].data16, st.items[q].data16;
    var regs := CalcRegs(env, d, st.regs);
    CalcCaches(env, d, st.regs, st.regs);
    CalcCaches(env, e, regs, regs);
    var after := Compare(CmpComplex(env), p, q, st).items;
    assert Uncached(after) == Uncached(st.items) - {p} - {q};
    assert |Uncached(st.items) - {p}| == |Uncached(st.items)| - if Cached(d) then 0 else 1;
  }

  lemma {:induction false} MergeCount<N>(env: Env, p: seq<N>, q: seq<N>, st: State<N>)
    requires Covers(st, p) && Covers(st, q) && Apart(p, q)
    ensures |MergeLog(env, p, q, st)| + |Uncached(Merge(CmpComplex(env), p, q, st).st.items)| == |Uncached(st.items)|
    decreases |p| + |q|
  {
    if p != [] && q != [] {
      var cmp := CmpComplex(env);
      var st' := Compare(cmp, p[0], q[0], st);
      assert p[0] in p && q[0] in q;
      CompareCount(env, p[0], q[0], st);
      if KeyOf(cmp, p[0], st'.items) <= KeyOf(cmp, q[0], st'.items) {
        MergeCount(env, p[1..], q, st');
      } else {
        MergeCount(env, p, q[1..], st');
      }
    }
  }

  lemma {:induction false} PassCount<N>(env: Env, s: seq<N>, w: nat, st: State<N>)
    requires w > 0 && Covers(st, s) && NoRepeats(s)
    ensures |PassLog(env, s, w, st)| + |Uncached(Pass(CmpComplex(env), s, w, st).st.items)| == |Uncached(st.items)|
    decreases |s|
  {
    if s != [] {
      var k, m := Min(w, |s|), Min(2 * w, |s|);
      NoRepeatsSplit(s, k, m);
      MergeCount(env, s[..k], s[k..m], st);
      PassCount(env, s[m..], w, Merge(CmpComplex(env), s[..k], s[k..m], st).st);
    }
  }

  lemma {:induction false} SortCount<N>(env: Env, s: seq<N>, w: nat, st: State<N>)
    requires w > 0 && Covers(st, s) && NoRepeats(s)
    ensures |SortLog(env, s, w, st)| + |Uncached(Sort(CmpComplex(env), s, w, st).st.items)| == |Uncached(st.items)|
    decreases |s| - w
  {
    PassCount(env, s, w, st);
    if |s| > 2 * w {
      var pass := Pass(CmpComplex(env), s, w, st);
      PassPermutes(CmpComplex(env), s, w, st);
      CoversPermutation(s, st, pass);
      SortCount(env, pass.order, 2 * w, pass.st);
    }
  }

  /** The items of the list that are still to be calculated. */
  function ToCalculate<N>(s: seq<N>, items: map<N, Item>): set<N> {
    set n | n in s && n in items && !Cached(items[n].data16)
  }

  lemma AllCalculated<N>(s: seq<N>, before: map<N, Item>, after: map<N, Item>)
    requires before.Keys == after.Keys && Elsewhere(s, before, after)
    requires forall n :: n in s ==> n in after && Cached(after[n].data16)
    ensures |Uncached(before)| == |Uncached(after)| + |ToCalculate(s, before)|
  {
    assert Uncached(after) == Uncached(before) - ToCalculate(s, before);
    assert ToCalculate(s, before) <= Uncached(before);
  }

  /** The sort by data calculates every item of its list that is not cached exactly once. */
  lemma CalculatedOnce<N>(env: Env, s: seq<N>, st: State<N>)
    requires Covers(st, s) && NoRepeats(s) && |s| >= 2
    ensures |SortLog(env, s, 1, st)| == |ToCalculate(s, st.items)|
  {
    SortCount(env, s, 1, st);
    CmpComplexLawful(env);
    SortIsRight(CmpComplex(env), s, st);
    SortElsewhere(CmpComplex(env), s, 1, st);
    AllCalculated(s, st.items, Sort(CmpComplex(env), s, 1, st).st.items);
  }

  lemma CalculatedOnceIn<N>(env: Env, s: seq<N>, r: seq<N>, st: State<N>)
    requires multiset(r) == multiset(s) && Covers(st, s) && NoRepeats(s) && |s| >= 2
    ensures |SortLog(env, r, 1, st)| == |ToCalculate(s, st.items)|
  {
    SamePermutation(s, r);
    assert |r| == |multiset(r)| == |multiset(s)| == |s|;
    CalculatedOnce(env, r, st);
    assert ToCalculate(r, st.items) == ToCalculate(s, st.items);
  }

  /** So a call with a sort by data logs one value for each such item and its own, and any other call only
      its own. */
  lemma CallLogLength(env: Env, x: Snap, findNum: s16, finderIdx: s16, stack: u16)
    requires NoRepeats(x.order) && (forall n :: n in x.order ==> n in x.items) && |x.order| >= 2
    ensures |CallLog(env, x, findNum, finderIdx, stack)| ==
            1 + if finderIdx > 0 then |ToCalculate(x.order, x.items)| else 0
  {
    if finderIdx > 0 {
      CalculatedOnceIn(env, x.order, Searches(x, findNum, finderIdx).order, State(x.items, x.regs, 0));
    }
  }
}
