/** The values that main of core_main.c compares with known ones: why they do not depend on how many
    iterations were run. */
module Reports {
  import opened Words
  import opened Records
  import opened Items
  import opened Sorting
  import opened Results
  import opened ListBench
  import opened CoreMark
  import opened Chains

  /** Whatever every comparison keeps of the registers, the sort keeps. */
  ghost predicate Keeps(cmp: Comparator, kept: Regs -> bool) {
    forall x, r :: kept(r) ==> kept(cmp.regs(x, r))
  }

  lemma {:induction false} MergeKeeps<N>(cmp: Comparator, kept: Regs -> bool, p: seq<N>, q: seq<N>, st: State<N>)
    requires Keeps(cmp, kept) && kept(st.regs)
    ensures kept(Merge(cmp, p, q, st).st.regs)
    decreases |p| + |q|
  {
    if p != [] && q != [] {
      var st' := Compare(cmp, p[0], q[0], st);
      if KeyOf(cmp, p[0], st'.items) <= KeyOf(cmp, q[0], st'.items) {
        MergeKeeps(cmp, kept, p[1..], q, st');
      } else {
        MergeKeeps(cmp, kept, p, q[1..], st');
      }
    }
  }

  lemma {:induction false} PassKeeps<N>(cmp: Comparator, kept: Regs -> bool, s: seq<N>, w: nat, st: State<N>)
    requires w > 0 && Keeps(cmp, kept) && kept(st.regs)
    ensures kept(Pass(cmp, s, w, st).st.regs)
    decreases |s|
  {
    if s != [] {
      var k, m := Min(w, |s|), Min(2 * w, |s|);
      MergeKeeps(cmp, kept, s[..k], s[k..m], st);
      PassKeeps(cmp, kept, s[m..], w, Merge(cmp, s[..k], s[k..m], st).st);
    }
  }

  lemma {:induction false} SortKeeps<N>(cmp: Comparator, kept: Regs -> bool, s: seq<N>, w: nat, st: State<N>)
    requires w > 0 && Keeps(cmp, kept) && kept(st.regs)
    ensures kept(Sort(cmp, s, w, st).st.regs)
    decreases |s| - w
  {
    PassKeeps(cmp, kept, s, w, st);
    if |s| > 2 * w {
      var pass := Pass(cmp, s, w, st);
      SortKeeps(cmp, kept, pass.order, 2 * w, pass.st);
    }
  }

  /** calc_func stores the results of the matrix and state benchmarks once: zero counts as not stored. */
  predicate Extends(r: Regs, r': Regs) {
    (r.crcmatrix != 0 ==> r'.crcmatrix == r.crcmatrix) && (r.crcstate != 0 ==> r'.crcstate == r.crcstate)
  }

  lemma CalcKeeps(env: Env, r: Regs)
    ensures Keeps(CmpComplex(env), (r': Regs) => Extends(r, r'))
  {
  }

  lemma SortedKeeps(env: Env, regs: Regs, r: seq<ListHead>, items: map<ListHead, Item>, finderIdx: s16)
    ensures Extends(regs, SortedByData(env, regs, r, items, finderIdx).st.regs)
  {
    CalcKeeps(env, regs);
    SortKeeps(CmpComplex(env), (r': Regs) => Extends(regs, r'), r, 1, State(items, regs, 0));
  }

  lemma HalfKeeps(env: Env, x: Snap, y: Snap, findNum: s16, finderIdx: s16, stack: u16)
    requires y == Half(env, x, findNum, finderIdx, stack)
    ensures Extends(x.regs, y.regs)
  {
    if x.order != [] {
      SortedKeeps(env, x.regs, Searches(x, findNum, finderIdx).order, x.items, finderIdx);
    }
  }

  /** From the m-th call on, `r` extends the registers `first` before it. */
  predicate Since(m: nat, first: Regs, k: nat, r: Regs) {
    k >= m ==> Extends(first, r)
  }

  lemma CallExtends(env: Env, x: Snap, findNum: s16, stack: nat -> u16, m: nat, k: nat)
    requires Since(m, Calls(env, x, findNum, stack, m).regs, k, Calls(env, x, findNum, stack, k).regs)
    ensures Since(m, Calls(env, x, findNum, stack, m).regs, k + 1, Calls(env, x, findNum, stack, k + 1).regs)
  {
    CallsNext(env, x, findNum, stack, k);
    HalfKeeps(env, Calls(env, x, findNum, stack, k), Calls(env, x, findNum, stack, k + 1), findNum, FinderIdx(k),
              stack(k));
  }

  lemma FirstExtends(env: Env, x: Snap, findNum: s16, stack: nat -> u16, m: nat)
    ensures Since(m, Calls(env, x, findNum, stack, m).regs, 0, Calls(env, x, findNum, stack, 0).regs)
  {
  }

  lemma RunExtends(env: Env, x: Snap, findNum: s16, stack: nat -> u16, m: nat, n: nat)
    ensures Since(m, Calls(env, x, findNum, stack, m).regs, n, Calls(env, x, findNum, stack, n).regs)
  {
    var first := Calls(env, x, findNum, stack, m).regs;
    var holds := (k: nat) => Since(m, first, k, Calls(env, x, findNum, stack, k).regs);
    FirstExtends(env, x, findNum, stack, m);
    forall k: nat | Look(RUN, k) && holds(k)
      ensures holds(k + 1)
    {
      CallExtends(env, x, findNum, stack, m, k);
    }
    Along(holds, n);
  }

  lemma {:induction false} ListValueStays(env: Env, x: Snap, findNum: s16, stack: nat -> u16, n: nat)
    requires n >= 1
    ensures CrcListAfter(env, x, findNum, stack, n) == Calls(env, x, findNum, stack, 2).regs.crc
  {
    if n > 1 {
      ListValueStays(env, x, findNum, stack, n - 1);
    }
  }

  /** Whatever the number of iterations, the reported list value is the register after two calls; and the
      matrix and state values are those of any earlier moment at which they were not zero. */
  lemma ReportsSettle(env: Env, x: Snap, findNum: s16, stack: nat -> u16, m: nat, n: nat)
    requires m <= n
    ensures m >= 1 ==> CrcListAfter(env, x, findNum, stack, n) == Calls(env, x, findNum, stack, 2).regs.crc
    ensures Extends(Calls(env, x, findNum, stack, m).regs, Calls(env, x, findNum, stack, n).regs)
  {
    RunExtends(env, x, findNum, stack, m, n);
    if m >= 1 {
      ListValueStays(env, x, findNum, stack, n);
    }
  }
}
