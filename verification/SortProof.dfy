/** Why the merge sort sorts, although its comparator changes the items it compares. */
module SortProof {
  import opened Words
  import opened Records
  import opened Sorting

  // ---------- Merging ----------

  /** Once all items are touched, merging changes none of them and is an ordinary stable merge. */
  lemma {:induction false} MergeTouched<N>(cmp: Comparator, p: seq<N>, q: seq<N>, st: State<N>)
    requires cmp.Lawful() && Covers(st, p) && Covers(st, q) && Apart(p, q)
    requires AllTouched(cmp, p, st.items) && AllTouched(cmp, q, st.items)
    requires Sorted(cmp, p, st.items) && Sorted(cmp, q, st.items)
    ensures Merge(cmp, p, q, st).st.items == st.items
    ensures StablySorted(cmp, p + q, Merge(cmp, p, q, st).order, st.items)
    decreases |p| + |q|, 1
  {
    if p == [] {
      assert p + q == q;
    } else if q == [] {
      assert p + q == p;
    } else if KeyOf(cmp, p[0], st.items) <= KeyOf(cmp, q[0], st.items) {
      MergeTouchedFirst(cmp, p, q, st);
    } else {
      MergeTouchedSecond(cmp, p, q, st);
    }
  }

  lemma CompareTouched<N>(cmp: Comparator, p: seq<N>, q: seq<N>, st: State<N>)
    requires cmp.Lawful() && Covers(st, p) && Covers(st, q) && Apart(p, q) && p != [] && q != []
    requires AllTouched(cmp, p, st.items) && AllTouched(cmp, q, st.items)
    ensures Compare(cmp, p[0], q[0], st).items == st.items
  {
    assert p[0] in p && q[0] in q;
    CompareSteps(cmp, p[0], q[0], st);
  }

  lemma MergeTouchedFirst<N>(cmp: Comparator, p: seq<N>, q: seq<N>, st: State<N>)
    requires cmp.Lawful() && Covers(st, p) && Covers(st, q) && Apart(p, q)
    requires AllTouched(cmp, p, st.items) && AllTouched(cmp, q, st.items)
    requires Sorted(cmp, p, st.items) && Sorted(cmp, q, st.items)
    requires p != [] && q != [] && KeyOf(cmp, p[0], st.items) <= KeyOf(cmp, q[0], st.items)
    ensures Merge(cmp, p, q, st).st.items == st.items
    ensures StablySorted(cmp, p + q, Merge(cmp, p, q, st).order, st.items)
    decreases |p| + |q|, 0
  {
    var st' := Compare(cmp, p[0], q[0], st);
    CompareTouched(cmp, p, q, st);
    TailOk(cmp, p, st.items);
    MergeTouched(cmp, p[1..], q, st');
    TakeFirst(cmp, p, q, Merge(cmp, p[1..], q, st').order, st.items);
  }

  lemma MergeTouchedSecond<N>(cmp: Comparator, p: seq<N>, q: seq<N>, st: State<N>)
    requires cmp.Lawful() && Covers(st, p) && Covers(st, q) && Apart(p, q)
    requires AllTouched(cmp, p, st.items) && AllTouched(cmp, q, st.items)
    requires Sorted(cmp, p, st.items) && Sorted(cmp, q, st.items)
    requires p != [] && q != [] && KeyOf(cmp, p[0], st.items) > KeyOf(cmp, q[0], st.items)
    ensures Merge(cmp, p, q, st).st.items == st.items
    ensures StablySorted(cmp, p + q, Merge(cmp, p, q, st).order, st.items)
    decreases |p| + |q|, 0
  {
    var st' := Compare(cmp, p[0], q[0], st);
    CompareTouched(cmp, p, q, st);
    TailOk(cmp, q, st.items);
    MergeTouched(cmp, p, q[1..], st');
    TakeSecond(cmp, p, q, Merge(cmp, p, q[1..], st').order, st.items);
  }

  lemma TailOk<N>(cmp: Comparator, s: seq<N>, items: map<N, Item>)
    requires s != [] && AllTouched(cmp, s, items) && Sorted(cmp, s, items)
    ensures AllTouched(cmp, s[1..], items) && Sorted(cmp, s[1..], items)
    ensures forall x :: x in s[1..] ==> x in s
  {
  }

  /** `r` is the run made of the block `b`.  A block of one element has not been compared yet, so its
      item may be untouched and its key may still change. */
  ghost predicate Run<N>(cmp: Comparator, b: seq<N>, r: seq<N>, items: map<N, Item>) {
    if |b| <= 1 then r == b
    else AllTouched(cmp, r, items) && StablySorted(cmp, b, r, items)
  }

  /** A run, or the one run made of it, under the items after its first comparison. */
  lemma RunAfterTouch<N>(cmp: Comparator, b: seq<N>, r: seq<N>, before: map<N, Item>, after: map<N, Item>)
    requires Run(cmp, b, r, before) && b != []
    requires Steps(cmp, before, after) && r != [] && r[0] in after && cmp.touched(after[r[0]])
    ensures AllTouched(cmp, r, after) && StablySorted(cmp, b, r, after)
  {
    if |b| == 1 {
      assert Filter(cmp, r, after, 0) == Filter(cmp, b, after, 0);
    } else {
      TouchedRunStays(cmp, b, r, before, after);
    }
  }

  lemma {:induction false} FilterStays<N>(cmp: Comparator, s: seq<N>, before: map<N, Item>, after: map<N, Item>, k: int)
    requires forall x :: x in s ==> x in before && x in after && before[x] == after[x]
    ensures Filter(cmp, s, before, k) == Filter(cmp, s, after, k)
  {
    if s != [] {
      FilterStays(cmp, s[1..], before, after, k);
    }
  }

  lemma TouchedRunStays<N>(cmp: Comparator, b: seq<N>, r: seq<N>, before: map<N, Item>, after: map<N, Item>)
    requires AllTouched(cmp, r, before) && StablySorted(cmp, b, r, before) && Steps(cmp, before, after)
    ensures AllTouched(cmp, r, after) && StablySorted(cmp, b, r, after)
  {
    forall x | x in b
      ensures x in r
    {
      assert x in multiset(b);
      assert x in multiset(r);
    }
    forall k
      ensures Filter(cmp, r, after, k) == Filter(cmp, b, after, k)
    {
      FilterStays(cmp, r, before, after, k);
      FilterStays(cmp, b, before, after, k);
      assert Filter(cmp, r, before, k) == Filter(cmp, b, before, k);
    }
  }

  lemma RunStays<N>(cmp: Comparator, b: seq<N>, r: seq<N>, before: map<N, Item>, after: map<N, Item>)
    requires Run(cmp, b, r, before) && Steps(cmp, before, after)
    ensures Run(cmp, b, r, after)
  {
    if |b| > 1 {
      TouchedRunStays(cmp, b, r, before, after);
    }
  }

  /** Stable sorting of two adjacent blocks, then of their concatenation. */
  lemma StableConcat<N>(cmp: Comparator, b: seq<N>, c: seq<N>, p: seq<N>, q: seq<N>, r: seq<N>, items: map<N, Item>)
    requires StablySorted(cmp, b, p, items) && StablySorted(cmp, c, q, items)
    requires StablySorted(cmp, p + q, r, items)
    ensures StablySorted(cmp, b + c, r, items)
  {
    forall k
      ensures Filter(cmp, r, items, k) == Filter(cmp, b + c, items, k)
    {
      FilterConcat(cmp, p, q, items, k);
      FilterConcat(cmp, b, c, items, k);
      assert Filter(cmp, p, items, k) == Filter(cmp, b, items, k);
      assert Filter(cmp, q, items, k) == Filter(cmp, c, items, k);
    }
  }

  /** Two runs, at least one of them possibly of a single item not yet compared, merge into a run. */
  lemma MergeRuns<N>(cmp: Comparator, b: seq<N>, c: seq<N>, p: seq<N>, q: seq<N>, st: State<N>)
    requires cmp.Lawful() && Covers(st, p) && Covers(st, q) && Apart(p, q)
    requires Run(cmp, b, p, st.items) && Run(cmp, c, q, st.items)
    requires |p| == |b| && |q| == |c|
    ensures var r := Merge(cmp, p, q, st);
            Run(cmp, b + c, r.order, r.st.items)
  {
    if p == [] {
      assert b + c == c;
    } else if q == [] {
      assert b + c == b;
    } else {
      MergeTwoRuns(cmp, b, c, p, q, st);
    }
  }

  lemma MergeTwoRuns<N>(cmp: Comparator, b: seq<N>, c: seq<N>, p: seq<N>, q: seq<N>, st: State<N>)
    requires cmp.Lawful() && Covers(st, p) && Covers(st, q) && Apart(p, q)
    requires Run(cmp, b, p, st.items) && Run(cmp, c, q, st.items)
    requires |p| == |b| > 0 && |q| == |c| > 0
    ensures var r := Merge(cmp, p, q, st);
            AllTouched(cmp, r.order, r.st.items) && StablySorted(cmp, b + c, r.order, r.st.items)
  {
    var st' := Compare(cmp, p[0], q[0], st);
    var items := st'.items;
    assert p[0] in p && q[0] in q;
    CompareSteps(cmp, p[0], q[0], st);
    RunAfterTouch(cmp, b, p, st.items, items);
    RunAfterTouch(cmp, c, q, st.items, items);
    var r := Merge(cmp, p, q, st);
    if KeyOf(cmp, p[0], items) <= KeyOf(cmp, q[0], items) {
      MergeTouched(cmp, p[1..], q, st');
      TakeFirst(cmp, p, q, Merge(cmp, p[1..], q, st').order, items);
    } else {
      MergeTouched(cmp, p, q[1..], st');
      TakeSecond(cmp, p, q, Merge(cmp, p, q[1..], st').order, items);
    }
    assert StablySorted(cmp, p + q, r.order, items);
    StableConcat(cmp, b, c, p, q, r.order, items);
    PermutedTouched(cmp, p + q, r.order, items);
  }

  lemma PermutedTouched<N>(cmp: Comparator, s: seq<N>, r: seq<N>, items: map<N, Item>)
    requires AllTouched(cmp, s, items) && multiset(r) == multiset(s)
    ensures AllTouched(cmp, r, items)
  {
    forall x | x in r
      ensures x in s
    {
      assert x in multiset(r);
      assert x in multiset(s);
    }
  }

  // ---------- Passes ----------

  /** `s` consists of the runs made of consecutive blocks of `b`, each of length `w` but the last. */
  ghost predicate Runs<N>(cmp: Comparator, b: seq<N>, s: seq<N>, w: nat, items: map<N, Item>)
    requires w > 0
    decreases |b|
  {
    |b| == |s| &&
    if |b| <= w then Run(cmp, b, s, items)
    else Run(cmp, b[..w], s[..w], items) && Runs(cmp, b[w..], s[w..], w, items)
  }

  lemma {:induction false} RunsStay<N>(cmp: Comparator, b: seq<N>, s: seq<N>, w: nat,
                                       before: map<N, Item>, after: map<N, Item>)
    requires w > 0 && Runs(cmp, b, s, w, before) && Steps(cmp, before, after)
    ensures Runs(cmp, b, s, w, after)
    decreases |b|
  {
    if |b| <= w {
      RunStays(cmp, b, s, before, after);
    } else {
      RunStays(cmp, b[..w], s[..w], before, after);
      RunsStay(cmp, b[w..], s[w..], w, before, after);
    }
  }

  lemma {:induction false} PassSteps<N>(cmp: Comparator, s: seq<N>, w: nat, st: State<N>)
    requires cmp.Lawful() && w > 0 && Covers(st, s) && NoRepeats(s)
    ensures Steps(cmp, st.items, Pass(cmp, s, w, st).st.items)
    decreases |s|
  {
    if s != [] {
      var k, m := Min(w, |s|), Min(2 * w, |s|);
      NoRepeatsSplit(s, k, m);
      var merged := Merge(cmp, s[..k], s[k..m], st);
      MergeSteps(cmp, s[..k], s[k..m], st);
      PassSteps(cmp, s[m..], w, merged.st);
      StepsTransitive(cmp, st.items, merged.st.items, Pass(cmp, s[m..], w, merged.st).st.items);
    }
  }

  lemma RunsParts<N>(cmp: Comparator, b: seq<N>, s: seq<N>, w: nat, k: nat, m: nat, items: map<N, Item>)
    requires w > 0 && Runs(cmp, b, s, w, items) && k == Min(w, |s|) && m == Min(2 * w, |s|)
    ensures |b| == |s| && Run(cmp, b[..k], s[..k], items) && Run(cmp, b[k..m], s[k..m], items)
    ensures Runs(cmp, b[m..], s[m..], w, items)
  {
    if |b| <= w {
      assert b[..k] == b && s[..k] == s;
    } else if |b| <= 2 * w {
      assert b[k..m] == b[w..] && s[k..m] == s[w..];
    } else {
      assert b[w..][..w] == b[k..m] && s[w..][..w] == s[k..m];
      assert b[w..][w..] == b[m..] && s[w..][w..] == s[m..];
    }
  }

  lemma RunsJoin<N>(cmp: Comparator, b: seq<N>, x: seq<N>, t: seq<N>, w: nat, items: map<N, Item>)
    requires w > 0 && |x| == Min(w, |b|) && Run(cmp, b[..|x|], x, items)
    requires Runs(cmp, b[|x|..], t, w, items)
    ensures Runs(cmp, b, x + t, w, items)
  {
    if |b| <= w {
      assert b[..|x|] == b;
      assert x + t == x;
    } else {
      assert (x + t)[..w] == x && (x + t)[w..] == t;
    }
  }

  /** One pass doubles the length of the runs. */
  lemma {:induction false} PassRuns<N>(cmp: Comparator, b: seq<N>, s: seq<N>, w: nat, st: State<N>)
    requires cmp.Lawful() && w > 0 && Covers(st, s) && NoRepeats(s)
    requires Runs(cmp, b, s, w, st.items)
    ensures var r := Pass(cmp, s, w, st);
            Runs(cmp, b, r.order, 2 * w, r.st.items)
    decreases |s|, 1
  {
    if s != [] {
      var k, m := Min(w, |s|), Min(2 * w, |s|);
      PassRunsStep(cmp, b, s, w, k, m, st);
      var merged := Merge(cmp, s[..k], s[k..m], st);
      PassRunsRest(cmp, b, s, w, m, merged);
    }
  }

  lemma PassRunsRest<N>(cmp: Comparator, b: seq<N>, s: seq<N>, w: nat, m: nat, merged: Out<N>)
    requires cmp.Lawful() && w > 0 && NoRepeats(s) && |b| == |s| > 0
    requires |merged.order| == m == Min(2 * w, |s|) && Covers(merged.st, s[m..])
    requires Run(cmp, b[..m], merged.order, merged.st.items)
    requires Runs(cmp, b[m..], s[m..], w, merged.st.items)
    ensures NoRepeats(s[m..])
    ensures var rest := Pass(cmp, s[m..], w, merged.st);
            Runs(cmp, b, merged.order + rest.order, 2 * w, rest.st.items)
    decreases |s|, 0
  {
    NoRepeatsSplit(s, 0, m);
    PassRuns(cmp, b[m..], s[m..], w, merged.st);
    PassSteps(cmp, s[m..], w, merged.st);
    PassJoin(cmp, b, merged, Pass(cmp, s[m..], w, merged.st), w, m);
  }

  lemma PassJoin<N>(cmp: Comparator, b: seq<N>, merged: Out<N>, rest: Out<N>, w: nat, m: nat)
    requires w > 0 && |merged.order| == m == Min(2 * w, |b|)
    requires Run(cmp, b[..m], merged.order, merged.st.items)
    requires Steps(cmp, merged.st.items, rest.st.items)
    requires Runs(cmp, b[m..], rest.order, 2 * w, rest.st.items)
    ensures Runs(cmp, b, merged.order + rest.order, 2 * w, rest.st.items)
  {
    RunStays(cmp, b[..m], merged.order, merged.st.items, rest.st.items);
    RunsJoin(cmp, b, merged.order, rest.order, 2 * w, rest.st.items);
  }

  lemma PassRunsStep<N>(cmp: Comparator, b: seq<N>, s: seq<N>, w: nat, k: nat, m: nat, st: State<N>)
    requires cmp.Lawful() && w > 0 && Covers(st, s) && NoRepeats(s) && |b| == |s|
    requires k == Min(w, |s|) && m == Min(2 * w, |s|)
    requires Runs(cmp, b, s, w, st.items)
    ensures Apart(s[..k], s[k..m]) && NoRepeats(s[m..])
    ensures var merged := Merge(cmp, s[..k], s[k..m], st);
            Run(cmp, b[..m], merged.order, merged.st.items) &&
            Runs(cmp, b[m..], s[m..], w, merged.st.items)
  {
    NoRepeatsSplit(s, k, m);
    RunsParts(cmp, b, s, w, k, m, st.items);
    MergeRuns(cmp, b[..k], b[k..m], s[..k], s[k..m], st);
    ThreeParts(b, k, m);
    MergeSteps(cmp, s[..k], s[k..m], st);
    RunsStay(cmp, b[m..], s[m..], w, st.items, Merge(cmp, s[..k], s[k..m], st).st.items);
  }

  /** All passes together leave one run. */
  lemma {:induction false} SortRuns<N>(cmp: Comparator, b: seq<N>, s: seq<N>, w: nat, st: State<N>)
    requires cmp.Lawful() && w > 0 && Covers(st, s) && NoRepeats(s)
    requires Runs(cmp, b, s, w, st.items)
    ensures var r := Sort(cmp, s, w, st);
            Run(cmp, b, r.order, r.st.items) && Steps(cmp, st.items, r.st.items)
    decreases |s| - w
  {
    PassRuns(cmp, b, s, w, st);
    PassSteps(cmp, s, w, st);
    if |s| > 2 * w {
      var pass := Pass(cmp, s, w, st);
      PassPermutes(cmp, s, w, st);
      CoversPermutation(s, st, pass);
      SortRuns(cmp, b, pass.order, 2 * w, pass.st);
      StepsTransitive(cmp, st.items, pass.st.items, Sort(cmp, pass.order, 2 * w, pass.st).st.items);
    }
  }

  lemma {:induction false} SingletonRuns<N>(cmp: Comparator, s: seq<N>, items: map<N, Item>)
    ensures Runs(cmp, s, s, 1, items)
  {
    if |s| > 1 {
      SingletonRuns(cmp, s[1..], items);
    }
  }

  /** The merge sort is right for every lawful comparator, however it rewrites the items: the result
      holds the same nodes, sorted by the keys the items end up with and stable on ties, and with two
      nodes or more every item has been touched. */
  lemma SortIsRight<N>(cmp: Comparator, s: seq<N>, st: State<N>)
    requires cmp.Lawful() && Covers(st, s) && NoRepeats(s)
    ensures var r := Sort(cmp, s, 1, st);
            StablySorted(cmp, s, r.order, r.st.items) &&
            Steps(cmp, st.items, r.st.items) &&
            (|s| >= 2 ==> AllTouched(cmp, s, r.st.items))
  {
    var r := Sort(cmp, s, 1, st);
    SingletonRuns(cmp, s, st.items);
    SortRuns(cmp, s, s, 1, st);
    if |s| >= 2 {
      PermutedTouched(cmp, r.order, s, r.st.items);
    }
  }

  // ---------- Other items ----------

  /** The items of nodes outside `s` stay as they are. */
  ghost predicate Elsewhere<N>(s: seq<N>, before: map<N, Item>, after: map<N, Item>) {
    forall x :: x in before && x !in s ==> x in after && after[x] == before[x]
  }

  lemma {:induction false} MergeElsewhere<N>(cmp: Comparator, p: seq<N>, q: seq<N>, st: State<N>)
    ensures Elsewhere(p + q, st.items, Merge(cmp, p, q, st).st.items)
    decreases |p| + |q|
  {
    if p != [] && q != [] {
      var st' := Compare(cmp, p[0], q[0], st);
      if KeyOf(cmp, p[0], st'.items) <= KeyOf(cmp, q[0], st'.items) {
        MergeElsewhere(cmp, p[1..], q, st');
      } else {
        MergeElsewhere(cmp, p, q[1..], st');
      }
    }
  }

  lemma {:induction false} PassElsewhere<N>(cmp: Comparator, s: seq<N>, w: nat, st: State<N>)
    requires w > 0
    ensures Elsewhere(s, st.items, Pass(cmp, s, w, st).st.items)
    decreases |s|
  {
    if s != [] {
      var k, m := Min(w, |s|), Min(2 * w, |s|);
      MergeElsewhere(cmp, s[..k], s[k..m], st);
      PassElsewhere(cmp, s[m..], w, Merge(cmp, s[..k], s[k..m], st).st);
    }
  }

  /** The sort changes no item of a node that is not in the list. */
  lemma {:induction false} SortElsewhere<N>(cmp: Comparator, s: seq<N>, w: nat, st: State<N>)
    requires w > 0
    ensures Elsewhere(s, st.items, Sort(cmp, s, w, st).st.items)
    decreases |s| - w
  {
    PassElsewhere(cmp, s, w, st);
    if |s| > 2 * w {
      var pass := Pass(cmp, s, w, st);
      PassPermutes(cmp, s, w, st);
      SameMembers(s, pass.order);
      SortElsewhere(cmp, pass.order, 2 * w, pass.st);
    }
  }

  lemma SameMembers<N>(s: seq<N>, r: seq<N>)
    requires multiset(r) == multiset(s)
    ensures forall x :: x in r <==> x in s
  {
    forall x
      ensures x in r <==> x in s
    {
      assert x in r <==> x in multiset(r);
      assert x in s <==> x in multiset(s);
    }
  }

  // ---------- Cost ----------

  /** The passes made from run length `w` on. */
  function Passes(n: nat, w: nat): (k: nat)
    requires w > 0
    ensures k >= 1
    decreases n - w
  {
    if n <= 2 * w then 1 else 1 + Passes(n, 2 * w)
  }

  /** The passes are max(1, ceil(log2 n)); the run length stays below n, so doubling it never overflows. */
  lemma {:induction false} PassesAreLog(n: nat, w: nat)
    requires w > 0
    ensures n <= Pow2(Passes(n, w)) * w
    ensures Passes(n, w) == 1 || Pow2(Passes(n, w) - 1) * w < n
    decreases n - w
  {
    if n > 2 * w {
      PassesAreLog(n, 2 * w);
      var p := Pow2(Passes(n, 2 * w));
      var h := Pow2(Passes(n, 2 * w) - 1);
      assert p == 2 * h;
      assert p * (2 * w) == (2 * p) * w;
      assert h * (2 * w) == p * w;
      if Passes(n, 2 * w) == 1 {
        assert h == 1;
      }
    } else {
      assert Pow2(1) == 2;
    }
  }

  lemma TimesOneMore(n: nat, k: nat)
    ensures n * (1 + k) == n + n * k
  {
  }

  /** n comparisons for each pass. */
  function Budget(n: nat, w: nat): nat
    requires w > 0
    decreases n - w
  {
    if n <= 2 * w then n else n + Budget(n, 2 * w)
  }

  lemma {:induction false} BudgetIsPasses(n: nat, w: nat)
    requires w > 0
    ensures Budget(n, w) == n * Passes(n, w)
    decreases n - w
  {
    if n > 2 * w {
      BudgetIsPasses(n, 2 * w);
      TimesOneMore(n, Passes(n, 2 * w));
    }
  }

  lemma {:induction false} SortBudget<N>(cmp: Comparator, s: seq<N>, w: nat, st: State<N>)
    requires w > 0
    ensures Sort(cmp, s, w, st).st.cmps <= st.cmps + Budget(|s|, w)
    decreases |s| - w
  {
    PassPermutes(cmp, s, w, st);
    if |s| > 2 * w {
      var pass := Pass(cmp, s, w, st);
      SortBudget(cmp, pass.order, 2 * w, pass.st);
    }
  }

  /** The sort makes at most n comparisons in each of max(1, ceil(log2 n)) passes. */
  lemma SortCost<N>(cmp: Comparator, s: seq<N>, st: State<N>)
    ensures Sort(cmp, s, 1, st).st.cmps <= st.cmps + |s| * Passes(|s|, 1)
    ensures |s| <= Pow2(Passes(|s|, 1))
    ensures Passes(|s|, 1) == 1 || Pow2(Passes(|s|, 1) - 1) < |s|
  {
    SortBudget(cmp, s, 1, st);
    BudgetIsPasses(|s|, 1);
    PassesAreLog(|s|, 1);
  }

  // ---------- When sorting restores an order ----------

  ghost predicate DistinctKeys<N>(cmp: Comparator, s: seq<N>, items: map<N, Item>) {
    forall i, j :: 0 <= i < j < |s| ==> KeyOf(cmp, s[i], items) != KeyOf(cmp, s[j], items)
  }

  /** The keys of a list do not depend on its order. */
  lemma DistinctKeysPermute<N>(cmp: Comparator, s: seq<N>, r: seq<N>, items: map<N, Item>)
    requires multiset(r) == multiset(s) && NoRepeats(s) && DistinctKeys(cmp, s, items)
    ensures DistinctKeys(cmp, r, items)
  {
    SamePermutation(s, r);
    forall i, j | 0 <= i < j < |r|
      ensures KeyOf(cmp, r[i], items) != KeyOf(cmp, r[j], items)
    {
      assert r[i] in s && r[j] in s;
      var p :| 0 <= p < |s| && s[p] == r[i];
      var q :| 0 <= q < |s| && s[q] == r[j];
    }
  }

  /** With distinct keys there is only one sorted order. */
  lemma {:induction false} SortedUnique<N>(cmp: Comparator, s: seq<N>, r: seq<N>, items: map<N, Item>)
    requires Sorted(cmp, s, items) && Sorted(cmp, r, items) && DistinctKeys(cmp, s, items)
    requires multiset(r) == multiset(s)
    ensures r == s
  {
    if s == [] {
      assert |multiset(r)| == 0;
    } else {
      assert s[0] in multiset(s) && |r| == |multiset(r)| > 0;
      assert r[0] in multiset(r);
      assert s[0] in r && r[0] in s;
      assert KeyOf(cmp, r[0], items) == KeyOf(cmp, s[0], items);
      SameTail(s, r);
      SortedUnique(cmp, s[1..], r[1..], items);
    }
  }

  lemma SameTail<N>(s: seq<N>, r: seq<N>)
    requires s != [] && r != [] && s[0] == r[0] && multiset(s) == multiset(r)
    ensures multiset(s[1..]) == multiset(r[1..])
  {
    assert r == [r[0]] + r[1..] && s == [s[0]] + s[1..];
    assert multiset(s[1..]) == multiset(s) - multiset{s[0]};
    assert multiset(r[1..]) == multiset(r) - multiset{r[0]};
  }

  lemma SwapEqual<N>(cmp: Comparator, s: seq<N>, i: nat, j: nat, items: map<N, Item>)
    requires i < j < |s| && KeyOf(cmp, s[i], items) == KeyOf(cmp, s[j], items) && Sorted(cmp, s, items)
    ensures multiset(s[i := s[j]][j := s[i]]) == multiset(s)
    ensures Sorted(cmp, s[i := s[j]][j := s[i]], items)
  {
    var p := s[i := s[j]][j := s[i]];
    forall k | 0 <= k < |s|
      ensures KeyOf(cmp, p[k], items) == KeyOf(cmp, s[k], items)
    {
    }
  }

  /** Sorting brings back a sorted order from every rearrangement exactly when its keys are distinct. */
  lemma RestoredFromAnyOrder<N(!new)>(cmp: Comparator, s: seq<N>, items: map<N, Item>)
    requires Sorted(cmp, s, items) && NoRepeats(s)
    ensures DistinctKeys(cmp, s, items) <==>
            forall p, r :: multiset(p) == multiset(s) && StablySorted(cmp, p, r, items) ==> r == s
  {
    if DistinctKeys(cmp, s, items) {
      forall p, r | multiset(p) == multiset(s) && StablySorted(cmp, p, r, items)
        ensures r == s
      {
        SortedUnique(cmp, s, r, items);
      }
    } else {
      var i, j :| 0 <= i < j < |s| && KeyOf(cmp, s[i], items) == KeyOf(cmp, s[j], items);
      var p := s[i := s[j]][j := s[i]];
      SwapEqual(cmp, s, i, j, items);
      assert StablySorted(cmp, p, p, items);
      assert p[i] != s[i];
    }
  }
}
