/** core_list_mergesort of core_list_join.c as a function on sequences of nodes.  The comparator writes
    to the items it compares, so every step threads a state: the items, the registers of the results
    structure, and a count of comparisons. */
module Sorting {
  import opened Words
  import opened Records

  datatype State<N> = State(items: map<N, Item>, regs: Regs, cmps: nat)

  datatype Out<N> = Out(order: seq<N>, st: State<N>)

  predicate Covers<N(==)>(st: State<N>, s: seq<N>) {
    forall x :: x in s ==> x in st.items
  }

  predicate Apart<N(==)>(p: seq<N>, q: seq<N>) {
    forall x :: x in p ==> x !in q
  }

  predicate NoRepeats<N(==)>(s: seq<N>) {
    forall i, j :: 0 <= i < j < |s| ==> s[i] != s[j]
  }

  function Min(a: nat, b: nat): nat {
    if a <= b then a else b
  }

  // ---------- The algorithm ----------

  /** The state after the comparator has looked at `p` and then at `q`. */
  function Compare<N(==)>(cmp: Comparator, p: N, q: N, st: State<N>): (r: State<N>)
    ensures r.items.Keys == st.items.Keys
  {
    if p !in st.items || q !in st.items then st
    else
    var x, y := st.items[p], st.items[q];
    var regs := cmp.regs(x, st.regs);
    State(st.items[p := cmp.touch(x, st.regs)][q := cmp.touch(y, regs)], cmp.regs(y, regs), st.cmps + 1)
  }

  function KeyOf<N(==)>(cmp: Comparator, x: N, items: map<N, Item>): int {
    if x in items then cmp.key(items[x]) else 0
  }

  /** The inner loop: merge two runs, taking from the first on ties. */
  function Merge<N(==)>(cmp: Comparator, p: seq<N>, q: seq<N>, st: State<N>): (r: Out<N>)
    ensures r.st.items.Keys == st.items.Keys
    ensures |r.order| == |p| + |q|
    decreases |p| + |q|
  {
    if p == [] then Out(q, st)
    else if q == [] then Out(p, st)
    else
      var st' := Compare(cmp, p[0], q[0], st);
      if KeyOf(cmp, p[0], st'.items) <= KeyOf(cmp, q[0], st'.items) then
        var r := Merge(cmp, p[1..], q, st');
        Out([p[0]] + r.order, r.st)
      else
        var r := Merge(cmp, p, q[1..], st');
        Out([q[0]] + r.order, r.st)
  }

  lemma NoRepeatsSplit<N>(s: seq<N>, k: nat, m: nat)
    requires NoRepeats(s) && k <= m <= |s|
    ensures Apart(s[..k], s[k..m]) && NoRepeats(s[m..])
  {
  }

  /** One pass: merge runs of length `w` two by two. */
  function Pass<N(==)>(cmp: Comparator, s: seq<N>, w: nat, st: State<N>): (r: Out<N>)
    requires w > 0
    ensures r.st.items.Keys == st.items.Keys
    ensures |r.order| == |s|
    decreases |s|
  {
    if s == [] then Out([], st)
    else
      var k := Min(w, |s|);
      var m := Min(2 * w, |s|);
      var merged := Merge(cmp, s[..k], s[k..m], st);
      var rest := Pass(cmp, s[m..], w, merged.st);
      Out(merged.order + rest.order, rest.st)
  }

  /** All passes from run length `w` on: the last is the one that needed at most one merge. */
  function Sort<N(==)>(cmp: Comparator, s: seq<N>, w: nat, st: State<N>): (r: Out<N>)
    requires w > 0
    ensures r.st.items.Keys == st.items.Keys && |r.order| == |s|
    decreases |s| - w
  {
    var pass := Pass(cmp, s, w, st);
    if |s| <= 2 * w then pass else Sort(cmp, pass.order, 2 * w, pass.st)
  }

  lemma CoversPermutation<N>(s: seq<N>, st: State<N>, r: Out<N>)
    requires Covers(st, s) && NoRepeats(s)
    requires multiset(r.order) == multiset(s) && r.st.items.Keys == st.items.Keys
    ensures Covers(r.st, r.order) && NoRepeats(r.order)
  {
    SamePermutation(s, r.order);
  }

  lemma SamePermutation<N>(s: seq<N>, r: seq<N>)
    requires multiset(r) == multiset(s) && NoRepeats(s)
    ensures NoRepeats(r)
    ensures forall x :: x in r <==> x in s
  {
    forall x
      ensures x in r <==> x in s
    {
      assert x in r <==> x in multiset(r);
      assert x in s <==> x in multiset(s);
    }
    forall i, j | 0 <= i < j < |r|
      ensures r[i] != r[j]
    {
      if r[i] == r[j] {
        assert r == r[..j] + [r[j]] + r[j + 1..];
        assert r[i] in r[..j];
        assert multiset(r)[r[j]] >= 2;
        NoRepeatsOnce(s, r[j]);
        assert false;
      }
    }
  }

  lemma {:induction false} NoRepeatsOnce<N>(s: seq<N>, x: N)
    requires NoRepeats(s)
    ensures multiset(s)[x] <= 1
  {
    if s != [] {
      assert s == [s[0]] + s[1..];
      NoRepeatsOnce(s[1..], x);
      if x == s[0] {
        assert x !in s[1..];
      }
    }
  }

  lemma {:induction false} PassPermutes<N>(cmp: Comparator, s: seq<N>, w: nat, st: State<N>)
    requires w > 0
    ensures multiset(Pass(cmp, s, w, st).order) == multiset(s)
    ensures Pass(cmp, s, w, st).st.cmps <= st.cmps + |s|
    decreases |s|
  {
    if s != [] {
      var k := Min(w, |s|);
      var m := Min(2 * w, |s|);
      MergePermutes(cmp, s[..k], s[k..m], st);
      PassPermutes(cmp, s[m..], w, Merge(cmp, s[..k], s[k..m], st).st);
      ThreeParts(s, k, m);
    }
  }

  lemma ThreeParts<N>(s: seq<N>, k: nat, m: nat)
    requires k <= m <= |s|
    ensures multiset(s) == multiset(s[..k] + s[k..m]) + multiset(s[m..])
    ensures s[..k] + s[k..m] == s[..m]
  {
    assert s == (s[..k] + s[k..m]) + s[m..];
  }

  // ---------- What a state may become ----------

  /** Comparisons never change an item that has been touched, nor any item's backup or idx. */
  ghost predicate Steps<N>(cmp: Comparator, before: map<N, Item>, after: map<N, Item>) {
    before.Keys == after.Keys &&
    forall x :: x in before ==>
      cmp.same(before[x], after[x]) && (cmp.touched(before[x]) ==> after[x] == before[x])
  }

  ghost predicate AllTouched<N>(cmp: Comparator, s: seq<N>, items: map<N, Item>) {
    forall x :: x in s ==> x in items && cmp.touched(items[x])
  }

  lemma StepsTransitive<N>(cmp: Comparator, a: map<N, Item>, b: map<N, Item>, c: map<N, Item>)
    requires cmp.Lawful()
    requires Steps(cmp, a, b) && Steps(cmp, b, c)
    ensures Steps(cmp, a, c)
  {
  }

  lemma CompareSteps<N>(cmp: Comparator, p: N, q: N, st: State<N>)
    requires cmp.Lawful()
    requires p in st.items && q in st.items && p != q
    ensures Steps(cmp, st.items, Compare(cmp, p, q, st).items)
    ensures cmp.touched(Compare(cmp, p, q, st).items[p])
    ensures cmp.touched(Compare(cmp, p, q, st).items[q])
    ensures cmp.touched(st.items[p]) && cmp.touched(st.items[q]) ==>
              Compare(cmp, p, q, st).items == st.items
  {
  }

  lemma {:induction false} MergeSteps<N>(cmp: Comparator, p: seq<N>, q: seq<N>, st: State<N>)
    requires cmp.Lawful()
    requires Covers(st, p) && Covers(st, q) && Apart(p, q)
    ensures Steps(cmp, st.items, Merge(cmp, p, q, st).st.items)
    decreases |p| + |q|
  {
    if p != [] && q != [] {
      var st' := Compare(cmp, p[0], q[0], st);
      assert p[0] in p && q[0] in q;
      CompareSteps(cmp, p[0], q[0], st);
      if KeyOf(cmp, p[0], st'.items) <= KeyOf(cmp, q[0], st'.items) {
        MergeSteps(cmp, p[1..], q, st');
        StepsTransitive(cmp, st.items, st'.items, Merge(cmp, p[1..], q, st').st.items);
      } else {
        MergeSteps(cmp, p, q[1..], st');
        StepsTransitive(cmp, st.items, st'.items, Merge(cmp, p, q[1..], st').st.items);
      }
    }
  }

  lemma TakenOut<N>(p: seq<N>, q: seq<N>)
    requires p != [] && q != []
    ensures multiset(p + q) == multiset{p[0]} + multiset(p[1..] + q)
    ensures multiset(p + q) == multiset{q[0]} + multiset(p + q[1..])
  {
    assert p + q == [p[0]] + (p[1..] + q);
    assert p + q == p + [q[0]] + q[1..];
  }

  lemma {:induction false} MergePermutes<N>(cmp: Comparator, p: seq<N>, q: seq<N>, st: State<N>)
    ensures multiset(Merge(cmp, p, q, st).order) == multiset(p + q)
    ensures Merge(cmp, p, q, st).st.cmps <= st.cmps + |p| + |q|
    decreases |p| + |q|
  {
    if p == [] {
      assert p + q == q;
    } else if q == [] {
      assert p + q == p;
    } else {
      var st' := Compare(cmp, p[0], q[0], st);
      TakenOut(p, q);
      if KeyOf(cmp, p[0], st'.items) <= KeyOf(cmp, q[0], st'.items) {
        MergePermutes(cmp, p[1..], q, st');
      } else {
        MergePermutes(cmp, p, q[1..], st');
      }
    }
  }

  // ---------- Sorted and stable ----------

  ghost predicate Sorted<N>(cmp: Comparator, s: seq<N>, items: map<N, Item>) {
    forall i, j :: 0 <= i < j < |s| ==> KeyOf(cmp, s[i], items) <= KeyOf(cmp, s[j], items)
  }

  /** The elements of `s` with key `k`, in order. */
  ghost function Filter<N>(cmp: Comparator, s: seq<N>, items: map<N, Item>, k: int): seq<N> {
    if s == [] then []
    else (if KeyOf(cmp, s[0], items) == k then [s[0]] else []) + Filter(cmp, s[1..], items, k)
  }

  /** `r` holds the elements of `b` sorted by key, and elements of equal key in their order in `b`. */
  ghost predicate StablySorted<N>(cmp: Comparator, b: seq<N>, r: seq<N>, items: map<N, Item>) {
    multiset(r) == multiset(b) && Sorted(cmp, r, items) &&
    forall k :: Filter(cmp, r, items, k) == Filter(cmp, b, items, k)
  }

  lemma {:induction false} FilterConcat<N>(cmp: Comparator, s: seq<N>, t: seq<N>, items: map<N, Item>, k: int)
    ensures Filter(cmp, s + t, items, k) == Filter(cmp, s, items, k) + Filter(cmp, t, items, k)
  {
    if s == [] {
      assert s + t == t;
    } else {
      assert (s + t)[1..] == s[1..] + t;
      FilterConcat(cmp, s[1..], t, items, k);
    }
  }

  lemma {:induction false} FilterNone<N>(cmp: Comparator, s: seq<N>, items: map<N, Item>, k: int)
    requires forall x :: x in s ==> KeyOf(cmp, x, items) != k
    ensures Filter(cmp, s, items, k) == []
  {
    if s != [] {
      FilterNone(cmp, s[1..], items, k);
    }
  }

  /** Putting the smallest element first keeps a sequence sorted. */
  lemma SortedCons<N>(cmp: Comparator, x: N, r: seq<N>, s: seq<N>, items: map<N, Item>)
    requires Sorted(cmp, r, items) && multiset(r) == multiset(s)
    requires forall y :: y in s ==> KeyOf(cmp, x, items) <= KeyOf(cmp, y, items)
    ensures Sorted(cmp, [x] + r, items)
  {
    forall j | 0 <= j < |r|
      ensures KeyOf(cmp, x, items) <= KeyOf(cmp, r[j], items)
    {
      assert r[j] in multiset(r);
      assert r[j] in s;
    }
  }

  /** Taking the head of the first run. */
  lemma TakeFirst<N>(cmp: Comparator, p: seq<N>, q: seq<N>, r: seq<N>, items: map<N, Item>)
    requires p != [] && q != [] && Sorted(cmp, p, items) && Sorted(cmp, q, items)
    requires KeyOf(cmp, p[0], items) <= KeyOf(cmp, q[0], items)
    requires StablySorted(cmp, p[1..] + q, r, items)
    ensures StablySorted(cmp, p + q, [p[0]] + r, items)
  {
    assert p + q == [p[0]] + (p[1..] + q);
    SortedCons(cmp, p[0], r, p[1..] + q, items);
  }

  /** Taking the head of the second run, which is strictly smaller than all of the first. */
  lemma TakeSecond<N>(cmp: Comparator, p: seq<N>, q: seq<N>, r: seq<N>, items: map<N, Item>)
    requires p != [] && q != [] && Sorted(cmp, p, items) && Sorted(cmp, q, items)
    requires KeyOf(cmp, p[0], items) > KeyOf(cmp, q[0], items)
    requires StablySorted(cmp, p + q[1..], r, items)
    ensures StablySorted(cmp, p + q, [q[0]] + r, items)
  {
    var rest := p + q[1..];
    SecondIsSmallest(cmp, p, q, items);
    SortedCons(cmp, q[0], r, rest, items);
    forall k
      ensures Filter(cmp, [q[0]] + r, items, k) == Filter(cmp, p + q, items, k)
    {
      FilterSwap(cmp, p, q, items, k);
      FilterCons(cmp, q[0], r, items, k);
      FilterCons(cmp, q[0], rest, items, k);
    }
  }

  lemma FilterCons<N>(cmp: Comparator, x: N, s: seq<N>, items: map<N, Item>, k: int)
    ensures Filter(cmp, [x] + s, items, k) == (if KeyOf(cmp, x, items) == k then [x] else []) + Filter(cmp, s, items, k)
  {
    assert ([x] + s)[1..] == s;
  }

  lemma SecondIsSmallest<N>(cmp: Comparator, p: seq<N>, q: seq<N>, items: map<N, Item>)
    requires p != [] && q != [] && Sorted(cmp, p, items) && Sorted(cmp, q, items)
    requires KeyOf(cmp, p[0], items) > KeyOf(cmp, q[0], items)
    ensures multiset(p + q) == multiset([q[0]] + (p + q[1..]))
    ensures forall y :: y in p + q[1..] ==> KeyOf(cmp, q[0], items) <= KeyOf(cmp, y, items)
  {
    assert q == [q[0]] + q[1..];
  }

  lemma FilterSwap<N>(cmp: Comparator, p: seq<N>, q: seq<N>, items: map<N, Item>, k: int)
    requires p != [] && q != [] && Sorted(cmp, p, items) && Sorted(cmp, q, items)
    requires KeyOf(cmp, p[0], items) > KeyOf(cmp, q[0], items)
    ensures Filter(cmp, p + q, items, k) == Filter(cmp, [q[0]] + (p + q[1..]), items, k)
  {
    var x, t := [q[0]], q[1..];
    ghost var fp, fx, ft := Filter(cmp, p, items, k), Filter(cmp, x, items, k), Filter(cmp, t, items, k);
    assert Filter(cmp, p + q, items, k) == fp + (fx + ft) by {
      assert q == x + t;
      FilterConcat(cmp, p, q, items, k);
      FilterConcat(cmp, x, t, items, k);
    }
    assert Filter(cmp, x + (p + t), items, k) == fx + (fp + ft) by {
      FilterConcat(cmp, x, p + t, items, k);
      FilterConcat(cmp, p, t, items, k);
    }
    assert fp == [] || fx == [] by {
      if KeyOf(cmp, q[0], items) == k {
        FilterNone(cmp, p, items, k);
      } else {
        FilterNone(cmp, x, items, k);
      }
    }
    SwapWithEmpty(fp, fx, ft);
  }

  lemma SwapWithEmpty<N>(a: seq<N>, b: seq<N>, c: seq<N>)
    requires a == [] || b == []
    ensures a + (b + c) == b + (a + c)
  {
    assert [] + (b + c) == b + ([] + c);
    assert a + ([] + c) == [] + (a + c);
  }
}
